/**
 One publication request sent any number of times. Whatever failed before, the run that meets no more faults ends as an
 uninterrupted one, and no config is written twice.
 */
module PublishAttempts {
  import opened PublishModel
  import opened PublishResume

  // The world after attempts at one request that each met these faults.
  function AfterAttempts(w: World, apps: Apps, id: string, req: Request, tag: nat, attempts: seq<Faults>): World
    requires WellFormed(w)
    decreases |attempts|
  {
    if attempts == [] then w
    else
      var u := Publish(w, apps, id, req, tag, attempts[0]).0;
      if WellFormed(u) then AfterAttempts(u, apps, id, req, tag, attempts[1..]) else u
  }

  // Every attempt failed at some stage, with no other writer, and left what can be resumed.
  predicate AllResumable(w: World, apps: Apps, id: string, req: Request, tag: nat, attempts: seq<Faults>)
    requires WellFormed(w)
    decreases |attempts|
  {
    attempts == []
    || (var (u, outcome) := Publish(w, apps, id, req, tag, attempts[0]);
        && Quiet(attempts[0]) && outcome.Partial? && id in w.drafts && Resumable(w, u, w.drafts[id], req, outcome.stage)
        && WellFormed(u) && AllResumable(u, apps, id, req, tag, attempts[1..]))
  }

  // Whether the record of the publisher is missing after the attempts and a last run.
  function RecordFailsAfter(w: World, apps: Apps, id: string, req: Request, tag: nat, attempts: seq<Faults>,
                            r: bool): bool
    requires WellFormed(w) && AllResumable(w, apps, id, req, tag, attempts)
    decreases |attempts|
  {
    if attempts == [] then r
    else
      var (u, outcome) := Publish(w, apps, id, req, tag, attempts[0]);
      RecordFails(attempts[0], outcome.stage, RecordFailsAfter(u, apps, id, req, tag, attempts[1..], r))
  }

  /**
   Any number of failed attempts converge: the run after them ends as an uninterrupted run of the first world would
   have, and with the same log of writes unless some attempt undid an update.
   */
  lemma {:induction false} AttemptsConverge(w: World, apps: Apps, id: string, req: Request, tag: nat,
                                            attempts: seq<Faults>, r: bool)
    requires Current(w, id, req, tag) && AllResumable(w, apps, id, req, tag, attempts)
    ensures var u := AfterAttempts(w, apps, id, req, tag, attempts);
            && Current(u, id, req, tag)
            && var again, whole := Publish(u, apps, id, req, tag, Clean(r)),
                                   Publish(w, apps, id, req, tag,
                                           Clean(RecordFailsAfter(w, apps, id, req, tag, attempts, r)));
               && again.1 == whole.1 && (attempts != [] ==> again.1 == Completed)
               && SameButLog(whole.0, again.0)
               && ((forall i :: 0 <= i < |attempts| ==> !attempts[i].configure) ==> again == whole)
    decreases |attempts|
  {
    if attempts != [] {
      var u := Publish(w, apps, id, req, tag, attempts[0]).0;
      var rest := RecordFailsAfter(u, apps, id, req, tag, attempts[1..], r);
      ResumeConverges(w, apps, id, req, tag, attempts[0], rest);
      AttemptsConverge(u, apps, id, req, tag, attempts[1..], r);
    }
  }

  // ---------------------------------------------------------------------------------------------
  // The log of writes
  // ---------------------------------------------------------------------------------------------

  // No config appears twice after the first n writes, except an experiment whose update was undone.
  predicate WrittenOnce(writes: seq<ConfigName>, n: nat, undone: bool) {
    forall i, j :: n <= i < j < |writes| && writes[i] == writes[j] ==> undone && writes[i].ExperimentConfig?
  }

  lemma {:induction false} StageLogs(w: World, changed: seq<ScenarioChange>)
    ensures var after := RunScenarioStage(w, changed, {}).0;
            && |after.writes| == |w.writes| + |changed|
            && w.writes <= after.writes
            && forall i :: 0 <= i < |changed| ==> after.writes[|w.writes| + i] == ScenarioConfig(changed[i].name)
    decreases |changed|
  {
    if changed != [] {
      StageLogs(WriteScenario(w, changed[0]), changed[1..]);
    }
  }

  // What the experiment stage logs: the write, and the one that undoes it.
  predicate ExperimentLog(before: seq<ConfigName>, after: seq<ConfigName>, name: string, undone: bool) {
    || after == before
    || after == before + [ExperimentConfig(name)]
    || (undone && after == before + [ExperimentConfig(name), ExperimentConfig(name)])
  }

  lemma ExperimentStageLogs(w: World, apps: Apps, d: Draft, req: Request, plan: Plan, f: Faults)
    requires req.topology.name in w.topologies
    ensures ExperimentLog(w.writes, RunExperimentStage(w, apps, d, req, plan, f).0.writes, req.ExperimentName(),
                          f.configure)
  {
    var name := ExperimentConfig(req.ExperimentName());
    assert w.writes + [name] + [name] == w.writes + [name, name];
  }

  lemma LastStagesLog(w: World, apps: Apps, d: Draft, req: Request, plan: Plan, f: Faults)
    requires d.id in w.drafts && req.topology.name in w.topologies
    ensures ExperimentLog(w.writes, RunLastStages(w, apps, d, req, plan, f).0.writes, req.ExperimentName(), f.configure)
  {
    ExperimentStageLogs(w, apps, d, req, plan, f);
  }

  lemma DistinctLog(s0: seq<ConfigName>, s1: seq<ConfigName>, s2: seq<ConfigName>, s3: seq<ConfigName>,
                    changed: seq<ScenarioChange>, topology: string, experiment: string, undone: bool)
    requires DistinctChanges(changed)
    requires s1 == s0 || s1 == s0 + [TopologyConfig(topology)]
    requires s1 <= s2 && |s2| == |s1| + |changed|
    requires forall i :: 0 <= i < |changed| ==> s2[|s1| + i] == ScenarioConfig(changed[i].name)
    requires ExperimentLog(s2, s3, experiment, undone)
    ensures s0 <= s3 && WrittenOnce(s3, |s0|, undone)
  {
    assert forall i :: |s1| <= i < |s2| ==> s2[i] == ScenarioConfig(changed[i - |s1|].name);
  }

  // The stages write a log of that kind, wherever they stop.
  lemma StagesWriteOnce(w: World, apps: Apps, d: Draft, req: Request, plan: Plan, f: Faults)
    requires DistinctChanges(plan.scenarios.changed) && d.id in w.drafts
             && (plan.topologyApplied ==> req.topology.name in w.topologies)
    ensures var writes := RunStages(w, apps, d, req, plan, f).0.writes;
            w.writes <= writes && WrittenOnce(writes, |w.writes|, f.configure)
  {
    var (w1, ok) := RunTopologyStage(StoreDocument(w, d, req.topology.name), d, req, plan, f);
    if !f.document && ok {
      LaterStagesWriteOnce(w.writes, w1, apps, d, req, plan, f);
    }
  }

  lemma LaterStagesWriteOnce(before: seq<ConfigName>, w: World, apps: Apps, d: Draft, req: Request, plan: Plan,
                             f: Faults)
    requires DistinctChanges(plan.scenarios.changed) && d.id in w.drafts && req.topology.name in w.topologies
    requires w.writes == before || w.writes == before + [TopologyConfig(req.topology.name)]
    ensures var writes := RunLaterStages(w, apps, d, req, plan, f).0.writes;
            before <= writes && WrittenOnce(writes, |before|, f.configure)
  {
    var changed := plan.scenarios.changed;
    var k := StageStopsAt(w, changed, f.scenarios);
    var u := RunScenarioStage(w, changed[..k], {}).0;
    StageLogs(w, changed[..k]);
    assert DistinctChanges(changed[..k]);
    assert forall i :: 0 <= i < k ==> changed[..k][i] == changed[i];
    var name := req.ExperimentName();
    if k < |changed| {
      DistinctLog(before, w.writes, u.writes, u.writes, changed[..k], req.topology.name, name, f.configure);
    } else {
      LastStagesLog(u, apps, d, req, plan, f);
      DistinctLog(before, w.writes, u.writes, RunLastStages(u, apps, d, req, plan, f).0.writes, changed[..k],
                  req.topology.name, name, f.configure);
    }
  }

  /**
   A publication writes no config twice, whatever fails and whoever else writes. Only the experiment is, when the update
   is undone.
   */
  lemma WritesEachConfigOnce(w: World, apps: Apps, id: string, req: Request, tag: nat, f: Faults)
    requires Current(w, id, req, tag)
    ensures var writes := Publish(w, apps, id, req, tag, f).0.writes;
            w.writes <= writes && WrittenOnce(writes, |w.writes|, f.configure)
  {
    var d := w.drafts[id];
    if Preflight(w, d, req).Success? {
      PlanChangesDistinct(w, d, req);
      StagesWriteOnce(w, apps, d, req, Preflight(w, d, req).value, f);
    }
  }

  /**
   Over all attempts at a request and the run that completes it, no config is written twice, if no update was undone.
   */
  lemma AttemptsWriteOnce(w: World, apps: Apps, id: string, req: Request, tag: nat, attempts: seq<Faults>, r: bool)
    requires Current(w, id, req, tag) && AllResumable(w, apps, id, req, tag, attempts)
    requires forall i :: 0 <= i < |attempts| ==> !attempts[i].configure
    ensures WellFormed(AfterAttempts(w, apps, id, req, tag, attempts))
    ensures var writes := Publish(AfterAttempts(w, apps, id, req, tag, attempts), apps, id, req, tag,
                                  Clean(r)).0.writes;
            w.writes <= writes && WrittenOnce(writes, |w.writes|, false)
  {
    AttemptsConverge(w, apps, id, req, tag, attempts, r);
    WritesEachConfigOnce(w, apps, id, req, tag, Clean(RecordFailsAfter(w, apps, id, req, tag, attempts, r)));
  }
}
