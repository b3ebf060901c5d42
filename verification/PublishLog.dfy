/**
 The log of config writes: which ones a publication makes, in which order, and how far it gets with each outcome. And no
 config changes that the log does not name.
 */
module PublishLog {
  import opened Annotations
  import opened PublishModel
  import opened PublishSafety
  import opened PublishRules
  import opened PublishResume

  // ---------------------------------------------------------------------------------------------
  // The writes of a request
  // ---------------------------------------------------------------------------------------------

  // What a request has to write, in the terms of the store that it meets.
  function TopologyPart(w: World, d: Draft, req: Request): seq<ConfigName> {
    if AlreadyShown(w, d, req.topology.name) then [] else [TopologyConfig(req.topology.name)]
  }

  function ScenarioPart(w: World, listed: seq<string>, topology: string): seq<ConfigName> {
    if listed == [] then []
    else if listed[0] in w.scenarios && HasTopology(w.scenarios[listed[0]].topologies, topology) then
      ScenarioPart(w, listed[1..], topology)
    else [ScenarioConfig(listed[0])] + ScenarioPart(w, listed[1..], topology)
  }

  function ExperimentPart(w: World, d: Draft, req: Request): seq<ConfigName> {
    match req.experiment
    case None => []
    case Some(t) =>
      if t.name in w.experiments && d.document.projection.Some?
         && AlreadyThere(w.experiments[t.name], d, req, d.document.projection.value)
      then [] else [ExperimentConfig(t.name)]
  }

  // Which of these writes are made, by the outcome.
  predicate MadeWith(outcome: Outcome, f: Faults, made: seq<ConfigName>, topology: seq<ConfigName>,
                     scenarios: seq<ConfigName>, experiment: seq<ConfigName>)
  {
    match outcome
    case Refused(_) => made == []
    case AlreadyComplete => made == []
    case Completed => made == topology + scenarios + experiment
    case Partial(stage) =>
      match stage {
        case TopologyStage => made == [] && topology != []
        case ScenarioStage => topology <= made && made < topology + scenarios
        case ExperimentStage =>
          && experiment != []
          && (made == topology + scenarios
              || (f.configure && f.restore && made == topology + scenarios + experiment)
              || (f.configure && !f.restore && made == topology + scenarios + experiment + experiment))
        case DraftStage => made == topology + scenarios + experiment
      }
  }

  predicate Logged(before: seq<ConfigName>, after: seq<ConfigName>, outcome: Outcome, f: Faults,
                   topology: seq<ConfigName>, scenarios: seq<ConfigName>, experiment: seq<ConfigName>)
  {
    before <= after && MadeWith(outcome, f, after[|before|..], topology, scenarios, experiment)
  }

  /** The writes of a publication, whatever fails: those of the request, in order, as far as the outcome says. */
  lemma LogOfPublication(w: World, apps: Apps, id: string, req: Request, tag: nat, f: Faults)
    requires WellFormed(w)
    ensures var (u, outcome) := Publish(w, apps, id, req, tag, f);
            if id in w.drafts then
              var d := w.drafts[id];
              Logged(w.writes, u.writes, outcome, f, TopologyPart(w, d, req),
                     ScenarioPart(w, d.document.scenarios, req.topology.name), ExperimentPart(w, d, req))
            else u.writes == w.writes
  {
    if id in w.drafts && req.Valid() && tag == w.drafts[id].revision && Preflight(w, w.drafts[id], req).Success? {
      var d := w.drafts[id];
      PreflightInParts(w, d, req, Preflight(w, d, req).value);
      LogOfStages(w, apps, d, req, Preflight(w, d, req).value, f);
    }
  }

  lemma LogOfStages(w: World, apps: Apps, d: Draft, req: Request, plan: Plan, f: Faults)
    requires d.id in w.drafts && PlanFor(w, d, req, plan)
    requires plan.topologyApplied ==> req.topology.name in w.topologies
    ensures var (u, outcome) := RunStages(w, apps, d, req, plan, f);
            Logged(w.writes, u.writes, outcome, f, TopologyPart(w, d, req),
                   ScenarioPart(w, d.document.scenarios, req.topology.name), ExperimentPart(w, d, req))
  {
    var w1 := RunTopologyStage(StoreDocument(w, d, req.topology.name), d, req, plan, f).0;
    LogOfTopologyStage(w, d, req, plan, f);
    if !f.document && (plan.topologyApplied || !f.topology) {
      LogOfLaterStages(w, w1, apps, d, req, plan, f);
    }
  }

  lemma LogOfTopologyStage(w: World, d: Draft, req: Request, plan: Plan, f: Faults)
    requires PlanFor(w, d, req, plan)
    ensures var (w1, ok) := RunTopologyStage(StoreDocument(w, d, req.topology.name), d, req, plan, f);
            && (ok <==> plan.topologyApplied || !f.topology)
            && (if ok then w1.writes == w.writes + TopologyPart(w, d, req)
                else w1.writes == w.writes && TopologyPart(w, d, req) != [])
  {
    TopologyVerdict(w, d, req.topology);
  }

  lemma LogOfLaterStages(w: World, w1: World, apps: Apps, d: Draft, req: Request, plan: Plan, f: Faults)
    requires d.id in w1.drafts && PlanFor(w, d, req, plan) && req.topology.name in w1.topologies
    requires w1.writes == w.writes + TopologyPart(w, d, req)
    ensures var (u, outcome) := RunLaterStages(w1, apps, d, req, plan, f);
            Logged(w.writes, u.writes, outcome, f, TopologyPart(w, d, req),
                   ScenarioPart(w, d.document.scenarios, req.topology.name), ExperimentPart(w, d, req))
  {
    var topology, scenarios := TopologyPart(w, d, req), ScenarioPart(w, d.document.scenarios, req.topology.name);
    var k := LogOfScenarioStage(w, w1, d, req, plan, f);
    var (w2, ok) := RunScenarioStage(w1, plan.scenarios.changed, f.scenarios);
    if ok {
      assert scenarios[..k] == scenarios;
      LogOfLastStages(w, w2, apps, d, req, plan, f);
    } else {
      LoggedInPart(w.writes, w2.writes, f, topology, scenarios, k, ExperimentPart(w, d, req));
    }
  }

  lemma LoggedInPart(before: seq<ConfigName>, after: seq<ConfigName>, f: Faults, topology: seq<ConfigName>,
                     scenarios: seq<ConfigName>, k: nat, experiment: seq<ConfigName>)
    requires k < |scenarios| && after == before + topology + scenarios[..k]
    ensures Logged(before, after, Partial(ScenarioStage), f, topology, scenarios, experiment)
  {
    assert after[|before|..] == topology + scenarios[..k];
    assert topology + scenarios[..k] < topology + scenarios;
  }

  lemma LogOfScenarioStage(w: World, w1: World, d: Draft, req: Request, plan: Plan, f: Faults) returns (k: nat)
    requires PlanFor(w, d, req, plan)
    ensures var part := ScenarioPart(w, d.document.scenarios, req.topology.name);
            var (w2, ok) := RunScenarioStage(w1, plan.scenarios.changed, f.scenarios);
            k <= |part| && w2.writes == w1.writes + part[..k] && (ok <==> k == |part|)
  {
    PlansAre(w, d, req);
    PartIsPlanned(w, d.document.scenarios, req.topology.name);
    k := LogOfChanges(w1, plan.scenarios.changed, f.scenarios,
                      ScenarioPart(w, d.document.scenarios, req.topology.name));
  }

  lemma {:induction false} LogOfChanges(w: World, changed: seq<ScenarioChange>, failing: set<string>,
                                        part: seq<ConfigName>)
    returns (k: nat)
    requires |part| == |changed| && forall i :: 0 <= i < |changed| ==> part[i] == ScenarioConfig(changed[i].name)
    ensures var (u, ok) := RunScenarioStage(w, changed, failing);
            k <= |part| && u.writes == w.writes + part[..k] && (ok <==> k == |part|)
    decreases |changed|
  {
    k := 0;
    if changed != [] && changed[0].name !in failing {
      var rest := LogOfChanges(WriteScenario(w, changed[0]), changed[1..], failing, part[1..]);
      k := rest + 1;
      assert part[..k] == [part[0]] + part[1..][..rest];
    }
  }

  lemma {:induction false} PartIsPlanned(w: World, listed: seq<string>, topology: string)
    requires forall s :: s in listed ==> s in w.scenarios
    ensures |ScenarioPart(w, listed, topology)| == |Changes(w, listed, topology)|
    ensures forall i :: 0 <= i < |Changes(w, listed, topology)| ==>
              ScenarioPart(w, listed, topology)[i] == ScenarioConfig(Changes(w, listed, topology)[i].name)
    decreases |listed|
  {
    if listed != [] {
      PartIsPlanned(w, listed[1..], topology);
    }
  }

  lemma LogOfLastStages(w: World, w2: World, apps: Apps, d: Draft, req: Request, plan: Plan, f: Faults)
    requires d.id in w2.drafts && PlanFor(w, d, req, plan) && req.topology.name in w2.topologies
    requires w2.writes == w.writes + TopologyPart(w, d, req)
                          + ScenarioPart(w, d.document.scenarios, req.topology.name)
    ensures var (u, outcome) := RunLastStages(w2, apps, d, req, plan, f);
            Logged(w.writes, u.writes, outcome, f, TopologyPart(w, d, req),
                   ScenarioPart(w, d.document.scenarios, req.topology.name), ExperimentPart(w, d, req))
  {
    PartOfExperiment(w, d, req, plan);
    LogOfExperimentStage(w2, apps, d, req, plan, f);
    LogOfDraftStage(w2, apps, d, req, plan, f);
    LoggedOnward(w.writes, w2.writes, RunLastStages(w2, apps, d, req, plan, f).0.writes,
                 RunLastStages(w2, apps, d, req, plan, f).1, f, TopologyPart(w, d, req),
                 ScenarioPart(w, d.document.scenarios, req.topology.name), ExperimentPart(w, d, req));
  }

  lemma PartOfExperiment(w: World, d: Draft, req: Request, plan: Plan)
    requires PlanFor(w, d, req, plan)
    ensures ExperimentPart(w, d, req) ==
            if req.experiment.None? || plan.experimentApplied then [] else [ExperimentConfig(req.ExperimentName())]
  {
    if req.experiment.Some? {
      ExperimentVerdict(w, d, req, plan.spec);
    }
  }

  // What the experiment stage adds to the log, if it succeeds and if it fails.
  predicate ExperimentMade(before: seq<ConfigName>, after: seq<ConfigName>, ok: bool, f: Faults, part: seq<ConfigName>)
  {
    if ok then after == before + part
    else
      && part != []
      && (after == before || (f.configure && f.restore && after == before + part)
          || (f.configure && !f.restore && after == before + part + part))
  }

  // The draft mark is no config write.
  lemma LogOfDraftStage(w: World, apps: Apps, d: Draft, req: Request, plan: Plan, f: Faults)
    requires d.id in w.drafts && req.topology.name in w.topologies
    ensures var (u, outcome) := RunLastStages(w, apps, d, req, plan, f);
            var (u1, ok) := RunExperimentStage(w, apps, d, req, plan, f);
            && u.writes == u1.writes
            && (if ok then outcome == Completed || outcome == Partial(DraftStage)
                else outcome == Partial(ExperimentStage))
  {
  }

  lemma LoggedOnward(before: seq<ConfigName>, middle: seq<ConfigName>, after: seq<ConfigName>, outcome: Outcome,
                     f: Faults, topology: seq<ConfigName>, scenarios: seq<ConfigName>, experiment: seq<ConfigName>)
    requires middle == before + topology + scenarios
    requires || (outcome == Partial(ExperimentStage) && ExperimentMade(middle, after, false, f, experiment))
             || ((outcome == Completed || outcome == Partial(DraftStage))
                 && ExperimentMade(middle, after, true, f, experiment))
    ensures Logged(before, after, outcome, f, topology, scenarios, experiment)
  {
    var made := topology + scenarios;
    assert middle[|before|..] == made;
    assert (middle + experiment)[|before|..] == made + experiment;
    assert (middle + experiment + experiment)[|before|..] == made + experiment + experiment;
  }

  lemma LogOfExperimentStage(w: World, apps: Apps, d: Draft, req: Request, plan: Plan, f: Faults)
    requires req.topology.name in w.topologies
    ensures var (u, ok) := RunExperimentStage(w, apps, d, req, plan, f);
            ExperimentMade(w.writes, u.writes, ok, f,
                           if req.experiment.None? || plan.experimentApplied then []
                           else [ExperimentConfig(req.ExperimentName())])
  {
  }

  // ---------------------------------------------------------------------------------------------
  // Changes are logged
  // ---------------------------------------------------------------------------------------------

  predicate SameTopology(w: World, u: World, name: string) {
    (name in u.topologies <==> name in w.topologies)
    && (name in w.topologies ==> u.topologies[name] == w.topologies[name])
  }

  predicate SameScenario(w: World, u: World, name: string) {
    (name in u.scenarios <==> name in w.scenarios)
    && (name in w.scenarios ==> u.scenarios[name] == w.scenarios[name])
  }

  // No topology or scenario changed from w to u without a write of it.
  ghost predicate OnlyLogged(w: World, u: World) {
    && w.writes <= u.writes
    && (forall name: string :: TopologyConfig(name) !in u.writes[|w.writes|..] ==> SameTopology(w, u, name))
    && (forall name: string :: ScenarioConfig(name) !in u.writes[|w.writes|..] ==> SameScenario(w, u, name))
  }

  lemma LoggedOver(a: World, b: World, c: World)
    requires OnlyLogged(a, b) && OnlyLogged(b, c)
    ensures OnlyLogged(a, c)
  {
    assert c.writes[|a.writes|..] == b.writes[|a.writes|..] + c.writes[|b.writes|..];
  }

  lemma OneLogged(w: World, u: World, config: ConfigName)
    requires u.writes == w.writes + [config]
    requires forall name: string :: TopologyConfig(name) != config ==> SameTopology(w, u, name)
    requires forall name: string :: ScenarioConfig(name) != config ==> SameScenario(w, u, name)
    ensures OnlyLogged(w, u)
  {
    assert u.writes[|w.writes|..] == [config];
  }

  lemma {:induction false} ScenarioStageLogged(w: World, changed: seq<ScenarioChange>, failing: set<string>)
    ensures OnlyLogged(w, RunScenarioStage(w, changed, failing).0)
    decreases |changed|
  {
    if changed != [] && changed[0].name !in failing {
      var next := WriteScenario(w, changed[0]);
      OneLogged(w, next, ScenarioConfig(changed[0].name));
      ScenarioStageLogged(next, changed[1..], failing);
      LoggedOver(w, next, RunScenarioStage(next, changed[1..], failing).0);
    }
  }

  // No experiment changed but by other writers or with a write of it.
  ghost predicate ExperimentsLogged(w: World, u: World, f: Faults) {
    && w.writes <= u.writes
    && (u.experiments == w.experiments
        || forall name: string :: ExperimentConfig(name) !in u.writes[|w.writes|..] ==>
             AlikeAt(u.experiments, Met(w, f), name))
  }

  lemma ExperimentStageLogged(w: World, apps: Apps, d: Draft, req: Request, plan: Plan, f: Faults)
    requires req.topology.name in w.topologies
    ensures var u := RunExperimentStage(w, apps, d, req, plan, f).0;
            OnlyLogged(w, u) && ExperimentsLogged(w, u, f)
  {
    var u := RunExperimentStage(w, apps, d, req, plan, f).0;
    LogOfExperimentStage(w, apps, d, req, plan, f);
    OthersKept(w, apps, d, req, plan, f);
    if u.writes != w.writes {
      assert u.writes[|w.writes|] == ExperimentConfig(req.ExperimentName());
      assert u.writes[|w.writes|..][0] == u.writes[|w.writes|];
    }
  }

  lemma OthersKept(w: World, apps: Apps, d: Draft, req: Request, plan: Plan, f: Faults)
    requires req.topology.name in w.topologies
    ensures var u := RunExperimentStage(w, apps, d, req, plan, f).0;
            && u == w.(experiments := u.experiments, writes := u.writes)
            && (u.experiments == w.experiments
                || OthersAlike(Met(w, f), u.experiments, req.ExperimentName(), u.writes == w.writes))
  {
    if req.experiment.Some? && !plan.experimentApplied && !f.lock {
      var before := w.(experiments := Met(w, f));
      if req.experiment.value.action.Create? {
        OthersAfterCreate(before, apps, d, req, plan, f);
      } else {
        OthersAfterUpdate(before, apps, d, req, plan, f);
      }
    }
  }

  ghost predicate OthersAlike(a: map<string, Experiment>, b: map<string, Experiment>, target: string, alike: bool) {
    forall name: string :: name != target || alike ==> AlikeAt(b, a, name)
  }

  lemma OthersAfterCreate(w: World, apps: Apps, d: Draft, req: Request, plan: Plan, f: Faults)
    requires req.topology.name in w.topologies
    ensures var u := CreateExperiment(w, apps, d, req, plan, f).0;
            OthersAlike(w.experiments, u.experiments, req.ExperimentName(), u.writes == w.writes)
  {
  }

  lemma OthersAfterUpdate(w: World, apps: Apps, d: Draft, req: Request, plan: Plan, f: Faults)
    ensures var u := UpdateExperiment(w, apps, d, req, plan, f).0;
            OthersAlike(w.experiments, u.experiments, req.ExperimentName(), u.writes == w.writes)
  {
  }

  /** No config changes that the log does not name, save for experiments that other writers change. */
  lemma ChangesAreLogged(w: World, apps: Apps, id: string, req: Request, tag: nat, f: Faults)
    requires WellFormed(w)
    ensures var u := Publish(w, apps, id, req, tag, f).0;
            OnlyLogged(w, u) && ExperimentsLogged(w, u, f)
  {
    if Publish(w, apps, id, req, tag, f).0 != w {
      OnlyAcceptedWrites(w, apps, id, req, tag, f);
      StagesLogged(w, apps, w.drafts[id], req, Preflight(w, w.drafts[id], req).value, f);
    }
  }

  lemma StagesLogged(w: World, apps: Apps, d: Draft, req: Request, plan: Plan, f: Faults)
    requires d.id in w.drafts && (plan.topologyApplied ==> req.topology.name in w.topologies)
    ensures var u := RunStages(w, apps, d, req, plan, f).0;
            OnlyLogged(w, u) && ExperimentsLogged(w, u, f)
  {
    if !f.document {
      var (w1, ok) := RunTopologyStage(StoreDocument(w, d, req.topology.name), d, req, plan, f);
      if w1.writes != w.writes {
        OneLogged(w, w1, TopologyConfig(req.topology.name));
      }
      if ok {
        LaterStagesLogged(w, w1, apps, d, req, plan, f);
      }
    }
  }

  lemma LaterStagesLogged(w: World, w1: World, apps: Apps, d: Draft, req: Request, plan: Plan, f: Faults)
    requires d.id in w1.drafts && req.topology.name in w1.topologies
    requires OnlyLogged(w, w1) && w1.experiments == w.experiments
    ensures var u := RunLaterStages(w1, apps, d, req, plan, f).0;
            OnlyLogged(w, u) && ExperimentsLogged(w, u, f)
  {
    var (w2, ok) := RunScenarioStage(w1, plan.scenarios.changed, f.scenarios);
    ScenarioStageLogged(w1, plan.scenarios.changed, f.scenarios);
    LoggedOver(w, w1, w2);
    if ok {
      LastStagesLogged(w, w2, apps, d, req, plan, f);
    }
  }

  lemma ExperimentsLoggedSince(a: World, b: World, c: World, f: Faults)
    requires a.writes <= b.writes && a.experiments == b.experiments && ExperimentsLogged(b, c, f)
    ensures ExperimentsLogged(a, c, f)
  {
    assert c.writes[|a.writes|..] == b.writes[|a.writes|..] + c.writes[|b.writes|..];
  }

  lemma LastStagesLogged(w: World, w2: World, apps: Apps, d: Draft, req: Request, plan: Plan, f: Faults)
    requires d.id in w2.drafts && req.topology.name in w2.topologies
    requires OnlyLogged(w, w2) && w2.experiments == w.experiments
    ensures var u := RunLastStages(w2, apps, d, req, plan, f).0;
            OnlyLogged(w, u) && ExperimentsLogged(w, u, f)
  {
    var w3 := RunExperimentStage(w2, apps, d, req, plan, f).0;
    ExperimentStageLogged(w2, apps, d, req, plan, f);
    LoggedOver(w, w2, w3);
    ExperimentsLoggedSince(w, w2, w3, f);
    LogOfDraftStage(w2, apps, d, req, plan, f);
    LastStagesExperiments(w2, apps, d, req, plan, f);
  }
}
