/**
 What happens to a publication that was left in a state from which it cannot simply be resumed, and exactly when the
 resumed run ends as an uninterrupted one all the same.
 */
module PublishResumeLimits {
  import opened Wrappers
  import opened PublishModel
  import opened PublishResume

  // The resumed run completes, with everything but the log of writes as the whole one leaves it.
  predicate EndsAlike(again: (World, Outcome), whole: (World, Outcome)) {
    again.1 == Completed && SameButLog(whole.0, again.0)
  }

  // ---------------------------------------------------------------------------------------------
  // A failed topology stage, where only a file held the document
  // ---------------------------------------------------------------------------------------------

  lemma AppliedTopologyKept(w: World, apps: Apps, id: string, req: Request, tag: nat, f: Faults)
    requires WellFormed(w) && id in w.drafts && TopologyApplied(w, req.topology.name, w.drafts[id].document)
    ensures Publish(w, apps, id, req, tag, f).0.topologies == w.topologies
  {
  }

  lemma LeftByTopologyFailure(w: World, apps: Apps, id: string, req: Request, tag: nat, f: Faults)
    requires Current(w, id, req, tag) && Quiet(f)
    requires OnlyInFile(w, w.drafts[id], req.topology.name)
    requires Publish(w, apps, id, req, tag, f).1 == Partial(TopologyStage)
    ensures Preflight(w, w.drafts[id], req).Success? && !Preflight(w, w.drafts[id], req).value.topologyApplied
    ensures var u := Publish(w, apps, id, req, tag, f).0;
            && u == StoreDocument(w, w.drafts[id], req.topology.name)
            && Current(u, id, req, tag) && TopologyApplied(u, req.topology.name, w.drafts[id].document)
  {
    FailedRun(w, apps, id, req, tag, f);
  }

  lemma WholeTopologies(w: World, apps: Apps, id: string, req: Request, tag: nat, r: bool)
    requires Current(w, id, req, tag) && OnlyInFile(w, w.drafts[id], req.topology.name)
    requires Preflight(w, w.drafts[id], req).Success?
    ensures var d, name, plan := w.drafts[id], req.topology.name, Preflight(w, w.drafts[id], req).value;
            && d.document.projection == Some(plan.spec)
            && Publish(w, apps, id, req, tag, Clean(r)).0.topologies ==
                 w.topologies[name := PublishedTopology(w, d, name, plan.spec)]
  {
    var d, plan := w.drafts[id], Preflight(w, w.drafts[id], req).value;
    CleanRun(w, apps, id, req, tag, r);
    assert Publish(w, apps, id, req, tag, Clean(r)).0.topologies == ReachedScenarios(w, d, req, plan).topologies;
  }

  // The topology is already what its stage would write, so without that write the run goes on alike.
  lemma ResumeOfWrittenTopology(w: World, apps: Apps, id: string, req: Request, tag: nat, r: bool)
    requires Current(w, id, req, tag) && Preflight(w, w.drafts[id], req).Success?
    requires !Preflight(w, w.drafts[id], req).value.topologyApplied
    requires var d, name, plan := w.drafts[id], req.topology.name, Preflight(w, w.drafts[id], req).value;
             name in w.topologies && w.topologies[name] == PublishedTopology(w, d, name, plan.spec)
    ensures var u := StoreDocument(w, w.drafts[id], req.topology.name);
            WellFormed(u) && EndsAlike(Publish(u, apps, id, req, tag, Clean(r)),
                                       Publish(w, apps, id, req, tag, Clean(r)))
  {
    var d, plan := w.drafts[id], Preflight(w, w.drafts[id], req).value;
    var u, v := StoreDocument(w, d, req.topology.name), ReachedScenarios(w, d, req, plan);
    assert w.topologies[req.topology.name := w.topologies[req.topology.name]] == w.topologies;
    assert SameButLog(v, u);
    assert plan.scenarios.changed[..0] == [];
    ResumeBeforeExperiment(w, apps, id, req, tag, r, 0);
    UninterruptedCompletes(w, apps, id, req, tag, r);
    assert RunScenarioStage(v, [], {}).0 == v;
    PublishIgnoresLog(v, u, apps, id, req, tag, Clean(r));
  }

  /**
   After a failed topology stage under OnlyInFile, the next run finds TopologyApplied and skips the stage. It ends as an
   uninterrupted run exactly when that one would not have changed the topology.
   */
  lemma ResumeOfFileTopologyIff(w: World, apps: Apps, id: string, req: Request, tag: nat, f: Faults, r: bool)
    requires Current(w, id, req, tag) && Quiet(f)
    requires OnlyInFile(w, w.drafts[id], req.topology.name)
    requires Publish(w, apps, id, req, tag, f).1 == Partial(TopologyStage)
    ensures var u := Publish(w, apps, id, req, tag, f).0;
            && Current(u, id, req, tag)
            && var d, name := w.drafts[id], req.topology.name;
               var again, whole := Publish(u, apps, id, req, tag, Clean(r)), Publish(w, apps, id, req, tag, Clean(r));
               && again.0.topologies == w.topologies
               && (EndsAlike(again, whole) <==>
                     d.document.projection.Some?
                     && w.topologies[name] == PublishedTopology(w, d, name, d.document.projection.value))
  {
    LeftByTopologyFailure(w, apps, id, req, tag, f);
    WholeTopologies(w, apps, id, req, tag, r);
    AppliedTopologyKept(Publish(w, apps, id, req, tag, f).0, apps, id, req, tag, Clean(r));
    var d, name, plan := w.drafts[id], req.topology.name, Preflight(w, w.drafts[id], req).value;
    var published := PublishedTopology(w, d, name, plan.spec);
    assert w.topologies[name := published] == w.topologies <==> w.topologies[name] == published;
    if w.topologies[name] == published {
      ResumeOfWrittenTopology(w, apps, id, req, tag, r);
    }
  }

  // ---------------------------------------------------------------------------------------------
  // A failed experiment stage whose update could not be undone
  // ---------------------------------------------------------------------------------------------

  // The experiment after an update whose configure stage ran.
  function AfterUpdate(apps: Apps, e: Experiment, d: Draft, req: Request, plan: Plan, r: bool): Experiment {
    var name, updated := req.ExperimentName(), UpdatedExperiment(e, d, req, plan);
    var configured := updated.(body := apps.configure(name, updated.body));
    if r then configured
    else configured.(record := Some(Record(d.id, DocId(req.topology.name, d.document),
                                           ExperimentDigest(name, configured.body))))
  }

  lemma UpdateStage(w: World, apps: Apps, d: Draft, req: Request, plan: Plan, r: bool)
    requires req.topology.name in w.topologies && !plan.experimentApplied
    requires req.experiment.Some? && req.experiment.value.action.Update?
    requires req.ExperimentName() in w.experiments && !w.experiments[req.ExperimentName()].running
    ensures var name := req.ExperimentName();
            RunExperimentStage(w, apps, d, req, plan, Clean(r)) ==
            (WriteExperiment(w, name, AfterUpdate(apps, w.experiments[name], d, req, plan, r)), true)
  {
    var name := req.ExperimentName();
    var updated := UpdatedExperiment(w.experiments[name], d, req, plan);
    var configured := updated.(body := apps.configure(name, updated.body));
    assert w.experiments[name := updated][name := configured] == w.experiments[name := configured];
    var last := AfterUpdate(apps, w.experiments[name], d, req, plan, r);
    assert w.experiments[name := configured][name := last] == w.experiments[name := last];
  }

  // Marking the draft reads and changes no experiment.
  lemma DraftStageAlike(w: World, u: World, d: Draft, req: Request)
    requires d.id in w.drafts && u == w.(experiments := u.experiments, writes := u.writes)
    ensures var a, b := RunDraftStage(w, d, req, NO_FAULTS), RunDraftStage(u, d, req, NO_FAULTS);
            a.1 == b.1 && (SameButLog(a.0, b.0) <==> u.experiments == w.experiments)
  {
    MarkAlike(w, u, d, req);
    var keep := DocId(req.topology.name, d.document);
    CleanupAlike(MarkPublished(w, d, req, false).0, MarkPublished(u, d, req, false).0, keep, u.experiments, u.writes);
  }

  lemma MarkAlike(w: World, u: World, d: Draft, req: Request)
    requires d.id in w.drafts && u == w.(experiments := u.experiments, writes := u.writes)
    ensures var a, b := MarkPublished(w, d, req, false), MarkPublished(u, d, req, false);
            a.1 == b.1 && b.0 == a.0.(experiments := u.experiments, writes := u.writes)
            && a.0.experiments == w.experiments && a.0.writes == w.writes
  {
  }

  lemma CleanupAlike(a: World, b: World, keep: DocId, experiments: map<string, Experiment>, writes: seq<ConfigName>)
    requires b == a.(experiments := experiments, writes := writes)
    ensures DeleteSuperseded(b, keep, {}) ==
              DeleteSuperseded(a, keep, {}).(experiments := experiments, writes := writes)
    ensures DeleteSuperseded(a, keep, {}).experiments == a.experiments
            && DeleteSuperseded(a, keep, {}).writes == a.writes
  {
  }

  lemma UpdatedIsApplied(w: World, u: World, d: Draft, req: Request, plan: Plan)
    requires Preflight(w, d, req) == Success(plan) && StaysUpdated(ReachedExperiment(w, d, req, plan), u, d, req, plan)
    ensures ExperimentApplied(u, d, req, plan.spec)
  {
  }

  /**
   When the configure stage fails and the update cannot be undone, the experiment counts as applied, so the resumed run
   completes without ever running the configure stage. It ends as an uninterrupted one exactly when that stage, and the
   record of the publisher, would have changed nothing.
   */
  lemma ResumeAfterFailedRestoreIff(w: World, apps: Apps, id: string, req: Request, tag: nat, f: Faults, r: bool)
    requires Current(w, id, req, tag) && Quiet(f)
    requires Publish(w, apps, id, req, tag, f).1 == Partial(ExperimentStage)
    requires Publish(w, apps, id, req, tag, f).0.experiments != w.experiments
    ensures Preflight(w, w.drafts[id], req).Success? && req.ExperimentName() in w.experiments
    ensures var u := Publish(w, apps, id, req, tag, f).0;
            && Current(u, id, req, tag)
            && var d, e, plan := w.drafts[id], w.experiments[req.ExperimentName()],
               Preflight(w, w.drafts[id], req).value;
               var again, whole := Publish(u, apps, id, req, tag, Clean(r)), Publish(w, apps, id, req, tag, Clean(r));
               && again.1 == Completed && again.0.experiments == u.experiments
               && (EndsAlike(again, whole) <==>
                     AfterUpdate(apps, e, d, req, plan, r) == UpdatedExperiment(e, d, req, plan))
  {
    FailedRun(w, apps, id, req, tag, f);
    var u, d, plan := Publish(w, apps, id, req, tag, f).0, w.drafts[id], Preflight(w, w.drafts[id], req).value;
    var reached, name := ReachedExperiment(w, d, req, plan), req.ExperimentName();
    ReachedFacts(w, d, req, plan);
    ResumeOnUpdated(w, u, apps, id, req, tag, r);
    UpdateStage(reached, apps, d, req, plan, r);
    MarksAfterCleanRun(w, apps, id, req, tag, r);
    var done := RunExperimentStage(reached, apps, d, req, plan, Clean(r)).0;
    DraftStageAlike(done, u, d, req);
    var e := w.experiments[name];
    assert w.experiments[name := AfterUpdate(apps, e, d, req, plan, r)][name] == AfterUpdate(apps, e, d, req, plan, r);
    assert w.experiments[name := UpdatedExperiment(e, d, req, plan)][name] == UpdatedExperiment(e, d, req, plan);
  }

  // The resumed run only marks the draft.
  lemma ResumeOnUpdated(w: World, u: World, apps: Apps, id: string, req: Request, tag: nat, r: bool)
    requires Current(w, id, req, tag) && Preflight(w, w.drafts[id], req).Success?
    requires var d, plan := w.drafts[id], Preflight(w, w.drafts[id], req).value;
             StaysUpdated(ReachedExperiment(w, d, req, plan), u, d, req, plan)
    ensures Current(u, id, req, tag) && u.drafts == w.drafts
    ensures Publish(u, apps, id, req, tag, Clean(r)) == RunDraftStage(u, w.drafts[id], req, NO_FAULTS)
    ensures Publish(u, apps, id, req, tag, Clean(r)).1 == Completed
    ensures Publish(u, apps, id, req, tag, Clean(r)).0.experiments == u.experiments
  {
    var d, plan := w.drafts[id], Preflight(w, w.drafts[id], req).value;
    ReachedFacts(w, d, req, plan);
    ConfigsDoneAfterExperiment(w, u, d, req, plan);
    PreflightInParts(w, d, req, plan);
    UpdatedIsApplied(w, u, d, req, plan);
    PreflightWhenDone(w, u, d, req);
    ResumeWhenDone(u, apps, id, req, tag, r);
    UninterruptedCompletes(u, apps, id, req, tag, r);
  }

  // An app that marks each experiment, and a stopped experiment with a draft that was imported from it.
  const MARKING := Apps((name, body: ExperimentBody) => body.(extra := 7))
  const STOPPED := Experiment("t", "", ExperimentBody(Spec({}, 0), map[], None, map[], 0), false, None)
  const IMPORTED := Draft("d", 1, Token.Imported, None, None, "s",
                          Document(1, Some(Spec({}, 1)), map[], [],
                                   FromExperiment("e", "t", ExperimentDigest("e", STOPPED.body))))
  const STORE := World(map[], map[], map["e" := STOPPED], map[], map["d" := IMPORTED], map[], 1, [])
  const UPDATE := Request(TopologyAndExperiment, Target("t", Create), None, Some(Target("e", Update)))
  const UPDATE_PLAN := Plan(Spec({}, 1), false, EMPTY_SCENARIO_PLAN, false)
  const UNRESTORED := NO_FAULTS.(configure := true, restore := true)

  /** It happens: the app never marks this experiment, although the publication completes. */
  lemma FailedRestoreSkipsConfigure()
    ensures Current(STORE, "d", UPDATE, 1) && Quiet(UNRESTORED) && LeavesTopology(MARKING)
    ensures var (u, outcome) := Publish(STORE, MARKING, "d", UPDATE, 1, UNRESTORED);
            && outcome == Partial(ExperimentStage) && WellFormed(u)
            && Publish(u, MARKING, "d", UPDATE, 1, NO_FAULTS).1 == Completed
            && !EndsAlike(Publish(u, MARKING, "d", UPDATE, 1, NO_FAULTS),
                          Publish(STORE, MARKING, "d", UPDATE, 1, NO_FAULTS))
  {
    UpdateIsAccepted();
    FailedRestoreSkips(STORE, MARKING, IMPORTED, UPDATE, UPDATE_PLAN);
  }

  lemma UpdateIsAccepted()
    ensures Preflight(STORE, IMPORTED, UPDATE) == Success(UPDATE_PLAN)
    ensures AfterUpdate(MARKING, STOPPED, IMPORTED, UPDATE, UPDATE_PLAN, false) !=
            UpdatedExperiment(STOPPED, IMPORTED, UPDATE, UPDATE_PLAN)
  {
    assert PreflightTopology(STORE, IMPORTED, UPDATE.topology) == Success(false);
    assert PreflightExperiment(STORE, IMPORTED, UPDATE, UPDATE_PLAN.spec) == Success(false);
    assert SourceFresh(STORE, IMPORTED);
    PreflightInParts(STORE, IMPORTED, UPDATE, UPDATE_PLAN);
    assert AfterUpdate(MARKING, STOPPED, IMPORTED, UPDATE, UPDATE_PLAN, false).body.extra == 7;
  }

  lemma FailedRestoreSkips(w: World, apps: Apps, d: Draft, req: Request, plan: Plan)
    requires Current(w, d.id, req, d.revision) && w.drafts[d.id] == d && Preflight(w, d, req) == Success(plan)
    requires !plan.experimentApplied && req.experiment.Some? && req.experiment.value.action.Update?
    requires req.ExperimentName() in w.experiments
    requires var e := w.experiments[req.ExperimentName()];
             AfterUpdate(apps, e, d, req, plan, false) != UpdatedExperiment(e, d, req, plan)
    ensures var (u, outcome) := Publish(w, apps, d.id, req, d.revision, UNRESTORED);
            && outcome == Partial(ExperimentStage) && WellFormed(u)
            && Publish(u, apps, d.id, req, d.revision, NO_FAULTS).1 == Completed
            && !EndsAlike(Publish(u, apps, d.id, req, d.revision, NO_FAULTS),
                          Publish(w, apps, d.id, req, d.revision, NO_FAULTS))
  {
    FailedRestoreLeaves(w, apps, d, req, plan);
    ResumeAfterFailedRestoreIff(w, apps, d.id, req, d.revision, UNRESTORED, false);
    assert Clean(false) == NO_FAULTS;
  }

  // An update whose configure stage fails, and that cannot be undone, ends the run there.
  lemma FailedRestoreLeaves(w: World, apps: Apps, d: Draft, req: Request, plan: Plan)
    requires Current(w, d.id, req, d.revision) && w.drafts[d.id] == d && Preflight(w, d, req) == Success(plan)
    requires !plan.experimentApplied && req.experiment.Some? && req.experiment.value.action.Update?
    ensures req.ExperimentName() in w.experiments
    ensures var (u, outcome), name := Publish(w, apps, d.id, req, d.revision, UNRESTORED), req.ExperimentName();
            && outcome == Partial(ExperimentStage)
            && u.experiments == w.experiments[name := UpdatedExperiment(w.experiments[name], d, req, plan)]
            && u.experiments != w.experiments
  {
    PreflightInParts(w, d, req, plan);
    var name, reached := req.ExperimentName(), ReachedExperiment(w, d, req, plan);
    StageSucceeds(ReachedScenarios(w, d, req, plan), plan.scenarios.changed);
    assert Publish(w, apps, d.id, req, d.revision, UNRESTORED) ==
             RunLastStages(reached, apps, d, req, plan, UNRESTORED);
    var updated := UpdatedExperiment(w.experiments[name], d, req, plan);
    assert w.experiments[name := updated][name] == updated;
    assert !ExperimentApplied(w, d, req, plan.spec);
  }

  // ---------------------------------------------------------------------------------------------
  // A failed draft mark, where the configure stage changed the experiment
  // ---------------------------------------------------------------------------------------------

  lemma LeftByDraftFailure(w: World, apps: Apps, id: string, req: Request, tag: nat, f: Faults)
    requires Current(w, id, req, tag) && Quiet(f) && Publish(w, apps, id, req, tag, f).1 == Partial(DraftStage)
    ensures Preflight(w, w.drafts[id], req).Success?
    ensures var u, d, plan := Publish(w, apps, id, req, tag, f).0, w.drafts[id], Preflight(w, w.drafts[id], req).value;
            var reached := ReachedExperiment(w, d, req, plan);
            && Current(u, id, req, tag) && ConfigsDone(w, u, d, req, plan)
            && req.topology.name in reached.topologies
            && RunExperimentStage(reached, apps, d, req, plan, Clean(f.record)) == (u, true)
  {
    FailedRun(w, apps, id, req, tag, f);
    var u, d, plan := Publish(w, apps, id, req, tag, f).0, w.drafts[id], Preflight(w, w.drafts[id], req).value;
    SuccessIsClean(ReachedExperiment(w, d, req, plan), apps, d, req, plan, f);
    ConfigsDoneAfterExperiment(w, u, d, req, plan);
  }

  // The request of a draft whose mark failed, with an experiment that does not count as applied.
  predicate ChangedByConfigure(u: World, d: Draft, req: Request) {
    req.experiment.Some? && d.document.projection.Some? && !ExperimentApplied(u, d, req, d.document.projection.value)
  }

  /** After everything but the draft mark, the request that created the experiment is refused for good exactly when the
      configure stage changed the topology or the VLAN aliases, because the experiment it created exists. */
  lemma ResumeOfCreateIff(w: World, apps: Apps, id: string, req: Request, tag: nat, f: Faults, r: bool)
    requires Current(w, id, req, tag) && Quiet(f) && Publish(w, apps, id, req, tag, f).1 == Partial(DraftStage)
    requires req.experiment.Some? && req.experiment.value.action.Create?
    ensures var u, d := Publish(w, apps, id, req, tag, f).0, w.drafts[id];
            && Current(u, id, req, tag)
            && Publish(u, apps, id, req, tag, Clean(r)).1 ==
               if ChangedByConfigure(u, d, req) then Refused(ExperimentExists) else Completed
  {
    LeftByDraftFailure(w, apps, id, req, tag, f);
    var u, d, plan := Publish(w, apps, id, req, tag, f).0, w.drafts[id], Preflight(w, w.drafts[id], req).value;
    PreflightInParts(w, d, req, plan);
    if ChangedByConfigure(u, d, req) {
      CreatedOrApplied(w, u, apps, d, req, plan, f.record);
      RefusesCreateAgain(w, u, d, req, plan);
    } else {
      PreflightWhenDone(w, u, d, req);
      UninterruptedCompletes(u, apps, id, req, tag, r);
    }
  }

  lemma CreatedOrApplied(w: World, u: World, apps: Apps, d: Draft, req: Request, plan: Plan, r: bool)
    requires PlanFor(w, d, req, plan) && req.experiment.Some?
    requires var reached := ReachedExperiment(w, d, req, plan);
             req.topology.name in reached.topologies
             && RunExperimentStage(reached, apps, d, req, plan, Clean(r)) == (u, true)
    ensures req.ExperimentName() in u.experiments
    ensures plan.experimentApplied ==> ExperimentApplied(u, d, req, plan.spec)
  {
    var reached := ReachedExperiment(w, d, req, plan);
    assert reached.experiments == w.experiments;
    assert plan.experimentApplied ==> ExperimentApplied(w, d, req, plan.spec);
    StageLeavesTarget(reached, apps, d, req, plan, r);
  }

  lemma StageLeavesTarget(w: World, apps: Apps, d: Draft, req: Request, plan: Plan, r: bool)
    requires req.topology.name in w.topologies && req.experiment.Some?
    requires RunExperimentStage(w, apps, d, req, plan, Clean(r)).1
    requires plan.experimentApplied ==> req.ExperimentName() in w.experiments
    ensures req.ExperimentName() in RunExperimentStage(w, apps, d, req, plan, Clean(r)).0.experiments
    ensures plan.experimentApplied ==> RunExperimentStage(w, apps, d, req, plan, Clean(r)).0 == w
  {
  }

  lemma RefusesCreateAgain(w: World, u: World, d: Draft, req: Request, plan: Plan)
    requires req.Valid() && Distinct(d.document.scenarios) && Preflight(w, d, req) == Success(plan)
    requires ConfigsDone(w, u, d, req, plan)
    requires req.experiment.Some? && req.experiment.value.action.Create? && req.ExperimentName() in u.experiments
    requires !ExperimentApplied(u, d, req, plan.spec)
    ensures Preflight(u, d, req) == Failure(ExperimentExists)
  {
    ScenarioPreflightAgain(w, u, d, req, |plan.scenarios.changed|);
    assert PreflightTopology(u, d, req.topology) == Success(true);
  }

  /**
   The request that updated the experiment updates it again when the configure stage changed the topology or the
   aliases. It ends as an uninterrupted one exactly when it is accepted and the second update makes the same experiment.
   It is always accepted when the record of the publisher was stored.
   */
  lemma ResumeOfUpdateIff(w: World, apps: Apps, id: string, req: Request, tag: nat, f: Faults, r: bool)
    requires Current(w, id, req, tag) && Quiet(f) && Publish(w, apps, id, req, tag, f).1 == Partial(DraftStage)
    requires req.experiment.Some? && req.experiment.value.action.Update?
    requires ChangedByConfigure(Publish(w, apps, id, req, tag, f).0, w.drafts[id], req)
    ensures Preflight(w, w.drafts[id], req).Success?
            && req.ExperimentName() in Publish(w, apps, id, req, tag, f).0.experiments
    ensures var u, d := Publish(w, apps, id, req, tag, f).0, w.drafts[id];
            && Current(u, id, req, tag)
            && var e, plan := u.experiments[req.ExperimentName()], Preflight(w, d, req).value;
               var again, whole := Publish(u, apps, id, req, tag, Clean(r)),
                   Publish(w, apps, id, req, tag, Clean(f.record));
               && (EndsAlike(again, whole) <==>
                     Preflight(u, d, req).Success? && AfterUpdate(apps, e, d, req, plan, r) == e)
               && (!f.record ==> Preflight(u, d, req).Success?)
  {
    LeftByDraftFailure(w, apps, id, req, tag, f);
    var u, d, plan := Publish(w, apps, id, req, tag, f).0, w.drafts[id], Preflight(w, w.drafts[id], req).value;
    PreflightInParts(w, d, req, plan);
    CreatedOrApplied(w, u, apps, d, req, plan, f.record);
    UpdatedNow(w, u, apps, d, req, plan, f.record);
    MarksAfterCleanRun(w, apps, id, req, tag, f.record);
    UninterruptedCompletes(w, apps, id, req, tag, f.record);
    if !f.record {
      UpdateAcceptedAgain(w, u, d, req, plan);
    }
    if Preflight(u, d, req).Success? {
      UpdatesAgain(w, u, apps, id, req, tag, plan, r);
    }
  }

  // The experiment as the stage left it: stopped, and with the record of the draft if that was stored.
  lemma UpdatedNow(w: World, u: World, apps: Apps, d: Draft, req: Request, plan: Plan, r: bool)
    requires PlanFor(w, d, req, plan) && !plan.experimentApplied && req.experiment.Some?
             && req.experiment.value.action.Update?
    requires var reached := ReachedExperiment(w, d, req, plan);
             req.topology.name in reached.topologies
             && RunExperimentStage(reached, apps, d, req, plan, Clean(r)) == (u, true)
    ensures var name := req.ExperimentName();
            && name in w.experiments && name in u.experiments && !u.experiments[name].running
            && u.experiments == w.experiments[name := u.experiments[name]]
            && (!r ==> u.experiments[name].record == Some(Record(d.id, DocId(req.topology.name, d.document),
                                                                 ExperimentDigest(name, u.experiments[name].body))))
  {
    UpdateStage(ReachedExperiment(w, d, req, plan), apps, d, req, plan, r);
  }

  // A source that changed only by the draft's own experiment update is fresh.
  lemma FreshWithOwnExperiment(w: World, u: World, d: Draft, name: string)
    requires SourceFresh(w, d) && u == w.(experiments := u.experiments, writes := u.writes)
    requires name in u.experiments && u.experiments == w.experiments[name := u.experiments[name]]
    requires HoldsDraftPublication(d, name, u.experiments[name]).1
    ensures SourceFresh(u, d)
  {
  }

  lemma UpdateAcceptedAgain(w: World, u: World, d: Draft, req: Request, plan: Plan)
    requires req.Valid() && Distinct(d.document.scenarios) && PlanFor(w, d, req, plan) && !plan.experimentApplied
    requires ConfigsDone(w, u, d, req, plan) && req.experiment.Some? && req.experiment.value.action.Update?
    requires u == ReachedExperiment(w, d, req, plan).(experiments := u.experiments, writes := u.writes)
    requires !ExperimentApplied(u, d, req, plan.spec)
    requires var name := req.ExperimentName();
             && name in u.experiments && !u.experiments[name].running
                && u.experiments == w.experiments[name := u.experiments[name]]
             && u.experiments[name].record == Some(Record(d.id, DocId(req.topology.name, d.document),
                                                          ExperimentDigest(name, u.experiments[name].body)))
    ensures Preflight(u, d, req).Success?
  {
    PreflightInParts(w, d, req, plan);
    ReachedFacts(w, d, req, plan);
    SourceStaysFresh(w, ReachedExperiment(w, d, req, plan), d, req.topology.name, plan.spec);
    FreshWithOwnExperiment(ReachedExperiment(w, d, req, plan), u, d, req.ExperimentName());
    ScenarioPreflightAgain(w, u, d, req, |plan.scenarios.changed|);
    assert PreflightTopology(u, d, req.topology) == Success(true);
    assert PreflightExperiment(u, d, req, plan.spec) == Success(false);
    PreflightInParts(u, d, req, Plan(plan.spec, true, PreflightScenarios(u, d, req).value, false));
  }

  // The second update, and the draft mark after it.
  lemma UpdatesAgain(w: World, u: World, apps: Apps, id: string, req: Request, tag: nat, plan: Plan, r: bool)
    requires Current(w, id, req, tag) && Current(u, id, req, tag) && u.drafts == w.drafts
    requires Preflight(w, w.drafts[id], req) == Success(plan) && ConfigsDone(w, u, w.drafts[id], req, plan)
    requires Preflight(u, w.drafts[id], req).Success? && !ExperimentApplied(u, w.drafts[id], req, plan.spec)
    requires req.experiment.Some? && req.experiment.value.action.Update? && req.ExperimentName() in u.experiments
    requires !u.experiments[req.ExperimentName()].running
    ensures var d, name := w.drafts[id], req.ExperimentName();
            var e := AfterUpdate(apps, u.experiments[name], d, req, plan, r);
            var again := Publish(u, apps, id, req, tag, Clean(r));
            && again.1 == Completed
            && again == RunDraftStage(WriteExperiment(u, name, e), d, req, NO_FAULTS)
            && (SameButLog(RunDraftStage(u, d, req, NO_FAULTS).0, again.0) <==> e == u.experiments[name])
  {
    var d, name := w.drafts[id], req.ExperimentName();
    var second, e := Preflight(u, d, req).value, AfterUpdate(apps, u.experiments[name], d, req, plan, r);
    SecondPlan(w, u, d, req, plan, second);
    UpdateStage(u, apps, d, req, second, r);
    MarksAfterCleanRun(u, apps, id, req, tag, r);
    UninterruptedCompletes(u, apps, id, req, tag, r);
    assert AfterUpdate(apps, u.experiments[name], d, req, second, r) == e;
    DraftStageAlike(u, WriteExperiment(u, name, e), d, req);
    assert u.experiments[name := e][name] == e;
  }

  // Only the experiment stage is left to do.
  lemma SecondPlan(w: World, u: World, d: Draft, req: Request, plan: Plan, second: Plan)
    requires req.Valid() && Distinct(d.document.scenarios) && Preflight(w, d, req) == Success(plan)
             && ConfigsDone(w, u, d, req, plan)
    requires Preflight(u, d, req) == Success(second) && !ExperimentApplied(u, d, req, plan.spec) && req.experiment.Some?
    ensures second.spec == plan.spec && second.scenarios.picked == plan.scenarios.picked && !second.experimentApplied
    ensures ReachedExperiment(u, d, req, second) == u
  {
    PreflightInParts(u, d, req, second);
    PreflightInParts(w, d, req, plan);
    ScenarioPreflightAgain(w, u, d, req, |plan.scenarios.changed|);
    assert second.scenarios.changed == [] && second.topologyApplied;
    assert StoreDocument(u, d, req.topology.name) == u;
  }

  // The spec that an experiment of the request is created with.
  function CreatedSpec(w: World, req: Request, plan: Plan): Spec {
    if plan.topologyApplied
       && req.topology.name in w.topologies then w.topologies[req.topology.name].spec else plan.spec
  }

  // What the apps are given to configure, for an experiment that is created with that spec.
  function Unconfigured(w: World, d: Draft, req: Request, plan: Plan, spec: Spec): ExperimentBody {
    if req.ExperimentName() in w.experiments
    then UpdatedExperiment(w.experiments[req.ExperimentName()], d, req, plan).body
    else ExperimentBody(spec, d.document.aliases, ScenarioSpec(plan.scenarios.picked), map[], 0)
  }

  // What the apps made of it has the topology and the aliases of the document.
  predicate LeftAlone(w: World, apps: Apps, d: Draft, req: Request, plan: Plan) {
    var body := apps.configure(req.ExperimentName(), Unconfigured(w, d, req, plan, CreatedSpec(w, req, plan)));
    body.topology == plan.spec && body.aliases == d.document.aliases
  }

  /**
   After a failed draft mark, the request can be resumed exactly if its experiment was applied before, or the configure
   stage left the topology and the aliases of the document alone.
   */
  lemma ResumableIffLeftAlone(w: World, apps: Apps, id: string, req: Request, tag: nat, f: Faults)
    requires Current(w, id, req, tag) && Quiet(f) && Publish(w, apps, id, req, tag, f).1 == Partial(DraftStage)
    requires req.experiment.Some?
    ensures Preflight(w, w.drafts[id], req).Success?
    ensures var u, d, plan := Publish(w, apps, id, req, tag, f).0, w.drafts[id], Preflight(w, w.drafts[id], req).value;
            Resumable(w, u, d, req, DraftStage) <==> plan.experimentApplied || LeftAlone(w, apps, d, req, plan)
  {
    LeftByDraftFailure(w, apps, id, req, tag, f);
    var u, d, plan := Publish(w, apps, id, req, tag, f).0, w.drafts[id], Preflight(w, w.drafts[id], req).value;
    PreflightInParts(w, d, req, plan);
    AppliedIffLeftAlone(w, u, apps, d, req, plan, f.record);
  }

  lemma AppliedIffLeftAlone(w: World, u: World, apps: Apps, d: Draft, req: Request, plan: Plan, r: bool)
    requires PlanFor(w, d, req, plan) && req.experiment.Some?
    requires var reached := ReachedExperiment(w, d, req, plan);
             req.topology.name in reached.topologies
             && RunExperimentStage(reached, apps, d, req, plan, Clean(r)) == (u, true)
    ensures ExperimentApplied(u, d, req, plan.spec) <==> plan.experimentApplied || LeftAlone(w, apps, d, req, plan)
  {
    if plan.experimentApplied {
      CreatedOrApplied(w, u, apps, d, req, plan, r);
    } else {
      var reached, spec := ReachedExperiment(w, d, req, plan), CreatedSpec(w, req, plan);
      ReachedSpec(w, d, req, plan);
      ConfiguredIsStored(reached, apps, d, req, plan, r, spec);
    }
  }

  lemma ReachedSpec(w: World, d: Draft, req: Request, plan: Plan)
    requires req.topology.name in ReachedExperiment(w, d, req, plan).topologies
    ensures var reached := ReachedExperiment(w, d, req, plan);
            && reached.topologies[req.topology.name].spec == CreatedSpec(w, req, plan)
            && reached.experiments == w.experiments
  {
  }

  lemma ConfiguredIsStored(w: World, apps: Apps, d: Draft, req: Request, plan: Plan, r: bool, spec: Spec)
    requires req.topology.name in w.topologies && w.topologies[req.topology.name].spec == spec
    requires req.experiment.Some? && !plan.experimentApplied && RunExperimentStage(w, apps, d, req, plan, Clean(r)).1
    ensures var u := RunExperimentStage(w, apps, d, req, plan, Clean(r)).0;
            && req.ExperimentName() in u.experiments
            && var e := u.experiments[req.ExperimentName()];
               && e.topology == req.topology.name && e.scenario == req.ScenarioName()
               && e.body == apps.configure(req.ExperimentName(), Unconfigured(w, d, req, plan, spec))
  {
  }
}
