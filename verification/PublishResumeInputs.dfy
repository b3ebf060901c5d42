/**
 Inputs for which a resumed publication goes wrong, one for each way that PublishResumeLimits describes, and one for a
 publication that leaves an edited topology as it is.
 */
module PublishResumeInputs {
  import opened Wrappers
  import opened PublishModel
  import opened PublishSafety
  import opened PublishResume
  import opened PublishResumeLimits

  const UNMARKED := NO_FAULTS.(draft := true)

  // A publication that does everything but mark the draft.
  lemma UnmarkedLeaves(w: World, apps: Apps, d: Draft, req: Request, plan: Plan)
    requires Current(w, d.id, req, d.revision) && w.drafts[d.id] == d && Preflight(w, d, req) == Success(plan)
    requires d.publication.None?
    requires var reached := ReachedExperiment(w, d, req, plan);
             req.topology.name in reached.topologies && RunExperimentStage(reached, apps, d, req, plan, NO_FAULTS).1
    ensures var (u, outcome) := Publish(w, apps, d.id, req, d.revision, UNMARKED);
            && outcome == Partial(DraftStage)
            && u == RunExperimentStage(ReachedExperiment(w, d, req, plan), apps, d, req, plan, NO_FAULTS).0
  {
    var reached := ReachedExperiment(w, d, req, plan);
    StageSucceeds(ReachedScenarios(w, d, req, plan), plan.scenarios.changed);
    assert Publish(w, apps, d.id, req, d.revision, UNMARKED) == RunLastStages(reached, apps, d, req, plan, UNMARKED);
    assert reached.drafts == w.drafts;
    UnmarkedStage(reached, apps, d, req, plan);
  }

  lemma UnmarkedStage(w: World, apps: Apps, d: Draft, req: Request, plan: Plan)
    requires d.id in w.drafts && w.drafts[d.id] == d && d.publication.None? && req.topology.name in w.topologies
    requires RunExperimentStage(w, apps, d, req, plan, NO_FAULTS).1
    ensures RunLastStages(w, apps, d, req, plan, UNMARKED) ==
            (RunExperimentStage(w, apps, d, req, plan, NO_FAULTS).0, Partial(DraftStage))
  {
    assert RunExperimentStage(w, apps, d, req, plan, UNMARKED) == RunExperimentStage(w, apps, d, req, plan, NO_FAULTS);
    var u := RunExperimentStage(w, apps, d, req, plan, UNMARKED).0;
    assert RunDraftStage(u, d, req, UNMARKED) == (u, Partial(DraftStage));
  }

  // ---------------------------------------------------------------------------------------------
  // A configure stage that runs twice
  // ---------------------------------------------------------------------------------------------

  // An app that counts its runs, and names a VLAN.
  const COUNTING := Apps((name, body: ExperimentBody) => body.(extra := body.extra + 1,
                                                               aliases := body.aliases["v" := 1]))

  lemma UpdateRunsTwice(w: World, apps: Apps, d: Draft, req: Request, plan: Plan)
    requires Current(w, d.id, req, d.revision) && w.drafts[d.id] == d && Preflight(w, d, req) == Success(plan)
    requires d.publication.None? && !plan.experimentApplied && req.experiment.Some?
             && req.experiment.value.action.Update?
    requires req.ExperimentName() in w.experiments && !w.experiments[req.ExperimentName()].running
    requires var once := AfterUpdate(apps, w.experiments[req.ExperimentName()], d, req, plan, false);
             once.body.aliases != d.document.aliases && AfterUpdate(apps, once, d, req, plan, false) != once
    ensures var (u, outcome) := Publish(w, apps, d.id, req, d.revision, UNMARKED);
            && outcome == Partial(DraftStage) && WellFormed(u)
            && !EndsAlike(Publish(u, apps, d.id, req, d.revision, NO_FAULTS),
                          Publish(w, apps, d.id, req, d.revision, NO_FAULTS))
  {
    var name, reached := req.ExperimentName(), ReachedExperiment(w, d, req, plan);
    PreflightInParts(w, d, req, plan);
    ReachedFacts(w, d, req, plan);
    assert Clean(false) == NO_FAULTS;
    UpdateStage(reached, apps, d, req, plan, false);
    UnmarkedLeaves(w, apps, d, req, plan);
    ResumeOfUpdateIff(w, apps, d.id, req, d.revision, UNMARKED, false);
  }

  /** It happens: in the end the app has run twice. */
  lemma ConfigureRunsTwice()
    ensures Current(STORE, "d", UPDATE, 1)
    ensures var (u, outcome) := Publish(STORE, COUNTING, "d", UPDATE, 1, UNMARKED);
            && outcome == Partial(DraftStage) && WellFormed(u)
            && !EndsAlike(Publish(u, COUNTING, "d", UPDATE, 1, NO_FAULTS),
                          Publish(STORE, COUNTING, "d", UPDATE, 1, NO_FAULTS))
  {
    UpdateIsAccepted();
    CountsTwice();
    UpdateRunsTwice(STORE, COUNTING, IMPORTED, UPDATE, UPDATE_PLAN);
  }

  lemma CountsTwice()
    ensures var once := AfterUpdate(COUNTING, STOPPED, IMPORTED, UPDATE, UPDATE_PLAN, false);
            once.body.aliases != IMPORTED.document.aliases
            && AfterUpdate(COUNTING, once, IMPORTED, UPDATE, UPDATE_PLAN, false) != once
  {
    var once := AfterUpdate(COUNTING, STOPPED, IMPORTED, UPDATE, UPDATE_PLAN, false);
    assert "v" in once.body.aliases && once.body.extra == 1;
    assert AfterUpdate(COUNTING, once, IMPORTED, UPDATE, UPDATE_PLAN, false).body.extra == 2;
  }

  // ---------------------------------------------------------------------------------------------
  // A created experiment that is in its own way
  // ---------------------------------------------------------------------------------------------

  const CREATE := Request(TopologyAndExperiment, Target("t", Create), None, Some(Target("n", Create)))

  lemma CreateIsRefused(w: World, apps: Apps, d: Draft, req: Request, plan: Plan)
    requires Current(w, d.id, req, d.revision) && w.drafts[d.id] == d && Preflight(w, d, req) == Success(plan)
    requires d.publication.None? && !plan.experimentApplied && req.experiment.Some?
             && req.experiment.value.action.Create?
    requires forall body: ExperimentBody :: body.aliases == d.document.aliases ==>
               apps.configure(req.ExperimentName(), body).aliases != d.document.aliases
    ensures var (u, outcome) := Publish(w, apps, d.id, req, d.revision, UNMARKED);
            && outcome == Partial(DraftStage) && WellFormed(u)
            && Publish(u, apps, d.id, req, d.revision, NO_FAULTS).1 == Refused(ExperimentExists)
  {
    var reached := ReachedExperiment(w, d, req, plan);
    PreflightInParts(w, d, req, plan);
    ReachedFacts(w, d, req, plan);
    CreateStage(reached, apps, d, req, plan);
    UnmarkedLeaves(w, apps, d, req, plan);
    assert Clean(false) == NO_FAULTS;
    ResumeOfCreateIff(w, apps, d.id, req, d.revision, UNMARKED, false);
  }

  lemma CreateStage(w: World, apps: Apps, d: Draft, req: Request, plan: Plan)
    requires req.topology.name in w.topologies && !plan.experimentApplied && req.ExperimentName() !in w.experiments
    requires req.experiment.Some? && req.experiment.value.action.Create?
    requires forall body: ExperimentBody :: body.aliases == d.document.aliases ==>
               apps.configure(req.ExperimentName(), body).aliases != d.document.aliases
    ensures var (u, ok) := RunExperimentStage(w, apps, d, req, plan, NO_FAULTS);
            ok && req.ExperimentName() in u.experiments
            && u.experiments[req.ExperimentName()].body.aliases != d.document.aliases
  {
  }

  /** It happens: the request that created the experiment is refused from then on. */
  lemma CreatedExperimentRefused()
    ensures Current(STORE, "d", CREATE, 1)
    ensures var (u, outcome) := Publish(STORE, COUNTING, "d", CREATE, 1, UNMARKED);
            && outcome == Partial(DraftStage) && WellFormed(u)
            && Publish(u, COUNTING, "d", CREATE, 1, NO_FAULTS).1 == Refused(ExperimentExists)
  {
    assert PreflightTopology(STORE, IMPORTED, CREATE.topology) == Success(false);
    assert PreflightExperiment(STORE, IMPORTED, CREATE, UPDATE_PLAN.spec) == Success(false);
    assert SourceFresh(STORE, IMPORTED);
    PreflightInParts(STORE, IMPORTED, CREATE, UPDATE_PLAN);
    forall body: ExperimentBody | body.aliases == IMPORTED.document.aliases
      ensures COUNTING.configure("n", body).aliases != IMPORTED.document.aliases
    {
      assert "v" in COUNTING.configure("n", body).aliases;
    }
    CreateIsRefused(STORE, COUNTING, IMPORTED, CREATE, UPDATE_PLAN);
  }

  // ---------------------------------------------------------------------------------------------
  // Two topologies that stay as they are
  // ---------------------------------------------------------------------------------------------

  // A draft that was opened from a file, and a topology that was made from that file and still has a legacy diagram.
  const SHARED := Document(1, Some(Spec({}, 1)), map[], [], Manual)
  const OPENED := Draft("d", 1, OpenedFile("t", SHARED), None, None, "s", SHARED)
  const FILED := Topology(Spec({}, 1), Some(Reference(None, Some(SHARED), Some("file"))), Some("diagram"), 0)
  const FILES := World(map["t" := FILED], map[], map[], map[], map["d" := OPENED], map["file" := SHARED], 1, [])
  const REPLACE := Request(TopologyOnly, Target("t", Update), None, None)
  const UNWRITTEN := NO_FAULTS.(topology := true)

  /** It happens: after a failed topology stage the diagram stays, although the publication completes. */
  lemma FileTopologySkipped(apps: Apps)
    ensures Current(FILES, "d", REPLACE, 1) && OnlyInFile(FILES, OPENED, "t")
    ensures var (u, outcome) := Publish(FILES, apps, "d", REPLACE, 1, UNWRITTEN);
            && outcome == Partial(TopologyStage) && WellFormed(u)
            && Publish(u, apps, "d", REPLACE, 1, NO_FAULTS).0.topologies == FILES.topologies
            && !EndsAlike(Publish(u, apps, "d", REPLACE, 1, NO_FAULTS),
                          Publish(FILES, apps, "d", REPLACE, 1, NO_FAULTS))
  {
    assert HoldsDraftDocument(FILES, OPENED, "t", FILED) == Held(true, true, true);
    var plan := Plan(Spec({}, 1), false, EMPTY_SCENARIO_PLAN, true);
    PreflightInParts(FILES, OPENED, REPLACE, plan);
    assert Publish(FILES, apps, "d", REPLACE, 1, UNWRITTEN) == RunStages(FILES, apps, OPENED, REPLACE, plan, UNWRITTEN);
    assert Clean(false) == NO_FAULTS;
    ResumeOfFileTopologyIff(FILES, apps, "d", REPLACE, 1, UNWRITTEN, false);
  }

  // A topology that names the draft's document, and whose spec was edited since.
  const EDITED := Topology(Spec({}, 0), Some(Reference(Some(DocId("t", SHARED)), Some(SHARED), None)), None, 0)
  const EDITS := World(map["t" := EDITED], map[], map[], map[], map["d" := OPENED], map[], 1, [])

  /** A completed publication of the document leaves the edited spec. */
  lemma EditedTopologyStays(apps: Apps)
    ensures Current(EDITS, "d", REPLACE, 1)
    ensures var (after, outcome) := Publish(EDITS, apps, "d", REPLACE, 1, NO_FAULTS);
            && outcome == Completed && "t" in after.topologies && after.topologies["t"].spec != Spec({}, 1)
  {
    var plan := Plan(Spec({}, 1), true, EMPTY_SCENARIO_PLAN, true);
    PreflightInParts(EDITS, OPENED, REPLACE, plan);
    assert Clean(false) == NO_FAULTS;
    UninterruptedCompletes(EDITS, apps, "d", REPLACE, 1, false);
    CompletedNamesDocument(EDITS, apps, "d", REPLACE, 1, NO_FAULTS);
  }
}
