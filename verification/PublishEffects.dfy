/**
 What a completed publication leaves on the server, config by config and field by field, whatever was there before,
 whatever other writers did to the experiments, and whichever of the calls failed that may fail without ending it.
 */
module PublishEffects {
  import opened Wrappers
  import opened Annotations
  import opened PublishModel
  import opened PublishRules
  import opened PublishResume

  // ---------------------------------------------------------------------------------------------
  // Topologies
  // ---------------------------------------------------------------------------------------------

  // The topology shows the draft's document now. What is kept of the one before is its path and its metadata.
  predicate TopologyWritten(before: map<string, Topology>, after: map<string, Topology>, d: Draft, name: string) {
    && after.Keys == before.Keys + {name}
    && (forall other :: other in before && other != name ==> after[other] == before[other])
    && d.document.projection.Some?
    && var t := after[name];
    && t.spec == d.document.projection.value && t.legacy == None
    && t.reference.Some? && t.reference.value.id == Some(DocId(name, d.document))
    && t.reference.value.digest == Some(d.document)
    && (if name in before then t.metadata == before[name].metadata else t.metadata == 0)
    && t.reference.value.path ==
       if name in before && before[name].reference.Some? then before[name].reference.value.path else None
  }

  lemma TopologyEffect(w: World, d: Draft, req: Request, plan: Plan, f: Faults)
    requires d.document.projection == Some(plan.spec)
    ensures var (u, ok) := RunTopologyStage(w, d, req, plan, f);
            && (ok <==> plan.topologyApplied || !f.topology)
            && (plan.topologyApplied || !ok ==> u == w)
            && (!plan.topologyApplied && ok ==> TopologyWritten(w.topologies, u.topologies, d, req.topology.name))
            && u == w.(topologies := u.topologies, writes := u.writes)
  {
  }

  // ---------------------------------------------------------------------------------------------
  // Documents
  // ---------------------------------------------------------------------------------------------

  // The document is there to be read, by its first author or else by the draft, and all others are as they were.
  predicate DocumentStored(w: World, u: World, d: Draft, name: string) {
    u.published.Keys == w.published.Keys + {DocId(name, d.document)} && DocumentKept(w, u, d, name)
  }

  predicate DocumentKept(w: World, u: World, d: Draft, name: string) {
    var id := DocId(name, d.document);
    && id in u.published && u.published[id].intact
    && u.published[id].draft == (if id in w.published && w.published[id].intact then w.published[id].draft else d.id)
    && forall other :: other in w.published && other in u.published && other != id ==>
         u.published[other] == w.published[other]
  }

  lemma DocumentEffect(w: World, d: Draft, name: string)
    ensures var u := StoreDocument(w, d, name); u == w.(published := u.published) && DocumentStored(w, u, d, name)
  {
  }

  // In the end other documents of the topology may be gone, but no document of any other one.
  predicate DocumentsKept(w: World, u: World, d: Draft, name: string, removed: set<DocId>) {
    var id := DocId(name, d.document);
    && DocumentKept(w, u, d, name)
    && (forall other: DocId :: other in u.published && other != id ==> other in w.published)
    && (forall other: DocId :: other in w.published && other != id ==>
          (other !in u.published <==> other.target == name && other in removed))
  }

  // ---------------------------------------------------------------------------------------------
  // Scenarios
  // ---------------------------------------------------------------------------------------------

  // Each listed scenario names the topology, and keeps the rest. All others are as they were.
  predicate ScenariosWrittenBy(before: map<string, Scenario>, after: map<string, Scenario>, listed: seq<string>,
                               name: string) {
    && after.Keys == before.Keys
    && (forall s :: s in before && s !in listed ==> after[s] == before[s])
    && (forall s :: s in before && s in listed ==>
          && after[s].spec == before[s].spec
          && after[s].topologies ==
             if HasTopology(before[s].topologies, name) then before[s].topologies
             else if before[s].topologies == "" then name
             else before[s].topologies + "," + name)
  }

  lemma {:induction false} ScenarioEffect(w: World, u: World, listed: seq<string>, done: set<string>, name: string)
    requires Distinct(listed) && forall s :: s in listed ==> s in w.scenarios && s !in done
    requires forall s :: s in w.scenarios && s !in done ==> s in u.scenarios && u.scenarios[s] == w.scenarios[s]
    ensures var after := RunScenarioStage(u, Changes(w, listed, name), {}).0.scenarios;
            && after.Keys == u.scenarios.Keys
            && (forall s :: s in u.scenarios && s !in listed ==> after[s] == u.scenarios[s])
            && (forall s :: s in listed ==>
                  && after[s].spec == w.scenarios[s].spec
                  && after[s].topologies == AddTopology(w.scenarios[s].topologies, name))
    decreases |listed|
  {
    if listed != [] {
      var s, rest := listed[0], listed[1..];
      assert forall t :: t in rest ==> t in listed && t != s;
      if HasTopology(w.scenarios[s].topologies, name) {
        ScenarioEffect(w, u, rest, done + {s}, name);
      } else {
        var change := ScenarioChange(s, WithTopology(w.scenarios[s], name));
        ScenarioEffect(w, WriteScenario(u, change), rest, done + {s}, name);
        assert Changes(w, listed, name)[1..] == Changes(w, rest, name);
      }
    }
  }

  // ---------------------------------------------------------------------------------------------
  // The experiment
  // ---------------------------------------------------------------------------------------------

  // What the apps are given for a new experiment, and for one that is updated.
  predicate BodyOfNew(body: ExperimentBody, topology: Topology, d: Draft, scenario: Option<int>) {
    && body.topology == topology.spec && body.aliases == d.document.aliases && body.scenario == scenario
    && body.pins == map[] && body.extra == 0
  }

  predicate BodyOfUpdated(body: ExperimentBody, old_: ExperimentBody, d: Draft, scenario: Option<int>) {
    && d.document.projection == Some(body.topology) && body.aliases == d.document.aliases && body.scenario == scenario
    && body.extra == old_.extra
    && body.pins.Keys == (set n | n in old_.pins && n in body.topology.hostnames)
    && (forall n :: n in body.pins ==> body.pins[n] == old_.pins[n])
  }

  // The experiment names what it was made from, is stopped, and records its publisher with the digest of what the apps
  // made.
  ghost predicate ExperimentWritten(met: map<string, Experiment>, e: Experiment, apps: Apps, d: Draft, req: Request,
                              topology: Topology, scenario: Option<int>, recordFails: bool)
  {
    req.experiment.Some? &&
    var name := req.experiment.value.name;
    && e.topology == req.topology.name
    && e.scenario == (match req.scenario { case Some(s) => s case None => "" })
    && !e.running
    && (match req.experiment.value.action
        case Create =>
          && name !in met
          && exists body :: BodyOfNew(body, topology, d, scenario) && e.body == apps.configure(name, body)
        case Update =>
          && name in met && !met[name].running
          && exists body :: BodyOfUpdated(body, met[name].body, d, scenario) && e.body == apps.configure(name, body))
    && (if recordFails then e.record == (if name in met then met[name].record else None)
        else e.record == Some(Record(d.id, DocId(req.topology.name, d.document), ExperimentDigest(name, e.body))))
  }

  // No experiment but the target differs from what the other writers left.
  predicate OthersAsMet(met: map<string, Experiment>, after: map<string, Experiment>, name: string) {
    && after.Keys == met.Keys + {name}
    && (forall other :: other in met && other != name ==> after[other] == met[other])
  }

  lemma ExperimentEffect(w: World, apps: Apps, d: Draft, req: Request, plan: Plan, f: Faults)
    requires req.topology.name in w.topologies && d.document.projection == Some(plan.spec)
    requires RunExperimentStage(w, apps, d, req, plan, f).1
    ensures var after, met := RunExperimentStage(w, apps, d, req, plan, f).0.experiments, Met(w, f);
            if req.experiment.None? || plan.experimentApplied then after == w.experiments
            else
              && OthersAsMet(met, after, req.ExperimentName())
              && ExperimentWritten(met, after[req.ExperimentName()], apps, d, req, w.topologies[req.topology.name],
                                   ScenarioSpec(plan.scenarios.picked), f.record)
  {
    if req.experiment.Some? && !plan.experimentApplied {
      var before := w.(experiments := Met(w, f));
      if req.experiment.value.action.Create? {
        CreateEffect(before, apps, d, req, plan, f);
      } else {
        UpdateEffect(before, apps, d, req, plan, f);
      }
    }
  }

  lemma CreateEffect(w: World, apps: Apps, d: Draft, req: Request, plan: Plan, f: Faults)
    requires req.topology.name in w.topologies && req.experiment.Some? && req.experiment.value.action.Create?
    requires CreateExperiment(w, apps, d, req, plan, f).1
    ensures var after, name := CreateExperiment(w, apps, d, req, plan, f).0.experiments, req.ExperimentName();
            && OthersAsMet(w.experiments, after, name)
            && ExperimentWritten(w.experiments, after[name], apps, d, req, w.topologies[req.topology.name],
                                 ScenarioSpec(plan.scenarios.picked), f.record)
  {
    var topology, scenario := w.topologies[req.topology.name], ScenarioSpec(plan.scenarios.picked);
    var body := ExperimentBody(topology.spec, d.document.aliases, scenario, map[], 0);
    assert BodyOfNew(body, topology, d, scenario);
  }

  lemma UpdateEffect(w: World, apps: Apps, d: Draft, req: Request, plan: Plan, f: Faults)
    requires req.experiment.Some? && req.experiment.value.action.Update? && req.topology.name in w.topologies
    requires UpdateExperiment(w, apps, d, req, plan, f).1 && d.document.projection == Some(plan.spec)
    ensures var after, name := UpdateExperiment(w, apps, d, req, plan, f).0.experiments, req.ExperimentName();
            && OthersAsMet(w.experiments, after, name)
            && ExperimentWritten(w.experiments, after[name], apps, d, req, w.topologies[req.topology.name],
                                 ScenarioSpec(plan.scenarios.picked), f.record)
  {
    var name := req.ExperimentName();
    var body := UpdatedExperiment(w.experiments[name], d, req, plan).body;
    assert BodyOfUpdated(body, w.experiments[name].body, d, ScenarioSpec(plan.scenarios.picked));
  }

  // ---------------------------------------------------------------------------------------------
  // The draft
  // ---------------------------------------------------------------------------------------------

  // The publication that the draft records is that of the request, with the draft's content and tag at the time.
  predicate RecordsRequest(p: Publication, d: Draft, req: Request, tag: nat) {
    && p.mode == req.mode && p.topology == req.topology.name && p.action == req.topology.action
    && p.experiment == (match req.experiment { case Some(e) => e.name case None => "" })
    && p.scenario == (match req.scenario { case Some(s) => s case None => "" })
    && p.snapshot == d.snapshot && p.digest == d.document
    && p.document == DocId(req.topology.name, d.document)
    && p.revision == tag
  }

  // Either the draft records the request now, under a new revision, or it did so before and nothing changed.
  predicate DraftMarked(before: map<string, Draft>, after: map<string, Draft>, d: Draft, req: Request, revisions: nat) {
    && d.id in after && after.Keys == before.Keys
    && (forall other :: other in before && other != d.id ==> after[other] == before[other])
    && var now := after[d.id];
    && now == d.(publication := now.publication, revision := now.revision)
    && now.publication.Some?
    && (|| (RecordsRequest(now.publication.value, d, req, d.revision) && now.revision == revisions + 1)
        || (now == d && RecordsRequest(d.publication.value, d, req, d.publication.value.revision)))
  }

  // The stored draft records the request already, for the content that was published.
  predicate RecordsAlready(now: Draft, d: Draft, req: Request) {
    now.publication.Some? &&
    var p := now.publication.value;
    && p.mode == req.mode && p.topology == req.topology.name && p.action == req.topology.action
    && p.experiment == (match req.experiment { case Some(e) => e.name case None => "" })
    && p.scenario == (match req.scenario { case Some(s) => s case None => "" })
    && p.snapshot == now.snapshot && p.snapshot == d.snapshot && p.digest == now.document
    && p.document == DocId(req.topology.name, d.document)
    && d.revision in {0, now.revision, p.revision}
  }

  /** What the draft mark decides, and what it records. */
  lemma MarkVerdict(now: Draft, d: Draft, req: Request, fails: bool)
    ensures match DecideMark(now, d, req, fails)
            case Kept => RecordsAlready(now, d, req)
            case Conflict =>
              !RecordsAlready(now, d, req)
              && (fails || d.revision !in {0, now.revision} || now.snapshot != d.snapshot)
            case Recorded(p) =>
              && !RecordsAlready(now, d, req) && !fails && d.revision in {0, now.revision} && now.snapshot == d.snapshot
              && p.mode == req.mode && p.topology == req.topology.name && p.action == req.topology.action
              && p.experiment == (match req.experiment { case Some(e) => e.name case None => "" })
              && p.scenario == (match req.scenario { case Some(s) => s case None => "" })
              && p.snapshot == now.snapshot && p.digest == now.document && p.revision == now.revision
              && p.document == DocId(req.topology.name, d.document)
  {
  }

  // After a save the mark is refused, since the tag has moved on.
  lemma SavedIsConflict(w: World, d: Draft, req: Request, save: Save, fails: bool)
    requires d.id in w.drafts && w.drafts[d.id] == d && 0 < d.revision <= w.revisions
    requires d.publication.Some? ==> d.publication.value.revision < d.revision
    ensures DecideMark(SaveDraft(w, d.id, Some(save)).drafts[d.id], d, req, fails).Conflict?
  {
  }

  lemma MarkLeaves(w: World, d: Draft, req: Request, fails: bool)
    requires d.id in w.drafts && w.drafts[d.id] == d && 0 < d.revision && MarkPublished(w, d, req, fails).1
    ensures DraftMarked(w.drafts, MarkPublished(w, d, req, fails).0.drafts, d, req, w.revisions)
  {
    match DecideMark(d, d, req, fails)
    case Kept => assert RecordsRequest(d.publication.value, d, req, d.publication.value.revision);
    case Recorded(p) => assert RecordsRequest(p, d, req, d.revision);
  }

  lemma DraftEffect(w: World, d: Draft, req: Request, f: Faults)
    requires d.id in w.drafts && w.drafts[d.id] == d && 0 < d.revision <= w.revisions
    requires d.publication.Some? ==> d.publication.value.revision < d.revision
    requires RunDraftStage(w, d, req, f).1 == Completed
    ensures DraftMarked(w.drafts, RunDraftStage(w, d, req, f).0.drafts, d, req, w.revisions)
  {
    if f.save.Some? {
      SavedIsConflict(w, d, req, f.save.value, f.draft);
    } else {
      MarkLeaves(w, d, req, f.draft);
    }
  }

  lemma CleanupEffect(w: World, d: Draft, req: Request, f: Faults)
    requires d.id in w.drafts && DocId(req.topology.name, d.document) in w.published
    requires RunDraftStage(w, d, req, f).1 == Completed
    ensures var u, id := RunDraftStage(w, d, req, f).0, DocId(req.topology.name, d.document);
            && id in u.published && u.published[id] == w.published[id]
            && (forall other: DocId :: other in u.published ==>
                  other in w.published && u.published[other] == w.published[other])
            && (forall other: DocId :: other in w.published && other != id ==>
                  (other !in u.published <==> other.target == req.topology.name && other in f.superseded))
  {
  }

  // ---------------------------------------------------------------------------------------------
  // The whole publication
  // ---------------------------------------------------------------------------------------------

  // The scenario that the experiment refers to, if the request names one that the document lists.
  function PickedSpec(w: World, d: Draft, req: Request): Option<int> {
    var name := match req.scenario { case Some(s) => s case None => "" };
    if name in d.document.scenarios && name in w.scenarios then Some(w.scenarios[name].spec) else None
  }

  predicate TopologiesLeft(w: World, u: World, d: Draft, name: string) {
    && name in u.topologies
    && if AlreadyShown(w, d, name) then u.topologies == w.topologies
       else TopologyWritten(w.topologies, u.topologies, d, name)
  }

  ghost predicate ExperimentsLeft(w: World, u: World, apps: Apps, d: Draft, req: Request, f: Faults)
    requires d.document.projection.Some? && req.topology.name in u.topologies
  {
    match req.experiment
    case None => u.experiments == w.experiments
    case Some(t) =>
      if t.name in w.experiments && AlreadyThere(w.experiments[t.name], d, req, d.document.projection.value)
      then u.experiments == w.experiments
      else
        && OthersAsMet(Met(w, f), u.experiments, t.name)
        && ExperimentWritten(Met(w, f), u.experiments[t.name], apps, d, req, u.topologies[req.topology.name],
                             PickedSpec(w, d, req), f.record)
  }

  ghost predicate Left(w: World, u: World, apps: Apps, d: Draft, req: Request, f: Faults) {
    && u.files == w.files && d.document.projection.Some?
    && TopologiesLeft(w, u, d, req.topology.name)
    && ScenariosWrittenBy(w.scenarios, u.scenarios, d.document.scenarios, req.topology.name)
    && ExperimentsLeft(w, u, apps, d, req, f)
    && DocumentsKept(w, u, d, req.topology.name, f.superseded)
    && DraftMarked(w.drafts, u.drafts, d, req, w.revisions)
  }

  // The draft as it is stored, under a tag that was given out after its last publication.
  predicate TaggedDraft(w: World, d: Draft) {
    && d.id in w.drafts && w.drafts[d.id] == d && 0 < d.revision <= w.revisions
    && (d.publication.Some? ==> d.publication.value.revision < d.revision)
  }

  /** What a completed publication leaves. */
  lemma CompletedLeaves(w: World, apps: Apps, id: string, req: Request, tag: nat, f: Faults)
    requires WellFormed(w) && Publish(w, apps, id, req, tag, f).1 == Completed
    requires id in w.drafts && TaggedDraft(w, w.drafts[id]) && Distinct(w.drafts[id].document.scenarios)
    ensures Left(w, Publish(w, apps, id, req, tag, f).0, apps, w.drafts[id], req, f)
  {
    var d, plan := w.drafts[id], Preflight(w, w.drafts[id], req).value;
    PreflightInParts(w, d, req, plan);
    StagesLeave(w, apps, d, req, plan, f);
  }

  lemma StagesLeave(w: World, apps: Apps, d: Draft, req: Request, plan: Plan, f: Faults)
    requires PlanFor(w, d, req, plan) && TaggedDraft(w, d) && Distinct(d.document.scenarios)
    requires plan.topologyApplied ==> req.topology.name in w.topologies
    requires RunStages(w, apps, d, req, plan, f).1 == Completed
    ensures Left(w, RunStages(w, apps, d, req, plan, f).0, apps, d, req, f)
  {
    var w0 := StoreDocument(w, d, req.topology.name);
    DocumentEffect(w, d, req.topology.name);
    TopologyEffect(w0, d, req, plan, f);
    AlreadyShownIff(w, d, req.topology.name);
    LaterStagesLeave(w, RunTopologyStage(w0, d, req, plan, f).0, apps, d, req, plan, f);
  }

  // The document is stored, and the topology is as it is going to be.
  predicate UpToScenarios(w: World, u: World, d: Draft, name: string) {
    && u == w.(topologies := u.topologies, published := u.published, writes := u.writes)
    && DocumentStored(w, u, d, name) && TopologiesLeft(w, u, d, name)
  }

  lemma LaterStagesLeave(w: World, u: World, apps: Apps, d: Draft, req: Request, plan: Plan, f: Faults)
    requires PlanFor(w, d, req, plan) && TaggedDraft(w, d) && Distinct(d.document.scenarios)
    requires UpToScenarios(w, u, d, req.topology.name) && RunLaterStages(u, apps, d, req, plan, f).1 == Completed
    ensures Left(w, RunLaterStages(u, apps, d, req, plan, f).0, apps, d, req, f)
  {
    PlansAre(w, d, req);
    FullStage(u, plan.scenarios.changed, f.scenarios);
    ScenarioEffect(w, u, d.document.scenarios, {}, req.topology.name);
    var next := RunScenarioStage(u, plan.scenarios.changed, {}).0;
    LastStagesLeave(w, u, next, apps, d, req, plan, f);
  }

  lemma LastStagesLeave(w: World, u: World, next: World, apps: Apps, d: Draft, req: Request, plan: Plan, f: Faults)
    requires PlanFor(w, d, req, plan) && TaggedDraft(w, d) && UpToScenarios(w, u, d, req.topology.name)
    requires next == u.(scenarios := next.scenarios, writes := next.writes)
    requires ScenariosWrittenBy(w.scenarios, next.scenarios, d.document.scenarios, req.topology.name)
    requires RunLastStages(next, apps, d, req, plan, f).1 == Completed
    ensures Left(w, RunLastStages(next, apps, d, req, plan, f).0, apps, d, req, f)
  {
    var last := RunExperimentStage(next, apps, d, req, plan, f).0;
    ExperimentStageLeaves(w, next, apps, d, req, plan, f);
    DraftStageLeaves(w, last, d, req, f);
  }

  lemma ExperimentStageLeaves(w: World, u: World, apps: Apps, d: Draft, req: Request, plan: Plan, f: Faults)
    requires PlanFor(w, d, req, plan) && u.experiments == w.experiments && req.topology.name in u.topologies
    requires RunExperimentStage(u, apps, d, req, plan, f).1
    ensures ExperimentsLeft(w, RunExperimentStage(u, apps, d, req, plan, f).0, apps, d, req, f)
  {
    ExperimentEffect(u, apps, d, req, plan, f);
    PickedIs(w, d, req, plan);
    if req.experiment.Some? {
      ExperimentVerdict(w, d, req, plan.spec);
    }
  }

  lemma DraftStageLeaves(w: World, u: World, d: Draft, req: Request, f: Faults)
    requires TaggedDraft(w, d) && u.drafts == w.drafts && u.revisions == w.revisions
    requires DocId(req.topology.name, d.document) in u.published && RunDraftStage(u, d, req, f).1 == Completed
    requires u.published.Keys == w.published.Keys + {DocId(req.topology.name, d.document)}
    requires DocumentKept(w, u, d, req.topology.name)
    ensures var end := RunDraftStage(u, d, req, f).0;
            && end == u.(drafts := end.drafts, revisions := end.revisions, published := end.published)
            && DocumentsKept(w, end, d, req.topology.name, f.superseded)
            && DraftMarked(w.drafts, end.drafts, d, req, w.revisions)
  {
    DraftEffect(u, d, req, f);
    CleanupEffect(u, d, req, f);
  }

  // A scenario stage that succeeds has met no fault.
  lemma {:induction false} FullStage(w: World, changed: seq<ScenarioChange>, failing: set<string>)
    requires RunScenarioStage(w, changed, failing).1
    ensures RunScenarioStage(w, changed, failing) == RunScenarioStage(w, changed, {})
    decreases |changed|
  {
    if changed != [] {
      FullStage(WriteScenario(w, changed[0]), changed[1..], failing);
    }
  }

  // ---------------------------------------------------------------------------------------------
  // The outcome
  // ---------------------------------------------------------------------------------------------

  // Whether the write of a scenario that is to be written fails.
  predicate ScenarioFails(w: World, d: Draft, topology: string, failing: set<string>) {
    exists s :: s in d.document.scenarios && s in w.scenarios && s in failing
                && !HasTopology(w.scenarios[s].topologies, topology)
  }

  predicate ExperimentFails(w: World, d: Draft, req: Request, f: Faults)
    requires d.document.projection.Some?
  {
    match req.experiment
    case None => false
    case Some(t) =>
      && !(t.name in w.experiments && AlreadyThere(w.experiments[t.name], d, req, d.document.projection.value))
      && (f.lock || f.experiment
          || match t.action {
               case Create => t.name in Met(w, f)
               case Update => t.name !in Met(w, f) || Met(w, f)[t.name].running || f.configure
             })
  }

  predicate MarkFails(d: Draft, req: Request, f: Faults) {
    f.save.Some?
    || (f.draft && !(d.publication.Some? && RecordsRequest(d.publication.value, d, req, d.publication.value.revision)))
  }

  /**
   At which stage an accepted publication ends, by what fails and what other writers do. Only what is to be done can
   fail.
   */
  lemma OutcomeVerdict(w: World, apps: Apps, id: string, req: Request, tag: nat, f: Faults)
    requires WellFormed(w) && req.Valid() && id in w.drafts && tag == w.drafts[id].revision
    requires TaggedDraft(w, w.drafts[id]) && Preflight(w, w.drafts[id], req).Success?
    ensures var d := w.drafts[id];
            && d.document.projection.Some?
            && Publish(w, apps, id, req, tag, f).1 ==
               if f.document then Refused(DocumentNotStored)
               else if f.topology && !AlreadyShown(w, d, req.topology.name) then Partial(TopologyStage)
               else if ScenarioFails(w, d, req.topology.name, f.scenarios) then Partial(ScenarioStage)
               else if ExperimentFails(w, d, req, f) then Partial(ExperimentStage)
               else if MarkFails(d, req, f) then Partial(DraftStage)
               else Completed
  {
    var d := w.drafts[id];
    var plan := Preflight(w, d, req).value;
    PreflightInParts(w, d, req, plan);
    TopologyVerdict(w, d, req.topology);
    var (w1, ok) := RunTopologyStage(StoreDocument(w, d, req.topology.name), d, req, plan, f);
    if !f.document && ok {
      LaterOutcome(w, w1, apps, d, req, plan, f);
    }
  }

  lemma LaterOutcome(w: World, w1: World, apps: Apps, d: Draft, req: Request, plan: Plan, f: Faults)
    requires PlanFor(w, d, req, plan) && TaggedDraft(w, d) && req.topology.name in w1.topologies
    requires w1.drafts == w.drafts && w1.revisions == w.revisions && w1.experiments == w.experiments
    ensures RunLaterStages(w1, apps, d, req, plan, f).1 ==
            if ScenarioFails(w, d, req.topology.name, f.scenarios) then Partial(ScenarioStage)
            else if ExperimentFails(w, d, req, f) then Partial(ExperimentStage)
            else if MarkFails(d, req, f) then Partial(DraftStage)
            else Completed
  {
    PlansAre(w, d, req);
    ScenarioStageFailsIff(w, w1, d.document.scenarios, req.topology.name, f.scenarios);
    var (w2, ok) := RunScenarioStage(w1, plan.scenarios.changed, f.scenarios);
    if ok {
      ExperimentStageFailsIff(w, w2, apps, d, req, plan, f);
      MarkFailsIff(RunExperimentStage(w2, apps, d, req, plan, f).0, d, req, f);
    }
  }

  lemma {:induction false} ScenarioStageFailsIff(w: World, u: World, listed: seq<string>, topology: string,
                                                 failing: set<string>)
    requires forall s :: s in listed ==> s in w.scenarios
    ensures RunScenarioStage(u, Changes(w, listed, topology), failing).1 <==>
            forall s :: s in listed && s in failing ==> HasTopology(w.scenarios[s].topologies, topology)
    decreases |listed|
  {
    if listed != [] {
      var s, rest := listed[0], listed[1..];
      assert forall t :: t in listed <==> t == s || t in rest;
      if HasTopology(w.scenarios[s].topologies, topology) {
        ScenarioStageFailsIff(w, u, rest, topology, failing);
      } else {
        var change := ScenarioChange(s, WithTopology(w.scenarios[s], topology));
        assert Changes(w, listed, topology)[1..] == Changes(w, rest, topology);
        ScenarioStageFailsIff(w, WriteScenario(u, change), rest, topology, failing);
      }
    }
  }

  lemma ExperimentStageFailsIff(w: World, u: World, apps: Apps, d: Draft, req: Request, plan: Plan, f: Faults)
    requires PlanFor(w, d, req, plan) && u.experiments == w.experiments && req.topology.name in u.topologies
    ensures RunExperimentStage(u, apps, d, req, plan, f).1 <==> !ExperimentFails(w, d, req, f)
  {
    if req.experiment.Some? {
      ExperimentVerdict(w, d, req, plan.spec);
    }
  }

  lemma MarkFailsIff(w: World, d: Draft, req: Request, f: Faults)
    requires TaggedDraft(w, d)
    ensures RunDraftStage(w, d, req, f).1 == if MarkFails(d, req, f) then Partial(DraftStage) else Completed
  {
    if f.save.Some? {
      SavedIsConflict(w, d, req, f.save.value, f.draft);
    } else {
      MarkVerdict(d, d, req, f.draft);
    }
  }

  lemma PickedIs(w: World, d: Draft, req: Request, plan: Plan)
    requires PlanFor(w, d, req, plan)
    ensures ScenarioSpec(plan.scenarios.picked) == PickedSpec(w, d, req)
  {
    PlansAre(w, d, req);
  }
}
