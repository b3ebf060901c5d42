/**
 What a publication may overwrite. Each statement holds for every world, so it holds at every publication of every run,
 whatever other writers did between publications.
 */
module PublishSafety {
  import opened Wrappers
  import opened Annotations
  import opened PublishModel

  // The publication replaces the stored topology name with something else.
  ghost predicate Overwrites(w: World, apps: Apps, id: string, req: Request, tag: nat, f: Faults, name: string)
    requires WellFormed(w)
  {
    var after := Publish(w, apps, id, req, tag, f).0;
    name in w.topologies && (name !in after.topologies || after.topologies[name] != w.topologies[name])
  }

  // The document is one that the draft opened, forked, published, or has the same content as.
  predicate IsOwnDocument(w: World, d: Draft, name: string, document: Document) {
    || document == d.document
    || OwnsDocument(d, DocId(name, document))
    || (DocId(name, document) in w.published && w.published[DocId(name, document)].draft == d.id)
    || d.token == OpenedFile(name, document)
  }

  // The stored spec is exactly what a document of the draft, the one the topology refers to, publishes.
  ghost predicate HoldsOwnDocument(w: World, d: Draft, name: string, t: Topology) {
    t.reference.Some? &&
    exists document: Document :: document.projection == Some(t.spec) && IsOwnDocument(w, d, name, document)
                       && RefersTo(w, name, t.reference.value, document)
  }

  predicate RefersTo(w: World, name: string, r: Reference, document: Document) {
    match Resolve(w, name, r)
    case Unusable => false
    case FromStore(stored, _) => stored == document
    case FromFile(read) => read == document
  }

  // A direct import whose digest still fits.
  predicate IsFreshImport(d: Draft, name: string, t: Topology) {
    d.token != Uploaded && d.document.source == FromTopology(name, ImportDigest(name, t))
  }

  ghost predicate Safe(w: World, d: Draft, name: string) {
    name in w.topologies &&
    (HoldsOwnDocument(w, d, name, w.topologies[name]) || IsFreshImport(d, name, w.topologies[name]))
  }

  // A reference that names both a stored document and a file also pins the content of the file.
  predicate PinnedReferences(w: World) {
    forall name :: name in w.topologies ==> PinnedReference(w, name)
  }

  predicate PinnedReference(w: World, name: string)
    requires name in w.topologies
  {
    var r := w.topologies[name].reference;
    r.Some? && r.value.path.Some? && r.value.id.Some? ==>
      r.value.digest.Some? && r.value.id.value == DocId(name, r.value.digest.value)
  }

  // Where there is no legacy diagram, UpdateMatchesSource accepts such a draft, and SourceFresh never looks at the
  // topology.
  predicate ImportedThroughExperiment(d: Draft, name: string) {
    && d.token != Uploaded
    && !(d.token.OpenedFile? && d.token.topology == name)
    && d.document.source.FromExperiment?
    && d.document.source.topology == name
  }

  // ---------------------------------------------------------------------------------------------
  // Frames
  // ---------------------------------------------------------------------------------------------

  // A publication changes no topology but its target, and that one only by its topology stage after an accepted
  // preflight.
  lemma OnlyTargetWritten(w: World, apps: Apps, id: string, req: Request, tag: nat, f: Faults)
    requires WellFormed(w)
    ensures var after := Publish(w, apps, id, req, tag, f).0;
            || after.topologies == w.topologies
            || (&& id in w.drafts
                && tag == w.drafts[id].revision
                && Preflight(w, w.drafts[id], req).Success?
                && !Preflight(w, w.drafts[id], req).value.topologyApplied
                && req.Valid()
                && after.topologies == w.topologies[req.topology.name :=
                     PublishedTopology(w, w.drafts[id], req.topology.name, Preflight(w, w.drafts[id], req).value.spec)])
  {
  }

  // An update that passes the ownership rules finds the draft's own document, unless it goes by an import rule.
  lemma AcceptedUpdate(w: World, d: Draft, name: string, t: Topology)
    requires name in w.topologies && t == w.topologies[name]
    requires TopologyUpdateRefusal(w, d, name, t).None?
    ensures HoldsOwnDocument(w, d, name, t)
            || !PinnedReference(w, name)
            || (UpdateMatchesSource(d, name, t) && !HoldsDraftDocument(w, d, name, t).owned
                && !(d.token.OpenedFile? && d.token.topology == name))
  {
    var held := HoldsDraftDocument(w, d, name, t);
    if held.owned && held.pristine && PinnedReference(w, name) {
      var r := t.reference.value;
      match Resolve(w, name, r)
      case Unusable =>
      case FromStore(document, _) =>
        assert r.StoredID(name) == Some(DocId(name, document));
        assert IsOwnDocument(w, d, name, document) && RefersTo(w, name, r, document);
      case FromFile(document) =>
        assert IsOwnDocument(w, d, name, document) && RefersTo(w, name, r, document);
    }
  }

  // ---------------------------------------------------------------------------------------------
  // No lost update
  // ---------------------------------------------------------------------------------------------

  /** No lost update: a publication replaces a topology only as its update target, and only when the draft has seen
      what is stored there. The two exceptions are a draft that came through an experiment of the topology, and a
      reference that names a stored document and a file without a digest that ties the two. */
  lemma NoLostUpdate(w: World, apps: Apps, id: string, req: Request, tag: nat, f: Faults, name: string)
    requires WellFormed(w)
    requires Overwrites(w, apps, id, req, tag, f, name)
    ensures id in w.drafts && name == req.topology.name && req.topology.action.Update?
    ensures Safe(w, w.drafts[id], name) || ImportedThroughExperiment(w.drafts[id], name) || !PinnedReference(w, name)
  {
    OnlyTargetWritten(w, apps, id, req, tag, f);
    var d, t := w.drafts[id], w.topologies[name];
    assert name == req.topology.name;
    assert PreflightTopology(w, d, req.topology) == Success(false);
    AcceptedUpdate(w, d, name, t);
    if !HoldsOwnDocument(w, d, name, t) && PinnedReference(w, name) && d.document.source.FromTopology? {
      var plan := Preflight(w, d, req).value;
      assert !plan.Resuming() && SourceFresh(w, d);
      assert !HoldsDraftDocument(w, d, name, t).pristine;
    }
  }

  // The draft can lose an update of some topology: some publication of it replaces one it has not seen.
  ghost predicate CanLoseUpdate(d: Draft, apps: Apps) {
    exists w: World, req: Request, tag: nat, f: Faults, name: string ::
      WellFormed(w) && PinnedReferences(w) && d.id in w.drafts && w.drafts[d.id] == d
      && Overwrites(w, apps, d.id, req, tag, f, name) && !Safe(w, d, name)
  }

  // A world with the draft, the scenarios it lists, and one topology that no Builder document describes.
  function ForeignTopologyWorld(d: Draft, name: string): World {
    var scenarios := map s | s in d.document.scenarios :: Scenario("", 0);
    World(map[name := Topology(Spec({}, 0), None, None, 0)], scenarios, map[], map[],
          map[d.id := d], map[], d.revision, [])
  }

  lemma {:induction false} PlansForeignScenarios(w: World, listed: seq<string>, req: Request, plan: ScenarioPlan)
    requires forall s :: s in listed ==> s in w.scenarios
    ensures PlanScenarios(w, listed, req, plan).Success?
    decreases |listed|
  {
    if listed != [] {
      PlansForeignScenarios(w, listed[1..], req, PlanScenario(w.scenarios[listed[0]], listed[0], req, plan));
    }
  }

  lemma LosesUpdateThroughExperiment(d: Draft, apps: Apps, name: string)
    requires ImportedThroughExperiment(d, name) && ValidName(name) && d.document.projection.Some?
    ensures CanLoseUpdate(d, apps)
  {
    var w := ForeignTopologyWorld(d, name);
    var req := Request(TopologyOnly, Target(name, Update), None, None);
    PlansForeignScenarios(w, d.document.scenarios, req, EMPTY_SCENARIO_PLAN);
    assert TopologyUpdateRefusal(w, d, name, w.topologies[name]).None?;
    assert SourceFresh(w, d);
    var plan := Preflight(w, d, req).value;
    var f := NO_FAULTS.(topology := false);
    var w1 := StoreDocument(w, d, name);
    var (w2, ok) := RunTopologyStage(w1, d, req, plan, f);
    assert w2.topologies[name].reference.Some?;
    assert Publish(w, apps, d.id, req, d.revision, f).0.topologies == w2.topologies;
    assert PinnedReference(w, name);
    assert Overwrites(w, apps, d.id, req, d.revision, f, name);
    assert !Safe(w, d, name);
  }

  /** Exactly which drafts can lose an update: those imported from an experiment, which may update the topology it was
      built from. Their freshness check reads the experiment, never the topology. */
  lemma LosesUpdateIff(d: Draft, apps: Apps)
    requires d.document.projection.Some?
    ensures CanLoseUpdate(d, apps) <==>
            exists name :: ValidName(name) && ImportedThroughExperiment(d, name)
  {
    if CanLoseUpdate(d, apps) {
      var w: World, req: Request, tag: nat, f: Faults, name: string :|
        WellFormed(w) && PinnedReferences(w) && d.id in w.drafts && w.drafts[d.id] == d
        && Overwrites(w, apps, d.id, req, tag, f, name) && !Safe(w, d, name);
      NoLostUpdate(w, apps, d.id, req, tag, f, name);
      assert PinnedReference(w, name);
      OnlyTargetWritten(w, apps, d.id, req, tag, f);
      assert ValidName(name) && ImportedThroughExperiment(d, name);
    }
    if name :| ValidName(name) && ImportedThroughExperiment(d, name) {
      LosesUpdateThroughExperiment(d, apps, name);
    }
  }

  /**
   When a publication replaces a topology, and the draft did not come through an experiment of it, the update is lost
   exactly if the reference names a document of the draft while it resolves to a file with another document, which
   describes the stored spec and was never the draft's.
   */
  lemma LosesUpdateByReferenceIff(w: World, apps: Apps, id: string, req: Request, tag: nat, f: Faults, name: string)
    requires WellFormed(w) && Overwrites(w, apps, id, req, tag, f, name) && id in w.drafts
    requires !ImportedThroughExperiment(w.drafts[id], name)
    ensures !Safe(w, w.drafts[id], name) <==>
            !IsFreshImport(w.drafts[id], name, w.topologies[name])
            && NamesUnseenFile(w, w.drafts[id], name, w.topologies[name])
  {
    AcceptedOverwrite(w, apps, id, req, tag, f, name);
    OwnDocumentIff(w, w.drafts[id], name, w.topologies[name]);
  }

  /**
   When the draft did come through an experiment of the topology, the update is lost exactly if the topology refers to
   no document of the draft, or to an unseen file as above.
   */
  lemma LosesUpdateThroughExperimentIff(w: World, apps: Apps, id: string, req: Request, tag: nat, f: Faults,
                                        name: string)
    requires WellFormed(w) && Overwrites(w, apps, id, req, tag, f, name) && id in w.drafts
    requires ImportedThroughExperiment(w.drafts[id], name)
    ensures var d, t := w.drafts[id], w.topologies[name];
            !Safe(w, d, name) <==>
              NamesUnseenFile(w, d, name, t)
              || (!HoldsDraftDocument(w, d, name, t).owned && !FileOfDraft(w, d, name, t))
  {
    AcceptedOverwrite(w, apps, id, req, tag, f, name);
    OwnDocumentIff(w, w.drafts[id], name, w.topologies[name]);
  }

  // The reference resolves to a file that describes the stored spec.
  predicate DescribedByFile(w: World, name: string, t: Topology) {
    && t.reference.Some? && Resolve(w, name, t.reference.value).FromFile?
    && Resolve(w, name, t.reference.value).document.projection == Some(t.spec)
  }

  // The reference names a document of the draft, but resolves to a file with one that is not.
  predicate NamesUnseenFile(w: World, d: Draft, name: string, t: Topology) {
    && DescribedByFile(w, name, t) && NamesDocument(d, name, t.reference.value)
    && !IsOwnDocument(w, d, name, Resolve(w, name, t.reference.value).document)
  }

  // The reference names no document of the draft, but resolves to a file with one.
  predicate FileOfDraft(w: World, d: Draft, name: string, t: Topology) {
    DescribedByFile(w, name, t) && IsOwnDocument(w, d, name, Resolve(w, name, t.reference.value).document)
  }

  lemma AcceptedOverwrite(w: World, apps: Apps, id: string, req: Request, tag: nat, f: Faults, name: string)
    requires WellFormed(w) && Overwrites(w, apps, id, req, tag, f, name) && id in w.drafts
    ensures name == req.topology.name && TopologyUpdateRefusal(w, w.drafts[id], name, w.topologies[name]).None?
    ensures SourceFresh(w, w.drafts[id])
  {
    OnlyTargetWritten(w, apps, id, req, tag, f);
    assert PreflightTopology(w, w.drafts[id], req.topology) == Success(false);
  }

  // Where an update is accepted, which references hold a document of the draft.
  lemma OwnDocumentIff(w: World, d: Draft, name: string, t: Topology)
    requires name in w.topologies && t == w.topologies[name] && TopologyUpdateRefusal(w, d, name, t).None?
    ensures HoldsOwnDocument(w, d, name, t) <==>
            (HoldsDraftDocument(w, d, name, t).owned && !NamesUnseenFile(w, d, name, t)) || FileOfDraft(w, d, name, t)
    ensures NamesUnseenFile(w, d, name, t) ==> HoldsDraftDocument(w, d, name, t).owned
    ensures !HoldsDraftDocument(w, d, name, t).owned ==> UpdateMatchesSource(d, name, t)
    ensures HoldsDraftDocument(w, d, name, t).owned ==> HoldsDraftDocument(w, d, name, t).pristine
  {
    if t.reference.Some? {
      match Resolve(w, name, t.reference.value)
      case Unusable =>
      case FromStore(document, _) =>
        assert t.reference.value.StoredID(name) == Some(DocId(name, document));
        assert RefersTo(w, name, t.reference.value, document);
      case FromFile(document) =>
        assert RefersTo(w, name, t.reference.value, document);
    }
  }

  /** The exception for references is real: a draft opened from a document that is gone replaces a topology that was
      published from the file beside it, which the draft never saw. */
  lemma UnpinnedReferenceLosesUpdate(apps: Apps)
    ensures exists w: World, id, req, tag: nat, f, name ::
              WellFormed(w) && Overwrites(w, apps, id, req, tag, f, name) && id in w.drafts
              && !Safe(w, w.drafts[id], name) && !ImportedThroughExperiment(w.drafts[id], name)
  {
    var w, req := UNPINNED, Request(TopologyOnly, Target("t", Update), None, None);
    UnpinnedIsAccepted();
    var after := Publish(w, apps, "d", req, 1, NO_FAULTS).0;
    assert after.topologies["t"] == PublishedTopology(w, EDITOR, "t", Spec({}, 2));
    assert Overwrites(w, apps, "d", req, 1, NO_FAULTS, "t");
  }

  const GONE := Document(0, None, map[], [], Manual)
  const OTHER := Document(1, Some(Spec({}, 1)), map[], [], Manual)
  const EDITOR := Draft("d", 1, Opened(DocId("t", GONE)), None, None, "s",
                        Document(2, Some(Spec({}, 2)), map[], [], Manual))
  const NAMING := Topology(Spec({}, 1), Some(Reference(Some(DocId("t", GONE)), None, Some("file"))), None, 0)
  const UNPINNED := World(map["t" := NAMING], map[], map[], map[], map["d" := EDITOR], map["file" := OTHER], 1, [])

  lemma UnpinnedIsAccepted()
    ensures Preflight(UNPINNED, EDITOR, Request(TopologyOnly, Target("t", Update), None, None)) ==
            Success(Plan(Spec({}, 2), false, EMPTY_SCENARIO_PLAN, true))
  {
    assert HoldsDraftDocument(UNPINNED, EDITOR, "t", NAMING) == Held(true, true, true);
  }

  // ---------------------------------------------------------------------------------------------
  // Experiments
  // ---------------------------------------------------------------------------------------------

  // Of the experiments that the stage meets, it changes the target only, by a creation or by an update of a stopped
  // one. An update whose configure stage failed is put back, unless that fails too.
  predicate TargetChanged(met: map<string, Experiment>, after: map<string, Experiment>, req: Request, f: Faults) {
    var name := req.ExperimentName();
    && req.experiment.Some? && name in after && after == met[name := after[name]]
    && (name in met ==> req.experiment.value.action.Update? && !met[name].running)
    && (req.experiment.value.action.Update? && f.configure ==> f.restore)
  }

  predicate ExperimentsKeptBut(w: World, after: map<string, Experiment>, req: Request, plan: Plan, f: Faults) {
    || after == w.experiments
    || after == Met(w, f)
    || (!plan.experimentApplied && TargetChanged(Met(w, f), after, req, f))
  }

  // A publication changes no experiment but its target.
  lemma ExperimentsKept(w: World, apps: Apps, d: Draft, req: Request, plan: Plan, f: Faults)
    requires d.id in w.drafts
    requires plan.topologyApplied ==> req.topology.name in w.topologies
    ensures ExperimentsKeptBut(w, RunStages(w, apps, d, req, plan, f).0.experiments, req, plan, f)
  {
    if !f.document {
      var (w1, ok) := RunTopologyStage(StoreDocument(w, d, req.topology.name), d, req, plan, f);
      assert w1.experiments == w.experiments;
      if ok {
        LaterStagesKeep(w1, apps, d, req, plan, f);
      }
    }
  }

  lemma LaterStagesKeep(w: World, apps: Apps, d: Draft, req: Request, plan: Plan, f: Faults)
    requires d.id in w.drafts && req.topology.name in w.topologies
    ensures ExperimentsKeptBut(w, RunLaterStages(w, apps, d, req, plan, f).0.experiments, req, plan, f)
  {
    var (w1, ok) := RunScenarioStage(w, plan.scenarios.changed, f.scenarios);
    if ok {
      ExperimentStageKeeps(w1, apps, d, req, plan, f);
      LastStagesExperiments(w1, apps, d, req, plan, f);
    }
  }

  // The draft mark changes no experiment.
  lemma LastStagesExperiments(w: World, apps: Apps, d: Draft, req: Request, plan: Plan, f: Faults)
    requires d.id in w.drafts && req.topology.name in w.topologies
    ensures RunLastStages(w, apps, d, req, plan, f).0.experiments ==
            RunExperimentStage(w, apps, d, req, plan, f).0.experiments
  {
  }

  lemma ExperimentStageKeeps(w: World, apps: Apps, d: Draft, req: Request, plan: Plan, f: Faults)
    requires req.topology.name in w.topologies
    ensures ExperimentsKeptBut(w, RunExperimentStage(w, apps, d, req, plan, f).0.experiments, req, plan, f)
  {
    if req.experiment.Some? && !plan.experimentApplied && !f.lock {
      var before := w.(experiments := Met(w, f));
      if req.experiment.value.action.Create? {
        CreateKeeps(before, apps, d, req, plan, f);
      } else {
        UpdateKeeps(before, apps, d, req, plan, f);
      }
    }
  }

  lemma CreateKeeps(w: World, apps: Apps, d: Draft, req: Request, plan: Plan, f: Faults)
    requires req.topology.name in w.topologies && req.experiment.Some? && req.experiment.value.action.Create?
    ensures var after := CreateExperiment(w, apps, d, req, plan, f).0.experiments;
            after == w.experiments || TargetChanged(w.experiments, after, req, f)
  {
  }

  lemma UpdateKeeps(w: World, apps: Apps, d: Draft, req: Request, plan: Plan, f: Faults)
    requires req.experiment.Some? && req.experiment.value.action.Update?
    ensures var after := UpdateExperiment(w, apps, d, req, plan, f).0.experiments;
            after == w.experiments || TargetChanged(w.experiments, after, req, f)
  {
    var name := req.ExperimentName();
    if name in w.experiments {
      assert w.experiments[name := UpdatedExperiment(w.experiments[name], d, req, plan)][name := w.experiments[name]] ==
               w.experiments;
    }
  }

  // A publication that changes anything has passed preflight under the draft's current tag.
  lemma OnlyAcceptedWrites(w: World, apps: Apps, id: string, req: Request, tag: nat, f: Faults)
    requires WellFormed(w) && Publish(w, apps, id, req, tag, f).0 != w
    ensures id in w.drafts && Preflight(w, w.drafts[id], req).Success?
    ensures Publish(w, apps, id, req, tag, f) ==
              RunStages(w, apps, w.drafts[id], req, Preflight(w, w.drafts[id], req).value, f)
  {
  }

  // Whether both hold the same experiment of that name, or none.
  predicate AlikeAt(a: map<string, Experiment>, b: map<string, Experiment>, name: string) {
    (name in a <==> name in b) && (name in a ==> a[name] == b[name])
  }

  /**
   No lost update of an experiment, whatever fails and whoever else writes: after a publication every experiment is as
   it was before, or as the other writers left it, also when they deleted it. Or it is the target, and preflight found
   it absent, or stopped and as the draft published it or was imported from it. What other writers do between preflight
   and lock is not compared again (see ChangeBeforeLockIsOverwritten).
   */
  lemma NoLostExperimentUpdate(w: World, apps: Apps, id: string, req: Request, tag: nat, f: Faults, name: string)
    requires WellFormed(w)
    ensures var after := Publish(w, apps, id, req, tag, f).0.experiments;
            || AlikeAt(after, w.experiments, name)
            || (f.meanwhile.Some? && AlikeAt(after, f.meanwhile.value, name))
            || (id in w.drafts && name in after && MayWriteExperiment(w, w.drafts[id], req, name))
  {
    if Publish(w, apps, id, req, tag, f).0 != w {
      OnlyAcceptedWrites(w, apps, id, req, tag, f);
      StagesLoseNoExperiment(w, apps, w.drafts[id], req, Preflight(w, w.drafts[id], req).value, f, name);
    }
  }

  lemma StagesLoseNoExperiment(w: World, apps: Apps, d: Draft, req: Request, plan: Plan, f: Faults, name: string)
    requires d.id in w.drafts && Preflight(w, d, req) == Success(plan)
    ensures var after := RunStages(w, apps, d, req, plan, f).0.experiments;
            || AlikeAt(after, w.experiments, name)
            || (f.meanwhile.Some? && AlikeAt(after, f.meanwhile.value, name))
            || (name in after && MayWriteExperiment(w, d, req, name))
  {
    var after := RunStages(w, apps, d, req, plan, f).0.experiments;
    ExperimentsKept(w, apps, d, req, plan, f);
    if !plan.experimentApplied && TargetChanged(Met(w, f), after, req, f) {
      AcceptedExperiment(w, d, req);
    }
  }

  predicate MayWriteExperiment(w: World, d: Draft, req: Request, name: string) {
    && name == req.ExperimentName() && req.experiment.Some?
    && (if req.experiment.value.action.Create? then name !in w.experiments
        else name in w.experiments && MayUpdateExperiment(w, d, req, name))
  }

  predicate MayUpdateExperiment(w: World, d: Draft, req: Request, name: string)
    requires name in w.experiments
  {
    var e := w.experiments[name];
    && name == req.ExperimentName() && req.experiment.Some? && req.experiment.value.action.Update? && !e.running
    && (|| HoldsDraftPublication(d, name, e).1
        || (d.document.source.FromExperiment? && d.document.source.name == name
            && d.document.source.digest == ExperimentDigest(name, e.body)))
  }

  /** The lock comes after preflight, and the update is not compared again: whatever other writers make of the stopped
      experiment in between, an accepted update is rebuilt on it and overwrites its topology, aliases and scenario. If
      they deleted it, the stage fails and it stays deleted. */
  lemma ChangeBeforeLockIsOverwritten(w: World, apps: Apps, id: string, req: Request, tag: nat, now: map<string,
                                      Experiment>)
    requires WellFormed(w) && req.Valid() && id in w.drafts && tag == w.drafts[id].revision
    requires Preflight(w, w.drafts[id], req).Success? && !Preflight(w, w.drafts[id], req).value.experimentApplied
    requires req.experiment.Some? && req.experiment.value.action.Update?
    ensures var (after, outcome) := Publish(w, apps, id, req, tag, NO_FAULTS.(meanwhile := Some(now)));
            var plan := Preflight(w, w.drafts[id], req).value;
            Overwritten(apps, w.drafts[id], req, plan, now, after.experiments, outcome)
  {
    var d, plan, f := w.drafts[id], Preflight(w, w.drafts[id], req).value, NO_FAULTS.(meanwhile := Some(now));
    var stored := StoreDocument(w, d, req.topology.name);
    assert Publish(w, apps, id, req, tag, f) == RunStages(w, apps, d, req, plan, f);
    var written := RunTopologyStage(stored, d, req, plan, f).0;
    StageSucceeds(written, plan.scenarios.changed);
    var reached := RunScenarioStage(written, plan.scenarios.changed, {}).0;
    assert RunStages(w, apps, d, req, plan, f) == RunLastStages(reached, apps, d, req, plan, f);
    LastStagesOverwrite(reached, apps, d, req, plan, now);
  }

  // What becomes of the target that other writers left like this.
  predicate Overwritten(apps: Apps, d: Draft, req: Request, plan: Plan, now: map<string, Experiment>,
                        after: map<string, Experiment>, outcome: Outcome)
  {
    var name := req.ExperimentName();
    if name in now && !now[name].running then
      && name in after && after[name].topology == req.topology.name && after[name].scenario == req.ScenarioName()
      && after[name].body == apps.configure(name, UpdatedExperiment(now[name], d, req, plan).body)
    else
      after == now && outcome == Partial(ExperimentStage)
  }

  lemma LastStagesOverwrite(w: World, apps: Apps, d: Draft, req: Request, plan: Plan, now: map<string, Experiment>)
    requires req.topology.name in w.topologies && d.id in w.drafts && !plan.experimentApplied
    requires req.experiment.Some? && req.experiment.value.action.Update?
    ensures var (after, outcome) := RunLastStages(w, apps, d, req, plan, NO_FAULTS.(meanwhile := Some(now)));
            Overwritten(apps, d, req, plan, now, after.experiments, outcome)
  {
    var f := NO_FAULTS.(meanwhile := Some(now));
    assert RunExperimentStage(w, apps, d, req, plan, f) ==
           UpdateExperiment(w.(experiments := now), apps, d, req, plan, f);
    LastStagesExperiments(w, apps, d, req, plan, f);
  }

  lemma AcceptedExperiment(w: World, d: Draft, req: Request)
    requires Preflight(w, d, req).Success? && !Preflight(w, d, req).value.experimentApplied && req.experiment.Some?
    ensures MayWriteExperiment(w, d, req, req.ExperimentName())
  {
    var plan := Preflight(w, d, req).value;
    assert !plan.Resuming() && SourceFresh(w, d);
    assert PreflightExperiment(w, d, req, plan.spec) == Success(false);
  }

  // ---------------------------------------------------------------------------------------------
  // Two drafts of one topology
  // ---------------------------------------------------------------------------------------------

  // The draft was imported from the topology as it was then, and owns no published document of the other.
  predicate ImportedWhen(d: Draft, name: string, t: Topology) {
    d.token == Imported && d.document.source == FromTopology(name, ImportDigest(name, t))
  }

  // The second draft's import counts as fresh, and an update by it is not refused for that, exactly if the first draft
  // changed nothing that the import digest covers: the spec, or a legacy diagram.
  ghost predicate RefusedUnlessSame(before: World, now: World, first: Draft, second: Draft, name: string, req: Request)
    requires WellFormed(now) && name in before.topologies && name in now.topologies
  {
    var same := first.document.projection == Some(before.topologies[name].spec) && before.topologies[name].legacy.None?;
    && (SourceFresh(now, second) <==> same)
    && TopologyUpdateRefusal(now, second, name, now.topologies[name]).None?
    && (!same ==> forall apps, tag, f :: Publish(now, apps, second.id, req, tag, f).0.topologies == now.topologies)
  }

  // The first draft's document is in published under another author than the second draft.
  predicate ByOther(w: World, first: Draft, second: Draft, name: string) {
    DocId(name, first.document) in w.published ==> w.published[DocId(name, first.document)].draft != second.id
  }

  lemma SecondImportRefusedOnce(before: World, now: World, first: Draft, second: Draft, name: string, req: Request)
    requires WellFormed(before) && WellFormed(now)
    requires name in before.topologies && name in now.topologies
    requires ImportedWhen(first, name, before.topologies[name]) && ImportedWhen(second, name, before.topologies[name])
    requires first.document.projection.Some? && second.document != first.document
    requires now.topologies[name] == PublishedTopology(before, first, name, first.document.projection.value)
    requires second.id in now.drafts && now.drafts[second.id] == second
    requires !OwnsDocument(second, DocId(name, first.document)) && ByOther(now, first, second, name)
    requires req.topology == Target(name, Update)
    ensures RefusedUnlessSame(before, now, first, second, name, req)
  {
    var t := now.topologies[name];
    var held := HoldsDraftDocument(now, second, name, t);
    assert t.reference.value.StoredID(name) == Some(DocId(name, first.document));
    assert !held.owned && !held.pristine;
    assert !TopologyApplied(now, name, second.document);
    var same := first.document.projection == Some(before.topologies[name].spec) && before.topologies[name].legacy.None?;
    if !same {
      assert !SourceFresh(now, second);
      assert Preflight(now, second, req).Failure?;
    }
  }

  // What the stages leave of the topology, the document and the other drafts, once they complete.
  predicate Wrote(w: World, after: World, d: Draft, name: string, t: Topology) {
    && name in after.topologies && after.topologies[name] == t
    && StoredWith(w, after, d, DocId(name, d.document))
    && WellFormed(after) && OtherDraftsKept(w, after, d.id)
  }

  predicate StoredWith(w: World, after: World, d: Draft, id: DocId) {
    && id in after.published
    && (after.published[id].draft == d.id || (id in w.published && after.published[id] == w.published[id]))
  }

  predicate OtherDraftsKept(w: World, u: World, id: string) {
    forall other :: other in w.drafts && other != id ==> other in u.drafts && u.drafts[other] == w.drafts[other]
  }

  lemma StagesWrite(w: World, apps: Apps, d: Draft, req: Request, plan: Plan, f: Faults)
    requires WellFormed(w) && d.id in w.drafts && !plan.topologyApplied
             && RunStages(w, apps, d, req, plan, f).1 == Completed
    ensures var t := PublishedTopology(w, d, req.topology.name, plan.spec);
            Wrote(w, RunStages(w, apps, d, req, plan, f).0, d, req.topology.name, t)
  {
    TopologyStageWrites(w, d, req, plan, f);
    var w1 := RunTopologyStage(StoreDocument(w, d, req.topology.name), d, req, plan, f).0;
    LaterStagesKeepWritten(w, w1, apps, d, req, plan, f, PublishedTopology(w, d, req.topology.name, plan.spec));
  }

  lemma TopologyStageWrites(w: World, d: Draft, req: Request, plan: Plan, f: Faults)
    requires WellFormed(w) && d.id in w.drafts && !plan.topologyApplied
    ensures var (u, ok) := RunTopologyStage(StoreDocument(w, d, req.topology.name), d, req, plan, f);
            ok ==> Wrote(w, u, d, req.topology.name, PublishedTopology(w, d, req.topology.name, plan.spec))
  {
  }

  lemma LaterStagesKeepWritten(before: World, w: World, apps: Apps, d: Draft, req: Request, plan: Plan, f: Faults,
                               t: Topology)
    requires d.id in w.drafts && Wrote(before, w, d, req.topology.name, t)
    requires RunLaterStages(w, apps, d, req, plan, f).1 == Completed
    ensures Wrote(before, RunLaterStages(w, apps, d, req, plan, f).0, d, req.topology.name, t)
  {
    var w1 := RunScenarioStage(w, plan.scenarios.changed, f.scenarios).0;
    var w2 := RunExperimentStage(w1, apps, d, req, plan, f).0;
    assert Wrote(before, w2, d, req.topology.name, t);
    MarkKeepsWritten(before, w2, d, req, f, t);
    var marked := MarkPublished(SaveDraft(w2, d.id, f.save), d, req, f.draft).0;
    CleanupKeepsWritten(before, marked, d, req.topology.name, f.superseded, t);
  }

  lemma MarkKeepsWritten(before: World, w: World, d: Draft, req: Request, f: Faults, t: Topology)
    requires d.id in w.drafts && Wrote(before, w, d, req.topology.name, t)
    ensures Wrote(before, MarkPublished(SaveDraft(w, d.id, f.save), d, req, f.draft).0, d, req.topology.name, t)
  {
    assert Wrote(before, SaveDraft(w, d.id, f.save), d, req.topology.name, t);
  }

  lemma CleanupKeepsWritten(before: World, w: World, d: Draft, name: string, removed: set<DocId>, t: Topology)
    requires Wrote(before, w, d, name, t)
    ensures Wrote(before, DeleteSuperseded(w, DocId(name, d.document), removed), d, name, t)
  {
  }

  /** Of two drafts imported from one topology, once the first has published over it the second, with other content,
      is refused exactly when the first changed what the import digest covers: the spec, or a legacy diagram. */
  lemma SecondImportRefused(before: World, apps: Apps, first: Draft, second: Draft, name: string, done: Request,
                            tag: nat,
                            f: Faults, req: Request)
    requires WellFormed(before) && first.id in before.drafts && before.drafts[first.id] == first
    requires second.id in before.drafts && before.drafts[second.id] == second && second.id != first.id
    requires name in before.topologies && !TopologyApplied(before, name, first.document)
    requires ImportedWhen(first, name, before.topologies[name]) && ImportedWhen(second, name, before.topologies[name])
    requires second.document != first.document
    requires !OwnsDocument(second, DocId(name, first.document)) && ByOther(before, first, second, name)
    requires done.topology.name == name && Publish(before, apps, first.id, done, tag, f).1 == Completed
    requires req.topology == Target(name, Update)
    ensures var now := Publish(before, apps, first.id, done, tag, f).0;
            WellFormed(now) && name in now.topologies && RefusedUnlessSame(before, now, first, second, name, req)
  {
    var plan := Preflight(before, first, done).value;
    assert PreflightTopology(before, first, done.topology) == Success(plan.topologyApplied);
    assert first.document.projection == Some(plan.spec);
    StagesWrite(before, apps, first, done, plan, f);
    SecondImportRefusedOnce(before, RunStages(before, apps, first, done, plan, f).0, first, second, name, req);
  }

  // ---------------------------------------------------------------------------------------------
  // What a completed publication leaves
  // ---------------------------------------------------------------------------------------------

  /** After a completed publication the topology names the draft's document. Its spec is that document's projection
      exactly when the stage wrote it, or the topology that already named the document had not been edited since. */
  lemma CompletedNamesDocument(w: World, apps: Apps, id: string, req: Request, tag: nat, f: Faults)
    requires WellFormed(w)
    requires Publish(w, apps, id, req, tag, f).1 == Completed
    ensures id in w.drafts
    ensures var after, d, name := Publish(w, apps, id, req, tag, f).0, w.drafts[id], req.topology.name;
            && name in after.topologies
            && TopologyApplied(after, name, d.document)
            && (Some(after.topologies[name].spec) == d.document.projection <==>
                !TopologyApplied(w, name, d.document) || Some(w.topologies[name].spec) == d.document.projection)
  {
    var d, name, plan := w.drafts[id], req.topology.name, Preflight(w, w.drafts[id], req).value;
    assert PreflightTopology(w, d, req.topology) == Success(plan.topologyApplied);
    PublishedDocumentKept(w, apps, id, req, tag, f);
    StagesTopology(w, apps, d, req, plan, f);
  }

  lemma StagesTopology(w: World, apps: Apps, d: Draft, req: Request, plan: Plan, f: Faults)
    requires d.id in w.drafts && (plan.topologyApplied ==> req.topology.name in w.topologies)
    requires RunStages(w, apps, d, req, plan, f).1 == Completed
    ensures var name := req.topology.name;
            RunStages(w, apps, d, req, plan, f).0.topologies ==
            if plan.topologyApplied then w.topologies
            else w.topologies[name := PublishedTopology(w, d, name, plan.spec)]
  {
  }

  lemma PublishedDocumentKept(w: World, apps: Apps, id: string, req: Request, tag: nat, f: Faults)
    requires WellFormed(w)
    requires Publish(w, apps, id, req, tag, f).1 == Completed
    ensures id in w.drafts
            && DocId(req.topology.name, w.drafts[id].document) in Publish(w, apps, id, req, tag, f).0.published
  {
  }
}
