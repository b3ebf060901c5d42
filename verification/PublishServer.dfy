/**
 BuilderServer holds the fields of a World and changes them in place. Each of its methods is proved against the function
 of PublishModel for the same part, PublishDraft against Publish.
 */
module PublishServer {
  import opened Wrappers
  import opened Annotations
  import opened PublishModel

  class BuilderServer {
    var topologies: map<string, Topology>
    var scenarios: map<string, Scenario>
    var experiments: map<string, Experiment>
    var published: map<DocId, Published>
    var drafts: map<string, Draft>
    var files: map<string, Document>
    var revisions: nat
    var writes: seq<ConfigName>

    function State(): World
      reads this
    {
      World(topologies, scenarios, experiments, published, drafts, files, revisions, writes)
    }

    constructor (w: World)
      ensures State() == w
    {
      topologies, scenarios, experiments := w.topologies, w.scenarios, w.experiments;
      published, drafts, files := w.published, w.drafts, w.files;
      revisions, writes := w.revisions, w.writes;
    }

    /** PreflightScenarios as a loop over the document's list. It changes no field. */
    method PlanScenarioStage(d: Draft, req: Request) returns (r: Result<ScenarioPlan, Refusal>)
      ensures r == PreflightScenarios(State(), d, req)
    {
      var listed := d.document.scenarios;
      if req.ScenarioName() != "" && req.ScenarioName() !in listed {
        return Failure(ScenarioNotListed);
      }
      var changed: seq<ScenarioChange>, already: seq<string>, picked: Option<Scenario> := [], [], None;
      var i := 0;
      while i < |listed|
        invariant 0 <= i <= |listed|
        invariant PreflightScenarios(State(), d, req) ==
                  PlanScenarios(State(), listed[i..], req, ScenarioPlan(changed, already, picked))
      {
        var name := listed[i];
        if name !in scenarios {
          return Failure(ScenarioMissing);
        }
        var scenario := scenarios[name];
        if HasTopology(scenario.topologies, req.topology.name) {
          already := already + [name];
        } else {
          scenario := scenario.(topologies := AddTopology(scenario.topologies, req.topology.name));
          changed := changed + [ScenarioChange(name, scenario)];
        }
        if name == req.ScenarioName() {
          picked := Some(scenario);
        }
        assert listed[i..][1..] == listed[i + 1..];
        i := i + 1;
      }
      r := Success(ScenarioPlan(changed, already, picked));
    }

    /** RunScenarioStage as a loop. Once a name is in failing, the fields stay as the writes before it left them. */
    method WriteScenarios(changed: seq<ScenarioChange>, failing: set<string>) returns (ok: bool, written: seq<string>)
      modifies this`scenarios, this`writes
      ensures (State(), ok) == RunScenarioStage(old(State()), changed, failing)
      ensures ok <==> |written| == |changed|
      ensures |written| <= |changed| && forall j :: 0 <= j < |written| ==> written[j] == changed[j].name
      ensures !ok ==> changed[|written|].name in failing
    {
      written := [];
      var i := 0;
      while i < |changed|
        invariant 0 <= i <= |changed| && |written| == i
        invariant forall j :: 0 <= j < i ==> written[j] == changed[j].name
        invariant RunScenarioStage(old(State()), changed, failing) == RunScenarioStage(State(), changed[i..], failing)
      {
        var change := changed[i];
        if change.name in failing {
          return false, written;
        }
        scenarios, writes := scenarios[change.name := change.config], writes + [ScenarioConfig(change.name)];
        written := written + [change.name];
        assert changed[i..][1..] == changed[i + 1..];
        i := i + 1;
      }
      ok := true;
    }

    // The second write of UpdateExperiment. It does nothing if the experiment is gone or was started by now.
    method RestoreExperiment(name: string, previous: Experiment, fails: bool)
      modifies this`experiments, this`writes
      ensures State() == if fails || name !in old(experiments) || old(experiments)[name].running then old(State())
                         else WriteExperiment(old(State()), name, previous.(running := old(experiments)[name].running))
    {
      if !fails && name in experiments && !experiments[name].running {
        var restored := previous.(running := experiments[name].running);
        experiments, writes := experiments[name := restored], writes + [ExperimentConfig(name)];
      }
    }

    // RecordPublication on the fields.
    method RecordExperimentPublication(d: Draft, req: Request, name: string, fails: bool)
      requires name in experiments
      modifies this`experiments
      ensures State() == RecordPublication(old(State()), d, req, name, fails)
    {
      if !fails {
        var current := experiments[name];
        var record := Record(d.id, DocId(req.topology.name, d.document), ExperimentDigest(name, current.body));
        experiments := experiments[name := current.(record := Some(record))];
      }
    }

    /** RunExperimentStage on the fields. f.meanwhile takes effect first, so an update starts from what it left. */
    method WriteExperimentStage(apps: Apps, d: Draft, req: Request, plan: Plan, f: Faults) returns (ok: bool)
      requires req.topology.name in topologies
      modifies this`experiments, this`writes
      ensures (State(), ok) == RunExperimentStage(old(State()), apps, d, req, plan, f)
    {
      if req.experiment.None? || plan.experimentApplied {
        return true;
      }
      if f.lock {
        return false;
      }
      var name := req.ExperimentName();
      if f.meanwhile.Some? {
        experiments := f.meanwhile.value;
      }
      if req.experiment.value.action.Create? {
        if f.experiment || name in experiments {
          return false;
        }
        var body := ExperimentBody(topologies[req.topology.name].spec, d.document.aliases,
                                   ScenarioSpec(plan.scenarios.picked), map[], 0);
        var created := Experiment(req.topology.name, req.ScenarioName(), apps.configure(name, body), false, None);
        experiments, writes := experiments[name := created], writes + [ExperimentConfig(name)];
        RecordExperimentPublication(d, req, name, f.record);
        return true;
      }
      if name !in experiments || experiments[name].running || f.experiment {
        return false;
      }
      var current := experiments[name];
      var updated := UpdatedExperiment(current, d, req, plan);
      experiments, writes := experiments[name := updated], writes + [ExperimentConfig(name)];
      if f.configure {
        RestoreExperiment(name, current, f.restore);
        return false;
      }
      experiments := experiments[name := updated.(body := apps.configure(name, updated.body))];
      RecordExperimentPublication(d, req, name, f.record);
      ok := true;
    }

    /** Publish on the fields. */
    method PublishDraft(apps: Apps, id: string, req: Request, tag: nat, f: Faults) returns (outcome: Outcome)
      requires WellFormed(State())
      modifies this
      ensures (State(), outcome) == Publish(old(State()), apps, id, req, tag, f)
    {
      if !req.Valid() {
        return Refused(InvalidRequest);
      }
      if id !in drafts {
        return Refused(DraftMissing);
      }
      var meta := drafts[id];
      if tag != meta.revision {
        return if IsPublishRetry(meta, req, tag) then AlreadyComplete else Refused(TagMismatch);
      }
      var preflight := PlanPublication(meta, req);
      if preflight.Failure? {
        return Refused(preflight.error);
      }
      outcome := RunPlan(apps, meta, req, preflight.value, f);
    }

    method PlanPublication(d: Draft, req: Request) returns (r: Result<Plan, Refusal>)
      ensures r == Preflight(State(), d, req)
    {
      if d.document.projection.None? {
        return Failure(NotProjectable);
      }
      var topology := PreflightTopology(State(), d, req.topology);
      if topology.Failure? {
        return Failure(topology.error);
      }
      var scenarioPlan := PlanScenarioStage(d, req);
      if scenarioPlan.Failure? {
        return Failure(scenarioPlan.error);
      }
      var applied := true;
      if req.experiment.Some? {
        var experiment := PreflightExperiment(State(), d, req, d.document.projection.value);
        if experiment.Failure? {
          return Failure(experiment.error);
        }
        applied := experiment.value;
      }
      var plan := Plan(d.document.projection.value, topology.value, scenarioPlan.value, applied);
      if !plan.Resuming() && !SourceFresh(State(), d) {
        return Failure(SourceChanged);
      }
      r := Success(plan);
    }

    // RunStages on the fields.
    method RunPlan(apps: Apps, d: Draft, req: Request, plan: Plan, f: Faults) returns (outcome: Outcome)
      requires d.id in drafts
      requires plan.topologyApplied ==> req.topology.name in topologies
      modifies this
      ensures (State(), outcome) == RunStages(old(State()), apps, d, req, plan, f)
    {
      if f.document {
        return Refused(DocumentNotStored);
      }
      var document := DocId(req.topology.name, d.document);
      if document !in published || !published[document].intact {
        published := published[document := Published(d.id, true)];
      }
      if !plan.topologyApplied {
        if f.topology {
          return Partial(TopologyStage);
        }
        var topology := PublishedTopology(State(), d, req.topology.name, plan.spec);
        topologies, writes := topologies[req.topology.name := topology], writes + [TopologyConfig(req.topology.name)];
      }
      ghost var beforeScenarios := State();
      var scenariosWritten, _ := WriteScenarios(plan.scenarios.changed, f.scenarios);
      assert RunStages(old(State()), apps, d, req, plan, f) == RunLaterStages(beforeScenarios, apps, d, req, plan, f);
      if !scenariosWritten {
        return Partial(ScenarioStage);
      }
      ghost var beforeExperiment := State();
      var experimentWritten := WriteExperimentStage(apps, d, req, plan, f);
      assert RunLaterStages(beforeScenarios, apps, d, req, plan, f) ==
               RunLastStages(beforeExperiment, apps, d, req, plan, f);
      if !experimentWritten {
        return Partial(ExperimentStage);
      }
      outcome := MarkDraft(d, req, f);
    }

    // RunDraftStage on the fields.
    method MarkDraft(d: Draft, req: Request, f: Faults) returns (outcome: Outcome)
      requires d.id in drafts
      modifies this`drafts, this`revisions, this`published
      ensures (State(), outcome) == RunDraftStage(old(State()), d, req, f)
    {
      if f.save.Some? {
        var saved := drafts[d.id].(snapshot := f.save.value.snapshot, document := f.save.value.document);
        revisions := revisions + 1;
        drafts := drafts[saved.id := saved.(revision := revisions)];
      }
      assert State() == SaveDraft(old(State()), d.id, f.save);
      var now := drafts[d.id];
      match DecideMark(now, d, req, f.draft) {
        case Conflict => return Partial(DraftStage);
        case Kept =>
        case Recorded(publication) =>
          revisions := revisions + 1;
          drafts := drafts[now.id := now.(publication := Some(publication), revision := revisions)];
      }
      assert State() == MarkPublished(SaveDraft(old(State()), d.id, f.save), d, req, f.draft).0;
      var keep := DocId(req.topology.name, d.document);
      published := map x | x in published && !(x in f.superseded && x.target == keep.target && x != keep) ::
        published[x];
      outcome := Completed;
    }
  }
}
