/**
 The server's state as one value, World, and a publication request as a function on it, Publish, with a flag for every
 call that may fail.

 Hashing is modelled as the identity: where the server keeps a digest, World keeps what was digested, and a DocId keeps
 both parts that the server hashes into an ID.
 */
module PublishModel {
  import opened Wrappers
  import opened Annotations

  // Of a topology spec the model looks at the hostnames alone. body stands for all else in it.
  datatype Spec = Spec(hostnames: set<string>, body: int)

  datatype ExperimentBody = ExperimentBody(
    topology: Spec, aliases: map<string, int>, scenario: Option<int>, pins: map<string, string>, extra: int)

  // What an import takes note of in its source. Since legacy is part of it, two topologies of one spec can differ here.
  datatype SourceDigest =
    | TopologyDigest(name: string, spec: Spec, legacy: Option<string>)
    | ExperimentDigest(name: string, body: ExperimentBody)

  datatype Source =
    | Manual
    | FromTopology(name: string, digest: SourceDigest)
    | FromExperiment(name: string, topology: string, digest: SourceDigest)

  // projection is the spec that publishing writes, and None if no spec can be made of the document.
  datatype Document = Document(
    layout: int, projection: Option<Spec>, aliases: map<string, int>, scenarios: seq<string>, source: Source)

  datatype DocId = DocId(target: string, content: Document)

  // How a topology says which document it shows: by any of an ID, a digest and the path of a file.
  datatype Reference = Reference(id: Option<DocId>, digest: Option<Document>, path: Option<string>) {
    function StoredID(topology: string): Option<DocId> {
      if id.Some? then id
      else if digest.Some? then Some(DocId(topology, digest.value))
      else None
    }

    // Such a reference is what PublishedTopology writes for the content, except for the path.
    predicate Publishes(topology: string, content: Document) {
      StoredID(topology) == Some(DocId(topology, content)) && (digest.None? || digest == Some(content))
    }
  }

  // No stage looks into metadata or writes it. It stands for the labels and all further annotations.
  datatype Topology = Topology(spec: Spec, reference: Option<Reference>, legacy: Option<string>, metadata: int)

  datatype Scenario = Scenario(topologies: string, spec: int)

  // What RecordPublication leaves on an experiment. The digest tells later whether the body was edited.
  datatype Record = Record(draft: string, document: DocId, digest: SourceDigest)

  datatype Experiment = Experiment(
    topology: string, scenario: string, body: ExperimentBody, running: bool, record: Option<Record>)

  // The entry of a DocId: its author, and whether the content can still be read.
  datatype Published = Published(draft: string, intact: bool)

  // How the first snapshot of a draft came about.
  datatype Token = Opened(id: DocId) | OpenedFile(topology: string, digest: Document) | Uploaded | Imported

  datatype Publication = Publication(
    mode: Mode, topology: string, action: Action, experiment: string, scenario: string,
    snapshot: string, digest: Document, revision: nat, document: DocId)

  datatype Draft = Draft(
    id: string, revision: nat, token: Token, forked: Option<DocId>, publication: Option<Publication>,
    snapshot: string, document: Document)

  datatype Mode = TopologyOnly | TopologyAndExperiment
  datatype Action = Create | Update
  datatype Target = Target(name: string, action: Action)

  datatype Request = Request(mode: Mode, topology: Target, scenario: Option<string>, experiment: Option<Target>) {
    function ScenarioName(): string {
      if scenario.Some? then scenario.value else ""
    }

    function ExperimentName(): string {
      if experiment.Some? then experiment.value.name else ""
    }

    predicate Valid() {
      && ValidName(topology.name)
      && match mode {
        case TopologyOnly => experiment.None? && scenario.None?
        case TopologyAndExperiment =>
          && experiment.Some? && ValidName(experiment.value.name)
          && (scenario.Some? ==> ValidName(scenario.value))
      }
    }
  }

  datatype ConfigName = TopologyConfig(name: string) | ScenarioConfig(name: string) | ExperimentConfig(name: string)

  // writes is a log that no function reads: every write of a config by a stage appends its name.
  datatype World = World(
    topologies: map<string, Topology>,
    scenarios: map<string, Scenario>,
    experiments: map<string, Experiment>,
    published: map<DocId, Published>,
    drafts: map<string, Draft>,
    files: map<string, Document>,
    revisions: nat,
    writes: seq<ConfigName>)

  // The apps, as a function of the experiment's name and body. The lemmas hold for any such function.
  datatype Apps = Apps(configure: (string, ExperimentBody) -> ExperimentBody)

  // The client's autosave, which may hit the server between two stages.
  datatype Save = Save(snapshot: string, document: Document)

  /** Which of the fallible calls of one publication fail, and what other writers do meanwhile.
      meanwhile is what other writers make of all experiments, with any changes and deletions, between preflight and
      the experiment lock. */
  datatype Faults = Faults(
    document: bool, topology: bool, scenarios: set<string>,
    lock: bool, meanwhile: Option<map<string, Experiment>>,
    experiment: bool, configure: bool, restore: bool, record: bool,
    save: Option<Save>, draft: bool, superseded: set<DocId>)

  const NO_FAULTS := Faults(false, false, {}, false, None, false, false, false, false, None, false, {})

  datatype Refusal =
    | InvalidRequest | DraftMissing | TagMismatch | NotProjectable | DocumentNotStored
    | TopologyExists | TopologyMissing | TopologyFileMismatch | TopologyChanged | TopologyFileChanged
    | TopologyNotSource
    | ScenarioNotListed | ScenarioMissing
    | ExperimentExists | ExperimentMissing | ExperimentChanged | ExperimentNotSource | ExperimentRunning
    | SourceChanged

  datatype Stage = TopologyStage | ScenarioStage | ExperimentStage | DraftStage

  datatype Outcome = Refused(why: Refusal) | Partial(stage: Stage) | Completed | AlreadyComplete

  // ---------------------------------------------------------------------------------------------
  // Ownership
  // ---------------------------------------------------------------------------------------------

  // Three ways for a draft to own an entry of published, whatever its current content is.
  predicate OwnsDocument(d: Draft, id: DocId) {
    || d.token == Opened(id)
    || (d.publication.Some? && d.publication.value.document == id)
    || d.forked == Some(id)
  }

  predicate NamesDocument(d: Draft, topology: string, r: Reference) {
    var id := r.StoredID(topology);
    id.Some? && (id.value == DocId(topology, d.document) || OwnsDocument(d, id.value))
  }

  datatype Resolved = Unusable | FromStore(document: Document, draft: string) | FromFile(document: Document)

  // published is looked up first, and files only if it has no fitting entry. A digest has to fit in either place.
  function Resolve(w: World, topology: string, r: Reference): Resolved {
    var id := r.StoredID(topology);
    if id.Some? && id.value in w.published && id.value.target == topology
       && (r.digest.None? || r.digest == Some(id.value.content)) then
      if w.published[id.value].intact then FromStore(id.value.content, w.published[id.value].draft) else Unusable
    else if r.path.Some? && r.path.value in w.files
            && (r.digest.None? || r.digest == Some(w.files[r.path.value])) then
      FromFile(w.files[r.path.value])
    else
      Unusable
  }

  datatype Held = Held(owned: bool, pristine: bool, file: bool)

  // owned: some document behind the reference counts as the draft's. pristine: t.spec was not edited under it. file:
  // only a file had it.
  function HoldsDraftDocument(w: World, d: Draft, name: string, t: Topology): Held {
    if t.reference.None? then
      Held(false, false, false)
    else
      var named := NamesDocument(d, name, t.reference.value);
      match Resolve(w, name, t.reference.value)
      case Unusable => Held(named, false, false)
      case FromStore(document, author) =>
        if named || document == d.document || author == d.id
        then Held(true, document.projection == Some(t.spec), false)
        else Held(false, false, false)
      case FromFile(document) =>
        if named || document == d.document || d.token == OpenedFile(name, document)
        then Held(true, document.projection == Some(t.spec), true)
        else Held(false, false, false)
  }

  // The same two answers for an experiment, owned and pristine, read off its record.
  function HoldsDraftPublication(d: Draft, name: string, e: Experiment): (bool, bool) {
    if e.record.None? then
      (false, false)
    else
      var r := e.record.value;
      var owned := r.draft == d.id || OwnsDocument(d, r.document);
      (owned, owned && r.digest == ExperimentDigest(name, e.body))
  }

  // ---------------------------------------------------------------------------------------------
  // Preflight
  // ---------------------------------------------------------------------------------------------

  // The stage for the topology has nothing left to do. t.spec is not compared, and a reference with a path counts only
  // once published has the document.
  predicate TopologyApplied(w: World, name: string, content: Document) {
    && name in w.topologies
    && w.topologies[name].reference.Some?
    && var r := w.topologies[name].reference.value;
    && r.Publishes(name, content)
    && (r.path.Some? ==> DocId(name, content) in w.published)
  }

  function RequireAction(t: Target, exists_: bool, applied: bool, taken: Refusal, absent: Refusal): Option<Refusal> {
    if applied then None
    else if t.action.Create? && exists_ then Some(taken)
    else if t.action.Update? && !exists_ then Some(absent)
    else None
  }

  // The import rule. Through an experiment it applies only where there is no legacy diagram to lose.
  predicate UpdateMatchesSource(d: Draft, name: string, t: Topology) {
    && d.token != Uploaded
    && match d.document.source {
      case Manual => false
      case FromTopology(source, _) => source == name
      case FromExperiment(_, topology, _) => topology == name && t.legacy.None?
    }
  }

  function TopologyUpdateRefusal(w: World, d: Draft, name: string, t: Topology): Option<Refusal> {
    var held := HoldsDraftDocument(w, d, name, t);
    if held.owned && held.pristine then None
    else if held.owned && held.file then Some(TopologyFileMismatch)
    else if held.owned then Some(TopologyChanged)
    else if d.token.OpenedFile? && d.token.topology == name then Some(TopologyFileChanged)
    else if UpdateMatchesSource(d, name, t) then None
    else Some(TopologyNotSource)
  }

  function PreflightTopology(w: World, d: Draft, t: Target): Result<bool, Refusal> {
    var applied := TopologyApplied(w, t.name, d.document);
    var refusal := RequireAction(t, t.name in w.topologies, applied, TopologyExists, TopologyMissing);
    if refusal.Some? then
      Failure(refusal.value)
    else if t.action.Update? && !applied && TopologyUpdateRefusal(w, d, t.name, w.topologies[t.name]).Some? then
      Failure(TopologyUpdateRefusal(w, d, t.name, w.topologies[t.name]).value)
    else
      Success(applied)
  }

  datatype ScenarioChange = ScenarioChange(name: string, config: Scenario)

  // changed is what is still to write, already the names that need no write. picked is the config that the experiment
  // is going to refer to.
  datatype ScenarioPlan = ScenarioPlan(changed: seq<ScenarioChange>, already: seq<string>, picked: Option<Scenario>)

  const EMPTY_SCENARIO_PLAN := ScenarioPlan([], [], None)

  function PlanScenario(s: Scenario, name: string, req: Request, plan: ScenarioPlan): ScenarioPlan {
    var named := HasTopology(s.topologies, req.topology.name);
    var config := if named then s else s.(topologies := AddTopology(s.topologies, req.topology.name));
    ScenarioPlan(
      if named then plan.changed else plan.changed + [ScenarioChange(name, config)],
      if named then plan.already + [name] else plan.already,
      if name == req.ScenarioName() then Some(config) else plan.picked)
  }

  // Plans each of the listed scenarios in order, onto the plan of those before them.
  function PlanScenarios(w: World, listed: seq<string>, req: Request, plan: ScenarioPlan)
    : Result<ScenarioPlan, Refusal>
  {
    if listed == [] then Success(plan)
    else if listed[0] !in w.scenarios then Failure(ScenarioMissing)
    else PlanScenarios(w, listed[1..], req, PlanScenario(w.scenarios[listed[0]], listed[0], req, plan))
  }

  function PreflightScenarios(w: World, d: Draft, req: Request): Result<ScenarioPlan, Refusal> {
    if req.ScenarioName() != "" && req.ScenarioName() !in d.document.scenarios then Failure(ScenarioNotListed)
    else PlanScenarios(w, d.document.scenarios, req, EMPTY_SCENARIO_PLAN)
  }

  predicate ExperimentApplied(w: World, d: Draft, req: Request, spec: Spec) {
    && req.ExperimentName() in w.experiments
    && var e := w.experiments[req.ExperimentName()];
    && e.topology == req.topology.name
    && e.scenario == req.ScenarioName()
    && e.body.topology == spec
    && e.body.aliases == d.document.aliases
  }

  predicate ExperimentMatchesSource(d: Draft, name: string) {
    d.token != Uploaded && d.document.source.FromExperiment? && d.document.source.name == name
  }

  function ExperimentUpdateRefusal(d: Draft, name: string, e: Experiment): Option<Refusal> {
    var (owned, pristine) := HoldsDraftPublication(d, name, e);
    if owned && pristine then None
    else if ExperimentMatchesSource(d, name) then None
    else if owned then Some(ExperimentChanged)
    else Some(ExperimentNotSource)
  }

  function PreflightExperiment(w: World, d: Draft, req: Request, spec: Spec): Result<bool, Refusal>
    requires req.experiment.Some?
  {
    var t := req.experiment.value;
    var applied := ExperimentApplied(w, d, req, spec);
    var refusal := RequireAction(t, t.name in w.experiments, applied, ExperimentExists, ExperimentMissing);
    if refusal.Some? then Failure(refusal.value)
    else if applied then Success(true)
    else if t.action.Create? then Success(false)
    else
      var e := w.experiments[t.name];
      var update := ExperimentUpdateRefusal(d, t.name, e);
      if update.Some? then Failure(update.value)
      else if e.running then Failure(ExperimentRunning)
      else Success(false)
  }

  function ImportDigest(name: string, t: Topology): SourceDigest {
    TopologyDigest(name, t.spec, t.legacy)
  }

  // The import's digest still fits, or what replaced it is pristine and the draft's own. An absent source passes too.
  predicate SourceFresh(w: World, d: Draft) {
    d.token == Uploaded ||
    match d.document.source {
      case Manual => true
      case FromTopology(name, digest) =>
        || name !in w.topologies
        || ImportDigest(name, w.topologies[name]) == digest
        || HoldsDraftDocument(w, d, name, w.topologies[name]).pristine
      case FromExperiment(name, _, digest) =>
        || name !in w.experiments
        || ExperimentDigest(name, w.experiments[name].body) == digest
        || HoldsDraftPublication(d, name, w.experiments[name]).1
    }
  }

  datatype Plan = Plan(spec: Spec, topologyApplied: bool, scenarios: ScenarioPlan, experimentApplied: bool) {
    // Then all that is left is the draft mark, and Preflight does not ask for SourceFresh.
    predicate Resuming() {
      topologyApplied && scenarios.changed == [] && experimentApplied
    }
  }

  function Preflight(w: World, d: Draft, req: Request): Result<Plan, Refusal> {
    if d.document.projection.None? then
      Failure(NotProjectable)
    else
      var spec := d.document.projection.value;
      var topology :- PreflightTopology(w, d, req.topology);
      var scenarios :- PreflightScenarios(w, d, req);
      var experiment :- if req.experiment.Some? then PreflightExperiment(w, d, req, spec) else Success(true);
      var plan := Plan(spec, topology, scenarios, experiment);
      if plan.Resuming() || SourceFresh(w, d) then Success(plan) else Failure(SourceChanged)
  }

  // ---------------------------------------------------------------------------------------------
  // Stages
  // ---------------------------------------------------------------------------------------------

  // Leaves an intact entry alone, its author included. Any other entry becomes one by d.
  function StoreDocument(w: World, d: Draft, topology: string): World {
    var id := DocId(topology, d.document);
    if id in w.published && w.published[id].intact then w
    else w.(published := w.published[id := Published(d.id, true)])
  }

  // What the topology stage writes. Of a topology that is replaced, path and metadata survive, and legacy does not.
  function PublishedTopology(w: World, d: Draft, name: string, spec: Spec): Topology {
    var path := if name in w.topologies && w.topologies[name].reference.Some?
                then w.topologies[name].reference.value.path else None;
    Topology(
      spec,
      Some(Reference(Some(DocId(name, d.document)), Some(d.document), path)),
      None,
      if name in w.topologies then w.topologies[name].metadata else 0)
  }

  function WriteTopology(w: World, name: string, t: Topology): World {
    w.(topologies := w.topologies[name := t], writes := w.writes + [TopologyConfig(name)])
  }

  function RunTopologyStage(w: World, d: Draft, req: Request, plan: Plan, f: Faults): (World, bool) {
    if plan.topologyApplied then (w, true)
    else if f.topology then (w, false)
    else (WriteTopology(w, req.topology.name, PublishedTopology(w, d, req.topology.name, plan.spec)), true)
  }

  function WriteScenario(w: World, change: ScenarioChange): World {
    w.(scenarios := w.scenarios[change.name := change.config], writes := w.writes + [ScenarioConfig(change.name)])
  }

  // Writes the planned scenarios in order, up to the first write that fails.
  function RunScenarioStage(w: World, changed: seq<ScenarioChange>, failing: set<string>): (r: (World, bool))
    ensures r.0 == w.(scenarios := r.0.scenarios, writes := r.0.writes)
    decreases |changed|
  {
    if changed == [] then (w, true)
    else if changed[0].name in failing then (w, false)
    else RunScenarioStage(WriteScenario(w, changed[0]), changed[1..], failing)
  }

  lemma {:induction false} StageSucceeds(w: World, changed: seq<ScenarioChange>)
    ensures RunScenarioStage(w, changed, {}).1
    decreases |changed|
  {
    if changed != [] {
      StageSucceeds(WriteScenario(w, changed[0]), changed[1..]);
    }
  }

  function WriteExperiment(w: World, name: string, e: Experiment): World {
    w.(experiments := w.experiments[name := e], writes := w.writes + [ExperimentConfig(name)])
  }

  function SetExperiment(w: World, name: string, e: Experiment): World {
    w.(experiments := w.experiments[name := e])
  }

  // The experiments as the experiment stage meets them.
  function Met(w: World, f: Faults): map<string, Experiment> {
    if f.meanwhile.Some? then f.meanwhile.value else w.experiments
  }

  function ScenarioSpec(picked: Option<Scenario>): Option<int> {
    if picked.Some? then Some(picked.value.spec) else None
  }

  // Keeps running, record and extra, and those pins whose node plan.spec still has.
  function UpdatedExperiment(e: Experiment, d: Draft, req: Request, plan: Plan): Experiment {
    e.(topology := req.topology.name,
       scenario := req.ScenarioName(),
       body := e.body.(
         topology := plan.spec,
         aliases := d.document.aliases,
         scenario := ScenarioSpec(plan.scenarios.picked),
         pins := map n | n in e.body.pins && n in plan.spec.hostnames :: e.body.pins[n]))
  }

  // Digests the body that Configure left. When it fails, the stage succeeds all the same, without a record.
  function RecordPublication(w: World, d: Draft, req: Request, name: string, fails: bool): World
    requires name in w.experiments
  {
    if fails then w
    else
      var e := w.experiments[name];
      SetExperiment(w, name, e.(record := Some(
        Record(d.id, DocId(req.topology.name, d.document), ExperimentDigest(name, e.body)))))
  }

  function Configure(w: World, apps: Apps, name: string): World
    requires name in w.experiments
  {
    var e := w.experiments[name];
    SetExperiment(w, name, e.(body := apps.configure(name, e.body)))
  }

  function CreateExperiment(w: World, apps: Apps, d: Draft, req: Request, plan: Plan, f: Faults): (r: (World, bool))
    requires req.topology.name in w.topologies
    ensures r.0 == w.(experiments := r.0.experiments, writes := r.0.writes)
  {
    var name := req.ExperimentName();
    if f.experiment || name in w.experiments then (w, false)
    else
      var body := ExperimentBody(w.topologies[req.topology.name].spec, d.document.aliases,
                                 ScenarioSpec(plan.scenarios.picked), map[], 0);
      var e := Experiment(req.topology.name, req.ScenarioName(), apps.configure(name, body), false, None);
      (RecordPublication(WriteExperiment(w, name, e), d, req, name, f.record), true)
  }

  // If f.configure, it writes twice and ends with e again. If f.restore too, it writes once and keeps updated, with no
  // configure stage behind it.
  function UpdateExperiment(w: World, apps: Apps, d: Draft, req: Request, plan: Plan, f: Faults): (r: (World, bool))
    ensures r.0 == w.(experiments := r.0.experiments, writes := r.0.writes)
  {
    var name := req.ExperimentName();
    if name !in w.experiments || w.experiments[name].running || f.experiment then (w, false)
    else
      var e := w.experiments[name];
      var updated := WriteExperiment(w, name, UpdatedExperiment(e, d, req, plan));
      if f.configure then (if f.restore then updated else WriteExperiment(updated, name, e), false)
      else (RecordPublication(Configure(updated, apps, name), d, req, name, f.record), true)
  }

  function RunExperimentStage(w: World, apps: Apps, d: Draft, req: Request, plan: Plan, f: Faults): (r: (World, bool))
    requires req.topology.name in w.topologies
    ensures r.0 == w.(experiments := r.0.experiments, writes := r.0.writes)
  {
    if req.experiment.None? || plan.experimentApplied then (w, true)
    else if f.lock then (w, false)
    else
      var before := w.(experiments := Met(w, f));
      if req.experiment.value.action.Create?
      then CreateExperiment(before, apps, d, req, plan, f)
      else UpdateExperiment(before, apps, d, req, plan, f)
  }

  function SaveDraft(w: World, id: string, save: Option<Save>): World
    requires id in w.drafts
  {
    if save.None? then w
    else SetDraft(w, w.drafts[id].(snapshot := save.value.snapshot, document := save.value.document))
  }

  predicate SamePublication(p: Publication, d: Draft, req: Request) {
    && p.mode == req.mode
    && p.topology == req.topology.name
    && p.action == req.topology.action
    && p.experiment == req.ExperimentName()
    && p.scenario == req.ScenarioName()
    && p.snapshot == d.snapshot
    && p.digest == d.document
  }

  // A tag from before the last recorded publication, and a request that does not differ from it in any field it
  // records.
  predicate IsPublishRetry(d: Draft, req: Request, tag: nat) {
    && d.publication.Some?
    && tag == d.publication.value.revision
    && SamePublication(d.publication.value, d, req)
  }

  datatype MarkResult = Kept | Conflict | Recorded(publication: Publication)

  // d is the draft that preflight read, now the one in the store. They differ if a save came between.
  function DecideMark(now: Draft, d: Draft, req: Request, fails: bool): MarkResult {
    var id := DocId(req.topology.name, d.document);
    if && now.publication.Some? && now.snapshot == d.snapshot
       && SamePublication(now.publication.value, now, req)
       && now.publication.value.document == id
       && (d.revision == 0 || d.revision == now.revision || d.revision == now.publication.value.revision) then
      Kept
    else if fails || (d.revision != 0 && d.revision != now.revision) || now.snapshot != d.snapshot then
      Conflict
    else
      Recorded(Publication(req.mode, req.topology.name, req.topology.action, req.ExperimentName(), req.ScenarioName(),
                           now.snapshot, now.document, now.revision, id))
  }

  function SetDraft(w: World, d: Draft): World {
    w.(drafts := w.drafts[d.id := d.(revision := w.revisions + 1)], revisions := w.revisions + 1)
  }

  // The draft mark. Only the case Recorded draws a new revision.
  function MarkPublished(w: World, d: Draft, req: Request, fails: bool): (World, bool)
    requires d.id in w.drafts
  {
    var now := w.drafts[d.id];
    match DecideMark(now, d, req, fails)
    case Kept => (w, true)
    case Conflict => (w, false)
    case Recorded(p) => (SetDraft(w, now.(publication := Some(p))), true)
  }

  // Takes from published what is in removed, but keep and the entries of other targets stay.
  function DeleteSuperseded(w: World, keep: DocId, removed: set<DocId>): World {
    w.(published := map id | id in w.published && !(id in removed && id.target == keep.target && id != keep)
                    :: w.published[id])
  }

  function RunDraftStage(w: World, d: Draft, req: Request, f: Faults): (r: (World, Outcome))
    requires d.id in w.drafts
    ensures r.0 == w.(drafts := r.0.drafts, revisions := r.0.revisions, published := r.0.published)
    ensures DocId(req.topology.name, d.document) in w.published ==>
              DocId(req.topology.name, d.document) in r.0.published
  {
    var (marked, ok) := MarkPublished(SaveDraft(w, d.id, f.save), d, req, f.draft);
    if ok
    then (DeleteSuperseded(marked, DocId(req.topology.name, d.document), f.superseded), Completed)
    else (marked, Partial(DraftStage))
  }

  predicate WellFormed(w: World) {
    forall id :: id in w.drafts ==> w.drafts[id].id == id
  }

  // From the experiment stage on.
  function RunLastStages(w: World, apps: Apps, d: Draft, req: Request, plan: Plan, f: Faults): (r: (World, Outcome))
    requires d.id in w.drafts && req.topology.name in w.topologies
    ensures r.0.topologies == w.topologies && r.0.scenarios == w.scenarios && r.0.files == w.files
    ensures DocId(req.topology.name, d.document) in w.published ==>
              DocId(req.topology.name, d.document) in r.0.published
  {
    var (w1, ok) := RunExperimentStage(w, apps, d, req, plan, f);
    if !ok then (w1, Partial(ExperimentStage)) else RunDraftStage(w1, d, req, f)
  }

  // From the scenario stage on.
  function RunLaterStages(w: World, apps: Apps, d: Draft, req: Request, plan: Plan, f: Faults): (r: (World, Outcome))
    requires d.id in w.drafts && req.topology.name in w.topologies
    ensures r.0.topologies == w.topologies && r.0.files == w.files
    ensures DocId(req.topology.name, d.document) in w.published ==>
              DocId(req.topology.name, d.document) in r.0.published
  {
    var (w1, ok) := RunScenarioStage(w, plan.scenarios.changed, f.scenarios);
    if !ok then (w1, Partial(ScenarioStage)) else RunLastStages(w1, apps, d, req, plan, f)
  }

  function RunStages(w: World, apps: Apps, d: Draft, req: Request, plan: Plan, f: Faults): (r: (World, Outcome))
    requires d.id in w.drafts
    requires plan.topologyApplied ==> req.topology.name in w.topologies
    ensures r.0.topologies == w.topologies
            || (!plan.topologyApplied && r.0.topologies ==
                 w.topologies[req.topology.name := PublishedTopology(w, d, req.topology.name, plan.spec)])
  {
    if f.document then (w, Refused(DocumentNotStored))
    else
      var (w1, ok) := RunTopologyStage(StoreDocument(w, d, req.topology.name), d, req, plan, f);
      if !ok then (w1, Partial(TopologyStage)) else RunLaterStages(w1, apps, d, req, plan, f)
  }

  /** One publication request: draft id, request, and the entity tag the client sent. */
  function Publish(w: World, apps: Apps, id: string, req: Request, tag: nat, f: Faults): (World, Outcome)
    requires WellFormed(w)
  {
    if !req.Valid() then (w, Refused(InvalidRequest))
    else if id !in w.drafts then (w, Refused(DraftMissing))
    else
      var d := w.drafts[id];
      if tag != d.revision then
        (w, if IsPublishRetry(d, req, tag) then AlreadyComplete else Refused(TagMismatch))
      else
        match Preflight(w, d, req)
        case Failure(why) => (w, Refused(why))
        case Success(plan) => RunStages(w, apps, d, req, plan, f)
  }
}
