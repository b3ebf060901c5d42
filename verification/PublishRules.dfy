/**
 The rules by which a publication is accepted, said once more in the fields of drafts, references and records, and what
 they protect: a config that the rules do not give to the draft stays as it is.
 */
module PublishRules {
  import opened Wrappers
  import opened Annotations
  import opened PublishModel
  import opened PublishSafety

  // The draft was opened from the document, was forked from a draft that had published it, or published it last itself.
  predicate CameBy(d: Draft, id: DocId) {
    || (d.token.Opened? && d.token.id == id)
    || (d.forked.Some? && d.forked.value == id)
    || (d.publication.Some? && d.publication.value.document == id)
  }

  // ---------------------------------------------------------------------------------------------
  // Experiments
  // ---------------------------------------------------------------------------------------------

  predicate PublishedFrom(d: Draft, e: Experiment) {
    e.record.Some? && (e.record.value.draft == d.id || CameBy(d, e.record.value.document))
  }

  predicate Unedited(name: string, e: Experiment) {
    e.record.Some? && e.record.value.digest == ExperimentDigest(name, e.body)
  }

  predicate ImportedFrom(d: Draft, name: string) {
    !d.token.Uploaded? && match d.document.source {
      case FromExperiment(source, _, _) => source == name
      case _ => false
    }
  }

  // The experiment is what the request would make of it, as far as preflight looks.
  predicate AlreadyThere(e: Experiment, d: Draft, req: Request, spec: Spec) {
    && req.experiment.Some? && req.topology.name == e.topology
    && e.scenario == (match req.scenario { case Some(scenario) => scenario case None => "" })
    && e.body.topology == spec && e.body.aliases == d.document.aliases
  }

  /** Every answer of the experiment's preflight, and when it is given. */
  lemma ExperimentVerdict(w: World, d: Draft, req: Request, spec: Spec)
    requires req.experiment.Some?
    ensures var name, create := req.experiment.value.name, req.experiment.value.action == Create;
            var verdict := PreflightExperiment(w, d, req, spec);
            && (name !in w.experiments ==> verdict == if create then Success(false) else Failure(ExperimentMissing))
            && (name in w.experiments ==>
                  var e := w.experiments[name];
                  && (AlreadyThere(e, d, req, spec) ==> verdict == Success(true))
                  && (!AlreadyThere(e, d, req, spec) && create ==> verdict == Failure(ExperimentExists))
                  && (!AlreadyThere(e, d, req, spec) && !create ==>
                        verdict == if !ImportedFrom(d, name) && !PublishedFrom(d, e) then Failure(ExperimentNotSource)
                                   else if !ImportedFrom(d, name) && !Unedited(name, e) then Failure(ExperimentChanged)
                                   else if e.running then Failure(ExperimentRunning)
                                   else Success(false)))
  {
  }

  /**
   An experiment that runs, or that the draft neither was imported from nor published and left unedited, stays as it is.
   */
  lemma ProtectedKept(w: World, apps: Apps, id: string, req: Request, tag: nat, f: Faults, name: string)
    requires WellFormed(w) && id in w.drafts && name in w.experiments && f.meanwhile.None?
    requires Protected(w.drafts[id], name, w.experiments[name])
    ensures var after := Publish(w, apps, id, req, tag, f).0.experiments;
            name in after && after[name] == w.experiments[name]
  {
    if Publish(w, apps, id, req, tag, f).0 != w {
      OnlyAcceptedWrites(w, apps, id, req, tag, f);
      ProtectedInStages(w, apps, w.drafts[id], req, Preflight(w, w.drafts[id], req).value, f, name);
    }
  }

  predicate Protected(d: Draft, name: string, e: Experiment) {
    e.running || (!ImportedFrom(d, name) && !(PublishedFrom(d, e) && Unedited(name, e)))
  }

  lemma ProtectedInStages(w: World, apps: Apps, d: Draft, req: Request, plan: Plan, f: Faults, name: string)
    requires d.id in w.drafts && Preflight(w, d, req) == Success(plan) && f.meanwhile.None?
    requires name in w.experiments && Protected(d, name, w.experiments[name])
    ensures var after := RunStages(w, apps, d, req, plan, f).0.experiments;
            name in after && after[name] == w.experiments[name]
  {
    ExperimentsKept(w, apps, d, req, plan, f);
    if req.experiment.Some? && req.ExperimentName() == name {
      ExperimentVerdict(w, d, req, plan.spec);
      assert PreflightExperiment(w, d, req, plan.spec) == Success(plan.experimentApplied);
    }
  }

  /**
   So does one, whatever fails, that was not published from the draft and that the draft was not imported from.
   */
  lemma ForeignExperimentKept(w: World, apps: Apps, id: string, req: Request, tag: nat, f: Faults, name: string)
    requires WellFormed(w) && id in w.drafts && name in w.experiments && f.meanwhile.None?
    requires !PublishedFrom(w.drafts[id], w.experiments[name]) && !ImportedFrom(w.drafts[id], name)
    ensures var after := Publish(w, apps, id, req, tag, f).0.experiments;
            name in after && after[name] == w.experiments[name]
  {
    ProtectedKept(w, apps, id, req, tag, f, name);
  }

  // ---------------------------------------------------------------------------------------------
  // Topologies
  // ---------------------------------------------------------------------------------------------

  // The document that the reference means by its ID or, when it has none, by its digest.
  predicate Means(name: string, r: Reference, id: DocId) {
    match r.id
    case Some(own) => own == id
    case None => r.digest.Some? && id.target == name && id.content == r.digest.value
  }

  // The reference's digest, if it has one, is that of the document.
  predicate DigestFits(r: Reference, document: Document) {
    match r.digest
    case Some(digest) => digest == document
    case None => true
  }

  // The reference means a stored document of the topology. It may be corrupt.
  predicate Stored(w: World, name: string, r: Reference, document: Document) {
    Means(name, r, DocId(name, document)) && DocId(name, document) in w.published && DigestFits(r, document)
  }

  predicate ShownFromStore(w: World, name: string, r: Reference, document: Document) {
    Stored(w, name, r, document) && w.published[DocId(name, document)].intact
  }

  // Only when it means no stored document does the reference show that of a file.
  ghost predicate ShownFromFile(w: World, name: string, r: Reference, document: Document) {
    && (forall other: Document :: !Stored(w, name, r, other))
    && r.path.Some? && r.path.value in w.files && w.files[r.path.value] == document && DigestFits(r, document)
  }

  // The reference means the draft's own content, or a document that the draft came by.
  predicate MeansOwn(d: Draft, name: string, r: Reference) {
    Means(name, r, DocId(name, d.document))
    || (match r.id
        case Some(id) => CameBy(d, id)
        case None => r.digest.Some? && CameBy(d, DocId(name, r.digest.value)))
  }

  ghost predicate OwnedFromStore(w: World, d: Draft, name: string, r: Reference, document: Document) {
    && ShownFromStore(w, name, r, document)
    && (MeansOwn(d, name, r) || document == d.document || w.published[DocId(name, document)].draft == d.id)
  }

  ghost predicate OwnedFromFile(w: World, d: Draft, name: string, r: Reference, document: Document) {
    && ShownFromFile(w, name, r, document)
    && (MeansOwn(d, name, r) || document == d.document || d.token == OpenedFile(name, document))
  }

  ghost predicate OwnedBy(w: World, d: Draft, name: string, t: Topology) {
    t.reference.Some? &&
    (MeansOwn(d, name, t.reference.value)
     || exists document :: OwnedFromStore(w, d, name, t.reference.value, document)
                           || OwnedFromFile(w, d, name, t.reference.value, document))
  }

  ghost predicate FromOwnFile(w: World, d: Draft, name: string, t: Topology) {
    t.reference.Some? && exists document :: OwnedFromFile(w, d, name, t.reference.value, document)
  }

  // The topology shows a document of the draft, and its spec is the one that the document projects as.
  ghost predicate ShowsOwn(w: World, d: Draft, name: string, t: Topology) {
    t.reference.Some? &&
    exists document: Document ::
      && (OwnedFromStore(w, d, name, t.reference.value, document)
          || OwnedFromFile(w, d, name, t.reference.value, document))
      && document.projection.Some? && document.projection.value == t.spec
  }

  // The import rule: from the topology itself, or through an experiment if no legacy diagram would be lost.
  predicate MayImportOver(d: Draft, name: string, t: Topology) {
    !d.token.Uploaded? && match d.document.source {
      case Manual => false
      case FromTopology(source, _) => source == name
      case FromExperiment(_, topology, _) => topology == name && t.legacy.None?
    }
  }

  lemma ResolveIff(w: World, name: string, r: Reference)
    ensures match Resolve(w, name, r)
            case FromStore(document, author) =>
              ShownFromStore(w, name, r, document) && author == w.published[DocId(name, document)].draft
            case FromFile(document) => ShownFromFile(w, name, r, document)
            case Unusable =>
              forall document: Document :: !ShownFromStore(w, name, r, document) && !ShownFromFile(w, name, r, document)
  {
    var id := r.StoredID(name);
    if id.Some? && id.value in w.published && id.value.target == name
       && (r.digest.None? || r.digest == Some(id.value.content)) {
      assert Stored(w, name, r, id.value.content);
    }
  }

  lemma ShowsOne(w: World, name: string, r: Reference, a: Document, b: Document)
    requires ShownFromStore(w, name, r, a) || ShownFromFile(w, name, r, a)
    requires ShownFromStore(w, name, r, b) || ShownFromFile(w, name, r, b)
    ensures a == b && (ShownFromStore(w, name, r, a) <==> !ShownFromFile(w, name, r, b))
  {
    assert ShownFromStore(w, name, r, a) ==> Stored(w, name, r, a);
    assert ShownFromStore(w, name, r, b) ==> Stored(w, name, r, b);
  }

  lemma MeansOwnIff(d: Draft, name: string, r: Reference)
    ensures NamesDocument(d, name, r) <==> MeansOwn(d, name, r)
  {
  }

  lemma HeldIff(w: World, d: Draft, name: string, t: Topology)
    ensures var held := HoldsDraftDocument(w, d, name, t);
            && (held.owned <==> OwnedBy(w, d, name, t))
            && (held.pristine <==> ShowsOwn(w, d, name, t))
            && (held.file <==> FromOwnFile(w, d, name, t))
  {
    if t.reference.Some? {
      var r := t.reference.value;
      MeansOwnIff(d, name, r);
      ResolveIff(w, name, r);
      match Resolve(w, name, r)
      case Unusable =>
      case FromStore(document, _) =>
        assert OwnedFromStore(w, d, name, r, document) <==> HoldsDraftDocument(w, d, name, t).owned;
        forall other: Document | ShownFromStore(w, name, r, other) || ShownFromFile(w, name, r, other)
          ensures other == document && !ShownFromFile(w, name, r, other)
        {
          ShowsOne(w, name, r, document, other);
        }
      case FromFile(document) =>
        assert OwnedFromFile(w, d, name, r, document) <==> HoldsDraftDocument(w, d, name, t).owned;
        forall other: Document | ShownFromStore(w, name, r, other) || ShownFromFile(w, name, r, other)
          ensures other == document && !ShownFromStore(w, name, r, other)
        {
          ShowsOne(w, name, r, document, other);
        }
    }
  }

  // The topology names the draft's document, which is stored unless the reference says no path.
  predicate AlreadyShown(w: World, d: Draft, name: string) {
    name in w.topologies && match w.topologies[name].reference {
      case None => false
      case Some(r) =>
        && Means(name, r, DocId(name, d.document)) && DigestFits(r, d.document)
        && (r.path.None? || DocId(name, d.document) in w.published)
    }
  }

  lemma AlreadyShownIff(w: World, d: Draft, name: string)
    ensures TopologyApplied(w, name, d.document) <==> AlreadyShown(w, d, name)
  {
  }

  /** Every answer of the topology's preflight, and when it is given. */
  lemma TopologyVerdict(w: World, d: Draft, t: Target)
    ensures var name, verdict := t.name, PreflightTopology(w, d, t);
            && (AlreadyShown(w, d, name) ==> verdict == Success(true))
            && (name !in w.topologies ==>
                  verdict == if t.action == Create then Success(false) else Failure(TopologyMissing))
            && (name in w.topologies && !AlreadyShown(w, d, name) && t.action == Create ==>
                  verdict == Failure(TopologyExists))
            && (name in w.topologies && !AlreadyShown(w, d, name) && t.action == Update ==>
                  var stored := w.topologies[name];
                  verdict == if OwnedBy(w, d, name, stored) then
                               if ShowsOwn(w, d, name, stored) then Success(false)
                               else if FromOwnFile(w, d, name, stored) then Failure(TopologyFileMismatch)
                               else Failure(TopologyChanged)
                             else if d.token.OpenedFile? && d.token.topology == name then Failure(TopologyFileChanged)
                             else if MayImportOver(d, name, stored) then Success(false)
                             else Failure(TopologyNotSource))
  {
    AlreadyShownIff(w, d, t.name);
    if t.name in w.topologies {
      HeldIff(w, d, t.name, w.topologies[t.name]);
    }
  }

  // The draft may replace the topology.
  ghost predicate MayReplace(w: World, d: Draft, name: string, t: Topology) {
    if OwnedBy(w, d, name, t) then ShowsOwn(w, d, name, t)
    else !(d.token.OpenedFile? && d.token.topology == name) && MayImportOver(d, name, t)
  }

  /** A topology stays as it is, whatever fails, unless the rules let the draft replace it. */
  lemma ForeignTopologyKept(w: World, apps: Apps, id: string, req: Request, tag: nat, f: Faults, name: string)
    requires WellFormed(w) && id in w.drafts && name in w.topologies
    requires !MayReplace(w, w.drafts[id], name, w.topologies[name])
    ensures var after := Publish(w, apps, id, req, tag, f).0.topologies;
            name in after && after[name] == w.topologies[name]
  {
    OnlyTargetWritten(w, apps, id, req, tag, f);
    if Publish(w, apps, id, req, tag, f).0.topologies != w.topologies && req.topology.name == name {
      TopologyVerdict(w, w.drafts[id], req.topology);
    }
  }

  /**
   So a draft that was imported through an experiment never takes the legacy diagram of a topology that it does not own.
   */
  lemma DiagramKept(w: World, apps: Apps, id: string, req: Request, tag: nat, f: Faults, name: string)
    requires WellFormed(w) && id in w.drafts && name in w.topologies && w.topologies[name].legacy.Some?
    requires w.drafts[id].document.source.FromExperiment? && !OwnedBy(w, w.drafts[id], name, w.topologies[name])
    ensures var after := Publish(w, apps, id, req, tag, f).0.topologies;
            name in after && after[name].legacy == w.topologies[name].legacy
  {
    ForeignTopologyKept(w, apps, id, req, tag, f, name);
  }

  // ---------------------------------------------------------------------------------------------
  // The source, and the whole preflight
  // ---------------------------------------------------------------------------------------------

  // What the draft was imported from is as it was then, or gone, or shows what the draft itself published.
  ghost predicate Fresh(w: World, d: Draft) {
    d.token.Uploaded? ||
    match d.document.source {
      case Manual => true
      case FromTopology(name, digest) =>
        name in w.topologies ==>
          || digest == TopologyDigest(name, w.topologies[name].spec, w.topologies[name].legacy)
          || ShowsOwn(w, d, name, w.topologies[name])
      case FromExperiment(name, _, digest) =>
        name in w.experiments ==>
          || digest == ExperimentDigest(name, w.experiments[name].body)
          || (PublishedFrom(d, w.experiments[name]) && Unedited(name, w.experiments[name]))
    }
  }

  lemma FreshIff(w: World, d: Draft)
    ensures SourceFresh(w, d) <==> Fresh(w, d)
  {
    if d.document.source.FromTopology? && d.document.source.name in w.topologies {
      HeldIff(w, d, d.document.source.name, w.topologies[d.document.source.name]);
    }
  }

  // Every listed scenario exists, and the request names one of them or none.
  predicate ScenariosThere(w: World, d: Draft, req: Request) {
    && (req.scenario.Some? && req.scenario.value != "" ==> req.scenario.value in d.document.scenarios)
    && forall s :: s in d.document.scenarios ==> s in w.scenarios
  }

  lemma {:induction false} PlansIff(w: World, listed: seq<string>, req: Request, plan: ScenarioPlan)
    ensures if forall s :: s in listed ==> s in w.scenarios then PlanScenarios(w, listed, req, plan).Success?
            else PlanScenarios(w, listed, req, plan) == Failure(ScenarioMissing)
    decreases |listed|
  {
    if listed != [] {
      if listed[0] in w.scenarios {
        PlansIff(w, listed[1..], req, PlanScenario(w.scenarios[listed[0]], listed[0], req, plan));
      }
      assert forall s :: s in listed <==> s == listed[0] || s in listed[1..];
    }
  }

  // A scenario of the draft's list does not name the topology yet.
  predicate ScenarioLeft(w: World, d: Draft, topology: string) {
    exists s :: s in d.document.scenarios && s in w.scenarios && !HasTopology(w.scenarios[s].topologies, topology)
  }

  lemma {:induction false} ChangedIff(w: World, listed: seq<string>, req: Request, plan: ScenarioPlan)
    requires forall s :: s in listed ==> s in w.scenarios
    ensures PlanScenarios(w, listed, req, plan).Success?
    ensures PlanScenarios(w, listed, req, plan).value.changed == [] <==>
            plan.changed == [] && forall s :: s in listed ==> HasTopology(w.scenarios[s].topologies, req.topology.name)
    decreases |listed|
  {
    if listed != [] {
      ChangedIff(w, listed[1..], req, PlanScenario(w.scenarios[listed[0]], listed[0], req, plan));
      assert forall s :: s in listed <==> s == listed[0] || s in listed[1..];
    }
  }

  // The list is a merge of the two others: done are the scenarios that name the topology, changed all the rest.
  predicate Parted(w: World, listed: seq<string>, topology: string, changed: seq<ScenarioChange>, done: seq<string>) {
    if listed == [] then changed == [] && done == []
    else if listed[0] in w.scenarios && HasTopology(w.scenarios[listed[0]].topologies, topology) then
      done != [] && done[0] == listed[0] && Parted(w, listed[1..], topology, changed, done[1..])
    else
      changed != [] && changed[0].name == listed[0] && Parted(w, listed[1..], topology, changed[1..], done)
  }

  /** A plan sorts the listed scenarios into those to write and those that name the topology, and leaves none out. */
  lemma {:induction false} PlanParts(w: World, listed: seq<string>, req: Request, plan: ScenarioPlan)
    requires PlanScenarios(w, listed, req, plan).Success?
    ensures var p := PlanScenarios(w, listed, req, plan).value;
            && |plan.changed| <= |p.changed| && |plan.already| <= |p.already|
            && p.changed[..|plan.changed|] == plan.changed && p.already[..|plan.already|] == plan.already
            && Parted(w, listed, req.topology.name, p.changed[|plan.changed|..], p.already[|plan.already|..])
    decreases |listed|
  {
    if listed != [] {
      PlanParts(w, listed[1..], req, PlanScenario(w.scenarios[listed[0]], listed[0], req, plan));
      var p := PlanScenarios(w, listed, req, plan).value;
      if HasTopology(w.scenarios[listed[0]].topologies, req.topology.name) {
        assert p.already[|plan.already|..][1..] == p.already[|plan.already| + 1..];
      } else {
        assert p.changed[|plan.changed|..][1..] == p.changed[|plan.changed| + 1..];
      }
    }
  }

  // Nothing but the draft mark is left to do.
  predicate NothingLeft(w: World, d: Draft, req: Request) {
    && AlreadyShown(w, d, req.topology.name) && !ScenarioLeft(w, d, req.topology.name)
    && match req.experiment {
      case None => true
      case Some(t) =>
        t.name in w.experiments && d.document.projection.Some?
        && AlreadyThere(w.experiments[t.name], d, req, d.document.projection.value)
    }
  }

  /** A request is accepted exactly if each config is, and its source is fresh or nothing but the mark is left to do. */
  lemma AcceptedIff(w: World, d: Draft, req: Request)
    ensures Preflight(w, d, req).Success? <==>
            && d.document.projection.Some?
            && PreflightTopology(w, d, req.topology).Success?
            && ScenariosThere(w, d, req)
            && (req.experiment.Some? ==> PreflightExperiment(w, d, req, d.document.projection.value).Success?)
            && (NothingLeft(w, d, req) || Fresh(w, d))
  {
    FreshIff(w, d);
    PlansIff(w, d.document.scenarios, req, EMPTY_SCENARIO_PLAN);
    TopologyVerdict(w, d, req.topology);
    if d.document.projection.Some? && req.experiment.Some? {
      ExperimentVerdict(w, d, req, d.document.projection.value);
    }
    if ScenariosThere(w, d, req) {
      ChangedIff(w, d.document.scenarios, req, EMPTY_SCENARIO_PLAN);
    }
  }

  // A name that the stores take: not empty, of letters, digits and four other characters.
  predicate Nameable(name: string) {
    name != "" && forall c :: c in name ==> 'a' <= c <= 'z' || 'A' <= c <= 'Z' || '0' <= c <= '9' || c in "_@.-"
  }

  // The parts of the request go together, and each names something.
  predicate WellAsked(req: Request) {
    && Nameable(req.topology.name)
    && (req.mode == TopologyOnly ==> req.experiment == None && req.scenario == None)
    && (req.mode == TopologyAndExperiment ==>
          && req.experiment.Some? && Nameable(req.experiment.value.name)
          && (req.scenario.Some? ==> Nameable(req.scenario.value)))
  }

  // The request was recorded under the tag, as far as a retry is told by.
  predicate Repeats(p: Publication, d: Draft, req: Request, tag: nat) {
    && p.revision == tag && p.mode == req.mode
    && p.topology == req.topology.name && p.action == req.topology.action
    && p.experiment == (match req.experiment { case Some(e) => e.name case None => "" })
    && p.scenario == (match req.scenario { case Some(s) => s case None => "" })
    && p.snapshot == d.snapshot && p.digest == d.document
  }

  /**
   What a publication answers before it does anything, and in which order the reasons come. Nothing has changed then.
   */
  lemma RefusalVerdict(w: World, apps: Apps, id: string, req: Request, tag: nat, f: Faults)
    requires WellFormed(w)
    ensures var (after, outcome) := Publish(w, apps, id, req, tag, f);
            && (outcome.Refused? || outcome == AlreadyComplete ==> after == w)
            && (!WellAsked(req) ==> outcome == Refused(InvalidRequest))
            && (WellAsked(req) && id !in w.drafts ==> outcome == Refused(DraftMissing))
            && (WellAsked(req) && id in w.drafts ==>
                  var d := w.drafts[id];
                  && (tag != d.revision ==>
                        outcome == if d.publication.Some?
                        && Repeats(d.publication.value, d, req, tag) then AlreadyComplete
                                   else Refused(TagMismatch))
                  && (tag == d.revision ==>
                        && outcome != AlreadyComplete
                        && (match FirstRefusal(w, d, req)
                            case Some(why) => outcome == Refused(why)
                            case None => outcome.Refused? <==> f.document)
                        && (FirstRefusal(w, d, req).None? && f.document ==> outcome == Refused(DocumentNotStored))))
  {
    WellAskedIff(req);
    if id in w.drafts && tag == w.drafts[id].revision {
      FirstRefusalIs(w, w.drafts[id], req);
      if Preflight(w, w.drafts[id], req).Success? {
        StagesRefuse(w, apps, w.drafts[id], req, f);
      }
    } else if id in w.drafts {
      RetryIsRepeat(w.drafts[id], req, tag);
    }
  }

  lemma RetryIsRepeat(d: Draft, req: Request, tag: nat)
    ensures IsPublishRetry(d, req, tag) <==> d.publication.Some? && Repeats(d.publication.value, d, req, tag)
  {
  }

  lemma StagesRefuse(w: World, apps: Apps, d: Draft, req: Request, f: Faults)
    requires d.id in w.drafts && Preflight(w, d, req).Success?
    ensures var plan := Preflight(w, d, req).value;
            && (plan.topologyApplied ==> req.topology.name in w.topologies)
            && var (after, outcome) := RunStages(w, apps, d, req, plan, f);
               && outcome != AlreadyComplete && (outcome.Refused? <==> f.document)
               && (f.document ==> (after, outcome) == (w, Refused(DocumentNotStored)))
  {
  }

  lemma WellAskedIff(req: Request)
    ensures req.Valid() <==> WellAsked(req)
  {
    NameableIff(req.topology.name);
    NameableIff(req.ScenarioName());
    NameableIff(req.ExperimentName());
  }

  lemma NameableIff(name: string)
    ensures ValidName(name) <==> Nameable(name)
  {
    forall c | c in name
      ensures NameChar(c) <==> 'a' <= c <= 'z' || 'A' <= c <= 'Z' || '0' <= c <= '9' || c in "_@.-"
    {
      assert c in "_@.-" <==> c == '_' || c == '@' || c == '.' || c == '-';
    }
    assert forall i :: 0 <= i < |name| ==> name[i] in name;
  }

  // The topology is looked at first, then the scenarios, the experiment and the source.
  ghost function FirstRefusal(w: World, d: Draft, req: Request): Option<Refusal> {
    if d.document.projection.None? then Some(NotProjectable)
    else
      var topology := PreflightTopology(w, d, req.topology);
      if topology.Failure? then Some(topology.error)
      else if req.scenario.Some? && req.scenario.value != "" && req.scenario.value !in d.document.scenarios
      then Some(ScenarioNotListed)
      else if exists s :: s in d.document.scenarios && s !in w.scenarios then Some(ScenarioMissing)
      else if req.experiment.Some? && PreflightExperiment(w, d, req, d.document.projection.value).Failure?
      then Some(PreflightExperiment(w, d, req, d.document.projection.value).error)
      else if !NothingLeft(w, d, req) && !Fresh(w, d) then Some(SourceChanged)
      else None
  }

  lemma FirstRefusalIs(w: World, d: Draft, req: Request)
    ensures match FirstRefusal(w, d, req)
            case Some(why) => Preflight(w, d, req) == Failure(why)
            case None => Preflight(w, d, req).Success?
  {
    AcceptedIff(w, d, req);
    PlansIff(w, d.document.scenarios, req, EMPTY_SCENARIO_PLAN);
  }
}
