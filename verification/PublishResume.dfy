/**
 A publication that failed part way, sent again: the same request under the same entity tag, with no other writer since,
 finishes the publication and leaves exactly what an uninterrupted one leaves.
 */
module PublishResume {
  import opened Wrappers
  import opened Annotations
  import opened PublishModel

  predicate Distinct(names: seq<string>) {
    forall i, j :: 0 <= i < j < |names| ==> names[i] != names[j]
  }

  // ---------------------------------------------------------------------------------------------
  // The scenario plan and the scenario stage
  // ---------------------------------------------------------------------------------------------

  function WithTopology(s: Scenario, topology: string): Scenario {
    if HasTopology(s.topologies, topology) then s else s.(topologies := AddTopology(s.topologies, topology))
  }

  // The scenarios of the list that the plan changes, in order.
  function Changes(w: World, listed: seq<string>, topology: string): seq<ScenarioChange>
    requires forall s :: s in listed ==> s in w.scenarios
  {
    if listed == [] then []
    else
      var rest := Changes(w, listed[1..], topology);
      if HasTopology(w.scenarios[listed[0]].topologies, topology) then rest
      else [ScenarioChange(listed[0], WithTopology(w.scenarios[listed[0]], topology))] + rest
  }

  function Picked(w: World, listed: seq<string>, req: Request, base: Option<Scenario>): Option<Scenario>
    requires forall s :: s in listed ==> s in w.scenarios
  {
    if req.ScenarioName() in listed then Some(WithTopology(w.scenarios[req.ScenarioName()], req.topology.name))
       else base
  }

  lemma {:induction false} PlanMeaning(w: World, listed: seq<string>, req: Request, plan: ScenarioPlan)
    ensures PlanScenarios(w, listed, req, plan).Success? <==> forall s :: s in listed ==> s in w.scenarios
    ensures PlanScenarios(w, listed, req, plan).Success? ==>
              var p := PlanScenarios(w, listed, req, plan).value;
              p.changed == plan.changed + Changes(w, listed, req.topology.name)
              && p.picked == Picked(w, listed, req, plan.picked)
    decreases |listed|
  {
    if listed != [] {
      assert forall s :: s in listed <==> s == listed[0] || s in listed[1..];
      if listed[0] in w.scenarios {
        var next := PlanScenario(w.scenarios[listed[0]], listed[0], req, plan);
        PlanMeaning(w, listed[1..], req, next);
        if PlanScenarios(w, listed, req, plan).Success? {
          PlanOneMore(w, listed, req, plan);
        }
      }
    }
  }

  // Planning the first scenario of a list and then the rest is planning the list.
  lemma PlanOneMore(w: World, listed: seq<string>, req: Request, plan: ScenarioPlan)
    requires listed != [] && forall s :: s in listed ==> s in w.scenarios
    ensures var next := PlanScenario(w.scenarios[listed[0]], listed[0], req, plan);
            && next.changed + Changes(w, listed[1..], req.topology.name) == plan.changed
               + Changes(w, listed, req.topology.name)
            && Picked(w, listed[1..], req, next.picked) == Picked(w, listed, req, plan.picked)
  {
    assert req.ScenarioName() in listed <==> req.ScenarioName() == listed[0] || req.ScenarioName() in listed[1..];
    var s, topology := w.scenarios[listed[0]], req.topology.name;
    var rest := Changes(w, listed[1..], topology);
    if !HasTopology(s.topologies, topology) {
      MoveBracket(plan.changed, ScenarioChange(listed[0], WithTopology(s, topology)), rest);
    }
  }

  lemma MoveBracket(first: seq<ScenarioChange>, c: ScenarioChange, rest: seq<ScenarioChange>)
    ensures first + [c] + rest == first + ([c] + rest)
  {
  }

  lemma DistinctTail(names: seq<string>)
    requires Distinct(names) && names != []
    ensures names[0] !in names[1..] && Distinct(names[1..])
  {
    assert forall i :: 0 <= i < |names[1..]| ==> names[1..][i] == names[i + 1];
  }

  predicate DistinctChanges(changes: seq<ScenarioChange>) {
    forall i, j :: 0 <= i < j < |changes| ==> changes[i].name != changes[j].name
  }

  lemma {:induction false} ChangesAreListed(w: World, listed: seq<string>, topology: string)
    requires forall s :: s in listed ==> s in w.scenarios
    ensures forall c :: c in Changes(w, listed, topology) ==>
              && c.name in listed
              && c.config == WithTopology(w.scenarios[c.name], topology)
              && !HasTopology(w.scenarios[c.name].topologies, topology)
    ensures Distinct(listed) ==> DistinctChanges(Changes(w, listed, topology))
  {
    if listed != [] {
      ChangesAreListed(w, listed[1..], topology);
      if Distinct(listed) {
        DistinctTail(listed);
      }
    }
  }

  // The stage stops at the first failing scenario: it has written the first k changes, and the rest completes it.
  lemma {:induction false} StageStopsAt(w: World, changed: seq<ScenarioChange>, failing: set<string>) returns (k: nat)
    ensures k <= |changed|
    ensures RunScenarioStage(w, changed, failing) == (RunScenarioStage(w, changed[..k], {}).0, k == |changed|)
    ensures RunScenarioStage(RunScenarioStage(w, changed[..k], {}).0, changed[k..], {}) ==
              RunScenarioStage(w, changed, {})
    decreases |changed|
  {
    if changed == [] || changed[0].name in failing {
      k := 0;
      assert changed[k..] == changed;
    } else {
      var next := WriteScenario(w, changed[0]);
      var k' := StageStopsAt(next, changed[1..], failing);
      k := k' + 1;
      assert changed[..k][1..] == changed[1..][..k'];
      assert changed[k..] == changed[1..][k'..];
    }
  }

  // Which scenarios the stage leaves: the planned config for a planned name, and the stored one for any other.
  lemma {:induction false} StageWrites(w: World, changed: seq<ScenarioChange>)
    requires DistinctChanges(changed)
    ensures var after := RunScenarioStage(w, changed, {}).0.scenarios;
            && (forall c :: c in changed ==> c.name in after && after[c.name] == c.config)
            && (forall s :: s in w.scenarios && (forall c :: c in changed ==> c.name != s) ==>
                  s in after && after[s] == w.scenarios[s])
    decreases |changed|
  {
    if changed != [] {
      assert forall c :: c in changed <==> c == changed[0] || c in changed[1..];
      StageWrites(WriteScenario(w, changed[0]), changed[1..]);
    }
  }

  function Names(changes: seq<ScenarioChange>): set<string> {
    set i | 0 <= i < |changes| :: changes[i].name
  }

  function Without(changes: seq<ScenarioChange>, done: set<string>): seq<ScenarioChange> {
    if changes == [] then []
    else (if changes[0].name in done then [] else [changes[0]]) + Without(changes[1..], done)
  }

  // Once the scenarios in done have their change, a new plan changes the others only.
  lemma {:induction false} ChangesOnceDone(w: World, u: World, listed: seq<string>, topology: string, done: set<string>)
    requires ValidName(topology)
    requires forall s :: s in listed ==> s in w.scenarios && s in u.scenarios
    requires forall s :: s in listed ==>
               u.scenarios[s] == if s in done then WithTopology(w.scenarios[s], topology) else w.scenarios[s]
    ensures Changes(u, listed, topology) == Without(Changes(w, listed, topology), done)
  {
    if listed != [] {
      ChangesOnceDone(w, u, listed[1..], topology, done);
      AddTopologyAddsOnlyIt(w.scenarios[listed[0]].topologies, topology, topology);
    }
  }

  lemma {:induction false} WithoutFirst(changes: seq<ScenarioChange>, k: nat, done: set<string>)
    requires k <= |changes|
    requires forall i :: 0 <= i < |changes| ==> (changes[i].name in done <==> i < k)
    ensures Without(changes, done) == changes[k..]
  {
    if changes != [] {
      WithoutFirst(changes[1..], if k == 0 then 0 else k - 1, done);
    }
  }

  // ---------------------------------------------------------------------------------------------
  // Preflight once some stages are done
  // ---------------------------------------------------------------------------------------------

  // No other writer interferes. Any call may fail.
  predicate Quiet(f: Faults) {
    f.meanwhile.None? && f.save.None?
  }

  // No stage fails. The record of the publisher on the experiment may, which is only a warning.
  function Clean(record: bool): Faults {
    NO_FAULTS.(record := record)
  }

  /**
   The reference would make TopologyApplied true, were the document in published. So StoreDocument alone makes it true.
   */
  predicate OnlyInFile(w: World, d: Draft, name: string) {
    && name in w.topologies
    && w.topologies[name].reference.Some?
    && var r := w.topologies[name].reference.value;
    && r.Publishes(name, d.document) && r.path.Some? && DocId(name, d.document) !in w.published
  }

  // u is w with the document stored and possibly the topology stage done, and with other scenario annotations.
  predicate Progressed(w: World, u: World, d: Draft, name: string, spec: Spec) {
    && u.published == StoreDocument(w, d, name).published
    && u.files == w.files && u.drafts == w.drafts && u.experiments == w.experiments
    && (u.topologies == w.topologies || u.topologies == w.topologies[name := PublishedTopology(w, d, name, spec)])
  }

  lemma ResolveOnceStored(w: World, u: World, d: Draft, target: string, name: string, r: Reference)
    requires u.published == StoreDocument(w, d, target).published && u.files == w.files
    ensures if name == target && r.Publishes(target, d.document)
            then Resolve(u, name, r).FromStore? && Resolve(u, name, r).document == d.document
            else Resolve(u, name, r) == Resolve(w, name, r)
  {
    if name == target && r.Publishes(target, d.document) {
      assert u.published[DocId(target, d.document)].intact;
    }
  }

  lemma TopologyStaysHeld(w: World, u: World, d: Draft, target: string, name: string, t: Topology)
    requires u.published == StoreDocument(w, d, target).published && u.files == w.files
    requires name in w.topologies && w.topologies[name] == t && (name == target ==> !OnlyInFile(w, d, target))
    requires HoldsDraftDocument(w, d, name, t).pristine
    ensures HoldsDraftDocument(u, d, name, t).pristine
  {
    ResolveOnceStored(w, u, d, target, name, t.reference.value);
  }

  lemma WrittenTopologyHeld(w: World, u: World, d: Draft, name: string, spec: Spec)
    requires d.document.projection == Some(spec)
    requires DocId(name, d.document) in u.published && u.published[DocId(name, d.document)].intact
    ensures HoldsDraftDocument(u, d, name, PublishedTopology(w, d, name, spec)) == Held(true, true, false)
  {
  }

  // The topology holds what its stage wrote, in this run or by chance before.
  predicate HoldsWritten(w: World, u: World, d: Draft, name: string, spec: Spec) {
    name in u.topologies && u.topologies[name] == PublishedTopology(w, d, name, spec)
  }

  /**
   The freshness check passes again, although the draft's own topology write may have changed the source. Only a
   topology that names the document just in a file must have been written first.
   */
  lemma SourceStaysFresh(w: World, u: World, d: Draft, name: string, spec: Spec)
    requires Progressed(w, u, d, name, spec) && d.document.projection == Some(spec)
    requires !OnlyInFile(w, d, name) || HoldsWritten(w, u, d, name, spec)
    requires SourceFresh(w, d)
    ensures SourceFresh(u, d)
  {
    match d.document.source
    case Manual =>
    case FromExperiment(_, _, _) =>
    case FromTopology(source, digest) =>
      if source == name && HoldsWritten(w, u, d, name, spec) {
        WrittenTopologyHeld(w, u, d, name, spec);
      } else if source in w.topologies && u.topologies[source] == w.topologies[source] {
        if HoldsDraftDocument(w, d, source, w.topologies[source]).pristine {
          TopologyStaysHeld(w, u, d, name, source, w.topologies[source]);
        }
      }
  }

  lemma TopologyPreflightAgain(w: World, u: World, d: Draft, t: Target, spec: Spec)
    requires Progressed(w, u, d, t.name, spec) && !OnlyInFile(w, d, t.name)
    requires PreflightTopology(w, d, t).Success?
    ensures u.topologies == w.topologies ==> PreflightTopology(u, d, t) == PreflightTopology(w, d, t)
    ensures u.topologies != w.topologies || TopologyApplied(w, t.name, d.document) ==>
              PreflightTopology(u, d, t) == Success(true)
  {
    if u.topologies == w.topologies && t.name in w.topologies && w.topologies[t.name].reference.Some? {
      ResolveOnceStored(w, u, d, t.name, t.name, w.topologies[t.name].reference.value);
    }
  }

  // u has the first k planned changes of the scenarios written.
  predicate ScenariosWritten(w: World, u: World, changed: seq<ScenarioChange>, k: nat)
    requires k <= |changed|
  {
    && (forall c :: c in changed[..k] ==> c.name in u.scenarios && u.scenarios[c.name] == c.config)
    && (forall s :: s in w.scenarios && s !in Names(changed[..k]) ==>
          s in u.scenarios && u.scenarios[s] == w.scenarios[s])
  }

  lemma NamesOfPrefix(changed: seq<ScenarioChange>, k: nat)
    requires k <= |changed| && DistinctChanges(changed)
    ensures forall i :: 0 <= i < |changed| ==> (changed[i].name in Names(changed[..k]) <==> i < k)
  {
    forall i | 0 <= i < |changed|
      ensures changed[i].name in Names(changed[..k]) <==> i < k
    {
      if i < k {
        assert changed[..k][i] == changed[i];
      } else {
        assert forall j :: 0 <= j < k ==> changed[..k][j].name != changed[i].name;
      }
    }
  }

  // Of the listed scenarios, those in done have their change, and the others are as they were.
  predicate OnceDone(w: World, u: World, listed: seq<string>, topology: string, done: set<string>) {
    forall s :: s in listed ==>
      && s in w.scenarios && s in u.scenarios
      && u.scenarios[s] == if s in done then WithTopology(w.scenarios[s], topology) else w.scenarios[s]
  }

  lemma WrittenIsOnceDone(w: World, u: World, listed: seq<string>, topology: string, k: nat)
    requires Distinct(listed) && forall s :: s in listed ==> s in w.scenarios
    requires k <= |Changes(w, listed, topology)| && ScenariosWritten(w, u, Changes(w, listed, topology), k)
    ensures OnceDone(w, u, listed, topology, Names(Changes(w, listed, topology)[..k]))
  {
    var changed := Changes(w, listed, topology);
    ChangesAreListed(w, listed, topology);
    forall s | s in listed && s in Names(changed[..k])
      ensures s in u.scenarios && u.scenarios[s] == WithTopology(w.scenarios[s], topology)
    {
      var i :| 0 <= i < |changed[..k]| && changed[..k][i].name == s;
      assert changed[i] in changed[..k] && changed[i] in changed;
    }
  }

  lemma RestAgain(w: World, u: World, listed: seq<string>, topology: string, k: nat)
    requires Distinct(listed) && ValidName(topology) && forall s :: s in listed ==> s in w.scenarios && s in u.scenarios
    requires k <= |Changes(w, listed, topology)|
             && OnceDone(w, u, listed, topology, Names(Changes(w, listed, topology)[..k]))
    ensures Changes(u, listed, topology) == Changes(w, listed, topology)[k..]
  {
    var changed := Changes(w, listed, topology);
    ChangesAreListed(w, listed, topology);
    ChangesOnceDone(w, u, listed, topology, Names(changed[..k]));
    NamesOfPrefix(changed, k);
    WithoutFirst(changed, k, Names(changed[..k]));
  }

  lemma PickedAgain(w: World, u: World, listed: seq<string>, req: Request, done: set<string>)
    requires ValidName(req.topology.name) && forall s :: s in listed ==> s in w.scenarios && s in u.scenarios
    requires OnceDone(w, u, listed, req.topology.name, done)
    ensures Picked(u, listed, req, None) == Picked(w, listed, req, None)
  {
    if req.ScenarioName() in listed {
      AddTopologyAddsOnlyIt(w.scenarios[req.ScenarioName()].topologies, req.topology.name, req.topology.name);
    }
  }

  lemma PlansAre(w: World, d: Draft, req: Request)
    requires PreflightScenarios(w, d, req).Success?
    ensures forall s :: s in d.document.scenarios ==> s in w.scenarios
    ensures PreflightScenarios(w, d, req).value.changed == Changes(w, d.document.scenarios, req.topology.name)
    ensures PreflightScenarios(w, d, req).value.picked == Picked(w, d.document.scenarios, req, None)
  {
    PlanMeaning(w, d.document.scenarios, req, EMPTY_SCENARIO_PLAN);
  }

  lemma ScenarioPreflightAgain(w: World, u: World, d: Draft, req: Request, k: nat)
    requires PreflightScenarios(w, d, req).Success? && Distinct(d.document.scenarios) && ValidName(req.topology.name)
    requires k <= |PreflightScenarios(w, d, req).value.changed|
    requires ScenariosWritten(w, u, PreflightScenarios(w, d, req).value.changed, k)
    ensures PreflightScenarios(u, d, req).Success?
    ensures PreflightScenarios(u, d, req).value.changed == PreflightScenarios(w, d, req).value.changed[k..]
    ensures PreflightScenarios(u, d, req).value.picked == PreflightScenarios(w, d, req).value.picked
  {
    var listed, topology := d.document.scenarios, req.topology.name;
    PlansAre(w, d, req);
    WrittenIsOnceDone(w, u, listed, topology, k);
    PlansAgain(u, d, req);
    RestAgain(w, u, listed, topology, k);
    PickedAgain(w, u, listed, req, Names(Changes(w, listed, topology)[..k]));
  }

  lemma PlansAgain(u: World, d: Draft, req: Request)
    requires (req.ScenarioName() == "" || req.ScenarioName() in d.document.scenarios)
             && forall s :: s in d.document.scenarios ==> s in u.scenarios
    ensures PreflightScenarios(u, d, req).Success?
    ensures PreflightScenarios(u, d, req).value.changed == Changes(u, d.document.scenarios, req.topology.name)
    ensures PreflightScenarios(u, d, req).value.picked == Picked(u, d.document.scenarios, req, None)
  {
    PlanMeaning(u, d.document.scenarios, req, EMPTY_SCENARIO_PLAN);
  }

  lemma PrefixWritten(w: World, changed: seq<ScenarioChange>, k: nat)
    requires k <= |changed| && DistinctChanges(changed)
    ensures ScenariosWritten(w, RunScenarioStage(w, changed[..k], {}).0, changed, k)
  {
    StageWrites(w, changed[..k]);
    forall s | s in w.scenarios && s !in Names(changed[..k])
      ensures forall c :: c in changed[..k] ==> c.name != s
    {
      forall c | c in changed[..k]
        ensures c.name != s
      {
        var i :| 0 <= i < k && changed[..k][i] == c;
        assert c.name in Names(changed[..k]);
      }
    }
  }

  // ---------------------------------------------------------------------------------------------
  // The same request again
  // ---------------------------------------------------------------------------------------------

  // No app touches the two fields that ExperimentApplied compares.
  ghost predicate LeavesTopology(apps: Apps) {
    forall name, body :: apps.configure(name, body).topology == body.topology
           && apps.configure(name, body).aliases == body.aliases
  }

  // A valid request under the draft's current tag, for a document that lists each scenario once.
  predicate Current(w: World, id: string, req: Request, tag: nat) {
    && WellFormed(w) && req.Valid() && id in w.drafts && tag == w.drafts[id].revision
    && Distinct(w.drafts[id].document.scenarios)
  }

  // The last stages read nothing of the plan but the spec, the picked scenario and whether the experiment is applied.
  lemma LastStagesReadPlan(w: World, apps: Apps, d: Draft, req: Request, plan: Plan, plan': Plan, f: Faults)
    requires d.id in w.drafts && req.topology.name in w.topologies
    requires plan.spec == plan'.spec && plan.experimentApplied == plan'.experimentApplied
    requires plan.scenarios.picked == plan'.scenarios.picked
    ensures RunLastStages(w, apps, d, req, plan, f) == RunLastStages(w, apps, d, req, plan', f)
  {
  }

  // The state in which a run of the plan reaches the scenario stage.
  function ReachedScenarios(w: World, d: Draft, req: Request, plan: Plan): World {
    RunTopologyStage(StoreDocument(w, d, req.topology.name), d, req, plan, NO_FAULTS).0
  }

  // The state in which a run of the plan reaches the experiment stage.
  function ReachedExperiment(w: World, d: Draft, req: Request, plan: Plan): World {
    RunScenarioStage(ReachedScenarios(w, d, req, plan), plan.scenarios.changed, {}).0
  }

  lemma CleanRun(w: World, apps: Apps, id: string, req: Request, tag: nat, r: bool)
    requires Current(w, id, req, tag) && Preflight(w, w.drafts[id], req).Success?
    ensures var d, plan := w.drafts[id], Preflight(w, w.drafts[id], req).value;
            var u := ReachedExperiment(w, d, req, plan);
            && d.id in u.drafts && req.topology.name in u.topologies
            && Publish(w, apps, id, req, tag, Clean(r)) == RunLastStages(u, apps, d, req, plan, Clean(r))
  {
    var plan := Preflight(w, w.drafts[id], req).value;
    StageSucceeds(ReachedScenarios(w, w.drafts[id], req, plan), plan.scenarios.changed);
  }

  lemma ReachedProgressed(w: World, d: Draft, req: Request, plan: Plan, k: nat)
    requires k <= |plan.scenarios.changed|
    ensures var u := RunScenarioStage(ReachedScenarios(w, d, req, plan), plan.scenarios.changed[..k], {}).0;
            && Progressed(w, u, d, req.topology.name, plan.spec)
            && (plan.topologyApplied || u.topologies ==
                  w.topologies[req.topology.name := PublishedTopology(w, d, req.topology.name, plan.spec)])
            && (plan.topologyApplied || HoldsWritten(w, u, d, req.topology.name, plan.spec))
  {
  }

  // What preflight finds again: the topology and the first k scenarios are done, and the rest is planned as before.
  predicate PlanOnceDone(plan: Plan, again: Plan, k: nat)
    requires k <= |plan.scenarios.changed|
  {
    && again.spec == plan.spec && again.topologyApplied && again.experimentApplied == plan.experimentApplied
    && again.scenarios.changed == plan.scenarios.changed[k..] && again.scenarios.picked == plan.scenarios.picked
  }

  // The parts of an accepted preflight.
  predicate PlanFor(w: World, d: Draft, req: Request, plan: Plan) {
    && d.document.projection == Some(plan.spec)
    && PreflightTopology(w, d, req.topology) == Success(plan.topologyApplied)
    && PreflightScenarios(w, d, req) == Success(plan.scenarios)
    && (if req.experiment.Some? then PreflightExperiment(w, d, req, plan.spec) == Success(plan.experimentApplied)
        else plan.experimentApplied)
    && (plan.Resuming() || SourceFresh(w, d))
  }

  lemma PreflightInParts(w: World, d: Draft, req: Request, plan: Plan)
    ensures Preflight(w, d, req) == Success(plan) <==> PlanFor(w, d, req, plan)
  {
  }

  lemma ExperimentPreflightReads(w: World, u: World, d: Draft, req: Request, spec: Spec)
    requires u.experiments == w.experiments && req.experiment.Some?
    ensures PreflightExperiment(u, d, req, spec) == PreflightExperiment(w, d, req, spec)
  {
  }

  lemma PreflightAgain(w: World, u: World, d: Draft, req: Request, k: nat)
    requires req.Valid() && Distinct(d.document.scenarios) && Preflight(w, d, req).Success?
    requires !Preflight(w, d, req).value.Resuming()
    requires k <= |Preflight(w, d, req).value.scenarios.changed|
    requires Progressed(w, u, d, req.topology.name, Preflight(w, d, req).value.spec)
    requires Preflight(w, d, req).value.topologyApplied
             || HoldsWritten(w, u, d, req.topology.name, Preflight(w, d, req).value.spec)
    requires TopologyApplied(u, req.topology.name, d.document)
    requires ScenariosWritten(w, u, Preflight(w, d, req).value.scenarios.changed, k)
    ensures Preflight(u, d, req).Success? && PlanOnceDone(Preflight(w, d, req).value, Preflight(u, d, req).value, k)
  {
    var plan := Preflight(w, d, req).value;
    PreflightInParts(w, d, req, plan);
    ScenarioPreflightAgain(w, u, d, req, k);
    SourceStaysFresh(w, u, d, req.topology.name, plan.spec);
    if req.experiment.Some? {
      ExperimentPreflightReads(w, u, d, req, plan.spec);
    }
    assert PreflightTopology(u, d, req.topology) == Success(true);
    PreflightInParts(u, d, req, Plan(plan.spec, true, PreflightScenarios(u, d, req).value, plan.experimentApplied));
  }

  lemma ReachedBySteps(w: World, d: Draft, req: Request, plan: Plan, k: nat)
    requires k <= |plan.scenarios.changed| && DistinctChanges(plan.scenarios.changed)
    ensures var u := RunScenarioStage(ReachedScenarios(w, d, req, plan), plan.scenarios.changed[..k], {}).0;
            ScenariosWritten(w, u, plan.scenarios.changed, k)
  {
    PrefixWritten(ReachedScenarios(w, d, req, plan), plan.scenarios.changed, k);
  }

  // Running a plan of the rest from where the first k scenarios are written reaches the experiment stage alike.
  lemma SameExperimentStage(w: World, u: World, d: Draft, req: Request, plan: Plan, again: Plan, k: nat)
    requires k <= |plan.scenarios.changed| && PlanOnceDone(plan, again, k)
    requires u == RunScenarioStage(ReachedScenarios(w, d, req, plan), plan.scenarios.changed[..k], {}).0
    ensures ReachedExperiment(u, d, req, again) == ReachedExperiment(w, d, req, plan)
  {
    assert StoreDocument(u, d, req.topology.name) == u;
    StageRest(ReachedScenarios(w, d, req, plan), plan.scenarios.changed, k);
  }

  lemma PlanChangesDistinct(w: World, d: Draft, req: Request)
    requires Distinct(d.document.scenarios) && Preflight(w, d, req).Success?
    ensures DistinctChanges(Preflight(w, d, req).value.scenarios.changed)
  {
    PlanMeaning(w, d.document.scenarios, req, EMPTY_SCENARIO_PLAN);
    ChangesAreListed(w, d.document.scenarios, req.topology.name);
  }

  /** A resumed run, from any point at which the first k scenarios are written and the experiment is untouched:
      preflight passes again, and the run ends exactly as the first one would have. */
  lemma ResumeBeforeExperiment(w: World, apps: Apps, id: string, req: Request, tag: nat, r: bool, k: nat)
    requires Current(w, id, req, tag) && Preflight(w, w.drafts[id], req).Success?
    requires k <= |Preflight(w, w.drafts[id], req).value.scenarios.changed|
    requires !Preflight(w, w.drafts[id], req).value.Resuming()
    ensures var d, plan := w.drafts[id], Preflight(w, w.drafts[id], req).value;
            var u := RunScenarioStage(ReachedScenarios(w, d, req, plan), plan.scenarios.changed[..k], {}).0;
            WellFormed(u) && Publish(u, apps, id, req, tag, Clean(r)) == Publish(w, apps, id, req, tag, Clean(r))
  {
    var d, plan := w.drafts[id], Preflight(w, w.drafts[id], req).value;
    var u := RunScenarioStage(ReachedScenarios(w, d, req, plan), plan.scenarios.changed[..k], {}).0;
    ReachedProgressed(w, d, req, plan, k);
    WrittenTopologyApplied(w, u, d, req.topology.name, plan.spec);
    PlanChangesDistinct(w, d, req);
    ReachedBySteps(w, d, req, plan, k);
    PreflightAgain(w, u, d, req, k);
    var again := Preflight(u, d, req).value;
    SameExperimentStage(w, u, d, req, plan, again, k);
    CleanRun(w, apps, id, req, tag, r);
    CleanRun(u, apps, id, req, tag, r);
    LastStagesReadPlan(ReachedExperiment(w, d, req, plan), apps, d, req, plan, again, Clean(r));
  }

  lemma WrittenTopologyApplied(w: World, u: World, d: Draft, name: string, spec: Spec)
    requires Progressed(w, u, d, name, spec)
    ensures TopologyApplied(w, name, d.document) ==> TopologyApplied(u, name, d.document)
    ensures u.topologies == w.topologies[name := PublishedTopology(w, d, name, spec)] ==>
              TopologyApplied(u, name, d.document)
  {
  }

  // Running the first k changes and then the rest is running them all.
  lemma {:induction false} StageRest(w: World, changed: seq<ScenarioChange>, k: nat)
    requires k <= |changed|
    ensures RunScenarioStage(RunScenarioStage(w, changed[..k], {}).0, changed[k..], {}) ==
              RunScenarioStage(w, changed, {})
    decreases k
  {
    if k == 0 {
      assert changed[k..] == changed;
    } else {
      StageRest(WriteScenario(w, changed[0]), changed[1..], k - 1);
      assert changed[..k][1..] == changed[1..][..k - 1];
      assert changed[k..] == changed[1..][k - 1..];
    }
  }

  // ---------------------------------------------------------------------------------------------
  // Each point of failure
  // ---------------------------------------------------------------------------------------------

  // Nothing but the document is stored: preflight decides again as it did.
  lemma ResumeAfterTopologyFailure(w: World, apps: Apps, id: string, req: Request, tag: nat, r: bool)
    requires Current(w, id, req, tag) && Preflight(w, w.drafts[id], req).Success?
    requires !Preflight(w, w.drafts[id], req).value.topologyApplied && !OnlyInFile(w, w.drafts[id], req.topology.name)
    ensures var u := StoreDocument(w, w.drafts[id], req.topology.name);
            WellFormed(u) && Publish(u, apps, id, req, tag, Clean(r)) == Publish(w, apps, id, req, tag, Clean(r))
  {
    var d, plan := w.drafts[id], Preflight(w, w.drafts[id], req).value;
    var u := StoreDocument(w, d, req.topology.name);
    TopologyPreflightAgain(w, u, d, req.topology, plan.spec);
    SourceStaysFresh(w, u, d, req.topology.name, plan.spec);
    PlanMeaning(w, d.document.scenarios, req, EMPTY_SCENARIO_PLAN);
    ScenariosReadOnly(w, u, d.document.scenarios, req, EMPTY_SCENARIO_PLAN);
    assert Preflight(u, d, req) == Preflight(w, d, req);
    assert StoreDocument(u, d, req.topology.name) == u;
  }

  lemma {:induction false} ScenariosReadOnly(w: World, u: World, listed: seq<string>, req: Request, plan: ScenarioPlan)
    requires u.scenarios == w.scenarios
    ensures PlanScenarios(u, listed, req, plan) == PlanScenarios(w, listed, req, plan)
    decreases |listed|
  {
    if listed != [] && listed[0] in w.scenarios {
      ScenariosReadOnly(w, u, listed[1..], req, PlanScenario(w.scenarios[listed[0]], listed[0], req, plan));
    }
  }

  // A failed experiment stage leaves the experiment as it was, and only the log shows an update that was undone. When
  // the update cannot be undone either, the experiment stays updated without its configure stage.
  predicate LeftByExperimentStage(w: World, u: World, d: Draft, req: Request, plan: Plan, f: Faults) {
    || u == w
    || (f.configure && !f.restore && u == w.(writes := u.writes))
    || (f.configure && f.restore && StaysUpdated(w, u, d, req, plan))
  }

  predicate StaysUpdated(w: World, u: World, d: Draft, req: Request, plan: Plan) {
    var name := req.ExperimentName();
    && req.experiment.Some? && req.experiment.value.action.Update? && name in w.experiments
       && !w.experiments[name].running
    && u == WriteExperiment(w, name, UpdatedExperiment(w.experiments[name], d, req, plan))
  }

  lemma FailedExperimentStage(w: World, apps: Apps, d: Draft, req: Request, plan: Plan, f: Faults)
    requires req.topology.name in w.topologies && Quiet(f)
    requires !RunExperimentStage(w, apps, d, req, plan, f).1
    ensures LeftByExperimentStage(w, RunExperimentStage(w, apps, d, req, plan, f).0, d, req, plan, f)
  {
    var name := req.ExperimentName();
    if !f.lock && req.experiment.value.action.Update? && name in w.experiments && f.configure && !f.experiment
       && !w.experiments[name].running {
      var e := w.experiments[name];
      var updated := UpdatedExperiment(e, d, req, plan);
      assert w.experiments[name := updated][name := e] == w.experiments;
    }
  }

  // Two worlds that differ in their logs only.
  predicate SameButLog(w: World, u: World) {
    u == w.(writes := u.writes)
  }

  // Two outcomes are the same, in worlds that differ in their logs only.
  predicate SameOutcome<T(==)>(a: (World, T), b: (World, T)) {
    a.1 == b.1 && SameButLog(a.0, b.0)
  }

  lemma TopologyStageIgnoresLog(w: World, u: World, d: Draft, req: Request, plan: Plan, f: Faults)
    requires SameButLog(w, u)
    ensures SameOutcome(RunTopologyStage(StoreDocument(w, d, req.topology.name), d, req, plan, f),
                        RunTopologyStage(StoreDocument(u, d, req.topology.name), d, req, plan, f))
  {
  }

  lemma {:induction false} ScenarioStageIgnoresLog(w: World, u: World, changed: seq<ScenarioChange>,
                                                   failing: set<string>)
    requires SameButLog(w, u)
    ensures SameOutcome(RunScenarioStage(w, changed, failing), RunScenarioStage(u, changed, failing))
    decreases |changed|
  {
    if changed != [] {
      ScenarioStageIgnoresLog(WriteScenario(w, changed[0]), WriteScenario(u, changed[0]), changed[1..], failing);
    }
  }

  lemma ExperimentStageIgnoresLog(w: World, u: World, apps: Apps, d: Draft, req: Request, plan: Plan, f: Faults)
    requires req.topology.name in w.topologies && SameButLog(w, u)
    ensures SameOutcome(RunExperimentStage(w, apps, d, req, plan, f), RunExperimentStage(u, apps, d, req, plan, f))
  {
    var a, b := w.(experiments := Met(w, f)), u.(experiments := Met(u, f));
    CreateIgnoresLog(a, b, apps, d, req, plan, f);
    UpdateIgnoresLog(a, b, apps, d, req, plan, f);
  }

  lemma CreateIgnoresLog(w: World, u: World, apps: Apps, d: Draft, req: Request, plan: Plan, f: Faults)
    requires req.topology.name in w.topologies && SameButLog(w, u)
    ensures SameOutcome(CreateExperiment(w, apps, d, req, plan, f), CreateExperiment(u, apps, d, req, plan, f))
  {
  }

  lemma UpdateIgnoresLog(w: World, u: World, apps: Apps, d: Draft, req: Request, plan: Plan, f: Faults)
    requires SameButLog(w, u)
    ensures SameOutcome(UpdateExperiment(w, apps, d, req, plan, f), UpdateExperiment(u, apps, d, req, plan, f))
  {
  }

  lemma DraftStageIgnoresLog(w: World, u: World, d: Draft, req: Request, f: Faults)
    requires d.id in w.drafts && SameButLog(w, u)
    ensures SameOutcome(RunDraftStage(w, d, req, f), RunDraftStage(u, d, req, f))
  {
    var a, b := SaveDraft(w, d.id, f.save), SaveDraft(u, d.id, f.save);
    assert SameButLog(a, b);
    assert SameOutcome(MarkPublished(a, d, req, f.draft), MarkPublished(b, d, req, f.draft));
  }

  lemma LastStagesIgnoreLog(w: World, u: World, apps: Apps, d: Draft, req: Request, plan: Plan, f: Faults)
    requires d.id in w.drafts && req.topology.name in w.topologies && SameButLog(w, u)
    ensures SameOutcome(RunLastStages(w, apps, d, req, plan, f), RunLastStages(u, apps, d, req, plan, f))
  {
    ExperimentStageIgnoresLog(w, u, apps, d, req, plan, f);
    var a, b := RunExperimentStage(w, apps, d, req, plan, f), RunExperimentStage(u, apps, d, req, plan, f);
    if a.1 {
      DraftStageIgnoresLog(a.0, b.0, d, req, f);
    }
  }

  lemma LaterStagesIgnoreLog(w: World, u: World, apps: Apps, d: Draft, req: Request, plan: Plan, f: Faults)
    requires d.id in w.drafts && req.topology.name in w.topologies && SameButLog(w, u)
    ensures SameOutcome(RunLaterStages(w, apps, d, req, plan, f), RunLaterStages(u, apps, d, req, plan, f))
  {
    ScenarioStageIgnoresLog(w, u, plan.scenarios.changed, f.scenarios);
    var a, b := RunScenarioStage(w, plan.scenarios.changed, f.scenarios),
                RunScenarioStage(u, plan.scenarios.changed, f.scenarios);
    if a.1 {
      LastStagesIgnoreLog(a.0, b.0, apps, d, req, plan, f);
    }
  }

  lemma StagesIgnoreLog(w: World, u: World, apps: Apps, d: Draft, req: Request, plan: Plan, f: Faults)
    requires d.id in w.drafts && SameButLog(w, u) && (plan.topologyApplied ==> req.topology.name in w.topologies)
    ensures SameOutcome(RunStages(w, apps, d, req, plan, f), RunStages(u, apps, d, req, plan, f))
  {
    TopologyStageIgnoresLog(w, u, d, req, plan, f);
    var a, b := RunTopologyStage(StoreDocument(w, d, req.topology.name), d, req, plan, f),
                RunTopologyStage(StoreDocument(u, d, req.topology.name), d, req, plan, f);
    if !f.document && a.1 {
      LaterStagesIgnoreLog(a.0, b.0, apps, d, req, plan, f);
    }
  }

  lemma PreflightIgnoresLog(w: World, u: World, d: Draft, req: Request)
    requires SameButLog(w, u)
    ensures Preflight(u, d, req) == Preflight(w, d, req)
  {
    ScenariosReadOnly(w, u, d.document.scenarios, req, EMPTY_SCENARIO_PLAN);
    assert PreflightTopology(u, d, req.topology) == PreflightTopology(w, d, req.topology);
    assert SourceFresh(u, d) == SourceFresh(w, d);
  }

  /** The log of writes decides nothing, whatever the request is and whatever fails. */
  lemma PublishIgnoresLog(w: World, u: World, apps: Apps, id: string, req: Request, tag: nat, f: Faults)
    requires WellFormed(w) && SameButLog(w, u)
    ensures WellFormed(u)
    ensures SameOutcome(Publish(w, apps, id, req, tag, f), Publish(u, apps, id, req, tag, f))
  {
    if req.Valid() && id in w.drafts && tag == w.drafts[id].revision {
      var d := w.drafts[id];
      PreflightIgnoresLog(w, u, d, req);
      if Preflight(w, d, req).Success? {
        StagesIgnoreLog(w, u, apps, d, req, Preflight(w, d, req).value, f);
      }
    }
  }

  // Everything up to the scenarios is done. u may differ from that state in the log only.
  lemma ResumeAfterExperimentFailure(w: World, u: World, apps: Apps, id: string, req: Request, tag: nat, r: bool)
    requires Current(w, id, req, tag) && Preflight(w, w.drafts[id], req).Success?
    requires !Preflight(w, w.drafts[id], req).value.Resuming()
    requires SameButLog(ReachedExperiment(w, w.drafts[id], req, Preflight(w, w.drafts[id], req).value), u)
    ensures WellFormed(u)
    ensures var again, whole := Publish(u, apps, id, req, tag, Clean(r)), Publish(w, apps, id, req, tag, Clean(r));
            again.1 == whole.1 && SameButLog(whole.0, again.0)
  {
    var d, plan := w.drafts[id], Preflight(w, w.drafts[id], req).value;
    var changed, reached := plan.scenarios.changed, ReachedExperiment(w, d, req, plan);
    assert changed[..|changed|] == changed;
    ReachedProgressed(w, d, req, plan, |changed|);
    WrittenTopologyApplied(w, reached, d, req.topology.name, plan.spec);
    PlanChangesDistinct(w, d, req);
    ReachedBySteps(w, d, req, plan, |changed|);
    PreflightAgain(w, reached, d, req, |changed|);
    ResumeBeforeExperiment(w, apps, id, req, tag, r, |changed|);
    PublishIgnoresLog(reached, u, apps, id, req, tag, Clean(r));
  }

  // An experiment stage that succeeds met no fault but a failed record.
  lemma SuccessIsClean(w: World, apps: Apps, d: Draft, req: Request, plan: Plan, f: Faults)
    requires req.topology.name in w.topologies && Quiet(f) && RunExperimentStage(w, apps, d, req, plan, f).1
    ensures RunExperimentStage(w, apps, d, req, plan, f) == RunExperimentStage(w, apps, d, req, plan, Clean(f.record))
  {
  }

  // Once every config holds the publication, preflight finds nothing left to write, and does not look at the source.
  lemma PreflightWhenDone(w: World, u: World, d: Draft, req: Request)
    requires req.Valid() && Distinct(d.document.scenarios) && Preflight(w, d, req).Success?
    requires TopologyApplied(u, req.topology.name, d.document)
    requires ScenariosWritten(w, u, Preflight(w, d, req).value.scenarios.changed,
                              |Preflight(w, d, req).value.scenarios.changed|)
    requires req.experiment.Some? ==> ExperimentApplied(u, d, req, Preflight(w, d, req).value.spec)
    ensures Preflight(u, d, req).Success? && Preflight(u, d, req).value.Resuming()
  {
    ScenarioPreflightAgain(w, u, d, req, |Preflight(w, d, req).value.scenarios.changed|);
    assert PreflightTopology(u, d, req.topology) == Success(true);
    assert req.experiment.Some? ==> PreflightExperiment(u, d, req, Preflight(w, d, req).value.spec) == Success(true);
  }

  lemma ReachedFacts(w: World, d: Draft, req: Request, plan: Plan)
    requires req.Valid() && Distinct(d.document.scenarios) && Preflight(w, d, req) == Success(plan)
    ensures var reached := ReachedExperiment(w, d, req, plan);
            && Progressed(w, reached, d, req.topology.name, plan.spec)
            && TopologyApplied(reached, req.topology.name, d.document)
            && ScenariosWritten(w, reached, plan.scenarios.changed, |plan.scenarios.changed|)
            && (TopologyApplied(w, req.topology.name, d.document)
                || reached.topologies[req.topology.name].spec == plan.spec)
  {
    var changed := plan.scenarios.changed;
    assert changed[..|changed|] == changed;
    ReachedProgressed(w, d, req, plan, |changed|);
    WrittenTopologyApplied(w, ReachedExperiment(w, d, req, plan), d, req.topology.name, plan.spec);
    PlanChangesDistinct(w, d, req);
    ReachedBySteps(w, d, req, plan, |changed|);
  }

  lemma ResumeWhenDone(w: World, apps: Apps, id: string, req: Request, tag: nat, r: bool)
    requires Current(w, id, req, tag) && Preflight(w, w.drafts[id], req).Success?
    requires Preflight(w, w.drafts[id], req).value.Resuming()
    requires StoredFor(w, w.drafts[id], req.topology.name)
    ensures Publish(w, apps, id, req, tag, Clean(r)) == RunDraftStage(w, w.drafts[id], req, NO_FAULTS)
  {
    assert StoreDocument(w, w.drafts[id], req.topology.name) == w;
  }

  predicate StoredFor(w: World, d: Draft, name: string) {
    DocId(name, d.document) in w.published && w.published[DocId(name, d.document)].intact
  }

  lemma MarksAfterCleanRun(w: World, apps: Apps, id: string, req: Request, tag: nat, r: bool)
    requires Current(w, id, req, tag) && Preflight(w, w.drafts[id], req).Success?
    requires var d, plan := w.drafts[id], Preflight(w, w.drafts[id], req).value;
             var u := ReachedExperiment(w, d, req, plan);
             req.topology.name in u.topologies && RunExperimentStage(u, apps, d, req, plan, Clean(r)).1
    ensures var d, plan := w.drafts[id], Preflight(w, w.drafts[id], req).value;
            var u := RunExperimentStage(ReachedExperiment(w, d, req, plan), apps, d, req, plan, Clean(r)).0;
            id in u.drafts && Publish(w, apps, id, req, tag, Clean(r)) == RunDraftStage(u, d, req, NO_FAULTS)
  {
    CleanRun(w, apps, id, req, tag, r);
  }

  // Every config of the publication is written, and the document is stored.
  predicate ConfigsDone(w: World, u: World, d: Draft, req: Request, plan: Plan) {
    && u.drafts == w.drafts && StoredFor(u, d, req.topology.name) && TopologyApplied(u, req.topology.name, d.document)
    && ScenariosWritten(w, u, plan.scenarios.changed, |plan.scenarios.changed|)
  }

  lemma ConfigsDoneAfterExperiment(w: World, u: World, d: Draft, req: Request, plan: Plan)
    requires req.Valid() && Distinct(d.document.scenarios) && Preflight(w, d, req) == Success(plan)
    requires var reached := ReachedExperiment(w, d, req, plan);
             u == reached.(experiments := u.experiments, writes := u.writes)
    ensures ConfigsDone(w, u, d, req, plan)
  {
    ReachedFacts(w, d, req, plan);
  }

  // Every stage but the draft mark is done, so the request only marks the draft.
  lemma ResumeAfterDraftFailure(w: World, apps: Apps, id: string, req: Request, tag: nat, f: Faults, r: bool)
    requires Current(w, id, req, tag) && Preflight(w, w.drafts[id], req).Success? && Quiet(f)
    requires var d, plan := w.drafts[id], Preflight(w, w.drafts[id], req).value;
             var reached := ReachedExperiment(w, d, req, plan);
             && req.topology.name in reached.topologies && RunExperimentStage(reached, apps, d, req, plan, f).1
             && (req.experiment.Some? ==>
                   ExperimentApplied(RunExperimentStage(reached, apps, d, req, plan, f).0, d, req, plan.spec))
    ensures var d, plan := w.drafts[id], Preflight(w, w.drafts[id], req).value;
            var u := RunExperimentStage(ReachedExperiment(w, d, req, plan), apps, d, req, plan, f).0;
            WellFormed(u) && Publish(u, apps, id, req, tag, Clean(r)) == Publish(w, apps, id, req, tag, Clean(f.record))
  {
    var d, plan := w.drafts[id], Preflight(w, w.drafts[id], req).value;
    var reached := ReachedExperiment(w, d, req, plan);
    var u := RunExperimentStage(reached, apps, d, req, plan, f).0;
    SuccessIsClean(reached, apps, d, req, plan, f);
    ConfigsDoneAfterExperiment(w, u, d, req, plan);
    PreflightWhenDone(w, u, d, req);
    ResumeWhenDone(u, apps, id, req, tag, r);
    MarksAfterCleanRun(w, apps, id, req, tag, f.record);
  }

  // ---------------------------------------------------------------------------------------------
  // Main results
  // ---------------------------------------------------------------------------------------------

  // u is what a publication that failed at the stage left.
  ghost predicate LeftBy(w: World, u: World, apps: Apps, d: Draft, req: Request, plan: Plan, f: Faults, stage: Stage) {
    var reached := ReachedExperiment(w, d, req, plan);
    match stage
    case TopologyStage => !plan.topologyApplied && u == StoreDocument(w, d, req.topology.name)
    case ScenarioStage =>
      && plan.scenarios.changed != []
      && exists k :: 0 <= k <= |plan.scenarios.changed| &&
           u == RunScenarioStage(ReachedScenarios(w, d, req, plan), plan.scenarios.changed[..k], {}).0
    case ExperimentStage => !plan.experimentApplied && LeftByExperimentStage(reached, u, d, req, plan, f)
    case DraftStage =>
      && req.topology.name in reached.topologies
      && RunExperimentStage(reached, apps, d, req, plan, f) == (u, true)
  }

  lemma FailedLastStages(w: World, apps: Apps, d: Draft, req: Request, plan: Plan, f: Faults)
    requires d.id in w.drafts && req.topology.name in w.topologies && Quiet(f)
    requires RunLastStages(w, apps, d, req, plan, f).1.Partial?
    ensures var ((u, outcome), (e, ok)) :=
              (RunLastStages(w, apps, d, req, plan, f), RunExperimentStage(w, apps, d, req, plan, f));
            && u == e
            && (if ok then outcome.stage == DraftStage
                else outcome.stage == ExperimentStage && !plan.experimentApplied
                     && LeftByExperimentStage(w, e, d, req, plan, f))
  {
    var (e, ok) := RunExperimentStage(w, apps, d, req, plan, f);
    if !ok {
      FailedExperimentStage(w, apps, d, req, plan, f);
    } else {
      assert SaveDraft(e, d.id, f.save) == e;
    }
  }

  lemma FailedRun(w: World, apps: Apps, id: string, req: Request, tag: nat, f: Faults)
    requires Current(w, id, req, tag) && Quiet(f) && Publish(w, apps, id, req, tag, f).1.Partial?
    ensures Preflight(w, w.drafts[id], req).Success?
    ensures var (u, outcome) := Publish(w, apps, id, req, tag, f);
            LeftBy(w, u, apps, w.drafts[id], req, Preflight(w, w.drafts[id], req).value, f, outcome.stage)
  {
    FailedStages(w, apps, w.drafts[id], req, Preflight(w, w.drafts[id], req).value, f);
  }

  lemma FailedStages(w: World, apps: Apps, d: Draft, req: Request, plan: Plan, f: Faults)
    requires d.id in w.drafts && (plan.topologyApplied ==> req.topology.name in w.topologies) && Quiet(f)
    requires RunStages(w, apps, d, req, plan, f).1.Partial?
    ensures var (u, outcome) := RunStages(w, apps, d, req, plan, f);
            LeftBy(w, u, apps, d, req, plan, f, outcome.stage)
  {
    var stored := StoreDocument(w, d, req.topology.name);
    if RunTopologyStage(stored, d, req, plan, f).1 {
      var reached := ReachedScenarios(w, d, req, plan);
      assert RunTopologyStage(stored, d, req, plan, f).0 == reached;
      var k := StageStopsAt(reached, plan.scenarios.changed, f.scenarios);
      if k == |plan.scenarios.changed| {
        assert plan.scenarios.changed[..k] == plan.scenarios.changed;
        FailedLastStages(ReachedExperiment(w, d, req, plan), apps, d, req, plan, f);
      }
    }
  }

  lemma LastStagesComplete(w: World, apps: Apps, d: Draft, req: Request, plan: Plan, r: bool)
    requires d.id in w.drafts && w.drafts[d.id] == d && req.topology.name in w.topologies
    requires req.experiment.Some? ==> PreflightExperiment(w, d, req, plan.spec) == Success(plan.experimentApplied)
    ensures RunLastStages(w, apps, d, req, plan, Clean(r)).1 == Completed
  {
    assert RunExperimentStage(w, apps, d, req, plan, Clean(r)).1;
  }

  // A publication that passes preflight and meets no fault completes.
  lemma UninterruptedCompletes(w: World, apps: Apps, id: string, req: Request, tag: nat, r: bool)
    requires Current(w, id, req, tag) && Preflight(w, w.drafts[id], req).Success?
    ensures Publish(w, apps, id, req, tag, Clean(r)).1 == Completed
  {
    var d, plan := w.drafts[id], Preflight(w, w.drafts[id], req).value;
    var reached := ReachedExperiment(w, d, req, plan);
    CleanRun(w, apps, id, req, tag, r);
    PreflightInParts(w, d, req, plan);
    assert reached.experiments == w.experiments && reached.drafts == w.drafts;
    if req.experiment.Some? {
      ExperimentPreflightReads(w, reached, d, req, plan.spec);
    }
    LastStagesComplete(reached, apps, d, req, plan, r);
  }

  /** What a run that failed must have left for the request to be resumed:
      - after a failed topology stage, the topology did not name the document just in a file;
      - after a failed experiment stage, no update is left that could not be undone;
      - after a failed draft mark, the experiment counts as applied.
      PublishResumeLimits shows what happens otherwise. */
  predicate Resumable(w: World, u: World, d: Draft, req: Request, stage: Stage) {
    match stage
    case TopologyStage => !OnlyInFile(w, d, req.topology.name)
    case ScenarioStage => true
    case ExperimentStage => u.experiments == w.experiments
    case DraftStage => req.experiment.Some? && d.document.projection.Some? ==>
           ExperimentApplied(u, d, req, d.document.projection.value)
  }

  // Whether the record of the publisher is missing in the end: it fails in the run whose experiment stage succeeds.
  function RecordFails(f: Faults, stage: Stage, r: bool): bool {
    if stage == DraftStage then f.record else r
  }

  /** Resume converges: after a failure at any stage, the same request under the same tag ends exactly as an
      uninterrupted publication, with the same configs, documents and draft. Unless a configure stage failed and its
      update was undone, even the log of config writes is the same, so nothing is written twice. */
  lemma ResumeConverges(w: World, apps: Apps, id: string, req: Request, tag: nat, f: Faults, r: bool)
    requires Current(w, id, req, tag) && Quiet(f) && Publish(w, apps, id, req, tag, f).1.Partial?
    requires var (u, outcome) := Publish(w, apps, id, req, tag, f); Resumable(w, u, w.drafts[id], req, outcome.stage)
    ensures var (u, outcome) := Publish(w, apps, id, req, tag, f);
            && Current(u, id, req, tag)
            && var again, whole := Publish(u, apps, id, req, tag, Clean(r)),
                                   Publish(w, apps, id, req, tag, Clean(RecordFails(f, outcome.stage, r)));
               && again.1 == whole.1 == Completed
               && SameButLog(whole.0, again.0)
               && (!f.configure ==> again == whole)
  {
    FailedRun(w, apps, id, req, tag, f);
    var (u, outcome) := Publish(w, apps, id, req, tag, f);
    LeftKeepsDrafts(w, u, apps, w.drafts[id], req, Preflight(w, w.drafts[id], req).value, f, outcome.stage);
    ResumeFrom(w, u, apps, id, req, tag, f, outcome.stage, r);
    UninterruptedCompletes(w, apps, id, req, tag, RecordFails(f, outcome.stage, r));
  }

  // A failed run leaves the drafts alone, so its tag stays current.
  lemma LeftKeepsDrafts(w: World, u: World, apps: Apps, d: Draft, req: Request, plan: Plan, f: Faults, stage: Stage)
    requires LeftBy(w, u, apps, d, req, plan, f, stage)
    ensures u.drafts == w.drafts
  {
  }

  // An update that could not be undone shows in the experiment.
  lemma UpdateIsSeen(w: World, u: World, d: Draft, req: Request, plan: Plan, f: Faults)
    requires Preflight(w, d, req) == Success(plan) && !plan.experimentApplied
    requires LeftByExperimentStage(ReachedExperiment(w, d, req, plan), u, d, req, plan, f)
             && u.experiments == w.experiments
    ensures !StaysUpdated(ReachedExperiment(w, d, req, plan), u, d, req, plan)
  {
    PreflightInParts(w, d, req, plan);
    var name := req.ExperimentName();
    if StaysUpdated(ReachedExperiment(w, d, req, plan), u, d, req, plan) {
      assert u.experiments[name].topology == req.topology.name;
      assert ExperimentApplied(w, d, req, plan.spec);
      assert false;
    }
  }

  // The resumed run, from what a failure at the stage left.
  lemma ResumeFrom(w: World, u: World, apps: Apps, id: string, req: Request, tag: nat, f: Faults, stage: Stage, r: bool)
    requires Current(w, id, req, tag) && Current(u, id, req, tag) && Quiet(f)
             && Preflight(w, w.drafts[id], req).Success?
    requires LeftBy(w, u, apps, w.drafts[id], req, Preflight(w, w.drafts[id], req).value, f, stage)
    requires Resumable(w, u, w.drafts[id], req, stage)
    ensures var again, whole := Publish(u, apps, id, req, tag, Clean(r)),
            Publish(w, apps, id, req, tag, Clean(RecordFails(f, stage, r)));
            again.1 == whole.1 && SameButLog(whole.0, again.0) && (!f.configure ==> again == whole)
  {
    var d, plan := w.drafts[id], Preflight(w, w.drafts[id], req).value;
    match stage
    case TopologyStage =>
      ResumeAfterTopologyFailure(w, apps, id, req, tag, r);
    case ScenarioStage =>
      var k :| 0 <= k <= |plan.scenarios.changed| &&
               u == RunScenarioStage(ReachedScenarios(w, d, req, plan), plan.scenarios.changed[..k], {}).0;
      ResumeBeforeExperiment(w, apps, id, req, tag, r, k);
    case ExperimentStage =>
      UpdateIsSeen(w, u, d, req, plan, f);
      ResumeAfterExperimentFailure(w, u, apps, id, req, tag, r);
      if u == ReachedExperiment(w, d, req, plan) {
        assert plan.scenarios.changed[..|plan.scenarios.changed|] == plan.scenarios.changed;
        ResumeBeforeExperiment(w, apps, id, req, tag, r, |plan.scenarios.changed|);
      }
    case DraftStage =>
      PreflightInParts(w, d, req, plan);
      ResumeAfterDraftFailure(w, apps, id, req, tag, f, r);
  }
}
