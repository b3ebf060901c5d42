/**
 A tag does not admit just one completed publication: a request that the draft already records completes again, without
 a new tag, and then another request can complete under the same one.
 */
module PublishTags {
  import opened Wrappers
  import opened Annotations
  import opened PublishModel
  import opened PublishResume
  import opened PublishRuns

  // The request that creates a topology from the draft, and nothing else.
  function ToTopology(name: string): Request {
    Request(TopologyOnly, Target(name, Create), None, None)
  }

  // A draft that was not imported and lists no scenarios, with a document that projects.
  predicate Plain(w: World, d: Draft) {
    && WellFormed(w) && d.id in w.drafts && w.drafts[d.id] == d && d.revision > 0
    && d.document.scenarios == [] && d.document.source.Manual? && d.document.projection.Some?
  }

  // The world after the publication of a plain draft to a new topology.
  function Created(w: World, d: Draft, name: string): World
    requires Plain(w, d)
  {
    var written := WriteTopology(StoreDocument(w, d, name), name,
                                 PublishedTopology(w, d, name, d.document.projection.value));
    SetDraft(written, d.(publication := Some(NewPublication(d, ToTopology(name)))))
  }

  lemma NothingSuperseded(w: World, keep: DocId)
    ensures DeleteSuperseded(w, keep, {}) == w
  {
    assert DeleteSuperseded(w, keep, {}).published == w.published;
  }

  lemma PlainPlan(w: World, d: Draft, name: string)
    requires Plain(w, d) && (name in w.topologies ==> TopologyApplied(w, name, d.document))
    ensures Preflight(w, d, ToTopology(name)) ==
            Success(Plan(d.document.projection.value, name in w.topologies, EMPTY_SCENARIO_PLAN, true))
  {
    assert PreflightTopology(w, d, ToTopology(name).topology) == Success(name in w.topologies);
    PreflightInParts(w, d, ToTopology(name),
                     Plan(d.document.projection.value, name in w.topologies, EMPTY_SCENARIO_PLAN, true));
  }

  lemma CreatesTopology(w: World, apps: Apps, d: Draft, name: string)
    requires Plain(w, d) && ValidName(name) && name !in w.topologies && !AlreadyRecords(d, ToTopology(name))
    ensures Publish(w, apps, d.id, ToTopology(name), d.revision, NO_FAULTS) == (Created(w, d, name), Completed)
  {
    PlainPlan(w, d, name);
    var plan := Plan(d.document.projection.value, false, EMPTY_SCENARIO_PLAN, true);
    var written := WriteTopology(StoreDocument(w, d, name), name, PublishedTopology(w, d, name, plan.spec));
    assert RunStages(w, apps, d, ToTopology(name), plan, NO_FAULTS) ==
             RunDraftStage(written, d, ToTopology(name), NO_FAULTS);
    MarksAsNew(written, d, name);
  }

  lemma MarksAsNew(w: World, d: Draft, name: string)
    requires d.id in w.drafts && w.drafts[d.id] == d && !AlreadyRecords(d, ToTopology(name))
    ensures RunDraftStage(w, d, ToTopology(name), NO_FAULTS) ==
            (SetDraft(w, d.(publication := Some(NewPublication(d, ToTopology(name))))), Completed)
  {
    NothingSuperseded(SetDraft(w, d.(publication := Some(NewPublication(d, ToTopology(name))))),
                      DocId(name, d.document));
  }

  // A publication that the draft records, with its topology in place, changes nothing and completes.
  lemma CompletesAgain(w: World, apps: Apps, d: Draft, name: string)
    requires Plain(w, d) && ValidName(name) && AlreadyRecords(d, ToTopology(name))
    requires TopologyApplied(w, name, d.document) && StoredFor(w, d, name)
    ensures Publish(w, apps, d.id, ToTopology(name), d.revision, NO_FAULTS) == (w, Completed)
  {
    PlainPlan(w, d, name);
    ResumeWhenDone(w, apps, d.id, ToTopology(name), d.revision, false);
    assert Clean(false) == NO_FAULTS;
    NothingSuperseded(w, DocId(name, d.document));
  }

  // What the publication to a new topology leaves.
  lemma CreatedFacts(w: World, d: Draft, name: string)
    requires Plain(w, d) && name !in w.topologies
    ensures var one := Created(w, d, name);
            && d.id in one.drafts && one.topologies.Keys == w.topologies.Keys + {name}
            && var now := one.drafts[d.id];
               && Plain(one, now) && now.id == d.id && now.revision == w.revisions + 1
               && now.publication == Some(NewPublication(d, ToTopology(name))) && AlreadyRecords(now, ToTopology(name))
               && TopologyApplied(one, name, now.document) && StoredFor(one, now, name)
  {
  }

  function StepTo(id: string, topology: string, tag: nat): Step {
    PublishStep(id, ToTopology(topology), tag, NO_FAULTS)
  }

  // Twice to t, under two tags, and then to u under the second tag.
  predicate ThreeSteps(steps: seq<Step>, id: string, first: nat, second: nat, t: string, u: string) {
    |steps| == 3 && steps[0] == StepTo(id, t, first) && steps[1] == StepTo(id, t, second)
    && steps[2] == StepTo(id, u, second)
  }

  /**
   From every state of a run: publish a new plain draft to t, publish it to t again under the new tag, and publish it to
   u under that same tag. All three complete, and the last one writes. Of the two under one tag, only the last is
   recorded.
   */
  lemma TwoCompleteUnderOneTag(r: Run, apps: Apps, d: Draft, t: string, u: string, steps: seq<Step>)
    requires Plain(r.w, d) && d.publication.None? && t != u && ValidName(t) && ValidName(u)
    requires t !in r.w.topologies && u !in r.w.topologies
    requires ThreeSteps(steps, d.id, d.revision, r.w.revisions + 1, t, u)
    ensures var second := r.w.revisions + 1;
            var end := Execute(r, apps, steps);
            && u in end.w.topologies
            && end.completions == r.completions + [Completion(d.id, d.revision, ToTopology(t), true),
                                                   Completion(d.id, second, ToTopology(t), false),
                                                   Completion(d.id, second, ToTopology(u), true)]
  {
    var next, now := CreatesFreshly(r, apps, d, t, u, steps);
    LastTwo(next, apps, now, t, u, steps[1..]);
    Regroup(r.completions, Completion(d.id, d.revision, ToTopology(t), true),
            Completion(now.id, now.revision, ToTopology(t), false),
            Completion(now.id, now.revision, ToTopology(u), true));
  }

  lemma Regroup(done: seq<Completion>, a: Completion, b: Completion, c: Completion)
    ensures done + [a] + [b, c] == done + [a, b, c] && done + [b] + [c] == done + [b, c]
  {
  }

  // What the first step leaves to the other two.
  lemma CreatesFreshly(r: Run, apps: Apps, d: Draft, t: string, u: string, steps: seq<Step>)
    returns (next: Run, now: Draft)
    requires Plain(r.w, d) && ValidName(t) && d.publication.None? && t != u && t !in r.w.topologies
    requires u !in r.w.topologies && steps != [] && steps[0] == StepTo(d.id, t, d.revision)
    ensures next.completions == r.completions + [Completion(d.id, d.revision, ToTopology(t), true)]
    ensures WellFormed(next.w) && Execute(r, apps, steps) == Execute(next, apps, steps[1..])
    ensures Plain(next.w, now) && u !in next.w.topologies && now.id == d.id && now.revision == r.w.revisions + 1
    ensures AlreadyRecords(now, ToTopology(t)) && TopologyApplied(next.w, t, now.document) && StoredFor(next.w, now, t)
  {
    CreatedFacts(r.w, d, t);
    next := CreatesFirst(r, apps, d, t, steps);
    now := next.w.drafts[d.id];
    assert u !in next.w.topologies.Keys;
  }

  lemma LastTwo(r: Run, apps: Apps, d: Draft, t: string, u: string, steps: seq<Step>)
    requires Plain(r.w, d) && ValidName(t) && ValidName(u) && t != u && u !in r.w.topologies
    requires AlreadyRecords(d, ToTopology(t)) && TopologyApplied(r.w, t, d.document) && StoredFor(r.w, d, t)
    requires |steps| == 2 && steps[0] == StepTo(d.id, t, d.revision) && steps[1] == StepTo(d.id, u, d.revision)
    ensures var end := Execute(r, apps, steps);
            && u in end.w.topologies
            && end.completions == r.completions + [Completion(d.id, d.revision, ToTopology(t), false),
                                                   Completion(d.id, d.revision, ToTopology(u), true)]
  {
    var next := CompletesFirst(r, apps, d, t, steps);
    LastOne(next, apps, d, u, steps[1..]);
    var again, other := Completion(d.id, d.revision, ToTopology(t), false),
                        Completion(d.id, d.revision, ToTopology(u), true);
    Regroup(r.completions, again, again, other);
  }

  lemma LastOne(r: Run, apps: Apps, d: Draft, u: string, steps: seq<Step>)
    requires Plain(r.w, d) && ValidName(u) && u !in r.w.topologies && !AlreadyRecords(d, ToTopology(u))
    requires |steps| == 1 && steps[0] == StepTo(d.id, u, d.revision)
    ensures var end := Execute(r, apps, steps);
            && u in end.w.topologies
            && end.completions == r.completions + [Completion(d.id, d.revision, ToTopology(u), true)]
  {
    var end := CreatesFirst(r, apps, d, u, steps);
    CreatedFacts(r.w, d, u);
    assert u in end.w.topologies.Keys;
  }

  lemma CreatesFirst(r: Run, apps: Apps, d: Draft, t: string, steps: seq<Step>) returns (next: Run)
    requires Plain(r.w, d) && ValidName(t) && t !in r.w.topologies && !AlreadyRecords(d, ToTopology(t))
    requires steps != [] && steps[0] == StepTo(d.id, t, d.revision)
    ensures next.w == Created(r.w, d, t)
    ensures next.completions == r.completions + [Completion(d.id, d.revision, ToTopology(t), true)]
    ensures Execute(r, apps, steps) == Execute(next, apps, steps[1..])
  {
    CreatesTopology(r.w, apps, d, t);
    CreatedFacts(r.w, d, t);
    next := FirstCompletes(r, apps, steps, Created(r.w, d, t), true);
  }

  lemma CompletesFirst(r: Run, apps: Apps, d: Draft, t: string, steps: seq<Step>) returns (next: Run)
    requires Plain(r.w, d) && ValidName(t) && AlreadyRecords(d, ToTopology(t))
    requires TopologyApplied(r.w, t, d.document) && StoredFor(r.w, d, t)
    requires steps != [] && steps[0] == StepTo(d.id, t, d.revision)
    ensures next.w == r.w
    ensures next.completions == r.completions + [Completion(d.id, d.revision, ToTopology(t), false)]
    ensures Execute(r, apps, steps) == Execute(next, apps, steps[1..])
  {
    CompletesAgain(r.w, apps, d, t);
    next := FirstCompletes(r, apps, steps, r.w, false);
  }

  // A first step that completes adds a completion, recorded if the draft's publication changed.
  lemma FirstCompletes(r: Run, apps: Apps, steps: seq<Step>, after: World, recorded: bool) returns (next: Run)
    requires WellFormed(r.w) && WellFormed(after) && steps != [] && steps[0].PublishStep?
    requires var s := steps[0];
             && Publish(r.w, apps, s.id, s.req, s.tag, s.f) == (after, Completed)
             && s.id in r.w.drafts && s.id in after.drafts && after.drafts[s.id].publication.Some?
             && (recorded <==> after.drafts[s.id].publication != r.w.drafts[s.id].publication)
    ensures next.w == after && Execute(r, apps, steps) == Execute(next, apps, steps[1..])
    ensures next.completions == r.completions + [Completion(steps[0].id, steps[0].tag, steps[0].req, recorded)]
  {
    next := Next(r, apps, steps[0]);
  }
}
