/**
 Runs of publications interleaved with saves, new drafts, deleted drafts, edits of the stored configs and cleanups.
 At most one publication is recorded per draft revision, and a draft only ever owns documents it really published.
 */
module PublishRuns {
  import opened Wrappers
  import opened PublishModel
  import opened PublishSafety

  // A publication that MarkPublished recorded: the draft, the tag it was sent under, and what it published.
  datatype Mark = Mark(draft: string, tag: nat, req: Request, publication: Publication)

  // A publication that was answered as complete, and whether it was recorded.
  datatype Completion = Completion(draft: string, tag: nat, req: Request, recorded: bool)

  // stored holds every (draft, document) whose publication got as far as storing the document.
  datatype Run = Run(w: World, marks: seq<Mark>, completions: seq<Completion>, stored: set<(string, DocId)>)

  datatype Step =
    | PublishStep(id: string, req: Request, tag: nat, f: Faults)
    | SaveStep(id: string, save: Save)
    | NewDraft(id: string, token: Token, forked: Option<DocId>, snapshot: string, document: Document)
    | DeleteDraft(id: string)
    | EditConfigs(topologies: map<string, Topology>, scenarios: map<string, Scenario>,
                  experiments: map<string, Experiment>, files: map<string, Document>)
    | Cleanup(removed: set<DocId>)

  function AfterPublish(r: Run, apps: Apps, s: Step): Run
    requires s.PublishStep? && WellFormed(r.w)
  {
    var (w, outcome) := Publish(r.w, apps, s.id, s.req, s.tag, s.f);
    var marked := s.id in w.drafts && s.id in r.w.drafts && w.drafts[s.id].publication.Some?
                  && w.drafts[s.id].publication != r.w.drafts[s.id].publication;
    Run(w,
        if marked then r.marks + [Mark(s.id, s.tag, s.req, w.drafts[s.id].publication.value)] else r.marks,
        if outcome == Completed then r.completions + [Completion(s.id, s.tag, s.req, marked)] else r.completions,
        if (outcome.Partial? || outcome.Completed?) && s.id in r.w.drafts
           && DocId(s.req.topology.name, r.w.drafts[s.id].document) in w.published
        then r.stored + {(s.id, DocId(s.req.topology.name, r.w.drafts[s.id].document))} else r.stored)
  }

  function Next(r: Run, apps: Apps, s: Step): Run
    requires WellFormed(r.w)
  {
    match s
    case PublishStep(_, _, _, _) => AfterPublish(r, apps, s)
    case SaveStep(id, save) => if id in r.w.drafts then r.(w := SaveDraft(r.w, id, Some(save))) else r
    case NewDraft(id, token, forked, snapshot, document) =>
      if id in r.w.drafts then r
      else r.(w := r.w.(drafts :=
                          r.w.drafts[id := Draft(id, r.w.revisions + 1, token, forked, None, snapshot, document)],
                        revisions := r.w.revisions + 1))
    case DeleteDraft(id) => r.(w := r.w.(drafts := r.w.drafts - {id}))
    case EditConfigs(topologies, scenarios, experiments, files) =>
      r.(w := r.w.(topologies := topologies, scenarios := scenarios, experiments := experiments, files := files))
    case Cleanup(removed) => r.(w := r.w.(published := r.w.published - removed))
  }

  // What holds in every reachable state.
  ghost predicate Inv(r: Run) {
    && WellFormed(r.w)
    && (forall id :: id in r.w.drafts ==> ValidDraft(r, r.w.drafts[id]))
    && (forall i :: 0 <= i < |r.marks| ==> ValidMark(r, r.marks[i]))
    && (forall i, j :: 0 <= i < j < |r.marks| ==>
          !(r.marks[i].draft == r.marks[j].draft && r.marks[i].tag == r.marks[j].tag))
    && OneRecordedPerTag(r)
    && (forall x :: x in r.w.published ==> (r.w.published[x].draft, x) in r.stored)
  }

  ghost predicate OneRecordedPerTag(r: Run) {
    && (forall i :: 0 <= i < |r.completions| && r.completions[i].recorded ==> PastTag(r, r.completions[i]))
    && (forall i, j :: 0 <= i < j < |r.completions| && r.completions[i].recorded && r.completions[j].recorded ==>
          !(r.completions[i].draft == r.completions[j].draft && r.completions[i].tag == r.completions[j].tag))
  }

  // The draft, if it is still there, has moved past the tag.
  predicate PastTag(r: Run, c: Completion) {
    c.tag <= r.w.revisions && (c.draft in r.w.drafts ==> c.tag < r.w.drafts[c.draft].revision)
  }

  ghost predicate ValidDraft(r: Run, d: Draft) {
    && 0 < d.revision <= r.w.revisions
    && (d.publication.Some? ==>
          && d.publication.value.revision < d.revision
          && (d.id, d.publication.value.document) in r.stored
          && exists i ::
               0 <= i < |r.marks| && r.marks[i].draft == d.id && r.marks[i].publication == d.publication.value)
  }

  ghost predicate ValidMark(r: Run, m: Mark) {
    && m.tag <= r.w.revisions
    && m.tag == m.publication.revision
    && (m.draft in r.w.drafts ==> m.tag < r.w.drafts[m.draft].revision)
    && m.publication.mode == m.req.mode
    && m.publication.topology == m.req.topology.name
    && m.publication.action == m.req.topology.action
    && m.publication.experiment == m.req.ExperimentName()
    && m.publication.scenario == m.req.ScenarioName()
  }

  // The document w stores under x is one of before, or the one that this draft's publication stored.
  predicate StoredFrom(before: World, w: World, d: Draft, topology: string) {
    forall x :: x in w.published ==>
      || (x in before.published && w.published[x] == before.published[x])
      || (x == DocId(topology, d.document) && w.published[x].draft == d.id)
  }

  // Only the draft stage changes drafts, and it sees them as they were when the publication began.
  predicate DraftsFrom(before: World, w: World, d: Draft, req: Request, f: Faults)
    requires d.id in before.drafts
  {
    || (w.drafts == before.drafts && w.revisions == before.revisions)
    || (&& w.drafts == MarkedDrafts(before, d, req, f).drafts
        && w.revisions == MarkedDrafts(before, d, req, f).revisions)
  }

  function MarkedDrafts(w: World, d: Draft, req: Request, f: Faults): World
    requires d.id in w.drafts
  {
    MarkPublished(SaveDraft(w, d.id, f.save), d, req, f.draft).0
  }

  lemma SaveReadsDrafts(before: World, w: World, id: string, save: Option<Save>)
    requires id in w.drafts && w.drafts == before.drafts && w.revisions == before.revisions
    ensures SaveDraft(w, id, save).drafts == SaveDraft(before, id, save).drafts
    ensures SaveDraft(w, id, save).revisions == SaveDraft(before, id, save).revisions
    ensures SaveDraft(w, id, save).published == w.published
  {
  }

  lemma MarkReadsDrafts(before: World, w: World, d: Draft, req: Request, fails: bool)
    requires d.id in w.drafts && w.drafts == before.drafts && w.revisions == before.revisions
    ensures MarkPublished(w, d, req, fails).0.drafts == MarkPublished(before, d, req, fails).0.drafts
    ensures MarkPublished(w, d, req, fails).0.revisions == MarkPublished(before, d, req, fails).0.revisions
    ensures MarkPublished(w, d, req, fails).0.published == w.published
  {
  }

  lemma DraftStageEffect(before: World, w: World, d: Draft, req: Request, f: Faults)
    requires d.id in w.drafts && w.drafts == before.drafts && w.revisions == before.revisions
    requires StoredFrom(before, w, d, req.topology.name)
    ensures var after := RunDraftStage(w, d, req, f).0;
            DraftsFrom(before, after, d, req, f) && StoredFrom(before, after, d, req.topology.name)
  {
    var saved := SaveDraft(w, d.id, f.save);
    SaveReadsDrafts(before, w, d.id, f.save);
    MarkReadsDrafts(SaveDraft(before, d.id, f.save), saved, d, req, f.draft);
    var (marked, ok) := MarkPublished(saved, d, req, f.draft);
    var after := RunDraftStage(w, d, req, f).0;
    assert after == if ok then DeleteSuperseded(marked, DocId(req.topology.name, d.document), f.superseded) else marked;
    assert marked.published == w.published;
  }

  lemma LastStagesEffect(before: World, w: World, apps: Apps, d: Draft, req: Request, plan: Plan, f: Faults)
    requires d.id in w.drafts && w.drafts == before.drafts && w.revisions == before.revisions
    requires req.topology.name in w.topologies
    requires StoredFrom(before, w, d, req.topology.name)
    ensures var after := RunLastStages(w, apps, d, req, plan, f).0;
            DraftsFrom(before, after, d, req, f) && StoredFrom(before, after, d, req.topology.name)
  {
    DraftStageEffect(before, RunExperimentStage(w, apps, d, req, plan, f).0, d, req, f);
  }

  lemma StagesEffect(w: World, apps: Apps, d: Draft, req: Request, plan: Plan, f: Faults)
    requires d.id in w.drafts
    requires plan.topologyApplied ==> req.topology.name in w.topologies
    ensures var after := RunStages(w, apps, d, req, plan, f).0;
            && DraftsFrom(w, after, d, req, f)
            && StoredFrom(w, after, d, req.topology.name)
  {
    if !f.document {
      var w1 := StoreDocument(w, d, req.topology.name);
      assert StoredFrom(w, w1, d, req.topology.name);
      var (w2, ok) := RunTopologyStage(w1, d, req, plan, f);
      assert StoredFrom(w, w2, d, req.topology.name) && w2.drafts == w.drafts && w2.revisions == w.revisions;
      if ok {
        var (w3, ok') := RunScenarioStage(w2, plan.scenarios.changed, f.scenarios);
        if ok' {
          LastStagesEffect(w, w3, apps, d, req, plan, f);
        }
      }
    }
  }

  // What one publication does to the drafts and to the stored documents.
  lemma PublishEffect(w: World, apps: Apps, id: string, req: Request, tag: nat, f: Faults)
    requires WellFormed(w)
    ensures var after := Publish(w, apps, id, req, tag, f).0;
            || after == w
            || (&& id in w.drafts && tag == w.drafts[id].revision
                && DraftsFrom(w, after, w.drafts[id], req, f)
                && StoredFrom(w, after, w.drafts[id], req.topology.name))
  {
    if req.Valid() && id in w.drafts && tag == w.drafts[id].revision && Preflight(w, w.drafts[id], req).Success? {
      StagesEffect(w, apps, w.drafts[id], req, Preflight(w, w.drafts[id], req).value, f);
    }
  }

  lemma RecordedAtTag(now: Draft, d: Draft, req: Request, fails: bool)
    requires DecideMark(now, d, req, fails).Recorded? && d.revision > 0
    ensures now.revision == d.revision && now.snapshot == d.snapshot
  {
  }

  // The publication that MarkPublished records for the draft as it was read.
  function NewPublication(d: Draft, req: Request): Publication {
    Publication(req.mode, req.topology.name, req.topology.action, req.ExperimentName(), req.ScenarioName(),
                d.snapshot, d.document, d.revision, DocId(req.topology.name, d.document))
  }

  // now is what a publication under the revision of d may leave of the draft.
  predicate MarkedFrom(d: Draft, now: Draft, req: Request) {
    && now.id == d.id
    && d.revision <= now.revision
    && (now.publication != d.publication ==>
          now.revision > d.revision && now.publication == Some(NewPublication(d, req)))
  }

  // A publication records itself only while the draft is still at the revision it read. Otherwise the draft is as
  // saved.
  lemma MarkEffect(w: World, d: Draft, req: Request, f: Faults)
    requires d.id in w.drafts && w.drafts[d.id] == d && 0 < d.revision <= w.revisions
    ensures var after := MarkedDrafts(w, d, req, f);
            && d.id in after.drafts
            && after.drafts == w.drafts[d.id := after.drafts[d.id]]
            && w.revisions <= after.revisions
            && after.drafts[d.id].revision <= after.revisions
            && MarkedFrom(d, after.drafts[d.id], req)
            && (|| after.drafts[d.id] == SaveDraft(w, d.id, f.save).drafts[d.id]
                || (f.save.None? && after.drafts[d.id] ==
                      d.(publication := Some(NewPublication(d, req)), revision := w.revisions + 1)))
  {
    if f.save.None? {
      var decision := DecideMark(d, d, req, f.draft);
      if decision.Recorded? {
        assert MarkedDrafts(w, d, req, f) == SetDraft(w, d.(publication := Some(decision.publication)));
        assert decision.publication == NewPublication(d, req);
      } else {
        assert MarkedDrafts(w, d, req, f) == w;
      }
    } else {
      var now := d.(snapshot := f.save.value.snapshot, document := f.save.value.document);
      var saved := SetDraft(w, now);
      assert saved == SaveDraft(w, d.id, f.save);
      if DecideMark(saved.drafts[d.id], d, req, f.draft).Recorded? {
        RecordedAtTag(saved.drafts[d.id], d, req, f.draft);
        assert false;
      }
      assert MarkedDrafts(w, d, req, f) == saved;
    }
  }

  // The marks of a run only grow, so a publication stays in them.
  lemma DraftStaysValid(r: Run, after: Run, d: Draft)
    requires ValidDraft(r, d) && r.marks <= after.marks && r.stored <= after.stored
             && r.w.revisions <= after.w.revisions
    ensures ValidDraft(after, d)
  {
    if d.publication.Some? {
      var i :| 0 <= i < |r.marks| && r.marks[i].draft == d.id && r.marks[i].publication == d.publication.value;
      assert after.marks[i] == r.marks[i];
    }
  }

  // A completion is recorded only under the revision that the draft leaves by it.
  lemma CompletionsStayPast(r: Run, after: Run, d: Draft, now: Draft, req: Request)
    requires OneRecordedPerTag(r) && d.id in r.w.drafts && r.w.drafts[d.id] == d && d.revision <= r.w.revisions
    requires MarkedFrom(d, now, req) && r.w.revisions <= after.w.revisions && after.w.drafts == r.w.drafts[d.id := now]
    requires after.completions == r.completions
             || after.completions == r.completions
                + [Completion(d.id, d.revision, req, now.publication != d.publication)]
    ensures OneRecordedPerTag(after)
  {
    forall i | 0 <= i < |r.completions| && r.completions[i].recorded
      ensures PastTag(after, r.completions[i])
              && !(r.completions[i].draft == d.id && r.completions[i].tag == d.revision)
    {
      assert PastTag(r, r.completions[i]);
    }
  }

  // The run after a publication that changed the draft d to now, and recorded it if the publication did.
  lemma DraftChangeKeepsInv(r: Run, after: Run, d: Draft, now: Draft, req: Request)
    requires Inv(r) && d.id in r.w.drafts && r.w.drafts[d.id] == d
    requires MarkedFrom(d, now, req) && now.revision <= after.w.revisions && r.w.revisions <= after.w.revisions
    requires after.w.drafts == r.w.drafts[d.id := now]
    requires r.stored <= after.stored
    requires now.publication != d.publication ==> (d.id, DocId(req.topology.name, d.document)) in after.stored
    requires after.marks == if now.publication != d.publication
                            then r.marks + [Mark(d.id, d.revision, req, NewPublication(d, req))] else r.marks
    requires after.completions == r.completions
             || after.completions == r.completions
                + [Completion(d.id, d.revision, req, now.publication != d.publication)]
    requires forall x :: x in after.w.published ==> (after.w.published[x].draft, x) in after.stored
    ensures Inv(after)
  {
    CompletionsStayPast(r, after, d, now, req);
    forall id | id in after.w.drafts
      ensures ValidDraft(after, after.w.drafts[id])
    {
      assert ValidDraft(r, r.w.drafts[id]);
      DraftStaysValid(r, after, r.w.drafts[id]);
      if id == d.id && now.publication != d.publication {
        assert after.marks[|r.marks|].publication == now.publication.value;
      }
    }
    assert ValidDraft(r, d);
    forall i | 0 <= i < |after.marks|
      ensures ValidMark(after, after.marks[i])
      ensures i < |r.marks| ==> !(after.marks[i].draft == d.id && after.marks[i].tag == d.revision)
    {
      if i < |r.marks| {
        assert ValidMark(r, r.marks[i]);
      }
    }
  }

  lemma PublishKeepsInv(r: Run, apps: Apps, s: Step)
    requires Inv(r) && s.PublishStep?
    ensures Inv(AfterPublish(r, apps, s))
  {
    var after := AfterPublish(r, apps, s);
    PublishEffect(r.w, apps, s.id, s.req, s.tag, s.f);
    if s.id !in r.w.drafts || s.tag != r.w.drafts[s.id].revision {
      assert after == r;
    } else {
      var d := r.w.drafts[s.id];
      assert ValidDraft(r, d);
      var now := d;
      if after.w != r.w {
        MarkEffect(r.w, d, s.req, s.f);
        if after.w.drafts != r.w.drafts {
          now := MarkedDrafts(r.w, d, s.req, s.f).drafts[s.id];
        }
        RecordedDocumentStored(r.w, apps, s.id, s.req, s.tag, s.f);
      }
      assert after.w.drafts == r.w.drafts[s.id := now];
      DraftChangeKeepsInv(r, after, d, now, s.req);
    }
  }

  // A request that changes anything leaves its DocId in published.
  lemma RecordedDocumentStored(w: World, apps: Apps, id: string, req: Request, tag: nat, f: Faults)
    requires WellFormed(w) && id in w.drafts
    ensures var after := Publish(w, apps, id, req, tag, f).0;
            after == w || ((Publish(w, apps, id, req, tag, f).1.Partial?
                            || Publish(w, apps, id, req, tag, f).1.Completed?)
                           && DocId(req.topology.name, w.drafts[id].document) in after.published)
  {
  }

  lemma OtherStepKeepsInv(r: Run, apps: Apps, s: Step)
    requires Inv(r) && !s.PublishStep?
    ensures Inv(Next(r, apps, s))
  {
    var after := Next(r, apps, s);
    assert after.marks == r.marks && after.stored == r.stored && r.w.revisions <= after.w.revisions;
    forall id | id in after.w.drafts
      ensures ValidDraft(after, after.w.drafts[id])
    {
      if id in r.w.drafts {
        assert ValidDraft(r, r.w.drafts[id]);
      }
    }
    assert forall i :: 0 <= i < |r.marks| ==> ValidMark(r, r.marks[i]);
    assert forall i :: 0 <= i < |r.completions| && r.completions[i].recorded ==> PastTag(r, r.completions[i]);
  }

  function Execute(r: Run, apps: Apps, steps: seq<Step>): Run
    requires WellFormed(r.w)
    decreases |steps|
  {
    if steps == [] then r
    else
      var next := Next(r, apps, steps[0]);
      if WellFormed(next.w) then Execute(next, apps, steps[1..]) else r
  }

  lemma {:induction false} ExecuteKeepsInv(r: Run, apps: Apps, steps: seq<Step>)
    requires Inv(r)
    ensures Inv(Execute(r, apps, steps))
    decreases |steps|
  {
    if steps != [] {
      if steps[0].PublishStep? {
        PublishKeepsInv(r, apps, steps[0]);
      } else {
        OtherStepKeepsInv(r, apps, steps[0]);
      }
      ExecuteKeepsInv(Next(r, apps, steps[0]), apps, steps[1..]);
    }
  }

  // The server before the first draft: any stored configs, no drafts, no published documents.
  predicate Initial(r: Run) {
    r.w.drafts == map[] && r.w.published == map[] && r.marks == [] && r.completions == [] && r.stored == {}
  }

  /** Over every run, at most one publication is recorded per draft and revision. */
  lemma AtMostOnePerRevision(r: Run, apps: Apps, steps: seq<Step>, i: nat, j: nat)
    requires Initial(r)
    ensures WellFormed(r.w)
    ensures var marks := Execute(r, apps, steps).marks;
            i < |marks| && j < |marks| && marks[i].draft == marks[j].draft && marks[i].tag == marks[j].tag ==> i == j
  {
    ExecuteKeepsInv(r, apps, steps);
  }

  /** Over every run, of all publications answered as complete under one tag of a draft, at most one was recorded. */
  lemma AtMostOneRecordedCompletion(r: Run, apps: Apps, steps: seq<Step>, i: nat, j: nat)
    requires Initial(r)
    ensures WellFormed(r.w)
    ensures var done := Execute(r, apps, steps).completions;
            (i < |done| && j < |done| && done[i].recorded && done[j].recorded
             && done[i].draft == done[j].draft && done[i].tag == done[j].tag) ==> i == j
  {
    ExecuteKeepsInv(r, apps, steps);
  }

  // Marking the draft for this request would change nothing in it.
  predicate AlreadyRecords(d: Draft, req: Request) {
    && d.publication.Some?
    && SamePublication(d.publication.value, d, req)
    && d.publication.value.document == DocId(req.topology.name, d.document)
  }

  // A completed publication has marked the draft, or found it marked.
  lemma CompletedMarks(w: World, apps: Apps, id: string, req: Request, tag: nat, f: Faults)
    requires WellFormed(w) && Publish(w, apps, id, req, tag, f).1 == Completed
    ensures id in w.drafts && tag == w.drafts[id].revision
    ensures var after, d := Publish(w, apps, id, req, tag, f).0, w.drafts[id];
            && !DecideMark(SaveDraft(w, id, f.save).drafts[id], d, req, f.draft).Conflict?
            && after.drafts == MarkedDrafts(w, d, req, f).drafts
  {
    StagesMark(w, apps, w.drafts[id], req, Preflight(w, w.drafts[id], req).value, f);
  }

  lemma StagesMark(w: World, apps: Apps, d: Draft, req: Request, plan: Plan, f: Faults)
    requires d.id in w.drafts && (plan.topologyApplied ==> req.topology.name in w.topologies)
    requires RunStages(w, apps, d, req, plan, f).1 == Completed
    ensures !DecideMark(SaveDraft(w, d.id, f.save).drafts[d.id], d, req, f.draft).Conflict?
    ensures RunStages(w, apps, d, req, plan, f).0.drafts == MarkedDrafts(w, d, req, f).drafts
  {
    var w2 := RunTopologyStage(StoreDocument(w, d, req.topology.name), d, req, plan, f).0;
    var w3 := RunScenarioStage(w2, plan.scenarios.changed, f.scenarios).0;
    DraftStageMarks(w, RunExperimentStage(w3, apps, d, req, plan, f).0, d, req, f);
  }

  lemma DraftStageMarks(before: World, w: World, d: Draft, req: Request, f: Faults)
    requires d.id in w.drafts && w.drafts == before.drafts && w.revisions == before.revisions
    requires RunDraftStage(w, d, req, f).1 == Completed
    ensures !DecideMark(SaveDraft(before, d.id, f.save).drafts[d.id], d, req, f.draft).Conflict?
    ensures RunDraftStage(w, d, req, f).0.drafts == MarkedDrafts(before, d, req, f).drafts
  {
    SaveReadsDrafts(before, w, d.id, f.save);
    MarkReadsDrafts(SaveDraft(before, d.id, f.save), SaveDraft(w, d.id, f.save), d, req, f.draft);
  }

  /**
   Which completed publications are recorded: all but those that the draft already records. Such a one leaves every
   draft as it was, so its tag stays current, and another request can complete under the same tag.
   */
  lemma RecordedUnlessAlready(r: Run, apps: Apps, s: Step)
    requires Inv(r) && s.PublishStep? && Publish(r.w, apps, s.id, s.req, s.tag, s.f).1 == Completed
    ensures s.id in r.w.drafts && s.tag == r.w.drafts[s.id].revision
    ensures var after, d := AfterPublish(r, apps, s), r.w.drafts[s.id];
            && |after.completions| == |r.completions| + 1
            && after.completions[|r.completions|] == Completion(s.id, s.tag, s.req, !AlreadyRecords(d, s.req))
            && (if AlreadyRecords(d, s.req) then after.w.drafts == r.w.drafts
                else s.id in after.w.drafts && after.w.drafts[s.id].publication == Some(NewPublication(d, s.req))
                     && after.w.drafts[s.id].revision > s.tag)
  {
    CompletedMarks(r.w, apps, s.id, s.req, s.tag, s.f);
    var d := r.w.drafts[s.id];
    assert ValidDraft(r, d);
    MarkEffect(r.w, d, s.req, s.f);
    MarkDecision(r.w, d, s.req, s.f);
  }

  // A mark that is no conflict came while the draft was as it was read.
  lemma MarkDecision(w: World, d: Draft, req: Request, f: Faults)
    requires d.id in w.drafts && w.drafts[d.id] == d && 0 < d.revision <= w.revisions
    requires d.publication.Some? ==> d.publication.value.revision < d.revision
    requires !DecideMark(SaveDraft(w, d.id, f.save).drafts[d.id], d, req, f.draft).Conflict?
    ensures f.save.None?
    ensures if AlreadyRecords(d, req) then MarkedDrafts(w, d, req, f).drafts == w.drafts
            else d.id in MarkedDrafts(w, d, req, f).drafts
                 && MarkedDrafts(w, d, req, f).drafts[d.id].publication == Some(NewPublication(d, req))
                 && MarkedDrafts(w, d, req, f).drafts[d.id].revision == w.revisions + 1
  {
  }

  // Two requests that builderPublishRetry cannot tell apart: it does not compare the experiment action.
  predicate SameButExperimentAction(a: Request, b: Request) {
    && a.mode == b.mode && a.topology == b.topology
    && a.ScenarioName() == b.ScenarioName() && a.ExperimentName() == b.ExperimentName()
  }

  // The recorded publication is still the draft's last one, and its content is still current.
  predicate StillCurrent(w: World, m: Mark) {
    && m.draft in w.drafts
    && w.drafts[m.draft].publication == Some(m.publication)
    && w.drafts[m.draft].snapshot == m.publication.snapshot
    && w.drafts[m.draft].document == m.publication.digest
  }

  lemma RetryIff(r: Run, m: Mark, req: Request)
    requires Inv(r) && m in r.marks && m.draft in r.w.drafts
    ensures IsPublishRetry(r.w.drafts[m.draft], req, m.tag) <==>
            StillCurrent(r.w, m) && SameButExperimentAction(req, m.req)
  {
    var d := r.w.drafts[m.draft];
    assert ValidMark(r, m) && ValidDraft(r, d);
    if d.publication.Some? && d.publication.value.revision == m.tag {
      var i :| 0 <= i < |r.marks| && r.marks[i].draft == d.id && r.marks[i].publication == d.publication.value;
      assert ValidMark(r, r.marks[i]);
      var j :| 0 <= j < |r.marks| && r.marks[j] == m;
      assert i == j;
      SameRequest(d, m, req);
    }
  }

  lemma SameRequest(d: Draft, m: Mark, req: Request)
    requires d.publication == Some(m.publication)
    requires m.publication.mode == m.req.mode && m.publication.topology == m.req.topology.name
    requires m.publication.action == m.req.topology.action
    requires m.publication.experiment == m.req.ExperimentName() && m.publication.scenario == m.req.ScenarioName()
    ensures SamePublication(m.publication, d, req) <==>
            SameButExperimentAction(req, m.req) && d.snapshot == m.publication.snapshot
            && d.document == m.publication.digest
  {
  }

  /** Once a publication was recorded under a tag, every later request under that tag writes nothing at all.
      It is answered as already complete exactly when the recorded publication is still current and the request is the
      recorded one, up to the action on the experiment. Any other request is refused. */
  lemma OldTagWritesNothing(r: Run, apps: Apps, steps: seq<Step>, m: Mark, req: Request, f: Faults)
    requires Initial(r)
    requires m in Execute(r, apps, steps).marks
    ensures var w := Execute(r, apps, steps).w;
            && WellFormed(w)
            && var (after, outcome) := Publish(w, apps, m.draft, req, m.tag, f);
               && after == w
               && (outcome == AlreadyComplete <==>
                     req.Valid() && StillCurrent(w, m) && SameButExperimentAction(req, m.req))
               && (outcome != AlreadyComplete ==> outcome.Refused?)
  {
    ExecuteKeepsInv(r, apps, steps);
    var now := Execute(r, apps, steps);
    assert ValidMark(now, m);
    if m.draft in now.w.drafts {
      assert m.tag < now.w.drafts[m.draft].revision;
      RetryIff(now, m, req);
    }
  }

  /** The experiment action really is not compared: after a publication that created the experiment, the same request
      with an update of the experiment is answered as already complete under the old tag. */
  lemma ExperimentActionNotCompared(d: Draft, req: Request, tag: nat)
    requires req.mode.TopologyAndExperiment? && req.Valid()
    requires IsPublishRetry(d, req, tag)
    ensures var other := req.(experiment := Some(req.experiment.value.(
                           action := if req.experiment.value.action.Create? then Update else Create)));
            other != req && other.Valid() && IsPublishRetry(d, other, tag)
  {
    var other := req.(experiment := Some(req.experiment.value.(
                   action := if req.experiment.value.action.Create? then Update else Create)));
    assert other.experiment.value.action != req.experiment.value.action;
  }

  /** Over every run, the stored document by which a draft owns a topology is one it was opened from or forked from,
      has the content of, or stored itself in an earlier publication. */
  lemma OwnershipIsEarned(r: Run, apps: Apps, steps: seq<Step>, id: string, name: string, document: Document)
    requires Initial(r)
    ensures WellFormed(r.w)
    ensures var now := Execute(r, apps, steps);
            id in now.w.drafts && IsOwnDocument(now.w, now.w.drafts[id], name, document) ==>
              var d := now.w.drafts[id];
              || document == d.document
              || d.token in {Opened(DocId(name, document)), OpenedFile(name, document)}
              || d.forked == Some(DocId(name, document))
              || (id, DocId(name, document)) in now.stored
  {
    ExecuteKeepsInv(r, apps, steps);
    var now := Execute(r, apps, steps);
    if id in now.w.drafts {
      assert ValidDraft(now, now.w.drafts[id]);
    }
  }
}
