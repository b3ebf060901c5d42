/**
 The shared listing of the server's disk images: requests that ask at the same time wait for one run of the source, and
 a success is reused for a while. The steps of requests, sources and clock interleave in any order.
 */
module DiskLister {
  import opened Wrappers

  type Images = seq<string>

  datatype Fault = SourceFailed(message: string) | Aborted | GaveUp

  // The source of a Sourcing listing runs. A Returned one has its outcome, and a Finished one is off the lister. A
  // Closed one lets the requests that wait for it go on.
  datatype Phase = Sourcing | Returned | Finished | Closed

  datatype Listing = Listing(phase: Phase, images: Images, fault: Option<Fault>, finishedAt: int)

  datatype Kept = Kept(images: Images, at: int)

  // What the lister holds, with all the listings it ever began.
  datatype Lister = Lister(listings: seq<Listing>, running: Option<nat>, last: Option<Kept>)

  // Joined is set when the request found its listing in progress or began it.
  datatype Request =
    | Waiting(listing: nat)
    | Answered(joined: bool, answer: Result<Images, Fault>)

  datatype State = State(now: int, lister: Lister, requests: seq<Request>)

  datatype Step =
    | Tick(passed: nat)
    | Ask
    | SourceReturns(listing: nat, images: Images, fault: Option<Fault>)
    | SourcePanics(listing: nat)
    | Finish(listing: nat)
    | Close(listing: nat)
    | Wake(request: nat)
    | GiveUp(request: nat)

  predicate Reusable(l: Lister, now: int, ttl: int) {
    l.last.Some? && now - l.last.value.at < ttl
  }

  // The lister after a request that it has no listing to reuse for: it joins the listing in progress, or begins one. A
  // new listing counts as aborted until its source returns.
  function Joined(l: Lister): Lister {
    if l.running.Some? then l
    else l.(listings := l.listings + [Listing(Sourcing, [], Some(Aborted), 0)], running := Some(|l.listings|))
  }

  function WithListing(l: Lister, k: nat, listing: Listing): Lister
    requires k < |l.listings|
  {
    l.(listings := l.listings[k := listing])
  }

  // The lister once listing k is off it. Only a success is kept.
  function AfterFinish(l: Lister, k: nat, now: int): Lister
    requires k < |l.listings|
  {
    var listing := l.listings[k];
    Lister(l.listings[k := listing.(phase := Finished, finishedAt := now)], None,
           if listing.fault.None? then Some(Kept(listing.images, now)) else l.last)
  }

  predicate InPhase(l: Lister, k: nat, phase: Phase) {
    k < |l.listings| && l.listings[k].phase == phase
  }

  predicate IsWaiting(s: State, r: nat) {
    r < |s.requests| && s.requests[r].Waiting?
  }

  predicate Enabled(s: State, step: Step) {
    match step
    case Tick(_) => true
    case Ask => true
    case SourceReturns(k, _, fault) => InPhase(s.lister, k, Sourcing) && (fault.Some? ==> fault.value.SourceFailed?)
    case SourcePanics(k) => InPhase(s.lister, k, Sourcing)
    case Finish(k) => InPhase(s.lister, k, Returned)
    case Close(k) => InPhase(s.lister, k, Finished)
    case Wake(r) => IsWaiting(s, r) && InPhase(s.lister, s.requests[r].listing, Closed)
    case GiveUp(r) => IsWaiting(s, r)
  }

  function Outcome(listing: Listing): Result<Images, Fault> {
    if listing.fault.Some? then Failure(listing.fault.value) else Success(listing.images)
  }

  function Next(s: State, ttl: int, step: Step): State
    requires Enabled(s, step)
  {
    var l := s.lister;
    match step
    case Tick(passed) => s.(now := s.now + passed)
    case Ask =>
      if Reusable(l, s.now, ttl)
         then s.(requests := s.requests + [Answered(false, Success(l.last.value.images))])
      else
        var joined := Joined(l);
        s.(lister := joined, requests := s.requests + [Waiting(joined.running.value)])
    case SourceReturns(k, images, fault) =>
      s.(lister := WithListing(l, k, l.listings[k].(phase := Returned, images := images, fault := fault)))
    case SourcePanics(k) => s.(lister := WithListing(l, k, l.listings[k].(phase := Returned)))
    case Finish(k) => s.(lister := AfterFinish(l, k, s.now))
    case Close(k) => s.(lister := WithListing(l, k, l.listings[k].(phase := Closed)))
    case Wake(r) =>
      var q := s.requests[r];
      s.(requests := s.requests[r := Answered(true, Outcome(l.listings[q.listing]))])
    case GiveUp(r) =>
      s.(requests := s.requests[r := Answered(true, Failure(GaveUp))])
  }

  const INITIAL: Lister := Lister([], None, None)

  // A run from a new lister: the state before each step, and the one after the last.
  ghost predicate Run(ttl: int, trace: seq<State>, steps: seq<Step>) {
    && |trace| == |steps| + 1
    && trace[0].lister == INITIAL && trace[0].requests == []
    && forall i :: 0 <= i < |steps| ==> Enabled(trace[i], steps[i]) && trace[i + 1] == Next(trace[i], ttl, steps[i])
  }

  predicate Runs(listing: Listing) {
    listing.phase == Sourcing || listing.phase == Returned
  }

  // A listing that is off the lister and succeeded.
  predicate Succeeded(listing: Listing) {
    !Runs(listing) && listing.fault.None?
  }

  // A listing that was over and kept is the newest success: no failed or panicking run is ever reused.
  predicate KeptIsNewest(s: State) {
    && (forall k :: 0 <= k < |s.lister.listings| && !Runs(s.lister.listings[k]) ==>
          s.lister.listings[k].finishedAt <= s.now)
    && (s.lister.last.Some? ==>
          exists k :: 0 <= k < |s.lister.listings| && Succeeded(s.lister.listings[k])
                      && s.lister.last.value == Kept(s.lister.listings[k].images, s.lister.listings[k].finishedAt))
    && (forall k :: 0 <= k < |s.lister.listings| && Succeeded(s.lister.listings[k]) ==>
          s.lister.last.Some? && s.lister.listings[k].finishedAt <= s.lister.last.value.at)
  }

  /** A listing runs just when the lister points at it, so at most one source runs at any time. */
  predicate SingleFlight(l: Lister) {
    && (l.running.Some? ==> l.running.value < |l.listings|)
    && forall k :: 0 <= k < |l.listings| ==> (Runs(l.listings[k]) <==> l.running == Some(k))
  }

  predicate Inv(s: State) {
    && SingleFlight(s.lister)
    && KeptIsNewest(s)
    && (forall k :: 0 <= k < |s.lister.listings| && s.lister.listings[k].phase == Sourcing ==>
          s.lister.listings[k].fault == Some(Aborted))
    && (forall r :: 0 <= r < |s.requests| && s.requests[r].Waiting? ==> s.requests[r].listing < |s.lister.listings|)
  }

  /** Every step keeps the invariant. */
  lemma StepKeepsInv(s: State, ttl: int, step: Step)
    requires Inv(s) && Enabled(s, step)
    ensures Inv(Next(s, ttl, step))
  {
    StepKeepsKept(s, ttl, step);
  }

  lemma StepKeepsKept(s: State, ttl: int, step: Step)
    requires Inv(s) && Enabled(s, step)
    ensures KeptIsNewest(Next(s, ttl, step))
  {
    var t := Next(s, ttl, step);
    if t.lister.last.Some? && !(step.Finish? && s.lister.listings[step.listing].fault.None?) {
      var k :| 0 <= k < |s.lister.listings| && Succeeded(s.lister.listings[k])
               && s.lister.last.value == Kept(s.lister.listings[k].images, s.lister.listings[k].finishedAt);
      assert Succeeded(t.lister.listings[k]);
    } else if t.lister.last.Some? {
      assert Succeeded(t.lister.listings[step.listing]);
    }
  }

  lemma {:induction false} RunKeepsInv(ttl: int, trace: seq<State>, steps: seq<Step>, i: nat)
    requires Run(ttl, trace, steps) && i < |trace|
    ensures Inv(trace[i])
  {
    if i > 0 {
      RunKeepsInv(ttl, trace, steps, i - 1);
      StepKeepsInv(trace[i - 1], ttl, steps[i - 1]);
    }
  }

  // A listing keeps its place, and once it has an outcome it keeps that. A listing off the lister stays off.
  predicate Settled(a: Listing, b: Listing) {
    && (a.phase != Sourcing ==> b.phase != Sourcing && b.images == a.images && b.fault == a.fault)
    && (!Runs(a) ==> !Runs(b) && b.finishedAt == a.finishedAt)
  }

  predicate Extends(s: State, t: State) {
    && s.now <= t.now
    && |s.lister.listings| <= |t.lister.listings| && |s.requests| <= |t.requests|
    && (forall k :: 0 <= k < |s.lister.listings| ==> Settled(s.lister.listings[k], t.lister.listings[k]))
    && (forall r :: 0 <= r < |s.requests| && s.requests[r].Answered? ==> t.requests[r] == s.requests[r])
    && (forall r :: 0 <= r < |s.requests| && s.requests[r].Waiting? && t.requests[r].Waiting? ==>
          t.requests[r] == s.requests[r])
  }

  /** Outcomes and answers are final: what one waiter is told of a listing, every later one is told. */
  lemma {:induction false} OutcomesAreFinal(ttl: int, trace: seq<State>, steps: seq<Step>, i: nat, j: nat)
    requires Run(ttl, trace, steps) && i <= j < |trace|
    ensures Extends(trace[i], trace[j])
  {
    if i < j {
      OutcomesAreFinal(ttl, trace, steps, i, j - 1);
      StepExtends(trace[j - 1], ttl, steps[j - 1]);
      ExtendsOver(trace[i], trace[j - 1], trace[j]);
    }
  }

  lemma StepExtends(s: State, ttl: int, step: Step)
    requires Enabled(s, step)
    ensures Extends(s, Next(s, ttl, step))
  {
  }

  lemma ExtendsOver(a: State, b: State, c: State)
    requires Extends(a, b) && Extends(b, c)
    ensures Extends(a, c)
  {
    forall k | 0 <= k < |a.lister.listings|
      ensures Settled(a.lister.listings[k], c.lister.listings[k])
    {
      assert Settled(a.lister.listings[k], b.lister.listings[k]) && Settled(b.lister.listings[k], c.lister.listings[k]);
    }
  }

  // A request waits for the same listing until its answer: the outcome of that listing once it is closed, or giving up.
  predicate FromListing(s: State, r: nat, k: nat)
    requires r < |s.requests| && k < |s.lister.listings|
  {
    match s.requests[r]
    case Waiting(listing) => listing == k
    case Answered(joined, answer) =>
      joined && (answer == Failure(GaveUp)
                 || (s.lister.listings[k].phase == Closed && answer == Outcome(s.lister.listings[k])))
  }

  lemma FromListingKept(s: State, ttl: int, step: Step, r: nat, k: nat)
    requires Inv(s) && Enabled(s, step) && r < |s.requests| && k < |s.lister.listings| && FromListing(s, r, k)
    ensures FromListing(Next(s, ttl, step), r, k)
  {
  }

  lemma {:induction false} WaiterGetsOutcome(ttl: int, trace: seq<State>, steps: seq<Step>, i: nat, j: nat, r: nat,
                                             k: nat)
    requires Run(ttl, trace, steps) && i <= j < |trace|
    requires r < |trace[i].requests| && k < |trace[i].lister.listings| && FromListing(trace[i], r, k)
    ensures r < |trace[j].requests| && k < |trace[j].lister.listings| && FromListing(trace[j], r, k)
  {
    if i < j {
      WaiterGetsOutcome(ttl, trace, steps, i, j - 1, r, k);
      WaiterOverStep(ttl, trace, steps, j - 1, r, k);
    }
  }

  lemma WaiterOverStep(ttl: int, trace: seq<State>, steps: seq<Step>, i: nat, r: nat, k: nat)
    requires Run(ttl, trace, steps) && i < |steps|
    requires r < |trace[i].requests| && k < |trace[i].lister.listings| && FromListing(trace[i], r, k)
    ensures r < |trace[i + 1].requests| && k < |trace[i + 1].lister.listings| && FromListing(trace[i + 1], r, k)
  {
    RunKeepsInv(ttl, trace, steps, i);
    FromListingKept(trace[i], ttl, steps[i], r, k);
  }

  /**
   What a success means: the request that step i asked got the images of a run that succeeded. That run was over less
   than ttl before the request, or it was in progress once the request was in.
   */
  lemma SuccessIsFresh(ttl: int, trace: seq<State>, steps: seq<Step>, i: nat, j: nat)
    requires Run(ttl, trace, steps) && i < j < |trace| && steps[i] == Ask
    ensures var r := |trace[i].requests|;
            && r < |trace[j].requests|
            && (trace[j].requests[r].Answered? && trace[j].requests[r].answer.Success? ==>
                  exists k ::
                    && 0 <= k < |trace[i + 1].lister.listings| && k < |trace[j].lister.listings|
                    && Succeeded(trace[j].lister.listings[k])
                    && trace[j].requests[r].answer.value == trace[j].lister.listings[k].images
                    && (trace[i + 1].lister.running == Some(k)
                        || (Succeeded(trace[i + 1].lister.listings[k])
                            && 0 <= trace[i].now - trace[j].lister.listings[k].finishedAt < ttl)))
  {
    var r := |trace[i].requests|;
    var s, t, u := trace[i], trace[i + 1], trace[j];
    OutcomesAreFinal(ttl, trace, steps, i + 1, j);
    RunKeepsInv(ttl, trace, steps, i);
    RunKeepsInv(ttl, trace, steps, i + 1);
    RunKeepsInv(ttl, trace, steps, j);
    if Reusable(s.lister, s.now, ttl) {
      var k :| 0 <= k < |s.lister.listings| && Succeeded(s.lister.listings[k])
               && s.lister.last.value == Kept(s.lister.listings[k].images, s.lister.listings[k].finishedAt);
      assert Settled(t.lister.listings[k], u.lister.listings[k]);
      assert Succeeded(u.lister.listings[k]);
    } else {
      var k := t.lister.running.value;
      assert FromListing(t, r, k);
      WaiterGetsOutcome(ttl, trace, steps, i + 1, j, r, k);
    }
  }

  // A success that is over for less than ttl.
  predicate IsFresh(s: State, ttl: int, k: nat) {
    k < |s.lister.listings| && Succeeded(s.lister.listings[k]) && s.now - s.lister.listings[k].finishedAt < ttl
  }

  // No success ended later than this one.
  predicate IsNewest(s: State, k: nat) {
    && k < |s.lister.listings| && Succeeded(s.lister.listings[k])
    && forall j :: 0 <= j < |s.lister.listings| && Succeeded(s.lister.listings[j]) ==>
         s.lister.listings[j].finishedAt <= s.lister.listings[k].finishedAt
  }

  /**
   What a request gets at once: the newest success, exactly if there is a fresh one. Else it waits for the listing in
   progress, and only if there is none does it begin another.
   */
  lemma AskMeaning(s: State, ttl: int)
    requires Inv(s)
    ensures var t, r := Next(s, ttl, Ask), |s.requests|;
            && t.now == s.now && |t.requests| == r + 1 && t.requests[..r] == s.requests
            && (t.requests[r].Answered? <==> exists k: nat :: IsFresh(s, ttl, k))
            && (t.requests[r].Answered? ==>
                  t.lister == s.lister && !t.requests[r].joined
                  && exists k: nat :: IsNewest(s, k) && t.requests[r].answer == Success(s.lister.listings[k].images))
            && (t.requests[r].Waiting? ==>
                  var k := t.requests[r].listing;
                  if exists j :: 0 <= j < |s.lister.listings| && Runs(s.lister.listings[j])
                  then t.lister == s.lister && k < |s.lister.listings| && Runs(s.lister.listings[k])
                  else
                    && k == |s.lister.listings| && t.lister.last == s.lister.last
                    && t.lister.listings == s.lister.listings + [Listing(Sourcing, [], Some(Aborted), 0)])
  {
    var l := s.lister;
    if l.last.Some? {
      var k :| 0 <= k < |l.listings| && Succeeded(l.listings[k])
               && l.last.value == Kept(l.listings[k].images, l.listings[k].finishedAt);
      assert IsNewest(s, k);
      assert Reusable(l, s.now, ttl) ==> IsFresh(s, ttl, k);
    }
  }

  /** What a listing gives is what its source returned, from then on. A panic leaves it aborted. */
  lemma OutcomeIsTheSources(ttl: int, trace: seq<State>, steps: seq<Step>, i: nat, j: nat)
    requires Run(ttl, trace, steps) && i < j < |trace|
    ensures match steps[i]
            case SourceReturns(listing, images, fault) =>
              && listing < |trace[j].lister.listings|
              && trace[j].lister.listings[listing].images == images && trace[j].lister.listings[listing].fault == fault
            case SourcePanics(listing) =>
              listing < |trace[j].lister.listings| && trace[j].lister.listings[listing].fault == Some(Aborted)
            case _ => true
  {
    RunKeepsInv(ttl, trace, steps, i);
    OutcomesAreFinal(ttl, trace, steps, i + 1, j);
    var step := steps[i];
    if step.SourceReturns? || step.SourcePanics? {
      assert Settled(trace[i + 1].lister.listings[step.listing], trace[j].lister.listings[step.listing]);
    }
  }

  // The time that passed in the steps from place i to place j.
  function Passed(steps: seq<Step>, i: nat, j: nat): nat
    requires i <= j <= |steps|
  {
    if i == j then 0 else Passed(steps, i, j - 1) + if steps[j - 1].Tick? then steps[j - 1].passed else 0
  }

  lemma {:induction false} ClockRuns(ttl: int, trace: seq<State>, steps: seq<Step>, i: nat, j: nat)
    requires Run(ttl, trace, steps) && i <= j < |trace|
    ensures trace[j].now == trace[i].now + Passed(steps, i, j)
    decreases j
  {
    if i < j {
      ClockRuns(ttl, trace, steps, i, j - 1);
    }
  }

  /** A finished listing ended at the time of that step. */
  lemma EndsNow(ttl: int, trace: seq<State>, steps: seq<Step>, i: nat, j: nat)
    requires Run(ttl, trace, steps) && i < j < |trace| && steps[i].Finish?
    ensures steps[i].listing < |trace[j].lister.listings|
    ensures trace[j].lister.listings[steps[i].listing].finishedAt == trace[i].now
  {
    OutcomesAreFinal(ttl, trace, steps, i + 1, j);
    var k := steps[i].listing;
    assert Settled(trace[i + 1].lister.listings[k], trace[j].lister.listings[k]);
  }

  /** Requests that wait for one listing are all told the same, unless they give up. */
  lemma WaitersAgree(ttl: int, trace: seq<State>, steps: seq<Step>, i: nat, j: nat, q: nat, r: nat)
    requires Run(ttl, trace, steps) && i <= j < |trace|
    requires IsWaiting(trace[i], q) && IsWaiting(trace[i], r)
             && trace[i].requests[q].listing == trace[i].requests[r].listing
    ensures q < |trace[j].requests| && r < |trace[j].requests|
    ensures var a, b := trace[j].requests[q], trace[j].requests[r];
            a.Answered? && b.Answered? && a.answer != Failure(GaveUp) && b.answer != Failure(GaveUp) ==>
              a.answer == b.answer
  {
    RunKeepsInv(ttl, trace, steps, i);
    var k := trace[i].requests[q].listing;
    WaiterGetsOutcome(ttl, trace, steps, i, j, q, k);
    WaiterGetsOutcome(ttl, trace, steps, i, j, r, k);
  }

  // The steps that take a request towards its answer: those of its listing, and its own.
  predicate Advances(step: Step, r: nat, k: nat) {
    match step
    case SourceReturns(listing, _, _) => listing == k
    case SourcePanics(listing) => listing == k
    case Finish(listing) => listing == k
    case Close(listing) => listing == k
    case Wake(request) => request == r
    case GiveUp(request) => request == r
    case _ => false
  }

  // How many of the steps from place i to place j did so.
  function Advanced(steps: seq<Step>, i: nat, j: nat, r: nat, k: nat): nat
    requires i <= j <= |steps|
  {
    if i == j then 0 else Advanced(steps, i, j - 1, r, k) + if Advances(steps[j - 1], r, k) then 1 else 0
  }

  // How many are left until the listing is closed and the request answered.
  function StepsLeft(s: State, r: nat, k: nat): nat
    requires r < |s.requests| && k < |s.lister.listings|
  {
    var waiting := if s.requests[r].Waiting? then 1 else 0;
    match s.lister.listings[k].phase
    case Sourcing => waiting + 3
    case Returned => waiting + 2
    case Finished => waiting + 1
    case Closed => waiting
  }

  lemma StepTakesOne(s: State, ttl: int, step: Step, r: nat, k: nat)
    requires Inv(s) && Enabled(s, step) && r < |s.requests| && k < |s.lister.listings| && FromListing(s, r, k)
    ensures StepsLeft(Next(s, ttl, step), r, k) == StepsLeft(s, r, k) - if Advances(step, r, k) then 1 else 0
  {
  }

  lemma RunStepTakesOne(ttl: int, trace: seq<State>, steps: seq<Step>, i: nat, r: nat, k: nat)
    requires Run(ttl, trace, steps) && i < |steps|
    requires r < |trace[i].requests| && k < |trace[i].lister.listings| && FromListing(trace[i], r, k)
    ensures r < |trace[i + 1].requests| && k < |trace[i + 1].lister.listings|
    ensures StepsLeft(trace[i + 1], r, k) == StepsLeft(trace[i], r, k) - if Advances(steps[i], r, k) then 1 else 0
  {
    RunKeepsInv(ttl, trace, steps, i);
    StepTakesOne(trace[i], ttl, steps[i], r, k);
  }

  /**
   No request hangs: of all steps of a run, in any interleaving, exactly those of its listing and its own bring a
   waiting request closer to its answer. At most four of them are left, and as long as it waits its listing can take the
   next one, or is closed and lets it wake.
   */
  lemma AnsweredInFourSteps(ttl: int, trace: seq<State>, steps: seq<Step>, i: nat, j: nat, r: nat, k: nat)
    requires Run(ttl, trace, steps) && i <= j < |trace|
    requires IsWaiting(trace[i], r) && k == trace[i].requests[r].listing
    ensures r < |trace[j].requests| && k < |trace[i].lister.listings| && k < |trace[j].lister.listings|
    ensures StepsLeft(trace[j], r, k) + Advanced(steps, i, j, r, k) == StepsLeft(trace[i], r, k) <= 4
    ensures IsWaiting(trace[j], r) ==> exists step :: Enabled(trace[j], step) && Advances(step, r, k) && !step.GiveUp?
    ensures Advanced(steps, i, j, r, k) == 4 ==>
              trace[j].requests[r].Answered? && trace[j].lister.listings[k].phase == Closed
  {
    RunKeepsInv(ttl, trace, steps, i);
    StepsAddUp(ttl, trace, steps, i, j, r, k);
    if IsWaiting(trace[j], r) {
      WaiterCanGoOn(trace[j], r);
    }
  }

  lemma {:induction false} StepsAddUp(ttl: int, trace: seq<State>, steps: seq<Step>, i: nat, j: nat, r: nat, k: nat)
    requires Run(ttl, trace, steps) && i <= j < |trace|
    requires r < |trace[i].requests| && k < |trace[i].lister.listings| && FromListing(trace[i], r, k)
    ensures r < |trace[j].requests| && k < |trace[j].lister.listings| && FromListing(trace[j], r, k)
    ensures StepsLeft(trace[j], r, k) + Advanced(steps, i, j, r, k) == StepsLeft(trace[i], r, k)
  {
    if i < j {
      StepsAddUp(ttl, trace, steps, i, j - 1, r, k);
      WaiterOverStep(ttl, trace, steps, j - 1, r, k);
      RunStepTakesOne(ttl, trace, steps, j - 1, r, k);
    }
  }

  lemma WaiterCanGoOn(s: State, r: nat)
    requires IsWaiting(s, r) && s.requests[r].listing < |s.lister.listings|
    ensures exists step :: Enabled(s, step) && Advances(step, r, s.requests[r].listing) && !step.GiveUp?
  {
    var k := s.requests[r].listing;
    var step := match s.lister.listings[k].phase
      case Sourcing => SourcePanics(k)
      case Returned => Finish(k)
      case Finished => Close(k)
      case Closed => Wake(r);
    assert Enabled(s, step) && Advances(step, r, k);
  }

  /** One run of the lister's source. The fields are set before done. */
  class DiskListing {
    ghost const id: nat
    var images: Images
    var fault: Option<Fault>
    var done: bool
    ghost var phase: Phase
    ghost var finishedAt: int

    constructor (ghost id: nat)
      ensures this.id == id && View() == Listing(Sourcing, [], Some(Aborted), 0) && !done
    {
      this.id := id;
      images, fault, done, phase, finishedAt := [], Some(Aborted), false, Sourcing, 0;
    }

    ghost function View(): Listing
      reads this
    {
      Listing(phase, images, fault, finishedAt)
    }
  }

  class BuilderDiskLister {
    const ttl: int
    var running: DiskListing?
    var last: Images
    var lastAt: int
    var hasLast: bool
    ghost var listings: seq<DiskListing>

    constructor (ttl: int)
      ensures Valid() && View() == INITIAL && this.ttl == ttl && listings == []
    {
      this.ttl := ttl;
      running, last, lastAt, hasLast, listings := null, [], 0, false, [];
    }

    ghost predicate Valid()
      reads this, listings
    {
      && (forall k :: 0 <= k < |listings| ==>
            listings[k].id == k && (listings[k].done <==> listings[k].phase == Closed))
      && (running != null ==> running in listings)
    }

    ghost function View(): Lister
      reads this, listings, running
    {
      Lister(seq(|listings|, k requires 0 <= k < |listings| reads this, listings => listings[k].View()),
             if running == null then None else Some(running.id),
             if hasLast then Some(Kept(last, lastAt)) else None)
    }

    // The part of a request that holds the lock: the images to reuse, or the listing to wait for.
    method Images(now: int) returns (reused: Option<Images>, listing: DiskListing?)
      requires Valid()
      modifies this
      ensures Valid()
      ensures if Reusable(old(View()), now, ttl)
              then View() == old(View()) && reused == Some(View().last.value.images)
              else View() == Joined(old(View())) && reused == None && listing != null
                   && Some(listing.id) == View().running
    {
      if hasLast && now - lastAt < ttl {
        return Some(last), null;
      }
      reused, listing := None, running;
      if listing == null {
        ghost var before := View();
        listing := new DiskListing(|listings|);
        running := listing;
        listings := listings + [listing];
        assert View().listings == before.listings + [listing.View()];
      }
    }

    // The source's return, or its panic when there is no result.
    method List(listing: DiskListing, result: Option<(Images, Option<Fault>)>)
      requires Valid() && listing in listings && listing.phase == Sourcing
      modifies listing
      ensures Valid()
      ensures var l := old(View());
              View() == WithListing(l, listing.id, match result
                                                   case Some(r) => l.listings[listing.id].(phase := Returned,
                                                                                           images := r.0, fault := r.1)
                                                   case None => l.listings[listing.id].(phase := Returned))
    {
      ghost var before := View();
      if result.Some? {
        listing.images, listing.fault := result.value.0, result.value.1;
      }
      listing.phase := Returned;
      assert View().listings == before.listings[listing.id := listing.View()];
    }

    // Takes the listing off the lister, and keeps a success.
    method FinishListing(listing: DiskListing, now: int)
      requires Valid() && listing in listings && listing.phase == Returned
      modifies this, listing
      ensures Valid() && View() == AfterFinish(old(View()), listing.id, now)
    {
      ghost var before := View();
      running := null;
      if listing.fault == None {
        last, lastAt, hasLast := listing.images, now, true;
      }
      listing.phase, listing.finishedAt := Finished, now;
      assert View().listings == before.listings[listing.id := listing.View()];
    }

    // Lets the requests that wait go on.
    method CloseListing(listing: DiskListing)
      requires Valid() && listing in listings && listing.phase == Finished
      modifies listing
      ensures Valid() && listing.done
      ensures View() == WithListing(old(View()), listing.id, old(View()).listings[listing.id].(phase := Closed))
    {
      ghost var before := View();
      listing.done, listing.phase := true, Closed;
      assert View().listings == before.listings[listing.id := listing.View()];
    }
  }
}
