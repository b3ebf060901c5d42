/**
 Applying the apps of an experiment at a stage of its life: which apps are called, which are queued for a cleanup, and
 which are marked as running. Apps, the store and interrupts may fail at any point.
 */
module AppLifecycle {
  import opened Wrappers
  import opened Contexts

  datatype Stage = Configure | PreStart | PostStart | Running | Cleanup

  datatype Outcome = Succeeded | NotFound | Failed

  // An app of the scenario.
  datatype ScenarioApp = ScenarioApp(name: string, disabled: bool)

  // No filter names every app. The dry run flag only goes to the apps.
  datatype Options = Options(stage: Stage, trigger: bool, filter: set<string>)

  // One call of an app's stage.
  datatype Call = Call(app: string, stage: Stage, trigger: bool, outcome: Outcome)

  datatype Result = Done | Interrupted | AppFailed(app: string)

  predicate Matches(options: Options, name: string) {
    options.filter == {} || name in options.filter
  }

  predicate Queues(stage: Stage, trigger: bool) {
    trigger && stage in {Configure, PreStart, PostStart}
  }

  // The call of a cleanup that succeeds.
  predicate Cleans(call: Call) {
    call.stage == Cleanup && call.outcome == Succeeded
  }

  // The queue after a call: triggered stages queue their app, whatever comes of them, and a cleanup that succeeds takes
  // it off.
  function AfterCall(queue: set<string>, call: Call): set<string> {
    if Queues(call.stage, call.trigger) then queue + {call.app}
    else if Cleans(call) then queue - {call.app}
    else queue
  }

  function Queue(queue: set<string>, calls: seq<Call>): set<string>
    decreases |calls|
  {
    if calls == [] then queue else AfterCall(Queue(queue, calls[..|calls| - 1]), calls[|calls| - 1])
  }

  lemma QueueWith(queue: set<string>, calls: seq<Call>, call: Call)
    ensures Queue(queue, calls + [call]) == AfterCall(Queue(queue, calls), call)
  {
    assert (calls + [call])[..|calls|] == calls;
  }

  predicate CleanedUp(calls: seq<Call>, app: string, i: nat) {
    exists j :: i <= j < |calls| && calls[j].app == app && calls[j].stage == Cleanup && calls[j].outcome == Succeeded
  }

  // A triggered stage queued the app, and no cleanup of it has succeeded since.
  predicate StillQueued(calls: seq<Call>, app: string) {
    exists i :: 0 <= i < |calls| && calls[i].app == app && calls[i].trigger
                && calls[i].stage != Running && calls[i].stage != Cleanup && !CleanedUp(calls, app, i)
  }

  /**
   Over any history of calls, an app is in the queue that they ask for just when a triggered stage queued it, or it was
   queued before, and no cleanup of it has succeeded since.
   */
  lemma {:induction false} QueuedIff(queue: set<string>, calls: seq<Call>, app: string)
    ensures app in Queue(queue, calls) <==>
            || (app in queue && !CleanedUp(calls, app, 0))
            || StillQueued(calls, app)
    decreases |calls|
  {
    if calls != [] {
      var before, last := calls[..|calls| - 1], calls[|calls| - 1];
      QueuedIff(queue, before, app);
      forall i | 0 <= i <= |before|
        ensures CleanedUp(calls, app, i) <==> CleanedUp(before, app, i) || (last.app == app && Cleans(last))
      {
        CleanedUpWith(before, last, app, i);
        assert calls == before + [last];
      }
      if last.app == app && Queues(last.stage, last.trigger) {
        assert !CleanedUp(calls, app, |before|);
      }
      forall i | 0 <= i < |before|
        ensures calls[i] == before[i]
      {
      }
    }
  }

  lemma CleanedUpWith(calls: seq<Call>, last: Call, app: string, i: nat)
    requires i <= |calls|
    ensures CleanedUp(calls + [last], app, i) <==> CleanedUp(calls, app, i) || (last.app == app && Cleans(last))
  {
    var all := calls + [last];
    if CleanedUp(calls, app, i) {
      var j :| i <= j < |calls| && calls[j].app == app && calls[j].stage == Cleanup && calls[j].outcome == Succeeded;
      assert all[j] == calls[j];
    }
    assert all[|calls|] == last;
  }

  // The status of an experiment in memory and in the store: the apps marked as running, and those queued for a cleanup.
  datatype Status = Status(running: set<string>, cleanup: set<string>, savedRunning: set<string>,
                           savedCleanup: set<string>)

  const NEW: Status := Status({}, {}, {}, {})

  /**
   What happens to the status: its marks are reset, it is saved or read again between stages, a default app is called,
   or one of the scenario. For the latter the status is saved before the call, read again after it at the running stage,
   and saved. Each of these may fail.
   */
  datatype Event =
    | Reset
    | Saved
    | Reloaded
    | Default(call: Call)
    | Applied(call: Call, savedFirst: bool, reloaded: bool, savedLast: bool)

  predicate IsCall(e: Event) {
    e.Default? || e.Applied?
  }

  // Only the running stage reads the status again.
  predicate Proper(e: Event) {
    e.Applied? && e.reloaded ==> e.call.stage == Running
  }

  function SavedStatus(s: Status): Status {
    s.(savedRunning := s.running, savedCleanup := s.cleanup)
  }

  function LoadedStatus(s: Status): Status {
    s.(running := s.savedRunning, cleanup := s.savedCleanup)
  }

  // The status when an app of the scenario is called, and when it has returned.
  function Begun(s: Status, call: Call, savedFirst: bool): Status {
    var marked := s.(running := s.running + {call.app},
                     cleanup := if Queues(call.stage, call.trigger) then s.cleanup + {call.app} else s.cleanup);
    if savedFirst then SavedStatus(marked) else marked
  }

  function Ended(s: Status, call: Call, reloaded: bool, savedLast: bool): Status {
    var returned := if reloaded then LoadedStatus(s) else s;
    var cleared := returned.(running := returned.running - {call.app});
    var stored := if savedLast then SavedStatus(cleared) else cleared;
    if Cleans(call) then stored.(cleanup := stored.cleanup - {call.app}) else stored
  }

  function After(s: Status, e: Event): Status {
    match e
    case Reset => s.(running := {})
    case Saved => SavedStatus(s)
    case Reloaded => LoadedStatus(s)
    case Default(call) => s.(cleanup := AfterCall(s.cleanup, call))
    case Applied(call, savedFirst, reloaded, savedLast) => Ended(Begun(s, call, savedFirst), call, reloaded, savedLast)
  }

  // The status after the first n events.
  function At(s: Status, events: seq<Event>, n: nat): Status
    requires n <= |events|
  {
    if n == 0 then s else After(At(s, events, n - 1), events[n - 1])
  }

  lemma {:induction false} AtPrefix(s: Status, first: seq<Event>, all: seq<Event>, n: nat)
    requires first <= all && n <= |first|
    ensures At(s, all, n) == At(s, first, n)
  {
    if n > 0 {
      AtPrefix(s, first, all, n - 1);
    }
  }

  lemma Grown(s: Status, events: seq<Event>, e: Event)
    ensures At(s, events + [e], |events| + 1) == After(At(s, events, |events|), e)
  {
    AtPrefix(s, events, events + [e], |events|);
  }

  // The calls among the events from place i to place n.
  function Calls(events: seq<Event>, i: nat, n: nat): seq<Call>
    requires i <= n <= |events|
  {
    if n == i then []
    else Calls(events, i, n - 1) + if IsCall(events[n - 1]) then [events[n - 1].call] else []
  }

  // The event puts the status in memory back to the one that was saved before it.
  predicate Loads(e: Event) {
    e.Reloaded? || (e.Applied? && !e.savedFirst && e.reloaded)
  }

  predicate CleansUp(e: Event, app: string) {
    IsCall(e) && e.call.app == app && Cleans(e.call)
  }

  predicate Loses(s: Status, e: Event, app: string) {
    Loads(e) && app !in s.savedCleanup
  }

  predicate AllProper(events: seq<Event>) {
    forall k :: 0 <= k < |events| ==> Proper(events[k])
  }

  // The app is queued at every place from i to n.
  predicate QueuedThroughout(s: Status, events: seq<Event>, i: nat, n: nat, app: string)
    requires i <= n <= |events|
  {
    forall k :: i <= k <= n ==> app in At(s, events, k).cleanup
  }

  /**
   An app that is queued stays queued until a cleanup of it succeeds, unless the saved queue is read that does not hold
   it.
   */
  lemma {:induction false} StaysQueuedIff(s: Status, events: seq<Event>, i: nat, n: nat, app: string)
    requires i <= n <= |events| && AllProper(events) && app in At(s, events, i).cleanup
    ensures QueuedThroughout(s, events, i, n, app) <==>
            forall k :: i <= k < n ==> !CleansUp(events[k], app) && !Loses(At(s, events, k), events[k], app)
    decreases n
  {
    if i < n {
      StaysQueuedIff(s, events, i, n - 1, app);
      if app in At(s, events, n - 1).cleanup {
        StaysOverOne(At(s, events, n - 1), events[n - 1], app);
      }
      assert QueuedThroughout(s, events, i, n, app) <==>
             QueuedThroughout(s, events, i, n - 1, app) && app in At(s, events, n).cleanup;
    }
  }

  lemma StaysOverOne(s: Status, e: Event, app: string)
    requires Proper(e) && app in s.cleanup
    ensures app in After(s, e).cleanup <==> !CleansUp(e, app) && !Loses(s, e, app)
  {
  }

  // The saved queue is read, and it differs on the app from the one in memory.
  predicate Strays(s: Status, e: Event, app: string) {
    Loads(e) && (app in s.savedCleanup <==> app !in s.cleanup)
  }

  // The app is queued at place n just when the calls since place i ask for it.
  predicate Follows(s: Status, events: seq<Event>, i: nat, n: nat, app: string)
    requires i <= n <= |events|
  {
    app in At(s, events, n).cleanup <==> app in Queue(At(s, events, i).cleanup, Calls(events, i, n))
  }

  predicate FollowsThroughout(s: Status, events: seq<Event>, i: nat, n: nat, app: string)
    requires i <= n <= |events|
  {
    forall k :: i <= k <= n ==> Follows(s, events, i, k, app)
  }

  /** The queue follows the calls, at all times, just when no saved queue is read that is out of date. */
  lemma {:induction false} QueueFollowsIff(s: Status, events: seq<Event>, i: nat, n: nat, app: string)
    requires i <= n <= |events| && AllProper(events)
    ensures FollowsThroughout(s, events, i, n, app) <==>
            forall k :: i <= k < n ==> !Strays(At(s, events, k), events[k], app)
    decreases n
  {
    if i < n {
      QueueFollowsIff(s, events, i, n - 1, app);
      if Follows(s, events, i, n - 1, app) {
        FollowsOn(s, events, i, n, app);
      }
      assert FollowsThroughout(s, events, i, n, app) <==>
             FollowsThroughout(s, events, i, n - 1, app) && Follows(s, events, i, n, app);
    }
  }

  lemma FollowsOn(s: Status, events: seq<Event>, i: nat, n: nat, app: string)
    requires i < n <= |events| && AllProper(events) && Follows(s, events, i, n - 1, app)
    ensures Follows(s, events, i, n, app) <==> !Strays(At(s, events, n - 1), events[n - 1], app)
  {
    var q, e := At(s, events, i).cleanup, events[n - 1];
    FollowsOverOne(At(s, events, n - 1), e, app);
    QueueOverOne(q, events, i, n);
    SameMembership(At(s, events, n - 1).cleanup, Queue(q, Calls(events, i, n - 1)), e, app);
  }

  lemma SameMembership(a: set<string>, b: set<string>, e: Event, app: string)
    requires app in a <==> app in b
    ensures app in AfterEvent(a, e) <==> app in AfterEvent(b, e)
  {
  }

  function AfterEvent(queue: set<string>, e: Event): set<string> {
    if IsCall(e) then AfterCall(queue, e.call) else queue
  }

  lemma QueueOverOne(queue: set<string>, events: seq<Event>, i: nat, n: nat)
    requires i < n <= |events|
    ensures Queue(queue, Calls(events, i, n)) == AfterEvent(Queue(queue, Calls(events, i, n - 1)), events[n - 1])
  {
    var before := Calls(events, i, n - 1);
    if IsCall(events[n - 1]) {
      QueueWith(queue, before, events[n - 1].call);
    } else {
      assert Calls(events, i, n) == before;
    }
  }

  lemma FollowsOverOne(s: Status, e: Event, app: string)
    requires Proper(e)
    ensures (app in After(s, e).cleanup <==> app in AfterEvent(s.cleanup, e)) <==> !Strays(s, e, app)
  {
  }

  /**
   So over any such history of a new experiment an app is queued just when a stage queued it and no cleanup of it
   succeeded since.
   */
  lemma QueuedOverHistory(events: seq<Event>, n: nat, app: string)
    requires n <= |events| && AllProper(events)
    requires forall k :: 0 <= k < n ==> !Strays(At(NEW, events, k), events[k], app)
    ensures app in At(NEW, events, n).cleanup <==> StillQueued(Calls(events, 0, n), app)
  {
    QueueFollowsIff(NEW, events, 0, n, app);
    assert Follows(NEW, events, 0, n, app);
    QueuedIff({}, Calls(events, 0, n), app);
  }

  function LosingEvents(queued: string, other: string): seq<Event> {
    [Applied(Call(queued, Configure, true, Succeeded), false, false, false),
     Applied(Call(other, Running, true, Succeeded), false, true, true)]
  }

  /**
   After failed saves a running stage of another app loses a queued app: it will not be cleaned up when it is disabled.
   */
  lemma FailedSavesLoseQueued(queued: string, other: string)
    ensures var events := LosingEvents(queued, other);
            At(NEW, events, 2) == NEW && Queue({}, Calls(events, 0, 2)) == {queued}
  {
    var events := LosingEvents(queued, other);
    assert At(NEW, events, 1) == Status({}, {queued}, {}, {});
    assert At(NEW, events, 2) == After(At(NEW, events, 1), events[1]);
    var first, second := Call(queued, Configure, true, Succeeded), Call(other, Running, true, Succeeded);
    assert Calls(events, 0, 1) == [] + [first];
    assert Calls(events, 0, 2) == [first] + [second];
    QueueWith({}, [], first);
    QueueWith({}, [first], second);
  }

  // The marks that were in memory or read from the store last, before the first n events, and the apps called since.
  function MarksRead(s: Status, events: seq<Event>, n: nat): set<string>
    requires n <= |events|
  {
    if n == 0 then s.running
    else if events[n - 1].Reset? then {}
    else if Loads(events[n - 1]) then At(s, events, n - 1).savedRunning
    else MarksRead(s, events, n - 1)
  }

  function AppliedSince(events: seq<Event>, n: nat): set<string>
    requires n <= |events|
  {
    if n == 0 then {}
    else
      var e := events[n - 1];
      (if e.Reset? || Loads(e) then {} else AppliedSince(events, n - 1)) + if e.Applied? then {e.call.app} else {}
  }

  /** After any events, no app is left marked just when those marked at the last reading have all been applied since. */
  lemma {:induction false} NothingLeftMarkedIff(s: Status, events: seq<Event>, n: nat)
    requires n <= |events|
    ensures At(s, events, n).running == MarksRead(s, events, n) - AppliedSince(events, n)
    ensures At(s, events, n).running == {} <==> MarksRead(s, events, n) <= AppliedSince(events, n)
  {
    if n > 0 {
      NothingLeftMarkedIff(s, events, n - 1);
    }
    EmptyIffWithin(MarksRead(s, events, n), AppliedSince(events, n));
  }

  lemma EmptyIffWithin(a: set<string>, b: set<string>)
    ensures a - b == {} <==> a <= b
  {
    forall x | x in a && a - b == {}
      ensures x in b
    {
      assert x !in a - b;
    }
  }

  // The mark that the store was left with: that of an app saved before its call when the save after it failed.
  function LeftSaved(events: seq<Event>, i: nat, n: nat): set<string>
    requires i <= n <= |events|
  {
    if n == i then {}
    else
      match events[n - 1]
      case Applied(call, savedFirst, _, savedLast) =>
        if savedLast then {} else if savedFirst then {call.app} else LeftSaved(events, i, n - 1)
      case Saved => {}
      case _ => LeftSaved(events, i, n - 1)
  }

  // The event brings no mark back, but that of its own app.
  predicate Harmless(events: seq<Event>, i: nat, k: nat)
    requires i <= k < |events|
  {
    Loads(events[k]) ==> LeftSaved(events, i, k) <= if events[k].Applied? then {events[k].call.app} else {}
  }

  predicate AllHarmless(events: seq<Event>, i: nat, n: nat)
    requires i <= n <= |events|
  {
    forall k :: i <= k < n ==> Harmless(events, i, k)
  }

  predicate NeverMarked(s: Status, events: seq<Event>, i: nat, n: nat)
    requires i <= n <= |events|
  {
    forall k :: i <= k <= n ==> At(s, events, k).running == {}
  }

  /**
   From a place where nothing is marked, no app is left marked after any event just when none reads the mark of another
   app that a failed save left in the store. The store then has that mark alone, if any.
   */
  lemma {:induction false} NeverMarkedIff(s: Status, events: seq<Event>, i: nat, n: nat)
    requires i <= n <= |events| && At(s, events, i).running == At(s, events, i).savedRunning == {}
    ensures NeverMarked(s, events, i, n) <==> AllHarmless(events, i, n)
    ensures NeverMarked(s, events, i, n) ==> At(s, events, n).savedRunning == LeftSaved(events, i, n)
    decreases n
  {
    if i < n {
      NeverMarkedIff(s, events, i, n - 1);
      if NeverMarked(s, events, i, n - 1) {
        MarkedOverOne(At(s, events, n - 1), events, i, n - 1);
      }
      assert AllHarmless(events, i, n) <==> AllHarmless(events, i, n - 1) && Harmless(events, i, n - 1);
      assert NeverMarked(s, events, i, n) <==> NeverMarked(s, events, i, n - 1) && At(s, events, n).running == {};
    }
  }

  lemma MarkedOverOne(s: Status, events: seq<Event>, i: nat, k: nat)
    requires i <= k < |events| && s.running == {} && s.savedRunning == LeftSaved(events, i, k)
    ensures After(s, events[k]).running == {} <==> Harmless(events, i, k)
    ensures After(s, events[k]).running == {} ==> After(s, events[k]).savedRunning == LeftSaved(events, i, k + 1)
  {
    var e := events[k];
    if e.Applied? {
      EmptyIffWithin(s.savedRunning, {e.call.app});
    }
  }

  /** So two failed saves leave the first of two apps marked, and its running stage is skipped from then on. */
  lemma FailedSavesLeaveMark(first: string, second: string)
    requires first != second
    ensures var events := [Applied(Call(first, Running, true, Succeeded), true, true, false),
                           Applied(Call(second, Running, true, Succeeded), false, true, true)];
            At(NEW, events, 2).running == At(NEW, events, 2).savedRunning == {first}
  {
    var events := [Applied(Call(first, Running, true, Succeeded), true, true, false),
                   Applied(Call(second, Running, true, Succeeded), false, true, true)];
    assert At(NEW, events, 1) == Status({}, {}, {first}, {});
  }

  // The names of the apps called since there were n events.
  function CalledSince(events: seq<Event>, n: nat): set<string> {
    set i | n <= i < |events| && IsCall(events[i]) :: events[i].call.app
  }

  // One more call continues the history.
  lemma Continued(events: seq<Event>, n: nat, e: Event)
    requires n <= |events| && IsCall(e)
    ensures CalledSince(events + [e], n) == CalledSince(events, n) + {e.call.app}
  {
    var all := events + [e];
    forall app | app in CalledSince(events, n)
      ensures app in CalledSince(all, n)
    {
      var i :| n <= i < |events| && IsCall(events[i]) && events[i].call.app == app;
      assert all[i].call.app == app;
    }
    assert all[|events|] == e;
  }

  // Whether the loop over the scenario calls the app. disabled only matters if there is no filter, and the stage is
  // neither Running nor a cleanup that the queue asks for.
  predicate Due(defaults: set<string>, app: ScenarioApp, options: Options, queue: set<string>) {
    && app.name !in defaults && Matches(options, app.name)
    && (!app.disabled || options.stage == Running || options.filter != {}
        || (options.stage == Cleanup && app.name in queue))
  }

  predicate MayCall(defaults: set<string>, apps: seq<ScenarioApp>, options: Options, queue: set<string>, name: string) {
    exists k :: 0 <= k < |apps| && apps[k].name == name && Due(defaults, apps[k], options, queue)
  }

  // The event is a call for the options.
  predicate CallsFor(e: Event, options: Options) {
    IsCall(e) && Proper(e) && e.call.stage == options.stage && e.call.trigger == options.trigger
  }

  // Every call is of an app that was due.
  predicate OnlyDue(defaults: set<string>, apps: seq<ScenarioApp>, options: Options, queue: set<string>,
                    events: seq<Event>, n: nat)
  {
    forall i :: n <= i < |events| ==>
      events[i].Applied? && CallsFor(events[i], options) && MayCall(defaults, apps, options, queue, events[i].call.app)
  }

  // Of the first k apps, those that are due were called.
  predicate DueCalled(defaults: set<string>, apps: seq<ScenarioApp>, options: Options, queue: set<string>,
                      called: set<string>, k: nat)
    requires k <= |apps|
  {
    forall j :: 0 <= j < k && Due(defaults, apps[j], options, queue) ==> apps[j].name in called
  }

  lemma OneMoreCalled(defaults: set<string>, apps: seq<ScenarioApp>, options: Options, queue: set<string>,
                      next: set<string>, called: set<string>, k: nat)
    requires k < |apps| && DueCalled(defaults, apps, options, queue, called, k)
             && (options.stage == Cleanup ==> next <= queue)
    ensures DueCalled(defaults, apps, options, next, called + {apps[k].name}, k + 1)
  {
    assert forall j :: 0 <= j < k && Due(defaults, apps[j], options, next) ==> Due(defaults, apps[j], options, queue);
  }

  // The events since there were n are calls of these apps for the options.
  predicate CallsOf(apps: set<string>, options: Options, events: seq<Event>, n: nat) {
    forall i :: n <= i < |events| ==> CallsFor(events[i], options) && events[i].call.app in apps
  }

  lemma DueIsNamed(defaults: set<string>, apps: seq<ScenarioApp>, options: Options, queue: set<string>,
                   events: seq<Event>, n: nat)
    requires OnlyDue(defaults, apps, options, queue, events, n)
    ensures CallsOf(Names(apps), options, events, n)
  {
    forall i | n <= i < |events|
      ensures events[i].call.app in Names(apps)
    {
      var k :| 0 <= k < |apps| && apps[k].name == events[i].call.app;
    }
  }

  lemma CallsOfParts(a: set<string>, b: set<string>, options: Options, first: seq<Event>, all: seq<Event>, n: nat)
    requires first <= all && n <= |first| && CallsOf(a, options, first, n) && CallsOf(b, options, all, |first|)
    ensures CallsOf(a + b, options, all, n)
  {
    assert forall i :: n <= i < |first| ==> all[i] == first[i];
  }

  function Names(apps: seq<ScenarioApp>): set<string> {
    set i | 0 <= i < |apps| :: apps[i].name
  }

  // Every saved queue that is read is the one in memory.
  predicate UpToDate(s: Status, events: seq<Event>, i: nat, n: nat)
    requires i <= n <= |events|
  {
    forall k :: i <= k < n && Loads(events[k]) ==> At(s, events, k).savedCleanup == At(s, events, k).cleanup
  }

  // The whole queue is the one that the calls ask for.
  predicate QueueIsAsked(s: Status, events: seq<Event>, i: nat, n: nat)
    requires i <= n <= |events|
  {
    At(s, events, n).cleanup == Queue(At(s, events, i).cleanup, Calls(events, i, n))
  }

  // The queue follows the calls, at all times, just when every saved queue that is read is up to date.
  lemma {:induction false} WholeQueueFollowsIff(s: Status, events: seq<Event>, i: nat, n: nat)
    requires i <= n <= |events| && AllProper(events)
    ensures (forall k :: i <= k <= n ==> QueueIsAsked(s, events, i, k)) <==> UpToDate(s, events, i, n)
    decreases n
  {
    if i < n {
      WholeQueueFollowsIff(s, events, i, n - 1);
      if QueueIsAsked(s, events, i, n - 1) {
        QueueAskedOn(s, events, i, n);
      }
      assert UpToDate(s, events, i, n) <==> UpToDate(s, events, i, n - 1) && UpToDate(s, events, n - 1, n);
      assert (forall k :: i <= k <= n ==> QueueIsAsked(s, events, i, k)) <==>
             (forall k :: i <= k <= n - 1 ==> QueueIsAsked(s, events, i, k)) && QueueIsAsked(s, events, i, n);
    }
  }

  lemma QueueAskedOn(s: Status, events: seq<Event>, i: nat, n: nat)
    requires i < n <= |events| && AllProper(events) && QueueIsAsked(s, events, i, n - 1)
    ensures QueueIsAsked(s, events, i, n) <==> UpToDate(s, events, n - 1, n)
  {
    QueueOverOne(At(s, events, i).cleanup, events, i, n);
    AskedOverOne(At(s, events, n - 1), events[n - 1]);
  }

  lemma AskedOverOne(s: Status, e: Event)
    requires Proper(e)
    ensures After(s, e).cleanup == AfterEvent(s.cleanup, e) <==> (Loads(e) ==> s.savedCleanup == s.cleanup)
  {
  }

  // No running stage was called of an app that was marked as running then.
  predicate NoneWhileRunning(events: seq<Event>, n: nat) {
    forall i :: n <= i < |events| && IsCall(events[i]) && events[i].call.stage == Running ==>
      events[i].call.app !in At(NEW, events, i).running
  }

  lemma NoneWhileRunningWith(events: seq<Event>, e: Event, n: nat)
    requires NoneWhileRunning(events, n)
    requires IsCall(e) && e.call.stage == Running ==> e.call.app !in At(NEW, events, |events|).running
    ensures NoneWhileRunning(events + [e], n)
  {
    forall i | n <= i < |events| + 1
      ensures At(NEW, events + [e], i) == At(NEW, events, i)
    {
      AtPrefix(NEW, events, events + [e], i);
    }
  }

  // The app was marked as running at some time since there were n events.
  ghost predicate MarkedSince(events: seq<Event>, n: nat, app: string) {
    exists i :: n <= i <= |events| && app in At(NEW, events, i).running
  }

  lemma MarkedStill(first: seq<Event>, all: seq<Event>, n: nat, app: string)
    requires first <= all && MarkedSince(first, n, app)
    ensures MarkedSince(all, n, app)
  {
    var i :| n <= i <= |first| && app in At(NEW, first, i).running;
    AtPrefix(NEW, first, all, i);
  }

  // Of the first k apps, those that are due were called, or marked as running already.
  ghost predicate DueRan(defaults: set<string>, apps: seq<ScenarioApp>, options: Options, events: seq<Event>, n: nat,
                         k: nat)
    requires k <= |apps|
  {
    forall j :: 0 <= j < k && Due(defaults, apps[j], options, {}) ==>
      apps[j].name in CalledSince(events, n) || MarkedSince(events, n, apps[j].name)
  }

  lemma DueStillRan(defaults: set<string>, apps: seq<ScenarioApp>, options: Options, first: seq<Event>, all: seq<Event>,
                    n: nat, k: nat)
    requires k <= |apps| && first <= all && n <= |first| && DueRan(defaults, apps, options, first, n, k)
    ensures DueRan(defaults, apps, options, all, n, k)
  {
    CalledInParts(first, all, n);
    forall j | 0 <= j < k && Due(defaults, apps[j], options, {})
      ensures apps[j].name in CalledSince(all, n) || MarkedSince(all, n, apps[j].name)
    {
      if apps[j].name !in CalledSince(first, n) {
        MarkedStill(first, all, n, apps[j].name);
      }
    }
  }

  predicate Resets(options: Options) {
    options.stage == PreStart && !options.trigger
  }

  // The events since there were n are those of one application of the apps.
  predicate OfOneApplication(apps: set<string>, options: Options, events: seq<Event>, n: nat) {
    if options.stage == PreStart && !options.trigger
    then |events| > n && events[n] == Reset && CallsOf(apps, options, events, n + 1)
    else CallsOf(apps, options, events, n)
  }

  predicate AllSucceeded(events: seq<Event>, n: nat) {
    forall i :: n <= i < |events| && IsCall(events[i]) ==> events[i].call.outcome == Succeeded
  }

  /**
   Which apps of the scenario are called: never a default app, nor one that a filter does not name. A disabled app is
   called when a filter names it, at the running stage, and at a cleanup that it still waits for.
   */
  lemma DueMeaning(defaults: set<string>, app: ScenarioApp, options: Options, queue: set<string>)
    ensures app.name in defaults ==> !Due(defaults, app, options, queue)
    ensures app.name !in defaults && options.filter != {} ==>
              (Due(defaults, app, options, queue) <==> app.name in options.filter)
    ensures app.name !in defaults && options.filter == {} ==>
              match options.stage
              case Running => Due(defaults, app, options, queue)
              case Cleanup => Due(defaults, app, options, queue) <==> app.disabled ==> app.name in queue
              case _ => Due(defaults, app, options, queue) <==> !app.disabled
  {
  }

  /** So without a filter a disabled app is never called to configure or start an experiment. */
  lemma DisabledIsPassedBy(defaults: set<string>, apps: seq<ScenarioApp>, options: Options, queue: set<string>,
                           events: seq<Event>, n: nat, i: nat)
    requires OnlyDue(defaults, apps, options, queue, events, n) && n <= i < |events| && options.filter == {}
    requires options.stage in {Configure, PreStart, PostStart}
    ensures exists k :: 0 <= k < |apps| && apps[k].name == events[i].call.app && !apps[k].disabled
  {
    assert MayCall(defaults, apps, options, queue, events[i].call.app);
  }

  // The events since there were n call the apps at these places of the list, one after the other, and each was due.
  predicate CalledAt(defaults: set<string>, apps: seq<ScenarioApp>, options: Options, queue: set<string>,
                     events: seq<Event>, n: nat, places: seq<nat>, k: nat)
    requires k <= |apps|
  {
    && |events| == n + |places|
    && (forall i :: 0 <= i < |places| ==>
          && places[i] < k && events[n + i].Applied? && events[n + i].call.app == apps[places[i]].name
          && Due(defaults, apps[places[i]], options, queue))
    && forall i, j :: 0 <= i < j < |places| ==> places[i] < places[j]
  }

  ghost predicate InOrder(defaults: set<string>, apps: seq<ScenarioApp>, options: Options, queue: set<string>,
                          events: seq<Event>, n: nat)
  {
    exists places: seq<nat> :: CalledAt(defaults, apps, options, queue, events, n, places, |apps|)
  }

  lemma CalledSkip(defaults: set<string>, apps: seq<ScenarioApp>, options: Options, queue: set<string>,
                   events: seq<Event>, n: nat, places: seq<nat>, k: nat)
    requires k < |apps| && CalledAt(defaults, apps, options, queue, events, n, places, k)
    ensures CalledAt(defaults, apps, options, queue, events, n, places, k + 1)
  {
    assert forall i :: 0 <= i < |places| ==> places[i] < k;
  }

  lemma CalledNext(defaults: set<string>, apps: seq<ScenarioApp>, options: Options, queue: set<string>,
                   events: seq<Event>, n: nat, places: seq<nat>, k: nat, e: Event)
    requires k < |apps| && CalledAt(defaults, apps, options, queue, events, n, places, k)
    requires e.Applied? && e.call.app == apps[k].name && Due(defaults, apps[k], options, queue)
    ensures CalledAt(defaults, apps, options, queue, events + [e], n, places + [k], k + 1)
  {
  }

  lemma CalledInOrder(defaults: set<string>, apps: seq<ScenarioApp>, options: Options, queue: set<string>,
                      events: seq<Event>, n: nat, places: seq<nat>, k: nat)
    requires k <= |apps| && CalledAt(defaults, apps, options, queue, events, n, places, k)
    ensures InOrder(defaults, apps, options, queue, events, n)
  {
    assert forall i :: 0 <= i < |places| ==> places[i] < k;
    assert CalledAt(defaults, apps, options, queue, events, n, places, |apps|);
  }

  // Where the calls of the first k apps have led, without a failure.
  predicate CallState(defaults: set<string>, apps: seq<ScenarioApp>, options: Options, first: set<string>,
                      events: seq<Event>, n: nat, places: seq<nat>, k: nat)
    requires k <= |apps|
  {
    && n <= |events| && OnlyDue(defaults, apps, options, first, events, n)
    && CalledAt(defaults, apps, options, first, events, n, places, k) && StoppedBy(Done, events, n)
  }

  lemma CallStateGives(defaults: set<string>, apps: seq<ScenarioApp>, options: Options, first: set<string>,
                       events: seq<Event>, n: nat, places: seq<nat>, k: nat)
    requires k <= |apps| && CallState(defaults, apps, options, first, events, n, places, k)
    ensures OnlyDue(defaults, apps, options, first, events, n) && InOrder(defaults, apps, options, first, events, n)
    ensures StoppedBy(Done, events, n) && StoppedBy(Interrupted, events, n)
  {
    CalledInOrder(defaults, apps, options, first, events, n, places, k);
  }

  lemma CallStateSkips(defaults: set<string>, apps: seq<ScenarioApp>, options: Options, first: set<string>,
                       events: seq<Event>, n: nat, places: seq<nat>, k: nat)
    requires k < |apps| && CallState(defaults, apps, options, first, events, n, places, k)
    ensures CallState(defaults, apps, options, first, events, n, places, k + 1)
  {
    CalledSkip(defaults, apps, options, first, events, n, places, k);
  }

  lemma CallStateApplies(defaults: set<string>, apps: seq<ScenarioApp>, options: Options, first: set<string>,
                         events: seq<Event>, e: Event, n: nat, places: seq<nat>, k: nat)
    requires k < |apps| && CallState(defaults, apps, options, first, events, n, places, k)
    requires e.Applied? && CallsFor(e, options) && e.call.app == apps[k].name && Due(defaults, apps[k], options, first)
    ensures OnlyDue(defaults, apps, options, first, events + [e], n)
    ensures InOrder(defaults, apps, options, first, events + [e], n)
    ensures if e.call.outcome == Failed then StoppedBy(AppFailed(apps[k].name), events + [e], n)
            else CallState(defaults, apps, options, first, events + [e], n, places + [k], k + 1)
  {
    assert MayCall(defaults, apps, options, first, apps[k].name);
    CalledNext(defaults, apps, options, first, events, n, places, k, e);
    CalledInOrder(defaults, apps, options, first, events + [e], n, places + [k], k + 1);
  }

  // The same with the queue, and with the apps that were due.
  predicate ScenarioState(defaults: set<string>, apps: seq<ScenarioApp>, options: Options, first: set<string>,
                          queue: set<string>, events: seq<Event>, n: nat, places: seq<nat>, k: nat)
    requires k <= |apps|
  {
    && CallState(defaults, apps, options, first, events, n, places, k) && (options.stage == Cleanup ==> queue <= first)
    && DueCalled(defaults, apps, options, queue, CalledSince(events, n), k)
  }

  lemma StateGives(defaults: set<string>, apps: seq<ScenarioApp>, options: Options, first: set<string>,
                   queue: set<string>, events: seq<Event>, n: nat, places: seq<nat>, k: nat)
    requires k <= |apps| && ScenarioState(defaults, apps, options, first, queue, events, n, places, k)
    ensures OnlyDue(defaults, apps, options, first, events, n) && InOrder(defaults, apps, options, first, events, n)
    ensures StoppedBy(Done, events, n) && StoppedBy(Interrupted, events, n)
    ensures DueCalled(defaults, apps, options, queue, CalledSince(events, n), k)
  {
    CallStateGives(defaults, apps, options, first, events, n, places, k);
  }

  lemma StateSkips(defaults: set<string>, apps: seq<ScenarioApp>, options: Options, first: set<string>,
                   queue: set<string>, events: seq<Event>, n: nat, places: seq<nat>, k: nat)
    requires k < |apps| && ScenarioState(defaults, apps, options, first, queue, events, n, places, k)
    requires !Due(defaults, apps[k], options, queue)
    ensures ScenarioState(defaults, apps, options, first, queue, events, n, places, k + 1)
  {
    CallStateSkips(defaults, apps, options, first, events, n, places, k);
  }

  lemma StateApplies(defaults: set<string>, apps: seq<ScenarioApp>, options: Options, first: set<string>,
                     queue: set<string>, next: set<string>, events: seq<Event>, e: Event, n: nat, places: seq<nat>,
                     k: nat)
    requires k < |apps| && ScenarioState(defaults, apps, options, first, queue, events, n, places, k)
    requires e.Applied? && CallsFor(e, options) && e.call.app == apps[k].name && Due(defaults, apps[k], options, queue)
    requires options.stage == Cleanup ==> next <= queue
    ensures OnlyDue(defaults, apps, options, first, events + [e], n)
    ensures InOrder(defaults, apps, options, first, events + [e], n)
    ensures if e.call.outcome == Failed then StoppedBy(AppFailed(apps[k].name), events + [e], n)
            else ScenarioState(defaults, apps, options, first, next, events + [e], n, places + [k], k + 1)
  {
    CallStateApplies(defaults, apps, options, first, events, e, n, places, k);
    Continued(events, n, e);
    OneMoreCalled(defaults, apps, options, queue, next, CalledSince(events, n), k);
  }

  // No app is called twice, and each is one of these, and the filter names it.
  predicate DefaultsOnce(defaults: set<string>, options: Options, events: seq<Event>, n: nat, m: nat)
    requires n <= m <= |events|
  {
    && (forall i :: n <= i < m ==>
          events[i].Default? && events[i].call.app in defaults && Matches(options, events[i].call.app))
    && forall i, j :: n <= i < j < m ==> events[i].call.app != events[j].call.app
  }

  // Where the calls of the default apps outside rest have led, without a failure.
  predicate DefaultState(defaults: set<string>, options: Options, events: seq<Event>, n: nat, rest: set<string>) {
    && n <= |events| && CallsOf(defaults, options, events, n) && AllSucceeded(events, n)
    && DefaultsOnce(defaults, options, events, n, |events|) && StoppedBy(Done, events, n)
    && (forall i :: n <= i < |events| ==> events[i].call.app !in rest)
    && (options.stage != Running ==>
          forall d :: d in defaults && d !in rest && Matches(options, d) ==> d in CalledSince(events, n))
  }

  lemma DefaultsFirst(defaults: set<string>, options: Options, events: seq<Event>)
    ensures DefaultState(defaults, options, events, |events|, defaults)
  {
  }

  lemma DefaultSkips(defaults: set<string>, options: Options, events: seq<Event>, n: nat, rest: set<string>,
                     name: string)
    requires DefaultState(defaults, options, events, n, rest)
    ensures StoppedBy(Interrupted, events, n)
    ensures !Matches(options, name) || options.stage == Running ==>
              DefaultState(defaults, options, events, n, rest - {name})
  {
  }

  lemma DefaultNext(defaults: set<string>, options: Options, events: seq<Event>, e: Event, n: nat, rest: set<string>)
    requires IsCall(e) && e.call.app !in rest && DefaultState(defaults, options, events, n, rest + {e.call.app})
    requires e.Default? && CallsFor(e, options) && e.call.app in defaults && Matches(options, e.call.app)
    ensures CallsOf(defaults, options, events + [e], n)
    ensures DefaultsOnce(defaults, options, events + [e], n, |events| + 1)
    ensures if e.call.outcome == Succeeded then DefaultState(defaults, options, events + [e], n, rest)
            else StoppedBy(AppFailed(e.call.app), events + [e], n)
  {
    Continued(events, n, e);
  }

  // A default app has to succeed. One of the scenario may also be unknown.
  predicate Fine(e: Event) {
    IsCall(e) ==> if e.Default? then e.call.outcome == Succeeded else e.call.outcome != Failed
  }

  // The result is that of the last event if that is not fine, and all others are.
  predicate StoppedBy(r: Result, events: seq<Event>, n: nat) {
    match r
    case AppFailed(app) =>
      && n < |events| && (forall i :: n <= i < |events| - 1 ==> Fine(events[i]))
      && !Fine(events[|events| - 1]) && events[|events| - 1].call.app == app
    case _ => forall i :: n <= i < |events| ==> Fine(events[i])
  }

  // First the default apps are called, in any order, and then those of the scenario, as they are listed.
  ghost predicate CallOrder(defaults: set<string>, scenario: Option<seq<ScenarioApp>>, options: Options,
                            queue: set<string>, events: seq<Event>, n: nat, m: nat)
  {
    && n <= m <= |events| && DefaultsOnce(defaults, options, events, n, m)
    && if scenario.Some? then InOrder(defaults, scenario.value, options, queue, events, m) else m == |events|
  }

  ghost predicate Ordered(defaults: set<string>, scenario: Option<seq<ScenarioApp>>, options: Options,
                          queue: set<string>, events: seq<Event>, n: nat)
  {
    exists m: nat :: CallOrder(defaults, scenario, options, queue, events, n, m)
  }

  lemma NothingInOrder(defaults: set<string>, apps: seq<ScenarioApp>, options: Options, queue: set<string>,
                       events: seq<Event>)
    ensures InOrder(defaults, apps, options, queue, events, |events|)
  {
    assert CalledAt(defaults, apps, options, queue, events, |events|, [], |apps|);
  }

  lemma InOrderFrom(defaults: set<string>, apps: seq<ScenarioApp>, options: Options, queue: set<string>,
                    more: set<string>, events: seq<Event>, n: nat)
    requires InOrder(defaults, apps, options, queue, events, n) && (options.stage == Cleanup ==> queue <= more)
    ensures InOrder(defaults, apps, options, more, events, n)
  {
    var places: seq<nat> :| CalledAt(defaults, apps, options, queue, events, n, places, |apps|);
    forall i | 0 <= i < |places|
      ensures places[i] < |apps| && Due(defaults, apps[places[i]], options, more)
    {
      assert events[n + i].Applied? && Due(defaults, apps[places[i]], options, queue);
    }
    assert CalledAt(defaults, apps, options, more, events, n, places, |apps|);
  }

  lemma OrderFrom(defaults: set<string>, scenario: Option<seq<ScenarioApp>>, options: Options, queue: set<string>,
                  events: seq<Event>, n: nat, m: nat)
    requires CallOrder(defaults, scenario, options, {}, events, n, m)
    ensures Ordered(defaults, scenario, options, queue, events, n)
  {
    assert scenario.None? ==> CallOrder(defaults, scenario, options, queue, events, n, m);
    if scenario.Some? {
      InOrderFrom(defaults, scenario.value, options, {}, queue, events, m);
      assert CallOrder(defaults, scenario, options, queue, events, n, m);
    }
  }

  lemma StoppedInParts(r: Result, first: seq<Event>, all: seq<Event>, n: nat)
    requires n <= |first| && first <= all && StoppedBy(Done, first, n) && StoppedBy(r, all, |first|)
    ensures StoppedBy(r, all, n)
  {
    assert forall i :: n <= i < |first| ==> all[i] == first[i];
  }

  lemma DefaultsInParts(defaults: set<string>, options: Options, first: seq<Event>, all: seq<Event>, n: nat)
    requires n <= |first| && first <= all && DefaultsOnce(defaults, options, first, n, |first|)
    ensures DefaultsOnce(defaults, options, all, n, |first|)
  {
    assert forall i :: n <= i < |first| ==> all[i] == first[i];
  }

  /** An experiment: its scenario and status, the status in the store, and what happened to it so far. */
  class Experiment {
    const defaults: set<string>
    var scenario: Option<seq<ScenarioApp>>
    var running: set<string>
    var cleanup: set<string>
    var savedRunning: set<string>
    var savedCleanup: set<string>
    ghost var history: seq<Event>

    constructor (defaults: set<string>, scenario: Option<seq<ScenarioApp>>)
      ensures this.defaults == defaults && this.scenario == scenario
      ensures Valid() && View() == NEW && history == []
    {
      this.defaults, this.scenario, history := defaults, scenario, [];
      running, cleanup, savedRunning, savedCleanup := {}, {}, {}, {};
    }

    ghost function View(): Status
      reads this
    {
      Status(running, cleanup, savedRunning, savedCleanup)
    }

    // The status is what the history makes of a new one.
    ghost predicate Valid()
      reads this
    {
      AllProper(history) && View() == At(NEW, history, |history|)
    }

    // Saves the status, or fails.
    method WriteToStore() returns (ok: bool)
      modifies this`savedRunning, this`savedCleanup
      ensures View() == if ok then SavedStatus(old(View())) else old(View())
    {
      ok := *;
      if ok {
        savedRunning, savedCleanup := running, cleanup;
      }
    }

    // Reads the status back from the store, or fails.
    method Reload() returns (ok: bool)
      modifies this`running, this`cleanup
      ensures View() == if ok then LoadedStatus(old(View())) else old(View())
    {
      ok := *;
      if ok {
        running, cleanup := savedRunning, savedCleanup;
      }
    }

    // The same between stages.
    method SaveBetween() returns (ok: bool)
      requires Valid()
      modifies this`savedRunning, this`savedCleanup, this`history
      ensures Valid() && history == old(history) + if ok then [Saved] else []
    {
      ok := WriteToStore();
      if ok {
        Grown(NEW, history, Saved);
        history := history + [Saved];
      }
    }

    method ReloadBetween() returns (ok: bool)
      requires Valid()
      modifies this`running, this`cleanup, this`history
      ensures Valid() && history == old(history) + if ok then [Reloaded] else []
    {
      ok := Reload();
      if ok {
        Grown(NEW, history, Reloaded);
        history := history + [Reloaded];
      }
    }

    // Runs one stage of an app.
    method CallApp(app: string, options: Options) returns (outcome: Outcome) {
      outcome := *;
    }

    method QueueCleanup(app: string, options: Options)
      modifies this`cleanup
      ensures cleanup == if Queues(options.stage, options.trigger) then old(cleanup) + {app} else old(cleanup)
    {
      if options.trigger {
        match options.stage
        case Configure | PreStart | PostStart => cleanup := cleanup + {app};
        case Running | Cleanup =>
      }
    }

    // One default app. A running stage passes it by.
    method ApplyDefault(name: string, options: Options) returns (outcome: Outcome)
      requires Valid() && options.stage != Running
      modifies this`cleanup, this`history
      ensures Valid() && history == old(history) + [Default(Call(name, options.stage, options.trigger, outcome))]
      ensures options.stage == Cleanup ==> cleanup <= old(cleanup)
    {
      QueueCleanup(name, options);
      outcome := CallApp(name, options);
      if outcome == Succeeded && options.stage == Cleanup {
        cleanup := cleanup - {name};
      }
      ghost var e := Default(Call(name, options.stage, options.trigger, outcome));
      Grown(NEW, history, e);
      history := history + [e];
    }

    // One scenario app at a stage other than running.
    method ApplyScenarioApp(name: string, options: Options)
      returns (outcome: Outcome, savedFirst: bool, savedLast: bool)
      requires Valid() && options.stage != Running
      modifies this`cleanup, this`history, this`running, this`savedRunning, this`savedCleanup
      ensures Valid()
      ensures history == old(history)
                         + [Applied(Call(name, options.stage, options.trigger, outcome), savedFirst, false, savedLast)]
    {
      QueueCleanup(name, options);
      running := running + {name};
      savedFirst := WriteToStore();
      outcome := CallApp(name, options);
      running := running - {name};
      savedLast := WriteToStore();
      if outcome == Succeeded && options.stage == Cleanup {
        cleanup := cleanup - {name};
      }
      ghost var e := Applied(Call(name, options.stage, options.trigger, outcome), savedFirst, false, savedLast);
      Grown(NEW, history, e);
      history := history + [e];
    }

    // One scenario app at the running stage.
    method RunScenarioApp(name: string, options: Options)
      returns (outcome: Outcome, savedFirst: bool, reloaded: bool, savedLast: bool)
      requires Valid() && options.stage == Running
      modifies this`cleanup, this`history, this`running, this`savedRunning, this`savedCleanup
      ensures Valid()
      ensures history == old(history)
                         + [Applied(Call(name, Running, options.trigger, outcome), savedFirst, reloaded, savedLast)]
    {
      QueueCleanup(name, options);
      running := running + {name};
      savedFirst := WriteToStore();
      outcome := CallApp(name, options);
      reloaded := Reload();
      running := running - {name};
      savedLast := WriteToStore();
      ghost var e := Applied(Call(name, Running, options.trigger, outcome), savedFirst, reloaded, savedLast);
      Grown(NEW, history, e);
      history := history + [e];
    }

    // The default apps, in no particular order.
    method ApplyDefaults(ctx: Context, options: Options) returns (r: Result)
      requires Valid()
      modifies ctx, this`cleanup, this`history
      ensures old(ctx.ended) ==> ctx.ended
      ensures r == Interrupted ==> ctx.ended
      ensures old(ctx.ended) ==> history == old(history)
      ensures Valid() && old(history) <= history && CallsOf(defaults, options, history, |old(history)|)
      ensures options.stage == Running ==> history == old(history)
      ensures DefaultsOnce(defaults, options, history, |old(history)|, |history|)
      ensures StoppedBy(r, history, |old(history)|) && (options.stage == Cleanup ==> cleanup <= old(cleanup))
      ensures r == Done && options.stage != Running ==>
                (forall d :: d in defaults && Matches(options, d) ==> d in CalledSince(history, |old(history)|))
                && AllSucceeded(history, |old(history)|)
    {
      var rest := defaults;
      DefaultsFirst(defaults, options, history);
      while rest != {}
        invariant old(ctx.ended) ==> ctx.ended && history == old(history)
        invariant rest <= defaults && Valid() && old(history) <= history
        invariant DefaultState(defaults, options, history, |old(history)|, rest)
        invariant options.stage == Cleanup ==> cleanup <= old(cleanup)
        invariant options.stage == Running ==> history == old(history)
      {
        var name :| name in rest;
        DefaultSkips(defaults, options, history, |old(history)|, rest, name);
        rest := rest - {name};
        var over := ctx.Err();
        if over {
          return Interrupted;
        }
        if !Matches(options, name) || options.stage == Running {
          continue;
        }
        ghost var before := history;
        var outcome := ApplyDefault(name, options);
        DefaultNext(defaults, options, before, history[|before|], |old(history)|, rest);
        if outcome != Succeeded {
          return AppFailed(name);
        }
      }
      r := Done;
    }

    // The scenario apps, in order, at a stage other than running.
    method ApplyScenario(ctx: Context, apps: seq<ScenarioApp>, options: Options) returns (r: Result)
      requires Valid() && options.stage != Running
      modifies ctx, this`cleanup, this`history, this`running, this`savedRunning, this`savedCleanup
      ensures old(ctx.ended) ==> ctx.ended
      ensures r == Interrupted ==> ctx.ended
      ensures old(ctx.ended) ==> history == old(history)
      ensures Valid() && old(history) <= history
      ensures OnlyDue(defaults, apps, options, old(cleanup), history, |old(history)|)
      ensures r == Done ==> DueCalled(defaults, apps, options, cleanup, CalledSince(history, |old(history)|), |apps|)
      ensures InOrder(defaults, apps, options, old(cleanup), history, |old(history)|)
      ensures StoppedBy(r, history, |old(history)|)
    {
      ghost var places: seq<nat> := [];
      var k := 0;
      while k < |apps|
        invariant old(ctx.ended) ==> ctx.ended && history == old(history)
        invariant 0 <= k <= |apps| && Valid() && old(history) <= history
        invariant ScenarioState(defaults, apps, options, old(cleanup), cleanup, history, |old(history)|, places, k)
      {
        var ended;
        ended, places := ApplyNext(ctx, apps, options, k, old(cleanup), |old(history)|, places);
        if ended.Some? {
          return ended.value;
        }
        k := k + 1;
      }
      StateGives(defaults, apps, options, old(cleanup), cleanup, history, |old(history)|, places, k);
      r := Done;
    }

    // App k of the scenario.
    method ApplyNext(ctx: Context, apps: seq<ScenarioApp>, options: Options, k: nat, ghost first: set<string>,
                     ghost n: nat,
                     ghost places: seq<nat>)
      returns (ended: Option<Result>, ghost more: seq<nat>)
      requires Valid() && options.stage != Running && k < |apps|
      requires ScenarioState(defaults, apps, options, first, cleanup, history, n, places, k)
      modifies ctx, this`cleanup, this`history, this`running, this`savedRunning, this`savedCleanup
      ensures old(ctx.ended) ==> ctx.ended
      ensures ended == Some(Interrupted) ==> ctx.ended
      ensures old(ctx.ended) ==> ended == Some(Interrupted) && history == old(history)
      ensures Valid() && old(history) <= history
      ensures ended.None? ==> ScenarioState(defaults, apps, options, first, cleanup, history, n, more, k + 1)
      ensures ended.Some? ==>
                && ended.value != Done && OnlyDue(defaults, apps, options, first, history, n)
                && InOrder(defaults, apps, options, first, history, n) && StoppedBy(ended.value, history, n)
    {
      ended, more := None, places;
      var over := ctx.Err();
      if over {
        StateGives(defaults, apps, options, first, cleanup, history, n, places, k);
        return Some(Interrupted), more;
      }
      if !Due(defaults, apps[k], options, cleanup) {
        StateSkips(defaults, apps, options, first, cleanup, history, n, places, k);
        return;
      }
      ghost var before, queue := history, cleanup;
      var outcome, _, _ := ApplyScenarioApp(apps[k].name, options);
      Grown(NEW, before, history[|before|]);
      StateApplies(defaults, apps, options, first, queue, cleanup, before, history[|before|], n, places, k);
      more := places + [k];
      if outcome == Failed {
        ended := Some(AppFailed(apps[k].name));
      }
    }

    // The scenario apps at the running stage. An app that is marked as running is passed by.
    method RunScenario(ctx: Context, apps: seq<ScenarioApp>, options: Options) returns (r: Result)
      requires Valid() && options.stage == Running
      modifies ctx, this`cleanup, this`history, this`running, this`savedRunning, this`savedCleanup
      ensures old(ctx.ended) ==> ctx.ended
      ensures r == Interrupted ==> ctx.ended
      ensures old(ctx.ended) ==> history == old(history)
      ensures Valid() && old(history) <= history
      ensures OnlyDue(defaults, apps, options, {}, history, |old(history)|)
      ensures InOrder(defaults, apps, options, {}, history, |old(history)|)
      ensures StoppedBy(r, history, |old(history)|) && NoneWhileRunning(history, |old(history)|)
      ensures r == Done ==> DueRan(defaults, apps, options, history, |old(history)|, |apps|)
    {
      ghost var places: seq<nat> := [];
      var k := 0;
      while k < |apps|
        invariant old(ctx.ended) ==> ctx.ended && history == old(history)
        invariant 0 <= k <= |apps| && Valid() && old(history) <= history
        invariant CallState(defaults, apps, options, {}, history, |old(history)|, places, k)
        invariant NoneWhileRunning(history, |old(history)|)
        invariant DueRan(defaults, apps, options, history, |old(history)|, k)
      {
        var ended;
        ended, places := RunNext(ctx, apps, options, k, |old(history)|, places);
        if ended.Some? {
          return ended.value;
        }
        k := k + 1;
      }
      CallStateGives(defaults, apps, options, {}, history, |old(history)|, places, k);
      r := Done;
    }

    method RunNext(ctx: Context, apps: seq<ScenarioApp>, options: Options, k: nat, ghost n: nat, ghost places: seq<nat>)
      returns (ended: Option<Result>, ghost more: seq<nat>)
      requires Valid() && options.stage == Running && k < |apps|
      requires CallState(defaults, apps, options, {}, history, n, places, k)
      requires DueRan(defaults, apps, options, history, n, k) && NoneWhileRunning(history, n)
      modifies ctx, this`cleanup, this`history, this`running, this`savedRunning, this`savedCleanup
      ensures old(ctx.ended) ==> ctx.ended
      ensures ended == Some(Interrupted) ==> ctx.ended
      ensures old(ctx.ended) ==> ended == Some(Interrupted) && history == old(history)
      ensures Valid() && old(history) <= history && NoneWhileRunning(history, n)
      ensures ended.None? ==>
                CallState(defaults, apps, options, {}, history, n, more, k + 1)
                && DueRan(defaults, apps, options, history, n, k + 1)
      ensures ended.Some? ==>
                && ended.value != Done && OnlyDue(defaults, apps, options, {}, history, n)
                && InOrder(defaults, apps, options, {}, history, n) && StoppedBy(ended.value, history, n)
    {
      ended, more := None, places;
      var over := ctx.Err();
      if over {
        CallStateGives(defaults, apps, options, {}, history, n, places, k);
        return Some(Interrupted), more;
      }
      if !Due(defaults, apps[k], options, cleanup) || apps[k].name in running {
        CallStateSkips(defaults, apps, options, {}, history, n, places, k);
        return;
      }
      ghost var before := history;
      var outcome, _, _, _ := RunScenarioApp(apps[k].name, options);
      NoneWhileRunningWith(before, history[|before|], n);
      CallStateApplies(defaults, apps, options, {}, before, history[|before|], n, places, k);
      Continued(before, n, history[|before|]);
      DueStillRan(defaults, apps, options, before, history, n, k);
      more := places + [k];
      if outcome == Failed {
        ended := Some(AppFailed(apps[k].name));
      }
    }

    // The default apps and then those of the scenario, at a stage other than running.
    method ApplyAll(ctx: Context, options: Options) returns (r: Result)
      requires Valid() && options.stage != Running
      modifies ctx, this`cleanup, this`history, this`running, this`savedRunning, this`savedCleanup
      ensures old(ctx.ended) ==> ctx.ended
      ensures r == Interrupted ==> ctx.ended
      ensures old(ctx.ended) ==> history == old(history)
      ensures Valid() && old(history) <= history
      ensures CallsOf(defaults + ScenarioNames(), options, history, |old(history)|)
      ensures r == Done ==> AllCalled(options, CalledSince(history, |old(history)|))
      ensures StoppedBy(r, history, |old(history)|)
      ensures Ordered(defaults, scenario, options, old(cleanup), history, |old(history)|)
    {
      r := ApplyDefaults(ctx, options);
      ghost var middle, queue := history, cleanup;
      if scenario.Some? {
        NothingInOrder(defaults, scenario.value, options, old(cleanup), history);
      }
      assert CallOrder(defaults, scenario, options, old(cleanup), history, |old(history)|, |middle|);
      if r == Done && scenario.Some? {
        r := ApplyScenario(ctx, scenario.value, options);
        DefaultsInParts(defaults, options, middle, history, |old(history)|);
        InOrderFrom(defaults, scenario.value, options, queue, old(cleanup), history, |middle|);
        StoppedInParts(r, middle, history, |old(history)|);
        assert CallOrder(defaults, scenario, options, old(cleanup), history, |old(history)|, |middle|);
        DueIsNamed(defaults, scenario.value, options, queue, history, |middle|);
        CallsOfParts(defaults, ScenarioNames(), options, middle, history, |old(history)|);
        CalledInParts(middle, history, |old(history)|);
      }
    }

    // The running stage, which passes the default apps by.
    method RunAll(ctx: Context, options: Options) returns (r: Result)
      requires Valid() && options.stage == Running
      modifies ctx, this`cleanup, this`history, this`running, this`savedRunning, this`savedCleanup
      ensures old(ctx.ended) ==> ctx.ended
      ensures r == Interrupted ==> ctx.ended
      ensures old(ctx.ended) ==> history == old(history)
      ensures Valid() && old(history) <= history
      ensures CallsOf(defaults + ScenarioNames(), options, history, |old(history)|)
      ensures r == Done && scenario.Some? ==>
                DueRan(defaults, scenario.value, options, history, |old(history)|, |scenario.value|)
      ensures StoppedBy(r, history, |old(history)|) && NoneWhileRunning(history, |old(history)|)
      ensures CallOrder(defaults, scenario, options, {}, history, |old(history)|, |old(history)|)
    {
      r := ApplyDefaults(ctx, options);
      if scenario.Some? {
        NothingInOrder(defaults, scenario.value, options, {}, history);
      }
      if r == Done && scenario.Some? {
        r := RunScenario(ctx, scenario.value, options);
        DueIsNamed(defaults, scenario.value, options, {}, history, |old(history)|);
      }
    }

    // Every default app that the filter names and every app of the scenario that is due is among those called.
    ghost predicate AllCalled(options: Options, called: set<string>)
      reads this
    {
      && (forall d :: d in defaults && Matches(options, d) ==> d in called)
      && (scenario.Some? ==> DueCalled(defaults, scenario.value, options, cleanup, called, |scenario.value|))
    }

    /** Applies the apps. The events that it adds to the history decide what the status becomes. */
    method ApplyApps(ctx: Context, options: Options) returns (r: Result)
      requires Valid()
      modifies ctx, this`cleanup, this`history, this`running, this`savedRunning, this`savedCleanup
      ensures old(ctx.ended) ==> ctx.ended
      ensures r == Interrupted ==> ctx.ended
      ensures old(ctx.ended) ==> history == old(history) + if Resets(options) then [Reset] else []
      ensures Valid() && old(history) <= history
      ensures OfOneApplication(defaults + ScenarioNames(), options, history, |old(history)|)
      // Which apps are called, in which order, and what ends that.
      ensures var n := |old(history)| + if Resets(options) then 1 else 0;
              && Ordered(defaults, scenario, options, old(cleanup), history, n)
              && (options.stage == Running ==> CallOrder(defaults, scenario, options, {}, history, n, n))
              && StoppedBy(r, history, n) && NoneWhileRunning(history, n)
      // What a success means for the apps that are due.
      ensures r == Done && options.stage != Running ==> AllCalled(options, CalledSince(history, |old(history)|))
      ensures r == Done && options.stage == Running && scenario.Some? ==>
                DueRan(defaults, scenario.value, options, history, |old(history)|, |scenario.value|)
      // The queue follows the calls, on every way out, just when no running stage reads a saved queue that is out of
      // date.
      ensures (forall k :: |old(history)| <= k <= |history| ==> QueueIsAsked(NEW, history, |old(history)|, k)) <==>
              UpToDate(NEW, history, |old(history)|, |history|)
      ensures options.stage != Running ==> cleanup == Queue(old(cleanup), Calls(history, |old(history)|, |history|))
      // No app is left marked as running, on every way out, just when no mark of another app is read that a failed save
      // left.
      ensures options.stage != Running && old(running) == {} ==> running == {}
      ensures old(running) == old(savedRunning) == {} ==>
                (NeverMarked(NEW, history, |old(history)|, |history|) <==>
                 AllHarmless(history, |old(history)|, |history|))
      // A cleanup of all apps in which every call succeeds takes both lists off the queue, and empties it just when
      // those hold every app that was queued.
      ensures r == Done && options.stage == Cleanup && options.filter == {} && AllSucceeded(history, |old(history)|) ==>
                && cleanup == old(cleanup) - defaults - ScenarioNames()
                && (cleanup == {} <==> old(cleanup) <= defaults + ScenarioNames())
    {
      ghost var n := |history|;
      r := ApplyFresh(ctx, options);
      StatusMeaning(old(history), history, options, defaults + ScenarioNames());
      if r == Done && options.stage == Cleanup && options.filter == {} && AllSucceeded(history, n) {
        FullyCleanedUp(options, n);
      }
    }

    // Resets the marks where that is due, and applies the apps.
    method ApplyFresh(ctx: Context, options: Options) returns (r: Result)
      requires Valid()
      modifies ctx, this`cleanup, this`history, this`running, this`savedRunning, this`savedCleanup
      ensures old(ctx.ended) ==> ctx.ended
      ensures r == Interrupted ==> ctx.ended
      ensures old(ctx.ended) ==> history == old(history) + if Resets(options) then [Reset] else []
      ensures Valid() && old(history) <= history
      ensures OfOneApplication(defaults + ScenarioNames(), options, history, |old(history)|)
      // Which apps are called, in which order, and what ends that.
      ensures var n := |old(history)| + if Resets(options) then 1 else 0;
              && Ordered(defaults, scenario, options, old(cleanup), history, n)
              && (options.stage == Running ==> CallOrder(defaults, scenario, options, {}, history, n, n))
              && StoppedBy(r, history, n) && NoneWhileRunning(history, n)
      // What a success means for the apps that are due.
      ensures r == Done && options.stage != Running ==> AllCalled(options, CalledSince(history, |old(history)|))
      ensures r == Done && options.stage == Running && scenario.Some? ==>
                DueRan(defaults, scenario.value, options, history, |old(history)|, |scenario.value|)
    {
      ResetMarks(options);
      r := ApplyStage(ctx, options);
    }

    method ResetMarks(options: Options)
      requires Valid()
      modifies this`running, this`history
      ensures Valid() && history == old(history) + if Resets(options) then [Reset] else []
      ensures running == if Resets(options) then {} else old(running)
    {
      if options.stage == PreStart && !options.trigger {
        running := {};
        Grown(NEW, history, Reset);
        history := history + [Reset];
      }
    }

    method ApplyStage(ctx: Context, options: Options) returns (r: Result)
      requires Valid()
      modifies ctx, this`cleanup, this`history, this`running, this`savedRunning, this`savedCleanup
      ensures old(ctx.ended) ==> ctx.ended
      ensures r == Interrupted ==> ctx.ended
      ensures old(ctx.ended) ==> history == old(history)
      ensures Valid() && old(history) <= history
      ensures CallsOf(defaults + ScenarioNames(), options, history, |old(history)|)
      ensures Ordered(defaults, scenario, options, old(cleanup), history, |old(history)|)
      ensures options.stage == Running ==>
                CallOrder(defaults, scenario, options, {}, history, |old(history)|, |old(history)|)
      ensures StoppedBy(r, history, |old(history)|) && NoneWhileRunning(history, |old(history)|)
      ensures r == Done && options.stage != Running ==> AllCalled(options, CalledSince(history, |old(history)|))
      ensures r == Done && options.stage == Running && scenario.Some? ==>
                DueRan(defaults, scenario.value, options, history, |old(history)|, |scenario.value|)
    {
      if options.stage != Running {
        r := ApplyAll(ctx, options);
      } else {
        r := RunAll(ctx, options);
        OrderFrom(defaults, scenario, options, old(cleanup), history, |old(history)|, |old(history)|);
      }
    }

    function ScenarioNames(): set<string>
      reads this`scenario
    {
      if scenario.Some? then Names(scenario.value) else {}
    }

    /**
     After any stages, saves and readings in any order, an app is queued just when a stage queued it and no cleanup of
     it has succeeded since, unless a saved queue was read that differed on it.
     */
    lemma QueueOverHistory(app: string)
      requires Valid() && forall k :: 0 <= k < |history| ==> !Strays(At(NEW, history, k), history[k], app)
      ensures app in cleanup <==> StillQueued(Calls(history, 0, |history|), app)
    {
      QueuedOverHistory(history, |history|, app);
    }

    lemma FullyCleanedUp(options: Options, n: nat)
      requires Valid() && n <= |history| && AllSucceeded(history, n) && options.stage == Cleanup && options.filter == {}
      requires CallsOf(defaults + ScenarioNames(), options, history, n) && AllCalled(options, CalledSince(history, n))
      ensures var queue := At(NEW, history, n).cleanup;
              cleanup == queue - defaults - ScenarioNames() && (cleanup == {} <==> queue <= defaults + ScenarioNames())
    {
      AllCovered(options, CalledSince(history, n));
      FullCleanup(NEW, history, n, defaults, ScenarioNames());
    }

    // What a cleanup of all apps has to call.
    lemma AllCovered(options: Options, called: set<string>)
      requires AllCalled(options, called) && options.stage == Cleanup && options.filter == {}
      ensures Covered(defaults, ScenarioNames(), called, cleanup)
    {
      forall name | name in ScenarioNames() && name in cleanup
        ensures name in called
      {
        var k :| 0 <= k < |scenario.value| && scenario.value[k].name == name;
        assert name in defaults || Due(defaults, scenario.value[k], options, cleanup);
      }
    }
  }

  // What the events of one application make of queue and marks.
  lemma StatusMeaning(before: seq<Event>, all: seq<Event>, options: Options, apps: set<string>)
    requires before <= all && AllProper(all) && OfOneApplication(apps, options, all, |before|)
    ensures var n, m := |before|, |all|;
            && At(NEW, all, n) == At(NEW, before, n)
            && ((forall k :: n <= k <= m ==> QueueIsAsked(NEW, all, n, k)) <==> UpToDate(NEW, all, n, m))
            && (options.stage != Running ==> QueueIsAsked(NEW, all, n, m))
            && (options.stage != Running ==> At(NEW, all, m).running <= At(NEW, all, n).running)
            && (At(NEW, all, n).running == At(NEW, all, n).savedRunning == {} ==>
                  (NeverMarked(NEW, all, n, m) <==> AllHarmless(all, n, m)))
  {
    var n, m := |before|, |all|;
    AtPrefix(NEW, before, all, n);
    WholeQueueFollowsIff(NEW, all, n, m);
    if options.stage != Running {
      OtherStagesLoadNothing(apps, options, all, n);
      MarksOnlyCleared(NEW, all, n, m);
    }
    if At(NEW, all, n).running == At(NEW, all, n).savedRunning == {} {
      NeverMarkedIff(NEW, all, n, m);
    }
  }

  predicate LoadsNothing(events: seq<Event>, i: nat, n: nat)
    requires i <= n <= |events|
  {
    forall k :: i <= k < n ==> !Loads(events[k])
  }

  lemma OtherStagesLoadNothing(apps: set<string>, options: Options, events: seq<Event>, n: nat)
    requires n <= |events| && OfOneApplication(apps, options, events, n) && options.stage != Running
    ensures LoadsNothing(events, n, |events|)
    ensures UpToDate(NEW, events, n, |events|)
  {
  }

  lemma {:induction false} MarksOnlyCleared(s: Status, events: seq<Event>, i: nat, n: nat)
    requires i <= n <= |events| && LoadsNothing(events, i, n)
    ensures At(s, events, n).running <= At(s, events, i).running
    decreases n
  {
    if i < n {
      MarksOnlyCleared(s, events, i, n - 1);
    }
  }

  // Every app that a cleanup of all apps has to call was called, unless it is not queued.
  predicate Covered(defaults: set<string>, scenario: set<string>, called: set<string>, queue: set<string>) {
    defaults <= called && forall n :: n in scenario && n in queue ==> n in called
  }

  lemma CalledInParts(first: seq<Event>, all: seq<Event>, n: nat)
    requires first <= all && n <= |first|
    ensures CalledSince(all, n) == CalledSince(first, n) + CalledSince(all, |first|)
  {
    forall app | app in CalledSince(all, n)
      ensures app in CalledSince(first, n) + CalledSince(all, |first|)
    {
      var i :| n <= i < |all| && IsCall(all[i]) && all[i].call.app == app;
      assert i < |first| ==> first[i].call.app == app;
    }
    forall app | app in CalledSince(first, n)
      ensures app in CalledSince(all, n)
    {
      var i :| n <= i < |first| && IsCall(first[i]) && first[i].call.app == app;
      assert all[i].call.app == app;
    }
  }

  /**
   When all of them succeed, the cleanups take exactly the apps of both lists off the queue. It is empty just when those
   hold every app that was queued.
   */
  lemma FullCleanup(s: Status, events: seq<Event>, n: nat, defaults: set<string>, scenario: set<string>)
    requires n <= |events| && AllProper(events) && AllSucceeded(events, n)
    requires forall i :: n <= i < |events| ==>
               IsCall(events[i]) && events[i].call.stage == Cleanup && events[i].call.app in defaults + scenario
    requires Covered(defaults, scenario, CalledSince(events, n), At(s, events, |events|).cleanup)
    ensures var queue := At(s, events, n).cleanup;
            && At(s, events, |events|).cleanup == queue - defaults - scenario
            && (At(s, events, |events|).cleanup == {} <==> queue <= defaults + scenario)
  {
    var queue := At(s, events, n).cleanup;
    CleanupTakes(s, events, n, |events|);
    EmptyIffWithin(queue, defaults + scenario);
    assert queue - defaults - scenario == queue - (defaults + scenario);
  }

  // Cleanups only take apps off the queue: those that were cleaned up.
  lemma {:induction false} CleanupTakes(s: Status, events: seq<Event>, i: nat, n: nat)
    requires i <= n <= |events| && AllProper(events)
    requires forall k :: i <= k < n ==> IsCall(events[k]) && events[k].call.stage == Cleanup
    ensures forall app :: app in At(s, events, n).cleanup <==>
              app in At(s, events, i).cleanup && forall k :: i <= k < n ==> !CleansUp(events[k], app)
    decreases n
  {
    if i < n {
      CleanupTakes(s, events, i, n - 1);
    }
  }
}
