/**
 A client run, ApplyRun, against a Server object that logs what it stored and began. The server's answers, its state at
 each request and the user's interrupts are choices of the methods, so the contracts hold for all of them: they compare
 the logs with the plan and with what the run returns.
 */
module WorkflowApply {
  import opened Wrappers
  import opened Contexts

  datatype Action = NoAction | Create | CreateAndStart | Update | UpdateAndStart | Restart

  // A config file. The ref is the Kind/name that the server reads from it.
  datatype ConfigFile = ConfigFile(path: string, ref: string, content: string)

  datatype Request =
    | AskOptions
    | SendConfig(dryRun: bool, file: ConfigFile)
    | SendWorkflow(dryRun: bool, expected: Option<Action>)

  // What the client gets for one request. Offers, Accepted, Planned and Garbled are 2xx statuses, the last with a body
  // that the client cannot read.
  datatype Reply =
    | Offers(workflowDryRuns: bool) | Accepted(dryRun: bool) | Planned(dryRun: bool, action: Option<Action>)
    | Garbled | Refused | NoAnswer | Ended

  datatype Exchange = Exchange(request: Request, reply: Reply)

  datatype Cause =
    | Unreachable | Interrupted | NotSent | RefusedByServer | NoConfigDryRun | NoWorkflowDryRun | UnknownAction
    | BadAnswer
    | Unsupported | NothingToApply | NeedsForce | StagingFailed | Problems(rejected: nat, clashes: nat)

  // An error of the run, with what it says about the changes.
  datatype Error = Error(cause: Cause, mayFinish: bool, mayHaveReceived: bool, staged: bool, upserted: nat)

  datatype Options = Options(dryRun: bool, force: bool, injects: bool)

  function Plain(cause: Cause): Error {
    Error(cause, false, false, false, 0)
  }

  // Of the two replies for a request that failed on its way, Ended needs the context to be over by then.
  method Lost(ctx: Context) returns (reply: Reply)
    modifies ctx
    ensures old(ctx.ended) ==> ctx.ended
    ensures reply == NoAnswer || (reply == Ended && ctx.ended)
  {
    var over := ctx.Err();
    reply := NoAnswer;
    if over {
      if * {
        reply := Ended;
      }
    }
  }

  /**
   The phenix server. It records the configs that this run had it store, and the actions that this run had it begin. A
   server either knows workflow dry runs and expected actions, which it says in its options, or it ignores both. The
   same goes for config dry runs, which its options do not mention. The log has every request with what the client got.
   late says that a request other than a dry run came when the context was over.
   */
  class Server {
    const workflowDryRuns: bool
    const configDryRuns: bool
    var upserts: seq<ConfigFile>
    var begun: seq<Action>
    ghost var log: seq<Exchange>
    ghost var late: bool

    constructor (workflowDryRuns: bool, configDryRuns: bool)
      ensures this.workflowDryRuns == workflowDryRuns && this.configDryRuns == configDryRuns && upserts == []
              && begun == [] && log == [] && !late
    {
      this.workflowDryRuns, this.configDryRuns, upserts, begun, log := workflowDryRuns, configDryRuns, [], [], [];
      late := false;
    }

    method GetOptions(ctx: Context) returns (reply: Reply)
      modifies this`log, ctx
      ensures old(ctx.ended) ==> ctx.ended
      ensures log == old(log) + [Exchange(AskOptions, reply)]
      ensures reply == Offers(workflowDryRuns) || reply == NoAnswer || reply == Garbled || reply == Refused
              || (reply == Ended && ctx.ended)
    {
      if {
        case true => reply := Offers(workflowDryRuns);
        case true => reply := Garbled;
        case true => reply := Refused;
        case true => reply := Lost(ctx);
      }
      log := log + [Exchange(AskOptions, reply)];
    }

    // Appends file to upserts, unless it refuses the file or knows what dryRun means. Accepted and Garbled tell the
    // client that one of the two was done.
    method PostConfig(ctx: Context, dryRun: bool, file: ConfigFile) returns (reply: Reply)
      modifies this`upserts, this`log, this`late, ctx
      ensures old(ctx.ended) ==> ctx.ended
      ensures late == (old(late) || (!dryRun && old(ctx.ended)))
      ensures log == old(log) + [Exchange(SendConfig(dryRun, file), reply)]
      ensures dryRun && configDryRuns ==> upserts == old(upserts)
      ensures upserts == old(upserts) || upserts == old(upserts) + [file]
      ensures reply.Accepted? || reply == Garbled ==>
                upserts == if dryRun && configDryRuns then old(upserts) else old(upserts) + [file]
      ensures reply.Accepted? ==> reply.dryRun == (dryRun && configDryRuns)
      ensures reply == Refused ==> upserts == old(upserts)
      ensures reply.Accepted? || reply == Garbled || reply == Refused || reply == NoAnswer
              || (reply == Ended && ctx.ended)
    {
      late := late || (!dryRun && ctx.ended);
      reply := TakeConfig(ctx, dryRun, file);
      log := log + [Exchange(SendConfig(dryRun, file), reply)];
    }

    method TakeConfig(ctx: Context, dryRun: bool, file: ConfigFile) returns (reply: Reply)
      modifies this`upserts, ctx
      ensures old(ctx.ended) ==> ctx.ended
      ensures dryRun && configDryRuns ==> upserts == old(upserts)
      ensures upserts == old(upserts) || upserts == old(upserts) + [file]
      ensures reply.Accepted? || reply == Garbled ==>
                upserts == if dryRun && configDryRuns then old(upserts) else old(upserts) + [file]
      ensures reply.Accepted? ==> reply.dryRun == (dryRun && configDryRuns)
      ensures reply == Refused ==> upserts == old(upserts)
      ensures reply.Accepted? || reply == Garbled || reply == Refused || reply == NoAnswer
              || (reply == Ended && ctx.ended)
    {
      if * {
        return Refused;
      }
      var received := *;
      if received && !(dryRun && configDryRuns) {
        upserts := upserts + [file];
      }
      if received {
        if * {
          return Accepted(dryRun && configDryRuns);
        } else if * {
          return Garbled;
        }
      }
      reply := Lost(ctx);
    }

    // Appends to begun the action that the server's state gives right now, unless expected or dryRun rules that out.
    // The reply may be a refusal even so.
    method PostWorkflow(ctx: Context, dryRun: bool, expected: Option<Action>) returns (reply: Reply)
      modifies this`begun, this`log, this`late, ctx
      ensures old(ctx.ended) ==> ctx.ended
      ensures late == (old(late) || (!dryRun && old(ctx.ended)))
      ensures log == old(log) + [Exchange(SendWorkflow(dryRun, expected), reply)]
      ensures dryRun && workflowDryRuns ==> begun == old(begun)
      ensures Begins(old(begun), begun, if workflowDryRuns then expected else None)
      ensures reply.Planned? ==> reply.dryRun == (dryRun && workflowDryRuns) && (!reply.dryRun ==> begun != old(begun))
      ensures reply.Planned? || reply == Garbled || reply == Refused || reply == NoAnswer
              || (reply == Ended && ctx.ended)
    {
      late := late || (!dryRun && ctx.ended);
      reply := TakeWorkflow(ctx, dryRun, expected);
      log := log + [Exchange(SendWorkflow(dryRun, expected), reply)];
    }

    method TakeWorkflow(ctx: Context, dryRun: bool, expected: Option<Action>) returns (reply: Reply)
      modifies this`begun, ctx
      ensures old(ctx.ended) ==> ctx.ended
      ensures dryRun && workflowDryRuns ==> begun == old(begun)
      ensures Begins(old(begun), begun, if workflowDryRuns then expected else None)
      ensures reply.Planned? ==> reply.dryRun == (dryRun && workflowDryRuns) && (!reply.dryRun ==> begun != old(begun))
      ensures reply.Planned? || reply == Garbled || reply == Refused || reply == NoAnswer
              || (reply == Ended && ctx.ended)
    {
      var plan: Action := *;
      var known := *;
      var received := *;
      if !received {
        reply := Lost(ctx);
        return;
      }
      if workflowDryRuns {
        if expected.Some? && expected.value != plan {
          return Refused;
        }
        if dryRun {
          if * {
            return Refused;
          } else if * {
            return Garbled;
          } else if * {
            return Planned(true, if known then Some(plan) else None);
          }
          reply := Lost(ctx);
          return;
        }
      }
      if * {
        return Refused;
      }
      begun := begun + [plan];
      if {
        case true => reply := Refused;
        case true => reply := Garbled;
        case true => reply := Planned(false, Some(plan));
        case true => reply := Lost(ctx);
      }
    }
  }

  // At most one action was begun, and none but the expected one when there is one.
  predicate Begins(before: seq<Action>, now: seq<Action>, expected: Option<Action>) {
    now == before
    || (|now| == |before| + 1 && before < now && (expected.Some? ==> now[|before|] == expected.value))
  }

  // The cause that the client reads from a reply that is no answer it can use.
  function CauseOf(reply: Reply): Cause {
    match reply
    case NoAnswer => Unreachable
    case Ended => Interrupted
    case Refused => RefusedByServer
    case _ => BadAnswer
  }

  // The failures after which no further config is sent.
  predicate EndsRun(cause: Cause, over: bool) {
    cause == NotSent || over || cause == Unreachable || cause == NoConfigDryRun
  }

  predicate DistinctRefs(configs: seq<ConfigFile>) {
    forall i, j :: 0 <= i < j < |configs| ==> configs[i].ref != configs[j].ref
  }

  function Refs(configs: seq<ConfigFile>): (refs: seq<string>)
    ensures |refs| == |configs| && forall i :: 0 <= i < |configs| ==> refs[i] == configs[i].ref
  {
    seq(|configs|, i requires 0 <= i < |configs| => configs[i].ref)
  }

  // The configs in the store once the server has stored these, one after the other.
  function Stored(store: map<string, string>, upserts: seq<ConfigFile>): map<string, string>
    decreases |upserts|
  {
    if upserts == [] then store
    else
      var last := upserts[|upserts| - 1];
      Stored(store, upserts[..|upserts| - 1])[last.ref := last.content]
  }

  /** Configs with distinct refs are each stored under their own ref, and nothing else changes. */
  lemma {:induction false} EachUnderItsOwnRef(store: map<string, string>, configs: seq<ConfigFile>)
    requires DistinctRefs(configs)
    ensures forall i :: 0 <= i < |configs| ==>
              configs[i].ref in Stored(store, configs) && Stored(store, configs)[configs[i].ref] == configs[i].content
    ensures forall r :: r !in Refs(configs) ==>
              (r in Stored(store, configs) <==> r in store) && (r in store ==> Stored(store, configs)[r] == store[r])
    decreases |configs|
  {
    if configs != [] {
      var k := |configs| - 1;
      EachUnderItsOwnRef(store, configs[..k]);
      assert forall r :: r in Refs(configs[..k]) ==> r in Refs(configs) by {
        assert forall i :: 0 <= i < k ==> Refs(configs)[i] == configs[i].ref;
      }
      assert Refs(configs)[k] == configs[k].ref;
    }
  }

  /** With two configs of one ref, the later one replaces the earlier: the reason why such a run stops in the plan. */
  lemma LaterReplacesEarlier(store: map<string, string>, first: ConfigFile, second: ConfigFile)
    requires first.ref == second.ref
    ensures Stored(store, [first, second]) == store[first.ref := second.content]
  {
    assert [first, second][..1] == [first];
    assert [first][..0] == [];
    assert Stored(store, [first]) == store[first.ref := first.content];
  }

  // What the failed run says is what it did: the server stored as many configs as reported, or one more that the error
  // warns of.
  ghost predicate Accounted(before: seq<ConfigFile>, now: seq<ConfigFile>, upserted: nat, e: Error) {
    |now| == |before| + upserted || (|now| == |before| + upserted + 1 && (e.mayFinish || e.mayHaveReceived))
  }

  // The server stored configs of this run only.
  ghost predicate OnlyOurs(before: seq<ConfigFile>, now: seq<ConfigFile>, configs: seq<ConfigFile>) {
    before <= now && forall i :: |before| <= i < |now| ==> now[i] in configs
  }

  lemma NoneOfOurs(before: seq<ConfigFile>, configs: seq<ConfigFile>)
    ensures OnlyOurs(before, before, configs)
  {
  }

  lemma OneMoreOfOurs(before: seq<ConfigFile>, now: seq<ConfigFile>, configs: seq<ConfigFile>, i: nat)
    requires OnlyOurs(before, now, configs) && i < |configs|
    ensures OnlyOurs(before, now + [configs[i]], configs)
  {
  }

  // Of the first i configs so many were stored, in order, and so many refused.
  ghost predicate StoredFirst(before: seq<ConfigFile>, now: seq<ConfigFile>, configs: seq<ConfigFile>, i: nat,
                              upserted: nat, rejected: nat)
    requires i <= |configs|
  {
    && OnlyOurs(before, now, configs) && |now| == |before| + upserted && upserted + rejected == i
    && (rejected == 0 ==> now == before + configs[..i])
  }

  lemma StoredNext(before: seq<ConfigFile>, now: seq<ConfigFile>, configs: seq<ConfigFile>, i: nat, upserted: nat,
                   rejected: nat)
    requires i < |configs| && StoredFirst(before, now, configs, i, upserted, rejected)
    ensures StoredFirst(before, now + [configs[i]], configs, i + 1, upserted + 1, rejected)
    ensures StoredFirst(before, now, configs, i + 1, upserted, rejected + 1)
  {
    assert configs[..i + 1] == configs[..i] + [configs[i]];
  }

  // The requests of a log.
  function Sent(log: seq<Exchange>): (requests: seq<Request>)
    ensures |requests| == |log| && forall i :: 0 <= i < |log| ==> requests[i] == log[i].request
  {
    seq(|log|, i requires 0 <= i < |log| => log[i].request)
  }

  function SendAll(dryRun: bool, configs: seq<ConfigFile>): (requests: seq<Request>)
    ensures |requests| == |configs| && forall i :: 0 <= i < |configs| ==> requests[i] == SendConfig(dryRun, configs[i])
  {
    seq(|configs|, i requires 0 <= i < |configs| => SendConfig(dryRun, configs[i]))
  }

  // What the planning sends, and what the rest of the run sends.
  function PlanScript(configs: seq<ConfigFile>, workflow: bool): seq<Request> {
    [AskOptions] + SendAll(true, configs) + if workflow then [SendWorkflow(true, None)] else []
  }

  function CommitScript(configs: seq<ConfigFile>, planned: Option<Action>): seq<Request> {
    SendAll(false, configs) + if planned.Some? then [SendWorkflow(false, planned)] else []
  }

  // The log goes on from an earlier one with the first of these requests, or all of them.
  predicate Follows(before: seq<Exchange>, log: seq<Exchange>, script: seq<Request>) {
    before <= log && Sent(log) <= Sent(before) + script
  }

  predicate FollowsAll(before: seq<Exchange>, log: seq<Exchange>, script: seq<Request>) {
    before <= log && Sent(log) == Sent(before) + script
  }

  lemma FollowsOn(a: seq<Exchange>, b: seq<Exchange>, c: seq<Exchange>, first: seq<Request>, second: seq<Request>)
    requires FollowsAll(a, b, first) && Follows(b, c, second)
    ensures Follows(a, c, first + second)
    ensures FollowsAll(b, c, second) ==> FollowsAll(a, c, first + second)
  {
    assert Sent(a) + first + second == Sent(a) + (first + second);
  }

  lemma FollowsLess(a: seq<Exchange>, b: seq<Exchange>, script: seq<Request>, more: seq<Request>)
    requires Follows(a, b, script)
    ensures Follows(a, b, script + more)
  {
    assert Sent(a) + (script + more) == Sent(a) + script + more;
  }

  // How many configs were refused from place n of the log on.
  function Refusals(log: seq<Exchange>, n: nat, dryRun: bool): nat
    decreases |log|
  {
    if |log| <= n then 0
    else
      var last := log[|log| - 1];
      Refusals(log[..|log| - 1], n, dryRun)
      + if last.request.SendConfig? && last.request.dryRun == dryRun && last.reply == Refused then 1 else 0
  }

  lemma RefusalsWith(log: seq<Exchange>, n: nat, dryRun: bool, e: Exchange)
    requires n <= |log|
    ensures Refusals(log + [e], n, dryRun) ==
            Refusals(log, n, dryRun)
            + if e.request.SendConfig? && e.request.dryRun == dryRun && e.reply == Refused then 1 else 0
  {
    assert (log + [e])[..|log|] == log;
  }

  // The first i configs were sent, and so many were refused.
  predicate SentFirst(before: seq<Exchange>, log: seq<Exchange>, dryRun: bool, configs: seq<ConfigFile>, i: nat,
                      rejected: nat)
    requires i <= |configs|
  {
    && before <= log && |log| == |before| + i
    && (forall k :: |before| <= k < |log| ==> log[k].request == SendConfig(dryRun, configs[k - |before|]))
    && rejected == Refusals(log, |before|, dryRun)
  }

  lemma SentFollows(before: seq<Exchange>, log: seq<Exchange>, dryRun: bool, configs: seq<ConfigFile>, i: nat,
                    rejected: nat)
    requires i <= |configs| && SentFirst(before, log, dryRun, configs, i, rejected)
    ensures Follows(before, log, SendAll(dryRun, configs))
    ensures i == |configs| ==> FollowsAll(before, log, SendAll(dryRun, configs))
  {
    assert Sent(log) == Sent(before) + SendAll(dryRun, configs)[..i];
  }

  lemma SentNext(before: seq<Exchange>, log: seq<Exchange>, dryRun: bool, configs: seq<ConfigFile>, i: nat,
                 rejected: nat, reply: Reply)
    requires i < |configs| && SentFirst(before, log, dryRun, configs, i, rejected)
    ensures SentFirst(before, log + [Exchange(SendConfig(dryRun, configs[i]), reply)], dryRun, configs, i + 1,
                      rejected + if reply == Refused then 1 else 0)
  {
    RefusalsWith(log, |before|, dryRun, Exchange(SendConfig(dryRun, configs[i]), reply));
  }

  // The refs of the first i configs that have a ref of their own. If clean, that is all of them.
  predicate Gathered(configs: seq<ConfigFile>, i: nat, pending: seq<string>, definedBy: map<string, string>,
                     clean: bool)
    requires i <= |configs|
  {
    && (forall ref :: ref in definedBy ==> ref in Refs(configs[..i]))
    && (clean ==>
          DistinctRefs(configs[..i]) && pending == Refs(configs[..i]) && definedBy.Keys == set ref | ref in pending)
  }

  // What the dry runs have given so far: the refs, and how many configs were refused or had the ref of an earlier one.
  datatype Gathering = Gathering(pending: seq<string>, definedBy: map<string, string>, rejected: nat, clashes: nat) {
    predicate Clean() {
      rejected == 0 && clashes == 0
    }
  }

  predicate DryState(before: seq<Exchange>, log: seq<Exchange>, configs: seq<ConfigFile>, i: nat, s: Gathering,
                     configDryRuns: bool)
    requires i <= |configs|
  {
    && SentFirst(before, log, true, configs, i, s.rejected)
    && Gathered(configs, i, s.pending, s.definedBy, s.Clean())
    && (s.clashes > 0 ==> !DistinctRefs(configs))
    && (s.Clean() && !configDryRuns ==> i == 0)
  }

  lemma GatherNext(configs: seq<ConfigFile>, i: nat, pending: seq<string>, definedBy: map<string, string>, clean: bool)
    requires i < |configs| && Gathered(configs, i, pending, definedBy, clean)
    ensures var file := configs[i];
            if file.ref in definedBy then !DistinctRefs(configs) && Gathered(configs, i + 1, pending, definedBy, false)
            else Gathered(configs, i + 1, pending + [file.ref], definedBy[file.ref := file.path], clean)
  {
    var file, refs := configs[i], Refs(configs[..i]);
    assert configs[..i + 1] == configs[..i] + [file];
    assert Refs(configs[..i + 1]) == refs + [file.ref];
    if file.ref in definedBy {
      var k :| 0 <= k < i && refs[k] == file.ref;
      assert configs[k].ref == configs[i].ref;
    }
  }

  lemma GatherNone(configs: seq<ConfigFile>, i: nat, pending: seq<string>, definedBy: map<string, string>, clean: bool)
    requires i < |configs| && Gathered(configs, i, pending, definedBy, clean)
    ensures Gathered(configs, i + 1, pending, definedBy, false)
  {
    assert Refs(configs[..i + 1]) == Refs(configs[..i]) + [configs[i].ref];
  }

  // Why a run may fail with the cause, given the log since place n, the options and whether the context is over. It is
  // the last exchange that ends a run, unless the run ends between two of them.
  predicate Because(cause: Cause, log: seq<Exchange>, n: nat, opts: Options, configs: seq<ConfigFile>, workflow: bool,
                    over: bool)
  {
    var last := if |log| > n then Some(log[|log| - 1]) else None;
    match cause
    case Unreachable => last.Some? && last.value.reply == NoAnswer
    case Interrupted => last.Some? && last.value.reply == Ended && over
    case RefusedByServer => last.Some? && last.value.reply == Refused && (last.value.request.SendConfig? ==> over)
    case BadAnswer => last.Some? && last.value.reply == Garbled && !last.value.request.SendConfig?
    case NoConfigDryRun =>
      && last.Some? && last.value.request.SendConfig? && last.value.request.dryRun
      && (last.value.reply == Accepted(false) || last.value.reply == Garbled)
    case NoWorkflowDryRun =>
      last.Some? && last.value.request == SendWorkflow(true, None) && last.value.reply.Planned?
      && !last.value.reply.dryRun
    case UnknownAction => last == Some(Exchange(SendWorkflow(true, None), Planned(true, None)))
    case Unsupported => last == Some(Exchange(AskOptions, Offers(false)))
    case NothingToApply => configs == [] && !opts.injects && !workflow
    case NeedsForce =>
      && last == Some(Exchange(SendWorkflow(true, None), Planned(true, Some(Restart))))
      && !opts.dryRun && !opts.force
    case StagingFailed => opts.injects
    case NotSent => over
    case Problems(rejected, clashes) =>
      && rejected + clashes > 0 && (clashes > 0 ==> !DistinctRefs(configs))
      && (rejected == Refusals(log, n, true) || (clashes == 0 && rejected == Refusals(log, n, false)))
  }

  // What came of one config: taken, rejected, or an error that ends the run.
  datatype Checked = Taken | Rejected | Ends(error: Error)

  // The exchange of a config is a reason for the cause to end the run.
  predicate EndsBecause(cause: Cause, e: Exchange, over: bool) {
    && e.request.SendConfig?
    && match cause
       case Unreachable => e.reply == NoAnswer
       case Interrupted => e.reply == Ended && over
       case RefusedByServer => e.reply == Refused && over
       case NoConfigDryRun => e.request.dryRun && (e.reply == Accepted(false) || e.reply == Garbled)
       case _ => false
  }

  // Why the sending of all configs may fail: between two of them, by the last exchange, or after all.
  predicate SendingFails(cause: Cause, log: seq<Exchange>, n: nat, dryRun: bool, configs: seq<ConfigFile>, over: bool) {
    match cause
    case NotSent => over && !dryRun
    case Problems(rejected, clashes) =>
      && rejected == Refusals(log, n, dryRun) && rejected + clashes > 0
      && (clashes > 0 ==> dryRun && !DistinctRefs(configs))
    case _ => |log| > n && EndsBecause(cause, log[|log| - 1], over)
  }

  lemma EndsHere(before: seq<Exchange>, log: seq<Exchange>, dryRun: bool, configs: seq<ConfigFile>, i: nat,
                 rejected: nat, reply: Reply, cause: Cause, over: bool)
    requires i < |configs| && SentFirst(before, log, dryRun, configs, i, rejected)
    requires EndsBecause(cause, Exchange(SendConfig(dryRun, configs[i]), reply), over)
    ensures var now := log + [Exchange(SendConfig(dryRun, configs[i]), reply)];
            Follows(before, now, SendAll(dryRun, configs))
            && SendingFails(cause, now, |before|, dryRun, configs, over)
  {
    SentNext(before, log, dryRun, configs, i, rejected, reply);
    SentFollows(before, log + [Exchange(SendConfig(dryRun, configs[i]), reply)], dryRun, configs, i + 1,
                rejected + if reply == Refused then 1 else 0);
  }

  lemma SendingFailsBecause(cause: Cause, log: seq<Exchange>, n: nat, m: nat, dryRun: bool, opts: Options,
                            configs: seq<ConfigFile>, workflow: bool, over: bool)
    requires n <= m <= |log| && SendingFails(cause, log, m, dryRun, configs, over)
    requires Refusals(log, n, dryRun) == Refusals(log, m, dryRun)
    ensures Because(cause, log, n, opts, configs, workflow, over)
  {
  }

  // Why the last request may fail.
  predicate ApplyFails(cause: Cause, log: seq<Exchange>, n: nat, over: bool) {
    match cause
    case NotSent => over
    case Unreachable => |log| > n && log[|log| - 1].reply == NoAnswer
    case Interrupted => |log| > n && log[|log| - 1].reply == Ended && over
    case RefusedByServer => |log| > n && log[|log| - 1].request.SendWorkflow? && log[|log| - 1].reply == Refused
    case BadAnswer => |log| > n && log[|log| - 1].request.SendWorkflow? && log[|log| - 1].reply == Garbled
    case _ => false
  }

  predicate CommitFails(cause: Cause, log: seq<Exchange>, n: nat, opts: Options, configs: seq<ConfigFile>, over: bool) {
    || (cause == StagingFailed && opts.injects) || (cause == NotSent && over)
    || SendingFails(cause, log, n, false, configs, over)
    || ApplyFails(cause, log, n, over)
  }

  lemma CommitFailsBecause(cause: Cause, log: seq<Exchange>, n: nat, m: nat, opts: Options, configs: seq<ConfigFile>,
                           workflow: bool, over: bool)
    requires n <= m <= |log| && CommitFails(cause, log, m, opts, configs, over)
    requires Refusals(log, n, false) == Refusals(log, m, false)
    ensures Because(cause, log, n, opts, configs, workflow, over)
  {
    if SendingFails(cause, log, m, false, configs, over) {
      SendingFailsBecause(cause, log, n, m, false, opts, configs, workflow, over);
    }
  }

  // A reason in a later part of the log is a reason in the whole.
  lemma BecauseFrom(cause: Cause, log: seq<Exchange>, n: nat, m: nat, opts: Options, configs: seq<ConfigFile>,
                    workflow: bool, over: bool)
    requires n <= m <= |log| && Because(cause, log, m, opts, configs, workflow, over)
    requires cause.Problems? ==>
               || (cause.rejected == Refusals(log, n, true))
               || (cause.clashes == 0 && cause.rejected == Refusals(log, n, false))
    ensures Because(cause, log, n, opts, configs, workflow, over)
  {
  }

  lemma {:induction false} RefusalsFrom(log: seq<Exchange>, n: nat, m: nat, dryRun: bool)
    requires n <= m <= |log|
    requires forall i :: n <= i < m ==> !(log[i].request.SendConfig? && log[i].request.dryRun == dryRun)
    ensures Refusals(log, n, dryRun) == Refusals(log, m, dryRun)
    decreases |log|
  {
    if |log| > m {
      RefusalsFrom(log[..|log| - 1], n, m, dryRun);
    } else if |log| > n {
      RefusalsFrom(log[..|log| - 1], n, |log| - 1, dryRun);
    }
  }

  // The plan stores no config, so no refusal in it is one of the commit.
  lemma PlanRefusesNothing(before: seq<Exchange>, middle: seq<Exchange>, log: seq<Exchange>, configs: seq<ConfigFile>,
                           workflow: bool)
    requires FollowsAll(before, middle, PlanScript(configs, workflow)) && middle <= log
    ensures Refusals(log, |before|, false) == Refusals(log, |middle|, false)
  {
    forall i | |before| <= i < |middle|
      ensures !(log[i].request.SendConfig? && log[i].request.dryRun == false)
    {
      assert Sent(middle)[i] == PlanScript(configs, workflow)[i - |before|];
    }
    RefusalsFrom(log, |before|, |middle|, false);
  }

  class ApplyRun {
    const opts: Options
    var staged: bool
    var upserted: nat

    constructor (opts: Options)
      ensures this.opts == opts && !staged && upserted == 0
    {
      this.opts, staged, upserted := opts, false, 0;
    }

    // The only request here reads the options, so the server stores and begins nothing.
    method Preflight(ctx: Context, server: Server, configs: seq<ConfigFile>, workflow: bool)
      returns (r: Result<(), Error>)
      modifies ctx, server`log
      ensures old(ctx.ended) ==> ctx.ended
      ensures FollowsAll(old(server.log), server.log, [AskOptions])
      ensures r.Success? ==> server.workflowDryRuns && (configs != [] || opts.injects || workflow)
      ensures r.Failure? ==> r.error == Plain(r.error.cause)
      ensures r.Failure? ==>
                Because(r.error.cause, server.log, |old(server.log)|, opts, configs, workflow, ctx.ended)
    {
      var reply := server.GetOptions(ctx);
      if !reply.Offers? {
        return Failure(Plain(CauseOf(reply)));
      }
      if !reply.workflowDryRuns {
        return Failure(Plain(Unsupported));
      }
      if configs == [] && !opts.injects && !workflow {
        return Failure(Plain(NothingToApply));
      }
      r := Success(());
    }

    // One dry run. What cannot be a mere rejection ends the run.
    method CheckConfig(ctx: Context, server: Server, file: ConfigFile) returns (checked: Checked, ghost reply: Reply)
      modifies ctx, server`upserts, server`log, server`late
      ensures server.late == old(server.late)
      ensures old(ctx.ended) ==> ctx.ended
      ensures server.log == old(server.log) + [Exchange(SendConfig(true, file), reply)]
      ensures checked.Taken? ==> reply == Accepted(true) && server.configDryRuns
      ensures checked.Rejected? ==> reply == Refused
      ensures checked.Ends? ==>
                && checked.error == Plain(checked.error.cause) && reply != Accepted(true)
                && EndsBecause(checked.error.cause, server.log[|old(server.log)|], ctx.ended)
      ensures server.upserts == old(server.upserts) || server.upserts == old(server.upserts) + [file]
      ensures server.upserts != old(server.upserts) ==>
                && !server.configDryRuns && checked.Ends?
                && checked.error.cause in {NoConfigDryRun, Unreachable, Interrupted}
    {
      var answer := server.PostConfig(ctx, true, file);
      reply := answer;
      var cause := CauseOf(answer);
      if answer.Accepted? || answer == Garbled {
        cause := NoConfigDryRun;
      }
      if answer == Accepted(true) {
        return Taken, reply;
      }
      var over := ctx.Err();
      checked := if EndsRun(cause, over) then Ends(Plain(cause)) else Rejected;
    }

    // Takes up the ref of a config, unless an earlier one has it.
    method Gather(configs: seq<ConfigFile>, i: nat, pending: seq<string>, definedBy: map<string, string>,
                  ghost clean: bool)
      returns (more: seq<string>, defined: map<string, string>, clash: bool)
      requires i < |configs| && Gathered(configs, i, pending, definedBy, clean)
      ensures Gathered(configs, i + 1, more, defined, clean && !clash)
      ensures clash ==> !DistinctRefs(configs)
    {
      GatherNext(configs, i, pending, definedBy, clean);
      clash := configs[i].ref in definedBy;
      if clash {
        return pending, definedBy, clash;
      }
      more, defined := pending + [configs[i].ref], definedBy[configs[i].ref := configs[i].path];
    }

    // One upsert.
    method SendConfigOnce(ctx: Context, server: Server, file: ConfigFile) returns (sent: Checked, ghost reply: Reply)
      modifies ctx, server`upserts, server`log, server`late
      ensures server.late == (old(server.late) || old(ctx.ended))
      ensures old(ctx.ended) ==> ctx.ended
      ensures server.log == old(server.log) + [Exchange(SendConfig(false, file), reply)]
      ensures sent.Taken? ==> server.upserts == old(server.upserts) + [file] && (reply.Accepted? || reply == Garbled)
      ensures sent.Rejected? ==> server.upserts == old(server.upserts) && reply == Refused
      ensures server.upserts == old(server.upserts) || server.upserts == old(server.upserts) + [file]
      ensures sent.Ends? ==>
                && sent.error == Plain(sent.error.cause).(mayFinish := sent.error.mayFinish)
                && EndsBecause(sent.error.cause, server.log[|old(server.log)|], ctx.ended)
                && sent.error.cause != NoConfigDryRun
                && (server.upserts != old(server.upserts) ==> sent.error.mayFinish || sent.error.cause == Unreachable)
    {
      var answer := server.PostConfig(ctx, false, file);
      reply := answer;
      if answer.Accepted? || answer == Garbled {
        return Taken, reply;
      }
      var e := MayStillFinish(ctx, CauseOf(answer));
      var over := ctx.Err();
      sent := if EndsRun(e.cause, over) then Ends(e) else Rejected;
    }

    // One PostConfig with dryRun for each config, up to a cause that EndsRun. Two equal refs fail as well.
    method DryRunConfigs(ctx: Context, server: Server, configs: seq<ConfigFile>) returns (r: Result<seq<string>, Error>)
      modifies ctx, server`upserts, server`log, server`late
      ensures server.late == old(server.late)
      ensures old(ctx.ended) ==> ctx.ended
      ensures Follows(old(server.log), server.log, SendAll(true, configs))
      ensures r.Success? ==> FollowsAll(old(server.log), server.log, SendAll(true, configs))
      ensures r.Success? ==> server.upserts == old(server.upserts) && DistinctRefs(configs) && r.value == Refs(configs)
      ensures r.Success? && !server.configDryRuns ==> configs == []
      ensures r.Failure? ==> r.error == Plain(r.error.cause)
      ensures r.Failure? ==>
                SendingFails(r.error.cause, server.log, |old(server.log)|, true, configs, ctx.ended)
      ensures server.configDryRuns ==> server.upserts == old(server.upserts)
      // Against configDryRuns == false, the first accepted request is seen through, so upserts grows by one at most.
      ensures OnlyOurs(old(server.upserts), server.upserts, configs) && |server.upserts| <= |old(server.upserts)| + 1
      ensures server.upserts != old(server.upserts) ==>
                r.Failure? && r.error.cause in {NoConfigDryRun, Unreachable, Interrupted}
    {
      NoneOfOurs(server.upserts, configs);
      var s := Gathering([], map[], 0, 0);
      var i := 0;
      while i < |configs|
        invariant 0 <= i <= |configs| && (old(ctx.ended) ==> ctx.ended) && server.late == old(server.late)
        invariant server.upserts == old(server.upserts)
        invariant DryState(old(server.log), server.log, configs, i, s, server.configDryRuns)
      {
        ghost var stored := server.upserts;
        OneMoreOfOurs(stored, stored, configs, i);
        var error;
        error, s := DryRunNext(ctx, server, configs, i, s, old(server.log));
        if error.Some? {
          return Failure(error.value);
        }
        i := i + 1;
      }
      assert configs[..i] == configs;
      SentFollows(old(server.log), server.log, true, configs, i, s.rejected);
      if s.rejected > 0 || s.clashes > 0 {
        return Failure(Plain(Problems(s.rejected, s.clashes)));
      }
      r := Success(s.pending);
    }

    // The dry run of config i, with what the earlier ones gave.
    method DryRunNext(ctx: Context, server: Server, configs: seq<ConfigFile>, i: nat, s: Gathering,
                      ghost before: seq<Exchange>)
      returns (error: Option<Error>, t: Gathering)
      requires i < |configs| && DryState(before, server.log, configs, i, s, server.configDryRuns)
      modifies ctx, server`upserts, server`log, server`late
      ensures server.late == old(server.late)
      ensures old(ctx.ended) ==> ctx.ended
      ensures error.None? ==>
                server.upserts == old(server.upserts)
                && DryState(before, server.log, configs, i + 1, t, server.configDryRuns)
      ensures error.Some? ==>
                && error.value == Plain(error.value.cause) && !error.value.cause.Problems?
                && Follows(before, server.log, SendAll(true, configs))
                && SendingFails(error.value.cause, server.log, |before|, true, configs, ctx.ended)
      ensures server.upserts == old(server.upserts) || server.upserts == old(server.upserts) + [configs[i]]
      ensures server.upserts != old(server.upserts) ==>
                && !server.configDryRuns && error.Some?
                && error.value.cause in {NoConfigDryRun, Unreachable, Interrupted}
    {
      t := s;
      ghost var earlier := server.log;
      var checked, reply := CheckConfig(ctx, server, configs[i]);
      if checked.Ends? {
        EndsHere(before, earlier, true, configs, i, s.rejected, reply, checked.error.cause, ctx.ended);
        return Some(checked.error), t;
      }
      error := None;
      SentNext(before, earlier, true, configs, i, s.rejected, reply);
      if checked.Rejected? {
        GatherNone(configs, i, s.pending, s.definedBy, s.Clean());
        t := s.(rejected := s.rejected + 1);
      } else {
        var more, defined, clash := Gather(configs, i, s.pending, s.definedBy, s.Clean());
        t := Gathering(more, defined, s.rejected, s.clashes + if clash then 1 else 0);
      }
    }

    // The plan. opts.dryRun makes every action acceptable, opts.force a restart.
    method DryRunWorkflow(ctx: Context, server: Server, workflow: bool) returns (r: Result<Option<Action>, Error>)
      requires server.workflowDryRuns
      modifies ctx, server`begun, server`log, server`late
      ensures server.late == old(server.late)
      ensures server.begun == old(server.begun) && (old(ctx.ended) ==> ctx.ended)
      ensures FollowsAll(old(server.log), server.log, if workflow then [SendWorkflow(true, None)] else [])
      ensures r.Success? ==> r.value.Some? == workflow && (r.value == Some(Restart) ==> opts.dryRun || opts.force)
      ensures r.Success? && workflow ==> server.log[|old(server.log)|].reply == Planned(true, r.value)
      ensures r.Failure? ==> r.error == Plain(r.error.cause) && !r.error.cause.Problems?
      ensures r.Failure? ==>
                forall configs :: Because(r.error.cause, server.log, |old(server.log)|, opts, configs, workflow,
                                          ctx.ended)
    {
      if !workflow {
        return Success(None);
      }
      var reply := server.PostWorkflow(ctx, true, None);
      if !reply.Planned? {
        return Failure(Plain(CauseOf(reply)));
      }
      if !reply.dryRun {
        return Failure(Plain(NoWorkflowDryRun));
      }
      if reply.action.None? {
        return Failure(Plain(UnknownAction));
      }
      if !opts.dryRun && !opts.force && reply.action == Some(Restart) {
        return Failure(Plain(NeedsForce));
      }
      r := Success(reply.action);
    }

    // Copies the injects. The copying itself may fail.
    method Stage() returns (r: Result<(), Error>)
      modifies this`staged
      ensures staged == (old(staged) || (opts.injects && r.Success?))
      ensures r.Failure? ==> opts.injects && r.error == Plain(StagingFailed)
    {
      if !opts.injects {
        return Success(());
      }
      if * {
        return Failure(Plain(StagingFailed));
      }
      staged := true;
      r := Success(());
    }

    // The error for a request that was begun in time. mayFinish is set if the context is over by now.
    method MayStillFinish(ctx: Context, cause: Cause) returns (e: Error)
      modifies ctx
      ensures old(ctx.ended) ==> ctx.ended
      ensures e == Plain(cause).(mayFinish := ctx.ended)
    {
      var over := ctx.Err();
      e := Plain(cause).(mayFinish := over);
    }

    // One PostConfig for each config, in order. upserted counts the accepted ones.
    method Upsert(ctx: Context, server: Server, configs: seq<ConfigFile>) returns (r: Result<(), Error>)
      requires upserted == 0
      modifies ctx, server`upserts, server`log, server`late, this`upserted
      ensures server.late == old(server.late)
      ensures old(ctx.ended) ==> ctx.ended
      ensures Follows(old(server.log), server.log, SendAll(false, configs))
      ensures r.Success? ==> FollowsAll(old(server.log), server.log, SendAll(false, configs))
      ensures r.Failure? ==>
                SendingFails(r.error.cause, server.log, |old(server.log)|, false, configs, ctx.ended)
      ensures OnlyOurs(old(server.upserts), server.upserts, configs)
      ensures r.Success? ==> server.upserts == old(server.upserts) + configs && upserted == |configs|
      ensures r.Failure? ==> Accounted(old(server.upserts), server.upserts, upserted,
                                       ChangedError(r.error, staged, upserted))
      ensures r.Failure? ==> r.error == Plain(r.error.cause).(mayFinish := r.error.mayFinish)
    {
      NoneOfOurs(server.upserts, configs);
      var rejected := 0;
      var i := 0;
      while i < |configs|
        invariant 0 <= i <= |configs| && (old(ctx.ended) ==> ctx.ended) && server.late == old(server.late)
        invariant SentFirst(old(server.log), server.log, false, configs, i, rejected)
        invariant StoredFirst(old(server.upserts), server.upserts, configs, i, upserted, rejected)
      {
        var over := ctx.Err();
        if over {
          SentFollows(old(server.log), server.log, false, configs, i, rejected);
          return Failure(Plain(NotSent));
        }
        ghost var before, stored := server.log, server.upserts;
        OneMoreOfOurs(old(server.upserts), stored, configs, i);
        var sent, reply := SendConfigOnce(ctx, server, configs[i]);
        if sent.Ends? {
          EndsHere(old(server.log), before, false, configs, i, rejected, reply, sent.error.cause, ctx.ended);
          return Failure(sent.error);
        }
        SentNext(old(server.log), before, false, configs, i, rejected, reply);
        StoredNext(old(server.upserts), stored, configs, i, upserted, rejected);
        if sent.Rejected? {
          rejected := rejected + 1;
        } else {
          upserted := upserted + 1;
        }
        i := i + 1;
      }
      assert configs[..i] == configs;
      SentFollows(old(server.log), server.log, false, configs, i, rejected);
      if rejected > 0 {
        return Failure(Plain(Problems(rejected, 0)));
      }
      r := Success(());
    }

    // PostWorkflow with planned as the expected action.
    method Apply(ctx: Context, server: Server, plan: Option<Action>) returns (r: Result<(), Error>)
      requires server.workflowDryRuns
      modifies ctx, server`begun, server`log, server`late
      ensures server.late == old(server.late)
      ensures old(ctx.ended) ==> ctx.ended
      ensures Follows(old(server.log), server.log, if plan.Some? then [SendWorkflow(false, plan)] else [])
      ensures r.Success? ==>
                FollowsAll(old(server.log), server.log, if plan.Some? then [SendWorkflow(false, plan)] else [])
      ensures r.Failure? ==> ApplyFails(r.error.cause, server.log, |old(server.log)|, ctx.ended)
      ensures server.begun == old(server.begun) || (plan.Some? && server.begun == old(server.begun) + [plan.value])
      ensures r.Success? ==> server.begun == old(server.begun) + if plan.Some? then [plan.value] else []
      ensures r.Failure? ==> r.error == Plain(r.error.cause).(mayFinish := r.error.mayFinish)
      // An action begun by a failed run is one that the server reported as failed, or one that the error warns of.
      ensures r.Failure? && server.begun != old(server.begun) ==>
                r.error.cause in {RefusedByServer, BadAnswer, Unreachable}
                || (r.error.cause == Interrupted && r.error.mayFinish)
    {
      if plan.None? {
        return Success(());
      }
      var over := ctx.Err();
      if over {
        return Failure(Plain(NotSent));
      }
      var reply := server.PostWorkflow(ctx, false, plan);
      assert server.begun == old(server.begun) || server.begun == old(server.begun) + [plan.value];
      if !reply.Planned? {
        var e := MayStillFinish(ctx, CauseOf(reply));
        return Failure(e);
      }
      r := Success(());
    }

    /**
     One run. planned is the action of the plan, and committed says that the planning is over and was not all.
     */
    method RunWorkflowApply(ctx: Context, server: Server, configs: seq<ConfigFile>, workflow: bool)
      returns (r: Result<(), Error>, planned: Option<Action>, committed: bool)
      requires !staged && upserted == 0
      modifies ctx, server`upserts, server`begun, server`log, server`late, this`staged, this`upserted
      // No request but a dry run is sent once the context is over.
      ensures server.late == old(server.late)
      // The run sends the plan's requests, and after a plan that it may carry out those of the commit. A success has
      // sent all of them, and whatever ends it earlier is a reason for the error.
      ensures Follows(old(server.log), server.log,
                      PlanScript(configs, workflow) + if committed then CommitScript(configs, planned) else [])
      ensures r.Success? ==>
                FollowsAll(old(server.log), server.log,
                           PlanScript(configs, workflow) + if committed then CommitScript(configs, planned) else [])
      ensures r.Success? ==> committed == !opts.dryRun
      ensures r.Failure? ==> Because(r.error.cause, server.log, |old(server.log)|, opts, configs, workflow, ctx.ended)
      // The planned action is the one that the server answered to the dry run.
      ensures planned.Some? ==>
                Exchange(SendWorkflow(true, None), Planned(true, planned)) in server.log[|old(server.log)|..]
      // Whatever the server's state does meanwhile, no action but the planned one is begun, and a restart only with
      // force.
      ensures server.begun == old(server.begun)
              || (planned.Some? && server.begun == old(server.begun) + [planned.value])
      ensures server.begun != old(server.begun) ==>
                committed && !opts.dryRun && (planned == Some(Restart) ==> opts.force)
      // A dry run and any failure to plan change nothing, if the server knows config dry runs.
      ensures opts.dryRun ==> !committed
      ensures !committed ==>
                !staged && upserted == 0 && (server.configDryRuns ==> server.upserts == old(server.upserts))
      ensures !committed ==>
                && |server.upserts| <= |old(server.upserts)| + 1
                && (r.Success? ==> server.upserts == old(server.upserts))
      // A full success stores every config, in order and under refs of their own, and carries out the plan.
      ensures r.Success? && !opts.dryRun ==>
                && server.upserts == old(server.upserts) + configs && DistinctRefs(configs) && staged == opts.injects
                && planned.Some? == workflow
                   && server.begun == old(server.begun) + if workflow then [planned.value] else []
      // A failure after the planning reports what was changed.
      ensures r.Failure? && committed ==> Accounted(old(server.upserts), server.upserts, r.error.upserted, r.error)
      ensures r.Failure? && committed ==> r.error.upserted == upserted && r.error.staged == staged
      ensures OnlyOurs(old(server.upserts), server.upserts, configs)
    {
      planned, committed := None, false;
      ghost var n := |server.log|;
      var plan := PlanRun(ctx, server, configs, workflow);
      if plan.Failure? {
        return Failure(plan.error), planned, committed;
      }
      planned := plan.value;
      if opts.dryRun {
        return Success(()), planned, committed;
      }
      var over := ctx.Err();
      if over {
        return Failure(Plain(NotSent)), planned, committed;
      }
      committed := true;
      ghost var middle := server.log;
      r := CommitRun(ctx, server, configs, planned);
      FollowsOn(old(server.log), middle, server.log, PlanScript(configs, workflow), CommitScript(configs, planned));
      if r.Failure? {
        PlanRefusesNothing(old(server.log), middle, server.log, configs, workflow);
        CommitFailsBecause(r.error.cause, server.log, n, |middle|, opts, configs, workflow, ctx.ended);
      }
    }

    // The first two steps of the plan.
    method CheckRun(ctx: Context, server: Server, configs: seq<ConfigFile>, workflow: bool)
      returns (r: Result<(), Error>)
      modifies ctx, server`upserts, server`log, server`late
      ensures server.late == old(server.late)
      ensures old(ctx.ended) ==> ctx.ended
      ensures Follows(old(server.log), server.log, [AskOptions] + SendAll(true, configs))
      ensures r.Success? ==> FollowsAll(old(server.log), server.log, [AskOptions] + SendAll(true, configs))
      ensures r.Failure? ==> Because(r.error.cause, server.log, |old(server.log)|, opts, configs, workflow, ctx.ended)
      ensures r.Success? ==>
                server.workflowDryRuns && DistinctRefs(configs) && (configs != [] || opts.injects || workflow)
      ensures r.Success? || server.configDryRuns ==> server.upserts == old(server.upserts)
      ensures OnlyOurs(old(server.upserts), server.upserts, configs) && |server.upserts| <= |old(server.upserts)| + 1
    {
      NoneOfOurs(server.upserts, configs);
      r := Preflight(ctx, server, configs, workflow);
      ghost var asked := server.log;
      FollowsLess(old(server.log), asked, [AskOptions], SendAll(true, configs));
      if r.Success? {
        var pending := DryRunConfigs(ctx, server, configs);
        FollowsOn(old(server.log), asked, server.log, [AskOptions], SendAll(true, configs));
        if pending.Failure? {
          RefusalsFrom(server.log, |old(server.log)|, |asked|, true);
          SendingFailsBecause(pending.error.cause, server.log, |old(server.log)|, |asked|, true, opts, configs,
                              workflow, ctx.ended);
          r := Failure(pending.error);
        }
      }
    }

    // The dry runs, up to the planned action.
    method PlanRun(ctx: Context, server: Server, configs: seq<ConfigFile>, workflow: bool)
      returns (r: Result<Option<Action>, Error>)
      modifies ctx, server`upserts, server`begun, server`log, server`late
      ensures server.late == old(server.late)
      ensures old(ctx.ended) ==> ctx.ended
      ensures Follows(old(server.log), server.log, PlanScript(configs, workflow))
      ensures r.Success? ==> FollowsAll(old(server.log), server.log, PlanScript(configs, workflow))
      ensures r.Failure? ==> Because(r.error.cause, server.log, |old(server.log)|, opts, configs, workflow, ctx.ended)
      ensures r.Success? && workflow ==>
                Exchange(SendWorkflow(true, None), Planned(true, r.value)) in server.log[|old(server.log)|..]
      ensures r.Success? ==>
                && server.workflowDryRuns && r.value.Some? == workflow && DistinctRefs(configs)
                && (r.value == Some(Restart) ==> opts.dryRun || opts.force)
      ensures server.begun == old(server.begun)
      ensures r.Success? || server.configDryRuns ==> server.upserts == old(server.upserts)
      ensures OnlyOurs(old(server.upserts), server.upserts, configs) && |server.upserts| <= |old(server.upserts)| + 1
    {
      ghost var last := if workflow then [SendWorkflow(true, None)] else [];
      var checked := CheckRun(ctx, server, configs, workflow);
      ghost var middle := server.log;
      FollowsLess(old(server.log), middle, [AskOptions] + SendAll(true, configs), last);
      if checked.Failure? {
        return Failure(checked.error);
      }
      r := DryRunWorkflow(ctx, server, workflow);
      FollowsOn(old(server.log), middle, server.log, [AskOptions] + SendAll(true, configs), last);
      if r.Failure? {
        BecauseFrom(r.error.cause, server.log, |old(server.log)|, |middle|, opts, configs, workflow, ctx.ended);
      } else if workflow {
        assert server.log[|old(server.log)|..][|middle| - |old(server.log)|] == server.log[|middle|];
      }
    }

    // What changes anything: the staging, the configs and the planned action.
    method CommitRun(ctx: Context, server: Server, configs: seq<ConfigFile>, planned: Option<Action>)
      returns (r: Result<(), Error>)
      requires !staged && upserted == 0 && server.workflowDryRuns && !ctx.ended
      modifies ctx, server`upserts, server`begun, server`log, server`late, this`staged, this`upserted
      ensures server.late == old(server.late)
      ensures Follows(old(server.log), server.log, CommitScript(configs, planned))
      ensures r.Success? ==> FollowsAll(old(server.log), server.log, CommitScript(configs, planned))
      ensures r.Failure? ==>
                CommitFails(r.error.cause, server.log, |old(server.log)|, opts, configs, ctx.ended)
      ensures server.begun == old(server.begun)
              || (planned.Some? && server.begun == old(server.begun) + [planned.value])
      ensures r.Success? ==>
                && server.upserts == old(server.upserts) + configs && staged == opts.injects
                && server.begun == old(server.begun) + if planned.Some? then [planned.value] else []
      ensures r.Failure? ==> Accounted(old(server.upserts), server.upserts, r.error.upserted, r.error)
      ensures r.Failure? ==> r.error.upserted == upserted && r.error.staged == staged
      ensures OnlyOurs(old(server.upserts), server.upserts, configs)
    {
      var stage := Stage();
      if stage.Failure? {
        return Failure(stage.error);
      }
      var over := ctx.Err();
      if staged && over {
        return Failure(ChangedError(Plain(NotSent), staged, upserted));
      }
      var stored := Upsert(ctx, server, configs);
      ghost var sent := server.log;
      FollowsLess(old(server.log), sent, SendAll(false, configs),
                  if planned.Some? then [SendWorkflow(false, planned)] else []);
      if stored.Failure? {
        return Failure(ChangedError(stored.error, staged, upserted));
      }
      var applied := Apply(ctx, server, planned);
      FollowsOn(old(server.log), sent, server.log, SendAll(false, configs),
                if planned.Some? then [SendWorkflow(false, planned)] else []);
      if applied.Failure? {
        return Failure(ChangedError(applied.error, staged, upserted));
      }
      r := Success(());
    }
  }

  // Fills in the three fields that Plain leaves empty. After Unreachable, Accounted allows for one config more.
  function ChangedError(e: Error, staged: bool, upserted: nat): Error {
    Error(e.cause, e.mayFinish, e.cause == Unreachable, staged, upserted)
  }
}
