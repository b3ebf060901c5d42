/**
 More about the search of MisplacedKey: which walks it permits, in terms of the document alone, what path it reports,
 and that its answer is the first place in document order.
 */
module SearchOrder {
  import opened MisplacedKey

  // ---------------------------------------------------------------------------------------------
  // Permitted walks
  // ---------------------------------------------------------------------------------------------

  // Aliases lead from n to m, which is none.
  predicate Names(g: Graph, n: NodeId, m: NodeId)
    requires Valid(g)
    decreases n
  {
    n < |g| && match g[n] {
      case Alias(_, _, target) => Names(g, target, m)
      case _ => n == m
    }
  }

  // The document has m as the i-th value of the mapping n, or as the i-th item of the list n.
  predicate Edge(g: Graph, n: NodeId, i: nat, m: NodeId)
    requires Valid(g)
  {
    n < |g| && match g[n] {
      case Mapping(_, content) => 2 * i + 1 < |content| && Names(g, content[2 * i + 1], m)
      case Sequence(_, content) => i < |content| && Names(g, content[i], m)
      case _ => false
    }
  }

  // What a path spells for the edge: the text of the i-th key, or the index i.
  predicate Spells(g: Graph, n: NodeId, i: nat, segment: string)
    requires Valid(g)
  {
    n < |g| && match g[n] {
      case Mapping(_, content) => 2 * i < |content| && match g[content[2 * i]] {
        case Scalar(_, value) => segment == value
        case Alias(_, value, _) => segment == value
        case _ => segment == ""
      }
      case Sequence(_, content) => i < |content| && segment == Itoa(i)
      case _ => false
    }
  }

  predicate Walk(g: Graph, nodes: seq<NodeId>, choices: seq<nat>)
    requires Valid(g)
  {
    && |nodes| == |choices| + 1 && nodes[0] < |g|
    && forall k :: 0 <= k < |choices| ==> Edge(g, nodes[k], choices[k], nodes[k + 1])
  }

  // The first k edges of the walk spell the first k segments of want.
  predicate OnWant(g: Graph, nodes: seq<NodeId>, choices: seq<nat>, want: seq<string>, k: nat)
    requires Valid(g) && |nodes| == |choices| + 1 && k <= |choices|
  {
    k <= |want| && forall j :: 0 <= j < k ==> Spells(g, nodes[j], choices[j], want[j])
  }

  // As long as the walk spells want, it enters a list only at the index that is next in want.
  predicate Permitted(g: Graph, nodes: seq<NodeId>, choices: seq<nat>, want: seq<string>)
    requires Paired(g, nodes, choices)
  {
    forall k :: 0 <= k < |choices| && nodes[k] < |g| && g[nodes[k]].Sequence? && k < |want|
                && OnWant(g, nodes, choices, want, k) ==>
      want[k] == Itoa(choices[k])
  }

  predicate Paired(g: Graph, nodes: seq<NodeId>, choices: seq<nat>) {
    Valid(g) && |nodes| == |choices| + 1
  }

  lemma {:induction false} DerefNames(g: Graph, n: NodeId)
    requires Valid(g) && n < |g|
    ensures forall m: NodeId :: Names(g, n, m) <==> m == Deref(g, n)
    decreases n
  {
    if g[n].Alias? {
      DerefNames(g, g[n].target);
    }
  }

  lemma EdgeIff(g: Graph, n: NodeId, i: nat, m: NodeId)
    requires Valid(g) && n < |g|
    ensures Edge(g, n, i, m) <==> i < Width(g, n) && m == Child(g, n, i)
  {
    if i < Width(g, n) {
      DerefNames(g, if g[n].Mapping? then g[n].content[2 * i + 1] else g[n].content[i]);
    }
  }

  lemma SpellsIff(g: Graph, n: NodeId, i: nat, segment: string)
    requires Valid(g) && n < |g| && i < Width(g, n)
    ensures Spells(g, n, i, segment) <==> segment == Name(g, n, i)
  {
  }

  // A walk over a first edge, from there on.
  lemma PermittedStep(g: Graph, nodes: seq<NodeId>, choices: seq<nat>, want: seq<string>)
    requires Valid(g) && choices != [] && Walk(g, nodes, choices) && Walk(g, nodes[1..], choices[1..])
    requires choices[0] < Width(g, nodes[0])
    ensures Permitted(g, nodes, choices, want) <==>
            !Skipped(g, nodes[0], want, choices[0])
            && Permitted(g, nodes[1..], choices[1..], OnPath(want, Name(g, nodes[0], choices[0])))
  {
    var n, i := nodes[0], choices[0];
    var rest := OnPath(want, Name(g, n, i));
    assert Skipped(g, n, want, i) <==>
           g[n].Sequence? && 0 < |want| && OnWant(g, nodes, choices, want, 0) && want[0] != Itoa(i);
    if want != [] && Spells(g, n, i, want[0]) {
      forall k | 0 <= k < |choices| - 1
        ensures OnWant(g, nodes, choices, want, k + 1) <==> OnWant(g, nodes[1..], choices[1..], want[1..], k)
      {
        OnWantStep(g, nodes, choices, want, k);
      }
      SpellsIff(g, n, i, want[0]);
      assert rest == want[1..];
      PermittedShift(g, nodes, choices, want);
    } else {
      if want != [] {
        SpellsIff(g, n, i, want[0]);
      }
      assert rest == [];
      forall k | 0 < k <= |choices|
        ensures !OnWant(g, nodes, choices, want, k)
      {
        LeavesWant(g, nodes, choices, want, k);
      }
    }
  }

  lemma LeavesWant(g: Graph, nodes: seq<NodeId>, choices: seq<nat>, want: seq<string>, k: nat)
    requires Valid(g) && |nodes| == |choices| + 1 && 0 < k <= |choices|
    requires want != [] ==> !Spells(g, nodes[0], choices[0], want[0])
    ensures !OnWant(g, nodes, choices, want, k)
  {
  }

  lemma OnWantStep(g: Graph, nodes: seq<NodeId>, choices: seq<nat>, want: seq<string>, k: nat)
    requires Valid(g) && |nodes| == |choices| + 1 && k < |choices|
    requires want != [] && Spells(g, nodes[0], choices[0], want[0])
    ensures OnWant(g, nodes, choices, want, k + 1) <==> OnWant(g, nodes[1..], choices[1..], want[1..], k)
  {
    if OnWant(g, nodes[1..], choices[1..], want[1..], k) {
      forall j | 0 <= j < k + 1
        ensures Spells(g, nodes[j], choices[j], want[j])
      {
        if j > 0 {
          assert Spells(g, nodes[1..][j - 1], choices[1..][j - 1], want[1..][j - 1]);
        }
      }
    } else if OnWant(g, nodes, choices, want, k + 1) {
      forall j | 0 <= j < k
        ensures Spells(g, nodes[1..][j], choices[1..][j], want[1..][j])
      {
        assert Spells(g, nodes[j + 1], choices[j + 1], want[j + 1]);
      }
    }
  }

  lemma PermittedShift(g: Graph, nodes: seq<NodeId>, choices: seq<nat>, want: seq<string>)
    requires Paired(g, nodes, choices) && choices != [] && want != []
    requires forall k :: 0 <= k < |choices| - 1 ==>
               (OnWant(g, nodes, choices, want, k + 1) <==> OnWant(g, nodes[1..], choices[1..], want[1..], k))
    ensures Permitted(g, nodes, choices, want) <==>
            (nodes[0] < |g| && g[nodes[0]].Sequence? ==> want[0] == Itoa(choices[0]))
            && Permitted(g, nodes[1..], choices[1..], want[1..])
  {
    if Permitted(g, nodes, choices, want) {
      assert OnWant(g, nodes, choices, want, 0);
      forall k | 0 <= k < |choices| - 1 && nodes[1..][k] < |g| && g[nodes[1..][k]].Sequence? && k < |want| - 1
                 && OnWant(g, nodes[1..], choices[1..], want[1..], k)
        ensures want[1..][k] == Itoa(choices[1..][k])
      {
        assert OnWant(g, nodes, choices, want, k + 1);
      }
    }
    if (nodes[0] < |g| && g[nodes[0]].Sequence? ==> want[0] == Itoa(choices[0]))
       && Permitted(g, nodes[1..], choices[1..], want[1..]) {
      forall k | 0 <= k < |choices| && nodes[k] < |g| && g[nodes[k]].Sequence? && k < |want|
                 && OnWant(g, nodes, choices, want, k)
        ensures want[k] == Itoa(choices[k])
      {
        if k > 0 {
          assert OnWant(g, nodes[1..], choices[1..], want[1..], k - 1);
          assert nodes[1..][k - 1] == nodes[k] && choices[1..][k - 1] == choices[k];
        }
      }
    }
  }

  predicate WalkTo(g: Graph, n: NodeId, want: seq<string>, choices: seq<nat>, m: NodeId, nodes: seq<NodeId>)
    requires Valid(g)
  {
    Walk(g, nodes, choices) && nodes[0] == n && nodes[|choices|] == m && Permitted(g, nodes, choices, want)
  }

  /** The search follows a list of choices exactly if the document has a walk of them that enters lists as it must. */
  lemma LeadsIff(g: Graph, n: NodeId, want: seq<string>, choices: seq<nat>, m: NodeId)
    requires Valid(g) && n < |g|
    ensures Leads(g, n, want, choices, m) <==> exists nodes: seq<NodeId> :: WalkTo(g, n, want, choices, m, nodes)
  {
    if Leads(g, n, want, choices, m) {
      var _ := LeadsHasWalk(g, n, want, choices, m);
    }
    forall nodes: seq<NodeId> | WalkTo(g, n, want, choices, m, nodes)
      ensures Leads(g, n, want, choices, m)
    {
      WalkLeads(g, n, want, choices, m, nodes);
    }
  }

  lemma {:induction false} LeadsHasWalk(g: Graph, n: NodeId, want: seq<string>, choices: seq<nat>, m: NodeId)
    returns (nodes: seq<NodeId>)
    requires Valid(g) && n < |g| && Leads(g, n, want, choices, m)
    ensures WalkTo(g, n, want, choices, m, nodes)
    decreases |choices|
  {
    if choices == [] {
      nodes := [n];
    } else {
      var child, rest := Child(g, n, choices[0]), OnPath(want, Name(g, n, choices[0]));
      var below := LeadsHasWalk(g, child, rest, choices[1..], m);
      EdgeIff(g, n, choices[0], child);
      WalkFrom(g, n, below, choices);
      nodes := [n] + below;
      assert nodes[1..] == below;
      PermittedStep(g, nodes, choices, want);
    }
  }

  lemma {:induction false} WalkLeads(g: Graph, n: NodeId, want: seq<string>, choices: seq<nat>, m: NodeId,
                                     nodes: seq<NodeId>)
    requires Valid(g) && n < |g| && WalkTo(g, n, want, choices, m, nodes)
    ensures Leads(g, n, want, choices, m)
    decreases |choices|
  {
    if choices != [] {
      WalkOn(g, nodes, choices);
      WalkEnters(g, nodes, choices);
      PermittedStep(g, nodes, choices, want);
      WalkLeads(g, Child(g, n, choices[0]), OnPath(want, Name(g, n, choices[0])), choices[1..], m, nodes[1..]);
    }
  }

  lemma WalkEnters(g: Graph, nodes: seq<NodeId>, choices: seq<nat>)
    requires Valid(g) && choices != [] && Walk(g, nodes, choices)
    ensures choices[0] < Width(g, nodes[0]) && nodes[1] == Child(g, nodes[0], choices[0])
  {
    assert Edge(g, nodes[0], choices[0], nodes[1]);
    EdgeIff(g, nodes[0], choices[0], nodes[1]);
  }

  lemma WalkFrom(g: Graph, n: NodeId, nodes: seq<NodeId>, choices: seq<nat>)
    requires Valid(g) && n < |g| && choices != [] && Walk(g, nodes, choices[1..]) && Edge(g, n, choices[0], nodes[0])
    ensures Walk(g, [n] + nodes, choices)
  {
    var all := [n] + nodes;
    forall k | 0 <= k < |choices|
      ensures Edge(g, all[k], choices[k], all[k + 1])
    {
      if k > 0 {
        assert Edge(g, nodes[k - 1], choices[1..][k - 1], nodes[k]);
      }
    }
  }

  lemma WalkOn(g: Graph, nodes: seq<NodeId>, choices: seq<nat>)
    requires Valid(g) && choices != [] && Walk(g, nodes, choices)
    ensures Walk(g, nodes[1..], choices[1..])
  {
    WalkEnters(g, nodes, choices);
    forall k | 0 <= k < |choices| - 1
      ensures Edge(g, nodes[1..][k], choices[1..][k], nodes[1..][k + 1])
    {
      assert Edge(g, nodes[k + 1], choices[k + 1], nodes[k + 2]);
    }
  }

  // The i-th pair of the mapping m has that key.
  predicate Pair(g: Graph, m: NodeId, i: nat, key: string)
    requires Valid(g)
  {
    m < |g| && g[m].Mapping? && 2 * i + 1 < |g[m].content| && Spells(g, m, i, key)
  }

  lemma PairIff(g: Graph, m: NodeId, i: nat, key: string)
    requires Valid(g) && m < |g|
    ensures Pair(g, m, i, key) <==> i < Width(g, m) && IsKey(g, m, key, i)
  {
  }

  // A permitted walk from n to a mapping with the key.
  predicate LeadsToKey(g: Graph, n: NodeId, key: string, want: seq<string>, nodes: seq<NodeId>, choices: seq<nat>,
                       i: nat)
    requires Valid(g)
  {
    Walk(g, nodes, choices) && nodes[0] == n && Permitted(g, nodes, choices, want) && Pair(g, nodes[|choices|], i, key)
  }

  /** The search finds the key exactly if the document has a permitted walk to a mapping with it. */
  lemma FindsIffPermitted(g: Graph, n: NodeId, key: string, want: seq<string>, at: string)
    requires Valid(g) && n < |g|
    ensures Find(g, n, key, want, at, {}).0.Some? <==>
            exists nodes: seq<NodeId>, choices: seq<nat>, i: nat :: LeadsToKey(g, n, key, want, nodes, choices, i)
  {
    FindsIffReachable(g, n, key, want, at);
    if KeyReachable(g, n, key, want) {
      var choices: seq<nat>, m: NodeId :| Leads(g, n, want, choices, m) && m < |g| && HoldsKey(g, m, key);
      LeadsIff(g, n, want, choices, m);
      var i :| 0 <= i < Width(g, m) && IsKey(g, m, key, i);
      PairIff(g, m, i, key);
      var nodes: seq<NodeId> :| WalkTo(g, n, want, choices, m, nodes);
      assert LeadsToKey(g, n, key, want, nodes, choices, i);
    }
    if nodes: seq<NodeId>, choices: seq<nat>, i: nat :| LeadsToKey(g, n, key, want, nodes, choices, i) {
      WalkLeads(g, n, want, choices, nodes[|choices|], nodes);
      PairIff(g, nodes[|choices|], i, key);
      assert HoldsKey(g, nodes[|choices|], key);
    }
  }

  // ---------------------------------------------------------------------------------------------
  // The rendered path
  // ---------------------------------------------------------------------------------------------

  // A key is joined with a dot, except at the start, and an index in brackets.
  function Rendered(at: string, list: bool, segment: string): string {
    if list then at + "[" + segment + "]"
    else if at == "" then segment
    else at + "." + segment
  }

  /** The path of a walk with one more edge is the path of the walk and that edge's segment. */
  lemma {:induction false} PathOfWalk(g: Graph, n: NodeId, want: seq<string>, at: string, choices: seq<nat>, m: NodeId,
                                      i: nat, segment: string)
    requires Valid(g) && n < |g| && Leads(g, n, want, choices, m) && m < |g| && i < Width(g, m)
    requires Spells(g, m, i, segment)
    ensures PathAlong(g, n, at, []) == at
    ensures PathAlong(g, n, at, choices + [i]) == Rendered(PathAlong(g, n, at, choices), g[m].Sequence?, segment)
    decreases |choices|
  {
    if choices == [] {
      assert [] + [i] == [i];
      PathOfEdge(g, m, at, i, segment);
    } else {
      var j := choices[0];
      PathOfWalk(g, Child(g, n, j), OnPath(want, Name(g, n, j)), ChildAt(g, n, at, j), choices[1..], m, i, segment);
      PathThroughChild(g, n, at, choices + [i]);
      assert (choices + [i])[1..] == choices[1..] + [i];
    }
  }

  lemma PathOfEdge(g: Graph, n: NodeId, at: string, i: nat, segment: string)
    requires Valid(g) && n < |g| && i < Width(g, n) && Spells(g, n, i, segment)
    ensures PathAlong(g, n, at, [i]) == Rendered(at, g[n].Sequence?, segment)
  {
    PathThroughChild(g, n, at, [i]);
    assert [i][1..] == [];
    SpellsIff(g, n, i, segment);
  }

  lemma PathThroughChild(g: Graph, n: NodeId, at: string, choices: seq<nat>)
    requires Valid(g) && n < |g| && choices != [] && choices[0] < Width(g, n)
    ensures PathAlong(g, n, at, choices) ==
            PathAlong(g, Child(g, n, choices[0]), ChildAt(g, n, at, choices[0]), choices[1..])
  {
  }

  // ---------------------------------------------------------------------------------------------
  // The first place
  // ---------------------------------------------------------------------------------------------

  // The choices lead from n to m. Off the expected path they do so around the nodes of stack.
  predicate LeadsAround(g: Graph, n: NodeId, want: seq<string>, choices: seq<nat>, m: NodeId, stack: set<NodeId>)
    requires Valid(g) && n < |g|
    decreases |choices|
  {
    && (want == [] ==> n !in stack)
    && if choices == [] then m == n
       else
         var i := choices[0];
         && i < Width(g, n) && !Skipped(g, n, want, i)
         && LeadsAround(g, Child(g, n, i), OnPath(want, Name(g, n, i)), choices[1..], m, stack)
  }

  ghost predicate NoKeyAround(g: Graph, n: NodeId, key: string, want: seq<string>, stack: set<NodeId>)
    requires Valid(g) && n < |g|
  {
    forall choices: seq<nat>, m: NodeId :: LeadsAround(g, n, want, choices, m, stack) ==>
             m < |g| && !HoldsKey(g, m, key)
  }

  lemma {:induction false} ClosedHasNoKeyAround(g: Graph, n: NodeId, key: string, want: seq<string>, seen: set<NodeId>,
                                                choices: seq<nat>, m: NodeId, stack: set<NodeId>)
    requires Valid(g) && n < |g| && Closed(g, key, seen, stack) && Searched(g, n, key, want, seen)
    requires LeadsAround(g, n, want, choices, m, stack)
    ensures m < |g| && !HoldsKey(g, m, key)
    decreases |choices|
  {
    if choices != [] {
      var i := choices[0];
      assert want != [] ==> SearchedChild(g, n, key, want, seen, i);
      ClosedHasNoKeyAround(g, Child(g, n, i), key, OnPath(want, Name(g, n, i)), seen, choices[1..], m, stack);
    }
  }

  // None of the first i children of n has the key as its own, or leads to it.
  ghost predicate NoneBefore(g: Graph, n: NodeId, key: string, want: seq<string>, stack: set<NodeId>, i: nat)
    requires Valid(g) && n < |g| && i <= Width(g, n)
  {
    forall j :: 0 <= j < i ==>
      && !IsKey(g, n, key, j)
      && (Skipped(g, n, want, j) || NoKeyAround(g, Child(g, n, j), key, OnPath(want, Name(g, n, j)), stack))
  }

  // The nodes that are searched off the expected path while the children of n are.
  function Around(stack: set<NodeId>, n: NodeId, want: seq<string>): set<NodeId> {
    if want == [] then stack + {n} else stack
  }

  // In document order, nothing before the i-th pair of the mapping that the choices lead to is the key. What comes
  // before may lead back into a node above.
  ghost predicate IsFirst(g: Graph, n: NodeId, key: string, want: seq<string>, choices: seq<nat>, i: nat,
                          stack: set<NodeId>)
    requires Valid(g) && n < |g|
    decreases |choices|
  {
    var inside := Around(stack, n, want);
    if choices == [] then i <= Width(g, n) && NoneBefore(g, n, key, want, inside, i)
    else
      var j := choices[0];
      && j < Width(g, n) && NoneBefore(g, n, key, want, inside, j) && !IsKey(g, n, key, j)
      && IsFirst(g, Child(g, n, j), key, OnPath(want, Name(g, n, j)), choices[1..], i, inside)
  }

  // The same of the i-th child of n and what comes before it.
  ghost predicate IsFirstFrom(g: Graph, n: NodeId, key: string, want: seq<string>, at: string, answer: Found,
                              stack: set<NodeId>)
    requires Valid(g) && n < |g|
  {
    exists choices: seq<nat>, m: NodeId, i: nat ::
      IsAnswer(g, n, key, want, at, answer, choices, m, i) && IsFirst(g, n, key, want, choices, i, stack)
  }

  lemma {:induction false} FindIsFirst(g: Graph, n: NodeId, key: string, want: seq<string>, at: string,
                                       seen: set<NodeId>, stack: set<NodeId>)
    requires Valid(g) && n < |g| && Closed(g, key, seen, stack) && Find(g, n, key, want, at, seen).0.Some?
    ensures IsFirstFrom(g, n, key, want, at, Find(g, n, key, want, at, seen).0.value, stack)
    decreases |want|, 2 * Unseen(g, seen) + (if want == [] then 1 else 3), 0
  {
    UnseenShrinks(g, seen, seen + {n});
    FindFromIsFirst(g, n, key, want, at, if want == [] then seen + {n} else seen, stack, 0);
  }

  lemma {:induction false} FindFromIsFirst(g: Graph, n: NodeId, key: string, want: seq<string>, at: string,
                                           seen: set<NodeId>, stack: set<NodeId>, i: nat)
    requires Valid(g) && n < |g| && i <= Width(g, n) && Closed(g, key, seen, Around(stack, n, want))
    requires NoneBefore(g, n, key, want, Around(stack, n, want), i) && FindFrom(g, n, key, want, at, seen, i).0.Some?
    ensures IsFirstFrom(g, n, key, want, at, FindFrom(g, n, key, want, at, seen, i).0.value, stack)
    decreases |want|, 2 * Unseen(g, seen) + 2, Width(g, n) - i
  {
    var answer, inside := FindFrom(g, n, key, want, at, seen, i).0.value, Around(stack, n, want);
    if IsKey(g, n, key, i) {
      FirstHere(g, n, key, want, at, stack, i);
    } else if Skipped(g, n, want, i) {
      NoneBeforeNext(g, n, key, want, inside, i);
      FindFromIsFirst(g, n, key, want, at, seen, stack, i + 1);
    } else {
      var child, want', at' := Child(g, n, i), OnPath(want, Name(g, n, i)), ChildAt(g, n, at, i);
      var (found, seen') := Find(g, child, key, want', at', seen);
      UnseenShrinks(g, seen, seen');
      if found.Some? {
        FindIsFirst(g, child, key, want', at', seen, inside);
        FirstThroughChild(g, n, key, want, at, answer, i, stack);
      } else {
        NothingThere(g, child, key, want', at', seen, inside);
        NoneBeforeNext(g, n, key, want, inside, i);
        FindFromIsFirst(g, n, key, want, at, seen', stack, i + 1);
      }
    }
  }

  lemma FirstHere(g: Graph, n: NodeId, key: string, want: seq<string>, at: string, stack: set<NodeId>, i: nat)
    requires Valid(g) && n < |g| && i < Width(g, n) && IsKey(g, n, key, i)
    requires NoneBefore(g, n, key, want, Around(stack, n, want), i)
    ensures IsFirstFrom(g, n, key, want, at, Found(g[g[n].content[2 * i]].line, at), stack)
  {
    assert IsAnswer(g, n, key, want, at, Found(g[g[n].content[2 * i]].line, at), [], n, i);
    assert IsFirst(g, n, key, want, [], i, stack);
  }

  lemma NoneBeforeNext(g: Graph, n: NodeId, key: string, want: seq<string>, stack: set<NodeId>, i: nat)
    requires Valid(g) && n < |g| && i < Width(g, n) && NoneBefore(g, n, key, want, stack, i) && !IsKey(g, n, key, i)
    requires Skipped(g, n, want, i) || NoKeyAround(g, Child(g, n, i), key, OnPath(want, Name(g, n, i)), stack)
    ensures NoneBefore(g, n, key, want, stack, i + 1)
  {
  }

  lemma NothingThere(g: Graph, n: NodeId, key: string, want: seq<string>, at: string, seen: set<NodeId>,
                     stack: set<NodeId>)
    requires Valid(g) && n < |g| && Closed(g, key, seen, stack) && Find(g, n, key, want, at, seen).0.None?
    ensures Closed(g, key, Find(g, n, key, want, at, seen).1, stack) && NoKeyAround(g, n, key, want, stack)
  {
    NotFoundClosed(g, n, key, want, at, seen, stack);
    forall choices: seq<nat>, m: NodeId | LeadsAround(g, n, want, choices, m, stack)
      ensures m < |g| && !HoldsKey(g, m, key)
    {
      ClosedHasNoKeyAround(g, n, key, want, Find(g, n, key, want, at, seen).1, choices, m, stack);
    }
  }

  lemma FirstThroughChild(g: Graph, n: NodeId, key: string, want: seq<string>, at: string, answer: Found, i: nat,
                          stack: set<NodeId>)
    requires Valid(g) && n < |g| && i < Width(g, n) && !Skipped(g, n, want, i) && !IsKey(g, n, key, i)
    requires NoneBefore(g, n, key, want, Around(stack, n, want), i)
    requires IsFirstFrom(g, Child(g, n, i), key, OnPath(want, Name(g, n, i)), ChildAt(g, n, at, i), answer,
                         Around(stack, n, want))
    ensures IsFirstFrom(g, n, key, want, at, answer, stack)
  {
    var child, rest := Child(g, n, i), OnPath(want, Name(g, n, i));
    var choices: seq<nat>, m: NodeId, j: nat :|
      IsAnswer(g, child, key, rest, ChildAt(g, n, at, i), answer, choices, m, j)
      && IsFirst(g, child, key, rest, choices, j, Around(stack, n, want));
    AnswerThroughChild(g, n, key, want, at, answer, i, choices, m, j);
    IsFirstThrough(g, n, key, want, i, choices, j, stack);
  }

  lemma IsFirstThrough(g: Graph, n: NodeId, key: string, want: seq<string>, i: nat, choices: seq<nat>, j: nat,
                       stack: set<NodeId>)
    requires Valid(g) && n < |g| && i < Width(g, n) && !IsKey(g, n, key, i)
    requires NoneBefore(g, n, key, want, Around(stack, n, want), i)
    requires IsFirst(g, Child(g, n, i), key, OnPath(want, Name(g, n, i)), choices, j, Around(stack, n, want))
    ensures IsFirst(g, n, key, want, [i] + choices, j, stack)
  {
    assert ([i] + choices)[1..] == choices;
  }

  /** The answer of the search is the first place in document order. */
  lemma FindsFirst(g: Graph, n: NodeId, key: string, want: seq<string>, at: string)
    requires Valid(g) && n < |g| && Find(g, n, key, want, at, {}).0.Some?
    ensures IsFirstFrom(g, n, key, want, at, Find(g, n, key, want, at, {}).0.value, {})
  {
    FindIsFirst(g, n, key, want, at, {}, {});
  }
}
