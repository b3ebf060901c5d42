/**
 The search for a misplaced key in a YAML document. Aliases make the nodes a graph that may be shared or cyclic.
 On the expected path the search follows that path; off it, it visits each node once.
 */
module MisplacedKey {
  import opened Wrappers

  type NodeId = nat

  datatype Node =
    | Scalar(line: int, value: string)
    | Mapping(line: int, content: seq<NodeId>)
    | Sequence(line: int, content: seq<NodeId>)
    | Alias(line: int, value: string, target: NodeId)

  type Graph = seq<Node>

  // Nodes are numbered as the parser meets them, so an alias comes after the anchor that it names.
  predicate Valid(g: Graph) {
    forall n :: 0 <= n < |g| ==>
      match g[n] {
        case Scalar(_, _) => true
        case Mapping(_, content) => forall i :: 0 <= i < |content| ==> content[i] < |g|
        case Sequence(_, content) => forall i :: 0 <= i < |content| ==> content[i] < |g|
        case Alias(_, _, target) => target < n
      }
  }

  function Deref(g: Graph, n: NodeId): (m: NodeId)
    requires Valid(g) && n < |g|
    ensures m < |g| && !g[m].Alias?
  {
    if g[n].Alias? then Deref(g, g[n].target) else n
  }

  // The Value of a YAML node, which is empty for a mapping or a sequence.
  function ValueOf(node: Node): string {
    if node.Scalar? || node.Alias? then node.value else ""
  }

  function Itoa(n: nat): string {
    var digit := ['0' + (n % 10) as char];
    if n < 10 then digit else Itoa(n / 10) + digit
  }

  function OnPath(want: seq<string>, seg: string): seq<string> {
    if want != [] && want[0] == seg then want[1..] else []
  }

  function JoinKey(at: string, key: string): string {
    if at == "" then key else at + "." + key
  }

  // ---------------------------------------------------------------------------------------------
  // The edges of the search
  // ---------------------------------------------------------------------------------------------

  // The number of children of a node: the pairs of a mapping, or the items of a sequence.
  function Width(g: Graph, n: NodeId): nat
    requires n < |g|
  {
    match g[n]
    case Mapping(_, content) => |content| / 2
    case Sequence(_, content) => |content|
    case _ => 0
  }

  function Name(g: Graph, n: NodeId, i: nat): string
    requires Valid(g) && n < |g| && i < Width(g, n)
  {
    if g[n].Mapping? then ValueOf(g[g[n].content[2 * i]]) else Itoa(i)
  }

  function Child(g: Graph, n: NodeId, i: nat): (m: NodeId)
    requires Valid(g) && n < |g| && i < Width(g, n)
    ensures m < |g| && !g[m].Alias?
  {
    Deref(g, if g[n].Mapping? then g[n].content[2 * i + 1] else g[n].content[i])
  }

  // While want still names an index, all other items of a sequence are out of bounds.
  predicate Skipped(g: Graph, n: NodeId, want: seq<string>, i: nat)
    requires Valid(g) && n < |g| && i < Width(g, n)
  {
    g[n].Sequence? && want != [] && want[0] != Itoa(i)
  }

  function ChildAt(g: Graph, n: NodeId, at: string, i: nat): string
    requires Valid(g) && n < |g| && i < Width(g, n)
  {
    if g[n].Mapping? then JoinKey(at, Name(g, n, i)) else at + "[" + Itoa(i) + "]"
  }

  predicate IsKey(g: Graph, n: NodeId, key: string, i: nat)
    requires Valid(g) && n < |g| && i < Width(g, n)
  {
    g[n].Mapping? && Name(g, n, i) == key
  }

  predicate HoldsKey(g: Graph, n: NodeId, key: string)
    requires Valid(g) && n < |g|
  {
    exists i :: 0 <= i < Width(g, n) && IsKey(g, n, key, i)
  }

  // The children chosen lead from n to m, never into a list item off the expected path.
  predicate Leads(g: Graph, n: NodeId, want: seq<string>, choices: seq<nat>, m: NodeId)
    requires Valid(g) && n < |g|
    decreases |choices|
  {
    if choices == [] then m == n
    else
      var i := choices[0];
      && i < Width(g, n) && !Skipped(g, n, want, i)
      && Leads(g, Child(g, n, i), OnPath(want, Name(g, n, i)), choices[1..], m)
  }

  // The rendered path along the children chosen.
  function PathAlong(g: Graph, n: NodeId, at: string, choices: seq<nat>): string
    requires Valid(g) && n < |g|
    decreases |choices|
  {
    if choices == [] || choices[0] >= Width(g, n) then at
    else PathAlong(g, Child(g, n, choices[0]), ChildAt(g, n, at, choices[0]), choices[1..])
  }

  // ---------------------------------------------------------------------------------------------
  // The search
  // ---------------------------------------------------------------------------------------------

  datatype Found = Found(line: int, parent: string)

  function Below(k: nat): (s: set<NodeId>)
    ensures forall n: NodeId :: n in s <==> n < k
  {
    if k == 0 then {} else Below(k - 1) + {k - 1}
  }

  // The nodes not yet seen.
  function Unseen(g: Graph, seen: set<NodeId>): nat {
    |Below(|g|) - seen|
  }

  lemma UnseenShrinks(g: Graph, small: set<NodeId>, large: set<NodeId>)
    requires small <= large
    ensures Unseen(g, large) <= Unseen(g, small)
    ensures forall n :: n in large && n !in small && n < |g| ==> Unseen(g, large) < Unseen(g, small)
  {
    SubsetSize(Below(|g|) - large, Below(|g|) - small);
    forall n | n in large && n !in small && n < |g|
      ensures Unseen(g, large) < Unseen(g, small)
    {
      SubsetSize(Below(|g|) - large, Below(|g|) - small - {n});
    }
  }

  lemma {:induction false} SubsetSize(a: set<NodeId>, b: set<NodeId>)
    requires a <= b
    ensures |a| <= |b|
  {
    if a != {} {
      var x :| x in a;
      SubsetSize(a - {x}, b - {x});
    }
  }

  /** What the search under a dereferenced node finds, and the nodes seen after it. */
  function Find(g: Graph, n: NodeId, key: string, want: seq<string>, at: string, seen: set<NodeId>)
    : (r: (Option<Found>, set<NodeId>))
    requires Valid(g) && n < |g|
    ensures seen <= r.1
    decreases |want|, 2 * Unseen(g, seen) + (if want == [] then 1 else 3), 0
  {
    if want == [] && n in seen then (None, seen)
    else
      UnseenShrinks(g, seen, seen + {n});
      FindFrom(g, n, key, want, at, if want == [] then seen + {n} else seen, 0)
  }

  // The search of the children of n from the i-th on.
  function FindFrom(g: Graph, n: NodeId, key: string, want: seq<string>, at: string, seen: set<NodeId>, i: nat)
    : (r: (Option<Found>, set<NodeId>))
    requires Valid(g) && n < |g| && i <= Width(g, n)
    ensures seen <= r.1
    decreases |want|, 2 * Unseen(g, seen) + 2, Width(g, n) - i
  {
    if i == Width(g, n) then (None, seen)
    else if IsKey(g, n, key, i) then (Some(Found(g[g[n].content[2 * i]].line, at)), seen)
    else if Skipped(g, n, want, i) then FindFrom(g, n, key, want, at, seen, i + 1)
    else
      var (found, seen') := Find(g, Child(g, n, i), key, OnPath(want, Name(g, n, i)), ChildAt(g, n, at, i), seen);
      UnseenShrinks(g, seen, seen');
      if found.Some? then (found, seen') else FindFrom(g, n, key, want, at, seen', i + 1)
  }

  // ---------------------------------------------------------------------------------------------
  // Soundness
  // ---------------------------------------------------------------------------------------------

  // The answer names a mapping that choices lead to, the line of its key, and the rendered path to it.
  ghost predicate Answers(g: Graph, n: NodeId, key: string, want: seq<string>, at: string, answer: Found) {
    Valid(g) && n < |g| &&
    exists choices: seq<nat>, m: NodeId, i: nat :: IsAnswer(g, n, key, want, at, answer, choices, m, i)
  }

  ghost predicate IsAnswer(g: Graph, n: NodeId, key: string, want: seq<string>, at: string, answer: Found,
                           choices: seq<nat>, m: NodeId, i: nat)
    requires Valid(g) && n < |g|
  {
    && Leads(g, n, want, choices, m)
    && m < |g| && i < Width(g, m) && IsKey(g, m, key, i)
    && answer.line == g[g[m].content[2 * i]].line
    && answer.parent == PathAlong(g, n, at, choices)
  }

  lemma AnswerThroughChild(g: Graph, n: NodeId, key: string, want: seq<string>, at: string, answer: Found,
                           i: nat, choices: seq<nat>, m: NodeId, j: nat)
    requires Valid(g) && n < |g| && i < Width(g, n) && !Skipped(g, n, want, i)
    requires IsAnswer(g, Child(g, n, i), key, OnPath(want, Name(g, n, i)), ChildAt(g, n, at, i), answer, choices, m, j)
    ensures IsAnswer(g, n, key, want, at, answer, [i] + choices, m, j)
  {
    assert ([i] + choices)[1..] == choices;
  }

  lemma {:induction false} FindIsSound(g: Graph, n: NodeId, key: string, want: seq<string>, at: string,
                                       seen: set<NodeId>)
    requires Valid(g) && n < |g|
    requires Find(g, n, key, want, at, seen).0.Some?
    ensures Answers(g, n, key, want, at, Find(g, n, key, want, at, seen).0.value)
    decreases |want|, 2 * Unseen(g, seen) + (if want == [] then 1 else 3), 0
  {
    UnseenShrinks(g, seen, seen + {n});
    FindFromIsSound(g, n, key, want, at, if want == [] then seen + {n} else seen, 0);
  }

  lemma AnswersThroughChild(g: Graph, n: NodeId, key: string, want: seq<string>, at: string, answer: Found, i: nat)
    requires Valid(g) && n < |g| && i < Width(g, n) && !Skipped(g, n, want, i)
    requires Answers(g, Child(g, n, i), key, OnPath(want, Name(g, n, i)), ChildAt(g, n, at, i), answer)
    ensures Answers(g, n, key, want, at, answer)
  {
    var choices: seq<nat>, m: NodeId, j: nat :|
      IsAnswer(g, Child(g, n, i), key, OnPath(want, Name(g, n, i)), ChildAt(g, n, at, i), answer, choices, m, j);
    AnswerThroughChild(g, n, key, want, at, answer, i, choices, m, j);
  }

  lemma {:induction false} FindFromIsSound(g: Graph, n: NodeId, key: string, want: seq<string>, at: string,
                                           seen: set<NodeId>, i: nat)
    requires Valid(g) && n < |g| && i <= Width(g, n)
    requires FindFrom(g, n, key, want, at, seen, i).0.Some?
    ensures Answers(g, n, key, want, at, FindFrom(g, n, key, want, at, seen, i).0.value)
    decreases |want|, 2 * Unseen(g, seen) + 2, Width(g, n) - i
  {
    var answer := FindFrom(g, n, key, want, at, seen, i).0.value;
    if IsKey(g, n, key, i) {
      assert IsAnswer(g, n, key, want, at, answer, [], n, i);
    } else if Skipped(g, n, want, i) {
      FindFromIsSound(g, n, key, want, at, seen, i + 1);
    } else {
      var child, want', at' := Child(g, n, i), OnPath(want, Name(g, n, i)), ChildAt(g, n, at, i);
      var (found, seen') := Find(g, child, key, want', at', seen);
      UnseenShrinks(g, seen, seen');
      if found.Some? {
        FindIsSound(g, child, key, want', at', seen);
        AnswersThroughChild(g, n, key, want, at, answer, i);
      } else {
        FindFromIsSound(g, n, key, want, at, seen', i + 1);
      }
    }
  }

  // ---------------------------------------------------------------------------------------------
  // Completeness
  // ---------------------------------------------------------------------------------------------

  // Every seen node that is not still being searched is free of the key, and so are all of its children seen.
  ghost predicate Closed(g: Graph, key: string, seen: set<NodeId>, stack: set<NodeId>) {
    Valid(g) &&
    forall n :: n in seen && n !in stack ==> n < |g| && !HoldsKey(g, n, key) && ChildrenSeen(g, n, seen, 0)
  }

  ghost predicate ChildrenSeen(g: Graph, n: NodeId, seen: set<NodeId>, from: nat)
    requires Valid(g) && n < |g|
  {
    forall i :: from <= i < Width(g, n) ==> Child(g, n, i) in seen
  }

  // The search of n under want is done: the node is seen, or on the expected path it and its children are searched.
  ghost predicate Searched(g: Graph, n: NodeId, key: string, want: seq<string>, seen: set<NodeId>)
    requires Valid(g) && n < |g|
    decreases |want|, 2
  {
    if want == [] then n in seen else !HoldsKey(g, n, key) && SearchedFrom(g, n, key, want, seen, 0)
  }

  ghost predicate SearchedFrom(g: Graph, n: NodeId, key: string, want: seq<string>, seen: set<NodeId>, from: nat)
    requires Valid(g) && n < |g| && want != []
    decreases |want|, 1
  {
    forall i :: from <= i < Width(g, n) && !Skipped(g, n, want, i) ==>
      SearchedChild(g, n, key, want, seen, i)
  }

  ghost predicate SearchedChild(g: Graph, n: NodeId, key: string, want: seq<string>, seen: set<NodeId>, i: nat)
    requires Valid(g) && n < |g| && i < Width(g, n) && want != []
    decreases |want|, 0
  {
    Searched(g, Child(g, n, i), key, OnPath(want, Name(g, n, i)), seen)
  }

  lemma {:induction false} SearchedStays(g: Graph, n: NodeId, key: string, want: seq<string>, seen: set<NodeId>,
                                         more: set<NodeId>)
    requires Valid(g) && n < |g| && seen <= more && Searched(g, n, key, want, seen)
    ensures Searched(g, n, key, want, more)
    decreases |want|
  {
    if want != [] {
      forall i | 0 <= i < Width(g, n) && !Skipped(g, n, want, i)
        ensures SearchedChild(g, n, key, want, more, i)
      {
        assert SearchedChild(g, n, key, want, seen, i);
        SearchedStays(g, Child(g, n, i), key, OnPath(want, Name(g, n, i)), seen, more);
      }
    }
  }

  // The children of n from the i-th on are done, and none of its keys from there on is the key.
  ghost predicate DoneFrom(g: Graph, n: NodeId, key: string, want: seq<string>, seen: set<NodeId>, i: nat)
    requires Valid(g) && n < |g| && i <= Width(g, n)
  {
    && (forall j :: i <= j < Width(g, n) ==> !IsKey(g, n, key, j))
    && (if want == [] then ChildrenSeen(g, n, seen, i) else SearchedFrom(g, n, key, want, seen, i))
  }

  /** The depth-first argument: a search that finds nothing leaves all that it saw closed and free of the key. */
  lemma {:induction false} NotFoundClosed(g: Graph, n: NodeId, key: string, want: seq<string>, at: string,
                                          seen: set<NodeId>, stack: set<NodeId>)
    requires Valid(g) && n < |g| && Closed(g, key, seen, stack)
    requires Find(g, n, key, want, at, seen).0.None?
    ensures var seen' := Find(g, n, key, want, at, seen).1;
            Closed(g, key, seen', stack) && Searched(g, n, key, want, seen')
    decreases |want|, 2 * Unseen(g, seen) + (if want == [] then 1 else 3), 0
  {
    if !(want == [] && n in seen) {
      UnseenShrinks(g, seen, seen + {n});
      if want == [] {
        NotFoundClosedFrom(g, n, key, want, at, seen + {n}, stack + {n}, 0);
      } else {
        NotFoundClosedFrom(g, n, key, want, at, seen, stack, 0);
      }
    }
  }

  lemma {:induction false} NotFoundClosedFrom(g: Graph, n: NodeId, key: string, want: seq<string>, at: string,
                                              seen: set<NodeId>, stack: set<NodeId>, i: nat)
    requires Valid(g) && n < |g| && i <= Width(g, n) && Closed(g, key, seen, stack)
    requires FindFrom(g, n, key, want, at, seen, i).0.None?
    ensures var seen' := FindFrom(g, n, key, want, at, seen, i).1;
            Closed(g, key, seen', stack) && DoneFrom(g, n, key, want, seen', i)
    decreases |want|, 2 * Unseen(g, seen) + 2, Width(g, n) - i
  {
    if i < Width(g, n) {
      if Skipped(g, n, want, i) {
        NotFoundClosedFrom(g, n, key, want, at, seen, stack, i + 1);
        DoneOneMore(g, n, key, want, FindFrom(g, n, key, want, at, seen, i + 1).1, i);
      } else {
        var child, want', at' := Child(g, n, i), OnPath(want, Name(g, n, i)), ChildAt(g, n, at, i);
        var seen' := Find(g, child, key, want', at', seen).1;
        UnseenShrinks(g, seen, seen');
        NotFoundClosed(g, child, key, want', at', seen, stack);
        NotFoundClosedFrom(g, n, key, want, at, seen', stack, i + 1);
        var seen'' := FindFrom(g, n, key, want, at, seen', i + 1).1;
        SearchedStays(g, child, key, want', seen', seen'');
        DoneOneMore(g, n, key, want, seen'', i);
      }
    }
  }

  lemma DoneOneMore(g: Graph, n: NodeId, key: string, want: seq<string>, seen: set<NodeId>, i: nat)
    requires Valid(g) && n < |g| && i < Width(g, n) && !IsKey(g, n, key, i)
    requires DoneFrom(g, n, key, want, seen, i + 1)
    requires Skipped(g, n, want, i) || Searched(g, Child(g, n, i), key, OnPath(want, Name(g, n, i)), seen)
    ensures DoneFrom(g, n, key, want, seen, i)
  {
    if want != [] {
      forall j | i <= j < Width(g, n) && !Skipped(g, n, want, j)
        ensures SearchedChild(g, n, key, want, seen, j)
      {
      }
    }
  }

  // From a searched node of a closed set, no choices lead to a mapping with the key.
  lemma {:induction false} ClosedHasNoKey(g: Graph, n: NodeId, key: string, want: seq<string>, seen: set<NodeId>,
                                          choices: seq<nat>, m: NodeId)
    requires Valid(g) && n < |g| && Closed(g, key, seen, {}) && Searched(g, n, key, want, seen)
    requires Leads(g, n, want, choices, m)
    ensures m < |g| && !HoldsKey(g, m, key)
    decreases |choices|
  {
    if choices != [] {
      var i := choices[0];
      assert want != [] ==> SearchedChild(g, n, key, want, seen, i);
      ClosedHasNoKey(g, Child(g, n, i), key, OnPath(want, Name(g, n, i)), seen, choices[1..], m);
    }
  }

  ghost predicate KeyReachable(g: Graph, n: NodeId, key: string, want: seq<string>)
    requires Valid(g) && n < |g|
  {
    exists choices: seq<nat>, m: NodeId :: Leads(g, n, want, choices, m) && m < |g| && HoldsKey(g, m, key)
  }

  /** The search finds the key exactly when some mapping holding it can be reached without entering a list item off the
      expected path, also when aliases make the document cyclic. What it answers is then such a place. */
  lemma FindsIffReachable(g: Graph, n: NodeId, key: string, want: seq<string>, at: string)
    requires Valid(g) && n < |g|
    ensures Find(g, n, key, want, at, {}).0.Some? <==> KeyReachable(g, n, key, want)
    ensures Find(g, n, key, want, at, {}).0.Some? ==>
              Answers(g, n, key, want, at, Find(g, n, key, want, at, {}).0.value)
  {
    var (found, seen) := Find(g, n, key, want, at, {});
    if found.Some? {
      FindIsSound(g, n, key, want, at, {});
      var choices: seq<nat>, m: NodeId, i: nat :| IsAnswer(g, n, key, want, at, found.value, choices, m, i);
      assert HoldsKey(g, m, key);
    } else {
      NotFoundClosed(g, n, key, want, at, {}, {});
      forall choices: seq<nat>, m: NodeId | Leads(g, n, want, choices, m)
        ensures m < |g| && !HoldsKey(g, m, key)
      {
        ClosedHasNoKey(g, n, key, want, seen, choices, m);
      }
    }
  }
}
