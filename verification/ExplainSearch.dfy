/**
 The recursive functions of MisplacedKey as methods that share one Seen object, and two uses of them: the hint, and the
 walk that takes a path apart again. WalkReachesFound joins search and walk.
 */
module ExplainSearch {
  import opened Wrappers
  import opened MisplacedKey

  class Seen {
    var nodes: set<NodeId>

    constructor ()
      ensures nodes == {}
    {
      nodes := {};
    }
  }

  // Deref as a loop.
  method FollowAliases(g: Graph, n: NodeId) returns (m: NodeId)
    requires Valid(g) && n < |g|
    ensures m == Deref(g, n)
  {
    m := n;
    while g[m].Alias?
      invariant m < |g| && Deref(g, m) == Deref(g, n)
      decreases m
    {
      m := g[m].target;
    }
  }

  /** Find as a method: the answer is Find's, and seen.nodes grows by what Find adds. */
  method FindKey(g: Graph, n: NodeId, key: string, want: seq<string>, at: string, seen: Seen) returns (r: Option<Found>)
    requires Valid(g) && n < |g|
    modifies seen
    ensures (r, seen.nodes) == Find(g, Deref(g, n), key, want, at, old(seen.nodes))
    decreases |want|, 2 * Unseen(g, seen.nodes) + (if want == [] then 1 else 3), 0
  {
    var node: NodeId := FollowAliases(g, n);
    if want == [] {
      if node in seen.nodes {
        return None;
      }
      UnseenShrinks(g, seen.nodes, seen.nodes + {node});
      seen.nodes := seen.nodes + {node};
    }
    if g[node].Mapping? {
      r := FindInPairs(g, node, key, want, at, seen);
    } else if g[node].Sequence? {
      r := FindInItems(g, node, key, want, at, seen);
    } else {
      r := None;
    }
  }

  // One round of the loop over the pairs.
  lemma AtPair(g: Graph, node: NodeId, key: string, want: seq<string>, at: string, seen: set<NodeId>, i: nat)
    requires Valid(g) && node < |g| && g[node].Mapping? && 2 * i + 1 < |g[node].content|
    ensures var name, value := g[g[node].content[2 * i]], g[node].content[2 * i + 1];
            var path := ValueOf(name);
            FindFrom(g, node, key, want, at, seen, i) ==
            if path == key then (Some(Found(name.line, at)), seen)
            else
              var (found, more) := Find(g, Deref(g, value), key, OnPath(want, path), JoinKey(at, path), seen);
              if found.Some? then (found, more) else FindFrom(g, node, key, want, at, more, i + 1)
  {
  }

  method FindInPairs(g: Graph, node: NodeId, key: string, want: seq<string>, at: string, seen: Seen)
    returns (r: Option<Found>)
    requires Valid(g) && node < |g| && g[node].Mapping?
    modifies seen
    ensures (r, seen.nodes) == FindFrom(g, node, key, want, at, old(seen.nodes), 0)
    decreases |want|, 2 * Unseen(g, seen.nodes) + 2, 0
  {
    ghost var start := seen.nodes;
    var content := g[node].content;
    var i: nat := 0;
    while 2 * i + 1 < |content|
      invariant 0 <= i <= Width(g, node) && start <= seen.nodes
      invariant FindFrom(g, node, key, want, at, start, 0) == FindFrom(g, node, key, want, at, seen.nodes, i)
      decreases |content| - 2 * i
    {
      AtPair(g, node, key, want, at, seen.nodes, i);
      var name := g[content[2 * i]];
      if ValueOf(name) == key {
        return Some(Found(name.line, at));
      }
      UnseenShrinks(g, start, seen.nodes);
      var found := FindKey(g, content[2 * i + 1], key, OnPath(want, ValueOf(name)), JoinKey(at, ValueOf(name)), seen);
      if found.Some? {
        return found;
      }
      i := i + 1;
    }
    r := None;
  }

  method FindInItems(g: Graph, node: NodeId, key: string, want: seq<string>, at: string, seen: Seen)
    returns (r: Option<Found>)
    requires Valid(g) && node < |g| && g[node].Sequence?
    modifies seen
    ensures (r, seen.nodes) == FindFrom(g, node, key, want, at, old(seen.nodes), 0)
    decreases |want|, 2 * Unseen(g, seen.nodes) + 2, 0
  {
    ghost var start := seen.nodes;
    var content := g[node].content;
    var i: nat := 0;
    while i < |content|
      invariant 0 <= i <= Width(g, node) && start <= seen.nodes
      invariant FindFrom(g, node, key, want, at, start, 0) == FindFrom(g, node, key, want, at, seen.nodes, i)
    {
      var index := Itoa(i);
      if want == [] || want[0] == index {
        UnseenShrinks(g, start, seen.nodes);
        var found := FindKey(g, content[i], key, OnPath(want, index), at + "[" + index + "]", seen);
        if found.Some? {
          return found;
        }
      }
      i := i + 1;
    }
    r := None;
  }

  datatype Hint = Hint(line: int, parent: string)

  /** want ends with the key to look for. There is no hint if Find answers with the place that is expected. */
  method MisplacedHint(g: Graph, scope: NodeId, want: seq<string>, trail: string, expected: string)
    returns (hint: Option<Hint>)
    requires Valid(g) && scope < |g| && want != []
    ensures hint.Some? ==>
              && Answers(g, Deref(g, scope), want[|want| - 1], want, trail, Found(hint.value.line, hint.value.parent))
              && JoinKey(hint.value.parent, want[|want| - 1]) != expected
    ensures !KeyReachable(g, Deref(g, scope), want[|want| - 1], want) ==> hint.None?
    ensures KeyReachable(g, Deref(g, scope), want[|want| - 1], want) && hint.None? ==>
              var found := Find(g, Deref(g, scope), want[|want| - 1], want, trail, {}).0;
              found.Some? && JoinKey(found.value.parent, want[|want| - 1]) == expected
  {
    var key := want[|want| - 1];
    var seen := new Seen();
    var found := FindKey(g, scope, key, want, trail, seen);
    FindsIffReachable(g, Deref(g, scope), key, want, trail);
    if found.None? || JoinKey(found.value.parent, key) == expected {
      return None;
    }
    hint := Some(Hint(found.value.line, found.value.parent));
  }

  // ---------------------------------------------------------------------------------------------
  // Walking a path
  // ---------------------------------------------------------------------------------------------

  function Digits(s: string): Option<nat> {
    if s == "" then Some(0)
    else
      var rest := Digits(s[..|s| - 1]);
      var c := s[|s| - 1];
      if rest.Some? && '0' <= c <= '9' then Some(10 * rest.value + (c as int - '0' as int)) else None
  }

  // strconv.Atoi for the values an index can have: an optional sign, then digits, within 64 bits.
  function Atoi(s: string): Option<int> {
    var digits := if s != "" && s[0] in {'+', '-'} then s[1..] else s;
    if digits == "" || Digits(digits).None? then None
    else
      var n: int := if s[0] == '-' then 0 - Digits(digits).value else Digits(digits).value;
      if -0x8000_0000_0000_0000 <= n < 0x8000_0000_0000_0000 then Some(n) else None
  }

  lemma {:induction false} DigitsOfItoa(n: nat)
    ensures Itoa(n) != "" && Digits(Itoa(n)) == Some(n) && Itoa(n)[0] !in {'+', '-'}
  {
    var s := Itoa(n);
    if n >= 10 {
      DigitsOfItoa(n / 10);
      assert s[..|s| - 1] == Itoa(n / 10);
    } else {
      assert s[..0] == "";
    }
  }

  /** Which written numbers are read back: those of 64 bits, with or without a sign. */
  lemma AtoiOfSigned(n: nat)
    ensures Atoi(Itoa(n)) == Atoi("+" + Itoa(n)) == if n < 0x8000_0000_0000_0000 then Some(n) else None
    ensures n <= 0x8000_0000_0000_0000 ==> Atoi("-" + Itoa(n)) == Some(0 - n)
    ensures n > 0x8000_0000_0000_0000 ==> Atoi("-" + Itoa(n)) == None
  {
    DigitsOfItoa(n);
    assert ("+" + Itoa(n))[1..] == ("-" + Itoa(n))[1..] == Itoa(n);
  }

  // The number of the child that a segment names: the last pair with that key, or the item with that index.
  function ChildNumber(g: Graph, n: NodeId, seg: string): (r: Option<nat>)
    requires Valid(g) && n < |g|
    ensures r.Some? ==> r.value < Width(g, n)
  {
    if g[n].Mapping? then LastPair(g, n, seg, Width(g, n))
    else if g[n].Sequence? && Atoi(seg).Some? && 0 <= Atoi(seg).value < Width(g, n) then Some(Atoi(seg).value)
    else None
  }

  // The last of the first k pairs with that key.
  function LastPair(g: Graph, n: NodeId, seg: string, k: nat): (r: Option<nat>)
    requires Valid(g) && n < |g| && g[n].Mapping? && k <= Width(g, n)
    ensures r.Some? ==>
              r.value < k && Name(g, n, r.value) == seg && forall j :: r.value < j < k ==> Name(g, n, j) != seg
    ensures r.None? ==> forall j :: 0 <= j < k ==> Name(g, n, j) != seg
  {
    if k == 0 then None
    else if Name(g, n, k - 1) == seg then Some(k - 1)
    else LastPair(g, n, seg, k - 1)
  }

  function WalkTo(g: Graph, n: NodeId, path: seq<string>): Option<NodeId>
    requires Valid(g) && n < |g|
    decreases |path|
  {
    if path == [] then Some(n)
    else
      var i := ChildNumber(g, n, path[0]);
      if i.None? then None else WalkTo(g, Child(g, n, i.value), path[1..])
  }

  /** ResolveSegment, once for each segment, and Deref between them. */
  method Walk(g: Graph, root: NodeId, path: seq<string>) returns (r: Option<NodeId>)
    requires Valid(g) && root < |g|
    ensures r == WalkTo(g, Deref(g, root), path)
  {
    var node: NodeId := FollowAliases(g, root);
    var i := 0;
    while i < |path|
      invariant 0 <= i <= |path| && node < |g| && !g[node].Alias?
      invariant WalkTo(g, Deref(g, root), path) == WalkTo(g, node, path[i..])
    {
      var child := ResolveSegment(g, node, path[i]);
      if child.None? {
        return None;
      }
      node := FollowAliases(g, child.value);
      assert path[i..][1..] == path[i + 1..];
      i := i + 1;
    }
    r := Some(node);
  }

  method ResolveSegment(g: Graph, n: NodeId, seg: string) returns (r: Option<NodeId>)
    requires Valid(g) && n < |g|
    ensures r.Some? <==> ChildNumber(g, n, seg).Some?
    ensures r.Some? ==> r.value < |g| && Deref(g, r.value) == Child(g, n, ChildNumber(g, n, seg).value)
  {
    r := None;
    if g[n].Mapping? {
      r := ResolveKey(g, n, seg);
    } else if g[n].Sequence? {
      var index := Atoi(seg);
      if index.Some? && 0 <= index.value < |g[n].content| {
        r := Some(g[n].content[index.value]);
      }
    }
  }

  method ResolveKey(g: Graph, n: NodeId, seg: string) returns (r: Option<NodeId>)
    requires Valid(g) && n < |g| && g[n].Mapping?
    ensures r.Some? <==> LastPair(g, n, seg, Width(g, n)).Some?
    ensures r.Some? ==> r.value < |g| && Deref(g, r.value) == Child(g, n, LastPair(g, n, seg, Width(g, n)).value)
  {
    r := None;
    var content := g[n].content;
    var i := 0;
    while 2 * i + 1 < |content|
      invariant 0 <= i <= Width(g, n)
      invariant r.Some? <==> LastPair(g, n, seg, i).Some?
      invariant r.Some? ==> r.value < |g| && Deref(g, r.value) == Child(g, n, LastPair(g, n, seg, i).value)
      decreases |content| - 2 * i
    {
      if ValueOf(g[content[2 * i]]) == seg {
        r := Some(content[2 * i + 1]);
      }
      i := i + 1;
    }
  }

  // The segments that the choices spell.
  function Segments(g: Graph, n: NodeId, choices: seq<nat>): seq<string>
    requires Valid(g) && n < |g|
    decreases |choices|
  {
    if choices == [] || choices[0] >= Width(g, n) then []
    else [Name(g, n, choices[0])] + Segments(g, Child(g, n, choices[0]), choices[1..])
  }

  // On such a graph, a choice and its segment determine each other. The bound on lists is that of Atoi.
  predicate NoRepeatedKeys(g: Graph)
    requires Valid(g)
  {
    forall n :: 0 <= n < |g| ==> Width(g, n) < 0x8000_0000_0000_0000 && (g[n].Mapping? ==> DistinctNames(g, n))
  }

  predicate DistinctNames(g: Graph, n: NodeId)
    requires Valid(g) && n < |g| && g[n].Mapping?
  {
    forall i, j :: 0 <= i < j < Width(g, n) ==> Name(g, n, i) != Name(g, n, j)
  }

  /** The walk and the search agree: the segments of any place that the search can answer with, walked from the same
      node, resolve to that very mapping. */
  lemma {:induction false} WalkReachesFound(g: Graph, n: NodeId, want: seq<string>, choices: seq<nat>, m: NodeId)
    requires Valid(g) && n < |g| && NoRepeatedKeys(g) && Leads(g, n, want, choices, m)
    ensures WalkTo(g, n, Segments(g, n, choices)) == Some(m)
    decreases |choices|
  {
    if choices != [] {
      var i := choices[0];
      DigitsOfItoa(i);
      assert ChildNumber(g, n, Name(g, n, i)) == Some(i);
      WalkReachesFound(g, Child(g, n, i), OnPath(want, Name(g, n, i)), choices[1..], m);
    }
  }
}
