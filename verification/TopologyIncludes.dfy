/**
 Topologies that include topologies. Decoding one flattens its includes into its nodes, in depth-first order, and
 refuses cycles and repeated hostnames. It ends on every include graph, cyclic ones too.
 */
module TopologyIncludes {
  import opened Wrappers

  datatype Node = Node(hostname: string, spec: string)

  // A topology config as loaded. Two sources can load configs of one name.
  datatype Config = Config(name: string, storedVersion: bool, decodes: bool, nodes: seq<Node>, includes: seq<string>)

  // The loader as a map. A source outside it cannot be loaded.
  type Sources = map<string, Config>

  datatype Error =
    | Cyclic(name: string)
    | UnknownVersion
    | BadSpec
    | NotFound(source: string)
    | Duplicate(source: string, hostname: string)
    | Included(source: string, cause: Error)

  function Innermost(e: Error): Error {
    if e.Included? then Innermost(e.cause) else e
  }

  predicate Healthy(load: Sources, c: Config) {
    c.storedVersion && c.decodes && forall i :: 0 <= i < |c.includes| ==> c.includes[i] in load
  }

  // The config that a chain of includes leads to. Each number picks one of the includes.
  function At(load: Sources, c: Config, chain: seq<nat>): Option<Config>
    decreases |chain|
  {
    if chain == [] then Some(c)
    else if chain[0] < |c.includes| && c.includes[chain[0]] in load then
      At(load, load[c.includes[chain[0]]], chain[1..])
    else None
  }

  // The names of the configs along a chain.
  function NamesAlong(load: Sources, c: Config, chain: seq<nat>): (names: seq<string>)
    requires At(load, c, chain).Some?
    ensures |names| == |chain| + 1 && names[0] == c.name
    decreases |chain|
  {
    [c.name] + if chain == [] then [] else NamesAlong(load, load[c.includes[chain[0]]], chain[1..])
  }

  predicate Distinct(names: seq<string>) {
    forall i, j :: 0 <= i < j < |names| ==> names[i] != names[j]
  }

  // Every chain of includes leads to a config that decodes and whose includes load, and no chain repeats a name.
  ghost predicate ChainsAreSound(load: Sources, c: Config) {
    forall chain :: At(load, c, chain).Some? ==>
             Distinct(NamesAlong(load, c, chain)) && Healthy(load, At(load, c, chain).value)
  }

  // No hostname repeats, except among the first own nodes.
  predicate NoRepeat(own: nat, nodes: seq<Node>) {
    forall i, j :: 0 <= i < j < |nodes| && own <= j ==> nodes[i].hostname != nodes[j].hostname
  }

  // The names still to visit. They decrease along every include.
  function Unvisited(load: Sources, c: Config, visited: set<string>): set<string> {
    ((set s | s in load :: load[s].name) + {c.name}) - visited
  }

  lemma IncludeVisitsMore(load: Sources, c: Config, visited: set<string>, s: string)
    requires c.name !in visited && s in load
    ensures Unvisited(load, load[s], visited + {c.name}) < Unvisited(load, c, visited)
  {
    assert c.name in Unvisited(load, c, visited);
  }

  /** The nodes that Decode gives if it succeeds, defined without any of its checks except visited. */
  function Expand(load: Sources, c: Config, visited: set<string>): seq<Node>
    decreases Unvisited(load, c, visited), |c.includes| + 1
  {
    if c.name in visited then [] else c.nodes + ExpandFrom(load, c, visited, 0)
  }

  function ExpandFrom(load: Sources, c: Config, visited: set<string>, i: nat): seq<Node>
    requires i <= |c.includes| && c.name !in visited
    decreases Unvisited(load, c, visited), |c.includes| - i
  {
    if i == |c.includes| then []
    else
      (if c.includes[i] !in load then []
       else
         IncludeVisitsMore(load, c, visited, c.includes[i]);
         Expand(load, load[c.includes[i]], visited + {c.name}))
      + ExpandFrom(load, c, visited, i + 1)
  }

  predicate HasHost(nodes: seq<Node>, hostname: string) {
    exists i :: 0 <= i < |nodes| && nodes[i].hostname == hostname
  }

  // Appends the nodes of an include. The first one whose hostname is taken is the failure.
  function Merge(nodes: seq<Node>, more: seq<Node>): Result<seq<Node>, string>
    decreases |more|
  {
    if more == [] then Success(nodes)
    else if HasHost(nodes, more[0].hostname) then Failure(more[0].hostname)
    else Merge(nodes + [more[0]], more[1..])
  }

  lemma {:induction false} MergeSucceedsIff(nodes: seq<Node>, more: seq<Node>)
    ensures Merge(nodes, more).Success? <==> NoRepeat(|nodes|, nodes + more)
    ensures Merge(nodes, more).Success? ==> Merge(nodes, more).value == nodes + more
    decreases |more|
  {
    var all := nodes + more;
    if more == [] {
      assert all == nodes;
    } else {
      MergeSucceedsIff(nodes + [more[0]], more[1..]);
      assert nodes + [more[0]] + more[1..] == all;
      assert all[|nodes|] == more[0];
      if HasHost(nodes, more[0].hostname) {
        var i :| 0 <= i < |nodes| && nodes[i].hostname == more[0].hostname;
        assert all[i] == nodes[i];
      } else {
        forall i | 0 <= i < |nodes|
          ensures all[i].hostname != all[|nodes|].hostname
        {
          assert all[i] == nodes[i];
        }
      }
    }
  }

  // What decoding a topology gives, with the names of the topologies that include it.
  function Decode(load: Sources, c: Config, visited: set<string>): Result<seq<Node>, Error>
    decreases Unvisited(load, c, visited), |c.includes| + 1
  {
    if c.name in visited then Failure(Cyclic(c.name))
    else if !c.storedVersion then Failure(UnknownVersion)
    else if !c.decodes then Failure(BadSpec)
    else IncludeFrom(load, c, visited, 0, c.nodes)
  }

  function IncludeFrom(load: Sources, c: Config, visited: set<string>, i: nat, nodes: seq<Node>)
    : Result<seq<Node>, Error>
    requires i <= |c.includes| && c.name !in visited
    decreases Unvisited(load, c, visited), |c.includes| - i
  {
    if i == |c.includes| then Success(nodes)
    else
      var s := c.includes[i];
      if s !in load then Failure(NotFound(s))
      else
        IncludeVisitsMore(load, c, visited, s);
        var child := Decode(load, load[s], visited + {c.name});
        if child.Failure? then Failure(Included(s, child.error))
        else
          var merged := Merge(nodes, child.value);
          if merged.Failure? then Failure(Duplicate(s, merged.error))
          else IncludeFrom(load, c, visited, i + 1, merged.value)
  }

  // What decoding checks of the names: the step-by-step form of ChainsAreSound.
  predicate Sound(load: Sources, c: Config, visited: set<string>)
    decreases Unvisited(load, c, visited), |c.includes| + 1
  {
    c.name !in visited && Healthy(load, c) && SoundFrom(load, c, visited, 0)
  }

  predicate SoundFrom(load: Sources, c: Config, visited: set<string>, i: nat)
    requires i <= |c.includes| && c.name !in visited && Healthy(load, c)
    decreases Unvisited(load, c, visited), |c.includes| - i
  {
    i == |c.includes|
    || (IncludeVisitsMore(load, c, visited, c.includes[i]);
        Sound(load, load[c.includes[i]], visited + {c.name}) && SoundFrom(load, c, visited, i + 1))
  }

  lemma {:induction false} DecodeIff(load: Sources, c: Config, visited: set<string>)
    ensures Decode(load, c, visited).Success? <==>
            Sound(load, c, visited) && NoRepeat(|c.nodes|, Expand(load, c, visited))
    ensures Decode(load, c, visited).Success? ==> Decode(load, c, visited).value == Expand(load, c, visited)
    decreases Unvisited(load, c, visited), |c.includes| + 1
  {
    if c.name !in visited && c.storedVersion && c.decodes {
      IncludeIff(load, c, visited, 0, c.nodes);
    }
  }

  lemma {:induction false} IncludeIff(load: Sources, c: Config, visited: set<string>, i: nat, nodes: seq<Node>)
    requires i <= |c.includes| && c.name !in visited && c.storedVersion && c.decodes
    requires |c.nodes| <= |nodes| && NoRepeat(|c.nodes|, nodes)
    requires forall j :: 0 <= j < i ==> c.includes[j] in load
    ensures var all := nodes + ExpandFrom(load, c, visited, i);
            && (IncludeFrom(load, c, visited, i, nodes).Success? <==>
                Healthy(load, c) && SoundFrom(load, c, visited, i) && NoRepeat(|c.nodes|, all))
            && (IncludeFrom(load, c, visited, i, nodes).Success? ==>
                  IncludeFrom(load, c, visited, i, nodes).value == all)
    decreases Unvisited(load, c, visited), |c.includes| - i
  {
    if i == |c.includes| {
      assert nodes + ExpandFrom(load, c, visited, i) == nodes;
    } else if c.includes[i] in load {
      var s := c.includes[i];
      IncludeVisitsMore(load, c, visited, s);
      DecodeIff(load, load[s], visited + {c.name});
      var more := Expand(load, load[s], visited + {c.name});
      var rest := ExpandFrom(load, c, visited, i + 1);
      assert nodes + ExpandFrom(load, c, visited, i) == nodes + more + rest;
      MergeSucceedsIff(nodes, more);
      RepeatInParts(|c.nodes|, |load[s].nodes|, nodes, more, rest);
      if NoRepeat(|nodes|, nodes + more) {
        IncludeIff(load, c, visited, i + 1, nodes + more);
      }
    }
  }

  // A sequence without repeats has none in its parts.
  lemma RepeatInParts(own: nat, inner: nat, nodes: seq<Node>, more: seq<Node>, rest: seq<Node>)
    requires own <= |nodes| && NoRepeat(own, nodes)
    ensures NoRepeat(own, nodes + more + rest) ==> NoRepeat(|nodes|, nodes + more)
    ensures NoRepeat(|nodes|, nodes + more) ==> NoRepeat(own, nodes + more) && NoRepeat(inner, more)
  {
    var all := nodes + more + rest;
    assert forall i :: 0 <= i < |nodes + more| ==> all[i] == (nodes + more)[i];
    assert forall i :: 0 <= i < |more| ==> (nodes + more)[|nodes| + i] == more[i];
    assert forall i :: 0 <= i < |nodes| ==> (nodes + more)[i] == nodes[i];
  }

  // Along every chain that starts with names other than those visited, decoding finds no fault.
  ghost predicate SoundChain(load: Sources, c: Config, visited: set<string>, chain: seq<nat>)
    requires At(load, c, chain).Some?
  {
    var names := NamesAlong(load, c, chain);
    && Distinct(names)
    && (forall i :: 0 <= i < |names| ==> names[i] !in visited)
    && Healthy(load, At(load, c, chain).value)
  }

  lemma {:induction false} SoundMeansChains(load: Sources, c: Config, visited: set<string>, chain: seq<nat>)
    requires Sound(load, c, visited) && At(load, c, chain).Some?
    ensures SoundChain(load, c, visited, chain)
    decreases |chain|
  {
    if chain != [] {
      SoundAt(load, c, visited, 0, chain[0]);
      var child := load[c.includes[chain[0]]];
      SoundMeansChains(load, child, visited + {c.name}, chain[1..]);
      var inner := NamesAlong(load, child, chain[1..]);
      assert NamesAlong(load, c, chain) == [c.name] + inner;
      assert forall i :: 0 <= i < |inner| ==> inner[i] !in visited + {c.name};
    }
  }

  lemma {:induction false} SoundAt(load: Sources, c: Config, visited: set<string>, i: nat, k: nat)
    requires i <= k < |c.includes| && c.name !in visited && Healthy(load, c) && SoundFrom(load, c, visited, i)
    ensures Sound(load, load[c.includes[k]], visited + {c.name})
    decreases k - i
  {
    if i < k {
      SoundAt(load, c, visited, i + 1, k);
    }
  }

  lemma {:induction false} ChainsMeanSound(load: Sources, c: Config, visited: set<string>)
    requires forall chain :: At(load, c, chain).Some? ==> SoundChain(load, c, visited, chain)
    ensures Sound(load, c, visited)
    decreases Unvisited(load, c, visited), |c.includes| + 1
  {
    assert At(load, c, []).Some? && SoundChain(load, c, visited, []);
    assert NamesAlong(load, c, [])[0] == c.name;
    ChainsMeanSoundFrom(load, c, visited, 0);
  }

  lemma {:induction false} ChainsMeanSoundFrom(load: Sources, c: Config, visited: set<string>, i: nat)
    requires i <= |c.includes| && c.name !in visited && Healthy(load, c)
    requires forall chain :: At(load, c, chain).Some? ==> SoundChain(load, c, visited, chain)
    ensures SoundFrom(load, c, visited, i)
    decreases Unvisited(load, c, visited), |c.includes| - i
  {
    if i < |c.includes| {
      var child := load[c.includes[i]];
      IncludeVisitsMore(load, c, visited, c.includes[i]);
      forall chain | At(load, child, chain).Some?
        ensures SoundChain(load, child, visited + {c.name}, chain)
      {
        ChainOfChild(load, c, visited, i, chain);
      }
      ChainsMeanSound(load, child, visited + {c.name});
      ChainsMeanSoundFrom(load, c, visited, i + 1);
    }
  }

  lemma ChainOfChild(load: Sources, c: Config, visited: set<string>, i: nat, chain: seq<nat>)
    requires i < |c.includes| && c.includes[i] in load && At(load, load[c.includes[i]], chain).Some?
    requires forall longer :: At(load, c, longer).Some? ==> SoundChain(load, c, visited, longer)
    ensures SoundChain(load, load[c.includes[i]], visited + {c.name}, chain)
  {
    var longer := [i] + chain;
    assert longer[1..] == chain;
    assert At(load, c, longer) == At(load, load[c.includes[i]], chain);
    var names, inner := NamesAlong(load, c, longer), NamesAlong(load, load[c.includes[i]], chain);
    assert names == [c.name] + inner;
    assert SoundChain(load, c, visited, longer);
    assert forall j :: 0 <= j < |inner| ==> inner[j] == names[j + 1];
  }

  /**
   Decoding succeeds just when every chain of includes leads to configs that decode and load, no chain repeats a name,
   and no hostname of the depth-first expansion repeats, except among the root's own nodes. The result is that
   expansion.
   */
  lemma DecodeSucceedsIff(load: Sources, root: Config)
    ensures Decode(load, root, {}).Success? <==>
              ChainsAreSound(load, root) && NoRepeat(|root.nodes|, Expand(load, root, {}))
    ensures Decode(load, root, {}).Success? ==> Decode(load, root, {}).value == Expand(load, root, {})
  {
    DecodeIff(load, root, {});
    if Sound(load, root, {}) {
      forall chain | At(load, root, chain).Some?
        ensures SoundChain(load, root, {}, chain)
      {
        SoundMeansChains(load, root, {}, chain);
      }
    }
    if ChainsAreSound(load, root) {
      forall chain | At(load, root, chain).Some?
        ensures SoundChain(load, root, {}, chain)
      {
      }
      ChainsMeanSound(load, root, {});
    }
  }

  /**
   A topology included twice by different chains is no cycle: decoding reports a cycle only when a single chain repeats
   a name.
   */
  lemma CycleMeansRepeatedName(load: Sources, root: Config)
    requires Decode(load, root, {}).Failure? && Innermost(Decode(load, root, {}).error).Cyclic?
    ensures exists chain :: At(load, root, chain).Some? && !Distinct(NamesAlong(load, root, chain))
  {
    var chain := CycleChain(load, root, {});
    var names := NamesAlong(load, root, chain);
    assert names[|names| - 1] in names[..|names| - 1];
  }

  // The chain at whose end decoding met a name again.
  lemma {:induction false} CycleChain(load: Sources, c: Config, visited: set<string>) returns (chain: seq<nat>)
    requires Decode(load, c, visited).Failure? && Innermost(Decode(load, c, visited).error).Cyclic?
    ensures At(load, c, chain).Some?
    ensures var names := NamesAlong(load, c, chain);
            names[|names| - 1] in names[..|names| - 1] || names[|names| - 1] in visited
    decreases Unvisited(load, c, visited), |c.includes| + 1
  {
    if c.name in visited {
      chain := [];
    } else {
      chain := CycleChainFrom(load, c, visited, 0, c.nodes);
    }
  }

  lemma {:induction false} CycleChainFrom(load: Sources, c: Config, visited: set<string>, i: nat, nodes: seq<Node>)
    returns (chain: seq<nat>)
    requires i <= |c.includes| && c.name !in visited
    requires IncludeFrom(load, c, visited, i, nodes).Failure?
             && Innermost(IncludeFrom(load, c, visited, i, nodes).error).Cyclic?
    ensures At(load, c, chain).Some?
    ensures var names := NamesAlong(load, c, chain);
            names[|names| - 1] in names[..|names| - 1] || names[|names| - 1] in visited
    decreases Unvisited(load, c, visited), |c.includes| - i
  {
    var s := c.includes[i];
    IncludeVisitsMore(load, c, visited, s);
    var child := Decode(load, load[s], visited + {c.name});
    if child.Failure? {
      var inner := CycleChain(load, load[s], visited + {c.name});
      chain := [i] + inner;
      assert chain[1..] == inner;
      var names, rest := NamesAlong(load, c, chain), NamesAlong(load, load[s], inner);
      assert names == [c.name] + rest;
      assert names[..|names| - 1] == [c.name] + rest[..|rest| - 1];
    } else {
      chain := CycleChainFrom(load, c, visited, i + 1, Merge(nodes, child.value).value);
    }
  }

  /** A decoded topology. Flattening appends to its nodes. */
  class TopologySpec {
    const includes: seq<string>
    var nodes: seq<Node>

    constructor (c: Config)
      ensures includes == c.includes && nodes == c.nodes
    {
      includes, nodes := c.includes, c.nodes;
    }

    // Appends the nodes of an included topology, up to the first one whose hostname is taken.
    method Append(child: TopologySpec) returns (duplicate: Option<string>)
      requires child != this
      modifies this`nodes
      ensures match Merge(old(nodes), child.nodes)
              case Success(all) => duplicate == None && nodes == all
              case Failure(hostname) => duplicate == Some(hostname)
    {
      var existing := set i | 0 <= i < |nodes| :: nodes[i].hostname;
      var k := 0;
      while k < |child.nodes|
        invariant 0 <= k <= |child.nodes| && child.nodes == old(child.nodes)
        invariant forall h :: h in existing <==> HasHost(nodes, h)
        invariant Merge(old(nodes), child.nodes) == Merge(nodes, child.nodes[k..])
      {
        var n := child.nodes[k];
        if n.hostname in existing {
          return Some(n.hostname);
        }
        HostAppended(nodes, n);
        assert child.nodes[k..][1..] == child.nodes[k + 1..];
        nodes := nodes + [n];
        existing := existing + {n.hostname};
        k := k + 1;
      }
      duplicate := None;
    }
  }

  lemma HostAppended(nodes: seq<Node>, n: Node)
    ensures forall h :: HasHost(nodes + [n], h) <==> HasHost(nodes, h) || h == n.hostname
  {
    forall h | HasHost(nodes, h)
      ensures HasHost(nodes + [n], h)
    {
      var i :| 0 <= i < |nodes| && nodes[i].hostname == h;
      assert (nodes + [n])[i].hostname == h;
    }
    assert (nodes + [n])[|nodes|] == n;
  }

  // The outcome of a decoding, as a value.
  ghost function Decoded(r: Result<TopologySpec, Error>): Result<seq<Node>, Error>
    reads if r.Success? then {r.value} else {}
  {
    match r
    case Success(spec) => Success(spec.nodes)
    case Failure(e) => Failure(e)
  }

  /** Decodes a topology with its includes, into a new spec. */
  method DecodeTopology(load: Sources, c: Config) returns (r: Result<TopologySpec, Error>)
    ensures Decoded(r) == Decode(load, c, {})
  {
    r := DecodeRecursive(load, c, {});
  }

  method DecodeRecursive(load: Sources, c: Config, visited: set<string>) returns (r: Result<TopologySpec, Error>)
    ensures r.Success? ==> fresh(r.value)
    ensures Decoded(r) == Decode(load, c, visited)
    decreases Unvisited(load, c, visited)
  {
    if c.name in visited {
      return Failure(Cyclic(c.name));
    }
    var more := visited + {c.name};
    if !c.storedVersion {
      return Failure(UnknownVersion);
    }
    if !c.decodes {
      return Failure(BadSpec);
    }
    var spec := new TopologySpec(c);
    var i := 0;
    while i < |spec.includes|
      invariant 0 <= i <= |spec.includes|
      invariant Decode(load, c, visited) == IncludeFrom(load, c, visited, i, spec.nodes)
    {
      var s := spec.includes[i];
      if s !in load {
        return Failure(NotFound(s));
      }
      IncludeVisitsMore(load, c, visited, s);
      var child := DecodeRecursive(load, load[s], more);
      if child.Failure? {
        return Failure(Included(s, child.error));
      }
      var duplicate := spec.Append(child.value);
      if duplicate.Some? {
        return Failure(Duplicate(s, duplicate.value));
      }
      i := i + 1;
    }
    r := Success(spec);
  }
}
