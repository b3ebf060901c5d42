/**
 What the error of a failed decoding says: the chain of includes that it names leads to a config with just that fault.
 And when a repeated name is the only fault there is, it is what the error reports.
 */
module IncludeErrors {
  import opened Wrappers
  import opened TopologyIncludes

  // The sources that an error names on its way to the fault, and those along a chain of includes.
  function Causes(e: Error): seq<string> {
    if e.Included? then [e.source] + Causes(e.cause) else []
  }

  function Fault(e: Error): Error {
    match e
    case Included(_, cause) => Fault(cause)
    case _ => e
  }

  function SourcesAlong(load: Sources, c: Config, chain: seq<nat>): seq<string>
    requires At(load, c, chain).Some?
    decreases |chain|
  {
    if chain == [] then []
    else [c.includes[chain[0]]] + SourcesAlong(load, load[c.includes[chain[0]]], chain[1..])
  }

  // The name of the config occurs twice: it was visited before the chain, or the chain passes it earlier.
  predicate Repeated(load: Sources, c: Config, visited: set<string>, chain: seq<nat>)
    requires At(load, c, chain).Some?
  {
    var names := NamesAlong(load, c, chain);
    names[|names| - 1] in visited || names[|names| - 1] in names[..|names| - 1]
  }

  // The config has the fault. The checks come in this order: the name, the version, the spec, and then each include.
  predicate HasFault(load: Sources, c: Config, repeated: bool, fault: Error) {
    match fault
    case Cyclic(name) => repeated && name == c.name
    case UnknownVersion => !repeated && !c.storedVersion
    case BadSpec => !repeated && c.storedVersion && !c.decodes
    case NotFound(source) => !repeated && c.storedVersion && c.decodes && source in c.includes && source !in load
    case Duplicate(source, _) => !repeated && c.storedVersion && c.decodes && source in c.includes && source in load
    case Included(_, _) => false
  }

  /** A failed decoding names the includes that lead to the config at fault, and the fault. */
  lemma {:induction false} ErrorLeadsToFault(load: Sources, c: Config, visited: set<string>) returns (chain: seq<nat>)
    requires Decode(load, c, visited).Failure?
    ensures At(load, c, chain).Some?
    ensures var e := Decode(load, c, visited).error;
            && Causes(e) == SourcesAlong(load, c, chain)
            && HasFault(load, At(load, c, chain).value, Repeated(load, c, visited, chain), Fault(e))
    decreases Unvisited(load, c, visited), |c.includes| + 1
  {
    if c.name in visited || !c.storedVersion || !c.decodes {
      chain := [];
    } else {
      chain := IncludeLeadsToFault(load, c, visited, 0, c.nodes);
    }
  }

  lemma {:induction false} IncludeLeadsToFault(load: Sources, c: Config, visited: set<string>, i: nat, nodes: seq<Node>)
    returns (chain: seq<nat>)
    requires i <= |c.includes| && c.name !in visited && c.storedVersion && c.decodes
    requires IncludeFrom(load, c, visited, i, nodes).Failure?
    ensures At(load, c, chain).Some?
    ensures var e := IncludeFrom(load, c, visited, i, nodes).error;
            && Causes(e) == SourcesAlong(load, c, chain)
            && HasFault(load, At(load, c, chain).value, Repeated(load, c, visited, chain), Fault(e))
    decreases Unvisited(load, c, visited), |c.includes| - i
  {
    var s := c.includes[i];
    chain := [];
    if s in load {
      IncludeVisitsMore(load, c, visited, s);
      var child := Decode(load, load[s], visited + {c.name});
      if child.Failure? {
        var inner := ErrorLeadsToFault(load, load[s], visited + {c.name});
        chain := [i] + inner;
        ThroughInclude(load, c, visited, i, inner);
      } else if Merge(nodes, child.value).Success? {
        chain := IncludeLeadsToFault(load, c, visited, i + 1, Merge(nodes, child.value).value);
      }
    }
  }

  lemma ThroughInclude(load: Sources, c: Config, visited: set<string>, i: nat, inner: seq<nat>)
    requires i < |c.includes| && c.includes[i] in load && At(load, load[c.includes[i]], inner).Some?
    ensures var child, chain := load[c.includes[i]], [i] + inner;
            && At(load, c, chain) == At(load, child, inner)
            && SourcesAlong(load, c, chain) == [c.includes[i]] + SourcesAlong(load, child, inner)
            && (Repeated(load, c, visited, chain) <==> Repeated(load, child, visited + {c.name}, inner))
  {
    var child, chain := load[c.includes[i]], [i] + inner;
    assert chain[1..] == inner;
    var names, rest := NamesAlong(load, c, chain), NamesAlong(load, child, inner);
    assert names == [c.name] + rest && names[..|names| - 1] == [c.name] + rest[..|rest| - 1];
  }

  /** Which hostname a merge fails with: that of the first node whose hostname is taken, by then, by an earlier one. */
  lemma {:induction false} MergeFailsWith(nodes: seq<Node>, more: seq<Node>) returns (k: nat)
    requires Merge(nodes, more).Failure?
    ensures k < |more| && more[k].hostname == Merge(nodes, more).error
    ensures HasHost(nodes + more[..k], more[k].hostname) && NoRepeat(|nodes|, nodes + more[..k])
    decreases |more|
  {
    if HasHost(nodes, more[0].hostname) {
      k := 0;
      assert nodes + more[..0] == nodes;
    } else {
      var j := MergeFailsWith(nodes + [more[0]], more[1..]);
      k := j + 1;
      assert nodes + [more[0]] + more[1..][..j] == nodes + more[..k];
      forall i | 0 <= i < |nodes|
        ensures (nodes + more[..k])[i].hostname != (nodes + more[..k])[|nodes|].hostname
      {
        assert (nodes + more[..k])[i] == nodes[i];
      }
    }
  }

  // Every config that the includes lead to is one that decodes and whose includes load.
  ghost predicate AllHealthy(load: Sources, c: Config) {
    forall chain :: At(load, c, chain).Some? ==> Healthy(load, At(load, c, chain).value)
  }

  lemma HealthyInclude(load: Sources, c: Config, i: nat)
    requires AllHealthy(load, c) && i < |c.includes|
    ensures Healthy(load, c) && c.includes[i] in load && AllHealthy(load, load[c.includes[i]])
  {
    assert At(load, c, []) == Some(c);
    forall chain | At(load, load[c.includes[i]], chain).Some?
      ensures Healthy(load, At(load, load[c.includes[i]], chain).value)
    {
      assert ([i] + chain)[1..] == chain;
      assert At(load, c, [i] + chain) == At(load, load[c.includes[i]], chain);
    }
  }

  // Among healthy configs, whatever is no cycle is a hostname that repeats in the expansion.
  lemma {:induction false} OtherwiseRepeats(load: Sources, c: Config, visited: set<string>)
    requires AllHealthy(load, c) && Decode(load, c, visited).Failure? && !Fault(Decode(load, c, visited).error).Cyclic?
    ensures !NoRepeat(|c.nodes|, Expand(load, c, visited))
    decreases Unvisited(load, c, visited), |c.includes| + 1
  {
    assert At(load, c, []) == Some(c);
    OtherwiseRepeatsFrom(load, c, visited, 0, c.nodes);
  }

  lemma {:induction false} OtherwiseRepeatsFrom(load: Sources, c: Config, visited: set<string>, i: nat,
                                                nodes: seq<Node>)
    requires AllHealthy(load, c) && i <= |c.includes| && c.name !in visited && |c.nodes| <= |nodes|
    requires NoRepeat(|c.nodes|, nodes)
    requires IncludeFrom(load, c, visited, i, nodes).Failure?
             && !Fault(IncludeFrom(load, c, visited, i, nodes).error).Cyclic?
    ensures !NoRepeat(|c.nodes|, nodes + ExpandFrom(load, c, visited, i))
    decreases Unvisited(load, c, visited), |c.includes| - i
  {
    HealthyInclude(load, c, i);
    var s := c.includes[i];
    IncludeVisitsMore(load, c, visited, s);
    var child := Decode(load, load[s], visited + {c.name});
    var more, rest := Expand(load, load[s], visited + {c.name}), ExpandFrom(load, c, visited, i + 1);
    assert nodes + ExpandFrom(load, c, visited, i) == nodes + more + rest;
    RepeatInParts(|c.nodes|, |load[s].nodes|, nodes, more, rest);
    MergeSucceedsIff(nodes, more);
    if child.Failure? {
      OtherwiseRepeats(load, load[s], visited + {c.name});
    } else {
      DecodeIff(load, load[s], visited + {c.name});
      if Merge(nodes, more).Success? {
        OtherwiseRepeatsFrom(load, c, visited, i + 1, nodes + more);
      }
    }
  }

  /**
   A repeated name is reported as a cycle: if every config is healthy and no hostname repeats, decoding fails exactly if
   some chain repeats a name, and then says so.
   */
  lemma RepeatedNameIsCyclic(load: Sources, root: Config)
    requires AllHealthy(load, root) && NoRepeat(|root.nodes|, Expand(load, root, {}))
    ensures Decode(load, root, {}).Failure? <==>
            exists chain :: Repeats(load, root, chain)
    ensures Decode(load, root, {}).Failure? ==> Fault(Decode(load, root, {}).error).Cyclic?
  {
    DecodeSucceedsIff(load, root);
    SoundIff(load, root);
    if Decode(load, root, {}).Failure? && !Fault(Decode(load, root, {}).error).Cyclic? {
      OtherwiseRepeats(load, root, {});
    }
  }

  predicate Repeats(load: Sources, root: Config, chain: seq<nat>) {
    At(load, root, chain).Some? && !Distinct(NamesAlong(load, root, chain))
  }

  lemma SoundIff(load: Sources, root: Config)
    requires AllHealthy(load, root)
    ensures ChainsAreSound(load, root) <==> !exists chain :: Repeats(load, root, chain)
  {
    if !exists chain :: Repeats(load, root, chain) {
      forall chain | At(load, root, chain).Some?
        ensures Distinct(NamesAlong(load, root, chain)) && Healthy(load, At(load, root, chain).value)
      {
        assert !Repeats(load, root, chain);
      }
    }
    forall chain | ChainsAreSound(load, root)
      ensures !Repeats(load, root, chain)
    {
    }
  }

  lemma {:induction false} FaultIsInnermost(e: Error)
    ensures Fault(e) == Innermost(e)
  {
    if e.Included? {
      FaultIsInnermost(e.cause);
    }
  }
}
