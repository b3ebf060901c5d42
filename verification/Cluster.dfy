/** The hosts of the cluster as the schedulers use them: sums and maxima of loads, find, increment and sort. */
module Cluster {

  datatype Host = Host(name: string, vms: int, memCommit: int, memTotal: int)

  datatype Node = Node(hostname: string, external_: bool, vlans: seq<string>, memory: int)

  /** The experiment that a scheduler works on: its topology, and the host of each node scheduled so far. */
  class ExperimentSpec {
    const nodes: seq<Node>
    var schedules: map<string, string>

    constructor (nodes: seq<Node>, schedules: map<string, string>)
      ensures this.nodes == nodes && this.schedules == schedules
    {
      this.nodes, this.schedules := nodes, schedules;
    }
  }

  // Which load the hosts are sorted by.
  datatype Field = VMs | CommittedMem

  function LoadOf(h: Host, f: Field): int {
    match f
    case VMs => h.vms
    case CommittedMem => h.memCommit
  }

  function Increased(h: Host, f: Field, by_: int): Host {
    match f
    case VMs => h.(vms := h.vms + by_)
    case CommittedMem => h.(memCommit := h.memCommit + by_)
  }

  function Loads(hosts: seq<Host>, f: Field): (loads: seq<int>)
    ensures |loads| == |hosts| && forall i :: 0 <= i < |hosts| ==> loads[i] == LoadOf(hosts[i], f)
  {
    seq(|hosts|, i requires 0 <= i < |hosts| => LoadOf(hosts[i], f))
  }

  function Names(hosts: seq<Host>): set<string> {
    set i | 0 <= i < |hosts| :: hosts[i].name
  }

  predicate DistinctNames(hosts: seq<Host>) {
    forall i, j :: 0 <= i < j < |hosts| ==> hosts[i].name != hosts[j].name
  }

  function Sum(loads: seq<int>): int {
    if loads == [] then 0 else loads[0] + Sum(loads[1..])
  }

  function Max(loads: seq<int>): int
    requires loads != []
  {
    if |loads| == 1 || loads[0] >= Max(loads[1..]) then loads[0] else Max(loads[1..])
  }

  lemma {:induction false} MaxMeaning(loads: seq<int>)
    requires loads != []
    ensures Max(loads) in loads && forall i :: 0 <= i < |loads| ==> loads[i] <= Max(loads)
  {
    if |loads| > 1 {
      MaxMeaning(loads[1..]);
    }
  }

  lemma {:induction false} SumAt(loads: seq<int>, i: nat, x: int)
    requires i < |loads|
    ensures Sum(loads[i := x]) == Sum(loads) - loads[i] + x
  {
    if i > 0 {
      assert loads[i := x][1..] == loads[1..][i - 1 := x];
      SumAt(loads[1..], i - 1, x);
    } else {
      assert loads[0 := x][1..] == loads[1..];
    }
  }

  lemma {:induction false} SumWithout(loads: seq<int>, i: nat)
    requires i < |loads|
    ensures Sum(loads[..i] + loads[i + 1..]) == Sum(loads) - loads[i]
  {
    if i > 0 {
      SumWithout(loads[1..], i - 1);
      assert (loads[..i] + loads[i + 1..])[1..] == loads[1..][..i - 1] + loads[1..][i..];
    } else {
      assert loads[..0] + loads[1..] == loads[1..];
    }
  }

  predicate SameHosts(a: seq<Host>, b: seq<Host>) {
    multiset(a) == multiset(b)
  }

  predicate Sorted(hosts: seq<Host>, f: Field) {
    forall i, j :: 0 <= i < j < |hosts| ==> LoadOf(hosts[i], f) <= LoadOf(hosts[j], f)
  }

  function Drop(hosts: seq<Host>, i: nat): (r: seq<Host>)
    requires i < |hosts|
    ensures |r| == |hosts| - 1
  {
    hosts[..i] + hosts[i + 1..]
  }

  lemma DropOne(hosts: seq<Host>, i: nat)
    requires i < |hosts|
    ensures multiset(Drop(hosts, i)) == multiset(hosts) - multiset{hosts[i]}
  {
    assert hosts == hosts[..i] + [hosts[i]] + hosts[i + 1..];
  }

  lemma DropSum(hosts: seq<Host>, i: nat, f: Field)
    requires i < |hosts|
    ensures Sum(Loads(Drop(hosts, i), f)) == Sum(Loads(hosts, f)) - LoadOf(hosts[i], f)
  {
    SumWithout(Loads(hosts, f), i);
    assert Loads(Drop(hosts, i), f) == Loads(hosts, f)[..i] + Loads(hosts, f)[i + 1..];
  }

  lemma PositionOf(hosts: seq<Host>, h: Host) returns (i: nat)
    requires h in multiset(hosts)
    ensures i < |hosts| && hosts[i] == h
  {
    i :| 0 <= i < |hosts| && hosts[i] == h;
  }

  lemma {:induction false} SameHostsSameSum(a: seq<Host>, b: seq<Host>, f: Field)
    requires SameHosts(a, b)
    ensures Sum(Loads(a, f)) == Sum(Loads(b, f))
    decreases |a|
  {
    SameHostsSameSize(a, b);
    if a != [] {
      var h := a[0];
      assert h in multiset(a);
      var i := PositionOf(b, h);
      DropOne(a, 0);
      DropOne(b, i);
      SameHostsSameSum(Drop(a, 0), Drop(b, i), f);
      DropSum(a, 0, f);
      DropSum(b, i, f);
    }
  }

  lemma SameHostsSameSize(a: seq<Host>, b: seq<Host>)
    requires SameHosts(a, b)
    ensures |a| == |b|
  {
    assert |multiset(a)| == |a| && |multiset(b)| == |b|;
  }

  lemma SameHostsSameMax(a: seq<Host>, b: seq<Host>, f: Field)
    requires SameHosts(a, b) && a != []
    ensures b != [] && Max(Loads(a, f)) == Max(Loads(b, f))
  {
    assert a[0] in multiset(b);
    MaxMeaning(Loads(a, f));
    MaxMeaning(Loads(b, f));
    SameElements(a, b);
    var i :| 0 <= i < |a| && Loads(a, f)[i] == Max(Loads(a, f));
    assert a[i] in b;
    var j :| 0 <= j < |b| && Loads(b, f)[j] == Max(Loads(b, f));
    assert b[j] in a;
  }

  lemma SameElements(a: seq<Host>, b: seq<Host>)
    requires SameHosts(a, b)
    ensures forall h :: h in a <==> h in b
  {
    assert forall h :: h in a <==> h in multiset(a);
    assert forall h :: h in b <==> h in multiset(b);
  }

  lemma SameHostsSameNames(a: seq<Host>, b: seq<Host>)
    requires SameHosts(a, b)
    ensures Names(a) == Names(b)
  {
    SameElements(a, b);
    forall n | n in Names(a)
      ensures n in Names(b)
    {
      var i :| 0 <= i < |a| && a[i].name == n;
      assert a[i] in b;
    }
    forall n | n in Names(b)
      ensures n in Names(a)
    {
      var i :| 0 <= i < |b| && b[i].name == n;
      assert b[i] in a;
    }
  }

  lemma SameHostsKeepDistinct(a: seq<Host>, b: seq<Host>)
    requires SameHosts(a, b) && DistinctNames(a)
    ensures DistinctNames(b)
  {
    forall i, j | 0 <= i < j < |b|
      ensures b[i].name != b[j].name
    {
      SameElements(a, b);
      assert b[i] in a && b[j] in a;
      if b[i].name == b[j].name {
        var k :| 0 <= k < |a| && a[k] == b[i];
        assert b[i] == b[j];
        TwiceInBoth(b, i, j);
        OnceIn(a, k);
        assert false;
      }
    }
  }

  lemma TwiceInBoth(b: seq<Host>, i: nat, j: nat)
    requires i < j < |b| && b[i] == b[j]
    ensures multiset(b)[b[i]] >= 2
  {
    assert b == b[..j] + [b[j]] + b[j + 1..];
    assert b[i] in b[..j];
  }

  lemma OnceIn(a: seq<Host>, k: nat)
    requires k < |a| && DistinctNames(a)
    ensures multiset(a)[a[k]] == 1
  {
    assert a == a[..k] + [a[k]] + a[k + 1..];
    assert a[k] !in a[..k];
    assert a[k] !in a[k + 1..];
  }

  // The first host with the name.
  function FindFrom(hosts: seq<Host>, name: string, i: nat): (r: int)
    requires i <= |hosts|
    ensures r == -1 ==> forall j :: i <= j < |hosts| ==> hosts[j].name != name
    ensures r != -1 ==> i <= r < |hosts| && hosts[r].name == name
    decreases |hosts| - i
  {
    if i == |hosts| then -1 else if hosts[i].name == name then i else FindFrom(hosts, name, i + 1)
  }

  // The position of the first host with the name, or -1.
  function Find(hosts: seq<Host>, name: string): (r: int)
    ensures r == -1 <==> name !in Names(hosts)
    ensures r != -1 ==> 0 <= r < |hosts| && hosts[r].name == name
  {
    FindFrom(hosts, name, 0)
  }

  // Adds to the load of the first host with the name. It changes nothing when there is none.
  function Increase(hosts: seq<Host>, name: string, f: Field, by_: int): (r: seq<Host>)
    ensures |r| == |hosts| && Names(r) == Names(hosts) && forall i :: 0 <= i < |hosts| ==> r[i].name == hosts[i].name
  {
    var i := Find(hosts, name);
    if i == -1 then hosts
    else
      var r := hosts[i := Increased(hosts[i], f, by_)];
      assert forall i :: 0 <= i < |hosts| ==> r[i].name == hosts[i].name;
      r
  }

  lemma IncreaseSum(hosts: seq<Host>, name: string, f: Field, by_: int)
    ensures Sum(Loads(Increase(hosts, name, f, by_), f)) ==
            Sum(Loads(hosts, f)) + if name in Names(hosts) then by_ else 0
  {
    var i := Find(hosts, name);
    if i != -1 {
      SumAt(Loads(hosts, f), i, LoadOf(hosts[i], f) + by_);
      assert Loads(Increase(hosts, name, f, by_), f) == Loads(hosts, f)[i := LoadOf(hosts[i], f) + by_];
    }
  }

  /**
   Sorts the hosts by a load, ascending. The order of hosts with equal loads is not promised, and no caller uses it.
   */
  method Sort(hosts: seq<Host>, f: Field) returns (r: seq<Host>)
    ensures Sorted(r, f) && SameHosts(hosts, r)
  {
    r := [];
    var i := 0;
    while i < |hosts|
      invariant 0 <= i <= |hosts|
      invariant Sorted(r, f) && multiset(r) == multiset(hosts[..i])
    {
      r := Insert(r, hosts[i], f);
      assert hosts[..i + 1] == hosts[..i] + [hosts[i]];
      i := i + 1;
    }
    assert hosts[..i] == hosts;
  }

  method Insert(hosts: seq<Host>, h: Host, f: Field) returns (r: seq<Host>)
    requires Sorted(hosts, f)
    ensures Sorted(r, f) && multiset(r) == multiset(hosts) + multiset{h}
  {
    var i := 0;
    while i < |hosts| && LoadOf(hosts[i], f) < LoadOf(h, f)
      invariant 0 <= i <= |hosts|
      invariant forall j :: 0 <= j < i ==> LoadOf(hosts[j], f) < LoadOf(h, f)
    {
      i := i + 1;
    }
    assert hosts == hosts[..i] + hosts[i..];
    r := hosts[..i] + [h] + hosts[i..];
  }
}
