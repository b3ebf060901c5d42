/**
 The round-robin scheduler: each unscheduled node goes to a host with the fewest VMs. From any loads and any manual
 placements, the largest VM count it ends with is the least that any assignment of those nodes can reach.
 */
module RoundRobin {
  import opened Wrappers
  import opened Cluster

  datatype Outcome = Scheduled | NoNodes | NoCluster | EmptyCluster

  // The nodes that the scheduler must place, among the first k.
  function PendingAmong(nodes: seq<Node>, k: nat, schedules: map<string, string>): set<string>
    requires k <= |nodes|
  {
    if k == 0 then {}
    else
      PendingAmong(nodes, k - 1, schedules)
      + if nodes[k - 1].external_ || nodes[k - 1].hostname in schedules then {} else {nodes[k - 1].hostname}
  }

  function Pending(nodes: seq<Node>, schedules: map<string, string>): set<string> {
    PendingAmong(nodes, |nodes|, schedules)
  }

  // How many nodes the scheduler has placed once it has passed the first k.
  function PendingCount(nodes: seq<Node>, k: nat, schedules: map<string, string>): nat
    requires k <= |nodes|
  {
    if k == 0 then 0
    else
      var n := nodes[k - 1];
      PendingCount(nodes, k - 1, schedules)
      + if n.external_ || n.hostname in schedules || n.hostname in PendingAmong(nodes, k - 1, schedules) then 0 else 1
  }

  lemma {:induction false} PendingCounted(nodes: seq<Node>, k: nat, schedules: map<string, string>)
    requires k <= |nodes|
    ensures PendingCount(nodes, k, schedules) == |PendingAmong(nodes, k, schedules)|
  {
    if k > 0 {
      PendingCounted(nodes, k - 1, schedules);
      SizeWith(PendingAmong(nodes, k - 1, schedules), nodes[k - 1].hostname);
    }
  }

  lemma SizeWith(s: set<string>, x: string)
    ensures |s + {x}| == |s| + if x in s then 0 else 1
  {
    if x in s {
      assert s + {x} == s;
    }
  }

  // A node is pending when it is not external and has no entry yet.
  lemma {:induction false} PendingMeaning(nodes: seq<Node>, k: nat, schedules: map<string, string>, n: string)
    requires k <= |nodes|
    ensures n in PendingAmong(nodes, k, schedules) <==>
            n !in schedules && exists i :: 0 <= i < k && !nodes[i].external_ && nodes[i].hostname == n
  {
    if k > 0 {
      PendingMeaning(nodes, k - 1, schedules, n);
    }
  }

  // The nodes scheduled on the host.
  function On(schedules: map<string, string>, host: string): set<string> {
    set n | n in schedules && schedules[n] == host
  }

  // The nodes scheduled on any of the hosts.
  function OnAny(schedules: map<string, string>, hosts: set<string>): set<string> {
    set n | n in schedules && schedules[n] in hosts
  }

  // The hosts once the manual placements are counted: the first host of each name takes the nodes scheduled on it.
  function WithManual(hosts: seq<Host>, schedules: map<string, string>): (loads: seq<int>)
    ensures |loads| == |hosts|
  {
    seq(|hosts|, i requires 0 <= i < |hosts| =>
      hosts[i].vms + if Find(hosts, hosts[i].name) == i then |On(schedules, hosts[i].name)| else 0)
  }

  // The loads after each of the nodes goes to the host that the assignment gives it.
  function Assign(loads: seq<int>, assignment: seq<nat>): (r: seq<int>)
    requires forall i :: 0 <= i < |assignment| ==> assignment[i] < |loads|
    ensures |r| == |loads|
    decreases |assignment|
  {
    if assignment == [] then loads
    else Assign(loads[assignment[0] := loads[assignment[0]] + 1], assignment[1..])
  }

  lemma {:induction false} AssignTotals(loads: seq<int>, assignment: seq<nat>)
    requires forall i :: 0 <= i < |assignment| ==> assignment[i] < |loads|
    ensures Sum(Assign(loads, assignment)) == Sum(loads) + |assignment|
    ensures forall i :: 0 <= i < |loads| ==> Assign(loads, assignment)[i] >= loads[i]
    decreases |assignment|
  {
    if assignment != [] {
      var next := loads[assignment[0] := loads[assignment[0]] + 1];
      SumAt(loads, assignment[0], loads[assignment[0]] + 1);
      AssignTotals(next, assignment[1..]);
    }
  }

  // The loads are no higher than what they started from, or level up to one VM.
  predicate Level(loads: seq<int>, start: int)
    requires loads != []
  {
    Max(loads) == start || (Max(loads) >= start && forall i :: 0 <= i < |loads| ==> loads[i] >= Max(loads) - 1)
  }

  lemma LevelAfterPlacing(loads: seq<int>, start: int)
    requires loads != [] && Level(loads, start)
    requires forall i :: 0 <= i < |loads| ==> loads[0] <= loads[i]
    ensures Level(loads[0 := loads[0] + 1], start)
  {
    var next := loads[0 := loads[0] + 1];
    MaxMeaning(loads);
    MaxMeaning(next);
  }

  /** Level loads are optimal: no assignment of as many nodes keeps every host below their maximum. */
  lemma LevelIsOptimal(loads: seq<int>, base: seq<int>, assignment: seq<nat>)
    requires loads != [] && |loads| == |base| && Level(loads, Max(base))
    requires Sum(loads) == Sum(base) + |assignment|
    requires forall i :: 0 <= i < |assignment| ==> assignment[i] < |base|
    ensures Max(loads) <= Max(Assign(base, assignment))
  {
    var other := Assign(base, assignment);
    AssignTotals(base, assignment);
    MaxMeaning(base);
    MaxMeaning(other);
    MaxMeaning(loads);
    if Max(loads) > Max(other) {
      var m := Max(loads);
      var k :| 0 <= k < |base| && base[k] == Max(base);
      assert other[k] >= base[k];
      LevelSum(loads, other, m);
      assert false;
    }
  }

  lemma LevelSum(loads: seq<int>, other: seq<int>, m: int)
    requires m in loads && |other| == |loads|
    requires forall i :: 0 <= i < |loads| ==> loads[i] >= m - 1
    requires forall i :: 0 <= i < |other| ==> other[i] <= m - 1
    ensures Sum(other) < Sum(loads)
  {
    LowSum(loads, m);
    SumUpper(other, m - 1);
  }

  lemma {:induction false} SumUpper(loads: seq<int>, high: int)
    requires forall i :: 0 <= i < |loads| ==> loads[i] <= high
    ensures Sum(loads) <= high * |loads|
  {
    if loads != [] {
      SumUpper(loads[1..], high);
    }
  }

  // One load at m and the others at least m - 1 sum to more than m - 1 each.
  lemma {:induction false} LowSum(loads: seq<int>, m: int)
    requires m in loads && forall i :: 0 <= i < |loads| ==> loads[i] >= m - 1
    ensures Sum(loads) > (m - 1) * |loads|
  {
    if loads[0] == m || loads[0] > m {
      SumLower(loads[1..], m - 1);
    } else {
      LowSum(loads[1..], m);
    }
    assert (m - 1) * |loads| == (m - 1) + (m - 1) * |loads[1..]|;
  }

  lemma {:induction false} SumLower(loads: seq<int>, low: int)
    requires forall i :: 0 <= i < |loads| ==> loads[i] >= low
    ensures Sum(loads) >= low * |loads|
  {
    if loads != [] {
      SumLower(loads[1..], low);
    }
  }

  // Every host has the VMs it started with and one for each node scheduled on it.
  predicate Counts(hosts: seq<Host>, now: seq<Host>, schedules: map<string, string>) {
    && Names(now) == Names(hosts)
    && DistinctNames(now)
    && forall h :: h in now ==> h.vms == InitialVMs(hosts, h.name) + |On(schedules, h.name)|
  }

  function InitialVMs(hosts: seq<Host>, name: string): int {
    if Find(hosts, name) == -1 then 0 else hosts[Find(hosts, name)].vms
  }

  lemma OnAdded(schedules: map<string, string>, node: string, host: string)
    requires node !in schedules
    ensures forall h :: |On(schedules[node := host], h)| == |On(schedules, h)| + if h == host then 1 else 0
  {
    forall h
      ensures |On(schedules[node := host], h)| == |On(schedules, h)| + if h == host then 1 else 0
    {
      OnAddedAt(schedules, node, host, h);
    }
  }

  lemma OnAddedAt(schedules: map<string, string>, node: string, host: string, h: string)
    requires node !in schedules
    ensures |On(schedules[node := host], h)| == |On(schedules, h)| + if h == host then 1 else 0
  {
    if h == host {
      assert On(schedules[node := host], h) == On(schedules, h) + {node};
    } else {
      assert On(schedules[node := host], h) == On(schedules, h);
    }
  }

  lemma OnAnyAdded(schedules: map<string, string>, node: string, host: string, hosts: set<string>)
    requires node !in schedules
    ensures |OnAny(schedules[node := host], hosts)| == |OnAny(schedules, hosts)| + if host in hosts then 1 else 0
  {
    if host in hosts {
      assert OnAny(schedules[node := host], hosts) == OnAny(schedules, hosts) + {node};
    } else {
      assert OnAny(schedules[node := host], hosts) == OnAny(schedules, hosts);
    }
  }

  lemma CountsAdded(hosts: seq<Host>, now: seq<Host>, schedules: map<string, string>, node: string, host: string)
    requires Counts(hosts, now, schedules) && node !in schedules
    ensures Counts(hosts, Increase(now, host, VMs, 1), schedules[node := host])
  {
    var next := Increase(now, host, VMs, 1);
    OnAdded(schedules, node, host);
    var k := Find(now, host);
    forall h | h in next
      ensures h.vms == InitialVMs(hosts, h.name) + |On(schedules[node := host], h.name)|
    {
      var i :| 0 <= i < |next| && next[i] == h;
      assert now[i] in now;
      assert now[i].name in Names(now);
      assert i != k ==> h.name != host;
    }
  }

  lemma CountsSorted(hosts: seq<Host>, now: seq<Host>, sorted: seq<Host>, schedules: map<string, string>)
    requires Counts(hosts, now, schedules) && SameHosts(now, sorted)
    ensures Counts(hosts, sorted, schedules)
  {
    SameHostsSameNames(now, sorted);
    SameHostsKeepDistinct(now, sorted);
    SameElements(now, sorted);
  }

  // The hosts, in order, once the entries of done are counted.
  ghost predicate ManualCounted(hosts: seq<Host>, now: seq<Host>, done: map<string, string>) {
    && |now| == |hosts|
    && (forall i :: 0 <= i < |hosts| ==> now[i].name == hosts[i].name)
    && Loads(now, VMs) == WithManual(hosts, done)
    && Sum(Loads(now, VMs)) == Sum(Loads(hosts, VMs)) + |OnAny(done, Names(hosts))|
  }

  lemma SameNamesSameFind(a: seq<Host>, b: seq<Host>, name: string, from: nat)
    requires |a| == |b| && from <= |a| && forall i :: 0 <= i < |a| ==> a[i].name == b[i].name
    ensures FindFrom(a, name, from) == FindFrom(b, name, from)
    decreases |a| - from
  {
    if from < |a| {
      SameNamesSameFind(a, b, name, from + 1);
    }
  }

  lemma SameNames(a: seq<Host>, b: seq<Host>)
    requires |a| == |b| && forall i :: 0 <= i < |a| ==> a[i].name == b[i].name
    ensures Names(a) == Names(b)
  {
    forall n | n in Names(a)
      ensures n in Names(b)
    {
      var i :| 0 <= i < |a| && a[i].name == n;
      assert b[i].name == n;
    }
    forall n | n in Names(b)
      ensures n in Names(a)
    {
      var i :| 0 <= i < |b| && b[i].name == n;
      assert a[i].name == n;
    }
  }

  lemma ManualEntryCounted(hosts: seq<Host>, now: seq<Host>, done: map<string, string>, node: string, host: string)
    requires ManualCounted(hosts, now, done) && node !in done
    ensures ManualCounted(hosts, Increase(now, host, VMs, 1), done[node := host])
  {
    var next, done' := Increase(now, host, VMs, 1), done[node := host];
    OnAdded(done, node, host);
    OnAnyAdded(done, node, host, Names(hosts));
    SameNamesSameFind(now, hosts, host, 0);
    IncreaseSum(now, host, VMs, 1);
    SameNames(hosts, now);
    forall i | 0 <= i < |hosts|
      ensures Loads(next, VMs)[i] == WithManual(hosts, done')[i]
    {
      assert Loads(now, VMs)[i] == WithManual(hosts, done)[i];
    }
    assert Loads(next, VMs) == WithManual(hosts, done');
  }

  lemma ManualCounts(hosts: seq<Host>, now: seq<Host>, done: map<string, string>)
    requires ManualCounted(hosts, now, done) && DistinctNames(hosts)
    ensures Counts(hosts, now, done)
  {
    forall i | 0 <= i < |hosts|
      ensures Find(hosts, hosts[i].name) == i
    {
      assert hosts[Find(hosts, hosts[i].name)].name == hosts[i].name;
    }
    SameNames(hosts, now);
    forall h | h in now
      ensures h.vms == InitialVMs(hosts, h.name) + |On(done, h.name)|
    {
      var i :| 0 <= i < |now| && now[i] == h;
      assert Loads(now, VMs)[i] == WithManual(hosts, done)[i];
    }
  }

  // now are the hosts with their manual and so far placed VMs, and as level as the scheduler keeps them.
  ghost predicate Balanced(hosts: seq<Host>, base: seq<int>, now: seq<Host>, schedules: map<string, string>,
                           placed: nat)
  {
    && |now| == |hosts| == |base|
    && Names(now) == Names(hosts)
    && Sum(Loads(now, VMs)) == Sum(base) + placed
    && (DistinctNames(hosts) ==> Counts(hosts, now, schedules))
    && (hosts != [] ==> Level(Loads(now, VMs), Max(base)))
  }

  lemma BalancedAtFirst(hosts: seq<Host>, now: seq<Host>, schedules: map<string, string>)
    requires ManualCounted(hosts, now, schedules)
    ensures Balanced(hosts, WithManual(hosts, schedules), now, schedules, 0)
  {
    SameNames(hosts, now);
    if DistinctNames(hosts) {
      ManualCounts(hosts, now, schedules);
    }
  }

  lemma BalancedSorted(hosts: seq<Host>, base: seq<int>, now: seq<Host>, sorted: seq<Host>,
                       schedules: map<string, string>, placed: nat)
    requires Balanced(hosts, base, now, schedules, placed) && SameHosts(now, sorted)
    ensures Balanced(hosts, base, sorted, schedules, placed)
  {
    SameHostsSameSize(now, sorted);
    SameHostsSameNames(now, sorted);
    SameHostsSameSum(now, sorted, VMs);
    SameElements(now, sorted);
    if DistinctNames(hosts) {
      CountsSorted(hosts, now, sorted, schedules);
    }
    if hosts != [] {
      SameHostsSameMax(now, sorted, VMs);
      forall i | 0 <= i < |sorted|
        ensures exists j :: 0 <= j < |now| && Loads(now, VMs)[j] == Loads(sorted, VMs)[i]
      {
        assert sorted[i] in now;
        var j :| 0 <= j < |now| && now[j] == sorted[i];
        assert Loads(now, VMs)[j] == Loads(sorted, VMs)[i];
      }
    }
  }

  lemma BalancedPlaced(hosts: seq<Host>, base: seq<int>, now: seq<Host>, schedules: map<string, string>, placed: nat,
                       node: string)
    requires Balanced(hosts, base, now, schedules, placed) && Sorted(now, VMs) && now != [] && node !in schedules
    ensures Balanced(hosts, base, now[0 := now[0].(vms := now[0].vms + 1)], schedules[node := now[0].name], placed + 1)
  {
    var next := now[0 := now[0].(vms := now[0].vms + 1)];
    assert Find(now, now[0].name) == 0;
    assert next == Increase(now, now[0].name, VMs, 1);
    assert now[0].name in Names(now);
    IncreaseSum(now, now[0].name, VMs, 1);
    if DistinctNames(hosts) {
      CountsAdded(hosts, now, schedules, node, now[0].name);
    }
    assert Loads(next, VMs) == Loads(now, VMs)[0 := Loads(now, VMs)[0] + 1];
    LevelAfterPlacing(Loads(now, VMs), Max(base));
  }

  // Exactly the pending nodes got an entry, on hosts of the cluster, and the manual entries are as they were.
  ghost predicate Placed(manual: map<string, string>, pending: set<string>, schedules: map<string, string>,
                         hosts: set<string>)
  {
    && schedules.Keys == manual.Keys + pending
    && (forall n :: n in manual ==> schedules[n] == manual[n])
    && (forall n :: n in pending ==> schedules[n] in hosts)
  }

  // Counts the VMs scheduled by hand. The entries come in no particular order.
  method CountManual(hosts: seq<Host>, schedules: map<string, string>) returns (now: seq<Host>)
    ensures ManualCounted(hosts, now, schedules)
  {
    now := hosts;
    var rest := schedules.Keys;
    ghost var done: map<string, string> := map[];
    assert OnAny(done, Names(hosts)) == {};
    assert Loads(now, VMs) == WithManual(hosts, done) by {
      assert forall h :: On(done, h) == {};
    }
    while rest != {}
      invariant rest <= schedules.Keys && done == map n | n in schedules && n !in rest :: schedules[n]
      invariant ManualCounted(hosts, now, done)
    {
      var node :| node in rest;
      ManualEntryCounted(hosts, now, done, node, schedules[node]);
      if Find(now, schedules[node]) != -1 {
        now := Increase(now, schedules[node], VMs, 1);
      }
      rest := rest - {node};
      done := done[node := schedules[node]];
    }
    assert done == schedules;
  }

  /** Schedules the experiment on the hosts. now is the host slice at the end, with the VM counts it was sorted by. */
  method Schedule(spec: ExperimentSpec, cluster: Option<seq<Host>>) returns (outcome: Outcome, now: seq<Host>)
    modifies spec
    ensures outcome == if spec.nodes == [] then NoNodes
                       else if cluster.None? then NoCluster
                       else if cluster.value == [] && Pending(spec.nodes, old(spec.schedules)) != {} then EmptyCluster
                       else Scheduled
    ensures outcome != Scheduled ==> spec.schedules == old(spec.schedules)
    // Manual placements are kept, and exactly the pending nodes are placed, on hosts of the cluster. The VM counts are
    // the manual ones and one for each placed node, in all and on each host.
    ensures outcome == Scheduled ==>
              Standing(cluster.value, WithManual(cluster.value, old(spec.schedules)), now, old(spec.schedules),
                       Pending(spec.nodes, old(spec.schedules)), spec.schedules,
                       |Pending(spec.nodes, old(spec.schedules))|)
    ensures outcome == Scheduled ==>
              Sum(Loads(now, VMs)) == Sum(Loads(cluster.value, VMs))
              + |OnAny(old(spec.schedules), Names(cluster.value))|
                                      + |Pending(spec.nodes, old(spec.schedules))|
    // No assignment of the pending nodes has a lower maximum.
    ensures outcome == Scheduled && cluster.value != [] ==>
              Optimal(now, WithManual(cluster.value, old(spec.schedules)), |Pending(spec.nodes, old(spec.schedules))|)
  {
    now := [];
    if spec.nodes == [] {
      return NoNodes, now;
    }
    if cluster.None? {
      return NoCluster, now;
    }
    var hosts := cluster.value;
    ghost var manual := spec.schedules;
    ghost var base := WithManual(hosts, manual);
    var counted := CountManual(hosts, spec.schedules);
    BalancedAtFirst(hosts, counted, manual);
    now := Sort(counted, VMs);
    BalancedSorted(hosts, base, counted, now, manual, 0);
    var ok;
    ok, now := PlaceAll(spec, hosts, now, base);
    PendingCounted(spec.nodes, |spec.nodes|, manual);
    outcome := if ok then Scheduled else EmptyCluster;
    if ok && hosts != [] {
      BalancedIsOptimal(hosts, base, now, spec.schedules, |Pending(spec.nodes, manual)|);
    }
  }

  // No assignment of as many nodes to the hosts keeps every host below the maximum of now.
  ghost predicate Optimal(now: seq<Host>, base: seq<int>, placed: nat) {
    && now != [] && base != []
    && forall assignment: seq<nat> ::
         |assignment| == placed && (forall i :: 0 <= i < |assignment| ==> assignment[i] < |base|) ==>
           Max(Loads(now, VMs)) <= Max(Assign(base, assignment))
  }

  lemma BalancedIsOptimal(hosts: seq<Host>, base: seq<int>, now: seq<Host>, schedules: map<string, string>, placed: nat)
    requires Balanced(hosts, base, now, schedules, placed) && hosts != []
    ensures Optimal(now, base, placed)
  {
    forall assignment: seq<nat> |
      |assignment| == placed && forall i :: 0 <= i < |assignment| ==> assignment[i] < |base|
      ensures Max(Loads(now, VMs)) <= Max(Assign(base, assignment))
    {
      LevelIsOptimal(Loads(now, VMs), base, assignment);
    }
  }

  // A node that is external or has an entry is passed by.
  lemma PassedBy(nodes: seq<Node>, i: nat, manual: map<string, string>, schedules: map<string, string>,
                 hosts: set<string>)
    requires i < |nodes| && Placed(manual, PendingAmong(nodes, i, manual), schedules, hosts)
    requires nodes[i].external_ || nodes[i].hostname in schedules
    ensures PendingAmong(nodes, i + 1, manual) == PendingAmong(nodes, i, manual)
    ensures PendingCount(nodes, i + 1, manual) == PendingCount(nodes, i, manual)
  {
    var pending, h := PendingAmong(nodes, i, manual), nodes[i].hostname;
    if !nodes[i].external_ && h !in manual {
      assert h in schedules.Keys && h in pending;
      assert pending + {h} == pending;
    }
  }

  lemma SomePending(nodes: seq<Node>, i: nat, manual: map<string, string>)
    requires i < |nodes| && !nodes[i].external_ && nodes[i].hostname !in manual
    ensures Pending(nodes, manual) != {}
  {
    PendingMeaning(nodes, |nodes|, manual, nodes[i].hostname);
  }

  lemma NextPending(nodes: seq<Node>, i: nat, manual: map<string, string>, schedules: map<string, string>,
                    hosts: set<string>)
    requires i < |nodes| && !nodes[i].external_ && nodes[i].hostname !in schedules
    requires Placed(manual, PendingAmong(nodes, i, manual), schedules, hosts)
    ensures PendingCount(nodes, i + 1, manual) == PendingCount(nodes, i, manual) + 1
    ensures PendingAmong(nodes, i + 1, manual) == With(PendingAmong(nodes, i, manual), nodes[i].hostname)
  {
    assert nodes[i].hostname !in schedules.Keys;
  }

  function With(names: set<string>, n: string): set<string> {
    names + {n}
  }

  lemma PlacedOne(manual: map<string, string>, pending: set<string>, schedules: map<string, string>, hosts: set<string>,
                  n: string, host: string)
    requires Placed(manual, pending, schedules, hosts) && n !in schedules && host in hosts
    ensures Placed(manual, With(pending, n), schedules[n := host], hosts)
  {
    assert n !in schedules.Keys;
  }

  // Where a run of the scheduler stands: which nodes are placed, and the hosts sorted and balanced.
  ghost predicate Standing(hosts: seq<Host>, base: seq<int>, now: seq<Host>, manual: map<string, string>,
                           pending: set<string>, schedules: map<string, string>, placed: nat)
  {
    && Placed(manual, pending, schedules, Names(hosts))
    && Balanced(hosts, base, now, schedules, placed)
    && Sorted(now, VMs)
  }

  // Places a node on the first host, and sorts the hosts again.
  method PlaceNode(spec: ExperimentSpec, hosts: seq<Host>, now: seq<Host>, node: string,
                   ghost base: seq<int>, ghost manual: map<string, string>, ghost pending: set<string>,
                   ghost placed: nat)
    returns (next: seq<Host>)
    requires Standing(hosts, base, now, manual, pending, spec.schedules, placed)
    requires now != [] && node !in spec.schedules
    modifies spec
    ensures Standing(hosts, base, next, manual, With(pending, node), spec.schedules, placed + 1)
  {
    assert now[0].name in Names(now);
    PlacedOne(manual, pending, spec.schedules, Names(hosts), node, now[0].name);
    BalancedPlaced(hosts, base, now, spec.schedules, placed, node);
    spec.schedules := spec.schedules[node := now[0].name];
    var unsorted := now[0 := now[0].(vms := now[0].vms + 1)];
    next := Sort(unsorted, VMs);
    BalancedSorted(hosts, base, unsorted, next, spec.schedules, placed + 1);
  }

  lemma NothingPending(hosts: seq<Host>, base: seq<int>, now: seq<Host>, manual: map<string, string>,
                       schedules: map<string, string>)
    requires Standing(hosts, base, now, manual, {}, schedules, 0)
    ensures schedules == manual
  {
    assert schedules.Keys == manual.Keys;
  }

  // Places each node that has no entry yet. Without a host, the first such node ends the run.
  method PlaceAll(spec: ExperimentSpec, hosts: seq<Host>, sorted: seq<Host>, ghost base: seq<int>)
    returns (ok: bool, now: seq<Host>)
    requires Standing(hosts, base, sorted, spec.schedules, {}, spec.schedules, 0)
    modifies spec
    ensures ok <==> hosts != [] || Pending(spec.nodes, old(spec.schedules)) == {}
    ensures !ok ==> spec.schedules == old(spec.schedules)
    ensures ok ==> Standing(hosts, base, now, old(spec.schedules), Pending(spec.nodes, old(spec.schedules)),
                            spec.schedules,
                            PendingCount(spec.nodes, |spec.nodes|, old(spec.schedules)))
  {
    now := sorted;
    ghost var manual := spec.schedules;
    ghost var pending: set<string> := {};
    var i := 0;
    while i < |spec.nodes|
      invariant 0 <= i <= |spec.nodes| && pending == PendingAmong(spec.nodes, i, manual)
      invariant Standing(hosts, base, now, manual, pending, spec.schedules, PendingCount(spec.nodes, i, manual))
      invariant hosts == [] ==> pending == {}
    {
      var node := spec.nodes[i];
      i := i + 1;
      if node.external_ || node.hostname in spec.schedules {
        PassedBy(spec.nodes, i - 1, manual, spec.schedules, Names(hosts));
        continue;
      }
      if now == [] {
        NothingPending(hosts, base, now, manual, spec.schedules);
        SomePending(spec.nodes, i - 1, manual);
        return false, now;
      }
      NextPending(spec.nodes, i - 1, manual, spec.schedules, Names(hosts));
      now := PlaceNode(spec, hosts, now, node.hostname, base, manual, pending, PendingCount(spec.nodes, i - 1, manual));
      pending := With(pending, node.hostname);
    }
    ok := true;
  }
}
