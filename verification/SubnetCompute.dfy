/**
 The subnet-compute scheduler: nodes whose first interface is on the same VLAN share a host while it has memory to
 spare. The scheduler keeps an index from each VLAN to the hosts that carry it. The index always agrees with the
 schedule, and the memory committed to each host is exactly that of the nodes on it.
 */
module SubnetCompute {
  import opened Wrappers
  import opened Cluster

  datatype Outcome = Scheduled | NoNodes | NoCluster | EmptyCluster | NoInterfaces

  // Where a run stands: the hosts as sorted last, the VLAN index and the schedule.
  datatype State = State(hosts: seq<Host>, vlans: map<string, seq<string>>, schedules: map<string, string>)

  // The first node with the hostname, or -1. With internal, external nodes are passed by.
  function FindNode(nodes: seq<Node>, hostname: string, internal: bool, i: nat := 0): (r: int)
    requires i <= |nodes|
    ensures r != -1 ==> i <= r < |nodes| && nodes[r].hostname == hostname && !(internal && nodes[r].external_)
    ensures forall j :: i <= j < (if r == -1 then |nodes| else r) ==>
              nodes[j].hostname != hostname || (internal && nodes[j].external_)
    decreases |nodes| - i
  {
    if i == |nodes| then -1
    else if nodes[i].hostname == hostname && !(internal && nodes[i].external_) then i
    else FindNode(nodes, hostname, internal, i + 1)
  }

  // The node that an entry of the schedule stands for, or -1. The scheduler itself places internal nodes only.
  function Stands(nodes: seq<Node>, manual: map<string, string>, hostname: string): (r: int)
    ensures r == -1 || (0 <= r < |nodes| && nodes[r].hostname == hostname)
  {
    FindNode(nodes, hostname, hostname !in manual)
  }

  function HostsOn(vlans: map<string, seq<string>>, vlan: string): seq<string> {
    if vlan in vlans then vlans[vlan] else []
  }

  function Appended(vlans: map<string, seq<string>>, vlan: string, host: string): map<string, seq<string>> {
    vlans[vlan := HostsOn(vlans, vlan) + [host]]
  }

  // The node has an entry that puts it on one of the hosts.
  predicate IsOn(nodes: seq<Node>, manual: map<string, string>, schedules: map<string, string>, hosts: set<string>,
                 i: nat)
    requires i < |nodes|
  {
    var n := nodes[i].hostname;
    Stands(nodes, manual, n) == i && n in schedules && schedules[n] in hosts
  }

  // The hosts that carry the VLAN: those of the scheduled nodes whose first interface is on it.
  predicate Carries(nodes: seq<Node>, manual: map<string, string>, schedules: map<string, string>, vlan: string,
                    host: string)
  {
    exists i :: 0 <= i < |nodes| && IsOn(nodes, manual, schedules, {host}, i) && nodes[i].vlans != []
           && nodes[i].vlans[0] == vlan
  }

  // The memory of those of the first k nodes that are on the hosts.
  function MemoryOn(nodes: seq<Node>, manual: map<string, string>, schedules: map<string, string>, hosts: set<string>,
                    k: nat): int
    requires k <= |nodes|
  {
    if k == 0 then 0
    else
      MemoryOn(nodes, manual, schedules, hosts, k - 1)
      + if IsOn(nodes, manual, schedules, hosts, k - 1) then nodes[k - 1].memory else 0
  }

  function CommitOf(hosts: seq<Host>, name: string): int
    requires name in Names(hosts)
  {
    hosts[Find(hosts, name)].memCommit
  }

  predicate HasRoom(hosts: seq<Host>, name: string, memory: int) {
    name in Names(hosts) && hosts[Find(hosts, name)].memCommit + memory < hosts[Find(hosts, name)].memTotal
  }

  /** The VLAN index is exact: it lists a host for a VLAN just when a node scheduled on that host is on the VLAN. */
  ghost predicate IndexAgrees(nodes: seq<Node>, base: seq<Host>, manual: map<string, string>, s: State) {
    forall vlan, host :: host in HostsOn(s.vlans, vlan) <==>
             host in Names(base) && Carries(nodes, manual, s.schedules, vlan, host)
  }

  /** Committed memory has grown by that of the scheduled nodes, in all and on each host. */
  ghost predicate Conserved(nodes: seq<Node>, base: seq<Host>, manual: map<string, string>, s: State) {
    && Names(s.hosts) == Names(base)
    && Sum(Loads(s.hosts, CommittedMem)) == Sum(Loads(base, CommittedMem))
       + MemoryOn(nodes, manual, s.schedules, Names(base), |nodes|)
    && (DistinctNames(base) ==> DistinctNames(s.hosts))
    && (DistinctNames(base) ==> forall h :: h in Names(base) ==>
          CommitOf(s.hosts, h) == CommitOf(base, h) + MemoryOn(nodes, manual, s.schedules, {h}, |nodes|))
  }

  // What holds at every step of a run, once k nodes are behind it.
  ghost predicate Inv(nodes: seq<Node>, base: seq<Host>, manual: map<string, string>, k: nat, s: State)
    requires k <= |nodes|
  {
    && IndexAgrees(nodes, base, manual, s)
    && Conserved(nodes, base, manual, s)
    && Sorted(s.hosts, CommittedMem)
    && (forall n :: n in manual ==> n in s.schedules && s.schedules[n] == manual[n])
    && (forall n :: n in s.schedules && n !in manual ==> s.schedules[n] in Names(base))
    && (forall j :: 0 <= j < k && !nodes[j].external_ ==> nodes[j].hostname in s.schedules)
  }

  // The first of the named hosts that has room.
  function FirstWithRoom(hosts: seq<Host>, names: seq<string>, memory: int): (r: Option<string>)
    ensures r.Some? ==> r.value in names && HasRoom(hosts, r.value, memory)
    ensures r.None? ==> forall n :: n in names ==> !HasRoom(hosts, n, memory)
    decreases |names|
  {
    if names == [] then None
    else if HasRoom(hosts, names[0], memory) then Some(names[0])
    else FirstWithRoom(hosts, names[1..], memory)
  }

  predicate PassedBy(s: State, node: Node) {
    node.external_ || node.hostname in s.schedules
  }

  // The host for the node: one that carries its VLAN and has room, or the least committed one.
  function Choice(s: State, node: Node): string
    requires node.vlans != [] && s.hosts != []
  {
    var fit := FirstWithRoom(s.hosts, HostsOn(s.vlans, node.vlans[0]), node.memory);
    if fit.Some? then fit.value else s.hosts[0].name
  }

  function Listed(s: State, node: Node): map<string, seq<string>>
    requires node.vlans != [] && s.hosts != []
  {
    var on := HostsOn(s.vlans, node.vlans[0]);
    if FirstWithRoom(s.hosts, on, node.memory).Some? then s.vlans
    else Appended(s.vlans, node.vlans[0], s.hosts[0].name)
  }

  // One round of the scheduler's loop.
  ghost predicate Step(s: State, node: Node, t: State) {
    if PassedBy(s, node) then t == s
    else
      && node.vlans != [] && s.hosts != []
      && t.vlans == Listed(s, node)
      && t.schedules == s.schedules[node.hostname := Choice(s, node)]
      && SameHosts(Increase(s.hosts, Choice(s, node), CommittedMem, node.memory), t.hosts)
      && Sorted(t.hosts, CommittedMem)
  }

  // A run over the first nodes: the states before and after each of them.
  ghost predicate Run(nodes: seq<Node>, trace: seq<State>) {
    && 1 <= |trace| <= |nodes| + 1
    && forall i :: 0 <= i < |trace| - 1 ==> Step(trace[i], nodes[i], trace[i + 1])
  }

  // Adding an entry for node i puts that node, and no other, on its host.
  lemma IsOnAfter(nodes: seq<Node>, manual: map<string, string>, schedules: map<string, string>, hosts: set<string>,
                  n: string, host: string, j: nat)
    requires n !in schedules && j < |nodes|
    ensures IsOn(nodes, manual, schedules[n := host], hosts, j) <==>
            IsOn(nodes, manual, schedules, hosts, j) || (j == Stands(nodes, manual, n) && host in hosts)
  {
  }

  lemma {:induction false} MemoryAfter(nodes: seq<Node>, manual: map<string, string>, schedules: map<string, string>,
                                       hosts: set<string>, n: string, host: string, k: nat)
    requires n !in schedules && k <= |nodes|
    ensures MemoryOn(nodes, manual, schedules[n := host], hosts, k) ==
            MemoryOn(nodes, manual, schedules, hosts, k)
            + if 0 <= Stands(nodes, manual, n) < k && host in hosts then nodes[Stands(nodes, manual, n)].memory else 0
  {
    if k > 0 {
      MemoryAfter(nodes, manual, schedules, hosts, n, host, k - 1);
      IsOnAfter(nodes, manual, schedules, hosts, n, host, k - 1);
    }
  }

  lemma CarriesAfter(nodes: seq<Node>, manual: map<string, string>, schedules: map<string, string>, n: string,
                     host: string, vlan: string, other: string)
    requires n !in schedules && Stands(nodes, manual, n) != -1 && nodes[Stands(nodes, manual, n)].vlans != []
    ensures Carries(nodes, manual, schedules[n := host], vlan, other) <==>
            Carries(nodes, manual, schedules, vlan, other)
            || (other == host && vlan == nodes[Stands(nodes, manual, n)].vlans[0])
  {
    var i := Stands(nodes, manual, n);
    forall j | 0 <= j < |nodes|
      ensures IsOn(nodes, manual, schedules[n := host], {other}, j) <==>
              IsOn(nodes, manual, schedules, {other}, j) || (j == i && host == other)
    {
      IsOnAfter(nodes, manual, schedules, {other}, n, host, j);
    }
    if other == host && vlan == nodes[i].vlans[0] {
      assert IsOn(nodes, manual, schedules[n := host], {other}, i);
    }
  }

  // An entry that stands for no node changes nothing, and neither does one whose host is not in the cluster.
  lemma UncountedEntry(nodes: seq<Node>, manual: map<string, string>, schedules: map<string, string>, n: string,
                       host: string, vlan: string, other: string)
    requires n !in schedules && (Stands(nodes, manual, n) == -1 || other != host)
    ensures Carries(nodes, manual, schedules[n := host], vlan, other) <==>
              Carries(nodes, manual, schedules, vlan, other)
  {
    forall j | 0 <= j < |nodes|
      ensures IsOn(nodes, manual, schedules[n := host], {other}, j) <==> IsOn(nodes, manual, schedules, {other}, j)
    {
      IsOnAfter(nodes, manual, schedules, {other}, n, host, j);
    }
  }

  lemma FindKept(a: seq<Host>, b: seq<Host>, name: string)
    requires SameHosts(a, b) && DistinctNames(a) && name in Names(a)
    ensures name in Names(b) && CommitOf(a, name) == CommitOf(b, name)
  {
    SameHostsSameNames(a, b);
    SameHostsKeepDistinct(a, b);
    SameElements(a, b);
    assert a[Find(a, name)] in b;
  }

  lemma CommitIncreased(hosts: seq<Host>, name: string, memory: int, h: string)
    requires DistinctNames(hosts) && h in Names(hosts)
    ensures DistinctNames(Increase(hosts, name, CommittedMem, memory))
    ensures CommitOf(Increase(hosts, name, CommittedMem, memory), h) ==
            CommitOf(hosts, h) + if h == name then memory else 0
  {
    var r := Increase(hosts, name, CommittedMem, memory);
    assert r[Find(r, h)].name == h && r[Find(hosts, h)].name == h;
  }

  /** Counting an entry on its host keeps the memory conserved. */
  lemma ConservedAfter(nodes: seq<Node>, base: seq<Host>, manual: map<string, string>, s: State, n: string,
                       host: string, t: State)
    requires Conserved(nodes, base, manual, s) && n !in s.schedules && t.schedules == s.schedules[n := host]
    requires Stands(nodes, manual, n) != -1 && host in Names(base)
    requires SameHosts(Increase(s.hosts, host, CommittedMem, nodes[Stands(nodes, manual, n)].memory), t.hosts)
    ensures Conserved(nodes, base, manual, t)
  {
    var memory := nodes[Stands(nodes, manual, n)].memory;
    var more := Increase(s.hosts, host, CommittedMem, memory);
    IncreaseSum(s.hosts, host, CommittedMem, memory);
    SameHostsSameSum(more, t.hosts, CommittedMem);
    SameHostsSameNames(more, t.hosts);
    MemoryAfter(nodes, manual, s.schedules, Names(base), n, host, |nodes|);
    if DistinctNames(base) {
      assert DistinctNames(more);
      SameHostsKeepDistinct(more, t.hosts);
      forall h | h in Names(base)
        ensures CommitOf(t.hosts, h) == CommitOf(base, h) + MemoryOn(nodes, manual, t.schedules, {h}, |nodes|)
      {
        CommitIncreased(s.hosts, host, memory, h);
        FindKept(more, t.hosts, h);
        MemoryAfter(nodes, manual, s.schedules, {h}, n, host, |nodes|);
      }
    }
  }

  // The node that a round places is the one its entry stands for.
  lemma PlacedStands(nodes: seq<Node>, base: seq<Host>, manual: map<string, string>, k: nat, s: State)
    requires k < |nodes| && Inv(nodes, base, manual, k, s) && !PassedBy(s, nodes[k])
    ensures Stands(nodes, manual, nodes[k].hostname) == k
  {
  }

  lemma ChoiceIsAHost(s: State, node: Node)
    requires node.vlans != [] && s.hosts != []
    ensures Choice(s, node) in Names(s.hosts)
  {
    assert s.hosts[0].name in Names(s.hosts);
  }

  lemma ListedAgrees(s: State, node: Node, vlan: string, host: string)
    requires node.vlans != [] && s.hosts != []
    ensures host in HostsOn(Listed(s, node), vlan) <==>
            host in HostsOn(s.vlans, vlan) || (host == Choice(s, node) && vlan == node.vlans[0])
  {
  }

  /** Every round keeps the index exact and the memory conserved. */
  lemma StepKeepsInv(nodes: seq<Node>, base: seq<Host>, manual: map<string, string>, k: nat, s: State, t: State)
    requires k < |nodes| && Inv(nodes, base, manual, k, s) && Step(s, nodes[k], t)
    ensures Inv(nodes, base, manual, k + 1, t)
  {
    if !PassedBy(s, nodes[k]) {
      var node := nodes[k];
      var host := Choice(s, node);
      PlacedStands(nodes, base, manual, k, s);
      ChoiceIsAHost(s, node);
      ConservedAfter(nodes, base, manual, s, node.hostname, host, t);
      forall vlan, other
        ensures other in HostsOn(t.vlans, vlan) <==>
                  other in Names(base) && Carries(nodes, manual, t.schedules, vlan, other)
      {
        ListedAgrees(s, node, vlan, other);
        CarriesAfter(nodes, manual, s.schedules, node.hostname, host, vlan, other);
      }
    }
  }

  /** Over a whole run, the index is exact and the memory conserved at every state. */
  lemma {:induction false} RunKeepsInv(nodes: seq<Node>, base: seq<Host>, manual: map<string, string>,
                                       trace: seq<State>, k: nat)
    requires Run(nodes, trace) && k < |trace| && Inv(nodes, base, manual, 0, trace[0])
    ensures Inv(nodes, base, manual, k, trace[k])
  {
    if k > 0 {
      RunKeepsInv(nodes, base, manual, trace, k - 1);
      StepKeepsInv(nodes, base, manual, k - 1, trace[k - 1], trace[k]);
    }
  }

  // One of the hosts has the name, and has the memory and more to spare.
  predicate Fits(hosts: seq<Host>, name: string, memory: int) {
    exists j :: 0 <= j < |hosts| && hosts[j].name == name && hosts[j].memCommit + memory < hosts[j].memTotal
  }

  lemma FitsIff(hosts: seq<Host>, name: string, memory: int)
    requires DistinctNames(hosts)
    ensures HasRoom(hosts, name, memory) <==> Fits(hosts, name, memory)
  {
  }

  // The host is the first of the names that fits.
  predicate IsFirstFit(hosts: seq<Host>, names: seq<string>, memory: int, host: string) {
    exists i :: 0 <= i < |names| && names[i] == host && Fits(hosts, host, memory)
                && forall j :: 0 <= j < i ==> !Fits(hosts, names[j], memory)
  }

  predicate NoneFits(hosts: seq<Host>, names: seq<string>, memory: int) {
    forall i :: 0 <= i < |names| ==> !Fits(hosts, names[i], memory)
  }

  lemma {:induction false} FirstFit(hosts: seq<Host>, names: seq<string>, memory: int)
    requires DistinctNames(hosts)
    ensures match FirstWithRoom(hosts, names, memory)
            case Some(host) => IsFirstFit(hosts, names, memory, host)
            case None => NoneFits(hosts, names, memory)
    decreases |names|
  {
    if names != [] {
      FitsIff(hosts, names[0], memory);
      FirstFit(hosts, names[1..], memory);
      if !HasRoom(hosts, names[0], memory) && FirstWithRoom(hosts, names, memory).Some? {
        var host := FirstWithRoom(hosts, names, memory).value;
        var i :| 0 <= i < |names[1..]| && names[1..][i] == host
                 && forall j :: 0 <= j < i ==> !Fits(hosts, names[1..][j], memory);
        assert names[i + 1] == host;
        forall j | 0 <= j < i + 1
          ensures !Fits(hosts, names[j], memory)
        {
          assert j > 0 ==> names[j] == names[1..][j - 1];
        }
      } else if FirstWithRoom(hosts, names, memory).None? {
        forall i | 0 <= i < |names|
          ensures !Fits(hosts, names[i], memory)
        {
          assert i > 0 ==> names[i] == names[1..][i - 1];
        }
      }
    }
  }

  /**
   Which host a placement of a run takes: the first one listed for the VLAN that fits, and then the index stays. If none
   fits, it is the first of the sorted hosts, and the VLAN lists it last from then on. The lists of other VLANs stay.
   */
  lemma PlacementInOrder(nodes: seq<Node>, base: seq<Host>, manual: map<string, string>, trace: seq<State>, k: nat)
    requires Run(nodes, trace) && k < |trace| - 1 && Inv(nodes, base, manual, 0, trace[0])
    requires DistinctNames(base) && !nodes[k].external_ && nodes[k].hostname !in trace[k].schedules
    ensures var s, t, node := trace[k], trace[k + 1], nodes[k];
            && node.vlans != [] && s.hosts != [] && node.hostname in t.schedules
            && var vlan, host := node.vlans[0], t.schedules[node.hostname];
               var on := if vlan in s.vlans then s.vlans[vlan] else [];
               && t.schedules == s.schedules[node.hostname := host]
               && (IsFirstFit(s.hosts, on, node.memory, host)
                   || (NoneFits(s.hosts, on, node.memory) && host == s.hosts[0].name))
               && t.vlans == if NoneFits(s.hosts, on, node.memory) then s.vlans[vlan := on + [host]] else s.vlans
  {
    RunKeepsInv(nodes, base, manual, trace, k);
    var s, node := trace[k], nodes[k];
    assert Step(s, node, trace[k + 1]);
    FirstFit(s.hosts, HostsOn(s.vlans, node.vlans[0]), node.memory);
  }

  /** The nodes that a run passes by: external ones, and those that have an entry. For these nothing changes at all. */
  lemma PassedByIff(nodes: seq<Node>, trace: seq<State>, k: nat)
    requires Run(nodes, trace) && k < |trace| - 1
    ensures trace[k + 1].schedules == trace[k].schedules <==>
            nodes[k].external_ || nodes[k].hostname in trace[k].schedules
    ensures nodes[k].external_ || nodes[k].hostname in trace[k].schedules ==> trace[k + 1] == trace[k]
  {
    var s, t, node := trace[k], trace[k + 1], nodes[k];
    if !PassedBy(s, node) {
      assert node.hostname in t.schedules;
    }
  }

  /**
   What each placement of a run means: as long as some host that carries the node's VLAN has room, the node goes to such
   a host, whose committed memory stays below its total. Otherwise it goes to a host with the least committed memory of
   all.
   */
  lemma PlacementMeaning(nodes: seq<Node>, base: seq<Host>, manual: map<string, string>, trace: seq<State>, k: nat)
    requires Run(nodes, trace) && k < |trace| - 1 && Inv(nodes, base, manual, 0, trace[0])
    requires DistinctNames(base) && !PassedBy(trace[k], nodes[k])
    ensures var s, t, node := trace[k], trace[k + 1], nodes[k];
            && node.vlans != [] && node.hostname in t.schedules && t.schedules[node.hostname] in Names(t.hosts)
            && var host := t.schedules[node.hostname];
            if exists h :: Carries(nodes, manual, s.schedules, node.vlans[0], h) && HasRoom(s.hosts, h, node.memory)
            then Carries(nodes, manual, s.schedules, node.vlans[0], host)
                 && CommitOf(t.hosts, host) < t.hosts[Find(t.hosts, host)].memTotal
            else forall j :: 0 <= j < |s.hosts| ==> CommitOf(t.hosts, host) - node.memory <= s.hosts[j].memCommit
  {
    RunKeepsInv(nodes, base, manual, trace, k);
    ChoiceMeaning(nodes, base, manual, k, trace[k], trace[k + 1]);
    ChosenCommit(trace[k], nodes[k], trace[k + 1]);
  }

  // The choice is a host that carries the VLAN and has room, if there is one, and the least committed host otherwise.
  lemma ChoiceMeaning(nodes: seq<Node>, base: seq<Host>, manual: map<string, string>, k: nat, s: State, t: State)
    requires k < |nodes| && Inv(nodes, base, manual, k, s) && Step(s, nodes[k], t) && !PassedBy(s, nodes[k])
    ensures var node, host := nodes[k], Choice(s, nodes[k]);
            if exists h :: Carries(nodes, manual, s.schedules, node.vlans[0], h) && HasRoom(s.hosts, h, node.memory)
            then Carries(nodes, manual, s.schedules, node.vlans[0], host) && HasRoom(s.hosts, host, node.memory)
            else host == s.hosts[0].name
  {
    var node := nodes[k];
    assert Names(s.hosts) == Names(base);
    var on := HostsOn(s.vlans, node.vlans[0]);
    assert forall h :: h in on <==> h in Names(s.hosts) && Carries(nodes, manual, s.schedules, node.vlans[0], h);
  }

  // What the placement does to the chosen host.
  lemma ChosenCommit(s: State, node: Node, t: State)
    requires Step(s, node, t) && !PassedBy(s, node) && DistinctNames(s.hosts)
    ensures var host := Choice(s, node);
            && host in Names(s.hosts) && host in Names(t.hosts)
            && CommitOf(t.hosts, host) == CommitOf(s.hosts, host) + node.memory
            && t.hosts[Find(t.hosts, host)].memTotal == s.hosts[Find(s.hosts, host)].memTotal
            && (host == s.hosts[0].name ==> Find(s.hosts, host) == 0)
  {
    var host := Choice(s, node);
    ChoiceIsAHost(s, node);
    CommitIncreased(s.hosts, host, node.memory, host);
    FindKept(Increase(s.hosts, host, CommittedMem, node.memory), t.hosts, host);
    TotalKept(s.hosts, t.hosts, host, node.memory);
  }

  lemma TotalKept(hosts: seq<Host>, next: seq<Host>, name: string, memory: int)
    requires DistinctNames(hosts) && name in Names(hosts)
             && SameHosts(Increase(hosts, name, CommittedMem, memory), next)
    ensures name in Names(next) && next[Find(next, name)].memTotal == hosts[Find(hosts, name)].memTotal
  {
    var more := Increase(hosts, name, CommittedMem, memory);
    SameHostsSameNames(more, next);
    SameElements(more, next);
    SameHostsKeepDistinct(more, next);
    assert more[Find(hosts, name)] in next;
  }

  // The entry was made by hand, for a node and a host that exist.
  predicate Counts(nodes: seq<Node>, hosts: seq<Host>, manual: map<string, string>, n: string) {
    n in manual && manual[n] in Names(hosts) && Stands(nodes, manual, n) != -1
  }

  // A counted entry is for a node without an interface.
  predicate Detached(nodes: seq<Node>, hosts: seq<Host>, manual: map<string, string>) {
    exists n :: n in manual && Counts(nodes, hosts, manual, n) && nodes[Stands(nodes, manual, n)].vlans == []
  }

  lemma {:induction false} NothingOn(nodes: seq<Node>, manual: map<string, string>, hosts: set<string>, k: nat)
    requires k <= |nodes|
    ensures MemoryOn(nodes, manual, map[], hosts, k) == 0
  {
    if k > 0 {
      NothingOn(nodes, manual, hosts, k - 1);
    }
  }

  ghost predicate Counted(nodes: seq<Node>, base: seq<Host>, manual: map<string, string>, s: State) {
    IndexAgrees(nodes, base, manual, s) && Conserved(nodes, base, manual, s)
  }

  lemma CountedAtFirst(nodes: seq<Node>, base: seq<Host>, manual: map<string, string>)
    ensures Counted(nodes, base, manual, State(base, map[], map[]))
  {
    NothingOn(nodes, manual, Names(base), |nodes|);
    forall h
      ensures MemoryOn(nodes, manual, map[], {h}, |nodes|) == 0
    {
      NothingOn(nodes, manual, {h}, |nodes|);
    }
  }

  lemma SkippedEntry(nodes: seq<Node>, base: seq<Host>, manual: map<string, string>, s: State, n: string, t: State)
    requires Counted(nodes, base, manual, s) && n in manual && n !in s.schedules && !Counts(nodes, base, manual, n)
    requires t == s.(schedules := s.schedules[n := manual[n]])
    ensures Counted(nodes, base, manual, t)
  {
    MemoryAfter(nodes, manual, s.schedules, Names(base), n, manual[n], |nodes|);
    forall h | h in Names(base)
      ensures MemoryOn(nodes, manual, t.schedules, {h}, |nodes|) == MemoryOn(nodes, manual, s.schedules, {h}, |nodes|)
    {
      MemoryAfter(nodes, manual, s.schedules, {h}, n, manual[n], |nodes|);
    }
    forall vlan, other | other in Names(base)
      ensures Carries(nodes, manual, t.schedules, vlan, other) <==> Carries(nodes, manual, s.schedules, vlan, other)
    {
      UncountedEntry(nodes, manual, s.schedules, n, manual[n], vlan, other);
    }
  }

  lemma CountedEntry(nodes: seq<Node>, base: seq<Host>, manual: map<string, string>, s: State, n: string, t: State)
    requires Counted(nodes, base, manual, s) && n !in s.schedules && Counts(nodes, base, manual, n)
    requires var node := nodes[Stands(nodes, manual, n)];
             && node.vlans != []
             && t == State(Increase(s.hosts, manual[n], CommittedMem, node.memory),
                           Appended(s.vlans, node.vlans[0], manual[n]),
                           s.schedules[n := manual[n]])
    ensures Counted(nodes, base, manual, t)
  {
    ConservedAfter(nodes, base, manual, s, n, manual[n], t);
    forall vlan, other
      ensures other in HostsOn(t.vlans, vlan) <==>
                other in Names(base) && Carries(nodes, manual, t.schedules, vlan, other)
    {
      CarriesAfter(nodes, manual, s.schedules, n, manual[n], vlan, other);
    }
  }

  // Counts the memory and the VLANs of the nodes scheduled by hand. The entries come in no particular order.
  method CountManual(nodes: seq<Node>, hosts: seq<Host>, schedules: map<string, string>)
    returns (ok: bool, now: seq<Host>, vlans: map<string, seq<string>>)
    ensures ok <==> !Detached(nodes, hosts, schedules)
    ensures ok ==> Counted(nodes, hosts, schedules, State(now, vlans, schedules))
  {
    now, vlans := hosts, map[];
    var rest := schedules.Keys;
    ghost var s := State(hosts, map[], map[]);
    CountedAtFirst(nodes, hosts, schedules);
    while rest != {}
      invariant rest <= schedules.Keys && s == State(now, vlans, s.schedules)
      invariant s.schedules == map n | n in schedules && n !in rest :: schedules[n]
      invariant Counted(nodes, hosts, schedules, s)
      invariant forall n :: n in s.schedules && Counts(nodes, hosts, schedules, n) ==>
                  nodes[Stands(nodes, schedules, n)].vlans != []
    {
      var name :| name in rest;
      var host := schedules[name];
      ghost var before := s;
      var i := FindNode(nodes, name, false);
      if Find(now, host) != -1 && i != -1 {
        var node := nodes[i];
        assert Counts(nodes, hosts, schedules, name);
        if node.vlans == [] {
          return false, now, vlans;
        }
        now, vlans := Increase(now, host, CommittedMem, node.memory), Appended(vlans, node.vlans[0], host);
        s := State(now, vlans, s.schedules[name := host]);
        CountedEntry(nodes, hosts, schedules, before, name, s);
      } else {
        s := s.(schedules := s.schedules[name := host]);
        SkippedEntry(nodes, hosts, schedules, before, name, s);
      }
      rest := rest - {name};
    }
    assert s.schedules == schedules;
    ok := true;
  }

  lemma CountedThenSorted(nodes: seq<Node>, base: seq<Host>, manual: map<string, string>, s: State, t: State)
    requires Counted(nodes, base, manual, s) && s.schedules == manual
    requires SameHosts(s.hosts, t.hosts) && Sorted(t.hosts, CommittedMem) && t == s.(hosts := t.hosts)
    ensures Inv(nodes, base, manual, 0, t)
  {
    SameHostsSameSum(s.hosts, t.hosts, CommittedMem);
    SameHostsSameNames(s.hosts, t.hosts);
    if DistinctNames(base) {
      SameHostsKeepDistinct(s.hosts, t.hosts);
      forall h | h in Names(base)
        ensures CommitOf(t.hosts, h) == CommitOf(s.hosts, h)
      {
        FindKept(s.hosts, t.hosts, h);
      }
    }
  }

  // The first host listed for the VLAN that has room.
  method FindRoom(hosts: seq<Host>, names: seq<string>, memory: int) returns (fit: Option<string>)
    ensures fit == FirstWithRoom(hosts, names, memory)
  {
    var i := 0;
    while i < |names|
      invariant 0 <= i <= |names|
      invariant FirstWithRoom(hosts, names, memory) == FirstWithRoom(hosts, names[i..], memory)
    {
      var j := Find(hosts, names[i]);
      if j != -1 && hosts[j].memCommit + memory < hosts[j].memTotal {
        return Some(names[i]);
      }
      assert names[i..][1..] == names[i + 1..];
      i := i + 1;
    }
    fit := None;
  }

  // Why a run stopped before node k, if it did.
  predicate StopsAt(s: State, nodes: seq<Node>, k: nat, outcome: Outcome) {
    if outcome == NoInterfaces then k < |nodes| && !PassedBy(s, nodes[k]) && nodes[k].vlans == []
    else if outcome == EmptyCluster then k < |nodes| && !PassedBy(s, nodes[k]) && nodes[k].vlans != [] && s.hosts == []
    else outcome == Scheduled && k == |nodes|
  }

  /**
   Schedules the experiment on the hosts. The trace has the state after each node that the run got past. An error leaves
   the placements made before it in the experiment.
   */
  method Schedule(spec: ExperimentSpec, cluster: Option<seq<Host>>) returns (outcome: Outcome, ghost trace: seq<State>)
    modifies spec
    ensures spec.nodes == [] <==> outcome == NoNodes
    ensures spec.nodes != [] && cluster.None? <==> outcome == NoCluster
    ensures spec.nodes == [] || cluster.None? || Detached(spec.nodes, cluster.value, old(spec.schedules)) ==>
              spec.schedules == old(spec.schedules)
    ensures spec.nodes != [] && cluster.Some? && Detached(spec.nodes, cluster.value, old(spec.schedules)) ==>
              outcome == NoInterfaces
    ensures spec.nodes != [] && cluster.Some? && !Detached(spec.nodes, cluster.value, old(spec.schedules)) ==>
              && Run(spec.nodes, trace)
              && Inv(spec.nodes, cluster.value, old(spec.schedules), 0, trace[0])
              && Inv(spec.nodes, cluster.value, old(spec.schedules), |trace| - 1, trace[|trace| - 1])
              && trace[0].schedules == old(spec.schedules)
              && trace[|trace| - 1].schedules == spec.schedules
              && StopsAt(trace[|trace| - 1], spec.nodes, |trace| - 1, outcome)
  {
    trace := [];
    if spec.nodes == [] {
      return NoNodes, trace;
    }
    if cluster.None? {
      return NoCluster, trace;
    }
    var ok, now, vlans := CountManual(spec.nodes, cluster.value, spec.schedules);
    if !ok {
      return NoInterfaces, trace;
    }
    var sorted := Sort(now, CommittedMem);
    CountedThenSorted(spec.nodes, cluster.value, spec.schedules, State(now, vlans, spec.schedules),
                      State(sorted, vlans, spec.schedules));
    outcome, trace := PlaceAll(spec, cluster.value, sorted, vlans);
  }

  lemma RunWith(nodes: seq<Node>, base: seq<Host>, manual: map<string, string>, trace: seq<State>, t: State)
    requires Run(nodes, trace) && |trace| <= |nodes| && Step(trace[|trace| - 1], nodes[|trace| - 1], t)
    requires Inv(nodes, base, manual, |trace| - 1, trace[|trace| - 1])
    ensures Run(nodes, trace + [t]) && (trace + [t])[0] == trace[0] && (trace + [t])[|trace|] == t
    ensures Inv(nodes, base, manual, |trace|, t)
  {
    StepKeepsInv(nodes, base, manual, |trace| - 1, trace[|trace| - 1], t);
  }

  // Places each node that has no entry yet.
  method PlaceAll(spec: ExperimentSpec, ghost base: seq<Host>, sorted: seq<Host>, index: map<string, seq<string>>)
    returns (outcome: Outcome, ghost trace: seq<State>)
    requires Inv(spec.nodes, base, spec.schedules, 0, State(sorted, index, spec.schedules))
    modifies spec
    ensures Run(spec.nodes, trace) && trace[0] == State(sorted, index, old(spec.schedules))
    ensures Inv(spec.nodes, base, old(spec.schedules), |trace| - 1, trace[|trace| - 1])
    ensures trace[|trace| - 1].schedules == spec.schedules
    ensures StopsAt(trace[|trace| - 1], spec.nodes, |trace| - 1, outcome)
  {
    var now, vlans := sorted, index;
    ghost var manual := spec.schedules;
    trace := [State(now, vlans, spec.schedules)];
    var i := 0;
    while i < |spec.nodes|
      invariant 0 <= i <= |spec.nodes| && |trace| == i + 1
      invariant Run(spec.nodes, trace) && trace[0] == State(sorted, index, manual)
      invariant trace[i] == State(now, vlans, spec.schedules)
      invariant Inv(spec.nodes, base, manual, i, trace[i])
    {
      var node := spec.nodes[i];
      if !node.external_ && node.hostname !in spec.schedules {
        if node.vlans == [] {
          return NoInterfaces, trace;
        }
        if now == [] {
          return EmptyCluster, trace;
        }
        now, vlans := PlaceNode(spec, now, vlans, node);
      }
      RunWith(spec.nodes, base, manual, trace, State(now, vlans, spec.schedules));
      trace := trace + [State(now, vlans, spec.schedules)];
      i := i + 1;
    }
    outcome := Scheduled;
  }

  // Places one node, and sorts the hosts again.
  method PlaceNode(spec: ExperimentSpec, now: seq<Host>, vlans: map<string, seq<string>>, node: Node)
    returns (next: seq<Host>, index: map<string, seq<string>>)
    requires node.vlans != [] && now != [] && !PassedBy(State(now, vlans, spec.schedules), node)
    modifies spec
    ensures Step(State(now, vlans, old(spec.schedules)), node, State(next, index, spec.schedules))
  {
    index := vlans;
    var vlan := node.vlans[0];
    var scheduled := None;
    if vlan in vlans {
      scheduled := FindRoom(now, vlans[vlan], node.memory);
    }
    if scheduled == None {
      scheduled := Some(now[0].name);
      index := Appended(vlans, vlan, now[0].name);
    }
    spec.schedules := spec.schedules[node.hostname := scheduled.value];
    var more := Increase(now, scheduled.value, CommittedMem, node.memory);
    next := Sort(more, CommittedMem);
  }
}
