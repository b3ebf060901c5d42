/**
 The pre-shared keys of IPSec sites. The routers of an experiment share one table, so the two ends of a tunnel get the
 same key, whichever is configured first.
 */
module IPSecKeys {
  // A site of a router. An empty key asks for one from the table.
  datatype Site = Site(local: string, remote: string, key: string)

  // The table, and how many secrets were generated for it.
  datatype Table = Table(keys: map<string, string>, drawn: nat)

  function Joined(a: string, b: string): string {
    a + "-" + b
  }

  // The table after a look-up, and the key it gave.
  function KeyFor(t: Table, secret: nat -> string, site: Site): (Table, string) {
    if Joined(site.local, site.remote) in t.keys then (t, t.keys[Joined(site.local, site.remote)])
    else
      var k := Joined(site.remote, site.local);
      if k in t.keys then (t, t.keys[k])
      else (Table(t.keys[k := secret(t.drawn)], t.drawn + 1), secret(t.drawn))
  }

  function AfterSite(t: Table, secret: nat -> string, site: Site): Table {
    if site.key == "" then KeyFor(t, secret, site).0 else t
  }

  function WithKey(t: Table, secret: nat -> string, site: Site): Site {
    if site.key == "" then site.(key := KeyFor(t, secret, site).1) else site
  }

  // The table after the first n sites of a history, of whichever routers.
  function After(t: Table, secret: nat -> string, sites: seq<Site>, n: nat): Table
    requires n <= |sites|
  {
    if n == 0 then t else AfterSite(After(t, secret, sites, n - 1), secret, sites[n - 1])
  }

  // The key that the site at place i of a history ends with.
  function KeyAt(t: Table, secret: nat -> string, sites: seq<Site>, i: nat): string
    requires i < |sites|
  {
    WithKey(After(t, secret, sites, i), secret, sites[i]).key
  }

  // The sites once the first n of them have their keys.
  function Keyed(t: Table, secret: nat -> string, sites: seq<Site>, n: nat): (keyed: seq<Site>)
    requires n <= |sites|
    ensures |keyed| == |sites| && keyed[n..] == sites[n..]
  {
    if n == 0 then sites
    else Keyed(t, secret, sites, n - 1)[n - 1 := WithKey(After(t, secret, sites, n - 1), secret, sites[n - 1])]
  }

  // Each site ends with its key.
  lemma {:induction false} KeyedAt(t: Table, secret: nat -> string, sites: seq<Site>, n: nat, i: nat)
    requires i < n <= |sites|
    ensures Keyed(t, secret, sites, n)[i] == sites[i].(key := KeyAt(t, secret, sites, i))
    decreases n
  {
    if i < n - 1 {
      KeyedAt(t, secret, sites, n - 1, i);
    }
  }

  /**
   A site with a key of its own keeps it, and takes none from the table. Any other gets one, and nothing else changes.
   */
  lemma OwnKeyStays(t: Table, secret: nat -> string, site: Site)
    ensures site.key != "" ==> WithKey(t, secret, site) == site && AfterSite(t, secret, site) == t
    ensures WithKey(t, secret, site).local == site.local && WithKey(t, secret, site).remote == site.remote
  {
  }

  /**
   What a site without a key gets: the entry of its addresses joined by a dash, or else of the same the other way round.
   If the table has neither, it is the next secret, which the table then has under the latter.
   */
  lemma KeyMeaning(t: Table, secret: nat -> string, site: Site)
    requires site.key == ""
    ensures var there, back := site.local + "-" + site.remote, site.remote + "-" + site.local;
            var key, after := WithKey(t, secret, site).key, AfterSite(t, secret, site);
            && (there in t.keys ==> key == t.keys[there] && after == t)
            && (there !in t.keys && back in t.keys ==> key == t.keys[back] && after == t)
            && (there !in t.keys && back !in t.keys ==>
                  && key == secret(t.drawn) && after.drawn == t.drawn + 1
                  && after.keys == t.keys[back := key])
  {
  }

  predicate NoDash(address: string) {
    '-' !in address
  }

  lemma {:induction false} JoinedOnce(a: string, b: string, c: string, d: string)
    requires NoDash(a) && NoDash(b) && Joined(a, b) == Joined(c, d)
    ensures a == c && b == d
  {
    var s := Joined(a, b);
    assert s[|a|] == '-' && Joined(c, d)[|c|] == '-';
    assert forall i :: 0 <= i < |s| && i != |a| ==> s[i] != '-' by {
      assert forall i :: 0 <= i < |a| ==> s[i] == a[i];
      assert forall i :: |a| < i < |s| ==> s[i] == b[i - |a| - 1];
    }
    assert |c| == |a|;
    assert s[..|a|] == a && Joined(c, d)[..|c|] == c;
    assert s[|a| + 1..] == b && Joined(c, d)[|c| + 1..] == d;
  }

  // The table holds a key for at most one order of two addresses, and different entries hold different secrets.
  ghost predicate Inv(t: Table, secret: nat -> string) {
    && (forall a, b :: NoDash(a) && NoDash(b) && a != b ==> !(Joined(a, b) in t.keys && Joined(b, a) in t.keys))
    && (forall k :: k in t.keys ==> exists n :: 0 <= n < t.drawn && t.keys[k] == secret(n))
  }

  ghost predicate Separate(t: Table) {
    forall k, l :: k in t.keys && l in t.keys && t.keys[k] == t.keys[l] ==> k == l
  }

  lemma SiteKeepsInv(t: Table, secret: nat -> string, site: Site)
    requires Inv(t, secret)
    ensures Inv(AfterSite(t, secret, site), secret)
    ensures forall k :: k in t.keys ==>
              k in AfterSite(t, secret, site).keys && AfterSite(t, secret, site).keys[k] == t.keys[k]
  {
    var u := AfterSite(t, secret, site);
    forall a, b | NoDash(a) && NoDash(b) && a != b && Joined(a, b) in u.keys && Joined(b, a) in u.keys
      ensures false
    {
      if u != t {
        if Joined(a, b) == Joined(site.remote, site.local) {
          JoinedOnce(a, b, site.remote, site.local);
        }
        if Joined(b, a) == Joined(site.remote, site.local) {
          JoinedOnce(b, a, site.remote, site.local);
        }
      }
    }
    forall k | k in u.keys
      ensures exists n :: 0 <= n < u.drawn && u.keys[k] == secret(n)
    {
      if k in t.keys {
        var n :| 0 <= n < t.drawn && t.keys[k] == secret(n);
        assert n < u.drawn;
      } else {
        assert u.keys[k] == secret(t.drawn);
      }
    }
  }

  ghost predicate DistinctSecrets(secret: nat -> string) {
    forall m: nat, n: nat :: secret(m) == secret(n) ==> m == n
  }

  lemma SiteKeepsSeparate(t: Table, secret: nat -> string, site: Site)
    requires Inv(t, secret) && Separate(t) && DistinctSecrets(secret)
    ensures Separate(AfterSite(t, secret, site))
  {
    forall k | k in t.keys
      ensures t.keys[k] != secret(t.drawn)
    {
      var n :| 0 <= n < t.drawn && t.keys[k] == secret(n);
    }
  }

  lemma {:induction false} HistoryKeepsInv(t: Table, secret: nat -> string, sites: seq<Site>, n: nat)
    requires n <= |sites| && Inv(t, secret)
    ensures Inv(After(t, secret, sites, n), secret)
    ensures Separate(t) && DistinctSecrets(secret) ==> Separate(After(t, secret, sites, n))
  {
    if n > 0 {
      HistoryKeepsInv(t, secret, sites, n - 1);
      SiteKeepsInv(After(t, secret, sites, n - 1), secret, sites[n - 1]);
      if Separate(t) && DistinctSecrets(secret) {
        SiteKeepsSeparate(After(t, secret, sites, n - 1), secret, sites[n - 1]);
      }
    }
  }

  // The key of two addresses, in whichever order the table has it.
  ghost predicate Holds(t: Table, a: string, b: string, key: string) {
    (Joined(a, b) in t.keys && t.keys[Joined(a, b)] == key) || (Joined(b, a) in t.keys && t.keys[Joined(b, a)] == key)
  }

  lemma {:induction false} HeldFrom(t: Table, secret: nat -> string, sites: seq<Site>, i: nat, j: nat)
    requires i < j <= |sites| && Inv(t, secret) && sites[i].key == ""
    ensures Holds(After(t, secret, sites, j), sites[i].local, sites[i].remote, KeyAt(t, secret, sites, i))
    decreases j - i
  {
    HistoryKeepsInv(t, secret, sites, j - 1);
    SiteKeepsInv(After(t, secret, sites, j - 1), secret, sites[j - 1]);
    if i < j - 1 {
      HeldFrom(t, secret, sites, i, j - 1);
    }
  }

  // The two sites are the ends of one tunnel, or the same end.
  predicate SamePair(a: Site, b: Site) {
    (a.local == b.local && a.remote == b.remote) || (a.local == b.remote && a.remote == b.local)
  }

  /**
   Two sites of one pair of addresses, with no secrets of their own, get one key, however many sites come before and
   between.
   */
  lemma EndsAgree(t: Table, secret: nat -> string, sites: seq<Site>, i: nat, j: nat)
    requires Inv(t, secret) && i < j < |sites| && sites[i].key == "" && sites[j].key == ""
    requires SamePair(sites[i], sites[j]) && NoDash(sites[i].local) && NoDash(sites[i].remote)
    ensures KeyAt(t, secret, sites, i) == KeyAt(t, secret, sites, j)
  {
    HeldFrom(t, secret, sites, i, j);
    HistoryKeepsInv(t, secret, sites, j);
  }

  /** Sites of different pairs of addresses get different keys, if all secrets are different. */
  lemma PairsDiffer(t: Table, secret: nat -> string, sites: seq<Site>, i: nat, j: nat)
    requires Inv(t, secret) && Separate(t) && DistinctSecrets(secret)
    requires i < j < |sites| && sites[i].key == "" && sites[j].key == "" && !SamePair(sites[i], sites[j])
    requires NoDash(sites[i].local) && NoDash(sites[i].remote)
    ensures KeyAt(t, secret, sites, i) != KeyAt(t, secret, sites, j)
  {
    var a, b := sites[i], sites[j];
    HeldFrom(t, secret, sites, i, j + 1);
    HeldFrom(t, secret, sites, j, j + 1);
    HistoryKeepsInv(t, secret, sites, j + 1);
    NotJoinedAlike(a, b);
  }

  lemma NotJoinedAlike(a: Site, b: Site)
    requires NoDash(a.local) && NoDash(a.remote) && !SamePair(a, b)
    ensures Joined(a.local, a.remote) != Joined(b.local, b.remote)
            && Joined(a.local, a.remote) != Joined(b.remote, b.local)
    ensures Joined(a.remote, a.local) != Joined(b.local, b.remote)
            && Joined(a.remote, a.local) != Joined(b.remote, b.local)
  {
    if Joined(a.local, a.remote) == Joined(b.local, b.remote) { JoinedOnce(a.local, a.remote, b.local, b.remote); }
    if Joined(a.local, a.remote) == Joined(b.remote, b.local) { JoinedOnce(a.local, a.remote, b.remote, b.local); }
    if Joined(a.remote, a.local) == Joined(b.local, b.remote) { JoinedOnce(a.remote, a.local, b.local, b.remote); }
    if Joined(a.remote, a.local) == Joined(b.remote, b.local) { JoinedOnce(a.remote, a.local, b.remote, b.local); }
  }

  lemma {:induction false} EntriesKept(t: Table, secret: nat -> string, sites: seq<Site>, i: nat, j: nat, k: string)
    requires i <= j <= |sites| && k in After(t, secret, sites, i).keys
    ensures k in After(t, secret, sites, j).keys
    ensures After(t, secret, sites, j).keys[k] == After(t, secret, sites, i).keys[k]
    decreases j
  {
    if i < j {
      EntriesKept(t, secret, sites, i, j - 1, k);
    }
  }

  // The table holds two addresses in both orders, with different keys.
  predicate Conflicts(t: Table, a: string, b: string) {
    Joined(a, b) in t.keys && Joined(b, a) in t.keys && t.keys[Joined(a, b)] != t.keys[Joined(b, a)]
  }

  /**
   Whatever the addresses are and whatever the table held at first, two sites of one pair get one key just when the
   table does not conflict on the pair before the second, or the second looks first under the name that the first one
   had its key from.
   */
  lemma EndsAgreeIff(t: Table, secret: nat -> string, sites: seq<Site>, i: nat, j: nat)
    requires i < j < |sites| && sites[i].key == "" && sites[j].key == "" && SamePair(sites[i], sites[j])
    ensures KeyAt(t, secret, sites, i) == KeyAt(t, secret, sites, j) <==>
            || !Conflicts(After(t, secret, sites, j), sites[i].local, sites[i].remote)
            || (Joined(sites[i].local, sites[i].remote) in After(t, secret, sites, i).keys <==>
                  sites[i].local == sites[j].local)
  {
    var a, b := sites[i].local, sites[i].remote;
    var before, next := After(t, secret, sites, i), After(t, secret, sites, i + 1);
    var from := if Joined(a, b) in before.keys then Joined(a, b) else Joined(b, a);
    assert next.keys[from] == KeyAt(t, secret, sites, i);
    EntriesKept(t, secret, sites, i + 1, j, from);
  }

  const DASHED: seq<Site> := [Site("b-c", "a", ""), Site("b", "c-a", ""), Site("a-b", "c", ""), Site("c", "a-b", "")]

  /** With dashes in the addresses, the two ends of a tunnel can get different keys. */
  lemma DashesCanDisagree(secret: nat -> string)
    requires secret(0) != secret(1)
    ensures var empty := Table(map[], 0);
            SamePair(DASHED[2], DASHED[3]) && KeyAt(empty, secret, DASHED, 2) != KeyAt(empty, secret, DASHED, 3)
  {
    var empty := Table(map[], 0);
    assert Joined("a", "b-c") == Joined("a-b", "c") == "a-b-c";
    assert Joined("c-a", "b") == Joined("c", "a-b") == "c-a-b";
    assert Joined("b-c", "a") == "b-c-a" && Joined("b", "c-a") == "b-c-a";
    assert "b-c-a"[0] == 'b' && "a-b-c"[0] == 'a' && "c-a-b"[0] == 'c';
    var one := After(empty, secret, DASHED, 1);
    assert one == Table(map["a-b-c" := secret(0)], 1);
    var two := After(empty, secret, DASHED, 2);
    assert two == Table(map["a-b-c" := secret(0), "c-a-b" := secret(1)], 2);
    assert After(empty, secret, DASHED, 3) == two;
  }

  // How many sites have an interface before the first one that has none.
  function Connected(sites: seq<Site>, nets: seq<string>): (n: nat)
    ensures n <= |sites|
    decreases |sites|
  {
    if sites == [] || sites[0].local !in nets then 0 else 1 + Connected(sites[1..], nets)
  }

  lemma {:induction false} ConnectedMeaning(sites: seq<Site>, nets: seq<string>, n: nat)
    requires n <= |sites| && forall i :: 0 <= i < n ==> sites[i].local in nets
    requires n < |sites| ==> sites[n].local !in nets
    ensures Connected(sites, nets) == n
    decreases |sites|
  {
    if n > 0 {
      ConnectedMeaning(sites[1..], nets, n - 1);
    }
  }

  // The first interface with the address, or their number.
  function First(nets: seq<string>, address: string): (i: nat)
    ensures i <= |nets| && address !in nets[..i] && (i < |nets| ==> nets[i] == address)
    ensures i == |nets| <==> address !in nets
    decreases |nets|
  {
    if nets == [] || nets[0] == address then 0
    else
      var i := First(nets[1..], address) + 1;
      assert nets[..i] == [nets[0]] + nets[1..][..i - 1] && nets == [nets[0]] + nets[1..];
      i
  }

  // The interfaces of the first n sites.
  function Ethernets(nets: seq<string>, sites: seq<Site>, n: nat): set<nat>
    requires n <= |sites|
  {
    if n == 0 then {} else Ethernets(nets, sites, n - 1) + {First(nets, sites[n - 1].local)}
  }

  /** The interfaces of the sites are, for each local address, the first interface that has it. */
  lemma {:induction false} EthernetsMeaning(nets: seq<string>, sites: seq<Site>, n: nat, e: nat)
    requires n <= |sites| && e < |nets|
    ensures e in Ethernets(nets, sites, n) <==>
            nets[e] !in nets[..e] && exists i :: 0 <= i < n && sites[i].local == nets[e]
  {
    if n > 0 {
      EthernetsMeaning(nets, sites, n - 1, e);
      FirstIff(nets, sites[n - 1].local, e);
    }
  }

  lemma FirstIff(nets: seq<string>, address: string, e: nat)
    requires e < |nets|
    ensures First(nets, address) == e <==> nets[e] == address && address !in nets[..e]
  {
    var i := First(nets, address);
    forall k | 0 <= k < i
      ensures nets[k] != address
    {
      assert nets[..i][k] == nets[k];
    }
    forall k | 0 <= k < e && address !in nets[..e]
      ensures nets[k] != address
    {
      assert nets[..e][k] == nets[k];
    }
  }

  method FindInterface(nets: seq<string>, address: string) returns (i: nat)
    ensures i == First(nets, address)
  {
    i := 0;
    while i < |nets| && nets[i] != address
      invariant 0 <= i <= |nets| && First(nets, address) == i + First(nets[i..], address)
    {
      assert nets[i..][1..] == nets[i + 1..];
      i := i + 1;
    }
  }

  class Vrouter {
    var keys: map<string, string>
    var drawn: nat
    const secret: nat -> string

    constructor (secret: nat -> string)
      ensures View() == Table(map[], 0) && this.secret == secret
    {
      this.keys, this.drawn, this.secret := map[], 0, secret;
    }

    function View(): Table
      reads this
    {
      Table(keys, drawn)
    }

    method GenerateSecret() returns (s: string)
      modifies this`drawn
      ensures s == secret(old(drawn)) && drawn == old(drawn) + 1
    {
      s := secret(drawn);
      drawn := drawn + 1;
    }

    // Gives a site the key of its two addresses.
    method GiveKey(site: Site) returns (keyed: Site)
      requires site.key == ""
      modifies this
      ensures View() == AfterSite(old(View()), secret, site) && keyed == WithKey(old(View()), secret, site)
    {
      var k := Joined(site.local, site.remote);
      if k in keys {
        return site.(key := keys[k]);
      }
      k := Joined(site.remote, site.local);
      if k in keys {
        return site.(key := keys[k]);
      }
      var key := GenerateSecret();
      keys := keys[k := key];
      keyed := site.(key := key);
    }

    // Gives the sites of a router their keys, in place. It stops at a site whose local address no interface has: what
    // it did before stays. The interfaces are the first ones with the local addresses.
    method ProcessIPSec(sites: array<Site>, nets: seq<string>) returns (ok: bool, interfaces: set<nat>)
      modifies this, sites
      ensures var n := Connected(old(sites[..]), nets);
              && ok == (n == sites.Length)
              && View() == After(old(View()), secret, old(sites[..]), n)
              && sites[..] == Keyed(old(View()), secret, old(sites[..]), n)
      ensures interfaces == Ethernets(nets, old(sites[..]), Connected(old(sites[..]), nets))
    {
      ghost var given := sites[..];
      ghost var before := View();
      interfaces := {};
      var idx := 0;
      while idx < sites.Length
        invariant 0 <= idx <= sites.Length && View() == After(before, secret, given, idx)
        invariant sites[..] == Keyed(before, secret, given, idx)
        invariant forall i :: 0 <= i < idx ==> given[i].local in nets
        invariant interfaces == Ethernets(nets, given, idx)
      {
        var site := sites[idx];
        var i := FindInterface(nets, site.local);
        if i == |nets| {
          ConnectedMeaning(given, nets, idx);
          return false, interfaces;
        }
        interfaces := interfaces + {i};
        if site.key == "" {
          site := GiveKey(site);
        }
        sites[idx] := site;
        idx := idx + 1;
      }
      ConnectedMeaning(given, nets, idx);
      ok := true;
    }
  }
}
