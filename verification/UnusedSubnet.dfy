/**
 The search for a subnet that is not in use: the lowest block of the size of start, at or after start. It advances no
 more often than there are used subnets.
 */
module UnusedSubnet {

  // A prefix, as its address split at the prefix length: the number of its block, and the host part. A block's own
  // address has host part 0. Invalid is what there is past the last block of the address space, in place of a next one.
  datatype Prefix = Invalid | Prefix(network: nat, host: nat, bits: nat)

  function Pow2(n: nat): nat {
    if n == 0 then 1 else 2 * Pow2(n - 1)
  }

  predicate InSpace(p: Prefix) {
    p.Prefix? && p.network < Pow2(p.bits)
  }

  // The block after the one that the prefix lies in.
  function NextBlock(p: Prefix): Prefix
    requires p.Prefix?
  {
    if p.network + 1 < Pow2(p.bits) then Prefix(p.network + 1, 0, p.bits) else Invalid
  }

  // The prefixes that the search looks at: start as it is, and then whole blocks.
  function Candidate(start: Prefix, n: nat): Prefix
    requires start.Prefix?
  {
    if n == 0 then start else Prefix(start.network + n, 0, start.bits)
  }

  /** Which prefixes the search looks at: start itself, whatever its host part is, and then each block after it. */
  lemma CandidateMeaning(start: Prefix, n: nat)
    requires start.Prefix?
    ensures Candidate(start, 0) == start
    ensures n > 0 ==> Candidate(start, n) == Prefix(start.network + n, 0, start.bits)
  {
  }

  /** The next block is the lowest one of the address space behind the prefix, and invalid just when there is none. */
  lemma NextBlockMeaning(p: Prefix)
    requires p.Prefix?
    ensures NextBlock(p).Invalid? <==> forall n :: n > p.network ==> !InSpace(Prefix(n, 0, p.bits))
    ensures NextBlock(p).Prefix? ==>
              InSpace(NextBlock(p)) && NextBlock(p) == Prefix(p.network + 1, 0, p.bits)
  {
    assert InSpace(Prefix(p.network + 1, 0, p.bits)) <==> p.network + 1 < Pow2(p.bits);
  }

  /** An address space of IPv4 has 2^32 blocks of one address, and one with a bit more has twice as many blocks. */
  lemma SpaceSize(n: nat, network: nat, host: nat)
    ensures InSpace(Prefix(network, host, 0)) <==> network == 0
    ensures InSpace(Prefix(network, host, n + 1)) <==> InSpace(Prefix(network / 2, host, n))
    ensures InSpace(Prefix(network, host, 32)) <==> network < 0x1_0000_0000
  {
    assert Pow2(8) == 0x100 && Pow2(16) == 0x1_0000 && Pow2(24) == 0x100_0000 && Pow2(32) == 0x1_0000_0000;
  }

  /** Distinct candidates that are all used are no more than the used prefixes. */
  lemma {:induction false} Pigeonhole(start: Prefix, n: nat, used: seq<Prefix>)
    requires start.Prefix? && forall k :: 0 <= k < n ==> Candidate(start, k) in used
    ensures n <= |used|
  {
    if n > 0 {
      var last := Candidate(start, n - 1);
      var i :| 0 <= i < |used| && used[i] == last;
      var others := used[..i] + used[i + 1..];
      forall k | 0 <= k < n - 1
        ensures Candidate(start, k) in others
      {
        var j :| 0 <= j < |used| && used[j] == Candidate(start, k);
        assert j != i;
        assert others[if j < i then j else j - 1] == used[j];
      }
      Pigeonhole(start, n - 1, others);
    }
  }

  /** Of more blocks than there are used prefixes, one is free. */
  lemma FreeBlockLeft(start: Prefix, n: nat, used: seq<Prefix>)
    requires start.Prefix? && n > |used|
    ensures exists k :: 0 <= k < n && Candidate(start, k) !in used
  {
    if forall k :: 0 <= k < n ==> Candidate(start, k) in used {
      Pigeonhole(start, n, used);
      assert false;
    }
  }

  /**
   The result is the first candidate that is not used, and the invalid prefix just when all of them are. So it is found
   if there are more blocks left than used prefixes.
   */
  method Find(start: Prefix, used: seq<Prefix>) returns (subnet: Prefix, advances: nat)
    requires InSpace(start) && Invalid !in used
    ensures subnet == if subnet.Invalid? then Invalid else Candidate(start, advances)
    ensures subnet !in used && forall k :: 0 <= k < advances ==> Candidate(start, k) in used
    ensures advances <= |used|
    ensures subnet.Prefix? ==> InSpace(subnet)
    ensures subnet.Invalid? <==> forall k :: 0 <= k < Pow2(start.bits) - start.network ==> Candidate(start, k) in used
    ensures Pow2(start.bits) - start.network > |used| ==> subnet.Prefix?
    // From a block's own address, the search returns the lowest free block.
    ensures start.host == 0 && subnet.Prefix? ==>
              subnet.host == 0 && forall n :: start.network <= n < subnet.network ==> Prefix(n, 0, start.bits) in used
  {
    subnet, advances := start, 0;
    while subnet in used
      invariant subnet.Invalid? ==> start.network + advances == Pow2(start.bits)
      invariant subnet.Prefix? ==> subnet == Candidate(start, advances) && InSpace(subnet)
      invariant forall k :: 0 <= k < advances ==> Candidate(start, k) in used
      decreases Pow2(start.bits) - start.network - advances
    {
      subnet := NextBlock(subnet);
      advances := advances + 1;
    }
    Pigeonhole(start, advances, used);
    if start.host == 0 && subnet.Prefix? {
      forall n | start.network <= n < subnet.network
        ensures Prefix(n, 0, start.bits) in used
      {
        assert Candidate(start, n - start.network) == Prefix(n, 0, start.bits);
      }
    }
    if subnet.Prefix? {
      assert Candidate(start, advances) !in used && advances < Pow2(start.bits) - start.network;
    }
  }
}
