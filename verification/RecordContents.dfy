/**
 What the record store holds: a reference store that maps places to entries, without buckets, encodings or a wrapping
 sequence, and the proof that every run of transactions holds what the reference store holds after the same run.
 */
module RecordContents {
  import opened Wrappers
  import opened RecordCodec
  import opened KeyOrder
  import opened RecordStore

  // Where a record is.
  datatype Place = Place(ns: Namespace, key: Key)

  datatype Entry = Entry(value: seq<byte>, revision: nat, created: int, updated: int)

  datatype Directory = Directory(entries: map<Place, Entry>, last: nat)

  predicate Matches(p: Place, ns: Namespace, prefix: Key) {
    p.ns == ns && |p.key| >= |prefix| && p.key[..|prefix|] == prefix
  }

  // The revision that a write expects, where 0 expects none.
  predicate Expected(d: Directory, p: Place, expected: int) {
    p in d.entries && (expected == 0 || expected == d.entries[p].revision)
  }

  function Written(d: Directory, p: Place, value: seq<byte>, created: int, now: int): Directory {
    Directory(d.entries[p := Entry(value, d.last + 1, created, now)], d.last + 1)
  }

  function Does(d: Directory, op: Op): Directory {
    match op
    case CreateOp(ns, key, value, now) =>
      if Place(ns, key) in d.entries then d else Written(d, Place(ns, key), value, now, now)
    case UpdateOp(ns, key, value, expected, now) =>
      if !Expected(d, Place(ns, key), expected) then d
      else Written(d, Place(ns, key), value, d.entries[Place(ns, key)].created, now)
    case DeleteOp(ns, key, expected) =>
      if Expected(d, Place(ns, key), expected) then d.(entries := d.entries - {Place(ns, key)}) else d
    case DeletePrefixOp(ns, prefix) =>
      d.(entries := map p | p in d.entries && !Matches(p, ns, prefix) :: d.entries[p])
  }

  function DoesAll(d: Directory, ops: seq<Op>): Directory
    decreases |ops|
  {
    if ops == [] then d else DoesAll(Does(d, ops[0]), ops[1..])
  }

  // The reference store after the first n transactions. One that fails does nothing.
  function Replay(run: seq<Txn>, n: nat): Directory
    requires n <= |run|
  {
    if n == 0 then Directory(map[], 0)
    else if run[n - 1].failed then Replay(run, n - 1)
    else DoesAll(Replay(run, n - 1), run[n - 1].ops)
  }

  predicate IsEntry(r: Stored, e: Entry) {
    r.value == e.value && r.revision == e.revision && r.created == e.created && r.updated == e.updated
  }

  predicate HoldsAt(img: Image, d: Directory, p: Place) {
    match Get(img, p.ns, p.key)
    case Success(r) => p in d.entries && IsEntry(r, d.entries[p])
    case Failure(e) => p !in d.entries && e == NotExist
  }

  // The image holds exactly the entries of the reference store.
  ghost predicate Holds(img: Image, d: Directory) {
    img.sequence == d.last && forall p: Place :: HoldsAt(img, d, p)
  }

  // ---------------------------------------------------------------------------------------------
  // Single operations
  // ---------------------------------------------------------------------------------------------

  lemma PutHolds(img: Image, d: Directory, p: Place, r: Stored)
    requires Holds(img, d) && img.sequence < 0x7FFF_FFFF_FFFF_FFFF && r.revision == d.last + 1
    ensures Holds(Put(img.(sequence := img.sequence + 1), p.ns, p.key, r), Written(d, p, r.value, r.created, r.updated))
  {
    var next := img.(sequence := img.sequence + 1);
    var after, e := Put(next, p.ns, p.key, r), Written(d, p, r.value, r.created, r.updated);
    PutGet(next, p.ns, p.key, r);
    forall q: Place
      ensures HoldsAt(after, e, q)
    {
      assert HoldsAt(img, d, q) && Get(next, q.ns, q.key) == Get(img, q.ns, q.key);
      assert q.ns == p.ns && q.key == p.key <==> q == p;
    }
  }

  /** A create fails just when the place is taken, and else writes its value with its time as both times. */
  lemma CreateDoes(img: Image, d: Directory, ns: Namespace, key: Key, value: seq<byte>, now: int64)
    requires Holds(img, d) && img.sequence < 0x7FFF_FFFF_FFFF_FFFF
    ensures var (after, result) := Create(img, ns, key, value, now);
            && Holds(after, Does(d, CreateOp(ns, key, value, now)))
            && (Place(ns, key) in d.entries ==> result == Failure(Exist))
            && (Place(ns, key) !in d.entries ==>
                  result == Success(Stored(value, Int64(d.last + 1), now, now)) && Get(after, ns, key) == result)
  {
    var p := Place(ns, key);
    assert HoldsAt(img, d, p);
    var ensured := img.(buckets := img.buckets[ns := Bucket(img, ns)]);
    forall q: Place
      ensures HoldsAt(ensured, d, q)
    {
      assert HoldsAt(img, d, q);
    }
    CreatePuts(img, ns, key, value, now);
    if p !in d.entries {
      var r := Create(img, ns, key, value, now).1.value;
      PutHolds(ensured, d, p, r);
      PutGet(ensured.(sequence := img.sequence + 1), ns, key, r);
    }
  }

  /**
   An update fails when there is no record, or one of another revision than the expected one. Else it writes its value
   with its time as the update time, and keeps the creation time.
   */
  lemma UpdateDoes(img: Image, d: Directory, ns: Namespace, key: Key, value: seq<byte>, expected: int64, now: int64)
    requires Holds(img, d) && img.sequence < 0x7FFF_FFFF_FFFF_FFFF
    ensures var (after, result) := Update(img, ns, key, value, expected, now);
            && Holds(after, Does(d, UpdateOp(ns, key, value, expected, now)))
            && (Place(ns, key) !in d.entries ==> result == Failure(NotExist))
            && (Place(ns, key) in d.entries && !Expected(d, Place(ns, key), expected) ==> result == Failure(Conflict))
            && (Expected(d, Place(ns, key), expected) ==>
                  result.Success? && Get(after, ns, key) == result
                  && IsEntry(result.value, Entry(value, d.last + 1, d.entries[Place(ns, key)].created, now)))
  {
    var p := Place(ns, key);
    assert HoldsAt(img, d, p);
    UpdatePuts(img, ns, key, value, expected, now);
    if Expected(d, p, expected) {
      var r := Update(img, ns, key, value, expected, now).1.value;
      PutHolds(img, d, p, r);
      PutGet(img.(sequence := img.sequence + 1), ns, key, r);
    }
  }

  /** A delete fails like an update, and else the record is gone. */
  lemma DeleteDoes(img: Image, d: Directory, ns: Namespace, key: Key, expected: int64)
    requires Holds(img, d)
    ensures var (after, result) := Delete(img, ns, key, expected);
            && Holds(after, Does(d, DeleteOp(ns, key, expected)))
            && (Place(ns, key) !in d.entries ==> result == Failure(NotExist))
            && (Place(ns, key) in d.entries && !Expected(d, Place(ns, key), expected) ==> result == Failure(Conflict))
            && (Expected(d, Place(ns, key), expected) ==>
                  result == Success(()) && Get(after, ns, key) == Failure(NotExist))
  {
    var (after, result) := Delete(img, ns, key, expected);
    assert HoldsAt(img, d, Place(ns, key));
    forall q: Place
      ensures HoldsAt(after, Does(d, DeleteOp(ns, key, expected)), q)
    {
      assert HoldsAt(img, d, q);
    }
  }

  /** A prefix delete takes exactly the records whose key begins with the prefix, and says how many they were. */
  lemma DeletePrefixDoes(img: Image, d: Directory, ns: Namespace, prefix: Key)
    requires Holds(img, d)
    ensures var (after, result) := DeletePrefix(img, ns, prefix);
            && Holds(after, Does(d, DeletePrefixOp(ns, prefix)))
            && result == Success(|set p | p in d.entries && Matches(p, ns, prefix)|)
  {
    var (after, result) := DeletePrefix(img, ns, prefix);
    forall k | k in RecordStore.Matches(img, ns, prefix)
      ensures Get(img, ns, k).Success?
    {
      assert HoldsAt(img, d, Place(ns, k));
    }
    forall q: Place
      ensures HoldsAt(after, Does(d, DeletePrefixOp(ns, prefix)), q)
    {
      assert HoldsAt(img, d, q);
    }
    var keys, places := RecordStore.Matches(img, ns, prefix), set p | p in d.entries && Matches(p, ns, prefix);
    forall k: Key
      ensures k in keys <==> Place(ns, k) in places
    {
      assert HoldsAt(img, d, Place(ns, k));
    }
    assert places == set k | k in keys :: Place(ns, k);
    SameCount(ns, keys);
  }

  // A record whose key begins with the prefix is no encoding.
  predicate HasDamaged(img: Image, ns: Namespace, prefix: Key) {
    ns in img.buckets && exists k :: k in img.buckets[ns] && Matches(Place(ns, k), ns, prefix)
                                     && Decode(img.buckets[ns][k]).Failure?
  }

  /** A prefix delete fails exactly when one of its records is damaged, and takes none then. */
  lemma DeletePrefixFailsIff(img: Image, ns: Namespace, prefix: Key)
    ensures DeletePrefix(img, ns, prefix).1.Failure? <==> HasDamaged(img, ns, prefix)
    ensures HasDamaged(img, ns, prefix) ==> DeletePrefix(img, ns, prefix) == (img, Failure(Damaged))
  {
    if HasDamaged(img, ns, prefix) {
      var k :| k in img.buckets[ns] && Matches(Place(ns, k), ns, prefix) && Decode(img.buckets[ns][k]).Failure?;
      assert k in RecordStore.Matches(img, ns, prefix);
    }
    forall k | k in RecordStore.Matches(img, ns, prefix) && !HasDamaged(img, ns, prefix)
      ensures Get(img, ns, k).Success?
    {
      assert Matches(Place(ns, k), ns, prefix);
    }
  }

  /** A create leaves its namespace with a bucket, also when the key is taken, and the other buckets as they were. */
  lemma CreateEnsuresBucket(img: Image, ns: Namespace, key: Key, value: seq<byte>, now: int64)
    ensures var after := Create(img, ns, key, value, now).0;
            && after.buckets.Keys == img.buckets.Keys + {ns}
            && (forall other :: other in img.buckets && other != ns ==> after.buckets[other] == img.buckets[other])
            && (Create(img, ns, key, value, now).1.Failure? && ns in img.buckets ==> after == img)
  {
  }

  lemma {:induction false} SameCount(ns: Namespace, keys: set<Key>)
    ensures |set k | k in keys :: Place(ns, k)| == |keys|
    decreases |keys|
  {
    if keys != {} {
      var k :| k in keys;
      var rest := keys - {k};
      SameCount(ns, rest);
      assert (set l | l in keys :: Place(ns, l)) == (set l | l in rest :: Place(ns, l)) + {Place(ns, k)};
    }
  }

  // ---------------------------------------------------------------------------------------------
  // Runs
  // ---------------------------------------------------------------------------------------------

  lemma StepHolds(img: Image, d: Directory, op: Op)
    requires Holds(img, d) && img.sequence < 0x7FFF_FFFF_FFFF_FFFF
    ensures Holds(Step(img, op), Does(d, op))
  {
    match op
    case CreateOp(ns, key, value, now) => CreateDoes(img, d, ns, key, value, now);
    case UpdateOp(ns, key, value, expected, now) => UpdateDoes(img, d, ns, key, value, expected, now);
    case DeleteOp(ns, key, expected) => DeleteDoes(img, d, ns, key, expected);
    case DeletePrefixOp(ns, prefix) => DeletePrefixDoes(img, d, ns, prefix);
  }

  lemma {:induction false} StepsHold(img: Image, d: Directory, ops: seq<Op>)
    requires Holds(img, d) && img.sequence + |ops| < 0x8000_0000_0000_0000
    ensures Holds(Steps(img, ops), DoesAll(d, ops))
    decreases |ops|
  {
    if ops != [] {
      StepHolds(img, d, ops[0]);
      StepsHold(Step(img, ops[0]), Does(d, ops[0]), ops[1..]);
    }
  }

  /** After every run of transactions the store holds exactly what the reference store holds. */
  lemma {:induction false} RunHolds(run: seq<Txn>, n: nat)
    requires n <= |run| && FitsInt64(run)
    ensures Holds(After(EMPTY, run, n), Replay(run, n))
  {
    if n > 0 {
      RunHolds(run, n - 1);
      ReachableInv(run, n - 1);
      OpCountSplit(run, n - 1);
      if !run[n - 1].failed {
        StepsHold(After(EMPTY, run, n - 1), Replay(run, n - 1), run[n - 1].ops);
      }
    }
  }

  // ---------------------------------------------------------------------------------------------
  // The last write
  // ---------------------------------------------------------------------------------------------

  // The operation writes or removes the record at the place.
  predicate Touches(d: Directory, op: Op, p: Place) {
    match op
    case CreateOp(ns, key, _, _) => p == Place(ns, key) && p !in d.entries
    case UpdateOp(ns, key, _, expected, _) => p == Place(ns, key) && Expected(d, p, expected)
    case DeleteOp(ns, key, expected) => p == Place(ns, key) && Expected(d, p, expected)
    case DeletePrefixOp(ns, prefix) => p in d.entries && Matches(p, ns, prefix)
  }

  predicate NoneTouches(d: Directory, ops: seq<Op>, p: Place)
    decreases |ops|
  {
    ops == [] || (!Touches(d, ops[0], p) && NoneTouches(Does(d, ops[0]), ops[1..], p))
  }

  predicate SameAt(a: Directory, b: Directory, p: Place) {
    (p in a.entries <==> p in b.entries) && (p in a.entries ==> a.entries[p] == b.entries[p])
  }

  lemma {:induction false} Untouched(d: Directory, ops: seq<Op>, p: Place)
    requires NoneTouches(d, ops, p)
    ensures SameAt(d, DoesAll(d, ops), p)
    decreases |ops|
  {
    if ops != [] {
      assert SameAt(d, Does(d, ops[0]), p);
      Untouched(Does(d, ops[0]), ops[1..], p);
    }
  }

  // What a read gives when the operation was the last one that touched the record.
  predicate Left(op: Op, read: Result<Stored, RecordError>) {
    match op
    case CreateOp(_, _, value, now) =>
      read.Success? && read.value.value == value && read.value.created == now && read.value.updated == now
    case UpdateOp(_, _, value, _, now) => read.Success? && read.value.value == value && read.value.updated == now
    case DeleteOp(_, _, _) => read == Failure(NotExist)
    case DeletePrefixOp(_, _) => read == Failure(NotExist)
  }

  // Transactions from i to n leave the record alone.
  predicate NoneTouchesSince(run: seq<Txn>, i: nat, n: nat, p: Place)
    requires i <= n <= |run|
  {
    forall j :: i <= j < n && !run[j].failed ==> NoneTouches(Replay(run, j), run[j].ops, p)
  }

  lemma {:induction false} UntouchedSince(run: seq<Txn>, i: nat, n: nat, p: Place)
    requires i <= n <= |run| && NoneTouchesSince(run, i, n, p)
    ensures SameAt(Replay(run, i), Replay(run, n), p)
    decreases n
  {
    if i < n {
      UntouchedSince(run, i, n - 1, p);
      if !run[n - 1].failed {
        Untouched(Replay(run, n - 1), run[n - 1].ops, p);
      }
    }
  }

  lemma {:induction false} DoesInParts(d: Directory, first: seq<Op>, second: seq<Op>)
    ensures DoesAll(d, first + second) == DoesAll(DoesAll(d, first), second)
    decreases |first|
  {
    if first == [] {
      assert first + second == second;
    } else {
      assert (first + second)[1..] == first[1..] + second;
      DoesInParts(Does(d, first[0]), first[1..], second);
    }
  }

  /** A read gives what the last committed operation left that touched the record. */
  lemma ReadsLastWrite(run: seq<Txn>, j: nat, k: nat, n: nat, p: Place)
    requires j < n <= |run| && FitsInt64(run) && !run[j].failed && k < |run[j].ops|
    requires var before := DoesAll(Replay(run, j), run[j].ops[..k]);
             && Touches(before, run[j].ops[k], p)
             && NoneTouches(Does(before, run[j].ops[k]), run[j].ops[k + 1..], p)
    requires NoneTouchesSince(run, j + 1, n, p)
    ensures Left(run[j].ops[k], Get(After(EMPTY, run, n), p.ns, p.key))
  {
    var before := DoesAll(Replay(run, j), run[j].ops[..k]);
    RestOfTransaction(run, j, k, p);
    UntouchedSince(run, j + 1, n, p);
    assert SameAt(Does(before, run[j].ops[k]), Replay(run, n), p);
    RunHolds(run, n);
    assert HoldsAt(After(EMPTY, run, n), Replay(run, n), p);
  }

  lemma RestOfTransaction(run: seq<Txn>, j: nat, k: nat, p: Place)
    requires j < |run| && !run[j].failed && k < |run[j].ops|
    requires var left := Does(DoesAll(Replay(run, j), run[j].ops[..k]), run[j].ops[k]);
             NoneTouches(left, run[j].ops[k + 1..], p)
    ensures SameAt(Does(DoesAll(Replay(run, j), run[j].ops[..k]), run[j].ops[k]), Replay(run, j + 1), p)
  {
    var ops := run[j].ops;
    var left := Does(DoesAll(Replay(run, j), ops[..k]), ops[k]);
    Untouched(left, ops[k + 1..], p);
    DoesInParts(Replay(run, j), ops[..k], ops[k..]);
    assert ops[..k] + ops[k..] == ops && ops[k..][1..] == ops[k + 1..];
    assert Replay(run, j + 1) == DoesAll(left, ops[k + 1..]);
  }

  /** A record that no committed operation touched was never there. */
  lemma ReadsNothing(run: seq<Txn>, n: nat, p: Place)
    requires n <= |run| && FitsInt64(run) && NoneTouchesSince(run, 0, n, p)
    ensures Get(After(EMPTY, run, n), p.ns, p.key) == Failure(NotExist)
  {
    UntouchedSince(run, 0, n, p);
    RunHolds(run, n);
    assert HoldsAt(After(EMPTY, run, n), Replay(run, n), p);
  }
}
