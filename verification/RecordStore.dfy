/**
 The transactional record store. A bucket per namespace maps keys to encoded records, and one sequence counter gives
 each created or updated record its revision. A transaction works on the whole image and keeps it, or puts it back.
 */
module RecordStore {
  import opened Wrappers
  import opened RecordCodec
  import opened KeyOrder

  type Namespace = string

  // The expected revision with which Update and Delete skip their comparison.
  const ANY_REVISION: int64 := 0

  datatype Image = Image(buckets: map<Namespace, map<Key, seq<byte>>>, sequence: nat)

  datatype RecordError = NotExist | Exist | Conflict | Damaged

  function Get(img: Image, ns: Namespace, key: Key): Result<Stored, RecordError> {
    if ns !in img.buckets || key !in img.buckets[ns] then Failure(NotExist)
    else
      match Decode(img.buckets[ns][key])
      case Success(r) => Success(r)
      case Failure(_) => Failure(Damaged)
  }

  function Bucket(img: Image, ns: Namespace): map<Key, seq<byte>> {
    if ns in img.buckets then img.buckets[ns] else map[]
  }

  function NextSequence(n: nat): nat {
    (n + 1) % TWO_64
  }

  function Put(img: Image, ns: Namespace, key: Key, r: Stored): Image {
    img.(buckets := img.buckets[ns := Bucket(img, ns)[key := Encode(r)]])
  }

  function CheckRevision(expected: int64, actual: int64): bool {
    expected == ANY_REVISION || expected == actual
  }

  // A create ensures the namespace bucket first, also when the key turns out to be taken.
  function Create(img: Image, ns: Namespace, key: Key, value: seq<byte>, now: int64)
    : (Image, Result<Stored, RecordError>)
  {
    var ensured := img.(buckets := img.buckets[ns := Bucket(img, ns)]);
    if key in Bucket(img, ns) then (ensured, Failure(Exist))
    else
      var n := NextSequence(img.sequence);
      var r := Stored(value, Int64(n), now, now);
      (Put(ensured.(sequence := n), ns, key, r), Success(r))
  }

  function Update(img: Image, ns: Namespace, key: Key, value: seq<byte>, expected: int64, now: int64)
    : (Image, Result<Stored, RecordError>)
  {
    match Get(img, ns, key)
    case Failure(e) => (img, Failure(e))
    case Success(existing) =>
      if !CheckRevision(expected, existing.revision) then (img, Failure(Conflict))
      else
        var n := NextSequence(img.sequence);
        var r := Stored(value, Int64(n), existing.created, now);
        (Put(img.(sequence := n), ns, key, r), Success(r))
  }

  function Delete(img: Image, ns: Namespace, key: Key, expected: int64): (Image, Result<(), RecordError>) {
    match Get(img, ns, key)
    case Failure(e) => (img, Failure(e))
    case Success(existing) =>
      if !CheckRevision(expected, existing.revision) then (img, Failure(Conflict))
      else (img.(buckets := img.buckets[ns := img.buckets[ns] - {key}]), Success(()))
  }

  function Matching(bucket: map<Key, seq<byte>>, prefix: Key): set<Key> {
    set k | k in bucket && HasPrefix(k, prefix)
  }

  // A map, so without the order of a scan. RecordDB.ListRecords says what a scan gives.
  function Matches(img: Image, ns: Namespace, prefix: Key): set<Key> {
    Matching(Bucket(img, ns), prefix)
  }

  predicate AllDecode(img: Image, ns: Namespace, keys: set<Key>) {
    forall k :: k in keys ==> Get(img, ns, k).Success?
  }

  function DeletePrefix(img: Image, ns: Namespace, prefix: Key): (Image, Result<nat, RecordError>) {
    var keys := Matches(img, ns, prefix);
    if ns !in img.buckets then (img, Success(0))
    else if !AllDecode(img, ns, keys) then (img, Failure(Damaged))
    else (img.(buckets := img.buckets[ns := img.buckets[ns] - keys]), Success(|keys|))
  }

  // ---------------------------------------------------------------------------------------------
  // Transactions and runs
  // ---------------------------------------------------------------------------------------------

  datatype Op =
    | CreateOp(ns: Namespace, key: Key, value: seq<byte>, now: int64)
    | UpdateOp(ns: Namespace, key: Key, value: seq<byte>, expected: int64, now: int64)
    | DeleteOp(ns: Namespace, key: Key, expected: int64)
    | DeletePrefixOp(ns: Namespace, prefix: Key)

  function Step(img: Image, op: Op): Image {
    match op
    case CreateOp(ns, key, value, now) => Create(img, ns, key, value, now).0
    case UpdateOp(ns, key, value, expected, now) => Update(img, ns, key, value, expected, now).0
    case DeleteOp(ns, key, expected) => Delete(img, ns, key, expected).0
    case DeletePrefixOp(ns, prefix) => DeletePrefix(img, ns, prefix).0
  }

  function Steps(img: Image, ops: seq<Op>): Image
    decreases |ops|
  {
    if ops == [] then img else Steps(Step(img, ops[0]), ops[1..])
  }

  /** One transaction: the operations its function happened to make, whatever it chose them by, and whether the function
      returned an error or the commit failed. Either puts the image back, with its sequence. */
  datatype Txn = Txn(ops: seq<Op>, failed: bool)

  function Run(img: Image, t: Txn): Image {
    if t.failed then img else Steps(img, t.ops)
  }

  // The image after the first n transactions.
  function After(img: Image, run: seq<Txn>, n: nat): Image
    requires n <= |run|
  {
    if n == 0 then img else Run(After(img, run, n - 1), run[n - 1])
  }

  function OpCount(run: seq<Txn>): nat {
    if run == [] then 0 else |run[0].ops| + OpCount(run[1..])
  }

  // ---------------------------------------------------------------------------------------------
  // Revisions
  // ---------------------------------------------------------------------------------------------

  // Every stored record decodes, with a revision the sequence has given out, and no two have the same.
  ghost predicate Inv(img: Image) {
    && img.sequence < 0x8000_0000_0000_0000
    && (forall ns, key :: ns in img.buckets && key in img.buckets[ns] ==>
          Get(img, ns, key).Success? && 0 < Get(img, ns, key).value.revision <= img.sequence)
    && (forall ns, key, ns', key' ::
          Get(img, ns, key).Success? && Get(img, ns', key').Success?
          && Get(img, ns, key).value.revision == Get(img, ns', key').value.revision
          ==> ns == ns' && key == key')
  }

  // Later is a later image: each record is the same, gone, or newer than every revision of the earlier image.
  ghost predicate Later(img: Image, later: Image) {
    && img.sequence <= later.sequence
    && forall ns, key :: Get(later, ns, key).Success? ==>
         Get(later, ns, key) == Get(img, ns, key) || Get(later, ns, key).value.revision > img.sequence
  }

  lemma PutGet(img: Image, ns: Namespace, key: Key, r: Stored)
    ensures forall ns', key' :: Get(Put(img, ns, key, r), ns', key') ==
              if ns' == ns && key' == key then Success(r) else Get(img, ns', key')
  {
    DecodeOfEncode(r);
  }

  lemma PutKeepsInv(img: Image, ns: Namespace, key: Key, r: Stored)
    requires Inv(img) && img.sequence < 0x7FFF_FFFF_FFFF_FFFF
    requires r.revision == img.sequence + 1
    ensures Inv(Put(img.(sequence := img.sequence + 1), ns, key, r))
            && Later(img, Put(img.(sequence := img.sequence + 1), ns, key, r))
  {
    var next := img.(sequence := img.sequence + 1);
    PutGet(next, ns, key, r);
    assert forall ns', key' :: Get(next, ns', key') == Get(img, ns', key');
  }

  // An operation that only takes records away.
  lemma RemoveKeepsInv(img: Image, after: Image)
    requires Inv(img) && after.sequence == img.sequence
    requires forall ns, key :: Get(after, ns, key).Success? ==> Get(after, ns, key) == Get(img, ns, key)
    requires forall ns, key :: ns in after.buckets && key in after.buckets[ns] ==>
               ns in img.buckets && key in img.buckets[ns] && Get(after, ns, key) == Get(img, ns, key)
    ensures Inv(after) && Later(img, after)
  {
  }

  lemma EnsureKeepsInv(img: Image, ns: Namespace)
    requires Inv(img)
    ensures var ensured := img.(buckets := img.buckets[ns := Bucket(img, ns)]);
            Inv(ensured) && Later(img, ensured)
  {
    var ensured := img.(buckets := img.buckets[ns := Bucket(img, ns)]);
    assert forall ns', key' :: Get(ensured, ns', key') == Get(img, ns', key');
    RemoveKeepsInv(img, ensured);
  }

  lemma LaterReflexive(img: Image)
    requires Inv(img)
    ensures Later(img, img)
  {
  }

  lemma UpdatePuts(img: Image, ns: Namespace, key: Key, value: seq<byte>, expected: int64, now: int64)
    requires img.sequence < 0x7FFF_FFFF_FFFF_FFFF
    ensures var (after, result) := Update(img, ns, key, value, expected, now);
            if result.Success?
            then result.value.revision == img.sequence + 1
                 && after == Put(img.(sequence := img.sequence + 1), ns, key, result.value)
            else after == img
  {
  }

  lemma CreateKeepsInv(img: Image, ns: Namespace, key: Key, value: seq<byte>, now: int64)
    requires Inv(img) && img.sequence < 0x7FFF_FFFF_FFFF_FFFF
    ensures var after := Create(img, ns, key, value, now).0;
            Inv(after) && Later(img, after) && after.sequence <= img.sequence + 1
  {
    var ensured := img.(buckets := img.buckets[ns := Bucket(img, ns)]);
    EnsureKeepsInv(img, ns);
    CreatePuts(img, ns, key, value, now);
    var (after, result) := Create(img, ns, key, value, now);
    if result.Success? {
      PutKeepsInv(ensured, ns, key, result.value);
      LaterTransitive(img, ensured, after);
    }
  }

  lemma CreatePuts(img: Image, ns: Namespace, key: Key, value: seq<byte>, now: int64)
    requires img.sequence < 0x7FFF_FFFF_FFFF_FFFF
    ensures var ensured := img.(buckets := img.buckets[ns := Bucket(img, ns)]);
            var (after, result) := Create(img, ns, key, value, now);
            if result.Success?
            then result.value.revision == img.sequence + 1
                 && after == Put(ensured.(sequence := img.sequence + 1), ns, key, result.value)
            else after == ensured
  {
  }

  lemma UpdateKeepsInv(img: Image, ns: Namespace, key: Key, value: seq<byte>, expected: int64, now: int64)
    requires Inv(img) && img.sequence < 0x7FFF_FFFF_FFFF_FFFF
    ensures var after := Update(img, ns, key, value, expected, now).0;
            Inv(after) && Later(img, after) && after.sequence <= img.sequence + 1
  {
    UpdatePuts(img, ns, key, value, expected, now);
    var result := Update(img, ns, key, value, expected, now).1;
    if result.Success? {
      PutKeepsInv(img, ns, key, result.value);
    } else {
      LaterReflexive(img);
    }
  }

  lemma DeleteKeepsInv(img: Image, ns: Namespace, keys: set<Key>)
    requires Inv(img) && ns in img.buckets
    ensures var after := img.(buckets := img.buckets[ns := img.buckets[ns] - keys]);
            Inv(after) && Later(img, after)
  {
    var after := img.(buckets := img.buckets[ns := img.buckets[ns] - keys]);
    assert forall ns', key :: ns' in after.buckets && key in after.buckets[ns'] ==>
             Get(after, ns', key) == Get(img, ns', key);
    RemoveKeepsInv(img, after);
  }

  lemma StepKeepsInv(img: Image, op: Op)
    requires Inv(img) && img.sequence < 0x7FFF_FFFF_FFFF_FFFF
    ensures Inv(Step(img, op)) && Later(img, Step(img, op)) && Step(img, op).sequence <= img.sequence + 1
  {
    match op
    case CreateOp(ns, key, value, now) => CreateKeepsInv(img, ns, key, value, now);
    case UpdateOp(ns, key, value, expected, now) => UpdateKeepsInv(img, ns, key, value, expected, now);
    case DeleteOp(ns, key, _) =>
      if ns in img.buckets {
        DeleteKeepsInv(img, ns, {key});
      }
    case DeletePrefixOp(ns, prefix) =>
      if ns in img.buckets {
        DeleteKeepsInv(img, ns, Matches(img, ns, prefix));
      }
  }

  lemma LaterTransitive(a: Image, b: Image, c: Image)
    requires Later(a, b) && Later(b, c)
    ensures Later(a, c)
  {
  }

  lemma {:induction false} StepsKeepInv(img: Image, ops: seq<Op>)
    requires Inv(img) && img.sequence + |ops| < 0x8000_0000_0000_0000
    ensures Inv(Steps(img, ops)) && Later(img, Steps(img, ops)) && Steps(img, ops).sequence <= img.sequence + |ops|
    decreases |ops|
  {
    if ops != [] {
      var next := Step(img, ops[0]);
      StepKeepsInv(img, ops[0]);
      StepsKeepInv(next, ops[1..]);
      LaterTransitive(img, next, Steps(img, ops));
    }
  }

  const EMPTY := Image(map[], 0)

  // Bolt sequences never exceed int64: the run makes fewer operations than that.
  predicate FitsInt64(run: seq<Txn>) {
    OpCount(run) < 0x8000_0000_0000_0000
  }

  lemma {:induction false} OpCountSplit(run: seq<Txn>, n: nat)
    requires n < |run|
    ensures OpCount(run[..n + 1]) == OpCount(run[..n]) + |run[n].ops| && OpCount(run[..n + 1]) <= OpCount(run)
  {
    if n == 0 {
      assert run[..1][1..] == [] && run[..0] == [];
    } else {
      OpCountSplit(run[1..], n - 1);
      assert run[..n + 1][1..] == run[1..][..n] && run[..n][1..] == run[1..][..n - 1];
    }
  }

  lemma {:induction false} ReachableInv(run: seq<Txn>, n: nat)
    requires n <= |run| && FitsInt64(run)
    ensures Inv(After(EMPTY, run, n)) && After(EMPTY, run, n).sequence <= OpCount(run[..n])
            && OpCount(run[..n]) <= OpCount(run)
  {
    if n > 0 {
      ReachableInv(run, n - 1);
      OpCountSplit(run, n - 1);
      var before := After(EMPTY, run, n - 1);
      RunKeepsInv(before, run[n - 1]);
    }
  }

  lemma RunKeepsInv(img: Image, t: Txn)
    requires Inv(img) && img.sequence + |t.ops| < 0x8000_0000_0000_0000
    ensures Inv(Run(img, t)) && Later(img, Run(img, t)) && Run(img, t).sequence <= img.sequence + |t.ops|
  {
    StepsKeepInv(img, t.ops);
  }

  lemma {:induction false} RunsGrow(run: seq<Txn>, i: nat, j: nat)
    requires i <= j <= |run| && FitsInt64(run)
    ensures Later(After(EMPTY, run, i), After(EMPTY, run, j))
    decreases j - i
  {
    ReachableInv(run, i);
    if i < j {
      RunsGrow(run, i, j - 1);
      ReachableInv(run, j - 1);
      OpCountSplit(run, j - 1);
      RunKeepsInv(After(EMPTY, run, j - 1), run[j - 1]);
      LaterTransitive(After(EMPTY, run, i), After(EMPTY, run, j - 1), After(EMPTY, run, j));
    }
  }

  /**
   Committed revisions are positive and never reused: over a whole run, two records with the same revision, seen at any
   two points, are the same record under the same key, also across a delete and a create.
   */
  lemma RevisionsNeverReused(run: seq<Txn>, i: nat, j: nat, ns: Namespace, key: Key, ns': Namespace, key': Key)
    requires i <= j <= |run| && FitsInt64(run)
    requires Get(After(EMPTY, run, i), ns, key).Success? && Get(After(EMPTY, run, j), ns', key').Success?
    requires Get(After(EMPTY, run, i), ns, key).value.revision == Get(After(EMPTY, run, j), ns', key').value.revision
    ensures ns == ns' && key == key' && Get(After(EMPTY, run, i), ns, key) == Get(After(EMPTY, run, j), ns', key')
    ensures Get(After(EMPTY, run, i), ns, key).value.revision > 0
  {
    ReachableInv(run, i);
    RunsGrow(run, i, j);
    assert ns in After(EMPTY, run, i).buckets;
  }

  /** No ABA: a record with the same revision at two points of a run did not change at any point between them. */
  lemma NoABA(run: seq<Txn>, i: nat, k: nat, j: nat, ns: Namespace, key: Key)
    requires i <= k <= j <= |run| && FitsInt64(run)
    requires Get(After(EMPTY, run, i), ns, key).Success? && Get(After(EMPTY, run, j), ns, key).Success?
    requires Get(After(EMPTY, run, i), ns, key).value.revision == Get(After(EMPTY, run, j), ns, key).value.revision
    ensures Get(After(EMPTY, run, k), ns, key) == Get(After(EMPTY, run, i), ns, key)
  {
    ReachableInv(run, i);
    RunsGrow(run, i, k);
    RunsGrow(run, k, j);
    assert ns in After(EMPTY, run, i).buckets;
  }

  // What transaction j of a run sees after its first k operations.
  function Within(run: seq<Txn>, j: nat, k: nat): Image
    requires j < |run| && k <= |run[j].ops|
  {
    Steps(After(EMPTY, run, j), run[j].ops[..k])
  }

  lemma WithinIsLater(run: seq<Txn>, i: nat, j: nat, k: nat)
    requires i <= j < |run| && k <= |run[j].ops| && FitsInt64(run)
    ensures Inv(After(EMPTY, run, i)) && Inv(Within(run, j, k))
    ensures Later(After(EMPTY, run, i), After(EMPTY, run, j)) && Later(After(EMPTY, run, j), Within(run, j, k))
  {
    ReachableInv(run, i);
    ReachableInv(run, j);
    OpCountSplit(run, j);
    RunsGrow(run, i, j);
    StepsKeepInv(After(EMPTY, run, j), run[j].ops[..k]);
  }

  /**
   Optimistic concurrency: a client that read a record, and later updates or deletes it anywhere in a transaction,
   expecting the revision it read, succeeds exactly when the record is still what it read. So no other write came
   between, neither a committed one nor one of the same transaction.
   */
  lemma ReadModifyWrite(run: seq<Txn>, i: nat, j: nat, k: nat, ns: Namespace, key: Key, value: seq<byte>, now: int64)
    requires i <= j < |run| && k <= |run[j].ops| && FitsInt64(run)
    requires Get(After(EMPTY, run, i), ns, key).Success?
    ensures var read, current := Get(After(EMPTY, run, i), ns, key).value, Within(run, j, k);
            var updated, deleted := Update(current, ns, key, value, read.revision, now).1,
                Delete(current, ns, key, read.revision).1;
            && (updated.Success? <==> Get(current, ns, key) == Success(read))
            && (deleted.Success? <==> Get(current, ns, key) == Success(read))
            && (updated.Failure? ==> updated.error == NotExist || updated.error == Conflict)
            && (deleted.Failure? ==> deleted.error == NotExist || deleted.error == Conflict)
            && (updated.Success? ==> forall m :: i <= m <= j ==> Get(After(EMPTY, run, m), ns, key) == Success(read))
  {
    var read, current := Get(After(EMPTY, run, i), ns, key).value, Within(run, j, k);
    WithinIsLater(run, i, j, k);
    assert ns in After(EMPTY, run, i).buckets;
    if Get(current, ns, key) == Success(read) {
      assert Get(After(EMPTY, run, j), ns, key) == Success(read);
      forall m | i <= m <= j
        ensures Get(After(EMPTY, run, m), ns, key) == Success(read)
      {
        NoABA(run, i, m, j, ns, key);
      }
    }
  }

  /** What a rolled-back transaction was told is not final: its revision is given out again. Only committed revisions
      identify a value. */
  lemma RolledBackRevisionReused(img: Image, ns: Namespace, key: Key, value: seq<byte>, other: seq<byte>, now: int64)
    requires Inv(img) && key !in Bucket(img, ns)
    ensures var rolledBack := Run(img, Txn([CreateOp(ns, key, value, now)], true));
            && Create(img, ns, key, value, now).1.Success?
            && Create(rolledBack, ns, key, other, now).1.Success?
            && Create(rolledBack, ns, key, other, now).1.value.revision ==
                 Create(img, ns, key, value, now).1.value.revision
  {
  }
}
