/**
 The Bolt database as its methods run: a write transaction changes buckets and the sequence in place, cursor loops walk
 the keys of a bucket in order, and the database keeps the transaction's image only when it commits.
 */
module RecordDB {
  import opened Wrappers
  import opened RecordCodec
  import opened KeyOrder
  import opened RecordStore

  function NotBefore(keys: set<Key>, from: Key): set<Key> {
    set k | k in keys && !Less(k, from)
  }

  function Beyond(keys: set<Key>, at: Key): set<Key> {
    set k | k in keys && Less(at, k)
  }

  // Cursor.Seek: the first key at or after from.
  function Seek(keys: set<Key>, from: Key): Option<Key> {
    if NotBefore(keys, from) == {} then None else Some(Least(NotBefore(keys, from)))
  }

  // Cursor.Next: the first key after the one the cursor is at.
  function NextKey(keys: set<Key>, at: Key): Option<Key> {
    if Beyond(keys, at) == {} then None else Some(Least(Beyond(keys, at)))
  }

  predicate Increasing(keys: seq<Key>) {
    forall i, j :: 0 <= i < j < |keys| ==> Less(keys[i], keys[j])
  }

  // The cursor is at a key, or past the end, with the matching keys before it in seen.
  ghost predicate CursorAt(keys: set<Key>, prefix: Key, seen: seq<Key>, at: Option<Key>) {
    && Increasing(seen)
    && (forall k :: k in seen ==> k in keys && HasPrefix(k, prefix))
    && (at.Some? ==>
          at.value in keys && !Less(at.value, prefix) && forall i :: 0 <= i < |seen| ==> Less(seen[i], at.value))
    && (forall k :: k in keys && HasPrefix(k, prefix) && k !in seen ==> at.Some? && !Less(k, at.value))
  }

  lemma SeekFindsPrefix(keys: set<Key>, prefix: Key)
    ensures CursorAt(keys, prefix, [], Seek(keys, prefix))
  {
    forall k | k in keys && HasPrefix(k, prefix)
      ensures k in NotBefore(keys, prefix)
    {
      PrefixIsFirst(k, prefix);
    }
  }

  lemma NextKeepsCursor(keys: set<Key>, prefix: Key, seen: seq<Key>, at: Key)
    requires CursorAt(keys, prefix, seen, Some(at)) && HasPrefix(at, prefix)
    ensures CursorAt(keys, prefix, seen + [at], NextKey(keys, at))
  {
    var next, seen' := NextKey(keys, at), seen + [at];
    forall k | k in keys && HasPrefix(k, prefix) && k !in seen'
      ensures next.Some? && !Less(k, next.value)
    {
      assert k !in seen && k != at by {
        assert forall x :: x in seen' <==> x in seen || x == at;
      }
      LessTotal(k, at);
      assert k in Beyond(keys, at);
    }
    if next.Some? {
      forall i | 0 <= i < |seen'|
        ensures Less(seen'[i], next.value)
      {
        if i < |seen| {
          LessTransitive(seen[i], at, next.value);
        }
      }
      if Less(next.value, prefix) {
        LessTransitive(at, next.value, prefix);
      }
    }
  }

  // A cursor at the first key without the prefix has passed every key with it.
  lemma StopSeesAll(keys: set<Key>, prefix: Key, seen: seq<Key>, at: Option<Key>)
    requires CursorAt(keys, prefix, seen, at)
    requires at.Some? ==> !HasPrefix(at.value, prefix)
    ensures (set k | k in seen) == set k | k in keys && HasPrefix(k, prefix)
  {
    forall k | k in keys && HasPrefix(k, prefix)
      ensures k in seen
    {
      if k !in seen {
        PrefixIsContiguous(prefix, at.value, k);
      }
    }
  }

  lemma IncreasingIsDistinct(keys: seq<Key>)
    requires Increasing(keys)
    ensures |set k | k in keys| == |keys|
  {
    if keys != [] {
      var last, front := keys[|keys| - 1], keys[..|keys| - 1];
      IncreasingIsDistinct(front);
      forall k | k in front
        ensures k != last
      {
        LessIrreflexive(last);
      }
      assert (set k | k in keys) == (set k | k in front) + {last};
    }
  }

  datatype Record = Record(ns: Namespace, key: Key, stored: Stored)

  function KeysOf(records: seq<Record>): set<Key> {
    set i | 0 <= i < |records| :: records[i].key
  }

  class RecordTx {
    var buckets: map<Namespace, map<Key, seq<byte>>>
    var sequence: nat

    function Img(): Image
      reads this
    {
      Image(buckets, sequence)
    }

    constructor (img: Image)
      ensures Img() == img
    {
      buckets, sequence := img.buckets, img.sequence;
    }

    method EnsureBucket(ns: Namespace)
      modifies this`buckets
      ensures buckets == old(buckets)[ns := Bucket(old(Img()), ns)]
    {
      if ns !in buckets {
        buckets := buckets[ns := map[]];
      } else {
        assert buckets == buckets[ns := buckets[ns]];
      }
    }

    method NextRevision() returns (revision: int64)
      modifies this`sequence
      ensures sequence == NextSequence(old(sequence)) && revision == Int64(sequence)
    {
      sequence := NextSequence(sequence);
      revision := Int64(sequence);
    }

    method PutRecord(ns: Namespace, key: Key, r: Stored)
      requires ns in buckets
      modifies this`buckets
      ensures Img() == Put(old(Img()), ns, key, r)
    {
      var v := EncodeRecord(r);
      buckets := buckets[ns := buckets[ns][key := v[..]]];
    }

    method CreateRecord(ns: Namespace, key: Key, value: seq<byte>, now: int64) returns (r: Result<Stored, RecordError>)
      modifies this
      ensures (Img(), r) == Create(old(Img()), ns, key, value, now)
    {
      EnsureBucket(ns);
      if key in buckets[ns] {
        return Failure(Exist);
      }
      var revision := NextRevision();
      var stored := Stored(value, revision, now, now);
      PutRecord(ns, key, stored);
      r := Success(stored);
    }

    method UpdateRecord(ns: Namespace, key: Key, value: seq<byte>, expected: int64, now: int64)
      returns (r: Result<Stored, RecordError>)
      modifies this
      ensures (Img(), r) == Update(old(Img()), ns, key, value, expected, now)
    {
      var existing := Get(Img(), ns, key);
      if existing.Failure? {
        return Failure(existing.error);
      }
      if !CheckRevision(expected, existing.value.revision) {
        return Failure(Conflict);
      }
      var revision := NextRevision();
      var stored := Stored(value, revision, existing.value.created, now);
      EnsureBucket(ns);
      assert buckets == old(buckets);
      PutRecord(ns, key, stored);
      r := Success(stored);
    }

    method DeleteRecord(ns: Namespace, key: Key, expected: int64) returns (r: Result<(), RecordError>)
      modifies this`buckets
      ensures (Img(), r) == Delete(old(Img()), ns, key, expected)
    {
      var existing := Get(Img(), ns, key);
      if existing.Failure? {
        return Failure(existing.error);
      }
      if !CheckRevision(expected, existing.value.revision) {
        return Failure(Conflict);
      }
      buckets := buckets[ns := buckets[ns] - {key}];
      r := Success(());
    }

    /**
     The scan from Seek to the first key without the prefix. A success holds each match once, in the order of Less, and
     a match that is no encoding makes it fail.
     */
    method ListRecords(ns: Namespace, prefix: Key) returns (r: Result<seq<Record>, RecordError>)
      ensures r.Success? <==> AllDecode(Img(), ns, Matches(Img(), ns, prefix))
      ensures r.Failure? ==> r.error == Damaged
      ensures r.Success? ==>
                && (forall i, j :: 0 <= i < j < |r.value| ==> Less(r.value[i].key, r.value[j].key))
                && KeysOf(r.value) == Matches(Img(), ns, prefix)
                && |r.value| == |Matches(Img(), ns, prefix)|
                && (forall i :: 0 <= i < |r.value| ==>
                      r.value[i].ns == ns && Get(Img(), ns, r.value[i].key) == Success(r.value[i].stored))
    {
      if ns !in buckets {
        assert Matches(Img(), ns, prefix) == {};
        return Success([]);
      }
      var bucket := buckets[ns];
      var records: seq<Record> := [];
      ghost var seen: seq<Key> := [];
      var at := Seek(bucket.Keys, prefix);
      SeekFindsPrefix(bucket.Keys, prefix);
      while at.Some? && HasPrefix(at.value, prefix)
        invariant CursorAt(bucket.Keys, prefix, seen, at)
        invariant |records| == |seen|
        invariant forall i :: 0 <= i < |seen| ==> records[i].ns == ns && records[i].key == seen[i]
                                                  && Get(Img(), ns, seen[i]) == Success(records[i].stored)
        decreases if at.Some? then |NotBefore(bucket.Keys, at.value)| else 0, at.Some?
      {
        var key := at.value;
        match Decode(bucket[key]) {
          case Failure(_) =>
            assert key in Matches(Img(), ns, prefix) && Get(Img(), ns, key).Failure?;
            return Failure(Damaged);
          case Success(stored) => records := records + [Record(ns, key, stored)];
        }
        NextKeepsCursor(bucket.Keys, prefix, seen, key);
        seen := seen + [key];
        at := NextKey(bucket.Keys, key);
        if at.Some? {
          NextIsFewer(bucket.Keys, key, at.value);
        }
      }
      StopSeesAll(bucket.Keys, prefix, seen, at);
      IncreasingIsDistinct(seen);
      assert KeysOf(records) == set k | k in seen;
      forall k | k in Matches(Img(), ns, prefix)
        ensures Get(Img(), ns, k).Success?
      {
        var i :| 0 <= i < |seen| && seen[i] == k;
      }
      r := Success(records);
    }

    /**
     DeletePrefix in place. All matches are decoded before the first one is taken out, so a failure takes out none.
     */
    method DeleteRecordPrefix(ns: Namespace, prefix: Key) returns (r: Result<nat, RecordError>)
      modifies this`buckets
      ensures (Img(), r) == DeletePrefix(old(Img()), ns, prefix)
    {
      if ns !in buckets {
        return Success(0);
      }
      var found := ListRecords(ns, prefix);
      if found.Failure? {
        return Failure(found.error);
      }
      var records := found.value;
      ghost var before := buckets[ns];
      var i := 0;
      while i < |records|
        invariant 0 <= i <= |records|
        invariant ns in buckets && buckets == old(buckets)[ns := buckets[ns]]
        invariant buckets[ns] == before - KeysOf(records[..i])
      {
        KeysOfNext(records, i);
        buckets := buckets[ns := buckets[ns] - {records[i].key}];
        i := i + 1;
      }
      assert records[..i] == records;
      r := Success(|records|);
    }
  }

  lemma KeysOfNext(records: seq<Record>, i: nat)
    requires i < |records|
    ensures KeysOf(records[..i + 1]) == KeysOf(records[..i]) + {records[i].key}
  {
    assert records[..i + 1] == records[..i] + [records[i]];
  }

  lemma NextIsFewer(keys: set<Key>, at: Key, next: Key)
    requires at in keys && Less(at, next)
    ensures |NotBefore(keys, next)| < |NotBefore(keys, at)|
  {
    var small, large := NotBefore(keys, next), NotBefore(keys, at);
    forall k | k in small
      ensures k in large - {at}
    {
      if Less(k, at) {
        LessTransitive(k, at, next);
      }
    }
    LessIrreflexive(at);
    assert small <= large - {at} && at in large;
    SubsetIsNoLarger(small, large - {at});
  }

  lemma {:induction false} SubsetIsNoLarger(small: set<Key>, large: set<Key>)
    requires small <= large
    ensures |small| <= |large|
    decreases |small|
  {
    if small != {} {
      var k :| k in small;
      SubsetIsNoLarger(small - {k}, large - {k});
    }
  }

  class BoltDB {
    var committed: Image

    constructor ()
      ensures committed == EMPTY
    {
      committed := EMPTY;
    }

    /** Runs the operations of one transaction on an image of its own, and keeps that image only if nothing failed. */
    method RecordTxn(t: Txn)
      modifies this
      ensures committed == Run(old(committed), t)
    {
      var tx := new RecordTx(committed);
      var i := 0;
      while i < |t.ops|
        invariant 0 <= i <= |t.ops| && fresh(tx) && committed == old(committed)
        invariant Steps(committed, t.ops) == Steps(tx.Img(), t.ops[i..])
      {
        match t.ops[i] {
          case CreateOp(ns, key, value, now) => var _ := tx.CreateRecord(ns, key, value, now);
          case UpdateOp(ns, key, value, expected, now) => var _ := tx.UpdateRecord(ns, key, value, expected, now);
          case DeleteOp(ns, key, expected) => var _ := tx.DeleteRecord(ns, key, expected);
          case DeletePrefixOp(ns, prefix) => var _ := tx.DeleteRecordPrefix(ns, prefix);
        }
        assert t.ops[i..][1..] == t.ops[i + 1..];
        i := i + 1;
      }
      if !t.failed {
        committed := tx.Img();
      }
    }
  }
}
