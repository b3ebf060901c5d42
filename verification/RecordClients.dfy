/**
 Clients that read records at any time, and later write by what they read, in one transaction that guards each record
 they read. However they interleave with one another and with any other transactions, they are serialisable: each that
 commits might have read its records at its commit.
 */
module RecordClients {
  import opened Wrappers
  import opened RecordCodec
  import opened KeyOrder
  import opened RecordStore
  import opened RecordContents

  // Which records a client reads, and the operations it makes of them. These may also depend on anything that the
  // transaction itself reads from its image.
  datatype Client = Client(places: seq<Place>, ops: (seq<Option<Stored>>, Image) -> seq<Op>)

  // What reading a record gives: None when there is no such record.
  function Read(img: Image, place: Place): Option<Stored> {
    match Get(img, place.ns, place.key)
    case Success(r) => Some(r)
    case Failure(_) => None
  }

  function Reads(img: Image, c: Client): (records: seq<Option<Stored>>)
    ensures |records| == |c.places| && forall i :: 0 <= i < |records| ==> records[i] == Read(img, c.places[i])
  {
    seq(|c.places|, i requires 0 <= i < |c.places| => Read(img, c.places[i]))
  }

  // Each record was read at a point of its own.
  function ReadsAt(run: seq<Txn>, c: Client, seen: seq<nat>): (records: seq<Option<Stored>>)
    requires |seen| == |c.places| && forall i :: 0 <= i < |seen| ==> seen[i] <= |run|
    ensures |records| == |seen|
    ensures forall i :: 0 <= i < |seen| ==> records[i] == Read(After(EMPTY, run, seen[i]), c.places[i])
  {
    seq(|seen|, i requires 0 <= i < |seen| => Read(After(EMPTY, run, seen[i]), c.places[i]))
  }

  predicate OpSucceeds(img: Image, op: Op) {
    match op
    case CreateOp(ns, key, value, now) => Create(img, ns, key, value, now).1.Success?
    case UpdateOp(ns, key, value, expected, now) => Update(img, ns, key, value, expected, now).1.Success?
    case DeleteOp(ns, key, expected) => Delete(img, ns, key, expected).1.Success?
    case DeletePrefixOp(ns, prefix) => DeletePrefix(img, ns, prefix).1.Success?
  }

  // An update or a delete that expects the revision that was read, or a create when there was no record.
  predicate Guards(op: Op, place: Place, read: Option<Stored>) {
    match op
    case CreateOp(ns, key, _, _) => place == Place(ns, key) && read.None?
    case UpdateOp(ns, key, _, expected, _) => place == Place(ns, key) && read.Some? && read.value.revision == expected
    case DeleteOp(ns, key, expected) => place == Place(ns, key) && read.Some? && read.value.revision == expected
    case DeletePrefixOp(_, _) => false
  }

  predicate Removes(op: Op, place: Place) {
    match op
    case DeleteOp(ns, key, _) => place == Place(ns, key)
    case DeletePrefixOp(ns, prefix) => place.ns == ns && HasPrefix(place.key, prefix)
    case _ => false
  }

  // Some operation of transaction j guards the record and succeeds. A create does that only while none before it in the
  // transaction removed the record.
  predicate Guarded(run: seq<Txn>, j: nat, place: Place, read: Option<Stored>)
    requires j < |run|
  {
    exists k :: 0 <= k < |run[j].ops| && Guards(run[j].ops[k], place, read)
           && OpSucceeds(Within(run, j, k), run[j].ops[k])
                && (read.None? ==> forall l :: 0 <= l < k ==> !Removes(run[j].ops[l], place))
  }

  // Who made a transaction: a client, with the points at which it read its records.
  datatype Author = Author(client: Client, seen: seq<nat>)

  predicate Earlier(a: Author, j: nat) {
    |a.seen| == |a.client.places| && forall i :: 0 <= i < |a.seen| ==> a.seen[i] <= j
  }

  // The transaction is what its author makes of the records it read. One that commits guards each of them. What else it
  // does is up to its author: further creates, updates, deletes and prefix deletes, also such as fail.
  predicate MadeBy(run: seq<Txn>, j: nat, a: Author)
    requires j < |run|
  {
    && Earlier(a, j)
    && var records := ReadsAt(run, a.client, a.seen);
    && run[j].ops == a.client.ops(records, After(EMPTY, run, j))
    && (!run[j].failed ==> forall i :: 0 <= i < |records| ==> Guarded(run, j, a.client.places[i], records[i]))
  }

  lemma StepKeepsRecord(img: Image, op: Op, place: Place)
    requires place.key in Bucket(img, place.ns) && !Removes(op, place)
    ensures place.key in Bucket(Step(img, op), place.ns)
  {
  }

  // Only an operation that removes a record makes room for a create.
  lemma {:induction false} StepsKeepRecord(img: Image, ops: seq<Op>, place: Place)
    requires place.key in Bucket(img, place.ns) && forall l :: 0 <= l < |ops| ==> !Removes(ops[l], place)
    ensures place.key in Bucket(Steps(img, ops), place.ns)
    decreases |ops|
  {
    if ops != [] {
      StepKeepsRecord(img, ops[0], place);
      StepsKeepRecord(Step(img, ops[0]), ops[1..], place);
    }
  }

  // A record that is guarded is at the commit what it was when it was read.
  lemma GuardHolds(run: seq<Txn>, i: nat, j: nat, place: Place)
    requires i <= j < |run| && FitsInt64(run) && Guarded(run, j, place, Read(After(EMPTY, run, i), place))
    ensures Read(After(EMPTY, run, j), place) == Read(After(EMPTY, run, i), place)
  {
    var before, read := After(EMPTY, run, j), Read(After(EMPTY, run, i), place);
    var k :| 0 <= k < |run[j].ops| && Guards(run[j].ops[k], place, read)
             && OpSucceeds(Within(run, j, k), run[j].ops[k])
             && (read.None? ==> forall l :: 0 <= l < k ==> !Removes(run[j].ops[l], place));
    if read.None? {
      if place.key in Bucket(before, place.ns) {
        StepsKeepRecord(before, run[j].ops[..k], place);
        assert false;
      }
    } else {
      ExpectedHolds(run, i, j, k, place);
    }
  }

  lemma ExpectedHolds(run: seq<Txn>, i: nat, j: nat, k: nat, place: Place)
    requires i <= j < |run| && FitsInt64(run) && k < |run[j].ops| && Read(After(EMPTY, run, i), place).Some?
    requires Guards(run[j].ops[k], place, Read(After(EMPTY, run, i), place))
    requires OpSucceeds(Within(run, j, k), run[j].ops[k])
    ensures Read(After(EMPTY, run, j), place) == Read(After(EMPTY, run, i), place)
  {
    var op := run[j].ops[k];
    var value, now := if op.UpdateOp? then op.value else [], if op.UpdateOp? then op.now else 0;
    ReadModifyWrite(run, i, j, k, place.ns, place.key, value, now);
    WithinIsLater(run, i, j, k);
    assert place.ns in After(EMPTY, run, i).buckets;
  }

  /** A client that commits sees at its commit exactly what it read before. */
  lemma ReadsStillHold(run: seq<Txn>, j: nat, a: Author)
    requires j < |run| && FitsInt64(run) && MadeBy(run, j, a) && !run[j].failed
    ensures Reads(After(EMPTY, run, j), a.client) == ReadsAt(run, a.client, a.seen)
  {
    forall i | 0 <= i < |a.seen|
      ensures Read(After(EMPTY, run, j), a.client.places[i]) == Read(After(EMPTY, run, a.seen[i]), a.client.places[i])
    {
      assert Guarded(run, j, a.client.places[i], ReadsAt(run, a.client, a.seen)[i]);
      GuardHolds(run, a.seen[i], j, a.client.places[i]);
    }
  }

  // The client reads and writes in one step.
  function Atomically(img: Image, c: Client): Image {
    Steps(img, c.ops(Reads(img, c), img))
  }

  // The run in which each client that commits reads its records at its commit.
  function Serial(run: seq<Txn>, authors: map<nat, Author>, n: nat): Image
    requires n <= |run|
  {
    if n == 0 then EMPTY
    else
      var before := Serial(run, authors, n - 1);
      if n - 1 in authors && !run[n - 1].failed then Atomically(before, authors[n - 1].client)
      else Run(before, run[n - 1])
  }

  /** Read-modify-write clients are serialisable: every run, at every point, is where the serial one is. */
  lemma {:induction false} Serialisable(run: seq<Txn>, authors: map<nat, Author>, n: nat)
    requires n <= |run| && FitsInt64(run)
    requires forall j :: j in authors && j < |run| ==> MadeBy(run, j, authors[j])
    ensures Serial(run, authors, n) == After(EMPTY, run, n)
  {
    if n > 0 {
      Serialisable(run, authors, n - 1);
      if n - 1 in authors && !run[n - 1].failed {
        ReadsStillHold(run, n - 1, authors[n - 1]);
      }
    }
  }
}
