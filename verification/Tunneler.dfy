/**
 The tunneler's registry of local listeners: entries by key and by ID, and the sockets that the process has bound. In
 every interleaving of its critical sections the two indexes hold the same entries, IDs are never reused, and the bound
 sockets are exactly those of the listening entries.
 */
module Tunneler {
  import opened Wrappers

  // A forward as the server describes it. The key is made of every field but the source port.
  datatype Forward = Forward(key: string, owner: string, srcPort: int)

  // A registered listener. It listens when it has a socket.
  datatype Entry = Entry(forward: Forward, socket: Option<nat>)

  // The registry, and the sockets bound by this process with the port of each.
  datatype Table = Table(entries: map<int, Entry>, ids: map<string, int>, nextID: int, sockets: map<nat, int>)

  // What the system answers to a request to listen on a port.
  datatype Bind = Refused | Bound(socket: nat, port: int)

  datatype Error = NotFound | AlreadyActive | AlreadyInactive | ListenFailed | MoveFailed | RestoreFailed

  // The system may refuse any port. It gives port 0 a free port of its choice.
  predicate Possible(sockets: map<nat, int>, port: int, bind: Bind) {
    bind.Bound? ==>
      bind.socket !in sockets && bind.port !in sockets.Values && bind.port != 0 && (port != 0 ==> bind.port == port)
  }

  predicate Listening(t: Table, id: int) {
    id in t.entries && t.entries[id].socket.Some?
  }

  function Added(t: Table, f: Forward): Table {
    if f.key in t.ids then t
    else t.(entries := t.entries[t.nextID + 1 := Entry(f, None)], ids := t.ids[f.key := t.nextID + 1],
            nextID := t.nextID + 1)
  }

  function Activated(t: Table, id: int, bind: Bind): Table
    requires id in t.entries
  {
    if t.entries[id].socket.Some? || bind.Refused? then t
    else t.(entries := t.entries[id := t.entries[id].(socket := Some(bind.socket))],
            sockets := t.sockets[bind.socket := bind.port])
  }

  function Deactivated(t: Table, id: int): Table
    requires id in t.entries
  {
    var e := t.entries[id];
    if e.socket.None? then t
    else t.(entries := t.entries[id := e.(socket := None)], sockets := t.sockets - {e.socket.value})
  }

  function WithPort(t: Table, id: int, port: int): Table
    requires id in t.entries
  {
    var e := t.entries[id];
    t.(entries := t.entries[id := e.(forward := e.forward.(srcPort := port))])
  }

  // A move of an active entry stops it, and starts it on the new port. When the system refuses that, the entry goes
  // back.
  function Moved(t: Table, id: int, port: int, bind: Bind, restore: Bind): Table
    requires id in t.entries
  {
    var there := WithPort(Deactivated(t, id), id, port);
    if t.entries[id].socket.None? then there
    else if bind.Bound? then Activated(there, id, bind)
    else Activated(WithPort(there, id, t.entries[id].forward.srcPort), id, restore)
  }

  function Removed(t: Table, key: string): Table
    requires key in t.ids && t.ids[key] in t.entries
  {
    var id := t.ids[key];
    var off := Deactivated(t, id);
    off.(entries := off.entries - {id}, ids := off.ids - {key})
  }

  datatype Step =
    | Add(forward: Forward)
    | Activate(id: int, bind: Bind)
    | Deactivate(id: int)
    | Move(id: int, port: int, bind: Bind, restore: Bind)
    | Remove(key: string)

  // The answers of the system fit the sockets that are bound when it is asked.
  predicate Enabled(t: Table, step: Step) {
    match step
    case Add(_) => true
    case Activate(id, bind) => id in t.entries ==> Possible(t.sockets, t.entries[id].forward.srcPort, bind)
    case Deactivate(_) => true
    case Move(id, port, bind, restore) =>
      id in t.entries ==>
        && Possible(Deactivated(t, id).sockets, port, bind)
        && Possible(Deactivated(t, id).sockets, t.entries[id].forward.srcPort, restore)
    case Remove(_) => true
  }

  // One critical section. An ID or a key that is not registered changes nothing.
  function Next(t: Table, step: Step): Table {
    match step
    case Add(f) => Added(t, f)
    case Activate(id, bind) => if id in t.entries then Activated(t, id, bind) else t
    case Deactivate(id) => if id in t.entries then Deactivated(t, id) else t
    case Move(id, port, bind, restore) => if id in t.entries then Moved(t, id, port, bind, restore) else t
    case Remove(key) => if key in t.ids && t.ids[key] in t.entries then Removed(t, key) else t
  }

  /** The key index and the ID index hold the same entries, one to one. */
  predicate Indexed(t: Table) {
    && (forall key :: key in t.ids ==> t.ids[key] in t.entries && t.entries[t.ids[key]].forward.key == key)
    && (forall id :: id in t.entries ==>
          0 < id <= t.nextID && t.entries[id].forward.key in t.ids && t.ids[t.entries[id].forward.key] == id)
    && t.nextID >= 0
  }

  // Each listening entry has a bound socket, on its port unless that is 0.
  ghost predicate Owned(t: Table) {
    forall id :: Listening(t, id) ==>
      && t.entries[id].socket.value in t.sockets
      && (t.entries[id].forward.srcPort != 0 ==> t.sockets[t.entries[id].socket.value] == t.entries[id].forward.srcPort)
  }

  ghost predicate Unshared(t: Table) {
    forall a, b :: Listening(t, a) && Listening(t, b) && t.entries[a].socket == t.entries[b].socket ==> a == b
  }

  ghost predicate NoLeak(t: Table) {
    forall s :: s in t.sockets ==> exists id :: Listening(t, id) && t.entries[id].socket == Some(s)
  }

  // No two sockets are on one port, and none is on port 0.
  predicate OnePortEach(sockets: map<nat, int>) {
    && (forall s :: s in sockets ==> sockets[s] != 0)
    && (forall r, s :: r in sockets && s in sockets && sockets[r] == sockets[s] ==> r == s)
  }

  /** The bound sockets are those of the listening entries, one each, and on a port each. */
  ghost predicate Conserved(t: Table) {
    Owned(t) && Unshared(t) && NoLeak(t) && OnePortEach(t.sockets)
  }

  ghost predicate Inv(t: Table) {
    Indexed(t) && Conserved(t)
  }

  const EMPTY := Table(map[], map[], 0, map[])

  lemma ActivatedKeeps(t: Table, id: int, bind: Bind)
    requires Inv(t) && id in t.entries && Possible(t.sockets, t.entries[id].forward.srcPort, bind)
    ensures Inv(Activated(t, id, bind))
  {
    if Activated(t, id, bind) != t {
      ActivatedIndexed(t, id, bind);
      ActivatedOwns(t, id, bind);
      ActivatedLeaksNothing(t, id, bind);
      PortTaken(t.sockets, bind);
    }
  }

  lemma ActivatedIndexed(t: Table, id: int, bind: Bind)
    requires Indexed(t) && id in t.entries
    ensures Indexed(Activated(t, id, bind))
  {
  }

  lemma ActivatedOwns(t: Table, id: int, bind: Bind)
    requires Owned(t) && Unshared(t) && id in t.entries && !Listening(t, id) && bind.Bound?
    requires Possible(t.sockets, t.entries[id].forward.srcPort, bind)
    ensures Owned(Activated(t, id, bind)) && Unshared(Activated(t, id, bind))
  {
    var u := Activated(t, id, bind);
    forall k | Listening(u, k) && k != id
      ensures Listening(t, k) && u.entries[k] == t.entries[k] && t.entries[k].socket.value in t.sockets
    {
    }
  }

  lemma ActivatedLeaksNothing(t: Table, id: int, bind: Bind)
    requires NoLeak(t) && id in t.entries && !Listening(t, id) && bind.Bound?
    ensures NoLeak(Activated(t, id, bind))
  {
    var u := Activated(t, id, bind);
    assert Listening(u, id);
    forall s | s in u.sockets
      ensures exists k :: Listening(u, k) && u.entries[k].socket == Some(s)
    {
      if s != bind.socket {
        var k :| Listening(t, k) && t.entries[k].socket == Some(s);
        assert Listening(u, k);
      }
    }
  }

  lemma PortTaken(sockets: map<nat, int>, bind: Bind)
    requires OnePortEach(sockets) && bind.Bound? && bind.socket !in sockets && bind.port !in sockets.Values
             && bind.port != 0
    ensures OnePortEach(sockets[bind.socket := bind.port])
  {
    forall s | s in sockets
      ensures sockets[s] != bind.port
    {
      assert sockets[s] in sockets.Values;
    }
  }

  lemma DeactivatedKeeps(t: Table, id: int)
    requires Inv(t) && id in t.entries
    ensures Inv(Deactivated(t, id)) && !Listening(Deactivated(t, id), id)
    ensures Deactivated(t, id).entries.Keys == t.entries.Keys
  {
    var u := Deactivated(t, id);
    if u != t {
      assert Listening(t, id);
      forall k | Listening(u, k)
        ensures Listening(t, k) && k != id
      {
      }
      forall s | s in u.sockets
        ensures exists k :: Listening(u, k) && u.entries[k].socket == Some(s)
      {
        var k :| Listening(t, k) && t.entries[k].socket == Some(s);
        assert Listening(u, k);
      }
    }
  }

  lemma SameSockets(t: Table, u: Table)
    requires Conserved(t) && u.sockets == t.sockets
    requires forall k :: Listening(t, k) ==> Listening(u, k) && u.entries[k] == t.entries[k]
    requires forall k :: Listening(u, k) ==> Listening(t, k)
    ensures Conserved(u)
  {
    forall s | s in u.sockets
      ensures exists k :: Listening(u, k) && u.entries[k].socket == Some(s)
    {
      var k :| Listening(t, k) && t.entries[k].socket == Some(s);
      assert Listening(u, k);
    }
  }

  lemma WithPortKeeps(t: Table, id: int, port: int)
    requires Inv(t) && id in t.entries && !Listening(t, id)
    ensures Inv(WithPort(t, id, port)) && !Listening(WithPort(t, id, port), id)
  {
    SameSockets(t, WithPort(t, id, port));
  }

  lemma AddedKeeps(t: Table, f: Forward)
    requires Inv(t)
    ensures Inv(Added(t, f))
  {
    assert t.nextID + 1 !in t.entries;
    SameSockets(t, Added(t, f));
    AddedIndexed(t, f);
  }

  lemma AddedIndexed(t: Table, f: Forward)
    requires Indexed(t)
    ensures Indexed(Added(t, f))
  {
    assert t.nextID + 1 !in t.entries;
    assert forall key :: key in t.ids ==> t.ids[key] != t.nextID + 1;
  }

  lemma RemovedKeeps(t: Table, key: string)
    requires Inv(t) && key in t.ids
    ensures Inv(Removed(t, key))
  {
    DeactivatedKeeps(t, t.ids[key]);
    SameSockets(Deactivated(t, t.ids[key]), Removed(t, key));
    RemovedIndexed(t, key);
  }

  lemma RemovedIndexed(t: Table, key: string)
    requires Indexed(t) && key in t.ids
    ensures Indexed(Removed(t, key))
  {
    assert forall k :: k in t.ids && k != key ==> t.ids[k] != t.ids[key];
  }

  /** Every critical section keeps the registry and the sockets in step. */
  lemma StepKeepsInv(t: Table, step: Step)
    requires Inv(t) && Enabled(t, step)
    ensures Inv(Next(t, step))
  {
    match step
    case Add(f) => AddedKeeps(t, f);
    case Activate(id, bind) => if id in t.entries { ActivatedKeeps(t, id, bind); }
    case Deactivate(id) => if id in t.entries { DeactivatedKeeps(t, id); }
    case Move(id, port, bind, restore) => if id in t.entries { MovedKeeps(t, id, port, bind, restore); }
    case Remove(key) => if key in t.ids { RemovedKeeps(t, key); }
  }

  lemma MovedKeeps(t: Table, id: int, port: int, bind: Bind, restore: Bind)
    requires Inv(t) && id in t.entries && Enabled(t, Move(id, port, bind, restore))
    ensures Inv(Moved(t, id, port, bind, restore))
  {
    DeactivatedKeeps(t, id);
    var off := Deactivated(t, id);
    WithPortKeeps(off, id, port);
    var there := WithPort(off, id, port);
    if t.entries[id].socket.Some? {
      if bind.Bound? {
        ActivatedKeeps(there, id, bind);
      } else {
        WithPortKeeps(there, id, t.entries[id].forward.srcPort);
        ActivatedKeeps(WithPort(there, id, t.entries[id].forward.srcPort), id, restore);
      }
    }
  }

  // The socket is bound by the one and not by the other.
  predicate SocketsAre(t: Table, closed: set<nat>, bound: map<nat, int>, u: Table) {
    u.sockets == (t.sockets - closed) + bound
  }

  /**
   What each critical section does to entries and sockets: a new key gets the next ID and an inactive entry, an inactive
   entry is started on the socket that the system gives, an active one is stopped, and a key is forgotten with its
   socket. What is not registered, or is so already, changes nothing.
   */
  lemma StepMeaning(t: Table, step: Step)
    requires Inv(t) && Enabled(t, step)
    ensures var u := Next(t, step);
            match step
            case Add(f) =>
              if f.key in t.ids then u == t
              else u == Table(t.entries[t.nextID + 1 := Entry(f, None)], t.ids[f.key := t.nextID + 1], t.nextID + 1,
                              t.sockets)
            case Activate(id, bind) =>
              if id !in t.entries || t.entries[id].socket.Some? || bind.Refused? then u == t
              else
                && SocketsAre(t, {}, map[bind.socket := bind.port], u) && u.ids == t.ids && u.nextID == t.nextID
                && u.entries == t.entries[id := Entry(t.entries[id].forward, Some(bind.socket))]
            case Deactivate(id) =>
              if id !in t.entries || t.entries[id].socket.None? then u == t
              else
                && SocketsAre(t, {t.entries[id].socket.value}, map[], u) && u.ids == t.ids && u.nextID == t.nextID
                && u.entries == t.entries[id := Entry(t.entries[id].forward, None)]
            case Move(id, port, bind, restore) =>
              if id !in t.entries then u == t else u == Moved(t, id, port, bind, restore)
            case Remove(key) =>
              if key !in t.ids then u == t
              else
                var id := t.ids[key];
                && u.ids == t.ids - {key} && u.entries == t.entries - {id} && u.nextID == t.nextID
                && SocketsAre(t, if t.entries[id].socket.Some? then {t.entries[id].socket.value} else {}, map[], u)
  {
    match step
    case Remove(key) => if key in t.ids { RemovedInOnePiece(t, key); }
    case _ =>
  }

  // A run from an empty registry: the table before each critical section, and the one after the last.
  ghost predicate Run(trace: seq<Table>, steps: seq<Step>) {
    && |trace| == |steps| + 1 && trace[0] == EMPTY
    && forall i :: 0 <= i < |steps| ==> Enabled(trace[i], steps[i]) && trace[i + 1] == Next(trace[i], steps[i])
  }

  /** In every interleaving, the indexes agree and no socket leaks. */
  lemma {:induction false} RunKeepsInv(trace: seq<Table>, steps: seq<Step>, i: nat)
    requires Run(trace, steps) && i < |trace|
    ensures Inv(trace[i])
  {
    if i > 0 {
      RunKeepsInv(trace, steps, i - 1);
      StepKeepsInv(trace[i - 1], steps[i - 1]);
    }
  }

  // No ID of the first table stands for another key in the second.
  predicate IDsKept(t: Table, u: Table) {
    && t.nextID <= u.nextID
    && forall id :: id in u.entries ==>
         id > t.nextID || (id in t.entries && t.entries[id].forward.key == u.entries[id].forward.key)
  }

  /** IDs only grow: one that is given out later is larger than any before it, and an ID always means the same key. */
  lemma {:induction false} IDsAreNeverReused(trace: seq<Table>, steps: seq<Step>, i: nat, j: nat)
    requires Run(trace, steps) && i <= j < |trace|
    ensures IDsKept(trace[i], trace[j])
    decreases j - i
  {
    if i < j {
      IDsAreNeverReused(trace, steps, i, j - 1);
      RunStepKeepsIDs(trace, steps, j - 1);
      KeptOver(trace[i], trace[j - 1], trace[j]);
    }
  }

  lemma RunStepKeepsIDs(trace: seq<Table>, steps: seq<Step>, i: nat)
    requires Run(trace, steps) && i < |steps|
    ensures IDsKept(trace[i], trace[i + 1])
  {
    StepKeepsIDs(trace[i], steps[i]);
  }

  lemma KeptOver(a: Table, b: Table, c: Table)
    requires IDsKept(a, b) && IDsKept(b, c)
    ensures IDsKept(a, c)
  {
  }

  lemma StepKeepsIDs(t: Table, step: Step)
    ensures IDsKept(t, Next(t, step))
  {
    if step.Move? && step.id in t.entries {
      MovedInOnePiece(t, step.id, step.port, step.bind, step.restore);
    }
  }

  /** Once removed, an entry never comes back under its ID. */
  lemma RemovedForGood(trace: seq<Table>, steps: seq<Step>, i: nat, j: nat, k: nat, id: int)
    requires Run(trace, steps) && i <= j <= k < |trace| && id in trace[i].entries && id !in trace[j].entries
    ensures id !in trace[k].entries
  {
    RunKeepsInv(trace, steps, i);
    IDsAreNeverReused(trace, steps, i, j);
    IDsAreNeverReused(trace, steps, j, k);
  }

  // The source ports of the listening entries.
  function ListeningPorts(t: Table): set<int> {
    set id | id in t.entries && t.entries[id].socket.Some? :: t.entries[id].forward.srcPort
  }

  /**
   The ports that the process has bound are the source ports of the listening entries, just when none of those is 0. An
   entry with port 0 listens on a port that the registry does not name.
   */
  lemma BoundPortsAreListed(t: Table)
    requires Inv(t)
    ensures t.sockets.Values == ListeningPorts(t) <==> 0 !in ListeningPorts(t)
  {
    if 0 !in ListeningPorts(t) {
      forall id | Listening(t, id)
        ensures t.entries[id].forward.srcPort in ListeningPorts(t)
      {
      }
      forall p | p in t.sockets.Values
        ensures p in ListeningPorts(t)
      {
        var s :| s in t.sockets && t.sockets[s] == p;
        var id :| Listening(t, id) && t.entries[id].socket == Some(s);
      }
      forall p | p in ListeningPorts(t)
        ensures p in t.sockets.Values
      {
        var id :| id in t.entries && t.entries[id].socket.Some? && t.entries[id].forward.srcPort == p;
        assert Listening(t, id);
      }
    } else {
      assert 0 !in t.sockets.Values;
    }
  }

  /**
   Such an entry occurs: a forward with source port 0 that is added and started on any port that the system gives it.
   */
  lemma PortZeroListens(f: Forward, socket: nat, port: int)
    requires f.srcPort == 0 && port != 0
    ensures var steps := [Add(f), Activate(1, Bound(socket, port))];
            exists trace: seq<Table> :: Run(trace, steps) && 0 in ListeningPorts(trace[2])
                   && trace[2].sockets == map[socket := port]
  {
    var steps := [Add(f), Activate(1, Bound(socket, port))];
    var added := Added(EMPTY, f);
    var trace := [EMPTY, added, Activated(added, 1, Bound(socket, port))];
    assert trace[2].entries[1].forward.srcPort in ListeningPorts(trace[2]);
    assert Run(trace, steps);
  }

  /** Removing an entry frees its socket, and no other. */
  lemma RemoveFreesItsSocket(t: Table, key: string)
    requires Inv(t) && key in t.ids
    ensures var e := t.entries[t.ids[key]];
            && Removed(t, key).sockets == t.sockets - (if e.socket.Some? then {e.socket.value} else {})
            && key !in Removed(t, key).ids && t.ids[key] !in Removed(t, key).entries
            && (forall k :: k in t.ids && k != key ==>
                  k in Removed(t, key).ids && Removed(t, key).entries[t.ids[k]] == t.entries[t.ids[k]])
  {
    RemovedKeeps(t, key);
    assert forall k :: k in t.ids && k != key ==> t.ids[k] != t.ids[key];
  }

  /**
   A move gives an entry the new port and leaves it listening or not as before. A failed move whose restore succeeds
   leaves the entry listening on the old port, and a failed restore leaves it inactive on the old port. Other entries
   keep theirs.
   */
  lemma MoveMeaning(t: Table, id: int, port: int, bind: Bind, restore: Bind)
    requires Inv(t) && id in t.entries && Enabled(t, Move(id, port, bind, restore))
    ensures var u, e := Moved(t, id, port, bind, restore), t.entries[id];
            && u.ids == t.ids && u.nextID == t.nextID && u.entries.Keys == t.entries.Keys
            && (forall k :: k in t.entries && k != id ==> u.entries[k] == t.entries[k])
            && (if e.socket.None? || bind.Bound?
                then u.entries[id].forward == e.forward.(srcPort := port) && (Listening(u, id) <==> Listening(t, id))
                else u.entries[id].forward == e.forward && (Listening(u, id) <==> restore.Bound?))
    ensures var u := Moved(t, id, port, bind, restore);
            Listening(u, id) && u.entries[id].forward.srcPort != 0 ==>
              u.sockets[u.entries[id].socket.value] == u.entries[id].forward.srcPort
  {
    MovedKeeps(t, id, port, bind, restore);
    MovedEntries(t, id, port, bind, restore);
    assert Owned(Moved(t, id, port, bind, restore));
  }

  lemma MovedEntries(t: Table, id: int, port: int, bind: Bind, restore: Bind)
    requires id in t.entries
    ensures var u, e := Moved(t, id, port, bind, restore), t.entries[id];
            && u.ids == t.ids && u.nextID == t.nextID && u.entries.Keys == t.entries.Keys
            && (forall k :: k in t.entries && k != id ==> u.entries[k] == t.entries[k])
            && (if e.socket.None? || bind.Bound?
                then u.entries[id].forward == e.forward.(srcPort := port) && (Listening(u, id) <==> Listening(t, id))
                else u.entries[id].forward == e.forward && (Listening(u, id) <==> restore.Bound?))
  {
    MovedInOnePiece(t, id, port, bind, restore);
  }

  // The outcome of a move in one piece: the entry and the sockets that it ends with.
  function MovedEntry(e: Entry, sockets: map<nat, int>, port: int, bind: Bind, restore: Bind): (Entry, map<nat, int>) {
    var off := if e.socket.Some? then sockets - {e.socket.value} else sockets;
    if e.socket.None? then (Entry(e.forward.(srcPort := port), None), off)
    else if bind.Bound? then (Entry(e.forward.(srcPort := port), Some(bind.socket)), off[bind.socket := bind.port])
    else if restore.Bound? then (Entry(e.forward, Some(restore.socket)), off[restore.socket := restore.port])
    else (Entry(e.forward, None), off)
  }

  lemma MovedInOnePiece(t: Table, id: int, port: int, bind: Bind, restore: Bind)
    requires id in t.entries
    ensures var moved := MovedEntry(t.entries[id], t.sockets, port, bind, restore);
            Moved(t, id, port, bind, restore) == Table(t.entries[id := moved.0], t.ids, t.nextID, moved.1)
  {
    var e := t.entries[id];
    assert e.forward.(srcPort := port).(srcPort := e.forward.srcPort) == e.forward;
  }

  lemma OtherIDs(t: Table, key: string)
    requires Indexed(t) && key in t.ids
    ensures forall k :: k in t.ids && k != key ==> t.ids[k] != t.ids[key]
  {
  }

  lemma RemovedInOnePiece(t: Table, key: string)
    requires key in t.ids && t.ids[key] in t.entries
    ensures var e := t.entries[t.ids[key]];
            Removed(t, key) == Table(t.entries - {t.ids[key]}, t.ids - {key}, t.nextID,
                                     if e.socket.Some? then t.sockets - {e.socket.value} else t.sockets)
  {
    var off := Deactivated(t, t.ids[key]);
    assert off.entries - {t.ids[key]} == t.entries - {t.ids[key]};
  }

  /** The sockets of this process. Other processes may hold any other port. */
  class System {
    var sockets: map<nat, int>
    var next: nat

    constructor ()
      ensures Valid() && sockets == map[]
    {
      sockets, next := map[], 0;
    }

    predicate Valid()
      reads this
    {
      forall s :: s in sockets ==> s < next
    }

    method Listen(port: int) returns (bind: Bind)
      requires Valid()
      modifies this
      ensures Valid() && Possible(old(sockets), port, bind)
      ensures sockets == if bind.Bound? then old(sockets)[bind.socket := bind.port] else old(sockets)
    {
      var free: int := *;
      var chosen := if port == 0 then free else port;
      if chosen == 0 || chosen in sockets.Values {
        return Refused;
      }
      if * {
        return Refused;
      }
      bind := Bound(next, chosen);
      sockets := sockets[next := chosen];
      next := next + 1;
    }

    method Close(socket: nat)
      requires Valid()
      modifies this
      ensures Valid() && sockets == old(sockets) - {socket}
    {
      sockets := sockets - {socket};
    }
  }

  class LocalListener {
    const id: int
    var forward: Forward
    var listening: bool
    var socket: Option<nat>

    constructor (id: int, forward: Forward)
      ensures this.id == id && View() == Entry(forward, None) && Coherent()
    {
      this.id, this.forward, listening, socket := id, forward, false, None;
    }

    function View(): Entry
      reads this
    {
      Entry(forward, socket)
    }

    predicate Coherent()
      reads this
    {
      listening <==> socket.Some?
    }

    method Activate(system: System) returns (bind: Bind, error: Option<Error>)
      requires Coherent() && system.Valid()
      modifies this`listening, this`socket, system
      ensures Coherent() && system.Valid() && Possible(old(system.sockets), forward.srcPort, bind)
      ensures error == if old(socket).Some? then Some(AlreadyActive)
                       else if bind.Refused? then Some(ListenFailed) else None
      ensures if error == None
              then socket == Some(bind.socket) && system.sockets == old(system.sockets)[bind.socket := bind.port]
              else socket == old(socket) && system.sockets == old(system.sockets)
    {
      if listening {
        return Refused, Some(AlreadyActive);
      }
      bind := system.Listen(forward.srcPort);
      if bind.Refused? {
        return bind, Some(ListenFailed);
      }
      socket, listening, error := Some(bind.socket), true, None;
    }

    method Deactivate(system: System) returns (error: Option<Error>)
      requires Coherent() && system.Valid()
      modifies this`listening, this`socket, system
      ensures Coherent() && system.Valid() && socket == None
      ensures if old(socket).None? then error == Some(AlreadyInactive) && system.sockets == old(system.sockets)
              else error == None && system.sockets == old(system.sockets) - {old(socket).value}
    {
      if !listening {
        return Some(AlreadyInactive);
      }
      system.Close(socket.value);
      socket, listening, error := None, false, None;
    }

    method Move(system: System, port: int) returns (bind: Bind, restore: Bind, error: Option<Error>)
      requires Coherent() && system.Valid()
      modifies this`forward, this`listening, this`socket, system
      ensures Coherent() && system.Valid()
      ensures var off := if old(socket).Some? then old(system.sockets) - {old(socket).value} else old(system.sockets);
              Possible(off, port, bind) && Possible(off, old(forward).srcPort, restore)
      ensures (View(), system.sockets) == MovedEntry(old(View()), old(system.sockets), port, bind, restore)
      ensures error == if old(socket).None? || bind.Bound? then None
                       else if restore.Bound? then Some(MoveFailed) else Some(RestoreFailed)
    {
      bind, restore, error := Refused, Refused, None;
      var active, oldPort := listening, forward.srcPort;
      if active {
        error := Deactivate(system);
      }
      forward := forward.(srcPort := port);
      if active {
        bind, error := Activate(system);
        if error.Some? {
          forward := forward.(srcPort := oldPort);
          restore, error := Activate(system);
          error := Some(if error.Some? then RestoreFailed else MoveFailed);
        }
      }
    }
  }

  // The key index leads to the objects of the ID index.
  ghost predicate SameObjects(ids: map<string, int>, listeners: map<string, LocalListener>,
                              byID: map<int, LocalListener>)
  {
    && ids.Keys == listeners.Keys
    && forall key :: key in listeners ==> ids[key] in byID && byID[ids[key]] == listeners[key]
  }

  lemma SameObjectsWith(ids: map<string, int>, listeners: map<string, LocalListener>, byID: map<int, LocalListener>,
                        key: string, id: int, local: LocalListener)
    requires SameObjects(ids, listeners, byID) && id !in byID
    ensures SameObjects(ids[key := id], listeners[key := local], byID[id := local])
  {
  }

  lemma SameObjectsWithout(ids: map<string, int>, listeners: map<string, LocalListener>, byID: map<int, LocalListener>,
                           key: string)
    requires SameObjects(ids, listeners, byID) && key in ids && forall k :: k in ids && k != key ==> ids[k] != ids[key]
    ensures SameObjects(ids - {key}, listeners - {key}, byID - {ids[key]})
  {
  }

  /** The owner of the registry. Each method is one critical section. The table is what the maps and the system hold. */
  class ListenerManager {
    const system: System
    var listeners: map<string, LocalListener>
    var byID: map<int, LocalListener>
    var nextID: int
    ghost var table: Table

    constructor (system: System)
      requires system.Valid() && system.sockets == map[]
      ensures Valid() && table == EMPTY && this.system == system && byID == map[]
    {
      this.system, listeners, byID, nextID, table := system, map[], map[], 0, EMPTY;
    }

    // Both maps hold the same objects.
    ghost predicate Wired()
      reads this, system, byID.Values
    {
      && system.Valid()
      && table.nextID == nextID && table.sockets == system.sockets
      && table.entries.Keys == byID.Keys && SameObjects(table.ids, listeners, byID)
      && (forall id :: id in byID ==> byID[id].id == id && byID[id].Coherent() && table.entries[id] == byID[id].View())
    }

    ghost predicate Valid()
      reads this, system, byID.Values
    {
      Wired() && Inv(table)
    }

    method Add(f: Forward) returns (local: LocalListener, created: bool)
      requires Valid()
      modifies this
      ensures Valid() && table == Added(old(table), f)
      ensures created == (f.key !in old(table).ids) && f.key in listeners && local == listeners[f.key]
      ensures forall o :: o in byID.Values ==> o in old(byID.Values) || fresh(o)
    {
      AddedKeeps(table, f);
      if f.key in listeners {
        return listeners[f.key], false;
      }
      created := true;
      local := AddNew(f);
    }

    method AddNew(f: Forward) returns (local: LocalListener)
      requires Wired() && Indexed(table) && f.key !in listeners
      modifies this
      ensures Wired() && f.key in listeners && local == listeners[f.key]
      ensures table == Table(old(table).entries[nextID := Entry(f, None)], old(table).ids[f.key := nextID], nextID,
                             old(table).sockets)
      ensures nextID == old(table).nextID + 1 && fresh(local) && byID == old(byID)[nextID := local]
    {
      assert nextID + 1 !in table.entries.Keys && nextID + 1 !in byID.Keys;
      local := new LocalListener(nextID + 1, f);
      SameObjectsWith(table.ids, listeners, byID, f.key, nextID + 1, local);
      nextID, listeners, byID := local.id, listeners[f.key := local], byID[local.id := local];
      table := Table(table.entries[local.id := Entry(f, None)], table.ids[f.key := local.id], local.id, table.sockets);
    }

    method Remove(key: string) returns (port: Option<int>)
      requires Valid()
      modifies this, system
      ensures Valid() && table == Next(old(table), Step.Remove(key))
      ensures port == if key in old(table).ids then Some(old(listeners[key].forward.srcPort)) else None
      ensures byID.Values <= old(byID.Values)
    {
      if key !in listeners {
        return None;
      }
      ghost var before := table;
      port := Some(listeners[key].forward.srcPort);
      RemoveRegistered(key);
      RemovedKeeps(before, key);
      RemovedInOnePiece(before, key);
    }

    method RemoveRegistered(key: string)
      requires Wired() && Indexed(table) && key in listeners
      modifies this, system
      ensures Wired() && byID.Values <= old(byID.Values)
      ensures var id, e := old(table).ids[key], old(table).entries[old(table).ids[key]];
              table == Table(old(table).entries - {id}, old(table).ids - {key}, old(table).nextID,
                             if e.socket.Some? then old(table).sockets - {e.socket.value} else old(table).sockets)
    {
      var listener := listeners[key];
      OtherIDs(table, key);
      SameObjectsWithout(table.ids, listeners, byID, key);
      if listener.socket.Some? {
        system.Close(listener.socket.value);
      }
      listeners := listeners - {key};
      byID := byID - {listener.id};
      table := Table(table.entries - {listener.id}, table.ids - {key}, nextID, system.sockets);
    }

    method ActivateRegistered(id: int) returns (bind: Bind, error: Option<Error>)
      requires Wired() && id in byID
      modifies this`table, system, byID.Values
      ensures Wired() && Possible(old(table).sockets, old(table).entries[id].forward.srcPort, bind)
      ensures table == Activated(old(table), id, bind)
      ensures error == if Listening(old(table), id) then Some(AlreadyActive)
                       else if bind.Refused? then Some(ListenFailed) else None
    {
      bind, error := byID[id].Activate(system);
      table := Table(table.entries[id := byID[id].View()], table.ids, nextID, system.sockets);
    }

    method DeactivateRegistered(id: int) returns (error: Option<Error>)
      requires Wired() && id in byID
      modifies this`table, system, byID.Values
      ensures Wired() && table == Deactivated(old(table), id)
      ensures error == if Listening(old(table), id) then None else Some(AlreadyInactive)
    {
      error := byID[id].Deactivate(system);
      table := Table(table.entries[id := byID[id].View()], table.ids, nextID, system.sockets);
    }

    method ActivateListener(id: int) returns (bind: Bind, error: Option<Error>)
      requires Valid()
      modifies this`table, system, byID.Values
      ensures Valid() && Enabled(old(table), Step.Activate(id, bind))
              && table == Next(old(table), Step.Activate(id, bind))
      ensures error == if id !in old(table).entries then Some(NotFound)
                       else if Listening(old(table), id) then Some(AlreadyActive)
                       else if bind.Refused? then Some(ListenFailed) else None
    {
      if id !in byID {
        return Refused, Some(NotFound);
      }
      ghost var before := table;
      bind, error := ActivateRegistered(id);
      ActivatedKeeps(before, id, bind);
    }

    method DeactivateListener(id: int) returns (error: Option<Error>)
      requires Valid()
      modifies this`table, system, byID.Values
      ensures Valid() && table == Next(old(table), Step.Deactivate(id))
      ensures error == if id !in old(table).entries then Some(NotFound)
                       else if Listening(old(table), id) then None else Some(AlreadyInactive)
    {
      if id !in byID {
        return Some(NotFound);
      }
      ghost var before := table;
      error := DeactivateRegistered(id);
      DeactivatedKeeps(before, id);
    }

    method MoveRegistered(id: int, port: int) returns (bind: Bind, restore: Bind, error: Option<Error>)
      requires Wired() && id in byID
      modifies this`table, system, byID.Values
      ensures Wired()
      ensures var moved := MovedEntry(old(table).entries[id], old(table).sockets, port, bind, restore);
              table == Table(old(table).entries[id := moved.0], old(table).ids, old(table).nextID, moved.1)
      ensures Enabled(old(table), Step.Move(id, port, bind, restore))
      ensures error == if !Listening(old(table), id) || bind.Bound? then None
                       else if restore.Bound? then Some(MoveFailed) else Some(RestoreFailed)
    {
      bind, restore, error := byID[id].Move(system, port);
      table := Table(table.entries[id := byID[id].View()], table.ids, nextID, system.sockets);
    }

    method MoveListener(id: int, port: int) returns (bind: Bind, restore: Bind, error: Option<Error>)
      requires Valid()
      modifies this`table, system, byID.Values
      ensures Valid() && Enabled(old(table), Step.Move(id, port, bind, restore))
      ensures table == Next(old(table), Step.Move(id, port, bind, restore))
      ensures error == if id !in old(table).entries then Some(NotFound)
                       else if !Listening(old(table), id) || bind.Bound? then None
                       else if restore.Bound? then Some(MoveFailed) else Some(RestoreFailed)
    {
      if id !in byID {
        return Refused, Refused, Some(NotFound);
      }
      ghost var before := table;
      bind, restore, error := MoveRegistered(id, port);
      MovedKeeps(before, id, port, bind, restore);
      MovedInOnePiece(before, id, port, bind, restore);
    }
  }

  // Registers a forward, and starts it when its owner runs this process.
  method CreateLocalListener(m: ListenerManager, username: string, f: Forward) returns (error: Option<Error>)
    requires m.Valid()
    modifies m, m.system, m.byID.Values
    ensures m.Valid()
    ensures f.key in old(m.table).ids ==> m.table == old(m.table) && error == None
    ensures f.key !in old(m.table).ids && username != "" && username != f.owner ==>
              m.table == Added(old(m.table), f) && error == None
    ensures f.key !in old(m.table).ids && (username == "" || username == f.owner) ==>
              exists bind ::
                && Enabled(Added(old(m.table), f), Activate(m.nextID, bind))
                && m.table == Next(Added(old(m.table), f), Activate(m.nextID, bind))
                && (error == None <==> bind.Bound?)
  {
    var local, created := m.Add(f);
    if !created {
      return None;
    }
    if username == "" || username == f.owner {
      var bind;
      bind, error := m.ActivateListener(local.id);
      return;
    }
    error := None;
  }
}
