/**
 * Latest-state tables and event logs for stations and connectors: MySQL
 * transactions of two statements each, in any interleaving, against the
 * in-memory maps that keep only the latest state.
 */
module StationStore {
  import opened Base

  datatype Version = OCPP16 | OCPP201 | OCPP21 | Unknown(text: string)

  datatype Station = Station(
    identity: string, version: Version, vendor: string, model: string,
    serialNumber: string, firmwareVersion: string, bootReason: string, lastBootAt: Option<int>)

  datatype ConnectorStatus = ConnectorStatus(
    identity: string, version: Version, evse: int, connector: int,
    status: string, errorCode: string, occurredAt: Option<int>, receivedAt: Option<int>)

  predicate ValidStation(s: Station) {
    s.identity != "" && !s.version.Unknown? && s.vendor != "" && s.model != "" && s.lastBootAt.Some?
  }

  predicate ValidStatus(c: ConnectorStatus) {
    c.identity != "" && !c.version.Unknown? && c.evse >= 0 && c.connector >= 0 && c.status != "" && c.receivedAt.Some?
  }

  /** One write: a boot of a station or a status of one of its connectors. */
  datatype Op = Boot(station: Station) | Status(status: ConnectorStatus)

  predicate ValidOp(op: Op) { if op.Boot? then ValidStation(op.station) else ValidStatus(op.status) }

  /** Primary keys of the two latest-state tables. */
  datatype Row = StationRow(identity: string) | ConnectorRow(identity: string, evse: int, connector: int)

  function RowOf(op: Op): (r: Row) {
    match op
    case Boot(s) => StationRow(s.identity)
    case Status(c) => ConnectorRow(c.identity, c.evse, c.connector)
  }

  /** Two writes share a row exactly when they are of one kind and agree on all parts of its key. */
  lemma SameRowIff(a: Op, b: Op)
    ensures RowOf(a) == RowOf(b) <==>
      || (a.Boot? && b.Boot? && a.station.identity == b.station.identity)
      || (a.Status? && b.Status? && a.status.identity == b.status.identity
          && a.status.evse == b.status.evse && a.status.connector == b.status.connector)
  {
  }

  /** The foreign key: a status needs the row of its station. */
  predicate ParentIn(rows: map<Row, Op>, op: Op) { op.Status? ==> StationRow(op.status.identity) in rows }

  // ---------- The in-memory repository

  class Memory {
    var stations: map<string, Station>
    var connectors: map<(string, int, int), ConnectorStatus>

    constructor ()
      ensures stations == map[] && connectors == map[]
    {
      stations, connectors := map[], map[];
    }

    ghost predicate Shows(rows: map<Row, Op>)
      reads this
    {
      && (forall s :: s in stations <==> StationRow(s) in rows)
      && (forall s | s in stations :: rows[StationRow(s)] == Boot(stations[s]))
      && (forall s, e, c :: (s, e, c) in connectors <==> ConnectorRow(s, e, c) in rows)
      && (forall s, e, c | (s, e, c) in connectors :: rows[ConnectorRow(s, e, c)] == Status(connectors[(s, e, c)]))
    }

    /** Both writes keep the maps showing the latest valid write per key, and leave them alone otherwise. */
    method UpsertStation(cancelled: bool, s: Station, ghost rows: map<Row, Op>) returns (ok: bool)
      requires Shows(rows)
      modifies this
      ensures ok <==> && !cancelled && s.identity != "" && s.version in {OCPP16, OCPP201, OCPP21}
                      && s.vendor != "" && s.model != "" && s.lastBootAt != None
      ensures stations == (if ok then old(stations)[s.identity := s] else old(stations)) && connectors == old(connectors)
      ensures Shows(if cancelled then rows else Written(rows, Boot(s)))
    {
      if cancelled || !ValidStation(s) { return false; }
      stations := stations[s.identity := s];
      return true;
    }

    method UpdateConnectorStatus(cancelled: bool, c: ConnectorStatus, ghost rows: map<Row, Op>) returns (ok: bool)
      requires Shows(rows)
      modifies this
      ensures ok <==> && !cancelled && c.identity != "" && c.version in {OCPP16, OCPP201, OCPP21}
                      && c.evse >= 0 && c.connector >= 0 && c.status != "" && c.receivedAt != None
      ensures connectors == if ok then old(connectors)[(c.identity, c.evse, c.connector) := c] else old(connectors)
      ensures stations == old(stations)
      ensures Shows(if cancelled then rows else Written(rows, Status(c)))
    {
      if cancelled || !ValidStatus(c) { return false; }
      connectors := connectors[(c.identity, c.evse, c.connector) := c];
      return true;
    }
  }

  /** What one write leaves in the in-memory maps, as rows. */
  function Written(rows: map<Row, Op>, op: Op): (rows': map<Row, Op>) {
    if ValidOp(op) then rows[RowOf(op) := op] else rows
  }

  function InMemory(ops: seq<Op>): (rows: map<Row, Op>) {
    if ops == [] then map[] else Written(InMemory(ops[..|ops| - 1]), ops[|ops| - 1])
  }

  // ---------- One write after the other

  /** Each write runs its whole transaction; without its station's row a status is refused. */
  function Serial(ops: seq<Op>): (rows: map<Row, Op>) {
    if ops == [] then map[]
    else
      var rows, op := Serial(ops[..|ops| - 1]), ops[|ops| - 1];
      if ParentIn(rows, op) then Written(rows, op) else rows
  }

  /** A valid boot of the station is among the writes. */
  predicate Booted(ops: seq<Op>, identity: string) {
    exists i | 0 <= i < |ops| :: ValidOp(ops[i]) && RowOf(ops[i]) == StationRow(identity)
  }

  /** Write j is the last valid one of its row. */
  predicate IsLast(ops: seq<Op>, j: nat)
    requires j < |ops|
  {
    ValidOp(ops[j]) && forall k | j < k < |ops| :: ValidOp(ops[k]) ==> RowOf(ops[k]) != RowOf(ops[j])
  }

  /** For every connector, the last valid status reported for it came after a boot of its station. */
  predicate LastStatusesAfterBoot(ops: seq<Op>) {
    forall j | 0 <= j < |ops| && ops[j].Status? && IsLast(ops, j) :: Booted(ops[..j], ops[j].status.identity)
  }

  /** A row of the in-memory maps is the last valid write of its key. */
  lemma {:induction false} LastWrite(ops: seq<Op>, row: Row) returns (j: nat)
    requires row in InMemory(ops)
    ensures j < |ops| && IsLast(ops, j) && RowOf(ops[j]) == row && InMemory(ops)[row] == ops[j]
  {
    var n := |ops| - 1;
    if ValidOp(ops[n]) && RowOf(ops[n]) == row {
      j := n;
    } else {
      j := LastWrite(ops[..n], row);
      forall k | j < k < |ops| && ValidOp(ops[k]) ensures RowOf(ops[k]) != RowOf(ops[j]) {
        assert k < n ==> ops[k] == ops[..n][k];
      }
    }
  }

  lemma {:induction false} WritesShow(ops: seq<Op>, i: nat)
    requires i < |ops| && ValidOp(ops[i])
    ensures RowOf(ops[i]) in InMemory(ops)
  {
    if i < |ops| - 1 {
      WritesShow(ops[..|ops| - 1], i);
    }
  }

  /** Stations agree always, and a connector's row never comes without its station's. */
  lemma {:induction false} StationsAgree(ops: seq<Op>, row: Row)
    ensures row.StationRow? ==> (row in Serial(ops) <==> row in InMemory(ops))
    ensures row.StationRow? && row in Serial(ops) ==> Serial(ops)[row] == InMemory(ops)[row]
    ensures row.ConnectorRow? && row in Serial(ops) ==> StationRow(row.identity) in Serial(ops)
  {
    if ops != [] {
      StationsAgree(ops[..|ops| - 1], row);
      StationsAgree(ops[..|ops| - 1], StationRow(row.identity));
    }
  }

  lemma BootedShows(ops: seq<Op>, identity: string)
    ensures Booted(ops, identity) <==> StationRow(identity) in Serial(ops)
  {
    StationsAgree(ops, StationRow(identity));
    if Booted(ops, identity) {
      var i :| 0 <= i < |ops| && ValidOp(ops[i]) && RowOf(ops[i]) == StationRow(identity);
      WritesShow(ops, i);
    } else if StationRow(identity) in InMemory(ops) {
      var j := LastWrite(ops, StationRow(identity));
    }
  }

  predicate AgreeAt(a: map<Row, Op>, b: map<Row, Op>, row: Row) {
    (row in a <==> row in b) && (row in a ==> a[row] == b[row])
  }

  lemma {:induction false} RefusedOnlyLess(ops: seq<Op>)
    ensures Serial(ops).Keys <= InMemory(ops).Keys
  {
    if ops != [] {
      RefusedOnlyLess(ops[..|ops| - 1]);
    }
  }

  /** A connector's row agrees exactly when its last status came after a boot of the station. */
  lemma {:induction false} ConnectorAgrees(ops: seq<Op>, j: nat)
    requires j < |ops| && ops[j].Status? && IsLast(ops, j)
    ensures AgreeAt(Serial(ops), InMemory(ops), RowOf(ops[j])) <==> Booted(ops[..j], ops[j].status.identity)
  {
    var n := |ops| - 1;
    var before, row := ops[..n], RowOf(ops[j]);
    if j == n {
      BootedShows(before, row.identity);
      StationsAgree(before, row);
    } else {
      assert forall k | j < k < n :: before[k] == ops[k];
      ConnectorAgrees(before, j);
      assert before[..j] == ops[..j];
      assert RowOf(ops[n]) != row || !ValidOp(ops[n]);
    }
  }

  /** One write after the other, tables and maps agree exactly when each connector's last status follows a boot. */
  lemma TablesMatchMemoryIff(ops: seq<Op>)
    ensures Serial(ops) == InMemory(ops) <==> LastStatusesAfterBoot(ops)
  {
    if Serial(ops) == InMemory(ops) {
      forall j | 0 <= j < |ops| && ops[j].Status? && IsLast(ops, j)
        ensures Booted(ops[..j], ops[j].status.identity)
      {
        ConnectorAgrees(ops, j);
      }
    }
    if LastStatusesAfterBoot(ops) {
      RefusedOnlyLess(ops);
      forall row | row in InMemory(ops) ensures AgreeAt(Serial(ops), InMemory(ops), row) {
        StationsAgree(ops, row);
        if row.ConnectorRow? {
          var j := LastWrite(ops, row);
          ConnectorAgrees(ops, j);
        }
      }
      assert Serial(ops).Keys == InMemory(ops).Keys;
    }
  }

  /** The two differ: a status reported before its station's first boot shows in the maps only. */
  lemma StatusBeforeBoot()
    ensures exists ops :: (forall i | 0 <= i < |ops| :: ValidOp(ops[i])) && Serial(ops) != InMemory(ops)
  {
    var c := ConnectorStatus("s", OCPP16, 1, 1, "Available", "", None, Some(0));
    var ops := [Status(c)];
    assert ops[..0] == [];
    assert IsLast(ops, 0) && !Booted(ops[..0], "s");
    TablesMatchMemoryIff(ops);
  }

  // ---------- MySQL transactions, interleaved

  /** An event's table and auto-increment number. */
  datatype EventId = EventId(boot: bool, number: nat)

  datatype Phase = Begun | Upserted | Logged(id: EventId)

  /** undo is what the row held before the transaction wrote it. */
  datatype Transaction = Transaction(op: Op, phase: Phase, undo: Option<Op>)

  /**
   * Rows are written in place, under a lock held to the end of the
   * transaction; events become visible at commit, but numbers once drawn are not
   * given back. ended lists the writes that committed or were refused for want of
   * their station, as they ended.
   */
  datatype Database = Database(
    rows: map<Row, Op>,
    locks: map<Row, nat>,
    events: map<EventId, Op>,
    nextBoot: nat, nextStatus: nat,
    open: map<nat, Transaction>,
    ended: seq<Op>)

  const EMPTY := Database(map[], map[], map[], 0, 0, map[], [])

  datatype Action =
    | Begin(t: nat, op: Op)
    | Upsert(t: nat)
    | Refuse(t: nat)
    | Log(t: nat)
    | Commit(t: nat)
    | Rollback(t: nat)

  function Get(rows: map<Row, Op>, row: Row): (op: Option<Op>) { if row in rows then Some(rows[row]) else None }

  function Put(rows: map<Row, Op>, row: Row, op: Option<Op>): (rows': map<Row, Op>) {
    if op.Some? then rows[row := op.value] else rows - {row}
  }

  function NextId(db: Database, op: Op): (id: EventId) {
    if op.Boot? then EventId(true, db.nextBoot) else EventId(false, db.nextStatus)
  }

  /** The foreign key is satisfied by a row nobody is still writing. */
  predicate ParentFree(db: Database, op: Op) {
    op.Status? ==> StationRow(op.status.identity) in db.rows && StationRow(op.status.identity) !in db.locks
  }

  predicate Enabled(db: Database, a: Action) {
    match a
    case Begin(t, op) => t !in db.open && ValidOp(op)
    case Upsert(t) =>
      && t in db.open && db.open[t].phase.Begun? && RowOf(db.open[t].op) !in db.locks && ParentFree(db, db.open[t].op)
    case Refuse(t) => t in db.open && db.open[t].phase.Begun? && !ParentIn(db.rows, db.open[t].op)
    case Log(t) => t in db.open && db.open[t].phase.Upserted?
    case Commit(t) => t in db.open && db.open[t].phase.Logged?
    case Rollback(t) => t in db.open
  }

  function Next(db: Database, a: Action): (db': Database)
    requires Enabled(db, a)
  {
    match a
    case Begin(t, op) => db.(open := db.open[t := Transaction(op, Begun, None)])
    case Upsert(t) =>
      var op := db.open[t].op;
      db.(rows := db.rows[RowOf(op) := op], locks := db.locks[RowOf(op) := t],
          open := db.open[t := Transaction(op, Upserted, Get(db.rows, RowOf(op)))])
    case Refuse(t) => db.(open := db.open - {t}, ended := db.ended + [db.open[t].op])
    case Log(t) =>
      var op := db.open[t].op;
      db.(open := db.open[t := db.open[t].(phase := Logged(NextId(db, op)))],
          nextBoot := if op.Boot? then db.nextBoot + 1 else db.nextBoot,
          nextStatus := if op.Boot? then db.nextStatus else db.nextStatus + 1)
    case Commit(t) =>
      var Transaction(op, phase, _) := db.open[t];
      db.(locks := db.locks - {RowOf(op)}, events := db.events[phase.id := op],
          open := db.open - {t}, ended := db.ended + [op])
    case Rollback(t) =>
      var Transaction(op, phase, undo) := db.open[t];
      if phase.Begun? then db.(open := db.open - {t})
      else db.(rows := Put(db.rows, RowOf(op), undo), locks := db.locks - {RowOf(op)}, open := db.open - {t})
  }

  function Exec(acts: seq<Action>): (db: Database)
    requires Legal(acts)
    decreases |acts|, 1
  {
    if acts == [] then EMPTY else Next(Exec(acts[..|acts| - 1]), acts[|acts| - 1])
  }

  predicate Legal(acts: seq<Action>)
    decreases |acts|, 0
  {
    acts == [] || (Legal(acts[..|acts| - 1]) && Enabled(Exec(acts[..|acts| - 1]), acts[|acts| - 1]))
  }

  /** What a reader sees in a row: the last committed content, whoever is writing it. */
  function Shown(db: Database, row: Row): (op: Option<Op>) {
    if row in db.locks && db.locks[row] in db.open then db.open[db.locks[row]].undo else Get(db.rows, row)
  }

  // ---------- What every step keeps

  /** A transaction past its first statement holds its row and has its write there; its station is known. */
  predicate Holds(db: Database, t: nat)
    requires t in db.open
  {
    var Transaction(op, phase, _) := db.open[t];
    && ValidOp(op)
    && (!phase.Begun? ==>
      && RowOf(op) in db.locks && db.locks[RowOf(op)] == t && Get(db.rows, RowOf(op)) == Some(op)
      && ParentIn(Serial(db.ended), op))
  }

  ghost predicate LocksInv(db: Database) {
    && (forall t | t in db.open :: Holds(db, t))
    && (forall row | row in db.locks ::
      db.locks[row] in db.open && !db.open[db.locks[row]].phase.Begun? && RowOf(db.open[db.locks[row]].op) == row)
  }

  ghost predicate ShowsSerial(db: Database) { forall row :: Shown(db, row) == Get(Serial(db.ended), row) }

  /** id is drawn from the table of op, and below the next number. */
  predicate Drawn(db: Database, id: EventId, op: Op) {
    id.boot == op.Boot? && id.number < if op.Boot? then db.nextBoot else db.nextStatus
  }

  /** No committed event of the row of op has a number above id's. */
  predicate Newest(db: Database, id: EventId, op: Op) {
    forall e | e in db.events && RowOf(db.events[e]) == RowOf(op) :: e.number <= id.number
  }

  /** A drawn event is not visible yet, unlike any other drawn one, and newer than every committed event of its row. */
  predicate Pending(db: Database, t: Transaction) {
    t.phase.Logged? ==> Drawn(db, t.phase.id, t.op) && t.phase.id !in db.events && Newest(db, t.phase.id, t.op)
  }

  ghost predicate EventsInv(db: Database) {
    && (forall t | t in db.open :: Pending(db, db.open[t]))
    && (forall t, u | t in db.open && u in db.open && t != u && db.open[t].phase.Logged? && db.open[u].phase.Logged? ::
      db.open[t].phase.id != db.open[u].phase.id)
    && (forall e | e in db.events :: Drawn(db, e, db.events[e]) && Shown(db, RowOf(db.events[e])).Some?)
  }

  /** The event behind what a row shows: committed, with that very content, and none newer. */
  predicate LastEvent(db: Database, row: Row, id: EventId) {
    id in db.events && Shown(db, row) == Some(db.events[id]) && RowOf(db.events[id]) == row && Newest(db, id, db.events[id])
  }

  ghost predicate AllLast(db: Database) { forall row | Shown(db, row).Some? :: exists id :: LastEvent(db, row, id) }

  ghost predicate Inv(db: Database) { LocksInv(db) && ShowsSerial(db) && EventsInv(db) && AllLast(db) }

  /** Adding a write at the end. */
  lemma SerialEnds(ops: seq<Op>, op: Op)
    ensures Serial(ops + [op]) == if ParentIn(Serial(ops), op) then Written(Serial(ops), op) else Serial(ops)
  {
    assert (ops + [op])[..|ops|] == ops;
  }

  /** What each step does to what readers see: nothing, except that a commit shows its write. */
  lemma ShownAfter(db: Database, a: Action, row: Row)
    requires LocksInv(db) && Enabled(db, a)
    ensures Shown(Next(db, a), row) ==
      if a.Commit? && row == RowOf(db.open[a.t].op) then Some(db.open[a.t].op) else Shown(db, row)
  {
    if a.Commit? {
      ShownCommitted(db, a.t, row);
    } else if a.Rollback? {
      ShownRolledBack(db, a.t, row);
    } else if !a.Begin? {
      assert Holds(db, a.t);
    }
  }

  lemma ShownCommitted(db: Database, t: nat, row: Row)
    requires LocksInv(db) && Enabled(db, Commit(t))
    ensures Shown(Next(db, Commit(t)), row) == if row == RowOf(db.open[t].op) then Some(db.open[t].op) else Shown(db, row)
  {
    assert Holds(db, t);
  }

  lemma ShownRolledBack(db: Database, t: nat, row: Row)
    requires LocksInv(db) && Enabled(db, Rollback(t))
    ensures Shown(Next(db, Rollback(t)), row) == Shown(db, row)
  {
    assert Holds(db, t);
  }

  lemma ShowsKept(db: Database, a: Action)
    requires LocksInv(db) && ShowsSerial(db) && Enabled(db, a)
    ensures ShowsSerial(Next(db, a))
  {
    forall row ensures Shown(Next(db, a), row) == Get(Serial(Next(db, a).ended), row) {
      ShownAfter(db, a, row);
      assert Shown(db, row) == Get(Serial(db.ended), row);
      if a.Commit? {
        assert Holds(db, a.t);
        SerialEnds(db.ended, db.open[a.t].op);
      } else if a.Refuse? {
        RefusedIsMissing(db, a.t);
        SerialEnds(db.ended, db.open[a.t].op);
      }
    }
  }

  /** A status is refused only when no reader sees its station. */
  lemma RefusedIsMissing(db: Database, t: nat)
    requires LocksInv(db) && ShowsSerial(db) && Enabled(db, Refuse(t))
    ensures !ParentIn(Serial(db.ended), db.open[t].op)
  {
    var station := StationRow(db.open[t].op.status.identity);
    assert station in db.locks ==> Holds(db, db.locks[station]);
    assert Shown(db, station) == Get(Serial(db.ended), station);
  }

  lemma LocksKept(db: Database, a: Action)
    requires LocksInv(db) && ShowsSerial(db) && Enabled(db, a)
    ensures LocksInv(Next(db, a))
  {
    var db' := Next(db, a);
    forall t | t in db'.open ensures Holds(db', t) {
      HoldsOn(db, a, t);
    }
    if a.t in db.open { assert Holds(db, a.t); }
  }

  lemma HoldsOn(db: Database, a: Action, t: nat)
    requires LocksInv(db) && ShowsSerial(db) && Enabled(db, a) && t in Next(db, a).open
    ensures Holds(Next(db, a), t)
  {
    if t in db.open { assert Holds(db, t); }
    if a.Commit? || a.Refuse? { SerialEnds(db.ended, db.open[a.t].op); }
    if a.Upsert? && a.t == t && db.open[t].op.Status? {
      var station := StationRow(db.open[t].op.status.identity);
      assert Shown(db, station) == Get(Serial(db.ended), station);
    }
  }

  lemma EventsKept(db: Database, a: Action)
    requires LocksInv(db) && EventsInv(db) && Enabled(db, a)
    ensures EventsInv(Next(db, a))
  {
    var db' := Next(db, a);
    forall t | t in db'.open ensures Pending(db', db'.open[t]) {
      PendingKept(db, a, t);
    }
    forall e | e in db'.events ensures Drawn(db', e, db'.events[e]) && Shown(db', RowOf(db'.events[e])).Some? {
      ShownAfter(db, a, RowOf(db'.events[e]));
      if a.Commit? { assert Pending(db, db.open[a.t]); }
    }
  }

  lemma PendingKept(db: Database, a: Action, t: nat)
    requires LocksInv(db) && EventsInv(db) && Enabled(db, a) && t in Next(db, a).open
    ensures Pending(Next(db, a), Next(db, a).open[t])
  {
    if t in db.open { assert Pending(db, db.open[t]) && Holds(db, t); }
    if a.Commit? { assert Pending(db, db.open[a.t]) && Holds(db, a.t); }
  }

  /** A commit replaces its own row's last event and leaves the other rows theirs. */
  lemma LastKept(db: Database, a: Action)
    requires LocksInv(db) && EventsInv(db) && AllLast(db) && Enabled(db, a)
    ensures AllLast(Next(db, a))
  {
    var db' := Next(db, a);
    forall row | Shown(db', row).Some? ensures exists id :: LastEvent(db', row, id) {
      ShownAfter(db, a, row);
      if a.Commit? && row == RowOf(db.open[a.t].op) {
        assert Pending(db, db.open[a.t]);
        assert LastEvent(db', row, db.open[a.t].phase.id);
      } else {
        var id :| LastEvent(db, row, id);
        if a.Commit? { assert Pending(db, db.open[a.t]); }
        assert LastEvent(db', row, id);
      }
    }
  }

  lemma StepKeeps(db: Database, a: Action)
    requires Inv(db) && Enabled(db, a)
    ensures Inv(Next(db, a))
  {
    LocksKept(db, a);
    ShowsKept(db, a);
    EventsKept(db, a);
    LastKept(db, a);
  }

  lemma {:induction false} AlwaysInv(acts: seq<Action>)
    requires Legal(acts)
    ensures Inv(Exec(acts))
  {
    if acts != [] {
      AlwaysInv(acts[..|acts| - 1]);
      StepKeeps(Exec(acts[..|acts| - 1]), acts[|acts| - 1]);
    }
  }

  /**
   * In every interleaving a row shows the committed event of its key with the
   * highest number, and shows something exactly for the keys with an event.
   */
  lemma RowsAreLastEvents(acts: seq<Action>, row: Row)
    requires Legal(acts)
    ensures var db := Exec(acts); Shown(db, row).Some? <==> exists id :: id in db.events && RowOf(db.events[id]) == row
    ensures Shown(Exec(acts), row).Some? ==> exists id :: LastEvent(Exec(acts), row, id)
  {
    AlwaysInv(acts);
    var db := Exec(acts);
    if Shown(db, row).Some? {
      var id :| LastEvent(db, row, id);
      assert id in db.events && RowOf(db.events[id]) == row;
    }
  }

  /**
   * In every run each committed status has its connector shown, with a status of
   * that very connector, and its own content if no committed status of the
   * connector has a higher number: connectors do not hide one another.
   */
  lemma CommittedStatusesShow(acts: seq<Action>, id: EventId)
    requires Legal(acts) && id in Exec(acts).events && Exec(acts).events[id].Status?
    ensures var db := Exec(acts);
      && var c := db.events[id].status;
      && var shown := Shown(db, ConnectorRow(c.identity, c.evse, c.connector));
      && shown.Some? && shown.value.Status? && SameConnector(shown.value.status, c)
      && ((forall e | e in db.events && db.events[e].Status? && SameConnector(db.events[e].status, c) ::
              e.number <= id.number)
        ==> shown.value.status == c)
  {
    AlwaysInv(acts);
    var db := Exec(acts);
    var op := db.events[id];
    var last :| LastEvent(db, RowOf(op), last);
    assert Drawn(db, id, op) && Drawn(db, last, db.events[last]);
    SameRowIff(db.events[last], op);
  }

  predicate SameConnector(a: ConnectorStatus, b: ConnectorStatus) {
    a.identity == b.identity && a.evse == b.evse && a.connector == b.connector
  }

  /** And each committed boot its station, likewise. */
  lemma CommittedBootsShow(acts: seq<Action>, id: EventId)
    requires Legal(acts) && id in Exec(acts).events && Exec(acts).events[id].Boot?
    ensures var db := Exec(acts);
      && var s := db.events[id].station;
      && var shown := Shown(db, StationRow(s.identity));
      && shown.Some? && shown.value.Boot? && shown.value.station.identity == s.identity
      && ((forall e | e in db.events && db.events[e].Boot? && db.events[e].station.identity == s.identity ::
              e.number <= id.number)
        ==> shown.value.station == s)
  {
    AlwaysInv(acts);
    var db := Exec(acts);
    var op := db.events[id];
    var last :| LastEvent(db, RowOf(op), last);
    assert Drawn(db, id, op) && Drawn(db, last, db.events[last]);
    SameRowIff(db.events[last], op);
  }

  /**
   * Any interleaving, with writes in place, rollbacks and refusals, shows what
   * its ended writes leave when run one after the other in the order they ended;
   * and once no transaction is open that is what the tables hold.
   */
  lemma InterleavedIsSerial(acts: seq<Action>, row: Row)
    requires Legal(acts)
    ensures Shown(Exec(acts), row) == Get(Serial(Exec(acts).ended), row)
    ensures Exec(acts).open == map[] ==> Exec(acts).rows == Serial(Exec(acts).ended)
  {
    AlwaysInv(acts);
    if Exec(acts).open == map[] { QuietTables(Exec(acts)); }
  }

  lemma SameRows(a: map<Row, Op>, b: map<Row, Op>)
    requires forall row :: Get(a, row) == Get(b, row)
    ensures a == b
  {
    assert forall row | row in a :: Get(a, row) == Get(b, row);
    assert forall row | row in b :: Get(a, row) == Get(b, row);
  }

  lemma QuietTables(db: Database)
    requires LocksInv(db) && ShowsSerial(db) && db.open == map[]
    ensures db.rows == Serial(db.ended)
  {
    assert db.locks == map[];
    assert forall row :: Shown(db, row) == Get(db.rows, row);
    SameRows(db.rows, Serial(db.ended));
  }

  /** Over all interleavings tables and maps agree exactly when each connector's last ended status follows an ended boot. */
  lemma InterleavedMatchesMemoryIff(acts: seq<Action>)
    requires Legal(acts)
    ensures (forall row :: Shown(Exec(acts), row) == Get(InMemory(Exec(acts).ended), row)) <==>
      LastStatusesAfterBoot(Exec(acts).ended)
  {
    var db := Exec(acts);
    var serial, memory := Serial(db.ended), InMemory(db.ended);
    TablesMatchMemoryIff(db.ended);
    forall row ensures Shown(db, row) == Get(serial, row) { InterleavedIsSerial(acts, row); }
    if forall row :: Shown(db, row) == Get(memory, row) {
      assert forall row :: Get(serial, row) == Shown(db, row) == Get(memory, row);
      SameRows(serial, memory);
    }
  }

  // ---------- The repository's two operations

  /** Which statement of a transaction fails, if any. */
  datatype Failure = NoFailure | AtBegin | AtUpsert | AtInsert

  /** db' is db with op stored: its row, its event under the next number, and nothing else. */
  ghost predicate Stored(db: Database, db': Database, op: Op) {
    && db'.rows == db.rows[RowOf(op) := op] && db'.events == db.events[NextId(db, op) := op]
    && db'.open == db.open && db'.locks == db.locks && db'.ended == db.ended + [op]
  }

  /** db' holds what db holds; at most an event number is lost, or a refusal noted. */
  ghost predicate Untouched(db: Database, db': Database) {
    db'.rows == db.rows && db'.events == db.events && db'.open == db.open && db'.locks == db.locks
  }

  /** The upsert goes through: nobody holds the row, and the station is there. */
  predicate Ready(db: Database, op: Op) { RowOf(op) !in db.locks && ParentFree(db, op) }

  lemma StoresAlone(db: Database, t: nat, op: Op)
    requires t !in db.open && ValidOp(op) && Ready(db, op)
    ensures var begun := Next(db, Begin(t, op));
            && var upserted := Next(begun, Upsert(t));
            && var logged := Next(upserted, Log(t));
            && Untouched(db, Next(upserted, Rollback(t))) && Untouched(db, Next(logged, Rollback(t)))
            && Next(upserted, Rollback(t)).ended == Next(logged, Rollback(t)).ended == db.ended
            && Stored(db, Next(logged, Commit(t)), op)
  {
    assert db.locks[RowOf(op) := t] - {RowOf(op)} == db.locks;
    assert Put(db.rows[RowOf(op) := op], RowOf(op), Get(db.rows, RowOf(op))) == db.rows;
  }

  lemma EndsEarly(db: Database, t: nat, op: Op)
    requires t !in db.open && ValidOp(op)
    ensures var begun := Next(db, Begin(t, op));
            && (Ready(begun, op) <==> Ready(db, op))
            && Untouched(db, Next(begun, Rollback(t))) && Next(begun, Rollback(t)).ended == db.ended
            && (!ParentIn(db.rows, op) ==>
              Untouched(db, Next(begun, Refuse(t))) && Next(begun, Refuse(t)).ended == db.ended + [op])
  {
  }

  /** Another transaction holds the row, or the row of its station. */
  predicate Held(db: Database, op: Op) {
    RowOf(op) in db.locks || (op.Status? && StationRow(op.status.identity) in db.locks)
  }

  /** How a call ends: stored, or nothing but a refusal noted; or stored without the caller knowing. */
  ghost predicate Ended(db: Database, db': Database, op: Op, ok: bool, commit: Fate) {
    if ok then Stored(db, db', op)
    else
      || (commit.ReplyLost? && Stored(db, db', op))
      || (Untouched(db, db') && (db'.ended == db.ended || (!ParentIn(db.rows, op) && db'.ended == db.ended + [op])))
  }

  lemma NextIsNew(db: Database, op: Op)
    requires EventsInv(db)
    ensures NextId(db, op) !in db.events
  {
  }

  /** The database without a transaction that has only begun. */
  function Without(db: Database, t: nat): (db': Database) { db.(open := db.open - {t}) }

  predicate Follows(db: Database, acts: seq<Action>, db': Database)
    decreases |acts|
  {
    if acts == [] then db == db' else Enabled(db, acts[0]) && Follows(Next(db, acts[0]), acts[1..], db')
  }

  /** Steps of transactions lead from one to the other. */
  ghost predicate Reaches(db: Database, db': Database) { exists acts :: Follows(db, acts, db') }

  lemma {:induction false} FollowsMore(db: Database, acts: seq<Action>, db': Database, a: Action)
    requires Follows(db, acts, db') && Enabled(db', a)
    ensures Follows(db, acts + [a], Next(db', a))
    decreases |acts|
  {
    if acts == [] {
      assert Follows(Next(db, a), [a][1..], Next(db, a));
    } else {
      FollowsMore(Next(db, acts[0]), acts[1..], db', a);
      assert (acts + [a])[1..] == acts[1..] + [a];
    }
  }

  /** A transaction that has only begun is in nobody's way. */
  lemma WithoutStep(db: Database, a: Action, t: nat)
    requires Enabled(db, a) && a.t != t
    ensures Enabled(Without(db, t), a) && Next(Without(db, t), a) == Without(Next(db, a), t)
    ensures t in db.open ==> t in Next(db, a).open && Next(db, a).open[t] == db.open[t]
  {
    assert (db.open - {t}) - {a.t} == (db.open - {a.t}) - {t};
  }

  class Repository {
    var db: Database

    constructor ()
      ensures db == EMPTY && Inv(db)
    {
      db := EMPTY;
    }

    method Do(a: Action)
      requires Inv(db) && Enabled(db, a)
      modifies this
      ensures Inv(db) && db == Next(old(db), a)
    {
      StepKeeps(db, a);
      db := Next(db, a);
    }

    /** While a row it needs is held, the others go on: each of their steps that can be taken is. */
    method Wait(t: nat, op: Op, others: seq<Action>) returns (ghost mid: Database)
      requires Inv(db) && t in db.open && db.open[t] == Transaction(op, Begun, None)
      modifies this
      ensures Inv(db) && t in db.open && db.open[t] == Transaction(op, Begun, None) && mid == Without(db, t)
      ensures Reaches(Without(old(db), t), mid)
    {
      mid := Without(db, t);
      ghost var acts := [];
      for i := 0 to |others|
        invariant Inv(db) && t in db.open && db.open[t] == Transaction(op, Begun, None) && mid == Without(db, t)
        invariant Follows(Without(old(db), t), acts, mid)
      {
        if Held(db, op) && others[i].t != t && Enabled(db, others[i]) {
          WithoutStep(db, others[i], t);
          FollowsMore(Without(old(db), t), acts, mid, others[i]);
          acts := acts + [others[i]];
          Do(others[i]);
          mid := Without(db, t);
        }
      }
    }

    /** The statements of a transaction whose turn has come. */
    method Statements(t: nat, op: Op, failure: Failure, commit: Fate, ghost mid: Database) returns (ok: bool)
      requires Inv(db) && t !in mid.open && ValidOp(op) && db == Next(mid, Begin(t, op)) && !failure.AtBegin?
      modifies this
      ensures Inv(db)
      ensures ok <==> failure.NoFailure? && commit.Acknowledged? && Ready(mid, op)
      ensures Ended(mid, db, op, ok, commit)
    {
      EndsEarly(mid, t, op);
      if failure.AtUpsert? || Held(db, op) {
        Do(Rollback(t));
        return false;
      }
      if !ParentIn(db.rows, op) {
        Do(Refuse(t));
        return false;
      }
      ok := Finish(t, op, failure, commit, mid);
    }

    /** From the upsert on. */
    method Finish(t: nat, op: Op, failure: Failure, commit: Fate, ghost mid: Database) returns (ok: bool)
      requires Inv(db) && t !in mid.open && ValidOp(op) && db == Next(mid, Begin(t, op)) && Ready(mid, op)
      modifies this
      ensures Inv(db)
      ensures ok <==> !failure.AtInsert? && commit.Acknowledged?
      ensures Ended(mid, db, op, ok, commit)
    {
      StoresAlone(mid, t, op);
      Do(Upsert(t));
      if failure.AtInsert? {
        Do(Rollback(t));
        return false;
      }
      Do(Log(t));
      if commit.NotApplied? {
        Do(Rollback(t));
        return false;
      }
      Do(Commit(t));
      return commit.Acknowledged?;
    }

    /**
     * Begin, wait for the rows, upsert, insert, commit; any failure rolls back,
     * and so does a wait that was not long enough. mid is the database of the
     * others at the time of the upsert.
     */
    method Transact(t: nat, op: Op, others: seq<Action>, failure: Failure, commit: Fate)
      returns (ok: bool, ghost mid: Database)
      requires Inv(db) && t !in db.open && ValidOp(op)
      modifies this
      ensures Inv(db) && Reaches(old(db), mid) && NextId(mid, op) !in mid.events
      ensures ok <==> failure.NoFailure? && commit.Acknowledged? && Ready(mid, op)
      ensures Ended(mid, db, op, ok, commit)
    {
      mid := db;
      assert Follows(db, [], db);
      NextIsNew(db, op);
      if failure.AtBegin? { return false, mid; }
      Do(Begin(t, op));
      assert Without(db, t) == old(db);
      mid := Wait(t, op, others);
      NextIsNew(db, op);
      assert Next(mid, Begin(t, op)) == db;
      ok := Statements(t, op, failure, commit, mid);
    }

    method UpsertStation(t: nat, s: Station, others: seq<Action>, failure: Failure, commit: Fate)
      returns (ok: bool, ghost mid: Database)
      requires Inv(db) && t !in db.open
      modifies this
      ensures Inv(db) && Reaches(old(db), mid)
      ensures ok <==> && s.identity != "" && s.version in {OCPP16, OCPP201, OCPP21} && s.vendor != "" && s.model != ""
                      && s.lastBootAt != None && failure.NoFailure? && commit.Acknowledged?
                      && StationRow(s.identity) !in mid.locks
      ensures Ended(mid, db, Boot(s), ok, commit)
      ensures ok ==> db.rows == mid.rows[StationRow(s.identity) := Boot(s)]
      ensures ok ==> exists id :: id !in mid.events && db.events == mid.events[id := Boot(s)]
    {
      mid := db;
      assert Follows(db, [], db);
      if !ValidStation(s) { return false, mid; }
      ok, mid := Transact(t, Boot(s), others, failure, commit);
    }

    method UpdateConnectorStatus(t: nat, c: ConnectorStatus, others: seq<Action>, failure: Failure, commit: Fate)
      returns (ok: bool, ghost mid: Database)
      requires Inv(db) && t !in db.open
      modifies this
      ensures Inv(db) && Reaches(old(db), mid)
      ensures ok <==> && c.identity != "" && c.version in {OCPP16, OCPP201, OCPP21} && c.evse >= 0 && c.connector >= 0
                      && c.status != "" && c.receivedAt != None && failure.NoFailure? && commit.Acknowledged?
                      && ConnectorRow(c.identity, c.evse, c.connector) !in mid.locks
                      && StationRow(c.identity) in mid.rows && StationRow(c.identity) !in mid.locks
      ensures Ended(mid, db, Status(c), ok, commit)
      ensures ok ==> db.rows == mid.rows[ConnectorRow(c.identity, c.evse, c.connector) := Status(c)]
      ensures ok ==> exists id :: id !in mid.events && db.events == mid.events[id := Status(c)]
    {
      mid := db;
      assert Follows(db, [], db);
      if !ValidStatus(c) { return false, mid; }
      ok, mid := Transact(t, Status(c), others, failure, commit);
    }
  }

  lemma Snoc(acts: seq<Action>, a: Action)
    requires Legal(acts) && Enabled(Exec(acts), a)
    ensures Legal(acts + [a]) && Exec(acts + [a]) == Next(Exec(acts), a)
  {
    assert (acts + [a])[..|acts|] == acts;
  }

  /** What Serial computes is what transactions run one after the other leave in the tables. */
  lemma {:induction false} SerialIsARun(ops: seq<Op>) returns (acts: seq<Action>)
    ensures Legal(acts) && Exec(acts).rows == Serial(ops) && Exec(acts).open == map[] && Exec(acts).locks == map[]
  {
    acts := [];
    if ops != [] {
      var op := ops[|ops| - 1];
      acts := SerialIsARun(ops[..|ops| - 1]);
      if ValidOp(op) && ParentIn(Exec(acts).rows, op) {
        acts := StoreRun(acts, op);
      }
    }
  }

  lemma StoreRun(acts: seq<Action>, op: Op) returns (acts': seq<Action>)
    requires Legal(acts) && Exec(acts).open == map[] && Exec(acts).locks == map[]
    requires ValidOp(op) && ParentIn(Exec(acts).rows, op)
    ensures Legal(acts') && Stored(Exec(acts), Exec(acts'), op)
  {
    StoresAlone(Exec(acts), 0, op);
    Snoc(acts, Begin(0, op));
    acts' := acts + [Begin(0, op)];
    Snoc(acts', Upsert(0));
    acts' := acts' + [Upsert(0)];
    Snoc(acts', Log(0));
    acts' := acts' + [Log(0)];
    Snoc(acts', Commit(0));
    acts' := acts' + [Commit(0)];
  }
}
