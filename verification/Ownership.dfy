/**
 * Session ownership: any number of runtimes over one lease table, each with
 * its connection callbacks, its entry map and one renewal loop per entry.
 * Every action is one atomic step of one of them; a call to the store may be
 * applied, applied with its answer lost, or not applied, and scripts that are
 * late, repeated or sent by anyone else may run at any time.
 */
module Ownership {
  import opened Base
  import opened Leases
  import H = LeaseHistory

  /** Who was granted which generation of which station. */
  datatype Stamp = Stamp(owner: string, station: string, generation: nat)

  function StampOf(l: Lease): (st: Stamp) { Stamp(l.owner, l.station, l.generation) }

  /** The renewal goroutine of an entry; Locked while it holds the entry's mutex around Renew. */
  datatype Loop = Waiting | Locked | Stopped

  datatype Entry = Entry(lease: Lease, cancelled: bool, loop: Loop)

  /** Where the connect and disconnect callbacks of one station stand in one runtime. */
  datatype Callback =
    | Down                     // no session
    | Claiming                 // onConnect entered
    | Won(lease: Lease)        // Claim succeeded, entry not yet in the map
    | Refused                  // Claim failed, session being closed
    | Up                       // onConnect returned after installing its entry
    | Taken(eid: nat)          // onDisconnect removed the entry from the map
    | Cancelled(eid: nat)      // and stopped its renewal loop
    | Releasing(lease: Lease)  // and read the lease to release

  /** Entries live in the heap; the map refers to them, as may callbacks and commands already past the map. */
  datatype Manager = Manager(heap: seq<Entry>, entries: map<string, nat>, callbacks: map<string, Callback>)

  const FRESH := Manager([], map[], map[])

  datatype State = State(
    now: nat,
    table: Table,
    managers: map<string, Manager>,
    grants: seq<Stamp>,                    // every generation ever drawn and for whom, in order
    claimed: set<Stamp>,                   // grants a runtime got back from its own Claim
    releases: multiset<(string, Stamp)>,   // Release calls, by the runtime that made them
    ended: set<(string, nat)>)             // stations and generations a Release was applied to

  const INITIAL := State(0, EMPTY, map[], [], {}, multiset{}, {})

  datatype Action =
    | Tick(ms: nat)
    | Stray(op: H.Op)
    | Connect(r: string, s: string)
    | ClaimRun(r: string, s: string, ttl: nat, fate: Fate)
    | Install(r: string, s: string)
    | LoopTick(r: string, eid: nat)
    | RenewRun(r: string, eid: nat, ttl: nat, fate: Fate)
    | LoopExit(r: string, eid: nat)
    | TakeEntry(r: string, s: string)
    | CancelEntry(r: string, s: string)
    | ReadLease(r: string, s: string)
    | ReleaseRun(r: string, s: string, fate: Fate)
    | Crash(r: string)

  function Of(st: State, r: string): (m: Manager) { if r in st.managers then st.managers[r] else FRESH }

  function At(m: Manager, s: string): (c: Callback) { if s in m.callbacks then m.callbacks[s] else Down }

  function Set(m: Manager, s: string, c: Callback): (m': Manager) { m.(callbacks := m.callbacks[s := c]) }

  function With(st: State, r: string, m: Manager): (st': State) { st.(managers := st.managers[r := m]) }

  /** The gate commands must pass: the local entry alone decides, whatever the store now holds. */
  predicate Owns(m: Manager, r: string, eid: nat, g: nat) {
    eid < |m.heap| && m.heap[eid].lease.owner == r && m.heap[eid].lease.generation == g
  }

  // ---------- Steps

  /**
   * The store runs one registry operation; generations drawn are recorded. One
   * drawn for the counter's own name is granted to nobody.
   */
  function Touch(st: State, op: H.Op): (st': State) {
    var q := H.Apply(H.Point(st.now, st.table), op);
    st.(now := q.now, table := q.table, grants :=
      if op.ClaimOp? && q.table.counter != st.table.counter
      then st.grants + [Stamp(op.o, op.s, q.table.counter)] else st.grants)
  }

  predicate Enabled(st: State, a: Action) {
    match a
    case Tick(_) => true
    case Stray(op) => !op.Tick?
    case Connect(r, s) => At(Of(st, r), s).Down?
    case ClaimRun(r, s, _, _) => At(Of(st, r), s).Claiming?
    case Install(r, s) => At(Of(st, r), s).Won?
    case LoopTick(r, e) => e < |Of(st, r).heap| && Of(st, r).heap[e].loop.Waiting?
    case RenewRun(r, e, _, _) => e < |Of(st, r).heap| && Of(st, r).heap[e].loop.Locked?
    case LoopExit(r, e) => e < |Of(st, r).heap| && Of(st, r).heap[e].loop.Waiting?
    case TakeEntry(r, s) => At(Of(st, r), s).Up? || At(Of(st, r), s).Refused?
    case CancelEntry(r, s) => At(Of(st, r), s).Taken? && At(Of(st, r), s).eid < |Of(st, r).heap|
    case ReadLease(r, s) =>
      var m := Of(st, r);
      At(m, s).Cancelled? && At(m, s).eid < |m.heap| && !m.heap[At(m, s).eid].loop.Locked?
    case ReleaseRun(r, s, _) => At(Of(st, r), s).Releasing?
    case Crash(_) => true
  }

  /** Without a name on either side the client refuses before it asks the store. */
  predicate Asks(r: string, s: string) { r != "" && s != "" }

  function ClaimStep(st: State, r: string, s: string, ttl: nat, fate: Fate): (st': State) {
    var after := if Asks(r, s) && fate.Applied() then Touch(st, H.ClaimOp(s, r, ttl)) else st;
    var reply := Claim(st.table, st.now, s, r, ttl).1;
    if Asks(r, s) && fate.Acknowledged? && reply.Granted? then
      var lease := Lease(s, r, reply.generation, (st.now + ttl) * NANOS_PER_MS);
      With(after, r, Set(Of(st, r), s, Won(lease))).(claimed := st.claimed + {StampOf(lease)})
    else With(after, r, Set(Of(st, r), s, Refused))
  }

  function RenewStep(st: State, r: string, e: nat, ttl: nat, fate: Fate): (st': State)
    requires e < |Of(st, r).heap|
  {
    var m := Of(st, r);
    var l := m.heap[e].lease;
    var after := if fate.Applied() then Touch(st, H.RenewOp(l.station, l.owner, l.generation, ttl)) else st;
    if fate.Acknowledged? && Renew(st.table, st.now, l.station, l.owner, l.generation, ttl).1 then
      var renewed := l.(expiresAt := (st.now + ttl) * NANOS_PER_MS);
      With(after, r, m.(heap := m.heap[e := m.heap[e].(lease := renewed, loop := Waiting)]))
    else With(after, r, m.(heap := m.heap[e := m.heap[e].(loop := Stopped)]))
  }

  function TakeStep(m: Manager, s: string): (m': Manager) {
    if s !in m.entries then Set(m, s, Down)
    else Set(m.(entries := m.entries - {s}), s, Taken(m.entries[s]))
  }

  function ReleaseStep(st: State, r: string, s: string, fate: Fate): (st': State)
    requires At(Of(st, r), s).Releasing?
  {
    var l := At(Of(st, r), s).lease;
    var after := if fate.Applied() then Touch(st, H.ReleaseOp(l.station, l.owner, l.generation)) else st;
    With(after, r, Set(Of(st, r), s, Down)).(
      releases := st.releases + multiset{(r, StampOf(l))},
      ended := if fate.Applied() then st.ended + {(l.station, l.generation)} else st.ended)
  }

  function SetLoop(m: Manager, e: nat, loop: Loop): (m': Manager)
    requires e < |m.heap|
  {
    m.(heap := m.heap[e := m.heap[e].(loop := loop)])
  }

  function Step(st: State, a: Action): (st': State)
    requires Enabled(st, a)
  {
    match a
    case Tick(ms) => Touch(st, H.Tick(ms))
    case Stray(op) => Touch(st, op)
    case Connect(r, s) => With(st, r, Set(Of(st, r), s, Claiming))
    case ClaimRun(r, s, ttl, fate) => ClaimStep(st, r, s, ttl, fate)
    case Install(r, s) => With(st, r, InstallStep(Of(st, r), s))
    case LoopTick(r, e) => With(st, r, SetLoop(Of(st, r), e, Locked))
    case RenewRun(r, e, ttl, fate) => RenewStep(st, r, e, ttl, fate)
    case LoopExit(r, e) => With(st, r, SetLoop(Of(st, r), e, Stopped))
    case TakeEntry(r, s) => With(st, r, TakeStep(Of(st, r), s))
    case CancelEntry(r, s) =>
      var m := Of(st, r);
      var e := At(m, s).eid;
      With(st, r, Set(m.(heap := m.heap[e := m.heap[e].(cancelled := true)]), s, Callback.Cancelled(e)))
    case ReadLease(r, s) =>
      var m := Of(st, r);
      With(st, r, Set(m, s, Releasing(m.heap[At(m, s).eid].lease)))
    case ReleaseRun(r, s, fate) => ReleaseStep(st, r, s, fate)
    case Crash(r) => st.(managers := st.managers - {r})
  }

  function InstallStep(m: Manager, s: string): (m': Manager)
    requires At(m, s).Won?
  {
    Set(m.(heap := m.heap + [Entry(At(m, s).lease, false, Waiting)], entries := m.entries[s := |m.heap|]), s, Up)
  }

  /** The state after a run; Legal says every action was enabled when taken. */
  function Exec(acts: seq<Action>): (st: State)
    requires Legal(acts)
    decreases |acts|, 1
  {
    if acts == [] then INITIAL else Step(Exec(acts[..|acts| - 1]), acts[|acts| - 1])
  }

  predicate Legal(acts: seq<Action>)
    decreases |acts|, 0
  {
    acts == [] || (Legal(acts[..|acts| - 1]) && Enabled(Exec(acts[..|acts| - 1]), acts[|acts| - 1]))
  }

  // ---------- What every step keeps

  /** The cell of station s is the latest grant of s. */
  predicate CellInv(grants: seq<Stamp>, s: string, c: Cell) {
    && 1 <= c.generation <= |grants| && s != COUNTER_STATION
    && grants[c.generation - 1] == Stamp(c.owner, s, c.generation)
    && forall i | c.generation <= i < |grants| :: grants[i].station != s
  }

  /** The grants record numbers itself, and each cell of the table is a latest grant. */
  predicate GrantsInv(t: Table, grants: seq<Stamp>) {
    && |grants| == t.counter
    && (forall i | 0 <= i < |grants| :: grants[i].generation == i + 1)
    && (forall s | s in t.cells :: CellInv(grants, s, t.cells[s]))
  }

  predicate IsGrant(grants: seq<Stamp>, st: Stamp) {
    1 <= st.generation <= |grants| && grants[st.generation - 1] == st && st.station != COUNTER_STATION
  }

  ghost predicate RecordsInv(st: State) {
    && (forall c <- st.claimed :: IsGrant(st.grants, c))
    && (forall x <- st.releases :: x.1.owner == x.0 && x.1 in st.claimed && st.releases[x] <= 1)
    && (forall x <- st.ended :: x.1 <= st.table.counter && !Occupied(st.table, st.now, x.0, x.1))
  }

  predicate OwnClaim(claimed: set<Stamp>, r: string, s: string, l: Lease) {
    l.owner == r && l.station == s && StampOf(l) in claimed
  }

  predicate HeapInv(m: Manager, r: string, claimed: set<Stamp>) {
    && (forall e | 0 <= e < |m.heap| :: OwnClaim(claimed, r, m.heap[e].lease.station, m.heap[e].lease))
    && (forall s | s in m.entries :: m.entries[s] < |m.heap| && m.heap[m.entries[s]].lease.station == s)
  }

  /** The lease the callbacks of station s are responsible for releasing. */
  function Carried(m: Manager, s: string): (l: Option<Lease>) {
    match At(m, s)
    case Won(l) => Some(l)
    case Releasing(l) => Some(l)
    case Up => if s in m.entries && m.entries[s] < |m.heap| then Some(m.heap[m.entries[s]].lease) else None
    case Taken(e) => if e < |m.heap| then Some(m.heap[e].lease) else None
    case Cancelled(e) => if e < |m.heap| then Some(m.heap[e].lease) else None
    case _ => None
  }

  predicate StationInv(m: Manager, r: string, s: string, claimed: set<Stamp>, releases: multiset<(string, Stamp)>) {
    && (At(m, s).Up? <==> s in m.entries)
    && (At(m, s).Taken? ==> At(m, s).eid < |m.heap|)
    && (At(m, s).Cancelled? ==> At(m, s).eid < |m.heap|)
    && (Carried(m, s).Some? ==>
      OwnClaim(claimed, r, s, Carried(m, s).value) && releases[(r, StampOf(Carried(m, s).value))] == 0)
  }

  ghost predicate ManagerInv(m: Manager, r: string, claimed: set<Stamp>, releases: multiset<(string, Stamp)>) {
    HeapInv(m, r, claimed) && forall s :: StationInv(m, r, s, claimed, releases)
  }

  ghost predicate Inv(st: State) {
    && GrantsInv(st.table, st.grants)
    && RecordsInv(st)
    && forall r :: ManagerInv(Of(st, r), r, st.claimed, st.releases)
  }

  lemma GrantKeeps(t: Table, grants: seq<Stamp>, s: string, o: string, deadline: nat)
    requires GrantsInv(t, grants) && s != COUNTER_STATION
    ensures GrantsInv(Table(t.counter + 1, t.cells[s := Cell(o, t.counter + 1, deadline)]),
                      grants + [Stamp(o, s, t.counter + 1)])
  {
    var grants' := grants + [Stamp(o, s, t.counter + 1)];
    forall s' | s' in t.cells && s' != s ensures CellInv(grants', s', t.cells[s']) {
      assert CellInv(grants, s', t.cells[s']);
    }
  }

  /** The first claim of the counter's name finds no cells at all. */
  lemma BurnKeeps(t: Table, grants: seq<Stamp>, o: string)
    requires GrantsInv(t, grants) && t.counter == 0
    ensures GrantsInv(t.(counter := 1), grants + [Stamp(o, COUNTER_STATION, 1)])
  {
    assert forall s | s in t.cells :: CellInv(grants, s, t.cells[s]);
  }

  lemma TouchGrants(st: State, op: H.Op)
    requires GrantsInv(st.table, st.grants)
    ensures GrantsInv(Touch(st, op).table, Touch(st, op).grants)
    ensures st.grants <= Touch(st, op).grants
  {
    match op
    case ClaimOp(s, o, ttl) =>
      if s == COUNTER_STATION {
        if st.table.counter == 0 { BurnKeeps(st.table, st.grants, o); }
      } else if !Live(st.table, st.now, s) {
        GrantKeeps(st.table, st.grants, s, o, st.now + ttl);
      }
    case RenewOp(s, o, g, ttl) =>
      if Holds(st.table, st.now, s, o, g) { assert CellInv(st.grants, s, st.table.cells[s]); }
    case _ =>
  }

  lemma TouchEnded(st: State, op: H.Op, s: string, g: nat)
    requires g <= st.table.counter && !Occupied(st.table, st.now, s, g)
    ensures g <= Touch(st, op).table.counter && !Occupied(Touch(st, op).table, Touch(st, op).now, s, g)
  {
  }

  lemma TouchKeeps(st: State, op: H.Op)
    requires GrantsInv(st.table, st.grants) && RecordsInv(st)
    ensures GrantsInv(Touch(st, op).table, Touch(st, op).grants) && RecordsInv(Touch(st, op))
    ensures st.grants <= Touch(st, op).grants
  {
    TouchGrants(st, op);
    var st' := Touch(st, op);
    forall x | x in st'.ended
      ensures x.1 <= st'.table.counter && !Occupied(st'.table, st'.now, x.0, x.1)
    {
      TouchEnded(st, op, x.0, x.1);
    }
  }

  /** Only manager r changed, and only in a way that keeps its own invariant. */
  lemma OneManager(st: State, st': State, r: string)
    requires Inv(st)
    requires GrantsInv(st'.table, st'.grants) && RecordsInv(st')
    requires forall r' :: r' != r ==> Of(st', r') == Of(st, r')
    requires st.claimed <= st'.claimed
    requires forall r', x :: r' != r ==> st'.releases[(r', x)] == st.releases[(r', x)]
    requires ManagerInv(Of(st', r), r, st'.claimed, st'.releases)
    ensures Inv(st')
  {
    forall r' | r' != r ensures ManagerInv(Of(st', r'), r', st'.claimed, st'.releases) {
      var m := Of(st, r');
      assert ManagerInv(m, r', st.claimed, st.releases);
      forall s ensures StationInv(m, r', s, st'.claimed, st'.releases) {
        assert StationInv(m, r', s, st.claimed, st.releases);
      }
    }
  }

  /** Rewriting the lock, the cancel flag or the expiry of one entry. */
  lemma SameStamps(m: Manager, m': Manager, r: string, claimed: set<Stamp>, releases: multiset<(string, Stamp)>)
    requires ManagerInv(m, r, claimed, releases)
    requires m'.entries == m.entries && m'.callbacks == m.callbacks && |m'.heap| == |m.heap|
    requires forall e | 0 <= e < |m.heap| :: StampOf(m'.heap[e].lease) == StampOf(m.heap[e].lease)
    ensures ManagerInv(m', r, claimed, releases)
  {
    forall s ensures StationInv(m', r, s, claimed, releases) {
      assert StationInv(m, r, s, claimed, releases);
    }
  }

  /** A change confined to one station's callback state. */
  lemma OneStation(m: Manager, m': Manager, r: string, s: string, claimed: set<Stamp>, claimed': set<Stamp>,
                   releases: multiset<(string, Stamp)>, releases': multiset<(string, Stamp)>)
    requires ManagerInv(m, r, claimed, releases) && claimed <= claimed'
    requires forall s' | s' != s ::
      && At(m', s') == At(m, s') && (s' in m'.entries <==> s' in m.entries)
      && (s' in m.entries ==> m'.entries[s'] == m.entries[s'])
    requires m.heap <= m'.heap && HeapInv(m', r, claimed')
    requires forall x: Stamp :: x.station != s ==> releases'[(r, x)] == releases[(r, x)]
    requires StationInv(m', r, s, claimed', releases')
    ensures ManagerInv(m', r, claimed', releases')
  {
    forall s' | s' != s ensures StationInv(m', r, s', claimed', releases') {
      assert StationInv(m, r, s', claimed, releases);
    }
  }

  lemma ClaimKeeps(st: State, r: string, s: string, ttl: nat, fate: Fate)
    requires Inv(st) && At(Of(st, r), s).Claiming?
    ensures Inv(ClaimStep(st, r, s, ttl, fate))
  {
    ClaimRecords(st, r, s, ttl, fate);
    NextIsNew(st, r, s);
    ClaimStation(st, r, s, ttl, fate);
    OneManager(st, ClaimStep(st, r, s, ttl, fate), r);
  }

  lemma ClaimRecords(st: State, r: string, s: string, ttl: nat, fate: Fate)
    requires GrantsInv(st.table, st.grants) && RecordsInv(st)
    ensures var st' := ClaimStep(st, r, s, ttl, fate);
      GrantsInv(st'.table, st'.grants) && RecordsInv(st') && st.claimed <= st'.claimed
  {
    var st', after := ClaimStep(st, r, s, ttl, fate), st;
    if Asks(r, s) && fate.Applied() {
      after := Touch(st, H.ClaimOp(s, r, ttl));
      TouchKeeps(st, H.ClaimOp(s, r, ttl));
    }
    if At(Of(st', r), s).Won? {
      Claimed(after, Stamp(r, s, st.table.counter + 1), st'.managers);
    } else {
      Unclaimed(after, st'.managers);
    }
  }

  lemma Claimed(st: State, won: Stamp, managers: map<string, Manager>)
    requires RecordsInv(st) && IsGrant(st.grants, won)
    ensures RecordsInv(st.(claimed := st.claimed + {won}, managers := managers))
  {
  }

  lemma Unclaimed(st: State, managers: map<string, Manager>)
    requires RecordsInv(st)
    ensures RecordsInv(st.(managers := managers))
  {
  }

  /** The next generation was never granted, so nobody claimed or released it. */
  lemma NextIsNew(st: State, r: string, s: string)
    requires GrantsInv(st.table, st.grants) && RecordsInv(st)
    ensures st.releases[(r, Stamp(r, s, st.table.counter + 1))] == 0
  {
    var won := Stamp(r, s, st.table.counter + 1);
    assert won !in st.claimed && (r, won) !in st.releases;
  }

  lemma ClaimStation(st: State, r: string, s: string, ttl: nat, fate: Fate)
    requires ManagerInv(Of(st, r), r, st.claimed, st.releases) && At(Of(st, r), s).Claiming?
    requires st.releases[(r, Stamp(r, s, st.table.counter + 1))] == 0
    ensures var st' := ClaimStep(st, r, s, ttl, fate); ManagerInv(Of(st', r), r, st'.claimed, st'.releases)
  {
    var m, m' := Of(st, r), Of(ClaimStep(st, r, s, ttl, fate), r);
    if At(m', s).Won? {
      WonStation(m, r, s, At(m', s).lease, st.claimed, st.releases);
    } else {
      assert StationInv(m, r, s, st.claimed, st.releases);
      OneStation(m, m', r, s, st.claimed, st.claimed, st.releases, st.releases);
    }
  }

  lemma WonStation(m: Manager, r: string, s: string, l: Lease, claimed: set<Stamp>, releases: multiset<(string, Stamp)>)
    requires ManagerInv(m, r, claimed, releases) && At(m, s).Claiming?
    requires l.owner == r && l.station == s && releases[(r, StampOf(l))] == 0
    ensures ManagerInv(Set(m, s, Won(l)), r, claimed + {StampOf(l)}, releases)
  {
    assert StationInv(m, r, s, claimed, releases);
    OneStation(m, Set(m, s, Won(l)), r, s, claimed, claimed + {StampOf(l)}, releases, releases);
  }

  /** A renewal changes no entry's stamp, and nobody else's entries. */
  lemma RenewEffect(st: State, r: string, e: nat, ttl: nat, fate: Fate)
    requires e < |Of(st, r).heap|
    ensures var st', m, m' := RenewStep(st, r, e, ttl, fate), Of(st, r), Of(RenewStep(st, r, e, ttl, fate), r);
      && st'.claimed == st.claimed && st'.releases == st.releases
      && (forall r' :: r' != r ==> Of(st', r') == Of(st, r'))
      && m'.entries == m.entries && m'.callbacks == m.callbacks && |m'.heap| == |m.heap|
      && forall i | 0 <= i < |m.heap| :: StampOf(m'.heap[i].lease) == StampOf(m.heap[i].lease)
  {
  }

  lemma RenewKeeps(st: State, r: string, e: nat, ttl: nat, fate: Fate)
    requires Inv(st) && e < |Of(st, r).heap|
    ensures Inv(RenewStep(st, r, e, ttl, fate))
  {
    var st' := RenewStep(st, r, e, ttl, fate);
    RenewRecords(st, r, e, ttl, fate);
    RenewEffect(st, r, e, ttl, fate);
    assert ManagerInv(Of(st, r), r, st.claimed, st.releases);
    SameStamps(Of(st, r), Of(st', r), r, st.claimed, st.releases);
    OneManager(st, st', r);
  }

  lemma RenewRecords(st: State, r: string, e: nat, ttl: nat, fate: Fate)
    requires GrantsInv(st.table, st.grants) && RecordsInv(st) && e < |Of(st, r).heap|
    ensures var st' := RenewStep(st, r, e, ttl, fate);
      GrantsInv(st'.table, st'.grants) && RecordsInv(st')
  {
    var l := Of(st, r).heap[e].lease;
    TouchKeeps(st, H.RenewOp(l.station, l.owner, l.generation, ttl));
  }

  lemma ReleaseKeeps(st: State, r: string, s: string, fate: Fate)
    requires Inv(st) && At(Of(st, r), s).Releasing?
    ensures Inv(ReleaseStep(st, r, s, fate))
  {
    var st' := ReleaseStep(st, r, s, fate);
    ReleaseRecords(st, r, s, fate);
    var m := Of(st, r);
    assert ManagerInv(m, r, st.claimed, st.releases) && StationInv(m, r, s, st.claimed, st.releases);
    OneStation(m, Of(st', r), r, s, st.claimed, st'.claimed, st.releases, st'.releases);
    OneManager(st, st', r);
  }

  lemma ReleaseRecords(st: State, r: string, s: string, fate: Fate)
    requires Inv(st) && At(Of(st, r), s).Releasing?
    ensures var st' := ReleaseStep(st, r, s, fate);
      GrantsInv(st'.table, st'.grants) && RecordsInv(st')
  {
    var st' := ReleaseStep(st, r, s, fate);
    var m := Of(st, r);
    var l := At(m, s).lease;
    assert ManagerInv(m, r, st.claimed, st.releases) && StationInv(m, r, s, st.claimed, st.releases);
    assert Carried(m, s) == Some(l);
    var op := H.ReleaseOp(l.station, l.owner, l.generation);
    TouchKeeps(st, op);
    assert IsGrant(st.grants, StampOf(l));
    forall x | x in st'.releases ensures x.1.owner == x.0 && x.1 in st.claimed && st'.releases[x] <= 1 {
      if x != (r, StampOf(l)) { assert x in st.releases; }
    }
    if fate.Applied() { OwnGrantNotOccupied(st, l); }
  }

  /** Once the holder's own Release has run, its generation no longer occupies the station. */
  lemma OwnGrantNotOccupied(st: State, l: Lease)
    requires GrantsInv(st.table, st.grants) && IsGrant(st.grants, StampOf(l))
    ensures var st' := Touch(st, H.ReleaseOp(l.station, l.owner, l.generation));
      !Occupied(st'.table, st'.now, l.station, l.generation) && l.generation <= st'.table.counter
  {
  }

  /** The steps inside one runtime that do not touch the store. */
  lemma LocalKeeps(st: State, a: Action)
    requires Inv(st) && Enabled(st, a)
    requires a.Connect? || a.Install? || a.TakeEntry? || a.CancelEntry? || a.ReadLease?
    ensures Inv(Step(st, a))
  {
    LocalStation(Of(st, a.r), a, st);
    OneManager(st, Step(st, a), a.r);
  }

  lemma LocalStation(m: Manager, a: Action, st: State)
    requires Enabled(st, a)
    requires a.Connect? || a.Install? || a.TakeEntry? || a.CancelEntry? || a.ReadLease?
    requires m == Of(st, a.r) && ManagerInv(m, a.r, st.claimed, st.releases)
    ensures ManagerInv(Of(Step(st, a), a.r), a.r, st.claimed, st.releases)
  {
    var r, s, claimed, releases := a.r, a.s, st.claimed, st.releases;
    var m' := Of(Step(st, a), r);
    assert StationInv(m, r, s, claimed, releases);
    match a
    case Connect(_, _) => OneStation(m, m', r, s, claimed, claimed, releases, releases);
    case Install(_, _) => InstallStation(m, r, s, claimed, releases);
    case TakeEntry(_, _) => TakeStation(m, r, s, claimed, releases);
    case CancelEntry(_, _) => CancelStation(m, r, s, claimed, releases);
    case ReadLease(_, _) =>
      assert Carried(m', s) == Carried(m, s);
      OneStation(m, m', r, s, claimed, claimed, releases, releases);
  }

  lemma CancelStation(m: Manager, r: string, s: string, claimed: set<Stamp>, releases: multiset<(string, Stamp)>)
    requires ManagerInv(m, r, claimed, releases) && At(m, s).Taken? && At(m, s).eid < |m.heap|
    ensures var e := At(m, s).eid;
      ManagerInv(Set(m.(heap := m.heap[e := m.heap[e].(cancelled := true)]), s, Callback.Cancelled(e)), r, claimed, releases)
  {
    var e := At(m, s).eid;
    var cancelled := m.(heap := m.heap[e := m.heap[e].(cancelled := true)]);
    var m' := Set(cancelled, s, Callback.Cancelled(e));
    SameStamps(m, cancelled, r, claimed, releases);
    assert StationInv(cancelled, r, s, claimed, releases) && Carried(m', s) == Carried(cancelled, s);
    OneStation(cancelled, m', r, s, claimed, claimed, releases, releases);
  }

  lemma InstallStation(m: Manager, r: string, s: string, claimed: set<Stamp>, releases: multiset<(string, Stamp)>)
    requires ManagerInv(m, r, claimed, releases) && At(m, s).Won?
    ensures ManagerInv(InstallStep(m, s), r, claimed, releases)
  {
    var m' := InstallStep(m, s);
    assert StationInv(m, r, s, claimed, releases);
    assert Carried(m', s) == Carried(m, s);
    OneStation(m, m', r, s, claimed, claimed, releases, releases);
  }

  lemma TakeStation(m: Manager, r: string, s: string, claimed: set<Stamp>, releases: multiset<(string, Stamp)>)
    requires ManagerInv(m, r, claimed, releases) && (At(m, s).Up? || At(m, s).Refused?)
    ensures ManagerInv(TakeStep(m, s), r, claimed, releases)
  {
    var m' := TakeStep(m, s);
    assert StationInv(m, r, s, claimed, releases);
    assert Carried(m', s) == Carried(m, s);
    OneStation(m, m', r, s, claimed, claimed, releases, releases);
  }

  lemma LoopKeeps(st: State, r: string, e: nat, loop: Loop)
    requires Inv(st) && e < |Of(st, r).heap|
    ensures Inv(With(st, r, SetLoop(Of(st, r), e, loop)))
  {
    var st' := With(st, r, SetLoop(Of(st, r), e, loop));
    assert ManagerInv(Of(st, r), r, st.claimed, st.releases);
    SameStamps(Of(st, r), Of(st', r), r, st.claimed, st.releases);
    OneManager(st, st', r);
  }

  lemma StepKeeps(st: State, a: Action)
    requires Inv(st) && Enabled(st, a)
    ensures Inv(Step(st, a))
  {
    var st' := Step(st, a);
    match a
    case Tick(ms) => TouchKeeps(st, H.Tick(ms)); OneManagerUnchanged(st, st');
    case Stray(op) => TouchKeeps(st, op); OneManagerUnchanged(st, st');
    case ClaimRun(r, s, ttl, fate) => ClaimKeeps(st, r, s, ttl, fate);
    case RenewRun(r, e, ttl, fate) => RenewKeeps(st, r, e, ttl, fate);
    case ReleaseRun(r, s, fate) => ReleaseKeeps(st, r, s, fate);
    case LoopTick(r, e) => LoopKeeps(st, r, e, Locked);
    case LoopExit(r, e) => LoopKeeps(st, r, e, Stopped);
    case Crash(r) => OneManager(st, st', r);
    case _ => LocalKeeps(st, a);
  }

  lemma OneManagerUnchanged(st: State, st': State)
    requires Inv(st) && st'.managers == st.managers && st'.claimed == st.claimed && st'.releases == st.releases
    requires GrantsInv(st'.table, st'.grants) && RecordsInv(st')
    ensures Inv(st')
  {
    forall r ensures ManagerInv(Of(st', r), r, st'.claimed, st'.releases) {
      assert ManagerInv(Of(st, r), r, st.claimed, st.releases);
    }
  }

  lemma {:induction false} AlwaysInv(acts: seq<Action>)
    requires Legal(acts)
    ensures Inv(Exec(acts))
  {
    if acts != [] {
      AlwaysInv(acts[..|acts| - 1]);
      StepKeeps(Exec(acts[..|acts| - 1]), acts[|acts| - 1]);
    }
  }

  // ---------- Consequences for every run

  /**
   * Each grant a runtime got back is released at most once, by that runtime
   * and under its own generation; a runtime never releases what it did not win.
   */
  lemma {:induction false} SessionLifecycle(acts: seq<Action>, r: string, x: Stamp)
    requires Legal(acts)
    ensures Exec(acts).releases[(r, x)] <= 1
    ensures Exec(acts).releases[(r, x)] > 0 ==> x.owner == r && x in Exec(acts).claimed && IsGrant(Exec(acts).grants, x)
  {
    AlwaysInv(acts);
    if (r, x) in Exec(acts).releases { assert x in Exec(acts).claimed; }
  }

  lemma Snoc(acts: seq<Action>, a: Action)
    requires Legal(acts) && Enabled(Exec(acts), a)
    ensures Legal(acts + [a]) && Exec(acts + [a]) == Step(Exec(acts), a)
  {
    assert (acts + [a])[..|acts|] == acts;
  }

  /** acts, taken one after the other from st, lead to st'. */
  predicate Follows(st: State, acts: seq<Action>, st': State)
    decreases |acts|
  {
    if acts == [] then st == st'
    else Enabled(st, acts[0]) && Follows(Step(st, acts[0]), acts[1..], st')
  }

  lemma {:induction false} RunsCompose(before: seq<Action>, acts: seq<Action>, st': State)
    requires Legal(before) && Follows(Exec(before), acts, st')
    ensures Legal(before + acts) && Exec(before + acts) == st'
    decreases |acts|
  {
    if acts == [] {
      assert before + acts == before;
    } else {
      Snoc(before, acts[0]);
      RunsCompose(before + [acts[0]], acts[1..], st');
      assert before + acts == before + [acts[0]] + acts[1..];
    }
  }

  lemma {:induction false} EndedPersists(st: State, acts: seq<Action>, st': State)
    requires Follows(st, acts, st')
    ensures st.ended <= st'.ended
    decreases |acts|
  {
    if acts != [] { EndedPersists(Step(st, acts[0]), acts[1..], st'); }
  }

  /** Once a Release has been applied, no renewal of that generation takes effect at any later point of the run. */
  lemma {:induction false} NoRenewalAfterRelease(
    acts: seq<Action>, more: seq<Action>, st: State, s: string, g: nat, o: string, ttl: nat)
    requires Legal(acts) && (s, g) in Exec(acts).ended && Follows(Exec(acts), more, st)
    ensures Renew(st.table, st.now, s, o, g, ttl) == (st.table, false)
  {
    RunsCompose(acts, more, st);
    EndedPersists(Exec(acts), more, st);
    AlwaysInv(acts + more);
  }

  /** What the gate can answer: an entry only ever holds a grant its own runtime got back for that station. */
  lemma {:induction false} GateMeansOwnClaim(acts: seq<Action>, r: string, e: nat, g: nat)
    requires Legal(acts) && Owns(Of(Exec(acts), r), r, e, g)
    ensures var l := Of(Exec(acts), r).heap[e].lease;
      StampOf(l) == Stamp(r, l.station, g) && StampOf(l) in Exec(acts).claimed && IsGrant(Exec(acts).grants, StampOf(l))
  {
    AlwaysInv(acts);
    assert ManagerInv(Of(Exec(acts), r), r, Exec(acts).claimed, Exec(acts).releases);
  }

  /** No two runtimes, and no two stations, ever pass the gate with one generation, at the same point of a run or not. */
  lemma {:induction false} OneOwnerPerGeneration(
    acts: seq<Action>, more: seq<Action>, st: State, r: string, e: nat, r': string, e': nat, g: nat)
    requires Legal(acts) && Follows(Exec(acts), more, st)
    requires Owns(Of(Exec(acts), r), r, e, g) && Owns(Of(st, r'), r', e', g)
    ensures r == r' && Of(Exec(acts), r).heap[e].lease.station == Of(st, r').heap[e'].lease.station
  {
    GateMeansOwnClaim(acts, r, e, g);
    RunsCompose(acts, more, st);
    GateMeansOwnClaim(acts + more, r', e', g);
    GrantsGrow(Exec(acts), more, st);
  }

  lemma {:induction false} GrantsGrow(st: State, acts: seq<Action>, st': State)
    requires Follows(st, acts, st')
    ensures st.grants <= st'.grants && st.claimed <= st'.claimed
    decreases |acts|
  {
    if acts != [] { GrantsGrow(Step(st, acts[0]), acts[1..], st'); }
  }

  // ---------- The lease table of a run is a history of the registry

  /** The registry operation an action makes the store run. */
  function Operation(st: State, a: Action): (ops: seq<H.Op>)
    requires Enabled(st, a)
  {
    match a
    case Tick(ms) => [H.Tick(ms)]
    case Stray(op) => [op]
    case ClaimRun(r, s, ttl, fate) => if Asks(r, s) && fate.Applied() then [H.ClaimOp(s, r, ttl)] else []
    case RenewRun(r, e, ttl, fate) =>
      var l := Of(st, r).heap[e].lease;
      if fate.Applied() then [H.RenewOp(l.station, l.owner, l.generation, ttl)] else []
    case ReleaseRun(r, s, fate) =>
      var l := At(Of(st, r), s).lease;
      if fate.Applied() then [H.ReleaseOp(l.station, l.owner, l.generation)] else []
    case _ => []
  }

  function History(acts: seq<Action>): (ops: seq<H.Op>)
    requires Legal(acts)
  {
    if acts == [] then [] else History(acts[..|acts| - 1]) + Operation(Exec(acts[..|acts| - 1]), acts[|acts| - 1])
  }

  lemma {:induction false} AtPrefix(ops: seq<H.Op>, more: seq<H.Op>, i: nat)
    requires i <= |ops|
    ensures H.At(H.START, ops + more, i) == H.At(H.START, ops, i)
  {
    if i > 0 { AtPrefix(ops, more, i - 1); }
  }

  lemma StepIsOperation(st: State, a: Action)
    requires Enabled(st, a)
    ensures |Operation(st, a)| <= 1
    ensures H.Point(Step(st, a).now, Step(st, a).table) ==
      if Operation(st, a) == [] then H.Point(st.now, st.table)
      else H.Apply(H.Point(st.now, st.table), Operation(st, a)[0])
  {
  }

  /** So everything proved of registry histories holds of the table in every run of the protocol. */
  lemma {:induction false} RunIsHistory(acts: seq<Action>)
    requires Legal(acts)
    ensures H.At(H.START, History(acts), |History(acts)|) == H.Point(Exec(acts).now, Exec(acts).table)
  {
    if acts != [] {
      var n := |acts| - 1;
      RunIsHistory(acts[..n]);
      StepIsOperation(Exec(acts[..n]), acts[n]);
      AppendOperation(History(acts[..n]), Operation(Exec(acts[..n]), acts[n]));
    }
  }

  lemma AppendOperation(ops: seq<H.Op>, more: seq<H.Op>)
    requires |more| <= 1
    ensures H.At(H.START, ops + more, |ops + more|) ==
      if more == [] then H.At(H.START, ops, |ops|) else H.Apply(H.At(H.START, ops, |ops|), more[0])
  {
    AtPrefix(ops, more, |ops|);
    if more == [] { assert ops + more == ops; }
  }
}
