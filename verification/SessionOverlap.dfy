/**
 * Sessions told apart: the callbacks of one session are steps of their own,
 * even while another session of the same station is connected to the same
 * runtime.  They share the entry map, which knows stations only.
 */
module SessionOverlap {
  import opened Base
  import opened Leases
  import O = Ownership

  /** One connection of a station to a runtime, and where its callbacks stand. */
  datatype Session = Session(runtime: string, station: string, at: O.Callback)

  /** core holds what sessions share; won and released record which session was granted and which released a lease. */
  datatype State = State(
    core: O.State, sessions: map<nat, Session>, won: set<(nat, O.Stamp)>, released: set<(nat, O.Stamp)>)

  const INITIAL := State(O.INITIAL, map[], {}, {})

  /** What a session's callback does next. */
  datatype Deed = Claim(ttl: nat, fate: Fate) | Install | Take | Cancel | Read | Release(fate: Fate)

  datatype Action =
    | Connect(i: nat, r: string, s: string)
    | Do(i: nat, deed: Deed)
    | Else(o: O.Action)

  function ActionOf(x: Session, d: Deed): (a: O.Action) {
    match d
    case Claim(ttl, fate) => O.ClaimRun(x.runtime, x.station, ttl, fate)
    case Install => O.Install(x.runtime, x.station)
    case Take => O.TakeEntry(x.runtime, x.station)
    case Cancel => O.CancelEntry(x.runtime, x.station)
    case Read => O.ReadLease(x.runtime, x.station)
    case Release(fate) => O.ReleaseRun(x.runtime, x.station, fate)
  }

  /** The shared state as this session's callback sees it, with its own local variables. */
  function Seen(core: O.State, x: Session): (st: O.State) {
    O.With(core, x.runtime, O.Set(O.Of(core, x.runtime), x.station, x.at))
  }

  /** Steps that belong to no callback. */
  predicate NoCallback(o: O.Action) {
    o.Tick? || o.Stray? || o.LoopTick? || o.RenewRun? || o.LoopExit? || o.Crash?
  }

  predicate Enabled(st: State, a: Action) {
    match a
    case Connect(i, _, _) => i !in st.sessions
    case Do(i, d) => i in st.sessions && O.Enabled(Seen(st.core, st.sessions[i]), ActionOf(st.sessions[i], d))
    case Else(o) => NoCallback(o) && O.Enabled(st.core, o)
  }

  /** Session i, standing at x, takes one step of the ownership protocol. */
  function Act(st: State, i: nat, x: Session, a: O.Action): (st': State)
    requires O.Enabled(Seen(st.core, x), a)
  {
    var core := O.Step(Seen(st.core, x), a);
    var at := O.At(O.Of(core, x.runtime), x.station);
    State(core, st.sessions[i := x.(at := at)],
          st.won + (if a.ClaimRun? && at.Won? then {(i, O.StampOf(at.lease))} else {}),
          st.released + (if a.ReleaseRun? && x.at.Releasing? then {(i, O.StampOf(x.at.lease))} else {}))
  }

  function Gone(sessions: map<nat, Session>, r: string): (left: map<nat, Session>) {
    map i | i in sessions :: if sessions[i].runtime == r then sessions[i].(at := O.Down) else sessions[i]
  }

  function Next(st: State, a: Action): (st': State)
    requires Enabled(st, a)
  {
    match a
    case Connect(i, r, s) => Act(st, i, Session(r, s, O.Down), O.Connect(r, s))
    case Do(i, d) => Act(st, i, st.sessions[i], ActionOf(st.sessions[i], d))
    case Else(o) =>
      st.(core := O.Step(st.core, o), sessions := if o.Crash? then Gone(st.sessions, o.r) else st.sessions)
  }

  function Exec(acts: seq<Action>): (st: State)
    requires Legal(acts)
    decreases |acts|, 1
  {
    if acts == [] then INITIAL else Next(Exec(acts[..|acts| - 1]), acts[|acts| - 1])
  }

  predicate Legal(acts: seq<Action>)
    decreases |acts|, 0
  {
    acts == [] || (Legal(acts[..|acts| - 1]) && Enabled(Exec(acts[..|acts| - 1]), acts[|acts| - 1]))
  }

  /** Nobody released a lease but the session that was granted it. */
  predicate OnlyOwn(st: State) { st.released <= st.won }

  function Heap(st: State, r: string): (h: seq<O.Entry>) { O.Of(st.core, r).heap }

  function Map(st: State, r: string): (m: map<string, nat>) { O.Of(st.core, r).entries }

  // ---------- What each step does to the shared state and its session

  /** The entries of every runtime but r are as before. */
  ghost predicate ElsewhereSame(st: State, st': State, r: string) {
    forall r' | r' != r :: Heap(st', r') == Heap(st, r') && Map(st', r') == Map(st, r')
  }

  /** Session i moves to `at`; nothing shared changes but the heap and the map of its runtime. */
  ghost predicate Moves(st: State, st': State, i: nat, x: Session, at: O.Callback) {
    && st'.sessions == st.sessions[i := x.(at := at)] && ElsewhereSame(st, st', x.runtime)
    && st'.core.table.counter >= st.core.table.counter
  }

  lemma ConnectEffect(st: State, i: nat, r: string, s: string)
    requires i !in st.sessions
    ensures var st' := Next(st, Connect(i, r, s));
      && Moves(st, st', i, Session(r, s, O.Down), O.Claiming)
      && Heap(st', r) == Heap(st, r) && Map(st', r) == Map(st, r)
      && st'.won == st.won && st'.released == st.released && st'.core.table == st.core.table && st'.core.now == st.core.now
  {
  }

  /** Names the registry ever grants. */
  predicate Grantable(r: string, s: string) { O.Asks(r, s) && s != COUNTER_STATION }

  /** The claim does not reach the store, or meets a live lease there. */
  predicate ClaimFails(st: State, x: Session, fate: Fate) {
    fate.NotApplied? || (x.station != COUNTER_STATION && Live(st.core.table, st.core.now, x.station))
  }

  /** What the ownership protocol's claim step does, told without its callback map. */
  lemma ClaimStepEffect(core: O.State, r: string, s: string, ttl: nat, fate: Fate)
    requires O.At(O.Of(core, r), s).Claiming?
    ensures var core' := O.ClaimStep(core, r, s, ttl, fate);
      && var at := O.At(O.Of(core', r), s);
      && (at.Won? <==> fate.Acknowledged? && Grantable(r, s) && !Live(core.table, core.now, s)) && (at.Won? || at.Refused?)
      && (at.Won? ==>
        && at.lease.generation == core.table.counter + 1 == core'.table.counter
        && at.lease.owner == r && at.lease.station == s
        && (ttl > 0 ==> Holds(core'.table, core'.now, s, r, at.lease.generation)))
      && core'.table.counter >= core.table.counter && core'.now == core.now
      && (fate.NotApplied? || (s != COUNTER_STATION && Live(core.table, core.now, s)) ==> core'.table == core.table)
      && (forall r' | r' != r :: O.Of(core', r') == O.Of(core, r'))
      && O.Of(core', r).heap == O.Of(core, r).heap && O.Of(core', r).entries == O.Of(core, r).entries
  {
  }

  lemma ClaimEffect(st: State, i: nat, ttl: nat, fate: Fate)
    requires Enabled(st, Do(i, Claim(ttl, fate)))
    ensures var st', x := Next(st, Do(i, Claim(ttl, fate))), st.sessions[i];
      && var at := st'.sessions[i].at;
      && x.at.Claiming? && Moves(st, st', i, x, at) && Heap(st', x.runtime) == Heap(st, x.runtime)
      && Map(st', x.runtime) == Map(st, x.runtime) && st'.released == st.released
      && (if at.Won? then
            && at.lease.generation == st.core.table.counter + 1 == st'.core.table.counter
            && O.StampOf(at.lease) == O.Stamp(x.runtime, x.station, at.lease.generation)
            && (ttl > 0 ==> Holds(st'.core.table, st'.core.now, x.station, x.runtime, at.lease.generation))
            && st'.won == st.won + {(i, O.StampOf(at.lease))}
          else at.Refused? && st'.won == st.won)
      && st'.core.now == st.core.now && (ClaimFails(st, x, fate) ==> at.Refused? && st'.core.table == st.core.table)
      && (at.Won? <==> fate.Acknowledged? && Grantable(x.runtime, x.station) && !Live(st.core.table, st.core.now, x.station))
  {
    var x := st.sessions[i];
    ClaimStepEffect(Seen(st.core, x), x.runtime, x.station, ttl, fate);
  }

  lemma InstallEffect(st: State, i: nat)
    requires Enabled(st, Do(i, Install))
    ensures var st', x := Next(st, Do(i, Install)), st.sessions[i];
      && x.at.Won? && Moves(st, st', i, x, O.Up)
      && Heap(st', x.runtime) == Heap(st, x.runtime) + [O.Entry(x.at.lease, false, O.Waiting)]
      && Map(st', x.runtime) == Map(st, x.runtime)[x.station := |Heap(st, x.runtime)|]
      && st'.won == st.won && st'.released == st.released && st'.core.table == st.core.table && st'.core.now == st.core.now
  {
  }

  lemma TakeEffect(st: State, i: nat)
    requires Enabled(st, Do(i, Take))
    ensures var st', x := Next(st, Do(i, Take)), st.sessions[i];
      && (x.at.Up? || x.at.Refused?) && Heap(st', x.runtime) == Heap(st, x.runtime)
      && Moves(st, st', i, x,
        if x.station in Map(st, x.runtime) then O.Taken(Map(st, x.runtime)[x.station]) else O.Down)
      && Map(st', x.runtime) == Map(st, x.runtime) - {x.station}
      && st'.won == st.won && st'.released == st.released && st'.core.table == st.core.table && st'.core.now == st.core.now
  {
  }

  lemma CancelEffect(st: State, i: nat)
    requires Enabled(st, Do(i, Cancel))
    ensures var st', x := Next(st, Do(i, Cancel)), st.sessions[i];
      && x.at.Taken? && x.at.eid < |Heap(st, x.runtime)| && Moves(st, st', i, x, O.Cancelled(x.at.eid))
      && Heap(st', x.runtime) ==
         Heap(st, x.runtime)[x.at.eid := Heap(st, x.runtime)[x.at.eid].(cancelled := true)]
      && Map(st', x.runtime) == Map(st, x.runtime)
      && st'.won == st.won && st'.released == st.released && st'.core.table == st.core.table && st'.core.now == st.core.now
  {
  }

  lemma ReadEffect(st: State, i: nat)
    requires Enabled(st, Do(i, Read))
    ensures var st', x := Next(st, Do(i, Read)), st.sessions[i];
      && x.at.Cancelled? && x.at.eid < |Heap(st, x.runtime)|
      && Moves(st, st', i, x, O.Releasing(Heap(st, x.runtime)[x.at.eid].lease))
      && Heap(st', x.runtime) == Heap(st, x.runtime) && Map(st', x.runtime) == Map(st, x.runtime)
      && st'.won == st.won && st'.released == st.released && st'.core.table == st.core.table && st'.core.now == st.core.now
  {
  }

  lemma ReleaseEffect(st: State, i: nat, fate: Fate)
    requires Enabled(st, Do(i, Release(fate)))
    ensures var st', x := Next(st, Do(i, Release(fate))), st.sessions[i];
      && x.at.Releasing? && Moves(st, st', i, x, O.Down)
      && Heap(st', x.runtime) == Heap(st, x.runtime) && Map(st', x.runtime) == Map(st, x.runtime)
      && st'.won == st.won && st'.released == st.released + {(i, O.StampOf(x.at.lease))}
      && var l, t, now := x.at.lease, st.core.table, st.core.now;
      st'.core.table == (if fate.Applied() then Leases.Release(t, now, l.station, l.owner, l.generation).0 else t)
      && st'.core.now == now
  {
  }

  /** Renewal loops keep stamps; a crash loses the entries; nothing else touches them. */
  lemma ElseEffect(st: State, o: O.Action, r: string)
    requires Enabled(st, Else(o))
    ensures var st' := Next(st, Else(o));
      && st'.won == st.won && st'.released == st.released && st'.core.table.counter >= st.core.table.counter
      && (if o.Crash? && o.r == r then Heap(st', r) == [] && Map(st', r) == map[]
          else
            && Map(st', r) == Map(st, r) && |Heap(st', r)| == |Heap(st, r)|
            && forall e | 0 <= e < |Heap(st, r)| ::
              O.StampOf(Heap(st', r)[e].lease) == O.StampOf(Heap(st, r)[e].lease))
  {
    if o.RenewRun? {
      O.RenewEffect(st.core, o.r, o.eid, o.ttl, o.fate);
    }
  }

  // ---------- No overlap before the entry is taken out

  /** The session's disconnect callback has not yet looked for its entry. */
  predicate Present(at: O.Callback) { at.Claiming? || at.Won? || at.Up? || at.Refused? }

  predicate PresentAt(st: State, i: nat, r: string, s: string) {
    i in st.sessions && st.sessions[i].runtime == r && st.sessions[i].station == s && Present(st.sessions[i].at)
  }

  /** The lease a session's callbacks will release. */
  function Carries(st: State, x: Session): (l: Option<O.Stamp>) {
    var h, m := Heap(st, x.runtime), Map(st, x.runtime);
    match x.at
    case Won(l) => Some(O.StampOf(l))
    case Releasing(l) => Some(O.StampOf(l))
    case Up => if x.station in m && m[x.station] < |h| then Some(O.StampOf(h[m[x.station]].lease)) else None
    case Taken(e) => if e < |h| then Some(O.StampOf(h[e].lease)) else None
    case Cancelled(e) => if e < |h| then Some(O.StampOf(h[e].lease)) else None
    case _ => None
  }

  predicate SessionOk(st: State, i: nat)
    requires i in st.sessions
  {
    var x := st.sessions[i];
    && (x.at.Up? ==> x.station in Map(st, x.runtime) && Map(st, x.runtime)[x.station] < |Heap(st, x.runtime)|)
    && (x.at.Taken? || x.at.Cancelled? ==> x.at.eid < |Heap(st, x.runtime)|)
    && (Carries(st, x).Some? ==> (i, Carries(st, x).value) in st.won)
  }

  ghost predicate HasUp(st: State, r: string, s: string) {
    exists i :: i in st.sessions && st.sessions[i] == Session(r, s, O.Up)
  }

  ghost predicate Inv(st: State) {
    && (forall i | i in st.sessions :: SessionOk(st, i))
    && (forall i, j, r, s | PresentAt(st, i, r, s) && PresentAt(st, j, r, s) :: i == j)
    && (forall r, s | s in Map(st, r) :: HasUp(st, r, s))
    && (forall p | p in st.won :: p.0 in st.sessions && p.1.generation <= st.core.table.counter)
    && OnlyOwn(st)
  }

  /** A session may connect when no other one of its station is present in that runtime. */
  ghost predicate Polite(st: State, a: Action) {
    a.Connect? ==> forall i :: !PresentAt(st, i, a.r, a.s)
  }

  ghost predicate AlwaysPolite(acts: seq<Action>)
    requires Legal(acts)
  {
    acts == [] || (AlwaysPolite(acts[..|acts| - 1]) && Polite(Exec(acts[..|acts| - 1]), acts[|acts| - 1]))
  }

  ghost predicate HeapGrows(st: State, st': State, r: string) {
    && |Heap(st, r)| <= |Heap(st', r)|
    && forall e | 0 <= e < |Heap(st, r)| :: O.StampOf(Heap(st', r)[e].lease) == O.StampOf(Heap(st, r)[e].lease)
  }

  ghost predicate MapKept(st: State, st': State, r: string, s: string) {
    forall s' | s' != s ::
      && (s' in Map(st', r) <==> s' in Map(st, r)) && (s' in Map(st, r) ==> Map(st', r)[s'] == Map(st, r)[s'])
  }

  /** A step of session i that leaves the others what they carry. */
  lemma OneMoves(st: State, st': State, i: nat, x: Session, at: O.Callback)
    requires Inv(st) && Moves(st, st', i, x, at) && (i in st.sessions ==> st.sessions[i] == x)
    requires st.won <= st'.won && OnlyOwn(st') && HeapGrows(st, st', x.runtime)
    requires MapKept(st, st', x.runtime, x.station)
    requires Map(st', x.runtime) == Map(st, x.runtime) || PresentAt(st, i, x.runtime, x.station)
    requires SessionOk(st', i)
    requires Present(at) && !Present(x.at) ==> forall k :: !PresentAt(st, k, x.runtime, x.station)
    requires Present(x.at) ==> i in st.sessions
    requires x.station in Map(st', x.runtime) ==> HasUp(st', x.runtime, x.station)
    requires forall p | p in st'.won :: p.0 in st'.sessions && p.1.generation <= st'.core.table.counter
    ensures Inv(st')
  {
    forall k | k in st'.sessions && k != i ensures SessionOk(st', k) {
      OtherOk(st, st', i, x, at, k);
    }
    forall r, s | s in Map(st', r) && (r != x.runtime || s != x.station) ensures HasUp(st', r, s) {
      UpStays(st, st', i, x, at, r, s);
    }
    forall k, j, r, s | PresentAt(st', k, r, s) && PresentAt(st', j, r, s) ensures k == j {
      OnePresent(st, st', i, x, at, k, j, r, s);
    }
  }

  lemma UpStays(st: State, st': State, i: nat, x: Session, at: O.Callback, r: string, s: string)
    requires forall r, s | s in Map(st, r) :: HasUp(st, r, s)
    requires Moves(st, st', i, x, at) && (i in st.sessions ==> st.sessions[i] == x)
    requires MapKept(st, st', x.runtime, x.station) && s in Map(st', r) && (r != x.runtime || s != x.station)
    ensures HasUp(st', r, s)
  {
    assert s in Map(st, r);
    var k :| k in st.sessions && st.sessions[k] == Session(r, s, O.Up);
    assert st'.sessions[k] == st.sessions[k];
  }

  lemma OnePresent(st: State, st': State, i: nat, x: Session, at: O.Callback, k: nat, j: nat, r: string, s: string)
    requires forall k, j, r, s | PresentAt(st, k, r, s) && PresentAt(st, j, r, s) :: k == j
    requires st'.sessions == st.sessions[i := x.(at := at)] && (i in st.sessions ==> st.sessions[i] == x)
    requires Present(at) && !Present(x.at) ==> forall k :: !PresentAt(st, k, x.runtime, x.station)
    requires Present(x.at) ==> i in st.sessions
    requires PresentAt(st', k, r, s) && PresentAt(st', j, r, s)
    ensures k == j
  {
    assert k != i ==> PresentAt(st, k, r, s);
    assert j != i ==> PresentAt(st, j, r, s);
    assert Present(x.at) ==> PresentAt(st, i, x.runtime, x.station);
  }

  lemma OtherOk(st: State, st': State, i: nat, x: Session, at: O.Callback, k: nat)
    requires Inv(st) && Moves(st, st', i, x, at) && st.won <= st'.won && HeapGrows(st, st', x.runtime)
    requires MapKept(st, st', x.runtime, x.station)
    requires Map(st', x.runtime) == Map(st, x.runtime) || PresentAt(st, i, x.runtime, x.station)
    requires k in st.sessions && k != i
    ensures SessionOk(st', k)
  {
    var y := st.sessions[k];
    assert SessionOk(st, k) && st'.sessions[k] == y;
    if y.runtime != x.runtime {
      assert Heap(st', y.runtime) == Heap(st, y.runtime) && Map(st', y.runtime) == Map(st, y.runtime);
      assert Carries(st', y) == Carries(st, y);
    } else {
      assert y.at.Up? && y.station == x.station ==> PresentAt(st, k, x.runtime, x.station);
      assert y.at.Up? ==> Map(st', y.runtime)[y.station] == Map(st, y.runtime)[y.station];
      assert Carries(st', y) == Carries(st, y);
    }
  }

  lemma ConnectKeeps(st: State, i: nat, r: string, s: string)
    requires Inv(st) && i !in st.sessions && Polite(st, Connect(i, r, s))
    ensures Inv(Next(st, Connect(i, r, s)))
  {
    var st' := Next(st, Connect(i, r, s));
    ConnectEffect(st, i, r, s);
    if s in Map(st', r) {
      var k :| k in st.sessions && st.sessions[k] == Session(r, s, O.Up);
      assert PresentAt(st, k, r, s);
    }
    OneMoves(st, st', i, Session(r, s, O.Down), O.Claiming);
  }

  lemma ClaimKeeps(st: State, i: nat, ttl: nat, fate: Fate)
    requires Inv(st) && Enabled(st, Do(i, Claim(ttl, fate)))
    ensures Inv(Next(st, Do(i, Claim(ttl, fate))))
  {
    var st', x := Next(st, Do(i, Claim(ttl, fate))), st.sessions[i];
    ClaimEffect(st, i, ttl, fate);
    MapFreeOf(st, i);
    OneMoves(st, st', i, x, st'.sessions[i].at);
  }

  /** A present session that is not up has no entry in the map to find. */
  lemma MapFreeOf(st: State, i: nat)
    requires Inv(st) && i in st.sessions && Present(st.sessions[i].at) && !st.sessions[i].at.Up?
    ensures st.sessions[i].station !in Map(st, st.sessions[i].runtime)
  {
    var x := st.sessions[i];
    if x.station in Map(st, x.runtime) {
      var k :| k in st.sessions && st.sessions[k] == Session(x.runtime, x.station, O.Up);
      assert PresentAt(st, k, x.runtime, x.station) && PresentAt(st, i, x.runtime, x.station);
    }
  }

  lemma InstallKeeps(st: State, i: nat)
    requires Inv(st) && Enabled(st, Do(i, Install))
    ensures Inv(Next(st, Do(i, Install)))
  {
    var st', x := Next(st, Do(i, Install)), st.sessions[i];
    InstallEffect(st, i);
    assert SessionOk(st, i) && Carries(st, x) == Some(O.StampOf(x.at.lease));
    assert st'.sessions[i] == Session(x.runtime, x.station, O.Up);
    OneMoves(st, st', i, x, O.Up);
  }

  lemma TakeKeeps(st: State, i: nat)
    requires Inv(st) && Enabled(st, Do(i, Take))
    ensures Inv(Next(st, Do(i, Take)))
  {
    var st', x := Next(st, Do(i, Take)), st.sessions[i];
    TakeEffect(st, i);
    assert SessionOk(st, i);
    if x.at.Refused? { MapFreeOf(st, i); }
    assert PresentAt(st, i, x.runtime, x.station);
    OneMoves(st, st', i, x, st'.sessions[i].at);
  }

  /** Once its entry is taken out, a session only works on what it took: the map stays, and so do the others. */
  lemma Retiring(st: State, st': State, i: nat, x: Session, at: O.Callback)
    requires Inv(st) && i in st.sessions && st.sessions[i] == x && !Present(x.at) && !Present(at)
    requires Moves(st, st', i, x, at) && Map(st', x.runtime) == Map(st, x.runtime) && HeapGrows(st, st', x.runtime)
    requires st'.won == st.won && OnlyOwn(st') && SessionOk(st', i)
    ensures Inv(st')
  {
    if x.station in Map(st', x.runtime) {
      var k :| k in st.sessions && st.sessions[k] == Session(x.runtime, x.station, O.Up);
      assert st'.sessions[k] == st.sessions[k];
    }
    OneMoves(st, st', i, x, at);
  }

  lemma CancelKeeps(st: State, i: nat)
    requires Inv(st) && Enabled(st, Do(i, Cancel))
    ensures Inv(Next(st, Do(i, Cancel)))
  {
    CancelEffect(st, i);
    assert SessionOk(st, i);
    Retiring(st, Next(st, Do(i, Cancel)), i, st.sessions[i], O.Cancelled(st.sessions[i].at.eid));
  }

  lemma ReadKeeps(st: State, i: nat)
    requires Inv(st) && Enabled(st, Do(i, Read))
    ensures Inv(Next(st, Do(i, Read)))
  {
    var st' := Next(st, Do(i, Read));
    ReadEffect(st, i);
    assert SessionOk(st, i);
    Retiring(st, st', i, st.sessions[i], st'.sessions[i].at);
  }

  lemma ReleaseKeeps(st: State, i: nat, fate: Fate)
    requires Inv(st) && Enabled(st, Do(i, Release(fate)))
    ensures Inv(Next(st, Do(i, Release(fate))))
  {
    ReleaseEffect(st, i, fate);
    assert SessionOk(st, i);
    Retiring(st, Next(st, Do(i, Release(fate))), i, st.sessions[i], O.Down);
  }

  lemma ElseOk(st: State, o: O.Action, k: nat)
    requires Enabled(st, Else(o)) && k in st.sessions && SessionOk(st, k)
    ensures SessionOk(Next(st, Else(o)), k)
  {
    ElseEffect(st, o, st.sessions[k].runtime);
  }

  lemma ElseKeeps(st: State, o: O.Action)
    requires Inv(st) && Enabled(st, Else(o))
    ensures Inv(Next(st, Else(o)))
  {
    var st' := Next(st, Else(o));
    ElseEffect(st, o, "");
    forall k | k in st'.sessions ensures SessionOk(st', k) { ElseOk(st, o, k); }
    forall r, s | s in Map(st', r) ensures HasUp(st', r, s) {
      ElseEffect(st, o, r);
      var k :| k in st.sessions && st.sessions[k] == Session(r, s, O.Up);
      assert st'.sessions[k] == st.sessions[k];
    }
    forall i, j, r, s | PresentAt(st', i, r, s) && PresentAt(st', j, r, s) ensures i == j {
      assert PresentAt(st, i, r, s) && PresentAt(st, j, r, s);
    }
  }

  lemma StepKeeps(st: State, a: Action)
    requires Inv(st) && Enabled(st, a) && Polite(st, a)
    ensures Inv(Next(st, a))
  {
    match a
    case Connect(i, r, s) => ConnectKeeps(st, i, r, s);
    case Do(i, Claim(ttl, fate)) => ClaimKeeps(st, i, ttl, fate);
    case Do(i, Install) => InstallKeeps(st, i);
    case Do(i, Take) => TakeKeeps(st, i);
    case Do(i, Cancel) => CancelKeeps(st, i);
    case Do(i, Read) => ReadKeeps(st, i);
    case Do(i, Release(fate)) => ReleaseKeeps(st, i, fate);
    case Else(o) => ElseKeeps(st, o);
  }

  lemma {:induction false} PoliteInv(acts: seq<Action>)
    requires Legal(acts) && AlwaysPolite(acts)
    ensures Inv(Exec(acts))
  {
    if acts != [] {
      PoliteInv(acts[..|acts| - 1]);
      StepKeeps(Exec(acts[..|acts| - 1]), acts[|acts| - 1]);
    }
  }

  /** Where no session connects while another of its station is present, every release is the releasing session's own. */
  lemma PoliteRunsAreSafe(acts: seq<Action>)
    requires Legal(acts) && AlwaysPolite(acts)
    ensures OnlyOwn(Exec(acts))
  {
    PoliteInv(acts);
  }

  // ---------- And where one does, another session's lease can be released

  lemma Snoc(acts: seq<Action>, a: Action)
    requires Legal(acts) && Enabled(Exec(acts), a)
    ensures Legal(acts + [a]) && Exec(acts + [a]) == Next(Exec(acts), a)
  {
    assert (acts + [a])[..|acts|] == acts;
  }

  /** all goes on from acts without any further session. */
  predicate Extends(acts: seq<Action>, all: seq<Action>) {
    acts <= all && forall k | |acts| <= k < |all| :: !all[k].Connect?
  }

  /** Session k works on entry e, whose loop is out of Renew. */
  predicate CanRetire(st: State, k: nat, e: nat) {
    && k in st.sessions && e < |Heap(st, st.sessions[k].runtime)|
    && !Heap(st, st.sessions[k].runtime)[e].loop.Locked?
  }

  /** From st to st' session k released lease x, which no other session's callbacks noticed. */
  ghost predicate Released(st: State, st': State, k: nat, x: O.Stamp) {
    && (k, x) in st'.released && st'.won == st.won && st'.core.now == st.core.now
    && st'.core.table == Leases.Release(st.core.table, st.core.now, x.station, x.owner, x.generation).0
    && forall i | i in st.sessions && i != k :: i in st'.sessions && st'.sessions[i] == st.sessions[i]
  }

  /** Only session k moved, and neither the store nor the grants changed. */
  ghost predicate OnlyMoved(st: State, st': State, k: nat) {
    && st'.won == st.won && st'.core.now == st.core.now && st'.core.table == st.core.table
    && forall i | i in st.sessions && i != k :: i in st'.sessions && st'.sessions[i] == st.sessions[i]
  }

  lemma Releases(acts: seq<Action>, k: nat) returns (all: seq<Action>)
    requires Legal(acts) && k in Exec(acts).sessions && Exec(acts).sessions[k].at.Releasing?
    ensures Extends(acts, all) && Legal(all)
    ensures Released(Exec(acts), Exec(all), k, O.StampOf(Exec(acts).sessions[k].at.lease))
  {
    ReleasedBy(Exec(acts), k);
    Snoc(acts, Do(k, Release(Acknowledged)));
    all := acts + [Do(k, Release(Acknowledged))];
  }

  lemma ReleasedBy(st: State, k: nat)
    requires k in st.sessions && st.sessions[k].at.Releasing?
    ensures Enabled(st, Do(k, Release(Acknowledged)))
    ensures Released(st, Next(st, Do(k, Release(Acknowledged))), k, O.StampOf(st.sessions[k].at.lease))
  {
    ReleaseEffect(st, k, Acknowledged);
  }

  lemma Reads(acts: seq<Action>, k: nat, e: nat) returns (all: seq<Action>)
    requires Legal(acts) && CanRetire(Exec(acts), k, e) && Exec(acts).sessions[k].at == O.Cancelled(e)
    ensures Extends(acts, all) && Legal(all) && OnlyMoved(Exec(acts), Exec(all), k)
    ensures k in Exec(all).sessions
    ensures Exec(all).sessions[k].at == O.Releasing(Heap(Exec(acts), Exec(acts).sessions[k].runtime)[e].lease)
  {
    Snoc(acts, Do(k, Read));
    ReadEffect(Exec(acts), k);
    all := acts + [Do(k, Read)];
  }

  lemma Cancels(acts: seq<Action>, k: nat, e: nat) returns (all: seq<Action>)
    requires Legal(acts) && CanRetire(Exec(acts), k, e) && Exec(acts).sessions[k].at == O.Taken(e)
    ensures Extends(acts, all) && Legal(all) && OnlyMoved(Exec(acts), Exec(all), k) && CanRetire(Exec(all), k, e)
    ensures Exec(all).sessions[k] == Exec(acts).sessions[k].(at := O.Cancelled(e))
    ensures var r := Exec(acts).sessions[k].runtime;
      O.StampOf(Heap(Exec(all), r)[e].lease) == O.StampOf(Heap(Exec(acts), r)[e].lease)
  {
    CancelledBy(Exec(acts), k, e);
    Snoc(acts, Do(k, Cancel));
    all := acts + [Do(k, Cancel)];
  }

  lemma CancelledBy(st: State, k: nat, e: nat)
    requires CanRetire(st, k, e) && st.sessions[k].at == O.Taken(e)
    ensures Enabled(st, Do(k, Cancel))
    ensures var st', r := Next(st, Do(k, Cancel)), st.sessions[k].runtime;
      && OnlyMoved(st, st', k) && CanRetire(st', k, e) && st'.sessions[k] == st.sessions[k].(at := O.Cancelled(e))
      && O.StampOf(Heap(st', r)[e].lease) == O.StampOf(Heap(st, r)[e].lease)
  {
    CancelEffect(st, k);
  }

  lemma Takes(acts: seq<Action>, k: nat, e: nat) returns (all: seq<Action>)
    requires Legal(acts) && CanRetire(Exec(acts), k, e)
    requires var st := Exec(acts); var x := st.sessions[k];
      (x.at.Up? || x.at.Refused?) && x.station in Map(st, x.runtime) && Map(st, x.runtime)[x.station] == e
    ensures Extends(acts, all) && Legal(all) && OnlyMoved(Exec(acts), Exec(all), k) && CanRetire(Exec(all), k, e)
    ensures Exec(all).sessions[k] == Exec(acts).sessions[k].(at := O.Taken(e)) && |all| > |acts|
    ensures var r := Exec(acts).sessions[k].runtime; Heap(Exec(all), r) == Heap(Exec(acts), r)
  {
    Snoc(acts, Do(k, Take));
    TakeEffect(Exec(acts), k);
    all := acts + [Do(k, Take)];
  }

  /** A session takes out whatever entry its station has in the map, and releases that lease. */
  lemma Grabs(acts: seq<Action>, k: nat, e: nat) returns (all: seq<Action>)
    requires Legal(acts) && CanRetire(Exec(acts), k, e)
    requires var st := Exec(acts); var x := st.sessions[k];
      (x.at.Up? || x.at.Refused?) && x.station in Map(st, x.runtime) && Map(st, x.runtime)[x.station] == e
    ensures Extends(acts, all) && Legal(all) && |all| > |acts|
    ensures Released(Exec(acts), Exec(all), k, O.StampOf(Heap(Exec(acts), Exec(acts).sessions[k].runtime)[e].lease))
  {
    var taken := Takes(acts, k, e);
    var cancelled := Cancels(taken, k, e);
    var read := Reads(cancelled, k, e);
    all := Releases(read, k);
  }

  /** A renewal in flight comes back without an answer, and its loop ends. */
  lemma LoopLeaves(acts: seq<Action>, k: nat, e: nat) returns (all: seq<Action>)
    requires Legal(acts) && k in Exec(acts).sessions && e < |Heap(Exec(acts), Exec(acts).sessions[k].runtime)|
    ensures Extends(acts, all) && Legal(all) && CanRetire(Exec(all), k, e)
    ensures var st, st', r := Exec(acts), Exec(all), Exec(acts).sessions[k].runtime;
      && st'.sessions == st.sessions && st'.won == st.won && st'.released == st.released
      && st'.core.table == st.core.table && st'.core.now == st.core.now && Map(st', r) == Map(st, r)
      && O.StampOf(Heap(st', r)[e].lease) == O.StampOf(Heap(st, r)[e].lease)
  {
    var st, r := Exec(acts), Exec(acts).sessions[k].runtime;
    if Heap(st, r)[e].loop.Locked? {
      var o := O.RenewRun(r, e, 0, NotApplied);
      Snoc(acts, Else(o));
      ElseEffect(st, o, r);
      all := acts + [Else(o)];
    } else {
      all := acts;
    }
  }

  /** Session i is up with its entry in the map. */
  predicate UpWith(st: State, i: nat, r: string, s: string, e: nat) {
    && i in st.sessions && st.sessions[i] == Session(r, s, O.Up)
    && s in Map(st, r) && Map(st, r)[s] == e && e < |Heap(st, r)|
  }

  /**
   * A second session of a station that is refused, by a conflict or because the
   * store was not reached, releases on its way out the lease of the session
   * that is up, which stays up without it.
   */
  lemma RefusedSessionReleases(acts: seq<Action>, i: nat, j: nat, e: nat, ttl: nat, fate: Fate) returns (all: seq<Action>)
    requires Legal(acts) && j in Exec(acts).sessions && i != j
    requires var st := Exec(acts); var x := st.sessions[j];
      x.at.Claiming? && UpWith(st, i, x.runtime, x.station, e) && ClaimFails(st, x, fate)
    ensures Extends(acts + [Do(j, Claim(ttl, fate))], all) && Legal(all) && |all| > |acts| + 1
    ensures Legal(acts + [Do(j, Claim(ttl, fate))]) && Exec(acts + [Do(j, Claim(ttl, fate))]).sessions[j].at.Refused?
    ensures Released(Exec(acts), Exec(all), j, O.StampOf(Heap(Exec(acts), Exec(acts).sessions[j].runtime)[e].lease))
    ensures i in Exec(all).sessions && Exec(all).sessions[i].at.Up?
  {
    IsRefused(acts, j, ttl, fate);
    var refused := acts + [Do(j, Claim(ttl, fate))];
    var out := LoopLeaves(refused, j, e);
    all := Grabs(out, j, e);
    ExtendsOn(refused, out, all);
  }

  lemma ExtendsOn(a: seq<Action>, b: seq<Action>, c: seq<Action>)
    requires Extends(a, b) && Extends(b, c)
    ensures Extends(a, c)
  {
  }

  lemma IsRefused(acts: seq<Action>, j: nat, ttl: nat, fate: Fate)
    requires Legal(acts) && j in Exec(acts).sessions && Exec(acts).sessions[j].at.Claiming?
    requires ClaimFails(Exec(acts), Exec(acts).sessions[j], fate)
    ensures var all, r := acts + [Do(j, Claim(ttl, fate))], Exec(acts).sessions[j].runtime;
      && Legal(all) && OnlyMoved(Exec(acts), Exec(all), j)
      && j in Exec(all).sessions && Exec(all).sessions[j] == Exec(acts).sessions[j].(at := O.Refused)
      && Heap(Exec(all), r) == Heap(Exec(acts), r) && Map(Exec(all), r) == Map(Exec(acts), r)
  {
    Snoc(acts, Do(j, Claim(ttl, fate)));
    ClaimEffect(Exec(acts), j, ttl, fate);
  }

  /** Session 1 is up with generation 1, and session 2 of the same station has just connected. */
  predicate Overlapping(st: State, r: string, s: string) {
    && UpWith(st, 1, r, s, 0) && O.StampOf(Heap(st, r)[0].lease) == O.Stamp(r, s, 1)
    && 2 in st.sessions && st.sessions[2] == Session(r, s, O.Claiming) && Holds(st.core.table, st.core.now, s, r, 1)
  }

  /** Session 1 has been granted generation 1. */
  lemma FirstSessionWins(r: string, s: string, ttl: nat) returns (acts: seq<Action>)
    requires Grantable(r, s) && ttl > 0
    ensures Legal(acts) && |acts| == 2
    ensures var st := Exec(acts);
      && st.sessions.Keys == {1} && st.sessions[1].runtime == r && st.sessions[1].station == s && st.sessions[1].at.Won?
      && O.StampOf(st.sessions[1].at.lease) == O.Stamp(r, s, 1) && Heap(st, r) == []
      && Holds(st.core.table, st.core.now, s, r, 1)
  {
    Snoc([], Connect(1, r, s));
    ConnectEffect(INITIAL, 1, r, s);
    acts := [] + [Connect(1, r, s)];
    Snoc(acts, Do(1, Claim(ttl, Acknowledged)));
    ClaimEffect(Exec(acts), 1, ttl, Acknowledged);
    acts := acts + [Do(1, Claim(ttl, Acknowledged))];
  }

  /** And has its entry in the map. */
  lemma FirstSessionUp(r: string, s: string, ttl: nat) returns (acts: seq<Action>)
    requires Grantable(r, s) && ttl > 0
    ensures Legal(acts) && |acts| == 3
    ensures var st := Exec(acts);
      && st.sessions.Keys == {1} && UpWith(st, 1, r, s, 0) && O.StampOf(Heap(st, r)[0].lease) == O.Stamp(r, s, 1)
      && Holds(st.core.table, st.core.now, s, r, 1)
  {
    acts := FirstSessionWins(r, s, ttl);
    Snoc(acts, Do(1, Install));
    InstallEffect(Exec(acts), 1);
    acts := acts + [Do(1, Install)];
  }

  lemma SecondSessionConnects(r: string, s: string, ttl: nat) returns (acts: seq<Action>)
    requires Grantable(r, s) && ttl > 0
    ensures Legal(acts) && |acts| == 4 && Overlapping(Exec(acts), r, s)
  {
    acts := FirstSessionUp(r, s, ttl);
    Snoc(acts, Connect(2, r, s));
    ConnectEffect(Exec(acts), 2, r, s);
    acts := acts + [Connect(2, r, s)];
  }

  /** Session 2 has been refused. */
  predicate SecondRefused(st: State, r: string, s: string) { 2 in st.sessions && st.sessions[2] == Session(r, s, O.Refused) }

  /** Session 1 is up, session 2 released generation 1, and the station has no lease. */
  predicate FirstRobbed(st: State, r: string, s: string) {
    && 1 in st.sessions && st.sessions[1] == Session(r, s, O.Up) && (2, O.Stamp(r, s, 1)) in st.released
    && !Live(st.core.table, st.core.now, s)
  }

  /**
   * A run in which session 2 connects while session 1 is up with a live lease,
   * is refused with a conflict and disconnects, and session 1 is left up without
   * its lease.
   */
  lemma SecondSessionEndsTheFirst(r: string, s: string, ttl: nat) returns (all: seq<Action>)
    requires Grantable(r, s) && ttl > 0
    ensures Legal(all) && FirstRobbed(Exec(all), r, s)
    ensures |all| > 5 && Legal(all[..4]) && Legal(all[..5])
    ensures Overlapping(Exec(all[..4]), r, s) && SecondRefused(Exec(all[..5]), r, s)
    ensures all[4] == Do(2, Claim(ttl, Acknowledged))
  {
    var acts := SecondSessionConnects(r, s, ttl);
    var claim := Do(2, Claim(ttl, Acknowledged));
    IsRefused(acts, 2, ttl, Acknowledged);
    all := RefusedSessionReleases(acts, 1, 2, 0, ttl, Acknowledged);
    assert all[..4] == acts && all[..5] == acts + [claim];
  }

  /** A session on its way in gets there: time passes until the station is free, and its claim is granted. */
  lemma ClaimGranted(acts: seq<Action>, i: nat) returns (all: seq<Action>)
    requires Legal(acts) && i in Exec(acts).sessions && Exec(acts).sessions[i].at.Claiming?
    requires Grantable(Exec(acts).sessions[i].runtime, Exec(acts).sessions[i].station)
    ensures Extends(acts, all) && Legal(all)
    ensures var st, st' := Exec(acts), Exec(all);
      && i in st'.sessions && st'.sessions[i].at.Won? && st'.sessions[i] == st.sessions[i].(at := st'.sessions[i].at)
      && st'.sessions[i].at.lease.generation > st.core.table.counter
      && st'.won == st.won + {(i, O.StampOf(st'.sessions[i].at.lease))}
      && forall k | k in st.sessions && k != i :: k in st'.sessions && st'.sessions[k] == st.sessions[k]
  {
    var st := Exec(acts);
    var tick := Else(O.Tick(Wait(st, st.sessions[i].station)));
    TimeFrees(st, st.sessions[i].station);
    Snoc(acts, tick);
    FreeIsGranted(Exec(acts + [tick]), i);
    Snoc(acts + [tick], Do(i, Claim(0, Acknowledged)));
    all := acts + [tick] + [Do(i, Claim(0, Acknowledged))];
  }

  lemma FreeIsGranted(st: State, i: nat)
    requires i in st.sessions && st.sessions[i].at.Claiming? && Grantable(st.sessions[i].runtime, st.sessions[i].station)
    requires !Live(st.core.table, st.core.now, st.sessions[i].station)
    ensures Enabled(st, Do(i, Claim(0, Acknowledged)))
    ensures var st' := Next(st, Do(i, Claim(0, Acknowledged)));
      && i in st'.sessions && st'.sessions[i].at.Won? && st'.sessions == st.sessions[i := st'.sessions[i]]
      && st'.sessions[i] == st.sessions[i].(at := st'.sessions[i].at)
      && st'.sessions[i].at.lease.generation > st.core.table.counter
      && st'.won == st.won + {(i, O.StampOf(st'.sessions[i].at.lease))}
  {
    ClaimEffect(st, i, 0, Acknowledged);
  }

  function Wait(st: State, s: string): (ms: nat) {
    if s in st.core.table.cells then st.core.table.cells[s].deadline else 0
  }

  lemma TimeFrees(st: State, s: string)
    ensures var st' := Next(st, Else(O.Tick(Wait(st, s))));
      && st'.sessions == st.sessions && st'.won == st.won && st'.core.table == st.core.table
      && !Live(st'.core.table, st'.core.now, s)
  {
  }

  lemma Installs(acts: seq<Action>, i: nat) returns (all: seq<Action>)
    requires Legal(acts) && i in Exec(acts).sessions && Exec(acts).sessions[i].at.Won?
    ensures Extends(acts, all) && Legal(all)
    ensures var st, st' := Exec(acts), Exec(all);
      && var x := st.sessions[i];
      && var e := |Heap(st, x.runtime)|;
      && st'.won == st.won && UpWith(st', i, x.runtime, x.station, e) && !Heap(st', x.runtime)[e].loop.Locked?
      && O.StampOf(Heap(st', x.runtime)[e].lease) == O.StampOf(x.at.lease)
      && forall k | k in st.sessions && k != i :: k in st'.sessions && st'.sessions[k] == st.sessions[k]
  {
    Snoc(acts, Do(i, Install));
    InstallEffect(Exec(acts), i);
    all := acts + [Do(i, Install)];
  }

  /** With a session of the station up, the newcomer's release is not its own. */
  lemma NewcomerHarmsUp(acts: seq<Action>, i: nat, j: nat, e: nat) returns (all: seq<Action>)
    requires Legal(acts) && j in Exec(acts).sessions && i != j
    requires var st := Exec(acts); var x := st.sessions[j];
      x.at.Claiming? && UpWith(st, i, x.runtime, x.station, e) && forall p | p in st.won :: p.0 != j
    ensures Extends(acts, all) && Legal(all) && !OnlyOwn(Exec(all))
  {
    all := RefusedSessionReleases(acts, i, j, e, 0, NotApplied);
    ExtendsOn(acts, acts + [Do(j, Claim(0, NotApplied))], all);
    assert exists p :: p in Exec(all).released && p.0 == j;
  }

  /** Whatever point the session before it has reached, a newcomer of the same station can make one harm the other. */
  lemma NewcomerHarms(acts: seq<Action>, i: nat, j: nat) returns (all: seq<Action>)
    requires Legal(acts) && i != j && j in Exec(acts).sessions && forall p | p in Exec(acts).won :: p.0 != j
    requires forall p | p in Exec(acts).won :: p.1.generation <= Exec(acts).core.table.counter
    requires var st := Exec(acts); var x := st.sessions[j];
      x.at.Claiming? && Grantable(x.runtime, x.station) && PresentAt(st, i, x.runtime, x.station)
      && (st.sessions[i].at.Up? ==> SessionOk(st, i))
    ensures Extends(acts, all) && Legal(all) && !OnlyOwn(Exec(all))
  {
    var st := Exec(acts);
    match st.sessions[i].at
    case Claiming =>
      var granted := ClaimGranted(acts, i);
      var up := Installs(granted, i);
      all := NewcomerHarmsUp(up, i, j, |Heap(Exec(granted), st.sessions[i].runtime)|);
    case Won(_) =>
      var up := Installs(acts, i);
      all := NewcomerHarmsUp(up, i, j, |Heap(st, st.sessions[i].runtime)|);
    case Up => all := NewcomerHarmsUp(acts, i, j, Map(st, st.sessions[i].runtime)[st.sessions[i].station]);
    case Refused => all := RefusedHarmsNewcomer(acts, i, j);
  }

  /** The session that was refused finds the newcomer's entry on its way out. */
  lemma RefusedHarmsNewcomer(acts: seq<Action>, i: nat, j: nat) returns (all: seq<Action>)
    requires Legal(acts) && i != j && j in Exec(acts).sessions && i in Exec(acts).sessions
    requires forall p | p in Exec(acts).won :: p.1.generation <= Exec(acts).core.table.counter
    requires var st := Exec(acts); var x := st.sessions[j];
      x.at.Claiming? && Grantable(x.runtime, x.station) && st.sessions[i] == Session(x.runtime, x.station, O.Refused)
    ensures Extends(acts, all) && Legal(all) && !OnlyOwn(Exec(all))
  {
    var granted := ClaimGranted(acts, j);
    var up := Installs(granted, j);
    var e := |Heap(Exec(granted), Exec(acts).sessions[j].runtime)|;
    all := Grabs(up, i, e);
    var x := O.StampOf(Exec(granted).sessions[j].at.lease);
    assert (i, x) in Exec(all).released && (i, x) !in Exec(all).won;
  }

  lemma {:induction false} StillPolite(acts: seq<Action>, all: seq<Action>)
    requires Legal(acts) && AlwaysPolite(acts) && Legal(all) && Extends(acts, all)
    ensures AlwaysPolite(all)
    decreases |all|
  {
    if acts == all {
    } else {
      var n := |all| - 1;
      assert acts <= all[..n] && Extends(acts, all[..n]);
      StillPolite(acts, all[..n]);
    }
  }

  /**
   * The exact condition: in a runtime whose sessions so far never overlapped, a
   * newcomer can lead to somebody else's lease being released if and only if
   * another session of its station is present, that is, before its disconnect
   * callback takes out the entry.
   */
  lemma GuardIsExact(acts: seq<Action>, j: nat, r: string, s: string)
    requires Legal(acts) && AlwaysPolite(acts) && j !in Exec(acts).sessions && Grantable(r, s)
    ensures (exists all :: Extends(acts + [Connect(j, r, s)], all) && Legal(all) && !OnlyOwn(Exec(all))) <==>
      exists i :: PresentAt(Exec(acts), i, r, s)
  {
    var st, joined := Exec(acts), acts + [Connect(j, r, s)];
    PoliteInv(acts);
    Snoc(acts, Connect(j, r, s));
    ConnectEffect(st, j, r, s);
    if i :| PresentAt(st, i, r, s) {
      assert SessionOk(st, i);
      var all := NewcomerHarms(joined, i, j);
    } else {
      assert joined[..|acts|] == acts;
      forall all | Extends(joined, all) && Legal(all) ensures OnlyOwn(Exec(all)) {
        StillPolite(joined, all);
        PoliteRunsAreSafe(all);
      }
    }
  }

  // ---------- One session at a time is the ownership protocol

  predicate Active(st: State, i: nat, r: string, s: string) {
    i in st.sessions && st.sessions[i].runtime == r && st.sessions[i].station == s && !st.sessions[i].at.Down?
  }

  /** A session connects only after every earlier one of its station in that runtime has ended. */
  ghost predicate Alternates(acts: seq<Action>)
    requires Legal(acts)
  {
    acts == [] ||
    var n := |acts| - 1;
    Alternates(acts[..n]) && (acts[n].Connect? ==> forall i :: !Active(Exec(acts[..n]), i, acts[n].r, acts[n].s))
  }

  ghost predicate SomeActive(st: State, r: string, s: string) { exists i :: Active(st, i, r, s) }

  /** The one active session of a station stands where the shared callback map says. */
  ghost predicate InStep(st: State) {
    && (forall i, r, s | Active(st, i, r, s) :: O.At(O.Of(st.core, r), s) == st.sessions[i].at)
    && (forall r, s | !O.At(O.Of(st.core, r), s).Down? :: SomeActive(st, r, s))
    && (forall i, j, r, s | Active(st, i, r, s) && Active(st, j, r, s) :: i == j)
  }

  lemma SeenSame(core: O.State, x: Session)
    requires O.At(O.Of(core, x.runtime), x.station) == x.at && !x.at.Down?
    ensures Seen(core, x) == core
  {
    var m := O.Of(core, x.runtime);
    assert m.callbacks[x.station := x.at] == m.callbacks;
    assert core.managers[x.runtime := m] == core.managers;
  }

  lemma ConnectSame(core: O.State, r: string, s: string)
    requires O.At(O.Of(core, r), s).Down?
    ensures O.Step(Seen(core, Session(r, s, O.Down)), O.Connect(r, s)) == O.Step(core, O.Connect(r, s))
  {
    var m := O.Of(core, r);
    assert m.callbacks[s := O.Down][s := O.Claiming] == m.callbacks[s := O.Claiming];
    var joined := O.Set(m, s, O.Claiming);
    assert core.managers[r := O.Set(m, s, O.Down)][r := joined] == core.managers[r := joined];
  }

  /** A step of one station's callbacks leaves the other callbacks where they are. */
  lemma OthersStay(core: O.State, a: O.Action, r: string, s: string)
    requires O.Enabled(core, a) && (a.Connect? || a.ClaimRun? || a.Install? || a.TakeEntry? || a.CancelEntry?
                                    || a.ReadLease? || a.ReleaseRun?)
    requires r != a.r || s != a.s
    ensures O.At(O.Of(O.Step(core, a), r), s) == O.At(O.Of(core, r), s)
  {
  }

  lemma ElseStays(core: O.State, o: O.Action, r: string, s: string)
    requires O.Enabled(core, o) && NoCallback(o)
    ensures O.At(O.Of(O.Step(core, o), r), s) == if o.Crash? && o.r == r then O.Down else O.At(O.Of(core, r), s)
  {
  }

  /** Session i takes the step a of the protocol on its own station; no other session of the station is active. */
  lemma ActInStep(st: State, st': State, i: nat, x: Session, a: O.Action)
    requires InStep(st) && O.Enabled(st.core, a) && st'.core == O.Step(st.core, a)
    requires (a.Connect? || a.ClaimRun? || a.Install? || a.TakeEntry? || a.CancelEntry? || a.ReadLease? || a.ReleaseRun?)
             && a.r == x.runtime && a.s == x.station
    requires st'.sessions == st.sessions[i := x.(at := O.At(O.Of(st'.core, x.runtime), x.station))]
    requires forall k | Active(st, k, x.runtime, x.station) :: k == i
    requires i in st.sessions ==> st.sessions[i].runtime == x.runtime && st.sessions[i].station == x.station
    ensures InStep(st')
  {
    forall k, r, s | Active(st', k, r, s) ensures O.At(O.Of(st'.core, r), s) == st'.sessions[k].at {
      if k != i {
        assert Active(st, k, r, s);
        OthersStay(st.core, a, r, s);
      }
    }
    forall r, s | !O.At(O.Of(st'.core, r), s).Down? ensures SomeActive(st', r, s) {
      if r == x.runtime && s == x.station {
        assert Active(st', i, r, s);
      } else {
        OthersStay(st.core, a, r, s);
        var k :| Active(st, k, r, s);
        assert Active(st', k, r, s);
      }
    }
    forall k, j, r, s | Active(st', k, r, s) && Active(st', j, r, s) ensures k == j {
      assert k != i ==> Active(st, k, r, s);
      assert j != i ==> Active(st, j, r, s);
    }
  }

  lemma ElseInStep(st: State, o: O.Action)
    requires InStep(st) && Enabled(st, Else(o))
    ensures InStep(Next(st, Else(o)))
  {
    var st' := Next(st, Else(o));
    forall k, r, s | Active(st', k, r, s) ensures Active(st, k, r, s) && O.At(O.Of(st'.core, r), s) == st'.sessions[k].at {
      ElseStays(st.core, o, r, s);
    }
    forall r, s | !O.At(O.Of(st'.core, r), s).Down? ensures SomeActive(st', r, s) {
      ElseStays(st.core, o, r, s);
      var k :| Active(st, k, r, s);
      assert Active(st', k, r, s);
    }
  }

  /** The ownership step a step of alternating sessions is. */
  lemma StepInStep(st: State, a: Action) returns (o: O.Action)
    requires InStep(st) && Enabled(st, a) && (a.Connect? ==> forall i :: !Active(st, i, a.r, a.s))
    ensures InStep(Next(st, a)) && O.Enabled(st.core, o) && Next(st, a).core == O.Step(st.core, o)
  {
    match a
    case Connect(i, r, s) =>
      o := O.Connect(r, s);
      assert O.At(O.Of(st.core, r), s).Down?;
      ConnectSame(st.core, r, s);
      ActInStep(st, Next(st, a), i, Session(r, s, O.Down), o);
    case Do(i, d) =>
      var x := st.sessions[i];
      o := ActionOf(x, d);
      assert Active(st, i, x.runtime, x.station);
      SeenSame(st.core, x);
      ActInStep(st, Next(st, a), i, x, o);
    case Else(e) =>
      o := e;
      ElseInStep(st, e);
  }

  /** Every run of alternating sessions is a run of the ownership protocol, with the same store, entries and history. */
  lemma {:induction false} AlternatingRunIsOwnership(acts: seq<Action>) returns (owns: seq<O.Action>)
    requires Legal(acts) && Alternates(acts)
    ensures O.Legal(owns) && O.Exec(owns) == Exec(acts).core && InStep(Exec(acts))
  {
    owns := [];
    if acts != [] {
      var n := |acts| - 1;
      owns := AlternatingRunIsOwnership(acts[..n]);
      var o := StepInStep(Exec(acts[..n]), acts[n]);
      O.Snoc(owns, o);
      owns := owns + [o];
    }
  }
}
