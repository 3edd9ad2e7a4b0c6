/**
 * The life of a session in the ownership protocol: it connects to a free
 * station, its loop keeps the lease for as long as its ticks come in time, and
 * its disconnect frees the station.
 */
module SessionLife {
  import opened Base
  import opened Leases
  import opened Ownership

  // ---------- Renewals

  /** Entry e of r waits for its next tick and its lease is held. */
  predicate Alive(st: State, r: string, e: nat) {
    && e < |Of(st, r).heap| && Of(st, r).heap[e].loop.Waiting?
    && var l := Of(st, r).heap[e].lease; Holds(st.table, st.now, l.station, l.owner, l.generation)
  }

  /** Entry e has its lease until the given time, under the stamp it always had. */
  predicate HeldUntil(st: State, r: string, e: nat, x: Stamp, deadline: nat) {
    && Alive(st, r, e) && StampOf(Of(st, r).heap[e].lease) == x && st.table.cells[x.station].deadline == deadline
  }

  /** One confirmed renewal of a held lease: ttl from now, the same stamp, and the loop goes on. */
  lemma TickRenews(st: State, r: string, e: nat, ttl: nat)
    requires Alive(st, r, e) && ttl > 0
    ensures Enabled(st, LoopTick(r, e))
    ensures Enabled(Step(st, LoopTick(r, e)), RenewRun(r, e, ttl, Acknowledged))
    ensures var st' := Step(Step(st, LoopTick(r, e)), RenewRun(r, e, ttl, Acknowledged));
      && var x := StampOf(Of(st, r).heap[e].lease);
      && st'.now == st.now && HeldUntil(st', r, e, x, st.now + ttl)
      && Of(st', r).heap[e].lease.expiresAt == (st.now + ttl) * NANOS_PER_MS
      && OthersSame(st, st', r, e)
  {
  }

  /** Nothing but entry e of r changed in the managers. */
  ghost predicate OthersSame(st: State, st': State, r: string, e: nat) {
    && (forall r' | r' != r :: Of(st', r') == Of(st, r'))
    && Of(st', r).entries == Of(st, r).entries && Of(st', r).callbacks == Of(st, r).callbacks
    && |Of(st', r).heap| == |Of(st, r).heap|
    && forall i | 0 <= i < |Of(st, r).heap| && i != e :: Of(st', r).heap[i] == Of(st, r).heap[i]
  }

  /** A confirmed tick after each of the gaps. */
  function Ticks(r: string, e: nat, ttl: nat, gaps: seq<nat>): (acts: seq<Action>) {
    if gaps == [] then []
    else [Tick(gaps[0]), LoopTick(r, e), RenewRun(r, e, ttl, Acknowledged)] + Ticks(r, e, ttl, gaps[1..])
  }

  /**
   * A waiting entry whose lease runs until deadline: ticks that each come before
   * the lease runs out keep it, however many, with the stamp unchanged and the
   * loop ready for the next.
   */
  lemma {:induction false} RenewalsGoOn(st: State, r: string, e: nat, x: Stamp, deadline: nat, ttl: nat, gaps: seq<nat>)
    returns (st': State)
    requires HeldUntil(st, r, e, x, deadline) && ttl > 0
    requires gaps != [] ==> st.now + gaps[0] < deadline
    requires forall i | 0 < i < |gaps| :: gaps[i] < ttl
    ensures Follows(st, Ticks(r, e, ttl, gaps), st')
    ensures HeldUntil(st', r, e, x, if gaps == [] then deadline else st'.now + ttl) && OthersSame(st, st', r, e)
    ensures st'.releases == st.releases && st'.grants == st.grants
    decreases |gaps|
  {
    st' := st;
    if gaps != [] {
      var later := Step(st, Tick(gaps[0]));
      assert HeldUntil(later, r, e, x, deadline);
      TickRenews(later, r, e, ttl);
      var ticked := Step(later, LoopTick(r, e));
      var renewed := Step(ticked, RenewRun(r, e, ttl, Acknowledged));
      st' := RenewalsGoOn(renewed, r, e, x, renewed.now + ttl, ttl, gaps[1..]);
      ThreeMore(st, Tick(gaps[0]), LoopTick(r, e), RenewRun(r, e, ttl, Acknowledged), Ticks(r, e, ttl, gaps[1..]), st');
    }
  }

  lemma ThreeMore(st: State, a: Action, b: Action, c: Action, rest: seq<Action>, st': State)
    requires Enabled(st, a) && Enabled(Step(st, a), b) && Enabled(Step(Step(st, a), b), c)
    requires Follows(Step(Step(Step(st, a), b), c), rest, st')
    ensures Follows(st, [a, b, c] + rest, st')
  {
    var acts := [a, b, c] + rest;
    assert acts[1..] == [b, c] + rest && acts[1..][1..] == [c] + rest && acts[1..][1..][1..] == rest;
    assert Follows(Step(Step(st, a), b), acts[1..][1..], st');
    assert Follows(Step(st, a), acts[1..], st');
  }

  /** A tick after the lease ran out ends the loop, whatever becomes of the call. */
  lemma LateTickStops(st: State, r: string, e: nat, ttl: nat, fate: Fate)
    requires e < |Of(st, r).heap| && Of(st, r).heap[e].loop.Waiting?
    requires var l := Of(st, r).heap[e].lease; !Holds(st.table, st.now, l.station, l.owner, l.generation)
    ensures Enabled(Step(st, LoopTick(r, e)), RenewRun(r, e, ttl, fate))
    ensures var st' := Step(Step(st, LoopTick(r, e)), RenewRun(r, e, ttl, fate));
      e < |Of(st', r).heap| && Of(st', r).heap[e].loop.Stopped? && st'.table == st.table
  {
  }

  /** All ticks come in time: the first before the lease runs out, the others within ttl of the one before. */
  predicate InTime(left: int, ttl: nat, gaps: seq<nat>)
    decreases |gaps|
  {
    gaps == [] || (gaps[0] < left && InTime(ttl, ttl, gaps[1..]))
  }

  /** The ticks can all be taken and leave the lease held and the loop waiting. */
  ghost predicate Survives(st: State, r: string, e: nat, ttl: nat, gaps: seq<nat>) {
    exists st' :: Follows(st, Ticks(r, e, ttl, gaps), st') && Alive(st', r, e)
  }

  lemma TicksFirst(st: State, r: string, e: nat, ttl: nat, gaps: seq<nat>, st': State)
    requires gaps != []
    ensures var later := Step(st, Tick(gaps[0]));
      Follows(st, Ticks(r, e, ttl, gaps), st') <==>
        && Enabled(later, LoopTick(r, e)) && Enabled(Step(later, LoopTick(r, e)), RenewRun(r, e, ttl, Acknowledged))
        && Follows(Step(Step(later, LoopTick(r, e)), RenewRun(r, e, ttl, Acknowledged)), Ticks(r, e, ttl, gaps[1..]), st')
  {
    var acts, rest := Ticks(r, e, ttl, gaps), Ticks(r, e, ttl, gaps[1..]);
    var later := Step(st, Tick(gaps[0]));
    assert acts[1..] == [LoopTick(r, e), RenewRun(r, e, ttl, Acknowledged)] + rest;
    assert acts[1..][1..] == [RenewRun(r, e, ttl, Acknowledged)] + rest && acts[1..][1..][1..] == rest;
    assert Follows(st, acts, st') <==> Follows(later, acts[1..], st');
    if Enabled(later, LoopTick(r, e)) {
      assert Follows(later, acts[1..], st') <==> Follows(Step(later, LoopTick(r, e)), acts[1..][1..], st');
    }
  }

  /**
   * From any state with a held lease and a waiting loop, any number of confirmed
   * ticks keeps the session alive if and only if each comes in time.
   */
  lemma {:induction false} SurvivesIffInTime(st: State, r: string, e: nat, x: Stamp, deadline: nat, ttl: nat, gaps: seq<nat>)
    requires HeldUntil(st, r, e, x, deadline) && ttl > 0
    ensures Survives(st, r, e, ttl, gaps) <==> InTime(deadline - st.now, ttl, gaps)
    decreases |gaps|
  {
    if gaps == [] {
      assert Follows(st, [], st);
    } else {
      var later := Step(st, Tick(gaps[0]));
      if st.now + gaps[0] < deadline {
        assert HeldUntil(later, r, e, x, deadline);
        TickRenews(later, r, e, ttl);
        var renewed := Step(Step(later, LoopTick(r, e)), RenewRun(r, e, ttl, Acknowledged));
        SurvivesIffInTime(renewed, r, e, x, renewed.now + ttl, ttl, gaps[1..]);
        forall st' { TicksFirst(st, r, e, ttl, gaps, st'); }
      } else {
        LateTickStops(later, r, e, ttl, Acknowledged);
        var stopped := Step(Step(later, LoopTick(r, e)), RenewRun(r, e, ttl, Acknowledged));
        forall st' ensures !(Follows(st, Ticks(r, e, ttl, gaps), st') && Alive(st', r, e)) {
          TicksFirst(st, r, e, ttl, gaps, st');
          NoTicksAfterStop(stopped, r, e, ttl, gaps[1..], st');
        }
      }
    }
  }

  lemma NoTicksAfterStop(st: State, r: string, e: nat, ttl: nat, gaps: seq<nat>, st': State)
    requires e < |Of(st, r).heap| && Of(st, r).heap[e].loop.Stopped?
    ensures !(Follows(st, Ticks(r, e, ttl, gaps), st') && Alive(st', r, e))
  {
    if gaps != [] { TicksFirst(st, r, e, ttl, gaps, st'); }
  }

  // ---------- From connect to disconnect

  /** The registry would grant r the station now. */
  predicate Grantable(st: State, r: string, s: string) {
    Asks(r, s) && s != COUNTER_STATION && !Live(st.table, st.now, s)
  }

  /** Station s is up in runtime r with entry e, whose lease x runs until deadline. */
  predicate UpUntil(st: State, r: string, s: string, e: nat, x: Stamp, deadline: nat) {
    && HeldUntil(st, r, e, x, deadline) && x == Stamp(r, s, x.generation)
    && At(Of(st, r), s).Up? && s in Of(st, r).entries && Of(st, r).entries[s] == e
  }

  /** Connecting to a free station: the next generation, held for ttl, and a loop that waits for its first tick. */
  lemma ConnectComesUp(st: State, r: string, s: string, ttl: nat) returns (st': State)
    requires At(Of(st, r), s).Down? && Grantable(st, r, s) && ttl > 0
    ensures Follows(st, [Connect(r, s), ClaimRun(r, s, ttl, Acknowledged), Install(r, s)], st')
    ensures var x := Stamp(r, s, st.table.counter + 1);
      && UpUntil(st', r, s, |Of(st, r).heap|, x, st.now + ttl) && st'.now == st.now
      && st'.grants == st.grants + [x] && st'.releases == st.releases && x in st'.claimed
  {
    var st1 := Step(st, Connect(r, s));
    var st2 := Step(st1, ClaimRun(r, s, ttl, Acknowledged));
    st' := Step(st2, Install(r, s));
    ThreeMore(st, Connect(r, s), ClaimRun(r, s, ttl, Acknowledged), Install(r, s), [], st');
    assert [Connect(r, s), ClaimRun(r, s, ttl, Acknowledged), Install(r, s)] + [] ==
      [Connect(r, s), ClaimRun(r, s, ttl, Acknowledged), Install(r, s)];
  }

  /** Ticks in time leave it up. */
  lemma StaysUp(st: State, r: string, s: string, e: nat, x: Stamp, deadline: nat, ttl: nat, gaps: seq<nat>)
    returns (st': State, deadline': nat)
    requires UpUntil(st, r, s, e, x, deadline) && ttl > 0 && InTime(deadline - st.now, ttl, gaps)
    ensures Follows(st, Ticks(r, e, ttl, gaps), st') && UpUntil(st', r, s, e, x, deadline')
    ensures st'.releases == st.releases && st'.grants == st.grants
  {
    GapsInTime(deadline - st.now, ttl, gaps);
    st' := RenewalsGoOn(st, r, e, x, deadline, ttl, gaps);
    deadline' := if gaps == [] then deadline else st'.now + ttl;
  }

  lemma {:induction false} GapsInTime(left: int, ttl: nat, gaps: seq<nat>)
    requires InTime(left, ttl, gaps)
    ensures gaps != [] ==> gaps[0] < left
    ensures forall i | 0 < i < |gaps| :: gaps[i] < ttl
    decreases |gaps|
  {
    if gaps != [] { GapsInTime(ttl, ttl, gaps[1..]); }
  }

  /** Disconnecting: the entry is gone, its lease released once, and the station free. */
  lemma DisconnectFrees(st: State, r: string, s: string, e: nat, x: Stamp, deadline: nat) returns (st': State)
    requires UpUntil(st, r, s, e, x, deadline)
    ensures Follows(st, [TakeEntry(r, s), CancelEntry(r, s), ReadLease(r, s), ReleaseRun(r, s, Acknowledged)], st')
    ensures At(Of(st', r), s).Down? && s !in Of(st', r).entries && e < |Of(st', r).heap| && Of(st', r).heap[e].cancelled
    ensures !Live(st'.table, st'.now, s) && st'.releases == st.releases + multiset{(r, x)}
    ensures st'.grants == st.grants && st'.table.cells == st.table.cells - {s}
  {
    var st1 := Step(st, TakeEntry(r, s));
    var st2 := Step(st1, CancelEntry(r, s));
    var st3 := Step(st2, ReadLease(r, s));
    st' := Step(st3, ReleaseRun(r, s, Acknowledged));
    assert [ReleaseRun(r, s, Acknowledged)][1..] == [];
    assert Follows(st3, [ReleaseRun(r, s, Acknowledged)], st');
    ThreeMore(st, TakeEntry(r, s), CancelEntry(r, s), ReadLease(r, s), [ReleaseRun(r, s, Acknowledged)], st');
    assert [TakeEntry(r, s), CancelEntry(r, s), ReadLease(r, s)] + [ReleaseRun(r, s, Acknowledged)] ==
      [TakeEntry(r, s), CancelEntry(r, s), ReadLease(r, s), ReleaseRun(r, s, Acknowledged)];
  }

  /** The three parts of a session, one after the other. */
  datatype Life = Life(connect: seq<Action>, ticks: seq<Action>, disconnect: seq<Action>)

  function LifeOf(r: string, s: string, e: nat, ttl: nat, gaps: seq<nat>): (l: Life) {
    Life([Connect(r, s), ClaimRun(r, s, ttl, Acknowledged), Install(r, s)], Ticks(r, e, ttl, gaps),
         [TakeEntry(r, s), CancelEntry(r, s), ReadLease(r, s), ReleaseRun(r, s, Acknowledged)])
  }

  lemma ThreeParts(acts: seq<Action>, l: Life, up: State, later: State, down: State)
    requires Legal(acts) && Follows(Exec(acts), l.connect, up)
    requires Follows(up, l.ticks, later) && Follows(later, l.disconnect, down)
    ensures Legal(acts + l.connect) && Exec(acts + l.connect) == up
    ensures Legal(acts + l.connect + l.ticks) && Exec(acts + l.connect + l.ticks) == later
    ensures Legal(acts + l.connect + l.ticks + l.disconnect) && Exec(acts + l.connect + l.ticks + l.disconnect) == down
  {
    RunsCompose(acts, l.connect, up);
    RunsCompose(acts + l.connect, l.ticks, later);
    RunsCompose(acts + l.connect + l.ticks, l.disconnect, down);
  }

  /** The store holds the station for x. */
  predicate HoldsFor(st: State, x: Stamp) { Holds(st.table, st.now, x.station, x.owner, x.generation) }

  /** The station has neither session nor lease, and x was granted and released once since st. */
  ghost predicate Over(st: State, st': State, x: Stamp) {
    && !Live(st'.table, st'.now, x.station) && At(Of(st', x.owner), x.station).Down?
    && st'.releases == st.releases + multiset{(x.owner, x)} && st'.grants == st.grants + [x]
  }

  /**
   * From every reachable state in which a station has no session in a runtime
   * and no live lease: a session can connect, hold the next generation through
   * any number of ticks in time, disconnect, and leave the station free, its
   * lease released exactly once.
   */
  lemma SessionLives(acts: seq<Action>, r: string, s: string, ttl: nat, gaps: seq<nat>) returns (l: Life)
    requires Legal(acts) && At(Of(Exec(acts), r), s).Down? && Grantable(Exec(acts), r, s)
    requires ttl > 0 && InTime(ttl, ttl, gaps)
    ensures l == LifeOf(r, s, |Of(Exec(acts), r).heap|, ttl, gaps)
    ensures Legal(acts + l.connect) && Legal(acts + l.connect + l.ticks) && Legal(acts + l.connect + l.ticks + l.disconnect)
    ensures var x := Stamp(r, s, Exec(acts).table.counter + 1);
      && HoldsFor(Exec(acts + l.connect), x) && HoldsFor(Exec(acts + l.connect + l.ticks), x)
      && Over(Exec(acts), Exec(acts + l.connect + l.ticks + l.disconnect), x)
  {
    var st, x, e := Exec(acts), Stamp(r, s, Exec(acts).table.counter + 1), |Of(Exec(acts), r).heap|;
    l := LifeOf(r, s, e, ttl, gaps);
    var up := ConnectComesUp(st, r, s, ttl);
    var later, deadline := StaysUp(up, r, s, e, x, st.now + ttl, ttl, gaps);
    var down := DisconnectFrees(later, r, s, e, x, deadline);
    ThreeParts(acts, l, up, later, down);
  }
}
