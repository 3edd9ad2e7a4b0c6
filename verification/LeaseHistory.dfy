/**
 * Whole histories of the registry: any interleaving of the passage of time
 * with claims, renewals and releases by any callers, stale ones included.
 */
module LeaseHistory {
  import opened Leases

  datatype Op =
    | Tick(ms: nat)
    | ClaimOp(s: string, o: string, ttl: nat)
    | RenewOp(s: string, o: string, g: nat, ttl: nat)
    | ReleaseOp(s: string, o: string, g: nat)

  datatype Point = Point(now: nat, table: Table)

  const START := Point(0, EMPTY)

  function Apply(p: Point, op: Op): (q: Point) {
    match op
    case Tick(ms) => p.(now := p.now + ms)
    case ClaimOp(s, o, ttl) => p.(table := Claim(p.table, p.now, s, o, ttl).0)
    case RenewOp(s, o, g, ttl) => p.(table := Renew(p.table, p.now, s, o, g, ttl).0)
    case ReleaseOp(s, o, g) => p.(table := Release(p.table, p.now, s, o, g).0)
  }

  /** The point reached from p by the first i operations. */
  function At(p: Point, ops: seq<Op>, i: nat): (q: Point)
    requires i <= |ops|
  {
    if i == 0 then p else Apply(At(p, ops, i - 1), ops[i - 1])
  }

  predicate Occupies(p: Point, s: string, g: nat) { Occupied(p.table, p.now, s, g) }

  /** Every generation on the table was drawn from the counter. */
  predicate Drawn(p: Point) {
    forall s :: s in p.table.cells ==> p.table.cells[s].generation <= p.table.counter
  }

  lemma {:induction false} AlwaysDrawn(p: Point, ops: seq<Op>, i: nat)
    requires Drawn(p) && i <= |ops|
    ensures Drawn(At(p, ops, i))
  {
    if i > 0 { AlwaysDrawn(p, ops, i - 1); }
  }

  /** The counter's own name never gets a lease, at any point of any history. */
  lemma {:induction false} CounterNameIsNeverHeld(ops: seq<Op>, i: nat)
    requires i <= |ops|
    ensures COUNTER_STATION !in At(START, ops, i).table.cells
  {
    if i > 0 { CounterNameIsNeverHeld(ops, i - 1); }
  }

  /**
   * What a claim does: on a free station the next generation is held by the
   * caller for exactly ttl milliseconds, if nobody touches it; on a taken one
   * nothing changes, and the answer names the holder and its remaining time.
   */
  lemma ClaimExactly(p: Point, s: string, o: string, ttl: nat, wait: nat)
    requires s != COUNTER_STATION
    ensures var q, reply := Apply(p, ClaimOp(s, o, ttl)), Claim(p.table, p.now, s, o, ttl).1;
      && var later := Apply(q, Tick(wait));
      if s in p.table.cells && p.now < p.table.cells[s].deadline then
        var cell := p.table.cells[s];
        q == p && reply == Conflict(cell.owner, cell.generation, cell.deadline - p.now)
      else
        && reply == Granted(p.table.counter + 1, ttl) && q.table.counter == p.table.counter + 1
        && (Holds(later.table, later.now, s, o, p.table.counter + 1) <==> wait < ttl)
        && forall s' | s' != s :: (s' in q.table.cells <==> s' in p.table.cells)
                                  && (s' in p.table.cells ==> q.table.cells[s'] == p.table.cells[s'])
  {
  }

  lemma {:induction false} CounterGrows(p: Point, ops: seq<Op>, i: nat, j: nat)
    requires i <= j <= |ops|
    ensures At(p, ops, i).table.counter <= At(p, ops, j).table.counter
    ensures At(p, ops, i).now <= At(p, ops, j).now
  {
    if i < j { CounterGrows(p, ops, i, j - 1); }
  }

  /** A drawn generation that does not occupy a station never occupies it again. */
  lemma {:induction false} EndedStaysEnded(p: Point, ops: seq<Op>, i: nat, j: nat, s: string, g: nat)
    requires i <= j <= |ops|
    requires g <= At(p, ops, i).table.counter && !Occupies(At(p, ops, i), s, g)
    ensures !Occupies(At(p, ops, j), s, g)
  {
    if i < j {
      EndedStaysEnded(p, ops, i, j - 1, s, g);
      CounterGrows(p, ops, i, j - 1);
    }
  }

  /** A cell seen later was either drawn later or is the one already there, renewed or not. */
  lemma {:induction false} LaterCells(p: Point, ops: seq<Op>, i: nat, j: nat, s: string)
    requires i <= j <= |ops| && s in At(p, ops, j).table.cells
    ensures
      var before, after := At(p, ops, i).table, At(p, ops, j).table.cells[s];
      after.generation > before.counter ||
      (s in before.cells && before.cells[s].generation == after.generation && before.cells[s].owner == after.owner)
  {
    if i < j {
      CounterGrows(p, ops, i, j - 1);
      if s in At(p, ops, j - 1).table.cells { LaterCells(p, ops, i, j - 1, s); }
    }
  }

  /**
   * The occupancies of one station are ordered by generation, and each is one
   * unbroken interval held by one owner.
   */
  lemma OccupancyIntervals(ops: seq<Op>, i: nat, j: nat, k: nat, s: string, g: nat, h: nat)
    requires i <= k <= j <= |ops|
    requires Occupies(At(START, ops, i), s, g) && Occupies(At(START, ops, j), s, h)
    ensures g <= h
    ensures g == h ==>
      Occupies(At(START, ops, k), s, g) &&
      At(START, ops, k).table.cells[s].owner == At(START, ops, i).table.cells[s].owner
  {
    AlwaysDrawn(START, ops, i);
    LaterCells(START, ops, i, j, s);
    CounterGrows(START, ops, i, k);
    if g == h {
      if !Occupies(At(START, ops, k), s, g) { EndedStaysEnded(START, ops, k, j, s, g); }
      LaterCells(START, ops, i, k, s);
    }
  }

  /** Two stations never share a generation, at one moment or at two. */
  lemma {:induction false} GenerationNamesOneStation(ops: seq<Op>, i: nat, j: nat, s: string, s': string, g: nat)
    requires i <= j <= |ops|
    requires s in At(START, ops, i).table.cells && At(START, ops, i).table.cells[s].generation == g
    requires s' in At(START, ops, j).table.cells && At(START, ops, j).table.cells[s'].generation == g
    ensures s == s'
    decreases j, i
  {
    AlwaysDrawn(START, ops, i);
    LaterCells(START, ops, i, j, s');
    if i > 0 {
      AlwaysDrawn(START, ops, i - 1);
      LaterCells(START, ops, i - 1, i, s);
      LaterCells(START, ops, i - 1, i, s');
      var before := At(START, ops, i - 1).table;
      if g <= before.counter {
        GenerationNamesOneStation(ops, i - 1, i - 1, s, s', g);
      }
    }
  }

  /**
   * The three ways a lease can end: the clock reaches its deadline, a Release
   * names its owner and generation, or its own holder renews it for less than
   * a millisecond.
   */
  predicate EndsLease(p: Point, op: Op, s: string, g: nat)
    requires Occupies(p, s, g)
  {
    var cell := p.table.cells[s];
    || (op.Tick? && p.now + op.ms >= cell.deadline)
    || op == ReleaseOp(s, cell.owner, g)
    || op == RenewOp(s, cell.owner, g, 0)
  }

  /** Every ended occupancy has exactly one of these causes, at one definite operation. */
  lemma {:induction false} EveryEndHasItsCause(p: Point, ops: seq<Op>, i: nat, j: nat, s: string, g: nat)
    returns (k: nat)
    requires i < j <= |ops|
    requires g <= At(p, ops, i).table.counter
    requires Occupies(At(p, ops, i), s, g) && !Occupies(At(p, ops, j), s, g)
    ensures i <= k < j && Occupies(At(p, ops, k), s, g) && EndsLease(At(p, ops, k), ops[k], s, g)
    ensures forall m | k < m <= j :: !Occupies(At(p, ops, m), s, g)
  {
    if Occupies(At(p, ops, j - 1), s, g) {
      k := j - 1;
    } else {
      k := EveryEndHasItsCause(p, ops, i, j - 1, s, g);
    }
  }

  /** Conversely each of them does end it: no other operation by anyone can. */
  lemma OnlyTheCausesEndALease(p: Point, op: Op, s: string, g: nat)
    requires Occupies(p, s, g)
    ensures !Occupies(Apply(p, op), s, g) <==> EndsLease(p, op, s, g)
  {
  }

  // ---------- Keeping a lease alive by renewing it

  /** The store time of the latest renewal naming (s, o, g) among the first i operations, or of p itself. */
  function LastTouch(p: Point, ops: seq<Op>, i: nat, s: string, o: string, g: nat): (t: nat)
    requires i <= |ops|
  {
    if i == 0 then p.now
    else if ops[i - 1].RenewOp? && ops[i - 1].s == s && ops[i - 1].o == o && ops[i - 1].g == g then
      At(p, ops, i - 1).now
    else LastTouch(p, ops, i - 1, s, o, g)
  }

  /** No release names (s, o, g), and all its renewals ask for ttl. */
  predicate Undisturbed(ops: seq<Op>, s: string, o: string, g: nat, ttl: nat) {
    forall op <- ops ::
      && op != ReleaseOp(s, o, g)
      && (op.RenewOp? && op.s == s && op.o == o && op.g == g ==> op.ttl == ttl)
  }

  predicate GapsBelow(p: Point, ops: seq<Op>, n: nat, s: string, o: string, g: nat, ttl: nat)
    requires n <= |ops|
  {
    forall i | 0 <= i <= n :: At(p, ops, i).now < LastTouch(p, ops, i, s, o, g) + ttl
  }

  predicate NeverLapses(p: Point, ops: seq<Op>, n: nat, s: string, g: nat)
    requires n <= |ops|
  {
    forall i | 0 <= i <= n :: Occupies(At(p, ops, i), s, g)
  }

  /** One operation on a live, undisturbed lease last touched at time touch. */
  lemma TouchStep(q: Point, op: Op, touch: nat, s: string, o: string, g: nat, ttl: nat)
    requires Occupies(q, s, g) && q.table.cells[s] == Cell(o, g, touch + ttl)
    requires op != ReleaseOp(s, o, g)
    requires op.RenewOp? && op.s == s && op.o == o && op.g == g ==> op.ttl == ttl
    ensures
      var touch' := if op == RenewOp(s, o, g, ttl) then q.now else touch;
      && s in Apply(q, op).table.cells
      && Apply(q, op).table.cells[s] == Cell(o, g, touch' + ttl)
  {
  }

  /**
   * A lease just granted for ttl milliseconds stays live through the whole
   * history, whatever other callers do, exactly when the time since its last
   * renewal always stays below ttl.
   */
  lemma {:induction false} LeaseContinuity(p: Point, ops: seq<Op>, n: nat, s: string, o: string, g: nat, ttl: nat)
    requires n <= |ops| && Undisturbed(ops, s, o, g, ttl)
    requires s in p.table.cells && p.table.cells[s] == Cell(o, g, p.now + ttl)
    ensures GapsBelow(p, ops, n, s, o, g, ttl) <==> NeverLapses(p, ops, n, s, g)
    ensures NeverLapses(p, ops, n, s, g) ==>
      At(p, ops, n).table.cells[s] == Cell(o, g, LastTouch(p, ops, n, s, o, g) + ttl)
  {
    if n == 0 {
      assert At(p, ops, 0) == p && LastTouch(p, ops, 0, s, o, g) == p.now;
    } else {
      LeaseContinuity(p, ops, n - 1, s, o, g, ttl);
      SplitLast(p, ops, n, s, o, g, ttl);
      if NeverLapses(p, ops, n - 1, s, g) {
        assert ops[n - 1] in ops;
        assert Occupies(At(p, ops, n - 1), s, g);
        TouchStep(At(p, ops, n - 1), ops[n - 1], LastTouch(p, ops, n - 1, s, o, g), s, o, g, ttl);
      }
    }
  }

  lemma SplitLast(p: Point, ops: seq<Op>, n: nat, s: string, o: string, g: nat, ttl: nat)
    requires 0 < n <= |ops|
    ensures GapsBelow(p, ops, n, s, o, g, ttl) <==>
      GapsBelow(p, ops, n - 1, s, o, g, ttl) && At(p, ops, n).now < LastTouch(p, ops, n, s, o, g) + ttl
    ensures NeverLapses(p, ops, n, s, g) <==>
      NeverLapses(p, ops, n - 1, s, g) && Occupies(At(p, ops, n), s, g)
  {
  }

  /** Every renewal of such a lease is answered with success, and every claim of its station with a conflict. */
  lemma ContinuousLeaseFencesOthers(p: Point, ops: seq<Op>, i: nat, s: string, o: string, g: nat, ttl: nat)
    requires i < |ops| && Undisturbed(ops, s, o, g, ttl) && s != COUNTER_STATION
    requires s in p.table.cells && p.table.cells[s] == Cell(o, g, p.now + ttl)
    requires GapsBelow(p, ops, |ops|, s, o, g, ttl)
    ensures var q := At(p, ops, i);
      && Renew(q.table, q.now, s, o, g, ttl).1
      && forall o', ttl' :: Claim(q.table, q.now, s, o', ttl').1 == Conflict(o, g, q.table.cells[s].deadline - q.now)
  {
    assert GapsBelow(p, ops, i, s, o, g, ttl);
    LeaseContinuity(p, ops, i, s, o, g, ttl);
    assert NeverLapses(p, ops, i, s, g);
  }

  /** The start-up check: the renewal interval is shorter than the lease TTL, as raw durations. */
  predicate AcceptedConfig(renewNanos: nat, ttlNanos: nat) { 0 < renewNanos < ttlNanos }

  /**
   * The start-up check keeps every renewal interval below the TTL the store
   * receives exactly for whole-millisecond TTLs.
   */
  lemma ConfigCheckIsEnoughIff(ttlNanos: nat)
    requires ttlNanos > 1
    ensures
      (forall renewNanos: nat :: AcceptedConfig(renewNanos, ttlNanos) ==>
        renewNanos < Milliseconds(ttlNanos) * NANOS_PER_MS)
      <==> ttlNanos % NANOS_PER_MS == 0
  {
    if ttlNanos % NANOS_PER_MS != 0 {
      assert AcceptedConfig(ttlNanos - 1, ttlNanos);
    }
  }
}
