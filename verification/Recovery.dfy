/**
 * The consumer loop over time: a recovery pass whenever five seconds have
 * gone by since the last one, and between passes the reading and completing of
 * new messages.  Which pending entries it recovers, in which order and in how
 * many passes.
 */
module Recovery {
  import opened Base
  import opened Delivery
  import opened CommandBus

  // ---------- Numbers in order

  /** The numbers of a set from i to below n, ascending. */
  function InOrder(picked: set<nat>, i: nat, n: nat): (list: seq<nat>)
    requires i <= n
    decreases n - i
  {
    if i == n then [] else (if i in picked then [i] else []) + InOrder(picked, i + 1, n)
  }

  lemma {:induction false} InOrderExact(picked: set<nat>, i: nat, n: nat)
    requires i <= n
    ensures forall e :: e in InOrder(picked, i, n) <==> e in picked && i <= e < n
    ensures forall j, k | 0 <= j < k < |InOrder(picked, i, n)| :: InOrder(picked, i, n)[j] < InOrder(picked, i, n)[k]
    decreases n - i
  {
    if i < n {
      var rest := InOrder(picked, i + 1, n);
      InOrderExact(picked, i + 1, n);
      assert forall k | 0 <= k < |rest| :: rest[k] in rest;
    }
  }

  lemma {:induction false} InOrderSame(a: set<nat>, b: set<nat>, i: nat, n: nat)
    requires i <= n && forall e | i <= e < n :: e in a <==> e in b
    ensures InOrder(a, i, n) == InOrder(b, i, n)
    decreases n - i
  {
    if i < n { InOrderSame(a, b, i + 1, n); }
  }

  lemma {:induction false} InOrderLonger(picked: set<nat>, i: nat, n: nat, m: nat)
    requires i <= n <= m && forall e | e in picked :: e < n
    ensures InOrder(picked, i, m) == InOrder(picked, i, n)
    decreases m - i
  {
    if i < n {
      InOrderLonger(picked, i + 1, n, m);
    } else if i < m {
      InOrderLonger(picked, i + 1, i + 1, m);
    }
  }

  /** Without its first m members a set lists the others. */
  lemma {:induction false} InOrderRest(picked: set<nat>, i: nat, n: nat, m: nat)
    requires i <= n && m <= |InOrder(picked, i, n)|
    ensures InOrder(picked - SetOf(InOrder(picked, i, n)[..m]), i, n) == InOrder(picked, i, n)[m..]
    decreases n - i
  {
    if i < n {
      var rest := InOrder(picked, i + 1, n);
      InOrderExact(picked, i + 1, n);
      if i !in picked {
        assert InOrder(picked, i, n) == rest;
        InOrderRest(picked, i + 1, n, m);
      } else if m > 0 {
        var list := InOrder(picked, i, n);
        assert list[..m] == [i] + rest[..m - 1];
        InOrderRest(picked, i + 1, n, m - 1);
        InOrderSame(picked - SetOf(list[..m]), picked - SetOf(rest[..m - 1]), i + 1, n);
      } else {
        InOrderSame(picked - SetOf(InOrder(picked, i, n)[..0]), picked, i, n);
      }
    }
  }

  /** A set lists as many as a part of it and what is left. */
  lemma {:induction false} InOrderSplit(picked: set<nat>, part: set<nat>, i: nat, n: nat)
    requires i <= n && part <= picked
    ensures |InOrder(picked, i, n)| == |InOrder(part, i, n)| + |InOrder(picked - part, i, n)|
    decreases n - i
  {
    if i < n { InOrderSplit(picked, part, i + 1, n); }
  }

  /** The first m of a list, as a set, list themselves. */
  lemma {:induction false} InOrderPrefix(picked: set<nat>, i: nat, n: nat, m: nat)
    requires i <= n && m <= |InOrder(picked, i, n)|
    ensures InOrder(SetOf(InOrder(picked, i, n)[..m]), i, n) == InOrder(picked, i, n)[..m]
    decreases n - i
  {
    if i < n {
      var list, rest := InOrder(picked, i, n), InOrder(picked, i + 1, n);
      InOrderExact(picked, i + 1, n);
      if i !in picked {
        assert list == rest;
        InOrderPrefix(picked, i + 1, n, m);
      } else if m > 0 {
        assert list[..m] == [i] + rest[..m - 1];
        InOrderPrefix(picked, i + 1, n, m - 1);
        InOrderSame(SetOf(list[..m]), SetOf(rest[..m - 1]), i + 1, n);
      } else {
        InOrderSame(SetOf(list[..0]), {}, i, n);
        InOrderNone(i, n);
      }
    }
  }

  lemma {:induction false} InOrderNone(i: nat, n: nat)
    requires i <= n
    ensures InOrder({}, i, n) == []
    decreases n - i
  {
    if i < n { InOrderNone(i + 1, n); }
  }

  // ---------- Pending entries

  /** Entries handed out, not acknowledged and still in the stream. */
  function LiveSet(sm: Stream): (live: set<nat>) { set i | i in sm.pending && sm.trimmed <= i }

  /** Those of them old enough to be claimed. */
  function IdleSet(sm: Stream, now: nat): (idle: set<nat>) {
    set i | i in sm.pending && sm.trimmed <= i && now - sm.pending[i].at >= PENDING_MIN_IDLE
  }

  function Pendings(sm: Stream): (list: seq<nat>) { InOrder(LiveSet(sm), 0, |sm.log|) }

  function Idles(sm: Stream, now: nat): (list: seq<nat>) { InOrder(IdleSet(sm, now), 0, |sm.log|) }

  function Min(a: nat, b: nat): (m: nat) { if a < b then a else b }

  /** What a pass at this moment claims: the first ten idle entries, from the beginning of the stream. */
  function Claimed(sm: Stream, now: nat): (batch: seq<nat>) { Idles(sm, now)[..Min(BATCH, |Idles(sm, now)|)] }

  /** The order of recovery: what the first pass claims, then all other pending entries as the stream has them. */
  function Order(sm: Stream, now: nat): (order: seq<nat>) {
    Claimed(sm, now) + InOrder(LiveSet(sm) - SetOf(Claimed(sm, now)), 0, |sm.log|)
  }

  predicate Consistent(sm: Stream, now: nat) {
    sm.delivered <= |sm.log| && forall i | i in sm.pending :: i < sm.delivered && sm.pending[i].at <= now
  }

  lemma ClaimedIsLive(sm: Stream, now: nat)
    ensures SetOf(Claimed(sm, now)) <= IdleSet(sm, now) <= LiveSet(sm)
  {
    InOrderExact(IdleSet(sm, now), 0, |sm.log|);
  }

  /** Every pending entry is recovered, and exactly once. */
  lemma OrderCovers(sm: Stream, now: nat)
    requires Consistent(sm, now)
    ensures |Order(sm, now)| == |Pendings(sm)|
    ensures forall e :: e in Order(sm, now) <==> e in LiveSet(sm)
  {
    var first, n := Claimed(sm, now), |sm.log|;
    ClaimedIsLive(sm, now);
    InOrderSplit(LiveSet(sm), SetOf(first), 0, n);
    InOrderPrefix(IdleSet(sm, now), 0, n, |first|);
    InOrderExact(LiveSet(sm) - SetOf(first), 0, n);
  }

  /** Ten at a time, rounded up. */
  function Passes(n: nat): (p: nat) { (n + 9) / 10 }

  /** How many entries p passes recover: what the first claims, then ten each. */
  function Taken(sm: Stream, now: nat, p: nat): (k: nat) {
    if p == 0 then 0 else Min(|Order(sm, now)|, |Claimed(sm, now)| + BATCH * (p - 1))
  }

  /** How many passes recover all: the first, and ten at a time for what it leaves. */
  function Needed(sm: Stream, now: nat): (p: nat) {
    var left := |Order(sm, now)| - |Claimed(sm, now)|;
    if Pendings(sm) == [] then 0 else 1 + Passes(left)
  }

  /** Needed is exact: all are recovered after that many passes, and not before. */
  lemma NeededExactly(sm: Stream, now: nat, p: nat)
    requires Consistent(sm, now)
    ensures Taken(sm, now, p) == |Pendings(sm)| <==> p >= Needed(sm, now)
  {
    OrderCovers(sm, now);
  }

  /** At most one pass more than ten entries each would take. */
  lemma NeededBound(sm: Stream, now: nat)
    requires Consistent(sm, now)
    ensures Needed(sm, now) <= 1 + Passes(|Pendings(sm)|)
  {
    OrderCovers(sm, now);
  }

  /** Ten at a time is enough exactly when the first pass claims what the last one would otherwise be short of. */
  lemma TenAtATimeIff(sm: Stream, now: nat)
    requires Consistent(sm, now) && Pendings(sm) != []
    ensures Needed(sm, now) == Passes(|Pendings(sm)|) <==> |Claimed(sm, now)| >= (|Pendings(sm)| - 1) % 10 + 1
  {
    OrderCovers(sm, now);
  }

  /** Recovery is in stream order exactly when the first pass claims the entries the stream has first. */
  lemma StreamOrderIff(sm: Stream, now: nat)
    requires Consistent(sm, now)
    ensures Order(sm, now) == Pendings(sm) <==> Claimed(sm, now) <= Pendings(sm)
  {
    var first, list := Claimed(sm, now), Pendings(sm);
    if first <= list {
      assert first == list[..|first|];
      InOrderRest(LiveSet(sm), 0, |sm.log|, |first|);
      assert list == list[..|first|] + list[|first|..];
    }
  }

  /** With no pending entry younger than the limit, it is ceil(n/10) passes in stream order. */
  lemma NoYoungEntries(sm: Stream, now: nat)
    requires Consistent(sm, now) && IdleSet(sm, now) == LiveSet(sm)
    ensures Order(sm, now) == Pendings(sm) && Needed(sm, now) == Passes(|Pendings(sm)|)
  {
    OrderCovers(sm, now);
    StreamOrderIff(sm, now);
  }

  /** Otherwise it can be one pass more and another order: an entry still too young stands before an idle one. */
  lemma YoungEntriesGoLater()
    ensures exists sm: Stream, now ::
      Consistent(sm, now) && Needed(sm, now) > Passes(|Pendings(sm)|) && Order(sm, now) != Pendings(sm)
  {
    var c := Command(0, "", "", 0, 0, COMMAND_TIMEOUT);
    var sm := Stream(
      [c, c], 0, 2, map[0 := Delivered(PENDING_MIN_IDLE, 1), 1 := Delivered(0, 1)], {});
    var now := PENDING_MIN_IDLE;
    OrderCovers(sm, now);
    assert LiveSet(sm) == {0, 1} && IdleSet(sm, now) == {1};
    assert InOrder({0, 1}, 2, 2) == [] && InOrder({0, 1}, 1, 2) == [1] && Pendings(sm) == [0, 1];
    assert InOrder({1}, 2, 2) == [] && InOrder({1}, 1, 2) == [1] && Idles(sm, now) == [1];
    assert Claimed(sm, now) == [1];
    assert Needed(sm, now) == 2 && Order(sm, now)[0] == 1 && Pendings(sm)[0] == 0;
  }

  // ---------- The consumer

  lemma AckedLive(sm: Stream, done: set<nat>)
    ensures LiveSet(AckedAll(sm, done)) == LiveSet(sm) - done
  {
  }

  /** Claiming a batch and acknowledging it leaves the stream as if it had just been acknowledged. */
  lemma ReclaimedAcked(sm: Stream, now: nat, batch: seq<nat>)
    ensures AckedAll(Reclaimed(sm, now, batch, {}), SetOf(batch)) == AckedAll(sm, SetOf(batch))
  {
    assert Reclaimed(sm, now, batch, {}).pending - SetOf(batch) == sm.pending - SetOf(batch);
  }

  /** One recovery pass: up to ten of the oldest idle entries, always starting over at the first. */
  method RecoveryPass(bus: Bus, h: Handler) returns (batch: seq<nat>)
    requires WellRecorded(bus.Contents())
    modifies bus`stream, bus`records, bus`queues
    ensures batch == Claimed(old(bus.stream), bus.clock)
    ensures bus.stream == AckedAll(old(bus.stream), SetOf(batch))
    ensures WellRecorded(bus.Contents()) && old(bus.records).Keys <= bus.records.Keys
    ensures forall i <- batch :: i < |bus.stream.log| && bus.stream.log[i].id in bus.records
    ensures DistinctIds(old(bus.Contents()), batch) ==>
      forall k | 0 <= k < |batch| ::
        FreshRecord(old(bus.records), bus.records, bus.clock, bus.stream.log[batch[k]], h)
  {
    var idle := Idles(bus.stream, bus.clock);
    batch := idle[..Min(BATCH, |idle|)];
    PassEffect(bus.Contents(), bus.clock, batch, h);
    bus.stream := Reclaimed(bus.stream, bus.clock, batch, {});
    var ok, handled := bus.ProcessMessages(batch, h, Never);
  }

  /** What claiming and handling the batch leaves. */
  lemma PassEffect(s: Store, now: nat, batch: seq<nat>, h: Handler)
    requires WellRecorded(s) && batch == Claimed(s.stream, now)
    ensures var reclaimed := s.(stream := Reclaimed(s.stream, now, batch, {}));
      && InLog(reclaimed.stream, batch)
      && var s' := All(reclaimed, now, batch, h);
      && s'.stream == AckedAll(s.stream, SetOf(batch)) && WellRecorded(s') && s.records.Keys <= s'.records.Keys
      && (forall i <- batch :: i < |s'.stream.log| && s'.stream.log[i].id in s'.records)
      && (DistinctIds(s, batch) ==>
        forall k | 0 <= k < |batch| :: FreshRecord(s.records, s'.records, now, s.stream.log[batch[k]], h))
  {
    var idle, reclaimed := Idles(s.stream, now), s.(stream := Reclaimed(s.stream, now, batch, {}));
    InOrderExact(IdleSet(s.stream, now), 0, |s.stream.log|);
    assert forall k | 0 <= k < |batch| :: batch[k] in idle;
    AllAcknowledged(reclaimed, now, batch, h);
    AllCompleted(reclaimed, now, batch, h);
    RecordsStay(reclaimed, now, batch, h);
    ReclaimedAcked(s.stream, now, batch);
    if DistinctIds(s, batch) { AllFresh(reclaimed, now, batch, h); }
  }

  lemma {:induction false} RecordsStay(s: Store, now: nat, batch: seq<nat>, h: Handler)
    requires InLog(s.stream, batch)
    ensures s.records.Keys <= All(s, now, batch, h).records.Keys
  {
    if batch != [] { RecordsStay(s, now, batch[..|batch| - 1], h); }
  }

  /** The same entries are pending in what may have become a longer stream. */
  predicate SamePending(sm: Stream, sm': Stream) {
    sm'.pending == sm.pending && LiveSet(sm') == LiveSet(sm) && sm.log <= sm'.log
  }

  lemma SameLists(sm: Stream, sm': Stream, now: nat)
    requires SamePending(sm, sm') && forall i | i in sm.pending :: i < |sm.log|
    ensures Pendings(sm') == Pendings(sm) && Idles(sm', now) == Idles(sm, now) && Claimed(sm', now) == Claimed(sm, now)
    ensures Order(sm', now) == Order(sm, now)
  {
    assert IdleSet(sm', now) == IdleSet(sm, now) by {
      assert forall i | i in sm.pending :: i in LiveSet(sm') <==> i in LiveSet(sm);
    }
    InOrderLonger(LiveSet(sm), 0, |sm.log|, |sm'.log|);
    InOrderLonger(IdleSet(sm, now), 0, |sm.log|, |sm'.log|);
    InOrderLonger(LiveSet(sm) - SetOf(Claimed(sm, now)), 0, |sm.log|, |sm'.log|);
  }

  lemma AfterFirst(sm: Stream, now: nat)
    requires Consistent(sm, now)
    ensures Claimed(sm, now) == Order(sm, now)[..Taken(sm, now, 1)]
    ensures Pendings(AckedAll(sm, SetOf(Claimed(sm, now)))) == Order(sm, now)[Taken(sm, now, 1)..]
  {
    AckedLive(sm, SetOf(Claimed(sm, now)));
  }

  /** Five seconds after a pass everything still pending is idle, so the next pass takes the next ten. */
  lemma AfterNext(order: seq<nat>, taken: nat, sm: Stream, now: nat)
    requires taken <= |order| && Pendings(sm) == order[taken..] && IdleSet(sm, now) == LiveSet(sm)
    ensures var taken' := Min(|order|, taken + BATCH);
      && order[..taken] + Claimed(sm, now) == order[..taken']
      && Pendings(AckedAll(sm, SetOf(Claimed(sm, now)))) == order[taken'..]
  {
    var m := |Claimed(sm, now)|;
    AckedLive(sm, SetOf(Claimed(sm, now)));
    InOrderRest(LiveSet(sm), 0, |sm.log|, m);
    assert order[..taken + m] == order[..taken] + order[taken..][..m];
    assert order[taken..][m..] == order[taken + m..];
  }

  /** What happens before one turn of the loop: time passes, commands are published, old entries trimmed. */
  datatype Turn = Turn(elapsed: nat, arrivals: seq<Command>, trimmed: nat)

  function Published(sm: Stream, t: Turn): (sm': Stream) {
    sm.(log := sm.log + t.arrivals, trimmed := if sm.trimmed < t.trimmed then t.trimmed else sm.trimmed)
  }

  /** Trimming spares the pending entries. */
  predicate Spares(live: set<nat>, turns: seq<Turn>) {
    forall k | 0 <= k < |turns| :: forall i | i in live :: turns[k].trimmed <= i
  }

  lemma PublishedSame(sm: Stream, t: Turn)
    requires forall i | i in LiveSet(sm) :: t.trimmed <= i
    ensures SamePending(sm, Published(sm, t))
  {
  }

  /** The entry is acknowledged, and its command has a record. */
  predicate Done(sm: Stream, records: map<nat, Record>, i: nat) {
    i in sm.acked && i < |sm.log| && sm.log[i].id in records
  }

  /**
   * The read between passes: the first entry neither handed out nor trimmed, if
   * there is one, is handled, completed and acknowledged at once.
   */
  method ReadOne(bus: Bus, h: Handler) returns (read: Option<nat>)
    requires WellRecorded(bus.Contents()) && Consistent(bus.stream, bus.clock)
    modifies bus`stream, bus`records, bus`queues
    ensures WellRecorded(bus.Contents()) && Consistent(bus.stream, bus.clock) && SamePending(old(bus.stream), bus.stream)
    ensures old(bus.records).Keys <= bus.records.Keys
    ensures var sm := old(bus.stream);
      var i := if sm.delivered < sm.trimmed then sm.trimmed else sm.delivered;
      read == if i < |sm.log| then Some(i) else None
    ensures read.None? ==> bus.Contents() == old(bus.Contents())
    ensures read.Some? ==>
      var i, sm := read.value, old(bus.stream);
      && bus.stream == sm.(delivered := i + 1, acked := sm.acked + {i})
      && FreshRecord(old(bus.records), bus.records, bus.clock, sm.log[i], h)
      && sm.log[i].id in bus.queues && bus.queues[sm.log[i].id].items != []
      && bus.queues[sm.log[i].id].items[0] == bus.records[sm.log[i].id].result
  {
    var i := NextEntry(bus.stream);
    if i >= |bus.stream.log| { return None; }
    ReadEffect(bus.Contents(), bus.clock, i, h);
    bus.stream := HandedOut(bus.stream, bus.clock);
    var ok, handled := bus.ProcessMessages([i], h, Never);
    read := Some(i);
  }

  /** What handing out and handling one entry leaves. */
  lemma ReadEffect(s: Store, now: nat, i: nat, h: Handler)
    requires WellRecorded(s) && Consistent(s.stream, now) && i == NextEntry(s.stream) < |s.stream.log|
    ensures var s', c := All(s.(stream := HandedOut(s.stream, now)), now, [i], h), s.stream.log[i];
      && s'.stream == s.stream.(delivered := i + 1, acked := s.stream.acked + {i})
      && WellRecorded(s') && s.records.Keys <= s'.records.Keys && FreshRecord(s.records, s'.records, now, c, h)
      && c.id in s'.queues && s'.queues[c.id].items != [] && s'.queues[c.id].items[0] == s'.records[c.id].result
  {
    var handed := s.(stream := HandedOut(s.stream, now));
    assert [i][..0] == [];
    AllAcknowledged(handed, now, [i], h);
    AllRecorded(handed, now, [i], h, 0);
    RecordsStay(handed, now, [i], h);
    assert SetOf([i]) == {i} && handed.stream.pending - {i} == s.stream.pending;
  }

  /** Everything pending was handed out by the time of the last pass. */
  predicate NoneSince(sm: Stream, last: nat) { forall i | i in sm.pending :: sm.pending[i].at <= last }

  lemma AllIdle(sm: Stream, last: nat, now: nat)
    requires NoneSince(sm, last) && now >= last + PENDING_MIN_IDLE
    ensures IdleSet(sm, now) == LiveSet(sm)
  {
  }

  lemma AckedSame(sm: Stream, sm': Stream, done: set<nat>)
    requires SamePending(sm, sm')
    ensures SamePending(AckedAll(sm, done), AckedAll(sm', done))
  {
    AckedLive(sm, done);
    AckedLive(sm', done);
  }

  /** One turn of the loop: a pass if the last one is five seconds ago or there was none, then a read. */
  method TakeTurn(bus: Bus, h: Handler, t: Turn, last: Option<nat>) returns (pass: bool, batch: seq<nat>, read: Option<nat>)
    requires WellRecorded(bus.Contents()) && Consistent(bus.stream, bus.clock)
    requires last.Some? ==> last.value <= bus.clock && NoneSince(bus.stream, last.value)
    requires forall i | i in LiveSet(bus.stream) :: t.trimmed <= i
    modifies bus
    ensures bus.clock == old(bus.clock) + t.elapsed
    ensures pass <==> last.None? || bus.clock - last.value >= PENDING_MIN_IDLE
    ensures batch == if pass then Claimed(old(bus.stream), bus.clock) else []
    ensures SamePending(AckedAll(old(bus.stream), SetOf(batch)), bus.stream)
    ensures WellRecorded(bus.Contents()) && Consistent(bus.stream, bus.clock)
    ensures NoneSince(bus.stream, if pass then bus.clock else last.value)
    ensures forall i <- batch :: Done(bus.stream, bus.records, i)
    ensures Onward(old(bus.stream), old(bus.records), bus.stream, bus.records, t, read)
  {
    ghost var before := bus.stream;
    bus.clock := bus.clock + t.elapsed;
    PublishedSame(bus.stream, t);
    SameLists(bus.stream, Published(bus.stream, t), bus.clock);
    bus.stream := Published(bus.stream, t);
    ghost var published := bus.stream;
    pass, batch := last.None? || bus.clock - last.value >= PENDING_MIN_IDLE, [];
    if pass {
      batch := RecoveryPass(bus, h);
    } else {
      assert SetOf([]) == {} && AckedAll(published, {}) == published;
    }
    AckedSame(before, published, SetOf(batch));
    read := ReadOne(bus, h);
  }

  function Max(a: nat, b: nat): (m: nat) { if a < b then b else a }

  /** What a turn does to the front of the stream: arrivals at the end, trimming, and the next entry read and completed. */
  ghost predicate Onward(sm: Stream, records: map<nat, Record>, sm': Stream, records': map<nat, Record>, t: Turn,
    read: Option<nat>)
  {
    && sm'.log == sm.log + t.arrivals && sm'.trimmed == Max(sm.trimmed, t.trimmed)
    && sm.acked <= sm'.acked && records.Keys <= records'.Keys
    && var i := Max(sm.delivered, sm'.trimmed);
    && read == (if i < |sm'.log| then Some(i) else None)
    && sm'.delivered == (if read.Some? then i + 1 else sm.delivered)
    && (read.Some? ==> Done(sm', records', i))
  }

  /** After the given passes, the last at time last: so much of the order is recovered, and exactly the rest is pending. */
  ghost predicate Progress(order: seq<nat>, taken: nat, live: set<nat>, bus: Bus, last: nat, done: seq<nat>)
    reads bus
  {
    && WellRecorded(bus.Contents()) && Consistent(bus.stream, bus.clock) && last <= bus.clock && NoneSince(bus.stream, last)
    && LiveSet(bus.stream) <= live && taken <= |order|
    && done == order[..taken] && Pendings(bus.stream) == order[taken..]
    && forall i <- done :: Done(bus.stream, bus.records, i)
  }

  /** The first turn makes a pass, which fixes the order of recovery. */
  method FirstTurn(bus: Bus, h: Handler, t: Turn) returns (batch: seq<nat>, read: Option<nat>)
    requires WellRecorded(bus.Contents()) && Consistent(bus.stream, bus.clock)
    requires forall i | i in LiveSet(bus.stream) :: t.trimmed <= i
    modifies bus
    ensures bus.clock == old(bus.clock) + t.elapsed
    ensures var sm := old(bus.stream);
      Progress(Order(sm, bus.clock), Taken(sm, bus.clock, 1), LiveSet(sm), bus, bus.clock, batch)
    ensures Onward(old(bus.stream), old(bus.records), bus.stream, bus.records, t, read)
  {
    ghost var sm := bus.stream;
    var pass;
    pass, batch, read := TakeTurn(bus, h, t, None);
    AfterFirst(sm, bus.clock);
    SameLists(AckedAll(sm, SetOf(batch)), bus.stream, bus.clock);
    AckedLive(sm, SetOf(batch));
  }

  /** A later turn makes a pass if five seconds went by since the last, and that takes the next ten of the order. */
  method LaterTurn(bus: Bus, h: Handler, t: Turn, last: nat, done: seq<nat>,
                   ghost order: seq<nat>, ghost taken: nat, ghost live: set<nat>)
    returns (pass: bool, done': seq<nat>, read: Option<nat>)
    requires Progress(order, taken, live, bus, last, done) && forall i | i in live :: t.trimmed <= i
    modifies bus
    ensures bus.clock == old(bus.clock) + t.elapsed
    ensures pass <==> bus.clock - last >= PENDING_MIN_IDLE
    ensures Progress(order, if pass then Min(|order|, taken + BATCH) else taken, live, bus,
                     if pass then bus.clock else last, done')
    ensures Onward(old(bus.stream), old(bus.records), bus.stream, bus.records, t, read)
  {
    ghost var before := bus.stream;
    var batch;
    pass, batch, read := TakeTurn(bus, h, t, Some(last));
    AckedLive(before, SetOf(batch));
    SameLists(AckedAll(before, SetOf(batch)), bus.stream, bus.clock);
    if pass {
      AllIdle(before, last, bus.clock);
      AfterNext(order, taken, before, bus.clock);
    } else {
      assert SetOf(batch) == {} && AckedAll(before, {}) == before;
    }
    done' := done + batch;
  }

  // ---------- New entries over the turns

  /** How long the stream is, and how much of it is trimmed, before turn k reads. */
  function LengthAt(sm: Stream, turns: seq<Turn>, k: nat): (n: nat)
    requires k <= |turns|
  {
    if k == 0 then |sm.log| else LengthAt(sm, turns, k - 1) + |turns[k - 1].arrivals|
  }

  function TrimmedAt(sm: Stream, turns: seq<Turn>, k: nat): (n: nat)
    requires k <= |turns|
  {
    if k == 0 then sm.trimmed else Max(TrimmedAt(sm, turns, k - 1), turns[k - 1].trimmed)
  }

  /** Entry i waits to be read at turn k: in the stream by then, not handed out before and not trimmed. */
  predicate Waits(sm: Stream, turns: seq<Turn>, read: seq<Option<nat>>, k: nat, i: nat)
    requires k < |turns| && k <= |read|
  {
    sm.delivered <= i && TrimmedAt(sm, turns, k + 1) <= i < LengthAt(sm, turns, k + 1) && Some(i) !in read[..k]
  }

  /** Turn k read the first waiting entry, or there was none. */
  ghost predicate FirstWaiting(sm: Stream, turns: seq<Turn>, read: seq<Option<nat>>, k: nat)
    requires k < |turns| && k < |read|
  {
    match read[k]
    case Some(i) => Waits(sm, turns, read, k, i) && forall j | Waits(sm, turns, read, k, j) :: i <= j
    case None => forall j :: !Waits(sm, turns, read, k, j)
  }

  /** What was read so far is what lies between the old and the new mark, except what was trimmed. */
  ghost predicate ReadUpTo(sm: Stream, sm': Stream, turns: seq<Turn>, read: seq<Option<nat>>)
    requires |read| <= |turns|
  {
    && |sm'.log| == LengthAt(sm, turns, |read|) && sm'.trimmed == TrimmedAt(sm, turns, |read|)
    && sm.delivered <= sm'.delivered
    && (forall k | 0 <= k < |read| && read[k].Some? :: sm.delivered <= read[k].value < sm'.delivered)
    && (forall i | sm.delivered <= i < sm'.delivered :: Some(i) in read || i < sm'.trimmed)
  }

  lemma OneMoreRead(sm: Stream, sm1: Stream, sm2: Stream, records: map<nat, Record>, records': map<nat, Record>,
                    turns: seq<Turn>, read: seq<Option<nat>>, next: Option<nat>)
    requires |read| < |turns| && ReadUpTo(sm, sm1, turns, read)
    requires Onward(sm1, records, sm2, records', turns[|read|], next)
    ensures ReadUpTo(sm, sm2, turns, read + [next]) && FirstWaiting(sm, turns, read + [next], |read|)
  {
    var n, all := |read|, read + [next];
    assert all[..n] == read;
    forall i: nat ensures Waits(sm, turns, all, n, i) <==> Max(sm1.delivered, sm2.trimmed) <= i < |sm2.log| {
      assert sm.delivered <= i < sm1.delivered ==> Some(i) in read || i < sm1.trimmed;
    }
    forall i | sm.delivered <= i < sm2.delivered ensures Some(i) in all || i < sm2.trimmed {
      if i < sm1.delivered {
        assert Some(i) in read || i < sm1.trimmed;
      } else if i >= sm2.trimmed {
        assert all[n] == Some(i);
      }
    }
  }

  lemma StillFirst(sm: Stream, turns: seq<Turn>, read: seq<Option<nat>>, next: Option<nat>, k: nat)
    requires k < |read| < |turns| && FirstWaiting(sm, turns, read, k)
    ensures FirstWaiting(sm, turns, read + [next], k)
  {
    assert (read + [next])[..k] == read[..k];
    assert forall i :: Waits(sm, turns, read + [next], k, i) <==> Waits(sm, turns, read, k, i);
  }

  /** The entries read are completed, and each turn read the first that waited. */
  ghost predicate InTurn(sm: Stream, sm': Stream, records: map<nat, Record>, turns: seq<Turn>, read: seq<Option<nat>>)
    requires |read| <= |turns|
  {
    && ReadUpTo(sm, sm', turns, read)
    && (forall k | 0 <= k < |read| && read[k].Some? :: Done(sm', records, read[k].value))
    && forall k | 0 <= k < |read| :: FirstWaiting(sm, turns, read, k)
  }

  lemma NextTurn(sm: Stream, sm1: Stream, sm2: Stream, records: map<nat, Record>, records': map<nat, Record>,
                 turns: seq<Turn>, read: seq<Option<nat>>, next: Option<nat>)
    requires |read| < |turns| && InTurn(sm, sm1, records, turns, read)
    requires Onward(sm1, records, sm2, records', turns[|read|], next)
    ensures InTurn(sm, sm2, records', turns, read + [next])
  {
    OneMoreRead(sm, sm1, sm2, records, records', turns, read, next);
    forall k | 0 <= k < |read| ensures FirstWaiting(sm, turns, read + [next], k) {
      StillFirst(sm, turns, read, next, k);
    }
    forall k | 0 <= k < |read| && read[k].Some? ensures Done(sm2, records', read[k].value) {
      assert Done(sm1, records, read[k].value);
    }
  }

  /**
   * The loop without store errors.  Its first turn makes a pass; p passes have
   * recovered the first Taken(p) entries of the order fixed by that first one,
   * and exactly the rest is still pending.  Each turn also reads and completes
   * the first entry that waits to be read, arrivals included, if there is one.
   */
  method RunConsumer(bus: Bus, h: Handler, turns: seq<Turn>)
    returns (passes: nat, done: seq<nat>, read: seq<Option<nat>>)
    requires WellRecorded(bus.Contents()) && Consistent(bus.stream, bus.clock)
    requires Spares(LiveSet(bus.stream), turns)
    modifies bus
    ensures turns == [] <==> passes == 0
    ensures passes <= |turns|
    ensures turns != [] ==>
      var sm, now := old(bus.stream), old(bus.clock) + turns[0].elapsed;
      && done == Order(sm, now)[..Taken(sm, now, passes)]
      && Pendings(bus.stream) == Order(sm, now)[Taken(sm, now, passes)..]
      && forall i <- done :: Done(bus.stream, bus.records, i)
    ensures (forall k | 0 <= k < |turns| :: turns[k].elapsed >= PENDING_MIN_IDLE) ==> passes == |turns|
    ensures |read| == |turns| && InTurn(old(bus.stream), bus.stream, bus.records, turns, read)
  {
    passes, done, read := 0, [], [];
    if turns == [] { return; }
    ghost var sm, records := bus.stream, bus.records;
    var next;
    done, next := FirstTurn(bus, h, turns[0]);
    var last: nat := bus.clock;
    ghost var now := last;
    NextTurn(sm, sm, bus.stream, records, bus.records, turns, [], next);
    passes, read := 1, [] + [next];
    while |read| < |turns|
      invariant 1 <= passes <= |read| <= |turns|
      invariant Progress(Order(sm, now), Taken(sm, now, passes), LiveSet(sm), bus, last, done)
      invariant (forall j | 0 <= j < |read| :: turns[j].elapsed >= PENDING_MIN_IDLE) ==> passes == |read|
      invariant InTurn(sm, bus.stream, bus.records, turns, read)
    {
      ghost var before, were := bus.stream, bus.records;
      var pass;
      pass, done, next :=
        LaterTurn(bus, h, turns[|read|], last, done, Order(sm, now), Taken(sm, now, passes), LiveSet(sm));
      NextTurn(sm, before, bus.stream, were, bus.records, turns, read, next);
      if pass {
        passes, last := passes + 1, bus.clock;
      }
      read := read + [next];
    }
  }
}
