/**
 * The in-process registry and how far it agrees with the Redis one.  It keeps
 * expired leases until something touches their station, and its clock is the
 * store's millisecond clock read in nanoseconds.
 */
module MemoryRegistry {
  import opened Leases
  import R = RedisRegistry

  datatype State = State(generation: nat, leases: map<string, Lease>)

  /** lease.ExpiresAt.After(now) */
  predicate Unexpired(l: Lease, now: nat) { l.expiresAt > now * NANOS_PER_MS }

  predicate Names(l: Lease, owner: string, generation: nat) { l.owner == owner && l.generation == generation }

  predicate ValidArguments(station: string, owner: string, ttl: int) { station != "" && owner != "" && ttl > 0 }

  function ClaimResult(m: State, now: nat, station: string, owner: string, ttl: int): (r: (State, Outcome)) {
    if !ValidArguments(station, owner, ttl) then (m, InvalidArgument)
    else if station in m.leases && Unexpired(m.leases[station], now) then
      (m, OwnershipConflict(m.leases[station]))
    else
      var lease := Lease(station, owner, m.generation + 1, now * NANOS_PER_MS + ttl);
      (State(m.generation + 1, m.leases[station := lease]), Held(lease))
  }

  function RenewResult(m: State, now: nat, lease: Lease, ttl: int): (r: (State, Outcome)) {
    if !ValidArguments(lease.station, lease.owner, ttl) then (m, InvalidArgument)
    else if lease.station !in m.leases || !Unexpired(m.leases[lease.station], now)
            || !Names(m.leases[lease.station], lease.owner, lease.generation) then
      (m.(leases := m.leases - {lease.station}), LeaseLost)
    else
      var renewed := m.leases[lease.station].(expiresAt := now * NANOS_PER_MS + ttl);
      (m.(leases := m.leases[lease.station := renewed]), Held(renewed))
  }

  function ReleaseResult(m: State, lease: Lease): (r: (State, Outcome)) {
    if lease.station !in m.leases then (m, Done)
    else if !Names(m.leases[lease.station], lease.owner, lease.generation) then (m, LeaseLost)
    else (m.(leases := m.leases - {lease.station}), Done)
  }

  function LookupResult(m: State, now: nat, station: string): (r: (State, Outcome)) {
    if station == "" then (m, InvalidArgument)
    else if station !in m.leases || !Unexpired(m.leases[station], now) then
      (m.(leases := m.leases - {station}), NotFound)
    else (m, Held(m.leases[station]))
  }

  class Memory {
    var generation: nat
    var leases: map<string, Lease>
    var clock: nat

    ghost function Contents(): (m: State)
      reads this
    {
      State(generation, leases)
    }

    constructor ()
      ensures Contents() == State(0, map[])
    {
      generation, leases := 0, map[];
    }

    method Claim(cancelled: bool, station: string, owner: string, ttl: int) returns (r: Outcome)
      modifies `generation, `leases
      ensures (Contents(), r) ==
        if cancelled then (old(Contents()), ContextDone) else ClaimResult(old(Contents()), clock, station, owner, ttl)
      ensures r.Held? <==>
        && !cancelled && station != "" && owner != "" && ttl > 0
        && (station !in old(leases) || old(leases)[station].expiresAt <= clock * 1_000_000)
      ensures r.Held? ==>
        && r.lease == Lease(station, owner, old(generation) + 1, clock * 1_000_000 + ttl)
        && generation == old(generation) + 1 && leases == old(leases)[station := r.lease]
      ensures !r.Held? ==> generation == old(generation) && leases == old(leases)
    {
      if cancelled { return ContextDone; }
      if station == "" || owner == "" || ttl <= 0 { return InvalidArgument; }
      if station in leases {
        var current := leases[station];
        if current.expiresAt > clock * NANOS_PER_MS { return OwnershipConflict(current); }
      }
      generation := generation + 1;
      var lease := Lease(station, owner, generation, clock * NANOS_PER_MS + ttl);
      leases := leases[station := lease];
      r := Held(lease);
    }

    method Renew(cancelled: bool, lease: Lease, ttl: int) returns (r: Outcome)
      modifies `leases
      ensures (Contents(), r) ==
        if cancelled then (old(Contents()), ContextDone) else RenewResult(old(Contents()), clock, lease, ttl)
      ensures r.Held? <==>
        && !cancelled && lease.station != "" && lease.owner != "" && ttl > 0 && lease.station in old(leases)
        && old(leases)[lease.station].expiresAt > clock * 1_000_000
        && old(leases)[lease.station].owner == lease.owner && old(leases)[lease.station].generation == lease.generation
      ensures r.Held? ==>
        && r.lease == old(leases)[lease.station].(expiresAt := clock * 1_000_000 + ttl)
        && leases == old(leases)[lease.station := r.lease]
      ensures !r.Held? ==> leases == if r == LeaseLost then old(leases) - {lease.station} else old(leases)
    {
      if cancelled { return ContextDone; }
      if lease.station == "" || lease.owner == "" || ttl <= 0 { return InvalidArgument; }
      if lease.station !in leases || leases[lease.station].expiresAt <= clock * NANOS_PER_MS
         || leases[lease.station].owner != lease.owner || leases[lease.station].generation != lease.generation {
        leases := leases - {lease.station};
        return LeaseLost;
      }
      var current := leases[lease.station].(expiresAt := clock * NANOS_PER_MS + ttl);
      leases := leases[lease.station := current];
      r := Held(current);
    }

    method Release(cancelled: bool, lease: Lease) returns (r: Outcome)
      modifies `leases
      ensures (Contents(), r) ==
        if cancelled then (old(Contents()), ContextDone) else ReleaseResult(old(Contents()), lease)
      ensures r == Done <==>
        && !cancelled
        && (lease.station in old(leases) ==>
          old(leases)[lease.station].owner == lease.owner && old(leases)[lease.station].generation == lease.generation)
      ensures leases == if r == Done then old(leases) - {lease.station} else old(leases)
    {
      if cancelled { return ContextDone; }
      if lease.station !in leases { return Done; }
      var current := leases[lease.station];
      if current.owner != lease.owner || current.generation != lease.generation { return LeaseLost; }
      leases := leases - {lease.station};
      r := Done;
    }

    method Lookup(cancelled: bool, station: string) returns (r: Outcome)
      modifies `leases
      ensures (Contents(), r) ==
        if cancelled then (old(Contents()), ContextDone) else LookupResult(old(Contents()), clock, station)
      ensures r.Held? <==>
        && !cancelled && station != "" && station in old(leases) && old(leases)[station].expiresAt > clock * 1_000_000
      ensures r.Held? ==> r.lease == old(leases)[station]
      ensures leases == if r == NotFound then old(leases) - {station} else old(leases)
    {
      if cancelled { return ContextDone; }
      if station == "" { return InvalidArgument; }
      if station !in leases || leases[station].expiresAt <= clock * NANOS_PER_MS {
        leases := leases - {station};
        return NotFound;
      }
      r := Held(leases[station]);
    }
  }

  // ---------- Agreement with the Redis registry

  datatype Call =
    | ClaimCall(station: string, owner: string, ttl: int)
    | RenewCall(lease: Lease, ttl: int)
    | ReleaseCall(lease: Lease)
    | LookupCall(station: string)
    | Wait(ms: nat)

  /** Both registries, and the lease table the key space stands for. */
  datatype Pair = Pair(now: nat, memory: State, space: R.Space, table: Table)

  /** Arguments both registries take at face value: names present, TTL in whole milliseconds. */
  predicate PlainCall(c: Call) {
    match c
    case ClaimCall(s, o, ttl) => s != "" && o != "" && ttl > 0 && ttl % NANOS_PER_MS == 0
    case RenewCall(l, ttl) => l.station != "" && l.owner != "" && ttl > 0 && ttl % NANOS_PER_MS == 0
    case ReleaseCall(_) => true
    case LookupCall(s) => s != ""
    case Wait(_) => true
  }

  function OnMemory(m: State, now: nat, c: Call): (r: (State, Outcome)) {
    match c
    case ClaimCall(s, o, ttl) => ClaimResult(m, now, s, o, ttl)
    case RenewCall(l, ttl) => RenewResult(m, now, l, ttl)
    case ReleaseCall(l) => ReleaseResult(m, l)
    case LookupCall(s) => LookupResult(m, now, s)
    case Wait(_) => (m, Done)
  }

  /** The Redis client over the key space, Lookup's two reads at one instant. */
  function OnRedis(space: R.Space, now: nat, prefix: string, c: Call): (r: (R.Space, Outcome)) {
    match c
    case ClaimCall(s, o, ttl) => R.ClaimAnswer(space, now, prefix, s, o, ttl)
    case RenewCall(l, ttl) => R.RenewAnswer(space, now, prefix, l, ttl)
    case ReleaseCall(l) => R.ReleaseAnswer(space, now, prefix, l)
    case LookupCall(s) => (space, R.LookupAnswer(space, now, prefix, s))
    case Wait(_) => (space, Done)
  }

  function OnTable(t: Table, now: nat, c: Call): (r: (Table, Outcome)) {
    match c
    case ClaimCall(s, o, ttl) => R.TableClaim(t, now, s, o, ttl)
    case RenewCall(l, ttl) => R.TableRenew(t, now, l, ttl)
    case ReleaseCall(l) => R.TableRelease(t, now, l)
    case LookupCall(s) => (t, R.TableLookup(t, now, s))
    case Wait(_) => (t, Done)
  }

  function Next(p: Pair, prefix: string, c: Call): (q: Pair) {
    Pair(if c.Wait? then p.now + c.ms else p.now, OnMemory(p.memory, p.now, c).0,
         OnRedis(p.space, p.now, prefix, c).0, OnTable(p.table, p.now, c).0)
  }

  /** Whatever the call, the key space goes on standing for the table and answers as the table does. */
  lemma RedisFollowsTable(p: Pair, prefix: string, c: Call)
    requires R.Represents(p.space, p.now, prefix, p.table)
    ensures var q := Next(p, prefix, c); R.Represents(q.space, q.now, prefix, q.table)
    ensures OnRedis(p.space, p.now, prefix, c).1 == OnTable(p.table, p.now, c).1
  {
    match c
    case ClaimCall(s, o, ttl) => R.ClaimAnswered(p.space, p.now, prefix, p.table, s, o, ttl);
    case RenewCall(l, ttl) => R.RenewAnswered(p.space, p.now, prefix, p.table, l, ttl);
    case ReleaseCall(l) => R.ReleaseAnswered(p.space, p.now, prefix, p.table, l);
    case LookupCall(s) => R.LookupAnswered(p.space, p.now, prefix, p.table, s);
    case Wait(ms) => R.RepresentsLater(p.space, p.now, p.now + ms, prefix, p.table);
  }

  predicate AgreeOn(p: Pair, s: string) {
    var m, t := p.memory, p.table;
    && ((s in m.leases && Unexpired(m.leases[s], p.now)) <==> Live(t, p.now, s))
    && (Live(t, p.now, s) ==>
      m.leases[s] == Lease(s, t.cells[s].owner, t.cells[s].generation, t.cells[s].deadline * NANOS_PER_MS))
  }

  /** Same counter, and filtering out what has expired the same leases of every station but the counter's name. */
  ghost predicate SameLeases(p: Pair) {
    && p.memory.generation == p.table.counter && (p.memory.generation == 0 ==> p.memory.leases == map[])
    && COUNTER_STATION !in p.table.cells
    && forall s :: s != COUNTER_STATION ==> AgreeOn(p, s)
  }

  ghost predicate Agree(p: Pair, prefix: string) {
    R.Represents(p.space, p.now, prefix, p.table) && SameLeases(p)
  }

  predicate SameAnswer(p: Pair, prefix: string, c: Call) {
    OnMemory(p.memory, p.now, c).1 == OnRedis(p.space, p.now, prefix, c).1
  }

  /** A renewal that names a generation other than the one now holding the station. */
  predicate StaleRenewal(p: Pair, c: Call) {
    c.RenewCall? && Live(p.table, p.now, c.lease.station) &&
    !Holds(p.table, p.now, c.lease.station, c.lease.owner, c.lease.generation)
  }

  /** A release of a station with no live lease, unless memory still keeps another holder's expired one. */
  predicate LateRelease(p: Pair, c: Call) {
    c.ReleaseCall? && !Live(p.table, p.now, c.lease.station) &&
    (c.lease.station in p.memory.leases ==>
      Names(p.memory.leases[c.lease.station], c.lease.owner, c.lease.generation))
  }

  /** A claim of the counter's name that memory grants although other generations were drawn. */
  predicate SplitsCounters(p: Pair, c: Call) {
    && c.ClaimCall? && c.station == COUNTER_STATION && p.table.counter > 0
    && !(c.station in p.memory.leases && Unexpired(p.memory.leases[c.station], p.now))
  }

  /** A claim of the counter's name, or any other call about it once a generation was drawn. */
  predicate CounterError(p: Pair, c: Call) {
    !c.Wait? && StationOf(c) == COUNTER_STATION && (c.ClaimCall? || p.table.counter > 0)
  }

  lemma LeasesKept(p: Pair, prefix: string, c: Call)
    requires SameLeases(p) && PlainCall(c)
    ensures SameLeases(Next(p, prefix, c)) <==> !StaleRenewal(p, c) && !SplitsCounters(p, c)
  {
    var q, station := Next(p, prefix, c), StationOf(c);
    if station != COUNTER_STATION { assert AgreeOn(p, station); }
    if StaleRenewal(p, c) {
      assert station != COUNTER_STATION && !AgreeOn(q, station);
    } else {
      forall s | s != COUNTER_STATION ensures AgreeOn(q, s) { assert AgreeOn(p, s); }
    }
  }

  lemma AnswersAgree(p: Pair, c: Call)
    requires SameLeases(p) && PlainCall(c)
    ensures OnMemory(p.memory, p.now, c).1 == OnTable(p.table, p.now, c).1 <==> !LateRelease(p, c) && !CounterError(p, c)
    ensures LateRelease(p, c) && !CounterError(p, c) ==>
      OnMemory(p.memory, p.now, c).1 == Done && OnTable(p.table, p.now, c).1 == LeaseLost
    ensures CounterError(p, c) ==> OnTable(p.table, p.now, c).1 == StoreError
  {
    if StationOf(c) != COUNTER_STATION { assert AgreeOn(p, StationOf(c)); }
  }

  /**
   * One call keeps the two registries in agreement exactly when it is neither a
   * stale renewal of a live lease nor a claim of "generation" that splits the
   * counters, and is answered alike exactly when it is neither a late release
   * nor a call about "generation" that meets the counter.
   */
  lemma CallAgreement(p: Pair, prefix: string, c: Call)
    requires Agree(p, prefix) && PlainCall(c)
    ensures Agree(Next(p, prefix, c), prefix) <==> !StaleRenewal(p, c) && !SplitsCounters(p, c)
    ensures SameAnswer(p, prefix, c) <==> !LateRelease(p, c) && !CounterError(p, c)
    ensures LateRelease(p, c) && !CounterError(p, c) ==>
      OnMemory(p.memory, p.now, c).1 == Done && OnRedis(p.space, p.now, prefix, c).1 == LeaseLost
    ensures CounterError(p, c) ==> OnRedis(p.space, p.now, prefix, c).1 == StoreError
  {
    RedisFollowsTable(p, prefix, c);
    LeasesKept(p, prefix, c);
    AnswersAgree(p, c);
  }

  /**
   * What a claim of "generation" does: memory treats it as any station, Redis
   * always fails; memory's counter moves when it grants, Redis's only from zero.
   */
  lemma ClaimOfCounterName(p: Pair, prefix: string, o: string, ttl: int)
    requires Agree(p, prefix) && PlainCall(ClaimCall(COUNTER_STATION, o, ttl))
    ensures var c := ClaimCall(COUNTER_STATION, o, ttl);
      && var q := Next(p, prefix, c);
      && var taken := COUNTER_STATION in p.memory.leases && Unexpired(p.memory.leases[COUNTER_STATION], p.now);
      && OnRedis(p.space, p.now, prefix, c).1 == StoreError
      && (taken <==> OnMemory(p.memory, p.now, c).1.OwnershipConflict?) && (!taken <==> OnMemory(p.memory, p.now, c).1.Held?)
      && q.memory.generation == p.memory.generation + (if taken then 0 else 1)
      && q.table.counter == (if p.table.counter == 0 then 1 else p.table.counter)
  {
    RedisFollowsTable(p, prefix, ClaimCall(COUNTER_STATION, o, ttl));
  }

  function StationOf(c: Call): (s: string) {
    match c
    case ClaimCall(s, _, _) => s
    case RenewCall(l, _) => l.station
    case ReleaseCall(l) => l.station
    case LookupCall(s) => s
    case Wait(_) => ""
  }

  function After(prefix: string, calls: seq<Call>): (p: Pair) {
    if calls == [] then Pair(0, State(0, map[]), map[], EMPTY)
    else Next(After(prefix, calls[..|calls| - 1]), prefix, calls[|calls| - 1])
  }

  predicate AllPlain(calls: seq<Call>) { forall i | 0 <= i < |calls| :: PlainCall(calls[i]) }

  /** No call of the history is one of those that part the two. */
  predicate Harmless(prefix: string, calls: seq<Call>) {
    forall i | 0 <= i < |calls| ::
      !StaleRenewal(After(prefix, calls[..i]), calls[i]) && !SplitsCounters(After(prefix, calls[..i]), calls[i])
  }

  lemma HarmlessPart(prefix: string, calls: seq<Call>)
    requires AllPlain(calls) && Harmless(prefix, calls) && calls != []
    ensures var n := |calls| - 1;
      && AllPlain(calls[..n]) && Harmless(prefix, calls[..n]) && PlainCall(calls[n])
      && !StaleRenewal(After(prefix, calls[..n]), calls[n]) && !SplitsCounters(After(prefix, calls[..n]), calls[n])
  {
    var n := |calls| - 1;
    assert forall i | 0 <= i < n :: calls[..n][..i] == calls[..i] && calls[..n][i] == calls[i];
  }

  lemma {:induction false} StillAgree(prefix: string, calls: seq<Call>)
    requires AllPlain(calls) && Harmless(prefix, calls)
    ensures Agree(After(prefix, calls), prefix)
  {
    if calls != [] {
      var n := |calls| - 1;
      HarmlessPart(prefix, calls);
      StillAgree(prefix, calls[..n]);
      CallAgreement(After(prefix, calls[..n]), prefix, calls[n]);
    }
  }

  /**
   * Over whole histories of calls to the two clients: as long as no call parts
   * them, every further call but a late release, and but those about
   * "generation" that fail on Redis, gets the same answer, generation included.
   */
  lemma MemorySimulatesRedis(prefix: string, calls: seq<Call>, c: Call)
    requires AllPlain(calls) && Harmless(prefix, calls) && PlainCall(c)
    ensures Agree(After(prefix, calls), prefix)
    ensures SameAnswer(After(prefix, calls), prefix, c) <==>
      !LateRelease(After(prefix, calls), c) && !CounterError(After(prefix, calls), c)
  {
    StillAgree(prefix, calls);
    CallAgreement(After(prefix, calls), prefix, c);
  }

  /** The calls each registry refuses unread: both change nothing, and the Redis client looks at less. */
  lemma RefusedIff(m: State, space: R.Space, now: nat, prefix: string, c: Call)
    ensures OnMemory(m, now, c).1 == InvalidArgument <==>
      || (c.ClaimCall? && (c.station == "" || c.owner == "" || c.ttl <= 0))
      || (c.RenewCall? && (c.lease.station == "" || c.lease.owner == "" || c.ttl <= 0))
      || (c.LookupCall? && c.station == "")
    ensures OnRedis(space, now, prefix, c).1 == InvalidArgument <==>
      || (c.ClaimCall? && (c.station == "" || c.owner == "" || c.ttl <= 0))
      || (c.RenewCall? && c.ttl <= 0)
    ensures OnMemory(m, now, c).1 == InvalidArgument ==> OnMemory(m, now, c).0 == m
    ensures OnRedis(space, now, prefix, c).1 == InvalidArgument ==> OnRedis(space, now, prefix, c).0 == space
  {
  }

  /** Whole milliseconds are needed: any other TTL makes the two lapse at different times. */
  lemma WholeMillisecondsIff(now: nat, ttl: nat)
    ensures
      (forall later: nat :: later * NANOS_PER_MS < now * NANOS_PER_MS + ttl <==> later < now + Milliseconds(ttl))
      <==> ttl % NANOS_PER_MS == 0
  {
    var lapse := now + Milliseconds(ttl);
    assert lapse * NANOS_PER_MS < now * NANOS_PER_MS + ttl <==> ttl % NANOS_PER_MS != 0;
  }
}
