/**
 * The registry scripts over the raw keyspace: typed values under string keys,
 * with the script's own order of reads and writes and no rollback when a
 * command inside it fails.  They carry out the Leases operations, one by one and
 * over whole histories.
 */
module RedisRegistry {
  import opened Base
  import opened Leases
  import opened Decimal
  import H = LeaseHistory
  import Keys

  datatype Content = Hash(owner: string, generation: string) | Number(n: int) | Other(content: string)

  datatype Slot = Slot(value: Content, deadline: Option<nat>)

  type Space = map<string, Slot>

  /** A script's answer; a command on a key of another type aborts the script. */
  datatype Reply<+T> = Reply(value: T) | WrongType

  predicate Exists(space: Space, now: nat, key: string) {
    key in space && (space[key].deadline.Some? ==> now < space[key].deadline.value)
  }

  function Pttl(space: Space, now: nat, key: string): (ms: int) {
    if !Exists(space, now, key) then -2
    else if space[key].deadline.None? then -1
    else space[key].deadline.value - now
  }

  /** INCR: a missing counter starts at 0. */
  function Incr(space: Space, now: nat, key: string): (r: (Space, Reply<int>)) {
    if !Exists(space, now, key) then (space[key := Slot(Number(1), None)], Reply(1))
    else
      match space[key].value
      case Number(n) => (space[key := Slot(Number(n + 1), space[key].deadline)], Reply(n + 1))
      case _ => (space, WrongType)
  }

  datatype RawClaim = RawClaim(claimed: bool, owner: string, generation: string, ms: int)

  function ClaimScript(space: Space, now: nat, leaseKey: string, counterKey: string, owner: string, ttl: nat)
    : (r: (Space, Reply<RawClaim>))
  {
    if Exists(space, now, leaseKey) then
      match space[leaseKey].value
      case Hash(o, g) => (space, Reply(RawClaim(false, o, g, Pttl(space, now, leaseKey))))
      case _ => (space, WrongType)
    else
      var (counted, generation) := Incr(space, now, counterKey);
      if generation.WrongType? then (space, WrongType)
      else if Exists(counted, now, leaseKey) then (counted, WrongType)
      else
        var text := Print(generation.value);
        (counted[leaseKey := Slot(Hash(owner, text), Some(now + ttl))], Reply(RawClaim(true, owner, text, ttl)))
  }

  /** The owner and generation fields, missing when the key is. */
  function HashFields(space: Space, now: nat, key: string): (r: Reply<Option<(string, string)>>) {
    if !Exists(space, now, key) then Reply(None)
    else
      match space[key].value
      case Hash(o, g) => Reply(Some((o, g)))
      case _ => WrongType
  }

  function RenewScript(space: Space, now: nat, leaseKey: string, owner: string, generation: string, ttl: nat)
    : (r: (Space, Reply<bool>))
  {
    match HashFields(space, now, leaseKey)
    case WrongType => (space, WrongType)
    case Reply(fields) =>
      if fields != Some((owner, generation)) then (space, Reply(false))
      else (space[leaseKey := Slot(space[leaseKey].value, Some(now + ttl))], Reply(true))
  }

  function ReleaseScript(space: Space, now: nat, leaseKey: string, owner: string, generation: string)
    : (r: (Space, Reply<bool>))
  {
    match HashFields(space, now, leaseKey)
    case WrongType => (space, WrongType)
    case Reply(fields) =>
      if fields != Some((owner, generation)) then (space, Reply(false))
      else (space - {leaseKey}, Reply(true))
  }

  // ---------- The keyspace represents a lease table

  function LeaseKey(prefix: string, s: string): (key: string) { Keys.Key(prefix, Keys.Lease(s)) }

  function CounterKey(prefix: string): (key: string) { Keys.Key(prefix, Keys.Counter) }

  predicate RepresentsCounter(space: Space, prefix: string, counter: nat) {
    var key := CounterKey(prefix);
    if key in space then counter > 0 && space[key] == Slot(Number(counter), None) else counter == 0
  }

  predicate RepresentsStation(space: Space, now: nat, prefix: string, t: Table, s: string) {
    var key := LeaseKey(prefix, s);
    && (Exists(space, now, key) <==> Live(t, now, s))
    && (Live(t, now, s) ==>
      space[key] == Slot(Hash(t.cells[s].owner, Print(t.cells[s].generation)), Some(t.cells[s].deadline)))
  }

  ghost predicate Represents(space: Space, now: nat, prefix: string, t: Table) {
    && RepresentsCounter(space, prefix, t.counter) && COUNTER_STATION !in t.cells
    && forall s :: s != COUNTER_STATION ==> RepresentsStation(space, now, prefix, t, s)
  }

  /** Expiry needs no step of its own: what represents a table now represents it at any later time. */
  lemma RepresentsLater(space: Space, now: nat, later: nat, prefix: string, t: Table)
    requires Represents(space, now, prefix, t) && now <= later
    ensures Represents(space, later, prefix, t)
  {
    forall s | s != COUNTER_STATION ensures RepresentsStation(space, later, prefix, t, s) {
      assert RepresentsStation(space, now, prefix, t, s);
    }
  }

  /** Writing one station's key, and perhaps the counter, leaves every other station as it was. */
  lemma OthersKept(space: Space, space': Space, now: nat, prefix: string, t: Table, t': Table, s: string)
    requires s != COUNTER_STATION && Represents(space, now, prefix, t)
    requires forall s' :: s' != s ==> (s' in t.cells <==> s' in t'.cells) && (s' in t.cells ==> t.cells[s'] == t'.cells[s'])
    requires forall key :: key != LeaseKey(prefix, s) && key != CounterKey(prefix) ==>
      (key in space <==> key in space') && (key in space ==> space[key] == space'[key])
    requires RepresentsStation(space', now, prefix, t', s)
    requires RepresentsCounter(space', prefix, t'.counter)
    ensures Represents(space', now, prefix, t')
  {
    forall s' | s' != COUNTER_STATION ensures RepresentsStation(space', now, prefix, t', s') {
      Keys.KeySeparation(prefix, Keys.Lease(s), Keys.Lease(s'));
      Keys.KeySeparation(prefix, Keys.Counter, Keys.Lease(s'));
      assert RepresentsStation(space, now, prefix, t, s');
    }
  }

  // ---------- Each script does what the operation does

  /** The text the script answers with, as the client reads it. */
  predicate Answers(reply: Reply<RawClaim>, outcome: ClaimReply, owner: string) {
    match outcome
    case Granted(g, ms) => reply == Reply(RawClaim(true, owner, Print(g), ms))
    case Conflict(o, g, ms) => reply == Reply(RawClaim(false, o, Print(g), ms))
    case Failed => reply == WrongType
  }

  /** A free station's script writes the counter and the lease. */
  lemma GrantScript(space: Space, now: nat, prefix: string, t: Table, s: string, o: string, ttl: nat)
    requires RepresentsCounter(space, prefix, t.counter) && RepresentsStation(space, now, prefix, t, s)
    requires s != COUNTER_STATION && !Live(t, now, s)
    ensures var text, lease, counter := Print(t.counter + 1), LeaseKey(prefix, s), CounterKey(prefix);
      ClaimScript(space, now, lease, counter, o, ttl) ==
        (space[counter := Slot(Number(t.counter + 1), None)][lease := Slot(Hash(o, text), Some(now + ttl))],
         Reply(RawClaim(true, o, text, ttl)))
  {
    Keys.KeySeparation(prefix, Keys.Lease(s), Keys.Counter);
  }

  lemma ClaimOther(space: Space, now: nat, prefix: string, t: Table, s: string, o: string, ttl: nat)
    requires Represents(space, now, prefix, t) && s != COUNTER_STATION
    ensures
      var (space', reply) := ClaimScript(space, now, LeaseKey(prefix, s), CounterKey(prefix), o, ttl);
      var (t', outcome) := Claim(t, now, s, o, ttl);
      Represents(space', now, prefix, t') && Answers(reply, outcome, o)
  {
    assert RepresentsStation(space, now, prefix, t, s);
    if !Live(t, now, s) {
      GrantScript(space, now, prefix, t, s, o, ttl);
      Keys.KeySeparation(prefix, Keys.Lease(s), Keys.Counter);
      var space' := ClaimScript(space, now, LeaseKey(prefix, s), CounterKey(prefix), o, ttl).0;
      OthersKept(space, space', now, prefix, t, Claim(t, now, s, o, ttl).0, s);
    }
  }

  /**
   * Station "generation": its lease key is the counter, so a claim of it is
   * never granted, and the first one burns a generation.
   */
  lemma ClaimCounter(space: Space, now: nat, prefix: string, t: Table, o: string, ttl: nat)
    requires Represents(space, now, prefix, t)
    ensures
      var (space', reply) := ClaimScript(space, now, LeaseKey(prefix, COUNTER_STATION), CounterKey(prefix), o, ttl);
      Represents(space', now, prefix, Claim(t, now, COUNTER_STATION, o, ttl).0) && reply == WrongType
  {
    Keys.KeySeparation(prefix, Keys.Lease(COUNTER_STATION), Keys.Counter);
    var space' := ClaimScript(space, now, LeaseKey(prefix, COUNTER_STATION), CounterKey(prefix), o, ttl).0;
    var t' := Claim(t, now, COUNTER_STATION, o, ttl).0;
    forall s | s != COUNTER_STATION ensures RepresentsStation(space', now, prefix, t', s) {
      Keys.KeySeparation(prefix, Keys.Counter, Keys.Lease(s));
      assert RepresentsStation(space, now, prefix, t, s);
    }
  }

  lemma ClaimRefines(space: Space, now: nat, prefix: string, t: Table, s: string, o: string, ttl: nat)
    requires Represents(space, now, prefix, t)
    ensures
      var (space', reply) := ClaimScript(space, now, LeaseKey(prefix, s), CounterKey(prefix), o, ttl);
      var (t', outcome) := Claim(t, now, s, o, ttl);
      Represents(space', now, prefix, t') && Answers(reply, outcome, o)
  {
    if s == COUNTER_STATION {
      ClaimCounter(space, now, prefix, t, o, ttl);
    } else {
      ClaimOther(space, now, prefix, t, s, o, ttl);
    }
  }

  /** The fields under a lease key; under the counter's own, an error as soon as a generation was drawn. */
  lemma FieldsMatch(space: Space, now: nat, prefix: string, t: Table, s: string, o: string, g: nat)
    requires Represents(space, now, prefix, t)
    ensures var fields := HashFields(space, now, LeaseKey(prefix, s));
      && (fields.WrongType? <==> s == COUNTER_STATION && t.counter > 0)
      && (fields.Reply? ==> (fields.value == Some((o, Print(g))) <==> Holds(t, now, s, o, g)))
      && (fields.Reply? ==> (fields.value.None? <==> !Live(t, now, s)))
      && (Live(t, now, s) ==> fields == Reply(Some((t.cells[s].owner, Print(t.cells[s].generation)))))
  {
    if s == COUNTER_STATION {
      Keys.KeySeparation(prefix, Keys.Lease(s), Keys.Counter);
    } else {
      assert RepresentsStation(space, now, prefix, t, s);
      if Live(t, now, s) && Print(t.cells[s].generation) == Print(g) { PrintInjective(t.cells[s].generation, g); }
    }
  }

  /** A script that only compares fails on the counter's key and otherwise answers as the operation does. */
  function Compared(t: Table, s: string, outcome: bool): (r: Reply<bool>) {
    if s == COUNTER_STATION && t.counter > 0 then WrongType else Reply(outcome)
  }

  lemma RenewRefines(space: Space, now: nat, prefix: string, t: Table, s: string, o: string, g: nat, ttl: nat)
    requires Represents(space, now, prefix, t)
    ensures
      var (space', reply) := RenewScript(space, now, LeaseKey(prefix, s), o, Print(g), ttl);
      var (t', outcome) := Renew(t, now, s, o, g, ttl);
      Represents(space', now, prefix, t') && reply == Compared(t, s, outcome)
  {
    FieldsMatch(space, now, prefix, t, s, o, g);
    var (space', reply) := RenewScript(space, now, LeaseKey(prefix, s), o, Print(g), ttl);
    var (t', outcome) := Renew(t, now, s, o, g, ttl);
    if outcome {
      Keys.KeySeparation(prefix, Keys.Lease(s), Keys.Counter);
      OthersKept(space, space', now, prefix, t, t', s);
    }
  }

  lemma ReleaseRefines(space: Space, now: nat, prefix: string, t: Table, s: string, o: string, g: nat)
    requires Represents(space, now, prefix, t)
    ensures
      var (space', reply) := ReleaseScript(space, now, LeaseKey(prefix, s), o, Print(g));
      var (t', outcome) := Release(t, now, s, o, g);
      Represents(space', now, prefix, t') && reply == Compared(t, s, outcome)
  {
    FieldsMatch(space, now, prefix, t, s, o, g);
    var (space', reply) := ReleaseScript(space, now, LeaseKey(prefix, s), o, Print(g));
    var (t', outcome) := Release(t, now, s, o, g);
    if outcome {
      Keys.KeySeparation(prefix, Keys.Lease(s), Keys.Counter);
      OthersKept(space, space', now, prefix, t, t', s);
    }
  }

  // ---------- Whole histories of scripts

  datatype Server = Server(now: nat, space: Space)

  function Execute(v: Server, prefix: string, op: H.Op): (v': Server) {
    match op
    case Tick(ms) => v.(now := v.now + ms)
    case ClaimOp(s, o, ttl) =>
      v.(space := ClaimScript(v.space, v.now, LeaseKey(prefix, s), CounterKey(prefix), o, ttl).0)
    case RenewOp(s, o, g, ttl) => v.(space := RenewScript(v.space, v.now, LeaseKey(prefix, s), o, Print(g), ttl).0)
    case ReleaseOp(s, o, g) => v.(space := ReleaseScript(v.space, v.now, LeaseKey(prefix, s), o, Print(g)).0)
  }

  /** The server after the first i scripts and ticks, starting empty. */
  function ServerAt(prefix: string, ops: seq<H.Op>, i: nat): (v: Server)
    requires i <= |ops|
  {
    if i == 0 then Server(0, map[]) else Execute(ServerAt(prefix, ops, i - 1), prefix, ops[i - 1])
  }

  /** After any scripts and ticks, claims of "generation" included, the key space represents the table of that history. */
  lemma {:induction false} ScriptsFollowHistory(prefix: string, ops: seq<H.Op>, i: nat)
    requires i <= |ops|
    ensures var v, p := ServerAt(prefix, ops, i), H.At(H.START, ops, i);
      v.now == p.now && Represents(v.space, v.now, prefix, p.table)
  {
    if i > 0 {
      var v, p := ServerAt(prefix, ops, i - 1), H.At(H.START, ops, i - 1);
      ScriptsFollowHistory(prefix, ops, i - 1);
      match ops[i - 1]
      case Tick(ms) => RepresentsLater(v.space, v.now, v.now + ms, prefix, p.table);
      case ClaimOp(s, o, ttl) => ClaimRefines(v.space, v.now, prefix, p.table, s, o, ttl);
      case RenewOp(s, o, g, ttl) => RenewRefines(v.space, v.now, prefix, p.table, s, o, g, ttl);
      case ReleaseOp(s, o, g) => ReleaseRefines(v.space, v.now, prefix, p.table, s, o, g);
    }
  }

  /** A reader of station s's lease key sees owner o and generation g. */
  predicate Shows(v: Server, prefix: string, s: string, o: string, g: nat) {
    HashFields(v.space, v.now, LeaseKey(prefix, s)) == Reply(Some((o, Print(g))))
  }

  lemma ShowsHolder(prefix: string, ops: seq<H.Op>, i: nat, s: string, o: string, g: nat)
    requires i <= |ops|
    ensures var p := H.At(H.START, ops, i);
      Shows(ServerAt(prefix, ops, i), prefix, s, o, g) <==> Holds(p.table, p.now, s, o, g)
  {
    ScriptsFollowHistory(prefix, ops, i);
    FieldsMatch(ServerAt(prefix, ops, i).space, ServerAt(prefix, ops, i).now, prefix, H.At(H.START, ops, i).table, s, o, g);
  }

  /** What readers of one lease key see over time: generations never go back, and one is shown without a break. */
  lemma ReadersSeeIntervals(prefix: string, ops: seq<H.Op>, i: nat, k: nat, j: nat, s: string,
                            o: string, g: nat, o': string, h: nat)
    requires i <= k <= j <= |ops|
    requires Shows(ServerAt(prefix, ops, i), prefix, s, o, g) && Shows(ServerAt(prefix, ops, j), prefix, s, o', h)
    ensures g <= h
    ensures g == h ==> o == o' && Shows(ServerAt(prefix, ops, k), prefix, s, o, g)
  {
    ShowsHolder(prefix, ops, i, s, o, g);
    ShowsHolder(prefix, ops, j, s, o', h);
    ShowsHolder(prefix, ops, k, s, o, g);
    H.OccupancyIntervals(ops, i, j, k, s, g, h);
    H.OccupancyIntervals(ops, i, j, j, s, g, h);
  }

  /** A lease no longer shown was ended by time, by its own release or by its own empty renewal, and never comes back. */
  lemma ShownUntilEnded(prefix: string, ops: seq<H.Op>, i: nat, j: nat, s: string, o: string, g: nat) returns (k: nat)
    requires i < j <= |ops|
    requires Shows(ServerAt(prefix, ops, i), prefix, s, o, g) && !Shows(ServerAt(prefix, ops, j), prefix, s, o, g)
    ensures i <= k < j && Shows(ServerAt(prefix, ops, k), prefix, s, o, g)
    ensures ops[k].Tick? || ops[k] == H.ReleaseOp(s, o, g) || ops[k] == H.RenewOp(s, o, g, 0)
    ensures forall m | k < m <= j :: !Shows(ServerAt(prefix, ops, m), prefix, s, o, g)
  {
    ShowsHolder(prefix, ops, i, s, o, g);
    ShowsHolder(prefix, ops, j, s, o, g);
    H.AlwaysDrawn(H.START, ops, i);
    if H.Occupies(H.At(H.START, ops, j), s, g) {
      H.OccupancyIntervals(ops, i, j, j, s, g, g);
    }
    k := H.EveryEndHasItsCause(H.START, ops, i, j, s, g);
    H.OccupancyIntervals(ops, i, k, k, s, g, g);
    ShowsHolder(prefix, ops, k, s, o, g);
    forall m | k < m <= j ensures !Shows(ServerAt(prefix, ops, m), prefix, s, o, g) {
      ShowsHolder(prefix, ops, m, s, o, g);
    }
  }

  // ---------- The client

  /** The reply of the claim script as a lease or a conflict. */
  function Parsed(s: string, now: nat, reply: Reply<RawClaim>): (r: Outcome) {
    match reply
    case WrongType => StoreError
    case Reply(raw) =>
      var lease := Lease(s, raw.owner, ParseUint(raw.generation), (now + raw.ms) * NANOS_PER_MS);
      if raw.claimed then Held(lease) else OwnershipConflict(lease)
  }

  /** ttl in nanoseconds; the store receives it cut down to whole milliseconds. */
  function ClaimAnswer(space: Space, now: nat, prefix: string, s: string, o: string, ttl: int): (r: (Space, Outcome)) {
    if s == "" || o == "" || ttl <= 0 then (space, InvalidArgument)
    else
      var (space', reply) := ClaimScript(space, now, LeaseKey(prefix, s), CounterKey(prefix), o, Milliseconds(ttl));
      (space', Parsed(s, now, reply))
  }

  function RenewAnswer(space: Space, now: nat, prefix: string, l: Lease, ttl: int): (r: (Space, Outcome)) {
    if ttl <= 0 then (space, InvalidArgument)
    else
      var (space', reply) :=
        RenewScript(space, now, LeaseKey(prefix, l.station), l.owner, Print(l.generation), Milliseconds(ttl));
      (space', if reply.WrongType? then StoreError
               else if reply.value then Held(l.(expiresAt := now * NANOS_PER_MS + ttl)) else LeaseLost)
  }

  function ReleaseAnswer(space: Space, now: nat, prefix: string, l: Lease): (r: (Space, Outcome)) {
    var (space', reply) := ReleaseScript(space, now, LeaseKey(prefix, l.station), l.owner, Print(l.generation));
    (space', if reply.WrongType? then StoreError else if reply.value then Done else LeaseLost)
  }

  /** Both reads of Lookup at one instant. */
  function LookupAnswer(space: Space, now: nat, prefix: string, s: string): (r: Outcome) {
    var fields, remaining := HashFields(space, now, LeaseKey(prefix, s)), Pttl(space, now, LeaseKey(prefix, s));
    if fields.WrongType? then StoreError
    else if fields.value.None? || remaining <= 0 then NotFound
    else Held(Lease(s, fields.value.value.0, ParseUint(fields.value.value.1), (now + remaining) * NANOS_PER_MS))
  }

  // ---------- The same answers from the lease table

  function TableClaim(t: Table, now: nat, s: string, o: string, ttl: int): (r: (Table, Outcome)) {
    if s == "" || o == "" || ttl <= 0 then (t, InvalidArgument)
    else
      var (t', reply) := Claim(t, now, s, o, Milliseconds(ttl));
      match reply
      case Granted(g, ms) => (t', Held(Lease(s, o, g, (now + ms) * NANOS_PER_MS)))
      case Conflict(o', g, ms) => (t', OwnershipConflict(Lease(s, o', g, (now + ms) * NANOS_PER_MS)))
      case Failed => (t', StoreError)
  }

  /** The error every renewal, release and lookup of station "generation" meets once a generation was drawn. */
  predicate HitsCounter(t: Table, s: string) { s == COUNTER_STATION && t.counter > 0 }

  function TableRenew(t: Table, now: nat, l: Lease, ttl: int): (r: (Table, Outcome)) {
    if ttl <= 0 then (t, InvalidArgument)
    else
      var (t', kept) := Renew(t, now, l.station, l.owner, l.generation, Milliseconds(ttl));
      (t', if HitsCounter(t, l.station) then StoreError
           else if kept then Held(l.(expiresAt := now * NANOS_PER_MS + ttl)) else LeaseLost)
  }

  function TableRelease(t: Table, now: nat, l: Lease): (r: (Table, Outcome)) {
    var (t', gone) := Release(t, now, l.station, l.owner, l.generation);
    (t', if HitsCounter(t, l.station) then StoreError else if gone then Done else LeaseLost)
  }

  function TableLookup(t: Table, now: nat, s: string): (r: Outcome) {
    if HitsCounter(t, s) then StoreError
    else if Live(t, now, s) then
      Held(Lease(s, t.cells[s].owner, t.cells[s].generation, t.cells[s].deadline * NANOS_PER_MS))
    else NotFound
  }

  lemma ClaimAnswered(space: Space, now: nat, prefix: string, t: Table, s: string, o: string, ttl: int)
    requires Represents(space, now, prefix, t)
    ensures var (space', r), (t', r') := ClaimAnswer(space, now, prefix, s, o, ttl), TableClaim(t, now, s, o, ttl);
      Represents(space', now, prefix, t') && r == r'
  {
    if s != "" && o != "" && ttl > 0 {
      ClaimRefines(space, now, prefix, t, s, o, Milliseconds(ttl));
      var outcome := Claim(t, now, s, o, Milliseconds(ttl)).1;
      if !outcome.Failed? { ParseUintPrint(outcome.generation); }
    }
  }

  lemma RenewAnswered(space: Space, now: nat, prefix: string, t: Table, l: Lease, ttl: int)
    requires Represents(space, now, prefix, t)
    ensures var (space', r), (t', r') := RenewAnswer(space, now, prefix, l, ttl), TableRenew(t, now, l, ttl);
      Represents(space', now, prefix, t') && r == r'
  {
    if ttl > 0 {
      RenewRefines(space, now, prefix, t, l.station, l.owner, l.generation, Milliseconds(ttl));
    }
  }

  lemma ReleaseAnswered(space: Space, now: nat, prefix: string, t: Table, l: Lease)
    requires Represents(space, now, prefix, t)
    ensures var (space', r), (t', r') := ReleaseAnswer(space, now, prefix, l), TableRelease(t, now, l);
      Represents(space', now, prefix, t') && r == r'
  {
    ReleaseRefines(space, now, prefix, t, l.station, l.owner, l.generation);
  }

  lemma LookupAnswered(space: Space, now: nat, prefix: string, t: Table, s: string)
    requires Represents(space, now, prefix, t)
    ensures LookupAnswer(space, now, prefix, s) == TableLookup(t, now, s)
  {
    FieldsMatch(space, now, prefix, t, s, "", 0);
    if Live(t, now, s) {
      assert RepresentsStation(space, now, prefix, t, s);
      ParseUintPrint(t.cells[s].generation);
    }
  }

  /** The registry client: argument checks, one script per call, and the answer parsed. */
  class Registry {
    const prefix: string
    var space: Space
    var clock: nat

    constructor (prefix: string)
      ensures this.prefix == if prefix == "" then "csms" else prefix
      ensures space == map[] && clock == 0
      ensures Represents(space, clock, this.prefix, EMPTY)
    {
      this.prefix := if prefix == "" then "csms" else prefix;
      space, clock := map[], 0;
    }

    method Claim(station: string, owner: string, ttl: int, ghost t: Table) returns (r: Outcome)
      requires Represents(space, clock, prefix, t)
      modifies `space
      ensures (space, r) == ClaimAnswer(old(space), clock, prefix, station, owner, ttl)
      ensures Represents(space, clock, prefix, TableClaim(t, clock, station, owner, ttl).0)
      ensures r == TableClaim(t, clock, station, owner, ttl).1
    {
      ClaimAnswered(space, clock, prefix, t, station, owner, ttl);
      if station == "" || owner == "" || ttl <= 0 { return InvalidArgument; }
      var (space', reply) :=
        ClaimScript(space, clock, LeaseKey(prefix, station), CounterKey(prefix), owner, Milliseconds(ttl));
      space := space';
      if reply.WrongType? { return StoreError; }
      var RawClaim(claimed, o, text, ms) := reply.value;
      var lease := Lease(station, o, ParseUint(text), (clock + ms) * NANOS_PER_MS);
      if !claimed { return OwnershipConflict(lease); }
      r := Held(lease);
    }

    method Renew(lease: Lease, ttl: int, ghost t: Table) returns (r: Outcome)
      requires Represents(space, clock, prefix, t)
      modifies `space
      ensures (space, r) == RenewAnswer(old(space), clock, prefix, lease, ttl)
      ensures Represents(space, clock, prefix, TableRenew(t, clock, lease, ttl).0)
      ensures r == TableRenew(t, clock, lease, ttl).1
    {
      RenewAnswered(space, clock, prefix, t, lease, ttl);
      if ttl <= 0 { return InvalidArgument; }
      var (space', reply) := RenewScript(space, clock, LeaseKey(prefix, lease.station), lease.owner,
                                         Print(lease.generation), Milliseconds(ttl));
      space := space';
      if reply.WrongType? { return StoreError; }
      if !reply.value { return LeaseLost; }
      r := Held(lease.(expiresAt := clock * NANOS_PER_MS + ttl));
    }

    method Release(lease: Lease, ghost t: Table) returns (r: Outcome)
      requires Represents(space, clock, prefix, t)
      modifies `space
      ensures (space, r) == ReleaseAnswer(old(space), clock, prefix, lease)
      ensures Represents(space, clock, prefix, TableRelease(t, clock, lease).0)
      ensures r == TableRelease(t, clock, lease).1
    {
      ReleaseAnswered(space, clock, prefix, t, lease);
      var (space', reply) := ReleaseScript(space, clock, LeaseKey(prefix, lease.station), lease.owner,
                                           Print(lease.generation));
      space := space';
      if reply.WrongType? { return StoreError; }
      r := if reply.value then Done else LeaseLost;
    }

    /** First read of Lookup; an error for the counter's key. */
    method LookupFields(station: string, ghost t: Table) returns (found: Reply<Option<(string, string)>>)
      requires Represents(space, clock, prefix, t)
      ensures found ==
        if HitsCounter(t, station) then WrongType
        else if Live(t, clock, station) then
          Reply(Some((t.cells[station].owner, Print(t.cells[station].generation))))
        else Reply(None)
    {
      FieldsMatch(space, clock, prefix, t, station, "", 0);
      found := HashFields(space, clock, LeaseKey(prefix, station));
    }

    /** Second read of Lookup, at a later moment, joined with what the first one found. */
    method LookupRemaining(station: string, found: Option<(string, string)>, ghost t: Table, ghost g: nat)
      returns (r: Outcome)
      requires Represents(space, clock, prefix, t)
      requires found.Some? ==> station != COUNTER_STATION && found.value.1 == Print(g)
      ensures r == if found.Some? && Live(t, clock, station)
                   then Held(Lease(station, found.value.0, g, t.cells[station].deadline * NANOS_PER_MS))
                   else NotFound
    {
      var remaining := Pttl(space, clock, LeaseKey(prefix, station));
      assert station != COUNTER_STATION ==> RepresentsStation(space, clock, prefix, t, station);
      if found.None? || remaining <= 0 { return NotFound; }
      ParseUintPrint(g);
      r := Held(Lease(station, found.value.0, ParseUint(found.value.1), (clock + remaining) * NANOS_PER_MS));
    }
  }
}
