/**
 * The whole protocol: any number of runtimes owning sessions, one consumer
 * per runtime, and command API calls that look up an owner, publish to its
 * stream and wait for the result.  The number of an API call is the ID of
 * the command it may publish.
 */
module Protocol {
  import opened Base
  import opened Leases
  import O = Ownership
  import D = Delivery
  import R = DeliveryRuns

  /** What the first read of Lookup found, and how many grants had been made by then. */
  datatype Lookup = Lookup(station: string, owner: string, generation: nat, seen: nat)

  /** A runtime let a command through the ownership gate. */
  datatype Gate = Gate(runtime: string, id: nat, station: string, generation: nat)

  datatype ApiCall =
    | Looking(station: string)                     // admitted, owner not yet looked up
    | HashRead(station: string, found: bool)       // first read of Lookup done
    | Ready(station: string)                       // Lookup returned a lease
    | Built(created: nat)                          // command made, with its creation time
    | Waiting                                      // command published
    | Answered(status: nat)

  datatype State = State(
    own: O.State,
    bus: D.State,
    fetched: map<string, Option<nat>>,   // the entry a consumer took from the map inside owns
    calls: map<nat, ApiCall>,
    lookups: map<nat, Lookup>,
    gates: set<Gate>)

  const INITIAL := State(O.INITIAL, D.INITIAL, map[], map[], map[], {})

  datatype Action =
    | Tick(ms: nat)
    | Own(o: O.Action)
    | Bus(d: D.Action)
    | Crash(r: string)
    | FetchEntry(r: string)
    | PassGate(r: string)
    | Start(k: nat, station: string)
    | ReadHash(k: nat)
    | ReadTtl(k: nat)
    | LookupFails(k: nat)
    | Build(k: nat)
    | Publish(k: nat, trimmed: nat, fate: Fate)
    | Await(k: nat, fate: Fate)
    | TimeOut(k: nat)

  function GateOf(c: D.Command): (g: Gate) { Gate(c.owner, c.id, c.station, c.generation) }

  function CommandOf(st: State, k: nat): (c: D.Command)
    requires k in st.lookups && k in st.calls && st.calls[k].Built?
  {
    var l, created := st.lookups[k], st.calls[k].created;
    D.Command(k, l.station, l.owner, l.generation, created, created + D.COMMAND_TIMEOUT)
  }

  /** The gate's answer, from the local entry alone. */
  predicate Passes(st: State, r: string)
    requires r in st.fetched && D.Current(st.bus, r).Some?
  {
    var c := D.Current(st.bus, r).value;
    c.owner == r && st.fetched[r].Some? && O.Owns(O.Of(st.own, r), r, st.fetched[r].value, c.generation)
  }

  predicate Enabled(st: State, a: Action) {
    match a
    case Tick(_) => true
    case Own(o) => !o.Tick? && !o.Crash? && O.Enabled(st.own, o)
    case Bus(d) => !d.Tick? && !d.Publish? && !d.Gate? && !d.Pop? && D.Enabled(st.bus, d)
    case Crash(_) => true
    case FetchEntry(r) => D.Enabled(st.bus, D.Gate(r, true)) && r !in st.fetched
    case PassGate(r) =>
      && D.Enabled(st.bus, D.Gate(r, true)) && r in st.fetched
      && (var m := O.Of(st.own, r); st.fetched[r].Some? && st.fetched[r].value < |m.heap| ==>
        !m.heap[st.fetched[r].value].loop.Locked?)
    case Start(k, _) => k !in st.calls
    case ReadHash(k) => k in st.calls && st.calls[k].Looking?
    case ReadTtl(k) => k in st.calls && st.calls[k].HashRead?
    case LookupFails(k) => k in st.calls && (st.calls[k].Looking? || st.calls[k].HashRead?)
    case Build(k) => k in st.calls && st.calls[k].Ready?
    case Publish(k, trimmed, _) =>
      k in st.calls && st.calls[k].Built? && k in st.lookups && D.Enabled(st.bus, D.Publish(CommandOf(st, k), trimmed))
    case Await(k, _) => k in st.calls && st.calls[k].Waiting? && D.Enabled(st.bus, D.Pop(k))
    case TimeOut(k) => k in st.calls && st.calls[k].Waiting?
  }

  function Next(st: State, a: Action): (st': State)
    requires Enabled(st, a)
  {
    match a
    case Tick(ms) => st.(own := O.Step(st.own, O.Tick(ms)), bus := D.Step(st.bus, D.Tick(ms)))
    case Own(o) => st.(own := O.Step(st.own, o))
    case Bus(d) => st.(bus := D.Step(st.bus, d), fetched := if d.Abort? then st.fetched - {d.r} else st.fetched)
    case Crash(r) =>
      st.(own := O.Step(st.own, O.Crash(r)), bus := D.Step(st.bus, D.Abort(r)), fetched := st.fetched - {r})
    case FetchEntry(r) =>
      var s, m := D.Current(st.bus, r).value.station, O.Of(st.own, r);
      st.(fetched := st.fetched[r := if s in m.entries then Some(m.entries[s]) else None])
    case PassGate(r) =>
      var pass := Passes(st, r);
      st.(bus := D.Step(st.bus, D.Gate(r, pass)), fetched := st.fetched - {r},
          gates := if pass then st.gates + {GateOf(D.Current(st.bus, r).value)} else st.gates)
    case Start(k, s) => st.(calls := st.calls[k := Looking(s)])
    case ReadHash(k) =>
      var s := st.calls[k].station;
      if Live(st.own.table, st.own.now, s) then
        var cell := st.own.table.cells[s];
        st.(calls := st.calls[k := HashRead(s, true)],
            lookups := st.lookups[k := Lookup(s, cell.owner, cell.generation, |st.own.grants|)])
      else st.(calls := st.calls[k := HashRead(s, false)])
    case ReadTtl(k) =>
      var HashRead(s, found) := st.calls[k];
      st.(calls := st.calls[k := if found && Live(st.own.table, st.own.now, s) then Ready(s) else Answered(409)])
    case LookupFails(k) => st.(calls := st.calls[k := Answered(500)])
    case Build(k) => st.(calls := st.calls[k := Built(st.bus.now)])
    case Publish(k, trimmed, fate) =>
      st.(bus := if fate.Applied() then D.Step(st.bus, D.Publish(CommandOf(st, k), trimmed)) else st.bus,
          calls := st.calls[k := if fate.Acknowledged? then Waiting else Answered(503)])
    case Await(k, fate) =>
      var items := st.bus.queues[k].items;
      var result := items[|items| - 1];
      if fate.NotApplied? then st.(calls := st.calls[k := Answered(504)])
      else
        st.(bus := D.Step(st.bus, D.Pop(k)),
            calls := st.calls[k := Answered(if fate.ReplyLost? then 504 else if result.success then 200 else 409)])
    case TimeOut(k) => st.(calls := st.calls[k := Answered(504)])
  }

  function Exec(acts: seq<Action>): (st: State)
    requires Legal(acts)
    decreases |acts|, 1
  {
    if acts == [] then INITIAL else Next(Exec(acts[..|acts| - 1]), acts[|acts| - 1])
  }

  predicate Legal(acts: seq<Action>)
    decreases |acts|, 0
  {
    acts == [] || (Legal(acts[..|acts| - 1]) && Enabled(Exec(acts[..|acts| - 1]), acts[|acts| - 1]))
  }

  // ---------- What every step keeps

  /** A lookup returned a real grant, and none of the grants of that station made before it was newer. */
  predicate LookupInv(grants: seq<O.Stamp>, l: Lookup) {
    && l.generation <= l.seen <= |grants|
    && O.IsGrant(grants, O.Stamp(l.owner, l.station, l.generation))
    && forall i | 0 <= i < l.seen && grants[i].station == l.station :: grants[i].generation <= l.generation
  }

  function Get<K, V>(m: map<K, V>, k: K): (v: Option<V>) { if k in m then Some(m[k]) else None }

  /** What is known of one API call, its lookup and its command. */
  predicate TraceInv(grants: seq<O.Stamp>, call: Option<ApiCall>, l: Option<Lookup>, c: Option<D.Command>, k: nat) {
    && (l.Some? ==> LookupInv(grants, l.value) && call.Some? && !call.value.Looking?)
    && (c.Some? ==>
      && l.Some? && call.Some? && !call.value.Looking? && !call.value.HashRead? && !call.value.Ready? && !call.value.Built?
      && c.value.id == k && c.value.station == l.value.station
      && c.value.owner == l.value.owner && c.value.generation == l.value.generation)
  }

  ghost predicate LookupsInv(st: State) {
    forall k :: TraceInv(st.own.grants, Get(st.calls, k), Get(st.lookups, k), Get(st.bus.commands, k), k)
  }

  predicate Beyond(c: D.Consumer) { c.Admitted? || c.Calling? || (c.Finished? && c.called) }

  /** The command got past the gate at some point of this or an earlier attempt. */
  predicate Passed(bus: D.State, c: D.Command) {
    || bus.resets[c.id] > 0 || c.id in bus.confirmed
    || (Beyond(D.ConsumerOf(bus, c.owner)) && D.Current(bus, c.owner) == Some(c))
  }

  predicate GatesInv(st: State) {
    && (forall g <- st.gates ::
      && g.id in st.bus.commands && g == GateOf(st.bus.commands[g.id])
      && O.Stamp(g.runtime, g.station, g.generation) in st.own.claimed)
    && (forall k | k in st.bus.commands && Passed(st.bus, st.bus.commands[k]) :: GateOf(st.bus.commands[k]) in st.gates)
    && (forall k | k in st.calls && st.calls[k] == Answered(200) :: k in st.bus.commands && k in st.bus.confirmed)
  }

  /** The entry fetched for the command at hand belongs to that command's station. */
  predicate FetchInv(st: State) {
    forall r | r in st.fetched && st.fetched[r].Some? ::
      && D.ConsumerOf(st.bus, r).Running? && D.Current(st.bus, r).Some? && st.fetched[r].value < |O.Of(st.own, r).heap|
      && O.Of(st.own, r).heap[st.fetched[r].value].lease.station == D.Current(st.bus, r).value.station
  }

  ghost predicate Inv(st: State) {
    && O.Inv(st.own) && D.Inv(st.bus) && st.own.now == st.bus.now
    && LookupsInv(st) && GatesInv(st) && FetchInv(st)
  }

  // ---------- Frames

  lemma OwnFrame(st: O.State, a: O.Action)
    requires O.Enabled(st, a)
    ensures st.grants <= O.Step(st, a).grants && st.claimed <= O.Step(st, a).claimed
    ensures !a.Tick? ==> O.Step(st, a).now == st.now
  {
  }

  lemma HeapFrame(st: O.State, a: O.Action, r: string)
    requires O.Enabled(st, a) && !(a.Crash? && a.r == r)
    ensures var h, h' := O.Of(st, r).heap, O.Of(O.Step(st, a), r).heap;
      |h| <= |h'| && forall e | 0 <= e < |h| :: h'[e].lease.station == h[e].lease.station
  {
    match a
    case RenewRun(r', e, ttl, fate) => O.RenewEffect(st, r', e, ttl, fate);
    case _ =>
  }

  predicate BusSame(st: D.State, st': D.State) {
    st'.commands == st.commands && st.confirmed <= st'.confirmed && st'.now == st.now
  }

  lemma CommitBusFrame(st: D.State, r: string, fate: Fate)
    requires D.Enabled(st, D.Commit(r, fate))
    ensures BusSame(st, D.Step(st, D.Commit(r, fate)))
  {
  }

  lemma AbortBusFrame(st: D.State, r: string)
    ensures BusSame(st, D.Step(st, D.Abort(r)))
  {
  }

  lemma OwnBusFrame(st: D.State, a: D.Action)
    requires D.Enabled(st, a) && R.OwnStep(a)
    ensures BusSame(st, D.Step(st, a))
  {
    match a
    case Commit(r, fate) => CommitBusFrame(st, r, fate);
    case Abort(r) => AbortBusFrame(st, r);
    case _ =>
  }

  lemma BusFrame(st: D.State, a: D.Action)
    requires D.Enabled(st, a) && !a.Publish?
    ensures D.Step(st, a).commands == st.commands && st.confirmed <= D.Step(st, a).confirmed
    ensures !a.Tick? ==> D.Step(st, a).now == st.now
  {
    if R.OwnStep(a) {
      OwnBusFrame(st, a);
    }
  }

  lemma OwnBeyond(st: D.State, a: D.Action)
    requires D.Enabled(st, a) && R.OwnStep(a) && !(a.Gate? && a.pass)
    requires Beyond(D.ConsumerOf(D.Step(st, a), a.r))
    ensures Beyond(D.ConsumerOf(st, a.r)) && D.ConsumerOf(D.Step(st, a), a.r).batch == D.ConsumerOf(st, a.r).batch
  {
  }

  lemma BeyondConsumer(st: D.State, a: D.Action, r: string)
    requires D.Enabled(st, a) && !(a.Gate? && a.pass) && !a.Publish?
    requires Beyond(D.ConsumerOf(D.Step(st, a), r))
    ensures Beyond(D.ConsumerOf(st, r)) && D.ConsumerOf(D.Step(st, a), r).batch == D.ConsumerOf(st, r).batch
  {
    if R.OwnStep(a) {
      R.OwnFrame(st, a);
      if a.r == r { OwnBeyond(st, a); }
    } else if R.HandOver(a) {
      R.HandOverFrame(st, a);
    }
  }

  lemma BeyondStream(st: D.State, a: D.Action, r: string)
    requires D.Enabled(st, a) && !a.Publish?
    requires Beyond(D.ConsumerOf(D.Step(st, a), r))
    ensures D.StreamOf(D.Step(st, a), r) == D.StreamOf(st, r)
  {
  }

  /** Only the gate takes a consumer beyond it. */
  lemma BeyondFrame(st: D.State, a: D.Action, r: string)
    requires D.Enabled(st, a) && !(a.Gate? && a.pass) && !a.Publish?
    requires Beyond(D.ConsumerOf(D.Step(st, a), r))
    ensures Beyond(D.ConsumerOf(st, r)) && D.Current(D.Step(st, a), r) == D.Current(st, r)
  {
    BeyondConsumer(st, a, r);
    BeyondStream(st, a, r);
  }

  /** Reset calls and confirmations come only from a consumer beyond the gate, for the command it works on. */
  lemma EffectFrame(st: D.State, a: D.Action, id: nat)
    requires D.Enabled(st, a) && !a.Publish?
    requires (D.Step(st, a).resets[id] > 0 && st.resets[id] == 0) || (id in D.Step(st, a).confirmed && id !in st.confirmed)
    ensures (a.Call? || a.Answer?) && Beyond(D.ConsumerOf(st, a.r)) && D.Current(st, a.r).value.id == id
  {
  }

  lemma PassedFrame(st: D.State, a: D.Action, c: D.Command)
    requires D.Inv(st) && D.Enabled(st, a) && !(a.Gate? && a.pass) && !a.Publish?
    requires c.id in st.commands && st.commands[c.id] == c && Passed(D.Step(st, a), c)
    ensures Passed(st, c)
  {
    if (D.Step(st, a).resets[c.id] > 0 && st.resets[c.id] == 0) ||
       (c.id in D.Step(st, a).confirmed && c.id !in st.confirmed) {
      EffectFrame(st, a, c.id);
      D.PlacesFor(st, a.r);
    } else if st.resets[c.id] == 0 && c.id !in st.confirmed {
      BeyondFrame(st, a, c.owner);
    }
  }

  // ---------- Proof that every step keeps it

  lemma LookupsGrow(st: State, st': State)
    requires LookupsInv(st) && st.own.grants <= st'.own.grants
    requires st'.calls == st.calls && st'.lookups == st.lookups && st'.bus.commands == st.bus.commands
    ensures LookupsInv(st')
  {
    forall k ensures TraceInv(st'.own.grants, Get(st'.calls, k), Get(st'.lookups, k), Get(st'.bus.commands, k), k) {
      assert TraceInv(st.own.grants, Get(st.calls, k), Get(st.lookups, k), Get(st.bus.commands, k), k);
    }
  }

  /** Only call k moves on. */
  lemma OneTrace(st: State, st': State, k: nat)
    requires LookupsInv(st) && st'.own.grants == st.own.grants
    requires forall k' | k' != k ::
      && Get(st'.calls, k') == Get(st.calls, k') && Get(st'.lookups, k') == Get(st.lookups, k')
      && Get(st'.bus.commands, k') == Get(st.bus.commands, k')
    requires TraceInv(st'.own.grants, Get(st'.calls, k), Get(st'.lookups, k), Get(st'.bus.commands, k), k)
    ensures LookupsInv(st')
  {
    forall k' | k' != k
      ensures TraceInv(st'.own.grants, Get(st'.calls, k'), Get(st'.lookups, k'), Get(st'.bus.commands, k'), k')
    {
      assert TraceInv(st.own.grants, Get(st.calls, k'), Get(st.lookups, k'), Get(st.bus.commands, k'), k');
    }
  }

  /** Gates, commands and answers as before; nothing new got beyond the gate. */
  lemma GatesGrow(st: State, st': State)
    requires GatesInv(st) && st.own.claimed <= st'.own.claimed
    requires st'.calls == st.calls && st'.gates == st.gates
    requires st'.bus.commands == st.bus.commands && st.bus.confirmed <= st'.bus.confirmed
    requires forall k | k in st.bus.commands && Passed(st'.bus, st.bus.commands[k]) :: Passed(st.bus, st.bus.commands[k])
    ensures GatesInv(st')
  {
  }

  lemma OwnKeeps(st: State, o: O.Action)
    requires Inv(st) && Enabled(st, Own(o))
    ensures Inv(Next(st, Own(o)))
  {
    var st' := Next(st, Own(o));
    O.StepKeeps(st.own, o);
    OwnFrame(st.own, o);
    LookupsGrow(st, st');
    GatesGrow(st, st');
    forall r | r in st'.fetched && st'.fetched[r].Some?
      ensures st'.fetched[r].value < |O.Of(st'.own, r).heap|
      ensures O.Of(st'.own, r).heap[st'.fetched[r].value].lease.station == D.Current(st'.bus, r).value.station
    {
      HeapFrame(st.own, o, r);
    }
  }

  lemma BusPassed(bus: D.State, d: D.Action)
    requires D.Inv(bus) && D.Enabled(bus, d) && !(d.Gate? && d.pass) && !d.Publish?
    ensures forall k | k in bus.commands && Passed(D.Step(bus, d), bus.commands[k]) :: Passed(bus, bus.commands[k])
  {
    forall k | k in bus.commands && Passed(D.Step(bus, d), bus.commands[k]) ensures Passed(bus, bus.commands[k]) {
      assert bus.commands[k].id == k;
      PassedFrame(bus, d, bus.commands[k]);
    }
  }

  /** While a consumer waits at the gate, only stopping it moves it. */
  lemma RunningStays(bus: D.State, d: D.Action, r: string)
    requires D.Enabled(bus, d) && !d.Publish? && !d.Gate?
    requires D.ConsumerOf(bus, r).Running? && !(d.Abort? && d.r == r)
    ensures D.ConsumerOf(D.Step(bus, d), r) == D.ConsumerOf(bus, r)
    ensures D.StreamOf(D.Step(bus, d), r) == D.StreamOf(bus, r)
  {
    if R.OwnStep(d) { R.OwnFrame(bus, d); } else if R.HandOver(d) { R.HandOverFrame(bus, d); }
  }

  lemma BusKeeps(st: State, d: D.Action)
    requires Inv(st) && Enabled(st, Bus(d))
    ensures Inv(Next(st, Bus(d)))
  {
    var st' := Next(st, Bus(d));
    D.StepKeeps(st.bus, d);
    BusFrame(st.bus, d);
    LookupsGrow(st, st');
    BusPassed(st.bus, d);
    GatesGrow(st, st');
    BusFetch(st, d);
  }

  lemma BusFetch(st: State, d: D.Action)
    requires FetchInv(st) && Enabled(st, Bus(d))
    ensures FetchInv(Next(st, Bus(d)))
  {
    var st' := Next(st, Bus(d));
    forall r | r in st'.fetched && st'.fetched[r].Some?
      ensures D.ConsumerOf(st'.bus, r).Running? && D.Current(st'.bus, r) == D.Current(st.bus, r)
    {
      RunningStays(st.bus, d, r);
    }
  }

  lemma TickKeeps(st: State, ms: nat)
    requires Inv(st)
    ensures Inv(Next(st, Tick(ms)))
  {
    var st' := Next(st, Tick(ms));
    O.StepKeeps(st.own, O.Tick(ms));
    D.StepKeeps(st.bus, D.Tick(ms));
    OwnFrame(st.own, O.Tick(ms));
    BusFrame(st.bus, D.Tick(ms));
    LookupsGrow(st, st');
    BusPassed(st.bus, D.Tick(ms));
    GatesGrow(st, st');
  }

  lemma CrashKeeps(st: State, r: string)
    requires Inv(st)
    ensures Inv(Next(st, Crash(r)))
  {
    var st' := Next(st, Crash(r));
    O.StepKeeps(st.own, O.Crash(r));
    D.StepKeeps(st.bus, D.Abort(r));
    BusFrame(st.bus, D.Abort(r));
    LookupsGrow(st, st');
    BusPassed(st.bus, D.Abort(r));
    GatesGrow(st, st');
    CrashFetch(st, r);
  }

  lemma CrashFetch(st: State, r: string)
    requires FetchInv(st)
    ensures FetchInv(Next(st, Crash(r)))
  {
    var st' := Next(st, Crash(r));
    forall r' | r' in st'.fetched && st'.fetched[r'].Some?
      ensures D.ConsumerOf(st'.bus, r').Running? && D.Current(st'.bus, r') == D.Current(st.bus, r')
      ensures O.Of(st'.own, r') == O.Of(st.own, r')
    {
      RunningStays(st.bus, D.Abort(r), r');
    }
  }

  lemma FetchKeeps(st: State, r: string)
    requires Inv(st) && Enabled(st, FetchEntry(r))
    ensures Inv(Next(st, FetchEntry(r)))
  {
    assert O.ManagerInv(O.Of(st.own, r), r, st.own.claimed, st.own.releases);
    FetchedEntry(st, r);
    LookupsGrow(st, Next(st, FetchEntry(r)));
    GatesGrow(st, Next(st, FetchEntry(r)));
  }

  lemma FetchedEntry(st: State, r: string)
    requires FetchInv(st) && Enabled(st, FetchEntry(r)) && O.HeapInv(O.Of(st.own, r), r, st.own.claimed)
    ensures FetchInv(Next(st, FetchEntry(r)))
  {
  }

  lemma GateStays(bus: D.State, r: string, pass: bool, r': string)
    requires D.Enabled(bus, D.Gate(r, pass)) && r' != r
    ensures D.ConsumerOf(D.Step(bus, D.Gate(r, pass)), r') == D.ConsumerOf(bus, r')
    ensures D.StreamOf(D.Step(bus, D.Gate(r, pass)), r') == D.StreamOf(bus, r')
  {
  }

  /** The one new command beyond the gate is the one just let through. */
  lemma GatePassed(bus: D.State, r: string, k: nat)
    requires D.Inv(bus) && D.Enabled(bus, D.Gate(r, true)) && k in bus.commands
    requires Passed(D.Step(bus, D.Gate(r, true)), bus.commands[k])
    ensures Passed(bus, bus.commands[k]) || Some(bus.commands[k]) == D.Current(bus, r)
  {
    var c := bus.commands[k];
    if c.owner != r { GateStays(bus, r, true, c.owner); }
  }

  lemma GateOpens(st: State, r: string)
    requires Inv(st) && Enabled(st, PassGate(r))
    ensures GatesInv(Next(st, PassGate(r)))
  {
    var st' := Next(st, PassGate(r));
    D.PlacesFor(st.bus, r);
    var c := D.Current(st.bus, r).value;
    if Passes(st, r) {
      assert O.ManagerInv(O.Of(st.own, r), r, st.own.claimed, st.own.releases);
      assert O.Stamp(c.owner, c.station, c.generation) in st.own.claimed;
      forall k | k in st'.bus.commands && Passed(st'.bus, st'.bus.commands[k])
        ensures GateOf(st'.bus.commands[k]) in st'.gates
      {
        GatePassed(st.bus, r, k);
      }
    } else {
      BusPassed(st.bus, D.Gate(r, false));
      GatesGrow(st, st');
    }
  }

  lemma GateFetch(st: State, r: string)
    requires FetchInv(st) && Enabled(st, PassGate(r))
    ensures FetchInv(Next(st, PassGate(r)))
  {
    var st' := Next(st, PassGate(r));
    forall r' | r' in st'.fetched
      ensures D.ConsumerOf(st'.bus, r') == D.ConsumerOf(st.bus, r') && D.StreamOf(st'.bus, r') == D.StreamOf(st.bus, r')
    {
      GateStays(st.bus, r, Passes(st, r), r');
    }
  }

  lemma GateKeeps(st: State, r: string)
    requires Inv(st) && Enabled(st, PassGate(r))
    ensures Inv(Next(st, PassGate(r)))
  {
    var pass := Passes(st, r);
    D.StepKeeps(st.bus, D.Gate(r, pass));
    BusFrame(st.bus, D.Gate(r, pass));
    LookupsGrow(st, Next(st, PassGate(r)));
    GateOpens(st, r);
    GateFetch(st, r);
  }

  /** A live lease is the newest grant of its station, so the lookup sees every earlier one. */
  lemma LookupIsNewest(own: O.State, s: string)
    requires O.Inv(own) && Live(own.table, own.now, s)
    ensures LookupInv(own.grants, Lookup(s, own.table.cells[s].owner, own.table.cells[s].generation, |own.grants|))
  {
    assert O.CellInv(own.grants, s, own.table.cells[s]);
  }

  /** Only the record of call k changes, and not to a 200. */
  lemma CallGates(st: State, st': State, k: nat, call: ApiCall)
    requires GatesInv(st) && FetchInv(st) && call != Answered(200)
    requires st'.own == st.own && st'.bus == st.bus && st'.fetched == st.fetched && st'.gates == st.gates
    requires st'.calls == st.calls[k := call]
    ensures GatesInv(st') && FetchInv(st')
  {
  }

  lemma CallLookups(st: State, a: Action)
    requires LookupsInv(st) && Enabled(st, a)
    requires a.Start? || a.ReadHash? || a.ReadTtl? || a.LookupFails? || a.Build? || a.TimeOut?
    requires a.ReadHash? && Live(st.own.table, st.own.now, st.calls[a.k].station) ==>
      LookupInv(st.own.grants, Next(st, a).lookups[a.k])
    ensures LookupsInv(Next(st, a))
  {
    assert TraceInv(st.own.grants, Get(st.calls, a.k), Get(st.lookups, a.k), Get(st.bus.commands, a.k), a.k);
    OneTrace(st, Next(st, a), a.k);
  }

  lemma CallKeeps(st: State, a: Action)
    requires Inv(st) && Enabled(st, a)
    requires a.Start? || a.ReadHash? || a.ReadTtl? || a.LookupFails? || a.Build? || a.TimeOut?
    ensures Inv(Next(st, a))
  {
    if a.ReadHash? && Live(st.own.table, st.own.now, st.calls[a.k].station) {
      LookupIsNewest(st.own, st.calls[a.k].station);
    }
    CallLookups(st, a);
    CallGates(st, Next(st, a), a.k, Next(st, a).calls[a.k]);
  }

  lemma PublishCurrent(bus: D.State, c: D.Command, trimmed: nat, r: string)
    requires D.Inv(bus) && D.Enabled(bus, D.Publish(c, trimmed)) && !D.ConsumerOf(bus, r).Idle?
    ensures D.Current(D.Step(bus, D.Publish(c, trimmed)), r) == D.Current(bus, r)
  {
    D.PlacesFor(bus, r);
  }

  lemma PublishFrame(bus: D.State, c: D.Command, trimmed: nat)
    requires D.Inv(bus) && D.Enabled(bus, D.Publish(c, trimmed))
    ensures var bus' := D.Step(bus, D.Publish(c, trimmed));
      && bus'.commands == bus.commands[c.id := c] && bus'.confirmed == bus.confirmed && bus'.now == bus.now
      && (forall r :: D.ConsumerOf(bus', r) == D.ConsumerOf(bus, r))
      && (forall r | !D.ConsumerOf(bus, r).Idle? :: D.Current(bus', r) == D.Current(bus, r))
      && !Passed(bus', c)
      && (forall k | k in bus.commands :: Passed(bus', bus.commands[k]) ==> Passed(bus, bus.commands[k]))
  {
    var bus' := D.Step(bus, D.Publish(c, trimmed));
    forall r | !D.ConsumerOf(bus, r).Idle? ensures D.Current(bus', r) == D.Current(bus, r) {
      PublishCurrent(bus, c, trimmed, r);
    }
    assert D.Absent(bus, c.id);
    D.PlacesFor(bus, c.owner);
  }

  lemma PublishLookups(st: State, k: nat, trimmed: nat, fate: Fate)
    requires LookupsInv(st) && Enabled(st, Publish(k, trimmed, fate))
    ensures LookupsInv(Next(st, Publish(k, trimmed, fate)))
  {
    assert TraceInv(st.own.grants, Get(st.calls, k), Get(st.lookups, k), Get(st.bus.commands, k), k);
    OneTrace(st, Next(st, Publish(k, trimmed, fate)), k);
  }

  lemma PublishRest(st: State, k: nat, trimmed: nat, fate: Fate)
    requires D.Inv(st.bus) && GatesInv(st) && FetchInv(st)
    requires Enabled(st, Publish(k, trimmed, fate)) && fate.Applied()
    ensures var st' := Next(st, Publish(k, trimmed, fate)); GatesInv(st') && FetchInv(st')
  {
    PublishFrame(st.bus, CommandOf(st, k), trimmed);
  }

  lemma PublishKeeps(st: State, k: nat, trimmed: nat, fate: Fate)
    requires Inv(st) && Enabled(st, Publish(k, trimmed, fate))
    ensures Inv(Next(st, Publish(k, trimmed, fate)))
  {
    if fate.Applied() {
      D.StepKeeps(st.bus, D.Publish(CommandOf(st, k), trimmed));
      PublishRest(st, k, trimmed, fate);
      PublishLookups(st, k, trimmed, fate);
    } else {
      PublishLookups(st, k, trimmed, fate);
      CallGates(st, Next(st, Publish(k, trimmed, fate)), k, Answered(503));
    }
  }

  lemma AwaitLookups(st: State, k: nat, fate: Fate)
    requires LookupsInv(st) && Enabled(st, Await(k, fate))
    ensures LookupsInv(Next(st, Await(k, fate)))
  {
    BusFrame(st.bus, D.Pop(k));
    assert TraceInv(st.own.grants, Get(st.calls, k), Get(st.lookups, k), Get(st.bus.commands, k), k);
    OneTrace(st, Next(st, Await(k, fate)), k);
  }

  lemma AwaitGates(st: State, k: nat, fate: Fate)
    requires D.Inv(st.bus) && GatesInv(st) && Enabled(st, Await(k, fate)) && fate.Applied()
    ensures GatesInv(Next(st, Await(k, fate)))
  {
    PopGates(st, k);
    AwaitedResult(st.bus, k);
    BusFrame(st.bus, D.Pop(k));
    AnswerGates(st.(bus := D.Step(st.bus, D.Pop(k))), k, Next(st, Await(k, fate)).calls[k].status);
  }

  lemma AnswerGates(st: State, k: nat, status: nat)
    requires GatesInv(st) && (status == 200 ==> k in st.bus.commands && k in st.bus.confirmed)
    ensures GatesInv(st.(calls := st.calls[k := Answered(status)]))
  {
  }

  lemma PopGates(st: State, k: nat)
    requires D.Inv(st.bus) && GatesInv(st) && D.Enabled(st.bus, D.Pop(k))
    ensures GatesInv(st.(bus := D.Step(st.bus, D.Pop(k))))
  {
    BusFrame(st.bus, D.Pop(k));
    BusPassed(st.bus, D.Pop(k));
    GatesGrow(st, st.(bus := D.Step(st.bus, D.Pop(k))));
  }

  lemma AwaitKeeps(st: State, k: nat, fate: Fate)
    requires Inv(st) && Enabled(st, Await(k, fate))
    ensures Inv(Next(st, Await(k, fate)))
  {
    AwaitLookups(st, k, fate);
    if fate.Applied() {
      D.StepKeeps(st.bus, D.Pop(k));
      BusFrame(st.bus, D.Pop(k));
      AwaitGates(st, k, fate);
      AwaitFetch(st, k, fate);
    } else {
      CallGates(st, Next(st, Await(k, fate)), k, Answered(504));
    }
  }

  lemma AwaitFetch(st: State, k: nat, fate: Fate)
    requires FetchInv(st) && Enabled(st, Await(k, fate))
    ensures FetchInv(Next(st, Await(k, fate)))
  {
    if fate.Applied() {
      PopFrame(st.bus, k);
    }
  }

  lemma PopFrame(bus: D.State, k: nat)
    requires D.Enabled(bus, D.Pop(k))
    ensures var bus' := D.Step(bus, D.Pop(k));
      forall r :: D.ConsumerOf(bus', r) == D.ConsumerOf(bus, r) && D.Current(bus', r) == D.Current(bus, r)
  {
    var bus' := D.Step(bus, D.Pop(k));
    assert bus'.consumers == bus.consumers && bus'.streams == bus.streams;
  }

  /** What a caller takes from the list is the recorded result of its own command. */
  lemma AwaitedResult(bus: D.State, k: nat)
    requires D.Inv(bus) && D.Enabled(bus, D.Pop(k))
    ensures var items := bus.queues[k].items;
      && k in bus.commands && k in bus.records && items[|items| - 1] == bus.records[k].result
      && items[|items| - 1].id == k && (items[|items| - 1].success ==> k in bus.confirmed)
  {
    assert k !in bus.commands ==> D.Absent(bus, k);
    assert D.AgreeInv(D.ViewOf(bus, k));
    var items := bus.queues[k].items;
    assert items[|items| - 1] in items;
  }

  lemma StepKeeps(st: State, a: Action)
    requires Inv(st) && Enabled(st, a)
    ensures Inv(Next(st, a))
  {
    match a
    case Tick(ms) => TickKeeps(st, ms);
    case Own(o) => OwnKeeps(st, o);
    case Bus(d) => BusKeeps(st, d);
    case Crash(r) => CrashKeeps(st, r);
    case FetchEntry(r) => FetchKeeps(st, r);
    case PassGate(r) => GateKeeps(st, r);
    case Publish(k, trimmed, fate) => PublishKeeps(st, k, trimmed, fate);
    case Await(k, fate) => AwaitKeeps(st, k, fate);
    case _ => CallKeeps(st, a);
  }

  lemma {:induction false} AlwaysInv(acts: seq<Action>)
    requires Legal(acts)
    ensures Inv(Exec(acts))
  {
    if acts != [] {
      AlwaysInv(acts[..|acts| - 1]);
      StepKeeps(Exec(acts[..|acts| - 1]), acts[|acts| - 1]);
    }
  }

  // ---------- Consequences for every run

  /**
   * A 200 means: the command named a generation that its owner's own Claim of
   * that station returned, that runtime let the command through its gate, and
   * its Reset call came back confirmed.
   */
  lemma {:induction false} EndToEndSoundness(acts: seq<Action>, k: nat)
    requires Legal(acts) && k in Exec(acts).calls && Exec(acts).calls[k] == Answered(200)
    ensures var st := Exec(acts);
      && k in st.bus.commands && k in st.bus.confirmed
      && (var c := st.bus.commands[k];
        && O.Stamp(c.owner, c.station, c.generation) in st.own.claimed
        && O.IsGrant(st.own.grants, O.Stamp(c.owner, c.station, c.generation))
        && GateOf(c) in st.gates)
  {
    AlwaysInv(acts);
    var st := Exec(acts);
    var c := st.bus.commands[k];
    assert Passed(st.bus, c);
    assert GateOf(c) in st.gates;
  }

  lemma GatesUnique(st: State, g: Gate, g': Gate, other: O.Stamp)
    requires GatesInv(st) && O.RecordsInv(st.own)
    requires g in st.gates && g' in st.gates && g.id == g'.id
    requires other in st.own.claimed && other.generation == g.generation
    ensures g == g' && other == O.Stamp(g.runtime, g.station, g.generation)
  {
    assert O.IsGrant(st.own.grants, O.Stamp(g.runtime, g.station, g.generation));
    assert O.IsGrant(st.own.grants, other);
  }

  /**
   * A command passes the gate in at most one runtime: the one whose own Claim
   * returned its generation, which no other runtime or station ever got.
   */
  lemma {:induction false} UniqueExecutor(acts: seq<Action>, g: Gate, g': Gate, other: O.Stamp)
    requires Legal(acts) && g in Exec(acts).gates && g' in Exec(acts).gates && g.id == g'.id
    requires other in Exec(acts).own.claimed && other.generation == g.generation
    ensures g == g' && other == O.Stamp(g.runtime, g.station, g.generation)
  {
    AlwaysInv(acts);
    GatesUnique(Exec(acts), g, g', other);
  }

  lemma GateAfterLookup(st: State, g: Gate, i: nat)
    requires GatesInv(st) && LookupsInv(st) && O.GrantsInv(st.own.table, st.own.grants) && g in st.gates
    ensures g.id in st.lookups && st.lookups[g.id].seen <= |st.own.grants|
    ensures i < |st.own.grants| && st.own.grants[i].station == g.station ==>
      (st.own.grants[i].generation > g.generation <==> i >= st.lookups[g.id].seen)
  {
    assert TraceInv(st.own.grants, Get(st.calls, g.id), Get(st.lookups, g.id), Get(st.bus.commands, g.id), g.id);
  }

  /**
   * A command let through the gate is stale exactly towards the grants made
   * after its lookup: of the station's grants, those made before the lookup read
   * the lease hash are not newer than its generation, those made after it are.
   */
  lemma {:induction false} NoStaleRouting(acts: seq<Action>, g: Gate, i: nat)
    requires Legal(acts) && g in Exec(acts).gates
    ensures g.id in Exec(acts).lookups
    ensures var grants, seen := Exec(acts).own.grants, Exec(acts).lookups[g.id].seen;
      && seen <= |grants|
      && (i < |grants| && grants[i].station == g.station ==> (grants[i].generation > g.generation <==> i >= seen))
  {
    AlwaysInv(acts);
    GateAfterLookup(Exec(acts), g, i);
  }

  /** Call k was just answered, with this status. */
  predicate Answers(st: State, a: Action, k: nat, status: nat)
    requires Enabled(st, a)
  {
    Get(st.calls, k) != Some(Answered(status)) && Get(Next(st, a).calls, k) == Some(Answered(status))
  }

  /** One read of Lookup finds no live lease of the station, or the other one did. */
  predicate NotConnected(st: State, k: nat) {
    && k in st.calls && st.calls[k].HashRead?
    && !(st.calls[k].found && Live(st.own.table, st.own.now, st.calls[k].station))
  }

  /**
   * Every answer of the command API, with its exact cause: 200 is given if and
   * only if the caller takes the result of its own command and that is a
   * success; 409 if it is a failure, or a read of the lookup found no lease; 500
   * if the lookup failed; 503 if the publish was not confirmed; 504 if the wait
   * ended without a reply.
   */
  lemma AnswersExactly(acts: seq<Action>, a: Action, k: nat)
    requires Legal(acts) && Enabled(Exec(acts), a)
    ensures var st := Exec(acts); var records := st.bus.records;
      && (Answers(st, a, k, 200) <==> a == Await(k, Acknowledged) && k in records && records[k].result.success)
      && (Answers(st, a, k, 409) <==>
        || (a == Await(k, Acknowledged) && k in records && !records[k].result.success)
        || (a == ReadTtl(k) && NotConnected(st, k)))
      && (Answers(st, a, k, 500) <==> a == LookupFails(k))
      && (Answers(st, a, k, 503) <==> a.Publish? && a.k == k && !a.fate.Acknowledged?)
      && (Answers(st, a, k, 504) <==> a == TimeOut(k) || (a.Await? && a.k == k && !a.fate.Acknowledged?))
  {
    if a.Await? {
      AlwaysInv(acts);
      AwaitAnswers(Exec(acts), a.k, a.fate, k);
    } else {
      OtherAnswers(Exec(acts), a, k);
    }
  }

  lemma AwaitAnswers(st: State, k: nat, fate: Fate, other: nat)
    requires D.Inv(st.bus) && Enabled(st, Await(k, fate))
    ensures k in st.bus.records
    ensures var st' := Next(st, Await(k, fate));
      && (other != k ==> Get(st'.calls, other) == Get(st.calls, other))
      && Get(st'.calls, k) == Some(Answered(
        if !fate.Acknowledged? then 504 else if st.bus.records[k].result.success then 200 else 409))
      && Get(st.calls, k) == Some(Waiting)
  {
    AwaitedResult(st.bus, k);
    AwaitStatus(st, k, fate, st.bus.records[k].result.success, other);
  }

  lemma AwaitStatus(st: State, k: nat, fate: Fate, success: bool, other: nat)
    requires Enabled(st, Await(k, fate))
    requires var items := st.bus.queues[k].items; items[|items| - 1].success == success
    ensures var st' := Next(st, Await(k, fate));
      && (other != k ==> Get(st'.calls, other) == Get(st.calls, other))
      && Get(st'.calls, k) == Some(Answered(if !fate.Acknowledged? then 504 else if success then 200 else 409))
  {
  }

  lemma OtherAnswers(st: State, a: Action, k: nat)
    requires Enabled(st, a) && !a.Await?
    ensures !Answers(st, a, k, 200)
    ensures Answers(st, a, k, 409) <==> a == ReadTtl(k) && NotConnected(st, k)
    ensures Answers(st, a, k, 500) <==> a == LookupFails(k)
    ensures Answers(st, a, k, 503) <==> a.Publish? && a.k == k && !a.fate.Acknowledged?
    ensures Answers(st, a, k, 504) <==> a == TimeOut(k)
  {
  }
}
