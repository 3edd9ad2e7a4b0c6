/** Carrying the component theorems over to whole-protocol runs, and what the gate does not promise. */
module ProtocolRuns {
  import opened Base
  import opened Leases
  import O = Ownership
  import D = Delivery
  import R = DeliveryRuns
  import opened Protocol

  // ---------- A run of the protocol is a run of each part

  function OwnPart(a: Action): (o: seq<O.Action>) {
    match a
    case Tick(ms) => [O.Tick(ms)]
    case Own(o) => [o]
    case Crash(r) => [O.Crash(r)]
    case _ => []
  }

  function BusPart(st: State, a: Action): (d: seq<D.Action>)
    requires Enabled(st, a)
  {
    match a
    case Tick(ms) => [D.Tick(ms)]
    case Bus(d) => [d]
    case Crash(r) => [D.Abort(r)]
    case PassGate(r) => [D.Gate(r, Passes(st, r))]
    case Publish(k, trimmed, fate) => if fate.Applied() then [D.Publish(CommandOf(st, k), trimmed)] else []
    case Await(k, fate) => if fate.Applied() then [D.Pop(k)] else []
    case _ => []
  }

  lemma OwnPartStep(st: State, a: Action)
    requires Enabled(st, a)
    ensures |OwnPart(a)| <= 1
    ensures if OwnPart(a) == [] then Next(st, a).own == st.own
            else O.Enabled(st.own, OwnPart(a)[0]) && Next(st, a).own == O.Step(st.own, OwnPart(a)[0])
  {
  }

  lemma BusPartStep(st: State, a: Action)
    requires Enabled(st, a)
    ensures |BusPart(st, a)| <= 1
    ensures if BusPart(st, a) == [] then Next(st, a).bus == st.bus
            else D.Enabled(st.bus, BusPart(st, a)[0]) && Next(st, a).bus == D.Step(st.bus, BusPart(st, a)[0])
  {
  }

  /** So SessionLifecycle, NoRenewalAfterRelease and the registry history hold of every protocol run. */
  lemma {:induction false} RunOwnership(acts: seq<Action>) returns (owns: seq<O.Action>)
    requires Legal(acts)
    ensures O.Legal(owns) && O.Exec(owns) == Exec(acts).own
  {
    if acts == [] {
      owns := [];
    } else {
      var n := |acts| - 1;
      owns := RunOwnership(acts[..n]);
      OwnPartStep(Exec(acts[..n]), acts[n]);
      if OwnPart(acts[n]) != [] {
        var o := OwnPart(acts[n])[0];
        assert (owns + [o])[..|owns|] == owns;
        owns := owns + [o];
      }
    }
  }

  /** So the accounting, agreement and delivery theorems hold of every protocol run. */
  lemma {:induction false} RunDelivery(acts: seq<Action>) returns (ds: seq<D.Action>)
    requires Legal(acts)
    ensures D.Legal(ds) && D.Exec(ds) == Exec(acts).bus
  {
    if acts == [] {
      ds := [];
    } else {
      var n := |acts| - 1;
      ds := RunDelivery(acts[..n]);
      BusPartStep(Exec(acts[..n]), acts[n]);
      if BusPart(Exec(acts[..n]), acts[n]) != [] {
        var d := BusPart(Exec(acts[..n]), acts[n])[0];
        assert (ds + [d])[..|ds|] == ds;
        ds := ds + [d];
      }
    }
  }

  /** The Reset calls an API call can cause: one, plus one for each broken attempt, and never more than six. */
  lemma {:induction false} ResetsPerApiCall(acts: seq<Action>, k: nat)
    requires Legal(acts) && k in Exec(acts).calls
    ensures Exec(acts).bus.resets[k] <= 1 + Exec(acts).bus.broken[k] && Exec(acts).bus.resets[k] <= 6
    ensures Exec(acts).calls[k] == Answered(200) ==> Exec(acts).bus.resets[k] >= 1
  {
    var ds := RunDelivery(acts);
    R.ResetAccounting(ds, k);
    R.AtMostSixResets(ds, k);
    if Exec(acts).calls[k] == Answered(200) {
      EndToEndSoundness(acts, k);
      R.ConfirmedWasCalled(ds, k);
    }
  }

  // ---------- What the gate does not promise

  lemma Snoc(acts: seq<Action>, a: Action)
    requires Legal(acts) && Enabled(Exec(acts), a)
    ensures Legal(acts + [a]) && Exec(acts + [a]) == Next(Exec(acts), a)
  {
    assert (acts + [a])[..|acts|] == acts;
  }

  /** A step that is neither r's consumer's nor r's own ownership manager's. */
  predicate Others(a: Action, r: string) {
    match a
    case Own(o) => o.Stray? || o.Tick? || o.r != r
    case Bus(d) => d.Tick? || d.Publish? || d.Pop? || d.r != r
    case Crash(r') => r' != r
    case FetchEntry(r') => r' != r
    case PassGate(r') => r' != r
    case _ => true
  }

  lemma OwnOthers(own: O.State, o: O.Action, r: string)
    requires O.Enabled(own, o) && (o.Stray? || o.Tick? || o.r != r)
    ensures O.Of(O.Step(own, o), r) == O.Of(own, r)
  {
  }

  lemma BusOthers(bus: D.State, d: D.Action, r: string)
    requires D.Inv(bus) && D.Enabled(bus, d) && (d.Tick? || d.Publish? || d.Pop? || d.r != r)
    ensures D.ConsumerOf(D.Step(bus, d), r) == D.ConsumerOf(bus, r)
    ensures !D.ConsumerOf(bus, r).Idle? ==> D.Current(D.Step(bus, d), r) == D.Current(bus, r)
  {
    if d.Publish? {
      PublishFrame(bus, d.c, d.trimmed);
    } else if d.Pop? {
      PopFrame(bus, d.id);
    } else if !d.Tick? {
      ConsumerOthers(bus, d, r);
    }
  }

  lemma ConsumerOthers(bus: D.State, d: D.Action, r: string)
    requires D.Enabled(bus, d) && (R.OwnStep(d) || R.HandOver(d)) && d.r != r
    ensures D.ConsumerOf(D.Step(bus, d), r) == D.ConsumerOf(bus, r) && D.StreamOf(D.Step(bus, d), r) == D.StreamOf(bus, r)
  {
    if R.OwnStep(d) { R.OwnFrame(bus, d); } else { R.HandOverFrame(bus, d); }
  }

  /** What r's gate is about to answer. */
  ghost predicate AtGate(st: State, r: string, answer: bool) {
    D.Enabled(st.bus, D.Gate(r, true)) && r in st.fetched && Passes(st, r) == answer
  }

  lemma OwnSide(st: State, a: Action, r: string)
    requires Enabled(st, a) && Others(a, r)
    ensures O.Of(Next(st, a).own, r) == O.Of(st.own, r)
    ensures r in st.fetched ==> r in Next(st, a).fetched && Next(st, a).fetched[r] == st.fetched[r]
  {
    OwnPartStep(st, a);
    if OwnPart(a) != [] { OwnOthers(st.own, OwnPart(a)[0], r); }
  }

  lemma BusSide(st: State, a: Action, r: string)
    requires D.Inv(st.bus) && Enabled(st, a) && Others(a, r) && !D.ConsumerOf(st.bus, r).Idle?
    ensures D.ConsumerOf(Next(st, a).bus, r) == D.ConsumerOf(st.bus, r)
    ensures D.Current(Next(st, a).bus, r) == D.Current(st.bus, r)
  {
    BusPartStep(st, a);
    if BusPart(st, a) != [] { BusOthers(st.bus, BusPart(st, a)[0], r); }
  }

  lemma SameGate(st: State, st': State, r: string, answer: bool)
    requires AtGate(st, r, answer) && O.Of(st'.own, r) == O.Of(st.own, r)
    requires r in st'.fetched && st'.fetched[r] == st.fetched[r]
    requires D.ConsumerOf(st'.bus, r) == D.ConsumerOf(st.bus, r) && D.Current(st'.bus, r) == D.Current(st.bus, r)
    ensures AtGate(st', r, answer)
  {
  }

  lemma LastStep(acts: seq<Action>)
    requires Legal(acts) && acts != []
    ensures var before, a := acts[..|acts| - 1], acts[|acts| - 1];
      Legal(before) && D.Inv(Exec(before).bus) && Enabled(Exec(before), a) && Exec(acts) == Next(Exec(before), a)
  {
    AlwaysInv(acts[..|acts| - 1]);
  }

  lemma OthersAtGate(st: State, a: Action, r: string, answer: bool)
    requires D.Inv(st.bus) && Enabled(st, a) && Others(a, r) && AtGate(st, r, answer)
    ensures AtGate(Next(st, a), r, answer)
  {
    OwnSide(st, a, r);
    BusSide(st, a, r);
    SameGate(st, Next(st, a), r, answer);
  }

  lemma LastAtGate(acts: seq<Action>, r: string, answer: bool)
    requires Legal(acts) && acts != [] && Legal(acts[..|acts| - 1])
    requires AtGate(Exec(acts[..|acts| - 1]), r, answer) && Others(acts[|acts| - 1], r)
    ensures AtGate(Exec(acts), r, answer)
  {
    LastStep(acts);
    OthersAtGate(Exec(acts[..|acts| - 1]), acts[|acts| - 1], r, answer);
  }

  /** all goes on from acts without r's consumer and r's manager. */
  predicate WithoutR(acts: seq<Action>, all: seq<Action>, r: string) {
    Legal(acts) && Legal(all) && acts <= all && forall i | |acts| <= i < |all| :: Others(all[i], r)
  }

  lemma OneLess(acts: seq<Action>, all: seq<Action>, r: string)
    requires WithoutR(acts, all, r) && |acts| < |all|
    ensures WithoutR(acts, all[..|all| - 1], r) && Others(all[|all| - 1], r)
  {
  }

  /**
   * Once r's consumer has fetched the entry, no run of all the others, with
   * leases lapsing, stations taken over and newer generations granted, changes
   * what its gate answers.
   */
  lemma {:induction false} TakeoverLeavesGate(acts: seq<Action>, all: seq<Action>, r: string, answer: bool)
    requires WithoutR(acts, all, r) && AtGate(Exec(acts), r, answer)
    ensures AtGate(Exec(all), r, answer)
    decreases |all|
  {
    if |acts| == |all| {
      assert acts == all;
    } else {
      OneLess(acts, all, r);
      TakeoverLeavesGate(acts, all[..|all| - 1], r, answer);
      LastAtGate(all, r, answer);
    }
  }

  /** In r's own books, station s is held under generation 1. */
  predicate Books(own: O.State, r: string, s: string) {
    var m := O.Of(own, r);
    && s in m.entries && m.entries[s] < |m.heap| && m.heap[m.entries[s]].lease.owner == r
    && m.heap[m.entries[s]].lease.generation == 1 && !m.heap[m.entries[s]].loop.Locked?
  }

  /** Runtime r holds s under generation 1, claimed at time 0; nobody else has done anything. */
  predicate Scene(own: O.State, r: string, s: string, ttl: nat, now: nat) {
    && Books(own, r, s) && own.grants == [O.Stamp(r, s, 1)] && own.now == now
    && own.table == Table(1, map[s := Cell(r, 1, ttl)]) && own.managers.Keys == {r}
  }

  /** Names the registry grants. */
  predicate Grantable(r: string, s: string) { O.Asks(r, s) && s != COUNTER_STATION }

  /** Only r has done anything, and its claim of s was granted generation 1. */
  predicate JustWon(st: State, r: string, s: string, ttl: nat) {
    && st.own.grants == [O.Stamp(r, s, 1)] && st.own.now == 0 && st.own.table == Table(1, map[s := Cell(r, 1, ttl)])
    && st.own.managers.Keys == {r} && O.Of(st.own, r).heap == []
    && O.At(O.Of(st.own, r), s) == O.Won(Lease(s, r, 1, ttl * NANOS_PER_MS))
    && st.bus == D.INITIAL && 0 !in st.calls && st.fetched == map[]
  }

  lemma FirstWins(r: string, s: string, ttl: nat)
    requires ttl > 0 && Grantable(r, s)
    ensures Enabled(INITIAL, Own(O.Connect(r, s)))
    ensures var st := Next(INITIAL, Own(O.Connect(r, s)));
      && Enabled(st, Own(O.ClaimRun(r, s, ttl, Acknowledged)))
      && JustWon(Next(st, Own(O.ClaimRun(r, s, ttl, Acknowledged))), r, s, ttl)
  {
  }

  lemma FirstClaims(r: string, s: string, ttl: nat) returns (acts: seq<Action>)
    requires ttl > 0 && Grantable(r, s)
    ensures Legal(acts) && JustWon(Exec(acts), r, s, ttl)
  {
    FirstWins(r, s, ttl);
    Snoc([], Own(O.Connect(r, s)));
    acts := [] + [Own(O.Connect(r, s))];
    Snoc(acts, Own(O.ClaimRun(r, s, ttl, Acknowledged)));
    acts := acts + [Own(O.ClaimRun(r, s, ttl, Acknowledged))];
  }

  lemma FirstConnects(r: string, s: string, ttl: nat) returns (acts: seq<Action>)
    requires ttl > 0 && Grantable(r, s)
    ensures Legal(acts)
    ensures var st := Exec(acts);
      Scene(st.own, r, s, ttl, 0) && st.bus == D.INITIAL && 0 !in st.calls && st.fetched == map[]
  {
    acts := FirstClaims(r, s, ttl);
    Snoc(acts, Own(O.Install(r, s)));
    acts := acts + [Own(O.Install(r, s))];
  }

  function StaleCommand(r: string, s: string): (c: D.Command) { D.Command(0, s, r, 1, 0, D.COMMAND_TIMEOUT) }

  /** The command waits in r's stream, and r's consumer is idle. */
  predicate Waits(st: State, r: string, s: string) {
    && st.fetched == map[] && st.bus.records == map[] && D.ConsumerOf(st.bus, r).Idle?
    && D.StreamOf(st.bus, r) == D.Stream([StaleCommand(r, s)], 0, 0, map[], {})
  }

  /** A command call for s has read r's lease, generation 1. */
  lemma LeaseLookedUp(before: seq<Action>, r: string, s: string, ttl: nat) returns (acts: seq<Action>)
    requires Legal(before) && ttl > 0
    requires var st := Exec(before);
      Scene(st.own, r, s, ttl, 0) && st.bus == D.INITIAL && 0 !in st.calls && st.fetched == map[]
    ensures Legal(acts)
    ensures var st := Exec(acts);
      && st.own == Exec(before).own && st.bus == D.INITIAL && st.fetched == map[]
      && Enabled(st, Publish(0, 0, Acknowledged)) && CommandOf(st, 0) == StaleCommand(r, s)
  {
    acts := LookupStarts(before, r, s, ttl);
    LookupEnds(Exec(acts), r, s, ttl);
    Snoc(acts, ReadTtl(0));
    acts := acts + [ReadTtl(0)];
    Snoc(acts, Build(0));
    acts := acts + [Build(0)];
  }

  lemma LookupEnds(st: State, r: string, s: string, ttl: nat)
    requires ttl > 0 && Scene(st.own, r, s, ttl, 0) && st.bus == D.INITIAL
    requires 0 in st.calls && st.calls[0] == HashRead(s, true) && 0 in st.lookups && st.lookups[0] == Lookup(s, r, 1, 1)
    ensures Enabled(st, ReadTtl(0)) && Enabled(Next(st, ReadTtl(0)), Build(0))
    ensures var st' := Next(Next(st, ReadTtl(0)), Build(0));
      && st'.own == st.own && st'.bus == st.bus && st'.fetched == st.fetched
      && Enabled(st', Publish(0, 0, Acknowledged)) && CommandOf(st', 0) == StaleCommand(r, s)
  {
  }

  lemma LookupStarts(before: seq<Action>, r: string, s: string, ttl: nat) returns (acts: seq<Action>)
    requires Legal(before) && ttl > 0 && Scene(Exec(before).own, r, s, ttl, 0) && 0 !in Exec(before).calls
    ensures Legal(acts)
    ensures var st := Exec(acts);
      && st.own == Exec(before).own && st.bus == Exec(before).bus && st.fetched == Exec(before).fetched
      && 0 in st.calls && st.calls[0] == HashRead(s, true) && 0 in st.lookups && st.lookups[0] == Lookup(s, r, 1, 1)
  {
    Snoc(before, Start(0, s));
    acts := before + [Start(0, s)];
    Snoc(acts, ReadHash(0));
    acts := acts + [ReadHash(0)];
  }

  lemma CommandPublished(before: seq<Action>, r: string, s: string) returns (acts: seq<Action>)
    requires Legal(before)
    requires var st := Exec(before);
      && st.bus == D.INITIAL && st.fetched == map[]
      && Enabled(st, Publish(0, 0, Acknowledged)) && CommandOf(st, 0) == StaleCommand(r, s)
    ensures Legal(acts) && Exec(acts).own == Exec(before).own && Waits(Exec(acts), r, s) && Exec(acts).bus.now == 0
    ensures R.JustPublished(Exec(acts).bus, r, StaleCommand(r, s)) && 0 in Exec(acts).calls && Exec(acts).calls[0].Waiting?
    ensures Exec(acts).bus.queues == map[] && Exec(acts).bus.confirmed == {}
  {
    Snoc(before, Publish(0, 0, Acknowledged));
    acts := before + [Publish(0, 0, Acknowledged)];
  }

  lemma CommandWaits(r: string, s: string, ttl: nat) returns (acts: seq<Action>)
    requires ttl > 0 && Grantable(r, s)
    ensures Legal(acts) && Scene(Exec(acts).own, r, s, ttl, 0) && Waits(Exec(acts), r, s) && Exec(acts).bus.now == 0
    ensures R.JustPublished(Exec(acts).bus, r, StaleCommand(r, s)) && 0 in Exec(acts).calls && Exec(acts).calls[0].Waiting?
    ensures Exec(acts).bus.queues == map[] && Exec(acts).bus.confirmed == {}
  {
    var connected := FirstConnects(r, s, ttl);
    var read := LeaseLookedUp(connected, r, s, ttl);
    acts := CommandPublished(read, r, s);
  }

  lemma LeaseLapses(before: seq<Action>, r: string, s: string, ttl: nat) returns (acts: seq<Action>)
    requires Legal(before) && Scene(Exec(before).own, r, s, ttl, 0) && Waits(Exec(before), r, s) && Exec(before).bus.now == 0
    ensures Legal(acts)
    ensures Scene(Exec(acts).own, r, s, ttl, ttl) && Waits(Exec(acts), r, s) && Exec(acts).bus.now == ttl
  {
    Snoc(before, Tick(ttl));
    acts := before + [Tick(ttl)];
  }

  lemma SecondClaims(before: seq<Action>, r: string, r': string, s: string, ttl: nat) returns (acts: seq<Action>)
    requires Legal(before) && r' != r && 0 < ttl && Grantable(r', s) && Scene(Exec(before).own, r, s, ttl, ttl)
    ensures Legal(acts)
    ensures var st := Exec(acts);
      && Books(st.own, r, s) && st.bus == Exec(before).bus && st.fetched == Exec(before).fetched
      && Holds(st.own.table, st.own.now, s, r', 2)
  {
    Snoc(before, Own(O.Connect(r', s)));
    acts := before + [Own(O.Connect(r', s))];
    Snoc(acts, Own(O.ClaimRun(r', s, ttl, Acknowledged)));
    acts := acts + [Own(O.ClaimRun(r', s, ttl, Acknowledged))];
  }

  lemma ConsumerReads(before: seq<Action>, r: string, s: string) returns (acts: seq<Action>)
    requires Legal(before) && Waits(Exec(before), r, s)
    ensures Legal(acts)
    ensures var st := Exec(acts);
      && st.own == Exec(before).own && st.fetched == map[] && st.bus.records == map[] && st.bus.now == Exec(before).bus.now
      && D.ConsumerOf(st.bus, r) == D.Next([0]) && D.StreamOf(st.bus, r).log == [StaleCommand(r, s)]
  {
    Snoc(before, Bus(D.Read(r, Acknowledged)));
    acts := before + [Bus(D.Read(r, Acknowledged))];
  }

  lemma HandlerEntered(st: State, r: string, s: string)
    requires st.bus.records == map[] && st.bus.now < D.COMMAND_TIMEOUT
    requires D.ConsumerOf(st.bus, r) == D.Next([0]) && D.StreamOf(st.bus, r).log == [StaleCommand(r, s)]
    ensures Enabled(st, Bus(D.Check(r))) && Enabled(Next(st, Bus(D.Check(r))), Bus(D.Enter(r)))
    ensures var st' := Next(Next(st, Bus(D.Check(r))), Bus(D.Enter(r)));
      && st'.own == st.own && st'.fetched == st.fetched
      && D.ConsumerOf(st'.bus, r).Running? && D.Current(st'.bus, r) == Some(StaleCommand(r, s))
  {
  }

  lemma HandlerReached(before: seq<Action>, r: string, s: string) returns (acts: seq<Action>)
    requires Legal(before)
    requires var st := Exec(before);
      && st.fetched == map[] && st.bus.records == map[] && st.bus.now < D.COMMAND_TIMEOUT
      && D.ConsumerOf(st.bus, r) == D.Next([0]) && D.StreamOf(st.bus, r).log == [StaleCommand(r, s)]
    ensures Legal(acts)
    ensures var st := Exec(acts);
      && st.own == Exec(before).own && st.fetched == map[]
      && D.ConsumerOf(st.bus, r).Running? && D.Current(st.bus, r) == Some(StaleCommand(r, s))
  {
    HandlerEntered(Exec(before), r, s);
    Snoc(before, Bus(D.Check(r)));
    acts := before + [Bus(D.Check(r))];
    Snoc(acts, Bus(D.Enter(r)));
    acts := acts + [Bus(D.Enter(r))];
  }

  lemma GateTaken(st: State, r: string, s: string)
    requires Books(st.own, r, s) && st.fetched == map[]
    requires D.ConsumerOf(st.bus, r).Running? && D.Current(st.bus, r) == Some(StaleCommand(r, s))
    ensures Enabled(st, FetchEntry(r)) && Enabled(Next(st, FetchEntry(r)), PassGate(r))
    ensures var st' := Next(Next(st, FetchEntry(r)), PassGate(r));
      st'.own == st.own && GateOf(StaleCommand(r, s)) in st'.gates
  {
  }

  lemma GateReached(before: seq<Action>, r: string, s: string) returns (acts: seq<Action>)
    requires Legal(before)
    requires var st := Exec(before);
      && Books(st.own, r, s) && st.fetched == map[]
      && D.ConsumerOf(st.bus, r).Running? && D.Current(st.bus, r) == Some(StaleCommand(r, s))
    ensures Legal(acts) && Exec(acts).own == Exec(before).own && GateOf(StaleCommand(r, s)) in Exec(acts).gates
  {
    GateTaken(Exec(before), r, s);
    Snoc(before, FetchEntry(r));
    acts := before + [FetchEntry(r)];
    Snoc(acts, PassGate(r));
    acts := acts + [PassGate(r)];
  }

  /** The lease of r has lapsed and r' holds the station, while r's books and its stream are as they were. */
  predicate TakenOver(st: State, r: string, r': string, s: string) {
    Books(st.own, r, s) && Holds(st.own.table, st.own.now, s, r', 2) && Waits(st, r, s) && st.bus.now < D.COMMAND_TIMEOUT
  }

  lemma TakeoverReached(r: string, r': string, s: string, ttl: nat) returns (acts: seq<Action>)
    requires r' != r && 0 < ttl < D.COMMAND_TIMEOUT && Grantable(r, s) && Grantable(r', s)
    ensures Legal(acts) && TakenOver(Exec(acts), r, r', s)
  {
    var published := CommandWaits(r, s, ttl);
    var lapsed := LeaseLapses(published, r, s, ttl);
    acts := SecondClaims(lapsed, r, r', s, ttl);
  }

  /**
   * The repository's notes say the check before execution keeps a stale owner
   * from running commands.  It does so only for commands looked up after the
   * takeover (NoStaleRouting): here a command looked up before it passes r's
   * gate while the store holds the station for r' under generation 2.
   */
  lemma {:induction false} StaleOwnerCanExecute(r: string, r': string, s: string, ttl: nat) returns (acts: seq<Action>)
    requires r' != r && 0 < ttl < D.COMMAND_TIMEOUT && Grantable(r, s) && Grantable(r', s)
    ensures Legal(acts)
    ensures Gate(r, 0, s, 1) in Exec(acts).gates && Holds(Exec(acts).own.table, Exec(acts).own.now, s, r', 2)
  {
    var taken := TakeoverReached(r, r', s, ttl);
    var reading := ConsumerReads(taken, r, s);
    var running := HandlerReached(reading, r, s);
    acts := GateReached(running, r, s);
  }

  // ---------- The bound on Reset calls is reached

  /** r's books and stream as they are while its one command is tried again and again. */
  predicate Trying(st: State, r: string, s: string) {
    Books(st.own, r, s) && r !in st.fetched && D.StreamOf(st.bus, r).log == [StaleCommand(r, s)]
  }

  lemma LocalKeepsLog(bus: D.State, d: D.Action, r: string)
    requires D.Enabled(bus, d) && R.LocalTo(d, r)
    ensures D.StreamOf(D.Step(bus, d), r).log == D.StreamOf(bus, r).log
  {
    if R.OwnStep(d) { R.OwnFrame(bus, d); }
  }

  lemma TickBooks(own: O.State, ms: nat, r: string, s: string)
    requires Books(own, r, s)
    ensures Books(O.Step(own, O.Tick(ms)), r, s)
  {
  }

  /** The gate opens for a real entry: fetch it, then pass. */
  lemma GateLifts(before: seq<Action>, r: string, s: string) returns (acts: seq<Action>)
    requires Legal(before) && Trying(Exec(before), r, s) && D.Enabled(Exec(before).bus, D.Gate(r, true))
    ensures Legal(acts) && Trying(Exec(acts), r, s) && Exec(acts).calls == Exec(before).calls
    ensures Exec(acts).bus == D.Step(Exec(before).bus, D.Gate(r, true))
  {
    LocalKeepsLog(Exec(before).bus, D.Gate(r, true), r);
    Snoc(before, FetchEntry(r));
    acts := before + [FetchEntry(r)];
    Snoc(acts, PassGate(r));
    acts := acts + [PassGate(r)];
  }

  lemma StepLifts(before: seq<Action>, d: D.Action, r: string, s: string) returns (acts: seq<Action>)
    requires Legal(before) && Trying(Exec(before), r, s) && D.Enabled(Exec(before).bus, d) && R.LocalTo(d, r)
    ensures Legal(acts) && Trying(Exec(acts), r, s) && Exec(acts).calls == Exec(before).calls
    ensures Exec(acts).bus == D.Step(Exec(before).bus, d)
  {
    LocalKeepsLog(Exec(before).bus, d, r);
    if d.Gate? {
      acts := GateLifts(before, r, s);
    } else if d.Tick? {
      TickBooks(Exec(before).own, d.ms, r, s);
      Snoc(before, Tick(d.ms));
      acts := before + [Tick(d.ms)];
    } else {
      Snoc(before, Bus(d));
      acts := before + [Bus(d)];
    }
  }

  /** A run of r's consumer on the bus is part of a run of the whole, its gate passed with a real entry. */
  lemma {:induction false} RunLifts(before: seq<Action>, ds: seq<D.Action>, bus: D.State, r: string, s: string)
    returns (acts: seq<Action>)
    requires Legal(before) && Trying(Exec(before), r, s) && R.Follows(Exec(before).bus, ds, bus) && R.AllLocal(ds, r)
    ensures Legal(acts) && Exec(acts).bus == bus && Exec(acts).calls == Exec(before).calls
    decreases |ds|
  {
    acts := before;
    if ds != [] {
      assert R.LocalTo(ds[0], r);
      acts := StepLifts(before, ds[0], r, s);
      assert forall i | 0 <= i < |ds[1..]| :: ds[1..][i] == ds[i + 1];
      acts := RunLifts(acts, ds[1..], bus, r, s);
    }
  }

  /** For any runtime and station there is a run in which one API call, still waiting, has caused six Reset calls. */
  lemma SixResetsHappen(r: string, s: string, ttl: nat) returns (acts: seq<Action>)
    requires ttl > 0 && Grantable(r, s)
    ensures Legal(acts) && 0 in Exec(acts).calls && Exec(acts).calls[0].Waiting? && Exec(acts).bus.resets[0] == 6
  {
    var published := CommandWaits(r, s, ttl);
    var ds, bus := R.BreakAgain(Exec(published).bus, r, StaleCommand(r, s), R.MAX_CALLS);
    acts := RunLifts(published, ds, bus, r, s);
  }

  // ---------- And a call is answered

  /** For any runtime and station there is a run in which the call gets the station's own answer after one Reset call. */
  lemma CallAnswered(r: string, s: string, ttl: nat, ok: bool) returns (acts: seq<Action>)
    requires ttl > 0 && Grantable(r, s)
    ensures Legal(acts) && 0 in Exec(acts).calls && Exec(acts).calls[0] == Answered(if ok then 200 else 409)
    ensures Exec(acts).bus.resets[0] == 1 && Exec(acts).bus.broken[0] == 0
  {
    var published := CommandWaits(r, s, ttl);
    var ds, bus := R.AnsweredOnce(Exec(published).bus, r, StaleCommand(r, s), ok);
    acts := RunLifts(published, ds, bus, r, s);
    TakesAnswer(acts, r, s, ok);
    acts := acts + [Await(0, Acknowledged)];
  }

  lemma TakesAnswer(acts: seq<Action>, r: string, s: string, ok: bool)
    requires Legal(acts) && R.AnswerStored(Exec(acts).bus, r, StaleCommand(r, s), ok)
    requires 0 in Exec(acts).calls && Exec(acts).calls[0].Waiting?
    ensures var all := acts + [Await(0, Acknowledged)];
      && Legal(all) && 0 in Exec(all).calls && Exec(all).calls[0] == Answered(if ok then 200 else 409)
      && Exec(all).bus.resets == Exec(acts).bus.resets && Exec(all).bus.broken == Exec(acts).bus.broken
  {
    AnswerTaken(Exec(acts), r, s, ok);
    Snoc(acts, Await(0, Acknowledged));
  }

  lemma AnswerTaken(st: State, r: string, s: string, ok: bool)
    requires R.AnswerStored(st.bus, r, StaleCommand(r, s), ok) && 0 in st.calls && st.calls[0].Waiting?
    ensures Enabled(st, Await(0, Acknowledged))
    ensures var st' := Next(st, Await(0, Acknowledged));
      && 0 in st'.calls && st'.calls[0] == Answered(if ok then 200 else 409)
      && st'.bus.resets == st.bus.resets && st'.bus.broken == st.bus.broken
  {
  }
}
