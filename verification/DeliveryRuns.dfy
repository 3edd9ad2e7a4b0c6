/** What holds of command delivery in every run. */
module DeliveryRuns {
  import opened Base
  import opened Delivery

  /** 1 while the consumer is between issuing a Reset for the command and committing its result. */
  function InFlight(st: State, id: nat): (n: nat)
    requires id in st.commands
  {
    if WorkCalled(WorkOn(st, st.commands[id])) then 1 else 0
  }

  /**
   * Every Reset call is accounted for: it belongs to a broken attempt, to the
   * one attempt whose result was committed, or to the one still in flight.
   */
  lemma {:induction false} ResetAccounting(acts: seq<Action>, id: nat)
    requires Legal(acts)
    ensures var st := Exec(acts);
      && st.resets[id] <= 1 + st.broken[id]
      && (id in st.commands ==>
        && st.resets[id] == st.broken[id] + st.settled[id] + InFlight(st, id)
        && st.settled[id] + InFlight(st, id) <= 1)
  {
    AlwaysInv(acts);
    var st := Exec(acts);
    if id in st.commands { assert AccountInv(ViewOf(st, id)); } else { assert Absent(st, id); }
  }

  /**
   * A completed command met again after its record expired is past its
   * deadline, so its handler can only answer Expired.
   */
  lemma {:induction false} LateRedeliveryExpires(acts: seq<Action>, r: string)
    requires Legal(acts) && Current(Exec(acts), r).Some?
    requires var st := Exec(acts); var c := Current(st, r).value;
      c.id in st.completed && !LiveRecord(RecordOf(st, c.id), st.now)
    ensures Exec(acts).now >= Current(Exec(acts), r).value.deadline
    ensures !Enabled(Exec(acts), Enter(r))
  {
    AlwaysInv(acts);
    PlacesFor(Exec(acts), r);
  }

  /** A non-empty result list comes with a live record of equal expiry and holds nothing but that record's result. */
  lemma {:induction false} ResultAgreement(acts: seq<Action>, id: nat)
    requires Legal(acts) && LiveQueue(QueueOf(Exec(acts), id), Exec(acts).now)
    ensures var st := Exec(acts);
      && id in st.records && st.records[id].deadline == st.queues[id].deadline && LiveRecord(RecordOf(st, id), st.now)
      && st.records[id].result.id == id
      && forall x <- st.queues[id].items :: x == st.records[id].result
  {
    AlwaysInv(acts);
    var st := Exec(acts);
    assert id !in st.commands ==> Absent(st, id);
    assert AgreeInv(ViewOf(st, id));
  }

  /** A successful result, wherever it is stored, means the station confirmed that command's Reset. */
  lemma {:induction false} SuccessWasConfirmed(acts: seq<Action>, id: nat)
    requires Legal(acts) && id in Exec(acts).records && Exec(acts).records[id].result.success
    ensures id in Exec(acts).confirmed && id in Exec(acts).completed
  {
    AlwaysInv(acts);
    var st := Exec(acts);
    assert id !in st.commands ==> Absent(st, id);
    assert AgreeInv(ViewOf(st, id));
  }

  lemma ConfirmStep(st: State, a: Action, id: nat)
    requires Enabled(st, a) && id in Step(st, a).confirmed && id !in st.confirmed
    ensures a.Answer? && ConsumerOf(st, a.r).Calling? && Current(st, a.r).value.id == id && Step(st, a).resets == st.resets
  {
  }

  lemma ResetsGrow(st: State, a: Action, id: nat)
    requires Enabled(st, a)
    ensures st.resets[id] <= Step(st, a).resets[id]
  {
  }

  /** A confirmation comes from a Reset call. */
  lemma {:induction false} ConfirmedWasCalled(acts: seq<Action>, id: nat)
    requires Legal(acts) && id in Exec(acts).confirmed
    ensures Exec(acts).resets[id] >= 1
  {
    var n := |acts| - 1;
    var st, a := Exec(acts[..n]), acts[n];
    ResetsGrow(st, a, id);
    if id in st.confirmed {
      ConfirmedWasCalled(acts[..n], id);
    } else {
      ConfirmStep(st, a, id);
      AlwaysInv(acts[..n]);
      PlacesFor(st, a.r);
      assert AccountInv(ViewOf(st, id));
    }
  }

  datatype Place = Undelivered | Pending | Done | Trimmed

  /** Where entry i of a stream stands, each place with its own evidence. */
  predicate StandsAt(st: State, r: string, i: nat, p: Place) {
    var sm := StreamOf(st, r);
    i < |sm.log| &&
    match p
    case Trimmed => i < sm.trimmed
    case Undelivered => sm.trimmed <= i && sm.delivered <= i
    case Pending => sm.trimmed <= i && i in sm.pending
    case Done => sm.trimmed <= i && i in sm.acked
  }

  /**
   * Every entry is in exactly one place; done means a result was committed,
   * and trimmed means at least ten thousand entries were added after it.
   */
  lemma NoLostCommands(acts: seq<Action>, r: string, i: nat) returns (p: Place)
    requires Legal(acts) && i < |StreamOf(Exec(acts), r).log|
    ensures StandsAt(Exec(acts), r, i, p)
    ensures forall q :: StandsAt(Exec(acts), r, i, q) ==> q == p
    ensures p == Done ==> StreamOf(Exec(acts), r).log[i].id in Exec(acts).completed
    ensures p == Trimmed ==> |StreamOf(Exec(acts), r).log[i + 1..]| >= 10_000
  {
    AlwaysInv(acts);
    PlacesFor(Exec(acts), r);
    var sm := StreamOf(Exec(acts), r);
    p := if i < sm.trimmed then Trimmed
         else if sm.delivered <= i then Undelivered
         else if i in sm.pending then Pending else Done;
  }

  lemma StepKeepsLogs(st: State, a: Action, r: string)
    requires Enabled(st, a)
    ensures StreamOf(st, r).log <= StreamOf(Step(st, a), r).log
  {
    if OwnStep(a) { OwnFrame(st, a); }
  }

  /** Entries are never removed from the record, rewritten or reordered, so the places above cover them for good. */
  lemma {:induction false} EntriesStay(st: State, acts: seq<Action>, st': State, r: string)
    requires Follows(st, acts, st')
    ensures StreamOf(st, r).log <= StreamOf(st', r).log
    decreases |acts|
  {
    if acts != [] {
      StepKeepsLogs(st, acts[0], r);
      EntriesStay(Step(st, acts[0]), acts[1..], st', r);
    }
  }

  // ---------- An absolute bound on Reset calls

  const MAX_CALLS := COMMAND_TIMEOUT / PENDING_MIN_IDLE

  /** The consumer may yet issue a Reset for entry i in its present delivery. */
  predicate Ahead(c: Consumer, i: nat) {
    !c.Idle? && c.batch != [] &&
    (i in c.batch[1..] || (i == c.batch[0] && (c.Next? || c.Checked? || c.Running? || c.Admitted?)))
  }

  /**
   * Deliveries of one entry are five seconds apart, each allows one Reset
   * call, and only before the deadline.
   */
  predicate Budget(sm: Stream, c: Consumer, now: nat, i: nat, calls: nat)
    requires i < |sm.log|
  {
    && calls <= MAX_CALLS
    && (i >= sm.delivered ==> calls == 0)
    && (i in sm.pending ==>
      && sm.pending[i].times >= 1 && calls <= sm.pending[i].times
      && sm.log[i].created + PENDING_MIN_IDLE * (sm.pending[i].times - 1) <= sm.pending[i].at <= now)
    && (Ahead(c, i) ==> i in sm.pending && calls + 1 <= sm.pending[i].times)
    && ((c.Running? || c.Admitted?) && c.batch != [] && i == c.batch[0] ==>
      i in sm.pending && sm.pending[i].times <= MAX_CALLS)
  }

  predicate Ascending(batch: seq<nat>) { forall j, k | 0 <= j < k < |batch| :: batch[j] < batch[k] }

  predicate StreamBudget(sm: Stream, c: Consumer, now: nat, resets: multiset<nat>) {
    && (!c.Idle? ==> Ascending(c.batch))
    && (forall i, j | 0 <= i < j < |sm.log| :: sm.log[i].id != sm.log[j].id)
    && (forall i | 0 <= i < |sm.log| :: Budget(sm, c, now, i, resets[sm.log[i].id]))
  }

  ghost predicate Bounded(st: State) {
    forall r :: StreamBudget(StreamOf(st, r), ConsumerOf(st, r), st.now, st.resets)
  }

  /** Giving up the entry, or taking a later position on it other than by entering the handler. */
  lemma BudgetPosition(sm: Stream, c: Consumer, c': Consumer, now: nat, resets: multiset<nat>)
    requires StreamBudget(sm, c, now, resets)
    requires c'.Idle? || (!c.Idle? && c'.batch == c.batch)
    requires c'.Next? || c'.Checked? || c'.Admitted? ==> c.Next? || c.Checked? || c.Running? || c.Admitted?
    requires !c'.Running? && (c'.Admitted? ==> c.Running?)
    ensures StreamBudget(sm, c', now, resets)
  {
  }

  lemma BudgetEnter(sm: Stream, c: Consumer, now: nat, resets: multiset<nat>)
    requires StreamBudget(sm, c, now, resets) && c.Checked? && c.batch != [] && c.batch[0] < |sm.log|
    requires now < sm.log[c.batch[0]].created + COMMAND_TIMEOUT
    ensures StreamBudget(sm, Running(c.batch), now, resets)
  {
    assert Ahead(c, c.batch[0]);
  }

  lemma BudgetCall(sm: Stream, c: Consumer, now: nat, resets: multiset<nat>)
    requires StreamBudget(sm, c, now, resets) && c.Admitted? && ConsumerInv(c, sm)
    ensures StreamBudget(sm, Calling(c.batch), now, resets + multiset{sm.log[c.batch[0]].id})
  {
    assert Ahead(c, c.batch[0]);
    assert forall k | 0 <= k < |c.batch[1..]| :: c.batch[1..][k] == c.batch[k + 1] > c.batch[0];
    forall i | 0 <= i < |sm.log|
      ensures Budget(sm, Calling(c.batch), now, i, (resets + multiset{sm.log[c.batch[0]].id})[sm.log[i].id])
    {
      assert Budget(sm, c, now, i, resets[sm.log[i].id]);
    }
  }

  lemma BudgetAck(sm: Stream, c: Consumer, c': Consumer, now: nat, resets: multiset<nat>)
    requires StreamBudget(sm, c, now, resets) && c.Committed? && c.batch != []
    requires c'.Idle? || (|c.batch| > 1 && c' == Next(c.batch[1..]))
    ensures StreamBudget(Acked(sm, c.batch[0]), c', now, resets) && StreamBudget(sm, c', now, resets)
  {
    if !c'.Idle? { AscendingTail(c.batch); }
    forall i | 0 <= i < |sm.log|
      ensures Budget(Acked(sm, c.batch[0]), c', now, i, resets[sm.log[i].id]) && Budget(sm, c', now, i, resets[sm.log[i].id])
    {
      assert Budget(sm, c, now, i, resets[sm.log[i].id]);
      if Ahead(c', i) {
        assert i in c.batch[1..];
        assert i != c.batch[0];
      }
    }
  }

  lemma AscendingTail(batch: seq<nat>)
    requires batch != [] && Ascending(batch)
    ensures Ascending(batch[1..])
  {
  }

  lemma BudgetReclaim(sm: Stream, c: Consumer, now: nat, resets: multiset<nat>, batch: seq<nat>, dropped: set<nat>)
    requires StreamBudget(sm, Idle, now, resets) && Reclaimable(sm, now, batch)
    requires forall i <- dropped :: i in sm.pending && i < sm.trimmed
    requires c.Idle? || (c == Next(batch) && batch != [])
    ensures StreamBudget(Reclaimed(sm, now, batch, dropped), c, now, resets)
  {
    var sm' := Reclaimed(sm, now, batch, dropped);
    forall i | 0 <= i < |sm.log| ensures Budget(sm', c, now, i, resets[sm.log[i].id]) {
      assert Budget(sm, Idle, now, i, resets[sm.log[i].id]);
      if Ahead(c, i) { assert i in batch; }
    }
  }

  lemma BudgetRead(sm: Stream, c: Consumer, now: nat, resets: multiset<nat>)
    requires StreamBudget(sm, Idle, now, resets) && NextEntry(sm) < |sm.log| && sm.log[NextEntry(sm)].created <= now
    requires c.Idle? || c == Next([NextEntry(sm)])
    ensures StreamBudget(HandedOut(sm, now), c, now, resets)
  {
    var sm' := HandedOut(sm, now);
    forall i | 0 <= i < |sm.log| ensures Budget(sm', c, now, i, resets[sm.log[i].id]) {
      assert Budget(sm, Idle, now, i, resets[sm.log[i].id]);
    }
  }

  lemma BudgetPublish(sm: Stream, c: Consumer, now: nat, resets: multiset<nat>, command: Command, trimmed: nat)
    requires StreamBudget(sm, c, now, resets) && ConsumerInv(c, sm) && resets[command.id] == 0
    requires forall i | 0 <= i < |sm.log| :: sm.log[i].id != command.id
    requires sm.delivered <= |sm.log| && forall i | i in sm.pending :: i < sm.delivered
    ensures StreamBudget(sm.(log := sm.log + [command], trimmed := trimmed), c, now, resets)
  {
    var sm' := sm.(log := sm.log + [command], trimmed := trimmed);
    forall i | 0 <= i < |sm'.log| ensures Budget(sm', c, now, i, resets[sm'.log[i].id]) {
      if i < |sm.log| {
        assert Budget(sm, c, now, i, resets[sm.log[i].id]);
      } else {
        assert !c.Idle? ==> i !in c.batch;
      }
    }
  }

  /** Only stream r, its consumer, and the Reset counts of its own commands changed. */
  lemma BudgetElsewhere(st: State, st': State, r: string)
    requires Inv(st) && Bounded(st) && st.now <= st'.now
    requires forall r' | r' != r :: StreamOf(st', r') == StreamOf(st, r') && ConsumerOf(st', r') == ConsumerOf(st, r')
    requires forall id | id in st.commands && st.commands[id].owner != r :: st'.resets[id] == st.resets[id]
    requires StreamBudget(StreamOf(st', r), ConsumerOf(st', r), st'.now, st'.resets)
    ensures Bounded(st')
  {
    forall r' | r' != r ensures StreamBudget(StreamOf(st', r'), ConsumerOf(st', r'), st'.now, st'.resets) {
      BudgetUnchanged(st, st', r');
    }
  }

  lemma BudgetUnchanged(st: State, st': State, r: string)
    requires Inv(st) && Bounded(st) && st.now <= st'.now
    requires StreamOf(st', r) == StreamOf(st, r) && ConsumerOf(st', r) == ConsumerOf(st, r)
    requires forall id | id in st.commands && st.commands[id].owner == r :: st'.resets[id] == st.resets[id]
    ensures StreamBudget(StreamOf(st', r), ConsumerOf(st', r), st'.now, st'.resets)
  {
    PlacesFor(st, r);
    var sm, c := StreamOf(st, r), ConsumerOf(st, r);
    assert StreamBudget(sm, c, st.now, st.resets);
    forall i | 0 <= i < |sm.log| ensures Budget(sm, c, st'.now, i, st'.resets[sm.log[i].id]) {
      assert Budget(sm, c, st.now, i, st.resets[sm.log[i].id]);
    }
  }

  predicate OwnStep(a: Action) {
    a.Check? || a.UseFound? || a.Expire? || a.Enter? || a.Gate? || a.Reject? || a.Call? || a.Answer? ||
    a.Commit? || a.Abort?
  }

  predicate HandOver(a: Action) { a.Recover? || a.Read? || a.Ack? }

  /** st' differs from st, as far as budgets go, only in the consumer of r and the Reset counts. */
  predicate OnlyConsumer(st: State, st': State, r: string) {
    && st'.streams == st.streams && st'.now == st.now
    && st'.consumers.Keys == st.consumers.Keys + {r}
    && forall r' | r' in st.consumers && r' != r :: st'.consumers[r'] == st.consumers[r']
  }

  lemma StopFrame(st: State, r: string)
    ensures OnlyConsumer(st, Stop(st, r), r) && Stop(st, r).resets == st.resets
  {
  }

  lemma CommitFrame(st: State, r: string, fate: Fate)
    requires ConsumerOf(st, r).Finished? && Current(st, r).Some?
    ensures OnlyConsumer(st, CommitStep(st, r, fate), r) && CommitStep(st, r, fate).resets == st.resets
  {
    StopFrame(st, r);
  }

  lemma OwnFrame(st: State, a: Action)
    requires Enabled(st, a) && OwnStep(a)
    ensures OnlyConsumer(st, Step(st, a), a.r)
    ensures Step(st, a).resets == (if a.Call? then st.resets + multiset{Current(st, a.r).value.id} else st.resets)
  {
    match a
    case Commit(r, fate) => CommitFrame(st, r, fate);
    case Abort(r) => StopFrame(st, r);
    case _ =>
  }

  lemma HandOverFrame(st: State, a: Action)
    requires Enabled(st, a) && HandOver(a)
    ensures var st' := Step(st, a);
      && (forall r' | r' != a.r :: StreamOf(st', r') == StreamOf(st, r') && ConsumerOf(st', r') == ConsumerOf(st, r'))
      && st'.now == st.now && st'.resets == st.resets
  {
  }

  lemma OwnStepPosition(st: State, a: Action)
    requires Enabled(st, a) && OwnStep(a) && !a.Enter? && !a.Call?
    ensures var c, c' := ConsumerOf(st, a.r), ConsumerOf(Step(st, a), a.r);
      && (c'.Idle? || (!c.Idle? && c'.batch == c.batch))
      && (c'.Next? || c'.Checked? || c'.Admitted? ==> c.Next? || c.Checked? || c.Running? || c.Admitted?)
      && !c'.Running? && (c'.Admitted? ==> c.Running?)
  {
  }

  lemma OwnStepBudget(st: State, a: Action)
    requires Inv(st) && Bounded(st) && Enabled(st, a) && OwnStep(a)
    ensures var st' := Step(st, a);
      StreamBudget(StreamOf(st', a.r), ConsumerOf(st', a.r), st'.now, st'.resets)
  {
    var sm, c := StreamOf(st, a.r), ConsumerOf(st, a.r);
    assert StreamBudget(sm, c, st.now, st.resets);
    PlacesFor(st, a.r);
    OwnFrame(st, a);
    if a.Enter? {
      assert AgreeInv(ViewOf(st, Current(st, a.r).value.id));
      BudgetEnter(sm, c, st.now, st.resets);
    } else if a.Call? {
      BudgetCall(sm, c, st.now, st.resets);
    } else {
      OwnStepPosition(st, a);
      BudgetPosition(sm, c, ConsumerOf(Step(st, a), a.r), st.now, st.resets);
    }
  }

  lemma NextIsCreated(st: State, r: string)
    requires Inv(st) && NextEntry(StreamOf(st, r)) < |StreamOf(st, r).log|
    ensures StreamOf(st, r).log[NextEntry(StreamOf(st, r))].created <= st.now
  {
    var command := StreamOf(st, r).log[NextEntry(StreamOf(st, r))];
    PlacesFor(st, r);
    assert st.commands[command.id] == command && AgreeInv(ViewOf(st, command.id));
  }

  /** The steps in which a consumer takes or leaves entries. */
  lemma HandOverBudget(st: State, a: Action)
    requires Inv(st) && Bounded(st) && Enabled(st, a) && HandOver(a)
    ensures var st' := Step(st, a);
      StreamBudget(StreamOf(st', a.r), ConsumerOf(st', a.r), st'.now, st'.resets)
  {
    var st' := Step(st, a);
    var sm, c, c' := StreamOf(st, a.r), ConsumerOf(st, a.r), ConsumerOf(st', a.r);
    assert StreamBudget(sm, c, st.now, st.resets);
    PlacesFor(st, a.r);
    match a
    case Recover(r, batch, dropped, fate) => BudgetReclaim(sm, c', st.now, st.resets, batch, dropped);
    case Read(r, fate) =>
      NextIsCreated(st, r);
      if fate.Applied() { BudgetRead(sm, c', st.now, st.resets); }
    case Ack(r, fate) => BudgetAck(sm, c, c', st.now, st.resets);
  }

  lemma PublishBudget(st: State, c: Command, trimmed: nat)
    requires Inv(st) && Bounded(st) && Enabled(st, Publish(c, trimmed))
    ensures var st' := PublishStep(st, c, trimmed);
      StreamBudget(StreamOf(st', c.owner), ConsumerOf(st', c.owner), st'.now, st'.resets)
  {
    var sm, cn := StreamOf(st, c.owner), ConsumerOf(st, c.owner);
    assert StreamBudget(sm, cn, st.now, st.resets) && Absent(st, c.id);
    PlacesFor(st, c.owner);
    BudgetPublish(sm, cn, st.now, st.resets, c, trimmed);
  }

  lemma OwnElsewhere(st: State, a: Action)
    requires Inv(st) && Enabled(st, a) && OwnStep(a)
    ensures var st' := Step(st, a);
      && st'.now == st.now
      && (forall r | r != a.r :: StreamOf(st', r) == StreamOf(st, r) && ConsumerOf(st', r) == ConsumerOf(st, r))
      && forall id | id in st.commands && st.commands[id].owner != a.r :: st'.resets[id] == st.resets[id]
  {
    OwnFrame(st, a);
    FrameElsewhere(st, Step(st, a), a.r);
    if a.Call? { CurrentIsOwn(st, a.r); }
  }

  lemma FrameElsewhere(st: State, st': State, r: string)
    requires OnlyConsumer(st, st', r)
    ensures forall r' | r' != r :: StreamOf(st', r') == StreamOf(st, r') && ConsumerOf(st', r') == ConsumerOf(st, r')
  {
  }

  lemma CurrentIsOwn(st: State, r: string)
    requires Inv(st) && ConsumerOf(st, r).Admitted?
    ensures Current(st, r).Some? && Current(st, r).value.id in st.commands
    ensures st.commands[Current(st, r).value.id].owner == r
  {
    PlacesFor(st, r);
  }

  lemma OwnBounded(st: State, a: Action)
    requires Inv(st) && Bounded(st) && Enabled(st, a) && OwnStep(a)
    ensures Bounded(Step(st, a))
  {
    OwnElsewhere(st, a);
    OwnStepBudget(st, a);
    BudgetElsewhere(st, Step(st, a), a.r);
  }

  lemma HandOverBounded(st: State, a: Action)
    requires Inv(st) && Bounded(st) && Enabled(st, a) && HandOver(a)
    ensures Bounded(Step(st, a))
  {
    HandOverFrame(st, a);
    HandOverBudget(st, a);
    BudgetElsewhere(st, Step(st, a), a.r);
  }

  lemma QuietBounded(st: State, st': State)
    requires Inv(st) && Bounded(st) && st.now <= st'.now
    requires st'.streams == st.streams && st'.consumers == st.consumers && st'.resets == st.resets
    ensures Bounded(st')
  {
    forall r ensures StreamBudget(StreamOf(st', r), ConsumerOf(st', r), st'.now, st'.resets) {
      BudgetUnchanged(st, st', r);
    }
  }

  lemma StepBounded(st: State, a: Action)
    requires Inv(st) && Bounded(st) && Enabled(st, a)
    ensures Bounded(Step(st, a))
  {
    if a.Tick? || a.Pop? {
      QuietBounded(st, Step(st, a));
    } else if a.Publish? {
      PublishBudget(st, a.c, a.trimmed);
      BudgetElsewhere(st, Step(st, a), a.c.owner);
    } else if OwnStep(a) {
      OwnBounded(st, a);
    } else {
      HandOverBounded(st, a);
    }
  }

  lemma {:induction false} AlwaysBounded(acts: seq<Action>)
    requires Legal(acts)
    ensures Bounded(Exec(acts))
  {
    if acts != [] {
      AlwaysInv(acts[..|acts| - 1]);
      AlwaysBounded(acts[..|acts| - 1]);
      StepBounded(Exec(acts[..|acts| - 1]), acts[|acts| - 1]);
    }
  }

  lemma PublishedStep(st: State, a: Action, id: nat)
    requires Enabled(st, a) && id in Step(st, a).commands
    ensures if id in st.commands then Step(st, a).commands[id] == st.commands[id]
            else a.Publish? && a.c.id == id && Step(st, a).commands[id] == a.c
  {
  }

  /** Every published command is an entry of its owner's stream. */
  lemma {:induction false} PublishedIsLogged(acts: seq<Action>, id: nat) returns (i: nat)
    requires Legal(acts) && id in Exec(acts).commands
    ensures var c := Exec(acts).commands[id];
      i < |StreamOf(Exec(acts), c.owner).log| && StreamOf(Exec(acts), c.owner).log[i] == c
  {
    var n := |acts| - 1;
    var st, a := Exec(acts[..n]), acts[n];
    PublishedStep(st, a, id);
    if id in st.commands {
      i := PublishedIsLogged(acts[..n], id);
      StepKeepsLogs(st, a, st.commands[id].owner);
    } else {
      i := |StreamOf(st, a.c.owner).log|;
    }
  }

  /**
   * However often consumers break, a command leads to at most six Reset
   * calls: deliveries are at least five seconds apart and the handler is only
   * entered within thirty seconds of the command's creation.
   */
  lemma {:induction false} AtMostSixResets(acts: seq<Action>, id: nat)
    requires Legal(acts)
    ensures Exec(acts).resets[id] <= 6
  {
    AlwaysInv(acts);
    AlwaysBounded(acts);
    var st := Exec(acts);
    if id in st.commands {
      var c := st.commands[id];
      var i := PublishedIsLogged(acts, id);
      assert c.id == id;
      assert StreamBudget(StreamOf(st, c.owner), ConsumerOf(st, c.owner), st.now, st.resets);
      assert Budget(StreamOf(st, c.owner), ConsumerOf(st, c.owner), st.now, i, st.resets[id]);
    } else {
      assert Absent(st, id);
    }
  }

  // ---------- The bound is reached

  predicate Follows(st: State, acts: seq<Action>, st': State)
    decreases |acts|
  {
    if acts == [] then st == st'
    else Enabled(st, acts[0]) && Follows(Step(st, acts[0]), acts[1..], st')
  }

  lemma {:induction false} FollowsOn(st: State, acts: seq<Action>, mid: State, more: seq<Action>, st': State)
    requires Follows(st, acts, mid) && Follows(mid, more, st')
    ensures Follows(st, acts + more, st')
    decreases |acts|
  {
    if acts == [] {
      assert acts + more == more;
    } else {
      FollowsOn(Step(st, acts[0]), acts[1..], mid, more, st');
      assert (acts + more)[1..] == acts[1..] + more;
    }
  }

  lemma Snoc(acts: seq<Action>, a: Action)
    requires Legal(acts) && Enabled(Exec(acts), a)
    ensures Legal(acts + [a]) && Exec(acts + [a]) == Step(Exec(acts), a)
  {
    assert (acts + [a])[..|acts|] == acts;
  }

  lemma OneFurther(before: seq<Action>, acts: seq<Action>, st': State)
    requires Legal(before) && Follows(Exec(before), acts, st') && acts != []
    ensures Legal(before + [acts[0]]) && Follows(Exec(before + [acts[0]]), acts[1..], st')
    ensures before + [acts[0]] + acts[1..] == before + acts
  {
    Snoc(before, acts[0]);
  }

  lemma {:induction false} RunsCompose(before: seq<Action>, acts: seq<Action>, st': State)
    requires Legal(before) && Follows(Exec(before), acts, st')
    ensures Legal(before + acts) && Exec(before + acts) == st'
    decreases |acts|
  {
    if acts == [] {
      assert before + acts == before;
    } else {
      OneFurther(before, acts, st');
      RunsCompose(before + [acts[0]], acts[1..], st');
    }
  }

  /** The only entry of r's stream has been handed out k times and each attempt broke after its Reset call. */
  predicate BrokenSoFar(st: State, r: string, c: Command, k: nat) {
    var sm := StreamOf(st, r);
    && sm.log == [c] && sm.trimmed == 0 && 0 in sm.pending && st.now - sm.pending[0].at >= PENDING_MIN_IDLE
    && ConsumerOf(st, r).Idle? && RecordOf(st, c.id) == None
    && c.deadline == c.created + COMMAND_TIMEOUT && st.now == c.created + PENDING_MIN_IDLE * k
    && st.resets[c.id] == k && st.broken[c.id] == k
  }

  /** First half of an attempt: handler entered and gate passed. */
  lemma AttemptAdmitted(st: State, r: string, c: Command) returns (st': State)
    requires ConsumerOf(st, r) == Next([0]) && StreamOf(st, r).log == [c]
    requires RecordOf(st, c.id) == None && st.now < c.deadline
    ensures Follows(st, [Check(r), Enter(r), Gate(r, true)], st')
    ensures st' == SetConsumer(SetConsumer(SetConsumer(st, r, Checked([0], None)), r, Running([0])), r, Admitted([0]))
  {
    var st1 := Step(st, Check(r));
    var st2 := Step(st1, Enter(r));
    st' := Step(st2, Gate(r, true));
    var acts := [Check(r), Enter(r), Gate(r, true)];
    assert acts[1..] == [Enter(r), Gate(r, true)] && acts[1..][1..] == [Gate(r, true)];
    assert Follows(st2, acts[1..][1..], st');
    assert Follows(st1, acts[1..], st');
  }

  /** Second half: Reset issued, consumer stopped, five seconds passed. */
  lemma AttemptBroken(st: State, r: string, c: Command) returns (st': State)
    requires ConsumerOf(st, r) == Admitted([0]) && StreamOf(st, r).log == [c]
    ensures Follows(st, [Call(r), Abort(r), Tick(PENDING_MIN_IDLE)], st')
    ensures StreamOf(st', r) == StreamOf(st, r) && ConsumerOf(st', r).Idle? && RecordOf(st', c.id) == RecordOf(st, c.id)
    ensures st'.now == st.now + PENDING_MIN_IDLE
    ensures st'.resets[c.id] == st.resets[c.id] + 1 && st'.broken[c.id] == st.broken[c.id] + 1
  {
    var st1 := Step(st, Call(r));
    var st2 := Step(st1, Abort(r));
    st' := Step(st2, Tick(PENDING_MIN_IDLE));
    var acts := [Call(r), Abort(r), Tick(PENDING_MIN_IDLE)];
    assert acts[1..] == [Abort(r), Tick(PENDING_MIN_IDLE)] && acts[1..][1..] == [Tick(PENDING_MIN_IDLE)];
    assert Follows(st2, acts[1..][1..], st');
    assert Follows(st1, acts[1..], st');
  }

  lemma Attempt(st: State, r: string, c: Command) returns (acts: seq<Action>, st': State)
    requires ConsumerOf(st, r) == Next([0]) && StreamOf(st, r).log == [c]
    requires RecordOf(st, c.id) == None && st.now < c.deadline
    ensures Follows(st, acts, st')
    ensures StreamOf(st', r) == StreamOf(st, r) && ConsumerOf(st', r).Idle? && RecordOf(st', c.id) == None
    ensures st'.now == st.now + PENDING_MIN_IDLE
    ensures st'.resets[c.id] == st.resets[c.id] + 1 && st'.broken[c.id] == st.broken[c.id] + 1
    ensures AllLocal(acts, r)
  {
    var mid := AttemptAdmitted(st, r, c);
    st' := AttemptBroken(mid, r, c);
    acts := [Check(r), Enter(r), Gate(r, true)] + [Call(r), Abort(r), Tick(PENDING_MIN_IDLE)];
    FollowsOn(st, [Check(r), Enter(r), Gate(r, true)], mid, [Call(r), Abort(r), Tick(PENDING_MIN_IDLE)], st');
  }

  /** The command was just published to r's empty stream. */
  predicate JustPublished(st: State, r: string, c: Command) {
    && StreamOf(st, r) == Stream([c], 0, 0, map[], {}) && ConsumerOf(st, r).Idle? && RecordOf(st, c.id) == None
    && c.deadline == c.created + COMMAND_TIMEOUT && st.now == c.created && st.resets[c.id] == 0 && st.broken[c.id] == 0
  }

  /** A step of r's consumer in which its gate, if asked, opens; or time passing. */
  predicate LocalTo(d: Action, r: string) {
    || d.Tick? || d == Gate(r, true)
    || ((d.Recover? || d.Read? || d.Check? || d.Enter? || d.Call? || d.Answer? || d.Commit? || d.Ack? || d.Abort?)
        && d.r == r)
  }

  predicate AllLocal(ds: seq<Action>, r: string) { forall i | 0 <= i < |ds| :: LocalTo(ds[i], r) }

  /** Attempt after attempt, each five seconds after the one before, breaks after its Reset call. */
  lemma {:induction false} BreakAgain(st: State, r: string, c: Command, k: nat) returns (ds: seq<Action>, st': State)
    requires JustPublished(st, r, c) && 1 <= k <= MAX_CALLS
    ensures Follows(st, ds, st') && BrokenSoFar(st', r, c, k) && AllLocal(ds, r)
    decreases k
  {
    if k == 1 {
      var read := Read(r, Acknowledged);
      var more;
      more, st' := Attempt(Step(st, read), r, c);
      assert ([read] + more)[1..] == more;
      ds := [read] + more;
    } else {
      var before, mid := BreakAgain(st, r, c, k - 1);
      var recover := Recover(r, [0], {}, Acknowledged);
      var more;
      more, st' := Attempt(Step(mid, recover), r, c);
      assert ([recover] + more)[1..] == more;
      FollowsOn(st, before, mid, [recover] + more, st');
      ds := before + ([recover] + more);
    }
  }

  // ---------- An undisturbed attempt

  /** The consumer has committed the station's answer: one result for the caller, one Reset call, nothing broken. */
  predicate AnswerStored(st: State, r: string, c: Command, ok: bool) {
    && ConsumerOf(st, r) == Committed([0]) && StreamOf(st, r).log == [c] && st.resets[c.id] == 1 && st.broken[c.id] == 0
    && c.id in st.queues && |st.queues[c.id].items| == 1 && st.now < st.queues[c.id].deadline
    && st.queues[c.id].items[0].success == ok && st.queues[c.id].items[0].id == c.id
    && (ok <==> c.id in st.confirmed)
  }

  lemma AttemptAnswered(st: State, r: string, c: Command, ok: bool) returns (st': State)
    requires ConsumerOf(st, r) == Admitted([0]) && StreamOf(st, r).log == [c]
    requires c.id !in st.queues && st.resets[c.id] == 0 && st.broken[c.id] == 0 && c.id !in st.confirmed
    ensures Follows(st, [Call(r), Answer(r, ok), Commit(r, Acknowledged)], st')
    ensures AnswerStored(st', r, c, ok)
  {
    AnswerCommitted(st, r, c, ok);
    st' := Step(Step(Step(st, Call(r)), Answer(r, ok)), Commit(r, Acknowledged));
    ThreeSteps(st, Call(r), Answer(r, ok), Commit(r, Acknowledged));
  }

  lemma AnswerCommitted(st: State, r: string, c: Command, ok: bool)
    requires ConsumerOf(st, r) == Admitted([0]) && StreamOf(st, r).log == [c]
    requires c.id !in st.queues && st.resets[c.id] == 0 && st.broken[c.id] == 0 && c.id !in st.confirmed
    ensures Enabled(st, Call(r)) && Enabled(Step(st, Call(r)), Answer(r, ok))
    ensures var st2 := Step(Step(st, Call(r)), Answer(r, ok));
      Enabled(st2, Commit(r, Acknowledged)) && AnswerStored(Step(st2, Commit(r, Acknowledged)), r, c, ok)
  {
  }

  lemma ThreeSteps(st: State, a: Action, b: Action, c: Action)
    requires Enabled(st, a) && Enabled(Step(st, a), b) && Enabled(Step(Step(st, a), b), c)
    ensures Follows(st, [a, b, c], Step(Step(Step(st, a), b), c))
  {
    var st' := Step(Step(Step(st, a), b), c);
    assert [a, b, c][1..] == [b, c] && [b, c][1..] == [c];
    assert Follows(Step(Step(st, a), b), [c], st');
    assert Follows(Step(st, a), [b, c], st');
  }

  /** Read, handler entered, gate passed, Reset called and answered, result committed. */
  lemma AnsweredOnce(st: State, r: string, c: Command, ok: bool) returns (ds: seq<Action>, st': State)
    requires JustPublished(st, r, c) && c.id !in st.queues && c.id !in st.confirmed
    ensures Follows(st, ds, st') && AllLocal(ds, r) && AnswerStored(st', r, c, ok)
  {
    var read := Read(r, Acknowledged);
    var first, last := [Check(r), Enter(r), Gate(r, true)], [Call(r), Answer(r, ok), Commit(r, Acknowledged)];
    var handed := Step(st, read);
    var mid := AttemptAdmitted(handed, r, c);
    st' := AttemptAnswered(mid, r, c, ok);
    FollowsOn(handed, first, mid, last, st');
    assert ([read] + (first + last))[1..] == first + last;
    ds := [read] + (first + last);
  }

  // ---------- Results and their causes

  /** r's consumer has just come to a result. */
  predicate Finishes(st: State, a: Action, r: string)
    requires Enabled(st, a)
  {
    !ConsumerOf(st, r).Finished? && ConsumerOf(Step(st, a), r).Finished?
  }

  /** What is known of a result that was not found recorded. */
  predicate Caused(result: Result, a: Action, r: string, id: nat, now: nat) {
    && result.id == id && result.completedAt == now
    && (result.success <==> a == Answer(r, true)) && (result.success <==> result.code == "")
    && (result.code == "Expired" <==> a == Expire(r)) && (result.code == "NotOwner" <==> a == Gate(r, false))
    && (result.code == "OCPPCallFailed" <==> a == Answer(r, false) || a == Reject(r, "OCPPCallFailed"))
    && (a.Reject? ==> result.code == a.code)
  }

  lemma OwnResult(st: State, a: Action, r: string)
    requires Enabled(st, a) && OwnStep(a) && a.r == r && Finishes(st, a, r) && Current(st, r).Some?
    ensures ConsumerOf(st, r).batch == ConsumerOf(Step(st, a), r).batch
    ensures var result := ConsumerOf(Step(st, a), r).result;
      if a.UseFound? then ConsumerOf(st, r).Checked? && ConsumerOf(st, r).found == Some(result)
      else Caused(result, a, r, Current(st, r).value.id, st.now)
    ensures ConsumerOf(Step(st, a), r).called <==> a.Answer?
  {
  }

  lemma OwnFinish(st: State, a: Action, r: string)
    requires Enabled(st, a) && Finishes(st, a, r)
    ensures OwnStep(a) && a.r == r
  {
    if OwnStep(a) { OwnFrame(st, a); } else if HandOver(a) { HandOverFrame(st, a); }
  }

  /**
   * In every run, each result a consumer comes to has its exact cause: it is the
   * record found; or it is of the current command and moment, a success exactly
   * when the station confirmed the Reset, and a failure whose code says why.
   */
  lemma ResultsExactly(acts: seq<Action>, a: Action, r: string)
    requires Legal(acts) && Enabled(Exec(acts), a) && Finishes(Exec(acts), a, r)
    ensures var st, st' := Exec(acts), Step(Exec(acts), a);
      && Current(st, r).Some? && ConsumerOf(st, r).batch == ConsumerOf(st', r).batch
      && (if a == UseFound(r) then ConsumerOf(st, r).Checked? && ConsumerOf(st, r).found == Some(ConsumerOf(st', r).result)
          else Caused(ConsumerOf(st', r).result, a, r, Current(st, r).value.id, st.now))
      && (ConsumerOf(st', r).called <==> a == Answer(r, true) || a == Answer(r, false))
  {
    AlwaysInv(acts);
    PlacesFor(Exec(acts), r);
    OwnFinish(Exec(acts), a, r);
    OwnResult(Exec(acts), a, r);
  }

  /**
   * A store call that is not answered ends the consumer's round; an answered one
   * goes on to the next thing at hand, and ends it only when nothing is left.
   */
  lemma ErrorsEndTheRound(st: State, a: Action)
    requires Enabled(st, a) && (a.Recover? || a.Read? || a.Commit? || a.Ack?)
    ensures var before, after := ConsumerOf(st, a.r), ConsumerOf(Step(st, a), a.r);
      if !a.fate.Acknowledged? then after.Idle?
      else if a.Recover? then after == if a.batch == [] then Idle else Next(a.batch)
      else if a.Read? then after == Next([NextEntry(StreamOf(st, a.r))])
      else if a.Commit? then after == Committed(before.batch)
      else after == if |before.batch| == 1 then Idle else Next(before.batch[1..])
  {
  }

  // ---------- Pending entries can always be finished

  /** A consumer comes to a result without calling the station: the record's, or Expired. */
  lemma FinishesQuietly(st: State, r: string) returns (acts: seq<Action>, st': State)
    requires ConsumerOf(st, r).Next? && Current(st, r).Some?
    requires var rec := RecordOf(st, Current(st, r).value.id); rec.Some? ==> rec.value.result.id == Current(st, r).value.id
    ensures Follows(st, acts, st')
    ensures st' == SetConsumer(SetConsumer(st, r, ConsumerOf(Step(st, Check(r)), r)), r, ConsumerOf(st', r))
    ensures ConsumerOf(st', r).Finished? && ConsumerOf(st', r).batch == ConsumerOf(st, r).batch
    ensures ConsumerOf(st', r).result.id == Current(st, r).value.id && !ConsumerOf(st', r).called
  {
    var st1 := Step(st, Check(r));
    var next := if ConsumerOf(st1, r).found.Some? then UseFound(r) else Expire(r);
    st' := Step(st1, next);
    acts := [Check(r), next];
    assert acts[1..] == [next];
    assert Follows(st1, [next], st');
  }

  /** The current entry is done: committed and acknowledged, with the rest of the batch up next. */
  ghost predicate WorkedOff(st: State, st': State, r: string, batch: seq<nat>) {
    && |batch| > 0 && batch[0] < |StreamOf(st, r).log|
    && StreamOf(st', r) == Acked(StreamOf(st, r), batch[0]) && st'.resets == st.resets && st'.now == st.now
    && ConsumerOf(st', r) == (if |batch| > 1 then Next(batch[1..]) else Idle)
    && StreamOf(st, r).log[batch[0]].id in st'.completed
  }

  lemma CommitsAndAcks(st: State, r: string) returns (st': State)
    requires ConsumerOf(st, r).Finished? && Current(st, r).Some? && ConsumerOf(st, r).result.id == Current(st, r).value.id
    ensures Follows(st, [Commit(r, Acknowledged), Ack(r, Acknowledged)], st')
    ensures WorkedOff(st, st', r, ConsumerOf(st, r).batch)
  {
    var st1 := Step(st, Commit(r, Acknowledged));
    st' := Step(st1, Ack(r, Acknowledged));
    var acts := [Commit(r, Acknowledged), Ack(r, Acknowledged)];
    assert acts[1..] == [Ack(r, Acknowledged)];
    assert Follows(st1, [Ack(r, Acknowledged)], st');
  }

  lemma OneWorkedOff(st: State, r: string) returns (acts: seq<Action>, st': State)
    requires Inv(st) && ConsumerOf(st, r).Next?
    ensures Follows(st, acts, st') && WorkedOff(st, st', r, ConsumerOf(st, r).batch)
  {
    PlacesFor(st, r);
    assert AgreeInv(ViewOf(st, Current(st, r).value.id));
    var first, mid := FinishesQuietly(st, r);
    st' := CommitsAndAcks(mid, r);
    var last := [Commit(r, Acknowledged), Ack(r, Acknowledged)];
    FollowsOn(st, first, mid, last, st');
    acts := first + last;
  }

  lemma {:induction false} FollowsKeeps(st: State, acts: seq<Action>, st': State)
    requires Inv(st) && Follows(st, acts, st')
    ensures Inv(st')
    decreases |acts|
  {
    if acts != [] {
      StepKeeps(st, acts[0]);
      FollowsKeeps(Step(st, acts[0]), acts[1..], st');
    }
  }

  /** All of them are acknowledged and have a committed result. */
  ghost predicate AllDone(st: State, r: string, batch: seq<nat>) {
    forall k | 0 <= k < |batch| ::
      && batch[k] in StreamOf(st, r).acked && batch[k] < |StreamOf(st, r).log|
      && StreamOf(st, r).log[batch[k]].id in st.completed
  }

  /** A consumer can work off its whole batch, in order and without another Reset call. */
  lemma {:induction false} BatchFinishes(st: State, r: string) returns (acts: seq<Action>, st': State)
    requires Inv(st) && ConsumerOf(st, r).Next?
    ensures Follows(st, acts, st') && ConsumerOf(st', r).Idle? && AllAcked(StreamOf(st', r), ConsumerOf(st, r).batch)
    ensures st'.resets == st.resets && st'.now == st.now && StreamOf(st, r).acked <= StreamOf(st', r).acked
    ensures StreamOf(st', r).log == StreamOf(st, r).log
    decreases |ConsumerOf(st, r).batch|
  {
    var batch := ConsumerOf(st, r).batch;
    var mid;
    acts, mid := OneWorkedOff(st, r);
    FollowsKeeps(st, acts, mid);
    st' := mid;
    if |batch| > 1 {
      var more;
      more, st' := BatchFinishes(mid, r);
      FollowsOn(st, acts, mid, more, st');
      acts := acts + more;
      AckedRest(StreamOf(st', r), batch);
    }
  }

  predicate AllAcked(sm: Stream, batch: seq<nat>) { forall k | 0 <= k < |batch| :: batch[k] in sm.acked }

  lemma AckedRest(sm: Stream, batch: seq<nat>)
    requires batch != [] && batch[0] in sm.acked && AllAcked(sm, batch[1..])
    ensures AllAcked(sm, batch)
  {
    assert forall k | 1 <= k < |batch| :: batch[k] == batch[1..][k - 1];
  }

  lemma AckedIsDone(st: State, r: string, batch: seq<nat>)
    requires Inv(st) && AllAcked(StreamOf(st, r), batch)
    ensures AllDone(st, r, batch)
  {
    PlacesFor(st, r);
  }

  /** The consumer stops, five seconds pass, and it reclaims entry i. */
  lemma Reclaims(st: State, r: string, i: nat) returns (acts: seq<Action>, st': State)
    requires i in StreamOf(st, r).pending && StreamOf(st, r).trimmed <= i < |StreamOf(st, r).log|
    requires StreamOf(st, r).pending[i].at <= st.now
    ensures Follows(st, acts, st') && ConsumerOf(st', r) == Next([i]) && st'.resets == st.resets
    ensures StreamOf(st', r).log == StreamOf(st, r).log
  {
    var recover := Recover(r, [i], {}, Acknowledged);
    var st1 := Step(st, Abort(r));
    var st2 := Step(st1, Tick(PENDING_MIN_IDLE));
    assert StreamOf(st2, r) == StreamOf(st, r) && ConsumerOf(st2, r).Idle?;
    st' := Step(st2, recover);
    acts := [Abort(r), Tick(PENDING_MIN_IDLE), recover];
    assert acts[1..] == [Tick(PENDING_MIN_IDLE), recover] && acts[1..][1..] == [recover];
    assert Follows(st2, acts[1..][1..], st');
    assert Follows(st1, acts[1..], st');
  }

  /**
   * No entry is stuck: from every reachable state, whatever the consumer is
   * doing, each pending entry still in the stream can be completed and
   * acknowledged, without another Reset call.
   */
  lemma PendingCanFinish(acts: seq<Action>, r: string, i: nat) returns (all: seq<Action>)
    requires Legal(acts) && i in StreamOf(Exec(acts), r).pending && StreamOf(Exec(acts), r).trimmed <= i
    ensures acts <= all && Legal(all) && AllDone(Exec(all), r, [i]) && Exec(all).resets == Exec(acts).resets
  {
    AlwaysInv(acts);
    AlwaysPast(acts, r);
    var st := Exec(acts);
    PlacesFor(st, r);
    var first, mid := Reclaims(st, r, i);
    FollowsKeeps(st, first, mid);
    var last, st' := BatchFinishes(mid, r);
    FollowsOn(st, first, mid, last, st');
    FollowsKeeps(mid, last, st');
    AckedIsDone(st', r, [i]);
    RunsCompose(acts, first + last, st');
    all := acts + (first + last);
  }

  /** Nothing was handed out later than now. */
  predicate Past(sm: Stream, now: nat) { forall i | i in sm.pending :: sm.pending[i].at <= now }

  lemma {:induction false} AlwaysPast(acts: seq<Action>, r: string)
    requires Legal(acts)
    ensures Past(StreamOf(Exec(acts), r), Exec(acts).now)
  {
    if acts != [] {
      var n := |acts| - 1;
      AlwaysPast(acts[..n], r);
      PastKept(Exec(acts[..n]), acts[n], r);
    }
  }

  lemma PastKept(st: State, a: Action, r: string)
    requires Enabled(st, a) && Past(StreamOf(st, r), st.now)
    ensures Past(StreamOf(Step(st, a), r), Step(st, a).now)
  {
    if OwnStep(a) {
      OwnFrame(st, a);
    } else if HandOver(a) && a.r != r {
      HandOverFrame(st, a);
    } else if a.Recover? {
      assert Past(Reclaimed(StreamOf(st, r), st.now, a.batch, a.dropped), st.now);
    } else if a.Read? {
      assert Past(HandedOut(StreamOf(st, r), st.now), st.now);
    } else if a.Ack? {
      assert Past(Acked(StreamOf(st, r), ConsumerOf(st, r).batch[0]), st.now);
    }
  }
}
