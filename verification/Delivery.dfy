/**
 * Command delivery: one stream per owner with a consumer group, a completion
 * record and a result list per command, and one sequential consumer per
 * stream.  Every action is one atomic step; any call to the store may fail
 * with or without having been applied, and a consumer may stop anywhere.
 * Times are milliseconds of one clock.
 */
module Delivery {
  import opened Base

  const MAX_LEN := 10_000
  const RESULT_TTL := 300_000
  const COMMAND_TIMEOUT := 30_000
  const PENDING_MIN_IDLE := 5_000
  const BATCH := 10

  /** Why the handler fails a command past the gate without having called the station. */
  const REJECTIONS := {"StationNotConnected", "UnsupportedAction", "InvalidPayload", "OCPPCallFailed"}

  datatype Command = Command(id: nat, station: string, owner: string, generation: nat, created: nat, deadline: nat)

  datatype Result = Result(id: nat, success: bool, code: string, completedAt: nat)

  /** What the group keeps of a pending entry: when it was last handed out, and how often. */
  datatype Delivered = Delivered(at: nat, times: nat)

  /**
   * Entries are numbered by the order they were added.  Those below trimmed
   * are gone; those below delivered have been handed out, and are pending
   * until acknowledged.
   */
  datatype Stream = Stream(
    log: seq<Command>, trimmed: nat, delivered: nat, pending: map<nat, Delivered>, acked: set<nat>)

  /** Where a consumer stands; batch[0] is the entry being processed. */
  datatype Consumer =
    | Idle
    | Next(batch: seq<nat>)
    | Checked(batch: seq<nat>, found: Option<Result>)                // the completion record was read
    | Running(batch: seq<nat>)                                       // handler entered before the deadline
    | Admitted(batch: seq<nat>)                                      // ownership gate passed
    | Calling(batch: seq<nat>)                                       // Reset issued to the station
    | Finished(batch: seq<nat>, result: Result, called: bool)        // result to be committed
    | Committed(batch: seq<nat>)                                     // committed, not yet acknowledged

  datatype Record = Record(result: Result, deadline: nat)

  datatype Queue = Queue(items: seq<Result>, deadline: nat)

  datatype State = State(
    now: nat,
    streams: map<string, Stream>,
    consumers: map<string, Consumer>,
    records: map<nat, Record>,
    queues: map<nat, Queue>,
    commands: map<nat, Command>,   // every command published
    resets: multiset<nat>,         // Reset calls issued
    broken: multiset<nat>,         // attempts that issued Reset and ended before their result was committed
    settled: multiset<nat>,        // attempts that issued Reset and whose result was committed
    completed: set<nat>,           // commands with a committed result
    confirmed: set<nat>)           // commands whose Reset call returned a confirmation

  const INITIAL := State(0, map[], map[], map[], map[], map[], multiset{}, multiset{}, multiset{}, {}, {})

  datatype Action =
    | Tick(ms: nat)
    | Publish(c: Command, trimmed: nat)
    | Recover(r: string, batch: seq<nat>, dropped: set<nat>, fate: Fate)
    | Read(r: string, fate: Fate)
    | Check(r: string)
    | UseFound(r: string)
    | Expire(r: string)
    | Enter(r: string)
    | Gate(r: string, pass: bool)
    | Reject(r: string, code: string)
    | Call(r: string)
    | Answer(r: string, ok: bool)
    | Commit(r: string, fate: Fate)
    | Ack(r: string, fate: Fate)
    | Abort(r: string)
    | Pop(id: nat)

  function StreamOf(st: State, r: string): (sm: Stream) {
    if r in st.streams then st.streams[r] else Stream([], 0, 0, map[], {})
  }

  function ConsumerOf(st: State, r: string): (c: Consumer) { if r in st.consumers then st.consumers[r] else Idle }

  /** The command a consumer is working on. */
  function Current(st: State, r: string): (c: Option<Command>) {
    var cn, sm := ConsumerOf(st, r), StreamOf(st, r);
    if !cn.Idle? && cn.batch != [] && cn.batch[0] < |sm.log| then Some(sm.log[cn.batch[0]]) else None
  }

  predicate LiveRecord(rec: Option<Record>, now: nat) { rec.Some? && now < rec.value.deadline }

  predicate LiveQueue(q: Option<Queue>, now: nat) { q.Some? && now < q.value.deadline }

  function RecordOf(st: State, id: nat): (rec: Option<Record>) {
    if id in st.records then Some(st.records[id]) else None
  }

  function QueueOf(st: State, id: nat): (q: Option<Queue>) { if id in st.queues then Some(st.queues[id]) else None }

  predicate Called(c: Consumer) { c.Calling? || (c.Finished? && c.called) }

  // ---------- Steps

  /** What XAUTOCLAIM may return: idle pending entries still in the stream, in stream order, at most ten. */
  predicate Reclaimable(sm: Stream, now: nat, batch: seq<nat>) {
    && |batch| <= BATCH
    && (forall k | 0 <= k < |batch| ::
      batch[k] in sm.pending && sm.trimmed <= batch[k] < |sm.log| && now - sm.pending[batch[k]].at >= PENDING_MIN_IDLE)
    && (forall j, k | 0 <= j < k < |batch| :: batch[j] < batch[k])
  }

  function NextEntry(sm: Stream): (i: nat) { if sm.trimmed < sm.delivered then sm.delivered else sm.trimmed }

  predicate Enabled(st: State, a: Action) {
    match a
    case Tick(_) => true
    case Publish(c, trimmed) =>
      var sm := StreamOf(st, c.owner);
      && c.id !in st.commands && c.created <= st.now && c.deadline == c.created + COMMAND_TIMEOUT
      && sm.trimmed <= trimmed && (trimmed > sm.trimmed ==> trimmed + MAX_LEN <= |sm.log| + 1)
    case Recover(r, batch, dropped, _) =>
      var sm := StreamOf(st, r);
      && ConsumerOf(st, r).Idle? && Reclaimable(sm, st.now, batch)
      && (forall i <- dropped :: i in sm.pending && i < sm.trimmed)
    case Read(r, _) => ConsumerOf(st, r).Idle? && NextEntry(StreamOf(st, r)) < |StreamOf(st, r).log|
    case Check(r) => ConsumerOf(st, r).Next? && Current(st, r).Some?
    case UseFound(r) => ConsumerOf(st, r).Checked? && ConsumerOf(st, r).found.Some?
    case Expire(r) => ConsumerOf(st, r).Checked? && ConsumerOf(st, r).found.None? && Current(st, r).Some?
    case Enter(r) =>
      && ConsumerOf(st, r).Checked? && ConsumerOf(st, r).found.None?
      && Current(st, r).Some? && st.now < Current(st, r).value.deadline
    case Gate(r, _) => ConsumerOf(st, r).Running? && Current(st, r).Some?
    case Reject(r, code) => ConsumerOf(st, r).Admitted? && Current(st, r).Some? && code in REJECTIONS
    case Call(r) => ConsumerOf(st, r).Admitted? && Current(st, r).Some?
    case Answer(r, _) => ConsumerOf(st, r).Calling? && Current(st, r).Some?
    case Commit(r, _) => ConsumerOf(st, r).Finished? && Current(st, r).Some?
    case Ack(r, _) => ConsumerOf(st, r).Committed? && Current(st, r).Some?
    case Abort(r) => true
    case Pop(id) => LiveQueue(QueueOf(st, id), st.now) && st.queues[id].items != []
  }

  function SetConsumer(st: State, r: string, c: Consumer): (st': State) { st.(consumers := st.consumers[r := c]) }

  function SetStream(st: State, r: string, sm: Stream): (st': State) { st.(streams := st.streams[r := sm]) }

  function Fail(st: State, r: string, code: string): (c: Consumer)
    requires Current(st, r).Some? && !ConsumerOf(st, r).Idle?
  {
    Finished(ConsumerOf(st, r).batch, Result(Current(st, r).value.id, false, code, st.now), false)
  }

  function PublishStep(st: State, c: Command, trimmed: nat): (st': State) {
    var sm := StreamOf(st, c.owner);
    SetStream(st, c.owner, sm.(log := sm.log + [c], trimmed := trimmed)).(commands := st.commands[c.id := c])
  }

  function Reclaimed(sm: Stream, now: nat, batch: seq<nat>, dropped: set<nat>): (sm': Stream) {
    sm.(pending := map i | i in sm.pending && i !in dropped ::
      if i in batch then Delivered(now, sm.pending[i].times + 1) else sm.pending[i])
  }

  function HandedOut(sm: Stream, now: nat): (sm': Stream) {
    var i := NextEntry(sm);
    sm.(delivered := i + 1, pending := sm.pending[i := Delivered(now, 1)])
  }

  function Acked(sm: Stream, i: nat): (sm': Stream) {
    sm.(pending := sm.pending - {i}, acked := sm.acked + {i})
  }

  /** Stream and consumer of r both change. */
  function Move(st: State, r: string, sm: Stream, c: Consumer): (st': State) {
    st.(streams := st.streams[r := sm], consumers := st.consumers[r := c])
  }

  function RecoverStep(st: State, r: string, batch: seq<nat>, dropped: set<nat>, fate: Fate): (st': State) {
    if fate.NotApplied? then st
    else Move(st, r, Reclaimed(StreamOf(st, r), st.now, batch, dropped),
              if fate.Acknowledged? && batch != [] then Next(batch) else Idle)
  }

  function ReadStep(st: State, r: string, fate: Fate): (st': State) {
    if fate.NotApplied? then st
    else Move(st, r, HandedOut(StreamOf(st, r), st.now),
              if fate.Acknowledged? then Next([NextEntry(StreamOf(st, r))]) else Idle)
  }

  function Stop(st: State, r: string): (st': State) {
    var st1 := SetConsumer(st, r, Idle);
    if Called(ConsumerOf(st, r)) && Current(st, r).Some?
    then st1.(broken := st.broken + multiset{Current(st, r).value.id}) else st1
  }

  /** LPUSH onto what is left of the list, then EXPIRE. */
  function Pushed(q: Option<Queue>, now: nat, result: Result): (q': Queue) {
    Queue([result] + if LiveQueue(q, now) then q.value.items else [], now + RESULT_TTL)
  }

  /** The completion transaction: set the record, push the result, give both the same expiry. */
  function CommitStep(st: State, r: string, fate: Fate): (st': State)
    requires ConsumerOf(st, r).Finished? && Current(st, r).Some?
  {
    if fate.NotApplied? then Stop(st, r)
    else
      var Finished(batch, result, called) := ConsumerOf(st, r);
      var id := result.id;
      SetConsumer(st, r, if fate.Acknowledged? then Committed(batch) else Idle).(
        records := st.records[id := Record(result, st.now + RESULT_TTL)],
        queues := st.queues[id := Pushed(QueueOf(st, id), st.now, result)],
        settled := if called then st.settled + multiset{Current(st, r).value.id} else st.settled,
        completed := st.completed + {id})
  }

  function AckStep(st: State, r: string, fate: Fate): (st': State)
    requires ConsumerOf(st, r).Committed? && Current(st, r).Some?
  {
    var batch := ConsumerOf(st, r).batch;
    Move(st, r, if fate.NotApplied? then StreamOf(st, r) else Acked(StreamOf(st, r), batch[0]),
         if fate.Acknowledged? && |batch| > 1 then Next(batch[1..]) else Idle)
  }

  function PopStep(st: State, id: nat): (st': State)
    requires id in st.queues && st.queues[id].items != []
  {
    var items := st.queues[id].items[..|st.queues[id].items| - 1];
    st.(queues := if items == [] then st.queues - {id} else st.queues[id := st.queues[id].(items := items)])
  }

  function Step(st: State, a: Action): (st': State)
    requires Enabled(st, a)
  {
    match a
    case Tick(ms) => st.(now := st.now + ms)
    case Publish(c, trimmed) => PublishStep(st, c, trimmed)
    case Recover(r, batch, dropped, fate) => RecoverStep(st, r, batch, dropped, fate)
    case Read(r, fate) => ReadStep(st, r, fate)
    case Check(r) =>
      var rec := RecordOf(st, Current(st, r).value.id);
      SetConsumer(st, r, Checked(ConsumerOf(st, r).batch, if LiveRecord(rec, st.now) then Some(rec.value.result) else None))
    case UseFound(r) =>
      SetConsumer(st, r, Finished(ConsumerOf(st, r).batch, ConsumerOf(st, r).found.value, false))
    case Expire(r) => SetConsumer(st, r, Fail(st, r, "Expired"))
    case Enter(r) => SetConsumer(st, r, Running(ConsumerOf(st, r).batch))
    case Gate(r, pass) =>
      SetConsumer(st, r, if pass then Admitted(ConsumerOf(st, r).batch) else Fail(st, r, "NotOwner"))
    case Reject(r, code) => SetConsumer(st, r, Fail(st, r, code))
    case Call(r) =>
      SetConsumer(st, r, Calling(ConsumerOf(st, r).batch)).(resets := st.resets + multiset{Current(st, r).value.id})
    case Answer(r, ok) =>
      var id := Current(st, r).value.id;
      SetConsumer(st, r, Finished(ConsumerOf(st, r).batch,
                                  Result(id, ok, if ok then "" else "OCPPCallFailed", st.now), true)).(
        confirmed := if ok then st.confirmed + {id} else st.confirmed)
    case Commit(r, fate) => CommitStep(st, r, fate)
    case Ack(r, fate) => AckStep(st, r, fate)
    case Abort(r) => Stop(st, r)
    case Pop(id) => PopStep(st, id)
  }

  function Exec(acts: seq<Action>): (st: State)
    requires Legal(acts)
    decreases |acts|, 1
  {
    if acts == [] then INITIAL else Step(Exec(acts[..|acts| - 1]), acts[|acts| - 1])
  }

  predicate Legal(acts: seq<Action>)
    decreases |acts|, 0
  {
    acts == [] || (Legal(acts[..|acts| - 1]) && Enabled(Exec(acts[..|acts| - 1]), acts[|acts| - 1]))
  }

  // ---------- What every step keeps: streams and consumers

  predicate StreamInv(sm: Stream, r: string, commands: map<nat, Command>, completed: set<nat>) {
    && sm.trimmed <= |sm.log| && sm.delivered <= |sm.log|
    && (sm.trimmed > 0 ==> sm.trimmed + MAX_LEN <= |sm.log|)
    && (forall i | 0 <= i < |sm.log| ::
      sm.log[i].owner == r && sm.log[i].id in commands && commands[sm.log[i].id] == sm.log[i])
    && (forall i | i in sm.pending :: i < sm.delivered && i !in sm.acked)
    && (forall i | i in sm.acked :: i < sm.delivered && sm.log[i].id in completed)
    && (forall i | sm.trimmed <= i < sm.delivered :: i in sm.pending || i in sm.acked)
  }

  predicate ConsumerInv(c: Consumer, sm: Stream) {
    c.Idle? || (c.batch != [] && forall k | 0 <= k < |c.batch| :: c.batch[k] < sm.delivered <= |sm.log|)
  }

  ghost predicate PlacesInv(st: State) {
    forall r ::
      StreamInv(StreamOf(st, r), r, st.commands, st.completed) && ConsumerInv(ConsumerOf(st, r), StreamOf(st, r))
  }

  // ---------- What every step keeps: one command at a time

  /** Everything in the state that concerns one published command. */
  datatype View = View(
    now: nat, command: Command, work: Option<Consumer>, record: Option<Record>, queue: Option<Queue>,
    resets: nat, broken: nat, settled: nat, completed: bool, confirmed: bool)

  function WorkOn(st: State, c: Command): (w: Option<Consumer>) {
    if Current(st, c.owner) == Some(c) then Some(ConsumerOf(st, c.owner)) else None
  }

  function ViewOf(st: State, id: nat): (v: View)
    requires id in st.commands
  {
    View(st.now, st.commands[id], WorkOn(st, st.commands[id]), RecordOf(st, id), QueueOf(st, id),
         st.resets[id], st.broken[id], st.settled[id], id in st.completed, id in st.confirmed)
  }

  predicate WorkCalled(w: Option<Consumer>) { w.Some? && Called(w.value) }

  /** The consumer found no live record and has not yet produced a result. */
  predicate Unanswered(w: Option<Consumer>) {
    w.Some? && ((w.value.Checked? && w.value.found.None?) || w.value.Running? || w.value.Admitted? || w.value.Calling?)
  }

  /** The result a consumer holds for its command. */
  function Holding(w: Option<Consumer>): (r: Option<Result>) {
    if w.Some? && w.value.Finished? then Some(w.value.result)
    else if w.Some? && w.value.Checked? then w.value.found
    else None
  }

  predicate AccountInv(v: View) {
    && v.resets == v.broken + v.settled + (if WorkCalled(v.work) then 1 else 0)
    && v.settled <= 1
    && (v.settled == 1 ==> v.record.Some?)
    && (WorkCalled(v.work) || (v.work.Some? && (v.work.value.Running? || v.work.value.Admitted?)) ==> v.settled == 0)
    && (v.work.Some? && v.work.value.Checked? && v.work.value.found.None? && v.settled == 1 ==>
      v.now >= v.command.deadline)
  }

  predicate AgreeInv(v: View) {
    && v.command.deadline == v.command.created + COMMAND_TIMEOUT && v.command.created <= v.now
    && (v.completed <==> v.record.Some?)
    && (v.record.Some? ==>
      && v.record.value.result.id == v.command.id
      && v.record.value.deadline >= v.command.created + RESULT_TTL
      && (v.record.value.result.success ==> v.confirmed))
    && (Unanswered(v.work) ==> !LiveRecord(v.record, v.now))
    && (Holding(v.work).Some? ==>
      && Holding(v.work).value.id == v.command.id
      && (LiveRecord(v.record, v.now) ==> v.record.value.result == Holding(v.work).value)
      && (Holding(v.work).value.success ==> v.confirmed))
    && (v.work.Some? && v.work.value.Committed? ==> v.completed)
    && (LiveQueue(v.queue, v.now) ==>
      && v.record.Some? && v.record.value.deadline == v.queue.value.deadline
      && forall x <- v.queue.value.items :: x == v.record.value.result)
  }

  predicate ViewInv(v: View) { AccountInv(v) && AgreeInv(v) }

  ghost predicate ViewsInv(st: State) {
    forall id | id in st.commands :: st.commands[id].id == id && ViewInv(ViewOf(st, id))
  }

  predicate Absent(st: State, id: nat) {
    st.resets[id] == 0 && st.broken[id] == 0 && st.settled[id] == 0 && id !in st.records && id !in st.queues
    && id !in st.completed && id !in st.confirmed
  }

  ghost predicate AbsentInv(st: State) {
    forall id | id !in st.commands :: Absent(st, id)
  }

  ghost predicate Inv(st: State) { PlacesInv(st) && ViewsInv(st) && AbsentInv(st) }

  // ---------- One command: what a change of its consumer's position keeps

  lemma ViewLater(v: View, now': nat)
    requires ViewInv(v) && v.now <= now'
    ensures ViewInv(v.(now := now'))
  {
  }

  /** No promise of the invariant rests on a consumer that has not yet looked at the command. */
  lemma ViewIdle(v: View, w: Option<Consumer>)
    requires ViewInv(v) && !WorkCalled(v.work)
    requires w.None? || w.value.Next?
    ensures ViewInv(v.(work := w))
  {
  }

  /** A committed call is remembered past the deadline: no record now means no time left either. */
  lemma ViewCheck(v: View, batch: seq<nat>)
    requires ViewInv(v) && v.work.Some? && v.work.value.Next?
    ensures var found := if LiveRecord(v.record, v.now) then Some(v.record.value.result) else None;
      ViewInv(v.(work := Some(Checked(batch, found))))
  {
  }

  lemma ViewFail(v: View, batch: seq<nat>, result: Result)
    requires ViewInv(v) && Unanswered(v.work) && !v.work.value.Calling?
    requires result.id == v.command.id && !result.success
    ensures ViewInv(v.(work := Some(Finished(batch, result, false))))
  {
  }

  lemma ViewEnter(v: View, batch: seq<nat>)
    requires ViewInv(v) && v.work.Some? && v.work.value.Checked? && v.work.value.found.None?
    requires v.now < v.command.deadline
    ensures ViewInv(v.(work := Some(Running(batch))))
  {
  }

  lemma ViewAnswer(v: View, batch: seq<nat>, result: Result)
    requires ViewInv(v) && v.work.Some? && v.work.value.Calling?
    requires result.id == v.command.id
    ensures ViewInv(v.(work := Some(Finished(batch, result, true)), confirmed := v.confirmed || result.success))
  {
  }

  lemma ViewCommit(v: View, w: Option<Consumer>)
    requires ViewInv(v) && v.work.Some? && v.work.value.Finished? && (w.None? || w.value.Committed?)
    ensures ViewInv(CommittedView(v, w))
  {
  }

  lemma ViewStop(v: View)
    requires ViewInv(v)
    ensures ViewInv(v.(work := None, broken := v.broken + if WorkCalled(v.work) then 1 else 0))
  {
  }

  lemma ViewPop(v: View, q: Option<Queue>)
    requires ViewInv(v) && v.queue.Some?
    requires q.Some? ==> q.value.deadline == v.queue.value.deadline && q.value.items <= v.queue.value.items
    ensures ViewInv(v.(queue := q))
  {
    if q.Some? { assert forall x <- q.value.items :: x in v.queue.value.items; }
  }

  // ---------- One stream

  lemma HandedOutKeeps(sm: Stream, r: string, now: nat, commands: map<nat, Command>, completed: set<nat>)
    requires StreamInv(sm, r, commands, completed) && NextEntry(sm) < |sm.log|
    ensures StreamInv(HandedOut(sm, now), r, commands, completed)
  {
  }

  lemma ReclaimedKeeps(sm: Stream, r: string, now: nat, batch: seq<nat>, dropped: set<nat>,
                       commands: map<nat, Command>, completed: set<nat>)
    requires StreamInv(sm, r, commands, completed)
    requires forall i <- dropped :: i in sm.pending && i < sm.trimmed
    ensures StreamInv(Reclaimed(sm, now, batch, dropped), r, commands, completed)
  {
  }

  lemma AckedKeeps(sm: Stream, r: string, i: nat, commands: map<nat, Command>, completed: set<nat>)
    requires StreamInv(sm, r, commands, completed) && i < sm.delivered && sm.log[i].id in completed
    ensures StreamInv(Acked(sm, i), r, commands, completed)
  {
  }

  lemma PublishedKeeps(sm: Stream, r: string, c: Command, trimmed: nat, commands: map<nat, Command>, completed: set<nat>)
    requires StreamInv(sm, r, commands, completed) && c.owner == r
    requires c.id !in commands && sm.trimmed <= trimmed && (trimmed > sm.trimmed ==> trimmed + MAX_LEN <= |sm.log| + 1)
    ensures StreamInv(sm.(log := sm.log + [c], trimmed := trimmed), r, commands[c.id := c], completed)
  {
  }

  // ---------- The whole state

  /** The states agree on everything kept about command id outside its consumer. */
  predicate SameBut(st: State, st': State, id: nat) {
    && RecordOf(st', id) == RecordOf(st, id) && QueueOf(st', id) == QueueOf(st, id)
    && st'.resets[id] == st.resets[id] && st'.broken[id] == st.broken[id] && st'.settled[id] == st.settled[id]
    && (id in st'.completed <==> id in st.completed) && (id in st'.confirmed <==> id in st.confirmed)
  }

  lemma PlacesFor(st: State, r: string)
    requires Inv(st)
    ensures StreamInv(StreamOf(st, r), r, st.commands, st.completed) && ConsumerInv(ConsumerOf(st, r), StreamOf(st, r))
    ensures !ConsumerOf(st, r).Idle? ==> Current(st, r).Some?
    ensures Current(st, r).Some? ==>
      var c := Current(st, r).value;
      && c.owner == r && c.id in st.commands && st.commands[c.id] == c
      && WorkOn(st, c) == Some(ConsumerOf(st, r)) && ViewInv(ViewOf(st, c.id))
  {
  }

  lemma PlacesSame(st: State, st': State)
    requires PlacesInv(st) && st'.completed == st.completed && st'.commands == st.commands
    requires st'.streams == st.streams && st'.consumers == st.consumers
    ensures PlacesInv(st')
  {
    forall r ensures StreamInv(StreamOf(st', r), r, st'.commands, st'.completed)
      && ConsumerInv(ConsumerOf(st', r), StreamOf(st', r))
    {
      assert StreamInv(StreamOf(st, r), r, st.commands, st.completed);
      assert ConsumerInv(ConsumerOf(st, r), StreamOf(st, r));
    }
  }

  lemma PlacesKept(st: State, st': State, r: string)
    requires PlacesInv(st) && st.completed <= st'.completed && st'.commands == st.commands
    requires forall r' | r' != r :: StreamOf(st', r') == StreamOf(st, r') && ConsumerOf(st', r') == ConsumerOf(st, r')
    requires StreamInv(StreamOf(st', r), r, st'.commands, st'.completed)
    requires ConsumerInv(ConsumerOf(st', r), StreamOf(st', r))
    ensures PlacesInv(st')
  {
    forall r' ensures StreamInv(StreamOf(st', r'), r', st'.commands, st'.completed)
      && ConsumerInv(ConsumerOf(st', r'), StreamOf(st', r'))
    {
      assert StreamInv(StreamOf(st, r'), r', st.commands, st.completed);
      assert ConsumerInv(ConsumerOf(st, r'), StreamOf(st, r'));
    }
  }

  /** A step of consumer r that leaves the streams alone and concerns only the command c it is working on. */
  lemma OwnCommand(st: State, st': State, r: string, c: Command)
    requires Inv(st) && Current(st, r) == Some(c)
    requires st'.streams == st.streams && st'.commands == st.commands && st'.now == st.now
    requires st.completed <= st'.completed
    requires forall r' | r' != r :: ConsumerOf(st', r') == ConsumerOf(st, r')
    requires ConsumerOf(st', r).Idle? || ConsumerOf(st', r).batch == ConsumerOf(st, r).batch
    requires forall id | id != c.id :: SameBut(st, st', id)
    requires c.id in st.commands && ViewInv(ViewOf(st', c.id))
    ensures Inv(st')
  {
    PlacesFor(st, r);
    assert forall r' :: StreamOf(st', r') == StreamOf(st, r');
    PlacesKept(st, st', r);
    forall id | id in st'.commands && id != c.id ensures ViewInv(ViewOf(st', id)) {
      assert ViewInv(ViewOf(st, id)) && SameBut(st, st', id) && st.commands[id].id == id;
      OtherView(st, st', r, c, id);
    }
    forall id | id !in st'.commands ensures Absent(st', id) {
      assert Absent(st, id) && SameBut(st, st', id);
    }
  }

  lemma OtherView(st: State, st': State, r: string, c: Command, id: nat)
    requires Current(st, r) == Some(c) && id in st.commands && st.commands[id] != c
    requires st'.streams == st.streams && st'.commands == st.commands && st'.now == st.now
    requires forall r' | r' != r :: ConsumerOf(st', r') == ConsumerOf(st, r')
    requires ConsumerOf(st', r).Idle? || ConsumerOf(st', r).batch == ConsumerOf(st, r).batch
    requires SameBut(st, st', id)
    ensures ViewOf(st', id) == ViewOf(st, id)
  {
    var o := st.commands[id].owner;
    assert StreamOf(st', o) == StreamOf(st, o);
    assert Current(st', r) == None || Current(st', r) == Some(c);
  }

  /** The consumer takes another position on the same entry. */
  lemma RepositionEffect(st: State, r: string, w: Consumer, c: Command)
    requires Current(st, r) == Some(c) && !w.Idle? && w.batch == ConsumerOf(st, r).batch
    requires c.owner == r && c.id in st.commands && st.commands[c.id] == c
    ensures var st' := SetConsumer(st, r, w);
      && ViewOf(st', c.id) == ViewOf(st, c.id).(work := Some(w)) && ConsumerOf(st', r) == w
      && (forall r' | r' != r :: ConsumerOf(st', r') == ConsumerOf(st, r'))
      && forall id | id != c.id :: SameBut(st, st', id)
  {
    assert Current(SetConsumer(st, r, w), r) == Some(c);
  }

  lemma Repositions(st: State, r: string, w: Consumer)
    requires Inv(st) && Current(st, r).Some? && !w.Idle? && w.batch == ConsumerOf(st, r).batch
    requires ViewInv(ViewOf(st, Current(st, r).value.id).(work := Some(w)))
    ensures Inv(SetConsumer(st, r, w))
  {
    var c := Current(st, r).value;
    PlacesFor(st, r);
    RepositionEffect(st, r, w, c);
    OwnCommand(st, SetConsumer(st, r, w), r, c);
  }

  /** The steps by which a consumer only changes its position, seen from the command it works on. */
  lemma HandlerView(st: State, a: Action, v: View)
    requires Enabled(st, a) && (a.Check? || a.UseFound? || a.Expire? || a.Enter? || a.Gate? || a.Reject?)
    requires Current(st, a.r).Some? && Current(st, a.r).value == v.command && v.now == st.now
    requires v.record == RecordOf(st, v.command.id) && v.work == Some(ConsumerOf(st, a.r)) && ViewInv(v)
    ensures var w := ConsumerOf(Step(st, a), a.r);
      && Step(st, a) == SetConsumer(st, a.r, w) && !w.Idle? && w.batch == ConsumerOf(st, a.r).batch
      && ViewInv(v.(work := Some(w)))
  {
    var w := ConsumerOf(Step(st, a), a.r);
    match a
    case Check(_) => ViewCheck(v, w.batch);
    case UseFound(_) =>
    case Enter(_) => ViewEnter(v, w.batch);
    case Expire(_) => ViewFail(v, w.batch, w.result);
    case Gate(_, pass) => if !pass { ViewFail(v, w.batch, w.result); }
    case Reject(_, _) => ViewFail(v, w.batch, w.result);
  }

  lemma HandlerKeeps(st: State, a: Action)
    requires Inv(st) && Enabled(st, a)
    requires a.Check? || a.UseFound? || a.Expire? || a.Enter? || a.Gate? || a.Reject?
    ensures Inv(Step(st, a))
  {
    PlacesFor(st, a.r);
    HandlerView(st, a, ViewOf(st, Current(st, a.r).value.id));
    Repositions(st, a.r, ConsumerOf(Step(st, a), a.r));
  }

  lemma CallView(st: State, a: Action, v: View)
    requires Enabled(st, a) && (a.Call? || a.Answer?)
    requires Current(st, a.r).Some? && Current(st, a.r).value == v.command
    requires v.work == Some(ConsumerOf(st, a.r)) && ViewInv(v)
    ensures var w := ConsumerOf(Step(st, a), a.r);
      && !w.Idle? && w.batch == ConsumerOf(st, a.r).batch
      && ViewInv(if a.Call? then v.(work := Some(w), resets := v.resets + 1)
                 else v.(work := Some(w), confirmed := v.confirmed || a.ok))
  {
    if a.Answer? {
      var w := ConsumerOf(Step(st, a), a.r);
      ViewAnswer(v, w.batch, w.result);
    }
  }

  lemma CallKeeps(st: State, a: Action)
    requires Inv(st) && Enabled(st, a) && (a.Call? || a.Answer?)
    ensures Inv(Step(st, a))
  {
    PlacesFor(st, a.r);
    var c := Current(st, a.r).value;
    CallView(st, a, ViewOf(st, c.id));
    CallEffect(st, a, c);
    OwnCommand(st, Step(st, a), a.r, c);
  }

  lemma CallEffect(st: State, a: Action, c: Command)
    requires Enabled(st, a) && (a.Call? || a.Answer?) && Current(st, a.r) == Some(c)
    requires c.owner == a.r && c.id in st.commands && st.commands[c.id] == c
    requires var w := ConsumerOf(Step(st, a), a.r); !w.Idle? && w.batch == ConsumerOf(st, a.r).batch
    ensures var st' := Step(st, a);
      var v, w := ViewOf(st, c.id), ConsumerOf(st', a.r);
      && st'.streams == st.streams && st'.commands == st.commands && st'.now == st.now
      && st'.completed == st.completed && (forall r' | r' != a.r :: ConsumerOf(st', r') == ConsumerOf(st, r'))
      && ViewOf(st', c.id) == (if a.Call? then v.(work := Some(w), resets := v.resets + 1)
                               else v.(work := Some(w), confirmed := v.confirmed || a.ok))
      && forall id | id != c.id :: SameBut(st, st', id)
  {
    assert Current(Step(st, a), a.r) == Some(c);
  }

  function CommittedView(v: View, w: Option<Consumer>): (v': View)
    requires v.work.Some? && v.work.value.Finished?
  {
    v.(work := w,
       record := Some(Record(v.work.value.result, v.now + RESULT_TTL)),
       queue := Some(Pushed(v.queue, v.now, v.work.value.result)),
       settled := v.settled + if WorkCalled(v.work) then 1 else 0, completed := true)
  }

  lemma CommitKeeps(st: State, r: string, fate: Fate)
    requires Inv(st) && ConsumerOf(st, r).Finished? && Current(st, r).Some? && fate.Applied()
    ensures Inv(CommitStep(st, r, fate))
  {
    PlacesFor(st, r);
    var c := Current(st, r).value;
    var v := ViewOf(st, c.id);
    assert Holding(v.work) == Some(ConsumerOf(st, r).result);
    var st' := CommitStep(st, r, fate);
    var w := if fate.Acknowledged? then Some(ConsumerOf(st', r)) else None;
    ViewCommit(v, w);
    CommitView(st, r, fate, c);
    OwnCommand(st, st', r, c);
  }

  lemma CommitView(st: State, r: string, fate: Fate, c: Command)
    requires ConsumerOf(st, r).Finished? && Current(st, r) == Some(c) && fate.Applied()
    requires c.owner == r && c.id in st.commands && st.commands[c.id] == c && ConsumerOf(st, r).result.id == c.id
    ensures var st' := CommitStep(st, r, fate);
      && c.id in st'.commands
      && ViewOf(st', c.id) ==
         CommittedView(ViewOf(st, c.id), if fate.Acknowledged? then Some(ConsumerOf(st', r)) else None)
      && forall id | id != c.id :: SameBut(st, st', id)
  {
    var st' := CommitStep(st, r, fate);
    if fate.Acknowledged? { assert Current(st', r) == Some(c); }
  }

  lemma StopKeeps(st: State, r: string)
    requires Inv(st)
    ensures Inv(Stop(st, r))
  {
    PlacesFor(st, r);
    if ConsumerOf(st, r).Idle? {
      IdleAgain(st, r);
    } else {
      var c := Current(st, r).value;
      ViewStop(ViewOf(st, c.id));
      StopEffect(st, r, c);
      OwnCommand(st, Stop(st, r), r, c);
    }
  }

  lemma StopEffect(st: State, r: string, c: Command)
    requires Current(st, r) == Some(c) && c.owner == r && c.id in st.commands && st.commands[c.id] == c
    ensures var st', v := Stop(st, r), ViewOf(st, c.id);
      && st'.streams == st.streams && st'.commands == st.commands && st'.now == st.now
      && st'.completed == st.completed && (forall r' | r' != r :: ConsumerOf(st', r') == ConsumerOf(st, r'))
      && ViewOf(st', c.id) == v.(work := None, broken := v.broken + if WorkCalled(v.work) then 1 else 0)
      && forall id | id != c.id :: SameBut(st, st', id)
  {
  }

  lemma MovedView(st: State, st': State, r: string, id: nat)
    requires id in st.commands && ViewInv(ViewOf(st, id)) && !Called(ConsumerOf(st, r))
    requires st'.commands == st.commands && st'.now == st.now && SameBut(st, st', id)
    requires forall r' | r' != r :: StreamOf(st', r') == StreamOf(st, r') && ConsumerOf(st', r') == ConsumerOf(st, r')
    requires ConsumerOf(st', r).Idle? || ConsumerOf(st', r).Next?
    ensures ViewInv(ViewOf(st', id))
  {
    var v, v' := ViewOf(st, id), ViewOf(st', id);
    if st.commands[id].owner == r {
      ViewIdle(v, v'.work);
      assert v' == v.(work := v'.work);
    } else {
      assert v' == v;
    }
  }

  /**
   * A step in which consumer r, holding no uncommitted call, moves to another
   * entry or to none, while its stream keeps its log.
   */
  lemma MovesOn(st: State, st': State, r: string)
    requires Inv(st) && !Called(ConsumerOf(st, r))
    requires st'.commands == st.commands && st'.now == st.now && st'.completed == st.completed
    requires forall r' | r' != r :: StreamOf(st', r') == StreamOf(st, r') && ConsumerOf(st', r') == ConsumerOf(st, r')
    requires ConsumerOf(st', r).Idle? || ConsumerOf(st', r).Next?
    requires StreamInv(StreamOf(st', r), r, st.commands, st.completed)
    requires ConsumerInv(ConsumerOf(st', r), StreamOf(st', r))
    requires forall id :: SameBut(st, st', id)
    ensures Inv(st')
  {
    PlacesKept(st, st', r);
    forall id | id in st'.commands ensures ViewInv(ViewOf(st', id)) {
      assert ViewInv(ViewOf(st, id)) && SameBut(st, st', id);
      MovedView(st, st', r, id);
    }
    forall id | id !in st'.commands ensures Absent(st', id) {
      assert Absent(st, id) && SameBut(st, st', id);
    }
  }

  lemma MoveKeeps(st: State, r: string, sm: Stream, c: Consumer)
    requires Inv(st) && !Called(ConsumerOf(st, r)) && (c.Idle? || c.Next?)
    requires StreamInv(sm, r, st.commands, st.completed) && ConsumerInv(c, sm)
    ensures Inv(Move(st, r, sm, c))
  {
    MovesOn(st, Move(st, r, sm, c), r);
  }

  lemma IdleAgain(st: State, r: string)
    requires Inv(st) && ConsumerOf(st, r).Idle?
    ensures Inv(SetConsumer(st, r, Idle))
  {
    PlacesFor(st, r);
    MovesOn(st, SetConsumer(st, r, Idle), r);
  }

  lemma AckKeeps(st: State, r: string, fate: Fate)
    requires Inv(st) && ConsumerOf(st, r).Committed? && Current(st, r).Some?
    ensures Inv(AckStep(st, r, fate))
  {
    PlacesFor(st, r);
    var batch, sm := ConsumerOf(st, r).batch, StreamOf(st, r);
    AckedKeeps(sm, r, batch[0], st.commands, st.completed);
    MoveKeeps(st, r, if fate.NotApplied? then sm else Acked(sm, batch[0]),
              if fate.Acknowledged? && |batch| > 1 then Next(batch[1..]) else Idle);
  }

  lemma RecoverKeeps(st: State, r: string, batch: seq<nat>, dropped: set<nat>, fate: Fate)
    requires Inv(st) && Enabled(st, Recover(r, batch, dropped, fate)) && fate.Applied()
    ensures Inv(RecoverStep(st, r, batch, dropped, fate))
  {
    PlacesFor(st, r);
    var sm := StreamOf(st, r);
    ReclaimedKeeps(sm, r, st.now, batch, dropped, st.commands, st.completed);
    BatchPlaced(sm, r, st.now, batch, st.commands, st.completed);
    MoveKeeps(st, r, Reclaimed(sm, st.now, batch, dropped),
              if fate.Acknowledged? && batch != [] then Next(batch) else Idle);
  }

  lemma BatchPlaced(sm: Stream, r: string, now: nat, batch: seq<nat>, commands: map<nat, Command>, completed: set<nat>)
    requires StreamInv(sm, r, commands, completed) && Reclaimable(sm, now, batch)
    ensures forall k | 0 <= k < |batch| :: batch[k] < sm.delivered
  {
  }

  lemma ReadKeeps(st: State, r: string, fate: Fate)
    requires Inv(st) && Enabled(st, Read(r, fate)) && fate.Applied()
    ensures Inv(ReadStep(st, r, fate))
  {
    PlacesFor(st, r);
    var sm := StreamOf(st, r);
    HandedOutKeeps(sm, r, st.now, st.commands, st.completed);
    MoveKeeps(st, r, HandedOut(sm, st.now), if fate.Acknowledged? then Next([NextEntry(sm)]) else Idle);
  }

  lemma PublishPlaces(st: State, c: Command, trimmed: nat)
    requires Inv(st) && Enabled(st, Publish(c, trimmed))
    ensures PlacesInv(PublishStep(st, c, trimmed))
  {
    var st' := PublishStep(st, c, trimmed);
    forall r ensures StreamInv(StreamOf(st', r), r, st'.commands, st'.completed)
      && ConsumerInv(ConsumerOf(st', r), StreamOf(st', r))
    {
      PlacesFor(st, r);
      if r == c.owner {
        PublishedKeeps(StreamOf(st, r), r, c, trimmed, st.commands, st.completed);
      }
    }
  }

  /** A published command starts from nothing; the others are as they were. */
  lemma PublishedView(st: State, c: Command, trimmed: nat, id: nat)
    requires Enabled(st, Publish(c, trimmed)) && Absent(st, c.id)
    requires var st' := PublishStep(st, c, trimmed);
      && id in st'.commands
      && var r := st'.commands[id].owner;
      && ConsumerInv(ConsumerOf(st, r), StreamOf(st, r))
      && StreamInv(StreamOf(st, r), r, st.commands, st.completed)
    requires id in st.commands ==> ViewInv(ViewOf(st, id))
    ensures ViewInv(ViewOf(PublishStep(st, c, trimmed), id))
  {
    var st' := PublishStep(st, c, trimmed);
    var r := st'.commands[id].owner;
    assert Current(st', r) == Current(st, r);
    if id in st.commands {
      assert ViewOf(st', id) == ViewOf(st, id);
    } else {
      assert WorkOn(st', c) == None;
    }
  }

  lemma PublishKeeps(st: State, c: Command, trimmed: nat)
    requires Inv(st) && Enabled(st, Publish(c, trimmed))
    ensures Inv(PublishStep(st, c, trimmed))
  {
    var st' := PublishStep(st, c, trimmed);
    PublishPlaces(st, c, trimmed);
    PublishViews(st, c, trimmed);
    forall id | id !in st'.commands ensures Absent(st', id) { assert Absent(st, id); }
  }

  lemma PublishViews(st: State, c: Command, trimmed: nat)
    requires Inv(st) && Enabled(st, Publish(c, trimmed))
    ensures ViewsInv(PublishStep(st, c, trimmed))
  {
    var st' := PublishStep(st, c, trimmed);
    forall id | id in st'.commands ensures ViewInv(ViewOf(st', id)) {
      PlacesFor(st, st'.commands[id].owner);
      assert id in st.commands ==> ViewInv(ViewOf(st, id));
      PublishedView(st, c, trimmed, id);
    }
  }

  lemma PopKeeps(st: State, id: nat)
    requires Inv(st) && id in st.queues && st.queues[id].items != []
    ensures Inv(PopStep(st, id))
  {
    var st' := PopStep(st, id);
    PlacesSame(st, st');
    forall k | k in st'.commands ensures ViewInv(ViewOf(st', k)) {
      PopView(st, id, k);
      if k == id { ViewPop(ViewOf(st, k), QueueOf(st', k)); }
    }
    forall k | k !in st'.commands ensures Absent(st', k) { assert Absent(st, k); }
  }

  lemma PopView(st: State, id: nat, k: nat)
    requires id in st.queues && st.queues[id].items != [] && k in st.commands
    ensures var st' := PopStep(st, id);
      && ViewOf(st', k) == ViewOf(st, k).(queue := QueueOf(st', k))
      && (k != id ==> QueueOf(st', k) == QueueOf(st, k))
      && (k == id && QueueOf(st', k).Some? ==>
        && QueueOf(st', k).value.deadline == st.queues[k].deadline
        && QueueOf(st', k).value.items <= st.queues[k].items)
  {
  }

  lemma TickView(st: State, ms: nat, id: nat)
    requires id in st.commands && ViewInv(ViewOf(st, id))
    ensures ViewInv(ViewOf(Step(st, Tick(ms)), id))
  {
    var st' := Step(st, Tick(ms));
    ViewLater(ViewOf(st, id), st'.now);
    assert ViewOf(st', id) == ViewOf(st, id).(now := st'.now);
  }

  lemma TickKeeps(st: State, ms: nat)
    requires Inv(st)
    ensures Inv(Step(st, Tick(ms)))
  {
    var st' := Step(st, Tick(ms));
    PlacesSame(st, st');
    forall id | id in st'.commands ensures ViewInv(ViewOf(st', id)) {
      TickView(st, ms, id);
    }
    forall id | id !in st'.commands ensures Absent(st', id) { assert Absent(st, id); }
  }

  /** The steps in which a consumer talks to the store. */
  lemma ConsumerKeeps(st: State, a: Action)
    requires Inv(st) && Enabled(st, a) && (a.Recover? || a.Read? || a.Commit? || a.Ack? || a.Abort?)
    ensures Inv(Step(st, a))
  {
    match a
    case Recover(r, batch, dropped, fate) => if fate.Applied() { RecoverKeeps(st, r, batch, dropped, fate); }
    case Read(r, fate) => if fate.Applied() { ReadKeeps(st, r, fate); }
    case Commit(r, fate) => if fate.Applied() { CommitKeeps(st, r, fate); } else { StopKeeps(st, r); }
    case Ack(r, fate) => AckKeeps(st, r, fate);
    case Abort(r) => StopKeeps(st, r);
  }

  lemma StepKeeps(st: State, a: Action)
    requires Inv(st) && Enabled(st, a)
    ensures Inv(Step(st, a))
  {
    if a.Recover? || a.Read? || a.Commit? || a.Ack? || a.Abort? {
      ConsumerKeeps(st, a);
    } else if a.Call? || a.Answer? {
      CallKeeps(st, a);
    } else if a.Tick? {
      TickKeeps(st, a.ms);
    } else if a.Publish? {
      PublishKeeps(st, a.c, a.trimmed);
    } else if a.Pop? {
      PopKeeps(st, a.id);
    } else {
      HandlerKeeps(st, a);
    }
  }

  lemma {:induction false} AlwaysInv(acts: seq<Action>)
    requires Legal(acts)
    ensures Inv(Exec(acts))
  {
    if acts != [] {
      AlwaysInv(acts[..|acts| - 1]);
      StepKeeps(Exec(acts[..|acts| - 1]), acts[|acts| - 1]);
    }
  }
}
