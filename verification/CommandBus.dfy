/**
 * The bus client, run without interference: the message loop of a consumer
 * and its recovery of pending entries, over one owner's stream, the completion
 * records and the result lists.
 */
module CommandBus {
  import opened Base
  import opened Delivery

  datatype Store = Store(stream: Stream, records: map<nat, Record>, queues: map<nat, Queue>)

  type Handler = Command -> Result

  function Recorded(s: Store, id: nat): (rec: Option<Record>) { if id in s.records then Some(s.records[id]) else None }

  /** runHandler: the handler's result with the command's ID, and with the time if it has none; 0 stands for no time. */
  function RunHandler(h: Handler, c: Command, now: nat): (r: Result) {
    h(c).(id := c.id, completedAt := if h(c).completedAt == 0 then now else h(c).completedAt)
  }

  /** The recorded result if there is a live one, otherwise the handler's. */
  function ResultFor(s: Store, now: nat, c: Command, h: Handler): (r: Result) {
    if LiveRecord(Recorded(s, c.id), now) then s.records[c.id].result else RunHandler(h, c, now)
  }

  function Completed(s: Store, now: nat, result: Result): (s': Store) {
    var q := if result.id in s.queues then Some(s.queues[result.id]) else None;
    s.(records := s.records[result.id := Record(result, now + RESULT_TTL)],
       queues := s.queues[result.id := Pushed(q, now, result)])
  }

  /** One entry: read the record, run the handler if there is none, complete, acknowledge. */
  function One(s: Store, now: nat, i: nat, h: Handler): (s': Store)
    requires i < |s.stream.log|
  {
    var done := Completed(s, now, ResultFor(s, now, s.stream.log[i], h));
    done.(stream := Acked(s.stream, i))
  }

  predicate InLog(sm: Stream, batch: seq<nat>) { forall k | 0 <= k < |batch| :: batch[k] < |sm.log| }

  function All(s: Store, now: nat, batch: seq<nat>, h: Handler): (s': Store)
    requires InLog(s.stream, batch)
    ensures s'.stream.log == s.stream.log
  {
    if batch == [] then s
    else One(All(s, now, batch[..|batch| - 1], h), now, batch[|batch| - 1], h)
  }

  /** The stream with a set of entries acknowledged. */
  function AckedAll(sm: Stream, done: set<nat>): (sm': Stream) {
    sm.(pending := sm.pending - done, acked := sm.acked + done)
  }

  lemma AckedOneMore(sm: Stream, done: set<nat>, i: nat)
    ensures Acked(AckedAll(sm, done), i) == AckedAll(sm, done + {i})
  {
    assert sm.pending - done - {i} == sm.pending - (done + {i});
    assert sm.acked + done + {i} == sm.acked + (done + {i});
  }

  function SetOf(batch: seq<nat>): (s: set<nat>) { set i | i in batch }

  /** Exactly the batch leaves the pending list, and all of it is acknowledged. */
  lemma {:induction false} AllAcknowledged(s: Store, now: nat, batch: seq<nat>, h: Handler)
    requires InLog(s.stream, batch)
    ensures All(s, now, batch, h).stream == AckedAll(s.stream, SetOf(batch))
  {
    if batch == [] {
      assert s.stream.pending - {} == s.stream.pending;
      assert SetOf(batch) == {};
    } else {
      var n := |batch| - 1;
      AllAcknowledged(s, now, batch[..n], h);
      assert SetOf(batch) == SetOf(batch[..n]) + {batch[n]};
      AckedOneMore(s.stream, SetOf(batch[..n]), batch[n]);
    }
  }

  /** Entries of the batch carry different command IDs. */
  predicate DistinctIds(s: Store, batch: seq<nat>) {
    && InLog(s.stream, batch)
    && forall j, k | 0 <= j < k < |batch| :: s.stream.log[batch[j]].id != s.stream.log[batch[k]].id
  }

  /** Processing other commands leaves this one's record and list alone. */
  lemma {:induction false} OthersUntouched(s: Store, now: nat, batch: seq<nat>, h: Handler, id: nat)
    requires InLog(s.stream, batch) && forall k | 0 <= k < |batch| :: s.stream.log[batch[k]].id != id
    requires WellRecorded(s)
    ensures var s' := All(s, now, batch, h);
      && WellRecorded(s')
      && Recorded(s', id) == Recorded(s, id) && (id in s'.queues <==> id in s.queues)
      && (id in s.queues ==> s'.queues[id] == s.queues[id])
  {
    if batch != [] {
      OthersUntouched(s, now, batch[..|batch| - 1], h, id);
    }
  }

  /** Each record is filed under the ID of its own result. */
  predicate WellRecorded(s: Store) { forall id | id in s.records :: s.records[id].result.id == id }

  /**
   * The command has a record for five minutes from now: the result it had
   * if that was still live, and otherwise what the handler says, under the
   * command's own ID.
   */
  predicate FreshRecord(records: map<nat, Record>, records': map<nat, Record>, now: nat, c: Command, h: Handler) {
    && c.id in records' && records'[c.id].deadline == now + 300_000
    && var r := records'[c.id].result;
    if c.id in records && now < records[c.id].deadline then r == records[c.id].result
    else
      && r.id == c.id && r.success == h(c).success && r.code == h(c).code
      && r.completedAt == if h(c).completedAt != 0 then h(c).completedAt else now
  }

  /**
   * Afterwards every command of the batch has a live record with a result of
   * its own: the one recorded before, if that was still live, and otherwise
   * the handler's.
   */
  lemma {:induction false} AllRecorded(s: Store, now: nat, batch: seq<nat>, h: Handler, k: nat)
    requires DistinctIds(s, batch) && WellRecorded(s) && k < |batch|
    ensures var c, s' := s.stream.log[batch[k]], All(s, now, batch, h);
      && Recorded(s', c.id) == Some(Record(ResultFor(s, now, c, h), now + RESULT_TTL)) && WellRecorded(s')
      && FreshRecord(s.records, s'.records, now, c, h)
  {
    var n := |batch| - 1;
    var earlier := All(s, now, batch[..n], h);
    if k == n {
      OthersUntouched(s, now, batch[..n], h, s.stream.log[batch[n]].id);
    } else {
      AllRecorded(s, now, batch[..n], h, k);
    }
    OneRecorded(earlier, now, batch[n], h);
  }

  lemma AllFresh(s: Store, now: nat, batch: seq<nat>, h: Handler)
    requires DistinctIds(s, batch) && WellRecorded(s)
    ensures forall k | 0 <= k < |batch| ::
      FreshRecord(s.records, All(s, now, batch, h).records, now, s.stream.log[batch[k]], h)
  {
    forall k | 0 <= k < |batch|
      ensures FreshRecord(s.records, All(s, now, batch, h).records, now, s.stream.log[batch[k]], h)
    {
      AllRecorded(s, now, batch, h, k);
    }
  }

  lemma OneRecorded(s: Store, now: nat, i: nat, h: Handler)
    requires i < |s.stream.log| && WellRecorded(s)
    ensures var c, s' := s.stream.log[i], One(s, now, i, h);
      && Recorded(s', c.id) == Some(Record(ResultFor(s, now, c, h), now + RESULT_TTL)) && WellRecorded(s')
      && forall id | id != c.id :: Recorded(s', id) == Recorded(s, id)
  {
  }

  /** The command has a result recorded at this very moment. */
  predicate FreshlyRecorded(s: Store, now: nat, i: nat) {
    i < |s.stream.log| && s.stream.log[i].id in s.records
    && s.records[s.stream.log[i].id].deadline == now + RESULT_TTL
  }

  lemma {:induction false} AllCompleted(s: Store, now: nat, batch: seq<nat>, h: Handler)
    requires InLog(s.stream, batch) && WellRecorded(s)
    ensures WellRecorded(All(s, now, batch, h))
    ensures forall i | i in batch || FreshlyRecorded(s, now, i) :: FreshlyRecorded(All(s, now, batch, h), now, i)
  {
    if batch != [] {
      var n := |batch| - 1;
      AllCompleted(s, now, batch[..n], h);
      assert batch == batch[..n] + [batch[n]];
      assert FreshlyRecorded(All(s, now, batch, h), now, batch[n]);
    }
  }

  /** Where the handling of a message fails: reading it or its record, completing it, or acknowledging it. */
  datatype Point = AtRead | AtComplete(applied: bool) | AtAck(applied: bool)

  datatype Failure = Never | At(at: nat, point: Point)

  /** What is left of a message whose handling failed. */
  function Broken(s: Store, now: nat, i: nat, h: Handler, point: Point): (s': Store)
    requires i < |s.stream.log|
  {
    var done := Completed(s, now, ResultFor(s, now, s.stream.log[i], h));
    match point
    case AtRead => s
    case AtComplete(applied) => if applied then done else s
    case AtAck(applied) => if applied then done.(stream := Acked(s.stream, i)) else done
  }

  function HandledBroken(s: Store, now: nat, i: nat, point: Point): (ids: seq<nat>)
    requires i < |s.stream.log|
  {
    var id := s.stream.log[i].id;
    if point.AtRead? || LiveRecord(Recorded(s, id), now) then [] else [id]
  }

  class Bus {
    var clock: nat
    var stream: Stream
    var records: map<nat, Record>
    var queues: map<nat, Queue>

    ghost function Contents(): (s: Store)
      reads this
    {
      Store(stream, records, queues)
    }

    /** Completion transaction of one result. */
    method Complete(result: Result)
      modifies `records, `queues
      ensures Contents() == Completed(old(Contents()), clock, result)
      ensures records == old(records)[result.id := Record(result, clock + 300_000)]
      ensures result.id in queues && queues[result.id].deadline == clock + 300_000
      ensures queues[result.id].items == [result] +
        if result.id in old(queues) && clock < old(queues)[result.id].deadline then old(queues)[result.id].items else []
      ensures queues == old(queues)[result.id := queues[result.id]]
    {
      var q := if result.id in queues then Some(queues[result.id]) else None;
      records := records[result.id := Record(result, clock + RESULT_TTL)];
      queues := queues[result.id := Pushed(q, clock, result)];
    }

    /** One message: its record or its handler, then complete, then acknowledge; or up to where that fails. */
    method HandleMessage(i: nat, h: Handler, point: Option<Point>) returns (handled: seq<nat>)
      requires i < |stream.log|
      modifies `stream, `records, `queues
      ensures Contents() ==
        if point.None? then One(old(Contents()), clock, i, h) else Broken(old(Contents()), clock, i, h, point.value)
      ensures handled == HandledBroken(old(Contents()), clock, i, if point.None? then AtAck(true) else point.value)
    {
      handled := [];
      if point == Some(AtRead) { return; }
      var command := stream.log[i];
      var result;
      if command.id in records && clock < records[command.id].deadline {
        result := records[command.id].result;
      } else {
        result := RunHandler(h, command, clock);
        handled := [command.id];
      }
      if point == Some(AtComplete(false)) { return; }
      Complete(result);
      if point == Some(AtComplete(true)) || point == Some(AtAck(false)) { return; }
      stream := stream.(pending := stream.pending - {i}, acked := stream.acked + {i});
    }

    /**
     * The message loop.  A failure ends it: what came before is done, and of the
     * failing message as much as the call that failed lets through.
     */
    method ProcessMessages(batch: seq<nat>, h: Handler, failure: Failure) returns (ok: bool, handled: seq<nat>)
      requires InLog(stream, batch)
      modifies `stream, `records, `queues
      ensures ok <==> failure.Never? || |batch| <= failure.at
      ensures ok ==> Contents() == All(old(Contents()), clock, batch, h)
      ensures ok ==> handled == Handled(old(Contents()), clock, batch, h)
      ensures !ok ==>
        var before := All(old(Contents()), clock, batch[..failure.at], h);
        && Contents() == Broken(before, clock, batch[failure.at], h, failure.point)
        && handled == Handled(old(Contents()), clock, batch[..failure.at], h)
                      + HandledBroken(before, clock, batch[failure.at], failure.point)
    {
      handled := [];
      var n := 0;
      while n < |batch|
        invariant n <= |batch| && (failure.At? ==> n <= failure.at)
        invariant Contents() == All(old(Contents()), clock, batch[..n], h)
        invariant handled == Handled(old(Contents()), clock, batch[..n], h)
      {
        var fails := failure.At? && n == failure.at;
        assert batch[..n + 1][..n] == batch[..n];
        var ids := HandleMessage(batch[n], h, if fails then Some(failure.point) else None);
        handled := handled + ids;
        if fails { return false, handled; }
        n := n + 1;
      }
      assert batch[..n] == batch;
      ok := true;
    }
  }

  /** The commands whose handler runs: those without a live record when their turn comes. */
  function Handled(s: Store, now: nat, batch: seq<nat>, h: Handler): (ids: seq<nat>)
    requires InLog(s.stream, batch)
  {
    if batch == [] then []
    else
      var n := |batch| - 1;
      var c := s.stream.log[batch[n]];
      Handled(s, now, batch[..n], h) +
        if LiveRecord(Recorded(All(s, now, batch[..n], h), c.id), now) then [] else [c.id]
  }

  predicate Mentions(s: Store, batch: seq<nat>, id: nat)
    requires InLog(s.stream, batch)
  {
    exists k | 0 <= k < |batch| :: s.stream.log[batch[k]].id == id
  }

  lemma MentionsLast(s: Store, batch: seq<nat>, id: nat)
    requires DistinctIds(s, batch) && batch != []
    ensures var n := |batch| - 1;
      && (Mentions(s, batch, id) <==> Mentions(s, batch[..n], id) || s.stream.log[batch[n]].id == id)
      && (s.stream.log[batch[n]].id == id ==> !Mentions(s, batch[..n], id))
  {
    var n := |batch| - 1;
    if Mentions(s, batch[..n], id) {
      var k :| 0 <= k < n && s.stream.log[batch[..n][k]].id == id;
      assert s.stream.log[batch[k]].id == id;
    }
  }

  /** With distinct IDs the handler runs once, and only, for the commands that had no live record at the start. */
  lemma {:induction false} HandledExactly(s: Store, now: nat, batch: seq<nat>, h: Handler, id: nat)
    requires DistinctIds(s, batch) && WellRecorded(s)
    ensures multiset(Handled(s, now, batch, h))[id] ==
      if !LiveRecord(Recorded(s, id), now) && Mentions(s, batch, id) then 1 else 0
  {
    if batch != [] {
      var n := |batch| - 1;
      HandledExactly(s, now, batch[..n], h, id);
      OthersUntouched(s, now, batch[..n], h, s.stream.log[batch[n]].id);
      MentionsLast(s, batch, id);
    }
  }

  // ---------- The loop is a run of the delivery protocol without interference

  function StoreOf(st: State, r: string): (s: Store) { Store(StreamOf(st, r), st.records, st.queues) }

  /** What a consumer's committed result leaves in the store. */
  lemma CommitStore(st: State, r: string, h: Handler, fate: Fate)
    requires ConsumerOf(st, r).Finished? && Current(st, r).Some? && fate.Applied()
    requires ConsumerOf(st, r).result == ResultFor(StoreOf(st, r), st.now, Current(st, r).value, h)
    ensures var st1 := Step(st, Commit(r, fate));
      && StoreOf(st1, r) == Broken(StoreOf(st, r), st.now, ConsumerOf(st, r).batch[0], h, AtComplete(true))
      && (fate.Acknowledged? ==> ConsumerOf(st1, r) == Committed(ConsumerOf(st, r).batch) && Current(st1, r).Some?)
  {
    var id := ConsumerOf(st, r).result.id;
    assert QueueOf(st, id) == if id in st.queues then Some(st.queues[id]) else None;
  }

  lemma AckStore(st: State, r: string, fate: Fate)
    requires ConsumerOf(st, r).Committed? && Current(st, r).Some?
    ensures Enabled(st, Ack(r, fate))
    ensures var sm := StreamOf(st, r);
      StoreOf(Step(st, Ack(r, fate)), r) ==
        StoreOf(st, r).(stream := if fate.Applied() then Acked(sm, ConsumerOf(st, r).batch[0]) else sm)
  {
  }

  /**
   * One message of the loop, acknowledged or failing at its acknowledgement, is
   * the protocol's commit and acknowledge steps on the result the consumer holds.
   */
  lemma LoopIsCommitAndAck(st: State, r: string, h: Handler, fate: Fate)
    requires ConsumerOf(st, r).Finished? && Current(st, r).Some?
    requires ConsumerOf(st, r).result == ResultFor(StoreOf(st, r), st.now, Current(st, r).value, h)
    ensures var s, i, st1 := StoreOf(st, r), ConsumerOf(st, r).batch[0], Step(st, Commit(r, Acknowledged));
      && Enabled(st1, Ack(r, fate))
      && StoreOf(Step(st1, Ack(r, fate)), r) ==
         (if fate.Acknowledged? then One(s, st.now, i, h) else Broken(s, st.now, i, h, AtAck(fate.Applied())))
  {
    CommitStore(st, r, h, Acknowledged);
    AckStore(Step(st, Commit(r, Acknowledged)), r, fate);
  }

  /** With a live record the four steps are the loop's, whatever the handler would have said: it is not asked. */
  lemma FoundIsOne(st: State, r: string, h: Handler)
    requires ConsumerOf(st, r).Next? && Current(st, r).Some? && LiveRecord(RecordOf(st, Current(st, r).value.id), st.now)
    ensures Enabled(Step(st, Check(r)), UseFound(r))
    ensures var st2 := Step(Step(st, Check(r)), UseFound(r));
      && Enabled(st2, Commit(r, Acknowledged)) && Enabled(Step(st2, Commit(r, Acknowledged)), Ack(r, Acknowledged))
      && StoreOf(Step(Step(st2, Commit(r, Acknowledged)), Ack(r, Acknowledged)), r) ==
         One(StoreOf(st, r), st.now, ConsumerOf(st, r).batch[0], h)
  {
    var st2 := Step(Step(st, Check(r)), UseFound(r));
    assert Current(st2, r) == Current(st, r) && StoreOf(st2, r) == StoreOf(st, r);
    LoopIsCommitAndAck(st2, r, h, Acknowledged);
  }

  /**
   * A completion that does not reach the store leaves it as it was and, after a
   * Reset call, a broken attempt; one whose reply is lost leaves the message
   * completed and pending.
   */
  lemma FailedCompletionIsBroken(st: State, r: string, h: Handler)
    requires ConsumerOf(st, r).Finished? && Current(st, r).Some?
    requires ConsumerOf(st, r).result == ResultFor(StoreOf(st, r), st.now, Current(st, r).value, h)
    ensures var s, i, c := StoreOf(st, r), ConsumerOf(st, r).batch[0], Current(st, r).value;
      && var lost, unread := Step(st, Commit(r, NotApplied)), Step(st, Commit(r, ReplyLost));
      && StoreOf(lost, r) == Broken(s, st.now, i, h, AtComplete(false))
      && lost.broken == (if ConsumerOf(st, r).called then st.broken + multiset{c.id} else st.broken)
      && StoreOf(unread, r) == Broken(s, st.now, i, h, AtComplete(true))
  {
    CommitStore(st, r, h, ReplyLost);
  }
}
