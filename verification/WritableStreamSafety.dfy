/** What every reachable state of a writable stream satisfies. */
module WritableStreamSafety {
  import opened Common
  import opened StreamValues
  import opened WritableStream

  // ---------------------------------------------------------------- reference definitions

  function SettledIds(log: seq<Settlement>): seq<Id> {
    seq(|log|, i requires 0 <= i < |log| => log[i].id)
  }

  function AcceptedIds(accepted: seq<Accepted>): seq<Id> {
    seq(|accepted|, i requires 0 <= i < |accepted| => accepted[i].id)
  }

  function Chunks(accepted: seq<Accepted>): seq<Chunk> {
    seq(|accepted|, i requires 0 <= i < |accepted| => accepted[i].chunk)
  }

  function Values(queue: seq<Entry<Record>>): seq<Record> {
    seq(|queue|, i requires 0 <= i < |queue| => queue[i].value)
  }

  function WriteRecords(accepted: seq<Accepted>): seq<Record> {
    seq(|accepted|, i requires 0 <= i < |accepted| => WriteRecord(accepted[i].chunk))
  }

  predicate AllFulfilled(log: seq<Settlement>) {
    forall i :: 0 <= i < |log| ==> log[i].outcome == Fulfilled
  }

  /** The protocol a sink may rely on: start settles first; writes one at a time, the next only
      after the previous one was fulfilled; then at most one of close or abort; close only
      after fulfilled writes, abort never while another call is running; nothing after. */
  datatype Protocol = Starting | Idle | Writing | Failed | Closing | Aborting | Over | Violated

  function Next(p: Protocol, e: SinkEvent): Protocol {
    match (p, e)
    case (Starting, StartEnd(ok)) => if ok then Idle else Failed
    case (Idle, WriteStart(_)) => Writing
    case (Writing, WriteEnd(ok)) => if ok then Idle else Failed
    case (Idle, CloseStart) => Closing
    case (Closing, CloseEnd(_)) => Over
    case (Idle, AbortStart(_)) => Aborting
    case (Failed, AbortStart(_)) => Aborting
    case (Aborting, AbortEnd(_)) => Over
    case _ => Violated
  }

  function Follow(trace: seq<SinkEvent>): Protocol {
    if trace == [] then Starting else Next(Follow(trace[..|trace| - 1]), trace[|trace| - 1])
  }

  /** The chunks handed to the sink, in order. */
  function Written(trace: seq<SinkEvent>): seq<Chunk> {
    if trace == [] then []
    else
      var last := trace[|trace| - 1];
      Written(trace[..|trace| - 1]) + if last.WriteStart? then [last.chunk] else []
  }

  // ---------------------------------------------------------------- the invariant

  /** Which slots can be occupied together. */
  predicate Slots(s: Stream) {
    && (s.writePending <==> s.inFlightWrite.Some?)
    && (s.closePending <==> s.inFlightClose.Some?)
    && !(s.inFlightWrite.Some? && s.inFlightClose.Some?)
    && !(s.closeRequest.Some? && s.inFlightClose.Some?)
    && (!s.started ==> (s.state == Writable || s.state == Erroring) && !HasOperationInFlight(s))
    && (s.inFlightClose.Some? ==> s.queue == [] && s.writeRequests == [] && s.cleared)
    && (s.pendingAbort.Some? ==> s.state == Writable || s.state == Erroring)
    && (PendingFreshAbort(s) && s.inFlightClose.None? ==> !s.cleared)
    && (s.abortPending.Some? ==> s.state == Errored)
    && (s.state == Errored || s.state == Closed ==>
          !HasOperationInFlight(s) && s.queue == [] && s.writeRequests == [])
    && (s.state == Closed ==> s.closeRequest.None? && s.storedError == Undefined)
    && (s.state == Errored && s.closeRequest.Some? ==> s.abortPending.Some?)
  }

  /** A pending abort that will reach the sink. */
  predicate PendingFreshAbort(s: Stream) {
    s.pendingAbort.Some? && !s.pendingAbort.value.wasAlreadyErroring
  }

  /** The total size is exact and a write in flight is at the head of the queue. */
  predicate QueueShape(s: Stream) {
    && s.total == SumSizes(s.queue)
    && (forall i :: 0 <= i < |s.queue| ==> s.queue[i].size >= 0.0)
    && |s.writeRequests| + |Opt(s.inFlightWrite)| <= |s.accepted|
    && (s.inFlightWrite.Some? ==> s.queue != [] && s.queue[0].value.WriteRecord?)
  }

  /** Every accepted request is in exactly one place, and requests settle in order. */
  predicate Ledger(s: Stream) {
    && InOnePlace(AcceptedIds(s.accepted), s.writeLog, Opt(s.inFlightWrite), s.writeRequests)
    && InOnePlace(s.closeAccepted, s.closeLog, Opt(s.inFlightClose), Opt(s.closeRequest))
    && InOnePlace(s.abortAccepted, s.abortLog, Opt(AbortId(s.abortPending)), Opt(AbortId(s.pendingAbort)))
    && |s.closeAccepted| <= 1 && |s.abortAccepted| <= 1
    && (s.state == Closed || s.inFlightClose.Some? ==> AllFulfilled(s.writeLog))
    && Fresh(s.accepted, s.nextId)
  }

  /** In order of acceptance: the settled requests, then the running one, then those waiting. */
  predicate InOnePlace(accepted: seq<Id>, log: seq<Settlement>, running: seq<Id>, waiting: seq<Id>) {
    SettledIds(log) + running + waiting == accepted
  }

  /** Identities are given out in increasing order. */
  predicate Fresh(accepted: seq<Accepted>, nextId: Id) {
    && (forall i, j :: 0 <= i < j < |accepted| ==> accepted[i].id < accepted[j].id)
    && (forall i :: 0 <= i < |accepted| ==> accepted[i].id < nextId)
  }

  function AbortId(request: Option<AbortRequest>): Option<Id> {
    if request.Some? then Some(request.value.id) else None
  }

  /** The promises of an attached writer once the stream is no longer writable. */
  predicate WriterShape(s: Stream) {
    s.writer.Some? ==> ReadyShape(s, s.writer.value.ready) && ClosedShape(s, s.writer.value.closed)
  }

  predicate ReadyShape(s: Stream, ready: Ready) {
    match s.state
    case Writable => true
    case Closed => !ready.ReadyPending?
    case _ => ready.ReadyRejected?
  }

  predicate ClosedShape(s: Stream, closed: ClosedSlot) {
    match s.state
    case Closed => closed == Done(Fulfilled) || closed == Bare(Fulfilled)
    case Errored =>
      || closed == Bare(Rejected(s.storedError))
      || closed == if s.abortPending.Some? then Open else Done(Rejected(s.storedError))
    case _ => closed == Open
  }

  /** The sink's view agrees with the stream's. */
  predicate TraceShape(s: Stream) {
    && Written(s.trace) <= Chunks(s.accepted)
    && (s.state != Errored ==> |Written(s.trace)| + |s.writeRequests| == |s.accepted|)
    && (CloseStart in s.trace ==>
          && s.writeRequests == [] && s.inFlightWrite.None? && AllFulfilled(s.writeLog)
          && Written(s.trace) == Chunks(s.accepted))
    && ProtocolShape(s, Follow(s.trace))
  }

  predicate ProtocolShape(s: Stream, p: Protocol) {
    if !s.started then p == Starting
    else if s.inFlightWrite.Some? then p == Writing
    else if s.inFlightClose.Some? then p == Closing
    else if s.abortPending.Some? then p == Aborting
    else p == Idle || p == Failed || (p == Over && !PendingFreshAbort(s))
  }

  /** Holds between any two assignments of a step. */
  predicate Base(s: Stream) {
    Slots(s) && QueueShape(s) && Ledger(s) && WriterShape(s) && TraceShape(s)
  }

  /** A writable stream: the queue is the write in flight, one record per waiting request, then
      the close marker; the ready promise tells the backpressure flag, and the flag the truth. */
  predicate WritableShape(s: Stream)
    requires QueueShape(s)
  {
    WritableCore(s) && BackpressureExact(s)
  }

  predicate WritableCore(s: Stream)
    requires QueueShape(s)
  {
    && s.storedError == Undefined
    && s.pendingAbort.None?
    && (s.cleared ==> s.inFlightClose.Some?)
    && Values(s.queue) == ExpectedQueue(s)
    && AllFulfilled(s.writeLog)
    && s.closeLog == [] && s.abortLog == []
    && (s.writer.Some? ==> s.writer.value.ready == ExpectedReady(s))
    && (CloseStart in s.trace ==> s.inFlightClose.Some?)
    && (s.started && !HasOperationInFlight(s) ==> Follow(s.trace) == Idle)
  }

  predicate BackpressureExact(s: Stream) {
    !CloseQueuedOrInFlight(s) ==> s.backpressure == AtCapacity(s.hwm, s.total)
  }

  function ExpectedQueue(s: Stream): seq<Record>
    requires |s.writeRequests| + |Opt(s.inFlightWrite)| <= |s.accepted|
  {
    WriteRecords(s.accepted[|s.accepted| - |s.writeRequests| - |Opt(s.inFlightWrite)|..])
      + if s.closeRequest.Some? then [CloseMarker] else []
  }

  function ExpectedReady(s: Stream): Ready {
    if s.backpressure && !CloseQueuedOrInFlight(s) then ReadyPending else ReadyResolved
  }

  /** Between two steps nothing that could be started is left waiting. */
  predicate Settled(s: Stream) {
    && (s.state == Writable && s.started && !HasOperationInFlight(s) ==> s.queue == [])
    && (s.state == Erroring ==>
          && (!s.started || HasOperationInFlight(s))
          && s.closeLog == [] && s.abortLog == []
          && (CloseStart in s.trace ==> s.inFlightClose.Some?))
  }

  predicate Inv(s: Stream) {
    Base(s) && (s.state == Writable ==> WritableShape(s)) && Settled(s)
  }

  /** The promises the stream still owes, its own start included. */
  function Outstanding(s: Stream): int {
    (|s.accepted| - |s.writeLog|) + (|s.closeAccepted| - |s.closeLog|) + (|s.abortAccepted| - |s.abortLog|)
      + if s.started then 0 else 1
  }

  /** No request is added and no settlement is withdrawn. */
  predicate OnlySettles(s: Stream, t: Stream) {
    && t.accepted == s.accepted && t.closeAccepted == s.closeAccepted && t.abortAccepted == s.abortAccepted
    && s.writeLog <= t.writeLog && s.closeLog <= t.closeLog && s.abortLog <= t.abortLog
    && t.started == s.started && t.hwm == s.hwm
  }

  /** The invariant holds, nothing was withdrawn and nothing broke. */
  predicate Restores(s: Stream, t: Stream) {
    Inv(t) && OnlySettles(s, t) && t.faults == s.faults
  }

  // ---------------------------------------------------------------- sequences

  lemma FollowSnoc(trace: seq<SinkEvent>, e: SinkEvent)
    ensures Follow(trace + [e]) == Next(Follow(trace), e)
    ensures Written(trace + [e]) == Written(trace) + if e.WriteStart? then [e.chunk] else []
  {
    assert (trace + [e])[..|trace|] == trace;
  }

  lemma Accept(accepted: seq<Id>, log: seq<Settlement>, running: seq<Id>, waiting: seq<Id>, id: Id)
    requires InOnePlace(accepted, log, running, waiting)
    ensures InOnePlace(accepted + [id], log, running, waiting + [id])
  {
  }

  lemma Launch(accepted: seq<Id>, log: seq<Settlement>, waiting: seq<Id>)
    requires InOnePlace(accepted, log, [], waiting) && waiting != []
    ensures InOnePlace(accepted, log, [waiting[0]], waiting[1..])
  {
    assert [] + waiting == [waiting[0]] + waiting[1..];
    assert SettledIds(log) + [] + waiting == SettledIds(log) + [waiting[0]] + waiting[1..];
  }

  lemma Settle(accepted: seq<Id>, log: seq<Settlement>, id: Id, waiting: seq<Id>, outcome: Outcome)
    requires InOnePlace(accepted, log, [id], waiting)
    ensures InOnePlace(accepted, log + [Settlement(id, outcome)], [], waiting)
  {
    assert SettledIds(log + [Settlement(id, outcome)]) == SettledIds(log) + [id];
    assert SettledIds(log) + [id] + waiting == SettledIds(log) + [id] + [] + waiting;
  }

  lemma SettleAll(accepted: seq<Id>, log: seq<Settlement>, waiting: seq<Id>, reason: Reason)
    requires InOnePlace(accepted, log, [], waiting)
    ensures InOnePlace(accepted, log + RejectAll(waiting, reason), [], [])
  {
    var rejected := RejectAll(waiting, reason);
    assert SettledIds(log + rejected) == SettledIds(log) + waiting;
  }

  // ---------------------------------------------------------------- the path to errored

  /** The state once writableStreamFinishErroring has rejected the waiting writes. */
  function Drained(s: Stream): Stream {
    s.(state := Errored, queue := [], total := 0.0,
       writeLog := s.writeLog + RejectAll(s.writeRequests, s.storedError), writeRequests := [],
       pendingAbort := None)
  }

  function RejectedClose(s: Stream): Stream {
    s.(closeLog := s.closeLog + RejectAll(Opt(s.closeRequest), s.storedError), closeRequest := None,
       writer := if s.writer.Some? && s.writer.value.closed.Open?
                 then Some(s.writer.value.(closed := Done(Rejected(s.storedError)))) else s.writer)
  }

  /** When each internal operation may be called. */
  predicate MayFinishErroring(s: Stream) {
    Base(s) && s.state == Erroring && s.started && !HasOperationInFlight(s)
  }

  predicate MayStartErroring(s: Stream) {
    && Base(s) && s.state == Writable && s.storedError == Undefined
    && ((s.started && !HasOperationInFlight(s)) ||
        (s.closeLog == [] && s.abortLog == [] && (CloseStart in s.trace ==> s.inFlightClose.Some?)))
  }

  predicate MayErrorIfNeeded(s: Stream) {
    && Base(s) && (s.state != Writable ==> Inv(s))
    && (s.state == Writable ==>
          && s.storedError == Undefined && s.pendingAbort.None? && s.closeLog == [] && s.abortLog == []
          && (CloseStart in s.trace ==> s.inFlightClose.Some?))
  }

  predicate MayDealWithRejection(s: Stream) {
    && Base(s) && s.started && !HasOperationInFlight(s) && (s.state == Writable || s.state == Erroring)
    && (s.state == Writable ==> s.storedError == Undefined)
  }

  predicate MayProcess(s: Stream) {
    Base(s) && s.state == Writable && WritableShape(s) && s.started && s.inFlightWrite.None? && s.queue != []
  }

  predicate HeadIs(s: Stream, record: Record) {
    s.queue != [] && s.queue[0].value == record
  }

  lemma HeadMeaning(s: Stream, record: Record)
    requires HeadIs(s, record)
    ensures s.queue != [] && s.queue[0].value == record
  {
  }

  predicate MayAdvance(s: Stream) {
    && Base(s) && (s.state == Writable || s.state == Erroring) && s.inFlightClose.None?
    && (s.state == Writable ==> WritableShape(s))
    && (s.state == Erroring && (!s.started || HasOperationInFlight(s)) ==> Settled(s))
  }

  lemma FinishErroringResult(s: Stream)
    requires MayFinishErroring(s)
    ensures FinishErroring(s) ==
      if s.pendingAbort.None? then RejectedClose(Drained(s))
      else
        var r := s.pendingAbort.value;
        if r.wasAlreadyErroring
        then RejectedClose(Drained(s).(abortLog := s.abortLog + [Settlement(r.id, Rejected(s.storedError))]))
        else Drained(s).(trace := s.trace + [AbortStart(r.reason)], cleared := true, abortPending := Some(r))
  {
    hide Ledger, TraceShape, QueueShape;
    assert forall ids, r :: |ids| == 1 ==> RejectAll(ids, r) == [Settlement(ids[0], Rejected(r))];
  }

  lemma FinishErroringWithAbort(s: Stream)
    requires MayFinishErroring(s) && PendingFreshAbort(s)
    ensures Restores(s, FinishErroring(s)) && FinishErroring(s).state == Errored
  {
    hide FinishErroring, InOnePlace, AcceptedIds, Chunks, Fresh, AllFulfilled, Follow, Written, SumSizes, Values, WriteRecords;
    SumEmpty<Record>();
    FinishErroringResult(s);
    var t := FinishErroring(s);
    SettleAll(AcceptedIds(s.accepted), s.writeLog, s.writeRequests, s.storedError);
    FollowSnoc(s.trace, AbortStart(s.pendingAbort.value.reason));
    Launch(s.abortAccepted, s.abortLog, Opt(AbortId(s.pendingAbort)));
    assert s.writeRequests == [] ==> t.writeLog == s.writeLog;
  }

  lemma FinishErroringWithoutAbort(s: Stream)
    requires MayFinishErroring(s) && !PendingFreshAbort(s)
    ensures Restores(s, FinishErroring(s)) && FinishErroring(s).state == Errored
  {
    hide FinishErroring, InOnePlace, AcceptedIds, Chunks, Fresh, AllFulfilled, Follow, Written, SumSizes, Values, WriteRecords;
    SumEmpty<Record>();
    FinishErroringResult(s);
    var t := FinishErroring(s);
    SettleAll(AcceptedIds(s.accepted), s.writeLog, s.writeRequests, s.storedError);
    SettleAll(s.closeAccepted, s.closeLog, Opt(s.closeRequest), s.storedError);
    if s.pendingAbort.Some? {
      SettleAll(s.abortAccepted, s.abortLog, Opt(AbortId(s.pendingAbort)), s.storedError);
      assert RejectAll(Opt(AbortId(s.pendingAbort)), s.storedError) == [Settlement(s.pendingAbort.value.id, Rejected(s.storedError))];
    }
    assert s.writeRequests == [] ==> t.writeLog == s.writeLog;
  }

  lemma FinishErroringKeeps(s: Stream)
    requires MayFinishErroring(s)
    ensures Restores(s, FinishErroring(s)) && FinishErroring(s).state == Errored
  {
    hide FinishErroring, Base, Inv;
    if PendingFreshAbort(s) {
      FinishErroringWithAbort(s);
    } else {
      FinishErroringWithoutAbort(s);
    }
  }

  lemma StartErroringKeeps(s: Stream, reason: Reason)
    requires MayStartErroring(s)
    ensures Restores(s, StartErroring(s, reason)) && StartErroring(s, reason).state != Writable
  {
    hide FinishErroring, InOnePlace, AcceptedIds, Chunks, Fresh, AllFulfilled, Follow, Written, SumSizes, Values, WriteRecords;
    var s1 := s.(state := Erroring, storedError := reason);
    var s2 := if s1.writer.Some? then s1.(writer := Some(s1.writer.value.(ready := ReadyRejected(reason)))) else s1;
    assert Base(s2);
    if !HasOperationInFlight(s2) && s2.started {
      FinishErroringKeeps(s2);
    }
  }

  // ---------------------------------------------------------------- advancing the queue

  lemma DequeueExact(s: Stream)
    requires QueueShape(s) && s.queue != []
    ensures Dequeue(s) == s.(queue := s.queue[1..], total := SumSizes(s.queue[1..]))
    ensures Values(s.queue)[1..] == Values(s.queue[1..])
  {
    SumNonNegative(s.queue[1..]);
  }

  /** The head of a writable stream's queue tells which request is next. */
  lemma HeadOfQueue(s: Stream)
    requires QueueShape(s) && s.state == Writable && WritableShape(s) && s.inFlightWrite.None? && s.queue != []
    ensures s.queue[0].value.WriteRecord? ==>
      s.writeRequests != [] && s.queue[0].value.chunk == s.accepted[|s.accepted| - |s.writeRequests|].chunk
    ensures s.queue[0].value.CloseMarker? ==>
      s.writeRequests == [] && s.closeRequest.Some? && |s.queue| == 1
  {
    var expected := ExpectedQueue(s);
    assert Values(s.queue)[0] == s.queue[0].value;
    assert |s.queue| == |expected|;
    if s.writeRequests != [] {
      assert expected[0] == WriteRecord(s.accepted[|s.accepted| - |s.writeRequests|].chunk);
    }
  }

  lemma NothingExpected(s: Stream)
    requires s.writeRequests == [] && s.inFlightWrite.None? && s.closeRequest.None?
    ensures ExpectedQueue(s) == Values([]) == []
  {
    assert |WriteRecords(s.accepted[|s.accepted|..])| == 0;
  }

  lemma WholePrefix(accepted: seq<Accepted>, written: seq<Chunk>)
    requires written <= Chunks(accepted) && |written| == |accepted|
    ensures written == Chunks(accepted)
  {
  }

  lemma ValuesSnoc(queue: seq<Entry<Record>>, e: Entry<Record>)
    ensures Values(queue + [e]) == Values(queue) + [e.value]
  {
  }

  lemma PrefixGrows(accepted: seq<Accepted>, written: seq<Chunk>, chunk: Chunk)
    requires written <= Chunks(accepted) && |written| < |accepted| && accepted[|written|].chunk == chunk
    ensures written + [chunk] <= Chunks(accepted)
  {
  }

  lemma ProcessWriteKeeps(s: Stream, chunk: Chunk)
    requires MayProcess(s) && s.queue[0].value == WriteRecord(chunk)
    ensures Restores(s, ProcessWrite(s, chunk))
  {
    hide InOnePlace, AcceptedIds, Fresh, AllFulfilled, SumSizes, Values, Chunks, Written, Follow, WriteRecords;
    HeadOfQueue(s);
    Launch(AcceptedIds(s.accepted), s.writeLog, s.writeRequests);
    FollowSnoc(s.trace, WriteStart(chunk));
    PrefixGrows(s.accepted, Written(s.trace), chunk);
    var t := ProcessWrite(s, chunk);
    assert ExpectedQueue(t) == ExpectedQueue(s);
  }

  lemma ProcessCloseResult(s: Stream)
    requires MayProcess(s) && s.queue[0].value == CloseMarker
    ensures s.writeRequests == [] && s.closeRequest.Some?
    ensures ProcessClose(s) ==
      s.(inFlightClose := s.closeRequest, closeRequest := None, queue := [], total := 0.0,
         trace := s.trace + [CloseStart], closePending := true, cleared := true)
  {
    hide Ledger, TraceShape, WriterShape, Dequeue;
    HeadOfQueue(s);
    DequeueExact(s.(inFlightClose := s.closeRequest, closeRequest := None));
  }

  lemma ProcessCloseKeeps(s: Stream)
    requires MayProcess(s) && s.queue[0].value == CloseMarker
    ensures Restores(s, ProcessClose(s))
  {
    hide InOnePlace, AcceptedIds, Fresh, AllFulfilled, ProcessClose, Chunks, Written, Follow, SumSizes, WriteRecords, Values, ExpectedQueue;
    SumEmpty<Record>();
    ProcessCloseResult(s);
    Launch(s.closeAccepted, s.closeLog, Opt(s.closeRequest));
    FollowSnoc(s.trace, CloseStart);
    WholePrefix(s.accepted, Written(s.trace));
    NothingExpected(ProcessClose(s));
  }

  /** writableStreamDefaultControllerAdvanceQueueIfNeeded restores the invariant. */
  lemma AdvanceKeeps(s: Stream)
    requires MayAdvance(s)
    ensures Restores(s, AdvanceQueueIfNeeded(s))
  {
    hide Base, WritableShape, ProcessWrite, ProcessClose, FinishErroring;
    if s.started && s.inFlightWrite.None? {
      if s.state == Erroring {
        FinishErroringKeeps(s);
      } else if s.queue != [] {
        match s.queue[0].value
        case CloseMarker => ProcessCloseKeeps(s);
        case WriteRecord(chunk) => ProcessWriteKeeps(s, chunk);
      }
    }
  }

  // ---------------------------------------------------------------- requests of the user

  lemma ErrorIfNeededKeeps(s: Stream, error: Reason)
    requires MayErrorIfNeeded(s)
    ensures Inv(ErrorIfNeeded(s, error)) && ErrorIfNeeded(s, error).faults == s.faults
    ensures ErrorIfNeeded(s, error).state != Writable
  {
    hide StartErroring, Inv, InOnePlace, AcceptedIds, Fresh, AllFulfilled, Chunks, Written, Follow, SumSizes;
    if s.state == Writable {
      StartErroringKeeps(s.(cleared := true), error);
    }
  }

  /** An attached writer waits exactly under backpressure. */
  predicate ReadyFollows(s: Stream) {
    s.writer.Some? ==> (s.writer.value.ready.ReadyPending? <==> s.backpressure)
  }

  predicate MayUpdateBackpressure(s: Stream) {
    s.state == Writable && !CloseQueuedOrInFlight(s) && ReadyFollows(s)
  }

  lemma UpdateFollows(s: Stream, value: bool)
    requires MayUpdateBackpressure(s)
    ensures var t := UpdateBackpressure(s, value); ReadyFollows(t) && t.backpressure == value && t.faults == s.faults
  {
  }

  lemma RefreshResult(s: Stream)
    requires QueueShape(s) && s.state == Writable && WritableCore(s)
    ensures CloseQueuedOrInFlight(s) ==> RefreshBackpressure(s) == s
    ensures !CloseQueuedOrInFlight(s) ==>
      var full := AtCapacity(s.hwm, s.total);
      RefreshBackpressure(s) ==
      s.(backpressure := full,
         writer := if s.writer.Some? then Some(s.writer.value.(ready := if full then ReadyPending else ReadyResolved))
                   else None)
  {
    hide QueueShape, Values, AllFulfilled, Follow, AtCapacity, ExpectedQueue;
  }

  lemma RefreshKeeps(s: Stream)
    requires Base(s) && s.state == Writable && WritableCore(s)
    ensures Base(RefreshBackpressure(s)) && WritableShape(RefreshBackpressure(s))
    ensures RefreshBackpressure(s).faults == s.faults && OnlySettles(s, RefreshBackpressure(s))
    ensures RefreshBackpressure(s).state == Writable && RefreshBackpressure(s).inFlightClose == s.inFlightClose
  {
    hide InOnePlace, AcceptedIds, Fresh, AllFulfilled, SumSizes, Values, Chunks, AtCapacity, RefreshBackpressure, Written, Follow;
    RefreshResult(s);
    assert ExpectedQueue(RefreshBackpressure(s)) == ExpectedQueue(s);
  }

  lemma AcceptKeeps(s: Stream, chunk: Chunk)
    requires Inv(s) && s.state == Writable && !CloseQueuedOrInFlight(s)
    ensures Base(AcceptWrite(s, chunk))
    ensures Values(s.queue) + [WriteRecord(chunk)] == ExpectedQueue(AcceptWrite(s, chunk))
  {
    hide InOnePlace, AcceptedIds, Chunks, Fresh, AllFulfilled, Follow, Written, SumSizes, Values, WriteRecords;
    var t := AcceptWrite(s, chunk);
    AcceptedGrows(s.accepted, s.nextId, chunk, |s.accepted| - |s.writeRequests| - |Opt(s.inFlightWrite)|);
    Accept(AcceptedIds(s.accepted), s.writeLog, Opt(s.inFlightWrite), s.writeRequests, s.nextId);
  }

  lemma AcceptedGrows(accepted: seq<Accepted>, id: Id, chunk: Chunk, k: nat)
    requires k <= |accepted| && Fresh(accepted, id)
    ensures var after := accepted + [Accepted(id, chunk)];
      && AcceptedIds(after) == AcceptedIds(accepted) + [id]
      && Chunks(after) == Chunks(accepted) + [chunk]
      && WriteRecords(after[k..]) == WriteRecords(accepted[k..]) + [WriteRecord(chunk)]
      && Fresh(after, id + 1)
  {
    assert (accepted + [Accepted(id, chunk)])[k..] == accepted[k..] + [Accepted(id, chunk)];
  }

  lemma EnqueueKeeps(s: Stream, value: Record, size: real)
    requires Base(s) && size >= 0.0 && s.inFlightClose.None? && (s.state == Writable || s.state == Erroring)
    ensures Base(Enqueue(s, value, size))
    ensures Values(Enqueue(s, value, size).queue) == Values(s.queue) + [value]
  {
    hide InOnePlace, AcceptedIds, Fresh, AllFulfilled, Chunks;
    SumSnoc(s.queue, Entry(value, size));
  }

  lemma ControllerWriteKeeps(s: Stream, chunk: Chunk, size: SizeResult)
    requires Inv(s) && s.state == Writable && !CloseQueuedOrInFlight(s)
    ensures Inv(ControllerWrite(AcceptWrite(s, chunk), chunk, size))
    ensures ControllerWrite(AcceptWrite(s, chunk), chunk, size).faults == s.faults
  {
    hide AdvanceQueueIfNeeded, RefreshBackpressure, ErrorIfNeeded, Slots, Ledger, TraceShape, WriterShape, Settled;
    var t := AcceptWrite(s, chunk);
    AcceptKeeps(s, chunk);
    if size.Size? && size.size >= 0.0 {
      EnqueueKeeps(t, WriteRecord(chunk), size.size);
      var u := Enqueue(t, WriteRecord(chunk), size.size);
      assert ExpectedQueue(u) == ExpectedQueue(t);
      RefreshKeeps(u);
      AdvanceKeeps(RefreshBackpressure(u));
    } else {
      ErrorIfNeededKeeps(t, RangeError);
    }
  }

  lemma WriteKeeps(s: Stream, chunk: Chunk, size: SizeResult)
    requires Inv(s)
    ensures Inv(Write(s, chunk, size)) && Write(s, chunk, size).faults == s.faults
  {
    hide ErrorIfNeeded, ControllerWrite, Slots, QueueShape, Ledger, TraceShape, WriterShape, Settled;
    if s.cleared {
      ErrorIfNeededKeeps(s, TypeError);
    } else if size.SizeThrows? {
      ErrorIfNeededKeeps(s, size.error);
    } else if s.state == Writable && !CloseQueuedOrInFlight(s) {
      ControllerWriteKeeps(s, chunk, size);
    }
  }

  function AcceptClose(s: Stream): Stream {
    AcceptCloseRequest(s).(
       queue := s.queue + [Entry(CloseMarker, 0.0)], total := s.total + 0.0,
       writer := if s.writer.Some? && s.backpressure && s.state == Writable
                 then Some(s.writer.value.(ready := ReadyResolved)) else s.writer)
  }

  lemma AcceptCloseLeaves(s: Stream)
    ensures var t := AcceptCloseRequest(s);
      t.writer == s.writer && t.state == s.state && t.backpressure == s.backpressure
  {
  }

  /** Only a write that passes the checks is accepted, and then as the last one. */
  lemma WriteAccepts(s: Stream, chunk: Chunk, size: SizeResult)
    ensures var (s1, used) := GetChunkSize(s, size);
      && s1.accepted == s.accepted
      && ControllerWrite(AcceptWrite(s1, chunk), chunk, used).accepted == s.accepted + [Accepted(s1.nextId, chunk)]
  {
    hide ErrorIfNeeded, AdvanceQueueIfNeeded, UpdateBackpressure;
    var (s1, used) := GetChunkSize(s, size);
    ErrorAcceptsNothing(s, if s.cleared then TypeError else if size.SizeThrows? then size.error else RangeError);
    var t := AcceptWrite(s1, chunk);
    ErrorAcceptsNothing(t, RangeError);
    if used.Size? {
      var u := Enqueue(t, WriteRecord(chunk), used.size);
      RefreshAcceptsNothing(u);
      AdvanceAcceptsNothing(RefreshBackpressure(u));
    }
  }

  lemma FinishAcceptsNothing(s: Stream)
    ensures FinishErroring(s).accepted == s.accepted
  {
    hide Assert, RejectAll, FinishAbort;
    var s1 := Assert(Assert(s, s.state == Erroring), !HasOperationInFlight(s));
    AbortAcceptsNothing(RejectWriteRequests(s1.(state := Errored, queue := [], total := 0.0)));
  }

  lemma AbortAcceptsNothing(s: Stream)
    ensures FinishAbort(s).accepted == s.accepted
  {
    hide CallAlgorithm, RejectCloseAndClosedPromiseIfNeeded;
    RejectAcceptsNothing(s);
    if s.pendingAbort.Some? {
      RejectAcceptsNothing(SettlePendingAbort(s, Rejected(s.storedError)));
    }
  }

  lemma RejectAcceptsNothing(s: Stream)
    ensures RejectCloseAndClosedPromiseIfNeeded(s).accepted == s.accepted
  {
    hide Assert, SettleClosed, RejectCloseRequest;
    var t := RejectCloseRequest(Assert(s, s.state == Errored));
    assert t.accepted == s.accepted;
  }

  lemma ErrorAcceptsNothing(s: Stream, e: Reason)
    ensures ErrorIfNeeded(s, e).accepted == s.accepted
  {
    hide FinishErroring, Assert, RejectReady;
    FinishAcceptsNothing(BecomeErroring(s.(cleared := true), e));
  }

  lemma RefreshAcceptsNothing(s: Stream)
    ensures RefreshBackpressure(s).accepted == s.accepted
  {
    hide Assert, NotifyWriter;
  }

  lemma MarkAcceptsNothing(s: Stream)
    ensures Dequeue(MarkCloseInFlight(s)).accepted == s.accepted
  {
    hide Assert;
  }

  lemma AdvanceAcceptsNothing(s: Stream)
    ensures AdvanceQueueIfNeeded(s).accepted == s.accepted
  {
    hide Assert, CallAlgorithm, FinishErroring, Dequeue, MarkCloseInFlight;
    MarkAcceptsNothing(Assert(s, s.state != Closed && s.state != Errored));
    FinishAcceptsNothing(Assert(s, s.state != Closed && s.state != Errored));
  }

  lemma AcceptCloseKeeps(s: Stream)
    requires Inv(s) && (s.state == Writable || s.state == Erroring) && !CloseQueuedOrInFlight(s)
    ensures Base(AcceptClose(s))
    ensures s.state == Writable ==> WritableShape(AcceptClose(s))
  {
    hide InOnePlace, AcceptedIds, Fresh, AllFulfilled, Chunks, Written, Follow, SumSizes, WriteRecords, Values;
    var t := AcceptClose(s);
    Accept(s.closeAccepted, s.closeLog, [], [], s.nextId);
    assert s.closeAccepted == [] by { EmptyPlaces(s.closeAccepted); }
    assert Opt(t.closeRequest) == [] + [s.nextId];
    FreshLater(s.accepted, s.nextId);
    SumSnoc(s.queue, Entry(CloseMarker, 0.0));
    ValuesSnoc(s.queue, Entry(CloseMarker, 0.0));
    if s.state == Writable {
      assert ExpectedQueue(t) == ExpectedQueue(s) + [CloseMarker];
    }
  }

  lemma EmptyPlaces(accepted: seq<Id>)
    requires InOnePlace(accepted, [], [], [])
    ensures accepted == []
  {
  }

  /** The step faults exactly when the writer asks for a second close. */
  lemma CloseKeeps(s: Stream)
    requires Inv(s)
    ensures Inv(Close(s))
    ensures Close(s).faults == s.faults + if SecondClose(s) then [AssertionFailed] else []
  {
    hide AdvanceQueueIfNeeded, Ledger, TraceShape, QueueShape, AtCapacity, ExpectedQueue, Values, AllFulfilled;
    if (s.state == Writable || s.state == Erroring) && !CloseQueuedOrInFlight(s) {
      AcceptCloseKeeps(s);
      AdvanceKeeps(AcceptClose(s));
      CloseResult(s);
    } else {
      Reframe(s, s.writer, s.released, s.faults + [AssertionFailed]);
    }
  }

  lemma CloseResult(s: Stream)
    requires Inv(s) && (s.state == Writable || s.state == Erroring) && !CloseQueuedOrInFlight(s)
    ensures Close(s) == AdvanceQueueIfNeeded(AcceptClose(s))
  {
    hide AdvanceQueueIfNeeded, Slots, Ledger, TraceShape, QueueShape, AtCapacity, Settled;
  }

  predicate SecondClose(s: Stream) {
    s.writer.Some? && CloseQueuedOrInFlight(s) && (s.state == Writable || s.state == Erroring)
  }

  lemma AbortKeeps(s: Stream, reason: Reason)
    requires Inv(s)
    ensures Inv(Abort(s, reason)) && Abort(s, reason).faults == s.faults && Abort(s, reason).state != Writable
  {
    hide StartErroring, InOnePlace, AcceptedIds, Fresh, AllFulfilled, Chunks, Written, Follow, SumSizes, Values, WriteRecords;
    if (s.state == Writable || s.state == Erroring) && s.pendingAbort.None? {
      var t := AcceptAbort(s, reason);
      Accept(s.abortAccepted, s.abortLog, [], [], s.nextId);
      assert s.abortAccepted == [] by { EmptyPlaces(s.abortAccepted); }
      assert Opt(AbortId(t.pendingAbort)) == [] + [s.nextId];
      FreshLater(s.accepted, s.nextId);
      assert Base(t);
      if s.state == Writable {
        StartErroringKeeps(t, reason);
      }
    }
  }

  lemma FreshLater(accepted: seq<Accepted>, nextId: Id)
    requires Fresh(accepted, nextId)
    ensures Fresh(accepted, nextId + 1)
  {
  }

  /** The writer and the fault history may be replaced as long as the writer fits the state. */
  lemma Reframe(s: Stream, writer: Option<Writer>, released: bool, faults: seq<Fault>)
    requires Inv(s)
    requires writer.Some? ==> ReadyShape(s, writer.value.ready) && ClosedShape(s, writer.value.closed)
    requires writer.Some? && s.state == Writable ==> writer.value.ready == ExpectedReady(s)
    ensures Inv(s.(writer := writer, released := released, faults := faults))
  {
    hide WritableCore, BackpressureExact, ReadyShape, ClosedShape, Slots, Ledger, TraceShape;
    ReframeBase(s, writer, released, faults);
    if s.state == Writable {
      ReframeShape(s, writer, released, faults);
    }
  }

  lemma ReframeBase(s: Stream, writer: Option<Writer>, released: bool, faults: seq<Fault>)
    requires Base(s) && (writer.Some? ==> ReadyShape(s, writer.value.ready) && ClosedShape(s, writer.value.closed))
    ensures Base(s.(writer := writer, released := released, faults := faults))
  {
    hide InOnePlace, AcceptedIds, Fresh, AllFulfilled, Chunks, Written, Follow, SumSizes;
  }

  lemma ReframeShape(s: Stream, writer: Option<Writer>, released: bool, faults: seq<Fault>)
    requires QueueShape(s) && WritableShape(s) && (writer.Some? ==> writer.value.ready == ExpectedReady(s))
    ensures WritableShape(s.(writer := writer, released := released, faults := faults))
  {
    hide AllFulfilled, Follow, SumSizes, Values, AtCapacity, WriteRecords;
  }

  lemma AcquireKeeps(s: Stream)
    requires Inv(s)
    ensures Inv(AcquireWriter(s)) && AcquireWriter(s).faults == s.faults
  {
    hide Slots, QueueShape, Ledger, TraceShape, Settled, BackpressureExact, ExpectedQueue, Values, AllFulfilled;
    var t := AcquireWriter(s);
    assert t == s.(writer := t.writer);
    Reframe(s, t.writer, s.released, s.faults);
  }

  lemma ReleaseKeeps(s: Stream)
    requires Inv(s)
    ensures Inv(ReleaseWriter(s)) && ReleaseWriter(s).faults == s.faults
  {
    hide Inv;
    Reframe(s, None, true, s.faults);
  }

  /** A call that fails before it touches a slot. */
  lemma FaultKeeps(s: Stream, fault: Fault)
    requires Inv(s)
    ensures Inv(s.(faults := s.faults + [fault]))
  {
    hide Slots, QueueShape, Ledger, TraceShape, Settled, BackpressureExact, ExpectedQueue, Values, AllFulfilled;
    Reframe(s, s.writer, s.released, s.faults + [fault]);
  }

  // ---------------------------------------------------------------- reactions to the sink

  lemma StartSettledKeeps(s: Stream, outcome: Outcome)
    requires Inv(s) && !s.started
    ensures Base(StartSettled(s, outcome))
    ensures s.state == Writable ==> WritableShape(StartSettled(s, outcome)) || outcome.Rejected?
  {
    hide InOnePlace, AcceptedIds, Fresh, AllFulfilled, Chunks, Follow, Written, SumSizes, Values, WriteRecords, AtCapacity;
    FollowSnoc(s.trace, StartEnd(outcome.Fulfilled?));
  }

  lemma StartDoneKeeps(s: Stream, outcome: Outcome)
    requires Inv(s) && !s.started
    ensures Inv(StartDone(s, outcome)) && StartDone(s, outcome).faults == s.faults
    ensures Outstanding(StartDone(s, outcome)) < Outstanding(s)
  {
    hide AdvanceQueueIfNeeded, DealWithRejection, Base, WritableCore, BackpressureExact;
    StartSettledKeeps(s, outcome);
    var t := StartSettled(s, outcome);
    StartStill(s);
    if outcome.Fulfilled? {
      AdvanceKeeps(t);
    } else {
      DealWithRejectionKeeps(t, outcome.reason);
    }
  }

  lemma StartStill(s: Stream)
    requires Inv(s) && !s.started
    ensures (s.state == Writable || s.state == Erroring) && !HasOperationInFlight(s)
    ensures s.state == Writable ==> s.storedError == Undefined
  {
  }

  lemma DealWithRejectionKeeps(s: Stream, error: Reason)
    requires MayDealWithRejection(s)
    ensures Restores(s, DealWithRejection(s, error))
  {
    hide Base, StartErroring, FinishErroring, Inv;
    if s.state == Writable {
      StartErroringKeeps(s, error);
    } else {
      FinishErroringKeeps(s);
    }
  }

  lemma WriteSettledKeeps(s: Stream, outcome: Outcome)
    requires Inv(s) && s.inFlightWrite.Some?
    ensures Base(WriteSettled(s, outcome))
    ensures Follow(WriteSettled(s, outcome).trace) == if outcome.Fulfilled? then Idle else Failed
  {
    hide AcceptedIds, InOnePlace, Fresh, AllFulfilled, Chunks, SumSizes, Values;
    FollowSnoc(s.trace, WriteEnd(outcome.Fulfilled?));
    Settle(AcceptedIds(s.accepted), s.writeLog, s.inFlightWrite.value, s.writeRequests, outcome);
  }

  lemma ExpectedTail(s: Stream, t: Stream)
    requires |s.writeRequests| + 1 <= |s.accepted| && s.inFlightWrite.Some? && t.inFlightWrite.None?
    requires t.accepted == s.accepted && t.writeRequests == s.writeRequests && t.closeRequest == s.closeRequest
    ensures ExpectedQueue(t) == ExpectedQueue(s)[1..]
  {
    RecordsTail(s.accepted, |s.accepted| - |s.writeRequests| - 1,
                if s.closeRequest.Some? then [CloseMarker] else []);
  }

  lemma RecordsTail(accepted: seq<Accepted>, n: nat, tail: seq<Record>)
    requires n < |accepted|
    ensures WriteRecords(accepted[n + 1..]) + tail == (WriteRecords(accepted[n..]) + tail)[1..]
  {
    var a, b := WriteRecords(accepted[n..]), WriteRecords(accepted[n + 1..]);
    assert a[1..] == b by {
      forall i | 0 <= i < |b| ensures a[i + 1] == b[i] {}
    }
    assert (a + tail)[1..] == a[1..] + tail;
  }

  lemma WriteFulfilledKeeps(s: Stream)
    requires Inv(s) && s.inFlightWrite.Some?
    ensures Inv(WriteDone(s, Fulfilled)) && WriteDone(s, Fulfilled).faults == s.faults
    ensures Outstanding(WriteDone(s, Fulfilled)) < Outstanding(s)
  {
    hide AdvanceQueueIfNeeded, UpdateBackpressure, AcceptedIds, InOnePlace, Fresh, Chunks, SumSizes, Dequeue, Follow, Written;
    WriteSettledKeeps(s, Fulfilled);
    var t := WriteSettled(s, Fulfilled);
    DequeueExact(t);
    var u := t.(queue := t.queue[1..], total := SumSizes(t.queue[1..]));
    assert Base(u);
    if s.state == Writable {
      ExpectedTail(s, u);
      RefreshKeeps(u);
      AdvanceKeeps(RefreshBackpressure(u));
    } else {
      AdvanceKeeps(u);
    }
  }

  lemma WriteRejectedKeeps(s: Stream, reason: Reason)
    requires Inv(s) && s.inFlightWrite.Some?
    ensures Inv(WriteDone(s, Rejected(reason))) && WriteDone(s, Rejected(reason)).faults == s.faults
    ensures Outstanding(WriteDone(s, Rejected(reason))) < Outstanding(s)
  {
    hide DealWithRejection, AcceptedIds, InOnePlace, Fresh, AllFulfilled, Chunks, SumSizes, Values, Follow, Written;
    WriteSettledKeeps(s, Rejected(reason));
    var t := WriteSettled(s, Rejected(reason));
    var u := if t.state == Writable then t.(cleared := true) else t;
    assert Base(u);
    DealWithRejectionKeeps(u, reason);
  }

  lemma WriteDoneKeeps(s: Stream, outcome: Outcome)
    requires Inv(s) && s.writePending
    ensures var t := WriteDone(s, outcome); Inv(t) && t.faults == s.faults && Outstanding(t) < Outstanding(s)
  {
    hide Inv, WriteDone, Outstanding;
    PromisesMatchSlots(s);
    match outcome
    case Fulfilled => WriteFulfilledKeeps(s);
    case Rejected(reason) => WriteRejectedKeeps(s, reason);
  }

  lemma CloseDoneKeeps(s: Stream, outcome: Outcome)
    requires Inv(s) && s.closePending
    ensures var t := CloseDone(s, outcome); Inv(t) && t.faults == s.faults && Outstanding(t) < Outstanding(s)
  {
    hide Inv, CloseDone, Outstanding;
    PromisesMatchSlots(s);
    match outcome
    case Fulfilled => CloseFulfilledKeeps(s);
    case Rejected(reason) => CloseRejectedKeeps(s, reason);
  }

  /** The state after the sink's close promise settled and took a pending abort with it. */
  function CloseAndAbortSettled(s: Stream, outcome: Outcome): Stream
    requires s.inFlightClose.Some?
  {
    var t := CloseSettled(s, outcome);
    if t.pendingAbort.Some? then SettlePendingAbort(t, outcome) else t
  }

  lemma CloseSettledKeeps(s: Stream, outcome: Outcome)
    requires Inv(s) && s.inFlightClose.Some?
    ensures Base(CloseAndAbortSettled(s, outcome))
  {
    hide AcceptedIds, InOnePlace, Fresh, AllFulfilled, Chunks, SumSizes, Values, WriteRecords, Written, Follow;
    FollowSnoc(s.trace, CloseEnd(outcome.Fulfilled?));
    Settle(s.closeAccepted, s.closeLog, s.inFlightClose.value, Opt(s.closeRequest), outcome);
    if s.pendingAbort.Some? {
      Launch(s.abortAccepted, s.abortLog, Opt(AbortId(s.pendingAbort)));
      Settle(s.abortAccepted, s.abortLog, s.pendingAbort.value.id, [], outcome);
    }
  }

  lemma CloseFulfilledResult(s: Stream)
    requires Inv(s) && s.inFlightClose.Some?
    ensures CloseDone(s, Fulfilled) ==
      CloseAndAbortSettled(s, Fulfilled).(
        state := Closed, storedError := Undefined,
        writer := if s.writer.Some? then Some(s.writer.value.(closed := Done(Fulfilled))) else None)
  {
    hide QueueShape, Ledger, TraceShape, Values, AllFulfilled, ExpectedQueue, BackpressureExact, Settled;
    var t := CloseSettled(s, Fulfilled);
    assert t.state == Writable || t.state == Erroring;
    var u := ForgetError(t);
    assert u == CloseAndAbortSettled(s, Fulfilled).(storedError := Undefined);
  }

  lemma CloseFulfilledKeeps(s: Stream)
    requires Inv(s) && s.inFlightClose.Some?
    ensures Inv(CloseDone(s, Fulfilled)) && CloseDone(s, Fulfilled).faults == s.faults
    ensures Outstanding(CloseDone(s, Fulfilled)) < Outstanding(s)
  {
    hide CloseDone, AcceptedIds, InOnePlace, Fresh, AllFulfilled, Chunks, SumSizes, Values, Follow, Written;
    CloseFulfilledResult(s);
    CloseSettledKeeps(s, Fulfilled);
  }

  lemma CloseRejectedKeeps(s: Stream, reason: Reason)
    requires Inv(s) && s.inFlightClose.Some?
    ensures Inv(CloseDone(s, Rejected(reason))) && CloseDone(s, Rejected(reason)).faults == s.faults
    ensures Outstanding(CloseDone(s, Rejected(reason))) < Outstanding(s)
  {
    hide DealWithRejection, QueueShape, Ledger, TraceShape, Values, AllFulfilled, ExpectedQueue, BackpressureExact;
    CloseSettledKeeps(s, Rejected(reason));
    var t := CloseAndAbortSettled(s, Rejected(reason));
    DealWithRejectionKeeps(t, reason);
    assert CloseDone(s, Rejected(reason)) == DealWithRejection(t, reason);
  }

  /** An attached writer that was created after the stream had errored. */
  predicate LateWriter(s: Stream) {
    s.abortPending.Some? && s.writer.Some? && s.writer.value.closed.Bare?
  }

  lemma AbortDoneResult(s: Stream, outcome: Outcome)
    requires Inv(s) && s.abortPending.Some?
    ensures AbortDone(s, outcome) ==
      RejectedClose(AbortSettled(s, outcome)).(faults := s.faults + if LateWriter(s) then [MissingHandler] else [])
  {
    hide QueueShape, Ledger, TraceShape;
    assert forall ids, r :: |ids| == 1 ==> RejectAll(ids, r) == [Settlement(ids[0], Rejected(r))];
  }

  lemma AbortDoneKeeps(s: Stream, outcome: Outcome)
    requires Inv(s) && s.abortPending.Some?
    ensures Inv(AbortDone(s, outcome)) && Outstanding(AbortDone(s, outcome)) < Outstanding(s)
    ensures AbortDone(s, outcome).faults == s.faults + if LateWriter(s) then [MissingHandler] else []
  {
    hide AbortDone, AcceptedIds, InOnePlace, Fresh, AllFulfilled, Chunks, SumSizes, Values;
    AbortDoneResult(s, outcome);
    FollowSnoc(s.trace, AbortEnd(outcome.Fulfilled?));
    Settle(s.abortAccepted, s.abortLog, s.abortPending.value.id, [], outcome);
    SettleAll(s.closeAccepted, s.closeLog, Opt(s.closeRequest), s.storedError);
  }

  // ---------------------------------------------------------------- runs

  /** The only steps that break an assertion, call a missing function or read from `undefined`. */
  function StepFaults(s: Stream, e: Event): seq<Fault> {
    if e.DoClose? && SecondClose(s) then [AssertionFailed]
    else if e.OnAbort? && LateWriter(s) then [MissingHandler]
    else if (e.StaleWrite? || e.StaleAbort?) && s.released then [AssertionFailed]
    else if e.StaleClose? && s.released then [UndefinedRead]
    else []
  }

  lemma StepKeeps(s: Stream, e: Event)
    requires Inv(s)
    ensures Inv(Step(s, e))
    ensures Step(s, e).faults == s.faults + StepFaults(s, e)
  {
    hide Inv, Write, Close, Abort, ErrorIfNeeded, AcquireWriter, StartDone, WriteDone, CloseDone, AbortDone;
    match e
    case DoWrite(chunk, size) => WriteKeeps(s, chunk, size);
    case DoClose => CloseKeeps(s);
    case DoAbort(reason) => AbortKeeps(s, reason);
    case DoError(reason) => ErrorKeeps(s, reason);
    case DoAcquireWriter => AcquireKeeps(s);
    case DoReleaseWriter => ReleaseKeeps(s);
    case StaleWrite => FaultKeeps(s, AssertionFailed);
    case StaleAbort => FaultKeeps(s, AssertionFailed);
    case StaleClose => FaultKeeps(s, UndefinedRead);
    case OnStart(outcome) => if !s.started { StartDoneKeeps(s, outcome); }
    case OnWrite(outcome) => if s.writePending { WriteDoneKeeps(s, outcome); }
    case OnClose(outcome) => if s.closePending { CloseDoneKeeps(s, outcome); }
    case OnAbort(outcome) => if s.abortPending.Some? { AbortDoneKeeps(s, outcome); }
  }

  lemma PromisesMatchSlots(s: Stream)
    requires Inv(s)
    ensures s.writePending == s.inFlightWrite.Some? && s.closePending == s.inFlightClose.Some?
  {
  }

  lemma ErrorKeeps(s: Stream, reason: Reason)
    requires Inv(s)
    ensures Inv(ErrorIfNeeded(s, reason)) && ErrorIfNeeded(s, reason).faults == s.faults
  {
    hide ErrorIfNeeded, Slots, QueueShape, Ledger, TraceShape, WriterShape, Settled, ExpectedQueue, Values;
    ErrorIfNeededKeeps(s, reason);
  }

  /** Every state that any schedule of requests and sink settlements can reach. */
  lemma {:induction false} Reachable(hwm: HighWaterMark, events: seq<Event>)
    ensures Inv(Run(hwm, events))
  {
    hide Inv, Step, Init;
    if events == [] {
      InitInv(hwm);
    } else {
      Reachable(hwm, events[..|events| - 1]);
      StepKeeps(Run(hwm, events[..|events| - 1]), events[|events| - 1]);
    }
  }

  lemma InitInv(hwm: HighWaterMark)
    ensures Inv(Init(hwm))
  {
    hide AtCapacity, ExpectedQueue, Values, InOnePlace, AcceptedIds, Chunks, Follow, Written, SumSizes, WriteRecords;
    SumEmpty<Record>();
    NothingYet();
    NothingExpected(Init(hwm));
  }

  lemma NothingYet()
    ensures InOnePlace(AcceptedIds([]), [], [], []) && InOnePlace([], [], [], []) && Chunks([]) == [] && Values([]) == []
    ensures Follow([]) == Starting && Written([]) == []
  {
  }

}
