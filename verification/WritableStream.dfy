/** The writable stream of `lib/streams.js` as a transition system.

    A `Stream` value holds the slots of a WritableStream, its default controller and its
    attached writer, together with the promises of the underlying sink that are still
    unsettled and a history of what happened.  Every operation below is named after the
    internal operation it models; each reaction to a sink promise is one `Event`. */
module WritableStream {
  import opened Common
  import opened StreamValues

  // ---------------------------------------------------------------- values

  datatype State = Writable | Erroring | Errored | Closed

  datatype Record = WriteRecord(chunk: Chunk) | CloseMarker

  /** A deferred's identity is its creation number. */
  type Id = nat

  datatype Settlement = Settlement(id: Id, outcome: Outcome)

  datatype Accepted = Accepted(id: Id, chunk: Chunk)

  datatype AbortRequest = AbortRequest(id: Id, reason: Reason, wasAlreadyErroring: bool)

  /** The writer's ready promise: its `resolve`/`reject` functions exist only while pending. */
  datatype Ready = ReadyPending | ReadyResolved | ReadyRejected(reason: Reason)

  /** The writer's closed promise: `Open` and `Done` keep their `resolve`/`reject` functions,
      `Bare` was created already settled and has none. */
  datatype ClosedSlot = Open | Done(outcome: Outcome) | Bare(outcome: Outcome)

  datatype Writer = Writer(ready: Ready, closed: ClosedSlot)

  /** A failed `assert`, a call of a cleared sink algorithm, a call of a missing
      `resolve`/`reject` function, or a read of a property of `undefined`. */
  datatype Fault = AssertionFailed | ClearedAlgorithm | MissingHandler | UndefinedRead

  /** What the underlying sink observes. */
  datatype SinkEvent =
    | StartEnd(ok: bool)
    | WriteStart(chunk: Chunk)
    | WriteEnd(ok: bool)
    | CloseStart
    | CloseEnd(ok: bool)
    | AbortStart(reason: Reason)
    | AbortEnd(ok: bool)

  datatype Stream = Stream(
    state: State,
    storedError: Reason,
    writeRequests: seq<Id>,
    inFlightWrite: Option<Id>,
    closeRequest: Option<Id>,
    inFlightClose: Option<Id>,
    pendingAbort: Option<AbortRequest>,
    backpressure: bool,
    writer: Option<Writer>,
    released: bool,             // some writer has given up its lock
    // controller
    started: bool,
    cleared: bool,
    hwm: HighWaterMark,
    queue: seq<Entry<Record>>,
    total: real,
    // sink promises whose reactions have not run
    writePending: bool,
    closePending: bool,
    abortPending: Option<AbortRequest>,
    // history
    nextId: Id,
    accepted: seq<Accepted>,
    closeAccepted: seq<Id>,
    abortAccepted: seq<Id>,
    writeLog: seq<Settlement>,
    closeLog: seq<Settlement>,
    abortLog: seq<Settlement>,
    trace: seq<SinkEvent>,
    faults: seq<Fault>)

  // ---------------------------------------------------------------- internal operations

  function Assert(s: Stream, condition: bool): (t: Stream)
    ensures t == s.(faults := t.faults)
  {
    if condition then s else s.(faults := s.faults + [AssertionFailed])
  }

  function CallAlgorithm(s: Stream, e: SinkEvent): (t: Stream)
    ensures t == s.(faults := t.faults, trace := t.trace)
  {
    if s.cleared then s.(faults := s.faults + [ClearedAlgorithm]) else s.(trace := s.trace + [e])
  }

  predicate CloseQueuedOrInFlight(s: Stream) {
    s.closeRequest.Some? || s.inFlightClose.Some?
  }

  predicate HasOperationInFlight(s: Stream) {
    s.inFlightWrite.Some? || s.inFlightClose.Some?
  }

  /** desiredSize <= 0 */
  predicate AtCapacity(hwm: HighWaterMark, total: real) {
    hwm.Finite? && hwm.mark - total <= 0.0
  }

  function Dequeue(s: Stream): Stream {
    if s.queue == [] then s.(faults := s.faults + [AssertionFailed])
    else
      var rest := s.total - s.queue[0].size;
      s.(queue := s.queue[1..], total := if rest <= 0.0 then 0.0 else rest)
  }

  function ResolveReady(s: Stream): Stream
    requires s.writer.Some?
  {
    if s.writer.value.ready.ReadyPending?
    then s.(writer := Some(s.writer.value.(ready := ReadyResolved)))
    else s.(faults := s.faults + [MissingHandler])
  }

  /** Calls the closed promise's own settling function. */
  function SettleClosed(s: Stream, outcome: Outcome): (t: Stream)
    requires s.writer.Some?
    ensures t == s.(writer := t.writer, faults := t.faults)
  {
    match s.writer.value.closed
    case Open => s.(writer := Some(s.writer.value.(closed := Done(outcome))))
    case Done(_) => s
    case Bare(_) => s.(faults := s.faults + [MissingHandler])
  }

  /** An attached writer learns of a change of backpressure. */
  function NotifyWriter(s: Stream, backpressure: bool): (t: Stream)
    ensures t == s.(writer := t.writer, faults := t.faults)
  {
    if s.writer.Some? && backpressure != s.backpressure then
      if backpressure then s.(writer := Some(s.writer.value.(ready := ReadyPending)))
      else ResolveReady(s)
    else s
  }

  function UpdateBackpressure(s: Stream, backpressure: bool): Stream {
    var s1 := Assert(Assert(s, s.state == Writable), !CloseQueuedOrInFlight(s));
    NotifyWriter(s1, backpressure).(backpressure := backpressure)
  }

  function RefreshBackpressure(s: Stream): Stream {
    if !CloseQueuedOrInFlight(s) && s.state == Writable
    then UpdateBackpressure(s, AtCapacity(s.hwm, s.total))
    else s
  }

  function RejectAll(ids: seq<Id>, reason: Reason): (log: seq<Settlement>)
    ensures |log| == |ids|
    ensures forall i :: 0 <= i < |ids| ==> log[i] == Settlement(ids[i], Rejected(reason))
  {
    seq(|ids|, i requires 0 <= i < |ids| => Settlement(ids[i], Rejected(reason)))
  }

  function RejectCloseAndClosedPromiseIfNeeded(s: Stream): Stream {
    var s2 := RejectCloseRequest(Assert(s, s.state == Errored));
    if s2.writer.Some? then SettleClosed(s2, Rejected(s2.storedError)) else s2
  }

  function AbortSteps(s: Stream, request: AbortRequest): Stream {
    CallAlgorithm(s, AbortStart(request.reason)).(cleared := true, abortPending := Some(request))
  }

  function RejectWriteRequests(s: Stream): Stream {
    s.(writeLog := s.writeLog + RejectAll(s.writeRequests, s.storedError), writeRequests := [])
  }

  function SettlePendingAbort(s: Stream, outcome: Outcome): Stream
    requires s.pendingAbort.Some?
  {
    s.(abortLog := s.abortLog + [Settlement(s.pendingAbort.value.id, outcome)], pendingAbort := None)
  }

  function RejectCloseRequest(s: Stream): (t: Stream)
    ensures t == s.(closeLog := t.closeLog, closeRequest := None, faults := t.faults)
  {
    if s.closeRequest.None? then s
    else
      Assert(s, s.inFlightClose.None?)
        .(closeLog := s.closeLog + [Settlement(s.closeRequest.value, Rejected(s.storedError))], closeRequest := None)
  }

  /** The second half of writableStreamFinishErroring: a pending abort reaches the sink unless
      the stream was already erroring when it was requested. */
  function FinishAbort(s: Stream): Stream {
    if s.pendingAbort.None? then RejectCloseAndClosedPromiseIfNeeded(s)
    else
      var request := s.pendingAbort.value;
      if request.wasAlreadyErroring then RejectCloseAndClosedPromiseIfNeeded(SettlePendingAbort(s, Rejected(s.storedError)))
      else AbortSteps(s.(pendingAbort := None), request)
  }

  function FinishErroring(s: Stream): Stream {
    var s1 := Assert(Assert(s, s.state == Erroring), !HasOperationInFlight(s));
    FinishAbort(RejectWriteRequests(s1.(state := Errored, queue := [], total := 0.0)))
  }

  /** The ready promise of an attached writer, if any. */
  function RejectReady(s: Stream, reason: Reason): (t: Stream)
    ensures t == s.(writer := t.writer)
  {
    if s.writer.Some? then s.(writer := Some(s.writer.value.(ready := ReadyRejected(reason)))) else s
  }

  function BecomeErroring(s: Stream, reason: Reason): Stream {
    var s1 := Assert(Assert(s, s.storedError == Undefined), s.state == Writable);
    RejectReady(s1.(state := Erroring, storedError := reason), reason)
  }

  function StartErroring(s: Stream, reason: Reason): Stream {
    var s1 := BecomeErroring(s, reason);
    if !HasOperationInFlight(s1) && s1.started then FinishErroring(s1) else s1
  }

  function DealWithRejection(s: Stream, error: Reason): Stream {
    if s.state == Writable then StartErroring(s, error)
    else FinishErroring(Assert(s, s.state == Erroring))
  }

  function ErrorIfNeeded(s: Stream, error: Reason): Stream {
    if s.state == Writable then StartErroring(s.(cleared := true), error) else s
  }

  function MarkFirstWriteInFlight(s: Stream): Stream
    requires s.writeRequests != []
  {
    s.(inFlightWrite := Some(s.writeRequests[0]), writeRequests := s.writeRequests[1..])
  }

  function ProcessWrite(s: Stream, chunk: Chunk): Stream {
    var s1 := Assert(s, s.inFlightWrite.None?);
    if s1.writeRequests == [] then Assert(s1, false)
    else CallAlgorithm(MarkFirstWriteInFlight(s1), WriteStart(chunk)).(writePending := true)
  }

  function MarkCloseInFlight(s: Stream): Stream {
    var s1 := Assert(Assert(s, s.inFlightClose.None?), s.closeRequest.Some?);
    s1.(inFlightClose := s1.closeRequest, closeRequest := None)
  }

  function ProcessClose(s: Stream): Stream {
    var s2 := Dequeue(MarkCloseInFlight(s));
    var s3 := Assert(s2, s2.queue == []);
    CallAlgorithm(s3, CloseStart).(closePending := true, cleared := true)
  }

  function AdvanceQueueIfNeeded(s: Stream): Stream {
    if !s.started || s.inFlightWrite.Some? then s
    else
      var s1 := Assert(s, s.state != Closed && s.state != Errored);
      if s1.state == Erroring then FinishErroring(s1)
      else if s1.queue == [] then s1
      else match s1.queue[0].value
        case CloseMarker => ProcessClose(s1)
        case WriteRecord(chunk) => ProcessWrite(s1, chunk)
  }

  function Enqueue(s: Stream, value: Record, size: real): Stream {
    s.(queue := s.queue + [Entry(value, size)], total := s.total + size)
  }

  // ---------------------------------------------------------------- requests of the user

  /** A cleared size algorithm throws a TypeError, which errors a writable stream. */
  function GetChunkSize(s: Stream, size: SizeResult): (Stream, SizeResult) {
    if s.cleared then (ErrorIfNeeded(s, TypeError), Size(1.0))
    else match size
      case SizeThrows(e) => (ErrorIfNeeded(s, e), Size(1.0))
      case _ => (s, size)
  }

  /** writableStreamDefaultControllerWrite: a size that is not finite and non-negative errors
      the stream and leaves the request without a queue entry. */
  function ControllerWrite(s: Stream, chunk: Chunk, size: SizeResult): Stream {
    if size.Size? && size.size >= 0.0
    then AdvanceQueueIfNeeded(RefreshBackpressure(Enqueue(s, WriteRecord(chunk), size.size)))
    else ErrorIfNeeded(s, RangeError)
  }

  /** A new write request behind the others. */
  function AcceptWrite(s: Stream, chunk: Chunk): Stream {
    s.(nextId := s.nextId + 1, writeRequests := s.writeRequests + [s.nextId],
       accepted := s.accepted + [Accepted(s.nextId, chunk)])
  }

  function Write(s: Stream, chunk: Chunk, size: SizeResult): Stream {
    var (s1, usedSize) := GetChunkSize(s, size);
    if s1.state != Writable || CloseQueuedOrInFlight(s1) then s1
    else ControllerWrite(AcceptWrite(s1, chunk), chunk, usedSize)
  }

  function AcceptCloseRequest(s: Stream): Stream {
    s.(nextId := s.nextId + 1, closeRequest := Some(s.nextId), closeAccepted := s.closeAccepted + [s.nextId])
  }

  /** `close()` of the stream when it is unlocked, of the writer otherwise.  The writer's
      method does not return when a close is already queued or in flight. */
  function Close(s: Stream): Stream {
    if s.writer.None? && CloseQueuedOrInFlight(s) then s
    else if s.state == Closed || s.state == Errored then s
    else if CloseQueuedOrInFlight(s) then s.(faults := s.faults + [AssertionFailed])
    else
      var s1 := AcceptCloseRequest(s);
      var s2 := if s1.writer.Some? && s1.backpressure && s1.state == Writable then ResolveReady(s1) else s1;
      AdvanceQueueIfNeeded(Enqueue(s2, CloseMarker, 0.0))
  }

  function AcceptAbort(s: Stream, reason: Reason): Stream {
    var already := s.state == Erroring;
    var request := AbortRequest(s.nextId, if already then Undefined else reason, already);
    s.(nextId := s.nextId + 1, pendingAbort := Some(request), abortAccepted := s.abortAccepted + [request.id])
  }

  function Abort(s: Stream, reason: Reason): Stream {
    if s.state == Closed || s.state == Errored || s.pendingAbort.Some? then s
    else if s.state == Erroring then AcceptAbort(s, reason)
    else StartErroring(AcceptAbort(s, reason), reason)
  }

  /** The promises of a writer for the stream as it is. */
  function NewWriter(s: Stream): Writer {
    match s.state
    case Writable => Writer(if !CloseQueuedOrInFlight(s) && s.backpressure then ReadyPending else ReadyResolved, Open)
    case Erroring => Writer(ReadyRejected(s.storedError), Open)
    case Closed => Writer(ReadyResolved, Bare(Fulfilled))
    case Errored => Writer(ReadyRejected(s.storedError), Bare(Rejected(s.storedError)))
  }

  function AcquireWriter(s: Stream): Stream {
    if s.writer.Some? then s else s.(writer := Some(NewWriter(s)))
  }

  function ReleaseWriter(s: Stream): Stream {
    if s.writer.None? then s else s.(writer := None, released := true)
  }

  /** `write` and `abort` of a released writer: the missing owner is noticed by a rejection that is
      not returned, and then by an assertion. */
  function StaleCall(s: Stream): Stream {
    if s.released then Assert(s, false) else s
  }

  /** `close` of a released writer looks at the slots of its missing owner. */
  function StaleClosing(s: Stream): Stream {
    if s.released then s.(faults := s.faults + [UndefinedRead]) else s
  }

  // ---------------------------------------------------------------- reactions to the sink

  /** The start promise has settled. */
  function StartSettled(s: Stream, outcome: Outcome): Stream {
    s.(started := true, trace := s.trace + [StartEnd(outcome.Fulfilled?)])
  }

  function StartDone(s: Stream, outcome: Outcome): Stream {
    var s1 := StartSettled(Assert(s, s.state == Writable || s.state == Erroring), outcome);
    match outcome
    case Fulfilled => AdvanceQueueIfNeeded(s1)
    case Rejected(r) => DealWithRejection(s1, r)
  }

  function WriteDone(s: Stream, outcome: Outcome): Stream {
    if s.inFlightWrite.None? then Assert(s, false)
    else FinishInFlightWrite(s, outcome)
  }

  /** The sink's write promise has settled; the queue has not been looked at. */
  function WriteSettled(s: Stream, outcome: Outcome): Stream
    requires s.inFlightWrite.Some?
  {
    s.(writePending := false, inFlightWrite := None,
       trace := s.trace + [WriteEnd(outcome.Fulfilled?)],
       writeLog := s.writeLog + [Settlement(s.inFlightWrite.value, outcome)])
  }

  function FinishInFlightWrite(s: Stream, outcome: Outcome): Stream
    requires s.inFlightWrite.Some?
  {
    var s1 := WriteSettled(s, outcome);
    match outcome
    case Fulfilled =>
      var s2 := Dequeue(Assert(s1, s1.state == Writable || s1.state == Erroring));
      AdvanceQueueIfNeeded(RefreshBackpressure(s2))
    case Rejected(r) =>
      var s2 := if s1.state == Writable then s1.(cleared := true) else s1;
      DealWithRejection(Assert(s2, s2.state == Writable || s2.state == Erroring), r)
  }

  function CloseDone(s: Stream, outcome: Outcome): Stream {
    if s.inFlightClose.None? then Assert(s, false)
    else FinishInFlightClose(s, outcome)
  }

  function ForgetError(s: Stream): Stream {
    if s.state != Erroring then s
    else if s.pendingAbort.None? then s.(storedError := Undefined)
    else SettlePendingAbort(s.(storedError := Undefined), Fulfilled)
  }

  function BecomeClosed(s: Stream): Stream {
    var s1 := ForgetError(s).(state := Closed);
    var s2 := if s1.writer.Some? then SettleClosed(s1, Fulfilled) else s1;
    Assert(Assert(s2, s2.pendingAbort.None?), s2.storedError == Undefined)
  }

  /** The sink's close promise has settled. */
  function CloseSettled(s: Stream, outcome: Outcome): Stream
    requires s.inFlightClose.Some?
  {
    s.(closePending := false, inFlightClose := None,
       trace := s.trace + [CloseEnd(outcome.Fulfilled?)],
       closeLog := s.closeLog + [Settlement(s.inFlightClose.value, outcome)])
  }

  function FinishInFlightClose(s: Stream, outcome: Outcome): Stream
    requires s.inFlightClose.Some?
  {
    var s1 := CloseSettled(s, outcome);
    var s2 := Assert(s1, s1.state == Writable || s1.state == Erroring);
    match outcome
    case Fulfilled =>
      BecomeClosed(s2)
    case Rejected(r) =>
      DealWithRejection(if s2.pendingAbort.Some? then SettlePendingAbort(s2, Rejected(r)) else s2, r)
  }

  /** The sink's abort promise has settled. */
  function AbortSettled(s: Stream, outcome: Outcome): Stream
    requires s.abortPending.Some?
  {
    s.(abortPending := None,
       trace := s.trace + [AbortEnd(outcome.Fulfilled?)],
       abortLog := s.abortLog + [Settlement(s.abortPending.value.id, outcome)])
  }

  function AbortDone(s: Stream, outcome: Outcome): Stream
    requires s.abortPending.Some?
  {
    RejectCloseAndClosedPromiseIfNeeded(AbortSettled(s, outcome))
  }

  // ---------------------------------------------------------------- runs

  datatype Event =
    | DoWrite(chunk: Chunk, size: SizeResult)
    | DoClose
    | DoAbort(reason: Reason)
    | DoError(reason: Reason)
    | DoAcquireWriter
    | DoReleaseWriter
    | StaleWrite                // the three calls through a writer that was released
    | StaleAbort
    | StaleClose
    | OnStart(outcome: Outcome)
    | OnWrite(outcome: Outcome)
    | OnClose(outcome: Outcome)
    | OnAbort(outcome: Outcome)

  /** One step of an arbitrary scheduler.  A settlement of a sink promise that is not
      outstanding, a write without a writer, and a call through a released writer when none was
      released are not steps of the program. */
  function Step(s: Stream, e: Event): Stream {
    match e
    case DoWrite(chunk, size) => if s.writer.Some? then Write(s, chunk, size) else s
    case DoClose => Close(s)
    case DoAbort(reason) => Abort(s, reason)
    case DoError(reason) => ErrorIfNeeded(s, reason)
    case DoAcquireWriter => AcquireWriter(s)
    case DoReleaseWriter => ReleaseWriter(s)
    case StaleWrite => StaleCall(s)
    case StaleAbort => StaleCall(s)
    case StaleClose => StaleClosing(s)
    case OnStart(outcome) => if !s.started then StartDone(s, outcome) else s
    case OnWrite(outcome) => if s.writePending then WriteDone(s, outcome) else s
    case OnClose(outcome) => if s.closePending then CloseDone(s, outcome) else s
    case OnAbort(outcome) => if s.abortPending.Some? then AbortDone(s, outcome) else s
  }

  /** A fresh stream; `hwm` has passed validateAndNormalizeHighWaterMark. */
  function Init(hwm: HighWaterMark): Stream {
    Stream(Writable, Undefined, [], None, None, None, None, AtCapacity(hwm, 0.0), None, false,
           false, false, hwm, [], 0.0, false, false, None,
           0, [], [], [], [], [], [], [], [])
  }

  function Run(hwm: HighWaterMark, events: seq<Event>): Stream {
    if events == [] then Init(hwm)
    else Step(Run(hwm, events[..|events| - 1]), events[|events| - 1])
  }
}
