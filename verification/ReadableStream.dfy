/** The readable stream of `lib/streams.js` with its default controller and default reader, as a
    transition system.  Reads are numbered as they are made; an answer names the read it is for. */
module ReadableStream {
  import opened Common
  import opened StreamValues

  datatype State = Readable | Closed | Errored

  type Id = nat

  datatype ReadResult = Value(chunk: Chunk) | Done | Failed(reason: Reason)

  datatype Answer = Answer(id: Id, result: ReadResult)

  /** `waiting`: the read requests.  `open`: the closed promise can still be settled. */
  datatype Reader = Reader(waiting: seq<Id>, open: bool)

  datatype Stream = Stream(
    state: State,
    storedError: Reason,
    reader: Option<Reader>,
    // controller
    queue: seq<Entry<Chunk>>,
    total: real,
    hwm: HighWaterMark,
    started: bool,
    closeRequested: bool,
    pulling: bool,
    pullAgain: bool,
    cleared: bool,
    // history
    startPending: bool,
    pullPending: bool,
    pulls: nat,
    cancels: nat,
    asked: nat,                 // the number of reads so far
    answers: seq<Answer>,
    enqueued: seq<Chunk>,
    faults: nat)

  // ---------------------------------------------------------------- internal operations

  function Assert(s: Stream, condition: bool): (t: Stream)
    ensures t == s.(faults := t.faults)
  {
    if condition then s else s.(faults := s.faults + 1)
  }

  predicate CanCloseOrEnqueue(s: Stream) {
    !s.closeRequested && s.state == Readable
  }

  function Waiting(s: Stream): seq<Id> {
    if s.reader.Some? then s.reader.value.waiting else []
  }

  /** desiredSize > 0 for a readable stream. */
  predicate HasRoom(hwm: HighWaterMark, total: real) {
    hwm.Infinite? || hwm.mark - total > 0.0
  }

  predicate ShouldCallPull(s: Stream) {
    CanCloseOrEnqueue(s) && s.started && (Waiting(s) != [] || HasRoom(s.hwm, s.total))
  }

  function CallPullIfNeeded(s: Stream): (t: Stream)
    ensures t == s.(pulling := t.pulling, pullAgain := t.pullAgain, pullPending := t.pullPending,
                    pulls := t.pulls, faults := t.faults)
    ensures s.pulls <= t.pulls <= s.pulls + 1
  {
    if !ShouldCallPull(s) then s
    else if s.pulling then s.(pullAgain := true)
    else
      var s1 := Assert(Assert(s, !s.pullAgain), !s.cleared);
      s1.(pulling := true, pullPending := true, pulls := s1.pulls + 1)
  }

  function AnswerAll(ids: seq<Id>, result: ReadResult): (answers: seq<Answer>)
    ensures |answers| == |ids| && forall i :: 0 <= i < |ids| ==> answers[i] == Answer(ids[i], result)
  {
    seq(|ids|, i requires 0 <= i < |ids| => Answer(ids[i], result))
  }

  /** All waiting reads get the same result and the closed promise is settled. */
  function SettleReader(s: Stream, result: ReadResult): (t: Stream)
    ensures t == s.(answers := t.answers, reader := t.reader, faults := t.faults)
  {
    if s.reader.None? then s
    else
      Assert(s, s.reader.value.open)
        .(answers := s.answers + AnswerAll(s.reader.value.waiting, result), reader := Some(Reader([], false)))
  }

  function CloseStream(s: Stream): (t: Stream)
    ensures t == s.(state := Closed, answers := t.answers, reader := t.reader, faults := t.faults)
  {
    SettleReader(Assert(s, s.state == Readable).(state := Closed), Done)
  }

  function ErrorStream(s: Stream, e: Reason): (t: Stream)
    ensures t == s.(state := Errored, storedError := e, answers := t.answers, reader := t.reader, faults := t.faults)
  {
    SettleReader(Assert(s, s.state == Readable).(state := Errored, storedError := e), Failed(e))
  }

  function ControllerError(s: Stream, e: Reason): Stream {
    if s.state != Readable then s
    else ErrorStream(s.(queue := [], total := 0.0, cleared := true), e)
  }

  function AddReadRequest(s: Stream, id: Id): Stream
    requires s.reader.Some?
  {
    s.(reader := Some(s.reader.value.(waiting := s.reader.value.waiting + [id])))
  }

  /** The first waiting read gets a chunk. */
  function FulfillReadRequest(s: Stream, chunk: Chunk): Stream
    requires Waiting(s) != []
  {
    s.(answers := s.answers + [Answer(Waiting(s)[0], Value(chunk))], enqueued := s.enqueued + [chunk],
       reader := Some(s.reader.value.(waiting := s.reader.value.waiting[1..])))
  }

  function Enqueue(s: Stream, chunk: Chunk, size: real): Stream {
    s.(queue := s.queue + [Entry(chunk, size)], total := s.total + size, enqueued := s.enqueued + [chunk])
  }

  function Dequeue(s: Stream): Stream
    requires s.queue != []
  {
    var rest := s.total - s.queue[0].size;
    s.(queue := s.queue[1..], total := if rest <= 0.0 then 0.0 else rest)
  }

  // ---------------------------------------------------------------- the source's operations

  function ControllerClose(s: Stream): Stream {
    if !CanCloseOrEnqueue(s) then s
    else
      var s1 := s.(closeRequested := true);
      if s1.queue == [] then CloseStream(s1.(cleared := true)) else s1
  }

  /** A chunk goes to the first waiting read, otherwise into the queue. */
  function ControllerEnqueue(s: Stream, chunk: Chunk, size: SizeResult): Stream {
    if !CanCloseOrEnqueue(s) then s
    else if Waiting(s) != [] then CallPullIfNeeded(FulfillReadRequest(s, chunk))
    else match size
      case SizeThrows(e) => ControllerError(s, e)
      case InvalidSize => ControllerError(s, RangeError)
      case Size(n) =>
        if n < 0.0 then ControllerError(s, RangeError)
        else CallPullIfNeeded(Enqueue(Assert(s, !s.cleared), chunk, n))
  }

  // ---------------------------------------------------------------- the consumer's operations

  /** The controller's pull steps with a chunk at hand: the read `id` is answered at once. */
  function TakeChunk(s: Stream, id: Id): Stream
    requires s.queue != []
  {
    var s1 := Dequeue(s);
    var s2 :=
      if s1.closeRequested && s1.queue == [] then CloseStream(s1.(cleared := true))
      else CallPullIfNeeded(s1);
    s2.(answers := s2.answers + [Answer(id, Value(s.queue[0].value))])
  }

  /** readableStreamDefaultReaderRead. */
  function Read(s: Stream): Stream
    requires s.reader.Some?
  {
    var id, s1 := s.asked, s.(asked := s.asked + 1);
    match s1.state
    case Closed => s1.(answers := s1.answers + [Answer(id, Done)])
    case Errored => s1.(answers := s1.answers + [Answer(id, Failed(s1.storedError))])
    case Readable =>
      if s1.queue != [] then TakeChunk(s1, id)
      else CallPullIfNeeded(AddReadRequest(s1, id))
  }

  /** readableStreamCancel: `cancels` counts the calls of the cancel algorithm. */
  function Cancel(s: Stream): Stream {
    if s.state != Readable then s
    else
      var s1 := CloseStream(s).(queue := [], total := 0.0);
      Assert(s1, !s1.cleared).(cancels := s1.cancels + 1, cleared := true)
  }

  function AcquireReader(s: Stream): Stream {
    if s.reader.Some? then s else s.(reader := Some(Reader([], s.state == Readable)))
  }

  /** A reader with waiting reads cannot be released. */
  function ReleaseReader(s: Stream): Stream {
    if s.reader.None? || s.reader.value.waiting != [] then s
    else Assert(s, s.state == Readable ==> s.reader.value.open).(reader := None)
  }

  // ---------------------------------------------------------------- reactions

  function StartDone(s: Stream, outcome: Outcome): Stream {
    var s1 := s.(startPending := false);
    match outcome
    case Rejected(r) => ControllerError(s1, r)
    case Fulfilled =>
      CallPullIfNeeded(Assert(s1.(started := true), !s1.pulling && !s1.pullAgain))
  }

  function PullDone(s: Stream, outcome: Outcome): Stream {
    var s1 := s.(pullPending := false);
    match outcome
    case Rejected(r) => ControllerError(s1, r)
    case Fulfilled =>
      var s2 := s1.(pulling := false);
      if s2.pullAgain then CallPullIfNeeded(s2.(pullAgain := false)) else s2
  }

  // ---------------------------------------------------------------- runs

  datatype Event =
    | DoEnqueue(chunk: Chunk, size: SizeResult)
    | DoClose
    | DoError(reason: Reason)
    | DoRead
    | DoCancel
    | DoAcquireReader
    | DoReleaseReader
    | OnStart(outcome: Outcome)
    | OnPull(outcome: Outcome)

  function Step(s: Stream, e: Event): Stream {
    match e
    case DoEnqueue(chunk, size) => ControllerEnqueue(s, chunk, size)
    case DoClose => ControllerClose(s)
    case DoError(reason) => ControllerError(s, reason)
    case DoRead => if s.reader.Some? then Read(s) else s
    case DoCancel => Cancel(s)
    case DoAcquireReader => AcquireReader(s)
    case DoReleaseReader => ReleaseReader(s)
    case OnStart(outcome) => if s.startPending then StartDone(s, outcome) else s
    case OnPull(outcome) => if s.pullPending then PullDone(s, outcome) else s
  }

  function Init(hwm: HighWaterMark): Stream {
    Stream(Readable, Undefined, None, [], 0.0, hwm, false, false, false, false, false,
           true, false, 0, 0, 0, [], [], 0)
  }

  function Run(hwm: HighWaterMark, events: seq<Event>): Stream {
    if events == [] then Init(hwm)
    else Step(Run(hwm, events[..|events| - 1]), events[|events| - 1])
  }
}
