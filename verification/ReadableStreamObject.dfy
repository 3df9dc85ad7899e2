/** The readable stream in the form of the source: a stream, its controller and its reader are
    objects that refer to each other, and the operations assign their slots in order and loop over
    the read requests.  `View` reads the linked objects as one state of the transition system; every
    operation is proved to compute the transition it implements and to keep links and invariant. */
module ReadableStreamObject {
  import opened Common
  import opened StreamValues
  import opened ReadableStream
  import opened ReadableStreamSafety

  /** What is no slot of the source: the promises of the source under way, and the history. */
  datatype History = History(
    startPending: bool,
    pullPending: bool,
    pulls: nat,
    cancels: nat,
    asked: nat,
    answers: seq<Answer>,
    enqueued: seq<Chunk>,
    faults: nat)

  class ControllerObject {
    var stream: ReadableObject?
    const hwm: HighWaterMark
    var queue: seq<Entry<Chunk>>
    var total: real
    var started: bool
    var closeRequested: bool
    var pulling: bool
    var pullAgain: bool
    var cleared: bool

    constructor (hwm: HighWaterMark)
      ensures stream == null && this.hwm == hwm && queue == [] && total == 0.0
      ensures !started && !closeRequested && !pulling && !pullAgain && !cleared
    {
      this.hwm := hwm;
      stream, queue, total := null, [], 0.0;
      started, closeRequested, pulling, pullAgain, cleared := false, false, false, false, false;
    }
  }

  class ReaderObject {
    var owner: ReadableObject?
    var readRequests: seq<Id>
    var open: bool

    constructor (owner: ReadableObject, open: bool)
      ensures this.owner == owner && readRequests == [] && this.open == open
    {
      this.owner, readRequests, this.open := owner, [], open;
    }
  }

  class ReadableObject {
    const controller: ControllerObject
    var state: State
    var storedError: Reason
    var reader: ReaderObject?
    var past: History

    /** The links between the three objects. */
    ghost predicate Valid()
      reads this, controller, reader
    {
      controller.stream == this && (reader != null ==> reader.owner == this)
    }

    ghost function View(): (v: Stream)
      reads this, controller, reader
      ensures v.state == state && v.storedError == storedError
      ensures v.reader == if reader == null then None else Some(Reader(reader.readRequests, reader.open))
      ensures v.queue == controller.queue && v.total == controller.total && v.hwm == controller.hwm
      ensures v.started == controller.started && v.closeRequested == controller.closeRequested
      ensures v.pulling == controller.pulling && v.pullAgain == controller.pullAgain && v.cleared == controller.cleared
      ensures v.startPending == past.startPending && v.pullPending == past.pullPending && v.asked == past.asked
      ensures v.pulls == past.pulls
    {
      Stream(state, storedError, if reader == null then None else Some(Reader(reader.readRequests, reader.open)),
             controller.queue, controller.total, controller.hwm, controller.started, controller.closeRequested,
             controller.pulling, controller.pullAgain, controller.cleared,
             past.startPending, past.pullPending, past.pulls, past.cancels, past.asked, past.answers, past.enqueued, past.faults)
    }

    constructor (hwm: HighWaterMark)
      ensures Valid() && View() == Init(hwm) && fresh(controller) && reader == null
    {
      controller := new ControllerObject(hwm);
      state, storedError, reader := Readable, Undefined, null;
      past := History(true, false, 0, 0, 0, [], [], 0);
      new;
      controller.stream := this;
    }

    // A failed assertion is counted instead of thrown.
    method Check(condition: bool)
      modifies this`past
      ensures View() == Assert(old(View()), condition)
    {
      if !condition {
        past := past.(faults := past.faults + 1);
      }
    }

    predicate Pending()
      reads this, reader
    {
      reader != null && reader.readRequests != []
    }

    predicate Open()
      reads this, controller
    {
      !controller.closeRequested && state == Readable
    }

    method StartPulling()
      modifies this`past, controller`pulling
      ensures View() == old(View()).(pulling := true, pullPending := true, pulls := old(View()).pulls + 1)
    {
      controller.pulling := true;
      past := past.(pullPending := true, pulls := past.pulls + 1);
    }

    method PullLater()
      modifies controller`pullAgain
      ensures View() == old(View()).(pullAgain := true)
    {
      controller.pullAgain := true;
    }

    method AskSource()
      modifies this`past, controller`pulling, controller`pullAgain
      ensures View() == ReadableStream.CallPullIfNeeded(old(View()))
    {
      hide View, Assert;
      if !(Open() && controller.started && (Pending() || HasRoom(controller.hwm, controller.total))) {
        return;
      }
      if controller.pulling {
        PullLater();
        return;
      }
      Check(!controller.pullAgain);
      Check(!controller.cleared);
      StartPulling();
    }

    /** At most one call of the pull algorithm; the invariant is kept. */
    method CallPullIfNeeded()
      requires Valid()
      modifies this`past, controller`pulling, controller`pullAgain
      ensures Valid()
      ensures var s := old(View());
        View() == ReadableStream.CallPullIfNeeded(s) && past.pulls <= s.pulls + 1 && (Inv(s) ==> Inv(View()))
    {
      hide View, ReadableStream.CallPullIfNeeded, Inv;
      if Inv(View()) {
        PullKeeps(View());
      }
      AskSource();
    }

    /** Every read request gets the result, in order, under its own name. */
    method AnswerReads(result: ReadResult)
      requires reader != null
      modifies this`past
      ensures past == old(past).(answers := old(past).answers + AnswerAll(reader.readRequests, result))
      ensures View() == old(View()).(answers := old(View()).answers + AnswerAll(reader.readRequests, result))
    {
      var i := 0;
      ghost var before := past.answers;
      while i < |reader.readRequests|
        invariant 0 <= i <= |reader.readRequests|
        invariant past == old(past).(answers := before + AnswerAll(reader.readRequests[..i], result))
      {
        var answer := Answer(reader.readRequests[i], result);
        assert AnswerAll(reader.readRequests[..i + 1], result) == AnswerAll(reader.readRequests[..i], result) + [answer];
        past := past.(answers := past.answers + [answer]);
        i := i + 1;
      }
      assert reader.readRequests[..i] == reader.readRequests;
    }

    method CloseReader()
      requires reader != null
      modifies reader
      ensures reader.owner == old(reader.owner) && View() == old(View()).(reader := Some(Reader([], false)))
    {
      reader.readRequests := [];
      reader.open := false;
    }

    method SettleReader(result: ReadResult)
      requires Valid()
      modifies this`past, reader
      ensures Valid() && View() == ReadableStream.SettleReader(old(View()), result)
      ensures !Pending() && (reader != null ==> !reader.open)
    {
      hide View, Assert, AnswerAll;
      if reader == null {
        return;
      }
      Check(reader.open);
      AnswerReads(result);
      CloseReader();
    }

    method SetClosed()
      modifies this`state
      ensures View() == old(View()).(state := Closed)
    {
      state := Closed;
    }

    /** No read waits in a closed stream. */
    method CloseStream()
      requires Valid()
      modifies this`past, this`state, reader
      ensures Valid() && View() == ReadableStream.CloseStream(old(View()))
      ensures state == Closed && !Pending()
    {
      hide View, Assert, ReadableStream.SettleReader;
      Check(state == Readable);
      SetClosed();
      SettleReader(Done);
    }

    method DropQueue()
      modifies controller`queue, controller`total
      ensures View() == old(View()).(queue := [], total := 0.0)
    {
      controller.queue, controller.total := [], 0.0;
    }

    method Forget()
      modifies controller`queue, controller`total, controller`cleared
      ensures View() == old(View()).(queue := [], total := 0.0, cleared := true)
    {
      controller.queue, controller.total := [], 0.0;
      controller.cleared := true;
    }

    method ClearAlgorithms()
      modifies controller`cleared
      ensures View() == old(View()).(cleared := true)
    {
      controller.cleared := true;
    }

    method SetErrored(e: Reason)
      modifies this`state, this`storedError
      ensures View() == old(View()).(state := Errored, storedError := e)
    {
      state, storedError := Errored, e;
    }

    method ErrorStream(e: Reason)
      requires Valid()
      modifies this`past, this`state, this`storedError, reader
      ensures Valid() && View() == ReadableStream.ErrorStream(old(View()), e)
    {
      hide View, Assert, ReadableStream.SettleReader;
      Check(state == Readable);
      SetErrored(e);
      SettleReader(Failed(e));
    }

    method FailStream(e: Reason)
      requires Valid()
      modifies this`past, this`state, this`storedError, controller`queue, controller`total, controller`cleared, reader
      ensures Valid() && View() == ReadableStream.ControllerError(old(View()), e)
    {
      hide View, ReadableStream.ErrorStream;
      if state != Readable {
        return;
      }
      Forget();
      ErrorStream(e);
    }

    /** A readable stream becomes errored, any other stays; the invariant is kept. */
    method ControllerError(e: Reason)
      requires Valid()
      modifies this`past, this`state, this`storedError, controller`queue, controller`total, controller`cleared, reader
      ensures Valid() && state == if old(state) == Readable then Errored else old(state)
      ensures var s := old(View()); View() == ReadableStream.ControllerError(s, e) && (Inv(s) ==> Inv(View()))
    {
      hide View, ReadableStream.ControllerError, Inv;
      ErrorState(View(), e);
      if Inv(View()) {
        ErrorKeeps(View(), e);
      }
      FailStream(e);
    }

    method RequestClose()
      modifies controller`closeRequested
      ensures View() == old(View()).(closeRequested := true)
    {
      controller.closeRequested := true;
    }

    method EndOfSource()
      requires Valid()
      modifies this`past, this`state, controller`closeRequested, controller`cleared, reader
      ensures Valid() && View() == ReadableStream.ControllerClose(old(View()))
    {
      hide View, ReadableStream.CloseStream;
      if !Open() {
        return;
      }
      RequestClose();
      if |controller.queue| == 0 {
        ClearAlgorithms();
        CloseStream();
      }
    }

    /** An empty stream closes at once, another one when its queue is read; the invariant is kept. */
    method ControllerClose()
      requires Valid()
      modifies this`past, this`state, controller`closeRequested, controller`cleared, reader
      ensures Valid() && (old(Open()) ==> controller.closeRequested && (controller.queue == [] ==> state == Closed))
      ensures var s := old(View()); View() == ReadableStream.ControllerClose(s) && (Inv(s) ==> Inv(View()))
    {
      hide View, ReadableStream.ControllerClose, Inv;
      CloseState(View());
      if Inv(View()) {
        CloseKeeps(View());
      }
      EndOfSource();
    }

    // ---------------------------------------------------------------- chunks

    method FulfillReadRequest(chunk: Chunk)
      requires Pending()
      modifies this`past, reader
      ensures reader.owner == old(reader.owner) && View() == ReadableStream.FulfillReadRequest(old(View()), chunk)
    {
      var request := reader.readRequests[0];
      reader.readRequests := reader.readRequests[1..];
      past := past.(answers := past.answers + [Answer(request, Value(chunk))], enqueued := past.enqueued + [chunk]);
    }

    method EnqueueValueWithSize(chunk: Chunk, size: real)
      modifies this`past, controller`queue, controller`total
      ensures View() == Enqueue(old(View()), chunk, size)
    {
      controller.queue := controller.queue + [Entry(chunk, size)];
      controller.total := controller.total + size;
      past := past.(enqueued := past.enqueued + [chunk]);
    }

    method TakeIn(chunk: Chunk, size: SizeResult)
      requires Valid()
      modifies this`past, this`state, this`storedError, controller, reader
      ensures Valid() && View() == ReadableStream.ControllerEnqueue(old(View()), chunk, size)
    {
      hide View, Assert, ReadableStream.CallPullIfNeeded, ReadableStream.ControllerError, ReadableStream.FulfillReadRequest, Enqueue, Inv;
      if !Open() {
        return;
      }
      if Pending() {
        FulfillReadRequest(chunk);
      } else {
        match size
        case SizeThrows(e) => ControllerError(e); return;
        case InvalidSize => ControllerError(RangeError); return;
        case Size(n) =>
          if n < 0.0 {
            ControllerError(RangeError);
            return;
          }
          Check(!controller.cleared);
          EnqueueValueWithSize(chunk, n);
      }
      CallPullIfNeeded();
    }

    /** A chunk goes to the first waiting read or to the end of the queue; the invariant is kept. */
    method ControllerEnqueue(chunk: Chunk, size: SizeResult)
      requires Valid()
      modifies this`past, this`state, this`storedError, controller, reader
      ensures Valid()
      ensures var s := old(View());
        && View() == ReadableStream.ControllerEnqueue(s, chunk, size)
        && Delivered(s, chunk, size, View()) && (Inv(s) ==> Inv(View()))
    {
      hide View, ReadableStream.ControllerEnqueue, Inv, Delivered;
      EnqueueDelivers(View(), chunk, size);
      if Inv(View()) {
        EnqueueKeeps(View(), chunk, size);
      }
      TakeIn(chunk, size);
    }

    method DequeueValue() returns (chunk: Chunk)
      requires controller.queue != []
      modifies controller`queue, controller`total
      ensures chunk == old(controller.queue)[0].value && View() == Dequeue(old(View()))
    {
      var pair := controller.queue[0];
      controller.queue := controller.queue[1..];
      controller.total := controller.total - pair.size;
      if controller.total <= 0.0 {
        controller.total := 0.0;
      }
      return pair.value;
    }

    method AnswerOne(id: Id, result: ReadResult)
      modifies this`past
      ensures View() == old(View()).(answers := old(View()).answers + [Answer(id, result)])
    {
      past := past.(answers := past.answers + [Answer(id, result)]);
    }

    method TakeChunk(id: Id)
      requires Valid() && controller.queue != []
      modifies this`past, this`state, controller, reader
      ensures Valid() && View() == ReadableStream.TakeChunk(old(View()), id)
    {
      hide View, Dequeue, ReadableStream.CallPullIfNeeded, ReadableStream.CloseStream, Inv;
      var chunk := DequeueValue();
      if controller.closeRequested && |controller.queue| == 0 {
        ClearAlgorithms();
        CloseStream();
      } else {
        CallPullIfNeeded();
      }
      AnswerOne(id, Value(chunk));
    }

    method AddReadRequest(id: Id)
      requires reader != null
      modifies reader
      ensures reader.owner == old(reader.owner) && View() == ReadableStream.AddReadRequest(old(View()), id)
    {
      reader.readRequests := reader.readRequests + [id];
    }

    method NumberRead() returns (id: Id)
      modifies this`past
      ensures id == old(past).asked && View() == old(View()).(asked := id + 1)
    {
      id := past.asked;
      past := past.(asked := id + 1);
    }

    method Serve() returns (id: Id)
      requires Valid() && reader != null
      modifies this`past, this`state, controller, reader
      ensures Valid() && id == old(past).asked && View() == ReadableStream.Read(old(View()))
    {
      hide View, ReadableStream.CallPullIfNeeded, ReadableStream.TakeChunk, ReadableStream.AddReadRequest, Inv;
      id := NumberRead();
      if state == Closed {
        AnswerOne(id, Done);
        return;
      }
      if state == Errored {
        AnswerOne(id, Failed(storedError));
        return;
      }
      if |controller.queue| > 0 {
        TakeChunk(id);
        return;
      }
      AddReadRequest(id);
      CallPullIfNeeded();
    }

    /** The read gets the next number and its own answer, or waits; the invariant is kept. */
    method Read() returns (id: Id)
      requires Valid() && reader != null
      modifies this`past, this`state, controller, reader
      ensures Valid() && id == old(past).asked
      ensures var s := old(View());
        View() == ReadableStream.Read(s) && (Inv(s) ==> Inv(View()) && Answered(s, id, View()))
    {
      hide View, ReadableStream.Read, Inv, Answered;
      if Inv(View()) {
        ReadAnswers(View());
        ReadKeeps(View());
      }
      id := Serve();
    }

    method NoteCancel()
      modifies this`past
      ensures View() == old(View()).(cancels := old(View()).cancels + 1)
    {
      past := past.(cancels := past.cancels + 1);
    }

    method EndByCancel()
      requires Valid()
      modifies this`past, this`state, controller, reader
      ensures Valid() && View() == ReadableStream.Cancel(old(View()))
    {
      hide View, Assert, ReadableStream.CloseStream;
      if state != Readable {
        return;
      }
      CloseStream();
      DropQueue();
      Check(!controller.cleared);
      NoteCancel();
      ClearAlgorithms();
    }

    /** No chunk is left and no read waits; the invariant is kept. */
    method Cancel()
      requires Valid()
      modifies this`past, this`state, controller, reader
      ensures Valid()
      ensures var s := old(View());
        && View() == ReadableStream.Cancel(s)
        && (Inv(s) ==> Inv(View()) && state != Readable && controller.queue == [] && !Pending())
    {
      hide View, ReadableStream.Cancel, Inv;
      if Inv(View()) {
        CancelKeeps(View());
        CancelLeaves(View());
      }
      EndByCancel();
    }

    // ---------------------------------------------------------------- readers and reactions

    method GetReader()
      requires Valid()
      modifies this`reader
      ensures Valid() && reader != null && (if old(reader) == null then fresh(reader) else reader == old(reader))
      ensures var s := old(View()); View() == AcquireReader(s) && (Inv(s) ==> Inv(View()))
    {
      hide Inv;
      if Inv(View()) {
        ReaderKeeps(View());
      }
      if reader == null {
        reader := new ReaderObject(this, state == Readable);
      }
    }

    method Detach()
      requires Valid() && reader != null
      modifies this`reader, reader`owner
      ensures Valid() && reader == null && View() == old(View()).(reader := None)
    {
      reader.owner := null;
      reader := null;
    }

    method Unlock()
      requires Valid()
      modifies this`past, this`reader, reader
      ensures Valid() && reader == (if old(Pending()) then old(reader) else null)
      ensures View() == ReleaseReader(old(View()))
    {
      hide View, Assert;
      if reader == null || Pending() {
        return;
      }
      Check(state == Readable ==> reader.open);
      Detach();
    }

    /** A reader with waiting reads keeps its lock. */
    method ReleaseLock()
      requires Valid()
      modifies this`past, this`reader, reader
      ensures Valid() && reader == (if old(Pending()) then old(reader) else null)
      ensures var s := old(View()); View() == ReleaseReader(s) && (Inv(s) ==> Inv(View()))
    {
      hide View, ReleaseReader, Inv;
      if Inv(View()) {
        ReaderKeeps(View());
      }
      Unlock();
    }

    method NoteStart()
      modifies this`past
      ensures View() == old(View()).(startPending := false)
    {
      past := past.(startPending := false);
    }

    method SetStarted()
      modifies controller`started
      ensures View() == old(View()).(started := true)
    {
      controller.started := true;
    }

    method StartSettled(outcome: Outcome)
      requires Valid() && past.startPending
      modifies this`past, this`state, this`storedError, controller, reader
      ensures Valid()
      ensures var s := old(View()); View() == StartDone(s, outcome) && (Inv(s) ==> Inv(View()))
    {
      hide View, Assert, ReadableStream.CallPullIfNeeded, ReadableStream.ControllerError, Inv;
      if Inv(View()) {
        ReactionKeeps(View(), outcome);
      }
      NoteStart();
      match outcome
      case Rejected(r) => ControllerError(r);
      case Fulfilled =>
        SetStarted();
        Check(!controller.pulling && !controller.pullAgain);
        CallPullIfNeeded();
    }

    method NotePull()
      modifies this`past
      ensures View() == old(View()).(pullPending := false)
    {
      past := past.(pullPending := false);
    }

    method SetPulling(pulling: bool, again: bool)
      modifies controller`pulling, controller`pullAgain
      ensures View() == old(View()).(pulling := pulling, pullAgain := again)
    {
      controller.pulling, controller.pullAgain := pulling, again;
    }

    method ReactToPull(outcome: Outcome)
      requires Valid() && past.pullPending
      modifies this`past, this`state, this`storedError, controller, reader
      ensures Valid() && View() == PullDone(old(View()), outcome)
    {
      hide View, ReadableStream.CallPullIfNeeded, ReadableStream.ControllerError, Inv;
      NotePull();
      match outcome
      case Rejected(r) => ControllerError(r);
      case Fulfilled =>
        if controller.pullAgain {
          SetPulling(false, false);
          CallPullIfNeeded();
        } else {
          SetPulling(false, false);
        }
    }

    method PullSettled(outcome: Outcome)
      requires Valid() && past.pullPending
      modifies this`past, this`state, this`storedError, controller, reader
      ensures Valid()
      ensures var s := old(View()); View() == PullDone(s, outcome) && (Inv(s) ==> Inv(View()))
    {
      hide View, PullDone, Inv;
      if Inv(View()) {
        ReactionKeeps(View(), outcome);
      }
      ReactToPull(outcome);
    }

    method Perform(e: Event)
      requires Valid()
      modifies this, controller, reader
      ensures Valid() && (reader != null && reader != old(reader) ==> fresh(reader))
      ensures var s := old(View()); View() == Step(s, e) && (Inv(s) ==> Inv(View()))
    {
      hide View, ReadableStream.ControllerEnqueue, ReadableStream.ControllerClose, ReadableStream.ControllerError,
           ReadableStream.Read, ReadableStream.Cancel, AcquireReader, ReleaseReader, StartDone, PullDone, Inv;
      match e
      case DoEnqueue(chunk, size) => ControllerEnqueue(chunk, size);
      case DoClose => ControllerClose();
      case DoError(reason) => ControllerError(reason);
      case DoRead => if reader != null { var _ := Read(); }
      case DoCancel => Cancel();
      case DoAcquireReader => GetReader();
      case DoReleaseReader => ReleaseLock();
      case OnStart(outcome) => if past.startPending { StartSettled(outcome); }
      case OnPull(outcome) => if past.pullPending { PullSettled(outcome); }
    }
  }

  /** Driving a fresh object through any events is a run. */
  method Drive(hwm: HighWaterMark, events: seq<Event>) returns (stream: ReadableObject)
    ensures fresh(stream) && stream.Valid() && stream.View() == Run(hwm, events) && Inv(stream.View())
  {
    hide ReadableObject.View, Step, Init, Inv;
    stream := new ReadableObject(hwm);
    for k := 0 to |events|
      invariant fresh(stream) && fresh(stream.controller) && (stream.reader != null ==> fresh(stream.reader))
      invariant stream.Valid() && stream.View() == Run(hwm, events[..k])
    {
      assert events[..k + 1][..k] == events[..k];
      stream.Perform(events[k]);
    }
    assert events[..|events|] == events;
    Reachable(hwm, events);
  }
}
