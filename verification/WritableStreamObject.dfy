/** The writable stream in the form of the source: a stream, its controller and its writers are
    objects that refer to each other, and the operations assign their slots one after the other,
    return early and loop over the waiting requests.  `View` reads the linked objects as one state of
    the transition system; every operation is proved to compute the transition it implements, to
    keep the links, and to keep the invariant wherever it may be called. */
module WritableStreamObject {
  import opened Common
  import opened StreamValues
  import opened WritableStream
  import opened WritableStreamSafety

  /** What is no slot of the source: the promises of the sink under way, and the history. */
  datatype History = History(
    writePending: bool,
    closePending: bool,
    abortPending: Option<AbortRequest>,
    nextId: Id,
    accepted: seq<Accepted>,
    closeAccepted: seq<Id>,
    abortAccepted: seq<Id>,
    writeLog: seq<Settlement>,
    closeLog: seq<Settlement>,
    abortLog: seq<Settlement>,
    trace: seq<SinkEvent>,
    faults: seq<Fault>)

  predicate IsReaction(e: Event) {
    e.OnStart? || e.OnWrite? || e.OnClose? || e.OnAbort?
  }

  class Journal {
    var past: History
    var released: bool          // some writer has given up its lock

    constructor ()
      ensures !released && past == History(false, false, None, 0, [], [], [], [], [], [], [], [])
    {
      released := false;
      past := History(false, false, None, 0, [], [], [], [], [], [], [], []);
    }

    method Record(fault: Fault)
      modifies this`past
      ensures past == old(past).(faults := old(past).faults + [fault])
    {
      past := past.(faults := past.faults + [fault]);
    }
  }

  class ControllerObject {
    var stream: StreamObject?
    const hwm: HighWaterMark
    var started: bool
    var cleared: bool
    var queue: seq<Entry<Record>>
    var total: real

    constructor (hwm: HighWaterMark)
      ensures stream == null && this.hwm == hwm && !started && !cleared && queue == [] && total == 0.0
    {
      this.hwm := hwm;
      stream, started, cleared, queue, total := null, false, false, [], 0.0;
    }
  }

  /** A writer; `owner` is null once it has given up its lock. */
  class WriterObject {
    const journal: Journal
    var owner: StreamObject?
    var ready: Ready
    var closed: ClosedSlot

    constructor (journal: Journal, owner: StreamObject, ready: Ready, closed: ClosedSlot)
      ensures this.journal == journal && this.owner == owner && this.ready == ready && this.closed == closed
    {
      this.journal, this.owner, this.ready, this.closed := journal, owner, ready, closed;
    }

    /** The lock of this writer is given up. */
    ghost predicate Stale(journal: Journal)
      reads this
    {
      owner == null && this.journal == journal
    }

    /** What every call of the user may rely on. */
    ghost predicate Usable()
      reads this, owner, if owner == null then {} else {owner.controller, owner.writer}
    {
      owner != null ==> owner.Valid() && owner.writer == this
    }

    /** `write`: through a stale writer an assertion fails. */
    method Write(chunk: Chunk, size: SizeResult)
      requires Usable()
      modifies journal`past, if owner == null then {} else {this, owner, owner.controller}
      ensures Usable() && owner == old(owner)
      ensures owner == null ==> journal.past == old(journal.past).(faults := old(journal.past).faults + [AssertionFailed])
      ensures owner != null ==> owner.View() == WritableStream.Write(old(owner.View()), chunk, size)
      ensures owner != null && Inv(old(owner.View())) ==> Inv(owner.View())
    {
      hide StreamObject.View, WritableStream.Write, Inv;
      if owner == null {
        journal.Record(AssertionFailed);
        return;
      }
      var _ := owner.Write(chunk, size);
    }

    /** `abort`: through a stale writer an assertion fails. */
    method Abort(reason: Reason)
      requires Usable()
      modifies journal`past, if owner == null then {} else {this, owner, owner.controller}
      ensures Usable() && owner == old(owner)
      ensures owner == null ==> journal.past == old(journal.past).(faults := old(journal.past).faults + [AssertionFailed])
      ensures owner != null ==> owner.View() == WritableStream.Abort(old(owner.View()), reason)
      ensures owner != null && Inv(old(owner.View())) ==> Inv(owner.View())
    {
      hide StreamObject.View, WritableStream.Abort, Inv;
      if owner == null {
        journal.Record(AssertionFailed);
        return;
      }
      owner.Abort(reason);
    }

    /** `close`: through a stale writer the slots of `undefined` are read. */
    method Close()
      requires Usable()
      modifies journal`past, if owner == null then {} else {this, owner, owner.controller}
      ensures Usable() && owner == old(owner)
      ensures owner == null ==> journal.past == old(journal.past).(faults := old(journal.past).faults + [UndefinedRead])
      ensures owner != null ==> owner.View() == WritableStream.Close(old(owner.View()))
      ensures owner != null && Inv(old(owner.View())) ==> Inv(owner.View())
    {
      hide StreamObject.View, WritableStream.Close, Inv, SecondClose;
      if owner == null {
        journal.Record(UndefinedRead);
        return;
      }
      owner.Close();
    }

    /** `releaseLock`: the writer becomes stale and the stream unlocked. */
    method ReleaseLock()
      requires Usable()
      modifies this, journal, owner
      ensures Stale(journal) && journal.past == old(journal.past)
      ensures old(owner) != null ==>
        old(owner).Valid() && old(owner).writer == null && old(owner).View() == ReleaseWriter(old(owner.View()))
      ensures journal.released == (old(journal.released) || old(owner) != null)
    {
      if owner == null {
        return;
      }
      ready := ReadyRejected(TypeError);
      closed := if closed == Open then Done(Rejected(TypeError)) else Bare(Rejected(TypeError));
      owner.writer := null;
      journal.released := true;
      owner := null;
    }
  }

  class StreamObject {
    const controller: ControllerObject
    const journal: Journal
    var state: State
    var storedError: Reason
    var writeRequests: seq<Id>
    var inFlightWrite: Option<Id>
    var closeRequest: Option<Id>
    var inFlightClose: Option<Id>
    var pendingAbort: Option<AbortRequest>
    var backpressure: bool
    var writer: WriterObject?

    /** The links between the three objects. */
    ghost predicate Valid()
      reads this, controller, writer
    {
      controller.stream == this && (writer != null ==> writer.owner == this && writer.journal == journal)
    }

    ghost function View(): (v: Stream)
      reads this, controller, journal, writer
      ensures v.state == state && v.storedError == storedError && v.writeRequests == writeRequests
      ensures v.inFlightWrite == inFlightWrite && v.closeRequest == closeRequest && v.inFlightClose == inFlightClose
      ensures v.pendingAbort == pendingAbort && v.backpressure == backpressure
      ensures v.writer == if writer == null then None else Some(Writer(writer.ready, writer.closed))
      ensures v.started == controller.started && v.cleared == controller.cleared && v.hwm == controller.hwm
      ensures v.queue == controller.queue && v.total == controller.total && v.nextId == journal.past.nextId
      ensures v.writePending == journal.past.writePending && v.closePending == journal.past.closePending
      ensures v.abortPending == journal.past.abortPending && v.released == journal.released
    {
      var p := journal.past;
      Stream(state, storedError, writeRequests, inFlightWrite, closeRequest, inFlightClose, pendingAbort, backpressure,
             if writer == null then None else Some(Writer(writer.ready, writer.closed)), journal.released,
             controller.started, controller.cleared, controller.hwm, controller.queue, controller.total,
             p.writePending, p.closePending, p.abortPending,
             p.nextId, p.accepted, p.closeAccepted, p.abortAccepted, p.writeLog, p.closeLog, p.abortLog, p.trace, p.faults)
    }

    constructor (hwm: HighWaterMark)
      ensures Valid() && View() == Run(hwm, []) && writer == null
      ensures fresh(controller) && fresh(journal) && !journal.released
    {
      controller := new ControllerObject(hwm);
      journal := new Journal();
      state, storedError, writeRequests, inFlightWrite, closeRequest := Writable, Undefined, [], None, None;
      inFlightClose, pendingAbort, backpressure, writer := None, None, false, null;
      new;
      controller.stream := this;
      UpdateBackpressure(AtCapacity(hwm, 0.0));
    }

    // A failed assertion is recorded instead of thrown.
    method Check(condition: bool)
      modifies journal`past
      ensures View() == Assert(old(View()), condition)
    {
      if !condition {
        journal.Record(AssertionFailed);
      }
    }

    method CallSink(e: SinkEvent)
      modifies journal`past
      ensures View() == CallAlgorithm(old(View()), e)
    {
      if controller.cleared {
        journal.Record(ClearedAlgorithm);
      } else {
        journal.past := journal.past.(trace := journal.past.trace + [e]);
      }
    }

    predicate Closing()
      reads this
    {
      closeRequest.Some? || inFlightClose.Some?
    }

    predicate InFlight()
      reads this
    {
      inFlightWrite.Some? || inFlightClose.Some?
    }

    method DequeueValue()
      modifies controller`queue, controller`total, journal`past
      ensures View() == Dequeue(old(View()))
    {
      if |controller.queue| == 0 {
        Check(false);
        return;
      }
      var pair := controller.queue[0];
      controller.queue := controller.queue[1..];
      controller.total := controller.total - pair.size;
      if controller.total <= 0.0 {
        controller.total := 0.0;
      }
    }

    method ResolveReadyPromise()
      requires writer != null
      modifies writer`ready, journal`past
      ensures View() == ResolveReady(old(View()))
    {
      if writer.ready.ReadyPending? {
        writer.ready := ReadyResolved;
      } else {
        journal.Record(MissingHandler);
      }
    }

    method SettleClosedPromise(outcome: Outcome)
      requires writer != null
      modifies writer`closed, journal`past
      ensures View() == SettleClosed(old(View()), outcome) && writer.closed != Open
    {
      match writer.closed
      case Open => writer.closed := Done(outcome);
      case Done(_) =>
      case Bare(_) => journal.Record(MissingHandler);
    }

    method SetBackpressure(value: bool)
      modifies this`backpressure
      ensures backpressure == value && View() == old(View()).(backpressure := value)
    {
      backpressure := value;
    }

    method NotifyWriter(value: bool)
      modifies writer, journal`past
      ensures writer != null ==> writer.owner == old(writer.owner)
      ensures View() == WritableStream.NotifyWriter(old(View()), value)
    {
      hide ResolveReady;
      if writer != null && value != backpressure {
        if value {
          writer.ready := ReadyPending;
        } else {
          ResolveReadyPromise();
        }
      }
    }

    method AssignBackpressure(value: bool)
      requires Valid()
      modifies this`backpressure, writer, journal`past
      ensures Valid() && View() == WritableStream.UpdateBackpressure(old(View()), value)
    {
      hide View, Assert, WritableStream.NotifyWriter;
      Check(state == Writable);
      Check(!Closing());
      NotifyWriter(value);
      SetBackpressure(value);
    }

    /** The ready promise follows the flag, if it did so before. */
    method UpdateBackpressure(value: bool)
      requires Valid()
      modifies this`backpressure, writer, journal`past
      ensures Valid()
      ensures var s := old(View());
        && View() == WritableStream.UpdateBackpressure(s, value)
        && (MayUpdateBackpressure(s) ==> ReadyFollows(View()) && backpressure == value && View().faults == s.faults)
    {
      hide View, WritableStream.UpdateBackpressure, MayUpdateBackpressure, ReadyFollows;
      if MayUpdateBackpressure(View()) {
        UpdateFollows(View(), value);
      }
      AssignBackpressure(value);
    }

    // ---------------------------------------------------------------- the path to errored

    method RejectCloseRequest()
      modifies this`closeRequest, journal`past
      ensures View() == WritableStream.RejectCloseRequest(old(View()))
      ensures closeRequest == None
    {
      hide Assert;
      if closeRequest.Some? {
        Check(inFlightClose.None?);
        var rejected := Settlement(closeRequest.value, Rejected(storedError));
        journal.past := journal.past.(closeLog := journal.past.closeLog + [rejected]);
        closeRequest := None;
      }
    }

    /** No close request waits and no writer's closed promise is open afterwards. */
    method RejectCloseAndClosedPromiseIfNeeded()
      requires Valid()
      modifies this`closeRequest, writer, journal`past
      ensures Valid() && View() == WritableStream.RejectCloseAndClosedPromiseIfNeeded(old(View()))
      ensures closeRequest == None && (writer != null ==> writer.closed != Open)
    {
      hide View, Assert, SettleClosed, WritableStream.RejectCloseRequest;
      Check(state == Errored);
      RejectCloseRequest();
      if writer != null {
        SettleClosedPromise(Rejected(storedError));
      }
    }

    method RejectWriteRequests()
      modifies this`writeRequests, journal`past
      ensures View() == WritableStream.RejectWriteRequests(old(View()))
    {
      var i := 0;
      ghost var before := journal.past.writeLog;
      while i < |writeRequests|
        invariant 0 <= i <= |writeRequests| && writeRequests == old(writeRequests)
        invariant journal.past == old(journal.past).(writeLog := before + RejectAll(writeRequests[..i], storedError))
      {
        var rejected := Settlement(writeRequests[i], Rejected(storedError));
        assert RejectAll(writeRequests[..i + 1], storedError) == RejectAll(writeRequests[..i], storedError) + [rejected];
        journal.past := journal.past.(writeLog := journal.past.writeLog + [rejected]);
        i := i + 1;
      }
      assert writeRequests[..i] == writeRequests;
      writeRequests := [];
    }

    method BecomeErrored()
      modifies this`state, controller`queue, controller`total
      ensures View() == old(View()).(state := Errored, queue := [], total := 0.0)
    {
      state := Errored;
      controller.queue, controller.total := [], 0.0;
    }

    method SettlePendingAbort(outcome: Outcome)
      requires pendingAbort.Some?
      modifies this`pendingAbort, journal`past
      ensures View() == WritableStream.SettlePendingAbort(old(View()), outcome)
    {
      journal.past := journal.past.(abortLog := journal.past.abortLog + [Settlement(pendingAbort.value.id, outcome)]);
      pendingAbort := None;
    }

    method AbortSteps(request: AbortRequest)
      modifies this`pendingAbort, controller`cleared, journal`past
      ensures View() == WritableStream.AbortSteps(old(View()).(pendingAbort := None), request)
    {
      hide CallAlgorithm;
      pendingAbort := None;
      CallSink(AbortStart(request.reason));
      controller.cleared := true;
      journal.past := journal.past.(abortPending := Some(request));
    }

    method FinishAbort()
      requires Valid()
      modifies this`closeRequest, this`pendingAbort, controller`cleared, writer, journal`past
      ensures Valid() && View() == WritableStream.FinishAbort(old(View()))
    {
      hide View, WritableStream.RejectCloseAndClosedPromiseIfNeeded, WritableStream.AbortSteps, WritableStream.SettlePendingAbort;
      if pendingAbort.None? {
        RejectCloseAndClosedPromiseIfNeeded();
        return;
      }
      var request := pendingAbort.value;
      if request.wasAlreadyErroring {
        SettlePendingAbort(Rejected(storedError));
        RejectCloseAndClosedPromiseIfNeeded();
        return;
      }
      AbortSteps(request);
    }

    method EndErring()
      requires Valid()
      modifies this`state, this`writeRequests, this`closeRequest, this`pendingAbort
      modifies controller`queue, controller`total, controller`cleared, writer, journal`past
      ensures Valid() && View() == WritableStream.FinishErroring(old(View()))
    {
      hide View, Assert, WritableStream.RejectWriteRequests, WritableStream.FinishAbort;
      Check(state == Erroring);
      Check(!InFlight());
      BecomeErrored();
      RejectWriteRequests();
      FinishAbort();
    }

    /** Every waiting write is rejected and nothing is queued; the invariant holds again. */
    method FinishErroring()
      requires Valid()
      modifies this`state, this`writeRequests, this`closeRequest, this`pendingAbort
      modifies controller`queue, controller`total, controller`cleared, writer, journal`past
      ensures Valid()
      ensures var s := old(View());
        && View() == WritableStream.FinishErroring(s)
        && (MayFinishErroring(s) ==> Restores(s, View()) && state == Errored)
    {
      hide View, WritableStream.FinishErroring, MayFinishErroring, Restores;
      if MayFinishErroring(View()) {
        FinishErroringKeeps(View());
      }
      EndErring();
    }

    method EnsureReadyPromiseRejected(reason: Reason)
      modifies writer
      ensures writer != null ==> writer.owner == old(writer.owner)
      ensures View() == RejectReady(old(View()), reason)
    {
      if writer != null {
        writer.ready := ReadyRejected(reason);
      }
    }

    method SetError(reason: Reason)
      modifies this`state, this`storedError
      ensures View() == old(View()).(state := Erroring, storedError := reason)
    {
      state := Erroring;
      storedError := reason;
    }

    method BecomeErroring(reason: Reason)
      requires Valid()
      modifies this`state, this`storedError, writer, journal`past
      ensures Valid() && View() == WritableStream.BecomeErroring(old(View()), reason)
    {
      hide View, Assert, RejectReady;
      Check(storedError == Undefined);
      Check(state == Writable);
      SetError(reason);
      EnsureReadyPromiseRejected(reason);
    }

    method StartErroring(reason: Reason)
      requires Valid()
      modifies this`state, this`storedError, this`writeRequests, this`closeRequest, this`pendingAbort
      modifies controller`queue, controller`total, controller`cleared, writer, journal`past
      ensures Valid()
      ensures var s := old(View());
        && View() == WritableStream.StartErroring(s, reason)
        && (MayStartErroring(s) ==> Restores(s, View()) && state != Writable)
    {
      hide View, WritableStream.FinishErroring, WritableStream.BecomeErroring, MayStartErroring, MayFinishErroring, Restores;
      if MayStartErroring(View()) {
        StartErroringKeeps(View(), reason);
      }
      BecomeErroring(reason);
      if !InFlight() && controller.started {
        FinishErroring();
      }
    }

    method DealWithRejection(error: Reason)
      requires Valid()
      modifies this`state, this`storedError, this`writeRequests, this`closeRequest, this`pendingAbort
      modifies controller`queue, controller`total, controller`cleared, writer, journal`past
      ensures Valid()
      ensures var s := old(View());
        && View() == WritableStream.DealWithRejection(s, error)
        && (MayDealWithRejection(s) ==> Restores(s, View()))
    {
      hide View, Assert, WritableStream.FinishErroring, WritableStream.StartErroring, Restores,
           MayDealWithRejection, MayStartErroring, MayFinishErroring;
      if MayDealWithRejection(View()) {
        DealWithRejectionKeeps(View(), error);
      }
      if state == Writable {
        StartErroring(error);
        return;
      }
      Check(state == Erroring);
      FinishErroring();
    }

    method ClearAlgorithms()
      modifies controller`cleared
      ensures View() == old(View()).(cleared := true)
    {
      controller.cleared := true;
    }

    method ErrorIfNeeded(error: Reason)
      requires Valid()
      modifies this`state, this`storedError, this`writeRequests, this`closeRequest, this`pendingAbort
      modifies controller`queue, controller`total, controller`cleared, writer, journal`past
      ensures Valid()
      ensures var s := old(View());
        && View() == WritableStream.ErrorIfNeeded(s, error)
        && (MayErrorIfNeeded(s) ==> Inv(View()) && state != Writable && View().faults == s.faults)
    {
      hide View, WritableStream.StartErroring, MayErrorIfNeeded, MayStartErroring, Inv;
      if MayErrorIfNeeded(View()) {
        ErrorIfNeededKeeps(View(), error);
      }
      if state == Writable {
        ClearAlgorithms();
        StartErroring(error);
      }
    }

    // ---------------------------------------------------------------- the queue

    method MarkFirstWriteInFlight()
      requires writeRequests != []
      modifies this`writeRequests, this`inFlightWrite
      ensures View() == WritableStream.MarkFirstWriteInFlight(old(View()))
    {
      inFlightWrite := Some(writeRequests[0]);
      writeRequests := writeRequests[1..];
    }

    method CallSinkWrite(chunk: Chunk)
      modifies journal`past
      ensures View() == CallAlgorithm(old(View()), WriteStart(chunk)).(writePending := true)
    {
      hide CallAlgorithm;
      CallSink(WriteStart(chunk));
      journal.past := journal.past.(writePending := true);
    }

    method SendWrite(chunk: Chunk)
      modifies this`writeRequests, this`inFlightWrite, journal`past
      ensures View() == WritableStream.ProcessWrite(old(View()), chunk)
    {
      hide View, Assert, CallAlgorithm, WritableStream.MarkFirstWriteInFlight;
      Check(inFlightWrite.None?);
      if |writeRequests| == 0 {
        Check(false);
        return;
      }
      MarkFirstWriteInFlight();
      CallSinkWrite(chunk);
    }

    /** The first waiting request goes to the sink; the invariant holds again. */
    method ProcessWrite(chunk: Chunk)
      modifies this`writeRequests, this`inFlightWrite, journal`past
      ensures var s := old(View());
        && View() == WritableStream.ProcessWrite(s, chunk)
        && (MayProcess(s) && HeadIs(s, WriteRecord(chunk)) ==> Restores(s, View()))
    {
      hide View, WritableStream.ProcessWrite, MayProcess, HeadIs, Restores;
      if MayProcess(View()) && HeadIs(View(), WriteRecord(chunk)) {
        HeadMeaning(View(), WriteRecord(chunk));
        ProcessWriteKeeps(View(), chunk);
      }
      SendWrite(chunk);
    }

    method MarkCloseInFlight()
      modifies this`closeRequest, this`inFlightClose, journal`past
      ensures View() == WritableStream.MarkCloseInFlight(old(View()))
    {
      hide Assert;
      Check(inFlightClose.None?);
      Check(closeRequest.Some?);
      inFlightClose, closeRequest := closeRequest, None;
    }

    method CallSinkClose()
      modifies controller`cleared, journal`past
      ensures View() == CallAlgorithm(old(View()), CloseStart).(closePending := true, cleared := true)
    {
      hide CallAlgorithm;
      CallSink(CloseStart);
      controller.cleared := true;
      journal.past := journal.past.(closePending := true);
    }

    /** The close goes to the sink; the invariant holds again. */
    method ProcessClose()
      modifies this`closeRequest, this`inFlightClose, controller`queue, controller`total, controller`cleared, journal`past
      ensures var s := old(View());
        && View() == WritableStream.ProcessClose(s)
        && (MayProcess(s) && HeadIs(s, CloseMarker) ==> Restores(s, View()))
    {
      hide View, Assert, Dequeue, CallAlgorithm, WritableStream.MarkCloseInFlight, MayProcess, Restores;
      if MayProcess(View()) && HeadIs(View(), CloseMarker) {
        ProcessCloseKeeps(View());
      }
      MarkCloseInFlight();
      DequeueValue();
      Check(controller.queue == []);
      CallSinkClose();
    }

    method LookAtQueue()
      requires Valid()
      modifies this`state, this`writeRequests, this`inFlightWrite, this`closeRequest, this`inFlightClose, this`pendingAbort
      modifies controller`queue, controller`total, controller`cleared, writer, journal`past
      ensures Valid() && View() == WritableStream.AdvanceQueueIfNeeded(old(View()))
    {
      hide View, Assert, WritableStream.FinishErroring, WritableStream.ProcessWrite, WritableStream.ProcessClose,
           MayProcess, MayFinishErroring, HeadIs, Restores;
      if !controller.started {
        return;
      }
      if inFlightWrite.Some? {
        return;
      }
      Check(state != Closed && state != Errored);
      if state == Erroring {
        FinishErroring();
        return;
      }
      if |controller.queue| == 0 {
        return;
      }
      match controller.queue[0].value
      case CloseMarker => ProcessClose();
      case WriteRecord(chunk) => ProcessWrite(chunk);
    }

    /** Whatever can go on goes on; the invariant holds again. */
    method AdvanceQueueIfNeeded()
      requires Valid()
      modifies this`state, this`writeRequests, this`inFlightWrite, this`closeRequest, this`inFlightClose, this`pendingAbort
      modifies controller`queue, controller`total, controller`cleared, writer, journal`past
      ensures Valid()
      ensures var s := old(View());
        && View() == WritableStream.AdvanceQueueIfNeeded(s)
        && (MayAdvance(s) ==> Restores(s, View()))
    {
      hide View, WritableStream.AdvanceQueueIfNeeded, MayAdvance, Restores;
      if MayAdvance(View()) {
        AdvanceKeeps(View());
      }
      LookAtQueue();
    }

    method RefreshBackpressure()
      requires Valid()
      modifies this`backpressure, writer, journal`past
      ensures Valid() && View() == WritableStream.RefreshBackpressure(old(View()))
    {
      hide View, WritableStream.UpdateBackpressure, MayUpdateBackpressure, ReadyFollows;
      if !Closing() && state == Writable {
        UpdateBackpressure(AtCapacity(controller.hwm, controller.total));
      }
    }

    method EnqueueValueWithSize(value: Record, size: real)
      modifies controller`queue, controller`total
      ensures View() == Enqueue(old(View()), value, size)
    {
      controller.queue := controller.queue + [Entry(value, size)];
      controller.total := controller.total + size;
    }

    // ---------------------------------------------------------------- requests of the user

    method ControllerWrite(chunk: Chunk, size: SizeResult)
      requires Valid()
      modifies this, controller`queue, controller`total, controller`cleared, writer, journal`past
      ensures Valid() && writer == old(writer) && View() == WritableStream.ControllerWrite(old(View()), chunk, size)
    {
      hide View, WritableStream.ErrorIfNeeded, WritableStream.RefreshBackpressure, WritableStream.AdvanceQueueIfNeeded,
           MayErrorIfNeeded, MayAdvance, Restores;
      if !(size.Size? && size.size >= 0.0) {
        ErrorIfNeeded(RangeError);
        return;
      }
      EnqueueValueWithSize(WriteRecord(chunk), size.size);
      RefreshBackpressure();
      AdvanceQueueIfNeeded();
    }

    method AddWriteRequest(chunk: Chunk)
      modifies this`writeRequests, journal`past
      ensures View() == AcceptWrite(old(View()), chunk)
    {
      var id := journal.past.nextId;
      journal.past := journal.past.(nextId := id + 1, accepted := journal.past.accepted + [Accepted(id, chunk)]);
      writeRequests := writeRequests + [id];
    }

    /** The size of a chunk; a failing size function errors the stream. */
    method ChunkSize(size: SizeResult) returns (used: SizeResult)
      requires Valid()
      modifies this, controller`queue, controller`total, controller`cleared, writer, journal`past
      ensures Valid() && writer == old(writer) && (View(), used) == GetChunkSize(old(View()), size)
    {
      hide View, WritableStream.ErrorIfNeeded, MayErrorIfNeeded, Inv;
      used := size;
      if controller.cleared {
        ErrorIfNeeded(TypeError);
        used := Size(1.0);
      } else if size.SizeThrows? {
        ErrorIfNeeded(size.error);
        used := Size(1.0);
      }
    }

    /** writableStreamDefaultWriterWrite; the request, if one was made, is the last accepted one. */
    method Write(chunk: Chunk, size: SizeResult) returns (request: Option<Id>)
      requires Valid() && writer != null
      modifies this, controller`queue, controller`total, controller`cleared, writer, journal`past
      ensures Valid() && writer == old(writer) && View() == WritableStream.Write(old(View()), chunk, size)
      ensures Inv(old(View())) ==> Inv(View()) && View().faults == old(View()).faults
      ensures View().accepted == old(View()).accepted + if request.Some? then [Accepted(request.value, chunk)] else []
    {
      hide View, GetChunkSize, WritableStream.ControllerWrite, Inv;
      WriteAccepts(View(), chunk, size);
      if Inv(View()) {
        WriteKeeps(View(), chunk, size);
      }
      var used := ChunkSize(size);
      if state == Errored || state == Closed || Closing() || state == Erroring {
        return None;
      }
      request := Some(journal.past.nextId);
      AddWriteRequest(chunk);
      ControllerWrite(chunk, used);
    }

    method AddCloseRequest()
      modifies this`closeRequest, journal`past
      ensures View() == AcceptCloseRequest(old(View()))
    {
      var id := journal.past.nextId;
      journal.past := journal.past.(nextId := id + 1, closeAccepted := journal.past.closeAccepted + [id]);
      closeRequest := Some(id);
    }

    /** writableStreamClose, with the test of its callers; it fails exactly on a second close of a
        locked stream. */
    method Close()
      requires Valid()
      modifies this, controller`queue, controller`total, controller`cleared, writer, journal`past
      ensures Valid() && writer == old(writer)
      ensures var s := old(View());
        && View() == WritableStream.Close(s)
        && (Inv(s) ==> Inv(View()) && View().faults == s.faults + if SecondClose(s) then [AssertionFailed] else [])
    {
      hide View, ResolveReady, AcceptCloseRequest, WritableStream.AdvanceQueueIfNeeded, MayAdvance, Restores, Inv, SecondClose;
      if Inv(View()) {
        CloseKeeps(View());
      }
      if writer == null && Closing() {
        return;
      }
      if state == Closed || state == Errored {
        return;
      }
      if Closing() {
        Check(false);
        return;
      }
      AddCloseRequest();
      AcceptCloseLeaves(old(View()));
      if writer != null && backpressure && state == Writable {
        ResolveReadyPromise();
      }
      EnqueueValueWithSize(CloseMarker, 0.0);
      AdvanceQueueIfNeeded();
    }

    method AddAbortRequest(reason: Reason)
      modifies this`pendingAbort, journal`past
      ensures View() == AcceptAbort(old(View()), reason)
    {
      var wasAlreadyErroring, usedReason := false, reason;
      if state == Erroring {
        wasAlreadyErroring, usedReason := true, Undefined;
      }
      var request := AbortRequest(journal.past.nextId, usedReason, wasAlreadyErroring);
      journal.past := journal.past.(nextId := request.id + 1, abortAccepted := journal.past.abortAccepted + [request.id]);
      pendingAbort := Some(request);
    }

    /** A writable stream starts to err, an erring one only remembers the request. */
    method Abort(reason: Reason)
      requires Valid()
      modifies this, controller`queue, controller`total, controller`cleared, writer, journal`past
      ensures Valid() && writer == old(writer)
      ensures var s := old(View());
        && View() == WritableStream.Abort(s, reason)
        && (Inv(s) ==> Inv(View()) && state != Writable && View().faults == s.faults)
    {
      hide View, AcceptAbort, WritableStream.StartErroring, MayStartErroring, Restores, Inv;
      if Inv(View()) {
        AbortKeeps(View(), reason);
      }
      if state == Closed || state == Errored {
        return;
      }
      if pendingAbort.Some? {
        return;
      }
      var erring := state == Erroring;
      AddAbortRequest(reason);
      if !erring {
        StartErroring(reason);
      }
    }

    method NewPromises() returns (ready: Ready, closed: ClosedSlot)
      ensures Writer(ready, closed) == NewWriter(View())
    {
      ready, closed := ReadyResolved, Open;
      if state == Writable {
        if !Closing() && backpressure {
          ready := ReadyPending;
        }
      } else if state == Erroring {
        ready := ReadyRejected(storedError);
      } else if state == Closed {
        closed := Bare(Fulfilled);
      } else {
        ready, closed := ReadyRejected(storedError), Bare(Rejected(storedError));
      }
    }

    method Attach(ready: Ready, closed: ClosedSlot)
      requires Valid() && writer == null
      modifies this`writer
      ensures Valid() && fresh(writer) && View() == old(View()).(writer := Some(Writer(ready, closed)))
    {
      writer := new WriterObject(journal, this, ready, closed);
    }

    /** The constructor of a writer; its promises fit the state of the stream. */
    method GetWriter()
      requires Valid()
      modifies this`writer
      ensures Valid() && writer != null && (if old(writer) == null then fresh(writer) else writer == old(writer))
      ensures var s := old(View());
        View() == AcquireWriter(s) && (Inv(s) ==> Inv(View()) && View().faults == s.faults)
    {
      hide View, NewWriter, Inv;
      if Inv(View()) {
        AcquireKeeps(View());
      }
      if writer != null {
        return;
      }
      var ready, closed := NewPromises();
      Attach(ready, closed);
    }

    // ---------------------------------------------------------------- reactions to the sink

    method NoteStart(outcome: Outcome)
      modifies controller`started, journal`past
      ensures View() == WritableStream.StartSettled(old(View()), outcome)
    {
      controller.started := true;
      journal.past := journal.past.(trace := journal.past.trace + [StartEnd(outcome.Fulfilled?)]);
    }

    method StartSettled(outcome: Outcome)
      requires Valid() && !controller.started
      modifies this, controller`started, controller`queue, controller`total, controller`cleared, writer, journal`past
      ensures Valid() && writer == old(writer)
      ensures var s := old(View());
        && View() == StartDone(s, outcome)
        && (Inv(s) ==> Inv(View()) && View().faults == s.faults && Outstanding(View()) < Outstanding(s))
    {
      hide View, Assert, WritableStream.StartSettled, WritableStream.AdvanceQueueIfNeeded, WritableStream.DealWithRejection,
           MayAdvance, MayDealWithRejection, Restores, Inv, Outstanding;
      if Inv(View()) {
        StartDoneKeeps(View(), outcome);
      }
      Check(state == Writable || state == Erroring);
      NoteStart(outcome);
      match outcome
      case Fulfilled => AdvanceQueueIfNeeded();
      case Rejected(r) => DealWithRejection(r);
    }

    method NoteWrite(outcome: Outcome)
      requires inFlightWrite.Some?
      modifies this`inFlightWrite, journal`past
      ensures View() == WriteSettled(old(View()), outcome)
    {
      var p := journal.past;
      journal.past := p.(writePending := false, trace := p.trace + [WriteEnd(outcome.Fulfilled?)],
                         writeLog := p.writeLog + [Settlement(inFlightWrite.value, outcome)]);
      inFlightWrite := None;
    }

    method SinkWriteSettled(outcome: Outcome)
      requires Valid() && journal.past.writePending
      modifies this, controller`queue, controller`total, controller`cleared, writer, journal`past
      ensures Valid() && writer == old(writer)
      ensures var s := old(View());
        && View() == WriteDone(s, outcome)
        && (Inv(s) ==> Inv(View()) && View().faults == s.faults && Outstanding(View()) < Outstanding(s))
    {
      hide View, Assert, WriteSettled, WritableStream.FinishInFlightWrite, Inv, Outstanding;
      if Inv(View()) {
        WriteDoneKeeps(View(), outcome);
      }
      if inFlightWrite.None? {
        Check(false);
        return;
      }
      FinishInFlightWrite(outcome);
    }

    method FinishInFlightWrite(outcome: Outcome)
      requires Valid() && inFlightWrite.Some?
      modifies this, controller`queue, controller`total, controller`cleared, writer, journal`past
      ensures Valid() && writer == old(writer) && View() == WritableStream.FinishInFlightWrite(old(View()), outcome)
    {
      hide View, Assert, Dequeue, WriteSettled, WritableStream.RefreshBackpressure, WritableStream.AdvanceQueueIfNeeded,
           WritableStream.DealWithRejection, MayAdvance, MayDealWithRejection, Restores;
      NoteWrite(outcome);
      match outcome
      case Fulfilled =>
        Check(state == Writable || state == Erroring);
        DequeueValue();
        RefreshBackpressure();
        AdvanceQueueIfNeeded();
      case Rejected(r) =>
        if state == Writable {
          ClearAlgorithms();
        }
        Check(state == Writable || state == Erroring);
        DealWithRejection(r);
    }

    method NoteClose(outcome: Outcome)
      requires inFlightClose.Some?
      modifies this`inFlightClose, journal`past
      ensures View() == CloseSettled(old(View()), outcome)
    {
      var p := journal.past;
      journal.past := p.(closePending := false, trace := p.trace + [CloseEnd(outcome.Fulfilled?)],
                         closeLog := p.closeLog + [Settlement(inFlightClose.value, outcome)]);
      inFlightClose := None;
    }

    method SinkCloseSettled(outcome: Outcome)
      requires Valid() && journal.past.closePending
      modifies this, controller`queue, controller`total, controller`cleared, writer, journal`past
      ensures Valid() && writer == old(writer)
      ensures var s := old(View());
        && View() == CloseDone(s, outcome)
        && (Inv(s) ==> Inv(View()) && View().faults == s.faults && Outstanding(View()) < Outstanding(s))
    {
      hide View, Assert, CloseSettled, WritableStream.FinishInFlightClose, Inv, Outstanding;
      if Inv(View()) {
        CloseDoneKeeps(View(), outcome);
      }
      if inFlightClose.None? {
        Check(false);
        return;
      }
      FinishInFlightClose(outcome);
    }

    method FinishInFlightClose(outcome: Outcome)
      requires Valid() && inFlightClose.Some?
      modifies this, controller`queue, controller`total, controller`cleared, writer, journal`past
      ensures Valid() && writer == old(writer) && View() == WritableStream.FinishInFlightClose(old(View()), outcome)
    {
      hide View, Assert, CloseSettled, BecomeClosed, WritableStream.SettlePendingAbort, WritableStream.DealWithRejection,
           MayDealWithRejection, Restores;
      NoteClose(outcome);
      Check(state == Writable || state == Erroring);
      match outcome
      case Fulfilled => FinishClose();
      case Rejected(r) =>
        if pendingAbort.Some? {
          SettlePendingAbort(Rejected(r));
        }
        DealWithRejection(r);
    }

    method SetClosed()
      modifies this`state
      ensures View() == old(View()).(state := Closed)
    {
      state := Closed;
    }

    method FinishClose()
      requires Valid()
      modifies this`state, this`storedError, this`pendingAbort, writer, journal`past
      ensures Valid() && View() == BecomeClosed(old(View()))
    {
      hide View, Assert, SettleClosed, ForgetError;
      DropError();
      SetClosed();
      if writer != null {
        SettleClosedPromise(Fulfilled);
      }
      Check(pendingAbort.None?);
      Check(storedError == Undefined);
    }

    method DropError()
      modifies this`storedError, this`pendingAbort, journal`past
      ensures View() == ForgetError(old(View()))
    {
      hide WritableStream.SettlePendingAbort;
      if state == Erroring {
        storedError := Undefined;
        if pendingAbort.Some? {
          SettlePendingAbort(Fulfilled);
        }
      }
    }

    method NoteAbort(outcome: Outcome)
      requires journal.past.abortPending.Some?
      modifies journal`past
      ensures View() == AbortSettled(old(View()), outcome)
    {
      var p := journal.past;
      journal.past := p.(abortPending := None, trace := p.trace + [AbortEnd(outcome.Fulfilled?)],
                         abortLog := p.abortLog + [Settlement(p.abortPending.value.id, outcome)]);
    }

    method SinkAbortSettled(outcome: Outcome)
      requires Valid() && journal.past.abortPending.Some?
      modifies this`closeRequest, writer, journal`past
      ensures Valid()
      ensures var s := old(View());
        && View() == AbortDone(s, outcome)
        && (Inv(s) ==> Inv(View()) && Outstanding(View()) < Outstanding(s))
        && (Inv(s) ==> View().faults == s.faults + if LateWriter(s) then [MissingHandler] else [])
    {
      hide View, AbortSettled, WritableStream.RejectCloseAndClosedPromiseIfNeeded, Inv, Outstanding, LateWriter;
      if Inv(View()) {
        AbortDoneKeeps(View(), outcome);
      }
      NoteAbort(outcome);
      RejectCloseAndClosedPromiseIfNeeded();
    }

    method PerformStale(e: Event, stale: WriterObject)
      requires journal.released && stale.Stale(journal) && (e.StaleWrite? || e.StaleAbort? || e.StaleClose?)
      modifies journal`past
      ensures View() == Step(old(View()), e)
    {
      hide Inv, WritableStream.Write, WritableStream.Abort, WritableStream.Close;
      match e
      case StaleWrite => stale.Write(0, Size(1.0));
      case StaleAbort => stale.Abort(Undefined);
      case StaleClose => stale.Close();
    }

    /** A request of the user; calls through a writer that was released go to `stale`. */
    method PerformRequest(e: Event, stale: WriterObject?)
      requires Valid() && (journal.released <==> stale != null) && (stale != null ==> stale.Stale(journal))
      requires !IsReaction(e)
      modifies this, controller, writer, journal
      ensures Valid() && View() == Step(old(View()), e)
      ensures journal.released == (old(journal.released) || (old(writer) != null && writer == null))
      ensures writer == null || writer == old(writer) || (old(writer) == null && fresh(writer))
      ensures old(writer) != null && writer == null ==> old(writer).Stale(journal)
    {
      hide View, WritableStream.Write, WritableStream.Close, WritableStream.Abort, WritableStream.ErrorIfNeeded,
           AcquireWriter, Inv, MayErrorIfNeeded, SecondClose;
      match e
      case DoWrite(chunk, size) => if writer != null { writer.Write(chunk, size); }
      case DoClose => if writer != null { writer.Close(); } else { Close(); }
      case DoAbort(reason) => if writer != null { writer.Abort(reason); } else { Abort(reason); }
      case DoError(reason) => ErrorIfNeeded(reason);
      case DoAcquireWriter => GetWriter();
      case DoReleaseWriter => if writer != null { writer.ReleaseLock(); }
      case StaleWrite => if stale != null { PerformStale(e, stale); }
      case StaleAbort => if stale != null { PerformStale(e, stale); }
      case StaleClose => if stale != null { PerformStale(e, stale); }
    }

    /** A settlement by the sink. */
    method PerformSettlement(e: Event)
      requires Valid() && IsReaction(e)
      modifies this, controller, writer, journal`past
      ensures Valid() && writer == old(writer) && View() == Step(old(View()), e)
    {
      hide View, StartDone, WriteDone, CloseDone, AbortDone, Inv, Outstanding, LateWriter;
      match e
      case OnStart(outcome) => if !controller.started { StartSettled(outcome); }
      case OnWrite(outcome) => if journal.past.writePending { SinkWriteSettled(outcome); }
      case OnClose(outcome) => if journal.past.closePending { SinkCloseSettled(outcome); }
      case OnAbort(outcome) => if journal.past.abortPending.Some? { SinkAbortSettled(outcome); }
    }
  }

  /** Driving a fresh object through any events is a run, so the object keeps the invariant and
      shows the sink the protocol. */
  method Drive(hwm: HighWaterMark, events: seq<Event>) returns (stream: StreamObject)
    ensures fresh(stream) && stream.Valid() && stream.View() == Run(hwm, events) && Inv(stream.View())
  {
    hide StreamObject.View, Step, Init, Inv;
    stream := new StreamObject(hwm);
    var stale: WriterObject? := null;
    for k := 0 to |events|
      invariant fresh(stream) && fresh(stream.controller) && fresh(stream.journal)
      invariant stream.writer != null ==> fresh(stream.writer)
      invariant stream.Valid() && stream.View() == Run(hwm, events[..k])
      invariant stream.journal.released <==> stale != null
      invariant stale != null ==> stale.Stale(stream.journal)
    {
      assert events[..k + 1][..k] == events[..k];
      var writer := stream.writer;
      if IsReaction(events[k]) {
        stream.PerformSettlement(events[k]);
      } else {
        stream.PerformRequest(events[k], stale);
      }
      if writer != null && stream.writer == null {
        stale := writer;
      }
    }
    assert events[..|events|] == events;
    Reachable(hwm, events);
  }
}
