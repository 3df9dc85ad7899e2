/** What every reachable state of a readable stream satisfies, and what its consumer sees. */
module ReadableStreamSafety {
  import opened Common
  import opened StreamValues
  import opened ReadableStream

  // ---------------------------------------------------------------- reference definitions

  function Chunks(queue: seq<Entry<Chunk>>): seq<Chunk> {
    seq(|queue|, i requires 0 <= i < |queue| => queue[i].value)
  }

  /** The chunks among the answers. */
  function Received(answers: seq<Answer>): seq<Chunk> {
    if answers == [] then []
    else
      var last := answers[|answers| - 1].result;
      Received(answers[..|answers| - 1]) + if last.Value? then [last.chunk] else []
  }

  /** Chunks first, then only ends or only failures. */
  predicate ValuesFirst(answers: seq<Answer>) {
    forall i, j :: 0 <= i < j < |answers| && !answers[i].result.Value? ==> !answers[j].result.Value?
  }

  predicate AllValues(answers: seq<Answer>) {
    forall i :: 0 <= i < |answers| ==> answers[i].result.Value?
  }

  /** The answered reads followed by the waiting ones are the reads in the order they were made. */
  predicate ReadsInOrder(answers: seq<Answer>, waiting: seq<Id>, asked: nat) {
    && |answers| + |waiting| == asked
    && (forall i :: 0 <= i < |answers| ==> answers[i].id == i)
    && (forall i :: 0 <= i < |waiting| ==> waiting[i] == |answers| + i)
  }

  // ---------------------------------------------------------------- the invariant

  predicate QueueShape(s: Stream) {
    && s.total == SumSizes(s.queue)
    && (forall i :: 0 <= i < |s.queue| ==> s.queue[i].size >= 0.0)
  }

  /** A waiting read means an empty queue; a requested close means a non-empty one. */
  predicate Control(s: Stream) {
    && (Waiting(s) != [] ==> s.state == Readable && s.queue == [])
    && (s.state == Readable && s.closeRequested ==> s.queue != [])
    && (s.state != Readable ==> s.queue == [])
    && (s.cleared <==> s.state != Readable)
    && (s.reader.Some? && s.state == Readable ==> s.reader.value.open)
    && (s.startPending ==> !s.started) && (s.pullPending ==> s.pulling) && (s.pulling ==> s.started)
    && (s.pullAgain ==> s.pulling)
    && s.cancels <= 1 && (s.cancels == 1 ==> s.state == Closed)
  }

  /** Answers and queue together are what was enqueued, in order. */
  predicate Order(s: Stream) {
    && ReadsInOrder(s.answers, Waiting(s), s.asked)
    && ValuesFirst(s.answers)
    && (s.state == Readable ==> AllValues(s.answers))
    && (s.state != Errored && s.cancels == 0 ==> Received(s.answers) + Chunks(s.queue) == s.enqueued)
    && Received(s.answers) <= s.enqueued
  }

  predicate Inv(s: Stream) {
    QueueShape(s) && Control(s) && Order(s) && s.faults == 0
  }

  // ---------------------------------------------------------------- sequences

  lemma ReceivedSnoc(answers: seq<Answer>, a: Answer)
    ensures Received(answers + [a]) == Received(answers) + if a.result.Value? then [a.result.chunk] else []
  {
    assert (answers + [a])[..|answers|] == answers;
  }

  lemma {:induction false} ReceivedNothing(answers: seq<Answer>, more: seq<Answer>)
    requires forall i :: 0 <= i < |more| ==> !more[i].result.Value?
    ensures Received(answers + more) == Received(answers)
    decreases |more|
  {
    if more == [] {
      assert answers + more == answers;
    } else {
      var n := |more| - 1;
      assert answers + more == (answers + more[..n]) + [more[n]];
      ReceivedSnoc(answers + more[..n], more[n]);
      ReceivedNothing(answers, more[..n]);
    }
  }

  /** A chunk for the first waiting read comes after the answers so far. */
  lemma FirstAnswered(answers: seq<Answer>, waiting: seq<Id>, asked: nat, chunk: Chunk)
    requires ReadsInOrder(answers, waiting, asked) && waiting != [] && AllValues(answers)
    ensures var more := answers + [Answer(waiting[0], Value(chunk))];
      ReadsInOrder(more, waiting[1..], asked) && AllValues(more) && ValuesFirst(more)
  {
  }

  /** An immediate answer is in order because no read waits. */
  lemma AnsweredAtOnce(answers: seq<Answer>, asked: nat, result: ReadResult)
    requires ReadsInOrder(answers, [], asked) && ValuesFirst(answers) && (result.Value? ==> AllValues(answers))
    ensures var more := answers + [Answer(asked, result)];
      ReadsInOrder(more, [], asked + 1) && ValuesFirst(more) && (result.Value? ==> AllValues(more))
  {
  }

  // ---------------------------------------------------------------- steps

  lemma PullKeeps(s: Stream)
    requires Inv(s)
    ensures Inv(CallPullIfNeeded(s))
  {
    hide Received, SumSizes, ValuesFirst, AllValues, ReadsInOrder;
  }

  /** A readable stream ended with the given result for its waiting reads. */
  function Ended(s: Stream, state: State, result: ReadResult): Stream {
    s.(state := state, answers := s.answers + AnswerAll(Waiting(s), result),
       reader := if s.reader.Some? then Some(Reader([], false)) else None)
  }

  lemma EndResults(s: Stream, e: Reason)
    requires s.state == Readable && (s.reader.Some? ==> s.reader.value.open)
    ensures CloseStream(s) == Ended(s, Closed, Done)
    ensures ErrorStream(s, e) == Ended(s, Errored, Failed(e)).(storedError := e)
  {
    if s.reader.None? {
      assert s.answers + AnswerAll([], Done) == s.answers == s.answers + AnswerAll([], Failed(e));
    }
  }

  lemma EndedOrder(s: Stream, state: State, result: ReadResult)
    requires Order(s) && s.state == Readable && !result.Value? && state != Readable
    ensures var t := Ended(s, state, result);
      && ReadsInOrder(t.answers, Waiting(t), t.asked) && ValuesFirst(t.answers)
      && Received(t.answers) == Received(s.answers)
  {
    ReceivedNothing(s.answers, AnswerAll(Waiting(s), result));
  }

  lemma CloseKeeps(s: Stream)
    requires Inv(s)
    ensures Inv(ControllerClose(s))
  {
    hide Received, SumSizes, AnswerAll, ReadsInOrder, CloseStream, ValuesFirst, AllValues;
    if CanCloseOrEnqueue(s) && s.queue == [] {
      var s1 := s.(closeRequested := true, cleared := true);
      EndResults(s1, Undefined);
      EndedOrder(s1, Closed, Done);
    }
  }

  lemma ErrorKeeps(s: Stream, e: Reason)
    requires Inv(s)
    ensures Inv(ControllerError(s, e))
  {
    hide Received, SumSizes, AnswerAll, ReadsInOrder, ErrorStream, ValuesFirst, AllValues, Chunks;
    if s.state == Readable {
      var s1 := s.(queue := [], total := 0.0, cleared := true);
      EndResults(s1, e);
      EndedOrder(s1.(queue := s.queue), Errored, Failed(e));
      assert SumSizes<Chunk>([]) == 0.0 by { SumEmpty<Chunk>(); }
    }
  }

  lemma ErrorState(s: Stream, e: Reason)
    ensures ControllerError(s, e).state == if s.state == Readable then Errored else s.state
  {
    hide ErrorStream;
  }

  lemma CloseState(s: Stream)
    ensures var t := ControllerClose(s);
      CanCloseOrEnqueue(s) ==> t.closeRequested && t.queue == s.queue && (s.queue == [] ==> t.state == Closed)
  {
  }

  lemma EnqueueKeeps(s: Stream, chunk: Chunk, size: SizeResult)
    requires Inv(s)
    ensures Inv(ControllerEnqueue(s, chunk, size))
  {
    hide Received, SumSizes, CallPullIfNeeded, ControllerError, ReadsInOrder, ValuesFirst, AllValues;
    if CanCloseOrEnqueue(s) {
      if Waiting(s) != [] {
        ReceivedSnoc(s.answers, Answer(Waiting(s)[0], Value(chunk)));
        FirstAnswered(s.answers, Waiting(s), s.asked, chunk);
        assert Chunks(s.queue) == [];
        PullKeeps(FulfillReadRequest(s, chunk));
      } else if size.Size? && size.size >= 0.0 {
        SumSnoc(s.queue, Entry(chunk, size.size));
        var t := Enqueue(s, chunk, size.size);
        assert Chunks(t.queue) == Chunks(s.queue) + [chunk];
        PullKeeps(t);
      } else {
        ErrorKeeps(s, if size.SizeThrows? then size.error else RangeError);
      }
    }
  }

  lemma ReadKeeps(s: Stream)
    requires Inv(s) && s.reader.Some?
    ensures Inv(Read(s))
  {
    hide Received, SumSizes, CallPullIfNeeded, CloseStream, ValuesFirst, AllValues, Chunks;
    var s1 := s.(asked := s.asked + 1);
    if s.state == Closed {
      ReceivedSnoc(s.answers, Answer(s.asked, Done));
      AnsweredAtOnce(s.answers, s.asked, Done);
    } else if s.state == Errored {
      ReceivedSnoc(s.answers, Answer(s.asked, Failed(s.storedError)));
      AnsweredAtOnce(s.answers, s.asked, Failed(s.storedError));
    } else if s.queue == [] {
      PullKeeps(AddReadRequest(s1, s.asked));
    } else {
      ReadQueued(s);
    }
  }

  /** A read that takes the head of the queue. */
  /** Taking the head off a queue whose total is exact leaves an exact total. */
  lemma DequeueHead(s: Stream)
    requires QueueShape(s) && s.queue != []
    ensures Dequeue(s) == s.(queue := s.queue[1..], total := SumSizes(s.queue[1..]))
  {
    assert s.total == s.queue[0].size + SumSizes(s.queue[1..]) by { SumHead(s.queue); }
    SumNonNegative(s.queue[1..]);
  }

  lemma ReadQueued(s: Stream)
    requires Inv(s) && s.reader.Some? && s.state == Readable && s.queue != []
    ensures Inv(Read(s))
  {
    hide Received, SumSizes, Dequeue, CallPullIfNeeded, CloseStream, AnswerAll, ReadsInOrder, ValuesFirst, AllValues;
    var answer := Answer(s.asked, Value(s.queue[0].value));
    var s2 := s.(asked := s.asked + 1, queue := s.queue[1..], total := SumSizes(s.queue[1..]));
    DequeueHead(s.(asked := s.asked + 1));
    var answered := s2.(answers := s.answers + [answer]);
    ReceivedSnoc(s.answers, answer);
    AnsweredAtOnce(s.answers, s.asked, answer.result);
    assert Chunks(s.queue) == [answer.result.chunk] + Chunks(s.queue[1..]);
    if s2.closeRequested && s2.queue == [] {
      var s3 := s2.(cleared := true);
      EndResults(s3, Undefined);
      assert Ended(s3, Closed, Done).answers == s.answers;
      assert SumSizes<Chunk>([]) == 0.0 by { SumEmpty<Chunk>(); }
    } else {
      assert Inv(answered);
      PullKeeps(answered);
      PullCommutes(s2, answered.answers);
    }
  }

  /** Asking the source for more does not look at the answers. */
  lemma PullCommutes(s: Stream, answers: seq<Answer>)
    ensures CallPullIfNeeded(s).(answers := answers) == CallPullIfNeeded(s.(answers := answers))
    ensures CallPullIfNeeded(s).answers == s.answers
  {
  }

  lemma CancelKeeps(s: Stream)
    requires Inv(s)
    ensures Inv(Cancel(s))
  {
    hide Received, SumSizes, CloseStream, AnswerAll, Chunks, ValuesFirst, AllValues, ReadsInOrder;
    if s.state == Readable {
      EndResults(s, Undefined);
      EndedOrder(s, Closed, Done);
      assert SumSizes<Chunk>([]) == 0.0 by { SumEmpty<Chunk>(); }
    }
  }

  /** A chunk goes to the read that has waited longest, or to the end of the queue. */
  predicate Delivered(s: Stream, chunk: Chunk, size: SizeResult, t: Stream) {
    CanCloseOrEnqueue(s) ==>
      if Waiting(s) != [] then
        t.answers == s.answers + [Answer(Waiting(s)[0], Value(chunk))] && Waiting(t) == Waiting(s)[1..] && t.queue == s.queue
      else if size.Size? && size.size >= 0.0 then
        t.answers == s.answers && t.queue == s.queue + [Entry(chunk, size.size)]
      else
        t.state == Errored && t.queue == []
  }

  lemma EnqueueDelivers(s: Stream, chunk: Chunk, size: SizeResult)
    ensures Delivered(s, chunk, size, ControllerEnqueue(s, chunk, size))
  {
    hide CallPullIfNeeded, ControllerError, AnswerAll;
    if CanCloseOrEnqueue(s) {
      if Waiting(s) != [] {
        PullLeaves(FulfillReadRequest(s, chunk));
      } else if size.Size? && size.size >= 0.0 {
        PullLeaves(Enqueue(Assert(s, !s.cleared), chunk, size.size));
      } else {
        ErrorLeavesNothing(s, if size.SizeThrows? then size.error else RangeError);
      }
    }
  }

  lemma PullLeaves(s: Stream)
    ensures var t := CallPullIfNeeded(s); t.answers == s.answers && t.queue == s.queue && Waiting(t) == Waiting(s)
  {
  }

  lemma ErrorLeavesNothing(s: Stream, e: Reason)
    requires s.state == Readable
    ensures var t := ControllerError(s, e); t.state == Errored && t.queue == []
  {
    hide AnswerAll;
  }

  /** Read `id` gets the head of the queue, or waits behind the others, or learns how the stream ended. */
  predicate Answered(s: Stream, id: Id, t: Stream) {
    if s.state == Closed then t.answers == s.answers + [Answer(id, Done)]
    else if s.state == Errored then t.answers == s.answers + [Answer(id, Failed(s.storedError))]
    else if s.queue != [] then
      t.answers == s.answers + [Answer(id, Value(s.queue[0].value))] && t.queue == s.queue[1..]
    else t.answers == s.answers && Waiting(t) == Waiting(s) + [id]
  }

  lemma ReadAnswers(s: Stream)
    requires Inv(s) && s.reader.Some?
    ensures Answered(s, s.asked, Read(s))
  {
    hide CallPullIfNeeded, CloseStream, AnswerAll, Received, SumSizes, ReadsInOrder, ValuesFirst, AllValues;
    if s.state == Readable {
      if s.queue == [] {
        PullLeaves(AddReadRequest(s.(asked := s.asked + 1), s.asked));
      } else {
        var s2 := Dequeue(s.(asked := s.asked + 1));
        PullLeaves(s2);
        EndResults(s2.(cleared := true), Undefined);
        assert s2.answers + [] == s2.answers;
      }
    }
  }

  lemma CancelLeaves(s: Stream)
    requires Inv(s)
    ensures var t := Cancel(s); t.state != Readable && t.queue == [] && Waiting(t) == []
  {
    hide Received, SumSizes, CloseStream, AnswerAll, Chunks, ValuesFirst, AllValues, ReadsInOrder;
    if s.state == Readable {
      EndResults(s, Undefined);
    }
  }

  lemma ReactionKeeps(s: Stream, outcome: Outcome)
    requires Inv(s)
    ensures s.startPending ==> Inv(StartDone(s, outcome))
    ensures s.pullPending ==> Inv(PullDone(s, outcome))
  {
    hide Received, SumSizes, CallPullIfNeeded, ControllerError, Chunks, ValuesFirst, AllValues, ReadsInOrder;
    if outcome.Rejected? {
      ErrorKeeps(s.(startPending := false), outcome.reason);
      ErrorKeeps(s.(pullPending := false), outcome.reason);
    } else {
      if s.startPending {
        PullKeeps(s.(startPending := false, started := true));
      }
      PullKeeps(s.(pullPending := false, pulling := false, pullAgain := false));
    }
  }

  lemma StepKeeps(s: Stream, e: Event)
    requires Inv(s)
    ensures Inv(Step(s, e))
  {
    hide Inv, ControllerEnqueue, ControllerClose, ControllerError, Read, Cancel, StartDone, PullDone;
    match e
    case DoEnqueue(chunk, size) => EnqueueKeeps(s, chunk, size);
    case DoClose => CloseKeeps(s);
    case DoError(reason) => ErrorKeeps(s, reason);
    case DoRead => if s.reader.Some? { ReadKeeps(s); }
    case DoCancel => CancelKeeps(s);
    case DoAcquireReader => ReaderKeeps(s);
    case DoReleaseReader => ReaderKeeps(s);
    case OnStart(outcome) => ReactionKeeps(s, outcome);
    case OnPull(outcome) => ReactionKeeps(s, outcome);
  }

  lemma ReaderKeeps(s: Stream)
    requires Inv(s)
    ensures Inv(AcquireReader(s)) && Inv(ReleaseReader(s))
  {
    hide Received, SumSizes, Chunks, ValuesFirst, AllValues, ReadsInOrder;
  }

  lemma {:induction false} Reachable(hwm: HighWaterMark, events: seq<Event>)
    ensures Inv(Run(hwm, events))
  {
    hide Inv, Step, Init;
    if events == [] {
      InitInv(hwm);
    } else {
      Reachable(hwm, events[..|events| - 1]);
      StepKeeps(Run(hwm, events[..|events| - 1]), events[|events| - 1]);
    }
  }

  lemma InitInv(hwm: HighWaterMark)
    ensures Inv(Init(hwm))
  {
    assert Received([]) == [] && Chunks([]) == [];
  }

  // ---------------------------------------------------------------- what the consumer sees

  /** Answered and waiting reads are the reads in the order they were made, no assertion fails, and
      a read that waits finds the queue empty. */
  lemma ReadsAnsweredInOrder(hwm: HighWaterMark, events: seq<Event>, i: nat)
    requires i < Run(hwm, events).asked
    ensures var s := Run(hwm, events);
      && s.faults == 0
      && (i < |s.answers| ==> s.answers[i].id == i)
      && (i >= |s.answers| ==> |Waiting(s)| == s.asked - |s.answers| && Waiting(s)[i - |s.answers|] == i && s.queue == [])
  {
    hide Run, Received, ValuesFirst, AllValues;
    Reachable(hwm, events);
  }

  /** The i-th read gets the i-th chunk enqueued, or an end: ends come only after chunks, and, unless
      cancelled, only after all of them. */
  lemma FirstInFirstOut(hwm: HighWaterMark, events: seq<Event>, i: nat)
    requires i < |Run(hwm, events).answers|
    ensures var s := Run(hwm, events); var a := s.answers[i];
      && a.id == i
      && (a.result.Value? ==> i < |s.enqueued| && a.result.chunk == s.enqueued[i])
      && (a.result.Done? && s.state == Closed && s.cancels == 0 ==> Received(s.answers) == s.enqueued)
      && (!a.result.Value? ==> s.state != Readable && forall j :: i <= j < |s.answers| ==> !s.answers[j].result.Value?)
  {
    hide Run;
    Reachable(hwm, events);
    var s := Run(hwm, events);
    if s.answers[i].result.Value? {
      NthReceived(s.answers, i);
    }
    assert s.state == Closed ==> Chunks(s.queue) == [];
  }

  /** With chunks first, the i-th answer is the i-th chunk received. */
  lemma {:induction false} NthReceived(answers: seq<Answer>, i: nat)
    requires ValuesFirst(answers) && i < |answers| && answers[i].result.Value?
    ensures i < |Received(answers)| && Received(answers)[i] == answers[i].result.chunk
    decreases |answers|
  {
    var n := |answers| - 1;
    var init := answers[..n];
    if i < n {
      assert ValuesFirst(init) && init[i] == answers[i];
      NthReceived(init, i);
    } else {
      assert forall j :: 0 <= j < n ==> answers[j].result.Value?;
      AllReceived(init);
    }
  }

  lemma {:induction false} AllReceived(answers: seq<Answer>)
    requires AllValues(answers)
    ensures |Received(answers)| == |answers|
    decreases |answers|
  {
    if answers != [] {
      AllReceived(answers[..|answers| - 1]);
    }
  }
}
