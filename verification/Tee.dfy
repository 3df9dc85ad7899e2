/** `readableStreamTee` of `lib/streams.js`: two branches fed from one source reader. */
module Tee {
  import opened Common
  import opened StreamValues
  import opened ReadableStream
  import opened ReadableStreamSafety

  datatype Branch = One | Two

  /** The closure variables of the tee with its two branches.  `reading`: a read of the source is
      outstanding. */
  datatype TeeState = TeeState(
    branch1: Stream,
    branch2: Stream,
    reading: bool,
    canceled1: bool,
    canceled2: bool,
    reason1: Reason,
    reason2: Reason,
    // history
    sourceReads: nat,
    chunks: seq<Chunk>,
    ended: bool,
    failed: bool,
    sourceCancels: seq<(Reason, Reason)>)

  function Get(t: TeeState, b: Branch): Stream {
    if b == One then t.branch1 else t.branch2
  }

  function Canceled(t: TeeState, b: Branch): bool {
    if b == One then t.canceled1 else t.canceled2
  }

  /** The shared pull algorithm: at most one source read at a time. */
  function Pull(t: TeeState): TeeState {
    if t.reading then t else t.(reading := true, sourceReads := t.sourceReads + 1)
  }

  /** Branch `b` becomes `s`; if the operation on it called its pull algorithm, that runs now. */
  function Update(t: TeeState, b: Branch, s: Stream): TeeState {
    var t1 := if b == One then t.(branch1 := s) else t.(branch2 := s);
    if s.pulls > Get(t, b).pulls then Pull(t1) else t1
  }

  /** A branch is a stream with the default strategy. */
  function BranchInit(): Stream { Init(Finite(1.0)) }

  function TeeInit(): TeeState {
    TeeState(BranchInit(), BranchInit(), false, false, false, Undefined, Undefined, 0, [], false, false, [])
  }

  function Feed(t: TeeState, b: Branch, chunk: Chunk): TeeState {
    if Canceled(t, b) then t else Update(t, b, ControllerEnqueue(Get(t, b), chunk, Size(1.0)))
  }

  function Finish(t: TeeState, b: Branch): TeeState {
    if Canceled(t, b) then t else Update(t, b, ControllerClose(Get(t, b)))
  }

  /** The outstanding source read answers with a chunk.  Feeding the first branch may already start
      the next source read before the second branch is fed. */
  function SourceChunk(t: TeeState, chunk: Chunk): TeeState {
    var t1 := t.(reading := false, chunks := t.chunks + [chunk]);
    Feed(Feed(t1, One, chunk), Two, chunk)
  }

  function SourceDone(t: TeeState): TeeState {
    Finish(Finish(t.(reading := false, ended := true), One), Two)
  }

  /** The source reader's closed promise rejects. */
  function SourceError(t: TeeState, e: Reason): TeeState {
    var t1 := t.(failed := true);
    t1.(branch1 := ControllerError(t1.branch1, e), branch2 := ControllerError(t1.branch2, e))
  }

  function NoteCancel(t: TeeState, b: Branch, reason: Reason): TeeState {
    var t1 := if b == One then t.(canceled1 := true, reason1 := reason) else t.(canceled2 := true, reason2 := reason);
    if t1.canceled1 && t1.canceled2 then t1.(sourceCancels := t1.sourceCancels + [(t1.reason1, t1.reason2)])
    else t1
  }

  /** Cancelling a readable branch runs its cancel algorithm; the second one cancels the source. */
  function CancelBranch(t: TeeState, b: Branch, reason: Reason): TeeState {
    if Get(t, b).state != Readable then t
    else
      NoteCancel(Update(t, b, Cancel(Get(t, b))), b, reason)
  }

  datatype Event =
    | OnBranch(b: Branch, op: ReadableStream.Event)
    | OnSourceChunk(chunk: Chunk)
    | OnSourceDone
    | OnSourceError(e: Reason)
    | DoCancelBranch(b: Branch, reason: Reason)

  /** What a consumer or the job queue may do to a branch directly. */
  predicate BranchOp(op: ReadableStream.Event) {
    op.DoRead? || op.DoAcquireReader? || op.DoReleaseReader?
    || op == OnStart(Fulfilled) || op == OnPull(Fulfilled)
  }

  function Step(t: TeeState, e: Event): TeeState {
    match e
    case OnBranch(b, op) => if BranchOp(op) then Update(t, b, ReadableStream.Step(Get(t, b), op)) else t
    case OnSourceChunk(chunk) => if t.reading && !t.ended && !t.failed then SourceChunk(t, chunk) else t
    case OnSourceDone => if t.reading && !t.failed then SourceDone(t) else t
    case OnSourceError(e) => if !t.ended && !t.failed then SourceError(t, e) else t
    case DoCancelBranch(b, reason) => CancelBranch(t, b, reason)
  }

  function Run(events: seq<Event>): TeeState {
    if events == [] then TeeInit() else Step(Run(events[..|events| - 1]), events[|events| - 1])
  }

  // ---------------------------------------------------------------- the invariant

  /** A branch wants data. */
  predicate Demand(s: Stream) { ShouldCallPull(s) }

  /** A branch's pull promise never rejects, so a branch that is pulling has a reaction due. */
  predicate ReactionDue(s: Stream) { s.pulling ==> s.pullPending }

  predicate BranchInv(t: TeeState, b: Branch) {
    var s := Get(t, b);
    && Inv(s) && ReactionDue(s)
    && (Canceled(t, b) <==> s.cancels == 1)
    // an untouched branch has received every chunk of the source, and ends when the source ends
    && s.enqueued <= t.chunks
    && (!Canceled(t, b) && !t.failed ==>
          && s.enqueued == t.chunks && s.closeRequested == t.ended
          && s.state != Errored && (s.state == Closed ==> t.ended))
    // demand is never forgotten
    && (Demand(s) ==> t.reading || s.pullAgain)
  }

  predicate TeeInv(t: TeeState) {
    && BranchInv(t, One) && BranchInv(t, Two)
    && (t.sourceCancels == if t.canceled1 && t.canceled2 then [(t.reason1, t.reason2)] else [])
  }

  // ---------------------------------------------------------------- operations on one branch

  /** After the operation, demand has been answered with a pull or noted for later. */
  predicate Served(s: Stream, t: Stream) {
    Demand(t) ==> t.pullAgain || t.pulls > s.pulls
  }

  lemma PullServes(s: Stream)
    ensures var t := CallPullIfNeeded(s);
      && t.pulls >= s.pulls && (Demand(t) ==> t.pullAgain || t.pulls > s.pulls) && (ReactionDue(s) ==> ReactionDue(t))
      && t.enqueued == s.enqueued && t.closeRequested == s.closeRequested && t.cancels == s.cancels && t.state == s.state
  {
  }

  lemma EnqueueServes(s: Stream, chunk: Chunk)
    requires Inv(s) && CanCloseOrEnqueue(s)
    ensures var t := ControllerEnqueue(s, chunk, Size(1.0));
      && Inv(t) && t.pulls >= s.pulls && Served(s, t) && (ReactionDue(s) ==> ReactionDue(t))
      && t.enqueued == s.enqueued + [chunk] && t.closeRequested == s.closeRequested && t.cancels == s.cancels && t.state == s.state
  {
    hide CallPullIfNeeded, Inv, Demand;
    EnqueueKeeps(s, chunk, Size(1.0));
    if Waiting(s) != [] {
      PullServes(FulfillReadRequest(s, chunk));
    } else {
      assert !s.cleared by { Unclear(s); }
      PullServes(ReadableStream.Enqueue(s, chunk, 1.0));
    }
  }

  lemma Unclear(s: Stream)
    requires Inv(s) && s.state == Readable
    ensures !s.cleared && (s.reader.Some? ==> s.reader.value.open)
  {
  }

  lemma CloseServes(s: Stream)
    requires Inv(s)
    ensures var t := ControllerClose(s);
      && Inv(t) && t.pulls == s.pulls && !Demand(t) && t.enqueued == s.enqueued && t.cancels == s.cancels
      && (ReactionDue(s) ==> ReactionDue(t))
      && (CanCloseOrEnqueue(s) ==> t.closeRequested && t.state != Errored)
      && (!CanCloseOrEnqueue(s) ==> t == s)
  {
    hide Inv, CloseStream, Demand;
    CloseKeeps(s);
    NoDemandWhenClosing(ControllerClose(s));
  }

  lemma CancelServes(s: Stream)
    requires Inv(s) && s.state == Readable
    ensures var t := Cancel(s);
      && Inv(t) && t.pulls == s.pulls && !Demand(t) && t.enqueued == s.enqueued && t.cancels == 1
      && (ReactionDue(s) ==> ReactionDue(t))
      && t.state == Closed
  {
    hide CloseStream, QueueShape, Order, Demand;
    CancelKeeps(s);
    NoDemandWhenClosing(Cancel(s));
  }

  lemma ErrorServes(s: Stream, e: Reason)
    requires Inv(s)
    ensures var t := ControllerError(s, e);
      && Inv(t) && t.pulls == s.pulls && !Demand(t) && t.enqueued == s.enqueued && t.cancels == s.cancels
      && (ReactionDue(s) ==> ReactionDue(t))
  {
    hide ControllerError, Inv, Demand;
    ErrorKeeps(s, e);
    ErrorLeaves(s, e);
    NoDemandWhenClosing(ControllerError(s, e));
  }

  lemma ErrorLeaves(s: Stream, e: Reason)
    ensures var t := ControllerError(s, e);
      && t.state != Readable && t.pulls == s.pulls && t.enqueued == s.enqueued && t.cancels == s.cancels
      && t.pulling == s.pulling && t.pullPending == s.pullPending
  {
    hide ErrorStream;
    if s.state == Readable {
      var s1 := s.(queue := [], total := 0.0, cleared := true);
      var t := ErrorStream(s1, e);
      assert t == s1.(state := Errored, storedError := e, answers := t.answers, reader := t.reader, faults := t.faults);
    }
  }

  /** What a read, a reader change or a reaction does to a branch. */
  predicate Harmless(s: Stream, t: Stream) {
    && Inv(t) && t.pulls >= s.pulls && (ReactionDue(s) ==> ReactionDue(t))
    && (Demand(t) ==> t.pullAgain || t.pulls > s.pulls || (Demand(s) && !s.pullAgain))
    && t.enqueued == s.enqueued && t.closeRequested == s.closeRequested && t.cancels == s.cancels
    && (t.state == s.state || (s.closeRequested && s.state == Readable && t.state == Closed))
  }

  lemma ReadHarmless(s: Stream)
    requires Inv(s) && s.reader.Some?
    ensures Harmless(s, Read(s))
  {
    hide Read, Inv, Harmless;
    if s.state != Readable {
      ReadEndedHarmless(s);
    } else if s.queue == [] {
      ReadWaitingHarmless(s);
    } else {
      ReadQueuedHarmless(s);
    }
  }

  lemma ReadEndedHarmless(s: Stream)
    requires Inv(s) && s.reader.Some? && s.state != Readable
    ensures Harmless(s, Read(s))
  {
    hide Inv, Demand;
    ReadKeeps(s);
    NoDemandWhenClosing(Read(s));
  }

  lemma ReadWaitingHarmless(s: Stream)
    requires Inv(s) && s.reader.Some? && s.state == Readable && s.queue == []
    ensures Harmless(s, Read(s))
  {
    hide CallPullIfNeeded, Inv, Demand;
    ReadKeeps(s);
    PullServes(AddReadRequest(s.(asked := s.asked + 1), s.asked));
  }

  lemma ReadQueuedHarmless(s: Stream)
    requires Inv(s) && s.reader.Some? && s.state == Readable && s.queue != []
    ensures Harmless(s, Read(s))
  {
    hide CallPullIfNeeded, CloseStream, ErrorStream, Inv, Demand, AnswerAll;
    ReadKeeps(s);
    var s2 := Dequeue(s.(asked := s.asked + 1));
    if s2.closeRequested && s2.queue == [] {
      NoDemandWhenClosing(Read(s));
    } else {
      PullServes(s2);
      DemandIgnoresAnswers(CallPullIfNeeded(s2), Read(s).answers);
    }
  }

  lemma NoDemandWhenClosing(s: Stream)
    requires s.closeRequested || s.state != Readable
    ensures !Demand(s)
  {
  }

  lemma DemandIgnoresAnswers(s: Stream, answers: seq<Answer>)
    ensures Demand(s.(answers := answers)) == Demand(s)
  {
  }

  lemma AcquireHarmless(s: Stream)
    requires Inv(s)
    ensures Harmless(s, AcquireReader(s))
  {
    hide Inv, ShouldCallPull;
    ReaderKeeps(s);
    ReaderDemand(s);
  }

  lemma ReleaseHarmless(s: Stream)
    requires Inv(s)
    ensures Harmless(s, ReleaseReader(s))
  {
    hide Inv, ShouldCallPull;
    ReaderKeeps(s);
    ReaderDemand(s);
  }

  lemma ReaderDemand(s: Stream)
    ensures Demand(AcquireReader(s)) || Demand(ReleaseReader(s)) ==> Demand(s)
  {
    hide HasRoom;
  }

  lemma ReactionHarmless(s: Stream)
    requires Inv(s)
    ensures s.startPending ==> Harmless(s, StartDone(s, Fulfilled))
    ensures s.pullPending ==> Harmless(s, PullDone(s, Fulfilled))
  {
    hide Inv, CallPullIfNeeded;
    ReactionKeeps(s, Fulfilled);
    PullServes(Assert(s.(startPending := false, started := true), !s.pulling && !s.pullAgain));
    PullServes(s.(pullPending := false, pulling := false, pullAgain := false));
  }

  lemma OpHarmless(s: Stream, op: ReadableStream.Event)
    requires Inv(s) && BranchOp(op)
    ensures Harmless(s, ReadableStream.Step(s, op))
  {
    hide Inv, Read, StartDone, PullDone, AcquireReader, ReleaseReader, Demand;
    match op
    case DoRead => if s.reader.Some? { ReadHarmless(s); }
    case DoAcquireReader => AcquireHarmless(s);
    case DoReleaseReader => ReleaseHarmless(s);
    case OnStart(_) => ReactionHarmless(s);
    case OnPull(_) => ReactionHarmless(s);
  }

  // ---------------------------------------------------------------- steps of the tee

  function Other(b: Branch): Branch { if b == One then Two else One }

  /** Everything but branch `b` and the reading flag stays. */
  predicate SameElsewhere(t: TeeState, u: TeeState, b: Branch) {
    && Get(u, Other(b)) == Get(t, Other(b))
    && (t.reading ==> u.reading)
    && u.canceled1 == t.canceled1 && u.canceled2 == t.canceled2 && u.reason1 == t.reason1 && u.reason2 == t.reason2
    && u.chunks == t.chunks && u.ended == t.ended && u.failed == t.failed && u.sourceCancels == t.sourceCancels
  }

  lemma UpdateEffect(t: TeeState, b: Branch, s: Stream)
    ensures var u := Update(t, b, s);
      && Get(u, b) == s && SameElsewhere(t, u, b)
      && (s.pulls > Get(t, b).pulls ==> u.reading)
  {
    if b == One {
      var t1 := t.(branch1 := s);
      assert SameElsewhere(t, t1, b) && SameElsewhere(t, Pull(t1), b);
    } else {
      var t1 := t.(branch2 := s);
      assert SameElsewhere(t, t1, b) && SameElsewhere(t, Pull(t1), b);
    }
  }

  lemma OpKeeps(t: TeeState, b: Branch, op: ReadableStream.Event)
    requires TeeInv(t) && BranchOp(op)
    ensures TeeInv(Update(t, b, ReadableStream.Step(Get(t, b), op)))
  {
    hide Inv, ReadableStream.Step, Update, Demand;
    var s := ReadableStream.Step(Get(t, b), op);
    OpHarmless(Get(t, b), op);
    UpdateEffect(t, b, s);
  }

  lemma FeedKeeps(t: TeeState, b: Branch, chunk: Chunk)
    requires Inv(Get(t, b)) && (!Canceled(t, b) ==> CanCloseOrEnqueue(Get(t, b)))
    requires Canceled(t, b) <==> Get(t, b).cancels == 1
    ensures var u := Feed(t, b, chunk);
      && SameElsewhere(t, u, b) && Inv(Get(u, b)) && Get(u, b).cancels == Get(t, b).cancels
      && (ReactionDue(Get(t, b)) ==> ReactionDue(Get(u, b)))
      && (Demand(Get(u, b)) ==> u.reading || Get(u, b).pullAgain)
      && Get(u, b).closeRequested == Get(t, b).closeRequested && Get(u, b).state == Get(t, b).state
      && Get(u, b).enqueued == Get(t, b).enqueued + if Canceled(t, b) then [] else [chunk]
  {
    hide Inv, Update, Demand, ControllerEnqueue;
    if Canceled(t, b) {
      CanceledIsClosed(Get(t, b));
      NoDemandWhenClosing(Get(t, b));
      assert Get(t, b).enqueued + [] == Get(t, b).enqueued;
    } else {
      EnqueueServes(Get(t, b), chunk);
      UpdateEffect(t, b, ControllerEnqueue(Get(t, b), chunk, Size(1.0)));
    }
  }

  lemma CanceledIsClosed(s: Stream)
    requires Inv(s) && s.cancels == 1
    ensures s.state == Closed
  {
  }

  lemma ChunkKeeps(t: TeeState, chunk: Chunk)
    requires TeeInv(t) && t.reading && !t.ended && !t.failed
    ensures TeeInv(SourceChunk(t, chunk))
  {
    hide Inv, Feed, Demand;
    var t1 := t.(reading := false, chunks := t.chunks + [chunk]);
    FeedKeeps(t1, One, chunk);
    var t2 := Feed(t1, One, chunk);
    FeedKeeps(t2, Two, chunk);
  }

  lemma FinishKeeps(t: TeeState, b: Branch)
    requires Inv(Get(t, b)) && (!Canceled(t, b) && !t.failed ==> Get(t, b).state != Errored)
    requires Canceled(t, b) <==> Get(t, b).cancels == 1
    ensures var u := Finish(t, b);
      && SameElsewhere(t, u, b) && Inv(Get(u, b)) && Get(u, b).cancels == Get(t, b).cancels && !Demand(Get(u, b))
      && (ReactionDue(Get(t, b)) ==> ReactionDue(Get(u, b)))
      && Get(u, b).enqueued == Get(t, b).enqueued
      && (!Canceled(t, b) && !t.failed ==> Get(u, b).state != Errored && (Get(u, b).closeRequested || Get(u, b) == Get(t, b)))
      && (!Canceled(t, b) && CanCloseOrEnqueue(Get(t, b)) ==> Get(u, b).closeRequested)
  {
    hide Inv, Update, Demand, ControllerClose;
    if Canceled(t, b) {
      CanceledIsClosed(Get(t, b));
      NoDemandWhenClosing(Get(t, b));
    } else {
      CloseServes(Get(t, b));
      UpdateEffect(t, b, ControllerClose(Get(t, b)));
    }
  }

  lemma DoneKeeps(t: TeeState)
    requires TeeInv(t) && t.reading && !t.failed
    ensures TeeInv(SourceDone(t))
  {
    hide Inv, Finish, Demand;
    var t1 := t.(reading := false, ended := true);
    FinishKeeps(t1, One);
    FinishKeeps(Finish(t1, One), Two);
  }

  lemma ErrorBothKeeps(t: TeeState, e: Reason)
    requires TeeInv(t)
    ensures TeeInv(SourceError(t, e))
  {
    hide Inv, Demand, ControllerError;
    ErrorServes(t.branch1, e);
    ErrorServes(t.branch2, e);
  }

  lemma ErrorEndsBoth(t: TeeState, e: Reason)
    ensures var u := SourceError(t, e); u.branch1.state != Readable && u.branch2.state != Readable
  {
    hide ControllerError;
    ErrorLeaves(t.branch1, e);
    ErrorLeaves(t.branch2, e);
  }

  lemma CancelBranchKeeps(t: TeeState, b: Branch, reason: Reason)
    requires TeeInv(t)
    ensures TeeInv(CancelBranch(t, b, reason))
  {
    hide Inv, Demand, Cancel, Update;
    var s := Get(t, b);
    if s.state == Readable {
      CancelServes(s);
      UpdateEffect(t, b, Cancel(s));
      assert !Canceled(t, b) by { if Canceled(t, b) { CanceledIsClosed(s); } }
    }
  }

  lemma StepKeepsTee(t: TeeState, e: Event)
    requires TeeInv(t)
    ensures TeeInv(Step(t, e))
  {
    hide TeeInv, Update, SourceChunk, SourceDone, SourceError, CancelBranch, ReadableStream.Step;
    match e
    case OnBranch(b, op) => if BranchOp(op) { OpKeeps(t, b, op); }
    case OnSourceChunk(chunk) => if t.reading && !t.ended && !t.failed { ChunkKeeps(t, chunk); }
    case OnSourceDone => if t.reading && !t.failed { DoneKeeps(t); }
    case OnSourceError(e) => if !t.ended && !t.failed { ErrorBothKeeps(t, e); }
    case DoCancelBranch(b, reason) => CancelBranchKeeps(t, b, reason);
  }

  lemma {:induction false} TeeReachable(events: seq<Event>)
    ensures TeeInv(Run(events))
  {
    hide TeeInv, Step, TeeInit;
    if events == [] {
      TeeInitInv();
    } else {
      TeeReachable(events[..|events| - 1]);
      StepKeepsTee(Run(events[..|events| - 1]), events[|events| - 1]);
    }
  }

  lemma TeeInitInv()
    ensures TeeInv(TeeInit())
  {
    hide Inv;
    InitInv(Finite(1.0));
  }

  // ---------------------------------------------------------------- what the branches receive

  /** Over every run: an uncancelled branch of a source without error has been given exactly the
      chunks read from the source, whatever happened to the other branch; what its consumer
      received and what is queued for it are that sequence. */
  lemma BranchReceivesSource(events: seq<Event>, b: Branch)
    ensures var t := Run(events);
      var s := Get(t, b);
      && Received(s.answers) <= t.chunks
      && (!Canceled(t, b) && !t.failed ==> Received(s.answers) + Chunks(s.queue) == t.chunks)
      && (!Canceled(t, b) && !t.failed && s.state == Closed ==> t.ended && Received(s.answers) == t.chunks)
  {
    hide Run;
    TeeReachable(events);
    var s := Get(Run(events), b);
    assert s.state == Closed ==> s.queue == [] && Chunks(s.queue) == [];
    PrefixTransitive(Received(s.answers), s.enqueued, Run(events).chunks);
  }

  /** Over every run: read `i` of either branch, if it has its answer, got chunk `i` of the source or an
      end, and the answered reads are the first ones made. */
  lemma BranchReadGetsChunk(events: seq<Event>, b: Branch, i: nat)
    requires i < |Get(Run(events), b).answers|
    ensures var t := Run(events); var a := Get(t, b).answers[i];
      a.id == i && (a.result.Value? ==> i < |t.chunks| && a.result.chunk == t.chunks[i])
  {
    hide Run, ShouldCallPull;
    TeeReachable(events);
    var s := Get(Run(events), b);
    if s.answers[i].result.Value? {
      NthReceived(s.answers, i);
      PrefixTransitive(Received(s.answers), s.enqueued, Run(events).chunks);
    }
  }

  lemma PrefixTransitive(a: seq<Chunk>, b: seq<Chunk>, c: seq<Chunk>)
    requires a <= b && b <= c
    ensures a <= c
  {
  }

  /** The source is cancelled at most once, exactly when both branches are, with the reasons in
      branch order. */
  lemma SourceCanceledOnce(events: seq<Event>)
    ensures var t := Run(events);
      t.sourceCancels == if t.canceled1 && t.canceled2 then [(t.reason1, t.reason2)] else []
  {
    hide Run, BranchInv;
    TeeReachable(events);
  }

  /** No read is left hanging: a started branch with a waiting read has a source read under way,
      or its own pull reaction is still due and will start one. */
  lemma NoReadStarves(events: seq<Event>, b: Branch)
    ensures var t := Run(events);
      var s := Get(t, b);
      Waiting(s) != [] && s.started && !s.closeRequested ==> t.reading || (s.pullPending && s.pullAgain)
  {
    hide Run;
    TeeReachable(events);
  }
}
