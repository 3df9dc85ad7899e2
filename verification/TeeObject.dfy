/** The tee in the form of the source: closure variables shared by the algorithms of two branch
    objects.  Each branch is a stream linked to its own controller and reader, so an operation on one
    leaves the other alone. */
module TeeObject {
  import opened Common
  import opened StreamValues
  import opened ReadableStream
  import opened ReadableStreamObject
  import opened Tee

  /** What the source reader has answered and been asked so far. */
  datatype SourceHistory = SourceHistory(
    asked: nat,
    chunks: seq<Chunk>,
    ended: bool,
    failed: bool,
    cancels: seq<(Reason, Reason)>)

  class TeeClosure {
    const branch1: ReadableObject
    const branch2: ReadableObject
    var reading: bool
    var canceled1: bool
    var canceled2: bool
    var reason1: Reason
    var reason2: Reason
    var source: SourceHistory

    ghost predicate Valid()
      reads branch1, branch1.controller, branch1.reader, branch2, branch2.controller, branch2.reader
    {
      branch1 != branch2 && branch1.Valid() && branch2.Valid()
    }

    ghost function View(): (v: TeeState)
      reads this, branch1, branch1.controller, branch1.reader, branch2, branch2.controller, branch2.reader
      ensures v.branch1 == branch1.View() && v.branch2 == branch2.View() && v.reading == reading
      ensures v.canceled1 == canceled1 && v.canceled2 == canceled2 && v.reason1 == reason1 && v.reason2 == reason2
      ensures v.sourceReads == source.asked && v.chunks == source.chunks && v.ended == source.ended
      ensures v.failed == source.failed && v.sourceCancels == source.cancels
    {
      TeeState(branch1.View(), branch2.View(), reading, canceled1, canceled2, reason1, reason2,
               source.asked, source.chunks, source.ended, source.failed, source.cancels)
    }

    constructor ()
      ensures Valid() && View() == TeeInit()
      ensures fresh(branch1) && fresh(branch1.controller) && branch1.reader == null
      ensures fresh(branch2) && fresh(branch2.controller) && branch2.reader == null
    {
      branch1 := new ReadableObject(Finite(1.0));
      branch2 := new ReadableObject(Finite(1.0));
      reading, canceled1, canceled2, reason1, reason2 := false, false, false, Undefined, Undefined;
      source := SourceHistory(0, [], false, false, []);
    }

    /** A branch has the reader it had, or none, or one just acquired. */
    twostate predicate ReadersKept()
      reads branch1, branch2
    {
      && (branch1.reader != null && branch1.reader != old(branch1.reader) ==> fresh(branch1.reader))
      && (branch2.reader != null && branch2.reader != old(branch2.reader) ==> fresh(branch2.reader))
    }

    function Object(b: Branch): ReadableObject {
      if b == One then branch1 else branch2
    }

    /** The pull algorithm of both branches: afterwards exactly one source read is outstanding. */
    method PullAlgorithm()
      modifies this`reading, this`source
      ensures reading && source.asked == old(source.asked) + (if old(reading) then 0 else 1)
      ensures View() == Pull(old(View()))
    {
      hide ReadableObject.View;
      if reading {
        return;
      }
      reading := true;
      source := source.(asked := source.asked + 1);
    }

    method OperateOnOne(op: ReadableStream.Event)
      requires Valid()
      modifies branch1, branch1.controller, branch1.reader
      ensures Valid() && View() == old(View()).(branch1 := ReadableStream.Step(old(View()).branch1, op))
      ensures branch1.reader != null && branch1.reader != old(branch1.reader) ==> fresh(branch1.reader)
    {
      hide ReadableObject.View, ReadableStream.Step;
      branch1.Perform(op);
    }

    method OperateOnTwo(op: ReadableStream.Event)
      requires Valid()
      modifies branch2, branch2.controller, branch2.reader
      ensures Valid() && View() == old(View()).(branch2 := ReadableStream.Step(old(View()).branch2, op))
      ensures branch2.reader != null && branch2.reader != old(branch2.reader) ==> fresh(branch2.reader)
    {
      hide ReadableObject.View, ReadableStream.Step;
      branch2.Perform(op);
    }

    /** An operation on a branch, and the pull algorithm if the branch has called it. */
    method OperateOn(b: Branch, op: ReadableStream.Event)
      requires Valid()
      modifies this`reading, this`source, Object(b), Object(b).controller, Object(b).reader
      ensures Valid() && View() == Update(old(View()), b, ReadableStream.Step(Get(old(View()), b), op))
      ensures Object(b).reader != null && Object(b).reader != old(Object(b).reader) ==> fresh(Object(b).reader)
    {
      hide View, ReadableObject.View, ReadableStream.Step, Pull;
      var before := Object(b).past.pulls;
      if b == One {
        OperateOnOne(op);
      } else {
        OperateOnTwo(op);
      }
      if Object(b).past.pulls > before {
        PullAlgorithm();
      }
    }

    method ReadAnswered(chunk: Chunk)
      modifies this`reading, this`source
      ensures View() == old(View()).(reading := false, chunks := old(View()).chunks + [chunk])
    {
      hide ReadableObject.View;
      reading := false;
      source := source.(chunks := source.chunks + [chunk]);
    }

    method FeedBoth(chunk: Chunk)
      requires Valid()
      modifies this, branch1, branch1.controller, branch1.reader, branch2, branch2.controller, branch2.reader
      ensures Valid() && ReadersKept() && View() == SourceChunk(old(View()), chunk)
    {
      hide View, ReadableObject.View, Update, ReadableStream.ControllerEnqueue;
      ReadAnswered(chunk);
      if !canceled1 {
        OperateOn(One, DoEnqueue(chunk, Size(1.0)));
      }
      if !canceled2 {
        OperateOn(Two, DoEnqueue(chunk, Size(1.0)));
      }
    }

    /** The reaction to a source read that answered with a chunk; the invariant is kept. */
    method OnChunk(chunk: Chunk)
      requires Valid() && reading && !source.ended && !source.failed
      modifies this, branch1, branch1.controller, branch1.reader, branch2, branch2.controller, branch2.reader
      ensures Valid() && ReadersKept()
      ensures var t := old(View()); View() == SourceChunk(t, chunk) && (TeeInv(t) ==> TeeInv(View()))
    {
      hide View, SourceChunk, TeeInv;
      if TeeInv(View()) {
        ChunkKeeps(View(), chunk);
      }
      FeedBoth(chunk);
    }

    method ReadEnded()
      modifies this`reading, this`source
      ensures View() == old(View()).(reading := false, ended := true)
    {
      hide ReadableObject.View;
      reading := false;
      source := source.(ended := true);
    }

    method FinishBoth()
      requires Valid()
      modifies this, branch1, branch1.controller, branch1.reader, branch2, branch2.controller, branch2.reader
      ensures Valid() && ReadersKept() && View() == SourceDone(old(View()))
    {
      hide View, ReadableObject.View, Update, ReadableStream.ControllerClose;
      ReadEnded();
      if !canceled1 {
        OperateOn(One, ReadableStream.DoClose);
      }
      if !canceled2 {
        OperateOn(Two, ReadableStream.DoClose);
      }
    }

    /** The source is at its end: so is each branch that is not cancelled, once it has been read. */
    method OnDone()
      requires Valid() && reading && !source.failed
      modifies this, branch1, branch1.controller, branch1.reader, branch2, branch2.controller, branch2.reader
      ensures Valid() && ReadersKept()
      ensures var t := old(View()); View() == SourceDone(t) && (TeeInv(t) ==> TeeInv(View()))
    {
      hide View, SourceDone, TeeInv;
      if TeeInv(View()) {
        DoneKeeps(View());
      }
      FinishBoth();
    }

    method NoteFailure()
      modifies this`source
      ensures View() == old(View()).(failed := true)
    {
      hide ReadableObject.View;
      source := source.(failed := true);
    }

    method FailBoth(e: Reason)
      requires Valid()
      modifies this, branch1, branch1.controller, branch1.reader, branch2, branch2.controller, branch2.reader
      ensures Valid() && ReadersKept() && View() == SourceError(old(View()), e)
    {
      hide View, ReadableObject.View, ReadableStream.ControllerError;
      NoteFailure();
      OperateOnOne(DoError(e));
      OperateOnTwo(DoError(e));
    }

    /** The source reader's closed promise rejects: neither branch is readable any more. */
    method OnError(e: Reason)
      requires Valid()
      modifies this, branch1, branch1.controller, branch1.reader, branch2, branch2.controller, branch2.reader
      ensures Valid() && ReadersKept() && branch1.state != Readable && branch2.state != Readable
      ensures var t := old(View()); View() == SourceError(t, e) && (TeeInv(t) ==> TeeInv(View()))
    {
      hide View, SourceError, TeeInv;
      ErrorEndsBoth(View(), e);
      if TeeInv(View()) {
        ErrorBothKeeps(View(), e);
      }
      FailBoth(e);
    }

    method NoteCancel(b: Branch, reason: Reason)
      modifies this`canceled1, this`canceled2, this`reason1, this`reason2, this`source
      ensures View() == Tee.NoteCancel(old(View()), b, reason)
    {
      hide ReadableObject.View;
      if b == One {
        canceled1, reason1 := true, reason;
      } else {
        canceled2, reason2 := true, reason;
      }
      if canceled1 && canceled2 {
        source := source.(cancels := source.cancels + [(reason1, reason2)]);
      }
    }

    method CancelAlgorithm(b: Branch, reason: Reason)
      requires Valid()
      modifies this, Object(b), Object(b).controller, Object(b).reader
      ensures Valid() && ReadersKept() && View() == CancelBranch(old(View()), b, reason)
    {
      hide View, ReadableObject.View, Update, Tee.NoteCancel, ReadableStream.Cancel;
      if Object(b).state != Readable {
        return;
      }
      OperateOn(b, DoCancel);
      NoteCancel(b, reason);
    }

    /** Cancels one branch: the other keeps its state, and the source is cancelled with the second. */
    method CancelOne(b: Branch, reason: Reason)
      requires Valid()
      modifies this, Object(b), Object(b).controller, Object(b).reader
      ensures Valid() && ReadersKept()
      ensures var t := old(View()); View() == CancelBranch(t, b, reason) && (TeeInv(t) ==> TeeInv(View()))
    {
      hide View, CancelBranch, TeeInv;
      if TeeInv(View()) {
        CancelBranchKeeps(View(), b, reason);
      }
      CancelAlgorithm(b, reason);
    }

    /** What a consumer or the job queue does to a branch. */
    method UseBranch(b: Branch, op: ReadableStream.Event)
      requires Valid() && BranchOp(op)
      modifies this`reading, this`source, Object(b), Object(b).controller, Object(b).reader
      ensures Valid() && ReadersKept()
      ensures var t := old(View());
        View() == Update(t, b, ReadableStream.Step(Get(t, b), op)) && (TeeInv(t) ==> TeeInv(View()))
    {
      hide View, Update, ReadableStream.Step, TeeInv;
      if TeeInv(View()) {
        OpKeeps(View(), b, op);
      }
      OperateOn(b, op);
    }

    method Perform(e: Tee.Event)
      requires Valid()
      modifies this, branch1, branch1.controller, branch1.reader, branch2, branch2.controller, branch2.reader
      ensures Valid() && ReadersKept()
      ensures var t := old(View()); View() == Tee.Step(t, e) && (TeeInv(t) ==> TeeInv(View()))
    {
      hide View, Update, SourceChunk, SourceDone, SourceError, CancelBranch, ReadableStream.Step, TeeInv;
      match e
      case OnBranch(b, op) => if BranchOp(op) { UseBranch(b, op); }
      case OnSourceChunk(chunk) => if reading && !source.ended && !source.failed { OnChunk(chunk); }
      case OnSourceDone => if reading && !source.failed { OnDone(); }
      case OnSourceError(e) => if !source.ended && !source.failed { OnError(e); }
      case DoCancelBranch(b, reason) => CancelOne(b, reason);
    }
  }

  /** Driving a fresh tee through any events is a run. */
  method Drive(events: seq<Tee.Event>) returns (tee: TeeClosure)
    ensures fresh(tee) && tee.Valid() && tee.View() == Tee.Run(events) && TeeInv(tee.View())
  {
    hide TeeClosure.View, Tee.Step, TeeInit, TeeInv;
    tee := new TeeClosure();
    for k := 0 to |events|
      invariant fresh(tee) && fresh(tee.branch1) && fresh(tee.branch1.controller)
      invariant fresh(tee.branch2) && fresh(tee.branch2.controller)
      invariant tee.branch1.reader != null ==> fresh(tee.branch1.reader)
      invariant tee.branch2.reader != null ==> fresh(tee.branch2.reader)
      invariant tee.Valid() && tee.View() == Tee.Run(events[..k])
    {
      assert events[..k + 1][..k] == events[..k];
      tee.Perform(events[k]);
    }
    assert events[..|events|] == events;
    TeeReachable(events);
  }
}
