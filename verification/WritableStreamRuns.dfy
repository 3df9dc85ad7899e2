/** The promises of the writable stream over whole runs: any requests, in any order, with the
    sink's promises settling in any order. */
module WritableStreamRuns {
  import opened Common
  import opened StreamValues
  import opened WritableStream
  import opened WritableStreamSafety

  // ---------------------------------------------------------------- faults

  /** Step `k` of the run is a second close by the writer, the settlement of an abort seen by a
      writer created after the stream had errored, or a call through a released writer. */
  predicate FaultyStep(hwm: HighWaterMark, events: seq<Event>, k: nat)
    requires k < |events|
  {
    StepFaults(Run(hwm, events[..k]), events[k]) != []
  }

  /** No assertion fails, no cleared sink algorithm and no missing resolver is called and nothing
      is read from `undefined`, exactly when the run avoids the faulty steps. */
  lemma {:induction false} FaultFree(hwm: HighWaterMark, events: seq<Event>)
    ensures Run(hwm, events).faults == [] <==> forall k: nat :: k < |events| ==> !FaultyStep(hwm, events, k)
  {
    hide Step, StepFaults, Init, Inv;
    if events == [] {
      assert Run(hwm, events) == Init(hwm);
      InitFaults(hwm);
    } else {
      var n := |events| - 1;
      var before := events[..n];
      FaultFree(hwm, before);
      Reachable(hwm, before);
      StepKeeps(Run(hwm, before), events[n]);
      forall k: nat | k < n
        ensures FaultyStep(hwm, events, k) == FaultyStep(hwm, before, k)
      {
        assert events[..k] == before[..k];
      }
      assert FaultyStep(hwm, events, n) == (StepFaults(Run(hwm, before), events[n]) != []);
      if forall k: nat :: k < |events| ==> !FaultyStep(hwm, events, k) {
        assert forall k: nat :: k < n ==> !FaultyStep(hwm, before, k);
      }
    }
  }

  lemma InitFaults(hwm: HighWaterMark)
    ensures Init(hwm).faults == []
  {
  }

  /** A call of a cleared sink algorithm never happens, whatever the run. */
  lemma {:induction false} NeverCallsClearedAlgorithm(hwm: HighWaterMark, events: seq<Event>)
    ensures ClearedAlgorithm !in Run(hwm, events).faults
  {
    hide Step, Init, Inv, StepFaults;
    if events == [] {
      InitFaults(hwm);
    } else {
      var before := events[..|events| - 1];
      NeverCallsClearedAlgorithm(hwm, before);
      Reachable(hwm, before);
      StepKeeps(Run(hwm, before), events[|events| - 1]);
      FaultKinds(Run(hwm, before), events[|events| - 1]);
    }
  }

  lemma FaultKinds(s: Stream, e: Event)
    ensures ClearedAlgorithm !in StepFaults(s, e)
  {
    hide SecondClose, LateWriter;
  }

  lemma RunSnoc(hwm: HighWaterMark, events: seq<Event>, e: Event)
    ensures Run(hwm, events + [e]) == Step(Run(hwm, events), e)
  {
    hide Step, Init;
    assert (events + [e])[..|events|] == events;
  }

  /** The writer's second close does break an assertion. */
  lemma SecondCloseWitness()
    ensures Run(Infinite, [] + [DoAcquireWriter] + [DoClose] + [DoClose]).faults == [AssertionFailed]
  {
    hide Run;
    var s0 := Init(Infinite);
    assert Run(Infinite, []) == s0 by { RunEmpty(Infinite); }
    RunSnoc(Infinite, [], DoAcquireWriter);
    RunSnoc(Infinite, [] + [DoAcquireWriter], DoClose);
    RunSnoc(Infinite, [] + [DoAcquireWriter] + [DoClose], DoClose);
    assert SecondClose(Close(AcquireWriter(s0)));
  }

  /** Settling an abort does call a missing `reject` when the writer came too late. */
  lemma LateWriterWitness()
    ensures Run(Infinite, [] + [OnStart(Fulfilled)] + [DoAbort(User(1))] + [DoAcquireWriter] + [OnAbort(Fulfilled)]).faults
      == [MissingHandler]
  {
    hide Run, StartDone, Abort, AbortDone, AcquireWriter;
    assert Run(Infinite, []) == Init(Infinite) by { RunEmpty(Infinite); }
    RunSnoc(Infinite, [], OnStart(Fulfilled));
    StartIdle();
    RunSnoc(Infinite, [] + [OnStart(Fulfilled)], DoAbort(User(1)));
    AbortIdle();
    RunSnoc(Infinite, [] + [OnStart(Fulfilled)] + [DoAbort(User(1))], DoAcquireWriter);
    LateWriterFaults(Abort(StartedIdle(), User(1)));
    RunSnoc(Infinite, [] + [OnStart(Fulfilled)] + [DoAbort(User(1))] + [DoAcquireWriter], OnAbort(Fulfilled));
  }

  /** The three calls through a released writer do break, on any stream that is not locked. */
  lemma StaleWriterWitness(hwm: HighWaterMark, events: seq<Event>)
    requires Run(hwm, events).writer.None?
    ensures var before := Run(hwm, events).faults; var held := events + [DoAcquireWriter] + [DoReleaseWriter];
      && Run(hwm, held + [StaleWrite]).faults == before + [AssertionFailed]
      && Run(hwm, held + [StaleAbort]).faults == before + [AssertionFailed]
      && Run(hwm, held + [StaleClose]).faults == before + [UndefinedRead]
  {
    hide Run, AcquireWriter, ReleaseWriter, StaleCall, StaleClosing;
    var held := events + [DoAcquireWriter] + [DoReleaseWriter];
    StaleFaults(Run(hwm, events));
    RunSnoc(hwm, events, DoAcquireWriter);
    RunSnoc(hwm, events + [DoAcquireWriter], DoReleaseWriter);
    RunSnoc(hwm, held, StaleWrite);
    RunSnoc(hwm, held, StaleAbort);
    RunSnoc(hwm, held, StaleClose);
  }

  lemma StaleFaults(s: Stream)
    requires s.writer.None?
    ensures var t := ReleaseWriter(AcquireWriter(s));
      StaleCall(t).faults == s.faults + [AssertionFailed] && StaleClosing(t).faults == s.faults + [UndefinedRead]
  {
    var t := AcquireWriter(s);
    assert t == s.(writer := t.writer);
  }

  function StartedIdle(): Stream {
    Init(Infinite).(started := true, trace := [StartEnd(true)])
  }

  lemma StartIdle()
    ensures StartDone(Init(Infinite), Fulfilled) == StartedIdle()
  {
  }

  lemma AbortIdle()
    ensures var s := Abort(StartedIdle(), User(1));
      s.abortPending.Some? && s.state == Errored && s.faults == [] && s.writer.None? && s.closeRequest.None?
  {
  }

  lemma LateWriterFaults(s: Stream)
    requires s.abortPending.Some? && s.state == Errored && s.faults == [] && s.writer.None? && s.closeRequest.None?
    ensures AcquireWriter(s).abortPending.Some? && AbortDone(AcquireWriter(s), Fulfilled).faults == [MissingHandler]
  {
  }

  lemma RunEmpty(hwm: HighWaterMark)
    ensures Run(hwm, []) == Init(hwm)
  {
    hide Init;
  }

  // ---------------------------------------------------------------- what the sink sees

  predicate LastCall(e: SinkEvent) { e.CloseStart? || e.AbortStart? }

  predicate IsCall(e: SinkEvent) { e.WriteStart? || LastCall(e) }

  /** A settlement belongs to the call just before it. */
  predicate Ends(call: SinkEvent, end: SinkEvent) {
    || (call.WriteStart? && end.WriteEnd?)
    || (call.CloseStart? && end.CloseEnd?)
    || (call.AbortStart? && end.AbortEnd?)
  }

  /** Start settles first, and only then. */
  predicate StartFirst(trace: seq<SinkEvent>) {
    forall i :: 0 <= i < |trace| ==> (trace[i].StartEnd? <==> i == 0)
  }

  /** Each settlement follows its call, and no call starts before the previous one settled. */
  predicate NoOverlap(trace: seq<SinkEvent>) {
    forall i {:trigger trace[i]} :: 0 < i < |trace| ==>
      if IsCall(trace[i]) then !IsCall(trace[i - 1]) else Ends(trace[i - 1], trace[i])
  }

  /** After a close or an abort there is no further call. */
  predicate OneLastCall(trace: seq<SinkEvent>) {
    forall i, j :: 0 <= i < j < |trace| && LastCall(trace[i]) ==> !IsCall(trace[j])
  }

  /** After a failed start or write there is neither a write nor a close. */
  predicate FailureStops(trace: seq<SinkEvent>) {
    forall i, j :: 0 <= i < j < |trace| && Failure(trace[i]) ==> !trace[j].WriteStart? && !trace[j].CloseStart?
  }

  predicate Failure(e: SinkEvent) { e == WriteEnd(false) || e == StartEnd(false) }

  predicate WellBehaved(trace: seq<SinkEvent>) {
    StartFirst(trace) && NoOverlap(trace) && OneLastCall(trace) && FailureStops(trace)
  }

  /** What the protocol automaton knows about the events it has accepted. */
  predicate Summary(trace: seq<SinkEvent>, p: Protocol) {
    && (p == Starting <==> trace == [])
    && (p == Writing ==> trace[|trace| - 1].WriteStart?)
    && (p == Closing ==> trace[|trace| - 1].CloseStart?)
    && (p == Aborting ==> trace[|trace| - 1].AbortStart?)
    && (p == Idle || p == Failed || p == Over ==> !IsCall(trace[|trace| - 1]))
    && (p == Idle || p == Writing || p == Failed ==> forall i :: 0 <= i < |trace| ==> !LastCall(trace[i]))
    && (p == Idle || p == Writing ==>
          forall i :: 0 <= i < |trace| ==> !Failure(trace[i]))
  }

  lemma {:induction false} ProtocolSummary(trace: seq<SinkEvent>)
    requires Follow(trace) != Violated
    ensures Summary(trace, Follow(trace))
  {
    if trace != [] {
      var n := |trace| - 1;
      ProtocolSummary(trace[..n]);
      assert forall i :: 0 <= i < n ==> trace[i] == trace[..n][i];
    }
  }

  lemma {:induction false} ProtocolMeaning(trace: seq<SinkEvent>)
    requires Follow(trace) != Violated
    ensures WellBehaved(trace)
  {
    hide Summary, StartFirst, NoOverlap, OneLastCall, FailureStops;
    if trace == [] {
      NothingYet();
    } else {
      var n := |trace| - 1;
      ProtocolMeaning(trace[..n]);
      ProtocolSummary(trace[..n]);
      ExtendBehaviour(trace[..n], Follow(trace[..n]), trace[n]);
      assert trace == trace[..n] + [trace[n]];
    }
  }

  lemma NothingYet()
    ensures WellBehaved([])
  {
  }

  lemma ExtendBehaviour(trace: seq<SinkEvent>, p: Protocol, e: SinkEvent)
    requires WellBehaved(trace) && Summary(trace, p) && Next(p, e) != Violated
    ensures WellBehaved(trace + [e])
  {
    hide Summary, Next, NoOverlap, OneLastCall, FailureStops, StartFirst;
    LastStep(trace, p, e);
    assert StartFirst(trace + [e]) by { ExtendStart(trace, e); }
    assert NoOverlap(trace + [e]) by { ExtendOverlap(trace, e); }
    assert OneLastCall(trace + [e]) by { ExtendLast(trace, e); }
    assert FailureStops(trace + [e]) by { ExtendFailure(trace, e); }
  }

  lemma LastStep(trace: seq<SinkEvent>, p: Protocol, e: SinkEvent)
    requires Summary(trace, p) && Next(p, e) != Violated
    ensures e.StartEnd? <==> trace == []
    ensures trace != [] ==>
      if IsCall(e) then !IsCall(trace[|trace| - 1]) else Ends(trace[|trace| - 1], e)
    ensures IsCall(e) ==> forall i :: 0 <= i < |trace| ==> !LastCall(trace[i])
    ensures e.WriteStart? || e.CloseStart? ==> forall i :: 0 <= i < |trace| ==> !Failure(trace[i])
  {
    match p
    case Starting => case Idle => case Writing => case Failed => case Closing => case Aborting => case Over => case Violated =>
  }

  lemma ExtendStart(trace: seq<SinkEvent>, e: SinkEvent)
    requires StartFirst(trace) && (e.StartEnd? <==> trace == [])
    ensures StartFirst(trace + [e])
  {
  }

  lemma ExtendOverlap(trace: seq<SinkEvent>, e: SinkEvent)
    requires NoOverlap(trace)
    requires trace != [] ==>
      if IsCall(e) then !IsCall(trace[|trace| - 1]) else Ends(trace[|trace| - 1], e)
    ensures NoOverlap(trace + [e])
  {
  }

  lemma ExtendLast(trace: seq<SinkEvent>, e: SinkEvent)
    requires OneLastCall(trace) && (IsCall(e) ==> forall i :: 0 <= i < |trace| ==> !LastCall(trace[i]))
    ensures OneLastCall(trace + [e])
  {
  }

  lemma ExtendFailure(trace: seq<SinkEvent>, e: SinkEvent)
    requires FailureStops(trace)
    requires e.WriteStart? || e.CloseStart? ==> forall i :: 0 <= i < |trace| ==> !Failure(trace[i])
    ensures FailureStops(trace + [e])
  {
  }

  /** Over every run the sink sees well-behaved calls, and the chunks it is given are a prefix of
      the accepted chunks in the order of acceptance; close starts only once every accepted
      write has been handed over and fulfilled. */
  lemma SinkTrace(hwm: HighWaterMark, events: seq<Event>)
    ensures var s := Run(hwm, events);
      && WellBehaved(s.trace)
      && Written(s.trace) <= Chunks(s.accepted)
      && (CloseStart in s.trace ==>
            && Written(s.trace) == Chunks(s.accepted)
            && SettledIds(s.writeLog) == AcceptedIds(s.accepted)
            && AllFulfilled(s.writeLog))
  {
    hide Run;
    Reachable(hwm, events);
    ProtocolMeaning(Run(hwm, events).trace);
  }

  // ---------------------------------------------------------------- no request is lost

  /** Every accepted write is settled, in flight or waiting: once, in one place. */
  lemma WriteConserved(hwm: HighWaterMark, events: seq<Event>, i: nat)
    requires i < |Run(hwm, events).accepted|
    ensures var s := Run(hwm, events);
      multiset(SettledIds(s.writeLog) + Opt(s.inFlightWrite) + s.writeRequests)[s.accepted[i].id] == 1
  {
    hide Run;
    Reachable(hwm, events);
    var s := Run(hwm, events);
    assert SettledIds(s.writeLog) + Opt(s.inFlightWrite) + s.writeRequests == AcceptedIds(s.accepted);
    OccursOnce(AcceptedIds(s.accepted), i);
  }

  lemma {:induction false} OccursOnce(ids: seq<Id>, i: nat)
    requires i < |ids| && forall j, k :: 0 <= j < k < |ids| ==> ids[j] < ids[k]
    ensures multiset(ids)[ids[i]] == 1
  {
    assert ids == ids[..i] + [ids[i]] + ids[i + 1..];
    assert ids[i] !in ids[..i] && ids[i] !in ids[i + 1..];
  }

  /** A stream that has ended leaves no write behind; one that closed fulfilled them all. */
  lemma Ended(hwm: HighWaterMark, events: seq<Event>)
    ensures var s := Run(hwm, events);
      && (s.state == Errored || s.state == Closed ==> SettledIds(s.writeLog) == AcceptedIds(s.accepted))
      && (s.state == Closed ==> AllFulfilled(s.writeLog) && Written(s.trace) == Chunks(s.accepted))
  {
    hide Run;
    Reachable(hwm, events);
  }

  /** Nothing is forgotten: once start has settled and no sink promise is outstanding, every
      accepted write, close and abort is settled and the queue is empty. */
  lemma Quiescent(hwm: HighWaterMark, events: seq<Event>)
    ensures var s := Run(hwm, events);
      s.started && !s.writePending && !s.closePending && s.abortPending.None? ==>
        && SettledIds(s.writeLog) == AcceptedIds(s.accepted)
        && SettledIds(s.closeLog) == s.closeAccepted
        && SettledIds(s.abortLog) == s.abortAccepted
        && s.queue == []
  {
    hide Run, Written, Follow, Fresh;
    Reachable(hwm, events);
    var s := Run(hwm, events);
    if s.started && !s.writePending && !s.closePending && s.abortPending.None? && s.state == Writable {
      assert |ExpectedQueue(s)| == 0;
    }
  }

  // ---------------------------------------------------------------- draining

  predicate IsSettlement(s: Stream, e: Event) {
    || (e.OnStart? && !s.started)
    || (e.OnWrite? && s.writePending)
    || (e.OnClose? && s.closePending)
    || (e.OnAbort? && s.abortPending.Some?)
  }

  /** Every settlement of a start or sink promise reduces what the stream owes, which is never
      negative: without new requests a run is over after `Outstanding` settlements. */
  lemma Drains(hwm: HighWaterMark, events: seq<Event>, e: Event)
    requires IsSettlement(Run(hwm, events), e)
    ensures 0 <= Outstanding(Run(hwm, events + [e])) < Outstanding(Run(hwm, events))
  {
    hide Run, Inv, WriteDone, CloseDone, StartDone, AbortDone;
    var s := Run(hwm, events);
    Reachable(hwm, events);
    Reachable(hwm, events + [e]);
    RunSnoc(hwm, events, e);
    NeverNegative(Step(s, e));
    PromisesMatchSlots(s);
    match e
    case OnStart(outcome) => StartDoneKeeps(s, outcome);
    case OnWrite(outcome) =>
      if outcome.Fulfilled? { WriteFulfilledKeeps(s); } else { WriteRejectedKeeps(s, outcome.reason); }
    case OnClose(outcome) =>
      if outcome.Fulfilled? { CloseFulfilledKeeps(s); } else { CloseRejectedKeeps(s, outcome.reason); }
    case OnAbort(outcome) => AbortDoneKeeps(s, outcome);
  }

  lemma NeverNegative(s: Stream)
    requires Inv(s)
    ensures Outstanding(s) >= 0
  {
    hide Slots, QueueShape, WriterShape, TraceShape, WritableShape, Settled, Fresh;
    assert |SettledIds(s.writeLog)| <= |AcceptedIds(s.accepted)|;
    assert |SettledIds(s.closeLog)| <= |s.closeAccepted|;
    assert |SettledIds(s.abortLog)| <= |s.abortAccepted|;
  }

  // ---------------------------------------------------------------- backpressure

  /** While writable and not closing, the flag says whether the queue has reached the high-water
      mark, and an attached writer's ready promise is pending exactly when the flag is set. */
  lemma Backpressure(hwm: HighWaterMark, events: seq<Event>)
    ensures var s := Run(hwm, events);
      s.state == Writable && !CloseQueuedOrInFlight(s) ==>
        && s.total == SumSizes(s.queue)
        && (s.backpressure <==> s.hwm.Finite? && s.hwm.mark - SumSizes(s.queue) <= 0.0)
        && (s.writer.Some? ==> (s.writer.value.ready.ReadyPending? <==> s.backpressure))
  {
    hide Run, Written, Follow, Fresh, InOnePlace, Values, AllFulfilled, SumSizes;
    Reachable(hwm, events);
  }
}
