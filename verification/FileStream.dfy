/** The output file stream of `src/zero_copy_file_stream.cc`: buffers are handed out by `Next`, cut by
    `BackUp`, written by an event loop with partial writes, and the stream is disposed of late.
    `Out` is the stream together with the loop state that can call it back, `Step` one event. */
module FileStream {
  import opened Common

  type Byte = bv8

  const MAX_PIPE_PAGE: nat := 65536

  datatype Buf = Buf(data: seq<Byte>, len: nat, written: nat)

  /** A write that the loop has not reported yet. */
  datatype Request = Request(bytes: seq<Byte>, at: nat)

  datatype Out = Out(
    queue: seq<Buf>,
    writtenCount: nat,
    waitingForWrite: bool,
    waitingForDispose: bool,
    idle: bool,                 // the idle handle runs
    request: Option<Request>,   // the write in flight
    file: seq<Byte>,
    open: bool,                 // the descriptor
    ends: nat,                  // calls of on_end_
    deleted: bool,
    broken: bool)               // a CHECK failed or an empty queue was read

  datatype Event =
    | Next(data: seq<Byte>)     // with what the caller then puts into the buffer
    | BackUp(count: nat)
    | Idle                      // the idle callback
    | Written(n: nat)           // the write callback with a result
    | WriteFailed               // the write callback with an error
    | Dispose

  const INIT := Out([], 0, false, false, false, None, [], true, 0, false, false)

  // ---------------------------------------------------------------- the operations

  function SetWritingForWrite(s: Out, it: bool): (t: Out)
    ensures t == s.(waitingForWrite := it, idle := t.idle)
  {
    if s.waitingForWrite == it then s
    else s.(waitingForWrite := it, idle := it || s.idle)
  }

  /** The part of a buffer that is still to be written. */
  function Rest(b: Buf): seq<Byte> {
    if b.written <= b.len <= |b.data| then b.data[b.written..b.len] else []
  }

  function WriteNext(s: Out): (t: Out)
    ensures t == s.(request := t.request, broken := t.broken)
  {
    if s.queue == [] || !(s.queue[0].written <= s.queue[0].len <= |s.queue[0].data|) then s.(broken := true)
    else s.(request := Some(Request(Rest(s.queue[0]), s.writtenCount)))
  }

  function End(s: Out): Out {
    s.(open := false, ends := s.ends + 1, deleted := true)
  }

  function DoNext(s: Out, data: seq<Byte>): Out {
    if s.waitingForDispose then s.(broken := true)
    else SetWritingForWrite(s.(queue := s.queue + [Buf(data, MAX_PIPE_PAGE, 0)]), true)
  }

  function DoBackUp(s: Out, count: nat): Out {
    var n := |s.queue|;
    if n == 0 || s.queue[n - 1].written != 0 || s.queue[n - 1].len < count then s.(broken := true)
    else s.(queue := s.queue[n - 1 := s.queue[n - 1].(len := s.queue[n - 1].len - count)])
  }

  function DoIdle(s: Out): Out {
    WriteNext(s).(idle := false)
  }

  /** What a write of `bytes` at `at` makes of a file; a gap reads as zeroes. */
  function Overlay(file: seq<Byte>, at: nat, bytes: seq<Byte>): seq<Byte> {
    var padded := if at <= |file| then file[..at] else file + seq(at - |file|, _ => 0);
    padded + bytes + (if at + |bytes| < |file| then file[at + |bytes|..] else [])
  }

  /** The bytes are in the file. */
  function Landed(s: Out, n: nat): (t: Out)
    requires s.request.Some? && n <= |s.request.value.bytes|
    ensures t == s.(request := None, file := t.file, writtenCount := s.writtenCount + n)
  {
    var r := s.request.value;
    s.(request := None, file := Overlay(s.file, r.at, r.bytes[..n]), writtenCount := s.writtenCount + n)
  }

  /** The front buffer moves on or is dropped. */
  function Shifted(queue: seq<Buf>, n: nat): seq<Buf>
    requires queue != []
  {
    var front := queue[0].(written := queue[0].written + n);
    if front.written == front.len then queue[1..] else queue[0 := front]
  }

  /** The next write, or the end of the work. */
  function Continue(s: Out): (t: Out)
    ensures t.waitingForDispose == s.waitingForDispose
  {
    if s.queue != [] then WriteNext(s)
    else if s.waitingForDispose then End(SetWritingForWrite(s, false))
    else SetWritingForWrite(s, false)
  }

  function DoWritten(s: Out, n: nat): (t: Out)
    requires s.request.Some? && n <= |s.request.value.bytes|
    ensures t.waitingForDispose == s.waitingForDispose
  {
    var t := Landed(s, n);
    if t.queue == [] then t.(broken := true)
    else Continue(t.(queue := Shifted(t.queue, n)))
  }

  function DoDispose(s: Out): Out {
    var t := s.(waitingForDispose := true);
    if !t.waitingForWrite then End(t) else t
  }

  /** Which events can come: the loop reports what it was asked for, and the owner disposes once and
      uses the stream only before that. */
  predicate Enabled(s: Out, e: Event) {
    match e
    case Next(data) => !s.waitingForDispose && |data| == MAX_PIPE_PAGE
    case BackUp(count) => !s.waitingForDispose && count <= MAX_PIPE_PAGE
    case Idle => s.idle
    case Written(n) => s.request.Some? && n <= |s.request.value.bytes|
    case WriteFailed => s.request.Some?
    case Dispose => !s.waitingForDispose
  }

  function Step(s: Out, e: Event): Out
    requires Enabled(s, e)
  {
    match e
    case Next(data) => DoNext(s, data)
    case BackUp(count) => DoBackUp(s, count)
    case Idle => DoIdle(s)
    case Written(n) => DoWritten(s, n)
    case WriteFailed => s.(request := None)
    case Dispose => DoDispose(s)
  }

  // ---------------------------------------------------------------- runs

  function Run(es: seq<Event>): Out {
    if es == [] then INIT
    else
      var s := Run(es[..|es| - 1]);
      var e := es[|es| - 1];
      if Enabled(s, e) then Step(s, e) else s
  }

  /** Every event could come when it came, and a BackUp directly follows its Next. */
  predicate Legal(es: seq<Event>) {
    es == [] || (
      var n := |es| - 1;
      Legal(es[..n]) && Enabled(Run(es[..n]), es[n]) && (es[n].BackUp? ==> JustNext(es[..n])))
  }

  predicate JustNext(es: seq<Event>) {
    es != [] && es[|es| - 1].Next?
  }

  /** What the callers put into the stream. */
  function Produced(es: seq<Event>): seq<Byte> {
    if es == [] then []
    else
      var before, e := Produced(es[..|es| - 1]), es[|es| - 1];
      if e.Next? then before + e.data
      else if e.BackUp? && e.count <= |before| then before[..|before| - e.count]
      else before
  }

  predicate Failed(es: seq<Event>) {
    WriteFailed in es
  }

  function Unwritten(queue: seq<Buf>): seq<Byte> {
    if queue == [] then [] else Rest(queue[0]) + Unwritten(queue[1..])
  }

  lemma {:induction false} UnwrittenLast(queue: seq<Buf>, b: Buf)
    ensures Unwritten(queue + [b]) == Unwritten(queue) + Rest(b)
  {
    if queue == [] {
      assert queue + [b] == [b];
    } else {
      assert (queue + [b])[1..] == queue[1..] + [b];
      UnwrittenLast(queue[1..], b);
    }
  }

  // ---------------------------------------------------------------- the invariant

  predicate Sound(b: Buf) {
    b.written <= b.len <= |b.data|
  }

  /** The queue: only the front buffer is partly written. */
  predicate QueueShape(queue: seq<Buf>) {
    && (forall i :: 0 <= i < |queue| ==> Sound(queue[i]))
    && (forall i :: 1 <= i < |queue| ==> queue[i].written == 0)
  }

  /** Who will call the stream back: the idle handle or the write in flight, never both; none of
      them after a failed write. */
  predicate Pending(s: Out, failed: bool) {
    && s.waitingForWrite == (s.idle || s.request.Some? || failed)
    && (s.idle ==> s.request.None?)
    && (failed ==> !s.idle && s.request.None?)
    && s.waitingForWrite == (s.queue != [])
    && (s.request.Some? && s.queue != [] ==> s.request.value == Request(Rest(s.queue[0]), s.writtenCount))
  }

  predicate Lifetime(s: Out) {
    && s.ends == (if s.deleted then 1 else 0)
    && s.open == !s.deleted
    && s.deleted == (s.waitingForDispose && !s.waitingForWrite)
  }

  /** The buffer handed out last is still untouched. */
  predicate Untouched(s: Out) {
    && s.queue != []
    && (var b := s.queue[|s.queue| - 1]; b.written == 0 && b.len == MAX_PIPE_PAGE == |b.data|)
    && (s.request.Some? ==> |s.queue| >= 2)
  }

  predicate Inv(s: Out, produced: seq<Byte>, failed: bool) {
    && !s.broken
    && QueueShape(s.queue)
    && Pending(s, failed)
    && Lifetime(s)
    && |s.file| == s.writtenCount
    && s.file + Unwritten(s.queue) == produced
  }

  lemma NextKeeps(s: Out, data: seq<Byte>, produced: seq<Byte>, failed: bool)
    requires Inv(s, produced, failed) && Enabled(s, Next(data))
    ensures Inv(DoNext(s, data), produced + data, failed) && Untouched(DoNext(s, data))
  {
    hide Unwritten;
    var b := Buf(data, MAX_PIPE_PAGE, 0);
    UnwrittenLast(s.queue, b);
    assert Rest(b) == data;
    var t := DoNext(s, data);
    assert t.queue == s.queue + [b];
    assert s.file + (Unwritten(s.queue) + data) == (s.file + Unwritten(s.queue)) + data;
  }

  /** What the caller puts into a buffer after it was handed out. */
  lemma NextThenFill(s: Out, data: seq<Byte>, bytes: seq<Byte>)
    requires !s.waitingForDispose
    ensures var t := DoNext(s, data); var n := |t.queue| - 1;
      n == |s.queue| && t.(queue := t.queue[..n] + [t.queue[n].(data := bytes)]) == DoNext(s, bytes)
  {
    assert DoNext(s, data).queue[..|s.queue|] == s.queue;
  }

  /** Cutting an untouched buffer at the back of the queue. */
  lemma CutLast(front: seq<Buf>, b: Buf, count: nat)
    requires b.written == 0 && b.len == |b.data| && count <= b.len
    ensures var c := b.(len := b.len - count); var all := Unwritten(front + [b]);
      && |all| >= count && Unwritten(front + [c]) == all[..|all| - count]
      && (QueueShape(front + [b]) ==> QueueShape(front + [c]))
  {
    hide Unwritten;
    var c := b.(len := b.len - count);
    UnwrittenLast(front, b);
    UnwrittenLast(front, c);
    assert Rest(c) == Rest(b)[..|Rest(b)| - count];
    if QueueShape(front + [b]) {
      forall i | 0 <= i < |front + [c]| ensures Sound((front + [c])[i]) {
        assert Sound((front + [b])[i]);
      }
      forall i | 1 <= i < |front + [c]| ensures (front + [c])[i].written == 0 {
        assert (front + [b])[i].written == 0;
      }
    }
  }

  lemma BackUpKeeps(s: Out, count: nat, produced: seq<Byte>, failed: bool)
    requires Inv(s, produced, failed) && Untouched(s) && Enabled(s, BackUp(count))
    ensures count <= |produced| && Inv(DoBackUp(s, count), produced[..|produced| - count], failed)
  {
    hide Unwritten, Rest, QueueShape;
    var n := |s.queue| - 1;
    var front, b := s.queue[..n], s.queue[n];
    CutLast(front, b, count);
    assert s.queue == front + [b] && DoBackUp(s, count).queue == front + [b.(len := b.len - count)];
  }

  lemma IdleKeeps(s: Out, produced: seq<Byte>, failed: bool)
    requires Inv(s, produced, failed) && s.idle
    ensures Inv(DoIdle(s), produced, failed)
  {
    assert Sound(s.queue[0]);
  }

  lemma DisposeKeeps(s: Out, produced: seq<Byte>, failed: bool)
    requires Inv(s, produced, failed) && Enabled(s, Dispose)
    ensures Inv(DoDispose(s), produced, failed)
  {
  }

  /** A deleted stream has left everything in the file. */
  lemma DeletedIsComplete(s: Out, produced: seq<Byte>, failed: bool)
    requires Inv(s, produced, failed)
    ensures s.deleted ==> s.file == produced
  {
    if s.deleted {
      assert s.file + Unwritten([]) == s.file;
    }
  }

  lemma FailureKeeps(s: Out, produced: seq<Byte>, failed: bool)
    requires Inv(s, produced, failed) && s.request.Some?
    ensures Inv(s.(request := None), produced, true)
  {
  }

  lemma Appends(file: seq<Byte>, bytes: seq<Byte>)
    ensures Overlay(file, |file|, bytes) == file + bytes
  {
  }

  lemma UnwrittenHead(queue: seq<Buf>)
    requires queue != []
    ensures Unwritten(queue) == Rest(queue[0]) + Unwritten(queue[1..])
  {
  }

  lemma RestShrinks(b: Buf, n: nat)
    requires Sound(b) && n <= |Rest(b)|
    ensures var c := b.(written := b.written + n);
      && Sound(c) && Rest(b) == Rest(b)[..n] + Rest(c) && |Rest(c)| == |Rest(b)| - n
      && (c.written == c.len ==> Rest(c) == [])
    ensures |Rest(b)| == b.len - b.written
  {
  }

  /** The first `n` unwritten bytes go from the queue to the end of the file. */
  lemma WrittenMoves(s: Out, n: nat, produced: seq<Byte>)
    requires Inv(s, produced, false) && Enabled(s, Written(n))
    ensures s.queue != [] && n <= |Rest(s.queue[0])|
    ensures var b := s.queue[0].(written := s.queue[0].written + n);
      var file := Overlay(s.file, s.request.value.at, s.request.value.bytes[..n]);
      && |file| == s.writtenCount + n
      && Sound(b)
      && file + (Rest(b) + Unwritten(s.queue[1..])) == produced
      && (b.written == b.len ==> Rest(b) == [])
  {
    hide Overlay, Unwritten, Lifetime, Rest;
    UnwrittenHead(s.queue);
    var bytes := Rest(s.queue[0]);
    var b := s.queue[0].(written := s.queue[0].written + n);
    assert Sound(s.queue[0]);
    RestShrinks(s.queue[0], n);
    var tail := Unwritten(s.queue[1..]);
    assert Overlay(s.file, s.writtenCount, bytes[..n]) == s.file + bytes[..n] by { Appends(s.file, bytes[..n]); }
    assert s.file + (bytes + tail) == (s.file + bytes[..n]) + (Rest(b) + tail);
  }

  lemma WrittenKeeps(s: Out, n: nat, produced: seq<Byte>)
    requires Inv(s, produced, false) && Enabled(s, Written(n))
    ensures Inv(DoWritten(s, n), produced, false)
  {
    hide Overlay, Unwritten, Rest, Continue, Shifted;
    WrittenMoves(s, n, produced);
    WrittenQueue(s.queue, n);
    var t := Landed(s, n);
    ContinueKeeps(t.(queue := Shifted(t.queue, n)), produced);
  }

  /** A report has come in: the next write starts, or the work is over. */
  lemma ContinueKeeps(s: Out, produced: seq<Byte>)
    requires !s.broken && QueueShape(s.queue) && s.waitingForWrite && !s.idle && s.request.None?
    requires |s.file| == s.writtenCount && s.file + Unwritten(s.queue) == produced
    requires s.ends == 0 && s.open && !s.deleted
    ensures Inv(Continue(s), produced, false)
  {
    hide Unwritten, Rest;
  }

  lemma WrittenQueue(queue: seq<Buf>, n: nat)
    requires queue != [] && QueueShape(queue) && n <= |Rest(queue[0])|
    ensures var b := queue[0].(written := queue[0].written + n);
      QueueShape(Shifted(queue, n)) && Unwritten(Shifted(queue, n)) == Rest(b) + Unwritten(queue[1..])
  {
    var b, rest := queue[0].(written := queue[0].written + n), queue[1..];
    assert Sound(queue[0]);
    if b.written == b.len {
      assert forall i :: 0 <= i < |rest| ==> Sound(rest[i]);
      assert Rest(b) == [] && [] + Unwritten(rest) == Unwritten(rest);
    } else {
      assert queue[0 := b][1..] == rest;
    }
  }

  lemma StepKeeps(es: seq<Event>)
    requires Legal(es) && es != []
    requires var before := es[..|es| - 1];
      && Inv(Run(before), Produced(before), Failed(before))
      && (JustNext(before) ==> Untouched(Run(before)))
    ensures Inv(Run(es), Produced(es), Failed(es)) && (JustNext(es) ==> Untouched(Run(es)))
  {
    hide Inv, Untouched, DoNext, DoBackUp, DoIdle, DoWritten, DoDispose;
    var before, e := es[..|es| - 1], es[|es| - 1];
    var s, produced, failed := Run(before), Produced(before), Failed(before);
    assert es == before + [e];
    assert Failed(es) == (failed || e == WriteFailed);
    match e
    case Next(data) => NextKeeps(s, data, produced, failed);
    case BackUp(count) => BackUpKeeps(s, count, produced, failed);
    case Idle => IdleKeeps(s, produced, failed);
    case Written(n) =>
      NotFailed(s, produced, failed);
      WrittenKeeps(s, n, produced);
    case WriteFailed => FailureKeeps(s, produced, failed);
    case Dispose => DisposeKeeps(s, produced, failed);
  }

  lemma NotFailed(s: Out, produced: seq<Byte>, failed: bool)
    requires Inv(s, produced, failed) && s.request.Some?
    ensures !failed
  {
  }

  /** Every state of every legal run. */
  lemma {:induction false} Reachable(es: seq<Event>)
    requires Legal(es)
    ensures Inv(Run(es), Produced(es), Failed(es)) && (JustNext(es) ==> Untouched(Run(es)))
  {
    hide Inv, Untouched;
    if es == [] {
      InitInv();
    } else {
      Reachable(es[..|es| - 1]);
      StepKeeps(es);
    }
  }

  lemma InitInv()
    ensures Inv(INIT, [], false)
  {
  }

  // ---------------------------------------------------------------- the results

  /** The file is the written prefix of what was produced, and what is queued is the rest. */
  lemma FileIsPrefix(es: seq<Event>)
    requires Legal(es)
    ensures var s := Run(es);
      && s.writtenCount <= |Produced(es)|
      && s.file == Produced(es)[..s.writtenCount]
      && Unwritten(s.queue) == Produced(es)[s.writtenCount..]
      && s.writtenCount + |Unwritten(s.queue)| == |Produced(es)|
  {
    Reachable(es);
    var s := Run(es);
    assert s.file + Unwritten(s.queue) == Produced(es);
  }

  /** No CHECK fails, no empty queue is read, and once the stream is deleted no callback and no
      further use can reach it. */
  lemma NeverBroken(es: seq<Event>)
    requires Legal(es)
    ensures !Run(es).broken
    ensures Run(es).deleted ==> forall e :: !Enabled(Run(es), e)
  {
    Reachable(es);
  }

  /** on_end_ is called at most once, with the descriptor closed, after the disposal and with every
      byte in the file. */
  lemma EndsOnce(es: seq<Event>)
    requires Legal(es)
    ensures Run(es).ends <= 1
    ensures Run(es).ends == 1 <==> Run(es).deleted
    ensures Run(es).ends == 1 ==> Dispose in es && !Run(es).open && Run(es).file == Produced(es)
  {
    Reachable(es);
    var s := Run(es);
    if s.ends == 1 {
      assert Unwritten(s.queue) == [] && s.file + [] == s.file;
      Disposed(es);
    }
  }

  lemma StepDisposes(s: Out, e: Event)
    requires Enabled(s, e)
    ensures Step(s, e).waitingForDispose == (s.waitingForDispose || e.Dispose?)
  {
    hide DoWritten, WriteNext, SetWritingForWrite;
  }

  lemma {:induction false} Disposed(es: seq<Event>)
    requires Legal(es)
    ensures Run(es).waitingForDispose <==> Dispose in es
  {
    hide Step, Enabled;
    if es != [] {
      var before, e := es[..|es| - 1], es[|es| - 1];
      Disposed(before);
      StepDisposes(Run(before), e);
      assert es == before + [e];
    }
  }

  predicate Quiet(s: Out) {
    !s.idle && s.request.None?
  }

  /** When the loop has nothing left for a disposed stream, on_end_ has been called exactly when no
      write failed. */
  lemma EndsUnlessFailed(es: seq<Event>)
    requires Legal(es) && Dispose in es && Quiet(Run(es))
    ensures Run(es).ends == 1 <==> !Failed(es)
  {
    Reachable(es);
    Disposed(es);
  }

  /** After a failed write the loop never calls back again and on_end_ is never called. */
  lemma StuckAfterFailure(es: seq<Event>)
    requires Legal(es) && Failed(es)
    ensures Quiet(Run(es)) && Run(es).ends == 0
  {
    Reachable(es);
  }

  function Work(s: Out): nat {
    2 * (|Unwritten(s.queue)| + |s.queue|) + (if s.idle then 1 else 0)
  }

  /** Every callback that makes progress brings a finite run to its end: the idle callback, and a
      write that is not zero bytes of a longer rest. */
  lemma Progress(es: seq<Event>, e: Event)
    requires Legal(es) && Enabled(Run(es), e)
    requires e.Idle? || (e.Written? && (e.n > 0 || Run(es).request.value.bytes == []))
    ensures Work(Step(Run(es), e)) < Work(Run(es))
  {
    Reachable(es);
    var s := Run(es);
    if e.Written? {
      hide Overlay, Unwritten, Rest;
      WrittenMoves(s, e.n, Produced(es));
      WrittenQueue(s.queue, e.n);
      UnwrittenHead(s.queue);
      RestShrinks(s.queue[0], e.n);
    }
  }

  /** A disposed stream without a failed write can always be brought to its end by the callbacks
      alone; by `Progress`, every schedule that writes something each time does so. */
  lemma {:induction false} Completes(es: seq<Event>) returns (more: seq<Event>)
    requires Legal(es) && Dispose in es && !Failed(es)
    ensures Legal(es + more) && !Failed(es + more) && Run(es + more).ends == 1
    ensures forall e :: e in more ==> e.Idle? || e.Written?
    ensures Produced(es + more) == Produced(es)
    decreases Work(Run(es))
  {
    hide Step, Produced, Work;
    var s := Run(es);
    more := [];
    assert es + [] == es;
    if Quiet(s) {
      EndsUnlessFailed(es);
    } else {
      var e := if s.request.Some? then Written(|s.request.value.bytes|) else Idle;
      assert Enabled(s, e);
      Progress(es, e);
      var next := es + [e];
      assert next[..|es|] == es;
      Extends(es, e);
      var rest := Completes(next);
      assert es + ([e] + rest) == next + rest;
      more := [e] + rest;
    }
  }

  lemma Extends(es: seq<Event>, e: Event)
    requires Legal(es) && Enabled(Run(es), e) && (e.Idle? || e.Written?)
    ensures Legal(es + [e]) && Run(es + [e]) == Step(Run(es), e) && Produced(es + [e]) == Produced(es)
  {
    hide Step, Enabled;
    assert (es + [e])[..|es|] == es;
  }

  lemma InitRun()
    ensures Run([]) == INIT
  {
  }

  lemma RunStep(es: seq<Event>, i: nat)
    requires Legal(es) && i < |es|
    ensures Enabled(Run(es[..i]), es[i]) && Run(es[..i + 1]) == Step(Run(es[..i]), es[i])
  {
    hide Step, Enabled;
    LegalPrefix(es, i + 1);
    assert es[..i + 1][..i] == es[..i];
  }

  lemma {:induction false} LegalPrefix(es: seq<Event>, i: nat)
    requires Legal(es) && i <= |es|
    ensures Legal(es[..i])
    decreases |es|
  {
    hide Enabled, Run;
    if i < |es| {
      var before := es[..|es| - 1];
      LegalPrefix(before, i);
      assert before[..i] == es[..i];
    } else {
      assert es[..i] == es;
    }
  }
}
