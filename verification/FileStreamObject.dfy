/** The output file stream in the form of the source.  A buffer is an array on the heap that is shared
    by the queue, the caller of `Next` and the write in flight, so the caller fills it after it has
    been queued and no byte is copied before it reaches the file. */
module FileStreamObject {
  import opened Common
  import opened FileStream

  /** ZeroCopyStreamBuf. */
  class Buffer {
    const data: array<Byte>
    var len: nat
    var written: nat

    constructor (data: array<Byte>, len: nat)
      ensures this.data == data && this.len == len && written == 0
    {
      this.data, this.len, written := data, len, 0;
    }
  }

  /** uv_idle_t; `data` leads back to the stream. */
  class IdleHandle {
    var data: OutputFileStream?
    var active: bool

    constructor ()
      ensures data == null && !active
    {
      data, active := null, false;
    }
  }

  /** The file behind the descriptor. */
  class FileObject {
    var contents: seq<Byte>
    var open: bool

    constructor ()
      ensures contents == [] && open
    {
      contents, open := [], true;
    }
  }

  /** A part of a buffer that the loop was asked to write at a position; the bytes stay in the buffer. */
  datatype WriteRequest = WriteRequest(data: array<Byte>, from: nat, to: nat, at: nat)

  ghost function Contents(queue: seq<Buffer>): (bufs: seq<Buf>)
    reads queue, set b | b in queue :: b.data
    ensures |bufs| == |queue|
    ensures forall i :: 0 <= i < |queue| ==> bufs[i] == Buf(queue[i].data[..], queue[i].len, queue[i].written)
  {
    if queue == [] then []
    else [Buf(queue[0].data[..], queue[0].len, queue[0].written)] + Contents(queue[1..])
  }

  class OutputFileStream {
    const idle: IdleHandle
    const file: FileObject
    var queue: seq<Buffer>
    var writtenCount: nat
    var waitingForWrite: bool
    var waitingForDispose: bool
    var request: Option<WriteRequest>
    var ends: nat
    var deleted: bool
    var broken: bool

    /** No two buffers share their bytes, and the write in flight is of the front buffer. */
    ghost predicate Valid()
      reads this, idle
    {
      && idle.data == this
      && (forall i, j :: 0 <= i < j < |queue| ==> queue[i].data != queue[j].data)
      && (request.Some? ==>
            queue != [] && request.value.data == queue[0].data && request.value.from <= request.value.to <= request.value.data.Length)
    }

    ghost function View(): (v: Out)
      requires Valid()
      reads this, idle, file, queue, set b | b in queue :: b.data
      ensures v.queue == Contents(queue) && v.writtenCount == writtenCount && v.idle == idle.active
      ensures v.waitingForWrite == waitingForWrite && v.waitingForDispose == waitingForDispose
      ensures v.file == file.contents && v.open == file.open && v.ends == ends && v.deleted == deleted && v.broken == broken
      ensures v.request == if request.None? then None else
        Some(Request(request.value.data[request.value.from..request.value.to], request.value.at))
    {
      Out(Contents(queue), writtenCount, waitingForWrite, waitingForDispose, idle.active,
          if request.None? then None
          else Some(Request(request.value.data[request.value.from..request.value.to], request.value.at)),
          file.contents, file.open, ends, deleted, broken)
    }

    constructor ()
      ensures Valid() && View() == INIT && fresh(idle) && fresh(file)
    {
      idle := new IdleHandle();
      file := new FileObject();
      queue, writtenCount, waitingForWrite, waitingForDispose := [], 0, false, false;
      request, ends, deleted, broken := None, 0, false, false;
      new;
      idle.data := this;
    }

    method SetWriting(it: bool)
      requires Valid()
      modifies this`waitingForWrite, idle`active
      ensures Valid() && waitingForWrite == it && (it && !old(waitingForWrite) ==> idle.active)
      ensures View() == SetWritingForWrite(old(View()), it)
    {
      hide Contents;
      if waitingForWrite == it {
        return;
      }
      waitingForWrite := it;
      if waitingForWrite {
        idle.active := true;
      }
    }

    method Break()
      requires Valid()
      modifies this`broken
      ensures Valid() && View() == old(View()).(broken := true)
    {
      broken := true;
    }

    method WriteFront()
      requires Valid()
      modifies this`request, this`broken
      ensures Valid() && View() == WriteNext(old(View()))
    {
      if queue == [] || !(queue[0].written <= queue[0].len <= queue[0].data.Length) {
        Break();
        return;
      }
      var req := queue[0];
      request := Some(WriteRequest(req.data, req.written, req.len, writtenCount));
    }

    method CloseAndDelete()
      requires Valid()
      modifies this`ends, this`deleted, file`open
      ensures Valid() && View() == End(old(View()))
    {
      file.open := false;
      ends := ends + 1;
      deleted := true;
    }

    method Append(data: array<Byte>)
      requires Valid() && forall b :: b in queue ==> b.data != data
      modifies this`queue
      ensures Valid() && |queue| == |old(queue)| + 1 && queue[..|queue| - 1] == old(queue)
      ensures fresh(queue[|queue| - 1]) && queue[|queue| - 1].data == data
      ensures View() == old(View()).(queue := old(View()).queue + [Buf(data[..], MAX_PIPE_PAGE, 0)])
    {
      var buf := new Buffer(data, MAX_PIPE_PAGE);
      queue := queue + [buf];
    }

    /** Hands out the bytes of a new buffer at the end of the queue; what the caller puts there later is
        what the stream will write.  A stream that is being disposed of fails instead. */
    method Next() returns (data: array?<Byte>)
      requires Valid()
      modifies this`queue, this`waitingForWrite, this`broken, idle`active
      ensures Valid() && (data == null <==> old(waitingForDispose))
      ensures data == null ==> queue == old(queue) && View() == DoNext(old(View()), [])
      ensures data != null ==>
        && fresh(data) && data.Length == MAX_PIPE_PAGE && View() == DoNext(old(View()), data[..])
        && |queue| == |old(queue)| + 1 && queue[..|queue| - 1] == old(queue)
        && fresh(queue[|queue| - 1]) && queue[|queue| - 1].data == data
    {
      hide View, Valid, SetWritingForWrite;
      if waitingForDispose {
        Break();
        return null;
      }
      data := new Byte[MAX_PIPE_PAGE];
      Append(data);
      SetWriting(true);
    }

    /** Takes bytes off the end of the buffer handed out last; directly after its `Next` that undoes so
        much of what was produced. */
    method BackUp(count: nat, ghost produced: seq<Byte>, ghost failed: bool)
      requires Valid()
      modifies this`broken, queue
      ensures Valid() && View() == DoBackUp(old(View()), count)
      ensures var s := old(View());
        Inv(s, produced, failed) && Untouched(s) && Enabled(s, FileStream.BackUp(count)) ==>
          count <= |produced| && Inv(View(), produced[..|produced| - count], failed)
    {
      hide Inv, Untouched;
      if Inv(View(), produced, failed) && Untouched(View()) && Enabled(View(), FileStream.BackUp(count)) {
        BackUpKeeps(View(), count, produced, failed);
      }
      CutBack(count);
    }

    method CutBack(count: nat)
      requires Valid()
      modifies this`broken, queue
      ensures Valid() && View() == DoBackUp(old(View()), count)
    {
      hide Contents;
      if queue == [] || queue[|queue| - 1].written != 0 || queue[|queue| - 1].len < count {
        Break();
        return;
      }
      var last := queue[|queue| - 1];
      last.len := last.len - count;
    }

    method StartWriting()
      requires Valid()
      modifies this`request, this`broken, idle`active
      ensures Valid() && !idle.active && View() == DoIdle(old(View()))
    {
      hide WriteNext;
      WriteFront();
      idle.active := false;
    }

    /** The idle callback starts the delayed write; nothing produced is lost. */
    method IdleCb(ghost produced: seq<Byte>, ghost failed: bool)
      requires Valid() && idle.active
      modifies this`request, this`broken, idle`active
      ensures Valid() && !idle.active
      ensures var s := old(View()); View() == DoIdle(s) && (Inv(s, produced, failed) ==> Inv(View(), produced, failed))
    {
      hide View, Inv, DoIdle;
      if Inv(View(), produced, failed) {
        IdleKeeps(View(), produced, failed);
      }
      StartWriting();
    }

    /** The loop has written from the buffer itself. */
    method Land(nwrite: nat)
      requires Valid() && request.Some? && nwrite <= request.value.to - request.value.from
      modifies this`request, this`writtenCount, file`contents
      ensures Valid() && request.None? && View() == Landed(old(View()), nwrite)
    {
      hide Overlay;
      var r := request.value;
      assert r.data[r.from..r.to][..nwrite] == r.data[r.from..r.from + nwrite];
      file.contents := Overlay(file.contents, r.at, r.data[r.from..r.from + nwrite]);
      request := None;
      writtenCount := writtenCount + nwrite;
    }

    method PopWritten(nwrite: nat)
      requires Valid() && queue != [] && request.None?
      modifies this`queue, queue
      ensures Valid() && (queue == old(queue) || queue == old(queue)[1..])
      ensures View() == old(View()).(queue := Shifted(old(View()).queue, nwrite))
    {
      hide Contents;
      var front := queue[0];
      front.written := front.written + nwrite;
      if front.written == front.len {
        queue := queue[1..];
      }
    }

    method WriteOrFinish()
      requires Valid()
      modifies this, idle`active, file`open
      ensures Valid() && queue == old(queue) && View() == Continue(old(View()))
    {
      hide View, Valid, WriteNext, SetWritingForWrite;
      if queue != [] {
        WriteFront();
        return;
      }
      SetWriting(false);
      if waitingForDispose {
        CloseAndDelete();
      }
    }

    method Report(nwrite: nat)
      requires Valid() && request.Some? && nwrite <= request.value.to - request.value.from
      modifies this, queue, idle`active, file
      ensures Valid() && (queue == old(queue) || queue == old(queue)[1..]) && View() == DoWritten(old(View()), nwrite)
    {
      hide View, Landed, Continue, Shifted;
      Land(nwrite);
      PopWritten(nwrite);
      WriteOrFinish();
    }

    /** The write callback: `None` is an error, after which nobody calls the stream back.  In both cases
        the file and the queue together still hold what was produced. */
    method WriteCb(nwrite: Option<nat>, ghost produced: seq<Byte>)
      requires Valid() && request.Some? && (nwrite.Some? ==> nwrite.value <= request.value.to - request.value.from)
      modifies this, queue, idle`active, file
      ensures Valid() && (queue == old(queue) || (queue == old(queue)[1..] && old(queue) != []))
      ensures View() == if nwrite.None? then old(View()).(request := None) else DoWritten(old(View()), nwrite.value)
      ensures Inv(old(View()), produced, false) ==> Inv(View(), produced, nwrite.None?)
    {
      hide View, Inv, DoWritten;
      if Inv(View(), produced, false) {
        if nwrite.None? {
          FailureKeeps(View(), produced, false);
        } else {
          WrittenKeeps(View(), nwrite.value, produced);
        }
      }
      if nwrite.None? {
        DropRequest();
        return;
      }
      Report(nwrite.value);
    }

    method DropRequest()
      requires Valid()
      modifies this`request
      ensures Valid() && View() == old(View()).(request := None)
    {
      request := None;
    }

    method MarkForDisposal()
      requires Valid()
      modifies this`waitingForDispose
      ensures Valid() && View() == old(View()).(waitingForDispose := true)
    {
      waitingForDispose := true;
    }

    /** Ends a stream with nothing left to write, and leaves the end to the last write otherwise. */
    method DisposeAndDelete(ghost produced: seq<Byte>, ghost failed: bool)
      requires Valid() && !waitingForDispose
      modifies this`waitingForDispose, this`ends, this`deleted, file`open
      ensures Valid() && waitingForDispose
      ensures var s := old(View());
        && View() == DoDispose(s)
        && (Inv(s, produced, failed) ==> Inv(View(), produced, failed) && (deleted ==> file.contents == produced))
    {
      hide View, Inv, End;
      if Inv(View(), produced, failed) {
        DisposeKeeps(View(), produced, failed);
        DeletedIsComplete(DoDispose(View()), produced, failed);
      }
      MarkForDisposal();
      if !waitingForWrite {
        CloseAndDelete();
      }
    }

    /** An event of the caller or the loop; the caller fills the buffer that `Next` hands out. */
    method Perform(e: Event)
      requires Valid() && Enabled(View(), e)
      modifies this, idle, file, queue
      ensures Valid() && View() == Step(old(View()), e)
      ensures forall b :: b in queue && b !in old(queue) ==> fresh(b) && fresh(b.data)
    {
      hide View, Inv, Untouched, DoNext, DoBackUp, DoIdle, DoWritten, DoDispose;
      match e
      case Next(data) => NextAndFill(data);
      case BackUp(count) => BackUp(count, [], false);
      case Idle => IdleCb([], false);
      case Written(n) => WriteCb(Some(n), []);
      case WriteFailed => WriteCb(None, []);
      case Dispose => DisposeAndDelete([], false);
    }

    method NextAndFill(bytes: seq<Byte>)
      requires Valid() && !waitingForDispose && |bytes| == MAX_PIPE_PAGE
      modifies this`queue, this`waitingForWrite, this`broken, idle`active
      ensures Valid() && View() == DoNext(old(View()), bytes)
      ensures forall b :: b in queue && b !in old(queue) ==> fresh(b) && fresh(b.data)
    {
      hide View, Contents, DoNext;
      var data := Next();
      NextThenFill(old(View()), data[..], bytes);
      FillLast(data, bytes);
    }

    /** Filling the buffer handed out last touches nothing else of the stream. */
    method FillLast(data: array<Byte>, bytes: seq<Byte>)
      requires Valid() && queue != [] && data == queue[|queue| - 1].data && data.Length == |bytes|
      requires request.Some? ==> |queue| >= 2
      modifies data
      ensures Valid() && View() == var s := old(View()); var n := |s.queue| - 1;
        s.(queue := s.queue[..n] + [s.queue[n].(data := bytes)])
    {
      hide Contents;
      Fill(data, bytes);
    }
  }

  /** The caller's side of `Next`: the bytes go into the array handed out. */
  method Fill(data: array<Byte>, bytes: seq<Byte>)
    requires data.Length == |bytes|
    modifies data
    ensures data[..] == bytes
  {
    for i := 0 to data.Length
      invariant data[..i] == bytes[..i]
    {
      data[i] := bytes[i];
    }
  }

  /** A whole run of the object. */
  method Drive(es: seq<Event>) returns (o: OutputFileStream)
    requires Legal(es)
    ensures fresh(o) && o.Valid() && o.View() == Run(es)
    ensures o.writtenCount <= |Produced(es)|
    ensures !o.broken && o.file.contents == Produced(es)[..o.writtenCount] && o.ends <= 1
    ensures o.ends == 1 ==> o.file.contents == Produced(es)
  {
    hide Step, Enabled, Produced, Run, OutputFileStream.View;
    o := new OutputFileStream();
    InitRun();
    for i := 0 to |es|
      invariant fresh(o) && fresh(o.idle) && fresh(o.file)
      invariant forall b :: b in o.queue ==> fresh(b) && fresh(b.data)
      invariant o.Valid() && o.View() == Run(es[..i])
    {
      LegalPrefix(es, i + 1);
      assert es[..i + 1][..i] == es[..i] && es[..i + 1][i] == es[i];
      RunStep(es, i);
      o.Perform(es[i]);
    }
    assert es[..|es|] == es;
    FileIsPrefix(es);
    NeverBroken(es);
    EndsOnce(es);
  }
}
