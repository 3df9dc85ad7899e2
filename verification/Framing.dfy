/** The WebSocket framing of `tools/inspect-client.js` (sections 5.2 and 5.3 of RFC 6455): the frame
    decoder, the incremental reassembly built on it, and the frame encoder. */
module Framing {
  import opened Common

  type Byte = b: int | 0 <= b < 256

  const KIB64 := 65536
  const GIB2 := 0x8000_0000

  // ---------------------------------------------------------------- the decoder

  /** `Array.prototype.slice` bounds: negative ones count from the end. */
  function Clamp(i: int, n: nat): (k: nat)
    ensures k <= n
  {
    if i < 0 then (if n + i < 0 then 0 else n + i) else if i > n then n else i
  }

  function Slice(s: seq<Byte>, from: int, to: int): seq<Byte> {
    var a, b := Clamp(from, |s|), Clamp(to, |s|);
    if a < b then s[a..b] else []
  }

  /** A byte past the end reads as `undefined`, which bit operations treat as 0. */
  function At(data: seq<Byte>, i: nat): Byte {
    if i < |data| then data[i] else 0
  }

  /** The low 32 bits as a signed number. */
  function ToInt32(n: int): int {
    var m := n % 0x1_0000_0000;
    if m < GIB2 then m else m - 0x1_0000_0000
  }

  /** One round of the loop that reads the eight length bytes. */
  function ShiftIn(length: int, b: int): int {
    ToInt32(ToInt32(length * 256) + b)
  }

  function ReadLength(data: seq<Byte>, i: nat, length: int): int
    requires i <= 8
    decreases 8 - i
  {
    if i == 8 then length else ReadLength(data, i + 1, ShiftIn(length, At(data, 2 + i)))
  }

  function TwoBytes(high: int, low: int): int { high * 256 + low }

  /** `payload` is None for an incomplete frame. */
  datatype Decoded = Thrown | Decoded(closed: bool, payload: Option<seq<Byte>>, rest: seq<Byte>)

  function DecodeFrame(data: seq<Byte>): (d: Decoded)
    ensures d.Decoded? && d.payload.Some? && d.payload.value != [] ==> |d.rest| < |data|
  {
    if |data| < 2 then Decoded(false, None, data)
    else
      var first, second := data[0], data[1];
      var final := first >= 128;
      var reserved1, reserved2, reserved3 := first / 64 % 2 == 1, first / 32 % 2 == 1, first / 16 % 2 == 1;
      var opCode := first % 16;
      if reserved1 || !final || reserved2 || reserved3 || second >= 128 || (opCode != 8 && opCode != 1) then Thrown
      else
        var closed := opCode == 8;
        match second % 128
        case 126 =>
          // a missing fourth byte makes the length NaN: the frame reads as empty and nothing is consumed
          if |data| < 4 then Decoded(closed, Some([]), data)
          else Cut(data, closed, 4, TwoBytes(data[2], data[3]))
        case 127 => Cut(data, closed, 10, ReadLength(data, 0, 0))
        case n => Cut(data, closed, 2, n)
  }

  function Cut(data: seq<Byte>, closed: bool, offset: nat, length: int): (d: Decoded)
    ensures d.Decoded? && (offset > 0 && d.payload.Some? && d.payload.value != [] ==> |d.rest| < |data|)
  {
    if |data| - offset - length < 0 then Decoded(false, None, data)
    else Decoded(closed, Some(Slice(data, offset, offset + length)), Slice(data, offset + length, |data|))
  }

  method DecodeLength(data: seq<Byte>) returns (length: int)
    ensures length == ReadLength(data, 0, 0)
  {
    hide ToInt32, At;
    length := 0;
    for i := 0 to 8
      invariant ReadLength(data, 0, 0) == ReadLength(data, i, length)
    {
      length := ToInt32(length * 256);
      length := ToInt32(length + At(data, 2 + i));
    }
  }

  // ---------------------------------------------------------------- frames on the wire

  /** The three ways of writing the length. */
  datatype Form = Short | Medium | Long

  /** A final, unmasked text frame with a payload below two gibibytes, possibly an empty one. */
  datatype Frame = Frame(form: Form, payload: seq<Byte>)

  predicate ValidFrame(f: Frame) {
    && |f.payload| < GIB2
    && (f.form == Short ==> |f.payload| <= 125)
    && (f.form == Medium ==> |f.payload| < KIB64)
  }

  function LengthBytes(n: nat): seq<Byte>
    requires n < GIB2
  {
    [0, 0, 0, 0, n / 0x100_0000, n / 0x1_0000 % 256, n / 256 % 256, n % 256]
  }

  function HeaderBytes(f: Frame): seq<Byte>
    requires ValidFrame(f)
  {
    var n := |f.payload|;
    match f.form
    case Short => [0x81, n]
    case Medium => [0x81, 126, n / 256, n % 256]
    case Long => [0x81, 127] + LengthBytes(n)
  }

  function Wire(f: Frame): seq<Byte>
    requires ValidFrame(f)
  {
    HeaderBytes(f) + f.payload
  }

  lemma ShiftInSmall(length: nat, b: int)
    requires length < 0x80_0000 && 0 <= b < 256
    ensures ShiftIn(length, b) == length * 256 + b
  {
  }

  /** The base-256 digits of a length. */
  lemma Digits(n: nat)
    requires n < GIB2
    ensures var a, b, c, d := n / 0x100_0000, n / 0x1_0000 % 256, n / 256 % 256, n % 256;
      && a < 0x80 && a * 256 + b == n / 0x1_0000 < 0x8000
      && n / 0x1_0000 * 256 + c == n / 256 < 0x80_0000
      && n / 256 * 256 + d == n
  {
  }

  lemma ReadStep(data: seq<Byte>, i: nat, length: int)
    requires i < 8
    ensures ReadLength(data, i, length) == ReadLength(data, i + 1, ShiftIn(length, At(data, 2 + i)))
  {
  }

  /** Eight length bytes below two gibibytes are read as the number they write. */
  lemma ReadEight(data: seq<Byte>)
    requires At(data, 2) == 0 && At(data, 3) == 0 && At(data, 4) == 0 && At(data, 5) == 0 && At(data, 6) < 128
    ensures ReadLength(data, 0, 0) == ((At(data, 6) * 256 + At(data, 7)) * 256 + At(data, 8)) * 256 + At(data, 9)
  {
    hide ShiftIn, At;
    var a: int, b: int, c: int := At(data, 6), At(data, 7), At(data, 8);
    ShiftInSmall(0, 0);
    ReadStep(data, 0, 0);
    ReadStep(data, 1, 0);
    ReadStep(data, 2, 0);
    ReadStep(data, 3, 0);
    ReadStep(data, 4, 0);
    ShiftInSmall(0, a);
    ReadStep(data, 5, a);
    ShiftInSmall(a, b);
    ReadStep(data, 6, a * 256 + b);
    ShiftInSmall(a * 256 + b, c);
    ReadStep(data, 7, (a * 256 + b) * 256 + c);
    ShiftInSmall((a * 256 + b) * 256 + c, At(data, 9));
  }

  lemma ReadLengthBytes(data: seq<Byte>, n: nat)
    requires n < GIB2 && |data| >= 10 && data[2..10] == LengthBytes(n)
    ensures ReadLength(data, 0, 0) == n
  {
    hide ReadLength;
    var bytes := data[2..10];
    assert At(data, 2) == bytes[0] && At(data, 3) == bytes[1] && At(data, 4) == bytes[2] && At(data, 5) == bytes[3];
    assert At(data, 6) == bytes[4] && At(data, 7) == bytes[5] && At(data, 8) == bytes[6] && At(data, 9) == bytes[7];
    Digits(n);
    ReadEight(data);
  }

  /** The header of a valid frame passes all checks and selects the way its length is written. */
  lemma DecodeHeader(f: Frame, data: seq<Byte>)
    requires ValidFrame(f) && |data| >= 2 && data[0] == 0x81 && data[1] == HeaderBytes(f)[1]
    ensures DecodeFrame(data) ==
      match f.form
      case Short => Cut(data, false, 2, |f.payload|)
      case Medium => if |data| < 4 then Decoded(false, Some([]), data) else Cut(data, false, 4, TwoBytes(data[2], data[3]))
      case Long => Cut(data, false, 10, ReadLength(data, 0, 0))
  {
    hide Cut, ReadLength, LengthBytes;
  }

  lemma HeaderShape(f: Frame)
    requires ValidFrame(f)
    ensures var h := HeaderBytes(f);
      && |h| == (match f.form case Short => 2 case Medium => 4 case Long => 10)
      && h[0] == 0x81
      && (f.form == Medium ==> TwoBytes(h[2], h[3]) == |f.payload|)
      && (f.form == Long ==> h[2..10] == LengthBytes(|f.payload|))
  {
  }

  /** A whole frame at the front is decoded and cut off, whatever follows. */
  lemma DecodeWhole(f: Frame, more: seq<Byte>)
    requires ValidFrame(f)
    ensures DecodeFrame(Wire(f) + more) == Decoded(false, Some(f.payload), more)
  {
    hide DecodeFrame, ReadLength, LengthBytes;
    var data := Wire(f) + more;
    var header := HeaderBytes(f);
    var n, h := |f.payload|, |header|;
    HeaderShape(f);
    assert data[..h] == header && data[h..h + n] == f.payload && data[h + n..] == more;
    assert forall i :: 0 <= i < h ==> data[i] == header[i];
    DecodeHeader(f, data);
    if f.form == Long {
      assert data[2..10] == header[2..10];
      ReadLengthBytes(data, n);
    }
    CutWhole(data, h, n);
  }

  lemma CutWhole(data: seq<Byte>, offset: nat, length: nat)
    requires offset + length <= |data|
    ensures Cut(data, false, offset, length)
      == Decoded(false, Some(data[offset..offset + length]), data[offset + length..])
  {
    assert Slice(data, offset, offset + length) == data[offset..offset + length];
    assert Slice(data, offset + length, |data|) == data[offset + length..];
  }

  /** Any shorter prefix is left alone: no payload, nothing consumed. */
  lemma DecodePartial(f: Frame, k: nat)
    requires ValidFrame(f) && k < |Wire(f)|
    ensures var d := DecodeFrame(Wire(f)[..k]);
      d.Decoded? && !d.closed && (d.payload == None || d.payload == Some([])) && d.rest == Wire(f)[..k]
  {
    if k >= 2 {
      hide DecodeFrame, ReadLength, LengthBytes;
      var data, header := Wire(f)[..k], HeaderBytes(f);
      HeaderShape(f);
      assert forall i :: 0 <= i < k && i < |header| ==> data[i] == header[i];
      DecodeHeader(f, data);
      if f.form == Long {
        if k >= 10 {
          assert data[2..10] == header[2..10];
          ReadLengthBytes(data, |f.payload|);
        } else {
          PartialLength(data, |f.payload|);
        }
      }
    }
  }

  /** With length bytes missing, the length read so far is not negative, so the frame is
      incomplete. */
  lemma PartialLength(data: seq<Byte>, n: nat)
    requires n < GIB2 && 2 <= |data| < 10 && data[2..] == LengthBytes(n)[..|data| - 2]
    ensures ReadLength(data, 0, 0) >= 0
  {
    hide ReadLength;
    var bytes := LengthBytes(n);
    assert forall i :: 0 <= i < |data| - 2 ==> data[2 + i] == data[2..][i] == bytes[i];
    assert At(data, 2) == 0 && At(data, 3) == 0 && At(data, 4) == 0 && At(data, 5) == 0;
    Digits(n);
    ReadEight(data);
  }

  // ---------------------------------------------------------------- reassembly

  /** How a pass over the buffer ends: waiting for more bytes, reset by a close frame, or with an
      exception from the decoder or from a payload that is no protocol message. */
  datatype Outcome = Waiting | Reset | Failed

  datatype Drained = Drained(payloads: seq<seq<Byte>>, rest: seq<Byte>, outcome: Outcome) {
    /** The same with more payloads in front. */
    function After(earlier: seq<seq<Byte>>): Drained {
      this.(payloads := earlier + payloads)
    }
  }

  lemma AfterTwice(d: Drained, first: seq<seq<Byte>>, second: seq<seq<Byte>>)
    ensures d.After(second).After(first) == d.After(first + second)
  {
    assert first + (second + d.payloads) == first + second + d.payloads;
  }

  /** The loop of `_handleChunk` on the buffered bytes; `accepts` tells which payloads are
      protocol messages. */
  function Drain(data: seq<Byte>, accepts: seq<Byte> -> bool): Drained
    decreases |data|
  {
    if |data| <= 2 then Drained([], data, Waiting)
    else match DecodeFrame(data)
      case Thrown => Drained([], data, Failed)
      case Decoded(closed, payload, rest) =>
        if closed then Drained([], [], Reset)
        else if payload.None? || payload.value == [] then Drained([], rest, Waiting)
        else if !accepts(payload.value) then Drained([], rest, Failed)
        else
          Drain(rest, accepts).After([payload.value])
  }

  class Client {
    const accepts: seq<Byte> -> bool
    var unprocessed: seq<Byte>
    var dispatched: seq<seq<Byte>>

    constructor (accepts: seq<Byte> -> bool)
      ensures this.accepts == accepts && unprocessed == [] && dispatched == []
    {
      this.accepts, unprocessed, dispatched := accepts, [], [];
    }

    method HandleChunk(chunk: seq<Byte>) returns (failed: bool)
      modifies this
      ensures var d := Drain(old(unprocessed) + chunk, accepts);
        unprocessed == d.rest && dispatched == old(dispatched) + d.payloads && failed == d.outcome.Failed?
    {
      hide DecodeFrame;
      unprocessed := unprocessed + chunk;
      ghost var whole := Drain(unprocessed, accepts);
      ghost var seen: seq<seq<Byte>> := [];
      while |unprocessed| > 2
        invariant dispatched == old(dispatched) + seen
        invariant whole == Drain(unprocessed, accepts).After(seen)
        decreases |unprocessed|
      {
        var d := DecodeFrame(unprocessed);
        if d.Thrown? {
          return true;
        }
        unprocessed := d.rest;
        if d.closed {
          unprocessed := [];
          return false;
        }
        if d.payload.None? || |d.payload.value| == 0 {
          return false;
        }
        var payload := d.payload.value;
        if !accepts(payload) {
          return true;
        }
        AfterTwice(Drain(d.rest, accepts), seen, [payload]);
        dispatched := dispatched + [payload];
        seen := seen + [payload];
      }
      return false;
    }
  }

  // ---------------------------------------------------------------- when cutting does not matter

  function Wires(frames: seq<Frame>): seq<Byte>
    requires forall f :: f in frames ==> ValidFrame(f)
  {
    if frames == [] then [] else Wire(frames[0]) + Wires(frames[1..])
  }

  /** What the frames have to say: their non-empty payloads. */
  function Messages(frames: seq<Frame>): seq<seq<Byte>> {
    if frames == [] then []
    else (if frames[0].payload == [] then [] else [frames[0].payload]) + Messages(frames[1..])
  }

  /** The messages are messages of the protocol. */
  predicate Accepted(frames: seq<Frame>, accepts: seq<Byte> -> bool) {
    forall f :: f in frames ==> ValidFrame(f) && (f.payload != [] ==> accepts(f.payload))
  }

  /** No empty frame stands before a non-empty one. */
  predicate EmptiesLast(frames: seq<Frame>) {
    forall i, j :: 0 <= i < j < |frames| && frames[i].payload == [] ==> frames[j].payload == []
  }

  lemma {:induction false} WiresSplit(frames: seq<Frame>, m: nat)
    requires m <= |frames| && forall f :: f in frames ==> ValidFrame(f)
    ensures Wires(frames) == Wires(frames[..m]) + Wires(frames[m..])
  {
    hide ValidFrame, Wire;
    if m == 0 {
      assert frames[m..] == frames;
    } else {
      WiresSplit(frames[1..], m - 1);
      assert frames[..m][1..] == frames[1..][..m - 1] && frames[1..][m - 1..] == frames[m..];
    }
  }

  lemma {:induction false} MessagesSplit(frames: seq<Frame>, m: nat)
    requires m <= |frames|
    ensures Messages(frames) == Messages(frames[..m]) + Messages(frames[m..])
  {
    if m == 0 {
      assert frames[m..] == frames;
    } else {
      MessagesSplit(frames[1..], m - 1);
      assert frames[..m][1..] == frames[1..][..m - 1] && frames[1..][m - 1..] == frames[m..];
    }
  }

  lemma {:induction false} NoMessages(frames: seq<Frame>)
    requires EmptiesLast(frames) && (frames != [] ==> frames[0].payload == [])
    ensures Messages(frames) == []
  {
    if frames != [] {
      NoMessages(frames[1..]);
    }
  }

  lemma WireLong(f: Frame)
    requires ValidFrame(f)
    ensures |Wire(f)| >= 2 && (f.payload != [] ==> |Wire(f)| > 2)
  {
  }

  /** One round of the loop with a whole frame in front: an empty one ends the pass. */
  lemma DrainWhole(f: Frame, rest: seq<Byte>, accepts: seq<Byte> -> bool)
    requires ValidFrame(f) && (f.payload != [] ==> accepts(f.payload)) && |Wire(f) + rest| > 2
    ensures Drain(Wire(f) + rest, accepts)
      == if f.payload == [] then Drained([], rest, Waiting)
         else Drain(rest, accepts).After([f.payload])
  {
    hide DecodeFrame, Wire, ValidFrame;
    DecodeWhole(f, rest);
  }

  lemma DrainPartial(f: Frame, k: nat, accepts: seq<Byte> -> bool)
    requires ValidFrame(f) && k < |Wire(f)|
    ensures Drain(Wire(f)[..k], accepts) == Drained([], Wire(f)[..k], Waiting)
  {
    hide DecodeFrame, Wire, ValidFrame;
    DecodePartial(f, k);
  }

  /** A pass over any prefix `p` of a stream takes whole frames off its front, dispatches their
      messages and keeps the rest.  It stops before a message only for want of bytes or behind an
      empty frame. */
  lemma {:induction false} DrainTakes(frames: seq<Frame>, p: seq<Byte>, accepts: seq<Byte> -> bool)
    returns (m: nat, rest: seq<Byte>)
    requires Accepted(frames, accepts) && p <= Wires(frames)
    ensures m <= |frames| && p == Wires(frames[..m]) + rest
    ensures Drain(p, accepts) == Drained(Messages(frames[..m]), rest, Waiting)
    ensures m < |frames| && frames[m].payload != [] ==> |rest| < |Wire(frames[m])| || (m > 0 && frames[m - 1].payload == [])
    decreases |frames|
  {
    hide Drain, Wire, ValidFrame;
    m, rest := 0, p;
    if frames == [] {
      DrainNothing(accepts);
    } else {
      var f := frames[0];
      WireLong(f);
      if |p| < |Wire(f)| {
        assert p == Wire(f)[..|p|];
        DrainPartial(f, |p|, accepts);
      } else if |p| <= 2 {
        DrainShort(p, accepts);
      } else {
        var later := p[|Wire(f)|..];
        assert p == Wire(f) + later && later <= Wires(frames[1..]);
        DrainWhole(f, later, accepts);
        if f.payload == [] {
          m, rest := 1, later;
          assert frames[..1][1..] == [];
        } else {
          m, rest := DrainTakes(frames[1..], later, accepts);
          assert frames[..m + 1][1..] == frames[1..][..m];
          m := m + 1;
        }
      }
    }
  }

  lemma DrainNothing(accepts: seq<Byte> -> bool)
    ensures Drain([], accepts) == Drained([], [], Waiting)
  {
  }

  lemma DrainShort(p: seq<Byte>, accepts: seq<Byte> -> bool)
    requires |p| <= 2
    ensures Drain(p, accepts) == Drained([], p, Waiting)
  {
  }

  function Concat(chunks: seq<seq<Byte>>): seq<Byte> {
    if chunks == [] then [] else chunks[0] + Concat(chunks[1..])
  }

  /** The client fed chunk after chunk, as long as nothing fails. */
  function Feed(buffer: seq<Byte>, chunks: seq<seq<Byte>>, accepts: seq<Byte> -> bool): Drained
    decreases |chunks|
  {
    if chunks == [] then Drained([], buffer, Waiting)
    else
      var d := Drain(buffer + chunks[0], accepts);
      if d.outcome.Failed? then d
      else
        Feed(d.rest, chunks[1..], accepts).After(d.payloads)
  }

  /** The client on a whole connection: the chunks of the socket one after the other. */
  method Deliver(client: Client, chunks: seq<seq<Byte>>) returns (failed: bool)
    modifies client
    ensures var d := Feed(old(client.unprocessed), chunks, client.accepts);
      client.unprocessed == d.rest && client.dispatched == old(client.dispatched) + d.payloads && failed == d.outcome.Failed?
  {
    hide Drain, Feed;
    ghost var whole := Feed(client.unprocessed, chunks, client.accepts);
    ghost var seen: seq<seq<Byte>> := [];
    for i := 0 to |chunks|
      invariant client.dispatched == old(client.dispatched) + seen
      invariant whole == Feed(client.unprocessed, chunks[i..], client.accepts).After(seen)
    {
      ghost var d := Drain(client.unprocessed + chunks[i], client.accepts);
      FeedStep(client.unprocessed, chunks, i, client.accepts);
      AfterTwice(Feed(d.rest, chunks[i + 1..], client.accepts), seen, d.payloads);
      failed := client.HandleChunk(chunks[i]);
      seen := seen + d.payloads;
      if failed {
        return;
      }
    }
    assert chunks[|chunks|..] == [];
    FeedEnd(client.unprocessed, client.accepts);
    return false;
  }

  lemma FeedStep(buffer: seq<Byte>, chunks: seq<seq<Byte>>, i: nat, accepts: seq<Byte> -> bool)
    requires i < |chunks|
    ensures var d := Drain(buffer + chunks[i], accepts);
      Feed(buffer, chunks[i..], accepts) == if d.outcome.Failed? then d else Feed(d.rest, chunks[i + 1..], accepts).After(d.payloads)
  {
    hide Drain;
    assert chunks[i..][0] == chunks[i] && chunks[i..][1..] == chunks[i + 1..];
  }

  lemma FeedEnd(buffer: seq<Byte>, accepts: seq<Byte> -> bool)
    ensures Feed(buffer, [], accepts) == Drained([], buffer, Waiting)
  {
  }

  /** The buffer does not hold a message that a pass has left behind. */
  predicate NoneBehind(frames: seq<Frame>, buffer: seq<Byte>)
    requires forall f :: f in frames ==> ValidFrame(f)
  {
    frames != [] && frames[0].payload != [] ==> |buffer| < |Wire(frames[0])|
  }

  lemma {:induction false} FeedTakes(frames: seq<Frame>, buffer: seq<Byte>, chunks: seq<seq<Byte>>, accepts: seq<Byte> -> bool)
    requires Accepted(frames, accepts) && EmptiesLast(frames)
    requires buffer + Concat(chunks) == Wires(frames) && NoneBehind(frames, buffer)
    ensures var d := Feed(buffer, chunks, accepts);
      && d.payloads == Messages(frames) && d.outcome == Waiting
      && ((forall f :: f in frames ==> f.payload != []) ==> d.rest == [])
    decreases |chunks|
  {
    hide Drain, Wire, Wires, Messages, ValidFrame;
    if chunks == [] {
      assert buffer + [] == buffer;
      WholeBuffer(frames);
      NoMessages(frames);
    } else {
      var c, later := chunks[0], chunks[1..];
      var p := buffer + c;
      assert buffer + Concat(chunks) == p + Concat(later);
      assert p == Wires(frames)[..|p|];
      var m, rest := DrainTakes(frames, p, accepts);
      WiresSplit(frames, m);
      MessagesSplit(frames, m);
      assert rest + Concat(later) == Wires(frames[m..]) by {
        assert Wires(frames[..m]) + (rest + Concat(later)) == Wires(frames[..m]) + Wires(frames[m..]);
        SameTail(Wires(frames[..m]), rest + Concat(later), Wires(frames[m..]));
      }
      FeedTakes(frames[m..], rest, later, accepts);
    }
  }

  lemma SameTail(a: seq<Byte>, b: seq<Byte>, c: seq<Byte>)
    requires a + b == a + c
    ensures b == c
  {
    assert b == (a + b)[|a|..] == (a + c)[|a|..] == c;
  }

  /** With every byte buffered, a first message would be there as a whole. */
  lemma WholeBuffer(frames: seq<Frame>)
    requires forall f :: f in frames ==> ValidFrame(f)
    requires NoneBehind(frames, Wires(frames))
    ensures frames != [] ==> frames[0].payload == []
    ensures frames == [] ==> Wires(frames) == []
  {
    hide Wire, ValidFrame;
  }

  /** However a stream is cut into chunks, if no empty frame stands before a message the client
      dispatches exactly the messages, in order; without empty frames it ends with an empty buffer. */
  lemma CuttingDoesNotMatter(frames: seq<Frame>, chunks: seq<seq<Byte>>, accepts: seq<Byte> -> bool)
    requires Accepted(frames, accepts) && EmptiesLast(frames) && Concat(chunks) == Wires(frames)
    ensures var d := Feed([], chunks, accepts);
      && d.payloads == Messages(frames) && d.outcome == Waiting
      && ((forall f :: f in frames ==> f.payload != []) ==> d.rest == [])
  {
    hide Feed, Wire;
    assert [] + Concat(chunks) == Concat(chunks);
    if frames != [] { WireLong(frames[0]); }
    FeedTakes(frames, [], chunks, accepts);
  }

  /** A message behind an empty frame is not dispatched when everything comes in one chunk. */
  lemma {:induction false} OneChunkStalls(frames: seq<Frame>, accepts: seq<Byte> -> bool)
    requires Accepted(frames, accepts) && !EmptiesLast(frames)
    ensures |Drain(Wires(frames), accepts).payloads| < |Messages(frames)|
  {
    hide Drain, Wire, ValidFrame;
    var f, later := frames[0], frames[1..];
    WireLong(f);
    WireLong(later[0]);
    assert Wires(frames) == Wire(f) + Wires(later);
    DrainWhole(f, Wires(later), accepts);
    if f.payload == [] {
      var j :| 1 <= j < |frames| && frames[j].payload != [];
      MessagesSplit(frames, j);
    } else {
      OneChunkStalls(later, accepts);
    }
  }

  /** The client dispatches the messages of a stream in whatever chunks it comes. */
  ghost predicate Robust(frames: seq<Frame>, accepts: seq<Byte> -> bool)
    requires forall f :: f in frames ==> ValidFrame(f)
  {
    forall chunks: seq<seq<Byte>> | Concat(chunks) == Wires(frames) ::
      Feed([], chunks, accepts).payloads == Messages(frames) && Feed([], chunks, accepts).outcome == Waiting
  }

  /** The exact condition: cutting does not matter if and only if no empty frame stands before a
      message. */
  lemma RobustExactly(frames: seq<Frame>, accepts: seq<Byte> -> bool)
    requires Accepted(frames, accepts)
    ensures Robust(frames, accepts) <==> EmptiesLast(frames)
  {
    hide Feed, Drain, Wire, ValidFrame, EmptiesLast, Messages;
    if EmptiesLast(frames) {
      forall chunks: seq<seq<Byte>> | Concat(chunks) == Wires(frames)
        ensures Feed([], chunks, accepts).payloads == Messages(frames) && Feed([], chunks, accepts).outcome == Waiting
      {
        CuttingDoesNotMatter(frames, chunks, accepts);
      }
    } else {
      OneChunkStalls(frames, accepts);
      FeedOne(Wires(frames), accepts);
      assert Concat([Wires(frames)]) == Wires(frames);
    }
  }

  lemma FeedOne(bytes: seq<Byte>, accepts: seq<Byte> -> bool)
    ensures Feed([], [bytes], accepts).payloads == Drain(bytes, accepts).payloads
  {
    hide Drain;
    assert [] + bytes == bytes && [bytes][1..] == [];
    var d := Drain(bytes, accepts);
    assert d.payloads + [] == d.payloads;
  }

  /** The simplest case: behind an empty frame a message waits for more bytes, even for none. */
  lemma EmptyFrameStalls(e: Frame, f: Frame, accepts: seq<Byte> -> bool)
    requires ValidFrame(e) && e.payload == [] && ValidFrame(f) && f.payload != [] && accepts(f.payload)
    ensures var bytes := Wire(e) + Wire(f);
      && Feed([], [bytes], accepts).payloads == []
      && Feed([], [bytes, []], accepts).payloads == [f.payload]
  {
    hide Wire, Drain;
    var bytes: seq<Byte> := Wire(e) + Wire(f);
    WireLong(e);
    WireLong(f);
    DrainWhole(e, Wire(f), accepts);
    DrainWhole(f, [], accepts);
    DrainNothing(accepts);
    assert Wire(f) + [] == Wire(f) && [] + bytes == bytes;
    var nothing: seq<Byte> := [];
    assert [bytes][1..] == [] && [bytes, nothing][1..] == [nothing] && [nothing][1..] == [];
    assert Feed(Wire(f), [nothing], accepts).payloads == [f.payload];
  }

  // ---------------------------------------------------------------- the encoder

  /** Exclusive or of the lowest `n` bits. */
  function XorBits(a: nat, b: nat, n: nat): nat {
    if n == 0 then 0 else 2 * XorBits(a / 2, b / 2, n - 1) + (a % 2 + b % 2) % 2
  }

  function Pow2(n: nat): nat {
    if n == 0 then 1 else 2 * Pow2(n - 1)
  }

  lemma {:induction false} XorBitsBound(a: nat, b: nat, n: nat)
    ensures XorBits(a, b, n) < Pow2(n)
  {
    if n > 0 {
      XorBitsBound(a / 2, b / 2, n - 1);
    }
  }

  lemma Halves(x: nat, bit: nat)
    requires bit < 2
    ensures (2 * x + bit) / 2 == x && (2 * x + bit) % 2 == bit
  {
  }

  lemma XorBitsStep(a: nat, b: nat, n: nat)
    requires n > 0
    ensures XorBits(a, b, n) == 2 * XorBits(a / 2, b / 2, n - 1) + (a % 2 + b % 2) % 2
  {
  }

  lemma OddTwice(p: nat, q: nat)
    requires p < 2 && q < 2
    ensures ((p + q) % 2 + q) % 2 == p
  {
  }

  lemma {:induction false} XorBitsTwice(a: nat, b: nat, n: nat)
    requires a < Pow2(n)
    ensures XorBits(XorBits(a, b, n), b, n) == a
  {
    if n > 0 {
      XorBitsTwice(a / 2, b / 2, n - 1);
      hide Pow2, XorBits;
      var x, bit := XorBits(a / 2, b / 2, n - 1), (a % 2 + b % 2) % 2;
      XorBitsStep(a, b, n);
      XorBitsStep(2 * x + bit, b, n);
      Halves(x, bit);
      OddTwice(a % 2, b % 2);
    }
  }

  lemma Pow2Eight()
    ensures Pow2(8) == 256
  {
    assert Pow2(3) == 8 && Pow2(6) == 64;
  }

  function Xor(a: Byte, b: Byte): Byte {
    Pow2Eight();
    XorBitsBound(a, b, 8);
    XorBits(a, b, 8)
  }

  lemma XorTwice(a: Byte, b: Byte)
    ensures Xor(Xor(a, b), b) == a
  {
    Pow2Eight();
    XorBitsTwice(a, b, 8);
  }

  /** What a server makes of a masked frame (section 5.2 of RFC 6455): the payload length in 7, 16 or
      64 bits, the masking key, and the payload under the key. */
  function ServerDecode(frame: seq<Byte>): Option<seq<Byte>> {
    if |frame| < 2 || frame[0] != 0x81 || frame[1] < 128 then None
    else
      var n := frame[1] % 128;
      var width := if n == 126 then 2 else if n == 127 then 8 else 0;
      if |frame| < 2 + width + 4 then None
      else
        var length := if width == 0 then n else BigEndian(frame[2..2 + width]);
        var key, masked := frame[2 + width..6 + width], frame[6 + width..];
        if |masked| != length then None else Some(Unmask(masked, key))
  }

  function BigEndian(bytes: seq<Byte>): nat {
    if bytes == [] then 0 else BigEndian(bytes[..|bytes| - 1]) * 256 + bytes[|bytes| - 1]
  }

  function Unmask(masked: seq<Byte>, key: seq<Byte>): seq<Byte>
    requires |key| == 4
  {
    seq(|masked|, i requires 0 <= i < |masked| => Xor(masked[i], key[i % 4]))
  }

  function Shifted(n: nat, i: nat): nat {
    if i == 0 then n else Shifted(n, i - 1) / 256
  }

  /** The loop that writes the eight length bytes from the last to the first. */
  method WriteLength(n: nat) returns (bytes: seq<Byte>)
    requires n < GIB2
    ensures bytes == LengthBytes(n)
  {
    var buffer := new Byte[8](_ => 0);
    var remaining := n;
    for i := 0 to 8
      invariant remaining == Shifted(n, i)
      invariant forall k :: 8 - i <= k < 8 ==> buffer[k] == Digit(n, k)
    {
      buffer[7 - i] := remaining % 256;
      remaining := remaining / 256;
    }
    bytes := buffer[..];
    ShiftedDigits(n);
  }

  /** Byte `k` of the eight, counted from the most significant. */
  function Digit(n: nat, k: nat): Byte
    requires k < 8
  {
    Shifted(n, 7 - k) % 256
  }

  lemma ShiftedDigits(n: nat)
    requires n < GIB2
    ensures forall k :: 0 <= k < 8 ==> Digit(n, k) == LengthBytes(n)[k]
  {
    assert Shifted(n, 1) == n / 256;
    assert Shifted(n, 2) == n / 256 / 256 == n / 0x1_0000;
    assert Shifted(n, 3) == n / 0x1_0000 / 256 == n / 0x100_0000 < 128;
    assert Shifted(n, 4) == 0;
    assert Shifted(n, 5) == 0;
    assert Shifted(n, 6) == 0;
    assert Shifted(n, 7) == 0;
  }

  /** `encodeFrameHybi17`: a server reads the payload back, for every payload below two
      gibibytes. */
  method EncodeFrame(payload: seq<Byte>) returns (frame: seq<Byte>)
    requires |payload| < GIB2
    ensures ServerDecode(frame) == Some(payload)
    ensures |frame| == |payload| + (if |payload| <= 125 then 6 else if |payload| < KIB64 then 8 else 14)
  {
    var dataLength := |payload|;
    var singleByteLength: int;
    var additionalLength: seq<Byte>;
    if dataLength > 0xFFFF {
      singleByteLength := 127;
      additionalLength := WriteLength(dataLength);
      BigEndianEight(dataLength);
    } else if dataLength > 125 {
      singleByteLength := 126;
      additionalLength := [dataLength / 256, dataLength % 256];
      BigEndianTwo(dataLength / 256, dataLength % 256);
    } else {
      singleByteLength := dataLength;
      additionalLength := [];
    }
    var header := [0x81, 128 + singleByteLength];
    var mask: seq<Byte> := [0, 0, 0, 0];
    var masked := MaskPayload(payload, mask);
    frame := header + additionalLength + mask + masked;
    MaskedReads(frame, singleByteLength, additionalLength, mask, masked);
  }

  /** Masking with any key is undone by unmasking with it. */
  method MaskPayload(payload: seq<Byte>, mask: seq<Byte>) returns (masked: seq<Byte>)
    requires |mask| == 4
    ensures |masked| == |payload| && Unmask(masked, mask) == payload
  {
    hide Xor;
    masked := [];
    for i := 0 to |payload|
      invariant |masked| == i && forall k :: 0 <= k < i ==> masked[k] == Xor(payload[k], mask[k % 4])
    {
      masked := masked + [Xor(payload[i], mask[i % 4])];
    }
    forall i | 0 <= i < |payload| ensures Unmask(masked, mask)[i] == payload[i] {
      XorTwice(payload[i], mask[i % 4]);
    }
  }

  lemma MaskedReads(frame: seq<Byte>, single: int, additional: seq<Byte>, key: seq<Byte>, masked: seq<Byte>)
    requires 0 <= single < 128 && |additional| == (if single == 126 then 2 else if single == 127 then 8 else 0)
    requires |key| == 4 && frame == [0x81, 128 + single] + additional + key + masked
    requires |masked| == if single <= 125 then single else BigEndian(additional)
    ensures ServerDecode(frame) == Some(Unmask(masked, key))
  {
    hide BigEndian, Unmask;
    var width := |additional|;
    var header: seq<Byte> := [0x81, 128 + single];
    assert frame == header + (additional + (key + masked));
    assert frame[..2] == header && frame[1] % 128 == single;
    assert frame[2..] == additional + (key + masked);
    assert frame[2..2 + width] == additional;
    assert frame[2 + width..] == key + masked;
    assert frame[2 + width..6 + width] == key;
    assert frame[6 + width..] == masked;
  }

  lemma BigEndianTwo(high: Byte, low: Byte)
    ensures BigEndian([high, low]) == high * 256 + low
  {
    BigEndianSnoc([], high);
    BigEndianSnoc([high], low);
    assert [] + [high] == [high] && [high] + [low] == [high, low];
  }

  lemma BigEndianEight(n: nat)
    requires n < GIB2
    ensures BigEndian(LengthBytes(n)) == n
  {
    hide BigEndian;
    var bytes := LengthBytes(n);
    Digits(n);
    BigEndianSnoc(bytes[..0], 0);
    BigEndianSnoc(bytes[..1], 0);
    BigEndianSnoc(bytes[..2], 0);
    BigEndianSnoc(bytes[..3], 0);
    BigEndianSnoc(bytes[..4], bytes[4]);
    BigEndianSnoc(bytes[..5], bytes[5]);
    BigEndianSnoc(bytes[..6], bytes[6]);
    BigEndianSnoc(bytes[..7], bytes[7]);
    assert BigEndian([]) == 0 by { BigEndianEmpty(); }
    assert bytes[..0] == [] && bytes[..0] + [0] == bytes[..1] && bytes[..1] + [0] == bytes[..2];
    assert bytes[..2] + [0] == bytes[..3] && bytes[..3] + [0] == bytes[..4];
    assert bytes[..4] + [bytes[4]] == bytes[..5] && bytes[..5] + [bytes[5]] == bytes[..6];
    assert bytes[..6] + [bytes[6]] == bytes[..7] && bytes[..7] + [bytes[7]] == bytes;
  }

  lemma BigEndianSnoc(bytes: seq<Byte>, b: Byte)
    ensures BigEndian(bytes + [b]) == BigEndian(bytes) * 256 + b
  {
    assert (bytes + [b])[..|bytes|] == bytes;
  }

  lemma BigEndianEmpty()
    ensures BigEndian([]) == 0
  {
  }
}
