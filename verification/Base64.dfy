/** The table-driven base64 codec of `deps/modp_b64`, which serves `atob`, `btoa` and the buffer
    encoder, against the 24-bit groups of section 4 of RFC 4648. */
module Base64 {
  import opened Common

  type Byte = bv8

  const PAD: Byte := 0x3D
  const BADCHAR: bv32 := 0x01FF_FFFF

  // ---------------------------------------------------------------- the alphabet

  /** The letter of a six-bit value. */
  function Letter(v: bv8): (c: Byte)
    ensures v < 64 ==> InAlphabet(c) && Value(c) == v
    ensures v < 64 ==> c != PAD
  {
    if v < 26 then 0x41 + v
    else if v < 52 then 0x61 + (v - 26)
    else if v < 62 then 0x30 + (v - 52)
    else if v == 62 then 0x2B
    else 0x2F
  }

  predicate InAlphabet(c: Byte) {
    0x41 <= c <= 0x5A || 0x61 <= c <= 0x7A || 0x30 <= c <= 0x39 || c == 0x2B || c == 0x2F
  }

  function Value(c: Byte): (v: bv8) {
    if 0x41 <= c <= 0x5A then c - 0x41
    else if 0x61 <= c <= 0x7A then c - 0x61 + 26
    else if 0x30 <= c <= 0x39 then c - 0x30 + 52
    else if c == 0x2B then 62
    else 63
  }

  lemma ValueOfLetter(c: Byte)
    requires InAlphabet(c)
    ensures Value(c) < 64 && Letter(Value(c)) == c
  {
  }

  // ---------------------------------------------------------------- 24-bit groups

  function Group(a: Byte, b: Byte, c: Byte): bv24 {
    ((a as bv24) << 16) | ((b as bv24) << 8) | (c as bv24)
  }

  function Sextet(g: bv24, shift: int): (v: bv8)
    requires 0 <= shift <= 18
    ensures v < 64
  {
    ((g >> shift) & 63) as bv8
  }

  /** The four letters of three bytes. */
  function Quad(a: Byte, b: Byte, c: Byte): (q: seq<Byte>)
    ensures |q| == 4
  {
    var g := Group(a, b, c);
    [Letter(Sextet(g, 18)), Letter(Sextet(g, 12)), Letter(Sextet(g, 6)), Letter(Sextet(g, 0))]
  }

  function Gather(v0: bv8, v1: bv8, v2: bv8, v3: bv8): bv24 {
    ((v0 as bv24) << 18) | ((v1 as bv24) << 12) | ((v2 as bv24) << 6) | (v3 as bv24)
  }

  /** The three bytes of a group. */
  function Bytes(g: bv24): (t: seq<Byte>)
    ensures |t| == 3
  {
    [((g >> 16) & 255) as bv8, ((g >> 8) & 255) as bv8, (g & 255) as bv8]
  }

  lemma GroupRoundTrip(a: Byte, b: Byte, c: Byte)
    ensures var g := Group(a, b, c);
      Bytes(Gather(Sextet(g, 18), Sextet(g, 12), Sextet(g, 6), Sextet(g, 0))) == [a, b, c]
  {
    hide Group, Gather, Sextet, Bytes;
    GatherSextets(Group(a, b, c));
    BytesOfGroup(a, b, c);
  }

  lemma GatherSextets(g: bv24)
    ensures Gather(Sextet(g, 18), Sextet(g, 12), Sextet(g, 6), Sextet(g, 0)) == g
  {
    var g0, g1, g2, g3 := (g >> 18) & 63, (g >> 12) & 63, (g >> 6) & 63, g & 63;
    Widen(g0);
    Widen(g1);
    Widen(g2);
    Widen(g3);
    Assemble(g);
  }

  lemma Widen(x: bv24)
    requires x < 64
    ensures (x as bv8) as bv24 == x
  {
  }

  lemma Assemble(g: bv24)
    ensures (((g >> 18) & 63) << 18) | (((g >> 12) & 63) << 12) | (((g >> 6) & 63) << 6) | (g & 63) == g
  {
  }

  lemma BytesOfGroup(a: Byte, b: Byte, c: Byte)
    ensures Bytes(Group(a, b, c)) == [a, b, c]
  {
  }

  lemma GatherRoundTrip(v0: bv8, v1: bv8, v2: bv8, v3: bv8)
    requires v0 < 64 && v1 < 64 && v2 < 64 && v3 < 64
    ensures var t := Bytes(Gather(v0, v1, v2, v3));
      Group(t[0], t[1], t[2]) == Gather(v0, v1, v2, v3)
    ensures var g := Gather(v0, v1, v2, v3);
      Sextet(g, 18) == v0 && Sextet(g, 12) == v1 && Sextet(g, 6) == v2 && Sextet(g, 0) == v3
  {
  }

  // ---------------------------------------------------------------- what the codec computes

  function Encoded(s: seq<Byte>): (r: seq<Byte>)
    ensures |r| == (|s| + 2) / 3 * 4
  {
    if |s| >= 3 then Quad(s[0], s[1], s[2]) + Encoded(s[3..])
    else if |s| == 2 then Quad(s[0], s[1], 0)[..3] + [PAD]
    else if |s| == 1 then Quad(s[0], 0, 0)[..2] + [PAD, PAD]
    else []
  }

  /** The three bytes of four letters. */
  function Three(c0: Byte, c1: Byte, c2: Byte, c3: Byte): (t: seq<Byte>)
    ensures |t| == 3
  {
    Bytes(Gather(Value(c0), Value(c1), Value(c2), Value(c3)))
  }

  predicate AllIn(s: seq<Byte>) {
    forall i :: 0 <= i < |s| ==> InAlphabet(s[i])
  }

  function Pads(s: seq<Byte>): (n: nat)
    ensures n <= 2 && n <= |s|
  {
    if |s| >= 1 && s[|s| - 1] == PAD then if |s| >= 2 && s[|s| - 2] == PAD then 2 else 1
    else 0
  }

  /** The last quad, where up to two letters may be padding. */
  function DecodedLast(q: seq<Byte>): Option<seq<Byte>>
    requires |q| == 4
  {
    if !AllIn(q[..4 - Pads(q)]) then None
    else if Pads(q) == 0 then Some(Three(q[0], q[1], q[2], q[3]))
    else if Pads(q) == 1 then Some(Bytes(Gather(Value(q[0]), Value(q[1]), Value(q[2]), 0))[..2])
    else Some(Bytes(Gather(Value(q[0]), Value(q[1]), 0, 0))[..1])
  }

  function Prefixed(s: seq<Byte>, r: Option<seq<Byte>>): Option<seq<Byte>> {
    if r.None? then None else Some(s + r.value)
  }

  lemma PrefixedTwice(a: seq<Byte>, b: seq<Byte>, r: Option<seq<Byte>>)
    ensures Prefixed(a, Prefixed(b, r)) == Prefixed(a + b, r) && Prefixed([], r) == r
  {
    if r.Some? {
      assert a + (b + r.value) == (a + b) + r.value && [] + r.value == r.value;
    }
  }

  function Decoded(s: seq<Byte>): Option<seq<Byte>> {
    if s == [] then Some([])
    else if |s| < 4 then None
    else if |s| == 4 then DecodedLast(s)
    else if !AllIn(s[..4]) then None
    else Prefixed(Three(s[0], s[1], s[2], s[3]), Decoded(s[4..]))
  }

  /** Exactly the strings of whole quads whose letters before at most two padding characters are
      all in the alphabet are accepted. */
  lemma {:induction false} Accepts(s: seq<Byte>)
    ensures Decoded(s).Some? <==> |s| % 4 == 0 && AllIn(s[..|s| - Pads(s)])
  {
    hide DecodedLast, Three, AllIn, Pads, Decoded;
    if |s| <= 4 {
      AcceptsShort(s);
    } else {
      DecodedMore(s);
      if |s| == 5 {
        AcceptsShort(s[4..]);
      } else {
        Accepts(s[4..]);
        PadsBehind(s);
        var n := |s| - Pads(s);
        assert s[..n] == s[..4] + s[4..][..n - 4];
        AllInSplit(s[..4], s[4..][..n - 4]);
      }
    }
  }

  lemma AcceptsShort(s: seq<Byte>)
    requires |s| <= 4
    ensures Decoded(s).Some? <==> |s| % 4 == 0 && AllIn(s[..|s| - Pads(s)])
    ensures 0 < |s| < 4 ==> Decoded(s).None?
  {
    hide DecodedLast, Three, AllIn;
    if |s| == 4 {
      AcceptsLast(s);
    } else if |s| == 0 {
      assert AllIn(s[..0]) by { AllInNothing(); }
    }
  }

  lemma DecodedMore(s: seq<Byte>)
    requires |s| > 4
    ensures Decoded(s).Some? <==> AllIn(s[..4]) && Decoded(s[4..]).Some?
  {
    hide DecodedLast, Three, AllIn;
  }

  lemma PadsBehind(s: seq<Byte>)
    requires |s| >= 6
    ensures Pads(s[4..]) == Pads(s)
  {
  }

  /** The length is what the padding says. */
  lemma {:induction false} DecodedLength(s: seq<Byte>)
    requires Decoded(s).Some?
    ensures |s| % 4 == 0 && |Decoded(s).value| == |s| / 4 * 3 - Pads(s)
  {
    hide DecodedLast, Three, AllIn;
    if |s| == 4 {
      AcceptsLast(s);
    } else if |s| > 4 {
      DecodedLength(s[4..]);
      PadsBehind(s);
    }
  }

  lemma AllInNothing()
    ensures AllIn([])
  {
  }

  lemma AcceptsLast(q: seq<Byte>)
    requires |q| == 4
    ensures DecodedLast(q).Some? <==> AllIn(q[..4 - Pads(q)])
    ensures DecodedLast(q).Some? ==> |DecodedLast(q).value| == 3 - Pads(q)
  {
  }

  lemma AllInFirst(q: seq<Byte>)
    requires |q| == 4
    ensures AllIn(q[..2]) <==> InAlphabet(q[0]) && InAlphabet(q[1])
    ensures AllIn(q[..3]) <==> InAlphabet(q[0]) && InAlphabet(q[1]) && InAlphabet(q[2])
  {
    hide InAlphabet;
    var a, b := q[..2], q[..3];
    assert AllIn(a) ==> InAlphabet(a[0]) && InAlphabet(a[1]);
    assert AllIn(b) ==> InAlphabet(b[0]) && InAlphabet(b[1]) && InAlphabet(b[2]);
  }

  lemma AllInSplit(a: seq<Byte>, b: seq<Byte>)
    ensures AllIn(a + b) <==> AllIn(a) && AllIn(b)
  {
    if AllIn(a + b) {
      forall i | 0 <= i < |a| ensures InAlphabet(a[i]) { assert (a + b)[i] == a[i]; }
      forall i | 0 <= i < |b| ensures InAlphabet(b[i]) { assert (a + b)[|a| + i] == b[i]; }
    }
  }

  // ---------------------------------------------------------------- round trips

  lemma QuadDecodes(a: Byte, b: Byte, c: Byte)
    ensures var q := Quad(a, b, c);
      AllIn(q) && Three(q[0], q[1], q[2], q[3]) == [a, b, c] && (forall i :: 0 <= i < 4 ==> q[i] != PAD)
  {
    hide Letter, Value, InAlphabet, Group, Gather, Bytes;
    GroupRoundTrip(a, b, c);
  }

  lemma OneDecodes(a: Byte)
    ensures DecodedLast(Quad(a, 0, 0)[..2] + [PAD, PAD]) == Some([a])
  {
    hide Letter, Value, InAlphabet, Group, Gather, Bytes, Sextet;
    var q := Quad(a, 0, 0);
    var l := q[..2] + [PAD, PAD];
    assert Pads(l) == 2 && l[..2] == q[..2];
    QuadDecodes(a, 0, 0);
    TailGathers(a, 0);
  }

  lemma TwoDecode(a: Byte, b: Byte)
    ensures DecodedLast(Quad(a, b, 0)[..3] + [PAD]) == Some([a, b])
  {
    hide Letter, Value, InAlphabet, Group, Gather, Bytes, Sextet;
    var q := Quad(a, b, 0);
    var l := q[..3] + [PAD];
    QuadDecodes(a, b, 0);
    assert Pads(l) == 1 && l[..3] == q[..3] by { assert l[2] == q[2]; }
    TailGathers(a, b);
  }

  lemma TailGathers(a: Byte, b: Byte)
    ensures var g := Group(a, 0, 0); Bytes(Gather(Sextet(g, 18), Sextet(g, 12), 0, 0))[..1] == [a]
    ensures var g := Group(a, b, 0); Bytes(Gather(Sextet(g, 18), Sextet(g, 12), Sextet(g, 6), 0))[..2] == [a, b]
  {
  }

  /** Whatever is encoded decodes to itself, in all three cases of padding. */
  lemma {:induction false} RoundTrip(s: seq<Byte>)
    ensures Decoded(Encoded(s)) == Some(s)
  {
    hide Quad, Three, DecodedLast, AllIn;
    if |s| >= 3 {
      var q, rest := Quad(s[0], s[1], s[2]), Encoded(s[3..]);
      QuadDecodes(s[0], s[1], s[2]);
      RoundTrip(s[3..]);
      LastFull(q);
      DecodesQuad(q, rest);
      assert s == [s[0], s[1], s[2]] + s[3..];
    } else if |s| == 2 {
      TwoDecode(s[0], s[1]);
      assert s == [s[0], s[1]];
    } else if |s| == 1 {
      OneDecodes(s[0]);
      assert s == [s[0]];
    }
  }

  lemma DecodesQuad(q: seq<Byte>, rest: seq<Byte>)
    requires |q| == 4 && AllIn(q)
    ensures Decoded(q + rest) == Prefixed(Three(q[0], q[1], q[2], q[3]), Decoded(rest))
  {
    hide Three, DecodedLast, Pads;
    LastFull(q);
    if rest == [] {
      var t := Three(q[0], q[1], q[2], q[3]);
      assert q + rest == q && t + [] == t;
    } else {
      assert (q + rest)[..4] == q && (q + rest)[4..] == rest;
    }
  }

  lemma LastFull(q: seq<Byte>)
    requires |q| == 4 && AllIn(q)
    ensures DecodedLast(q) == Some(Three(q[0], q[1], q[2], q[3]))
  {
    assert q[..4] == q;
  }

  /** The bits of the last letter that no byte takes up are zero. */
  predicate Canonical(s: seq<Byte>) {
    && (Pads(s) == 1 && |s| >= 4 ==> Value(s[|s| - 2]) & 3 == 0)
    && (Pads(s) == 2 && |s| >= 4 ==> Value(s[|s| - 3]) & 15 == 0)
  }

  lemma ThreeEncodes(q: seq<Byte>)
    requires |q| == 4 && AllIn(q)
    ensures var t := Three(q[0], q[1], q[2], q[3]); Quad(t[0], t[1], t[2]) == q
  {
    hide Letter, Value, InAlphabet, Group, Gather, Bytes, Sextet;
    ValueOfLetter(q[0]);
    ValueOfLetter(q[1]);
    ValueOfLetter(q[2]);
    ValueOfLetter(q[3]);
    GatherRoundTrip(Value(q[0]), Value(q[1]), Value(q[2]), Value(q[3]));
  }

  /** Clearing the low bits changes the letter unless they were clear. */
  lemma LettersDiffer(v: bv8)
    requires v < 64
    ensures Letter(v) == Letter(v & 60) <==> v & 3 == 0
    ensures Letter(v) == Letter(v & 48) <==> v & 15 == 0
  {
  }

  lemma PartialGroups(v0: bv8, v1: bv8, v2: bv8)
    requires v0 < 64 && v1 < 64 && v2 < 64
    ensures var t := Bytes(Gather(v0, v1, v2, 0)); Group(t[0], t[1], 0) == Gather(v0, v1, v2 & 60, 0)
    ensures var t := Bytes(Gather(v0, v1, 0, 0)); Group(t[0], 0, 0) == Gather(v0, v1 & 48, 0, 0)
    ensures v2 & 60 < 64 && v1 & 48 < 64
  {
  }

  lemma PartialGathers(v0: bv8, v1: bv8, v2: bv8)
    requires v0 < 64 && v1 < 64 && v2 < 64
    ensures var t := Bytes(Gather(v0, v1, v2, 0)); var g := Group(t[0], t[1], 0);
      Sextet(g, 18) == v0 && Sextet(g, 12) == v1 && Sextet(g, 6) == v2 & 60
    ensures var t := Bytes(Gather(v0, v1, 0, 0)); var g := Group(t[0], 0, 0);
      Sextet(g, 18) == v0 && Sextet(g, 12) == v1 & 48
  {
    PartialGroups(v0, v1, v2);
    hide Group, Gather, Sextet, Bytes;
    GatherRoundTrip(v0, v1, v2 & 60, 0);
    GatherRoundTrip(v0, v1 & 48, 0, 0);
  }

  lemma LastEncodes(q: seq<Byte>)
    requires |q| == 4 && DecodedLast(q).Some?
    ensures Encoded(DecodedLast(q).value) == q <==> Canonical(q)
  {
    hide Letter, Value, InAlphabet, Group, Gather, Bytes, Sextet;
    ValueOfLetter(q[0]);
    ValueOfLetter(q[1]);
    var v0, v1 := Value(q[0]), Value(q[1]);
    if Pads(q) == 0 {
      assert q[..4] == q;
      ThreeEncodes(q);
    } else if Pads(q) == 1 {
      ValueOfLetter(q[2]);
      var v2 := Value(q[2]);
      PartialGathers(v0, v1, v2);
      LettersDiffer(v2);
      var e := Encoded(DecodedLast(q).value);
      assert e[0] == q[0] && e[1] == q[1] && e[2] == Letter(v2 & 60) && e[3] == q[3];
      assert e == q <==> e[2] == q[2];
    } else {
      PartialGathers(v0, v1, 0);
      LettersDiffer(v1);
      var e := Encoded(DecodedLast(q).value);
      assert e[0] == q[0] && e[1] == Letter(v1 & 48) && e[2] == q[2] && e[3] == q[3];
      assert e == q <==> e[1] == q[1];
    }
  }

  lemma EncodedNothing()
    ensures Encoded([]) == []
  {
  }

  lemma EncodedThree(t: seq<Byte>, r: seq<Byte>)
    requires |t| == 3
    ensures Encoded(t + r) == Quad(t[0], t[1], t[2]) + Encoded(r)
  {
    hide Quad;
    assert (t + r)[3..] == r;
  }

  /** Decoding forgets nothing exactly when the unused bits were zero. */
  lemma {:induction false} Reencodes(s: seq<Byte>)
    requires Decoded(s).Some?
    ensures Encoded(Decoded(s).value) == s <==> Canonical(s)
  {
    hide Quad, Three, DecodedLast, Value, Encoded;
    EncodedNothing();
    if |s| == 4 {
      LastEncodes(s);
    } else if |s| > 4 {
      Reencodes(s[4..]);
      Accepts(s[4..]);
      DecodedLength(s[4..]);
      ThreeEncodes(s[..4]);
      var t, r := Three(s[0], s[1], s[2], s[3]), Decoded(s[4..]).value;
      EncodedThree(t, r);
      assert s == s[..4] + s[4..];
    }
  }

  /** "AB==" and "AA==" both decode to the one byte 0. */
  lemma SlackWitness()
    ensures Decoded([0x41, 0x42, PAD, PAD]) == Decoded([0x41, 0x41, PAD, PAD]) == Some([0])
    ensures !Canonical([0x41, 0x42, PAD, PAD]) && Canonical([0x41, 0x41, PAD, PAD])
  {
    var p, q: seq<Byte> := [0x41, 0x42, PAD, PAD], [0x41, 0x41, PAD, PAD];
    assert Pads(p) == 2 && Pads(q) == 2 && AllIn(p[..2]) && AllIn(q[..2]);
    assert Bytes(Gather(0, 1, 0, 0))[..1] == [0] && Bytes(Gather(0, 0, 0, 0))[..1] == [0];
  }

  // ---------------------------------------------------------------- the tables

  function E0(t: Byte): Byte { Letter(t >> 2) }

  /** The second and third table of letters are the same. */
  function E1(t: Byte): Byte { Letter(t & 63) }

  function D0(c: Byte): bv32 {
    if InAlphabet(c) then (Value(c) as bv32) << 2 else BADCHAR
  }

  function D1(c: Byte): bv32 {
    if InAlphabet(c) then ((Value(c) as bv32) >> 4) | (((Value(c) as bv32) & 15) << 12) else BADCHAR
  }

  function D2(c: Byte): bv32 {
    if InAlphabet(c) then (((Value(c) as bv32) >> 2) << 8) | (((Value(c) as bv32) & 3) << 22) else BADCHAR
  }

  function D3(c: Byte): bv32 {
    if InAlphabet(c) then (Value(c) as bv32) << 16 else BADCHAR
  }

  // The bytes of a word on a little-endian machine.
  function Byte0(x: bv32): Byte { (x & 255) as bv8 }

  function Byte1(x: bv32): Byte { ((x >> 8) & 255) as bv8 }

  function Byte2(x: bv32): Byte { ((x >> 16) & 255) as bv8 }

  lemma TablesEncode(a: Byte, b: Byte, c: Byte)
    ensures Quad(a, b, c) == [E0(a), E1(((a & 3) << 4) | ((b >> 4) & 15)), E1(((b & 15) << 2) | ((c >> 6) & 3)), E1(c)]
  {
    hide Letter;
    var g := Group(a, b, c);
    assert Sextet(g, 18) == a >> 2;
    assert Sextet(g, 12) == (((a & 3) << 4) | ((b >> 4) & 15)) & 63;
    assert Sextet(g, 6) == (((b & 15) << 2) | ((c >> 6) & 3)) & 63;
    assert Sextet(g, 0) == c & 63;
  }

  lemma TablesEncodeTail(a: Byte, b: Byte)
    ensures Quad(a, b, 0)[..3] == [E0(a), E1(((a & 3) << 4) | ((b >> 4) & 15)), E1((b & 15) << 2)]
    ensures Quad(a, 0, 0)[..2] == [E0(a), E1((a & 3) << 4)]
  {
    TablesEncode(a, b, 0);
    TablesEncode(a, 0, 0);
    hide Letter, Quad;
    assert ((b & 15) << 2) | ((0 >> 6) & 3) == (b & 15) << 2;
    assert ((a & 3) << 4) | ((0 >> 4) & 15) == (a & 3) << 4;
  }

  /** Or-ing the four words finds a character outside the alphabet, and otherwise lays the three
      bytes out in memory order. */
  lemma TablesDecode(c0: Byte, c1: Byte, c2: Byte, c3: Byte)
    ensures var x := D0(c0) | D1(c1) | D2(c2) | D3(c3);
      && (x >= BADCHAR <==> !(InAlphabet(c0) && InAlphabet(c1) && InAlphabet(c2) && InAlphabet(c3)))
      && (x < BADCHAR ==> [Byte0(x), Byte1(x), Byte2(x)] == Three(c0, c1, c2, c3))
  {
    hide Value, InAlphabet, Byte0, Byte1, Byte2, Gather, Bytes, D0, D1, D2, D3, Word;
    if InAlphabet(c0) && InAlphabet(c1) && InAlphabet(c2) && InAlphabet(c3) {
      TablesBound(c0);
      TablesBound(c1);
      TablesBound(c2);
      TablesBound(c3);
      WordOfTables(c0, c1, c2, c3);
      Layout(Value(c0), Value(c1), Value(c2), Value(c3));
    } else {
      BadWord(c0, c1, c2, c3);
    }
  }

  lemma WordOfTables(c0: Byte, c1: Byte, c2: Byte, c3: Byte)
    requires InAlphabet(c0) && InAlphabet(c1) && InAlphabet(c2) && InAlphabet(c3)
    ensures D0(c0) | D1(c1) | D2(c2) | D3(c3) == Word(Value(c0), Value(c1), Value(c2), Value(c3))
  {
    hide Value, InAlphabet;
  }

  /** One bad character makes the whole word bad. */
  lemma BadWord(c0: Byte, c1: Byte, c2: Byte, c3: Byte)
    requires !(InAlphabet(c0) && InAlphabet(c1) && InAlphabet(c2) && InAlphabet(c3))
    ensures D0(c0) | D1(c1) | D2(c2) | D3(c3) >= BADCHAR
  {
    hide Value, InAlphabet;
    BadBits(D0(c0), D1(c1), D2(c2), D3(c3));
  }

  lemma BadBits(w0: bv32, w1: bv32, w2: bv32, w3: bv32)
    requires w0 == BADCHAR || w1 == BADCHAR || w2 == BADCHAR || w3 == BADCHAR
    ensures w0 | w1 | w2 | w3 >= BADCHAR
  {
  }

  function Word(v0: bv8, v1: bv8, v2: bv8, v3: bv8): bv32 {
    ((v0 as bv32) << 2) | (((v1 as bv32) >> 4) | (((v1 as bv32) & 15) << 12))
      | ((((v2 as bv32) >> 2) << 8) | (((v2 as bv32) & 3) << 22)) | ((v3 as bv32) << 16)
  }

  lemma Layout(v0: bv8, v1: bv8, v2: bv8, v3: bv8)
    requires v0 < 64 && v1 < 64 && v2 < 64 && v3 < 64
    ensures var x := Word(v0, v1, v2, v3);
      x < BADCHAR && [Byte0(x), Byte1(x), Byte2(x)] == Bytes(Gather(v0, v1, v2, v3))
  {
  }

  lemma TablesBound(c: Byte)
    ensures InAlphabet(c) ==> Value(c) < 64
  {
  }

  /** The letter of zero adds nothing. */
  lemma ZeroLetter()
    ensures InAlphabet(0x41) && Value(0x41) == 0 && D2(0x41) == 0 && D3(0x41) == 0
  {
  }

  lemma TablesDecodeOne(c0: Byte, c1: Byte)
    ensures var x := D0(c0) | D1(c1);
      && (x >= BADCHAR <==> !(InAlphabet(c0) && InAlphabet(c1)))
      && (x < BADCHAR ==> Byte0(x) == Bytes(Gather(Value(c0), Value(c1), 0, 0))[0])
  {
    hide Value, InAlphabet, D0, D1, D2, D3, Byte0, Byte1, Byte2, Gather, Bytes;
    ZeroLetter();
    var x := D0(c0) | D1(c1);
    TablesDecode(c0, c1, 0x41, 0x41);
    assert D0(c0) | D1(c1) | D2(0x41) | D3(0x41) == x;
  }

  lemma TablesDecodeTwo(c0: Byte, c1: Byte, c2: Byte)
    ensures var x := D0(c0) | D1(c1) | D2(c2);
      && (x >= BADCHAR <==> !(InAlphabet(c0) && InAlphabet(c1) && InAlphabet(c2)))
      && (x < BADCHAR ==> [Byte0(x), Byte1(x)] == Bytes(Gather(Value(c0), Value(c1), Value(c2), 0))[..2])
  {
    hide Value, InAlphabet, D0, D1, D2, D3, Byte0, Byte1, Byte2, Gather, Bytes;
    ZeroLetter();
    var x := D0(c0) | D1(c1) | D2(c2);
    TablesDecode(c0, c1, c2, 0x41);
    assert D0(c0) | D1(c1) | D2(c2) | D3(0x41) == x;
    assert [Byte0(x), Byte1(x)] == [Byte0(x), Byte1(x), Byte2(x)][..2];
  }

  // ---------------------------------------------------------------- the loops

  /** modp_b64_encode */
  method Encode(dest: array<Byte>, str: seq<Byte>) returns (n: nat)
    requires dest.Length >= (|str| + 2) / 3 * 4 + 1
    modifies dest
    ensures n == |Encoded(str)| && dest[..n] == Encoded(str) && dest[n] == 0
    ensures forall j :: n < j < dest.Length ==> dest[j] == old(dest[j])
  {
    hide Quad;
    ghost var size := |Encoded(str)|;
    var i, p := 0, 0;
    assert str[0..] == str;
    while i + 2 < |str|
      invariant 0 <= i <= |str| && p + |Encoded(str[i..])| == size < dest.Length
      invariant dest[..p] + Encoded(str[i..]) == Encoded(str)
      invariant forall j :: p <= j < dest.Length ==> dest[j] == old(dest[j])
      decreases |str| - i
    {
      ghost var rest, done := str[i..], dest[..p];
      assert rest[3..] == str[i + 3..];
      ghost var q := Quad(str[i], str[i + 1], str[i + 2]);
      assert Encoded(rest) == q + Encoded(rest[3..]);
      EncodeChunk(dest, p, str[i], str[i + 1], str[i + 2]);
      assert done + (q + Encoded(rest[3..])) == (done + q) + Encoded(rest[3..]);
      i, p := i + 3, p + 4;
    }
    n := EncodeTail(dest, p, str[i..]);
    dest[n] := 0;
  }

  /** The body of the loop. */
  method EncodeChunk(dest: array<Byte>, p: nat, t1: Byte, t2: Byte, t3: Byte)
    requires p + 4 <= dest.Length
    modifies dest
    ensures dest[..p + 4] == old(dest[..p]) + Quad(t1, t2, t3)
    ensures forall j :: p + 4 <= j < dest.Length ==> dest[j] == old(dest[j])
  {
    hide Quad, E0, E1;
    TablesEncode(t1, t2, t3);
    dest[p] := E0(t1);
    dest[p + 1] := E1(((t1 & 3) << 4) | ((t2 >> 4) & 15));
    dest[p + 2] := E1(((t2 & 15) << 2) | ((t3 >> 6) & 3));
    dest[p + 3] := E1(t3);
  }

  /** The padded end of the text. */
  method EncodeTail(dest: array<Byte>, p: nat, rest: seq<Byte>) returns (n: nat)
    requires |rest| < 3 && p + |Encoded(rest)| <= dest.Length
    modifies dest
    ensures n == p + |Encoded(rest)| && dest[..n] == old(dest[..p]) + Encoded(rest)
    ensures forall j :: n <= j < dest.Length ==> dest[j] == old(dest[j])
  {
    hide Quad, E0, E1;
    if |rest| == 1 {
      var t1 := rest[0];
      TablesEncodeTail(t1, 0);
      dest[p], dest[p + 1], dest[p + 2], dest[p + 3] := E0(t1), E1((t1 & 3) << 4), PAD, PAD;
      return p + 4;
    } else if |rest| == 2 {
      var t1, t2 := rest[0], rest[1];
      TablesEncodeTail(t1, t2);
      dest[p], dest[p + 1] := E0(t1), E1(((t1 & 3) << 4) | ((t2 >> 4) & 15));
      dest[p + 2], dest[p + 3] := E1((t2 & 15) << 2), PAD;
      return p + 4;
    }
    return p;
  }

  /** modp_b64_decode; `None` is MODP_B64_ERROR. */
  method Decode(dest: array<Byte>, src: seq<Byte>) returns (n: Option<nat>)
    requires dest.Length >= |src| / 4 * 3
    modifies dest
    ensures n.Some? <==> Decoded(src).Some?
    ensures n.Some? ==> n.value <= dest.Length && dest[..n.value] == Decoded(src).value
  {
    hide DecodedLast, Three, AllIn, Pads;
    Accepts(src);
    if |src| == 0 {
      return Some(0);
    }
    if |src| < 4 || |src| % 4 != 0 {
      return None;
    }
    var chunks := |src| / 4 - 1;
    assert src[0..] == src && dest[..0] == [];
    PrefixedTwice([], [], Decoded(src));
    var i, p, y := 0, 0, 0;
    while i < chunks
      invariant 0 <= i <= chunks && p == 3 * i && y == 4 * i
      invariant Decoded(src) == Prefixed(dest[..p], Decoded(src[y..]))
    {
      ghost var rest, done := src[y..], dest[..p];
      assert rest[..4] == [src[y], src[y + 1], src[y + 2], src[y + 3]] && rest[4..] == src[y + 4..];
      var ok := DecodeChunk(dest, p, src[y], src[y + 1], src[y + 2], src[y + 3]);
      if !ok {
        return None;
      }
      PrefixedTwice(done, Three(src[y], src[y + 1], src[y + 2], src[y + 3]), Decoded(rest[4..]));
      i, p, y := i + 1, p + 3, y + 4;
    }
    n := DecodeTail(dest, p, src[y..]);
  }

  /** Four letters at once; nothing is written when one of them is no letter. */
  method DecodeChunk(dest: array<Byte>, p: nat, c0: Byte, c1: Byte, c2: Byte, c3: Byte) returns (ok: bool)
    requires p + 3 <= dest.Length
    modifies dest
    ensures ok == AllIn([c0, c1, c2, c3])
    ensures ok ==> dest[..p + 3] == old(dest[..p]) + Three(c0, c1, c2, c3)
  {
    hide D0, D1, D2, D3, InAlphabet, Byte0, Byte1, Byte2, Three;
    var x := D0(c0) | D1(c1) | D2(c2) | D3(c3);
    TablesDecode(c0, c1, c2, c3);
    ghost var q := [c0, c1, c2, c3];
    assert AllIn(q) <==> InAlphabet(q[0]) && InAlphabet(q[1]) && InAlphabet(q[2]) && InAlphabet(q[3]);
    if x >= BADCHAR {
      return false;
    }
    dest[p], dest[p + 1], dest[p + 2] := Byte0(x), Byte1(x), Byte2(x);
    return true;
  }

  /** The last quad, with its padding taken off. */
  method DecodeTail(dest: array<Byte>, p: nat, q: seq<Byte>) returns (n: Option<nat>)
    requires |q| == 4 && p + 3 <= dest.Length
    modifies dest
    ensures n.Some? <==> DecodedLast(q).Some?
    ensures n.Some? ==> n.value <= dest.Length && dest[..n.value] == old(dest[..p]) + DecodedLast(q).value
  {
    hide D0, D1, D2, D3, InAlphabet, Value, Byte0, Byte1, Byte2, Gather, Bytes, Three, AllIn;
    AllInFirst(q);
    if q[3] != PAD {
      assert q == q[..4] == [q[0], q[1], q[2], q[3]];
      var ok := DecodeChunk(dest, p, q[0], q[1], q[2], q[3]);
      return if ok then Some(p + 3) else None;
    }
    if q[2] == PAD {
      var x := D0(q[0]) | D1(q[1]);
      TablesDecodeOne(q[0], q[1]);
      dest[p] := Byte0(x);
      return if x >= BADCHAR then None else Some(p + 1);
    } else {
      var x := D0(q[0]) | D1(q[1]) | D2(q[2]);
      TablesDecodeTwo(q[0], q[1], q[2]);
      dest[p], dest[p + 1] := Byte0(x), Byte1(x);
      return if x >= BADCHAR then None else Some(p + 2);
    }
  }
}
