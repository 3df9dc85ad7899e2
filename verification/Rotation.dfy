/** The block exchange of `permute_args` in `deps/argtable/argtable3.c`: two adjacent blocks of an
    array are swapped in place by following gcd-many cycles of a rotation. */
module Rotation {

  // ---------------------------------------------------------------- arithmetic

  lemma DivisionUnique(n: nat, q: int, r: int, q': int, r': int)
    requires q * n + r == q' * n + r' && 0 <= r < n && 0 <= r' < n
    ensures q == q' && r == r'
  {
    if q < q' {
      MulAtLeast(q' - q, n);
    } else if q > q' {
      MulAtLeast(q - q', n);
    }
  }

  lemma MulAtLeast(x: int, n: nat)
    requires x >= 1
    ensures x * n >= n
  {
  }

  lemma DivMod(x: int, n: nat)
    requires n > 0
    ensures x == (x / n) * n + x % n && 0 <= x % n < n
  {
  }

  lemma ModUnique(x: int, n: nat, q: int, r: int)
    requires n > 0 && x == q * n + r && 0 <= r < n
    ensures x % n == r && x / n == q
  {
    DivMod(x, n);
    DivisionUnique(n, q, r, x / n, x % n);
  }

  lemma Cancel(x: int, y: int, g: nat)
    requires g > 0 && x * g == y * g
    ensures x == y
  {
    DivisionUnique(g, x, 0, y, 0);
  }

  // ---------------------------------------------------------------- greatest common divisor

  function Gcd(a: nat, b: nat): (g: nat)
    requires b > 0
    ensures g > 0
    decreases b
  {
    if a % b == 0 then b else Gcd(b, a % b)
  }

  ghost predicate Divides(d: int, n: int) {
    exists q {:trigger Multiple(q, d)} :: n == Multiple(q, d)
  }

  function Multiple(q: int, d: int): int { q * d }

  lemma DividesCombination(d: int, a: int, b: int, q: int)
    requires Divides(d, a) && Divides(d, b)
    ensures Divides(d, q * a + b)
  {
    var x :| a == Multiple(x, d);
    var y :| b == Multiple(y, d);
    calc {
      q * a + b;
      q * (x * d) + y * d;
      Multiple(q * x + y, d);
    }
  }

  /** The result divides both numbers and is a combination of them. */
  lemma {:induction false} GcdProperties(a: nat, b: nat) returns (u: int, v: int)
    requires b > 0
    ensures Divides(Gcd(a, b), a) && Divides(Gcd(a, b), b)
    ensures u * a + v * b == Gcd(a, b)
    decreases b
  {
    var q, r := a / b, a % b;
    DivMod(a, b);
    if r == 0 {
      assert b == Multiple(1, b) && a == Multiple(q, b);
      u, v := 0, 1;
    } else {
      var x, y := GcdProperties(b, r);
      DividesCombination(Gcd(b, r), b, r, q);
      u, v := y, x - y * q;
      BackSubstitute(a, b, q, r, x, y);
    }
  }

  lemma BackSubstitute(a: int, b: int, q: int, r: int, x: int, y: int)
    requires a == q * b + r
    ensures y * a + (x - y * q) * b == x * b + y * r
  {
    assert y * (q * b + r) == (y * q) * b + y * r;
    assert (x - y * q) * b == x * b - (y * q) * b;
  }

  /** Every common divisor divides it. */
  lemma GcdGreatest(a: nat, b: nat, d: int)
    requires b > 0 && Divides(d, a) && Divides(d, b)
    ensures Divides(d, Gcd(a, b))
  {
    var u, v := GcdProperties(a, b);
    DividesMultiple(d, b, v);
    DividesCombination(d, a, v * b, u);
  }

  lemma DividesMultiple(d: int, n: int, v: int)
    requires Divides(d, n)
    ensures Divides(d, v * n)
  {
    var y :| n == Multiple(y, d);
    calc { v * n; v * (y * d); Multiple(v * y, d); }
  }

  method ComputeGcd(a0: nat, b0: nat) returns (g: nat)
    requires b0 > 0
    ensures g == Gcd(a0, b0)
  {
    var a, b := a0, b0;
    var c := a % b;
    while c != 0
      invariant b > 0 && c == a % b && Gcd(a, b) == Gcd(a0, b0)
      decreases b
    {
      a := b;
      b := c;
      c := a % b;
    }
    return b;
  }

  // ---------------------------------------------------------------- cycles of a rotation

  /** Position after `j` steps of `back` from `start` in a ring of `n` positions. */
  function Walk(n: nat, back: nat, start: int, j: nat): int
    requires n > 0
  {
    (start + j * back) % n
  }

  /** The position of cycle `i` after `j` steps: cycles start at the first positions of the back
      block. */
  function Visit(front: nat, back: nat, i: nat, j: nat): int
    requires front + back > 0
  {
    Walk(front + back, back, front + i, j)
  }

  /** Where the element at `x` belongs after the exchange of the blocks. */
  function Target(front: nat, back: nat, x: int): int {
    if x >= front then x - front else x + back
  }

  /** Where the element that belongs at `y` comes from. */
  function Source(front: nat, back: nat, y: int): int {
    if y < back then y + front else y - back
  }

  /** The numbers behind the cycles: with g = gcd, the ring has g * length positions, a step is
      g * k, and k is invertible modulo length. */
  datatype Shape = Shape(g: nat, length: nat, f: nat, k: nat, u: int, w: int)

  predicate Fits(h: Shape, front: nat, back: nat) {
    && h.g > 0 && h.length > 0 && h.k > 0
    && h.length == h.f + h.k
    && front == h.f * h.g && back == h.k * h.g && front + back == h.length * h.g
    && h.u * h.k + h.w * h.length == 1
  }

  lemma Decompose(front: nat, back: nat) returns (h: Shape)
    requires back > 0
    ensures Fits(h, front, back) && h.g == Gcd(front, back) && h.length == (front + back) / h.g
  {
    var g := Gcd(front, back);
    var x, y := GcdProperties(front, back);
    var f :| front == Multiple(f, g);
    var k :| back == Multiple(k, g);
    Coprime(f, k, g, x, y);
    Regroup(f, k, x, y);
    assert (f + k) * g == f * g + k * g;
    h := Shape(g, f + k, f, k, y - x, x);
    ModUnique(front + back, g, f + k, 0);
  }

  lemma Coprime(f: int, k: int, g: nat, x: int, y: int)
    requires g > 0 && x * (f * g) + y * (k * g) == g
    ensures x * f + y * k == 1
  {
    assert x * (f * g) == (x * f) * g;
    assert y * (k * g) == (y * k) * g;
    assert (x * f + y * k) * g == (x * f) * g + (y * k) * g;
    Cancel(x * f + y * k, 1, g);
  }

  lemma Regroup(f: int, k: int, x: int, y: int)
    requires x * f + y * k == 1
    ensures (y - x) * k + x * (f + k) == 1
  {
    assert (y - x) * k == y * k - x * k;
    assert x * (f + k) == x * f + x * k;
  }

  lemma WalkStart(front: nat, back: nat, start: int)
    requires 0 <= start < front + back
    ensures Walk(front + back, back, start, 0) == start
  {
    ModUnique(start, front + back, 0, start);
  }

  /** One loop iteration is one step of the walk. */
  lemma WalkStep(front: nat, back: nat, start: int, j: nat)
    requires front + back > 0
    ensures Walk(front + back, back, start, j + 1) == Target(front, back, Walk(front + back, back, start, j))
  {
    var n := front + back;
    var x := start + j * back;
    var q, p := x / n, x % n;
    DivMod(x, n);
    assert start + (j + 1) * back == x + back;
    if p >= front {
      assert (q + 1) * n == q * n + n;
      ModUnique(x + back, n, q + 1, p - front);
    } else {
      ModUnique(x + back, n, q, p + back);
    }
  }

  lemma WalkInRange(n: nat, back: nat, start: int, j: nat)
    requires n > 0
    ensures 0 <= Walk(n, back, start, j) < n
  {
    DivMod(start + j * back, n);
  }

  /** The first `length` positions of a walk are different. */
  lemma WalkInjective(h: Shape, front: nat, back: nat, start: int, i: nat, j: nat)
    requires Fits(h, front, back) && i < j < h.length
    ensures Walk(front + back, back, start, i) != Walk(front + back, back, start, j)
  {
    var n := front + back;
    var x, y := start + i * back, start + j * back;
    if x % n == y % n {
      DivMod(x, n);
      DivMod(y, n);
      StepsBetween(h, n, back, x, y, j - i, y / n - x / n);
      InvertStep(h, j - i, y / n - x / n);
    }
  }

  lemma StepsBetween(h: Shape, n: nat, back: nat, x: int, y: int, d: nat, q: int)
    requires h.g > 0 && n == h.length * h.g && back == h.k * h.g
    requires y - x == d * back && y - x == q * n
    ensures d * h.k == q * h.length
  {
    assert d * (h.k * h.g) == (d * h.k) * h.g;
    assert q * (h.length * h.g) == (q * h.length) * h.g;
    Cancel(d * h.k, q * h.length, h.g);
  }

  /** `k` is invertible modulo `length`, so no shorter number of steps closes a cycle. */
  lemma InvertStep(h: Shape, d: nat, q: int)
    requires h.u * h.k + h.w * h.length == 1
    requires d * h.k == q * h.length
    ensures !(0 < d < h.length)
  {
    calc {
      d;
      d * (h.u * h.k + h.w * h.length);
      h.u * (d * h.k) + d * (h.w * h.length);
      h.u * (q * h.length) + d * (h.w * h.length);
      (h.u * q + d * h.w) * h.length;
    }
    if 0 < d < h.length {
      DivisionUnique(h.length, h.u * q + d * h.w, 0, 0, d);
    }
  }

  lemma WalkCloses(h: Shape, front: nat, back: nat, start: int)
    requires Fits(h, front, back) && 0 <= start < front + back
    ensures Walk(front + back, back, start, h.length) == start
  {
    var n := front + back;
    calc { h.length * back; h.length * (h.k * h.g); h.k * (h.length * h.g); h.k * n; }
    ModUnique(start + h.length * back, n, h.k, start);
  }

  /** A walk stays in its residue class modulo g. */
  lemma WalkResidue(h: Shape, front: nat, back: nat, i: nat, j: nat)
    requires Fits(h, front, back) && i < h.g
    ensures Walk(front + back, back, front + i, j) % h.g == i
  {
    var n := front + back;
    var x := front + i + j * back;
    var q := x / n;
    DivMod(x, n);
    calc {
      x % n;
      x - q * n;
      h.f * h.g + i + j * (h.k * h.g) - q * (h.length * h.g);
      (h.f + j * h.k - q * h.length) * h.g + i;
    }
    ModUnique(x % n, h.g, h.f + j * h.k - q * h.length, i);
  }

  /** A walk visits its whole residue class. */
  lemma WalkCovers(h: Shape, front: nat, back: nat, y: nat) returns (j: nat)
    requires Fits(h, front, back) && y < front + back
    ensures j < h.length && Walk(front + back, back, front + y % h.g, j) == y
  {
    var n := front + back;
    var i, d := y % h.g, y / h.g - h.f;
    DivMod(y, h.g);
    assert y == (d + h.f) * h.g + i;
    assert (d + h.f) * h.g == d * h.g + h.f * h.g;
    var t := (d * h.u) / h.length;
    j := (d * h.u) % h.length;
    DivMod(d * h.u, h.length);
    Steps(d, h.u, t, h.length, h.k, h.g, h.w);
    ModUnique(front + i + j * back, n, -(d * h.w + t * h.k), y);
  }

  lemma Steps(d: int, u: int, t: int, l: int, k: int, g: int, w: int)
    requires u * k + w * l == 1
    ensures (d * u - t * l) * (k * g) == d * g - (d * w + t * k) * (l * g)
  {
    var n := l * g;
    calc {
      (d * u - t * l) * (k * g);
      { Expand(d, u, t, l, k, g); }
      d * ((u * k) * g) - (t * k) * n;
      d * ((1 - w * l) * g) - (t * k) * n;
      { assert (1 - w * l) * g == g - w * n; }
      d * (g - w * n) - (t * k) * n;
      { assert d * (g - w * n) == d * g - (d * w) * n; }
      d * g - (d * w) * n - (t * k) * n;
      d * g - (d * w + t * k) * n;
    }
  }

  lemma Expand(d: int, u: int, t: int, l: int, k: int, g: int)
    ensures (d * u - t * l) * (k * g) == d * ((u * k) * g) - (t * k) * (l * g)
  {
    calc {
      (d * u - t * l) * (k * g);
      (d * u) * (k * g) - (t * l) * (k * g);
      { assert (d * u) * (k * g) == d * ((u * k) * g); assert (t * l) * (k * g) == (t * k) * (l * g); }
      d * ((u * k) * g) - (t * k) * (l * g);
    }
  }

  /** The gcd-many cycles are disjoint, have n / gcd positions each, and together visit every
      position exactly once. */
  lemma CyclesPartition(front: nat, back: nat, y: nat) returns (i: nat, j: nat)
    requires back > 0 && y < front + back
    ensures var g := Gcd(front, back);
      && i < g && j < (front + back) / g && Visit(front, back, i, j) == y
      && forall i', j' :: 0 <= i' < g && 0 <= j' < (front + back) / g && Visit(front, back, i', j') == y ==> i' == i && j' == j
  {
    hide Walk, Fits;
    var h := Decompose(front, back);
    assert h.g > 0 by { assert Gcd(front, back) > 0; }
    i := y % h.g;
    j := WalkCovers(h, front, back, y);
    forall i', j' | 0 <= i' < h.g && 0 <= j' < h.length && Visit(front, back, i', j') == y
      ensures i' == i && j' == j
    {
      WalkResidue(h, front, back, i', j');
      if j' < j {
        WalkInjective(h, front, back, front + i, j', j);
      } else if j < j' {
        WalkInjective(h, front, back, front + i, j, j');
      }
    }
  }

  // ---------------------------------------------------------------- the exchange

  /** The range of the two blocks, second block first. */
  function Exchanged<T>(s: seq<T>, start: nat, middle: nat, end: nat): (r: seq<T>)
    requires start <= middle <= end <= |s|
    ensures |r| == |s|
  {
    s[..start] + s[middle..end] + s[start..middle] + s[end..]
  }

  /** A cycle of different positions; `from[t]` is the position before `p[t]`. */
  ghost predicate IsCycle(p: seq<int>, from: seq<int>, start: nat, middle: nat, end: nat) {
    && |p| == |from| > 0
    && (forall t :: 0 <= t < |p| ==> start <= p[t] < end && start <= from[t] < end)
    && (forall t, t' :: 0 <= t < t' < |p| ==> p[t] != p[t'])
    && (forall t {:trigger Linked(p, from, start, middle, end, t)} :: 0 <= t < |p| ==> Linked(p, from, start, middle, end, t))
  }

  /** The position after `p[t]` is the target of its element. */
  ghost predicate Linked(p: seq<int>, from: seq<int>, start: nat, middle: nat, end: nat, t: nat)
    requires t < |p| == |from|
  {
    var next := if t + 1 == |p| then 0 else t + 1;
    from[next] == p[t] && p[next] == Moved(start, middle, end, p[t])
  }

  function Moved(start: nat, middle: nat, end: nat, pos: int): int {
    if pos >= middle then pos - (middle - start) else pos + (end - middle)
  }

  /** One cycle: every position of it receives the element of the position before, and nothing
      else changes. */
  method FollowCycle<T>(a: array<T>, start: nat, middle: nat, end: nat, cstart: nat, cyclelen: nat,
                        ghost p: seq<int>, ghost from: seq<int>)
    requires start <= middle < end <= a.Length
    requires IsCycle(p, from, start, middle, end) && p[0] == cstart && cyclelen == |p|
    modifies a
    ensures forall t :: 0 <= t < |p| ==> a[p[t]] == old(a[from[t]])
    ensures forall x :: 0 <= x < a.Length && x !in p ==> a[x] == old(a[x])
  {
    var pos := cstart;
    for j := 0 to cyclelen
      invariant pos == p[if j < cyclelen then j else 0]
      invariant a[cstart] == if j < cyclelen then old(a[p[j]]) else old(a[from[0]])
      invariant forall t :: 0 < t <= j && t < cyclelen ==> a[p[t]] == old(a[from[t]])
      invariant forall t :: j < t < cyclelen ==> a[p[t]] == old(a[p[t]])
      invariant forall x :: 0 <= x < a.Length && x !in p ==> a[x] == old(a[x])
    {
      assert Linked(p, from, start, middle, end, j);
      if pos >= middle {
        pos := pos - (middle - start);
      } else {
        pos := pos + (end - middle);
      }
      var swap := a[pos];
      a[pos] := a[cstart];
      a[cstart] := swap;
    }
  }

  ghost function CyclePath(start: nat, front: nat, back: nat, i: nat, length: nat): (p: seq<int>)
    requires front + back > 0
    ensures |p| == length
    ensures forall t :: 0 <= t < length ==> p[t] == start + Visit(front, back, i, t)
  {
    seq(length, t requires 0 <= t => start + Visit(front, back, i, t))
  }

  ghost function CycleFrom(p: seq<int>): (from: seq<int>)
    requires p != []
    ensures |from| == |p|
  {
    seq(|p|, t requires 0 <= t < |p| => if t == 0 then p[|p| - 1] else p[t - 1])
  }

  /** The residue class of a position. */
  function Class(y: int, g: nat): (c: nat)
    requires g > 0
    ensures c < g
  {
    y % g
  }

  /** Where the exchange takes the element of position `x` from. */
  function Origin(start: nat, middle: nat, end: nat, x: int): int
    requires start <= middle <= end
  {
    if start <= x < end then start + Source(middle - start, end - middle, x - start) else x
  }

  lemma CycleRange(h: Shape, start: nat, middle: nat, end: nat, i: nat)
    requires start <= middle < end && Fits(h, middle - start, end - middle) && i < h.g
    ensures var p := CyclePath(start, middle - start, end - middle, i, h.length);
      && p[0] == middle + i < end
      && (forall t :: 0 <= t < |p| ==> start <= p[t] < end && Class(p[t] - start, h.g) == i)
      && (forall t, t' :: 0 <= t < t' < |p| ==> p[t] != p[t'])
  {
    var front, back := middle - start, end - middle;
    var p := CyclePath(start, front, back, i, h.length);
    MulAtLeast(h.k, h.g);
    WalkStart(front, back, front + i);
    hide Walk, Fits;
    forall t | 0 <= t < |p| ensures start <= p[t] < end && Class(p[t] - start, h.g) == i {
      WalkInRange(front + back, back, front + i, t);
      WalkResidue(h, front, back, i, t);
    }
    forall t, t' | 0 <= t < t' < |p| ensures p[t] != p[t'] {
      WalkInjective(h, front, back, front + i, t, t');
    }
  }

  lemma BackAtLeast(h: Shape, front: nat, back: nat)
    requires Fits(h, front, back)
    ensures back >= h.g > 0 && h.length > 0
  {
    MulAtLeast(h.k, h.g);
  }

  lemma LinkFrom(p: seq<int>, start: nat, middle: nat, end: nat, t: nat, here: int)
    requires t < |p| && start <= middle < end && p[t] == start + here
    requires p[if t + 1 == |p| then 0 else t + 1] == start + Target(middle - start, end - middle, here)
    ensures Linked(p, CycleFrom(p), start, middle, end, t)
  {
  }

  lemma CycleLinks(h: Shape, start: nat, middle: nat, end: nat, i: nat, t: nat)
    requires start <= middle < end && Fits(h, middle - start, end - middle) && i < h.g && t < h.length
    ensures var p := CyclePath(start, middle - start, end - middle, i, h.length);
      && Linked(p, CycleFrom(p), start, middle, end, t)
  {
    hide Walk, Fits, Linked, CycleFrom;
    var front, back := middle - start, end - middle;
    BackAtLeast(h, front, back);
    WalkCloses(h, front, back, front + i);
    WalkStart(front, back, front + i);
    WalkStep(front, back, front + i, t);
    LinkFrom(CyclePath(start, front, back, i, h.length), start, middle, end, t, Visit(front, back, i, t));
  }

  /** What holds of every position of a path holds of every position before. */
  lemma FromWithin(p: seq<int>, lo: int, hi: int, g: nat, i: nat)
    requires p != [] && g > 0
    requires forall t :: 0 <= t < |p| ==> lo <= p[t] < hi && Class(p[t] - lo, g) == i
    ensures forall t :: 0 <= t < |p| ==> lo <= CycleFrom(p)[t] < hi && Class(CycleFrom(p)[t] - lo, g) == i
  {
    hide Class;
  }

  /** Cycle `i` is a cycle of the exchange. */
  lemma CycleOf(h: Shape, start: nat, middle: nat, end: nat, i: nat)
    requires start <= middle < end && Fits(h, middle - start, end - middle) && i < h.g
    ensures var p := CyclePath(start, middle - start, end - middle, i, h.length);
      && |p| > 0 && IsCycle(p, CycleFrom(p), start, middle, end) && p[0] == middle + i
      && (forall t :: 0 <= t < |p| ==> Class(CycleFrom(p)[t] - start, h.g) == i)
  {
    hide Fits, Linked, CycleFrom, CyclePath, Class, Visit;
    var p := CyclePath(start, middle - start, end - middle, i, h.length);
    BackAtLeast(h, middle - start, end - middle);
    CycleRange(h, start, middle, end, i);
    FromWithin(p, start, end, h.g, i);
    forall t | 0 <= t < |p| ensures Linked(p, CycleFrom(p), start, middle, end, t) {
      CycleLinks(h, start, middle, end, i, t);
    }
  }

  /** It covers exactly its residue class. */
  lemma CycleCovers(h: Shape, start: nat, middle: nat, end: nat, i: nat, x: int)
    requires start <= middle < end && Fits(h, middle - start, end - middle) && i < h.g && start <= x < end
    ensures x in CyclePath(start, middle - start, end - middle, i, h.length) <==> Class(x - start, h.g) == i
  {
    var p := CyclePath(start, middle - start, end - middle, i, h.length);
    CycleRange(h, start, middle, end, i);
    if Class(x - start, h.g) == i {
      var j := WalkCovers(h, middle - start, end - middle, x - start);
      assert p[j] == x;
    }
  }

  /** On a cycle, the position before is the origin. */
  lemma CycleOrigin(p: seq<int>, from: seq<int>, start: nat, middle: nat, end: nat)
    requires start <= middle < end && IsCycle(p, from, start, middle, end)
    requires from == CycleFrom(p)
    ensures forall t :: 0 <= t < |p| ==> from[t] == Origin(start, middle, end, p[t])
  {
    forall t | 0 <= t < |p| ensures from[t] == Origin(start, middle, end, p[t]) {
      assert Linked(p, from, start, middle, end, if t == 0 then |p| - 1 else t - 1);
    }
  }

  lemma ExchangedAt<T>(s: seq<T>, start: nat, middle: nat, end: nat, x: nat)
    requires start <= middle <= end <= |s| && x < |s|
    ensures 0 <= Origin(start, middle, end, x) < |s|
    ensures Exchanged(s, start, middle, end)[x] == s[Origin(start, middle, end, x)]
  {
  }

  /** The exchange keeps residue classes. */
  lemma OriginClass(h: Shape, start: nat, middle: nat, end: nat, x: int)
    requires start <= middle < end && Fits(h, middle - start, end - middle) && start <= x < end
    ensures start <= Origin(start, middle, end, x) < end
    ensures Class(Origin(start, middle, end, x) - start, h.g) == Class(x - start, h.g)
  {
    var y := x - start;
    var q := y / h.g;
    DivMod(y, h.g);
    if y < end - middle {
      assert (q + h.f) * h.g == q * h.g + h.f * h.g;
      ModUnique(y + (middle - start), h.g, q + h.f, y % h.g);
    } else {
      assert (q - h.k) * h.g == q * h.g - h.k * h.g;
      ModUnique(y - (end - middle), h.g, q - h.k, y % h.g);
    }
  }

  /** Cycle `i` moves the elements of its residue class to their places. */
  method ExchangeClass<T>(a: array<T>, start: nat, middle: nat, end: nat, i: nat, cyclelen: nat, ghost h: Shape)
    requires start <= middle < end <= a.Length
    requires Fits(h, middle - start, end - middle) && i < h.g && cyclelen == h.length
    modifies a
    ensures forall x :: start <= x < end && Class(x - start, h.g) == i ==>
      start <= Origin(start, middle, end, x) < end && a[x] == old(a[Origin(start, middle, end, x)])
    ensures forall x :: 0 <= x < a.Length && !(start <= x < end && Class(x - start, h.g) == i) ==> a[x] == old(a[x])
  {
    hide Class, Fits, IsCycle, Origin;
    ghost var p, from := CycleOfClass(h, start, middle, end, i);
    ghost var before := a[..];
    FollowCycle(a, start, middle, end, middle + i, cyclelen, p, from);
    forall x | start <= x < end && Class(x - start, h.g) == i
      ensures start <= Origin(start, middle, end, x) < end && a[x] == before[Origin(start, middle, end, x)]
    {
      OriginClass(h, start, middle, end, x);
      assert x in p;
      var t :| 0 <= t < |p| && p[t] == x;
      assert a[p[t]] == before[from[t]];
    }
  }

  /** Everything about cycle `i` that the exchange needs. */
  lemma CycleOfClass(h: Shape, start: nat, middle: nat, end: nat, i: nat) returns (p: seq<int>, from: seq<int>)
    requires start <= middle < end && Fits(h, middle - start, end - middle) && i < h.g
    ensures |p| == |from| == h.length > 0 && IsCycle(p, from, start, middle, end) && p[0] == middle + i
    ensures forall t :: 0 <= t < |p| ==> from[t] == Origin(start, middle, end, p[t])
    ensures forall x :: x in p <==> start <= x < end && Class(x - start, h.g) == i
  {
    hide Class, Fits, IsCycle, CycleFrom, CyclePath, Origin, Visit;
    p := CyclePath(start, middle - start, end - middle, i, h.length);
    CycleOf(h, start, middle, end, i);
    from := CycleFrom(p);
    CycleOrigin(p, from, start, middle, end);
    forall x ensures x in p <==> start <= x < end && Class(x - start, h.g) == i {
      if start <= x < end {
        CycleCovers(h, start, middle, end, i, x);
      } else {
        CycleWithin(p, from, start, middle, end, x);
      }
    }
  }

  lemma CycleWithin(p: seq<int>, from: seq<int>, start: nat, middle: nat, end: nat, x: int)
    requires IsCycle(p, from, start, middle, end) && !(start <= x < end)
    ensures x !in p
  {
  }

  /** `permute_args`: exchanges the two blocks, keeping the order in each, and touches nothing
      else.  The second block must not be empty: its length is a divisor in the gcd. */
  method PermuteArgs<T>(start: nat, middle: nat, end: nat, a: array<T>)
    requires start <= middle < end <= a.Length
    modifies a
    ensures a[..] == Exchanged(old(a[..]), start, middle, end)
  {
    var nnonopts := middle - start;
    var nopts := end - middle;
    var ncycle := ComputeGcd(nnonopts, nopts);
    var cyclelen := (end - start) / ncycle;
    ghost var h := Decompose(nnonopts, nopts);
    ghost var original := a[..];
    forall x | start <= x < end
      ensures Class(Origin(start, middle, end, x) - start, h.g) == Class(x - start, h.g)
    {
      OriginClass(h, start, middle, end, x);
    }
    hide Class, Fits, Origin;
    for i := 0 to ncycle
      invariant forall x :: 0 <= x < a.Length ==> a[x] == Expected(original, start, middle, end, ncycle, i, x)
    {
      ExchangeClass(a, start, middle, end, i, cyclelen, h);
    }
    forall x | 0 <= x < a.Length
      ensures a[..][x] == Exchanged(old(a[..]), start, middle, end)[x]
    {
      ExchangedAt(old(a[..]), start, middle, end, x);
    }
  }

  /** Position `x` once the first `done` of `g` cycles have been followed. */
  ghost function Expected<T>(s: seq<T>, start: nat, middle: nat, end: nat, g: nat, done: nat, x: nat): T
    requires start <= middle <= end <= |s| && x < |s| && g > 0
  {
    ExchangedAt(s, start, middle, end, x);
    if start <= x < end && Class(x - start, g) < done then s[Origin(start, middle, end, x)] else s[x]
  }
}
