/** `lib/path.js`: the one-pass normaliser and what is built on it, against the simple reading of
    a path as a list of segments folded over a stack. */
module PathNormaliser {
  import opened Common

  // ---------------------------------------------------------------- reference definitions

  /** The pieces between slashes. */
  function Segments(path: string): (segs: seq<string>)
    ensures segs != []
  {
    var i := FirstSlash(path);
    if i == |path| then [path] else [path[..i]] + Segments(path[i + 1..])
  }

  function FirstSlash(path: string): (i: nat)
    ensures i <= |path| && (i < |path| ==> path[i] == '/')
    ensures forall j :: 0 <= j < i ==> path[j] != '/'
  {
    if path == "" || path[0] == '/' then 0 else 1 + FirstSlash(path[1..])
  }

  /** Empty and `.` segments mean nothing; `..` undoes the segment before it, or stays when the
      path may climb above its root, or is dropped. */
  function Push(stack: seq<string>, seg: string, up: bool): seq<string> {
    if seg == "" || seg == "." then stack
    else if seg != ".." then stack + [seg]
    else if stack != [] && stack[|stack| - 1] != ".." then stack[..|stack| - 1]
    else if up then stack + [".."]
    else stack
  }

  function Fold(segs: seq<string>, up: bool, stack: seq<string>): seq<string> {
    if segs == [] then stack else Fold(segs[1..], up, Push(stack, segs[0], up))
  }

  function Join(stack: seq<string>): string {
    if stack == [] then ""
    else if |stack| == 1 then stack[0]
    else Join(stack[..|stack| - 1]) + "/" + stack[|stack| - 1]
  }

  function Stack(path: string, up: bool): seq<string> {
    Fold(Segments(path), up, [])
  }

  /** What normalizeStringPosix computes. */
  function Normal(path: string, up: bool): string {
    Join(Stack(path, up))
  }

  // ---------------------------------------------------------------- normal stacks

  predicate Plain(seg: string) {
    seg != "" && seg != "." && '/' !in seg
  }

  /** No empty or `.` segment, and `..` only in front and only when climbing is allowed. */
  predicate IsNormal(stack: seq<string>, up: bool) {
    && (forall i :: 0 <= i < |stack| ==> Plain(stack[i]))
    && (forall i :: 0 <= i < |stack| && stack[i] == ".." ==> up && forall j :: 0 <= j < i ==> stack[j] == "..")
  }

  lemma {:induction false} SegmentsSlashFree(path: string)
    ensures forall i :: 0 <= i < |Segments(path)| ==> '/' !in Segments(path)[i]
    decreases |path|
  {
    var i := FirstSlash(path);
    if i < |path| {
      SegmentsSlashFree(path[i + 1..]);
    }
  }

  lemma PushNormal(stack: seq<string>, seg: string, up: bool)
    requires IsNormal(stack, up) && '/' !in seg
    ensures IsNormal(Push(stack, seg, up), up)
  {
  }

  lemma {:induction false} FoldNormal(segs: seq<string>, up: bool, stack: seq<string>)
    requires IsNormal(stack, up) && forall i :: 0 <= i < |segs| ==> '/' !in segs[i]
    ensures IsNormal(Fold(segs, up, stack), up)
    decreases |segs|
  {
    if segs != [] {
      PushNormal(stack, segs[0], up);
      FoldNormal(segs[1..], up, Push(stack, segs[0], up));
    }
  }

  /** The result of the normaliser is in normal form, for every path and both root modes. */
  lemma StackNormal(path: string, up: bool)
    ensures IsNormal(Stack(path, up), up)
  {
    SegmentsSlashFree(path);
    FoldNormal(Segments(path), up, []);
  }

  lemma {:induction false} FoldConcat(a: seq<string>, b: seq<string>, up: bool, stack: seq<string>)
    ensures Fold(a + b, up, stack) == Fold(b, up, Fold(a, up, stack))
    decreases |a|
  {
    if a == [] {
      assert a + b == b;
    } else {
      assert (a + b)[1..] == a[1..] + b;
      FoldConcat(a[1..], b, up, Push(stack, a[0], up));
    }
  }

  /** Folding a normal stack rebuilds it. */
  lemma {:induction false} FoldOfNormal(stack: seq<string>, up: bool)
    requires IsNormal(stack, up)
    ensures Fold(stack, up, []) == stack
    decreases |stack|
  {
    if stack != [] {
      hide IsNormal, Push;
      var n := |stack| - 1;
      var init, last := stack[..n], stack[n];
      NormalInit(stack, up);
      FoldOfNormal(init, up);
      FoldConcat(init, [last], up, []);
      assert stack == init + [last];
      assert Fold([last], up, init) == Push(init, last, up) by { assert [last][1..] == []; }
    }
  }

  /** Below the top of a normal stack is a normal stack, on which the top is pushed. */
  lemma NormalInit(stack: seq<string>, up: bool)
    requires IsNormal(stack, up) && stack != []
    ensures var n := |stack| - 1; IsNormal(stack[..n], up) && Push(stack[..n], stack[n], up) == stack[..n] + [stack[n]]
  {
    assert Plain(stack[|stack| - 1]);
  }

  // ---------------------------------------------------------------- splitting and joining

  lemma {:induction false} SegmentsConcat(a: string, b: string)
    ensures Segments(a + "/" + b) == Segments(a) + Segments(b)
    decreases |a|
  {
    hide FirstSlash, Segments;
    var i := FirstSlash(a);
    var whole := a + "/" + b;
    FirstSlashAt(whole, i);
    SegmentsHead(whole);
    SegmentsHead(a);
    assert whole[..i] == a[..i];
    if i == |a| {
      assert a[..i] == a && whole[i + 1..] == b;
    } else {
      SegmentsConcat(a[i + 1..], b);
      assert whole[i + 1..] == a[i + 1..] + "/" + b;
      assert [a[..i]] + (Segments(a[i + 1..]) + Segments(b)) == ([a[..i]] + Segments(a[i + 1..])) + Segments(b);
    }
  }

  lemma SegmentsHead(path: string)
    ensures var i := FirstSlash(path);
      Segments(path) == if i == |path| then [path] else [path[..i]] + Segments(path[i + 1..])
  {
    hide FirstSlash;
  }

  lemma FirstSlashAt(path: string, i: nat)
    requires i < |path| && path[i] == '/' && '/' !in path[..i]
    ensures FirstSlash(path) == i
  {
    hide FirstSlash;
  }

  lemma SegmentsSingle(seg: string)
    requires '/' !in seg
    ensures Segments(seg) == [seg]
  {
    hide FirstSlash;
  }

  lemma {:induction false} SegmentsJoin(stack: seq<string>)
    requires stack != [] && forall i :: 0 <= i < |stack| ==> Plain(stack[i])
    ensures Segments(Join(stack)) == stack
    ensures Join(stack) != "" && Join(stack)[0] != '/' && Join(stack)[|Join(stack)| - 1] != '/'
    decreases |stack|
  {
    hide Segments, FirstSlash;
    var n := |stack| - 1;
    if n == 0 {
      SegmentsSingle(stack[0]);
      assert stack == [stack[0]];
    } else {
      SegmentsJoin(stack[..n]);
      SegmentsConcat(Join(stack[..n]), stack[n]);
      SegmentsSingle(stack[n]);
      assert stack == stack[..n] + [stack[n]];
    }
  }

  lemma StackConcat(a: string, b: string, up: bool)
    ensures Stack(a + "/" + b, up) == Fold(Segments(b), up, Stack(a, up))
  {
    hide Segments, Fold;
    SegmentsConcat(a, b);
    FoldConcat(Segments(a), Segments(b), up, []);
  }

  // ---------------------------------------------------------------- the one-pass scanner

  function LastSlash(s: string): (i: int)
    ensures -1 <= i < |s| && (i >= 0 ==> s[i] == '/')
    ensures forall j :: i < j < |s| ==> s[j] != '/'
  {
    if s == "" then -1 else if s[|s| - 1] == '/' then |s| - 1 else LastSlash(s[..|s| - 1])
  }

  /** The last slash of a joined stack is in front of its last segment. */
  lemma JoinLast(stack: seq<string>)
    requires stack != [] && forall i :: 0 <= i < |stack| ==> Plain(stack[i])
    ensures var n, res := |stack| - 1, Join(stack);
      && |res| >= |stack[n]| > 0 && res[|res| - |stack[n]|..] == stack[n]
      && LastSlash(res) == |res| - |stack[n]| - 1
      && (n == 0 ==> res == stack[0])
      && (n > 0 ==> |res| > 2 && res[..LastSlash(res)] == Join(stack[..n]))
  {
    hide Segments, LastSlash;
    var n, res := |stack| - 1, Join(stack);
    assert Plain(stack[n]);
    if n == 0 {
      LastSlashAt(res, -1);
    } else {
      SegmentsJoin(stack[..n]);
      LastSlashBefore(Join(stack[..n]), stack[n]);
    }
  }

  lemma LastSlashBefore(front: string, seg: string)
    requires '/' !in seg
    ensures var s := front + "/" + seg; LastSlash(s) == |front| && s[..|front|] == front && s[|front| + 1..] == seg
  {
    hide LastSlash;
    var s := front + "/" + seg;
    assert s[|front| + 1..] == seg;
    forall j | |front| < j < |s| ensures s[j] != '/' {
      assert s[j] == seg[j - |front| - 1];
    }
    LastSlashAt(s, |front|);
  }

  lemma LastSlashAt(s: string, i: int)
    requires -1 <= i < |s| && (i >= 0 ==> s[i] == '/') && forall j :: i < j < |s| ==> s[j] != '/'
    ensures LastSlash(s) == i
  {
    hide LastSlash;
  }

  /** The number of characters of a segment made of dots only, otherwise -1. */
  function Dots(seg: string): int {
    if forall i :: 0 <= i < |seg| ==> seg[i] == '.' then |seg| else -1
  }

  function LastLength(stack: seq<string>): nat {
    if stack == [] then 0 else |stack[|stack| - 1]|
  }

  lemma DotsMeaning(seg: string)
    ensures Dots(seg) == 1 <==> seg == "."
    ensures Dots(seg) == 2 <==> seg == ".."
  {
  }

  lemma JoinSnoc(stack: seq<string>, seg: string)
    ensures Join(stack + [seg]) == if stack == [] then seg else Join(stack) + "/" + seg
    ensures LastLength(stack + [seg]) == |seg|
  {
    assert (stack + [seg])[..|stack|] == stack;
  }

  /** The test on the last two characters and the last length finds a `..` on top. */
  lemma TopTest(stack: seq<string>)
    requires forall i :: 0 <= i < |stack| ==> Plain(stack[i])
    ensures Join(stack) == "" <==> stack == []
    ensures var res := Join(stack);
      (|res| < 2 || LastLength(stack) != 2 || res[|res| - 1] != '.' || res[|res| - 2] != '.')
        <==> (stack == [] || stack[|stack| - 1] != "..")
  {
    if stack != [] {
      JoinLast(stack);
      var res, last := Join(stack), stack[|stack| - 1];
      assert |last| >= 2 ==> res[|res| - 1] == last[|last| - 1] && res[|res| - 2] == last[|last| - 2];
    }
  }

  /** Cutting at the last slash, or everything, removes the top. */
  lemma PopResult(stack: seq<string>)
    requires stack != [] && forall i :: 0 <= i < |stack| ==> Plain(stack[i])
    ensures var res, rest := Join(stack), stack[..|stack| - 1];
      && LastSlash(res) != |res| - 1
      && (LastSlash(res) == -1 ==> rest == [])
      && (|res| <= 2 ==> rest == [])
      && (LastSlash(res) != -1 ==>
            && res[..LastSlash(res)] == Join(rest)
            && |Join(rest)| - 1 - LastSlash(Join(rest)) == LastLength(rest))
  {
    JoinLast(stack);
    if |stack| > 1 {
      JoinLast(stack[..|stack| - 1]);
    }
  }

  /** One segment `seg` is complete: what the scanner does to `res` and `lastSegmentLength`. */
  method Absorb(res0: string, lastLength0: nat, seg: string, dots: int, up: bool, ghost stack: seq<string>)
    returns (res: string, lastLength: nat)
    requires IsNormal(stack, up) && res0 == Join(stack) && lastLength0 == LastLength(stack)
    requires '/' !in seg && dots == Dots(seg)
    ensures res == Join(Push(stack, seg, up)) && lastLength == LastLength(Push(stack, seg, up))
  {
    res, lastLength := res0, lastLength0;
    DotsMeaning(seg);
    TopTest(stack);
    JoinSnoc(stack, seg);
    assert Join([]) == "" && LastLength([]) == 0;
    if stack != [] {
      PopResult(stack);
    }
    hide Join, Dots, LastLength, LastSlash, Plain;
    if |seg| == 0 || dots == 1 {
      // nothing
    } else if dots == 2 {
      if |res| < 2 || lastLength != 2 || res[|res| - 1] != '.' || res[|res| - 2] != '.' {
        if |res| > 2 {
          var lastSlashIndex := LastSlash(res);
          if lastSlashIndex != |res| - 1 {
            if lastSlashIndex == -1 {
              res, lastLength := "", 0;
            } else {
              res := res[..lastSlashIndex];
              lastLength := |res| - 1 - LastSlash(res);
            }
            return;
          }
        } else if |res| == 2 || |res| == 1 {
          res, lastLength := "", 0;
          return;
        }
      }
      if up {
        res := if |res| > 0 then res + "/.." else "..";
        lastLength := 2;
      }
    } else {
      res := if |res| > 0 then res + "/" + seg else seg;
      lastLength := |seg|;
    }
  }

  /** The segment that ends at slash `i` is the next one to be folded. */
  lemma NextSegment(path: string, from: nat, i: nat, up: bool, stack: seq<string>)
    requires from <= i < |path| && path[i] == '/' && '/' !in path[from..i]
    ensures Fold(Segments(path[from..]), up, stack) == Fold(Segments(path[i + 1..]), up, Push(stack, path[from..i], up))
  {
    hide Fold, Push;
    var tail := path[from..];
    assert tail[..i - from] == path[from..i] && tail[i - from + 1..] == path[i + 1..];
    FirstSlashAt(tail, i - from);
    var segs := Segments(path[i + 1..]);
    assert Segments(tail) == [path[from..i]] + segs;
    FoldFirst(path[from..i], segs, up, stack);
  }

  lemma FoldFirst(seg: string, segs: seq<string>, up: bool, stack: seq<string>)
    ensures Fold([seg] + segs, up, stack) == Fold(segs, up, Push(stack, seg, up))
  {
    hide Push;
    assert ([seg] + segs)[1..] == segs;
  }

  lemma LastSegment(path: string, from: nat, up: bool, stack: seq<string>)
    requires from <= |path| && '/' !in path[from..]
    ensures Fold(Segments(path[from..]), up, stack) == Push(stack, path[from..], up)
  {
    SegmentsSingle(path[from..]);
    assert [path[from..]][1..] == [];
  }

  lemma DotsSnoc(seg: string, c: char)
    ensures Dots(seg + [c]) == if c == '.' && Dots(seg) != -1 then Dots(seg) + 1 else -1
  {
    var t := seg + [c];
    assert t[|seg|] == c;
    if Dots(t) != -1 {
      assert forall i :: 0 <= i < |seg| ==> seg[i] == t[i];
    }
  }

  /** normalizeStringPosix: one pass over the characters computes the joined stack. */
  method NormalizeString(path: string, allowAboveRoot: bool) returns (res: string)
    ensures res == Normal(path, allowAboveRoot)
  {
    hide Join, Fold, Segments, Push, Dots, LastLength;
    res := "";
    var lastSegmentLength: nat := 0;
    var lastSlash := -1;
    var dots := 0;
    var code: Option<char> := None;
    ghost var stack: seq<string> := [];
    assert path[0..] == path;
    EmptyStack();
    var i := 0;
    while i <= |path|
      invariant 0 <= i <= |path| + 1
      invariant IsNormal(stack, allowAboveRoot) && res == Join(stack) && lastSegmentLength == LastLength(stack)
      invariant i <= |path| ==>
        && -1 <= lastSlash < i && '/' !in path[lastSlash + 1..i] && dots == Dots(path[lastSlash + 1..i])
        && Stack(path, allowAboveRoot) == Fold(Segments(path[lastSlash + 1..]), allowAboveRoot, stack)
      invariant i == |path| + 1 ==> Stack(path, allowAboveRoot) == stack
      invariant if i == 0 then code == None else i <= |path| ==> code == Some(path[i - 1])
    {
      if i < |path| {
        code := Some(path[i]);
      } else if code == Some('/') {
        assert lastSlash == i - 1;
        LastSegment(path, lastSlash + 1, allowAboveRoot, stack);
        assert path[lastSlash + 1..] == "";
        PushNothing(stack, allowAboveRoot);
        break;
      } else {
        code := Some('/');
      }
      if code == Some('/') {
        var seg := path[lastSlash + 1..i];
        res, lastSegmentLength := Absorb(res, lastSegmentLength, seg, dots, allowAboveRoot, stack);
        PushNormal(stack, seg, allowAboveRoot);
        if i < |path| {
          NextSegment(path, lastSlash + 1, i, allowAboveRoot, stack);
          assert path[i + 1..i + 1] == "";
        } else {
          assert path[lastSlash + 1..] == seg;
          LastSegment(path, lastSlash + 1, allowAboveRoot, stack);
        }
        stack := Push(stack, seg, allowAboveRoot);
        lastSlash := i;
        dots := 0;
      } else {
        DotsSnoc(path[lastSlash + 1..i], path[i]);
        assert path[lastSlash + 1..i + 1] == path[lastSlash + 1..i] + [path[i]];
        if code == Some('.') && dots != -1 {
          dots := dots + 1;
        } else {
          dots := -1;
        }
      }
      i := i + 1;
    }
  }

  lemma EmptyStack()
    ensures Join([]) == "" && LastLength([]) == 0 && Dots("") == 0
  {
  }

  lemma PushNothing(stack: seq<string>, up: bool)
    ensures Push(stack, "", up) == stack
  {
  }

  // ---------------------------------------------------------------- normalize

  predicate IsAbsolute(path: string) { path != "" && path[0] == '/' }

  predicate HasTrailingSlash(path: string) { path != "" && path[|path| - 1] == '/' }

  /** A normal stack written as a path. */
  function Render(stack: seq<string>, absolute: bool, trailing: bool): string {
    var body := if stack == [] && !absolute then "." else Join(stack);
    (if absolute then "/" else "") + body + if body != "" && trailing then "/" else ""
  }

  function Normalize(path: string): string {
    if path == "" then "."
    else Render(Stack(path, !IsAbsolute(path)), IsAbsolute(path), HasTrailingSlash(path))
  }

  lemma StackEmpty(path: string, up: bool)
    ensures Join(Stack(path, up)) == "" <==> Stack(path, up) == []
  {
    hide Join, Stack;
    StackNormal(path, up);
    TopTest(Stack(path, up));
  }

  method NormalizePath(path: string) returns (r: string)
    ensures r == Normalize(path)
  {
    hide Join, Stack, IsNormal;
    if |path| == 0 {
      return ".";
    }
    var isAbsolute := path[0] == '/';
    var trailingSeparator := path[|path| - 1] == '/';
    StackEmpty(path, !isAbsolute);
    r := NormalizeString(path, !isAbsolute);
    if |r| == 0 && !isAbsolute {
      r := ".";
    }
    if |r| > 0 && trailingSeparator {
      r := r + "/";
    }
    if isAbsolute {
      return "/" + r;
    }
  }

  /** Reading back a rendered normal stack. */
  lemma RenderReads(stack: seq<string>, absolute: bool, trailing: bool)
    requires IsNormal(stack, !absolute)
    ensures var path := Render(stack, absolute, trailing);
      && path != "" && IsAbsolute(path) == absolute
      && Stack(path, !absolute) == stack
      && HasTrailingSlash(path) == (trailing || (stack == [] && absolute))
  {
    hide Segments, Fold, Stack, Push;
    var path := Render(stack, absolute, trailing);
    var body := if stack == [] && !absolute then "." else Join(stack);
    var up := !absolute;
    StackOfBody(stack, absolute);
    if body != "" && trailing {
      StackConcat((if absolute then "/" else "") + body, "", up);
      assert path == (if absolute then "/" else "") + body + "/" + "";
      SegmentsSingle("");
      FoldSingle("", up, stack);
      PushNothing(stack, up);
    } else {
      assert path == (if absolute then "/" else "") + body;
    }
    if stack != [] {
      SegmentsJoin(stack);
    }
  }

  lemma FoldSingle(seg: string, up: bool, stack: seq<string>)
    ensures Fold([seg], up, stack) == Push(stack, seg, up)
  {
    assert [seg][1..] == [];
  }

  lemma StackOfBody(stack: seq<string>, absolute: bool)
    requires IsNormal(stack, !absolute)
    ensures var body := if stack == [] && !absolute then "." else Join(stack);
      Stack((if absolute then "/" else "") + body, !absolute) == stack
  {
    var body := if stack == [] && !absolute then "." else Join(stack);
    var up := !absolute;
    assert Stack(body, up) == stack by {
      if stack == [] {
        SegmentsSingle(body);
        FoldSingle(body, up, []);
      } else {
        SegmentsJoin(stack);
        FoldOfNormal(stack, up);
      }
    }
    if absolute {
      StackConcat("", body, up);
      assert "" + "/" + body == "/" + body;
      SegmentsSingle("");
      FoldSingle("", up, []);
    } else {
      assert "" + body == body;
    }
  }

  /** Normalising twice is normalising once. */
  lemma NormalizeIdempotent(path: string)
    ensures Normalize(Normalize(path)) == Normalize(path)
  {
    if path == "" {
      RenderReads([], false, false);
      assert Render([], false, false) == ".";
    } else {
      StackNormal(path, !IsAbsolute(path));
      RenderReads(Stack(path, !IsAbsolute(path)), IsAbsolute(path), HasTrailingSlash(path));
    }
  }

  // ---------------------------------------------------------------- join

  /** The non-empty arguments with slashes between them. */
  function Glue(args: seq<string>): Option<string> {
    if args == [] then None
    else
      var last := args[|args| - 1];
      var before := Glue(args[..|args| - 1]);
      if last == "" then before
      else if before.None? then Some(last)
      else Some(before.value + "/" + last)
  }

  function JoinPaths(args: seq<string>): string {
    var glued := Glue(args);
    if glued.None? then "." else Normalize(glued.value)
  }

  method JoinArguments(args: seq<string>) returns (r: string)
    ensures r == JoinPaths(args)
  {
    var joined: Option<string> := None;
    for i := 0 to |args|
      invariant joined == Glue(args[..i])
    {
      assert args[..i + 1][..i] == args[..i];
      var arg := args[i];
      if |arg| > 0 {
        if joined.None? {
          joined := Some(arg);
        } else {
          joined := Some(joined.value + "/" + arg);
        }
      }
    }
    assert args[..|args|] == args;
    if joined.None? {
      return ".";
    }
    r := NormalizePath(joined.value);
  }

  lemma {:induction false} GlueFirst(a: string, rest: seq<string>)
    requires a != ""
    ensures Glue([a] + rest) == Some(if Glue(rest).None? then a else a + "/" + Glue(rest).value)
    decreases |rest|
  {
    var args := [a] + rest;
    if rest == [] {
      assert args == [a] && [a][..0] == [];
      assert Glue([]) == None;
    } else {
      var n := |rest| - 1;
      GlueFirst(a, rest[..n]);
      assert args[..|args| - 1] == [a] + rest[..n] && args[|args| - 1] == rest[n];
      if rest[n] != "" && Glue(rest[..n]).Some? {
        var g := Glue(rest[..n]).value;
        assert (a + "/" + g) + "/" + rest[n] == a + "/" + (g + "/" + rest[n]);
      }
    }
  }

  lemma {:induction false} GlueNonEmpty(args: seq<string>)
    ensures Glue(args).Some? ==> Glue(args).value != ""
    decreases |args|
  {
    if args != [] {
      GlueNonEmpty(args[..|args| - 1]);
    }
  }

  /** A first argument may be normalised before joining, whatever follows. */
  lemma JoinNormalized(a: string, rest: seq<string>)
    requires a != ""
    ensures JoinPaths([a] + rest) == JoinPaths([Normalize(a)] + rest)
  {
    var up := !IsAbsolute(a);
    StackNormal(a, up);
    RenderReads(Stack(a, up), IsAbsolute(a), HasTrailingSlash(a));
    GlueFirst(a, rest);
    GlueFirst(Normalize(a), rest);
    if Glue(rest).None? {
      NormalizeIdempotent(a);
    } else {
      GlueNonEmpty(rest);
      var b := Glue(rest).value;
      NormalizePrefix(a, Normalize(a), b);
    }
  }

  lemma NormalizePrefix(a: string, a': string, b: string)
    requires a != "" && a' != "" && b != "" && IsAbsolute(a) == IsAbsolute(a')
    requires Stack(a, !IsAbsolute(a)) == Stack(a', !IsAbsolute(a))
    ensures Normalize(a + "/" + b) == Normalize(a' + "/" + b)
  {
    hide Stack, Fold, Segments, Render;
    StackConcat(a, b, !IsAbsolute(a));
    StackConcat(a', b, !IsAbsolute(a));
    Ends(a, b);
    Ends(a', b);
  }

  lemma Ends(a: string, b: string)
    requires a != "" && b != ""
    ensures var s := a + "/" + b;
      s != "" && IsAbsolute(s) == IsAbsolute(a) && HasTrailingSlash(s) == HasTrailingSlash(b)
  {
  }

  // ---------------------------------------------------------------- resolve

  /** The loop of `resolve`: arguments from the right, stopping at an absolute one. */
  function Collect(paths: seq<string>, tail: string, absolute: bool): (string, bool) {
    if paths == [] || absolute then (tail, absolute)
    else
      var n := |paths| - 1;
      if paths[n] == "" then Collect(paths[..n], tail, false)
      else Collect(paths[..n], paths[n] + "/" + tail, IsAbsolute(paths[n]))
  }

  function Resolve(cwd: string, args: seq<string>): string {
    var (path, absolute) := Collect([cwd] + args, "", false);
    var body := Normal(path, !absolute);
    if absolute then "/" + body else if body != "" then body else "."
  }

  method ResolvePaths(cwd: string, args: seq<string>) returns (r: string)
    ensures r == Resolve(cwd, args)
  {
    var resolvedPath := "";
    var resolvedAbsolute := false;
    var i := |args| - 1;
    ghost var all := [cwd] + args;
    assert all[..i + 2] == all;
    while i >= -1 && !resolvedAbsolute
      invariant -2 <= i < |args|
      invariant Collect(all, "", false) == Collect(all[..i + 2], resolvedPath, resolvedAbsolute)
      decreases i + 2
    {
      var path := if i >= 0 then args[i] else cwd;
      assert path == all[i + 1] && all[..i + 2][..i + 1] == all[..i + 1];
      i := i - 1;
      if |path| == 0 {
        continue;
      }
      resolvedPath := path + "/" + resolvedPath;
      resolvedAbsolute := path[0] == '/';
    }
    r := NormalizeString(resolvedPath, !resolvedAbsolute);
    if resolvedAbsolute {
      return "/" + r;
    } else if |r| > 0 {
      return r;
    }
    return ".";
  }

  /** The reference: changing directory from left to right, an absolute path starting over. */
  function Visit(stack: seq<string>, paths: seq<string>): seq<string>
    decreases |paths|
  {
    if paths == [] then stack
    else Visit(Enter(stack, paths[0]), paths[1..])
  }

  function Enter(stack: seq<string>, path: string): seq<string> {
    Fold(Segments(path), false, if IsAbsolute(path) then [] else stack)
  }

  lemma {:induction false} VisitConcat(stack: seq<string>, a: seq<string>, b: seq<string>)
    ensures Visit(stack, a + b) == Visit(Visit(stack, a), b)
    decreases |a|
  {
    if a == [] {
      assert a + b == b;
    } else {
      assert (a + b)[1..] == a[1..] + b;
      VisitConcat(Enter(stack, a[0]), a[1..], b);
    }
  }

  lemma EnterEmpty(stack: seq<string>)
    ensures Enter(stack, "") == stack
  {
    SegmentsSingle("");
    FoldSingle("", false, stack);
  }

  lemma VisitSingle(stack: seq<string>, path: string)
    ensures Visit(stack, [path]) == Enter(stack, path)
  {
    assert [path][1..] == [];
  }

  /** The text collected from the right denotes the directory reached from the left. */
  lemma {:induction false} CollectVisits(paths: seq<string>, tail: string)
    requires Collect(paths, tail, false).1
    ensures Stack(Collect(paths, tail, false).0, false) == Fold(Segments(tail), false, Visit([], paths))
    decreases |paths|
  {
    hide Stack;
    var n := |paths| - 1;
    var init, last := paths[..n], paths[n];
    assert paths == init + [last];
    VisitConcat([], init, [last]);
    VisitSingle(Visit([], init), last);
    if last == "" {
      EnterEmpty(Visit([], init));
      CollectVisits(init, tail);
    } else {
      SegmentsConcat(last, tail);
      var text := last + "/" + tail;
      FoldConcat(Segments(last), Segments(tail), false, if IsAbsolute(last) then [] else Visit([], init));
      if IsAbsolute(last) {
        assert Collect(paths, tail, false) == (text, true);
        StackIs(text);
      } else {
        CollectVisits(init, text);
      }
    }
  }

  lemma StackIs(path: string)
    ensures Stack(path, false) == Fold(Segments(path), false, [])
  {
  }

  lemma {:induction false} CollectAbsolute(paths: seq<string>, tail: string)
    requires paths != [] && IsAbsolute(paths[0])
    ensures Collect(paths, tail, false).1
    decreases |paths|
  {
    var n := |paths| - 1;
    if n > 0 {
      if paths[n] == "" {
        CollectAbsolute(paths[..n], tail);
      } else if !IsAbsolute(paths[n]) {
        CollectAbsolute(paths[..n], paths[n] + "/" + tail);
      }
    }
  }

  /** `resolve` is the absolute path of the directory reached from `cwd`. */
  lemma ResolveVisits(cwd: string, args: seq<string>)
    requires IsAbsolute(cwd)
    ensures Resolve(cwd, args) == "/" + Join(Visit([], [cwd] + args))
    ensures IsNormal(Visit([], [cwd] + args), false)
  {
    var paths := [cwd] + args;
    CollectAbsolute(paths, "");
    CollectVisits(paths, "");
    SegmentsSingle("");
    FoldSingle("", false, Visit([], paths));
    StackNormal(Collect(paths, "", false).0, false);
  }

  /** Resolving in two steps, for argument lists of any length. */
  lemma ResolveTwice(cwd: string, first: seq<string>, second: seq<string>)
    requires IsAbsolute(cwd)
    ensures Resolve(cwd, first + second) == Resolve(cwd, [Resolve(cwd, first)] + second)
  {
    hide Resolve, Visit, Join, Segments, Fold, Stack;
    var stack := Visit([], [cwd] + first);
    var r := Resolve(cwd, first);
    ResolveVisits(cwd, first);
    ResolveVisits(cwd, first + second);
    ResolveVisits(cwd, [r] + second);
    assert [cwd] + (first + second) == ([cwd] + first) + second;
    VisitConcat([], [cwd] + first, second);
    assert [cwd] + ([r] + second) == [cwd] + [r] + second;
    VisitConcat([], [cwd] + [r], second);
    VisitConcat([], [cwd], [r]);
    VisitSingle(Visit([], [cwd]), r);
    StackOfBody(stack, true);
    StackIs(r);
  }
}
