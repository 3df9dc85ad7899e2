/** The permuting option scanner of `deps/argtable/argtable3.c` (`getopt_internal`,
    `parse_long_options`).  Strings are C strings without their terminator; `argv` holds the
    `nargc` arguments, and reading one past the end yields NULL, modelled as `None`. */
module Getopt {
  import opened Common
  import opened Rotation

  // ---------------------------------------------------------------- options

  datatype HasArg = NoArgument | RequiredArgument | OptionalArgument

  /** `hasFlag`: the entry stores its value through a pointer and the scanner answers 0. */
  datatype LongOption = LongOption(name: string, hasArg: HasArg, hasFlag: bool, val: int)

  const BADCH: int := '?' as int

  /** The option string without a leading `+` or `-`, the long options if any, and the flags. */
  datatype Config = Config(options: string, longs: Option<seq<LongOption>>, permute: bool, allArgs: bool, longOnly: bool) {
    function BadArg(): int {
      if options != "" && options[0] == ':' then ':' as int else BADCH
    }

    /** Operands are collected behind the options. */
    predicate Permutes() { permute && !allArgs }

    /** A table entry must not answer -1, which means "no more options". */
    predicate Valid() {
      longs.Some? ==> forall i :: 0 <= i < |longs.value| ==> longs.value[i].val != -1
    }
  }

  /** The option string's prefix and the environment adjust the flags. */
  function Configure(options: string, longs: Option<seq<LongOption>>, permute: bool, longOnly: bool, posixlyCorrect: bool): Config {
    var plus := options != "" && options[0] == '+';
    var minus := options != "" && options[0] == '-';
    Config(if plus || minus then options[1..] else options, longs,
           permute && !(posixlyCorrect || plus), !(posixlyCorrect || plus) && minus, longOnly)
  }

  /** The first index of `x`, or the length. */
  function IndexOf(s: string, x: char): (i: nat)
    ensures i <= |s| && (i < |s| ==> s[i] == x)
    ensures forall j :: 0 <= j < i ==> s[j] != x
  {
    if s == "" || s[0] == x then 0 else 1 + IndexOf(s[1..], x)
  }

  // ---------------------------------------------------------------- long options

  datatype Match = NoMatch | Found(index: nat) | Ambiguous

  predicate Exact(o: LongOption, name: string) { o.name == name }

  /** An abbreviation; a single letter that is also a short option is none. */
  predicate Abbreviates(o: LongOption, name: string, shortToo: bool) {
    name < o.name && !(shortToo && |name| == 1)
  }

  function FirstExact(longs: seq<LongOption>, name: string): (i: nat)
    ensures i <= |longs| && (i < |longs| ==> Exact(longs[i], name))
    ensures forall j :: 0 <= j < i ==> !Exact(longs[j], name)
  {
    if longs == [] || Exact(longs[0], name) then 0 else 1 + FirstExact(longs[1..], name)
  }

  /** The indices below `end` that `name` abbreviates. */
  function Abbreviated(longs: seq<LongOption>, name: string, shortToo: bool, end: nat): (s: seq<nat>)
    requires end <= |longs|
    ensures forall i :: i in s <==> 0 <= i < end && Abbreviates(longs[i], name, shortToo)
  {
    if end == 0 then []
    else
      var s := Abbreviated(longs, name, shortToo, end - 1);
      if Abbreviates(longs[end - 1], name, shortToo) then s + [end - 1] else s
  }

  /** Two abbreviated entries before the first exact one make the name ambiguous; otherwise an
      exact entry wins over an abbreviated one. */
  function LongMatch(longs: seq<LongOption>, name: string, shortToo: bool): (m: Match)
    ensures m.Found? ==> m.index < |longs| && name <= longs[m.index].name
  {
    var exact := FirstExact(longs, name);
    var partial := Abbreviated(longs, name, shortToo, exact);
    if |partial| >= 2 then Ambiguous
    else if exact < |longs| then Found(exact)
    else if |partial| == 1 then Found(partial[0])
    else NoMatch
  }

  method FindLongOption(longs: seq<LongOption>, name: string, shortToo: bool) returns (m: Match)
    ensures m == LongMatch(longs, name, shortToo)
  {
    hide FirstExact;
    var found: Option<nat> := None;
    var i := 0;
    while i < |longs|
      invariant 0 <= i <= FirstExact(longs, name)
      invariant Abbreviated(longs, name, shortToo, i) == Opt(found)
    {
      if !(name <= longs[i].name) {
        i := i + 1;
        continue;
      }
      if |longs[i].name| == |name| {
        assert FirstExact(longs, name) == i;
        return Found(i);
      }
      if shortToo && |name| == 1 {
        i := i + 1;
        continue;
      }
      if found.None? {
        found := Some(i);
      } else {
        AbbreviatedGrows(longs, name, shortToo, i + 1, FirstExact(longs, name));
        return Ambiguous;
      }
      i := i + 1;
    }
    return if found.Some? then Found(found.value) else NoMatch;
  }

  lemma {:induction false} AbbreviatedGrows(longs: seq<LongOption>, name: string, shortToo: bool, i: nat, j: nat)
    requires i <= j <= |longs|
    ensures |Abbreviated(longs, name, shortToo, i)| <= |Abbreviated(longs, name, shortToo, j)|
  {
    if i < j {
      AbbreviatedGrows(longs, name, shortToo, i, j - 1);
    }
  }

  // ---------------------------------------------------------------- one option

  /** One answer of the scanner: the value it returns and the option's argument. */
  datatype Answer = Answer(code: int, arg: Option<string>)

  /** `rest` is what remains of the current argument, `advance` how far `optind` moves.
      `StrayDash`: the scanner answers -1 in the middle of an argument. */
  datatype Scan = Scan(answer: Answer, rest: string, advance: nat) | StrayDash

  datatype LongScan = NotLong | Long(answer: Answer, advance: nat)

  /** `parse_long_options` on `text`; `tail` are the arguments after the current one. */
  function ParseLong(c: Config, text: string, shortToo: bool, tail: seq<string>): (r: LongScan)
    requires c.longs.Some?
    ensures r.Long? ==> 1 <= r.advance <= 1 + |tail|
    ensures r.NotLong? ==> shortToo
  {
    var eq := IndexOf(text, '=');
    var hasEqual := eq < |text|;
    match LongMatch(c.longs.value, text[..eq], shortToo)
    case Ambiguous => Long(Answer(BADCH, None), 1)
    case NoMatch => if shortToo then NotLong else Long(Answer(BADCH, None), 1)
    case Found(i) =>
      var o := c.longs.value[i];
      var code := if o.hasFlag then 0 else o.val;
      match o.hasArg
      case NoArgument => if hasEqual then Long(Answer(c.BadArg(), None), 1) else Long(Answer(code, None), 1)
      case OptionalArgument => Long(Answer(code, if hasEqual then Some(text[eq + 1..]) else None), 1)
      case RequiredArgument =>
        if hasEqual then Long(Answer(code, Some(text[eq + 1..])), 1)
        else if tail == [] then Long(Answer(c.BadArg(), None), 1)
        else Long(Answer(code, Some(tail[0])), 2)
  }

  /** A short option at the head of `place`. */
  function ScanShort(c: Config, place: string, tail: seq<string>): (r: Scan)
    requires place != ""
    ensures r.Scan? ==> |r.rest| < |place| && r.advance <= 1 + |tail|
    ensures r.Scan? && r.rest != "" ==> r.advance == 0
    ensures r.Scan? && r.rest == "" ==> r.advance >= 1
    ensures r.StrayDash? ==> '-' !in c.options
  {
    var x, rest := place[0], place[1..];
    var oli := IndexOf(c.options, x);
    var used := if rest == "" then 1 else 0;
    if x == ':' || (x == '-' && rest != "") || oli == |c.options| then
      if x == '-' && rest == "" then StrayDash
      else Scan(Answer(BADCH, None), rest, used)
    else if c.longs.Some? && x == 'W' && oli + 1 < |c.options| && c.options[oli + 1] == ';' then
      if rest != "" then
        var l := ParseLong(c, rest, false, tail);
        Scan(l.answer, "", l.advance)
      else if tail == [] then Scan(Answer(c.BadArg(), None), "", 1)
      else
        var l := ParseLong(c, tail[0], false, tail[1..]);
        Scan(l.answer, "", 1 + l.advance)
    else if oli + 1 == |c.options| || c.options[oli + 1] != ':' then
      Scan(Answer(x as int, None), rest, used)
    else if rest != "" then Scan(Answer(x as int, Some(rest)), "", 1)
    else if oli + 2 < |c.options| && c.options[oli + 2] == ':' then Scan(Answer(x as int, None), "", 1)
    else if tail == [] then Scan(Answer(c.BadArg(), None), "", 1)
    else Scan(Answer(x as int, Some(tail[0])), "", 2)
  }

  /** What one call does at `place`; `atStart`: nothing of the argument was skipped. */
  function ScanOption(c: Config, place: string, atStart: bool, tail: seq<string>): (r: Scan)
    requires place != ""
    ensures r.Scan? ==> |r.rest| < |place| && r.advance <= 1 + |tail|
    ensures r.Scan? && r.rest != "" ==> r.advance == 0
    ensures r.Scan? && r.rest == "" ==> r.advance >= 1
    ensures r.StrayDash? ==> '-' !in c.options && (atStart || c.longs.None?)
  {
    if c.longs.Some? && !atStart && (place[0] == '-' || c.longOnly) then
      var dashes := place[0] == '-';
      var shortToo := !dashes && place[0] != ':' && place[0] in c.options;
      match ParseLong(c, if dashes then place[1..] else place, shortToo, tail)
      case Long(answer, advance) => Scan(answer, "", advance)
      case NotLong => ScanShort(c, place, tail)
    else ScanShort(c, place, tail)
  }

  // ---------------------------------------------------------------- the reference scan

  /** Not an option: no dash, or a lone dash that is not an option letter. */
  predicate IsOperand(c: Config, arg: string) {
    arg == "" || arg[0] != '-' || (arg == "-" && '-' !in c.options)
  }

  /** The scanning position inside an option argument: behind its dash, if more follows. */
  function Inside(arg: string): string
    requires arg != ""
  {
    if |arg| > 1 then arg[1..] else arg
  }

  /** Scanning the rest of one argument: the answers, and how many arguments it uses up. */
  datatype Cluster = Cluster(answers: seq<Answer>, used: nat, stray: bool)

  function ScanCluster(c: Config, place: string, atStart: bool, tail: seq<string>): (r: Cluster)
    requires place != ""
    ensures !r.stray ==> 1 <= r.used <= 1 + |tail|
    ensures r.stray ==> '-' !in c.options && (atStart || c.longs.None?)
    decreases |place|
  {
    match ScanOption(c, place, atStart, tail)
    case StrayDash => Cluster([], 0, true)
    case Scan(answer, rest, advance) =>
      if rest == "" then Cluster([answer], advance, false)
      else
        var more := ScanCluster(c, rest, false, tail);
        more.(answers := [answer] + more.answers)
  }

  /** The arguments sorted into options (with their arguments and the `--`), operands, and what
      follows `--`; and the answers of a plain left-to-right scan that skips operands. */
  datatype Split = Split(opts: seq<string>, operands: seq<string>, rest: seq<string>, answers: seq<Answer>, stray: bool)

  function Classify(c: Config, args: seq<string>): (s: Split)
    decreases |args|
  {
    if args == [] then Split([], [], [], [], false)
    else if IsOperand(c, args[0]) then
      Later([], [args[0]], [], Classify(c, args[1..]))
    else if args[0] == "--" then Split(["--"], [], args[1..], [], false)
    else
      var r := ScanCluster(c, Inside(args[0]), |args[0]| == 1, args[1..]);
      if r.stray then Split([], [], args, r.answers, true)
      else Later(args[..r.used], [], r.answers, Classify(c, args[r.used..]))
  }

  /** `s` preceded by options, operands and answers already seen. */
  function Later(opts: seq<string>, operands: seq<string>, answers: seq<Answer>, s: Split): Split {
    s.(opts := opts + s.opts, operands := operands + s.operands, answers := answers + s.answers)
  }

  /** The reference scan from the middle of the argument at `optind`. */
  function ClassifyFrom(c: Config, args: seq<string>, optind: nat, place: string, atStart: bool): Split
    requires optind < |args| && place != ""
  {
    var r := ScanCluster(c, place, atStart, args[optind + 1..]);
    if r.stray then Split([], [], args[optind..], r.answers, true)
    else Later(args[optind..optind + r.used], [], r.answers, Classify(c, args[optind + r.used..]))
  }

  lemma LaterTwice(o1: seq<string>, p1: seq<string>, a1: seq<Answer>, o2: seq<string>, p2: seq<string>, a2: seq<Answer>, s: Split)
    ensures Later(o1, p1, a1, Later(o2, p2, a2, s)) == Later(o1 + o2, p1 + p2, a1 + a2, s)
  {
    assert o1 + (o2 + s.opts) == o1 + o2 + s.opts;
    assert p1 + (p2 + s.operands) == p1 + p2 + s.operands;
    assert a1 + (a2 + s.answers) == a1 + a2 + s.answers;
  }

  /** Where an argument goes. */
  datatype Label = ToOptions | ToOperands | ToRest

  /** The arguments with one label, in their order. */
  function Pick(args: seq<string>, labels: seq<Label>, l: Label): seq<string>
    requires |labels| == |args|
  {
    if args == [] then []
    else (if labels[0] == l then [args[0]] else []) + Pick(args[1..], labels[1..], l)
  }

  /** All the labels are the same. */
  function Same(l: Label, n: nat): seq<Label> { seq(n, _ => l) }

  lemma {:induction false} PickSame(args: seq<string>, l: Label, k: Label)
    ensures Pick(args, Same(l, |args|), k) == if k == l then args else []
  {
    if args != [] {
      assert Same(l, |args|)[1..] == Same(l, |args| - 1);
      PickSame(args[1..], l, k);
    }
  }

  lemma {:induction false} PickBoth(front: seq<string>, back: seq<string>, first: seq<Label>, second: seq<Label>, l: Label)
    requires |first| == |front| && |second| == |back|
    ensures Pick(front + back, first + second, l) == Pick(front, first, l) + Pick(back, second, l)
  {
    if front == [] {
      assert front + back == back && first + second == second;
    } else {
      assert (front + back)[1..] == front[1..] + back && (first + second)[1..] == first[1..] + second;
      PickBoth(front[1..], back, first[1..], second, l);
    }
  }

  /** `labels` sort the arguments as `s` says, and only operands are called operands. */
  predicate Sorts(c: Config, args: seq<string>, labels: seq<Label>, s: Split) {
    && |labels| == |args|
    && Pick(args, labels, ToOptions) == s.opts
    && Pick(args, labels, ToOperands) == s.operands
    && Pick(args, labels, ToRest) == s.rest
    && (forall i :: 0 <= i < |args| && labels[i] == ToOperands ==> IsOperand(c, args[i]))
  }

  /** A block with one label in front of arguments that are sorted already. */
  lemma SortsMore(c: Config, block: seq<string>, l: Label, answers: seq<Answer>, args: seq<string>, labels: seq<Label>, s: Split)
    requires l != ToRest && Sorts(c, args, labels, s)
    requires l == ToOperands ==> forall i :: 0 <= i < |block| ==> IsOperand(c, block[i])
    ensures Sorts(c, block + args, Same(l, |block|) + labels,
                  Later(if l == ToOptions then block else [], if l == ToOperands then block else [], answers, s))
  {
    hide Pick, IsOperand;
    var all := Same(l, |block|) + labels;
    forall k: Label
      ensures Pick(block + args, all, k) == (if k == l then block else []) + Pick(args, labels, k)
    {
      PickBoth(block, args, Same(l, |block|), labels, k);
      PickSame(block, l, k);
    }
    assert [] + s.rest == s.rest;
    forall i | 0 <= i < |block + args| && all[i] == ToOperands ensures IsOperand(c, (block + args)[i]) {
      if i >= |block| {
        assert all[i] == labels[i - |block|];
      }
    }
  }

  /** Sorting loses and invents nothing and keeps the order: every argument gets one label, and
      options, operands and rest are the arguments with that label, in the order given. */
  lemma {:induction false} ClassifyKeepsAll(c: Config, args: seq<string>) returns (labels: seq<Label>)
    ensures Sorts(c, args, labels, Classify(c, args))
    decreases |args|
  {
    hide ScanCluster, Later, Sorts, IsOperand;
    if args == [] {
      labels := [];
      SortsRest(c, args, Split([], [], [], [], false));
    } else if IsOperand(c, args[0]) {
      var more := ClassifyKeepsAll(c, args[1..]);
      SortsMore(c, [args[0]], ToOperands, [], args[1..], more, Classify(c, args[1..]));
      labels := Same(ToOperands, 1) + more;
      assert [args[0]] + args[1..] == args;
    } else if args[0] == "--" {
      var rest := Split([], [], args[1..], [], false);
      SortsRest(c, args[1..], rest);
      SortsMore(c, ["--"], ToOptions, [], args[1..], Same(ToRest, |args| - 1), rest);
      labels := Same(ToOptions, 1) + Same(ToRest, |args| - 1);
      assert ["--"] + args[1..] == args;
      LaterDashes(args[1..]);
    } else {
      OptionsAreLong(c, args[0]);
      var r := ScanCluster(c, Inside(args[0]), |args[0]| == 1, args[1..]);
      if r.stray {
        labels := Same(ToRest, |args|);
        SortsRest(c, args, Split([], [], args, r.answers, true));
      } else {
        var more := ClassifyKeepsAll(c, args[r.used..]);
        SortsMore(c, args[..r.used], ToOptions, r.answers, args[r.used..], more, Classify(c, args[r.used..]));
        labels := Same(ToOptions, r.used) + more;
        assert args[..r.used] + args[r.used..] == args;
      }
    }
  }

  lemma SortsRest(c: Config, args: seq<string>, s: Split)
    requires s.opts == [] && s.operands == [] && s.rest == args
    ensures Sorts(c, args, Same(ToRest, |args|), s)
    ensures args == [] ==> Sorts(c, args, [], s)
  {
    hide Pick;
    PickSame(args, ToRest, ToOptions);
    PickSame(args, ToRest, ToOperands);
    PickSame(args, ToRest, ToRest);
    assert args == [] ==> Same(ToRest, |args|) == [];
  }

  lemma LaterDashes(rest: seq<string>)
    ensures Later(["--"], [], [], Split([], [], rest, [], false)) == Split(["--"], [], rest, [], false)
  {
  }

  // ---------------------------------------------------------------- a dash that stops the scan

  /** The option string declares `x` with an argument. */
  predicate TakesArgument(c: Config, x: char) {
    var k := IndexOf(c.options, x);
    x != ':' && k + 1 < |c.options| && c.options[k + 1] == ':'
  }

  predicate NeedsArgument(c: Config, x: char) {
    var k := IndexOf(c.options, x);
    TakesArgument(c, x) && !(k + 2 < |c.options| && c.options[k + 2] == ':')
  }

  /** No letter before the last one takes the rest as its argument. */
  predicate Separable(c: Config, letters: string)
    requires letters != ""
  {
    forall i :: 0 <= i < |letters| - 1 ==> !TakesArgument(c, letters[i])
  }

  /** The letters end in a dash that is read on its own and is no option. */
  predicate EndsInDash(c: Config, letters: string)
    requires letters != ""
  {
    letters[|letters| - 1] == '-' && '-' !in c.options && Separable(c, letters)
  }

  /** The last letter asks for the next argument. */
  predicate WantsNext(c: Config, letters: string)
    requires letters != ""
  {
    Separable(c, letters) && NeedsArgument(c, letters[|letters| - 1])
  }

  /** Read as text: going over the options, one is reached that ends in a stray dash. */
  predicate ReachesStrayDash(c: Config, args: seq<string>)
    decreases |args|
  {
    if args == [] then false
    else if IsOperand(c, args[0]) then ReachesStrayDash(c, args[1..])
    else if args[0] == "--" then false
    else if EndsInDash(c, Inside(args[0])) then true
    else if WantsNext(c, Inside(args[0])) && |args| > 1 then ReachesStrayDash(c, args[2..])
    else ReachesStrayDash(c, args[1..])
  }

  lemma LetterStep(c: Config, place: string, atStart: bool, tail: seq<string>)
    requires c.longs.None? && place != ""
    ensures var r := ScanOption(c, place, atStart, tail); var x, rest := place[0], place[1..];
      && (r.StrayDash? <==> x == '-' && rest == "" && '-' !in c.options)
      && (r.Scan? && rest != "" ==> if TakesArgument(c, x) && x != '-' then r.rest == "" && r.advance == 1 else r.rest == rest)
      && (r.Scan? && rest == "" ==> r.rest == "" && r.advance == if NeedsArgument(c, x) && tail != [] then 2 else 1)
  {
  }

  /** Without long options, the scan of one argument as a condition on its letters. */
  lemma {:induction false} ClusterOnText(c: Config, place: string, atStart: bool, tail: seq<string>)
    requires c.longs.None? && place != "" && '-' !in c.options
    ensures var r := ScanCluster(c, place, atStart, tail);
      && (r.stray <==> EndsInDash(c, place))
      && (!r.stray ==> r.used == if WantsNext(c, place) && tail != [] then 2 else 1)
    decreases |place|
  {
    hide ScanOption, NeedsArgument;
    LetterStep(c, place, atStart, tail);
    var x, rest := place[0], place[1..];
    if rest != "" {
      DashTakesNothing(c);
      SeparableTail(c, place);
      if !TakesArgument(c, x) {
        ClusterOnText(c, rest, false, tail);
      }
    }
  }

  lemma DashTakesNothing(c: Config)
    requires '-' !in c.options
    ensures !TakesArgument(c, '-')
  {
  }

  lemma SeparableTail(c: Config, place: string)
    requires |place| > 1
    ensures Separable(c, place) <==> !TakesArgument(c, place[0]) && Separable(c, place[1..])
    ensures place[1..][|place| - 2] == place[|place| - 1]
  {
    hide TakesArgument;
    if !TakesArgument(c, place[0]) && Separable(c, place[1..]) {
      forall i | 0 <= i < |place| - 1 ensures !TakesArgument(c, place[i]) {
        if i > 0 {
          assert place[i] == place[1..][i - 1];
        }
      }
    }
    if Separable(c, place) {
      forall i | 0 <= i < |place| - 2 ensures !TakesArgument(c, place[1..][i]) {
        assert place[i + 1] == place[1..][i];
      }
    }
  }

  /** With a long-option table, or `-` as an option letter, no scan gets stuck on a stray dash. */
  lemma {:induction false} NoStrayDash(c: Config, args: seq<string>)
    requires c.longs.Some? || '-' in c.options
    ensures !Classify(c, args).stray
    decreases |args|
  {
    if args != [] {
      if IsOperand(c, args[0]) {
        NoStrayDash(c, args[1..]);
      } else if args[0] != "--" {
        var r := ScanCluster(c, Inside(args[0]), |args[0]| == 1, args[1..]);
        if !r.stray {
          NoStrayDash(c, args[r.used..]);
        }
      }
    }
  }

  /** The exact condition, on the option string and the arguments as given. */
  lemma {:induction false} StrayExactly(c: Config, args: seq<string>)
    ensures Classify(c, args).stray <==> c.longs.None? && '-' !in c.options && ReachesStrayDash(c, args)
    decreases |args|
  {
    if c.longs.Some? || '-' in c.options {
      NoStrayDash(c, args);
    } else if args != [] {
      hide ScanCluster, EndsInDash, WantsNext;
      if IsOperand(c, args[0]) {
        StrayExactly(c, args[1..]);
      } else if args[0] != "--" {
        var r := ScanCluster(c, Inside(args[0]), |args[0]| == 1, args[1..]);
        ClusterOnText(c, Inside(args[0]), |args[0]| == 1, args[1..]);
        if !r.stray {
          StrayExactly(c, args[r.used..]);
        }
      }
    }
  }

  /** The scan position moves past an operand, into an option, through an option. */
  lemma PassOperand(c: Config, args: seq<string>, k: nat)
    requires k < |args| && IsOperand(c, args[k])
    ensures Classify(c, args[k..]) == Later([], [args[k]], [], Classify(c, args[k + 1..]))
  {
    hide Later;
    assert args[k..][1..] == args[k + 1..];
  }

  lemma EnterOption(c: Config, args: seq<string>, k: nat)
    requires k < |args| && !IsOperand(c, args[k]) && args[k] != "--"
    ensures Classify(c, args[k..]) == ClassifyFrom(c, args, k, Inside(args[k]), |args[k]| == 1)
  {
    hide Later, ScanCluster;
    assert args[k..][1..] == args[k + 1..];
    var r := ScanCluster(c, Inside(args[k]), |args[k]| == 1, args[k + 1..]);
    if !r.stray {
      assert args[k..][r.used..] == args[k + r.used..] && args[k..][..r.used] == args[k..k + r.used];
    }
  }

  lemma LeaveOption(c: Config, args: seq<string>, k: nat, place: string, atStart: bool)
    requires k < |args| && place != ""
    requires var sc := ScanOption(c, place, atStart, args[k + 1..]); sc.Scan? && sc.rest == ""
    ensures var sc := ScanOption(c, place, atStart, args[k + 1..]);
      ClassifyFrom(c, args, k, place, atStart)
        == Later(args[k..k + sc.advance], [], [sc.answer], Classify(c, args[k + sc.advance..]))
  {
    hide Later, ScanOption;
  }

  lemma StayInOption(c: Config, args: seq<string>, k: nat, place: string, atStart: bool)
    requires k < |args| && place != ""
    requires var sc := ScanOption(c, place, atStart, args[k + 1..]); sc.Scan? && sc.rest != ""
    ensures var sc := ScanOption(c, place, atStart, args[k + 1..]);
      ClassifyFrom(c, args, k, place, atStart) == Later([], [], [sc.answer], ClassifyFrom(c, args, k, sc.rest, false))
  {
    hide ScanOption;
    var sc := ScanOption(c, place, atStart, args[k + 1..]);
    var more := ScanCluster(c, sc.rest, false, args[k + 1..]);
    assert [] + args[k..] == args[k..];
    if !more.stray {
      LaterTwice([], [], [sc.answer], args[k..k + more.used], [], more.answers, Classify(c, args[k + more.used..]));
      assert [] + args[k..k + more.used] == args[k..k + more.used];
    }
  }

  /** No answer is the end mark. */
  lemma AnswersAreCodes(c: Config, place: string, atStart: bool, tail: seq<string>)
    requires c.Valid() && place != ""
    ensures var sc := ScanOption(c, place, atStart, tail); sc.Scan? ==> sc.answer.code != -1
  {
    hide ParseLong, ScanShort;
    if c.longs.Some? {
      LongAnswersAreCodes(c, if place[0] == '-' then place[1..] else place,
                          place[0] != '-' && place[0] != ':' && place[0] in c.options, tail);
    }
    ShortAnswersAreCodes(c, place, tail);
  }

  lemma LongAnswersAreCodes(c: Config, text: string, shortToo: bool, tail: seq<string>)
    requires c.Valid() && c.longs.Some?
    ensures var l := ParseLong(c, text, shortToo, tail); l.Long? ==> l.answer.code != -1
  {
    hide IndexOf, LongMatch;
  }

  lemma ShortAnswersAreCodes(c: Config, place: string, tail: seq<string>)
    requires c.Valid() && place != ""
    ensures var sc := ScanShort(c, place, tail); sc.Scan? ==> sc.answer.code != -1
  {
    hide IndexOf, ParseLong;
    if c.longs.Some? {
      LongAnswersAreCodes(c, place[1..], false, tail);
      if tail != [] {
        LongAnswersAreCodes(c, tail[0], false, tail[1..]);
      }
    }
  }

  // ---------------------------------------------------------------- the scanner

  /** The arguments before `k`: options, then operands, then the options after them. */
  ghost predicate Passed(a: seq<string>, k: nat, start: int, end: int, opts: seq<string>, operands: seq<string>)
    requires 1 <= k <= |a|
  {
    if start == -1 then end == -1 && operands == [] && a[1..k] == opts
    else if end == -1 then 1 <= start < k && a[1..start] == opts && a[start..k] == operands
    else 1 <= start < end <= k && a[1..start] + a[end..k] == opts && a[start..end] == operands
  }

  lemma PassedOperand(a: seq<string>, k: nat, start: int, opts: seq<string>, operands: seq<string>)
    requires 1 <= k < |a| && Passed(a, k, start, -1, opts, operands)
    ensures Passed(a, k + 1, if start == -1 then k else start, -1, opts, operands + [a[k]])
  {
  }

  lemma PassedOption(a: seq<string>, k: nat, n: nat, start: int, end: int, opts: seq<string>, operands: seq<string>)
    requires 1 <= k <= k + n <= |a| && Passed(a, k, start, end, opts, operands) && (start != -1 ==> end != -1)
    ensures Passed(a, k + n, start, end, opts + a[k..k + n], operands)
  {
    if start == -1 {
      assert a[1..k] + a[k..k + n] == a[1..k + n];
    } else {
      assert a[end..k] + a[k..k + n] == a[end..k + n];
      assert a[1..start] + a[end..k] + a[k..k + n] == a[1..start] + (a[end..k] + a[k..k + n]);
    }
  }

  /** After the exchange the options come first. */
  lemma PassedMoved(a: seq<string>, k: nat, start: int, end: int, opts: seq<string>, operands: seq<string>)
    requires 1 <= k <= |a| && Passed(a, k, start, end, opts, operands) && end != -1
    ensures 1 <= start < end <= k
    ensures var b := Exchanged(a, start, end, k);
      && b == a[..1] + opts + operands + a[k..]
      && k - (end - start) == 1 + |opts|
      && (end < k ==> Passed(b, k, k - (end - start), -1, opts, operands))
  {
    var b := Exchanged(a, start, end, k);
    assert start >= 1;
    ExchangeBlocks(a, start, end, k);
    assert b[1..1 + |opts|] == opts;
    assert b[1 + |opts|..k] == operands;
  }

  lemma ExchangeBlocks(s: seq<string>, start: nat, middle: nat, end: nat)
    requires 1 <= start <= middle <= end <= |s|
    ensures Exchanged(s, start, middle, end) == s[..1] + (s[1..start] + s[middle..end]) + s[start..middle] + s[end..]
  {
    assert s[..start] == s[..1] + s[1..start];
  }

  /** The static state of the scanner.  `nonoptStart` and `nonoptEnd` are -1 when unset; `place` is
      what is left of the argument at `optind`. */
  class Scanner {
    const argv: array<string>
    const config: Config
    var optind: nat
    var place: string
    var nonoptStart: int
    var nonoptEnd: int
    var optarg: Option<string>
    /** History: the arguments as given, the options and operands passed, the answers given. */
    ghost const original: seq<string>
    ghost var opts: seq<string>
    ghost var operands: seq<string>
    ghost var answers: seq<Answer>

    /** Where the options and operands passed so far lie in `argv`. */
    ghost predicate Layout()
      reads this, argv
    {
      && 1 <= optind <= argv.Length == |original|
      && argv[0] == original[0] && argv[optind..] == original[optind..]
      && Passed(argv[..], optind, nonoptStart, nonoptEnd, opts, operands)
    }

    /** The reference scan of what is left continues the options, operands and answers so far. */
    ghost predicate OnTrack()
      reads this, argv
      requires 1 <= optind <= |original|
    {
      Classify(config, original[1..]) == Later(opts, operands, answers, Remaining())
    }

    ghost function Remaining(): Split
      reads this
      requires 1 <= optind <= |original|
    {
      if place == "" || optind == |original| then Classify(config, original[optind..])
      else ClassifyFrom(config, original, optind, place, false)
    }

    ghost predicate Valid()
      reads this, argv
    {
      && config.Permutes() && config.Valid()
      && Layout() && OnTrack()
      && (place != "" ==> optind < argv.Length && (nonoptStart != -1 ==> nonoptEnd != -1))
      && nonoptEnd <= optind && (place == "" && nonoptEnd != -1 ==> nonoptEnd < optind)
    }

    /** The scanner after a reset. */
    constructor (config: Config, argv: array<string>)
      requires config.Permutes() && config.Valid() && argv.Length > 0
      ensures Valid() && this.argv == argv && this.config == config && original == argv[..] && answers == []
    {
      this.argv, this.config := argv, config;
      this.optind, this.place, this.nonoptStart, this.nonoptEnd, this.optarg := 1, "", -1, -1, None;
      this.original := argv[..];
      this.opts, this.operands, this.answers := [], [], [];
    }

    /** The outcome of a whole run: options, operands, then what follows `--`. */
    ghost predicate Finished()
      reads this, argv
    {
      && original != []
      && var s := Classify(config, original[1..]);
      && !s.stray
      && argv[..] == original[..1] + s.opts + s.operands + s.rest
      && optind == 1 + |s.opts|
      && answers == s.answers
    }

    /** Brings the operands passed so far behind the options passed so far. */
    method MoveOperands()
      requires Valid() && place == "" && nonoptEnd != -1
      modifies argv, this`nonoptStart, this`nonoptEnd
      ensures Valid() && nonoptEnd == -1 && nonoptStart == 1 + |opts| == optind - |operands|
      ensures argv[..] == original[..1] + opts + operands + original[optind..]
    {
      hide Classify, Later, Passed, ClassifyFrom;
      PassedMoved(argv[..], optind, nonoptStart, nonoptEnd, opts, operands);
      ghost var before := argv[..];
      assert nonoptStart < nonoptEnd < optind;  // neither block is empty
      PermuteArgs(nonoptStart, nonoptEnd, optind, argv);
      nonoptStart := optind - (nonoptEnd - nonoptStart);
      nonoptEnd := -1;
      assert argv[optind..] == before[optind..];
      assert argv[0] == before[0];
    }

    method SkipOperand()
      requires Valid() && place == "" && optind < argv.Length && IsOperand(config, argv[optind])
      modifies this, argv
      ensures Valid() && place == "" && optind == old(optind) + 1
      ensures answers == old(answers) && optarg == old(optarg)
    {
      hide Classify, Later, Passed, IsOperand, ClassifyFrom;
      assert argv[optind] == argv[optind..][0] == original[optind];
      PassOperand(config, original, optind);
      LaterTwice(opts, operands, answers, [], [original[optind]], [], Classify(config, original[optind + 1..]));
      assert opts + [] == opts && answers + [] == answers;
      PassedUnset(argv[..], optind, nonoptStart, nonoptEnd, opts, operands);
      if nonoptStart == -1 {
        PassedOperand(argv[..], optind, nonoptStart, opts, operands);
        nonoptStart := optind;
      } else {
        if nonoptEnd != -1 {
          MoveOperands();
        }
        PassedOperand(argv[..], optind, nonoptStart, opts, operands);
      }
      operands := operands + [argv[optind]];
      optind := optind + 1;
    }

    /** The end of the argument vector. */
    method FinishAtEnd()
      requires Valid() && place == "" && optind == argv.Length
      modifies this, argv
      ensures Finished() && place == "" && nonoptStart == -1 == nonoptEnd
    {
      hide Later, Passed, ClassifyFrom;
      assert original[optind..] == [];
      assert Classify(config, original[1..]) == Split(opts, operands, [], answers, false) by { LaterEnd(opts, operands, answers); }
      if nonoptEnd != -1 {
        MoveOperands();
        optind := nonoptStart;
      } else {
        PassedUnset(argv[..], optind, nonoptStart, nonoptEnd, opts, operands);
        assert argv[..] == argv[..optind];
        if nonoptStart != -1 {
          optind := nonoptStart;
        } else {
          PassedAlone(argv[..], opts);
        }
      }
      nonoptStart, nonoptEnd := -1, -1;
    }

    /** The `--` that ends the options. */
    method FinishAtDashes()
      requires Valid() && place == "" && optind < argv.Length && argv[optind] == "--"
      modifies this, argv
      ensures Finished() && place == "" && nonoptStart == -1 == nonoptEnd
    {
      hide Later, Passed, ClassifyFrom, Classify;
      DashesEnd(config, original, optind, opts, operands, answers);
      EndOperands();
      PassArguments(1);
      CollectOperands();
    }

    /** `n` arguments at the scanning position are options. */
    method PassArguments(n: nat)
      requires Layout() && (nonoptStart != -1 ==> nonoptEnd != -1) && optind + n <= argv.Length
      modifies this`optind, this`opts
      ensures Layout() && optind == old(optind) + n && opts == old(opts) + original[old(optind)..optind]
    {
      hide Passed;
      PassedOption(argv[..], optind, n, nonoptStart, nonoptEnd, opts, operands);
      assert argv[..][optind..optind + n] == argv[optind..][..n] == original[optind..][..n] == original[optind..optind + n];
      opts := opts + original[optind..optind + n];
      optind := optind + n;
      assert argv[optind..] == old(argv[optind..])[n..] == old(original[optind..])[n..] == original[optind..];
    }

    /** Brings the operands, if any, behind the options and moves to the first of them. */
    method CollectOperands()
      requires Layout() && (nonoptStart != -1 ==> nonoptEnd != -1) && (nonoptEnd != -1 ==> nonoptEnd < optind)
      modifies this`optind, this`nonoptStart, this`nonoptEnd, argv
      ensures argv[..] == original[..1] + opts + operands + original[old(optind)..]
      ensures optind == 1 + |opts| && nonoptStart == -1 == nonoptEnd
    {
      hide Passed;
      assert argv[..][..1] == original[..1];
      assert argv[..][optind..] == original[optind..];
      if nonoptEnd != -1 {
        PassedMoved(argv[..], optind, nonoptStart, nonoptEnd, opts, operands);
        assert nonoptStart < nonoptEnd < optind;  // neither block is empty
        PermuteArgs(nonoptStart, nonoptEnd, optind, argv);
        optind := optind - (nonoptEnd - nonoptStart);
      } else {
        PassedUnset(argv[..], optind, nonoptStart, nonoptEnd, opts, operands);
        PassedAll(argv[..], optind, opts);
      }
      nonoptStart, nonoptEnd := -1, -1;
    }

    /** The first option after operands closes their block. */
    method EndOperands()
      requires Valid() && place == "" && optind < argv.Length
      modifies this`nonoptEnd
      ensures Layout() && OnTrack() && (nonoptStart != -1 ==> nonoptEnd != -1) && nonoptEnd <= optind
    {
      hide Classify, Later, ClassifyFrom;
      if nonoptStart != -1 && nonoptEnd == -1 {
        nonoptEnd := optind;
        assert argv[..][1..nonoptStart] + argv[..][optind..optind] == argv[..][1..nonoptStart];
      }
    }

    /** The option at `text`, a part of the argument at `optind`. */
    method ScanHere(text: string, atStart: bool) returns (r: int, ghost stray: bool)
      requires Layout() && config.Permutes() && config.Valid() && optind < argv.Length && text != ""
      requires (nonoptStart != -1 ==> nonoptEnd != -1) && nonoptEnd <= optind
      requires Classify(config, original[1..])
        == Later(opts, operands, answers, ClassifyFrom(config, original, optind, text, atStart))
      modifies this
      ensures !stray ==> Valid() && r != -1 && |answers| == |old(answers)| + 1 && answers[|answers| - 1] == Answer(r, optarg)
      ensures stray ==> r == -1 && Classify(config, original[1..]).stray
    {
      hide Later, Passed, Classify, ScanOption, ClassifyFrom;
      assert argv[optind + 1..] == argv[optind..][1..] == original[optind + 1..];
      var sc := ScanOption(config, text, atStart, argv[optind + 1..]);
      if sc.StrayDash? {
        StrayEnds(config, original, optind, text, atStart, opts, operands, answers);
        place := "";
        return -1, true;
      }
      AnswersAreCodes(config, text, atStart, original[optind + 1..]);
      ghost var k := optind;
      ghost var before := answers;
      if sc.rest == "" {
        LeaveOption(config, original, optind, text, atStart);
        LaterTwice(opts, operands, answers, original[k..k + sc.advance], [], [sc.answer], Classify(config, original[k + sc.advance..]));
        PassArguments(sc.advance);
      } else {
        StayInOption(config, original, optind, text, atStart);
        LaterTwice(opts, operands, answers, [], [], [sc.answer], ClassifyFrom(config, original, k, sc.rest, false));
        assert opts + [] == opts;
      }
      assert operands + [] == operands;
      place := sc.rest;
      optarg := sc.answer.arg;
      answers := answers + [sc.answer];
      return sc.answer.code, false;
    }

    /** `getopt_internal`: the next answer, or -1 once the arguments are sorted. */
    method GetOpt() returns (r: int, ghost stray: bool)
      requires Valid()
      modifies this, argv
      ensures r != -1 ==> Valid() && |answers| == |old(answers)| + 1 && answers[|answers| - 1] == Answer(r, optarg)
      ensures r == -1 && !stray ==> Finished()
      ensures stray ==> r == -1 && Classify(config, original[1..]).stray
    {
      hide Later, Passed, Classify, ClassifyFrom, IsOperand;
      optarg := None;
      if place != "" {
        r, stray := ScanHere(place, false);
        return;
      }
      while optind < argv.Length && IsOperand(config, argv[optind])
        invariant Valid() && place == "" && answers == old(answers)
        decreases argv.Length - optind
      {
        SkipOperand();
      }
      if optind == argv.Length {
        FinishAtEnd();
        return -1, false;
      }
      if argv[optind] == "--" {
        FinishAtDashes();
        return -1, false;
      }
      assert argv[optind] == argv[optind..][0] == original[optind];
      assert argv[optind] != "" by { OptionsAreLong(config, argv[optind]); }
      EnterOption(config, original, optind);
      EndOperands();
      r, stray := ScanHere(Inside(argv[optind]), |argv[optind]| == 1);
    }

    /** Calling the scanner until it answers -1 leaves the options with their arguments in front,
        the operands behind them, each in the given order, and `optind` at the first operand;
        the answers are those of the reference scan.  It does so if and only if no option that ends in
        a stray dash is reached. */
    method Run() returns (ghost stray: bool)
      requires Valid()
      modifies this, argv
      ensures !stray ==> Finished()
      ensures stray <==> config.longs.None? && '-' !in config.options && ReachesStrayDash(config, original[1..])
    {
      hide Later, Passed, Classify, ClassifyFrom, ReachesStrayDash;
      StrayExactly(config, original[1..]);
      ghost var total := |Classify(config, original[1..]).answers|;
      var r := 0;
      stray := false;
      while r != -1
        invariant r != -1 ==> Valid() && !stray
        invariant r == -1 && !stray ==> Finished()
        invariant stray ==> Classify(config, original[1..]).stray
        decreases if r == -1 then -1 else total - |answers|
      {
        LaterAnswers(opts, operands, answers, Remaining());
        r, stray := GetOpt();
        if r != -1 {
          LaterAnswers(opts, operands, answers, Remaining());
        }
      }
    }
  }

  /** `getopt_long` (or `getopt_long_only`) called from a reset until it answers -1, with an option
      string that asks for permutation. */
  method GetoptLong(options: string, longs: seq<LongOption>, longOnly: bool, argv: array<string>)
    returns (firstOperand: nat, ghost answers: seq<Answer>)
    requires options != "" ==> options[0] != '+' && options[0] != '-'
    requires argv.Length > 0 && forall i :: 0 <= i < |longs| ==> longs[i].val != -1
    modifies argv
    ensures var s := Classify(Configure(options, Some(longs), true, longOnly, false), old(argv[1..]));
      && argv[..] == old(argv[..1]) + s.opts + s.operands + s.rest
      && firstOperand == 1 + |s.opts| && answers == s.answers
  {
    hide Classify, ReachesStrayDash;
    ghost var given := argv[..];
    var config := Configure(options, Some(longs), true, longOnly, false);
    assert given[1..] == argv[1..];
    var scanner := new Scanner(config, argv);
    ghost var stray := scanner.Run();
    return scanner.optind, scanner.answers;
  }

  /** Without a table and without `-` as an option letter, a dash at the end of a cluster stops
      the scan before the operands are moved. */
  lemma StrayDashWitness()
    ensures Classify(Config("a", None, true, false, false), ["x", "-a-"]).stray
  {
    var c := Config("a", None, true, false, false);
    var args := ["x", "-a-"];
    assert args[1..] == ["-a-"] && ["-a-"][1..] == [];
    assert "-a-"[1..] == "a-" && "a-"[1..] == "-" && "-"[1..] == "";
    assert ScanOption(c, "-", false, []) == StrayDash;
    assert ScanOption(c, "a-", false, []) == Scan(Answer('a' as int, None), "-", 0);
    assert ScanCluster(c, "-", false, []).stray;
    assert ScanCluster(c, "a-", false, []).stray;
    assert Classify(c, ["-a-"]).stray;
  }

  lemma LaterAnswers(opts: seq<string>, operands: seq<string>, answers: seq<Answer>, s: Split)
    ensures |answers| <= |Later(opts, operands, answers, s).answers|
  {
  }

  lemma OptionsAreLong(c: Config, arg: string)
    requires !IsOperand(c, arg)
    ensures arg != ""
  {
  }

  lemma StrayEnds(c: Config, args: seq<string>, k: nat, place: string, atStart: bool,
                  opts: seq<string>, operands: seq<string>, answers: seq<Answer>)
    requires k < |args| && place != "" && ScanOption(c, place, atStart, args[k + 1..]).StrayDash?
    ensures Later(opts, operands, answers, ClassifyFrom(c, args, k, place, atStart)).stray
  {
  }

  lemma LaterEnd(opts: seq<string>, operands: seq<string>, answers: seq<Answer>)
    ensures Later(opts, operands, answers, Split([], [], [], [], false)) == Split(opts, operands, [], answers, false)
  {
  }

  lemma DashesEnd(c: Config, args: seq<string>, k: nat, opts: seq<string>, operands: seq<string>, answers: seq<Answer>)
    requires k < |args| && args[k..][0] == "--"
    ensures Later(opts, operands, answers, Classify(c, args[k..])) == Split(opts + args[k..k + 1], operands, args[k + 1..], answers, false)
  {
    assert args[k..][1..] == args[k + 1..];
    assert args[k..k + 1] == ["--"];
  }

  lemma PassedAll(a: seq<string>, k: nat, opts: seq<string>)
    requires 1 <= k <= |a| && Passed(a, k, -1, -1, opts, [])
    ensures a == a[..1] + opts + [] + a[k..]
  {
  }

  lemma PassedAlone(a: seq<string>, opts: seq<string>)
    requires 1 <= |a| && Passed(a, |a|, -1, -1, opts, [])
    ensures a == a[..1] + opts + [] + []
  {
  }

  lemma PassedUnset(a: seq<string>, k: nat, start: int, end: int, opts: seq<string>, operands: seq<string>)
    requires 1 <= k <= |a| && Passed(a, k, start, end, opts, operands)
    ensures start == -1 ==> end == -1 && operands == [] && k == 1 + |opts|
    ensures start != -1 && end == -1 ==> start == 1 + |opts| && a[..k] == a[..1] + opts + operands
  {
    if start == -1 {
    } else if end == -1 {
      assert a[..k] == a[..1] + a[1..start] + a[start..k];
    }
  }
}
