/** What a user writes on a command line, and that the scanner of `deps/argtable/argtable3.c` reports
    exactly that: letters alone or clustered, arguments attached or separate, long options by their
    name or an abbreviation, operands in between, and every kind of mistake. */
module OptionText {
  import opened Common
  import opened Getopt

  // ---------------------------------------------------------------- what is written

  /** `plain` are letters without an argument, or no options at all, in front of the last letter. */
  datatype Item =
    | Letters(plain: string)                               // -abc
    | Attached(plain: string, letter: char, arg: string)   // -abcoARG
    | Separate(plain: string, letter: char, arg: string)   // -abco ARG
    | Omitted(plain: string, letter: char)                 // -abco, the argument is optional
    | Missing(plain: string, letter: char)                 // -abco, the line ends without the argument
    | LongBare(name: string, index: nat)                   // --name
    | LongEqual(name: string, index: nat, arg: string)     // --name=ARG
    | LongSeparate(name: string, index: nat, arg: string)  // --name ARG
    | LongForbidden(name: string, index: nat, arg: string) // --name=ARG, the option takes none
    | LongMissing(name: string, index: nat)                // --name, the line ends without the argument
    | LongUnknown(name: string, value: Option<string>)     // --name or --name=ARG, of no option or of several
    | Word(text: string)                                   // an operand

  /** The option string declares `x` with this kind of argument. */
  predicate Declares(c: Config, x: char, kind: HasArg) {
    var k := IndexOf(c.options, x);
    && x != ':' && x != '-' && k < |c.options|
    && !(c.longs.Some? && x == 'W' && c.options[k + 1..] != "" && c.options[k + 1] == ';')
    && kind == if !Follows(c.options, k + 1, ":") then NoArgument
               else if !Follows(c.options, k + 1, "::") then RequiredArgument
               else OptionalArgument
  }

  predicate Follows(s: string, k: nat, t: string)
    requires k <= |s|
  {
    t <= s[k..]
  }

  predicate Undeclared(c: Config, x: char) {
    x != '-' && (x == ':' || x !in c.options)
  }

  predicate AllPlain(c: Config, letters: string) {
    forall i :: 0 <= i < |letters| ==> Declares(c, letters[i], NoArgument) || Undeclared(c, letters[i])
  }

  /** `name` selects entry `index` of the table, which takes this kind of argument. */
  predicate Selects(c: Config, name: string, index: nat, kind: HasArg) {
    && c.longs.Some? && name != "" && '=' !in name
    && LongMatch(c.longs.value, name, false) == Found(index) && c.longs.value[index].hasArg == kind
  }

  predicate Good(c: Config, item: Item) {
    match item
    case Letters(plain) => plain != "" && AllPlain(c, plain)
    case Attached(plain, letter, arg) =>
      AllPlain(c, plain) && arg != "" && (Declares(c, letter, RequiredArgument) || Declares(c, letter, OptionalArgument))
    case Separate(plain, letter, _) => AllPlain(c, plain) && Declares(c, letter, RequiredArgument)
    case Omitted(plain, letter) => AllPlain(c, plain) && Declares(c, letter, OptionalArgument)
    case Missing(plain, letter) => AllPlain(c, plain) && Declares(c, letter, RequiredArgument)
    case LongBare(name, index) => Selects(c, name, index, NoArgument) || Selects(c, name, index, OptionalArgument)
    case LongEqual(name, index, _) => Selects(c, name, index, RequiredArgument) || Selects(c, name, index, OptionalArgument)
    case LongSeparate(name, index, _) => Selects(c, name, index, RequiredArgument)
    case LongForbidden(name, index, _) => Selects(c, name, index, NoArgument)
    case LongMissing(name, index) => Selects(c, name, index, RequiredArgument)
    case LongUnknown(name, value) =>
      && c.longs.Some? && '=' !in name && (name != "" || value.Some?)
      && !LongMatch(c.longs.value, name, false).Found?
    case Word(text) => IsOperand(c, text)
  }

  /** The arguments an item is written as. */
  function Text(item: Item): (t: seq<string>)
    ensures 1 <= |t| <= 2
  {
    match item
    case Letters(plain) => ["-" + plain]
    case Attached(plain, letter, arg) => ["-" + plain + [letter] + arg]
    case Separate(plain, letter, arg) => ["-" + plain + [letter], arg]
    case Omitted(plain, letter) => ["-" + plain + [letter]]
    case Missing(plain, letter) => ["-" + plain + [letter]]
    case LongBare(name, _) => ["--" + name]
    case LongEqual(name, _, arg) => ["--" + name + "=" + arg]
    case LongSeparate(name, _, arg) => ["--" + name, arg]
    case LongForbidden(name, _, arg) => ["--" + name + "=" + arg]
    case LongMissing(name, _) => ["--" + name]
    case LongUnknown(name, value) => ["--" + Assigned(name, value)]
    case Word(text) => [text]
  }

  function Assigned(name: string, arg: Option<string>): string {
    if arg.Some? then name + "=" + arg.value else name
  }

  // ---------------------------------------------------------------- what it means

  /** A letter that is no option is answered with `?`. */
  function PlainCode(c: Config, x: char): int {
    if Undeclared(c, x) then '?' as int else x as int
  }

  function Plain(c: Config, letters: string): seq<Answer> {
    seq(|letters|, i requires 0 <= i < |letters| => Answer(PlainCode(c, letters[i]), None))
  }

  /** A wrong number of arguments is answered with `:` if the option string asks for it. */
  function Complaint(c: Config): Answer {
    Answer(if ":" <= c.options then ':' as int else '?' as int, None)
  }

  function Code(c: Config, index: nat): int
    requires c.longs.Some? && index < |c.longs.value|
  {
    if c.longs.value[index].hasFlag then 0 else c.longs.value[index].val
  }

  function Meaning(c: Config, item: Item): seq<Answer>
    requires Good(c, item)
  {
    match item
    case Letters(plain) => Plain(c, plain)
    case Attached(plain, letter, arg) => Plain(c, plain) + [Answer(letter as int, Some(arg))]
    case Separate(plain, letter, arg) => Plain(c, plain) + [Answer(letter as int, Some(arg))]
    case Omitted(plain, letter) => Plain(c, plain) + [Answer(letter as int, None)]
    case Missing(plain, letter) => Plain(c, plain) + [Complaint(c)]
    case LongBare(_, index) => [Answer(Code(c, index), None)]
    case LongEqual(_, index, arg) => [Answer(Code(c, index), Some(arg))]
    case LongSeparate(_, index, arg) => [Answer(Code(c, index), Some(arg))]
    case LongForbidden(_, _, _) => [Complaint(c)]
    case LongMissing(_, _) => [Complaint(c)]
    case LongUnknown(_, _) => [Answer('?' as int, None)]
    case Word(_) => []
  }

  predicate Ends(item: Item) {
    item.Missing? || item.LongMissing?
  }

  predicate AllGood(c: Config, items: seq<Item>) {
    forall i :: 0 <= i < |items| ==> Good(c, items[i]) && (Ends(items[i]) ==> i == |items| - 1)
  }

  function Texts(items: seq<Item>): seq<string> {
    if items == [] then [] else Text(items[0]) + Texts(items[1..])
  }

  /** The whole line sorted: option texts, operands, answers. */
  function Sorted(c: Config, items: seq<Item>): (s: Split)
    requires AllGood(c, items)
    ensures s.rest == [] && !s.stray
  {
    if items == [] then Split([], [], [], [], false)
    else if items[0].Word? then Later([], Text(items[0]), [], Sorted(c, items[1..]))
    else Later(Text(items[0]), [], Meaning(c, items[0]), Sorted(c, items[1..]))
  }

  // ---------------------------------------------------------------- letters

  lemma PlainScans(c: Config, x: char, rest: string, tail: seq<string>)
    requires !c.longOnly && (Declares(c, x, NoArgument) || Undeclared(c, x))
    ensures ScanOption(c, [x] + rest, false, tail) == Scan(Answer(PlainCode(c, x), None), rest, if rest == "" then 1 else 0)
  {
    hide ParseLong;
    assert ([x] + rest)[1..] == rest;
    if IndexOf(c.options, x) < |c.options| {
      Colon(c.options, IndexOf(c.options, x) + 1);
    }
  }

  lemma Colon(s: string, k: nat)
    requires k <= |s|
    ensures Follows(s, k, ":") <==> k < |s| && s[k] == ':'
    ensures Follows(s, k, "::") <==> k + 1 < |s| && s[k] == ':' && s[k + 1] == ':'
  {
    assert k < |s| ==> s[k..][0] == s[k];
    assert k + 1 < |s| ==> s[k..][1] == s[k + 1];
  }

  lemma ArgumentScans(c: Config, x: char, rest: string, tail: seq<string>)
    requires !c.longOnly
    ensures rest != "" && (Declares(c, x, RequiredArgument) || Declares(c, x, OptionalArgument)) ==>
      ScanOption(c, [x] + rest, false, tail) == Scan(Answer(x as int, Some(rest)), "", 1)
    ensures rest == "" && Declares(c, x, RequiredArgument) && tail != [] ==>
      ScanOption(c, [x] + rest, false, tail) == Scan(Answer(x as int, Some(tail[0])), "", 2)
    ensures rest == "" && Declares(c, x, RequiredArgument) && tail == [] ==>
      ScanOption(c, [x] + rest, false, tail) == Scan(Complaint(c), "", 1)
    ensures rest == "" && Declares(c, x, OptionalArgument) ==>
      ScanOption(c, [x] + rest, false, tail) == Scan(Answer(x as int, None), "", 1)
  {
    hide ParseLong;
    assert ([x] + rest)[1..] == rest;
    if IndexOf(c.options, x) < |c.options| {
      Colon(c.options, IndexOf(c.options, x) + 1);
    }
  }

  /** Letters without arguments are answered one by one, then the rest of the argument is scanned. */
  lemma {:induction false} ClusterScans(c: Config, plain: string, more: string, tail: seq<string>)
    requires !c.longOnly && AllPlain(c, plain) && plain + more != ""
    ensures more != "" ==>
      var r := ScanCluster(c, more, false, tail);
      ScanCluster(c, plain + more, false, tail) == r.(answers := Plain(c, plain) + r.answers)
    ensures more == "" ==> ScanCluster(c, plain + more, false, tail) == Cluster(Plain(c, plain), 1, false)
    decreases |plain|
  {
    hide ScanOption, Declares, Undeclared;
    if plain == "" {
      assert plain + more == more;
      var r := ScanCluster(c, more, false, tail);
      assert Plain(c, plain) + r.answers == r.answers;
    } else {
      var x, rest := plain[0], plain[1..] + more;
      assert plain + more == [x] + rest;
      PlainScans(c, x, rest, tail);
      assert Plain(c, plain) == [Answer(PlainCode(c, x), None)] + Plain(c, plain[1..]);
      if rest == "" {
        assert Plain(c, plain[1..]) == [];
      } else {
        ClusterScans(c, plain[1..], more, tail);
      }
    }
  }

  // ---------------------------------------------------------------- long options

  lemma NoEqual(name: string)
    requires '=' !in name
    ensures IndexOf(name, '=') == |name|
  {
    hide IndexOf;
  }

  lemma EqualAt(name: string, arg: string)
    requires '=' !in name
    ensures IndexOf(name + "=" + arg, '=') == |name|
  {
    hide IndexOf;
    var text := name + "=" + arg;
    assert text[|name|] == '=' && text[..|name|] == name;
  }

  lemma BareScans(c: Config, name: string, index: nat, tail: seq<string>)
    requires Selects(c, name, index, NoArgument) || Selects(c, name, index, OptionalArgument)
    ensures ParseLong(c, name, false, tail) == Long(Answer(Code(c, index), None), 1)
  {
    hide LongMatch;
    NoEqual(name);
    assert name[..|name|] == name;
  }

  lemma SeparateScans(c: Config, name: string, index: nat, arg: string, tail: seq<string>)
    requires Selects(c, name, index, RequiredArgument)
    ensures ParseLong(c, name, false, [arg] + tail) == Long(Answer(Code(c, index), Some(arg)), 2)
  {
    hide LongMatch;
    NoEqual(name);
    assert name[..|name|] == name;
  }

  lemma EqualScans(c: Config, name: string, index: nat, arg: string, tail: seq<string>)
    requires Selects(c, name, index, RequiredArgument) || Selects(c, name, index, OptionalArgument)
    ensures ParseLong(c, name + "=" + arg, false, tail) == Long(Answer(Code(c, index), Some(arg)), 1)
  {
    hide LongMatch;
    var text := name + "=" + arg;
    EqualAt(name, arg);
    assert text[..|name|] == name && text[|name| + 1..] == arg;
  }

  /** An option that takes no argument complains about one, one that needs an argument about none. */
  lemma WrongCountScans(c: Config, name: string, index: nat, arg: string, tail: seq<string>)
    ensures Selects(c, name, index, NoArgument) ==>
      ParseLong(c, name + "=" + arg, false, tail) == Long(Complaint(c), 1)
    ensures Selects(c, name, index, RequiredArgument) ==>
      ParseLong(c, name, false, []) == Long(Complaint(c), 1)
  {
    hide LongMatch;
    if Selects(c, name, index, NoArgument) || Selects(c, name, index, RequiredArgument) {
      NoEqual(name);
      EqualAt(name, arg);
      assert name[..|name|] == name && (name + "=" + arg)[..|name|] == name;
    }
  }

  lemma UnknownScans(c: Config, name: string, arg: Option<string>, tail: seq<string>)
    requires Good(c, LongUnknown(name, arg))
    ensures ParseLong(c, Assigned(name, arg), false, tail) == Long(Answer('?' as int, None), 1)
  {
    hide LongMatch;
    NoEqual(name);
    if arg.Some? {
      EqualAt(name, arg.value);
    }
    assert Assigned(name, arg)[..|name|] == name;
  }

  lemma LongScans(c: Config, text: string, tail: seq<string>, answer: Answer, used: nat)
    requires c.longs.Some? && ParseLong(c, text, false, tail) == Long(answer, used)
    ensures ScanCluster(c, "-" + text, false, tail) == Cluster([answer], used, false)
  {
    hide ParseLong, ScanShort;
    assert ("-" + text)[1..] == text;
  }

  // ---------------------------------------------------------------- whole lines

  /** An option is taken as such, answers its meaning and uses up exactly its own text. */
  predicate Taken(c: Config, item: Item, tail: seq<string>)
    requires Good(c, item) && (Ends(item) ==> tail == [])
  {
    var arg := Text(item)[0];
    && |arg| > 1 && !IsOperand(c, arg) && arg != "--"
    && ScanCluster(c, Inside(arg), false, Text(item)[1..] + tail) == Cluster(Meaning(c, item), |Text(item)|, false)
  }

  predicate OfLetters(item: Item) {
    item.Letters? || item.Attached? || item.Separate? || item.Omitted? || item.Missing?
  }

  /** The last letter, with an attached argument. */
  function Tail(item: Item): string
    requires OfLetters(item)
  {
    if item.Letters? then "" else [item.letter] + if item.Attached? then item.arg else ""
  }

  function LastAnswer(c: Config, item: Item): Answer
    requires OfLetters(item) && !item.Letters?
  {
    if item.Missing? then Complaint(c) else Answer(item.letter as int, if item.Omitted? then None else Some(item.arg))
  }

  lemma TailScans(c: Config, item: Item, tail: seq<string>)
    requires !c.longOnly && Good(c, item) && OfLetters(item) && !item.Letters? && (Ends(item) ==> tail == [])
    ensures ScanCluster(c, Tail(item), false, Text(item)[1..] + tail) == Cluster([LastAnswer(c, item)], |Text(item)|, false)
  {
    hide ScanOption, Declares, AllPlain, Complaint;
    var attached := if item.Attached? then item.arg else "";
    var after := Text(item)[1..] + tail;
    assert item.Separate? ==> after[0] == item.arg;
    ArgumentScans(c, item.letter, attached, after);
  }

  lemma TextBehindDash(item: Item)
    requires OfLetters(item)
    ensures Text(item)[0] == "-" + (item.plain + Tail(item))
  {
  }

  lemma LettersTaken(c: Config, item: Item, tail: seq<string>)
    requires !c.longOnly && Good(c, item) && OfLetters(item) && (Ends(item) ==> tail == [])
    ensures Taken(c, item, tail)
  {
    hide ScanCluster, Declares, Text, AllPlain, Tail, Plain;
    var plain, more := item.plain, Tail(item);
    var arg, after := Text(item)[0], Text(item)[1..] + tail;
    TextBehindDash(item);
    TailStarts(item);
    assert arg[1..] == plain + more;
    NotDash(c, plain, more);
    ClusterScans(c, plain, more, after);
    if !item.Letters? {
      TailScans(c, item, tail);
    }
  }

  lemma TailStarts(item: Item)
    requires OfLetters(item)
    ensures if item.Letters? then Tail(item) == "" && |Text(item)| == 1
            else Tail(item) != "" && Tail(item)[0] == item.letter
  {
  }

  lemma NotDash(c: Config, plain: string, more: string)
    requires AllPlain(c, plain) && plain + more != ""
    requires more != "" ==> Declares(c, more[0], RequiredArgument) || Declares(c, more[0], OptionalArgument)
    ensures (plain + more)[0] != '-'
  {
    if plain != "" {
      assert Declares(c, plain[0], NoArgument) || Undeclared(c, plain[0]);
    }
  }

  lemma LongTaken(c: Config, item: Item, tail: seq<string>)
    requires Good(c, item) && (item.LongBare? || item.LongEqual? || item.LongSeparate?)
    ensures Taken(c, item, tail)
  {
    hide ParseLong, ScanOption, LongMatch, Complaint;
    var arg, after := Text(item)[0], Text(item)[1..] + tail;
    assert arg[1..] == "-" + arg[2..];
    match item
    case LongBare(name, index) =>
      BareScans(c, name, index, after);
      LongScans(c, name, after, Answer(Code(c, index), None), 1);
      assert arg[2..] == name;
    case LongEqual(name, index, value) =>
      EqualScans(c, name, index, value, after);
      LongScans(c, name + "=" + value, after, Answer(Code(c, index), Some(value)), 1);
      assert arg[2..] == name + "=" + value;
    case LongSeparate(name, index, value) =>
      assert after == [value] + tail;
      SeparateScans(c, name, index, value, tail);
      LongScans(c, name, after, Answer(Code(c, index), Some(value)), 2);
      assert arg[2..] == name;
  }

  lemma MistakeTaken(c: Config, item: Item, tail: seq<string>)
    requires Good(c, item) && (item.LongForbidden? || item.LongMissing? || item.LongUnknown?) && (Ends(item) ==> tail == [])
    ensures Taken(c, item, tail)
  {
    hide ParseLong, ScanOption, LongMatch, Complaint;
    var arg, after := Text(item)[0], Text(item)[1..] + tail;
    assert arg[1..] == "-" + arg[2..];
    match item
    case LongForbidden(name, index, value) =>
      WrongCountScans(c, name, index, value, after);
      LongScans(c, name + "=" + value, after, Complaint(c), 1);
      assert arg[2..] == name + "=" + value;
    case LongMissing(name, index) =>
      assert after == [];
      WrongCountScans(c, name, index, "", []);
      LongScans(c, name, after, Complaint(c), 1);
      assert arg[2..] == name;
    case LongUnknown(name, value) =>
      UnknownScans(c, name, value, after);
      LongScans(c, Assigned(name, value), after, Answer('?' as int, None), 1);
      assert arg[2..] == Assigned(name, value);
  }

  /** Whatever is written is reported: the scanner finds the operands, and its answers are the
      meanings of the options and mistakes, in the order written. */
  lemma {:induction false} WrittenIsScanned(c: Config, items: seq<Item>)
    requires !c.longOnly && AllGood(c, items)
    ensures Classify(c, Texts(items)) == Sorted(c, items)
    decreases |items|
  {
    if items != [] {
      hide ScanCluster, Meaning, Good, Later, IsOperand;
      var item, rest := items[0], Texts(items[1..]);
      WrittenIsScanned(c, items[1..]);
      FirstScanned(c, item, rest);
    }
  }

  lemma FirstScanned(c: Config, item: Item, rest: seq<string>)
    requires !c.longOnly && Good(c, item) && (Ends(item) ==> rest == [])
    ensures Classify(c, Text(item) + rest) ==
      if item.Word? then Later([], Text(item), [], Classify(c, rest))
      else Later(Text(item), [], Meaning(c, item), Classify(c, rest))
  {
    hide ScanCluster, Meaning, Later;
    var args := Text(item) + rest;
    if item.Word? {
      assert args[1..] == rest;
    } else {
      if OfLetters(item) {
        LettersTaken(c, item, rest);
      } else if item.LongBare? || item.LongEqual? || item.LongSeparate? {
        LongTaken(c, item, rest);
      } else {
        MistakeTaken(c, item, rest);
      }
      var n := |Text(item)|;
      assert args[1..] == Text(item)[1..] + rest && args[..n] == Text(item) && args[n..] == rest;
    }
  }

  /** The scanner on a line of such items, called until it answers -1. */
  method ScanLine(c: Config, argv: array<string>, ghost items: seq<Item>)
    returns (firstOperand: nat, ghost answers: seq<Answer>)
    requires c.Permutes() && c.Valid() && !c.longOnly && AllGood(c, items)
    requires argv.Length > 0 && argv[1..] == Texts(items)
    modifies argv
    ensures var s := Sorted(c, items);
      argv[..] == old(argv[..1]) + s.opts + s.operands && firstOperand == 1 + |s.opts| && answers == s.answers
  {
    hide Classify, Sorted, Texts, ReachesStrayDash;
    WrittenIsScanned(c, items);
    StrayExactly(c, Texts(items));
    var scanner := new Scanner(c, argv);
    assert scanner.original[1..] == Texts(items) && scanner.original[..1] == old(argv[..1]);
    ghost var stray := scanner.Run();
    ghost var s := Sorted(c, items);
    assert argv[..] == old(argv[..1]) + s.opts + s.operands + s.rest == old(argv[..1]) + s.opts + s.operands;
    return scanner.optind, scanner.answers;
  }
}
