/** The stack-trace text parser: splits a stack string into lines, recognises each line
    with the Chrome pattern or else the Gecko/Safari pattern, and turns every recognised
    line into one frame. The two regular expressions are not re-implemented: a
    `Matcher` stands for one of them and gives the capture groups of a line it matches. */
module StackTrace {
  import opened Wrappers

  const UnknownFunction := "<unknown>"

  predicate IsDigits(s: string)
  {
    forall i :: 0 <= i < |s| ==> '0' <= s[i] <= '9'
  }

  /** What a `(\d+)` group can capture. */
  type Digits = s: string | IsDigits(s)

  /** The four capture groups of a match: function name, file name, line and column.
      The file-name group is not optional in either pattern. */
  datatype Groups = Groups(functionName: Option<string>, fileName: string,
                           lineNumber: Option<Digits>, columnNumber: Option<Digits>)

  /** A regular expression applied to one line: the groups when the line matches. */
  type Matcher = string -> Option<Groups>

  /** The Chrome pattern and the Gecko/Safari pattern, in the order they are tried. */
  datatype Patterns = Patterns(chrome: Matcher, gecko: Matcher)

  datatype Frame = Frame(functionName: string, fileName: string,
                         lineNumber: Option<nat>, columnNumber: Option<nat>)

  // ---------------------------------------------------------------------------
  // Splitting on '\n'

  /** `s.split('\n')`: the pieces between newlines; the empty string gives one piece. */
  function Split(s: string): (lines: seq<string>)
    ensures |lines| > 0
    ensures forall i :: 0 <= i < |lines| ==> '\n' !in lines[i]
  {
    if s == [] then [""]
    else
      var rest := Split(s[1..]);
      if s[0] == '\n' then [""] + rest
      else [[s[0]] + rest[0]] + rest[1..]
  }

  /** The inverse of `Split`: the pieces glued back together with newlines. */
  function Join(lines: seq<string>): string
    requires |lines| > 0
  {
    if |lines| == 1 then lines[0] else lines[0] + "\n" + Join(lines[1..])
  }

  function NewlineCount(s: string): nat
  {
    if s == [] then 0 else (if s[0] == '\n' then 1 else 0) + NewlineCount(s[1..])
  }

  /** Splitting loses nothing: joining the pieces gives back the stack text. */
  lemma {:induction false} JoinSplit(s: string)
    ensures Join(Split(s)) == s
  {
    if s != [] {
      var rest := Split(s[1..]);
      JoinSplit(s[1..]);
      if s[0] == '\n' {
        assert Split(s) == [""] + rest;
        assert ([""] + rest)[1..] == rest;
      } else {
        var lines := Split(s);
        assert lines == [[s[0]] + rest[0]] + rest[1..];
        if |rest| == 1 {
          assert lines == [[s[0]] + rest[0]];
        } else {
          assert lines[1..] == rest[1..];
          assert Join(rest) == rest[0] + "\n" + Join(rest[1..]);
        }
      }
    }
  }

  /** Splitting the joined text of newline-free pieces gives back those pieces. */
  lemma {:induction false} SplitJoin(lines: seq<string>)
    requires |lines| > 0
    requires forall i :: 0 <= i < |lines| ==> '\n' !in lines[i]
    ensures Split(Join(lines)) == lines
  {
    if |lines| == 1 {
      SplitNoNewline(lines[0]);
    } else {
      SplitJoin(lines[1..]);
      SplitPrefix(lines[0], Join(lines[1..]));
    }
  }

  lemma {:induction false} SplitNoNewline(s: string)
    requires '\n' !in s
    ensures Split(s) == [s]
  {
    if s != [] {
      SplitNoNewline(s[1..]);
      assert [s[0]] + s[1..] == s;
    }
  }

  /** A newline-free piece in front of a newline becomes the first line. */
  lemma {:induction false} SplitPrefix(piece: string, rest: string)
    requires '\n' !in piece
    ensures Split(piece + "\n" + rest) == [piece] + Split(rest)
  {
    if piece == [] {
      assert piece + "\n" + rest == "\n" + rest;
      assert ("\n" + rest)[1..] == rest;
    } else {
      var s := piece + "\n" + rest;
      assert s[1..] == piece[1..] + "\n" + rest;
      SplitPrefix(piece[1..], rest);
      assert [piece[0]] + piece[1..] == piece;
    }
  }

  /** There is one more line than there are newlines. */
  lemma {:induction false} SplitCount(s: string)
    ensures |Split(s)| == NewlineCount(s) + 1
  {
    if s != [] {
      SplitCount(s[1..]);
    }
  }

  // ---------------------------------------------------------------------------
  // Numbers

  function DigitValue(c: char): nat
    requires '0' <= c <= '9'
  {
    (c as int - '0' as int) as nat
  }

  /** `+digits`: the decimal value of a digit string. */
  function DecimalValue(d: Digits): nat
  {
    if d == [] then 0 else 10 * DecimalValue(d[..|d| - 1]) + DigitValue(d[|d| - 1])
  }

  /** The decimal numeral of `n`, as an engine prints it in a stack trace. */
  function DecimalString(n: nat): (d: Digits)
    ensures |d| > 0
  {
    var last := ['0' + (n % 10) as char];
    if n < 10 then last else DecimalString(n / 10) + last
  }

  /** Reading a printed number back gives that number. */
  lemma {:induction false} DecimalRoundTrip(n: nat)
    ensures DecimalValue(DecimalString(n)) == n
  {
    var d := DecimalString(n);
    if n >= 10 {
      DecimalRoundTrip(n / 10);
      assert d[..|d| - 1] == DecimalString(n / 10);
    }
  }

  // ---------------------------------------------------------------------------
  // Frames

  /** `group ? +group : null`: a missing or empty group is `null`; a present one is its
      decimal value, 0 included. */
  function NumberOrNull(group: Option<Digits>): (n: Option<nat>)
    ensures n.None? <==> group.None? || group.value == ""
    ensures n.Some? ==> n.value == DecimalValue(group.value)
  {
    if group.Some? && group.value != "" then Some(DecimalValue(group.value)) else None
  }

  /** The frame pushed for a matching line. Its function name is never empty: a missing
      name becomes "<unknown>"; a missing line or column is `null`, and a present one is
      the group's decimal value. */
  function ToFrame(g: Groups): (f: Frame)
    ensures f.functionName != ""
    ensures f.functionName ==
      if g.functionName.Some? && g.functionName.value != "" then g.functionName.value else "<unknown>"
    ensures f.fileName == g.fileName
    ensures f.lineNumber.None? <==> g.lineNumber.None? || g.lineNumber.value == ""
    ensures f.lineNumber.Some? ==> f.lineNumber.value == DecimalValue(g.lineNumber.value)
    ensures f.columnNumber.None? <==> g.columnNumber.None? || g.columnNumber.value == ""
    ensures f.columnNumber.Some? ==> f.columnNumber.value == DecimalValue(g.columnNumber.value)
  {
    Frame(if g.functionName.Some? && g.functionName.value != "" then g.functionName.value else UnknownFunction,
          g.fileName, NumberOrNull(g.lineNumber), NumberOrNull(g.columnNumber))
  }

  /** A line number of 0 is kept as 0, not turned into `null`. */
  lemma ZeroIsNotNull()
    ensures NumberOrNull(Some("0")) == Some(0)
  {
  }

  /** `line.match(CHROME_RE) || line.match(GECKO_RE)`: a line matches when either
      pattern does, and a line the Chrome pattern matches is never offered to the Gecko
      pattern. */
  function MatchLine(p: Patterns, line: string): (m: Option<Groups>)
    ensures m.Some? <==> p.chrome(line).Some? || p.gecko(line).Some?
    ensures p.chrome(line).Some? ==> m == p.chrome(line)
    ensures p.chrome(line).None? ==> m == p.gecko(line)
  {
    if p.chrome(line).Some? then p.chrome(line) else p.gecko(line)
  }

  /** The `reduce` over the lines: a frame for each matching line, pushed in order. */
  function ParseLines(p: Patterns, lines: seq<string>): (frames: seq<Frame>)
    ensures |frames| <= |lines|
    ensures forall k :: 0 <= k < |frames| ==> frames[k].functionName != ""
  {
    if lines == [] then []
    else
      var stacktrace := ParseLines(p, lines[..|lines| - 1]);
      match MatchLine(p, lines[|lines| - 1])
      case Some(g) => stacktrace + [ToFrame(g)]
      case None => stacktrace
  }

  /** One line yields one frame when a pattern matches it and none otherwise. */
  lemma ParseOneLine(p: Patterns, line: string)
    ensures MatchLine(p, line).None? ==> ParseLines(p, [line]) == []
    ensures MatchLine(p, line).Some? ==> ParseLines(p, [line]) == [ToFrame(MatchLine(p, line).value)]
  {
    assert [line][..0] == [];
  }

  /** Lines are parsed independently and frames keep the order of their lines: the
      frames of two runs of lines are the frames of the first run followed by those of
      the second. */
  lemma {:induction false} ParseLinesAppend(p: Patterns, a: seq<string>, b: seq<string>)
    ensures ParseLines(p, a + b) == ParseLines(p, a) + ParseLines(p, b)
    decreases |b|
  {
    if b == [] {
      assert a + b == a;
    } else {
      var b' := b[..|b| - 1];
      ParseLinesAppend(p, a, b');
      assert (a + b)[..|a + b| - 1] == a + b';
      assert (a + b)[|a + b| - 1] == b[|b| - 1];
    }
  }

  /** `parseStack`: there are at most as many frames as lines in the stack text. */
  function ParseStack(p: Patterns, stack: string): (frames: seq<Frame>)
    ensures |frames| <= NewlineCount(stack) + 1
  {
    SplitCount(stack);
    ParseLines(p, Split(stack))
  }

  /** The argument of `stacktrace`: nothing, an Error object, or the stack text. */
  datatype StackArgument = NoArgument | ErrorArgument(stack: string) | TextArgument(text: string)

  /** `stacktrace(stack)`. With no argument it parses the stack the engine captures
      for the caller, given here as `generated`; given an Error, the error's stack; given
      text, that text. Every frame is named, and there are no more frames than lines. */
  function Stacktrace(p: Patterns, arg: StackArgument, generated: string): (frames: seq<Frame>)
    ensures forall k :: 0 <= k < |frames| ==> frames[k].functionName != ""
    ensures arg.NoArgument? ==> |frames| <= NewlineCount(generated) + 1
    ensures arg.ErrorArgument? ==> |frames| <= NewlineCount(arg.stack) + 1
    ensures arg.TextArgument? ==> |frames| <= NewlineCount(arg.text) + 1
  {
    match arg
    case NoArgument => ParseStack(p, generated)
    case ErrorArgument(stack) => ParseStack(p, stack)
    case TextArgument(text) => ParseStack(p, text)
  }

  /** Given an Error object, the parser reads that object's stack. */
  lemma ErrorArgumentParsesItsStack(p: Patterns, stack: string, generated: string)
    ensures Stacktrace(p, ErrorArgument(stack), generated) == Stacktrace(p, TextArgument(stack), generated)
  {
  }

  // ---------------------------------------------------------------------------
  // A Chrome stack

  const ChromeHeader := "TypeError: Cannot read property 'foo' of undefined"
  const AtBar := "    at bar (http://path/to/file.js:13:17)"
  const AtBaz := "    at baz (http://path/to/file.js:16:5)"
  const AtFoo := "    at foo (http://path/to/file.js:20:5)"
  const AtAnonymous := "    at http://path/to/file.js:24:4"
  const ScriptUrl := "http://path/to/file.js"

  /** The groups the Chrome pattern captures on the lines of the example stack. */
  function ExampleChrome(line: string): Option<Groups>
  {
    if line == AtBar then Some(Groups(Some("bar"), ScriptUrl, Some("13"), Some("17")))
    else if line == AtBaz then Some(Groups(Some("baz"), ScriptUrl, Some("16"), Some("5")))
    else if line == AtFoo then Some(Groups(Some("foo"), ScriptUrl, Some("20"), Some("5")))
    else if line == AtAnonymous then Some(Groups(None, ScriptUrl, Some("24"), Some("4")))
    else None
  }

  /** The Gecko pattern matches none of the lines of the example stack. */
  function ExampleGecko(line: string): Option<Groups>
  {
    None
  }

  lemma ExampleNumbers()
    ensures DecimalValue("13") == 13 && DecimalValue("17") == 17 && DecimalValue("16") == 16
    ensures DecimalValue("5") == 5 && DecimalValue("20") == 20
    ensures DecimalValue("24") == 24 && DecimalValue("4") == 4
  {
    assert "13"[..1] == "1" && "17"[..1] == "1" && "16"[..1] == "1";
    assert "20"[..1] == "2" && "24"[..1] == "2";
    assert "5"[..0] == "" && "4"[..0] == "" && "1"[..0] == "" && "2"[..0] == "";
  }

  /** The lines of the example stack are pairwise different. */
  lemma ExampleLinesDistinct()
    ensures ChromeHeader != AtBar && ChromeHeader != AtBaz && ChromeHeader != AtFoo && ChromeHeader != AtAnonymous
    ensures AtBar != AtBaz && AtBar != AtFoo && AtBar != AtAnonymous
    ensures AtBaz != AtFoo && AtBaz != AtAnonymous && AtFoo != AtAnonymous
  {
    assert |ChromeHeader| != |AtBar| && |ChromeHeader| != |AtBaz| && |ChromeHeader| != |AtAnonymous|;
    assert |AtBar| != |AtBaz| && |AtBar| != |AtFoo| && |AtBar| != |AtAnonymous|;
    assert |AtBaz| != |AtAnonymous| && |AtFoo| != |AtAnonymous|;
    assert AtBaz[7] != AtFoo[7];
  }

  /** The example's lines one by one: the header gives nothing, each call site one frame. */
  lemma ExampleLineByLine()
    ensures var p := Patterns(ExampleChrome, ExampleGecko);
      && ParseLines(p, [ChromeHeader]) == []
      && ParseLines(p, [AtBar]) == [Frame("bar", ScriptUrl, Some(13), Some(17))]
      && ParseLines(p, [AtBaz]) == [Frame("baz", ScriptUrl, Some(16), Some(5))]
      && ParseLines(p, [AtFoo]) == [Frame("foo", ScriptUrl, Some(20), Some(5))]
      && ParseLines(p, [AtAnonymous]) == [Frame("<unknown>", ScriptUrl, Some(24), Some(4))]
  {
    var p := Patterns(ExampleChrome, ExampleGecko);
    ExampleNumbers();
    ExampleLinesDistinct();
    ParseOneLine(p, ChromeHeader);
    ParseOneLine(p, AtBar);
    ParseOneLine(p, AtBaz);
    ParseOneLine(p, AtFoo);
    ParseOneLine(p, AtAnonymous);
  }

  /** Five lines parse to the frames of each line, one after another. */
  lemma ParseFiveLines(p: Patterns, l0: string, l1: string, l2: string, l3: string, l4: string)
    ensures ParseLines(p, [l0, l1, l2, l3, l4])
         == ParseLines(p, [l0]) + ParseLines(p, [l1]) + ParseLines(p, [l2]) + ParseLines(p, [l3]) + ParseLines(p, [l4])
  {
    ParseLinesAppend(p, [l0], [l1]);
    ParseLinesAppend(p, [l0] + [l1], [l2]);
    ParseLinesAppend(p, [l0] + [l1] + [l2], [l3]);
    ParseLinesAppend(p, [l0] + [l1] + [l2] + [l3], [l4]);
    assert [l0] + [l1] + [l2] + [l3] + [l4] == [l0, l1, l2, l3, l4];
  }

  /** A Chrome stack of a header and four call sites gives four frames: the header is
      dropped, the call sites come out innermost first, and the anonymous one is named
      "<unknown>". */
  lemma ChromeStackExample()
    ensures ParseLines(Patterns(ExampleChrome, ExampleGecko), [ChromeHeader, AtBar, AtBaz, AtFoo, AtAnonymous]) ==
      [Frame("bar", ScriptUrl, Some(13), Some(17)),
       Frame("baz", ScriptUrl, Some(16), Some(5)),
       Frame("foo", ScriptUrl, Some(20), Some(5)),
       Frame("<unknown>", ScriptUrl, Some(24), Some(4))]
  {
    var p := Patterns(ExampleChrome, ExampleGecko);
    ExampleLineByLine();
    ParseFiveLines(p, ChromeHeader, AtBar, AtBaz, AtFoo, AtAnonymous);
  }
}
