/**
 * The line loop of src/main.rs: the match test, the emphasis of a matching
 * line and the pass over every input line. What reaches the terminal is
 * modelled as a sequence of segments: a printed line, a change of the
 * foreground colour, or a colour reset.
 */
module Render {
  import opened Wrappers
  import opened Strings
  import opened Colors
  import opened ParsedArgs
  import opened MainContext

  datatype Segment = SetColor(color: Color) | Text(text: string) | Reset

  /** The printed lines, in order, with the colour changes left out. */
  function TextLines(segs: seq<Segment>): seq<string>
  {
    if |segs| == 0 then []
    else (if segs[0].Text? then [segs[0].text] else []) + TextLines(segs[1..])
  }

  lemma {:induction false} TextLinesAppend(a: seq<Segment>, b: seq<Segment>)
    ensures TextLines(a + b) == TextLines(a) + TextLines(b)
  {
    if |a| == 0 {
      assert a + b == b;
    } else {
      assert (a + b)[0] == a[0];
      assert (a + b)[1..] == a[1..] + b;
      TextLinesAppend(a[1..], b);
    }
  }

  /** One `println!` per line of `lines`. */
  function AsText(lines: seq<string>): seq<Segment>
  {
    seq(|lines|, i requires 0 <= i < |lines| => Text(lines[i]))
  }

  lemma {:induction false} TextLinesOfText(lines: seq<string>)
    ensures TextLines(AsText(lines)) == lines
  {
    if |lines| > 0 {
      assert AsText(lines)[1..] == AsText(lines[1..]);
      TextLinesOfText(lines[1..]);
    }
  }

  /**
   * Terminal colour state after `segs`, starting coloured or not; None when a
   * colour is set on an already coloured terminal or a reset comes without a
   * colour to undo.
   */
  function ColorState(segs: seq<Segment>, colored: bool): Option<bool>
  {
    if |segs| == 0 then Some(colored)
    else
      match segs[0]
      case SetColor(_) => if colored then None else ColorState(segs[1..], true)
      case Reset => if colored then ColorState(segs[1..], false) else None
      case Text(_) => ColorState(segs[1..], colored)
  }

  lemma {:induction false} ColorStateAppend(a: seq<Segment>, b: seq<Segment>, colored: bool)
    ensures ColorState(a, colored).None? ==> ColorState(a + b, colored).None?
    ensures ColorState(a, colored).Some? ==>
      ColorState(a + b, colored) == ColorState(b, ColorState(a, colored).value)
  {
    if |a| == 0 {
      assert a + b == b;
    } else {
      assert (a + b)[0] == a[0];
      assert (a + b)[1..] == a[1..] + b;
      match a[0]
      case SetColor(_) =>
        if !colored {
          ColorStateAppend(a[1..], b, true);
        }
      case Reset =>
        if colored {
          ColorStateAppend(a[1..], b, false);
        }
      case Text(_) =>
        ColorStateAppend(a[1..], b, colored);
    }
  }

  /** Printing lines never changes the colour. */
  lemma {:induction false} TextKeepsColor(lines: seq<string>, colored: bool)
    ensures ColorState(AsText(lines), colored) == Some(colored)
  {
    if |lines| > 0 {
      assert AsText(lines)[1..] == AsText(lines[1..]);
      TextKeepsColor(lines[1..], colored);
    }
  }

  /**
   * The rule drawn above and below a matching line: the emphasizer repeated
   * once per byte of the line, plus four when the line itself is wrapped.
   */
  function Rule(ctx: Context, line: string): string
  {
    seq(ByteLen(line) + (if ctx.frameString then 4 else 0), _ => ctx.emphasizer)
  }

  /** The matching line as printed: as it is, or wrapped as `e line e` with single spaces. */
  function Body(ctx: Context, line: string): string
  {
    if ctx.frameString then [ctx.emphasizer, ' '] + line + [' ', ctx.emphasizer] else line
  }

  /**
   * With an ASCII emphasizer the rule has one emphasizer per byte of the
   * printed body, wrapped or not. The rule is as many characters wide as the
   * body exactly when the line is ASCII; a non-ASCII line gets a longer rule.
   */
  lemma RuleFitsBody(ctx: Context, line: string)
    ensures IsAsciiChar(ctx.emphasizer) ==> |Rule(ctx, line)| == ByteLen(Body(ctx, line))
    ensures |Rule(ctx, line)| == |Body(ctx, line)| <==> IsAscii(line)
    ensures |Rule(ctx, line)| >= |Body(ctx, line)|
  {
    ByteLenBounds(line);
    if ctx.frameString {
      var e := ctx.emphasizer;
      ByteLenAppend([e, ' '] + line, [' ', e]);
      ByteLenAppend([e, ' '], line);
      assert ByteLen([e, ' ']) == Utf8Width(e) + 1 by {
        assert [e, ' '][1..] == [' '];
        assert [' '][1..] == [];
      }
      assert ByteLen([' ', e]) == 1 + Utf8Width(e) by {
        assert [' ', e][1..] == [e];
        assert [e][1..] == [];
      }
    }
  }

  function Blanks(n: nat): seq<string>
  {
    seq(n, _ => "")
  }

  /** The rule line, when `-E` asked for one. */
  function RuleLines(ctx: Context, line: string): seq<string>
  {
    if ctx.withEmphasizer then [Rule(ctx, line)] else []
  }

  /** What a matching line prints: indent blank lines, rule, body, rule, indent blank lines. */
  function PrintedLines(ctx: Context, line: string): (r: seq<string>)
    ensures |r| == 2 * ctx.indent + 1 + (if ctx.withEmphasizer then 2 else 0)
    ensures forall j :: 0 <= j < ctx.indent ==> r[j] == ""
    ensures forall j :: |r| - ctx.indent <= j < |r| ==> r[j] == ""
    ensures r[ctx.indent + (if ctx.withEmphasizer then 1 else 0)] == Body(ctx, line)
    ensures ctx.withEmphasizer ==>
      r[ctx.indent] == Rule(ctx, line) && r[ctx.indent + 2] == Rule(ctx, line)
  {
    var blanks := Blanks(ctx.indent);
    var rules := RuleLines(ctx, line);
    blanks + rules + [Body(ctx, line)] + rules + blanks
  }

  /**
   * Emphasis of a matching line: its printed lines, enclosed in a colour
   * change and a reset when colour is on.
   */
  function Render(ctx: Context, line: string): (r: seq<Segment>)
    ensures TextLines(r) == PrintedLines(ctx, line)
    ensures ctx.withColor ==>
      |r| >= 2 && r[0] == SetColor(ctx.textColor) && r[|r| - 1] == Reset
    ensures ctx.withColor ==> forall j :: 0 < j < |r| - 1 ==> r[j].Text?
    ensures !ctx.withColor ==> forall j :: 0 <= j < |r| ==> r[j].Text?
  {
    var printed := PrintedLines(ctx, line);
    var texts := AsText(printed);
    TextLinesOfText(printed);
    if ctx.withColor then
      TextLinesAppend([SetColor(ctx.textColor)], texts);
      TextLinesAppend([SetColor(ctx.textColor)] + texts, [Reset]);
      [SetColor(ctx.textColor)] + texts + [Reset]
    else
      texts
  }

  /** Emphasizing a line sets the colour at most once and always resets it. */
  lemma RenderRestoresColor(ctx: Context, line: string)
    ensures ColorState(Render(ctx, line), false) == Some(false)
  {
    var texts := AsText(PrintedLines(ctx, line));
    TextKeepsColor(PrintedLines(ctx, line), false);
    TextKeepsColor(PrintedLines(ctx, line), true);
    if ctx.withColor {
      ColorStateAppend([SetColor(ctx.textColor)], texts, false);
      ColorStateAppend([SetColor(ctx.textColor)] + texts, [Reset], false);
    }
  }

  /** One input line: printed as it is unless it contains the match value. */
  function Process(ctx: Context, line: string): (r: seq<Segment>)
    ensures !Occurs(ctx.matchValue, line) ==> r == [Text(line)]
    ensures Occurs(ctx.matchValue, line) ==> r == Render(ctx, line)
    ensures ctx.matchValue == [] ==> r == Render(ctx, line)
  {
    ContainsIffOccurs(line, ctx.matchValue);
    EmptyOccursEverywhere(line);
    if Contains(line, ctx.matchValue) then Render(ctx, line) else [Text(line)]
  }

  /** Every input line in turn. */
  function ProcessAll(ctx: Context, lines: seq<string>): seq<Segment>
    decreases |lines|
  {
    if |lines| == 0 then []
    else ProcessAll(ctx, lines[..|lines| - 1]) + Process(ctx, lines[|lines| - 1])
  }

  /** After every line the colour is back to the terminal default. */
  lemma {:induction false} ProcessAllRestoresColor(ctx: Context, lines: seq<string>)
    ensures ColorState(ProcessAll(ctx, lines), false) == Some(false)
    decreases |lines|
  {
    if |lines| > 0 {
      var last := lines[|lines| - 1];
      ProcessAllRestoresColor(ctx, lines[..|lines| - 1]);
      ColorStateAppend(ProcessAll(ctx, lines[..|lines| - 1]), Process(ctx, last), false);
      if Contains(last, ctx.matchValue) {
        RenderRestoresColor(ctx, last);
      }
    }
  }

  /** A line without the match value comes out unchanged, printed while no colour is set. */
  lemma UnmatchedLinePrintedPlain(ctx: Context, lines: seq<string>, i: int)
    requires 0 <= i < |lines| && !Occurs(ctx.matchValue, lines[i])
    ensures ProcessAll(ctx, lines[..i + 1]) == ProcessAll(ctx, lines[..i]) + [Text(lines[i])]
    ensures ColorState(ProcessAll(ctx, lines[..i]), false) == Some(false)
  {
    assert lines[..i + 1][..i] == lines[..i];
    ProcessAllRestoresColor(ctx, lines[..i]);
  }

  /** The loop of main.rs:38-40, pushing one emphasizer per iteration. */
  method BuildFraming(ctx: Context, line: string) returns (framing: string)
    ensures |framing| == ByteLen(line) + (if ctx.frameString then 4 else 0)
    ensures forall i :: 0 <= i < |framing| ==> framing[i] == ctx.emphasizer
  {
    var width := ByteLen(line) + if ctx.frameString then 4 else 0;
    framing := [];
    var k := 0;
    while k < width
      invariant k <= width
      invariant |framing| == k
      invariant forall i :: 0 <= i < k ==> framing[i] == ctx.emphasizer
    {
      framing := framing + [ctx.emphasizer];
      k := k + 1;
    }
  }

  /** Prints `n` blank lines, as the indent loops of main.rs do. */
  method PrintBlanks(out: seq<Segment>, n: nat) returns (out': seq<Segment>)
    ensures out' == out + AsText(Blanks(n))
  {
    out' := out;
    var k := 0;
    while k < n
      invariant k <= n
      invariant out' == out + AsText(Blanks(k))
    {
      assert AsText(Blanks(k + 1)) == AsText(Blanks(k)) + [Text("")];
      out' := out' + [Text("")];
      k := k + 1;
    }
  }

  /** The string building of main.rs:42-51. */
  method BuildLine(ctx: Context, line: string) returns (emphasized: string)
    ensures emphasized == Body(ctx, line)
    ensures |emphasized| == |line| + (if ctx.frameString then 4 else 0)
    ensures !ctx.frameString ==> emphasized == line
    ensures ctx.frameString ==>
      && emphasized[..2] == [ctx.emphasizer, ' ']
      && emphasized[2..|emphasized| - 2] == line
      && emphasized[|emphasized| - 2..] == [' ', ctx.emphasizer]
  {
    emphasized := [];
    if ctx.frameString {
      emphasized := emphasized + [ctx.emphasizer];
      emphasized := emphasized + [' '];
      emphasized := emphasized + line;
      emphasized := emphasized + [' '];
      emphasized := emphasized + [ctx.emphasizer];
    } else {
      emphasized := emphasized + line;
    }
  }

  /** Printing `more` after `printed` is printing `printed + more`. */
  lemma PrintMore(opening: seq<Segment>, printed: seq<string>, more: seq<string>)
    ensures opening + AsText(printed) + AsText(more) == opening + AsText(printed + more)
  {
  }

  /** The definition of `PrintedLines`, for proofs that build it piece by piece. */
  lemma PrintedLinesUnfold(ctx: Context, line: string)
    ensures PrintedLines(ctx, line) == Blanks(ctx.indent) + RuleLines(ctx, line) + [Body(ctx, line)]
      + RuleLines(ctx, line) + Blanks(ctx.indent)
  {
  }

  /** The definition of `Render`, for proofs that build it piece by piece. */
  lemma RenderUnfold(ctx: Context, line: string)
    ensures Render(ctx, line) ==
      if ctx.withColor then [SetColor(ctx.textColor)] + AsText(PrintedLines(ctx, line)) + [Reset]
      else AsText(PrintedLines(ctx, line))
  {
  }

  /** Statement-by-statement emphasis of a matching line, as main.rs:37-74 does it. */
  method EmphasizeLine(ctx: Context, line: string) returns (out: seq<Segment>)
    ensures out == Render(ctx, line)
  {
    var framing := BuildFraming(ctx, line);
    assert framing == Rule(ctx, line);
    var emphasized := BuildLine(ctx, line);
    out := [];
    if ctx.withColor {
      out := out + [SetColor(ctx.textColor)];
    }
    ghost var opening := out;
    ghost var blanks := Blanks(ctx.indent);
    ghost var rules := RuleLines(ctx, line);
    out := PrintBlanks(out, ctx.indent);
    assert out == opening + AsText(blanks);
    if ctx.withEmphasizer {
      out := out + [Text(framing)];
      PrintMore(opening, blanks, rules);
    } else {
      assert blanks + rules == blanks;
    }
    assert out == opening + AsText(blanks + rules);
    out := out + [Text(emphasized)];
    PrintMore(opening, blanks + rules, [emphasized]);
    ghost var upper := blanks + rules + [emphasized];
    assert out == opening + AsText(upper);
    if ctx.withEmphasizer {
      out := out + [Text(framing)];
      PrintMore(opening, upper, rules);
    } else {
      assert upper + rules == upper;
    }
    assert out == opening + AsText(upper + rules);
    out := PrintBlanks(out, ctx.indent);
    PrintMore(opening, upper + rules, blanks);
    assert out == opening + AsText(upper + rules + blanks);
    PrintedLinesUnfold(ctx, line);
    assert upper + rules + blanks == PrintedLines(ctx, line);
    RenderUnfold(ctx, line);
    if ctx.withColor {
      out := out + [Reset];
      assert opening == [SetColor(ctx.textColor)];
    } else {
      assert opening == [];
    }
  }

  /** The whole loop of main.rs:31-76 over the lines of the input. */
  method FilterLines(ctx: Context, lines: seq<string>) returns (out: seq<Segment>)
    ensures out == ProcessAll(ctx, lines)
    ensures ColorState(out, false) == Some(false)
  {
    out := [];
    var i := 0;
    while i < |lines|
      invariant i <= |lines|
      invariant out == ProcessAll(ctx, lines[..i])
    {
      assert lines[..i + 1][..i] == lines[..i];
      var line := lines[i];
      if !Contains(line, ctx.matchValue) {
        out := out + [Text(line)];
      } else {
        var emphasized := EmphasizeLine(ctx, line);
        out := out + emphasized;
      }
      i := i + 1;
    }
    assert lines[..|lines|] == lines;
    ProcessAllRestoresColor(ctx, lines);
  }

  /**
   * `hello world` with `-E -F -e '#'`: a rule of 15 emphasizers (11 bytes
   * plus 4) and the line wrapped to the same width.
   */
  lemma WrappedHelloWorldPieces(ctx: Context)
    requires ctx.emphasizer == '#' && ctx.frameString
    ensures Rule(ctx, "hello world") == "###############"
    ensures Body(ctx, "hello world") == "# hello world #"
  {
    assert ByteLen("hello world") == 11 by {
      assert IsAscii("hello world");
      ByteLenBounds("hello world");
    }
  }

  /**
   * The same line printed without colour (`-C`) and without indent: the rule,
   * the wrapped line, the rule.
   */
  lemma WrappedHelloWorld(ctx: Context)
    requires ctx.indent == 0 && ctx.emphasizer == '#'
    requires ctx.withEmphasizer && ctx.frameString && !ctx.withColor
    ensures Render(ctx, "hello world") ==
      [Text("###############"), Text("# hello world #"), Text("###############")]
  {
    var line := "hello world";
    WrappedHelloWorldPieces(ctx);
    PrintedLinesUnfold(ctx, line);
    assert PrintedLines(ctx, line) == ["###############", "# hello world #", "###############"];
    RenderUnfold(ctx, line);
  }

  /** Searching for `world` selects the line `hello world` for emphasis. */
  lemma HelloWorldMatches(ctx: Context)
    requires ctx.matchValue == "world"
    ensures Process(ctx, "hello world") == Render(ctx, "hello world")
  {
    assert OccursAt("world", "hello world", 6);
  }

  /** What the program does with a command line and its input. */
  datatype Outcome = Usage | Output(segments: seq<Segment>)

  /**
   * main.rs:24-76: build the configuration; print the usage text if it asks
   * for help, otherwise run the loop.
   */
  function Run(p: Parsed, lines: seq<string>): (o: Outcome)
    ensures o.Usage? <==> p.help || IndentRejected(p) || EmphasizerRejected(p) || ColorRejected(p)
    ensures o.Output? ==> ColorState(o.segments, false) == Some(false)
    ensures o.Output? ==> o.segments == ProcessAll(ContextFromArgs(p), lines)
  {
    var ctx := ContextFromArgs(p);
    if ctx.justPrintHelp then Usage
    else
      ProcessAllRestoresColor(ctx, lines);
      Output(ProcessAll(ctx, lines))
  }
}
