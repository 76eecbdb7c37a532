/**
 * The configuration built by src/main.rs: framing is switched on by `-E`
 * (a rule of emphasizers above and below the line) and `-F` (the line
 * wrapped in emphasizers and the rule widened to match).
 */
module MainContext {
  import opened Wrappers
  import opened Strings
  import opened Decimal
  import opened Colors
  import opened ParsedArgs

  datatype Context = Context(
    matchValue: string,
    indent: U8,
    frameString: bool,
    emphasizer: char,
    withEmphasizer: bool,
    withColor: bool,
    textColor: Color,
    justPrintHelp: bool)

  function DefaultContext(): Context
  {
    Context(
      matchValue := "",
      indent := 0,
      frameString := false,
      emphasizer := '!',
      withEmphasizer := false,
      withColor := true,
      textColor := BrightRed,
      justPrintHelp := false)
  }

  /**
   * Builds the configuration from the parsed command line. `-h` returns the
   * defaults at once with the help flag set. Otherwise each option is applied
   * in turn; a bad value sets the help flag, leaves its field at the default
   * and does not stop the options after it from being applied.
   */
  function ContextFromArgs(p: Parsed): (r: Context)
    ensures p.help ==> r == DefaultContext().(justPrintHelp := true)
    ensures !p.help ==> r.matchValue == (if |p.free| > 0 then p.free[0] else "")
    ensures !p.help ==>
      r.indent == (if p.indent.Some? && ParseU8(p.indent.value).Ok? then ParseU8(p.indent.value).value else 0)
    ensures !p.help ==>
      r.emphasizer == (if p.emphasizer.Some? && |p.emphasizer.value| > 0 then p.emphasizer.value[0] else '!')
    ensures !p.help ==>
      r.textColor == (if p.color.Some? && LookupColor(p.color.value).Some? then LookupColor(p.color.value).value else BrightRed)
    ensures !p.help ==> r.withEmphasizer == p.textEmphasize
    ensures !p.help ==> r.frameString == p.framing
    ensures !p.help ==> r.withColor == !p.withoutColor
    ensures r.justPrintHelp <==>
      p.help || IndentRejected(p) || EmphasizerRejected(p) || ColorRejected(p)
  {
    if p.help then DefaultContext().(justPrintHelp := true)
    else
      var context := ApplyFree(DefaultContext(), p.free);
      var context := ApplyIndent(context, p.indent);
      var context := ApplyEmphasizer(context, p.emphasizer);
      var context := ApplyColor(context, p.color);
      var context := if p.textEmphasize then context.(withEmphasizer := true) else context;
      var context := if p.framing then context.(frameString := true) else context;
      if p.withoutColor then context.(withColor := false) else context
  }

  /** The first free argument, if any, is the text to match. */
  function ApplyFree(context: Context, free: seq<string>): Context
  {
    if |free| > 0 then context.(matchValue := free[0]) else context
  }

  /** `-i`: a `u8` value replaces the indent; any other value asks for help. */
  function ApplyIndent(context: Context, indent: Option<string>): (r: Context)
    ensures r.indent ==
      (if indent.Some? && ParseU8(indent.value).Ok? then ParseU8(indent.value).value else context.indent)
    ensures r.justPrintHelp <==> context.justPrintHelp || (indent.Some? && ParseU8(indent.value).Err?)
    ensures r.(indent := context.indent, justPrintHelp := context.justPrintHelp) == context
  {
    match indent
    case None => context
    case Some(indentStr) =>
      match ParseU8(indentStr)
      case Ok(n) => context.(indent := n)
      case Err => context.(justPrintHelp := true)
  }

  /** `-e`: the first character becomes the emphasizer; an empty value asks for help. */
  function ApplyEmphasizer(context: Context, emphasizer: Option<string>): (r: Context)
    ensures r.emphasizer ==
      (if emphasizer.Some? && |emphasizer.value| > 0 then emphasizer.value[0] else context.emphasizer)
    ensures r.justPrintHelp <==> context.justPrintHelp || emphasizer == Some([])
    ensures r.(emphasizer := context.emphasizer, justPrintHelp := context.justPrintHelp) == context
  {
    match emphasizer
    case None => context
    case Some(emphasizerStr) =>
      if |emphasizerStr| > 0 then context.(emphasizer := emphasizerStr[0])
      else context.(justPrintHelp := true)
  }

  /** `-c`: a colour name from the table replaces the colour; any other name asks for help. */
  function ApplyColor(context: Context, color: Option<string>): (r: Context)
    ensures r.textColor ==
      (if color.Some? && LookupColor(color.value).Some? then LookupColor(color.value).value else context.textColor)
    ensures r.justPrintHelp <==> context.justPrintHelp || (color.Some? && LookupColor(color.value).None?)
    ensures r.(textColor := context.textColor, justPrintHelp := context.justPrintHelp) == context
  {
    match color
    case None => context
    case Some(name) =>
      match LookupColor(name)
      case Some(c) => context.(textColor := c)
      case None => context.(justPrintHelp := true)
  }

  /** With nothing on the command line the defaults come through unchanged. */
  lemma NoOptionsGiveDefaults()
    ensures ContextFromArgs(NoOptions()) ==
      Context("", 0, false, '!', false, true, BrightRed, false)
  {
  }

  /** `-c RED` selects red: colour names are matched whatever their case. */
  lemma UpperCaseRed()
    ensures ContextFromArgs(NoOptions().(color := Some("RED"))).textColor == Red
    ensures !ContextFromArgs(NoOptions().(color := Some("RED"))).justPrintHelp
  {
    assert CaseVariant("RED", ColorName(Red));
    LookupColorIgnoresCase("RED", Red);
  }
}
