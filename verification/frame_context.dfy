/**
 * The configuration built by src/context.rs: the `-E`/`-F` flags are
 * replaced by a frame mode named with `-t`.
 */
module FrameContext {
  import opened Wrappers
  import opened Strings
  import opened Decimal
  import opened Colors
  import opened ParsedArgs

  /** The four modes; `NoFrame` is the mode the source calls `None`. */
  datatype FrameMode = NoFrame | Frame | Prefix | All

  /** The name that selects `m`. */
  function FrameModeName(m: FrameMode): string
  {
    match m
    case NoFrame => "none"
    case Frame => "frame"
    case Prefix => "prefix"
    case All => "all"
  }

  /** Case-sensitive parse of a frame-mode name. */
  function ToFrameMode(s: string): Result<FrameMode>
  {
    match s
    case "none" => Ok(NoFrame)
    case "frame" => Ok(Frame)
    case "prefix" => Ok(Prefix)
    case "all" => Ok(All)
    case _ => Err
  }

  /** Exactly the four names parse, each to its own mode. */
  lemma ToFrameModeIff(s: string, m: FrameMode)
    ensures ToFrameMode(s) == Ok(m) <==> s == FrameModeName(m)
    ensures ToFrameMode(s).Err? <==> forall n :: s != FrameModeName(n)
  {
    if ToFrameMode(s).Err? {
      forall n: FrameMode
        ensures s != FrameModeName(n)
      {
        match n
        case NoFrame =>
        case Frame =>
        case Prefix =>
        case All =>
      }
    } else {
      assert s == FrameModeName(ToFrameMode(s).value);
    }
  }

  datatype Context = Context(
    matchValue: string,
    indent: U8,
    emphasizer: char,
    frameMode: FrameMode,
    withColor: bool,
    textColor: Color,
    justPrintHelp: bool)

  function DefaultContext(): Context
  {
    Context(
      matchValue := "",
      indent := 0,
      emphasizer := '!',
      frameMode := NoFrame,
      withColor := true,
      textColor := BrightRed,
      justPrintHelp := false)
  }

  /** `-t` was given a value that is no frame-mode name in any letter case. */
  predicate FrameTypeRejected(p: Parsed) {
    p.frameType.Some? && ToFrameMode(ToLower(p.frameType.value)).Err?
  }

  /**
   * Builds the configuration from the parsed command line, applying `-h`,
   * the free argument, `-i`, `-e`, `-c`, `-t` and `-C` in that order; a bad
   * value sets the help flag and leaves its field at the default.
   */
  function FromArgs(p: Parsed): (r: Context)
    ensures p.help ==> r == DefaultContext().(justPrintHelp := true)
    ensures !p.help ==> r.matchValue == (if |p.free| > 0 then p.free[0] else "")
    ensures !p.help ==>
      r.indent == (if p.indent.Some? && ParseU8(p.indent.value).Ok? then ParseU8(p.indent.value).value else 0)
    ensures !p.help ==>
      r.emphasizer == (if p.emphasizer.Some? && |p.emphasizer.value| > 0 then p.emphasizer.value[0] else '!')
    ensures !p.help ==>
      r.textColor == (if p.color.Some? && LookupColor(p.color.value).Some? then LookupColor(p.color.value).value else BrightRed)
    ensures !p.help ==>
      r.frameMode == (if p.frameType.Some? && ToFrameMode(ToLower(p.frameType.value)).Ok?
       then ToFrameMode(ToLower(p.frameType.value)).value else NoFrame)
    ensures !p.help ==> r.withColor == !p.withoutColor
    ensures r.justPrintHelp <==>
      p.help || IndentRejected(p) || EmphasizerRejected(p) || ColorRejected(p) || FrameTypeRejected(p)
  {
    if p.help then DefaultContext().(justPrintHelp := true)
    else
      var context := ApplyFree(DefaultContext(), p.free);
      var context := ApplyIndent(context, p.indent);
      var context := ApplyEmphasizer(context, p.emphasizer);
      var context := ApplyColor(context, p.color);
      var context := ApplyFrameType(context, p.frameType);
      if p.withoutColor then context.(withColor := false) else context
  }

  /** The first free argument, if any, is the text to match. */
  function ApplyFree(context: Context, free: seq<string>): Context
  {
    if |free| > 0 then context.(matchValue := free[0]) else context
  }

  /** `-i`: a `u8` value replaces the indent; any other value asks for help. */
  function ApplyIndent(context: Context, indent: Option<string>): (r: Context)
    ensures r.indent ==
      (if indent.Some? && ParseU8(indent.value).Ok? then ParseU8(indent.value).value else context.indent)
    ensures r.justPrintHelp <==> context.justPrintHelp || (indent.Some? && ParseU8(indent.value).Err?)
    ensures r.(indent := context.indent, justPrintHelp := context.justPrintHelp) == context
  {
    match indent
    case None => context
    case Some(indentStr) =>
      match ParseU8(indentStr)
      case Ok(n) => context.(indent := n)
      case Err => context.(justPrintHelp := true)
  }

  /** `-e`: the first character becomes the emphasizer; an empty value asks for help. */
  function ApplyEmphasizer(context: Context, emphasizer: Option<string>): (r: Context)
    ensures r.emphasizer ==
      (if emphasizer.Some? && |emphasizer.value| > 0 then emphasizer.value[0] else context.emphasizer)
    ensures r.justPrintHelp <==> context.justPrintHelp || emphasizer == Some([])
    ensures r.(emphasizer := context.emphasizer, justPrintHelp := context.justPrintHelp) == context
  {
    match emphasizer
    case None => context
    case Some(emphasizerStr) =>
      if |emphasizerStr| > 0 then context.(emphasizer := emphasizerStr[0])
      else context.(justPrintHelp := true)
  }

  /** `-c`: a colour name from the table replaces the colour; any other name asks for help. */
  function ApplyColor(context: Context, color: Option<string>): (r: Context)
    ensures r.textColor ==
      (if color.Some? && LookupColor(color.value).Some? then LookupColor(color.value).value else context.textColor)
    ensures r.justPrintHelp <==> context.justPrintHelp || (color.Some? && LookupColor(color.value).None?)
    ensures r.(textColor := context.textColor, justPrintHelp := context.justPrintHelp) == context
  {
    match color
    case None => context
    case Some(name) =>
      match LookupColor(name)
      case Some(c) => context.(textColor := c)
      case None => context.(justPrintHelp := true)
  }

  /** `-t`: the lower-cased value must name a frame mode; any other value asks for help. */
  function ApplyFrameType(context: Context, frameType: Option<string>): (r: Context)
    ensures r.frameMode ==
      (if frameType.Some? && ToFrameMode(ToLower(frameType.value)).Ok?
       then ToFrameMode(ToLower(frameType.value)).value else context.frameMode)
    ensures r.justPrintHelp <==>
      context.justPrintHelp || (frameType.Some? && ToFrameMode(ToLower(frameType.value)).Err?)
    ensures r.(frameMode := context.frameMode, justPrintHelp := context.justPrintHelp) == context
  {
    match frameType
    case None => context
    case Some(emphasizeType) =>
      match ToFrameMode(ToLower(emphasizeType))
      case Ok(mode) => context.(frameMode := mode)
      case Err => context.(justPrintHelp := true)
  }

  /** With nothing on the command line the defaults come through unchanged. */
  lemma NoOptionsGiveDefaults()
    ensures FromArgs(NoOptions()) == Context("", 0, '!', NoFrame, true, BrightRed, false)
  {
  }

  /**
   * A `-t` value selects mode `m` without error exactly when it spells `m`'s
   * name with any mixture of upper- and lower-case letters.
   */
  lemma FrameTypeIgnoresCase(p: Parsed, m: FrameMode)
    requires !p.help && p.frameType.Some?
    ensures !FrameTypeRejected(p) && FromArgs(p).frameMode == m <==>
      CaseVariant(p.frameType.value, FrameModeName(m))
  {
    var name := FrameModeName(m);
    assert IsLowerAscii(name) by {
      match m
      case NoFrame =>
      case Frame =>
      case Prefix =>
      case All =>
    }
    ToLowerIffCaseVariant(p.frameType.value, name);
    ToFrameModeIff(ToLower(p.frameType.value), m);
  }

  /** `-t FRAME` selects the frame mode. */
  lemma UpperCaseFrame()
    ensures FromArgs(NoOptions().(frameType := Some("FRAME"))).frameMode == Frame
  {
    assert ToLower("FRAME") == "frame";
  }
}
