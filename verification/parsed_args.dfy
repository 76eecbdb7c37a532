/**
 * The command line after getopts has tokenised it: which flags are present,
 * the value of each option that was given, and the free arguments. Both
 * configuration builders read their options from this record.
 */
module ParsedArgs {
  import opened Wrappers
  import opened Decimal
  import opened Colors

  datatype Parsed = Parsed(
    help: bool,                 // -h
    free: seq<string>,          // positional arguments, in order
    indent: Option<string>,     // -i VALUE
    emphasizer: Option<string>, // -e VALUE
    color: Option<string>,      // -c VALUE
    frameType: Option<string>,  // -t VALUE (read only by the frame-mode configuration)
    textEmphasize: bool,        // -E (read only by the main.rs configuration)
    framing: bool,              // -F (read only by the main.rs configuration)
    withoutColor: bool)         // -C

  /** A command line with no options and no free arguments. */
  function NoOptions(): Parsed
  {
    Parsed(false, [], None, None, None, None, false, false, false)
  }

  /** `-i` was given but its value is not a `u8`. */
  predicate IndentRejected(p: Parsed) {
    p.indent.Some? && ParseU8(p.indent.value).Err?
  }

  /** `-e` was given an empty value, so it has no first character. */
  predicate EmphasizerRejected(p: Parsed) {
    p.emphasizer == Some([])
  }

  /** `-c` was given a name outside the colour table. */
  predicate ColorRejected(p: Parsed) {
    p.color.Some? && LookupColor(p.color.value).None?
  }
}
