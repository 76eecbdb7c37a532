# emphasize, modelled in Dafny

`emphasize` reads lines from standard input and prints every one of them. It
changes only the lines that contain a search string. A matching line is
printed in colour unless `-C` is given, with `-i n` blank lines above and
below it (none by default), a rule of emphasizer characters above and below it
with `-E`, and the line itself wrapped in emphasizers with `-F`.

This project models two parts of the program:

- **The line loop of `src/main.rs`.** Each line is tested for the match value.
  A line that does not match is printed as it is. A matching line is printed
  as, in order: a colour change (left out with `-C`), `indent` blank lines
  (0 by default), a rule (only with `-E`), the body (wrapped only with `-F`),
  the same rule again (only with `-E`), `indent` blank lines and a colour reset
  (left out with `-C`). Terminal output is a
  sequence of `Segment`s (`SetColor(c)`, `Text(line)` or `Reset`). One
  `println!` becomes one `Text` segment.
- **Building the configuration from the tokenised command line.** There are
  two versions. `src/main.rs` uses the `-E`/`-F` flags. `src/context.rs`
  instead has a frame mode that `-t` selects. Both read one record, `Parsed`,
  which stands for what getopts returns.

Modules:

- `Wrappers`: `Option` and `Result`.
- `Strings`: the UTF-8 byte length that Rust's `str::len` returns (widths from
  section 3 of RFC 3629); substring containment; lower-casing.
- `Decimal`: `u8::from_str`.
- `Colors`: the 16-entry colour table and the case-insensitive lookup.
- `ParsedArgs`: the parsed command line and its three shared error conditions.
- `MainContext`: the configuration of `src/main.rs`.
- `FrameContext`: the configuration of `src/context.rs`, including `FrameMode`.
- `Render`: the line loop of `src/main.rs`, both as pure functions and as
  methods that follow the source statement by statement.

Two facts about the program that shape the model:

- The colour change comes before the leading blank lines, and the reset comes
  after the trailing ones, so the colour encloses the indent
  (src/main.rs:53-74).
- The rule width counts bytes, not characters. A line with non-ASCII text
  therefore gets a rule wider than the line (`Render.RuleFitsBody`).

## Model

| member | source | states |
|---|---|---|
| Render.Process | src/main.rs:34-36 | A line that does not contain the match value as a contiguous substring comes out as exactly one `Text` of itself, with no colour segment. A line that does contain it is emphasized. With the default empty match value, every line is emphasized. |
| Render.Render | src/main.rs:53-74 | The printed lines of a matching line are exactly `PrintedLines`. When colour is on, the first segment sets `text_color`, the last is a reset, and every segment in between is text. When colour is off, every segment is text. |
| Render.PrintedLines | src/main.rs:57-70 | A matching line prints `2*indent + 1` lines, plus 2 when `-E` is given. The first `indent` and the last `indent` lines are blank. With `-E`, the line just after the leading blanks and the line just before the trailing blanks are the same rule. The body sits between them. |
| Render.RuleFitsBody | src/main.rs:37-51 | With an ASCII emphasizer, the rule has one emphasizer per byte of the body, wrapped or not. The rule is never shorter than the body in characters. It is exactly as long as the body precisely when the line is ASCII. |
| Render.BuildFraming | src/main.rs:37-40 | The framing string has `len(line)` bytes' worth of emphasizers, or `len(line) + 4` with `-F`. Every character in it is the emphasizer. |
| Render.BuildLine | src/main.rs:42-51 | Without `-F` the body is the line unchanged. With `-F` it is four characters longer: the line sits unchanged between the prefix `e`+space and the suffix space+`e`. |
| Render.PrintBlanks | src/main.rs:57-59 | The indent loop appends exactly `n` blank lines. |
| Render.EmphasizeLine | src/main.rs:37-74 | Running the statements of the matching branch in order yields exactly the segments that `Render` specifies. |
| Render.RenderRestoresColor | src/main.rs:53-74 | An emphasized line sets the colour at most once and always resets it, so the terminal ends where it started. |
| Render.ProcessAllRestoresColor | src/main.rs:31-76 | After any number of input lines the colour state is back to the default, and no colour is ever set twice or reset without having been set. |
| Render.UnmatchedLinePrintedPlain | src/main.rs:34-35 | A non-matching line adds exactly its own text to the output, and it is printed while no colour is set. |
| Render.FilterLines | src/main.rs:31-76 | The loop over the input yields the line-by-line output that `ProcessAll` defines, and it leaves no colour set. |
| Render.WrappedHelloWorldPieces | src/main.rs:37-51 | With `-F` and emphasizer `#`, the line `hello world` gets a rule of 15 `#` (11 bytes plus 4) and the body `# hello world #`. |
| Render.WrappedHelloWorld | src/main.rs:37-70 | Emphasizing `hello world` with `-E -F -e '#' -C` and no indent prints exactly the rule, `# hello world #` and the rule again. |
| Render.HelloWorldMatches | src/main.rs:34 | Searching for `world` selects the line `hello world` for emphasis. |
| Render.Run | src/main.rs:24-30 | The usage text is printed instead of processing exactly when `-h` is given or an option value is bad. Otherwise the output is the loop's output and leaves no colour set. |
| MainContext.ContextFromArgs | src/main.rs:111-166 | `-h` gives the defaults with only the help flag set. Otherwise: the match value is the first free argument; the indent is the `u8` value of `-i`; the emphasizer is the first character of `-e`; the colour is looked up from `-c`. A field whose value is missing or bad keeps its default (`""`, 0, `!`, bright red). `-E` and `-F` set their flags. `-C` turns colour off whatever `-c` says. The help flag is set exactly when `-h` is given or one of the three values is bad, so a bad value does not stop later options from being applied. |
| MainContext.ApplyIndent | src/main.rs:127-133 | A `u8` value of `-i` becomes the indent; any other value keeps the indent and raises the help flag, which is never cleared. No other field changes. |
| MainContext.ApplyEmphasizer | src/main.rs:135-141 | The first character of a non-empty `-e` value becomes the emphasizer; an empty value keeps it and raises the help flag. No other field changes. |
| MainContext.ApplyColor | src/main.rs:143-151 | The colour that the `-c` value names (after lower-casing) becomes the text colour; a name outside the table keeps it and raises the help flag. No other field changes. |
| MainContext.NoOptionsGiveDefaults | src/main.rs:94-109 | With no options and no free arguments the configuration is: match `""`, indent 0, no wrapping, emphasizer `!`, no rule, colour on, bright red, no help. |
| MainContext.UpperCaseRed | src/main.rs:145 | `-c RED` selects red and raises no error. |
| Colors.ColorTableIsExact | src/main.rs:192-214 | The table maps each of the sixteen names to its own colour and holds no other key. |
| Colors.LookupColorIff | src/context.rs:89-97 | A `-c` value selects colour `c` exactly when it lower-cases to `c`'s name. It selects nothing exactly when it lower-cases to none of the sixteen names. |
| Colors.LookupColorIgnoresCase | src/main.rs:145 | A `-c` value selects colour `c` exactly when it spells `c`'s name with any mixture of upper- and lower-case letters (`RED`, `Red`). |
| Decimal.ParseU8 | src/context.rs:73-79 | An accepted `-i` value is non-empty and consists of an optional leading `+` followed by at least one decimal digit: a lone `+` is rejected. Its value is a `u8`, so it lies in 0..255. |
| Decimal.SignWithoutDigitsRejected | src/main.rs:128-132 | `-i +`, an empty `-i` value and a negative value are all rejected. |
| Decimal.ParseU8OfDecimal | src/options.rs:8 | The decimal spelling of `n`, with or without `+`, is accepted exactly when `n <= 255`, and then it parses to `n`. So 128..255 are accepted although the help text advertises `[0-127]`. |
| Decimal.ParseU8OfDigits | src/main.rs:128-132 | Every non-empty digit string is accepted with its value when that value is at most 255, and rejected otherwise. A leading `+` changes nothing. |
| Decimal.ParseU8OfPadded | src/context.rs:73-79 | Leading zeros are accepted: `n` with any number of leading zeros, with or without `+`, parses to `n` exactly when `n <= 255` (`007` is 7, `+0255` is 255), and is an error otherwise. |
| FrameContext.ToFrameModeIff | src/context.rs:32-40 | A string parses exactly when it is one of `none`, `frame`, `prefix`, `all`, and it parses to that mode. Every other string is an error. |
| FrameContext.FromArgs | src/context.rs:57-114 | The same rules as the main.rs builder for `-h`, free arguments, `-i`, `-e`, `-c` and `-C`. In addition, the frame mode is the mode that the lower-cased `-t` value names, and otherwise stays `none`. The help flag is set exactly when `-h` is given or any of the four values is bad. |
| FrameContext.ApplyFrameType | src/context.rs:99-107 | The mode that the lower-cased `-t` value names becomes the frame mode; any other value keeps it and raises the help flag. No other field changes. |
| FrameContext.FrameTypeIgnoresCase | src/context.rs:99-107 | A `-t` value selects mode `m` without error exactly when it spells `m`'s name with any mixture of upper- and lower-case letters. |
| FrameContext.UpperCaseFrame | src/context.rs:101 | `-t FRAME` selects the `frame` mode. |
| FrameContext.NoOptionsGiveDefaults | src/context.rs:42-55 | With no options the configuration is: match `""`, indent 0, emphasizer `!`, mode `none`, colour on, bright red, no help. |
| FrameContext.ApplyIndent | src/context.rs:73-79 | A `u8` value of `-i` becomes the indent; any other value keeps the indent and raises the help flag. No other field changes. |
| FrameContext.ApplyEmphasizer | src/context.rs:81-87 | The first character of a non-empty `-e` value becomes the emphasizer; an empty value keeps it and raises the help flag. No other field changes. |
| FrameContext.ApplyColor | src/context.rs:89-97 | The colour that the `-c` value names (after lower-casing) becomes the text colour; a name outside the table keeps it and raises the help flag. No other field changes. |
| Strings.ContainsIffOccurs | src/main.rs:34 | The substring scan answers true exactly when the pattern occurs at some position of the line. |
| Strings.EmptyOccursEverywhere | src/main.rs:96 | The empty default match value occurs in every line. |
| Strings.Utf8Width | src/main.rs:38 | A character takes 1 to 4 bytes, and exactly 1 precisely when it is ASCII. |
| Strings.ByteLenBounds | src/main.rs:38 | `len(line)` lies between the character count and four times it. It equals the character count exactly when the line is ASCII. |
| Strings.ByteLenAppend | src/main.rs:42-51 | The byte length of a concatenation is the sum of the byte lengths. |
| Strings.LowerChar | src/context.rs:101 | Lower-casing leaves no ASCII capital: `A`-`Z` become `a`-`z`, every other ASCII character is kept, and a character that lower-cases to ASCII is ASCII already or the Kelvin sign. |
| Strings.ToLowerIffCaseVariant | src/context.rs:91 | Text lower-cases to a lower-case ASCII key exactly when it spells that key in some mixture of cases (the Kelvin sign standing for `k`). |

## Left out

- `src/options.rs` is not part of this model. It builds getopts' option table and prints the usage text. Its help text advertises `-i [0-127]`, but the code accepts 0..255 (`Decimal.ParseU8OfDecimal`).
- getopts' tokenisation is not modelled. The failing parse that panics (`src/main.rs:113-116`, `src/context.rs:59-62`) is left out too. The model starts from the `Parsed` record that tokenisation yields.
- The option table of `src/options.rs` declares no `-t`. With that table, getopts' `opt_str("t")` would panic. The caller of `src/context.rs` is not part of this model. `FrameContext.FromArgs` assumes a table that declares `-t`.
- The terminal is not modelled: `term::stdout().unwrap()` and the `unwrap`s on `fg` and `reset`. These can abort the program. In the model, colour changes and printing are segments that always succeed.
- Colours are a 16-variant datatype rather than the `term` crate's integer codes.
- Reading stdin is not modelled, and neither is `line.unwrap()` (an I/O error aborts). The input is a sequence of lines without terminators.
- The `args.len() < 1` guard and `print_usage` are not modelled. They only print help text. The usage text itself is represented by the `Usage` outcome.
- `FrameMode` is parsed (src/context.rs:32-40, 99-107) but no code renders any frame mode: `src/main.rs` renders with the `-E` rule and the `-F` wrapping only. So the model parses frame modes and renders none. Regular-expression matching and file input do not exist in the code either.
- Strings.ToLower: it lower-cases `A`-`Z` and the Kelvin sign (U+212A, which Rust maps to `k`) and keeps every other character. Rust's `str::to_lowercase` maps more characters, and some to several characters. Those results always contain non-ASCII text. The lower-cased value is only compared with ASCII names, so the outcome of every lookup is the same.
- Strings.Contains: it scans characters, while Rust's `str::contains` scans UTF-8 bytes. For valid UTF-8 the two agree, because an encoded character sequence occurs in the bytes exactly at character boundaries.
- Decimal.ParseU8: it returns a bare `Err`. Rust's `ParseIntError` says which kind of error occurred (empty, invalid digit, overflow). The program only checks for an error, never its kind.
