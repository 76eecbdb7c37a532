/** The sixteen terminal colours that the `-c` option can name. */
module Colors {
  import opened Wrappers
  import opened Strings

  datatype Color =
    | Black | Blue | BrightBlack | BrightBlue | BrightCyan | BrightGreen
    | BrightMagenta | BrightRed | BrightWhite | BrightYellow
    | Cyan | Green | Magenta | Red | White | Yellow

  /** The key under which `c` is stored in the colour table. */
  function ColorName(c: Color): string
  {
    match c
    case Black => "black"
    case Blue => "blue"
    case BrightBlack => "bright_black"
    case BrightBlue => "bright_blue"
    case BrightCyan => "bright_cyan"
    case BrightGreen => "bright_green"
    case BrightMagenta => "bright_magenta"
    case BrightRed => "bright_red"
    case BrightWhite => "bright_white"
    case BrightYellow => "bright_yellow"
    case Cyan => "cyan"
    case Green => "green"
    case Magenta => "magenta"
    case Red => "red"
    case White => "white"
    case Yellow => "yellow"
  }

  /** The colour table both configuration builders consult. */
  function ColorTable(): map<string, Color>
  {
    map[
      "black" := Black,
      "blue" := Blue,
      "bright_black" := BrightBlack,
      "bright_blue" := BrightBlue,
      "bright_cyan" := BrightCyan,
      "bright_green" := BrightGreen,
      "bright_magenta" := BrightMagenta,
      "bright_red" := BrightRed,
      "bright_white" := BrightWhite,
      "bright_yellow" := BrightYellow,
      "cyan" := Cyan,
      "green" := Green,
      "magenta" := Magenta,
      "red" := Red,
      "white" := White,
      "yellow" := Yellow
    ]
  }

  /** The table holds each colour under its name and nothing else. */
  lemma ColorTableIsExact()
    ensures forall c :: ColorName(c) in ColorTable() && ColorTable()[ColorName(c)] == c
    ensures forall k :: k in ColorTable() ==> k == ColorName(ColorTable()[k])
  {
  }

  /** Colour lookup: the option value is lower-cased, then looked up in the table. */
  function LookupColor(name: string): Option<Color>
  {
    var key := ToLower(name);
    if key in ColorTable() then Some(ColorTable()[key]) else None
  }

  /**
   * A name selects colour `c` exactly when it lower-cases to `c`'s table key,
   * so the lookup ignores case and knows no names beyond the sixteen.
   */
  lemma LookupColorIff(name: string, c: Color)
    ensures LookupColor(name) == Some(c) <==> ToLower(name) == ColorName(c)
    ensures LookupColor(name).None? <==> forall d :: ToLower(name) != ColorName(d)
  {
    ColorTableIsExact();
  }

  /** Every table key is lower-case ASCII. */
  lemma ColorNameIsLowerAscii(c: Color)
    ensures IsLowerAscii(ColorName(c))
  {
  }

  /**
   * A name selects colour `c` exactly when it spells `c`'s table key with any
   * mixture of upper- and lower-case letters (`RED`, `Red`, `bRiGhT_bLuE`).
   */
  lemma LookupColorIgnoresCase(name: string, c: Color)
    ensures LookupColor(name) == Some(c) <==> CaseVariant(name, ColorName(c))
  {
    LookupColorIff(name, c);
    ColorNameIsLowerAscii(c);
    ToLowerIffCaseVariant(name, ColorName(c));
  }
}
