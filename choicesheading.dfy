/** lib/ui/choicesHeading.js: a heading line that separates groups of choices
    in a list prompt. Chalk's `dim` style is kept abstract, and so is the
    `figures.line` glyph, a parameter. */
module ChoicesHeading {
  import opened Wrappers
  import opened JsText
  import Log

  datatype Separator = Separator(kind: string, line: Log.Span)

  /** `new Array(n).join(sep)`: `n` empty elements joined by `sep`. */
  function ArrayJoin(n: nat, sep: string): (r: string)
  {
    if n <= 1 then "" else ArrayJoin(n - 1, sep) + sep
  }

  /** Joining `n` empty elements puts a separator between each pair: `n - 1`
      copies. */
  lemma {:induction false} ArrayJoinCopies(n: nat, sep: string)
    requires n >= 1
    ensures ArrayJoin(n, sep) == Repeat(sep, n - 1)
  {
    if n > 1 {
      ArrayJoinCopies(n - 1, sep);
      RepeatSnoc(sep, n - 2);
    }
  }

  lemma {:induction false} RepeatSnoc(s: string, n: nat)
    ensures Repeat(s, n) + s == Repeat(s, n + 1)
  {
    if n > 0 {
      RepeatSnoc(s, n - 1);
    }
  }

  /** The constructor: `type` is "separator", and `line` is the dimmed
      heading between two rules of seven glyphs each. */
  function NewSeparator(heading: Option<string>, figuresLine: string): (s: Separator)
    ensures s.kind == "separator"
    ensures s.line.Styled? && s.line.style == "dim"
    ensures s.line.text == Repeat(figuresLine, 7) + " " + Str(heading) + " " + Repeat(figuresLine, 7)
  {
    var horiz := ArrayJoin(8, figuresLine);
    ArrayJoinCopies(8, figuresLine);
    Separator("separator", Log.Styled("dim", horiz + " " + Str(heading) + " " + horiz))
  }

  /** A choice in a list prompt, as far as `exclude` looks at it. */
  datatype Choice = Choice(kind: Option<string>)

  /** `Separator.exclude(obj)`: false exactly for separators. */
  function Exclude(obj: Choice): (keep: bool)
    ensures !keep <==> obj.kind == Some("separator")
  {
    obj.kind != Some("separator")
  }

  /** `toString` returns the line as built. */
  function ToString(s: Separator): (r: Log.Span)
    ensures r == s.line
  {
    s.line
  }

  /** A separator, seen as a choice, is excluded; its text is the line it
      was built with. */
  lemma SeparatorExcluded(heading: Option<string>, figuresLine: string)
    ensures var s := NewSeparator(heading, figuresLine);
            !Exclude(Choice(Some(s.kind)))
            && |ToString(s).text| == 14 * |figuresLine| + 2 + |Str(heading)|
  {
  }
}
