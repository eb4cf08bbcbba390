/** lib/log.js: console records laid out in a process column, a status column
    and the message. Colours are abstract: a styled span names the chalk style
    and the text it wraps. */
module Log {
  import opened Wrappers
  import opened JsText
  import Paths

  datatype Span = Plain(text: string) | Styled(style: string, text: string)

  /** The options object handed to `log`; `None` is an absent key. */
  datatype Options = Options(process: Option<string>, status: Option<string>,
                             color: Option<string>, message: Span)

  /** The options after `_.defaults` has filled the missing keys. */
  datatype Resolved = Resolved(process: string, status: string, color: string, message: Span)

  /** `_.defaults(options, {process: 'yoke', status: 'info', color: 'green'})`. */
  function ApplyDefaults(o: Options): (r: Resolved)
    ensures o.process.Some? ==> r.process == o.process.value
    ensures o.process.None? ==> r.process == "yoke"
    ensures o.status.Some? ==> r.status == o.status.value
    ensures o.status.None? ==> r.status == "info"
    ensures o.color.Some? ==> r.color == o.color.value
    ensures o.color.None? ==> r.color == "green"
    ensures r.message == o.message
  {
    Resolved(o.process.GetOr("yoke"), o.status.GetOr("info"), o.color.GetOr("green"), o.message)
  }

  /** `printf("%-6s", s)`: left-justified in six columns, never truncated. */
  function PadRight(s: string, width: nat): (r: string)
    ensures |r| == if |s| >= width then |s| else width
    ensures r[..|s|] == s
    ensures forall i :: |s| <= i < |r| ==> r[i] == ' '
  {
    if |s| >= width then s else s + Spaces(width - |s|)
  }

  /** The padding after the status: one space per element of
      `_.range(6 - length)`, which lodash 3 makes empty for a negative count. */
  function StatusPadding(status: string): (r: string)
    ensures forall i :: 0 <= i < |r| ==> r[i] == ' '
  {
    if |status| >= 6 then "" else Spaces(6 - |status|)
  }

  /** The status column with its padding spans exactly six columns when the
      status is at most six characters long, and the status alone otherwise. */
  lemma StatusColumnWidth(status: string)
    ensures |status| <= 6 ==> |status| + |StatusPadding(status)| == 6
    ensures |status| > 6 ==> StatusPadding(status) == ""
  {
  }

  function Text(s: Span): string
  {
    s.text
  }

  /** `s.split('\n')`. */
  function SplitLines(s: string): (r: seq<string>)
    ensures |r| >= 1
    ensures forall i :: 0 <= i < |r| ==> '\n' !in r[i]
  {
    var k := Paths.IndexOf(s, '\n');
    if k == |s| then [s] else [s[..k]] + SplitLines(s[k + 1..])
  }

  function Count(s: string, c: char): nat
  {
    if s == [] then 0 else (if s[0] == c then 1 else 0) + Count(s[1..], c)
  }

  function JoinLines(lines: seq<string>): string
  {
    if lines == [] then "" else if |lines| == 1 then lines[0]
    else lines[0] + "\n" + JoinLines(lines[1..])
  }

  lemma {:induction false} CountAppend(a: string, b: string, c: char)
    ensures Count(a + b, c) == Count(a, c) + Count(b, c)
  {
    if a != [] {
      assert (a + b)[1..] == a[1..] + b;
      CountAppend(a[1..], b, c);
    } else {
      assert a + b == b;
    }
  }

  /** A message with `k` line breaks splits into `k + 1` lines. */
  lemma {:induction false} SplitLinesCount(s: string)
    ensures |SplitLines(s)| == Count(s, '\n') + 1
    decreases |s|
  {
    var k := Paths.IndexOf(s, '\n');
    if k == |s| {
      NoCount(s, '\n');
    } else {
      SplitLinesCount(s[k + 1..]);
      assert s == s[..k] + [s[k]] + s[k + 1..];
      CountAppend(s[..k] + [s[k]], s[k + 1..], '\n');
      CountAppend(s[..k], [s[k]], '\n');
      NoCount(s[..k], '\n');
    }
  }

  lemma NoCount(s: string, c: char)
    requires c !in s
    ensures Count(s, c) == 0
  {
  }

  /** Splitting on line breaks and joining back with line breaks gives the
      message back. */
  lemma {:induction false} JoinSplitLines(s: string)
    ensures JoinLines(SplitLines(s)) == s
    decreases |s|
  {
    var k := Paths.IndexOf(s, '\n');
    if k < |s| {
      var rest := SplitLines(s[k + 1..]);
      assert SplitLines(s) == [s[..k]] + rest;
      ConsLines(s[..k], rest);
      JoinSplitLines(s[k + 1..]);
      SplitAround(s, k);
    }
  }

  lemma ConsLines(line: string, rest: seq<string>)
    requires |rest| >= 1
    ensures JoinLines([line] + rest) == line + "\n" + JoinLines(rest)
  {
    assert ([line] + rest)[1..] == rest;
  }

  lemma SplitAround(s: string, k: nat)
    requires k < |s| && s[k] == '\n'
    ensures s == s[..k] + "\n" + s[k + 1..]
  {
  }

  /** The three writes of one record, as written: the padded process column,
      the styled status and its padding, then the WHOLE message and a line
      break, whichever line of the message the record is for. */
  function RecordAsWritten(r: Resolved, line: string): seq<Span>
  {
    [Plain(PadRight(r.process, 6)), Styled(r.color, r.status), Plain(StatusPadding(r.status)),
     r.message, Plain("\n")]
  }

  /** The same record carrying its own line, as the loop over the lines
      evidently means to do. */
  function Record(r: Resolved, line: string): seq<Span>
  {
    [Plain(PadRight(r.process, 6)), Styled(r.color, r.status), Plain(StatusPadding(r.status)),
     r.message.(text := line), Plain("\n")]
  }

  function RecordsAsWritten(r: Resolved, lines: seq<string>): (out: seq<Span>)
    ensures |out| == 5 * |lines|
  {
    if lines == [] then [] else RecordAsWritten(r, lines[0]) + RecordsAsWritten(r, lines[1..])
  }

  function Records(r: Resolved, lines: seq<string>): seq<Span>
  {
    if lines == [] then [] else Record(r, lines[0]) + Records(r, lines[1..])
  }

  /** Every record is five spans, so a message with `k` lines writes `5 * k`. */
  lemma {:induction false} RecordsAsWrittenLength(r: Resolved, lines: seq<string>)
    ensures |RecordsAsWritten(r, lines)| == 5 * |lines|
    ensures forall i :: 0 <= i < |lines| ==> RecordsAsWritten(r, lines)[5 * i + 3] == r.message
  {
    if lines != [] {
      RecordsAsWrittenLength(r, lines[1..]);
      forall i | 0 <= i < |lines|
        ensures RecordsAsWritten(r, lines)[5 * i + 3] == r.message
      {
        if i > 0 {
          assert RecordsAsWritten(r, lines)[5 * i + 3] == RecordsAsWritten(r, lines[1..])[5 * (i - 1) + 3];
        }
      }
    }
  }

  /** The texts of the message spans of the intended records, joined with
      line breaks, are the message itself: each line is written once. */
  function MessageTexts(spans: seq<Span>): seq<string>
    requires |spans| % 5 == 0
  {
    if spans == [] then [] else [spans[3].text] + MessageTexts(spans[5..])
  }

  lemma {:induction false} RecordsCarryLines(r: Resolved, lines: seq<string>)
    ensures |Records(r, lines)| == 5 * |lines|
    ensures MessageTexts(Records(r, lines)) == lines
  {
    if lines != [] {
      RecordsCarryLines(r, lines[1..]);
      assert Records(r, lines)[5..] == Records(r, lines[1..]);
    }
  }

  /** A two-line message is written twice in full by the code as written,
      where each line once was meant. */
  lemma TwoLineMessageIsDuplicated(r: Resolved)
    requires r.message == Plain("a\nb")
    ensures SplitLines(r.message.text) == ["a", "b"]
    ensures var out := RecordsAsWritten(r, SplitLines(r.message.text));
            |out| == 10 && out[3] == out[8] == Plain("a\nb")
    ensures var out := Records(r, SplitLines(r.message.text));
            |out| == 10 && out[3] == Plain("a") && out[8] == Plain("b")
  {
    var s := "a\nb";
    assert Paths.IndexOf(s[1..], '\n') == 0;
    assert Paths.IndexOf(s, '\n') == 1;
    assert s[2..] == "b" && s[..1] == "a";
    assert Paths.IndexOf("b"[1..], '\n') == 0;
    assert Paths.IndexOf("b", '\n') == 1;
    assert SplitLines("b") == ["b"];
    assert SplitLines(s) == ["a", "b"];
    var lines := ["a", "b"];
    assert lines[1..] == ["b"] && lines[1..][1..] == [];
    assert RecordsAsWritten(r, ["b"]) == RecordAsWritten(r, "b");
    assert RecordsAsWritten(r, lines) == RecordAsWritten(r, "a") + RecordAsWritten(r, "b");
    assert Records(r, ["b"]) == Record(r, "b");
    assert Records(r, lines) == Record(r, "a") + Record(r, "b");
  }

  /** Status and colour of each level. */
  datatype Level = Debug | Error | Warn | Info | Success

  function LevelStatus(l: Level): string
  {
    match l
    case Debug => "debug"
    case Error => "ERR!"
    case Warn => "WARN"
    case Info => "info"
    case Success => "OK!"
  }

  function LevelColor(l: Level): string
  {
    match l
    case Debug => "magenta"
    case Error => "bgRed"
    case Warn => "yellow"
    case Info => "green"
    case Success => "bgGreen"
  }

  /** The options each level function passes to `log`. `success` wraps the
      message in bold green; the others pass it plain. */
  function LevelOptions(l: Level, message: string): (o: Options)
    ensures o.process.None? && o.status == Some(LevelStatus(l)) && o.color == Some(LevelColor(l))
    ensures o.message.text == message
    ensures o.message.Styled? <==> l == Success
  {
    Options(None, Some(LevelStatus(l)), Some(LevelColor(l)),
            if l == Success then Styled("green.bold", message) else Plain(message))
  }

  /** Every level's status fits the six-column status field, so every level
      line starts its message at column twelve. */
  lemma LevelColumns(l: Level, message: string)
    ensures var r := ApplyDefaults(LevelOptions(l, message));
            |PadRight(r.process, 6)| + |r.status| + |StatusPadding(r.status)| == 12
  {
  }

  /** `debug` writes only when the environment variable YOKE_DEBUG is "1". */
  predicate DebugEnabled(yokeDebug: Option<string>)
  {
    yokeDebug == Some("1")
  }

  /** The standard output of the process, as the spans written to it. */
  class Console {
    var out: seq<Span>

    constructor ()
      ensures out == []
    {
      out := [];
    }

    /** `log(options)`: one record per line of the message. */
    method Log(o: Options)
      modifies this
      ensures out == old(out) + RecordsAsWritten(ApplyDefaults(o), SplitLines(o.message.text))
    {
      var r := ApplyDefaults(o);
      var lines := SplitLines(o.message.text);
      var i := 0;
      while i < |lines|
        invariant 0 <= i <= |lines|
        invariant out == old(out) + RecordsAsWritten(r, lines[..i])
      {
        RecordsAsWrittenSnoc(r, lines[..i], lines[i]);
        assert lines[..i + 1] == lines[..i] + [lines[i]];
        out := out + RecordAsWritten(r, lines[i]);
        i := i + 1;
      }
      assert lines[..i] == lines;
    }

    /** `debug`, `error`, `warn`, `info` and `success`. */
    method Level(l: Level, message: string, yokeDebug: Option<string>)
      modifies this
      ensures l == Debug && !DebugEnabled(yokeDebug) ==> out == old(out)
      ensures l != Debug || DebugEnabled(yokeDebug) ==>
                out == old(out) + RecordsAsWritten(ApplyDefaults(LevelOptions(l, message)),
                                                   SplitLines(message))
    {
      if l != Debug || DebugEnabled(yokeDebug) {
        Log(LevelOptions(l, message));
      }
    }

    /** `http(statusCode, urlPath)`: a single line, not laid out in columns. */
    method Http(statusCode: nat, urlPath: string)
      modifies this
      ensures out == old(out) + [Plain("yoke "), Styled("green", NatToString(statusCode)),
                                 Plain(" " + urlPath + "\n")]
    {
      out := out + [Plain("yoke "), Styled("green", NatToString(statusCode)),
                    Plain(" " + urlPath + "\n")];
    }

    method BlankLine()
      modifies this
      ensures out == old(out) + [Plain("\n")]
    {
      out := out + [Plain("\n")];
    }
  }

  lemma {:induction false} RecordsAsWrittenSnoc(r: Resolved, lines: seq<string>, line: string)
    ensures RecordsAsWritten(r, lines + [line]) == RecordsAsWritten(r, lines) + RecordAsWritten(r, line)
  {
    if lines != [] {
      assert (lines + [line])[1..] == lines[1..] + [line];
      RecordsAsWrittenSnoc(r, lines[1..], line);
    } else {
      assert RecordsAsWritten(r, [line]) == RecordAsWritten(r, line) + RecordsAsWritten(r, []);
    }
  }
}
