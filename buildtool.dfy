/** lib/buildTool.js: choosing Grunt or gulp, running the requested tasks as
    a child process, and cleaning up the child's output before logging it.
    The child process itself is foreign: what it writes and the exit code it
    returns are parameters. */
module BuildTool {
  import opened Wrappers
  import opened Paths
  import opened JsText
  import Log

  const ESC: char := '\U{1B}'

  /** Length of the run of ASCII digits at the start of `s`. */
  function DigitRun(s: string): (n: nat)
    ensures n <= |s|
    ensures forall i :: 0 <= i < n ==> IsDigit(s[i])
    ensures n < |s| ==> !IsDigit(s[n])
  {
    if s != [] && IsDigit(s[0]) then 1 + DigitRun(s[1..]) else 0
  }

  /** Length of a match of `/\u001b\[\d+m/` at the start of `s`, if any. */
  function SgrAt(s: string): (r: Option<nat>)
    ensures r.Some? ==> 4 <= r.value <= |s| && s[0] == ESC && s[1] == '['
                         && s[r.value - 1] == 'm'
                         && forall i :: 2 <= i < r.value - 1 ==> IsDigit(s[i])
  {
    if |s| >= 2 && s[0] == ESC && s[1] == '[' then
      var n := DigitRun(s[2..]);
      if n > 0 && 2 + n < |s| && s[2 + n] == 'm' then Some(3 + n) else None
    else None
  }

  /** `msg.replace(/\u001b\[\d+m/g, "")`: one left-to-right pass that drops
      each match and resumes after it. */
  function StripSgr(s: string): (r: string)
    ensures |r| <= |s|
    decreases |s|
  {
    if s == [] then []
    else match SgrAt(s)
      case Some(n) => StripSgr(s[n..])
      case None => [s[0]] + StripSgr(s[1..])
  }

  /** Text without escape characters passes through unchanged. */
  lemma {:induction false} StripSgrNoEscape(s: string)
    requires ESC !in s
    ensures StripSgr(s) == s
    decreases |s|
  {
    if s != [] {
      assert s[1..] == s[1..];
      StripSgrNoEscape(s[1..]);
    }
  }

  /** Styled output as a sequence of printable characters and select graphic
      rendition codes `ESC [ digits m` (section 8.3.117 of ECMA-48). */
  datatype Piece = Char(c: char) | Sgr(digits: string)

  predicate WellFormed(p: Piece)
  {
    match p
    case Char(c) => c != ESC
    case Sgr(d) => d != [] && forall i :: 0 <= i < |d| ==> IsDigit(d[i])
  }

  function Render(ps: seq<Piece>): string
  {
    if ps == [] then ""
    else match ps[0]
      case Char(c) => [c] + Render(ps[1..])
      case Sgr(d) => [ESC, '['] + d + ['m'] + Render(ps[1..])
  }

  /** The printable characters of styled output. */
  function Visible(ps: seq<Piece>): string
  {
    if ps == [] then ""
    else match ps[0]
      case Char(c) => [c] + Visible(ps[1..])
      case Sgr(_) => Visible(ps[1..])
  }

  lemma DigitRunOfDigits(d: string, rest: string)
    requires forall i :: 0 <= i < |d| ==> IsDigit(d[i])
    requires rest != [] && !IsDigit(rest[0])
    ensures DigitRun(d + rest) == |d|
  {
    assert forall i :: 0 <= i < |d| ==> IsDigit((d + rest)[i]);
    assert !IsDigit((d + rest)[|d|]);
  }

  /** Stripping the codes from styled output leaves exactly its printable
      characters: the strip undoes the styling. */
  lemma {:induction false} StripSgrRender(ps: seq<Piece>)
    requires forall i :: 0 <= i < |ps| ==> WellFormed(ps[i])
    ensures StripSgr(Render(ps)) == Visible(ps)
  {
    if ps != [] {
      var rest := Render(ps[1..]);
      StripSgrRender(ps[1..]);
      match ps[0]
      case Char(c) =>
        StripSgrChar(c, rest);
      case Sgr(d) =>
        StripSgrCode(d, rest);
    }
  }

  /** A character other than ESC is kept. */
  lemma StripSgrChar(c: char, rest: string)
    requires c != ESC
    ensures StripSgr([c] + rest) == [c] + StripSgr(rest)
  {
    var s := [c] + rest;
    assert s[0] == c && s[1..] == rest;
    assert SgrAt(s) == None;
  }

  /** A complete code is dropped and the pass resumes after its `m`. */
  lemma StripSgrCode(d: string, rest: string)
    requires d != [] && forall i :: 0 <= i < |d| ==> IsDigit(d[i])
    ensures StripSgr([ESC, '['] + d + ['m'] + rest) == StripSgr(rest)
  {
    var s := [ESC, '['] + d + ['m'] + rest;
    CodeLayout(d, rest);
    DigitRunOfDigits(d, ['m'] + rest);
    assert SgrAt(s) == Some(3 + |d|);
  }

  lemma CodeLayout(d: string, rest: string)
    ensures var s := [ESC, '['] + d + ['m'] + rest;
            |s| == 3 + |d| + |rest| && s[0] == ESC && s[1] == '['
            && s[2..] == d + (['m'] + rest) && s[2 + |d|] == 'm' && s[3 + |d|..] == rest
  {
    var s := [ESC, '['] + d + ['m'] + rest;
    assert s[2..] == d + (['m'] + rest);
    assert s[3 + |d|..] == rest;
  }

  /** The pass is single: an `ESC [` left in front of a code that the pass
      removes is not itself removed, although the removal exposes a new code. */
  lemma SinglePass(ps: seq<Piece>)
    requires forall i :: 0 <= i < |ps| ==> WellFormed(ps[i])
    requires ps != [] && ps[0].Sgr?
    ensures StripSgr([ESC, '['] + Render(ps)) == [ESC, '['] + Visible(ps)
  {
    var t := Render(ps);
    RenderSgrHead(ps);
    StripSgrRender(ps);
    EscBracketKept(t);
  }

  lemma RenderSgrHead(ps: seq<Piece>)
    requires ps != [] && ps[0].Sgr?
    ensures Render(ps) != [] && Render(ps)[0] == ESC
  {
  }

  /** An `ESC [` followed by text that starts with ESC is kept as it is. */
  lemma EscBracketKept(t: string)
    requires t != [] && t[0] == ESC
    ensures StripSgr([ESC, '['] + t) == [ESC, '['] + StripSgr(t)
  {
    var s1 := ['['] + t;
    var s := [ESC] + s1;
    ConsPair(ESC, '[', t);
    ConsPair(ESC, '[', StripSgr(t));
    NoSgrAfterBracket(t);
    StripSgrNoMatch(s);
    StripSgrNoMatch(s1);
  }

  /** No code starts at an `ESC [` whose digits are missing, nor at the `[`. */
  lemma NoSgrAfterBracket(t: string)
    requires t != [] && t[0] == ESC
    ensures SgrAt([ESC] + (['['] + t)) == None && SgrAt(['['] + t) == None
  {
    ConsPair(ESC, '[', t);
    assert DigitRun(t) == 0;
  }

  lemma ConsPair(a: char, b: char, t: string)
    ensures [a, b] + t == [a] + ([b] + t)
    ensures ([a] + ([b] + t))[1..] == [b] + t && ([b] + t)[1..] == t
    ensures ([a] + ([b] + t))[2..] == t
    ensures ([a] + ([b] + t))[0] == a && ([b] + t)[0] == b
  {
  }

  /** Where no code starts, the pass keeps the first character. */
  lemma StripSgrNoMatch(s: string)
    requires s != [] && SgrAt(s) == None
    ensures StripSgr(s) == [s[0]] + StripSgr(s[1..])
  {
  }

  /** `msg.replace(/^>>/, "")`: one leading `>>` at most. */
  function DropChevrons(s: string): (r: string)
    ensures |s| >= 2 && s[..2] == ">>" ==> r == s[2..]
    ensures !(|s| >= 2 && s[..2] == ">>") ==> r == s
  {
    if |s| >= 2 && s[..2] == ">>" then s[2..] else s
  }

  /** `fixChildProcessOut`: strip the codes, then a leading `>>`, then trim
      twice. */
  function FixChildProcessOut(msg: string): (r: string)
    ensures r == [] || (!IsJsWhitespace(r[0]) && !IsJsWhitespace(r[|r| - 1]))
    ensures r == Trim(DropChevrons(StripSgr(msg))) && Trim(r) == r
  {
    var t := DropChevrons(StripSgr(msg));
    TrimIdempotent(t);
    TrimEnds(t);
    Trim(Trim(t))
  }

  /** The cleaned message has no whitespace at either end, the second trim
      changes nothing, and it is a slice of the output with codes and leading
      `>>` removed. */
  lemma FixChildProcessOutTrimmed(msg: string)
    ensures var r := FixChildProcessOut(msg);
            var t := DropChevrons(StripSgr(msg));
            r == Trim(t)
            && (r == [] || (!IsJsWhitespace(r[0]) && !IsJsWhitespace(r[|r| - 1])))
            && exists a, b :: 0 <= a <= b <= |t| && r == t[a..b]
  {
    var t := DropChevrons(StripSgr(msg));
    TrimIdempotent(t);
    TrimIsTrimmedSlice(t);
  }

  /** Styled Grunt output loses its codes, its `>>` marker and its padding. */
  lemma FixGruntLine(ps: seq<Piece>, text: string)
    requires forall i :: 0 <= i < |ps| ==> WellFormed(ps[i])
    requires Visible(ps) == ">>" + text
    requires text == Trim(text)
    ensures FixChildProcessOut(Render(ps)) == text
  {
    StripSgrRender(ps);
    var s := ">>" + text;
    assert s[..2] == ">>" && s[2..] == text;
    TrimIdempotent(text);
  }

  datatype Tool = Grunt | Gulp

  function ToolName(t: Tool): string
  {
    match t
    case Grunt => "grunt"
    case Gulp => "gulp"
  }

  /** `determineBuildTool`: Grunt when a Gruntfile.js exists in `cwd`, gulp
      when only a gulpfile.js does, no tool otherwise. */
  function DetermineBuildTool(fs: FileSystem, cwd: Path): (r: Option<Tool>)
    ensures r == Some(Grunt) <==> Join(cwd, ["Gruntfile.js"]) in fs
    ensures r == Some(Gulp) <==> Join(cwd, ["Gruntfile.js"]) !in fs && Join(cwd, ["gulpfile.js"]) in fs
    ensures r == None <==> Join(cwd, ["Gruntfile.js"]) !in fs && Join(cwd, ["gulpfile.js"]) !in fs
  {
    if Join(cwd, ["Gruntfile.js"]) in fs then Some(Grunt)
    else if Join(cwd, ["gulpfile.js"]) in fs then Some(Gulp)
    else None
  }

  /** The `tasks` argument: a single task name or a list of them. */
  datatype Tasks = TaskName(name: string) | TaskList(names: seq<string>)

  /** `if (_.isString(tasks)) tasks = [tasks]`. */
  function NormalizeTasks(t: Tasks): (r: seq<string>)
    ensures t.TaskName? ==> r == [t.name]
    ensures t.TaskList? ==> r == t.names
  {
    match t
    case TaskName(n) => [n]
    case TaskList(ns) => ns
  }

  /** A chunk the child wrote, in the order the events arrived. */
  datatype Output = Stdout(data: string) | Stderr(data: string)

  /** What the child process does once spawned: its output events and its
      exit code (`None` when it was ended by a signal). */
  datatype ChildRun = ChildRun(output: seq<Output>, exitCode: Option<int>)

  datatype BuildError = ExitError(tool: Tool, tasks: seq<string>, code: Option<int>)

  /** What a run did: the command it spawned, if any, the records it gave to
      `log.writeln` or the level functions, and the outcome passed to the
      callback. */
  datatype Run = Run(spawned: Option<(Tool, seq<string>)>, logged: seq<Log.Options>,
                     result: Result<(), BuildError>)

  /** The record logged for one output event when output is normalised. */
  function OutputRecord(tool: Tool, o: Output): Option<Log.Options>
  {
    match o
    case Stdout(d) =>
      var m := FixChildProcessOut(d);
      if m == "" then None else Some(Log.Options(Some(ToolName(tool)), None, None, Log.Plain(m)))
    case Stderr(d) =>
      Some(Log.Options(Some(ToolName(tool)), Some("ERR!"), Some("bgRed"), Log.Plain(d)))
  }

  /** The records of the child's output: stdout data that cleans up to
      nothing is never logged, and every record is attributed to the tool. */
  function OutputRecords(tool: Tool, os: seq<Output>): (rs: seq<Log.Options>)
    ensures forall rec :: rec in rs ==> AttributedNonEmpty(tool, rec)
    ensures |rs| <= |os|
  {
    if os == [] then []
    else match OutputRecord(tool, os[0])
      case Some(rec) => [rec] + OutputRecords(tool, os[1..])
      case None => OutputRecords(tool, os[1..])
  }

  /** Output events handled in two batches log the records of the first
      batch followed by those of the second. */
  lemma {:induction false} OutputRecordsAppend(tool: Tool, a: seq<Output>, b: seq<Output>)
    ensures OutputRecords(tool, a + b) == OutputRecords(tool, a) + OutputRecords(tool, b)
  {
    if a == [] {
      assert a + b == b;
    } else {
      assert (a + b)[0] == a[0];
      assert (a + b)[1..] == a[1..] + b;
      OutputRecordsAppend(tool, a[1..], b);
    }
  }

  /** A `data` event on stdout adds the cleaned text under the tool's name,
      and nothing when the text cleans to nothing. */
  lemma OutputRecordsSnocStdout(tool: Tool, os: seq<Output>, d: string)
    ensures OutputRecords(tool, os + [Stdout(d)]) ==
            OutputRecords(tool, os) +
            (if FixChildProcessOut(d) == "" then []
             else [Log.Options(Some(ToolName(tool)), None, None, Log.Plain(FixChildProcessOut(d)))])
  {
    OutputRecordsAppend(tool, os, [Stdout(d)]);
    OutputRecordsSingle(tool, Stdout(d));
  }

  /** A `data` event on stderr adds the raw text under the tool's name with
      status `ERR!` on red. */
  lemma OutputRecordsSnocStderr(tool: Tool, os: seq<Output>, d: string)
    ensures OutputRecords(tool, os + [Stderr(d)]) ==
            OutputRecords(tool, os) +
            [Log.Options(Some(ToolName(tool)), Some("ERR!"), Some("bgRed"), Log.Plain(d))]
  {
    OutputRecordsAppend(tool, os, [Stderr(d)]);
    OutputRecordsSingle(tool, Stderr(d));
  }

  lemma OutputRecordsSingle(tool: Tool, o: Output)
    ensures OutputRecords(tool, [o]) ==
            (if OutputRecord(tool, o).Some? then [OutputRecord(tool, o).value] else [])
  {
    assert [o][0] == o && [o][1..] == [];
  }

  /** A record is in the tool's process column, and an info record (one
      from stdout) never has an empty message. */
  predicate AttributedNonEmpty(tool: Tool, rec: Log.Options)
  {
    rec.process == Some(ToolName(tool)) && (rec.status.None? ==> rec.message.text != "")
  }

  /** `", "`-free rendering of a list, as `'' + array` gives it. */
  function CommaJoin(xs: seq<string>): string
  {
    if xs == [] then "" else if |xs| == 1 then xs[0] else xs[0] + "," + CommaJoin(xs[1..])
  }

  /** The whole of `buildTool(tasks, options, callback)`. */
  function RunBuildTool(tasks: Tasks, fs: FileSystem, cwd: Path, normalizeStdio: bool,
                        child: ChildRun): (r: Run)
    ensures DetermineBuildTool(fs, cwd).None? ==> r.spawned.None? && r.result.Ok?
    ensures DetermineBuildTool(fs, cwd).Some? ==>
              r.spawned == Some((DetermineBuildTool(fs, cwd).value, NormalizeTasks(tasks)))
              && (r.result.Ok? <==> child.exitCode == Some(0))
              && (r.result.Err? ==> r.result.error.tasks == NormalizeTasks(tasks)
                                    && r.result.error.code == child.exitCode)
    ensures DetermineBuildTool(fs, cwd).None? ==>
              r.logged == [Log.LevelOptions(Log.Warn, "Could not find either a Gruntfile.js or gulpfile.js")]
    ensures DetermineBuildTool(fs, cwd).Some? ==>
              |r.logged| >= 1
              && r.logged[0] == Log.LevelOptions(Log.Info, "Running " + ToolName(DetermineBuildTool(fs, cwd).value)
                                                           + " " + CommaJoin(NormalizeTasks(tasks)))
              && r.logged[1..] == (if normalizeStdio then OutputRecords(DetermineBuildTool(fs, cwd).value, child.output)
                                   else [])
    ensures !normalizeStdio ==> |r.logged| == 1
    ensures DetermineBuildTool(fs, cwd).Some? ==>
              forall i :: 1 <= i < |r.logged| ==> AttributedNonEmpty(DetermineBuildTool(fs, cwd).value, r.logged[i])
  {
    match DetermineBuildTool(fs, cwd)
    case None =>
      Run(None, [Log.LevelOptions(Log.Warn, "Could not find either a Gruntfile.js or gulpfile.js")], Ok(()))
    case Some(tool) =>
      var ts := NormalizeTasks(tasks);
      var running := Log.LevelOptions(Log.Info, "Running " + ToolName(tool) + " " + CommaJoin(ts));
      var records := if normalizeStdio then OutputRecords(tool, child.output) else [];
      Run(Some((tool, ts)), [running] + records,
          if child.exitCode == Some(0) then Ok(()) else Err(ExitError(tool, ts, child.exitCode)))
  }
}
