/**
 * The current file engine (utils/modfile): choosing the transform, the
 * marker and the selected lines, the three line-by-line scans (rewrite into
 * a temporary file, dry-run preview, rewrite to standard output) and the
 * backup / temporary file / rename protocol of ChangeFile.
 */
module ModFile {
  import opened Wrappers
  import opened GoStrings
  import GoPath
  import Commenter
  import opened FileSystem

  // ---------------------------------------------------------------------
  // Configuration, actions and errors
  // ---------------------------------------------------------------------

  /** What the command line or the TUI asks for. */
  datatype Config = Config(
    filename: string,
    lineNum: string,
    startLabel: string,
    endLabel: string,
    lang: string,
    action: string,
    dryRun: bool)

  /** The three line transforms of the commenter. */
  datatype Action = Comment | Uncomment | Toggle

  /** The step at which the operating system reports a failure. */
  datatype Fault =
    | OpenInput        // os.Open of the target
    | OpenForBackup    // os.Open inside createBackup
    | CreateBackupFile // os.Create of <name>.bak
    | CopyBackup       // io.Copy into <name>.bak
    | CreateTemp       // os.Create of <name>.tmp
    | Seek             // rewinding the target
    | Scan             // the line scanner's error
    | Flush            // writing the buffered output
    | CloseInput       // closing the target
    | CloseTemp        // closing <name>.tmp
    | RenameTemp       // renaming <name>.tmp onto the target

  datatype Error =
    | InvalidAction
    | InvalidRangeFormat
    | InvalidStartLine
    | InvalidEndLine
    | InvalidLineNumber
    | UnsupportedLanguage(lang: string)
    | UnsupportedExtension(ext: string)
    | NoLanguage
    | LineOutOfRange
    | StartLabelNotFound
    | EndLabelNotFound
    | ProcessFailed(cause: Error)
    | OsFailure(fault: Fault)

  /** setModFunc: "comment", "uncomment", "toggle", and "" (toggle by default). */
  function SetModFunc(action: string): (r: Result<Action, Error>)
    ensures r.Ok? <==> action in {"comment", "uncomment", "toggle", ""}
    ensures r.Err? ==> r.error == InvalidAction
  {
    if action == "comment" then Ok(Comment)
    else if action == "uncomment" then Ok(Uncomment)
    else if action == "toggle" || action == "" then Ok(Toggle)
    else Err(InvalidAction)
  }

  /** The transform an action stands for, as the function value the scans are given. */
  function ModFunc(action: Action): (string, string) -> string {
    match action
    case Comment => Commenter.Comment
    case Uncomment => Commenter.Uncomment
    case Toggle => Commenter.ToggleComments
  }

  lemma SetModFuncNames()
    ensures SetModFunc("comment") == Ok(Comment) && SetModFunc("uncomment") == Ok(Uncomment)
    ensures SetModFunc("toggle") == Ok(Toggle) && SetModFunc("") == Ok(Toggle)
    ensures SetModFunc("Toggle") == Err(InvalidAction)
  {
  }

  // ---------------------------------------------------------------------
  // The line selection: "N" or "N-M"
  // ---------------------------------------------------------------------

  /** The inclusive range of 1-based line numbers; (0, 0) when none was given. */
  datatype LineRange = LineRange(start: int, end: int)

  /**
   * findLines: "N" gives [N, N] for N >= 1; "N-M" with exactly one '-'
   * gives [N, M] for 1 <= N <= M.  Every failure comes with (0, 0).
   */
  function FindLines(s: string): (r: (LineRange, Option<Error>))
    ensures r.1.None? ==> 1 <= r.0.start <= r.0.end <= MaxInt64
    ensures r.1.Some? ==> r.0 == LineRange(0, 0)
  {
    if Contains(s, "-") then
      var parts := Split(s, '-');
      if |parts| != 2 then (LineRange(0, 0), Some(InvalidRangeFormat))
      else
        var first := Atoi(parts[0]);
        if first.None? || first.value <= 0 then (LineRange(0, 0), Some(InvalidStartLine))
        else
          var second := Atoi(parts[1]);
          if second.None? || second.value < first.value then (LineRange(0, 0), Some(InvalidEndLine))
          else (LineRange(first.value, second.value), None)
    else
      var single := Atoi(s);
      if single.None? || single.value <= 0 then (LineRange(0, 0), Some(InvalidLineNumber))
      else (LineRange(single.value, single.value), None)
  }

  /** A single positive number N selects [N, N]. */
  lemma FindLinesSingle(n: nat)
    requires 1 <= n <= MaxInt64
    ensures FindLines(Itoa(n)) == (LineRange(n, n), None)
  {
    ContainsChar(Itoa(n), '-');
    AtoiItoa(n);
  }

  /** "N-M" with 1 <= N <= M selects [N, M]. */
  lemma FindLinesRange(n: nat, m: nat)
    requires 1 <= n <= m <= MaxInt64
    ensures FindLines(Itoa(n) + "-" + Itoa(m)) == (LineRange(n, m), None)
  {
    var s := Itoa(n) + "-" + Itoa(m);
    assert s[|Itoa(n)|] == '-';
    ContainsChar(s, '-');
    SplitParts(n, m);
    AtoiItoa(n);
    AtoiItoa(m);
  }

  /** A range whose end is below its start is refused. */
  lemma FindLinesDescending(n: nat, m: nat)
    requires 1 <= m < n <= MaxInt64
    ensures FindLines(Itoa(n) + "-" + Itoa(m)) == (LineRange(0, 0), Some(InvalidEndLine))
  {
    var s := Itoa(n) + "-" + Itoa(m);
    assert s[|Itoa(n)|] == '-';
    ContainsChar(s, '-');
    SplitParts(n, m);
    AtoiItoa(n);
    AtoiItoa(m);
  }

  /** A negative number reads as a range with an empty start, and "0" is not positive. */
  lemma FindLinesNonPositive(n: nat)
    ensures FindLines("-" + Itoa(n)) == (LineRange(0, 0), Some(InvalidStartLine))
    ensures FindLines("0") == (LineRange(0, 0), Some(InvalidLineNumber))
  {
    var s := "-" + Itoa(n);
    assert s[0] == '-';
    ContainsChar(s, '-');
    assert s == [] + ['-'] + Itoa(n);
    SplitAppend([], '-', Itoa(n));
    SplitSingle(Itoa(n), '-');
    assert Split([], '-') == [[]];
    ContainsChar("0", '-');
    assert Atoi("0") == Some(0) by {
      assert DigitsValue("0") == DigitsValue("") * 10 + 0;
    }
  }

  /** Every accepted range holds exactly one '-'. */
  lemma FindLinesOneDash(s: string)
    requires FindLines(s).1.None? && '-' in s
    ensures multiset(s)['-'] == 1
  {
    ContainsChar(s, '-');
    SplitCount(s, '-');
  }

  lemma SplitParts(n: nat, m: nat)
    ensures Split(Itoa(n) + "-" + Itoa(m), '-') == [Itoa(n), Itoa(m)]
  {
    SplitAppend(Itoa(n), '-', Itoa(m));
    SplitSingle(Itoa(n), '-');
    SplitSingle(Itoa(m), '-');
  }

  // ---------------------------------------------------------------------
  // The marker: by language name or by file extension
  // ---------------------------------------------------------------------

  /** The marker of every supported language, keyed by lower-case name. */
  const CommentChars: map<string, string> := map[
    "golang" := "//", "go" := "//", "js" := "//", "bash" := "#", "c" := "//",
    "c++" := "//", "java" := "//", "python" := "#", "ruby" := "#", "perl" := "#",
    "php" := "//", "swift" := "//", "kotlin" := "//", "r" := "#", "haskell" := "--",
    "sql" := "--", "rust" := "//", "scala" := "//", "dart" := "//",
    "objective-c" := "//", "matlab" := "%", "lua" := "--", "erlang" := "%",
    "elixir" := "#", "ts" := "//", "vhdl" := "--", "verilog" := "//",
    "html" := Commenter.HtmlMarker]

  /**
   * The table key each known file extension looks up.  The C family looks
   * up "C", which the lower-case table does not hold.
   */
  const ExtensionKeys: map<string, string> := map[
    ".go" := "golang", ".js" := "js", ".sh" := "bash", ".bash" := "bash",
    ".cpp" := "C", ".cc" := "C", ".h" := "C", ".c" := "C", ".java" := "java",
    ".py" := "python", ".rb" := "ruby", ".pl" := "perl", ".php" := "php",
    ".swift" := "swift", ".kt" := "kotlin", ".kts" := "kotlin", ".R" := "r",
    ".hs" := "haskell", ".sql" := "sql", ".rs" := "rust", ".scala" := "scala",
    ".dart" := "dart", ".mm" := "objective-c", ".m" := "matlab", ".lua" := "lua",
    ".erl" := "erlang", ".ex" := "elixir", ".exs" := "elixir", ".ts" := "ts",
    ".vhdl" := "vhdl", ".vhd" := "vhdl", ".v" := "verilog", ".sv" := "verilog",
    ".html" := "html"]

  /** A Go map lookup: a missing key reads as "". */
  function Lookup(key: string): string {
    if key in CommentChars then CommentChars[key] else ""
  }

  /**
   * selectCommentChars: a language name wins and is looked up lower-cased;
   * otherwise the file's extension decides; with neither it is an error.
   */
  function SelectCommentChars(filename: string, lang: string): (r: Result<string, Error>)
    ensures lang != [] ==> (r.Ok? <==> ToLower(lang) in CommentChars)
    ensures lang != [] && r.Ok? ==> r.value == CommentChars[ToLower(lang)]
    ensures lang == [] && filename != [] ==> (r.Ok? <==> GoPath.Ext(filename) in ExtensionKeys)
    ensures lang == [] && filename == [] ==> r == Err(NoLanguage)
  {
    if lang != [] then
      var l := ToLower(lang);
      if l in CommentChars then Ok(CommentChars[l]) else Err(UnsupportedLanguage(l))
    else if filename != [] then
      var ext := GoPath.Ext(filename);
      if ext in ExtensionKeys then Ok(Lookup(ExtensionKeys[ext])) else Err(UnsupportedExtension(ext))
    else Err(NoLanguage)
  }

  /** Every marker in the table is either plain or the HTML marker. */
  lemma TableMarkersWellFormed()
    ensures forall k | k in CommentChars :: Commenter.PlainMarker(CommentChars[k]) || CommentChars[k] == Commenter.HtmlMarker
  {
    forall k | k in CommentChars
      ensures Commenter.PlainMarker(CommentChars[k]) || CommentChars[k] == Commenter.HtmlMarker
    {
      var v := CommentChars[k];
      assert v in {"//", "#", "--", "%", Commenter.HtmlMarker};
    }
  }

  /** The extensions whose key is missing from the table are exactly those of the C family. */
  lemma MissingKeysAreTheCFamily()
    ensures forall e | e in ExtensionKeys :: ExtensionKeys[e] !in CommentChars <==> e in {".cpp", ".cc", ".h", ".c"}
  {
  }

  /**
   * A selected marker is well formed, except that the C family yields ""
   * (with no error).
   */
  lemma SelectedMarkerShape(filename: string, lang: string)
    requires SelectCommentChars(filename, lang).Ok?
    ensures var m := SelectCommentChars(filename, lang).value;
      Commenter.PlainMarker(m) || m == Commenter.HtmlMarker
      || (m == "" && lang == [] && GoPath.Ext(filename) in {".cpp", ".cc", ".h", ".c"})
  {
    TableMarkersWellFormed();
    MissingKeysAreTheCFamily();
  }

  /** The language name is lower-cased before the lookup. */
  lemma SelectByMixedCaseName()
    ensures SelectCommentChars("", "GoLang") == Ok("//")
  {
    assert ToLower("GoLang") == "golang";
  }

  /** A C source file gets the empty marker and no error. */
  lemma SelectForCSource(name: string)
    ensures SelectCommentChars(name + ".c", "") == Ok("")
  {
    GoPath.ExtOf(name, ".c");
    assert ExtensionKeys[".c"] == "C";
    assert "C" !in CommentChars;
  }

  /** An unknown extension is an error naming it. */
  lemma SelectForUnknownExtension(name: string)
    ensures SelectCommentChars(name + ".txt", "") == Err(UnsupportedExtension(".txt"))
  {
    GoPath.ExtOf(name, ".txt");
    assert ".txt" !in ExtensionKeys;
  }

  // ---------------------------------------------------------------------
  // The scan
  // ---------------------------------------------------------------------

  /** What a scan selects: a line range, or the lines between two labels. */
  datatype Selection = Selection(lines: LineRange, startLabel: string, endLabel: string)

  /** Both labels given: the labels decide, and the range is ignored. */
  predicate LabelMode(sel: Selection) {
    sel.startLabel != [] && sel.endLabel != []
  }

  /** shouldProcessLine. */
  predicate ShouldProcessLine(currentLine: int, sel: Selection, inSection: bool) {
    if LabelMode(sel) then inSection else sel.lines.start <= currentLine <= sel.lines.end
  }

  /** The scan's variables: the 1-based line counter, the section flag and the two found flags. */
  datatype Cursor = Cursor(currentLine: nat, inSection: bool, foundStart: bool, foundEnd: bool)

  const Init: Cursor := Cursor(1, false, false, false)

  /**
   * One line of writeChanges or printOutput: the end label closes the
   * section before the selection test; the start label, looked for in the
   * possibly transformed line, opens it after.
   */
  function Step(c: Cursor, line: string, sel: Selection, marker: string, modFunc: (string, string) -> string): (r: (Cursor, string))
    ensures r.0.currentLine == c.currentLine + 1
    ensures (c.foundStart ==> r.0.foundStart) && (c.foundEnd ==> r.0.foundEnd)
  {
    var endHit := Contains(line, sel.endLabel);
    var inSection := c.inSection && !endHit;
    var out := if ShouldProcessLine(c.currentLine, sel, inSection) then modFunc(line, marker) else line;
    var startHit := Contains(out, sel.startLabel);
    (Cursor(c.currentLine + 1, inSection || startHit, c.foundStart || startHit, c.foundEnd || endHit), out)
  }

  /** The scan of writeChanges / printOutput over `lines` from cursor `c`: the final cursor and the output lines. */
  function Run(c: Cursor, lines: seq<string>, sel: Selection, marker: string, modFunc: (string, string) -> string): (r: (Cursor, seq<string>))
    ensures |r.1| == |lines|
    ensures r.0.currentLine == c.currentLine + |lines|
    ensures (c.foundStart ==> r.0.foundStart) && (c.foundEnd ==> r.0.foundEnd)
  {
    if lines == [] then (c, [])
    else
      var prev := Run(c, lines[..|lines| - 1], sel, marker, modFunc);
      var next := Step(prev.0, lines[|lines| - 1], sel, marker, modFunc);
      (next.0, prev.1 + [next.1])
  }

  /** The content writeChanges produces for `lines`. */
  function Rewrite(lines: seq<string>, sel: Selection, marker: string, modFunc: (string, string) -> string): seq<string> {
    Run(Init, lines, sel, marker, modFunc).1
  }

  /** The errors reported after the scan, in the order they are tested. */
  function CheckScan(c: Cursor, sel: Selection): Option<Error> {
    if sel.lines.end > c.currentLine && sel.startLabel == [] && sel.endLabel == [] then Some(LineOutOfRange)
    else if !c.foundStart then Some(StartLabelNotFound)
    else if !c.foundEnd then Some(EndLabelNotFound)
    else None
  }

  /** The outcome of writeChanges: the scan's errors, then the scanner's, then the flush's. */
  function WriteVerdict(lines: seq<string>, sel: Selection, marker: string, modFunc: (string, string) -> string, fault: Option<Fault>): Option<Error> {
    var check := CheckScan(Run(Init, lines, sel, marker, modFunc).0, sel);
    if check.Some? then check
    else if fault == Some(Scan) then Some(OsFailure(Scan))
    else if fault == Some(Flush) then Some(OsFailure(Flush))
    else None
  }

  /** The line printChanges prints for a selected line. */
  function Record(n: nat, original: string, modified: string): string {
    Itoa(n) + ": " + original + " -> " + modified + "\n"
  }

  /**
   * One line of printChanges: selection as in Step, but the start label is
   * looked for in the ORIGINAL line, and a selected line yields a record.
   */
  function PreviewStep(c: Cursor, line: string, sel: Selection, marker: string, modFunc: (string, string) -> string): (r: (Cursor, seq<string>))
    ensures r.0.currentLine == c.currentLine + 1
    ensures (c.foundStart ==> r.0.foundStart) && (c.foundEnd ==> r.0.foundEnd)
    ensures |r.1| <= 1
  {
    var endHit := Contains(line, sel.endLabel);
    var inSection := c.inSection && !endHit;
    var records := if ShouldProcessLine(c.currentLine, sel, inSection)
      then [Record(c.currentLine, line, modFunc(line, marker))] else [];
    var startHit := Contains(line, sel.startLabel);
    (Cursor(c.currentLine + 1, inSection || startHit, c.foundStart || startHit, c.foundEnd || endHit), records)
  }

  /** The scan of printChanges: the final cursor and the records printed. */
  function PreviewRun(c: Cursor, lines: seq<string>, sel: Selection, marker: string, modFunc: (string, string) -> string): (r: (Cursor, seq<string>))
    ensures |r.1| <= |lines|
    ensures r.0.currentLine == c.currentLine + |lines|
    ensures (c.foundStart ==> r.0.foundStart) && (c.foundEnd ==> r.0.foundEnd)
  {
    if lines == [] then (c, [])
    else
      var prev := PreviewRun(c, lines[..|lines| - 1], sel, marker, modFunc);
      var next := PreviewStep(prev.0, lines[|lines| - 1], sel, marker, modFunc);
      (next.0, prev.1 + next.1)
  }

  /** The outcome of printChanges: the scan's errors, then the scanner's. */
  function PreviewVerdict(lines: seq<string>, sel: Selection, marker: string, modFunc: (string, string) -> string, fault: Option<Fault>): Option<Error> {
    var check := CheckScan(PreviewRun(Init, lines, sel, marker, modFunc).0, sel);
    if check.Some? then check
    else if fault == Some(Scan) then Some(OsFailure(Scan))
    else None
  }

  /** The outcome of printOutput: only the range check, then the scanner's error. */
  function OutputVerdict(lines: seq<string>, sel: Selection, marker: string, modFunc: (string, string) -> string, fault: Option<Fault>): Option<Error> {
    var c := Run(Init, lines, sel, marker, modFunc).0;
    if sel.lines.end > c.currentLine && sel.startLabel == [] && sel.endLabel == [] then Some(LineOutOfRange)
    else if fault == Some(Scan) then Some(OsFailure(Scan))
    else None
  }

  /** Each line as fmt.Println writes it. */
  function Terminated(lines: seq<string>): (r: seq<string>)
    ensures |r| == |lines|
    ensures forall i :: 0 <= i < |lines| ==> r[i] == lines[i] + "\n"
  {
    if lines == [] then [] else Terminated(lines[..|lines| - 1]) + [lines[|lines| - 1] + "\n"]
  }

  // ---------------------------------------------------------------------
  // What the scans compute
  // ---------------------------------------------------------------------

  /** Running over `a + b` is running over `a` and then over `b` from where `a` left off. */
  lemma {:induction false} RunAppend(c: Cursor, a: seq<string>, b: seq<string>, sel: Selection, marker: string, modFunc: (string, string) -> string)
    ensures var ra := Run(c, a, sel, marker, modFunc);
      var rb := Run(ra.0, b, sel, marker, modFunc);
      Run(c, a + b, sel, marker, modFunc) == (rb.0, ra.1 + rb.1)
    decreases |b|
  {
    if b == [] {
      assert a + b == a;
      var ra := Run(c, a, sel, marker, modFunc);
      assert Run(ra.0, b, sel, marker, modFunc) == (ra.0, []);
      assert ra.1 + [] == ra.1;
    } else {
      var b' := b[..|b| - 1];
      var last := b[|b| - 1];
      assert (a + b)[..|a + b| - 1] == a + b';
      assert (a + b)[|a + b| - 1] == last;
      RunAppend(c, a, b', sel, marker, modFunc);
      var ra := Run(c, a, sel, marker, modFunc);
      var rb' := Run(ra.0, b', sel, marker, modFunc);
      var next := Step(rb'.0, last, sel, marker, modFunc);
      assert Run(ra.0, b, sel, marker, modFunc) == (next.0, rb'.1 + [next.1]);
      assert Run(c, a + b, sel, marker, modFunc) == (next.0, (ra.1 + rb'.1) + [next.1]);
      assert (ra.1 + rb'.1) + [next.1] == ra.1 + (rb'.1 + [next.1]);
    }
  }

  /**
   * Range mode: exactly the lines numbered start..end are transformed, every
   * other line is copied as it is, and there is one output line per input line.
   */
  lemma {:induction false} RangeModeOutput(c: Cursor, lines: seq<string>, sel: Selection, marker: string, modFunc: (string, string) -> string)
    requires !LabelMode(sel)
    ensures var out := Run(c, lines, sel, marker, modFunc).1;
      forall i :: 0 <= i < |lines| ==>
        out[i] == if sel.lines.start <= c.currentLine + i <= sel.lines.end then modFunc(lines[i], marker) else lines[i]
  {
    if lines != [] {
      var prefix := lines[..|lines| - 1];
      RangeModeOutput(c, prefix, sel, marker, modFunc);
      var out := Run(c, lines, sel, marker, modFunc).1;
      forall i | 0 <= i < |lines|
        ensures out[i] == if sel.lines.start <= c.currentLine + i <= sel.lines.end then modFunc(lines[i], marker) else lines[i]
      {
        if i < |lines| - 1 {
          assert out[i] == Run(c, prefix, sel, marker, modFunc).1[i];
          assert lines[i] == prefix[i];
        }
      }
    }
  }

  /** The transform applied to every line. */
  function ApplyAll(modFunc: (string, string) -> string, lines: seq<string>, marker: string): (r: seq<string>)
    ensures |r| == |lines|
    ensures forall i :: 0 <= i < |lines| ==> r[i] == modFunc(lines[i], marker)
  {
    seq(|lines|, i requires 0 <= i < |lines| => modFunc(lines[i], marker))
  }

  /** Before the start label, outside the section, lines are copied and the section stays closed. */
  lemma {:induction false} OutsideSection(c: Cursor, pre: seq<string>, sel: Selection, marker: string, modFunc: (string, string) -> string)
    requires LabelMode(sel) && !c.inSection
    requires forall i :: 0 <= i < |pre| ==> !Contains(pre[i], sel.startLabel)
    ensures Run(c, pre, sel, marker, modFunc).1 == pre
    ensures !Run(c, pre, sel, marker, modFunc).0.inSection
  {
    if pre != [] {
      OutsideSection(c, pre[..|pre| - 1], sel, marker, modFunc);
      assert pre == pre[..|pre| - 1] + [pre[|pre| - 1]];
    }
  }

  /** Inside the section, until a line holds the end label, every line is transformed. */
  lemma {:induction false} InsideSection(c: Cursor, mid: seq<string>, sel: Selection, marker: string, modFunc: (string, string) -> string)
    requires LabelMode(sel) && c.inSection
    requires forall i :: 0 <= i < |mid| ==> !Contains(mid[i], sel.endLabel)
    ensures Run(c, mid, sel, marker, modFunc).1 == ApplyAll(modFunc, mid, marker)
    ensures Run(c, mid, sel, marker, modFunc).0.inSection
  {
    if mid != [] {
      var prefix := mid[..|mid| - 1];
      InsideSection(c, prefix, sel, marker, modFunc);
      assert ApplyAll(modFunc, mid, marker) == ApplyAll(modFunc, prefix, marker) + [modFunc(mid[|mid| - 1], marker)];
    }
  }

  /**
   * Label mode: the line holding the start label and the line holding the
   * end label are both kept as they are, exactly the lines strictly
   * between them are transformed, and the lines after the end label are
   * copied as long as none reopens the section; both labels count as found.
   */
  lemma LabelSection(pre: seq<string>, s: string, mid: seq<string>, e: string, post: seq<string>,
                     sel: Selection, marker: string, modFunc: (string, string) -> string)
    requires LabelMode(sel)
    requires forall i :: 0 <= i < |pre| ==> !Contains(pre[i], sel.startLabel)
    requires Contains(s, sel.startLabel)
    requires forall i :: 0 <= i < |mid| ==> !Contains(mid[i], sel.endLabel)
    requires Contains(e, sel.endLabel)
    requires post != [] ==> !Contains(e, sel.startLabel)
    requires forall i :: 0 <= i < |post| ==> !Contains(post[i], sel.startLabel)
    ensures Rewrite(pre + [s] + mid + [e] + post, sel, marker, modFunc) == pre + [s] + ApplyAll(modFunc, mid, marker) + [e] + post
    ensures CheckScan(Run(Init, pre + [s] + mid + [e] + post, sel, marker, modFunc).0, sel) == None
  {
    var c1 := Run(Init, pre, sel, marker, modFunc).0;
    OutsideSection(Init, pre, sel, marker, modFunc);
    var c2 := Run(c1, [s], sel, marker, modFunc).0;
    assert [s][..0] == [];
    assert Run(c1, [s], sel, marker, modFunc).1 == [s];
    assert c2.inSection && c2.foundStart;
    var c3 := Run(c2, mid, sel, marker, modFunc).0;
    InsideSection(c2, mid, sel, marker, modFunc);
    assert [e][..0] == [];
    var c4 := Run(c3, [e], sel, marker, modFunc).0;
    assert Run(c3, [e], sel, marker, modFunc).1 == [e];
    assert c4.foundEnd;
    RunAppend(Init, pre, [s], sel, marker, modFunc);
    RunAppend(Init, pre + [s], mid, sel, marker, modFunc);
    RunAppend(Init, pre + [s] + mid, [e], sel, marker, modFunc);
    RunAppend(Init, pre + [s] + mid + [e], post, sel, marker, modFunc);
    if post == [] {
      assert pre + [s] + mid + [e] + post == pre + [s] + mid + [e];
    } else {
      assert !c4.inSection;
      OutsideSection(c4, post, sel, marker, modFunc);
    }
  }

  /** The out-of-range error fires iff no label is given and the range ends past the line after the last. */
  lemma OutOfRangeIff(lines: seq<string>, sel: Selection, marker: string, modFunc: (string, string) -> string)
    ensures CheckScan(Run(Init, lines, sel, marker, modFunc).0, sel) == Some(LineOutOfRange)
      <==> sel.startLabel == [] && sel.endLabel == [] && sel.lines.end > |lines| + 1
  {
  }

  /** With no labels the empty label is "found" on every line, so both flags say whether any line was read. */
  lemma {:induction false} EmptyLabelsFound(c: Cursor, lines: seq<string>, sel: Selection, marker: string, modFunc: (string, string) -> string)
    requires sel.startLabel == [] && sel.endLabel == []
    ensures Run(c, lines, sel, marker, modFunc).0.foundStart == (c.foundStart || lines != [])
    ensures Run(c, lines, sel, marker, modFunc).0.foundEnd == (c.foundEnd || lines != [])
  {
    if lines != [] {
      EmptyLabelsFound(c, lines[..|lines| - 1], sel, marker, modFunc);
      var prev := Run(c, lines[..|lines| - 1], sel, marker, modFunc);
      ContainsEmpty(lines[|lines| - 1]);
      ContainsEmpty(Step(prev.0, lines[|lines| - 1], sel, marker, modFunc).1);
    }
  }

  /**
   * Range mode's verdict: out of range when the end passes the line after
   * the last; otherwise an empty input reports the start label missing, and
   * any other input succeeds.
   */
  lemma RangeModeVerdict(lines: seq<string>, sel: Selection, marker: string, modFunc: (string, string) -> string)
    requires sel.startLabel == [] && sel.endLabel == []
    ensures CheckScan(Run(Init, lines, sel, marker, modFunc).0, sel) ==
      if sel.lines.end > |lines| + 1 then Some(LineOutOfRange)
      else if lines == [] then Some(StartLabelNotFound)
      else None
  {
    EmptyLabelsFound(Init, lines, sel, marker, modFunc);
  }

  /** The record of line number `n` (1-based). */
  function RecordAt(lines: seq<string>, n: int, marker: string, modFunc: (string, string) -> string): string
    requires 1 <= n <= |lines|
  {
    Record(n, lines[n - 1], modFunc(lines[n - 1], marker))
  }

  /**
   * The records printChanges prints in range mode, defined directly: one per
   * line numbered from max(start, 1) to min(end, line count), in order.
   */
  function Window(lines: seq<string>, range: LineRange, marker: string, modFunc: (string, string) -> string): seq<string> {
    var lo := if range.start < 1 then 1 else range.start;
    var hi := if range.end < |lines| then range.end else |lines|;
    if hi < lo then []
    else seq(hi - lo + 1, j requires 0 <= j < hi - lo + 1 => RecordAt(lines, lo + j, marker, modFunc))
  }

  /** Adding a line adds its record to the window exactly when its number is selected. */
  lemma WindowSnoc(lines: seq<string>, range: LineRange, marker: string, modFunc: (string, string) -> string)
    requires lines != []
    ensures var n := |lines|;
      Window(lines, range, marker, modFunc) ==
        Window(lines[..n - 1], range, marker, modFunc)
        + if range.start <= n <= range.end then [RecordAt(lines, n, marker, modFunc)] else []
  {
    var n := |lines|;
    var prefix := lines[..n - 1];
    var w := Window(lines, range, marker, modFunc);
    var wp := Window(prefix, range, marker, modFunc);
    var lo := if range.start < 1 then 1 else range.start;
    forall j | 0 <= j < |wp|
      ensures j < |w| && w[j] == wp[j]
    {
      assert RecordAt(lines, lo + j, marker, modFunc) == RecordAt(prefix, lo + j, marker, modFunc);
    }
    if range.start <= n <= range.end {
      assert |wp| == n - lo && |w| == n - lo + 1;
      assert w[n - lo] == RecordAt(lines, n, marker, modFunc);
      assert w == wp + [RecordAt(lines, n, marker, modFunc)];
    } else {
      assert |w| == |wp|;
      assert w == wp;
    }
  }

  /** In range mode printChanges prints the Window records and nothing else. */
  lemma {:induction false} PreviewRangeIsWindow(lines: seq<string>, sel: Selection, marker: string, modFunc: (string, string) -> string)
    requires !LabelMode(sel)
    ensures PreviewRun(Init, lines, sel, marker, modFunc).1 == Window(lines, sel.lines, marker, modFunc)
  {
    if lines != [] {
      var n := |lines|;
      PreviewRangeIsWindow(lines[..n - 1], sel, marker, modFunc);
      WindowSnoc(lines, sel.lines, marker, modFunc);
    }
  }

  // ---------------------------------------------------------------------
  // The scans as loops
  // ---------------------------------------------------------------------

  /**
   * The body of the scan loop shared by writeChanges and printOutput: the
   * end label closes the section, a selected line is transformed, and the
   * start label (looked for in the transformed line) opens it.
   */
  method ScanLine(c: Cursor, line: string, sel: Selection, marker: string,
                  modFunc: (string, string) -> string) returns (next: Cursor, out: string)
    ensures (next, out) == Step(c, line, sel, marker, modFunc)
  {
    var inSection := c.inSection;
    var foundStart := c.foundStart;
    var foundEnd := c.foundEnd;
    out := line;
    if Contains(out, sel.endLabel) {
      foundEnd := true;
      inSection := false;
    }
    if ShouldProcessLine(c.currentLine, sel, inSection) {
      out := modFunc(out, marker);
    }
    if Contains(out, sel.startLabel) {
      foundStart := true;
      inSection := true;
    }
    next := Cursor(c.currentLine + 1, inSection, foundStart, foundEnd);
  }

  /** The scan of `input` extended by one line is the scan so far followed by one step. */
  lemma RunSnoc(input: seq<string>, i: nat, sel: Selection, marker: string, modFunc: (string, string) -> string)
    requires i < |input|
    ensures var prev := Run(Init, input[..i], sel, marker, modFunc);
      var step := Step(prev.0, input[i], sel, marker, modFunc);
      Run(Init, input[..i + 1], sel, marker, modFunc) == (step.0, prev.1 + [step.1])
  {
    assert input[..i + 1][..i] == input[..i];
  }

  /**
   * writeChanges: scans `input`, and on success the temporary file holds one
   * line per input line as Rewrite computes them.  On an error the
   * temporary file is left as it was (the output is buffered).
   */
  method WriteChanges(os: Os, input: seq<string>, tmp: string, sel: Selection, marker: string,
                      modFunc: (string, string) -> string, fault: Option<Fault>) returns (err: Option<Error>)
    modifies os
    ensures err == WriteVerdict(input, sel, marker, modFunc, fault)
    ensures err.None? ==> os.files == old(os.files)[tmp := Rewrite(input, sel, marker, modFunc)]
    ensures err.Some? ==> os.files == old(os.files)
    ensures os.stdout == old(os.stdout)
  {
    var c := Init;
    var written: seq<string> := [];
    var i := 0;
    while i < |input|
      invariant 0 <= i <= |input|
      invariant Run(Init, input[..i], sel, marker, modFunc) == (c, written)
      invariant os.files == old(os.files) && os.stdout == old(os.stdout)
    {
      RunSnoc(input, i, sel, marker, modFunc);
      var line;
      c, line := ScanLine(c, input[i], sel, marker, modFunc);
      written := written + [line];
      i := i + 1;
    }
    assert input[..i] == input;
    if sel.lines.end > c.currentLine && sel.startLabel == [] && sel.endLabel == [] {
      return Some(LineOutOfRange);
    }
    if !c.foundStart {
      return Some(StartLabelNotFound);
    }
    if !c.foundEnd {
      return Some(EndLabelNotFound);
    }
    if fault == Some(Scan) {
      return Some(OsFailure(Scan));
    }
    if fault == Some(Flush) {
      return Some(OsFailure(Flush));
    }
    os.Write(tmp, written);
    return None;
  }

  /**
   * The body of printChanges' loop: like ScanLine, but a selected line is
   * printed as a record instead of replaced, and the start label is looked
   * for in the line as read.
   */
  method PreviewLine(os: Os, c: Cursor, line: string, sel: Selection, marker: string,
                     modFunc: (string, string) -> string) returns (next: Cursor)
    modifies os
    ensures next == PreviewStep(c, line, sel, marker, modFunc).0
    ensures os.stdout == old(os.stdout) + PreviewStep(c, line, sel, marker, modFunc).1
    ensures os.files == old(os.files)
  {
    var inSection := c.inSection;
    var foundStart := c.foundStart;
    var foundEnd := c.foundEnd;
    if Contains(line, sel.endLabel) {
      inSection := false;
      foundEnd := true;
    }
    if ShouldProcessLine(c.currentLine, sel, inSection) {
      var modified := modFunc(line, marker);
      os.Print(Record(c.currentLine, line, modified));
    }
    if Contains(line, sel.startLabel) {
      inSection := true;
      foundStart := true;
    }
    next := Cursor(c.currentLine + 1, inSection, foundStart, foundEnd);
  }

  lemma PreviewRunSnoc(input: seq<string>, i: nat, sel: Selection, marker: string, modFunc: (string, string) -> string)
    requires i < |input|
    ensures var prev := PreviewRun(Init, input[..i], sel, marker, modFunc);
      var step := PreviewStep(prev.0, input[i], sel, marker, modFunc);
      PreviewRun(Init, input[..i + 1], sel, marker, modFunc) == (step.0, prev.1 + step.1)
  {
    assert input[..i + 1][..i] == input[..i];
  }

  /**
   * printChanges: prints one record per selected line as it goes, changes no
   * file, and reports the scan's errors after the loop.
   */
  method PrintChanges(os: Os, input: seq<string>, sel: Selection, marker: string,
                      modFunc: (string, string) -> string, fault: Option<Fault>) returns (err: Option<Error>)
    modifies os
    ensures err == PreviewVerdict(input, sel, marker, modFunc, fault)
    ensures os.stdout == old(os.stdout) + PreviewRun(Init, input, sel, marker, modFunc).1
    ensures os.files == old(os.files)
  {
    var c := Init;
    var i := 0;
    while i < |input|
      invariant 0 <= i <= |input|
      invariant PreviewRun(Init, input[..i], sel, marker, modFunc).0 == c
      invariant os.stdout == old(os.stdout) + PreviewRun(Init, input[..i], sel, marker, modFunc).1
      invariant os.files == old(os.files)
    {
      PreviewRunSnoc(input, i, sel, marker, modFunc);
      c := PreviewLine(os, c, input[i], sel, marker, modFunc);
      i := i + 1;
    }
    assert input[..i] == input;
    if sel.lines.end > c.currentLine && sel.startLabel == [] && sel.endLabel == [] {
      return Some(LineOutOfRange);
    }
    if !c.foundStart {
      return Some(StartLabelNotFound);
    }
    if !c.foundEnd {
      return Some(EndLabelNotFound);
    }
    if fault == Some(Scan) {
      return Some(OsFailure(Scan));
    }
    return None;
  }

  /**
   * printOutput: prints every line, transformed as writeChanges would, and
   * checks only the range.  Its own loop keeps no found flags; the cursor's
   * are carried along and never read.
   */
  method PrintOutput(os: Os, input: seq<string>, sel: Selection, marker: string,
                     modFunc: (string, string) -> string, fault: Option<Fault>) returns (err: Option<Error>)
    modifies os
    ensures err == OutputVerdict(input, sel, marker, modFunc, fault)
    ensures os.stdout == old(os.stdout) + Terminated(Rewrite(input, sel, marker, modFunc))
    ensures os.files == old(os.files)
  {
    var c := Init;
    ghost var printed: seq<string> := [];
    var i := 0;
    while i < |input|
      invariant 0 <= i <= |input|
      invariant Run(Init, input[..i], sel, marker, modFunc) == (c, printed)
      invariant os.stdout == old(os.stdout) + Terminated(printed)
      invariant os.files == old(os.files)
    {
      RunSnoc(input, i, sel, marker, modFunc);
      var line;
      c, line := ScanLine(c, input[i], sel, marker, modFunc);
      os.Print(line + "\n");
      PrintedSnoc(old(os.stdout), printed, line);
      printed := printed + [line];
      i := i + 1;
    }
    assert input[..i] == input;
    if sel.lines.end > c.currentLine && sel.startLabel == [] && sel.endLabel == [] {
      return Some(LineOutOfRange);
    }
    if fault == Some(Scan) {
      return Some(OsFailure(Scan));
    }
    return None;
  }

  lemma TerminatedSnoc(lines: seq<string>, line: string)
    ensures Terminated(lines + [line]) == Terminated(lines) + [line + "\n"]
  {
    assert (lines + [line])[..|lines|] == lines;
  }

  lemma PrintedSnoc(prefix: seq<string>, lines: seq<string>, line: string)
    ensures prefix + Terminated(lines) + [line + "\n"] == prefix + Terminated(lines + [line])
  {
    TerminatedSnoc(lines, line);
  }

  // ---------------------------------------------------------------------
  // Backup, temporary file and rename
  // ---------------------------------------------------------------------

  /**
   * createBackup: copies the file to `backup`.  A failed copy leaves an
   * empty backup behind; any earlier failure leaves every file as it was.
   */
  method CreateBackup(os: Os, filename: string, backup: string, fault: Option<Fault>) returns (err: Option<Error>)
    requires filename != backup
    modifies os
    ensures err.None? <==> filename in old(os.files) && fault !in {Some(OpenForBackup), Some(CreateBackupFile), Some(CopyBackup)}
    ensures err.None? ==> os.files == old(os.files)[backup := old(os.files)[filename]]
    ensures err.Some? ==> err.value in {OsFailure(OpenForBackup), OsFailure(CreateBackupFile), OsFailure(CopyBackup)}
    ensures err.Some? && filename in old(os.files) ==> err == Some(OsFailure(fault.value))
    ensures err.Some? ==> os.files == old(os.files) || os.files == old(os.files)[backup := []]
    ensures os.stdout == old(os.stdout)
  {
    if filename !in os.files || fault == Some(OpenForBackup) {
      return Some(OsFailure(OpenForBackup));
    }
    if fault == Some(CreateBackupFile) {
      return Some(OsFailure(CreateBackupFile));
    }
    os.Write(backup, []);
    if fault == Some(CopyBackup) {
      return Some(OsFailure(CopyBackup));
    }
    os.Write(backup, os.files[filename]);
    return None;
  }

  /** restoreBackup: removes the file, then renames the backup onto it (both results ignored). */
  method RestoreBackup(os: Os, filename: string, backup: string)
    requires filename != backup
    modifies os
    ensures backup in old(os.files) ==> os.files == (old(os.files) - {backup})[filename := old(os.files)[backup]]
    ensures backup !in old(os.files) ==> os.files == old(os.files) - {filename}
    ensures os.stdout == old(os.stdout)
  {
    os.Remove(filename);
    var _ := os.Rename(backup, filename);
  }

  /** The marker, transform and range a configuration asks for. */
  datatype Plan = Plan(marker: string, action: Action, lines: LineRange)

  /**
   * The checks ChangeFile makes before touching anything, in its order:
   * the marker, the action, then the line selection (none when empty).
   */
  function Resolve(conf: Config): (r: Result<Plan, Error>)
    ensures r.Ok? ==> r.value.lines == LineRange(0, 0) || 1 <= r.value.lines.start <= r.value.lines.end
    ensures r.Ok? ==> (r.value.lines == LineRange(0, 0) <==> conf.lineNum == [])
  {
    var chars := SelectCommentChars(conf.filename, conf.lang);
    if chars.Err? then Err(chars.error)
    else
      var action := SetModFunc(conf.action);
      if action.Err? then Err(action.error)
      else if conf.lineNum == [] then Ok(Plan(chars.value, action.value, LineRange(0, 0)))
      else
        var found := FindLines(conf.lineNum);
        if found.1.Some? then Err(found.1.value)
        else Ok(Plan(chars.value, action.value, found.0))
  }

  function SelectionOf(conf: Config, plan: Plan): Selection {
    Selection(plan.lines, conf.startLabel, conf.endLabel)
  }

  function BackupName(filename: string): string { filename + ".bak" }
  function TempName(filename: string): string { filename + ".tmp" }

  lemma ScratchNamesDiffer(filename: string)
    ensures BackupName(filename) != filename && TempName(filename) != filename
    ensures BackupName(filename) != TempName(filename)
  {
    assert |BackupName(filename)| == |filename| + 4;
    assert BackupName(filename)[|filename| + 1] == 'b' != 't' == TempName(filename)[|filename| + 1];
  }

  /** The two maps agree on every path but the scratch files of `filename`: the same paths exist there, with the same contents. */
  ghost predicate SameBesideScratch(m1: map<string, seq<string>>, m2: map<string, seq<string>>, filename: string) {
    forall p :: p != BackupName(filename) && p != TempName(filename) ==>
      (p in m1 <==> p in m2) && (p in m1 ==> m1[p] == m2[p])
  }

  lemma ScratchUpdate(m: map<string, seq<string>>, filename: string, k: string, v: seq<string>)
    requires k == BackupName(filename) || k == TempName(filename)
    ensures SameBesideScratch(m[k := v], m, filename)
  {
  }

  lemma ScratchRemove(m: map<string, seq<string>>, filename: string, k: string)
    requires k == BackupName(filename) || k == TempName(filename)
    ensures SameBesideScratch(m - {k}, m, filename)
  {
  }

  /** Restoring an intact backup brings back every file but the scratch files. */
  lemma RestoreKeeps(cur: map<string, seq<string>>, orig: map<string, seq<string>>, filename: string)
    requires SameBesideScratch(cur, orig, filename)
    requires filename in orig && BackupName(filename) in cur && cur[BackupName(filename)] == orig[filename]
    ensures SameBesideScratch((cur - {BackupName(filename)})[filename := cur[BackupName(filename)]], orig, filename)
  {
    ScratchNamesDiffer(filename);
  }

  /** Renaming the finished temporary file over the target and dropping the backup leaves the target rewritten and no scratch file. */
  lemma Installed(m: map<string, seq<string>>, orig: map<string, seq<string>>, filename: string, content: seq<string>)
    requires SameBesideScratch(m, orig, filename)
    requires TempName(filename) in m && m[TempName(filename)] == content
    ensures ((m - {TempName(filename)})[filename := content]) - {BackupName(filename)}
      == (orig - {BackupName(filename), TempName(filename)})[filename := content]
  {
    ScratchNamesDiffer(filename);
  }

  /**
   * The undo steps of ChangeFile's error paths: restoreBackup, then, where
   * the source does so, the removal of the temporary file.  With an intact
   * backup, every file but the scratch files is back as it was.
   */
  method RollBack(os: Os, filename: string, removeTemp: bool, ghost orig: map<string, seq<string>>)
    requires SameBesideScratch(os.files, orig, filename)
    requires filename in orig && BackupName(filename) in os.files && os.files[BackupName(filename)] == orig[filename]
    modifies os
    ensures SameBesideScratch(os.files, orig, filename)
    ensures filename in os.files && os.files[filename] == orig[filename]
    ensures os.stdout == old(os.stdout)
  {
    ScratchNamesDiffer(filename);
    ghost var before := os.files;
    RestoreBackup(os, filename, BackupName(filename));
    RestoreKeeps(before, orig, filename);
    if removeTemp {
      ghost var restored := os.files;
      os.Remove(TempName(filename));
      ScratchRemove(restored, filename, TempName(filename));
    }
  }

  /**
   * The outcome of the file-target branch, in the order its steps run: the
   * backup, the temporary file and the rewind fail first; then
   * writeChanges reports the scan's errors, the scanner's and the flush's;
   * then closing the input, closing the temporary file and the rename.
   */
  function CommitVerdict(lines: seq<string>, sel: Selection, marker: string, modFunc: (string, string) -> string,
                         fault: Option<Fault>): (r: Option<Error>)
    ensures r.Some? && !r.value.OsFailure? ==> r == CheckScan(Run(Init, lines, sel, marker, modFunc).0, sel)
    ensures r.Some? && r.value.OsFailure? ==> fault == Some(r.value.fault)
  {
    if fault.Some? && fault.value in {OpenForBackup, CreateBackupFile, CopyBackup, CreateTemp, Seek}
    then Some(OsFailure(fault.value))
    else if WriteVerdict(lines, sel, marker, modFunc, fault).Some? then WriteVerdict(lines, sel, marker, modFunc, fault)
    else if fault.Some? && fault.value in {CloseInput, CloseTemp, RenameTemp}
    then Some(OsFailure(fault.value))
    else None
  }

  /**
   * Without an OS failure the file-target branch succeeds exactly when the
   * scan finds nothing to report: in range mode, when the file is not
   * empty and the range ends at most one line past its end.
   */
  lemma CommitWithoutFault(lines: seq<string>, sel: Selection, marker: string, modFunc: (string, string) -> string)
    ensures CommitVerdict(lines, sel, marker, modFunc, None) == CheckScan(Run(Init, lines, sel, marker, modFunc).0, sel)
    ensures sel.startLabel == [] && sel.endLabel == [] ==>
      (CommitVerdict(lines, sel, marker, modFunc, None).None? <==> lines != [] && sel.lines.end <= |lines| + 1)
  {
    if sel.startLabel == [] && sel.endLabel == [] {
      RangeModeVerdict(lines, sel, marker, modFunc);
    }
  }

  /**
   * The file-target branch of ChangeFile: back up, create the temporary
   * file, rewind, rewrite into it, close both, rename it over the target
   * and drop the backup; each failure undoes what the source undoes.
   */
  method Commit(os: Os, filename: string, sel: Selection, marker: string,
                modFunc: (string, string) -> string, fault: Option<Fault>) returns (err: Option<Error>)
    requires filename in os.files
    modifies os
    ensures err == CommitVerdict(old(os.files)[filename], sel, marker, modFunc, fault)
    ensures err.Some? ==> SameBesideScratch(os.files, old(os.files), filename)
    ensures err.Some? ==> filename in os.files && os.files[filename] == old(os.files)[filename]
    ensures err.None? ==>
      os.files == (old(os.files) - {BackupName(filename), TempName(filename)})
                    [filename := Rewrite(old(os.files)[filename], sel, marker, modFunc)]
    ensures err == Some(OsFailure(CloseTemp)) ==>
      BackupName(filename) in os.files && os.files[BackupName(filename)] == old(os.files)[filename]
    ensures os.stdout == old(os.stdout)
  {
    ghost var orig := os.files;
    var input := os.files[filename];
    var backup := BackupName(filename);
    var tmp := TempName(filename);
    ScratchNamesDiffer(filename);
    err := CreateBackup(os, filename, backup, fault);
    if err.Some? {
      if os.files != orig {
        ScratchUpdate(orig, filename, backup, []);
      }
      return;
    }
    ScratchUpdate(orig, filename, backup, input);
    if fault == Some(CreateTemp) {
      RollBack(os, filename, false, orig);
      return Some(OsFailure(CreateTemp));
    }
    ghost var backedUp := os.files;
    os.Write(tmp, []);
    ScratchUpdate(backedUp, filename, tmp, []);
    if fault == Some(Seek) {
      RollBack(os, filename, true, orig);
      return Some(OsFailure(Seek));
    }
    ghost var created := os.files;
    err := WriteChanges(os, input, tmp, sel, marker, modFunc, fault);
    if err.None? {
      ScratchUpdate(created, filename, tmp, Rewrite(input, sel, marker, modFunc));
    }
    if err.Some? || fault == Some(CloseInput) {
      RollBack(os, filename, true, orig);
      if err.None? {
        err := Some(OsFailure(CloseInput));
      }
      return;
    }
    ghost var written := os.files;
    if fault == Some(CloseTemp) {
      os.Remove(tmp);
      ScratchRemove(written, filename, tmp);
      return Some(OsFailure(CloseTemp));
    }
    if fault == Some(RenameTemp) {
      RollBack(os, filename, false, orig);
      return Some(OsFailure(RenameTemp));
    }
    Installed(written, orig, filename, Rewrite(input, sel, marker, modFunc));
    var _ := os.Rename(tmp, filename);
    os.Remove(backup);
    return None;
  }

  /** A printing branch's error, wrapped as ChangeFile wraps it. */
  function Failed(e: Option<Error>): (r: Option<Error>)
    ensures r.None? <==> e.None?
    ensures r.Some? ==> r == Some(ProcessFailed(e.value))
  {
    if e.Some? then Some(ProcessFailed(e.value)) else None
  }

  /**
   * The error ChangeFile reports once its input is open: the checks of
   * Resolve first, then the dry run's, the standard-output run's or the
   * file-target branch's outcome.
   */
  function RunVerdict(conf: Config, input: seq<string>, fault: Option<Fault>): (r: Option<Error>)
    ensures Resolve(conf).Err? ==> r == Some(Resolve(conf).error)
    ensures Resolve(conf).Ok? && (conf.dryRun || conf.filename == []) && r.Some? ==> r.value.ProcessFailed?
    ensures Resolve(conf).Ok? && !conf.dryRun && conf.filename != [] && r.Some? ==> !r.value.ProcessFailed?
  {
    match Resolve(conf)
    case Err(e) => Some(e)
    case Ok(plan) =>
      var sel := SelectionOf(conf, plan);
      var modFunc := ModFunc(plan.action);
      if conf.dryRun then Failed(PreviewVerdict(input, sel, plan.marker, modFunc, fault))
      else if conf.filename == [] then Failed(OutputVerdict(input, sel, plan.marker, modFunc, fault))
      else CommitVerdict(input, sel, plan.marker, modFunc, fault)
  }

  /**
   * A line range that ends past the line after the last is refused in
   * every branch: ProcessFailed around LineOutOfRange when printing,
   * LineOutOfRange itself when writing the file.
   */
  lemma RangePastEndFails(conf: Config, input: seq<string>)
    requires Resolve(conf).Ok? && conf.startLabel == [] && conf.endLabel == []
    requires Resolve(conf).value.lines.end > |input| + 1
    ensures RunVerdict(conf, input, None) ==
      if conf.dryRun || conf.filename == [] then Some(ProcessFailed(LineOutOfRange)) else Some(LineOutOfRange)
  {
    var plan := Resolve(conf).value;
    OutOfRangeIff(input, SelectionOf(conf, plan), plan.marker, ModFunc(plan.action));
  }

  /**
   * A file whose start label is followed by an end label is rewritten
   * without error when nothing fails: the labels are found and the section
   * between them is transformed.
   */
  lemma LabelledFileSucceeds(conf: Config, pre: seq<string>, s: string, mid: seq<string>, e: string, post: seq<string>)
    requires Resolve(conf).Ok? && !conf.dryRun && conf.filename != []
    requires LabelMode(SelectionOf(conf, Resolve(conf).value))
    requires forall i :: 0 <= i < |pre| ==> !Contains(pre[i], conf.startLabel)
    requires Contains(s, conf.startLabel)
    requires forall i :: 0 <= i < |mid| ==> !Contains(mid[i], conf.endLabel)
    requires Contains(e, conf.endLabel)
    requires post != [] ==> !Contains(e, conf.startLabel)
    requires forall i :: 0 <= i < |post| ==> !Contains(post[i], conf.startLabel)
    ensures RunVerdict(conf, pre + [s] + mid + [e] + post, None) == None
  {
    var plan := Resolve(conf).value;
    var sel := SelectionOf(conf, plan);
    LabelSection(pre, s, mid, e, post, sel, plan.marker, ModFunc(plan.action));
    CommitWithoutFault(pre + [s] + mid + [e] + post, sel, plan.marker, ModFunc(plan.action));
  }

  /**
   * ChangeFile.  With no file name it reads standard input and prints; a dry
   * run prints the records and changes no file; otherwise the file is
   * backed up, rewritten into <name>.tmp and renamed over, and every failure
   * after the backup restores it.  Whatever fails, every file other than the
   * two scratch files is as it was; on success the file holds Rewrite's
   * lines and neither scratch file is left.
   */
  method ChangeFile(os: Os, conf: Config, stdin: seq<string>, fault: Option<Fault>) returns (err: Option<Error>)
    modifies os
    ensures conf.filename != [] && (conf.filename !in old(os.files) || fault == Some(OpenInput)) ==>
      err == Some(OsFailure(OpenInput)) && os.files == old(os.files) && os.stdout == old(os.stdout)
    ensures conf.filename == [] || (conf.filename in old(os.files) && fault != Some(OpenInput)) ==>
      err == RunVerdict(conf, if conf.filename == [] then stdin else old(os.files)[conf.filename], fault)
    ensures err.None? ==> Resolve(conf).Ok?
    ensures conf.filename == [] || conf.dryRun ==> os.files == old(os.files)
    ensures conf.filename != [] && !conf.dryRun ==> os.stdout == old(os.stdout)
    ensures conf.filename != [] && err.Some? ==> SameBesideScratch(os.files, old(os.files), conf.filename)
    ensures conf.filename in old(os.files) && err.Some? ==>
      conf.filename in os.files && os.files[conf.filename] == old(os.files)[conf.filename]
    ensures conf.filename != [] && !conf.dryRun && err.None? ==>
      conf.filename in old(os.files)
      && os.files == (old(os.files) - {BackupName(conf.filename), TempName(conf.filename)})
                       [conf.filename := Rewrite(old(os.files)[conf.filename], SelectionOf(conf, Resolve(conf).value),
                                                 Resolve(conf).value.marker, ModFunc(Resolve(conf).value.action))]
    ensures err == Some(OsFailure(CloseTemp)) ==>
      conf.filename in old(os.files) && BackupName(conf.filename) in os.files
      && os.files[BackupName(conf.filename)] == old(os.files)[conf.filename]
    ensures conf.dryRun && Resolve(conf).Ok? && (conf.filename == [] || conf.filename in old(os.files)) && fault != Some(OpenInput) ==>
      var plan := Resolve(conf).value;
      var input := if conf.filename == [] then stdin else old(os.files)[conf.filename];
      os.stdout == old(os.stdout) + PreviewRun(Init, input, SelectionOf(conf, plan), plan.marker, ModFunc(plan.action)).1
    ensures !conf.dryRun && conf.filename == [] && Resolve(conf).Ok? ==>
      var plan := Resolve(conf).value;
      os.stdout == old(os.stdout) + Terminated(Rewrite(stdin, SelectionOf(conf, plan), plan.marker, ModFunc(plan.action)))
  {
    var input: seq<string>;
    if conf.filename == [] {
      input := stdin;
    } else {
      if conf.filename !in os.files || fault == Some(OpenInput) {
        return Some(OsFailure(OpenInput));
      }
      input := os.files[conf.filename];
    }

    var chars := SelectCommentChars(conf.filename, conf.lang);
    if chars.Err? {
      assert Resolve(conf).Err?;
      return Some(chars.error);
    }
    var action := SetModFunc(conf.action);
    if action.Err? {
      assert Resolve(conf).Err?;
      return Some(action.error);
    }
    var lines := LineRange(0, 0);
    if conf.lineNum != [] {
      var found := FindLines(conf.lineNum);
      if found.1.Some? {
        assert Resolve(conf).Err?;
        return found.1;
      }
      lines := found.0;
    }
    var plan := Plan(chars.value, action.value, lines);
    assert Resolve(conf) == Ok(plan);
    var sel := SelectionOf(conf, plan);
    var modFunc := ModFunc(plan.action);

    if conf.dryRun {
      var e := PrintChanges(os, input, sel, plan.marker, modFunc, fault);
      if e.Some? {
        return Some(ProcessFailed(e.value));
      }
    } else if conf.filename == [] {
      var e := PrintOutput(os, input, sel, plan.marker, modFunc, fault);
      if e.Some? {
        return Some(ProcessFailed(e.value));
      }
    } else {
      err := Commit(os, conf.filename, sel, plan.marker, modFunc, fault);
      return;
    }
    return None;
  }
}
