/**
 * The older file engine (internal/file), on the side of its merge conflict
 * that takes a dry-run flag: a line range only (no labels), the marker
 * chosen from the file extension alone, the same backup / temporary file /
 * rename protocol as the current engine, and "file:lines" entries
 * processed one after another with the map-keyed toggle.
 */
module LegacyFile {
  import opened Wrappers
  import opened GoStrings
  import GoPath
  import LegacyComment
  import opened FileSystem
  import ModFile

  type LineRange = ModFile.LineRange
  type Fault = ModFile.Fault

  datatype Error =
    | InvalidSyntax
    | InvalidRangeFormat
    | InvalidStartLine
    | InvalidEndLine
    | InvalidLineNumber
    | UnsupportedExtension(ext: string)
    | LineOutOfRange
    | OsFailure(fault: Fault)

  // ---------------------------------------------------------------------
  // The line selection
  // ---------------------------------------------------------------------

  /**
   * extractLines: "N" gives [N, N] for N >= 1, "N-M" with one '-' gives
   * [N, M] for 1 <= N <= M; every failure comes with (0, 0).
   */
  function ExtractLines(s: string): (r: (LineRange, Option<Error>))
    ensures r.1.None? ==> 1 <= r.0.start <= r.0.end
    ensures r.1.Some? ==> r.0 == ModFile.LineRange(0, 0)
  {
    if Contains(s, "-") then
      var parts := Split(s, '-');
      if |parts| != 2 then (ModFile.LineRange(0, 0), Some(InvalidRangeFormat))
      else
        var first := Atoi(parts[0]);
        if first.None? || first.value <= 0 then (ModFile.LineRange(0, 0), Some(InvalidStartLine))
        else
          var second := Atoi(parts[1]);
          if second.None? || second.value < first.value then (ModFile.LineRange(0, 0), Some(InvalidEndLine))
          else (ModFile.LineRange(first.value, second.value), None)
    else
      var single := Atoi(s);
      if single.None? || single.value <= 0 then (ModFile.LineRange(0, 0), Some(InvalidLineNumber))
      else (ModFile.LineRange(single.value, single.value), None)
  }

  /** extractLines and the current engine's findLines accept the same strings and select the same lines. */
  lemma ExtractAgreesWithFindLines(s: string)
    ensures ExtractLines(s).0 == ModFile.FindLines(s).0
    ensures ExtractLines(s).1.None? <==> ModFile.FindLines(s).1.None?
  {
  }

  /** "N-M" with 1 <= N <= M selects [N, M], and a single N >= 1 selects [N, N]. */
  lemma ExtractLinesAccepts(n: nat, m: nat)
    requires 1 <= n <= m <= MaxInt64
    ensures ExtractLines(Itoa(n) + "-" + Itoa(m)) == (ModFile.LineRange(n, m), None)
    ensures ExtractLines(Itoa(n)) == (ModFile.LineRange(n, n), None)
  {
    ModFile.FindLinesRange(n, m);
    ModFile.FindLinesSingle(n);
    ExtractAgreesWithFindLines(Itoa(n) + "-" + Itoa(m));
    ExtractAgreesWithFindLines(Itoa(n));
  }

  // ---------------------------------------------------------------------
  // The marker, by file extension
  // ---------------------------------------------------------------------

  /** The language table the older engine reads, keyed by display name. */
  const LanguageChars: map<string, string> := map[
    "GoLang" := "//", "JS" := "//", "Bash" := "#", "C++/C" := "//", "Java" := "//",
    "Pyhton" := "#", "Ruby" := "#", "Perl" := "#", "PHP" := "//", "Swift" := "//",
    "Kotlin" := "//", "R" := "#", "Haskell" := "--", "SQL" := "--", "Rust" := "//",
    "Scala" := "//", "Dart" := "//", "Objective-C" := "//", "MATLAB" := "%",
    "Lua" := "--", "Erlang" := "%", "Elixir" := "#", "TS" := "//", "VHDL" := "--",
    "Verilog" := "//"]

  /** The table key each supported extension looks up; ".swift" looks up "swift". */
  const ExtensionKeys: map<string, string> := map[
    ".go" := "GoLang", ".js" := "JS", ".sh" := "Bash", ".bash" := "Bash",
    ".cpp" := "C++/C", ".cc" := "C++/C", ".h" := "C++/C", ".c" := "C++/C",
    ".java" := "Java", ".py" := "Pyhton", ".rb" := "Ruby", ".pl" := "Perl",
    ".php" := "PHP", ".swift" := "swift", ".kt" := "Kotlin", ".kts" := "Kotlin",
    ".R" := "R", ".hs" := "Haskell", ".sql" := "SQL", ".rs" := "Rust",
    ".scala" := "Scala", ".dart" := "Dart", ".mm" := "Objective-C", ".m" := "MATLAB",
    ".lua" := "Lua", ".erl" := "Erlang", ".ex" := "Elixir", ".exs" := "Elixir",
    ".ts" := "TS", ".vhdl" := "VHDL", ".vhd" := "VHDL", ".v" := "Verilog", ".sv" := "Verilog"]

  /** selectCommentChars: the extension decides; a key missing from the table reads as "". */
  function SelectCommentChars(filename: string): (r: Result<string, Error>)
    ensures r.Ok? <==> GoPath.Ext(filename) in ExtensionKeys
    ensures r.Err? ==> r.error == UnsupportedExtension(GoPath.Ext(filename))
  {
    var ext := GoPath.Ext(filename);
    if ext in ExtensionKeys then
      var key := ExtensionKeys[ext];
      Ok(if key in LanguageChars then LanguageChars[key] else "")
    else Err(UnsupportedExtension(ext))
  }

  /** ".swift" is the only supported extension whose key the table lacks. */
  lemma OnlySwiftIsMissing()
    ensures forall e | e in ExtensionKeys :: ExtensionKeys[e] !in LanguageChars <==> e == ".swift"
  {
  }

  /** Every supported extension other than ".swift" yields a plain marker. */
  lemma SelectedMarkerShape(filename: string)
    requires SelectCommentChars(filename).Ok?
    ensures var m := SelectCommentChars(filename).value;
      if GoPath.Ext(filename) == ".swift" then m == "" else m in {"//", "#", "--", "%"}
  {
    var ext := GoPath.Ext(filename);
    OnlySwiftIsMissing();
    if ext != ".swift" {
      var v := LanguageChars[ExtensionKeys[ext]];
      assert v in LanguageChars.Values;
    }
  }

  /** A Swift source gets the empty marker and no error. */
  lemma SelectForSwift(name: string)
    ensures SelectCommentChars(name + ".swift") == Ok("")
  {
    GoPath.ExtOf(name, ".swift");
    assert ExtensionKeys[".swift"] == "swift";
    assert "swift" !in LanguageChars;
  }

  /** The older engine has no HTML entry: an HTML file is refused. */
  lemma SelectForHtml(name: string)
    ensures SelectCommentChars(name + ".html") == Err(UnsupportedExtension(".html"))
  {
    GoPath.ExtOf(name, ".html");
    assert ".html" !in ExtensionKeys;
  }

  // ---------------------------------------------------------------------
  // The scans
  // ---------------------------------------------------------------------

  /** The lines writeChanges writes: those numbered start..end transformed, the others copied. */
  function RangeRewrite(lines: seq<string>, range: LineRange, marker: string, modFunc: (string, string) -> string): (r: seq<string>)
    ensures |r| == |lines|
  {
    seq(|lines|, i requires 0 <= i < |lines| =>
      if range.start <= i + 1 <= range.end then modFunc(lines[i], marker) else lines[i])
  }

  /** The older scan writes what the current engine's scan writes with the same range and no labels. */
  lemma RangeRewriteAgrees(lines: seq<string>, range: LineRange, marker: string, modFunc: (string, string) -> string)
    ensures RangeRewrite(lines, range, marker, modFunc) == ModFile.Rewrite(lines, ModFile.Selection(range, "", ""), marker, modFunc)
  {
    var sel := ModFile.Selection(range, "", "");
    ModFile.RangeModeOutput(ModFile.Init, lines, sel, marker, modFunc);
  }

  lemma RangeRewriteSnoc(lines: seq<string>, line: string, range: LineRange, marker: string, modFunc: (string, string) -> string)
    ensures RangeRewrite(lines + [line], range, marker, modFunc) ==
      RangeRewrite(lines, range, marker, modFunc)
      + [if range.start <= |lines| + 1 <= range.end then modFunc(line, marker) else line]
  {
  }

  /** The outcome of writeChanges: the range check, then the scanner's error, then the flush's. */
  function WriteVerdict(lineCount: nat, range: LineRange, fault: Option<Fault>): (r: Option<Error>)
    ensures r == Some(LineOutOfRange) <==> range.end > lineCount + 1
  {
    if range.end > lineCount + 1 then Some(LineOutOfRange)
    else if fault == Some(ModFile.Scan) then Some(OsFailure(ModFile.Scan))
    else if fault == Some(ModFile.Flush) then Some(OsFailure(ModFile.Flush))
    else None
  }

  /**
   * writeChanges: one output line per input line, the selected ones
   * transformed; the range is checked against the counter after the loop.
   */
  method WriteChanges(os: Os, input: seq<string>, tmp: string, range: LineRange, marker: string,
                      modFunc: (string, string) -> string, fault: Option<Fault>) returns (err: Option<Error>)
    modifies os
    ensures err == WriteVerdict(|input|, range, fault)
    ensures err.None? ==> os.files == old(os.files)[tmp := RangeRewrite(input, range, marker, modFunc)]
    ensures err.Some? ==> os.files == old(os.files)
    ensures os.stdout == old(os.stdout)
  {
    var currentLine := 1;
    var written: seq<string> := [];
    var i := 0;
    while i < |input|
      invariant 0 <= i <= |input|
      invariant currentLine == i + 1
      invariant written == RangeRewrite(input[..i], range, marker, modFunc)
      invariant os.files == old(os.files) && os.stdout == old(os.stdout)
    {
      var line := input[i];
      if range.start <= currentLine && currentLine <= range.end {
        line := modFunc(line, marker);
      }
      RangeRewriteSnoc(input[..i], input[i], range, marker, modFunc);
      assert input[..i + 1] == input[..i] + [input[i]];
      written := written + [line];
      currentLine := currentLine + 1;
      i := i + 1;
    }
    assert input[..i] == input;
    if range.end > currentLine {
      return Some(LineOutOfRange);
    }
    if fault == Some(ModFile.Scan) {
      return Some(OsFailure(ModFile.Scan));
    }
    if fault == Some(ModFile.Flush) {
      return Some(OsFailure(ModFile.Flush));
    }
    os.Write(tmp, written);
    return None;
  }

  /** The outcome of printChanges: the range check, then the scanner's error. */
  function PreviewVerdict(lineCount: nat, range: LineRange, fault: Option<Fault>): (r: Option<Error>)
    ensures r == Some(LineOutOfRange) <==> range.end > lineCount + 1
  {
    if range.end > lineCount + 1 then Some(LineOutOfRange)
    else if fault == Some(ModFile.Scan) then Some(OsFailure(ModFile.Scan))
    else None
  }

  /**
   * printChanges: prints "N: original -> modified" for every selected line,
   * in order, and changes no file.
   */
  method PrintChanges(os: Os, input: seq<string>, range: LineRange, marker: string,
                      modFunc: (string, string) -> string, fault: Option<Fault>) returns (err: Option<Error>)
    modifies os
    ensures err == PreviewVerdict(|input|, range, fault)
    ensures os.stdout == old(os.stdout) + ModFile.Window(input, range, marker, modFunc)
    ensures os.files == old(os.files)
  {
    var currentLine := 1;
    var i := 0;
    while i < |input|
      invariant 0 <= i <= |input|
      invariant currentLine == i + 1
      invariant os.stdout == old(os.stdout) + ModFile.Window(input[..i], range, marker, modFunc)
      invariant os.files == old(os.files)
    {
      var line := input[i];
      ghost var prefix := input[..i + 1];
      assert prefix[..i] == input[..i];
      ModFile.WindowSnoc(prefix, range, marker, modFunc);
      if range.start <= currentLine && currentLine <= range.end {
        var modified := modFunc(line, marker);
        os.Print(ModFile.Record(currentLine, line, modified));
        assert ModFile.RecordAt(prefix, i + 1, marker, modFunc) == ModFile.Record(currentLine, line, modified);
      }
      currentLine := currentLine + 1;
      i := i + 1;
    }
    assert input[..i] == input;
    if range.end > currentLine {
      return Some(LineOutOfRange);
    }
    if fault == Some(ModFile.Scan) {
      return Some(OsFailure(ModFile.Scan));
    }
    return None;
  }

  // ---------------------------------------------------------------------
  // ProcessFile
  // ---------------------------------------------------------------------

  /** The error createBackup reports, in this engine's terms. */
  function BackupError(e: ModFile.Error): Error {
    if e.OsFailure? then OsFailure(e.fault) else OsFailure(ModFile.CopyBackup)
  }

  /**
   * The outcome of the writing branch, in the order its steps run: the
   * backup, the temporary file and the rewind fail first; then
   * writeChanges reports the range check, the scanner and the flush; then
   * closing the input, closing the temporary file and the rename.
   */
  function CommitVerdict(lineCount: nat, range: LineRange, fault: Option<Fault>): (r: Option<Error>)
    ensures r == Some(LineOutOfRange) ==> range.end > lineCount + 1
    ensures r.Some? && r != Some(LineOutOfRange) ==> fault.Some? && r == Some(OsFailure(fault.value))
  {
    if fault.Some? && fault.value in {ModFile.OpenForBackup, ModFile.CreateBackupFile, ModFile.CopyBackup, ModFile.CreateTemp, ModFile.Seek}
    then Some(OsFailure(fault.value))
    else if WriteVerdict(lineCount, range, fault).Some? then WriteVerdict(lineCount, range, fault)
    else if fault.Some? && fault.value in {ModFile.CloseInput, ModFile.CloseTemp, ModFile.RenameTemp}
    then Some(OsFailure(fault.value))
    else None
  }

  /**
   * Without an OS failure the writing branch fails exactly when the range
   * ends past the line after the last one; an empty file is no error here.
   */
  lemma CommitSucceedsIffInRange(lineCount: nat, range: LineRange)
    ensures CommitVerdict(lineCount, range, None).None? <==> range.end <= lineCount + 1
    ensures CommitVerdict(lineCount, range, None).Some? ==> CommitVerdict(lineCount, range, None) == Some(LineOutOfRange)
  {
  }

  /**
   * The error ProcessFile reports for `file` against the files `m`: opening
   * the file first, then the dry run's or the writing branch's outcome.
   */
  function FileVerdict(m: map<string, seq<string>>, file: string, range: LineRange, dryRun: bool,
                       fault: Option<Fault>): (r: Option<Error>)
    ensures file !in m ==> r == Some(OsFailure(ModFile.OpenInput))
    ensures r == Some(LineOutOfRange) ==> file in m && range.end > |m[file]| + 1
    ensures r.Some? && r != Some(LineOutOfRange) && file in m ==> fault.Some? && r == Some(OsFailure(fault.value))
  {
    if file !in m || fault == Some(ModFile.OpenInput) then Some(OsFailure(ModFile.OpenInput))
    else if dryRun then PreviewVerdict(|m[file]|, range, fault)
    else CommitVerdict(|m[file]|, range, fault)
  }

  /**
   * Without an OS failure, a dry run and a writing run alike succeed exactly
   * when the file exists and the range ends at most one line past its last.
   */
  lemma FileSucceedsIffInRange(m: map<string, seq<string>>, file: string, range: LineRange, dryRun: bool)
    ensures FileVerdict(m, file, range, dryRun, None).None? <==> file in m && range.end <= |m[file]| + 1
    ensures file in m && range.end > |m[file]| + 1 ==> FileVerdict(m, file, range, dryRun, None) == Some(LineOutOfRange)
  {
    if file in m && !dryRun {
      CommitSucceedsIffInRange(|m[file]|, range);
    }
  }

  /**
   * The writing branch of ProcessFile: back up, create the temporary file,
   * rewind, rewrite into it, close both, rename it over the target and drop
   * the backup; each failure undoes what the source undoes.
   */
  method Commit(os: Os, filename: string, range: LineRange, marker: string,
                modFunc: (string, string) -> string, fault: Option<Fault>) returns (err: Option<Error>)
    requires filename in os.files
    modifies os
    ensures err == CommitVerdict(|old(os.files)[filename]|, range, fault)
    ensures fault == None && range.end <= |old(os.files)[filename]| + 1 ==> err.None?
    ensures err.Some? ==> ModFile.SameBesideScratch(os.files, old(os.files), filename)
    ensures err.Some? ==> filename in os.files && os.files[filename] == old(os.files)[filename]
    ensures err.None? ==>
      os.files == (old(os.files) - {ModFile.BackupName(filename), ModFile.TempName(filename)})
                    [filename := RangeRewrite(old(os.files)[filename], range, marker, modFunc)]
    ensures fault !in {Some(ModFile.OpenForBackup), Some(ModFile.CreateBackupFile), Some(ModFile.CopyBackup), Some(ModFile.CreateTemp), Some(ModFile.Seek)} ==>
      (err == Some(LineOutOfRange) <==> range.end > |old(os.files)[filename]| + 1)
    ensures err == Some(OsFailure(ModFile.CloseTemp)) ==>
      ModFile.BackupName(filename) in os.files && os.files[ModFile.BackupName(filename)] == old(os.files)[filename]
    ensures os.stdout == old(os.stdout)
  {
    ghost var orig := os.files;
    var input := os.files[filename];
    var backup := ModFile.BackupName(filename);
    var tmp := ModFile.TempName(filename);
    ModFile.ScratchNamesDiffer(filename);
    var backupErr := ModFile.CreateBackup(os, filename, backup, fault);
    if backupErr.Some? {
      if os.files != orig {
        ModFile.ScratchUpdate(orig, filename, backup, []);
      }
      return Some(BackupError(backupErr.value));
    }
    ModFile.ScratchUpdate(orig, filename, backup, input);
    if fault == Some(ModFile.CreateTemp) {
      ModFile.RollBack(os, filename, false, orig);
      return Some(OsFailure(ModFile.CreateTemp));
    }
    ghost var backedUp := os.files;
    os.Write(tmp, []);
    ModFile.ScratchUpdate(backedUp, filename, tmp, []);
    if fault == Some(ModFile.Seek) {
      ModFile.RollBack(os, filename, true, orig);
      return Some(OsFailure(ModFile.Seek));
    }
    ghost var created := os.files;
    err := WriteChanges(os, input, tmp, range, marker, modFunc, fault);
    if err.None? {
      ModFile.ScratchUpdate(created, filename, tmp, RangeRewrite(input, range, marker, modFunc));
    }
    if err.Some? || fault == Some(ModFile.CloseInput) {
      ModFile.RollBack(os, filename, true, orig);
      if err.None? {
        err := Some(OsFailure(ModFile.CloseInput));
      }
      return;
    }
    ghost var written := os.files;
    if fault == Some(ModFile.CloseTemp) {
      os.Remove(tmp);
      ModFile.ScratchRemove(written, filename, tmp);
      return Some(OsFailure(ModFile.CloseTemp));
    }
    if fault == Some(ModFile.RenameTemp) {
      ModFile.RollBack(os, filename, false, orig);
      return Some(OsFailure(ModFile.RenameTemp));
    }
    ModFile.Installed(written, orig, filename, RangeRewrite(input, range, marker, modFunc));
    var _ := os.Rename(tmp, filename);
    os.Remove(backup);
    return None;
  }

  /**
   * ProcessFile: a dry run prints the records and changes no file;
   * otherwise the file is rewritten through a backup and a temporary file.
   * Whatever fails, the target keeps its content and only the scratch files
   * may differ; on success the target holds RangeRewrite's lines.
   */
  method ProcessFile(os: Os, filename: string, range: LineRange, marker: string,
                     modFunc: (string, string) -> string, dryRun: bool, fault: Option<Fault>) returns (err: Option<Error>)
    modifies os
    ensures err == FileVerdict(old(os.files), filename, range, dryRun, fault)
    ensures filename !in old(os.files) || fault == Some(ModFile.OpenInput) ==>
      err == Some(OsFailure(ModFile.OpenInput)) && os.files == old(os.files) && os.stdout == old(os.stdout)
    ensures dryRun ==> os.files == old(os.files)
    ensures !dryRun ==> os.stdout == old(os.stdout)
    ensures dryRun && filename in old(os.files) && fault != Some(ModFile.OpenInput) ==>
      err == PreviewVerdict(|old(os.files)[filename]|, range, fault)
      && os.stdout == old(os.stdout) + ModFile.Window(old(os.files)[filename], range, marker, modFunc)
    ensures err.Some? ==> ModFile.SameBesideScratch(os.files, old(os.files), filename)
    ensures err.Some? && filename in old(os.files) ==> filename in os.files && os.files[filename] == old(os.files)[filename]
    ensures !dryRun && filename in old(os.files) && fault != Some(ModFile.OpenInput) ==>
      err == CommitVerdict(|old(os.files)[filename]|, range, fault)
    ensures !dryRun && filename in old(os.files) && fault == None && range.end <= |old(os.files)[filename]| + 1 ==> err.None?
    ensures !dryRun && err.None? ==>
      filename in old(os.files)
      && os.files == (old(os.files) - {ModFile.BackupName(filename), ModFile.TempName(filename)})
                       [filename := RangeRewrite(old(os.files)[filename], range, marker, modFunc)]
  {
    if filename !in os.files || fault == Some(ModFile.OpenInput) {
      return Some(OsFailure(ModFile.OpenInput));
    }
    if dryRun {
      err := PrintChanges(os, os.files[filename], range, marker, modFunc, fault);
      return;
    }
    err := Commit(os, filename, range, marker, modFunc, fault);
  }

  /** ProcessSingleFile: the range, then the marker, then ProcessFile with the caller's transform. */
  method ProcessSingleFile(os: Os, filename: string, lineStr: string, modFunc: (string, string) -> string,
                           dryRun: bool, fault: Option<Fault>) returns (err: Option<Error>)
    modifies os
    ensures ExtractLines(lineStr).1.Some? ==>
      err == ExtractLines(lineStr).1 && os.files == old(os.files) && os.stdout == old(os.stdout)
    ensures ExtractLines(lineStr).1.None? && SelectCommentChars(filename).Err? ==>
      err == Some(SelectCommentChars(filename).error) && os.files == old(os.files) && os.stdout == old(os.stdout)
    ensures ExtractLines(lineStr).1.None? && SelectCommentChars(filename).Ok? ==>
      err == FileVerdict(old(os.files), filename, ExtractLines(lineStr).0, dryRun, fault)
    ensures filename !in old(os.files) || fault == Some(ModFile.OpenInput) ==>
      err.Some? && os.files == old(os.files) && os.stdout == old(os.stdout)
    ensures dryRun ==> os.files == old(os.files)
    ensures !dryRun ==> os.stdout == old(os.stdout)
    ensures dryRun && ExtractLines(lineStr).1.None? && SelectCommentChars(filename).Ok?
            && filename in old(os.files) && fault != Some(ModFile.OpenInput) ==>
      os.stdout == old(os.stdout) + ModFile.Window(old(os.files)[filename], ExtractLines(lineStr).0,
                                                   SelectCommentChars(filename).value, modFunc)
    ensures err.Some? && filename in old(os.files) ==> filename in os.files && os.files[filename] == old(os.files)[filename]
    ensures !dryRun && err.None? ==>
      filename in old(os.files) && SelectCommentChars(filename).Ok?
      && os.files == (old(os.files) - {ModFile.BackupName(filename), ModFile.TempName(filename)})
                       [filename := RangeRewrite(old(os.files)[filename], ExtractLines(lineStr).0,
                                                 SelectCommentChars(filename).value, modFunc)]
  {
    var found := ExtractLines(lineStr);
    if found.1.Some? {
      return found.1;
    }
    var chars := SelectCommentChars(filename);
    if chars.Err? {
      return Some(chars.error);
    }
    err := ProcessFile(os, filename, found.0, chars.value, modFunc, dryRun, fault);
  }

  // ---------------------------------------------------------------------
  // "file:lines" entries
  // ---------------------------------------------------------------------

  /**
   * The transform processFileWithLines applies: the map-keyed toggle, with
   * the selected marker stored under "singleLine".
   */
  function LegacyToggle(line: string, marker: string): string {
    LegacyComment.ToggleComments(line, map[LegacyComment.SingleLineKey := marker])
  }

  /** What a well-formed entry names: the file, its line range and its marker. */
  datatype Entry = Entry(file: string, range: LineRange, marker: string)

  /**
   * The checks processFileWithLines makes before touching anything: a ':'
   * must be present and split the entry into exactly two parts, then the
   * range and the marker must be found.
   */
  function ParseEntry(fileInfo: string): (r: Result<Entry, Error>)
    ensures r.Ok? ==> ':' in fileInfo && |Split(fileInfo, ':')| == 2
    ensures r.Ok? ==> r.value.file == Split(fileInfo, ':')[0]
    ensures r.Ok? ==> ExtractLines(Split(fileInfo, ':')[1]) == (r.value.range, None)
    ensures r.Ok? ==> SelectCommentChars(r.value.file) == Ok(r.value.marker)
    ensures multiset(fileInfo)[':'] != 1 ==> r == Err(InvalidSyntax)
  {
    ContainsChar(fileInfo, ':');
    SplitCount(fileInfo, ':');
    if !Contains(fileInfo, ":") then Err(InvalidSyntax)
    else
      var sub := Split(fileInfo, ':');
      if |sub| != 2 then Err(InvalidSyntax)
      else
        var found := ExtractLines(sub[1]);
        if found.1.Some? then Err(found.1.value)
        else
          var chars := SelectCommentChars(sub[0]);
          if chars.Err? then Err(chars.error)
          else Ok(Entry(sub[0], found.0, chars.value))
  }

  /** "file:lines" with no other ':' is split where written and accepted when both halves are. */
  lemma ParseEntryOf(file: string, lines: string)
    requires ':' !in file && ':' !in lines
    requires GoPath.Ext(file) in ExtensionKeys && ExtractLines(lines).1.None?
    ensures ParseEntry(file + ":" + lines) == Ok(Entry(file, ExtractLines(lines).0, SelectCommentChars(file).value))
  {
    var entry := file + ":" + lines;
    assert Split(entry, ':') == [file, lines] by {
      assert entry == file + [':'] + lines;
      SplitAppend(file, ':', lines);
      SplitSingle(file, ':');
      SplitSingle(lines, ':');
    }
    assert Contains(entry, ":") by {
      assert entry[|file|] == ':';
      ContainsChar(entry, ':');
    }
  }

  /** The paths rewriting an entry's file may touch: the file and its two scratch files. */
  function Paths(e: Entry): set<string> {
    {e.file, ModFile.BackupName(e.file), ModFile.TempName(e.file)}
  }

  /** The paths an entry may touch: none when it fails its checks. */
  function EntryPaths(fileInfo: string): set<string> {
    match ParseEntry(fileInfo)
    case Ok(e) => Paths(e)
    case Err(_) => {}
  }

  /** Either outcome of ProcessFile leaves every path but the file and its scratch files alone. */
  lemma ProcessFileFrame(m1: map<string, seq<string>>, m2: map<string, seq<string>>, file: string, content: seq<string>)
    requires ModFile.SameBesideScratch(m1, m2, file)
      || m1 == (m2 - {ModFile.BackupName(file), ModFile.TempName(file)})[file := content]
    ensures SameOutside(m1, m2, {file, ModFile.BackupName(file), ModFile.TempName(file)})
  {
    var scratch := {ModFile.BackupName(file), ModFile.TempName(file)};
    forall p | p !in {file, ModFile.BackupName(file), ModFile.TempName(file)}
      ensures (p in m1 <==> p in m2) && (p in m1 ==> m1[p] == m2[p])
    {
      if !ModFile.SameBesideScratch(m1, m2, file) {
        assert p in m1 <==> p in m2 - scratch;
      }
    }
  }

  /**
   * The error processFileWithLines reports for one entry against the files
   * `m`: the entry's own checks first, then opening its file, then the dry
   * run's or the writing branch's outcome.
   */
  function EntryVerdict(m: map<string, seq<string>>, fileInfo: string, dryRun: bool, fault: Option<Fault>): (r: Option<Error>)
    ensures ParseEntry(fileInfo).Err? ==> r == Some(ParseEntry(fileInfo).error)
    ensures r.None? ==> ParseEntry(fileInfo).Ok? && ParseEntry(fileInfo).value.file in m
  {
    match ParseEntry(fileInfo)
    case Err(e) => Some(e)
    case Ok(e) => FileVerdict(m, e.file, e.range, dryRun, fault)
  }

  /** The files after a well-formed entry's file was rewritten: its scratch files gone, its lines toggled. */
  function AfterEntry(m: map<string, seq<string>>, e: Entry): (r: map<string, seq<string>>)
    requires e.file in m
    ensures e.file in r && r[e.file] == RangeRewrite(m[e.file], e.range, e.marker, LegacyToggle)
  {
    (m - {ModFile.BackupName(e.file), ModFile.TempName(e.file)})[e.file := RangeRewrite(m[e.file], e.range, e.marker, LegacyToggle)]
  }

  /**
   * One entry went through without error, taking the files from `m0` to
   * `m1`: a dry run leaves them as they were, otherwise its file is rewritten.
   */
  ghost predicate Processed(m0: map<string, seq<string>>, m1: map<string, seq<string>>, fileInfo: string, dryRun: bool) {
    ParseEntry(fileInfo).Ok? && Applied(m0, m1, ParseEntry(fileInfo).value, dryRun)
  }

  /** The well-formed entry `e` went through, taking the files from `m0` to `m1`. */
  ghost predicate Applied(m0: map<string, seq<string>>, m1: map<string, seq<string>>, e: Entry, dryRun: bool) {
    e.file in m0 && m1 == (if dryRun then m0 else AfterEntry(m0, e))
  }

  /**
   * processFileWithLines: an entry that fails the checks changes nothing;
   * otherwise its file goes through ProcessFile with the toggle, and no
   * path but that file and its scratch files changes.
   */
  method ProcessFileWithLines(os: Os, fileInfo: string, dryRun: bool, fault: Option<Fault>) returns (err: Option<Error>)
    modifies os
    ensures err == EntryVerdict(old(os.files), fileInfo, dryRun, fault)
    ensures err.None? ==> Processed(old(os.files), os.files, fileInfo, dryRun)
    ensures ParseEntry(fileInfo).Err? ==>
      err == Some(ParseEntry(fileInfo).error) && os.files == old(os.files) && os.stdout == old(os.stdout)
    ensures dryRun ==> os.files == old(os.files)
    ensures !dryRun ==> os.stdout == old(os.stdout)
    ensures ParseEntry(fileInfo).Ok? && (ParseEntry(fileInfo).value.file !in old(os.files) || fault == Some(ModFile.OpenInput)) ==>
      os.files == old(os.files) && os.stdout == old(os.stdout)
    ensures dryRun && ParseEntry(fileInfo).Ok? && ParseEntry(fileInfo).value.file in old(os.files)
            && fault != Some(ModFile.OpenInput) ==>
      var e := ParseEntry(fileInfo).value;
      os.stdout == old(os.stdout) + ModFile.Window(old(os.files)[e.file], e.range, e.marker, LegacyToggle)
    ensures SameOutside(os.files, old(os.files), EntryPaths(fileInfo))
    ensures err.None? ==> ParseEntry(fileInfo).Ok?
    ensures ParseEntry(fileInfo).Ok? && err.Some? && ParseEntry(fileInfo).value.file in old(os.files) ==>
      var file := ParseEntry(fileInfo).value.file;
      file in os.files && os.files[file] == old(os.files)[file]
    ensures !dryRun && err.None? ==>
      var e := ParseEntry(fileInfo).value;
      e.file in old(os.files)
      && os.files == (old(os.files) - {ModFile.BackupName(e.file), ModFile.TempName(e.file)})
                       [e.file := RangeRewrite(old(os.files)[e.file], e.range, e.marker, LegacyToggle)]
  {
    var entry := ParseEntry(fileInfo);
    if entry.Err? {
      assert EntryPaths(fileInfo) == {};
      return Some(entry.error);
    }
    var e := entry.value;
    ghost var before := os.files;
    err := ProcessFile(os, e.file, e.range, e.marker, LegacyToggle, dryRun, fault);
    if dryRun {
      assert os.files == before;
    } else if err.Some? {
      ProcessFileFrame(os.files, before, e.file, []);
    } else {
      ProcessFileFrame(os.files, before, e.file, RangeRewrite(before[e.file], e.range, e.marker, LegacyToggle));
    }
  }

  /** The paths the first `n` entries may touch. */
  function Touched(entries: seq<string>, n: nat): set<string>
    requires n <= |entries|
  {
    if n == 0 then {} else Touched(entries, n - 1) + EntryPaths(entries[n - 1])
  }

  /** The two maps agree outside `paths`: the same paths exist there, with the same contents. */
  ghost predicate SameOutside(m1: map<string, seq<string>>, m2: map<string, seq<string>>, paths: set<string>) {
    forall p :: p !in paths ==> (p in m1 <==> p in m2) && (p in m1 ==> m1[p] == m2[p])
  }

  /** One more entry processed: the paths touched so far grow by that entry's paths. */
  lemma TouchedStep(m0: map<string, seq<string>>, m1: map<string, seq<string>>, m2: map<string, seq<string>>,
                    entries: seq<string>, i: nat)
    requires i < |entries|
    requires SameOutside(m1, m0, Touched(entries, i))
    requires SameOutside(m2, m1, EntryPaths(entries[i]))
    ensures SameOutside(m2, m0, Touched(entries, i + 1))
  {
    assert Touched(entries, i + 1) == Touched(entries, i) + EntryPaths(entries[i]);
  }

  /**
   * The parsed entries `es` went through one after another: entry k met
   * the files `states[k]` and left `states[k + 1]`.
   */
  ghost predicate Trace(states: seq<map<string, seq<string>>>, es: seq<Entry>, dryRun: bool)
    requires |states| == |es| + 1
  {
    forall k | 0 <= k < |es| :: StepAt(states, es, dryRun, k)
  }

  /** Entry `k` of the trace took the files `states[k]` to `states[k + 1]`. */
  ghost predicate StepAt(states: seq<map<string, seq<string>>>, es: seq<Entry>, dryRun: bool, k: int)
    requires |states| == |es| + 1 && 0 <= k < |es|
  {
    Applied(states[k], states[k + 1], es[k], dryRun)
  }

  /** A trace grows by one entry that went through. */
  lemma TraceStep(states: seq<map<string, seq<string>>>, es: seq<Entry>, dryRun: bool,
                  e: Entry, next: map<string, seq<string>>)
    requires |states| == |es| + 1 && Trace(states, es, dryRun)
    requires Applied(states[|es|], next, e, dryRun)
    ensures Trace(states + [next], es + [e], dryRun)
  {
    var longer := states + [next];
    forall k | 0 <= k < |es| + 1
      ensures StepAt(longer, es + [e], dryRun, k)
    {
      assert longer[k] == states[k];
      if k < |es| {
        assert longer[k + 1] == states[k + 1];
        assert StepAt(states, es, dryRun, k);
      }
    }
  }

  /** No two of the entries share a path: a file, or one of the files' scratch files. */
  ghost predicate Disjoint(es: seq<Entry>) {
    forall j, k | 0 <= j < k < |es| :: Paths(es[j]) !! Paths(es[k])
  }

  /** A path none of the first `n` entries may touch is the same after them as before. */
  lemma {:induction false} TraceKeeps(states: seq<map<string, seq<string>>>, es: seq<Entry>, dryRun: bool, n: nat, p: string)
    requires |states| == |es| + 1 && n <= |es| && Trace(states, es, dryRun)
    requires forall j | 0 <= j < n :: p !in Paths(es[j])
    ensures p in states[n] <==> p in states[0]
    ensures p in states[0] ==> states[n][p] == states[0][p]
  {
    if n > 0 {
      TraceKeeps(states, es, dryRun, n - 1, p);
      assert StepAt(states, es, dryRun, n - 1);
      assert p !in Paths(es[n - 1]);
    }
  }

  /** The entry's file was in `m0` and holds, in `m1`, the entry's rewrite of its lines in `m0`. */
  ghost predicate Rewritten(m0: map<string, seq<string>>, m1: map<string, seq<string>>, e: Entry) {
    e.file in m0 && e.file in m1 && m1[e.file] == RangeRewrite(m0[e.file], e.range, e.marker, LegacyToggle)
  }

  /**
   * A writing run over entries with disjoint paths: after the first `n`
   * entries, entry `k` among them finds its file holding its rewrite of
   * the file's lines before the run.
   */
  lemma {:induction false} TraceRewritesAt(states: seq<map<string, seq<string>>>, es: seq<Entry>, n: nat, k: nat)
    requires |states| == |es| + 1 && k < n <= |es|
    requires Trace(states, es, false) && Disjoint(es)
    ensures Rewritten(states[0], states[n], es[k])
  {
    var e := es[k];
    assert StepAt(states, es, false, n - 1);
    if k == n - 1 {
      forall j | 0 <= j < k
        ensures e.file !in Paths(es[j])
      {
        assert Paths(es[j]) !! Paths(es[k]);
      }
      TraceKeeps(states, es, false, k, e.file);
    } else {
      TraceRewritesAt(states, es, n - 1, k);
      assert Paths(es[k]) !! Paths(es[n - 1]);
      assert e.file in Paths(e);
    }
  }

  /** A writing run over entries with disjoint paths leaves every entry's file holding its rewrite. */
  lemma TraceRewrites(states: seq<map<string, seq<string>>>, es: seq<Entry>)
    requires |states| == |es| + 1 && Trace(states, es, false) && Disjoint(es)
    ensures forall k | 0 <= k < |es| :: Rewritten(states[0], states[|es|], es[k])
  {
    forall k | 0 <= k < |es|
      ensures Rewritten(states[0], states[|es|], es[k])
    {
      TraceRewritesAt(states, es, |es|, k);
    }
  }

  /**
   * The entries before `|es|` parse to `es`, and each reported no error
   * against the files it met.
   */
  ghost predicate Parsed(states: seq<map<string, seq<string>>>, es: seq<Entry>, entries: seq<string>, dryRun: bool,
                         faultAt: nat -> Option<Fault>)
    requires |states| == |es| + 1 && |es| <= |entries|
  {
    forall k | 0 <= k < |es| :: ParsedAt(states, es, entries, dryRun, faultAt, k)
  }

  /** Entry `k` parses to `es[k]` and reported no error against the files `states[k]`. */
  ghost predicate ParsedAt(states: seq<map<string, seq<string>>>, es: seq<Entry>, entries: seq<string>, dryRun: bool,
                           faultAt: nat -> Option<Fault>, k: int)
    requires |states| == |es| + 1 && |es| <= |entries| && 0 <= k < |es|
  {
    ParseEntry(entries[k]) == Ok(es[k]) && EntryVerdict(states[k], entries[k], dryRun, faultAt(k)) == None
  }

  /** One more entry parsed and went through without error. */
  lemma ParsedStep(states: seq<map<string, seq<string>>>, es: seq<Entry>, entries: seq<string>, dryRun: bool,
                   faultAt: nat -> Option<Fault>, e: Entry, next: map<string, seq<string>>)
    requires |states| == |es| + 1 && |es| < |entries| && Parsed(states, es, entries, dryRun, faultAt)
    requires ParseEntry(entries[|es|]) == Ok(e) && EntryVerdict(states[|es|], entries[|es|], dryRun, faultAt(|es|)) == None
    ensures Parsed(states + [next], es + [e], entries, dryRun, faultAt)
  {
    var longer := states + [next];
    forall k | 0 <= k < |es| + 1
      ensures ParsedAt(longer, es + [e], entries, dryRun, faultAt, k)
    {
      assert longer[k] == states[k];
      if k < |es| {
        assert ParsedAt(states, es, entries, dryRun, faultAt, k);
      }
    }
  }

  /**
   * A run that stopped at a failing entry, which changed only `failed`:
   * when no earlier entry owns a path in `failed`, their rewrites remain.
   */
  lemma KeptAfterFailure(states: seq<map<string, seq<string>>>, es: seq<Entry>, final: map<string, seq<string>>,
                         failed: set<string>)
    requires |states| == |es| + 1 && Trace(states, es, false) && Disjoint(es)
    requires SameOutside(final, states[|es|], failed)
    requires forall k | 0 <= k < |es| :: Paths(es[k]) !! failed
    ensures forall k | 0 <= k < |es| :: Rewritten(states[0], final, es[k])
  {
    TraceRewrites(states, es);
    forall k | 0 <= k < |es|
      ensures Rewritten(states[0], final, es[k])
    {
      assert es[k].file in Paths(es[k]);
    }
  }

  /**
   * One turn of ProcessMultipleFiles' loop: entry `i` goes through
   * processFileWithLines against the files `states[i]` it meets.  On
   * success the trace grows by what the entry parses to; on failure the
   * entry's own verdict is reported, and the rewrites of earlier entries
   * whose paths it does not touch stay in place.
   */
  method ProcessEntry(os: Os, entries: seq<string>, i: nat, dryRun: bool, faultAt: nat -> Option<Fault>,
                      ghost states: seq<map<string, seq<string>>>, ghost parsed: seq<Entry>)
      returns (err: Option<Error>, ghost e: Entry)
    requires i < |entries| && |parsed| == i && |states| == i + 1 && states[i] == os.files
    requires Parsed(states, parsed, entries, dryRun, faultAt) && Trace(states, parsed, dryRun)
    modifies os
    ensures SameOutside(os.files, states[i], EntryPaths(entries[i]))
    ensures dryRun ==> os.files == states[i]
    ensures err.None? ==>
      Parsed(states + [os.files], parsed + [e], entries, dryRun, faultAt) && Trace(states + [os.files], parsed + [e], dryRun)
    ensures err.Some? ==> err == EntryVerdict(states[i], entries[i], dryRun, faultAt(i))
    ensures err.Some? && ParseEntry(entries[i]).Err? ==> err == Some(ParseEntry(entries[i]).error)
    ensures err.Some? && !dryRun && Disjoint(parsed) && (forall k | 0 <= k < i :: Paths(parsed[k]) !! EntryPaths(entries[i])) ==>
      forall k | 0 <= k < i :: Rewritten(states[0], os.files, parsed[k])
  {
    err := ProcessFileWithLines(os, entries[i], dryRun, faultAt(i));
    if err.Some? {
      if !dryRun && Disjoint(parsed) && (forall k | 0 <= k < i :: Paths(parsed[k]) !! EntryPaths(entries[i])) {
        KeptAfterFailure(states, parsed, os.files, EntryPaths(entries[i]));
      }
      e := Entry([], ModFile.LineRange(0, 0), []);
      return;
    }
    e := ParseEntry(entries[i]).value;
    ParsedStep(states, parsed, entries, dryRun, faultAt, e, os.files);
    TraceStep(states, parsed, dryRun, e, os.files);
  }

  /**
   * ProcessMultipleFiles: the comma-separated entries are processed left to
   * right and the first error stops the loop (what was already rewritten
   * stays rewritten).  The ghost results trace the run: `stoppedAt` is the
   * index of the entry that failed, or the entry count; `parsed` holds what
   * the entries before it parse to, and `states[k]` the files entry k met.
   * Every entry before `stoppedAt` went through as processFileWithLines
   * promises; the failing one reports its own verdict and changes nothing
   * but its file's scratch files.  When the entries name different files,
   * each file named before `stoppedAt` ends up holding its rewrite.
   */
  method ProcessMultipleFiles(os: Os, filename: string, dryRun: bool, faultAt: nat -> Option<Fault>)
      returns (err: Option<Error>, ghost stoppedAt: nat, ghost parsed: seq<Entry>, ghost states: seq<map<string, seq<string>>>)
    modifies os
    ensures var entries := Split(filename, ',');
      stoppedAt <= |entries| && (err.None? <==> stoppedAt == |entries|)
    ensures |parsed| == stoppedAt && |states| == stoppedAt + 1 && states[0] == old(os.files)
    ensures Parsed(states, parsed, Split(filename, ','), dryRun, faultAt)
    ensures Trace(states, parsed, dryRun)
    ensures err.None? ==> os.files == states[stoppedAt]
    ensures var entries := Split(filename, ',');
      stoppedAt < |entries| ==>
        err == EntryVerdict(states[stoppedAt], entries[stoppedAt], dryRun, faultAt(stoppedAt))
        && SameOutside(os.files, states[stoppedAt], EntryPaths(entries[stoppedAt]))
        && (ParseEntry(entries[stoppedAt]).Err? ==> err == Some(ParseEntry(entries[stoppedAt]).error))
    ensures var entries := Split(filename, ',');
      var reached := if stoppedAt < |entries| then stoppedAt + 1 else stoppedAt;
      SameOutside(os.files, old(os.files), Touched(entries, reached))
    ensures var entries := Split(filename, ',');
      var failed := if stoppedAt < |entries| then EntryPaths(entries[stoppedAt]) else {};
      !dryRun && Disjoint(parsed) && (forall k | 0 <= k < stoppedAt :: Paths(parsed[k]) !! failed) ==>
        forall k | 0 <= k < stoppedAt :: Rewritten(old(os.files), os.files, parsed[k])
    ensures dryRun ==> os.files == old(os.files)
  {
    var entries := Split(filename, ',');
    states := [os.files];
    parsed := [];
    var i := 0;
    while i < |entries|
      invariant 0 <= i <= |entries|
      invariant |parsed| == i && |states| == i + 1 && states[0] == old(os.files) && states[i] == os.files
      invariant Parsed(states, parsed, entries, dryRun, faultAt)
      invariant Trace(states, parsed, dryRun)
      invariant SameOutside(os.files, old(os.files), Touched(entries, i))
      invariant dryRun ==> os.files == old(os.files)
    {
      ghost var before := os.files;
      ghost var e;
      err, e := ProcessEntry(os, entries, i, dryRun, faultAt, states, parsed);
      assert SameOutside(os.files, old(os.files), Touched(entries, i + 1)) by {
        TouchedStep(old(os.files), before, os.files, entries, i);
      }
      if err.Some? {
        return err, i, parsed, states;
      }
      states := states + [os.files];
      parsed := parsed + [e];
      i := i + 1;
    }
    if !dryRun && Disjoint(parsed) {
      TraceRewrites(states, parsed);
    }
    return None, i, parsed, states;
  }
}
