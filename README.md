# tgcom, the line-commenting core, in Dafny

tgcom comments, uncomments or toggles comments on selected lines of source
files. A selection is a single line "N", a range "N-M", or the lines between
a start label and an end label. The marker is chosen from the language name
or from the file extension. A run can rewrite the file in place (through a
`.bak` backup and a `.tmp` file that is renamed over it), preview the changes
(a dry run), or rewrite standard input to standard output.

This project models that core and proves properties of the model:

- `Commenter` (`commenter.dfy`): the line transforms of
  utils/commenter/commenter.go. The HTML marker `<!-- -->` wraps a line;
  every other marker prefixes it.
- `ModFile` (`modfile.dfy`): the current file engine, utils/modfile/modfile.go.
  It covers the choice of action, marker and lines, and the three
  line-by-line scans. Each scan is a `method` with a loop, proved equal to a
  fold function (`Run`, `PreviewRun`). `ChangeFile` is the
  backup / temporary file / rename protocol, with its undo steps.
- `LegacyFile` (`legacy_file.dfy`) and `LegacyComment` (`legacy_comment.dfy`):
  the older engine, internal/file/file.go and internal/comment/comment.go.
  file.go holds an unresolved merge conflict; the model follows the side that
  takes a `dryRun` flag.
- `LabelInputModel` (`label_input.dfy`): the TUI text box of
  utils/tui/modelutils/text.go. This covers `validateInput` and the key
  handling of `Update`. `Update` has a value receiver, so the box is a value
  and `Update` is a function.
- `SelectorUtils` (`selector_utils.dfy`) and `FilesSelectorUtils`
  (`files_selector_utils.dfy`): `Contains`, `Remove` and `GetParentDirectory`
  of utils/tui/modelutils/selectorutils.go and of its copy in
  tui-tgcom/files_selector/utils/utils.go.
- `SshUtils` (`ssh_utils.dfy`): `ParseSSHURL` and `validateDirectory` of
  utils/sshutils/ssh.go.
- Supporting modules:
  - `GoStrings` and `GoPath` model the Go library functions the core calls
    (`strings.TrimSpace`, `strings.Split`, `strconv.Atoi`,
    `filepath.Ext`/`Clean`/`Dir`, and so on).
  - `FileSystem` is a class `Os` holding the files, as line sequences, and
    the standard output written so far.
  - `Wrappers` holds `Option` and `Result`.

The operating system's failures are not random here. Each operation takes a
`fault: Option<Fault>` parameter that names the step at which the OS fails,
if any. A file is the sequence of lines a `bufio.Scanner` yields.

Several behaviours of the code are modelled as written, and lemmas pin them
down:

- The current engine's C-family extensions look up the key "C". The
  lower-case table lacks that key, so the marker is "" and there is no error
  (`ModFile.SelectForCSource`, `ModFile.MissingKeysAreTheCFamily`).
- The older engine looks up "swift" in a table keyed "Swift", with the same
  effect (`LegacyFile.SelectForSwift`). It has no HTML entry on the modelled
  side of the conflict (`LegacyFile.SelectForHtml`).
- With no labels and an empty input, the scans report "start label not
  found" (`ModFile.RangeModeVerdict`).
- An HTML line without the closing `-->` is uncommented as if `<!-- -->` were
  a plain prefix (`Commenter.HtmlFallsThroughToPrefix`).
- `GetParentDirectory("/")` returns "/" with no error. The repository's test
  (selectorutils_test.go) expects an error there. The model follows the code
  (`SelectorUtils.ParentOfRoot`).

## Model

| member | source | states |
|---|---|---|
| Commenter.Comment | utils/commenter/commenter.go:6-12 | no contract of its own; CommentRoundTrip, WrappedShape and WrappedTrimmed state what it produces |
| Commenter.UncommentHtml | utils/commenter/commenter.go:19-34 | no contract of its own; HtmlUnwrapOpen, HtmlUnwrapClose and HtmlUnwrap state what the two pairs of replacements remove |
| Commenter.Uncomment | utils/commenter/commenter.go:15-45 | a line that neither starts with the marker (once trimmed) nor carries the HTML envelope comes back unchanged |
| Commenter.UncommentSpacedCase | utils/commenter/commenter.go:37-41 | a trimmed line starting with marker + space loses the first occurrence of marker + space |
| Commenter.UncommentBareCase | utils/commenter/commenter.go:37-43 | a trimmed line starting with the marker but not marker + space loses the first occurrence of the bare marker |
| Commenter.UncommentIndented | utils/commenter/commenter.go:37-41 | uncommenting indent + marker + space + text removes exactly the marker and its space and keeps the indentation |
| Commenter.UncommentBare | utils/commenter/commenter.go:37-43 | uncommenting indent + marker + text (text not starting with a space, or blank) removes only the marker |
| Commenter.CommentRoundTrip | utils/commenter/commenter.go:6-45 | with a plain marker, Uncomment(Comment(l)) == l for every non-blank line |
| Commenter.CommentRoundTripBlank | utils/commenter/commenter.go:6-45 | for a blank line the round trip keeps the space Comment added |
| Commenter.ToggleComments | utils/commenter/commenter.go:48-64 | no contract of its own; ToggleDispatch, HtmlDispatch, ToggleUncommented, ToggleCommented and HtmlToggleTwice state its branches and round trips |
| Commenter.ToggleDispatch | utils/commenter/commenter.go:59-63 | with a plain marker, Toggle uncomments exactly the lines whose trimmed form starts with the marker and comments all others |
| Commenter.ToggleUncommented | utils/commenter/commenter.go:48-64 | an uncommented non-blank line is commented by Toggle, and a second Toggle restores it |
| Commenter.ToggleCommented | utils/commenter/commenter.go:48-64 | toggling an indented commented line removes the marker and its space and keeps the indentation |
| Commenter.WrappedShape | utils/commenter/commenter.go:8-10 | an HTML-commented line starts with `<!-- ` and ends with ` -->` |
| Commenter.WrappedTrimmed | utils/commenter/commenter.go:8-10 | an HTML-commented line has no white space at either end |
| Commenter.HtmlDispatch | utils/commenter/commenter.go:52-57 | with the HTML marker, Toggle unwraps exactly the lines whose trimmed form has the full envelope and wraps all others |
| Commenter.HtmlUnwrapOpen | utils/commenter/commenter.go:22-25 | on a wrapped line, the two replacements remove the opening delimiter and nothing else |
| Commenter.HtmlUnwrapClose | utils/commenter/commenter.go:28-31 | the two replacements remove the closing delimiter and nothing else |
| Commenter.HtmlUnwrap | utils/commenter/commenter.go:19-34 | the HTML branch of Uncomment gives back a line holding neither delimiter |
| Commenter.HtmlRoundTrip | utils/commenter/commenter.go:6-35 | Uncomment(Comment(l)) == l with the HTML marker, for l holding neither delimiter |
| Commenter.HtmlToggleTwice | utils/commenter/commenter.go:48-57 | with the HTML marker, Toggle wraps such a line and a second Toggle unwraps it |
| Commenter.HtmlFallsThroughToPrefix | utils/commenter/commenter.go:19-43 | an HTML line lacking the closing `-->` loses `<!-- -->` and its space as a plain prefix |
| LegacyComment.Comment | internal/comment/comment.go:6-8 | no contract of its own; RoundTrip and RoundTripBlank state what Uncomment gives back from it |
| LegacyComment.Uncomment | internal/comment/comment.go:11-13 | no contract of its own; RoundTrip and RoundTripBlank state that it undoes Comment up to trailing white space |
| LegacyComment.ToggleComments | internal/comment/comment.go:16-23 | no contract of its own; ToggleCommented, ToggleUncommentedAgrees, ToggleBareMarkerIsIdentity and ToggleMissingKey state its cases |
| LegacyComment.RoundTrip | internal/comment/comment.go:6-13 | Uncomment(Comment(l)) is l without its trailing white space, for a non-blank line |
| LegacyComment.RoundTripBlank | internal/comment/comment.go:6-13 | on a blank line the round trip leaves the bare marker |
| LegacyComment.ToggleCommented | internal/comment/comment.go:16-23 | toggling an indented commented line drops the indentation too, unlike the current commenter which keeps it |
| LegacyComment.ToggleUncommentedAgrees | internal/comment/comment.go:16-23 | on a line that is not commented, both engines prepend marker + space |
| LegacyComment.ToggleBareMarkerIsIdentity | internal/comment/comment.go:18-19 | a trimmed line with the marker not followed by a space is returned unchanged |
| LegacyComment.ToggleMissingKey | internal/comment/comment.go:16-23 | without a "singleLine" key the marker is "" and Toggle only trims the line |
| ModFile.SetModFunc | utils/modfile/modfile.go:27-42 | an action is accepted iff it is "comment", "uncomment", "toggle" or ""; any other is InvalidAction |
| ModFile.SetModFuncNames | utils/modfile/modfile.go:27-42 | each name picks its transform, "" picks toggle, and names are case-sensitive |
| ModFile.FindLines | utils/modfile/modfile.go:307-330 | an accepted selection satisfies 1 <= start <= end within int64; every refusal comes with (0, 0) |
| ModFile.FindLinesSingle | utils/modfile/modfile.go:323-328 | "N" with N >= 1 selects [N, N] |
| ModFile.FindLinesRange | utils/modfile/modfile.go:308-321 | "N-M" with 1 <= N <= M selects [N, M] |
| ModFile.FindLinesDescending | utils/modfile/modfile.go:317-320 | "N-M" with M < N is refused as an invalid end line |
| ModFile.FindLinesNonPositive | utils/modfile/modfile.go:308-325 | "-N" is a range with an empty start (invalid start line) and "0" is refused |
| ModFile.FindLinesOneDash | utils/modfile/modfile.go:308-312 | every accepted range holds exactly one '-' |
| ModFile.SelectCommentChars | utils/modfile/modfile.go:332-403 | a language name wins and is accepted iff its lower-case form is in the table; otherwise the extension is accepted iff it is listed; with neither it is an error |
| ModFile.TableMarkersWellFormed | utils/modfile/modfile.go:406-434 | every marker in the table is a plain space-free prefix or the HTML marker |
| ModFile.MissingKeysAreTheCFamily | utils/modfile/modfile.go:351-352 | the listed extensions whose key is missing from the table are exactly .cpp, .cc, .h and .c |
| ModFile.SelectedMarkerShape | utils/modfile/modfile.go:332-403 | a selected marker is plain or HTML, except "" for a C-family file chosen by extension |
| ModFile.SelectByMixedCaseName | utils/modfile/modfile.go:333-339 | the language name is lower-cased before the lookup ("GoLang" gives "//") |
| ModFile.SelectForCSource | utils/modfile/modfile.go:351-352 | a .c file gets the empty marker and no error |
| ModFile.SelectForUnknownExtension | utils/modfile/modfile.go:397-398 | an unlisted extension is an error naming it |
| ModFile.ShouldProcessLine | utils/modfile/modfile.go:147-152 | no contract of its own; RangeModeOutput (range mode) and InsideSection / OutsideSection (label mode) state which lines it selects |
| ModFile.Step | utils/modfile/modfile.go:163-184 | one scan step advances the line counter by one and never clears a found flag |
| ModFile.Run | utils/modfile/modfile.go:163-184 | the scan yields one output line per input line and counts every line |
| ModFile.RunAppend | utils/modfile/modfile.go:163-184 | scanning a + b is scanning a, then b from where a left off |
| ModFile.Rewrite | utils/modfile/modfile.go:163-184 | no contract of its own; RangeModeOutput and LabelSection state the lines it writes, and RunAppend how it composes |
| ModFile.RangeModeOutput | utils/modfile/modfile.go:163-184 | without both labels, exactly the lines numbered start..end are transformed and every other line is copied |
| ModFile.OutsideSection | utils/modfile/modfile.go:163-184 | before the start label, lines are copied and the section stays closed |
| ModFile.InsideSection | utils/modfile/modfile.go:163-184 | inside the section, every line is transformed until one holds the end label |
| ModFile.LabelSection | utils/modfile/modfile.go:163-195 | in label mode, with lines after the end label that hold no start label, the start-label and end-label lines and everything outside them are kept, exactly the lines between them are transformed, and no error is reported |
| ModFile.CheckScan | utils/modfile/modfile.go:186-195 | no contract of its own; OutOfRangeIff, EmptyLabelsFound and RangeModeVerdict state when each error is reported |
| ModFile.WriteVerdict | utils/modfile/modfile.go:186-201 | no contract of its own; WriteChanges reports it, and CommitWithoutFault states it without a failing step |
| ModFile.OutOfRangeIff | utils/modfile/modfile.go:186-188 | "out of range" is reported iff no label is given and the range ends beyond the line after the last |
| ModFile.EmptyLabelsFound | utils/modfile/modfile.go:174-177 | with no labels, both found flags say whether any line was read (the empty label occurs in every line) |
| ModFile.RangeModeVerdict | utils/modfile/modfile.go:186-195 | the verdict in range mode: out of range, else "start label not found" for an empty input, else success |
| ModFile.PreviewStep | utils/modfile/modfile.go:211-231 | a preview step advances the counter, never clears a found flag, and prints at most one record |
| ModFile.PreviewRun | utils/modfile/modfile.go:211-231 | the preview prints at most one record per line and counts every line |
| ModFile.PreviewVerdict | utils/modfile/modfile.go:233-244 | no contract of its own; PrintChanges reports it, and RangePastEndFails states the range refusal for a dry run |
| ModFile.OutputVerdict | utils/modfile/modfile.go:272-276 | no contract of its own; PrintOutput reports it, and RangePastEndFails states the range refusal on standard input |
| ModFile.Window | utils/modfile/modfile.go:211-231 | no contract of its own; PreviewRangeIsWindow states that the range-mode dry run prints exactly its records, and WindowSnoc how it grows line by line |
| ModFile.PreviewRangeIsWindow | utils/modfile/modfile.go:204-231 | in range mode the dry run prints one record per line numbered from max(start, 1) to min(end, line count), in order |
| ModFile.Terminated | utils/modfile/modfile.go:268 | each printed line is the line followed by a newline |
| ModFile.ScanLine | utils/modfile/modfile.go:164-183 | the loop body of writeChanges and printOutput performs exactly one Step |
| ModFile.WriteChanges | utils/modfile/modfile.go:154-202 | on success the temporary file holds Rewrite's lines; the error is the scan's verdict (range, labels, scanner, flush); on error no file changes |
| ModFile.PreviewLine | utils/modfile/modfile.go:213-230 | the loop body of printChanges performs one PreviewStep and prints its record |
| ModFile.PrintChanges | utils/modfile/modfile.go:204-245 | the dry run prints exactly PreviewRun's records, changes no file, and reports the range and label errors after the loop |
| ModFile.PrintOutput | utils/modfile/modfile.go:247-277 | standard input is printed line by line as writeChanges would write it; only the range is checked |
| ModFile.CreateBackup | utils/modfile/modfile.go:279-298 | success iff the file exists and no step fails, and then the backup holds the file's content; a missing file is reported as the open failure, otherwise the error names the failing step; a failed copy leaves an empty backup |
| ModFile.RestoreBackup | utils/modfile/modfile.go:300-305 | the file is removed and the backup, if present, is renamed onto it |
| ModFile.RestoreKeeps | utils/modfile/modfile.go:300-305 | restoring an intact backup brings back every file except the scratch files |
| ModFile.RollBack | utils/modfile/modfile.go:115-118 | the undo steps restore the target's content and keep every other file except the scratch files |
| ModFile.Resolve | utils/modfile/modfile.go:63-77 | an accepted configuration selects (0, 0) iff no line selection was given, and otherwise a range with 1 <= start <= end |
| ModFile.Commit | utils/modfile/modfile.go:90-142 | the error is CommitVerdict of the file's lines; on success the target holds Rewrite's lines and no scratch file is left; on any failure the target is intact and only the scratch files may differ |
| ModFile.CommitVerdict | utils/modfile/modfile.go:90-142 | the writing branch's error is either the scan's verdict (range, labels, scanner, flush) or the operating-system step that failed |
| ModFile.CommitWithoutFault | utils/modfile/modfile.go:90-142 | with no failing step the writing branch reports exactly the scan's verdict; in range mode it succeeds iff the file is not empty and the range ends at most one line past the last |
| ModFile.Failed | utils/modfile/modfile.go:78-88 | the dry run and standard-output paths wrap an error as "failed to process" and pass success through |
| ModFile.RunVerdict | utils/modfile/modfile.go:63-142 | a refused configuration is reported as is; the dry-run and standard-output paths report only wrapped errors; the writing branch reports unwrapped ones |
| ModFile.RangePastEndFails | utils/modfile/modfile.go:78-142 | a line range ending past the line after the last is refused in every mode: wrapped when printing, as "out of range" when writing |
| ModFile.LabelledFileSucceeds | utils/modfile/modfile.go:63-142 | a file with a start-label line followed by an end-label line is rewritten without error when nothing fails |
| ModFile.ChangeFile | utils/modfile/modfile.go:45-145 | a file that cannot be opened is an error with nothing changed; otherwise the error is RunVerdict of the input; stdin mode and dry runs change no file; an in-place run prints nothing; on error every file other than the scratch files is as it was; on success the file is rewritten; the dry run and stdin output are the PreviewRun and Rewrite lines |
| LegacyFile.ExtractLines | internal/file/file.go:276-298 | an accepted selection satisfies 1 <= start <= end; every refusal comes with (0, 0) |
| LegacyFile.ExtractAgreesWithFindLines | internal/file/file.go:276-298 | extractLines and findLines select the same lines and accept the same strings |
| LegacyFile.ExtractLinesAccepts | internal/file/file.go:276-298 | "N-M" with 1 <= N <= M selects [N, M], and "N" selects [N, N] |
| LegacyFile.SelectCommentChars | internal/file/file.go:300-363 | the extension is accepted iff it is listed, and otherwise the error names it |
| LegacyFile.OnlySwiftIsMissing | internal/file/file.go:322-323 | .swift is the only listed extension whose key the table lacks |
| LegacyFile.SelectedMarkerShape | internal/file/file.go:300-363 | every listed extension except .swift yields one of "//", "#", "--", "%" |
| LegacyFile.SelectForSwift | internal/file/file.go:322-323 | a .swift file gets the empty marker and no error |
| LegacyFile.SelectForHtml | internal/file/file.go:359-360 | an .html file is refused as an unsupported extension |
| LegacyFile.RangeRewrite | internal/file/file.go:123-139 | one output line per input line; RangeRewriteAgrees states that it is the current scan in range mode |
| LegacyFile.RangeRewriteAgrees | internal/file/file.go:123-150 | the older scan writes what the current scan writes with the same range and no labels |
| LegacyFile.WriteVerdict | internal/file/file.go:141-149 | "out of range" is reported iff the range ends beyond the line after the last |
| LegacyFile.PreviewVerdict | internal/file/file.go:170-174 | the dry run reports "out of range" under the same condition |
| LegacyFile.WriteChanges | internal/file/file.go:123-150 | on success the temporary file holds RangeRewrite's lines; on error no file changes |
| LegacyFile.PrintChanges | internal/file/file.go:156-175 | the dry run prints the Window records and changes no file |
| LegacyFile.FileVerdict | internal/file/file.go:21-121 | a missing file is the open failure; "out of range" only for an existing file whose range ends past the line after the last; any other error is the operating-system step that failed |
| LegacyFile.FileSucceedsIffInRange | internal/file/file.go:21-121 | with no failing step, a dry run and a writing run alike succeed iff the file exists and the range ends at most one line past the last, and otherwise report "out of range" for an existing file |
| LegacyFile.Commit | internal/file/file.go:46-120 | the error is CommitVerdict of the line count, so with no failing step it succeeds iff the range ends at most one line past the last; on success the target holds RangeRewrite's lines and no scratch file is left; on failure the target is intact and only the scratch files may differ |
| LegacyFile.CommitVerdict | internal/file/file.go:46-120 | "out of range" only when the range ends past the line after the last; every other error is the operating-system step that failed |
| LegacyFile.CommitSucceedsIffInRange | internal/file/file.go:46-120 | with no failing step the writing branch succeeds iff the range ends at most one line past the last, and otherwise reports "out of range" |
| LegacyFile.ProcessFile | internal/file/file.go:21-121 | the error is FileVerdict; a missing or unopenable file is an error with nothing changed and nothing printed; a dry run prints the Window records, reports PreviewVerdict and changes no file; a writing run prints nothing and reports CommitVerdict, so it succeeds iff the range fits when nothing fails, and then the file holds RangeRewrite's lines |
| LegacyFile.ProcessSingleFile | internal/file/file.go:205-229 | a bad range or extension is reported before anything changes; after both checks the error is FileVerdict for the parsed range; a missing file changes nothing and prints nothing; a dry run prints the Window records and changes no file; a writing run prints nothing; on success the file holds the rewritten lines |
| LegacyFile.ParseEntry | internal/file/file.go:248-267 | a valid entry holds exactly one ':' and names its file, its range and its marker; any other count of ':' is a syntax error |
| LegacyFile.ParseEntryOf | internal/file/file.go:248-267 | "file:lines" with a listed extension and a valid range parses to that file, range and marker |
| LegacyFile.ProcessFileWithLines | internal/file/file.go:246-274 | the error is EntryVerdict; a malformed entry or a missing file changes nothing and prints nothing; a dry run prints the entry's Window records with the toggle and changes no file; a writing run prints nothing; files other than the named file and its scratch files are untouched; on success the file is toggled over its range |
| LegacyFile.EntryVerdict | internal/file/file.go:246-274 | a malformed entry reports its own syntax, range or extension error; otherwise the entry's FileVerdict; success means the entry parsed and names an existing file |
| LegacyFile.ProcessEntry | internal/file/file.go:234-238 | one loop turn: the files change only at the entry's paths; on success the trace grows by the parsed entry; on failure the entry's EntryVerdict is reported and earlier rewrites whose paths it does not touch stay |
| LegacyFile.ProcessMultipleFiles | internal/file/file.go:232-241 | entries run in order and the first error stops the loop, reporting that entry's EntryVerdict (a malformed entry reports its own error); every earlier entry parsed and went through, each step taking the files as processFileWithLines does; only the reached entries' files may change; a dry run changes no file; when the entries name distinct files, every file before the stop holds its rewrite |
| LegacyFile.TraceRewrites | internal/file/file.go:232-241 | after a writing run over entries with distinct files, each entry's file holds the rewrite of its original lines |
| LegacyFile.KeptAfterFailure | internal/file/file.go:232-241 | a failing entry that touches no earlier entry's paths leaves their rewrites in place |
| LabelInputModel.ValidateInput | utils/tui/modelutils/text.go:106-148 | no contract of its own; LabelsIffSemicolon, AcceptsWhatFindLinesAccepts, ZeroPassesOnlyHere, NegativeRefused and RangeOrderChecked state what it accepts and refuses |
| LabelInputModel.ValidateRange | utils/tui/modelutils/text.go:117-137 | a range is never taken as labels |
| LabelInputModel.LabelsIffSemicolon | utils/tui/modelutils/text.go:106-148 | the text is taken as labels iff its trimmed form holds ';' |
| LabelInputModel.AcceptsWhatFindLinesAccepts | utils/tui/modelutils/text.go:106-148 | every selection the file engine's findLines accepts is accepted by the text box as a line selection |
| LabelInputModel.ZeroPassesOnlyHere | utils/tui/modelutils/text.go:140-147 | "0" passes the text box but findLines refuses it |
| LabelInputModel.RangeOrderChecked | utils/tui/modelutils/text.go:117-137 | "x-y" for two unsigned integers is refused iff x > y |
| LabelInputModel.NegativeRefused | utils/tui/modelutils/text.go:117-129 | "-N" for an integer N is refused as a range whose start is not an integer |
| LabelInputModel.HalfTruncated | utils/tui/modelutils/text.go:65 | twice the halved width misses the width by at most one, on the side of zero, as Go's truncating division does |
| LabelInputModel.PressEnter | utils/tui/modelutils/text.go:47-52 | Enter marks the box done iff the text is valid; a refusal records the error and keeps the previous choice |
| LabelInputModel.KeyUpdate | utils/tui/modelutils/text.go:42-63 | only Ctrl-C quits; Backspace drops the last character; runes are appended; Esc sets Back; other keys change nothing |
| LabelInputModel.Update | utils/tui/modelutils/text.go:40-72 | keys as in KeyUpdate; a resize sets half the width and the full height; a tick flips the cursor blink |
| LabelInputModel.TypeThenErase | utils/tui/modelutils/text.go:54-60 | typing one character and then Backspace gives the box back as it was |
| LabelInputModel.RefusedEnterKeepsChoice | utils/tui/modelutils/text.go:47-51 | a refused Enter keeps the label/line choice and the done flag, and records an error |
| LabelInputModel.EnterLabels | utils/tui/modelutils/text.go:108-113 | "start;end" makes the box done as a label selection |
| SelectorUtils.Contains | utils/tui/modelutils/selectorutils.go:11-18 | the search is true iff the string is an entry |
| SelectorUtils.Remove | utils/tui/modelutils/selectorutils.go:20-28 | the result is the other entries in their order (Without) |
| SelectorUtils.Without | utils/tui/modelutils/selectorutils.go:20-28 | no contract of its own; WithoutAppend, WithoutCounts, WithoutAbsent and WithoutIdempotent state its order, counts and length |
| SelectorUtils.WithoutAppend | utils/tui/modelutils/selectorutils.go:20-28 | filtering distributes over concatenation, so the kept entries stay in order |
| SelectorUtils.WithoutCounts | utils/tui/modelutils/selectorutils.go:20-28 | the target disappears, every other entry keeps its count, and the length drops by the target's count |
| SelectorUtils.WithoutAbsent | utils/tui/modelutils/selectorutils.go:20-28 | removing an absent entry gives the list back unchanged |
| SelectorUtils.WithoutIdempotent | utils/tui/modelutils/selectorutils.go:20-28 | removing twice removes nothing more |
| SelectorUtils.GetParentDirectory | utils/tui/modelutils/selectorutils.go:42-59 | an error comes with "" and names the path; any other result is non-empty, differs from the path (off the root), and keeps a leading '/' |
| SelectorUtils.ParentOfRoot | utils/tui/modelutils/selectorutils.go:43-48 | "/" is handed back unchanged with no error |
| SelectorUtils.ParentIsDir | utils/tui/modelutils/selectorutils.go:50-58 | off the root, the parent is filepath.Dir, and it is an error iff that equals the path |
| SelectorUtils.ParentOfName | utils/tui/modelutils/selectorutils.go:50-58 | a bare name has parent "."; "." itself is an error |
| SelectorUtils.ParentOfNested | utils/tui/modelutils/selectorutils.go:42-59 | the parent of "/a/b" is "/a" |
| FilesSelectorUtils.Contains | tui-tgcom/files_selector/utils/utils.go:10-17 | the search is true iff some entry equals the string |
| FilesSelectorUtils.Remove | tui-tgcom/files_selector/utils/utils.go:19-27 | the target is gone, the other entries keep their order and counts, and the length drops by the target's count |
| FilesSelectorUtils.GetParentDirectory | tui-tgcom/files_selector/utils/utils.go:42-59 | the root is handed back; elsewhere the parent is filepath.Dir, and an error comes with "" exactly when that is the path |
| SshUtils.ParseSSHURL | utils/sshutils/ssh.go:23-50 | an error empties all three results; a user and host found hold neither '@' nor '/' |
| SshUtils.ParseRefuses | utils/sshutils/ssh.go:23-50 | an address is refused iff its trimmed form has fewer than three '/' or its third piece does not hold exactly one '@' |
| SshUtils.ParseComposed | utils/sshutils/ssh.go:23-50 | parsing scheme://user@host/path gives the user, the host and the whole path back |
| SshUtils.ParseExample | utils/sshutils/ssh.go:23-50 | "ssh://u@h/a/b" parses to user "u", host "h", path "a/b" |
| SshUtils.FirstIn | utils/sshutils/ssh.go:159-164 | the first forbidden character, in the set's order, that the name holds, if any |
| SshUtils.ValidateDirectory | utils/sshutils/ssh.go:150-166 | a blank name is refused as empty; a character named in an error is forbidden and occurs in the name |
| SshUtils.ForbiddenSurvivesTrim | utils/sshutils/ssh.go:152-161 | trimming never removes a forbidden character |
| SshUtils.AcceptsIff | utils/sshutils/ssh.go:150-166 | a name passes iff it is not blank and holds no forbidden character |
| SshUtils.NamesFirstInSetOrder | utils/sshutils/ssh.go:159-164 | the error names the forbidden character that comes first in the set, wherever it sits in the name |
| SshUtils.SetOrderExample | utils/sshutils/ssh.go:159-164 | "a;b<" names '<', which precedes ';' in the set though not in the name |

## Left out

- I/O and concurrency:
  - The terminal UI's rendering (`View`, lipgloss styling) and the ticker command.
  - The SSH session, the network and host-key checks.
  - The server and the command-line wiring.
  - `IsDirectory`, which asks the operating system.
- Bytes and buffers:
  - A file is the sequence of lines `bufio.Scanner` yields. Byte content, the
    scanner's 64 KiB token limit and a final line without a newline are not
    modelled.
  - Writes go through a buffer that is flushed at the end. A write error
    during the loop is modelled as the `Flush` fault, reported after the
    range and label checks. In the source it could surface earlier.
- Operating-system modelling:
  - `ModFile.CreateBackup`: a failing `io.Copy` is modelled as leaving an
    empty `.bak`. A real partial copy is not modelled.
  - `ModFile.RestoreBackup`: its remove and rename results are ignored, as
    in the source. The operating system itself is assumed not to fail during
    restore.
  - The `fault` parameter names at most one failing step per run.
- `ModFile.PrintOutput`: the cursor's found flags are carried along and never
  read. The source's loop has no such flags.
- `ModFile.ScanLine`, `ModFile.PreviewLine`, `ModFile.RollBack` and
  `LegacyFile.ProcessEntry` are helpers. They split out code the source
  writes inline: the loop bodies and the repeated undo steps.
- `LegacyFile.ProcessMultipleFiles`: the contract speaks of files only and
  does not restate what standard output receives across entries (the dry
  run's records, nothing in a writing run). The run's trace records the
  files each entry met, and `LegacyFile.ProcessFileWithLines` states each
  entry's output.
- `LegacyFile.ProcessFileWithLines`: the source passes
  `comment.ToggleComments`, which takes a map, where a
  `func(string, string) string` is expected. The model applies the map-keyed
  toggle, with the marker stored under "singleLine".
- `LabelInputModel.KeyUpdate`:
  - Backspace drops the last character, where Go drops the last byte. The
    two differ for a multi-byte character.
  - A rune key is appended as its text. Go's `msg.String()` can add an
    "alt+" prefix or paste brackets.
- Text and case:
  - White space is ASCII (space, \t, \n, \v, \f, \r); Go's `TrimSpace` also
    trims Unicode spaces.
  - `ToLower` folds ASCII letters only.
- `SelectorUtils.GetParentDirectory`: the repository's test expects an error
  at the root. The code returns the path with no error, and the model follows
  the code.
