/**
 * The TUI text box in which the user names the lines to change
 * (utils/tui/modelutils/text.go): the check made when Enter is pressed and
 * the key handling of its Update.  Update works on a copy of the model and
 * returns it, so the model is a value and Update a function.
 */
module LabelInputModel {
  import opened Wrappers
  import opened GoStrings
  import ModFile

  /** Why an entered selection is refused. */
  datatype InputError =
    | RangeFormat       // a '-' but not exactly two parts
    | RangeNotIntegers  // a part that is not an integer
    | RangeOrder        // start after end
    | NoMatch           // neither labels, nor a range, nor a number

  /** The text box; Width and Height follow the terminal, `flash` the cursor blink. */
  datatype LabelInput = LabelInput(
    file: string,
    input: string,
    done: bool,
    isLabel: bool,
    flash: bool,
    error: Option<InputError>,
    back: bool,
    width: int,
    height: int)

  /**
   * validateInput, as the value it leaves in IsLabel: labels when the
   * trimmed text holds a ';'; otherwise a range "x-y" of two integers (each
   * trimmed) with x <= y, or a single integer.  A '+' sign and "0" pass;
   * a negative number holds a '-', so the range branch refuses it.
   */
  function ValidateInput(input: string): Result<bool, InputError> {
    var t := TrimSpace(input);
    if Contains(t, ";") then Ok(true)
    else if Contains(t, "-") then ValidateRange(t)
    else if Atoi(t).None? then Err(NoMatch)
    else Ok(false)
  }

  /** The range branch of validateInput: "x-y", both sides integers once trimmed, x <= y. */
  function ValidateRange(t: string): (r: Result<bool, InputError>)
    ensures r.Ok? ==> !r.value
  {
    var parts := Split(t, '-');
    if |parts| != 2 then Err(RangeFormat)
    else
      var startLine := Atoi(TrimSpace(parts[0]));
      var endLine := Atoi(TrimSpace(parts[1]));
      if startLine.None? || endLine.None? then Err(RangeNotIntegers)
      else if startLine.value > endLine.value then Err(RangeOrder)
      else Ok(false)
  }

  /**
   * The text is taken as labels exactly when its trimmed form holds a ';',
   * and every other accepted text is a line selection.
   */
  lemma LabelsIffSemicolon(input: string)
    ensures ValidateInput(input) == Ok(true) <==> ';' in TrimSpace(input)
    ensures ValidateInput(input).Ok? && !ValidateInput(input).value ==> ';' !in TrimSpace(input)
  {
    var t := TrimSpace(input);
    ContainsChar(t, ';');
    assert ValidateInput(input) == Ok(true) <==> Contains(t, ";");
  }

  /** A string Atoi accepts has no white space at either end and no ';'. */
  lemma AtoiTrimmed(x: string)
    requires Atoi(x).Some?
    ensures TrimSpace(x) == x && ';' !in x && x != []
  {
    assert forall i | 0 <= i < |x| :: x[i] != ';' && !IsSpace(x[i]);
    TrimSpaceNoop(x);
  }

  /** Every selection the file engine's findLines accepts is accepted here as a line selection. */
  lemma AcceptsWhatFindLinesAccepts(s: string)
    requires ModFile.FindLines(s).1.None?
    ensures ValidateInput(s) == Ok(false)
  {
    if Contains(s, "-") {
      var parts := Split(s, '-');
      assert |parts| == 2;
      AcceptedRange(s, parts[0], parts[1], Atoi(parts[0]).value, Atoi(parts[1]).value);
    } else {
      AcceptedSingle(s);
    }
  }

  lemma AcceptedRange(s: string, a: string, b: string, x: int, y: int)
    requires Split(s, '-') == [a, b]
    requires Atoi(a) == Some(x) && Atoi(b) == Some(y) && x <= y
    ensures ValidateInput(s) == Ok(false)
  {
    assert s == a + "-" + b by {
      JoinSplit(s, '-');
      assert [a, b][1..] == [b];
    }
    assert '-' !in a && '-' !in b by {
      assert a == Split(s, '-')[0] && b == Split(s, '-')[1];
    }
    RangeOrderChecked(a, b, x, y);
  }

  lemma AcceptedSingle(s: string)
    requires !Contains(s, "-") && Atoi(s).Some?
    ensures ValidateInput(s) == Ok(false)
  {
    AtoiTrimmed(s);
    ContainsChar(s, ';');
  }

  /**
   * A negative number never reaches Atoi whole: its '-' sends it to the
   * range branch, which finds an empty start and refuses it.
   */
  lemma NegativeRefused(b: string, y: int)
    requires Atoi(b) == Some(y) && '-' !in b
    ensures ValidateInput("-" + b) == Err(RangeNotIntegers)
  {
    var s := "-" + b;
    AtoiTrimmed(b);
    assert s == [] + "-" + b;
    DashSplit([], b);
    DashContains([], b);
    assert s[|s| - 1] == b[|b| - 1];
    TrimSpaceNoop(s);
    assert Atoi(TrimSpace([])) == None;
  }

  /** The converse fails: "0" passes the text box but findLines refuses it. */
  lemma ZeroPassesOnlyHere()
    ensures ValidateInput("0") == Ok(false)
    ensures ModFile.FindLines("0").1.Some?
  {
    assert Atoi("0") == Some(0) by {
      AtoiItoa(0);
      assert Itoa(0) == "0";
    }
    ContainsChar("0", '-');
    AcceptedSingle("0");
    ModFile.FindLinesNonPositive(0);
  }

  /** "a-b" for two integers without sign: trimmed already, no ';', one '-' splitting it into a and b. */
  lemma RangeShape(a: string, b: string)
    requires Atoi(a).Some? && Atoi(b).Some? && '-' !in a && '-' !in b
    ensures var s := a + "-" + b;
      TrimSpace(s) == s && !Contains(s, ";") && Contains(s, "-") && Split(s, '-') == [a, b]
  {
    AtoiTrimmed(a);
    AtoiTrimmed(b);
    DashSplit(a, b);
    DashTrimmed(a, b);
    DashContains(a, b);
  }

  lemma DashSplit(a: string, b: string)
    requires '-' !in a && '-' !in b
    ensures Split(a + "-" + b, '-') == [a, b]
  {
    assert a + "-" + b == a + ['-'] + b;
    SplitAppend(a, '-', b);
    SplitSingle(a, '-');
    SplitSingle(b, '-');
  }

  lemma DashTrimmed(a: string, b: string)
    requires TrimSpace(a) == a && TrimSpace(b) == b && a != [] && b != []
    requires forall i | 0 <= i < |a| :: !IsSpace(a[i])
    requires forall i | 0 <= i < |b| :: !IsSpace(b[i])
    ensures TrimSpace(a + "-" + b) == a + "-" + b
  {
    var s := a + "-" + b;
    assert s[0] == a[0] && s[|s| - 1] == b[|b| - 1];
    TrimSpaceNoop(s);
  }

  lemma DashContains(a: string, b: string)
    requires ';' !in a && ';' !in b
    ensures !Contains(a + "-" + b, ";") && Contains(a + "-" + b, "-")
  {
    var s := a + "-" + b;
    assert ';' !in s;
    ContainsChar(s, ';');
    assert s[|a|] == '-';
    ContainsChar(s, '-');
  }

  /** Two integers without sign joined by '-' are refused exactly when the first is the larger. */
  lemma RangeOrderChecked(a: string, b: string, x: int, y: int)
    requires Atoi(a) == Some(x) && Atoi(b) == Some(y) && '-' !in a && '-' !in b
    ensures ValidateInput(a + "-" + b) == if x > y then Err(RangeOrder) else Ok(false)
  {
    RangeShape(a, b);
    AtoiTrimmed(a);
    AtoiTrimmed(b);
    RangeVerdict(a + "-" + b, a, b, x, y);
  }

  lemma RangeVerdict(s: string, a: string, b: string, x: int, y: int)
    requires TrimSpace(s) == s && !Contains(s, ";") && Contains(s, "-") && Split(s, '-') == [a, b]
    requires TrimSpace(a) == a && TrimSpace(b) == b && Atoi(a) == Some(x) && Atoi(b) == Some(y)
    ensures ValidateInput(s) == if x > y then Err(RangeOrder) else Ok(false)
  {
    assert ValidateInput(s) == ValidateRange(s);
  }

  // ---------------------------------------------------------------------
  // Update
  // ---------------------------------------------------------------------

  datatype Key = CtrlC | Enter | Backspace | Runes(text: string) | Esc | OtherKey

  datatype Msg =
    | KeyMsg(key: Key)
    | WindowSize(width: int, height: int)
    | Tick

  /** The command Update hands back to the runtime. */
  datatype Command = NoCommand | Quit

  /**
   * Go's `x / 2`, which truncates toward zero: twice the result misses `x`
   * by at most one, on the side of zero (so -3 halves to -1, not -2).
   */
  function HalfTruncated(x: int): (r: int)
    ensures x >= 0 ==> 0 <= x - 2 * r <= 1
    ensures x < 0 ==> -1 <= x - 2 * r <= 0
  {
    if x >= 0 then x / 2 else -((-x) / 2)
  }

  /**
   * Enter: the text is validated; a refusal is recorded in the error and
   * nothing else changes; an acceptance marks the box done and records
   * whether labels were given.
   */
  function PressEnter(m: LabelInput): (r: LabelInput)
    ensures r.done <==> m.done || ValidateInput(m.input).Ok?
    ensures ValidateInput(m.input).Ok? ==> r.isLabel == ValidateInput(m.input).value && r.error == m.error
    ensures ValidateInput(m.input).Err? ==> r.isLabel == m.isLabel && r.error == Some(ValidateInput(m.input).error)
    ensures r.(done := m.done, isLabel := m.isLabel, error := m.error) == m
  {
    var v := ValidateInput(m.input);
    if v.Err? then m.(error := Some(v.error))
    else m.(isLabel := v.value, done := true)
  }

  /**
   * The key handling of Update.  Ctrl-C quits; Enter validates; Backspace
   * drops the last character if any; typed runes are appended; Esc asks to
   * go back; any other key changes nothing.
   */
  function KeyUpdate(m: LabelInput, key: Key): (r: (LabelInput, Command))
    ensures r.1 == Quit <==> key == CtrlC
    ensures key == Enter ==> r.0 == PressEnter(m)
    ensures key != Enter ==> r.0.done == m.done && r.0.isLabel == m.isLabel && r.0.error == m.error
    ensures r.0.file == m.file && r.0.width == m.width && r.0.height == m.height && r.0.flash == m.flash
    ensures r.0.input != m.input ==> key.Backspace? || key.Runes?
    ensures key == Backspace ==> r.0.input == (if m.input == [] then [] else m.input[..|m.input| - 1])
    ensures key.Runes? ==> r.0.input == m.input + key.text
    ensures r.0.back != m.back ==> key == Esc && r.0.back
    ensures key == OtherKey || key == CtrlC ==> r.0 == m
  {
    match key
    case CtrlC => (m, Quit)
    case Enter => (PressEnter(m), NoCommand)
    case Backspace =>
      if |m.input| > 0 then (m.(input := m.input[..|m.input| - 1]), NoCommand) else (m, NoCommand)
    case Runes(text) => (m.(input := m.input + text), NoCommand)
    case Esc => (m.(back := true), NoCommand)
    case OtherKey => (m, NoCommand)
  }

  /**
   * Update: keys as above; a new terminal size sets the box to half the
   * width (Go's integer division) and the full height; a tick toggles the
   * cursor blink.  Only Ctrl-C quits.
   */
  function Update(m: LabelInput, msg: Msg): (r: (LabelInput, Command))
    ensures r.1 == Quit <==> msg == KeyMsg(CtrlC)
    ensures r.0.file == m.file
    ensures !msg.KeyMsg? ==> r.0.input == m.input && r.0.done == m.done && r.0.back == m.back
    ensures msg.KeyMsg? ==> r == KeyUpdate(m, msg.key)
    ensures msg.WindowSize? ==> r.0 == m.(width := HalfTruncated(msg.width), height := msg.height)
    ensures msg.Tick? ==> r.0 == m.(flash := !m.flash)
  {
    match msg
    case KeyMsg(key) => KeyUpdate(m, key)
    case WindowSize(w, h) => (m.(width := HalfTruncated(w), height := h), NoCommand)
    case Tick => (m.(flash := !m.flash), NoCommand)
  }

  /** Typing a character and then Backspace gives back the box as it was. */
  lemma TypeThenErase(m: LabelInput, c: char)
    ensures Update(Update(m, KeyMsg(Runes([c]))).0, KeyMsg(Backspace)).0 == m
  {
    var typed := Update(m, KeyMsg(Runes([c]))).0;
    assert typed.input[..|typed.input| - 1] == m.input;
  }

  /** A refused Enter keeps the previous label/line choice and leaves the box not done if it was not. */
  lemma RefusedEnterKeepsChoice(m: LabelInput)
    requires ValidateInput(m.input).Err?
    ensures Update(m, KeyMsg(Enter)).0.isLabel == m.isLabel
    ensures Update(m, KeyMsg(Enter)).0.done == m.done
    ensures Update(m, KeyMsg(Enter)).0.error.Some?
  {
  }

  /** Entering a pair of labels "start;end" marks the box done as a label selection. */
  lemma EnterLabels(m: LabelInput, start: string, end: string)
    requires m.input == start + ";" + end
    ensures Update(m, KeyMsg(Enter)).0.done && Update(m, KeyMsg(Enter)).0.isLabel
  {
    assert m.input[|start|] == ';';
    NonSpaceSurvivesTrim(m.input, |start|);
    LabelsIffSemicolon(m.input);
  }
}
