/**
 * The line transforms of the current engine: comment, uncomment and toggle
 * one line given the language's marker.  A marker is either a plain prefix
 * ("//", "#", "--", "%") or the paired HTML marker "<!-- -->", which wraps
 * the line instead of prefixing it.  All three are total on every line.
 */
module Commenter {
  import opened GoStrings

  const HtmlMarker: string := "<!-- -->"
  const HtmlOpen: string := "<!--"
  const HtmlClose: string := "-->"

  /** A plain marker: non-empty and free of white space (every entry of the language table but HTML). */
  predicate PlainMarker(c: string) {
    c != [] && forall i :: 0 <= i < |c| ==> !IsSpace(c[i])
  }

  /** A trimmed line that starts with `<!--` and ends with `-->`. */
  predicate HasHtmlEnvelope(trimmed: string) {
    HasPrefix(trimmed, HtmlOpen) && HasSuffix(trimmed, HtmlClose)
  }

  /** Prefixes the marker and a space, or wraps the line for HTML; never inspects the line. */
  function Comment(line: string, marker: string): string {
    if marker == HtmlMarker then HtmlOpen + " " + line + " " + HtmlClose
    else marker + " " + line
  }

  /**
   * The HTML branch of Uncomment: a spaced opening delimiter is removed and
   * then one more bare `<!--`; independently a spaced closing delimiter is
   * removed and then one more bare `-->`.
   */
  function UncommentHtml(line: string, trimmed: string): string {
    var unopened :=
      if HasPrefix(trimmed, HtmlOpen + " ") then ReplaceFirst(ReplaceFirst(line, HtmlOpen + " ", ""), HtmlOpen, "")
      else line;
    if HasSuffix(trimmed, " " + HtmlClose) then ReplaceFirst(ReplaceFirst(unopened, " " + HtmlClose, ""), HtmlClose, "")
    else unopened
  }

  /**
   * Removes the marker the trimmed line starts with (with its following space
   * when there is one), keeping the indentation; a line that is not
   * commented comes back unchanged.
   */
  function Uncomment(line: string, marker: string): (r: string)
    ensures !HasPrefix(TrimSpace(line), marker) && !(marker == HtmlMarker && HasHtmlEnvelope(TrimSpace(line))) ==> r == line
  {
    var trimmed := TrimSpace(line);
    if marker == HtmlMarker && HasHtmlEnvelope(trimmed) then UncommentHtml(line, trimmed)
    else if HasPrefix(trimmed, marker) then
      if HasPrefix(trimmed, marker + " ") then ReplaceFirst(line, marker + " ", "")
      else ReplaceFirst(line, marker, "")
    else line
  }

  /** Uncomments a line that looks commented and comments any other. */
  function ToggleComments(line: string, marker: string): string {
    var trimmed := TrimSpace(line);
    if marker == HtmlMarker then
      if HasHtmlEnvelope(trimmed) then Uncomment(line, marker) else Comment(line, marker)
    else if HasPrefix(trimmed, marker) then Uncomment(line, marker)
    else Comment(line, marker)
  }


  // ---------------------------------------------------------------------
  // Plain markers
  // ---------------------------------------------------------------------

  lemma PlainIsNotHtml(c: string)
    requires PlainMarker(c)
    ensures c != HtmlMarker
  {
    assert IsSpace(HtmlMarker[4]);
  }

  /** Uncomment on a trimmed line that starts with the marker and a space. */
  lemma UncommentSpacedCase(line: string, c: string)
    requires !(c == HtmlMarker && HasHtmlEnvelope(TrimSpace(line)))
    requires HasPrefix(TrimSpace(line), c + " ")
    ensures Uncomment(line, c) == ReplaceFirst(line, c + " ", "")
  {
    var t := TrimSpace(line);
    assert t[..|c|] == t[..|c + " "|][..|c|] == c;
  }

  /** Uncomment on a trimmed line that starts with the marker but no space after it. */
  lemma UncommentBareCase(line: string, c: string)
    requires c != HtmlMarker && HasPrefix(TrimSpace(line), c) && !HasPrefix(TrimSpace(line), c + " ")
    ensures Uncomment(line, c) == ReplaceFirst(line, c, "")
  {
  }

  /** Removing a first occurrence found at `k`. */
  lemma ReplaceFirstAt(s: string, p: string, k: int)
    requires OccursAt(s, p, k)
    requires forall j :: 0 <= j < k ==> !OccursAt(s, p, j)
    ensures ReplaceFirst(s, p, "") == s[..k] + s[k + |p|..]
  {
    IndexIsFirst(s, p, k);
  }

  /** A pattern starting with a non-space cannot start inside leading white space. */
  lemma MarkerAfterIndent(ws: string, p: string, rest: string)
    requires AllSpace(ws)
    requires p != [] && !IsSpace(p[0])
    ensures ReplaceFirst(ws + p + rest, p, "") == ws + rest
  {
    var line := ws + p + rest;
    assert line[|ws|..|ws| + |p|] == p;
    forall j | 0 <= j < |ws|
      ensures !OccursAt(line, p, j)
    {
      assert line[j] == ws[j];
      assert j + |p| <= |line| ==> line[j..j + |p|][0] == line[j];
    }
    ReplaceFirstAt(line, p, |ws|);
    assert line[..|ws|] == ws;
    assert line[|ws| + |p|..] == rest;
  }

  /** The trimmed form of an indented line "ws + x + rest" with x not starting blank and rest not blank. */
  lemma TrimIndented(ws: string, x: string, rest: string)
    requires AllSpace(ws) && x != [] && !IsSpace(x[0]) && !AllSpace(rest)
    ensures TrimSpace(ws + x + rest) == x + TrimRight(rest)
    ensures HasPrefix(TrimSpace(ws + x + rest), x)
  {
    assert ws + x + rest == ws + (x + rest);
    TrimLeftOf(ws, x + rest);
    TrimRightAppend(x, rest);
    assert (x + TrimRight(rest))[..|x|] == x;
  }

  /**
   * Uncommenting an indented line "ws + marker + ' ' + rest" (rest not blank)
   * removes exactly the marker and its space and keeps the indentation.
   */
  lemma UncommentIndented(ws: string, c: string, rest: string)
    requires AllSpace(ws) && PlainMarker(c) && !AllSpace(rest)
    ensures Uncomment(ws + c + " " + rest, c) == ws + rest
  {
    PlainIsNotHtml(c);
    var cs := c + " ";
    assert ws + c + " " + rest == ws + cs + rest;
    TrimIndented(ws, cs, rest);
    UncommentSpacedCase(ws + cs + rest, c);
    MarkerAfterIndent(ws, cs, rest);
  }

  /**
   * Uncommenting "ws + marker + rest" where rest does not start with a space
   * (or is blank) removes the bare marker and keeps everything else.
   */
  lemma UncommentBare(ws: string, c: string, rest: string)
    requires AllSpace(ws) && PlainMarker(c)
    requires rest == [] || rest[0] != ' ' || AllSpace(rest)
    ensures Uncomment(ws + c + rest, c) == ws + rest
  {
    PlainIsNotHtml(c);
    BareTrimmed(ws, c, rest);
    UncommentBareCase(ws + c + rest, c);
    MarkerAfterIndent(ws, c, rest);
  }

  /** The trimmed form of "ws + marker + rest" starts with the marker, and not with the marker and a space. */
  lemma BareTrimmed(ws: string, c: string, rest: string)
    requires AllSpace(ws) && PlainMarker(c)
    requires rest == [] || rest[0] != ' ' || AllSpace(rest)
    ensures HasPrefix(TrimSpace(ws + c + rest), c) && !HasPrefix(TrimSpace(ws + c + rest), c + " ")
  {
    var t := TrimSpace(ws + c + rest);
    if AllSpace(rest) {
      assert t == c by {
        BlankAfterMarker(ws, c, rest);
      }
    } else {
      assert |t| > |c| && t[..|c|] == c && t[|c|] == rest[0] by {
        TrimIndented(ws, c, rest);
        assert t == c + TrimRight(rest);
        assert TrimRight(rest)[0] == rest[0];
      }
    }
    assert |c + " "| <= |t| ==> t[..|c + " "|][|c|] == t[|c|];
  }

  /** "ws + x + blank" trims to x, for an x that neither starts nor ends blank. */
  lemma BlankAfterMarker(ws: string, x: string, rest: string)
    requires AllSpace(ws) && AllSpace(rest) && x != [] && !IsSpace(x[0]) && !IsSpace(x[|x| - 1])
    ensures TrimSpace(ws + x + rest) == x
  {
    TrimSpaceOf(ws, x, rest);
  }

  /** Round trip: commenting then uncommenting a non-blank line gives the line back. */
  lemma CommentRoundTrip(l: string, c: string)
    requires PlainMarker(c) && !AllSpace(l)
    ensures Uncomment(Comment(l, c), c) == l
  {
    PlainIsNotHtml(c);
    var line := Comment(l, c);
    assert line == [] + c + " " + l;
    UncommentIndented([], c, l);
  }

  /** For a blank line the round trip keeps the space that Comment added: "" becomes " ". */
  lemma CommentRoundTripBlank(l: string, c: string)
    requires PlainMarker(c) && AllSpace(l)
    ensures Uncomment(Comment(l, c), c) == " " + l
  {
    PlainIsNotHtml(c);
    var line := Comment(l, c);
    assert line == [] + c + (" " + l);
    assert AllSpace(" " + l);
    UncommentBare([], c, " " + l);
  }

  /** With a plain marker, Toggle uncomments exactly the lines whose trimmed form starts with the marker. */
  lemma ToggleDispatch(line: string, c: string)
    requires c != HtmlMarker
    ensures HasPrefix(TrimSpace(line), c) ==> ToggleComments(line, c) == Uncomment(line, c)
    ensures !HasPrefix(TrimSpace(line), c) ==> ToggleComments(line, c) == Comment(line, c)
  {
  }

  /** Toggling a line that is not commented comments it, and toggling again restores it. */
  lemma ToggleUncommented(l: string, c: string)
    requires PlainMarker(c) && !AllSpace(l)
    requires !HasPrefix(TrimSpace(l), c)
    ensures ToggleComments(l, c) == c + " " + l
    ensures ToggleComments(ToggleComments(l, c), c) == l
  {
    PlainIsNotHtml(c);
    var line := c + " " + l;
    assert ToggleComments(l, c) == line by {
      ToggleDispatch(l, c);
    }
    assert HasPrefix(TrimSpace(line), c) by {
      assert line == [] + (c + " ") + l;
      TrimIndented([], c + " ", l);
      assert TrimSpace(line)[..|c|] == c;
    }
    assert ToggleComments(line, c) == Uncomment(line, c) by {
      ToggleDispatch(line, c);
    }
    CommentRoundTrip(l, c);
  }

  /** Toggling an indented commented line removes the marker and its space, keeping the indentation. */
  lemma ToggleCommented(ws: string, c: string, rest: string)
    requires AllSpace(ws) && PlainMarker(c) && !AllSpace(rest)
    ensures ToggleComments(ws + c + " " + rest, c) == ws + rest
  {
    PlainIsNotHtml(c);
    var line := ws + c + " " + rest;
    assert HasPrefix(TrimSpace(line), c) by {
      var cs := c + " ";
      assert line == ws + cs + rest;
      TrimIndented(ws, cs, rest);
      assert TrimSpace(line)[..|c|] == c;
    }
    assert ToggleComments(line, c) == Uncomment(line, c) by {
      ToggleDispatch(line, c);
    }
    UncommentIndented(ws, c, rest);
  }

  // ---------------------------------------------------------------------
  // The HTML marker
  // ---------------------------------------------------------------------

  lemma NoOpenBeforeClose(l: string)
    requires !Contains(l, HtmlOpen)
    ensures !Contains(l + " " + HtmlClose, HtmlOpen)
  {
    var s := l + " " + HtmlClose;
    forall k | 0 <= k
      ensures !OccursAt(s, HtmlOpen, k)
    {
      if k + 4 <= |l| {
        assert s[k..k + 4] == l[k..k + 4];
        assert !OccursAt(l, HtmlOpen, k);
      } else if k <= |l| {
        assert s[|l|] == ' ';
        assert k + 4 <= |s| ==> s[k..k + 4][|l| - k] == s[|l|];
      }
    }
  }

  lemma CloseAtEnd(l: string)
    requires !Contains(l, HtmlClose)
    ensures ReplaceFirst(l + " " + HtmlClose, " " + HtmlClose, "") == l
  {
    var s := l + " " + HtmlClose;
    var p := " " + HtmlClose;
    assert s[|l|..|l| + 4] == p;
    forall j | 0 <= j < |l|
      ensures !OccursAt(s, p, j)
    {
      if j + 4 <= |l| {
        assert s[j + 1..j + 4] == l[j + 1..j + 4];
        assert !OccursAt(l, HtmlClose, j + 1);
        assert s[j..j + 4][1..] == s[j + 1..j + 4];
      } else {
        assert s[|l|] == ' ';
        assert s[j..j + 4][|l| - j] == s[|l|];
      }
    }
    ReplaceFirstAt(s, p, |l|);
    assert s[..|l|] == l;
  }

  /** The shape of a wrapped line: its own trimmed form, carrying the full envelope. */
  lemma WrappedShape(l: string)
    ensures var line := Comment(l, HtmlMarker);
      HasHtmlEnvelope(line) && HasPrefix(line, HtmlOpen + " ") && HasSuffix(line, " " + HtmlClose)
  {
    var line := HtmlOpen + " " + l + " " + HtmlClose;
    assert line[..4] == HtmlOpen;
    assert line[..5] == HtmlOpen + " ";
    assert line[|line| - 3..] == HtmlClose;
    assert line[|line| - 4..] == " " + HtmlClose;
  }

  /** A wrapped line is already trimmed. */
  lemma WrappedTrimmed(l: string)
    ensures TrimSpace(Comment(l, HtmlMarker)) == Comment(l, HtmlMarker)
  {
    var line := HtmlOpen + " " + l + " " + HtmlClose;
    assert line[0] == '<' && line[|line| - 1] == '>';
    TrimSpaceNoop(line);
  }

  /** With the HTML marker, a line whose trimmed form has the envelope is unwrapped by Uncomment and by Toggle. */
  lemma HtmlDispatch(line: string)
    ensures HasHtmlEnvelope(TrimSpace(line)) ==> Uncomment(line, HtmlMarker) == UncommentHtml(line, TrimSpace(line))
    ensures HasHtmlEnvelope(TrimSpace(line)) ==> ToggleComments(line, HtmlMarker) == Uncomment(line, HtmlMarker)
    ensures !HasHtmlEnvelope(TrimSpace(line)) ==> ToggleComments(line, HtmlMarker) == Comment(line, HtmlMarker)
  {
  }

  /** The opening delimiter of a wrapped line comes off, and no other `<!--` is found. */
  lemma HtmlUnwrapOpen(l: string)
    requires !Contains(l, HtmlOpen)
    ensures ReplaceFirst(ReplaceFirst(Comment(l, HtmlMarker), HtmlOpen + " ", ""), HtmlOpen, "") == l + " " + HtmlClose
  {
    var line := Comment(l, HtmlMarker);
    var open := HtmlOpen + " ";
    var s1 := l + " " + HtmlClose;
    assert ReplaceFirst(line, open, "") == s1 by {
      assert line == open + s1;
      assert line[..|open|] == open;
      ReplaceFirstAt(line, open, 0);
      assert line[|open|..] == s1;
    }
    NoOpenBeforeClose(l);
  }

  /** The closing delimiter comes off, and no other `-->` is found. */
  lemma HtmlUnwrapClose(l: string)
    requires !Contains(l, HtmlClose)
    ensures ReplaceFirst(ReplaceFirst(l + " " + HtmlClose, " " + HtmlClose, ""), HtmlClose, "") == l
  {
    CloseAtEnd(l);
  }

  /** Both delimiters of a wrapped line come off, and nothing else does. */
  lemma HtmlUnwrap(l: string)
    requires !Contains(l, HtmlOpen) && !Contains(l, HtmlClose)
    ensures UncommentHtml(Comment(l, HtmlMarker), Comment(l, HtmlMarker)) == l
  {
    WrappedShape(l);
    HtmlUnwrapOpen(l);
    HtmlUnwrapClose(l);
  }

  /** HTML round trip, for a line that holds neither delimiter. */
  lemma HtmlRoundTrip(l: string)
    requires !Contains(l, HtmlOpen) && !Contains(l, HtmlClose)
    ensures Uncomment(Comment(l, HtmlMarker), HtmlMarker) == l
  {
    var line := Comment(l, HtmlMarker);
    assert Uncomment(line, HtmlMarker) == UncommentHtml(line, TrimSpace(line)) by {
      WrappedShape(l);
      WrappedTrimmed(l);
      HtmlDispatch(line);
    }
    assert TrimSpace(line) == line by {
      WrappedTrimmed(l);
    }
    HtmlUnwrap(l);
  }

  /** HTML toggle: a line holding neither delimiter is wrapped, and toggling again unwraps it. */
  lemma HtmlToggleTwice(l: string)
    requires !Contains(l, HtmlOpen) && !Contains(l, HtmlClose)
    ensures ToggleComments(l, HtmlMarker) == Comment(l, HtmlMarker)
    ensures ToggleComments(ToggleComments(l, HtmlMarker), HtmlMarker) == l
  {
    assert !HasHtmlEnvelope(TrimSpace(l)) by {
      SuffixContains(TrimSpace(l), HtmlClose);
      TrimSpaceContains(l, HtmlClose);
    }
    HtmlDispatch(l);
    assert HasHtmlEnvelope(TrimSpace(Comment(l, HtmlMarker))) by {
      WrappedShape(l);
      WrappedTrimmed(l);
    }
    HtmlDispatch(Comment(l, HtmlMarker));
    HtmlRoundTrip(l);
  }

  /** Whether `a + b` ends with a space-free `p` is decided by `b` when `a` ends with a space. */
  lemma SuffixAcrossSpace(a: string, b: string, p: string)
    requires a != [] && a[|a| - 1] == ' '
    requires forall k :: 0 <= k < |p| ==> p[k] != ' '
    ensures HasSuffix(a + b, p) ==> HasSuffix(b, p)
  {
    var s := a + b;
    if |p| <= |b| {
      assert s[|s| - |p|..] == b[|b| - |p|..];
    } else if |p| <= |s| {
      assert s[|s| - |p|..][|p| - |b| - 1] == s[|a| - 1] == ' ';
    }
  }

  /**
   * Without the full envelope the HTML marker is handled like a plain prefix:
   * a line starting "<!-- -->" but not ending "-->" loses that prefix and its space.
   */
  lemma HtmlFallsThroughToPrefix(rest: string)
    requires rest != [] && !IsSpace(rest[0]) && !IsSpace(rest[|rest| - 1])
    requires !HasSuffix(rest, HtmlClose)
    ensures Uncomment(HtmlMarker + " " + rest, HtmlMarker) == rest
  {
    var hs := HtmlMarker + " ";
    var line := hs + rest;
    assert !HasHtmlEnvelope(TrimSpace(line)) by {
      HtmlPrefixedTrimmed(rest);
      HtmlPrefixedUnclosed(rest);
    }
    assert HasPrefix(TrimSpace(line), hs) by {
      HtmlPrefixedTrimmed(rest);
      assert line[..|hs|] == hs;
    }
    UncommentSpacedCase(line, HtmlMarker);
    assert ReplaceFirst(line, hs, "") == rest by {
      assert line[..|hs|] == hs;
      ReplaceFirstAt(line, hs, 0);
    }
  }

  /** "<!-- --> " + rest lacks the closing delimiter when rest does. */
  lemma HtmlPrefixedUnclosed(rest: string)
    requires !HasSuffix(rest, HtmlClose)
    ensures !HasSuffix(HtmlMarker + " " + rest, HtmlClose)
  {
    var hs := HtmlMarker + " ";
    assert |hs| == 9 && hs[8] == ' ';
    assert HtmlClose[0] == '-' && HtmlClose[1] == '-' && HtmlClose[2] == '>';
    SuffixAcrossSpace(hs, rest, HtmlClose);
  }

  /** "<!-- --> " + rest is already trimmed when rest does not end blank. */
  lemma HtmlPrefixedTrimmed(rest: string)
    requires rest != [] && !IsSpace(rest[|rest| - 1])
    ensures TrimSpace(HtmlMarker + " " + rest) == HtmlMarker + " " + rest
  {
    var line := HtmlMarker + " " + rest;
    assert line[0] == '<' && line[|line| - 1] == rest[|rest| - 1];
    TrimSpaceNoop(line);
  }
}
