/**
 * The older line transforms of internal/comment, still used by the legacy
 * file engine.  The marker comes from a map under the key "singleLine" (a
 * missing key reads as the empty string, as a Go map lookup does), and
 * uncommenting returns the TRIMMED line, so indentation is lost.
 */
module LegacyComment {
  import opened GoStrings
  import Commenter

  const SingleLineKey: string := "singleLine"

  /** The marker stored under "singleLine", or "" when there is none. */
  function Marker(chars: map<string, string>): string {
    if SingleLineKey in chars then chars[SingleLineKey] else ""
  }

  function Comment(line: string, chars: map<string, string>): string {
    Marker(chars) + " " + line
  }

  function Uncomment(line: string, chars: map<string, string>): string {
    TrimPrefix(TrimSpace(line), Marker(chars) + " ")
  }

  function ToggleComments(line: string, chars: map<string, string>): string {
    if HasPrefix(TrimSpace(line), Marker(chars)) then TrimPrefix(TrimSpace(line), Marker(chars) + " ")
    else Marker(chars) + " " + line
  }

  /** The trimmed form of "marker + ' ' + l": the marker, its space and l without trailing blanks. */
  lemma TrimCommented(ws: string, m: string, l: string)
    requires AllSpace(ws) && Commenter.PlainMarker(m) && !AllSpace(l)
    ensures TrimSpace(ws + m + " " + l) == m + " " + TrimRight(l)
    ensures HasPrefix(TrimSpace(ws + m + " " + l), m + " ")
    ensures HasPrefix(TrimSpace(ws + m + " " + l), m)
  {
    var ms := m + " ";
    assert ws + m + " " + l == ws + ms + l;
    Commenter.TrimIndented(ws, ms, l);
    MarkerPrefix(m, TrimRight(l));
  }

  lemma MarkerPrefix(m: string, rest: string)
    ensures HasPrefix(m + " " + rest, m)
  {
    assert (m + " " + rest)[..|m|] == m;
  }

  /** Round trip on a non-blank line: the line comes back without its trailing white space. */
  lemma RoundTrip(l: string, chars: map<string, string>)
    requires Commenter.PlainMarker(Marker(chars)) && !AllSpace(l)
    ensures Uncomment(Comment(l, chars), chars) == TrimRight(l)
  {
    var m := Marker(chars);
    var line := Comment(l, chars);
    assert line == [] + m + " " + l;
    TrimCommented([], m, l);
    assert TrimSpace(line)[|m + " "|..] == TrimRight(l);
  }

  /** Round trip on a blank line: the space Comment added is trimmed, so the bare marker is left. */
  lemma RoundTripBlank(l: string, chars: map<string, string>)
    requires Commenter.PlainMarker(Marker(chars)) && AllSpace(l)
    ensures Uncomment(Comment(l, chars), chars) == Marker(chars)
  {
    var m := Marker(chars);
    var line := Comment(l, chars);
    assert line == [] + m + (" " + l);
    assert AllSpace(" " + l);
    TrimSpaceOf([], m, " " + l);
  }

  /** Toggling an indented commented line strips the indentation along with the marker. */
  lemma ToggleCommented(ws: string, m: string, rest: string, chars: map<string, string>)
    requires Marker(chars) == m
    requires AllSpace(ws) && Commenter.PlainMarker(m) && !AllSpace(rest)
    ensures ToggleComments(ws + m + " " + rest, chars) == TrimRight(rest)
    ensures Commenter.ToggleComments(ws + m + " " + rest, m) == ws + rest
  {
    TrimCommented(ws, m, rest);
    Commenter.ToggleCommented(ws, m, rest);
  }

  /** On a line that is not commented both engines add the marker and a space in front. */
  lemma ToggleUncommentedAgrees(l: string, chars: map<string, string>)
    requires Marker(chars) != Commenter.HtmlMarker
    requires !HasPrefix(TrimSpace(l), Marker(chars))
    ensures ToggleComments(l, chars) == Commenter.ToggleComments(l, Marker(chars))
    ensures ToggleComments(l, chars) == Marker(chars) + " " + l
  {
    Commenter.ToggleDispatch(l, Marker(chars));
  }

  /** A marker not followed by a space is recognised but not removed: toggling returns the line unchanged. */
  lemma ToggleBareMarkerIsIdentity(line: string, chars: map<string, string>)
    requires TrimSpace(line) == line
    requires HasPrefix(line, Marker(chars)) && !HasPrefix(line, Marker(chars) + " ")
    ensures ToggleComments(line, chars) == line
  {
  }

  /** Without a "singleLine" entry the marker is empty and every toggle just trims the line. */
  lemma ToggleMissingKey(line: string, chars: map<string, string>)
    requires SingleLineKey !in chars
    ensures ToggleComments(line, chars) == TrimSpace(line)
  {
    var t := TrimSpace(line);
    assert t[..0] == [];
    assert t != [] ==> t[..1] != " " by {
      if t != [] {
        assert t[..1][0] == t[0];
      }
    }
  }
}
