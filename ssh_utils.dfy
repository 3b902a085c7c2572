/**
 * The two checks of the SSH mode (utils/sshutils/ssh.go) that work on text
 * alone: splitting an "ssh://user@host/path" address into its parts, and
 * refusing a remote directory name that is blank or holds a shell
 * metacharacter.
 */
module SshUtils {
  import opened Wrappers
  import opened GoStrings

  // ---------------------------------------------------------------------
  // ParseSSHURL
  // ---------------------------------------------------------------------

  /** The single error ParseSSHURL reports, whatever the malformation. */
  datatype UrlError = InvalidFormat

  /** The named results of ParseSSHURL. */
  datatype SshTarget = SshTarget(username: string, host: string, path: string)

  const NoTarget := SshTarget([], [], [])

  /**
   * ParseSSHURL.  The trimmed address is cut at every '/'; it needs at
   * least four pieces (scheme, the empty piece between the two slashes,
   * user@host, path); the third piece must hold exactly one '@'.  The path
   * is the rest, joined back with '/'.  On an error all three results are
   * empty.
   */
  function ParseSSHURL(sshURL: string): (r: (SshTarget, Option<UrlError>))
    ensures r.1.Some? ==> r == (NoTarget, Some(InvalidFormat))
    ensures r.1.None? ==> '@' !in r.0.username && '@' !in r.0.host
    ensures r.1.None? ==> '/' !in r.0.username && '/' !in r.0.host
  {
    var t := TrimSpace(sshURL);
    var parts := Split(t, '/');
    if |parts| < 4 then (NoTarget, Some(InvalidFormat))
    else
      var userHost := Split(parts[2], '@');
      if |userHost| != 2 then (NoTarget, Some(InvalidFormat))
      else
        assert '/' !in userHost[0] && '/' !in userHost[1] by {
          assert userHost == [userHost[0]] + [userHost[1]];
          JoinSplit(parts[2], '@');
          assert parts[2] == userHost[0] + "@" + userHost[1];
        }
        (SshTarget(userHost[0], userHost[1], Join(parts[3..], "/")), None)
  }

  /**
   * The address is refused exactly when its trimmed form has fewer than
   * three '/', or when the piece between the second and third '/' does not
   * hold exactly one '@'.
   */
  lemma ParseRefuses(sshURL: string)
    ensures var t := TrimSpace(sshURL);
      ParseSSHURL(sshURL).1.Some? <==>
        multiset(t)['/'] < 3 || (|Split(t, '/')| > 2 && multiset(Split(t, '/')[2])['@'] != 1)
  {
    var t := TrimSpace(sshURL);
    SplitCount(t, '/');
    if |Split(t, '/')| >= 4 {
      SplitCount(Split(t, '/')[2], '@');
    }
  }

  /**
   * Composing an address and parsing it gives the parts back: a scheme
   * without '/', a user and a host without '/' or '@', and any path (which
   * may hold further '/').  Nothing at the ends may be white space, since
   * the address is trimmed first.
   */
  lemma ParseComposed(scheme: string, user: string, host: string, path: string)
    requires '/' !in scheme && (scheme == [] || !IsSpace(scheme[0]))
    requires '/' !in user && '@' !in user && '/' !in host && '@' !in host
    requires path == [] || !IsSpace(path[|path| - 1])
    ensures ParseSSHURL(scheme + "//" + user + "@" + host + "/" + path) == (SshTarget(user, host, path), None)
  {
    var uh := user + ['@'] + host;
    var s := scheme + "//" + user + "@" + host + "/" + path;
    ComposedTrimmed(scheme, user, host, path);
    ComposedSplit(scheme, user, host, path);
    assert Split(uh, '@') == [user, host] by {
      SplitAppend(user, '@', host);
      SplitSingle(user, '@');
      SplitSingle(host, '@');
    }
    JoinSplit(path, '/');
    assert ([scheme, [], uh] + Split(path, '/'))[3..] == Split(path, '/');
  }

  /** The composed address has no white space at either end. */
  lemma ComposedTrimmed(scheme: string, user: string, host: string, path: string)
    requires scheme == [] || !IsSpace(scheme[0])
    requires path == [] || !IsSpace(path[|path| - 1])
    ensures TrimSpace(scheme + "//" + user + "@" + host + "/" + path) == scheme + "//" + user + "@" + host + "/" + path
  {
    var s := scheme + "//" + user + "@" + host + "/" + path;
    assert s[0] == (if scheme == [] then '/' else scheme[0]) && s[|s| - 1] == (if path == [] then '/' else path[|path| - 1]) by {
      ComposedEnds(scheme, user, host, path);
    }
    TrimSpaceNoop(s);
  }

  /** The pieces of the composed address at '/': the scheme, "", user@host and the path's pieces. */
  lemma ComposedSplit(scheme: string, user: string, host: string, path: string)
    requires '/' !in scheme && '/' !in user && '/' !in host
    ensures Split(scheme + "//" + user + "@" + host + "/" + path, '/') == [scheme, [], user + ['@'] + host] + Split(path, '/')
  {
    ComposedNesting(scheme, user, host, path);
    SplitThree(scheme, user + ['@'] + host, path);
  }

  lemma ComposedNesting(scheme: string, user: string, host: string, path: string)
    ensures scheme + "//" + user + "@" + host + "/" + path
         == scheme + ['/'] + ([] + ['/'] + ((user + ['@'] + host) + ['/'] + path))
  {
  }

  lemma ComposedEnds(scheme: string, user: string, host: string, path: string)
    ensures var s := scheme + "//" + user + "@" + host + "/" + path;
      s[0] == (if scheme == [] then '/' else scheme[0])
      && s[|s| - 1] == (if path == [] then '/' else path[|path| - 1])
  {
  }

  lemma SplitThree(a: string, b: string, rest: string)
    requires '/' !in a && '/' !in b
    ensures Split(a + ['/'] + ([] + ['/'] + (b + ['/'] + rest)), '/') == [a, [], b] + Split(rest, '/')
  {
    var t2 := b + ['/'] + rest;
    var t1 := [] + ['/'] + t2;
    var t0 := a + ['/'] + t1;
    var tail := Split(rest, '/');
    assert Split(t2, '/') == [b] + tail by {
      SplitAppend(b, '/', rest);
      SplitSingle(b, '/');
    }
    assert Split(t1, '/') == [[]] + Split(t2, '/') by {
      SplitAppend([], '/', t2);
      SplitSingle([], '/');
    }
    assert Split(t0, '/') == [a] + Split(t1, '/') by {
      SplitAppend(a, '/', t1);
      SplitSingle(a, '/');
    }
    assert [a] + ([[]] + ([b] + tail)) == [a, [], b] + tail;
  }

  /** The address form the SSH mode expects. */
  lemma ParseExample()
    ensures ParseSSHURL("ssh://u@h/a/b") == (SshTarget("u", "h", "a/b"), None)
  {
    ParseComposed("ssh:", "u", "h", "a/b");
    assert "ssh:" + "//" + "u" + "@" + "h" + "/" + "a/b" == "ssh://u@h/a/b";
  }

  // ---------------------------------------------------------------------
  // validateDirectory
  // ---------------------------------------------------------------------

  /** The shell metacharacters a remote directory name may not hold, in the order they are checked. */
  const ForbiddenChars: string := "<>|&;$(){}[]`\\\"'"

  datatype DirError = EmptyPath | ForbiddenChar(c: char)

  /** The first character of `fs` that occurs in `d`, in the order of `fs`. */
  function FirstIn(d: string, fs: string): (r: Option<nat>)
    ensures r.None? <==> forall i :: 0 <= i < |fs| ==> fs[i] !in d
    ensures r.Some? ==> r.value < |fs| && fs[r.value] in d
    ensures r.Some? ==> forall j :: 0 <= j < r.value ==> fs[j] !in d
  {
    if fs == [] then None
    else if Contains(d, [fs[0]]) then
      assert fs[0] in d by { ContainsChar(d, fs[0]); }
      Some(0)
    else
      assert fs[0] !in d by { ContainsChar(d, fs[0]); }
      match FirstIn(d, fs[1..])
      case None => None
      case Some(k) => Some(k + 1)
  }

  /**
   * validateDirectory.  The name is trimmed; a blank name is refused;
   * otherwise the first metacharacter found, taking them in the order of
   * ForbiddenChars, is named in the error.
   */
  function ValidateDirectory(directory: string): (r: Option<DirError>)
    ensures r == Some(EmptyPath) <==> AllSpace(directory)
    ensures r.Some? && r.value.ForbiddenChar? ==> r.value.c in ForbiddenChars && r.value.c in directory
  {
    var t := TrimSpace(directory);
    if t == [] then Some(EmptyPath)
    else
      match FirstIn(t, ForbiddenChars)
      case None => None
      case Some(k) =>
        assert ForbiddenChars[k] in directory by { TrimSpaceKeeps(directory, ForbiddenChars[k]); }
        Some(ForbiddenChar(ForbiddenChars[k]))
  }

  /** No metacharacter is white space, so trimming never hides one. */
  lemma ForbiddenSurvivesTrim(d: string, c: char)
    requires c in ForbiddenChars
    ensures c in TrimSpace(d) <==> c in d
  {
    TrimSpaceKeeps(d, c);
    if c in d {
      var i :| 0 <= i < |d| && d[i] == c;
      NonSpaceSurvivesTrim(d, i);
    }
  }

  /** A name passes exactly when it is not blank and holds none of the metacharacters. */
  lemma AcceptsIff(directory: string)
    ensures ValidateDirectory(directory).None? <==>
      !AllSpace(directory) && forall c :: c in ForbiddenChars ==> c !in directory
  {
    forall c | c in ForbiddenChars {
      ForbiddenSurvivesTrim(directory, c);
    }
  }

  /**
   * The error names the metacharacter that comes first in ForbiddenChars
   * among those the name holds, wherever they sit in the name.
   */
  lemma NamesFirstInSetOrder(directory: string, k: nat)
    requires !AllSpace(directory)
    requires k < |ForbiddenChars| && ForbiddenChars[k] in directory
    requires forall j :: 0 <= j < k ==> ForbiddenChars[j] !in directory
    ensures ValidateDirectory(directory) == Some(ForbiddenChar(ForbiddenChars[k]))
  {
    var t := TrimSpace(directory);
    ForbiddenSurvivesTrim(directory, ForbiddenChars[k]);
    forall j | 0 <= j < k {
      ForbiddenSurvivesTrim(directory, ForbiddenChars[j]);
    }
    var r := FirstIn(t, ForbiddenChars);
    assert r.Some? && r.value == k;
  }

  /** "a;b<" names '<', which comes before ';' in the forbidden set although after it in the name. */
  lemma SetOrderExample()
    ensures ValidateDirectory("a;b<") == Some(ForbiddenChar('<'))
  {
    var d := "a;b<";
    assert d[3] == '<' && !IsSpace(d[0]);
    NamesFirstInSetOrder(d, 0);
  }
}
