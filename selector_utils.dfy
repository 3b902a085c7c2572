/**
 * The list and path helpers of the file selector
 * (utils/tui/modelutils/selectorutils.go): a membership search, a filter
 * that drops every copy of one entry, and the step up to a parent
 * directory.
 */
module SelectorUtils {
  import opened Wrappers
  import opened GoStrings
  import opened GoPath

  // ---------------------------------------------------------------------
  // Contains
  // ---------------------------------------------------------------------

  /** Contains: a linear search that stops at the first equal entry. */
  method Contains(arr: seq<string>, str: string) returns (found: bool)
    ensures found <==> str in arr
  {
    var i := 0;
    while i < |arr|
      invariant 0 <= i <= |arr|
      invariant str !in arr[..i]
    {
      if arr[i] == str {
        return true;
      }
      i := i + 1;
    }
    assert arr[..i] == arr;
    return false;
  }

  // ---------------------------------------------------------------------
  // Remove
  // ---------------------------------------------------------------------

  /** The entries of `s` that differ from `t`, in their original order. */
  function Without(s: seq<string>, t: string): seq<string>
  {
    if s == [] then []
    else Without(s[..|s| - 1], t) + (if s[|s| - 1] != t then [s[|s| - 1]] else [])
  }

  /** Remove: a fresh slice, appended to once for every entry other than the target. */
  method Remove(slice: seq<string>, target: string) returns (result: seq<string>)
    ensures result == Without(slice, target)
  {
    result := [];
    for i := 0 to |slice|
      invariant result == Without(slice[..i], target)
    {
      assert slice[..i + 1][..i] == slice[..i];
      if slice[i] != target {
        result := result + [slice[i]];
      }
    }
    assert slice[..|slice|] == slice;
  }

  /** Filtering distributes over concatenation: the kept entries stay in their order. */
  lemma {:induction false} WithoutAppend(a: seq<string>, b: seq<string>, t: string)
    ensures Without(a + b, t) == Without(a, t) + Without(b, t)
    decreases |b|
  {
    if b != [] {
      var b' := b[..|b| - 1];
      assert (a + b)[..|a + b| - 1] == a + b';
      WithoutAppend(a, b', t);
    } else {
      assert a + b == a;
    }
  }

  /**
   * Exactly the copies of the target go: every other entry keeps its
   * number of occurrences, and the length drops by the target's count.
   */
  lemma {:induction false} WithoutCounts(s: seq<string>, t: string)
    ensures multiset(Without(s, t)) == multiset(s)[t := 0]
    ensures t !in Without(s, t)
    ensures |Without(s, t)| == |s| - multiset(s)[t]
  {
    if s != [] {
      var init := s[..|s| - 1];
      var last := s[|s| - 1];
      WithoutCounts(init, t);
      assert s == init + [last];
      assert multiset(s) == multiset(init) + multiset{last};
    }
    assert t !in multiset(Without(s, t));
  }

  /** Removing an entry that is not there gives the list back unchanged. */
  lemma {:induction false} WithoutAbsent(s: seq<string>, t: string)
    requires t !in s
    ensures Without(s, t) == s
  {
    if s != [] {
      assert t !in s[..|s| - 1];
      WithoutAbsent(s[..|s| - 1], t);
    }
  }

  /** A single entry is kept exactly when it differs from the target. */
  lemma WithoutSingle(x: string, t: string)
    ensures Without([x], t) == if x == t then [] else [x]
  {
    assert [x][..0] == [];
  }

  /** Removing twice removes nothing more. */
  lemma WithoutIdempotent(s: seq<string>, t: string)
    ensures Without(Without(s, t), t) == Without(s, t)
  {
    WithoutCounts(s, t);
    WithoutAbsent(Without(s, t), t);
  }

  // ---------------------------------------------------------------------
  // GetParentDirectory
  // ---------------------------------------------------------------------

  /** The error for a path whose parent is itself. */
  datatype ParentError = RootOrInvalid(path: string)

  /**
   * GetParentDirectory.  A path that cleans to "/" is handed back as it
   * was, with no error; otherwise the parent is filepath.Dir of the path,
   * and a parent equal to the path itself is an error with an empty
   * result.
   */
  function GetParentDirectory(path: string): (r: (string, Option<ParentError>))
    ensures r.1.Some? ==> r.0 == [] && r.1 == Some(RootOrInvalid(path))
    ensures r.1.None? ==> r.0 != []
    ensures r.1.None? && HasPrefix(path, "/") ==> r.0[0] == '/'
    ensures r.1.None? && Clean(path) != "/" ==> r.0 != path
  {
    if Clean(path) == "/" then (path, None)
    else
      var parent := Dir(path);
      if parent == path then ([], Some(RootOrInvalid(path)))
      else (parent, None)
  }

  /** The root itself: handed back unchanged and with no error. */
  lemma ParentOfRoot()
    ensures GetParentDirectory("/") == ("/", None)
  {
    assert Split("/", '/') == [[], []];
    assert CleanElements([[], []], true) == [];
  }

  /** Away from the root, the result is the directory part of the path, and an error exactly when that is the path itself. */
  lemma ParentIsDir(path: string)
    requires Clean(path) != "/"
    ensures GetParentDirectory(path).1.None? <==> Dir(path) != path
    ensures GetParentDirectory(path).1.None? ==> GetParentDirectory(path).0 == Dir(path)
  {
  }

  /** A bare name (no separator) has "." as its parent; "." itself has none. */
  lemma ParentOfName(name: string)
    requires '/' !in name
    ensures GetParentDirectory(name) == if name == "." then ([], Some(RootOrInvalid("."))) else (".", None)
  {
    assert !HasPrefix(name, "/") by {
      if name != [] {
        assert name[0] in name;
        assert name[..1][0] == name[0];
      }
    }
    assert Clean(name) != "/";
  }

  /** A name that Clean keeps as it is: not empty, not "." or "..", no separator. */
  predicate PlainName(a: string) {
    a != [] && a != "." && a != ".." && '/' !in a
  }

  /** One level up from a directory two levels below the root: "/a/b" gives "/a". */
  lemma ParentOfNested(a: string, b: string)
    requires PlainName(a) && PlainName(b)
    ensures GetParentDirectory("/" + a + "/" + b) == ("/" + a, None)
  {
    var p := "/" + a + "/" + b;
    CleanOfNested(a, b);
    DirOfNested(a, b);
    assert |"/" + a| < |p|;
  }

  lemma SplitNested(a: string, b: string)
    requires '/' !in a && '/' !in b
    ensures Split("/" + a + "/" + b, '/') == [[], a, b]
  {
    assert "/" + a + "/" + b == [] + ['/'] + (a + ['/'] + b);
    SplitAppend([], '/', a + ['/'] + b);
    SplitAppend(a, '/', b);
    SplitSingle(a, '/');
    SplitSingle(b, '/');
  }

  lemma CleanKeepsTwo(a: string, b: string)
    requires PlainName(a)
    requires '/' !in b
    ensures CleanElements([[], a, b], true) == if PlainName(b) then [a, b] else if b == [] then [a] else CleanStep([a], b, true)
  {
    var e: seq<string> := [[], a, b];
    assert e[..2][..1] == [[]] && e[..2][..1][..0] == [];
    assert CleanElements(e[..2][..1], true) == [];
    assert CleanElements(e[..2], true) == [a];
  }

  lemma CleanOfNested(a: string, b: string)
    requires PlainName(a) && PlainName(b)
    ensures Clean("/" + a + "/" + b) == "/" + a + "/" + b
  {
    var p := "/" + a + "/" + b;
    SplitNested(a, b);
    CleanKeepsTwo(a, b);
    assert HasPrefix(p, "/") by {
      assert p[..1] == "/";
    }
    JoinPair(a, b);
    assert p == "/" + (a + "/" + b);
  }

  lemma JoinPair(a: string, b: string)
    ensures Join([a, b], "/") == a + "/" + b
  {
    assert [a, b][1..] == [b];
  }

  lemma DirOfNested(a: string, b: string)
    requires PlainName(a) && PlainName(b)
    ensures Dir("/" + a + "/" + b) == "/" + a
  {
    var p := "/" + a + "/" + b;
    var k := |a| + 1;
    assert p[k] == '/';
    assert forall j :: k < j < |p| ==> p[j] == b[j - k - 1];
    assert LastSlash(p) == k;
    var q := p[..k + 1];
    assert q == "/" + a + "/" + [];
    SplitNested(a, []);
    CleanKeepsTwo(a, []);
    assert HasPrefix(q, "/");
    assert Join([a], "/") == a;
  }
}
