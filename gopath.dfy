/**
 * Lexical path handling from Go's `path/filepath` on a Unix system (the
 * separator is '/', there is no volume name): `Ext`, `Clean` and `Dir`.
 */
module GoPath {
  import opened GoStrings

  // ---------------------------------------------------------------------
  // filepath.Ext
  // ---------------------------------------------------------------------

  function ExtFrom(path: string, i: nat): (r: string)
    requires i <= |path|
    requires forall k :: i <= k < |path| ==> path[k] != '.' && path[k] != '/'
    ensures r == [] || (r[0] == '.' && HasSuffix(path, r))
    ensures forall k :: 0 < k < |r| ==> r[k] != '.' && r[k] != '/'
    decreases i
  {
    if i == 0 || path[i - 1] == '/' then []
    else if path[i - 1] == '.' then path[i - 1..]
    else ExtFrom(path, i - 1)
  }

  /**
   * filepath.Ext: the suffix of the last path element that starts at its
   * final '.', or "" when that element has no '.'.
   */
  function Ext(path: string): (r: string)
    ensures r == [] || (r[0] == '.' && HasSuffix(path, r))
    ensures forall k :: 0 < k < |r| ==> r[k] != '.' && r[k] != '/'
  {
    ExtFrom(path, |path|)
  }

  lemma {:induction false} ExtFromDot(path: string, i: nat, j: nat)
    requires j < i <= |path| && path[j] == '.'
    requires forall k :: j < k < |path| ==> path[k] != '.' && path[k] != '/'
    ensures ExtFrom(path, i) == path[j..]
    decreases i
  {
    if i - 1 > j {
      ExtFromDot(path, i - 1, j);
    }
  }

  /** A final element "name.e", with `e` free of '.' and '/', has the extension ".e". */
  lemma ExtOf(name: string, ext: string)
    requires ext != [] && ext[0] == '.'
    requires forall k :: 0 < k < |ext| ==> ext[k] != '.' && ext[k] != '/'
    ensures Ext(name + ext) == ext
  {
    var p := name + ext;
    var j := |name|;
    assert forall k :: j < k < |p| ==> p[k] == ext[k - j];
    ExtFromDot(p, |p|, j);
    assert p[j..] == ext;
  }

  // ---------------------------------------------------------------------
  // filepath.Clean
  // ---------------------------------------------------------------------

  /** One path element processed against the stack of kept elements. */
  function CleanStep(stack: seq<string>, elem: string, rooted: bool): seq<string>
  {
    if elem == "" || elem == "." then stack
    else if elem == ".." then
      if |stack| > 0 && stack[|stack| - 1] != ".." then stack[..|stack| - 1]
      else if rooted then stack
      else stack + [".."]
    else stack + [elem]
  }

  /**
   * The elements `Clean` keeps: empty and "." elements vanish, ".." removes
   * the element before it, and a ".." at the start of a rooted path is dropped.
   */
  function CleanElements(elems: seq<string>, rooted: bool): (r: seq<string>)
    requires forall i :: 0 <= i < |elems| ==> '/' !in elems[i]
    ensures forall i :: 0 <= i < |r| ==> r[i] != [] && '/' !in r[i]
  {
    if elems == [] then []
    else CleanStep(CleanElements(elems[..|elems| - 1], rooted), elems[|elems| - 1], rooted)
  }

  lemma JoinStart(parts: seq<string>, sep: string)
    requires |parts| > 0 && parts[0] != []
    ensures Join(parts, sep) != [] && Join(parts, sep)[0] == parts[0][0]
  {
  }

  /**
   * filepath.Clean: the shortest lexically equivalent path.  The result is
   * never empty, and it is rooted exactly when the input is.
   */
  function Clean(path: string): (r: string)
    ensures r != []
    ensures r[0] == '/' <==> HasPrefix(path, "/")
  {
    var rooted := HasPrefix(path, "/");
    var kept := CleanElements(Split(path, '/'), rooted);
    var body := Join(kept, "/");
    assert |kept| > 0 ==> body != [] && body[0] == kept[0][0] by {
      if |kept| > 0 { JoinStart(kept, "/"); }
    }
    if rooted then "/" + body else if body == [] then "." else body
  }

  // ---------------------------------------------------------------------
  // filepath.Dir
  // ---------------------------------------------------------------------

  /** The index of the last '/' in `path`, or -1. */
  function LastSlash(path: string): (r: int)
    ensures -1 <= r < |path|
    ensures r >= 0 ==> path[r] == '/'
    ensures forall k :: r < k < |path| ==> path[k] != '/'
  {
    if path == [] then -1
    else if path[|path| - 1] == '/' then |path| - 1
    else LastSlash(path[..|path| - 1])
  }

  /** filepath.Dir: everything up to the last separator, cleaned. */
  function Dir(path: string): (r: string)
    ensures r != []
    ensures HasPrefix(path, "/") ==> r[0] == '/'
    ensures '/' !in path ==> r == "."
  {
    var i := LastSlash(path);
    assert HasPrefix(path, "/") ==> HasPrefix(path[..i + 1], "/") by {
      if HasPrefix(path, "/") {
        assert path[0] == path[..1][0] == '/';
        assert i >= 0;
        assert path[..i + 1][..1] == path[..1];
      }
    }
    assert i < 0 ==> path[..i + 1] == [];
    Clean(path[..i + 1])
  }
}
