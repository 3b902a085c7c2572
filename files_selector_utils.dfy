/**
 * The second copy of the selector helpers (tui-tgcom/files_selector/utils/utils.go).
 * Its Contains, Remove and GetParentDirectory are line-for-line the ones in
 * utils/tui/modelutils/selectorutils.go, so each is the shared model with
 * the promises of this copy stated again.
 */
module FilesSelectorUtils {
  import opened Wrappers
  import opened GoStrings
  import opened GoPath
  import SelectorUtils

  /** Contains: true exactly when some entry equals `str`. */
  method Contains(arr: seq<string>, str: string) returns (found: bool)
    ensures found <==> exists i :: 0 <= i < |arr| && arr[i] == str
  {
    found := SelectorUtils.Contains(arr, str);
  }

  /** Remove: the other entries in order; the target is gone and the length drops by its count. */
  method Remove(slice: seq<string>, target: string) returns (result: seq<string>)
    ensures result == SelectorUtils.Without(slice, target)
    ensures target !in result
    ensures |result| == |slice| - multiset(slice)[target]
    ensures forall x :: x != target ==> multiset(result)[x] == multiset(slice)[x]
  {
    result := SelectorUtils.Remove(slice, target);
    SelectorUtils.WithoutCounts(slice, target);
  }

  /** GetParentDirectory: the root is handed back as it is; elsewhere the parent is filepath.Dir, an error when that is the path itself. */
  function GetParentDirectory(path: string): (r: (string, Option<SelectorUtils.ParentError>))
    ensures Clean(path) == "/" ==> r == (path, None)
    ensures Clean(path) != "/" ==> (r.1.None? <==> Dir(path) != path)
    ensures Clean(path) != "/" && r.1.None? ==> r.0 == Dir(path)
    ensures r.1.Some? ==> r.0 == []
  {
    SelectorUtils.GetParentDirectory(path)
  }
}
