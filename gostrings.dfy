/**
 * The parts of Go's `strings` and `strconv` packages that tgcom relies on,
 * stated over `string` (= `seq<char>`).  White space is the ASCII set that
 * `unicode.IsSpace` accepts; `strconv.Atoi` is an optional sign followed by
 * decimal digits whose value fits in a 64-bit `int`.
 */
module GoStrings {
  import opened Wrappers

  // ---------------------------------------------------------------------
  // White space and trimming (strings.TrimSpace)
  // ---------------------------------------------------------------------

  predicate IsSpace(c: char) {
    c == ' ' || c == '\t' || c == '\n' || c == '\r' || c == '\U{B}' || c == '\U{C}'
  }

  predicate AllSpace(s: string) {
    forall i :: 0 <= i < |s| ==> IsSpace(s[i])
  }

  /** Drops the leading white space: what is left starts with a non-space. */
  function TrimLeft(s: string): (r: string)
    ensures |r| <= |s| && r == s[|s| - |r|..]
    ensures AllSpace(s[..|s| - |r|])
    ensures r != [] ==> !IsSpace(r[0])
  {
    if s != [] && IsSpace(s[0]) then
      var r := TrimLeft(s[1..]);
      assert s[..|s| - |r|] == [s[0]] + s[1..][..|s| - 1 - |r|];
      r
    else
      s
  }

  /** Drops the trailing white space: what is left ends with a non-space. */
  function TrimRight(s: string): (r: string)
    ensures |r| <= |s| && r == s[..|r|]
    ensures AllSpace(s[|r|..])
    ensures r != [] ==> !IsSpace(r[|r| - 1])
  {
    if s != [] && IsSpace(s[|s| - 1]) then
      var r := TrimRight(s[..|s| - 1]);
      assert s[|r|..] == s[..|s| - 1][|r|..] + [s[|s| - 1]];
      r
    else
      s
  }

  /** strings.TrimSpace: the result neither starts nor ends with white space. */
  function TrimSpace(s: string): (r: string)
    ensures |r| <= |s|
    ensures r != [] ==> !IsSpace(r[0]) && !IsSpace(r[|r| - 1])
    ensures r == [] <==> AllSpace(s)
  {
    var l := TrimLeft(s);
    var r := TrimRight(l);
    assert r == [] ==> s == s[..|s| - |l|] + l;
    r
  }

  lemma {:induction false} TrimLeftOf(ws: string, x: string)
    requires AllSpace(ws)
    requires x == [] || !IsSpace(x[0])
    ensures TrimLeft(ws + x) == x
  {
    if ws != [] {
      assert (ws + x)[1..] == ws[1..] + x;
      TrimLeftOf(ws[1..], x);
    }
  }

  lemma {:induction false} TrimRightOf(x: string, ws: string)
    requires AllSpace(ws)
    requires x == [] || !IsSpace(x[|x| - 1])
    ensures TrimRight(x + ws) == x
  {
    if ws != [] {
      assert (x + ws)[..|x + ws| - 1] == x + ws[..|ws| - 1];
      TrimRightOf(x, ws[..|ws| - 1]);
    }
  }

  /** Trimming a line made of a non-blank core between two blank runs gives the core. */
  lemma TrimSpaceOf(pre: string, core: string, post: string)
    requires AllSpace(pre) && AllSpace(post)
    requires core == [] || (!IsSpace(core[0]) && !IsSpace(core[|core| - 1]))
    ensures TrimSpace(pre + core + post) == core
  {
    if core == [] {
      assert pre + core + post == pre + post;
      TrimLeftOf(pre + post, []);
      assert TrimLeft(pre + post) == [] by {
        assert AllSpace(pre + post);
        TrimLeftAllSpace(pre + post);
      }
    } else {
      assert pre + core + post == pre + (core + post);
      TrimLeftOf(pre, core + post);
      TrimRightOf(core, post);
    }
  }

  /** A string with no white space at either end is its own trimmed form. */
  lemma TrimSpaceNoop(s: string)
    requires s == [] || (!IsSpace(s[0]) && !IsSpace(s[|s| - 1]))
    ensures TrimSpace(s) == s
  {
    assert [] + s + [] == s;
    TrimSpaceOf([], s, []);
  }

  /** A non-space character survives trimming. */
  lemma NonSpaceSurvivesTrim(s: string, i: nat)
    requires i < |s| && !IsSpace(s[i])
    ensures s[i] in TrimSpace(s)
  {
    var l := TrimLeft(s);
    var t := TrimSpace(s);
    var k := |s| - |l|;
    assert AllSpace(s[..k]);
    assert k <= i;
    assert l[i - k] == s[i];
    assert t == TrimRight(l);
    assert AllSpace(l[|t|..]);
    assert i - k < |t|;
    assert t[i - k] == s[i];
  }

  /** Trimming leaves a slice of the input, starting at `k`. */
  lemma TrimSpaceSlice(s: string) returns (k: nat)
    ensures k + |TrimSpace(s)| <= |s| && TrimSpace(s) == s[k..k + |TrimSpace(s)|]
  {
    var l := TrimLeft(s);
    k := |s| - |l|;
    var t := TrimRight(l);
    assert TrimSpace(s) == t;
    assert l == s[k..];
    assert t == l[..|t|];
    assert l[..|t|] == s[k..k + |t|];
  }

  /** What trimming leaves is taken from the input. */
  lemma TrimSpaceKeeps(s: string, c: char)
    ensures c in TrimSpace(s) ==> c in s
  {
    var k := TrimSpaceSlice(s);
  }

  lemma {:induction false} TrimLeftAllSpace(s: string)
    requires AllSpace(s)
    ensures TrimLeft(s) == []
  {
    if s != [] {
      TrimLeftAllSpace(s[1..]);
    }
  }

  /** Trailing white space is trimmed from the last non-blank piece only. */
  lemma {:induction false} TrimRightAppend(x: string, y: string)
    requires !AllSpace(y)
    ensures TrimRight(x + y) == x + TrimRight(y)
  {
    assert y != [];
    if IsSpace(y[|y| - 1]) {
      var y' := y[..|y| - 1];
      assert !AllSpace(y') by {
        var i :| 0 <= i < |y| && !IsSpace(y[i]);
        assert i < |y| - 1 && y'[i] == y[i];
      }
      assert (x + y)[..|x + y| - 1] == x + y';
      TrimRightAppend(x, y');
    }
  }

  // ---------------------------------------------------------------------
  // Prefixes, suffixes, substring search (HasPrefix, Index, Contains, Replace)
  // ---------------------------------------------------------------------

  predicate HasPrefix(s: string, p: string) {
    |p| <= |s| && s[..|p|] == p
  }

  predicate HasSuffix(s: string, p: string) {
    |p| <= |s| && s[|s| - |p|..] == p
  }

  predicate OccursAt(s: string, p: string, i: int) {
    0 <= i && i + |p| <= |s| && s[i..i + |p|] == p
  }

  /** The first occurrence of `p` in `s` at or after `from`, or -1. */
  function IndexFrom(s: string, p: string, from: nat): (r: int)
    decreases |s| - from
    ensures r == -1 || (from <= r && OccursAt(s, p, r))
    ensures forall j :: from <= j && (r == -1 || j < r) ==> !OccursAt(s, p, j)
  {
    if from + |p| > |s| then -1
    else if s[from..from + |p|] == p then from
    else IndexFrom(s, p, from + 1)
  }

  /** strings.Index: the position of the first occurrence, or -1. */
  function Index(s: string, p: string): (r: int)
    ensures r == -1 || OccursAt(s, p, r)
    ensures forall j :: 0 <= j && (r == -1 || j < r) ==> !OccursAt(s, p, j)
  {
    IndexFrom(s, p, 0)
  }

  /** strings.Contains. */
  predicate Contains(s: string, p: string) {
    Index(s, p) >= 0
  }

  lemma IndexIsFirst(s: string, p: string, k: int)
    requires OccursAt(s, p, k)
    requires forall j :: 0 <= j < k ==> !OccursAt(s, p, j)
    ensures Index(s, p) == k
  {
  }

  lemma ContainsAt(s: string, p: string, k: int)
    requires OccursAt(s, p, k)
    ensures Contains(s, p)
  {
  }

  lemma {:induction false} ContainsInfix(a: string, s: string, b: string, p: string)
    requires Contains(s, p)
    ensures Contains(a + s + b, p)
  {
    var k := Index(s, p);
    assert (a + s + b)[|a| + k..|a| + k + |p|] == s[k..k + |p|];
    ContainsAt(a + s + b, p, |a| + k);
  }

  /** The empty pattern occurs at the front of every string. */
  lemma ContainsEmpty(s: string)
    ensures Contains(s, [])
  {
    assert OccursAt(s, [], 0);
  }

  /** A one-character pattern occurs exactly when the character does. */
  lemma ContainsChar(s: string, c: char)
    ensures Contains(s, [c]) <==> c in s
  {
    if c in s {
      var i :| 0 <= i < |s| && s[i] == c;
      assert s[i..i + 1] == [c];
      ContainsAt(s, [c], i);
    }
    if Contains(s, [c]) {
      var k := Index(s, [c]);
      assert s[k] == s[k..k + 1][0] == c;
    }
  }

  lemma SuffixContains(s: string, p: string)
    ensures HasSuffix(s, p) ==> Contains(s, p)
  {
    if HasSuffix(s, p) {
      ContainsAt(s, p, |s| - |p|);
    }
  }

  /** The trimmed string is an infix of the string, so whatever it contains the string contains. */
  lemma TrimSpaceContains(s: string, p: string)
    ensures Contains(TrimSpace(s), p) ==> Contains(s, p)
  {
    if Contains(TrimSpace(s), p) {
      var k := TrimSpaceSlice(s);
      SliceContains(s, TrimSpace(s), k, p);
    }
  }

  /** A pattern found in a slice is found in the whole. */
  lemma SliceContains(s: string, t: string, k: nat, p: string)
    requires k + |t| <= |s| && t == s[k..k + |t|]
    requires Contains(t, p)
    ensures Contains(s, p)
  {
    var i := Index(t, p);
    assert t[i..i + |p|] == p;
    assert forall j | 0 <= j < |p| :: s[k + i + j] == t[i + j] == p[j];
    assert s[k + i..k + i + |p|] == p;
    ContainsAt(s, p, k + i);
  }

  /** strings.Replace(s, pat, repl, 1): the first occurrence of `pat` is replaced. */
  function ReplaceFirst(s: string, pat: string, repl: string): string {
    var i := Index(s, pat);
    if i < 0 then s else s[..i] + repl + s[i + |pat|..]
  }

  /** strings.TrimPrefix. */
  function TrimPrefix(s: string, p: string): string {
    if HasPrefix(s, p) then s[|p|..] else s
  }

  // ---------------------------------------------------------------------
  // Splitting and joining on a separator (strings.Split, strings.Join)
  // ---------------------------------------------------------------------

  /**
   * strings.Split(s, string(c)): the pieces between the occurrences of `c`.
   * There is always one more piece than there are separators, and no piece
   * holds the separator.
   */
  function Split(s: string, c: char): (r: seq<string>)
    ensures |r| >= 1
    ensures forall i :: 0 <= i < |r| ==> c !in r[i]
  {
    if s == [] then [[]]
    else
      var rest := Split(s[1..], c);
      if s[0] == c then [[]] + rest
      else [[s[0]] + rest[0]] + rest[1..]
  }

  /** There is one more piece than there are separators. */
  lemma {:induction false} SplitCount(s: string, c: char)
    ensures |Split(s, c)| == multiset(s)[c] + 1
  {
    if s != [] {
      SplitCount(s[1..], c);
      assert s == [s[0]] + s[1..];
      assert multiset(s) == multiset{s[0]} + multiset(s[1..]);
    }
  }

  /** strings.Join. */
  function Join(parts: seq<string>, sep: string): string
  {
    if |parts| == 0 then []
    else if |parts| == 1 then parts[0]
    else parts[0] + sep + Join(parts[1..], sep)
  }

  /** Joining the pieces of a split with the same separator gives back the input. */
  lemma {:induction false} JoinSplit(s: string, c: char)
    ensures Join(Split(s, c), [c]) == s
  {
    if s != [] {
      var rest := Split(s[1..], c);
      JoinSplit(s[1..], c);
      if s[0] == c {
        assert Join([[]] + rest, [c]) == [] + [c] + Join(rest, [c]) by {
          assert ([[]] + rest)[1..] == rest;
        }
      } else {
        var parts := [[s[0]] + rest[0]] + rest[1..];
        if |rest| == 1 {
          assert Join(parts, [c]) == [s[0]] + rest[0];
        } else {
          assert parts[1..] == rest[1..];
          assert Join(rest, [c]) == rest[0] + [c] + Join(rest[1..], [c]);
          assert Join(parts, [c]) == [s[0]] + rest[0] + [c] + Join(rest[1..], [c]);
        }
      }
    }
  }

  /** One step of Split: the first character either ends the first piece or joins it. */
  lemma SplitCons(s: string, c: char)
    requires s != []
    ensures Split(s, c) == if s[0] == c then [[]] + Split(s[1..], c)
                           else [[s[0]] + Split(s[1..], c)[0]] + Split(s[1..], c)[1..]
  {
  }

  /** Splitting at a separator splits the two sides independently. */
  lemma {:induction false} SplitAppend(a: string, c: char, b: string)
    ensures Split(a + [c] + b, c) == Split(a, c) + Split(b, c)
  {
    var s := a + [c] + b;
    SplitCons(s, c);
    if a == [] {
      assert s[0] == c && s[1..] == b;
    } else {
      assert s[0] == a[0] && s[1..] == a[1..] + [c] + b;
      SplitAppend(a[1..], c, b);
      SplitCons(a, c);
    }
  }

  /** A string without the separator is a single piece. */
  lemma SplitSingle(s: string, c: char)
    requires c !in s
    ensures Split(s, c) == [s]
  {
    assert multiset(s)[c] == 0;
    SplitCount(s, c);
    JoinSplit(s, c);
  }

  // ---------------------------------------------------------------------
  // Decimal integers (strconv.Atoi and the %d verb)
  // ---------------------------------------------------------------------

  const MinInt64: int := -0x8000_0000_0000_0000
  const MaxInt64: int := 0x7FFF_FFFF_FFFF_FFFF

  predicate IsDigit(c: char) {
    '0' <= c <= '9'
  }

  predicate AllDigits(s: string) {
    forall i :: 0 <= i < |s| ==> IsDigit(s[i])
  }

  function DigitValue(c: char): nat
    requires IsDigit(c)
  {
    c as int - '0' as int
  }

  function DigitChar(d: nat): (c: char)
    requires d < 10
    ensures IsDigit(c) && DigitValue(c) == d
  {
    ('0' as int + d) as char
  }

  /** The value of a string of decimal digits, most significant first. */
  function DigitsValue(ds: string): nat
    requires AllDigits(ds)
  {
    if ds == [] then 0
    else DigitsValue(ds[..|ds| - 1]) * 10 + DigitValue(ds[|ds| - 1])
  }

  /**
   * strconv.Atoi: an optional `+` or `-` followed by at least one decimal
   * digit, with a value inside the 64-bit range; anything else is an error.
   */
  function Atoi(s: string): (r: Option<int>)
    ensures r.Some? ==> s != [] && forall i :: 0 <= i < |s| ==> IsDigit(s[i]) || (i == 0 && s[i] in "+-")
    ensures r.Some? ==> MinInt64 <= r.value <= MaxInt64
  {
    if s == [] then None
    else
      var body := if s[0] == '-' || s[0] == '+' then s[1..] else s;
      if body == [] || !AllDigits(body) then None
      else
        var v: int := if s[0] == '-' then -(DigitsValue(body) as int) else DigitsValue(body);
        if MinInt64 <= v <= MaxInt64 then Some(v) else None
  }

  /** The decimal form of a natural number, as `%d` prints it. */
  function Itoa(n: nat): (r: string)
    ensures r != [] && AllDigits(r)
  {
    if n < 10 then [DigitChar(n)] else Itoa(n / 10) + [DigitChar(n % 10)]
  }

  lemma {:induction false} ItoaValue(n: nat)
    ensures DigitsValue(Itoa(n)) == n
  {
    if n >= 10 {
      ItoaValue(n / 10);
      var r := Itoa(n);
      assert r[..|r| - 1] == Itoa(n / 10);
    }
  }

  /** Printing a number with %d and parsing it back with Atoi is the identity. */
  lemma AtoiItoa(n: nat)
    requires n <= MaxInt64
    ensures Atoi(Itoa(n)) == Some(n)
  {
    ItoaValue(n);
    var r := Itoa(n);
    assert IsDigit(r[0]);
  }

  // ---------------------------------------------------------------------
  // Case folding (strings.ToLower, ASCII letters only)
  // ---------------------------------------------------------------------

  function LowerChar(c: char): char {
    if 'A' <= c <= 'Z' then (c as int - 'A' as int + 'a' as int) as char else c
  }

  function ToLower(s: string): (r: string)
    ensures |r| == |s|
    ensures forall i :: 0 <= i < |s| ==> r[i] == LowerChar(s[i])
  {
    seq(|s|, i requires 0 <= i < |s| => LowerChar(s[i]))
  }
}
