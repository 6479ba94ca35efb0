/** The parts of Python's `str` and `list` semantics that the modelled code
    relies on: stripping, slicing with clamped and negative indices, `split`,
    `join`, `splitlines`, `find`, `rfind`, `count` and `in`. The scans are
    written over an index into the string rather than over ever shorter
    suffixes of it. */
module PyStr {

  /** The characters for which Python's `str.isspace()` holds; `str.strip()`
      with no argument removes exactly these. */
  const Whitespace: set<char> := {
    ' ', '\t', '\n', '\r', '\U{0B}', '\U{0C}', '\U{1C}', '\U{1D}', '\U{1E}', '\U{1F}',
    '\U{85}', '\U{A0}', '\U{1680}', '\U{2000}', '\U{2001}', '\U{2002}', '\U{2003}',
    '\U{2004}', '\U{2005}', '\U{2006}', '\U{2007}', '\U{2008}', '\U{2009}', '\U{200A}',
    '\U{2028}', '\U{2029}', '\U{202F}', '\U{205F}', '\U{3000}'
  }

  /** The line boundaries recognised by `str.splitlines()` ("\r\n" counts as one). */
  const LineBoundaries: set<char> := {
    '\n', '\r', '\U{0B}', '\U{0C}', '\U{1C}', '\U{1D}', '\U{1E}', '\U{85}', '\U{2028}', '\U{2029}'
  }

  function Min(a: int, b: int): int { if a <= b then a else b }

  function Max(a: int, b: int): int { if a <= b then b else a }

  function Abs(a: int): nat { if a < 0 then -a else a }

  /** The first index at or after `i` whose character is not in `cs` (or `|s|`). */
  function SkipFrom(s: string, cs: set<char>, i: nat): (k: nat)
    requires i <= |s|
    ensures i <= k <= |s|
    ensures k < |s| ==> s[k] !in cs
    ensures forall j :: i <= j < k ==> s[j] in cs
    decreases |s| - i
  {
    if i < |s| && s[i] in cs then SkipFrom(s, cs, i + 1) else i
  }

  /** The least `k <= j` such that `s[k..j]` is made of characters in `cs`. */
  function SkipBackFrom(s: string, cs: set<char>, j: nat): (k: nat)
    requires j <= |s|
    ensures k <= j
    ensures k > 0 ==> s[k - 1] !in cs
    ensures forall i :: k <= i < j ==> s[i] in cs
  {
    if j > 0 && s[j - 1] in cs then SkipBackFrom(s, cs, j - 1) else j
  }

  /** `s.lstrip(cs)`. */
  function LStrip(s: string, cs: set<char>): string
  {
    s[SkipFrom(s, cs, 0)..]
  }

  /** `s.rstrip(cs)`. */
  function RStrip(s: string, cs: set<char>): string
  {
    s[..SkipBackFrom(s, cs, |s|)]
  }

  /** `s.strip(cs)`: both ends. */
  function Strip(s: string, cs: set<char>): (r: string)
    ensures r == [] || (r[0] !in cs && r[|r| - 1] !in cs)
  {
    LStrip(RStrip(s, cs), cs)
  }

  /** A string that already has no stripped character at either end is its own strip. */
  lemma StripOfStripped(s: string, cs: set<char>)
    requires s == [] || (s[0] !in cs && s[|s| - 1] !in cs)
    ensures Strip(s, cs) == s
  {
    assert SkipBackFrom(s, cs, |s|) == |s|;
    assert s[..|s|] == s;
    assert SkipFrom(s, cs, 0) == 0;
  }

  /** Stripping is idempotent: `s.strip().strip() == s.strip()`. */
  lemma StripIdempotent(s: string, cs: set<char>)
    ensures Strip(Strip(s, cs), cs) == Strip(s, cs)
  {
    StripOfStripped(Strip(s, cs), cs);
  }

  predicate StartsWith(s: string, p: string) {
    |p| <= |s| && s[..|p|] == p
  }

  predicate EndsWith(s: string, p: string) {
    |p| <= |s| && s[|s| - |p|..] == p
  }

  /** Whether `sub` occurs in `s` at some index at or after `i`. */
  predicate ContainsFrom(s: string, sub: string, i: nat)
    decreases |s| - i
  {
    i + |sub| <= |s| && (s[i..i + |sub|] == sub || ContainsFrom(s, sub, i + 1))
  }

  /** `sub in s`: substring containment (the empty string is in every string). */
  predicate Contains(s: string, sub: string)
  {
    ContainsFrom(s, sub, 0)
  }

  /** The first index at or after `i` holding `c`, or -1. */
  function FindFrom(s: string, c: char, i: nat): (k: int)
    ensures k == -1 || i <= k < |s|
    ensures k >= 0 ==> s[k] == c && forall j :: i <= j < k ==> s[j] != c
    ensures k == -1 ==> forall j :: i <= j < |s| ==> s[j] != c
    decreases |s| - i
  {
    if i >= |s| then -1 else if s[i] == c then i else FindFrom(s, c, i + 1)
  }

  /** `s.find(c)` for a one-character argument. */
  function Find(s: string, c: char): int
  {
    FindFrom(s, c, 0)
  }

  /** The last index below `j` holding `c`, or -1. */
  function RFindBefore(s: string, c: char, j: nat): (k: int)
    requires j <= |s|
    ensures -1 <= k < j
    ensures k >= 0 ==> s[k] == c && forall i :: k < i < j ==> s[i] != c
    ensures k == -1 ==> forall i :: 0 <= i < j ==> s[i] != c
  {
    if j == 0 then -1 else if s[j - 1] == c then j - 1 else RFindBefore(s, c, j - 1)
  }

  /** `s.rfind(c)` for a one-character argument. */
  function RFind(s: string, c: char): int
  {
    RFindBefore(s, c, |s|)
  }

  /** Python's normalisation of one slice bound against a length `n`. */
  function SliceBound(i: int, n: nat): (b: nat)
    ensures b <= n
    ensures 0 <= i <= n ==> b == i
  {
    if i < 0 then (if i + n < 0 then 0 else i + n) else if i > n then n else i
  }

  /** `s[i:j]` with Python's clamping and negative indices. */
  function Slice<T>(s: seq<T>, i: int, j: int): (r: seq<T>)
    ensures |r| <= |s|
    ensures 0 <= i <= j <= |s| ==> r == s[i..j]
  {
    var a, b := SliceBound(i, |s|), SliceBound(j, |s|);
    if a < b then s[a..b] else []
  }

  /** The pieces of `s[i..]` between occurrences of `c`. */
  function SplitFrom(s: string, c: char, i: nat): (r: seq<string>)
    requires i <= |s|
    ensures |r| >= 1
    decreases |s| - i
  {
    var k := FindFrom(s, c, i);
    if k < 0 then [s[i..]] else [s[i..k]] + SplitFrom(s, c, k + 1)
  }

  /** `s.split(c)` for a one-character separator. */
  function Split(s: string, c: char): (r: seq<string>)
    ensures |r| >= 1
  {
    SplitFrom(s, c, 0)
  }

  /** `sep.join(parts)`. */
  function Join(parts: seq<string>, sep: string): string
  {
    if |parts| == 0 then ""
    else if |parts| == 1 then parts[0]
    else parts[0] + sep + Join(parts[1..], sep)
  }

  /** No piece of a split holds the separator. */
  lemma {:induction false} SplitFromPieces(s: string, c: char, i: nat)
    requires i <= |s|
    ensures forall k :: 0 <= k < |SplitFrom(s, c, i)| ==> c !in SplitFrom(s, c, i)[k]
    decreases |s| - i
  {
    var k := FindFrom(s, c, i);
    if k >= 0 {
      SplitFromPieces(s, c, k + 1);
      var rest := SplitFrom(s, c, k + 1);
      assert SplitFrom(s, c, i) == [s[i..k]] + rest;
      assert c !in s[i..k];
    } else {
      assert c !in s[i..];
    }
  }

  /** Joining a non-empty tail after a first piece puts one separator between them. */
  lemma JoinCons(head: string, rest: seq<string>, sep: string)
    requires |rest| >= 1
    ensures Join([head] + rest, sep) == head + sep + Join(rest, sep)
  {
    assert ([head] + rest)[1..] == rest;
  }

  /** Joining the pieces of a split with the separator gives the string back. */
  lemma {:induction false} JoinSplitFrom(s: string, c: char, i: nat)
    requires i <= |s|
    ensures Join(SplitFrom(s, c, i), [c]) == s[i..]
    decreases |s| - i
  {
    var k := FindFrom(s, c, i);
    if k >= 0 {
      var rest := SplitFrom(s, c, k + 1);
      assert SplitFrom(s, c, i) == [s[i..k]] + rest;
      JoinSplitFrom(s, c, k + 1);
      JoinCons(s[i..k], rest, [c]);
      SliceAround(s, i, k);
    }
  }

  lemma SliceAround<T>(s: seq<T>, i: nat, k: nat)
    requires i <= k < |s|
    ensures s[i..] == s[i..k] + [s[k]] + s[k + 1..]
  {
  }

  /** `FindFrom` finds the first occurrence at or after `i`. */
  lemma {:induction false} FindFromIs(s: string, c: char, i: nat, k: nat)
    requires i <= k < |s| && s[k] == c
    requires forall j :: i <= j < k ==> s[j] != c
    ensures FindFrom(s, c, i) == k
    decreases k - i
  {
    if i < k {
      FindFromIs(s, c, i + 1, k);
    }
  }

  /** `sep.join(s.split(sep)) == s`. */
  lemma JoinSplit(s: string, c: char)
    ensures Join(Split(s, c), [c]) == s
  {
    JoinSplitFrom(s, c, 0);
  }

  /** Splitting a join of separator-free pieces gives the pieces back. */
  lemma {:induction false} SplitJoin(parts: seq<string>, c: char)
    requires |parts| >= 1
    requires forall k :: 0 <= k < |parts| ==> c !in parts[k]
    ensures Split(Join(parts, [c]), c) == parts
    decreases |parts|
  {
    var s := Join(parts, [c]);
    if |parts| > 1 {
      var head, rest := parts[0], Join(parts[1..], [c]);
      assert s == head + [c] + rest;
      assert forall j :: 0 <= j < |head| ==> s[j] == head[j];
      FindFromIs(s, c, 0, |head|);
      SplitJoin(parts[1..], c);
      SplitFromShift(head + [c], rest, c);
      assert s[..|head|] == head;
    } else {
      assert FindFrom(s, c, 0) == -1 by {
        assert forall j :: 0 <= j < |s| ==> s[j] == parts[0][j];
      }
    }
  }

  /** Splitting after a prefix is splitting the rest. */
  lemma {:induction false} SplitFromShiftAt(p: string, q: string, c: char, i: nat)
    requires i <= |q|
    ensures SplitFrom(p + q, c, |p| + i) == SplitFrom(q, c, i)
    decreases |q| - i
  {
    var s := p + q;
    var k := FindFrom(s, c, |p| + i);
    var k' := FindFrom(q, c, i);
    assert forall j :: 0 <= j < |q| ==> s[|p| + j] == q[j];
    assert k == (if k' < 0 then -1 else |p| + k') by {
      if k' >= 0 {
        assert FindFrom(s, c, |p| + i) == |p| + k' by {
          FindFromShift(p, q, c, i);
        }
      } else {
        FindFromShift(p, q, c, i);
      }
    }
    if k' >= 0 {
      SplitFromShiftAt(p, q, c, k' + 1);
      assert s[|p| + i..|p| + k'] == q[i..k'];
    } else {
      assert s[|p| + i..] == q[i..];
    }
  }

  lemma {:induction false} FindFromShift(p: string, q: string, c: char, i: nat)
    requires i <= |q|
    ensures var k' := FindFrom(q, c, i);
      FindFrom(p + q, c, |p| + i) == if k' < 0 then -1 else |p| + k'
    decreases |q| - i
  {
    var s := p + q;
    if i < |q| {
      assert s[|p| + i] == q[i];
      if q[i] != c {
        FindFromShift(p, q, c, i + 1);
      }
    }
  }

  lemma SplitFromShift(p: string, q: string, c: char)
    ensures SplitFrom(p + q, c, |p|) == Split(q, c)
  {
    SplitFromShiftAt(p, q, c, 0);
  }

  /** The first index at or after `i` holding a character of `cs` (or `|s|`). */
  function IndexOfAnyFrom(s: string, cs: set<char>, i: nat): (k: nat)
    requires i <= |s|
    ensures i <= k <= |s|
    ensures k < |s| ==> s[k] in cs
    decreases |s| - i
  {
    if i == |s| || s[i] in cs then i else IndexOfAnyFrom(s, cs, i + 1)
  }

  /** The lines of `s[i..]` as `splitlines()` gives them. */
  function SplitLinesFrom(s: string, i: nat): seq<string>
    requires i <= |s|
    decreases |s| - i
  {
    if i == |s| then []
    else
      var k := IndexOfAnyFrom(s, LineBoundaries, i);
      if k == |s| then [s[i..]]
      else
        var next := if s[k] == '\r' && k + 1 < |s| && s[k + 1] == '\n' then k + 2 else k + 1;
        [s[i..k]] + SplitLinesFrom(s, next)
  }

  /** `s.splitlines()`: lines without their terminators, no empty last line
      after a final terminator, and `[]` for `""`. */
  function SplitLines(s: string): seq<string>
  {
    SplitLinesFrom(s, 0)
  }

  /** Non-overlapping occurrences of `p` in `s[i..]`, scanned from the left. */
  function CountFrom(s: string, p: string, i: nat): nat
    requires |p| > 0
    decreases |s| - i
  {
    if i + |p| > |s| then 0
    else if s[i..i + |p|] == p then 1 + CountFrom(s, p, i + |p|)
    else CountFrom(s, p, i + 1)
  }

  /** `s.count(p)` for a non-empty `p`. */
  function CountOf(s: string, p: string): nat
    requires |p| > 0
  {
    CountFrom(s, p, 0)
  }

  /** `c * n` for a one-character string. */
  function Repeat(c: char, n: nat): (r: string)
    ensures |r| == n && forall i :: 0 <= i < n ==> r[i] == c
  {
    if n == 0 then "" else Repeat(c, n - 1) + [c]
  }

  /** `len(s) - len(s.rstrip(c))`: how many copies of `c` end `s`. */
  function TrailingCount(s: string, c: char): (n: nat)
    ensures n <= |s|
    ensures forall i :: |s| - n <= i < |s| ==> s[i] == c
    ensures n < |s| ==> s[|s| - n - 1] != c
  {
    |s| - SkipBackFrom(s, {c}, |s|)
  }

  /** `SkipBackFrom` stops exactly at the start of the trailing run of `cs`. */
  lemma {:induction false} SkipBackFromIs(s: string, cs: set<char>, j: nat, k: nat)
    requires k <= j <= |s|
    requires forall i :: k <= i < j ==> s[i] in cs
    requires k == 0 || s[k - 1] !in cs
    ensures SkipBackFrom(s, cs, j) == k
    decreases j - k
  {
    if k < j {
      SkipBackFromIs(s, cs, j - 1, k);
    }
  }

  /** A text without a final `c`, padded with `n` copies of `c`, ends in exactly
      `n` of them, and right-stripping `c` gives the text back. */
  lemma TrailingCountOfPadded(base: string, c: char, n: nat)
    requires base == [] || base[|base| - 1] != c
    ensures TrailingCount(base + Repeat(c, n), c) == n
    ensures RStrip(base + Repeat(c, n), {c}) == base
  {
    var s := base + Repeat(c, n);
    assert forall i :: |base| <= i < |s| ==> s[i] == Repeat(c, n)[i - |base|];
    assert |base| > 0 ==> s[|base| - 1] == base[|base| - 1];
    SkipBackFromIs(s, {c}, |s|, |base|);
    assert s[..|base|] == base;
  }
}
