/** The string operations the bot applies to cell text, search terms and location
    lists: Python's `str.strip()` (no argument), `str.lower()`, `str.upper()`,
    `str.split(sep)`, `sep.join(xs)` and `str.replace(old, new)`. */
module Text {
  import opened Wrappers

  /** Python's `str.isspace()` for one character: the ASCII controls TAB to CR,
      the four information separators, SPACE, NEL, NO-BREAK SPACE and the Unicode
      space separators. */
  predicate IsSpace(c: char) {
    var n := c as int;
    (9 <= n <= 13) || (28 <= n <= 32) || n == 0x85 || n == 0xA0 || n == 0x1680 ||
    (0x2000 <= n <= 0x200A) || n == 0x2028 || n == 0x2029 || n == 0x202F ||
    n == 0x205F || n == 0x3000
  }

  /** Every character of `s` from position `lo` up to `hi` is whitespace. */
  predicate AllSpaceIn(s: string, lo: int, hi: int)
    requires 0 <= lo <= hi <= |s|
  {
    forall k :: lo <= k < hi ==> IsSpace(s[k])
  }

  /** The length of the longest prefix of `s` made of whitespace. */
  function LeadingSpaces(s: string): (n: nat)
    ensures n <= |s|
    ensures AllSpaceIn(s, 0, n)
    ensures n < |s| ==> !IsSpace(s[n])
  {
    if s != [] && IsSpace(s[0]) then 1 + LeadingSpaces(s[1..]) else 0
  }

  /** The length of the longest suffix of `s` made of whitespace. */
  function TrailingSpaces(s: string): (n: nat)
    ensures n <= |s|
    ensures AllSpaceIn(s, |s| - n, |s|)
    ensures n < |s| ==> !IsSpace(s[|s| - 1 - n])
  {
    if s != [] && IsSpace(s[|s| - 1]) then 1 + TrailingSpaces(s[..|s| - 1]) else 0
  }

  /** The two conditions on LeadingSpaces determine it. */
  lemma LeadingSpacesUnique(s: string, n: nat)
    requires n <= |s| && AllSpaceIn(s, 0, n) && (n < |s| ==> !IsSpace(s[n]))
    ensures n == LeadingSpaces(s)
  {
  }

  /** The two conditions on TrailingSpaces determine it. */
  lemma TrailingSpacesUnique(s: string, n: nat)
    requires n <= |s| && AllSpaceIn(s, |s| - n, |s|) && (n < |s| ==> !IsSpace(s[|s| - 1 - n]))
    ensures n == TrailingSpaces(s)
  {
  }

  /** Python's `s.strip()`: `s` without its leading and trailing whitespace. */
  function Strip(s: string): (r: string)
    ensures exists i, j :: 0 <= i <= j <= |s| && r == s[i..j] && AllSpaceIn(s, 0, i) && AllSpaceIn(s, j, |s|)
    ensures r != [] ==> !IsSpace(r[0]) && !IsSpace(r[|r| - 1])
    ensures r == [] <==> AllSpaceIn(s, 0, |s|)
  {
    var i := LeadingSpaces(s);
    var t := s[i..];
    var j := i + |t| - TrailingSpaces(t);
    assert forall k :: j <= k < |s| ==> s[k] == t[k - i];
    s[i..j]
  }

  function LowerChar(c: char): (d: char) {
    if 'A' <= c <= 'Z' then (c as int + 32) as char else c
  }

  function UpperChar(c: char): (d: char) {
    if 'a' <= c <= 'z' then (c as int - 32) as char else c
  }

  /** Python's `s.lower()` restricted to the ASCII letters. */
  function Lower(s: string): (r: string)
    ensures |r| == |s|
  {
    seq(|s|, k requires 0 <= k < |s| => LowerChar(s[k]))
  }

  /** Python's `s.upper()` restricted to the ASCII letters. */
  function Upper(s: string): (r: string)
    ensures |r| == |s|
  {
    seq(|s|, k requires 0 <= k < |s| => UpperChar(s[k]))
  }

  /** A string in the form the index uses for its keys. */
  predicate IsNormalized(k: string) {
    Strip(k) == k && Lower(k) == k
  }

  lemma LowerKeepsSpace(c: char)
    ensures IsSpace(LowerChar(c)) == IsSpace(c)
  {
  }

  lemma SameSpaces(s: string)
    ensures forall k :: 0 <= k < |s| ==> IsSpace(Lower(s)[k]) == IsSpace(s[k])
  {
    forall k | 0 <= k < |s| ensures IsSpace(Lower(s)[k]) == IsSpace(s[k]) { LowerKeepsSpace(s[k]); }
  }

  lemma LowerSlice(s: string, i: nat, j: nat)
    requires i <= j <= |s|
    ensures Lower(s[i..j]) == Lower(s)[i..j]
  {
    assert forall k :: 0 <= k < j - i ==> Lower(s[i..j])[k] == Lower(s)[i..j][k];
  }

  lemma LeadingLower(s: string)
    ensures LeadingSpaces(Lower(s)) == LeadingSpaces(s)
  {
    SameSpaces(s);
    LeadingSpacesUnique(Lower(s), LeadingSpaces(s));
  }

  lemma TrailingLower(s: string)
    ensures TrailingSpaces(Lower(s)) == TrailingSpaces(s)
  {
    SameSpaces(s);
    TrailingSpacesUnique(Lower(s), TrailingSpaces(s));
  }

  /** The bounds `Strip` cuts at. */
  lemma StripBounds(s: string, i: nat, j: nat)
    requires i == LeadingSpaces(s) && j == i + |s[i..]| - TrailingSpaces(s[i..])
    ensures i <= j <= |s| && Strip(s) == s[i..j]
  {
  }

  /** Lower-casing and stripping commute: `find` computes `item.lower().strip()`
      while the index stores `cell.strip().lower()`, and the two agree. */
  lemma LowerStripCommute(s: string)
    ensures Lower(Strip(s)) == Strip(Lower(s))
  {
    var i := LeadingSpaces(s);
    var t := s[i..];
    var j := i + |t| - TrailingSpaces(t);
    StripBounds(s, i, j);
    LeadingLower(s);
    LowerSlice(s, i, |s|);
    assert s[i..|s|] == t && Lower(s)[i..|s|] == Lower(s)[i..];
    var lt := Lower(s)[i..];
    assert lt == Lower(t);
    TrailingLower(t);
    assert |lt| == |t| && TrailingSpaces(lt) == TrailingSpaces(t);
    StripBounds(Lower(s), i, j);
    LowerSlice(s, i, j);
  }

  lemma StripIdempotent(s: string)
    ensures Strip(Strip(s)) == Strip(s)
  {
    var r := Strip(s);
    LeadingSpacesUnique(r, 0);
    assert r[0..] == r;
    TrailingSpacesUnique(r, 0);
    assert r[0..|r|] == r;
  }

  lemma LowerIdempotent(s: string)
    ensures Lower(Lower(s)) == Lower(s)
  {
  }

  /** Every key the index builds, `Lower(Strip(cell))`, is already normalized,
      and normalizing it again as a search term gives it back unchanged. */
  lemma NormalizedKey(cell: string)
    ensures IsNormalized(Lower(Strip(cell)))
    ensures Strip(Lower(Lower(Strip(cell)))) == Lower(Strip(cell))
  {
    var k := Lower(Strip(cell));
    LowerStripCommute(Strip(cell));
    StripIdempotent(cell);
    LowerIdempotent(Strip(cell));
    assert Strip(k) == k;
  }

  // ---------------------------------------------------------------------------
  // Separator search, split, join and replace

  /** `sep` occurs in `s` at position `p`. */
  predicate MatchAt(s: string, sep: string, p: nat) {
    p + |sep| <= |s| && s[p..p + |sep|] == sep
  }

  predicate Contains(s: string, sep: string) {
    exists p: nat :: p <= |s| && MatchAt(s, sep, p)
  }

  /** The characters of an occurrence are those of the separator. */
  lemma MatchChars(s: string, sep: string, p: nat)
    ensures MatchAt(s, sep, p) ==> forall k :: 0 <= k < |sep| ==> s[p + k] == sep[k]
  {
    if MatchAt(s, sep, p) {
      forall k | 0 <= k < |sep| ensures s[p + k] == sep[k] { assert s[p..p + |sep|][k] == s[p + k]; }
    }
  }

  lemma DropSlice(s: string, a: nat, b: nat)
    requires a <= b && b + 1 <= |s|
    ensures s[1..][a..b] == s[a + 1..b + 1]
  {
  }

  /** An occurrence of a two-character separator, character by character. */
  lemma MatchPair(s: string, sep: string, p: nat)
    requires |sep| == 2
    ensures MatchAt(s, sep, p) <==> p + 2 <= |s| && s[p] == sep[0] && s[p + 1] == sep[1]
  {
    if p + 2 <= |s| {
      assert s[p..p + 2] == [s[p], s[p + 1]];
      assert sep == [sep[0], sep[1]];
    }
  }

  lemma MatchShiftAll(s: string, sep: string)
    requires |s| > 0
    ensures forall q: nat :: 0 < q ==> MatchAt(s, sep, q) == MatchAt(s[1..], sep, q - 1)
  {
    forall q: nat | 0 < q ensures MatchAt(s, sep, q) == MatchAt(s[1..], sep, q - 1) {
      if q + |sep| <= |s| {
        DropSlice(s, q - 1, q - 1 + |sep|);
      }
    }
  }

  /** Python's `s.find(sep)`: the leftmost position where `sep` occurs. */
  function FindSep(s: string, sep: string): (r: Option<nat>)
    requires |sep| > 0
    ensures r.Some? ==> MatchAt(s, sep, r.value)
    ensures r.Some? ==> forall q: nat :: q < r.value ==> !MatchAt(s, sep, q)
    ensures r.None? ==> !Contains(s, sep)
    decreases |s|
  {
    if |s| < |sep| then None
    else if s[..|sep|] == sep then Some(0)
    else
      var rest := FindSep(s[1..], sep);
      MatchShiftAll(s, sep);
      match rest
      case Some(p) => Some(p + 1)
      case None => None
  }

  /** Python's `s.split(sep)`. */
  function Split(s: string, sep: string): (r: seq<string>)
    requires |sep| > 0
    ensures |r| > 0
    decreases |s|
  {
    match FindSep(s, sep)
    case None => [s]
    case Some(p) => [s[..p]] + Split(s[p + |sep|..], sep)
  }

  /** Python's `sep.join(xs)`. */
  function Join(xs: seq<string>, sep: string): (r: string)
    ensures |xs| == 1 ==> r == xs[0]
  {
    if |xs| == 0 then []
    else if |xs| == 1 then xs[0]
    else xs[0] + sep + Join(xs[1..], sep)
  }

  /** Python's `s.replace(pat, rep)`: every occurrence, left to right, without overlap. */
  function Replace(s: string, pat: string, rep: string): (r: string)
    requires |pat| > 0
    ensures !Contains(s, pat) ==> r == s
    decreases |s|
  {
    match FindSep(s, pat)
    case None => s
    case Some(p) => s[..p] + rep + Replace(s[p + |pat|..], pat, rep)
  }

  /** `x` can stand between separators: no occurrence of `sep` in `x + sep`
      starts inside `x`. Then splitting a join finds the separators again. */
  predicate Clean(x: string, sep: string) {
    forall q: nat :: q < |x| ==> !MatchAt(x + sep, sep, q)
  }

  lemma FindAfterClean(x: string, sep: string, rest: string)
    requires |sep| > 0 && Clean(x, sep)
    ensures FindSep(x + sep + rest, sep) == Some(|x|)
  {
    var s := x + sep + rest;
    assert s[|x|..|x| + |sep|] == sep;
    assert MatchAt(s, sep, |x|);
    forall q: nat | q < |x| ensures !MatchAt(s, sep, q) {
      assert !MatchAt(x + sep, sep, q);
      assert s[q..q + |sep|] == (x + sep)[q..q + |sep|];
    }
  }

  lemma FindClean(x: string, sep: string)
    requires |sep| > 0 && Clean(x, sep)
    ensures !Contains(x, sep)
    ensures FindSep(x, sep) == None
  {
    forall p: nat | p <= |x| ensures !MatchAt(x, sep, p) {
      if p < |x| {
        assert !MatchAt(x + sep, sep, p);
        if p + |sep| <= |x| {
          assert (x + sep)[p..p + |sep|] == x[p..p + |sep|];
        }
      }
    }
  }

  /** Splitting a join on the same separator gives the parts back. */
  lemma {:induction false} SplitJoin(xs: seq<string>, sep: string)
    requires |sep| > 0 && |xs| > 0
    requires forall i :: 0 <= i < |xs| ==> Clean(xs[i], sep)
    ensures Split(Join(xs, sep), sep) == xs
  {
    if |xs| == 1 {
      FindClean(xs[0], sep);
    } else {
      var rest := Join(xs[1..], sep);
      var s := xs[0] + sep + rest;
      FindAfterClean(xs[0], sep, rest);
      assert s[..|xs[0]|] == xs[0];
      assert s[|xs[0]| + |sep|..] == rest;
      SplitJoin(xs[1..], sep);
      assert [xs[0]] + xs[1..] == xs;
    }
  }

  /** Replacing the separator of a join joins the same parts with the rep separator. */
  lemma {:induction false} ReplaceJoin(xs: seq<string>, pat: string, rep: string)
    requires |pat| > 0
    requires forall i :: 0 <= i < |xs| ==> Clean(xs[i], pat)
    ensures Replace(Join(xs, pat), pat, rep) == Join(xs, rep)
  {
    if |xs| == 1 {
      FindClean(xs[0], pat);
    } else if |xs| > 1 {
      var rest := Join(xs[1..], pat);
      var s := xs[0] + pat + rest;
      FindAfterClean(xs[0], pat, rest);
      assert s[..|xs[0]|] == xs[0];
      assert s[|xs[0]| + |pat|..] == rest;
      ReplaceJoin(xs[1..], pat, rep);
    }
  }

  /** The separator `", "` that the bot puts between location names. */
  const ListSep: string := ", "
  /** The separator `" | "` of the chat reply in main.py. */
  const BarSep: string := " | "

  /** The line break between locations in the Discord embed. */
  const LineSep: string := "\n"

  /** A name with no `", "` inside can stand between `", "` separators. */
  lemma CommaClean(x: string)
    requires !Contains(x, ListSep)
    ensures Clean(x, ListSep)
  {
    forall q: nat | q < |x| ensures !MatchAt(x + ListSep, ListSep, q) {
      MatchPair(x + ListSep, ListSep, q);
      if q + 1 < |x| {
        MatchPair(x, ListSep, q);
      } else {
        assert (x + ListSep)[q + 1] == ',';
      }
    }
  }

  /** A name with no `'|'` can stand between `" | "` separators. */
  lemma BarClean(x: string)
    requires forall k :: 0 <= k < |x| ==> x[k] != '|'
    ensures Clean(x, BarSep)
  {
    forall q: nat | q < |x| ensures !MatchAt(x + BarSep, BarSep, q) {
      MatchChars(x + BarSep, BarSep, q);
      if q + 1 < |x| {
        assert (x + BarSep)[q + 1] == x[q + 1];
      } else {
        assert (x + BarSep)[q + 1] == ' ';
      }
    }
  }

  /** A name with no line break can stand between line breaks. */
  lemma LineClean(x: string)
    requires forall k :: 0 <= k < |x| ==> x[k] != '\n'
    ensures Clean(x, LineSep)
  {
    forall q: nat | q < |x| ensures !MatchAt(x + LineSep, LineSep, q) {
      MatchChars(x + LineSep, LineSep, q);
      assert (x + LineSep)[q] == x[q];
    }
  }

  lemma UpperAppend(a: string, b: string)
    ensures Upper(a + b) == Upper(a) + Upper(b)
  {
  }

  function UpperAll(xs: seq<string>): (r: seq<string>)
    ensures |r| == |xs|
  {
    seq(|xs|, i requires 0 <= i < |xs| => Upper(xs[i]))
  }

  /** Upper-casing a join upper-cases every part and keeps a separator that has no letters. */
  lemma {:induction false} UpperJoin(xs: seq<string>, sep: string)
    requires Upper(sep) == sep
    ensures Upper(Join(xs, sep)) == Join(UpperAll(xs), sep)
  {
    if |xs| > 1 {
      UpperJoin(xs[1..], sep);
      UpperAppend(xs[0] + sep, Join(xs[1..], sep));
      UpperAppend(xs[0], sep);
      assert UpperAll(xs)[1..] == UpperAll(xs[1..]);
    }
  }

  lemma UpperCharKeeps(c: char)
    ensures UpperChar(c) == ',' ==> c == ','
    ensures UpperChar(c) == ' ' ==> c == ' '
    ensures UpperChar(c) == '|' ==> c == '|'
  {
  }

  lemma UpperKeepsNoComma(x: string)
    requires !Contains(x, ListSep)
    ensures !Contains(Upper(x), ListSep)
  {
    forall p: nat | p <= |x| ensures !MatchAt(Upper(x), ListSep, p) {
      MatchPair(Upper(x), ListSep, p);
      MatchPair(x, ListSep, p);
      if p + 2 <= |x| {
        UpperCharKeeps(x[p]);
        UpperCharKeeps(x[p + 1]);
      }
    }
  }

  lemma UpperKeepsNoBar(x: string)
    requires forall k :: 0 <= k < |x| ==> x[k] != '|'
    ensures forall k :: 0 <= k < |Upper(x)| ==> Upper(x)[k] != '|'
  {
  }

  lemma UpperKeepsNoNewline(x: string)
    requires forall k :: 0 <= k < |x| ==> x[k] != '\n'
    ensures forall k :: 0 <= k < |Upper(x)| ==> Upper(x)[k] != '\n'
  {
  }
}
