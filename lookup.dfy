/** Query resolution shared by both bots' `find` command (sc.py:167-201,
    main.py:173-207): exact lookup of the normalized term, otherwise the five
    best-scoring keys of a fuzzy extract, of which only those scoring above 75
    are offered. The fuzzy scorer (`fuzz.token_set_ratio`) is a parameter. */
module Lookup {
  import opened Text
  import opened Index

  /** A similarity score of a query against a candidate key. */
  type Scorer = (string, string) -> int

  /** Only candidates scoring strictly above this are suggested. */
  const Threshold: int := 75
  /** `process.extract(..., limit=5)`. */
  const Limit: nat := 5

  /** The search term `find` looks up: `item.lower().strip()`. */
  function QueryKey(item: string): string {
    Strip(Lower(item))
  }

  /** A cell's own text, typed as a query in any letter case and with any
      surrounding whitespace, hits that cell's key exactly. */
  lemma QueryKeyOfCell(cell: string)
    requires KeyOf(cell).Some?
    ensures QueryKey(cell) == KeyOf(cell).value
  {
    LowerStripCommute(cell);
  }

  /** Typing the text of any indexed cell finds that cell's sheet. */
  lemma CellTextIsExactHit(sheets: seq<Sheet>, i: nat, r: nat, j: nat)
    requires i < |sheets| && Indexed(sheets[i])
    requires 1 <= r < |sheets[i].rows.value| && j < |sheets[i].rows.value[r]|
    requires KeyOf(sheets[i].rows.value[r][j]).Some?
    ensures QueryKey(sheets[i].rows.value[r][j]) in BuildIndex(sheets).entries
    ensures sheets[i].title in BuildIndex(sheets).entries[QueryKey(sheets[i].rows.value[r][j])]
  {
    var rows := sheets[i].rows.value;
    var cell := rows[r][j];
    var k := KeyOf(cell).value;
    QueryKeyOfCell(cell);
    assert rows[1..][r - 1] == rows[r];
    assert RowHas(rows[1..][r - 1], k);
    assert TitledHas(sheets, i, k, sheets[i].title);
    KeysAreOccurringCells(sheets, k);
    LocationsOfKey(sheets, k);
  }

  // ---------------------------------------------------------------------------
  // The fuzzy extract

  /** Each candidate with its score, in candidate order. */
  function Scored(query: string, choices: seq<string>, score: Scorer): seq<(string, int)> {
    seq(|choices|, i requires 0 <= i < |choices| => (choices[i], score(query, choices[i])))
  }

  predicate Descending(ps: seq<(string, int)>) {
    forall i, j :: 0 <= i < j < |ps| ==> ps[i].1 >= ps[j].1
  }

  /** Inserts `p` after every element scoring at least as much, so that ties
      keep candidate order. */
  function InsertDesc(sorted: seq<(string, int)>, p: (string, int)): (r: seq<(string, int)>)
    ensures multiset(r) == multiset(sorted) + multiset{p}
  {
    if sorted == [] then [p]
    else if sorted[0].1 >= p.1 then
      assert sorted == [sorted[0]] + sorted[1..];
      [sorted[0]] + InsertDesc(sorted[1..], p)
    else [p] + sorted
  }

  /** Putting a pair no lower than every element in front keeps the order. */
  lemma ConsDescending(h: (string, int), rest: seq<(string, int)>)
    requires Descending(rest)
    requires forall x :: x in rest ==> x.1 <= h.1
    ensures Descending([h] + rest)
  {
    var r := [h] + rest;
    forall i, j | 0 <= i < j < |r| ensures r[i].1 >= r[j].1 {
      if i > 0 { assert r[i] == rest[i - 1] && r[j] == rest[j - 1]; }
      else { assert r[j] == rest[j - 1]; }
    }
  }

  /** The tail of a descending sequence is descending and below its head. */
  lemma TailDescending(s: seq<(string, int)>)
    requires Descending(s) && s != []
    ensures Descending(s[1..])
    ensures forall x :: x in s[1..] ==> x.1 <= s[0].1
  {
    forall i, j | 0 <= i < j < |s[1..]| ensures s[1..][i].1 >= s[1..][j].1 {
      assert s[1..][i] == s[i + 1] && s[1..][j] == s[j + 1];
    }
    forall x | x in s[1..] ensures x.1 <= s[0].1 {
      var j :| 0 <= j < |s[1..]| && s[1..][j] == x;
      assert s[j + 1] == x;
    }
  }

  lemma InsertDescMembers(sorted: seq<(string, int)>, p: (string, int))
    ensures forall x :: x in InsertDesc(sorted, p) ==> x == p || x in sorted
  {
    forall x | x in InsertDesc(sorted, p) ensures x == p || x in sorted {
      assert x in multiset(InsertDesc(sorted, p));
    }
  }

  lemma {:induction false} InsertDescSorted(sorted: seq<(string, int)>, p: (string, int))
    requires Descending(sorted)
    ensures Descending(InsertDesc(sorted, p))
    decreases |sorted|
  {
    if sorted != [] && sorted[0].1 >= p.1 {
      TailDescending(sorted);
      InsertDescSorted(sorted[1..], p);
      InsertDescMembers(sorted[1..], p);
      ConsDescending(sorted[0], InsertDesc(sorted[1..], p));
    }
  }

  /** A stable sort by descending score. */
  function SortDesc(ps: seq<(string, int)>): (r: seq<(string, int)>)
    ensures multiset(r) == multiset(ps)
    decreases |ps|
  {
    if ps == [] then []
    else
      assert ps == ps[..|ps| - 1] + [ps[|ps| - 1]];
      InsertDesc(SortDesc(ps[..|ps| - 1]), ps[|ps| - 1])
  }

  lemma {:induction false} SortDescSorted(ps: seq<(string, int)>)
    ensures Descending(SortDesc(ps))
    decreases |ps|
  {
    if ps != [] {
      SortDescSorted(ps[..|ps| - 1]);
      InsertDescSorted(SortDesc(ps[..|ps| - 1]), ps[|ps| - 1]);
    }
  }

  function Take<T>(s: seq<T>, n: nat): seq<T> {
    if |s| <= n then s else s[..n]
  }

  /** `process.extract(query, choices, limit=limit, scorer=score)`: the `limit`
      best-scoring candidates with their scores, best first. */
  function Extract(query: string, choices: seq<string>, score: Scorer, limit: nat): seq<(string, int)> {
    Take(SortDesc(Scored(query, choices, score)), limit)
  }

  /** The sorted candidates have as many elements as the candidates. */
  lemma SortedLength(query: string, choices: seq<string>, score: Scorer)
    ensures |SortDesc(Scored(query, choices, score))| == |choices|
  {
    var scored := Scored(query, choices, score);
    assert |multiset(SortDesc(scored))| == |multiset(scored)|;
  }

  /** Each extracted pair is a candidate with its own score. */
  lemma ExtractSound(query: string, choices: seq<string>, score: Scorer, limit: nat)
    ensures forall m :: m in Extract(query, choices, score, limit) ==>
      m.0 in choices && m.1 == score(query, m.0)
  {
    var scored := Scored(query, choices, score);
    var sorted := SortDesc(scored);
    forall m | m in Extract(query, choices, score, limit) ensures m.0 in choices && m.1 == score(query, m.0) {
      assert m in sorted;
      assert m in multiset(scored);
      var i :| 0 <= i < |scored| && scored[i] == m;
    }
  }

  /** A candidate left out of the extract scores no more than anything kept,
      and the extract is full. */
  lemma ExtractTop(query: string, choices: seq<string>, score: Scorer, limit: nat, c: string)
    requires c in choices && (c, score(query, c)) !in Extract(query, choices, score, limit)
    ensures |Extract(query, choices, score, limit)| == limit
    ensures forall m :: m in Extract(query, choices, score, limit) ==> m.1 >= score(query, c)
  {
    var scored := Scored(query, choices, score);
    var sorted := SortDesc(scored);
    var r := Extract(query, choices, score, limit);
    SortDescSorted(scored);
    SortedLength(query, choices, score);
    var i :| 0 <= i < |choices| && choices[i] == c;
    assert scored[i] == (c, score(query, c));
    assert (c, score(query, c)) in multiset(sorted);
    var j :| 0 <= j < |sorted| && sorted[j] == (c, score(query, c));
    assert j >= limit;
    forall m | m in r ensures m.1 >= score(query, c) {
      var a :| 0 <= a < |r| && r[a] == m;
      assert sorted[a] == m;
    }
  }

  /** The extract takes nothing that was not scored, and nothing more often. */
  lemma ExtractFromScored(query: string, choices: seq<string>, score: Scorer, limit: nat)
    ensures multiset(Extract(query, choices, score, limit)) <= multiset(Scored(query, choices, score))
  {
    var s := SortDesc(Scored(query, choices, score));
    if |s| > limit {
      assert s == s[..limit] + s[limit..];
    }
  }

  /** What the extract returns: at most `limit` candidates with their own
      scores, best first, each at most as often as it was scored, and nothing
      left out scores above what was kept. */
  lemma ExtractSpec(query: string, choices: seq<string>, score: Scorer, limit: nat)
    ensures |Extract(query, choices, score, limit)| == if |choices| < limit then |choices| else limit
    ensures multiset(Extract(query, choices, score, limit)) <= multiset(Scored(query, choices, score))
    ensures Descending(Extract(query, choices, score, limit))
    ensures forall m :: m in Extract(query, choices, score, limit) ==>
      m.0 in choices && m.1 == score(query, m.0)
    ensures forall c :: c in choices && (c, score(query, c)) !in Extract(query, choices, score, limit) ==>
      |Extract(query, choices, score, limit)| == limit &&
      forall m :: m in Extract(query, choices, score, limit) ==> m.1 >= score(query, c)
  {
    SortDescSorted(Scored(query, choices, score));
    SortedLength(query, choices, score);
    ExtractSound(query, choices, score, limit);
    ExtractFromScored(query, choices, score, limit);
    forall c | c in choices && (c, score(query, c)) !in Extract(query, choices, score, limit)
      ensures |Extract(query, choices, score, limit)| == limit &&
        forall m :: m in Extract(query, choices, score, limit) ==> m.1 >= score(query, c)
    {
      ExtractTop(query, choices, score, limit, c);
    }
  }

  // ---------------------------------------------------------------------------
  // The threshold filter

  /** The extracted pairs scoring above the threshold, in extract order. */
  function AboveThreshold(matches: seq<(string, int)>): (r: seq<(string, int)>)
    decreases |matches|
  {
    if matches == [] then []
    else if matches[0].1 > Threshold then [matches[0]] + AboveThreshold(matches[1..])
    else AboveThreshold(matches[1..])
  }

  function Names(ps: seq<(string, int)>): (r: seq<string>)
    ensures |r| == |ps|
  {
    seq(|ps|, i requires 0 <= i < |ps| => ps[i].0)
  }

  /** `[m[0] for m in matches if m[1] > 75]` (sc.py:190, main.py:194). */
  function Suggest(matches: seq<(string, int)>): seq<string> {
    Names(AboveThreshold(matches))
  }

  lemma {:induction false} AboveThresholdMembers(ms: seq<(string, int)>)
    ensures forall m :: m in AboveThreshold(ms) <==> m in ms && m.1 > Threshold
    ensures |AboveThreshold(ms)| <= |ms|
    ensures (forall m :: m in ms ==> m.1 > Threshold) ==> AboveThreshold(ms) == ms
    decreases |ms|
  {
    if ms != [] {
      AboveThresholdMembers(ms[1..]);
      assert ms == [ms[0]] + ms[1..];
    }
  }

  lemma {:induction false} AboveThresholdSorted(ms: seq<(string, int)>)
    requires Descending(ms)
    ensures Descending(AboveThreshold(ms))
    decreases |ms|
  {
    if ms != [] {
      TailDescending(ms);
      AboveThresholdSorted(ms[1..]);
      if ms[0].1 > Threshold {
        AboveThresholdMembers(ms[1..]);
        ConsDescending(ms[0], AboveThreshold(ms[1..]));
      }
    }
  }

  /** The suggestion list of `find` for a term: the names kept from the top-5 extract. */
  function Suggestions(query: string, choices: seq<string>, score: Scorer): seq<string> {
    Suggest(Extract(query, choices, score, Limit))
  }

  /** Each suggestion is a candidate scoring above 75, and there are at most five. */
  lemma SuggestionsSound(query: string, choices: seq<string>, score: Scorer)
    ensures |Suggestions(query, choices, score)| <= Limit
    ensures forall s :: s in Suggestions(query, choices, score) ==>
      s in choices && score(query, s) > Threshold
  {
    var ex := Extract(query, choices, score, Limit);
    var kept := AboveThreshold(ex);
    var r := Suggestions(query, choices, score);
    SortedLength(query, choices, score);
    ExtractSound(query, choices, score, Limit);
    AboveThresholdMembers(ex);
    forall s | s in r ensures s in choices && score(query, s) > Threshold {
      var i :| 0 <= i < |r| && r[i] == s;
      assert kept[i] in ex;
    }
  }

  /** Suggestions come best first. */
  lemma SuggestionsOrdered(query: string, choices: seq<string>, score: Scorer)
    ensures forall i, j :: 0 <= i < j < |Suggestions(query, choices, score)| ==>
      score(query, Suggestions(query, choices, score)[i]) >= score(query, Suggestions(query, choices, score)[j])
  {
    var ex := Extract(query, choices, score, Limit);
    var kept := AboveThreshold(ex);
    var r := Suggestions(query, choices, score);
    SortDescSorted(Scored(query, choices, score));
    ExtractSound(query, choices, score, Limit);
    AboveThresholdMembers(ex);
    AboveThresholdSorted(ex);
    forall i, j | 0 <= i < j < |r| ensures score(query, r[i]) >= score(query, r[j]) {
      assert kept[i] in ex && kept[j] in ex;
    }
  }

  /** A candidate scoring above 75 is left out only when five candidates
      scoring at least as much are offered instead. */
  lemma SuggestionsComplete(query: string, choices: seq<string>, score: Scorer, c: string)
    requires c in choices && score(query, c) > Threshold && c !in Suggestions(query, choices, score)
    ensures |Suggestions(query, choices, score)| == Limit
    ensures forall s :: s in Suggestions(query, choices, score) ==> score(query, s) >= score(query, c)
  {
    var ex := Extract(query, choices, score, Limit);
    var kept := AboveThreshold(ex);
    var r := Suggestions(query, choices, score);
    AboveThresholdMembers(ex);
    assert (c, score(query, c)) !in kept by {
      forall i | 0 <= i < |kept| ensures kept[i] != (c, score(query, c)) {
        assert r[i] == kept[i].0;
      }
    }
    ExtractTop(query, choices, score, Limit, c);
    ExtractSound(query, choices, score, Limit);
    assert kept == ex;
    forall s | s in r ensures score(query, s) >= score(query, c) {
      var i :| 0 <= i < |r| && r[i] == s;
      assert kept[i] in ex;
    }
  }

  /** An element occurring twice in a sequence occurs at least twice in its multiset. */
  lemma RepeatCounted<T>(a: seq<T>, i: nat, j: nat)
    requires i < j < |a|
    ensures a[i] == a[j] ==> multiset(a)[a[i]] >= 2
  {
    assert a == a[..j] + [a[j]] + a[j + 1..];
    assert a[..j][i] == a[i];
  }

  /** In a sequence without repeats every element is counted once. */
  lemma {:induction false} DistinctCountedOnce<T>(b: seq<T>, x: T)
    requires Distinct(b)
    ensures multiset(b)[x] <= 1
    decreases |b|
  {
    if b != [] {
      assert b == [b[0]] + b[1..];
      assert Distinct(b[1..]) by {
        forall i, j | 0 <= i < j < |b[1..]| ensures b[1..][i] != b[1..][j] {
          assert b[1..][i] == b[i + 1] && b[1..][j] == b[j + 1];
        }
      }
      DistinctCountedOnce(b[1..], x);
      assert b[0] !in b[1..] by {
        forall k | 0 <= k < |b[1..]| ensures b[1..][k] != b[0] {
          assert b[1..][k] == b[k + 1];
        }
      }
    }
  }

  /** A sub-multiset of a sequence without repeats has no repeats. */
  lemma SubMultisetDistinct<T>(a: seq<T>, b: seq<T>)
    requires multiset(a) <= multiset(b) && Distinct(b)
    ensures Distinct(a)
  {
    forall i, j | 0 <= i < j < |a| ensures a[i] != a[j] {
      RepeatCounted(a, i, j);
      DistinctCountedOnce(b, a[i]);
    }
  }

  /** No two pairs carry the same name. */
  predicate NamesDistinct(ps: seq<(string, int)>) {
    forall i, j :: 0 <= i < j < |ps| ==> ps[i].0 != ps[j].0
  }

  /** The head's name recurs nowhere in the tail, and the tail keeps its names distinct. */
  lemma HeadNameFresh(ms: seq<(string, int)>)
    requires ms != [] && NamesDistinct(ms)
    ensures NamesDistinct(ms[1..])
    ensures forall x :: x in ms[1..] ==> x.0 != ms[0].0
  {
    forall i, j | 0 <= i < j < |ms[1..]| ensures ms[1..][i].0 != ms[1..][j].0 {
      assert ms[1..][i] == ms[i + 1] && ms[1..][j] == ms[j + 1];
    }
    forall x | x in ms[1..] ensures x.0 != ms[0].0 {
      var k :| 0 <= k < |ms[1..]| && ms[1..][k] == x;
      assert ms[k + 1] == x;
    }
  }

  /** A pair whose name is new may go in front. */
  lemma ConsNamesDistinct(h: (string, int), rest: seq<(string, int)>)
    requires NamesDistinct(rest)
    requires forall x :: x in rest ==> x.0 != h.0
    ensures NamesDistinct([h] + rest)
  {
    var r := [h] + rest;
    forall i, j | 0 <= i < j < |r| ensures r[i].0 != r[j].0 {
      assert r[j] == rest[j - 1];
      if i > 0 { assert r[i] == rest[i - 1]; }
    }
  }

  /** Keeping the pairs above the threshold keeps the names distinct. */
  lemma {:induction false} AboveThresholdDistinct(ms: seq<(string, int)>)
    requires NamesDistinct(ms)
    ensures NamesDistinct(AboveThreshold(ms))
    decreases |ms|
  {
    if ms != [] {
      HeadNameFresh(ms);
      AboveThresholdDistinct(ms[1..]);
      if ms[0].1 > Threshold {
        AboveThresholdMembers(ms[1..]);
        ConsNamesDistinct(ms[0], AboveThreshold(ms[1..]));
      }
    }
  }

  /** Among keys without repeats, no key is suggested twice. */
  lemma SuggestionsDistinct(query: string, choices: seq<string>, score: Scorer)
    requires Distinct(choices)
    ensures Distinct(Suggestions(query, choices, score))
  {
    var scored := Scored(query, choices, score);
    var ex := Extract(query, choices, score, Limit);
    assert Distinct(scored) by {
      forall i, j | 0 <= i < j < |scored| ensures scored[i] != scored[j] {
        assert scored[i].0 == choices[i] && scored[j].0 == choices[j];
      }
    }
    ExtractFromScored(query, choices, score, Limit);
    SubMultisetDistinct(ex, scored);
    ExtractSound(query, choices, score, Limit);
    forall i, j | 0 <= i < j < |ex| ensures ex[i].0 != ex[j].0 {
      assert ex[i] in ex && ex[j] in ex;
    }
    AboveThresholdDistinct(ex);
    var kept := AboveThreshold(ex);
    assert forall i :: 0 <= i < |kept| ==> Names(kept)[i] == kept[i].0;
  }

  /** Suggestions are candidates scoring above 75, at most five, best first,
      none twice when the candidates have no repeats; and a candidate scoring
      above 75 is left out only when five candidates scoring at least as much
      were offered instead. */
  lemma SuggestionsSpec(query: string, choices: seq<string>, score: Scorer)
    ensures |Suggestions(query, choices, score)| <= Limit
    ensures Distinct(choices) ==> Distinct(Suggestions(query, choices, score))
    ensures forall s :: s in Suggestions(query, choices, score) ==>
      s in choices && score(query, s) > Threshold
    ensures forall i, j :: 0 <= i < j < |Suggestions(query, choices, score)| ==>
      score(query, Suggestions(query, choices, score)[i]) >= score(query, Suggestions(query, choices, score)[j])
    ensures forall c :: c in choices && score(query, c) > Threshold && c !in Suggestions(query, choices, score) ==>
      |Suggestions(query, choices, score)| == Limit &&
      forall s :: s in Suggestions(query, choices, score) ==> score(query, s) >= score(query, c)
  {
    SuggestionsSound(query, choices, score);
    SuggestionsOrdered(query, choices, score);
    if Distinct(choices) {
      SuggestionsDistinct(query, choices, score);
    }
    forall c | c in choices && score(query, c) > Threshold && c !in Suggestions(query, choices, score)
      ensures |Suggestions(query, choices, score)| == Limit &&
        forall s :: s in Suggestions(query, choices, score) ==> score(query, s) >= score(query, c)
    {
      SuggestionsComplete(query, choices, score, c);
    }
  }

  // ---------------------------------------------------------------------------
  // Resolution of a normalized term

  /** What a search finds once the usage and loading checks have passed. */
  datatype Outcome =
    | ExactHit(key: string, locations: seq<string>)
    | Suggested(names: seq<string>)
    | NoMatch

  function Resolve(cache: Cache, term: string, score: Scorer): Outcome {
    if term in cache.entries then ExactHit(term, cache.entries[term])
    else
      var names := Suggestions(term, cache.keys, score);
      if names != [] then Suggested(names) else NoMatch
  }

  /** An exact hit exactly when the term is a key; otherwise the suggestions
      for the term: distinct keys scoring above 75, best first; and "no match"
      only when no key scores above 75. */
  lemma ResolveSpec(cache: Cache, term: string, score: Scorer)
    requires WellFormed(cache)
    ensures Resolve(cache, term, score).ExactHit? <==> term in cache.entries
    ensures Resolve(cache, term, score).ExactHit? ==>
      Resolve(cache, term, score).key == term &&
      Resolve(cache, term, score).locations == cache.entries[term] &&
      Resolve(cache, term, score).locations != []
    ensures Resolve(cache, term, score).Suggested? ==>
      var names := Resolve(cache, term, score).names;
      names == Suggestions(term, cache.keys, score) &&
      0 < |names| <= Limit && Distinct(names) &&
      (forall i, j :: 0 <= i < j < |names| ==> score(term, names[i]) >= score(term, names[j])) &&
      (forall s :: s in names ==> s in cache.entries && score(term, s) > Threshold) &&
      (forall k :: k in cache.entries && score(term, k) > Threshold && k !in names ==>
        |names| == Limit && forall s :: s in names ==> score(term, s) >= score(term, k))
    ensures Resolve(cache, term, score).NoMatch? <==>
      term !in cache.entries && forall k :: k in cache.entries ==> score(term, k) <= Threshold
  {
    SuggestionsSpec(term, cache.keys, score);
    var names := Suggestions(term, cache.keys, score);
    if names != [] {
      assert names[0] in names;
    }
  }

  // ---------------------------------------------------------------------------
  // Display of an exact hit

  /** `raw_locations.upper().replace(", ", sep)` where `raw_locations` is the
      stored `", "`-joined list (sc.py:175, main.py:179). */
  function FormatLocations(locs: seq<string>, sep: string): string {
    Replace(Upper(Join(locs, ListSep)), ListSep, sep)
  }

  /** When no location name contains `", "`, the display is the upper-cased
      names joined by the display separator. */
  lemma FormattedLocations(locs: seq<string>, sep: string)
    requires forall i :: 0 <= i < |locs| ==> !Contains(locs[i], ListSep)
    ensures FormatLocations(locs, sep) == Join(UpperAll(locs), sep)
  {
    assert Upper(ListSep) == ListSep;
    UpperJoin(locs, ListSep);
    forall i | 0 <= i < |locs| ensures Clean(UpperAll(locs)[i], ListSep) {
      UpperKeepsNoComma(locs[i]);
      CommaClean(UpperAll(locs)[i]);
    }
    ReplaceJoin(UpperAll(locs), ListSep, sep);
  }

  /** The `" | "`-separated display has one segment per location, each the
      upper-cased name, when no name contains `", "` or `'|'`. */
  lemma BarSegments(locs: seq<string>)
    requires locs != []
    requires forall i :: 0 <= i < |locs| ==> !Contains(locs[i], ListSep)
    requires forall i, j :: 0 <= i < |locs| && 0 <= j < |locs[i]| ==> locs[i][j] != '|'
    ensures Split(FormatLocations(locs, BarSep), BarSep) == UpperAll(locs)
    ensures |Split(FormatLocations(locs, BarSep), BarSep)| == |locs|
  {
    FormattedLocations(locs, BarSep);
    forall i | 0 <= i < |locs| ensures Clean(UpperAll(locs)[i], BarSep) {
      UpperKeepsNoBar(locs[i]);
      BarClean(UpperAll(locs)[i]);
    }
    SplitJoin(UpperAll(locs), BarSep);
  }

  /** The Discord embed lists one location per line, each the upper-cased
      name, when no name contains `", "` or a line break. */
  lemma LineSegments(locs: seq<string>)
    requires locs != []
    requires forall i :: 0 <= i < |locs| ==> !Contains(locs[i], ListSep)
    requires forall i, j :: 0 <= i < |locs| && 0 <= j < |locs[i]| ==> locs[i][j] != '\n'
    ensures Split(FormatLocations(locs, LineSep), LineSep) == UpperAll(locs)
    ensures |Split(FormatLocations(locs, LineSep), LineSep)| == |locs|
  {
    FormattedLocations(locs, LineSep);
    forall i | 0 <= i < |locs| ensures Clean(UpperAll(locs)[i], LineSep) {
      UpperKeepsNoNewline(locs[i]);
      LineClean(UpperAll(locs)[i]);
    }
    SplitJoin(UpperAll(locs), LineSep);
  }
}
