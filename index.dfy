/** The location index both bots build from a workbook (sc.py:108-145 and
    main.py:96-137): every non-blank cell below a sheet's header row becomes a
    key, and each key remembers, in first-seen order and without repeats, the
    titles of the sheets it was found on. */
module Index {
  import opened Wrappers
  import opened Text

  /** One worksheet: its title and, when `get_all_values()` succeeded, its rows. */
  datatype Sheet = Sheet(title: string, rows: Option<seq<seq<string>>>)

  /** The reference sheet that is never scanned. */
  const ExcludedTitle: string := "ACNH_Items"

  /** The bot's `cache` dictionary: its keys in insertion order (the order a
      Python dict iterates them) and, per key, the list of location names. */
  datatype Cache = Cache(keys: seq<string>, entries: map<string, seq<string>>)

  const Empty: Cache := Cache([], map[])

  predicate Distinct<T(==)>(s: seq<T>) {
    forall i, j :: 0 <= i < j < |s| ==> s[i] != s[j]
  }

  /** The dictionary invariant: the key order lists every key exactly once, and
      no key has an empty location list. */
  ghost predicate WellFormed(c: Cache) {
    && Distinct(c.keys)
    && (forall k :: k in c.entries <==> k in c.keys)
    && (forall k :: k in c.entries ==> c.entries[k] != [])
  }

  lemma {:induction false} DistinctCount(s: seq<string>)
    requires Distinct(s)
    ensures |set x | x in s| == |s|
    decreases |s|
  {
    if s != [] {
      var init := s[..|s| - 1];
      assert Distinct(init);
      DistinctCount(init);
      assert (set x | x in s) == (set x | x in init) + {s[|s| - 1]};
      assert s[|s| - 1] !in init;
    }
  }

  /** `len(cache)`: a well-formed dictionary has as many entries as its key order lists. */
  lemma KeyCount(c: Cache)
    requires WellFormed(c)
    ensures |c.entries| == |c.keys|
  {
    DistinctCount(c.keys);
    assert c.entries.Keys == set x | x in c.keys;
  }

  /** The key a cell contributes: its stripped, lower-cased text, none if the
      cell is blank or whitespace only. */
  function KeyOf(cell: string): (r: Option<string>)
    ensures r.None? <==> AllSpaceIn(cell, 0, |cell|)
    ensures r.Some? ==> |r.value| > 0
  {
    var item := Strip(cell);
    if item == [] then None else Some(Lower(item))
  }

  /** Every key a cell yields is normalized. */
  lemma KeyOfNormalized(cell: string)
    requires KeyOf(cell).Some?
    ensures IsNormalized(KeyOf(cell).value)
  {
    NormalizedKey(cell);
  }

  /** Adds a location to a list unless it is already there. */
  function AddLocation(locs: seq<string>, loc: string): seq<string> {
    if loc in locs then locs else locs + [loc]
  }

  /** The effect of one cell on the dictionary (sc.py:126-134). */
  function InsertCell(c: Cache, loc: string, cell: string): (r: Cache)
    ensures WellFormed(c) ==> WellFormed(r)
  {
    match KeyOf(cell)
    case None => c
    case Some(k) =>
      if k in c.entries then Cache(c.keys, c.entries[k := AddLocation(c.entries[k], loc)])
      else Cache(c.keys + [k], c.entries[k := [loc]])
  }

  /** The cells of one row, left to right (sc.py:125). */
  function InsertCells(c: Cache, loc: string, cells: seq<string>): (r: Cache)
    ensures WellFormed(c) ==> WellFormed(r)
    decreases |cells|
  {
    if cells == [] then c
    else InsertCell(InsertCells(c, loc, cells[..|cells| - 1]), loc, cells[|cells| - 1])
  }

  /** Rows, top to bottom (sc.py:124). */
  function InsertRows(c: Cache, loc: string, rows: seq<seq<string>>): (r: Cache)
    ensures WellFormed(c) ==> WellFormed(r)
    decreases |rows|
  {
    if rows == [] then c
    else InsertCells(InsertRows(c, loc, rows[..|rows| - 1]), loc, rows[|rows| - 1])
  }

  /** A sheet that is scanned: not the excluded one, readable and not empty
      (sc.py:115-120). */
  predicate Indexed(s: Sheet) {
    s.title != ExcludedTitle && s.rows.Some? && s.rows.value != []
  }

  /** One sheet: everything after its header row, under its title. */
  function InsertSheet(c: Cache, s: Sheet): (r: Cache)
    ensures WellFormed(c) ==> WellFormed(r)
  {
    if Indexed(s) then InsertRows(c, s.title, s.rows.value[1..]) else c
  }

  /** The sheets in workbook order, starting from `c`. */
  function BuildOnto(c: Cache, sheets: seq<Sheet>): (r: Cache)
    ensures WellFormed(c) ==> WellFormed(r)
    decreases |sheets|
  {
    if sheets == [] then c
    else InsertSheet(BuildOnto(c, sheets[..|sheets| - 1]), sheets[|sheets| - 1])
  }

  /** The dictionary `temp_cache` holds at the end of a scan. */
  function BuildIndex(sheets: seq<Sheet>): (r: Cache)
    ensures WellFormed(r)
  {
    BuildOnto(Empty, sheets)
  }

  /** The positions of the sheets that count in `sheets_scanned`. */
  function ScannedSheets(sheets: seq<Sheet>, n: nat): set<nat>
    requires n <= |sheets|
  {
    set i: nat | i < n && Indexed(sheets[i])
  }

  // ---------------------------------------------------------------------------
  // The scan as the source runs it

  lemma OntoStep(sheets: seq<Sheet>, i: nat)
    requires i < |sheets|
    ensures BuildOnto(Empty, sheets[..i + 1]) == InsertSheet(BuildOnto(Empty, sheets[..i]), sheets[i])
  {
    assert sheets[..i + 1][..i] == sheets[..i];
  }

  lemma ScannedStep(sheets: seq<Sheet>, i: nat)
    requires i < |sheets|
    ensures |ScannedSheets(sheets, i + 1)| == |ScannedSheets(sheets, i)| + (if Indexed(sheets[i]) then 1 else 0)
  {
    if Indexed(sheets[i]) {
      assert ScannedSheets(sheets, i + 1) == ScannedSheets(sheets, i) + {i};
    } else {
      assert ScannedSheets(sheets, i + 1) == ScannedSheets(sheets, i);
    }
  }

  /** The scan loop of `_sync_update` (sc.py:111-141, main.py:99-133): builds the
      new dictionary off to the side and counts the sheets it indexed. */
  method ScanWorkbook(sheets: seq<Sheet>) returns (cache: Cache, scanned: nat)
    ensures cache == BuildIndex(sheets)
    ensures scanned == |ScannedSheets(sheets, |sheets|)|
  {
    cache := Empty;
    scanned := 0;
    var i := 0;
    while i < |sheets|
      invariant i <= |sheets|
      invariant cache == BuildOnto(Empty, sheets[..i])
      invariant scanned == |ScannedSheets(sheets, i)|
    {
      var sheet := sheets[i];
      OntoStep(sheets, i);
      ScannedStep(sheets, i);
      if sheet.title != ExcludedTitle {
        match sheet.rows
        case None =>
          // `get_all_values()` raised: the error is logged and the sheet skipped
        case Some(rows) =>
          if rows != [] {
            cache := ScanRows(cache, sheet.title, rows);
            scanned := scanned + 1;
          }
      }
      i := i + 1;
    }
    assert sheets[..|sheets|] == sheets;
  }

  lemma RowsStep(c: Cache, loc: string, rows: seq<seq<string>>, r: nat)
    requires 1 <= r < |rows|
    ensures InsertRows(c, loc, rows[1..r + 1]) == InsertCells(InsertRows(c, loc, rows[1..r]), loc, rows[r])
  {
    assert rows[1..r + 1][..r - 1] == rows[1..r];
    assert rows[1..r + 1][r - 1] == rows[r];
  }

  /** The rows of one sheet after its header row (sc.py:124-134). */
  method ScanRows(cache0: Cache, loc: string, rows: seq<seq<string>>) returns (cache: Cache)
    requires rows != []
    ensures cache == InsertRows(cache0, loc, rows[1..])
  {
    cache := cache0;
    var r := 1;
    while r < |rows|
      invariant 1 <= r <= |rows|
      invariant cache == InsertRows(cache0, loc, rows[1..r])
    {
      RowsStep(cache0, loc, rows, r);
      cache := ScanRow(cache, loc, rows[r]);
      r := r + 1;
    }
    assert rows[1..|rows|] == rows[1..];
  }

  lemma CellsStep(c: Cache, loc: string, row: seq<string>, j: nat)
    requires j < |row|
    ensures InsertCells(c, loc, row[..j + 1]) == InsertCell(InsertCells(c, loc, row[..j]), loc, row[j])
  {
    assert row[..j + 1][..j] == row[..j];
  }

  // `InsertCell` in each of the cases the scan loop tests

  lemma CellBlank(c: Cache, loc: string, cell: string)
    requires Strip(cell) == []
    ensures InsertCell(c, loc, cell) == c
  {
  }

  lemma CellListed(c: Cache, loc: string, cell: string, key: string)
    requires Strip(cell) != [] && key == Lower(Strip(cell))
    requires key in c.entries && loc in c.entries[key]
    ensures InsertCell(c, loc, cell) == c
  {
    assert c.entries[key := c.entries[key]] == c.entries;
  }

  lemma CellAppended(c: Cache, loc: string, cell: string, key: string)
    requires Strip(cell) != [] && key == Lower(Strip(cell))
    requires key in c.entries && loc !in c.entries[key]
    ensures InsertCell(c, loc, cell) == c.(entries := c.entries[key := c.entries[key] + [loc]])
  {
  }

  lemma CellFresh(c: Cache, loc: string, cell: string, key: string)
    requires Strip(cell) != [] && key == Lower(Strip(cell)) && key !in c.entries
    ensures InsertCell(c, loc, cell) == Cache(c.keys + [key], c.entries[key := [loc]])
  {
  }

  /** The cells of one row (sc.py:125-134). */
  method ScanRow(cache0: Cache, loc: string, row: seq<string>) returns (cache: Cache)
    ensures cache == InsertCells(cache0, loc, row)
  {
    cache := cache0;
    var j := 0;
    while j < |row|
      invariant j <= |row|
      invariant cache == InsertCells(cache0, loc, row[..j])
    {
      CellsStep(cache0, loc, row, j);
      var item := Strip(row[j]);
      if item != [] {
        var key := Lower(item);
        if key in cache.entries {
          var current := cache.entries[key];
          if loc !in current {
            CellAppended(cache, loc, row[j], key);
            cache := cache.(entries := cache.entries[key := current + [loc]]);
          } else {
            CellListed(cache, loc, row[j], key);
          }
        } else {
          CellFresh(cache, loc, row[j], key);
          cache := Cache(cache.keys + [key], cache.entries[key := [loc]]);
        }
      } else {
        CellBlank(cache, loc, row[j]);
      }
      j := j + 1;
    }
    assert row[..|row|] == row;
  }

  // ---------------------------------------------------------------------------
  // An independent description of one key's location list

  /** The cell at column `j` of `row` yields key `k`. */
  predicate RowHas(row: seq<string>, k: string) {
    exists j :: 0 <= j < |row| && KeyOf(row[j]) == Some(k)
  }

  predicate RowsHave(rows: seq<seq<string>>, k: string) {
    exists r :: 0 <= r < |rows| && RowHas(rows[r], k)
  }

  /** Key `k` occurs on sheet `s` below its header row, and the sheet is scanned. */
  predicate SheetHas(s: Sheet, k: string) {
    Indexed(s) && RowsHave(s.rows.value[1..], k)
  }

  /** The titles, in workbook order, of the sheets on which `k` occurs
      (a title appears once per such sheet). */
  function Trace(sheets: seq<Sheet>, k: string): seq<string>
    decreases |sheets|
  {
    if sheets == [] then []
    else
      var last := sheets[|sheets| - 1];
      Trace(sheets[..|sheets| - 1], k) + (if SheetHas(last, k) then [last.title] else [])
  }

  /** `s` without its repeated elements, each kept where it first occurs. */
  function Dedup(s: seq<string>): seq<string>
    decreases |s|
  {
    if s == [] then [] else AddLocation(Dedup(s[..|s| - 1]), s[|s| - 1])
  }

  /** The position where `x` first occurs in `s`. */
  function FirstIndex(s: seq<string>, x: string): (r: nat)
    requires x in s
    ensures r < |s| && s[r] == x
    ensures forall i :: 0 <= i < r ==> s[i] != x
  {
    if s[0] == x then 0 else 1 + FirstIndex(s[1..], x)
  }

  /** The location list of `k`, empty when `k` is not a key. */
  function Get(c: Cache, k: string): seq<string> {
    if k in c.entries then c.entries[k] else []
  }

  lemma AddLocationTwice(locs: seq<string>, loc: string)
    ensures AddLocation(AddLocation(locs, loc), loc) == AddLocation(locs, loc)
  {
  }

  lemma RowHasLast(cells: seq<string>, k: string)
    requires cells != []
    ensures RowHas(cells, k) <==>
      RowHas(cells[..|cells| - 1], k) || KeyOf(cells[|cells| - 1]) == Some(k)
  {
    var p := cells[..|cells| - 1];
    assert forall j :: 0 <= j < |p| ==> p[j] == cells[j];
  }

  lemma RowsHaveLast(rows: seq<seq<string>>, k: string)
    requires rows != []
    ensures RowsHave(rows, k) <==>
      RowsHave(rows[..|rows| - 1], k) || RowHas(rows[|rows| - 1], k)
  {
    var p := rows[..|rows| - 1];
    assert forall r :: 0 <= r < |p| ==> p[r] == rows[r];
  }

  lemma CellEffect(c: Cache, loc: string, cell: string, k: string)
    ensures Get(InsertCell(c, loc, cell), k) ==
      if KeyOf(cell) == Some(k) then AddLocation(Get(c, k), loc) else Get(c, k)
  {
  }

  lemma {:induction false} CellsEffect(c: Cache, loc: string, cells: seq<string>, k: string)
    ensures Get(InsertCells(c, loc, cells), k) ==
      if RowHas(cells, k) then AddLocation(Get(c, k), loc) else Get(c, k)
    decreases |cells|
  {
    if cells != [] {
      var p := cells[..|cells| - 1];
      CellsEffect(c, loc, p, k);
      CellEffect(InsertCells(c, loc, p), loc, cells[|cells| - 1], k);
      RowHasLast(cells, k);
      AddLocationTwice(Get(c, k), loc);
    }
  }

  lemma {:induction false} RowsEffect(c: Cache, loc: string, rows: seq<seq<string>>, k: string)
    ensures Get(InsertRows(c, loc, rows), k) ==
      if RowsHave(rows, k) then AddLocation(Get(c, k), loc) else Get(c, k)
    decreases |rows|
  {
    if rows != [] {
      var p := rows[..|rows| - 1];
      RowsEffect(c, loc, p, k);
      CellsEffect(InsertRows(c, loc, p), loc, rows[|rows| - 1], k);
      RowsHaveLast(rows, k);
      AddLocationTwice(Get(c, k), loc);
    }
  }

  /** One key's location list after a scan is the deduplicated list of titles
      of the sheets on which it occurs. */
  lemma {:induction false} BuildEffect(sheets: seq<Sheet>, k: string)
    ensures Get(BuildIndex(sheets), k) == Dedup(Trace(sheets, k))
    decreases |sheets|
  {
    if sheets != [] {
      var p := sheets[..|sheets| - 1];
      var last := sheets[|sheets| - 1];
      BuildEffect(p, k);
      assert BuildIndex(sheets) == InsertSheet(BuildIndex(p), last);
      if Indexed(last) {
        RowsEffect(BuildIndex(p), last.title, last.rows.value[1..], k);
      }
      var t := Trace(p, k);
      if SheetHas(last, k) {
        assert Trace(sheets, k) == t + [last.title];
        assert (t + [last.title])[..|t|] == t;
      } else {
        assert Trace(sheets, k) == t;
      }
    }
  }

  // ---------------------------------------------------------------------------
  // Properties of Trace and Dedup

  /** Sheet `i` yields key `k` and has title `t`. */
  predicate TitledHas(sheets: seq<Sheet>, i: int, k: string, t: string)
    requires 0 <= i < |sheets|
  {
    SheetHas(sheets[i], k) && sheets[i].title == t
  }

  lemma {:induction false} TraceMembers(sheets: seq<Sheet>, k: string, t: string)
    ensures t in Trace(sheets, k) <==> exists i :: 0 <= i < |sheets| && TitledHas(sheets, i, k, t)
    decreases |sheets|
  {
    if sheets != [] {
      var n := |sheets| - 1;
      var p := sheets[..n];
      var last := sheets[n];
      TraceMembers(p, k, t);
      var tp := Trace(p, k);
      var extra := if SheetHas(last, k) then [last.title] else [];
      assert Trace(sheets, k) == tp + extra;
      if t in tp {
        var i :| 0 <= i < |p| && TitledHas(p, i, k, t);
        assert TitledHas(sheets, i, k, t);
      } else if t in extra {
        assert TitledHas(sheets, n, k, t);
      }
      forall i | 0 <= i < |sheets| && TitledHas(sheets, i, k, t) ensures t in Trace(sheets, k) {
        TraceHit(sheets, k, t, i);
      }
    }
  }

  lemma {:induction false} TraceHit(sheets: seq<Sheet>, k: string, t: string, i: nat)
    requires i < |sheets| && TitledHas(sheets, i, k, t)
    ensures t in Trace(sheets, k)
    decreases |sheets|
  {
    var n := |sheets| - 1;
    var p := sheets[..n];
    assert Trace(sheets, k) == Trace(p, k) + (if SheetHas(sheets[n], k) then [sheets[n].title] else []);
    if i < n {
      assert p[i] == sheets[i];
      assert TitledHas(p, i, k, t);
      TraceHit(p, k, t, i);
    } else {
      assert SheetHas(sheets[n], k) && sheets[n].title == t;
    }
  }

  lemma {:induction false} TraceEmpty(sheets: seq<Sheet>, k: string)
    ensures Trace(sheets, k) == [] <==> forall i :: 0 <= i < |sheets| ==> !SheetHas(sheets[i], k)
    decreases |sheets|
  {
    if sheets != [] {
      var p := sheets[..|sheets| - 1];
      TraceEmpty(p, k);
      assert forall i :: 0 <= i < |p| ==> p[i] == sheets[i];
    }
  }

  lemma {:induction false} DedupMembers(s: seq<string>)
    ensures forall x :: x in Dedup(s) <==> x in s
    ensures Distinct(Dedup(s))
    decreases |s|
  {
    if s != [] {
      DedupMembers(s[..|s| - 1]);
      assert s == s[..|s| - 1] + [s[|s| - 1]];
    }
  }

  lemma FirstIndexPrefix(p: seq<string>, q: seq<string>, x: string)
    requires x in p
    ensures FirstIndex(p + q, x) == FirstIndex(p, x)
  {
    var i := FirstIndex(p, x);
    assert forall m :: 0 <= m < |p| ==> (p + q)[m] == p[m];
    assert (p + q)[i] == x;
  }

  lemma FirstIndexAfter(p: seq<string>, x: string)
    requires x !in p
    ensures FirstIndex(p + [x], x) == |p|
  {
    assert forall m :: 0 <= m < |p| ==> (p + [x])[m] == p[m];
    assert (p + [x])[|p|] == x;
  }

  /** The deduplicated list keeps first-seen order. */
  lemma {:induction false} DedupOrder(s: seq<string>)
    ensures forall a, b :: 0 <= a < b < |Dedup(s)| ==>
      Dedup(s)[a] in s && Dedup(s)[b] in s && FirstIndex(s, Dedup(s)[a]) < FirstIndex(s, Dedup(s)[b])
    decreases |s|
  {
    DedupMembers(s);
    if s != [] {
      var p := s[..|s| - 1];
      var x := s[|s| - 1];
      assert s == p + [x];
      DedupOrder(p);
      DedupMembers(p);
      var d := Dedup(p);
      forall y | y in p ensures FirstIndex(s, y) == FirstIndex(p, y) { FirstIndexPrefix(p, [x], y); }
      if x in d {
        assert Dedup(s) == d;
      } else {
        FirstIndexAfter(p, x);
        assert Dedup(s) == d + [x];
        forall a, b | 0 <= a < b < |Dedup(s)|
          ensures FirstIndex(s, Dedup(s)[a]) < FirstIndex(s, Dedup(s)[b])
        {
          assert Dedup(s)[a] == d[a] && d[a] in p;
          if b < |d| {
            assert Dedup(s)[b] == d[b];
          } else {
            assert Dedup(s)[b] == x;
          }
        }
      }
    }
  }

  // ---------------------------------------------------------------------------
  // What the scan guarantees

  /** Exactly the keys of the cells that occur below the header of a scanned
      sheet are in the index. */
  lemma KeysAreOccurringCells(sheets: seq<Sheet>, k: string)
    ensures k in BuildIndex(sheets).entries <==>
      exists i :: 0 <= i < |sheets| && SheetHas(sheets[i], k)
  {
    BuildEffect(sheets, k);
    TraceEmpty(sheets, k);
    DedupMembers(Trace(sheets, k));
    var t := Trace(sheets, k);
    if t != [] { assert t[0] in Dedup(t); }
  }

  /** Each key's locations are, without repeats and in the order first seen, the
      titles of the scanned sheets on which the key occurs below the header. */
  lemma LocationsOfKey(sheets: seq<Sheet>, k: string)
    requires k in BuildIndex(sheets).entries
    ensures BuildIndex(sheets).entries[k] == Dedup(Trace(sheets, k))
    ensures BuildIndex(sheets).entries[k] != []
    ensures Distinct(BuildIndex(sheets).entries[k])
    ensures forall t :: t in BuildIndex(sheets).entries[k] <==>
      exists i :: 0 <= i < |sheets| && TitledHas(sheets, i, k, t)
  {
    BuildEffect(sheets, k);
    DedupMembers(Trace(sheets, k));
    forall t ensures t in BuildIndex(sheets).entries[k] <==>
      exists i :: 0 <= i < |sheets| && TitledHas(sheets, i, k, t)
    {
      TraceMembers(sheets, k, t);
    }
  }

  /** Locations appear in the order in which their sheets first yielded the key. */
  lemma LocationsFirstSeenOrder(sheets: seq<Sheet>, k: string, a: nat, b: nat)
    requires k in BuildIndex(sheets).entries
    requires a < b < |BuildIndex(sheets).entries[k]|
    ensures BuildIndex(sheets).entries[k][a] in Trace(sheets, k)
    ensures BuildIndex(sheets).entries[k][b] in Trace(sheets, k)
    ensures FirstIndex(Trace(sheets, k), BuildIndex(sheets).entries[k][a])
          < FirstIndex(Trace(sheets, k), BuildIndex(sheets).entries[k][b])
  {
    BuildEffect(sheets, k);
    DedupOrder(Trace(sheets, k));
  }

  /** The sheet titled "ACNH_Items" never appears as a location. */
  lemma ExcludedNeverLocation(sheets: seq<Sheet>, k: string)
    requires k in BuildIndex(sheets).entries
    ensures ExcludedTitle !in BuildIndex(sheets).entries[k]
  {
    LocationsOfKey(sheets, k);
  }

  /** Every key is a stripped, lower-cased, non-blank cell text. */
  lemma KeysNormalized(sheets: seq<Sheet>, k: string)
    requires k in BuildIndex(sheets).entries
    ensures k != [] && IsNormalized(k)
  {
    KeysAreOccurringCells(sheets, k);
    var i :| 0 <= i < |sheets| && SheetHas(sheets[i], k);
    var rows := sheets[i].rows.value[1..];
    var r :| 0 <= r < |rows| && RowHas(rows[r], k);
    var j :| 0 <= j < |rows[r]| && KeyOf(rows[r][j]) == Some(k);
    KeyOfNormalized(rows[r][j]);
  }

  /** The sheets kept by the scan: the excluded, unreadable and empty ones dropped. */
  function ScannedOnly(sheets: seq<Sheet>): (r: seq<Sheet>)
    ensures forall i :: 0 <= i < |r| ==> Indexed(r[i])
    decreases |sheets|
  {
    if sheets == [] then []
    else
      var last := sheets[|sheets| - 1];
      ScannedOnly(sheets[..|sheets| - 1]) + (if Indexed(last) then [last] else [])
  }

  /** Dropping the "ACNH_Items" sheet, the sheets that fail to read and the
      sheets without rows leaves the index exactly as it was. */
  lemma {:induction false} SkippedSheetsIrrelevant(sheets: seq<Sheet>)
    ensures BuildIndex(ScannedOnly(sheets)) == BuildIndex(sheets)
    decreases |sheets|
  {
    if sheets != [] {
      var p := sheets[..|sheets| - 1];
      var last := sheets[|sheets| - 1];
      var kept := ScannedOnly(p);
      SkippedSheetsIrrelevant(p);
      assert BuildIndex(sheets) == InsertSheet(BuildIndex(p), last);
      if Indexed(last) {
        assert ScannedOnly(sheets) == kept + [last];
        assert (kept + [last])[..|kept|] == kept;
      } else {
        assert ScannedOnly(sheets) == kept + [];
        assert kept + [] == kept;
      }
    }
  }

  /** Two sheets the scan cannot tell apart: the same title and the same rows
      after the header, or both skipped. */
  predicate SameScan(s: Sheet, t: Sheet) {
    Indexed(s) == Indexed(t) &&
    (Indexed(s) ==> s.title == t.title && s.rows.value[1..] == t.rows.value[1..])
  }

  lemma {:induction false} SameScanSameIndex(a: seq<Sheet>, b: seq<Sheet>)
    requires |a| == |b| && forall i :: 0 <= i < |a| ==> SameScan(a[i], b[i])
    ensures BuildIndex(a) == BuildIndex(b)
    decreases |a|
  {
    if a != [] {
      SameScanSameIndex(a[..|a| - 1], b[..|b| - 1]);
    }
  }

  /** The header row is never indexed: replacing the first row of a sheet by
      anything leaves the index unchanged. */
  lemma HeaderRowIgnored(sheets: seq<Sheet>, i: nat, header: seq<string>)
    requires i < |sheets| && sheets[i].rows.Some? && sheets[i].rows.value != []
    ensures BuildIndex(sheets[i := sheets[i].(rows := Some([header] + sheets[i].rows.value[1..]))])
         == BuildIndex(sheets)
  {
    var rows := sheets[i].rows.value;
    var changed := sheets[i := sheets[i].(rows := Some([header] + rows[1..]))];
    assert ([header] + rows[1..])[1..] == rows[1..];
    SameScanSameIndex(changed, sheets);
  }

  // ---------------------------------------------------------------------------
  // A scan that indexes nothing

  /** When no sheet is indexed (each is `ACNH_Items`, fails to read or has no
      rows) the scan still completes, with the empty dictionary. */
  lemma {:induction false} NothingIndexedEmpty(sheets: seq<Sheet>)
    requires forall i :: 0 <= i < |sheets| ==> !Indexed(sheets[i])
    ensures BuildIndex(sheets) == Empty
    decreases |sheets|
  {
    if sheets != [] {
      var p := sheets[..|sheets| - 1];
      assert forall i :: 0 <= i < |p| ==> p[i] == sheets[i];
      NothingIndexedEmpty(p);
    }
  }

  /** `sheets_scanned` is zero exactly when no sheet was indexed. */
  lemma NoneScanned(sheets: seq<Sheet>)
    ensures |ScannedSheets(sheets, |sheets|)| == 0 <==>
      forall i :: 0 <= i < |sheets| ==> !Indexed(sheets[i])
  {
    if i :| 0 <= i < |sheets| && Indexed(sheets[i]) {
      assert i in ScannedSheets(sheets, |sheets|);
    } else {
      assert ScannedSheets(sheets, |sheets|) == {};
    }
  }

  /** When every sheet read fails, the scan completes with an empty dictionary
      and a count of zero: the caught per-sheet errors do not stop the swap. */
  lemma AllSheetsUnreadable(sheets: seq<Sheet>)
    requires forall i :: 0 <= i < |sheets| ==> sheets[i].rows.None?
    ensures BuildIndex(sheets) == Empty
    ensures |ScannedSheets(sheets, |sheets|)| == 0
  {
    NothingIndexedEmpty(sheets);
    NoneScanned(sheets);
  }
}
