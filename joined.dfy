/** The location lists as both bots actually store them (sc.py:126-134,
    main.py:117-126): one string per key, the sheet titles joined by `", "`,
    where a title is added unless it is among the pieces of `split(", ")`.
    This agrees with the list form of `Index` as long as no scanned title
    contains `", "`; a title that does can hide another title. */
module JoinedForm {
  import opened Wrappers
  import opened Text
  import opened Index

  /** `temp_cache` with string values: key order and, per key, the joined titles. */
  datatype JoinedCache = JoinedCache(keys: seq<string>, entries: map<string, string>)

  /** `if location_name not in stored.split(", "): stored += f", {location_name}"`. */
  function JoinedAdd(stored: string, loc: string): string {
    if loc in Split(stored, ListSep) then stored else stored + ListSep + loc
  }

  function JoinedCell(c: JoinedCache, loc: string, cell: string): JoinedCache {
    match KeyOf(cell)
    case None => c
    case Some(k) =>
      if k in c.entries then JoinedCache(c.keys, c.entries[k := JoinedAdd(c.entries[k], loc)])
      else JoinedCache(c.keys + [k], c.entries[k := loc])
  }

  function JoinedCells(c: JoinedCache, loc: string, cells: seq<string>): JoinedCache
    decreases |cells|
  {
    if cells == [] then c
    else JoinedCell(JoinedCells(c, loc, cells[..|cells| - 1]), loc, cells[|cells| - 1])
  }

  function JoinedRows(c: JoinedCache, loc: string, rows: seq<seq<string>>): JoinedCache
    decreases |rows|
  {
    if rows == [] then c
    else JoinedCells(JoinedRows(c, loc, rows[..|rows| - 1]), loc, rows[|rows| - 1])
  }

  function JoinedSheet(c: JoinedCache, s: Sheet): JoinedCache {
    if Indexed(s) then JoinedRows(c, s.title, s.rows.value[1..]) else c
  }

  function JoinedOnto(c: JoinedCache, sheets: seq<Sheet>): JoinedCache
    decreases |sheets|
  {
    if sheets == [] then c
    else JoinedSheet(JoinedOnto(c, sheets[..|sheets| - 1]), sheets[|sheets| - 1])
  }

  /** The string-valued dictionary the scan produces, as written. */
  function JoinedBuild(sheets: seq<Sheet>): JoinedCache {
    JoinedOnto(JoinedCache([], map[]), sheets)
  }

  // ---------------------------------------------------------------------------
  // Agreement with the list form

  /** A location name that cannot be confused with the separator. */
  predicate Plain(loc: string) {
    !Contains(loc, ListSep)
  }

  /** `j` stores, under the same keys in the same order, the join of `c`'s lists,
      all of whose names are plain. */
  ghost predicate Agree(c: Cache, j: JoinedCache) {
    && c.keys == j.keys
    && (forall k :: k in c.entries <==> k in j.entries)
    && (forall k :: k in c.entries ==> EntryAgrees(c.entries[k], j.entries[k]))
  }

  /** One key's list is non-empty, its names are plain, and it is stored joined. */
  predicate EntryAgrees(locs: seq<string>, stored: string) {
    locs != [] && AllPlain(locs) && stored == Join(locs, ListSep)
  }

  predicate AllPlain(locs: seq<string>) {
    forall i :: 0 <= i < |locs| ==> Plain(locs[i])
  }

  lemma {:induction false} JoinAppend(xs: seq<string>, x: string, sep: string)
    requires xs != []
    ensures Join(xs + [x], sep) == Join(xs, sep) + sep + x
    decreases |xs|
  {
    if |xs| > 1 {
      assert (xs + [x])[1..] == xs[1..] + [x];
      JoinAppend(xs[1..], x, sep);
    }
  }

  /** While names are plain, the string test "already among the pieces" is the
      list test "already in the list", and appending ", name" is appending. */
  lemma JoinedAddAgrees(locs: seq<string>, loc: string)
    requires locs != [] && AllPlain(locs) && Plain(loc)
    ensures JoinedAdd(Join(locs, ListSep), loc) == Join(AddLocation(locs, loc), ListSep)
  {
    forall i | 0 <= i < |locs| ensures Clean(locs[i], ListSep) {
      CommaClean(locs[i]);
    }
    SplitJoin(locs, ListSep);
    if loc !in locs {
      JoinAppend(locs, loc, ListSep);
    }
  }

  /** Updating an existing key's list, or adding a new key, keeps the agreement. */
  lemma AgreeUpdate(c: Cache, j: JoinedCache, k: string, locs: seq<string>)
    requires Agree(c, j) && k in c.entries
    requires EntryAgrees(locs, Join(locs, ListSep))
    ensures Agree(Cache(c.keys, c.entries[k := locs]), JoinedCache(j.keys, j.entries[k := Join(locs, ListSep)]))
  {
  }

  lemma AgreeNew(c: Cache, j: JoinedCache, k: string, loc: string)
    requires Agree(c, j) && k !in c.entries && Plain(loc)
    ensures Agree(Cache(c.keys + [k], c.entries[k := [loc]]), JoinedCache(j.keys + [k], j.entries[k := loc]))
  {
    assert EntryAgrees([loc], loc);
  }

  lemma CellAgrees(c: Cache, j: JoinedCache, loc: string, cell: string)
    requires Agree(c, j) && Plain(loc)
    ensures Agree(InsertCell(c, loc, cell), JoinedCell(j, loc, cell))
  {
    match KeyOf(cell)
    case None =>
    case Some(k) =>
      if k in c.entries {
        var locs := c.entries[k];
        JoinedAddAgrees(locs, loc);
        var added := AddLocation(locs, loc);
        assert EntryAgrees(added, Join(added, ListSep)) by {
          assert forall i :: 0 <= i < |added| ==> Plain(added[i]);
        }
        AgreeUpdate(c, j, k, added);
      } else {
        AgreeNew(c, j, k, loc);
      }
  }

  lemma {:induction false} CellsAgree(c: Cache, j: JoinedCache, loc: string, cells: seq<string>)
    requires Agree(c, j) && Plain(loc)
    ensures Agree(InsertCells(c, loc, cells), JoinedCells(j, loc, cells))
    decreases |cells|
  {
    if cells != [] {
      CellsAgree(c, j, loc, cells[..|cells| - 1]);
      CellAgrees(InsertCells(c, loc, cells[..|cells| - 1]), JoinedCells(j, loc, cells[..|cells| - 1]),
        loc, cells[|cells| - 1]);
    }
  }

  lemma {:induction false} RowsAgree(c: Cache, j: JoinedCache, loc: string, rows: seq<seq<string>>)
    requires Agree(c, j) && Plain(loc)
    ensures Agree(InsertRows(c, loc, rows), JoinedRows(j, loc, rows))
    decreases |rows|
  {
    if rows != [] {
      RowsAgree(c, j, loc, rows[..|rows| - 1]);
      CellsAgree(InsertRows(c, loc, rows[..|rows| - 1]), JoinedRows(j, loc, rows[..|rows| - 1]),
        loc, rows[|rows| - 1]);
    }
  }

  /** Every scanned sheet has a plain title. */
  predicate PlainTitles(sheets: seq<Sheet>) {
    forall i :: 0 <= i < |sheets| && Indexed(sheets[i]) ==> Plain(sheets[i].title)
  }

  lemma {:induction false} OntoAgrees(c: Cache, j: JoinedCache, sheets: seq<Sheet>)
    requires Agree(c, j) && PlainTitles(sheets)
    ensures Agree(BuildOnto(c, sheets), JoinedOnto(j, sheets))
    decreases |sheets|
  {
    if sheets != [] {
      var init := sheets[..|sheets| - 1];
      var s := sheets[|sheets| - 1];
      assert PlainTitles(init) by {
        forall i | 0 <= i < |init| && Indexed(init[i]) ensures Plain(init[i].title) {
          assert init[i] == sheets[i];
        }
      }
      OntoAgrees(c, j, init);
      if Indexed(s) {
        assert Plain(s.title) by { assert s == sheets[|sheets| - 1]; }
        RowsAgree(BuildOnto(c, init), JoinedOnto(j, init), s.title, s.rows.value[1..]);
      }
    }
  }

  /** When no scanned sheet's title contains `", "`, the dictionary as written
      has the same keys in the same order as the list-form index, and each
      stored string is the `", "`-join of that key's location list. */
  lemma JoinedBuildAgrees(sheets: seq<Sheet>)
    requires PlainTitles(sheets)
    ensures JoinedBuild(sheets).keys == BuildIndex(sheets).keys
    ensures forall k :: k in JoinedBuild(sheets).entries <==> k in BuildIndex(sheets).entries
    ensures forall k :: k in BuildIndex(sheets).entries ==>
      JoinedBuild(sheets).entries[k] == Join(BuildIndex(sheets).entries[k], ListSep)
  {
    OntoAgrees(Empty, JoinedCache([], map[]), sheets);
  }

  // ---------------------------------------------------------------------------
  // A title containing ", " hides another title

  /** After a sheet titled "A, B" has stored its title, the title "A" counts
      as already present, although no sheet titled "A" was seen: the joined form
      keeps "A, B" where the list form keeps both names. */
  lemma CommaTitleHidesTitle()
    ensures Split("A, B", ListSep) == ["A", "B"]
    ensures JoinedAdd("A, B", "A") == "A, B"
    ensures AddLocation(["A, B"], "A") == ["A, B", "A"]
    ensures Join(AddLocation(["A, B"], "A"), ListSep) != JoinedAdd(Join(["A, B"], ListSep), "A")
  {
    var s := "A, B";
    assert !MatchAt(s, ListSep, 0) by { MatchPair(s, ListSep, 0); }
    assert MatchAt(s, ListSep, 1) by { MatchPair(s, ListSep, 1); }
    assert FindSep(s, ListSep) == Some(1);
    assert s[..1] == "A" && s[3..] == "B";
    assert FindSep("B", ListSep) == None;
  }

  /** A title containing `", "` is not among the pieces of its own stored
      string, so seeing it again appends it again, where the list form keeps
      it once. */
  lemma CommaTitleRepeats()
    ensures JoinedAdd("A, B", "A, B") == "A, B, A, B"
    ensures AddLocation(["A, B"], "A, B") == ["A, B"]
  {
    CommaTitleHidesTitle();
    assert "A, B" != "A" && "A, B" != "B";
  }
}
