/** Concrete workbooks worked through the model: the merge of repeated names
    across two sheets, and a workbook on which the stored `", "`-joined string
    loses a location that the list form keeps. */
module Scenarios {
  import opened Wrappers
  import opened Text
  import opened Index
  import opened JoinedForm

  /** A string with no whitespace at either end strips to itself. */
  lemma StripPlain(s: string)
    requires s != [] && !IsSpace(s[0]) && !IsSpace(s[|s| - 1])
    ensures Strip(s) == s
  {
    LeadingSpacesUnique(s, 0);
    assert s[0..] == s;
    TrailingSpacesUnique(s, 0);
  }

  lemma KeyOfPlain(cell: string, key: string)
    requires cell != [] && !IsSpace(cell[0]) && !IsSpace(cell[|cell| - 1])
    requires Lower(cell) == key
    ensures KeyOf(cell) == Some(key)
  {
    StripPlain(cell);
  }

  /** A cell with no upper-case letter and no surrounding whitespace is its own key. */
  lemma LowerCaseCellKey(cell: string)
    requires cell != [] && !IsSpace(cell[0]) && !IsSpace(cell[|cell| - 1])
    requires forall k :: 0 <= k < |cell| ==> !('A' <= cell[k] <= 'Z')
    ensures KeyOf(cell) == Some(cell)
  {
    assert Lower(cell) == cell;
    KeyOfPlain(cell, cell);
  }

  lemma KeyCapitalised()
    ensures KeyOf("Lucky Cat") == Some("lucky cat")
  {
    assert Lower("Lucky Cat") == "lucky cat";
    KeyOfPlain("Lucky Cat", "lucky cat");
  }

  lemma KeyUpperCase()
    ensures KeyOf("LUCKY CAT") == Some("lucky cat")
  {
    assert Lower("LUCKY CAT") == "lucky cat";
    KeyOfPlain("LUCKY CAT", "lucky cat");
  }

  // Unfolding the scan over short literal lists, one step at a time

  lemma CellsTwo(c: Cache, loc: string, a: string, b: string)
    ensures InsertCells(c, loc, [a, b]) == InsertCell(InsertCell(c, loc, a), loc, b)
  {
    var cells: seq<string> := [a, b];
    assert cells[..1] == [a];
    var one: seq<string> := [a];
    assert |one[..0]| == 0;
    assert InsertCells(c, loc, one) == InsertCell(c, loc, a);
    assert InsertCells(c, loc, cells) == InsertCell(InsertCells(c, loc, one), loc, b);
  }

  lemma CellsThree(c: Cache, loc: string, a: string, b: string, d: string)
    ensures InsertCells(c, loc, [a, b, d]) == InsertCell(InsertCells(c, loc, [a, b]), loc, d)
  {
    var cells: seq<string> := [a, b, d];
    assert cells[..2] == [a, b];
  }

  lemma RowsOne(c: Cache, loc: string, row: seq<string>)
    ensures InsertRows(c, loc, [row]) == InsertCells(c, loc, row)
  {
    var rows: seq<seq<string>> := [row];
    assert |rows[..0]| == 0;
  }

  lemma OntoTwo(c: Cache, a: Sheet, b: Sheet)
    ensures BuildOnto(c, [a, b]) == InsertSheet(InsertSheet(c, a), b)
  {
    var sheets: seq<Sheet> := [a, b];
    assert sheets[..1] == [a];
    var one: seq<Sheet> := [a];
    assert |one[..0]| == 0;
    assert BuildOnto(c, one) == InsertSheet(c, a);
    assert BuildOnto(c, sheets) == InsertSheet(BuildOnto(c, one), b);
  }

  /** A sheet "Harv's Island" listing "Lucky Cat", "lucky cat" and a blank
      cell, and a sheet "Dom's Island" listing "LUCKY CAT". */
  const MergeWorkbook: seq<Sheet> :=
    [Sheet("Harv's Island", Some([["Items"], ["Lucky Cat", "lucky cat", ""]])),
     Sheet("Dom's Island", Some([["Items"], ["LUCKY CAT"]]))]

  const HarvOnly: Cache := Cache(["lucky cat"], map["lucky cat" := ["Harv's Island"]])

  /** Two spellings of one name on one sheet make one key listing the sheet once. */
  lemma HarvCells()
    ensures InsertCells(Empty, "Harv's Island", ["Lucky Cat", "lucky cat"]) == HarvOnly
  {
    KeyCapitalised();
    LowerCaseCellKey("lucky cat");
    SameKeyCells("Harv's Island", "Lucky Cat", "lucky cat", "lucky cat");
  }

  /** Two cells with the same key on one sheet list the sheet once. */
  lemma SameKeyCells(loc: string, a: string, b: string, k: string)
    requires KeyOf(a) == Some(k) && KeyOf(b) == Some(k)
    ensures InsertCells(Empty, loc, [a, b]) == Cache([k], map[k := [loc]])
  {
    CellsTwo(Empty, loc, a, b);
    assert InsertCell(Empty, loc, a) == Cache([k], map[k := [loc]]);
    assert AddLocation([loc], loc) == [loc];
  }

  lemma MergeFirstSheet()
    ensures InsertSheet(Empty, MergeWorkbook[0]) == HarvOnly
  {
    var loc := "Harv's Island";
    assert MergeWorkbook[0].rows.value[1..] == [["Lucky Cat", "lucky cat", ""]];
    RowsOne(Empty, loc, ["Lucky Cat", "lucky cat", ""]);
    CellsThree(Empty, loc, "Lucky Cat", "lucky cat", "");
    HarvCells();
    assert KeyOf("") == None;
  }

  lemma MergeSecondSheet()
    ensures InsertSheet(HarvOnly, MergeWorkbook[1])
      == Cache(["lucky cat"], map["lucky cat" := ["Harv's Island", "Dom's Island"]])
  {
    var loc := "Dom's Island";
    assert MergeWorkbook[1].rows.value[1..] == [["LUCKY CAT"]];
    RowsOne(HarvOnly, loc, ["LUCKY CAT"]);
    var row: seq<string> := ["LUCKY CAT"];
    assert |row[..0]| == 0;
    assert InsertCells(HarvOnly, loc, row) == InsertCell(HarvOnly, loc, "LUCKY CAT");
    KeyUpperCase();
    assert loc != "Harv's Island";
    assert AddLocation(["Harv's Island"], loc) == ["Harv's Island", loc];
  }

  /** "Lucky Cat", "lucky cat" and a blank cell on one sheet and "LUCKY CAT" on
      another give one key with each sheet listed once, in sheet order. */
  lemma MergeExample()
    ensures BuildIndex(MergeWorkbook)
      == Cache(["lucky cat"], map["lucky cat" := ["Harv's Island", "Dom's Island"]])
  {
    OntoTwo(Empty, MergeWorkbook[0], MergeWorkbook[1]);
    assert MergeWorkbook == [MergeWorkbook[0], MergeWorkbook[1]];
    MergeFirstSheet();
    MergeSecondSheet();
  }

  // ---------------------------------------------------------------------------
  // A sheet titled "A, B" followed by a sheet titled "A", both listing "x"

  /** The one row below the header of either sheet. */
  lemma RowsX(c: Cache, loc: string)
    ensures InsertRows(c, loc, [["x"]]) == InsertCell(c, loc, "x")
  {
    var row: seq<string> := ["x"];
    var rows: seq<seq<string>> := [row];
    assert |rows[..0]| == 0 && |row[..0]| == 0;
  }

  lemma JoinedRowsX(c: JoinedCache, loc: string)
    ensures JoinedRows(c, loc, [["x"]]) == JoinedCell(c, loc, "x")
  {
    var row: seq<string> := ["x"];
    var rows: seq<seq<string>> := [row];
    assert |rows[..0]| == 0 && |row[..0]| == 0;
  }

  /** The two sheets: "A, B" and then "A", each listing "x" below its header. */
  const CommaWorkbook: seq<Sheet> :=
    [Sheet("A, B", Some([["Items"], ["x"]])), Sheet("A", Some([["Items"], ["x"]]))]

  lemma CommaFirstSheet()
    ensures InsertSheet(Empty, CommaWorkbook[0]) == Cache(["x"], map["x" := ["A, B"]])
  {
    assert CommaWorkbook[0].rows.value[1..] == [["x"]];
    assert KeyOf("x") == Some("x") by { LowerCaseCellKey("x"); }
    RowsX(Empty, "A, B");
  }

  lemma CommaSecondSheet(c: Cache)
    requires c == Cache(["x"], map["x" := ["A, B"]])
    ensures InsertSheet(c, CommaWorkbook[1]) == Cache(["x"], map["x" := ["A, B", "A"]])
  {
    assert CommaWorkbook[1].rows.value[1..] == [["x"]];
    assert KeyOf("x") == Some("x") by { LowerCaseCellKey("x"); }
    RowsX(c, "A");
    assert "A" != "A, B";
    assert AddLocation(["A, B"], "A") == ["A, B", "A"];
    assert c.entries["x" := ["A, B", "A"]] == map["x" := ["A, B", "A"]];
  }

  /** The list form records both sheets for "x". */
  lemma CommaWorkbookListed()
    ensures BuildIndex(CommaWorkbook) == Cache(["x"], map["x" := ["A, B", "A"]])
  {
    var w := CommaWorkbook;
    assert w[..1] == [w[0]];
    assert |w[..1][..0]| == 0;
    CommaFirstSheet();
    assert BuildOnto(Empty, w[..1]) == InsertSheet(Empty, w[0]);
    CommaSecondSheet(InsertSheet(Empty, w[0]));
  }

  /** The stored string for "x" is "A, B": sheet "A" was taken as already listed. */
  lemma CommaWorkbookJoined()
    ensures JoinedBuild(CommaWorkbook) == JoinedCache(["x"], map["x" := "A, B"])
  {
    var w := CommaWorkbook;
    assert w[0].rows.value[1..] == [["x"]] && w[1].rows.value[1..] == [["x"]];
    assert KeyOf("x") == Some("x") by { LowerCaseCellKey("x"); }
    var e := JoinedCache([], map[]);
    JoinedRowsX(e, "A, B");
    var c := JoinedSheet(e, w[0]);
    assert c == JoinedCache(["x"], map["x" := "A, B"]);
    assert w[..1] == [w[0]];
    assert |w[..1][..0]| == 0;
    assert JoinedOnto(e, w[..1]) == c;
    JoinedRowsX(c, "A");
    CommaTitleHidesTitle();
  }

  /** Hence on this workbook the stored string is not the join of the
      locations: "A" is missing from it. */
  lemma CommaWorkbookDisagrees()
    ensures "x" in JoinedBuild(CommaWorkbook).entries && "x" in BuildIndex(CommaWorkbook).entries
    ensures JoinedBuild(CommaWorkbook).entries["x"] != Join(BuildIndex(CommaWorkbook).entries["x"], ListSep)
  {
    CommaWorkbookListed();
    CommaWorkbookJoined();
    assert Join(["A, B", "A"], ListSep) == "A, B, A";
  }

  // ---------------------------------------------------------------------------
  // A single sheet titled "A, B" listing "x" twice

  /** The two rows below the header, each holding "x". */
  lemma RowsXX(c: Cache, loc: string)
    ensures InsertRows(c, loc, [["x"], ["x"]]) == InsertCell(InsertCell(c, loc, "x"), loc, "x")
  {
    var rows: seq<seq<string>> := [["x"], ["x"]];
    assert rows[..1] == [["x"]];
    RowsX(c, loc);
    var row: seq<string> := ["x"];
    assert |row[..0]| == 0;
  }

  lemma JoinedRowsXX(c: JoinedCache, loc: string)
    ensures JoinedRows(c, loc, [["x"], ["x"]]) == JoinedCell(JoinedCell(c, loc, "x"), loc, "x")
  {
    var rows: seq<seq<string>> := [["x"], ["x"]];
    assert rows[..1] == [["x"]];
    JoinedRowsX(c, loc);
    var row: seq<string> := ["x"];
    assert |row[..0]| == 0;
  }

  /** One sheet "A, B" listing "x" twice below its header. */
  const RepeatWorkbook: seq<Sheet> := [Sheet("A, B", Some([["Items"], ["x"], ["x"]]))]

  /** The list form records the sheet once for "x". */
  lemma RepeatWorkbookListed()
    ensures BuildIndex(RepeatWorkbook) == Cache(["x"], map["x" := ["A, B"]])
  {
    var w := RepeatWorkbook;
    assert |w[..0]| == 0;
    assert w[0].rows.value[1..] == [["x"], ["x"]];
    assert KeyOf("x") == Some("x") by { LowerCaseCellKey("x"); }
    RowsXX(Empty, "A, B");
    var c := InsertCell(Empty, "A, B", "x");
    assert c == Cache(["x"], map["x" := ["A, B"]]);
    CommaTitleRepeats();
    assert c.entries["x" := ["A, B"]] == map["x" := ["A, B"]];
  }

  /** The stored string for "x" is "A, B, A, B": the title was appended again. */
  lemma RepeatWorkbookJoined()
    ensures JoinedBuild(RepeatWorkbook) == JoinedCache(["x"], map["x" := "A, B, A, B"])
  {
    var w := RepeatWorkbook;
    assert |w[..0]| == 0;
    assert w[0].rows.value[1..] == [["x"], ["x"]];
    assert KeyOf("x") == Some("x") by { LowerCaseCellKey("x"); }
    var e := JoinedCache([], map[]);
    JoinedRowsXX(e, "A, B");
    var c := JoinedCell(e, "A, B", "x");
    assert c == JoinedCache(["x"], map["x" := "A, B"]);
    CommaTitleRepeats();
    assert c.entries["x" := "A, B, A, B"] == map["x" := "A, B, A, B"];
  }

  /** Hence on this workbook the stored string is not the join of the
      locations: it holds the title twice where the list form holds it once. */
  lemma RepeatWorkbookDisagrees()
    ensures "x" in JoinedBuild(RepeatWorkbook).entries && "x" in BuildIndex(RepeatWorkbook).entries
    ensures JoinedBuild(RepeatWorkbook).entries["x"] != Join(BuildIndex(RepeatWorkbook).entries["x"], ListSep)
  {
    RepeatWorkbookListed();
    RepeatWorkbookJoined();
    assert Join(["A, B"], ListSep) == "A, B";
  }
}
