/** The `docs` command: the document catalog as a left-justified table.
    Each row is the document's name followed by one cell per attribute
    whose flag is set (all five under `--long-list`); every column is then
    padded to the longest cell in it, where the width a cell gets is looked
    up at the FIRST position in its row holding an equal value. */
module Catalog {
  import opened Text
  import opened Seqs

  /** The optional attributes, one per flag. */
  datatype Attr = Owner | PlatformTypes | DocumentVersion | DocumentType | SchemaVersion

  /** One catalog entry as the service lists it. */
  datatype Document = Document(
    name: string,
    owner: string,
    platformTypes: seq<string>,
    documentVersion: string,
    documentType: string,
    schemaVersion: string)

  predicate Distinct<T(==)>(s: seq<T>)
  {
    forall i, j :: 0 <= i < j < |s| ==> s[i] != s[j]
  }

  /** The order in which the flag table is walked: every attribute exactly
      once. The source walks a dictionary, whose order it does not fix. */
  predicate ListsEachOnce(order: seq<Attr>)
  {
    Distinct(order) && forall a: Attr :: a in order
  }

  /** Platform names the abbreviation can read: `x[0]` fails on an empty one. */
  predicate Abbreviable(platforms: seq<string>)
  {
    forall i :: 0 <= i < |platforms| ==> |platforms[i]| > 0
  }

  /** The platform cell: the first character of each platform name, in
      order, so `["Windows", "Linux"]` reads `"WL"` and `[]` reads `""`. */
  function PlatformCell(platforms: seq<string>): (r: string)
    requires Abbreviable(platforms)
    ensures |r| == |platforms|
    ensures forall i :: 0 <= i < |platforms| ==> r[i] == platforms[i][0]
  {
    if |platforms| == 0 then ""
    else [platforms[0][0]] + PlatformCell(platforms[1..])
  }

  lemma PlatformCellExamples()
    ensures PlatformCell(["Windows", "Linux"]) == "WL"
    ensures PlatformCell([]) == ""
  {
    assert PlatformCell(["Windows", "Linux"])[0] == 'W';
    assert PlatformCell(["Windows", "Linux"])[1] == 'L';
  }

  /** The cell of attribute `a` of document `d`. */
  function Cell(d: Document, a: Attr): string
    requires a == PlatformTypes ==> Abbreviable(d.platformTypes)
  {
    match a
    case Owner => d.owner
    case PlatformTypes => PlatformCell(d.platformTypes)
    case DocumentVersion => d.documentVersion
    case DocumentType => d.documentType
    case SchemaVersion => d.schemaVersion
  }

  /** The attributes that get a column, in walking order: those whose flag
      is in `selected`, or every one under `longList`. */
  function Chosen(order: seq<Attr>, selected: set<Attr>, longList: bool): (r: seq<Attr>)
    ensures forall a :: a in r <==> a in order && (longList || a in selected)
    ensures Distinct(order) ==> Distinct(r)
    ensures |r| <= |order|
  {
    if |order| == 0 then []
    else
      var rest := Chosen(order[1..], selected, longList);
      if longList || order[0] in selected then
        assert order[0] !in order[1..] ==> order[0] !in rest;
        [order[0]] + rest
      else rest
  }

  /** The walk keeps the order of `order`: choosing over two stretches of
      the walk one after the other gives the two choices one after the
      other. With `ChosenSingle` this fixes `Chosen` completely. */
  lemma {:induction false} ChosenConcat(a: seq<Attr>, b: seq<Attr>, selected: set<Attr>, longList: bool)
    ensures Chosen(a + b, selected, longList) == Chosen(a, selected, longList) + Chosen(b, selected, longList)
  {
    if |a| == 0 {
      assert a + b == b;
    } else {
      var ab := a + b;
      assert ab[1..] == a[1..] + b;
      assert ab[0] == a[0];
      ChosenConcat(a[1..], b, selected, longList);
      var tail := Chosen(ab[1..], selected, longList);
      assert tail == Chosen(a[1..], selected, longList) + Chosen(b, selected, longList);
      if longList || a[0] in selected {
        assert Chosen(ab, selected, longList) == [a[0]] + tail;
        assert Chosen(a, selected, longList) == [a[0]] + Chosen(a[1..], selected, longList);
        AppendAssoc([a[0]], Chosen(a[1..], selected, longList), Chosen(b, selected, longList));
      } else {
        assert Chosen(ab, selected, longList) == tail;
        assert Chosen(a, selected, longList) == Chosen(a[1..], selected, longList);
      }
    }
  }

  /** One attribute is kept exactly when its flag is set or under `longList`. */
  lemma ChosenSingle(x: Attr, selected: set<Attr>, longList: bool)
    ensures Chosen([x], selected, longList) == if longList || x in selected then [x] else []
  {
    assert [x][1..] == [];
  }

  /** A distinct sequence has as many elements as its set. */
  lemma {:induction false} DistinctCard<T>(s: seq<T>)
    requires Distinct(s)
    ensures |set x | x in s| == |s|
  {
    if |s| > 0 {
      DistinctCard(s[1..]);
      assert (set x | x in s) == {s[0]} + (set x | x in s[1..]);
      assert s[0] !in s[1..];
    }
  }

  /** Under `longList` every attribute gets a column, otherwise exactly the
      selected ones: a row has between one and six cells. */
  lemma ChosenCount(order: seq<Attr>, selected: set<Attr>, longList: bool)
    requires ListsEachOnce(order)
    ensures |Chosen(order, selected, longList)| == if longList then 5 else |selected|
  {
    var ch := Chosen(order, selected, longList);
    DistinctCard(ch);
    var all := {Owner, PlatformTypes, DocumentVersion, DocumentType, SchemaVersion};
    forall a: Attr
      ensures a in all
    {
      match a
      case Owner =>
      case PlatformTypes =>
      case DocumentVersion =>
      case DocumentType =>
      case SchemaVersion =>
    }
    if longList {
      assert (set x | x in ch) == all;
    } else {
      assert (set x | x in ch) == selected;
    }
  }

  /** The platform column is shown and so must be readable. */
  predicate RowReadable(d: Document, order: seq<Attr>, selected: set<Attr>, longList: bool)
  {
    PlatformTypes in Chosen(order, selected, longList) ==> Abbreviable(d.platformTypes)
  }

  /** The row of one document: its name, then one cell per chosen attribute. */
  function Row(d: Document, order: seq<Attr>, selected: set<Attr>, longList: bool): (r: seq<string>)
    requires RowReadable(d, order, selected, longList)
    ensures |r| == 1 + |Chosen(order, selected, longList)|
    ensures r[0] == d.name
    ensures forall k :: 0 <= k < |Chosen(order, selected, longList)| ==>
      r[k + 1] == Cell(d, Chosen(order, selected, longList)[k])
  {
    var ch := Chosen(order, selected, longList);
    [d.name] + seq(|ch|, k requires 0 <= k < |ch| => Cell(d, ch[k]))
  }

  /** Every row has exactly `n` cells. */
  predicate Rectangular(rows: seq<seq<string>>, n: nat)
  {
    forall i :: 0 <= i < |rows| ==> |rows[i]| == n
  }

  /** The rows of the whole catalog: all of the same width, which is one
      more than the number of selected attributes (six under `longList`). */
  function Rows(docs: seq<Document>, order: seq<Attr>, selected: set<Attr>, longList: bool): (rows: seq<seq<string>>)
    requires forall i :: 0 <= i < |docs| ==> RowReadable(docs[i], order, selected, longList)
    ensures |rows| == |docs|
    ensures Rectangular(rows, 1 + |Chosen(order, selected, longList)|)
    ensures forall i :: 0 <= i < |docs| ==> rows[i] == Row(docs[i], order, selected, longList)
    ensures forall i :: 0 <= i < |docs| ==> rows[i][0] == docs[i].name
  {
    seq(|docs|, i requires 0 <= i < |docs| => Row(docs[i], order, selected, longList))
  }

  /** The number of columns `zip(*rows)` yields: the shortest row's width. */
  function MinLen(rows: seq<seq<string>>): (n: nat)
    ensures forall i :: 0 <= i < |rows| ==> n <= |rows[i]|
    ensures |rows| > 0 ==> exists i :: 0 <= i < |rows| && n == |rows[i]|
  {
    if |rows| == 0 then 0
    else
      var rest := MinLen(rows[1..]);
      assert forall i :: 1 <= i < |rows| ==> rows[1..][i - 1] == rows[i];
      if |rows| == 1 || |rows[0]| <= rest then |rows[0]| else rest
  }

  lemma MinLenRectangular(rows: seq<seq<string>>, n: nat)
    requires |rows| > 0 && Rectangular(rows, n)
    ensures MinLen(rows) == n
  {
  }

  /** Column `j` of the table, one cell per row: an element of `zip(*rows)`. */
  function Column(rows: seq<seq<string>>, j: nat): (col: seq<string>)
    requires j < MinLen(rows)
    ensures |col| == |rows|
    ensures forall i :: 0 <= i < |rows| ==> col[i] == rows[i][j]
  {
    seq(|rows|, i requires 0 <= i < |rows| => rows[i][j])
  }

  /** `reduce(lambda a, b: a if len(a) > len(b) else b, xs[1:], acc)`. */
  function LongestFrom(acc: string, xs: seq<string>): (r: string)
    ensures r == acc || r in xs
    ensures |acc| <= |r|
    ensures forall i :: 0 <= i < |xs| ==> |xs[i]| <= |r|
    decreases |xs|
  {
    if |xs| == 0 then acc
    else
      var r := LongestFrom(if |acc| > |xs[0]| then acc else xs[0], xs[1..]);
      assert forall i :: 1 <= i < |xs| ==> xs[1..][i - 1] == xs[i];
      assert r in xs[1..] ==> r in xs;
      r
  }

  /** `reduce(lambda a, b: a if len(a) > len(b) else b, xs)`: a longest
      element of a non-empty sequence. */
  function Longest(xs: seq<string>): (r: string)
    requires |xs| > 0
    ensures r in xs
    ensures forall i :: 0 <= i < |xs| ==> |xs[i]| <= |r|
  {
    LongestFrom(xs[0], xs[1..])
  }

  /** `w` is the length of the longest cell of column `j`. */
  ghost predicate IsColumnWidth(rows: seq<seq<string>>, j: nat, w: nat)
    requires j < MinLen(rows)
  {
    && (forall i :: 0 <= i < |rows| ==> |rows[i][j]| <= w)
    && exists i :: 0 <= i < |rows| && |rows[i][j]| == w
  }

  /** `pad`: for every column, its longest cell. */
  function Pad(rows: seq<seq<string>>): (pad: seq<string>)
    ensures |pad| == MinLen(rows)
    ensures forall j :: 0 <= j < |pad| ==> IsColumnWidth(rows, j, |pad[j]|)
  {
    var pad := seq(MinLen(rows), j requires 0 <= j < MinLen(rows) => Longest(Column(rows, j)));
    assert forall j :: 0 <= j < |pad| ==> pad[j] in Column(rows, j);
    pad
  }

  /** The first position of `x` in `d`: `d.index(x)`. */
  function IndexOf(d: seq<string>, x: string): (k: nat)
    requires x in d
    ensures k < |d| && d[k] == x
    ensures forall j :: 0 <= j < k ==> d[j] != x
  {
    if d[0] == x then 0
    else
      assert x in d[1..];
      1 + IndexOf(d[1..], x)
  }

  /** The width lookup of every cell of row `d` stays inside `pad`. Where
      it does not, the source raises an index error. */
  predicate RowFits(d: seq<string>, n: nat)
  {
    forall k :: 0 <= k < |d| ==> IndexOf(d, d[k]) < n
  }

  /** The width cell `k` of row `d` is padded to: that of the column of the
      first cell in the row equal to it. */
  function CellWidth(d: seq<string>, pad: seq<string>, k: nat): nat
    requires k < |d| && RowFits(d, |pad|)
  {
    |pad[IndexOf(d, d[k])]|
  }

  /** `i.ljust(len(pad[d.index(i)]))` for every cell `i` of row `d`: each
      cell unchanged at the front, then blanks up to its width, never cut. */
  function RenderCells(d: seq<string>, pad: seq<string>): (cells: seq<string>)
    requires RowFits(d, |pad|)
    ensures |cells| == |d|
    ensures forall k :: 0 <= k < |d| ==> cells[k] == LJust(d[k], CellWidth(d, pad, k))
  {
    seq(|d|, k requires 0 <= k < |d| => LJust(d[k], CellWidth(d, pad, k)))
  }

  /** One printed row: the padded cells separated by single blanks, as
      Python 2's `print cell,` writes them. */
  function RenderRow(d: seq<string>, pad: seq<string>): string
    requires RowFits(d, |pad|)
  {
    Join(" ", RenderCells(d, pad))
  }

  predicate TableFits(rows: seq<seq<string>>)
  {
    forall i :: 0 <= i < |rows| ==> RowFits(rows[i], MinLen(rows))
  }

  /** The printed table: one line per row, widths computed once over all rows. */
  function RenderTable(rows: seq<seq<string>>): (lines: seq<string>)
    requires TableFits(rows)
    ensures |lines| == |rows|
    ensures forall i :: 0 <= i < |rows| ==> lines[i] == RenderRow(rows[i], Pad(rows))
  {
    var pad := Pad(rows);
    seq(|rows|, i requires 0 <= i < |rows| => RenderRow(rows[i], pad))
  }

  /** A row as wide as every column count fits: `d.index(x)` is never past
      the position of `x` itself. */
  lemma RectangularFits(rows: seq<seq<string>>, n: nat)
    requires Rectangular(rows, n)
    ensures TableFits(rows)
  {
    if |rows| > 0 {
      MinLenRectangular(rows, n);
    }
  }

  /** Every rendered cell is its cell padded, never truncated, to the width
      of its lookup column: its length is the larger of the two. */
  lemma CellNeverTruncated(rows: seq<seq<string>>, i: nat, k: nat)
    requires TableFits(rows) && i < |rows| && k < |rows[i]|
    ensures var cell := RenderCells(rows[i], Pad(rows))[k];
      && |cell| == Max(|rows[i][k]|, CellWidth(rows[i], Pad(rows), k))
      && cell[..|rows[i][k]|] == rows[i][k]
      && forall c :: |rows[i][k]| <= c < |cell| ==> cell[c] == ' '
  {
  }

  /** In a row whose cells are pairwise distinct, cell `k` is padded to the
      width of its own column: the longest cell of column `k`. */
  lemma {:induction false} DistinctRowOwnWidth(rows: seq<seq<string>>, n: nat, i: nat, k: nat)
    requires Rectangular(rows, n) && i < |rows| && k < n
    requires Distinct(rows[i])
    ensures TableFits(rows) && k < MinLen(rows)
    ensures IsColumnWidth(rows, k, |RenderCells(rows[i], Pad(rows))[k]|)
  {
    RectangularFits(rows, n);
    MinLenRectangular(rows, n);
    var d := rows[i];
    var pad := Pad(rows);
    assert IndexOf(d, d[k]) == k;
    assert |d[k]| <= |pad[k]|;
  }

  /** In a row with pairwise distinct cells every rendered cell is exactly
      as wide as its column. */
  lemma DistinctRowFullWidth(rows: seq<seq<string>>, n: nat, i: nat)
    requires Rectangular(rows, n) && i < |rows|
    requires Distinct(rows[i])
    ensures TableFits(rows) && |Pad(rows)| == n
    ensures Lengths(RenderCells(rows[i], Pad(rows))) == Lengths(Pad(rows))
  {
    RectangularFits(rows, n);
    MinLenRectangular(rows, n);
    var d := rows[i];
    var pad := Pad(rows);
    var cells := RenderCells(d, pad);
    forall j | 0 <= j < n
      ensures |cells[j]| == |pad[j]|
    {
      assert IndexOf(d, d[j]) == j;
      assert |d[j]| <= |pad[j]|;
    }
  }

  /** Columns line up: in every row with pairwise distinct cells, cell `k`
      starts at the same offset, fixed by the widths of the columns before
      it and the single blanks between them. */
  lemma ColumnsAligned(rows: seq<seq<string>>, n: nat, i: nat, k: nat)
    requires Rectangular(rows, n) && i < |rows| && k < n
    requires Distinct(rows[i])
    ensures TableFits(rows) && k < |Pad(rows)|
    ensures PlacedAt(RenderTable(rows)[i], Offset(Lengths(Pad(rows)), 1, k), rows[i][k])
  {
    DistinctRowFullWidth(rows, n, i);
    var cells := RenderCells(rows[i], Pad(rows));
    assert cells[k][..|rows[i][k]|] == rows[i][k];
    JoinAt(cells, Lengths(Pad(rows)), k, rows[i][k]);
    TableLine(rows, i);
  }

  /** Line `i` of the table is row `i`'s padded cells joined by blanks. */
  lemma TableLine(rows: seq<seq<string>>, i: nat)
    requires TableFits(rows) && i < |rows|
    ensures RenderTable(rows)[i] == Join(" ", RenderCells(rows[i], Pad(rows)))
  {
  }

  /** A prefix `x` of piece `k` of a blank-separated join whose pieces have
      the lengths `ws` sits at the offset those lengths give. */
  lemma JoinAt(cells: seq<string>, ws: seq<nat>, k: nat, x: string)
    requires k < |cells| && Lengths(cells) == ws
    requires |x| <= |cells[k]| && cells[k][..|x|] == x
    ensures PlacedAt(Join(" ", cells), Offset(ws, 1, k), x)
  {
    JoinPiece(" ", cells, k);
    PlacedPrefix(Join(" ", cells), Offset(ws, 1, k), cells[k], |x|);
  }

  /** A repeated value borrows the width of its first occurrence: in the
      first row below, the second `"x"` sits in a column one wide but is
      padded to four, the width of the column its first copy is in. */
  lemma RepeatedCellBorrowsWidth()
    ensures var rows := [["a", "x", "x"], ["b", "yyyy", "z"]];
      && TableFits(rows)
      && |Pad(rows)| == 3
      && |Pad(rows)[2]| == 1
      && RenderCells(rows[0], Pad(rows))[2] == "x   "
  {
    var rows := [["a", "x", "x"], ["b", "yyyy", "z"]];
    BorrowingPad(rows);
    BorrowedCell(rows[0], Pad(rows));
  }

  lemma BorrowedCell(d: seq<string>, pad: seq<string>)
    requires d == ["a", "x", "x"] && |pad| == 3 && |pad[1]| == 4
    ensures RowFits(d, |pad|) && RenderCells(d, pad)[2] == "x   "
  {
    assert IndexOf(d, "a") == 0;
    assert IndexOf(d, "x") == 1;
    assert LJust("x", 4) == "x   ";
  }

  lemma BorrowingPad(rows: seq<seq<string>>)
    requires rows == [["a", "x", "x"], ["b", "yyyy", "z"]]
    ensures TableFits(rows) && |Pad(rows)| == 3
    ensures |Pad(rows)[1]| == 4 && |Pad(rows)[2]| == 1
  {
    RectangularFits(rows, 3);
    MinLenRectangular(rows, 3);
    var pad := Pad(rows);
    assert IsColumnWidth(rows, 1, |pad[1]|);
    assert IsColumnWidth(rows, 2, |pad[2]|);
  }

  /** Whether every document's row can be built. */
  predicate CatalogReadable(docs: seq<Document>, order: seq<Attr>, selected: set<Attr>, longList: bool)
  {
    forall i :: 0 <= i < |docs| ==> RowReadable(docs[i], order, selected, longList)
  }

  /** `docs`: the document count, then the table, one line per document. */
  function Docs(docs: seq<Document>, order: seq<Attr>, selected: set<Attr>, longList: bool): (lines: seq<string>)
    requires CatalogReadable(docs, order, selected, longList)
    ensures |lines| == 1 + |docs|
    ensures lines[0] == "total " + IntToString(|docs|)
    ensures |docs| == 0 ==> lines == ["total 0"]
    ensures forall i :: 0 <= i < |docs| ==>
      lines[1 + i] == RenderTable(Rows(docs, order, selected, longList))[i]
  {
    var rows := Rows(docs, order, selected, longList);
    RectangularFits(rows, 1 + |Chosen(order, selected, longList)|);
    assert |docs| == 0 ==> "total " + IntToString(|docs|) == "total 0" && RenderTable(rows) == [];
    ["total " + IntToString(|docs|)] + RenderTable(rows)
  }

  /** The column promise carried over to what `docs` prints: in the line of
      a document whose cells are pairwise distinct, cell `k` starts at the
      offset fixed by the widths of the columns before it. */
  lemma DocsAligned(docs: seq<Document>, order: seq<Attr>, selected: set<Attr>, longList: bool, i: nat, k: nat)
    requires CatalogReadable(docs, order, selected, longList)
    requires i < |docs| && k <= |Chosen(order, selected, longList)|
    requires Distinct(Row(docs[i], order, selected, longList))
    ensures var rows := Rows(docs, order, selected, longList);
      && TableFits(rows) && k < |Pad(rows)|
      && PlacedAt(Docs(docs, order, selected, longList)[1 + i], Offset(Lengths(Pad(rows)), 1, k), rows[i][k])
  {
    var rows := Rows(docs, order, selected, longList);
    ColumnsAligned(rows, 1 + |Chosen(order, selected, longList)|, i, k);
  }

  /** Two documents whose owners are twenty and four characters long,
      listed with `--owner`: the shorter owner is followed by sixteen blanks. */
  lemma OwnerColumnPadding(order: seq<Attr>)
    requires ListsEachOnce(order)
    ensures var docs := [Document("Doc-A", "abcdefghijklmnopqrst", [], "1", "Command", "2.2"),
                         Document("Doc-B", "Amaz", [], "1", "Command", "2.2")];
      var rows := Rows(docs, order, {Owner}, false);
      && TableFits(rows)
      && |rows[1]| == 2
      && RenderCells(rows[1], Pad(rows))[1] == "Amaz" + Spaces(16)
  {
    var docs := [Document("Doc-A", "abcdefghijklmnopqrst", [], "1", "Command", "2.2"),
                 Document("Doc-B", "Amaz", [], "1", "Command", "2.2")];
    OwnerRows(order, docs);
    OwnerTable();
  }

  lemma OwnerRows(order: seq<Attr>, docs: seq<Document>)
    requires ListsEachOnce(order)
    requires docs == [Document("Doc-A", "abcdefghijklmnopqrst", [], "1", "Command", "2.2"),
                      Document("Doc-B", "Amaz", [], "1", "Command", "2.2")]
    ensures Rows(docs, order, {Owner}, false) == [["Doc-A", "abcdefghijklmnopqrst"], ["Doc-B", "Amaz"]]
  {
    ChosenCount(order, {Owner}, false);
    var ch := Chosen(order, {Owner}, false);
    assert Owner in ch;
    assert ch == [Owner];
    var rows := Rows(docs, order, {Owner}, false);
    assert rows[0] == ["Doc-A", "abcdefghijklmnopqrst"];
    assert rows[1] == ["Doc-B", "Amaz"];
  }

  lemma OwnerTable()
    ensures var rows := [["Doc-A", "abcdefghijklmnopqrst"], ["Doc-B", "Amaz"]];
      && TableFits(rows)
      && RenderCells(rows[1], Pad(rows))[1] == "Amaz" + Spaces(16)
  {
    var rows := [["Doc-A", "abcdefghijklmnopqrst"], ["Doc-B", "Amaz"]];
    RectangularFits(rows, 2);
    MinLenRectangular(rows, 2);
    var pad := Pad(rows);
    assert IsColumnWidth(rows, 1, |pad[1]|);
    assert |pad[1]| == 20;
    assert IndexOf(rows[1], "Amaz") == 1;
  }
}
