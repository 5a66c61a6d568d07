/** The table serialisation the docx, pdf and xlsx processors share: header-row
    detection (0 to 3 rows), vertical merging of the header columns, and the
    pipe-table text between the start and end markers. */
module Tables {
  import opened Text

  /** A table cell: `None` where the extractor found no cell. */
  type Cell = Option<string>
  type Row = seq<Cell>

  /** Python truthiness of a cell: neither `None` nor the empty string. */
  predicate Truthy(c: Cell) { c.Some? && c.value != "" }

  /** A row of strings, as python-docx and pandas give them. */
  function Cells(row: seq<string>): (r: Row)
    ensures |r| == |row| && forall k :: 0 <= k < |row| ==> r[k] == Some(row[k])
  {
    seq(|row|, k requires 0 <= k < |row| => Some(row[k]))
  }

  function CellRows(rows: seq<seq<string>>): (r: seq<Row>)
    ensures |r| == |rows| && forall i :: 0 <= i < |rows| ==> r[i] == Cells(rows[i])
  {
    seq(|rows|, i requires 0 <= i < |rows| => Cells(rows[i]))
  }

  predicate AllPresent(row: Row) { forall k :: 0 <= k < |row| ==> row[k].Some? }

  // ---------------------------------------------------------------- `\d+[,\.]\d+|\b\d+\b`

  /** `\d[,\.]\d` at position i: the first alternative matches there. */
  predicate DecimalAt(s: string, i: nat) {
    i + 2 < |s| && IsDigit(s[i]) && (s[i + 1] == ',' || s[i + 1] == '.') && IsDigit(s[i + 2])
  }

  /** `\b\d+\b` matches exactly `s[i..j]`. */
  predicate WordNumberAt(s: string, i: nat, j: nat) {
    i < j <= |s| && (forall k :: i <= k < j ==> IsDigit(s[k]))
    && (i == 0 || !IsWordChar(s[i - 1])) && (j == |s| || !IsWordChar(s[j]))
  }

  /** `re.search(r'\d+[,\.]\d+|\b\d+\b', s)` finds a match. */
  predicate HasNumber(s: string) {
    (exists i | 0 <= i < |s| :: DecimalAt(s, i))
    || (exists i, j | 0 <= i < j <= |s| :: WordNumberAt(s, i, j))
  }

  /** `_has_numeric_data`: a truthy cell contains a number. */
  predicate HasNumericData(row: Row) {
    exists k | 0 <= k < |row| :: Truthy(row[k]) && HasNumber(row[k].value)
  }

  /** A number needs a digit. */
  lemma HasNumberDigit(s: string)
    ensures HasNumber(s) ==> exists k :: 0 <= k < |s| && IsDigit(s[k])
  {
    if HasNumber(s) {
      if i :| 0 <= i < |s| && DecimalAt(s, i) {
        assert IsDigit(s[i]);
      } else {
        var i, j :| 0 <= i < j <= |s| && WordNumberAt(s, i, j);
        assert IsDigit(s[i]);
      }
    }
  }

  /** A cell made of digits only is a number. */
  lemma DigitsAreNumber(s: string)
    requires s != [] && forall k :: 0 <= k < |s| ==> IsDigit(s[k])
    ensures HasNumber(s)
  {
    assert WordNumberAt(s, 0, |s|);
  }

  /** Example: `1,5` is a number; digits glued to letters, as in `СП12`, are not. */
  lemma HasNumberExamples()
    ensures HasNumber("1,5")
    ensures !HasNumber("СП12")
  {
    assert DecimalAt("1,5", 0);
    var s := "СП12";
    forall i, j | 0 <= i < j <= |s| ensures !WordNumberAt(s, i, j) {
      if i >= 2 { assert IsWordChar(s[i - 1]); } else { assert !IsDigit(s[i]); }
    }
    forall i | 0 <= i < |s| ensures !DecimalAt(s, i) {
    }
  }

  // ---------------------------------------------------------------- row predicates

  /** `sum(len(str(cell)) for cell in row if cell)`. */
  function TotalChars(row: Row): nat {
    if row == [] then 0
    else TotalChars(row[..|row| - 1]) + (if Truthy(Last(row)) then |Last(row).value| else 0)
  }

  /** `_looks_like_data_row`: more than 25 characters per cell on average, or a number. */
  predicate LooksLikeDataRow(row: Row) {
    |row| > 0 && (TotalChars(row) > 25 * |row| || HasNumericData(row))
  }

  const HeaderKeywords: seq<string> :=
    ["характеристика", "показатель", "параметр", "наименование", "описание", "тип", "вид", "категория", "название"]

  /** The lower-cased texts of the truthy cells, in order. */
  function TruthyTexts(row: Row): seq<string> {
    if row == [] then []
    else TruthyTexts(row[..|row| - 1]) + (if Truthy(Last(row)) then [Lower(Last(row).value)] else [])
  }

  /** `' '.join(str(cell).lower() for cell in row if cell)`. */
  function RowText(row: Row): string {
    Join(" ", TruthyTexts(row))
  }

  predicate HasTruthy(row: Row) { exists k | 0 <= k < |row| :: Truthy(row[k]) }

  /** `_is_explicit_header_row`: a header keyword and fewer than 30 characters per cell. */
  predicate IsExplicitHeaderRow(row: Row) {
    |row| > 0 && (exists k | 0 <= k < |HeaderKeywords| :: Contains(RowText(row), HeaderKeywords[k]))
    && TotalChars(row) < 30 * |row|
  }

  /** A text cell of more than 25 characters alone makes a one-cell row data. */
  lemma LongCellIsData(s: string)
    requires |s| > 25
    ensures LooksLikeDataRow([Some(s)])
  {
    var row: Row := [Some(s)];
    assert row[..0] == [];
  }

  /** A row with a numeric cell is a data row; a row with no truthy cell never is. */
  lemma DataRowFacts(row: Row)
    ensures |row| > 0 && HasNumericData(row) ==> LooksLikeDataRow(row)
    ensures !HasTruthy(row) ==> !LooksLikeDataRow(row)
  {
    if !HasTruthy(row) {
      NoTruthyNoChars(row);
    }
  }

  lemma {:induction false} NoTruthyNoChars(row: Row)
    requires !HasTruthy(row)
    ensures TotalChars(row) == 0
  {
    if row != [] {
      var init := row[..|row| - 1];
      assert !HasTruthy(init) by {
        forall k | 0 <= k < |init| ensures !Truthy(init[k]) {
          assert init[k] == row[k];
        }
      }
      NoTruthyNoChars(init);
      assert !Truthy(row[|row| - 1]);
    }
  }

  // ---------------------------------------------------------------- header rows

  /** `min(3, len(table_data))`. */
  function HeaderLimit(data: seq<Row>): nat { if |data| < 3 then |data| else 3 }

  /** Row i ends the header: the next row holds numbers, or row i looks like data. */
  predicate EndsHeader(data: seq<Row>, i: nat)
    requires i < |data|
  {
    (i + 1 < |data| && HasNumericData(data[i + 1])) || LooksLikeDataRow(data[i])
  }

  /** The header size found scanning from row i. */
  function HeaderScan(data: seq<Row>, i: nat): (r: nat)
    requires i <= HeaderLimit(data)
    ensures r <= HeaderLimit(data)
    decreases HeaderLimit(data) - i
  {
    if i == HeaderLimit(data) then i
    else if i + 1 < |data| && HasNumericData(data[i + 1]) then i + 1
    else if LooksLikeDataRow(data[i]) then i
    else HeaderScan(data, i + 1)
  }

  /** `_detect_header_rows`. */
  function HeaderCount(data: seq<Row>): (r: nat)
    ensures r <= HeaderLimit(data) <= |data|
  {
    HeaderScan(data, 0)
  }

  /** The loop of `_detect_header_rows`; the explicit-header and first-row tests
      only `continue`. */
  method DetectHeaderRows(data: seq<Row>) returns (count: nat)
    ensures count == HeaderCount(data)
  {
    if |data| == 0 {
      return 0;
    }
    var maxRows := if |data| < 3 then |data| else 3;
    for i := 0 to maxRows
      invariant HeaderScan(data, i) == HeaderCount(data)
    {
      var row := data[i];
      if i + 1 < |data| && HasNumericData(data[i + 1]) {
        return i + 1;
      }
      if LooksLikeDataRow(row) {
        return i;
      }
      if IsExplicitHeaderRow(row) {
        continue;
      }
      if i == 0 {
        continue;
      }
    }
    return maxRows;
  }

  lemma {:induction false} HeaderScanFacts(data: seq<Row>, i: nat)
    requires i <= HeaderLimit(data)
    requires forall j :: 0 <= j < i ==> !EndsHeader(data, j)
    ensures HeaderScan(data, i) <= HeaderLimit(data)
    ensures (forall j :: i <= j < HeaderLimit(data) ==> !EndsHeader(data, j)) ==> HeaderScan(data, i) == HeaderLimit(data)
    ensures forall j :: i <= j < HeaderLimit(data) && EndsHeader(data, j) && (forall l :: i <= l < j ==> !EndsHeader(data, l)) ==>
              HeaderScan(data, i) == if j + 1 < |data| && HasNumericData(data[j + 1]) then j + 1 else j
    decreases HeaderLimit(data) - i
  {
    if i < HeaderLimit(data) && !EndsHeader(data, i) {
      HeaderScanFacts(data, i + 1);
    }
  }

  /** The header has at most `min(3, rows)` rows, an empty table none. It ends at
      the first row i that is followed by a numeric row (giving i + 1) or that
      looks like data (giving i); without such a row among the first three all of
      them are header. The explicit-header test plays no part. */
  lemma HeaderCountFacts(data: seq<Row>)
    ensures HeaderCount(data) <= HeaderLimit(data) && HeaderLimit(data) <= 3
    ensures |data| == 0 ==> HeaderCount(data) == 0
    ensures (forall j :: 0 <= j < HeaderLimit(data) ==> !EndsHeader(data, j)) ==> HeaderCount(data) == HeaderLimit(data)
    ensures forall j :: 0 <= j < HeaderLimit(data) && EndsHeader(data, j) && (forall l :: 0 <= l < j ==> !EndsHeader(data, l)) ==>
              HeaderCount(data) == if j + 1 < |data| && HasNumericData(data[j + 1]) then j + 1 else j
  {
    HeaderScanFacts(data, 0);
  }

  // ---------------------------------------------------------------- merged header

  /** `max(len(row) for row in header_rows)` (0 for none). */
  function MaxWidth<T>(rows: seq<seq<T>>): (n: nat)
    ensures forall i :: 0 <= i < |rows| ==> |rows[i]| <= n
    ensures rows != [] ==> exists i :: 0 <= i < |rows| && |rows[i]| == n
  {
    if rows == [] then 0
    else
      var m := MaxWidth(rows[..|rows| - 1]);
      assert forall i :: 0 <= i < |rows| - 1 ==> rows[..|rows| - 1][i] == rows[i];
      if |Last(rows)| > m then |Last(rows)| else m
  }

  /** The stripped, non-empty texts of the truthy cells in column c, top to bottom. */
  function ColumnCells(rows: seq<Row>, c: nat): seq<string> {
    if rows == [] then []
    else
      var row := Last(rows);
      ColumnCells(rows[..|rows| - 1], c)
      + (if c < |row| && Truthy(row[c]) && Strip(row[c].value) != "" then [Strip(row[c].value)] else [])
  }

  /** The merged cell: the column's texts joined by spaces, whitespace collapsed, stripped. */
  function MergedCell(cells: seq<string>): string {
    if cells == [] then "" else Strip(CollapseWhitespace(Join(" ", cells)))
  }

  /** `_merge_header_columns`. */
  function MergedHeader(rows: seq<Row>): seq<Cell> {
    if rows == [] then []
    else if |rows| == 1 then rows[0]
    else seq(MaxWidth(rows), c requires 0 <= c => Some(MergedCell(ColumnCells(rows, c))))
  }

  /** `max(len(row) for row in header_rows)`, as a loop. */
  method WidestRow<T>(rows: seq<seq<T>>) returns (width: nat)
    ensures width == MaxWidth(rows)
  {
    width := 0;
    for i := 0 to |rows|
      invariant width == MaxWidth(rows[..i])
    {
      assert rows[..i + 1][..i] == rows[..i];
      if |rows[i]| > width {
        width := |rows[i]|;
      }
    }
    assert rows[..|rows|] == rows;
  }

  /** The inner `for row in header_rows` loop for column c and the merge after it. */
  method MergeColumn(rows: seq<Row>, c: nat) returns (cell: Cell)
    ensures cell == Some(MergedCell(ColumnCells(rows, c)))
  {
    var column: seq<string> := [];
    for i := 0 to |rows|
      invariant column == ColumnCells(rows[..i], c)
    {
      assert rows[..i + 1][..i] == rows[..i];
      var row := rows[i];
      if c < |row| && Truthy(row[c]) {
        var text := Strip(row[c].value);
        if text != "" {
          column := column + [text];
        }
      }
    }
    assert rows[..|rows|] == rows;
    if column != [] {
      cell := Some(Strip(CollapseWhitespace(Join(" ", column))));
    } else {
      cell := Some("");
    }
  }

  /** The `for col_idx` loop of `_merge_header_columns`: one merged cell per
      column below `width`. */
  method MergeColumns(rows: seq<Row>, width: nat) returns (merged: seq<Cell>)
    ensures |merged| == width
    ensures forall k :: 0 <= k < width ==> merged[k] == Some(MergedCell(ColumnCells(rows, k)))
  {
    merged := [];
    for c := 0 to width
      invariant |merged| == c
      invariant forall k :: 0 <= k < c ==> merged[k] == Some(MergedCell(ColumnCells(rows, k)))
    {
      var cell := MergeColumn(rows, c);
      merged := merged + [cell];
    }
  }

  /** `_merge_header_columns`: a single row is kept as it is, several rows are
      merged column by column up to the widest one. */
  method MergeHeaderColumns(rows: seq<Row>) returns (merged: seq<Cell>)
    ensures merged == MergedHeader(rows)
  {
    if |rows| <= 1 {
      return if rows == [] then [] else rows[0];
    }
    var maxCols := WidestRow(rows);
    merged := MergeColumns(rows, maxCols);
  }

  lemma CollapseKeepsFirst(s: string)
    requires s != [] && !IsSpace(s[0])
    ensures CollapseWhitespace(s) != [] && CollapseWhitespace(s)[0] == s[0]
  {
  }

  lemma {:induction false} ColumnCellsStripped(rows: seq<Row>, c: nat)
    ensures forall k :: 0 <= k < |ColumnCells(rows, c)| ==> ColumnCells(rows, c)[k] != [] && IsStripped(ColumnCells(rows, c)[k])
  {
    if rows != [] {
      ColumnCellsStripped(rows[..|rows| - 1], c);
    }
  }

  /** A merged cell is empty exactly when the column has no non-blank cell; it
      is stripped and holds no line break. */
  lemma MergedCellFacts(cells: seq<string>)
    requires forall k :: 0 <= k < |cells| ==> cells[k] != [] && IsStripped(cells[k])
    ensures MergedCell(cells) == "" <==> cells == []
    ensures IsStripped(MergedCell(cells)) && Lacks(MergedCell(cells), '\n')
  {
    if cells != [] {
      var j := Join(" ", cells);
      JoinEnds(" ", cells);
      assert j[0] == cells[0][0];
      CollapseKeepsFirst(j);
      var t := CollapseWhitespace(j);
      assert !IsBlank(t) by { assert !IsSpace(t[0]); }
      CollapseLacks(j);
      LacksSlice(t, LeadCount(t), LeadCount(t) + |Strip(t)|);
    }
  }

  /** Several header rows merge into one present cell per column up to the
      widest row; a cell is empty exactly when no row has a non-blank cell in
      that column. */
  lemma MergedHeaderFacts(rows: seq<Row>)
    requires |rows| >= 2
    ensures |MergedHeader(rows)| == MaxWidth(rows)
    ensures forall c :: 0 <= c < |MergedHeader(rows)| ==>
              (MergedHeader(rows)[c].Some?
               && (MergedHeader(rows)[c].value == "" <==> ColumnCells(rows, c) == [])
               && IsStripped(MergedHeader(rows)[c].value))
  {
    forall c | 0 <= c < MaxWidth(rows)
      ensures MergedCell(ColumnCells(rows, c)) == "" <==> ColumnCells(rows, c) == []
      ensures IsStripped(MergedCell(ColumnCells(rows, c)))
    {
      ColumnCellsStripped(rows, c);
      MergedCellFacts(ColumnCells(rows, c));
    }
  }

  /** A column has a merged text exactly when some row has a truthy, non-blank cell there. */
  lemma {:induction false} ColumnCellsEmpty(rows: seq<Row>, c: nat)
    ensures ColumnCells(rows, c) == [] <==>
      forall i :: 0 <= i < |rows| && c < |rows[i]| && Truthy(rows[i][c]) ==> Strip(rows[i][c].value) == ""
  {
    if rows != [] {
      var init := rows[..|rows| - 1];
      ColumnCellsEmpty(init, c);
      assert forall i :: 0 <= i < |init| ==> init[i] == rows[i];
    }
  }

  // ---------------------------------------------------------------- rendering

  const TableStart := "--- Таблица начало ---"
  const TableEnd := "--- Таблица конец ---"

  /** `['---'] * n`. */
  function Dashes(n: nat): (r: seq<string>)
    ensures |r| == n && forall k :: 0 <= k < n ==> r[k] == "---"
  {
    seq(n, k => "---")
  }

  /** The header line and its separator, when there is a header. */
  function HeaderLines(header: seq<string>): seq<string> {
    if header == [] then [] else [Join(" | ", header), Join(" | ", Dashes(|header|))]
  }

  function TableLines(header: seq<string>, body: seq<string>): seq<string> {
    [TableStart] + HeaderLines(header) + body + [TableEnd, ""]
  }

  lemma JoinFrame(sep: string, a: string, mid: seq<string>, b: string)
    ensures StartsWith(Join(sep, [a] + mid + [b, ""]), a + sep)
    ensures EndsWith(Join(sep, [a] + mid + [b, ""]), sep + b + sep)
  {
    JoinFrameStart(sep, a, mid, b);
    JoinFrameEnd(sep, a, mid, b);
  }

  lemma JoinFrameStart(sep: string, a: string, mid: seq<string>, b: string)
    ensures StartsWith(Join(sep, [a] + mid + [b, ""]), a + sep)
  {
    assert [a] + mid + [b, ""] == [a] + (mid + [b, ""]);
    JoinCons(sep, a, mid + [b, ""]);
    StartsWithConcat(a + sep, Join(sep, mid + [b, ""]));
  }

  lemma JoinFrameEnd(sep: string, a: string, mid: seq<string>, b: string)
    ensures EndsWith(Join(sep, [a] + mid + [b, ""]), sep + b + sep)
  {
    var front := [a] + mid;
    assert [a] + mid + [b, ""] == (front + [b]) + [""];
    JoinSnoc(sep, front + [b], "");
    JoinSnoc(sep, front, b);
    var f := Join(sep, front);
    assert f + sep + b + sep + "" == f + (sep + b + sep);
    EndsWithConcat(f, sep + b + sep);
  }

  /** The text opens with the start marker line and ends with the end marker and
      an empty last line. */
  lemma TableFrame(header: seq<string>, body: seq<string>)
    ensures StartsWith(Join("\n", TableLines(header, body)), TableStart + "\n")
    ensures EndsWith(Join("\n", TableLines(header, body)), "\n" + TableEnd + "\n")
  {
    JoinFrame("\n", TableStart, HeaderLines(header) + body, TableEnd);
    assert TableLines(header, body) == [TableStart] + (HeaderLines(header) + body) + [TableEnd, ""];
  }

  /** A header line is followed by a separator of exactly as many `---` cells. */
  lemma TableHeaderLines(header: seq<string>, body: seq<string>)
    requires header != []
    ensures var lines := TableLines(header, body);
            lines[1] == Join(" | ", header) && lines[2] == Join(" | ", Dashes(|header|))
            && lines[3..|lines| - 2] == body
  {
  }

  // ---------------------------------------------------------------- pdf / xlsx

  const NoneInJoin := "sequence item: expected str instance, NoneType found"

  /** The strings `" | ".join` receives; a `None` among them raises. */
  function JoinableCells(cells: seq<Cell>): (r: Result<seq<string>>)
    ensures r.Success? <==> AllPresent(cells)
    ensures r.Success? ==> |r.value| == |cells| && forall k :: 0 <= k < |cells| ==> r.value[k] == cells[k].value
  {
    if cells == [] then Success([])
    else
      match JoinableCells(cells[..|cells| - 1])
      case Failure(e) =>
        assert !AllPresent(cells) by {
          var k :| 0 <= k < |cells| - 1 && cells[..|cells| - 1][k].None?;
          assert cells[k].None?;
        }
        Failure(e)
      case Success(init) =>
        match Last(cells)
        case None => Failure(NoneInJoin)
        case Some(s) => Success(init + [s])
  }

  /** `None` as the empty string, every other cell as its text. */
  function CellTexts(cells: seq<Cell>): (r: seq<string>)
    ensures |r| == |cells| && forall k :: 0 <= k < |cells| ==> r[k] == GetOr(cells[k], "")
  {
    seq(|cells|, k requires 0 <= k < |cells| => GetOr(cells[k], ""))
  }

  /** `re.sub(r'\s+', ' ', str(cell).strip()) if cell else ""`. */
  function CleanCell(c: Cell): string {
    if Truthy(c) then CollapseWhitespace(Strip(c.value)) else ""
  }

  function DataLine(row: Row): string {
    Join(" | ", seq(|row|, k requires 0 <= k < |row| => CleanCell(row[k])))
  }

  /** The lines of the data rows that have a truthy cell, in order. */
  function DataLines(rows: seq<Row>): seq<string> {
    if rows == [] then []
    else DataLines(rows[..|rows| - 1]) + (if HasTruthy(Last(rows)) then [DataLine(Last(rows))] else [])
  }

  /** `_format_table_universal` of the pdf and xlsx processors. */
  function RenderTable(data: seq<Row>): Result<string> {
    if data == [] then Success("")
    else
      var h := HeaderCount(data);
      var header := if h > 0 then MergedHeader(data[..h]) else [];
      match JoinableCells(header)
      case Failure(e) => Failure(e)
      case Success(names) => Success(Join("\n", TableLines(names, DataLines(data[h..]))))
  }

  /** The loops of `_format_table_universal` (pdf and xlsx). */
  method FormatTableUniversal(data: seq<Row>) returns (r: Result<string>)
    ensures r == RenderTable(data)
  {
    if data == [] {
      return Success("");
    }
    var lines := [TableStart];
    var h := DetectHeaderRows(data);
    var names := HeaderNames(data, h);
    if names.Failure? {
      return Failure(names.error);
    }
    lines := lines + HeaderLines(names.value);
    lines := AppendDataLines(lines, data[h..]);
    lines := lines + [TableEnd, ""];
    assert lines == TableLines(names.value, DataLines(data[h..]));
    r := Success(Join("\n", lines));
  }

  /** The header part: the merged header rows, when there are any, as names. */
  method HeaderNames(data: seq<Row>, h: nat) returns (names: Result<seq<string>>)
    requires h <= |data|
    ensures names == JoinableCells(if h > 0 then MergedHeader(data[..h]) else [])
  {
    names := Success([]);
    if h > 0 {
      var merged := MergeHeaderColumns(data[..h]);
      if merged != [] {
        names := JoinableCells(merged);
      }
    }
  }

  /** The data-row loop: a line for each row with a truthy cell. */
  method AppendDataLines(lines0: seq<string>, rows: seq<Row>) returns (lines: seq<string>)
    ensures lines == lines0 + DataLines(rows)
  {
    lines := lines0;
    for i := 0 to |rows|
      invariant lines == lines0 + DataLines(rows[..i])
    {
      assert rows[..i + 1][..i] == rows[..i];
      var row := rows[i];
      if HasTruthy(row) {
        lines := lines + [DataLine(row)];
      }
    }
    assert rows[..|rows|] == rows;
  }

  /** Data lines hold no line break: every cell was collapsed. */
  lemma DataLineLacks(row: Row)
    ensures Lacks(DataLine(row), '\n')
  {
    var cells := seq(|row|, k requires 0 <= k < |row| => CleanCell(row[k]));
    forall k | 0 <= k < |cells| ensures Lacks(cells[k], '\n') {
      if Truthy(row[k]) { CollapseLacks(Strip(row[k].value)); }
    }
    JoinLacks(" | ", cells);
  }

  /** One data line per data row with a truthy cell, and none for the others. */
  lemma {:induction false} DataLinesCount(rows: seq<Row>)
    ensures |DataLines(rows)| <= |rows|
    ensures (forall i :: 0 <= i < |rows| ==> !HasTruthy(rows[i])) ==> DataLines(rows) == []
    ensures (forall i :: 0 <= i < |rows| ==> HasTruthy(rows[i])) ==> |DataLines(rows)| == |rows|
  {
    if rows != [] {
      var init := rows[..|rows| - 1];
      DataLinesCount(init);
      assert forall i :: 0 <= i < |init| ==> init[i] == rows[i];
      assert Last(rows) == rows[|rows| - 1];
    }
  }

  /** An empty table gives the empty text; any other table is framed by the
      markers (or, in the pdf processor, raises). */
  lemma RenderTableFrame(data: seq<Row>)
    ensures data == [] ==> RenderTable(data) == Success("")
    ensures data != [] && RenderTable(data).Success? ==>
      StartsWith(RenderTable(data).value, TableStart + "\n") && EndsWith(RenderTable(data).value, "\n" + TableEnd + "\n")
  {
    if data != [] && RenderTable(data).Success? {
      var h := HeaderCount(data);
      var header := if h > 0 then MergedHeader(data[..h]) else [];
      TableFrame(JoinableCells(header).value, DataLines(data[h..]));
    }
  }

  /** A merged header is all present when the rows are. */
  lemma MergedHeaderPresent(rows: seq<Row>)
    requires forall i :: 0 <= i < |rows| ==> AllPresent(rows[i])
    ensures AllPresent(MergedHeader(rows))
  {
  }

  /** Tables whose cells are all strings, as the xlsx processor builds them from
      pandas, never fail. */
  lemma RenderTableStrings(data: seq<Row>)
    requires forall i :: 0 <= i < |data| ==> AllPresent(data[i])
    ensures RenderTable(data).Success?
  {
    if data != [] {
      var h := HeaderCount(data);
      HeaderCountFacts(data);
      if h > 0 {
        MergedHeaderPresent(data[..h]);
      }
    }
  }

  /** A one-row header holding `None`, above a numeric row, reaches `" | ".join`
      unconverted and raises. */
  lemma NoneHeaderRaises()
    ensures RenderTable([[None, Some("Имя")], [Some("1"), Some("2")]]).Failure?
  {
    var data: seq<Row> := [[None, Some("Имя")], [Some("1"), Some("2")]];
    DigitsAreNumber("1");
    assert Truthy(data[1][0]) && HasNumber(data[1][0].value);
    assert HasNumericData(data[1]);
    assert HeaderCount(data) == 1;
    assert data[..1] == [data[0]];
    assert MergedHeader(data[..1]) == data[0];
    assert data[0][0].None?;
    assert !AllPresent(data[0]);
  }

  /** The pdf table with `None` header cells written as empty strings, as the
      data rows already are. */
  function RenderTableFixed(data: seq<Row>): string {
    if data == [] then ""
    else
      var h := HeaderCount(data);
      var header := if h > 0 then MergedHeader(data[..h]) else [];
      Join("\n", TableLines(CellTexts(header), DataLines(data[h..])))
  }

  /** The corrected rendering is always framed, and agrees with the original
      wherever that does not raise. */
  lemma RenderTableFixedFacts(data: seq<Row>)
    ensures data == [] ==> RenderTableFixed(data) == ""
    ensures data != [] ==>
      StartsWith(RenderTableFixed(data), TableStart + "\n") && EndsWith(RenderTableFixed(data), "\n" + TableEnd + "\n")
    ensures RenderTable(data).Success? ==> RenderTableFixed(data) == RenderTable(data).value
  {
    if data != [] {
      var h := HeaderCount(data);
      var header := if h > 0 then MergedHeader(data[..h]) else [];
      TableFrame(CellTexts(header), DataLines(data[h..]));
      if JoinableCells(header).Success? {
        assert JoinableCells(header).value == CellTexts(header);
      }
    }
  }
}
