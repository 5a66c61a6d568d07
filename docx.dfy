/** The parts of `DOCXProcessor` that are its own: the table formatter, which
    cleans and filters the rows first and pads the data rows to the widest row,
    and the classification of a paragraph as a Markdown heading by its style or
    by being bold throughout. */
module Docx {
  import opened Text
  import opened Tables
  import HeadingChunker

  // ---------------------------------------------------------------- table rows

  /** `re.sub(r'\s+', ' ', cell.text.strip())`. */
  function DocxCell(text: string): string {
    CollapseWhitespace(Strip(text))
  }

  function CleanRow(row: seq<string>): (r: seq<string>)
    ensures |r| == |row| && forall k :: 0 <= k < |row| ==> r[k] == DocxCell(row[k])
  {
    seq(|row|, k requires 0 <= k < |row| => DocxCell(row[k]))
  }

  /** `row_cells and any(cell_text for cell_text in row_cells)`. */
  predicate HasText(row: seq<string>) {
    exists k | 0 <= k < |row| :: row[k] != ""
  }

  /** The cleaned rows that keep some text, in order. */
  function DocxRows(raw: seq<seq<string>>): seq<seq<string>> {
    if raw == [] then []
    else DocxRows(raw[..|raw| - 1]) + (if HasText(CleanRow(Last(raw))) then [CleanRow(Last(raw))] else [])
  }

  /** A row after `while len(row) < max_columns: row.append("")`. */
  function PadTo(row: seq<string>, n: nat): (r: seq<string>)
    ensures |r| == if |row| < n then n else |row|
    ensures r[..|row|] == row
    ensures forall k :: |row| <= k < |r| ==> r[k] == ""
  {
    if |row| < n then row + seq(n - |row|, k => "") else row
  }

  /** One `" | "`-joined line per data row, padded to n cells. */
  function PaddedLines(rows: seq<seq<string>>, n: nat): (r: seq<string>)
    ensures |r| == |rows| && forall i :: 0 <= i < |rows| ==> r[i] == Join(" | ", PadTo(rows[i], n))
  {
    seq(|rows|, i requires 0 <= i < |rows| => Join(" | ", PadTo(rows[i], n)))
  }

  /** The header names of the cleaned rows: the merged header, when the
      detector finds header rows. */
  function DocxHeader(data: seq<seq<string>>): seq<string> {
    var rows := CellRows(data);
    var h := HeaderCount(rows);
    if h > 0 then CellTexts(MergedHeader(rows[..h])) else []
  }

  /** `DOCXProcessor._format_table_universal` on the cell texts of a table. */
  function DocxTable(raw: seq<seq<string>>): string {
    var data := DocxRows(raw);
    if data == [] then ""
    else
      var h := HeaderCount(CellRows(data));
      Join("\n", TableLines(DocxHeader(data), PaddedLines(data[h..], MaxWidth(data))))
  }

  // ---------------------------------------------------------------- the formatter's loops

  /** The inner `for cell in row.cells` loop. */
  method CleanCells(row: seq<string>) returns (cells: seq<string>)
    ensures cells == CleanRow(row)
  {
    cells := [];
    for k := 0 to |row|
      invariant |cells| == k
      invariant forall j :: 0 <= j < k ==> cells[j] == DocxCell(row[j])
    {
      cells := cells + [DocxCell(row[k])];
    }
  }

  /** The `for row in table.rows` loop: the kept rows and `max_columns`. */
  method CollectRows(raw: seq<seq<string>>) returns (data: seq<seq<string>>, maxColumns: nat)
    ensures data == DocxRows(raw)
    ensures maxColumns == MaxWidth(data)
  {
    data := [];
    maxColumns := 0;
    for i := 0 to |raw|
      invariant data == DocxRows(raw[..i])
      invariant maxColumns == MaxWidth(data)
    {
      assert raw[..i + 1][..i] == raw[..i];
      var cells := CleanCells(raw[i]);
      if cells != [] && HasText(cells) {
        assert (data + [cells])[..|data|] == data;
        data := data + [cells];
        maxColumns := if |cells| > maxColumns then |cells| else maxColumns;
      }
    }
    assert raw[..|raw|] == raw;
  }

  /** The padding `while` loop, on a copy of the row. */
  method PadRow(row: seq<string>, n: nat) returns (padded: seq<string>)
    ensures padded == PadTo(row, n)
  {
    padded := row;
    while |padded| < n
      invariant |row| <= |padded| <= if |row| < n then n else |row|
      invariant padded[..|row|] == row
      invariant forall k :: |row| <= k < |padded| ==> padded[k] == ""
      decreases n - |padded|
    {
      padded := padded + [""];
    }
    var spec := PadTo(row, n);
    assert |padded| == |spec|;
    forall k | 0 <= k < |padded| ensures padded[k] == spec[k] {
      if k < |row| {
        assert padded[k] == padded[..|row|][k] && spec[k] == spec[..|row|][k];
      }
    }
  }

  /** The `for row in data_rows` loop. */
  method PadLines(rows: seq<seq<string>>, n: nat) returns (out: seq<string>)
    ensures out == PaddedLines(rows, n)
  {
    out := [];
    for i := 0 to |rows|
      invariant |out| == i
      invariant forall j :: 0 <= j < i ==> out[j] == Join(" | ", PadTo(rows[j], n))
    {
      var padded := PadRow(rows[i], n);
      out := out + [Join(" | ", padded)];
    }
  }

  /** `DOCXProcessor._format_table_universal`. */
  method FormatDocxTable(raw: seq<seq<string>>) returns (r: string)
    ensures r == DocxTable(raw)
  {
    var lines := [TableStart];
    var data, maxColumns := CollectRows(raw);
    if data == [] {
      return "";
    }
    var rows := CellRows(data);
    var h := DetectHeaderRows(rows);
    var names: seq<string> := [];
    if h > 0 {
      var merged := MergeHeaderColumns(rows[..h]);
      names := CellTexts(merged);
      if names != [] {
        lines := lines + [Join(" | ", names), Join(" | ", Dashes(|names|))];
      }
    }
    assert names == DocxHeader(data);
    assert lines == [TableStart] + HeaderLines(names);
    var body := PadLines(data[h..], maxColumns);
    lines := lines + body + [TableEnd, ""];
    r := Join("\n", lines);
  }

  // ---------------------------------------------------------------- table properties

  /** A cleaned cell is empty exactly when the cell text is blank. */
  lemma DocxCellEmpty(text: string)
    ensures DocxCell(text) == "" <==> IsBlank(text)
  {
    CollapseEmpty(Strip(text));
  }

  /** The kept rows are the cleaned rows with text, in order, and there are
      none exactly when every cell of the table is blank. */
  lemma {:induction false} DocxRowsFacts(raw: seq<seq<string>>)
    ensures |DocxRows(raw)| <= |raw|
    ensures forall i :: 0 <= i < |DocxRows(raw)| ==> HasText(DocxRows(raw)[i])
    ensures DocxRows(raw) == [] <==>
      forall i, k :: 0 <= i < |raw| && 0 <= k < |raw[i]| ==> IsBlank(raw[i][k])
  {
    if raw != [] {
      var init := raw[..|raw| - 1];
      DocxRowsFacts(init);
      assert forall i :: 0 <= i < |init| ==> init[i] == raw[i];
      var row := CleanRow(Last(raw));
      forall k | 0 <= k < |row| ensures row[k] == "" <==> IsBlank(Last(raw)[k]) {
        DocxCellEmpty(Last(raw)[k]);
      }
    }
  }

  /** Cleaned cells hold no line break. */
  lemma DocxRowsLack(raw: seq<seq<string>>)
    ensures forall i, k :: 0 <= i < |DocxRows(raw)| && 0 <= k < |DocxRows(raw)[i]| ==> Lacks(DocxRows(raw)[i][k], '\n')
  {
    if raw != [] {
      DocxRowsLack(raw[..|raw| - 1]);
      forall k | 0 <= k < |Last(raw)| ensures Lacks(CleanRow(Last(raw))[k], '\n') {
        CollapseLacks(Strip(Last(raw)[k]));
      }
    }
  }

  /** A table whose cells are all blank formats to the empty text; any other
      table opens with the start marker line and ends with the end marker and
      an empty last line. */
  lemma DocxTableFrame(raw: seq<seq<string>>)
    ensures (forall i, k :: 0 <= i < |raw| && 0 <= k < |raw[i]| ==> IsBlank(raw[i][k])) ==> DocxTable(raw) == ""
    ensures !(forall i, k :: 0 <= i < |raw| && 0 <= k < |raw[i]| ==> IsBlank(raw[i][k])) ==>
      StartsWith(DocxTable(raw), TableStart + "\n") && EndsWith(DocxTable(raw), "\n" + TableEnd + "\n")
  {
    DocxRowsFacts(raw);
    var data := DocxRows(raw);
    if data != [] {
      var h := HeaderCount(CellRows(data));
      TableFrame(DocxHeader(data), PaddedLines(data[h..], MaxWidth(data)));
    }
  }

  /** Every data line joins exactly `max_columns` cells: the row's own cells,
      then empty ones. */
  lemma DocxRowsPadded(data: seq<seq<string>>, i: nat)
    requires i < |data|
    ensures var p := PadTo(data[i], MaxWidth(data));
            |p| == MaxWidth(data) && p[..|data[i]|] == data[i]
            && forall k :: |data[i]| <= k < |p| ==> p[k] == ""
  {
  }

  /** The header line is followed by a separator with one `---` per header
      cell, and the data lines are the padded data rows. */
  lemma DocxTableLines(raw: seq<seq<string>>)
    requires DocxRows(raw) != [] && DocxHeader(DocxRows(raw)) != []
    ensures var data := DocxRows(raw);
            var lines := TableLines(DocxHeader(data), PaddedLines(data[HeaderCount(CellRows(data))..], MaxWidth(data)));
            DocxTable(raw) == Join("\n", lines)
            && lines[2] == Join(" | ", Dashes(|DocxHeader(data)|))
            && |lines| == |data| - HeaderCount(CellRows(data)) + 5
  {
    var data := DocxRows(raw);
    TableHeaderLines(DocxHeader(data), PaddedLines(data[HeaderCount(CellRows(data))..], MaxWidth(data)));
  }

  // ---------------------------------------------------------------- paragraphs

  /** A run of a paragraph; `bold` is `None` when the run inherits it. */
  datatype TextRun = TextRun(text: string, bold: Option<bool>)

  /** `run.text.strip()` is truthy. */
  predicate HasRunText(run: TextRun) {
    !IsBlank(run.text)
  }

  /** `_is_fully_bold`: some run has text, and every run with text is bold. */
  predicate FullyBold(runs: seq<TextRun>) {
    (forall i | 0 <= i < |runs| :: HasRunText(runs[i]) ==> runs[i].bold == Some(true))
    && (exists i | 0 <= i < |runs| :: HasRunText(runs[i]))
  }

  /** `_is_fully_bold`: the early exit on a run with text that is not bold, then
      the `any`. */
  method IsFullyBold(runs: seq<TextRun>) returns (b: bool)
    ensures b == FullyBold(runs)
  {
    if runs == [] {
      return false;
    }
    for i := 0 to |runs|
      invariant forall j :: 0 <= j < i ==> HasRunText(runs[j]) ==> runs[j].bold == Some(true)
    {
      if HasRunText(runs[i]) && runs[i].bold != Some(true) {
        return false;
      }
    }
    b := false;
    for i := 0 to |runs|
      invariant b <==> exists j :: 0 <= j < i && HasRunText(runs[j])
    {
      if HasRunText(runs[i]) {
        b := true;
      }
    }
  }

  const Level1Styles: seq<string> := ["heading 1", "title", "heading1", "заголовок 1"]
  const Level2Styles: seq<string> := ["heading 2", "heading2", "заголовок 2"]
  const Level3Styles: seq<string> := ["heading 3", "heading3", "заголовок 3"]
  const Level4Styles: seq<string> := ["heading 4", "heading4", "заголовок 4"]

  /** `any(heading in style_name for heading in keys)`. */
  predicate AnyIn(s: string, keys: seq<string>) {
    exists k | 0 <= k < |keys| :: Contains(s, keys[k])
  }

  /** The heading level a style name gives (0: none), the first keyword group
      that occurs in the lower-cased name winning. */
  function StyleLevel(style: Option<string>): (n: nat)
    ensures n <= 4
  {
    if style.None? || style.value == "" then 0
    else
      var s := Lower(style.value);
      if AnyIn(s, Level1Styles) then 1
      else if AnyIn(s, Level2Styles) then 2
      else if AnyIn(s, Level3Styles) then 3
      else if AnyIn(s, Level4Styles) then 4
      else 0
  }

  /** The heading level `_format_paragraph_improved` gives to stripped text t:
      the style's level, or for a fully bold paragraph 2 below 50 characters
      and 3 below 100, or 0 for plain text. */
  function ParagraphLevel(t: string, style: Option<string>, runs: seq<TextRun>): (n: nat)
    ensures n <= 4
  {
    if StyleLevel(style) > 0 then StyleLevel(style)
    else if FullyBold(runs) && |t| < 100 then (if |t| < 50 then 2 else 3)
    else 0
  }

  function Hashes(n: nat): (r: string)
    ensures |r| == n && forall k :: 0 <= k < n ==> r[k] == '#'
  {
    seq(n, k => '#')
  }

  /** `_format_paragraph_improved`. */
  function FormatParagraph(text: string, style: Option<string>, runs: seq<TextRun>): string {
    var t := Strip(text);
    if t == "" then ""
    else
      var level := ParagraphLevel(t, style, runs);
      if level > 0 then Hashes(level) + " " + t else t
  }

  /** `_format_paragraph_improved` with `_is_fully_bold` as the loop above. */
  method FormatParagraphImproved(text: string, style: Option<string>, runs: seq<TextRun>) returns (r: string)
    ensures r == FormatParagraph(text, style, runs)
  {
    var t := Strip(text);
    if t == "" {
      return "";
    }
    var level := StyleLevel(style);
    if level > 0 {
      return Hashes(level) + " " + t;
    }
    var bold := IsFullyBold(runs);
    if bold && |t| < 100 {
      if |t| < 50 {
        return "## " + t;
      }
      return "### " + t;
    }
    return t;
  }

  /** A paragraph formatted as a level-k heading is read back by the heading
      chunker as a level-k heading whose text is the stripped paragraph; plain
      text comes out stripped and unmarked; a blank paragraph gives "". */
  lemma FormatParagraphReadBack(text: string, style: Option<string>, runs: seq<TextRun>)
    ensures var r := FormatParagraph(text, style, runs);
            var n := ParagraphLevel(Strip(text), style, runs);
            (r == "" <==> IsBlank(text))
            && IsStripped(r)
            && (!IsBlank(text) && n == 0 ==> r == Strip(text))
            && (!IsBlank(text) && n > 0 ==>
                  HeadingChunker.HeadingLevel(r) == n && HeadingChunker.HeadingText(r, n) == Strip(text))
  {
    var t := Strip(text);
    var n := ParagraphLevel(t, style, runs);
    if t != "" && n > 0 {
      assert FormatParagraph(text, style, runs) == Hashes(n) + " " + t;
      MarkedParagraph(n, t);
    }
  }

  /** `"#" * n + " " + t` for a stripped non-empty t: stripped, and read back as level n with text t. */
  lemma MarkedParagraph(n: nat, t: string)
    requires 1 <= n <= 4 && t != "" && IsStripped(t)
    ensures var r := Hashes(n) + " " + t;
            IsStripped(r) && HeadingChunker.HeadingLevel(r) == n && HeadingChunker.HeadingText(r, n) == t
  {
    var r := Hashes(n) + " " + t;
    assert r[n + 1..] == t;
    assert r[0] == '#' && r[|r| - 1] == t[|t| - 1];
    StripOfStripped(t);
    HeadingLevelOfMarked(n, t);
  }

  /** The heading chunker's level of `"#" * n + " " + t` is n. */
  lemma HeadingLevelOfMarked(n: nat, t: string)
    requires 1 <= n <= 4 && t != []
    ensures HeadingChunker.HeadingLevel(Hashes(n) + " " + t) == n
  {
    var r := Hashes(n) + " " + t;
    assert r[n] == ' ';
    assert forall k :: 0 <= k < n ==> r[k] == '#';
    var p1, p2, p3, p4 := "# ", "## ", "### ", "#### ";
    assert StartsWith(r, Hashes(n) + " ") by { assert r[..n + 1] == Hashes(n) + " "; }
    if n >= 2 { assert r[..2] != p1 by { assert r[1] == '#'; } }
    if n >= 3 { assert r[..3] != p2 by { assert r[2] == '#'; } }
    if n >= 4 { assert r[..4] != p3 by { assert r[3] == '#'; } }
    if n == 1 { assert Hashes(1) + " " == p1; }
    if n == 2 { assert Hashes(2) + " " == p2; }
    if n == 3 { assert Hashes(3) + " " == p3; }
    if n == 4 { assert Hashes(4) + " " == p4; }
  }

  /** A heading style decides the level whatever the runs; without one, a
      fully bold paragraph under 50 characters is a level-2 heading, under 100
      a level-3 one, and longer ones stay plain, as does text that is not
      fully bold. */
  lemma ParagraphLevelFacts(t: string, style: Option<string>, runs: seq<TextRun>)
    ensures StyleLevel(style) > 0 ==> ParagraphLevel(t, style, runs) == StyleLevel(style)
    ensures StyleLevel(style) == 0 ==>
      (ParagraphLevel(t, style, runs) == 2 <==> FullyBold(runs) && |t| < 50)
      && (ParagraphLevel(t, style, runs) == 3 <==> FullyBold(runs) && 50 <= |t| < 100)
      && (ParagraphLevel(t, style, runs) == 0 <==> !FullyBold(runs) || |t| >= 100)
  {
  }

  /** A paragraph without runs is never fully bold, and neither is one whose
      runs are all blank. */
  lemma FullyBoldNeedsText(runs: seq<TextRun>)
    ensures (forall i :: 0 <= i < |runs| ==> !HasRunText(runs[i])) ==> !FullyBold(runs)
    ensures runs == [] ==> !FullyBold(runs)
  {
  }

  /** The built-in "Subtitle" style contains "title", so a subtitle becomes a
      level-1 heading like the title itself. */
  lemma SubtitleIsLevel1()
    ensures StyleLevel(Some("Subtitle")) == 1
  {
    var s := Lower("Subtitle");
    assert s[3..8] == "title";
    assert IsAt(s, 3, Level1Styles[1]);
  }
}
