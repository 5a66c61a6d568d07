/** The text-layer drawing analyser: text blocks with real (floating-point)
    bounding boxes are grouped into columns and rows by their centres,
    adjacent rows are checked for table structure, the title block is looked
    up by position with a keyword fallback, blocks are counted and classified
    by section keywords, and the fields of the title block are extracted from
    regular-expression matches. The regular-expression engine is a parameter. */
module Drawing {
  import opened Text
  import opened Sorting
  import Analyzer

  /** `TextBlock`: its text, its bbox `(x0, y0, x1, y1)` and its page. */
  datatype TextBlock = TextBlock(text: string, x0: real, y0: real, x1: real, y1: real, page: int)

  function CentreX(b: TextBlock): real { (b.x0 + b.x1) / 2.0 }

  function CentreY(b: TextBlock): real { (b.y0 + b.y1) / 2.0 }

  function AbsR(x: real): (r: real)
    ensures r >= 0.0 && (r == x || r == -x)
  {
    if x < 0.0 then -x else x
  }

  predicate ByCentreX(a: TextBlock, b: TextBlock) { CentreX(a) <= CentreX(b) }

  predicate ByCentreY(a: TextBlock, b: TextBlock) { CentreY(a) <= CentreY(b) }

  lemma CentreOrders()
    ensures TotalPreorder(ByCentreX) && TotalPreorder(ByCentreY)
  {
  }

  /** The default thresholds of `_group_into_columns`, `_group_into_rows` and
      the alignment test of `_find_tables`. */
  const ColumnThreshold: real := 20.0
  const RowThreshold: real := 10.0
  const AlignTolerance: real := 50.0

  // ---------------------------------------------------------------- columns

  /** A block joins the column when its centre is less than the threshold
      away, horizontally, from the previous block's. */
  function ColumnNear(threshold: real): (TextBlock, TextBlock) -> bool {
    (prev: TextBlock, curr: TextBlock) => AbsR(CentreX(curr) - CentreX(prev)) < threshold
  }

  function Columns(blocks: seq<TextBlock>, threshold: real): seq<seq<TextBlock>> {
    Runs(SortBy(blocks, ByCentreX), ColumnNear(threshold))
  }

  /** The columns, concatenated, are the blocks sorted by centre x. */
  lemma ColumnsCover(blocks: seq<TextBlock>, threshold: real)
    ensures Flatten(Columns(blocks, threshold)) == SortBy(blocks, ByCentreX)
    ensures multiset(Flatten(Columns(blocks, threshold))) == multiset(blocks)
    ensures SortedBy(Flatten(Columns(blocks, threshold)), ByCentreX)
  {
    RunsFlatten(SortBy(blocks, ByCentreX), ColumnNear(threshold));
    CentreOrders();
    SortBySorted(blocks, ByCentreX);
  }

  /** Within a column each block's centre is closer than the threshold to
      the previous one's (`ColumnNear`), and a column starts exactly where
      that fails. */
  lemma ColumnsSeparated(blocks: seq<TextBlock>, threshold: real)
    ensures Cohesive(Columns(blocks, threshold), ColumnNear(threshold))
    ensures Separated(Columns(blocks, threshold), ColumnNear(threshold))
  {
    RunsCohesiveSeparated(SortBy(blocks, ByCentreX), ColumnNear(threshold));
  }

  /** The state of `_group_into_columns` after the first i sorted blocks. */
  ghost predicate ColumnsUpTo(sorted: seq<TextBlock>, threshold: real, i: nat, columns: seq<seq<TextBlock>>,
                              current: seq<TextBlock>, groups: seq<seq<TextBlock>>)
  {
    1 <= i <= |sorted| && groups == Runs(sorted[..i], ColumnNear(threshold))
    && current == Last(groups) && columns == groups[..|groups| - 1]
  }

  /** One round of the loop of `_group_into_columns`. */
  method ColumnStep(sorted: seq<TextBlock>, threshold: real, i: nat, columns: seq<seq<TextBlock>>,
                    current: seq<TextBlock>, ghost groups: seq<seq<TextBlock>>)
    returns (columns': seq<seq<TextBlock>>, current': seq<TextBlock>, ghost groups': seq<seq<TextBlock>>)
    requires i < |sorted| && ColumnsUpTo(sorted, threshold, i, columns, current, groups)
    ensures ColumnsUpTo(sorted, threshold, i + 1, columns', current', groups')
  {
    ghost var near := ColumnNear(threshold);
    var block := sorted[i];
    var last := current[|current| - 1];
    assert last == sorted[i - 1];
    assert near(sorted[i - 1], sorted[i]) <==> AbsR(CentreX(block) - CentreX(last)) < threshold;
    if AbsR(CentreX(block) - CentreX(last)) < threshold {
      RunsJoin(sorted, i, near);
      columns', current' := columns, current + [block];
      groups' := groups[..|groups| - 1] + [current'];
      assert groups'[..|groups'| - 1] == groups[..|groups| - 1];
    } else {
      RunsBreak(sorted, i, near);
      columns', current' := columns + [current], [block];
      groups' := groups + [current'];
      assert groups'[..|groups'| - 1] == groups;
    }
  }

  /** `_group_into_columns`. */
  method GroupIntoColumns(blocks: seq<TextBlock>, threshold: real) returns (columns: seq<seq<TextBlock>>)
    ensures columns == Columns(blocks, threshold)
  {
    if blocks == [] {
      return [];
    }
    var sorted := SortBy(blocks, ByCentreX);
    columns := [];
    var current := [sorted[0]];
    ghost var groups := [current];
    var i := 1;
    assert sorted[..1] == [sorted[0]];
    while i < |sorted|
      invariant ColumnsUpTo(sorted, threshold, i, columns, current, groups)
    {
      columns, current, groups := ColumnStep(sorted, threshold, i, columns, current, groups);
      i := i + 1;
    }
    assert sorted[..i] == sorted;
    assert groups == Columns(blocks, threshold);
    columns := columns + [current];
  }

  // ---------------------------------------------------------------- rows

  /** A block joins the row when its centre is less than the threshold away,
      vertically, from the previous block's. */
  function RowNear(threshold: real): (TextBlock, TextBlock) -> bool {
    (prev: TextBlock, curr: TextBlock) => AbsR(CentreY(curr) - CentreY(prev)) < threshold
  }

  function RowGroups(blocks: seq<TextBlock>, threshold: real): seq<seq<TextBlock>> {
    Runs(SortBy(blocks, ByCentreY), RowNear(threshold))
  }

  /** Each group reordered by centre x. */
  function ByCentreXEach(gs: seq<seq<TextBlock>>): (r: seq<seq<TextBlock>>)
    ensures |r| == |gs|
  {
    if gs == [] then [] else ByCentreXEach(gs[..|gs| - 1]) + [SortBy(Last(gs), ByCentreX)]
  }

  lemma {:induction false} ByCentreXEachAt(gs: seq<seq<TextBlock>>)
    ensures forall k :: 0 <= k < |gs| ==> ByCentreXEach(gs)[k] == SortBy(gs[k], ByCentreX)
  {
    if gs != [] {
      var init := gs[..|gs| - 1];
      ByCentreXEachAt(init);
      assert forall k :: 0 <= k < |init| ==> init[k] == gs[k];
    }
  }

  /** The rows of `_group_into_rows`: each group sorted by centre x. */
  function Rows(blocks: seq<TextBlock>, threshold: real): (rows: seq<seq<TextBlock>>)
    ensures |rows| == |RowGroups(blocks, threshold)|
  {
    ByCentreXEach(RowGroups(blocks, threshold))
  }

  /** The row groups, concatenated, are the blocks sorted by centre y; each row
      is its group reordered by centre x; and a row starts exactly where the
      vertical distance between centres reaches the threshold. */
  lemma RowsFacts(blocks: seq<TextBlock>, threshold: real)
    ensures Flatten(RowGroups(blocks, threshold)) == SortBy(blocks, ByCentreY)
    ensures forall k :: 0 <= k < |Rows(blocks, threshold)| ==>
      Rows(blocks, threshold)[k] != []
      && multiset(Rows(blocks, threshold)[k]) == multiset(RowGroups(blocks, threshold)[k])
      && SortedBy(Rows(blocks, threshold)[k], ByCentreX)
    ensures forall k :: 0 < k < |RowGroups(blocks, threshold)| ==>
      AbsR(CentreY(RowGroups(blocks, threshold)[k][0]) - CentreY(Last(RowGroups(blocks, threshold)[k - 1]))) >= threshold
  {
    var s := SortBy(blocks, ByCentreY);
    var near := RowNear(threshold);
    RunsFlatten(s, near);
    RunsCohesiveSeparated(s, near);
    CentreOrders();
    var gs := RowGroups(blocks, threshold);
    var rows := Rows(blocks, threshold);
    ByCentreXEachAt(gs);
    forall k | 0 <= k < |rows|
      ensures rows[k] != [] && multiset(rows[k]) == multiset(gs[k]) && SortedBy(rows[k], ByCentreX)
    {
      SortBySorted(gs[k], ByCentreX);
      assert rows[k] == SortBy(gs[k], ByCentreX);
      assert gs[k] != [];
    }
  }

  /** The state of `_group_into_rows` after the first i sorted blocks. */
  ghost predicate RowsUpTo(sorted: seq<TextBlock>, threshold: real, i: nat, rows: seq<seq<TextBlock>>,
                           current: seq<TextBlock>, groups: seq<seq<TextBlock>>)
  {
    1 <= i <= |sorted| && groups == Runs(sorted[..i], RowNear(threshold))
    && current == Last(groups) && rows == ByCentreXEach(groups[..|groups| - 1])
  }

  /** One round of the loop of `_group_into_rows`. */
  method RowStep(sorted: seq<TextBlock>, threshold: real, i: nat, rows: seq<seq<TextBlock>>,
                 current: seq<TextBlock>, ghost groups: seq<seq<TextBlock>>)
    returns (rows': seq<seq<TextBlock>>, current': seq<TextBlock>, ghost groups': seq<seq<TextBlock>>)
    requires i < |sorted| && RowsUpTo(sorted, threshold, i, rows, current, groups)
    ensures RowsUpTo(sorted, threshold, i + 1, rows', current', groups')
  {
    ghost var near := RowNear(threshold);
    var block := sorted[i];
    var last := current[|current| - 1];
    assert last == sorted[i - 1];
    assert near(sorted[i - 1], sorted[i]) <==> AbsR(CentreY(block) - CentreY(last)) < threshold;
    if AbsR(CentreY(block) - CentreY(last)) < threshold {
      RunsJoin(sorted, i, near);
      rows', current' := rows, current + [block];
      groups' := groups[..|groups| - 1] + [current'];
      assert groups'[..|groups'| - 1] == groups[..|groups| - 1];
    } else {
      RunsBreak(sorted, i, near);
      rows', current' := rows + [SortBy(current, ByCentreX)], [block];
      groups' := groups + [current'];
      assert groups'[..|groups'| - 1] == groups;
    }
  }

  /** `_group_into_rows`. */
  method GroupIntoRows(blocks: seq<TextBlock>, threshold: real) returns (rows: seq<seq<TextBlock>>)
    ensures rows == Rows(blocks, threshold)
  {
    if blocks == [] {
      return [];
    }
    var sorted := SortBy(blocks, ByCentreY);
    rows := [];
    var current := [sorted[0]];
    ghost var groups := [current];
    var i := 1;
    assert sorted[..1] == [sorted[0]];
    while i < |sorted|
      invariant RowsUpTo(sorted, threshold, i, rows, current, groups)
    {
      rows, current, groups := RowStep(sorted, threshold, i, rows, current, groups);
      i := i + 1;
    }
    assert sorted[..i] == sorted;
    assert groups == RowGroups(blocks, threshold);
    rows := rows + [SortBy(current, ByCentreX)];
    assert rows == ByCentreXEach(groups);
  }

  // ---------------------------------------------------------------- pages

  function PageNumbers(blocks: seq<TextBlock>): (r: seq<int>)
    ensures |r| == |blocks| && forall k :: 0 <= k < |blocks| ==> r[k] == blocks[k].page
  {
    if blocks == [] then [] else PageNumbers(blocks[..|blocks| - 1]) + [Last(blocks).page]
  }

  /** The pages in order of first appearance: the key order of the
      `defaultdict(list)` the analyser fills. */
  function Pages(blocks: seq<TextBlock>): seq<int> {
    Dedup(PageNumbers(blocks))
  }

  /** The blocks of one page, in input order. */
  function OnPage(blocks: seq<TextBlock>, p: int): seq<TextBlock> {
    if blocks == [] then []
    else OnPage(blocks[..|blocks| - 1], p) + (if Last(blocks).page == p then [Last(blocks)] else [])
  }

  lemma {:induction false} OnPageMembers(blocks: seq<TextBlock>, p: int)
    ensures forall b :: b in OnPage(blocks, p) <==> b in blocks && b.page == p
  {
    if blocks != [] {
      var init := blocks[..|blocks| - 1];
      OnPageMembers(init, p);
      assert blocks == init + [Last(blocks)];
    }
  }

  lemma PagesSnoc(blocks: seq<TextBlock>, i: nat)
    requires i < |blocks|
    ensures Pages(blocks[..i + 1]) ==
      if blocks[i].page in Pages(blocks[..i]) then Pages(blocks[..i]) else Pages(blocks[..i]) + [blocks[i].page]
  {
    var ns := PageNumbers(blocks[..i + 1]);
    assert blocks[..i + 1][..i] == blocks[..i];
    assert ns[..|ns| - 1] == PageNumbers(blocks[..i]);
  }

  lemma OnPageSnoc(blocks: seq<TextBlock>, i: nat, p: int)
    requires i < |blocks|
    ensures OnPage(blocks[..i + 1], p) == OnPage(blocks[..i], p) + (if blocks[i].page == p then [blocks[i]] else [])
  {
    assert blocks[..i + 1][..i] == blocks[..i];
  }

  lemma OnPageAbsent(blocks: seq<TextBlock>, p: int)
    requires p !in Pages(blocks)
    ensures OnPage(blocks, p) == []
  {
    NoPageNumber(blocks, p);
  }

  lemma {:induction false} NoPageNumber(blocks: seq<TextBlock>, p: int)
    requires p !in PageNumbers(blocks)
    ensures OnPage(blocks, p) == []
  {
    if blocks != [] {
      NoPageNumber(blocks[..|blocks| - 1], p);
    }
  }

  /** The grouping loop's state after the first i blocks. */
  ghost predicate ByPageUpTo(blocks: seq<TextBlock>, i: nat, pages: seq<int>, byPage: map<int, seq<TextBlock>>) {
    i <= |blocks| && pages == Pages(blocks[..i]) && (forall p :: p in byPage <==> p in pages)
    && forall p :: p in byPage ==> byPage[p] == OnPage(blocks[..i], p)
  }

  /** One round of `blocks_by_page[block.page].append(block)`. */
  method FileBlock(blocks: seq<TextBlock>, i: nat, pages: seq<int>, byPage: map<int, seq<TextBlock>>)
    returns (pages': seq<int>, byPage': map<int, seq<TextBlock>>)
    requires i < |blocks| && ByPageUpTo(blocks, i, pages, byPage)
    ensures ByPageUpTo(blocks, i + 1, pages', byPage')
  {
    var b := blocks[i];
    if b.page in byPage {
      pages', byPage' := pages, byPage[b.page := byPage[b.page] + [b]];
      FiledOnKnownPage(blocks, i, pages, byPage);
    } else {
      pages', byPage' := pages + [b.page], byPage[b.page := [b]];
      FiledOnNewPage(blocks, i, pages, byPage);
    }
  }

  lemma FiledOnKnownPage(blocks: seq<TextBlock>, i: nat, pages: seq<int>, byPage: map<int, seq<TextBlock>>)
    requires i < |blocks| && ByPageUpTo(blocks, i, pages, byPage) && blocks[i].page in byPage
    ensures ByPageUpTo(blocks, i + 1, pages, byPage[blocks[i].page := byPage[blocks[i].page] + [blocks[i]]])
  {
    PagesSnoc(blocks, i);
    var m := byPage[blocks[i].page := byPage[blocks[i].page] + [blocks[i]]];
    forall p | p in m ensures m[p] == OnPage(blocks[..i + 1], p) {
      OnPageSnoc(blocks, i, p);
    }
  }

  lemma FiledOnNewPage(blocks: seq<TextBlock>, i: nat, pages: seq<int>, byPage: map<int, seq<TextBlock>>)
    requires i < |blocks| && ByPageUpTo(blocks, i, pages, byPage) && blocks[i].page !in byPage
    ensures ByPageUpTo(blocks, i + 1, pages + [blocks[i].page], byPage[blocks[i].page := [blocks[i]]])
  {
    PagesSnoc(blocks, i);
    OnPageAbsent(blocks[..i], blocks[i].page);
    var m := byPage[blocks[i].page := [blocks[i]]];
    forall p | p in m ensures m[p] == OnPage(blocks[..i + 1], p) {
      OnPageSnoc(blocks, i, p);
    }
  }

  /** The `defaultdict(list)` of blocks by page. */
  method BlocksByPage(blocks: seq<TextBlock>) returns (pages: seq<int>, byPage: map<int, seq<TextBlock>>)
    ensures pages == Pages(blocks)
    ensures forall p :: p in byPage <==> p in pages
    ensures forall p :: p in byPage ==> byPage[p] == OnPage(blocks, p)
  {
    pages, byPage := [], map[];
    var i := 0;
    assert blocks[..0] == [];
    while i < |blocks|
      invariant ByPageUpTo(blocks, i, pages, byPage)
    {
      pages, byPage := FileBlock(blocks, i, pages, byPage);
      i := i + 1;
    }
    assert blocks[..i] == blocks;
  }

  // ---------------------------------------------------------------- tables

  /** The dictionary `_find_tables` reports for two adjacent rows. */
  datatype TableData = TableData(page: int, startRow: nat, endRow: nat, columns: nat, content: seq<seq<string>>)

  function Texts(bs: seq<TextBlock>): (r: seq<string>)
    ensures |r| == |bs| && forall k :: 0 <= k < |bs| ==> r[k] == bs[k].text
  {
    if bs == [] then [] else Texts(bs[..|bs| - 1]) + [Last(bs).text]
  }

  /** The first min(len) columns of two rows have centres within the tolerance. */
  predicate Aligned(cur: seq<TextBlock>, next: seq<TextBlock>) {
    forall j :: 0 <= j < |cur| && j < |next| ==> AbsR(CentreX(cur[j]) - CentreX(next[j])) <= AlignTolerance
  }

  /** Two adjacent rows form a table: both have more than one block, their
      lengths differ by at most one, and they are aligned. */
  predicate TablePair(cur: seq<TextBlock>, next: seq<TextBlock>) {
    |cur| > 1 && |next| > 1 && -1 <= |cur| - |next| <= 1 && Aligned(cur, next)
  }

  function PairTable(rows: seq<seq<TextBlock>>, page: int, i: nat): TableData
    requires i + 1 < |rows|
  {
    TableData(page, i, i + 1, |rows[i]|, [Texts(rows[i]), Texts(rows[i + 1])])
  }

  /** The tables of one page found among the row pairs starting before n. */
  function PairsBefore(rows: seq<seq<TextBlock>>, page: int, n: nat): seq<TableData>
    requires n == 0 || n < |rows|
  {
    if n == 0 then []
    else PairsBefore(rows, page, n - 1) + if TablePair(rows[n - 1], rows[n]) then [PairTable(rows, page, n - 1)] else []
  }

  /** The tables of one page: `range(len(rows) - 1)` is empty for no rows. */
  function PageTables(rows: seq<seq<TextBlock>>, page: int): seq<TableData> {
    PairsBefore(rows, page, if |rows| == 0 then 0 else |rows| - 1)
  }

  function StartRows(ts: seq<TableData>): set<int> {
    set k | 0 <= k < |ts| :: ts[k].startRow as int
  }

  lemma StartRowsAppend(a: seq<TableData>, b: seq<TableData>)
    ensures StartRows(a + b) == StartRows(a) + StartRows(b)
  {
    var ab := a + b;
    forall x | x in StartRows(ab) ensures x in StartRows(a) + StartRows(b) {
      var k :| 0 <= k < |ab| && ab[k].startRow == x;
      if k < |a| { assert ab[k] == a[k]; } else { assert ab[k] == b[k - |a|]; }
    }
    forall x | x in StartRows(a) + StartRows(b) ensures x in StartRows(ab) {
      if x in StartRows(a) {
        var k :| 0 <= k < |a| && a[k].startRow == x;
        assert ab[k] == a[k];
      } else {
        var k :| 0 <= k < |b| && b[k].startRow == x;
        assert ab[k + |a|] == b[k];
      }
    }
  }

  /** Rows i and i + 1 exist and form a table. */
  predicate PairAt(rows: seq<seq<TextBlock>>, i: nat) {
    i + 1 < |rows| && TablePair(rows[i], rows[i + 1])
  }

  /** Every reported table is the pair of rows it names, on the page being scanned. */
  lemma {:induction false} PairsSound(rows: seq<seq<TextBlock>>, page: int, n: nat)
    requires n == 0 || n < |rows|
    ensures forall k :: 0 <= k < |PairsBefore(rows, page, n)| ==>
      PairsBefore(rows, page, n)[k].startRow < n
      && TablePair(rows[PairsBefore(rows, page, n)[k].startRow], rows[PairsBefore(rows, page, n)[k].startRow + 1])
      && PairsBefore(rows, page, n)[k] == PairTable(rows, page, PairsBefore(rows, page, n)[k].startRow)
  {
    if n > 0 {
      PairsSound(rows, page, n - 1);
    }
  }

  /** The reported pairs are in increasing row order. */
  lemma {:induction false} PairsOrdered(rows: seq<seq<TextBlock>>, page: int, n: nat)
    requires n == 0 || n < |rows|
    ensures forall k, l :: 0 <= k < l < |PairsBefore(rows, page, n)| ==>
      PairsBefore(rows, page, n)[k].startRow < PairsBefore(rows, page, n)[l].startRow
  {
    if n > 0 {
      PairsOrdered(rows, page, n - 1);
      PairsSound(rows, page, n - 1);
    }
  }

  /** Exactly the qualifying pairs are reported. */
  lemma {:induction false} PairsComplete(rows: seq<seq<TextBlock>>, page: int, n: nat)
    requires n == 0 || n < |rows|
    ensures StartRows(PairsBefore(rows, page, n)) == set i: nat | i < n && PairAt(rows, i)
  {
    if n > 0 {
      PairsComplete(rows, page, n - 1);
      var ts := PairsBefore(rows, page, n - 1);
      var extra := if TablePair(rows[n - 1], rows[n]) then [PairTable(rows, page, n - 1)] else [];
      assert PairsBefore(rows, page, n) == ts + extra;
      StartRowsAppend(ts, extra);
      assert StartRows(extra) == if PairAt(rows, n - 1) then {n - 1} else {};
      assert (set i: nat | i < n && PairAt(rows, i)) == (set i: nat | i < n - 1 && PairAt(rows, i))
        + (if PairAt(rows, n - 1) then {n - 1} else {});
    }
  }

  /** For two rows or more, the tables of a page are exactly its adjacent row
      pairs that qualify, in order; fewer rows give none. */
  lemma PageTablesFacts(rows: seq<seq<TextBlock>>, page: int)
    ensures |rows| < 2 ==> PageTables(rows, page) == []
    ensures StartRows(PageTables(rows, page)) == set i: nat | i + 1 < |rows| && PairAt(rows, i)
    ensures forall k :: 0 <= k < |PageTables(rows, page)| ==>
      PageTables(rows, page)[k].page == page && PairAt(rows, PageTables(rows, page)[k].startRow)
    ensures forall k, l :: 0 <= k < l < |PageTables(rows, page)| ==>
      PageTables(rows, page)[k].startRow < PageTables(rows, page)[l].startRow
  {
    var n := if |rows| == 0 then 0 else |rows| - 1;
    PairsSound(rows, page, n);
    PairsOrdered(rows, page, n);
    PairsComplete(rows, page, n);
    assert (set i: nat | i < n && PairAt(rows, i)) == set i: nat | i + 1 < |rows| && PairAt(rows, i);
  }

  /** `_find_tables` as a function: each page's rows, in page order. */
  function TablesOver(blocks: seq<TextBlock>, pages: seq<int>): seq<TableData> {
    if pages == [] then []
    else TablesOver(blocks, pages[..|pages| - 1]) + PageTables(Rows(OnPage(blocks, Last(pages)), RowThreshold), Last(pages))
  }

  function Tables(blocks: seq<TextBlock>): seq<TableData> {
    TablesOver(blocks, Pages(blocks))
  }

  /** t is a qualifying pair of the rows of its own page. */
  predicate PageTable(blocks: seq<TextBlock>, t: TableData) {
    PairAt(Rows(OnPage(blocks, t.page), RowThreshold), t.startRow)
  }

  /** Every table belongs to one of the pages scanned and is a qualifying
      pair of that page's rows. */
  lemma {:induction false} TablesOverSound(blocks: seq<TextBlock>, pages: seq<int>)
    ensures forall t :: t in TablesOver(blocks, pages) ==> t.page in pages && PageTable(blocks, t)
  {
    if pages != [] {
      var init := pages[..|pages| - 1];
      TablesOverSound(blocks, init);
      var p := Last(pages);
      OnePageSound(blocks, p);
      assert TablesOver(blocks, pages) == TablesOver(blocks, init) + PageTables(Rows(OnPage(blocks, p), RowThreshold), p);
    }
  }

  lemma OnePageSound(blocks: seq<TextBlock>, p: int)
    ensures forall t :: t in PageTables(Rows(OnPage(blocks, p), RowThreshold), p) ==> t.page == p && PageTable(blocks, t)
  {
    var rows := Rows(OnPage(blocks, p), RowThreshold);
    var ts := PageTables(rows, p);
    PageTablesFacts(rows, p);
    forall t | t in ts ensures t.page == p && PageTable(blocks, t) {
      var k :| 0 <= k < |ts| && ts[k] == t;
      assert ts[k].page == p && PairAt(rows, ts[k].startRow);
    }
  }

  /** The alignment loop of `_find_tables`, with its early `break`. */
  method AlignedRows(cur: seq<TextBlock>, next: seq<TextBlock>) returns (aligned: bool)
    ensures aligned == Aligned(cur, next)
  {
    aligned := true;
    var j := 0;
    while j < |cur| && j < |next|
      invariant 0 <= j && (j <= |cur| || j <= |next|)
      invariant forall m :: 0 <= m < j && m < |cur| && m < |next| ==> AbsR(CentreX(cur[m]) - CentreX(next[m])) <= AlignTolerance
    {
      if AbsR(CentreX(cur[j]) - CentreX(next[j])) > AlignTolerance {
        aligned := false;
        break;
      }
      j := j + 1;
    }
  }

  /** The loop over adjacent rows of one page. */
  method PageTableScan(rows: seq<seq<TextBlock>>, page: int) returns (tables: seq<TableData>)
    ensures tables == PageTables(rows, page)
  {
    tables := [];
    var i := 0;
    while i < |rows| - 1
      invariant 0 <= i && (i == 0 || i < |rows|) && tables == PairsBefore(rows, page, i)
    {
      tables := PairStep(rows, page, i, tables);
      i := i + 1;
    }
  }

  /** One turn of the scan: the pair of rows i and i+1. */
  method PairStep(rows: seq<seq<TextBlock>>, page: int, i: nat, tables0: seq<TableData>) returns (tables: seq<TableData>)
    requires i + 1 < |rows| && tables0 == PairsBefore(rows, page, i)
    ensures tables == PairsBefore(rows, page, i + 1)
  {
    tables := tables0;
    var cur, next := rows[i], rows[i + 1];
    if |cur| > 1 && |next| > 1 && -1 <= |cur| - |next| <= 1 {
      var aligned := AlignedRows(cur, next);
      if aligned {
        tables := tables + [TableData(page, i, i + 1, |cur|, [Texts(cur), Texts(next)])];
      }
    }
  }

  /** The tables of one page: its rows, then the scan over adjacent rows. */
  method PageTablesOf(pb: seq<TextBlock>, page: int) returns (found: seq<TableData>)
    ensures found == PageTables(Rows(pb, RowThreshold), page)
  {
    var rows := GroupIntoRows(pb, RowThreshold);
    found := PageTableScan(rows, page);
  }

  /** `_find_tables`. */
  method FindTables(blocks: seq<TextBlock>) returns (tables: seq<TableData>)
    ensures tables == Tables(blocks)
  {
    var pages, byPage := BlocksByPage(blocks);
    tables := [];
    var i := 0;
    while i < |pages|
      invariant 0 <= i <= |pages| && tables == TablesOver(blocks, pages[..i])
    {
      assert pages[..i + 1][..i] == pages[..i] && Last(pages[..i + 1]) == pages[i];
      assert pages[i] in pages;
      var found := PageTablesOf(byPage[pages[i]], pages[i]);
      tables := tables + found;
      i := i + 1;
    }
    assert pages[..i] == pages;
  }

  // ---------------------------------------------------------------- title block

  /** The right and bottom edges of a page: the largest x1 and y1 of its blocks. */
  function MaxX1(bs: seq<TextBlock>): (r: real)
    requires bs != []
    ensures forall k :: 0 <= k < |bs| ==> bs[k].x1 <= r
    ensures exists k :: 0 <= k < |bs| && bs[k].x1 == r
  {
    if |bs| == 1 then bs[0].x1
    else
      var m := MaxX1(bs[..|bs| - 1]);
      assert forall k :: 0 <= k < |bs| - 1 ==> bs[..|bs| - 1][k] == bs[k];
      if Last(bs).x1 > m then Last(bs).x1 else m
  }

  function MaxY1(bs: seq<TextBlock>): (r: real)
    requires bs != []
    ensures forall k :: 0 <= k < |bs| ==> bs[k].y1 <= r
    ensures exists k :: 0 <= k < |bs| && bs[k].y1 == r
  {
    if |bs| == 1 then bs[0].y1
    else
      var m := MaxY1(bs[..|bs| - 1]);
      assert forall k :: 0 <= k < |bs| - 1 ==> bs[..|bs| - 1][k] == bs[k];
      if Last(bs).y1 > m then Last(bs).y1 else m
  }

  /** The title-block area: the right 40% and bottom 30% of the page. */
  predicate InTitleArea(b: TextBlock, pageWidth: real, pageHeight: real) {
    b.x0 >= pageWidth * 0.6 && b.y0 >= pageHeight * 0.7 && b.x1 <= pageWidth && b.y1 <= pageHeight
  }

  /** The blocks inside the title-block area, in order. */
  function InArea(bs: seq<TextBlock>, pageWidth: real, pageHeight: real): seq<TextBlock> {
    if bs == [] then []
    else
      InArea(bs[..|bs| - 1], pageWidth, pageHeight)
      + if InTitleArea(Last(bs), pageWidth, pageHeight) then [Last(bs)] else []
  }

  /** The area blocks of one page, its size taken from its own blocks. */
  function AreaBlocks(pb: seq<TextBlock>): seq<TextBlock>
    requires pb != []
  {
    InArea(pb, MaxX1(pb), MaxY1(pb))
  }

  /** The title-block patterns of the analyser, as written. */
  const TitleBlockPatterns: seq<string> :=
    [@"основн[а-я]*\s*надпис[а-я]*", "штамп", @"главн[а-я]*\s*надпис[а-я]*", @"title\s*block"]

  /** The test as written: `any(pattern in text_lower ...)`, each pattern a
      literal substring. */
  predicate LiteralTitleKeyword(textLower: string) {
    exists k :: 0 <= k < |TitleBlockPatterns| && Contains(textLower, TitleBlockPatterns[k])
  }

  predicate CyrillicLower(c: char) { 'а' <= c <= 'я' }

  predicate LettersBetween(t: string, a: nat, b: nat)
    requires a <= b <= |t|
  {
    forall m :: a <= m < b ==> CyrillicLower(t[m])
  }

  predicate SpacesBetween(t: string, a: nat, b: nat)
    requires a <= b <= |t|
  {
    forall m :: a <= m < b ==> IsSpace(t[m])
  }

  /** `stem[а-я]*\s*надпис` occurs in t (the trailing `[а-я]*` of the
      patterns also matches nothing, so it does not change a search). */
  predicate StemNadpis(t: string, stem: string) {
    exists i, j, k :: 0 <= i <= |t| && 0 <= j <= |t| && 0 <= k <= |t|
      && i + |stem| <= j <= k && IsAt(t, i, stem) && LettersBetween(t, i + |stem|, j)
      && SpacesBetween(t, j, k) && IsAt(t, k, "надпис")
  }

  /** `title\s*block` occurs in t. */
  predicate TitleBlockWords(t: string) {
    exists i, k :: 0 <= i <= |t| && 0 <= k <= |t| && i + 5 <= k && IsAt(t, i, "title")
      && SpacesBetween(t, i + 5, k) && IsAt(t, k, "block")
  }

  /** The evident intent: `re.search` with each title-block pattern. */
  predicate TitleKeyword(textLower: string) {
    StemNadpis(textLower, "основн") || Contains(textLower, "штамп")
    || StemNadpis(textLower, "главн") || TitleBlockWords(textLower)
  }

  /** The patterns with regular-expression syntax never occur literally in a
      stamp's text, so the test as written recognises "основная надпись"
      (the Russian for "title block") by none of them; searching with the
      patterns does. */
  lemma LiteralKeywordMissesTitle()
    ensures !LiteralTitleKeyword("основная надпись")
    ensures TitleKeyword("основная надпись")
  {
    var t := "основная надпись";
    assert 'ш' !in t && 't' !in t;
    forall k | 0 <= k < |TitleBlockPatterns| ensures !Contains(t, TitleBlockPatterns[k]) {
      var pat := TitleBlockPatterns[k];
      if k == 1 || k == 3 {
        assert pat[0] !in t;
        forall i | 0 <= i <= |t| - |pat| ensures !IsAt(t, i, pat) {
          assert t[i] != pat[0];
        }
      } else {
        assert |pat| > |t|;
      }
    }
    assert t[..6] == "основн" && t[9..15] == "надпис";
    assert IsAt(t, 0, "основн") && LettersBetween(t, 6, 8) && SpacesBetween(t, 8, 9) && IsAt(t, 9, "надпис");
  }

  /** Blocks whose lowered text has a title-block keyword, in order. */
  function KeywordBlocks(bs: seq<TextBlock>): seq<TextBlock> {
    if bs == [] then []
    else KeywordBlocks(bs[..|bs| - 1]) + if TitleKeyword(Lower(Last(bs).text)) then [Last(bs)] else []
  }

  lemma {:induction false} InAreaMembers(bs: seq<TextBlock>, pageWidth: real, pageHeight: real)
    ensures forall b :: b in InArea(bs, pageWidth, pageHeight) <==> b in bs && InTitleArea(b, pageWidth, pageHeight)
  {
    if bs != [] {
      var init := bs[..|bs| - 1];
      InAreaMembers(init, pageWidth, pageHeight);
      assert bs == init + [Last(bs)];
    }
  }

  lemma {:induction false} KeywordMembers(bs: seq<TextBlock>)
    ensures forall b :: b in KeywordBlocks(bs) <==> b in bs && TitleKeyword(Lower(b.text))
  {
    if bs != [] {
      var init := bs[..|bs| - 1];
      KeywordMembers(init);
      assert bs == init + [Last(bs)];
    }
  }

  /** The area blocks of page p, none when it has no blocks. */
  function AreaOf(blocks: seq<TextBlock>, p: int): seq<TextBlock> {
    if OnPage(blocks, p) == [] then [] else AreaBlocks(OnPage(blocks, p))
  }

  /** `find_title_block_by_layout` over the given pages: each page adds its
      area blocks, and its keyword blocks only while nothing has been
      collected at all. */
  function TitleBlocksOver(blocks: seq<TextBlock>, pages: seq<int>): seq<TextBlock> {
    if pages == [] then []
    else
      var withArea := TitleBlocksOver(blocks, pages[..|pages| - 1]) + AreaOf(blocks, Last(pages));
      if withArea == [] && OnPage(blocks, Last(pages)) != [] then withArea + KeywordBlocks(OnPage(blocks, Last(pages)))
      else withArea
  }

  function TitleBlocksByLayout(blocks: seq<TextBlock>): seq<TextBlock> {
    TitleBlocksOver(blocks, Pages(blocks))
  }

  /** Only the area blocks of the given pages. */
  function AreasOver(blocks: seq<TextBlock>, pages: seq<int>): seq<TextBlock> {
    if pages == [] then [] else AreasOver(blocks, pages[..|pages| - 1]) + AreaOf(blocks, Last(pages))
  }

  lemma AreasStep(blocks: seq<TextBlock>, pages: seq<int>, k: nat)
    requires k < |pages|
    ensures AreasOver(blocks, pages[k..]) == AreasOver(blocks, pages[k..|pages| - 1]) + AreaOf(blocks, Last(pages))
  {
    var rest := pages[k..];
    assert rest[..|rest| - 1] == pages[k..|pages| - 1] && Last(rest) == Last(pages);
  }

  /** With something collected, a page adds only its area blocks. */
  lemma TitleStep(blocks: seq<TextBlock>, pages: seq<int>)
    requires pages != [] && TitleBlocksOver(blocks, pages[..|pages| - 1]) != []
    ensures TitleBlocksOver(blocks, pages) == TitleBlocksOver(blocks, pages[..|pages| - 1]) + AreaOf(blocks, Last(pages))
  {
  }

  lemma FallbackStep(blocks: seq<TextBlock>, pages: seq<int>, k: nat)
    requires k < |pages| && TitleBlocksOver(blocks, pages[..k]) != []
    requires TitleBlocksOver(blocks, pages[..|pages| - 1])
      == TitleBlocksOver(blocks, pages[..k]) + AreasOver(blocks, pages[k..|pages| - 1])
    ensures TitleBlocksOver(blocks, pages) == TitleBlocksOver(blocks, pages[..k]) + AreasOver(blocks, pages[k..])
  {
    TitleStep(blocks, pages);
    AreasStep(blocks, pages, k);
    var pre, mid, extra := TitleBlocksOver(blocks, pages[..k]), AreasOver(blocks, pages[k..|pages| - 1]), AreaOf(blocks, Last(pages));
    ConcatAssoc(pre, mid, extra);
  }

  /** Once a title block has been collected, later pages contribute only their
      area blocks: the keyword fallback is never taken again. */
  lemma {:induction false} FallbackOnlyWhileEmpty(blocks: seq<TextBlock>, pages: seq<int>, k: nat)
    requires k <= |pages| && TitleBlocksOver(blocks, pages[..k]) != []
    ensures TitleBlocksOver(blocks, pages) == TitleBlocksOver(blocks, pages[..k]) + AreasOver(blocks, pages[k..])
  {
    if |pages| == k {
      assert pages[..k] == pages && pages[k..] == [];
      assert TitleBlocksOver(blocks, pages) + [] == TitleBlocksOver(blocks, pages);
    } else {
      var init := pages[..|pages| - 1];
      assert init[..k] == pages[..k] && init[k..] == pages[k..|pages| - 1];
      FallbackOnlyWhileEmpty(blocks, init, k);
      FallbackStep(blocks, pages, k);
    }
  }

  /** The page of b has blocks, and b lies in its title area or has a
      title-block keyword. */
  predicate TitleCandidate(blocks: seq<TextBlock>, b: TextBlock) {
    OnPage(blocks, b.page) != []
    && (InTitleArea(b, MaxX1(OnPage(blocks, b.page)), MaxY1(OnPage(blocks, b.page))) || TitleKeyword(Lower(b.text)))
  }

  /** Every collected block is a block of a scanned page that lies in that
      page's title area or has a keyword. */
  lemma {:induction false} TitleBlocksSound(blocks: seq<TextBlock>, pages: seq<int>)
    ensures forall b :: b in TitleBlocksOver(blocks, pages) ==> b in blocks && b.page in pages && TitleCandidate(blocks, b)
  {
    if pages != [] {
      var init, p := pages[..|pages| - 1], Last(pages);
      assert pages == init + [p];
      TitleBlocksSound(blocks, init);
      AreaOfSound(blocks, p);
      if OnPage(blocks, p) != [] {
        KeywordSound(blocks, p);
      }
    }
  }

  lemma AreaOfSound(blocks: seq<TextBlock>, p: int)
    ensures forall b :: b in AreaOf(blocks, p) ==> b in blocks && b.page == p && TitleCandidate(blocks, b)
  {
    var pb := OnPage(blocks, p);
    if pb != [] {
      OnPageMembers(blocks, p);
      InAreaMembers(pb, MaxX1(pb), MaxY1(pb));
    }
  }

  lemma KeywordSound(blocks: seq<TextBlock>, p: int)
    requires OnPage(blocks, p) != []
    ensures forall b :: b in KeywordBlocks(OnPage(blocks, p)) ==> b in blocks && b.page == p && TitleCandidate(blocks, b)
  {
    OnPageMembers(blocks, p);
    KeywordMembers(OnPage(blocks, p));
  }

  /** Every block of a scanned page that lies in that page's title area is
      collected. */
  lemma {:induction false} TitleBlocksComplete(blocks: seq<TextBlock>, pages: seq<int>, b: TextBlock)
    requires b in blocks && b.page in pages && OnPage(blocks, b.page) != []
    requires InTitleArea(b, MaxX1(OnPage(blocks, b.page)), MaxY1(OnPage(blocks, b.page)))
    ensures b in TitleBlocksOver(blocks, pages)
  {
    var init, p := pages[..|pages| - 1], Last(pages);
    assert pages == init + [p];
    var withArea := TitleBlocksOver(blocks, init) + AreaOf(blocks, p);
    if b.page in init {
      TitleBlocksComplete(blocks, init, b);
    } else {
      AreaOfComplete(blocks, b);
    }
    assert b in withArea;
  }

  lemma AreaOfComplete(blocks: seq<TextBlock>, b: TextBlock)
    requires b in blocks && OnPage(blocks, b.page) != []
    requires InTitleArea(b, MaxX1(OnPage(blocks, b.page)), MaxY1(OnPage(blocks, b.page)))
    ensures b in AreaOf(blocks, b.page)
  {
    var pb := OnPage(blocks, b.page);
    OnPageMembers(blocks, b.page);
    InAreaMembers(pb, MaxX1(pb), MaxY1(pb));
  }

  /** The area loop of one page. */
  method AreaScan(pb: seq<TextBlock>) returns (found: seq<TextBlock>)
    requires pb != []
    ensures found == AreaBlocks(pb)
  {
    var pageWidth, pageHeight := MaxX1(pb), MaxY1(pb);
    found := [];
    var i := 0;
    while i < |pb|
      invariant 0 <= i <= |pb| && found == InArea(pb[..i], pageWidth, pageHeight)
    {
      assert pb[..i + 1][..i] == pb[..i];
      var b := pb[i];
      if b.x0 >= pageWidth * 0.6 && b.y0 >= pageHeight * 0.7 && b.x1 <= pageWidth && b.y1 <= pageHeight {
        found := found + [b];
      }
      i := i + 1;
    }
    assert pb[..i] == pb;
  }

  /** The keyword fallback loop of one page. */
  method KeywordScan(pb: seq<TextBlock>) returns (found: seq<TextBlock>)
    ensures found == KeywordBlocks(pb)
  {
    found := [];
    var i := 0;
    while i < |pb|
      invariant 0 <= i <= |pb| && found == KeywordBlocks(pb[..i])
    {
      assert pb[..i + 1][..i] == pb[..i];
      if TitleKeyword(Lower(pb[i].text)) {
        found := found + [pb[i]];
      }
      i := i + 1;
    }
    assert pb[..i] == pb;
  }

  /** `find_title_block_by_layout`, with the keyword test searching. */
  method FindTitleBlockByLayout(blocks: seq<TextBlock>) returns (titleBlocks: seq<TextBlock>)
    ensures titleBlocks == TitleBlocksByLayout(blocks)
  {
    var pages, byPage := BlocksByPage(blocks);
    titleBlocks := [];
    var i := 0;
    while i < |pages|
      invariant 0 <= i <= |pages| && titleBlocks == TitleBlocksOver(blocks, pages[..i])
    {
      assert pages[..i + 1][..i] == pages[..i] && Last(pages[..i + 1]) == pages[i];
      assert pages[i] in pages;
      var pb := byPage[pages[i]];
      if pb != [] {
        var area := AreaScan(pb);
        titleBlocks := titleBlocks + area;
        if titleBlocks == [] {
          var byKeyword := KeywordScan(pb);
          titleBlocks := titleBlocks + byKeyword;
        }
      }
      i := i + 1;
    }
    assert pages[..i] == pages;
  }
}
