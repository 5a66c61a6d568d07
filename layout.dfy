/** Layout grouping of the configurable drawing analyzer: text blocks with
    integer (rounded) bounding boxes are clustered by vertical gaps, grouped
    into rows, searched for aligned table windows; the page size is matched
    against the A-series formats; metadata is collected from pattern matches
    and system references are paired across files.

    Centres are compared doubled (`x0 + x1` against `2 * threshold`), which
    is exact for the integer thresholds of the model. */
module Layout {
  import opened Text
  import opened Sorting

  /** `TextBlock`: its text, its rounded bbox `(x0, y0, x1, y1)` and its page. */
  datatype TextBlock = TextBlock(text: string, x0: int, y0: int, x1: int, y1: int, page: int)

  datatype Bbox = Bbox(x0: int, y0: int, x1: int, y1: int)

  /** `Cluster`. */
  datatype Cluster = Cluster(clusterId: int, blocks: seq<TextBlock>, clusterType: string,
                             bbox: Option<Bbox>, textContent: string)

  /** The dictionary `_calculate_bbox` returns. */
  datatype Extent = Extent(x0: int, y0: int, x1: int, y1: int, width: int, height: int)

  // ---------------------------------------------------------------- hulls

  function MinOf(xs: seq<int>): (r: int)
    requires |xs| > 0
    ensures forall i :: 0 <= i < |xs| ==> r <= xs[i]
    ensures exists i :: 0 <= i < |xs| && r == xs[i]
  {
    if |xs| == 1 then xs[0]
    else
      var m := MinOf(xs[..|xs| - 1]);
      assert forall i :: 0 <= i < |xs| - 1 ==> xs[..|xs| - 1][i] == xs[i];
      if Last(xs) < m then Last(xs) else m
  }

  function MaxOf(xs: seq<int>): (r: int)
    requires |xs| > 0
    ensures forall i :: 0 <= i < |xs| ==> xs[i] <= r
    ensures exists i :: 0 <= i < |xs| && r == xs[i]
  {
    if |xs| == 1 then xs[0]
    else
      var m := MaxOf(xs[..|xs| - 1]);
      assert forall i :: 0 <= i < |xs| - 1 ==> xs[..|xs| - 1][i] == xs[i];
      if Last(xs) > m then Last(xs) else m
  }

  function X0s(bs: seq<TextBlock>): seq<int> { seq(|bs|, i requires 0 <= i < |bs| => bs[i].x0) }
  function Y0s(bs: seq<TextBlock>): seq<int> { seq(|bs|, i requires 0 <= i < |bs| => bs[i].y0) }
  function X1s(bs: seq<TextBlock>): seq<int> { seq(|bs|, i requires 0 <= i < |bs| => bs[i].x1) }
  function Y1s(bs: seq<TextBlock>): seq<int> { seq(|bs|, i requires 0 <= i < |bs| => bs[i].y1) }

  /** `(min x0, min y0, max x1, max y1)` over the blocks. */
  function Hull(bs: seq<TextBlock>): Bbox
    requires |bs| > 0
  {
    Bbox(MinOf(X0s(bs)), MinOf(Y0s(bs)), MaxOf(X1s(bs)), MaxOf(Y1s(bs)))
  }

  predicate Inside(b: TextBlock, h: Bbox) {
    h.x0 <= b.x0 && h.y0 <= b.y0 && b.x1 <= h.x1 && b.y1 <= h.y1
  }

  predicate WellFormed(b: TextBlock) { b.x0 <= b.x1 && b.y0 <= b.y1 }

  /** The hull is the smallest box holding every block: each block is inside,
      and each side is reached by some block. */
  lemma HullFacts(bs: seq<TextBlock>)
    requires |bs| > 0
    ensures var h := Hull(bs);
            (forall i :: 0 <= i < |bs| ==> Inside(bs[i], h))
            && (exists i :: 0 <= i < |bs| && bs[i].x0 == h.x0)
            && (exists i :: 0 <= i < |bs| && bs[i].y0 == h.y0)
            && (exists i :: 0 <= i < |bs| && bs[i].x1 == h.x1)
            && (exists i :: 0 <= i < |bs| && bs[i].y1 == h.y1)
  {
    var h := Hull(bs);
    forall i | 0 <= i < |bs| ensures Inside(bs[i], h) {
      assert X0s(bs)[i] == bs[i].x0 && Y0s(bs)[i] == bs[i].y0;
      assert X1s(bs)[i] == bs[i].x1 && Y1s(bs)[i] == bs[i].y1;
    }
    var a :| 0 <= a < |bs| && X0s(bs)[a] == h.x0;
    var b :| 0 <= b < |bs| && Y0s(bs)[b] == h.y0;
    var c :| 0 <= c < |bs| && X1s(bs)[c] == h.x1;
    var d :| 0 <= d < |bs| && Y1s(bs)[d] == h.y1;
  }

  /** `_calculate_bbox`. */
  function CalculateBbox(bs: seq<TextBlock>): Extent {
    if bs == [] then Extent(0, 0, 0, 0, 0, 0)
    else
      var h := Hull(bs);
      Extent(h.x0, h.y0, h.x1, h.y1, h.x1 - h.x0, h.y1 - h.y0)
  }

  /** All zeros for no blocks; otherwise the hull, whose width and height are
      not negative once one block is well formed. */
  lemma CalculateBboxFacts(bs: seq<TextBlock>)
    ensures bs == [] ==> CalculateBbox(bs) == Extent(0, 0, 0, 0, 0, 0)
    ensures bs != [] ==>
              var e := CalculateBbox(bs);
              var h := Hull(bs);
              e.x0 == h.x0 && e.y0 == h.y0 && e.x1 == h.x1 && e.y1 == h.y1
              && e.width == e.x1 - e.x0 && e.height == e.y1 - e.y0
    ensures (exists i :: 0 <= i < |bs| && WellFormed(bs[i])) ==>
              CalculateBbox(bs).width >= 0 && CalculateBbox(bs).height >= 0
  {
    if exists i :: 0 <= i < |bs| && WellFormed(bs[i]) {
      var i :| 0 <= i < |bs| && WellFormed(bs[i]);
      HullFacts(bs);
      assert Inside(bs[i], Hull(bs));
    }
  }

  function Texts(bs: seq<TextBlock>): (r: seq<string>)
    ensures |r| == |bs| && forall i :: 0 <= i < |bs| ==> r[i] == bs[i].text
  {
    seq(|bs|, i requires 0 <= i < |bs| => bs[i].text)
  }

  /** `_create_cluster`. */
  function CreateCluster(bs: seq<TextBlock>, clusterId: int): Cluster {
    if bs == [] then Cluster(clusterId, [], "unknown", None, "")
    else Cluster(clusterId, bs, "cluster", Some(Hull(bs)), Join(" ", Texts(bs)))
  }

  /** A cluster keeps its blocks and id; its box is their hull, and when
      no block text holds a space its text splits back into the block texts. */
  lemma CreateClusterFacts(bs: seq<TextBlock>, clusterId: int)
    requires bs != []
    ensures var c := CreateCluster(bs, clusterId);
            c.clusterId == clusterId && c.blocks == bs && c.clusterType == "cluster"
            && c.bbox.Some? && (forall i :: 0 <= i < |bs| ==> Inside(bs[i], c.bbox.value))
    ensures (forall i :: 0 <= i < |bs| ==> !Contains(bs[i].text, " ")) ==>
              Split(CreateCluster(bs, clusterId).textContent, " ") == Texts(bs)
  {
    HullFacts(bs);
    if forall i :: 0 <= i < |bs| ==> !Contains(bs[i].text, " ") {
      SplitJoin(Texts(bs), " ");
    }
  }

  // ---------------------------------------------------------------- clusters

  predicate ByY0(a: TextBlock, b: TextBlock) { a.y0 <= b.y0 }

  predicate ByX0(a: TextBlock, b: TextBlock) { a.x0 <= b.x0 }

  lemma KeyOrders()
    ensures TotalPreorder(ByY0) && TotalPreorder(ByX0)
  {
  }

  /** A block continues the cluster when its top is less than the threshold
      below the previous block's bottom. */
  function ClusterNear(verticalThreshold: int): (TextBlock, TextBlock) -> bool {
    (prev: TextBlock, curr: TextBlock) => curr.y0 - prev.y1 < verticalThreshold
  }

  /** The block groups of `_cluster_blocks`: runs of the blocks sorted by y0. */
  function ClusterGroups(blocks: seq<TextBlock>, verticalThreshold: int): seq<seq<TextBlock>> {
    Runs(SortBy(blocks, ByY0), ClusterNear(verticalThreshold))
  }

  /** The groups are consecutive pieces of the y0-sorted blocks (so every
      block is in exactly one), ordered by y0, and a new group starts exactly
      where the gap reaches the threshold. */
  lemma ClusterGroupsFacts(blocks: seq<TextBlock>, verticalThreshold: int)
    ensures var gs := ClusterGroups(blocks, verticalThreshold);
            Flatten(gs) == SortBy(blocks, ByY0)
            && multiset(Flatten(gs)) == multiset(blocks)
            && SortedBy(Flatten(gs), ByY0)
            && (forall k :: 0 <= k < |gs| ==> gs[k] != [])
            && (forall k, i :: 0 <= k < |gs| && 0 < i < |gs[k]| ==> gs[k][i].y0 - gs[k][i - 1].y1 < verticalThreshold)
            && (forall k :: 0 < k < |gs| ==> gs[k][0].y0 - Last(gs[k - 1]).y1 >= verticalThreshold)
  {
    var s := SortBy(blocks, ByY0);
    RunsFlatten(s, ClusterNear(verticalThreshold));
    KeyOrders();
    SortBySorted(blocks, ByY0);
    ClusterGaps(blocks, verticalThreshold);
  }

  lemma ClusterGaps(blocks: seq<TextBlock>, verticalThreshold: int)
    ensures var gs := ClusterGroups(blocks, verticalThreshold);
            (forall k :: 0 <= k < |gs| ==> gs[k] != [])
            && (forall k, i :: 0 <= k < |gs| && 0 < i < |gs[k]| ==> gs[k][i].y0 - gs[k][i - 1].y1 < verticalThreshold)
            && (forall k :: 0 < k < |gs| ==> gs[k][0].y0 - Last(gs[k - 1]).y1 >= verticalThreshold)
  {
    var near := ClusterNear(verticalThreshold);
    var gs: seq<seq<TextBlock>> := Runs(SortBy(blocks, ByY0), near);
    RunsCohesiveSeparated(SortBy(blocks, ByY0), near);
    forall k, i | 0 <= k < |gs| && 0 < i < |gs[k]| ensures gs[k][i].y0 - gs[k][i - 1].y1 < verticalThreshold {
      assert near(gs[k][i - 1], gs[k][i]);
    }
    forall k | 0 < k < |gs| ensures gs[k][0].y0 - Last(gs[k - 1]).y1 >= verticalThreshold {
      assert !near(Last(gs[k - 1]), gs[k][0]);
    }
  }

  /** The clusters made from groups, numbered from 1 in order. */
  function Numbered(gs: seq<seq<TextBlock>>): (r: seq<Cluster>)
    ensures |r| == |gs|
  {
    if gs == [] then [] else Numbered(gs[..|gs| - 1]) + [CreateCluster(Last(gs), |gs|)]
  }

  lemma {:induction false} NumberedAt(gs: seq<seq<TextBlock>>)
    ensures forall k :: 0 <= k < |gs| ==> Numbered(gs)[k] == CreateCluster(gs[k], k + 1)
  {
    if gs != [] {
      var init := gs[..|gs| - 1];
      NumberedAt(init);
      assert forall k :: 0 <= k < |init| ==> init[k] == gs[k];
    }
  }

  /** The state of `_cluster_blocks` after the first i sorted blocks: the
      closed clusters, numbered, precede the open group and its id. */
  ghost predicate ClusteredUpTo(sorted: seq<TextBlock>, verticalThreshold: int, i: nat, clusters: seq<Cluster>,
                                current: seq<TextBlock>, currentId: int, groups: seq<seq<TextBlock>>)
  {
    1 <= i <= |sorted| && groups == Runs(sorted[..i], ClusterNear(verticalThreshold))
    && currentId == |groups| && current == Last(groups) && clusters == Numbered(groups[..|groups| - 1])
  }

  /** One round of the loop of `_cluster_blocks`. */
  method ClusterStep(sorted: seq<TextBlock>, verticalThreshold: int, i: nat, clusters: seq<Cluster>,
                     current: seq<TextBlock>, currentId: int, ghost groups: seq<seq<TextBlock>>)
    returns (clusters': seq<Cluster>, current': seq<TextBlock>, currentId': int, ghost groups': seq<seq<TextBlock>>)
    requires i < |sorted| && ClusteredUpTo(sorted, verticalThreshold, i, clusters, current, currentId, groups)
    ensures ClusteredUpTo(sorted, verticalThreshold, i + 1, clusters', current', currentId', groups')
  {
    ghost var near := ClusterNear(verticalThreshold);
    var prev := sorted[i - 1];
    var curr := sorted[i];
    assert near(prev, curr) <==> curr.y0 - prev.y1 < verticalThreshold;
    if curr.y0 - prev.y1 < verticalThreshold {
      RunsJoin(sorted, i, near);
      clusters', current', currentId' := clusters, current + [curr], currentId;
      groups' := groups[..|groups| - 1] + [current'];
      assert groups'[..|groups'| - 1] == groups[..|groups| - 1];
    } else {
      RunsBreak(sorted, i, near);
      clusters', current', currentId' := clusters + [CreateCluster(current, currentId)], [curr], currentId + 1;
      groups' := groups + [current'];
      assert groups'[..|groups'| - 1] == groups;
    }
  }

  /** `_cluster_blocks`. */
  method ClusterBlocks(blocks: seq<TextBlock>, verticalThreshold: int) returns (clusters: seq<Cluster>)
    ensures var gs := ClusterGroups(blocks, verticalThreshold);
            |clusters| == |gs|
            && forall k :: 0 <= k < |gs| ==> clusters[k] == CreateCluster(gs[k], k + 1)
  {
    if blocks == [] {
      return [];
    }
    var sorted := SortBy(blocks, ByY0);
    clusters := [];
    var current := [sorted[0]];
    var currentId := 1;
    ghost var groups := [current];
    var i := 1;
    assert sorted[..1] == [sorted[0]];
    while i < |sorted|
      invariant ClusteredUpTo(sorted, verticalThreshold, i, clusters, current, currentId, groups)
    {
      clusters, current, currentId, groups := ClusterStep(sorted, verticalThreshold, i, clusters, current, currentId, groups);
      i := i + 1;
    }
    assert sorted[..i] == sorted;
    assert groups == ClusterGroups(blocks, verticalThreshold);
    clusters := clusters + [CreateCluster(current, currentId)];
    assert clusters == Numbered(groups);
    NumberedAt(groups);
  }

  // ---------------------------------------------------------------- rows

  /** A block continues the row when its top is within the threshold of the
      previous block's bottom. */
  function RowNear(threshold: int): (TextBlock, TextBlock) -> bool {
    (prev: TextBlock, curr: TextBlock) => -threshold < curr.y0 - prev.y1 < threshold
  }

  function RowGroups(blocks: seq<TextBlock>, threshold: int): seq<seq<TextBlock>> {
    Runs(SortBy(blocks, ByY0), RowNear(threshold))
  }

  /** Each group reordered by x0. */
  function ByX0Each(gs: seq<seq<TextBlock>>): (r: seq<seq<TextBlock>>)
    ensures |r| == |gs|
  {
    if gs == [] then [] else ByX0Each(gs[..|gs| - 1]) + [SortBy(Last(gs), ByX0)]
  }

  lemma {:induction false} ByX0EachAt(gs: seq<seq<TextBlock>>)
    ensures forall k :: 0 <= k < |gs| ==> ByX0Each(gs)[k] == SortBy(gs[k], ByX0)
  {
    if gs != [] {
      var init := gs[..|gs| - 1];
      ByX0EachAt(init);
      assert forall k :: 0 <= k < |init| ==> init[k] == gs[k];
    }
  }

  /** The rows of `_group_into_rows`: each group sorted by x0. */
  function Rows(blocks: seq<TextBlock>, threshold: int): (rows: seq<seq<TextBlock>>)
    ensures |rows| == |RowGroups(blocks, threshold)|
  {
    ByX0Each(RowGroups(blocks, threshold))
  }

  /** Each row is a group of the y0-sorted blocks reordered by x0, the groups
      together being all blocks, and a row starts exactly where the vertical
      distance reaches the threshold. */
  lemma RowsFacts(blocks: seq<TextBlock>, threshold: int)
    ensures var gs, rows := RowGroups(blocks, threshold), Rows(blocks, threshold);
            Flatten(gs) == SortBy(blocks, ByY0)
            && (forall k :: 0 <= k < |rows| ==>
                  rows[k] != [] && multiset(rows[k]) == multiset(gs[k]) && SortedBy(rows[k], ByX0))
            && (forall k :: 0 < k < |gs| ==> !(-threshold < gs[k][0].y0 - Last(gs[k - 1]).y1 < threshold))
  {
    var s := SortBy(blocks, ByY0);
    var near := RowNear(threshold);
    RunsFlatten(s, near);
    RunsCohesiveSeparated(s, near);
    KeyOrders();
    var gs := RowGroups(blocks, threshold);
    var rows := Rows(blocks, threshold);
    ByX0EachAt(gs);
    forall k | 0 <= k < |rows|
      ensures rows[k] != [] && multiset(rows[k]) == multiset(gs[k]) && SortedBy(rows[k], ByX0)
    {
      SortBySorted(gs[k], ByX0);
      assert rows[k] == SortBy(gs[k], ByX0);
      assert gs[k] != [];
    }
  }

  /** The state of `_group_into_rows` after the first i sorted blocks: the
      closed rows, each sorted by x0, precede the open group. */
  ghost predicate RowsUpTo(sorted: seq<TextBlock>, threshold: int, i: nat, rows: seq<seq<TextBlock>>,
                           current: seq<TextBlock>, groups: seq<seq<TextBlock>>)
  {
    1 <= i <= |sorted| && groups == Runs(sorted[..i], RowNear(threshold))
    && current == Last(groups) && rows == ByX0Each(groups[..|groups| - 1])
  }

  /** One round of the loop of `_group_into_rows`. */
  method RowStep(sorted: seq<TextBlock>, threshold: int, i: nat, rows: seq<seq<TextBlock>>,
                 current: seq<TextBlock>, ghost groups: seq<seq<TextBlock>>)
    returns (rows': seq<seq<TextBlock>>, current': seq<TextBlock>, ghost groups': seq<seq<TextBlock>>)
    requires i < |sorted| && RowsUpTo(sorted, threshold, i, rows, current, groups)
    ensures RowsUpTo(sorted, threshold, i + 1, rows', current', groups')
  {
    ghost var near := RowNear(threshold);
    var block := sorted[i];
    var last := current[|current| - 1];
    assert last == sorted[i - 1];
    assert near(sorted[i - 1], sorted[i]) <==> -threshold < block.y0 - last.y1 < threshold;
    if -threshold < block.y0 - last.y1 < threshold {
      RunsJoin(sorted, i, near);
      rows', current' := rows, current + [block];
      groups' := groups[..|groups| - 1] + [current'];
      assert groups'[..|groups'| - 1] == groups[..|groups| - 1];
    } else {
      RunsBreak(sorted, i, near);
      rows', current' := rows + [SortBy(current, ByX0)], [block];
      groups' := groups + [current'];
      assert groups'[..|groups'| - 1] == groups;
    }
  }

  /** `_group_into_rows`. */
  method GroupIntoRows(blocks: seq<TextBlock>, threshold: int) returns (rows: seq<seq<TextBlock>>)
    ensures rows == Rows(blocks, threshold)
  {
    if blocks == [] {
      return [];
    }
    var sorted := SortBy(blocks, ByY0);
    rows := [];
    var current := [sorted[0]];
    ghost var groups := [current];
    var i := 1;
    assert sorted[..1] == [sorted[0]];
    while i < |sorted|
      invariant RowsUpTo(sorted, threshold, i, rows, current, groups)
    {
      rows, current, groups := RowStep(sorted, threshold, i, rows, current, groups);
      i := i + 1;
    }
    assert sorted[..i] == sorted;
    assert groups == RowGroups(blocks, threshold);
    rows := rows + [SortBy(current, ByX0)];
    assert rows == ByX0Each(groups);
  }

  // ---------------------------------------------------------------- alignment and tables

  /** Twice the horizontal centre. */
  function Centre2(b: TextBlock): int { b.x0 + b.x1 }

  /** `_check_column_alignment` as a property: at least two rows, all as long
      as the first, and in each column the centres spread by at most the
      threshold. */
  predicate ColumnsAligned(rows: seq<seq<TextBlock>>, horizontalThreshold: int) {
    |rows| >= 2
    && (forall r :: 0 <= r < |rows| ==> |rows[r]| == |rows[0]|)
    && forall c, r1, r2 :: 0 <= c < |rows[0]| && 0 <= r1 < |rows| && 0 <= r2 < |rows| ==>
         Centre2(rows[r1][c]) - Centre2(rows[r2][c]) <= 2 * horizontalThreshold
  }

  /** The largest and smallest doubled centre in column c. */
  method ColumnSpread(rows: seq<seq<TextBlock>>, c: nat) returns (hi: int, lo: int)
    requires |rows| > 0 && forall r :: 0 <= r < |rows| ==> c < |rows[r]|
    ensures forall r :: 0 <= r < |rows| ==> lo <= Centre2(rows[r][c]) <= hi
    ensures exists r :: 0 <= r < |rows| && Centre2(rows[r][c]) == hi
    ensures exists r :: 0 <= r < |rows| && Centre2(rows[r][c]) == lo
  {
    hi, lo := Centre2(rows[0][c]), Centre2(rows[0][c]);
    var r := 1;
    while r < |rows|
      invariant 1 <= r <= |rows|
      invariant forall q :: 0 <= q < r ==> lo <= Centre2(rows[q][c]) <= hi
      invariant exists q :: 0 <= q < r && Centre2(rows[q][c]) == hi
      invariant exists q :: 0 <= q < r && Centre2(rows[q][c]) == lo
    {
      var x := Centre2(rows[r][c]);
      if x > hi { hi := x; }
      if x < lo { lo := x; }
      r := r + 1;
    }
  }

  /** `_check_column_alignment`. */
  method CheckColumnAlignment(rows: seq<seq<TextBlock>>, horizontalThreshold: int) returns (aligned: bool)
    ensures aligned == ColumnsAligned(rows, horizontalThreshold)
  {
    if |rows| < 2 {
      return false;
    }
    var colCount := |rows[0]|;
    var r := 1;
    while r < |rows|
      invariant 1 <= r <= |rows|
      invariant forall q :: 0 <= q < r ==> |rows[q]| == colCount
    {
      if |rows[r]| != colCount {
        return false;
      }
      r := r + 1;
    }
    var c := 0;
    while c < colCount
      invariant 0 <= c <= colCount
      invariant forall c', r1, r2 :: 0 <= c' < c && 0 <= r1 < |rows| && 0 <= r2 < |rows| ==>
                  Centre2(rows[r1][c']) - Centre2(rows[r2][c']) <= 2 * horizontalThreshold
    {
      var hi, lo := ColumnSpread(rows, c);
      if hi - lo > 2 * horizontalThreshold {
        var a :| 0 <= a < |rows| && Centre2(rows[a][c]) == hi;
        var b :| 0 <= b < |rows| && Centre2(rows[b][c]) == lo;
        assert Centre2(rows[a][c]) - Centre2(rows[b][c]) > 2 * horizontalThreshold;
        return false;
      }
      c := c + 1;
    }
    aligned := true;
  }

  /** The table settings of the clustering configuration. */
  datatype TableConfig = TableConfig(rowThreshold: int, horizontalThreshold: int, minRows: int, minColumns: int)

  /** One table of `_find_tables`. */
  datatype TableInfo = TableInfo(startRow: int, rowCount: int, columnCount: int,
                                 content: seq<seq<string>>, bbox: Extent)

  /** A window qualifies when every row has enough blocks and the columns align. */
  predicate Qualifies(window: seq<seq<TextBlock>>, cfg: TableConfig) {
    (forall k :: 0 <= k < |window| ==> |window[k]| >= cfg.minColumns)
    && ColumnsAligned(window, cfg.horizontalThreshold)
  }

  /** The window of minRows rows starting at row i qualifies. */
  predicate QualifiesAt(rows: seq<seq<TextBlock>>, i: nat, cfg: TableConfig)
    requires cfg.minRows >= 1 && i + cfg.minRows <= |rows|
  {
    Qualifies(rows[i..i + cfg.minRows], cfg)
  }

  function Contents(window: seq<seq<TextBlock>>): (r: seq<seq<string>>)
    ensures |r| == |window| && forall k :: 0 <= k < |window| ==> r[k] == Texts(window[k])
  {
    seq(|window|, k requires 0 <= k < |window| => Texts(window[k]))
  }

  /** The table reported for the window starting at row i. */
  function TableAt(rows: seq<seq<TextBlock>>, i: nat, cfg: TableConfig): TableInfo
    requires cfg.minRows >= 1 && i + cfg.minRows <= |rows|
  {
    var window := rows[i..i + cfg.minRows];
    TableInfo(i, |window|, |window[0]|, Contents(window), CalculateBbox(Flatten(window)))
  }

  /** The tables among the windows starting before n. */
  function TablesBefore(rows: seq<seq<TextBlock>>, cfg: TableConfig, n: nat): seq<TableInfo>
    requires cfg.minRows >= 1 && (n == 0 || n + cfg.minRows <= |rows| + 1)
  {
    if n == 0 then []
    else
      var i := n - 1;
      TablesBefore(rows, cfg, i) + if QualifiesAt(rows, i, cfg) then [TableAt(rows, i, cfg)] else []
  }

  function WindowCount(rows: seq<seq<TextBlock>>, cfg: TableConfig): (n: nat)
    requires cfg.minRows >= 1
    ensures n == 0 || n + cfg.minRows == |rows| + 1
  {
    if |rows| >= cfg.minRows then |rows| - cfg.minRows + 1 else 0
  }

  /** `_find_tables` on given rows. */
  function Tables(rows: seq<seq<TextBlock>>, cfg: TableConfig): seq<TableInfo>
    requires cfg.minRows >= 1
  {
    TablesBefore(rows, cfg, WindowCount(rows, cfg))
  }

  /** t is the table of the qualifying window starting at its first row. */
  predicate Reported(rows: seq<seq<TextBlock>>, cfg: TableConfig, t: TableInfo)
    requires cfg.minRows >= 1
  {
    0 <= t.startRow && t.startRow + cfg.minRows <= |rows| && QualifiesAt(rows, t.startRow, cfg)
    && t == TableAt(rows, t.startRow, cfg)
  }

  /** The tables before n are the tables of windows before n, in order. */
  lemma TablesBeforeStep(rows: seq<seq<TextBlock>>, cfg: TableConfig, n: nat)
    requires cfg.minRows >= 1 && 0 < n && n + cfg.minRows <= |rows| + 1
    ensures TablesBefore(rows, cfg, n) == TablesBefore(rows, cfg, n - 1)
              + if QualifiesAt(rows, n - 1, cfg) then [TableAt(rows, n - 1, cfg)] else []
  {
  }

  /** Every table reported is the table of a qualifying window before n. */
  lemma {:induction false} TablesBeforeReported(rows: seq<seq<TextBlock>>, cfg: TableConfig, n: nat)
    requires cfg.minRows >= 1 && (n == 0 || n + cfg.minRows <= |rows| + 1)
    ensures forall k :: 0 <= k < |TablesBefore(rows, cfg, n)| ==>
              TablesBefore(rows, cfg, n)[k].startRow < n && Reported(rows, cfg, TablesBefore(rows, cfg, n)[k])
  {
    if n > 0 {
      TablesBeforeReported(rows, cfg, n - 1);
      TablesBeforeStep(rows, cfg, n);
      if QualifiesAt(rows, n - 1, cfg) {
        assert Reported(rows, cfg, TableAt(rows, n - 1, cfg));
      }
    }
  }

  /** The tables come in increasing order of their first row. */
  lemma {:induction false} TablesBeforeOrdered(rows: seq<seq<TextBlock>>, cfg: TableConfig, n: nat)
    requires cfg.minRows >= 1 && (n == 0 || n + cfg.minRows <= |rows| + 1)
    ensures forall k, l :: 0 <= k < l < |TablesBefore(rows, cfg, n)| ==>
              TablesBefore(rows, cfg, n)[k].startRow < TablesBefore(rows, cfg, n)[l].startRow
  {
    if n > 0 {
      TablesBeforeOrdered(rows, cfg, n - 1);
      TablesBeforeReported(rows, cfg, n - 1);
      TablesBeforeStep(rows, cfg, n);
    }
  }

  /** The first rows of the tables. */
  function Starts(ts: seq<TableInfo>): set<int> {
    set k | 0 <= k < |ts| :: ts[k].startRow
  }

  lemma StartsAppend(a: seq<TableInfo>, b: seq<TableInfo>)
    ensures Starts(a + b) == Starts(a) + Starts(b)
  {
    var ab := a + b;
    forall x | x in Starts(ab) ensures x in Starts(a) + Starts(b) {
      var k :| 0 <= k < |ab| && ab[k].startRow == x;
      if k < |a| { assert ab[k] == a[k]; } else { assert ab[k] == b[k - |a|]; }
    }
    forall x | x in Starts(a) + Starts(b) ensures x in Starts(ab) {
      if x in Starts(a) {
        var k :| 0 <= k < |a| && a[k].startRow == x;
        assert ab[k] == a[k];
      } else {
        var k :| 0 <= k < |b| && b[k].startRow == x;
        assert ab[k + |a|] == b[k];
      }
    }
  }

  /** The windows before n that qualify. */
  function QualifyingBefore(rows: seq<seq<TextBlock>>, cfg: TableConfig, n: nat): set<int>
    requires cfg.minRows >= 1 && (n == 0 || n + cfg.minRows <= |rows| + 1)
  {
    set i: nat | i < n && QualifiesAt(rows, i, cfg) :: i
  }

  /** The tables before n start exactly at the qualifying windows before n. */
  lemma {:induction false} TablesBeforeComplete(rows: seq<seq<TextBlock>>, cfg: TableConfig, n: nat)
    requires cfg.minRows >= 1 && (n == 0 || n + cfg.minRows <= |rows| + 1)
    ensures Starts(TablesBefore(rows, cfg, n)) == QualifyingBefore(rows, cfg, n)
  {
    if n > 0 {
      TablesBeforeComplete(rows, cfg, n - 1);
      var prev := TablesBefore(rows, cfg, n - 1);
      var extra := if QualifiesAt(rows, n - 1, cfg) then [TableAt(rows, n - 1, cfg)] else [];
      StartsAppend(prev, extra);
      if QualifiesAt(rows, n - 1, cfg) {
        assert extra[0].startRow == n - 1;
        assert Starts(extra) == {n - 1};
      }
      QualifyingBeforeStep(rows, cfg, n);
    }
  }

  lemma QualifyingBeforeStep(rows: seq<seq<TextBlock>>, cfg: TableConfig, n: nat)
    requires cfg.minRows >= 1 && 0 < n && n + cfg.minRows <= |rows| + 1
    ensures QualifyingBefore(rows, cfg, n)
            == QualifyingBefore(rows, cfg, n - 1) + if QualifiesAt(rows, n - 1, cfg) then {n - 1} else {}
  {
  }

  /** The windows of minRows rows that qualify, by first row. */
  function QualifyingWindows(rows: seq<seq<TextBlock>>, cfg: TableConfig): set<int>
    requires cfg.minRows >= 1
  {
    set i: nat | i + cfg.minRows <= |rows| && QualifiesAt(rows, i, cfg) :: i
  }

  /** The tables of `_find_tables` are the tables of the qualifying windows,
      one per window, in increasing order of their first row. */
  lemma TablesFacts(rows: seq<seq<TextBlock>>, cfg: TableConfig)
    requires cfg.minRows >= 1
    ensures forall k :: 0 <= k < |Tables(rows, cfg)| ==> Reported(rows, cfg, Tables(rows, cfg)[k])
    ensures forall k, l :: 0 <= k < l < |Tables(rows, cfg)| ==> Tables(rows, cfg)[k].startRow < Tables(rows, cfg)[l].startRow
    ensures Starts(Tables(rows, cfg)) == QualifyingWindows(rows, cfg)
  {
    var n := WindowCount(rows, cfg);
    TablesBeforeReported(rows, cfg, n);
    TablesBeforeOrdered(rows, cfg, n);
    TablesBeforeComplete(rows, cfg, n);
    assert QualifyingBefore(rows, cfg, n) == QualifyingWindows(rows, cfg);
  }

  /** With fewer rows than a window there is no table. */
  lemma TablesNone(rows: seq<seq<TextBlock>>, cfg: TableConfig)
    requires cfg.minRows >= 1 && |rows| < cfg.minRows
    ensures Tables(rows, cfg) == []
  {
  }

  /** Whether the window of `_find_tables` starting at row i becomes a table. */
  method WindowQualifies(rows: seq<seq<TextBlock>>, i: nat, cfg: TableConfig) returns (q: bool)
    requires cfg.minRows >= 1 && i + cfg.minRows <= |rows|
    ensures q == QualifiesAt(rows, i, cfg)
  {
    var window := rows[i..i + cfg.minRows];
    var wide := true;
    var k := 0;
    while k < |window|
      invariant 0 <= k <= |window|
      invariant wide == forall j :: 0 <= j < k ==> |window[j]| >= cfg.minColumns
    {
      wide := wide && |window[k]| >= cfg.minColumns;
      k := k + 1;
    }
    q := false;
    if wide {
      q := CheckColumnAlignment(window, cfg.horizontalThreshold);
    }
  }

  /** The window loop of `_find_tables` over given rows. */
  method TablesOfRows(rows: seq<seq<TextBlock>>, cfg: TableConfig) returns (tables: seq<TableInfo>)
    requires cfg.minRows >= 1
    ensures tables == Tables(rows, cfg)
  {
    tables := [];
    var count := if |rows| >= cfg.minRows then |rows| - cfg.minRows + 1 else 0;
    var i := 0;
    while i < count
      invariant 0 <= i <= count && count == WindowCount(rows, cfg)
      invariant tables == TablesBefore(rows, cfg, i)
    {
      var q := WindowQualifies(rows, i, cfg);
      if q {
        tables := tables + [TableAt(rows, i, cfg)];
      }
      i := i + 1;
    }
  }

  /** `_find_tables`. */
  method FindTables(blocks: seq<TextBlock>, cfg: TableConfig) returns (tables: seq<TableInfo>)
    requires cfg.minRows >= 1
    ensures tables == Tables(Rows(blocks, cfg.rowThreshold), cfg)
  {
    var rows := GroupIntoRows(blocks, cfg.rowThreshold);
    tables := TablesOfRows(rows, cfg);
  }
}
