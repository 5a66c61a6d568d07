/** The non-layout parts of the configurable drawing analyser: matching a page
    size against the A-series paper formats, pairing files that refer to the
    same systems, and collecting metadata fields from regular-expression
    matches. The regular-expression engine is a parameter. */
module Analyzer {
  import opened Text
  import opened Sorting

  // ---------------------------------------------------------------- page format

  datatype Orientation = Book | Landscape

  /** One candidate of `_detect_page_format`: a format in one orientation. */
  datatype Candidate = Candidate(name: string, orientation: Orientation, error: int)

  /** The result of `_detect_page_format`; the millimetre fields are not modelled. */
  datatype PageFormat =
    | Standard(name: string, orientation: Orientation, error: int, detectedWidth: int, detectedHeight: int)
    | Custom(orientation: Orientation, widthPt: int, heightPt: int)

  /** The standard formats in the order the dictionary lists them, with their
      book-orientation width and height in points. */
  const FormatNames: seq<string> := ["A4", "A3", "A2", "A1", "A0"]
  const FormatSizes: seq<(int, int)> := [(595, 842), (842, 1191), (1191, 1684), (1684, 2384), (2384, 3370)]

  /** The tolerance below which a format is accepted. */
  const MaxFormatError := 50

  function Abs(x: int): nat { if x < 0 then -x else x }

  function Min(a: int, b: int): int { if a <= b then a else b }

  function Max(a: int, b: int): int { if a <= b then b else a }

  /** Format k in book orientation when `book`, else in landscape. */
  function FormatCandidate(shortSide: int, longSide: int, k: nat, book: bool): Candidate
    requires k < 5
  {
    var (w, h) := FormatSizes[k];
    if book then Candidate(FormatNames[k], Book, Abs(shortSide - w) + Abs(longSide - h))
    else Candidate(FormatNames[k], Landscape, Abs(shortSide - h) + Abs(longSide - w))
  }

  /** The ten candidates in the order the loop considers them: A4 to A0, each
      in book orientation and then in landscape. */
  function Candidates(width: int, height: int): (cs: seq<Candidate>)
    ensures |cs| == 10
  {
    var s, l := Min(width, height), Max(width, height);
    seq(10, i requires 0 <= i < 10 => FormatCandidate(s, l, i / 2, i % 2 == 0))
  }

  lemma CandidatesAt(width: int, height: int, k: nat)
    requires k < 5
    ensures Candidates(width, height)[2 * k] == FormatCandidate(Min(width, height), Max(width, height), k, true)
    ensures Candidates(width, height)[2 * k + 1] == FormatCandidate(Min(width, height), Max(width, height), k, false)
  {
    assert (2 * k) / 2 == k && (2 * k) % 2 == 0;
    assert (2 * k + 1) / 2 == k && (2 * k + 1) % 2 == 1;
  }

  /** The candidate the loop keeps: a later one replaces the best so far only
      when its error is strictly smaller. */
  function BestIndex(cs: seq<Candidate>): (i: nat)
    requires |cs| > 0
    ensures i < |cs|
    ensures forall j :: 0 <= j < |cs| ==> cs[i].error <= cs[j].error
    ensures forall j :: 0 <= j < i ==> cs[j].error > cs[i].error
  {
    if |cs| == 1 then 0
    else
      var b := BestIndex(cs[..|cs| - 1]);
      assert cs[..|cs| - 1][b] == cs[b];
      if Last(cs).error < cs[b].error then |cs| - 1 else b
  }

  lemma BestIndexSnoc(cs: seq<Candidate>, m: nat)
    requires 1 <= m < |cs|
    ensures BestIndex(cs[..m + 1]) == if cs[m].error < cs[BestIndex(cs[..m])].error then m else BestIndex(cs[..m])
  {
    assert cs[..m + 1][..m] == cs[..m];
  }

  function PageFormatOf(width: int, height: int): PageFormat {
    var cs := Candidates(width, height);
    var b := cs[BestIndex(cs)];
    var shortSide, longSide := Min(width, height), Max(width, height);
    var landscape := width > height;
    if b.error < MaxFormatError then
      Standard(b.name, b.orientation, b.error,
               if !landscape then shortSide else longSide, if !landscape then longSide else shortSide)
    else Custom(if landscape then Landscape else Book, width, height)
  }

  /** A standard format is reported exactly when some candidate is within the
      tolerance; it is then the first candidate of least error, and the
      detected size is the page's own. Otherwise the page is custom, in
      landscape exactly when it is wider than tall. */
  lemma PageFormatFacts(width: int, height: int)
    ensures var f, cs := PageFormatOf(width, height), Candidates(width, height);
            (f.Standard? <==> exists i :: 0 <= i < |cs| && cs[i].error < MaxFormatError)
            && (f.Standard? ==>
                  f.detectedWidth == width && f.detectedHeight == height
                  && exists i :: 0 <= i < |cs| && cs[i] == Candidate(f.name, f.orientation, f.error)
                                 && (forall j :: 0 <= j < |cs| ==> f.error <= cs[j].error)
                                 && (forall j :: 0 <= j < i ==> cs[j].error > f.error))
            && (f.Custom? ==>
                  f.widthPt == width && f.heightPt == height
                  && (f.orientation == Landscape <==> width > height))
  {
    var cs := Candidates(width, height);
    var b := BestIndex(cs);
    if exists i :: 0 <= i < |cs| && cs[i].error < MaxFormatError {
      var i :| 0 <= i < |cs| && cs[i].error < MaxFormatError;
      assert cs[b].error <= cs[i].error;
    }
  }

  /** Example: a page of exactly the A4 size is recognised as A4, book, with
      error 0. */
  lemma ExactA4(width: int, height: int)
    requires (width, height) == (595, 842)
    ensures PageFormatOf(width, height) == Standard("A4", Book, 0, 595, 842)
  {
    var cs := Candidates(width, height);
    assert cs[0] == Candidate("A4", Book, 0);
  }

  /** After the first m candidates the loop holds the best of them; before
      any it holds nothing (an infinite `min_error`). */
  ghost predicate KeptBest(cs: seq<Candidate>, m: nat, best: Option<Candidate>) {
    m <= |cs| && (m == 0 ==> best.None?) && (m > 0 ==> best == Some(cs[BestIndex(cs[..m])]))
  }

  /** One `if error < min_error` test of `_detect_page_format`, for candidate m. */
  method Keep(ghost cs: seq<Candidate>, ghost m: nat, best: Option<Candidate>, c: Candidate)
    returns (best': Option<Candidate>)
    requires m < |cs| && c == cs[m] && KeptBest(cs, m, best)
    ensures KeptBest(cs, m + 1, best')
  {
    if m == 0 {
      assert cs[..1] == [cs[0]];
    } else {
      BestIndexSnoc(cs, m);
    }
    if best.None? || c.error < best.value.error {
      best' := Some(c);
    } else {
      best' := best;
    }
  }

  /** One turn of the loop: format k in book, then in landscape orientation. */
  method KeepFormat(width: int, height: int, shortSide: int, longSide: int, k: nat, best: Option<Candidate>)
    returns (best': Option<Candidate>)
    requires shortSide == Min(width, height) && longSide == Max(width, height)
    requires k < 5 && KeptBest(Candidates(width, height), 2 * k, best)
    ensures KeptBest(Candidates(width, height), 2 * k + 2, best')
  {
    ghost var cs := Candidates(width, height);
    CandidatesAt(width, height, k);
    best' := Keep(cs, 2 * k, best, FormatCandidate(shortSide, longSide, k, true));
    best' := Keep(cs, 2 * k + 1, best', FormatCandidate(shortSide, longSide, k, false));
  }

  /** The loop of `_detect_page_format` over the standard formats. */
  method BestCandidate(width: int, height: int) returns (b: Candidate)
    ensures b == Candidates(width, height)[BestIndex(Candidates(width, height))]
  {
    ghost var cs := Candidates(width, height);
    var shortSide := Min(width, height);
    var longSide := Max(width, height);
    var best: Option<Candidate> := None;
    var k := 0;
    while k < 5
      invariant 0 <= k <= 5 && KeptBest(cs, 2 * k, best)
    {
      best := KeepFormat(width, height, shortSide, longSide, k, best);
      k := k + 1;
    }
    assert cs[..10] == cs;
    b := best.value;
  }

  /** `_detect_page_format`. */
  method DetectPageFormat(width: int, height: int) returns (r: PageFormat)
    ensures r == PageFormatOf(width, height)
  {
    var isLandscape := width > height;
    var shortSide := Min(width, height);
    var longSide := Max(width, height);
    var b := BestCandidate(width, height);
    if b.error < MaxFormatError {
      r := Standard(b.name, b.orientation, b.error,
                    if !isLandscape then shortSide else longSide, if !isLandscape then longSide else shortSide);
    } else {
      r := Custom(if isLandscape then Landscape else Book, width, height);
    }
  }

  // ---------------------------------------------------------------- cross references

  /** What `_find_cross_references` reads of one analysed file: its name, its
      type and, per page, the `system_references` metadata entry if present. */
  datatype FileAnalysis = FileAnalysis(fileName: string, fileType: string, pageSystems: seq<Option<seq<string>>>)

  /** The entry of `systems_by_file`. */
  datatype FileSystems = FileSystems(index: int, systems: set<string>, fileType: string)

  datatype CrossRef = CrossRef(file1: string, file2: string, file1Type: string, file2Type: string,
                               commonSystems: set<string>, commonCount: int)

  function Elements(s: seq<string>): (r: set<string>)
    ensures forall x :: x in r <==> x in s
  {
    set x | x in s
  }

  /** The systems named on the pages, a missing entry naming none. */
  function PageSystems(pages: seq<Option<seq<string>>>): set<string> {
    if pages == [] then {}
    else PageSystems(pages[..|pages| - 1]) + Elements(GetOr(Last(pages), []))
  }

  lemma {:induction false} PageSystemsFacts(pages: seq<Option<seq<string>>>)
    ensures forall x :: x in PageSystems(pages) <==>
              exists p :: 0 <= p < |pages| && pages[p].Some? && x in pages[p].value
  {
    if pages != [] {
      var init := pages[..|pages| - 1];
      PageSystemsFacts(init);
      forall x | x in PageSystems(pages)
        ensures exists p :: 0 <= p < |pages| && pages[p].Some? && x in pages[p].value
      {
        if x in PageSystems(init) {
          var p :| 0 <= p < |init| && init[p].Some? && x in init[p].value;
          assert pages[p] == init[p];
        } else {
          assert pages[|pages| - 1].Some? && x in pages[|pages| - 1].value;
        }
      }
      forall x, p | 0 <= p < |pages| && pages[p].Some? && x in pages[p].value
        ensures x in PageSystems(pages)
      {
        if p < |init| {
          assert init[p] == pages[p];
        }
      }
    }
  }

  function FileNames(files: seq<FileAnalysis>): (r: seq<string>)
    ensures |r| == |files| && forall i :: 0 <= i < |files| ==> r[i] == files[i].fileName
  {
    seq(|files|, i requires 0 <= i < |files| => files[i].fileName)
  }

  /** `systems_by_file` after the files: the keys in insertion order and the
      entries, a repeated name keeping its place and taking the later entry. */
  function ByFile(files: seq<FileAnalysis>): (r: (seq<string>, map<string, FileSystems>))
    ensures forall x :: x in r.0 <==> x in r.1
    ensures forall i :: 0 <= i < |files| ==> files[i].fileName in r.1
  {
    if files == [] then ([], map[])
    else
      assert forall i :: 0 <= i < |files| - 1 ==> files[..|files| - 1][i] == files[i];
      var (names, info) := ByFile(files[..|files| - 1]);
      var f := Last(files);
      (if f.fileName in info then names else names + [f.fileName],
       info[f.fileName := FileSystems(|files| - 1, PageSystems(f.pageSystems), f.fileType)])
  }

  /** The keys are the distinct file names in first-seen order. */
  lemma {:induction false} ByFileNames(files: seq<FileAnalysis>)
    ensures ByFile(files).0 == Dedup(FileNames(files))
  {
    if files != [] {
      var init := files[..|files| - 1];
      ByFileNames(init);
      var ns := FileNames(files);
      assert ns[..|ns| - 1] == FileNames(init);
      assert Last(ns) == Last(files).fileName;
    }
  }

  /** No later file has the name of file i. */
  predicate LastOfName(files: seq<FileAnalysis>, i: nat)
    requires i < |files|
  {
    forall j :: i < j < |files| ==> files[j].fileName != files[i].fileName
  }

  /** Each entry comes from the last file of that name. */
  lemma {:induction false} ByFileEntries(files: seq<FileAnalysis>)
    ensures forall i :: 0 <= i < |files| && LastOfName(files, i) ==>
              ByFile(files).1[files[i].fileName] == FileSystems(i, PageSystems(files[i].pageSystems), files[i].fileType)
  {
    if files != [] {
      var init := files[..|files| - 1];
      ByFileEntries(init);
      forall i | 0 <= i < |init| && LastOfName(files, i)
        ensures ByFile(files).1[files[i].fileName] == FileSystems(i, PageSystems(files[i].pageSystems), files[i].fileType)
      {
        assert files[i] == init[i];
        assert LastOfName(init, i);
        assert Last(files).fileName != files[i].fileName;
      }
    }
  }

  function Common(info: map<string, FileSystems>, a: string, b: string): set<string>
    requires a in info && b in info
  {
    info[a].systems * info[b].systems
  }

  /** The entry reported for names i and j. */
  function RefOf(names: seq<string>, info: map<string, FileSystems>, i: nat, j: nat): CrossRef
    requires i < |names| && j < |names| && names[i] in info && names[j] in info
  {
    var c := Common(info, names[i], names[j]);
    CrossRef(names[i], names[j], info[names[i]].fileType, info[names[j]].fileType, c, |c|)
  }

  predicate Keyed(names: seq<string>, info: map<string, FileSystems>) {
    forall k :: 0 <= k < |names| ==> names[k] in info
  }

  /** The entries for name i paired with the names after it and before j. */
  function RowRefs(names: seq<string>, info: map<string, FileSystems>, i: nat, j: nat): seq<CrossRef>
    requires Keyed(names, info) && i < j <= |names|
    decreases j
  {
    if j == i + 1 then []
    else
      RowRefs(names, info, i, j - 1)
      + if Common(info, names[i], names[j - 1]) != {} then [RefOf(names, info, i, j - 1)] else []
  }

  /** The entries for the names before i paired with all later names. */
  function RefsBefore(names: seq<string>, info: map<string, FileSystems>, i: nat): seq<CrossRef>
    requires Keyed(names, info) && i <= |names|
  {
    if i == 0 then [] else RefsBefore(names, info, i - 1) + RowRefs(names, info, i - 1, |names|)
  }

  /** `_find_cross_references` as a function of the analysed files. */
  function CrossRefs(files: seq<FileAnalysis>): seq<CrossRef> {
    if |files| < 2 then []
    else
      var (names, info) := ByFile(files);
      RefsBefore(names, info, |names|)
  }

  /** An entry for two names i < j that share a system. */
  predicate PairEntry(names: seq<string>, info: map<string, FileSystems>, r: CrossRef)
    requires Keyed(names, info)
  {
    exists i, j :: 0 <= i < j < |names| && Common(info, names[i], names[j]) != {} && r == RefOf(names, info, i, j)
  }

  lemma {:induction false} RowRefsFacts(names: seq<string>, info: map<string, FileSystems>, i: nat, j: nat)
    requires Keyed(names, info) && i < j <= |names|
    ensures forall r :: r in RowRefs(names, info, i, j) ==> PairEntry(names, info, r)
    ensures forall l :: i < l < j && Common(info, names[i], names[l]) != {} ==>
              RefOf(names, info, i, l) in RowRefs(names, info, i, j)
    decreases j
  {
    if j > i + 1 {
      RowRefsFacts(names, info, i, j - 1);
    }
  }

  /** The position of a name in the key list, or -1. */
  function Pos(names: seq<string>, x: string): int {
    if x in names then FirstIndex(names, x) else -1
  }

  /** Entry r comes before entry s in the order of the nested loops: by the
      position of the first name, then of the second. */
  predicate LexLess(names: seq<string>, r: CrossRef, s: CrossRef) {
    Pos(names, r.file1) < Pos(names, s.file1)
    || (Pos(names, r.file1) == Pos(names, s.file1) && Pos(names, r.file2) < Pos(names, s.file2))
  }

  predicate LexOrdered(names: seq<string>, rs: seq<CrossRef>) {
    forall k, l :: 0 <= k < l < |rs| ==> LexLess(names, rs[k], rs[l])
  }

  lemma PosOf(names: seq<string>, i: nat)
    requires NoDuplicates(names) && i < |names|
    ensures Pos(names, names[i]) == i
  {
    var r := FirstIndex(names, names[i]);
    assert names[r] == names[i];
  }

  lemma LexOrderedConcat(names: seq<string>, a: seq<CrossRef>, b: seq<CrossRef>)
    requires LexOrdered(names, a) && LexOrdered(names, b)
    requires forall k, l :: 0 <= k < |a| && 0 <= l < |b| ==> LexLess(names, a[k], b[l])
    ensures LexOrdered(names, a + b)
  {
    var c := a + b;
    forall k, l | 0 <= k < l < |c| ensures LexLess(names, c[k], c[l]) {
      if l < |a| {
        assert c[k] == a[k] && c[l] == a[l];
      } else if k >= |a| {
        assert c[k] == b[k - |a|] && c[l] == b[l - |a|];
      } else {
        assert c[k] == a[k] && c[l] == b[l - |a|];
      }
    }
  }

  /** The inner loop for name i reports entries whose first name is name i and
      whose second names come after it, in increasing position. */
  lemma {:induction false} RowRefsOrdered(names: seq<string>, info: map<string, FileSystems>, i: nat, j: nat)
    requires Keyed(names, info) && NoDuplicates(names) && i < j <= |names|
    ensures forall k :: 0 <= k < |RowRefs(names, info, i, j)| ==>
              Pos(names, RowRefs(names, info, i, j)[k].file1) == i
              && i < Pos(names, RowRefs(names, info, i, j)[k].file2) < j
    ensures LexOrdered(names, RowRefs(names, info, i, j))
    decreases j
  {
    if j > i + 1 {
      RowRefsOrdered(names, info, i, j - 1);
      var prev := RowRefs(names, info, i, j - 1);
      PosOf(names, i);
      PosOf(names, j - 1);
      if Common(info, names[i], names[j - 1]) != {} {
        var last := [RefOf(names, info, i, j - 1)];
        assert RowRefs(names, info, i, j) == prev + last;
        LexOrderedConcat(names, prev, last);
      } else {
        assert RowRefs(names, info, i, j) == prev;
      }
    }
  }

  /** Every entry's first name comes before position `bound`. */
  predicate FirstsBelow(names: seq<string>, rs: seq<CrossRef>, bound: int) {
    forall k :: 0 <= k < |rs| ==> Pos(names, rs[k].file1) < bound
  }

  /** The outer loop reports the rows of the names before i, in order. */
  lemma {:induction false} RefsBeforeOrdered(names: seq<string>, info: map<string, FileSystems>, i: nat)
    requires Keyed(names, info) && NoDuplicates(names) && i <= |names|
    ensures FirstsBelow(names, RefsBefore(names, info, i), i)
    ensures LexOrdered(names, RefsBefore(names, info, i))
  {
    if i > 0 {
      RefsBeforeOrdered(names, info, i - 1);
      RefsBeforeStep(names, info, i);
    }
  }

  /** One round of the outer loop keeps the entries ordered. */
  lemma RefsBeforeStep(names: seq<string>, info: map<string, FileSystems>, i: nat)
    requires Keyed(names, info) && NoDuplicates(names) && 0 < i <= |names|
    requires FirstsBelow(names, RefsBefore(names, info, i - 1), i - 1)
    requires LexOrdered(names, RefsBefore(names, info, i - 1))
    ensures FirstsBelow(names, RefsBefore(names, info, i), i)
    ensures LexOrdered(names, RefsBefore(names, info, i))
  {
    var prev := RefsBefore(names, info, i - 1);
    var row := RowRefs(names, info, i - 1, |names|);
    RowRefsOrdered(names, info, i - 1, |names|);
    assert RefsBefore(names, info, i) == prev + row;
    AppendRow(names, prev, row, i - 1);
  }

  /** Appending the row of name i to the entries of the earlier rows keeps
      them ordered. */
  lemma AppendRow(names: seq<string>, prev: seq<CrossRef>, row: seq<CrossRef>, i: nat)
    requires LexOrdered(names, prev) && LexOrdered(names, row)
    requires FirstsBelow(names, prev, i)
    requires forall k :: 0 <= k < |row| ==> Pos(names, row[k].file1) == i
    ensures FirstsBelow(names, prev + row, i + 1)
    ensures LexOrdered(names, prev + row)
  {
    LexOrderedConcat(names, prev, row);
    var all := prev + row;
    forall k | 0 <= k < |all| ensures Pos(names, all[k].file1) < i + 1 {
      if k < |prev| { assert all[k] == prev[k]; } else { assert all[k] == row[k - |prev|]; }
    }
  }

  lemma LexOrderedDistinct(names: seq<string>, rs: seq<CrossRef>)
    requires LexOrdered(names, rs)
    ensures NoDuplicates(rs)
  {
    forall k, l | 0 <= k < l < |rs| ensures rs[k] != rs[l] {
      assert LexLess(names, rs[k], rs[l]);
    }
  }

  lemma {:induction false} RefsBeforeSound(names: seq<string>, info: map<string, FileSystems>, i: nat)
    requires Keyed(names, info) && i <= |names|
    ensures forall r :: r in RefsBefore(names, info, i) ==> PairEntry(names, info, r)
  {
    if i > 0 {
      RefsBeforeSound(names, info, i - 1);
      RowRefsFacts(names, info, i - 1, |names|);
    }
  }

  lemma {:induction false} RefsBeforeComplete(names: seq<string>, info: map<string, FileSystems>, i: nat)
    requires Keyed(names, info) && i <= |names|
    ensures forall a, b :: 0 <= a < i && a < b < |names| && Common(info, names[a], names[b]) != {} ==>
              RefOf(names, info, a, b) in RefsBefore(names, info, i)
  {
    if i > 0 {
      RefsBeforeComplete(names, info, i - 1);
      RowRefsFacts(names, info, i - 1, |names|);
      var prev := RefsBefore(names, info, i - 1);
      var row := RowRefs(names, info, i - 1, |names|);
      assert RefsBefore(names, info, i) == prev + row;
      forall a, b | 0 <= a < i && a < b < |names| && Common(info, names[a], names[b]) != {}
        ensures RefOf(names, info, a, b) in prev + row
      {
        if a < i - 1 {
          assert RefOf(names, info, a, b) in prev;
        } else {
          assert RefOf(names, info, a, b) in row;
        }
      }
    }
  }

  /** With two files or more, the entries are exactly those for the pairs of
      distinct file names, earlier name first, that share a system; each
      records the shared systems and their number; they come in the order of
      the nested loops, by first name then second name, so each pair is
      reported once. With fewer files there is none. */
  lemma CrossRefsFacts(files: seq<FileAnalysis>)
    ensures |files| < 2 ==> CrossRefs(files) == []
    ensures |files| >= 2 ==>
              var names, info := ByFile(files).0, ByFile(files).1;
              Keyed(names, info)
              && (forall r :: r in CrossRefs(files) ==> PairEntry(names, info, r) && r.commonCount == |r.commonSystems|)
              && (forall a, b :: 0 <= a < b < |names| && Common(info, names[a], names[b]) != {} ==>
                    RefOf(names, info, a, b) in CrossRefs(files))
              && LexOrdered(names, CrossRefs(files)) && NoDuplicates(CrossRefs(files))
  {
    if |files| >= 2 {
      var (names, info) := ByFile(files);
      RefsBeforeSound(names, info, |names|);
      RefsBeforeComplete(names, info, |names|);
      ByFileNames(files);
      DedupFacts(FileNames(files));
      RefsBeforeOrdered(names, info, |names|);
      LexOrderedDistinct(names, CrossRefs(files));
    }
  }

  /** The systems of one file: the union over its pages. */
  method CollectSystems(pages: seq<Option<seq<string>>>) returns (systems: set<string>)
    ensures systems == PageSystems(pages)
  {
    systems := {};
    var p := 0;
    while p < |pages|
      invariant 0 <= p <= |pages| && systems == PageSystems(pages[..p])
    {
      assert pages[..p + 1][..p] == pages[..p];
      systems := systems + Elements(GetOr(pages[p], []));
      p := p + 1;
    }
    assert pages[..p] == pages;
  }

  /** The first loop of `_find_cross_references`, filling `systems_by_file`. */
  method SystemsByFile(files: seq<FileAnalysis>) returns (names: seq<string>, info: map<string, FileSystems>)
    ensures (names, info) == ByFile(files)
  {
    names, info := [], map[];
    var i := 0;
    while i < |files|
      invariant 0 <= i <= |files| && (names, info) == ByFile(files[..i])
    {
      assert files[..i + 1][..i] == files[..i];
      var f := files[i];
      var systems := CollectSystems(f.pageSystems);
      if f.fileName !in info {
        names := names + [f.fileName];
      }
      info := info[f.fileName := FileSystems(i, systems, f.fileType)];
      i := i + 1;
    }
    assert files[..i] == files;
  }

  /** The inner loop of `_find_cross_references`: name i against every later name. */
  method PairRow(names: seq<string>, info: map<string, FileSystems>, i: nat, refs: seq<CrossRef>)
    returns (refs': seq<CrossRef>)
    requires Keyed(names, info) && i < |names|
    ensures refs' == refs + RowRefs(names, info, i, |names|)
  {
    refs' := refs;
    var j := i + 1;
    while j < |names|
      invariant i + 1 <= j <= |names| && refs' == refs + RowRefs(names, info, i, j)
    {
      var common := info[names[i]].systems * info[names[j]].systems;
      if common != {} {
        refs' := refs' + [CrossRef(names[i], names[j], info[names[i]].fileType, info[names[j]].fileType,
                                   common, |common|)];
      }
      j := j + 1;
    }
  }

  /** `_find_cross_references`. */
  method FindCrossReferences(files: seq<FileAnalysis>) returns (refs: seq<CrossRef>)
    ensures refs == CrossRefs(files)
  {
    refs := [];
    if |files| < 2 {
      return;
    }
    var names, info := SystemsByFile(files);
    assert Keyed(names, info);
    var i := 0;
    while i < |names|
      invariant 0 <= i <= |names| && refs == RefsBefore(names, info, i)
    {
      refs := PairRow(names, info, i, refs);
      i := i + 1;
    }
  }

  // ---------------------------------------------------------------- metadata

  /** One regular-expression match: either its pattern has no groups, or the
      text of group 1. */
  datatype Match = NoGroups | Group1(value: string)

  /** The value collected for one field: a list for fields whose name ends in
      `s`, a single string otherwise. */
  datatype FieldValue = Many(items: seq<string>) | One(value: string)

  predicate Plural(field: string) { EndsWith(field, "s") }

  /** The value a field starts with before any pattern has been tried. */
  function Initial(field: string): (v: FieldValue)
    ensures v.Many? <==> Plural(field)
    ensures v.Many? ==> v.items == []
    ensures v.One? ==> v.value == ""
  {
    if Plural(field) then Many([]) else One("")
  }

  /** What one match contributes: its stripped group 1, when non-empty. */
  function MatchValue(m: Match): (r: seq<string>)
    ensures |r| <= 1 && (r != [] ==> r[0] != "" && IsStripped(r[0]))
  {
    if m.Group1? && Strip(m.value) != "" then [Strip(m.value)] else []
  }

  /** The values captured by a sequence of matches, in match order. */
  function Captured(ms: seq<Match>): (r: seq<string>)
    ensures forall k :: 0 <= k < |r| ==> r[k] != ""
  {
    if ms == [] then [] else Captured(ms[..|ms| - 1]) + MatchValue(Last(ms))
  }

  /** The values one pattern captures; a pattern the engine rejects (`None`)
      contributes nothing. */
  function Accepted(finditer: (string, string) -> Option<seq<Match>>, pattern: string, text: string)
    : (r: seq<string>)
    ensures forall k :: 0 <= k < |r| ==> r[k] != ""
  {
    match finditer(pattern, text)
    case None => []
    case Some(ms) => Captured(ms)
  }

  /** The values captured by every pattern of a field in turn. */
  function PatternValues(patterns: seq<string>, text: string, finditer: (string, string) -> Option<seq<Match>>)
    : (r: seq<string>)
    ensures forall k :: 0 <= k < |r| ==> r[k] != ""
  {
    if patterns == [] then []
    else PatternValues(patterns[..|patterns| - 1], text, finditer) + Accepted(finditer, Last(patterns), text)
  }

  /** A field's final value given all its captured values. */
  function FieldResult(field: string, vs: seq<string>): FieldValue {
    if Plural(field) then Many(Dedup(vs)) else One(if vs == [] then "" else vs[0])
  }

  /** `_parse_metadata_from_text` as a function: the engine is `finditer` and
      Unicode normalisation is `normalize`. */
  function Metadata(fieldPatterns: map<string, seq<string>>, text: string, normalize: string -> string,
                    finditer: (string, string) -> Option<seq<Match>>): map<string, FieldValue>
  {
    map f | f in fieldPatterns :: FieldResult(f, PatternValues(fieldPatterns[f], normalize(text), finditer))
  }

  /** Match m carries x in group 1, up to surrounding whitespace. */
  predicate CarriedBy(m: Match, x: string) { m.Group1? && Strip(m.value) == x }

  /** Every captured value is carried by one of the matches. */
  lemma {:induction false} CapturedSound(ms: seq<Match>, x: string) returns (k: nat)
    requires x in Captured(ms)
    ensures k < |ms| && CarriedBy(ms[k], x) && x != ""
  {
    var init := ms[..|ms| - 1];
    assert Captured(ms) == Captured(init) + MatchValue(ms[|ms| - 1]);
    if x in Captured(init) {
      k := CapturedSound(init, x);
      assert init[k] == ms[k];
    } else {
      k := |ms| - 1;
    }
  }

  /** Every non-empty value a match carries is captured. */
  lemma {:induction false} CapturedComplete(ms: seq<Match>, k: nat, x: string)
    requires k < |ms| && CarriedBy(ms[k], x) && x != ""
    ensures x in Captured(ms)
  {
    var init := ms[..|ms| - 1];
    assert Captured(ms) == Captured(init) + MatchValue(ms[|ms| - 1]);
    if k < |init| {
      assert init[k] == ms[k];
      CapturedComplete(init, k, x);
    } else {
      assert x in MatchValue(ms[|ms| - 1]);
    }
  }

  /** Matches of a pattern without groups contribute nothing. */
  lemma {:induction false} CapturedNoGroups(ms: seq<Match>)
    requires forall k :: 0 <= k < |ms| ==> ms[k].NoGroups?
    ensures Captured(ms) == []
  {
    if ms != [] {
      CapturedNoGroups(ms[..|ms| - 1]);
      assert Last(ms) == ms[|ms| - 1];
    }
  }

  /** Every value of a field comes from one of its patterns. */
  lemma {:induction false} PatternValuesSound(patterns: seq<string>, text: string,
                                              finditer: (string, string) -> Option<seq<Match>>, x: string)
    returns (p: nat)
    requires x in PatternValues(patterns, text, finditer)
    ensures p < |patterns| && x in Accepted(finditer, patterns[p], text)
  {
    var init := patterns[..|patterns| - 1];
    assert PatternValues(patterns, text, finditer)
        == PatternValues(init, text, finditer) + Accepted(finditer, patterns[|patterns| - 1], text);
    if x in PatternValues(init, text, finditer) {
      p := PatternValuesSound(init, text, finditer, x);
      assert init[p] == patterns[p];
    } else {
      p := |patterns| - 1;
    }
  }

  /** Every value a pattern of the field captures reaches the field. */
  lemma {:induction false} PatternValuesComplete(patterns: seq<string>, text: string,
                                                 finditer: (string, string) -> Option<seq<Match>>, p: nat, x: string)
    requires p < |patterns| && x in Accepted(finditer, patterns[p], text)
    ensures x in PatternValues(patterns, text, finditer)
  {
    var init := patterns[..|patterns| - 1];
    var before, last := PatternValues(init, text, finditer), Accepted(finditer, Last(patterns), text);
    assert PatternValues(patterns, text, finditer) == before + last;
    if p < |init| {
      assert init[p] == patterns[p];
      PatternValuesComplete(init, text, finditer, p, x);
      assert x in before;
    } else {
      assert x in last;
    }
  }

  /** A plural field holds every captured value once, in first-seen order; a
      singular field holds the first captured value, or `""` when nothing was
      captured. */
  lemma FieldResultFacts(field: string, vs: seq<string>)
    requires forall k :: 0 <= k < |vs| ==> vs[k] != ""
    ensures FieldResult(field, vs).Many? <==> Plural(field)
    ensures Plural(field) ==>
      var items := FieldResult(field, vs).items;
      NoDuplicates(items) && (forall x :: x in items <==> x in vs) &&
      forall k, l :: 0 <= k < l < |items| ==> FirstIndex(vs, items[k]) < FirstIndex(vs, items[l])
    ensures !Plural(field) ==>
      (FieldResult(field, vs).value == "" <==> vs == []) &&
      (vs != [] ==> FirstIndex(vs, FieldResult(field, vs).value) == 0)
  {
    DedupFacts(vs);
  }

  /** The parsed metadata has one entry per configured field. */
  lemma MetadataFields(fieldPatterns: map<string, seq<string>>, text: string, normalize: string -> string,
                       finditer: (string, string) -> Option<seq<Match>>)
    ensures Metadata(fieldPatterns, text, normalize, finditer).Keys == fieldPatterns.Keys
  {
  }

  lemma CapturedStep(vs: seq<string>, ms: seq<Match>, i: nat)
    requires i < |ms|
    ensures vs + Captured(ms[..i + 1]) == (vs + Captured(ms[..i])) + MatchValue(ms[i])
  {
    assert ms[..i + 1][..i] == ms[..i];
  }

  /** The innermost step of `_parse_metadata_from_text`: one match. */
  method AbsorbMatch(field: string, ghost vs: seq<string>, v: FieldValue, m: Match) returns (v': FieldValue)
    requires forall k :: 0 <= k < |vs| ==> vs[k] != ""
    requires v == FieldResult(field, vs)
    ensures v' == FieldResult(field, vs + MatchValue(m))
  {
    v' := v;
    assert vs + [] == vs;
    if m.Group1? {
      var value := Strip(m.value);
      if value != "" {
        assert (vs + [value])[..|vs|] == vs;
        if Plural(field) {
          if value !in v.items {
            v' := Many(v.items + [value]);
          }
        } else if v.value == "" {
          v' := One(value);
        }
      }
    }
  }

  /** The loop over the matches of one pattern. */
  method AbsorbMatches(field: string, ghost vs: seq<string>, v: FieldValue, ms: seq<Match>) returns (v': FieldValue)
    requires forall k :: 0 <= k < |vs| ==> vs[k] != ""
    requires v == FieldResult(field, vs)
    ensures v' == FieldResult(field, vs + Captured(ms))
  {
    v' := v;
    assert vs + Captured(ms[..0]) == vs;
    var i := 0;
    while i < |ms|
      invariant 0 <= i <= |ms| && v' == FieldResult(field, vs + Captured(ms[..i]))
    {
      CapturedStep(vs, ms, i);
      v' := AbsorbMatch(field, vs + Captured(ms[..i]), v', ms[i]);
      i := i + 1;
    }
    assert ms[..i] == ms;
  }

  /** The loop over the patterns of one field. */
  method CollectField(field: string, patterns: seq<string>, text: string,
                      finditer: (string, string) -> Option<seq<Match>>) returns (v: FieldValue)
    ensures v == FieldResult(field, PatternValues(patterns, text, finditer))
  {
    v := Initial(field);
    assert PatternValues(patterns[..0], text, finditer) == [];
    var p := 0;
    while p < |patterns|
      invariant 0 <= p <= |patterns| && v == FieldResult(field, PatternValues(patterns[..p], text, finditer))
    {
      assert patterns[..p + 1][..p] == patterns[..p];
      assert PatternValues(patterns[..p + 1], text, finditer)
          == PatternValues(patterns[..p], text, finditer) + Accepted(finditer, patterns[p], text);
      var found := finditer(patterns[p], text);
      if found.Some? {
        v := AbsorbMatches(field, PatternValues(patterns[..p], text, finditer), v, found.value);
      } else {
        assert PatternValues(patterns[..p], text, finditer) + [] == PatternValues(patterns[..p], text, finditer);
      }
      p := p + 1;
    }
    assert patterns[..p] == patterns;
  }

  /** `_parse_metadata_from_text`. */
  method ParseMetadata(fieldPatterns: map<string, seq<string>>, text: string, normalize: string -> string,
                       finditer: (string, string) -> Option<seq<Match>>) returns (metadata: map<string, FieldValue>)
    ensures metadata == Metadata(fieldPatterns, text, normalize, finditer)
  {
    metadata := map f | f in fieldPatterns :: Initial(f);
    var normalized := normalize(text);
    var rest := fieldPatterns.Keys;
    while rest != {}
      invariant rest <= fieldPatterns.Keys && metadata.Keys == fieldPatterns.Keys
      invariant forall f :: f in fieldPatterns && f !in rest ==>
        metadata[f] == FieldResult(f, PatternValues(fieldPatterns[f], normalized, finditer))
      decreases rest
    {
      var f :| f in rest;
      var v := CollectField(f, fieldPatterns[f], normalized, finditer);
      metadata := metadata[f := v];
      rest := rest - {f};
    }
  }
}
