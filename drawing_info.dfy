// The keyword analysis of an engineering drawing's text blocks: the section
// counters of `analyze_drawing_structure`, the grouping of texts into sections
// and the field extraction from the title block.

module DrawingInfo {
  import opened Text
  import opened Drawing
  import Analyzer

  // ---------------------------------------------------------------- keywords

  const SpecificationWords: seq<string> := ["спецификация", "specification", "поз.", "обозначение"]
  const NotesWords: seq<string> := ["примечание", "notes", "указание", "требования"]
  const DimensionWords: seq<string> := ["размеры", "габариты", "dimensions", "размер"]
  const MaterialWords: seq<string> := ["материал", "материалы", "material", "сталь", "марка"]
  const RevisionWords: seq<string> := ["изменения", "исправления", "revision", "изм."]

  /** `any(keyword in text_lower for keyword in words)`. */
  predicate HasWord(textLower: string, words: seq<string>) {
    exists k :: 0 <= k < |words| && Contains(textLower, words[k])
  }

  // ---------------------------------------------------------------- structure counters

  /** One `{'found': ..., 'blocks': ...}` entry of the structure. */
  datatype Counter = Counter(found: bool, blocks: nat)

  datatype PageSize = PageSize(width: real, height: real, format: string)

  /** The structure dictionary; its constant `area` entries and empty
      `sections` list are not represented. */
  datatype Structure = Structure(
    titleBlock: Counter, specifications: Counter, dimensions: Counter, notes: Counter,
    revisions: Counter, pageSize: Option<PageSize>)

  /** The four keyword tests of the counting loop, and the title-block test
      as written, which takes each pattern as a literal substring. */
  datatype Probe = TitleProbe | SpecificationProbe | DimensionProbe | NotesProbe | LiteralTitleProbe

  predicate Hits(probe: Probe, textLower: string) {
    match probe
    case TitleProbe => TitleKeyword(textLower)
    case SpecificationProbe => HasWord(textLower, SpecificationWords)
    case DimensionProbe => HasWord(textLower, DimensionWords)
    case NotesProbe => HasWord(textLower, NotesWords)
    case LiteralTitleProbe => LiteralTitleKeyword(textLower)
  }

  /** How many blocks the probe's keywords hit. */
  function Count(blocks: seq<TextBlock>, probe: Probe): nat {
    if blocks == [] then 0
    else Count(blocks[..|blocks| - 1], probe) + if Hits(probe, Lower(Last(blocks).text)) then 1 else 0
  }

  /** The set of positions of the blocks a probe hits. */
  function HitPositions(blocks: seq<TextBlock>, probe: Probe): set<nat> {
    set i: nat | i < |blocks| && Hits(probe, Lower(blocks[i].text))
  }

  /** Each counter is the number of blocks its keywords hit. */
  lemma {:induction false} CountIsHits(blocks: seq<TextBlock>, probe: Probe)
    ensures Count(blocks, probe) == |HitPositions(blocks, probe)|
  {
    if blocks != [] {
      var n := |blocks| - 1;
      var init := blocks[..n];
      CountIsHits(init, probe);
      var before, after := HitPositions(init, probe), HitPositions(blocks, probe);
      var hit := Hits(probe, Lower(blocks[n].text));
      forall i: nat ensures i in after <==> i in before || (hit && i == n) {
        if i < n {
          assert init[i] == blocks[i];
        }
      }
      if hit {
        assert after == before + {n};
      } else {
        assert after == before;
      }
    }
  }

  /** A counter is positive exactly when some block is hit. */
  lemma CountPositive(blocks: seq<TextBlock>, probe: Probe)
    ensures Count(blocks, probe) > 0 <==> exists i :: 0 <= i < |blocks| && Hits(probe, Lower(blocks[i].text))
  {
    CountIsHits(blocks, probe);
    if exists i :: 0 <= i < |blocks| && Hits(probe, Lower(blocks[i].text)) {
      var i :| 0 <= i < |blocks| && Hits(probe, Lower(blocks[i].text));
      assert i in HitPositions(blocks, probe);
    }
  }

  /** The title-block counter as written counts a stamp reading
      "основная надпись" zero times; searching with the patterns, as the
      structure here does, counts it once. */
  lemma LiteralTitleCountMisses()
    ensures Count([TextBlock("основная надпись", 0.0, 0.0, 1.0, 1.0, 1)], LiteralTitleProbe) == 0
    ensures Count([TextBlock("основная надпись", 0.0, 0.0, 1.0, 1.0, 1)], TitleProbe) == 1
  {
    var b := TextBlock("основная надпись", 0.0, 0.0, 1.0, 1.0, 1);
    StampLowered();
    CountSingle(b, LiteralTitleProbe);
    CountSingle(b, TitleProbe);
    LiteralKeywordMissesTitle();
  }

  lemma CountSingle(b: TextBlock, probe: Probe)
    ensures Count([b], probe) == if Hits(probe, Lower(b.text)) then 1 else 0
  {
    assert [b][..0] == [];
  }

  lemma StampLowered()
    ensures Lower("основная надпись") == "основная надпись"
  {
    var t := "основная надпись";
    assert forall i :: 0 <= i < |t| ==> t[i] == ' ' || 'а' <= t[i] <= 'я';
    LowerOfLower(t);
  }

  /** Lower-case Cyrillic letters and spaces are left alone by `lower()`. */
  lemma LowerOfLower(t: string)
    requires forall i :: 0 <= i < |t| ==> t[i] == ' ' || 'а' <= t[i] <= 'я'
    ensures Lower(t) == t
  {
    var r := Lower(t);
    forall i | 0 <= i < |t| ensures r[i] == t[i] {
    }
  }

  function CounterOf(n: nat): Counter { Counter(n > 0, n) }

  /** `_detect_page_format`, sizes in points. */
  function FormatName(width: real, height: real): string {
    if width > 800.0 && height > 1100.0 then "A3 или больше"
    else if width > 550.0 && height > 800.0 then "A4"
    else "Неизвестный формат"
  }

  /** The formats are ordered by size: a larger page never gets a smaller name. */
  lemma FormatNameMonotone(w: real, h: real, w': real, h': real)
    requires w <= w' && h <= h'
    ensures FormatName(w, h) == "A3 или больше" ==> FormatName(w', h') == "A3 или больше"
    ensures FormatName(w, h) == "A4" ==> FormatName(w', h') in {"A4", "A3 или больше"}
  {
  }

  /** `analyze_drawing_structure`. */
  function StructureOf(blocks: seq<TextBlock>): Structure {
    Structure(
      CounterOf(Count(blocks, TitleProbe)), CounterOf(Count(blocks, SpecificationProbe)),
      CounterOf(Count(blocks, DimensionProbe)), CounterOf(Count(blocks, NotesProbe)),
      Counter(false, 0),
      if blocks == [] then None
      else Some(PageSize(MaxX1(blocks), MaxY1(blocks), FormatName(MaxX1(blocks), MaxY1(blocks)))))
  }

  /** `found` is set and `blocks` incremented for a hit. */
  method Bump(c: Counter, hit: bool) returns (c': Counter)
    ensures c' == if hit then Counter(true, c.blocks + 1) else c
  {
    c' := c;
    if hit {
      c' := c'.(found := true);
      c' := c'.(blocks := c'.blocks + 1);
    }
  }

  method AnalyzeDrawingStructure(blocks: seq<TextBlock>) returns (s: Structure)
    ensures s == StructureOf(blocks)
  {
    var title, specs, dims, notes := Counter(false, 0), Counter(false, 0), Counter(false, 0), Counter(false, 0);
    var i := 0;
    while i < |blocks|
      invariant 0 <= i <= |blocks|
      invariant title == CounterOf(Count(blocks[..i], TitleProbe))
      invariant specs == CounterOf(Count(blocks[..i], SpecificationProbe))
      invariant dims == CounterOf(Count(blocks[..i], DimensionProbe))
      invariant notes == CounterOf(Count(blocks[..i], NotesProbe))
    {
      assert blocks[..i + 1][..i] == blocks[..i] && Last(blocks[..i + 1]) == blocks[i];
      var textLower := Lower(blocks[i].text);
      title := Bump(title, TitleKeyword(textLower));
      specs := Bump(specs, HasWord(textLower, SpecificationWords));
      dims := Bump(dims, HasWord(textLower, DimensionWords));
      notes := Bump(notes, HasWord(textLower, NotesWords));
      i := i + 1;
    }
    assert blocks[..i] == blocks;
    var pageSize: Option<PageSize> := None;
    if blocks != [] {
      var pageWidth, pageHeight := MaxX1(blocks), MaxY1(blocks);
      pageSize := Some(PageSize(pageWidth, pageHeight, FormatName(pageWidth, pageHeight)));
    }
    s := Structure(title, specs, dims, notes, Counter(false, 0), pageSize);
  }

  /** What the structure says about its counters and its page size. */
  lemma StructureFacts(blocks: seq<TextBlock>)
    ensures var s := StructureOf(blocks);
      s.titleBlock.blocks == |HitPositions(blocks, TitleProbe)|
      && s.specifications.blocks == |HitPositions(blocks, SpecificationProbe)|
      && s.dimensions.blocks == |HitPositions(blocks, DimensionProbe)|
      && s.notes.blocks == |HitPositions(blocks, NotesProbe)|
      && (s.titleBlock.found <==> exists i :: 0 <= i < |blocks| && TitleKeyword(Lower(blocks[i].text)))
      && (s.specifications.found <==> exists i :: 0 <= i < |blocks| && HasWord(Lower(blocks[i].text), SpecificationWords))
      && (s.dimensions.found <==> exists i :: 0 <= i < |blocks| && HasWord(Lower(blocks[i].text), DimensionWords))
      && (s.notes.found <==> exists i :: 0 <= i < |blocks| && HasWord(Lower(blocks[i].text), NotesWords))
      && !s.revisions.found
      && (s.pageSize.Some? <==> blocks != [])
  {
    CountIsHits(blocks, TitleProbe);
    CountIsHits(blocks, SpecificationProbe);
    CountIsHits(blocks, DimensionProbe);
    CountIsHits(blocks, NotesProbe);
    CountPositive(blocks, TitleProbe);
    CountPositive(blocks, SpecificationProbe);
    CountPositive(blocks, DimensionProbe);
    CountPositive(blocks, NotesProbe);
  }

  /** The page size is that of the blocks' hull: no block reaches past it and
      some block reaches each edge. */
  lemma PageSizeHull(blocks: seq<TextBlock>)
    requires blocks != []
    ensures StructureOf(blocks).pageSize.Some?
    ensures forall k :: 0 <= k < |blocks| ==>
      blocks[k].x1 <= StructureOf(blocks).pageSize.value.width && blocks[k].y1 <= StructureOf(blocks).pageSize.value.height
    ensures exists k :: 0 <= k < |blocks| && blocks[k].x1 == StructureOf(blocks).pageSize.value.width
    ensures exists k :: 0 <= k < |blocks| && blocks[k].y1 == StructureOf(blocks).pageSize.value.height
  {
  }

  // ---------------------------------------------------------------- sections

  datatype Section = Specifications | Notes | Materials | Dimensions | Revisions | Other

  const AllSections: set<Section> := {Specifications, Notes, Materials, Dimensions, Revisions, Other}

  /** The `if`/`elif` chain of `_group_text_by_sections`. */
  function Classify(textLower: string): Section {
    if HasWord(textLower, SpecificationWords) then Specifications
    else if HasWord(textLower, NotesWords) then Notes
    else if HasWord(textLower, MaterialWords) then Materials
    else if HasWord(textLower, DimensionWords) then Dimensions
    else if HasWord(textLower, RevisionWords) then Revisions
    else Other
  }

  /** The texts filed under section s, in block order. */
  function InSection(blocks: seq<TextBlock>, s: Section): seq<string> {
    if blocks == [] then []
    else
      InSection(blocks[..|blocks| - 1], s)
      + if Classify(Lower(Last(blocks).text)) == s then [Last(blocks).text] else []
  }

  /** The dictionary returned: only sections that received a text. */
  function SectionMap(blocks: seq<TextBlock>): map<Section, seq<string>> {
    map s | s in AllSections && InSection(blocks, s) != [] :: InSection(blocks, s)
  }

  /** A text is filed under s exactly when it is a block's text classified as s. */
  lemma {:induction false} InSectionMembers(blocks: seq<TextBlock>, s: Section)
    ensures forall x :: x in InSection(blocks, s) <==> x in Texts(blocks) && Classify(Lower(x)) == s
  {
    if blocks != [] {
      var init := blocks[..|blocks| - 1];
      InSectionMembers(init, s);
      assert Texts(blocks) == Texts(init) + [Last(blocks).text];
    }
  }

  /** Every block is filed exactly once: the sections' sizes add up to the
      number of blocks. */
  lemma {:induction false} SectionsPartition(blocks: seq<TextBlock>)
    ensures |InSection(blocks, Specifications)| + |InSection(blocks, Notes)| + |InSection(blocks, Materials)|
      + |InSection(blocks, Dimensions)| + |InSection(blocks, Revisions)| + |InSection(blocks, Other)| == |blocks|
  {
    if blocks != [] {
      SectionsPartition(blocks[..|blocks| - 1]);
    }
  }

  lemma InSectionSnoc(blocks: seq<TextBlock>, i: nat, s: Section)
    requires i < |blocks|
    ensures InSection(blocks[..i + 1], s)
      == InSection(blocks[..i], s) + if Classify(Lower(blocks[i].text)) == s then [blocks[i].text] else []
  {
    assert blocks[..i + 1][..i] == blocks[..i];
  }

  /** The grouping loop's state after the first i blocks. */
  ghost predicate SectionsUpTo(blocks: seq<TextBlock>, i: nat, sections: map<Section, seq<string>>) {
    i <= |blocks|
    && (forall s :: s in sections <==> InSection(blocks[..i], s) != [])
    && forall s :: s in sections ==> sections[s] == InSection(blocks[..i], s)
  }

  /** One round of `sections[...].append(text)`. */
  method FileText(blocks: seq<TextBlock>, i: nat, sections: map<Section, seq<string>>)
    returns (sections': map<Section, seq<string>>)
    requires i < |blocks| && SectionsUpTo(blocks, i, sections)
    ensures SectionsUpTo(blocks, i + 1, sections')
  {
    var text := blocks[i].text;
    var s := Classify(Lower(text));
    if s in sections {
      sections' := sections[s := sections[s] + [text]];
    } else {
      sections' := sections[s := [text]];
    }
    forall q ensures InSection(blocks[..i + 1], q) == InSection(blocks[..i], q) + if s == q then [text] else [] {
      InSectionSnoc(blocks, i, q);
    }
  }

  /** `_group_text_by_sections`. */
  method GroupTextBySections(blocks: seq<TextBlock>) returns (sections: map<Section, seq<string>>)
    ensures sections == SectionMap(blocks)
  {
    sections := map[];
    var i := 0;
    assert blocks[..0] == [];
    while i < |blocks|
      invariant SectionsUpTo(blocks, i, sections)
    {
      sections := FileText(blocks, i, sections);
      i := i + 1;
    }
    assert blocks[..i] == blocks;
    forall s ensures s in AllSections {
      match s
      case Specifications =>
      case Notes =>
      case Materials =>
      case Dimensions =>
      case Revisions =>
      case Other =>
    }
  }

  // ---------------------------------------------------------------- structured information

  /** `re.finditer(pattern, text, re.IGNORECASE)`, as an oracle. */
  type Finditer = (string, string) -> seq<Analyzer.Match>

  /** `re.findall(pattern, text, re.IGNORECASE)`, as an oracle. */
  type Findall = (string, string) -> seq<string>

  const ObjectNamePatterns: seq<string> :=
    [@"(?:наименование\s+)?объекта?[\s:]*([^\n]+)", @"объект\s*[№#]?\s*\d*[\s:-]*([^\n]+)", @"(?i)объект[:]?\s*(.+)"]
  const DrawingNamePatterns: seq<string> :=
    [@"наименование\s*(?:чертежа)?[\s:]*([^\n]+)", @"название\s*(?:чертежа)?[\s:]*([^\n]+)",
     @"чертеж[^\n]*([^\n]+)", @"drawing\s*name[\s:]*([^\n]+)"]
  const DrawingNumberPatterns: seq<string> :=
    [@"[№#n]\s*[\w\.\-/]+", @"чертеж\s*[№#]?\s*([\w\.\-/]+)", @"код\s*[\w\.\-/]+",
     @"номер\s*чертежа[\s:]*([\w\.\-/]+)"]
  const DeveloperPatterns: seq<string> :=
    [@"разраб\.?\s*[:]?\s*([^\n]+)", @"разработчик\s*[:]?\s*([^\n]+)", @"автор\s*[:]?\s*([^\n]+)",
     @"designed\s*by\s*[:]?\s*([^\n]+)", @"исполнитель\s*[:]?\s*([^\n]+)"]
  const CheckerPatterns: seq<string> :=
    [@"пров\.?\s*[:]?\s*([^\n]+)", @"проверил\s*[:]?\s*([^\n]+)", @"контрол[ьё]р\s*[:]?\s*([^\n]+)",
     @"checked\s*by\s*[:]?\s*([^\n]+)"]
  const ScalePatterns: seq<string> := [@"масштаб\s*[:]?\s*([\d\.:\s]+)", @"scale\s*[:]?\s*([\d\.:\s]+)"]
  const SheetPatterns: seq<string> :=
    [@"лист\s*[:]?\s*(\d+\s*[из]+\s*\d+)", @"листов\s*[:]?\s*(\d+)", @"sheet\s*[:]?\s*(\d+\s*of\s*\d+)"]
  const MaterialPatterns: seq<string> := [@"ст\.\s*[А-Я0-9]+", @"ГОСТ\s*\d+", @"материал\s*[:]?\s*([^\n]+)"]

  /** The dictionary `extract_structured_info` returns. */
  datatype StructuredInfo = StructuredInfo(
    objectName: Option<string>, drawingName: Option<string>, drawingNumber: Option<string>,
    developers: set<string>, checkers: set<string>, scale: Option<string>, sheetInfo: Option<string>,
    revisions: seq<string>, materials: seq<string>, rawText: string)

  /** `match.group(1).strip()` of every match that has a group, in order. */
  function GroupValues(ms: seq<Analyzer.Match>): seq<string> {
    if ms == [] then []
    else GroupValues(ms[..|ms| - 1]) + if Last(ms).Group1? then [Strip(Last(ms).value)] else []
  }

  /** The values of all of a field's patterns, pattern by pattern. */
  function FieldValues(patterns: seq<string>, text: string, finditer: Finditer): seq<string> {
    if patterns == [] then []
    else FieldValues(patterns[..|patterns| - 1], text, finditer) + GroupValues(finditer(Last(patterns), text))
  }

  /** A scalar field: each value is stored while the field is still falsy
      (`None` or the empty string). */
  function FirstTruthy(vs: seq<string>): Option<string> {
    if vs == [] then None
    else
      var before := FirstTruthy(vs[..|vs| - 1]);
      if before == None || before == Some("") then Some(Last(vs)) else before
  }

  predicate EmptyBefore(vs: seq<string>, k: int)
    requires k <= |vs|
  {
    forall m :: 0 <= m < k ==> vs[m] == ""
  }

  /** A scalar field is unset only when nothing was captured; otherwise it is
      the first non-empty value, or the empty string when every value was
      empty. */
  lemma {:induction false} FirstTruthyFacts(vs: seq<string>)
    ensures FirstTruthy(vs) == None <==> vs == []
    ensures forall k :: 0 <= k < |vs| && vs[k] != "" && EmptyBefore(vs, k) ==> FirstTruthy(vs) == Some(vs[k])
    ensures vs != [] && EmptyBefore(vs, |vs|) ==> FirstTruthy(vs) == Some("")
  {
    if vs != [] {
      var init := vs[..|vs| - 1];
      FirstTruthyFacts(init);
      forall k | 0 <= k < |vs| && vs[k] != "" && EmptyBefore(vs, k) ensures FirstTruthy(vs) == Some(vs[k]) {
        assert EmptyBefore(init, if k < |init| then k else |init|) by {
          forall m | 0 <= m < k && m < |init| ensures init[m] == "" {
            assert init[m] == vs[m];
          }
        }
        if k < |init| {
          assert init[k] == vs[k];
        }
      }
      if EmptyBefore(vs, |vs|) {
        assert EmptyBefore(init, |init|) by {
          forall m | 0 <= m < |init| ensures init[m] == "" {
            assert init[m] == vs[m];
          }
        }
      }
    }
  }

  lemma FirstTruthySnoc(vs: seq<string>, x: string)
    ensures FirstTruthy(vs + [x]) == if FirstTruthy(vs) == None || FirstTruthy(vs) == Some("") then Some(x) else FirstTruthy(vs)
  {
    assert (vs + [x])[..|vs|] == vs;
  }

  /** Matches without a group contribute nothing. */
  lemma {:induction false} NoGroupsNothing(ms: seq<Analyzer.Match>)
    requires forall k :: 0 <= k < |ms| ==> ms[k].NoGroups?
    ensures GroupValues(ms) == []
  {
    if ms != [] {
      NoGroupsNothing(ms[..|ms| - 1]);
    }
  }

  /** Every value comes from a match with a group. */
  lemma {:induction false} GroupValuesSound(ms: seq<Analyzer.Match>, x: string) returns (k: nat)
    requires x in GroupValues(ms)
    ensures k < |ms| && ms[k].Group1? && Strip(ms[k].value) == x
  {
    var init := ms[..|ms| - 1];
    if x in GroupValues(init) {
      k := GroupValuesSound(init, x);
    } else {
      k := |ms| - 1;
    }
  }

  /** Every match with a group contributes its value. */
  lemma {:induction false} GroupValuesComplete(ms: seq<Analyzer.Match>, k: nat)
    requires k < |ms| && ms[k].Group1?
    ensures Strip(ms[k].value) in GroupValues(ms)
  {
    var init := ms[..|ms| - 1];
    if k < |init| {
      assert init[k] == ms[k];
      GroupValuesComplete(init, k);
    }
  }

  /** Every value of a field comes from a match of one of its patterns. */
  lemma {:induction false} FieldValuesSound(patterns: seq<string>, text: string, finditer: Finditer, x: string)
    returns (p: nat, k: nat)
    requires x in FieldValues(patterns, text, finditer)
    ensures p < |patterns| && k < |finditer(patterns[p], text)|
    ensures finditer(patterns[p], text)[k].Group1? && Strip(finditer(patterns[p], text)[k].value) == x
  {
    var init := patterns[..|patterns| - 1];
    if x in FieldValues(init, text, finditer) {
      p, k := FieldValuesSound(init, text, finditer, x);
      assert init[p] == patterns[p];
    } else {
      p := |patterns| - 1;
      k := GroupValuesSound(finditer(Last(patterns), text), x);
    }
  }

  /** Every match with a group, of any of a field's patterns, contributes. */
  lemma {:induction false} FieldValuesComplete(patterns: seq<string>, text: string, finditer: Finditer, p: nat, k: nat)
    requires p < |patterns| && k < |finditer(patterns[p], text)| && finditer(patterns[p], text)[k].Group1?
    ensures Strip(finditer(patterns[p], text)[k].value) in FieldValues(patterns, text, finditer)
  {
    var init := patterns[..|patterns| - 1];
    if p < |init| {
      assert init[p] == patterns[p];
      FieldValuesComplete(init, text, finditer, p, k);
    } else {
      GroupValuesComplete(finditer(patterns[p], text), k);
    }
  }

  /** `re.findall` with each material pattern over one block's text. */
  function PatternMatches(patterns: seq<string>, text: string, findall: Findall): seq<string> {
    if patterns == [] then []
    else PatternMatches(patterns[..|patterns| - 1], text, findall) + findall(Last(patterns), text)
  }

  /** `_extract_specifications`: the materials of every block, block by block. */
  function MaterialsOf(blocks: seq<TextBlock>, findall: Findall): seq<string> {
    if blocks == [] then []
    else MaterialsOf(blocks[..|blocks| - 1], findall) + PatternMatches(MaterialPatterns, Last(blocks).text, findall)
  }

  /** The materials of two runs of blocks are those of each, concatenated. */
  lemma {:induction false} MaterialsOfConcat(a: seq<TextBlock>, b: seq<TextBlock>, findall: Findall)
    ensures MaterialsOf(a + b, findall) == MaterialsOf(a, findall) + MaterialsOf(b, findall)
  {
    if b == [] {
      assert a + b == a;
    } else {
      var init := b[..|b| - 1];
      MaterialsOfConcat(a, init, findall);
      assert (a + b)[..|a + b| - 1] == a + init;
      ConcatAssoc(MaterialsOf(a, findall), MaterialsOf(init, findall), PatternMatches(MaterialPatterns, Last(b).text, findall));
    }
  }

  function ToSet(vs: seq<string>): set<string> {
    set v | v in vs
  }

  /** `"\n".join(block.text for block in title_blocks)`. */
  function RawText(titleBlocks: seq<TextBlock>): string {
    Join("\n", Texts(titleBlocks))
  }

  /** `extract_structured_info` over the title blocks. */
  function StructuredInfoOf(titleBlocks: seq<TextBlock>, finditer: Finditer, findall: Findall): StructuredInfo {
    var fullText := RawText(titleBlocks);
    StructuredInfo(
      FirstTruthy(FieldValues(ObjectNamePatterns, fullText, finditer)),
      FirstTruthy(FieldValues(DrawingNamePatterns, fullText, finditer)),
      FirstTruthy(FieldValues(DrawingNumberPatterns, fullText, finditer)),
      ToSet(FieldValues(DeveloperPatterns, fullText, finditer)),
      ToSet(FieldValues(CheckerPatterns, fullText, finditer)),
      FirstTruthy(FieldValues(ScalePatterns, fullText, finditer)),
      FirstTruthy(FieldValues(SheetPatterns, fullText, finditer)),
      [], MaterialsOf(titleBlocks, findall), fullText)
  }

  /** Match k of pattern p has a group whose stripped value is x. */
  predicate Captures(patterns: seq<string>, text: string, finditer: Finditer, p: nat, k: nat, x: string) {
    p < |patterns| && k < |finditer(patterns[p], text)|
    && finditer(patterns[p], text)[k].Group1? && Strip(finditer(patterns[p], text)[k].value) == x
  }

  /** A list field (developers, checkers) holds exactly the stripped group
      values of its patterns' matches over the joined title text, each once. */
  lemma ListFieldExact(patterns: seq<string>, text: string, finditer: Finditer, x: string)
    ensures x in ToSet(FieldValues(patterns, text, finditer)) <==> exists p: nat, k: nat :: Captures(patterns, text, finditer, p, k, x)
  {
    if x in FieldValues(patterns, text, finditer) {
      var p, k := FieldValuesSound(patterns, text, finditer, x);
      assert Captures(patterns, text, finditer, p, k, x);
    }
    if exists p: nat, k: nat :: Captures(patterns, text, finditer, p, k, x) {
      var p: nat, k: nat :| Captures(patterns, text, finditer, p, k, x);
      FieldValuesComplete(patterns, text, finditer, p, k);
    }
  }

  /** The raw text is the block texts joined by newlines: when no block text
      has a newline, its lines are the block texts again. */
  lemma RawTextLines(titleBlocks: seq<TextBlock>)
    requires titleBlocks != []
    requires forall k :: 0 <= k < |titleBlocks| ==> !Contains(titleBlocks[k].text, "\n")
    ensures Split(RawText(titleBlocks), "\n") == Texts(titleBlocks)
  {
    SplitJoin(Texts(titleBlocks), "\n");
  }

  /** The matches of one pattern for a list field: every value is appended. */
  method ListMatches(ms: seq<Analyzer.Match>, vs: seq<string>) returns (vs': seq<string>)
    ensures vs' == vs + GroupValues(ms)
  {
    vs' := vs;
    var j := 0;
    while j < |ms|
      invariant 0 <= j <= |ms| && vs' == vs + GroupValues(ms[..j])
    {
      assert ms[..j + 1][..j] == ms[..j] && Last(ms[..j + 1]) == ms[j];
      if ms[j].Group1? {
        var value := Strip(ms[j].value);
        ConcatAssoc(vs, GroupValues(ms[..j]), [value]);
        vs' := vs' + [value];
      } else {
        assert GroupValues(ms[..j + 1]) == GroupValues(ms[..j]) + [];
      }
      j := j + 1;
    }
    assert ms[..j] == ms;
  }

  /** The matches of one pattern for a scalar field: a value is stored only
      while the field is falsy. */
  method ScalarMatches(ms: seq<Analyzer.Match>, ghost before: seq<string>, v: Option<string>) returns (v': Option<string>)
    requires v == FirstTruthy(before)
    ensures v' == FirstTruthy(before + GroupValues(ms))
  {
    v' := v;
    var j := 0;
    assert before + GroupValues(ms[..0]) == before;
    while j < |ms|
      invariant 0 <= j <= |ms| && v' == FirstTruthy(before + GroupValues(ms[..j]))
    {
      assert ms[..j + 1][..j] == ms[..j] && Last(ms[..j + 1]) == ms[j];
      if ms[j].Group1? {
        var value := Strip(ms[j].value);
        ConcatAssoc(before, GroupValues(ms[..j]), [value]);
        FirstTruthySnoc(before + GroupValues(ms[..j]), value);
        if v' == None || v' == Some("") {
          v' := Some(value);
        }
      } else {
        assert GroupValues(ms[..j + 1]) == GroupValues(ms[..j]) + [];
        assert before + GroupValues(ms[..j + 1]) == before + GroupValues(ms[..j]);
      }
      j := j + 1;
    }
    assert ms[..j] == ms;
  }

  method ScalarField(patterns: seq<string>, text: string, finditer: Finditer) returns (v: Option<string>)
    ensures v == FirstTruthy(FieldValues(patterns, text, finditer))
  {
    v := None;
    var i := 0;
    while i < |patterns|
      invariant 0 <= i <= |patterns| && v == FirstTruthy(FieldValues(patterns[..i], text, finditer))
    {
      assert patterns[..i + 1][..i] == patterns[..i] && Last(patterns[..i + 1]) == patterns[i];
      v := ScalarMatches(finditer(patterns[i], text), FieldValues(patterns[..i], text, finditer), v);
      i := i + 1;
    }
    assert patterns[..i] == patterns;
  }

  method ListField(patterns: seq<string>, text: string, finditer: Finditer) returns (vs: seq<string>)
    ensures vs == FieldValues(patterns, text, finditer)
  {
    vs := [];
    var i := 0;
    while i < |patterns|
      invariant 0 <= i <= |patterns| && vs == FieldValues(patterns[..i], text, finditer)
    {
      assert patterns[..i + 1][..i] == patterns[..i] && Last(patterns[..i + 1]) == patterns[i];
      vs := ListMatches(finditer(patterns[i], text), vs);
      i := i + 1;
    }
    assert patterns[..i] == patterns;
  }

  /** `_extract_specifications`: `extracted['materials'].extend(...)` per block
      and pattern. */
  method MaterialsScan(blocks: seq<TextBlock>, findall: Findall) returns (materials: seq<string>)
    ensures materials == MaterialsOf(blocks, findall)
  {
    materials := [];
    var i := 0;
    while i < |blocks|
      invariant 0 <= i <= |blocks| && materials == MaterialsOf(blocks[..i], findall)
    {
      assert blocks[..i + 1][..i] == blocks[..i] && Last(blocks[..i + 1]) == blocks[i];
      var text := blocks[i].text;
      var j := 0;
      ghost var before := materials;
      while j < |MaterialPatterns|
        invariant 0 <= j <= |MaterialPatterns| && materials == before + PatternMatches(MaterialPatterns[..j], text, findall)
      {
        assert MaterialPatterns[..j + 1][..j] == MaterialPatterns[..j] && Last(MaterialPatterns[..j + 1]) == MaterialPatterns[j];
        ConcatAssoc(before, PatternMatches(MaterialPatterns[..j], text, findall), findall(MaterialPatterns[j], text));
        materials := materials + findall(MaterialPatterns[j], text);
        j := j + 1;
      }
      assert MaterialPatterns[..j] == MaterialPatterns;
      i := i + 1;
    }
    assert blocks[..i] == blocks;
  }

  /** `extract_structured_info`. */
  method ExtractStructuredInfo(titleBlocks: seq<TextBlock>, finditer: Finditer, findall: Findall) returns (info: StructuredInfo)
    ensures info == StructuredInfoOf(titleBlocks, finditer, findall)
  {
    var fullText := RawText(titleBlocks);
    var objectName := ScalarField(ObjectNamePatterns, fullText, finditer);
    var drawingName := ScalarField(DrawingNamePatterns, fullText, finditer);
    var drawingNumber := ScalarField(DrawingNumberPatterns, fullText, finditer);
    var developers := ListField(DeveloperPatterns, fullText, finditer);
    var checkers := ListField(CheckerPatterns, fullText, finditer);
    var scale := ScalarField(ScalePatterns, fullText, finditer);
    var sheetInfo := ScalarField(SheetPatterns, fullText, finditer);
    var materials := MaterialsScan(titleBlocks, findall);
    info := StructuredInfo(objectName, drawingName, drawingNumber, (set v | v in developers), (set v | v in checkers),
      scale, sheetInfo, [], materials, fullText);
  }
}
