/** `DocumentPostProcessor`: the line-by-line clean-up of converted documents
    (title section, preface headings, heading levels from numbering) and the
    metadata preamble built from the first lines. */
module PostProcessor {
  import opened Text
  import opened Patterns

  // ---------------------------------------------------------------- line predicates

  /** `re.sub(r'^#+\s+', '', line)`. */
  function CleanHeader(line: string): (r: string)
    ensures |r| <= |line| && r == line[|line| - |r|..]
  {
    var h := Run(line, c => c == '#');
    if 0 < h < |line| && IsSpace(line[h]) then
      var t := line[h..];
      t[LeadCount(t)..]
    else line
  }

  /** `_is_marked_header`. */
  predicate IsMarkedHeader(line: string) {
    HasPrefix(line, "# ") || HasPrefix(line, "## ") || HasPrefix(line, "### ")
  }

  predicate IsPrefaceRelated(line: string) {
    var c := CleanHeader(line);
    Occurs(c, "Предисловие") || Occurs(c, "Сведения о своде правил") || Occurs(c, "Введение")
  }

  /** `_process_preface_header`. */
  function PrefaceHeader(line: string): string {
    var c := CleanHeader(line);
    if c == "Предисловие" then "## " + c
    else if c == "Сведения о своде правил" then "### " + c
    else if c == "Введение" then "## " + c
    else line
  }

  /** `[\s\-]`. */
  predicate IsSpaceOrDash(c: char) { IsSpace(c) || c == '-' }

  /** `^Таблица\s+\d+[\s\-]`, `^Таблица\s+\d+\.\d+[\s\-]` and `^TABLE\s+\d+`, ignoring case. */
  predicate IsTableTitle(line: string) {
    (FoldedPrefix(line, "Таблица") &&
      var e := SpacedRun(line, 7, IsDigit);
      e.Some? &&
      ((e.value < |line| && IsSpaceOrDash(line[e.value]))
       || (e.value < |line| && line[e.value] == '.' &&
           var f := Run(line[e.value + 1..], IsDigit);
           f > 0 && e.value + 1 + f < |line| && IsSpaceOrDash(line[e.value + 1 + f]))))
    || (FoldedPrefix(line, "TABLE") && SpacedRun(line, 5, IsDigit).Some?)
  }

  /** `[А-Я]` and `[A-Z]` under IGNORECASE. */
  predicate IsCyrillicLetterFolded(c: char) { IsCyrillicUpper(c) || ('а' <= c <= 'я') }
  predicate IsLatinLetterFolded(c: char) { IsAsciiUpper(c) || ('a' <= c <= 'z') }

  /** `^Приложение\s+[А-Я]` / `^Appendix\s+[A-Z]` in either case. */
  predicate IsAppendix(line: string) {
    (FoldedPrefix(line, "Приложение") && SpacedRun(line, 10, IsCyrillicLetterFolded).Some?)
    || (FoldedPrefix(line, "Appendix") && SpacedRun(line, 8, IsLatinLetterFolded).Some?)
  }

  predicate IsNote(line: string) {
    Occurs(line, "Примечание") || Occurs(line, "ПРИМЕЧАНИЕ") || Occurs(line, "Note:")
    || Occurs(line, "NOTE:") || Occurs(line, "Примечания") || Occurs(line, "ПРИМЕЧАНИЯ")
  }

  // ---------------------------------------------------------------- heading levels

  /** The level `_detect_subsection_level` finds scanning back from line `j` down
      to (not including) line `lo`. */
  function ScanBack(lines: seq<string>, j: int, lo: int): (r: nat)
    requires j < |lines|
    decreases j
  {
    if j <= lo || j < 0 then 3
    else
      var prev := Strip(lines[j]);
      if IsMarkedHeader(prev) && Dotted(CleanHeader(prev), 2) then 4
      else if IsMarkedHeader(prev) && Dotted(CleanHeader(prev), 1) then 3
      else ScanBack(lines, j - 1, lo)
  }

  function SubsectionLevel(i: nat, lines: seq<string>): nat
    requires i <= |lines|
  {
    ScanBack(lines, i - 1, if i < 10 then 0 else i - 10)
  }

  /** `_detect_subsection_level`. */
  method DetectSubsectionLevel(i: nat, lines: seq<string>) returns (level: nat)
    requires i <= |lines|
    ensures level == SubsectionLevel(i, lines)
  {
    var lo := if i < 10 then 0 else i - 10;
    var j := i - 1;
    while j > lo
      invariant j <= i - 1 && j >= lo - 1
      invariant ScanBack(lines, j, lo) == SubsectionLevel(i, lines)
      decreases j
    {
      var prev := Strip(lines[j]);
      if IsMarkedHeader(prev) {
        var clean := CleanHeader(prev);
        if Dotted(clean, 2) {
          return 4;
        } else if Dotted(clean, 1) {
          return 3;
        }
      }
      j := j - 1;
    }
    return 3;
  }

  /** Only the (at most nine) lines strictly between `max(0, i-10)` and `i`
      decide the level: the first line and the line itself never do. */
  lemma {:induction false} ScanBackWindow(lines: seq<string>, other: seq<string>, j: int, lo: int)
    requires j < |lines| && j < |other|
    requires forall n :: lo < n <= j && 0 <= n ==> lines[n] == other[n]
    ensures ScanBack(lines, j, lo) == ScanBack(other, j, lo)
    ensures ScanBack(lines, j, lo) == 3 || ScanBack(lines, j, lo) == 4
    decreases j
  {
    if !(j <= lo || j < 0) {
      ScanBackWindow(lines, other, j - 1, lo);
    }
  }

  lemma SubsectionLevelWindow(i: nat, lines: seq<string>, other: seq<string>)
    requires i <= |lines| && i <= |other|
    requires forall n :: (if i < 10 then 0 else i - 10) < n < i ==> lines[n] == other[n]
    ensures SubsectionLevel(i, lines) == SubsectionLevel(i, other)
    ensures SubsectionLevel(i, lines) == 3 || SubsectionLevel(i, lines) == 4
    ensures i <= 1 ==> SubsectionLevel(i, lines) == 3
  {
    ScanBackWindow(lines, other, i - 1, if i < 10 then 0 else i - 10);
  }

  /** `_calculate_header_level`. */
  method CalculateHeaderLevel(line: string, i: nat, lines: seq<string>) returns (level: nat)
    requires i <= |lines|
    ensures level == HeaderLevel(line, i, lines)
  {
    var clean := CleanHeader(line);
    if Dotted(clean, 3) {
      level := 4;
    } else if Dotted(clean, 2) {
      level := 3;
    } else if Dotted(clean, 1) || HasPrefix(clean, "Приложение") {
      level := 2;
    } else {
      level := DetectSubsectionLevel(i, lines);
    }
  }

  function HeaderLevel(line: string, i: nat, lines: seq<string>): nat
    requires i <= |lines|
  {
    var clean := CleanHeader(line);
    if Dotted(clean, 3) then 4
    else if Dotted(clean, 2) then 3
    else if Dotted(clean, 1) || HasPrefix(clean, "Приложение") then 2
    else SubsectionLevel(i, lines)
  }

  /** The level is 2, 3 or 4; a numbered heading's level is its depth plus one
      (capped at 4) whatever the context, an unnumbered one gets 3 or 4. */
  lemma HeaderLevelFacts(line: string, i: nat, lines: seq<string>, other: seq<string>)
    requires i <= |lines| && i <= |other|
    ensures 2 <= HeaderLevel(line, i, lines) <= 4
    ensures Dotted(CleanHeader(line), 1) ==> HeaderLevel(line, i, lines) == HeaderLevel(line, i, other)
    ensures Dotted(CleanHeader(line), 3) ==> HeaderLevel(line, i, lines) == 4
    ensures !Dotted(CleanHeader(line), 1) && !HasPrefix(CleanHeader(line), "Приложение") ==>
      HeaderLevel(line, i, lines) == 3 || HeaderLevel(line, i, lines) == 4
  {
    var c := CleanHeader(line);
    if !Dotted(c, 3) && !Dotted(c, 2) && !(Dotted(c, 1) || HasPrefix(c, "Приложение")) {
      SubsectionLevelWindow(i, lines, lines);
    }
  }

  /** `##` through `####` markers of `_format_header_with_level`. */
  function Marker(level: nat): (r: string)
    ensures |r| == (if level < 5 then level else 4)
    ensures forall k :: 0 <= k < |r| ==> r[k] == '#'
  {
    if level == 0 then "" else if level == 1 then "#" else if level == 2 then "##"
    else if level == 3 then "###" else "####"
  }

  /** `_format_header_with_level`. */
  function FormatHeader(line: string, level: nat): string {
    var m := Marker(level);
    var c := CleanHeader(line);
    if m == "" then c else m + " " + c
  }

  /** On a stripped line the text left after the marker starts with no space. */
  lemma CleanHeaderStart(line: string)
    requires IsStripped(line)
    ensures CleanHeader(line) == [] || !IsSpace(CleanHeader(line)[0])
  {
    var h := Run(line, ch => ch == '#');
    if 0 < h < |line| && IsSpace(line[h]) {
      var t := line[h..];
      assert CleanHeader(line) == t[LeadCount(t)..];
    }
  }

  lemma CleanMarked(m: string, c: string)
    requires m != [] && forall k :: 0 <= k < |m| ==> m[k] == '#'
    requires c == [] || !IsSpace(c[0])
    ensures CleanHeader(m + " " + c) == c
  {
    var f := m + " " + c;
    RunPrefix(m, " " + c, ch => ch == '#');
    assert f == m + (" " + c);
    var t := f[|m|..];
    assert t == " " + c;
    assert t[1..] == c;
    assert LeadCount(t) == 1 + LeadCount(c);
  }

  /** Formatting an already formatted heading at the same level changes nothing. */
  lemma FormatHeaderIdempotent(line: string, level: nat)
    requires IsStripped(line) && 1 <= level
    ensures FormatHeader(FormatHeader(line, level), level) == FormatHeader(line, level)
  {
    CleanHeaderStart(line);
    CleanMarked(Marker(level), CleanHeader(line));
  }

  lemma {:induction false} RunPrefix(w: string, tail: string, p: char -> bool)
    requires forall i :: 0 <= i < |w| ==> p(w[i])
    requires tail != [] && !p(tail[0])
    ensures Run(w + tail, p) == |w|
  {
    if w != [] {
      assert (w + tail)[1..] == w[1..] + tail;
      RunPrefix(w[1..], tail, p);
    }
  }

  lemma FormatHeaderLevels(line: string)
    ensures FormatHeader(line, 0) == CleanHeader(line)
    ensures FormatHeader(line, 7) == FormatHeader(line, 4) == "#### " + CleanHeader(line)
    ensures FormatHeader(line, 2) == "## " + CleanHeader(line)
  {
    assert Marker(7) == Marker(4) == "####" && Marker(2) == "##";
    assert "####" + " " == "#### " && "##" + " " == "## ";
  }

  // ---------------------------------------------------------------- enhance_content_structure

  /** The line `enhance_content_structure` emits for line `i`, stripped to `line`. */
  function EnhanceOf(line: string, lines: seq<string>, i: nat): string
    requires i < |lines|
  {
    if line == "" then ""
    else if IsMarkedHeader(line) then
      if IsPrefaceRelated(line) then PrefaceHeader(line) else FormatHeader(line, HeaderLevel(line, i, lines))
    else if IsTableTitle(line) then "### " + line
    else if IsAppendix(line) then "## " + line
    else if i > 0 && Strip(lines[i - 1]) == "--- Таблица конец ---" && IsNote(line) then line
    else line
  }

  function EnhanceLine(lines: seq<string>, i: nat): string
    requires i < |lines|
  {
    EnhanceOf(Strip(lines[i]), lines, i)
  }

  function EnhancedLines(lines: seq<string>): (r: seq<string>)
    ensures |r| == |lines| && forall i :: 0 <= i < |lines| ==> r[i] == EnhanceLine(lines, i)
  {
    seq(|lines|, i requires 0 <= i < |lines| => EnhanceLine(lines, i))
  }

  /** The body of the `while` loop of `enhance_content_structure` for line `i`. */
  method EnhanceAt(lines: seq<string>, i: nat) returns (out: string)
    requires i < |lines|
    ensures out == EnhanceLine(lines, i)
  {
    var line := Strip(lines[i]);
    if line == "" {
      out := "";
    } else if IsMarkedHeader(line) {
      if IsPrefaceRelated(line) {
        out := PrefaceHeader(line);
      } else {
        var level := CalculateHeaderLevel(line, i, lines);
        out := FormatHeader(line, level);
      }
    } else if IsTableTitle(line) {
      out := "### " + line;
    } else if IsAppendix(line) {
      out := "## " + line;
    } else if i > 0 && Strip(lines[i - 1]) == "--- Таблица конец ---" && IsNote(line) {
      out := line;
    } else {
      out := line;
    }
  }

  method EnhanceContentStructure(content: string) returns (r: string)
    ensures r == Join("\n", EnhancedLines(Split(content, "\n")))
  {
    var lines := Split(content, "\n");
    var enhanced: seq<string> := [];
    var i := 0;
    while i < |lines|
      invariant 0 <= i <= |lines|
      invariant enhanced == EnhancedLines(lines)[..i]
    {
      var out := EnhanceAt(lines, i);
      PrefixSnoc(EnhancedLines(lines), i);
      enhanced := enhanced + [out];
      i := i + 1;
    }
    assert enhanced == EnhancedLines(lines);
    r := Join("\n", enhanced);
  }

  lemma CleanHeaderLacks(line: string)
    requires Lacks(line, '\n')
    ensures Lacks(CleanHeader(line), '\n')
  {
    LacksSlice(line, |line| - |CleanHeader(line)|, |line|);
  }

  lemma FormatHeaderLacks(line: string, level: nat)
    requires Lacks(line, '\n')
    ensures Lacks(FormatHeader(line, level), '\n')
  {
    CleanHeaderLacks(line);
    LacksConcat(Marker(level) + " ", CleanHeader(line));
  }

  lemma PrefaceHeaderLacks(line: string)
    requires Lacks(line, '\n')
    ensures Lacks(PrefaceHeader(line), '\n')
  {
    CleanHeaderLacks(line);
    LacksConcat("## ", CleanHeader(line));
    LacksConcat("### ", CleanHeader(line));
  }

  lemma HeaderLineLacks(line: string, lines: seq<string>, i: nat)
    requires i < |lines| && Lacks(line, '\n') && IsMarkedHeader(line)
    ensures Lacks(EnhanceOf(line, lines, i), '\n')
  {
    if IsPrefaceRelated(line) {
      PrefaceHeaderLacks(line);
    } else {
      FormatHeaderLacks(line, HeaderLevel(line, i, lines));
    }
  }

  lemma TableLineLacks(line: string, lines: seq<string>, i: nat)
    requires i < |lines| && Lacks(line, '\n') && !IsMarkedHeader(line) && IsTableTitle(line)
    ensures Lacks(EnhanceOf(line, lines, i), '\n')
  {
    LacksConcat("### ", line);
  }

  lemma AppendixLineLacks(line: string, lines: seq<string>, i: nat)
    requires i < |lines| && Lacks(line, '\n')
    requires !IsMarkedHeader(line) && !IsTableTitle(line) && IsAppendix(line)
    ensures Lacks(EnhanceOf(line, lines, i), '\n')
  {
    LacksConcat("## ", line);
  }

  lemma EnhanceLineLacks(lines: seq<string>, i: nat)
    requires i < |lines| && Lacks(lines[i], '\n')
    ensures Lacks(EnhanceLine(lines, i), '\n')
  {
    var line := Strip(lines[i]);
    StripLacks(lines[i]);
    if IsMarkedHeader(line) {
      HeaderLineLacks(line, lines, i);
    } else if IsTableTitle(line) {
      TableLineLacks(line, lines, i);
    } else if IsAppendix(line) {
      AppendixLineLacks(line, lines, i);
    }
  }

  /** One output line per input line; blank lines come out empty and a marked
      heading that is not about the preface comes out at level 2 to 4. */
  lemma EnhanceShape(content: string)
    ensures var lines := Split(content, "\n");
            var out := Split(Join("\n", EnhancedLines(lines)), "\n");
            out == EnhancedLines(lines) && |out| == |lines|
            && (forall i :: 0 <= i < |lines| && IsBlank(lines[i]) ==> out[i] == "")
            && (forall i :: 0 <= i < |lines| && IsMarkedHeader(Strip(lines[i])) && !IsPrefaceRelated(Strip(lines[i])) ==>
                  exists level :: 2 <= level <= 4 && out[i] == Marker(level) + " " + CleanHeader(Strip(lines[i])))
  {
    var lines := Split(content, "\n");
    SplitLinesFree(content);
    SplitNonEmpty(content, "\n");
    forall i | 0 <= i < |lines| ensures Lacks(EnhancedLines(lines)[i], '\n') {
      EnhanceLineLacks(lines, i);
    }
    LinesRoundTrip(EnhancedLines(lines));
    forall i | 0 <= i < |lines| && IsMarkedHeader(Strip(lines[i])) && !IsPrefaceRelated(Strip(lines[i]))
      ensures exists level :: 2 <= level <= 4 && EnhancedLines(lines)[i] == Marker(level) + " " + CleanHeader(Strip(lines[i]))
    {
      var line := Strip(lines[i]);
      HeaderLevelFacts(line, i, lines, lines);
      var level := HeaderLevel(line, i, lines);
      assert EnhancedLines(lines)[i] == Marker(level) + " " + CleanHeader(line);
    }
  }

  // ---------------------------------------------------------------- title and preface sections

  /** The lines before the first one satisfying `stop` with `f` applied, that
      line and the rest unchanged: a loop whose flag is switched off once. */
  function UntilStop(lines: seq<string>, stop: string -> bool, f: string -> string): seq<string> {
    if lines == [] then []
    else if stop(lines[0]) then lines
    else [f(lines[0])] + UntilStop(lines[1..], stop, f)
  }

  /** The index of the first line satisfying `stop`, or the number of lines. */
  function FirstStop(lines: seq<string>, stop: string -> bool): (p: nat)
    ensures p <= |lines|
    ensures forall j :: 0 <= j < p ==> !stop(lines[j])
    ensures p < |lines| ==> stop(lines[p])
  {
    if lines == [] then 0
    else if stop(lines[0]) then 0
    else 1 + FirstStop(lines[1..], stop)
  }

  /** Line by line: `f` applies exactly before the first stop line. */
  lemma {:induction false} UntilStopAt(lines: seq<string>, stop: string -> bool, f: string -> string)
    ensures |UntilStop(lines, stop, f)| == |lines|
    ensures forall i :: 0 <= i < |lines| ==>
      UntilStop(lines, stop, f)[i] == if i < FirstStop(lines, stop) then f(lines[i]) else lines[i]
  {
    if lines != [] && !stop(lines[0]) {
      UntilStopAt(lines[1..], stop, f);
      forall i | 1 <= i < |lines|
        ensures UntilStop(lines, stop, f)[i] == if i < FirstStop(lines, stop) then f(lines[i]) else lines[i]
      {
        assert UntilStop(lines, stop, f)[i] == UntilStop(lines[1..], stop, f)[i - 1];
        assert lines[1..][i - 1] == lines[i];
      }
    }
  }

  /** The `for` loop with an `in_title_section` flag. */
  method ApplyUntilStop(lines: seq<string>, stop: string -> bool, f: string -> string) returns (processed: seq<string>)
    ensures processed == UntilStop(lines, stop, f)
  {
    processed := [];
    var inSection := true;
    var i := 0;
    ghost var p := FirstStop(lines, stop);
    while i < |lines|
      invariant 0 <= i <= |lines|
      invariant inSection <==> i <= p
      invariant |processed| == i
      invariant forall j :: 0 <= j < i ==> processed[j] == if j < p then f(lines[j]) else lines[j]
    {
      var line := lines[i];
      if stop(line) {
        inSection := false;
      }
      if inSection {
        processed := processed + [f(line)];
      } else {
        processed := processed + [line];
      }
      i := i + 1;
    }
    UntilStopAt(lines, stop, f);
  }

  /** The lines with `f` applied to each. */
  function MapLines(lines: seq<string>, f: string -> string): (r: seq<string>)
    ensures |r| == |lines| && forall i :: 0 <= i < |lines| ==> r[i] == f(lines[i])
  {
    seq(|lines|, i requires 0 <= i < |lines| => f(lines[i]))
  }

  /** A `for line in lines: out.append(f(line))` loop. */
  method ApplyEach(lines: seq<string>, f: string -> string) returns (out: seq<string>)
    ensures out == MapLines(lines, f)
  {
    out := [];
    var i := 0;
    while i < |lines|
      invariant 0 <= i <= |lines|
      invariant |out| == i && forall j :: 0 <= j < i ==> out[j] == f(lines[j])
    {
      out := out + [f(lines[i])];
      i := i + 1;
    }
  }

  /** Where the title section ends: the first line mentioning the preface (the
      second half of the source's test is implied by the first). */
  predicate EndsTitle(line: string) {
    Occurs(Strip(line), "Предисловие")
  }

  /** A title-section line, given also stripped: heading markers of levels 1
      to 3 are removed. */
  function UntitledOf(s: string, line: string): string {
    if StartsWith(s, "# ") then s[2..]
    else if StartsWith(s, "## ") then s[3..]
    else if StartsWith(s, "### ") then s[4..]
    else line
  }

  function Untitled(line: string): string {
    UntitledOf(Strip(line), line)
  }

  function TitleSectionLines(lines: seq<string>): seq<string> {
    UntilStop(lines, EndsTitle, Untitled)
  }

  /** `process_title_section`. */
  method ProcessTitleSection(content: string) returns (r: string)
    ensures r == Join("\n", TitleSectionLines(Split(content, "\n")))
  {
    var processed := ApplyUntilStop(Split(content, "\n"), EndsTitle, Untitled);
    r := Join("\n", processed);
  }

  lemma UntitledOfLacks(s: string, line: string)
    requires Lacks(s, '\n') && Lacks(line, '\n')
    ensures Lacks(UntitledOf(s, line), '\n')
  {
    if |s| >= 2 { LacksSlice(s, 2, |s|); }
    if |s| >= 3 { LacksSlice(s, 3, |s|); }
    if |s| >= 4 { LacksSlice(s, 4, |s|); }
  }

  lemma UntitledLacks(line: string)
    requires Lacks(line, '\n')
    ensures Lacks(Untitled(line), '\n')
  {
    StripLacks(line);
    UntitledOfLacks(Strip(line), line);
  }

  lemma UntitledOfShape(s: string, line: string)
    ensures UntitledOf(s, line) != line ==>
      (StartsWith(s, "# ") || StartsWith(s, "## ") || StartsWith(s, "### "))
      && EndsWith(s, UntitledOf(s, line)) && |UntitledOf(s, line)| < |s|
  {
  }

  /** A line changes only by losing a marker of level 1 to 3 (and the
      surrounding whitespace). */
  lemma UntitledShape(line: string)
    ensures Untitled(line) != line ==>
      IsMarkedHeader(Strip(line)) && EndsWith(Strip(line), Untitled(line)) && |Untitled(line)| < |Strip(line)|
  {
    var s := Strip(line);
    UntitledOfShape(s, line);
    if Untitled(line) != line {
      HasPrefixIff(s, "# ");
      HasPrefixIff(s, "## ");
      HasPrefixIff(s, "### ");
    }
  }

  /** Lines without a line break, rewritten by a map that adds none, split back
      into the rewritten lines. */
  lemma RewrittenLines(content: string, out: seq<string>)
    requires |out| == |Split(content, "\n")|
    requires forall i :: 0 <= i < |out| && Lacks(Split(content, "\n")[i], '\n') ==> Lacks(out[i], '\n')
    ensures Split(Join("\n", out), "\n") == out
  {
    SplitLinesFree(content);
    SplitNonEmpty(content, "\n");
    LinesRoundTrip(out);
  }

  /** The line count is kept; from the preface line on nothing changes, and
      before it only lines that start (after stripping) with `# `, `## ` or
      `### ` change, losing that marker. */
  lemma TitleSectionShape(content: string)
    ensures var lines := Split(content, "\n");
            var out := Split(Join("\n", TitleSectionLines(lines)), "\n");
            |out| == |lines|
            && (forall i :: FirstStop(lines, EndsTitle) <= i < |lines| ==> out[i] == lines[i])
            && (forall i :: 0 <= i < |lines| && out[i] != lines[i] ==>
                  i < FirstStop(lines, EndsTitle) && IsMarkedHeader(Strip(lines[i]))
                  && EndsWith(Strip(lines[i]), out[i]) && |out[i]| < |Strip(lines[i])|)
  {
    var lines := Split(content, "\n");
    var t := TitleSectionLines(lines);
    UntilStopAt(lines, EndsTitle, Untitled);
    forall i | 0 <= i < |t| && Lacks(lines[i], '\n') ensures Lacks(t[i], '\n') {
      UntitledLacks(lines[i]);
    }
    RewrittenLines(content, t);
    forall i | 0 <= i < |lines| && t[i] != lines[i]
      ensures i < FirstStop(lines, EndsTitle) && IsMarkedHeader(Strip(lines[i]))
              && EndsWith(Strip(lines[i]), t[i]) && |t[i]| < |Strip(lines[i])|
    {
      UntitledShape(lines[i]);
    }
  }

  /** The line `process_preface_section` emits for `line`, stripped to `s`. */
  function PrefaceOf(s: string, line: string): string {
    if StartsWith(s, "### Предисловие") then "## Предисловие"
    else if StartsWith(s, "### Сведения о своде правил") then "### Сведения о своде правил"
    else if StartsWith(s, "### Введение") then "## Введение"
    else line
  }

  function PrefaceLine(line: string): string {
    PrefaceOf(Strip(line), line)
  }

  /** `process_preface_section`. */
  method ProcessPrefaceSection(content: string) returns (r: string)
    ensures r == Join("\n", MapLines(Split(content, "\n"), PrefaceLine))
  {
    var processed := ApplyEach(Split(content, "\n"), PrefaceLine);
    r := Join("\n", processed);
  }

  lemma PrefaceOfLacks(s: string, line: string)
    requires Lacks(line, '\n')
    ensures Lacks(PrefaceOf(s, line), '\n')
  {
  }

  lemma PrefaceLineLacks(line: string)
    requires Lacks(line, '\n')
    ensures Lacks(PrefaceLine(line), '\n')
  {
    PrefaceOfLacks(Strip(line), line);
  }

  /** Only the three preface headings are rewritten; the preface and the
      introduction move up to level 2. */
  lemma PrefaceOfShape(s: string, line: string)
    ensures PrefaceOf(s, line) != line ==>
      StartsWith(s, "### Предисловие") || StartsWith(s, "### Сведения о своде правил") || StartsWith(s, "### Введение")
    ensures StartsWith(s, "### Предисловие") ==> PrefaceOf(s, line) == "## Предисловие"
    ensures StartsWith(s, "### Введение") ==> PrefaceOf(s, line) == "## Введение"
  {
    if StartsWith(s, "### Введение") {
      assert s[4] == 'В';
    }
  }

  /** The line count is kept and each output line is its input line run through
      the preface rule. */
  lemma PrefaceShape(content: string)
    ensures var lines := Split(content, "\n");
            var out := Split(Join("\n", MapLines(lines, PrefaceLine)), "\n");
            |out| == |lines| && forall i :: 0 <= i < |lines| ==> out[i] == PrefaceOf(Strip(lines[i]), lines[i])
  {
    var lines := Split(content, "\n");
    var out := MapLines(lines, PrefaceLine);
    forall i | 0 <= i < |out| && Lacks(lines[i], '\n') ensures Lacks(out[i], '\n') {
      PrefaceLineLacks(lines[i]);
    }
    RewrittenLines(content, out);
  }

  // ---------------------------------------------------------------- metadata and title

  predicate IsCodeChar(c: char) { IsDigit(c) || c == '.' || c == '-' }
  predicate IsOksChar(c: char) { IsDigit(c) || c == '.' }

  /** `(СП|ГОСТ|СНиП|ТР)\s+[\d\.\-]+`. */
  function CodeMatcher(t: string): Option<nat> { AltRun(t, ["СП", "ГОСТ", "СНиП", "ТР"], IsCodeChar) }
  /** `ОКС\s+[\d\.]+`. */
  function OksMatcher(t: string): Option<nat> { KeywordRun(t, "ОКС", IsOksChar) }
  /** `Дата введения\s+[\d\-\.]+`. */
  function DateMatcher(t: string): Option<nat> { KeywordRun(t, "Дата введения", IsCodeChar) }

  /** `ОК\s*ВЭД\s+[A-Z]\s+\d+`. */
  function OkvedMatcher(t: string): (r: Option<nat>)
    ensures r.Some? ==> r.value <= |t|
  {
    if !HasPrefix(t, "ОК") then None
    else
      var a := 2 + LeadCount(t[2..]);
      if !HasPrefix(t[a..], "ВЭД") then None
      else
        var b := a + 3;
        var w := LeadCount(t[b..]);
        if w == 0 || b + w >= |t| || !IsAsciiUpper(t[b + w]) then None
        else SpacedRun(t, b + w + 1, IsDigit)
  }

  /** The four values a line offers, each from its pattern. */
  function FieldValue(key: string, line: string): Option<string> {
    if key == "code" then Search(line, CodeMatcher)
    else if key == "oks" then
      match Search(line, OksMatcher) case None => None case Some(m) => Some(Replace(m, "ОКС ", ""))
    else if key == "okved" then Search(line, OkvedMatcher)
    else if key == "date_intro" then
      match Search(line, DateMatcher) case None => None case Some(m) => Some(Replace(m, "Дата введения ", ""))
    else None
  }

  function SetFirst(m: map<string, string>, key: string, v: Option<string>): (r: map<string, string>)
    ensures forall k :: k in r <==> k in m || (k == key && v.Some?)
    ensures forall k :: k in m ==> r[k] == m[k]
    ensures key !in m && v.Some? ==> r[key] == v.value
  {
    if v.Some? && key !in m then m[key := v.value] else m
  }

  /** The document name: the text after the code on a line, once the code is known. */
  function TitleAfterCode(line: string, m: map<string, string>): Option<string> {
    if "code" in m && "title" !in m && |m["code"]| > 0 then
      match Find(line, m["code"])
      case None => None
      case Some(pos) =>
        var rest := Strip(line[pos + |m["code"]|..]);
        if rest != "" && |rest| > 5 then Some(rest) else None
    else None
  }

  /** The four pattern fields, in the order the line is searched for them. */
  const PatternFields: seq<string> := ["code", "oks", "okved", "date_intro"]

  /** The dict after the `if match and key not in metadata` steps for `keys`. */
  function SetFields(line: string, m: map<string, string>, keys: seq<string>): map<string, string> {
    if keys == [] then m
    else SetFirst(SetFields(line, m, keys[..|keys| - 1]), Last(keys), FieldValue(Last(keys), line))
  }

  /** `_extract_metadata_from_line` applied to a dict. */
  function ExtractLine(line: string, m: map<string, string>): map<string, string> {
    var fields := SetFields(line, m, PatternFields);
    SetFirst(fields, "title", TitleAfterCode(line, fields))
  }

  /** `_extract_metadata_from_line(line.strip(), metadata)`. */
  function ExtractStripped(line: string, m: map<string, string>): map<string, string> {
    ExtractLine(Strip(line), m)
  }

  /** The dict after applying `step` to the lines in order, from `{}`. */
  function FoldLines(lines: seq<string>, step: (string, map<string, string>) -> map<string, string>): map<string, string> {
    if lines == [] then map[] else step(Last(lines), FoldLines(lines[..|lines| - 1], step))
  }

  /** The metadata after the lines, in order. */
  function MetadataOf(lines: seq<string>): map<string, string> {
    FoldLines(lines, ExtractStripped)
  }

  /** `Path(file_path).stem`. */
  function Stem(path: string): string {
    var name := path[RFind(path, '/') + 1..];
    var i := RFind(name, '.');
    if 0 < i < |name| - 1 then name[..i] else name
  }

  /** `_create_title_from_metadata`. */
  function TitleOf(m: map<string, string>, path: string): string {
    var parts := (if "code" in m then [m["code"]] else []) + (if "title" in m then [m["title"]] else []);
    if parts != [] then Join(" ", parts) else Stem(path)
  }

  /** `extract_metadata_and_title`: the metadata of the first 20 lines, and the title. */
  method ExtractMetadataAndTitle(content: string, path: string) returns (title: string, metadata: map<string, string>)
    ensures metadata == MetadataOf(PyTake(Split(content, "\n"), 20))
    ensures title == TitleOf(metadata, path)
  {
    var lines := PyTake(Split(content, "\n"), 20);
    metadata := map[];
    var i := 0;
    while i < |lines|
      invariant 0 <= i <= |lines|
      invariant metadata == MetadataOf(lines[..i])
    {
      assert lines[..i + 1][..i] == lines[..i];
      metadata := ExtractStripped(lines[i], metadata);
      i := i + 1;
    }
    assert lines[..i] == lines;
    title := TitleOf(metadata, path);
  }

  ghost predicate IsField(key: string) {
    key in PatternFields
  }

  /** A field set by one of `keys` (listed once) is set from this line only if
      it was not set before. */
  lemma {:induction false} SetFieldsKey(line: string, m: map<string, string>, keys: seq<string>, key: string)
    requires forall a, b :: 0 <= a < b < |keys| ==> keys[a] != keys[b]
    ensures var r := SetFields(line, m, keys);
            (key in keys ==> (key in r <==> key in m || FieldValue(key, line).Some?))
            && (key !in keys ==> (key in r <==> key in m))
            && (key in m ==> r[key] == m[key])
            && (key in keys && key !in m && FieldValue(key, line).Some? ==> r[key] == FieldValue(key, line).value)
  {
    if keys != [] {
      var init := keys[..|keys| - 1];
      SetFieldsKey(line, m, init, key);
      assert keys == init + [Last(keys)];
      if key == Last(keys) {
        assert key !in init;
      }
    }
  }

  lemma {:induction false} ExtractLineField(line: string, m: map<string, string>, key: string)
    requires IsField(key)
    ensures var r := ExtractLine(line, m);
            (key in r <==> key in m || FieldValue(key, line).Some?)
            && (key in m ==> r[key] == m[key])
            && (key !in m && FieldValue(key, line).Some? ==> r[key] == FieldValue(key, line).value)
  {
    PatternFieldsDistinct();
    var fields := SetFields(line, m, PatternFields);
    SetFieldsKey(line, m, PatternFields, key);
    FieldNotTitle(key);
    TitleKeepsField(fields, m, TitleAfterCode(line, fields), key, FieldValue(key, line));
  }

  lemma FieldNotTitle(key: string)
    requires IsField(key)
    ensures key != "title"
  {
  }

  /** Setting "title" leaves the state of any other field as it was. */
  lemma TitleKeepsField(fields: map<string, string>, m: map<string, string>, t: Option<string>, key: string, v: Option<string>)
    requires key != "title"
    requires (key in fields <==> key in m || v.Some?) && (key in m ==> fields[key] == m[key])
             && (key !in m && v.Some? ==> fields[key] == v.value)
    ensures var r := SetFirst(fields, "title", t);
            (key in r <==> key in m || v.Some?) && (key in m ==> r[key] == m[key])
            && (key !in m && v.Some? ==> r[key] == v.value)
  {
    SetFirstOther(fields, "title", t, key);
  }

  lemma PatternFieldsDistinct()
    ensures forall a, b :: 0 <= a < b < |PatternFields| ==> PatternFields[a] != PatternFields[b]
  {
  }

  lemma SetFirstOther(m: map<string, string>, key: string, v: Option<string>, k: string)
    requires k != key
    ensures (k in SetFirst(m, key, v) <==> k in m) && (k in m ==> SetFirst(m, key, v)[k] == m[k])
  {
  }

  lemma ExtractStrippedField(line: string, m: map<string, string>, key: string)
    requires IsField(key)
    ensures var r := ExtractStripped(line, m);
            var v := FieldOfLine(key, line);
            (key in r <==> key in m || v.Some?)
            && (key in m ==> r[key] == m[key])
            && (key !in m && v.Some? ==> r[key] == v.value)
  {
    ExtractLineField(Strip(line), m, key);
  }

  /** A step that sets `key` once, from the first line offering a value,
      leaves in the fold the value of the first such line. */
  lemma {:induction false} FoldFirst(lines: seq<string>, step: (string, map<string, string>) -> map<string, string>,
                                     value: string -> Option<string>, key: string)
    requires forall line, m :: (key in step(line, m) <==> key in m || value(line).Some?)
                               && (key in m ==> step(line, m)[key] == m[key])
                               && (key !in m && value(line).Some? ==> step(line, m)[key] == value(line).value)
    ensures key in FoldLines(lines, step) <==> exists i :: 0 <= i < |lines| && value(lines[i]).Some?
    ensures key in FoldLines(lines, step) ==>
      exists i :: 0 <= i < |lines| && value(lines[i]) == Some(FoldLines(lines, step)[key])
                  && forall j :: 0 <= j < i ==> value(lines[j]).None?
  {
    if lines != [] {
      var init := lines[..|lines| - 1];
      var before := FoldLines(init, step);
      FoldFirst(init, step, value, key);
      assert FoldLines(lines, step) == step(Last(lines), before);
      assert forall j :: 0 <= j < |init| ==> init[j] == lines[j];
      if key in before {
        var i :| 0 <= i < |init| && value(init[i]) == Some(before[key])
                 && forall j :: 0 <= j < i ==> value(init[j]).None?;
        assert value(lines[i]) == Some(FoldLines(lines, step)[key]);
      } else if value(Last(lines)).Some? {
        assert value(lines[|lines| - 1]) == Some(FoldLines(lines, step)[key]);
      }
    }
  }

  /** The value a line offers for `key` once stripped. */
  function FieldOfLine(key: string, line: string): Option<string> {
    FieldValue(key, Strip(line))
  }

  function StrippedField(key: string): string -> Option<string> {
    line => FieldOfLine(key, line)
  }

  /** The per-line step of the metadata fold sets `key` at most once. */
  lemma StepSetsOnce(key: string)
    requires IsField(key)
    ensures forall line, m :: (key in ExtractStripped(line, m) <==> key in m || FieldOfLine(key, line).Some?)
              && (key in m ==> ExtractStripped(line, m)[key] == m[key])
              && (key !in m && FieldOfLine(key, line).Some? ==> ExtractStripped(line, m)[key] == FieldOfLine(key, line).value)
  {
    forall line, m
      ensures (key in ExtractStripped(line, m) <==> key in m || FieldOfLine(key, line).Some?)
              && (key in m ==> ExtractStripped(line, m)[key] == m[key])
              && (key !in m && FieldOfLine(key, line).Some? ==> ExtractStripped(line, m)[key] == FieldOfLine(key, line).value)
    {
      ExtractStrippedField(line, m, key);
    }
  }

  /** Each of the four fields holds the value from the first of the lines that
      offers one, and is present exactly when some line does. */
  lemma MetadataFirstMatch(lines: seq<string>, key: string)
    requires IsField(key)
    ensures key in MetadataOf(lines) <==> exists i :: 0 <= i < |lines| && FieldOfLine(key, lines[i]).Some?
    ensures key in MetadataOf(lines) ==>
      exists i :: 0 <= i < |lines| && FieldOfLine(key, lines[i]) == Some(MetadataOf(lines)[key])
                  && forall j :: 0 <= j < i ==> FieldOfLine(key, lines[j]).None?
  {
    StepSetsOnce(key);
    FoldFirst(lines, ExtractStripped, StrippedField(key), key);
  }

  lemma ExtractLineTitle(line: string, m: map<string, string>)
    requires "title" in m ==> "code" in m
    ensures "title" in ExtractLine(line, m) ==> "code" in ExtractLine(line, m)
  {
    assert "title" !in PatternFields;
    SetFieldsKey(line, m, PatternFields, "title");
    SetFieldsKey(line, m, PatternFields, "code");
  }

  /** A name is only ever recorded after a code. */
  lemma {:induction false} TitleNeedsCode(lines: seq<string>)
    ensures "title" in MetadataOf(lines) ==> "code" in MetadataOf(lines)
  {
    if lines != [] {
      var init := lines[..|lines| - 1];
      TitleNeedsCode(init);
      ExtractLineTitle(Strip(Last(lines)), MetadataOf(init));
    }
  }

  lemma TitleOfFacts(m: map<string, string>, path: string)
    requires "title" in m ==> "code" in m
    ensures TitleOf(m, path) == (if "code" in m && "title" in m then m["code"] + " " + m["title"]
                                 else if "code" in m then m["code"] else Stem(path))
  {
    if "code" in m && "title" in m {
      var parts := [m["code"], m["title"]];
      assert parts[1..] == [m["title"]];
      assert Join(" ", parts) == m["code"] + " " + m["title"];
    }
  }

  /** The title is the code and the name joined by a space when both were
      found, the code alone when only it was, and the file stem otherwise. */
  lemma TitleFacts(content: string, path: string)
    ensures var m := MetadataOf(PyTake(Split(content, "\n"), 20));
            TitleOf(m, path) == (if "code" in m && "title" in m then m["code"] + " " + m["title"]
                                 else if "code" in m then m["code"] else Stem(path))
  {
    var lines := PyTake(Split(content, "\n"), 20);
    TitleNeedsCode(lines);
    TitleOfFacts(MetadataOf(lines), path);
  }

  /** The stem, given where the last slash and the last dot of the name are. */
  lemma StemAt(path: string, slash: int, dot: int)
    requires -1 <= slash < |path| && (slash >= 0 ==> path[slash] == '/')
    requires forall j :: slash < j < |path| ==> path[j] != '/'
    requires slash < dot < |path| && path[dot] == '.'
    requires forall j :: dot < j < |path| ==> path[j] != '.'
    ensures Stem(path) == if slash + 1 < dot < |path| - 1 then path[slash + 1..dot] else path[slash + 1..]
  {
    RFindIs(path, '/', slash);
    RFindAfter(path, '.', slash + 1, dot);
    PrefixOfSuffix(path, slash + 1, dot);
  }

  /** Example: the directory and the last suffix are dropped; a name that only starts
      with a dot keeps it. */
  lemma StemExample()
    ensures Stem("d/СП.txt") == "СП" && Stem("d/.env") == ".env"
  {
    var p := "d/СП.txt";
    assert forall j :: 1 < j < |p| ==> p[j] != '/';
    assert forall j :: 4 < j < |p| ==> p[j] != '.';
    StemAt(p, 1, 4);
    assert p[2..4] == "СП";
    var q := "d/.env";
    assert forall j :: 2 < j < |q| ==> q[j] != '.';
    StemAt(q, 1, 2);
    assert q[2..] == ".env";
  }

  // ---------------------------------------------------------------- add_metadata_section

  function MetadataBullets(m: map<string, string>): seq<string> {
    (if "code" in m then ["- **Код документа**: " + m["code"]] else [])
    + (if "title" in m then ["- **Название**: " + m["title"]] else [])
    + (if "oks" in m then ["- **ОКС**: " + m["oks"]] else [])
    + (if "okved" in m then ["- **ОК ВЭД**: " + m["okved"]] else [])
    + (if "date_intro" in m then ["- **Дата введения**: " + m["date_intro"]] else [])
  }

  function PreambleLines(title: string, m: map<string, string>): seq<string> {
    ["# " + title, ""]
    + (if |m| > 0 then ["## Метаданные документа"] + MetadataBullets(m) + [""] else [])
  }

  /** `add_metadata_section`. */
  function AddMetadataSection(content: string, title: string, m: map<string, string>): string {
    Join("\n", PreambleLines(title, m) + [content])
  }

  /** A title line and a blank line in front of further lines. */
  lemma JoinTitleBlank(sep: string, a: string, rest: seq<string>)
    requires |rest| >= 1
    ensures Join(sep, [a, ""] + rest) == a + sep + sep + Join(sep, rest)
  {
    assert [a, ""] + rest == [a] + ([""] + rest);
    JoinCons(sep, a, [""] + rest);
    JoinCons(sep, "", rest);
  }

  lemma ConcatEnds(x: string, y: string)
    ensures StartsWith(x + y, x) && EndsWith(x + y, y)
  {
    assert (x + y)[..|x|] == x;
    assert (x + y)[|x + y| - |y|..] == y;
  }

  lemma StartsWithExtend(x: string, y: string, h: string)
    requires StartsWith(y, h)
    ensures StartsWith(x + y, x + h)
  {
    assert (x + y)[..|x| + |h|] == x + y[..|h|];
  }

  lemma PreambleEnd(sep: string, a: string, block: seq<string>, content: string)
    ensures EndsWith(Join(sep, [a, ""] + block + [content]), sep + content)
  {
    var parts := [a, ""] + block;
    JoinAppend(sep, parts, content);
    var j := Join(sep, parts);
    assert j + sep + content == j + (sep + content);
    ConcatEnds(j, sep + content);
  }

  lemma PreambleStart(sep: string, a: string, block: seq<string>, content: string)
    ensures var r := Join(sep, [a, ""] + block + [content]);
            StartsWith(r, a + sep + sep)
            && (block == [] ==> r == a + sep + sep + content)
            && (block != [] ==> StartsWith(r, a + sep + sep + block[0]))
  {
    var rest := block + [content];
    assert [a, ""] + block + [content] == [a, ""] + rest;
    JoinTitleBlank(sep, a, rest);
    var jr := Join(sep, rest);
    ConcatEnds(a + sep + sep, jr);
    if block == [] {
      assert rest == [content];
    } else {
      JoinEnds(sep, rest);
      assert rest[0] == block[0];
      StartsWithExtend(a + sep + sep, jr, block[0]);
    }
  }

  /** The result opens with the title heading and a blank line and ends with
      the content; without metadata nothing else is added, with metadata the
      block heading comes next. */
  lemma AddMetadataSectionShape(content: string, title: string, m: map<string, string>)
    ensures StartsWith(AddMetadataSection(content, title, m), "# " + title + "\n\n")
    ensures EndsWith(AddMetadataSection(content, title, m), "\n" + content)
    ensures |m| == 0 ==> AddMetadataSection(content, title, m) == "# " + title + "\n\n" + content
    ensures |m| > 0 ==> StartsWith(AddMetadataSection(content, title, m), "# " + title + "\n\n## Метаданные документа")
  {
    var block := if |m| > 0 then ["## Метаданные документа"] + MetadataBullets(m) + [""] else [];
    assert PreambleLines(title, m) == ["# " + title, ""] + block;
    PreambleStart("\n", "# " + title, block, content);
    PreambleEnd("\n", "# " + title, block, content);
    BlankLineAfter("# " + title);
  }

  lemma BlankLineAfter(x: string)
    ensures x + "\n" + "\n" == x + "\n\n"
    ensures x + "\n" + "\n" + "## Метаданные документа" == x + "\n\n## Метаданные документа"
  {
  }
}
