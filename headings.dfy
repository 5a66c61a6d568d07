/** `DocumentProcessor.text_to_markdown` and
    `DocumentProcessor.split_text_by_markdown_headers`: the heading-stack
    segmentation that follows `#`..`####` headings and splits by a token
    budget. */
module HeadingChunker {
  import opened Text
  import opened Chunks

  // ---------------------------------------------------------------- text_to_markdown

  /** A line that `^<prefix>(.+)` matches (with `re.M`, per line). */
  predicate IsMarked(line: string, prefix: string) {
    StartsWith(line, prefix) && |line| > |prefix|
  }

  /** Each matched line `<prefix>X` becomes the two lines `<prefix>X` and `X`. */
  function DupLines(lines: seq<string>, prefix: string): (r: seq<string>)
    ensures |r| >= |lines|
  {
    if lines == [] then []
    else (if IsMarked(lines[0], prefix) then [lines[0], lines[0][|prefix|..]] else [lines[0]])
         + DupLines(lines[1..], prefix)
  }

  /** The inverse: drop the line after each matched line. */
  function UndupLines(lines: seq<string>, prefix: string): seq<string> {
    if lines == [] then []
    else if IsMarked(lines[0], prefix) && |lines| >= 2 then [lines[0]] + UndupLines(lines[2..], prefix)
    else [lines[0]] + UndupLines(lines[1..], prefix)
  }

  lemma {:induction false} UndupDup(lines: seq<string>, prefix: string)
    ensures UndupLines(DupLines(lines, prefix), prefix) == lines
  {
    if lines != [] {
      UndupDup(lines[1..], prefix);
      var d := DupLines(lines, prefix);
      if IsMarked(lines[0], prefix) {
        assert d[2..] == DupLines(lines[1..], prefix);
      } else {
        assert d[1..] == DupLines(lines[1..], prefix);
      }
    }
  }

  lemma {:induction false} UndupUnmarked(lines: seq<string>, prefix: string)
    requires forall k :: 0 <= k < |lines| ==> !IsMarked(lines[k], prefix)
    ensures UndupLines(lines, prefix) == lines
  {
    if lines != [] {
      UndupUnmarked(lines[1..], prefix);
    }
  }

  lemma {:induction false} DupLinesLack(lines: seq<string>, prefix: string)
    requires forall k :: 0 <= k < |lines| ==> Lacks(lines[k], '\n')
    ensures forall k :: 0 <= k < |DupLines(lines, prefix)| ==> Lacks(DupLines(lines, prefix)[k], '\n')
  {
    if lines != [] {
      DupLinesLack(lines[1..], prefix);
    }
  }

  /** One `re.sub(r'^<prefix>(.+)', r'<prefix>\1\n\1', text, flags=re.M)`. */
  function MarkdownPass(text: string, prefix: string): string {
    Join("\n", DupLines(Split(text, "\n"), prefix))
  }

  function MarkdownUnpass(text: string, prefix: string): string {
    Join("\n", UndupLines(Split(text, "\n"), prefix))
  }

  lemma UnpassPass(text: string, prefix: string)
    ensures MarkdownUnpass(MarkdownPass(text, prefix), prefix) == text
  {
    var lines := Split(text, "\n");
    SplitNonEmpty(text, "\n");
    SplitLinesFree(text);
    DupLinesLack(lines, prefix);
    var d := DupLines(lines, prefix);
    forall k | 0 <= k < |d| ensures !Contains(d[k], "\n") { LacksContains(d[k], '\n'); }
    SplitJoin(d, "\n");
    UndupDup(lines, prefix);
    JoinSplit(text, "\n");
  }

  lemma UnpassBlank(text: string, prefix: string)
    requires |prefix| > 0 && !IsSpace(prefix[0]) && IsBlank(text)
    ensures MarkdownUnpass(text, prefix) == text
  {
    var lines := Split(text, "\n");
    SplitBlank(text, "\n");
    forall k | 0 <= k < |lines| ensures !IsMarked(lines[k], prefix) {
    }
    UndupUnmarked(lines, prefix);
    JoinSplit(text, "\n");
  }

  /** `text_to_markdown`: a blank text is returned unchanged; otherwise every
      `##`, `###` and `####` heading line is followed by a copy of its text. */
  function TextToMarkdown(text: string): string {
    if Strip(text) == "" then text
    else MarkdownPass(MarkdownPass(MarkdownPass(text, "## "), "### "), "#### ")
  }

  /** Removes the copies again. */
  function FromMarkdown(text: string): string {
    MarkdownUnpass(MarkdownUnpass(MarkdownUnpass(text, "#### "), "### "), "## ")
  }

  /** The conversion only adds the duplicated lines: undoing the three passes
      in reverse order gives the original text. */
  lemma MarkdownRoundTrip(text: string)
    ensures FromMarkdown(TextToMarkdown(text)) == text
  {
    if Strip(text) == "" {
      UnpassBlank(text, "#### ");
      UnpassBlank(text, "### ");
      UnpassBlank(text, "## ");
    } else {
      var t1 := MarkdownPass(text, "## ");
      var t2 := MarkdownPass(t1, "### ");
      UnpassPass(t2, "#### ");
      UnpassPass(t1, "### ");
      UnpassPass(text, "## ");
    }
  }

  // ---------------------------------------------------------------- headings

  /** The level of the first of `^# (.+)$` .. `^#### (.+)$` that matches a
      stripped line, 0 when none does. */
  function HeadingLevel(line: string): (n: nat)
    ensures n <= 4
    ensures n > 0 ==> |line| > n + 1 && line[n] == ' '
    ensures n > 0 ==> forall m :: 0 <= m < n ==> line[m] == '#'
  {
    if IsMarked(line, "# ") then 1
    else if IsMarked(line, "## ") then 2
    else if IsMarked(line, "### ") then 3
    else if IsMarked(line, "#### ") then 4
    else 0
  }

  /** `match.group(1).strip()`. */
  function HeadingText(line: string, level: nat): string
    requires 0 < level && |line| > level + 1
  {
    Strip(line[level + 1..])
  }

  /** The stack after a heading: h1 resets it, hk keeps the first k-1 entries. */
  function NewStack(stack: seq<string>, level: nat, h: string): (r: seq<string>)
    requires 1 <= level <= 4
    ensures 1 <= |r| <= level && Last(r) == h
    ensures level > 1 ==> r[..|r| - 1] == PyTake(stack, level - 1)
  {
    if level == 1 then [h] else PyTake(stack, level - 1) + [h]
  }

  /** The loop variables: emitted chunks, `current_chunk`, `current_header`,
      `document_title` and `header_stack`. */
  datatype HState = HState(chunks: seq<Chunk>, cur: seq<string>, header: string, title: string, stack: seq<string>)

  function Init(filename: string): HState {
    HState([], [], "Документ", filename, ["Документ"])
  }

  function HeadedChunk(content: string, st: HState, filename: string, tok: Tokenizer): Chunk {
    Chunk(content,
          map["source" := filename, "header" := st.header,
              "header_path" := Join(" -> ", st.stack), "document_title" := st.title],
          CountTokens(tok, content))
  }

  /** `if chunk_content: chunks.append(...)` under the current header. */
  function Emit(st: HState, content: string, filename: string, tok: Tokenizer): seq<Chunk> {
    if content != "" then st.chunks + [HeadedChunk(content, st, filename, tok)] else st.chunks
  }

  function Pending(st: HState): string {
    Strip(Join("\n", st.cur))
  }

  /** A heading line: flush the buffer under the old header, then update. */
  function OnHeading(st: HState, line: string, level: nat, filename: string, tok: Tokenizer): HState
    requires 1 <= level <= 4 && |line| > level + 1
  {
    var chunks := if st.cur != [] then Emit(st, Pending(st), filename, tok) else st.chunks;
    var h := HeadingText(line, level);
    HState(chunks, [line], h, if level == 1 then h else st.title, NewStack(st.stack, level, h))
  }

  /** A body line: append it; past the token budget either flush all but the
      last line or split a single line at its word midpoint. */
  function OnText(st: HState, line: string, filename: string, cs: int, tok: Tokenizer): HState {
    var cur := st.cur + [line];
    if CountTokens(tok, Join("\n", cur)) > cs then
      if |cur| > 1 then
        st.(chunks := Emit(st, Strip(Join("\n", cur[..|cur| - 1])), filename, tok), cur := [line])
      else
        var words := SplitWhitespace(line);
        var half := |words| / 2;
        st.(chunks := Emit(st, Strip(Join(" ", words[..half])), filename, tok),
            cur := [Join(" ", words[half..])])
    else st.(cur := cur)
  }

  function Step(st: HState, raw: string, filename: string, cs: int, tok: Tokenizer): HState {
    var line := Strip(raw);
    if line == "" then (if st.cur != [] then st.(cur := st.cur + [""]) else st)
    else
      var level := HeadingLevel(line);
      if level > 0 then OnHeading(st, line, level, filename, tok)
      else OnText(st, line, filename, cs, tok)
  }

  function Run(st: HState, lines: seq<string>, filename: string, cs: int, tok: Tokenizer): HState {
    if lines == [] then st
    else Step(Run(st, lines[..|lines| - 1], filename, cs, tok), Last(lines), filename, cs, tok)
  }

  /** The final flush. */
  function Finish(st: HState, filename: string, tok: Tokenizer): seq<Chunk> {
    if st.cur != [] then Emit(st, Pending(st), filename, tok) else st.chunks
  }

  /** What `split_text_by_markdown_headers(text, filename, use_markdown)` returns
      for a token budget `cs`. */
  function HeadingChunks(text: string, filename: string, useMarkdown: bool, cs: int, tok: Tokenizer): seq<Chunk> {
    if Strip(text) == "" then []
    else
      var t := if useMarkdown then TextToMarkdown(text) else text;
      Finish(Run(Init(filename), Split(t, "\n"), filename, cs, tok), filename, tok)
  }

  /** The heading branch of the loop body. */
  method HeadingLine(st: HState, line: string, level: nat, filename: string, tok: Tokenizer)
    returns (out: HState)
    requires 1 <= level <= 4 && |line| > level + 1
    ensures out == OnHeading(st, line, level, filename, tok)
  {
    var chunks := st.chunks;
    if st.cur != [] {
      var content := Strip(Join("\n", st.cur));
      if content != "" {
        chunks := chunks + [HeadedChunk(content, st, filename, tok)];
      }
    }
    var header := Strip(line[level + 1..]);
    var title := st.title;
    var stack: seq<string>;
    if level == 1 {
      title := header;
      stack := [header];
    } else {
      stack := PyTake(st.stack, level - 1) + [header];
    }
    out := HState(chunks, [line], header, title, stack);
  }

  /** The body-line branch of the loop body. */
  method TextLine(st: HState, line: string, filename: string, cs: int, tok: Tokenizer)
    returns (out: HState)
    ensures out == OnText(st, line, filename, cs, tok)
  {
    var chunks := st.chunks;
    var cur := st.cur + [line];
    if CountTokens(tok, Join("\n", cur)) > cs {
      if |cur| > 1 {
        var content := Strip(Join("\n", cur[..|cur| - 1]));
        if content != "" {
          chunks := chunks + [HeadedChunk(content, st, filename, tok)];
        }
        cur := [cur[|cur| - 1]];
      } else {
        var words := SplitWhitespace(cur[0]);
        var half := |words| / 2;
        var content := Strip(Join(" ", words[..half]));
        if content != "" {
          chunks := chunks + [HeadedChunk(content, st, filename, tok)];
        }
        cur := [Join(" ", words[half..])];
      }
    }
    out := st.(chunks := chunks, cur := cur);
  }

  method SplitByHeaders(text: string, filename: string, useMarkdown: bool, cs: int, tok: Tokenizer)
    returns (chunks: seq<Chunk>)
    ensures chunks == HeadingChunks(text, filename, useMarkdown, cs, tok)
  {
    chunks := [];
    if Strip(text) == "" {
      return;
    }
    var t := text;
    if useMarkdown {
      t := TextToMarkdown(text);
    }
    var lines := Split(t, "\n");
    var st := Init(filename);
    var i := 0;
    while i < |lines|
      invariant 0 <= i <= |lines|
      invariant st == Run(Init(filename), lines[..i], filename, cs, tok)
    {
      PrefixSnoc(lines, i);
      RunSnoc(Init(filename), lines[..i], lines[i], filename, cs, tok);
      st := StepLine(st, lines[i], filename, cs, tok);
      i := i + 1;
    }
    assert lines[..i] == lines;
    chunks := FinishChunks(st, filename, tok);
  }

  /** The flush after the loop. */
  method FinishChunks(st: HState, filename: string, tok: Tokenizer) returns (chunks: seq<Chunk>)
    ensures chunks == Finish(st, filename, tok)
  {
    chunks := st.chunks;
    if st.cur != [] {
      var content := Strip(Join("\n", st.cur));
      if content != "" {
        chunks := chunks + [HeadedChunk(content, st, filename, tok)];
      }
    }
  }

  /** The body of the `for line in lines` loop. */
  method StepLine(st: HState, raw: string, filename: string, cs: int, tok: Tokenizer) returns (out: HState)
    ensures out == Step(st, raw, filename, cs, tok)
  {
    out := st;
    var line := Strip(raw);
    if line == "" {
      if st.cur != [] {
        out := st.(cur := st.cur + [""]);
      }
    } else {
      var level := HeadingLevel(line);
      if level > 0 {
        out := HeadingLine(st, line, level, filename, tok);
      } else {
        out := TextLine(st, line, filename, cs, tok);
      }
    }
  }

  // ---------------------------------------------------------------- properties

  /** The stack holds one to four entries, the current header is its top, and
      the document title is the file name until an h1 sets it to the bottom. */
  predicate StackOk(st: HState, filename: string) {
    1 <= |st.stack| <= 4 && st.header == Last(st.stack)
    && (st.title == st.stack[0] || (st.title == filename && st.stack[0] == "Документ"))
  }

  /** What every emitted chunk satisfies. */
  predicate ChunkOk(c: Chunk, filename: string, tok: Tokenizer) {
    c.content != "" && IsStripped(c.content) && c.tokens == CountTokens(tok, c.content)
    && "source" in c.metadata && "header" in c.metadata
    && "header_path" in c.metadata && "document_title" in c.metadata
    && c.metadata["source"] == filename
    && EndsWith(c.metadata["header_path"], c.metadata["header"])
    && (c.metadata["document_title"] == filename
        || StartsWith(c.metadata["header_path"], c.metadata["document_title"]))
  }

  predicate Inv(st: HState, filename: string, tok: Tokenizer) {
    StackOk(st, filename) && forall k :: 0 <= k < |st.chunks| ==> ChunkOk(st.chunks[k], filename, tok)
  }

  lemma EmitOk(st: HState, content: string, filename: string, tok: Tokenizer)
    requires Inv(st, filename, tok) && IsStripped(content)
    ensures forall k :: 0 <= k < |Emit(st, content, filename, tok)| ==> ChunkOk(Emit(st, content, filename, tok)[k], filename, tok)
  {
    if content != "" {
      JoinEnds(" -> ", st.stack);
      var c := HeadedChunk(content, st, filename, tok);
      assert ChunkOk(c, filename, tok);
      var r := st.chunks + [c];
      forall k | 0 <= k < |r| ensures ChunkOk(r[k], filename, tok) {
        if k < |st.chunks| { assert r[k] == st.chunks[k]; }
      }
    }
  }

  lemma HeadingInv(st: HState, line: string, level: nat, filename: string, tok: Tokenizer)
    requires Inv(st, filename, tok)
    requires 1 <= level <= 4 && |line| > level + 1
    ensures Inv(OnHeading(st, line, level, filename, tok), filename, tok)
  {
    if st.cur != [] { EmitOk(st, Pending(st), filename, tok); }
    var out := OnHeading(st, line, level, filename, tok);
    if level > 1 {
      assert out.stack[0] == PyTake(st.stack, level - 1)[0] == st.stack[0];
    }
  }

  /** Words joined by single spaces form a stripped text, empty only for no words. */
  lemma JoinWordsStripped(words: seq<string>)
    requires forall k :: 0 <= k < |words| ==> IsWord(words[k])
    ensures IsStripped(Join(" ", words)) && (Join(" ", words) == "" <==> words == [])
  {
    if words != [] {
      JoinStartsWithWord(words);
      JoinEnds(" ", words);
      var w := Last(words);
      assert IsWord(w);
      EndsWithLast(Join(" ", words), w);
    }
  }

  lemma WordsAreWords(s: string)
    ensures forall k :: 0 <= k < |SplitWhitespace(s)| ==> IsWord(SplitWhitespace(s)[k])
  {
  }

  lemma TextInv(st: HState, line: string, filename: string, cs: int, tok: Tokenizer)
    requires Inv(st, filename, tok)
    ensures Inv(OnText(st, line, filename, cs, tok), filename, tok)
  {
    var cur := st.cur + [line];
    if CountTokens(tok, Join("\n", cur)) > cs {
      if |cur| > 1 {
        EmitOk(st, Strip(Join("\n", cur[..|cur| - 1])), filename, tok);
      } else {
        var words := SplitWhitespace(line);
        WordsAreWords(line);
        JoinWordsStripped(words[..|words| / 2]);
        StripOfStripped(Join(" ", words[..|words| / 2]));
        EmitOk(st, Strip(Join(" ", words[..|words| / 2])), filename, tok);
      }
    }
  }

  lemma StepInv(st: HState, raw: string, filename: string, cs: int, tok: Tokenizer)
    requires Inv(st, filename, tok)
    ensures Inv(Step(st, raw, filename, cs, tok), filename, tok)
  {
    var line := Strip(raw);
    if line != "" {
      var level := HeadingLevel(line);
      if level > 0 {
        HeadingInv(st, line, level, filename, tok);
      } else {
        TextInv(st, line, filename, cs, tok);
      }
    }
  }

  lemma {:induction false} RunInv(st: HState, lines: seq<string>, filename: string, cs: int, tok: Tokenizer)
    requires Inv(st, filename, tok)
    ensures Inv(Run(st, lines, filename, cs, tok), filename, tok)
  {
    if lines != [] {
      RunInv(st, lines[..|lines| - 1], filename, cs, tok);
      StepInv(Run(st, lines[..|lines| - 1], filename, cs, tok), Last(lines), filename, cs, tok);
    }
  }

  /** Every chunk is non-empty and stripped, names the file as its source,
      carries its token count, has a header path ending in its header, and a
      title that is the file name or the first entry of that path. */
  lemma HeadingChunksOk(text: string, filename: string, useMarkdown: bool, cs: int, tok: Tokenizer)
    ensures forall k :: 0 <= k < |HeadingChunks(text, filename, useMarkdown, cs, tok)| ==>
      ChunkOk(HeadingChunks(text, filename, useMarkdown, cs, tok)[k], filename, tok)
  {
    if Strip(text) != "" {
      var t := if useMarkdown then TextToMarkdown(text) else text;
      InitInv(filename, tok);
      RunInv(Init(filename), Split(t, "\n"), filename, cs, tok);
      FinishOk(Run(Init(filename), Split(t, "\n"), filename, cs, tok), filename, tok);
    }
  }

  lemma InitInv(filename: string, tok: Tokenizer)
    ensures Inv(Init(filename), filename, tok)
  {
    JoinEnds(" -> ", ["Документ"]);
  }

  lemma FinishOk(st: HState, filename: string, tok: Tokenizer)
    requires Inv(st, filename, tok)
    ensures forall k :: 0 <= k < |Finish(st, filename, tok)| ==> ChunkOk(Finish(st, filename, tok)[k], filename, tok)
  {
    if st.cur != [] { EmitOk(st, Pending(st), filename, tok); }
  }

  /** The stack bound holds after every line. */
  lemma RunStackBound(lines: seq<string>, filename: string, cs: int, tok: Tokenizer)
    ensures 1 <= |Run(Init(filename), lines, filename, cs, tok).stack| <= 4
  {
    InitInv(filename, tok);
    RunInv(Init(filename), lines, filename, cs, tok);
  }

  // ---- a single oversized line is split at its word midpoint

  /** When the buffer holds only this line and it exceeds the budget, the
      buffer keeps the words of the second half, and the first half, when it has
      any word, is emitted with exactly those words: no word is lost or moved. */
  lemma ForcedSplitKeepsWords(st: HState, line: string, filename: string, cs: int, tok: Tokenizer)
    requires st.cur == [] && CountTokens(tok, line) > cs
    ensures var out := OnText(st, line, filename, cs, tok);
            var words := SplitWhitespace(line);
            var half := |words| / 2;
            |out.cur| == 1 && SplitWhitespace(out.cur[0]) == words[half..]
            && (half == 0 ==> out.chunks == st.chunks)
            && (half > 0 ==> out.chunks == st.chunks + [HeadedChunk(Join(" ", words[..half]), st, filename, tok)]
                             && SplitWhitespace(Last(out.chunks).content) == words[..half])
  {
    ForcedSplitRest(st, line, filename, cs, tok);
    ForcedSplitHead(st, line, filename, cs, tok);
  }

  lemma ForcedSplitRest(st: HState, line: string, filename: string, cs: int, tok: Tokenizer)
    requires st.cur == [] && CountTokens(tok, line) > cs
    ensures var out := OnText(st, line, filename, cs, tok);
            var words := SplitWhitespace(line);
            |out.cur| == 1 && SplitWhitespace(out.cur[0]) == words[|words| / 2..]
  {
    var words := SplitWhitespace(line);
    OnTextSingle(st, line, filename, cs, tok);
    WordsAreWords(line);
    SplitWhitespaceJoin(words[|words| / 2..]);
  }

  lemma ForcedSplitHead(st: HState, line: string, filename: string, cs: int, tok: Tokenizer)
    requires st.cur == [] && CountTokens(tok, line) > cs
    ensures var out := OnText(st, line, filename, cs, tok);
            var words := SplitWhitespace(line);
            var half := |words| / 2;
            && (half == 0 ==> out.chunks == st.chunks)
            && (half > 0 ==> out.chunks == st.chunks + [HeadedChunk(Join(" ", words[..half]), st, filename, tok)]
                             && SplitWhitespace(Last(out.chunks).content) == words[..half])
  {
    var words := SplitWhitespace(line);
    var half := |words| / 2;
    OnTextSingle(st, line, filename, cs, tok);
    WordsAreWords(line);
    var head := Join(" ", words[..half]);
    JoinWordsStripped(words[..half]);
    StripOfStripped(head);
    if half > 0 {
      SplitWhitespaceJoin(words[..half]);
      EmitSome(st, head, filename, tok);
    }
  }

  lemma EmitSome(st: HState, content: string, filename: string, tok: Tokenizer)
    requires content != ""
    ensures Emit(st, content, filename, tok) == st.chunks + [HeadedChunk(content, st, filename, tok)]
    ensures Last(Emit(st, content, filename, tok)).content == content
  {
  }

  /** A lone line over the budget takes the word-midpoint branch. */
  lemma OnTextSingle(st: HState, line: string, filename: string, cs: int, tok: Tokenizer)
    requires st.cur == [] && CountTokens(tok, line) > cs
    ensures OnText(st, line, filename, cs, tok)
            == st.(chunks := Emit(st, Strip(Join(" ", SplitWhitespace(line)[..|SplitWhitespace(line)| / 2])), filename, tok),
                   cur := [Join(" ", SplitWhitespace(line)[|SplitWhitespace(line)| / 2..])])
  {
    assert st.cur + [line] == [line];
    assert Join("\n", [line]) == line;
  }

  // ---- the heading path of a small document

  lemma ExampleLines()
    ensures Split("# A\n## B\n### C\nbody", "\n") == ["# A", "## B", "### C", "body"]
  {
    var parts := ["# A", "## B", "### C", "body"];
    forall k | 0 <= k < |parts| ensures !Contains(parts[k], "\n") {
      LacksContains(parts[k], '\n');
    }
    assert Join("\n", parts[3..]) == "body";
    assert Join("\n", parts[2..]) == "### C\nbody";
    assert Join("\n", parts[1..]) == "## B\n### C\nbody";
    assert Join("\n", parts) == "# A\n## B\n### C\nbody";
    SplitJoin(parts, "\n");
  }

  lemma ExampleLevels()
    ensures HeadingLevel("# A") == 1 && HeadingLevel("## B") == 2
    ensures HeadingLevel("### C") == 3 && HeadingLevel("body") == 0
  {
    assert "## B"[..2] != "# " by { assert "## B"[1] == '#'; }
    assert "### C"[..2] != "# " by { assert "### C"[1] == '#'; }
    assert "### C"[..3] != "## " by { assert "### C"[2] == '#'; }
    assert "body"[..2] != "# " && "body"[..3] != "## " && "body"[..4] != "### " by { assert "body"[0] == 'b'; }
    assert "# A"[..2] == "# ";
    assert "## B"[..3] == "## ";
    assert "### C"[..4] == "### ";
  }

  lemma ExampleStep1(filename: string)
    ensures Step(Init(filename), "# A", filename, 1500, None) == HState([], ["# A"], "A", "A", ["A"])
  {
    StripOfStripped("# A");
    StripOfStripped("A");
    assert "# A"[2..] == "A";
    ExampleLevels();
  }

  /** The fields of the loop state the example follows. */
  predicate At(st: HState, cur: seq<string>, header: string, title: string, stack: seq<string>) {
    st.cur == cur && st.header == header && st.title == title && st.stack == stack
  }

  lemma StepHeading(st: HState, line: string, filename: string, cs: int, tok: Tokenizer)
    requires IsStripped(line) && HeadingLevel(line) > 0
    ensures var out := Step(st, line, filename, cs, tok);
            var level := HeadingLevel(line);
            var h := HeadingText(line, level);
            out.cur == [line] && out.header == h && out.stack == NewStack(st.stack, level, h)
            && out.title == (if level == 1 then h else st.title)
  {
    StripOfStripped(line);
  }

  lemma StepTextFits(st: HState, line: string, filename: string, cs: int, tok: Tokenizer)
    requires IsStripped(line) && line != "" && HeadingLevel(line) == 0
    requires CountTokens(tok, Join("\n", st.cur + [line])) <= cs
    ensures Step(st, line, filename, cs, tok) == st.(cur := st.cur + [line])
  {
    StripOfStripped(line);
  }

  lemma ExampleStep2(st: HState, filename: string)
    requires At(st, ["# A"], "A", "A", ["A"])
    ensures At(Step(st, "## B", filename, 1500, None), ["## B"], "B", "A", ["A", "B"])
  {
    StripOfStripped("B");
    assert "## B"[3..] == "B";
    ExampleLevels();
    var a: seq<string> := ["A"];
    assert PyTake(a, 1) == a[..1] == a;
    assert NewStack(a, 2, "B") == a + ["B"] == ["A", "B"];
    StepHeading(st, "## B", filename, 1500, None);
  }

  lemma ExampleStep3(st: HState, filename: string)
    requires At(st, ["## B"], "B", "A", ["A", "B"])
    ensures At(Step(st, "### C", filename, 1500, None), ["### C"], "C", "A", ["A", "B", "C"])
  {
    StripOfStripped("C");
    assert "### C"[4..] == "C";
    ExampleLevels();
    var ab: seq<string> := ["A", "B"];
    assert PyTake(ab, 2) == ab[..2] == ab;
    assert NewStack(ab, 3, "C") == ab + ["C"] == ["A", "B", "C"];
    StepHeading(st, "### C", filename, 1500, None);
  }

  lemma ExampleStep4(st: HState, filename: string)
    requires At(st, ["### C"], "C", "A", ["A", "B", "C"])
    ensures At(Step(st, "body", filename, 1500, None), ["### C", "body"], "C", "A", ["A", "B", "C"])
  {
    ExampleLevels();
    assert ["### C"] + ["body"] == ["### C", "body"];
    assert Join("\n", ["### C", "body"]) == "### C\nbody";
    assert CountTokens(None, "### C\nbody") == 2;
    StepTextFits(st, "body", filename, 1500, None);
  }

  lemma RunSnoc(st: HState, lines: seq<string>, line: string, filename: string, cs: int, tok: Tokenizer)
    ensures Run(st, lines + [line], filename, cs, tok) == Step(Run(st, lines, filename, cs, tok), line, filename, cs, tok)
  {
    assert (lines + [line])[..|lines|] == lines;
  }

  lemma RunPair(st: HState, a: string, b: string, filename: string, cs: int, tok: Tokenizer)
    ensures Run(st, [a, b], filename, cs, tok) == Step(Step(st, a, filename, cs, tok), b, filename, cs, tok)
  {
    RunSnoc(st, [], a, filename, cs, tok);
    RunSnoc(st, [a], b, filename, cs, tok);
    assert [] + [a] == [a] && [a] + [b] == [a, b];
  }

  /** Example: the loop state after "# A", "## B". */
  lemma ExampleRun2(filename: string)
    ensures At(Run(Init(filename), ["# A", "## B"], filename, 1500, None), ["## B"], "B", "A", ["A", "B"])
  {
    var i := Init(filename);
    RunPair(i, "# A", "## B", filename, 1500, None);
    ExampleStep1(filename);
    ExampleStep2(Step(i, "# A", filename, 1500, None), filename);
  }

  /** Example: the loop state after "# A", "## B", "### C". */
  lemma ExampleRun3(filename: string)
    ensures At(Run(Init(filename), ["# A", "## B", "### C"], filename, 1500, None), ["### C"], "C", "A", ["A", "B", "C"])
  {
    var i := Init(filename);
    ExampleRun2(filename);
    RunSnoc(i, ["# A", "## B"], "### C", filename, 1500, None);
    assert ["# A", "## B"] + ["### C"] == ["# A", "## B", "### C"];
    ExampleStep3(Run(i, ["# A", "## B"], filename, 1500, None), filename);
  }

  lemma ExampleRun(filename: string)
    ensures At(Run(Init(filename), ["# A", "## B", "### C", "body"], filename, 1500, None),
               ["### C", "body"], "C", "A", ["A", "B", "C"])
  {
    var i := Init(filename);
    ExampleRun3(filename);
    RunSnoc(i, ["# A", "## B", "### C"], "body", filename, 1500, None);
    assert ["# A", "## B", "### C"] + ["body"] == ["# A", "## B", "### C", "body"];
    ExampleStep4(Run(i, ["# A", "## B", "### C"], filename, 1500, None), filename);
  }

  lemma ExamplePath()
    ensures Join(" -> ", ["A", "B", "C"]) == "A -> B -> C"
  {
    assert Join(" -> ", ["C"]) == "C";
    assert Join(" -> ", ["B", "C"]) == "B -> C";
  }

  lemma FinishPending(st: HState, filename: string, tok: Tokenizer)
    requires st.cur != [] && Pending(st) != ""
    ensures Finish(st, filename, tok) == st.chunks + [HeadedChunk(Pending(st), st, filename, tok)]
  {
  }

  /** Example: the sample's pending lines join to "### C\nbody". */
  lemma ExamplePending(st: HState)
    requires st.cur == ["### C", "body"]
    ensures Pending(st) == "### C\nbody"
  {
    assert Join("\n", st.cur) == "### C\nbody";
    StripOfStripped("### C\nbody");
  }

  lemma ExampleFinish(st: HState, filename: string)
    requires At(st, ["### C", "body"], "C", "A", ["A", "B", "C"])
    ensures var chunks := Finish(st, filename, None);
            |chunks| > 0
            && Last(chunks).content == "### C\nbody"
            && var m := Last(chunks).metadata;
            "header_path" in m && m["header_path"] == "A -> B -> C"
            && "header" in m && m["header"] == "C"
            && "document_title" in m && m["document_title"] == "A"
  {
    ExamplePending(st);
    FinishPending(st, filename, None);
    ExamplePath();
  }

  /** Example: a document "# A", "## B", "### C", body ends in a chunk whose header
      path is "A -> B -> C", with header "C" and title "A". */
  lemma HeaderPathExample(filename: string)
    ensures var chunks := HeadingChunks("# A\n## B\n### C\nbody", filename, false, 1500, None);
            |chunks| > 0
            && Last(chunks).content == "### C\nbody"
            && var m := Last(chunks).metadata;
            "header_path" in m && m["header_path"] == "A -> B -> C"
            && "header" in m && m["header"] == "C"
            && "document_title" in m && m["document_title"] == "A"
  {
    var text := "# A\n## B\n### C\nbody";
    assert !IsSpace(text[0]) && !IsSpace(text[|text| - 1]);
    StripOfStripped(text);
    ExampleLines();
    ExampleRun(filename);
    var st := Run(Init(filename), ["# A", "## B", "### C", "body"], filename, 1500, None);
    assert HeadingChunks(text, filename, false, 1500, None) == Finish(st, filename, None);
    ExampleFinish(st, filename);
  }
}
