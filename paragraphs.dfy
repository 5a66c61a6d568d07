/** `DocumentProcessor.split_text` without Markdown: paragraphs (pieces
    between matches of `\n\s*\n`) are packed into chunks by a character
    budget, and a paragraph longer than the budget is re-split into
    sentences (pieces between runs of `[.!?]`). */
module ParagraphChunker {
  import opened Text
  import opened Chunks

  // ---------------------------------------------------------------- re.split(r'\n\s*\n', text)

  /** End of the whitespace run starting at `j`. */
  function WsRunEnd(s: string, j: nat): (e: nat)
    requires j <= |s|
    ensures j <= e <= |s|
    ensures forall k :: j <= k < e ==> IsSpace(s[k])
    ensures e < |s| ==> !IsSpace(s[e])
    decreases |s| - j
  {
    if j < |s| && IsSpace(s[j]) then WsRunEnd(s, j + 1) else j
  }

  /** The last newline in `s[a..b]`. */
  function LastNewline(s: string, a: nat, b: nat): (r: Option<nat>)
    requires a <= b <= |s|
    ensures r.Some? ==> a <= r.value < b && s[r.value] == '\n'
    ensures r.None? ==> forall k :: a <= k < b ==> s[k] != '\n'
    decreases b - a
  {
    if a == b then None
    else if s[b - 1] == '\n' then Some(b - 1)
    else LastNewline(s, a, b - 1)
  }

  /** Where a match of `\n\s*\n` that starts at `i` ends: the greedy `\s*`
      takes the whole whitespace run and gives characters back until a
      newline follows. */
  function SeparatorEnd(s: string, i: nat): (r: Option<nat>)
    requires i <= |s|
    ensures r.Some? ==> i + 2 <= r.value <= |s| && IsBlank(s[i..r.value])
  {
    if i < |s| && s[i] == '\n' then
      var e := WsRunEnd(s, i + 1);
      match LastNewline(s, i + 1, e)
      case Some(k) =>
        assert forall j :: i <= j < k + 1 ==> IsSpace(s[j]);
        Some(k + 1)
      case None => None
    else None
  }

  datatype Match = Match(start: nat, end: nat)

  /** The leftmost match at or after `from`. */
  function FindSeparator(s: string, from: nat): (r: Option<Match>)
    requires from <= |s|
    ensures r.Some? ==> from <= r.value.start && r.value.start + 2 <= r.value.end <= |s|
                        && IsBlank(s[r.value.start..r.value.end])
    decreases |s| - from
  {
    if from == |s| then None
    else match SeparatorEnd(s, from)
      case Some(e) => Some(Match(from, e))
      case None => FindSeparator(s, from + 1)
  }

  /** `re.split(r'\n\s*\n', s)`. */
  function ParagraphSplit(s: string): (r: seq<string>)
    ensures |r| >= 1
    decreases |s|
  {
    match FindSeparator(s, 0)
    case None => [s]
    case Some(m) => [s[..m.start]] + ParagraphSplit(s[m.end..])
  }

  predicate AllBlank(parts: seq<string>) {
    forall k :: 0 <= k < |parts| ==> IsBlank(parts[k])
  }

  /** The pieces and the (at least two-character) separators between them
      make up the text, so the pieces are short and blank only if the text is. */
  lemma {:induction false} ParagraphSplitCovers(s: string)
    ensures SumLen(ParagraphSplit(s)) + 2 * (|ParagraphSplit(s)| - 1) <= |s|
    ensures AllBlank(ParagraphSplit(s)) <==> IsBlank(s)
    decreases |s|
  {
    match FindSeparator(s, 0)
    case None =>
      assert SumLen([s]) == SumLen([]) + |s|;
    case Some(m) =>
      var rest := s[m.end..];
      var tail := ParagraphSplit(rest);
      ParagraphSplitCovers(rest);
      SumLenCons(s[..m.start], tail);
      if IsBlank(s) {
        forall k | 0 <= k < |[s[..m.start]] + tail| ensures IsBlank(([s[..m.start]] + tail)[k]) {
          if k == 0 {
            forall j | 0 <= j < m.start ensures IsSpace(s[..m.start][j]) { assert s[..m.start][j] == s[j]; }
          } else {
            forall j | 0 <= j < |rest| ensures IsSpace(rest[j]) { assert rest[j] == s[m.end + j]; }
          }
        }
      }
      if AllBlank([s[..m.start]] + tail) {
        assert IsBlank(s[..m.start]) by { assert ([s[..m.start]] + tail)[0] == s[..m.start]; }
        assert AllBlank(tail) by {
          forall k | 0 <= k < |tail| ensures IsBlank(tail[k]) { assert ([s[..m.start]] + tail)[k + 1] == tail[k]; }
        }
        forall j | 0 <= j < |s| ensures IsSpace(s[j]) {
          if j < m.start { assert s[..m.start][j] == s[j]; }
          else if j < m.end { assert s[m.start..m.end][j - m.start] == s[j]; }
          else { assert rest[j - m.end] == s[j]; }
        }
      }
  }

  lemma {:induction false} SumLenCons(x: string, xs: seq<string>)
    ensures SumLen([x] + xs) == |x| + SumLen(xs)
    decreases |xs|
  {
    if xs == [] {
      assert SumLen([x]) == SumLen([]) + |x|;
    } else {
      var init := xs[..|xs| - 1];
      SumLenCons(x, init);
      assert ([x] + xs)[..|xs|] == [x] + init;
    }
  }

  // ---------------------------------------------------------------- re.split(r'[.!?]+', p)

  predicate IsSentenceEnd(c: char) { c == '.' || c == '!' || c == '?' }

  function PunctRun(s: string): (n: nat)
    ensures n <= |s|
    ensures n < |s| ==> !IsSentenceEnd(s[n])
  {
    if s != [] && IsSentenceEnd(s[0]) then 1 + PunctRun(s[1..]) else 0
  }

  function FirstPunct(s: string): (r: Option<nat>)
    ensures r.Some? ==> r.value < |s| && IsSentenceEnd(s[r.value])
    ensures r.Some? ==> forall k :: 0 <= k < r.value ==> !IsSentenceEnd(s[k])
    ensures r.None? ==> forall k :: 0 <= k < |s| ==> !IsSentenceEnd(s[k])
  {
    if s == [] then None
    else if IsSentenceEnd(s[0]) then Some(0)
    else match FirstPunct(s[1..])
      case Some(i) => Some(i + 1)
      case None => None
  }

  /** `re.split(r'[.!?]+', s)`; the punctuation itself is in no piece. */
  function SentenceSplit(s: string): (r: seq<string>)
    ensures |r| >= 1
    ensures forall k, i :: 0 <= k < |r| && 0 <= i < |r[k]| ==> !IsSentenceEnd(r[k][i])
    decreases |s|
  {
    match FirstPunct(s)
    case None => [s]
    case Some(i) =>
      var j := i + PunctRun(s[i..]);
      [s[..i]] + SentenceSplit(s[j..])
  }

  // ---------------------------------------------------------------- packing

  /** The chunks emitted so far and `current_chunk`. */
  datatype Pack = Pack(done: seq<string>, cur: string)

  /** The chunks after the final `if current_chunk:` flush. */
  function Flush(st: Pack): seq<string> {
    if st.cur != "" then st.done + [st.cur] else st.done
  }

  /** One turn of the sentence loop. */
  function AddSentence(st: Pack, raw: string, cs: int): Pack {
    var s := Strip(raw);
    if s == "" then st
    else if |st.cur| + |s| + 1 <= cs then Pack(st.done, if st.cur != "" then st.cur + " " + s else s)
    else Pack(Flush(st), s)
  }

  function AddSentences(st: Pack, sentences: seq<string>, cs: int): Pack {
    if sentences == [] then st
    else AddSentence(AddSentences(st, sentences[..|sentences| - 1], cs), Last(sentences), cs)
  }

  /** One turn of the paragraph loop. */
  function AddParagraph(st: Pack, raw: string, cs: int): Pack {
    var p := Strip(raw);
    if p == "" then st
    else if |st.cur| + |p| + 1 <= cs then Pack(st.done, if st.cur != "" then st.cur + "\n\n" + p else p)
    else if |p| > cs then AddSentences(Pack(Flush(st), ""), SentenceSplit(p), cs)
    else Pack(Flush(st), p)
  }

  function AddParagraphs(st: Pack, paragraphs: seq<string>, cs: int): Pack {
    if paragraphs == [] then st
    else AddParagraph(AddParagraphs(st, paragraphs[..|paragraphs| - 1], cs), Last(paragraphs), cs)
  }

  /** The chunk texts `split_text` produces for a chunk size `cs`. */
  function ChunkTexts(text: string, cs: int): seq<string> {
    if Strip(text) == "" then [] else Flush(AddParagraphs(Pack([], ""), ParagraphSplit(text), cs))
  }

  function PlainChunk(content: string, filename: string, tok: Tokenizer): Chunk {
    Chunk(content, map["source" := filename, "document_title" := filename], CountTokens(tok, content))
  }

  function PlainChunks(contents: seq<string>, filename: string, tok: Tokenizer): (r: seq<Chunk>)
    ensures |r| == |contents|
    ensures forall k :: 0 <= k < |r| ==>
      (r[k].content == contents[k]
       && r[k].metadata == map["source" := filename, "document_title" := filename]
       && r[k].tokens == CountTokens(tok, contents[k]))
  {
    seq(|contents|, k requires 0 <= k < |contents| => PlainChunk(contents[k], filename, tok))
  }

  lemma PlainChunksSnoc(contents: seq<string>, c: string, filename: string, tok: Tokenizer)
    ensures PlainChunks(contents + [c], filename, tok) == PlainChunks(contents, filename, tok) + [PlainChunk(c, filename, tok)]
  {
  }

  /** The sentence loop of one oversized paragraph, which starts from an
      empty `current_chunk`. */
  method PackSentences(done0: seq<string>, chunks0: seq<Chunk>, sentences: seq<string>, cs: int,
                       filename: string, tok: Tokenizer)
    returns (done: seq<string>, cur: string, chunks: seq<Chunk>)
    requires chunks0 == PlainChunks(done0, filename, tok)
    ensures Pack(done, cur) == AddSentences(Pack(done0, ""), sentences, cs)
    ensures chunks == PlainChunks(done, filename, tok)
  {
    done, cur, chunks := done0, "", chunks0;
    var j := 0;
    while j < |sentences|
      invariant 0 <= j <= |sentences|
      invariant Pack(done, cur) == AddSentences(Pack(done0, ""), sentences[..j], cs)
      invariant chunks == PlainChunks(done, filename, tok)
    {
      assert sentences[..j + 1][..j] == sentences[..j];
      var s := Strip(sentences[j]);
      if s != "" {
        if |cur| + |s| + 1 <= cs {
          cur := if cur != "" then cur + " " + s else s;
        } else {
          if cur != "" {
            PlainChunksSnoc(done, cur, filename, tok);
            chunks := chunks + [PlainChunk(cur, filename, tok)];
            done := done + [cur];
          }
          cur := s;
        }
      }
      j := j + 1;
    }
    assert sentences[..j] == sentences;
  }

  /** The paragraph-mode `split_text(text, filename)`. */
  method SplitText(text: string, filename: string, cs: int, tok: Tokenizer) returns (chunks: seq<Chunk>)
    ensures chunks == PlainChunks(ChunkTexts(text, cs), filename, tok)
  {
    chunks := [];
    if Strip(text) == "" {
      return;
    }
    var paragraphs := ParagraphSplit(text);
    var done: seq<string> := [];
    var cur := "";
    var i := 0;
    while i < |paragraphs|
      invariant 0 <= i <= |paragraphs|
      invariant Pack(done, cur) == AddParagraphs(Pack([], ""), paragraphs[..i], cs)
      invariant chunks == PlainChunks(done, filename, tok)
    {
      AddParagraphsSnoc(Pack([], ""), paragraphs, i, cs);
      done, cur, chunks := PackParagraph(done, cur, chunks, paragraphs[i], cs, filename, tok);
      i := i + 1;
    }
    assert paragraphs[..i] == paragraphs;
    if cur != "" {
      PlainChunksSnoc(done, cur, filename, tok);
      chunks := chunks + [PlainChunk(cur, filename, tok)];
      done := done + [cur];
    }
  }

  lemma AddParagraphsSnoc(st: Pack, ps: seq<string>, i: nat, cs: int)
    requires i < |ps|
    ensures AddParagraphs(st, ps[..i + 1], cs) == AddParagraph(AddParagraphs(st, ps[..i], cs), ps[i], cs)
  {
    assert ps[..i + 1][..i] == ps[..i];
  }

  /** One turn of the paragraph loop of `split_text`. */
  method PackParagraph(done0: seq<string>, cur0: string, chunks0: seq<Chunk>, raw: string, cs: int,
                       filename: string, tok: Tokenizer)
    returns (done: seq<string>, cur: string, chunks: seq<Chunk>)
    requires chunks0 == PlainChunks(done0, filename, tok)
    ensures Pack(done, cur) == AddParagraph(Pack(done0, cur0), raw, cs)
    ensures chunks == PlainChunks(done, filename, tok)
  {
    done, cur, chunks := done0, cur0, chunks0;
    var p := Strip(raw);
    if p != "" {
      if |cur| + |p| + 1 <= cs {
        cur := if cur != "" then cur + "\n\n" + p else p;
      } else {
        if cur != "" {
          PlainChunksSnoc(done, cur, filename, tok);
          chunks := chunks + [PlainChunk(cur, filename, tok)];
          done := done + [cur];
        }
        if |p| > cs {
          done, cur, chunks := PackSentences(done, chunks, SentenceSplit(p), cs, filename, tok);
        } else {
          cur := p;
        }
      }
    }
  }

  // ---------------------------------------------------------------- properties

  /** Every pending and emitted chunk is non-empty and has no surrounding whitespace. */
  predicate WellFormed(st: Pack) {
    (forall k :: 0 <= k < |st.done| ==> st.done[k] != "" && IsStripped(st.done[k]))
    && IsStripped(st.cur)
  }

  lemma JoinStripped(a: string, sep: string, b: string)
    requires a != "" && b != "" && IsStripped(a) && IsStripped(b)
    ensures IsStripped(a + sep + b)
  {
    assert (a + sep + b)[0] == a[0];
    assert (a + sep + b)[|a + sep + b| - 1] == b[|b| - 1];
  }

  lemma {:induction false} AddSentencesWellFormed(st: Pack, sentences: seq<string>, cs: int)
    requires WellFormed(st)
    ensures WellFormed(AddSentences(st, sentences, cs))
  {
    if sentences != [] {
      var mid := AddSentences(st, sentences[..|sentences| - 1], cs);
      AddSentencesWellFormed(st, sentences[..|sentences| - 1], cs);
      var s := Strip(Last(sentences));
      if s != "" && mid.cur != "" { JoinStripped(mid.cur, " ", s); }
    }
  }

  lemma {:induction false} AddParagraphsWellFormed(st: Pack, paragraphs: seq<string>, cs: int)
    requires WellFormed(st)
    ensures WellFormed(AddParagraphs(st, paragraphs, cs))
  {
    if paragraphs != [] {
      var mid := AddParagraphs(st, paragraphs[..|paragraphs| - 1], cs);
      AddParagraphsWellFormed(st, paragraphs[..|paragraphs| - 1], cs);
      var p := Strip(Last(paragraphs));
      if p != "" {
        if |mid.cur| + |p| + 1 <= cs {
          if mid.cur != "" { JoinStripped(mid.cur, "\n\n", p); }
        } else if |p| > cs {
          AddSentencesWellFormed(Pack(Flush(mid), ""), SentenceSplit(p), cs);
        }
      }
    }
  }

  /** Every chunk `split_text` emits is non-empty and stripped. */
  lemma ChunkTextsWellFormed(text: string, cs: int)
    ensures forall k :: 0 <= k < |ChunkTexts(text, cs)| ==>
      ChunkTexts(text, cs)[k] != "" && IsStripped(ChunkTexts(text, cs)[k])
  {
    if Strip(text) != "" {
      AddParagraphsWellFormed(Pack([], ""), ParagraphSplit(text), cs);
    }
  }

  // ---- the chunk-size bound

  predicate Within(st: Pack, bound: int) {
    (forall k :: 0 <= k < |st.done| ==> |st.done[k]| <= bound) && (st.cur == "" || |st.cur| <= bound)
  }

  /** Every sentence of `p` fits in `cs` characters. */
  predicate SentencesFit(p: string, cs: int) {
    forall k :: 0 <= k < |SentenceSplit(p)| ==> |Strip(SentenceSplit(p)[k])| <= cs
  }

  /** Every paragraph of `text` that gets re-split has sentences that fit. */
  predicate LongParagraphsSplittable(text: string, cs: int) {
    forall k :: 0 <= k < |ParagraphSplit(text)| && |Strip(ParagraphSplit(text)[k])| > cs ==>
      SentencesFit(Strip(ParagraphSplit(text)[k]), cs)
  }

  lemma {:induction false} AddSentencesWithin(st: Pack, sentences: seq<string>, cs: int)
    requires Within(st, cs + 1) && (st.cur == "" || |st.cur| <= cs)
    requires forall k :: 0 <= k < |sentences| ==> |Strip(sentences[k])| <= cs
    ensures Within(AddSentences(st, sentences, cs), cs + 1)
    ensures AddSentences(st, sentences, cs).cur == "" || |AddSentences(st, sentences, cs).cur| <= cs
  {
    if sentences != [] {
      AddSentencesWithin(st, sentences[..|sentences| - 1], cs);
      assert |Strip(Last(sentences))| <= cs;
    }
  }

  lemma {:induction false} AddParagraphsWithin(st: Pack, ps: seq<string>, cs: int)
    requires Within(st, cs + 1)
    requires forall k :: 0 <= k < |ps| && |Strip(ps[k])| > cs ==> SentencesFit(Strip(ps[k]), cs)
    ensures Within(AddParagraphs(st, ps, cs), cs + 1)
  {
    if ps != [] {
      var init := ps[..|ps| - 1];
      AddParagraphsWithin(st, init, cs);
      var mid := AddParagraphs(st, init, cs);
      var p := Strip(Last(ps));
      if p != "" && |mid.cur| + |p| + 1 > cs && |p| > cs {
        assert SentencesFit(p, cs) by { assert Last(ps) == ps[|ps| - 1]; }
        AddSentencesWithin(Pack(Flush(mid), ""), SentenceSplit(p), cs);
      }
    }
  }

  /** A chunk is at most one character over the budget: the fit test counts
      one separator character but the join inserts two. */
  lemma ChunkTextsBound(text: string, cs: int)
    requires LongParagraphsSplittable(text, cs)
    ensures forall k :: 0 <= k < |ChunkTexts(text, cs)| ==> |ChunkTexts(text, cs)[k]| <= cs + 1
  {
    if Strip(text) != "" {
      AddParagraphsWithin(Pack([], ""), ParagraphSplit(text), cs);
    }
  }

  lemma ParagraphSplitExample()
    ensures ParagraphSplit("a\n\nbc") == ["a", "bc"]
  {
    var t := "a\n\nbc";
    assert SeparatorEnd(t, 0) == None;
    assert WsRunEnd(t, 2) == 3;
    assert LastNewline(t, 2, 3) == Some(2);
    assert SeparatorEnd(t, 1) == Some(3);
    assert FindSeparator(t, 0) == Some(Match(1, 3));
    assert t[3..] == "bc";
    assert SeparatorEnd("bc", 0) == None && SeparatorEnd("bc", 1) == None;
    assert FindSeparator("bc", 2) == None;
    assert FindSeparator("bc", 1) == None;
    assert FindSeparator("bc", 0) == None;
    assert ParagraphSplit("bc") == ["bc"];
    assert t[..1] == "a";
  }

  lemma PackExample()
    ensures AddParagraphs(Pack([], ""), ["a", "bc"], 4) == Pack([], "a\n\nbc")
  {
    StripOfStripped("a");
    StripOfStripped("bc");
    var one := ["a"];
    var two := ["a", "bc"];
    assert two[..1] == one && Last(two) == "bc";
    assert one[..0] == [] && Last(one) == "a";
    var st1 := AddParagraphs(Pack([], ""), one, 4);
    assert st1 == AddParagraph(Pack([], ""), "a", 4);
    assert st1 == Pack([], "a");
    var st2 := AddParagraph(st1, "bc", 4);
    assert |st1.cur| + |Strip("bc")| + 1 <= 4;
    assert st2 == Pack([], "a" + "\n\n" + "bc");
    assert "a" + "\n\n" + "bc" == "a\n\nbc";
  }

  /** The bound is reached: with a budget of 4, "a" and "bc" are packed into a
      five-character chunk. */
  lemma ChunkTextsOverBudgetExample()
    ensures ChunkTexts("a\n\nbc", 4) == ["a\n\nbc"]
  {
    var t := "a\n\nbc";
    ParagraphSplitExample();
    PackExample();
    assert !IsSpace(t[0]);
    assert Strip(t) != "";
  }

  // ---- nothing lost when no paragraph is re-split

  /** The stripped non-blank paragraphs in order. */
  function NonBlank(ps: seq<string>): seq<string> {
    if ps == [] then []
    else
      var r := NonBlank(ps[..|ps| - 1]);
      if Strip(Last(ps)) == "" then r else r + [Strip(Last(ps))]
  }

  lemma {:induction false} AddParagraphsKeepsText(ps: seq<string>, cs: int)
    requires forall k :: 0 <= k < |ps| ==> |Strip(ps[k])| <= cs
    ensures Join("\n\n", Flush(AddParagraphs(Pack([], ""), ps, cs))) == Join("\n\n", NonBlank(ps))
    ensures (Flush(AddParagraphs(Pack([], ""), ps, cs)) == []) == (NonBlank(ps) == [])
  {
    if ps != [] {
      var init := ps[..|ps| - 1];
      AddParagraphsKeepsText(init, cs);
      assert |Strip(Last(ps))| <= cs by { assert Last(ps) == ps[|ps| - 1]; }
      AddParagraphKeepsText(AddParagraphs(Pack([], ""), init, cs), Last(ps), cs, NonBlank(init));
    }
  }

  /** One paragraph that fits the budget: the chunks joined by blank lines
      gain exactly that paragraph, stripped, if it is not blank. */
  lemma AddParagraphKeepsText(mid: Pack, raw: string, cs: int, nb: seq<string>)
    requires |Strip(raw)| <= cs
    requires Join("\n\n", Flush(mid)) == Join("\n\n", nb) && (Flush(mid) == []) == (nb == [])
    ensures var more := if Strip(raw) == "" then nb else nb + [Strip(raw)];
            Join("\n\n", Flush(AddParagraph(mid, raw, cs))) == Join("\n\n", more)
            && (Flush(AddParagraph(mid, raw, cs)) == []) == (more == [])
  {
    var p := Strip(raw);
    var sep := "\n\n";
    if p != "" {
      JoinSnoc(sep, nb, p);
      if |mid.cur| + |p| + 1 <= cs && mid.cur != "" {
        PackExtendsLast(mid, p);
      } else {
        JoinSnoc(sep, Flush(mid), p);
      }
    }
  }

  /** Appending a paragraph to a non-empty current chunk extends the joined text by it. */
  lemma PackExtendsLast(mid: Pack, p: string)
    requires mid.cur != ""
    ensures Join("\n\n", Flush(Pack(mid.done, mid.cur + "\n\n" + p))) == Join("\n\n", Flush(mid)) + "\n\n" + p
  {
    var sep := "\n\n";
    JoinSnoc(sep, mid.done, mid.cur);
    JoinSnoc(sep, mid.done, mid.cur + sep + p);
    if mid.done != [] {
      ConcatAssoc(Join(sep, mid.done) + sep, mid.cur + sep, p);
      ConcatAssoc(Join(sep, mid.done) + sep, mid.cur, sep);
    }
  }

  /** When no paragraph exceeds the budget, the chunks joined by blank lines
      are the stripped paragraphs joined by blank lines. */
  lemma ChunkTextsKeepParagraphs(text: string, cs: int)
    requires forall k :: 0 <= k < |ParagraphSplit(text)| ==> |Strip(ParagraphSplit(text)[k])| <= cs
    ensures Join("\n\n", ChunkTexts(text, cs)) == Join("\n\n", NonBlank(ParagraphSplit(text)))
  {
    var ps := ParagraphSplit(text);
    AddParagraphsKeepsText(ps, cs);
    if Strip(text) == "" {
      ParagraphSplitCovers(text);
      NonBlankOfAllBlank(ps);
    }
  }

  lemma {:induction false} NonBlankOfAllBlank(ps: seq<string>)
    requires AllBlank(ps)
    ensures NonBlank(ps) == []
  {
    if ps != [] {
      NonBlankOfAllBlank(ps[..|ps| - 1]);
      assert IsBlank(Last(ps));
    }
  }

  // ---- a short text gives one chunk

  lemma {:induction false} AddParagraphsShort(ps: seq<string>, cs: int)
    requires SumLen(ps) + 2 * |ps| <= cs + 1
    ensures AddParagraphs(Pack([], ""), ps, cs) == Pack([], Join("\n\n", NonBlank(ps)))
    ensures (Join("\n\n", NonBlank(ps)) == "") == (NonBlank(ps) == [])
    ensures ps != [] ==> |Join("\n\n", NonBlank(ps))| + 2 <= SumLen(ps) + 2 * |ps|
  {
    if ps != [] {
      var init := ps[..|ps| - 1];
      AddParagraphsShort(init, cs);
      var p := Strip(Last(ps));
      if p != "" {
        JoinSnoc("\n\n", NonBlank(init), p);
      }
    }
  }

  /** A non-blank text shorter than the budget is one chunk: its stripped
      paragraphs joined by blank lines. */
  lemma ShortTextOneChunk(text: string, cs: int)
    requires Strip(text) != "" && |text| < cs
    ensures ChunkTexts(text, cs) == [Join("\n\n", NonBlank(ParagraphSplit(text)))]
  {
    var ps := ParagraphSplit(text);
    ParagraphSplitCovers(text);
    AddParagraphsShort(ps, cs);
    if NonBlank(ps) == [] {
      NonBlankEmpty(ps);
    }
  }

  lemma {:induction false} NonBlankEmpty(ps: seq<string>)
    requires NonBlank(ps) == []
    ensures AllBlank(ps)
  {
    if ps != [] {
      NonBlankEmpty(ps[..|ps| - 1]);
      assert IsBlank(Last(ps));
    }
  }

  /** `split_text` chunks carry the file name as both source and title. */
  lemma SplitTextMetadata(c: Chunk, text: string, filename: string, cs: int, tok: Tokenizer)
    requires c in PlainChunks(ChunkTexts(text, cs), filename, tok)
    ensures c.metadata["source"] == filename && c.metadata["document_title"] == filename
    ensures c.content != "" && c.tokens == CountTokens(tok, c.content)
  {
    ChunkTextsWellFormed(text, cs);
  }
}
