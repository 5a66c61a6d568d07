/** The self-contained logic of the Telegram bot: splitting a long answer into
    messages, HTML escaping, the bounded question history of a user session,
    the session table and the administrator test. */
module Telegram {
  import opened Text

  // ---------------------------------------------------------------- _split_message

  /** The finished parts and the text still being packed (`current_part` or
      `current_sentence`). */
  datatype Packing = Packing(parts: seq<string>, current: string)

  /** The parts once a non-empty pending text is flushed. */
  function Flushed(st: Packing): seq<string> {
    st.parts + (if st.current != "" then [st.current] else [])
  }

  /** One sentence of a paragraph that is too long for a message. */
  function SentenceStep(m: int, st: Packing, raw: string): Packing {
    var s := Strip(raw);
    if s == "" then st
    else if |st.current| + |s| + 2 <= m then
      Packing(st.parts, if st.current != "" then st.current + ". " + s else s + ".")
    else if st.current != "" then Packing(st.parts + [st.current], s + ".")
    else Packing(st.parts + [PyTake(s, m - 3) + "..."], "..." + PyDrop(s, m - 3) + ".")
  }

  /** Cutting pieces of m characters, each ending in `...`, off the front of x
      until the rest (which starts with `...`) fits. */
  function Chop(m: int, parts: seq<string>, x: string): Packing
    requires m > 6
    decreases |x|
  {
    if |x| <= m then Packing(parts, x)
    else Chop(m, parts + [x[..m - 3] + "..."], "..." + x[m - 3..])
  }

  /** The corrected sentence step: a sentence that cannot join the pending
      text is, after the flush, handled as at the start of a paragraph, and
      the rest after a forced cut is cut again while it is too long. */
  function SentenceStepFixed(m: int, st: Packing, raw: string): Packing
    requires m > 6
  {
    var s := Strip(raw);
    if s == "" || |st.current| + |s| + 2 <= m then SentenceStep(m, st, raw)
    else if |s| + 2 <= m then Packing(Flushed(st), s + ".")
    else Chop(m, Flushed(st) + [s[..m - 3] + "..."], "..." + s[m - 3..] + ".")
  }

  /** The `for sentence in sentences` loop over the first sentences;
      `fixed` selects the corrected step. */
  function SentenceRun(m: int, fixed: bool, ss: seq<string>): Packing
    requires fixed ==> m > 6
  {
    if ss == [] then Packing([], "")
    else
      var st := SentenceRun(m, fixed, ss[..|ss| - 1]);
      if fixed then SentenceStepFixed(m, st, Last(ss)) else SentenceStep(m, st, Last(ss))
  }

  /** The parts a paragraph longer than a message is cut into. */
  function LongParagraph(m: int, fixed: bool, p: string): seq<string>
    requires fixed ==> m > 6
  {
    Flushed(SentenceRun(m, fixed, Split(p, ". ")))
  }

  /** One paragraph: packed with the pending part when both fit with the
      blank line between them; otherwise the pending part is flushed and the
      paragraph becomes a part of its own, or is cut by sentences when it is
      longer than a message. */
  function ParagraphStep(m: int, fixed: bool, st: Packing, p: string): Packing
    requires fixed ==> m > 6
  {
    if |st.current| + |p| + 2 <= m then
      Packing(st.parts, if st.current != "" then st.current + "\n\n" + p else p)
    else
      Packing(Flushed(st) + (if |p| > m then LongParagraph(m, fixed, p) else [p]), "")
  }

  function ParagraphRun(m: int, fixed: bool, ps: seq<string>): Packing
    requires fixed ==> m > 6
  {
    if ps == [] then Packing([], "")
    else ParagraphStep(m, fixed, ParagraphRun(m, fixed, ps[..|ps| - 1]), Last(ps))
  }

  /** `_split_message(text, max_length)` (`fixed` false), and its correction. */
  function MessageParts(text: string, m: int, fixed: bool): seq<string>
    requires fixed ==> m > 6
  {
    if |text| <= m then [text] else Flushed(ParagraphRun(m, fixed, Split(text, "\n\n")))
  }

  /** The sentence loop of `_split_message`, for one long paragraph. */
  method SplitLongParagraph(paragraph: string, maxLength: int) returns (pieces: seq<string>)
    ensures pieces == LongParagraph(maxLength, false, paragraph)
  {
    var sentences := Split(paragraph, ". ");
    pieces := [];
    var current := "";
    for i := 0 to |sentences|
      invariant Packing(pieces, current) == SentenceRun(maxLength, false, sentences[..i])
    {
      assert sentences[..i + 1][..i] == sentences[..i];
      var sentence := Strip(sentences[i]);
      if sentence == "" {
        continue;
      }
      if |current| + |sentence| + 2 <= maxLength {
        if current != "" {
          current := current + ". " + sentence;
        } else {
          current := sentence + ".";
        }
      } else {
        if current != "" {
          pieces := pieces + [current];
          current := sentence + ".";
        } else {
          pieces := pieces + [PyTake(sentence, maxLength - 3) + "..."];
          current := "..." + PyDrop(sentence, maxLength - 3) + ".";
        }
      }
    }
    assert sentences[..|sentences|] == sentences;
    if current != "" {
      pieces := pieces + [current];
    }
  }

  /** The body of the `for paragraph in paragraphs` loop. */
  method PackParagraph(parts: seq<string>, current: string, paragraph: string, maxLength: int)
    returns (parts': seq<string>, current': string)
    ensures Packing(parts', current') == ParagraphStep(maxLength, false, Packing(parts, current), paragraph)
  {
    parts', current' := parts, current;
    if |current'| + |paragraph| + 2 <= maxLength {
      if current' != "" {
        current' := current' + "\n\n" + paragraph;
      } else {
        current' := paragraph;
      }
    } else {
      if current' != "" {
        parts' := parts' + [current'];
        current' := "";
      }
      if |paragraph| > maxLength {
        var pieces := SplitLongParagraph(paragraph, maxLength);
        parts' := parts' + pieces;
      } else {
        parts' := parts' + [paragraph];
      }
    }
  }

  /** `_split_message`. */
  method SplitMessage(text: string, maxLength: int) returns (parts: seq<string>)
    ensures parts == MessageParts(text, maxLength, false)
  {
    if |text| <= maxLength {
      return [text];
    }
    parts := [];
    var current := "";
    var paragraphs := Split(text, "\n\n");
    for i := 0 to |paragraphs|
      invariant Packing(parts, current) == ParagraphRun(maxLength, false, paragraphs[..i])
    {
      assert paragraphs[..i + 1][..i] == paragraphs[..i];
      parts, current := PackParagraph(parts, current, paragraphs[i], maxLength);
    }
    assert paragraphs[..|paragraphs|] == paragraphs;
    if current != "" {
      parts := parts + [current];
    }
  }

  // ---------------------------------------------------------------- splitter properties

  /** A text that fits is sent as it is. */
  lemma ShortMessage(text: string, m: int, fixed: bool)
    requires fixed ==> m > 6
    requires |text| <= m
    ensures MessageParts(text, m, fixed) == [text]
  {
  }

  /** Every part and the pending text fit in a message. */
  predicate Bounded(m: int, st: Packing) {
    |st.current| <= m && forall k :: 0 <= k < |st.parts| ==> |st.parts[k]| <= m
  }

  /** One paragraph that fits keeps the parts within the limit and adds it,
      after a blank line, to what the parts spell. */
  lemma PackStep(m: int, fixed: bool, st: Packing, p: string, done: seq<string>)
    requires fixed ==> m > 6
    requires p != "" && |p| <= m && Bounded(m, st)
    requires (Flushed(st) == [] <==> done == []) && Join("\n\n", Flushed(st)) == Join("\n\n", done)
    ensures var r := ParagraphStep(m, fixed, st, p);
            Bounded(m, r) && Flushed(r) != [] && Join("\n\n", Flushed(r)) == Join("\n\n", done + [p])
  {
    if |st.current| + |p| + 2 <= m {
      if st.current != "" {
        PackStepMerged(m, st, p, done);
      } else {
        assert Flushed(st) == st.parts;
        PackStepFirst(m, st, p, done);
      }
    } else {
      PackStepFlushed(m, st, p, done);
    }
  }

  /** PackStep when the paragraph joins the pending text. */
  lemma PackStepMerged(m: int, st: Packing, p: string, done: seq<string>)
    requires st.current != "" && |st.current| + |p| + 2 <= m && Bounded(m, st)
    requires Join("\n\n", Flushed(st)) == Join("\n\n", done) && done != []
    ensures var r := Packing(st.parts, st.current + "\n\n" + p);
            Bounded(m, r) && Flushed(r) != [] && Join("\n\n", Flushed(r)) == Join("\n\n", done + [p])
  {
    var sep := "\n\n";
    var c := st.current + sep + p;
    assert Flushed(st) == st.parts + [st.current];
    assert Flushed(Packing(st.parts, c)) == st.parts + [c];
    JoinSnoc(sep, done, p);
    JoinSnoc(sep, st.parts, c);
    JoinSnoc(sep, st.parts, st.current);
  }

  /** PackStep when nothing is pending. */
  lemma PackStepFirst(m: int, st: Packing, p: string, done: seq<string>)
    requires st.current == "" && p != "" && |p| <= m && Bounded(m, st)
    requires (st.parts == [] <==> done == []) && Join("\n\n", st.parts) == Join("\n\n", done)
    ensures var r := Packing(st.parts, p);
            Bounded(m, r) && Flushed(r) != [] && Join("\n\n", Flushed(r)) == Join("\n\n", done + [p])
  {
    assert Flushed(Packing(st.parts, p)) == st.parts + [p];
    JoinSnoc("\n\n", done, p);
    JoinSnoc("\n\n", st.parts, p);
  }

  /** PackStep when the pending text is sent first. */
  lemma PackStepFlushed(m: int, st: Packing, p: string, done: seq<string>)
    requires p != "" && |p| <= m && Bounded(m, st)
    requires (Flushed(st) == [] <==> done == []) && Join("\n\n", Flushed(st)) == Join("\n\n", done)
    ensures var r := Packing(Flushed(st) + [p], "");
            Bounded(m, r) && Flushed(r) != [] && Join("\n\n", Flushed(r)) == Join("\n\n", done + [p])
  {
    var fs := Flushed(st);
    assert Flushed(Packing(fs + [p], "")) == fs + [p];
    FlushedBounded(m, st);
    assert forall k :: 0 <= k < |fs| ==> (fs + [p])[k] == fs[k];
    JoinSnoc("\n\n", done, p);
    JoinSnoc("\n\n", fs, p);
  }

  /** Packing paragraphs that each fit and are not empty keeps every part
      within the limit, and the parts joined by blank lines give back the
      paragraphs joined the same way. */
  lemma {:induction false} PackedParagraphs(m: int, fixed: bool, ps: seq<string>)
    requires fixed ==> m > 6
    requires m >= 0
    requires forall k :: 0 <= k < |ps| ==> ps[k] != "" && |ps[k]| <= m
    ensures var st := ParagraphRun(m, fixed, ps);
            Bounded(m, st) && (Flushed(st) == [] <==> ps == [])
            && Join("\n\n", Flushed(st)) == Join("\n\n", ps)
  {
    if ps != [] {
      var init := ps[..|ps| - 1];
      assert forall k :: 0 <= k < |init| ==> init[k] == ps[k];
      PackedParagraphs(m, fixed, init);
      assert ps == init + [Last(ps)];
      PackStep(m, fixed, ParagraphRun(m, fixed, init), Last(ps), init);
    }
  }

  /** A message whose paragraphs are non-empty and fit is split into parts
      that fit and that, joined by blank lines, are the message. */
  lemma PackedMessage(text: string, m: int, fixed: bool)
    requires fixed ==> m > 6
    requires forall k :: 0 <= k < |Split(text, "\n\n")| ==> Split(text, "\n\n")[k] != "" && |Split(text, "\n\n")[k]| <= m
    ensures forall k :: 0 <= k < |MessageParts(text, m, fixed)| ==> |MessageParts(text, m, fixed)[k]| <= m
    ensures Join("\n\n", MessageParts(text, m, fixed)) == text
  {
    if |text| > m {
      SplitNonEmpty(text, "\n\n");
      assert |Split(text, "\n\n")[0]| <= m;
      PackedParagraphs(m, fixed, Split(text, "\n\n"));
      JoinSplit(text, "\n\n");
    }
  }

  /** A sentence too long even for an empty buffer is cut into a piece of
      exactly m characters ending in `...`; the rest stays pending. */
  lemma ForcedPiece(m: int, st: Packing, raw: string)
    requires m >= 3 && st.current == "" && Strip(raw) != "" && |Strip(raw)| + 2 > m
    ensures var r := SentenceStep(m, st, raw);
            |r.parts| == |st.parts| + 1 && r.parts[..|st.parts|] == st.parts
            && |Last(r.parts)| == m && EndsWith(Last(r.parts), "...")
            && StartsWith(r.current, "...")
  {
    var r := SentenceStep(m, st, raw);
    assert r.parts[..|st.parts|] == st.parts;
  }

  /** Parts are only ever added at the end, and a paragraph that does not join
      the pending part comes after it. */
  lemma ParagraphOrder(m: int, fixed: bool, st: Packing, p: string)
    requires fixed ==> m > 6
    ensures var r := ParagraphStep(m, fixed, st, p);
            |st.parts| <= |r.parts| && r.parts[..|st.parts|] == st.parts
            && (st.current != "" && |st.current| + |p| + 2 > m ==>
                  |r.parts| > |st.parts| && r.parts[|st.parts|] == st.current && r.current == "")
  {
    var r := ParagraphStep(m, fixed, st, p);
    if |st.current| + |p| + 2 > m {
      var extra := if |p| > m then LongParagraph(m, fixed, p) else [p];
      assert r.parts == Flushed(st) + extra;
      assert r.parts[..|st.parts|] == Flushed(st)[..|st.parts|];
    }
  }

  /** A single stripped sentence that is too long, in a message without
      paragraph or sentence breaks, is cut once: the rest, however long, is the
      second part. */
  lemma OneForcedCut(s: string, m: int)
    requires m >= 3 && |s| > m && IsStripped(s)
    requires !Contains(s, "\n\n") && !Contains(s, ". ")
    ensures MessageParts(s, m, false) == [s[..m - 3] + "...", "..." + s[m - 3..] + "."]
  {
    SplitAbsent(s, "\n\n");
    SplitAbsent(s, ". ");
    StripOfStripped(s);
    assert [s][..0] == [];
    assert SentenceRun(m, false, [s]) == SentenceStep(m, Packing([], ""), s);
    assert ParagraphRun(m, false, [s]) == ParagraphStep(m, false, Packing([], ""), s);
  }

  /** The remainder after a forced cut is not checked again: a ten-character
      sentence with a limit of four leaves a thirteen-character part. */
  lemma OverlongPart()
    ensures |MessageParts("abcdefghij", 4, false)| == 2 && |MessageParts("abcdefghij", 4, false)[1]| == 13
  {
    var s := "abcdefghij";
    assert Lacks(s, '\n') && Lacks(s, '.');
    LacksFirst(s, "\n\n");
    LacksFirst(s, ". ");
    OneForcedCut(s, 4);
  }

  /** Cutting keeps every piece within the limit. */
  lemma {:induction false} ChopBounded(m: int, parts: seq<string>, x: string)
    requires m > 6 && forall k :: 0 <= k < |parts| ==> |parts[k]| <= m
    ensures var r := Chop(m, parts, x);
            |r.current| <= m && forall k :: 0 <= k < |r.parts| ==> |r.parts[k]| <= m
    decreases |x|
  {
    if |x| > m {
      ChopBounded(m, parts + [x[..m - 3] + "..."], "..." + x[m - 3..]);
    }
  }

  lemma FlushedBounded(m: int, st: Packing)
    requires Bounded(m, st)
    ensures forall k :: 0 <= k < |Flushed(st)| ==> |Flushed(st)[k]| <= m
  {
  }

  lemma SentenceStepFixedBounded(m: int, st: Packing, raw: string)
    requires m > 6 && Bounded(m, st)
    ensures Bounded(m, SentenceStepFixed(m, st, raw))
  {
    var s := Strip(raw);
    if s != "" && |st.current| + |s| + 2 > m && |s| + 2 > m {
      FlushedBounded(m, st);
      ChopBounded(m, Flushed(st) + [s[..m - 3] + "..."], "..." + s[m - 3..] + ".");
    }
  }

  lemma {:induction false} SentenceRunFixedBounded(m: int, ss: seq<string>)
    requires m > 6
    ensures Bounded(m, SentenceRun(m, true, ss))
  {
    if ss != [] {
      SentenceRunFixedBounded(m, ss[..|ss| - 1]);
      SentenceStepFixedBounded(m, SentenceRun(m, true, ss[..|ss| - 1]), Last(ss));
    }
  }

  lemma {:induction false} ParagraphRunFixedBounded(m: int, ps: seq<string>)
    requires m > 6
    ensures Bounded(m, ParagraphRun(m, true, ps))
  {
    if ps != [] {
      var st := ParagraphRun(m, true, ps[..|ps| - 1]);
      ParagraphRunFixedBounded(m, ps[..|ps| - 1]);
      FlushedBounded(m, st);
      var p := Last(ps);
      if |p| > m {
        var sr := SentenceRun(m, true, Split(p, ". "));
        SentenceRunFixedBounded(m, Split(p, ". "));
        FlushedBounded(m, sr);
      }
    }
  }

  /** With the correction, every part fits in a message. */
  lemma FixedPartsFit(text: string, m: int)
    requires m > 6
    ensures forall k :: 0 <= k < |MessageParts(text, m, true)| ==> |MessageParts(text, m, true)[k]| <= m
  {
    if |text| > m {
      var st := ParagraphRun(m, true, Split(text, "\n\n"));
      ParagraphRunFixedBounded(m, Split(text, "\n\n"));
      FlushedBounded(m, st);
    }
  }

  /** The correction changes nothing for messages whose paragraphs fit. */
  lemma {:induction false} FixedAgrees(m: int, ps: seq<string>)
    requires m > 6 && forall k :: 0 <= k < |ps| ==> |ps[k]| <= m
    ensures ParagraphRun(m, true, ps) == ParagraphRun(m, false, ps)
  {
    if ps != [] {
      assert forall k :: 0 <= k < |ps| - 1 ==> ps[..|ps| - 1][k] == ps[k];
      FixedAgrees(m, ps[..|ps| - 1]);
    }
  }

  // ---------------------------------------------------------------- _escape_html

  /** `s.replace(c, rep)` for a one-character pattern, character by character. */
  function MapChar(s: string, c: char, rep: string): string {
    if s == [] then [] else (if s[0] == c then rep else [s[0]]) + MapChar(s[1..], c, rep)
  }

  lemma {:induction false} MapCharConcat(a: string, b: string, c: char, rep: string)
    ensures MapChar(a + b, c, rep) == MapChar(a, c, rep) + MapChar(b, c, rep)
  {
    if a != [] {
      var h := if a[0] == c then rep else [a[0]];
      assert (a + b)[0] == a[0];
      assert (a + b)[1..] == a[1..] + b;
      assert MapChar(a + b, c, rep) == h + MapChar(a[1..] + b, c, rep);
      MapCharConcat(a[1..], b, c, rep);
    } else {
      assert a + b == b;
    }
  }

  lemma {:induction false} MapCharLacks(s: string, c: char, rep: string)
    requires Lacks(s, c)
    ensures MapChar(s, c, rep) == s
  {
    if s != [] {
      MapCharLacks(s[1..], c, rep);
    }
  }

  /** `Replace` with a one-character pattern maps that character. */
  lemma {:induction false} ReplaceChar(s: string, c: char, rep: string)
    ensures Replace(s, [c], rep) == MapChar(s, c, rep)
    decreases |s|
  {
    match Find(s, [c])
    case None =>
      IsAtChar(s, c, |s|);
      MapCharLacks(s, c, rep);
    case Some(i) =>
      var rest := s[i + 1..];
      ReplaceChar(rest, c, rep);
      IsAtChar(s, c, i);
      MapCharAround(s, i, c, rep);
  }

  /** No occurrence of the one-character pattern before `i`: no `c` there. */
  lemma IsAtChar(s: string, c: char, i: nat)
    requires i <= |s| && forall j :: 0 <= j < i ==> !IsAt(s, j, [c])
    ensures Lacks(s[..i], c)
  {
    forall j | 0 <= j < i ensures s[..i][j] != c {
      assert !IsAt(s, j, [c]);
      assert s[j..j + 1] == [s[j]];
      assert s[..i][j] == s[j];
    }
  }

  /** Mapping around the first `c` at `i`. */
  lemma MapCharAround(s: string, i: nat, c: char, rep: string)
    requires i < |s| && s[i] == c && Lacks(s[..i], c)
    ensures MapChar(s, c, rep) == s[..i] + rep + MapChar(s[i + 1..], c, rep)
  {
    var rest := s[i + 1..];
    MapCharLacks(s[..i], c, rep);
    assert s == s[..i] + ([c] + rest);
    MapCharConcat(s[..i], [c] + rest, c, rep);
    MapCharConcat([c], rest, c, rep);
    assert MapChar([c], c, rep) == rep;
  }

  /** The entity each character is written as. */
  function EscapeChar(ch: char): string {
    if ch == '&' then "&amp;"
    else if ch == '<' then "&lt;"
    else if ch == '>' then "&gt;"
    else if ch == '"' then "&quot;"
    else [ch]
  }

  /** The text with every character escaped on its own. */
  function Escaped(s: string): string {
    if s == [] then [] else EscapeChar(s[0]) + Escaped(s[1..])
  }

  /** `_escape_html`: the four replacements, `&` first. */
  function EscapeHtml(text: string): string {
    if text == "" then ""
    else Replace(Replace(Replace(Replace(text, "&", "&amp;"), "<", "&lt;"), ">", "&gt;"), "\"", "&quot;")
  }

  /** The four passes as character maps. */
  function Passes(s: string): string {
    MapChar(MapChar(MapChar(MapChar(s, '&', "&amp;"), '<', "&lt;"), '>', "&gt;"), '"', "&quot;")
  }

  lemma PassesConcat(a: string, b: string)
    ensures Passes(a + b) == Passes(a) + Passes(b)
  {
    var a1, b1 := MapChar(a, '&', "&amp;"), MapChar(b, '&', "&amp;");
    MapCharConcat(a, b, '&', "&amp;");
    var a2, b2 := MapChar(a1, '<', "&lt;"), MapChar(b1, '<', "&lt;");
    MapCharConcat(a1, b1, '<', "&lt;");
    var a3, b3 := MapChar(a2, '>', "&gt;"), MapChar(b2, '>', "&gt;");
    MapCharConcat(a2, b2, '>', "&gt;");
    MapCharConcat(a3, b3, '"', "&quot;");
  }

  lemma MapCharSingle(ch: char, c: char, rep: string)
    ensures MapChar([ch], c, rep) == if ch == c then rep else [ch]
  {
    assert [ch][1..] == [];
  }

  lemma PassesChar(ch: char)
    ensures Passes([ch]) == EscapeChar(ch)
  {
    MapCharSingle(ch, '&', "&amp;");
    var s1 := MapChar([ch], '&', "&amp;");
    if ch == '&' {
      MapCharLacks("&amp;", '<', "&lt;");
      MapCharLacks("&amp;", '>', "&gt;");
      MapCharLacks("&amp;", '"', "&quot;");
    } else {
      MapCharSingle(ch, '<', "&lt;");
      if ch == '<' {
        MapCharLacks("&lt;", '>', "&gt;");
        MapCharLacks("&lt;", '"', "&quot;");
      } else {
        MapCharSingle(ch, '>', "&gt;");
        if ch == '>' {
          MapCharLacks("&gt;", '"', "&quot;");
        } else {
          MapCharSingle(ch, '"', "&quot;");
        }
      }
    }
  }

  /** Escaping replaces every character by its own entity: the later passes
      never see the entities the earlier ones wrote. */
  lemma {:induction false} EscapeHtmlPerChar(text: string)
    ensures EscapeHtml(text) == Escaped(text)
    decreases |text|
  {
    if text != [] {
      ReplaceChar(text, '&', "&amp;");
      ReplaceChar(MapChar(text, '&', "&amp;"), '<', "&lt;");
      ReplaceChar(MapChar(MapChar(text, '&', "&amp;"), '<', "&lt;"), '>', "&gt;");
      ReplaceChar(MapChar(MapChar(MapChar(text, '&', "&amp;"), '<', "&lt;"), '>', "&gt;"), '"', "&quot;");
      PassesOfEscaped(text);
    }
  }

  lemma {:induction false} PassesOfEscaped(s: string)
    ensures Passes(s) == Escaped(s)
    decreases |s|
  {
    if s != [] {
      assert s == [s[0]] + s[1..];
      PassesConcat([s[0]], s[1..]);
      PassesChar(s[0]);
      PassesOfEscaped(s[1..]);
    }
  }

  /** The character an escaped text starts with, and how many characters of
      the text stand for it. */
  function Entity(t: string): (r: (char, nat))
    requires t != []
    ensures 1 <= r.1 <= |t|
  {
    if StartsWith(t, "&amp;") then ('&', 5)
    else if StartsWith(t, "&lt;") then ('<', 4)
    else if StartsWith(t, "&gt;") then ('>', 4)
    else if StartsWith(t, "&quot;") then ('"', 6)
    else (t[0], 1)
  }

  /** The inverse: the four entities read back as their characters. */
  function Unescape(t: string): string
    decreases |t|
  {
    if t == [] then [] else [Entity(t).0] + Unescape(t[Entity(t).1..])
  }

  lemma EntityAmp(rest: string)
    ensures Entity("&amp;" + rest) == ('&', 5)
  {
    assert ("&amp;" + rest)[..5] == "&amp;";
  }

  lemma EntityLt(rest: string)
    ensures Entity("&lt;" + rest) == ('<', 4)
  {
    var t := "&lt;" + rest;
    assert !StartsWith(t, "&amp;") by { assert |t| >= 5 ==> t[..5][1] == 'l'; }
    assert t[..4] == "&lt;";
  }

  lemma EntityGt(rest: string)
    ensures Entity("&gt;" + rest) == ('>', 4)
  {
    var t := "&gt;" + rest;
    assert !StartsWith(t, "&amp;") by { assert |t| >= 5 ==> t[..5][1] == 'g'; }
    assert !StartsWith(t, "&lt;") by { assert t[..4][1] == 'g'; }
    assert t[..4] == "&gt;";
  }

  lemma EntityQuot(rest: string)
    ensures Entity("&quot;" + rest) == ('"', 6)
  {
    var t := "&quot;" + rest;
    assert !StartsWith(t, "&amp;") by { assert t[..5][1] == 'q'; }
    assert !StartsWith(t, "&lt;") by { assert t[..4][1] == 'q'; }
    assert !StartsWith(t, "&gt;") by { assert t[..4][1] == 'q'; }
    assert t[..6] == "&quot;";
  }

  lemma EntityPlain(ch: char, rest: string)
    requires ch != '&'
    ensures Entity([ch] + rest) == (ch, 1)
  {
    var t := [ch] + rest;
    assert !StartsWith(t, "&amp;") by { assert |t| >= 5 ==> t[..5][0] == ch; }
    assert !StartsWith(t, "&lt;") by { assert |t| >= 4 ==> t[..4][0] == ch; }
    assert !StartsWith(t, "&gt;") by { assert |t| >= 4 ==> t[..4][0] == ch; }
    assert !StartsWith(t, "&quot;") by { assert |t| >= 6 ==> t[..6][0] == ch; }
  }

  lemma UnescapeChar(ch: char, rest: string)
    ensures Unescape(EscapeChar(ch) + rest) == [ch] + Unescape(rest)
  {
    var t := EscapeChar(ch) + rest;
    if ch == '&' { EntityAmp(rest); }
    else if ch == '<' { EntityLt(rest); }
    else if ch == '>' { EntityGt(rest); }
    else if ch == '"' { EntityQuot(rest); }
    else { EntityPlain(ch, rest); }
    assert Entity(t).1 == |EscapeChar(ch)|;
    assert t[|EscapeChar(ch)|..] == rest;
  }

  /** Unescaping an escaped text gives it back. */
  lemma {:induction false} UnescapeEscaped(s: string)
    ensures Unescape(Escaped(s)) == s
    decreases |s|
  {
    if s != [] {
      UnescapeChar(s[0], Escaped(s[1..]));
      UnescapeEscaped(s[1..]);
    }
  }

  /** Escaped text holds no `<`, `>` or `"`. */
  lemma {:induction false} EscapedLacks(s: string)
    ensures Lacks(Escaped(s), '<') && Lacks(Escaped(s), '>') && Lacks(Escaped(s), '"')
    decreases |s|
  {
    if s != [] {
      EscapedLacks(s[1..]);
      var a, b := EscapeChar(s[0]), Escaped(s[1..]);
      assert forall i :: |a| <= i < |a + b| ==> (a + b)[i] == b[i - |a|];
    }
  }

  /** The empty text stays empty; any text escapes to one with no `<`, `>`
      or `"` from which it can be read back. */
  lemma EscapeHtmlFacts(text: string)
    ensures EscapeHtml("") == ""
    ensures Unescape(EscapeHtml(text)) == text
    ensures Lacks(EscapeHtml(text), '<') && Lacks(EscapeHtml(text), '>') && Lacks(EscapeHtml(text), '"')
  {
    EscapeHtmlPerChar(text);
    UnescapeEscaped(text);
    EscapedLacks(text);
  }

  // ---------------------------------------------------------------- sessions

  const HistoryLimit: nat := 50
  const DefaultAdminId := 1961734606

  /** One entry of `question_history`; the timestamp is given by the caller. */
  datatype HistoryEntry = HistoryEntry(timestamp: int, question: string, answer: string, tokensUsed: int, sources: seq<map<string, string>>)

  /** After adding an entry the history holds at most 50 entries, the newest
      last, and loses only the oldest ones. */
  lemma HistoryAfterAdd(history: seq<HistoryEntry>, e: HistoryEntry)
    ensures var h := KeepLast(history + [e], HistoryLimit);
            1 <= |h| <= HistoryLimit && Last(h) == e
            && h[..|h| - 1] == history[|history| + 1 - |h|..]
            && (|history| < HistoryLimit ==> h == history + [e])
  {
    var h := KeepLast(history + [e], HistoryLimit);
    assert h[..|h| - 1] == (history + [e])[|history| + 1 - |h|..|history|];
  }

  /** A Python string is truthy: present and not empty. */
  predicate IsText(s: Option<string>) { s.Some? && s.value != "" }

  /** A profile field after `_get_user_session`: the given value only when it
      is text and the field is not. */
  function Filled(current: Option<string>, given: Option<string>): (r: Option<string>)
    ensures IsText(r) <==> IsText(current) || IsText(given)
    ensures IsText(current) ==> r == current
    ensures !IsText(current) && IsText(given) ==> r == given
    ensures !IsText(given) ==> r == current
  {
    if IsText(given) && !IsText(current) then given else current
  }

  /** A field once filled is never changed by later calls. */
  lemma FilledStays(c: Option<string>, g1: Option<string>, g2: Option<string>)
    requires IsText(Filled(c, g1))
    ensures Filled(Filled(c, g1), g2) == Filled(c, g1)
  {
  }

  /** `UserSession`. */
  class UserSession {
    const userId: int
    var username: Option<string>
    var firstName: Option<string>
    var questionHistory: seq<HistoryEntry>
    const createdAt: int

    predicate Valid()
      reads this
    {
      |questionHistory| <= HistoryLimit
    }

    constructor (userId: int, username: Option<string>, firstName: Option<string>, now: int)
      ensures this.userId == userId && this.username == username && this.firstName == firstName
      ensures questionHistory == [] && createdAt == now
      ensures Valid()
    {
      this.userId := userId;
      this.username := username;
      this.firstName := firstName;
      questionHistory := [];
      createdAt := now;
    }

    /** `add_question`: append, then keep the last 50. */
    method AddQuestion(question: string, answer: string, tokensUsed: int, sources: seq<map<string, string>>, now: int)
      modifies this
      ensures questionHistory == KeepLast(old(questionHistory) + [HistoryEntry(now, question, answer, tokensUsed, sources)], HistoryLimit)
      ensures username == old(username) && firstName == old(firstName)
      ensures Valid()
    {
      questionHistory := questionHistory + [HistoryEntry(now, question, answer, tokensUsed, sources)];
      if |questionHistory| > HistoryLimit {
        questionHistory := questionHistory[|questionHistory| - HistoryLimit..];
      }
    }
  }

  /** The bot's session table and administrator list. */
  class Bot {
    var userSessions: map<int, UserSession>
    const adminIds: seq<int>

    /** Every session is filed under its own user id. */
    predicate Valid()
      reads this, userSessions.Values
    {
      forall k :: k in userSessions ==> userSessions[k].userId == k
    }

    constructor (adminIds: seq<int>)
      ensures userSessions == map[] && this.adminIds == adminIds && Valid()
    {
      userSessions := map[];
      this.adminIds := adminIds;
    }

    /** `_is_admin`. */
    function IsAdmin(userId: int): (b: bool)
      reads this
      ensures b <==> exists i :: 0 <= i < |adminIds| && adminIds[i] == userId
    {
      userId in adminIds
    }

    /** `_get_user_session`: a new session the first time, afterwards the same
        session with empty profile fields filled in. */
    method GetUserSession(userId: int, username: Option<string>, firstName: Option<string>, now: int)
      returns (s: UserSession)
      requires Valid()
      modifies this, if userId in userSessions then {userSessions[userId]} else {}
      ensures Valid()
      ensures userSessions == old(userSessions)[userId := s]
      ensures s.userId == userId
      ensures old(userId !in userSessions) ==>
        fresh(s) && s.username == username && s.firstName == firstName && s.questionHistory == [] && s.createdAt == now
      ensures old(userId in userSessions) ==>
        s == old(userSessions[userId]) && s.questionHistory == old(s.questionHistory)
        && s.username == Filled(old(s.username), username) && s.firstName == Filled(old(s.firstName), firstName)
    {
      if userId !in userSessions {
        s := new UserSession(userId, username, firstName, now);
        userSessions := userSessions[userId := s];
      } else {
        s := userSessions[userId];
        if IsText(username) && !IsText(s.username) {
          s.username := username;
        }
        if IsText(firstName) && !IsText(s.firstName) {
          s.firstName := firstName;
        }
      }
    }
  }

  /** What `config.get('telegram_bot', {}).get('admin_ids', ...)` finds in a
      readable configuration: nothing, a value that is not a list, or a list
      whose items `int()` converts (`None` where it raises). */
  datatype AdminSetting = Missing | NotList | Items(items: seq<Option<int>>)

  function AllConverted(items: seq<Option<int>>): bool {
    forall k :: 0 <= k < |items| ==> items[k].Some?
  }

  /** `_load_admin_ids`; `None` stands for a missing or unreadable file. Every
      failure falls back to the single default administrator. */
  function LoadAdminIds(config: Option<AdminSetting>): (r: seq<int>)
    ensures r == [DefaultAdminId] || (config.Some? && config.value.Items? && AllConverted(config.value.items))
    ensures config.Some? && config.value.Items? && AllConverted(config.value.items) ==>
      |r| == |config.value.items| && forall k :: 0 <= k < |r| ==> Some(r[k]) == config.value.items[k]
  {
    match config
    case None => [DefaultAdminId]
    case Some(Missing) => [DefaultAdminId]
    case Some(NotList) => [DefaultAdminId]
    case Some(Items(items)) =>
      if AllConverted(items) then seq(|items|, k requires 0 <= k < |items| => items[k].value) else [DefaultAdminId]
  }
}
