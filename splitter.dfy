/** `DocumentProcessor.split_text(text, filename, use_markdown)`: with
    `use_markdown` it hands the text to the heading segmenter (in Markdown
    mode), otherwise it packs paragraphs. */
module TextSplitter {
  import opened Text
  import opened Chunks
  import ParagraphChunker
  import HeadingChunker

  /** The chunks `split_text` returns for a budget `cs`. */
  function SplitChunks(text: string, filename: string, useMarkdown: bool, cs: int, tok: Tokenizer): seq<Chunk> {
    if useMarkdown then HeadingChunker.HeadingChunks(text, filename, true, cs, tok)
    else ParagraphChunker.PlainChunks(ParagraphChunker.ChunkTexts(text, cs), filename, tok)
  }

  method SplitText(text: string, filename: string, useMarkdown: bool, cs: int, tok: Tokenizer)
    returns (chunks: seq<Chunk>)
    ensures chunks == SplitChunks(text, filename, useMarkdown, cs, tok)
  {
    if useMarkdown {
      chunks := HeadingChunker.SplitByHeaders(text, filename, true, cs, tok);
    } else {
      chunks := ParagraphChunker.SplitText(text, filename, cs, tok);
    }
  }

  /** A blank text yields no chunks in either mode. */
  lemma BlankTextNoChunks(text: string, filename: string, useMarkdown: bool, cs: int, tok: Tokenizer)
    requires IsBlank(text)
    ensures SplitChunks(text, filename, useMarkdown, cs, tok) == []
  {
    assert Strip(text) == "";
  }

  /** Every chunk, in either mode, is non-empty and stripped, names the file as
      its source and carries its own token count. */
  lemma ChunksWellFormed(text: string, filename: string, useMarkdown: bool, cs: int, tok: Tokenizer)
    ensures forall c :: c in SplitChunks(text, filename, useMarkdown, cs, tok) ==>
      c.content != "" && IsStripped(c.content) && c.tokens == CountTokens(tok, c.content)
      && "source" in c.metadata && c.metadata["source"] == filename
  {
    var r := SplitChunks(text, filename, useMarkdown, cs, tok);
    if useMarkdown {
      HeadingChunker.HeadingChunksOk(text, filename, true, cs, tok);
      forall c | c in r
        ensures c.content != "" && IsStripped(c.content) && c.tokens == CountTokens(tok, c.content)
          && "source" in c.metadata && c.metadata["source"] == filename
      {
        var k :| 0 <= k < |r| && r[k] == c;
        assert HeadingChunker.ChunkOk(r[k], filename, tok);
      }
    } else {
      ParagraphChunker.ChunkTextsWellFormed(text, cs);
      forall c | c in r
        ensures c.content != "" && IsStripped(c.content) && c.tokens == CountTokens(tok, c.content)
          && "source" in c.metadata && c.metadata["source"] == filename
      {
        var k :| 0 <= k < |r| && r[k] == c;
        ParagraphChunker.SplitTextMetadata(c, text, filename, cs, tok);
      }
    }
  }
}
