# A verified model of the construction-norms assistant

The modelled system is a retrieval-augmented question-answering assistant for
Russian construction norms. Its documents are cut into chunks in one of two
ways: paragraph and sentence packing by a character budget, or Markdown
heading segmentation with a heading stack and a token budget. The chunks are
embedded and stored in a knowledge base. That base keeps three positionally
aligned lists: chunks, metadata and the vector index. It can be built,
searched, saved with its preview and statistics sidecars, and loaded back,
exactly from the binary sidecar or lossily from the JSON previews. The
assistant answers questions from the retrieved fragments and reports errors
as structured results.

Around this core the repository has further text and layout logic, and the
model covers it too:

- the post-processor of converted documents: heading normalisation, title
  and preface sections, metadata extraction and the metadata preamble;
- the table serialiser: the header helpers are shared by the docx, pdf and
  xlsx processors, pdf and xlsx share the serialiser itself, and docx has a
  variant that cleans and pads its rows; together with the docx
  paragraph-to-heading rules;
- the Telegram bot's message splitting, HTML escaping and user sessions;
- the dialog manager's per-user dialogs with a bounded message list;
- the two drawing analysers: layout grouping into clusters, rows, columns
  and table windows; paper-format matching; cross-references between files;
  title blocks and keyword-driven sections and counters; metadata fields.

## How the model is organised

There is one Dafny module per concern. No module is nested.

- `text.dfy` (module `Text`): Python string operations: `strip`, `split`, `join`, `split()`, `replace`, `find`, `rfind`, slicing with any integer, `lower`, `str(n)`.
- `sorting.dfy` (module `Sorting`): a stable key sort (Python's `sorted`), grouping into consecutive runs, first-seen de-duplication.
- `patterns.dfy` (module `Patterns`): the specific regular expressions of the post-processor, as character-level matchers.
- `chunks.dfy` (module `Chunks`): the chunk record and `count_tokens` with its `len // 4` fallback.
- `paragraphs.dfy` (module `ParagraphChunker`): `split_text` in paragraph mode.
- `headings.dfy` (module `HeadingChunker`): `text_to_markdown` and `split_text_by_markdown_headers`.
- `splitter.dfy` (module `TextSplitter`): the `use_markdown` dispatch of `split_text`.
- `statistics.dfy` (module `Statistics`): the counters of the statistics sidecar and `get_metadata_info`.
- `knowledge_base.dfy` (module `Knowledge`): the `KnowledgeBase` class.
- `assistant.dfy` (module `AssistantModel`): the `Assistant` class: ask, build, rebuild.
- `post_processor.dfy` (module `PostProcessor`): `DocumentPostProcessor`.
- `tables.dfy` (module `Tables`): the table serialiser of the pdf and xlsx processors.
- `docx.dfy` (module `Docx`): the docx variant of the serialiser and the paragraph rules.
- `telegram.dfy` (module `Telegram`): `_split_message`, `_escape_html`, `UserSession`, the bot's session table.
- `dialogs.dfy` (module `Dialogs`): `Dialog` and `DialogManager`.
- `layout.dfy` (module `Layout`): clusters, rows, table windows, alignment and hulls of the configurable analyser.
- `analyzer.dfy` (module `Analyzer`): page formats, cross-references and metadata parsing of the configurable analyser.
- `drawing.dfy` (module `Drawing`): columns, rows, tables and title blocks of the plain drawing analyser.
- `drawing_info.dfy` (module `DrawingInfo`): the structure counters, sections and structured fields of the plain drawing analyser.

Code that changes state step by step is modelled imperatively. Each loop
becomes a `method` whose `ensures` ties its result to a specification
function, and the properties are proved about that function. The objects
whose fields the source reassigns are classes with `modifies` clauses:
`KnowledgeBase`, `Assistant`, `UserSession`, the bot, `Dialog` and
`DialogManager`. Expression-style code is modelled as functions and lemmas.

The model works with these stand-ins:

- Foreign services are parameters of the operations that use them:
  - the embedding provider is a function from text to vector;
  - the tokenizer is a function, or its failure;
  - the chat model is a function from prompt to reply;
  - the vector index's nearest-neighbour search is a function from index,
    query vector and `k` to the list of (label, distance) pairs it returns.
- Regular expressions:
  - the post-processor's patterns are written as explicit character
    predicates;
  - the drawing analysers' configurable pattern lists are given as the match
    sequences of `re.finditer` and `re.findall`.
- Files are a map from path to stored value, and a directory listing is a
  function of that map.
- Coordinates:
  - the configurable analyser uses integer coordinates, so centres are
    compared as sums against twice the threshold;
  - the plain analyser uses reals.
- Case folding covers ASCII and the basic Cyrillic alphabet.

## Model

Each row names a member and the source lines it models, and says what its contract states.

| member | source | states |
|---|---|---|
| Chunks.CountTokens | assistant.py:302-308 | with the encoder available the count is the encoder's; when it fails, the count is the length divided by four, rounded down |
| Chunks.CountTokensFallbackExample | assistant.py:307-308 | the fallback counts one token for a four-character text |
| TextSplitter.SplitText | assistant.py:227-233 | `use_markdown` sends the text to the heading splitter; otherwise the paragraph splitter runs |
| TextSplitter.BlankTextNoChunks | assistant.py:86-87 | a blank text yields no chunks in either mode (also lines 236-237) |
| TextSplitter.ChunksWellFormed | assistant.py:132-143 | in either mode every chunk is non-empty and stripped, its token count is that of its content, and its source is the file name (also lines 255-262, 290-298) |
| ParagraphChunker.FindSeparator | assistant.py:239 | the leftmost paragraph separator (a newline, blanks, a newline) at or after a position, at least two characters long and blank |
| ParagraphChunker.ParagraphSplit | assistant.py:239 | `re.split(r'\n\s*\n', text)` yields at least one piece |
| ParagraphChunker.ParagraphSplitCovers | assistant.py:239 | the pieces plus two characters per separator fit in the text, and all pieces are blank exactly when the text is |
| ParagraphChunker.SentenceSplit | assistant.py:265 | `re.split(r'[.!?]+', p)` yields at least one piece, and no piece holds sentence punctuation |
| ParagraphChunker.PlainChunks | assistant.py:290-298 | one chunk per text, in order, with `source` and `document_title` equal to the file name and the token count of its text (also lines 255-262) |
| ParagraphChunker.PackSentences | assistant.py:264-286 | the sentence loop of an over-long paragraph emits the chunks and leaves the pending chunk that the sentence fold describes |
| ParagraphChunker.SplitText | assistant.py:236-300 | the paragraph-mode method returns the chunks of the fold over paragraphs, with the final flush |
| ParagraphChunker.AddSentencesWellFormed | assistant.py:267-286 | the sentence loop keeps every emitted chunk non-empty and stripped |
| ParagraphChunker.AddParagraphsWellFormed | assistant.py:243-288 | the paragraph loop keeps every emitted chunk non-empty and stripped |
| ParagraphChunker.ChunkTextsWellFormed | assistant.py:236-300 | every chunk text `split_text` emits is non-empty and has no surrounding whitespace |
| ParagraphChunker.AddSentencesWithin | assistant.py:271-286 | when every sentence fits the chunk size, every chunk of the sentence loop is at most one character over it |
| ParagraphChunker.AddParagraphsWithin | assistant.py:248-288 | when the sentences of every re-split paragraph fit, every chunk of the paragraph loop is at most one character over the chunk size |
| ParagraphChunker.ChunkTextsBound | assistant.py:236-300 | a chunk exceeds `chunk_size` by at most one character (the size test counts one separator character where two are inserted) |
| ParagraphChunker.ParagraphSplitExample | assistant.py:239 | `"a\n\nbc"` splits into `"a"` and `"bc"` |
| ParagraphChunker.PackExample | assistant.py:248-252 | with chunk size 4 the paragraphs `"a"` and `"bc"` join into one pending chunk |
| ParagraphChunker.ChunkTextsOverBudgetExample | assistant.py:248-252 | the five-character chunk `"a\n\nbc"` passes the size test for chunk size 4 |
| ParagraphChunker.AddParagraphsKeepsText | assistant.py:243-252 | when every paragraph fits, the chunks joined by blank lines are the non-blank stripped paragraphs joined by blank lines: no text is lost, added or reordered (also line 288) |
| ParagraphChunker.ChunkTextsKeepParagraphs | assistant.py:236-300 | the same for the whole of `split_text`: chunking only regroups paragraphs |
| ParagraphChunker.NonBlankOfAllBlank | assistant.py:244-246 | blank paragraphs are skipped |
| ParagraphChunker.NonBlankEmpty | assistant.py:244-246 | only all-blank paragraph lists leave nothing |
| ParagraphChunker.AddParagraphsShort | assistant.py:248-252 | paragraphs that fit together form one pending chunk, their blank-line join |
| ParagraphChunker.ShortTextOneChunk | assistant.py:236-300 | a non-blank text shorter than the chunk size gives exactly one chunk |
| ParagraphChunker.SplitTextMetadata | assistant.py:290-298 | every paragraph-mode chunk carries the file name as source and title, is non-empty, and its token count is that of its content (also lines 255-262) |
| HeadingChunker.DupLines | assistant.py:64-77 | duplicating the matched heading lines never shortens the line list |
| HeadingChunker.UndupDup | assistant.py:64-77 | dropping the line after each marked line undoes the duplication |
| HeadingChunker.UndupUnmarked | assistant.py:64-77 | a text with no marked line is left alone by the inverse |
| HeadingChunker.DupLinesLack | assistant.py:64-77 | duplication never introduces a newline inside a line |
| Text.SplitLinesFree | assistant.py:102 | the lines of `text.split('\n')` have no newline |
| HeadingChunker.UnpassPass | assistant.py:64-77 | one `re.sub(..., flags=re.M)` pass is undone by its inverse |
| HeadingChunker.UnpassBlank | assistant.py:60-61 | a blank text is untouched by the inverse |
| HeadingChunker.MarkdownRoundTrip | assistant.py:55-79 | `text_to_markdown` only adds copied heading lines: undoing the three passes in reverse order gives back the text |
| HeadingChunker.HeadingLevel | assistant.py:121-127 | the level is between 0 and 4; a heading of level n starts with n hashes followed by a space and has more than n+1 characters (also lines 94-99) |
| HeadingChunker.NewStack | assistant.py:149-157 | the stack has between 1 and `level` entries and ends with the heading; below h1 it keeps the first `level-1` entries of the old stack |
| HeadingChunker.HeadingLine | assistant.py:129-160 | the heading branch flushes the buffer under the old header, then updates the header, the document title and the stack |
| HeadingChunker.TextLine | assistant.py:162-208 | the body branch appends the line and, over budget, splits off all but the last line, or halves a single line by words |
| HeadingChunker.SplitByHeaders | assistant.py:81-225 | the method returns the chunks of the per-line fold plus the final flush |
| HeadingChunker.EmitOk | assistant.py:131-143 | a flushed chunk is well formed: non-empty, stripped, its token count matches, and its header path ends with its header |
| HeadingChunker.HeadingInv | assistant.py:145-160 | after a heading the stack has 1 to 4 entries and ends with the current header, and the title is the stack's first entry or the file name |
| HeadingChunker.TextInv | assistant.py:162-208 | a body line preserves the invariant |
| HeadingChunker.StepInv | assistant.py:109-208 | one turn of the line loop preserves the invariant |
| HeadingChunker.RunInv | assistant.py:109-208 | the whole line loop preserves the invariant |
| HeadingChunker.HeadingChunksOk | assistant.py:81-225 | every emitted chunk has content, source, header, header_path and document_title; its path ends with its header, and its title is the file name or starts its path |
| HeadingChunker.RunStackBound | assistant.py:149-157 | the header stack never has more than four entries |
| HeadingChunker.ForcedSplitKeepsWords | assistant.py:188-208 | an over-budget single line is cut in half by words: the first half, if it has a word, is emitted with exactly those words, and the buffer keeps exactly the second half's words |
| HeadingChunker.ForcedSplitRest | assistant.py:190-193 | the buffer after the forced split holds one line, whose words are the second half (also line 208) |
| HeadingChunker.ForcedSplitHead | assistant.py:190-206 | the emitted first half has exactly the words of the first half, and nothing is emitted when it is empty |
| HeadingChunker.ExampleLines | assistant.py:102 | the sample document splits into its four lines |
| HeadingChunker.ExampleLevels | assistant.py:94-99 | `# A`, `## B` and `### C` are headings of levels 1 to 3; `body` is no heading |
| HeadingChunker.ExampleStep1 | assistant.py:146-151 | an h1 sets the header, the document title and a one-entry stack (also line 160) |
| HeadingChunker.StepHeading | assistant.py:145-160 | a heading line restarts the buffer with itself and sets the header, the stack and (for h1) the title |
| HeadingChunker.StepTextFits | assistant.py:163-168 | a body line within budget is only appended |
| HeadingChunker.ExampleStep2 | assistant.py:152-153 | an h2 keeps the first stack entry and adds itself |
| HeadingChunker.ExampleStep3 | assistant.py:154-155 | an h3 keeps the first two entries and adds itself |
| HeadingChunker.ExampleStep4 | assistant.py:162-168 | a short body line joins the buffer |
| HeadingChunker.ExampleRun2 | assistant.py:109-160 | the loop state after `# A`, `## B` |
| HeadingChunker.ExampleRun3 | assistant.py:109-160 | the loop state after `# A`, `## B`, `### C` |
| HeadingChunker.ExampleRun | assistant.py:109-168 | the loop state after the whole sample document |
| HeadingChunker.ExamplePath | assistant.py:139 | the header path is the stack joined by `" -> "` |
| HeadingChunker.FinishPending | assistant.py:210-223 | the final flush appends the non-empty buffer as a last chunk |
| HeadingChunker.ExamplePending | assistant.py:212 | the sample's buffer joins to `"### C\nbody"` |
| HeadingChunker.ExampleFinish | assistant.py:210-223 | the sample's last chunk has header `C`, header path `A -> B -> C` and title `A` |
| HeadingChunker.HeaderPathExample | assistant.py:81-225 | for `# A / ## B / ### C / body` the last chunk is `"### C\nbody"` with header path `A -> B -> C`, header `C` and document title `A` |
| Knowledge.Root | assistant.py:340 | `os.path.splitext(p)[0]`: a prefix of the path that is either all of it or stops at a dot (also lines 379, 505) |
| Knowledge.PathsDistinct | assistant.py:341 | the index file, `.metadata`, `_metadata.json` and `_statistics.json` are four different paths, so no write clobbers another (also lines 380, 465) |
| Knowledge.Embeddings | assistant.py:437-442 | one embedding per document, in document order, of its content |
| Knowledge.Metadatas | assistant.py:433 | one metadata entry per document, in document order |
| Knowledge.BuiltAligned | assistant.py:427-450 | the build fails exactly on no documents; otherwise chunks and metadata are aligned, the model is unchanged and vector i embeds chunk i |
| Knowledge.KnowledgeBase.constructor | assistant.py:312-319 | a new base has no index, no chunks and no metadata |
| Knowledge.KnowledgeBase.BuildFromDocuments | assistant.py:427-450 | raises on no documents and leaves the state alone; otherwise the new state is the build of the documents |
| Knowledge.Preview | assistant.py:355-356 | a preview is the content when at most 200 characters, else its first 200 characters and `...` |
| Knowledge.Entries | assistant.py:352-360 | one JSON preview entry per chunk with its position as `chunk_id`, its preview, token count and metadata |
| Knowledge.KnowledgeBase.SaveToFile | assistant.py:452-479 | the files written are the index, the pickle, the JSON preview and the statistics; an unbuilt base raises |
| Knowledge.SavedLookups | assistant.py:461-477 | after a save each of the four paths holds exactly what was written for it |
| Knowledge.SaveLoadErrors | assistant.py:483-485 | saving an unbuilt base raises; loading a missing path returns `False` and changes nothing (also lines 454-455) |
| Knowledge.FromEntries | assistant.py:514-520 | the JSON fallback rebuilds one chunk per entry, with `''`, `{}` and `0` for missing keys |
| Knowledge.KnowledgeBase.LoadFromFile | assistant.py:481-533 | the result and the new state are those of reading the index first, then the pickle, else the JSON preview |
| Knowledge.SaveLoadRoundTrip | assistant.py:452-502 | loading what was saved gives back the saved state whatever the state was before |
| Knowledge.LoadWithoutSidecars | assistant.py:487-489 | with the index present and no sidecar, loading returns `False` but the index has already been replaced (also lines 527-529) |
| Knowledge.Previews | assistant.py:355-356 | the chunks seen through their previews (also line 517) |
| Knowledge.JsonFallback | assistant.py:503-526 | without the pickle, loading a save gives back its chunks with contents cut to their previews |
| Knowledge.JsonFallbackExact | assistant.py:503-526 | when no content exceeds 200 characters, the JSON fallback restores the state exactly |
| Knowledge.HitsSelected | assistant.py:546-553 | the corrected result loop yields the neighbours with a valid label, in the order FAISS returned them |
| Knowledge.SelectedBound | assistant.py:546-553 | no more hits than neighbours, and every hit is some chunk's content and metadata |
| Knowledge.SearchBound | assistant.py:535-555 | search returns at most `min(k, len(chunks))` hits, each a stored chunk, and none for an unbuilt or empty base |
| Knowledge.KnowledgeBase.Search | assistant.py:535-555 | the method returns the search result of the current state, with the corrected guard: labels outside `0..len(chunks)-1`, such as FAISS's `-1`, are skipped, where the source keeps a `-1` label (see Findings) |
| Knowledge.HitsFailed | assistant.py:546-553 | once the loop has raised on a missing metadata entry, later neighbours do not change the outcome |
| Knowledge.MissingNeighbourAsWritten | assistant.py:548-553 | with one vector and two chunks, the label -1 passes `idx < len(chunks)` and the last chunk is returned as a match; the corrected loop drops it |
| Knowledge.KnowledgeBase.GetMetadataInfo | assistant.py:557-584 | the method returns the metadata summary of its chunks |
| Knowledge.SumTokensLoop | assistant.py:386 | the loop sums the chunks' token counts (also line 583) |
| Statistics.MetaValue | assistant.py:571-573 | `metadata.get(key, 'unknown')` (also lines 401, 405, 409) |
| Statistics.Column | assistant.py:397-410 | the values of one metadata key over the chunks, in order |
| Statistics.Bump | assistant.py:402 | one count increment adds at most one key (also lines 406, 410) |
| Statistics.BumpKeys | assistant.py:402 | after an increment the keys are the old keys plus the counted one (also lines 406, 410) |
| Statistics.BumpDistinct | assistant.py:402 | an increment keeps the keys distinct (a dict) (also lines 406, 410) |
| Statistics.BumpCount | assistant.py:402 | an increment raises the counted key by one and no other, and the total by one (also lines 406, 410) |
| Statistics.TallyCounts | assistant.py:393-410 | the tally has distinct keys, exactly the keys seen, each counting its occurrences, and counts summing to the number of chunks |
| Statistics.CountOfEntry | assistant.py:402 | in a dict the entry of a key holds its count |
| Statistics.CountOfAbsent | assistant.py:402 | a key not in the dict counts zero |
| Statistics.TallyEntry | assistant.py:393-410 | every tally entry counts its key's occurrences and is positive |
| Statistics.TallyLength | assistant.py:393-410 | a tally has no more entries than keys counted |
| Statistics.ByCountDescFacts | assistant.py:412-414 | the statistics order keeps the entries, sorts counts descending and is stable |
| Statistics.CountChunks | assistant.py:397-414 | the counting loop computes the three sorted tallies |
| Statistics.ColumnSnoc | assistant.py:397-410 | one more chunk counts its value once more |
| Statistics.MetadataInfo | assistant.py:557-584 | the set-collecting loop computes the summary: empty status, or counts of chunks, distinct sources, titles and headers, and the token sum |
| Statistics.SumTokensSnoc | assistant.py:386 | one more chunk adds its tokens to the sum (also line 583) |
| Statistics.DistinctsSnoc | assistant.py:569-573 | one more chunk adds its value to the set |
| Statistics.DistinctCard | assistant.py:578-580 | distinct keys give a set of the same size |
| Statistics.InfoMatchesTallies | assistant.py:383-414 | the unique counts of `get_metadata_info` equal the entry counts of the three statistics dicts, and none exceeds the number of chunks (also lines 575-584) |
| Statistics.TallyDistincts | assistant.py:393-414 | the number of distinct values is the size of the sorted tally (also lines 565-573) |
| AssistantModel.Fragments | assistant.py:734-737 | one context fragment per hit, numbered from 1, each with the hit's metadata and content |
| AssistantModel.SourcesOfFacts | assistant.py:763-770 | the sources list exists exactly when every hit has a `source` key; it then has one entry per hit with its source, preview and `1 - distance`, and otherwise raises `KeyError('source')` |
| AssistantModel.CollectSources | assistant.py:763-770 | the loop builds the sources list, or raises on the first hit without a source |
| AssistantModel.SourcesFailed | assistant.py:763-770 | after the first missing source the later hits do not matter |
| AssistantModel.AnswerShape | assistant.py:713-796 | an error response has no sources, no tokens and no question; no hits give the no-documents prompt and error `no_documents`; a success carries the model's reply and one source per hit |
| AssistantModel.AnswerWithoutIndex | assistant.py:723-731 | with no index the answer is the no-documents response (also lines 537-538) |
| AssistantModel.Assistant.constructor | assistant.py:589-617 | the assistant holds the knowledge base, the settings, the prompts and the default temperature it is given |
| AssistantModel.Assistant.AskQuestion | assistant.py:713-796 | the method returns the answer computed from the current knowledge base, the configured `search_k` and the default temperature, on the corrected search guard |
| AssistantModel.AllDocumentsSources | assistant.py:681-703 | every collected chunk is non-empty and names as its source a file that was read |
| AssistantModel.BuildKeepsStateWithoutDocuments | assistant.py:677-679 | a missing data folder or no chunks leaves the knowledge base as it was (also lines 705-707) |
| AssistantModel.Assistant.BuildKnowledgeBase | assistant.py:671-711 | the new knowledge base is the build on all chunks collected, or the old one when there are none |
| AssistantModel.Assistant.RebuildKnowledgeBase | assistant.py:849-867 | rebuilds, saves when an index exists, and reports status, message and document count |
| AssistantModel.RebuildOutcome | assistant.py:849-867 | the report says success exactly when an index exists, counts the chunks, and the saved files load back to the rebuilt state; without an index nothing is written; an earlier index still reports success when the data folder is missing |
| PostProcessor.CleanHeader | document_processor/base_processor.py:206 | `re.sub(r'^#+\s+', '', line)` keeps a suffix of the line (also lines 216, 234, 269) |
| PostProcessor.DetectSubsectionLevel | document_processor/base_processor.py:249-261 | the backward loop returns the contextual level |
| PostProcessor.ScanBackWindow | document_processor/base_processor.py:252-261 | the backward scan is 3 or 4 and reads only the lines in its window |
| PostProcessor.SubsectionLevelWindow | document_processor/base_processor.py:249-261 | the contextual level is 3 or 4, depends only on the (at most nine) lines before `i`, never on line 0, and is 3 for the first two lines |
| PostProcessor.CalculateHeaderLevel | document_processor/base_processor.py:231-247 | the method returns the header level |
| PostProcessor.HeaderLevelFacts | document_processor/base_processor.py:231-247 | the level is 2 to 4; 4 for `N.N.N`; numbered headings ignore context; unnumbered non-appendix headings get 3 or 4 |
| PostProcessor.Marker | document_processor/base_processor.py:265-266 | the marker is `level` hashes, capped at four |
| PostProcessor.FormatHeaderLevels | document_processor/base_processor.py:263-270 | level 0 yields the bare text, level 2 `## `, and level 5 or more is capped at `#### ` |
| PostProcessor.FormatHeaderIdempotent | document_processor/base_processor.py:263-270 | reformatting a formatted heading at the same level changes nothing |
| PostProcessor.CleanHeaderStart | document_processor/base_processor.py:157 | on a stripped line the cleaned text begins with no space (also line 269) |
| PostProcessor.CleanMarked | document_processor/base_processor.py:269-270 | cleaning a formatted heading gives back its text |
| PostProcessor.EnhancedLines | document_processor/base_processor.py:155-200 | one output line per input line |
| PostProcessor.EnhanceAt | document_processor/base_processor.py:157-200 | the loop body emits for line `i` blank, preface, leveled heading, table title, appendix or the stripped line, in that order of tests |
| PostProcessor.EnhanceContentStructure | document_processor/base_processor.py:150-202 | the method joins the enhanced lines |
| PostProcessor.EnhanceLineLacks | document_processor/base_processor.py:157-200 | an enhanced line has no newline, so the output splits back into its lines |
| PostProcessor.EnhanceShape | document_processor/base_processor.py:150-202 | the output has exactly one line per input line, blank lines become `""`, and a marked non-preface heading becomes a `##`-`####` heading of its cleaned text |
| PostProcessor.FirstStop | document_processor/base_processor.py:109-113 | the first line that ends the title section, or the line count |
| PostProcessor.UntilStopAt | document_processor/base_processor.py:104-126 | the flag loop rewrites exactly the lines before the first stop line |
| PostProcessor.ApplyUntilStop | document_processor/base_processor.py:104-126 | the flag loop computes the rewrite up to the first stop line |
| PostProcessor.ProcessTitleSection | document_processor/base_processor.py:100-128 | the method joins the title-section lines |
| PostProcessor.UntitledShape | document_processor/base_processor.py:115-124 | a changed title line was a `#`, `##` or `###` heading and became the stripped text after its marker |
| PostProcessor.TitleSectionShape | document_processor/base_processor.py:100-128 | the line count is kept; from the first line containing `Предисловие` on, lines are unchanged; earlier changed lines were marked headings and lose only their marker |
| PostProcessor.MapLines | document_processor/base_processor.py:135-146 | one output line per input line |
| PostProcessor.ApplyEach | document_processor/base_processor.py:135-146 | the loop maps every line |
| PostProcessor.ProcessPrefaceSection | document_processor/base_processor.py:130-148 | the method joins the mapped lines |
| PostProcessor.PrefaceOfShape | document_processor/base_processor.py:139-146 | only lines starting `### Предисловие`, `### Сведения о своде правил` or `### Введение` change; the first and last become `## ` headings |
| PostProcessor.PrefaceShape | document_processor/base_processor.py:130-148 | the line count is kept and each line is the preface rewrite of itself |
| PostProcessor.OkvedMatcher | document_processor/base_processor.py:66 | an `ОК\s*ВЭД\s+[A-Z]\s+\d+` match lies within the text |
| PostProcessor.SetFirst | document_processor/base_processor.py:81-82 | a key is set only when absent and matched; existing keys are never overwritten (also lines 57, 62, 67, 72) |
| PostProcessor.SetFieldsKey | document_processor/base_processor.py:55-73 | each pattern field is set from a line only if it was unset |
| PostProcessor.ExtractLineField | document_processor/base_processor.py:53-82 | one line sets each of `code`, `oks`, `okved`, `date_intro` only when unset and matched, with the match as value |
| PostProcessor.ExtractStrippedField | document_processor/base_processor.py:53-82 | the same for the stripped line (also line 46) |
| PostProcessor.StepSetsOnce | document_processor/base_processor.py:45-46 | the per-line step keeps any value already recorded |
| PostProcessor.FoldFirst | document_processor/base_processor.py:45-46 | a key set at most once over the lines holds the value of the first line that offers one |
| PostProcessor.MetadataFirstMatch | document_processor/base_processor.py:39-82 | a field is present exactly when some line offers it, and its value is that of the first such line |
| PostProcessor.ExtractLineTitle | document_processor/base_processor.py:76-82 | a name is recorded only once a code is known |
| PostProcessor.TitleNeedsCode | document_processor/base_processor.py:39-82 | the metadata has a `title` only if it has a `code` |
| PostProcessor.ExtractMetadataAndTitle | document_processor/base_processor.py:39-51 | the metadata comes from the first 20 lines only, and the title from the metadata and the path |
| PostProcessor.TitleOfFacts | document_processor/base_processor.py:84-98 | the title is `code + " " + title`, or the code alone, or the file stem |
| PostProcessor.TitleFacts | document_processor/base_processor.py:39-98 | the same for the metadata read from the first 20 lines |
| PostProcessor.StemAt | document_processor/base_processor.py:98 | the stem is the name after the last slash without its last suffix |
| PostProcessor.StemExample | document_processor/base_processor.py:98 | `d/СП.txt` has stem `СП`; `d/.env` keeps `.env` |
| PostProcessor.JoinTitleBlank | document_processor/base_processor.py:308-309 | the title line and the blank line join as the title and two newlines |
| PostProcessor.AddMetadataSectionShape | document_processor/base_processor.py:303-331 | the output starts with `# title` and a blank line, ends with the content, and has the metadata block exactly when there is metadata |
| Tables.HasNumberDigit | document_processor/pdf_processor.py:155 | a match of `\d+[,\.]\d+\|\b\d+\b` needs a digit |
| Tables.DigitsAreNumber | document_processor/pdf_processor.py:155 | a cell of digits only matches the number pattern |
| Tables.HasNumberExamples | document_processor/pdf_processor.py:155 | `1,5` is a number; `СП12`, digits glued to letters, is not |
| Tables.LongCellIsData | document_processor/pdf_processor.py:159-168 | one text cell of more than 25 characters makes a data row |
| Tables.DataRowFacts | document_processor/xlsx_processor.py:148-157 | a non-empty row with a numeric cell is data, and a row with no truthy cell never is |
| Tables.NoTruthyNoChars | document_processor/pdf_processor.py:165 | a row with no truthy cell has no characters to count |
| Tables.HeaderScan | document_processor/pdf_processor.py:130-150 | the scan from row i never exceeds `min(3, len)` |
| Tables.HeaderCount | document_processor/pdf_processor.py:123-150 | at most `min(3, len(table_data))` header rows |
| Tables.DetectHeaderRows | document_processor/pdf_processor.py:123-150 | the loop with early returns computes the header count |
| Tables.HeaderScanFacts | document_processor/pdf_processor.py:130-150 | the scan stops at the first row that ends the header, giving i+1 when the next row is numeric and i when the row looks like data, and the limit when none does |
| Tables.HeaderCountFacts | document_processor/xlsx_processor.py:112-139 | 0 for an empty table, at most 3, the first ending row decides, and the explicit-header and first-row tests never change the result |
| Tables.MaxWidth | document_processor/pdf_processor.py:196 | the width of the widest row, which some row has |
| Tables.WidestRow | document_processor/pdf_processor.py:196 | the loop finds the width of the widest row |
| Tables.MergeColumn | document_processor/pdf_processor.py:202-215 | the column loop merges the stripped non-empty cells of one column |
| Tables.MergeColumns | document_processor/pdf_processor.py:201-215 | one merged cell per column index |
| Tables.MergeHeaderColumns | document_processor/pdf_processor.py:187-217 | the method computes the merged header |
| Tables.CollapseKeepsFirst | document_processor/pdf_processor.py:212 | collapsing whitespace keeps a leading non-space |
| Tables.ColumnCellsStripped | document_processor/pdf_processor.py:205-207 | the cells collected for a column are non-empty and stripped |
| Tables.MergedCellFacts | document_processor/pdf_processor.py:209-215 | a merged cell is empty exactly when its column had no text, and it is stripped and on one line |
| Tables.MergedHeaderFacts | document_processor/xlsx_processor.py:176-206 | for several rows the merged header has one present, stripped cell per column up to the widest row, empty exactly when the column is |
| Tables.ColumnCellsEmpty | document_processor/pdf_processor.py:203-207 | a column has merged text exactly when some row has a non-blank cell there |
| Tables.Dashes | document_processor/pdf_processor.py:110 | `['---'] * n` |
| Tables.JoinFrame | document_processor/pdf_processor.py:119-121 | a list framed by two markers and a trailing `""` joins to text starting with the first marker line and ending with the last (also line 95) |
| Tables.TableFrame | document_processor/pdf_processor.py:94-121 | a rendered table starts with the start marker line and ends with the end marker and a newline |
| Tables.TableHeaderLines | document_processor/pdf_processor.py:105-117 | a header line is followed by a separator of exactly as many `---` cells, and then the data lines |
| Tables.JoinableCells | document_processor/pdf_processor.py:108 | `" \| ".join` succeeds exactly when no cell is `None`, on the cells' texts |
| Tables.CellTexts | document_processor/pdf_processor.py:116 | `None` as `""`, any other cell as its text |
| Tables.DataLineLacks | document_processor/pdf_processor.py:116-117 | a data line spans one line |
| Tables.DataLinesCount | document_processor/xlsx_processor.py:103-106 | rows with no truthy cell are dropped, the others each give one line |
| Tables.FormatTableUniversal | document_processor/pdf_processor.py:89-121 | the loops render the table (or raise on a `None` header cell) |
| Tables.RenderTableFrame | document_processor/xlsx_processor.py:78-110 | empty data renders `""`; any other rendered table is framed by the markers |
| Tables.MergedHeaderPresent | document_processor/pdf_processor.py:187-217 | rows without `None` merge to a header without `None` |
| Tables.RenderTableStrings | document_processor/xlsx_processor.py:78-110 | a table of strings always renders |
| Tables.NoneHeaderRaises | document_processor/pdf_processor.py:105-108 | a single header row with a `None` cell is returned unmerged and makes the header join raise |
| Tables.RenderTableFixedFacts | document_processor/pdf_processor.py:89-121 | the rendering with `None` as `""` is always framed and agrees with the original wherever that succeeds |
| Docx.CleanRow | document_processor/docx_processor.py:105-109 | one cleaned cell per cell, stripped and whitespace-collapsed |
| Docx.CleanCells | document_processor/docx_processor.py:105-109 | the cell loop cleans every cell, in order |
| Docx.DocxCellEmpty | document_processor/docx_processor.py:107-111 | a cleaned cell is empty exactly when the cell text is blank |
| Docx.CollectRows | document_processor/docx_processor.py:101-113 | the row loop keeps the cleaned rows with some text, and `max_columns` is the widest kept row |
| Docx.DocxRowsFacts | document_processor/docx_processor.py:104-116 | no more rows are kept than given, each kept row has text, and none is kept exactly when every cell is blank |
| Docx.DocxRowsLack | document_processor/docx_processor.py:107-108 | cleaned cells hold no line break |
| Docx.PadTo | document_processor/docx_processor.py:137-138 | a padded row keeps its cells, then holds `""` up to `max_columns` |
| Docx.PadRow | document_processor/docx_processor.py:137-138 | the padding loop pads the row to the width |
| Docx.PaddedLines | document_processor/docx_processor.py:135-139 | one joined, padded line per data row |
| Docx.PadLines | document_processor/docx_processor.py:135-139 | the data-row loop emits the padded lines |
| Docx.FormatDocxTable | document_processor/docx_processor.py:93-145 | the method renders the docx table |
| Docx.DocxTableFrame | document_processor/docx_processor.py:93-145 | a table whose cells are all blank renders `""`; any other is framed by the start and end markers and a trailing empty line |
| Docx.DocxRowsPadded | document_processor/docx_processor.py:135-139 | every data row is padded to `max_columns` cells, with `""` after its own cells |
| Docx.DocxTableLines | document_processor/docx_processor.py:126-145 | with a header, the separator has one `---` per header cell, and the table has one line per data row plus five |
| Docx.IsFullyBold | document_processor/docx_processor.py:81-91 | the early-exit loop is true exactly when some run has text and every run with text is bold |
| Docx.FullyBoldNeedsText | document_processor/docx_processor.py:83-91 | no runs, or no run with text, is never fully bold |
| Docx.StyleLevel | document_processor/docx_processor.py:57-67 | a style gives a heading level of at most 4 |
| Docx.SubtitleIsLevel1 | document_processor/docx_processor.py:60 | `Subtitle` contains `title` and so is a level-1 heading |
| Docx.ParagraphLevel | document_processor/docx_processor.py:56-76 | a paragraph's heading level is at most 4 |
| Docx.ParagraphLevelFacts | document_processor/docx_processor.py:56-79 | the style level wins; otherwise a fully bold paragraph under 50 characters is `##`, under 100 `###`, and anything else plain text |
| Docx.Hashes | document_processor/docx_processor.py:61-76 | n hash characters |
| Docx.FormatParagraphImproved | document_processor/docx_processor.py:50-79 | the method formats the paragraph |
| Docx.FormatParagraphReadBack | document_processor/docx_processor.py:50-79 | the output is empty exactly for blank text, is stripped, and a heading it emits reads back, in the heading chunker, with the same level and text |
| Docx.HeadingLevelOfMarked | document_processor/docx_processor.py:61-76 | `"#" * n + " " + text` is a level-n heading for the chunker |
| Telegram.SplitLongParagraph | telegram_bot.py:178-202 | the sentence loop cuts an over-long paragraph into the parts the sentence fold gives |
| Telegram.PackParagraph | telegram_bot.py:164-204 | one turn of the paragraph loop: join a fitting paragraph to the pending part, or flush the pending part and emit the paragraph, cut into sentences if it is too long |
| Telegram.SplitMessage | telegram_bot.py:153-209 | the method returns the parts of the paragraph fold, with the final flush |
| Telegram.ShortMessage | telegram_bot.py:155-156 | a text within the limit is sent as the single part `[text]` |
| Telegram.PackStep | telegram_bot.py:166-175 | a paragraph that fits keeps every part within the limit and adds itself, after a blank line, to what the parts spell |
| Telegram.PackedParagraphs | telegram_bot.py:164-207 | when every paragraph fits, every part fits and the parts joined by blank lines are the paragraphs joined by blank lines |
| Telegram.PackedMessage | telegram_bot.py:153-209 | a message whose paragraphs all fit is split into parts that each fit and that join back into the message |
| Telegram.ForcedPiece | telegram_bot.py:196-199 | a sentence too long for an empty buffer is emitted as a piece of exactly `max_length` characters ending in `...`, and the rest starts with `...` |
| Telegram.ParagraphOrder | telegram_bot.py:164-204 | a paragraph step only appends parts, and flushes the pending part first when the paragraph does not fit, so parts follow the text |
| Telegram.OneForcedCut | telegram_bot.py:193-202 | a long single-sentence message is cut once: the head of `max_length` characters and a tail holding all the rest |
| Telegram.OverlongPart | telegram_bot.py:193-202 | with limit 4, `abcdefghij` gives a second part 13 characters long |
| Telegram.ChopBounded | telegram_bot.py:197-199 | cutting repeatedly keeps every piece within the limit |
| Telegram.FlushedBounded | telegram_bot.py:201-202 | flushing a bounded pending part keeps every part within the limit (also lines 206-207) |
| Telegram.SentenceStepFixedBounded | telegram_bot.py:187-199 | with repeated cutting a sentence step keeps parts and pending part within the limit |
| Telegram.SentenceRunFixedBounded | telegram_bot.py:182-199 | with repeated cutting the sentence loop keeps everything within the limit |
| Telegram.ParagraphRunFixedBounded | telegram_bot.py:164-204 | with repeated cutting the paragraph loop keeps everything within the limit |
| Telegram.FixedPartsFit | telegram_bot.py:153-209 | with the corrected cut, every part of every message fits in `max_length` |
| Telegram.FixedAgrees | telegram_bot.py:164-204 | the correction changes nothing for messages whose paragraphs fit |
| Telegram.MapCharConcat | telegram_bot.py:148-151 | a one-character replacement distributes over concatenation |
| Telegram.MapCharLacks | telegram_bot.py:148-151 | replacing a character that does not occur changes nothing |
| Telegram.ReplaceChar | telegram_bot.py:148-151 | `str.replace` with a one-character pattern maps that character |
| Telegram.PassesConcat | telegram_bot.py:148-151 | the four passes distribute over concatenation |
| Telegram.MapCharSingle | telegram_bot.py:148-151 | on one character a replacement gives the replacement or the character |
| Telegram.PassesChar | telegram_bot.py:148-151 | because `&` goes first, the four passes turn each character into exactly its own entity |
| Telegram.EscapeHtmlPerChar | telegram_bot.py:144-151 | `_escape_html` escapes each character on its own: no entity is escaped twice |
| Telegram.PassesOfEscaped | telegram_bot.py:148-151 | the four passes escape character by character |
| Telegram.Entity | telegram_bot.py:148-151 | reading one character back from escaped text consumes between one character and the whole text |
| Telegram.EntityAmp | telegram_bot.py:148 | `&amp;` reads back as `&` |
| Telegram.EntityLt | telegram_bot.py:149 | `&lt;` reads back as `<` |
| Telegram.EntityGt | telegram_bot.py:150 | `&gt;` reads back as `>` |
| Telegram.EntityQuot | telegram_bot.py:151 | `&quot;` reads back as `"` |
| Telegram.EntityPlain | telegram_bot.py:148-151 | a character other than `&` reads back as itself |
| Telegram.UnescapeChar | telegram_bot.py:148-151 | one escaped character reads back as itself |
| Telegram.UnescapeEscaped | telegram_bot.py:148-151 | unescaping an escaped text gives it back |
| Telegram.EscapedLacks | telegram_bot.py:148-151 | escaped text holds no `<`, `>` or `"` |
| Telegram.EscapeHtmlFacts | telegram_bot.py:144-151 | `""` maps to `""`, the escape can be undone, and the output has no `<`, `>` or `"` |
| Telegram.HistoryAfterAdd | telegram_bot.py:37-49 | after adding, the history holds 1 to 50 entries, ends with the new one, and loses only the oldest |
| Telegram.UserSession.constructor | telegram_bot.py:28-35 | a new session has the given id and names and an empty history |
| Telegram.UserSession.AddQuestion | telegram_bot.py:37-49 | append, then keep the last 50 entries; the names are untouched |
| Telegram.Filled | telegram_bot.py:123-126 | a name field takes the given text only when it has none, and a filled field keeps its value |
| Telegram.FilledStays | telegram_bot.py:123-126 | a field once filled is never changed by later calls |
| Telegram.Bot.constructor | telegram_bot.py:54-58 | a new bot has no sessions and the given administrators |
| Telegram.Bot.IsAdmin | telegram_bot.py:89-91 | a user is an administrator exactly when the id is in the list |
| Telegram.Bot.GetUserSession | telegram_bot.py:113-128 | an unknown user gets one fresh session; a known user keeps the same session and history, with only empty names filled; no other user's entry changes |
| Telegram.LoadAdminIds | telegram_bot.py:63-87 | the list of configured ids when it is a list of numbers, otherwise the single default administrator |
| Dialogs.NatToStringInjective | dialog_manager.py:46 | different user numbers are written differently |
| Dialogs.FileNameOwner | dialog_manager.py:44-46 | a dialog file name starts with the prefix of its own user and of no other |
| Dialogs.MangledId | dialog_manager.py:169-174 | the id recovered from `1_20240101_120000.json` is `2024010120000`: the `1_` inside the generated id is also removed |
| Dialogs.DoubledPrefix | dialog_manager.py:171 | any id that holds the user prefix loses it on recovery |
| Dialogs.PrefixRemoved | dialog_manager.py:171 | the first `replace` removes the leading prefix and every later occurrence |
| Dialogs.ReplaceLeading | dialog_manager.py:171 | `replace` on a text starting with the pattern replaces that occurrence first |
| Dialogs.SuffixRemoved | dialog_manager.py:171 | the second `replace` removes the trailing `.json` |
| Dialogs.ReplaceAbsent | dialog_manager.py:171 | `replace` changes nothing when the pattern cannot occur |
| Dialogs.ReplaceFirst | dialog_manager.py:171 | `replace` replaces an occurrence and continues after it |
| Dialogs.ListedIdFixedInverts | dialog_manager.py:44-46 | cutting the prefix and the `.json` off a dialog file name gives back every dialog id |
| Dialogs.StoreMessages | dialog_manager.py:114 | one stored message per message |
| Dialogs.LoadMessages | dialog_manager.py:149-156 | one message per stored message |
| Dialogs.LoadStoredMessages | dialog_manager.py:149-156 | messages read back are the messages saved |
| Dialogs.LoadStored | dialog_manager.py:108-158 | loading what `_save_dialog` wrote gives back the dialog |
| Dialogs.LoadDefaults | dialog_manager.py:140-155 | a file without optional keys loads with topic `Новая тема`, empty summary, `is_active` false, no messages, and messages with `tokens_used` 0 |
| Dialogs.NewerFirstPreorder | dialog_manager.py:177 | the `created_at` order is a total preorder, so the sort is defined |
| Dialogs.UserDialogsFacts | dialog_manager.py:165-181 | the dialogs returned are exactly those found, each as often, newest first |
| Dialogs.DeletedNamesOwned | dialog_manager.py:126-129 | every file removed belongs to this user and to a doomed dialog |
| Dialogs.CleanedFacts | dialog_manager.py:119-132 | cleanup only removes files, only this user's, and keeps the first `max_dialogs` dialogs, none older than a removed one |
| Dialogs.SavedDialogListed | dialog_manager.py:165-174 | with the corrected id recovery a saved dialog is always found again |
| Dialogs.SavedDialogMissed | dialog_manager.py:165-174 | with the recovery as written, the saved dialog `1_20240101_120000.json` is not found; the corrected one finds it |
| Dialogs.TrimmedKeepsNewest | dialog_manager.py:92-93 | with a positive limit exactly the newest `max_messages` messages are kept |
| Dialogs.TrimmedZeroKeepsAll | dialog_manager.py:92-93 | with `max_messages` 0 the slice `[-0:]` keeps every message |
| Dialogs.TrimmedFixed | dialog_manager.py:92-93 | the intended bound: at most `max_messages`, the newest ones, none for a negative limit |
| Dialogs.TrimmedFixedAgrees | dialog_manager.py:92-93 | for positive limits the intended bound agrees with the code |
| Dialogs.Dialog.constructor | dialog_manager.py:19-32 | absent messages become an empty list; all other fields are as given |
| Dialogs.DialogManager.constructor | dialog_manager.py:37-42 | a new manager has the settings, no active dialog and the existing files |
| Dialogs.DialogManager.ActiveDialog | dialog_manager.py:71-73 | the active dialog exactly when the user has one |
| Dialogs.DialogManager.SaveDialog | dialog_manager.py:108-117 | only the dialog's own file changes, to the stored dialog |
| Dialogs.DialogManager.LoadDialog | dialog_manager.py:134-163 | the dialog read from its file, or nothing when the file is missing or unreadable |
| Dialogs.DialogManager.GetUserDialogs | dialog_manager.py:165-181 | the user's dialogs as found, newest first |
| Dialogs.DialogManager.RemoveDialogFiles | dialog_manager.py:126-129 | the removal loop deletes exactly the doomed dialogs' files that exist |
| Dialogs.DialogManager.CleanupOldDialogs | dialog_manager.py:119-132 | the files after cleanup; the active dialogs do not change |
| Dialogs.DialogManager.StartNewDialog | dialog_manager.py:52-69 | a fresh active dialog replaces only this user's entry, is saved, and the user's old dialogs are cleaned up |
| Dialogs.DialogManager.AddMessage | dialog_manager.py:75-96 | a user without an active dialog gets a new one; the message is appended, the list trimmed to the newest `max_messages`, the summary kept and the dialog saved |
| Dialogs.DialogManager.UpdateSummary | dialog_manager.py:98-106 | without an active dialog returns false and changes nothing; otherwise sets the summary, keeps the messages, saves and returns true |
| Layout.MinOf | drawing_analyzer/configurable_gpt_analyzer.py:540-541 | `min(...)` over a non-empty list: a member no greater than any |
| Layout.MaxOf | drawing_analyzer/configurable_gpt_analyzer.py:542-543 | `max(...)` over a non-empty list: a member no smaller than any |
| Layout.HullFacts | drawing_analyzer/configurable_gpt_analyzer.py:540-545 | every block lies inside the hull, and each of its four sides is attained by some block |
| Layout.CalculateBboxFacts | drawing_analyzer/configurable_gpt_analyzer.py:629-649 | no blocks give all zeros; otherwise the hull with `width = x1 - x0` and `height = y1 - y0`, both non-negative once some block is well formed |
| Layout.Texts | drawing_analyzer/configurable_gpt_analyzer.py:546 | the block texts, in order |
| Layout.CreateClusterFacts | drawing_analyzer/configurable_gpt_analyzer.py:535-554 | a cluster keeps its id and blocks, type `cluster`, a bbox holding all its blocks, and text that splits back into the block texts |
| Layout.KeyOrders | drawing_analyzer/configurable_gpt_analyzer.py:509 | ordering by y0 and by x0 are total preorders, so the stable sorts are defined |
| Layout.ClusterGroupsFacts | drawing_analyzer/configurable_gpt_analyzer.py:504-533 | the clusters partition the y0-sorted blocks into non-empty consecutive runs; inside a run the gap is below the threshold, and a new run starts exactly when it is not |
| Layout.Numbered | drawing_analyzer/configurable_gpt_analyzer.py:524-531 | one cluster per group |
| Layout.NumberedAt | drawing_analyzer/configurable_gpt_analyzer.py:512-531 | cluster k is made from group k with id k+1 |
| Layout.ClusterStep | drawing_analyzer/configurable_gpt_analyzer.py:514-527 | one round of the loop keeps the clusters so far equal to the numbered runs |
| Layout.ClusterBlocks | drawing_analyzer/configurable_gpt_analyzer.py:504-533 | one cluster per run, each built from its run and numbered from 1 |
| Layout.ByX0Each | drawing_analyzer/configurable_gpt_analyzer.py:599-603 | each group reordered, one row per group |
| Layout.ByX0EachAt | drawing_analyzer/configurable_gpt_analyzer.py:599-603 | row k is group k sorted by x0 |
| Layout.Rows | drawing_analyzer/configurable_gpt_analyzer.py:582-605 | one row per group |
| Layout.RowsFacts | drawing_analyzer/configurable_gpt_analyzer.py:582-605 | the rows partition the y0-sorted blocks: each row a non-empty permutation of its run sorted by x0, and a new row starts exactly when the gap is not below the threshold |
| Layout.RowStep | drawing_analyzer/configurable_gpt_analyzer.py:591-600 | one round of the loop keeps the rows so far equal to the sorted runs |
| Layout.GroupIntoRows | drawing_analyzer/configurable_gpt_analyzer.py:582-605 | the method computes the rows |
| Layout.ColumnSpread | drawing_analyzer/configurable_gpt_analyzer.py:617-624 | the largest and smallest centre of a column, both attained |
| Layout.CheckColumnAlignment | drawing_analyzer/configurable_gpt_analyzer.py:607-627 | false for fewer than two rows or unequal lengths; otherwise true exactly when every column's centres spread by at most `horizontal_threshold` |
| Layout.Contents | drawing_analyzer/configurable_gpt_analyzer.py:575 | the texts of each window row |
| Layout.WindowCount | drawing_analyzer/configurable_gpt_analyzer.py:562 | `len(rows) - min_table_rows + 1` windows, or none |
| Layout.TablesBeforeStep | drawing_analyzer/configurable_gpt_analyzer.py:562-578 | one more window adds its table exactly when it qualifies |
| Layout.TablesBeforeReported | drawing_analyzer/configurable_gpt_analyzer.py:562-578 | every table reported is that of a qualifying window |
| Layout.TablesBeforeOrdered | drawing_analyzer/configurable_gpt_analyzer.py:562-578 | tables come in increasing order of their first row |
| Layout.StartsAppend | drawing_analyzer/configurable_gpt_analyzer.py:572 | the first rows of joined table lists |
| Layout.TablesBeforeComplete | drawing_analyzer/configurable_gpt_analyzer.py:562-578 | the tables start exactly at the qualifying windows |
| Layout.QualifyingBeforeStep | drawing_analyzer/configurable_gpt_analyzer.py:562-566 | one more window adds itself to the qualifying set exactly when it qualifies |
| Layout.TablesFacts | drawing_analyzer/configurable_gpt_analyzer.py:556-580 | a table is reported for a window exactly when every row has `min_table_columns` blocks and the columns align, in window order |
| Layout.TablesNone | drawing_analyzer/configurable_gpt_analyzer.py:562 | fewer rows than `min_table_rows` give no table |
| Layout.WindowQualifies | drawing_analyzer/configurable_gpt_analyzer.py:563-566 | the window test |
| Layout.TablesOfRows | drawing_analyzer/configurable_gpt_analyzer.py:562-580 | the window loop reports the tables of its rows |
| Layout.FindTables | drawing_analyzer/configurable_gpt_analyzer.py:556-580 | the tables of the rows of the blocks |
| Analyzer.Candidates | drawing_analyzer/configurable_gpt_analyzer.py:653-670 | ten candidates: each of the five formats in book and landscape orientation |
| Analyzer.CandidatesAt | drawing_analyzer/configurable_gpt_analyzer.py:662-670 | candidate 2k is format k in book orientation and 2k+1 in landscape, with errors measured on the short and long sides |
| Analyzer.BestIndex | drawing_analyzer/configurable_gpt_analyzer.py:665-686 | the index of a candidate of least error, the first such, since the test is strict |
| Analyzer.BestIndexSnoc | drawing_analyzer/configurable_gpt_analyzer.py:672-686 | one more candidate replaces the best exactly when its error is strictly smaller |
| Analyzer.PageFormatFacts | drawing_analyzer/configurable_gpt_analyzer.py:651-702 | a standard format is reported exactly when some candidate has error below 50, and then it is the first candidate of least error; otherwise a custom format, landscape exactly when `width > height` |
| Analyzer.ExactA4 | drawing_analyzer/configurable_gpt_analyzer.py:653-693 | a 595 by 842 page is A4, book, error 0 |
| Analyzer.Keep | drawing_analyzer/configurable_gpt_analyzer.py:672-686 | one `error < min_error` test keeps the best of the candidates seen so far |
| Analyzer.BestCandidate | drawing_analyzer/configurable_gpt_analyzer.py:665-686 | the loop finds the first candidate of least error |
| Analyzer.DetectPageFormat | drawing_analyzer/configurable_gpt_analyzer.py:651-702 | the method computes the page format defined above |
| Analyzer.Elements | drawing_analyzer/configurable_gpt_analyzer.py:1015 | the set of the members of a list |
| Analyzer.PageSystemsFacts | drawing_analyzer/configurable_gpt_analyzer.py:1013-1015 | a system belongs to a file exactly when some page lists it |
| Analyzer.FileNames | drawing_analyzer/configurable_gpt_analyzer.py:1012-1017 | the file names in order |
| Analyzer.ByFile | drawing_analyzer/configurable_gpt_analyzer.py:1010-1023 | the key list and the dictionary hold the same names, and every file's name is a key |
| Analyzer.ByFileNames | drawing_analyzer/configurable_gpt_analyzer.py:1017-1023 | the keys are the distinct file names in the order first seen |
| Analyzer.ByFileEntries | drawing_analyzer/configurable_gpt_analyzer.py:1012-1021 | the entry of a name holds the index, systems and type of the last file of that name |
| Analyzer.RowRefsFacts | drawing_analyzer/configurable_gpt_analyzer.py:1026-1040 | the inner loop reports exactly the later names sharing a system with name i, as a membership in both directions (their order is Analyzer.RowRefsOrdered) |
| Analyzer.RefsBeforeSound | drawing_analyzer/configurable_gpt_analyzer.py:1025-1040 | every entry reported is a pair i < j of names sharing a system |
| Analyzer.RefsBeforeComplete | drawing_analyzer/configurable_gpt_analyzer.py:1025-1040 | every pair i < j of names sharing a system is reported |
| Analyzer.CrossRefsFacts | drawing_analyzer/configurable_gpt_analyzer.py:1003-1042 | fewer than two files give nothing; otherwise the entries are exactly the pairs of distinct names sharing a system, each with its common systems and their count, in the order of the nested loops (by the first name, then the second), so each pair is reported once |
| Analyzer.CollectSystems | drawing_analyzer/configurable_gpt_analyzer.py:1013-1015 | the union of the systems of the pages |
| Analyzer.SystemsByFile | drawing_analyzer/configurable_gpt_analyzer.py:1010-1023 | the first loop builds the key list and dictionary defined above |
| Analyzer.PairRow | drawing_analyzer/configurable_gpt_analyzer.py:1026-1040 | the inner loop appends the entries of name i |
| Analyzer.FindCrossReferences | drawing_analyzer/configurable_gpt_analyzer.py:1003-1042 | the method computes the cross references defined above |
| Analyzer.Initial | drawing_analyzer/configurable_gpt_analyzer.py:742-746 | a field ending in `s` starts as an empty list, any other as an empty string |
| Analyzer.MatchValue | drawing_analyzer/configurable_gpt_analyzer.py:755-757 | a match gives at most one value, stripped and non-empty |
| Analyzer.Captured | drawing_analyzer/configurable_gpt_analyzer.py:754-757 | values captured by matches are non-empty |
| Analyzer.Accepted | drawing_analyzer/configurable_gpt_analyzer.py:752-765 | a pattern that fails to compile contributes nothing; values are non-empty |
| Analyzer.PatternValues | drawing_analyzer/configurable_gpt_analyzer.py:751-765 | values of a field are non-empty |
| Analyzer.CapturedSound | drawing_analyzer/configurable_gpt_analyzer.py:754-757 | every captured value is group 1 of some match, stripped |
| Analyzer.CapturedComplete | drawing_analyzer/configurable_gpt_analyzer.py:754-757 | every non-empty stripped group 1 is captured |
| Analyzer.CapturedNoGroups | drawing_analyzer/configurable_gpt_analyzer.py:755 | a pattern without groups captures nothing |
| Analyzer.PatternValuesSound | drawing_analyzer/configurable_gpt_analyzer.py:751-765 | every value of a field comes from one of its patterns |
| Analyzer.PatternValuesComplete | drawing_analyzer/configurable_gpt_analyzer.py:751-765 | every value any of its patterns captures reaches the field |
| Analyzer.FieldResultFacts | drawing_analyzer/configurable_gpt_analyzer.py:758-762 | a plural field holds its values without duplicates in first-seen order, with exactly the values captured; a singular field holds the first value, empty exactly when nothing was captured |
| Analyzer.MetadataFields | drawing_analyzer/configurable_gpt_analyzer.py:740-746 | one entry per configured field |
| Analyzer.CapturedStep | drawing_analyzer/configurable_gpt_analyzer.py:754-762 | one more match adds its value after the earlier ones |
| Analyzer.AbsorbMatch | drawing_analyzer/configurable_gpt_analyzer.py:755-762 | one match updates the field to the result of the values seen so far plus its own |
| Analyzer.AbsorbMatches | drawing_analyzer/configurable_gpt_analyzer.py:753-762 | the match loop updates the field to the result of all values of the pattern |
| Analyzer.CollectField | drawing_analyzer/configurable_gpt_analyzer.py:751-765 | the pattern loop gives the field the result of all its patterns' values |
| Analyzer.ParseMetadata | drawing_analyzer/configurable_gpt_analyzer.py:738-767 | the method computes the metadata defined above |
| Drawing.AbsR | drawing_analyzer/drawing_analyzer.py:236 | the absolute value of a real |
| Drawing.CentreOrders | drawing_analyzer/drawing_analyzer.py:228 | ordering by centre x and by centre y are total preorders, so the stable sorts are defined |
| Drawing.ColumnsCover | drawing_analyzer/drawing_analyzer.py:222-245 | the columns, joined, are the blocks sorted by centre x: a sorted permutation of the input |
| Drawing.ColumnsSeparated | drawing_analyzer/drawing_analyzer.py:233-243 | inside a column neighbouring centres differ by less than the threshold, and a new column starts exactly when they do not |
| Drawing.ColumnStep | drawing_analyzer/drawing_analyzer.py:233-240 | one round of the loop keeps the columns so far equal to the runs of the sorted blocks |
| Drawing.GroupIntoColumns | drawing_analyzer/drawing_analyzer.py:222-245 | the method computes the columns defined above, none for no blocks |
| Drawing.ByCentreXEach | drawing_analyzer/drawing_analyzer.py:264-268 | one row per group |
| Drawing.ByCentreXEachAt | drawing_analyzer/drawing_analyzer.py:264-268 | row k is group k sorted by centre x |
| Drawing.Rows | drawing_analyzer/drawing_analyzer.py:247-270 | one row per run of the blocks sorted by centre y |
| Drawing.RowsFacts | drawing_analyzer/drawing_analyzer.py:247-270 | the runs, joined, are the blocks sorted by centre y; each row is a non-empty permutation of its run sorted by centre x; a new row starts exactly where the centres differ by at least the threshold |
| Drawing.RowStep | drawing_analyzer/drawing_analyzer.py:258-265 | one round of the loop keeps the rows so far equal to the sorted runs |
| Drawing.GroupIntoRows | drawing_analyzer/drawing_analyzer.py:247-270 | the method computes the rows defined above |
| Drawing.PageNumbers | drawing_analyzer/drawing_analyzer.py:158-159 | the page of each block, in order |
| Drawing.OnPageMembers | drawing_analyzer/drawing_analyzer.py:157-159 | the blocks of a page are exactly the input blocks on that page |
| Drawing.PagesSnoc | drawing_analyzer/drawing_analyzer.py:157-159 | a block adds its page to the key order exactly when the page is new |
| Drawing.OnPageSnoc | drawing_analyzer/drawing_analyzer.py:159 | a block is appended to its own page's list and to no other |
| Drawing.OnPageAbsent | drawing_analyzer/drawing_analyzer.py:157-163 | a page that is not a key has no blocks |
| Drawing.NoPageNumber | drawing_analyzer/drawing_analyzer.py:157-159 | a page no block names has no blocks |
| Drawing.FileBlock | drawing_analyzer/drawing_analyzer.py:158-159 | one append keeps the dictionary equal to the page lists of the blocks seen so far |
| Drawing.BlocksByPage | drawing_analyzer/drawing_analyzer.py:157-159 | the keys are the pages in first-seen order and each holds that page's blocks in input order |
| Drawing.Texts | drawing_analyzer/drawing_analyzer.py:306-309 | the block texts, in order |
| Drawing.StartRowsAppend | drawing_analyzer/drawing_analyzer.py:311 | the start rows of joined table lists |
| Drawing.PairsSound | drawing_analyzer/drawing_analyzer.py:285-311 | every reported table is the pair of rows it names, and that pair qualifies |
| Drawing.PairsOrdered | drawing_analyzer/drawing_analyzer.py:285-311 | tables come in increasing order of their start row |
| Drawing.PairsComplete | drawing_analyzer/drawing_analyzer.py:285-311 | tables start exactly at the qualifying pairs |
| Drawing.PageTablesFacts | drawing_analyzer/drawing_analyzer.py:282-311 | fewer than two rows give no table; otherwise a table is reported for rows i and i+1 exactly when both have more than one block, their lengths differ by at most one and their first columns align within 50, in row order |
| Drawing.TablesOverSound | drawing_analyzer/drawing_analyzer.py:281-311 | every table is a qualifying pair of rows of its own page |
| Drawing.OnePageSound | drawing_analyzer/drawing_analyzer.py:281-311 | the tables of one page are qualifying pairs of that page |
| Drawing.AlignedRows | drawing_analyzer/drawing_analyzer.py:294-298 | the loop with its early break decides whether the first columns of two rows align |
| Drawing.PageTableScan | drawing_analyzer/drawing_analyzer.py:285-311 | the loop over adjacent rows computes the tables of the page |
| Drawing.PageTablesOf | drawing_analyzer/drawing_analyzer.py:282-311 | the rows of one page, then its tables |
| Drawing.FindTables | drawing_analyzer/drawing_analyzer.py:272-313 | the method computes the tables of every page in page order |
| Drawing.MaxX1 | drawing_analyzer/drawing_analyzer.py:168 | the largest right edge of the blocks, attained by one of them |
| Drawing.MaxY1 | drawing_analyzer/drawing_analyzer.py:169 | the largest bottom edge of the blocks, attained by one of them |
| Drawing.LiteralKeywordMissesTitle | drawing_analyzer/drawing_analyzer.py:188-191 | the phrase `основная надпись` has no pattern as a literal substring, yet does match the pattern searched as a regular expression |
| Drawing.InAreaMembers | drawing_analyzer/drawing_analyzer.py:180-184 | a block is collected by the area loop exactly when it lies in the right 40% and bottom 30% of its page |
| Drawing.KeywordMembers | drawing_analyzer/drawing_analyzer.py:188-191 | a block is collected by the fallback exactly when its lowered text has a title-block keyword under the searched test (the correction of the literal test, see Findings) |
| Drawing.AreasStep | drawing_analyzer/drawing_analyzer.py:163-184 | one more page adds its area blocks |
| Drawing.TitleStep | drawing_analyzer/drawing_analyzer.py:163-191 | once something has been collected, a page adds only its area blocks |
| Drawing.FallbackStep | drawing_analyzer/drawing_analyzer.py:163-191 | the step of the induction over the pages after the first collected block |
| Drawing.FallbackOnlyWhileEmpty | drawing_analyzer/drawing_analyzer.py:186-191 | once any block has been collected, later pages add only their area blocks: the keyword fallback is never taken again |
| Drawing.TitleBlocksSound | drawing_analyzer/drawing_analyzer.py:146-193 | every collected block is a block of a scanned page that lies in that page's title area or has a keyword under the searched test |
| Drawing.AreaOfSound | drawing_analyzer/drawing_analyzer.py:168-184 | the area blocks of a page are on that page and in its title area |
| Drawing.KeywordSound | drawing_analyzer/drawing_analyzer.py:188-191 | the fallback blocks of a page are on that page and have a keyword under the searched test |
| Drawing.TitleBlocksComplete | drawing_analyzer/drawing_analyzer.py:146-193 | every block inside its page's title area is collected |
| Drawing.AreaOfComplete | drawing_analyzer/drawing_analyzer.py:180-184 | every block inside its page's title area is among that page's area blocks |
| Drawing.AreaScan | drawing_analyzer/drawing_analyzer.py:168-184 | the area loop of one page computes its area blocks |
| Drawing.KeywordScan | drawing_analyzer/drawing_analyzer.py:187-191 | the fallback loop of one page computes its keyword blocks under the searched test |
| Drawing.FindTitleBlockByLayout | drawing_analyzer/drawing_analyzer.py:146-193 | the method computes the title blocks defined above, with the keyword test searching the patterns where the source matches them as literal substrings (see Findings) |
| DrawingInfo.CountIsHits | drawing_analyzer/drawing_analyzer.py:423-444 | each counter equals the number of blocks its keywords hit |
| DrawingInfo.CountPositive | drawing_analyzer/drawing_analyzer.py:423-444 | a counter is positive exactly when some block is hit |
| DrawingInfo.FormatNameMonotone | drawing_analyzer/drawing_analyzer.py:460-468 | a page at least as large in both sides never gets a smaller format name |
| DrawingInfo.Bump | drawing_analyzer/drawing_analyzer.py:427-429 | a hit sets `found` and adds one block; a miss changes nothing |
| DrawingInfo.AnalyzeDrawingStructure | drawing_analyzer/drawing_analyzer.py:403-458 | the method computes the structure defined by DrawingInfo.StructureOf, whose title-block counter searches the patterns where the source matches them as literal substrings (see Findings) |
| DrawingInfo.StructureFacts | drawing_analyzer/drawing_analyzer.py:403-458 | each counter counts the blocks its keywords hit and is found exactly when some block is hit, with the title-block test searching the patterns (the corrected test); revisions are never found; a page size exactly when there are blocks |
| DrawingInfo.PageSizeHull | drawing_analyzer/drawing_analyzer.py:447-456 | the page size is the largest right and bottom edges, each attained by a block |
| DrawingInfo.InSectionMembers | drawing_analyzer/drawing_analyzer.py:549-565 | a text is filed under a section exactly when it is a block's text classified by the first keyword list it hits |
| DrawingInfo.SectionsPartition | drawing_analyzer/drawing_analyzer.py:549-565 | every block is filed under exactly one section |
| DrawingInfo.InSectionSnoc | drawing_analyzer/drawing_analyzer.py:549-565 | one more block is appended to its own section and no other |
| DrawingInfo.FileText | drawing_analyzer/drawing_analyzer.py:550-565 | one append keeps the dictionary equal to the sections of the blocks seen so far |
| DrawingInfo.GroupTextBySections | drawing_analyzer/drawing_analyzer.py:545-567 | the method computes the sections, only those that received a text |
| DrawingInfo.FirstTruthyFacts | drawing_analyzer/drawing_analyzer.py:364-377 | a scalar field stays `None` exactly when no value was captured; otherwise it is the first non-empty value, or the empty string when all are empty |
| DrawingInfo.FirstTruthySnoc | drawing_analyzer/drawing_analyzer.py:364-377 | a new value replaces the field exactly while it is `None` or empty |
| DrawingInfo.NoGroupsNothing | drawing_analyzer/drawing_analyzer.py:361 | matches of a pattern without a group contribute nothing |
| DrawingInfo.GroupValuesSound | drawing_analyzer/drawing_analyzer.py:360-362 | every value comes from a match with a group, stripped |
| DrawingInfo.GroupValuesComplete | drawing_analyzer/drawing_analyzer.py:360-362 | every match with a group contributes its stripped value |
| DrawingInfo.FieldValuesSound | drawing_analyzer/drawing_analyzer.py:357-362 | every value of a field comes from a match of one of its patterns |
| DrawingInfo.FieldValuesComplete | drawing_analyzer/drawing_analyzer.py:357-362 | every match with a group of any of a field's patterns contributes |
| DrawingInfo.MaterialsOfConcat | drawing_analyzer/drawing_analyzer.py:391-401 | the materials of two runs of blocks are those of each, in order |
| DrawingInfo.ListFieldExact | drawing_analyzer/drawing_analyzer.py:370-384 | a list field holds exactly the stripped group values of its patterns' matches, each once |
| DrawingInfo.RawTextLines | drawing_analyzer/drawing_analyzer.py:341 | without newlines in the block texts, the raw text splits back into the block texts |
| DrawingInfo.ListMatches | drawing_analyzer/drawing_analyzer.py:360-373 | every value of one pattern's matches is appended to a list field |
| DrawingInfo.ScalarMatches | drawing_analyzer/drawing_analyzer.py:360-377 | the matches of one pattern leave a scalar field at the first truthy value of all values so far |
| DrawingInfo.ScalarField | drawing_analyzer/drawing_analyzer.py:358-377 | a scalar field ends at the first truthy value of all its patterns |
| DrawingInfo.ListField | drawing_analyzer/drawing_analyzer.py:358-373 | a list field collects the values of all its patterns, in order |
| DrawingInfo.MaterialsScan | drawing_analyzer/drawing_analyzer.py:388-401 | the materials are the `findall` results of the three material patterns over each block, block by block |
| DrawingInfo.ExtractStructuredInfo | drawing_analyzer/drawing_analyzer.py:330-386 | the method computes the structured info: scalar fields from the first truthy value, developers and checkers as sets, materials block by block, and the raw joined text |
| Text.Strip | assistant.py:244 | `str.strip()`: the result has no surrounding whitespace, is empty exactly when the text is blank, and is the text after its leading whitespace, cut short |
| Text.JoinSplit | assistant.py:102 | joining the parts of `split(sep)` with `sep` gives the text back |
| Text.SplitWhitespaceJoin | assistant.py:190-193 | words joined by single spaces split on whitespace into the same words |
| Sorting.SortBy | drawing_analyzer/configurable_gpt_analyzer.py:509 | `sorted` with a key: a permutation of the input |
| Sorting.SortBySorted | drawing_analyzer/configurable_gpt_analyzer.py:509 | the result of a key sort is ordered by the key |
| Sorting.SortByStable | drawing_analyzer/configurable_gpt_analyzer.py:599 | the sort is stable: elements with equal keys keep their relative order |
| Sorting.RunsFlatten | drawing_analyzer/configurable_gpt_analyzer.py:512-531 | the groups of the grouping loop, joined, are its input: nothing is lost, duplicated or reordered |
| Sorting.RunsCohesiveSeparated | drawing_analyzer/configurable_gpt_analyzer.py:512-531 | inside a group every element is near its predecessor, and a group starts exactly where an element is not |
| Sorting.Dedup | drawing_analyzer/configurable_gpt_analyzer.py:759-760 | the loop `if v not in out: out.append(v)` keeps exactly the values of its input |
| Sorting.DedupFacts | drawing_analyzer/configurable_gpt_analyzer.py:759-760 | the kept values are distinct and in the order of their first occurrence |
| HeadingChunker.StepLine | assistant.py:109-208 | one pass of the line loop moves the chunker state exactly as the fold step that HeadingChunksOk and RunStackBound reason about |
| HeadingChunker.FinishChunks | assistant.py:210-223 | the last pending lines, stripped, become one more chunk only when non-empty, exactly as the fold's final flush |
| ParagraphChunker.PackParagraph | assistant.py:243-288 | one paragraph moves the packing state as the fold step whose text and bounds lemmas are proved, and the chunks emitted so far are exactly the finished pieces |
| Tables.HeaderNames | document_processor/pdf_processor.py:105-109 | the header line's cell names are the merged header's cells, or an error when a merged cell is `None`; no header rows give no names |
| Tables.AppendDataLines | document_processor/pdf_processor.py:114-117 | the data loop appends exactly the lines of the rows with a truthy cell, each with whitespace collapsed |
| Analyzer.KeepFormat | drawing_analyzer/configurable_gpt_analyzer.py:668-686 | after one format's two orientation tests the kept candidate is the first of least error among the candidates seen so far |
| Drawing.PairStep | drawing_analyzer/drawing_analyzer.py:286-311 | the pair of rows i and i+1 adds exactly one table when both hold more than one block, their sizes differ by at most one and their columns align, and nothing otherwise |
| Dialogs.DialogManager.AppendTrimmed | dialog_manager.py:89-93 | the dialog's messages become the newest `max_messages` of the old list followed by the new message; the summary is unchanged |
| Knowledge.HitStep | assistant.py:547-553 | one turn of the result loop: an earlier failure is kept; a label outside `0..len(chunks)-1` is skipped (the corrected guard, see Findings); a label past the metadata raises `IndexError`; otherwise the chunk's content, its metadata and the distance are appended |
| Knowledge.Hits | assistant.py:546-555 | the result loop over the neighbours in the order FAISS returns them, starting from no hits, with the corrected guard that skips a `-1` label (see Findings) |
| Knowledge.SearchResult | assistant.py:535-555 | `search`: no index or no chunks give no hits; otherwise the corrected result loop runs over the `min(k, len(chunks))` nearest neighbours of the query's embedding |
| Knowledge.HitsAsWritten | assistant.py:546-553 | the result loop as written: only labels `>= len(chunks)` are skipped, a negative label reads from the end as Python indexing does, and an index past either list raises |
| AssistantModel.Answer | assistant.py:713-796 | `ask_question`: a failed search, a failed chat call or a hit without `source` gives the error response; no hits give the no-documents response; otherwise the reply, one source per hit and the reply's token count, all on the corrected search guard that skips a `-1` label (see Findings) |
| Dialogs.ListedId | dialog_manager.py:171 | the id recovery as written: every occurrence of `"{user_id}_"` is removed, then every `.json` |
| Dialogs.ListedIdFixed | dialog_manager.py:171 | the corrected recovery: the file name without its leading prefix and its trailing `.json` |
| Dialogs.Store | dialog_manager.py:108-117 | what `_save_dialog` writes: every field of the dialog, and every message with its `tokens_used` |
| Dialogs.Load | dialog_manager.py:134-163 | the dialog `load_dialog` builds from a readable file: a missing optional key becomes topic `Новая тема`, summary `""`, `is_active` false, no messages, or `tokens_used` 0 |
| Dialogs.UserDialogs | dialog_manager.py:165-181 | `get_user_dialogs`: the dialogs found in the user's files, sorted newest first by `created_at` |
| Dialogs.ListedSnoc | dialog_manager.py:169-174 | one more listed file adds at most its own dialog, after the dialogs found so far |
| Dialogs.Cleaned | dialog_manager.py:119-132 | the files after `_cleanup_old_dialogs`: with more than `max_dialogs` dialogs, the files of `dialogs[max_dialogs:]` are removed; otherwise no file changes |
| Dialogs.Trimmed | dialog_manager.py:92-93 | the trimming as written: `messages[-max_messages:]` when the list is longer than `max_messages` |
| Layout.CalculateBbox | drawing_analyzer/configurable_gpt_analyzer.py:629-649 | `_calculate_bbox`: all zeros for no blocks; otherwise the blocks' hull with `width = x1 - x0` and `height = y1 - y0` |
| Layout.CreateCluster | drawing_analyzer/configurable_gpt_analyzer.py:535-554 | `_create_cluster`: no blocks give an `unknown` cluster with no box and no text; otherwise type `cluster`, the hull as box and the block texts joined by spaces |
| Layout.ClusterGroups | drawing_analyzer/configurable_gpt_analyzer.py:504-533 | the groups of `_cluster_blocks`: the runs of the blocks sorted by y0, a new run starting where the vertical gap reaches the threshold |
| Layout.Tables | drawing_analyzer/configurable_gpt_analyzer.py:556-580 | `_find_tables` on given rows: the tables of the qualifying windows, in window order |
| Analyzer.PageFormatOf | drawing_analyzer/configurable_gpt_analyzer.py:651-702 | `_detect_page_format`: the first candidate of least error when that error is below 50, with the page's sides in its orientation; otherwise a custom format, landscape when `width > height` |
| Analyzer.CrossRefs | drawing_analyzer/configurable_gpt_analyzer.py:1003-1042 | `_find_cross_references`: nothing for fewer than two files; otherwise the rows of the names in key order, each row pairing a name with the later names that share a system |
| Analyzer.Metadata | drawing_analyzer/configurable_gpt_analyzer.py:738-767 | `_parse_metadata_from_text`: each configured field gets the result of its patterns' values over the normalised text |
| Analyzer.RowRefsOrdered | drawing_analyzer/configurable_gpt_analyzer.py:1026-1040 | the inner loop's entries all have name i first, and their second names come after it in strictly increasing position |
| Analyzer.RefsBeforeOrdered | drawing_analyzer/configurable_gpt_analyzer.py:1025-1040 | the outer loop's entries come ordered by the first name's position, then the second's |
| Drawing.Columns | drawing_analyzer/drawing_analyzer.py:222-245 | `_group_into_columns`: the runs of the blocks sorted by centre x, a new column where neighbouring centres differ by at least the threshold |
| Drawing.TitleBlocksOver | drawing_analyzer/drawing_analyzer.py:146-193 | the pages in order each add their title-area blocks, and their keyword blocks only while nothing at all has been collected; the keyword blocks are those of the searched test, the correction of the literal substring match at lines 189-190 (see Findings) |
| Drawing.TitleKeyword | drawing_analyzer/drawing_analyzer.py:188-191 | the corrected keyword test: some title-block pattern matches when searched as a regular expression |
| Drawing.LiteralTitleKeyword | drawing_analyzer/drawing_analyzer.py:189-190 | the keyword test as written: some pattern string occurs literally in the lowered text |
| DrawingInfo.StructureOf | drawing_analyzer/drawing_analyzer.py:403-458 | `analyze_drawing_structure`: each counter counts the blocks its test hits; revisions are never found; the page size is the blocks' largest right and bottom edges with their format name, and is absent for no blocks |
| DrawingInfo.LiteralTitleCountMisses | drawing_analyzer/drawing_analyzer.py:423-424 | the title-block counter as written counts a stamp reading `основная надпись` zero times; the searched test counts it once |
| DrawingInfo.SectionMap | drawing_analyzer/drawing_analyzer.py:545-567 | `_group_text_by_sections`: the sections that received a text, each with its texts in block order |
| DrawingInfo.StructuredInfoOf | drawing_analyzer/drawing_analyzer.py:330-386 | `extract_structured_info`: each scalar field holds the first truthy value of its patterns; developers and checkers hold the set of their values; materials hold the per-block `findall` results; the raw text is the block texts joined by newlines |
| DrawingInfo.FirstTruthy | drawing_analyzer/drawing_analyzer.py:364-377 | a scalar field takes each new value while it is still `None` or `""` |
| PostProcessor.EnhanceLine | document_processor/base_processor.py:157-200 | the line emitted for line i: blank, preface heading, levelled heading, table title, appendix or the stripped line, checked in that order |
| PostProcessor.FormatHeader | document_processor/base_processor.py:263-270 | `_format_header_with_level`: the cleaned text after the level's marker and a space, or the bare cleaned text when the marker is empty |
| PostProcessor.TitleOf | document_processor/base_processor.py:84-98 | `_create_title_from_metadata`: the code and the title that are present, joined by a space, or else the file stem |
| PostProcessor.PrefaceOf | document_processor/base_processor.py:139-146 | a line starting `### Предисловие` or `### Введение` becomes that `##` heading, one starting `### Сведения о своде правил` becomes exactly that heading, and any other line is unchanged |
| Tables.RenderTable | document_processor/pdf_processor.py:89-121 | `_format_table_universal`: `""` for no data; otherwise the framed header line, separator and data lines, or the `TypeError` of a `None` header cell |
| Tables.RenderTableFixed | document_processor/pdf_processor.py:89-121 | the corrected rendering: `None` header cells are written as `""` |
| Telegram.MessageParts | telegram_bot.py:153-209 | `_split_message`: a text within the limit is its only part; otherwise the parts of the paragraph loop, with the pending part flushed at the end |
| Telegram.EscapeHtml | telegram_bot.py:144-151 | `_escape_html`: `""` stays `""`; otherwise `&`, `<`, `>` and `"` are replaced by their entities, `&` first |
| HeadingChunker.HeadingChunks | assistant.py:81-225 | `split_text_by_markdown_headers`: a blank text gives no chunk; otherwise the line loop over the text, markdown-converted when asked, and the final flush |
| HeadingChunker.TextToMarkdown | assistant.py:55-79 | `text_to_markdown`: a blank text is unchanged; otherwise every `##`, `###` and `####` heading line is followed by a copy of its text |

## Left out

- Embedding calls, the chat completion calls and tiktoken's encoder are foreign services, so they are parameters (assistant.py:302-332). The `np.random.rand(1536)` fallback vector is randomness and is not modelled.
- FAISS is represented by its search result, a list of (label, distance) pairs. Its internals and the float L2 distances are foreign code. `relevance_score = 1 - distance` is computed over the reals, without float32 rounding.
- pickle and JSON encoding, `Path.glob`, `os.listdir`, `os.remove`, timestamps and logging are I/O. Files are a map from path to stored value, and the current time is an argument.
- Format extraction through fitz, pdfplumber, python-docx, openpyxl and pandas wraps libraries outside the repository. The serialisers start from the extracted cells, paragraphs and runs.
- The regular-expression engine is not modelled. The fixed patterns of the post-processor and the sentence splitter are character predicates. The drawing analysers' pattern lists are the match sequences `re.finditer` and `re.findall` return.
- `unicodedata.normalize('NFKD', …)` is a parameter of the metadata parser.
- Unicode `lower()` and `re.IGNORECASE` fold only ASCII and the basic Cyrillic alphabet, because full Unicode case mapping has no counterpart here.
- `_round_int` rounding, the millimetre conversions of `_detect_page_format` and the text density are floating point. The page-format model keeps the format, orientation and error only.
- The async Telegram handlers, `_make_api_request`, the HTTP server, the command-line scripts and the config loading are plumbing around the modelled logic.
- `build_or_load_knowledge_base`, `summarize_dialog`, `get_knowledge_base_info`, `load_config` and `_setup_logging` are not modelled. They are I/O or a single chat call, and they have no logic of their own.
- `export_dialog_text` and `export_dialog_json` of the dialog manager are string formatting of stored fields and are not modelled.
- The race between `rebuild_knowledge_base` and a concurrent `search` is concurrency, and the model is sequential.
- Knowledge.KnowledgeBase.GetMetadataInfo: does not model `sources_list` and `document_titles_list`. They are the first ten elements of an unordered set, so only the counts and the token total are stated.
- Knowledge.SearchBound: assumes the search function returns at most `k` neighbours, as FAISS does. Without that assumption only the membership of each hit is stated.
- Docx.PadRow: the in-place padding of each data row (docx_processor.py:136-139) is modelled on a copy of the rows. The aliasing of the caller's lists is not captured.
- Layout.FindTables: requires `min_table_rows >= 1`. For 0 or a negative value the window slices take Python's negative-index meaning, and the defaults never do this.
- `match.group(1)` of an optional group that did not take part is `None`, and `.strip()` on it raises. The patterns in the source always take part in a match, so the model treats group 1 as a string.
- DrawingInfo.ExtractStructuredInfo: `list(set(...))` has an unspecified order, so developers and checkers are modelled as sets. The constant `area` and `sections` entries are left out. So is the `title_block` field loop, whose patterns have no groups and change nothing.
- `prepare_for_gpt_analysis`, `process_drawing`, `generate_report`, `_create_file_summary` and the text utilities of the drawing packages are report formatting and GPT calls, and are not modelled.
- `\d` is modelled as the ASCII digits and `\w` as ASCII letters, digits, `_` and the basic Cyrillic block. Python's `re` on strings also matches other Unicode digits and letters, which no text of the modelled documents relies on.
- Knowledge.KnowledgeBase.Search: models the corrected result guard `0 <= idx < len(chunks)`. The source's `idx < len(self.chunks)` keeps FAISS's `-1` label and returns the last chunk (see Findings); Knowledge.HitsAsWritten is that loop as written.
- AssistantModel.Assistant.AskQuestion: answers on the corrected search of Knowledge.KnowledgeBase.Search, so a `-1` label never becomes a source, as it can in the source.
- Drawing.KeywordMembers: states its fact for the searched title-block test, the correction of the literal substring match at drawing_analyzer.py:189-190 (see Findings).
- Drawing.KeywordSound: states its fact for the searched title-block test, not for the literal substring match at drawing_analyzer.py:189-190.
- Drawing.KeywordScan: computes the keyword blocks of the searched test, not of the literal substring match at drawing_analyzer.py:189-190.
- Drawing.TitleBlocksSound: its keyword alternative is the searched test, not the literal substring match at drawing_analyzer.py:189-190.
- Drawing.FindTitleBlockByLayout: its keyword fallback searches the patterns; the source matches them as literal substrings (drawing_analyzer.py:189-190), and Drawing.LiteralTitleKeyword is that test as written.
- DrawingInfo.AnalyzeDrawingStructure: its title-block counter searches the patterns; the source matches them as literal substrings (drawing_analyzer.py:423-424), and DrawingInfo.LiteralTitleCountMisses shows what that counts.
- DrawingInfo.StructureFacts: its title-block facts are for the searched test, not for the literal substring match at drawing_analyzer.py:423-424.
- Knowledge.Hits: folds Knowledge.HitStep, whose guard skips FAISS's `-1` label; the loop at assistant.py:548 keeps it and returns the last chunk. Knowledge.HitsAsWritten is the fold as written.
- AssistantModel.Answer: computed on Knowledge.SearchResult, the corrected search, so a `-1` label never becomes a source as it can at assistant.py:548.
- Drawing.TitleBlocksOver: its keyword fallback is the searched test Drawing.TitleKeyword, not the literal substring match of drawing_analyzer.py:189-190 (Drawing.LiteralTitleKeyword).
- Layout: the thresholds `vertical_threshold`, `horizontal_threshold` and `table_row_threshold` are integers, where the configuration reads them as floats (defaults 20.0, 50.0 and 10.0, configurable_gpt_analyzer.py:181-183). With integer coordinates a fractional threshold such as 15.5 behaves differently from any integer one, and the model does not cover it.

## Findings

| source | as written | input that shows it | evidently intended | confidence | as-written member | corrected member |
|---|---|---|---|---|---|---|
| assistant.py:548-553 | the guard `idx < len(self.chunks)` lets FAISS's `-1` "no neighbour" label through, and `self.chunks[-1]` is the last chunk | two chunks and neighbours `(0, d0), (-1, d1)`: the second hit is the last chunk | skip labels outside `0..len-1` | not executed | Knowledge.MissingNeighbourAsWritten | Knowledge.HitsSelected |
| document_processor/pdf_processor.py:105-108 | the merged header of a single header row keeps `None` cells, and `" \| ".join` raises `TypeError` | the table `[[None, "Имя"], ["1", "2"]]` | a `None` header cell renders as `""`, as data cells do | not executed | Tables.NoneHeaderRaises | Tables.RenderTableFixedFacts |
| telegram_bot.py:193-202 | after a forced cut of a long sentence, the rest becomes the pending sentence and is never cut again, so a part can exceed `max_length` | the text `"abcdefghij"` with `max_length` 4 gives a second part of 13 characters | every part is at most `max_length` | not executed | Telegram.OverlongPart | Telegram.FixedPartsFit |
| dialog_manager.py:169-174 | the dialog id is recovered with `replace("{user}_", "")`, which also removes `"1_"` inside the id | user 1 and id `"20240101_120000"` give the id `"2024010120000"` | remove only the leading prefix and the `.json` suffix | not executed | Dialogs.MangledId | Dialogs.ListedIdFixedInverts |
| dialog_manager.py:92-93 | with `max_messages` 0 the slice `[-0:]` keeps every message | any non-empty dialog with `max_messages` 0 | keep no messages for a limit of 0 | not executed | Dialogs.TrimmedZeroKeepsAll | Dialogs.TrimmedFixedAgrees |
| drawing_analyzer/drawing_analyzer.py:189-190 | the title-block patterns are regular expressions but are matched as literal substrings, so few texts contain one | the text `"основная надпись"` contains no pattern literally, yet matches `основн[а-я]*\s*надпис[а-я]*` | search each pattern as a regular expression | not executed | Drawing.LiteralKeywordMissesTitle | Drawing.FindTitleBlockByLayout |
| drawing_analyzer/drawing_analyzer.py:423-424 | the title-block counter of `analyze_drawing_structure` matches the same patterns as literal substrings | a single block reading `"основная надпись"` is counted zero times | count the blocks the patterns match when searched | not executed | DrawingInfo.LiteralTitleCountMisses | DrawingInfo.StructureFacts |
