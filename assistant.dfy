/** `Assistant`: answering a question from the knowledge base through the
    chat model, and (re)building the knowledge base from the document
    folder. The chat model, the embedding provider, FAISS and the folder
    scan are parameters. */
module AssistantModel {
  import opened Text
  import opened Chunks
  import opened Knowledge
  import TextSplitter

  // ---------------------------------------------------------------- ask_question

  datatype Message = Message(role: string, content: string)

  /** `choices[0].message.content` and `usage.total_tokens` (absent usage is `None`). */
  datatype Reply = Reply(content: string, totalTokens: Option<nat>)

  /** The chat completion for the messages at a temperature, or the message
      of the exception it raised. */
  type ChatModel = (seq<Message>, real) -> Result<Reply>

  /** The prompts file entries `ask_question` reads. */
  datatype Prompts = Prompts(system: string, noDocuments: string, processingError: string)

  datatype Source = Source(source: string, preview: string, relevance: real)

  datatype Response = Response(answer: string, sources: seq<Source>, tokensUsed: nat,
                               question: Option<string>, error: Option<string>)

  /** One fragment of the context; `render` is Python's text form of the
      metadata dict. */
  function Fragment(i: nat, h: Hit, render: Meta -> string): string {
    "Фрагмент " + NatToString(i + 1) + " (metadata: " + render(h.metadata) + "):\n" + h.content
  }

  function Fragments(hits: seq<Hit>, render: Meta -> string): (r: seq<string>)
    ensures |r| == |hits| && forall i :: 0 <= i < |hits| ==> r[i] == Fragment(i, hits[i], render)
  {
    seq(|hits|, i requires 0 <= i < |hits| => Fragment(i, hits[i], render))
  }

  function Messages(system: string, hits: seq<Hit>, question: string, render: Meta -> string): seq<Message> {
    [Message("system", system),
     Message("user", "Контекст для ответа:\n" + Join("\n\n", Fragments(hits, render)) + "\n\nВопрос: " + question)]
  }

  /** `str(KeyError('source'))`. */
  const MissingSource := "'source'"

  /** The `sources` list: `doc['metadata']['source']` raises when absent. */
  function SourcesOf(hits: seq<Hit>): Result<seq<Source>> {
    if hits == [] then Success([])
    else
      var rest := SourcesOf(hits[..|hits| - 1]);
      var h := Last(hits);
      if rest.Failure? then rest
      else if "source" !in h.metadata then Failure(MissingSource)
      else Success(rest.value + [Source(h.metadata["source"], Preview(h.content), 1.0 - h.distance)])
  }

  function ErrorResponse(prompts: Prompts, e: string): Response {
    Response(prompts.processingError, [], 0, None, Some(e))
  }

  /** `ask_question(question, temperature)`: every exception becomes an error
      response. */
  function Answer(st: KBState, question: string, temperature: Option<real>, defaultTemperature: real, k: nat,
                  embed: Embedder, knn: Knn, chat: ChatModel, prompts: Prompts, render: Meta -> string): Response
  {
    match SearchResult(st, question, k, embed, knn)
    case Failure(e) => ErrorResponse(prompts, e)
    case Success(hits) =>
      if hits == [] then Response(prompts.noDocuments, [], 0, None, Some("no_documents"))
      else
        match chat(Messages(prompts.system, hits, question, render), GetOr(temperature, defaultTemperature))
        case Failure(e) => ErrorResponse(prompts, e)
        case Success(reply) =>
          match SourcesOf(hits)
          case Failure(e) => ErrorResponse(prompts, e)
          case Success(sources) => Response(reply.content, sources, GetOr(reply.totalTokens, 0), Some(question), None)
  }

  lemma {:induction false} SourcesOfFacts(hits: seq<Hit>)
    ensures SourcesOf(hits).Success? <==> forall i :: 0 <= i < |hits| ==> "source" in hits[i].metadata
    ensures SourcesOf(hits).Success? ==>
      var s := SourcesOf(hits).value;
      |s| == |hits| && forall i :: 0 <= i < |hits| ==>
        s[i] == Source(hits[i].metadata["source"], Preview(hits[i].content), 1.0 - hits[i].distance)
    ensures SourcesOf(hits).Failure? ==> SourcesOf(hits) == Failure(MissingSource)
  {
    if hits != [] {
      var init := hits[..|hits| - 1];
      SourcesOfFacts(init);
      assert forall i :: 0 <= i < |init| ==> init[i] == hits[i];
      if !("source" in Last(hits).metadata) {
        assert !("source" in hits[|hits| - 1].metadata);
      }
    }
  }

  /** The answer either carries an error, no sources and no tokens, or it is the
      model's reply with one source per retrieved fragment (its file name,
      preview and `1 - distance`) and the question echoed. Nothing is found
      when the search returns no fragment. */
  lemma AnswerShape(st: KBState, question: string, temperature: Option<real>, defaultTemperature: real, k: nat,
                    embed: Embedder, knn: Knn, chat: ChatModel, prompts: Prompts, render: Meta -> string)
    ensures var r := Answer(st, question, temperature, defaultTemperature, k, embed, knn, chat, prompts, render);
            (r.error.Some? ==> r.sources == [] && r.tokensUsed == 0 && r.question.None?)
            && (SearchResult(st, question, k, embed, knn) == Success([]) ==>
                  r.answer == prompts.noDocuments && r.error == Some("no_documents"))
            && (r.error.None? ==>
                  var hits := SearchResult(st, question, k, embed, knn).value;
                  var reply := chat(Messages(prompts.system, hits, question, render), GetOr(temperature, defaultTemperature));
                  r.question == Some(question) && reply.Success? && r.answer == reply.value.content
                  && |r.sources| == |hits| > 0
                  && forall i :: 0 <= i < |hits| ==>
                       "source" in hits[i].metadata && r.sources[i].source == hits[i].metadata["source"]
                       && |r.sources[i].preview| <= 203 && r.sources[i].relevance == 1.0 - hits[i].distance)
  {
    var res := SearchResult(st, question, k, embed, knn);
    if res.Success? {
      SourcesOfFacts(res.value);
    }
  }

  /** With no index the assistant answers with the no-documents prompt. */
  lemma AnswerWithoutIndex(st: KBState, question: string, temperature: Option<real>, defaultTemperature: real, k: nat,
                           embed: Embedder, knn: Knn, chat: ChatModel, prompts: Prompts, render: Meta -> string)
    requires st.index.None?
    ensures Answer(st, question, temperature, defaultTemperature, k, embed, knn, chat, prompts, render)
         == Response(prompts.noDocuments, [], 0, None, Some("no_documents"))
  {
  }

  // ---------------------------------------------------------------- build_knowledge_base

  /** One file found under the data folder: its name and the text read from it,
      or the read error. */
  datatype SourceFile = SourceFile(name: string, text: Result<string>)

  /** The settings of `config['knowledge_base']` the build uses. */
  datatype Settings = Settings(indexPath: string, useMarkdown: bool, chunkSize: int, searchK: nat)

  /** `all_documents`: the chunks of every readable file, in scan order;
      unreadable files are skipped. */
  function AllDocuments(files: seq<SourceFile>, cfg: Settings, tok: Tokenizer): seq<Chunk> {
    if files == [] then []
    else
      var f := Last(files);
      AllDocuments(files[..|files| - 1], cfg, tok)
      + (if f.text.Success? then TextSplitter.SplitChunks(f.text.value, f.name, cfg.useMarkdown, cfg.chunkSize, tok) else [])
  }

  /** The knowledge base after `build_knowledge_base`; `None` is a missing
      data folder. */
  function AfterBuild(st: KBState, data: Option<seq<SourceFile>>, cfg: Settings, tok: Tokenizer, embed: Embedder): KBState {
    if data.None? then st
    else
      var docs := AllDocuments(data.value, cfg, tok);
      if docs == [] then st else Built(st, docs, embed).value
  }

  /** Every collected chunk comes from a file that was read, names it as its
      source, and is non-empty. */
  lemma {:induction false} AllDocumentsSources(files: seq<SourceFile>, cfg: Settings, tok: Tokenizer)
    ensures forall c :: c in AllDocuments(files, cfg, tok) ==>
      c.content != "" && "source" in c.metadata
      && exists i :: 0 <= i < |files| && files[i].text.Success? && files[i].name == c.metadata["source"]
  {
    if files != [] {
      var init := files[..|files| - 1];
      var f := Last(files);
      AllDocumentsSources(init, cfg, tok);
      if f.text.Success? {
        TextSplitter.ChunksWellFormed(f.text.value, f.name, cfg.useMarkdown, cfg.chunkSize, tok);
      }
      forall c | c in AllDocuments(files, cfg, tok)
        ensures c.content != "" && "source" in c.metadata
          && exists i :: 0 <= i < |files| && files[i].text.Success? && files[i].name == c.metadata["source"]
      {
        if c in AllDocuments(init, cfg, tok) {
          var i :| 0 <= i < |init| && init[i].text.Success? && init[i].name == c.metadata["source"];
          assert files[i] == init[i];
        } else {
          assert files[|files| - 1] == f;
        }
      }
    }
  }

  /** A build that collects no chunk leaves the knowledge base as it was. */
  lemma BuildKeepsStateWithoutDocuments(st: KBState, data: Option<seq<SourceFile>>, cfg: Settings, tok: Tokenizer, embed: Embedder)
    requires data.None? || AllDocuments(data.value, cfg, tok) == []
    ensures AfterBuild(st, data, cfg, tok, embed) == st
  {
  }

  // ---------------------------------------------------------------- rebuild_knowledge_base

  datatype Report = Report(status: string, message: string, documentsCount: nat)

  class Assistant {
    const kb: KnowledgeBase
    const cfg: Settings
    const prompts: Prompts
    const defaultTemperature: real

    constructor (kb: KnowledgeBase, cfg: Settings, prompts: Prompts, defaultTemperature: real)
      ensures this.kb == kb && this.cfg == cfg && this.prompts == prompts && this.defaultTemperature == defaultTemperature
    {
      this.kb := kb;
      this.cfg := cfg;
      this.prompts := prompts;
      this.defaultTemperature := defaultTemperature;
    }

    method AskQuestion(question: string, temperature: Option<real>, embed: Embedder, knn: Knn, chat: ChatModel,
                       render: Meta -> string)
      returns (r: Response)
      ensures r == Answer(kb.State(), question, temperature, defaultTemperature, cfg.searchK, embed, knn, chat, prompts, render)
    {
      var found := kb.Search(question, cfg.searchK, embed, knn);
      if found.Failure? {
        return ErrorResponse(prompts, found.error);
      }
      var hits := found.value;
      if hits == [] {
        return Response(prompts.noDocuments, [], 0, None, Some("no_documents"));
      }
      var temp := if temperature.Some? then temperature.value else defaultTemperature;
      var reply := chat(Messages(prompts.system, hits, question, render), temp);
      if reply.Failure? {
        return ErrorResponse(prompts, reply.error);
      }
      var sources := CollectSources(hits);
      if sources.Failure? {
        return ErrorResponse(prompts, sources.error);
      }
      r := Response(reply.value.content, sources.value, GetOr(reply.value.totalTokens, 0), Some(question), None);
    }

    method BuildKnowledgeBase(data: Option<seq<SourceFile>>, tok: Tokenizer, embed: Embedder)
      modifies kb
      ensures kb.State() == AfterBuild(old(kb.State()), data, cfg, tok, embed)
    {
      if data.None? {
        return;
      }
      var files := data.value;
      var docs: seq<Chunk> := [];
      var i := 0;
      while i < |files|
        invariant 0 <= i <= |files|
        invariant docs == AllDocuments(files[..i], cfg, tok)
        invariant kb.State() == old(kb.State())
      {
        assert files[..i + 1][..i] == files[..i];
        assert Last(files[..i + 1]) == files[i];
        var f := files[i];
        if f.text.Success? {
          var chunks := TextSplitter.SplitText(f.text.value, f.name, cfg.useMarkdown, cfg.chunkSize, tok);
          docs := docs + chunks;
        }
        i := i + 1;
      }
      assert files[..i] == files;
      if docs == [] {
        return;
      }
      var _ := kb.BuildFromDocuments(docs, embed);
    }

    /** `rebuild_knowledge_base`; the index is written under `cfg.indexPath`
        and the file system is returned. */
    method RebuildKnowledgeBase(data: Option<seq<SourceFile>>, files: Files, timestamp: string,
                                tok: Tokenizer, embed: Embedder)
      returns (report: Report, written: Files)
      modifies kb
      ensures kb.State() == AfterBuild(old(kb.State()), data, cfg, tok, embed)
      ensures (report, written) == RebuiltAt(kb.State(), files, cfg.indexPath, timestamp)
    {
      BuildKnowledgeBase(data, tok, embed);
      if kb.index.Some? {
        var saved := kb.SaveToFile(cfg.indexPath, files, timestamp);
        written := saved.value;
        report := Report("success", "База знаний успешно перестроена: " + NatToString(|kb.chunks|) + " документов", |kb.chunks|);
      } else {
        written := files;
        report := Report("error", "Не удалось перестроить базу знаний", |kb.chunks|);
      }
    }
  }

  /** The report and files after the rebuild saved to `path`. */
  function RebuiltAt(st: KBState, files: Files, path: string, timestamp: string): (Report, Files) {
    if st.index.Some? then
      (Report("success", "База знаний успешно перестроена: " + NatToString(|st.chunks|) + " документов", |st.chunks|),
       Saved(st, files, path, timestamp).value)
    else (Report("error", "Не удалось перестроить базу знаний", |st.chunks|), files)
  }

  /** The `sources` loop of `ask_question`. */
  method CollectSources(hits: seq<Hit>) returns (r: Result<seq<Source>>)
    ensures r == SourcesOf(hits)
  {
    var sources: seq<Source> := [];
    var i := 0;
    while i < |hits|
      invariant 0 <= i <= |hits|
      invariant SourcesOf(hits[..i]) == Success(sources)
    {
      assert hits[..i + 1][..i] == hits[..i];
      assert Last(hits[..i + 1]) == hits[i];
      var h := hits[i];
      if "source" !in h.metadata {
        SourcesFailed(hits, i + 1);
        return Failure(MissingSource);
      }
      sources := sources + [Source(h.metadata["source"], Preview(h.content), 1.0 - h.distance)];
      i := i + 1;
    }
    assert hits[..i] == hits;
    r := Success(sources);
  }

  lemma {:induction false} SourcesFailed(hits: seq<Hit>, i: nat)
    requires i <= |hits| && SourcesOf(hits[..i]).Failure?
    ensures SourcesOf(hits) == SourcesOf(hits[..i])
    decreases |hits| - i
  {
    if i < |hits| {
      assert hits[..i + 1][..i] == hits[..i];
      SourcesFailed(hits, i + 1);
    } else {
      assert hits[..i] == hits;
    }
  }

  /** The rebuild reports success exactly when an index exists afterwards, and
      then the saved files load back to the rebuilt state; a missing data
      folder with an index from before still reports success. */
  lemma RebuildOutcome(st: KBState, data: Option<seq<SourceFile>>, cfg: Settings, tok: Tokenizer, embed: Embedder,
                       files: Files, timestamp: string, other: KBState)
    ensures var after := AfterBuild(st, data, cfg, tok, embed);
            var (report, written) := RebuiltAt(after, files, cfg.indexPath, timestamp);
            (report.status == "success" <==> after.index.Some?)
            && report.documentsCount == |after.chunks|
            && (after.index.Some? ==> Loaded(other, written, cfg.indexPath) == (true, after))
            && (after.index.None? ==> written == files)
    ensures data.None? && st.index.Some? ==>
      RebuiltAt(AfterBuild(st, data, cfg, tok, embed), files, cfg.indexPath, timestamp).0.status == "success"
    ensures data.Some? && AllDocuments(data.value, cfg, tok) != [] ==>
      var after := AfterBuild(st, data, cfg, tok, embed);
      after.chunks == AllDocuments(data.value, cfg, tok) && Aligned(after)
  {
    var after := AfterBuild(st, data, cfg, tok, embed);
    if after.index.Some? {
      SaveLoadRoundTrip(after, files, cfg.indexPath, timestamp, other);
    }
    if data.Some? && AllDocuments(data.value, cfg, tok) != [] {
      BuiltAligned(st, AllDocuments(data.value, cfg, tok), embed);
    }
  }
}
