/** `KnowledgeBase`: three positionally aligned lists (the vector index,
    `chunks` and `metadatas`) with build, search, save and load. The file
    system is a map from path to the stored value; embedding and the FAISS
    nearest-neighbour search are oracles passed in by the caller. */
module Knowledge {
  import opened Text
  import opened Chunks
  import opened Statistics

  type Vector = seq<real>
  type Meta = map<string, string>

  /** The embedding provider, `get_embedding`. */
  type Embedder = string -> Vector

  /** One row of `index.search`: a label (FAISS writes -1 where it has no
      neighbour) and its distance. */
  datatype Neighbour = Neighbour(idx: int, distance: real)

  /** `index.search(query, n)` for the stored vectors, nearest first. */
  type Knn = (seq<Vector>, Vector, nat) -> seq<Neighbour>

  /** One item of `content_preview` list of the JSON sidecar; keys read with
      `.get` may be absent in a file not written by `save_to_file`. */
  datatype Entry = Entry(chunkId: nat, preview: Option<string>, tokens: Option<int>, metadata: Option<Meta>)

  /** What a path holds: a FAISS index, the pickled sidecar, one of the two
      JSON sidecars, or anything else (which the readers reject). */
  datatype Stored =
    | IndexFile(vectors: seq<Vector>)
    | Pickle(pChunks: Option<seq<Chunk>>, pMetadatas: Option<seq<Meta>>, pModel: Option<string>)
    | MetadataJson(timestamp: string, jModel: Option<string>, total: nat, entries: Option<seq<Entry>>)
    | StatisticsJson(sTimestamp: string, sTotal: nat, totalTokens: int, tallies: Tallies)
    | Blob

  type Files = map<string, Stored>

  /** The fields `index`, `chunks`, `metadatas` and `embedding_model`. */
  datatype KBState = KBState(index: Option<seq<Vector>>, chunks: seq<Chunk>, metadatas: seq<Meta>, model: string)

  // ---------------------------------------------------------------- paths

  /** `s.rfind(c)`. */
  /** Some character other than '.' in `s[a..b]`. */
  predicate HasNonDot(s: string, a: nat, b: nat)
    requires a <= b <= |s|
  {
    exists j :: a <= j < b && s[j] != '.'
  }

  /** `os.path.splitext(p)[0]`: drop the last extension of the last path
      component, unless that component is only dots up to it. */
  function Root(p: string): (r: string)
    ensures |r| <= |p| && r == p[..|r|]
    ensures |r| == |p| || p[|r|] == '.'
  {
    var sep := RFind(p, '/');
    var dot := RFind(p, '.');
    if dot > sep && HasNonDot(p, sep + 1, dot) then p[..dot] else p
  }

  function PicklePath(p: string): string { p + ".metadata" }
  function JsonPath(p: string): string { Root(p) + "_metadata.json" }
  function StatsPath(p: string): string { Root(p) + "_statistics.json" }

  /** The index file and its three sidecars are four different paths. */
  lemma PathsDistinct(p: string)
    ensures p != PicklePath(p) && p != JsonPath(p) && p != StatsPath(p)
    ensures PicklePath(p) != JsonPath(p) && PicklePath(p) != StatsPath(p) && JsonPath(p) != StatsPath(p)
  {
    var r := Root(p);
    assert Last(PicklePath(p)) == 'a';
    assert Last(JsonPath(p)) == 'n' && Last(StatsPath(p)) == 'n';
    assert |JsonPath(p)| != |StatsPath(p)|;
  }

  // ---------------------------------------------------------------- build

  function Embeddings(docs: seq<Chunk>, embed: Embedder): (r: seq<Vector>)
    ensures |r| == |docs| && forall i :: 0 <= i < |docs| ==> r[i] == embed(docs[i].content)
  {
    seq(|docs|, i requires 0 <= i < |docs| => embed(docs[i].content))
  }

  /** `[doc['metadata'] for doc in documents]`. */
  function Metadatas(docs: seq<Chunk>): (r: seq<Meta>)
    ensures |r| == |docs| && forall i :: 0 <= i < |docs| ==> r[i] == docs[i].metadata
  {
    seq(|docs|, i requires 0 <= i < |docs| => docs[i].metadata)
  }

  const NoDocuments := "Нет документов для построения базы знаний"

  /** `build_from_documents`: raises on no documents; otherwise one vector
      per document in input order. */
  function Built(st: KBState, docs: seq<Chunk>, embed: Embedder): Result<KBState> {
    if docs == [] then Failure(NoDocuments)
    else Success(KBState(Some(Embeddings(docs, embed)), docs, Metadatas(docs), st.model))
  }

  /** `metadatas[i]` is `chunks[i]['metadata']` for every position. */
  predicate Aligned(st: KBState) {
    |st.metadatas| == |st.chunks| && forall i :: 0 <= i < |st.chunks| ==> st.metadatas[i] == st.chunks[i].metadata
  }

  /** After a build the three lists are aligned: vector i embeds chunk i. */
  lemma BuiltAligned(st: KBState, docs: seq<Chunk>, embed: Embedder)
    ensures Built(st, docs, embed).Failure? <==> docs == []
    ensures Built(st, docs, embed).Success? ==>
      var b := Built(st, docs, embed).value;
      Aligned(b) && b.chunks == docs && b.model == st.model && b.index.Some?
      && |b.index.value| == |docs| && forall i :: 0 <= i < |docs| ==> b.index.value[i] == embed(docs[i].content)
  {
  }

  // ---------------------------------------------------------------- save

  /** `content[:200] + '...'` when longer than 200 characters. */
  function Preview(content: string): (r: string)
    ensures |r| <= 203
    ensures |content| <= 200 ==> r == content
    ensures |content| > 200 ==> r == content[..200] + "..."
  {
    if |content| > 200 then content[..200] + "..." else content
  }

  function Entries(chunks: seq<Chunk>): (r: seq<Entry>)
    ensures |r| == |chunks|
    ensures forall i :: 0 <= i < |chunks| ==>
      r[i] == Entry(i, Some(Preview(chunks[i].content)), Some(chunks[i].tokens), Some(chunks[i].metadata))
  {
    seq(|chunks|, i requires 0 <= i < |chunks| =>
      Entry(i, Some(Preview(chunks[i].content)), Some(chunks[i].tokens), Some(chunks[i].metadata)))
  }

  const NotBuilt := "База знаний не построена"

  /** The files after `save_to_file(p)`: the index, the pickle, the JSON
      preview and the statistics. */
  function Saved(st: KBState, files: Files, p: string, timestamp: string): Result<Files> {
    if st.index.None? then Failure(NotBuilt)
    else
      Success(files[p := IndexFile(st.index.value)]
                   [PicklePath(p) := Pickle(Some(st.chunks), Some(st.metadatas), Some(st.model))]
                   [JsonPath(p) := MetadataJson(timestamp, Some(st.model), |st.chunks|, Some(Entries(st.chunks)))]
                   [StatsPath(p) := StatisticsJson(timestamp, |st.chunks|, SumTokens(st.chunks), TalliesOf(st.chunks))])
  }

  // ---------------------------------------------------------------- load

  /** Chunks rebuilt from the JSON preview entries. */
  function FromEntries(entries: seq<Entry>): (r: seq<Chunk>)
    ensures |r| == |entries|
    ensures forall i :: 0 <= i < |entries| ==>
      r[i] == Chunk(GetOr(entries[i].preview, ""), GetOr(entries[i].metadata, map[]), GetOr(entries[i].tokens, 0))
  {
    seq(|entries|, i requires 0 <= i < |entries| =>
      Chunk(GetOr(entries[i].preview, ""), GetOr(entries[i].metadata, map[]), GetOr(entries[i].tokens, 0)))
  }

  /** The state after loading the JSON sidecar. */
  function FromJson(st: KBState, doc: Stored): KBState
    requires doc.MetadataJson? || doc.StatisticsJson?
  {
    var chunks := if doc.MetadataJson? then FromEntries(GetOr(doc.entries, [])) else [];
    var model := if doc.MetadataJson? then GetOr(doc.jModel, st.model) else st.model;
    st.(chunks := chunks, metadatas := Metadatas(chunks), model := model)
  }

  /** `load_from_file(p)`: its result and the new state. The index is
      replaced as soon as it is read, before the sidecars are looked at. */
  function Loaded(st: KBState, files: Files, p: string): (bool, KBState) {
    if p !in files || !files[p].IndexFile? then (false, st)
    else
      var st1 := st.(index := Some(files[p].vectors));
      if PicklePath(p) in files then
        match files[PicklePath(p)]
        case Pickle(c, m, e) =>
          (true, st1.(chunks := GetOr(c, []), metadatas := GetOr(m, []), model := GetOr(e, st.model)))
        case _ => (false, st1)
      else if JsonPath(p) in files then
        var doc := files[JsonPath(p)];
        if doc.MetadataJson? || doc.StatisticsJson? then (true, FromJson(st1, doc)) else (false, st1)
      else (false, st1)
  }

  /** Saving and then loading restores the three lists and the model exactly,
      whatever the loading object held before. */
  lemma SaveLoadRoundTrip(st: KBState, files: Files, p: string, timestamp: string, other: KBState)
    requires st.index.Some?
    ensures Saved(st, files, p, timestamp).Success?
    ensures Loaded(other, Saved(st, files, p, timestamp).value, p) == (true, st)
  {
    var w := Saved(st, files, p, timestamp).value;
    SavedLookups(st, files, p, timestamp);
    var st1 := other.(index := Some(st.index.value));
    assert Loaded(other, w, p)
        == (true, st1.(chunks := GetOr(Some(st.chunks), []), metadatas := GetOr(Some(st.metadatas), []),
                       model := GetOr(Some(st.model), other.model)));
  }

  /** What each of the four written paths holds after a save. */
  lemma SavedLookups(st: KBState, files: Files, p: string, timestamp: string)
    requires st.index.Some?
    ensures var w := Saved(st, files, p, timestamp).value;
            p in w && w[p] == IndexFile(st.index.value)
            && PicklePath(p) in w && w[PicklePath(p)] == Pickle(Some(st.chunks), Some(st.metadatas), Some(st.model))
            && JsonPath(p) in w
            && w[JsonPath(p)] == MetadataJson(timestamp, Some(st.model), |st.chunks|, Some(Entries(st.chunks)))
  {
    PathsDistinct(p);
    FourWrites(files, p, IndexFile(st.index.value),
               PicklePath(p), Pickle(Some(st.chunks), Some(st.metadatas), Some(st.model)),
               JsonPath(p), MetadataJson(timestamp, Some(st.model), |st.chunks|, Some(Entries(st.chunks))),
               StatsPath(p), StatisticsJson(timestamp, |st.chunks|, SumTokens(st.chunks), TalliesOf(st.chunks)));
  }

  /** Four writes to distinct keys: the first three keep their values. */
  lemma FourWrites<K, V>(m: map<K, V>, k1: K, v1: V, k2: K, v2: V, k3: K, v3: V, k4: K, v4: V)
    requires k1 != k2 && k1 != k3 && k1 != k4 && k2 != k3 && k2 != k4 && k3 != k4
    ensures var w := m[k1 := v1][k2 := v2][k3 := v3][k4 := v4];
            k1 in w && w[k1] == v1 && k2 in w && w[k2] == v2 && k3 in w && w[k3] == v3
  {
  }

  /** `save_to_file` raises on an unbuilt index; `load_from_file` refuses a
      missing path and leaves the state as it was. */
  lemma SaveLoadErrors(st: KBState, files: Files, p: string, timestamp: string)
    ensures st.index.None? ==> Saved(st, files, p, timestamp) == Failure(NotBuilt)
    ensures p !in files ==> Loaded(st, files, p) == (false, st)
  {
  }

  /** With the index present but no sidecar, loading fails yet the index has
      already been replaced. */
  lemma LoadWithoutSidecars(st: KBState, files: Files, p: string)
    requires p in files && files[p].IndexFile?
    requires PicklePath(p) !in files && JsonPath(p) !in files
    ensures Loaded(st, files, p) == (false, st.(index := Some(files[p].vectors)))
  {
  }

  function Previews(chunks: seq<Chunk>): (r: seq<Chunk>)
    ensures |r| == |chunks|
    ensures forall i :: 0 <= i < |chunks| ==> r[i] == chunks[i].(content := Preview(chunks[i].content))
  {
    seq(|chunks|, i requires 0 <= i < |chunks| => chunks[i].(content := Preview(chunks[i].content)))
  }

  /** Without the pickle, loading falls back to the JSON file: every chunk
      keeps its metadata and tokens, but its content is only the preview, and
      `metadatas` is rebuilt from the chunks. */
  lemma JsonFallback(st: KBState, files: Files, p: string, timestamp: string, other: KBState)
    requires st.index.Some?
    ensures var written := Saved(st, files, p, timestamp).value - {PicklePath(p)};
            Loaded(other, written, p)
            == (true, KBState(st.index, Previews(st.chunks), Metadatas(Previews(st.chunks)), st.model))
  {
    PathsDistinct(p);
    SavedLookups(st, files, p, timestamp);
    var w := Saved(st, files, p, timestamp).value;
    var written := w - {PicklePath(p)};
    var doc := MetadataJson(timestamp, Some(st.model), |st.chunks|, Some(Entries(st.chunks)));
    assert written[p] == IndexFile(st.index.value);
    assert PicklePath(p) !in written;
    assert JsonPath(p) in written && written[JsonPath(p)] == doc;
    var st1 := other.(index := Some(st.index.value));
    assert Loaded(other, written, p) == (true, FromJson(st1, doc));
    assert FromEntries(Entries(st.chunks)) == Previews(st.chunks);
  }

  /** When no chunk is longer than 200 characters and the lists are aligned,
      the JSON fallback loses nothing. */
  lemma JsonFallbackExact(st: KBState, files: Files, p: string, timestamp: string, other: KBState)
    requires st.index.Some? && Aligned(st)
    requires forall i :: 0 <= i < |st.chunks| ==> |st.chunks[i].content| <= 200
    ensures Loaded(other, Saved(st, files, p, timestamp).value - {PicklePath(p)}, p) == (true, st)
  {
    JsonFallback(st, files, p, timestamp, other);
    assert Previews(st.chunks) == st.chunks;
    assert Metadatas(st.chunks) == st.metadatas;
  }

  // ---------------------------------------------------------------- search

  /** One result of `search`. */
  datatype Hit = Hit(content: string, metadata: Meta, distance: real)

  const IndexError := "list index out of range"

  function Min(a: int, b: int): int { if a <= b then a else b }

  /** One turn of the result loop: labels outside `0 <= idx < len(chunks)`
      are skipped, and a missing `metadatas[idx]` raises. */
  function HitStep(chunks: seq<Chunk>, metas: seq<Meta>, acc: Result<seq<Hit>>, n: Neighbour): Result<seq<Hit>> {
    if acc.Failure? || !(0 <= n.idx < |chunks|) then acc
    else if n.idx >= |metas| then Failure(IndexError)
    else Success(acc.value + [Hit(chunks[n.idx].content, metas[n.idx], n.distance)])
  }

  function Hits(chunks: seq<Chunk>, metas: seq<Meta>, ns: seq<Neighbour>): Result<seq<Hit>> {
    if ns == [] then Success([]) else HitStep(chunks, metas, Hits(chunks, metas, ns[..|ns| - 1]), Last(ns))
  }

  /** `search(query, k)`. */
  function SearchResult(st: KBState, query: string, k: nat, embed: Embedder, knn: Knn): Result<seq<Hit>> {
    if st.index.None? || |st.chunks| == 0 then Success([])
    else Hits(st.chunks, st.metadatas, knn(st.index.value, embed(query), Min(k, |st.chunks|)))
  }

  /** The independent reading of the loop: the hits are the neighbours with a
      valid label, in the order FAISS returned them. */
  function Selected(chunks: seq<Chunk>, metas: seq<Meta>, ns: seq<Neighbour>): seq<Hit>
    requires |metas| >= |chunks|
  {
    if ns == [] then []
    else (if 0 <= ns[0].idx < |chunks|
          then [Hit(chunks[ns[0].idx].content, metas[ns[0].idx], ns[0].distance)] else [])
         + Selected(chunks, metas, ns[1..])
  }

  lemma {:induction false} SelectedSnoc(chunks: seq<Chunk>, metas: seq<Meta>, ns: seq<Neighbour>, n: Neighbour)
    requires |metas| >= |chunks|
    ensures Selected(chunks, metas, ns + [n])
         == Selected(chunks, metas, ns)
            + (if 0 <= n.idx < |chunks| then [Hit(chunks[n.idx].content, metas[n.idx], n.distance)] else [])
  {
    if ns != [] {
      assert (ns + [n])[1..] == ns[1..] + [n];
      SelectedSnoc(chunks, metas, ns[1..], n);
    } else {
      assert [n][1..] == [];
    }
  }

  /** With the metadata list at least as long as the chunks, the result loop
      never raises and returns exactly the selected hits. */
  lemma {:induction false} HitsSelected(chunks: seq<Chunk>, metas: seq<Meta>, ns: seq<Neighbour>)
    requires |metas| >= |chunks|
    ensures Hits(chunks, metas, ns) == Success(Selected(chunks, metas, ns))
  {
    if ns != [] {
      var init := ns[..|ns| - 1];
      HitsSelected(chunks, metas, init);
      SelectedSnoc(chunks, metas, init, Last(ns));
      assert init + [Last(ns)] == ns;
      var sel := Selected(chunks, metas, init);
      assert sel + [] == sel;
      assert Hits(chunks, metas, ns) == HitStep(chunks, metas, Success(sel), Last(ns));
    }
  }

  lemma {:induction false} SelectedBound(chunks: seq<Chunk>, metas: seq<Meta>, ns: seq<Neighbour>)
    requires |metas| >= |chunks|
    ensures |Selected(chunks, metas, ns)| <= |ns|
    ensures forall h :: h in Selected(chunks, metas, ns) ==>
      exists l :: 0 <= l < |chunks| && h.content == chunks[l].content && h.metadata == metas[l]
  {
    if ns != [] {
      SelectedBound(chunks, metas, ns[1..]);
    }
  }

  /** An unbuilt index or no chunks gives no results; otherwise there are at
      most `min(k, len(chunks))` results when FAISS returns at most that many
      rows, and each pairs the content of some chunk with its metadata. */
  lemma SearchBound(st: KBState, query: string, k: nat, embed: Embedder, knn: Knn)
    requires Aligned(st)
    requires st.index.Some? && |st.chunks| > 0 ==>
      |knn(st.index.value, embed(query), Min(k, |st.chunks|))| <= Min(k, |st.chunks|)
    ensures st.index.None? || st.chunks == [] ==> SearchResult(st, query, k, embed, knn) == Success([])
    ensures SearchResult(st, query, k, embed, knn).Success?
    ensures |SearchResult(st, query, k, embed, knn).value| <= Min(k, |st.chunks|)
    ensures forall h :: h in SearchResult(st, query, k, embed, knn).value ==>
      exists l :: 0 <= l < |st.chunks| && h.content == st.chunks[l].content && h.metadata == st.chunks[l].metadata
  {
    if st.index.Some? && |st.chunks| > 0 {
      var ns := knn(st.index.value, embed(query), Min(k, |st.chunks|));
      HitsSelected(st.chunks, st.metadatas, ns);
      SelectedBound(st.chunks, st.metadatas, ns);
    }
  }

  // ---- the result loop as written

  /** Python indexing `s[n]` for `-len(s) <= n < len(s)`. */
  function PyAt<T>(s: seq<T>, n: int): T
    requires -|s| <= n < |s|
  {
    if n >= 0 then s[n] else s[|s| + n]
  }

  /** The loop exactly as written: only `idx < len(self.chunks)` is checked, so
      a negative label indexes from the end. */
  function HitStepAsWritten(chunks: seq<Chunk>, metas: seq<Meta>, acc: Result<seq<Hit>>, n: Neighbour): Result<seq<Hit>> {
    if acc.Failure? || n.idx >= |chunks| then acc
    else if n.idx < -|chunks| || !(-|metas| <= n.idx < |metas|) then Failure(IndexError)
    else Success(acc.value + [Hit(PyAt(chunks, n.idx).content, PyAt(metas, n.idx), n.distance)])
  }

  function HitsAsWritten(chunks: seq<Chunk>, metas: seq<Meta>, ns: seq<Neighbour>): Result<seq<Hit>> {
    if ns == [] then Success([]) else HitStepAsWritten(chunks, metas, HitsAsWritten(chunks, metas, ns[..|ns| - 1]), Last(ns))
  }

  /** An index holding one vector beside two chunks: FAISS answers a 2-nearest
      query with labels 0 and -1, the guard lets -1 through, and the last chunk
      is returned as a match; the corrected loop returns the one real match. */
  lemma MissingNeighbourAsWritten(c0: Chunk, c1: Chunk, d0: real, d1: real)
    ensures var chunks := [c0, c1];
            var metas := [c0.metadata, c1.metadata];
            var ns := [Neighbour(0, d0), Neighbour(-1, d1)];
            HitsAsWritten(chunks, metas, ns)
              == Success([Hit(c0.content, c0.metadata, d0), Hit(c1.content, c1.metadata, d1)])
            && Hits(chunks, metas, ns) == Success([Hit(c0.content, c0.metadata, d0)])
  {
    var chunks := [c0, c1];
    var metas := [c0.metadata, c1.metadata];
    var one := [Neighbour(0, d0)];
    var ns := one + [Neighbour(-1, d1)];
    assert ns == [Neighbour(0, d0), Neighbour(-1, d1)];
    assert one == [] + [Neighbour(0, d0)];
    assert HitsAsWritten(chunks, metas, one) == HitStepAsWritten(chunks, metas, Success([]), Neighbour(0, d0));
    assert PyAt(chunks, 0) == c0 && PyAt(metas, 0) == c0.metadata;
    assert [] + [Hit(c0.content, c0.metadata, d0)] == [Hit(c0.content, c0.metadata, d0)];
    assert HitsAsWritten(chunks, metas, one) == Success([Hit(c0.content, c0.metadata, d0)]);
    assert Hits(chunks, metas, one) == Success([Hit(c0.content, c0.metadata, d0)]);
    assert ns[..|ns| - 1] == one && Last(ns) == Neighbour(-1, d1);
    assert PyAt(chunks, -1) == c1 && PyAt(metas, -1) == c1.metadata;
    var h0 := Hit(c0.content, c0.metadata, d0);
    assert HitsAsWritten(chunks, metas, ns) == HitStepAsWritten(chunks, metas, Success([h0]), Neighbour(-1, d1));
    assert [h0] + [Hit(c1.content, c1.metadata, d1)] == [h0, Hit(c1.content, c1.metadata, d1)];
    assert Hits(chunks, metas, ns) == HitStep(chunks, metas, Success([h0]), Neighbour(-1, d1));
  }

  // ---------------------------------------------------------------- the object

  class KnowledgeBase {
    var index: Option<seq<Vector>>
    var chunks: seq<Chunk>
    var metadatas: seq<Meta>
    var embeddingModel: string

    function State(): KBState
      reads this
    {
      KBState(index, chunks, metadatas, embeddingModel)
    }

    constructor (model: string)
      ensures State() == KBState(None, [], [], model)
    {
      index := None;
      chunks := [];
      metadatas := [];
      embeddingModel := model;
    }

    method BuildFromDocuments(documents: seq<Chunk>, embed: Embedder) returns (r: Result<bool>)
      modifies this
      ensures r.Failure? ==> r == Failure(NoDocuments) && State() == old(State())
      ensures Built(old(State()), documents, embed) == (if r.Success? then Success(State()) else Failure(r.error))
    {
      if documents == [] {
        return Failure(NoDocuments);
      }
      chunks := documents;
      metadatas := Metadatas(documents);
      var embeddings: seq<Vector> := [];
      var i := 0;
      while i < |documents|
        invariant 0 <= i <= |documents|
        invariant embeddings == Embeddings(documents[..i], embed)
      {
        embeddings := embeddings + [embed(documents[i].content)];
        i := i + 1;
      }
      assert documents[..i] == documents;
      index := Some(embeddings);
      r := Success(true);
    }

    method SaveToFile(p: string, files: Files, timestamp: string) returns (r: Result<Files>)
      ensures r == Saved(State(), files, p, timestamp)
    {
      if index.None? {
        return Failure(NotBuilt);
      }
      var out := files[p := IndexFile(index.value)];
      out := out[PicklePath(p) := Pickle(Some(chunks), Some(metadatas), Some(embeddingModel))];
      var entries: seq<Entry> := [];
      var i := 0;
      while i < |chunks|
        invariant 0 <= i <= |chunks|
        invariant entries == Entries(chunks[..i])
      {
        var c := chunks[i];
        var preview := if |c.content| > 200 then c.content[..200] + "..." else c.content;
        entries := entries + [Entry(i, Some(preview), Some(c.tokens), Some(c.metadata))];
        i := i + 1;
      }
      assert chunks[..i] == chunks;
      out := out[JsonPath(p) := MetadataJson(timestamp, Some(embeddingModel), |chunks|, Some(entries))];
      var tallies := CountChunks(chunks);
      var tokens := SumTokensLoop(chunks);
      out := out[StatsPath(p) := StatisticsJson(timestamp, |chunks|, tokens, tallies)];
      r := Success(out);
    }

    method LoadFromFile(p: string, files: Files) returns (ok: bool)
      modifies this
      ensures (ok, State()) == Loaded(old(State()), files, p)
    {
      if p !in files || !files[p].IndexFile? {
        return false;
      }
      index := Some(files[p].vectors);
      if PicklePath(p) in files {
        var stored := files[PicklePath(p)];
        if !stored.Pickle? {
          return false;
        }
        chunks := GetOr(stored.pChunks, []);
        metadatas := GetOr(stored.pMetadatas, []);
        embeddingModel := GetOr(stored.pModel, embeddingModel);
        return true;
      }
      if JsonPath(p) !in files {
        return false;
      }
      var doc := files[JsonPath(p)];
      if !(doc.MetadataJson? || doc.StatisticsJson?) {
        return false;
      }
      var loaded: seq<Chunk> := [];
      if doc.MetadataJson? {
        var entries := GetOr(doc.entries, []);
        var i := 0;
        while i < |entries|
          invariant 0 <= i <= |entries|
          invariant loaded == FromEntries(entries[..i])
        {
          var e := entries[i];
          loaded := loaded + [Chunk(GetOr(e.preview, ""), GetOr(e.metadata, map[]), GetOr(e.tokens, 0))];
          i := i + 1;
        }
        assert entries[..i] == entries;
        embeddingModel := GetOr(doc.jModel, embeddingModel);
      }
      chunks := loaded;
      metadatas := Metadatas(loaded);
      ok := true;
    }

    method Search(query: string, k: nat, embed: Embedder, knn: Knn) returns (r: Result<seq<Hit>>)
      ensures r == SearchResult(State(), query, k, embed, knn)
    {
      if index.None? || |chunks| == 0 {
        return Success([]);
      }
      var ns := knn(index.value, embed(query), Min(k, |chunks|));
      var results: seq<Hit> := [];
      var i := 0;
      while i < |ns|
        invariant 0 <= i <= |ns|
        invariant Hits(chunks, metadatas, ns[..i]) == Success(results)
      {
        assert ns[..i + 1][..i] == ns[..i];
        assert Last(ns[..i + 1]) == ns[i];
        var idx := ns[i].idx;
        if 0 <= idx < |chunks| {
          if idx >= |metadatas| {
            assert Hits(chunks, metadatas, ns[..i + 1]) == Failure(IndexError);
            HitsFailed(chunks, metadatas, ns, i + 1);
            return Failure(IndexError);
          }
          results := results + [Hit(chunks[idx].content, metadatas[idx], ns[i].distance)];
        }
        i := i + 1;
      }
      assert ns[..i] == ns;
      r := Success(results);
    }

    method GetMetadataInfo() returns (info: Info)
      ensures info == InfoOf(chunks)
    {
      info := MetadataInfo(chunks);
    }
  }

  /** Once the loop has raised, later rows do not matter. */
  lemma {:induction false} HitsFailed(chunks: seq<Chunk>, metas: seq<Meta>, ns: seq<Neighbour>, i: nat)
    requires i <= |ns| && Hits(chunks, metas, ns[..i]).Failure?
    ensures Hits(chunks, metas, ns) == Hits(chunks, metas, ns[..i])
    decreases |ns| - i
  {
    if i < |ns| {
      assert ns[..i + 1][..i] == ns[..i];
      assert Last(ns[..i + 1]) == ns[i];
      HitsFailed(chunks, metas, ns, i + 1);
    } else {
      assert ns[..i] == ns;
    }
  }

  method SumTokensLoop(chunks: seq<Chunk>) returns (total: int)
    ensures total == SumTokens(chunks)
  {
    total := 0;
    var i := 0;
    while i < |chunks|
      invariant 0 <= i <= |chunks|
      invariant total == SumTokens(chunks[..i])
    {
      SumTokensSnoc(chunks[..i], chunks[i]);
      assert chunks[..i + 1] == chunks[..i] + [chunks[i]];
      total := total + chunks[i].tokens;
      i := i + 1;
    }
    assert chunks[..i] == chunks;
  }
}
