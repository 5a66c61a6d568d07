/** The counting part of `KnowledgeBase.save_metadata_statistics` and
    `KnowledgeBase.get_metadata_info`: per-key tallies of chunk metadata, kept
    in first-seen order as a Python dict does, then ordered by count. */
module Statistics {
  import opened Text
  import opened Chunks
  import opened Sorting

  /** `metadata.get(key, 'unknown')`. */
  function MetaValue(m: map<string, string>, key: string): (v: string)
    ensures key in m ==> v == m[key]
    ensures key !in m ==> v == "unknown"
  {
    if key in m then m[key] else "unknown"
  }

  /** The values of one metadata key over the chunks, in chunk order. */
  function Column(chunks: seq<Chunk>, key: string): (r: seq<string>)
    ensures |r| == |chunks| && forall i :: 0 <= i < |r| ==> r[i] == MetaValue(chunks[i].metadata, key)
  {
    seq(|chunks|, i requires 0 <= i < |chunks| => MetaValue(chunks[i].metadata, key))
  }

  /** A dict from key to count, as its items in insertion order. */
  type Counter = seq<(string, nat)>

  function Keys(c: Counter): (r: seq<string>)
    ensures |r| == |c| && forall i :: 0 <= i < |c| ==> r[i] == c[i].0
  {
    if c == [] then [] else [c[0].0] + Keys(c[1..])
  }

  /** `counts[key] = counts.get(key, 0) + 1`: an existing key keeps its place. */
  function Bump(c: Counter, key: string): (r: Counter)
    ensures |r| == |c| || |r| == |c| + 1
  {
    if c == [] then [(key, 1)]
    else if c[0].0 == key then [(key, c[0].1 + 1)] + c[1..]
    else [c[0]] + Bump(c[1..], key)
  }

  /** The dict after counting every key of `keys` in order. */
  function Tally(keys: seq<string>): Counter {
    if keys == [] then [] else Bump(Tally(keys[..|keys| - 1]), Last(keys))
  }

  predicate Distinct(ks: seq<string>) {
    forall i, j :: 0 <= i < j < |ks| ==> ks[i] != ks[j]
  }

  function Total(c: Counter): int {
    if c == [] then 0 else c[0].1 + Total(c[1..])
  }

  function CountOf(c: Counter, key: string): nat {
    if c == [] then 0 else (if c[0].0 == key then c[0].1 else 0) + CountOf(c[1..], key)
  }

  lemma {:induction false} BumpKeys(c: Counter, key: string)
    ensures forall k :: k in Keys(Bump(c, key)) <==> k in Keys(c) || k == key
  {
    if c == [] {
      assert Keys(Bump(c, key)) == [key];
    } else {
      assert Keys(c) == [c[0].0] + Keys(c[1..]);
      if c[0].0 == key {
        assert Keys(Bump(c, key)) == Keys(c);
      } else {
        BumpKeys(c[1..], key);
        assert Keys(Bump(c, key)) == [c[0].0] + Keys(Bump(c[1..], key));
      }
    }
  }

  lemma {:induction false} BumpDistinct(c: Counter, key: string)
    requires Distinct(Keys(c))
    ensures Distinct(Keys(Bump(c, key)))
  {
    if c != [] {
      assert Keys(c) == [c[0].0] + Keys(c[1..]);
      if c[0].0 == key {
        assert Keys(Bump(c, key)) == Keys(c);
      } else {
        BumpDistinct(c[1..], key);
        BumpKeys(c[1..], key);
        var r := Bump(c, key);
        assert Keys(r) == [c[0].0] + Keys(Bump(c[1..], key));
        forall i, j | 0 <= i < j < |Keys(r)| ensures Keys(r)[i] != Keys(r)[j] {
          if i == 0 {
            var x := Keys(r)[j];
            assert x == Keys(Bump(c[1..], key))[j - 1];
            assert x in Keys(Bump(c[1..], key));
            if x != key {
              assert x in Keys(c[1..]);
              var m :| 0 <= m < |Keys(c[1..])| && Keys(c[1..])[m] == x;
              assert Keys(c)[m + 1] == x;
            }
          }
        }
      }
    }
  }

  lemma {:induction false} BumpCount(c: Counter, key: string)
    ensures forall k :: CountOf(Bump(c, key), k) == CountOf(c, k) + (if k == key then 1 else 0)
    ensures Total(Bump(c, key)) == Total(c) + 1
  {
    if c != [] {
      if c[0].0 == key {
        assert Bump(c, key)[1..] == c[1..];
      } else {
        BumpCount(c[1..], key);
        assert Bump(c, key)[1..] == Bump(c[1..], key);
      }
    }
  }

  /** After counting, the dict has one entry per distinct key, each with the
      number of times the key occurs, and the counts add up to the length. */
  lemma {:induction false} TallyCounts(keys: seq<string>)
    ensures Distinct(Keys(Tally(keys)))
    ensures forall k :: k in Keys(Tally(keys)) <==> k in keys
    ensures forall k :: CountOf(Tally(keys), k) == multiset(keys)[k]
    ensures Total(Tally(keys)) == |keys|
  {
    if keys != [] {
      var init := keys[..|keys| - 1];
      TallyCounts(init);
      BumpKeys(Tally(init), Last(keys));
      BumpDistinct(Tally(init), Last(keys));
      BumpCount(Tally(init), Last(keys));
      assert keys == init + [Last(keys)];
      assert multiset(keys) == multiset(init) + multiset{Last(keys)};
    }
  }

  lemma {:induction false} CountOfEntry(c: Counter, i: nat)
    requires Distinct(Keys(c)) && i < |c|
    ensures CountOf(c, c[i].0) == c[i].1
  {
    assert Keys(c[1..]) == Keys(c)[1..];
    if i > 0 {
      CountOfEntry(c[1..], i - 1);
      assert Keys(c)[0] != Keys(c)[i];
    } else {
      CountOfAbsent(c[1..], c[0].0);
    }
  }

  lemma {:induction false} CountOfAbsent(c: Counter, key: string)
    requires key !in Keys(c)
    ensures CountOf(c, key) == 0
  {
    if c != [] {
      assert Keys(c[1..]) == Keys(c)[1..];
      assert Keys(c)[0] == c[0].0;
      CountOfAbsent(c[1..], key);
    }
  }

  /** Each entry of the tally counts the occurrences of its key. */
  lemma TallyEntry(keys: seq<string>, i: nat)
    requires i < |Tally(keys)|
    ensures Tally(keys)[i].1 == multiset(keys)[Tally(keys)[i].0]
    ensures Tally(keys)[i].1 > 0
  {
    TallyCounts(keys);
    CountOfEntry(Tally(keys), i);
    var k := Tally(keys)[i].0;
    assert k in Keys(Tally(keys));
  }

  /** `dict(sorted(counts.items(), key=lambda x: x[1], reverse=True))`. */
  function ByCountDesc(c: Counter): Counter {
    SortBy(c, (a: (string, nat), b: (string, nat)) => a.1 >= b.1)
  }

  /** The statistics order: the same entries, with counts descending, and
      equal counts in first-seen order. */
  lemma ByCountDescFacts(c: Counter, n: nat)
    ensures multiset(ByCountDesc(c)) == multiset(c)
    ensures forall i, j :: 0 <= i < j < |ByCountDesc(c)| ==> ByCountDesc(c)[i].1 >= ByCountDesc(c)[j].1
    ensures EquivalentTo(ByCountDesc(c), (a: (string, nat), b: (string, nat)) => a.1 >= b.1, ("", n))
         == EquivalentTo(c, (a: (string, nat), b: (string, nat)) => a.1 >= b.1, ("", n))
  {
    var le := (a: (string, nat), b: (string, nat)) => a.1 >= b.1;
    assert TotalPreorder(le);
    SortBySorted(c, le);
    SortByStable(c, le, ("", n));
  }

  /** The three statistics dicts of `save_metadata_statistics`. */
  datatype Tallies = Tallies(sources: Counter, titles: Counter, headers: Counter)

  function TalliesOf(chunks: seq<Chunk>): Tallies {
    Tallies(ByCountDesc(Tally(Column(chunks, "source"))),
            ByCountDesc(Tally(Column(chunks, "document_title"))),
            ByCountDesc(Tally(Column(chunks, "header"))))
  }

  /** The counting loop over the chunks. */
  method CountChunks(chunks: seq<Chunk>) returns (t: Tallies)
    ensures t == TalliesOf(chunks)
  {
    var sources: Counter := [];
    var titles: Counter := [];
    var headers: Counter := [];
    var i := 0;
    while i < |chunks|
      invariant 0 <= i <= |chunks|
      invariant sources == Tally(Column(chunks[..i], "source"))
      invariant titles == Tally(Column(chunks[..i], "document_title"))
      invariant headers == Tally(Column(chunks[..i], "header"))
    {
      var m := chunks[i].metadata;
      TallyStep(chunks, i, "source");
      TallyStep(chunks, i, "document_title");
      TallyStep(chunks, i, "header");
      sources := Bump(sources, MetaValue(m, "source"));
      titles := Bump(titles, MetaValue(m, "document_title"));
      headers := Bump(headers, MetaValue(m, "header"));
      i := i + 1;
    }
    assert chunks[..i] == chunks;
    t := Tallies(ByCountDesc(sources), ByCountDesc(titles), ByCountDesc(headers));
  }

  lemma TallyStep(chunks: seq<Chunk>, i: nat, key: string)
    requires i < |chunks|
    ensures Tally(Column(chunks[..i + 1], key)) == Bump(Tally(Column(chunks[..i], key)), MetaValue(chunks[i].metadata, key))
  {
    PrefixSnoc(chunks, i);
    ColumnSnoc(chunks[..i], chunks[i], key);
  }

  lemma ColumnSnoc(chunks: seq<Chunk>, c: Chunk, key: string)
    ensures Column(chunks + [c], key) == Column(chunks, key) + [MetaValue(c.metadata, key)]
    ensures Tally(Column(chunks + [c], key)) == Bump(Tally(Column(chunks, key)), MetaValue(c.metadata, key))
  {
    var col := Column(chunks + [c], key);
    assert col == Column(chunks, key) + [MetaValue(c.metadata, key)];
    assert col[..|col| - 1] == Column(chunks, key);
  }

  // ---------------------------------------------------------------- get_metadata_info

  /** `sum(chunk.get('tokens', 0) for chunk in chunks)`. */
  function SumTokens(chunks: seq<Chunk>): int {
    if chunks == [] then 0 else SumTokens(chunks[..|chunks| - 1]) + Last(chunks).tokens
  }

  /** The dict `get_metadata_info` returns, without the two ten-element lists. */
  datatype Info =
    | EmptyInfo
    | LoadedInfo(totalChunks: nat, uniqueSources: nat, uniqueTitles: nat, uniqueHeaders: nat, totalTokens: int)

  function Distincts(chunks: seq<Chunk>, key: string): set<string> {
    set v | v in Column(chunks, key)
  }

  function InfoOf(chunks: seq<Chunk>): Info {
    if chunks == [] then EmptyInfo
    else LoadedInfo(|chunks|, |Distincts(chunks, "source")|, |Distincts(chunks, "document_title")|,
                    |Distincts(chunks, "header")|, SumTokens(chunks))
  }

  method MetadataInfo(chunks: seq<Chunk>) returns (info: Info)
    ensures info == InfoOf(chunks)
  {
    if chunks == [] {
      return EmptyInfo;
    }
    var sources: set<string> := {};
    var titles: set<string> := {};
    var headers: set<string> := {};
    var tokens := 0;
    var i := 0;
    while i < |chunks|
      invariant 0 <= i <= |chunks|
      invariant sources == Distincts(chunks[..i], "source")
      invariant titles == Distincts(chunks[..i], "document_title")
      invariant headers == Distincts(chunks[..i], "header")
      invariant tokens == SumTokens(chunks[..i])
    {
      var m := chunks[i].metadata;
      assert chunks[..i + 1] == chunks[..i] + [chunks[i]];
      DistinctsSnoc(chunks[..i], chunks[i], "source");
      DistinctsSnoc(chunks[..i], chunks[i], "document_title");
      DistinctsSnoc(chunks[..i], chunks[i], "header");
      SumTokensSnoc(chunks[..i], chunks[i]);
      sources := sources + {MetaValue(m, "source")};
      titles := titles + {MetaValue(m, "document_title")};
      headers := headers + {MetaValue(m, "header")};
      tokens := tokens + chunks[i].tokens;
      i := i + 1;
    }
    assert chunks[..i] == chunks;
    info := LoadedInfo(|chunks|, |sources|, |titles|, |headers|, tokens);
  }

  lemma SumTokensSnoc(chunks: seq<Chunk>, c: Chunk)
    ensures SumTokens(chunks + [c]) == SumTokens(chunks) + c.tokens
  {
    assert (chunks + [c])[..|chunks|] == chunks;
  }

  lemma DistinctsSnoc(chunks: seq<Chunk>, c: Chunk, key: string)
    ensures Distincts(chunks + [c], key) == Distincts(chunks, key) + {MetaValue(c.metadata, key)}
  {
    ColumnSnoc(chunks, c, key);
  }

  lemma {:induction false} DistinctCard(ks: seq<string>)
    requires Distinct(ks)
    ensures |set k | k in ks| == |ks|
  {
    if ks != [] {
      var init := ks[..|ks| - 1];
      assert Distinct(init);
      DistinctCard(init);
      assert ks == init + [Last(ks)];
      assert (set k | k in ks) == (set k | k in init) + {Last(ks)};
      assert Last(ks) !in set k | k in init;
    }
  }

  /** The unique counts of `get_metadata_info` are the numbers of entries of
      the corresponding statistics dicts, and never exceed the chunk count. */
  lemma InfoMatchesTallies(chunks: seq<Chunk>)
    requires chunks != []
    ensures InfoOf(chunks).uniqueSources == |TalliesOf(chunks).sources| <= |chunks|
    ensures InfoOf(chunks).uniqueTitles == |TalliesOf(chunks).titles| <= |chunks|
    ensures InfoOf(chunks).uniqueHeaders == |TalliesOf(chunks).headers| <= |chunks|
  {
    TallyDistincts(chunks, "source");
    TallyDistincts(chunks, "document_title");
    TallyDistincts(chunks, "header");
  }

  lemma TallyDistincts(chunks: seq<Chunk>, key: string)
    ensures |Distincts(chunks, key)| == |ByCountDesc(Tally(Column(chunks, key)))| <= |chunks|
  {
    var col := Column(chunks, key);
    TallyCounts(col);
    DistinctCard(Keys(Tally(col)));
    assert (set k | k in Keys(Tally(col))) == Distincts(chunks, key);
    ByCountDescFacts(Tally(col), 0);
    TallyLength(col);
  }

  lemma {:induction false} TallyLength(keys: seq<string>)
    ensures |Tally(keys)| <= |keys|
  {
    if keys != [] { TallyLength(keys[..|keys| - 1]); }
  }
}
