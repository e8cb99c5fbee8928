/** The question-answering system over one loaded paper: retrieval
    post-processing, relevance filtering, context and source formatting,
    the confidence estimate, keypoint parsing, and the rules that decide
    when the model is asked at all. The vector store's searches and the
    model are oracles. */
module QaChain {
  import opened Common
  import opened Text
  import opened Dicts
  import opened Embeddings
  import opened LlmClient
  import opened Prompts

  const NoPaper := "请先上传论文"
  const NothingFound := "抱歉，我在论文中没有找到与您问题相关的内容。"
  const LowRelevance := "抱歉，检索到的内容与您的问题相关性较低，请尝试重新表述问题。"
  const AnswerFailed := "回答生成时出现错误: "
  const TermFailed := "术语解释时出现错误: "
  const SummaryFailed := "摘要生成时出现错误: "

  /** The answer `explain_term` gives when no relevant passage is left. */
  function TermNotFound(term: string): string
  {
    "在论文中没有找到关于'" + term + "'的相关内容。"
  }

  /** Phrases of the assistant's own test material; a passage containing
      one (after lower-casing) is never used. */
  const Denylist: seq<string> := ["智能论文阅读助手", "paperbot", "基于大语言模型和检索增强生成技术",
                                  "本文提出了一种", "随着学术论文数量的快速增长"]

  /** Search sizes of `_smart_retrieve` and `explain_term`, and the caps. */
  const SimilarityK := 6
  const MmrK := 4
  const MmrFetchK := 10
  const TermK := 3
  const RetrieveCap := 8
  const FilterCap := 6
  const MinRelevantLength := 20
  const DedupPrefix := 100

  /** A vector store built from a paper's chunks. */
  datatype VectorStore = VectorStore(documents: seq<Document>)

  /** `similarity_search(query, k)`: the ranked hits, or the exception raised. */
  type Search = (VectorStore, string, nat) -> Result<seq<Document>>

  /** `max_marginal_relevance_search(query, k, fetch_k)`. */
  type MmrSearch = (VectorStore, string, nat, nat) -> Result<seq<Document>>

  /** `create_vectorstore(documents)`, which may raise. */
  type StoreBuilder = seq<Document> -> Result<VectorStore>

  // ----- retrieval -----

  /** Two passages are duplicates when their first 100 characters agree. */
  function DedupKey(doc: Document): string
  {
    Take(doc.content, DedupPrefix)
  }

  /** The dedup loop from the point where the keys in `seen` are taken. */
  function DedupFrom(docs: seq<Document>, seen: set<string>): seq<Document>
    decreases |docs|
  {
    if docs == [] then []
    else if DedupKey(docs[0]) in seen then DedupFrom(docs[1..], seen)
    else [docs[0]] + DedupFrom(docs[1..], seen + {DedupKey(docs[0])})
  }

  function Dedup(docs: seq<Document>): seq<Document>
  {
    DedupFrom(docs, {})
  }

  /** The similarity hits followed by the MMR hits, or nothing when the
      similarity search fails; a failing MMR search contributes nothing. */
  function Pool(store: VectorStore, question: string, sim: Search, mmr: MmrSearch): Option<seq<Document>>
  {
    match sim(store, question, SimilarityK)
    case Err(_) => None
    case Ok(hits) =>
      match mmr(store, question, MmrK, MmrFetchK)
      case Ok(more) => Some(hits + more)
      case Err(_) => Some(hits)
  }

  /** What `_smart_retrieve` returns. */
  function Retrieved(store: VectorStore, question: string, sim: Search, mmr: MmrSearch): seq<Document>
  {
    match Pool(store, question, sim, mmr)
    case None => []
    case Some(pool) => Take(Dedup(pool), RetrieveCap)
  }

  /** `for doc in results: if key not in seen: ...`. */
  method DedupLoop(results: seq<Document>) returns (unique: seq<Document>)
    ensures unique == Dedup(results)
  {
    var seen: set<string> := {};
    unique := [];
    var i := 0;
    while i < |results|
      invariant 0 <= i <= |results|
      invariant unique + DedupFrom(results[i..], seen) == Dedup(results)
    {
      var doc := results[i];
      var key := DedupKey(doc);
      assert results[i..][1..] == results[i + 1..];
      if key !in seen {
        assert unique + ([doc] + DedupFrom(results[i + 1..], seen + {key}))
            == (unique + [doc]) + DedupFrom(results[i + 1..], seen + {key});
        seen := seen + {key};
        unique := unique + [doc];
      }
      i := i + 1;
    }
    assert results[i..] == [];
  }

  method SmartRetrieve(store: VectorStore, question: string, sim: Search, mmr: MmrSearch) returns (docs: seq<Document>)
    ensures docs == Retrieved(store, question, sim, mmr)
  {
    var results: seq<Document> := [];
    match sim(store, question, SimilarityK) {
      case Err(_) =>
        return [];
      case Ok(hits) =>
        results := results + hits;
        assert results == hits;
    }
    match mmr(store, question, MmrK, MmrFetchK) {
      case Ok(more) =>
        results := results + more;
      case Err(_) =>
    }
    assert Pool(store, question, sim, mmr) == Some(results);
    var unique := DedupLoop(results);
    docs := Take(unique, RetrieveCap);
  }

  /** No kept key was taken before, and no two kept passages share a key. */
  lemma {:induction false} DedupFromKeys(docs: seq<Document>, seen: set<string>)
    ensures forall i :: 0 <= i < |DedupFrom(docs, seen)| ==> DedupKey(DedupFrom(docs, seen)[i]) !in seen
    ensures forall i, j :: 0 <= i < j < |DedupFrom(docs, seen)| ==>
      DedupKey(DedupFrom(docs, seen)[i]) != DedupKey(DedupFrom(docs, seen)[j])
    decreases |docs|
  {
    if docs != [] {
      var k := DedupKey(docs[0]);
      if k in seen {
        DedupFromKeys(docs[1..], seen);
      } else {
        DedupFromKeys(docs[1..], seen + {k});
      }
    }
  }

  /** Dedup keeps passages in order. */
  lemma {:induction false} DedupFromSubseq(docs: seq<Document>, seen: set<string>)
    ensures IsSubseq(DedupFrom(docs, seen), docs)
    decreases |docs|
  {
    if docs != [] {
      var k := DedupKey(docs[0]);
      if k in seen {
        DedupFromSubseq(docs[1..], seen);
      } else {
        var rest := DedupFrom(docs[1..], seen + {k});
        DedupFromSubseq(docs[1..], seen + {k});
        assert ([docs[0]] + rest)[1..] == rest;
      }
    }
  }

  /** Each kept passage is the first one with its key. */
  lemma {:induction false} DedupFromFirst(docs: seq<Document>, seen: set<string>)
    ensures forall x :: x in DedupFrom(docs, seen) ==>
      exists j :: 0 <= j < |docs| && docs[j] == x && forall j' :: 0 <= j' < j ==> DedupKey(docs[j']) != DedupKey(x)
    decreases |docs|
  {
    if docs != [] {
      var k := DedupKey(docs[0]);
      var seen' := if k in seen then seen else seen + {k};
      var rest := DedupFrom(docs[1..], seen');
      DedupFromFirst(docs[1..], seen');
      DedupFromKeys(docs[1..], seen');
      forall x | x in DedupFrom(docs, seen)
        ensures exists j :: 0 <= j < |docs| && docs[j] == x && forall j' :: 0 <= j' < j ==> DedupKey(docs[j']) != DedupKey(x)
      {
        if k !in seen && x == docs[0] {
          assert docs[0] == x;
        } else {
          assert x in rest;
          var i :| 0 <= i < |rest| && rest[i] == x;
          assert DedupKey(x) !in seen';
          var j :| 0 <= j < |docs[1..]| && docs[1..][j] == x
            && forall j' :: 0 <= j' < j ==> DedupKey(docs[1..][j']) != DedupKey(x);
          assert docs[j + 1] == x;
          forall j' | 0 <= j' < j + 1 ensures DedupKey(docs[j']) != DedupKey(x) {
            if j' > 0 {
              assert docs[j'] == docs[1..][j' - 1];
            }
          }
        }
      }
    }
  }

  /** Every key not taken before is represented in the result. */
  lemma {:induction false} DedupFromCovers(docs: seq<Document>, seen: set<string>)
    ensures forall j :: 0 <= j < |docs| && DedupKey(docs[j]) !in seen ==>
      exists x :: x in DedupFrom(docs, seen) && DedupKey(x) == DedupKey(docs[j])
    decreases |docs|
  {
    if docs != [] {
      var k := DedupKey(docs[0]);
      var seen' := if k in seen then seen else seen + {k};
      DedupFromCovers(docs[1..], seen');
      forall j | 0 <= j < |docs| && DedupKey(docs[j]) !in seen
        ensures exists x :: x in DedupFrom(docs, seen) && DedupKey(x) == DedupKey(docs[j])
      {
        if k !in seen && DedupKey(docs[j]) == k {
          assert docs[0] in DedupFrom(docs, seen);
        } else {
          assert j > 0 && docs[j] == docs[1..][j - 1];
          var x :| x in DedupFrom(docs[1..], seen') && DedupKey(x) == DedupKey(docs[j]);
          assert x in DedupFrom(docs, seen);
        }
      }
    }
  }

  /** The retrieval result: at most 8 passages, drawn in order from the
      similarity hits followed by the MMR hits (the similarity hits alone
      when MMR fails), no two with the same key, each the first with its
      key; nothing at all when the similarity search fails. */
  lemma RetrievedSpec(store: VectorStore, question: string, sim: Search, mmr: MmrSearch)
    ensures sim(store, question, SimilarityK).Err? ==> Retrieved(store, question, sim, mmr) == []
    ensures sim(store, question, SimilarityK).Ok? && mmr(store, question, MmrK, MmrFetchK).Err? ==>
      Pool(store, question, sim, mmr) == Some(sim(store, question, SimilarityK).value)
    ensures sim(store, question, SimilarityK).Ok? && mmr(store, question, MmrK, MmrFetchK).Ok? ==>
      Pool(store, question, sim, mmr) == Some(sim(store, question, SimilarityK).value + mmr(store, question, MmrK, MmrFetchK).value)
    ensures |Retrieved(store, question, sim, mmr)| <= RetrieveCap
    ensures Pool(store, question, sim, mmr).Some? ==> IsSubseq(Retrieved(store, question, sim, mmr), Pool(store, question, sim, mmr).value)
    ensures forall i, j :: 0 <= i < j < |Retrieved(store, question, sim, mmr)| ==>
      DedupKey(Retrieved(store, question, sim, mmr)[i]) != DedupKey(Retrieved(store, question, sim, mmr)[j])
    ensures Pool(store, question, sim, mmr).Some? ==>
      forall x :: x in Retrieved(store, question, sim, mmr) ==>
        exists j :: 0 <= j < |Pool(store, question, sim, mmr).value| && Pool(store, question, sim, mmr).value[j] == x
          && forall j' :: 0 <= j' < j ==> DedupKey(Pool(store, question, sim, mmr).value[j']) != DedupKey(x)
  {
    var r := Retrieved(store, question, sim, mmr);
    match Pool(store, question, sim, mmr) {
      case None =>
      case Some(pool) =>
        var u := Dedup(pool);
        DedupFromKeys(pool, {});
        DedupFromSubseq(pool, {});
        DedupFromFirst(pool, {});
        SubseqPrefix(u, pool, |r|);
        assert r == u[..|r|];
        assert forall x :: x in r ==> x in u;
    }
  }

  /** Before the cap, every key of the pool is represented. */
  lemma DedupCovers(docs: seq<Document>, j: nat)
    requires j < |docs|
    ensures exists x :: x in Dedup(docs) && DedupKey(x) == DedupKey(docs[j])
  {
    var none: set<string> := {};
    DedupFromCovers(docs, none);
    assert DedupKey(docs[j]) !in none;
  }

  // ----- relevance filter -----

  /** A passage is kept when its lower-cased text has no denylist phrase
      and its stripped text is longer than 20 characters. */
  predicate Relevant(doc: Document)
  {
    !ContainsAny(Lower(doc.content), Denylist) && |Strip(doc.content)| > MinRelevantLength
  }

  function RelevantDocs(docs: seq<Document>): seq<Document>
  {
    Filter(docs, Relevant)
  }

  /** What `_filter_relevant_docs` returns; the question plays no part. */
  function Filtered(docs: seq<Document>): seq<Document>
  {
    Take(RelevantDocs(docs), FilterCap)
  }

  method FilterRelevantDocs(question: string, docs: seq<Document>) returns (filtered: seq<Document>)
    ensures filtered == Filtered(docs)
  {
    if docs == [] {
      return [];
    }
    filtered := KeepRelevant(docs);
    filtered := Take(filtered, FilterCap);
  }

  /** The loop of `_filter_relevant_docs`: every passage that passes both tests, in order. */
  method KeepRelevant(docs: seq<Document>) returns (filtered: seq<Document>)
    ensures filtered == RelevantDocs(docs)
  {
    filtered := [];
    var i := 0;
    while i < |docs|
      invariant 0 <= i <= |docs|
      invariant filtered == RelevantDocs(docs[..i])
    {
      var doc := docs[i];
      FilterStep(docs, i, Relevant);
      var keep := IsRelevant(doc);
      if keep {
        filtered := filtered + [doc];
      }
      i := i + 1;
    }
    assert docs[..i] == docs;
  }

  /** One passage: rejected on a denylisted phrase, else kept when long enough. */
  method IsRelevant(doc: Document) returns (keep: bool)
    ensures keep == Relevant(doc)
  {
    if ContainsAny(Lower(doc.content), Denylist) {
      return false;
    }
    keep := |Strip(doc.content)| > MinRelevantLength;
  }

  /** The relevant passages, in order: exactly those of the input that pass. */
  lemma RelevantDocsSpec(docs: seq<Document>)
    ensures IsSubseq(RelevantDocs(docs), docs)
    ensures forall x :: x in RelevantDocs(docs) <==> x in docs && Relevant(x)
  {
    FilterSubseq(docs, Relevant);
    FilterMembers(docs, Relevant);
  }

  /** The filter keeps at most 6 passages, in input order, each relevant;
      with no input there is no output. */
  lemma FilteredSpec(docs: seq<Document>)
    ensures |Filtered(docs)| <= FilterCap
    ensures IsSubseq(Filtered(docs), docs)
    ensures forall x :: x in Filtered(docs) ==> x in docs && Relevant(x)
    ensures docs == [] ==> Filtered(docs) == []
    ensures |RelevantDocs(docs)| <= FilterCap ==> Filtered(docs) == RelevantDocs(docs)
  {
    var rel := RelevantDocs(docs);
    var f := Filtered(docs);
    assert f == rel[..|f|];
    assert IsSubseq(f, docs) by {
      FilterSubseq(docs, Relevant);
      SubseqPrefix(rel, docs, |f|);
    }
    FilterMembers(docs, Relevant);
    forall x | x in f
      ensures x in docs && Relevant(x)
    {
      assert x in rel;
    }
  }

  /** Each kept passage is longer than 20 characters once stripped and holds
      no denylisted phrase in its lowercased text. */
  lemma FilteredPassesTests(docs: seq<Document>)
    ensures forall x | x in Filtered(docs) :: |Strip(x.content)| > MinRelevantLength
    ensures forall x, p | x in Filtered(docs) && p in Denylist :: !Contains(Lower(x.content), p)
  {
    FilteredSpec(docs);
    forall x | x in Filtered(docs)
      ensures |Strip(x.content)| > MinRelevantLength
      ensures forall p | p in Denylist :: !Contains(Lower(x.content), p)
    {
      assert Relevant(x);
    }
  }

  // ----- context and sources -----

  /** `f"[章节:{section}] {content}"` for one passage. */
  function ContextPart(doc: Document): string
  {
    "[章节:" + doc.metadata.section + "] " + Strip(doc.content)
  }

  function ContextParts(docs: seq<Document>): (parts: seq<string>)
    ensures |parts| == |docs|
    ensures forall i :: 0 <= i < |docs| ==> parts[i] == ContextPart(docs[i])
  {
    seq(|docs|, i requires 0 <= i < |docs| => ContextPart(docs[i]))
  }

  /** The context handed to the model: the parts separated by blank lines. */
  function Context(docs: seq<Document>): string
  {
    Join(ContextParts(docs), "\n\n")
  }

  method BuildContext(documents: seq<Document>) returns (context: string)
    ensures context == Context(documents)
  {
    var parts: seq<string> := [];
    var i := 0;
    while i < |documents|
      invariant 0 <= i <= |documents|
      invariant parts == ContextParts(documents[..i])
    {
      var doc := documents[i];
      PrefixSnoc(documents, i);
      parts := parts + ["[章节:" + doc.metadata.section + "] " + Strip(doc.content)];
      i := i + 1;
    }
    assert documents[..i] == documents;
    context := Join(parts, "\n\n");
  }

  /** Every passage's stripped text, behind its section tag, is in the context. */
  lemma ContextHoldsEach(docs: seq<Document>, i: nat)
    requires i < |docs|
    ensures Contains(Context(docs), ContextPart(docs[i]))
    ensures Contains(Context(docs), Strip(docs[i].content))
  {
    var part := ContextPart(docs[i]);
    JoinContainsPart(ContextParts(docs), "\n\n", i);
    ContainsSelf(Strip(docs[i].content));
    ContainsRight("[章节:" + docs[i].metadata.section + "] ", Strip(docs[i].content), Strip(docs[i].content));
    ContainsWithin(Context(docs), part, Strip(docs[i].content));
  }

  /** Substring containment is transitive. */
  lemma {:induction false} ContainsWithin(s: string, mid: string, sub: string)
    requires Contains(s, mid) && Contains(mid, sub)
    ensures Contains(s, sub)
    decreases |s|
  {
    if !StartsWith(s, mid) {
      ContainsWithin(s[1..], mid, sub);
    } else {
      PrefixContains(s, mid, sub);
    }
  }

  /** What a prefix contains, the whole contains. */
  lemma {:induction false} PrefixContains(s: string, p: string, sub: string)
    requires StartsWith(s, p) && Contains(p, sub)
    ensures Contains(s, sub)
  {
    assert s == p + s[|p|..];
    ContainsLeft(p, s[|p|..], sub);
  }

  /** One entry of the sources list. */
  datatype Source = Source(section: string, content: string, chunkId: nat)

  /** The first 100 characters followed by "...", or the whole text when
      it is no longer than 100. */
  function Preview(s: string): (r: string)
    ensures |s| <= 100 ==> r == s
    ensures |s| > 100 ==> |r| == 103 && r[..100] == s[..100] && r[100..] == "..."
  {
    if |s| > 100 then s[..100] + "..." else s
  }

  /** `metadata.get('chunk_id', 0)`. */
  function ChunkIdOr0(m: Metadata): nat
  {
    match m.chunk
    case Some(c) => c.chunkId
    case None => 0
  }

  function SourceOf(doc: Document): Source
  {
    Source(doc.metadata.section, Preview(doc.content), ChunkIdOr0(doc.metadata))
  }

  method FormatSources(documents: seq<Document>) returns (sources: seq<Source>)
    ensures |sources| == |documents|
    ensures forall i :: 0 <= i < |documents| ==> sources[i] == SourceOf(documents[i])
  {
    sources := [];
    var i := 0;
    while i < |documents|
      invariant 0 <= i <= |documents|
      invariant |sources| == i
      invariant forall k :: 0 <= k < i ==> sources[k] == SourceOf(documents[k])
    {
      var doc := documents[i];
      var preview := if |doc.content| > 100 then doc.content[..100] + "..." else doc.content;
      sources := sources + [Source(doc.metadata.section, preview, ChunkIdOr0(doc.metadata))];
      i := i + 1;
    }
  }

  /** The sources of the documents, one each. */
  function Sources(docs: seq<Document>): (r: seq<Source>)
    ensures |r| == |docs|
    ensures forall i :: 0 <= i < |docs| ==> r[i] == SourceOf(docs[i])
  {
    seq(|docs|, i requires 0 <= i < |docs| => SourceOf(docs[i]))
  }

  /** A source names its passage's section and chunk, and shows at most 103
      characters, every one a character of the passage or of the "..." mark. */
  lemma SourceSpec(doc: Document)
    ensures SourceOf(doc).section == doc.metadata.section
    ensures |SourceOf(doc).content| <= 103
    ensures forall c :: c in SourceOf(doc).content ==> c in doc.content || c == '.'
    ensures doc.metadata.chunk.None? ==> SourceOf(doc).chunkId == 0
    ensures doc.metadata.chunk.Some? ==> SourceOf(doc).chunkId == doc.metadata.chunk.value.chunkId
  {
    var s := doc.content;
    var r := Preview(s);
    if |s| > 100 {
      forall c | c in r ensures c in s || c == '.' {
        var i :| 0 <= i < |r| && r[i] == c;
        if i < 100 {
          assert r[i] == r[..100][i] == s[..100][i];
        } else {
          assert r[i] == r[100..][i - 100];
        }
      }
    }
  }

  // ----- confidence -----

  function Min(a: real, b: real): real
  {
    if a <= b then a else b
  }

  /** `min(len(documents) / 4.0, 1.0)`. */
  function DocCountScore(n: nat): real
  {
    Min(n as real / 4.0, 1.0)
  }

  /** `sum(len(doc.page_content) for doc in documents)`. */
  function TotalLength(docs: seq<Document>): nat
  {
    if docs == [] then 0 else TotalLength(docs[..|docs| - 1]) + |docs[|docs| - 1].content|
  }

  /** `min(total / 1500.0, 1.0)`. */
  function ContentScore(docs: seq<Document>): real
  {
    Min(TotalLength(docs) as real / 1500.0, 1.0)
  }

  /** `set(question.lower().split())`. */
  function QuestionWords(question: string): set<string>
  {
    WordSet(Lower(question))
  }

  /** The share of the question's words the passage contains. */
  function Relevance(qw: set<string>, doc: Document): real
  {
    |qw * WordSet(Lower(doc.content))| as real / (if |qw| > 1 then |qw| else 1) as real
  }

  function RelevanceSum(qw: set<string>, docs: seq<Document>): real
  {
    if docs == [] then 0.0 else RelevanceSum(qw, docs[..|docs| - 1]) + Relevance(qw, docs[|docs| - 1])
  }

  /** `_estimate_confidence`, before the rounding to two places. */
  function Confidence(question: string, docs: seq<Document>): real
  {
    if docs == [] then 0.0
    else
      var avg := RelevanceSum(QuestionWords(question), docs) / (|docs| as real);
      Min((DocCountScore(|docs|) + ContentScore(docs) + avg) / 3.0, 0.95)
  }

  method EstimateConfidence(question: string, documents: seq<Document>) returns (confidence: real)
    ensures confidence == Confidence(question, documents)
  {
    if documents == [] {
      return 0.0;
    }
    var docCountScore := Min(|documents| as real / 4.0, 1.0);
    var total := SumLengths(documents);
    var contentScore := Min(total as real / 1500.0, 1.0);
    var questionWords := WordSet(Lower(question));
    var relevanceSum := SumRelevance(questionWords, documents);
    var avgRelevance := relevanceSum / (|documents| as real);
    confidence := Min((docCountScore + contentScore + avgRelevance) / 3.0, 0.95);
  }

  /** The `total_content_length` sum. */
  method SumLengths(documents: seq<Document>) returns (total: nat)
    ensures total == TotalLength(documents)
  {
    total := 0;
    var i := 0;
    while i < |documents|
      invariant 0 <= i <= |documents|
      invariant total == TotalLength(documents[..i])
    {
      assert documents[..i + 1][..i] == documents[..i];
      total := total + |documents[i].content|;
      i := i + 1;
    }
    assert documents[..i] == documents;
  }

  /** The `relevance_scores` loop, summed. */
  method SumRelevance(questionWords: set<string>, documents: seq<Document>) returns (relevanceSum: real)
    ensures relevanceSum == RelevanceSum(questionWords, documents)
  {
    relevanceSum := 0.0;
    var i := 0;
    while i < |documents|
      invariant 0 <= i <= |documents|
      invariant relevanceSum == RelevanceSum(questionWords, documents[..i])
    {
      assert documents[..i + 1][..i] == documents[..i];
      var relevance := DocRelevance(questionWords, documents[i]);
      relevanceSum := relevanceSum + relevance;
      i := i + 1;
    }
    assert documents[..i] == documents;
  }

  /** One passage's `len(question_words & doc_words) / max(len(question_words), 1)`. */
  method DocRelevance(questionWords: set<string>, doc: Document) returns (relevance: real)
    ensures relevance == Relevance(questionWords, doc)
  {
    var docWords := WordSet(Lower(doc.content));
    var intersection := |questionWords * docWords|;
    relevance := intersection as real / (if |questionWords| > 1 then |questionWords| else 1) as real;
  }

  /** A subset is no larger than its superset. */
  lemma {:induction false} SubsetCard<T>(a: set<T>, b: set<T>)
    requires a <= b
    ensures |a| <= |b|
    decreases |a|
  {
    if a != {} {
      var x :| x in a;
      SubsetCard(a - {x}, b - {x});
    }
  }

  /** One passage's relevance lies in [0, 1]. */
  lemma RelevanceBounds(qw: set<string>, doc: Document)
    ensures 0.0 <= Relevance(qw, doc) <= 1.0
  {
    var inter := qw * WordSet(Lower(doc.content));
    SubsetCard(inter, qw);
    MeanBounds(|inter| as real, if |qw| > 1 then |qw| else 1);
  }

  lemma {:induction false} RelevanceSumBounds(qw: set<string>, docs: seq<Document>)
    ensures 0.0 <= RelevanceSum(qw, docs) <= |docs| as real
    decreases |docs|
  {
    if docs != [] {
      RelevanceSumBounds(qw, docs[..|docs| - 1]);
      RelevanceBounds(qw, docs[|docs| - 1]);
    }
  }

  /** The confidence is 0 without passages and otherwise the capped mean of
      three scores in [0, 1]; it always lies in [0, 0.95], and the
      passage-count score is full from 4 passages on. */
  lemma ConfidenceSpec(question: string, docs: seq<Document>)
    ensures docs == [] ==> Confidence(question, docs) == 0.0
    ensures 0.0 <= Confidence(question, docs) <= 0.95
    ensures 0.0 <= DocCountScore(|docs|) <= 1.0
    ensures 0.0 <= ContentScore(docs) <= 1.0
    ensures docs != [] ==> 0.0 <= RelevanceSum(QuestionWords(question), docs) / (|docs| as real) <= 1.0
    ensures |docs| >= 4 ==> DocCountScore(|docs|) == 1.0
  {
    if docs != [] {
      var s := RelevanceSum(QuestionWords(question), docs);
      RelevanceSumBounds(QuestionWords(question), docs);
      MeanBounds(s, |docs|);
    }
  }

  /** A sum of `n` values in [0, 1], divided by `n`, lies in [0, 1]. */
  lemma MeanBounds(s: real, n: nat)
    requires n > 0 && 0.0 <= s <= n as real
    ensures 0.0 <= s / (n as real) <= 1.0
  {
    var d := n as real;
    assert s / d * d == s;
  }

  // ----- keypoints and the paper summary -----

  /** Numbered lines that `get_section_keypoints` drops. */
  const KeypointSkips: seq<string> := ["1.", "2.", "3.", "4.", "5."]
  const KeypointCap := 10
  const KeypointInput := 2000

  /** The sections whose opening `get_paper_summary` hands to the model. */
  const SummarySections: seq<string> := ["title", "abstract", "introduction", "conclusion"]

  /** `f"{section}: {sections[section][:500]}\n\n"`. */
  function SummaryPart(name: string, value: string): string
  {
    name + ": " + Take(value, 500) + "\n\n"
  }

  /** The summary input: one part per non-empty section among title,
      abstract, introduction and conclusion, or else the first 1500
      characters of the full text. */
  function SummaryContent(sections: Dict): string
  {
    var content := Join(Rendered(sections, Present(sections, SummarySections), SummaryPart), "");
    if content == "" then Take(GetOr(sections, "full_text", ""), 1500) else content
  }

  method BuildSummaryContent(sections: Dict) returns (content: string)
    ensures content == SummaryContent(sections)
  {
    var parts := GatherParts(sections, SummarySections, SummaryPart);
    content := Join(parts, "");
    if content == "" {
      content := Take(GetOr(sections, "full_text", ""), 1500);
    }
  }

  /** The full text is the fallback exactly when none of the four sections
      has text; otherwise each present section's part is in the content. */
  lemma SummaryContentSpec(sections: Dict)
    ensures Present(sections, SummarySections) == [] ==>
      SummaryContent(sections) == Take(GetOr(sections, "full_text", ""), 1500)
    ensures Present(sections, SummarySections) != [] ==>
      forall n :: n in Present(sections, SummarySections) ==>
        Contains(SummaryContent(sections), SummaryPart(n, GetOr(sections, n, "")))
  {
    var ns := Present(sections, SummarySections);
    var parts := Rendered(sections, ns, SummaryPart);
    if ns != [] {
      assert parts[0] == SummaryPart(ns[0], GetOr(sections, ns[0], ""));
      assert |parts[0]| >= 2;
      JoinNonEmpty(parts, "");
      forall n | n in ns ensures Contains(SummaryContent(sections), SummaryPart(n, GetOr(sections, n, ""))) {
        var i :| 0 <= i < |ns| && ns[i] == n;
        JoinContainsPart(parts, "", i);
      }
    } else {
      assert parts == [];
    }
  }

  // ----- the system -----

  /** `current_paper_info`: the title, the sections and the number of
      chunks indexed. */
  datatype PaperInfo = PaperInfo(title: string, sections: Dict, totalDocs: nat)

  /** What `ask_question` returns; `question` is echoed only with a real answer. */
  datatype Answer = Answer(answer: string, sources: seq<Source>, confidence: real, question: Option<string>)

  /** An answer that carries a fixed message and no sources. */
  function Refusal(message: string): Answer
  {
    Answer(message, [], 0.0, None)
  }

  /** `ask_question` given the store in use (if any). */
  function AnswerFor(store: Option<VectorStore>, question: string, sim: Search, mmr: MmrSearch, llm: Llm): Answer
  {
    match store
    case None => Refusal(NoPaper)
    case Some(s) => AnswerFromRetrieved(question, Retrieved(s, question, sim, mmr), llm)
  }

  /** `ask_question` once the passages have been retrieved. */
  function AnswerFromRetrieved(question: string, docs: seq<Document>, llm: Llm): Answer
  {
    if docs == [] then Refusal(NothingFound)
    else
      var filtered := Filtered(docs);
      if filtered == [] then Refusal(LowRelevance)
      else
        match Ask(llm, "qa", QaPrompt(Context(filtered), question))
        case Err(m) => Refusal(AnswerFailed + m)
        case Ok(a) => Answer(a, Sources(filtered), Confidence(question, filtered), Some(question))
  }

  /** The part of `ask_question` after retrieval. */
  method Respond(question: string, relevantDocs: seq<Document>, llm: Llm) returns (r: Answer)
    ensures r == AnswerFromRetrieved(question, relevantDocs, llm)
  {
    if relevantDocs == [] {
      return Refusal(NothingFound);
    }
    var filteredDocs := FilterRelevantDocs(question, relevantDocs);
    if filteredDocs == [] {
      return Refusal(LowRelevance);
    }
    var context := BuildContext(filteredDocs);
    match Ask(llm, "qa", QaPrompt(context, question)) {
      case Err(m) =>
        r := Refusal(AnswerFailed + m);
      case Ok(answer) =>
        var sources := FormatSources(filteredDocs);
        var confidence := EstimateConfidence(question, filteredDocs);
        r := Answer(answer, sources, confidence, Some(question));
    }
  }

  /** `explain_term` given the store in use (if any). */
  function ExplanationFor(store: Option<VectorStore>, term: string, sim: Search, llm: Llm): string
  {
    match store
    case None => NoPaper
    case Some(s) =>
      match sim(s, term, TermK)
      case Err(m) => TermFailed + m
      case Ok(docs) =>
        var filtered := Filtered(docs);
        if filtered == [] then TermNotFound(term)
        else
          match Ask(llm, "explanation", TermPrompt(term, Context(filtered)))
          case Err(m) => TermFailed + m
          case Ok(e) => e
  }

  /** `get_section_keypoints` given the loaded paper (if any). */
  function KeypointsFor(info: Option<PaperInfo>, name: string, llm: Llm): seq<string>
  {
    if info.None? then []
    else
      match Get(info.value.sections, name)
      case None => []
      case Some(content) =>
        if content == "" then []
        else
          match Ask(llm, "analysis", KeypointsPrompt(name, Take(content, KeypointInput)))
          case Err(_) => []
          case Ok(response) => ListItems(response, KeypointSkips, KeypointCap)
  }

  /** `get_paper_summary` given the loaded paper (if any). */
  function PaperSummaryFor(info: Option<PaperInfo>, llm: Llm): string
  {
    match info
    case None => NoPaper
    case Some(p) =>
      match Ask(llm, "summary", PaperSummaryPrompt(p.title, SummaryContent(p.sections)))
      case Err(m) => SummaryFailed + m
      case Ok(s) => s
  }

  class PaperQASystem {
    var vectorstore: Option<VectorStore>
    var paperInfo: Option<PaperInfo>

    constructor ()
      ensures vectorstore == None && paperInfo == None
    {
      vectorstore := None;
      paperInfo := None;
    }

    /** Chunk and index the paper. On success the store and the paper
        information are replaced; when building the store fails nothing
        changes. */
    method LoadPaper(sections: Dict, paperTitle: string, split: Splitter, build: StoreBuilder) returns (ok: bool)
      modifies this
      ensures ok == build(ProcessedDocs(sections, split)).Ok?
      ensures ok ==> vectorstore == Some(build(ProcessedDocs(sections, split)).value)
      ensures ok ==> paperInfo == Some(PaperInfo(OrElse(paperTitle, GetOr(sections, "title", "")),
                                                 sections, |ProcessedDocs(sections, split)|))
      ensures !ok ==> vectorstore == old(vectorstore) && paperInfo == old(paperInfo)
    {
      var documents := ProcessPaperSections(sections, split);
      match build(documents) {
        case Err(_) =>
          return false;
        case Ok(store) =>
          vectorstore := Some(store);
          paperInfo := Some(PaperInfo(OrElse(paperTitle, GetOr(sections, "title", "")), sections, |documents|));
          return true;
      }
    }

    method AskQuestion(question: string, sim: Search, mmr: MmrSearch, llm: Llm) returns (r: Answer)
      ensures r == AnswerFor(vectorstore, question, sim, mmr, llm)
    {
      if vectorstore.None? {
        return Refusal(NoPaper);
      }
      var relevantDocs := SmartRetrieve(vectorstore.value, question, sim, mmr);
      r := Respond(question, relevantDocs, llm);
    }

    method ExplainTerm(term: string, sim: Search, llm: Llm) returns (r: string)
      ensures r == ExplanationFor(vectorstore, term, sim, llm)
    {
      if vectorstore.None? {
        return NoPaper;
      }
      match sim(vectorstore.value, term, TermK) {
        case Err(m) =>
          return TermFailed + m;
        case Ok(relevantDocs) =>
          var filteredDocs := FilterRelevantDocs(term, relevantDocs);
          if filteredDocs == [] {
            return TermNotFound(term);
          }
          var context := BuildContext(filteredDocs);
          match Ask(llm, "explanation", TermPrompt(term, context)) {
            case Err(m) =>
              r := TermFailed + m;
            case Ok(explanation) =>
              r := explanation;
          }
      }
    }

    method GetSectionKeypoints(name: string, llm: Llm) returns (keypoints: seq<string>)
      ensures keypoints == KeypointsFor(paperInfo, name, llm)
    {
      if paperInfo.None? || !HasKey(paperInfo.value.sections, name) {
        return [];
      }
      var content := GetOr(paperInfo.value.sections, name, "");
      if content == "" {
        return [];
      }
      match Ask(llm, "analysis", KeypointsPrompt(name, Take(content, KeypointInput))) {
        case Err(_) =>
          keypoints := [];
        case Ok(response) =>
          keypoints := ParseList(response, KeypointSkips, KeypointCap);
      }
    }

    method GetPaperSummary(llm: Llm) returns (summary: string)
      ensures summary == PaperSummaryFor(paperInfo, llm)
    {
      if paperInfo.None? {
        return NoPaper;
      }
      var content := BuildSummaryContent(paperInfo.value.sections);
      match Ask(llm, "summary", PaperSummaryPrompt(paperInfo.value.title, content)) {
        case Err(m) =>
          summary := SummaryFailed + m;
        case Ok(s) =>
          summary := s;
      }
    }
  }

  // ----- properties of the answers -----

  /** Without a store the fixed upload request comes back, whatever the
      question and the oracles. */
  lemma NoStoreAnswer(question: string, sim: Search, mmr: MmrSearch, llm: Llm)
    ensures AnswerFor(None, question, sim, mmr, llm).answer == NoPaper
    ensures AnswerFor(None, question, sim, mmr, llm).sources == []
    ensures AnswerFor(None, question, sim, mmr, llm).confidence == 0.0
  {
  }

  /** When retrieval finds nothing, or the filter removes everything, the
      answer is a fixed message with no sources and confidence 0, and it
      is the same whatever the model would say: the model is not asked. */
  lemma ShortCircuitAnswer(store: VectorStore, question: string, sim: Search, mmr: MmrSearch, llm: Llm, llm': Llm)
    requires Filtered(Retrieved(store, question, sim, mmr)) == []
    ensures AnswerFor(Some(store), question, sim, mmr, llm) == AnswerFor(Some(store), question, sim, mmr, llm')
    ensures AnswerFor(Some(store), question, sim, mmr, llm).answer in {NothingFound, LowRelevance}
    ensures AnswerFor(Some(store), question, sim, mmr, llm).sources == []
    ensures AnswerFor(Some(store), question, sim, mmr, llm).confidence == 0.0
    ensures Retrieved(store, question, sim, mmr) == [] ==> AnswerFor(Some(store), question, sim, mmr, llm).answer == NothingFound
  {
  }

  /** A real answer cites between 1 and 6 relevant retrieved passages, one
      source each, with a confidence in [0, 0.95], and echoes the question. */
  lemma AnsweredSpec(store: VectorStore, question: string, sim: Search, mmr: MmrSearch, llm: Llm)
    requires AnswerFor(Some(store), question, sim, mmr, llm).question.Some?
    ensures AnswerFor(Some(store), question, sim, mmr, llm).question == Some(question)
    ensures 1 <= |AnswerFor(Some(store), question, sim, mmr, llm).sources| <= FilterCap
    ensures 0.0 <= AnswerFor(Some(store), question, sim, mmr, llm).confidence <= 0.95
    ensures forall s :: s in AnswerFor(Some(store), question, sim, mmr, llm).sources ==>
      exists d :: d in Retrieved(store, question, sim, mmr) && Relevant(d) && s == SourceOf(d)
  {
    var docs := Retrieved(store, question, sim, mmr);
    AnsweredFromSpec(question, docs, llm);
  }

  /** The same, for the passages once retrieved. */
  lemma AnsweredFromSpec(question: string, docs: seq<Document>, llm: Llm)
    requires AnswerFromRetrieved(question, docs, llm).question.Some?
    ensures AnswerFromRetrieved(question, docs, llm).question == Some(question)
    ensures 1 <= |AnswerFromRetrieved(question, docs, llm).sources| <= FilterCap
    ensures 0.0 <= AnswerFromRetrieved(question, docs, llm).confidence <= 0.95
    ensures forall s :: s in AnswerFromRetrieved(question, docs, llm).sources ==>
      exists d :: d in docs && Relevant(d) && s == SourceOf(d)
  {
    var filtered := Filtered(docs);
    var r := AnswerFromRetrieved(question, docs, llm);
    assert filtered != [];
    assert r.sources == Sources(filtered) && r.confidence == Confidence(question, filtered);
    FilteredSpec(docs);
    ConfidenceSpec(question, filtered);
    SourcesFrom(filtered, docs);
  }

  /** Every source of a relevant subset names a relevant passage. */
  lemma SourcesFrom(filtered: seq<Document>, docs: seq<Document>)
    requires forall x :: x in filtered ==> x in docs && Relevant(x)
    ensures forall s :: s in Sources(filtered) ==> exists d :: d in docs && Relevant(d) && s == SourceOf(d)
  {
    forall s | s in Sources(filtered)
      ensures exists d :: d in docs && Relevant(d) && s == SourceOf(d)
    {
      var i :| 0 <= i < |filtered| && Sources(filtered)[i] == s;
      assert filtered[i] in filtered;
    }
  }

  /** `explain_term` asks the model only when a relevant passage remains. */
  lemma ShortCircuitExplanation(store: VectorStore, term: string, sim: Search, llm: Llm, llm': Llm)
    requires sim(store, term, TermK).Ok? && Filtered(sim(store, term, TermK).value) == []
    ensures ExplanationFor(Some(store), term, sim, llm) == TermNotFound(term)
    ensures ExplanationFor(Some(store), term, sim, llm) == ExplanationFor(Some(store), term, sim, llm')
  {
  }

  /** No paper, an unknown section or an empty one give no keypoints and
      no model call. */
  lemma KeypointsSkipped(info: Option<PaperInfo>, name: string, llm: Llm, llm': Llm)
    requires info.None? || GetOr(info.value.sections, name, "") == ""
    ensures KeypointsFor(info, name, llm) == [] && KeypointsFor(info, name, llm') == []
  {
  }

  /** Otherwise the keypoints are the items of the model's answer, at most
      10, each drawn from one of its lines; a failing model gives none. */
  lemma KeypointsParsed(p: PaperInfo, name: string, llm: Llm)
    requires GetOr(p.sections, name, "") != ""
    ensures Ask(llm, "analysis", KeypointsPrompt(name, Take(GetOr(p.sections, name, ""), KeypointInput))).Err? ==>
      KeypointsFor(Some(p), name, llm) == []
    ensures |KeypointsFor(Some(p), name, llm)| <= KeypointCap
    ensures var answer := Ask(llm, "analysis", KeypointsPrompt(name, Take(GetOr(p.sections, name, ""), KeypointInput)));
      answer.Ok? ==>
        forall x :: x in KeypointsFor(Some(p), name, llm) ==>
          exists l :: l in Split(answer.value, '\n') && ListItem(Strip(l), KeypointSkips) == Some(x)
  {
    var content := GetOr(p.sections, name, "");
    assert Get(p.sections, name) == Some(content);
    var answer := Ask(llm, "analysis", KeypointsPrompt(name, Take(content, KeypointInput)));
    if answer.Ok? {
      assert KeypointsFor(Some(p), name, llm) == ListItems(answer.value, KeypointSkips, KeypointCap);
      ListItemsSpec(answer.value, KeypointSkips, KeypointCap);
    } else {
      assert KeypointsFor(Some(p), name, llm) == [];
    }
  }
}
