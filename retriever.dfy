/**
  Hybrid retrieval: both indices are asked for twice the wanted number of
  candidates, their ranked lists are fused by Reciprocal Rank Fusion keyed
  by `path:start_line`, the fused scores are sorted stably from the highest
  down, and the best `top_k` become `Match` records.

  The vector store is outside this model: its ranked answer for a query and
  a count is the parameter `vectorSearch`, and the outcome of its `load` is
  a parameter of `Load`.
*/
module Retrieval {
  import opened Wrappers
  import opened Text
  import opened Schemas
  import opened Sorting
  import Chunking
  import KeywordSearch

  /** The RRF constant `k`. */
  const RrfK: nat := 60

  /** How many characters of a chunk's content a match carries. */
  const SnippetLength: nat := 500

  /** The exception a document without a path raises during fusion. */
  const KeyError: string := "KeyError"

  type Ranked = seq<(Chunking.Chunk, real)>

  /** `f"{doc['metadata']['path']}:{doc['start_line']}"`, or nothing where the lookup raises. */
  function DocId(doc: Chunking.Chunk): Option<string> {
    if "path" in doc.metadata then Some(doc.metadata["path"] + ":" + IntToString(doc.startLine)) else None
  }

  /** Every document of a ranked list has a path. */
  predicate Identified(rs: Ranked) {
    forall k :: 0 <= k < |rs| ==> "path" in rs[k].0.metadata
  }

  /** The rank-`rank` contribution `1.0 / (k + rank)`. */
  function Contribution(rank: nat): real {
    1.0 / (RrfK + rank) as real
  }

  /** `scores.get(doc_id, 0)`. */
  function Get(scores: map<string, real>, id: string): real {
    if id in scores then scores[id] else 0.0
  }

  /**
    The two dictionaries of the fusion, `scores` and `doc_map`, with the
    order in which their keys were first inserted (the order Python's
    `dict` keeps, and so the order `scores.items()` lists them in).
  */
  datatype Fusion = Fusion(scores: map<string, real>, docs: map<string, Chunking.Chunk>, keys: seq<string>)

  const Empty: Fusion := Fusion(map[], map[], [])

  /** Every kept document has a path. */
  ghost predicate Paths(f: Fusion) {
    forall id :: id in f.docs ==> "path" in f.docs[id].metadata
  }

  /** Both dictionaries have exactly the listed keys, each listed once, and every kept document has a path. */
  ghost predicate Coherent(f: Fusion) {
    && (forall id :: id in f.scores <==> id in f.keys)
    && (forall id :: id in f.docs <==> id in f.keys)
    && (forall i, j :: 0 <= i < j < |f.keys| ==> f.keys[i] != f.keys[j])
    && Paths(f)
  }

  /** One pass of a rank loop: add the rank's contribution to the key and keep this document for it. */
  function AddDoc(f: Fusion, id: string, doc: Chunking.Chunk, rank: nat): Fusion {
    Fusion(f.scores[id := Get(f.scores, id) + Contribution(rank)],
           f.docs[id := doc],
           if id in f.scores then f.keys else f.keys + [id])
  }

  /**
    A rank loop over a whole list, ranks counted from 1. An entry without a
    path makes the loop raise before anything is fused (see `Fused`); here
    it is passed over, so that the fusion is defined on every list.
  */
  function AddRanked(f: Fusion, rs: Ranked): Fusion {
    if rs == [] then f
    else
      var g := AddRanked(f, rs[..|rs| - 1]);
      match DocId(rs[|rs| - 1].0)
      case None => g
      case Some(id) => AddDoc(g, id, rs[|rs| - 1].0, |rs|)
  }

  /** Both rank loops: the vector list first, then the keyword list. */
  function Fuse(vec: Ranked, kw: Ranked): Fusion {
    AddRanked(AddRanked(Empty, vec), kw)
  }

  // ------------------------------------------------------ reference definitions

  /** The sum of `1/(k + rank)` over the positions of `rs` holding key `id`. */
  function RankSum(rs: Ranked, id: string): real {
    if rs == [] then 0.0
    else RankSum(rs[..|rs| - 1], id) + (if DocId(rs[|rs| - 1].0) == Some(id) then Contribution(|rs|) else 0.0)
  }

  /** The last document of `rs` with key `id`, if any. */
  function LastDoc(rs: Ranked, id: string): Option<Chunking.Chunk> {
    if rs == [] then None
    else if DocId(rs[|rs| - 1].0) == Some(id) then Some(rs[|rs| - 1].0)
    else LastDoc(rs[..|rs| - 1], id)
  }

  lemma AddDocCoherent(f: Fusion, id: string, doc: Chunking.Chunk, rank: nat)
    requires Coherent(f) && "path" in doc.metadata
    ensures Coherent(AddDoc(f, id, doc, rank))
  {
  }

  /** A rank loop keeps the dictionaries coherent. */
  lemma {:induction false} AddRankedCoherent(f: Fusion, rs: Ranked)
    requires Coherent(f)
    ensures Coherent(AddRanked(f, rs))
    decreases |rs|
  {
    if rs != [] {
      var init, last := rs[..|rs| - 1], rs[|rs| - 1];
      AddRankedCoherent(f, init);
      if DocId(last.0).Some? {
        AddDocCoherent(AddRanked(f, init), DocId(last.0).value, last.0, |rs|);
      }
    }
  }

  /** The fusion of two lists is coherent. */
  lemma FuseCoherent(vec: Ranked, kw: Ranked)
    ensures Coherent(Fuse(vec, kw))
  {
    AddRankedCoherent(Empty, vec);
    AddRankedCoherent(AddRanked(Empty, vec), kw);
  }

  /**
    A rank loop `g` over `rs` adds to every key of the list the
    contributions of all its positions, leaves every other key as it was,
    keeps for a key the last document listed under it, and lists new keys
    after the old ones.
  */
  lemma {:induction false} AddRankedFacts(f: Fusion, rs: Ranked, id: string, g: Fusion)
    requires g == AddRanked(f, rs)
    ensures id in g.scores <==> id in f.scores || LastDoc(rs, id).Some?
    ensures Get(g.scores, id) == Get(f.scores, id) + RankSum(rs, id)
    ensures LastDoc(rs, id).Some? ==> id in g.docs && g.docs[id] == LastDoc(rs, id).value
    ensures LastDoc(rs, id).None? ==> (id in g.docs <==> id in f.docs) && (id in f.docs ==> g.docs[id] == f.docs[id])
    ensures |g.keys| >= |f.keys| && g.keys[..|f.keys|] == f.keys
    decreases |rs|
  {
    if rs != [] {
      AddRankedFacts(f, rs[..|rs| - 1], id, AddRanked(f, rs[..|rs| - 1]));
    }
  }

  /**
    The fused score of a key is the sum of `1/(60 + rank)` over its
    occurrences in both lists; a key is present exactly when it occurs in
    one of them; and the document kept for it is its last occurrence in the
    keyword list, or failing that in the vector list.
  */
  lemma FuseFacts(vec: Ranked, kw: Ranked, id: string, f: Fusion)
    requires f == Fuse(vec, kw)
    ensures id in f.scores <==> LastDoc(vec, id).Some? || LastDoc(kw, id).Some?
    ensures id in f.docs <==> LastDoc(vec, id).Some? || LastDoc(kw, id).Some?
    ensures Get(f.scores, id) == RankSum(vec, id) + RankSum(kw, id)
    ensures id in f.docs ==> f.docs[id] == if LastDoc(kw, id).Some? then LastDoc(kw, id).value else LastDoc(vec, id).value
  {
    AddRankedFacts(Empty, vec, id, AddRanked(Empty, vec));
    AddRankedFacts(AddRanked(Empty, vec), kw, id, f);
  }

  // -------------------------------------------------------------- ranking

  /** `scores.items()`, in insertion order. */
  function Items(f: Fusion): seq<(string, real)> {
    seq(|f.keys|, k requires 0 <= k < |f.keys| => (f.keys[k], Get(f.scores, f.keys[k])))
  }

  /** `sorted(scores.items(), key=lambda x: x[1], reverse=True)`. */
  function Ranking(vec: Ranked, kw: Ranked): (ranking: seq<(string, real)>)
    ensures forall k :: 0 <= k < |ranking| ==> ranking[k].0 in Fuse(vec, kw).docs
  {
    var f := Fuse(vec, kw);
    FuseCoherent(vec, kw);
    SortedFrom(f);
    SortDesc(Items(f))
  }

  /** Every sorted entry is a key of the fusion. */
  lemma SortedFrom(f: Fusion)
    requires Coherent(f)
    ensures forall k :: 0 <= k < |SortDesc(Items(f))| ==> SortDesc(Items(f))[k].0 in f.docs
  {
    var items := Items(f);
    var sorted := SortDesc(items);
    forall k | 0 <= k < |sorted|
      ensures sorted[k].0 in f.docs
    {
      SortDescMembers(items, sorted[k]);
      var j :| 0 <= j < |items| && items[j] == sorted[k];
      assert f.keys[j] in f.keys;
    }
  }

  /**
    The ranking lists every key of either list once with its fused score,
    from the highest score down, keys of equal score in the order they were
    first inserted.
  */
  lemma RankingFacts(vec: Ranked, kw: Ranked, r: real, ranking: seq<(string, real)>)
    requires ranking == Ranking(vec, kw)
    ensures Descending(ranking)
    ensures WithScore(ranking, r) == WithScore(Items(Fuse(vec, kw)), r)
    ensures forall k :: 0 <= k < |ranking| ==>
      && ranking[k].0 in Fuse(vec, kw).docs
      && ranking[k].1 == RankSum(vec, ranking[k].0) + RankSum(kw, ranking[k].0)
      && (LastDoc(vec, ranking[k].0).Some? || LastDoc(kw, ranking[k].0).Some?)
    ensures forall id :: LastDoc(vec, id).Some? || LastDoc(kw, id).Some? ==> exists k :: 0 <= k < |ranking| && ranking[k].0 == id
  {
    var f := Fuse(vec, kw);
    FuseCoherent(vec, kw);
    var items := Items(f);
    assert ranking == SortDesc(items);
    SortDescFacts(items, r);
    forall k | 0 <= k < |ranking|
      ensures && ranking[k].0 in f.docs
              && ranking[k].1 == RankSum(vec, ranking[k].0) + RankSum(kw, ranking[k].0)
              && (LastDoc(vec, ranking[k].0).Some? || LastDoc(kw, ranking[k].0).Some?)
    {
      RankedEntry(vec, kw, f, items, ranking, k);
    }
    forall id | LastDoc(vec, id).Some? || LastDoc(kw, id).Some?
      ensures exists k :: 0 <= k < |ranking| && ranking[k].0 == id
    {
      RankedKey(vec, kw, f, items, ranking, id);
    }
  }

  /** An entry of the ranking is a fused key with its fused score. */
  lemma RankedEntry(vec: Ranked, kw: Ranked, f: Fusion, items: seq<(string, real)>, ranking: seq<(string, real)>, k: nat)
    requires f == Fuse(vec, kw) && Coherent(f)
    requires items == Items(f) && ranking == SortDesc(items) && k < |ranking|
    ensures ranking[k].0 in f.docs
    ensures ranking[k].1 == RankSum(vec, ranking[k].0) + RankSum(kw, ranking[k].0)
    ensures LastDoc(vec, ranking[k].0).Some? || LastDoc(kw, ranking[k].0).Some?
  {
    SortDescMembers(items, ranking[k]);
    var j :| 0 <= j < |items| && items[j] == ranking[k];
    assert f.keys[j] in f.keys;
    FuseFacts(vec, kw, ranking[k].0, f);
  }

  /** Every key of either list has an entry in the ranking. */
  lemma RankedKey(vec: Ranked, kw: Ranked, f: Fusion, items: seq<(string, real)>, ranking: seq<(string, real)>, id: string)
    requires f == Fuse(vec, kw) && Coherent(f)
    requires items == Items(f) && ranking == SortDesc(items)
    requires LastDoc(vec, id).Some? || LastDoc(kw, id).Some?
    ensures exists k :: 0 <= k < |ranking| && ranking[k].0 == id
  {
    FuseFacts(vec, kw, id, f);
    var j :| 0 <= j < |f.keys| && f.keys[j] == id;
    SortDescMembers(items, items[j]);
    assert items[j] in ranking;
  }

  // ------------------------------------------------------------ conversion

  /** `Match(score=..., path=..., start_line=..., end_line=..., snippet=content[:500], metadata=...)`. */
  function ToMatch(score: real, doc: Chunking.Chunk): Option<Match>
    requires "path" in doc.metadata
  {
    NewMatch(score, doc.metadata["path"], doc.startLine, doc.endLine, Prefix(doc.content, SnippetLength), Some(doc.metadata))
  }

  /** The conversion loop over the kept entries of the ranking. */
  function Convert(f: Fusion, ranked: seq<(string, real)>): Result<seq<Match>, string>
    requires Paths(f)
    requires forall k :: 0 <= k < |ranked| ==> ranked[k].0 in f.docs
  {
    if ranked == [] then Success([])
    else match Convert(f, ranked[..|ranked| - 1])
      case Failure(e) => Failure(e)
      case Success(ms) =>
        var (id, score) := ranked[|ranked| - 1];
        match ToMatch(score, f.docs[id])
        case None => Failure(ValidationError)
        case Some(m) => Success(ms + [m])
  }

  /** `retrieve` once both searches have answered. */
  function Fused(vec: Ranked, kw: Result<Ranked, string>, topK: int): Result<seq<Match>, string> {
    if kw.Failure? then Failure(kw.error)
    else if !Identified(vec) || !Identified(kw.value) then Failure(KeyError)
    else
      var ranking := Ranking(vec, kw.value);
      FuseCoherent(vec, kw.value);
      Convert(Fuse(vec, kw.value), ranking[..SliceEnd(topK, |ranking|)])
  }

  /** The conversion succeeds exactly when every kept document has valid line numbers, and then converts each in order. */
  lemma {:induction false} ConvertFacts(f: Fusion, ranked: seq<(string, real)>)
    requires Paths(f)
    requires forall k :: 0 <= k < |ranked| ==> ranked[k].0 in f.docs
    ensures var r := Convert(f, ranked);
      && (r.Success? <==> forall k :: 0 <= k < |ranked| ==> f.docs[ranked[k].0].startLine >= 1 && f.docs[ranked[k].0].endLine >= 1)
      && (r.Success? ==> |r.value| == |ranked| && forall k :: 0 <= k < |ranked| ==> Some(r.value[k]) == ToMatch(ranked[k].1, f.docs[ranked[k].0]))
    decreases |ranked|
  {
    if ranked != [] {
      var init := ranked[..|ranked| - 1];
      ConvertFacts(f, init);
      var r0 := Convert(f, init);
      var r := Convert(f, ranked);
      if r0.Success? && r.Success? {
        assert forall k :: 0 <= k < |init| ==> r.value[k] == r0.value[k];
      }
    }
  }

  /**
    What `retrieve` returns: a raised error from the keyword search or a
    path lookup; otherwise at most `top_k` matches (for `top_k >= 0`), one
    per entry at the head of the ranking, each carrying the fused score, the
    document's path, lines and metadata and the first 500 characters of its
    content, unless one of those documents has a line number below 1.
  */
  lemma FusedFacts(vec: Ranked, kw: Ranked, topK: int, ranking: seq<(string, real)>, n: nat, f: Fusion, r: Result<seq<Match>, string>)
    requires Identified(vec) && Identified(kw)
    requires ranking == Ranking(vec, kw) && n == SliceEnd(topK, |ranking|)
    requires f == Fuse(vec, kw) && r == Fused(vec, Success(kw), topK)
    ensures topK >= 0 ==> n <= topK
    ensures r.Success? <==> forall k :: 0 <= k < n ==> f.docs[ranking[k].0].startLine >= 1 && f.docs[ranking[k].0].endLine >= 1
    ensures r.Success? ==> |r.value| == n && forall k :: 0 <= k < n ==>
      var doc := f.docs[ranking[k].0];
      && "path" in doc.metadata
      && r.value[k] == Match(ranking[k].1, doc.metadata["path"], doc.startLine, doc.endLine,
                             Prefix(doc.content, SnippetLength), doc.metadata)
  {
    var top := ranking[..n];
    FuseCoherent(vec, kw);
    assert r == Convert(f, top);
    ConvertFacts(f, top);
    if r.Success? {
      forall k | 0 <= k < n
        ensures var doc := f.docs[ranking[k].0];
          && "path" in doc.metadata
          && r.value[k] == Match(ranking[k].1, doc.metadata["path"], doc.startLine, doc.endLine,
                                 Prefix(doc.content, SnippetLength), doc.metadata)
      {
        assert top[k] == ranking[k];
        assert Some(r.value[k]) == ToMatch(top[k].1, f.docs[top[k].0]);
      }
    }
  }

  /** Two empty candidate lists give no matches. */
  lemma FusedEmpty(topK: int)
    ensures Fused([], Success([]), topK) == Success([])
  {
    assert Ranking([], []) == [];
  }

  // ------------------------------------------------------------- examples

  /** No colon follows position `|p1|` of `p1 + ":" + s1` when `s1` has none, so a second split cannot end later. */
  lemma ColonLast(p1: string, s1: string, p2: string, s2: string)
    requires p1 + ":" + s1 == p2 + ":" + s2
    requires Free(s1, ':')
    ensures |s1| <= |s2|
  {
    var w := p1 + ":" + s1;
    assert w[|p2|] == ':';
    assert forall j :: |p1| < j < |w| ==> w[j] == s1[j - |p1| - 1];
  }

  /** Splitting at the last colon: a colon-free tail determines both halves. */
  lemma SplitAtLastColon(p1: string, s1: string, p2: string, s2: string)
    requires p1 + ":" + s1 == p2 + ":" + s2
    requires Free(s1, ':') && Free(s2, ':')
    ensures p1 == p2 && s1 == s2
  {
    ColonLast(p1, s1, p2, s2);
    ColonLast(p2, s2, p1, s1);
    var w := p1 + ":" + s1;
    assert p1 == w[..|p1|] == p2;
    assert s1 == w[|p1| + 1..] == s2;
  }

  /** Two documents are fused under one key exactly when they have the same path and start line. */
  lemma DocIdSame(a: Chunking.Chunk, b: Chunking.Chunk)
    requires "path" in a.metadata && "path" in b.metadata
    requires a.startLine >= 0 && b.startLine >= 0
    ensures DocId(a) == DocId(b) <==> a.metadata["path"] == b.metadata["path"] && a.startLine == b.startLine
  {
    if DocId(a) == DocId(b) {
      var s1, s2 := NatToString(a.startLine), NatToString(b.startLine);
      assert Free(s1, ':') && Free(s2, ':');
      SplitAtLastColon(a.metadata["path"], s1, b.metadata["path"], s2);
      NatToStringInjective(a.startLine, b.startLine);
    }
  }

  /** A one-entry list adds its document under its key with 1/61. */
  lemma Single(f: Fusion, a: Chunking.Chunk, s: real)
    requires "path" in a.metadata
    ensures AddRanked(f, [(a, s)]) == AddDoc(f, DocId(a).value, a, 1)
  {
    assert [(a, s)][..0] == [];
  }

  /** A chunk first in both lists scores 2/61, and the keyword list's copy is kept. */
  lemma FirstInBoth(a: Chunking.Chunk, b: Chunking.Chunk, s1: real, s2: real)
    requires "path" in a.metadata && DocId(a) == DocId(b)
    ensures var id := DocId(a).value;
      var f := Fuse([(a, s1)], [(b, s2)]);
      && f.keys == [id]
      && f.scores[id] == 2.0 / 61.0
      && f.docs[id] == b
  {
    var id := DocId(a).value;
    Single(Empty, a, s1);
    var f1 := AddRanked(Empty, [(a, s1)]);
    assert f1.keys == [id] && f1.scores[id] == 1.0 / 61.0;
    Single(f1, b, s2);
  }

  /** Two items already in descending order stay as they are. */
  lemma SortPair(x: (string, real), y: (string, real))
    requires x.1 >= y.1
    ensures SortDesc([x, y]) == [x, y]
  {
    assert [x, y][1..] == [y] && [y][1..] == [];
    assert SortDesc([y]) == [y];
  }

  /** The fusion of the vector list `[a, b]` with the keyword list `[a]`. */
  lemma FuseFirstInOne(a: Chunking.Chunk, b: Chunking.Chunk, s1: real, s2: real, s3: real)
    requires "path" in a.metadata && "path" in b.metadata && DocId(a) != DocId(b)
    ensures Items(Fuse([(a, s1), (b, s2)], [(a, s3)])) == [(DocId(a).value, 2.0 / 61.0), (DocId(b).value, 1.0 / 62.0)]
  {
    var ia, ib := DocId(a).value, DocId(b).value;
    var vec := [(a, s1), (b, s2)];
    assert vec[..1] == [(a, s1)];
    Single(Empty, a, s1);
    var f1 := AddRanked(Empty, vec[..1]);
    assert f1.keys == [ia] && f1.scores[ia] == 1.0 / 61.0;
    var f2 := AddRanked(Empty, vec);
    assert f2 == AddDoc(f1, ib, b, 2);
    assert f2.keys == [ia, ib] && f2.scores[ia] == 1.0 / 61.0 && f2.scores[ib] == 1.0 / 62.0;
    Single(f2, a, s3);
  }

  /**
    With the vector list `[a, b]` and the keyword list `[a]`, `a` is first
    with 2/61 and `b`, first in no list, follows with 1/62.
  */
  lemma FirstInOne(a: Chunking.Chunk, b: Chunking.Chunk, s1: real, s2: real, s3: real)
    requires "path" in a.metadata && "path" in b.metadata && DocId(a) != DocId(b)
    ensures Ranking([(a, s1), (b, s2)], [(a, s3)]) == [(DocId(a).value, 2.0 / 61.0), (DocId(b).value, 1.0 / 62.0)]
  {
    FuseFirstInOne(a, b, s1, s2, s3);
    SortPair((DocId(a).value, 2.0 / 61.0), (DocId(b).value, 1.0 / 62.0));
  }

  /** Two chunks first in one list each tie at 1/61 and keep the order of insertion: the vector one first. */
  lemma TieKeepsInsertionOrder(a: Chunking.Chunk, b: Chunking.Chunk, s1: real, s2: real)
    requires "path" in a.metadata && "path" in b.metadata && DocId(a) != DocId(b)
    ensures Ranking([(a, s1)], [(b, s2)]) == [(DocId(a).value, 1.0 / 61.0), (DocId(b).value, 1.0 / 61.0)]
  {
    var ia, ib := DocId(a).value, DocId(b).value;
    Single(Empty, a, s1);
    var f1 := AddRanked(Empty, [(a, s1)]);
    assert f1.keys == [ia] && f1.scores[ia] == 1.0 / 61.0;
    Single(f1, b, s2);
    var f := Fuse([(a, s1)], [(b, s2)]);
    assert f.keys == [ia, ib] && f.scores[ia] == 1.0 / 61.0 && f.scores[ib] == 1.0 / 61.0;
    assert Items(f) == [(ia, 1.0 / 61.0), (ib, 1.0 / 61.0)];
    SortPair((ia, 1.0 / 61.0), (ib, 1.0 / 61.0));
  }

  /**
    Two different chunks of one file with the same start line (which the
    chunker produces when a whole chunk fits in the overlap) collide: one
    key, both contributions, and only the later chunk survives.
  */
  lemma SameStartCollide(a: Chunking.Chunk, b: Chunking.Chunk, s1: real, s2: real)
    requires "path" in a.metadata && "path" in b.metadata
    requires a.metadata["path"] == b.metadata["path"] && a.startLine == b.startLine
    ensures var id := DocId(a).value;
      var f := Fuse([(a, s1), (b, s2)], []);
      && f.keys == [id]
      && f.scores[id] == 1.0 / 61.0 + 1.0 / 62.0
      && f.docs[id] == b
  {
    var id := DocId(a).value;
    var vec := [(a, s1), (b, s2)];
    assert vec[..1] == [(a, s1)];
    Single(Empty, a, s1);
    var f1 := AddRanked(Empty, vec[..1]);
    assert f1.keys == [id] && f1.scores[id] == 1.0 / 61.0;
    var f := AddRanked(Empty, vec);
    assert f == AddDoc(f1, id, b, 2);
  }

  // ------------------------------------------------------------- the object

  /** The part of the vector store the retriever drives: the documents it was built on. */
  class VectorStore {
    var documents: seq<Chunking.Chunk>

    constructor ()
      ensures documents == []
    {
      documents := [];
    }

    method BuildIndex(chunks: seq<Chunking.Chunk>)
      modifies this
      ensures documents == chunks
    {
      documents := chunks;
    }
  }

  /** `HybridRetriever`: a vector store and a keyword index over the same chunks. */
  class HybridRetriever {
    const vectorStore: VectorStore
    const keywordIndex: KeywordSearch.KeywordIndex

    constructor (files: KeywordSearch.KeywordFiles)
      ensures fresh(vectorStore) && fresh(keywordIndex)
      ensures keywordIndex.files == files && keywordIndex.bm25 == None && keywordIndex.documents == []
    {
      vectorStore := new VectorStore();
      keywordIndex := new KeywordSearch.KeywordIndex(files);
    }

    /** `build_indices`: both indices are built from the same chunks. */
    method BuildIndices(chunks: seq<Chunking.Chunk>)
      modifies vectorStore, keywordIndex
      ensures vectorStore.documents == chunks
      ensures keywordIndex.documents == chunks && keywordIndex.bm25 == Some(KeywordSearch.TokenizeCorpus(chunks))
    {
      vectorStore.BuildIndex(chunks);
      keywordIndex.BuildIndex(chunks);
    }

    /** `save`: the keyword half; writing the vector index is outside this model. */
    method Save()
      modifies keywordIndex.files
      ensures keywordIndex.bm25.None? ==>
        keywordIndex.files.bm25Pkl == old(keywordIndex.files.bm25Pkl) && keywordIndex.files.docsPkl == old(keywordIndex.files.docsPkl)
      ensures keywordIndex.bm25.Some? ==>
        keywordIndex.files.bm25Pkl == KeywordSearch.Intact(keywordIndex.bm25.value)
        && keywordIndex.files.docsPkl == KeywordSearch.Intact(keywordIndex.documents)
    {
      keywordIndex.Save();
    }

    /** `load`: both loads always run, and the result is true only when both succeed. */
    method Load(vectorOk: bool) returns (ok: bool)
      modifies keywordIndex
      ensures var l := KeywordSearch.LoadSpec(old(keywordIndex.bm25), old(keywordIndex.documents),
                                              keywordIndex.files.bm25Pkl, keywordIndex.files.docsPkl);
        && ok == (vectorOk && l.ok)
        && keywordIndex.bm25 == l.bm25 && keywordIndex.documents == l.documents
    {
      var vectorLoaded := vectorOk;
      var keywordLoaded := keywordIndex.Load();
      ok := vectorLoaded && keywordLoaded;
    }

    /** `retrieve`. */
    method Retrieve(query: string, topK: int, vectorSearch: (string, int) -> Ranked, scorer: KeywordSearch.Scorer)
      returns (r: Result<seq<Match>, string>)
      ensures r == Fused(vectorSearch(query, topK * 2),
                         KeywordSearch.SearchSpec(keywordIndex.bm25, keywordIndex.documents, query, topK * 2, scorer),
                         topK)
    {
      var vectorResults := vectorSearch(query, topK * 2);
      var keywordResults := keywordIndex.Search(query, topK * 2, scorer);
      if keywordResults.Failure? {
        return Failure(keywordResults.error);
      }
      var ok, scores, docMap, keys := Accumulate(map[], map[], [], vectorResults);
      if !ok {
        return Failure(KeyError);
      }
      ok, scores, docMap, keys := Accumulate(scores, docMap, keys, keywordResults.value);
      if !ok {
        return Failure(KeyError);
      }
      var f := Fusion(scores, docMap, keys);
      assert f == Fuse(vectorResults, keywordResults.value);
      FuseCoherent(vectorResults, keywordResults.value);
      var sortedDocs := SortDesc(Items(f));
      assert sortedDocs == Ranking(vectorResults, keywordResults.value);
      sortedDocs := sortedDocs[..SliceEnd(topK, |sortedDocs|)];
      r := ToMatches(f, sortedDocs);
    }
  }

  /** One rank loop over `results`, ranks from 1, on the dictionaries built so far. */
  method Accumulate(scores: map<string, real>, docMap: map<string, Chunking.Chunk>, keys: seq<string>, results: Ranked)
    returns (ok: bool, scores': map<string, real>, docMap': map<string, Chunking.Chunk>, keys': seq<string>)
    ensures ok == Identified(results)
    ensures ok ==> Fusion(scores', docMap', keys') == AddRanked(Fusion(scores, docMap, keys), results)
  {
    scores', docMap', keys' := scores, docMap, keys;
    var i := 0;
    while i < |results|
      invariant 0 <= i <= |results|
      invariant forall k :: 0 <= k < i ==> "path" in results[k].0.metadata
      invariant Fusion(scores', docMap', keys') == AddRanked(Fusion(scores, docMap, keys), results[..i])
    {
      var rank, doc := i + 1, results[i].0;
      if "path" !in doc.metadata {
        return false, scores', docMap', keys';
      }
      var docId := DocId(doc).value;
      AddRankedSnoc(Fusion(scores, docMap, keys), results, i);
      scores', docMap', keys' := Pass(scores', docMap', keys', docId, doc, rank);
      i := i + 1;
    }
    assert results[..i] == results;
    ok := true;
  }

  /** One pass of the rank loop: `scores[doc_id] = scores.get(doc_id, 0) + 1.0 / (k + rank)` and `doc_map[doc_id] = doc`. */
  method Pass(scores: map<string, real>, docMap: map<string, Chunking.Chunk>, keys: seq<string>, docId: string, doc: Chunking.Chunk, rank: nat)
    returns (scores': map<string, real>, docMap': map<string, Chunking.Chunk>, keys': seq<string>)
    ensures Fusion(scores', docMap', keys') == AddDoc(Fusion(scores, docMap, keys), docId, doc, rank)
  {
    keys' := keys;
    if docId !in scores {
      keys' := keys + [docId];
    }
    scores' := scores[docId := Get(scores, docId) + Contribution(rank)];
    docMap' := docMap[docId := doc];
  }

  /** The rank loop over the first `n + 1` entries is one more pass after the loop over the first `n`. */
  lemma AddRankedSnoc(f: Fusion, rs: Ranked, n: nat)
    requires n < |rs| && DocId(rs[n].0).Some?
    ensures AddRanked(f, rs[..n + 1]) == AddDoc(AddRanked(f, rs[..n]), DocId(rs[n].0).value, rs[n].0, n + 1)
  {
    assert rs[..n + 1][..n] == rs[..n];
  }

  /** The conversion loop. */
  method ToMatches(f: Fusion, sortedDocs: seq<(string, real)>) returns (r: Result<seq<Match>, string>)
    requires Paths(f)
    requires forall k :: 0 <= k < |sortedDocs| ==> sortedDocs[k].0 in f.docs
    ensures r == Convert(f, sortedDocs)
  {
    var matches: seq<Match> := [];
    var k := 0;
    while k < |sortedDocs|
      invariant 0 <= k <= |sortedDocs|
      invariant Convert(f, sortedDocs[..k]) == Success(matches)
    {
      var (docId, score) := sortedDocs[k];
      var doc := f.docs[docId];
      assert sortedDocs[..k + 1][..k] == sortedDocs[..k];
      var m := ToMatch(score, doc);
      if m.None? {
        ConvertFails(f, sortedDocs, k + 1);
        return Failure(ValidationError);
      }
      matches := matches + [m.value];
      k := k + 1;
    }
    assert sortedDocs[..k] == sortedDocs;
    r := Success(matches);
  }

  /** Once the conversion raises it stays raised. */
  lemma {:induction false} ConvertFails(f: Fusion, ranked: seq<(string, real)>, n: nat)
    requires Paths(f)
    requires forall k :: 0 <= k < |ranked| ==> ranked[k].0 in f.docs
    requires n <= |ranked| && Convert(f, ranked[..n]) == Failure(ValidationError)
    ensures Convert(f, ranked) == Failure(ValidationError)
    decreases |ranked| - n
  {
    if n < |ranked| {
      assert ranked[..n + 1][..n] == ranked[..n];
      ConvertFails(f, ranked, n + 1);
    } else {
      assert ranked[..n] == ranked;
    }
  }
}
