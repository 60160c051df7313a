/**
  The BM25 keyword index. The BM25 scorer is a parameter: given the
  tokenised corpus it was built on, the query tokens and a document's
  position, it gives that document's score. The two pickle files in the
  index directory are values that are missing, unreadable or intact.
*/
module KeywordSearch {
  import opened Wrappers
  import opened Text
  import opened Sorting
  import Chunking

  /** The tokenised corpus a `BM25Okapi` object is built on. */
  type Corpus = seq<seq<string>>

  /** `BM25Okapi(corpus).get_scores(query)[i]`. */
  type Scorer = (Corpus, seq<string>, nat) -> real

  /** `s.lower().split()`, used for the documents and the query alike. */
  function Tokenize(s: string): seq<string> {
    Words(Lower(s))
  }

  /** Tokens are non-empty and free of whitespace, spell out the lower-cased text, and ignore case. */
  lemma TokenizeFacts(s: string)
    ensures ProperWords(Tokenize(s))
    ensures Concat(Tokenize(s)) == NonSpace(Lower(s))
    ensures Tokenize(Lower(s)) == Tokenize(s)
  {
    WordsFacts(Lower(s));
    LowerIdempotent(s);
  }

  /** The corpus `build_index` tokenises: one token list per chunk, in chunk order. */
  function TokenizeCorpus(chunks: seq<Chunking.Chunk>): (c: Corpus)
    ensures |c| == |chunks|
    ensures forall i :: 0 <= i < |chunks| ==> c[i] == Tokenize(chunks[i].content)
  {
    if chunks == [] then []
    else TokenizeCorpus(chunks[..|chunks| - 1]) + [Tokenize(chunks[|chunks| - 1].content)]
  }

  /** The score array `get_scores` returns: one score per document of the corpus. */
  function Scores(corpus: Corpus, query: seq<string>, scorer: Scorer): (scores: seq<real>)
    ensures |scores| == |corpus|
  {
    seq(|corpus|, i requires 0 <= i < |corpus| => scorer(corpus, query, i))
  }

  // --------------------------------------------------------------- ranking

  /** `order` lists every position of `scores` once, from the highest score down. */
  predicate IsDescOrder(scores: seq<real>, order: seq<nat>) {
    && |order| == |scores|
    && (forall k :: 0 <= k < |order| ==> order[k] < |scores|)
    && (forall i :: 0 <= i < |scores| ==> i in order)
    && (forall j, k :: 0 <= j < k < |order| ==> scores[order[j]] >= scores[order[k]])
  }

  /** The positions paired with their scores, from the last position to the first. */
  function Indexed(scores: seq<real>): (r: seq<(nat, real)>)
    ensures |r| == |scores|
    ensures forall k :: 0 <= k < |r| ==> r[k] == (|scores| - 1 - k, scores[|scores| - 1 - k])
  {
    seq(|scores|, k requires 0 <= k < |scores| => (|scores| - 1 - k, scores[|scores| - 1 - k]))
  }

  function Firsts(s: seq<(nat, real)>): (r: seq<nat>)
    ensures |r| == |s| && forall k :: 0 <= k < |s| ==> r[k] == s[k].0
  {
    seq(|s|, k requires 0 <= k < |s| => s[k].0)
  }

  /**
    `scores.argsort()[::-1]`: the positions from the highest score down.
    NumPy leaves the order of equal scores open; this one puts the later
    position first.
  */
  function DescOrder(scores: seq<real>): seq<nat> {
    Firsts(SortDesc<nat>(Indexed(scores)))
  }

  /** Each sorted pair is a position with its own score. */
  lemma SortedIndexed(scores: seq<real>)
    ensures var s := SortDesc<nat>(Indexed(scores));
      && |s| == |scores|
      && Descending(s)
      && (forall k :: 0 <= k < |s| ==> s[k].0 < |scores| && s[k].1 == scores[s[k].0])
  {
    var ix := Indexed(scores);
    var s := SortDesc<nat>(ix);
    SortDescFacts<nat>(ix, 0.0);
    forall k | 0 <= k < |s|
      ensures s[k].0 < |scores| && s[k].1 == scores[s[k].0]
    {
      assert s[k] in multiset(s);
      assert s[k] in multiset(ix);
      var j :| 0 <= j < |ix| && ix[j] == s[k];
    }
  }

  /** Every position appears among the sorted pairs. */
  lemma SortedCovers(scores: seq<real>, i: nat)
    requires i < |scores|
    ensures i in DescOrder(scores)
  {
    var ix := Indexed(scores);
    var s := SortDesc<nat>(ix);
    SortDescMembers<nat>(ix, (i, scores[i]));
    assert ix[|scores| - 1 - i] == (i, scores[i]);
    var k :| 0 <= k < |s| && s[k] == (i, scores[i]);
    assert DescOrder(scores)[k] == i;
  }

  lemma DescOrderFacts(scores: seq<real>)
    ensures IsDescOrder(scores, DescOrder(scores))
  {
    SortedIndexed(scores);
    forall i | 0 <= i < |scores|
      ensures i in DescOrder(scores)
    {
      SortedCovers(scores, i);
    }
  }

  /** Python's `a[j:]` starts here: a negative `j` counts from the end. */
  function SliceStart(j: int, n: nat): (start: nat)
    ensures start <= n
  {
    if j >= 0 then (if j <= n then j else n) else if n + j >= 0 then n + j else 0
  }

  /**
    How many positions `argsort()[-top_k:][::-1]` keeps: `top_k` of them
    when there are that many, and all of them for `top_k == 0`, since
    `[-0:]` is the whole array.
  */
  function TopCount(topK: int, n: nat): (m: nat)
    ensures m <= n
    ensures topK >= 1 ==> m == if topK <= n then topK else n
    ensures topK == 0 ==> m == n
  {
    n - SliceStart(-topK, n)
  }

  /** The positions of `idxs` with a positive score, in order. */
  function Positive(scores: seq<real>, idxs: seq<nat>): (p: seq<nat>)
    requires forall k :: 0 <= k < |idxs| ==> idxs[k] < |scores|
    ensures |p| <= |idxs|
    ensures forall k :: 0 <= k < |p| ==> p[k] < |scores| && scores[p[k]] > 0.0
  {
    if idxs == [] then []
    else
      var rest := Positive(scores, idxs[..|idxs| - 1]);
      if scores[idxs[|idxs| - 1]] > 0.0 then rest + [idxs[|idxs| - 1]] else rest
  }

  /** The positions `search` reports: the top `top_k` positions whose score is positive. */
  function Selected(scores: seq<real>, topK: int): seq<nat> {
    Positive(scores, Top(scores, topK))
  }

  lemma {:induction false} PositiveFacts(scores: seq<real>, idxs: seq<nat>)
    requires forall k :: 0 <= k < |idxs| ==> idxs[k] < |scores|
    ensures var p := Positive(scores, idxs);
      && |p| <= |idxs|
      && (forall x :: x in p <==> x in idxs && scores[x] > 0.0)
    decreases |idxs|
  {
    if idxs != [] {
      PositiveFacts(scores, idxs[..|idxs| - 1]);
      assert idxs == idxs[..|idxs| - 1] + [idxs[|idxs| - 1]];
    }
  }

  lemma {:induction false} PositiveOrdered(scores: seq<real>, idxs: seq<nat>)
    requires forall k :: 0 <= k < |idxs| ==> idxs[k] < |scores|
    requires forall j, k :: 0 <= j < k < |idxs| ==> scores[idxs[j]] >= scores[idxs[k]]
    ensures var p := Positive(scores, idxs);
      forall a, b :: 0 <= a < b < |p| ==> scores[p[a]] >= scores[p[b]]
    decreases |idxs|
  {
    if idxs != [] {
      var init, last := idxs[..|idxs| - 1], idxs[|idxs| - 1];
      var rest := Positive(scores, init);
      PositiveOrdered(scores, init);
      PositiveFacts(scores, init);
      forall a | 0 <= a < |rest|
        ensures scores[rest[a]] >= scores[last]
      {
        assert rest[a] in init;
        var j :| 0 <= j < |init| && init[j] == rest[a];
        assert idxs[j] == rest[a];
      }
    }
  }

  /** The positions `Selected` draws from, best first. */
  function Top(scores: seq<real>, topK: int): (top: seq<nat>)
    ensures |top| == TopCount(topK, |scores|)
    ensures forall k :: 0 <= k < |top| ==> top[k] < |scores|
    ensures forall j, k :: 0 <= j < k < |top| ==> scores[top[j]] >= scores[top[k]]
  {
    DescOrderFacts(scores);
    DescOrder(scores)[..TopCount(topK, |scores|)]
  }

  /** A positive position left out of the top ones scores no higher than any of them. */
  lemma TopBeatsRest(scores: seq<real>, topK: int, i: nat)
    requires i < |scores| && i !in Top(scores, topK)
    ensures forall k :: 0 <= k < |Top(scores, topK)| ==> scores[i] <= scores[Top(scores, topK)[k]]
  {
    DescOrderFacts(scores);
    var order := DescOrder(scores);
    var m := TopCount(topK, |scores|);
    var top := Top(scores, topK);
    assert i in order;
    var p :| 0 <= p < |order| && order[p] == i;
    forall k | 0 <= k < |top|
      ensures scores[i] <= scores[top[k]]
    {
      assert top[k] == order[k];
    }
  }

  /**
    Every reported position has a positive score; scores never increase;
    at most `top_k` are reported for `top_k >= 1` and every positive one for
    `top_k == 0`; and a positive position left out scores no higher than any
    reported one.
  */
  lemma SelectedFacts(scores: seq<real>, topK: int)
    ensures var sel := Selected(scores, topK);
      && (forall k :: 0 <= k < |sel| ==> sel[k] < |scores| && scores[sel[k]] > 0.0)
      && (forall a, b :: 0 <= a < b < |sel| ==> scores[sel[a]] >= scores[sel[b]])
      && (topK >= 1 ==> |sel| <= topK)
      && (topK == 0 ==> forall i :: 0 <= i < |scores| && scores[i] > 0.0 ==> i in sel)
      && (forall i :: 0 <= i < |scores| && scores[i] > 0.0 && i !in sel ==>
            forall k :: 0 <= k < |sel| ==> scores[i] <= scores[sel[k]])
  {
    var top := Top(scores, topK);
    var sel := Selected(scores, topK);
    assert sel == Positive(scores, top);
    PositiveFacts(scores, top);
    PositiveOrdered(scores, top);
    forall i | 0 <= i < |scores| && scores[i] > 0.0 && i !in sel
      ensures forall k :: 0 <= k < |sel| ==> scores[i] <= scores[sel[k]]
    {
      TopBeatsRest(scores, topK, i);
      forall k | 0 <= k < |sel|
        ensures scores[i] <= scores[sel[k]]
      {
        assert sel[k] in sel;
        var q :| 0 <= q < |top| && top[q] == sel[k];
      }
    }
    if topK == 0 {
      DescOrderFacts(scores);
      forall i | 0 <= i < |scores| && scores[i] > 0.0
        ensures i in sel
      {
        assert DescOrder(scores)[..|scores|] == DescOrder(scores);
      }
    }
  }

  // ---------------------------------------------------------------- search

  /** The loop over the top positions: a positive score is reported with its document, and a position past the documents raises. */
  function Pick(documents: seq<Chunking.Chunk>, scores: seq<real>, idxs: seq<nat>): Result<seq<(Chunking.Chunk, real)>, string>
    requires forall k :: 0 <= k < |idxs| ==> idxs[k] < |scores|
  {
    if idxs == [] then Success([])
    else match Pick(documents, scores, idxs[..|idxs| - 1])
      case Failure(e) => Failure(e)
      case Success(rs) =>
        var i := idxs[|idxs| - 1];
        if !(scores[i] > 0.0) then Success(rs)
        else if i < |documents| then Success(rs + [(documents[i], scores[i])])
        else Failure(IndexError)
  }

  /** The exception `documents[int(idx)]` raises past the end of the documents. */
  const IndexError: string := "IndexError"

  /** `search`: nothing without an index or documents, otherwise the documents at the selected positions with their scores. */
  function SearchSpec(bm25: Option<Corpus>, documents: seq<Chunking.Chunk>, query: string, topK: int, scorer: Scorer)
    : Result<seq<(Chunking.Chunk, real)>, string>
  {
    if bm25.None? || documents == [] then Success([])
    else
      var scores := Scores(bm25.value, Tokenize(query), scorer);
      Pick(documents, scores, Top(scores, topK))
  }

  /** Every position in `p` has a document. */
  predicate Present(p: seq<nat>, documents: seq<Chunking.Chunk>) {
    forall k :: 0 <= k < |p| ==> p[k] < |documents|
  }

  /** `rs` lists, in order, the documents at the positions `p` with their scores. */
  predicate Reports(rs: seq<(Chunking.Chunk, real)>, p: seq<nat>, documents: seq<Chunking.Chunk>, scores: seq<real>) {
    && |rs| == |p|
    && forall k :: 0 <= k < |p| ==> p[k] < |documents| && p[k] < |scores| && rs[k] == (documents[p[k]], scores[p[k]])
  }

  /** The loop succeeds exactly when every selected position has a document, and then reports those documents. */
  lemma {:induction false} PickPositive(documents: seq<Chunking.Chunk>, scores: seq<real>, idxs: seq<nat>)
    requires forall k :: 0 <= k < |idxs| ==> idxs[k] < |scores|
    ensures Pick(documents, scores, idxs).Success? <==> Present(Positive(scores, idxs), documents)
    ensures Pick(documents, scores, idxs).Success? ==>
      Reports(Pick(documents, scores, idxs).value, Positive(scores, idxs), documents, scores)
    decreases |idxs|
  {
    if idxs != [] {
      var init, i := idxs[..|idxs| - 1], idxs[|idxs| - 1];
      assert forall k :: 0 <= k < |init| ==> init[k] == idxs[k];
      PickPositive(documents, scores, init);
      var p0 := Positive(scores, init);
      var p := Positive(scores, idxs);
      var r0 := Pick(documents, scores, init);
      var r := Pick(documents, scores, idxs);
      if scores[i] > 0.0 {
        assert p == p0 + [i];
        assert forall k :: 0 <= k < |p0| ==> p[k] == p0[k];
        if r0.Failure? {
          assert r.Failure?;
          var k :| 0 <= k < |p0| && p0[k] >= |documents|;
          assert k < |p| && p[k] >= |documents|;
        } else if i >= |documents| {
          assert r.Failure?;
          assert |p0| < |p| && p[|p0|] >= |documents|;
        } else {
          assert r == Success(r0.value + [(documents[i], scores[i])]);
          assert forall k :: 0 <= k < |p0| ==> r.value[k] == r0.value[k];
        }
      } else {
        assert p == p0;
        assert r == r0;
      }
    }
  }

  /**
    What `search` reports: nothing without an index or documents; otherwise,
    unless a selected position has no document (a corpus and document list
    from different saves), exactly the selected positions' documents and
    scores, in order.
  */
  lemma SearchResults(bm25: Option<Corpus>, documents: seq<Chunking.Chunk>, query: string, topK: int, scorer: Scorer)
    ensures bm25.None? || documents == [] ==> SearchSpec(bm25, documents, query, topK, scorer) == Success([])
    ensures bm25.Some? && documents != [] ==>
      var scores := Scores(bm25.value, Tokenize(query), scorer);
      var sel := Selected(scores, topK);
      var r := SearchSpec(bm25, documents, query, topK, scorer);
      && (r.Success? <==> forall k :: 0 <= k < |sel| ==> sel[k] < |documents|)
      && (r.Success? ==> |r.value| == |sel| && forall k :: 0 <= k < |sel| ==> r.value[k] == (documents[sel[k]], scores[sel[k]]))
  {
    if bm25.Some? && documents != [] {
      var scores := Scores(bm25.value, Tokenize(query), scorer);
      assert SearchSpec(bm25, documents, query, topK, scorer) == Pick(documents, scores, Top(scores, topK));
      assert Selected(scores, topK) == Positive(scores, Top(scores, topK));
      PickPositive(documents, scores, Top(scores, topK));
    }
  }

  /**
    On an index built from its own documents, `search` never fails, reports
    at most `top_k` documents for `top_k >= 1`, each with a positive score,
    from the highest score down.
  */
  lemma SearchBuilt(chunks: seq<Chunking.Chunk>, query: string, topK: int, scorer: Scorer)
    ensures var r := SearchSpec(Some(TokenizeCorpus(chunks)), chunks, query, topK, scorer);
      && r.Success?
      && (topK >= 1 ==> |r.value| <= topK)
      && (forall k :: 0 <= k < |r.value| ==> r.value[k].1 > 0.0 && r.value[k].0 in chunks)
      && Descending(r.value)
  {
    var corpus := TokenizeCorpus(chunks);
    var scores := Scores(corpus, Tokenize(query), scorer);
    var sel := Selected(scores, topK);
    var r := SearchSpec(Some(corpus), chunks, query, topK, scorer);
    if chunks != [] {
      SearchResults(Some(corpus), chunks, query, topK, scorer);
      SelectedFacts(scores, topK);
      assert |scores| == |chunks|;
      assert r.Success?;
      forall k | 0 <= k < |r.value|
        ensures r.value[k].1 == scores[sel[k]] > 0.0 && r.value[k].0 in chunks
      {
        assert r.value[k] == (chunks[sel[k]], scores[sel[k]]);
      }
    }
  }

  // ----------------------------------------------------------------- files

  /** A pickle file: absent, present but failing to load, or holding a value. */
  datatype Stored<T> = Missing | Corrupt | Intact(value: T)

  /** `bm25.pkl` and `bm25_docs.pkl` in the index directory. */
  class KeywordFiles {
    var bm25Pkl: Stored<Corpus>
    var docsPkl: Stored<seq<Chunking.Chunk>>

    constructor (bm25Pkl: Stored<Corpus>, docsPkl: Stored<seq<Chunking.Chunk>>)
      ensures this.bm25Pkl == bm25Pkl && this.docsPkl == docsPkl
    {
      this.bm25Pkl := bm25Pkl;
      this.docsPkl := docsPkl;
    }
  }

  /** The outcome of `load`: the flag, then the index and documents afterwards. */
  datatype Loaded = Loaded(ok: bool, bm25: Option<Corpus>, documents: seq<Chunking.Chunk>)

  /**
    `load`: false without touching anything when a file is missing or the
    index pickle fails; when only the documents pickle fails the index has
    already been replaced.
  */
  function LoadSpec(bm25: Option<Corpus>, documents: seq<Chunking.Chunk>,
                    bm25Pkl: Stored<Corpus>, docsPkl: Stored<seq<Chunking.Chunk>>): Loaded {
    if bm25Pkl.Missing? || docsPkl.Missing? then Loaded(false, bm25, documents)
    else if bm25Pkl.Corrupt? then Loaded(false, bm25, documents)
    else if docsPkl.Corrupt? then Loaded(false, Some(bm25Pkl.value), documents)
    else Loaded(true, Some(bm25Pkl.value), docsPkl.value)
  }

  /**
    `load` reports success exactly when both files hold a value and then
    takes both; a failed load keeps the documents and, unless only the
    documents pickle failed, the index.
  */
  lemma LoadOutcome(bm25: Option<Corpus>, documents: seq<Chunking.Chunk>,
                    bm25Pkl: Stored<Corpus>, docsPkl: Stored<seq<Chunking.Chunk>>)
    ensures var r := LoadSpec(bm25, documents, bm25Pkl, docsPkl);
      && (r.ok <==> bm25Pkl.Intact? && docsPkl.Intact?)
      && (r.ok ==> r.bm25 == Some(bm25Pkl.value) && r.documents == docsPkl.value)
      && (!r.ok ==> r.documents == documents)
      && (!r.ok && r.bm25 != bm25 ==> bm25Pkl.Intact? && docsPkl.Corrupt?)
  {
  }

  /** `KeywordIndex`: the BM25 object (as its corpus) and the documents, beside its two files. */
  class KeywordIndex {
    const files: KeywordFiles
    var bm25: Option<Corpus>
    var documents: seq<Chunking.Chunk>

    constructor (files: KeywordFiles)
      ensures this.files == files && bm25 == None && documents == []
    {
      this.files := files;
      bm25 := None;
      documents := [];
    }

    /** `build_index`: keep the chunks as the documents and build BM25 over their tokens. */
    method BuildIndex(chunks: seq<Chunking.Chunk>)
      modifies this
      ensures documents == chunks && bm25 == Some(TokenizeCorpus(chunks))
    {
      documents := chunks;
      bm25 := Some(TokenizeCorpus(chunks));
    }

    /** `save`: nothing without an index, otherwise both pickles are written. */
    method Save()
      modifies files
      ensures bm25.None? ==> files.bm25Pkl == old(files.bm25Pkl) && files.docsPkl == old(files.docsPkl)
      ensures bm25.Some? ==> files.bm25Pkl == Intact(bm25.value) && files.docsPkl == Intact(documents)
    {
      if bm25.None? {
        return;
      }
      files.bm25Pkl := Intact(bm25.value);
      files.docsPkl := Intact(documents);
    }

    /** `load`. */
    method Load() returns (ok: bool)
      modifies this
      ensures Loaded(ok, bm25, documents) == LoadSpec(old(bm25), old(documents), files.bm25Pkl, files.docsPkl)
    {
      if files.bm25Pkl.Missing? || files.docsPkl.Missing? {
        return false;
      }
      if files.bm25Pkl.Corrupt? {
        return false;
      }
      bm25 := Some(files.bm25Pkl.value);
      if files.docsPkl.Corrupt? {
        return false;
      }
      documents := files.docsPkl.value;
      return true;
    }

    /** `search`. */
    method Search(query: string, topK: int, scorer: Scorer) returns (r: Result<seq<(Chunking.Chunk, real)>, string>)
      ensures r == SearchSpec(bm25, documents, query, topK, scorer)
    {
      if bm25.None? || documents == [] {
        return Success([]);
      }
      var docs := documents;
      var scores := Scores(bm25.value, Tokenize(query), scorer);
      var top := Top(scores, topK);
      var results: seq<(Chunking.Chunk, real)> := [];
      var k := 0;
      while k < |top|
        invariant 0 <= k <= |top|
        invariant Pick(docs, scores, top[..k]) == Success(results)
      {
        var idx := top[k];
        assert top[..k + 1][..k] == top[..k];
        if scores[idx] > 0.0 {
          if idx >= |docs| {
            assert Pick(docs, scores, top[..k + 1]) == Failure(IndexError);
            PickFails(docs, scores, top, k + 1);
            return Failure(IndexError);
          }
          results := results + [(docs[idx], scores[idx])];
        }
        k := k + 1;
      }
      assert top[..k] == top;
      r := Success(results);
    }
  }

  /** Once the loop raises it stays raised. */
  lemma {:induction false} PickFails(documents: seq<Chunking.Chunk>, scores: seq<real>, idxs: seq<nat>, n: nat)
    requires forall k :: 0 <= k < |idxs| ==> idxs[k] < |scores|
    requires n <= |idxs| && Pick(documents, scores, idxs[..n]) == Failure(IndexError)
    ensures Pick(documents, scores, idxs) == Failure(IndexError)
    decreases |idxs| - n
  {
    if n < |idxs| {
      assert idxs[..n + 1][..n] == idxs[..n];
      PickFails(documents, scores, idxs, n + 1);
    } else {
      assert idxs[..n] == idxs;
    }
  }

  /** Saving a built index and loading it back restores it. */
  method SaveThenLoad(index: KeywordIndex) returns (ok: bool)
    requires index.bm25.Some?
    modifies index, index.files
    ensures ok && index.bm25 == old(index.bm25) && index.documents == old(index.documents)
  {
    index.Save();
    ok := index.Load();
  }
}
