/**
 * `AdvancedHybridRetriever` of backend/app/services/advanced_hybrid_retriever.py:
 * a document list with parallel metadata, a BM25+ or BM25L index rebuilt
 * over the tokenized documents on every upload, a DPR passage index, and
 * a search that fuses the lexical and dense scores with mode-dependent
 * weights.
 */
module AdvancedRetriever {
  import opened Common
  import opened Text
  import opened Ranking
  import opened BM25
  import opened DPR
  import opened Fusion

  // ---------------------------------------------------------------------
  // Tokenizer (`_preprocess_text`).
  // ---------------------------------------------------------------------

  /** Python's `string.punctuation`. */
  const Punctuation: string := "!\"#$%&'()*+,-./:;<=>?@[\\]^_`{|}~"

  predicate IsPunctuation(c: char) { c in Punctuation }

  /** `s.translate(str.maketrans('', '', string.punctuation))`: the characters of `s` that are not punctuation, in order. */
  function RemovePunctuation(s: string): (r: string)
    ensures |r| <= |s|
    ensures forall i :: 0 <= i < |r| ==> !IsPunctuation(r[i])
    decreases |s|
  {
    if s == [] then []
    else
      var rest := RemovePunctuation(s[1..]);
      if IsPunctuation(s[0]) then rest else [s[0]] + rest
  }

  /** Removing punctuation keeps any property every character of the input has. */
  lemma {:induction false} RemovePunctuationKeeps(s: string, p: char -> bool)
    requires forall i :: 0 <= i < |s| ==> p(s[i])
    ensures forall i :: 0 <= i < |RemovePunctuation(s)| ==> p(RemovePunctuation(s)[i])
    decreases |s|
  {
    if s != [] {
      RemovePunctuationKeeps(s[1..], p);
    }
  }

  /** A string without punctuation is left as it is. */
  lemma {:induction false} RemovePunctuationFixed(s: string)
    requires forall i :: 0 <= i < |s| ==> !IsPunctuation(s[i])
    ensures RemovePunctuation(s) == s
    decreases |s|
  {
    if s != [] {
      RemovePunctuationFixed(s[1..]);
      assert [s[0]] + s[1..] == s;
    }
  }

  /** `[token for token in tokens if len(token) > 1]` */
  function LongTokens(tokens: seq<string>): (r: seq<string>)
    ensures forall w :: w in r <==> w in tokens && |w| > 1
    decreases |tokens|
  {
    if tokens == [] then []
    else
      var rest := LongTokens(tokens[1..]);
      assert forall w :: w in tokens <==> w == tokens[0] || w in tokens[1..];
      if |tokens[0]| > 1 then [tokens[0]] + rest else rest
  }

  /** `_preprocess_text`: lower-case, drop punctuation, split on whitespace, keep tokens longer than one character. */
  function Tokenize(text: string): (tokens: seq<string>)
    ensures forall i :: 0 <= i < |tokens| ==> |tokens[i]| > 1 && NoSpace(tokens[i])
    ensures forall i, j :: 0 <= i < |tokens| && 0 <= j < |tokens[i]| ==>
      !IsUpper(tokens[i][j]) && !IsPunctuation(tokens[i][j])
  {
    var tokens := LongTokens(Words(RemovePunctuation(Lower(text))));
    TokensShape(text, tokens);
    tokens
  }

  /** The long words of the cleaned text are longer than one character, without whitespace, upper case or punctuation. */
  lemma TokensShape(text: string, tokens: seq<string>)
    requires tokens == LongTokens(Words(RemovePunctuation(Lower(text))))
    ensures forall i :: 0 <= i < |tokens| ==> |tokens[i]| > 1 && NoSpace(tokens[i])
    ensures forall i, j :: 0 <= i < |tokens| && 0 <= j < |tokens[i]| ==> !IsUpper(tokens[i][j]) && !IsPunctuation(tokens[i][j])
  {
    var words := Words(RemovePunctuation(Lower(text)));
    CleanWords(text);
    forall i | 0 <= i < |tokens|
      ensures |tokens[i]| > 1 && NoSpace(tokens[i])
      ensures forall j :: 0 <= j < |tokens[i]| ==> !IsUpper(tokens[i][j]) && !IsPunctuation(tokens[i][j])
    {
      assert tokens[i] in words;
    }
  }

  /** The words of the cleaned text hold no upper-case letter and no punctuation. */
  lemma CleanWords(text: string)
    ensures forall w, j :: w in Words(RemovePunctuation(Lower(text))) && 0 <= j < |w| ==> !IsUpper(w[j]) && !IsPunctuation(w[j])
  {
    var lowered := Lower(text);
    var cleaned := RemovePunctuation(lowered);
    RemovePunctuationKeeps(lowered, c => !IsUpper(c));
    WordsKeep(cleaned, c => !IsUpper(c) && !IsPunctuation(c));
  }

  /** `[self._preprocess_text(doc) for doc in self.documents]` */
  function TokenizeAll(documents: seq<string>): (r: seq<seq<string>>)
    ensures |r| == |documents| && forall i :: 0 <= i < |documents| ==> r[i] == Tokenize(documents[i])
  {
    seq(|documents|, i requires 0 <= i < |documents| => Tokenize(documents[i]))
  }

  /** Every whitespace-separated word of the cleaned text that is longer than one character is a token. */
  lemma TokenizeKeeps(text: string, w: string)
    requires w in Words(RemovePunctuation(Lower(text))) && |w| > 1
    ensures w in Tokenize(text)
  {
  }

  // ---------------------------------------------------------------------
  // BM25 variant and fusion weights.
  // ---------------------------------------------------------------------

  /** The scorer built for `use_bm25_variant`, with the library defaults `k1 = 1.2`, `b = 0.75`. */
  function VariantParams(variant: string): (p: Option<Params>)
    ensures p.Some? <==> variant == "bm25_plus" || variant == "bm25l"
    ensures p.Some? ==> p.value.InRange() && p.value.k1 == 1.2 && p.value.b == 0.75
    ensures variant == "bm25_plus" ==> p.value.variant == BM25Plus && p.value.delta == 1.0
    ensures variant == "bm25l" ==> p.value.variant == BM25L && p.value.delta == 0.5
  {
    if variant == "bm25_plus" then Some(Params(BM25Plus, 1.2, 0.75, 1.0))
    else if variant == "bm25l" then Some(Params(BM25L, 1.2, 0.75, 0.5))
    else None
  }

  /** `{"bm25": w1, "dpr": w2}` */
  datatype Weights = Weights(bm25: real, dpr: real)

  /**
   * The weights a search uses: the mode, compared case-insensitively,
   * favours lexical matching for "normal" and dense similarity for "pro";
   * any other mode keeps the instance weights.
   */
  function ModeWeights(mode: string, instance: Weights): (w: Weights)
    ensures Lower(mode) == "normal" ==> w.bm25 + w.dpr == 1.0 && w.bm25 > w.dpr && w.dpr == 0.3
    ensures Lower(mode) == "pro" ==> w.bm25 + w.dpr == 1.0 && w.dpr > w.bm25 && w.bm25 == 0.3
    ensures Lower(mode) != "normal" && Lower(mode) != "pro" ==> w == instance
  {
    var m := Lower(mode);
    if m == "normal" then Weights(0.7, 0.3)
    else if m == "pro" then Weights(0.3, 0.7)
    else instance
  }

  // ---------------------------------------------------------------------
  // Dense scores per document.
  // ---------------------------------------------------------------------

  /** `dpr_scores` after the mapping loop: each hit writes its score at its index when that index is in range. */
  function DenseScores(hits: seq<DenseHit>, n: nat): (r: seq<real>)
    ensures |r| == n
  {
    if hits == [] then seq(n, _ => 0.0)
    else
      var last := hits[|hits| - 1];
      var prev := DenseScores(hits[..|hits| - 1], n);
      if last.docIndex < n then prev[last.docIndex := last.score] else prev
  }

  /** A document no hit names keeps 0.0. */
  lemma {:induction false} DenseScoresUnnamed(hits: seq<DenseHit>, n: nat, j: nat)
    requires j < n && forall k :: 0 <= k < |hits| ==> hits[k].docIndex != j
    ensures DenseScores(hits, n)[j] == 0.0
    decreases |hits|
  {
    if hits != [] {
      var m := |hits| - 1;
      assert hits[m].docIndex != j;
      DenseScoresUnnamed(hits[..m], n, j);
    }
  }

  /** A document named by a hit gets the score of the last hit naming it. */
  lemma {:induction false} DenseScoresLast(hits: seq<DenseHit>, n: nat, k: nat)
    requires k < |hits| && hits[k].docIndex < n
    requires forall l :: k < l < |hits| ==> hits[l].docIndex != hits[k].docIndex
    ensures DenseScores(hits, n)[hits[k].docIndex] == hits[k].score
    decreases |hits|
  {
    var m := |hits| - 1;
    if k < m {
      assert hits[m].docIndex != hits[k].docIndex;
      assert hits[..m][k] == hits[k];
      DenseScoresLast(hits[..m], n, k);
    }
  }

  /** The `for result in dpr_results` loop. */
  method ScatterDense(hits: seq<DenseHit>, n: nat) returns (scores: seq<real>)
    ensures scores == DenseScores(hits, n)
  {
    scores := seq(n, _ => 0.0);
    var k := 0;
    while k < |hits|
      invariant 0 <= k <= |hits|
      invariant scores == DenseScores(hits[..k], n)
    {
      assert hits[..k + 1][..k] == hits[..k];
      var docIdx := hits[k].docIndex;
      if docIdx < n {
        scores := scores[docIdx := hits[k].score];
      }
      k := k + 1;
    }
    assert hits[..k] == hits;
  }

  function DenseIndexOf(h: DenseHit): int { h.docIndex }

  /**
   * A search asking for all `n` passages returns every index once, so the
   * scattered scores are exactly the similarities.
   */
  lemma DenseCoverage(hits: seq<DenseHit>, sims: seq<real>)
    requires |hits| == |sims|
    requires forall k :: 0 <= k < |hits| ==> hits[k].docIndex < |sims| && hits[k].score == sims[hits[k].docIndex]
    requires forall k, l :: 0 <= k < l < |hits| ==> hits[k].docIndex != hits[l].docIndex
    ensures DenseScores(hits, |sims|) == sims
  {
    var n := |sims|;
    assert DistinctPos(hits, DenseIndexOf);
    forall j | 0 <= j < n ensures DenseScores(hits, n)[j] == sims[j] {
      Pigeonhole(hits, DenseIndexOf, j);
      var k :| 0 <= k < |hits| && DenseIndexOf(hits[k]) == j;
      DenseScoresLast(hits, n, k);
    }
  }

  // ---------------------------------------------------------------------
  // Search results.
  // ---------------------------------------------------------------------

  /** A search result: a weighted-sum hit, or a rank-fusion hit; both carry the weights used. */
  datatype SearchHit =
    | WeightedHit(passage: string, score: real, bm25Score: real, dprScore: real, metadata: Metadata, docIndex: nat,
                  weights: Weights)
    | RankedHit(fused: FusedHit, weights: Weights)

  /** The key the weighted-sum results are sorted on. */
  function HitScore(h: SearchHit): real {
    match h
    case WeightedHit(_, score, _, _, _, _, _) => score
    case RankedHit(f, _) => f.rrfScore
  }

  function HitIndex(h: SearchHit): int {
    match h
    case WeightedHit(_, _, _, _, _, i, _) => i
    case RankedHit(f, _) => if f.item.docIndex.Some? then f.item.docIndex.value else -1
  }

  /** The fused scores of the weighted-sum branch. */
  function FusedScores(bm25Scores: seq<real>, dense: seq<real>, w: Weights, normalize: bool): (r: seq<real>)
    requires |bm25Scores| == |dense|
    ensures |r| == |bm25Scores|
  {
    WeightedSumFusion(bm25Scores, dense, w.bm25, w.dpr, normalize).value
  }

  /** The weighted-sum hit of document `i`. */
  function WeightedHitAt(documents: seq<string>, metadata: seq<Metadata>, bm25Scores: seq<real>, dense: seq<real>,
                         w: Weights, normalize: bool, i: nat): SearchHit
    requires |metadata| == |documents| == |bm25Scores| == |dense| && i < |documents|
  {
    WeightedHit(documents[i], FusedScores(bm25Scores, dense, w, normalize)[i], bm25Scores[i], dense[i], metadata[i], i, w)
  }

  /** The unsorted weighted-sum results, one per document in order. */
  function WeightedHits(documents: seq<string>, metadata: seq<Metadata>, bm25Scores: seq<real>, dense: seq<real>,
                        w: Weights, normalize: bool): (r: seq<SearchHit>)
    requires |metadata| == |documents| == |bm25Scores| == |dense|
    ensures |r| == |documents|
    ensures forall i :: 0 <= i < |r| ==> r[i] == WeightedHitAt(documents, metadata, bm25Scores, dense, w, normalize, i)
  {
    seq(|documents|, i requires 0 <= i < |documents| => WeightedHitAt(documents, metadata, bm25Scores, dense, w, normalize, i))
  }

  /** The weighted-sum branch of `search`, before the final slice: the hits sorted by fused score. */
  function WeightedRanking(documents: seq<string>, metadata: seq<Metadata>, bm25Scores: seq<real>, dense: seq<real>,
                           w: Weights, normalize: bool): seq<SearchHit>
    requires |metadata| == |documents| == |bm25Scores| == |dense|
  {
    SortDesc(WeightedHits(documents, metadata, bm25Scores, dense, w, normalize), HitScore)
  }

  /** The loop that builds the weighted-sum results, followed by the sort. */
  method WeightedResults(documents: seq<string>, metadata: seq<Metadata>, bm25Scores: seq<real>, dense: seq<real>,
                         w: Weights, normalize: bool) returns (results: seq<SearchHit>)
    requires |metadata| == |documents| == |bm25Scores| == |dense|
    ensures results == WeightedRanking(documents, metadata, bm25Scores, dense, w, normalize)
  {
    var fused := WeightedSumFusion(bm25Scores, dense, w.bm25, w.dpr, normalize).value;
    var hits: seq<SearchHit> := [];
    var i := 0;
    while i < |documents|
      invariant 0 <= i <= |documents|
      invariant hits == WeightedHits(documents, metadata, bm25Scores, dense, w, normalize)[..i]
    {
      hits := hits + [WeightedHit(documents[i], fused[i], bm25Scores[i], dense[i], metadata[i], i, w)];
      i := i + 1;
    }
    assert hits == WeightedHits(documents, metadata, bm25Scores, dense, w, normalize);
    results := SortDesc(hits, HitScore);
  }

  /** Every sorted hit is the weighted-sum hit of a document; no document appears twice; order is by score, then index. */
  lemma WeightedRankingOrder(documents: seq<string>, metadata: seq<Metadata>, bm25Scores: seq<real>, dense: seq<real>,
                             w: Weights, normalize: bool)
    requires |metadata| == |documents| == |bm25Scores| == |dense|
    ensures var sorted := WeightedRanking(documents, metadata, bm25Scores, dense, w, normalize);
      && (forall k :: 0 <= k < |sorted| ==>
            sorted[k].WeightedHit? && sorted[k].docIndex < |documents|
            && sorted[k] == WeightedHitAt(documents, metadata, bm25Scores, dense, w, normalize, sorted[k].docIndex))
      && LexDesc(sorted, HitScore, HitIndex) && DistinctPos(sorted, HitIndex)
  {
    var hits := WeightedHits(documents, metadata, bm25Scores, dense, w, normalize);
    var sorted := SortDesc(hits, HitScore);
    assert IncreasingPos(hits, HitIndex);
    SortDescStable(hits, HitScore, HitIndex);
    forall k | 0 <= k < |sorted|
      ensures sorted[k].WeightedHit? && sorted[k].docIndex < |documents|
      ensures sorted[k] == WeightedHitAt(documents, metadata, bm25Scores, dense, w, normalize, sorted[k].docIndex)
    {
      assert sorted[k] in multiset(hits);
    }
  }

  /** A document the slice leaves out has a fused score no higher than any hit returned. */
  lemma WeightedRankingExcluded(documents: seq<string>, metadata: seq<Metadata>, bm25Scores: seq<real>, dense: seq<real>,
                                w: Weights, normalize: bool, topK: int, j: nat)
    requires |metadata| == |documents| == |bm25Scores| == |dense| && j < |documents|
    requires var r := PyPrefix(WeightedRanking(documents, metadata, bm25Scores, dense, w, normalize), topK);
      forall k :: 0 <= k < |r| ==> HitIndex(r[k]) != j
    ensures var r := PyPrefix(WeightedRanking(documents, metadata, bm25Scores, dense, w, normalize), topK);
      forall k :: 0 <= k < |r| ==> FusedScores(bm25Scores, dense, w, normalize)[j] <= HitScore(r[k])
  {
    var hits := WeightedHits(documents, metadata, bm25Scores, dense, w, normalize);
    var r := PyPrefix(SortDesc(hits, HitScore), topK);
    assert hits[j] in hits;
    assert HitIndex(hits[j]) == j;
    PrefixExcluded(hits, HitScore, topK, hits[j]);
  }

  /**
   * The first `topK` weighted-sum results: `min(topK, n)` of them for
   * `topK >= 0`, each the hit of one document with its own passage,
   * metadata and scores, no document twice, highest fused score first and
   * equal scores in document order, and no document left out with a
   * fused score above one returned.
   */
  lemma WeightedRankingSpec(documents: seq<string>, metadata: seq<Metadata>, bm25Scores: seq<real>, dense: seq<real>,
                            w: Weights, normalize: bool, topK: int)
    requires |metadata| == |documents| == |bm25Scores| == |dense|
    ensures var r := PyPrefix(WeightedRanking(documents, metadata, bm25Scores, dense, w, normalize), topK);
      && (topK >= 0 ==> |r| == Min(topK, |documents|))
      && (forall k :: 0 <= k < |r| ==>
            r[k].WeightedHit? && r[k].docIndex < |documents|
            && r[k] == WeightedHitAt(documents, metadata, bm25Scores, dense, w, normalize, r[k].docIndex))
      && (forall k, l :: 0 <= k < l < |r| ==>
            r[k].docIndex != r[l].docIndex
            && (r[k].score > r[l].score || (r[k].score == r[l].score && r[k].docIndex < r[l].docIndex)))
      && (forall j :: 0 <= j < |documents| && (forall k :: 0 <= k < |r| ==> r[k].docIndex != j) ==>
            forall k :: 0 <= k < |r| ==> FusedScores(bm25Scores, dense, w, normalize)[j] <= r[k].score)
  {
    var sorted := WeightedRanking(documents, metadata, bm25Scores, dense, w, normalize);
    var r := PyPrefix(sorted, topK);
    WeightedRankingOrder(documents, metadata, bm25Scores, dense, w, normalize);
    forall k | 0 <= k < |r|
      ensures r[k].WeightedHit? && r[k].docIndex < |documents|
      ensures r[k] == WeightedHitAt(documents, metadata, bm25Scores, dense, w, normalize, r[k].docIndex)
    {
      assert r[k] == sorted[k];
    }
    forall k, l | 0 <= k < l < |r|
      ensures r[k].docIndex != r[l].docIndex
      ensures r[k].score > r[l].score || (r[k].score == r[l].score && r[k].docIndex < r[l].docIndex)
    {
      assert r[k] == sorted[k] && r[l] == sorted[l];
      assert HitIndex(r[k]) != HitIndex(r[l]);
      assert HitScore(r[k]) > HitScore(r[l]) || (HitScore(r[k]) == HitScore(r[l]) && HitIndex(r[k]) < HitIndex(r[l]));
    }
    forall j | 0 <= j < |documents| && (forall k :: 0 <= k < |r| ==> r[k].docIndex != j)
      ensures forall k :: 0 <= k < |r| ==> FusedScores(bm25Scores, dense, w, normalize)[j] <= r[k].score
    {
      WeightedRankingExcluded(documents, metadata, bm25Scores, dense, w, normalize, topK, j);
    }
  }

  // ---------------------------------------------------------------------
  // The rank-fusion branch.
  // ---------------------------------------------------------------------

  function CandidateScore(c: Candidate): real { c.score }

  /** The BM25 result of document `i`. */
  function BM25Candidate(documents: seq<string>, metadata: seq<Metadata>, bm25Scores: seq<real>, i: nat): Candidate
    requires |metadata| == |documents| == |bm25Scores| && i < |documents|
  {
    Candidate(documents[i], bm25Scores[i], metadata[i], Some(i))
  }

  /** The BM25 results in document order, before sorting. */
  function BM25Candidates(documents: seq<string>, metadata: seq<Metadata>, bm25Scores: seq<real>): (r: seq<Candidate>)
    requires |metadata| == |documents| == |bm25Scores|
    ensures |r| == |documents|
    ensures forall i :: 0 <= i < |r| ==> r[i] == BM25Candidate(documents, metadata, bm25Scores, i)
  {
    seq(|documents|, i requires 0 <= i < |documents| => BM25Candidate(documents, metadata, bm25Scores, i))
  }

  /** The loop that builds `bm25_results`, followed by the sort by score. */
  method BM25Results(documents: seq<string>, metadata: seq<Metadata>, bm25Scores: seq<real>) returns (results: seq<Candidate>)
    requires |metadata| == |documents| == |bm25Scores|
    ensures results == SortDesc(BM25Candidates(documents, metadata, bm25Scores), CandidateScore)
  {
    var unsorted: seq<Candidate> := [];
    var i := 0;
    while i < |documents|
      invariant 0 <= i <= |documents|
      invariant unsorted == BM25Candidates(documents, metadata, bm25Scores)[..i]
    {
      unsorted := unsorted + [Candidate(documents[i], bm25Scores[i], metadata[i], Some(i))];
      i := i + 1;
    }
    assert unsorted == BM25Candidates(documents, metadata, bm25Scores);
    results := SortDesc(unsorted, CandidateScore);
  }

  /** The DPR hits as rank-fusion input. */
  function DenseCandidates(hits: seq<DenseHit>): (r: seq<Candidate>)
    ensures |r| == |hits|
    ensures forall k :: 0 <= k < |r| ==> r[k] == Candidate(hits[k].passage, hits[k].score, hits[k].metadata, Some(hits[k].docIndex))
  {
    seq(|hits|, k requires 0 <= k < |hits| => Candidate(hits[k].passage, hits[k].score, hits[k].metadata, Some(hits[k].docIndex)))
  }

  /** The sorted BM25 results rank exactly the documents. */
  lemma BM25Keys(documents: seq<string>, metadata: seq<Metadata>, bm25Scores: seq<real>, id: nat)
    requires |metadata| == |documents| == |bm25Scores|
    ensures id in RankTable(SortDesc(BM25Candidates(documents, metadata, bm25Scores), CandidateScore)) <==> id < |documents|
  {
    var cands := BM25Candidates(documents, metadata, bm25Scores);
    var r1 := SortDesc(cands, CandidateScore);
    RankTableSpec(r1, id);
    if id < |documents| {
      assert cands[id] in multiset(r1);
      var p :| 0 <= p < |r1| && r1[p] == cands[id];
      assert RankKey(r1, p) == id;
    }
    if exists i :: 0 <= i < |r1| && RankKey(r1, i) == id {
      var i :| 0 <= i < |r1| && RankKey(r1, i) == id;
      assert r1[i] in multiset(cands);
    }
  }

  /** The dense results rank only documents. */
  lemma DenseKeys(hits: seq<DenseHit>, n: nat, id: nat)
    requires forall k :: 0 <= k < |hits| ==> hits[k].docIndex < n
    ensures id in RankTable(DenseCandidates(hits)) ==> id < n
  {
    RankTableSpec(DenseCandidates(hits), id);
  }

  /** The first result for document `j` in the combined lists is its BM25 result. */
  lemma FirstIsBM25(documents: seq<string>, metadata: seq<Metadata>, bm25Scores: seq<real>, hits: seq<DenseHit>, j: nat)
    requires |metadata| == |documents| == |bm25Scores| && j < |documents|
    ensures FirstWith(SortDesc(BM25Candidates(documents, metadata, bm25Scores), CandidateScore) + DenseCandidates(hits), Some(j))
         == Some(BM25Candidate(documents, metadata, bm25Scores, j))
  {
    var cands := BM25Candidates(documents, metadata, bm25Scores);
    var r1 := SortDesc(cands, CandidateScore);
    var all := r1 + DenseCandidates(hits);
    assert cands[j] in multiset(r1);
    var p :| 0 <= p < |r1| && r1[p] == cands[j];
    assert all[p] == cands[j];
    FirstWithSpec(all, Some(j));
    var i :| 0 <= i < |all| && all[i] == FirstWith(all, Some(j)).value && all[i].docIndex == Some(j)
      && forall q :: 0 <= q < i ==> all[q].docIndex != Some(j);
    assert i <= p;
    assert all[i] == r1[i];
    assert r1[i] in multiset(cands);
  }

  function FusedIndex(h: FusedHit): int {
    if h.item.docIndex.Some? then h.item.docIndex.value else -1
  }

  /** `for result in results: result["fusion_weights"] = ...` */
  method WithWeights(fused: seq<FusedHit>, w: Weights) returns (results: seq<SearchHit>)
    ensures |results| == |fused| && forall m :: 0 <= m < |fused| ==> results[m] == RankedHit(fused[m], w)
  {
    results := [];
    var m := 0;
    while m < |fused|
      invariant 0 <= m <= |fused|
      invariant |results| == m && forall q :: 0 <= q < m ==> results[q] == RankedHit(fused[q], w)
    {
      results := results + [RankedHit(fused[m], w)];
      m := m + 1;
    }
  }

  /** The ids ranked by the BM25 and dense results are exactly the documents. */
  lemma AllIdsAreDocuments(documents: seq<string>, metadata: seq<Metadata>, bm25Scores: seq<real>, hits: seq<DenseHit>)
    requires |metadata| == |documents| == |bm25Scores|
    requires forall k :: 0 <= k < |hits| ==> hits[k].docIndex < |documents|
    ensures forall id: nat ::
      (id in AllIds(SortDesc(BM25Candidates(documents, metadata, bm25Scores), CandidateScore), DenseCandidates(hits)) <==> id < |documents|)
  {
    forall id: nat
      ensures id in AllIds(SortDesc(BM25Candidates(documents, metadata, bm25Scores), CandidateScore), DenseCandidates(hits))
        <==> id < |documents|
    {
      BM25Keys(documents, metadata, bm25Scores, id);
      DenseKeys(hits, |documents|, id);
    }
  }

  /** `rank_fusion(bm25_results, dpr_results)` on this retriever's inputs. */
  method FuseRanks(documents: seq<string>, metadata: seq<Metadata>, bm25Scores: seq<real>, hits: seq<DenseHit>)
    returns (fused: seq<FusedHit>)
    requires |metadata| == |documents| == |bm25Scores|
    requires forall k :: 0 <= k < |hits| ==> hits[k].docIndex < |documents|
    ensures |fused| == |documents|
    ensures forall m :: 0 <= m < |fused| ==>
      && 0 <= FusedIndex(fused[m]) < |documents|
      && fused[m].item == BM25Candidate(documents, metadata, bm25Scores, FusedIndex(fused[m]))
      && fused[m].rrfScore == RrfScore(SortDesc(BM25Candidates(documents, metadata, bm25Scores), CandidateScore),
                                       DenseCandidates(hits), 60, FusedIndex(fused[m]))
    ensures forall m, l :: 0 <= m < l < |fused| ==>
      FusedIndex(fused[m]) != FusedIndex(fused[l]) && fused[m].rrfScore >= fused[l].rrfScore
  {
    var bm25Results := BM25Results(documents, metadata, bm25Scores);
    var dense := DenseCandidates(hits);
    fused := RankFusion(bm25Results, dense);
    AllIdsAreDocuments(documents, metadata, bm25Scores, hits);
    forall m | 0 <= m < |fused|
      ensures 0 <= FusedIndex(fused[m]) < |documents|
      ensures fused[m].item == BM25Candidate(documents, metadata, bm25Scores, FusedIndex(fused[m]))
    {
      FirstIsBM25(documents, metadata, bm25Scores, hits, fused[m].item.docIndex.value);
    }
    forall j | j in Range(|documents|) ensures exists m :: 0 <= m < |fused| && FusedIndex(fused[m]) == j {
      FirstIsBM25(documents, metadata, bm25Scores, hits, j);
      var m :| 0 <= m < |fused| && fused[m].item.docIndex == Some(j);
    }
    assert DistinctPos(fused, FusedIndex);
    CoverCard(fused, FusedIndex, |documents|);
  }

  /**
   * The rank-fusion branch of `search`, before the final slice: one hit per
   * document, each carrying the document's BM25 result as payload, its
   * reciprocal-rank score over the BM25 and dense rankings, and the
   * weights, no document twice, highest score first.
   */
  method RankedResults(documents: seq<string>, metadata: seq<Metadata>, bm25Scores: seq<real>, hits: seq<DenseHit>, w: Weights)
    returns (results: seq<SearchHit>)
    requires |metadata| == |documents| == |bm25Scores|
    requires forall k :: 0 <= k < |hits| ==> hits[k].docIndex < |documents|
    ensures |results| == |documents|
    ensures forall m :: 0 <= m < |results| ==>
      && results[m].RankedHit? && results[m].weights == w
      && 0 <= HitIndex(results[m]) < |documents|
      && results[m].fused.item == BM25Candidate(documents, metadata, bm25Scores, HitIndex(results[m]))
      && results[m].fused.rrfScore == RrfScore(SortDesc(BM25Candidates(documents, metadata, bm25Scores), CandidateScore),
                                               DenseCandidates(hits), 60, HitIndex(results[m]))
    ensures forall m, l :: 0 <= m < l < |results| ==>
      HitIndex(results[m]) != HitIndex(results[l]) && HitScore(results[m]) >= HitScore(results[l])
  {
    var fused := FuseRanks(documents, metadata, bm25Scores, hits);
    results := WithWeights(fused, w);
  }

  // ---------------------------------------------------------------------
  // The retriever.
  // ---------------------------------------------------------------------

  /** The default metadata of the `i`-th new document when `count` entries exist already: `{"doc_id": count + i}`. */
  function DefaultDocMetadata(count: nat, n: nat): (r: seq<Metadata>)
    ensures |r| == n && forall i :: 0 <= i < n ==> r[i] == map["doc_id" := Int(count + i)]
  {
    seq(n, i requires 0 <= i < n => map["doc_id" := Int(count + i)])
  }

  /** What `search` raises when documents exist but no BM25 index was built (an unknown variant). */
  const NoIndexError: string := "'NoneType' object has no attribute 'get_scores'"

  /** The reciprocal-rank score of document `j`: BM25 ranking first, dense ranking second, `k = 60`. */
  function FusionRrf(documents: seq<string>, metadata: seq<Metadata>, bm25Scores: seq<real>, hits: seq<DenseHit>, j: nat): real
    requires |metadata| == |documents| == |bm25Scores|
  {
    RrfScore(SortDesc(BM25Candidates(documents, metadata, bm25Scores), CandidateScore), DenseCandidates(hits), 60, j)
  }

  /**
   * What the rank-fusion branch returns for `top_k`: `min(top_k, n)` hits
   * for `top_k >= 0`, each a document's BM25 result with its RRF score and
   * the weights, no document twice, best score first, and no document left
   * out whose RRF score is above that of a hit returned.
   */
  ghost predicate RankFusionResults(documents: seq<string>, metadata: seq<Metadata>, bm25Scores: seq<real>, hits: seq<DenseHit>,
                                    w: Weights, topK: int, results: seq<SearchHit>)
    requires |metadata| == |documents| == |bm25Scores|
  {
    && (topK >= 0 ==> |results| == Min(topK, |documents|))
    && (forall m :: 0 <= m < |results| ==>
          && results[m].RankedHit? && results[m].weights == w
          && 0 <= HitIndex(results[m]) < |documents|
          && results[m].fused.item == BM25Candidate(documents, metadata, bm25Scores, HitIndex(results[m]))
          && results[m].fused.rrfScore == FusionRrf(documents, metadata, bm25Scores, hits, HitIndex(results[m])))
    && (forall m, l :: 0 <= m < l < |results| ==>
          HitIndex(results[m]) != HitIndex(results[l]) && HitScore(results[m]) >= HitScore(results[l]))
    && (forall j :: 0 <= j < |documents| && (forall m :: 0 <= m < |results| ==> HitIndex(results[m]) != j) ==>
          forall m :: 0 <= m < |results| ==> FusionRrf(documents, metadata, bm25Scores, hits, j) <= HitScore(results[m]))
  }

  /**
   * In a ranking that holds every index below its length once, best score
   * first, an index the slice leaves out sits past the slice, so its hit
   * scores no higher than any hit in the slice.
   */
  lemma RankedExcluded(all: seq<SearchHit>, topK: int, j: int) returns (p: nat)
    requires forall m :: 0 <= m < |all| ==> 0 <= HitIndex(all[m]) < |all|
    requires forall m, l :: 0 <= m < l < |all| ==> HitIndex(all[m]) != HitIndex(all[l]) && HitScore(all[m]) >= HitScore(all[l])
    requires 0 <= j < |all|
    requires var r := PyPrefix(all, topK); forall m :: 0 <= m < |r| ==> HitIndex(r[m]) != j
    ensures p < |all| && HitIndex(all[p]) == j
    ensures var r := PyPrefix(all, topK); forall m :: 0 <= m < |r| ==> HitScore(all[p]) <= HitScore(r[m])
  {
    var r := PyPrefix(all, topK);
    assert DistinctPos(all, HitIndex);
    Pigeonhole(all, HitIndex, j);
    var k :| 0 <= k < |all| && HitIndex(all[k]) == j;
    p := k;
    assert p >= |r|;
    forall m | 0 <= m < |r|
      ensures HitScore(all[p]) <= HitScore(r[m])
    {
      assert r[m] == all[m];
    }
  }

  /** The rank-fusion branch cut to `top_k`. */
  method RankSearch(documents: seq<string>, metadata: seq<Metadata>, bm25Scores: seq<real>, hits: seq<DenseHit>, w: Weights,
                    topK: int) returns (results: seq<SearchHit>)
    requires |metadata| == |documents| == |bm25Scores|
    requires forall k :: 0 <= k < |hits| ==> hits[k].docIndex < |documents|
    ensures RankFusionResults(documents, metadata, bm25Scores, hits, w, topK, results)
  {
    var all := RankedResults(documents, metadata, bm25Scores, hits, w);
    results := PyPrefix(all, topK);
    assert forall m :: 0 <= m < |results| ==> results[m] == all[m];
    forall j | 0 <= j < |documents| && (forall m :: 0 <= m < |results| ==> HitIndex(results[m]) != j)
      ensures forall m :: 0 <= m < |results| ==> FusionRrf(documents, metadata, bm25Scores, hits, j) <= HitScore(results[m])
    {
      var p := RankedExcluded(all, topK, j);
    }
  }

  /** The BM25 index of the configured variant over a tokenized corpus, or none for an unknown variant. */
  method BuildIndex(variant: string, corpus: seq<seq<string>>, log: real -> real) returns (index: BM25Index?)
    ensures index == null <==> VariantParams(variant).None?
    ensures index != null ==>
      && fresh(index) && index.Valid() && index.params == VariantParams(variant).value
      && index.log == log && index.corpus == corpus
  {
    if variant == "bm25_plus" {
      index := new BM25Index.Plus(corpus, log);
    } else if variant == "bm25l" {
      index := new BM25Index.L(corpus, log);
    } else {
      index := null;
    }
  }

  class AdvancedHybridRetriever {
    var bm25Weight: real
    var dprWeight: real
    const fusionMethod: string
    const normalizeScores: bool
    const useBm25Variant: string
    /** The logarithm the BM25 index uses. */
    const log: real -> real
    var bm25Retriever: BM25Index?
    const dprRetriever: DPRRetriever
    var documents: seq<string>
    var documentMetadata: seq<Metadata>

    /**
     * Documents and metadata are parallel; the BM25 index, when present, is
     * the configured variant over the tokenized documents. With a known
     * variant the DPR index holds the same documents and metadata and an
     * index exists once a document does; with an unknown one neither index
     * ever receives a document.
     */
    ghost predicate Valid()
      reads this, dprRetriever, bm25Retriever
    {
      && dprRetriever.Valid()
      && |documentMetadata| == |documents|
      && (bm25Retriever != null ==>
            && bm25Retriever.Valid()
            && VariantParams(useBm25Variant) == Some(bm25Retriever.params)
            && bm25Retriever.log == log
            && bm25Retriever.corpus == TokenizeAll(documents))
      && (VariantParams(useBm25Variant).Some? ==>
            && (documents != [] ==> bm25Retriever != null)
            && dprRetriever.passages == documents
            && dprRetriever.passageMetadata == documentMetadata)
      && (VariantParams(useBm25Variant).None? ==> bm25Retriever == null && dprRetriever.passages == [])
    }

    constructor (log: real -> real, encodeContext: seq<string> -> seq<Embedding>, encodeQuestion: string -> Embedding,
                 cosine: (Embedding, Embedding) -> real, useBm25Variant: string := "bm25_plus",
                 bm25Weight: real := 0.4, dprWeight: real := 0.6, fusionMethod: string := "weighted_sum",
                 normalizeScores: bool := true)
      requires forall b :: |encodeContext(b)| == |b|
      ensures Valid() && fresh(dprRetriever)
      ensures documents == [] && documentMetadata == [] && bm25Retriever == null
      ensures this.bm25Weight == bm25Weight && this.dprWeight == dprWeight && this.fusionMethod == fusionMethod
      ensures this.normalizeScores == normalizeScores && this.useBm25Variant == useBm25Variant && this.log == log
    {
      this.bm25Weight := bm25Weight;
      this.dprWeight := dprWeight;
      this.fusionMethod := fusionMethod;
      this.normalizeScores := normalizeScores;
      this.useBm25Variant := useBm25Variant;
      this.log := log;
      bm25Retriever := null;
      dprRetriever := new DPRRetriever(encodeContext, encodeQuestion, cosine);
      documents := [];
      documentMetadata := [];
    }

    /**
     * `add_documents`: nothing happens for an empty list. Otherwise the
     * documents and their metadata (by default `{"doc_id": k}` continuing
     * from the stored count) are appended; then a known variant rebuilds
     * the BM25 index over every tokenized document and adds the new
     * documents to the DPR index, and an unknown variant raises with both
     * lists already extended.
     */
    method AddDocuments(newDocuments: seq<string>, metadata: Option<seq<Metadata>>) returns (outcome: Outcome)
      requires Valid()
      requires metadata.Some? ==> |metadata.value| == |newDocuments|
      modifies this, dprRetriever
      ensures Valid()
      ensures bm25Weight == old(bm25Weight) && dprWeight == old(dprWeight)
      ensures newDocuments == [] ==>
        && outcome == Success && documents == old(documents) && documentMetadata == old(documentMetadata)
        && bm25Retriever == old(bm25Retriever) && unchanged(dprRetriever)
      ensures newDocuments != [] ==>
        && documents == old(documents) + newDocuments
        && documentMetadata == old(documentMetadata)
             + metadata.GetOr(DefaultDocMetadata(|old(documentMetadata)|, |newDocuments|))
      ensures newDocuments != [] && VariantParams(useBm25Variant).None? ==>
        && outcome == Failure("Unknown BM25 variant: " + useBm25Variant)
        && bm25Retriever == null && unchanged(dprRetriever)
      ensures newDocuments != [] && VariantParams(useBm25Variant).Some? ==>
        && outcome == Success && bm25Retriever != null && fresh(bm25Retriever)
        && bm25Retriever.params == VariantParams(useBm25Variant).value
        && bm25Retriever.corpus == TokenizeAll(documents)
        && dprRetriever.passages == documents && dprRetriever.passageMetadata == documentMetadata
    {
      if newDocuments == [] {
        return Success;
      }
      var meta := if metadata.None? then DefaultDocMetadata(|documentMetadata|, |newDocuments|) else metadata.value;
      outcome := Extend(newDocuments, meta);
    }

    /** The non-empty case of `add_documents`, with the metadata already defaulted. */
    method Extend(newDocuments: seq<string>, meta: seq<Metadata>) returns (outcome: Outcome)
      requires Valid() && newDocuments != [] && |meta| == |newDocuments|
      modifies this, dprRetriever
      ensures Valid()
      ensures bm25Weight == old(bm25Weight) && dprWeight == old(dprWeight)
      ensures documents == old(documents) + newDocuments && documentMetadata == old(documentMetadata) + meta
      ensures VariantParams(useBm25Variant).None? ==>
        && outcome == Failure("Unknown BM25 variant: " + useBm25Variant)
        && bm25Retriever == null && unchanged(dprRetriever)
      ensures VariantParams(useBm25Variant).Some? ==>
        && outcome == Success && bm25Retriever != null && fresh(bm25Retriever)
        && bm25Retriever.params == VariantParams(useBm25Variant).value
        && bm25Retriever.corpus == TokenizeAll(documents)
        && dprRetriever.passages == documents && dprRetriever.passageMetadata == documentMetadata
    {
      documents := documents + newDocuments;
      documentMetadata := documentMetadata + meta;
      var index := BuildIndex(useBm25Variant, TokenizeAll(documents), log);
      if index == null {
        return Failure("Unknown BM25 variant: " + useBm25Variant);
      }
      Install(index, newDocuments, meta);
      return Success;
    }

    /** The rebuilt index replaces the old one, and the passage index takes the new documents. */
    method Install(index: BM25Index, newDocuments: seq<string>, meta: seq<Metadata>)
      requires dprRetriever.Valid() && |meta| == |newDocuments| && |documentMetadata| == |documents|
      requires VariantParams(useBm25Variant) == Some(index.params)
      requires index.Valid() && index.log == log && index.corpus == TokenizeAll(documents)
      requires dprRetriever.passages + newDocuments == documents
      requires dprRetriever.passageMetadata + meta == documentMetadata
      modifies this, dprRetriever
      ensures Valid()
      ensures bm25Retriever == index
      ensures documents == old(documents) && documentMetadata == old(documentMetadata)
      ensures bm25Weight == old(bm25Weight) && dprWeight == old(dprWeight)
    {
      bm25Retriever := index;
      dprRetriever.AddPassages(newDocuments, Some(meta));
    }

    /** The BM25 scores of the tokenized query against every document. */
    function LexicalScores(query: string): (r: seq<real>)
      reads this
      requires VariantParams(useBm25Variant).Some?
      ensures |r| == |documents|
    {
      CorpusScores(VariantParams(useBm25Variant).value, TokenizeAll(documents), log, Tokenize(query))
    }

    /** The DPR similarity of the query to every stored passage. */
    function DenseSimilarities(query: string): (r: seq<real>)
      reads this, dprRetriever
      requires dprRetriever.passageEmbeddings.Some?
      ensures |r| == |dprRetriever.passageEmbeddings.value|
    {
      Similarities(dprRetriever.encodeQuestion(query), dprRetriever.passageEmbeddings.value, dprRetriever.cosine)
    }

    /**
     * `search`: nothing for an empty store; the BM25 attribute error when no
     * index was built; otherwise, with the weights the mode selects, the
     * weighted-sum ranking of the BM25 scores and the DPR similarities of
     * every document, or the reciprocal-rank fusion of the two rankings,
     * cut to `top_k`; an unknown fusion method raises.
     */
    method Search(query: string, topK: int := 10, mode: string := "normal") returns (r: Result<seq<SearchHit>>)
      requires Valid()
      ensures documents == [] ==> r == Ok([])
      ensures documents != [] && bm25Retriever == null ==> r == Err(NoIndexError)
      ensures documents != [] && bm25Retriever != null && fusionMethod != "weighted_sum" && fusionMethod != "rank_fusion" ==>
        r == Err("Unknown fusion method: " + fusionMethod)
      ensures documents != [] && bm25Retriever != null && fusionMethod == "weighted_sum" ==>
        && dprRetriever.passageEmbeddings.Some?
        && r == Ok(PyPrefix(WeightedRanking(documents, documentMetadata, LexicalScores(query), DenseSimilarities(query),
                                            ModeWeights(mode, Weights(bm25Weight, dprWeight)), normalizeScores), topK))
      ensures documents != [] && bm25Retriever != null && fusionMethod == "rank_fusion" ==>
        && dprRetriever.passageEmbeddings.Some? && r.Ok?
        && exists hits :: DenseRanking(query, hits)
             && RankFusionResults(documents, documentMetadata, LexicalScores(query), hits,
                                  ModeWeights(mode, Weights(bm25Weight, dprWeight)), topK, r.value)
    {
      if documents == [] {
        return Ok([]);
      }
      var w := ModeWeights(mode, Weights(bm25Weight, dprWeight));
      if bm25Retriever == null {
        return Err(NoIndexError);
      }
      var bm25Scores := bm25Retriever.GetScores(Tokenize(query));
      assert bm25Scores == LexicalScores(query);
      var dprHits := DenseHits(query);
      if fusionMethod == "weighted_sum" {
        var results := WeightedSearch(query, bm25Scores, dprHits, w);
        return Ok(PyPrefix(results, topK));
      } else if fusionMethod == "rank_fusion" {
        var results := RankSearch(documents, documentMetadata, bm25Scores, dprHits, w, topK);
        assert DenseRanking(query, dprHits) && RankFusionResults(documents, documentMetadata, bm25Scores, dprHits, w, topK, results);
        return Ok(results);
      } else {
        return Err("Unknown fusion method: " + fusionMethod);
      }
    }

    /**
     * `hits` is a dense ranking of the whole store: one hit per document,
     * each with the document's DPR similarity, highest similarity first.
     */
    ghost predicate DenseRanking(query: string, hits: seq<DenseHit>)
      reads this, dprRetriever
      requires dprRetriever.passageEmbeddings.Some?
    {
      && |hits| == |DenseSimilarities(query)| == |documents|
      && (forall k :: 0 <= k < |hits| ==>
            hits[k].docIndex < |documents| && hits[k].score == DenseSimilarities(query)[hits[k].docIndex])
      && (forall k, l :: 0 <= k < l < |hits| ==> hits[k].docIndex != hits[l].docIndex && hits[k].score >= hits[l].score)
    }

    /** The DPR index asked for as many hits as there are documents: one per document, each with its similarity. */
    method DenseHits(query: string) returns (hits: seq<DenseHit>)
      requires Valid() && documents != [] && VariantParams(useBm25Variant).Some?
      ensures dprRetriever.passageEmbeddings.Some? && DenseRanking(query, hits)
    {
      hits := dprRetriever.Search(query, |documents|);
    }

    /** The weighted-sum branch: scattering the dense hits recovers every similarity, so the ranking is over both full score lists. */
    method WeightedSearch(query: string, bm25Scores: seq<real>, hits: seq<DenseHit>, w: Weights) returns (results: seq<SearchHit>)
      requires Valid() && documents != [] && VariantParams(useBm25Variant).Some?
      requires bm25Scores == LexicalScores(query)
      requires dprRetriever.passageEmbeddings.Some? && DenseRanking(query, hits)
      ensures results == WeightedRanking(documents, documentMetadata, LexicalScores(query), DenseSimilarities(query), w, normalizeScores)
    {
      var dense := ScatterDense(hits, |documents|);
      DenseCoverage(hits, DenseSimilarities(query));
      results := WeightedResults(documents, documentMetadata, bm25Scores, dense, w, normalizeScores);
    }

    /** `get_document_count` */
    method GetDocumentCount() returns (n: nat)
      ensures n == |documents|
    {
      return |documents|;
    }

    /** `clear_documents`: both lists emptied, the BM25 index dropped and the DPR index cleared. */
    method ClearDocuments()
      requires Valid()
      modifies this, dprRetriever
      ensures Valid()
      ensures documents == [] && documentMetadata == [] && bm25Retriever == null
      ensures dprRetriever.passages == [] && dprRetriever.passageMetadata == [] && dprRetriever.passageEmbeddings == None
      ensures bm25Weight == old(bm25Weight) && dprWeight == old(dprWeight)
    {
      documents := [];
      documentMetadata := [];
      bm25Retriever := null;
      dprRetriever.ClearIndex();
    }

    /** `update_weights`: only the instance weights change. */
    method UpdateWeights(bm25Weight: real, dprWeight: real)
      requires Valid()
      modifies this
      ensures Valid()
      ensures this.bm25Weight == bm25Weight && this.dprWeight == dprWeight
      ensures documents == old(documents) && documentMetadata == old(documentMetadata) && bm25Retriever == old(bm25Retriever)
    {
      this.bm25Weight := bm25Weight;
      this.dprWeight := dprWeight;
    }
  }
}
