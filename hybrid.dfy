/**
 * `HybridRetriever` of backend/app/services/hybrid_retriever.py: documents
 * with parallel metadata and embeddings, an Okapi BM25 index rebuilt over
 * every tokenized document on upload, and a search that filters by
 * `document_id`, min-max normalises both score lists over the eligible
 * documents and ranks them by an `alpha`-weighted sum.
 *
 * The Okapi scorer, the sentence encoder and the cosine similarity are
 * library code and enter as function-valued constants.
 */
module Hybrid {
  import opened Common
  import opened Text
  import opened Ranking
  import opened Fusion
  import DPR

  // ---------------------------------------------------------------------
  // Tokenizer (`_preprocess_text`).
  // ---------------------------------------------------------------------

  /** Python's `\w` on the characters the model distinguishes: ASCII letters, digits and `_`. */
  predicate IsWordChar(c: char) {
    ('a' <= c <= 'z') || ('A' <= c <= 'Z') || ('0' <= c <= '9') || c == '_'
  }

  /** `re.sub(r'[^\w\s]', ' ', s)`: word characters and whitespace stay, every other character becomes a space. */
  function Scrub(s: string): (r: string)
    ensures |r| == |s|
    ensures forall i :: 0 <= i < |s| ==> IsWordChar(r[i]) || IsSpace(r[i])
    ensures forall i :: 0 <= i < |s| && (IsWordChar(s[i]) || IsSpace(s[i])) ==> r[i] == s[i]
    ensures forall i :: 0 <= i < |s| && !IsWordChar(s[i]) && !IsSpace(s[i]) ==> r[i] == ' '
  {
    seq(|s|, i requires 0 <= i < |s| => if IsWordChar(s[i]) || IsSpace(s[i]) then s[i] else ' ')
  }

  /** `[token for token in tokens if token.strip()]`; a string strips to nothing exactly when it is blank. */
  function NonBlank(tokens: seq<string>): seq<string>
    decreases |tokens|
  {
    if tokens == [] then []
    else if !Blank(tokens[0]) then [tokens[0]] + NonBlank(tokens[1..])
    else NonBlank(tokens[1..])
  }

  /** A token is kept exactly when its strip is not empty. */
  lemma {:induction false} NonBlankSpec(tokens: seq<string>)
    ensures forall t :: t in NonBlank(tokens) <==> t in tokens && Strip(t) != []
    decreases |tokens|
  {
    if tokens != [] {
      NonBlankSpec(tokens[1..]);
      StripEmpty(tokens[0]);
      assert tokens == [tokens[0]] + tokens[1..];
      forall t ensures t in tokens <==> t == tokens[0] || t in tokens[1..] {
      }
    }
  }

  /** The blank filter keeps every word `split()` produces. */
  lemma {:induction false} NonBlankWords(ws: seq<string>)
    requires forall i :: 0 <= i < |ws| ==> ws[i] != [] && NoSpace(ws[i])
    ensures NonBlank(ws) == ws
    decreases |ws|
  {
    if ws != [] {
      assert !IsSpace(ws[0][0]);
      NonBlankWords(ws[1..]);
      assert [ws[0]] + ws[1..] == ws;
    }
  }

  /** `_preprocess_text`: lower-case, blank out everything but word characters and whitespace, split. */
  function Tokenize(text: string): (tokens: seq<string>)
    ensures forall i :: 0 <= i < |tokens| ==> tokens[i] != [] && NoSpace(tokens[i])
    ensures forall i, j :: 0 <= i < |tokens| && 0 <= j < |tokens[i]| ==> IsWordChar(tokens[i][j]) && !IsUpper(tokens[i][j])
  {
    var cleaned := Scrub(Lower(text));
    var words := Words(cleaned);
    WordsKeep(cleaned, c => !IsUpper(c) && (IsWordChar(c) || IsSpace(c)));
    NonBlankWords(words);
    NonBlank(words)
  }

  /** Every character of a joined list satisfies what every character of its parts and separator satisfies. */
  lemma {:induction false} JoinKeeps(ws: seq<string>, sep: string, p: char -> bool)
    requires forall i, j :: 0 <= i < |ws| && 0 <= j < |ws[i]| ==> p(ws[i][j])
    requires forall j :: 0 <= j < |sep| ==> p(sep[j])
    ensures forall j :: 0 <= j < |Join(ws, sep)| ==> p(Join(ws, sep)[j])
    decreases |ws|
  {
    if |ws| > 1 {
      JoinKeeps(ws[1..], sep, p);
      var rest := Join(ws[1..], sep);
      forall j | 0 <= j < |Join(ws, sep)| ensures p(Join(ws, sep)[j]) {
        if j < |ws[0]| {
          assert Join(ws, sep)[j] == ws[0][j];
        } else if j < |ws[0]| + |sep| {
          assert Join(ws, sep)[j] == sep[j - |ws[0]|];
        } else {
          assert Join(ws, sep)[j] == rest[j - |ws[0]| - |sep|];
        }
      }
    }
  }

  /** Text that is already lower-case words and whitespace passes the cleaning steps unchanged. */
  lemma CleanFixed(s: string)
    requires forall j :: 0 <= j < |s| ==> !IsUpper(s[j]) && (IsWordChar(s[j]) || IsSpace(s[j]))
    ensures Scrub(Lower(s)) == s
  {
    assert Lower(s) == s;
  }

  /** Re-tokenizing the tokens joined by spaces gives the same tokens. */
  lemma TokenizeIdempotent(text: string)
    ensures Tokenize(Join(Tokenize(text), " ")) == Tokenize(text)
  {
    var ws := Tokenize(text);
    var joined := Join(ws, " ");
    JoinKeeps(ws, " ", c => !IsUpper(c) && (IsWordChar(c) || IsSpace(c)));
    CleanFixed(joined);
    WordsJoin(ws);
    NonBlankWords(ws);
  }

  /** `[self._preprocess_text(doc) for doc in self.documents]` */
  function TokenizeAll(documents: seq<string>): (r: seq<seq<string>>)
    ensures |r| == |documents| && forall i :: 0 <= i < |documents| ==> r[i] == Tokenize(documents[i])
  {
    seq(|documents|, i requires 0 <= i < |documents| => Tokenize(documents[i]))
  }

  // ---------------------------------------------------------------------
  // The `document_ids` filter.
  // ---------------------------------------------------------------------

  /** `if document_ids:` -- a missing or empty list does not filter. */
  predicate Filtering(ids: Option<seq<string>>) {
    ids.Some? && ids.value != []
  }

  /** `metadata.get('document_id') in document_ids` */
  predicate Matches(m: Metadata, ids: seq<string>) {
    "document_id" in m && m["document_id"].Str? && m["document_id"].s in ids
  }

  /** Whether `search` lets a document with metadata `m` through. */
  predicate Keeps(m: Metadata, ids: Option<seq<string>>) {
    !Filtering(ids) || Matches(m, ids.value)
  }

  predicate StrictlyIncreasing(r: seq<nat>) {
    forall k, l :: 0 <= k < l < |r| ==> r[k] < r[l]
  }

  /** The indices below `n` whose metadata matches `ids`, in order. */
  function MatchingUpTo(meta: seq<Metadata>, ids: seq<string>, n: nat): (r: seq<nat>)
    requires n <= |meta|
    ensures StrictlyIncreasing(r)
    ensures forall k :: 0 <= k < |r| ==> r[k] < n
    ensures forall i :: 0 <= i < n ==> (i in r <==> Matches(meta[i], ids))
  {
    if n == 0 then []
    else
      var prev := MatchingUpTo(meta, ids, n - 1);
      if Matches(meta[n - 1], ids) then prev + [n - 1] else prev
  }

  /** `list(range(n))` */
  function AllIndices(n: nat): (r: seq<nat>)
    ensures |r| == n && forall i :: 0 <= i < n ==> r[i] == i
  {
    seq(n, i requires 0 <= i < n => i)
  }

  /** `valid_indices`: the documents `search` considers, in document order. */
  function Eligible(meta: seq<Metadata>, ids: Option<seq<string>>): (r: seq<nat>)
    ensures StrictlyIncreasing(r)
    ensures forall k :: 0 <= k < |r| ==> r[k] < |meta| && Keeps(meta[r[k]], ids)
    ensures forall i :: 0 <= i < |meta| && Keeps(meta[i], ids) ==> i in r
    ensures !Filtering(ids) ==> r == AllIndices(|meta|)
  {
    if Filtering(ids) then MatchingUpTo(meta, ids.value, |meta|)
    else
      var r := AllIndices(|meta|);
      assert forall i :: 0 <= i < |meta| && Keeps(meta[i], ids) ==> i in r by {
        forall i | 0 <= i < |meta| ensures i in r {
          assert r[i] == i;
        }
      }
      r
  }

  /** The filtering loop of `search`. */
  method EligibleIndices(meta: seq<Metadata>, ids: Option<seq<string>>) returns (valid: seq<nat>)
    ensures valid == Eligible(meta, ids)
  {
    if Filtering(ids) {
      valid := [];
      for i := 0 to |meta|
        invariant valid == MatchingUpTo(meta, ids.value, i)
      {
        if "document_id" in meta[i] && meta[i]["document_id"].Str? && meta[i]["document_id"].s in ids.value {
          valid := valid + [i];
        }
      }
    } else {
      valid := AllIndices(|meta|);
    }
  }

  // ---------------------------------------------------------------------
  // Scoring and ranking.
  // ---------------------------------------------------------------------

  /** One result dictionary of `search`. */
  datatype HybridHit = HybridHit(content: string, metadata: Metadata, hybridScore: real, bm25Score: real,
                                 semanticScore: real, distance: real)

  function HybridScoreOf(h: HybridHit): real { h.hybridScore }

  /** `[scores[i] for i in valid_indices]` */
  function Pick(scores: seq<real>, valid: seq<nat>): (r: seq<real>)
    requires forall k :: 0 <= k < |valid| ==> valid[k] < |scores|
    ensures |r| == |valid| && forall k :: 0 <= k < |valid| ==> r[k] == scores[valid[k]]
  {
    seq(|valid|, k requires 0 <= k < |valid| => scores[valid[k]])
  }

  /** The result built for the `k`-th eligible document from the normalised scores. */
  function HitAt(documents: seq<string>, meta: seq<Metadata>, valid: seq<nat>, nb: seq<real>, ns: seq<real>,
                 alpha: real, k: nat): HybridHit
    requires |meta| == |documents| && |nb| == |ns| == |valid| && k < |valid| && valid[k] < |documents|
  {
    HybridHit(documents[valid[k]], meta[valid[k]], alpha * nb[k] + (1.0 - alpha) * ns[k], nb[k], ns[k], 1.0 - ns[k])
  }

  /** `results` before sorting: one entry per eligible document, in document order. */
  function Candidates(documents: seq<string>, meta: seq<Metadata>, valid: seq<nat>, nb: seq<real>, ns: seq<real>,
                      alpha: real): (r: seq<HybridHit>)
    requires |meta| == |documents| && |nb| == |ns| == |valid|
    requires forall k :: 0 <= k < |valid| ==> valid[k] < |documents|
    ensures |r| == |valid|
    ensures forall k :: 0 <= k < |valid| ==> r[k] == HitAt(documents, meta, valid, nb, ns, alpha, k)
  {
    seq(|valid|, k requires 0 <= k < |valid| => HitAt(documents, meta, valid, nb, ns, alpha, k))
  }

  /** The two append loops of `search` that compute `hybrid_scores` and then `results`. */
  method BuildResults(documents: seq<string>, meta: seq<Metadata>, valid: seq<nat>, nb: seq<real>, ns: seq<real>,
                      alpha: real) returns (results: seq<HybridHit>)
    requires |meta| == |documents| && |nb| == |ns| == |valid|
    requires forall k :: 0 <= k < |valid| ==> valid[k] < |documents|
    ensures results == Candidates(documents, meta, valid, nb, ns, alpha)
  {
    var hybridScores := [];
    for i := 0 to |valid|
      invariant |hybridScores| == i
      invariant forall k :: 0 <= k < i ==> hybridScores[k] == alpha * nb[k] + (1.0 - alpha) * ns[k]
    {
      hybridScores := hybridScores + [alpha * nb[i] + (1.0 - alpha) * ns[i]];
    }
    results := [];
    for i := 0 to |valid|
      invariant |results| == i
      invariant forall k :: 0 <= k < i ==> results[k] == HitAt(documents, meta, valid, nb, ns, alpha, k)
    {
      var idx := valid[i];
      results := results + [HybridHit(documents[idx], meta[idx], hybridScores[i], nb[i], ns[i], 1.0 - ns[i])];
    }
  }

  /** What `search` returns over given raw score lists: candidates sorted by hybrid score, best first, cut to `k`. */
  function HybridRanking(documents: seq<string>, meta: seq<Metadata>, valid: seq<nat>, bm25Scores: seq<real>,
                         semanticScores: seq<real>, alpha: real, k: int): seq<HybridHit>
    requires |meta| == |documents| == |bm25Scores| == |semanticScores|
    requires forall j :: 0 <= j < |valid| ==> valid[j] < |documents|
  {
    var nb := MinMaxNormalize(Pick(bm25Scores, valid));
    var ns := MinMaxNormalize(Pick(semanticScores, valid));
    PyPrefix(SortDesc(Candidates(documents, meta, valid, nb, ns, alpha), HybridScoreOf), k)
  }

  /** The ranking holds `min(k, |valid|)` candidates, each at most as often as it occurs, best hybrid score first. */
  lemma HybridRankingSpec(documents: seq<string>, meta: seq<Metadata>, valid: seq<nat>, bm25Scores: seq<real>,
                          semanticScores: seq<real>, alpha: real, k: int)
    requires |meta| == |documents| == |bm25Scores| == |semanticScores|
    requires forall j :: 0 <= j < |valid| ==> valid[j] < |documents|
    ensures var r := HybridRanking(documents, meta, valid, bm25Scores, semanticScores, alpha, k);
      && (k >= 0 ==> |r| == Min(k, |valid|))
      && multiset(r) <= multiset(Candidates(documents, meta, valid, MinMaxNormalize(Pick(bm25Scores, valid)),
                                            MinMaxNormalize(Pick(semanticScores, valid)), alpha))
      && SortedDesc(r, HybridScoreOf)
  {
    var nb := MinMaxNormalize(Pick(bm25Scores, valid));
    var ns := MinMaxNormalize(Pick(semanticScores, valid));
    var all := Candidates(documents, meta, valid, nb, ns, alpha);
    PrefixOfSorted(all, HybridScoreOf, k);
  }

  /** The hybrid score of `h` is the `alpha`-weighted sum of its normalised scores, and its distance one minus its semantic score. */
  predicate ScoresAgree(h: HybridHit, alpha: real) {
    h.hybridScore == alpha * h.bm25Score + (1.0 - alpha) * h.semanticScore && h.distance == 1.0 - h.semanticScore
  }

  /** A candidate carries one eligible document's text and metadata, the weighted sum of its scores and one minus its semantic score. */
  lemma CandidateSound(documents: seq<string>, meta: seq<Metadata>, valid: seq<nat>, nb: seq<real>, ns: seq<real>,
                       alpha: real, h: HybridHit)
    requires |meta| == |documents| && |nb| == |ns| == |valid|
    requires forall k :: 0 <= k < |valid| ==> valid[k] < |documents|
    requires h in Candidates(documents, meta, valid, nb, ns, alpha)
    ensures exists j :: 0 <= j < |valid| && h.content == documents[valid[j]] && h.metadata == meta[valid[j]]
    ensures ScoresAgree(h, alpha)
  {
    var all := Candidates(documents, meta, valid, nb, ns, alpha);
    var j :| 0 <= j < |all| && all[j] == h;
    assert h == HitAt(documents, meta, valid, nb, ns, alpha, j);
  }

  /** Every ranked result has as hybrid score the `alpha`-weighted sum of its normalised scores, and as distance one minus its semantic score. */
  lemma HybridScoresSound(documents: seq<string>, meta: seq<Metadata>, valid: seq<nat>, bm25Scores: seq<real>,
                          semanticScores: seq<real>, alpha: real, k: int, m: nat)
    requires |meta| == |documents| == |bm25Scores| == |semanticScores|
    requires forall j :: 0 <= j < |valid| ==> valid[j] < |documents|
    requires m < |HybridRanking(documents, meta, valid, bm25Scores, semanticScores, alpha, k)|
    ensures ScoresAgree(HybridRanking(documents, meta, valid, bm25Scores, semanticScores, alpha, k)[m], alpha)
  {
    var h := HybridRanking(documents, meta, valid, bm25Scores, semanticScores, alpha, k)[m];
    RankedIsCandidate(documents, meta, valid, bm25Scores, semanticScores, alpha, k, m);
    CandidateSound(documents, meta, valid, MinMaxNormalize(Pick(bm25Scores, valid)),
                   MinMaxNormalize(Pick(semanticScores, valid)), alpha, h);
  }

  /**
   * Every ranked result comes from an eligible document and carries that
   * document's text and metadata; under a filter, its `document_id` is
   * one of the requested ids.
   */
  lemma HybridResultsSound(documents: seq<string>, meta: seq<Metadata>, ids: Option<seq<string>>, bm25Scores: seq<real>,
                           semanticScores: seq<real>, alpha: real, k: int, m: nat)
    requires |meta| == |documents| == |bm25Scores| == |semanticScores|
    requires m < |HybridRanking(documents, meta, Eligible(meta, ids), bm25Scores, semanticScores, alpha, k)|
    ensures var h := HybridRanking(documents, meta, Eligible(meta, ids), bm25Scores, semanticScores, alpha, k)[m];
      && (exists i :: 0 <= i < |documents| && Keeps(meta[i], ids) && h.content == documents[i] && h.metadata == meta[i])
      && (Filtering(ids) ==> "document_id" in h.metadata && h.metadata["document_id"].Str?
                              && h.metadata["document_id"].s in ids.value)
  {
    var valid := Eligible(meta, ids);
    var nb := MinMaxNormalize(Pick(bm25Scores, valid));
    var ns := MinMaxNormalize(Pick(semanticScores, valid));
    var h := HybridRanking(documents, meta, valid, bm25Scores, semanticScores, alpha, k)[m];
    RankedIsCandidate(documents, meta, valid, bm25Scores, semanticScores, alpha, k, m);
    CandidateSound(documents, meta, valid, nb, ns, alpha, h);
    var j :| 0 <= j < |valid| && h.content == documents[valid[j]] && h.metadata == meta[valid[j]];
    var i := valid[j];
    assert 0 <= i < |documents| && Keeps(meta[i], ids) && h.content == documents[i] && h.metadata == meta[i];
  }

  /** A ranked result is one of the candidates. */
  lemma RankedIsCandidate(documents: seq<string>, meta: seq<Metadata>, valid: seq<nat>, bm25Scores: seq<real>,
                          semanticScores: seq<real>, alpha: real, k: int, m: nat)
    requires |meta| == |documents| == |bm25Scores| == |semanticScores|
    requires forall j :: 0 <= j < |valid| ==> valid[j] < |documents|
    requires m < |HybridRanking(documents, meta, valid, bm25Scores, semanticScores, alpha, k)|
    ensures HybridRanking(documents, meta, valid, bm25Scores, semanticScores, alpha, k)[m]
            in Candidates(documents, meta, valid, MinMaxNormalize(Pick(bm25Scores, valid)),
                          MinMaxNormalize(Pick(semanticScores, valid)), alpha)
  {
    var r := HybridRanking(documents, meta, valid, bm25Scores, semanticScores, alpha, k);
    HybridRankingSpec(documents, meta, valid, bm25Scores, semanticScores, alpha, k);
    assert r[m] in multiset(r);
  }

  // ---------------------------------------------------------------------
  // The retriever.
  // ---------------------------------------------------------------------

  class HybridRetriever {
    var alpha: real
    /** The tokenized corpus the Okapi index was last built over; `None` before the first upload. */
    var bm25Corpus: Option<seq<seq<string>>>
    var documents: seq<string>
    var documentMetadata: seq<Metadata>
    var documentEmbeddings: seq<DPR.Embedding>
    /** The sentence encoder: one embedding per text. */
    const encode: seq<string> -> seq<DPR.Embedding>
    /** `np.dot(q, d) / (norm(q) * norm(d))` */
    const cosine: (DPR.Embedding, DPR.Embedding) -> real
    /** `BM25Okapi(corpus).get_scores(query)`: one score per document. */
    const okapiScores: (seq<seq<string>>, seq<string>) -> seq<real>

    /** Documents, metadata and embeddings are parallel, and the Okapi index covers exactly the stored documents. */
    ghost predicate Valid()
      reads this
    {
      && (forall b :: |encode(b)| == |b|)
      && (forall c, q :: |okapiScores(c, q)| == |c|)
      && |documentMetadata| == |documents|
      && |documentEmbeddings| == |documents|
      && (bm25Corpus.Some? <==> documents != [])
      && (bm25Corpus.Some? ==> bm25Corpus.value == TokenizeAll(documents))
    }

    constructor (encode: seq<string> -> seq<DPR.Embedding>, cosine: (DPR.Embedding, DPR.Embedding) -> real,
                 okapiScores: (seq<seq<string>>, seq<string>) -> seq<real>, alpha: real := 0.5)
      requires forall b :: |encode(b)| == |b|
      requires forall c, q :: |okapiScores(c, q)| == |c|
      ensures Valid()
      ensures this.alpha == alpha && bm25Corpus == None
      ensures documents == [] && documentMetadata == [] && documentEmbeddings == []
      ensures this.encode == encode && this.cosine == cosine && this.okapiScores == okapiScores
    {
      this.alpha := alpha;
      this.encode := encode;
      this.cosine := cosine;
      this.okapiScores := okapiScores;
      bm25Corpus := None;
      documents := [];
      documentMetadata := [];
      documentEmbeddings := [];
    }

    /**
     * `add_documents`: nothing happens for an empty list. Otherwise the
     * documents are appended with their metadata (empty records when none
     * or an empty list is given) and their embeddings, and the Okapi index
     * is rebuilt over every tokenized document.
     */
    method AddDocuments(newDocuments: seq<string>, metadatas: Option<seq<Metadata>>)
      requires Valid()
      requires metadatas.Some? && metadatas.value != [] ==> |metadatas.value| == |newDocuments|
      modifies this
      ensures Valid()
      ensures alpha == old(alpha)
      ensures newDocuments == [] ==>
        && documents == old(documents) && documentMetadata == old(documentMetadata)
        && documentEmbeddings == old(documentEmbeddings) && bm25Corpus == old(bm25Corpus)
      ensures newDocuments != [] ==>
        && documents == old(documents) + newDocuments
        && documentMetadata == old(documentMetadata)
             + (if metadatas.Some? && metadatas.value != [] then metadatas.value else seq(|newDocuments|, _ => map[]))
        && documentEmbeddings == old(documentEmbeddings) + encode(newDocuments)
        && bm25Corpus == Some(TokenizeAll(documents))
    {
      if newDocuments == [] {
        return;
      }
      documents := documents + newDocuments;
      if metadatas.Some? && metadatas.value != [] {
        documentMetadata := documentMetadata + metadatas.value;
      } else {
        documentMetadata := documentMetadata + seq(|newDocuments|, _ => map[]);
      }
      bm25Corpus := Some(TokenizeAll(documents));
      documentEmbeddings := documentEmbeddings + encode(newDocuments);
    }

    /** `clear_documents` */
    method ClearDocuments()
      requires Valid()
      modifies this
      ensures Valid()
      ensures documents == [] && documentMetadata == [] && documentEmbeddings == [] && bm25Corpus == None
      ensures alpha == old(alpha)
    {
      documents := [];
      documentMetadata := [];
      bm25Corpus := None;
      documentEmbeddings := [];
    }

    /** The cosine similarity of the query to every stored document. */
    function SemanticScores(query: string): (r: seq<real>)
      reads this
      requires Valid()
      ensures |r| == |documents|
    {
      DPR.Similarities(encode([query])[0], documentEmbeddings, cosine)
    }

    /**
     * `search`: nothing for an empty store or when the filter leaves no
     * document; otherwise the eligible documents ranked by the weighted
     * sum of their normalised Okapi and semantic scores, cut to `k`.
     */
    method Search(query: string, k: int := 10, documentIds: Option<seq<string>> := None) returns (results: seq<HybridHit>)
      requires Valid()
      ensures documents == [] || Eligible(documentMetadata, documentIds) == [] ==> results == []
      ensures documents != [] ==>
        results == HybridRanking(documents, documentMetadata, Eligible(documentMetadata, documentIds),
                                 okapiScores(bm25Corpus.value, Tokenize(query)), SemanticScores(query), alpha, k)
    {
      if documents == [] || bm25Corpus.None? {
        return [];
      }
      var valid := EligibleIndices(documentMetadata, documentIds);
      if valid == [] {
        return [];
      }
      var bm25Scores := okapiScores(bm25Corpus.value, Tokenize(query));
      var queryEmbedding := encode([query])[0];
      var semanticScores := DPR.Similarities(queryEmbedding, documentEmbeddings, cosine);
      var normalizedBm25 := MinMaxNormalize(Pick(bm25Scores, valid));
      var normalizedSemantic := MinMaxNormalize(Pick(semanticScores, valid));
      var all := BuildResults(documents, documentMetadata, valid, normalizedBm25, normalizedSemantic, alpha);
      results := PyPrefix(SortDesc(all, HybridScoreOf), k);
    }
  }
}
