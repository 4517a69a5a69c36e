/**
 * The two lexical scorers of backend/app/services/bm25_plus.py, BM25+ and
 * BM25L. Both build the same corpus statistics (document lengths, term
 * counts, document frequencies, average length, IDF) and differ only in
 * the per-term contribution, so they share one class with a named
 * constructor per scorer. `math.log` is a parameter of the index.
 */
module BM25 {
  import opened Ranking
  import opened Arith

  datatype Variant = BM25Plus | BM25L

  /** The scorer and its parameters `k1`, `b`, `delta`. */
  datatype Params = Params(variant: Variant, k1: real, b: real, delta: real) {
    /** The range in which no score divides by zero. */
    predicate InRange() {
      k1 >= 0.0 && 0.0 <= b <= 1.0
    }
  }

  // ---------------------------------------------------------------------
  // Corpus statistics, as functions of the tokenized corpus.
  // ---------------------------------------------------------------------

  /** `Counter(doc)[t]` */
  function Count(doc: seq<string>, t: string): nat {
    multiset(doc)[t]
  }

  /** `Counter(doc)`: a key for exactly the tokens of `doc`, each with its number of occurrences. */
  function Counts(doc: seq<string>): (m: map<string, nat>)
    ensures forall t :: t in m <==> t in doc
    ensures forall t :: t in m ==> m[t] == Count(doc, t) && m[t] >= 1
  {
    map t | t in doc :: multiset(doc)[t]
  }

  function DocLengths(corpus: seq<seq<string>>): (r: seq<nat>)
    ensures |r| == |corpus| && forall i :: 0 <= i < |corpus| ==> r[i] == |corpus[i]|
  {
    seq(|corpus|, i requires 0 <= i < |corpus| => |corpus[i]|)
  }

  function FrequencyTables(corpus: seq<seq<string>>): (r: seq<map<string, nat>>)
    ensures |r| == |corpus| && forall i :: 0 <= i < |corpus| ==> r[i] == Counts(corpus[i])
  {
    seq(|corpus|, i requires 0 <= i < |corpus| => Counts(corpus[i]))
  }

  /** `sum(len(doc) for doc in corpus)` */
  function TotalLength(corpus: seq<seq<string>>): nat {
    if corpus == [] then 0 else TotalLength(corpus[..|corpus| - 1]) + |corpus[|corpus| - 1]|
  }

  /** The average document length, 0 for an empty corpus. */
  function AvgDl(corpus: seq<seq<string>>): real {
    if |corpus| == 0 then 0.0 else TotalLength(corpus) as real / |corpus| as real
  }

  /** The distinct terms of one document. */
  function Terms(doc: seq<string>): (r: set<string>)
    ensures forall t :: t in r <==> t in doc
  {
    set t | t in doc
  }

  /** The terms that occur in some document. */
  function Vocabulary(corpus: seq<seq<string>>): set<string> {
    if corpus == [] then {} else Vocabulary(corpus[..|corpus| - 1]) + Terms(corpus[|corpus| - 1])
  }

  /** The number of documents that contain `t`. */
  function DocFreq(corpus: seq<seq<string>>, t: string): nat {
    if corpus == [] then 0
    else DocFreq(corpus[..|corpus| - 1], t) + (if t in corpus[|corpus| - 1] then 1 else 0)
  }

  /** The table `nd`: document frequency of every term of the corpus. */
  function DocFreqTable(corpus: seq<seq<string>>): map<string, nat> {
    map t | t in Vocabulary(corpus) :: DocFreq(corpus, t)
  }

  /** `log((N - df + 0.5) / (df + 0.5))`, with no smoothing: negative once `df` exceeds half the corpus. */
  function IdfValue(n: nat, df: nat, log: real -> real): real {
    log((n as real - df as real + 0.5) / (df as real + 0.5))
  }

  function IdfTable(corpus: seq<seq<string>>, log: real -> real): map<string, real> {
    map t | t in Vocabulary(corpus) :: IdfValue(|corpus|, DocFreq(corpus, t), log)
  }

  /** `self.idf.get(term, 0)` */
  function Idf(corpus: seq<seq<string>>, log: real -> real, t: string): real {
    if t in Vocabulary(corpus) then IdfValue(|corpus|, DocFreq(corpus, t), log) else 0.0
  }

  // ---------------------------------------------------------------------
  // Scoring.
  // ---------------------------------------------------------------------

  /** `1 - b + b * (doc_len / avgdl)`; positive for a non-empty document. */
  function Norm(p: Params, dl: nat, avgdl: real): (r: real)
    requires avgdl > 0.0
    ensures p.InRange() && dl >= 1 ==> r > 0.0
  {
    var ratio := dl as real / avgdl;
    assert dl >= 1 ==> ratio > 0.0;
    assert p.InRange() && dl >= 1 ==> p.b * ratio >= 0.0;
    assert p.InRange() && dl >= 1 && p.b == 1.0 ==> 1.0 - p.b + p.b * ratio == ratio;
    1.0 - p.b + p.b * ratio
  }

  /** The BM25+ term formula: `delta` is added inside the IDF product. */
  function PlusContribution(tf: nat, norm: real, idf: real, k1: real, delta: real): real
    requires tf >= 1 && k1 >= 0.0 && norm > 0.0
  {
    assert k1 * norm >= 0.0;
    idf * ((tf as real * (k1 + 1.0)) / (tf as real + k1 * norm) + delta)
  }

  /** The BM25L term formula: `delta` is added outside the IDF product. */
  function LContribution(tf: nat, norm: real, idf: real, k1: real, delta: real): real
    requires tf >= 1 && k1 >= 0.0 && norm > 0.0
  {
    var ctd := tf as real / norm;
    assert ctd > 0.0;
    idf * (((k1 + 1.0) * ctd) / (k1 + ctd)) + delta
  }

  /** The score one query term adds to a document that contains it `tf` times. */
  function Contribution(p: Params, tf: nat, dl: nat, avgdl: real, idf: real): real
    requires p.InRange() && tf >= 1 && dl >= 1 && avgdl > 0.0
  {
    var norm := Norm(p, dl, avgdl);
    match p.variant
    case BM25Plus => PlusContribution(tf, norm, idf, p.k1, p.delta)
    case BM25L => LContribution(tf, norm, idf, p.k1, p.delta)
  }

  /** The contribution of term `t` to document `i`, from the corpus alone. */
  function TermScore(p: Params, corpus: seq<seq<string>>, log: real -> real, i: nat, t: string): real
    requires p.InRange() && i < |corpus| && t in corpus[i]
  {
    AvgDlPositive(corpus, i);
    Contribution(p, Count(corpus[i], t), |corpus[i]|, AvgDl(corpus), Idf(corpus, log, t))
  }

  /** The score of document `i`: the contributions of the query terms it contains, one per query position. */
  function DocScore(p: Params, corpus: seq<seq<string>>, log: real -> real, query: seq<string>, i: nat): real
    requires p.InRange() && i < |corpus|
  {
    if query == [] then 0.0
    else
      var t := query[|query| - 1];
      DocScore(p, corpus, log, query[..|query| - 1], i)
      + (if t in corpus[i] then TermScore(p, corpus, log, i, t) else 0.0)
  }

  function CorpusScores(p: Params, corpus: seq<seq<string>>, log: real -> real, query: seq<string>): (r: seq<real>)
    requires p.InRange()
    ensures |r| == |corpus| && forall i :: 0 <= i < |corpus| ==> r[i] == DocScore(p, corpus, log, query, i)
  {
    seq(|corpus|, i requires 0 <= i < |corpus| => DocScore(p, corpus, log, query, i))
  }

  // ---------------------------------------------------------------------
  // Properties of the statistics.
  // ---------------------------------------------------------------------

  lemma {:induction false} TotalLengthAtLeast(corpus: seq<seq<string>>, i: nat)
    requires i < |corpus|
    ensures TotalLength(corpus) >= |corpus[i]|
    decreases |corpus|
  {
    var n := |corpus| - 1;
    if i < n {
      assert corpus[..n][i] == corpus[i];
      TotalLengthAtLeast(corpus[..n], i);
    }
  }

  /** A document holding a term makes the average length positive, so `doc_len / avgdl` is defined. */
  lemma AvgDlPositive(corpus: seq<seq<string>>, i: nat)
    requires i < |corpus| && |corpus[i]| >= 1
    ensures AvgDl(corpus) > 0.0
  {
    TotalLengthAtLeast(corpus, i);
  }

  lemma {:induction false} VocabularyMembership(corpus: seq<seq<string>>, t: string)
    ensures t in Vocabulary(corpus) <==> exists i :: 0 <= i < |corpus| && t in corpus[i]
    decreases |corpus|
  {
    if corpus != [] {
      var n := |corpus| - 1;
      VocabularyMembership(corpus[..n], t);
      if t in Vocabulary(corpus[..n]) {
        var i :| 0 <= i < n && t in corpus[..n][i];
        assert corpus[i] == corpus[..n][i];
      }
      if exists i :: 0 <= i < |corpus| && t in corpus[i] {
        var i :| 0 <= i < |corpus| && t in corpus[i];
        if i < n {
          assert corpus[..n][i] == corpus[i];
        }
      }
    }
  }

  /** The documents that contain `t`. */
  function Holders(corpus: seq<seq<string>>, t: string): set<nat> {
    set i: nat | i < |corpus| && t in corpus[i]
  }

  lemma HoldersSnoc(corpus: seq<seq<string>>, t: string)
    requires corpus != []
    ensures Holders(corpus, t)
         == Holders(corpus[..|corpus| - 1], t) + (if t in corpus[|corpus| - 1] then {|corpus| - 1} else {})
  {
    var n := |corpus| - 1;
    forall i: nat | i < n ensures corpus[..n][i] == corpus[i] {}
  }

  /** `DocFreq` counts the documents that contain the term. */
  lemma {:induction false} DocFreqCountsHolders(corpus: seq<seq<string>>, t: string)
    ensures DocFreq(corpus, t) == |Holders(corpus, t)|
    decreases |corpus|
  {
    if corpus != [] {
      var n := |corpus| - 1;
      DocFreqCountsHolders(corpus[..n], t);
      var prev := Holders(corpus[..n], t);
      var last := if t in corpus[n] then {n} else {};
      HoldersSnoc(corpus, t);
      assert prev !! last;
    }
  }

  /**
   * The document frequency of a term is between 1 and the corpus size
   * exactly for the terms of the vocabulary, and 0 for every other term.
   */
  lemma {:induction false} DocFreqBounds(corpus: seq<seq<string>>, t: string)
    ensures DocFreq(corpus, t) <= |corpus|
    ensures t in Vocabulary(corpus) <==> DocFreq(corpus, t) >= 1
    decreases |corpus|
  {
    if corpus != [] {
      DocFreqBounds(corpus[..|corpus| - 1], t);
    }
  }

  /**
   * The argument of `math.log` is positive for every term of the corpus, and
   * below 1 (a negative IDF for `math.log`) exactly when more than half of
   * the documents contain the term.
   */
  lemma IdfArgument(corpus: seq<seq<string>>, t: string)
    requires t in Vocabulary(corpus)
    ensures var df := DocFreq(corpus, t) as real; var x := (|corpus| as real - df + 0.5) / (df + 0.5);
      x > 0.0 && (x < 1.0 <==> 2.0 * df > |corpus| as real)
  {
    DocFreqBounds(corpus, t);
    var df := DocFreq(corpus, t) as real;
    DivLessOne(|corpus| as real - df + 0.5, df + 0.5);
  }

  // ---------------------------------------------------------------------
  // Properties of the scores.
  // ---------------------------------------------------------------------

  /** A document that shares no term with the query scores 0. */
  lemma {:induction false} DocScoreDisjoint(p: Params, corpus: seq<seq<string>>, log: real -> real, query: seq<string>, i: nat)
    requires p.InRange() && i < |corpus|
    requires forall k :: 0 <= k < |query| ==> query[k] !in corpus[i]
    ensures DocScore(p, corpus, log, query, i) == 0.0
    decreases |query|
  {
    if query != [] {
      DocScoreDisjoint(p, corpus, log, query[..|query| - 1], i);
    }
  }

  /** Scores add up over the query: every query position counts, so a repeated term counts again. */
  lemma {:induction false} DocScoreAppend(p: Params, corpus: seq<seq<string>>, log: real -> real, q1: seq<string>, q2: seq<string>, i: nat)
    requires p.InRange() && i < |corpus|
    ensures DocScore(p, corpus, log, q1 + q2, i) == DocScore(p, corpus, log, q1, i) + DocScore(p, corpus, log, q2, i)
    decreases |q2|
  {
    if q2 == [] {
      assert q1 + q2 == q1;
    } else {
      var n := |q2| - 1;
      assert (q1 + q2)[..|q1 + q2| - 1] == q1 + q2[..n];
      DocScoreAppend(p, corpus, log, q1, q2[..n], i);
    }
  }

  /** A query of one term scores each document by that term's contribution, or 0 if absent. */
  lemma DocScoreSingle(p: Params, corpus: seq<seq<string>>, log: real -> real, t: string, i: nat)
    requires p.InRange() && i < |corpus|
    ensures t in corpus[i] ==> DocScore(p, corpus, log, [t], i) == TermScore(p, corpus, log, i, t)
    ensures t !in corpus[i] ==> DocScore(p, corpus, log, [t], i) == 0.0
  {
    assert [t][..0] == [];
  }

  /** `x / (x + c)` grows with `x`. */
  lemma RatioIncreasing(x: real, y: real, c: real)
    requires 0.0 < x < y && c > 0.0
    ensures x / (x + c) < y / (y + c)
  {
    DivSum(x, c, x + c);
    DivSum(y, c, y + c);
    DivDecreasing(c, x + c, y + c);
  }

  /** With a positive IDF, a BM25+ contribution always exceeds `idf * delta`. */
  lemma PlusContributionAboveFloor(tf: nat, norm: real, idf: real, k1: real, delta: real)
    requires tf >= 1 && k1 >= 0.0 && norm > 0.0 && idf > 0.0
    ensures PlusContribution(tf, norm, idf, k1, delta) > idf * delta
  {
    assert k1 * norm >= 0.0;
    var q := (tf as real * (k1 + 1.0)) / (tf as real + k1 * norm);
    assert tf as real * (k1 + 1.0) > 0.0;
    assert q > 0.0;
    assert idf * (q + delta) == idf * q + idf * delta;
    assert idf * q > 0.0;
  }

  /** With `k1 > 0` and a positive IDF, a BM25+ contribution strictly increases with the term frequency. */
  lemma PlusContributionIncreasing(tf1: nat, tf2: nat, norm: real, idf: real, k1: real, delta: real)
    requires 1 <= tf1 < tf2 && k1 > 0.0 && norm > 0.0 && idf > 0.0
    ensures PlusContribution(tf1, norm, idf, k1, delta) < PlusContribution(tf2, norm, idf, k1, delta)
  {
    var c := k1 * norm;
    assert c > 0.0;
    var x, y := tf1 as real, tf2 as real;
    ScaledRatioIncreasing(x, y, c, k1 + 1.0);
    MulLess(x * (k1 + 1.0) / (x + c) + delta, y * (k1 + 1.0) / (y + c) + delta, idf);
  }

  /** `x * m / (x + c)` grows with `x`. */
  lemma ScaledRatioIncreasing(x: real, y: real, c: real, m: real)
    requires 0.0 < x < y && c > 0.0 && m > 0.0
    ensures x * m / (x + c) < y * m / (y + c)
  {
    RatioIncreasing(x, y, c);
    var rx, ry := x / (x + c), y / (y + c);
    MulDiv(x, m, x + c);
    MulDiv(y, m, y + c);
    MulLess(rx, ry, m);
  }

  /** A BM25L contribution is at least `delta` whenever the IDF is not negative: `delta` sits outside the product. */
  lemma LContributionAtLeastDelta(tf: nat, norm: real, idf: real, k1: real, delta: real)
    requires tf >= 1 && k1 >= 0.0 && norm > 0.0 && idf >= 0.0
    ensures LContribution(tf, norm, idf, k1, delta) >= delta
  {
    var ctd := tf as real / norm;
    assert ctd > 0.0;
    var q := ((k1 + 1.0) * ctd) / (k1 + ctd);
    assert q > 0.0;
    assert idf * q >= 0.0;
  }

  // ---------------------------------------------------------------------
  // The index object.
  // ---------------------------------------------------------------------

  /** The inner loop of the constructor: one more document raises `nd` for each of its distinct terms. */
  method CountDocumentTerms(nd0: map<string, nat>, prefix: seq<seq<string>>, doc: seq<string>)
    returns (nd: map<string, nat>)
    requires nd0 == DocFreqTable(prefix)
    ensures nd == DocFreqTable(prefix + [doc])
  {
    nd := nd0;
    var frequencies := Counts(doc);
    var words := frequencies.Keys;
    ghost var done: set<string> := {};
    while words != {}
      invariant words !! done && words + done == frequencies.Keys
      invariant nd.Keys == Vocabulary(prefix) + done
      invariant forall t :: t in nd ==> nd[t] == DocFreq(prefix, t) + (if t in done then 1 else 0)
      decreases words
    {
      var word :| word in words;
      DocFreqBounds(prefix, word);
      nd := nd[word := (if word in nd then nd[word] else 0) + 1];
      words := words - {word};
      done := done + {word};
    }
    DocFreqTableSnoc(prefix, doc, nd, done);
  }

  /** A table that adds one to the frequency of each term of `doc` is the table of `prefix + [doc]`. */
  lemma DocFreqTableSnoc(prefix: seq<seq<string>>, doc: seq<string>, nd: map<string, nat>, done: set<string>)
    requires forall t :: t in done <==> t in doc
    requires nd.Keys == Vocabulary(prefix) + done
    requires forall t :: t in nd ==> nd[t] == DocFreq(prefix, t) + (if t in done then 1 else 0)
    ensures nd == DocFreqTable(prefix + [doc])
  {
    var corpus := prefix + [doc];
    assert corpus[..|prefix|] == prefix;
    assert done == Terms(doc);
    assert Vocabulary(corpus) == nd.Keys;
    forall t | t in nd
      ensures nd[t] == DocFreq(corpus, t)
    {
    }
  }

  /** The IDF loop of the constructor: one `log` entry per key of `nd`. */
  method IdfFromDocFreqs(n: nat, nd: map<string, nat>, log: real -> real) returns (idf: map<string, real>)
    ensures idf.Keys == nd.Keys
    ensures forall t :: t in idf ==> idf[t] == IdfValue(n, nd[t], log)
  {
    idf := map[];
    var pending := nd.Keys;
    while pending != {}
      invariant pending <= nd.Keys
      invariant idf.Keys == nd.Keys - pending
      invariant forall t :: t in idf ==> idf[t] == IdfValue(n, nd[t], log)
      decreases pending
    {
      var word :| word in pending;
      idf := idf[word := log((n as real - nd[word] as real + 0.5) / (nd[word] as real + 0.5))];
      pending := pending - {word};
    }
  }

  /** Builds `avgdl`, `doc_len`, `doc_freqs` and `idf` the way both constructors do. */
  method BuildStatistics(corpus: seq<seq<string>>, log: real -> real)
    returns (avgdl: real, docLen: seq<nat>, docFreqs: seq<map<string, nat>>, idf: map<string, real>)
    ensures avgdl == AvgDl(corpus)
    ensures docLen == DocLengths(corpus)
    ensures docFreqs == FrequencyTables(corpus)
    ensures idf == IdfTable(corpus, log)
  {
    avgdl := if |corpus| > 0 then TotalLength(corpus) as real / |corpus| as real else 0.0;
    docLen, docFreqs := [], [];
    var nd: map<string, nat> := map[];
    var i := 0;
    while i < |corpus|
      invariant 0 <= i <= |corpus|
      invariant |docLen| == i && forall j :: 0 <= j < i ==> docLen[j] == |corpus[j]|
      invariant |docFreqs| == i && forall j :: 0 <= j < i ==> docFreqs[j] == Counts(corpus[j])
      invariant nd == DocFreqTable(corpus[..i])
    {
      var doc := corpus[i];
      docLen := docLen + [|doc|];
      docFreqs := docFreqs + [Counts(doc)];
      nd := CountDocumentTerms(nd, corpus[..i], doc);
      assert corpus[..i] + [doc] == corpus[..i + 1];
      i := i + 1;
    }
    assert corpus[..i] == corpus;
    assert docLen == DocLengths(corpus);
    assert docFreqs == FrequencyTables(corpus);
    idf := IdfFromDocFreqs(|corpus|, nd, log);
    IdfFromTable(corpus, nd, idf, log);
  }

  /** An IDF map that has one `IdfValue` per entry of the document-frequency table is the corpus's IDF table. */
  lemma IdfFromTable(corpus: seq<seq<string>>, nd: map<string, nat>, idf: map<string, real>, log: real -> real)
    requires nd == DocFreqTable(corpus) && idf.Keys == nd.Keys
    requires forall t :: t in idf ==> idf[t] == IdfValue(|corpus|, nd[t], log)
    ensures idf == IdfTable(corpus, log)
  {
  }

  class BM25Index {
    const params: Params
    /** The logarithm used for IDF (`math.log`). */
    const log: real -> real
    var corpus: seq<seq<string>>
    var corpusSize: nat
    var avgdl: real
    var docFreqs: seq<map<string, nat>>
    var idf: map<string, real>
    var docLen: seq<nat>

    /** The statistics are those of the current corpus. */
    ghost predicate Valid()
      reads this
    {
      && params.InRange()
      && corpusSize == |corpus|
      && avgdl == AvgDl(corpus)
      && docLen == DocLengths(corpus)
      && docFreqs == FrequencyTables(corpus)
      && idf == IdfTable(corpus, log)
    }

    /** `BM25Plus(corpus, k1, b, delta)` */
    constructor Plus(corpus: seq<seq<string>>, log: real -> real, k1: real := 1.2, b: real := 0.75, delta: real := 1.0)
      requires k1 >= 0.0 && 0.0 <= b <= 1.0
      ensures Valid()
      ensures params == Params(BM25Plus, k1, b, delta) && this.log == log && this.corpus == corpus
    {
      var a, dl, df, idfs := BuildStatistics(corpus, log);
      params := Params(BM25Plus, k1, b, delta);
      this.log := log;
      this.corpus := corpus;
      corpusSize := |corpus|;
      avgdl, docLen, docFreqs, idf := a, dl, df, idfs;
    }

    /** `BM25L(corpus, k1, b, delta)` */
    constructor L(corpus: seq<seq<string>>, log: real -> real, k1: real := 1.2, b: real := 0.75, delta: real := 0.5)
      requires k1 >= 0.0 && 0.0 <= b <= 1.0
      ensures Valid()
      ensures params == Params(BM25L, k1, b, delta) && this.log == log && this.corpus == corpus
    {
      var a, dl, df, idfs := BuildStatistics(corpus, log);
      params := Params(BM25L, k1, b, delta);
      this.log := log;
      this.corpus := corpus;
      corpusSize := |corpus|;
      avgdl, docLen, docFreqs, idf := a, dl, df, idfs;
    }

    /** One score per document, in corpus order, each the document's `DocScore`. */
    method GetScores(query: seq<string>) returns (scores: seq<real>)
      requires Valid()
      ensures scores == CorpusScores(params, corpus, log, query)
    {
      scores := [];
      var i := 0;
      while i < |corpus|
        invariant 0 <= i <= |corpus|
        invariant |scores| == i
        invariant forall j :: 0 <= j < i ==> scores[j] == DocScore(params, corpus, log, query, j)
      {
        var score := 0.0;
        var freqs := docFreqs[i];
        var dl := docLen[i];
        var k := 0;
        while k < |query|
          invariant 0 <= k <= |query|
          invariant score == DocScore(params, corpus, log, query[..k], i)
        {
          var term := query[k];
          assert query[..k + 1][..k] == query[..k];
          if term in freqs {
            var tf := freqs[term];
            var idfScore := if term in idf then idf[term] else 0.0;
            AvgDlPositive(corpus, i);
            score := score + Contribution(params, tf, dl, avgdl, idfScore);
          }
          k := k + 1;
        }
        assert query[..|query|] == query;
        scores := scores + [score];
        i := i + 1;
      }
    }

    /** `get_top_n`: the `n` best documents, highest score first. */
    method GetTopN(query: seq<string>, n: int := 10) returns (top: seq<ScoredDoc>)
      requires Valid()
      ensures top == TopN(CorpusScores(params, corpus, log, query), n)
    {
      var scores := GetScores(query);
      top := TopN(scores, n);
    }

    /** `update_corpus`: the same state as a fresh index over the new corpus with the same parameters. */
    method UpdateCorpus(newCorpus: seq<seq<string>>)
      requires Valid()
      modifies this
      ensures Valid() && corpus == newCorpus
    {
      var a, dl, df, idfs := BuildStatistics(newCorpus, log);
      corpus := newCorpus;
      corpusSize := |newCorpus|;
      avgdl, docLen, docFreqs, idf := a, dl, df, idfs;
    }
  }
}
