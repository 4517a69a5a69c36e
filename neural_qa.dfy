/**
 * The answer-span layer of the extractive question answerer: the context
 * window cut around an answer, the filtering, scoring and ranking of the
 * answers the QA pipeline returns per passage, the de-duplication of the
 * token spans proposed for one passage, and the record handed on to
 * generation. The QA model, the tokenizer and the softmax over its logits
 * are parameters.
 */
module NeuralQA {
  import opened Common
  import opened Text
  import opened Ranking

  /* ---------------- context window ---------------- */

  /** Where `_get_context_window` starts the window: the nearest space at or before `k`, or 0. */
  function ExpandLeft(passage: string, k: int): (r: int)
    requires 0 <= k && (k == 0 || k < |passage|)
    ensures 0 <= r <= k
    ensures r == 0 || passage[r] == ' '
    ensures forall j :: r < j <= k ==> passage[j] != ' '
    decreases k
  {
    if k > 0 && passage[k] != ' ' then ExpandLeft(passage, k - 1) else k
  }

  /** Where the window ends: the nearest space at or after `k`, or the end of the passage. */
  function ExpandRight(passage: string, k: int): (r: int)
    requires 0 <= k <= |passage|
    ensures k <= r <= |passage|
    ensures r == |passage| || passage[r] == ' '
    ensures forall j :: k <= j < r ==> passage[j] != ' '
    decreases |passage| - k
  {
    if k < |passage| && passage[k] != ' ' then ExpandRight(passage, k + 1) else k
  }

  /** `"..."` on a side that was cut, nothing otherwise. */
  function Mark(cut: bool): string {
    if cut then "..." else ""
  }

  /** The window text for the bounds `lo..hi`: the stripped slice, with `"..."` on each side that was cut. */
  function Window(passage: string, lo: int, hi: int): string
    requires 0 <= lo <= hi <= |passage|
  {
    Mark(lo > 0) + Strip(passage[lo..hi]) + Mark(hi < |passage|)
  }

  /** Text between two optional marks starts with `"..."` when the left mark is set and ends with it when the right one is. */
  lemma Marked(c: string, left: bool, right: bool)
    ensures var r := Mark(left) + c + Mark(right);
      && (left ==> |r| >= 3 && r[..3] == "..." && r[3..] == c + Mark(right))
      && (!left ==> r == c + Mark(right))
      && (right ==> |r| >= 3 && r[|r| - 3..] == "...")
      && (!right ==> r == Mark(left) + c)
  {
    var r := Mark(left) + c + Mark(right);
    if left {
      assert r == "..." + (c + Mark(right));
    }
    if right {
      assert r == (Mark(left) + c) + "...";
    }
  }

  /** The window starts with `"..."` when its start was cut and ends with it when its end was cut. */
  lemma WindowMarks(passage: string, lo: int, hi: int)
    requires 0 <= lo <= hi <= |passage|
    ensures var r := Window(passage, lo, hi);
      && (lo > 0 ==> |r| >= 3 && r[..3] == "..." && r[3..] == Strip(passage[lo..hi]) + Mark(hi < |passage|))
      && (lo == 0 ==> r == Strip(passage[lo..hi]) + Mark(hi < |passage|))
      && (hi < |passage| ==> |r| >= 3 && r[|r| - 3..] == "...")
      && (hi == |passage| ==> r == Mark(lo > 0) + Strip(passage[lo..hi]))
  {
    Marked(Strip(passage[lo..hi]), lo > 0, hi < |passage|);
  }

  /** The first index the loop moves `context_start` from, `max(0, start_pos - window_size)`. */
  function LeftSeed(startPos: int, windowSize: int): int {
    Max(0, startPos - windowSize)
  }

  /** The first index the loop moves `context_end` from, `min(len(passage), end_pos + window_size)`. */
  function RightSeed(passage: string, endPos: int, windowSize: int): int {
    Min(|passage|, endPos + windowSize)
  }

  /**
   * What `_get_context_window` may be asked: offsets inside the passage
   * (as the QA pipeline reports them), and a first left index that can be
   * read whenever the left loop reads it.
   */
  predicate WindowArgs(passage: string, startPos: int, endPos: int, windowSize: int) {
    && 0 <= startPos <= endPos <= |passage| && windowSize >= 0
    && (LeftSeed(startPos, windowSize) == 0 || LeftSeed(startPos, windowSize) < |passage|)
  }

  function ContextWindow(passage: string, startPos: int, endPos: int, windowSize: int): string
    requires WindowArgs(passage, startPos, endPos, windowSize)
  {
    Window(passage, ExpandLeft(passage, LeftSeed(startPos, windowSize)),
           ExpandRight(passage, RightSeed(passage, endPos, windowSize)))
  }

  /**
   * `_get_context_window`: the window covers the answer, reaches out to at
   * least `window_size` characters on each side where the passage allows,
   * stops on spaces or the passage ends, and marks each cut side with `"..."`.
   */
  method GetContextWindow(passage: string, startPos: int, endPos: int, windowSize: int := 100)
    returns (context: string)
    requires WindowArgs(passage, startPos, endPos, windowSize)
    ensures context == ContextWindow(passage, startPos, endPos, windowSize)
  {
    var contextStart := Max(0, startPos - windowSize);
    var contextEnd := Min(|passage|, endPos + windowSize);
    ghost var seedStart, seedEnd := contextStart, contextEnd;
    assert seedStart == LeftSeed(startPos, windowSize) && seedEnd == RightSeed(passage, endPos, windowSize);
    while contextStart > 0 && passage[contextStart] != ' '
      invariant 0 <= contextStart <= seedStart
      invariant ExpandLeft(passage, contextStart) == ExpandLeft(passage, seedStart)
      decreases contextStart
    {
      contextStart := contextStart - 1;
    }
    while contextEnd < |passage| && passage[contextEnd] != ' '
      invariant seedEnd <= contextEnd <= |passage|
      invariant ExpandRight(passage, contextEnd) == ExpandRight(passage, seedEnd)
      decreases |passage| - contextEnd
    {
      contextEnd := contextEnd + 1;
    }
    assert contextStart == ExpandLeft(passage, seedStart);
    assert contextEnd == ExpandRight(passage, seedEnd);
    context := AddEllipses(Strip(passage[contextStart..contextEnd]), contextStart > 0, contextEnd < |passage|);
    assert context == Window(passage, contextStart, contextEnd);
  }

  /** The two `if`s that put `"..."` on each side that was cut. */
  method AddEllipses(core: string, cutStart: bool, cutEnd: bool) returns (context: string)
    ensures context == Mark(cutStart) + core + Mark(cutEnd)
  {
    context := core;
    if cutStart {
      context := "..." + context;
    }
    if cutEnd {
      context := context + "...";
    }
  }

  /**
   * The bounds the window is cut at: they contain the answer and the
   * requested margin, and each lies on a space or at an end of the passage.
   */
  lemma ContextWindowBounds(passage: string, startPos: int, endPos: int, windowSize: int) returns (lo: int, hi: int)
    requires WindowArgs(passage, startPos, endPos, windowSize)
    ensures 0 <= lo <= Max(0, startPos - windowSize) <= startPos
    ensures endPos <= Min(|passage|, endPos + windowSize) <= hi <= |passage|
    ensures lo == 0 || passage[lo] == ' '
    ensures hi == |passage| || passage[hi] == ' '
    ensures ContextWindow(passage, startPos, endPos, windowSize) == Window(passage, lo, hi)
  {
    lo := ExpandLeft(passage, LeftSeed(startPos, windowSize));
    hi := ExpandRight(passage, RightSeed(passage, endPos, windowSize));
  }

  /* ---------------- answers from the QA pipeline ---------------- */

  /** What the question-answering pipeline returns for one passage: the answer, its score and its character offsets. */
  datatype QaAnswer = QaAnswer(answer: string, score: real, start: int, end: int)

  /** One answer span of `extract_answer_spans`. */
  datatype AnswerSpan = AnswerSpan(answerText: string, confidence: real, retrievalScore: real, combinedScore: real,
                                   startPosition: int, endPosition: int, passageIndex: nat, passageText: string,
                                   contextWindow: string)

  function CombinedOf(s: AnswerSpan): real { s.combinedScore }

  function PassageIndexOf(s: AnswerSpan): int { s.passageIndex }

  /** The window size `extract_answer_spans` asks for. */
  const DefaultWindowSize := 100

  /** The combined score: the confidence raised by the retrieval score, `confidence * (1 + retrieval_score)`. */
  function Boosted(confidence: real, retrievalScore: real): real {
    confidence * (1.0 + retrievalScore)
  }

  /** `passage_scores[i]` when the scores are given and cover passage `i`, 1.0 otherwise. */
  function RetrievalScore(passageScores: Option<seq<real>>, i: nat): (r: real)
    ensures passageScores.Some? && i < |passageScores.value| ==> r == passageScores.value[i]
    ensures passageScores.None? || i >= |passageScores.value| ==> r == 1.0
  {
    if passageScores.Some? && i < |passageScores.value| then passageScores.value[i] else 1.0
  }

  /**
   * An answer becomes a span when its score reaches the threshold and its
   * text is not blank, and when its context window can be cut (offsets
   * outside the passage raise there, and that passage is skipped).
   */
  predicate Accepted(passage: string, a: QaAnswer, threshold: real) {
    a.score >= threshold && !Blank(a.answer) && WindowArgs(passage, a.start, a.end, DefaultWindowSize)
  }

  /** Passage `i` yields a span: its pipeline call succeeded and the answer is accepted. */
  predicate Kept(passages: seq<string>, answers: seq<Result<QaAnswer>>, threshold: real, i: nat)
    requires i < |passages| == |answers|
  {
    answers[i].Ok? && Accepted(passages[i], answers[i].value, threshold)
  }

  /** The span built from the accepted answer of passage `i`. */
  function SpanOfPassage(passages: seq<string>, answers: seq<Result<QaAnswer>>, passageScores: Option<seq<real>>,
                         threshold: real, i: nat): (s: AnswerSpan)
    requires i < |passages| == |answers| && Kept(passages, answers, threshold, i)
    ensures s.passageIndex == i
  {
    var a := answers[i].value;
    var retrievalScore := RetrievalScore(passageScores, i);
    AnswerSpan(Strip(a.answer), a.score, retrievalScore, Boosted(a.score, retrievalScore), a.start, a.end, i,
               passages[i], ContextWindow(passages[i], a.start, a.end, DefaultWindowSize))
  }

  /** `s` is the span of the passage it names. */
  predicate IsSpanOf(passages: seq<string>, answers: seq<Result<QaAnswer>>, passageScores: Option<seq<real>>,
                     threshold: real, s: AnswerSpan) {
    && s.passageIndex < |passages| == |answers| && Kept(passages, answers, threshold, s.passageIndex)
    && s == SpanOfPassage(passages, answers, passageScores, threshold, s.passageIndex)
  }

  /** The spans collected from the first `n` passages, in passage order. */
  function Candidates(passages: seq<string>, answers: seq<Result<QaAnswer>>, passageScores: Option<seq<real>>,
                      threshold: real, n: nat): (r: seq<AnswerSpan>)
    requires n <= |passages| == |answers|
    ensures |r| <= n
    ensures forall k :: 0 <= k < |r| ==> r[k].passageIndex < n
    ensures IncreasingPos(r, PassageIndexOf)
    decreases n
  {
    if n == 0 then []
    else
      var prev := Candidates(passages, answers, passageScores, threshold, n - 1);
      if Kept(passages, answers, threshold, n - 1)
      then
        var s := SpanOfPassage(passages, answers, passageScores, threshold, n - 1);
        CandidatesSnoc(prev, s, n - 1);
        prev + [s]
      else prev
  }

  /** Appending the span of a later passage keeps the spans in passage order. */
  lemma CandidatesSnoc(prev: seq<AnswerSpan>, s: AnswerSpan, m: nat)
    requires forall k :: 0 <= k < |prev| ==> prev[k].passageIndex < m
    requires IncreasingPos(prev, PassageIndexOf) && s.passageIndex == m
    ensures IncreasingPos(prev + [s], PassageIndexOf)
    ensures forall k :: 0 <= k < |prev + [s]| ==> (prev + [s])[k].passageIndex <= m
  {
  }

  /** The `k`-th collected span is the span of the passage it names. */
  lemma {:induction false} CandidateAt(passages: seq<string>, answers: seq<Result<QaAnswer>>,
                                       passageScores: Option<seq<real>>, threshold: real, n: nat, k: nat)
    requires n <= |passages| == |answers|
    requires k < |Candidates(passages, answers, passageScores, threshold, n)|
    ensures IsSpanOf(passages, answers, passageScores, threshold, Candidates(passages, answers, passageScores, threshold, n)[k])
    decreases n
  {
    var prev := Candidates(passages, answers, passageScores, threshold, n - 1);
    if Kept(passages, answers, threshold, n - 1) && k == |prev| {
      var s := SpanOfPassage(passages, answers, passageScores, threshold, n - 1);
      assert Candidates(passages, answers, passageScores, threshold, n)[k] == s;
    } else {
      CandidateAt(passages, answers, passageScores, threshold, n - 1, k);
      assert Candidates(passages, answers, passageScores, threshold, n)[k] == prev[k];
    }
  }

  /** Each collected span is the span of the passage it names. */
  lemma CandidatesSound(passages: seq<string>, answers: seq<Result<QaAnswer>>,
                        passageScores: Option<seq<real>>, threshold: real, n: nat)
    requires n <= |passages| == |answers|
    ensures var r := Candidates(passages, answers, passageScores, threshold, n);
      forall k :: 0 <= k < |r| ==> IsSpanOf(passages, answers, passageScores, threshold, r[k])
  {
    var r := Candidates(passages, answers, passageScores, threshold, n);
    forall k | 0 <= k < |r| ensures IsSpanOf(passages, answers, passageScores, threshold, r[k]) {
      CandidateAt(passages, answers, passageScores, threshold, n, k);
    }
  }

  /** What the pipeline answers for each passage, in order. */
  function PipelineAnswers(qa: (string, string) -> Result<QaAnswer>, question: string, passages: seq<string>)
    : (r: seq<Result<QaAnswer>>)
    ensures |r| == |passages| && forall i :: 0 <= i < |r| ==> r[i] == qa(question, passages[i])
  {
    seq(|passages|, i requires 0 <= i < |passages| => qa(question, passages[i]))
  }

  /** `extract_answer_spans`: the collected spans, highest combined score first, cut to `top_k`. */
  function AnswerSpans(passages: seq<string>, answers: seq<Result<QaAnswer>>, passageScores: Option<seq<real>>,
                       threshold: real, topK: int): seq<AnswerSpan>
    requires |answers| == |passages|
  {
    if passages == [] then []
    else PyPrefix(SortDesc(Candidates(passages, answers, passageScores, threshold, |passages|), CombinedOf), topK)
  }

  /**
   * What a span carries: an answer at or above the threshold, stripped and
   * not blank, its passage and window, and a combined score of
   * `confidence * (1 + retrieval_score)` with the retrieval score defaulting to 1.0.
   */
  lemma SpanFacts(passages: seq<string>, answers: seq<Result<QaAnswer>>, passageScores: Option<seq<real>>,
                  threshold: real, s: AnswerSpan)
    requires IsSpanOf(passages, answers, passageScores, threshold, s)
    ensures answers[s.passageIndex].Ok?
    ensures var a := answers[s.passageIndex].value;
      && s.confidence == a.score >= threshold
      && s.answerText == Strip(a.answer) != []
      && !IsSpace(s.answerText[0]) && !IsSpace(s.answerText[|s.answerText| - 1])
      && s.startPosition == a.start && s.endPosition == a.end
      && WindowArgs(passages[s.passageIndex], a.start, a.end, DefaultWindowSize)
      && s.contextWindow == ContextWindow(passages[s.passageIndex], a.start, a.end, DefaultWindowSize)
    ensures s.passageText == passages[s.passageIndex]
    ensures s.retrievalScore == RetrievalScore(passageScores, s.passageIndex)
    ensures s.combinedScore == Boosted(s.confidence, s.retrievalScore)
  {
    StripEmpty(answers[s.passageIndex].value.answer);
  }

  /** One more passage appends at most its own span to the candidates. */
  lemma CandidatesStep(passages: seq<string>, answers: seq<Result<QaAnswer>>, passageScores: Option<seq<real>>,
                       threshold: real, n: nat)
    requires 0 < n <= |passages| == |answers|
    ensures var prev := Candidates(passages, answers, passageScores, threshold, n - 1);
      var r := Candidates(passages, answers, passageScores, threshold, n);
      && |prev| <= |r| && r[..|prev|] == prev
      && (Kept(passages, answers, threshold, n - 1) ==> |r| == |prev| + 1 && r[|prev|].passageIndex == n - 1)
  {
  }

  /** Every passage whose answer is accepted has a span among the candidates, at position `k`. */
  lemma {:induction false} CandidateKept(passages: seq<string>, answers: seq<Result<QaAnswer>>, passageScores: Option<seq<real>>,
                                         threshold: real, n: nat, i: nat) returns (k: nat)
    requires i < n <= |passages| == |answers| && Kept(passages, answers, threshold, i)
    ensures k < |Candidates(passages, answers, passageScores, threshold, n)|
    ensures Candidates(passages, answers, passageScores, threshold, n)[k].passageIndex == i
    decreases n
  {
    CandidatesStep(passages, answers, passageScores, threshold, n);
    var prev := Candidates(passages, answers, passageScores, threshold, n - 1);
    if i == n - 1 {
      k := |prev|;
    } else {
      k := CandidateKept(passages, answers, passageScores, threshold, n - 1, i);
      assert prev[k] == Candidates(passages, answers, passageScores, threshold, n)[..|prev|][k];
    }
  }

  /** Each span `extract_answer_spans` returns is the accepted answer of its own passage. */
  lemma AnswerSpansSound(passages: seq<string>, answers: seq<Result<QaAnswer>>, passageScores: Option<seq<real>>,
                         threshold: real, topK: int)
    requires |answers| == |passages|
    ensures var r := AnswerSpans(passages, answers, passageScores, threshold, topK);
      forall k :: 0 <= k < |r| ==> IsSpanOf(passages, answers, passageScores, threshold, r[k])
  {
    if passages != [] {
      var cands := Candidates(passages, answers, passageScores, threshold, |passages|);
      var sorted := SortDesc(cands, CombinedOf);
      var r := PyPrefix(sorted, topK);
      forall k | 0 <= k < |r| ensures IsSpanOf(passages, answers, passageScores, threshold, r[k]) {
        assert r[k] == sorted[k];
        assert sorted[k] in multiset(cands);
        var j :| 0 <= j < |cands| && cands[j] == sorted[k];
        CandidateAt(passages, answers, passageScores, threshold, |passages|, j);
      }
    }
  }

  /**
   * The order of `extract_answer_spans`: no passages give no spans; highest
   * combined score first, equal scores in passage order; no passage twice;
   * at most `top_k` spans for a non-negative `top_k`.
   */
  lemma AnswerSpansOrder(passages: seq<string>, answers: seq<Result<QaAnswer>>, passageScores: Option<seq<real>>,
                         threshold: real, topK: int)
    requires |answers| == |passages|
    ensures var r := AnswerSpans(passages, answers, passageScores, threshold, topK);
      && (passages == [] ==> r == [])
      && LexDesc(r, CombinedOf, PassageIndexOf) && DistinctPos(r, PassageIndexOf)
      && (topK >= 0 ==> |r| <= topK)
  {
    if passages != [] {
      var cands := Candidates(passages, answers, passageScores, threshold, |passages|);
      var sorted := SortDesc(cands, CombinedOf);
      var r := PyPrefix(sorted, topK);
      SortDescStable(cands, CombinedOf, PassageIndexOf);
      assert LexDesc(r, CombinedOf, PassageIndexOf) by {
        forall i, j | 0 <= i < j < |r| ensures r[i] == sorted[i] && r[j] == sorted[j] { }
      }
      assert DistinctPos(r, PassageIndexOf) by {
        forall i, j | 0 <= i < j < |r| ensures r[i] == sorted[i] && r[j] == sorted[j] { }
      }
    }
  }

  /** An accepted answer left out by the `top_k` cut scores no higher than any span returned. */
  lemma AnswerSpansExcluded(passages: seq<string>, answers: seq<Result<QaAnswer>>, passageScores: Option<seq<real>>,
                            threshold: real, topK: int, i: nat)
    requires i < |passages| == |answers|
    requires Kept(passages, answers, threshold, i)
    requires var r := AnswerSpans(passages, answers, passageScores, threshold, topK);
      forall k :: 0 <= k < |r| ==> r[k].passageIndex != i
    ensures var r := AnswerSpans(passages, answers, passageScores, threshold, topK);
      forall k :: 0 <= k < |r| ==>
        SpanOfPassage(passages, answers, passageScores, threshold, i).combinedScore <= r[k].combinedScore
  {
    var cands := Candidates(passages, answers, passageScores, threshold, |passages|);
    var r := AnswerSpans(passages, answers, passageScores, threshold, topK);
    var p := CandidateKept(passages, answers, passageScores, threshold, |passages|, i);
    CandidateAt(passages, answers, passageScores, threshold, |passages|, p);
    var s := cands[p];
    assert s == SpanOfPassage(passages, answers, passageScores, threshold, i);
    assert r == PyPrefix(SortDesc(cands, CombinedOf), topK);
    assert s !in r by {
      forall k | 0 <= k < |r| ensures r[k] != s { }
    }
    PrefixExcluded(cands, CombinedOf, topK, s);
    forall k | 0 <= k < |r| ensures CombinedOf(s) <= CombinedOf(r[k]) {
      var key: AnswerSpan -> real := CombinedOf;
      assert key(s) <= key(PyPrefix(SortDesc(cands, key), topK)[k]);
    }
  }

  /** The span of an accepted answer, its context window cut around the answer. */
  method BuildSpan(passages: seq<string>, ghost answers: seq<Result<QaAnswer>>, passageScores: Option<seq<real>>,
                   threshold: real, i: nat, a: QaAnswer) returns (span: AnswerSpan)
    requires i < |passages| == |answers| && answers[i] == Ok(a) && Kept(passages, answers, threshold, i)
    ensures span == SpanOfPassage(passages, answers, passageScores, threshold, i)
  {
    var retrievalScore := if passageScores.Some? && i < |passageScores.value| then passageScores.value[i] else 1.0;
    var window := GetContextWindow(passages[i], a.start, a.end);
    span := AnswerSpan(Strip(a.answer), a.score, retrievalScore, Boosted(a.score, retrievalScore),
                       a.start, a.end, i, passages[i], window);
  }

  /* ---------------- several spans from one passage ---------------- */

  /**
   * What the tokenizer and the QA model give for one question and passage:
   * the twenty most likely start and end token positions, the softmax
   * probability of each position, the token count of the question, and the
   * decoding of a token range back to text.
   */
  datatype SpanLogits = SpanLogits(startIndices: seq<int>, endIndices: seq<int>, startProb: int -> real,
                                   endProb: int -> real, questionTokens: int, decode: (int, int) -> string)

  /** The confidence of the span from token `s` to token `e`: the product of the two position probabilities. */
  function SpanConfidence(lg: SpanLogits, s: int, e: int): real {
    lg.startProb(s) * lg.endProb(e)
  }

  /** One span of `extract_multiple_spans_per_passage`. */
  datatype TokenSpan = TokenSpan(answerText: string, confidence: real, startToken: int, endToken: int)

  function ConfidenceOf(s: TokenSpan): real { s.confidence }

  /** The token range a start and an end may form: ordered, no longer than the limit, and past the question. */
  predicate ValidRange(lg: SpanLogits, maxAnswerLength: int, s: int, e: int) {
    s < e && e - s <= maxAnswerLength && s >= lg.questionTokens - 1
  }

  /** The span one (start, end) pair yields: a valid range, confident enough, decoding to non-blank text. */
  function PairSpan(lg: SpanLogits, maxAnswerLength: int, threshold: real, s: int, e: int): seq<TokenSpan> {
    if ValidRange(lg, maxAnswerLength, s, e) && SpanConfidence(lg, s, e) >= threshold
       && Strip(lg.decode(s, e)) != []
    then [TokenSpan(Strip(lg.decode(s, e)), SpanConfidence(lg, s, e), s, e)]
    else []
  }

  /** A kept span is the span of its own start and end pair. */
  predicate GoodSpan(lg: SpanLogits, maxAnswerLength: int, threshold: real, t: TokenSpan) {
    PairSpan(lg, maxAnswerLength, threshold, t.startToken, t.endToken) == [t]
  }

  /**
   * What a kept span satisfies: its start comes before its end, the range
   * is no longer than the limit and lies past the question, its confidence
   * is the product of the two position probabilities and reaches the
   * threshold, and its answer is the stripped, non-blank decoding.
   */
  lemma GoodSpanFacts(lg: SpanLogits, maxAnswerLength: int, threshold: real, t: TokenSpan)
    requires GoodSpan(lg, maxAnswerLength, threshold, t)
    ensures t.startToken < t.endToken && t.endToken - t.startToken <= maxAnswerLength
    ensures t.startToken >= lg.questionTokens - 1
    ensures t.confidence == SpanConfidence(lg, t.startToken, t.endToken) >= threshold
    ensures t.answerText == Strip(lg.decode(t.startToken, t.endToken)) != []
  {
  }

  /** The spans the start `s` forms with the first `n` end positions. */
  function RowSpans(lg: SpanLogits, maxAnswerLength: int, threshold: real, s: int, n: nat): seq<TokenSpan>
    requires n <= |lg.endIndices|
    decreases n
  {
    if n == 0 then []
    else RowSpans(lg, maxAnswerLength, threshold, s, n - 1) + PairSpan(lg, maxAnswerLength, threshold, s, lg.endIndices[n - 1])
  }

  /** The spans of the first `m` start positions, each against every end position. */
  function GridSpans(lg: SpanLogits, maxAnswerLength: int, threshold: real, m: nat): seq<TokenSpan>
    requires m <= |lg.startIndices|
    decreases m
  {
    if m == 0 then []
    else GridSpans(lg, maxAnswerLength, threshold, m - 1)
         + RowSpans(lg, maxAnswerLength, threshold, lg.startIndices[m - 1], |lg.endIndices|)
  }

  /** One more end position appends the span of that pair, if any, to the row. */
  lemma RowStep(lg: SpanLogits, maxAnswerLength: int, threshold: real, s: int, n: nat)
    requires n < |lg.endIndices|
    ensures RowSpans(lg, maxAnswerLength, threshold, s, n + 1)
         == RowSpans(lg, maxAnswerLength, threshold, s, n) + PairSpan(lg, maxAnswerLength, threshold, s, lg.endIndices[n])
  {
  }

  /** `RowStep` behind an arbitrary prefix of already collected spans. */
  lemma RowAppend(lg: SpanLogits, maxAnswerLength: int, threshold: real, s: int, n: nat, spans: seq<TokenSpan>)
    requires n < |lg.endIndices|
    ensures spans + RowSpans(lg, maxAnswerLength, threshold, s, n + 1)
         == (spans + RowSpans(lg, maxAnswerLength, threshold, s, n)) + PairSpan(lg, maxAnswerLength, threshold, s, lg.endIndices[n])
  {
    RowStep(lg, maxAnswerLength, threshold, s, n);
  }

  /** One more start position appends its row to the candidates. */
  lemma GridStep(lg: SpanLogits, maxAnswerLength: int, threshold: real, m: nat)
    requires m < |lg.startIndices|
    ensures GridSpans(lg, maxAnswerLength, threshold, m + 1)
         == GridSpans(lg, maxAnswerLength, threshold, m)
            + RowSpans(lg, maxAnswerLength, threshold, lg.startIndices[m], |lg.endIndices|)
  {
  }

  /** The `k`-th span of a row is a kept span of that row's start. */
  lemma {:induction false} RowSpanAt(lg: SpanLogits, maxAnswerLength: int, threshold: real, s: int, n: nat, k: nat)
    requires n <= |lg.endIndices| && k < |RowSpans(lg, maxAnswerLength, threshold, s, n)|
    ensures var t := RowSpans(lg, maxAnswerLength, threshold, s, n)[k];
      GoodSpan(lg, maxAnswerLength, threshold, t) && t.startToken == s
    decreases n
  {
    var prev := RowSpans(lg, maxAnswerLength, threshold, s, n - 1);
    var here := PairSpan(lg, maxAnswerLength, threshold, s, lg.endIndices[n - 1]);
    assert RowSpans(lg, maxAnswerLength, threshold, s, n) == prev + here;
    if k < |prev| {
      RowSpanAt(lg, maxAnswerLength, threshold, s, n - 1, k);
      assert RowSpans(lg, maxAnswerLength, threshold, s, n)[k] == prev[k];
    } else {
      assert RowSpans(lg, maxAnswerLength, threshold, s, n)[k] == here[0];
    }
  }

  /** The `k`-th candidate span is a kept span. */
  lemma {:induction false} GridSpanAt(lg: SpanLogits, maxAnswerLength: int, threshold: real, m: nat, k: nat)
    requires m <= |lg.startIndices| && k < |GridSpans(lg, maxAnswerLength, threshold, m)|
    ensures GoodSpan(lg, maxAnswerLength, threshold, GridSpans(lg, maxAnswerLength, threshold, m)[k])
    decreases m
  {
    var prev := GridSpans(lg, maxAnswerLength, threshold, m - 1);
    var row := RowSpans(lg, maxAnswerLength, threshold, lg.startIndices[m - 1], |lg.endIndices|);
    assert GridSpans(lg, maxAnswerLength, threshold, m) == prev + row;
    if k < |prev| {
      GridSpanAt(lg, maxAnswerLength, threshold, m - 1, k);
      assert GridSpans(lg, maxAnswerLength, threshold, m)[k] == prev[k];
    } else {
      RowSpanAt(lg, maxAnswerLength, threshold, lg.startIndices[m - 1], |lg.endIndices|, k - |prev|);
      assert GridSpans(lg, maxAnswerLength, threshold, m)[k] == row[k - |prev|];
    }
  }

  /** What is in either part of a concatenation is in the whole. */
  lemma InConcat(x: seq<TokenSpan>, y: seq<TokenSpan>, t: TokenSpan)
    requires t in x || t in y
    ensures t in x + y
  {
    if t in x {
      var i :| 0 <= i < |x| && x[i] == t;
      assert (x + y)[i] == t;
    } else {
      var i :| 0 <= i < |y| && y[i] == t;
      assert (x + y)[|x| + i] == t;
    }
  }

  /** Every start and end pair that passes the filters is among the candidate spans. */
  lemma {:induction false} GridKeeps(lg: SpanLogits, maxAnswerLength: int, threshold: real, m: nat, a: nat, b: nat, t: TokenSpan)
    requires a < m <= |lg.startIndices| && b < |lg.endIndices|
    requires PairSpan(lg, maxAnswerLength, threshold, lg.startIndices[a], lg.endIndices[b]) == [t]
    ensures t in GridSpans(lg, maxAnswerLength, threshold, m)
    decreases m
  {
    if a < m - 1 {
      GridKeeps(lg, maxAnswerLength, threshold, m - 1, a, b, t);
      GridGrows(lg, maxAnswerLength, threshold, m, t);
    } else {
      GridLast(lg, maxAnswerLength, threshold, m, b, t);
    }
  }

  /** A candidate stays a candidate when one more start position is taken in. */
  lemma GridGrows(lg: SpanLogits, maxAnswerLength: int, threshold: real, m: nat, t: TokenSpan)
    requires 0 < m <= |lg.startIndices| && t in GridSpans(lg, maxAnswerLength, threshold, m - 1)
    ensures t in GridSpans(lg, maxAnswerLength, threshold, m)
  {
    InConcat(GridSpans(lg, maxAnswerLength, threshold, m - 1),
             RowSpans(lg, maxAnswerLength, threshold, lg.startIndices[m - 1], |lg.endIndices|), t);
  }

  /** The spans of the last of the first `m` start positions are among those positions' candidates. */
  lemma GridLast(lg: SpanLogits, maxAnswerLength: int, threshold: real, m: nat, b: nat, t: TokenSpan)
    requires 0 < m <= |lg.startIndices| && b < |lg.endIndices|
    requires PairSpan(lg, maxAnswerLength, threshold, lg.startIndices[m - 1], lg.endIndices[b]) == [t]
    ensures t in GridSpans(lg, maxAnswerLength, threshold, m)
  {
    RowKeeps(lg, maxAnswerLength, threshold, lg.startIndices[m - 1], |lg.endIndices|, b, t);
    InConcat(GridSpans(lg, maxAnswerLength, threshold, m - 1),
             RowSpans(lg, maxAnswerLength, threshold, lg.startIndices[m - 1], |lg.endIndices|), t);
  }

  /** Every end position that forms a kept span with the row's start puts that span in the row. */
  lemma {:induction false} RowKeeps(lg: SpanLogits, maxAnswerLength: int, threshold: real, s: int, n: nat, b: nat, t: TokenSpan)
    requires b < n <= |lg.endIndices|
    requires PairSpan(lg, maxAnswerLength, threshold, s, lg.endIndices[b]) == [t]
    ensures t in RowSpans(lg, maxAnswerLength, threshold, s, n)
    decreases n
  {
    if b < n - 1 {
      RowKeeps(lg, maxAnswerLength, threshold, s, n - 1, b, t);
      InConcat(RowSpans(lg, maxAnswerLength, threshold, s, n - 1),
               PairSpan(lg, maxAnswerLength, threshold, s, lg.endIndices[n - 1]), t);
    } else {
      RowLast(lg, maxAnswerLength, threshold, s, n, t);
    }
  }

  /** The span of the row's start with the last of the first `n` end positions is in the row. */
  lemma RowLast(lg: SpanLogits, maxAnswerLength: int, threshold: real, s: int, n: nat, t: TokenSpan)
    requires 0 < n <= |lg.endIndices|
    requires PairSpan(lg, maxAnswerLength, threshold, s, lg.endIndices[n - 1]) == [t]
    ensures t in RowSpans(lg, maxAnswerLength, threshold, s, n)
  {
    InConcat(RowSpans(lg, maxAnswerLength, threshold, s, n - 1),
             PairSpan(lg, maxAnswerLength, threshold, s, lg.endIndices[n - 1]), t);
  }

  /** The lowercased answers of `r`. */
  function LowerAnswers(r: seq<TokenSpan>): set<string> {
    set k | 0 <= k < |r| :: Lower(r[k].answerText)
  }

  /**
   * The de-duplication pass over spans in order, with `seen` the answers
   * already taken and `quota` the room left before `max_spans`: a span whose
   * lowercased answer was seen is skipped, any other is taken, and taking
   * the last one the quota allows stops the pass.
   */
  function Dedup(xs: seq<TokenSpan>, seen: set<string>, quota: int): seq<TokenSpan>
    decreases |xs|
  {
    if xs == [] then []
    else if Lower(xs[0].answerText) in seen then Dedup(xs[1..], seen, quota)
    else if quota <= 1 then [xs[0]]
    else [xs[0]] + Dedup(xs[1..], seen + {Lower(xs[0].answerText)}, quota - 1)
  }

  /** One step of the pass, on the first span of a non-empty input. */
  lemma DedupStep(xs: seq<TokenSpan>, seen: set<string>, quota: int)
    requires xs != []
    ensures Lower(xs[0].answerText) in seen ==> Dedup(xs, seen, quota) == Dedup(xs[1..], seen, quota)
    ensures Lower(xs[0].answerText) !in seen && quota <= 1 ==> Dedup(xs, seen, quota) == [xs[0]]
    ensures Lower(xs[0].answerText) !in seen && quota > 1 ==>
      Dedup(xs, seen, quota) == [xs[0]] + Dedup(xs[1..], seen + {Lower(xs[0].answerText)}, quota - 1)
  {
  }

  /** The pass keeps spans of its input, none with an answer already seen. */
  lemma {:induction false} DedupFrom(xs: seq<TokenSpan>, seen: set<string>, quota: int)
    ensures var r := Dedup(xs, seen, quota);
      forall k :: 0 <= k < |r| ==> r[k] in xs && Lower(r[k].answerText) !in seen
    decreases |xs|
  {
    if xs != [] {
      var low := Lower(xs[0].answerText);
      var r := Dedup(xs, seen, quota);
      var tail := xs[1..];
      if low in seen {
        var t := Dedup(tail, seen, quota);
        DedupFrom(tail, seen, quota);
        assert r == t;
        forall k | 0 <= k < |r| ensures r[k] in xs && Lower(r[k].answerText) !in seen {
          assert Dedup(tail, seen, quota)[k] in tail && Lower(Dedup(tail, seen, quota)[k].answerText) !in seen;
          var m :| 0 <= m < |tail| && tail[m] == t[k];
          assert xs[m + 1] == r[k];
        }
      } else if quota > 1 {
        var t := Dedup(tail, seen + {low}, quota - 1);
        DedupFrom(tail, seen + {low}, quota - 1);
        assert r == [xs[0]] + t;
        forall k | 0 <= k < |r| ensures r[k] in xs && Lower(r[k].answerText) !in seen {
          if k > 0 {
            assert r[k] == t[k - 1];
            assert Dedup(tail, seen + {low}, quota - 1)[k - 1] in tail;
            assert Lower(Dedup(tail, seen + {low}, quota - 1)[k - 1].answerText) !in seen + {low};
            var m :| 0 <= m < |tail| && tail[m] == t[k - 1];
            assert xs[m + 1] == r[k];
          } else {
            assert r[0] == xs[0];
          }
        }
      } else {
        assert r == [xs[0]];
      }
    }
  }

  /** No two kept spans have the same lowercased answer. */
  lemma {:induction false} DedupDistinct(xs: seq<TokenSpan>, seen: set<string>, quota: int)
    ensures var r := Dedup(xs, seen, quota);
      forall i, j :: 0 <= i < j < |r| ==> Lower(r[i].answerText) != Lower(r[j].answerText)
    decreases |xs|
  {
    if xs != [] {
      var low := Lower(xs[0].answerText);
      var r := Dedup(xs, seen, quota);
      var tail := xs[1..];
      if low in seen {
        DedupDistinct(tail, seen, quota);
        assert r == Dedup(tail, seen, quota);
        forall i, j | 0 <= i < j < |r| ensures Lower(r[i].answerText) != Lower(r[j].answerText) {
          assert Lower(Dedup(tail, seen, quota)[i].answerText) != Lower(Dedup(tail, seen, quota)[j].answerText);
        }
      } else if quota > 1 {
        var t := Dedup(tail, seen + {low}, quota - 1);
        DedupDistinct(tail, seen + {low}, quota - 1);
        DedupFrom(tail, seen + {low}, quota - 1);
        assert r == [xs[0]] + t;
        forall i, j | 0 <= i < j < |r| ensures Lower(r[i].answerText) != Lower(r[j].answerText) {
          assert r[j] == t[j - 1];
          assert Lower(Dedup(tail, seen + {low}, quota - 1)[j - 1].answerText) !in seen + {low};
          if i > 0 {
            assert r[i] == t[i - 1];
            assert Lower(Dedup(tail, seen + {low}, quota - 1)[i - 1].answerText)
                != Lower(Dedup(tail, seen + {low}, quota - 1)[j - 1].answerText);
          } else {
            assert r[0] == xs[0];
          }
        }
      } else {
        assert r == [xs[0]];
      }
    }
  }

  /** The pass takes at most `quota` spans, and one when the quota is not positive. */
  lemma {:induction false} DedupBound(xs: seq<TokenSpan>, seen: set<string>, quota: int)
    ensures |Dedup(xs, seen, quota)| <= Max(quota, 1)
    decreases |xs|
  {
    if xs != [] {
      var low := Lower(xs[0].answerText);
      if low in seen {
        DedupBound(xs[1..], seen, quota);
      } else if quota > 1 {
        DedupBound(xs[1..], seen + {low}, quota - 1);
      }
    }
  }

  /** The pass keeps input order, so a descending input gives a descending result. */
  lemma {:induction false} DedupSorted(xs: seq<TokenSpan>, seen: set<string>, quota: int)
    requires SortedDesc(xs, ConfidenceOf)
    ensures SortedDesc(Dedup(xs, seen, quota), ConfidenceOf)
    decreases |xs|
  {
    if xs != [] {
      var x := xs[0];
      var low := Lower(x.answerText);
      var r := Dedup(xs, seen, quota);
      var tail := xs[1..];
      assert SortedDesc(tail, ConfidenceOf) by {
        forall i, j | 0 <= i < j < |tail| ensures ConfidenceOf(tail[i]) >= ConfidenceOf(tail[j]) {
          assert tail[i] == xs[i + 1] && tail[j] == xs[j + 1];
        }
      }
      if low in seen {
        DedupSorted(tail, seen, quota);
        assert r == Dedup(tail, seen, quota);
      } else if quota > 1 {
        var t := Dedup(tail, seen + {low}, quota - 1);
        DedupSorted(tail, seen + {low}, quota - 1);
        DedupFrom(tail, seen + {low}, quota - 1);
        assert r == [x] + t;
        forall i, j | 0 <= i < j < |r| ensures ConfidenceOf(r[i]) >= ConfidenceOf(r[j]) {
          assert r[j] == t[j - 1];
          if i > 0 {
            assert r[i] == t[i - 1];
            assert ConfidenceOf(Dedup(tail, seen + {low}, quota - 1)[i - 1])
                >= ConfidenceOf(Dedup(tail, seen + {low}, quota - 1)[j - 1]);
          } else {
            assert Dedup(tail, seen + {low}, quota - 1)[j - 1] in tail;
            var m :| 0 <= m < |tail| && tail[m] == t[j - 1];
            assert xs[m + 1] == r[j] && r[0] == xs[0];
            assert ConfidenceOf(xs[0]) >= ConfidenceOf(xs[m + 1]);
          }
        }
      } else {
        assert r == [x];
      }
    }
  }

  /** When the pass stops short of the quota, every answer of the input is among those seen or taken. */
  lemma {:induction false} DedupCovers(xs: seq<TokenSpan>, seen: set<string>, quota: int)
    ensures var r := Dedup(xs, seen, quota);
      |r| < quota ==> forall k :: 0 <= k < |xs| ==> Lower(xs[k].answerText) in seen + LowerAnswers(r)
    decreases |xs|
  {
    var r := Dedup(xs, seen, quota);
    if xs != [] && |r| < quota {
      var x := xs[0];
      var low := Lower(x.answerText);
      if low in seen {
        DedupCovers(xs[1..], seen, quota);
        forall k | 0 <= k < |xs| ensures Lower(xs[k].answerText) in seen + LowerAnswers(r) {
          if k > 0 { assert xs[k] == xs[1..][k - 1]; }
        }
      } else {
        assert quota > 1;
        var t := Dedup(xs[1..], seen + {low}, quota - 1);
        DedupCovers(xs[1..], seen + {low}, quota - 1);
        assert r == [x] + t;
        assert LowerAnswers(r) == {low} + LowerAnswers(t) by {
          forall w | w in LowerAnswers(r) ensures w in {low} + LowerAnswers(t) {
            var k :| 0 <= k < |r| && w == Lower(r[k].answerText);
            if k > 0 { assert r[k] == t[k - 1]; }
          }
          forall w | w in LowerAnswers(t) ensures w in LowerAnswers(r) {
            var k :| 0 <= k < |t| && w == Lower(t[k].answerText);
            assert r[k + 1] == t[k];
          }
          assert r[0] == x;
        }
        forall k | 0 <= k < |xs| ensures Lower(xs[k].answerText) in seen + LowerAnswers(r) {
          if k > 0 { assert xs[k] == xs[1..][k - 1]; }
        }
      }
    }
  }

  /** `extract_multiple_spans_per_passage` once the model has answered: all candidates by confidence, de-duplicated. */
  function MultipleSpans(lg: SpanLogits, maxAnswerLength: int, threshold: real, maxSpans: int): seq<TokenSpan> {
    Dedup(SortDesc(GridSpans(lg, maxAnswerLength, threshold, |lg.startIndices|), ConfidenceOf), {}, maxSpans)
  }

  /**
   * The properties of the spans one passage yields: each a valid range
   * above the threshold with non-blank text, distinct lowercased answers,
   * non-increasing confidence, at most `max_spans` of them when
   * `max_spans >= 1` and at most one otherwise.
   */
  lemma MultipleSpansSpec(lg: SpanLogits, maxAnswerLength: int, threshold: real, maxSpans: int)
    ensures var r := MultipleSpans(lg, maxAnswerLength, threshold, maxSpans);
      && (forall k :: 0 <= k < |r| ==> GoodSpan(lg, maxAnswerLength, threshold, r[k]))
      && (forall i, j :: 0 <= i < j < |r| ==> Lower(r[i].answerText) != Lower(r[j].answerText))
      && SortedDesc(r, ConfidenceOf)
      && |r| <= Max(maxSpans, 1)
  {
    var cands := GridSpans(lg, maxAnswerLength, threshold, |lg.startIndices|);
    var sorted := SortDesc(cands, ConfidenceOf);
    SortDescSorted(cands, ConfidenceOf);
    DedupFrom(sorted, {}, maxSpans);
    DedupDistinct(sorted, {}, maxSpans);
    DedupBound(sorted, {}, maxSpans);
    DedupSorted(sorted, {}, maxSpans);
    var r := Dedup(sorted, {}, maxSpans);
    forall k | 0 <= k < |r| ensures GoodSpan(lg, maxAnswerLength, threshold, r[k]) {
      assert r[k] in sorted;
      assert r[k] in multiset(cands);
      var j :| 0 <= j < |cands| && cands[j] == r[k];
      GridSpanAt(lg, maxAnswerLength, threshold, |lg.startIndices|, j);
    }
  }

  /* ---------------- the record handed to generation ---------------- */

  /** An answer span as `synthesize_qa_context` reads it: the keys the producers may leave out are optional. */
  datatype SpanRecord = SpanRecord(answerText: string, confidence: real, contextWindow: Option<string>,
                                   passageIndex: Option<int>, passageText: Option<string>)

  /** A span of `extract_answer_spans` carries every key. */
  function FromAnswerSpan(s: AnswerSpan): SpanRecord {
    SpanRecord(s.answerText, s.confidence, Some(s.contextWindow), Some(s.passageIndex), Some(s.passageText))
  }

  /** A span of `extract_multiple_spans_per_passage` has no window, passage index or passage text. */
  function FromTokenSpan(s: TokenSpan): SpanRecord {
    SpanRecord(s.answerText, s.confidence, None, None, None)
  }

  datatype ExtractedAnswer = ExtractedAnswer(rank: int, answer: string, confidence: real, context: string,
                                             sourcePassage: int, fullPassage: Option<string>)

  /** The synthesized record; the empty case has no top answer and no answer count. */
  datatype QaContext = QaContext(question: string, extractedAnswers: seq<ExtractedAnswer>, contextSummary: string,
                                 confidenceScores: seq<real>, topAnswer: Option<string>, answerCount: Option<nat>)

  const NoSpansSummary := "No relevant answer spans found."

  function Sum(xs: seq<real>): real {
    if xs == [] then 0.0 else Sum(xs[..|xs| - 1]) + xs[|xs| - 1]
  }

  /** The arithmetic mean of a non-empty list. */
  function Mean(xs: seq<real>): real
    requires xs != []
  {
    Sum(xs) / (|xs| as real)
  }

  /** The summary line, with `fmt` the three-decimal float formatting. */
  function Summary(spans: seq<SpanRecord>, scores: seq<real>, fmt: real -> string): string
    requires spans != [] && scores != []
  {
    "Found " + NatToString(|spans|) + " potential answer(s). Top answer: '" + spans[0].answerText
    + "' (confidence: " + fmt(spans[0].confidence) + "). Average confidence: " + fmt(Mean(scores)) + "."
  }

  /* ---------------- the layer ---------------- */

  /** The layer's settings; the threshold can be changed after construction. */
  datatype ModelInfo = ModelInfo(modelName: string, device: string, confidenceThreshold: real,
                                 maxAnswerLength: int, topKAnswers: int)

  class NeuralQALayer {
    const modelName: string
    const device: string
    var confidenceThreshold: real
    const maxAnswerLength: int
    const topKAnswers: int
    /** The question-answering pipeline: the best answer for a question and a passage, or an exception. */
    const qaPipeline: (string, string) -> Result<QaAnswer>
    /** The tokenizer and model run on a question and a passage, or an exception. */
    const spanModel: (string, string) -> Result<SpanLogits>

    /** `__init__`: the device is the one asked for, or "cuda" when available and "cpu" otherwise. */
    constructor (qaPipeline: (string, string) -> Result<QaAnswer>, spanModel: (string, string) -> Result<SpanLogits>,
                 cudaAvailable: bool, modelName: string := "deepset/roberta-base-squad2", device: Option<string> := None,
                 confidenceThreshold: real := 0.1, maxAnswerLength: int := 512, topKAnswers: int := 3)
      ensures this.device == (if device.Some? then device.value else if cudaAvailable then "cuda" else "cpu")
      ensures this.modelName == modelName && this.confidenceThreshold == confidenceThreshold
      ensures this.maxAnswerLength == maxAnswerLength && this.topKAnswers == topKAnswers
      ensures this.qaPipeline == qaPipeline && this.spanModel == spanModel
    {
      this.device := if device.Some? then device.value else if cudaAvailable then "cuda" else "cpu";
      this.modelName := modelName;
      this.confidenceThreshold := confidenceThreshold;
      this.maxAnswerLength := maxAnswerLength;
      this.topKAnswers := topKAnswers;
      this.qaPipeline := qaPipeline;
      this.spanModel := spanModel;
    }

    /**
     * `extract_answer_spans`: one pipeline call per passage; an accepted
     * answer becomes a span, a failed call or an unusable answer skips the
     * passage; then the spans are sorted by combined score and cut to
     * `top_k_answers`.
     */
    method ExtractAnswerSpans(question: string, passages: seq<string>, passageScores: Option<seq<real>>)
      returns (spans: seq<AnswerSpan>)
      ensures spans == AnswerSpans(passages, PipelineAnswers(qaPipeline, question, passages), passageScores,
                                   confidenceThreshold, topKAnswers)
    {
      if passages == [] {
        return [];
      }
      ghost var answers := PipelineAnswers(qaPipeline, question, passages);
      var answerSpans: seq<AnswerSpan> := [];
      for i := 0 to |passages|
        invariant answerSpans == Candidates(passages, answers, passageScores, confidenceThreshold, i)
      {
        var result := qaPipeline(question, passages[i]);
        assert result == answers[i];
        if result.Ok? {
          var a := result.value;
          StripEmpty(a.answer);
          if a.score >= confidenceThreshold && Strip(a.answer) != [] && WindowArgs(passages[i], a.start, a.end, DefaultWindowSize) {
            var span := BuildSpan(passages, answers, passageScores, confidenceThreshold, i, a);
            answerSpans := answerSpans + [span];
          } else {
            assert !Kept(passages, answers, confidenceThreshold, i);
          }
        } else {
          assert !Kept(passages, answers, confidenceThreshold, i);
        }
      }
      spans := PyPrefix(SortDesc(answerSpans, CombinedOf), topKAnswers);
    }

    /**
     * `extract_multiple_spans_per_passage`: every start and end pair among
     * the model's top positions that passes the filters becomes a span;
     * the spans, by descending confidence, are de-duplicated on their
     * lowercased answer until `max_spans` are taken. A failing model gives [].
     */
    method ExtractMultipleSpans(question: string, passage: string, maxSpans: int := 3) returns (unique: seq<TokenSpan>)
      ensures spanModel(question, passage).Err? ==> unique == []
      ensures spanModel(question, passage).Ok? ==>
        unique == MultipleSpans(spanModel(question, passage).value, maxAnswerLength, confidenceThreshold, maxSpans)
    {
      var model := spanModel(question, passage);
      if model.Err? {
        return [];
      }
      var lg := model.value;
      var spans: seq<TokenSpan> := [];
      for m := 0 to |lg.startIndices|
        invariant spans == GridSpans(lg, maxAnswerLength, confidenceThreshold, m)
      {
        spans := CollectRow(lg, lg.startIndices[m], spans);
        GridStep(lg, maxAnswerLength, confidenceThreshold, m);
      }
      unique := DedupByAnswer(SortDesc(spans, ConfidenceOf), maxSpans);
    }

    /** The de-duplication loop over the spans by descending confidence. */
    method DedupByAnswer(sorted: seq<TokenSpan>, maxSpans: int) returns (unique: seq<TokenSpan>)
      ensures unique == Dedup(sorted, {}, maxSpans)
    {
      unique := [];
      var seenAnswers: set<string> := {};
      var i := 0;
      while i < |sorted|
        invariant 0 <= i <= |sorted|
        invariant seenAnswers == LowerAnswers(unique)
        invariant unique + Dedup(sorted[i..], seenAnswers, maxSpans - |unique|) == Dedup(sorted, {}, maxSpans)
      {
        var answerLower := Lower(sorted[i].answerText);
        assert sorted[i..][0] == sorted[i] && sorted[i..][1..] == sorted[i + 1..];
        DedupStep(sorted[i..], seenAnswers, maxSpans - |unique|);
        if answerLower !in seenAnswers {
          LowerAnswersSnoc(unique, sorted[i]);
          seenAnswers := seenAnswers + {answerLower};
          unique := unique + [sorted[i]];
          if |unique| >= maxSpans {
            break;
          }
        }
        i := i + 1;
      }
      assert i == |sorted| ==> sorted[i..] == [];
    }

    /** The inner loop over end positions for one start position. */
    method CollectRow(lg: SpanLogits, s: int, spans: seq<TokenSpan>) returns (r: seq<TokenSpan>)
      ensures r == spans + RowSpans(lg, maxAnswerLength, confidenceThreshold, s, |lg.endIndices|)
    {
      r := spans;
      for n := 0 to |lg.endIndices|
        invariant r == spans + RowSpans(lg, maxAnswerLength, confidenceThreshold, s, n)
      {
        var here := PairFor(lg, s, lg.endIndices[n]);
        RowAppend(lg, maxAnswerLength, confidenceThreshold, s, n, spans);
        r := r + here;
      }
    }

    /** The body of the inner loop: the span the pair (`s`, `e`) yields, if any. */
    method PairFor(lg: SpanLogits, s: int, e: int) returns (here: seq<TokenSpan>)
      ensures here == PairSpan(lg, maxAnswerLength, confidenceThreshold, s, e)
    {
      here := [];
      if s < e && e - s <= maxAnswerLength && s >= lg.questionTokens - 1 {
        var spanConfidence := SpanConfidence(lg, s, e);
        if spanConfidence >= confidenceThreshold {
          var answerText := lg.decode(s, e);
          if Strip(answerText) != [] {
            here := [TokenSpan(Strip(answerText), spanConfidence, s, e)];
          }
        }
      }
    }

    /**
     * `synthesize_qa_context`: for no spans the fixed empty record;
     * otherwise one entry per span in order, ranked from 1, with the keys a
     * span lacks defaulted, the confidences in the same order, the first
     * span as top answer and the span count.
     */
    method SynthesizeQaContext(question: string, answerSpans: seq<SpanRecord>, fmt: real -> string,
                               includePassages: bool := true) returns (r: QaContext)
      ensures answerSpans == [] ==> r == QaContext(question, [], NoSpansSummary, [], None, None)
      ensures answerSpans != [] ==>
        && r.question == question
        && |r.extractedAnswers| == |answerSpans|
        && (forall k :: 0 <= k < |answerSpans| ==>
              var e := r.extractedAnswers[k];
              && e.rank == k + 1 && e.answer == answerSpans[k].answerText && e.confidence == answerSpans[k].confidence
              && e.context == answerSpans[k].contextWindow.GetOr("")
              && e.sourcePassage == answerSpans[k].passageIndex.GetOr(-1)
              && (e.fullPassage.Some? <==> includePassages)
              && (includePassages ==> e.fullPassage.value == answerSpans[k].passageText.GetOr("")))
        && |r.confidenceScores| == |answerSpans|
        && (forall k :: 0 <= k < |answerSpans| ==> r.confidenceScores[k] == answerSpans[k].confidence)
        && r.contextSummary == Summary(answerSpans, r.confidenceScores, fmt)
        && r.topAnswer == Some(answerSpans[0].answerText)
        && r.answerCount == Some(|answerSpans|)
    {
      if answerSpans == [] {
        return QaContext(question, [], NoSpansSummary, [], None, None);
      }
      var extractedAnswers: seq<ExtractedAnswer> := [];
      var confidenceScores: seq<real> := [];
      for i := 0 to |answerSpans|
        invariant |extractedAnswers| == |confidenceScores| == i
        invariant forall k :: 0 <= k < i ==>
          var e := extractedAnswers[k];
          && e.rank == k + 1 && e.answer == answerSpans[k].answerText && e.confidence == answerSpans[k].confidence
          && e.context == answerSpans[k].contextWindow.GetOr("")
          && e.sourcePassage == answerSpans[k].passageIndex.GetOr(-1)
          && (e.fullPassage.Some? <==> includePassages)
          && (includePassages ==> e.fullPassage.value == answerSpans[k].passageText.GetOr(""))
        invariant forall k :: 0 <= k < i ==> confidenceScores[k] == answerSpans[k].confidence
      {
        var span := answerSpans[i];
        var fullPassage := if includePassages then Some(span.passageText.GetOr("")) else None;
        var answerInfo := ExtractedAnswer(i + 1, span.answerText, span.confidence, span.contextWindow.GetOr(""),
                                          span.passageIndex.GetOr(-1), fullPassage);
        extractedAnswers := extractedAnswers + [answerInfo];
        confidenceScores := confidenceScores + [span.confidence];
      }
      var topAnswer := answerSpans[0].answerText;
      r := QaContext(question, extractedAnswers, Summary(answerSpans, confidenceScores, fmt), confidenceScores,
                     Some(topAnswer), Some(|answerSpans|));
    }

    /** `update_confidence_threshold`: only the threshold changes. */
    method UpdateConfidenceThreshold(newThreshold: real)
      modifies this`confidenceThreshold
      ensures confidenceThreshold == newThreshold
      ensures GetModelInfo() == old(GetModelInfo()).(confidenceThreshold := newThreshold)
    {
      confidenceThreshold := newThreshold;
    }

    /** `get_model_info` */
    function GetModelInfo(): (info: ModelInfo)
      reads this
      ensures info.modelName == modelName && info.device == device
      ensures info.confidenceThreshold == confidenceThreshold
      ensures info.maxAnswerLength == maxAnswerLength && info.topKAnswers == topKAnswers
    {
      ModelInfo(modelName, device, confidenceThreshold, maxAnswerLength, topKAnswers)
    }
  }

  /** Taking a span adds its lowercased answer to those seen. */
  lemma LowerAnswersSnoc(r: seq<TokenSpan>, t: TokenSpan)
    ensures LowerAnswers(r + [t]) == LowerAnswers(r) + {Lower(t.answerText)}
  {
    var r' := r + [t];
    forall w | w in LowerAnswers(r') ensures w in LowerAnswers(r) + {Lower(t.answerText)} {
      var k :| 0 <= k < |r'| && w == Lower(r'[k].answerText);
      if k < |r| { assert r'[k] == r[k]; }
    }
    forall w | w in LowerAnswers(r) ensures w in LowerAnswers(r') {
      var k :| 0 <= k < |r| && w == Lower(r[k].answerText);
      assert r'[k] == r[k];
    }
    assert r'[|r|] == t;
  }
}
