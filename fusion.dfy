/**
 * `ScoreFusion` of backend/app/services/advanced_hybrid_retriever.py:
 * min-max normalisation, weighted-sum fusion and Reciprocal Rank Fusion.
 * The original hybrid retriever's `_normalize_scores` is the same
 * normalisation and uses `MinMaxNormalize` too.
 */
module Fusion {
  import opened Common
  import opened Ranking
  import opened Arith

  // ---------------------------------------------------------------------
  // Min-max normalisation.
  // ---------------------------------------------------------------------

  /** `(s - lo) / (hi - lo)` for every score `s`. */
  function Rescale(scores: seq<real>, lo: real, hi: real): (r: seq<real>)
    requires lo < hi
    ensures |r| == |scores| && forall i :: 0 <= i < |scores| ==> r[i] == (scores[i] - lo) / (hi - lo)
  {
    seq(|scores|, i requires 0 <= i < |scores| => (scores[i] - lo) / (hi - lo))
  }

  /** `min_max_normalize`: empty and one-element lists unchanged, constant lists all 1.0, else rescaled to [0, 1]. */
  function MinMaxNormalize(scores: seq<real>): (r: seq<real>)
    ensures |r| == |scores|
    ensures |scores| <= 1 ==> r == scores
  {
    if |scores| <= 1 then scores
    else
      var lo := MinOf(scores);
      var hi := MaxOf(scores);
      if hi == lo then seq(|scores|, _ => 1.0)
      else Rescale(scores, lo, hi)
  }

  /** A list of two or more equal scores normalises to all 1.0. */
  lemma MinMaxNormalizeConstant(scores: seq<real>)
    requires |scores| >= 2 && forall i :: 0 <= i < |scores| ==> scores[i] == scores[0]
    ensures forall i :: 0 <= i < |scores| ==> MinMaxNormalize(scores)[i] == 1.0
  {
    assert MinOf(scores) in scores && MaxOf(scores) in scores;
  }

  /** A list that is not constant is rescaled by its minimum and maximum. */
  lemma MinMaxNormalizeRescales(scores: seq<real>)
    requires |scores| >= 2 && MinOf(scores) != MaxOf(scores)
    ensures MinOf(scores) < MaxOf(scores)
    ensures MinMaxNormalize(scores) == Rescale(scores, MinOf(scores), MaxOf(scores))
  {
    assert MinOf(scores) <= scores[0] <= MaxOf(scores);
  }

  /** One rescaled score, for `lo <= x <= hi`. */
  lemma RescaleOne(x: real, lo: real, hi: real)
    requires lo <= x <= hi && lo < hi
    ensures 0.0 <= (x - lo) / (hi - lo) <= 1.0
    ensures (x - lo) / (hi - lo) == 0.0 <==> x == lo
    ensures (x - lo) / (hi - lo) == 1.0 <==> x == hi
  {
    DivBounds(x - lo, hi - lo);
  }

  /** Rescaling by bounds of the list maps into [0, 1], the bounds to 0 and 1 only, and keeps order. */
  lemma RescaleRange(scores: seq<real>, lo: real, hi: real)
    requires lo < hi && forall i :: 0 <= i < |scores| ==> lo <= scores[i] <= hi
    ensures var r := Rescale(scores, lo, hi);
      && (forall i :: 0 <= i < |r| ==> 0.0 <= r[i] <= 1.0)
      && (forall i :: 0 <= i < |r| ==> (r[i] == 0.0 <==> scores[i] == lo))
      && (forall i :: 0 <= i < |r| ==> (r[i] == 1.0 <==> scores[i] == hi))
      && (forall i, j :: 0 <= i < |r| && 0 <= j < |r| ==> (scores[i] < scores[j] <==> r[i] < r[j]))
  {
    var r := Rescale(scores, lo, hi);
    forall i | 0 <= i < |r|
      ensures 0.0 <= r[i] <= 1.0
      ensures r[i] == 0.0 <==> scores[i] == lo
      ensures r[i] == 1.0 <==> scores[i] == hi
    {
      RescaleOne(scores[i], lo, hi);
    }
    forall i, j | 0 <= i < |r| && 0 <= j < |r|
      ensures scores[i] < scores[j] <==> r[i] < r[j]
    {
      DivMonotone(scores[i] - lo, scores[j] - lo, hi - lo);
    }
  }

  /**
   * A list of two or more scores that are not all equal normalises into
   * [0, 1]: the minimum maps to 0 and only it, the maximum to 1 and only
   * it, and the order of any two scores is kept.
   */
  lemma MinMaxNormalizeRange(scores: seq<real>)
    requires |scores| >= 2 && exists i :: 0 <= i < |scores| && scores[i] != scores[0]
    ensures var r := MinMaxNormalize(scores);
      && (forall i :: 0 <= i < |r| ==> 0.0 <= r[i] <= 1.0)
      && (forall i :: 0 <= i < |r| ==> (r[i] == 0.0 <==> scores[i] == MinOf(scores)))
      && (forall i :: 0 <= i < |r| ==> (r[i] == 1.0 <==> scores[i] == MaxOf(scores)))
      && (forall i, j :: 0 <= i < |r| && 0 <= j < |r| ==> (scores[i] < scores[j] <==> r[i] < r[j]))
  {
    var i0 :| 0 <= i0 < |scores| && scores[i0] != scores[0];
    assert MinOf(scores) != MaxOf(scores);
    MinMaxNormalizeRescales(scores);
    RescaleRange(scores, MinOf(scores), MaxOf(scores));
  }

  // ---------------------------------------------------------------------
  // Weighted-sum fusion.
  // ---------------------------------------------------------------------

  function NormalizedIf(scores: seq<real>, normalize: bool): (r: seq<real>)
    ensures |r| == |scores|
  {
    if normalize then MinMaxNormalize(scores) else scores
  }

  /** `weighted_sum_fusion`: a length mismatch raises; otherwise entry `i` is `w1 * s1[i] + w2 * s2[i]` after optional normalisation. */
  function WeightedSumFusion(scores1: seq<real>, scores2: seq<real>, weight1: real := 0.5, weight2: real := 0.5,
                             normalize: bool := true): (r: Result<seq<real>>)
    ensures r.Err? <==> |scores1| != |scores2|
    ensures r.Err? ==> r.error == "Score lists must have the same length"
    ensures r.Ok? ==> |r.value| == |scores1| && forall i :: 0 <= i < |scores1| ==>
      r.value[i] == weight1 * NormalizedIf(scores1, normalize)[i] + weight2 * NormalizedIf(scores2, normalize)[i]
  {
    if |scores1| != |scores2| then Err("Score lists must have the same length")
    else
      Ok(Combine(NormalizedIf(scores1, normalize), NormalizedIf(scores2, normalize), weight1, weight2))
  }

  /** `w1 * a + w2 * b` entry by entry. */
  function Combine(s1: seq<real>, s2: seq<real>, w1: real, w2: real): (r: seq<real>)
    requires |s1| == |s2|
    ensures |r| == |s1| && forall i :: 0 <= i < |s1| ==> r[i] == w1 * s1[i] + w2 * s2[i]
  {
    seq(|s1|, i requires 0 <= i < |s1| => w1 * s1[i] + w2 * s2[i])
  }

  /** Combining two lists in [0, 1] with non-negative weights stays in [0, w1 + w2]. */
  lemma CombineBounds(s1: seq<real>, s2: seq<real>, w1: real, w2: real)
    requires |s1| == |s2| && w1 >= 0.0 && w2 >= 0.0
    requires forall i :: 0 <= i < |s1| ==> 0.0 <= s1[i] <= 1.0 && 0.0 <= s2[i] <= 1.0
    ensures forall i :: 0 <= i < |s1| ==> 0.0 <= Combine(s1, s2, w1, w2)[i] <= w1 + w2
  {
    forall i | 0 <= i < |s1| ensures 0.0 <= Combine(s1, s2, w1, w2)[i] <= w1 + w2 {
      WeightedPairBound(s1[i], s2[i], w1, w2);
    }
  }

  /** A normalised list of two or more scores lies in [0, 1]. */
  lemma NormalizedUnit(scores: seq<real>)
    requires |scores| >= 2
    ensures forall i :: 0 <= i < |scores| ==> 0.0 <= MinMaxNormalize(scores)[i] <= 1.0
  {
    if exists i :: 0 <= i < |scores| && scores[i] != scores[0] {
      MinMaxNormalizeRange(scores);
    } else {
      MinMaxNormalizeConstant(scores);
    }
  }

  /** With normalisation, non-negative weights and two or more documents, every fused score lies in [0, w1 + w2]. */
  lemma WeightedSumBounds(scores1: seq<real>, scores2: seq<real>, weight1: real, weight2: real)
    requires |scores1| == |scores2| >= 2 && weight1 >= 0.0 && weight2 >= 0.0
    ensures var r := WeightedSumFusion(scores1, scores2, weight1, weight2, true);
      r.Ok? && forall i :: 0 <= i < |r.value| ==> 0.0 <= r.value[i] <= weight1 + weight2
  {
    var n1, n2 := MinMaxNormalize(scores1), MinMaxNormalize(scores2);
    NormalizedUnit(scores1);
    NormalizedUnit(scores2);
    CombineBounds(n1, n2, weight1, weight2);
    assert WeightedSumFusion(scores1, scores2, weight1, weight2, true) == Ok(Combine(n1, n2, weight1, weight2));
  }

  lemma WeightedPairBound(a: real, b: real, w1: real, w2: real)
    requires 0.0 <= a <= 1.0 && 0.0 <= b <= 1.0 && w1 >= 0.0 && w2 >= 0.0
    ensures 0.0 <= w1 * a + w2 * b <= w1 + w2
  {
    WeightedTermBound(a, w1);
    WeightedTermBound(b, w2);
    var x, y := w1 * a, w2 * b;
    assert 0.0 <= x <= w1 && 0.0 <= y <= w2;
  }

  lemma WeightedTermBound(a: real, w: real)
    requires 0.0 <= a <= 1.0 && w >= 0.0
    ensures 0.0 <= w * a <= w
  {
    if w > 0.0 {
      if a < 1.0 { MulLess(a, 1.0, w); }
      if a > 0.0 { MulLess(0.0, a, w); }
    }
  }

  // ---------------------------------------------------------------------
  // Reciprocal Rank Fusion.
  // ---------------------------------------------------------------------

  /** A ranked result: `{"passage", "score", "metadata", "doc_index"}`, where `doc_index` may be missing. */
  datatype Candidate = Candidate(passage: string, score: real, metadata: Metadata, docIndex: Option<nat>)

  /** A fused result: the payload with its `rrf_score`. */
  datatype FusedHit = FusedHit(item: Candidate, rrfScore: real)

  /** `result.get('doc_index', i)` for the result at position `i`. */
  function RankKey(results: seq<Candidate>, i: nat): nat
    requires i < |results|
  {
    results[i].docIndex.GetOr(i)
  }

  /** `{result.get('doc_index', i): i + 1 for i, result in enumerate(results)}` (a later result overwrites). */
  function RankTable(results: seq<Candidate>): map<nat, nat> {
    if results == [] then map[]
    else
      var n := |results| - 1;
      RankTable(results[..n])[RankKey(results, n) := n + 1]
  }

  /**
   * A key has a rank exactly when some result carries it, and its rank is
   * the 1-based position of the last such result.
   */
  lemma {:induction false} RankTableSpec(results: seq<Candidate>, id: nat)
    ensures id in RankTable(results) <==> exists i :: 0 <= i < |results| && RankKey(results, i) == id
    ensures id in RankTable(results) ==>
      var r := RankTable(results)[id];
      && 1 <= r <= |results| && RankKey(results, r - 1) == id
      && forall j :: r <= j < |results| ==> RankKey(results, j) != id
    decreases |results|
  {
    if results != [] {
      var n := |results| - 1;
      RankTableSpec(results[..n], id);
      forall i | 0 <= i < n ensures RankKey(results[..n], i) == RankKey(results, i) {
        assert results[..n][i] == results[i];
      }
    }
  }

  /** The `1 / (k + rank)` terms of `id` over the lists that rank it. */
  function RrfScore(results1: seq<Candidate>, results2: seq<Candidate>, k: nat, id: nat): real {
    RankTableSpec(results1, id);
    RankTableSpec(results2, id);
    var t1, t2 := RankTable(results1), RankTable(results2);
    (if id in t1 then 1.0 / (k + t1[id]) as real else 0.0)
    + (if id in t2 then 1.0 / (k + t2[id]) as real else 0.0)
  }

  /** The first result carrying the given `doc_index` (or carrying none, for `None`). */
  function FirstWith(results: seq<Candidate>, key: Option<nat>): Option<Candidate> {
    if results == [] then None
    else
      var n := |results| - 1;
      var f := FirstWith(results[..n], key);
      if f.Some? then f else if results[n].docIndex == key then Some(results[n]) else None
  }

  /** `FirstWith` finds the earliest result with the key, and nothing when no result has it. */
  lemma {:induction false} FirstWithSpec(results: seq<Candidate>, key: Option<nat>)
    ensures FirstWith(results, key).None? <==> forall i :: 0 <= i < |results| ==> results[i].docIndex != key
    ensures FirstWith(results, key).Some? ==>
      exists i :: 0 <= i < |results| && results[i] == FirstWith(results, key).value && results[i].docIndex == key
        && forall j :: 0 <= j < i ==> results[j].docIndex != key
    decreases |results|
  {
    if results != [] {
      var n := |results| - 1;
      FirstWithSpec(results[..n], key);
      assert forall i :: 0 <= i < n ==> results[..n][i] == results[i];
    }
  }

  /** The ids ranked by either list: `set(doc_ranks1.keys()) | set(doc_ranks2.keys())`. */
  function AllIds(results1: seq<Candidate>, results2: seq<Candidate>): set<nat> {
    RankTable(results1).Keys + RankTable(results2).Keys
  }

  /** The RRF score of one id, read from the two rank tables. */
  method RrfOf(results1: seq<Candidate>, results2: seq<Candidate>, k: nat, docId: nat) returns (rrf: real)
    ensures rrf == RrfScore(results1, results2, k, docId)
  {
    RankTableSpec(results1, docId);
    RankTableSpec(results2, docId);
    var ranks1 := RankTable(results1);
    var ranks2 := RankTable(results2);
    rrf := 0.0;
    if docId in ranks1 {
      rrf := rrf + 1.0 / (k + ranks1[docId]) as real;
    }
    if docId in ranks2 {
      rrf := rrf + 1.0 / (k + ranks2[docId]) as real;
    }
  }

  /** The `rrf_scores` loop: one entry per ranked id, in the order the set is visited. */
  method RrfEntries(results1: seq<Candidate>, results2: seq<Candidate>, k: nat) returns (entries: seq<ScoredDoc>)
    ensures forall m :: 0 <= m < |entries| ==>
      entries[m].docIndex in AllIds(results1, results2) && entries[m].score == RrfScore(results1, results2, k, entries[m].docIndex)
    ensures forall id :: id in AllIds(results1, results2) ==> exists m :: 0 <= m < |entries| && entries[m].docIndex == id
    ensures DistinctPos(entries, IndexOf)
  {
    var all := RankTable(results1).Keys + RankTable(results2).Keys;
    var pending := all;
    entries := [];
    while pending != {}
      invariant pending <= all
      invariant forall m :: 0 <= m < |entries| ==>
        entries[m].docIndex in all && entries[m].docIndex !in pending
        && entries[m].score == RrfScore(results1, results2, k, entries[m].docIndex)
      invariant forall id :: id in all && id !in pending ==> exists m :: 0 <= m < |entries| && entries[m].docIndex == id
      invariant DistinctPos(entries, IndexOf)
      decreases pending
    {
      var docId :| docId in pending;
      var rrf := RrfOf(results1, results2, k, docId);
      ghost var before := entries;
      entries := entries + [ScoredDoc(docId, rrf)];
      pending := pending - {docId};
      forall id | id in all && id !in pending
        ensures exists m :: 0 <= m < |entries| && entries[m].docIndex == id
      {
        if id == docId {
          assert entries[|entries| - 1].docIndex == id;
        } else {
          var m :| 0 <= m < |before| && before[m].docIndex == id;
          assert entries[m] == before[m];
        }
      }
    }
  }

  /** The `doc_id_to_result` loop: the first result for every `doc_index` value. */
  method FirstResults(all: seq<Candidate>) returns (payload: map<Option<nat>, Candidate>)
    ensures forall key :: key in payload <==> FirstWith(all, key).Some?
    ensures forall key :: key in payload ==> payload[key] == FirstWith(all, key).value
    ensures forall key :: key in payload ==> payload[key].docIndex == key
  {
    payload := map[];
    var i := 0;
    while i < |all|
      invariant 0 <= i <= |all|
      invariant forall key :: key in payload <==> FirstWith(all[..i], key).Some?
      invariant forall key :: key in payload ==> payload[key] == FirstWith(all[..i], key).value
    {
      assert all[..i + 1][..i] == all[..i];
      var docId := all[i].docIndex;
      if docId !in payload {
        payload := payload[docId := all[i]];
      }
      i := i + 1;
    }
    assert all[..i] == all;
    forall key | key in payload ensures payload[key].docIndex == key {
      FirstWithSpec(all, key);
    }
  }

  /** The entries sorted by RRF score keep their ids and scores, and list every ranked id once. */
  lemma SortedEntries(entries: seq<ScoredDoc>, results1: seq<Candidate>, results2: seq<Candidate>, k: nat)
    requires forall m :: 0 <= m < |entries| ==>
      entries[m].docIndex in AllIds(results1, results2) && entries[m].score == RrfScore(results1, results2, k, entries[m].docIndex)
    requires forall id :: id in AllIds(results1, results2) ==> exists m :: 0 <= m < |entries| && entries[m].docIndex == id
    requires DistinctPos(entries, IndexOf)
    ensures var sorted := SortDesc(entries, ScoreOf);
      && SortedDesc(sorted, ScoreOf) && DistinctPos(sorted, IndexOf)
      && (forall p :: 0 <= p < |sorted| ==>
            sorted[p].docIndex in AllIds(results1, results2) && sorted[p].score == RrfScore(results1, results2, k, sorted[p].docIndex))
      && (forall id :: id in AllIds(results1, results2) ==> exists p :: 0 <= p < |sorted| && sorted[p].docIndex == id)
  {
    var sorted := SortDesc(entries, ScoreOf);
    SortDescSorted(entries, ScoreOf);
    SortDescDistinct(entries, ScoreOf, IndexOf);
    forall p | 0 <= p < |sorted|
      ensures sorted[p].docIndex in AllIds(results1, results2)
      ensures sorted[p].score == RrfScore(results1, results2, k, sorted[p].docIndex)
    {
      assert sorted[p] in multiset(entries);
    }
    forall id | id in AllIds(results1, results2)
      ensures exists p :: 0 <= p < |sorted| && sorted[p].docIndex == id
    {
      var m :| 0 <= m < |entries| && entries[m].docIndex == id;
      assert entries[m] in multiset(sorted);
    }
  }

  /** The fused list: in sorted order, each entry whose id has a payload, with that payload and the entry's score. */
  function Attach(sortedDocs: seq<ScoredDoc>, payload: map<Option<nat>, Candidate>): seq<FusedHit> {
    if sortedDocs == [] then []
    else
      var n := |sortedDocs| - 1;
      var key := Some(sortedDocs[n].docIndex);
      Attach(sortedDocs[..n], payload) + (if key in payload then [FusedHit(payload[key], sortedDocs[n].score)] else [])
  }

  /** The positions of the sorted entries that `Attach` keeps, in order. */
  ghost function Kept(sortedDocs: seq<ScoredDoc>, payload: map<Option<nat>, Candidate>): seq<nat> {
    if sortedDocs == [] then []
    else
      var n := |sortedDocs| - 1;
      Kept(sortedDocs[..n], payload) + (if Some(sortedDocs[n].docIndex) in payload then [n] else [])
  }

  /** `Attach` keeps exactly the entries with a payload, in increasing position, each paired with its payload. */
  lemma {:induction false} KeptSpec(sortedDocs: seq<ScoredDoc>, payload: map<Option<nat>, Candidate>)
    requires forall key :: key in payload ==> payload[key].docIndex == key
    ensures var kept, fused := Kept(sortedDocs, payload), Attach(sortedDocs, payload);
      && |kept| == |fused|
      && (forall m :: 0 <= m < |kept| ==> kept[m] < |sortedDocs| && Attached(fused[m], sortedDocs[kept[m]], payload))
      && (forall m, l :: 0 <= m < l < |kept| ==> kept[m] < kept[l])
      && (forall p :: 0 <= p < |sortedDocs| && Some(sortedDocs[p].docIndex) in payload ==> p in kept)
    decreases |sortedDocs|
  {
    if sortedDocs != [] {
      var n := |sortedDocs| - 1;
      var prefix := sortedDocs[..n];
      KeptSpec(prefix, payload);
      var kept, fused := Kept(sortedDocs, payload), Attach(sortedDocs, payload);
      var k0, f0 := Kept(prefix, payload), Attach(prefix, payload);
      forall m | 0 <= m < |k0| ensures kept[m] == k0[m] && fused[m] == f0[m] && sortedDocs[kept[m]] == prefix[k0[m]] {
      }
      forall p | 0 <= p < |sortedDocs| && Some(sortedDocs[p].docIndex) in payload ensures p in kept {
        if p < n {
          assert prefix[p] == sortedDocs[p];
          assert p in k0;
        } else {
          assert kept[|kept| - 1] == p;
        }
      }
    }
  }

  /**
   * The fused list of sorted, distinct entries: each hit is the payload of
   * an entry with that entry's score, ids are distinct, scores do not
   * increase, and every entry with a payload is there.
   */
  lemma AttachProperties(sortedDocs: seq<ScoredDoc>, payload: map<Option<nat>, Candidate>)
    requires SortedDesc(sortedDocs, ScoreOf) && DistinctPos(sortedDocs, IndexOf)
    requires forall key :: key in payload ==> payload[key].docIndex == key
    ensures var fused := Attach(sortedDocs, payload);
      && (forall m :: 0 <= m < |fused| ==> exists p :: 0 <= p < |sortedDocs| && Attached(fused[m], sortedDocs[p], payload))
      && (forall m, l :: 0 <= m < l < |fused| ==>
            fused[m].item.docIndex != fused[l].item.docIndex && fused[m].rrfScore >= fused[l].rrfScore)
      && (forall p :: 0 <= p < |sortedDocs| && Some(sortedDocs[p].docIndex) in payload ==>
            exists m :: 0 <= m < |fused| && fused[m].item.docIndex == Some(sortedDocs[p].docIndex))
  {
    KeptSpec(sortedDocs, payload);
    var kept, fused := Kept(sortedDocs, payload), Attach(sortedDocs, payload);
    forall m | 0 <= m < |fused|
      ensures exists p :: 0 <= p < |sortedDocs| && Attached(fused[m], sortedDocs[p], payload)
    {
      var p := kept[m];
      assert Attached(fused[m], sortedDocs[p], payload);
    }
    forall m, l | 0 <= m < l < |fused|
      ensures fused[m].item.docIndex != fused[l].item.docIndex && fused[m].rrfScore >= fused[l].rrfScore
    {
      assert IndexOf(sortedDocs[kept[m]]) != IndexOf(sortedDocs[kept[l]]);
      assert ScoreOf(sortedDocs[kept[m]]) >= ScoreOf(sortedDocs[kept[l]]);
    }
    forall p | 0 <= p < |sortedDocs| && Some(sortedDocs[p].docIndex) in payload
      ensures exists m :: 0 <= m < |fused| && fused[m].item.docIndex == Some(sortedDocs[p].docIndex)
    {
      var m :| 0 <= m < |kept| && kept[m] == p;
      assert Attached(fused[m], sortedDocs[p], payload);
    }
  }

  /** The `fused_results` loop. */
  method AttachPayloads(sortedDocs: seq<ScoredDoc>, payload: map<Option<nat>, Candidate>) returns (fused: seq<FusedHit>)
    ensures fused == Attach(sortedDocs, payload)
  {
    fused := [];
    var i := 0;
    while i < |sortedDocs|
      invariant 0 <= i <= |sortedDocs|
      invariant fused == Attach(sortedDocs[..i], payload)
    {
      assert sortedDocs[..i + 1][..i] == sortedDocs[..i];
      var docId := sortedDocs[i].docIndex;
      if Some(docId) in payload {
        fused := fused + [FusedHit(payload[Some(docId)], sortedDocs[i].score)];
      }
      i := i + 1;
    }
    assert sortedDocs[..i] == sortedDocs;
  }

  /** `hit` is the payload stored for the id of `doc`, with the score of `doc`. */
  ghost predicate Attached(hit: FusedHit, doc: ScoredDoc, payload: map<Option<nat>, Candidate>) {
    && Some(doc.docIndex) in payload
    && hit.item == payload[Some(doc.docIndex)]
    && hit.item.docIndex == Some(doc.docIndex)
    && hit.rrfScore == doc.score
  }

  /**
   * `rank_fusion`: every id ranked by either list that has a payload
   * appears once, with the first payload for it (`results1` before
   * `results2`) and the sum of `1 / (k + rank)` over the lists ranking it,
   * highest first.
   */
  method RankFusion(results1: seq<Candidate>, results2: seq<Candidate>, k: nat := 60) returns (fused: seq<FusedHit>)
    ensures forall m :: 0 <= m < |fused| ==>
      && fused[m].item.docIndex.Some?
      && FirstWith(results1 + results2, fused[m].item.docIndex) == Some(fused[m].item)
      && fused[m].item.docIndex.value in AllIds(results1, results2)
      && fused[m].rrfScore == RrfScore(results1, results2, k, fused[m].item.docIndex.value)
    ensures forall m, l :: 0 <= m < l < |fused| ==>
      fused[m].item.docIndex != fused[l].item.docIndex && fused[m].rrfScore >= fused[l].rrfScore
    ensures forall id :: id in AllIds(results1, results2) && FirstWith(results1 + results2, Some(id)).Some? ==>
      exists m :: 0 <= m < |fused| && fused[m].item.docIndex == Some(id)
  {
    var entries := RrfEntries(results1, results2, k);
    var sortedDocs := SortDesc(entries, ScoreOf);
    SortedEntries(entries, results1, results2, k);
    var payload := FirstResults(results1 + results2);
    fused := AttachPayloads(sortedDocs, payload);
    AttachProperties(sortedDocs, payload);
  }
}
