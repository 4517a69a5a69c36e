/**
 * Ranking primitives shared by every retriever: Python's stable
 * `list.sort(key=..., reverse=True)` on a real-valued key, and list
 * slicing `xs[:n]`.
 */
module Ranking {

  /** Inserts `x` before the first element whose key is not larger: `x` precedes equal keys that came after it. */
  function Insert<T>(x: T, s: seq<T>, key: T -> real): (r: seq<T>)
    ensures |r| == |s| + 1
    ensures multiset(r) == multiset(s) + multiset{x}
    decreases |s|
  {
    if s == [] || key(s[0]) <= key(x) then [x] + s
    else
      assert s == [s[0]] + s[1..];
      [s[0]] + Insert(x, s[1..], key)
  }

  /** `sorted(xs, key=key, reverse=True)`: a stable sort into non-increasing key order. */
  function SortDesc<T>(xs: seq<T>, key: T -> real): (r: seq<T>)
    ensures |r| == |xs|
    ensures multiset(r) == multiset(xs)
  {
    if xs == [] then []
    else
      assert xs == [xs[0]] + xs[1..];
      Insert(xs[0], SortDesc(xs[1..], key), key)
  }

  predicate SortedDesc<T>(r: seq<T>, key: T -> real) {
    forall i, j :: 0 <= i < j < |r| ==> key(r[i]) >= key(r[j])
  }

  /** Non-increasing in `key`, and among equal keys strictly increasing in `pos`. */
  predicate LexDesc<T>(r: seq<T>, key: T -> real, pos: T -> int) {
    forall i, j :: 0 <= i < j < |r| ==>
      key(r[i]) > key(r[j]) || (key(r[i]) == key(r[j]) && pos(r[i]) < pos(r[j]))
  }

  predicate DistinctPos<T>(r: seq<T>, pos: T -> int) {
    forall i, j :: 0 <= i < j < |r| ==> pos(r[i]) != pos(r[j])
  }

  predicate IncreasingPos<T>(xs: seq<T>, pos: T -> int) {
    forall i, j :: 0 <= i < j < |xs| ==> pos(xs[i]) < pos(xs[j])
  }

  lemma {:induction false} InsertSorted<T>(x: T, s: seq<T>, key: T -> real)
    requires SortedDesc(s, key)
    ensures SortedDesc(Insert(x, s, key), key)
    decreases |s|
  {
    if s != [] && key(s[0]) > key(x) {
      InsertSorted(x, s[1..], key);
      var r := Insert(x, s, key);
      var t := Insert(x, s[1..], key);
      assert r == [s[0]] + t;
      forall k | 0 <= k < |t| ensures key(s[0]) >= key(t[k]) {
        assert t[k] in multiset(t);
        if t[k] != x {
          var m := InTail(s, t[k]);
        }
      }
      ConsSorted(s[0], t, key);
    }
  }

  lemma ConsSorted<T>(y: T, t: seq<T>, key: T -> real)
    requires SortedDesc(t, key) && forall k :: 0 <= k < |t| ==> key(y) >= key(t[k])
    ensures SortedDesc([y] + t, key)
  {
    forall i, j | 0 <= i < j < |[y] + t| ensures key(([y] + t)[i]) >= key(([y] + t)[j]) {
      if i > 0 { assert ([y] + t)[i] == t[i - 1]; }
      assert ([y] + t)[j] == t[j - 1];
    }
  }

  lemma {:induction false} SortDescSorted<T>(xs: seq<T>, key: T -> real)
    ensures SortedDesc(SortDesc(xs, key), key)
  {
    if xs != [] {
      SortDescSorted(xs[1..], key);
      InsertSorted(xs[0], SortDesc(xs[1..], key), key);
    }
  }

  /** Prepending `y` keeps the order when `y` comes first against every element of `t`. */
  lemma ConsLex<T>(y: T, t: seq<T>, key: T -> real, pos: T -> int)
    requires LexDesc(t, key, pos) && DistinctPos(t, pos)
    requires forall k :: 0 <= k < |t| ==> key(y) > key(t[k]) || (key(y) == key(t[k]) && pos(y) < pos(t[k]))
    requires forall k :: 0 <= k < |t| ==> pos(y) != pos(t[k])
    ensures LexDesc([y] + t, key, pos) && DistinctPos([y] + t, pos)
  {
    var r := [y] + t;
    forall i, j | 0 <= i < j < |r|
      ensures key(r[i]) > key(r[j]) || (key(r[i]) == key(r[j]) && pos(r[i]) < pos(r[j]))
      ensures pos(r[i]) != pos(r[j])
    {
      if i == 0 {
        assert r[j] == t[j - 1];
      } else {
        assert r[i] == t[i - 1] && r[j] == t[j - 1];
      }
    }
  }

  lemma TailLex<T>(s: seq<T>, key: T -> real, pos: T -> int)
    requires |s| > 0 && LexDesc(s, key, pos) && DistinctPos(s, pos)
    ensures LexDesc(s[1..], key, pos) && DistinctPos(s[1..], pos)
  {
    forall i, j | 0 <= i < j < |s[1..]|
      ensures key(s[1..][i]) > key(s[1..][j]) || (key(s[1..][i]) == key(s[1..][j]) && pos(s[1..][i]) < pos(s[1..][j]))
      ensures pos(s[1..][i]) != pos(s[1..][j])
    {
      assert s[1..][i] == s[i + 1] && s[1..][j] == s[j + 1];
    }
  }

  /** An element of the tail of a sequence. */
  lemma InTail<T>(s: seq<T>, e: T) returns (m: nat)
    requires |s| > 0 && e in multiset(s[1..])
    ensures 1 <= m < |s| && s[m] == e
  {
    var k :| 0 <= k < |s[1..]| && s[1..][k] == e;
    assert s[1..][k] == s[k + 1];
    m := k + 1;
  }

  lemma {:induction false} InsertLex<T>(x: T, s: seq<T>, key: T -> real, pos: T -> int)
    requires LexDesc(s, key, pos) && DistinctPos(s, pos)
    requires forall k :: 0 <= k < |s| ==> pos(x) < pos(s[k])
    ensures LexDesc(Insert(x, s, key), key, pos) && DistinctPos(Insert(x, s, key), pos)
    decreases |s|
  {
    if s == [] || key(s[0]) <= key(x) {
      forall k | 0 <= k < |s|
        ensures key(x) > key(s[k]) || (key(x) == key(s[k]) && pos(x) < pos(s[k]))
        ensures pos(x) != pos(s[k])
      {
        if k > 0 { assert key(s[0]) >= key(s[k]); }
      }
      ConsLex(x, s, key, pos);
    } else {
      TailLex(s, key, pos);
      var t := Insert(x, s[1..], key);
      InsertLex(x, s[1..], key, pos);
      forall k | 0 <= k < |t|
        ensures key(s[0]) > key(t[k]) || (key(s[0]) == key(t[k]) && pos(s[0]) < pos(t[k]))
        ensures pos(s[0]) != pos(t[k])
      {
        assert t[k] in multiset(t);
        if t[k] != x {
          var m := InTail(s, t[k]);
        }
      }
      ConsLex(s[0], t, key, pos);
    }
  }

  /** Stability: when positions increase along the input, equal keys come out in increasing position. */
  lemma {:induction false} SortDescStable<T>(xs: seq<T>, key: T -> real, pos: T -> int)
    requires IncreasingPos(xs, pos)
    ensures LexDesc(SortDesc(xs, key), key, pos)
    ensures DistinctPos(SortDesc(xs, key), pos)
  {
    if xs != [] {
      var rest := SortDesc(xs[1..], key);
      assert IncreasingPos(xs[1..], pos) by {
        forall i, j | 0 <= i < j < |xs[1..]| ensures pos(xs[1..][i]) < pos(xs[1..][j]) {
          assert xs[1..][i] == xs[i + 1] && xs[1..][j] == xs[j + 1];
        }
      }
      SortDescStable(xs[1..], key, pos);
      forall k | 0 <= k < |rest| ensures pos(xs[0]) < pos(rest[k]) {
        assert rest[k] in multiset(rest);
        var m := InTail(xs, rest[k]);
      }
      InsertLex(xs[0], rest, key, pos);
    }
  }

  lemma {:induction false} InsertDistinct<T>(x: T, s: seq<T>, key: T -> real, pos: T -> int)
    requires DistinctPos(s, pos)
    requires forall k :: 0 <= k < |s| ==> pos(x) != pos(s[k])
    ensures DistinctPos(Insert(x, s, key), pos)
    decreases |s|
  {
    var r := Insert(x, s, key);
    if s == [] || key(s[0]) <= key(x) {
      forall i, j | 0 <= i < j < |r| ensures pos(r[i]) != pos(r[j]) {
        if i == 0 {
          assert r[j] == s[j - 1];
        } else {
          assert r[i] == s[i - 1] && r[j] == s[j - 1];
        }
      }
    } else {
      var t := Insert(x, s[1..], key);
      assert DistinctPos(s[1..], pos) by {
        forall i, j | 0 <= i < j < |s[1..]| ensures pos(s[1..][i]) != pos(s[1..][j]) {
          assert s[1..][i] == s[i + 1] && s[1..][j] == s[j + 1];
        }
      }
      InsertDistinct(x, s[1..], key, pos);
      assert r == [s[0]] + t;
      forall k | 0 <= k < |t| ensures pos(s[0]) != pos(t[k]) {
        assert t[k] in multiset(t);
        if t[k] != x {
          var m := InTail(s, t[k]);
        }
      }
      forall i, j | 0 <= i < j < |r| ensures pos(r[i]) != pos(r[j]) {
        if i == 0 {
          assert r[j] == t[j - 1];
        } else {
          assert r[i] == t[i - 1] && r[j] == t[j - 1];
        }
      }
    }
  }

  /** Sorting keeps a sequence free of repeated `pos` values. */
  lemma {:induction false} SortDescDistinct<T>(xs: seq<T>, key: T -> real, pos: T -> int)
    requires DistinctPos(xs, pos)
    ensures DistinctPos(SortDesc(xs, key), pos)
  {
    if xs != [] {
      var rest := SortDesc(xs[1..], key);
      assert DistinctPos(xs[1..], pos) by {
        forall i, j | 0 <= i < j < |xs[1..]| ensures pos(xs[1..][i]) != pos(xs[1..][j]) {
          assert xs[1..][i] == xs[i + 1] && xs[1..][j] == xs[j + 1];
        }
      }
      SortDescDistinct(xs[1..], key, pos);
      forall k | 0 <= k < |rest| ensures pos(xs[0]) != pos(rest[k]) {
        assert rest[k] in multiset(rest);
        var m := InTail(xs, rest[k]);
      }
      InsertDistinct(xs[0], rest, key, pos);
    }
  }

  /** Every element the sort puts at or after position `p` has a key no larger than the element at `p`. */
  lemma SortedTail<T>(r: seq<T>, key: T -> real, p: nat, q: nat)
    requires SortedDesc(r, key) && p <= q < |r|
    ensures key(r[p]) >= key(r[q])
  {
  }

  /** Python's `xs[:n]`: the first `n` elements, or all but the last `-n` when `n` is negative. */
  function PyPrefix<T>(xs: seq<T>, n: int): (r: seq<T>)
    ensures n >= 0 ==> |r| == (if n < |xs| then n else |xs|)
    ensures n < 0 ==> |r| == (if |xs| + n > 0 then |xs| + n else 0)
    ensures r == xs[..|r|]
  {
    if n >= 0 then xs[..if n < |xs| then n else |xs|]
    else xs[..if |xs| + n > 0 then |xs| + n else 0]
  }

  /** A prefix of the sorted sequence is sorted and takes each element at most as often as the input holds it. */
  lemma PrefixOfSorted<T>(xs: seq<T>, key: T -> real, n: int)
    ensures multiset(PyPrefix(SortDesc(xs, key), n)) <= multiset(xs)
    ensures SortedDesc(PyPrefix(SortDesc(xs, key), n), key)
  {
    var sorted := SortDesc(xs, key);
    var r := PyPrefix(sorted, n);
    SortDescSorted(xs, key);
    assert sorted == r + sorted[|r|..];
    assert multiset(sorted) == multiset(r) + multiset(sorted[|r|..]);
  }

  /** An element the sorted prefix leaves out has a key no larger than any element kept. */
  lemma PrefixExcluded<T>(xs: seq<T>, key: T -> real, n: int, x: T)
    requires x in xs && x !in PyPrefix(SortDesc(xs, key), n)
    ensures forall k :: 0 <= k < |PyPrefix(SortDesc(xs, key), n)| ==> key(x) <= key(PyPrefix(SortDesc(xs, key), n)[k])
  {
    var sorted := SortDesc(xs, key);
    var r := PyPrefix(sorted, n);
    SortDescSorted(xs, key);
    assert x in multiset(sorted);
    var p :| 0 <= p < |sorted| && sorted[p] == x;
    forall k | 0 <= k < |r| ensures r[k] != x {
      assert r[k] == sorted[k];
    }
    assert p >= |r|;
    forall k | 0 <= k < |r| ensures key(x) <= key(r[k]) {
      assert r[k] == sorted[k];
    }
  }

  /** The positions carried by a sequence without repeats are as many as its elements. */
  lemma {:induction false} DistinctCard<T>(r: seq<T>, pos: T -> int)
    requires DistinctPos(r, pos)
    ensures |set k | 0 <= k < |r| :: pos(r[k])| == |r|
    decreases |r|
  {
    if r != [] {
      var n := |r| - 1;
      var prefix := r[..n];
      assert DistinctPos(prefix, pos);
      DistinctCard(prefix, pos);
      var before := set k | 0 <= k < |prefix| :: pos(prefix[k]);
      var all := set k | 0 <= k < |r| :: pos(r[k]);
      assert all == before + {pos(r[n])} by {
        forall v | v in all ensures v in before + {pos(r[n])} {
          var k :| 0 <= k < |r| && v == pos(r[k]);
          if k < n { assert prefix[k] == r[k]; }
        }
        forall v | v in before ensures v in all {
          var k :| 0 <= k < |prefix| && v == pos(prefix[k]);
          assert prefix[k] == r[k];
        }
      }
      forall k | 0 <= k < |prefix| ensures pos(prefix[k]) != pos(r[n]) {
        assert prefix[k] == r[k];
      }
    }
  }

  /** `{0, ..., n - 1}` */
  function Range(n: nat): (r: set<int>)
    ensures |r| == n
    ensures forall j :: j in r <==> 0 <= j < n
  {
    if n == 0 then {} else Range(n - 1) + {n - 1}
  }

  /** `n` entries with distinct positions, all in `[0, n)`, cover every position in `[0, n)`. */
  lemma Pigeonhole<T>(r: seq<T>, pos: T -> int, j: int)
    requires DistinctPos(r, pos) && forall k :: 0 <= k < |r| ==> 0 <= pos(r[k]) < |r|
    requires 0 <= j < |r|
    ensures exists k :: 0 <= k < |r| && pos(r[k]) == j
  {
    var hit := set k | 0 <= k < |r| :: pos(r[k]);
    DistinctCard(r, pos);
    if forall k :: 0 <= k < |r| ==> pos(r[k]) != j {
      assert hit <= Range(|r|) - {j};
      SubsetCard(hit, Range(|r|) - {j});
      assert false;
    }
  }

  /** Entries with distinct positions that are exactly the positions `[0, n)` number `n`. */
  lemma CoverCard<T>(r: seq<T>, pos: T -> int, n: nat)
    requires DistinctPos(r, pos)
    requires forall k :: 0 <= k < |r| ==> 0 <= pos(r[k]) < n
    requires forall j :: j in Range(n) ==> exists k :: 0 <= k < |r| && pos(r[k]) == j
    ensures |r| == n
  {
    DistinctCard(r, pos);
    var hit := set k | 0 <= k < |r| :: pos(r[k]);
    assert hit == Range(n);
  }

  lemma SubsetCard<T>(a: set<T>, b: set<T>)
    requires a <= b
    ensures |a| <= |b|
  {
    assert b == a + (b - a);
  }

  /** `min(scores)` */
  function MinOf(s: seq<real>): (m: real)
    requires |s| > 0
    ensures m in s && forall i :: 0 <= i < |s| ==> m <= s[i]
  {
    if |s| == 1 then s[0]
    else
      var m := MinOf(s[..|s| - 1]);
      assert forall i :: 0 <= i < |s| - 1 ==> s[..|s| - 1][i] == s[i];
      if s[|s| - 1] < m then s[|s| - 1] else m
  }

  /** `max(scores)` */
  function MaxOf(s: seq<real>): (m: real)
    requires |s| > 0
    ensures m in s && forall i :: 0 <= i < |s| ==> s[i] <= m
  {
    if |s| == 1 then s[0]
    else
      var m := MaxOf(s[..|s| - 1]);
      assert forall i :: 0 <= i < |s| - 1 ==> s[..|s| - 1][i] == s[i];
      if s[|s| - 1] > m then s[|s| - 1] else m
  }

  // ---------------------------------------------------------------------
  // Ranking document indices by score: enumerate, stable sort, slice.
  // ---------------------------------------------------------------------

  /** A `{"doc_index": i, "score": s}` entry. */
  datatype ScoredDoc = ScoredDoc(docIndex: nat, score: real)

  /** `[(i, score) for i, score in enumerate(scores)]` */
  function Enumerate(scores: seq<real>): (r: seq<ScoredDoc>)
    ensures |r| == |scores|
    ensures forall i :: 0 <= i < |r| ==> r[i] == ScoredDoc(i, scores[i])
  {
    seq(|scores|, i requires 0 <= i < |scores| => ScoredDoc(i, scores[i]))
  }

  function ScoreOf(d: ScoredDoc): real { d.score }

  function IndexOf(d: ScoredDoc): int { d.docIndex }

  /** Sort `(index, score)` pairs by score, highest first (stably), and keep the first `n`. */
  function TopN(scores: seq<real>, n: int): seq<ScoredDoc> {
    PyPrefix(SortDesc(Enumerate(scores), ScoreOf), n)
  }

  /** Every entry of the ranked list is a valid index paired with its own score. */
  lemma RankedEntries(scores: seq<real>)
    ensures forall k :: 0 <= k < |SortDesc(Enumerate(scores), ScoreOf)| ==>
      SortDesc(Enumerate(scores), ScoreOf)[k].docIndex < |scores|
      && SortDesc(Enumerate(scores), ScoreOf)[k].score == scores[SortDesc(Enumerate(scores), ScoreOf)[k].docIndex]
  {
    var e := Enumerate(scores);
    var sorted := SortDesc(e, ScoreOf);
    forall k | 0 <= k < |sorted|
      ensures sorted[k].docIndex < |scores| && sorted[k].score == scores[sorted[k].docIndex]
    {
      assert sorted[k] in multiset(e);
    }
  }

  /** Every index of the top-`n` list is an index of `scores`. */
  lemma TopNIndices(scores: seq<real>, n: int)
    ensures forall k :: 0 <= k < |TopN(scores, n)| ==> TopN(scores, n)[k].docIndex < |scores|
  {
    RankedEntries(scores);
    assert TopN(scores, n) == SortDesc(Enumerate(scores), ScoreOf)[..|TopN(scores, n)|];
  }

  /** The ranked list is ordered by score, highest first, ties in ascending index, no index twice. */
  lemma RankedOrder(scores: seq<real>)
    ensures LexDesc(SortDesc(Enumerate(scores), ScoreOf), ScoreOf, IndexOf)
    ensures DistinctPos(SortDesc(Enumerate(scores), ScoreOf), IndexOf)
    ensures SortedDesc(SortDesc(Enumerate(scores), ScoreOf), ScoreOf)
  {
    var e := Enumerate(scores);
    assert IncreasingPos(e, IndexOf);
    SortDescStable(e, ScoreOf, IndexOf);
    SortDescSorted(e, ScoreOf);
  }

  /** An index the top-`n` list leaves out scores no higher than any index it keeps. */
  lemma TopNExcluded(scores: seq<real>, n: int, j: nat)
    requires j < |scores|
    requires forall k :: 0 <= k < |TopN(scores, n)| ==> TopN(scores, n)[k].docIndex != j
    ensures forall k :: 0 <= k < |TopN(scores, n)| ==> scores[j] <= TopN(scores, n)[k].score
  {
    var e := Enumerate(scores);
    var sorted := SortDesc(e, ScoreOf);
    var r := TopN(scores, n);
    assert r == sorted[..|r|];
    RankedOrder(scores);
    assert e[j] in multiset(sorted);
    var p :| 0 <= p < |sorted| && sorted[p] == e[j];
    assert e[j] !in r;
    assert p >= |r|;
    forall k | 0 <= k < |r| ensures scores[j] <= r[k].score {
      assert ScoreOf(sorted[k]) >= ScoreOf(sorted[p]);
    }
  }

  /**
   * The top-`n` list holds `min(n, |scores|)` entries for `n >= 0`, each a
   * valid index with its own score, no index twice, highest score first,
   * equal scores in ascending index order, and no index left out scores
   * higher than one kept.
   */
  lemma TopNSpec(scores: seq<real>, n: int)
    ensures var r := TopN(scores, n);
      && (n >= 0 ==> |r| == (if n < |scores| then n else |scores|))
      && (forall k :: 0 <= k < |r| ==> r[k].docIndex < |scores| && r[k].score == scores[r[k].docIndex])
      && (forall k, l :: 0 <= k < l < |r| ==> r[k].docIndex != r[l].docIndex)
      && (forall k, l :: 0 <= k < l < |r| ==>
            r[k].score > r[l].score || (r[k].score == r[l].score && r[k].docIndex < r[l].docIndex))
      && (forall j :: 0 <= j < |scores| && (forall k :: 0 <= k < |r| ==> r[k].docIndex != j) ==>
            forall k :: 0 <= k < |r| ==> scores[j] <= r[k].score)
  {
    var sorted := SortDesc(Enumerate(scores), ScoreOf);
    var r := TopN(scores, n);
    assert r == sorted[..|r|];
    RankedEntries(scores);
    RankedOrder(scores);
    forall k | 0 <= k < |r|
      ensures r[k].docIndex < |scores| && r[k].score == scores[r[k].docIndex]
    {
      assert r[k] == sorted[k];
    }
    forall k, l | 0 <= k < l < |r|
      ensures r[k].docIndex != r[l].docIndex
      ensures r[k].score > r[l].score || (r[k].score == r[l].score && r[k].docIndex < r[l].docIndex)
    {
      assert r[k] == sorted[k] && r[l] == sorted[l];
      assert ScoreOf(r[k]) > ScoreOf(r[l]) || (ScoreOf(r[k]) == ScoreOf(r[l]) && IndexOf(r[k]) < IndexOf(r[l]));
    }
    forall j | 0 <= j < |scores| && (forall k :: 0 <= k < |r| ==> r[k].docIndex != j)
      ensures forall k :: 0 <= k < |r| ==> scores[j] <= r[k].score
    {
      TopNExcluded(scores, n, j);
    }
  }
}
