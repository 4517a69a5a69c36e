/**
 * The Python string primitives the core relies on: whitespace, `lower`,
 * `strip`, `split()`, `split(sep)`, `sep.join`, `in` on strings and
 * `endswith`. Case mapping covers ASCII letters only.
 */
module Text {
  import Common

  /** Python's `str.isspace` for one character (the characters `split()`, `strip()` and `\s` treat as whitespace). */
  predicate IsSpace(c: char) {
    c == ' ' || c == '\t' || c == '\n' || c == '\r' || c == '\U{000B}' || c == '\U{000C}'
    || ('\U{001C}' <= c <= '\U{001F}')
    || c == '\U{0085}' || c == '\U{00A0}' || c == '\U{1680}'
    || ('\U{2000}' <= c <= '\U{200A}')
    || c == '\U{2028}' || c == '\U{2029}' || c == '\U{202F}' || c == '\U{205F}' || c == '\U{3000}'
  }

  predicate IsUpper(c: char) { 'A' <= c <= 'Z' }

  function LowerChar(c: char): (r: char)
    ensures !IsUpper(r)
    ensures IsSpace(r) <==> IsSpace(c)
  {
    if IsUpper(c) then (c as int - 'A' as int + 'a' as int) as char else c
  }

  /** `s.lower()` */
  function Lower(s: string): (r: string)
    ensures |r| == |s|
    ensures forall i :: 0 <= i < |s| ==> r[i] == LowerChar(s[i])
  {
    seq(|s|, i requires 0 <= i < |s| => LowerChar(s[i]))
  }

  predicate NoSpace(w: string) {
    forall j :: 0 <= j < |w| ==> !IsSpace(w[j])
  }

  /** `s.lstrip()` */
  function TrimLeft(s: string): (r: string)
    ensures |r| <= |s| && r == s[|s| - |r|..]
    ensures r == [] || !IsSpace(r[0])
    decreases |s|
  {
    if s != [] && IsSpace(s[0]) then TrimLeft(s[1..]) else s
  }

  /** `s.rstrip()` */
  function TrimRight(s: string): (r: string)
    ensures |r| <= |s| && r == s[..|r|]
    ensures r == [] || !IsSpace(r[|r| - 1])
    decreases |s|
  {
    if s != [] && IsSpace(s[|s| - 1]) then TrimRight(s[..|s| - 1]) else s
  }

  /** `s.strip()`: the result is a slice of `s` with no whitespace at either end. */
  function Strip(s: string): (r: string)
    ensures exists i, j :: 0 <= i <= j <= |s| && r == s[i..j]
    ensures r == [] || (!IsSpace(r[0]) && !IsSpace(r[|r| - 1]))
  {
    var t := TrimLeft(s);
    var r := TrimRight(t);
    assert r == s[|s| - |t|..][..|r|] == s[|s| - |t|..|s| - |t| + |r|];
    r
  }

  /** A string with no whitespace at either end is its own strip. */
  lemma StripFixed(s: string)
    requires s == [] || (!IsSpace(s[0]) && !IsSpace(s[|s| - 1]))
    ensures Strip(s) == s
  {
  }

  lemma StripIdempotent(s: string)
    ensures Strip(Strip(s)) == Strip(s)
  {
    StripFixed(Strip(s));
  }

  /** Every character is whitespace. */
  predicate Blank(s: string) {
    forall i :: 0 <= i < |s| ==> IsSpace(s[i])
  }

  lemma {:induction false} TrimLeftBlank(s: string)
    ensures TrimLeft(s) == [] <==> Blank(s)
    decreases |s|
  {
    if s != [] {
      TrimLeftBlank(s[1..]);
      if IsSpace(s[0]) {
        assert Blank(s) <==> Blank(s[1..]) by {
          if Blank(s[1..]) {
            forall i | 0 <= i < |s| ensures IsSpace(s[i]) {
              if i > 0 { assert s[i] == s[1..][i - 1]; }
            }
          }
        }
      }
    }
  }

  lemma {:induction false} TrimRightKeepsFirst(s: string)
    requires s != [] && !IsSpace(s[0])
    ensures TrimRight(s) != []
    decreases |s|
  {
    if IsSpace(s[|s| - 1]) {
      TrimRightKeepsFirst(s[..|s| - 1]);
    }
  }

  /** What `lstrip` removes is whitespace. */
  lemma {:induction false} TrimLeftRemovesBlank(s: string)
    ensures Blank(s[..|s| - |TrimLeft(s)|])
    decreases |s|
  {
    if s != [] && IsSpace(s[0]) {
      TrimLeftRemovesBlank(s[1..]);
      var k := |s| - |TrimLeft(s)|;
      forall i | 0 <= i < k ensures IsSpace(s[i]) {
        if i > 0 { assert s[i] == s[1..][..k - 1][i - 1]; }
      }
    }
  }

  /** What `rstrip` removes is whitespace. */
  lemma {:induction false} TrimRightRemovesBlank(s: string)
    ensures Blank(s[|TrimRight(s)|..])
    decreases |s|
  {
    if s != [] && IsSpace(s[|s| - 1]) {
      var n := |s| - 1;
      TrimRightRemovesBlank(s[..n]);
      var k := |TrimRight(s)|;
      forall i | k <= i < |s| ensures IsSpace(s[i]) {
        if i < n { assert s[i] == s[..n][k..][i - k]; }
      }
    }
  }

  /**
   * `s.strip()` removes a blank prefix and a blank suffix and nothing else:
   * it is the slice `s[i..j]` with only whitespace before `i` and after `j`,
   * and with no whitespace at either of its own ends.
   */
  lemma StripSpec(s: string)
    ensures exists i, j :: 0 <= i <= j <= |s| && Strip(s) == s[i..j] && Blank(s[..i]) && Blank(s[j..])
    ensures Strip(s) == [] || (!IsSpace(Strip(s)[0]) && !IsSpace(Strip(s)[|Strip(s)| - 1]))
  {
    var t := TrimLeft(s);
    var r := TrimRight(t);
    var i := |s| - |t|;
    var j := i + |r|;
    TrimLeftRemovesBlank(s);
    TrimRightRemovesBlank(t);
    assert Strip(s) == r == s[i..j];
    assert s[j..] == t[|r|..];
  }

  /** `s.strip()` is empty exactly when `s` is blank. */
  lemma StripEmpty(s: string)
    ensures Strip(s) == [] <==> Blank(s)
  {
    TrimLeftBlank(s);
    var t := TrimLeft(s);
    if t != [] {
      TrimRightKeepsFirst(t);
    }
  }

  /** `s.split()`, with `cur` the word read so far. */
  function WordsFrom(s: string, cur: string): (ws: seq<string>)
    requires NoSpace(cur)
    ensures forall i :: 0 <= i < |ws| ==> ws[i] != [] && NoSpace(ws[i])
    ensures forall i, j :: 0 <= i < |ws| && 0 <= j < |ws[i]| ==> ws[i][j] in s || ws[i][j] in cur
    decreases |s|
  {
    if s == [] then
      (if cur == [] then [] else [cur])
    else if IsSpace(s[0]) then
      (if cur == [] then [] else [cur]) + WordsFrom(s[1..], [])
    else
      WordsFrom(s[1..], cur + [s[0]])
  }

  /** `s.split()`: the maximal runs of non-whitespace characters. */
  function Words(s: string): (ws: seq<string>)
    ensures forall i :: 0 <= i < |ws| ==> ws[i] != [] && NoSpace(ws[i])
    ensures forall i, j :: 0 <= i < |ws| && 0 <= j < |ws[i]| ==> ws[i][j] in s
  {
    WordsFrom(s, [])
  }

  /** The characters of `s` that are not whitespace, in order. */
  function NonSpaceChars(s: string): string
    decreases |s|
  {
    if s == [] then [] else (if IsSpace(s[0]) then [] else [s[0]]) + NonSpaceChars(s[1..])
  }

  lemma NoSpaceSnoc(cur: string, c: char)
    requires NoSpace(cur) && !IsSpace(c)
    ensures NoSpace(cur + [c])
  {
    forall j | 0 <= j < |cur + [c]| ensures !IsSpace((cur + [c])[j]) {
      if j < |cur| { assert (cur + [c])[j] == cur[j]; }
    }
  }

  /** The word read so far, closed at a whitespace or at the end of the text. */
  function Closed(cur: string): (ws: seq<string>)
    ensures Common.Flatten(ws) == cur
  {
    if cur == [] then [] else
      assert [cur][..0] == [];
      [cur]
  }

  lemma {:induction false} WordsFromConcat(s: string, cur: string)
    requires NoSpace(cur)
    ensures Common.Flatten(WordsFrom(s, cur)) == cur + NonSpaceChars(s)
    decreases |s|
  {
    if s == [] {
      assert WordsFrom(s, cur) == Closed(cur);
      assert cur + NonSpaceChars(s) == cur;
    } else if IsSpace(s[0]) {
      var rest := WordsFrom(s[1..], []);
      assert WordsFrom(s, cur) == Closed(cur) + rest;
      assert NonSpaceChars(s) == NonSpaceChars(s[1..]);
      WordsFromConcat(s[1..], []);
      Common.FlattenAppend(Closed(cur), rest);
    } else {
      NoSpaceSnoc(cur, s[0]);
      assert WordsFrom(s, cur) == WordsFrom(s[1..], cur + [s[0]]);
      assert NonSpaceChars(s) == [s[0]] + NonSpaceChars(s[1..]);
      WordsFromConcat(s[1..], cur + [s[0]]);
    }
  }

  /** The words of `s.split()`, put back together, are `s` with its whitespace removed. */
  lemma WordsConcat(s: string)
    ensures Common.Flatten(Words(s)) == NonSpaceChars(s)
  {
    WordsFromConcat(s, []);
  }

  /** A non-empty run of non-whitespace characters is one word. */
  lemma WordsSolid(w: string)
    requires w != [] && NoSpace(w)
    ensures Words(w) == [w]
  {
    WordsFromRun(w, [], []);
    assert w + [] == w && [] + w == w;
  }

  lemma {:induction false} WordsFromSplit(a: string, c: char, b: string, cur: string)
    requires IsSpace(c) && NoSpace(cur)
    ensures WordsFrom(a + [c] + b, cur) == WordsFrom(a, cur) + WordsFrom(b, [])
    decreases |a|
  {
    var s := a + [c] + b;
    if a == [] {
      assert s[0] == c && s[1..] == b;
    } else {
      assert s[0] == a[0] && s[1..] == a[1..] + [c] + b;
      if IsSpace(a[0]) {
        WordsFromSplit(a[1..], c, b, []);
      } else {
        WordsFromSplit(a[1..], c, b, cur + [a[0]]);
      }
    }
  }

  /**
   * A whitespace character always separates words: the words of
   * `a + [c] + b` are those of `a` followed by those of `b`. With
   * `WordsSolid` and `Words([]) == []` this determines `split()` on every
   * string, so each word is a maximal run of non-whitespace characters.
   */
  lemma WordsSplit(a: string, c: char, b: string)
    requires IsSpace(c)
    ensures Words(a + [c] + b) == Words(a) + Words(b)
  {
    WordsFromSplit(a, c, b, []);
  }

  /** Every character of every word satisfies what every character of the text satisfies. */
  lemma WordsKeep(s: string, p: char -> bool)
    requires forall i :: 0 <= i < |s| ==> p(s[i])
    ensures forall w, j :: w in Words(s) && 0 <= j < |w| ==> p(w[j])
  {
    forall w, j | w in Words(s) && 0 <= j < |w| ensures p(w[j]) {
      var i :| 0 <= i < |Words(s)| && Words(s)[i] == w;
      assert w[j] in s;
    }
  }

  /** Reading a run of non-whitespace characters only extends the current word. */
  lemma {:induction false} WordsFromRun(w: string, rest: string, cur: string)
    requires NoSpace(w) && NoSpace(cur)
    ensures WordsFrom(w + rest, cur) == WordsFrom(rest, cur + w)
    decreases |w|
  {
    if w != [] {
      assert (w + rest)[0] == w[0] && (w + rest)[1..] == w[1..] + rest;
      WordsFromRun(w[1..], rest, cur + [w[0]]);
      assert cur + [w[0]] + w[1..] == cur + w;
    } else {
      assert w + rest == rest && cur + w == cur;
    }
  }

  /** Splitting words joined by single spaces gives the words back. */
  lemma {:induction false} WordsJoin(ws: seq<string>)
    requires forall i :: 0 <= i < |ws| ==> ws[i] != [] && NoSpace(ws[i])
    ensures Words(Join(ws, " ")) == ws
    decreases |ws|
  {
    if |ws| == 1 {
      WordsFromRun(ws[0], [], []);
      assert ws[0] + [] == ws[0] && [] + ws[0] == ws[0];
    } else if |ws| > 1 {
      var rest := Join(ws[1..], " ");
      WordsJoin(ws[1..]);
      assert Join(ws, " ") == ws[0] + (" " + rest);
      WordsFromRun(ws[0], " " + rest, []);
      assert [] + ws[0] == ws[0];
      assert (" " + rest)[0] == ' ' && (" " + rest)[1..] == rest;
      assert [ws[0]] + ws[1..] == ws;
    } else {
      assert WordsFrom([], []) == [];
    }
  }

  /** `sub` occurs in `p` at position `i`. */
  predicate OccursAt(p: string, sub: string, i: nat) {
    i + |sub| <= |p| && p[i..i + |sub|] == sub
  }

  /** `sub` occurs nowhere in `p`. */
  predicate NoOccurrence(p: string, sub: string) {
    forall i: nat :: i <= |p| ==> !OccursAt(p, sub, i)
  }

  /** `s.split(sep)` for a non-empty separator: cut at each leftmost non-overlapping occurrence. */
  function SplitOn(s: string, sep: string): (parts: seq<string>)
    requires |sep| > 0
    ensures |parts| >= 1
    ensures |parts[0]| <= |s| && parts[0] == s[..|parts[0]|]
    ensures forall k :: 0 <= k < |parts| ==> NoOccurrence(parts[k], sep)
    decreases |s|
  {
    if |s| < |sep| then
      assert NoOccurrence(s, sep);
      [s]
    else if s[..|sep|] == sep then
      [[]] + SplitOn(s[|sep|..], sep)
    else
      var rest := SplitOn(s[1..], sep);
      var first := [s[0]] + rest[0];
      assert NoOccurrence(first, sep) by {
        forall i: nat | i <= |first|
          ensures !OccursAt(first, sep, i)
        {
          if i == 0 {
            if |sep| <= |first| {
              assert first[..|sep|] == s[..|sep|];
            }
          } else if i + |sep| <= |first| {
            assert first[i..i + |sep|] == rest[0][i - 1..i - 1 + |sep|];
            assert !OccursAt(rest[0], sep, i - 1);
          }
        }
      }
      [first] + rest[1..]
  }

  /** `sep.join(parts)` */
  function Join(parts: seq<string>, sep: string): string {
    if |parts| == 0 then []
    else if |parts| == 1 then parts[0]
    else parts[0] + sep + Join(parts[1..], sep)
  }

  lemma JoinSnoc(parts: seq<string>, x: string, sep: string)
    requires parts != []
    ensures Join(parts + [x], sep) == Join(parts, sep) + sep + x
    decreases |parts|
  {
    if |parts| == 1 {
      assert (parts + [x])[1..] == [x];
    } else {
      assert (parts + [x])[1..] == parts[1..] + [x];
      JoinSnoc(parts[1..], x, sep);
    }
  }

  /** No occurrence of `sep` starts inside `p` when `p` is followed by `sep`. */
  predicate NoSepBefore(p: string, sep: string) {
    forall i: nat :: i < |p| ==> !OccursAt(p + sep, sep, i)
  }

  lemma {:induction false} SplitOnHead(p: string, sep: string, rest: string)
    requires |sep| > 0 && NoSepBefore(p, sep)
    ensures SplitOn(p + sep + rest, sep) == [p] + SplitOn(rest, sep)
    decreases |p|
  {
    var s := p + sep + rest;
    if p == [] {
      assert s == sep + rest && s[..|sep|] == sep && s[|sep|..] == rest;
    } else {
      assert !OccursAt(p + sep, sep, 0);
      assert s[..|sep|] == (p + sep)[0..|sep|];
      assert s[1..] == p[1..] + sep + rest;
      assert NoSepBefore(p[1..], sep) by {
        forall i: nat | i < |p[1..]|
          ensures !OccursAt(p[1..] + sep, sep, i)
        {
          assert (p[1..] + sep)[i..i + |sep|] == (p + sep)[i + 1..i + 1 + |sep|];
          assert !OccursAt(p + sep, sep, i + 1);
        }
      }
      SplitOnHead(p[1..], sep, rest);
      assert [s[0]] + p[1..] == p;
    }
  }

  lemma {:induction false} SplitOnWhole(p: string, sep: string)
    requires |sep| > 0 && NoOccurrence(p, sep)
    ensures SplitOn(p, sep) == [p]
    decreases |p|
  {
    if |p| >= |sep| {
      assert !OccursAt(p, sep, 0);
      assert p[..|sep|] == p[0..0 + |sep|];
      assert NoOccurrence(p[1..], sep) by {
        forall i: nat | i <= |p[1..]|
          ensures !OccursAt(p[1..], sep, i)
        {
          if i + |sep| <= |p[1..]| {
            assert p[1..][i..i + |sep|] == p[i + 1..i + 1 + |sep|];
            assert !OccursAt(p, sep, i + 1);
          }
        }
      }
      SplitOnWhole(p[1..], sep);
      assert [p[0]] + p[1..] == p;
    }
  }

  /** Splitting a joined list on its separator gives the list back, when no part lets the separator start early. */
  lemma {:induction false} SplitJoin(parts: seq<string>, sep: string)
    requires |sep| > 0 && |parts| >= 1
    requires forall k :: 0 <= k < |parts| ==> NoSepBefore(parts[k], sep) && NoOccurrence(parts[k], sep)
    ensures SplitOn(Join(parts, sep), sep) == parts
    decreases |parts|
  {
    if |parts| == 1 {
      SplitOnWhole(parts[0], sep);
    } else {
      SplitJoin(parts[1..], sep);
      SplitOnHead(parts[0], sep, Join(parts[1..], sep));
      assert parts[0] + sep + Join(parts[1..], sep) == Join(parts, sep);
      assert [parts[0]] + parts[1..] == parts;
    }
  }

  /** Joining the parts of a split with its separator gives the string back. */
  lemma {:induction false} JoinSplit(s: string, sep: string)
    requires |sep| > 0
    ensures Join(SplitOn(s, sep), sep) == s
    decreases |s|
  {
    var parts := SplitOn(s, sep);
    if |s| < |sep| {
    } else if s[..|sep|] == sep {
      var rest := SplitOn(s[|sep|..], sep);
      JoinSplit(s[|sep|..], sep);
      assert parts == [[]] + rest && parts[1..] == rest;
      assert s == sep + s[|sep|..];
    } else {
      var rest := SplitOn(s[1..], sep);
      JoinSplit(s[1..], sep);
      var first := [s[0]] + rest[0];
      assert parts == [first] + rest[1..];
      if |rest| == 1 {
        assert Join(parts, sep) == first;
      } else {
        assert parts[1..] == rest[1..];
        assert Join(parts, sep) == first + sep + Join(rest[1..], sep);
        assert Join(rest, sep) == rest[0] + sep + Join(rest[1..], sep);
      }
      assert s == [s[0]] + s[1..];
    }
  }

  /**
   * Every part of a split but the last ends at the leftmost occurrence of
   * the separator: no occurrence starts inside the part followed by the
   * separator.
   */
  lemma {:induction false} SplitOnLeftmost(s: string, sep: string, k: nat)
    requires |sep| > 0 && k < |SplitOn(s, sep)| - 1
    ensures NoSepBefore(SplitOn(s, sep)[k], sep)
    decreases |s|
  {
    var parts := SplitOn(s, sep);
    if |s| < |sep| {
    } else if s[..|sep|] == sep {
      var rest := SplitOn(s[|sep|..], sep);
      assert parts == [[]] + rest;
      if k > 0 {
        SplitOnLeftmost(s[|sep|..], sep, k - 1);
        assert parts[k] == rest[k - 1];
      } else {
        assert parts[0] == [];
      }
    } else {
      var rest := SplitOn(s[1..], sep);
      assert parts == [[s[0]] + rest[0]] + rest[1..];
      if k > 0 {
        SplitOnLeftmost(s[1..], sep, k);
        assert parts[k] == rest[k];
      } else {
        SplitOnLeftmost(s[1..], sep, 0);
        JoinSplit(s[1..], sep);
        assert rest == [rest[0]] + rest[1..];
        FirstNoSepBefore(s, sep, rest[0], Join(rest[1..], sep));
      }
    }
  }

  /** The step of `SplitOnLeftmost` where the first part grows by one character in front of a separator. */
  lemma FirstNoSepBefore(s: string, sep: string, p: string, t: string)
    requires |sep| > 0 && |s| >= |sep| && s[..|sep|] != sep
    requires s[1..] == p + sep + t && NoSepBefore(p, sep)
    ensures NoSepBefore([s[0]] + p, sep)
  {
    var u := p + sep;
    var first := [s[0]] + p;
    assert first + sep == [s[0]] + u;
    forall i: nat | i < |first|
      ensures !OccursAt(first + sep, sep, i)
    {
      if i == 0 {
        PrefixOfShift(s, u, t, |sep|);
      } else {
        ShiftSlice(s[0], u, i, |sep|);
        assert !OccursAt(u, sep, i - 1);
      }
    }
  }

  lemma PrefixOfShift(s: string, u: string, t: string, n: nat)
    requires |s| >= 1 && s[1..] == u + t && n <= 1 + |u|
    ensures ([s[0]] + u)[..n] == s[..n]
  {
    assert s == [s[0]] + u + t;
  }

  lemma ShiftSlice(c: char, u: string, i: nat, n: nat)
    requires 1 <= i && i + n <= 1 + |u|
    ensures ([c] + u)[i..i + n] == u[i - 1..i - 1 + n]
  {
  }

  lemma SliceOfSlice(p: string, a: nat, b: nat, i: nat, j: nat)
    requires a <= b <= |p| && i <= j <= b - a
    ensures p[a..b][i..j] == p[a + i..a + j]
  {
    var x, y := p[a..b][i..j], p[a + i..a + j];
    assert |x| == |y|;
    forall k | 0 <= k < |x| ensures x[k] == y[k] {
    }
  }

  /** A slice of a string with no occurrence of `sub` has none either. */
  lemma NoOccurrenceSlice(p: string, sub: string, a: nat, b: nat)
    requires a <= b <= |p| && NoOccurrence(p, sub)
    ensures NoOccurrence(p[a..b], sub)
  {
    forall i: nat | i <= |p[a..b]|
      ensures !OccursAt(p[a..b], sub, i)
    {
      if i + |sub| <= |p[a..b]| {
        SliceOfSlice(p, a, b, i, i + |sub|);
        assert a + i <= |p|;
        assert !OccursAt(p, sub, a + i);
      }
    }
  }

  /** Stripping keeps a string free of `sub`. */
  lemma NoOccurrenceStrip(p: string, sub: string)
    requires NoOccurrence(p, sub)
    ensures NoOccurrence(Strip(p), sub)
  {
    var i, j :| 0 <= i <= j <= |p| && Strip(p) == p[i..j];
    NoOccurrenceSlice(p, sub, i, j);
  }

  /** `sub in s` */
  predicate Contains(s: string, sub: string) {
    exists i: nat :: i <= |s| && OccursAt(s, sub, i)
  }

  /** `s.endswith(suffix)` */
  predicate EndsWith(s: string, suffix: string) {
    |suffix| <= |s| && s[|s| - |suffix|..] == suffix
  }

  /** `s.startswith(prefix)` */
  predicate StartsWith(s: string, prefix: string) {
    |prefix| <= |s| && s[..|prefix|] == prefix
  }
}
