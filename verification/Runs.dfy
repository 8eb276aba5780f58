/** Maximal stretches of marked places: what splitting a text at the places without a mark gives. */
module Runs {
  /** A stretch of the text from `begin` to `end`. */
  datatype Span = Span(begin: nat, end: nat)

  predicate Marked(v: seq<bool>, i: int) { 0 <= i < |v| && v[i] }

  /** A maximal stretch of marked places. */
  predicate IsRun(v: seq<bool>, r: Span) {
    && r.begin < r.end <= |v|
    && (forall i :: r.begin <= i < r.end ==> Marked(v, i))
    && !Marked(v, r.begin - 1) && !Marked(v, r.end)
  }

  /** All the runs, from left to right. */
  ghost predicate AreRuns(v: seq<bool>, runs: seq<Span>) {
    && (forall k :: 0 <= k < |runs| ==> IsRun(v, runs[k]))
    && (forall j, k :: 0 <= j < k < |runs| ==> runs[j].end < runs[k].begin)
    && (forall r :: IsRun(v, r) ==> r in runs)
  }

  /** The places from `begin` on that are marked, each once and in order. */
  ghost predicate AreMarked(v: seq<bool>, begin: nat, at: seq<nat>) {
    && (forall k :: 0 <= k < |at| ==> begin <= at[k] < |v| && v[at[k]])
    && (forall j, k :: 0 <= j < k < |at| ==> at[j] < at[k])
    && (forall i :: begin <= i < |v| && v[i] ==> i in at)
  }

  lemma {:induction false} MarkedNext(v: seq<bool>, begin: nat, next: nat, later: seq<nat>)
    requires begin < |v| && next == begin + 1 && AreMarked(v, next, later)
    ensures AreMarked(v, begin, if v[begin] then [begin] + later else later)
  {
  }

  /** A stretch of the rest is a stretch of the whole. */
  lemma {:induction false} SliceOfTail<T>(s: seq<T>, n: nat, i: nat, j: nat)
    requires i <= j && n + j <= |s|
    ensures s[n..][i..j] == s[n + i..n + j]
  {
    forall k | 0 <= k < j - i ensures s[n..][i..j][k] == s[n + i..n + j][k] {
    }
    assert |s[n..][i..j]| == |s[n + i..n + j]|;
  }

  function Shift(r: Span, n: nat): Span { Span(r.begin + n, r.end + n) }

  function ShiftAll(runs: seq<Span>, n: nat): (r: seq<Span>)
    ensures |r| == |runs| && forall k :: 0 <= k < |r| ==> r[k] == Shift(runs[k], n)
  {
    seq(|runs|, k requires 0 <= k < |runs| => Shift(runs[k], n))
  }

  lemma {:induction false} MarkedShift(v: seq<bool>, n: nat)
    requires n <= |v|
    ensures forall i :: 0 <= i ==> Marked(v[n..], i) == Marked(v, i + n)
    ensures forall i :: n <= i ==> Marked(v, i) == Marked(v[n..], i - n)
  {
  }

  /** A run of the rest is a run of the whole, when it cannot go further back. */
  lemma {:induction false} RunShift(v: seq<bool>, n: nat, r: Span)
    requires n <= |v| && (r.begin > 0 || !Marked(v, n - 1))
    ensures IsRun(v[n..], r) <==> IsRun(v, Shift(r, n))
  {
    MarkedShift(v, n);
  }

  lemma {:induction false} RunsAfter(v: seq<bool>, n: nat, later: seq<Span>)
    requires n <= |v| && AreRuns(v[n..], later)
    requires !Marked(v, n - 1) || !Marked(v, n)
    ensures var all := ShiftAll(later, n);
      && (forall k :: 0 <= k < |all| ==> IsRun(v, all[k]) && all[k].begin >= n)
      && (forall j, k :: 0 <= j < k < |all| ==> all[j].end < all[k].begin)
      && (forall r :: IsRun(v, r) && r.begin >= n ==> r in all)
  {
    var all := ShiftAll(later, n);
    MarkedShift(v, n);
    forall k | 0 <= k < |all| ensures IsRun(v, all[k]) {
      assert IsRun(v[n..], later[k]) && Marked(v[n..], later[k].begin);
      RunShift(v, n, later[k]);
    }
    forall r | IsRun(v, r) && r.begin >= n ensures r in all {
      var back := Span(r.begin - n, r.end - n);
      assert Marked(v, r.begin);
      RunShift(v, n, back);
      assert Shift(back, n) == r && back in later;
      var k :| 0 <= k < |later| && later[k] == back;
      assert all[k] == r;
    }
  }

  /** Two runs are the same or apart. */
  lemma {:induction false} RunsApart(v: seq<bool>, a: Span, b: Span)
    requires IsRun(v, a) && IsRun(v, b) && a.begin <= b.begin
    ensures a == b || a.end < b.begin
  {
    assert !(a.begin < b.begin <= a.end) || Marked(v, b.begin - 1);
    assert !(b.begin <= a.end < b.end) || Marked(v, a.end);
    assert !(a.begin <= b.end < a.end) || Marked(v, b.end);
  }

  lemma {:induction false} RunThenRuns(v: seq<bool>, n: nat, later: seq<Span>)
    requires IsRun(v, Span(0, n)) && AreRuns(v[n..], later)
    ensures AreRuns(v, [Span(0, n)] + ShiftAll(later, n))
  {
    var first, rest := Span(0, n), ShiftAll(later, n);
    RunsAfter(v, n, later);
    forall k | 0 <= k < |rest| ensures n < rest[k].begin { RunsApart(v, first, rest[k]); }
    forall r | IsRun(v, r) ensures r == first || r in rest { RunsApart(v, first, r); }
    RunBefore(v, first, rest);
  }

  lemma {:induction false} RunBefore(v: seq<bool>, first: Span, rest: seq<Span>)
    requires IsRun(v, first) && (forall k :: 0 <= k < |rest| ==> IsRun(v, rest[k]) && first.end < rest[k].begin)
    requires forall j, k :: 0 <= j < k < |rest| ==> rest[j].end < rest[k].begin
    requires forall r :: IsRun(v, r) ==> r == first || r in rest
    ensures AreRuns(v, [first] + rest)
  {
    var all := [first] + rest;
    forall r | IsRun(v, r) ensures r in all { assert r in all <==> r == first || r in rest; }
  }

  lemma {:induction false} RunsPastUnmarked(v: seq<bool>, later: seq<Span>)
    requires v != [] && !v[0] && AreRuns(v[1..], later)
    ensures AreRuns(v, ShiftAll(later, 1))
  {
    RunsAfter(v, 1, later);
    forall r | IsRun(v, r) ensures r.begin >= 1 { assert Marked(v, r.begin); }
  }

  ghost predicate InOrder(runs: seq<Span>) {
    forall j, k :: 0 <= j < k < |runs| ==> runs[j].begin < runs[k].begin
  }

  /** The first of some spans in order is the first of any others with the same elements. */
  lemma {:induction false} SameFirst(a: seq<Span>, b: seq<Span>)
    requires a != [] && InOrder(a) && InOrder(b) && forall r :: r in a <==> r in b
    ensures b != [] && a[0] == b[0]
  {
    assert a[0] in b;
    var j :| 0 <= j < |b| && b[j] == a[0];
    assert b[0] in a;
    var i :| 0 <= i < |a| && a[i] == b[0];
    assert a[0].begin <= a[i].begin && b[0].begin <= b[j].begin;
    if j > 0 { assert false; }
  }

  lemma {:induction false} SameSpans(a: seq<Span>, b: seq<Span>)
    requires InOrder(a) && InOrder(b) && forall r :: r in a <==> r in b
    ensures a == b
  {
    if b != [] { SameFirst(b, a); }
    if a != [] {
      SameFirst(a, b);
      assert a == [a[0]] + a[1..] && b == [b[0]] + b[1..];
      assert a[0] !in a[1..] && b[0] !in b[1..];
      forall r ensures r in a[1..] <==> r in b[1..] {
        assert r in a <==> r == a[0] || r in a[1..];
        assert r in b <==> r == b[0] || r in b[1..];
      }
      SameSpans(a[1..], b[1..]);
    }
  }

  /** There is one list of runs. */
  lemma {:induction false} RunsAreUnique(v: seq<bool>, a: seq<Span>, b: seq<Span>)
    requires AreRuns(v, a) && AreRuns(v, b)
    ensures a == b
  {
    forall r ensures r in a <==> IsRun(v, r) { if r in a { var k :| 0 <= k < |a| && a[k] == r; } }
    forall r ensures r in b <==> IsRun(v, r) { if r in b { var k :| 0 <= k < |b| && b[k] == r; } }
    SameSpans(a, b);
  }
}
