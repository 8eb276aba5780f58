/** Edit distance and the suggestions built on it (crates/termlm-indexer/src/lookup.rs). */
module EditDistance {
  import opened Ordering

  function Min(a: int, b: int): int { if a <= b then a else b }

  /** Distance of the two strings by their last characters; the loop below fills in its table row by row. */
  function Dist(a: string, b: string): nat
    decreases |a| + |b|
  {
    if a == [] then |b| else if b == [] then |a| else
      var a', b' := a[..|a| - 1], b[..|b| - 1];
      var replace := Dist(a', b') + if a[|a| - 1] == b[|b| - 1] then 0 else 1;
      Min(replace, Min(Dist(a', b) + 1, Dist(a, b') + 1))
  }

  /** The one-row dynamic program: `costs` is overwritten in place, `prevDiag` keeps the overwritten corner. */
  method Levenshtein(a: string, b: string) returns (d: nat)
    ensures d == Dist(a, b)
  {
    ghost var t := DistTable(a, b);
    var costs := new nat[|b| + 1](k => k);
    for i := 0 to |a|
      invariant forall k :: 0 <= k <= |b| ==> costs[k] == t[i][k]
    {
      var prevDiag := i;
      costs[0] := i + 1;
      for j := 0 to |b|
        invariant prevDiag == t[i][j]
        invariant forall k :: 0 <= k <= j ==> costs[k] == t[i + 1][k]
        invariant forall k :: j < k <= |b| ==> costs[k] == t[i][k]
      {
        assert TableStep(a, b, t, i, j);
        var temp := costs[j + 1];
        var replaceCost := if a[i] == b[j] then prevDiag else prevDiag + 1;
        var insertCost := costs[j + 1] + 1;
        var deleteCost := costs[j] + 1;
        costs[j + 1] := Min(replaceCost, Min(insertCost, deleteCost));
        prevDiag := temp;
      }
    }
    d := costs[|b|];
  }

  ghost predicate IsTable(a: string, b: string, t: seq<seq<nat>>) {
    |t| == |a| + 1 && forall i :: 0 <= i <= |a| ==> |t[i]| == |b| + 1
  }

  predicate TableStep(a: string, b: string, t: seq<seq<nat>>, i: nat, j: nat)
    requires IsTable(a, b, t) && i < |a| && j < |b|
  {
    t[i + 1][j + 1] == Min(t[i][j] + (if a[i] == b[j] then 0 else 1), Min(t[i][j + 1] + 1, t[i + 1][j] + 1))
  }

  /** The distances between all prefixes, with the equations that relate them. */
  lemma {:induction false} DistTable(a: string, b: string) returns (t: seq<seq<nat>>)
    ensures IsTable(a, b, t)
    ensures forall i :: 0 <= i <= |a| ==> t[i][0] == i
    ensures forall j :: 0 <= j <= |b| ==> t[0][j] == j
    ensures forall i, j :: 0 <= i < |a| && 0 <= j < |b| ==> TableStep(a, b, t, i, j)
    ensures t[|a|][|b|] == Dist(a, b)
  {
    t := seq(|a| + 1, i requires 0 <= i <= |a| => seq(|b| + 1, j requires 0 <= j <= |b| => Dist(a[..i], b[..j])));
    forall i, j | 0 <= i < |a| && 0 <= j < |b| ensures TableStep(a, b, t, i, j) { DistStep(a, b, i, j); }
    assert a[..|a|] == a && b[..|b|] == b;
  }

  lemma {:induction false} DistStep(a: string, b: string, i: nat, j: nat)
    requires i < |a| && j < |b|
    ensures Dist(a[..i + 1], b[..j + 1]) ==
            Min(Dist(a[..i], b[..j]) + (if a[i] == b[j] then 0 else 1),
                Min(Dist(a[..i], b[..j + 1]) + 1, Dist(a[..i + 1], b[..j]) + 1))
  {
    assert a[..i + 1][..i] == a[..i] && b[..j + 1][..j] == b[..j];
  }

  // ---------- the metric laws ----------

  lemma {:induction false} DistZero(a: string, b: string)
    ensures Dist(a, b) == 0 <==> a == b
    decreases |a| + |b|
  {
    if a != [] && b != [] {
      var a', b' := a[..|a| - 1], b[..|b| - 1];
      DistZero(a', b');
      assert a == a' + [a[|a| - 1]] && b == b' + [b[|b| - 1]];
    }
  }

  lemma {:induction false} DistSymmetric(a: string, b: string)
    ensures Dist(a, b) == Dist(b, a)
    decreases |a| + |b|
  {
    if a != [] && b != [] {
      var a', b' := a[..|a| - 1], b[..|b| - 1];
      DistSymmetric(a', b');
      DistSymmetric(a', b);
      DistSymmetric(a, b');
    }
  }

  /** The distance to a string never falls short of, nor exceeds, what the lengths allow. */
  lemma {:induction false} DistLengths(a: string, b: string)
    ensures |a| <= |b| + Dist(a, b) && |b| <= |a| + Dist(a, b)
    ensures Dist(a, b) <= |a| + |b|
    decreases |a| + |b|
  {
    if a != [] && b != [] {
      var a', b' := a[..|a| - 1], b[..|b| - 1];
      DistLengths(a', b');
      DistLengths(a', b);
      DistLengths(a, b');
    }
  }

  lemma {:induction false} DistTriangle(a: string, b: string, c: string)
    ensures Dist(a, c) <= Dist(a, b) + Dist(b, c)
    decreases |a| + |b| + |c|
  {
    DistLengths(a, b);
    DistLengths(b, c);
    DistLengths(a, c);
    if a != [] && b != [] && c != [] {
      var a', b', c' := a[..|a| - 1], b[..|b| - 1], c[..|c| - 1];
      DistTriangle(a', b, c);
      DistTriangle(a, b, c');
      DistTriangle(a, b', c);
      DistTriangle(a', b', c);
      DistTriangle(a, b', c');
      DistTriangle(a', b', c');
    }
  }

  lemma {:induction false} DistIsAMetric(a: string, b: string, c: string)
    ensures Dist(a, b) == 0 <==> a == b
    ensures Dist(a, b) == Dist(b, a)
    ensures Dist(a, c) <= Dist(a, b) + Dist(b, c)
  {
    DistZero(a, b);
    DistSymmetric(a, b);
    DistTriangle(a, b, c);
  }

  // ---------- the distance counts edits ----------

  /** `b` comes from `a` by writing one character at `i`. */
  predicate InsertsAt(a: string, b: string, i: nat) {
    i < |b| && a == b[..i] + b[i + 1..]
  }

  /** `b` comes from `a` by changing the character at `i`. */
  predicate ReplacesAt(a: string, b: string, i: nat) {
    i < |a| && i < |b| && a[..i] == b[..i] && a[i + 1..] == b[i + 1..]
  }

  ghost predicate OneEdit(a: string, b: string) {
    exists i: nat :: InsertsAt(a, b, i) || InsertsAt(b, a, i) || ReplacesAt(a, b, i)
  }

  /** A sequence of versions from `a` to `b`, each one insertion, deletion or replacement after the other. */
  ghost predicate IsEditing(a: string, b: string, p: seq<string>) {
    && p != [] && p[0] == a && p[|p| - 1] == b
    && forall k :: 0 <= k < |p| - 1 ==> OneEdit(p[k], p[k + 1])
  }

  /** `Dist` is the least number of edits: some editing has that many, and none has fewer. */
  lemma {:induction false} DistCountsEdits(a: string, b: string)
    ensures exists p :: IsEditing(a, b, p) && |p| == Dist(a, b) + 1
    ensures forall p :: IsEditing(a, b, p) ==> Dist(a, b) + 1 <= |p|
  {
    var p := ShortestEditing(a, b);
    forall p | IsEditing(a, b, p) ensures Dist(a, b) + 1 <= |p| { NoShorterEditing(a, b, p); }
  }

  lemma {:induction false} CommonEnd(a: string, b: string, s: string)
    ensures Dist(a + s, b + s) <= Dist(a, b)
    decreases |s|
  {
    if s == [] {
      assert a + s == a && b + s == b;
    } else {
      var s' := s[..|s| - 1];
      CommonEnd(a, b, s');
      assert (a + s)[..|a + s| - 1] == a + s' && (b + s)[..|b + s| - 1] == b + s';
    }
  }

  lemma {:induction false} InsertedIsNear(a: string, b: string, i: nat)
    requires InsertsAt(a, b, i)
    ensures Dist(a, b) <= 1
  {
    var p, x, s := b[..i], [b[i]], b[i + 1..];
    assert a == p + s && b == (p + x) + s;
    CommonEnd(p, p + x, s);
    DistZero(p, p);
    assert (p + x)[..|p|] == p;
  }

  lemma {:induction false} ReplacedIsNear(a: string, b: string, i: nat)
    requires ReplacesAt(a, b, i)
    ensures Dist(a, b) <= 1
  {
    var p, x, y, s := a[..i], [a[i]], [b[i]], a[i + 1..];
    assert a == (p + x) + s && b == (p + y) + s;
    CommonEnd(p + x, p + y, s);
    DistZero(p, p);
    assert (p + x)[..|p|] == p && (p + y)[..|p|] == p;
  }

  lemma {:induction false} OneEditIsNear(a: string, b: string)
    requires OneEdit(a, b)
    ensures Dist(a, b) <= 1
  {
    var i: nat :| InsertsAt(a, b, i) || InsertsAt(b, a, i) || ReplacesAt(a, b, i);
    if ReplacesAt(a, b, i) {
      ReplacedIsNear(a, b, i);
    } else if InsertsAt(a, b, i) {
      InsertedIsNear(a, b, i);
    } else {
      InsertedIsNear(b, a, i);
      DistSymmetric(a, b);
    }
  }

  lemma {:induction false} NoShorterEditing(a: string, b: string, p: seq<string>)
    requires IsEditing(a, b, p)
    ensures Dist(a, b) + 1 <= |p|
    decreases |p|
  {
    if |p| == 1 {
      DistZero(a, b);
    } else {
      assert OneEdit(p[0], p[1]);
      OneEditIsNear(a, p[1]);
      forall k | 0 <= k < |p[1..]| - 1 ensures OneEdit(p[1..][k], p[1..][k + 1]) {
        assert OneEdit(p[k + 1], p[k + 2]);
      }
      NoShorterEditing(p[1], b, p[1..]);
      DistTriangle(a, p[1], b);
    }
  }

  /** Every version of `p` with `s` written after it. */
  function AppendAll(p: seq<string>, s: string): (r: seq<string>)
    ensures |r| == |p| && forall k :: 0 <= k < |p| ==> r[k] == p[k] + s
  {
    seq(|p|, k requires 0 <= k < |p| => p[k] + s)
  }

  lemma {:induction false} EditWithCommonEnd(a: string, b: string, s: string)
    requires OneEdit(a, b)
    ensures OneEdit(a + s, b + s)
  {
    var i: nat :| InsertsAt(a, b, i) || InsertsAt(b, a, i) || ReplacesAt(a, b, i);
    if InsertsAt(a, b, i) {
      InsertWithEnd(a, b, i, s);
    } else if InsertsAt(b, a, i) {
      InsertWithEnd(b, a, i, s);
    } else {
      AroundWithEnd(a, i, s);
      AroundWithEnd(b, i, s);
      assert ReplacesAt(a + s, b + s, i);
    }
  }

  lemma {:induction false} AroundWithEnd(a: string, i: nat, s: string)
    requires i < |a|
    ensures (a + s)[..i] == a[..i] && (a + s)[i + 1..] == a[i + 1..] + s
  {
  }

  lemma {:induction false} InsertWithEnd(a: string, b: string, i: nat, s: string)
    requires InsertsAt(a, b, i)
    ensures InsertsAt(a + s, b + s, i)
  {
    AroundWithEnd(b, i, s);
    assert a + s == b[..i] + (b[i + 1..] + s);
  }

  lemma {:induction false} EditingWithCommonEnd(a: string, b: string, p: seq<string>, s: string)
    requires IsEditing(a, b, p)
    ensures IsEditing(a + s, b + s, AppendAll(p, s))
  {
    forall k | 0 <= k < |p| - 1 ensures OneEdit(AppendAll(p, s)[k], AppendAll(p, s)[k + 1]) {
      EditWithCommonEnd(p[k], p[k + 1], s);
    }
  }

  lemma {:induction false} EditingThen(a: string, b: string, c: string, p: seq<string>)
    requires IsEditing(a, b, p) && OneEdit(b, c)
    ensures IsEditing(a, c, p + [c])
  {
    var q := p + [c];
    forall k | 0 <= k < |q| - 1 ensures OneEdit(q[k], q[k + 1]) {
      if k < |p| - 1 { assert q[k] == p[k] && q[k + 1] == p[k + 1]; }
    }
  }

  /** An editing with exactly `Dist` steps, built along the choices of the recursion. */
  lemma {:induction false} ShortestEditing(a: string, b: string) returns (p: seq<string>)
    ensures IsEditing(a, b, p) && |p| == Dist(a, b) + 1
    decreases |a| + |b|
  {
    if a == [] && b == [] {
      p := [a];
    } else if b != [] && (a == [] || Dist(a, b) == Dist(a, b[..|b| - 1]) + 1) {
      var q := ShortestEditing(a, b[..|b| - 1]);
      InsertLast(a, b, q);
      p := q + [b];
    } else if b == [] || Dist(a, b) == Dist(a[..|a| - 1], b) + 1 {
      var q := ShortestEditing(a[..|a| - 1], b);
      DeleteLast(a, b, q);
      p := AppendAll(q, [a[|a| - 1]]) + [b];
    } else {
      var q := ShortestEditing(a[..|a| - 1], b[..|b| - 1]);
      ReplaceLast(a, b, q);
      p := AppendAll(q, [a[|a| - 1]]);
      if a[|a| - 1] != b[|b| - 1] {
        p := p + [b];
      }
    }
  }

  lemma {:induction false} InsertLast(a: string, b: string, q: seq<string>)
    requires b != [] && IsEditing(a, b[..|b| - 1], q)
    ensures IsEditing(a, b, q + [b])
  {
    assert InsertsAt(b[..|b| - 1], b, |b| - 1);
    EditingThen(a, b[..|b| - 1], b, q);
  }

  lemma {:induction false} DeleteLast(a: string, b: string, q: seq<string>)
    requires a != [] && IsEditing(a[..|a| - 1], b, q)
    ensures IsEditing(a, b, AppendAll(q, [a[|a| - 1]]) + [b])
  {
    var x := [a[|a| - 1]];
    assert a == a[..|a| - 1] + x;
    EditingWithCommonEnd(a[..|a| - 1], b, q, x);
    assert InsertsAt(b, b + x, |b|);
    EditingThen(a, b + x, b, AppendAll(q, x));
  }

  lemma {:induction false} ReplaceLast(a: string, b: string, q: seq<string>)
    requires a != [] && b != [] && IsEditing(a[..|a| - 1], b[..|b| - 1], q)
    ensures var p := AppendAll(q, [a[|a| - 1]]);
      IsEditing(a, b, if a[|a| - 1] == b[|b| - 1] then p else p + [b])
  {
    var a', b', x, y := a[..|a| - 1], b[..|b| - 1], [a[|a| - 1]], [b[|b| - 1]];
    assert a == a' + x && b == b' + y;
    EditingWithCommonEnd(a', b', q, x);
    if x != y {
      assert (b' + x)[..|b'|] == b[..|b'|] && (b' + x)[|b'| + 1..] == b[|b'| + 1..];
      assert ReplacesAt(b' + x, b, |b'|);
      EditingThen(a, b' + x, b, AppendAll(q, x));
    }
  }

  // ---------- suggestions ----------

  /** `Vec::dedup`: drop an element equal to the one kept before it. */
  function DropRepeats(s: seq<string>): (r: seq<string>) {
    if |s| <= 1 then s
    else if s[0] == s[1] then DropRepeats(s[1..])
    else [s[0]] + DropRepeats(s[1..])
  }

  function Nearer(needle: string): (string, string) -> bool {
    (x: string, y: string) => Dist(x, needle) <= Dist(y, needle)
  }

  /** Sort the names, drop repeats, sort stably by distance. */
  function ByDistance(names: seq<string>, needle: string): seq<string> {
    SortBy(Nearer(needle), DropRepeats(SortBy(StrLeq, names)))
  }

  function FuzzySuggestions(names: seq<string>, needle: string, limit: nat): seq<string> {
    var near := ByDistance(names, needle);
    if limit < |near| then near[..limit] else near
  }

  lemma {:induction false} DropRepeatsOfSorted(s: seq<string>)
    requires SortedBy(StrLeq, s)
    ensures SortedBy(StrLeq, DropRepeats(s))
    ensures forall x :: x in DropRepeats(s) <==> x in s
    ensures s != [] ==> DropRepeats(s) != [] && DropRepeats(s)[0] == s[0]
    ensures NoRepeats(DropRepeats(s))
  {
    if |s| > 1 {
      DropRepeatsOfSorted(s[1..]);
      var t := DropRepeats(s[1..]);
      assert s == [s[0]] + s[1..];
      if s[0] != s[1] {
        forall j | 0 <= j < |t| ensures StrLeq(s[0], t[j]) && s[0] != t[j] {
          assert t[j] in s[1..];
          var k :| 0 <= k < |s[1..]| && s[1..][k] == t[j];
          assert StrLeq(s[0], s[k + 1]) && StrLeq(s[0], s[1]);
          if t[j] == s[0] {
            assert StrLeq(t[0], t[j]) || j == 0;
            StrLeqAntisymmetric(s[0], s[1]);
          }
        }
      } else {
        assert s[0] in s[1..];
      }
    }
  }

  /** `x` ranks before `y`: nearer to the needle, or as near and earlier by name. */
  predicate Ranks(needle: string, x: string, y: string) {
    || Dist(x, needle) < Dist(y, needle)
    || (Dist(x, needle) == Dist(y, needle) && StrLeq(x, y) && x != y)
  }

  /**
   * The suggestions are the `limit` best distinct names: no repeats, ranked by distance and then name,
   * as many as there are up to `limit`, and every name left out ranks after every name kept.
   */
  lemma {:induction false} SuggestionsAreNearest(names: seq<string>, needle: string, limit: nat)
    ensures var r := FuzzySuggestions(names, needle, limit);
      && (forall x :: x in r ==> x in names)
      && (forall i, j :: 0 <= i < j < |r| ==> Ranks(needle, r[i], r[j]))
      && (forall x, y :: x in r && y in names && y !in r ==> Ranks(needle, x, y))
      && |r| == (var distinct := |set x | x in names|; if limit < distinct then limit else distinct)
  {
    var near := ByDistance(names, needle);
    RankedNames(names, needle);
    var r := FuzzySuggestions(names, needle, limit);
    DistinctCount(near, set x | x in names);
    assert forall x :: x in r ==> x in near;
    forall x, y | x in r && y in names && y !in r ensures Ranks(needle, x, y) {
      assert y in near;
      var i :| 0 <= i < |r| && r[i] == x;
      var j :| 0 <= j < |near| && near[j] == y;
      assert near[i] == x;
    }
  }

  predicate NoRepeats(s: seq<string>) {
    forall i, j :: 0 <= i < j < |s| ==> s[i] != s[j]
  }

  lemma {:induction false} RankedNames(names: seq<string>, needle: string)
    ensures forall x :: x in ByDistance(names, needle) <==> x in names
    ensures var near := ByDistance(names, needle);
      forall i, j :: 0 <= i < j < |near| ==> Ranks(needle, near[i], near[j])
    ensures NoRepeats(ByDistance(names, needle))
  {
    var sorted := SortBy(StrLeq, names);
    assert SortedBy(StrLeq, sorted) by {
      StrOrderIsTotal();
      SortSorts(StrLeq, names);
    }
    SortKeepsElements(StrLeq, names);
    DropRepeatsOfSorted(sorted);
    var unique, key := DropRepeats(sorted), Nearer(needle);
    SortRefines(key, StrLeq, unique);
    SortKeepsElements(key, unique);
    var near := SortBy(key, unique);
    NoRepeatsKept(unique, near);
    forall i, j | 0 <= i < j < |near| ensures Ranks(needle, near[i], near[j]) {
      assert Refined(key, StrLeq, near[i], near[j]);
    }
  }

  lemma {:induction false} NoRepeatsKept(s: seq<string>, t: seq<string>)
    requires NoRepeats(s)
    requires multiset(s) == multiset(t)
    ensures NoRepeats(t)
  {
    forall i, j | 0 <= i < j < |t| ensures t[i] != t[j] {
      if t[i] == t[j] {
        assert t == t[..i] + [t[i]] + t[i + 1..j] + [t[j]] + t[j + 1..];
        assert multiset(t)[t[i]] >= 2;
        OccursOnce(s, t[i]);
      }
    }
  }

  lemma {:induction false} OccursOnce(s: seq<string>, x: string)
    requires NoRepeats(s)
    ensures multiset(s)[x] <= 1
  {
    if s != [] {
      assert s == [s[0]] + s[1..];
      OccursOnce(s[1..], x);
      if s[0] == x {
        forall k | 0 <= k < |s[1..]| ensures s[1..][k] != x { assert s[k + 1] != s[0]; }
        assert x !in multiset(s[1..]);
      }
    }
  }

  lemma {:induction false} DistinctCount(s: seq<string>, all: set<string>)
    requires NoRepeats(s)
    requires forall x :: x in s <==> x in all
    ensures |s| == |all|
    decreases |s|
  {
    if s == [] {
      assert all == {};
    } else {
      forall x ensures x in s[1..] <==> x in all - {s[0]} {
        if x in s && x != s[0] {
          var k :| 0 <= k < |s| && s[k] == x;
          assert s[1..][k - 1] == x;
        }
      }
      DistinctCount(s[1..], all - {s[0]});
    }
  }
}
