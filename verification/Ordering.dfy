/** String order and the stable sort that the index, the retriever and the lookup rely on. */
module Ordering {
  /** Lexicographic order on Unicode scalar values. */
  predicate StrLeq(a: string, b: string) {
    a == [] || (b != [] && (a[0] < b[0] || (a[0] == b[0] && StrLeq(a[1..], b[1..]))))
  }

  lemma {:induction false} StrLeqTotal(a: string, b: string)
    ensures StrLeq(a, b) || StrLeq(b, a)
  {
    if a != [] && b != [] && a[0] == b[0] {
      StrLeqTotal(a[1..], b[1..]);
    }
  }

  lemma {:induction false} StrLeqAntisymmetric(a: string, b: string)
    requires StrLeq(a, b) && StrLeq(b, a)
    ensures a == b
  {
    if a != [] && b != [] {
      StrLeqAntisymmetric(a[1..], b[1..]);
    }
  }

  lemma {:induction false} StrLeqTransitive(a: string, b: string, c: string)
    requires StrLeq(a, b) && StrLeq(b, c)
    ensures StrLeq(a, c)
  {
    if a != [] && a[0] == b[0] == c[0] {
      StrLeqTransitive(a[1..], b[1..], c[1..]);
    }
  }

  // ---------- stable sorting ----------

  ghost predicate TotalPreorder<T(!new)>(leq: (T, T) -> bool) {
    && (forall x, y :: leq(x, y) || leq(y, x))
    && (forall x, y, z :: leq(x, y) && leq(y, z) ==> leq(x, z))
  }

  ghost predicate SortedBy<T>(leq: (T, T) -> bool, s: seq<T>) {
    forall i, j :: 0 <= i < j < |s| ==> leq(s[i], s[j])
  }

  function InsertBy<T>(leq: (T, T) -> bool, x: T, s: seq<T>): seq<T> {
    if s == [] || leq(x, s[0]) then [x] + s else [s[0]] + InsertBy(leq, x, s[1..])
  }

  /** Stable sort: equal elements keep the order they had in `s`. */
  function SortBy<T>(leq: (T, T) -> bool, s: seq<T>): seq<T> {
    if s == [] then [] else InsertBy(leq, s[0], SortBy(leq, s[1..]))
  }

  /** `key` first, and among elements that `key` cannot tell apart, `tie`. */
  ghost predicate Refined<T>(key: (T, T) -> bool, tie: (T, T) -> bool, x: T, y: T) {
    key(x, y) && (key(y, x) ==> tie(x, y))
  }

  ghost predicate RefinedSorted<T>(key: (T, T) -> bool, tie: (T, T) -> bool, s: seq<T>) {
    forall i, j :: 0 <= i < j < |s| ==> Refined(key, tie, s[i], s[j])
  }

  lemma {:induction false} InsertKeepsElements<T>(leq: (T, T) -> bool, x: T, s: seq<T>)
    ensures multiset(InsertBy(leq, x, s)) == multiset{x} + multiset(s)
    ensures |InsertBy(leq, x, s)| == |s| + 1
  {
    if !(s == [] || leq(x, s[0])) {
      InsertKeepsElements(leq, x, s[1..]);
      assert s == [s[0]] + s[1..];
    }
  }

  /** Sorting permutes. */
  lemma {:induction false} SortKeepsElements<T>(leq: (T, T) -> bool, s: seq<T>)
    ensures multiset(SortBy(leq, s)) == multiset(s)
    ensures |SortBy(leq, s)| == |s|
    ensures forall x :: x in SortBy(leq, s) <==> x in s
  {
    if s != [] {
      SortKeepsElements(leq, s[1..]);
      InsertKeepsElements(leq, s[0], SortBy(leq, s[1..]));
      assert s == [s[0]] + s[1..];
    }
    assert forall x :: x in SortBy(leq, s) <==> x in multiset(SortBy(leq, s));
    assert forall x :: x in s <==> x in multiset(s);
  }

  lemma {:induction false} InsertRefined<T(!new)>(key: (T, T) -> bool, tie: (T, T) -> bool, x: T, s: seq<T>)
    requires TotalPreorder(key)
    requires RefinedSorted(key, tie, s)
    requires forall y :: y in s ==> tie(x, y)
    ensures RefinedSorted(key, tie, InsertBy(key, x, s))
  {
    if s == [] {
    } else if key(x, s[0]) {
      var r := [x] + s;
      forall j | 0 < j < |r| ensures Refined(key, tie, r[0], r[j]) {
        assert r[j] == s[j - 1] && s[j - 1] in s;
        if j > 1 { assert Refined(key, tie, s[0], s[j - 1]); }
      }
    } else {
      InsertRefined(key, tie, x, s[1..]);
      var t := InsertBy(key, x, s[1..]);
      InsertKeepsElements(key, x, s[1..]);
      forall j | 0 <= j < |t| ensures Refined(key, tie, s[0], t[j]) {
        assert t[j] in multiset(t);
        if t[j] != x {
          assert t[j] in multiset(s[1..]) && t[j] in s[1..];
          var k :| 0 <= k < |s[1..]| && s[1..][k] == t[j];
          assert Refined(key, tie, s[0], s[k + 1]);
        }
      }
    }
  }

  /** A stable sort by `key` of a list already in `tie` order is ordered by `key`, then `tie`. */
  lemma {:induction false} SortRefines<T(!new)>(key: (T, T) -> bool, tie: (T, T) -> bool, s: seq<T>)
    requires TotalPreorder(key)
    requires SortedBy(tie, s)
    ensures RefinedSorted(key, tie, SortBy(key, s))
  {
    if s != [] {
      SortRefines(key, tie, s[1..]);
      SortKeepsElements(key, s[1..]);
      forall y | y in SortBy(key, s[1..]) ensures tie(s[0], y) {
        assert y in s[1..];
        var k :| 0 <= k < |s[1..]| && s[1..][k] == y;
        assert tie(s[0], s[k + 1]);
      }
      InsertRefined(key, tie, s[0], SortBy(key, s[1..]));
    }
  }

  lemma {:induction false} SortSorts<T(!new)>(key: (T, T) -> bool, s: seq<T>)
    requires TotalPreorder(key)
    ensures SortedBy(key, SortBy(key, s))
  {
    var any := (x: T, y: T) => true;
    SortRefines(key, any, s);
    var r := SortBy(key, s);
    assert forall i, j :: 0 <= i < j < |r| ==> Refined(key, any, r[i], r[j]);
  }

  lemma {:induction false} StrOrderIsTotal()
    ensures TotalPreorder(StrLeq)
  {
    forall a: string, b: string ensures StrLeq(a, b) || StrLeq(b, a) { StrLeqTotal(a, b); }
    forall a: string, b: string, c: string | StrLeq(a, b) && StrLeq(b, c) ensures StrLeq(a, c) {
      StrLeqTransitive(a, b, c);
    }
  }

  lemma {:induction false} LeastExists<T(!new)>(leq: (T, T) -> bool, s: set<T>)
    requires TotalPreorder(leq)
    requires s != {}
    ensures exists m :: m in s && forall j :: j in s ==> leq(m, j)
    decreases |s|
  {
    var x :| x in s;
    var rest := s - {x};
    if rest == {} {
      assert s == {x};
    } else {
      LeastExists(leq, rest);
      var m :| m in rest && forall j :: j in rest ==> leq(m, j);
      var least := if leq(x, m) then x else m;
      forall j | j in s ensures leq(least, j) {
        assert j == x || j in rest;
      }
    }
  }

  predicate IsLeastKey(k: string, s: set<string>) {
    k in s && forall j :: j in s ==> StrLeq(k, j)
  }

  lemma {:induction false} LeastKeyExists(s: set<string>)
    requires s != {}
    ensures exists k :: IsLeastKey(k, s)
    ensures forall a, b :: IsLeastKey(a, s) && IsLeastKey(b, s) ==> a == b
  {
    StrOrderIsTotal();
    LeastExists(StrLeq, s);
    var m :| m in s && forall j :: j in s ==> StrLeq(m, j);
    assert IsLeastKey(m, s);
    forall a, b | IsLeastKey(a, s) && IsLeastKey(b, s) ensures a == b {
      StrLeqAntisymmetric(a, b);
    }
  }

  /** The keys of an ordered map in iteration order. */
  function SortedKeys(s: set<string>): (r: seq<string>)
    ensures forall k :: k in r <==> k in s
    ensures |r| == |s|
    ensures forall i, j :: 0 <= i < j < |r| ==> r[i] != r[j] && StrLeq(r[i], r[j])
    decreases |s|
  {
    if s == {} then [] else
      LeastKeyExists(s);
      var k :| IsLeastKey(k, s);
      var rest := SortedKeys(s - {k});
      [k] + rest
  }

  predicate IsLeast(k: nat, s: set<nat>) {
    k in s && forall j :: j in s ==> k <= j
  }

  lemma {:induction false} LeastNatExists(s: set<nat>)
    requires s != {}
    ensures exists k :: IsLeast(k, s)
  {
    var leq := (a: nat, b: nat) => a <= b;
    LeastExists(leq, s);
    var m :| m in s && forall j :: j in s ==> leq(m, j);
    assert IsLeast(m, s);
  }

  /** The members of an ordered set in iteration order. */
  function Ascending(s: set<nat>): (r: seq<nat>)
    ensures forall k :: k in r <==> k in s
    ensures |r| == |s|
    ensures forall i, j :: 0 <= i < j < |r| ==> r[i] < r[j]
    decreases |s|
  {
    if s == {} then [] else
      LeastNatExists(s);
      var k :| IsLeast(k, s);
      var rest := Ascending(s - {k});
      assert forall j :: j in rest ==> k < j;
      [k] + rest
  }

  // ---------- sorting what was computed from a list ----------

  function Mapped<A, B>(f: A -> B, s: seq<A>): (r: seq<B>)
    ensures |r| == |s| && forall i :: 0 <= i < |s| ==> r[i] == f(s[i])
  {
    seq(|s|, i requires 0 <= i < |s| => f(s[i]))
  }

  lemma {:induction false} MappedSame<A>(f: A -> A, s: seq<A>)
    ensures Mapped(f, s) == s <==> forall x :: x in s ==> f(x) == x
  {
    if Mapped(f, s) == s {
      forall x | x in s ensures f(x) == x {
        var i :| 0 <= i < |s| && s[i] == x;
        assert Mapped(f, s)[i] == f(s[i]);
      }
    }
  }

  lemma {:induction false} InsertMapped<A, B>(f: A -> B, leq: (A, A) -> bool, than: (B, B) -> bool, x: A, s: seq<A>)
    requires forall a :: a in s ==> (leq(x, a) <==> than(f(x), f(a)))
    ensures InsertBy(than, f(x), Mapped(f, s)) == Mapped(f, InsertBy(leq, x, s))
  {
    if s != [] {
      assert s[0] in s && Mapped(f, s)[1..] == Mapped(f, s[1..]);
      if !leq(x, s[0]) {
        InsertMapped(f, leq, than, x, s[1..]);
        assert Mapped(f, [s[0]] + InsertBy(leq, x, s[1..])) == [f(s[0])] + Mapped(f, InsertBy(leq, x, s[1..]));
      }
    }
  }

  /** Sorting the images is taking the images of the sorted list. */
  lemma {:induction false} SortMapped<A(!new), B>(f: A -> B, leq: (A, A) -> bool, than: (B, B) -> bool, s: seq<A>)
    requires forall a, b :: leq(a, b) <==> than(f(a), f(b))
    ensures SortBy(than, Mapped(f, s)) == Mapped(f, SortBy(leq, s))
  {
    if s != [] {
      assert Mapped(f, s)[1..] == Mapped(f, s[1..]) && Mapped(f, s)[0] == f(s[0]);
      SortMapped(f, leq, than, s[1..]);
      InsertMapped(f, leq, than, s[0], SortBy(leq, s[1..]));
    }
  }
}
