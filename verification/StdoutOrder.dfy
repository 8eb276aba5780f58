/** The ordered-output check of the test harness (crates/termlm-test/src/main.rs). */
module StdoutOrder {
  import opened Wrappers
  import opened Text

  /** One place for each needle, in order, none overlapping, none before `from`. */
  predicate IsPlacement(stdout: string, needles: seq<string>, from: nat, at: seq<nat>) {
    && |at| == |needles|
    && (forall k :: 0 <= k < |at| ==> from <= at[k] && OccursAt(stdout, needles[k], at[k]))
    && (forall k :: 0 <= k < |at| - 1 ==> at[k] + |needles[k]| <= at[k + 1])
  }

  ghost predicate Placeable(stdout: string, needles: seq<string>, from: nat) {
    exists at :: IsPlacement(stdout, needles, from, at)
  }

  /** The greedy scan passes exactly when the needles can be placed at all. */
  method OrderHolds(stdout: string, needles: seq<string>) returns (ok: bool)
    ensures ok <==> Placeable(stdout, needles, 0)
  {
    var cursor: nat := 0;
    assert needles[0..] == needles;
    for k := 0 to |needles|
      invariant cursor <= |stdout|
      invariant Placeable(stdout, needles, 0) <==> Placeable(stdout, needles[k..], cursor)
    {
      GreedyStep(stdout, needles[k..], cursor);
      assert needles[k..][1..] == needles[k + 1..];
      var found := Find(stdout[cursor..], needles[k]);
      if found == None {
        return false;
      }
      cursor := cursor + found.value + |needles[k]|;
    }
    assert IsPlacement(stdout, needles[|needles|..], cursor, []);
    ok := true;
  }

  /** `find` in the rest of the output is the leftmost occurrence not before `from`. */
  lemma {:induction false} LeftmostFrom(stdout: string, needle: string, from: nat)
    requires from <= |stdout|
    ensures match Find(stdout[from..], needle)
      case None => forall j: nat :: from <= j ==> !OccursAt(stdout, needle, j)
      case Some(i) =>
        OccursAt(stdout, needle, from + i) && forall j: nat :: from <= j < from + i ==> !OccursAt(stdout, needle, j)
  {
    FindIsLeftmost(stdout[from..], needle);
    forall j: nat | from <= j ensures OccursAt(stdout, needle, j) <==> OccursAt(stdout[from..], needle, j - from) {
      if j + |needle| <= |stdout| {
        assert stdout[from..][j - from..j - from + |needle|] == stdout[j..j + |needle|];
      }
    }
  }

  /** Taking the leftmost occurrence of the first needle loses no placement of the others. */
  lemma {:induction false} GreedyStep(stdout: string, needles: seq<string>, from: nat)
    requires needles != [] && from <= |stdout|
    ensures match Find(stdout[from..], needles[0])
      case None => !Placeable(stdout, needles, from)
      case Some(i) =>
        && from + i + |needles[0]| <= |stdout|
        && (Placeable(stdout, needles, from) <==> Placeable(stdout, needles[1..], from + i + |needles[0]|))
  {
    var n, found := needles[0], Find(stdout[from..], needles[0]);
    LeftmostFrom(stdout, n, from);
    if found.Some? {
      var i := from + found.value;
      if Placeable(stdout, needles, from) {
        var at :| IsPlacement(stdout, needles, from, at);
        assert OccursAt(stdout, n, at[0]);
        TailPlaced(stdout, needles, from, at, i);
      }
      if Placeable(stdout, needles[1..], i + |n|) {
        var at :| IsPlacement(stdout, needles[1..], i + |n|, at);
        FirstPlaced(stdout, needles, from, at, i);
      }
    } else {
      NowherePlaced(stdout, needles, from);
    }
  }

  lemma {:induction false} NowherePlaced(stdout: string, needles: seq<string>, from: nat)
    requires needles != [] && forall j: nat :: from <= j ==> !OccursAt(stdout, needles[0], j)
    ensures !Placeable(stdout, needles, from)
  {
    forall at: seq<nat> | |at| == |needles| ensures !IsPlacement(stdout, needles, from, at) {
      assert from <= at[0] ==> !OccursAt(stdout, needles[0], at[0]);
    }
  }

  lemma {:induction false} FirstPlaced(stdout: string, needles: seq<string>, from: nat, at: seq<nat>, i: nat)
    requires needles != [] && from <= i && OccursAt(stdout, needles[0], i)
    requires IsPlacement(stdout, needles[1..], i + |needles[0]|, at)
    ensures Placeable(stdout, needles, from)
  {
    var all := [i] + at;
    forall k | 0 <= k < |all| ensures from <= all[k] && OccursAt(stdout, needles[k], all[k]) {
      if k > 0 { assert all[k] == at[k - 1] && needles[k] == needles[1..][k - 1]; }
    }
    forall k | 0 <= k < |all| - 1 ensures all[k] + |needles[k]| <= all[k + 1] {
      if k > 0 { assert at[k - 1] + |needles[1..][k - 1]| <= at[k - 1 + 1]; }
    }
    assert IsPlacement(stdout, needles, from, all);
  }

  lemma {:induction false} TailPlaced(stdout: string, needles: seq<string>, from: nat, at: seq<nat>, i: nat)
    requires needles != [] && IsPlacement(stdout, needles, from, at) && i <= at[0]
    ensures Placeable(stdout, needles[1..], i + |needles[0]|)
  {
    PlacedAfterFirst(stdout, needles, from, at, |at| - 1);
    assert IsPlacement(stdout, needles[1..], i + |needles[0]|, at[1..]);
  }

  lemma {:induction false} PlacedAfterFirst(stdout: string, needles: seq<string>, from: nat, at: seq<nat>, k: nat)
    requires needles != [] && IsPlacement(stdout, needles, from, at) && k < |at|
    ensures forall j :: 1 <= j <= k ==> at[0] + |needles[0]| <= at[j]
  {
    if k > 1 {
      PlacedAfterFirst(stdout, needles, from, at, k - 1);
      assert at[k - 1] + |needles[k - 1]| <= at[k - 1 + 1];
    }
  }
}
