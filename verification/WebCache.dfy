/** The byte-budgeted, least-recently-used web cache (crates/termlm-web/src/cache.rs). */
module WebCache {
  import opened Wrappers
  import opened Utf8

  // ---------- specification: a recency list, oldest first ----------

  /** A body is the bytes of its text; times are nanoseconds. */
  datatype Item = Item(key: string, body: Bytes, createdAt: int)

  const NANOS := 1_000_000_000

  /** The most seconds a `chrono::Duration` can hold. */
  const MAX_DURATION_SECS := 9_223_372_036_854_775

  /** `secs as i64`. */
  function AsI64(secs: nat): int
    requires secs < 0x1_0000_0000_0000_0000
  {
    if secs < 0x8000_0000_0000_0000 then secs else secs - 0x1_0000_0000_0000_0000
  }

  function Total(l: seq<Item>): nat {
    if l == [] then 0 else |l[0].body| + Total(l[1..])
  }

  function Without(l: seq<Item>, key: string): seq<Item> {
    if l == [] then [] else (if l[0].key == key then [] else [l[0]]) + Without(l[1..], key)
  }

  function Find(l: seq<Item>, key: string): (r: Option<Item>)
    ensures r.Some? ==> r.value in l && r.value.key == key
    ensures r == None ==> forall x :: x in l ==> x.key != key
  {
    if l == [] then None else if l[0].key == key then Some(l[0]) else Find(l[1..], key)
  }

  /** Drop the oldest items until the rest fits. */
  function Evict(l: seq<Item>, maxBytes: nat): seq<Item> {
    if Total(l) <= maxBytes || l == [] then l else Evict(l[1..], maxBytes)
  }

  function Inserted(l: seq<Item>, maxBytes: nat, x: Item): seq<Item> {
    Evict(Without(l, x.key) + [x], maxBytes)
  }

  /** What `Duration::seconds` takes; it panics on any other number. */
  predicate IsDuration(secs: int) {
    -MAX_DURATION_SECS <= secs <= MAX_DURATION_SECS
  }

  predicate Expired(x: Item, ttl: int, now: int) {
    now - x.createdAt > ttl * NANOS
  }

  /** What a lookup comes to. */
  datatype Lookup = Hit(body: Bytes) | Miss | Panics

  function AfterGet(l: seq<Item>, ttl: int, key: string, now: int): seq<Item> {
    match Find(l, key)
    case None => l
    case Some(x) =>
      if !IsDuration(ttl) then l
      else if Expired(x, ttl, now) then Without(l, key)
      else Without(l, key) + [x]
  }

  function GetResult(l: seq<Item>, ttl: int, key: string, now: int): Lookup {
    match Find(l, key)
    case None => Miss
    case Some(x) => if !IsDuration(ttl) then Panics else if Expired(x, ttl, now) then Miss else Hit(x.body)
  }

  predicate DistinctKeys(l: seq<Item>) {
    forall i, j :: 0 <= i < j < |l| ==> l[i].key != l[j].key
  }

  // ---------- the two structures behind the list ----------

  datatype CacheEntry = CacheEntry(body: Bytes, sizeBytes: nat, createdAt: int)

  function SaturatingSub(a: nat, b: nat): nat { if a < b then 0 else a - b }

  /** `VecDeque::retain` of every key but one. */
  function Retain(order: seq<string>, key: string): seq<string> {
    if order == [] then [] else (if order[0] == key then [] else [order[0]]) + Retain(order[1..], key)
  }

  function Keys(l: seq<Item>): seq<string> {
    if l == [] then [] else [l[0].key] + Keys(l[1..])
  }

  function Table(l: seq<Item>): map<string, CacheEntry> {
    if l == [] then map[] else
      Table(l[1..])[l[0].key := CacheEntry(l[0].body, |l[0].body|, l[0].createdAt)]
  }

  lemma {:induction false} TableLookup(l: seq<Item>, key: string)
    requires DistinctKeys(l)
    ensures key in Table(l) <==> Find(l, key).Some?
    ensures key in Table(l) ==>
      var x := Find(l, key).value; Table(l)[key] == CacheEntry(x.body, |x.body|, x.createdAt)
  {
    if l != [] { TableLookup(l[1..], key); }
  }

  lemma {:induction false} HeadKeyIsNew(l: seq<Item>)
    requires DistinctKeys(l) && l != []
    ensures DistinctKeys(l[1..])
    ensures forall x :: x in l[1..] ==> x.key != l[0].key
  {
    forall x | x in l[1..] ensures x.key != l[0].key {
      var i :| 0 <= i < |l[1..]| && l[1..][i] == x;
      assert l[i + 1] == x;
    }
  }

  lemma {:induction false} WithoutMembers(l: seq<Item>, key: string)
    requires DistinctKeys(l)
    ensures DistinctKeys(Without(l, key))
    ensures forall x :: x in Without(l, key) <==> x in l && x.key != key
  {
    if l != [] {
      HeadKeyIsNew(l);
      WithoutMembers(l[1..], key);
    }
  }

  lemma {:induction false} WithoutAbsent(l: seq<Item>, key: string)
    requires forall x :: x in l ==> x.key != key
    ensures Without(l, key) == l
  {
    if l != [] { WithoutAbsent(l[1..], key); }
  }

  lemma {:induction false} WithoutInTable(l: seq<Item>, key: string)
    requires DistinctKeys(l)
    ensures Table(Without(l, key)) == Table(l) - {key}
  {
    if l != [] {
      HeadKeyIsNew(l);
      WithoutInTable(l[1..], key);
      var t := Without(l[1..], key);
      if l[0].key != key {
        assert ([l[0]] + t)[1..] == t;
      } else {
        assert [] + t == t;
      }
    }
  }

  /** Taking a key out of the list, of the order and of the table are one operation. */
  lemma {:induction false} WithoutKey(l: seq<Item>, key: string)
    requires DistinctKeys(l)
    ensures DistinctKeys(Without(l, key))
    ensures forall x :: x in Without(l, key) <==> x in l && x.key != key
    ensures Keys(Without(l, key)) == Retain(Keys(l), key)
    ensures Table(Without(l, key)) == Table(l) - {key}
    ensures Total(l) == Total(Without(l, key)) + (match Find(l, key) case Some(x) => |x.body| case None => 0)
    ensures Find(l, key) == None ==> Without(l, key) == l
  {
    WithoutMembers(l, key);
    WithoutInTable(l, key);
    if l != [] {
      HeadKeyIsNew(l);
      WithoutKey(l[1..], key);
      assert Keys(l)[1..] == Keys(l[1..]);
      var t := Without(l[1..], key);
      if l[0].key == key {
        NoneFound(l[1..], key);
        assert [] + t == t && [] + Retain(Keys(l)[1..], key) == Retain(Keys(l)[1..], key);
      } else {
        assert ([l[0]] + t)[1..] == t;
      }
    }
  }

  lemma {:induction false} NoneFound(l: seq<Item>, key: string)
    requires forall x :: x in l ==> x.key != key
    ensures Find(l, key) == None
  {
    if l != [] { NoneFound(l[1..], key); }
  }

  lemma {:induction false} Appended(l: seq<Item>, x: Item)
    requires DistinctKeys(l) && forall y :: y in l ==> y.key != x.key
    ensures DistinctKeys(l + [x])
    ensures Keys(l + [x]) == Keys(l) + [x.key]
    ensures Table(l + [x]) == Table(l)[x.key := CacheEntry(x.body, |x.body|, x.createdAt)]
    ensures Total(l + [x]) == Total(l) + |x.body|
  {
    if l == [] {
      assert l + [x] == [x];
    } else {
      assert (l + [x])[1..] == l[1..] + [x];
      Appended(l[1..], x);
    }
  }

  // ---------- the implementation ----------

  class WebCache {
    var entries: map<string, CacheEntry>
    var order: seq<string>
    const maxBytes: nat
    var totalBytes: nat
    const ttl: int
    ghost var recency: seq<Item>

    /** `order` has exactly the keys of `entries`, once each, and the running total is the sum of the sizes. */
    ghost predicate Linked()
      reads this
    {
      && DistinctKeys(recency)
      && order == Keys(recency)
      && entries == Table(recency)
      && totalBytes == Total(recency)
    }

    ghost predicate Valid()
      reads this
    {
      Linked() && totalBytes <= maxBytes
    }

    constructor (maxBytes: nat, ttlSecs: nat)
      requires ttlSecs < 0x1_0000_0000_0000_0000
      ensures Valid() && recency == [] && this.maxBytes == maxBytes && ttl == AsI64(ttlSecs)
    {
      entries, order, totalBytes := map[], [], 0;
      this.maxBytes, ttl := maxBytes, AsI64(ttlSecs);
      recency := [];
    }

    method Get(key: string, now: int) returns (r: Lookup)
      requires Valid()
      modifies this
      ensures Valid()
      ensures recency == AfterGet(old(recency), ttl, key, now)
      ensures r == GetResult(old(recency), ttl, key, now)
    {
      TableLookup(recency, key);
      if key in entries {
        var entry := entries[key];
        ghost var x := Find(recency, key).value;
        if !IsDuration(ttl) {
          return Panics;
        }
        WithoutKey(recency, key);
        if now - entry.createdAt > ttl * NANOS {
          Remove(key);
          recency := Without(recency, key);
          return Miss;
        }
        Appended(Without(recency, key), x);
        assert Table(Without(recency, key) + [x]) == Table(recency);
        Touch(key);
        recency := Without(recency, key) + [x];
        return Hit(entry.body);
      }
      return Miss;
    }

    method Insert(key: string, body: Bytes, now: int)
      requires Valid()
      modifies this
      ensures Valid()
      ensures recency == Inserted(old(recency), maxBytes, Item(key, body, now))
    {
      var size := |body|;
      TableLookup(recency, key);
      WithoutKey(recency, key);
      order := Retain(order, key);
      if key in entries {
        var old_ := entries[key];
        entries := entries - {key};
        totalBytes := SaturatingSub(totalBytes, old_.sizeBytes);
      }
      recency := Without(recency, key);
      assert Linked();

      Appended(recency, Item(key, body, now));
      entries := entries[key := CacheEntry(body, size, now)];
      order := order + [key];
      totalBytes := totalBytes + size;
      recency := recency + [Item(key, body, now)];

      ghost var all := recency;
      while totalBytes > maxBytes
        invariant Linked()
        invariant Evict(recency, maxBytes) == Evict(all, maxBytes)
        decreases |order|
      {
        if order != [] {
          var k := order[0];
          order := order[1..];
          OldestRemoved(recency);
          Remove(k);
          recency := recency[1..];
        } else {
          break;
        }
      }
    }

    method Touch(key: string)
      modifies this`order
      ensures order == Retain(old(order), key) + [key]
    {
      order := Retain(order, key);
      order := order + [key];
    }

    method Remove(key: string)
      modifies this`order, this`entries, this`totalBytes
      ensures order == Retain(old(order), key) && entries == old(entries) - {key}
      ensures totalBytes == if key in old(entries) then SaturatingSub(old(totalBytes), old(entries)[key].sizeBytes)
        else old(totalBytes)
    {
      order := Retain(order, key);
      if key in entries {
        var old_ := entries[key];
        entries := entries - {key};
        totalBytes := SaturatingSub(totalBytes, old_.sizeBytes);
      }
    }
  }

  /** What `remove` sees after `pop_front`: the key is gone from the order but still in the table. */
  lemma {:induction false} OldestRemoved(l: seq<Item>)
    requires DistinctKeys(l) && l != []
    ensures DistinctKeys(l[1..])
    ensures Keys(l)[0] == l[0].key && Keys(l)[1..] == Keys(l[1..]) == Retain(Keys(l)[1..], l[0].key)
    ensures Table(l[1..]) == Table(l) - {l[0].key}
    ensures l[0].key in Table(l) && Table(l)[l[0].key].sizeBytes == |l[0].body|
    ensures Total(l) == |l[0].body| + Total(l[1..])
  {
    var key, rest := l[0].key, l[1..];
    HeadKeyIsNew(l);
    NoneFound(rest, key);
    assert Keys(rest) == Retain(Keys(rest), key) by { WithoutKey(rest, key); }
    assert Keys(l)[1..] == Keys(rest);
    assert key !in Table(rest) by { TableLookup(rest, key); }
    assert Table(l) - {key} == Table(rest);
  }

  // ---------- what the list promises ----------

  lemma {:induction false} TotalSplit(l: seq<Item>, k: nat)
    requires k <= |l|
    ensures Total(l) == Total(l[..k]) + Total(l[k..])
  {
    if k > 0 {
      TotalSplit(l[1..], k - 1);
      assert l[..k][1..] == l[1..][..k - 1] && l[1..][k - 1..] == l[k..];
    } else {
      assert l[..k] == [] && l[k..] == l;
    }
  }

  /** Eviction keeps the longest suffix that fits: a suffix fits exactly when it is no longer than the one kept. */
  lemma {:induction false} EvictKeepsLongestFit(l: seq<Item>, maxBytes: nat)
    ensures var r := Evict(l, maxBytes);
      && |r| <= |l| && r == l[|l| - |r|..]
      && forall k :: 0 <= k <= |l| ==> (Total(l[k..]) <= maxBytes <==> |l| - k <= |r|)
  {
    var r := Evict(l, maxBytes);
    if Total(l) <= maxBytes {
      forall k | 0 <= k <= |l| ensures Total(l[k..]) <= maxBytes { TotalSplit(l, k); }
    } else {
      EvictKeepsLongestFit(l[1..], maxBytes);
      var t := l[1..];
      assert t[|t| - |r|..] == l[|l| - |r|..];
      forall k | 0 < k <= |l| ensures Total(l[k..]) <= maxBytes <==> |l| - k <= |r| {
        assert t[k - 1..] == l[k..];
      }
      assert l[0..] == l;
    }
  }

  // ---------- every run ----------

  datatype Op = Get(key: string, now: int) | Insert(key: string, body: Bytes, now: int)

  function Step(l: seq<Item>, maxBytes: nat, ttl: int, op: Op): seq<Item> {
    match op
    case Get(key, now) => AfterGet(l, ttl, key, now)
    case Insert(key, body, now) => Inserted(l, maxBytes, Item(key, body, now))
  }

  function Run(ops: seq<Op>, maxBytes: nat, ttl: int): seq<Item> {
    if ops == [] then [] else Step(Run(ops[..|ops| - 1], maxBytes, ttl), maxBytes, ttl, ops[|ops| - 1])
  }

  /** A lookup that panics is no use of its key. */
  predicate Uses(op: Op, ttl: int, key: string) {
    op.key == key && (op.Insert? || IsDuration(ttl))
  }

  /** The position of the last use of `key`, or -1. */
  function LastUse(ops: seq<Op>, ttl: int, key: string): (r: int)
    ensures -1 <= r < |ops|
    ensures r >= 0 ==> Uses(ops[r], ttl, key)
    ensures forall i :: r < i < |ops| ==> !Uses(ops[i], ttl, key)
  {
    if ops == [] then -1 else if Uses(ops[|ops| - 1], ttl, key) then |ops| - 1 else LastUse(ops[..|ops| - 1], ttl, key)
  }

  /** The last thing inserted under `key`. */
  function LastInserted(ops: seq<Op>, key: string): Option<Item> {
    if ops == [] then None else
      var op := ops[|ops| - 1];
      if op.Insert? && op.key == key then Some(Item(key, op.body, op.now)) else LastInserted(ops[..|ops| - 1], key)
  }

  ghost predicate InOrderOfUse(ops: seq<Op>, ttl: int, l: seq<Item>) {
    forall i, j :: 0 <= i < j < |l| ==> LastUse(ops, ttl, l[i].key) < LastUse(ops, ttl, l[j].key)
  }

  /** The invariant of every run, but for the budget. */
  ghost predicate Ordered(ops: seq<Op>, ttl: int, l: seq<Item>) {
    && DistinctKeys(l)
    && (forall x :: x in l ==> LastInserted(ops, x.key) == Some(x))
    && InOrderOfUse(ops, ttl, l)
  }

  /**
   * After every run: no key twice, the budget kept, each item is the last insertion under its key,
   * and the items stand in the order of their last use.
   */
  lemma {:induction false} EveryRun(ops: seq<Op>, maxBytes: nat, ttl: int)
    ensures Ordered(ops, ttl, Run(ops, maxBytes, ttl))
    ensures Total(Run(ops, maxBytes, ttl)) <= maxBytes
  {
    if ops != [] {
      var before := ops[..|ops| - 1];
      EveryRun(before, maxBytes, ttl);
      EveryStep(ops, Run(before, maxBytes, ttl), maxBytes, ttl);
    }
  }

  lemma {:induction false} EveryStep(ops: seq<Op>, l: seq<Item>, maxBytes: nat, ttl: int)
    requires ops != [] && Ordered(ops[..|ops| - 1], ttl, l) && Total(l) <= maxBytes
    ensures Ordered(ops, ttl, Step(l, maxBytes, ttl, ops[|ops| - 1]))
    ensures Total(Step(l, maxBytes, ttl, ops[|ops| - 1])) <= maxBytes
  {
    var op := ops[|ops| - 1];
    if op.Get? && !IsDuration(ttl) {
      PanicLeaves(ops, ttl, l);
      return;
    }
    OthersStay(ops, ttl, l);
    WithoutKey(l, op.key);
    if op.Insert? {
      InsertStep(ops, ttl, Without(l, op.key), maxBytes, Item(op.key, op.body, op.now));
    } else if Find(l, op.key).Some? {
      HitStep(ops, ttl, Without(l, op.key), Find(l, op.key).value);
    }
  }

  /** A lookup that panics leaves everything as it was. */
  lemma {:induction false} PanicLeaves(ops: seq<Op>, ttl: int, l: seq<Item>)
    requires ops != [] && Ordered(ops[..|ops| - 1], ttl, l) && ops[|ops| - 1].Get? && !IsDuration(ttl)
    ensures Ordered(ops, ttl, l)
  {
    var before := ops[..|ops| - 1];
    assert forall key :: LastUse(ops, ttl, key) == LastUse(before, ttl, key);
    assert forall key :: LastInserted(ops, key) == LastInserted(before, key);
  }

  lemma {:induction false} InsertStep(ops: seq<Op>, ttl: int, others: seq<Item>, maxBytes: nat, x: Item)
    requires ops != [] && ops[|ops| - 1] == Insert(x.key, x.body, x.createdAt)
    requires Ordered(ops, ttl, others) && forall y :: y in others ==> y.key != x.key
    ensures Ordered(ops, ttl, Evict(others + [x], maxBytes)) && Total(Evict(others + [x], maxBytes)) <= maxBytes
  {
    var all := others + [x];
    MovedToEnd(ops, ttl, others, x);
    var k := EvictIsSuffix(all, maxBytes);
    SuffixOrdered(ops, ttl, all, k);
  }

  lemma {:induction false} EvictIsSuffix(l: seq<Item>, maxBytes: nat) returns (k: nat)
    ensures k <= |l| && Evict(l, maxBytes) == l[k..] && Total(Evict(l, maxBytes)) <= maxBytes
  {
    EvictKeepsLongestFit(l, maxBytes);
    k := |l| - |Evict(l, maxBytes)|;
  }

  lemma {:induction false} HitStep(ops: seq<Op>, ttl: int, others: seq<Item>, x: Item)
    requires ops != [] && ops[|ops| - 1].Get? && ops[|ops| - 1].key == x.key && IsDuration(ttl)
    requires Ordered(ops, ttl, others) && forall y :: y in others ==> y.key != x.key
    requires LastInserted(ops[..|ops| - 1], x.key) == Some(x)
    ensures Ordered(ops, ttl, others + [x]) && Total(others + [x]) == Total(others) + |x.body|
  {
    MovedToEnd(ops, ttl, others, x);
    Appended(others, x);
  }

  /** An operation does not disturb the items of other keys. */
  lemma {:induction false} OthersStay(ops: seq<Op>, ttl: int, l: seq<Item>)
    requires ops != [] && Ordered(ops[..|ops| - 1], ttl, l)
    ensures Ordered(ops, ttl, Without(l, ops[|ops| - 1].key))
  {
    var before, key := ops[..|ops| - 1], ops[|ops| - 1].key;
    WithoutKey(l, key);
    WithoutOrdered(before, ttl, l, key);
    var r := Without(l, key);
    forall i, j | 0 <= i < j < |r| ensures LastUse(ops, ttl, r[i].key) < LastUse(ops, ttl, r[j].key) {
      assert r[i] in r && r[j] in r;
      assert LastUse(ops, ttl, r[i].key) == LastUse(before, ttl, r[i].key) &&
        LastUse(ops, ttl, r[j].key) == LastUse(before, ttl, r[j].key);
    }
  }

  lemma {:induction false} WithoutOrdered(ops: seq<Op>, ttl: int, l: seq<Item>, key: string)
    requires DistinctKeys(l) && InOrderOfUse(ops, ttl, l)
    ensures InOrderOfUse(ops, ttl, Without(l, key))
  {
    if l != [] {
      var rest := l[1..];
      HeadKeyIsNew(l);
      assert InOrderOfUse(ops, ttl, rest);
      WithoutOrdered(ops, ttl, rest, key);
      WithoutMembers(rest, key);
      if l[0].key != key {
        assert forall x :: x in rest ==> LastUse(ops, ttl, l[0].key) < LastUse(ops, ttl, x.key);
        UsedFirst(ops, ttl, l[0], Without(rest, key));
      } else {
        assert Without(l, key) == Without(rest, key);
      }
    }
  }

  lemma {:induction false} UsedFirst(ops: seq<Op>, ttl: int, x: Item, l: seq<Item>)
    requires InOrderOfUse(ops, ttl, l)
    requires forall y :: y in l ==> LastUse(ops, ttl, x.key) < LastUse(ops, ttl, y.key)
    ensures InOrderOfUse(ops, ttl, [x] + l)
  {
  }

  lemma {:induction false} MovedToEnd(ops: seq<Op>, ttl: int, l: seq<Item>, x: Item)
    requires ops != [] && Uses(ops[|ops| - 1], ttl, x.key)
    requires Ordered(ops, ttl, l) && forall y :: y in l ==> y.key != x.key
    requires LastInserted(ops, x.key) == Some(x)
    ensures Ordered(ops, ttl, l + [x])
  {
    Appended(l, x);
    forall i | 0 <= i < |l| ensures LastUse(ops, ttl, l[i].key) < LastUse(ops, ttl, x.key) {
      assert l[i] in l;
    }
  }

  lemma {:induction false} SuffixOrdered(ops: seq<Op>, ttl: int, l: seq<Item>, k: nat)
    requires k <= |l| && Ordered(ops, ttl, l)
    ensures Ordered(ops, ttl, l[k..])
  {
  }

  // ---------- when a lookup hits ----------

  /** The item under the key and all that were used after it. */
  function Younger(l: seq<Item>, key: string): seq<Item> {
    if l == [] || l[0].key == key then l else Younger(l[1..], key)
  }

  /** Eviction spares a key exactly when its item fits together with all that were used after it. */
  lemma {:induction false} EvictSpares(l: seq<Item>, maxBytes: nat, key: string)
    requires DistinctKeys(l) && Find(l, key).Some?
    ensures Find(Evict(l, maxBytes), key).Some? <==> Total(Younger(l, key)) <= maxBytes
  {
    YoungerIsLess(l, key);
    if Total(l) > maxBytes {
      HeadKeyIsNew(l);
      if l[0].key == key {
        EvictKeepsLongestFit(l[1..], maxBytes);
        NoneFound(Evict(l[1..], maxBytes), key);
      } else {
        EvictSpares(l[1..], maxBytes, key);
      }
    }
  }

  lemma {:induction false} YoungerIsLess(l: seq<Item>, key: string)
    ensures Total(Younger(l, key)) <= Total(l)
  {
    if l != [] { YoungerIsLess(l[1..], key); }
  }

  lemma {:induction false} FindInBoth(l: seq<Item>, x: Item, key: string)
    ensures Find(l + [x], key) == if Find(l, key).Some? then Find(l, key) else if x.key == key then Some(x) else None
    ensures Total(Younger(l + [x], key)) ==
      if Find(l, key).Some? then Total(Younger(l, key)) + |x.body| else if x.key == key then |x.body| else 0
  {
    if l == [] {
      assert [] + [x] == [x];
    } else {
      assert (l + [x])[1..] == l[1..] + [x];
      if l[0].key != key {
        FindInBoth(l[1..], x, key);
      } else {
        TotalSplit(l + [x], |l|);
        assert (l + [x])[..|l|] == l && (l + [x])[|l|..] == [x];
      }
    }
  }

  lemma {:induction false} FindWithout(l: seq<Item>, other: string, key: string)
    requires DistinctKeys(l)
    ensures Find(Without(l, other), key) == if key == other then None else Find(l, key)
  {
    WithoutMembers(l, other);
    if key == other {
      NoneFound(Without(l, other), key);
    } else if l != [] {
      HeadKeyIsNew(l);
      FindWithout(l[1..], other, key);
      var t := Without(l[1..], other);
      assert ([l[0]] + t)[1..] == t && [] + t == t;
    }
  }

  /**
   * An insertion drops a key when the new body leaves no room for it and all that were used after it;
   * a lookup drops its own key when the item has expired.
   */
  predicate Drops(l: seq<Item>, maxBytes: nat, ttl: int, op: Op, key: string) {
    match op
    case Insert(other, body, _) =>
      |body| + (if other == key then 0 else Total(Younger(Without(l, other), key))) > maxBytes
    case Get(other, now) =>
      other == key && IsDuration(ttl) && Find(l, key).Some? && Expired(Find(l, key).value, ttl, now)
  }

  predicate Inserts(op: Op, key: string) { op.Insert? && op.key == key }

  lemma {:induction false} StepKeeps(l: seq<Item>, maxBytes: nat, ttl: int, op: Op, key: string)
    requires DistinctKeys(l)
    ensures Find(Step(l, maxBytes, ttl, op), key).Some? <==>
      (Inserts(op, key) || Find(l, key).Some?) && !Drops(l, maxBytes, ttl, op, key)
  {
    FindWithout(l, op.key, key);
    if op.Insert? {
      var others, x := Without(l, op.key), Item(op.key, op.body, op.now);
      WithoutMembers(l, op.key);
      Appended(others, x);
      FindInBoth(others, x, key);
      if Find(others + [x], key).Some? {
        EvictSpares(others + [x], maxBytes, key);
      } else {
        EvictKeepsLongestFit(others + [x], maxBytes);
        NoneFound(Evict(others + [x], maxBytes), key);
      }
    } else if Find(l, op.key).Some? {
      FindInBoth(Without(l, op.key), Find(l, op.key).value, key);
    }
  }

  ghost predicate DropsAt(ops: seq<Op>, maxBytes: nat, ttl: int, j: nat, key: string)
    requires j < |ops|
  {
    Drops(Run(ops[..j], maxBytes, ttl), maxBytes, ttl, ops[j], key)
  }

  /** The key was inserted and not dropped by that operation or any since. */
  ghost predicate Kept(ops: seq<Op>, maxBytes: nat, ttl: int, key: string) {
    exists i :: 0 <= i < |ops| && Inserts(ops[i], key) &&
      forall j :: i <= j < |ops| ==> !DropsAt(ops, maxBytes, ttl, j, key)
  }

  lemma {:induction false} KeptNext(before: seq<Op>, op: Op, maxBytes: nat, ttl: int, key: string)
    ensures Kept(before + [op], maxBytes, ttl, key) <==>
      (Inserts(op, key) || Kept(before, maxBytes, ttl, key)) &&
        !Drops(Run(before, maxBytes, ttl), maxBytes, ttl, op, key)
  {
    var ops := before + [op];
    assert ops[..|before|] == before && ops[|before|] == op;
    forall j | 0 <= j < |before| ensures DropsAt(ops, maxBytes, ttl, j, key) == DropsAt(before, maxBytes, ttl, j, key) {
      assert ops[..j] == before[..j];
    }
    assert DropsAt(ops, maxBytes, ttl, |before|, key) == Drops(Run(before, maxBytes, ttl), maxBytes, ttl, op, key);
  }

  lemma {:induction false} KeptIsFound(ops: seq<Op>, maxBytes: nat, ttl: int, key: string)
    ensures Find(Run(ops, maxBytes, ttl), key).Some? <==> Kept(ops, maxBytes, ttl, key)
  {
    if ops != [] {
      var before, op := ops[..|ops| - 1], ops[|ops| - 1];
      assert ops == before + [op];
      KeptIsFound(before, maxBytes, ttl, key);
      EveryRun(before, maxBytes, ttl);
      StepKeeps(Run(before, maxBytes, ttl), maxBytes, ttl, op, key);
      KeptNext(before, op, maxBytes, ttl, key);
    }
  }

  /**
   * After any run a lookup hits exactly when the key was kept and its last insertion is fresh, and gives that body;
   * it panics exactly when the key was kept and the time to live is not a duration.
   */
  lemma {:induction false} LookupAfterRun(ops: seq<Op>, maxBytes: nat, ttl: int, key: string, now: int)
    ensures var r, last := GetResult(Run(ops, maxBytes, ttl), ttl, key, now), LastInserted(ops, key);
      && (r.Hit? <==>
            IsDuration(ttl) && Kept(ops, maxBytes, ttl, key) && last.Some? && now - last.value.createdAt <= ttl * NANOS)
      && (r.Hit? ==> r.body == last.value.body)
      && (r == Panics <==> !IsDuration(ttl) && Kept(ops, maxBytes, ttl, key))
  {
    EveryRun(ops, maxBytes, ttl);
    KeptIsFound(ops, maxBytes, ttl, key);
  }

  // ---------- the time to live ----------

  /**
   * An inserted body can be read back exactly when it fits the budget, and the time to live is a duration not yet over.
   */
  lemma {:induction false} InsertedIsReadBack(l: seq<Item>, maxBytes: nat, ttlSecs: nat, key: string, body: Bytes,
      at: int, now: int)
    requires DistinctKeys(l) && ttlSecs < 0x1_0000_0000_0000_0000
    ensures GetResult(Inserted(l, maxBytes, Item(key, body, at)), AsI64(ttlSecs), key, now) == Hit(body) <==>
      |body| <= maxBytes && IsDuration(AsI64(ttlSecs)) && now - at <= AsI64(ttlSecs) * NANOS
  {
    var x, others := Item(key, body, at), Without(l, key);
    StepKeeps(l, maxBytes, AsI64(ttlSecs), Insert(key, body, at), key);
    WithoutMembers(l, key);
    EvictKeepsLongestFit(others + [x], maxBytes);
    var r := Inserted(l, maxBytes, x);
    assert forall y :: y in r && y.key == key ==> y == x;
  }

  /** Read back at once, it is there exactly when it fits and the time to live is at most the longest duration. */
  lemma {:induction false} ReadBackAtOnce(l: seq<Item>, maxBytes: nat, ttlSecs: nat, key: string, body: Bytes, now: int)
    requires DistinctKeys(l) && ttlSecs < 0x1_0000_0000_0000_0000
    ensures GetResult(Inserted(l, maxBytes, Item(key, body, now)), AsI64(ttlSecs), key, now) == Hit(body) <==>
      |body| <= maxBytes && ttlSecs <= MAX_DURATION_SECS
  {
    InsertedIsReadBack(l, maxBytes, ttlSecs, key, body, now, now);
  }

  /** A lookup panics exactly when the key is there and the time to live, as a signed number, is not a duration. */
  lemma {:induction false} LookupPanics(l: seq<Item>, ttlSecs: nat, key: string, now: int)
    requires ttlSecs < 0x1_0000_0000_0000_0000
    ensures GetResult(l, AsI64(ttlSecs), key, now) == Panics <==>
      && (exists x :: x in l && x.key == key)
      && !(-MAX_DURATION_SECS <= AsI64(ttlSecs) <= MAX_DURATION_SECS)
  {
  }

  /** The least time to live that does so; a configuration can hold it. */
  lemma {:induction false} LeastPanickingTtl(maxBytes: nat, key: string, body: Bytes, now: int)
    requires |body| <= maxBytes
    ensures GetResult(Run([Insert(key, body, now)], maxBytes, 9_223_372_036_854_776), AsI64(9_223_372_036_854_776), key,
      now) == Panics
  {
    var ops := [Insert(key, body, now)];
    assert ops[..0] == [] && Run([], maxBytes, 9_223_372_036_854_776) == [];
    KeptNext([], ops[0], maxBytes, 9_223_372_036_854_776, key);
    assert [] + ops == ops;
    LookupAfterRun(ops, maxBytes, 9_223_372_036_854_776, key, now);
  }

  ghost predicate NoneFromTheFuture(l: seq<Item>, now: int) {
    forall x :: x in l ==> x.createdAt <= now
  }

  /** No lookup ever hits, whatever is in the cache. */
  ghost predicate CacheIsOff(ttlSecs: nat)
    requires ttlSecs < 0x1_0000_0000_0000_0000
  {
    forall l, key, now :: NoneFromTheFuture(l, now) ==> !GetResult(l, AsI64(ttlSecs), key, now).Hit?
  }

  /**
   * The cache is off exactly when the time to live is longer than the longest duration: then it panics,
   * or it wraps to a negative number under which every item is expired at once.
   */
  lemma {:induction false} LongTtlTurnsCacheOff(ttlSecs: nat)
    requires ttlSecs < 0x1_0000_0000_0000_0000
    ensures CacheIsOff(ttlSecs) <==> ttlSecs > MAX_DURATION_SECS
  {
    var x := Item("", [], 0);
    if ttlSecs <= MAX_DURATION_SECS {
      assert NoneFromTheFuture([x], 0) && GetResult([x], AsI64(ttlSecs), "", 0).Hit?;
    } else {
      forall l: seq<Item>, key: string, now: int | NoneFromTheFuture(l, now)
        ensures !GetResult(l, AsI64(ttlSecs), key, now).Hit?
      {
        assert Find(l, key).Some? ==> Find(l, key).value in l;
      }
    }
  }

  /** When it wraps to a negative duration, a lookup finds nothing and removes what it looks for. */
  lemma {:induction false} WrappedTtlExpiresAtOnce(l: seq<Item>, ttlSecs: nat, key: string, now: int)
    requires 0x1_0000_0000_0000_0000 - MAX_DURATION_SECS <= ttlSecs < 0x1_0000_0000_0000_0000
    requires DistinctKeys(l) && NoneFromTheFuture(l, now)
    ensures GetResult(l, AsI64(ttlSecs), key, now) == Miss
    ensures AfterGet(l, AsI64(ttlSecs), key, now) == Without(l, key)
  {
    WithoutKey(l, key);
    assert Find(l, key).Some? ==> Find(l, key).value in l;
  }
}
