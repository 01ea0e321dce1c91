/**
 A read-only map of 32-bit keys packed into one buffer: keys are spread over 65536 shards by
 their high half; each shard keeps its items sorted by the low half, and the buffer holds the
 running item counts of the shards followed by all items. Lookups search the buffer itself.
 */
module SuccinctMap {

  import opened VmBytes

  const SHARDS: nat := 0x1_0000
  const HEADER_SIZE: nat := 8
  const SHARD_SIZE: nat := 4
  const ITEM_SIZE: nat := 6
  const ITEMS_AT: nat := HEADER_SIZE + SHARDS * SHARD_SIZE

  /** The low half of a key, and its value. */
  datatype Item = Item(key: nat, value: nat)

  predicate ItemOk(x: Item) { x.key < 0x1_0000 && x.value < 0x1_0000_0000 }

  ghost predicate Sorted(s: seq<Item>) {
    forall i, j :: 0 <= i < j < |s| ==> s[i].key <= s[j].key
  }

  ghost predicate DistinctKeys(s: seq<Item>) {
    forall i, j :: 0 <= i < j < |s| ==> s[i].key != s[j].key
  }

  ghost predicate HasKey(s: seq<Item>, k: nat) {
    exists i :: 0 <= i < |s| && s[i].key == k
  }

  // ---------- Sorting ----------

  function Insert(s: seq<Item>, x: Item): (r: seq<Item>)
    ensures |r| == |s| + 1 && forall y :: y in r <==> y in s || y == x
  {
    if s == [] || x.key < s[0].key then [x] + s else
      assert s == [s[0]] + s[1..];
      [s[0]] + Insert(s[1..], x)
  }

  /** `t` holds the items of `s` in some order that is sorted by key. */
  ghost predicate Arranged(t: seq<Item>, s: seq<Item>) { Sorted(t) && multiset(t) == multiset(s) }

  lemma {:induction false} InsertSorted(s: seq<Item>, x: Item)
    requires Sorted(s)
    ensures Sorted(Insert(s, x))
  {
    if s != [] && x.key >= s[0].key {
      InsertSorted(s[1..], x);
      var r := Insert(s[1..], x);
      forall i | 0 <= i < |r| ensures s[0].key <= r[i].key {
        assert r[i] in r;
        if r[i] != x {
          var m :| 0 <= m < |s[1..]| && s[1..][m] == r[i];
          assert s[m + 1] == r[i];
        }
      }
    }
  }

  lemma {:induction false} InsertItems(s: seq<Item>, x: Item)
    ensures multiset(Insert(s, x)) == multiset(s) + multiset{x}
  {
    if s != [] && x.key >= s[0].key {
      InsertItems(s[1..], x);
      assert s == [s[0]] + s[1..];
    }
  }

  /** Sorts by key; nothing is promised about the order of equal keys. */
  method SortItems(s: seq<Item>) returns (t: seq<Item>)
    ensures Arranged(t, s)
  {
    hide Sorted;
    t := [];
    assert Sorted(t) by { SortedEmpty(); }
    for i := 0 to |s|
      invariant Arranged(t, s[..i])
    {
      InsertSorted(t, s[i]);
      InsertItems(t, s[i]);
      assert s[..i + 1] == s[..i] + [s[i]];
      t := Insert(t, s[i]);
    }
    assert s[..|s|] == s;
  }

  // ---------- Sorted orders of the same items ----------

  function Keys(s: seq<Item>): (r: seq<nat>)
    ensures |r| == |s| && forall i :: 0 <= i < |s| ==> r[i] == s[i].key
  {
    seq(|s|, i requires 0 <= i < |s| => s[i].key)
  }

  /** Taking one item out of the middle takes its key out of the keys. */
  lemma KeysWithout(a: seq<Item>, x: Item, b: seq<Item>)
    ensures multiset(Keys(a + [x] + b)) == multiset(Keys(a + b)) + multiset{x.key}
  {
    assert Keys(a + [x] + b) == Keys(a) + [x.key] + Keys(b);
    assert Keys(a + b) == Keys(a) + Keys(b);
  }

  lemma BagWithout(a: seq<Item>, x: Item, b: seq<Item>, rest: seq<Item>)
    requires multiset(a + [x] + b) == multiset([x] + rest)
    ensures multiset(a + b) == multiset(rest)
  {
    assert multiset(a + [x] + b) == multiset(a + b) + multiset{x};
    assert multiset([x] + rest) == multiset(rest) + multiset{x};
    assert multiset(a + b) == multiset(a + [x] + b) - multiset{x};
  }

  lemma KeysFirst(x: Item, rest: seq<Item>)
    ensures multiset(Keys([x] + rest)) == multiset(Keys(rest)) + multiset{x.key}
  {
    assert [x] + rest == [] + [x] + rest && rest == [] + rest;
    KeysWithout([], x, rest);
  }

  lemma TakeOut(t: seq<Item>, x: Item) returns (a: seq<Item>, b: seq<Item>)
    requires x in t
    ensures t == a + [x] + b
  {
    var p :| 0 <= p < |t| && t[p] == x;
    a, b := t[..p], t[p + 1..];
  }

  lemma {:induction false} SameKeyBag(s: seq<Item>, t: seq<Item>)
    requires multiset(s) == multiset(t)
    ensures multiset(Keys(s)) == multiset(Keys(t))
  {
    hide Keys;
    if s == [] {
      assert |multiset(t)| == |t| == 0;
    } else {
      var x, rest := s[0], s[1..];
      assert s == [x] + rest;
      assert x in multiset(t);
      var a, b := TakeOut(t, x);
      BagWithout(a, x, b, rest);
      SameKeyBag(rest, a + b);
      KeysFirst(x, rest);
      KeysWithout(a, x, b);
    }
  }

  ghost predicate Ascending(a: seq<nat>) {
    forall i, j :: 0 <= i < j < |a| ==> a[i] <= a[j]
  }

  lemma {:induction false} SortedUnique(a: seq<nat>, b: seq<nat>)
    requires multiset(a) == multiset(b) && Ascending(a) && Ascending(b)
    ensures a == b
    decreases |a|
  {
    hide Ascending;
    SameLength(a, b);
    if a != [] {
      SmallestFirst(a, b);
      SmallestFirst(b, a);
      var s, t := a[1..], b[1..];
      BagTail(a);
      BagTail(b);
      AscendingTail(a);
      AscendingTail(b);
      SortedUnique(s, t);
      Rejoined(a, b);
    }
  }

  lemma SameLength(a: seq<nat>, b: seq<nat>)
    requires multiset(a) == multiset(b)
    ensures |a| == |b|
  {
    assert |multiset(a)| == |a| && |multiset(b)| == |b|;
  }

  lemma Rejoined(a: seq<nat>, b: seq<nat>)
    requires a != [] && b != [] && a[0] == b[0] && a[1..] == b[1..]
    ensures a == b
  {
    assert a == [a[0]] + a[1..] && b == [b[0]] + b[1..];
  }

  lemma AscendingTail(a: seq<nat>)
    requires a != [] && Ascending(a)
    ensures Ascending(a[1..])
  {
  }

  lemma BagTail(a: seq<nat>)
    requires a != []
    ensures multiset(a[1..]) == multiset(a) - multiset{a[0]}
  {
    assert a == [a[0]] + a[1..];
  }

  lemma SmallestFirst(a: seq<nat>, b: seq<nat>)
    requires multiset(a) == multiset(b) && a != [] && b != [] && Ascending(a)
    ensures a[0] <= b[0]
  {
    assert b[0] in multiset(a);
    var q :| 0 <= q < |a| && a[q] == b[0];
  }

  /** Two sorted orders of the same items have the same key at every place. */
  lemma SameSortedKeys(s: seq<Item>, t: seq<Item>, u: seq<Item>)
    requires Arranged(t, s) && Arranged(u, s)
    ensures Keys(t) == Keys(u)
  {
    SameKeyBag(t, u);
    SortedUnique(Keys(t), Keys(u));
  }

  // ---------- Thinning ----------

  /**
   What the pass over a sorted shard keeps. An item equal to the last checked one is dropped, and
   the item after it is then kept without being checked.
   */
  function Thin(prev: int, s: seq<Item>): (r: seq<Item>)
    ensures |r| <= |s|
    decreases |s|
  {
    if s == [] then []
    else if s[0].key != prev then [s[0]] + Thin(s[0].key, s[1..])
    else if |s| == 1 then []
    else [s[1]] + Thin(prev, s[2..])
  }

  /** The state of the pass: `a[..j]` is settled, `a[j..n]` is still to be seen. */
  ghost predicate Thinning(s: seq<Item>, a: seq<Item>, j: nat, n: nat, prev: int) {
    && n <= |a|
    && if j <= n then a[..j] + Thin(prev, a[j..n]) == Thin(-1, s) else j == n + 1 && a[..n] == Thin(-1, s)
  }

  function ShiftLeft(a: seq<Item>, j: nat): (r: seq<Item>)
    requires j < |a|
    ensures |r| == |a|
  {
    a[..j] + a[j + 1..] + [a[|a| - 1]]
  }

  lemma ThinDrop(s: seq<Item>, a: seq<Item>, j: nat, n: nat, prev: int)
    requires Thinning(s, a, j, n, prev) && j < n && a[j].key == prev
    ensures Thinning(s, ShiftLeft(a, j), j + 1, n - 1, prev)
  {
    var b := ShiftLeft(a, j);
    assert a[j..n][0] == a[j];
    if j + 1 < n {
      assert b[j] == a[j + 1] == a[j..n][1];
      assert a[j..n][2..] == b[j + 1..n - 1];
      assert b[..j + 1] == a[..j] + [b[j]];
    } else {
      assert b[..n - 1] == a[..j];
    }
  }

  lemma ThinKeep(s: seq<Item>, a: seq<Item>, j: nat, n: nat, prev: int)
    requires Thinning(s, a, j, n, prev) && j < n && a[j].key != prev
    ensures Thinning(s, a, j + 1, n, a[j].key)
  {
    assert a[j..n][0] == a[j] && a[j..n][1..] == a[j + 1..n];
    assert a[..j + 1] == a[..j] + [a[j]];
  }

  /** The pass over one shard, shifting the rest of the slice left for every item dropped. */
  method ThinShard(s: seq<Item>) returns (r: seq<Item>, dropped: nat)
    ensures r == Thin(-1, s) && |r| + dropped == |s|
  {
    hide Thin, ShiftLeft;
    var a, n: nat, j: nat := s, |s|, 0;
    var prev: int := -1;
    dropped := 0;
    assert a[0..n] == s;
    while j < n
      invariant Thinning(s, a, j, n, prev) && n + dropped == |s| && |a| == |s|
      decreases n - j
    {
      if prev == a[j].key {
        ThinDrop(s, a, j, n, prev);
        n := n - 1;
        dropped := dropped + 1;
        a := ShiftLeft(a, j);
      } else {
        ThinKeep(s, a, j, n, prev);
        prev := a[j].key;
      }
      j := j + 1;
    }
    assert Thin(prev, a[n..n]) == [] by { ThinNone(prev); }
    r := a[..n];
  }

  lemma ThinNone(prev: int)
    ensures Thin(prev, []) == []
  {
  }

  lemma ConsKeeps(s: seq<Item>, m: nat, t: seq<Item>)
    requires 0 < m <= |s| && Sorted(s) && Sorted(t) && forall x :: x in t ==> x in s[m..]
    ensures Sorted([s[m - 1]] + t) && forall x :: x in [s[m - 1]] + t ==> x in s
  {
    forall i | 0 <= i < |t| ensures s[m - 1].key <= t[i].key && t[i] in s {
      assert t[i] in t;
      var q :| 0 <= q < |s[m..]| && s[m..][q] == t[i];
      assert s[m + q] == t[i];
    }
    assert s[m - 1] in s;
  }

  lemma ConsKey(x: Item, t: seq<Item>, k: nat)
    ensures HasKey([x] + t, k) <==> x.key == k || HasKey(t, k)
  {
    var r := [x] + t;
    if HasKey(t, k) {
      var i :| 0 <= i < |t| && t[i].key == k;
      assert r[i + 1].key == k;
    }
    if x.key == k {
      assert r[0].key == k;
    }
    if HasKey(r, k) && x.key != k {
      var i :| 0 <= i < |r| && r[i].key == k;
      assert t[i - 1].key == k;
    }
  }

  /** The pass keeps the order, keeps no foreign item, and loses no key. */
  lemma {:induction false} ThinKeeps(prev: int, s: seq<Item>)
    requires Sorted(s)
    ensures Sorted(Thin(prev, s))
    ensures forall x :: x in Thin(prev, s) ==> x in s
    ensures forall k :: HasKey(s, k) && k != prev ==> HasKey(Thin(prev, s), k)
    decreases |s|
  {
    hide Sorted, HasKey;
    if s != [] {
      SortedTail(s);
      if s[0].key != prev {
        var t := Thin(s[0].key, s[1..]);
        ThinKeeps(s[0].key, s[1..]);
        ConsKeeps(s, 1, t);
        forall k | HasKey(s, k) && k != prev ensures HasKey([s[0]] + t, k) {
          assert s == [s[0]] + s[1..];
          ConsKey(s[0], s[1..], k);
          ConsKey(s[0], t, k);
        }
      } else if |s| > 1 {
        var t := Thin(prev, s[2..]);
        SortedTail(s[1..]);
        assert s[1..][1..] == s[2..];
        ThinKeeps(prev, s[2..]);
        ConsKeeps(s, 2, t);
        forall k | HasKey(s, k) && k != prev ensures HasKey([s[1]] + t, k) {
          assert s == [s[0]] + s[1..] && s[1..] == [s[1]] + s[2..];
          ConsKey(s[0], s[1..], k);
          ConsKey(s[1], s[2..], k);
          ConsKey(s[1], t, k);
        }
      } else {
        assert s == [s[0]] + [];
        forall k | HasKey(s, k) ensures k == prev {
          ConsKey(s[0], [], k);
          NoKey(k);
        }
      }
    } else {
      forall k ensures !HasKey(s, k) {
        NoKey(k);
      }
      assert Sorted([]) by { SortedEmpty(); }
    }
  }

  lemma NoKey(k: nat)
    ensures !HasKey([], k)
  {
  }

  lemma SortedEmpty()
    ensures Sorted([])
  {
  }

  lemma SortedOne(s: seq<Item>)
    requires |s| == 1
    ensures Sorted(s)
  {
  }

  lemma SortedTail(s: seq<Item>)
    requires Sorted(s) && s != []
    ensures Sorted(s[1..])
  {
  }

  // ---------- When thinning makes keys distinct ----------

  /** A pair of equal keys is followed at once by the same key again, or by another pair. */
  ghost predicate CrowdedAt(s: seq<Item>, i: nat) {
    && i + 2 < |s| && s[i].key == s[i + 1].key
    && (s[i + 2].key == s[i].key || (i + 3 < |s| && s[i + 2].key == s[i + 3].key))
  }

  ghost predicate Crowded(s: seq<Item>) {
    exists i: nat :: CrowdedAt(s, i)
  }

  lemma CrowdedShift(s: seq<Item>, m: nat)
    requires m <= |s|
    ensures Crowded(s[m..]) <==> exists i: nat :: i >= m && CrowdedAt(s, i)
  {
    forall i: nat ensures CrowdedAt(s[m..], i) <==> CrowdedAt(s, m + i) {
    }
    if Crowded(s[m..]) {
      var i: nat :| CrowdedAt(s[m..], i);
      assert CrowdedAt(s, m + i);
    }
    if exists i: nat :: i >= m && CrowdedAt(s, i) {
      var i: nat :| i >= m && CrowdedAt(s, i);
      assert CrowdedAt(s[m..], i - m);
    }
  }

  /** Above the last checked key, the pass starts afresh. */
  lemma {:induction false} ThinFresh(prev: int, s: seq<Item>)
    requires forall i :: 0 <= i < |s| ==> s[i].key != prev
    requires s == [] || s[0].key >= 0
    ensures Thin(prev, s) == Thin(-1, s)
  {
  }

  lemma ThinFirst(s: seq<Item>)
    requires s != []
    ensures Thin(-1, s) != [] && Thin(-1, s)[0] == s[0]
  {
  }

  lemma DistinctCons(x: Item, t: seq<Item>)
    ensures DistinctKeys([x] + t) <==> DistinctKeys(t) && !HasKey(t, x.key)
  {
    var r := [x] + t;
    if HasKey(t, x.key) {
      var i :| 0 <= i < |t| && t[i].key == x.key;
      assert r[0].key == r[i + 1].key;
    } else if DistinctKeys(r) {
      forall i, j | 0 <= i < j < |t| ensures t[i].key != t[j].key {
        assert r[i + 1] == t[i] && r[j + 1] == t[j];
      }
    }
  }

  /** A kept item is one of the later ones, so a smaller key is not among them. */
  lemma AboveKey(s: seq<Item>, m: nat, t: seq<Item>, k: nat)
    requires m <= |s| && (forall x :: x in t ==> x in s[m..]) && forall i :: m <= i < |s| ==> s[i].key != k
    ensures !HasKey(t, k)
  {
    forall i | 0 <= i < |t| ensures t[i].key != k {
      assert t[i] in t;
      var q :| 0 <= q < |s[m..]| && s[m..][q] == t[i];
      assert s[m + q] == t[i];
    }
  }

  lemma ShortFine(s: seq<Item>)
    requires |s| <= 2
    ensures !Crowded(s)
  {
  }

  /** No crowding starts among the first `m` items. */
  lemma CrowdedLater(s: seq<Item>, m: nat)
    requires m <= |s| && forall i: nat :: i < m ==> !CrowdedAt(s, i)
    ensures Crowded(s) <==> Crowded(s[m..])
  {
    CrowdedShift(s, m);
    if Crowded(s) {
      var i: nat :| CrowdedAt(s, i);
      assert i >= m;
    }
  }

  /** The result of the pass has distinct keys exactly when the shard was not crowded. */
  lemma {:induction false} ThinDistinct(s: seq<Item>)
    requires Sorted(s)
    ensures DistinctKeys(Thin(-1, s)) <==> !Crowded(s)
    decreases |s|
  {
    if |s| < 2 {
      ShortFine(s);
    } else if s[0].key != s[1].key {
      ThinSingle(s);
    } else if |s| == 2 {
      ShortFine(s);
      assert Thin(s[0].key, s[1..]) == [];
    } else {
      ThinPair(s);
    }
  }

  lemma {:induction false} ThinSingle(s: seq<Item>)
    requires Sorted(s) && |s| >= 2 && s[0].key != s[1].key
    ensures DistinctKeys(Thin(-1, s)) <==> !Crowded(s)
    decreases |s|, 0
  {
    hide Crowded, DistinctKeys, HasKey;
    var t := Thin(-1, s[1..]);
    ThinFresh(s[0].key, s[1..]);
    assert Thin(-1, s) == [s[0]] + t;
    ThinDistinct(s[1..]);
    ThinKeeps(-1, s[1..]);
    AboveKey(s, 1, t, s[0].key);
    DistinctCons(s[0], t);
    CrowdedLater(s, 1);
  }

  lemma {:induction false} ThinPair(s: seq<Item>)
    requires Sorted(s) && |s| >= 3 && s[0].key == s[1].key
    ensures DistinctKeys(Thin(-1, s)) <==> !Crowded(s)
    decreases |s|, 0
  {
    hide Crowded, DistinctKeys, HasKey;
    var k, rest := s[0].key, s[3..];
    var t := Thin(k, rest);
    PairForm(s);
    if s[2].key == k || (|s| > 3 && s[2].key == s[3].key) {
      PairCrowded(s);
    } else {
      ThinFresh(k, rest);
      ThinDistinct(rest);
      ThinKeeps(-1, rest);
      AboveKey(s, 3, t, s[2].key);
      AboveKey(s, 3, t, k);
      ConsKey(s[2], t, k);
      DistinctCons(s[2], t);
      DistinctCons(s[0], [s[2]] + t);
      CrowdedLater(s, 3);
    }
  }

  lemma PairForm(s: seq<Item>)
    requires |s| >= 3 && s[0].key == s[1].key
    ensures Thin(-1, s) == [s[0]] + ([s[2]] + Thin(s[0].key, s[3..]))
  {
    assert s[1..][2..] == s[3..] && s[1..][1] == s[2];
    assert Thin(s[0].key, s[1..]) == [s[2]] + Thin(s[0].key, s[3..]);
  }

  lemma PairCrowded(s: seq<Item>)
    requires Sorted(s) && |s| >= 3 && s[0].key == s[1].key
    requires s[2].key == s[0].key || (|s| > 3 && s[2].key == s[3].key)
    ensures Crowded(s) && !DistinctKeys(Thin(-1, s))
  {
    assert CrowdedAt(s, 0);
    PairForm(s);
    var r := Thin(-1, s);
    if s[2].key == s[0].key {
      assert r[0].key == r[1].key;
    } else {
      ThinFresh(s[0].key, s[3..]);
      ThinFirst(s[3..]);
      assert r[2] == s[3];
      assert r[1].key == r[2].key;
    }
  }

  /** Two pairs in a row: the second one survives. */
  lemma PairsSurvive()
    ensures Thin(-1, [Item(1, 10), Item(1, 11), Item(2, 20), Item(2, 21)]) == [Item(1, 10), Item(2, 20), Item(2, 21)]
  {
    var s := [Item(1, 10), Item(1, 11), Item(2, 20), Item(2, 21)];
    PairForm(s);
    assert s[3..] == [Item(2, 21)];
  }

  // ---------- Layout ----------

  function Flat(shards: seq<seq<Item>>): seq<Item> {
    if shards == [] then [] else Flat(shards[..|shards| - 1]) + shards[|shards| - 1]
  }

  /** The number of items in the first `i` shards. */
  function Total(shards: seq<seq<Item>>, i: nat): nat
    requires i <= |shards|
  {
    |Flat(shards[..i])|
  }

  lemma TotalNext(shards: seq<seq<Item>>, i: nat)
    requires i < |shards|
    ensures Flat(shards[..i + 1]) == Flat(shards[..i]) + shards[i]
    ensures Total(shards, i + 1) == Total(shards, i) + |shards[i]|
  {
    assert shards[..i + 1][..i] == shards[..i];
  }

  lemma {:induction false} FlatPrefix(shards: seq<seq<Item>>, i: nat, m: nat)
    requires i <= m <= |shards|
    ensures Flat(shards[..i]) <= Flat(shards[..m])
  {
    if i < m {
      FlatPrefix(shards, i, m - 1);
      TotalNext(shards, m - 1);
    }
  }

  /** Item `j` of shard `i` is the item at the place the counts say. */
  lemma FlatAt(shards: seq<seq<Item>>, i: nat, j: nat)
    requires i < |shards| && j < |shards[i]|
    ensures Total(shards, i) + j < |Flat(shards)| && Flat(shards)[Total(shards, i) + j] == shards[i][j]
  {
    TotalNext(shards, i);
    FlatPrefix(shards, i + 1, |shards|);
    assert shards[..|shards|] == shards;
  }

  /** Replacing a shard changes the total by the difference. */
  lemma {:induction false} FlatUpdate(shards: seq<seq<Item>>, i: nat, s: seq<Item>)
    requires i < |shards|
    ensures |Flat(shards[i := s])| + |shards[i]| == |Flat(shards)| + |s|
  {
    var n := |shards| - 1;
    if i == n {
      assert shards[i := s][..n] == shards[..n];
    } else {
      assert shards[i := s][..n] == shards[..n][i := s];
      FlatUpdate(shards[..n], i, s);
    }
  }

  function HalfBytes(x: nat): (r: seq<byte>)
    requires x < 0x1_0000
    ensures |r| == 2
  {
    [x / 0x100, x % 0x100]
  }

  function FromHalves(high: int, low: int): int { high * 0x100 + low }

  function LoadHalf(d: seq<byte>, off: nat): nat
    requires off + 2 <= |d|
  {
    FromHalves(d[off], d[off + 1])
  }

  function ItemBytes(x: Item): (r: seq<byte>)
    requires ItemOk(x)
    ensures |r| == ITEM_SIZE
  {
    HalfBytes(x.key) + WordBytes(x.value)
  }

  ghost predicate ItemAt(d: seq<byte>, u: nat, x: Item) {
    && ITEMS_AT + ITEM_SIZE * u + ITEM_SIZE <= |d|
    && LoadHalf(d, ITEMS_AT + ITEM_SIZE * u) == x.key
    && LoadWord(d, ITEMS_AT + ITEM_SIZE * u + 2) == x.value
  }

  ghost predicate CountAt(d: seq<byte>, i: nat, n: nat) {
    && HEADER_SIZE + SHARD_SIZE * i + SHARD_SIZE <= |d|
    && LoadWord(d, HEADER_SIZE + SHARD_SIZE * i) == n
  }

  /** The first `m` counts and the first `t` items are in the buffer. */
  ghost predicate Written(d: seq<byte>, shards: seq<seq<Item>>, m: nat, t: nat) {
    && m <= |shards| && t <= |Flat(shards)|
    && (forall i {:trigger CountAt(d, i, Total(shards, i + 1))} :: 0 <= i < m ==> CountAt(d, i, Total(shards, i + 1)))
    && (forall u {:trigger Flat(shards)[u]} :: 0 <= u < t ==> ItemAt(d, u, Flat(shards)[u]))
  }

  /** Version one, flags none, and 65536 shards. */
  ghost predicate Headed(d: seq<byte>) { 8 <= |d| && d[..8] == [0, 1, 0, 0, 0, 1, 0, 0] }

  lemma HeaderBytes()
    ensures HalfBytes(1) + HalfBytes(0) + WordBytes(SHARDS) == [0, 1, 0, 0, 0, 1, 0, 0]
  {
  }

  lemma HeadedKept(d: seq<byte>, off: nat, b: seq<byte>)
    requires Headed(d) && 8 <= off && off + |b| <= |d|
    ensures Headed(Blit(d, off, b))
  {
    var e := Blit(d, off, b);
    assert e[..8] == d[..8];
  }

  /**
   The places of a packed map: a word for each shard, from byte 8 on, says how many items there are up to its end;
   from byte 262152 on there are all the items, shard after shard, the low half of the key before the value.
   */
  lemma Format(d: seq<byte>, shards: seq<seq<Item>>)
    requires |shards| == 0x1_0000 && Written(d, shards, SHARDS, |Flat(shards)|)
    ensures forall i :: 0 <= i < |shards| ==> 12 + 4 * i <= |d| && LoadWord(d, 8 + 4 * i) == |Flat(shards[..i + 1])|
    ensures forall u :: 0 <= u < |Flat(shards)| ==>
              && 262158 + 6 * u <= |d| && LoadHalf(d, 262152 + 6 * u) == Flat(shards)[u].key
              && LoadWord(d, 262154 + 6 * u) == Flat(shards)[u].value
  {
    hide Flat, LoadWord, LoadHalf;
    forall i | 0 <= i < |shards|
      ensures 12 + 4 * i <= |d| && LoadWord(d, 8 + 4 * i) == |Flat(shards[..i + 1])|
    {
      assert CountAt(d, i, Total(shards, i + 1));
    }
    forall u | 0 <= u < |Flat(shards)|
      ensures && 262158 + 6 * u <= |d| && LoadHalf(d, 262152 + 6 * u) == Flat(shards)[u].key
              && LoadWord(d, 262154 + 6 * u) == Flat(shards)[u].value
    {
      assert ItemAt(d, u, Flat(shards)[u]);
    }
  }

  lemma CountKept(d: seq<byte>, e: seq<byte>, off: nat, b: seq<byte>, i: nat, n: nat)
    requires off + |b| <= |d| && e == Blit(d, off, b) && CountAt(d, i, n)
    requires HEADER_SIZE + SHARD_SIZE * i + SHARD_SIZE <= off || off + |b| <= HEADER_SIZE + SHARD_SIZE * i
    ensures CountAt(e, i, n)
  {
    hide FromBytes, Blit;
    var at := HEADER_SIZE + SHARD_SIZE * i;
    assert e[at] == d[at] && e[at + 1] == d[at + 1] && e[at + 2] == d[at + 2] && e[at + 3] == d[at + 3];
  }

  lemma ItemKept(d: seq<byte>, e: seq<byte>, off: nat, b: seq<byte>, u: nat, x: Item)
    requires off + |b| <= |d| && e == Blit(d, off, b) && ItemAt(d, u, x)
    requires ITEMS_AT + ITEM_SIZE * u + ITEM_SIZE <= off || off + |b| <= ITEMS_AT + ITEM_SIZE * u
    ensures ItemAt(e, u, x)
  {
    hide FromBytes, Blit;
    var at := ITEMS_AT + ITEM_SIZE * u;
    assert e[at] == d[at] && e[at + 1] == d[at + 1] && e[at + 2] == d[at + 2];
    assert e[at + 3] == d[at + 3] && e[at + 4] == d[at + 4] && e[at + 5] == d[at + 5];
  }

  lemma CountWritten(d: seq<byte>, i: nat, n: nat)
    requires HEADER_SIZE + SHARD_SIZE * i + SHARD_SIZE <= |d| && n < 0x1_0000_0000
    ensures CountAt(Blit(d, HEADER_SIZE + SHARD_SIZE * i, WordBytes(n)), i, n)
  {
    LoadStored(d, HEADER_SIZE + SHARD_SIZE * i, n);
  }

  lemma ItemWritten(d: seq<byte>, u: nat, x: Item)
    requires ITEMS_AT + ITEM_SIZE * u + ITEM_SIZE <= |d| && ItemOk(x)
    ensures ItemAt(Blit(d, ITEMS_AT + ITEM_SIZE * u, ItemBytes(x)), u, x)
  {
    hide WordBytes, FromBytes;
    var at := ITEMS_AT + ITEM_SIZE * u;
    var b := ItemBytes(x);
    var e := Blit(d, at, b);
    assert e[at] == b[0] && e[at + 1] == b[1];
    assert e[at + 2] == b[2] && e[at + 3] == b[3] && e[at + 4] == b[4] && e[at + 5] == b[5];
    var w := WordBytes(x.value);
    assert b[2] == w[0] && b[3] == w[1] && b[4] == w[2] && b[5] == w[3];
    WordBytesValue(x.value);
    Halves(x.key);
  }

  lemma Halves(x: nat)
    ensures x / 0x100 * 0x100 + x % 0x100 == x
  {
  }

  lemma WriteCount(d: seq<byte>, shards: seq<seq<Item>>, i: nat, t: nat)
    requires Written(d, shards, i, t) && i < |shards| <= SHARDS && ITEMS_AT + ITEM_SIZE * |Flat(shards)| <= |d|
    requires Total(shards, i + 1) < 0x1_0000_0000
    ensures Written(Blit(d, HEADER_SIZE + SHARD_SIZE * i, WordBytes(Total(shards, i + 1))), shards, i + 1, t)
  {
    hide Blit, WordBytes, Flat, Total, ItemAt, CountAt;
    var off, b := HEADER_SIZE + SHARD_SIZE * i, WordBytes(Total(shards, i + 1));
    var e := Blit(d, off, b);
    CountWritten(d, i, Total(shards, i + 1));
    forall q {:trigger CountAt(e, q, Total(shards, q + 1))} | 0 <= q < i ensures CountAt(e, q, Total(shards, q + 1)) {
      CountKept(d, e, off, b, q, Total(shards, q + 1));
    }
    forall u | 0 <= u < t ensures ItemAt(e, u, Flat(shards)[u]) {
      ItemKept(d, e, off, b, u, Flat(shards)[u]);
    }
  }

  lemma WriteItem(d: seq<byte>, shards: seq<seq<Item>>, m: nat, t: nat)
    requires Written(d, shards, m, t) && m <= SHARDS && t < |Flat(shards)| && ItemOk(Flat(shards)[t])
    requires ITEMS_AT + ITEM_SIZE * |Flat(shards)| <= |d|
    ensures Written(Blit(d, ITEMS_AT + ITEM_SIZE * t, ItemBytes(Flat(shards)[t])), shards, m, t + 1)
  {
    hide Blit, ItemBytes, Flat, Total, ItemAt, CountAt, ItemOk;
    var x := Flat(shards)[t];
    var off, b := ITEMS_AT + ITEM_SIZE * t, ItemBytes(x);
    var e := Blit(d, off, b);
    ItemWritten(d, t, x);
    forall q {:trigger CountAt(e, q, Total(shards, q + 1))} | 0 <= q < m ensures CountAt(e, q, Total(shards, q + 1)) {
      CountKept(d, e, off, b, q, Total(shards, q + 1));
    }
    forall u | 0 <= u < t ensures ItemAt(e, u, Flat(shards)[u]) {
      ItemKept(d, e, off, b, u, Flat(shards)[u]);
    }
  }

  // ---------- Searching the buffer ----------

  /** Where the halving search over `items[i..j]` ends. */
  function Search(items: seq<Item>, key: nat, i: nat, j: nat): (r: nat)
    requires i <= j <= |items|
    ensures i <= r <= j
    decreases j - i
  {
    if i == j then i else
      var h := (i + j) / 2;
      if items[h].key < key then Search(items, key, h + 1, j) else Search(items, key, i, h)
  }

  /** The search finds the key. */
  predicate Hits(items: seq<Item>, key: nat) {
    var i := Search(items, key, 0, |items|);
    i < |items| && items[i].key == key
  }

  lemma {:induction false} SearchSorted(items: seq<Item>, key: nat, i: nat, j: nat)
    requires Sorted(items) && i <= j <= |items|
    requires forall q :: 0 <= q < i ==> items[q].key < key
    requires forall q :: j <= q < |items| ==> items[q].key >= key
    ensures var r := Search(items, key, i, j);
            (forall q :: 0 <= q < r ==> items[q].key < key) && forall q :: r <= q < |items| ==> items[q].key >= key
    decreases j - i
  {
    if i < j {
      var h := (i + j) / 2;
      Halved(items, key, i, j);
      hide Search;
      if items[h].key < key {
        SearchSorted(items, key, h + 1, j);
      } else {
        SearchSorted(items, key, i, h);
      }
    }
  }

  /** In a sorted shard the search finds exactly the keys that are there. */
  lemma SortedHits(items: seq<Item>, key: nat)
    requires Sorted(items)
    ensures Hits(items, key) <==> HasKey(items, key)
  {
    SearchSorted(items, key, 0, |items|);
  }

  /** Every key that is there is found. */
  ghost predicate FindsAll(items: seq<Item>) {
    forall k: nat :: HasKey(items, k) ==> Hits(items, k)
  }

  /** If each item of a window is found where it is, the window ascends: left of the middle is below it, right above. */
  lemma {:induction false} FoundAscends(items: seq<Item>, i: nat, j: nat)
    requires i <= j <= |items| && DistinctKeys(items)
    requires forall q :: i <= q < j ==> Search(items, items[q].key, i, j) == q
    ensures forall p, q :: i <= p < q < j ==> items[p].key < items[q].key
    decreases j - i
  {
    hide Search;
    if i < j {
      var h := (i + j) / 2;
      forall q | i <= q < h ensures items[q].key < items[h].key && Search(items, items[q].key, i, h) == q {
        Halved(items, items[q].key, i, j);
      }
      forall q | h < q < j ensures items[h].key < items[q].key && Search(items, items[q].key, h + 1, j) == q {
        Halved(items, items[q].key, i, j);
      }
      FoundAscends(items, i, h);
      FoundAscends(items, h + 1, j);
    }
  }

  /** With distinct keys, the search finds every key that is there exactly when the shard is sorted. */
  lemma FindsAllSorted(items: seq<Item>)
    requires DistinctKeys(items)
    ensures FindsAll(items) <==> Sorted(items)
  {
    if Sorted(items) {
      forall k: nat | HasKey(items, k) ensures Hits(items, k) {
        SortedHits(items, k);
      }
    }
    if FindsAll(items) {
      hide Search;
      forall q | 0 <= q < |items| ensures Search(items, items[q].key, 0, |items|) == q {
        assert HasKey(items, items[q].key);
        assert Hits(items, items[q].key);
      }
      FoundAscends(items, 0, |items|);
    }
  }

  lemma Halved(items: seq<Item>, key: nat, i: nat, j: nat)
    requires i < j <= |items|
    ensures var h := (i + j) / 2;
            i <= h < j && Search(items, key, i, j) ==
                          if items[h].key < key then Search(items, key, h + 1, j) else Search(items, key, i, h)
  {
  }

  lemma SearchEnds(items: seq<Item>, key: nat, i: nat)
    requires i <= |items|
    ensures Search(items, key, i, i) == i
  {
  }

  method FindItem(key: nat, d: array<byte>, at: nat, n: nat, ghost items: seq<Item>) returns (ok: bool, idx: nat)
    requires n == |items|
    requires forall j {:trigger items[j]} :: 0 <= j < n ==> ItemAt(d[..], at + j, items[j])
    ensures ok <==> Hits(items, key)
    ensures ok ==> idx < n && items[idx].key == key
  {
    hide ItemAt, LoadHalf, Search;
    var i, j := 0, n;
    while i < j
      invariant 0 <= i <= j <= n && Search(items, key, i, j) == Search(items, key, 0, n)
    {
      var h := (i + j) / 2;
      Halved(items, key, i, j);
      KeyAt(d[..], at + h, items[h]);
      if LoadHalf(d[..], ITEMS_AT + ITEM_SIZE * (at + h)) < key {
        i := h + 1;
      } else {
        j := h;
      }
    }
    SearchEnds(items, key, i);
    ok, idx := false, 0;
    if i < n {
      KeyAt(d[..], at + i, items[i]);
      if LoadHalf(d[..], ITEMS_AT + ITEM_SIZE * (at + i)) == key {
        ok, idx := true, i;
      }
    }
  }

  lemma KeyAt(d: seq<byte>, u: nat, x: Item)
    requires ItemAt(d, u, x)
    ensures ITEMS_AT + ITEM_SIZE * u + ITEM_SIZE <= |d|
    ensures LoadHalf(d, ITEMS_AT + ITEM_SIZE * u) == x.key && LoadWord(d, ITEMS_AT + ITEM_SIZE * u + 2) == x.value
  {
  }

  lemma CountIs(d: seq<byte>, shards: seq<seq<Item>>, m: nat, t: nat, i: nat)
    requires Written(d, shards, m, t) && i < m
    ensures HEADER_SIZE + SHARD_SIZE * i + SHARD_SIZE <= |d|
    ensures LoadWord(d, HEADER_SIZE + SHARD_SIZE * i) == Total(shards, i + 1)
  {
    assert CountAt(d, i, Total(shards, i + 1));
  }

  lemma ShardItems(d: seq<byte>, shards: seq<seq<Item>>, i: nat)
    requires i < |shards| && Written(d, shards, |shards|, |Flat(shards)|)
    ensures forall j {:trigger shards[i][j]} :: 0 <= j < |shards[i]| ==> ItemAt(d, Total(shards, i) + j, shards[i][j])
  {
    hide ItemAt;
    forall j {:trigger shards[i][j]} | 0 <= j < |shards[i]| ensures ItemAt(d, Total(shards, i) + j, shards[i][j]) {
      FlatAt(shards, i, j);
      var u := Total(shards, i) + j;
      assert Flat(shards)[u] == shards[i][j];
    }
  }

  function High(key: nat): nat { key / 0x1_0000 }

  function Low(key: nat): nat { key % 0x1_0000 }

  function Whole(high: nat, low: nat): nat { high * 0x1_0000 + low }

  /** Looks a key up in a packed buffer. */
  method Get(d: array<byte>, key: nat, ghost shards: seq<seq<Item>>) returns (found: bool, value: nat)
    requires key < SHARDS * 0x1_0000 && |shards| == SHARDS
    requires Written(d[..], shards, SHARDS, |Flat(shards)|) && High(key) < SHARDS
    ensures found <==> Hits(shards[High(key)], Low(key))
    ensures found ==> Item(Low(key), value) in shards[High(key)]
  {
    hide Written, Total, Flat, ItemAt, LoadWord, High, Low, Hits;
    Split(key);
    var hid, lid := High(key), Low(key);
    found, value := false, 0;
    ghost var items := shards[hid];
    TotalNext(shards, hid);
    var origin := 0;
    if hid > 0 {
      CountIs(d[..], shards, SHARDS, |Flat(shards)|, hid - 1);
      origin := LoadWord(d[..], HEADER_SIZE + SHARD_SIZE * (hid - 1));
    } else {
      TotalNone(shards);
    }
    assert origin == Total(shards, hid);
    CountIs(d[..], shards, SHARDS, |Flat(shards)|, hid);
    var dest := LoadWord(d[..], HEADER_SIZE + SHARD_SIZE * hid);
    assert dest == origin + |items|;
    if dest <= origin {
      assert items == [];
      NoHit(lid);
      return;
    }
    ShardItems(d[..], shards, hid);
    var ok, idx := FindItem(lid, d, origin, dest - origin, items);
    if ok {
      KeyAt(d[..], origin + idx, items[idx]);
      value := LoadWord(d[..], ITEMS_AT + ITEM_SIZE * (origin + idx) + 2);
      assert items[idx] == Item(lid, value);
      found := true;
    }
  }

  lemma NoHit(key: nat)
    ensures !Hits([], key)
  {
  }

  lemma TotalNone(shards: seq<seq<Item>>)
    ensures Total(shards, 0) == 0
  {
  }

  // ---------- The map under construction ----------

  ghost predicate ShardOk(s: seq<Item>, i: nat, added: set<(nat, nat)>) {
    forall x :: x in s ==> ItemOk(x) && (Whole(i, x.key), x.value) in added
  }

  ghost predicate KeyKept(shards: seq<seq<Item>>, e: (nat, nat)) {
    |shards| == SHARDS && High(e.0) < SHARDS && HasKey(shards[High(e.0)], Low(e.0))
  }

  ghost predicate ShardsOk(shards: seq<seq<Item>>, added: set<(nat, nat)>) {
    && |shards| == SHARDS
    && (forall i {:trigger shards[i]} :: 0 <= i < SHARDS ==> ShardOk(shards[i], i, added))
    && (forall e :: e in added ==> KeyKept(shards, e))
  }

  ghost predicate AllSorted(shards: seq<seq<Item>>) {
    forall i {:trigger shards[i]} :: 0 <= i < |shards| ==> Sorted(shards[i])
  }

  lemma AddOk(shards: seq<seq<Item>>, added: set<(nat, nat)>, key: nat, value: nat)
    requires ShardsOk(shards, added) && key < SHARDS * 0x1_0000 && value < 0x1_0000_0000
    ensures var hid := High(key);
            ShardsOk(shards[hid := shards[hid] + [Item(Low(key), value)]], added + {(key, value)})
  {
    hide High, Low, Whole, HasKey;
    Split(key);
    var hid, x := High(key), Item(Low(key), value);
    var next, more := shards[hid := shards[hid] + [x]], added + {(key, value)};
    forall i | 0 <= i < SHARDS ensures ShardOk(next[i], i, more) {
      assert ShardOk(shards[i], i, added);
    }
    forall e | e in more ensures KeyKept(next, e) {
      if e in added {
        assert KeyKept(shards, e);
        Appended(shards[hid], x, Low(e.0));
      } else {
        Appended(shards[hid], x, x.key);
      }
    }
  }

  lemma Split(key: nat)
    ensures Whole(High(key), Low(key)) == key && Low(key) < 0x1_0000
    ensures key < SHARDS * 0x1_0000 ==> High(key) < SHARDS
  {
  }

  lemma Appended(s: seq<Item>, x: Item, k: nat)
    ensures HasKey(s + [x], k) <==> HasKey(s, k) || x.key == k
  {
    var r := s + [x];
    if HasKey(s, k) {
      var i :| 0 <= i < |s| && s[i].key == k;
      assert r[i].key == k;
    }
    if x.key == k {
      assert r[|s|].key == k;
    }
  }

  /** Replacing a shard by some of its items, with no key lost, keeps the books right. */
  lemma ReplaceOk(shards: seq<seq<Item>>, added: set<(nat, nat)>, i: nat, s: seq<Item>)
    requires ShardsOk(shards, added) && i < SHARDS
    requires (forall x :: x in s ==> x in shards[i]) && forall k :: HasKey(shards[i], k) ==> HasKey(s, k)
    ensures ShardsOk(shards[i := s], added)
  {
    hide HasKey;
    var next := shards[i := s];
    forall q | 0 <= q < SHARDS ensures ShardOk(next[q], q, added) {
      assert ShardOk(shards[q], q, added);
    }
    forall e | e in added ensures KeyKept(next, e) {
      assert KeyKept(shards, e);
    }
  }

  /** `r` is what is left of a shard after sorting it in some way and thinning it. */
  ghost predicate Tidied(s: seq<Item>, r: seq<Item>) {
    exists t :: Arranged(t, s) && r == Thin(-1, t)
  }

  /** Crowding is a matter of the keys alone, so it does not depend on how equal keys were ordered. */
  lemma SameCrowding(s: seq<Item>, t: seq<Item>, u: seq<Item>)
    requires Arranged(t, s) && Arranged(u, s)
    ensures Crowded(t) <==> Crowded(u)
  {
    hide Crowded, Keys;
    SameSortedKeys(s, t, u);
    if Crowded(t) {
      CrowdedByKeys(t, u);
    }
    if Crowded(u) {
      CrowdedByKeys(u, t);
    }
  }

  lemma CrowdedByKeys(t: seq<Item>, u: seq<Item>)
    requires Keys(t) == Keys(u) && Crowded(t)
    ensures Crowded(u)
  {
    var i: nat :| CrowdedAt(t, i);
    assert forall k :: 0 <= k < |t| ==> Keys(t)[k] == t[k].key == u[k].key;
    assert CrowdedAt(u, i);
  }

  lemma ArrangedItems(t: seq<Item>, s: seq<Item>)
    requires multiset(t) == multiset(s)
    ensures |t| == |s| && (forall x :: x in t <==> x in s) && forall k :: HasKey(s, k) ==> HasKey(t, k)
  {
    assert |multiset(t)| == |t| && |multiset(s)| == |s|;
    forall x ensures x in t <==> x in s {
      assert x in multiset(t) <==> x in multiset(s);
    }
    forall k | HasKey(s, k) ensures HasKey(t, k) {
      var i :| 0 <= i < |s| && s[i].key == k;
      assert s[i] in t;
    }
  }

  /** Tidying sorts, invents nothing, loses no key, and leaves no key twice exactly when the keys were not crowded. */
  lemma TidyOk(s: seq<Item>, r: seq<Item>, u: seq<Item>)
    requires Tidied(s, r) && Arranged(u, s)
    ensures Sorted(r) && (forall x :: x in r ==> x in s)
    ensures forall k :: HasKey(s, k) ==> HasKey(r, k)
    ensures DistinctKeys(r) <==> !Crowded(u)
    ensures |s| <= 1 ==> r == s
  {
    hide Thin, Crowded, DistinctKeys, Sorted;
    var t :| Arranged(t, s) && r == Thin(-1, t);
    ArrangedItems(t, s);
    ThinKeeps(-1, t);
    ThinDistinct(t);
    SameCrowding(s, t, u);
    if |s| <= 1 {
      TidyShort(s, t);
    }
  }

  lemma TidyShort(s: seq<Item>, t: seq<Item>)
    requires |s| <= 1 && multiset(t) == multiset(s)
    ensures Thin(-1, t) == s
  {
    ArrangedItems(t, s);
    if |s| == 1 {
      assert t[0] in t;
      assert t == [t[0]] && t[1..] == [];
    }
  }

  lemma ShortTidied(s: seq<Item>)
    requires |s| <= 1
    ensures Tidied(s, s)
  {
    TidyShort(s, s);
    assert Arranged(s, s);
  }

  class FastMap {
    var shards: seq<seq<Item>>
    var size: nat
    var length: nat
    var uniq: bool
    // Everything ever added.
    ghost var added: set<(nat, nat)>

    ghost predicate Valid()
      reads this
    {
      && |shards| == SHARDS && ShardsOk(shards, added)
      && length == |Flat(shards)| && size == ITEMS_AT + ITEM_SIZE * length
    }

    constructor ()
      ensures Valid() && added == {} && !uniq && size == 262152 && |shards| == 65536
      ensures forall i :: 0 <= i < |shards| ==> shards[i] == []
    {
      shards := seq(SHARDS, _ => []);
      size, length, uniq, added := ITEMS_AT, 0, false, {};
      new;
      NoItems(shards);
    }

    /** Adds an item. The map is sorted only once, so a late item can leave its shard out of order. */
    method Add(key: nat, value: nat)
      requires Valid() && key < SHARDS * 0x1_0000 && value < 0x1_0000_0000
      modifies this
      ensures Valid() && added == old(added) + {(key, value)} && uniq == old(uniq) && size == old(size) + ITEM_SIZE
      ensures var hid := High(key);
              && shards == old(shards)[hid := old(shards)[hid] + [Item(Low(key), value)]]
              && (AllSorted(old(shards)) ==>
                    (AllSorted(shards) <==> forall x :: x in old(shards)[hid] ==> x.key <= Low(key)))
    {
      hide ShardsOk, Flat;
      Split(key);
      var hid, x := High(key), Item(Low(key), value);
      AddOk(shards, added, key, value);
      assert |shards| == SHARDS by { ShardCount(shards, added); }
      FlatUpdate(shards, hid, shards[hid] + [x]);
      SortedAppend(shards, hid, x);
      shards := shards[hid := shards[hid] + [x]];
      added := added + {(key, value)};
      size := size + ITEM_SIZE;
      length := length + 1;
    }

    /** Sorts every shard and thins it out, once. */
    method Unique()
      requires Valid()
      modifies this
      ensures Valid() && uniq && added == old(added)
      ensures |shards| == |old(shards)| && size <= old(size)
      ensures if old(uniq) then shards == old(shards)
              else forall i {:trigger shards[i]} :: 0 <= i < |shards| ==> Tidied(old(shards)[i], shards[i])
    {
      hide ShardsOk, Flat, Tidied, Thin, Sorted, Crowded;
      if uniq {
        return;
      }
      assert |shards| == SHARDS by { ShardCount(shards, added); }
      for i := 0 to SHARDS
        invariant Valid() && added == old(added) && |shards| == |old(shards)| == SHARDS && size <= old(size)
        invariant forall q {:trigger shards[q]} :: 0 <= q < i ==> Tidied(old(shards)[q], shards[q])
        invariant forall q {:trigger shards[q]} :: i <= q < SHARDS ==> shards[q] == old(shards)[q]
      {
        ghost var s := shards[i];
        assert s == old(shards)[i];
        if |shards[i]| > 1 {
          var t := SortItems(shards[i]);
          var r, dropped := ThinShard(t);
          assert Tidied(s, r) by { TidiedBy(s, t); }
          TidyOk(s, r, t);
          ArrangedItems(t, s);
          ReplaceOk(shards, added, i, r);
          FlatUpdate(shards, i, r);
          shards := shards[i := r];
          length := length - dropped;
          size := size - ITEM_SIZE * dropped;
        } else {
          ShortTidied(s);
        }
      }
      uniq := true;
    }

    /**
     Packs the map into the buffer it was given, or into a new one of the size left after thinning. The code
     panics exactly when a given buffer is shorter than that; what it then holds is left open.
     */
    method Serialize(given: array?<byte>) returns (ok: bool, panicked: bool, d: array?<byte>)
      requires Valid() && size < 0x1_0000_0000
      modifies this, given
      ensures Valid() && uniq && added == old(added)
      ensures if old(uniq) then shards == old(shards) else AllSorted(shards)
      ensures panicked <==> added != {} && given != null && given.Length < size
      ensures ok <==> added != {} && !panicked
      ensures if given == null then d == null || (fresh(d) && d.Length == size) else d == given
      ensures ok ==> d != null && Headed(d[..]) && Written(d[..], shards, SHARDS, |Flat(shards)|)
    {
      hide ShardsOk, Flat, Tidied, Written, Headed, Sorted;
      Unique();
      ghost var shards0 := old(shards);
      if !old(uniq) {
        assert AllSorted(shards) by { AllTidy(shards0, shards); }
      }
      SomeItems(shards, added);
      ok, panicked, d := false, false, given;
      if length == 0 {
        return;
      }
      if d == null {
        d := new byte[size];
      }
      if d.Length < size {
        panicked := true;
        return;
      }
      Pack(d);
      ok := true;
    }

    method PackHeader(d: array<byte>)
      requires d.Length >= HEADER_SIZE
      modifies d
      ensures Headed(d[..])
    {
      HeaderBytes();
      CopyBytes(d, 0, HalfBytes(1) + HalfBytes(0) + WordBytes(SHARDS));
    }

    method Pack(d: array<byte>)
      requires Valid() && d.Length >= size && size < 0x1_0000_0000
      modifies d
      ensures Headed(d[..]) && Written(d[..], shards, SHARDS, |Flat(shards)|)
    {
      hide ShardsOk, Flat, Written, Headed, Total, Blit, WordBytes, HalfBytes;
      PackHeader(d);
      ShardCount(shards, added);
      NothingWritten(d[..], shards);
      TotalNone(shards);
      var count: nat := 0;
      for i := 0 to SHARDS
        invariant Headed(d[..]) && Written(d[..], shards, i, count) && count == Total(shards, i)
      {
        TotalNext(shards, i);
        TotalBound(shards, i + 1);
        ghost var total := Total(shards, i + 1);
        WriteCount(d[..], shards, i, count);
        HeadedKept(d[..], HEADER_SIZE + SHARD_SIZE * i, WordBytes(count + |shards[i]|));
        CopyBytes(d, HEADER_SIZE + SHARD_SIZE * i, WordBytes(count + |shards[i]|));
        for j := 0 to |shards[i]|
          invariant Headed(d[..]) && Written(d[..], shards, i + 1, count + j)
        {
          FlatAt(shards, i, j);
          GoodItem(shards, added, i, j);
          WriteItem(d[..], shards, i + 1, count + j);
          HeadedKept(d[..], ITEMS_AT + ITEM_SIZE * (count + j), ItemBytes(shards[i][j]));
          CopyBytes(d, ITEMS_AT + ITEM_SIZE * (count + j), ItemBytes(shards[i][j]));
        }
        count := count + |shards[i]|;
      }
      assert Total(shards, SHARDS) == |Flat(shards)| by { TotalAll(shards); }
    }

    /**
     A packed buffer answers only for keys added, with a value added for that key; with sorted shards
     it answers for all of them.
     */
    method Lookup(d: array<byte>, key: nat) returns (found: bool, value: nat)
      requires Valid() && Written(d[..], shards, SHARDS, |Flat(shards)|) && key < SHARDS * 0x1_0000
      ensures High(key) < |shards| && (found <==> Hits(shards[High(key)], Low(key)))
      ensures found ==> (key, value) in added
      ensures AllSorted(shards) ==> (found <==> exists v :: (key, v) in added)
    {
      hide Flat, Written, Sorted, HasKey, High, Low, Whole, Hits;
      Split(key);
      found, value := Get(d, key, shards);
      ghost var hid, lid := High(key), Low(key);
      assert ShardOk(shards[hid], hid, added);
      if AllSorted(shards) {
        assert Sorted(shards[hid]);
        SortedHits(shards[hid], lid);
        if exists v :: (key, v) in added {
          var v :| (key, v) in added;
          assert KeyKept(shards, (key, v));
        }
      }
    }

    /** Every key added is found. */
    ghost predicate AnswersAll()
      requires Valid()
      reads this
    {
      forall e :: e in added ==> e.0 < SHARDS * 0x1_0000 && Hits(shards[High(e.0)], Low(e.0))
    }

    /** With no key twice in a shard, every key added is found exactly when all shards are sorted. */
    lemma AnswersWhenSorted()
      requires Valid() && AllDistinct(shards)
      ensures AnswersAll() <==> AllSorted(shards)
    {
      hide Flat, Hits, HasKey, Sorted, DistinctKeys, High, Low, Whole, ItemOk;
      forall i {:trigger shards[i]} | 0 <= i < |shards| ensures FindsAll(shards[i]) <==> Sorted(shards[i]) {
        FindsAllSorted(shards[i]);
      }
      hide FindsAll;
      if AllSorted(shards) {
        forall e | e in added ensures e.0 < SHARDS * 0x1_0000 && Hits(shards[High(e.0)], Low(e.0)) {
          assert KeyKept(shards, e);
          KeyBound(e.0);
          FoundHere(shards[High(e.0)], Low(e.0));
        }
      }
      if AnswersAll() {
        forall i {:trigger shards[i]} | 0 <= i < |shards| ensures Sorted(shards[i]) {
          assert ShardOk(shards[i], i, added);
          AddedFound(shards, added, i);
        }
      }
    }
  }

  ghost predicate AllDistinct(shards: seq<seq<Item>>) {
    forall i {:trigger shards[i]} :: 0 <= i < |shards| ==> DistinctKeys(shards[i])
  }

  lemma KeyBound(key: nat)
    ensures High(key) < SHARDS ==> key < SHARDS * 0x1_0000
  {
  }

  lemma FoundHere(s: seq<Item>, k: nat)
    requires FindsAll(s) && HasKey(s, k)
    ensures Hits(s, k)
  {
  }

  /** If all keys added are found, so are all keys in the shards. */
  lemma AddedFound(shards: seq<seq<Item>>, added: set<(nat, nat)>, i: nat)
    requires |shards| == SHARDS && i < SHARDS && ShardOk(shards[i], i, added)
    requires forall e :: e in added ==> High(e.0) < SHARDS && Hits(shards[High(e.0)], Low(e.0))
    ensures FindsAll(shards[i])
  {
    hide Hits;
    forall k: nat | HasKey(shards[i], k) ensures Hits(shards[i], k) {
      var q :| 0 <= q < |shards[i]| && shards[i][q].key == k;
      var x := shards[i][q];
      assert x in shards[i];
      var e := (Whole(i, x.key), x.value);
      assert e in added && High(e.0) == i && Low(e.0) == k;
    }
  }

  /**
   A new key added late: with every shard sorted and no key twice, all keys are found afterwards
   exactly when the new key is above every key of its shard.
   */
  method LateKey(m: FastMap, key: nat, value: nat)
    requires m.Valid() && AllSorted(m.shards) && AllDistinct(m.shards)
    requires key < SHARDS * 0x1_0000 && value < 0x1_0000_0000 && !exists v :: (key, v) in m.added
    modifies m
    ensures m.Valid() && m.added == old(m.added) + {(key, value)} && AllDistinct(m.shards)
    ensures High(key) < |old(m.shards)|
    ensures m.AnswersAll() <==> forall x :: x in old(m.shards)[High(key)] ==> x.key < Low(key)
  {
    hide Flat, Hits, HasKey, Sorted, DistinctKeys, ItemOk, High, Low, Whole;
    Split(key);
    ghost var hid, lid, s := High(key), Low(key), m.shards[High(key)];
    assert ShardOk(s, hid, m.added);
    forall x | x in s ensures x.key != lid {
      assert (Whole(hid, x.key), x.value) in m.added;
    }
    m.Add(key, value);
    forall i {:trigger m.shards[i]} | 0 <= i < |m.shards| ensures DistinctKeys(m.shards[i]) {
      assert DistinctKeys(old(m.shards)[i]);
      if i == hid {
        DistinctMore(s, Item(lid, value));
      }
    }
    m.AnswersWhenSorted();
  }

  lemma DistinctMore(s: seq<Item>, x: Item)
    requires DistinctKeys(s) && forall y :: y in s ==> y.key != x.key
    ensures DistinctKeys(s + [x])
  {
    forall i | 0 <= i < |s| ensures s[i].key != x.key {
      assert s[i] in s;
    }
  }

  /**
   An item added after the map was made unique is not sorted in, and the search may miss it:
   with 2 added, the map made unique, and then 1 added, a lookup of 1 fails.
   */
  method LateItemMissed() returns (m: FastMap, found: bool)
    ensures m.Valid() && m.uniq && (1, 10) in m.added && !found
  {
    hide Written, Flat, Tidied, ShardsOk, Hits, Thin, Sorted, Crowded;
    m := new FastMap();
    m.Add(2, 20);
    assert m.shards[0] == [Item(2, 20)];
    ghost var one := m.shards[0];
    m.Unique();
    assert Arranged(one, one) by { SortedOne(one); }
    TidyOk(one, m.shards[0], one);
    m.Add(1, 10);
    ghost var items := m.shards[0];
    assert items == [Item(2, 20), Item(1, 10)];
    var ok, panicked, d := m.Serialize(null);
    assert m.shards[0] == items;
    SearchMisses();
    assert (1, 10) in m.added;
    var value;
    found, value := Get(d, 1, m.shards);
  }

  lemma SearchMisses()
    ensures !Hits([Item(2, 20), Item(1, 10)], 1)
  {
    var items := [Item(2, 20), Item(1, 10)];
    assert Search(items, 1, 0, 2) == Search(items, 1, 0, 1) == Search(items, 1, 0, 0) == 0;
  }

  lemma TidiedBy(s: seq<Item>, t: seq<Item>)
    requires Arranged(t, s)
    ensures Tidied(s, Thin(-1, t))
  {
  }

  lemma AllTidy(before: seq<seq<Item>>, shards: seq<seq<Item>>)
    requires |shards| == |before| && forall i {:trigger shards[i]} :: 0 <= i < |shards| ==> Tidied(before[i], shards[i])
    ensures AllSorted(shards)
  {
    hide Sorted, Thin;
    forall i {:trigger shards[i]} | 0 <= i < |shards| ensures Sorted(shards[i]) {
      var t :| Arranged(t, before[i]) && shards[i] == Thin(-1, t);
      TidyOk(before[i], shards[i], t);
    }
  }

  lemma ShardCount(shards: seq<seq<Item>>, added: set<(nat, nat)>)
    requires ShardsOk(shards, added)
    ensures |shards| == SHARDS
  {
  }

  lemma {:induction false} NoneFlat(shards: seq<seq<Item>>)
    requires forall i :: 0 <= i < |shards| ==> shards[i] == []
    ensures Flat(shards) == []
  {
    if shards != [] {
      NoneFlat(shards[..|shards| - 1]);
    }
  }

  lemma NoItems(shards: seq<seq<Item>>)
    requires |shards| == SHARDS && forall i :: 0 <= i < |shards| ==> shards[i] == []
    ensures ShardsOk(shards, {}) && Flat(shards) == []
  {
    hide Flat;
    NoneFlat(shards);
  }

  lemma SortedAppend(shards: seq<seq<Item>>, i: nat, x: Item)
    requires i < |shards|
    ensures AllSorted(shards) ==>
              (AllSorted(shards[i := shards[i] + [x]]) <==> forall y :: y in shards[i] ==> y.key <= x.key)
  {
    var next := shards[i := shards[i] + [x]];
    if AllSorted(shards) {
      assert Sorted(shards[i]);
      if forall y :: y in shards[i] ==> y.key <= x.key {
        forall q {:trigger next[q]} | 0 <= q < |next| ensures Sorted(next[q]) {
          assert Sorted(shards[q]);
        }
      } else {
        var y :| y in shards[i] && y.key > x.key;
        var q :| 0 <= q < |shards[i]| && shards[i][q] == y;
        assert next[i][q].key > next[i][|shards[i]|].key;
        assert !Sorted(next[i]);
      }
    }
  }

  lemma FirstIn(s: seq<Item>)
    requires s != []
    ensures exists x :: x in s
  {
    assert s[0] in s;
  }

  lemma NoneAdded(s: seq<Item>, i: nat)
    requires ShardOk(s, i, {})
    ensures s == []
  {
    if s != [] {
      FirstIn(s);
      assert false;
    }
  }

  /** There are items exactly when something was added. */
  lemma SomeItems(shards: seq<seq<Item>>, added: set<(nat, nat)>)
    requires ShardsOk(shards, added)
    ensures Flat(shards) == [] <==> added == {}
  {
    if added != {} {
      var e :| e in added;
      assert KeyKept(shards, e);
      var i :| 0 <= i < |shards[High(e.0)]| && shards[High(e.0)][i].key == Low(e.0);
      FlatAt(shards, High(e.0), i);
    } else {
      forall i | 0 <= i < |shards| ensures shards[i] == [] {
        NoneAdded(shards[i], i);
      }
      NoneFlat(shards);
    }
  }

  lemma NothingWritten(d: seq<byte>, shards: seq<seq<Item>>)
    ensures Written(d, shards, 0, 0)
  {
  }

  lemma TotalBound(shards: seq<seq<Item>>, i: nat)
    requires i <= |shards|
    ensures Total(shards, i) <= |Flat(shards)|
  {
    FlatPrefix(shards, i, |shards|);
    assert shards[..|shards|] == shards;
  }

  lemma TotalAll(shards: seq<seq<Item>>)
    requires |shards| == SHARDS
    ensures Total(shards, SHARDS) == |Flat(shards)|
  {
    assert shards[..SHARDS] == shards;
  }

  lemma GoodItem(shards: seq<seq<Item>>, added: set<(nat, nat)>, i: nat, j: nat)
    requires ShardsOk(shards, added) && i < |shards| && j < |shards[i]|
    ensures ItemOk(shards[i][j])
  {
    assert ShardOk(shards[i], i, added);
    assert shards[i][j] in shards[i];
  }
}
