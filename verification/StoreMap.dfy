/**
 The older packed map of 32-bit keys and values. Keys are spread over shards by remainder, each
 shard is an array kept in order by `Store`, and `Serialize` lays the shards out in one buffer:
 a header, one entry per shard saying where its items are and how many, and then all the items.
 Each of these is a pair of words, so the buffer is a row of eight-byte pairs.
 */
module StoreMap {

  import opened VmBytes
  import opened SuccinctMap

  const PAIR: nat := 8
  const VERSION_WORD: nat := 0x1_0000
  const SHARD_ITEMS: nat := 1024
  const LIMIT: nat := 0x1_0000_0000

  function ShardOf(key: nat, n: nat): (r: nat)
    requires n > 0
    ensures r < n
  {
    key % n
  }

  lemma Remainder(key: nat, n: nat)
    requires n > 0
    ensures ShardOf(key, n) == key % n < n
  {
  }

  // ---------- Pairs of words ----------

  function PairBytes(a: uint32, b: uint32): (r: seq<byte>)
    ensures |r| == PAIR
  {
    WordBytes(a) + WordBytes(b)
  }

  ghost predicate PairAt(d: seq<byte>, p: nat, a: nat, b: nat) {
    && PAIR * p + PAIR <= |d|
    && LoadWord(d, PAIR * p) == a && LoadWord(d, PAIR * p + 4) == b
  }

  lemma PairWritten(d: seq<byte>, p: nat, a: uint32, b: uint32)
    requires PAIR * p + PAIR <= |d|
    ensures PairAt(Blit(d, PAIR * p, PairBytes(a, b)), p, a, b)
  {
    hide WordBytes, FromBytes;
    var e, at := Blit(d, PAIR * p, PairBytes(a, b)), PAIR * p;
    var x, y := WordBytes(a), WordBytes(b);
    assert e[at] == x[0] && e[at + 1] == x[1] && e[at + 2] == x[2] && e[at + 3] == x[3];
    assert e[at + 4] == y[0] && e[at + 5] == y[1] && e[at + 6] == y[2] && e[at + 7] == y[3];
    WordBytesValue(a);
    WordBytesValue(b);
  }

  lemma PairKept(d: seq<byte>, e: seq<byte>, p: nat, w: seq<byte>, q: nat, a: nat, b: nat)
    requires |w| == PAIR && PAIR * p + PAIR <= |d| && e == Blit(d, PAIR * p, w)
    requires PairAt(d, q, a, b) && p != q
    ensures PairAt(e, q, a, b)
  {
    hide FromBytes, Blit;
    var at := PAIR * q;
    assert e[at] == d[at] && e[at + 1] == d[at + 1] && e[at + 2] == d[at + 2] && e[at + 3] == d[at + 3];
    assert e[at + 4] == d[at + 4] && e[at + 5] == d[at + 5] && e[at + 6] == d[at + 6] && e[at + 7] == d[at + 7];
  }

  /** Writes one pair, or fails when it would not fit. */
  method PutPair(d: array<byte>, p: nat, a: uint32, b: uint32) returns (fits: bool)
    modifies d
    ensures fits <==> PAIR * p + PAIR <= d.Length
    ensures d[..] == if fits then Blit(old(d[..]), PAIR * p, PairBytes(a, b)) else old(d[..])
    ensures fits ==> PairAt(d[..], p, a, b)
  {
    hide Blit, PairBytes, PairAt;
    fits := PAIR * p + PAIR <= d.Length;
    if fits {
      PairWritten(d[..], p, a, b);
      CopyBytes(d, PAIR * p, PairBytes(a, b));
    }
  }

  // ---------- Layout ----------

  predicate PairOk(x: Item) { x.key < LIMIT && x.value < LIMIT }

  /** The entry of shard `q` leads to the items of `s`. */
  ghost predicate Entered(d: seq<byte>, n: nat, items: seq<Item>, start: nat, s: seq<Item>, q: nat) {
    && start + |s| <= |items| && items[start..start + |s|] == s
    && PairAt(d, 1 + q, PAIR * (1 + n + start), |s|)
  }

  /** The first `i` entries and all of `items` are in the buffer of an `n`-shard map. */
  ghost predicate Laid(d: seq<byte>, n: nat, shards: seq<seq<Item>>, i: nat, items: seq<Item>, starts: seq<nat>) {
    && i == |starts| <= |shards|
    && (forall q {:trigger starts[q]} :: 0 <= q < i ==> Entered(d, n, items, starts[q], shards[q], q))
    && (forall u {:trigger items[u]} :: 0 <= u < |items| ==> PairAt(d, 1 + n + u, items[u].key, items[u].value))
  }

  /** The buffer holds the whole map. */
  ghost predicate Image(d: seq<byte>, shards: seq<seq<Item>>) {
    && PairAt(d, 0, 0x1_0000, |shards|)
    && exists items, starts :: Laid(d, |shards|, shards, |shards|, items, starts)
  }

  lemma ItemLaid(d: seq<byte>, n: nat, shards: seq<seq<Item>>, i: nat, items: seq<Item>, starts: seq<nat>, x: Item)
    requires Laid(d, n, shards, i, items, starts) && i < n && PairOk(x)
    requires PAIR * (1 + n + |items|) + PAIR <= |d|
    ensures var e := Blit(d, PAIR * (1 + n + |items|), PairBytes(x.key, x.value));
            Laid(e, n, shards, i, items + [x], starts)
  {
    hide PairAt, Blit, PairBytes;
    var p, w, more := 1 + n + |items|, PairBytes(x.key, x.value), items + [x];
    var e := Blit(d, PAIR * p, w);
    PairWritten(d, p, x.key, x.value);
    forall q {:trigger starts[q]} | 0 <= q < i ensures Entered(e, n, more, starts[q], shards[q], q) {
      var s, start := shards[q], starts[q];
      assert Entered(d, n, items, start, s, q);
      PairKept(d, e, p, w, 1 + q, PAIR * (1 + n + start), |s|);
      assert more[start..start + |s|] == items[start..start + |s|];
    }
    forall u {:trigger more[u]} | 0 <= u < |more| ensures PairAt(e, 1 + n + u, more[u].key, more[u].value) {
      if u < |items| {
        assert more[u] == items[u];
        PairKept(d, e, p, w, 1 + n + u, items[u].key, items[u].value);
      }
    }
  }

  lemma EntryLaid(d: seq<byte>, n: nat, shards: seq<seq<Item>>, i: nat, items: seq<Item>, starts: seq<nat>, w: seq<byte>)
    requires Laid(d, n, shards, i, items, starts) && i < n && |w| == PAIR && PAIR * (1 + i) + PAIR <= |d|
    ensures Laid(Blit(d, PAIR * (1 + i), w), n, shards, i, items, starts)
  {
    hide PairAt, Blit;
    var p := 1 + i;
    var e := Blit(d, PAIR * p, w);
    forall q {:trigger starts[q]} | 0 <= q < i ensures Entered(e, n, items, starts[q], shards[q], q) {
      assert Entered(d, n, items, starts[q], shards[q], q);
      PairKept(d, e, p, w, 1 + q, PAIR * (1 + n + starts[q]), |shards[q]|);
    }
    forall u {:trigger items[u]} | 0 <= u < |items| ensures PairAt(e, 1 + n + u, items[u].key, items[u].value) {
      PairKept(d, e, p, w, 1 + n + u, items[u].key, items[u].value);
    }
  }

  /** Once the items of shard `i` follow, its entry leads to them. */
  lemma ShardLaid(d: seq<byte>, n: nat, shards: seq<seq<Item>>, i: nat, items: seq<Item>, starts: seq<nat>)
    requires i < |shards| && Laid(d, n, shards, i, items + shards[i], starts)
    requires PairAt(d, 1 + i, PAIR * (1 + n + |items|), |shards[i]|)
    ensures Laid(d, n, shards, i + 1, items + shards[i], starts + [|items|])
  {
    hide PairAt;
    var all, more := items + shards[i], starts + [|items|];
    forall q {:trigger more[q]} | 0 <= q < i + 1 ensures Entered(d, n, all, more[q], shards[q], q) {
      if q < i {
        assert more[q] == starts[q];
      }
    }
  }

  /** Sorting a shard not yet laid out does not matter. */
  lemma LaidSorted(d: seq<byte>, n: nat, shards: seq<seq<Item>>, i: nat, items: seq<Item>, starts: seq<nat>, s: seq<Item>)
    requires Laid(d, n, shards, i, items, starts) && i < |shards|
    ensures Laid(d, n, shards[i := s], i, items, starts)
  {
    hide Entered;
  }

  // ---------- Searching ----------

  /** The halving search in an array of items. */
  method SearchItems(s: seq<Item>, key: nat) returns (i: nat)
    ensures i == Search(s, key, 0, |s|)
  {
    hide Search;
    i := 0;
    var j := |s|;
    while i < j
      invariant 0 <= i <= j <= |s| && Search(s, key, i, j) == Search(s, key, 0, |s|)
    {
      var h := (i + j) / 2;
      Halved(s, key, i, j);
      if s[h].key < key {
        i := h + 1;
      } else {
        j := h;
      }
    }
    SearchEnds(s, key, i);
  }

  /** How a search over bytes ends: at a place, or with a read behind the end. */
  datatype Halving = At(place: nat) | Behind

  /** The halving search over the pairs `i..j` of any bytes, from byte `off` on. */
  ghost function SearchBytes(d: seq<byte>, key: nat, off: nat, i: nat, j: nat): Halving
    requires i <= j
    decreases j - i
  {
    if i == j then At(i) else
      var h := (i + j) / 2;
      if off + 8 * h + 4 > |d| then Behind
      else if LoadWord(d, off + 8 * h) < key then SearchBytes(d, key, off, h + 1, j)
      else SearchBytes(d, key, off, i, h)
  }

  /** Where the search ends before the last pair, it has read. */
  lemma {:induction false} EndsInside(d: seq<byte>, key: nat, off: nat, i: nat, j: nat)
    requires i <= j
    ensures match SearchBytes(d, key, off, i, j)
            case Behind => true
            case At(k) => i <= k <= j && (k < j ==> off + 8 * k + 4 <= |d|)
    decreases j - i
  {
    if i < j {
      var h := (i + j) / 2;
      EndsInside(d, key, off, h + 1, j);
      EndsInside(d, key, off, i, h);
    }
  }

  /** It panics exactly when it reads behind the end, and finds the key exactly where it ends. */
  ghost predicate Ends(d: seq<byte>, key: nat, off: nat, n: nat, panicked: bool, ok: bool, idx: nat) {
    match SearchBytes(d, key, off, 0, n)
    case Behind => panicked && !ok
    case At(i) =>
      !panicked && if ok then i == idx < n && off + 8 * i + 4 <= |d| && LoadWord(d, off + 8 * i) == key
                   else i == n || (off + 8 * i + 4 <= |d| && LoadWord(d, off + 8 * i) != key)
  }

  /** What a lookup does on any bytes taken to have `n` shards. */
  datatype Got = Panics | Says(reply: Reply)

  ghost function ReadAt(d: seq<byte>, key: nat, off: nat, length: nat): Got {
    match SearchBytes(d, key, off, 0, length)
    case Behind => Panics
    case At(i) =>
      if i == length || (off + 8 * i + 4 <= |d| && LoadWord(d, off + 8 * i) != key) then Says(Missing)
      else if off + 8 * i + 8 > |d| then Panics
      else Says(Value(LoadWord(d, off + 8 * i + 4)))
  }

  lemma ReadAtIs(d: seq<byte>, key: nat, off: nat, length: nat, panicked: bool, ok: bool, idx: nat)
    requires Ends(d, key, off, length, panicked, ok, idx)
    ensures ReadAt(d, key, off, length) ==
            if panicked then Panics else if !ok then Says(Missing)
            else if off + 8 * idx + 8 > |d| then Panics else Says(Value(LoadWord(d, off + 8 * idx + 4)))
  {
    hide SearchBytes, LoadWord;
  }

  ghost function Reading(d: seq<byte>, n: nat, key: nat): Got {
    if |d| <= 8 || n == 0 then Says(Missing)
    else if 8 + 8 * (key % n) + 8 > |d| then Panics
    else ReadAt(d, key, LoadWord(d, 8 + 8 * (key % n)), LoadWord(d, 8 + 8 * (key % n) + 4))
  }

  /**
   The same search in the buffer, from byte `off` on. It panics exactly when it reads behind the end; if the buffer
   holds the items of `s` there, it does not, and the answer is that of the search over `s`.
   */
  method SearchPairs(key: nat, d: array<byte>, off: nat, n: nat, ghost laid: bool, ghost s: seq<Item>, ghost base: nat)
    returns (panicked: bool, ok: bool, idx: nat)
    requires laid ==> n == |s| && off == PAIR * base
    requires laid ==> forall j {:trigger s[j]} :: 0 <= j < n ==> PairAt(d[..], base + j, s[j].key, s[j].value)
    ensures laid ==> !panicked && (ok <==> Hits(s, key)) && (ok ==> idx < n && s[idx].key == key)
    ensures Ends(d[..], key, off, n, panicked, ok, idx)
  {
    hide PairAt, LoadWord, Search;
    EndsInside(d[..], key, off, 0, n);
    panicked, ok, idx := false, false, 0;
    var i, j := 0, n;
    while i < j
      invariant 0 <= i <= j <= n && (laid ==> Search(s, key, i, j) == Search(s, key, 0, n))
      invariant SearchBytes(d[..], key, off, i, j) == SearchBytes(d[..], key, off, 0, n)
    {
      var h := (i + j) / 2;
      if laid {
        Halved(s, key, i, j);
        PairIs(d[..], base + h, s[h].key, s[h].value);
      }
      if off + PAIR * h + 4 > d.Length {
        return true, false, 0;
      }
      if LoadWord(d[..], off + PAIR * h) < key {
        i := h + 1;
      } else {
        j := h;
      }
    }
    if laid {
      SearchEnds(s, key, i);
    }
    if i < n {
      if laid {
        PairIs(d[..], base + i, s[i].key, s[i].value);
      }
      if LoadWord(d[..], off + PAIR * i) == key {
        ok, idx := true, i;
      }
    }
  }

  lemma PairIs(d: seq<byte>, p: nat, a: nat, b: nat)
    requires PairAt(d, p, a, b)
    ensures PAIR * p + PAIR <= |d| && LoadWord(d, PAIR * p) == a && LoadWord(d, PAIR * p + 4) == b
  {
  }

  /**
   Looks a key up in a buffer, taking it to have `n` shards. On any bytes it panics exactly when a read goes behind
   the end. If they hold the map, there is no panic, and the answer is that of the search over the key's shard.
   */
  method GetPacked(d: array<byte>, n: nat, key: nat, ghost shards: seq<seq<Item>>)
    returns (panicked: bool, found: bool, value: nat)
    ensures n == |shards| && Image(d[..], shards) ==>
              && !panicked && (found <==> n > 0 && Hits(shards[key % n], key))
              && (found ==> Item(key, value) in shards[key % n])
    ensures match Reading(d[..], n, key)
            case Panics => panicked
            case Says(reply) => !panicked && reply == if found then Value(value) else Missing
  {
    hide PairAt, LoadWord, Hits, Laid, ShardOf, ReadAt, Ends;
    panicked, found, value := false, false, 0;
    ghost var laid := n == |shards| && Image(d[..], shards);
    if d.Length <= PAIR || n == 0 {
      if laid && n > 0 {
        ShortBuffer(d[..], shards);
      }
      return;
    }
    Remainder(key, n);
    var sid := ShardOf(key, n);
    ghost var items: seq<Item>, starts: seq<nat>, s: seq<Item>, start: nat := [], [], [], 0;
    if laid {
      items, starts :| Laid(d[..], n, shards, n, items, starts);
      s := shards[sid];
      start := ReadEntry(d[..], n, shards, items, starts, sid);
    }
    if PAIR + PAIR * sid + PAIR > d.Length {
      return true, false, 0;
    }
    var offset, length := LoadWord(d[..], PAIR + PAIR * sid), LoadWord(d[..], PAIR + PAIR * sid + 4);
    if length <= 0 {
      NoHit(key);
      NoneRead(d[..], key, offset);
      return;
    }
    if laid {
      ReadItems(d[..], n, shards, items, starts, sid);
    }
    var idx;
    panicked, found, idx := SearchPairs(key, d, offset, length, laid, s, 1 + n + start);
    ReadAtIs(d[..], key, offset, length, panicked, found, idx);
    if found {
      if laid {
        PairIs(d[..], 1 + n + start + idx, s[idx].key, s[idx].value);
      }
      if offset + PAIR * idx + PAIR > d.Length {
        return true, false, 0;
      }
      value := LoadWord(d[..], offset + PAIR * idx + 4);
      assert laid ==> s[idx] == Item(key, value);
    }
  }

  lemma NoneRead(d: seq<byte>, key: nat, off: nat)
    ensures ReadAt(d, key, off, 0) == Says(Missing)
  {
  }

  /** A buffer with a shard in it is longer than its header. */
  lemma ShortBuffer(d: seq<byte>, shards: seq<seq<Item>>)
    requires Image(d, shards) && |shards| > 0
    ensures |d| > PAIR
  {
    var items, starts :| Laid(d, |shards|, shards, |shards|, items, starts);
    assert Entered(d, |shards|, items, starts[0], shards[0], 0);
  }

  lemma ReadEntry(d: seq<byte>, n: nat, shards: seq<seq<Item>>, items: seq<Item>, starts: seq<nat>, q: nat)
    returns (start: nat)
    requires Laid(d, n, shards, n, items, starts) && q < n
    ensures start == starts[q] && PAIR + PAIR * q + PAIR <= |d|
    ensures LoadWord(d, PAIR + PAIR * q) == PAIR * (1 + n + start)
    ensures LoadWord(d, PAIR + PAIR * q + 4) == |shards[q]|
  {
    start := starts[q];
    assert Entered(d, n, items, start, shards[q], q);
  }

  lemma ReadItems(d: seq<byte>, n: nat, shards: seq<seq<Item>>, items: seq<Item>, starts: seq<nat>, q: nat)
    requires Laid(d, n, shards, n, items, starts) && q < n
    ensures forall j {:trigger shards[q][j]} :: 0 <= j < |shards[q]| ==>
              PairAt(d, 1 + n + starts[q] + j, shards[q][j].key, shards[q][j].value)
  {
    hide PairAt;
    var s, start := shards[q], starts[q];
    assert Entered(d, n, items, start, s, q);
    forall j {:trigger s[j]} | 0 <= j < |s| ensures PairAt(d, 1 + n + start + j, s[j].key, s[j].value) {
      assert s[j] == items[start..start + |s|][j] == items[start + j];
    }
  }

  // ---------- What the shards stand for ----------

  /** Every item is in range and in the shard of its key. */
  ghost predicate Placed(shards: seq<seq<Item>>) {
    forall i, x {:trigger x in shards[i]} :: 0 <= i < |shards| && x in shards[i] ==>
      PairOk(x) && ShardOf(x.key, |shards|) == i
  }

  ghost predicate AllDistinctKeys(shards: seq<seq<Item>>) {
    forall i {:trigger shards[i]} :: 0 <= i < |shards| ==> DistinctKeys(shards[i])
  }

  /** The shards hold exactly the bindings of `m`, each once. */
  ghost predicate Stands(shards: seq<seq<Item>>, m: map<nat, nat>) {
    && AllDistinctKeys(shards)
    && (forall i, x {:trigger x in shards[i]} :: 0 <= i < |shards| && x in shards[i] ==>
          x.key in m && m[x.key] == x.value)
    && (forall k {:trigger m[k]} :: k in m ==> |shards| > 0 && Item(k, m[k]) in shards[ShardOf(k, |shards|)])
  }

  /** In shards that stand for `m`, a key is in its shard exactly when it is bound. */
  lemma HeldKey(shards: seq<seq<Item>>, m: map<nat, nat>, k: nat)
    requires Stands(shards, m) && |shards| > 0
    ensures HasKey(shards[ShardOf(k, |shards|)], k) <==> k in m
  {
    hide ShardOf, DistinctKeys;
    var s := shards[ShardOf(k, |shards|)];
    if HasKey(s, k) {
      var i :| 0 <= i < |s| && s[i].key == k;
      assert s[i] in s;
    }
    if k in m {
      assert Item(k, m[k]) in s;
      var i :| 0 <= i < |s| && s[i] == Item(k, m[k]);
    }
  }

  /** The shard after storing at the place the search names. */
  function Stored(s: seq<Item>, key: nat, value: nat): (r: seq<Item>) {
    var i := Search(s, key, 0, |s|);
    if Hits(s, key) then s[i := Item(key, value)] else s[..i] + [Item(key, value)] + s[i..]
  }

  /** Storing keeps a sorted shard sorted. */
  lemma StoredSorted(s: seq<Item>, key: nat, value: nat)
    requires Sorted(s)
    ensures Sorted(Stored(s, key, value))
  {
    SearchSorted(s, key, 0, |s|);
  }

  /** Unless the search misses a key that is there, no key comes to be there twice. */
  lemma StoredDistinct(s: seq<Item>, key: nat, value: nat)
    requires DistinctKeys(s) && (HasKey(s, key) ==> Hits(s, key))
    ensures DistinctKeys(Stored(s, key, value))
    ensures forall x :: x in Stored(s, key, value) <==> x == Item(key, value) || (x in s && x.key != key)
  {
    hide DistinctKeys, HasKey;
    var i := Search(s, key, 0, |s|);
    StoredAt(s, key, value);
    hide Search, Stored;
    if Hits(s, key) {
      assert s == s[..i] + [s[i]] + s[i + 1..];
      assert s[i := Item(key, value)] == s[..i] + [Item(key, value)] + s[i + 1..];
      Replaced(s[..i], s[i], s[i + 1..], value);
    } else {
      assert s == s[..i] + s[i..];
      Inserted(s[..i], s[i..], key, value);
    }
  }

  lemma Replaced(a: seq<Item>, y: Item, b: seq<Item>, value: nat)
    requires DistinctKeys(a + [y] + b)
    ensures DistinctKeys(a + [Item(y.key, value)] + b)
    ensures forall x :: x in a + [Item(y.key, value)] + b <==>
                          x == Item(y.key, value) || (x in a + [y] + b && x.key != y.key)
  {
    var s, r := a + [y] + b, a + [Item(y.key, value)] + b;
    assert forall i :: 0 <= i < |s| && i != |a| ==> s[i] == r[i] && s[i].key != s[|a|].key;
    assert s[|a|] == y && r[|a|] == Item(y.key, value);
    forall x | x in r ensures x == Item(y.key, value) || (x in s && x.key != y.key) {
      var i :| 0 <= i < |r| && r[i] == x;
    }
    forall x | x in s && x.key != y.key ensures x in r {
      var i :| 0 <= i < |s| && s[i] == x;
    }
    assert Item(y.key, value) in r;
  }

  lemma Inserted(a: seq<Item>, b: seq<Item>, key: nat, value: nat)
    requires DistinctKeys(a + b) && !HasKey(a + b, key)
    ensures DistinctKeys(a + [Item(key, value)] + b)
    ensures forall x :: x in a + [Item(key, value)] + b <==> x == Item(key, value) || (x in a + b && x.key != key)
  {
    var s, r := a + b, a + [Item(key, value)] + b;
    assert forall i :: 0 <= i < |r| ==> r[i] == if i < |a| then s[i] else if i == |a| then Item(key, value) else s[i - 1];
    assert forall i :: 0 <= i < |s| ==> s[i].key != key;
    assert r[|a|] == Item(key, value);
    forall i, j | 0 <= i < j < |r| ensures r[i].key != r[j].key {
      var p, q := if i < |a| then i else i - 1, if j < |a| then j else j - 1;
      if i == |a| {
        assert r[i].key == key && r[j] == s[q];
      } else if j == |a| {
        assert r[i] == s[p] && r[j].key == key;
      } else {
        assert r[i] == s[p] && r[j] == s[q] && p < q;
        assert s[p].key != s[q].key;
      }
    }
    forall x | x in s ensures x.key != key && x in r {
      var i :| 0 <= i < |s| && s[i] == x;
      assert r[if i < |a| then i else i + 1] == x;
    }
  }

  lemma InsertRepeats(a: seq<Item>, x: Item, b: seq<Item>)
    requires !DistinctKeys(a + b) || HasKey(a + b, x.key)
    ensures !DistinctKeys(a + [x] + b)
  {
    var s, r := a + b, a + [x] + b;
    if HasKey(s, x.key) {
      var p :| 0 <= p < |s| && s[p].key == x.key;
      assert r[|a|] == x && r[if p < |a| then p else p + 1] == s[p];
    } else {
      var p, q :| 0 <= p < q < |s| && s[p].key == s[q].key;
      assert r[if p < |a| then p else p + 1] == s[p] && r[if q < |a| then q else q + 1] == s[q];
    }
  }

  lemma ReplaceRepeats(s: seq<Item>, i: nat, value: nat)
    requires i < |s| && !DistinctKeys(s)
    ensures !DistinctKeys(s[i := Item(s[i].key, value)])
  {
    var p, q :| 0 <= p < q < |s| && s[p].key == s[q].key;
    var r := s[i := Item(s[i].key, value)];
    assert r[p].key == s[p].key && r[q].key == s[q].key;
  }

  /** A key that was there twice, or that the search misses, is there twice afterwards. */
  lemma StoredRepeats(s: seq<Item>, key: nat, value: nat)
    requires !DistinctKeys(s) || (HasKey(s, key) && !Hits(s, key))
    ensures !DistinctKeys(Stored(s, key, value))
  {
    var i := Search(s, key, 0, |s|);
    StoredAt(s, key, value);
    hide Search, Stored, DistinctKeys, HasKey;
    if Hits(s, key) {
      ReplaceRepeats(s, i, value);
    } else {
      assert s == s[..i] + s[i..];
      InsertRepeats(s[..i], Item(key, value), s[i..]);
    }
  }

  lemma AppendRepeats(s: seq<Item>, key: nat, value: nat)
    requires !DistinctKeys(s) || HasKey(s, key)
    ensures !DistinctKeys(s + [Item(key, value)])
  {
    var r := s + [Item(key, value)];
    if !DistinctKeys(s) {
      var p, q :| 0 <= p < q < |s| && s[p].key == s[q].key;
      assert r[p].key == r[q].key;
    } else {
      var p :| 0 <= p < |s| && s[p].key == key;
      assert r[p].key == r[|s|].key;
    }
  }

  /** A replaced shard with a repeated key, or another one that had it before. */
  lemma StillRepeats(shards: seq<seq<Item>>, i: nat, s: seq<Item>)
    requires i < |shards| && (!DistinctKeys(s) || (!AllDistinctKeys(shards) && DistinctKeys(shards[i])))
    ensures !AllDistinctKeys(shards[i := s])
  {
    hide DistinctKeys;
    var next := shards[i := s];
    if DistinctKeys(s) {
      var q :| 0 <= q < |shards| && !DistinctKeys(shards[q]);
      assert !DistinctKeys(next[q]);
    } else {
      assert !DistinctKeys(next[i]);
    }
  }

  lemma ReplaceStands(shards: seq<seq<Item>>, m: map<nat, nat>, key: nat, value: nat, s: seq<Item>)
    requires Placed(shards) && Stands(shards, m) && |shards| > 0 && DistinctKeys(s)
    requires forall x :: x in s <==>
               x == Item(key, value) || (x in shards[ShardOf(key, |shards|)] && x.key != key)
    ensures Stands(shards[ShardOf(key, |shards|) := s], m[key := value])
  {
    hide DistinctKeys, ShardOf;
    var n, sid := |shards|, ShardOf(key, |shards|);
    var next, more := shards[sid := s], m[key := value];
    forall i, x: Item {:trigger x in next[i]} | 0 <= i < n && x in next[i]
      ensures x.key in more && more[x.key] == x.value
    {
      if i != sid {
        assert x in shards[i];
      } else if x != Item(key, value) {
        assert x in shards[sid];
      }
    }
    forall k {:trigger more[k]} | k in more ensures Item(k, more[k]) in next[ShardOf(k, n)] {
      if k != key {
        assert Item(k, m[k]) in shards[ShardOf(k, n)];
      }
    }
  }

  lemma ReplacePlaced(shards: seq<seq<Item>>, key: nat, value: nat, s: seq<Item>)
    requires Placed(shards) && |shards| > 0 && key < LIMIT && value < LIMIT
    requires forall x :: x in s ==> x == Item(key, value) || x in shards[ShardOf(key, |shards|)]
    ensures Placed(shards[ShardOf(key, |shards|) := s])
  {
    hide ShardOf;
    var sid := ShardOf(key, |shards|);
    var next := shards[sid := s];
    forall i, x: Item {:trigger x in next[i]} | 0 <= i < |next| && x in next[i]
      ensures PairOk(x) && ShardOf(x.key, |next|) == i
    {
      assert (i == sid && x == Item(key, value)) || x in shards[i];
    }
  }

  lemma StoredAt(s: seq<Item>, key: nat, value: nat)
    ensures var i, x := Search(s, key, 0, |s|), Item(key, value);
            Stored(s, key, value) == if i < |s| && s[i].key == key then s[i := x] else s[..i] + [x] + s[i..]
  {
  }

  lemma AppendDistinct(s: seq<Item>, key: nat, value: nat)
    requires DistinctKeys(s) && !HasKey(s, key)
    ensures var r := s + [Item(key, value)];
            DistinctKeys(r) && forall x :: x in r <==> x == Item(key, value) || (x in s && x.key != key)
  {
  }

  lemma OneDistinct(shards: seq<seq<Item>>, m: map<nat, nat>, i: nat)
    requires Stands(shards, m) && i < |shards|
    ensures DistinctKeys(shards[i])
  {
  }

  lemma StoredItems(s: seq<Item>, key: nat, value: nat)
    ensures forall x :: x in Stored(s, key, value) ==> x == Item(key, value) || x in s
  {
    hide Search;
  }

  /** The shards stand for the bindings, or some key is in its shard twice. */
  ghost predicate Tracks(shards: seq<seq<Item>>, m: map<nat, nat>, clean: bool) {
    if clean then Stands(shards, m) else !AllDistinctKeys(shards)
  }

  lemma PutOk(shards: seq<seq<Item>>, m: map<nat, nat>, clean: bool, key: nat, value: nat)
    requires Placed(shards) && |shards| > 0 && key < LIMIT && value < LIMIT && Tracks(shards, m, clean)
    ensures var sid := ShardOf(key, |shards|);
            var s := shards[sid];
            var next := shards[sid := Stored(s, key, value)];
            && Placed(next)
            && Tracks(next, m[key := value], clean && (HasKey(s, key) ==> Hits(s, key)))
            && (AllSorted(shards) ==> AllSorted(next) && (HasKey(s, key) ==> Hits(s, key)))
  {
    hide Search, Hits, HasKey, Placed, Stands, ShardOf, Stored, DistinctKeys, Sorted, AllDistinctKeys;
    var sid := ShardOf(key, |shards|);
    var s := shards[sid];
    var r := Stored(s, key, value);
    StoredItems(s, key, value);
    ReplacePlaced(shards, key, value, r);
    if AllSorted(shards) {
      SortedHits(s, key);
      StoredSorted(s, key, value);
    }
    if clean && (HasKey(s, key) ==> Hits(s, key)) {
      OneDistinct(shards, m, sid);
      StoredDistinct(s, key, value);
      ReplaceStands(shards, m, key, value, r);
    } else {
      if !DistinctKeys(s) || clean {
        StoredRepeats(s, key, value);
      }
      StillRepeats(shards, sid, r);
    }
  }

  lemma AppendOk(shards: seq<seq<Item>>, m: map<nat, nat>, clean: bool, key: nat, value: nat)
    requires Placed(shards) && |shards| > 0 && key < LIMIT && value < LIMIT && Tracks(shards, m, clean)
    ensures var sid := ShardOf(key, |shards|);
            var next := shards[sid := shards[sid] + [Item(key, value)]];
            Placed(next) && Tracks(next, m[key := value], clean && !HasKey(shards[sid], key))
  {
    hide HasKey, Placed, Stands, ShardOf, DistinctKeys, AllDistinctKeys;
    var sid := ShardOf(key, |shards|);
    var s := shards[sid];
    var r := s + [Item(key, value)];
    ReplacePlaced(shards, key, value, r);
    if clean && !HasKey(s, key) {
      OneDistinct(shards, m, sid);
      AppendDistinct(s, key, value);
      ReplaceStands(shards, m, key, value, r);
    } else {
      if !DistinctKeys(s) || HasKey(s, key) {
        AppendRepeats(s, key, value);
      }
      StillRepeats(shards, sid, r);
    }
  }

  // ---------- The announced size ----------

  /** What the map takes when laid out, if each of `puts` calls has left an item. */
  function Announced(n: nat, puts: nat): nat { PAIR * (1 + n + puts) }

  /** The size is that number in 32 bits, and there are no more items than calls. */
  ghost predicate Sized(shards: seq<seq<Item>>, puts: nat, size: nat) {
    |Flat(shards)| <= puts && (|shards| > 0 ==> size == Announced(|shards|, puts) % LIMIT)
  }

  lemma SizedMore(shards: seq<seq<Item>>, puts: nat, size: nat, i: nat, s: seq<Item>)
    requires Sized(shards, puts, size) && i < |shards| && |s| <= |shards[i]| + 1
    ensures Sized(shards[i := s], puts + 1, (size + PAIR) % LIMIT)
  {
    FlatUpdate(shards, i, s);
    Wrapped(Announced(|shards|, puts));
  }

  lemma Wrapped(x: nat)
    ensures (x % LIMIT + PAIR) % LIMIT == (x + PAIR) % LIMIT
  {
    var q := x / LIMIT;
    assert x == q * LIMIT + x % LIMIT;
    var r := x % LIMIT + PAIR;
    if r < LIMIT {
      assert (x + PAIR) == q * LIMIT + r;
    } else {
      assert (x + PAIR) == (q + 1) * LIMIT + (r - LIMIT);
    }
  }

  lemma EmptyShards(shards: seq<seq<Item>>)
    requires |shards| < 0x50_0000 && forall i :: 0 <= i < |shards| ==> shards[i] == []
    ensures Placed(shards) && Tracks(shards, map[], true) && AllSorted(shards)
    ensures Sized(shards, 0, PAIR + PAIR * |shards|)
  {
    hide Flat;
    NoneFlat(shards);
  }

  /** Below the wrap the size is enough; if every call has left an item, it is enough only below the wrap. */
  lemma SizeSuffices(shards: seq<seq<Item>>, puts: nat, size: nat)
    requires Sized(shards, puts, size) && |shards| > 0
    ensures Announced(|shards|, puts) < LIMIT ==> size >= Announced(|shards|, |Flat(shards)|)
    ensures |Flat(shards)| == puts ==>
              (size >= Announced(|shards|, |Flat(shards)|) <==> Announced(|shards|, puts) < LIMIT)
  {
  }

  /** Reordering a shard changes nothing that it stands for. */
  lemma SortedStands(shards: seq<seq<Item>>, m: map<nat, nat>, i: nat, t: seq<Item>)
    requires i < |shards| && Arranged(t, shards[i])
    ensures Placed(shards) ==> Placed(shards[i := t])
    ensures Stands(shards, m) ==> Stands(shards[i := t], m)
    ensures !AllDistinctKeys(shards) ==> !AllDistinctKeys(shards[i := t])
  {
    hide ShardOf, Sorted, DistinctKeys;
    ArrangedItems(t, shards[i]);
    var next := shards[i := t];
    assert forall q, x :: 0 <= q < |shards| ==> (x in next[q] <==> x in shards[q]);
    if DistinctKeys(shards[i]) {
      ArrangedDistinct(t, shards[i]);
    }
    if DistinctKeys(t) {
      ArrangedDistinct(shards[i], t);
    }
    if !AllDistinctKeys(shards) {
      StillRepeats(shards, i, t);
    }
  }

  lemma SortedTracks(shards: seq<seq<Item>>, m: map<nat, nat>, clean: bool, puts: nat, size: nat, i: nat, t: seq<Item>)
    requires i < |shards| && Arranged(t, shards[i]) && Placed(shards) && Tracks(shards, m, clean)
    requires Sized(shards, puts, size)
    ensures Placed(shards[i := t]) && Tracks(shards[i := t], m, clean) && Sized(shards[i := t], puts, size)
  {
    hide Placed, Stands, AllDistinctKeys, Sorted, Flat;
    SortedStands(shards, m, i, t);
    assert |t| == |shards[i]| by { ArrangedItems(t, shards[i]); }
    FlatUpdate(shards, i, t);
  }

  lemma ArrangedDistinct(t: seq<Item>, s: seq<Item>)
    requires multiset(t) == multiset(s) && DistinctKeys(s)
    ensures DistinctKeys(t)
  {
    forall i, j | 0 <= i < j < |t| ensures t[i].key != t[j].key {
      if t[i].key == t[j].key {
        SameKeyTwice(t, s, i, j);
      }
    }
  }

  lemma SameKeyTwice(t: seq<Item>, s: seq<Item>, i: nat, j: nat)
    requires multiset(t) == multiset(s) && i < j < |t| && t[i].key == t[j].key
    ensures !DistinctKeys(s)
  {
    var x, y := t[i], t[j];
    if x != y {
      assert x in multiset(s) && y in multiset(s);
      var p, q :| 0 <= p < |s| && 0 <= q < |s| && s[p] == x && s[q] == y;
    } else {
      TwiceCounted(t, i, j);
      CountedTwice(s, x);
    }
  }

  lemma TwiceCounted(t: seq<Item>, i: nat, j: nat)
    requires i < j < |t| && t[i] == t[j]
    ensures multiset(t)[t[i]] >= 2
  {
    assert t == t[..j] + [t[j]] + t[j + 1..];
    assert t[i] in t[..j];
    assert multiset(t) == multiset(t[..j]) + multiset{t[j]} + multiset(t[j + 1..]);
  }

  lemma CountedTwice(s: seq<Item>, x: Item)
    requires multiset(s)[x] >= 2
    ensures !DistinctKeys(s)
  {
    var p :| 0 <= p < |s| && s[p] == x;
    assert s == s[..p] + [x] + s[p + 1..];
    assert multiset(s) == multiset(s[..p]) + multiset{x} + multiset(s[p + 1..]);
    assert x in multiset(s[..p]) || x in multiset(s[p + 1..]);
    var q :| 0 <= q < |s| && q != p && s[q] == x;
  }

  /** Takes a buffer to read from, and the number of shards from its header. */
  method Open(d: array<byte>, ghost shards: seq<seq<Item>>) returns (ok: bool, n: nat)
    requires Image(d[..], shards)
    ensures ok <==> d.Length > PAIR
    ensures ok ==> n == |shards|
    ensures |shards| > 0 ==> ok
  {
    ok, n := d.Length > PAIR, 0;
    if |shards| > 0 {
      ShortBuffer(d[..], shards);
    }
    if ok {
      n := LoadWord(d[..], 4);
    }
  }

  lemma BoundItem(shards: seq<seq<Item>>, m: map<nat, nat>, key: nat, value: nat)
    requires Stands(shards, m) && |shards| > 0 && Item(key, value) in shards[ShardOf(key, |shards|)]
    ensures key in m && m[key] == value
  {
  }

  datatype Reply = Missing | Value(value: nat)

  class Store {
    var count: nat
    var shards: seq<seq<Item>>
    var size: nat
    var length: nat
    var data: array?<byte>
    // The bindings given so far, which the shards stand for as long as no key was put in twice.
    ghost var m: map<nat, nat>
    ghost var clean: bool
    // The number of items put or added.
    ghost var puts: nat
    // What was laid out last.
    ghost var packed: seq<seq<Item>>

    ghost predicate Valid()
      reads this
    {
      && count == |shards| < 0x50_0000 && Placed(shards) && size < LIMIT
      && Tracks(shards, m, clean) && Sized(shards, puts, size)
      && (data != null ==> data.Length < LIMIT)
    }

    /** The buffer holds what was laid out last. */
    ghost predicate Ready()
      reads this, data
    {
      data != null && |packed| == count && Image(data[..], packed)
    }

    constructor ()
      ensures Valid() && clean && m == map[] && shards == [] && data == null && length == size == count == puts == 0
    {
      count, shards, size, length, data := 0, [], 0, 0, null;
      m, clean, puts, packed := map[], true, 0, [];
    }

    /** Starts an empty map with a shard for every 1024 of `n` keys, and sixteen more. */
    method InitWriter(n: uint32)
      modifies this
      ensures Valid() && clean && m == map[] && data == null && length == n && AllSorted(shards)
      ensures count == n / 1024 + 16 && size == 8 + 8 * count && puts == 0
    {
      count := n / SHARD_ITEMS + 16;
      shards := seq(count, _ => []);
      size, length, data := PAIR + PAIR * count, n, null;
      m, clean, puts := map[], true, 0;
      hide Placed, Tracks, Sized, AllSorted;
      EmptyShards(shards);
    }

    /** Accepts a buffer to lay the map out in, when it is long enough for what is there now. */
    method SetWriter(d: array<byte>) returns (ok: bool)
      requires Valid() && d.Length < LIMIT
      modifies this`data
      ensures Valid() && (ok <==> d.Length >= size) && data == if ok then d else old(data)
    {
      ok := d.Length >= size;
      if ok {
        data := d;
      }
    }

    /** Binds a key: the last value stored wins. The size grows also when the key was there already. */
    method Put(key: uint32, value: uint32)
      requires Valid()
      modifies this`shards, this`size, this`m, this`clean, this`puts
      ensures Valid()
      ensures if count == 0
              then shards == old(shards) && size == old(size) && m == old(m) && clean == old(clean) && puts == old(puts)
              else
                var sid := key % count;
                && |shards| == |old(shards)|
                && shards == old(shards)[sid := Stored(old(shards)[sid], key, value)]
                && m == old(m)[key := value] && size == (old(size) + PAIR) % LIMIT && puts == old(puts) + 1
                && clean == (old(clean) && (HasKey(old(shards)[sid], key) ==> Hits(old(shards)[sid], key)))
      ensures AllSorted(old(shards)) ==> AllSorted(shards) && clean == old(clean)
    {
      hide Search, Hits, HasKey, Placed, Tracks, ShardOf, Stored, AllSorted, Sized;
      if count == 0 {
        return;
      }
      Remainder(key, count);
      var sid := ShardOf(key, count);
      var s := shards[sid];
      var index := SearchItems(s, key);
      var exist := index < |s| && s[index].key == key;
      var x := Item(key, value);
      var r := if exist then s[index := x] else s[..index] + [x] + s[index..];
      StoredAt(s, key, value);
      PutOk(shards, m, clean, key, value);
      SizedMore(shards, puts, size, sid, r);
      clean := clean && (HasKey(s, key) ==> Hits(s, key));
      shards := shards[sid := r];
      size := (size + PAIR) % LIMIT;
      puts := puts + 1;
      m := m[key := value];
    }

    /** Appends a key without looking whether it is there; the shard is sorted when it is laid out. */
    method Add(key: uint32, value: uint32)
      requires Valid()
      modifies this`shards, this`size, this`m, this`clean, this`puts
      ensures Valid()
      ensures if count == 0
              then shards == old(shards) && size == old(size) && m == old(m) && clean == old(clean) && puts == old(puts)
              else
                var sid := key % count;
                && |shards| == |old(shards)|
                && shards == old(shards)[sid := old(shards)[sid] + [Item(key, value)]]
                && m == old(m)[key := value] && size == (old(size) + PAIR) % LIMIT && puts == old(puts) + 1
                && clean == (old(clean) && !HasKey(old(shards)[sid], key))
    {
      hide HasKey, Placed, Tracks, ShardOf, Sized;
      if count == 0 {
        return;
      }
      Remainder(key, count);
      var sid := ShardOf(key, count);
      var s := shards[sid];
      var r := s + [Item(key, value)];
      AppendOk(shards, m, clean, key, value);
      SizedMore(shards, puts, size, sid, r);
      clean := clean && !HasKey(s, key);
      shards := shards[sid := r];
      size := (size + PAIR) % LIMIT;
      puts := puts + 1;
      m := m[key := value];
    }

    /** Looks a key up in the shards. */
    method Load(key: uint32) returns (found: bool, value: nat)
      requires Valid()
      ensures found <==> count > 0 && Hits(shards[key % count], key)
      ensures clean && AllSorted(shards) ==> (found <==> key in m) && (found ==> value == m[key])
    {
      hide Search, Placed, ShardOf, Sorted;
      found, value := false, 0;
      if count == 0 {
        return;
      }
      Remainder(key, count);
      ghost var sid := ShardOf(key, count);
      var s := shards[ShardOf(key, count)];
      var i := SearchItems(s, key);
      if i < |s| && s[i].key == key {
        found, value := true, s[i].value;
        assert s[i] in shards[sid];
      }
      if clean && AllSorted(shards) {
        SortedHits(s, key);
        HeldKey(shards, m, key);
      }
    }

    /**
     Sorts the shards and lays them out. Nothing is done for a map announced as empty. The code
     panics when the buffer is too short for what is in the shards.
     */
    method Serialize() returns (ok: bool, panicked: bool)
      requires Valid() && forall i {:trigger shards[i]} :: 0 <= i < |shards| ==> |shards[i]| < LIMIT
      modifies this`shards, this`data, this`packed, data
      ensures Valid() && m == old(m) && clean == old(clean)
      ensures |shards| == |old(shards)| && |Flat(shards)| == |old(Flat(shards))|
      ensures forall i {:trigger shards[i]} :: 0 <= i < |shards| ==> multiset(shards[i]) == multiset(old(shards)[i])
      ensures !ok && !panicked <==> size <= PAIR || length == 0 || count == 0
      ensures ok ==> !panicked && AllSorted(shards) && packed == shards && Ready()
      ensures ok || panicked ==> data != null && fresh({data} - {old(data)})
      ensures ok || panicked ==> data.Length == if old(data) == null then size else old(data).Length
      ensures ok || panicked ==> (panicked <==> data.Length < Announced(count, |Flat(shards)|))
      ensures panicked ==> Announced(count, puts) >= LIMIT || data.Length < size
      ensures (ok || panicked) && old(data) == null && |Flat(shards)| == puts ==>
                (panicked <==> Announced(count, puts) >= LIMIT)
    {
      hide Flat, Placed, Tracks, Image, Sorted, Sized, Announced;
      ok, panicked := false, false;
      if size <= PAIR || length == 0 || count == 0 {
        return;
      }
      if data == null {
        data := new byte[size];
      }
      panicked := Pack();
      SizeSuffices(shards, puts, size);
      ok := !panicked;
    }

    /**
     Looks a key up in the buffer. If it was laid out, at whatever time, the answer is for what was laid out then;
     a buffer that was only set is read all the same, and a read behind its end panics.
     */
    method Get(key: uint32) returns (panicked: bool, found: bool, value: nat)
      requires Valid()
      ensures data == null ==> !panicked && !found
      ensures data != null ==>
                match Reading(data[..], count, key)
                case Panics => panicked
                case Says(reply) => !panicked && reply == if found then Value(value) else Missing
      ensures Ready() ==> && !panicked && (found <==> count > 0 && Hits(packed[key % count], key))
                          && (found ==> Item(key, value) in packed[key % count])
    {
      hide Image, Hits, ShardOf, Placed, Tracks, Sized;
      panicked, found, value := false, false, 0;
      if data == null {
        return;
      }
      panicked, found, value := GetPacked(data, count, key, packed);
    }

    /** Right after laying out, the buffer answers what was stored, and what the shards answer. */
    method SerializeThenRead(key: uint32) returns (ok: bool, panicked: bool, got: Reply, loaded: Reply, read: Reply)
      requires Valid() && forall i {:trigger shards[i]} :: 0 <= i < |shards| ==> |shards[i]| < LIMIT
      modifies this`shards, this`data, this`packed, data
      ensures !ok && !panicked <==> size <= PAIR || length == 0 || count == 0
      ensures ok && old(clean) ==> got == loaded == read == if key in old(m) then Value(old(m)[key]) else Missing
    {
      hide Image, Hits, ShardOf, Flat, Stands, Placed, Sorted, Sized;
      ok, panicked := Serialize();
      got, loaded, read := Missing, Missing, Missing;
      if ok {
        Remainder(key, count);
        var bad, found, value := Get(key);
        got := if found then Value(value) else Missing;
        if found && clean {
          BoundItem(shards, m, key, value);
        }
        found, value := Load(key);
        loaded := if found then Value(value) else Missing;
        var opens, n := Open(data, packed);
        if opens {
          bad, found, value := GetPacked(data, n, key, packed);
          read := if found then Value(value) else Missing;
          if found && clean {
            BoundItem(shards, m, key, value);
          }
        }
      }
    }

    /** Writes the header, then shard after shard. */
    method Pack() returns (panicked: bool)
      requires Valid() && data != null && count > 0
      requires forall i {:trigger shards[i]} :: 0 <= i < |shards| ==> |shards[i]| < LIMIT
      modifies this`shards, this`packed, data
      ensures Valid() && |shards| == |old(shards)| && |Flat(shards)| == |old(Flat(shards))|
      ensures forall i {:trigger shards[i]} :: 0 <= i < |shards| ==> multiset(shards[i]) == multiset(old(shards)[i])
      ensures panicked <==> data.Length < Announced(count, |Flat(shards)|)
      ensures !panicked ==> AllSorted(shards) && packed == shards && Ready()
    {
      hide Flat, Total, Placed, Tracks, Sized, Laid, Blit, PairBytes, Sorted, PairAt;
      ghost var total := |Flat(shards)|;
      var fits := PutPair(data, 0, VERSION_WORD, count);
      if !fits {
        return true;
      }
      ghost var items: seq<Item>, starts: seq<nat> := [], [];
      NothingLaid(data[..], count, shards);
      var t := 0;
      for i := 0 to count
        invariant Valid() && |Flat(shards)| == total
        invariant forall q {:trigger shards[q]} :: 0 <= q < count ==> multiset(shards[q]) == multiset(old(shards)[q])
        invariant forall q {:trigger shards[q]} :: 0 <= q < count ==> |shards[q]| < LIMIT
        invariant forall q {:trigger shards[q]} :: 0 <= q < i ==> Sorted(shards[q])
        invariant Laid(data[..], count, shards, i, items, starts) && PairAt(data[..], 0, VERSION_WORD, count)
        invariant t == |items| == Total(shards, i) && PAIR * (1 + i) <= data.Length
        invariant PAIR * (1 + count + t) <= data.Length || t == 0
      {
        ghost var was := shards;
        fits := PackShard(i, t, items, starts);
        SameTotals(was, shards, i);
        FlatUpdate(was, i, shards[i]);
        TotalNext(shards, i);
        TotalBound(shards, i + 1);
        if !fits {
          return true;
        }
        items, starts := items + shards[i], starts + [t];
        t := t + |shards[i]|;
      }
      AllTotal(shards);
      packed := shards;
      panicked := false;
    }

    /** Writes the entry of one shard, sorts it, and writes its items. */
    method PackShard(i: nat, t: nat, ghost items: seq<Item>, ghost starts: seq<nat>) returns (fits: bool)
      requires Valid() && data != null && i < count && t == |items| && |shards[i]| < LIMIT
      requires Laid(data[..], count, shards, i, items, starts) && PairAt(data[..], 0, VERSION_WORD, count)
      requires PAIR * (1 + count + t) <= data.Length || t == 0
      modifies this`shards, data
      ensures Valid() && |shards| == |old(shards)| && shards == old(shards)[i := shards[i]]
      ensures multiset(shards[i]) == multiset(old(shards)[i]) && |shards[i]| == |old(shards)[i]|
      ensures fits <==>
                && PAIR * (2 + i) <= data.Length
                && (shards[i] != [] ==> PAIR * (1 + count + t + |shards[i]|) <= data.Length)
      ensures fits ==> Sorted(shards[i]) && Laid(data[..], count, shards, i + 1, items + shards[i], starts + [t])
      ensures fits ==> PairAt(data[..], 0, VERSION_WORD, count)
    {
      hide Placed, Tracks, Sized, Laid, Blit, PairBytes, Sorted, PairAt;
      var itemsLen := |shards[i]|;
      ghost var d := data[..];
      fits := PutPair(data, 1 + i, PAIR * (1 + count + t), itemsLen);
      if !fits {
        return;
      }
      EntryLaid(d, count, shards, i, items, starts, PairBytes(PAIR * (1 + count + t), itemsLen));
      PairKept(d, data[..], 1 + i, PairBytes(PAIR * (1 + count + t), itemsLen), 0, VERSION_WORD, count);
      if itemsLen <= 0 {
        EmptyLaid(data[..], count, shards, i, items, starts);
        return;
      }
      var s := SortItems(shards[i]);
      SortedTracks(shards, m, clean, puts, size, i, s);
      ArrangedItems(s, shards[i]);
      LaidSorted(data[..], count, shards, i, items, starts, s);
      shards := shards[i := s];
      fits := PackItems(i, t, items, starts);
    }

    method PackItems(i: nat, t: nat, ghost items: seq<Item>, ghost starts: seq<nat>) returns (fits: bool)
      requires Valid() && data != null && i < count && t == |items| && shards[i] != []
      requires Laid(data[..], count, shards, i, items, starts) && PairAt(data[..], 0, VERSION_WORD, count)
      requires PairAt(data[..], 1 + i, PAIR * (1 + count + t), |shards[i]|)
      modifies data
      ensures fits <==> PAIR * (1 + count + t + |shards[i]|) <= data.Length
      ensures fits ==> Laid(data[..], count, shards, i + 1, items + shards[i], starts + [t])
      ensures fits ==> PairAt(data[..], 0, VERSION_WORD, count)
    {
      hide Placed, Tracks, Sized, Laid, Blit, PairBytes, Sorted, PairAt;
      var s := shards[i];
      assert items + s[..0] == items;
      for j := 0 to |s|
        invariant Laid(data[..], count, shards, i, items + s[..j], starts) && PairAt(data[..], 0, VERSION_WORD, count)
        invariant PairAt(data[..], 1 + i, PAIR * (1 + count + t), |s|)
        invariant PAIR * (1 + count + t + j) <= data.Length || j == 0
      {
        ghost var d, p := data[..], 1 + count + t + j;
        PlacedOk(shards, i, s[j]);
        fits := PutPair(data, 1 + count + t + j, s[j].key, s[j].value);
        if !fits {
          return;
        }
        ghost var w := PairBytes(s[j].key, s[j].value);
        ItemLaid(d, count, shards, i, items + s[..j], starts, s[j]);
        PairKept(d, data[..], p, w, 0, VERSION_WORD, count);
        PairKept(d, data[..], p, w, 1 + i, PAIR * (1 + count + t), |s|);
        assert items + s[..j] + [s[j]] == items + s[..j + 1];
      }
      fits := true;
      assert s[..|s|] == s;
      ShardLaid(data[..], count, shards, i, items, starts);
    }
  }

  lemma PlacedOk(shards: seq<seq<Item>>, i: nat, x: Item)
    requires Placed(shards) && i < |shards| && x in shards[i]
    ensures PairOk(x)
  {
  }

  /** An empty shard has its entry and nothing else. */
  lemma EmptyLaid(d: seq<byte>, n: nat, shards: seq<seq<Item>>, i: nat, items: seq<Item>, starts: seq<nat>)
    requires i < |shards| && shards[i] == [] && Laid(d, n, shards, i, items, starts)
    requires PairAt(d, 1 + i, PAIR * (1 + n + |items|), 0)
    ensures Sorted(shards[i]) && Laid(d, n, shards, i + 1, items + shards[i], starts + [|items|])
  {
    hide Laid, PairAt;
    assert items + shards[i] == items;
    ShardLaid(d, n, shards, i, items, starts);
  }

  lemma NothingLaid(d: seq<byte>, n: nat, shards: seq<seq<Item>>)
    ensures Laid(d, n, shards, 0, [], []) && Total(shards, 0) == 0
  {
  }

  lemma SameTotals(was: seq<seq<Item>>, shards: seq<seq<Item>>, i: nat)
    requires i < |was| == |shards| && shards == was[i := shards[i]]
    ensures Total(shards, i) == Total(was, i)
  {
    assert shards[..i] == was[..i];
  }

  lemma AllTotal(shards: seq<seq<Item>>)
    ensures Total(shards, |shards|) == |Flat(shards)|
  {
    assert shards[..|shards|] == shards;
  }

  /** No shard has more items than there are. */
  lemma ShardBound(shards: seq<seq<Item>>, i: nat)
    requires i < |shards|
    ensures |shards[i]| <= |Flat(shards)|
  {
    TotalNext(shards, i);
    TotalBound(shards, i + 1);
  }

  const MANY: nat := (LIMIT + 2 * PAIR) / PAIR - 17

  /** With this many keys in sixteen shards the size has passed 32 bits: the buffer made for it is far too short. */
  method SizeWraps() returns (t: Store, panicked: bool)
    ensures t.Valid() && t.clean && t.puts == MANY && panicked
  {
    hide Flat, Placed, Tracks, Sorted, HasKey, ShardOf, Sized;
    t := new Store();
    t.InitWriter(1);
    assert |Flat(t.shards)| <= 0 by { FlatWithin(t); }
    for i := 0 to MANY
      invariant t.Valid() && fresh(t) && t.count == 16 && t.length == 1 && t.data == null
      invariant t.puts == i == |Flat(t.shards)|
      invariant t.clean && forall k :: k in t.m ==> k < i
    {
      Remainder(i, 16);
      ghost var sid, was := ShardOf(i, 16), t.shards;
      FlatUpdate(was, sid, was[sid] + [Item(i, 0)]);
      assert !HasKey(was[sid], i) by { NewKey(t, i); }
      t.Add(i, 0);
    }
    forall i | 0 <= i < |t.shards| ensures |t.shards[i]| < LIMIT {
      ShardBound(t.shards, i);
    }
    assert t.size == Announced(16, MANY) % LIMIT == 2 * PAIR by { FlatWithin(t); }
    var ok;
    ok, panicked := t.Serialize();
  }

  lemma FlatWithin(t: Store)
    requires t.Valid()
    ensures |Flat(t.shards)| <= t.puts && (t.count > 0 ==> t.size == Announced(t.count, t.puts) % LIMIT)
  {
  }

  lemma NewKey(t: Store, k: nat)
    requires t.Valid() && t.clean && k !in t.m && t.count > 0
    ensures !HasKey(t.shards[ShardOf(k, t.count)], k)
  {
    HeldKey(t.shards, t.m, k);
  }
}
