/**
 The open-addressing table of a cache shard: sixteen-slot groups of control
 bytes, probed group by group from a start chosen by the key.  Slot `s` of
 group `g` is position `16 * g + s`.
 */
module VmTable {
  import opened VmBytes
  import opened VmArena

  const GROUP: nat := 16
  const MAX_LOAD: nat := 14
  const EMPTY: int := -128
  const TOMB: int := -2

  /** The low eight bytes of the digest that serves as key, most significant first. */
  function KeyLow(k: Key): (l: nat)
    ensures l < 0x1_0000_0000_0000_0000
  {
    FromBytes(k[8], k[9], k[10], k[11]) * 0x1_0000_0000 + FromBytes(k[12], k[13], k[14], k[15])
  }

  function H1(l: nat): nat { l / 0x80 }

  function H2(l: nat): (h: nat)
    ensures h < 0x80
  {
    l % 0x80
  }

  /** Multiplicative range reduction: always a valid group. */
  function FastModN(x: uint32, n: nat): (r: nat)
    requires n > 0
    ensures r < n
  {
    assert x * n < 0x1_0000_0000 * n;
    x * n / 0x1_0000_0000
  }

  function ProbeStart(l: nat, n: nat): (g: nat)
    requires n > 0
    ensures g < n
  {
    FastModN(H1(l) % 0x1_0000_0000, n)
  }

  function NextGroup(g: nat, n: nat): nat {
    if g + 1 >= n then 0 else g + 1
  }

  /** Groups needed for `sz` entries at the maximum load. */
  function NumGroups(sz: nat): (n: nat)
    ensures n > 0 && sz <= n * 14 && (n > 1 ==> (n - 1) * 14 < sz)
  {
    var n := (sz + MAX_LOAD - 1) / MAX_LOAD;
    if n == 0 then 1 else n
  }

  /** Nothing of the low half of the digest is lost: seven bits mark the slot, the others choose the start. */
  lemma HashSplit(k: Key)
    ensures k[8..12] == WordBytes(KeyLow(k) / 0x1_0000_0000) && k[12..16] == WordBytes(KeyLow(k) % 0x1_0000_0000)
    ensures KeyLow(k) == 0x80 * H1(KeyLow(k)) + H2(KeyLow(k))
  {
    BytesOfWord(k[8], k[9], k[10], k[11]);
    BytesOfWord(k[12], k[13], k[14], k[15]);
    var high, low := FromBytes(k[8], k[9], k[10], k[11]), FromBytes(k[12], k[13], k[14], k[15]);
    hide FromBytes, WordBytes;
    Parts(high, 0x1_0000_0000, low);
  }

  /** The start scales the hash, cut to 32 bits, to the number of groups, so it spreads evenly over them. */
  lemma StartScaled(l: nat, n: nat)
    requires n > 0
    ensures var x, g := l / 0x80 % 0x1_0000_0000, ProbeStart(l, n);
            g * 0x1_0000_0000 <= x * n < (g + 1) * 0x1_0000_0000
  {
  }

  ghost predicate NoEmpty(ctrl: seq<int>, g: int) {
    forall i :: 0 <= i < |ctrl| && i / GROUP == g ==> ctrl[i] != EMPTY
  }

  /** Probing from `start` visits group `x` before it reaches group `g`. */
  ghost predicate Passed(start: int, g: int, x: int) {
    if start <= g then start <= x < g else start <= x || x < g
  }

  /** Every group probed before `g` is full, so a search from `start` gets as far as `g`. */
  ghost predicate Reaches(ctrl: seq<int>, n: nat, start: int, g: int) {
    forall x :: 0 <= x < n && Passed(start, g, x) ==> NoEmpty(ctrl, x)
  }

  ghost predicate SlotOk(n: nat, ctrl: seq<int>, c: Cell, i: nat, slotOf: map<Key, nat>)
    requires n > 0 && i < |ctrl|
  {
    if c.Live? then
      && ctrl[i] == H2(KeyLow(c.key))
      && c.key in slotOf && slotOf[c.key] == i
      && Reaches(ctrl, n, ProbeStart(KeyLow(c.key), n), i / GROUP)
    else
      ctrl[i] == EMPTY || ctrl[i] == TOMB
  }

  ghost predicate KeyOk(cells: seq<Cell>, slotOf: map<Key, nat>, k: Key)
    requires k in slotOf
  {
    slotOf[k] < |cells| && cells[slotOf[k]].Live? && cells[slotOf[k]].key == k
  }

  /** Control bytes, cells and the key index agree, and every key is within reach of its probe. */
  ghost predicate TableOk(n: nat, ctrl: seq<int>, cells: seq<Cell>, slotOf: map<Key, nat>) {
    && n > 0 && |ctrl| == |cells| == GROUP * n
    && (forall i {:trigger SlotOk(n, ctrl, cells[i], i, slotOf)} :: 0 <= i < |ctrl| ==> SlotOk(n, ctrl, cells[i], i, slotOf))
    && (forall k {:trigger KeyOk(cells, slotOf, k)} :: k in slotOf ==> KeyOk(cells, slotOf, k))
  }

  /** The counters: non-empty slots, tombstones, and live keys as their difference. */
  ghost predicate CountsOk(ctrl: seq<int>, slotOf: map<Key, nat>, resident: nat, dead: nat) {
    && resident + multiset(ctrl)[EMPTY] == |ctrl|
    && dead == multiset(ctrl)[TOMB]
    && |slotOf| + dead == resident
  }

  ghost function Without(slotOf: map<Key, nat>, key: Key): (r: map<Key, nat>)
    ensures forall k :: k in r <==> k in slotOf && k != key
    ensures forall k :: k in r ==> r[k] == slotOf[k]
    ensures key in slotOf ==> |r| + 1 == |slotOf|
  {
    var r := map k | k in slotOf && k != key :: slotOf[k];
    assert key in slotOf ==> slotOf.Keys == r.Keys + {key};
    r
  }

  /** Under the load limit some slot is empty. */
  lemma SomeEmpty(ctrl: seq<int>, slotOf: map<Key, nat>, resident: nat, dead: nat, n: nat)
    requires CountsOk(ctrl, slotOf, resident, dead)
    requires |ctrl| == GROUP * n && n > 0 && resident <= MAX_LOAD * n
    ensures exists i :: 0 <= i < |ctrl| && ctrl[i] == EMPTY
  {
    assert multiset(ctrl)[EMPTY] > 0;
    assert EMPTY in ctrl;
  }

  lemma ReachesUpdate(ctrl: seq<int>, n: nat, start: int, g: int, i: nat, v: int)
    requires Reaches(ctrl, n, start, g) && i < |ctrl|
    requires v != EMPTY || !NoEmpty(ctrl, i / GROUP)
    ensures Reaches(ctrl[i := v], n, start, g)
  {
    var ctrl' := ctrl[i := v];
    forall x | 0 <= x < n && Passed(start, g, x)
      ensures NoEmpty(ctrl', x)
    {
      assert NoEmpty(ctrl, x);
    }
  }

  /** A new key takes an empty slot of the first group on its probe that has one. */
  lemma TableInsert(n: nat, ctrl: seq<int>, cells: seq<Cell>, slotOf: map<Key, nat>, i: nat, c: Cell,
                    resident: nat, dead: nat)
    requires TableOk(n, ctrl, cells, slotOf) && CountsOk(ctrl, slotOf, resident, dead)
    requires i < |ctrl| && ctrl[i] == EMPTY && c.Live? && c.key !in slotOf
    requires Reaches(ctrl, n, ProbeStart(KeyLow(c.key), n), i / GROUP)
    ensures TableOk(n, ctrl[i := H2(KeyLow(c.key))], cells[i := c], slotOf[c.key := i])
    ensures CountsOk(ctrl[i := H2(KeyLow(c.key))], slotOf[c.key := i], resident + 1, dead)
  {
    var ctrl' := ctrl[i := H2(KeyLow(c.key))];
    var cells' := cells[i := c];
    var slotOf' := slotOf[c.key := i];
    forall j | 0 <= j < |ctrl'|
      ensures SlotOk(n, ctrl', cells'[j], j, slotOf')
    {
      assert SlotOk(n, ctrl, cells[j], j, slotOf);
      if cells'[j].Live? {
        ReachesUpdate(ctrl, n, ProbeStart(KeyLow(cells'[j].key), n), j / GROUP, i, ctrl'[i]);
      }
    }
    forall k | k in slotOf'
      ensures KeyOk(cells', slotOf', k)
    {
      if k != c.key {
        assert KeyOk(cells, slotOf, k);
        assert SlotOk(n, ctrl, cells[i], i, slotOf);
      }
    }
  }

  /** A record changes under the same key. */
  lemma TableUpdate(n: nat, ctrl: seq<int>, cells: seq<Cell>, slotOf: map<Key, nat>, i: nat, c: Cell)
    requires TableOk(n, ctrl, cells, slotOf)
    requires i < |cells| && cells[i].Live? && c.Live? && c.key == cells[i].key
    ensures TableOk(n, ctrl, cells[i := c], slotOf)
  {
    var cells' := cells[i := c];
    forall j | 0 <= j < |ctrl|
      ensures SlotOk(n, ctrl, cells'[j], j, slotOf)
    {
      assert SlotOk(n, ctrl, cells[j], j, slotOf);
    }
    forall k | k in slotOf
      ensures KeyOk(cells', slotOf, k)
    {
      assert KeyOk(cells, slotOf, k);
    }
  }

  /** A live slot becomes a tombstone, or empty when its group already has an empty slot. */
  lemma TableRemove(n: nat, ctrl: seq<int>, cells: seq<Cell>, slotOf: map<Key, nat>, i: nat, v: int,
                    resident: nat, dead: nat)
    requires TableOk(n, ctrl, cells, slotOf) && CountsOk(ctrl, slotOf, resident, dead)
    requires i < |cells| && cells[i].Live?
    requires v == TOMB || (v == EMPTY && !NoEmpty(ctrl, i / GROUP))
    ensures TableOk(n, ctrl[i := v], cells[i := Free], Without(slotOf, cells[i].key))
    ensures v == TOMB ==> CountsOk(ctrl[i := v], Without(slotOf, cells[i].key), resident, dead + 1)
    ensures v == EMPTY ==> resident > 0 && CountsOk(ctrl[i := v], Without(slotOf, cells[i].key), resident - 1, dead)
  {
    var ctrl' := ctrl[i := v];
    var cells' := cells[i := Free];
    var slotOf' := Without(slotOf, cells[i].key);
    assert SlotOk(n, ctrl, cells[i], i, slotOf);
    forall j | 0 <= j < |ctrl'|
      ensures SlotOk(n, ctrl', cells'[j], j, slotOf')
    {
      assert SlotOk(n, ctrl, cells[j], j, slotOf);
      if cells'[j].Live? {
        ReachesUpdate(ctrl, n, ProbeStart(KeyLow(cells'[j].key), n), j / GROUP, i, v);
      }
    }
    forall k | k in slotOf'
      ensures KeyOk(cells', slotOf', k)
    {
      assert KeyOk(cells, slotOf, k);
    }
  }

  lemma KeyReached(n: nat, ctrl: seq<int>, cells: seq<Cell>, slotOf: map<Key, nat>, key: Key)
    requires TableOk(n, ctrl, cells, slotOf) && key in slotOf
    ensures var i := slotOf[key];
            && i < |cells| && cells[i].Live? && cells[i].key == key
            && Reaches(ctrl, n, ProbeStart(KeyLow(key), n), i / GROUP)
  {
    assert KeyOk(cells, slotOf, key);
    assert SlotOk(n, ctrl, cells[slotOf[key]], slotOf[key], slotOf);
  }

  /** Probing that has passed only full groups without `key` and meets a group with an empty slot proves absence. */
  lemma ProbeMiss(n: nat, ctrl: seq<int>, cells: seq<Cell>, slotOf: map<Key, nat>, key: Key, g: nat)
    requires TableOk(n, ctrl, cells, slotOf) && g < n && !NoEmpty(ctrl, g)
    requires forall i :: 0 <= i < |cells| && cells[i].Live? && cells[i].key == key ==>
               i / GROUP != g && !Passed(ProbeStart(KeyLow(key), n), g, i / GROUP)
    ensures key !in slotOf
  {
    if key in slotOf {
      KeyReached(n, ctrl, cells, slotOf, key);
      assert false;
    }
  }
}
