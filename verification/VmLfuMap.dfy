/** One shard of the cache: lookups, updates, deletion, rehashing, copying collection and eviction. */
module VmLfuMap {
  import opened VmBytes
  import opened VmArena
  import opened VmLayout
  import opened VmTable
  import opened VmShardState
  import opened VmHolder
  import opened VmCopy
  import opened VmMinTop

  const MAX_COUNT: nat := 200

  /** What a lookup hands back: nothing, a private copy, or a window onto the arena itself. */
  datatype Lookup = Miss | Copied(bytes: seq<byte>) | Lent(buf: KvHolder, off: nat, len: nat)

  /** The bytes of a lookup's result in the current state. */
  ghost predicate Reads(r: Lookup, v: seq<byte>)
    reads if r.Lent? then {r.buf.data} else {}
  {
    match r
    case Miss => false
    case Copied(bytes) => bytes == v
    case Lent(buf, off, len) => off + len <= buf.data.Length && buf.data[off..off + len] == v
  }

  /** No frozen byte of the arena has changed. */
  twostate predicate FrozenKept(h: KvHolder, frozen: set<int>)
    reads h.data
  {
    forall p :: p in frozen && 0 <= p < h.data.Length ==> h.data[p] == old(h.data[p])
  }

  /** A value rewritten where it is: a short record with room for a short value. */
  ghost predicate InPlace(c: Cell, v: seq<byte>) {
    c.Live? && c.kind == Short && |v| < OVER_SHORT && |v| <= c.cap
  }

  /** The tail after giving record `c` the value `v`. */
  ghost function TailAfter(c: Cell, v: seq<byte>, tail: nat, slack: nat): nat {
    if InPlace(c, v) then tail else tail + (if |v| >= OVER_LONG then slack else 0) + ValueCap(|v|)
  }

  /** An empty value sent to the very end of a full 64MB arena: its offset no longer fits 24 bits. */
  ghost predicate OffsetOverflows(c: Cell, v: seq<byte>, tail: nat) {
    c.Live? && v == [] && c.kind != Short && tail == MAX_ARENA
  }

  ghost predicate HolderLinked(h: KvHolder, s: Shard)
    reads h, h.data
  {
    && h.data[..] == s.d && h.tail == s.tail && h.cap == s.cap && h.valUsed == s.valUsed
    && h.items == s.items && h.frozen == s.frozen
  }

  lemma {:induction false} AllEmptyCount(ctrl: seq<int>)
    requires forall i :: 0 <= i < |ctrl| ==> ctrl[i] == EMPTY
    ensures multiset(ctrl)[EMPTY] == |ctrl| && multiset(ctrl)[TOMB] == 0
  {
    if ctrl != [] {
      var m := |ctrl| - 1;
      assert ctrl == ctrl[..m] + [ctrl[m]];
      AllEmptyCount(ctrl[..m]);
    }
  }

  lemma {:induction false} AllFreeCaps(cells: seq<Cell>)
    requires forall i :: 0 <= i < |cells| ==> !cells[i].Live?
    ensures SumCaps(cells) == 0
  {
    if cells != [] {
      AllFreeCaps(cells[..|cells| - 1]);
    }
  }

  /** A table of empty slots over an unused arena satisfies the invariant. */
  lemma EmptyShard(s: Shard)
    requires s.n > 0 && |s.ctrl| == |s.idx| == |s.cells| == GROUP * s.n
    requires forall i :: 0 <= i < |s.ctrl| ==> s.ctrl[i] == EMPTY
    requires forall i :: 0 <= i < |s.cells| ==> !s.cells[i].Live?
    requires s.slotOf == map[] && s.resident == s.dead == s.valUsed == s.items == 0 && s.frozen == {}
    requires s.tail == BUFFER_SIZE && s.cap <= MAX_ARENA && |s.d| == BUFFER_SIZE + s.cap
    ensures ShardOk(s) && Contents(s) == map[]
  {
    AllEmptyCount(s.ctrl);
    AllFreeCaps(s.cells);
  }

  lemma SlotFacts(s: Shard, i: nat)
    requires ShardOk(s) && i < |s.cells| && s.cells[i].Live?
    ensures |s.ctrl| == |s.idx| == |s.cells|
    ensures s.tail <= |s.d| && s.tail % 4 == 0 && (s.tail <= s.cap || s.tail == BUFFER_SIZE)
    ensures Holds(s.d, s.tail, s.idx[i], s.cells[i])
  {
  }

  /** The words an in-place write reads and writes. */
  lemma ShortFacts(c: Cell, d: seq<byte>, tail: nat, ki: uint32, v: seq<byte>)
    requires c.Live? && tail <= |d| && Holds(d, tail, ki, c) && InPlace(c, v)
    ensures Offset(ki) * 4 == c.kOff && c.kOff + RECORD_SIZE <= |d| && c.vOff + |v| <= |d|
    ensures var h := LoadWord(d, c.kOff + KEY_SIZE);
            && Offset(h) * 4 == c.vOff
            && Offset(h) + |v| * OFFSET_WORDS < 0x1_0000_0000
            && Offset(h) + |v| * OFFSET_WORDS == HeaderWord(c.vOff, Short, |v|)
  {
    IndexWordFields(c, tail);
    HeaderWordFields(c, tail);
    HeaderRoundTrip(c.vOff / 4, |v|);
  }

  lemma FrozenUntouched(s: Shard, d': seq<byte>, i: nat, v: seq<byte>)
    requires ShardOk(s) && i < |s.cells| && s.cells[i].Live? && |v| < 0x1_0000_0000
    requires Relocated(s.d, d', s.tail, s.cells[i].kOff, v)
    ensures forall p :: p in s.frozen ==> 0 <= p < |s.d| == |d'| && d'[p] == s.d[p]
  {
    RelocatedSame(s.d, d', s.tail, s.cells[i].kOff, v);
    forall p | p in s.frozen ensures 0 <= p < |s.d| && d'[p] == s.d[p] {
      assert !Writable(s.cells[i], p);
    }
  }

  /** What an update reads off the index word of the record it rewrites. */
  lemma RewriteFacts(s: Shard, i: nat, v: seq<byte>)
    requires ShardOk(s) && i < |s.cells| && s.cells[i].Live?
    ensures |s.ctrl| == |s.idx| == |s.cells| && s.tail % 4 == 0
    ensures Readable(s.d, s.idx[i]) && UpdateRefund(s.d, s.idx[i]) <= s.cells[i].cap
    ensures InPlace(s.cells[i], v) <==>
              |v| < OVER_SHORT && ValType(s.idx[i]) == 0 && |v| <= CapOrBigSize(s.idx[i]) * 4
    ensures ValueCap(|v|) % 4 == 0
    ensures OffsetOverflows(s.cells[i], v, s.tail) ==>
              |v| < OVER_LONG && s.tail + ValueCap(|v|) <= s.cap && !InPlace(s.cells[i], v)
  {
    hide ShardOk, Readable, UpdateRefund, Placed, Stored;
    SlotFacts(s, i);
    ReadStored(s.cells[i], s.d, s.tail, s.idx[i]);
    RefundBound(s.cells[i], s.d, s.tail, s.idx[i]);
  }

  lemma RemovedMinus(m: map<Key, seq<byte>>, gone: set<Key>, key: Key)
    ensures Removed(m - gone, key) == m - (gone + {key})
  {
  }

  lemma UnchangedRemoved(m: map<Key, seq<byte>>, key: Key)
    requires key !in m
    ensures Removed(m, key) == m
  {
  }

  lemma KindFacts(s: Shard, key: Key)
    requires ShardOk(s)
    ensures key in s.slotOf ==>
              && s.slotOf[key] < |s.cells| && s.cells[s.slotOf[key]].Live? && key in Contents(s)
              && (s.cells[s.slotOf[key]].kind != Short <==> |Contents(s)[key]| >= OVER_SHORT)
  {
    KeyFacts(s, key);
  }

  lemma FreezeGrows(frozen: set<int>, c: Cell)
    requires c.Live?
    ensures frozen <= Freeze(frozen, c)
  {
  }

  /** The words written when a record moves fit 32 bits; the move is sound unless the offset overflows. */
  lemma MoveFacts(s: Shard, i: nat, v: seq<byte>)
    requires ShardOk(s) && i < |s.cells| && s.cells[i].Live? && |v| < 0x1_0000_0000
    requires s.tail + ValueCap(|v|) <= s.cap
    ensures |s.idx| == |s.cells| && s.cells[i].kOff + RECORD_SIZE <= s.tail <= s.cap && |s.d| == s.cap + BUFFER_SIZE
    ensures Offset(s.idx[i]) * 4 == s.cells[i].kOff
    ensures IndexWord(s.cells[i].kOff, KindOf(|v|), ValueCap(|v|), |v|) < 0x1_0000_0000
    ensures HeaderWord(s.tail, KindOf(|v|), |v|) < 0x1_0000_0000
    ensures s.cells[i].cap <= s.valUsed && s.cells[i].kOff % 4 == 0
    ensures Readable(s.d, s.idx[i]) && UpdateRefund(s.d, s.idx[i]) <= s.cells[i].cap
    ensures !OffsetOverflows(s.cells[i], v, s.tail) && !InPlace(s.cells[i], v) ==> s.tail < MAX_ARENA
  {
    SlotFacts(s, i);
    var c := s.cells[i];
    RefundBound(c, s.d, s.tail, s.idx[i]);
    hide Readable, UpdateRefund;
    IndexWordFields(c, s.tail);
    SumCapsAtLeast(s.cells, i);
    IndexFits(c.kOff, v);
    HeaderFits(s.tail, v);
  }

  lemma IndexFits(kOff: nat, v: seq<byte>)
    requires kOff < MAX_ARENA
    ensures IndexWord(kOff, KindOf(|v|), ValueCap(|v|), |v|) < 0x1_0000_0000
  {
  }

  lemma HeaderFits(vOff: nat, v: seq<byte>)
    requires vOff < MAX_ARENA || (vOff == MAX_ARENA && v == [])
    ensures HeaderWord(vOff, KindOf(|v|), |v|) < 0x1_0000_0000
  {
  }

  /** The record an overflowing offset leaves behind reads as one byte at the start of the arena. */
  lemma OverflowReads(d: seq<byte>, r: seq<byte>, tail: nat, kOff: nat, v: seq<byte>, ki: uint32)
    requires v == [] && tail == MAX_ARENA && Relocated(d, r, tail, kOff, v) && kOff % 4 == 0
    requires ki == IndexWord(kOff, KindOf(|v|), ValueCap(|v|), |v|)
    ensures Readable(r, ki) && ReadExtent(r, ki) == Extent(0, 1)
  {
  }

  /** A control byte tells a live slot by its fingerprint, and the slot's index word leads to its key. */
  lemma MatchFacts(s: Shard, i: nat)
    requires ShardOk(s) && i < |s.cells|
    ensures |s.ctrl| == |s.idx| == |s.cells|
    ensures s.cells[i].Live? <==> s.ctrl[i] >= 0
    ensures !s.cells[i].Live? ==> s.ctrl[i] == EMPTY || s.ctrl[i] == TOMB
    ensures s.cells[i].Live? ==>
              && s.ctrl[i] == H2(KeyLow(s.cells[i].key))
              && s.cells[i].key in s.slotOf && s.slotOf[s.cells[i].key] == i
              && Offset(s.idx[i]) * 4 + KEY_SIZE <= |s.d|
              && ReadKey(s.d, s.idx[i]) == s.cells[i].key
  {
    assert SlotOk(s.n, s.ctrl, s.cells[i], i, s.slotOf);
    if s.cells[i].Live? {
      assert Holds(s.d, s.tail, s.idx[i], s.cells[i]);
      ReadStored(s.cells[i], s.d, s.tail, s.idx[i]);
    }
  }

  lemma InsertedFields(s: Shard, d': seq<byte>, i: nat, ki: uint32, c: Cell)
    requires i < |s.ctrl| && i < |s.idx| && i < |s.cells| && c.Live?
    ensures var s' := Inserted(s, d', i, ki, c);
            && s'.n == s.n && s'.dead == s.dead && s'.cap == s.cap && s'.d == d'
            && s'.ctrl == s.ctrl[i := H2(KeyLow(c.key))] && s'.idx == s.idx[i := ki]
            && s'.slotOf == s.slotOf[c.key := i] && s'.frozen == Freeze(s.frozen, c)
            && s'.tail == s.tail + RECORD_SIZE + c.cap && s'.valUsed == s.valUsed + c.cap && s'.items == s.items + 1
            && s'.cells == s.cells[i := c]
  {
  }

  lemma InsertedResident(s: Shard, d': seq<byte>, i: nat, ki: uint32, c: Cell)
    requires i < |s.ctrl| && i < |s.idx| && i < |s.cells| && c.Live?
    ensures Inserted(s, d', i, ki, c).resident == s.resident + 1
  {
  }

  lemma InsertFacts(s: Shard, key: Key, v: seq<byte>)
    requires ShardOk(s) && s.tail < s.cap * 999 / 1000
    ensures |s.ctrl| == |s.idx| == |s.cells| && s.cap <= MAX_ARENA
    ensures key in Contents(s) <==> key in s.slotOf
    ensures |s.d| == BUFFER_SIZE + s.cap && BUFFER_SIZE <= s.tail && s.tail % 4 == 0
    ensures s.tail + RECORD_SIZE + ValueCap(|v|) <= s.cap ==> s.tail + RECORD_SIZE < MAX_ARENA
  {
    KeyFacts(s, key);
  }

  /** Room for setting `key` to `v` in a packed arena. */
  ghost predicate RoomIn(m: map<Key, seq<byte>>, tail: nat, cap: nat, key: Key, v: seq<byte>) {
    if key in m then
      || (|m[key]| < OVER_SHORT && |v| < OVER_SHORT && |v| <= ValueCap(|m[key]|))
      || tail + (if |v| >= OVER_LONG then 4 else 0) + ValueCap(|v|) <= cap
    else tail + RECORD_SIZE + ValueCap(|v|) <= cap
  }

  /** In a packed shard the room for a key follows from its value alone. */
  lemma PackedRoom(s: Shard, t: Shard, key: Key, v: seq<byte>, cap: nat)
    requires ShardOk(t) && Packed(s, t, |s.cells|)
    ensures key in Contents(t) <==> key in t.slotOf
    ensures key in t.slotOf ==>
              && t.slotOf[key] < |t.cells|
              && (RoomIn(Contents(t), t.tail, cap, key, v) <==>
                  var c := t.cells[t.slotOf[key]]; InPlace(c, v) || TailAfter(c, v, t.tail, 4) <= cap)
  {
    hide ShardOk, Contents, ValueCap;
    KeyFacts(t, key);
    assert FreshAt(t, key);
  }

  lemma PackedTail(s: Shard, t: Shard)
    requires Packed(s, t, |s.cells|)
    ensures t.tail == BUFFER_SIZE + Footprint(s.cells)
  {
    assert s.cells[..|s.cells|] == s.cells;
  }

  /** Every key of `t` keeps the use count it has in `s`. */
  ghost predicate SameUses(s: Shard, u: seq<nat>, t: Shard, w: seq<nat>) {
    forall k {:trigger UsesOf(t, w, k)} :: k in t.slotOf ==> UsesOf(t, w, k) == UsesOf(s, u, k)
  }

  lemma CopyUses(s: Shard, u: seq<nat>, t: Shard, w: seq<nat>, t': Shard, key: Key, i: nat, j: nat)
    requires ShardOk(t) && SameUses(s, u, t, w) && |w| == |t.ctrl|
    requires j < |t.cells| && !t.cells[j].Live? && t'.slotOf == t.slotOf[key := j]
    requires key in s.slotOf && s.slotOf[key] == i < |u|
    ensures |t.cells| == |w| && SameUses(s, u, t', w[j := u[i]])
  {
    hide ShardOk;
    TableSize(t);
    forall k | k in t'.slotOf && k != key
      ensures UsesOf(t', w[j := u[i]], k) == UsesOf(s, u, k)
    {
      KeyFacts(t, k);
      assert UsesOf(t, w, k) == UsesOf(s, u, k);
    }
  }

  lemma CopyStart(s: Shard, t: Shard)
    requires ShardOk(s) && t.n >= s.n && |t.ctrl| == |t.idx| == |t.cells| == GROUP * t.n
    requires forall i :: 0 <= i < |t.ctrl| ==> t.ctrl[i] == EMPTY
    requires forall i :: 0 <= i < |t.cells| ==> !t.cells[i].Live?
    requires t.slotOf == map[] && t.resident == t.dead == t.valUsed == t.items == 0 && t.frozen == {}
    requires t.tail == BUFFER_SIZE && t.cap == s.cap && |t.d| == BUFFER_SIZE + t.cap
    ensures CopyInv(s, t, 0)
  {
    assert t.cap <= MAX_ARENA;
    EmptyShard(t);
  }

  lemma CopyFacts(s: Shard, t: Shard, i: nat)
    requires CopyInv(s, t, i) && i < |s.cells| && s.cells[i].Live?
    ensures |s.idx| == |s.ctrl| == |s.cells| && ShardOk(t) && t.cap == s.cap
    ensures Offset(s.idx[i]) * 4 + KEY_SIZE <= |s.d| && ReadKey(s.d, s.idx[i]) == s.cells[i].key
    ensures Readable(s.d, s.idx[i])
    ensures var e := ReadExtent(s.d, s.idx[i]);
            e.start + e.size <= |s.d| && s.d[e.start..e.start + e.size] == s.cells[i].value
  {
    hide ShardOk, Readable, ReadExtent;
    MatchFacts(s, i);
    KeyFacts(s, s.cells[i].key);
    ReadFacts(s, s.cells[i].key);
  }

  /** There is always room, and an empty slot, for the next record to copy. */
  lemma CopyRoom(s: Shard, t: Shard, i: nat)
    requires CopyInv(s, t, i) && i < |s.cells| && s.cells[i].Live? && s.resident <= MAX_LOAD * s.n
    requires BUFFER_SIZE + s.valUsed + RECORD_SIZE * s.items < MAX_ARENA
    ensures |t.ctrl| == |t.idx| == |t.cells| == GROUP * t.n && t.n > 0
    ensures exists j :: 0 <= j < |t.ctrl| && t.ctrl[j] == EMPTY
    ensures s.cells[i].key !in t.slotOf && |s.cells[i].value| < 0x1_0000_0000
    ensures t.tail + RECORD_SIZE + ValueCap(|s.cells[i].value|) <= t.cap <= MAX_ARENA
    ensures t.tail + RECORD_SIZE < MAX_ARENA && BUFFER_SIZE <= t.tail && t.tail % 4 == 0 && |t.d| == BUFFER_SIZE + t.cap
  {
    CopyFits(s, t, i);
    CopyRoomBounds(s, t);
    assert t.resident <= MAX_LOAD * t.n;
    SomeEmpty(t.ctrl, t.slotOf, t.resident, t.dead, t.n);
  }

  lemma CopyRoomBounds(s: Shard, t: Shard)
    requires ShardOk(s) && ShardOk(t) && t.dead == 0 && |t.slotOf| < |s.slotOf|
    requires s.resident <= MAX_LOAD * s.n && s.n <= t.n && t.cap == s.cap
    ensures t.resident <= MAX_LOAD * t.n && t.tail % 4 == 0 && BUFFER_SIZE <= t.tail
    ensures s.tail <= s.cap || s.tail == BUFFER_SIZE
  {
  }

  /** Records and charged bytes never exceed what was appended, so garbage is never negative. */
  lemma UsageFacts(s: Shard)
    requires ShardOk(s)
    ensures BUFFER_SIZE + s.valUsed + RECORD_SIZE * s.items <= s.tail
    ensures s.items + s.dead == s.resident && s.cap <= MAX_ARENA && (s.tail <= s.cap || s.tail == BUFFER_SIZE)
  {
  }

  lemma DropBounds(s: Shard, i: nat)
    requires ShardOk(s) && i < |s.cells|
    ensures |s.ctrl| == |s.idx| == |s.cells| == GROUP * s.n
    ensures s.cells[i].Live? ==> s.items > 0 && s.resident > 0
  {
    if s.cells[i].Live? {
      LiveCounted(s, i);
    }
  }

  /** Reading a key's record back yields the value the shard stands for; long values lie in frozen bytes. */
  lemma ReadFacts(s: Shard, key: Key)
    requires ShardOk(s) && key in s.slotOf
    ensures key in Contents(s) && s.slotOf[key] < |s.idx| == |s.ctrl|
    ensures var ki := s.idx[s.slotOf[key]];
            && Readable(s.d, ki)
            && var e := ReadExtent(s.d, ki);
               && e.start + e.size <= |s.d|
               && s.d[e.start..e.start + e.size] == Contents(s)[key]
               && (ValType(ki) != 0 ==> forall p :: e.start <= p < e.start + e.size ==> p in s.frozen)
  {
    hide ShardOk, Contents, Readable, ReadExtent, Refers, ValueCap;
    KeyFacts(s, key);
    var i := s.slotOf[key];
    var c := s.cells[i];
    ReadStored(c, s.d, s.tail, s.idx[i]);
    ValueFrozen(s, i);
    forall p | c.vOff <= p < c.vOff + c.cap && c.kind != Short ensures p in s.frozen {
      assert InValue(c, p);
    }
  }

  lemma ValueFrozen(s: Shard, i: nat)
    requires ShardOk(s) && i < |s.cells|
    ensures forall p :: InValue(s.cells[i], p) ==> p in s.frozen
  {
  }

  // ---------- Eviction step by step ----------

  ghost predicate Taken(items: seq<Item>, i: nat, q: nat) {
    exists j :: 0 <= j < i && j < |items| && items[j].slot == q
  }

  /** `s` is `s0` after evicting the first `i` selected slots, whose keys are `gone`. */
  ghost predicate Evicting(s0: Shard, s: Shard, items: seq<Item>, i: nat, gone: set<Key>, u0: seq<nat>, u: seq<nat>) {
    && |u| == |u0| == |s0.cells| == |s.cells| && |gone| == i <= |items|
    && (forall k {:trigger k in s.slotOf} :: k in s.slotOf <==> k in s0.slotOf && k !in gone)
    && (forall k {:trigger s.slotOf[k]} :: k in s.slotOf ==> s.slotOf[k] == s0.slotOf[k])
    && (forall q {:trigger Taken(items, i, q)} :: 0 <= q < |u| ==>
          if Taken(items, i, q) then !s.cells[q].Live? else s.cells[q] == s0.cells[q] && u[q] == u0[q])
    && (forall k {:trigger k in gone} :: k in gone ==> k in s0.slotOf && Taken(items, i, s0.slotOf[k]))
  }

  ghost predicate DistinctSlots(items: seq<Item>) {
    forall j, k :: 0 <= j < k < |items| ==> items[j].slot != items[k].slot
  }

  /** The next selected slot still holds its record. */
  lemma EvictNext(s0: Shard, s: Shard, items: seq<Item>, i: nat, gone: set<Key>, u0: seq<nat>, u: seq<nat>)
    requires Evicting(s0, s, items, i, gone, u0, u) && ShardOk(s0) && ShardOk(s) && i < |items|
    requires DistinctSlots(items) && items[i].slot < |s0.cells| && s0.cells[items[i].slot].Live?
    ensures var q := items[i].slot;
            && q < |s.idx| == |s.cells| == |s.ctrl| && s.cells[q] == s0.cells[q]
            && Readable(s.d, s.idx[q]) && DeleteRefund(s.d, s.idx[q]) <= s.cells[q].cap
            && s0.cells[q].key in s0.slotOf && s0.slotOf[s0.cells[q].key] == q && s0.cells[q].key !in gone
  {
    hide ShardOk, Readable, DeleteRefund;
    var q := items[i].slot;
    assert !Taken(items, i, q);
    MatchFacts(s0, q);
    SlotFacts(s, q);
    RefundBound(s.cells[q], s.d, s.tail, s.idx[q]);
  }

  lemma EvictStep(s0: Shard, s: Shard, items: seq<Item>, i: nat, gone: set<Key>, u0: seq<nat>, u: seq<nat>,
                  s': Shard, u': seq<nat>)
    requires Evicting(s0, s, items, i, gone, u0, u) && i < |items| && items[i].slot < |s0.cells|
    requires var q := items[i].slot;
             && s0.cells[q].Live? && s0.cells[q].key in s0.slotOf && s0.slotOf[s0.cells[q].key] == q
             && s0.cells[q].key !in gone
             && s'.slotOf == Without(s.slotOf, s0.cells[q].key)
             && s'.cells == s.cells[q := Free] && u' == u[q := 0]
    ensures Evicting(s0, s', items, i + 1, gone + {s0.cells[items[i].slot].key}, u0, u')
  {
    hide Taken, Without;
    var q := items[i].slot;
    var key := s0.cells[q].key;
    WithoutKeys(s.slotOf, key);
    EvictSlots(s0.cells, s.cells, items, i, u0, u, q);
    EvictKeys(s0.slotOf, s.slotOf, s'.slotOf, gone, key);
    EvictGone(s0.slotOf, items, i, gone, key);
  }

  lemma EvictKeys(slotOf0: map<Key, nat>, slotOf: map<Key, nat>, slotOf': map<Key, nat>, gone: set<Key>, key: Key)
    requires forall k {:trigger k in slotOf} :: k in slotOf <==> k in slotOf0 && k !in gone
    requires forall k {:trigger slotOf[k]} :: k in slotOf ==> slotOf[k] == slotOf0[k]
    requires forall k {:trigger k in slotOf'} :: k in slotOf' <==> k in slotOf && k != key
    requires forall k {:trigger slotOf'[k]} :: k in slotOf' ==> slotOf'[k] == slotOf[k]
    requires key !in gone
    ensures |gone + {key}| == |gone| + 1
    ensures forall k {:trigger k in slotOf'} :: k in slotOf' <==> k in slotOf0 && k !in gone + {key}
    ensures forall k {:trigger slotOf'[k]} :: k in slotOf' ==> slotOf'[k] == slotOf0[k]
  {
  }

  lemma EvictGone(slotOf0: map<Key, nat>, items: seq<Item>, i: nat, gone: set<Key>, key: Key)
    requires i < |items| && key in slotOf0 && slotOf0[key] == items[i].slot
    requires forall k {:trigger k in gone} :: k in gone ==> k in slotOf0 && Taken(items, i, slotOf0[k])
    ensures forall k {:trigger k in gone + {key}} :: k in gone + {key} ==> k in slotOf0 && Taken(items, i + 1, slotOf0[k])
  {
    hide Taken;
    forall k | k in gone + {key} ensures k in slotOf0 && Taken(items, i + 1, slotOf0[k]) {
      TakenNext(items, i, slotOf0[k]);
    }
  }

  lemma EvictSlots(cells0: seq<Cell>, cells: seq<Cell>, items: seq<Item>, i: nat, u0: seq<nat>, u: seq<nat>, q: nat)
    requires |u| == |u0| == |cells0| == |cells| && i < |items| && q == items[i].slot < |u|
    requires forall p {:trigger Taken(items, i, p)} :: 0 <= p < |u| ==>
               if Taken(items, i, p) then !cells[p].Live? else cells[p] == cells0[p] && u[p] == u0[p]
    ensures forall p {:trigger Taken(items, i + 1, p)} :: 0 <= p < |u| ==>
              if Taken(items, i + 1, p) then !cells[q := Free][p].Live?
              else cells[q := Free][p] == cells0[p] && u[q := 0][p] == u0[p]
  {
    hide Taken;
    forall p {:trigger Taken(items, i + 1, p)} | 0 <= p < |u|
      ensures if Taken(items, i + 1, p) then !cells[q := Free][p].Live?
              else cells[q := Free][p] == cells0[p] && u[q := 0][p] == u0[p]
    {
      TakenNext(items, i, p);
    }
  }

  lemma WithoutKeys(m: map<Key, nat>, key: Key)
    ensures forall k {:trigger k in Without(m, key)} :: k in Without(m, key) <==> k in m && k != key
    ensures forall k {:trigger Without(m, key)[k]} :: k in Without(m, key) ==> Without(m, key)[k] == m[k]
  {
  }

  lemma TakenNext(items: seq<Item>, i: nat, q: nat)
    requires i < |items|
    ensures Taken(items, i + 1, q) <==> Taken(items, i, q) || items[i].slot == q
  {
  }

  /** Selected slots hold records. */
  lemma SelectedLive(s: Shard, items: seq<Item>, values: seq<nat>, want: nat)
    requires ShardOk(s) && |values| == |s.ctrl| && Selection(multiset(items), s.ctrl, values, |s.ctrl|, want)
    ensures DistinctSlots(items) && |items| <= want
    ensures forall j :: 0 <= j < |items| ==>
              && items[j].slot < |s.cells| == |values| && s.cells[items[j].slot].Live?
              && items[j].value == values[items[j].slot]
  {
    hide ShardOk;
    TableSize(s);
    SelectedSlots(items, s.ctrl, values, want);
    assert |multiset(items)| == |items|;
    forall j | 0 <= j < |items|
      ensures items[j].slot < |s.cells| == |values| && s.cells[items[j].slot].Live?
      ensures items[j].value == values[items[j].slot]
    {
      assert Candidate(items[j], s.ctrl, values, |s.ctrl|);
      MatchFacts(s, items[j].slot);
    }
  }

  /** When every selected slot is gone, what stays is used at least as much as anything that left. */
  lemma EvictDone(s0: Shard, s: Shard, items: seq<Item>, gone: set<Key>, u0: seq<nat>, u: seq<nat>, want: nat, top: nat)
    requires Evicting(s0, s, items, |items|, gone, u0, u) && ShardOk(s0) && ShardOk(s)
    requires |u0| == |s0.ctrl| && Selection(multiset(items), s0.ctrl, u0, |s0.ctrl|, want)
    requires forall j :: 0 <= j < |items| ==> items[j].value <= top
    ensures forall k :: k in s.slotOf ==>
              k in s0.slotOf && s.slotOf[k] == s0.slotOf[k] < |u0| == |u| && u[s.slotOf[k]] == u0[s0.slotOf[k]]
    ensures forall k, e :: k in s.slotOf && e in gone ==>
              e in s0.slotOf && s0.slotOf[e] < |u0| && u0[s0.slotOf[e]] <= u0[s0.slotOf[k]]
    ensures forall e :: e in gone ==> e in s0.slotOf && s0.slotOf[e] < |u0| && u0[s0.slotOf[e]] <= top
    ensures |items| < want ==> s.slotOf == map[]
  {
    hide ShardOk, Selection;
    SelectedLive(s0, items, u0, want);
    forall k | k in s.slotOf
      ensures k in s0.slotOf && s.slotOf[k] == s0.slotOf[k] < |u0| && u[s.slotOf[k]] == u0[s0.slotOf[k]]
      ensures |items| == want && forall j :: 0 <= j < |items| ==> items[j].value <= u0[s0.slotOf[k]]
    {
      StillThere(s0, s, items, gone, u0, u, k);
      MatchFacts(s0, s0.slotOf[k]);
      SelectedLeast(items, s0.ctrl, u0, want, s0.slotOf[k]);
    }
    forall e | e in gone
      ensures e in s0.slotOf && s0.slotOf[e] < |u0|
      ensures exists j :: 0 <= j < |items| && items[j].slot == s0.slotOf[e] && items[j].value == u0[s0.slotOf[e]]
    {
      assert Taken(items, |items|, s0.slotOf[e]);
    }
  }

  lemma StillThere(s0: Shard, s: Shard, items: seq<Item>, gone: set<Key>, u0: seq<nat>, u: seq<nat>, k: Key)
    requires Evicting(s0, s, items, |items|, gone, u0, u) && ShardOk(s0) && ShardOk(s) && k in s.slotOf
    requires forall j :: 0 <= j < |items| ==> items[j].slot < |s.cells|
    requires forall j :: 0 <= j < |items| ==> s0.cells[items[j].slot].Live?
    ensures k in s0.slotOf && s.slotOf[k] == s0.slotOf[k] < |u0| && s0.cells[s0.slotOf[k]].Live?
    ensures forall j :: 0 <= j < |items| ==> items[j].slot != s0.slotOf[k]
    ensures u[s.slotOf[k]] == u0[s0.slotOf[k]]
  {
    hide ShardOk;
    KeyFacts(s, k);
    assert !Taken(items, |items|, s.slotOf[k]);
  }

  lemma SameKeys(s: Shard)
    requires ShardOk(s)
    ensures Contents(s).Keys == s.slotOf.Keys
  {
    forall k ensures k in Contents(s) <==> k in s.slotOf {
      KeyFacts(s, k);
    }
  }

  ghost function UsesOf(s: Shard, u: seq<nat>, key: Key): nat {
    if key in s.slotOf && s.slotOf[key] < |u| then u[s.slotOf[key]] else 0
  }

  /** Eviction in terms of keys: who leaves, who stays, and how the counters of those who stay age. */
  lemma EvictMeaning(s0: Shard, s: Shard, items: seq<Item>, gone: set<Key>, u0: seq<nat>, u: seq<nat>, u': seq<nat>,
                     want: nat, top: nat)
    requires Evicting(s0, s, items, |items|, gone, u0, u) && ShardOk(s0) && ShardOk(s)
    requires |u0| == |s0.ctrl| && Selection(multiset(items), s0.ctrl, u0, |s0.ctrl|, want)
    requires forall j :: 0 <= j < |items| ==> items[j].value <= top
    requires |u'| == |u| && forall i :: 0 <= i < |u| ==> u'[i] == if u[i] > top then u[i] - top else 0
    ensures gone <= Contents(s0).Keys && |gone| == |items| <= want
    ensures |items| < want ==> Contents(s) == map[]
    ensures forall k, e :: k in Contents(s) && e in gone ==> UsesOf(s0, u0, e) <= UsesOf(s0, u0, k)
    ensures forall e :: e in gone ==> UsesOf(s0, u0, e) <= top
    ensures forall k :: k in Contents(s) ==>
              UsesOf(s, u', k) == if UsesOf(s0, u0, k) > top then UsesOf(s0, u0, k) - top else 0
  {
    hide ShardOk, Selection, Contents;
    EvictDone(s0, s, items, gone, u0, u, want, top);
    SelectedLive(s0, items, u0, want);
    SameKeys(s0);
    SameKeys(s);
    if |items| < want {
      assert Contents(s).Keys == {};
    }
  }

  /** The aging level is the use count of a key that left. */
  lemma TopLeft(s0: Shard, s: Shard, items: seq<Item>, gone: set<Key>, u0: seq<nat>, u: seq<nat>)
    requires Evicting(s0, s, items, |items|, gone, u0, u) && ShardOk(s0) && ShardOk(s) && items != []
    requires items[0].slot < |s0.cells| && s0.cells[items[0].slot].Live? && items[0].value == u0[items[0].slot]
    ensures exists e :: e in gone && UsesOf(s0, u0, e) == items[0].value
  {
    hide ShardOk;
    var q := items[0].slot;
    assert Taken(items, |items|, q);
    MatchFacts(s0, q);
    var e := s0.cells[q].key;
    KeyFacts(s, e);
    assert e in gone && UsesOf(s0, u0, e) == items[0].value;
  }

  // ---------- Use counters ----------

  function Bumped(count: nat): nat { if count < MAX_COUNT then count + 1 else count }

  /** Keys other than `key` keep their use counts. */
  ghost predicate OthersKept(s: Shard, u: seq<nat>, t: Shard, w: seq<nat>, key: Key) {
    forall k {:trigger UsesOf(t, w, k)} :: k in t.slotOf && k != key ==> UsesOf(t, w, k) == UsesOf(s, u, k)
  }

  /** A lookup of `key` bumps its use count and no other. */
  ghost predicate UsedOnce(s: Shard, u: seq<nat>, w: seq<nat>, key: Key) {
    && OthersKept(s, u, s, w, key)
    && (key in s.slotOf ==>
          UsesOf(s, w, key) == if UsesOf(s, u, key) < 200 then UsesOf(s, u, key) + 1 else UsesOf(s, u, key))
  }

  /** Setting a key: a new key has been used once, and nothing else changes any count. */
  ghost predicate UsesAfterSet(s: Shard, u: seq<nat>, t: Shard, w: seq<nat>, key: Key) {
    && OthersKept(s, u, t, w, key)
    && (key in t.slotOf ==> UsesOf(t, w, key) == if key in s.slotOf then UsesOf(s, u, key) else 1)
  }

  lemma StillSame(s: Shard, u: seq<nat>)
    ensures SameUses(s, u, s, u)
  {
  }

  lemma SetAfterCopy(s: Shard, u: seq<nat>, t: Shard, w: seq<nat>, x: Shard, y: seq<nat>, key: Key)
    requires ShardOk(s) && ShardOk(t) && Contents(s) == Contents(t)
    requires SameUses(s, u, t, w) && UsesAfterSet(t, w, x, y, key)
    ensures UsesAfterSet(s, u, x, y, key)
  {
    hide ShardOk, Contents;
    SameKeys(s);
    SameKeys(t);
    assert key in t.slotOf ==> UsesOf(t, w, key) == UsesOf(s, u, key);
    forall k | k in x.slotOf && k != key ensures UsesOf(x, y, k) == UsesOf(s, u, k) {
      assert UsesOf(x, y, k) == UsesOf(t, w, k);
    }
  }

  /** Setting one slot's counter concerns the key of that slot only. */
  lemma CounterOfKey(s: Shard, u: seq<nat>, key: Key, count: nat)
    requires ShardOk(s) && |u| == |s.ctrl| && key in s.slotOf
    ensures s.slotOf[key] < |u|
    ensures var w := u[s.slotOf[key] := count]; UsesOf(s, w, key) == count && OthersKept(s, u, s, w, key)
  {
    hide ShardOk, Contents;
    KeyFacts(s, key);
    var w := u[s.slotOf[key] := count];
    forall k | k in s.slotOf && k != key ensures UsesOf(s, w, k) == UsesOf(s, u, k) {
      KeyFacts(s, k);
    }
  }

  lemma CounterKept(s: Shard, u: seq<nat>, t: Shard, w: seq<nat>, key: Key)
    requires t.slotOf == s.slotOf && w == u
    ensures UsesAfterSet(s, u, t, w, key)
  {
  }

  lemma CounterOfNew(s: Shard, u: seq<nat>, t: Shard, w: seq<nat>, key: Key, i: nat)
    requires ShardOk(s) && |u| == |s.ctrl| && i < |s.ctrl| && s.ctrl[i] == EMPTY
    requires key !in s.slotOf && t.slotOf == s.slotOf[key := i] && w == u[i := 1]
    ensures UsesAfterSet(s, u, t, w, key)
  {
    hide ShardOk, Contents;
    forall k | k in t.slotOf && k != key ensures UsesOf(t, w, k) == UsesOf(s, u, k) {
      KeyFacts(s, k);
      MatchFacts(s, s.slotOf[k]);
    }
  }

  lemma CounterOfGone(s: Shard, u: seq<nat>, t: Shard, w: seq<nat>, key: Key)
    requires ShardOk(s) && |u| == |s.ctrl| && key in s.slotOf && s.slotOf[key] < |u|
    requires t.slotOf == Without(s.slotOf, key) && w == u[s.slotOf[key] := 0]
    ensures key !in t.slotOf && UsesAfterSet(s, u, t, w, key)
  {
    hide ShardOk, Contents;
    KeyFacts(s, key);
    forall k | k in t.slotOf && k != key ensures UsesOf(t, w, k) == UsesOf(s, u, k) {
      KeyFacts(s, k);
    }
  }

  /** One in nineteen, rounded up. */
  function Nineteenth(items: nat): nat { (items + 18) / 19 }

  lemma NineteenthFacts(items: nat)
    ensures Nineteenth(items) <= items && (Nineteenth(items) == 0 <==> items == 0)
    ensures 19 * (Nineteenth(items) - 1) < items <= 19 * Nineteenth(items) || items == 0
  {
  }

  lemma ItemsAreKeys(s: Shard)
    requires ShardOk(s)
    ensures s.items == |Contents(s)|
  {
    SameKeys(s);
    Accounts(s);
    assert |Contents(s).Keys| == |Contents(s)| && |s.slotOf.Keys| == |s.slotOf|;
  }

  lemma LeftOver(m: map<Key, seq<byte>>, gone: set<Key>)
    requires gone <= m.Keys
    ensures |m - gone| == |m| - |gone|
  {
    assert (m - gone).Keys == m.Keys - gone;
    assert |m.Keys - gone| == |m.Keys| - |gone|;
    assert |(m - gone).Keys| == |m - gone| && |m.Keys| == |m|;
  }

  lemma EvictStart(s: Shard, items: seq<Item>, u: seq<nat>)
    requires ShardOk(s) && |u| == |s.ctrl|
    ensures Evicting(s, s, items, 0, {}, u, u)
  {
    TableSize(s);
  }

  /** The first empty slot on the probe of `l` in a table that has one. */
  method FindEmpty(ctrl: seq<int>, n: nat, l: nat) returns (i: nat)
    requires n > 0 && |ctrl| == GROUP * n && exists j :: 0 <= j < |ctrl| && ctrl[j] == EMPTY
    ensures i < |ctrl| && ctrl[i] == EMPTY && Reaches(ctrl, n, ProbeStart(l, n), i / GROUP)
  {
    var g: nat := ProbeStart(l, n);
    ghost var start := g;
    ghost var j0 :| 0 <= j0 < |ctrl| && ctrl[j0] == EMPTY;
    ghost var e := j0 / GROUP;
    while true
      invariant g < n
      invariant Reaches(ctrl, n, start, g)
      decreases if g <= e then e - g else n - g + e
    {
      for s := 0 to GROUP
        invariant forall j :: GROUP * g <= j < GROUP * g + s ==> ctrl[j] != EMPTY
      {
        if ctrl[GROUP * g + s] == EMPTY {
          return GROUP * g + s;
        }
      }
      assert NoEmpty(ctrl, g) && !NoEmpty(ctrl, e);
      assert !Passed(start, g, e) && g != e;
      g := NextGroup(g, n);
    }
  }

  /** The slot of a key deleted: empty again if its group had another empty slot, otherwise a tombstone. */
  ghost predicate Marked(was: seq<int>, cells: seq<Cell>, key: Key, i: nat, now: seq<int>) {
    && i < |was| && i < |cells| && cells[i].Live? && cells[i].key == key
    && now == was[i := if exists j :: 0 <= j < |was| && j / 16 == i / 16 && was[j] == -128 then -128 else -2]
  }

  lemma MarkedBy(was: seq<int>, cells: seq<Cell>, key: Key, i: nat, g: nat, now: seq<int>)
    requires i < |was| && i < |cells| && cells[i].Live? && cells[i].key == key && i / GROUP == g
    requires now == was[i := if NoEmpty(was, g) then TOMB else EMPTY]
    ensures Marked(was, cells, key, i, now)
  {
  }

  class LfuMap {
    var n: nat
    var ctrl: seq<int>
    var idx: seq<uint32>
    var counters: seq<nat>
    var resident: nat
    var dead: nat
    var limit: nat
    var kv: KvHolder
    var queryCnt: nat
    var missCnt: nat
    /** The shard as a value; `Linked` ties the fields and the arena to it. */
    ghost var st: Shard

    ghost predicate Linked()
      reads this, kv, kv.data
    {
      && n == st.n && ctrl == st.ctrl && idx == st.idx && resident == st.resident && dead == st.dead
      && HolderLinked(kv, st)
    }

    ghost predicate Valid()
      reads this, kv, kv.data
    {
      && Linked() && ShardOk(st)
      && limit == MAX_LOAD * n && resident <= limit
      && |counters| == |ctrl| && (forall i :: 0 <= i < |counters| ==> counters[i] <= MAX_COUNT)
      && kv.RefOk() && kv.owned && kv.cap > 0 && kv.limit == kv.cap * 999 / 1000
    }

    /** The finite map the shard stands for. */
    ghost function Map(): map<Key, seq<byte>>
      reads this
    {
      Contents(st)
    }

    /** An empty shard for about `sz` entries over an arena of `memMax` bytes, at most 64MB. */
    constructor (sz: nat, memMax: nat)
      ensures Valid() && fresh(kv) && fresh(kv.data) && Map() == map[]
      ensures kv.cap == (if memMax > MAX_ARENA || memMax == 0 then MAX_ARENA else memMax)
      ensures n == NumGroups(sz) && resident == 0 && kv.tail == BUFFER_SIZE && kv.readers == 0
      ensures queryCnt == missCnt == dead == 0 && forall i :: 0 <= i < |counters| ==> counters[i] == 0
    {
      var groups := NumGroups(sz);
      var size := if memMax > MAX_ARENA || memMax == 0 then MAX_ARENA else memMax;
      n := groups;
      ctrl := seq(GROUP * groups, _ => EMPTY);
      idx := seq(GROUP * groups, _ => 0);
      counters := seq(GROUP * groups, _ => 0);
      resident, dead, limit := 0, 0, groups * MAX_LOAD;
      queryCnt, missCnt := 0, 0;
      kv := new KvHolder(size);
      new;
      st := Shard(n, ctrl, idx, seq(GROUP * groups, _ => Free), map[], 0, 0,
                  kv.data[..], kv.tail, kv.cap, kv.valUsed, kv.items, kv.frozen);
      EmptyShard(st);
    }

    // ---------- Probing ----------

    /** The slot of group `g` whose fingerprint and key match, if any. */
    method MatchKey(g: nat, h2: nat, key: Key) returns (s: int)
      requires Valid() && g < n && h2 == H2(KeyLow(key))
      ensures -1 <= s < GROUP
      ensures s >= 0 ==> key in st.slotOf && st.slotOf[key] == GROUP * g + s
      ensures s < 0 ==> forall i :: 0 <= i < |st.cells| && i / GROUP == g && st.cells[i].Live? ==> st.cells[i].key != key
    {
      hide ShardOk, KeyLow;
      TableSize(st);
      for t := 0 to GROUP
        invariant forall i :: GROUP * g <= i < GROUP * g + t && st.cells[i].Live? ==> st.cells[i].key != key
      {
        var i := GROUP * g + t;
        MatchFacts(st, i);
        if ctrl[i] == h2 {
          if ReadKey(kv.data[..], idx[i]) == key {
            return t;
          }
        }
      }
      return -1;
    }

    /** The first empty slot of group `g`, if any. */
    method MatchEmpty(g: nat) returns (s: int)
      requires |ctrl| == GROUP * n && g < n
      ensures -1 <= s < GROUP
      ensures s >= 0 ==> ctrl[GROUP * g + s] == EMPTY && !NoEmpty(ctrl, g)
      ensures s < 0 ==> NoEmpty(ctrl, g)
    {
      for t := 0 to GROUP
        invariant forall i :: GROUP * g <= i < GROUP * g + t ==> ctrl[i] != EMPTY
      {
        if ctrl[GROUP * g + t] == EMPTY {
          return t;
        }
      }
      return -1;
    }

    /** Walks the groups from the key's start until the key or a group with an empty slot turns up. */
    method Probe(l: nat, key: Key) returns (found: bool, g: nat, s: nat)
      requires Valid() && l == KeyLow(key)
      ensures g < n && s < GROUP
      ensures found <==> key in st.slotOf
      ensures found ==> st.slotOf[key] == GROUP * g + s
      ensures !found ==> ctrl[GROUP * g + s] == EMPTY && Reaches(ctrl, n, ProbeStart(l, n), g)
    {
      var h2 := H2(l);
      g := ProbeStart(l, n);
      ghost var start := g;
      SomeEmpty(ctrl, st.slotOf, resident, dead, n);
      ghost var i0 :| 0 <= i0 < |ctrl| && ctrl[i0] == EMPTY;
      ghost var e := i0 / GROUP;
      while true
        invariant g < n
        invariant Reaches(ctrl, n, start, g)
        invariant forall i :: 0 <= i < |st.cells| && st.cells[i].Live? && st.cells[i].key == key ==>
                    !Passed(start, g, i / GROUP)
        decreases if g <= e then e - g else n - g + e
      {
        var t := MatchKey(g, h2, key);
        if t >= 0 {
          return true, g, t;
        }
        var u := MatchEmpty(g);
        if u >= 0 {
          ProbeMiss(n, ctrl, st.cells, st.slotOf, key, g);
          return false, g, u;
        }
        assert !NoEmpty(ctrl, e);
        assert !Passed(start, g, e) && g != e;
        g := NextGroup(g, n);
      }
    }

    // ---------- Lookups ----------

    /** A hit bumps the slot's use counter, saturating at the maximum. */
    method Touch(i: nat)
      requires Valid() && i < |counters|
      modifies this`counters
      ensures Valid() && Map() == old(Map()) && counters == old(counters)[i := Bumped(old(counters)[i])]
    {
      if counters[i] < MAX_COUNT {
        counters := counters[i := counters[i] + 1];
      }
    }

    method Has(l: nat, key: Key) returns (ok: bool)
      requires Valid() && l == KeyLow(key)
      modifies this`counters, this`queryCnt, this`missCnt
      ensures Valid() && Map() == old(Map())
      ensures ok <==> key in old(Map())
      ensures queryCnt == old(queryCnt) + 1 && missCnt == old(missCnt) + (if ok then 0 else 1)
      ensures st == old(st) && UsedOnce(old(st), old(counters), counters, key)
    {
      hide ShardOk, Contents;
      KeyFacts(st, key);
      queryCnt := queryCnt + 1;
      var found, g, s := Probe(l, key);
      if found {
        CounterOfKey(st, counters, key, Bumped(counters[GROUP * g + s]));
        Touch(GROUP * g + s);
      } else {
        missCnt := missCnt + 1;
      }
      ok := found;
    }

    /** Short values come back as a copy; longer ones as a window on frozen bytes, with a share of the arena. */
    method Fetch(i: nat, ghost key: Key) returns (r: Lookup)
      requires Valid() && key in st.slotOf && st.slotOf[key] == i
      modifies kv`ref, kv`readers
      ensures Valid() && key in Map() && Reads(r, Map()[key])
      ensures r.Lent? ==> r.buf == kv && forall p :: r.off <= p < r.off + r.len ==> p in kv.frozen
      ensures kv.readers == old(kv.readers) + (if r.Lent? then 1 else 0)
    {
      hide ShardOk, Contents, ReadExtent, Readable, ValType;
      ReadFacts(st, key);
      var e := ReadExtent(kv.data[..], idx[i]);
      if ValType(idx[i]) == 0 {
        r := Copied(kv.data[e.start..e.start + e.size]);
      } else {
        r := Lent(kv, e.start, e.size);
        kv.Acquire();
      }
    }

    method Get(l: nat, key: Key) returns (r: Lookup)
      requires Valid() && l == KeyLow(key)
      modifies this`counters, this`queryCnt, this`missCnt, kv`ref, kv`readers
      ensures Valid() && Map() == old(Map()) && kv == old(kv)
      ensures r.Miss? <==> key !in Map()
      ensures key in Map() ==> Reads(r, Map()[key])
      ensures r.Lent? ==> r.buf == kv && forall p :: r.off <= p < r.off + r.len ==> p in kv.frozen
      ensures kv.readers == old(kv.readers) + (if r.Lent? then 1 else 0) && kv.frozen == old(kv.frozen)
      ensures queryCnt == old(queryCnt) + 1 && missCnt == old(missCnt) + (if r.Miss? then 1 else 0)
      ensures st == old(st) && UsedOnce(old(st), old(counters), counters, key)
    {
      hide ShardOk, Contents;
      KeyFacts(st, key);
      queryCnt := queryCnt + 1;
      var found, g, s := Probe(l, key);
      if !found {
        missCnt := missCnt + 1;
        return Miss;
      }
      r := Fetch(GROUP * g + s, key);
      CounterOfKey(st, counters, key, Bumped(counters[GROUP * g + s]));
      Touch(GROUP * g + s);
    }

    // ---------- Updates ----------

    /** Sets one slot: control byte, index word and use counter, with the slot counts. */
    method SetSlot(i: nat, mark: int, ki: uint32, uses: nat, resident': nat, dead': nat, ghost st': Shard)
      requires i < |ctrl| && i < |idx| && i < |counters|
      modifies this`ctrl, this`idx, this`counters, this`resident, this`dead, this`st
      ensures ctrl == old(ctrl)[i := mark] && idx == old(idx)[i := ki] && counters == old(counters)[i := uses]
      ensures resident == resident' && dead == dead' && st == st'
    {
      ctrl := ctrl[i := mark];
      idx := idx[i := ki];
      counters := counters[i := uses];
      resident, dead := resident', dead';
      st := st';
    }

    method SetIndex(i: nat, ki: uint32, ghost st': Shard)
      requires i < |idx|
      modifies this`idx, this`st
      ensures idx == old(idx)[i := ki] && st == st'
    {
      idx := idx[i := ki];
      st := st';
    }

    /** Turns a live slot into a tombstone or an empty slot and returns its bytes to the usage counter. */
    method DropSlot(i: nat, mark: int, ki: uint32, refund: nat)
      requires Valid() && i < |st.cells| && st.cells[i].Live? && refund <= st.cells[i].cap
      requires mark == TOMB || (mark == EMPTY && !NoEmpty(ctrl, i / GROUP))
      modifies this`ctrl, this`idx, this`counters, this`resident, this`dead, this`st, kv`valUsed, kv`items
      ensures Valid() && Map() == Removed(old(Map()), old(st).cells[i].key) && kv == old(kv)
      ensures st.slotOf == Without(old(st).slotOf, old(st).cells[i].key) && st.cells == old(st).cells[i := Free]
      ensures counters == old(counters)[i := 0] && ctrl == old(ctrl)[i := mark]
      ensures kv.valUsed == old(kv.valUsed) - refund && kv.items == old(kv.items) - 1
    {
      hide ShardOk, NoEmpty, Contents, Without, Removed;
      DropStep(st, i, mark, ki, refund);
      DropBounds(st, i);
      kv.Uncharge(refund);
      SetSlot(i, mark, ki, 0, if mark == EMPTY then resident - 1 else resident,
              if mark == EMPTY then dead else dead + 1, Dropped(st, i, mark, ki, refund));
    }

    /** Removes the key; its slot is reusable at once when the group has another empty slot. */
    method Delete(l: nat, key: Key) returns (ok: bool)
      requires Valid() && l == KeyLow(key)
      modifies this, kv`valUsed, kv`items
      ensures Valid() && kv == old(kv) && kv.frozen == old(kv.frozen)
      ensures ok <==> key in old(Map())
      ensures Map() == Removed(old(Map()), key) && SameUses(old(st), old(counters), st, counters)
      ensures ok ==> exists i :: 0 <= i < |old(ctrl)| && Marked(old(ctrl), old(st).cells, key, i, ctrl)
    {
      hide ShardOk, Without, Marked;
      KeyFacts(st, key);
      var found, g, s := Probe(l, key);
      if !found {
        assert Map() == Removed(old(Map()), key);
        return false;
      }
      var i := GROUP * g + s;
      RefundBound(st.cells[i], kv.data[..], kv.tail, idx[i]);
      DropBounds(st, i);
      var u := MatchEmpty(g);
      DropSlot(i, if u >= 0 then EMPTY else TOMB, idx[i], DeleteRefund(kv.data[..], idx[i]));
      MarkedBy(old(ctrl), old(st).cells, key, i, g, ctrl);
      CounterOfGone(old(st), old(counters), st, counters, key);
      ok := true;
    }

    /** Overwrites a short value where it is, header first. */
    method RewriteInPlace(i: nat, vals: seq<seq<byte>>, vlen: nat, ghost v: seq<byte>)
      requires v == Flatten(vals) && vlen == |v|
      requires Valid() && i < |st.cells| && InPlace(st.cells[i], v)
      modifies this`st, kv.data
      ensures Valid() && Map() == old(Map())[old(st).cells[i].key := v] && st.slotOf == old(st).slotOf
      ensures FrozenKept(kv, old(kv.frozen))
    {
      hide ShardOk, Contents, Overwritten, Placed, Stored, HeaderWord, Flatten, Cap4, KindOf, Blit, WordBytes, LoadWord,
           Offset;
      SlotFacts(st, i);
      var ki := idx[i];
      ghost var c := st.cells[i];
      ShortFacts(c, st.d, st.tail, ki, v);
      var kEnd := Offset(ki) * 4 + KEY_SIZE;
      var vOffset := Offset(LoadWord(kv.data[..], kEnd));
      var h := vOffset + vlen * OFFSET_WORDS;
      kv.Overwrite(kEnd, h, vOffset * 4, vals);
      OverwrittenByBlits(st.d, kv.data[..], c, v, st.tail, h);
      ReplaceStep(st, kv.data[..], i, v);
      st := Replaced(st, kv.data[..], i, v);
    }

    /** The record of slot `i` reads as the single byte at the start of the arena. */
    ghost predicate ReadsStrayByte(i: nat)
      reads this, kv, kv.data
    {
      i < |idx| && Readable(kv.data[..], idx[i]) && ReadExtent(kv.data[..], idx[i]) == Extent(0, 1)
    }

    /** Moves the record to a fresh value region; the old region becomes garbage. */
    method RewriteAtTail(i: nat, vals: seq<seq<byte>>, vlen: nat, ghost v: seq<byte>, ntail: nat)
      requires v == Flatten(vals) && vlen == |v|
      requires Valid() && i < |st.cells| && st.cells[i].Live? && |v| < 0x1_0000_0000
      requires kv.tail + ValueCap(|v|) <= ntail <= kv.cap && ntail % 4 == 0
      requires !InPlace(st.cells[i], v)
      modifies this`idx, this`st, kv`tail, kv`valUsed, kv`frozen, kv.data
      ensures OffsetOverflows(old(st).cells[i], v, old(kv.tail)) ==> ReadsStrayByte(i) && st == old(st)
      ensures !OffsetOverflows(old(st).cells[i], v, old(kv.tail)) ==>
                Valid() && Map() == old(Map())[old(st).cells[i].key := v] && kv.tail == ntail
      ensures FrozenKept(kv, old(kv.frozen)) && old(kv.frozen) <= kv.frozen && st.slotOf == old(st).slotOf
    {
      hide ShardOk, Contents, Placed, Stored, Refers, Relocated, UpdateRefund, IndexWord, HeaderWord,
           ValueCap, Freeze, KindOf, Offset, InPlace, Readable, ReadExtent, LoadWord, Cap4, Flatten, Lead;
      ghost var c := st.cells[i];
      MoveFacts(st, i, v);
      var refund := UpdateRefund(kv.data[..], idx[i]);
      ghost var c' := FreshCell(c.key, c.kOff, st.tail, v);
      FreezeGrows(st.frozen, c');
      var ki := kv.Relocate(Offset(idx[i]) * 4, vals, vlen, v, ntail, refund, Freeze(kv.frozen, c'));
      FrozenUntouched(st, kv.data[..], i, v);
      ghost var st' := st;
      if OffsetOverflows(c, v, st.tail) {
        OverflowReads(st.d, kv.data[..], st.tail, c.kOff, v, ki);
      } else {
        MoveStep(st, kv.data[..], i, v, ki, ntail, refund);
        st' := Moved(st, kv.data[..], i, ki, c', ntail, refund);
      }
      SetIndex(i, ki, st');
    }

    /** Gives an existing key a new value: in place when it fits a short record, otherwise at the tail.
        When the arena is full the key is dropped. */
    method Rewrite(i: nat, vals: seq<seq<byte>>, vlen: nat, ghost v: seq<byte>, slack: nat) returns (ok: bool)
      requires v == Flatten(vals) && vlen == |v|
      requires Valid() && i < |st.cells| && st.cells[i].Live? && |v| < 0x1_0000_0000 && slack % 4 == 0
      modifies this`ctrl, this`idx, this`counters, this`resident, this`dead, this`st,
               kv`tail, kv`valUsed, kv`items, kv`frozen, kv.data
      ensures ok <==> InPlace(old(st).cells[i], v) || TailAfter(old(st).cells[i], v, old(kv.tail), slack) <= old(kv.cap)
      ensures OffsetOverflows(old(st).cells[i], v, old(kv.tail)) ==> ok && ReadsStrayByte(i) && st == old(st)
      ensures !OffsetOverflows(old(st).cells[i], v, old(kv.tail)) ==>
                && Valid()
                && Map() == (if ok then old(Map())[old(st).cells[i].key := v] else Removed(old(Map()), old(st).cells[i].key))
                && kv.tail == (if ok then TailAfter(old(st).cells[i], v, old(kv.tail), slack) else old(kv.tail))
      ensures FrozenKept(kv, old(kv.frozen)) && old(kv.frozen) <= kv.frozen
      ensures if ok then st.slotOf == old(st).slotOf && counters == old(counters)
              else st.slotOf == Without(old(st).slotOf, old(st).cells[i].key) && counters == old(counters)[i := 0]
    {
      hide ShardOk, Contents, UpdateRefund, Removed, Readable, ReadExtent, Without,
           ValueCap, ValType, CapOrBigSize, InPlace, OffsetOverflows;
      RewriteFacts(st, i, v);
      if vlen < OVER_SHORT && ValType(idx[i]) == 0 && vlen <= CapOrBigSize(idx[i]) * 4 {
        RewriteInPlace(i, vals, vlen, v);
        return true;
      }
      var ntail := kv.tail + (if vlen >= OVER_LONG then slack else 0) + ValueCap(vlen);
      if ntail > kv.cap {
        DropSlot(i, TOMB, if vlen < OVER_SHORT then 0 else idx[i], UpdateRefund(kv.data[..], idx[i]));
        return false;
      }
      RewriteAtTail(i, vals, vlen, v, ntail);
      ok := true;
    }

    /** The update of `key` to `v` would send an empty value past the last encodable offset. */
    ghost predicate Overflows(key: Key, v: seq<byte>)
      reads this, kv
    {
      key in Map() && |Map()[key]| >= OVER_SHORT && v == [] && kv.tail == MAX_ARENA
    }

    /** The arena has room for updating `key` to `v`. */
    ghost predicate Fits(key: Key, v: seq<byte>, slack: nat)
      reads this, kv, kv.data
      requires Valid() && key in Map()
    {
      KeyFacts(st, key);
      var c := st.cells[st.slotOf[key]];
      InPlace(c, v) || TailAfter(c, v, kv.tail, slack) <= kv.cap
    }

    /** The value of the slot `i` changes; a value too long or with no room takes its key along. */
    method UpdateAt(i: nat, ghost key: Key, vlen: nat, vals: seq<seq<byte>>) returns (ok: bool)
      requires Valid() && key in st.slotOf && st.slotOf[key] == i && vlen == |Flatten(vals)| < 0x1_0000_0000
      modifies this, kv, kv.data
      ensures kv == old(kv) && FrozenKept(kv, old(kv.frozen)) && old(kv.frozen) <= kv.frozen
      ensures kv.readers == old(kv.readers)
      ensures ok <==> vlen < LIMIT_SIZE && old(Fits(key, Flatten(vals), 20))
      ensures !old(Overflows(key, Flatten(vals))) ==>
                Valid() && Map() == if ok then old(Map())[key := Flatten(vals)] else Removed(old(Map()), key)
      ensures old(Overflows(key, Flatten(vals))) ==> ok && st == old(st) && ReadsStrayByte(st.slotOf[key])
      ensures if ok then st.slotOf == old(st).slotOf && counters == old(counters)
              else st.slotOf == Without(old(st).slotOf, key) && counters == old(counters)[i := 0]
    {
      hide ShardOk, Contents, Readable, ReadExtent, UpdateRefund, InPlace, ValueCap, Without;
      KeyFacts(st, key);
      KindFacts(st, key);
      RewriteFacts(st, i, Flatten(vals));
      if vlen >= LIMIT_SIZE {
        DropSlot(i, TOMB, idx[i], UpdateRefund(kv.data[..], idx[i]));
        return false;
      }
      ok := Rewrite(i, vals, vlen, Flatten(vals), 20);
    }

    /** Updates an existing key with a value given in pieces; never adds one. */
    method PutMultiValue(l: nat, key: Key, vlen: nat, vals: seq<seq<byte>>) returns (ok: bool)
      requires Valid() && l == KeyLow(key) && vlen == |Flatten(vals)| < 0x1_0000_0000
      modifies this, kv, kv.data
      ensures kv == old(kv) && FrozenKept(kv, old(kv.frozen)) && old(kv.frozen) <= kv.frozen
      ensures kv.readers == old(kv.readers)
      ensures ok <==> key in old(Map()) && vlen < LIMIT_SIZE && old(Fits(key, Flatten(vals), 20))
      ensures !old(Overflows(key, Flatten(vals))) ==>
                Valid() && Map() == if ok then old(Map())[key := Flatten(vals)] else Removed(old(Map()), key)
      ensures old(Overflows(key, Flatten(vals))) ==> ok && st == old(st) && ReadsStrayByte(st.slotOf[key])
      ensures SameUses(old(st), old(counters), st, counters)
    {
      hide ShardOk, Contents, Fits, ReadsStrayByte, Without;
      KeyFacts(st, key);
      var found, g, s := Probe(l, key);
      if !found {
        UnchangedRemoved(Map(), key);
        return false;
      }
      ok := UpdateAt(GROUP * g + s, key, vlen, vals);
      if !ok {
        CounterOfGone(old(st), old(counters), st, counters, key);
      }
    }

    /** Updates an existing key; never adds one. */
    method Put(l: nat, key: Key, v: seq<byte>) returns (ok: bool)
      requires Valid() && l == KeyLow(key) && |v| < 0x1_0000_0000
      modifies this, kv, kv.data
      ensures kv == old(kv) && FrozenKept(kv, old(kv.frozen)) && old(kv.frozen) <= kv.frozen
      ensures kv.readers == old(kv.readers)
      ensures ok <==> key in old(Map()) && |v| < LIMIT_SIZE && old(Fits(key, v, 20))
      ensures !old(Overflows(key, v)) ==> Valid() && Map() == if ok then old(Map())[key := v] else Removed(old(Map()), key)
      ensures old(Overflows(key, v)) ==> ok && st == old(st) && ReadsStrayByte(st.slotOf[key])
      ensures SameUses(old(st), old(counters), st, counters)
    {
      hide SameUses;
      FlattenOne(v);
      ok := PutMultiValue(l, key, |v|, [v]);
    }

    // ---------- Rehash and copying collection ----------

    /** The arrays under construction and the fresh arena agree with `t`. */
    ghost predicate Building(m: nat, c: seq<int>, x: seq<uint32>, u: seq<nat>, h: KvHolder, t: Shard)
      reads h, h.data
    {
      && t.n == m && t.ctrl == c && t.idx == x && HolderLinked(h, t)
      && |u| == GROUP * m && (forall j :: 0 <= j < |u| ==> u[j] <= MAX_COUNT)
      && h.RefOk() && h.owned && h.readers == 0 && h.limit == h.cap * 999 / 1000
    }

    /** Moves the live record of slot `i` into the table and arena under construction. */
    method CopyRecord(i: nat, m: nat, c: seq<int>, x: seq<uint32>, u: seq<nat>, h: KvHolder, ghost t: Shard)
      returns (c': seq<int>, x': seq<uint32>, u': seq<nat>, ghost t': Shard)
      requires Valid() && i < |st.cells| && st.cells[i].Live?
      requires BUFFER_SIZE + kv.valUsed + RECORD_SIZE * kv.items < MAX_ARENA
      requires CopyInv(st, t, i) && Building(m, c, x, u, h, t) && h != kv && h.data != kv.data
      requires SameUses(st, counters, t, u) && Packed(st, t, i)
      modifies h`tail, h`valUsed, h`items, h`frozen, h.data
      ensures CopyInv(st, t', i + 1) && Building(m, c', x', u', h, t')
      ensures SameUses(st, counters, t', u') && Packed(st, t', i + 1)
    {
      hide ShardOk, Contents, Reaches, ValueCap, Readable, ReadExtent, KeyLow, H2, ProbeStart, Inserted,
           Freeze, KindOf, Appended, IndexWord, CopyInv, SameUses, Packed;
      CopyFacts(st, t, i);
      var k := ReadKey(kv.data[..], idx[i]);
      var e := ReadExtent(kv.data[..], idx[i]);
      var v := kv.data[e.start..e.start + e.size];
      CopyRoom(st, t, i);
      var j := FindEmpty(c, m, KeyLow(k));
      var ki, fail := h.GcSet(k, v);
      assert !fail;  // the code ignores this flag
      InsertStep(t, h.data[..], j, k, v, ki);
      ghost var cell := FreshCell(k, t.tail, t.tail + RECORD_SIZE, v);
      t' := Inserted(t, h.data[..], j, ki, cell);
      InsertedFields(t, h.data[..], j, ki, cell);
      CopyStep(st, t, t', i, j);
      MatchFacts(st, i);
      MatchFacts(t, j);
      PackedStep(st, t, t', i, j, cell);
      CopyUses(st, counters, t, u, t', k, i, j);
      h.frozen := Freeze(h.frozen, cell);
      c' := c[j := H2(KeyLow(k))];
      x' := x[j := ki];
      u' := u[j := counters[i]];
    }

    /** Copies every live record into a fresh table of `m` groups and a fresh arena of the same size. */
    method CopyLive(m: nat)
      returns (ctrl': seq<int>, idx': seq<uint32>, counters': seq<nat>, h: KvHolder, ghost t: Shard)
      requires Valid() && m >= n
      requires BUFFER_SIZE + kv.valUsed + RECORD_SIZE * kv.items < MAX_ARENA
      ensures fresh(h) && fresh(h.data)
      ensures CopyInv(st, t, |st.cells|) && Building(m, ctrl', idx', counters', h, t)
      ensures SameUses(st, counters, t, counters') && Packed(st, t, |st.cells|)
    {
      hide ShardOk, CopyInv, Packed;
      TableSize(st);
      ctrl' := seq(GROUP * m, _ => EMPTY);
      idx' := seq(GROUP * m, _ => 0);
      counters' := seq(GROUP * m, _ => 0);
      h := new KvHolder(kv.cap);
      t := Shard(m, ctrl', idx', seq(GROUP * m, _ => Free), map[], 0, 0,
                 h.data[..], h.tail, h.cap, h.valUsed, h.items, h.frozen);
      CopyStart(st, t);
      PackedStart(st, t);
      for i := 0 to |ctrl|
        invariant Valid() && fresh(h) && fresh(h.data)
        invariant CopyInv(st, t, i) && Building(m, ctrl', idx', counters', h, t)
        invariant SameUses(st, counters, t, counters') && Packed(st, t, i)
      {
        MatchFacts(st, i);
        if ctrl[i] == EMPTY || ctrl[i] == TOMB {
          CopySkip(st, t, i);
          PackedSkip(st, t, i);
        } else {
          ctrl', idx', counters', t := CopyRecord(i, m, ctrl', idx', counters', h, t);
        }
      }
    }

    /** Switches to another table and arena. */
    method SetTable(m: nat, ctrl': seq<int>, idx': seq<uint32>, counters': seq<nat>, h: KvHolder, live: nat, ghost t: Shard)
      modifies this`n, this`limit, this`ctrl, this`idx, this`counters, this`kv, this`resident, this`dead, this`st
      ensures n == m && limit == m * MAX_LOAD && ctrl == ctrl' && idx == idx' && counters == counters'
      ensures kv == h && resident == live && dead == 0 && st == t
    {
      ctrl, idx, counters := ctrl', idx', counters';
      kv := h;
      n, limit := m, m * MAX_LOAD;
      resident, dead := live, 0;
      st := t;
    }

    /** Puts a finished copy in place of the current table and arena. */
    method Install(m: nat, ctrl': seq<int>, idx': seq<uint32>, counters': seq<nat>, h: KvHolder, live: nat, ghost t: Shard)
      requires Valid() && CopyInv(st, t, |st.cells|) && Building(m, ctrl', idx', counters', h, t)
      requires h != kv && h.data != kv.data && live == t.resident && live <= MAX_LOAD * m
      modifies this, kv`ref, kv`owned, kv`freed
      ensures Valid() && kv == h && st == t && counters == counters'
      ensures Map() == old(Map()) && resident == live && dead == 0 && n == m
      ensures h.tail <= old(kv.tail) && h.cap == old(kv.cap)
      ensures old(kv).RefOk() && !old(kv).owned && (old(kv.readers) > 0 ==> !old(kv).freed)
    {
      hide ShardOk, Contents;
      CopyDone(st, t);
      TableSize(t);
      kv.ReleaseOwner();
      SetTable(m, ctrl', idx', counters', h, live, t);
    }

    /** A table of at least the same size: a fifth larger unless half the slots in use are tombstones. */
    method NextSize() returns (m: nat)
      requires Valid()
      ensures m == if dead >= resident / 2 then n else (6 * n + 4) / 5
      ensures m >= n
    {
      m := (6 * n + 4) / 5;
      if dead >= resident / 2 {
        m := n;
      }
    }

    /** Rebuilds a full table; afterwards there is room for at least one more key. */
    method Rehash()
      requires Valid() && resident >= limit && kv.tail < kv.limit
      modifies this, kv`ref, kv`owned, kv`freed
      ensures Valid() && fresh(kv) && fresh(kv.data) && kv.readers == 0
      ensures Map() == old(Map()) && resident < limit
      ensures SameUses(old(st), old(counters), st, counters) && Packed(old(st), st, |old(st).cells|)
      ensures kv.tail == BUFFER_SIZE + Footprint(old(st).cells) <= old(kv.tail) && kv.cap == old(kv.cap)
      ensures old(kv).RefOk() && (old(kv.readers) > 0 ==> !old(kv).freed)
    {
      hide ShardOk, Contents, Packed;
      UsageFacts(st);
      TableSize(st);
      var m := NextSize();
      var ctrl', idx', counters', h; ghost var t;
      ctrl', idx', counters', h, t := CopyLive(m);
      PackedTail(st, t);
      CopyDone(st, t);
      SameKeys(t);
      Install(m, ctrl', idx', counters', h, h.items, t);
    }

    /** Drops garbage by copying when it exceeds 4.5% of the arena; reports the bytes regained. */
    method GCCopy() returns (deadCount: nat, gcMem: int, skipped: bool)
      requires Valid()
      modifies this, kv`ref, kv`owned, kv`freed
      ensures Valid() && Map() == old(Map())
      ensures SameUses(old(st), old(counters), st, counters)
      ensures skipped <==>
                1000 * (old(kv.tail) - (old(kv.valUsed) + old(kv.items) * 20 + BUFFER_SIZE)) < 45 * old(kv.cap)
      ensures skipped ==> kv == old(kv) && deadCount == 0 && gcMem == 0
      ensures !skipped ==>
                && fresh(kv) && fresh(kv.data) && dead == 0 && deadCount == old(dead)
                && 0 < gcMem == old(kv.tail) - kv.tail && kv.tail == BUFFER_SIZE + Footprint(old(st).cells)
      ensures old(kv).RefOk() && (old(kv.readers) > 0 ==> !old(kv).freed)
    {
      hide ShardOk, Contents, Packed;
      UsageFacts(st);
      if 1000 * (kv.tail - (kv.valUsed + kv.items * 20 + BUFFER_SIZE)) < 45 * kv.cap {
        return 0, 0, true;
      }
      var oldUsed := kv.tail;
      deadCount, skipped := dead, false;
      var ctrl', idx', counters', h; ghost var t;
      ctrl', idx', counters', h, t := CopyLive(n);
      PackedTail(st, t);
      CopyDone(st, t);
      SameKeys(t);
      Install(n, ctrl', idx', counters', h, resident - dead, t);
      gcMem := oldUsed - kv.tail;
    }

    // ---------- Insert or update ----------

    /** Adds a key at an empty slot on its probe. */
    method InsertAt(i: nat, key: Key, v: seq<byte>) returns (ok: bool)
      requires Valid() && i < |ctrl| && ctrl[i] == EMPTY && key !in Map() && resident < limit && kv.tail < kv.limit
      requires Reaches(ctrl, n, ProbeStart(KeyLow(key), n), i / GROUP) && |v| < 0x1_0000_0000
      modifies this`ctrl, this`idx, this`counters, this`resident, this`dead, this`st,
               kv`tail, kv`valUsed, kv`items, kv`frozen, kv.data
      ensures Valid() && FrozenKept(kv, old(kv.frozen)) && old(kv.frozen) <= kv.frozen
      ensures ok <==> old(kv.tail) + RECORD_SIZE + ValueCap(|v|) <= kv.cap
      ensures Map() == if ok then old(Map())[key := v] else old(Map())
      ensures ok ==> kv.tail == old(kv.tail) + RECORD_SIZE + ValueCap(|v|) && resident == old(resident) + 1
      ensures if ok then st.slotOf == old(st).slotOf[key := i] && counters == old(counters)[i := 1]
              else st.slotOf == old(st).slotOf && counters == old(counters)
    {
      hide ShardOk, Contents, Reaches, ValueCap, KeyLow, H2, ProbeStart, Inserted, Freeze, KindOf, Appended, IndexWord;
      InsertFacts(st, key, v);
      var ki, fail := kv.GcSet(key, v);
      if fail {
        return false;
      }
      InsertStep(st, kv.data[..], i, key, v, ki);
      ghost var c := FreshCell(key, st.tail, st.tail + RECORD_SIZE, v);
      InsertedFields(st, kv.data[..], i, ki, c);
      InsertedResident(st, kv.data[..], i, ki, c);
      FreezeGrows(st.frozen, c);
      kv.frozen := Freeze(kv.frozen, c);
      SetSlot(i, H2(KeyLow(key)), ki, 1, resident + 1, dead, Inserted(st, kv.data[..], i, ki, c));
      ok := true;
    }

    /**
     The arena has room for setting `key` to `v`: as it is, or after the rebuilding of a full table,
     which leaves just the live records and gives each just the room its value needs.
     */
    ghost predicate Room(key: Key, v: seq<byte>)
      reads this, kv, kv.data
      requires Valid()
    {
      if resident < limit then
        (if key in Map() then Fits(key, v, 4) else kv.tail + RECORD_SIZE + ValueCap(|v|) <= kv.cap)
      else
        RoomIn(Map(), BUFFER_SIZE + Footprint(st.cells), kv.cap, key, v)
    }

    /** Gives the key of slot `i` a value. */
    method SetFound(i: nat, ghost key: Key, v: seq<byte>) returns (ok: bool)
      requires Valid() && key in st.slotOf && st.slotOf[key] == i && |v| < 0x1_0000_0000 && kv.tail < kv.limit
      modifies this, kv, kv.data
      ensures Valid() && kv == old(kv) && kv.cap == old(kv.cap) && kv.readers == old(kv.readers) && n == old(n)
      ensures FrozenKept(kv, old(kv.frozen)) && old(kv.frozen) <= kv.frozen
      ensures Map() == if ok then old(Map())[key := v] else Removed(old(Map()), key)
      ensures key in old(Map()) && (ok <==> old(Fits(key, v, 4)))
      ensures UsesAfterSet(old(st), old(counters), st, counters, key)
    {
      hide ShardOk, Contents, ValueCap, Removed, InPlace, Without, UsesAfterSet;
      KeyFacts(st, key);
      UsageFacts(st);
      FlattenOne(v);
      RewriteFacts(st, i, v);
      ok := Rewrite(i, [v], |v|, v, 4);
      if ok {
        CounterKept(old(st), old(counters), st, counters, key);
      } else {
        CounterOfGone(old(st), old(counters), st, counters, key);
      }
    }

    /** Sets a key in a table with room for one more. */
    method SetKey(l: nat, key: Key, v: seq<byte>) returns (ok: bool)
      requires Valid() && l == KeyLow(key) && |v| < 0x1_0000_0000 && resident < limit && kv.tail < kv.limit
      modifies this, kv, kv.data
      ensures Valid() && kv == old(kv) && kv.cap == old(kv.cap) && kv.readers == old(kv.readers) && n == old(n)
      ensures FrozenKept(kv, old(kv.frozen)) && old(kv.frozen) <= kv.frozen
      ensures Map() == if ok then old(Map())[key := v] else Removed(old(Map()), key)
      ensures ok <==> if key in old(Map()) then old(Fits(key, v, 4))
                      else old(kv.tail) + RECORD_SIZE + ValueCap(|v|) <= kv.cap
      ensures ok && key !in old(Map()) ==>
                kv.tail == old(kv.tail) + RECORD_SIZE + ValueCap(|v|) && resident == old(resident) + 1
      ensures UsesAfterSet(old(st), old(counters), st, counters, key)
    {
      hide ShardOk, Contents, Reaches, ValueCap, KeyLow, ProbeStart, Removed, InPlace, Without, UsesAfterSet;
      KeyFacts(st, key);
      UsageFacts(st);
      TableSize(st);
      var found, g, s := Probe(l, key);
      if found {
        ok := SetFound(GROUP * g + s, key, v);
      } else {
        UnchangedRemoved(Map(), key);
        ok := InsertAt(GROUP * g + s, key, v);
        if ok {
          CounterOfNew(old(st), old(counters), st, counters, key, GROUP * g + s);
        } else {
          CounterKept(old(st), old(counters), st, counters, key);
        }
      }
    }

    /** Sets a key, adding it when it is new; rebuilds a full table first. */
    method RePut(l: nat, key: Key, v: seq<byte>) returns (ok: bool)
      requires Valid() && l == KeyLow(key) && |v| < 0x1_0000_0000
      modifies this, kv, kv.data
      ensures Valid()
      ensures Map() == if ok then old(Map())[key := v]
                       else if old(kv.tail) < old(kv.limit) then Removed(old(Map()), key) else old(Map())
      ensures old(kv.tail) >= old(kv.limit) ==> !ok && Map() == old(Map()) && kv == old(kv)
      ensures ok <==> old(kv.tail) < old(kv.limit) && old(Room(key, v))
      ensures kv == old(kv) || (fresh(kv) && fresh(kv.data))
      ensures kv == old(kv) ==> old(kv.frozen) <= kv.frozen
      ensures FrozenKept(old(kv), old(kv.frozen)) && old(kv).readers == old(kv.readers)
      ensures old(kv).RefOk() && (old(kv.readers) > 0 ==> !old(kv).freed)
      ensures key !in old(Map()) && old(resident) < old(limit) ==>
                && n == old(n)
                && (ok ==>
                      && kv == old(kv) && kv.tail == old(kv.tail) + RECORD_SIZE + ValueCap(|v|)
                      && resident == old(resident) + 1)
      ensures kv.cap == old(kv.cap) && UsesAfterSet(old(st), old(counters), st, counters, key)
    {
      hide ShardOk, Contents, ValueCap, KeyLow, Removed, SameUses;
      StillSame(st, counters);
      if kv.tail >= kv.limit {
        return false;
      }
      if resident >= limit {
        Rehash();
      }
      ghost var t, w := st, counters;
      if old(resident) >= old(limit) {
        PackedRoom(old(st), st, key, v, kv.cap);
      }
      ok := SetKey(l, key, v);
      SetAfterCopy(old(st), old(counters), t, w, st, counters, key);
    }

    /** Forgets everything; the old arena lives on for readers that still hold a window. */
    method Clear()
      requires Valid()
      modifies this, kv`ref, kv`owned, kv`freed, kv`cap
      ensures Valid() && Map() == map[] && fresh(kv) && fresh(kv.data)
      ensures n == old(n) && kv.cap == old(kv.cap) && resident == 0
      ensures old(kv).RefOk() && !old(kv).owned && old(kv).cap == 0 && (old(kv).freed <==> old(kv.readers) == 0)
    {
      hide Contents, ShardOk;
      TableSize(st);
      UsageFacts(st);
      var h := new KvHolder(kv.cap);
      var ctrl', idx', counters' := seq(GROUP * n, _ => EMPTY), seq(GROUP * n, _ => 0), seq(GROUP * n, _ => 0);
      ghost var t := Shard(n, ctrl', idx', seq(GROUP * n, _ => Free), map[], 0, 0,
                           h.data[..], h.tail, h.cap, h.valUsed, h.items, h.frozen);
      EmptyShard(t);
      kv.cap := 0;
      kv.ReleaseOwner();
      SetTable(n, ctrl', idx', counters', h, 0, t);
    }

    // ---------- Eviction ----------

    /** How often a key has been used since it was last aged. */
    ghost function Uses(key: Key): nat
      reads this
    {
      UsesOf(st, counters, key)
    }

    /** Evicts the `want` least used keys, or all, and ages the rest by the largest count evicted. */
    method EvictLeast(want: nat) returns (delCount: nat, top: nat, ghost gone: set<Key>)
      requires Valid()
      modifies this, kv`valUsed, kv`items
      ensures Valid() && kv == old(kv) && kv.frozen == old(kv.frozen)
      ensures gone <= old(Map()).Keys && Map() == old(Map()) - gone
      ensures delCount == |gone| <= want && (delCount < want ==> Map() == map[])
      ensures forall k, e :: k in Map() && e in gone ==> old(Uses(e)) <= old(Uses(k))
      ensures forall e :: e in gone ==> old(Uses(e)) <= top
      ensures if gone == {} then top == 0 else exists e :: e in gone && old(Uses(e)) == top
      ensures forall k :: k in Map() ==> Uses(k) == if old(Uses(k)) > top then old(Uses(k)) - top else 0
    {
      hide ShardOk, Contents, Selection, Evicting, UsesOf, DistinctSlots;
      TableSize(st);
      var items;
      items, top := BuildMinTop(ctrl, counters, want);
      SelectedLive(st, items, counters, want);
      ghost var s0, u0 := st, counters;
      delCount, gone := EvictItems(items);
      ghost var u1 := counters;
      Age(top);
      EvictMeaning(s0, st, items, gone, u0, u1, counters, want, top);
      if items != [] {
        TopLeft(s0, st, items, gone, u0, u1);
      }
    }

    /**
     Evicts one key in nineteen, rounded up, when lookups miss often enough and the live records fill
     95% of the arena: enough to come down to 90% if all were of one size.
     */
    method Eliminate() returns (delCount: nat, skipReason: nat, ghost top: nat, ghost gone: set<Key>)
      requires Valid()
      modifies this, kv`valUsed, kv`items
      ensures Valid() && kv == old(kv) && kv.frozen == old(kv.frozen)
      ensures skipReason == if old(queryCnt) > 0 && 10 * old(missCnt) < old(queryCnt) then 1
                            else if 20 * (old(kv.valUsed) + old(kv.items) * 20 + BUFFER_SIZE) < 19 * old(kv.cap) then 2
                            else if old(Map()) == map[] then 4 else 0
      ensures skipReason != 0 ==> delCount == 0 && gone == {} && Map() == old(Map()) && counters == old(counters)
      ensures gone <= old(Map()).Keys && Map() == old(Map()) - gone && delCount == |gone|
      ensures skipReason == 0 ==>
                19 * (delCount - 1) < |old(Map())| <= 19 * delCount && 19 * |Map()| <= 18 * |old(Map())|
      ensures forall k, e :: k in Map() && e in gone ==> old(Uses(e)) <= old(Uses(k))
    {
      hide ShardOk, Contents, UsesOf, Nineteenth;
      delCount, top, gone := 0, 0, {};
      ItemsAreKeys(st);
      NineteenthFacts(kv.items);
      if queryCnt > 0 && 10 * missCnt < queryCnt {
        return 0, 1, top, gone;
      }
      if 20 * (kv.valUsed + kv.items * 20 + BUFFER_SIZE) < 19 * kv.cap {
        return 0, 2, top, gone;
      }
      var want := Nineteenth(kv.items);
      if want == 0 {
        return 0, 4, top, gone;
      }
      ghost var before := Map();
      delCount, top, gone := EvictLeast(want);
      LeftOver(before, gone);
      skipReason := 0;
    }

    /** Deletes the records of the selected slots one by one. */
    method EvictItems(items: seq<Item>) returns (delCount: nat, ghost gone: set<Key>)
      requires Valid() && DistinctSlots(items)
      requires forall j :: 0 <= j < |items| ==> items[j].slot < |st.cells| && st.cells[items[j].slot].Live?
      modifies this`ctrl, this`idx, this`counters, this`resident, this`dead, this`st, kv`valUsed, kv`items
      ensures Valid() && delCount == |items| == |gone|
      ensures Evicting(old(st), st, items, |items|, gone, old(counters), counters)
      ensures Map() == old(Map()) - gone
    {
      hide ShardOk, Contents, Removed, Evicting, DistinctSlots;
      TableSize(st);
      delCount, gone := 0, {};
      ghost var s0, u0 := st, counters;
      EvictStart(s0, items, u0);
      assert Map() == old(Map()) - {};
      while delCount < |items|
        invariant 0 <= delCount <= |items| && Valid() && |gone| == delCount
        invariant Evicting(s0, st, items, delCount, gone, u0, counters)
        invariant Map() == old(Map()) - gone
      {
        ghost var key := s0.cells[items[delCount].slot].key;
        EvictOne(items, delCount, s0, u0, gone);
        RemovedMinus(old(Map()), gone, key);
        gone := gone + {key};
        delCount := delCount + 1;
      }
    }

    /** Deletes the record of one selected slot. */
    method EvictOne(items: seq<Item>, j: nat, ghost s0: Shard, ghost u0: seq<nat>, ghost gone: set<Key>)
      requires Valid() && ShardOk(s0) && DistinctSlots(items) && Evicting(s0, st, items, j, gone, u0, counters)
      requires j < |items| && items[j].slot < |s0.cells| && s0.cells[items[j].slot].Live?
      modifies this`ctrl, this`idx, this`counters, this`resident, this`dead, this`st, kv`valUsed, kv`items
      ensures var key := s0.cells[items[j].slot].key;
              && Valid() && key !in gone && Map() == Removed(old(Map()), key)
              && Evicting(s0, st, items, j + 1, gone + {key}, u0, counters)
    {
      hide ShardOk, Contents, DeleteRefund, Readable, Without, Removed, Evicting, DistinctSlots;
      var i := items[j].slot;
      EvictNext(s0, st, items, j, gone, u0, counters);
      ghost var s1, u1 := st, counters;
      DropSlot(i, TOMB, 0, DeleteRefund(kv.data[..], idx[i]));
      EvictStep(s0, s1, items, j, gone, u0, u1, st, counters);
    }

    /** Saturating subtraction of `level` from every use counter. */
    method Age(level: nat)
      requires Valid()
      modifies this`counters
      ensures Valid() && |counters| == |old(counters)|
      ensures forall i :: 0 <= i < |counters| ==>
                counters[i] == if old(counters)[i] > level then old(counters)[i] - level else 0
    {
      hide ShardOk;
      var u := counters;
      counters := seq(|u|, i requires 0 <= i < |u| => if u[i] > level then u[i] - level else 0);
    }
  }
}
