/**
 The state of one cache shard as a value, its invariant, and the four steps
 every operation is made of: insert, relocate, overwrite in place, remove.
 */
module VmShardState {
  import opened VmBytes
  import opened VmArena
  import opened VmLayout
  import opened VmTable

  datatype Shard = Shard(
    n: nat,
    ctrl: seq<int>,
    idx: seq<uint32>,
    cells: seq<Cell>,
    slotOf: map<Key, nat>,
    resident: nat,
    dead: nat,
    d: seq<byte>,
    tail: nat,
    cap: nat,
    valUsed: nat,
    items: nat,
    frozen: set<int>)

  /** Usage accounting: live capacity is covered by `valUsed`, which with the records stays below the tail. */
  ghost predicate AccountOk(s: Shard) {
    && s.items == |s.slotOf|
    && SumCaps(s.cells) <= s.valUsed
    && BUFFER_SIZE + s.valUsed + RECORD_SIZE * s.items <= s.tail
  }

  ghost predicate ShardOk(s: Shard) {
    && TableOk(s.n, s.ctrl, s.cells, s.slotOf)
    && CountsOk(s.ctrl, s.slotOf, s.resident, s.dead)
    && LayoutOk(s.d, s.tail, s.idx, s.cells)
    && FrozenOk(s.frozen, s.tail, s.cells)
    && (s.tail <= s.cap || s.tail == BUFFER_SIZE) && s.cap <= MAX_ARENA && |s.d| == BUFFER_SIZE + s.cap
    && AccountOk(s)
  }

  ghost predicate KeysOk(cells: seq<Cell>, slotOf: map<Key, nat>) {
    forall k :: k in slotOf ==> KeyOk(cells, slotOf, k)
  }

  ghost function ValuesOf(cells: seq<Cell>, slotOf: map<Key, nat>): map<Key, seq<byte>> {
    map k | k in slotOf && KeyOk(cells, slotOf, k) :: cells[slotOf[k]].value
  }

  /** The finite map the shard stands for. */
  ghost function Contents(s: Shard): map<Key, seq<byte>> {
    ValuesOf(s.cells, s.slotOf)
  }

  ghost function Removed(m: map<Key, seq<byte>>, key: Key): map<Key, seq<byte>> {
    map k | k in m && k != key :: m[k]
  }

  lemma TableSize(s: Shard)
    requires ShardOk(s)
    ensures |s.ctrl| == |s.idx| == |s.cells| == GROUP * s.n && s.n > 0
  {
  }

  /** What the invariant says about the record of a key. */
  lemma KeyFacts(s: Shard, key: Key)
    requires ShardOk(s)
    ensures |s.ctrl| == |s.idx| == |s.cells|
    ensures key in Contents(s) <==> key in s.slotOf
    ensures key in s.slotOf ==>
              var i := s.slotOf[key];
              && i < |s.cells| && s.cells[i].Live? && s.cells[i].key == key
              && Contents(s)[key] == s.cells[i].value
              && s.tail <= |s.d| && Holds(s.d, s.tail, s.idx[i], s.cells[i])
  {
    if key in s.slotOf {
      assert KeyOk(s.cells, s.slotOf, key);
      assert Holds(s.d, s.tail, s.idx[s.slotOf[key]], s.cells[s.slotOf[key]]);
    }
  }

  // ---------- Insert ----------

  ghost function FreshCell(key: Key, kOff: nat, vOff: nat, v: seq<byte>): Cell {
    Live(key, kOff, KindOf(|v|), vOff, ValueCap(|v|), v)
  }

  ghost function Inserted(s: Shard, d': seq<byte>, i: nat, ki: uint32, c: Cell): Shard
    requires i < |s.ctrl| && i < |s.idx| && i < |s.cells| && c.Live?
  {
    s.(ctrl := s.ctrl[i := H2(KeyLow(c.key))],
       idx := s.idx[i := ki],
       cells := s.cells[i := c],
       slotOf := s.slotOf[c.key := i],
       resident := s.resident + 1,
       d := d',
       tail := s.tail + RECORD_SIZE + c.cap,
       valUsed := s.valUsed + c.cap,
       items := s.items + 1,
       frozen := Freeze(s.frozen, c))
  }

  lemma InsertAccount(s: Shard, s': Shard, i: nat, key: Key, c: Cell)
    requires AccountOk(s) && i < |s.cells| && !s.cells[i].Live? && key !in s.slotOf && c.Live?
    requires s'.slotOf == s.slotOf[key := i] && s'.cells == s.cells[i := c]
    requires s'.valUsed == s.valUsed + c.cap && s'.items == s.items + 1
    requires s'.tail == s.tail + RECORD_SIZE + c.cap
    ensures AccountOk(s')
  {
    SumCapsUpdate(s.cells, i, c);
  }

  lemma InsertCore(s: Shard, s': Shard, i: nat, c: Cell)
    requires ShardOk(s) && i < |s.ctrl| && s.ctrl[i] == EMPTY && c.Live? && c.key !in s.slotOf
    requires Reaches(s.ctrl, s.n, ProbeStart(KeyLow(c.key), s.n), i / GROUP)
    requires s'.n == s.n && s'.ctrl == s.ctrl[i := H2(KeyLow(c.key))] && s'.cells == s.cells[i := c]
    requires s'.slotOf == s.slotOf[c.key := i] && s'.resident == s.resident + 1 && s'.dead == s.dead
    requires s'.valUsed == s.valUsed + c.cap && s'.items == s.items + 1
    requires s'.tail == s.tail + RECORD_SIZE + c.cap <= s'.cap == s.cap && |s'.d| == |s.d|
    requires LayoutOk(s'.d, s'.tail, s'.idx, s'.cells) && FrozenOk(s'.frozen, s'.tail, s'.cells)
    ensures ShardOk(s') && Contents(s') == Contents(s)[c.key := c.value]
  {
    TableInsert(s.n, s.ctrl, s.cells, s.slotOf, i, c, s.resident, s.dead);
    assert SlotOk(s.n, s.ctrl, s.cells[i], i, s.slotOf);
    InsertAccount(s, s', i, c.key, c);
    ContentsInsert(s.cells, s.slotOf, i, c);
  }

  lemma InsertStep(s: Shard, d': seq<byte>, i: nat, key: Key, v: seq<byte>, ki: uint32)
    requires ShardOk(s) && i < |s.ctrl| && s.ctrl[i] == EMPTY && key !in s.slotOf
    requires Reaches(s.ctrl, s.n, ProbeStart(KeyLow(key), s.n), i / GROUP)
    requires |v| < 0x1_0000_0000 && s.tail + RECORD_SIZE + ValueCap(|v|) <= s.cap
    requires s.tail + RECORD_SIZE < MAX_ARENA
    requires Appended(s.d, d', s.tail, key, v)
    requires ki == IndexWord(s.tail, KindOf(|v|), ValueCap(|v|), |v|)
    ensures var s' := Inserted(s, d', i, ki, FreshCell(key, s.tail, s.tail + RECORD_SIZE, v));
            ShardOk(s') && Contents(s') == Contents(s)[key := v]
    ensures forall p :: p in s.frozen ==> d'[p] == s.d[p]
  {
    hide IndexWord, HeaderWord, ValueBytes, LoadWord, LayoutOk, FrozenOk, TableOk, CountsOk, Contents, Freeze;
    TableSize(s);
    LayoutAppend(s.d, d', s.tail, s.idx, s.cells, i, key, v, s.frozen);
    var c := FreshCell(key, s.tail, s.tail + RECORD_SIZE, v);
    var s' := Inserted(s, d', i, ki, c);
    assert s'.tail == s.tail + RECORD_SIZE + ValueCap(|v|);
    assert s'.cells == s.cells[i := Live(key, s.tail, KindOf(|v|), s.tail + RECORD_SIZE, ValueCap(|v|), v)];
    assert s'.idx == s.idx[i := IndexWord(s.tail, KindOf(|v|), ValueCap(|v|), |v|)];
    assert LayoutOk(s'.d, s'.tail, s'.idx, s'.cells);
    assert FrozenOk(s'.frozen, s'.tail, s'.cells);
    InsertCore(s, s', i, c);
  }

  lemma ContentsInsert(cells: seq<Cell>, slotOf: map<Key, nat>, i: nat, c: Cell)
    requires KeysOk(cells, slotOf) && i < |cells| && !cells[i].Live? && c.Live?
    requires KeysOk(cells[i := c], slotOf[c.key := i])
    ensures ValuesOf(cells[i := c], slotOf[c.key := i]) == ValuesOf(cells, slotOf)[c.key := c.value]
  {
    forall k | k in slotOf && k != c.key
      ensures cells[i := c][slotOf[k]] == cells[slotOf[k]]
    {
      assert KeyOk(cells, slotOf, k);
    }
  }

  // ---------- Update ----------

  /** The record of slot `i` moves to a fresh value region at the tail; `tail'` includes any slack. */
  ghost function Moved(s: Shard, d': seq<byte>, i: nat, ki: uint32, c: Cell, tail': nat, refund: nat): Shard
    requires i < |s.idx| && i < |s.cells| && c.Live? && refund <= s.valUsed
  {
    s.(idx := s.idx[i := ki],
       cells := s.cells[i := c],
       d := d',
       tail := tail',
       valUsed := s.valUsed - refund + c.cap,
       frozen := Freeze(s.frozen, c))
  }

  lemma MoveStep(s: Shard, d': seq<byte>, i: nat, v: seq<byte>, ki: uint32, tail': nat, refund: nat)
    requires ShardOk(s) && i < |s.cells| && s.cells[i].Live? && refund <= s.cells[i].cap
    requires s.tail < MAX_ARENA && |v| < 0x1_0000_0000
    requires s.tail + ValueCap(|v|) <= tail' <= s.cap && tail' % 4 == 0
    requires Relocated(s.d, d', s.tail, s.cells[i].kOff, v)
    requires ki == IndexWord(s.cells[i].kOff, KindOf(|v|), ValueCap(|v|), |v|)
    ensures refund <= s.valUsed
    ensures var c := FreshCell(s.cells[i].key, s.cells[i].kOff, s.tail, v);
            var s' := Moved(s, d', i, ki, c, tail', refund);
            ShardOk(s') && Contents(s') == Contents(s)[c.key := v]
    ensures forall p :: p in s.frozen ==> d'[p] == s.d[p]
  {
    SumCapsAtLeast(s.cells, i);
    LayoutRelocate(s.d, d', s.tail, s.idx, s.cells, i, v, tail', s.frozen);
    var c := FreshCell(s.cells[i].key, s.cells[i].kOff, s.tail, v);
    TableUpdate(s.n, s.ctrl, s.cells, s.slotOf, i, c);
    SumCapsUpdate(s.cells, i, c);
    assert SlotOk(s.n, s.ctrl, s.cells[i], i, s.slotOf);
    ContentsUpdate(s.cells, s.slotOf, i, c);
  }

  /** A short value is replaced where it is. */
  ghost function Replaced(s: Shard, d': seq<byte>, i: nat, v: seq<byte>): Shard
    requires i < |s.cells| && s.cells[i].Live?
  {
    s.(cells := s.cells[i := s.cells[i].(value := v)], d := d')
  }

  lemma ReplaceStep(s: Shard, d': seq<byte>, i: nat, v: seq<byte>)
    requires ShardOk(s) && i < |s.cells| && s.cells[i].Live? && s.cells[i].kind == Short
    requires |v| < OVER_SHORT && |v| <= s.cells[i].cap
    requires Overwritten(s.d, d', s.cells[i], v)
    ensures ShardOk(Replaced(s, d', i, v))
    ensures Contents(Replaced(s, d', i, v)) == Contents(s)[s.cells[i].key := v]
    ensures forall p :: p in s.frozen ==> d'[p] == s.d[p]
  {
    LayoutOverwrite(s.d, d', s.tail, s.idx, s.cells, i, v, s.frozen);
    var s' := Replaced(s, d', i, v);
    TableUpdate(s.n, s.ctrl, s.cells, s.slotOf, i, s'.cells[i]);
    SumCapsUpdate(s.cells, i, s'.cells[i]);
    assert SlotOk(s.n, s.ctrl, s.cells[i], i, s.slotOf);
    ContentsUpdate(s.cells, s.slotOf, i, s'.cells[i]);
  }

  lemma ContentsUpdate(cells: seq<Cell>, slotOf: map<Key, nat>, i: nat, c: Cell)
    requires KeysOk(cells, slotOf) && i < |cells| && cells[i].Live? && c.Live? && c.key == cells[i].key
    requires c.key in slotOf && slotOf[c.key] == i && KeysOk(cells[i := c], slotOf)
    ensures ValuesOf(cells[i := c], slotOf) == ValuesOf(cells, slotOf)[c.key := c.value]
  {
    forall k | k in slotOf && k != c.key
      ensures cells[i := c][slotOf[k]] == cells[slotOf[k]]
    {
      assert KeyOk(cells, slotOf, k);
    }
  }

  lemma ContentsRemove(cells: seq<Cell>, slotOf: map<Key, nat>, i: nat)
    requires KeysOk(cells, slotOf) && i < |cells| && cells[i].Live?
    requires KeysOk(cells[i := Free], Without(slotOf, cells[i].key))
    ensures ValuesOf(cells[i := Free], Without(slotOf, cells[i].key)) == Removed(ValuesOf(cells, slotOf), cells[i].key)
  {
    forall k | k in slotOf && k != cells[i].key
      ensures cells[i := Free][slotOf[k]] == cells[slotOf[k]]
    {
      assert KeyOk(cells, slotOf, k);
    }
  }

  // ---------- Remove ----------

  /** Slot `i` becomes a tombstone or empty; `ki` is the index word left behind. */
  ghost function Dropped(s: Shard, i: nat, mark: int, ki: uint32, refund: nat): Shard
    requires i < |s.ctrl| && i < |s.idx| && i < |s.cells| && s.cells[i].Live?
    requires refund <= s.valUsed && s.items > 0 && s.resident > 0
  {
    s.(ctrl := s.ctrl[i := mark],
       idx := s.idx[i := ki],
       cells := s.cells[i := Free],
       slotOf := Without(s.slotOf, s.cells[i].key),
       resident := if mark == EMPTY then s.resident - 1 else s.resident,
       dead := if mark == EMPTY then s.dead else s.dead + 1,
       valUsed := s.valUsed - refund,
       items := s.items - 1)
  }

  lemma DropStep(s: Shard, i: nat, mark: int, ki: uint32, refund: nat)
    requires ShardOk(s) && i < |s.cells| && s.cells[i].Live? && refund <= s.cells[i].cap
    requires mark == TOMB || (mark == EMPTY && !NoEmpty(s.ctrl, i / GROUP))
    ensures refund <= s.valUsed && s.items > 0 && s.resident > 0
    ensures ShardOk(Dropped(s, i, mark, ki, refund))
    ensures Contents(Dropped(s, i, mark, ki, refund)) == Removed(Contents(s), s.cells[i].key)
  {
    SumCapsAtLeast(s.cells, i);
    assert SlotOk(s.n, s.ctrl, s.cells[i], i, s.slotOf);
    LiveCounted(s, i);
    var s' := Dropped(s, i, mark, ki, refund);
    LayoutDrop(s.d, s.tail, s.idx, s.cells, i, ki, s.frozen);
    TableRemove(s.n, s.ctrl, s.cells, s.slotOf, i, mark, s.resident, s.dead);
    SumCapsUpdate(s.cells, i, Free);
    ContentsRemove(s.cells, s.slotOf, i);
  }

  lemma LiveCounted(s: Shard, i: nat)
    requires ShardOk(s) && i < |s.cells| && s.cells[i].Live?
    ensures s.items > 0 && s.resident > 0
  {
    assert SlotOk(s.n, s.ctrl, s.cells[i], i, s.slotOf);
    assert s.cells[i].key in s.slotOf.Keys;
  }
}
