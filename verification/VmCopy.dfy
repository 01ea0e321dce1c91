/** Copying the live records of a shard into a fresh table and arena, slot by slot. */
module VmCopy {
  import opened VmBytes
  import opened VmArena
  import opened VmLayout
  import opened VmTable
  import opened VmShardState

  /** `t` holds exactly the records found in the first `i` slots of `s`, packed without gaps. */
  ghost predicate CopyInv(s: Shard, t: Shard, i: nat) {
    && ShardOk(s) && ShardOk(t) && i <= |s.cells|
    && t.cap == s.cap && t.n >= s.n && t.dead == 0
    && (forall k {:trigger k in t.slotOf} :: k in t.slotOf <==> k in s.slotOf && s.slotOf[k] < i)
    && (forall k {:trigger k in t.slotOf} :: k in t.slotOf ==>
          k in Contents(t) && k in Contents(s) && Contents(t)[k] == Contents(s)[k])
    && t.tail <= BUFFER_SIZE + SumCaps(s.cells[..i]) + RECORD_SIZE * |t.slotOf|
  }

  lemma {:induction false} SumCapsPrefix(cells: seq<Cell>, i: nat)
    requires i <= |cells|
    ensures SumCaps(cells[..i]) <= SumCaps(cells)
    decreases |cells|
  {
    if i < |cells| {
      var m := |cells| - 1;
      assert cells[..m][..i] == cells[..i];
      SumCapsPrefix(cells[..m], i);
    } else {
      assert cells[..i] == cells;
    }
  }

  lemma SumCapsNext(cells: seq<Cell>, i: nat)
    requires i < |cells|
    ensures SumCaps(cells[..i + 1]) == SumCaps(cells[..i]) + CapOf(cells[i])
  {
    assert cells[..i + 1][..i] == cells[..i];
  }

  lemma SubsetSize<T>(a: set<T>, b: set<T>, x: T)
    requires a <= b && x in b && x !in a
    ensures |a| < |b|
  {
    assert |a| + |b - a| == |b|;
    assert x in b - a;
  }

  /** A repacked record never needs more room than the live records before and at it already have. */
  lemma CopyFits(s: Shard, t: Shard, i: nat)
    requires CopyInv(s, t, i) && i < |s.cells| && s.cells[i].Live?
    ensures s.cells[i].key !in t.slotOf
    ensures |t.slotOf| < |s.slotOf|
    ensures t.tail + RECORD_SIZE + ValueCap(|s.cells[i].value|) <=
              BUFFER_SIZE + SumCaps(s.cells[..i + 1]) + RECORD_SIZE * (|t.slotOf| + 1)
    ensures BUFFER_SIZE + SumCaps(s.cells[..i + 1]) + RECORD_SIZE * (|t.slotOf| + 1) <=
              BUFFER_SIZE + s.valUsed + RECORD_SIZE * s.items <= s.tail
  {
    hide ShardOk, Contents, ValueCap;
    var c := s.cells[i];
    SlotKey(s, i);
    RecordCap(s, i);
    Accounts(s);
    SumCapsNext(s.cells, i);
    SumCapsPrefix(s.cells, i + 1);
    assert t.slotOf.Keys <= s.slotOf.Keys;
    SubsetSize(t.slotOf.Keys, s.slotOf.Keys, c.key);
  }

  lemma RecordCap(s: Shard, i: nat)
    requires ShardOk(s) && i < |s.cells| && s.cells[i].Live?
    ensures ValueCap(|s.cells[i].value|) <= s.cells[i].cap
  {
    assert Holds(s.d, s.tail, s.idx[i], s.cells[i]);
  }

  lemma Accounts(s: Shard)
    requires ShardOk(s)
    ensures s.items == |s.slotOf| && SumCaps(s.cells) <= s.valUsed
    ensures BUFFER_SIZE + s.valUsed + RECORD_SIZE * s.items <= s.tail
  {
  }

  /** An empty or dead slot adds nothing. */
  lemma CopySkip(s: Shard, t: Shard, i: nat)
    requires CopyInv(s, t, i) && i < |s.cells| && !s.cells[i].Live?
    ensures CopyInv(s, t, i + 1)
  {
    hide ShardOk, Contents;
    SumCapsNext(s.cells, i);
    forall k ensures k in t.slotOf <==> k in s.slotOf && s.slotOf[k] < i + 1 {
      KeyFacts(s, k);
    }
  }

  /** A live slot's record is inserted whole. */
  lemma CopyStep(s: Shard, t: Shard, t': Shard, i: nat, j: nat)
    requires CopyInv(s, t, i) && i < |s.cells| && s.cells[i].Live?
    requires ShardOk(t') && t'.cap == t.cap && t'.n == t.n && t'.dead == t.dead
    requires t'.slotOf == t.slotOf[s.cells[i].key := j]
    requires Contents(t') == Contents(t)[s.cells[i].key := s.cells[i].value]
    requires t'.tail == t.tail + RECORD_SIZE + ValueCap(|s.cells[i].value|)
    ensures CopyInv(s, t', i + 1)
  {
    hide ShardOk, Contents;
    CopyFits(s, t, i);
    var c := s.cells[i];
    SlotKey(s, i);
    KeyFacts(s, c.key);
    forall k ensures k in t'.slotOf <==> k in s.slotOf && s.slotOf[k] < i + 1 {
      if k in s.slotOf && s.slotOf[k] == i {
        KeyFacts(s, k);
      }
    }
  }

  lemma SlotKey(s: Shard, i: nat)
    requires ShardOk(s) && i < |s.cells| && s.cells[i].Live?
    ensures s.cells[i].key in s.slotOf && s.slotOf[s.cells[i].key] == i
  {
    assert SlotOk(s.n, s.ctrl, s.cells[i], i, s.slotOf);
  }

  // ---------- The size of a copy ----------

  /** The bytes a record of a cell takes when it is written afresh. */
  ghost function FreshSize(c: Cell): nat { if c.Live? then RECORD_SIZE + ValueCap(|c.value|) else 0 }

  ghost function Footprint(cells: seq<Cell>): nat {
    if cells == [] then 0 else Footprint(cells[..|cells| - 1]) + FreshSize(cells[|cells| - 1])
  }

  /** The record of a key has just the room its value needs. */
  ghost predicate FreshAt(t: Shard, k: Key) {
    k in t.slotOf ==>
      && t.slotOf[k] < |t.cells| && t.cells[t.slotOf[k]].Live?
      && var c := t.cells[t.slotOf[k]]; c.kind == KindOf(|c.value|) && c.cap == ValueCap(|c.value|)
  }

  /** The copy of the first `i` slots is as small as it can be. */
  ghost predicate Packed(s: Shard, t: Shard, i: nat) {
    && i <= |s.cells| && t.tail == BUFFER_SIZE + Footprint(s.cells[..i])
    && forall k {:trigger FreshAt(t, k)} :: FreshAt(t, k)
  }

  lemma FootprintNext(cells: seq<Cell>, i: nat)
    requires i < |cells|
    ensures Footprint(cells[..i + 1]) == Footprint(cells[..i]) + FreshSize(cells[i])
  {
    assert cells[..i + 1][..i] == cells[..i];
  }

  lemma PackedStart(s: Shard, t: Shard)
    requires t.slotOf == map[] && t.tail == BUFFER_SIZE
    ensures Packed(s, t, 0)
  {
  }

  lemma PackedSkip(s: Shard, t: Shard, i: nat)
    requires Packed(s, t, i) && i < |s.cells| && !s.cells[i].Live?
    ensures Packed(s, t, i + 1)
  {
    FootprintNext(s.cells, i);
  }

  lemma PackedStep(s: Shard, t: Shard, t': Shard, i: nat, j: nat, c: Cell)
    requires Packed(s, t, i) && i < |s.cells| && s.cells[i].Live? && j < |t.cells| && !t.cells[j].Live?
    requires c.Live? && c.value == s.cells[i].value && c.kind == KindOf(|c.value|) && c.cap == ValueCap(|c.value|)
    requires t'.cells == t.cells[j := c] && t'.slotOf == t.slotOf[c.key := j]
    requires t'.tail == t.tail + RECORD_SIZE + ValueCap(|c.value|)
    ensures Packed(s, t', i + 1)
  {
    hide ValueCap, KindOf;
    FootprintNext(s.cells, i);
    forall k ensures FreshAt(t', k) {
      assert FreshAt(t, k);
    }
  }

  /** After the last slot the copy stands for the same map and has no tombstones. */
  lemma CopyDone(s: Shard, t: Shard)
    requires CopyInv(s, t, |s.cells|)
    ensures Contents(t) == Contents(s)
    ensures t.slotOf.Keys == s.slotOf.Keys && t.items == s.items && t.resident == s.items
    ensures t.tail <= BUFFER_SIZE + s.valUsed + RECORD_SIZE * s.items <= s.tail
  {
    forall k ensures k in t.slotOf <==> k in s.slotOf {
      if k in s.slotOf {
        assert KeyOk(s.cells, s.slotOf, k);
      }
    }
    forall k | k in t.slotOf
      ensures Contents(t)[k] == Contents(s)[k]
    {
      KeyFacts(t, k);
      KeyFacts(s, k);
    }
    assert t.slotOf.Keys == s.slotOf.Keys;
    assert s.cells[..|s.cells|] == s.cells;
    assert |t.slotOf| == |s.slotOf| by {
      assert |t.slotOf.Keys| == |t.slotOf| && |s.slotOf.Keys| == |s.slotOf|;
    }
    forall k ensures k in Contents(t) <==> k in Contents(s) {
      KeyFacts(t, k);
      KeyFacts(s, k);
    }
  }
}
