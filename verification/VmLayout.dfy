/**
 The records of all table slots laid out in one arena: every live record is
 stored intact, no two records share a byte, and bytes handed out to readers
 are never written again.
 */
module VmLayout {
  import opened VmBytes
  import opened VmArena

  ghost predicate Holds(d: seq<byte>, tail: nat, ki: uint32, c: Cell)
    requires c.Live? && tail <= |d|
  {
    Placed(c, tail) && Stored(c, d, tail) && Refers(ki, c)
  }

  ghost predicate LayoutOk(d: seq<byte>, tail: nat, idx: seq<uint32>, cells: seq<Cell>) {
    && |idx| == |cells|
    && BUFFER_SIZE <= tail <= |d| && tail % 4 == 0 && tail <= MAX_ARENA
    && (forall i {:trigger Holds(d, tail, idx[i], cells[i])} ::
          0 <= i < |cells| && cells[i].Live? ==> Holds(d, tail, idx[i], cells[i]))
    && (forall i, j {:trigger Separate(cells[i], cells[j])} ::
          0 <= i < |cells| && 0 <= j < |cells| && i != j ==> Separate(cells[i], cells[j]))
  }

  /** `p` is a byte that writing to the record `c` may change: its header, or a short value. */
  ghost predicate Writable(c: Cell, p: int) {
    c.Live? && (c.kOff <= p < c.kOff + RECORD_SIZE || (c.kind == Short && c.vOff <= p < c.vOff + c.cap))
  }

  ghost predicate InValue(c: Cell, p: int) {
    c.Live? && c.kind != Short && c.vOff <= p < c.vOff + c.cap
  }

  /** Every byte of a value that may have been lent is in `frozen`, and no record can write there. */
  ghost predicate FrozenOk(frozen: set<int>, tail: nat, cells: seq<Cell>) {
    && (forall p :: p in frozen ==> BUFFER_SIZE <= p < tail)
    && (forall i, p {:trigger Writable(cells[i], p)} :: 0 <= i < |cells| && p in frozen ==> !Writable(cells[i], p))
    && (forall i, p {:trigger InValue(cells[i], p)} :: 0 <= i < |cells| && InValue(cells[i], p) ==> p in frozen)
  }

  // ---------- What the three ways of writing leave in the arena ----------

  function ValueBytes(v: seq<byte>): (r: seq<byte>)
    requires |v| < 0x1_0000_0000
    ensures |r| == |v| + Lead(KindOf(|v|))
  {
    if KindOf(|v|) == Long then WordBytes(|v|) + v else v
  }

  /** `r` is the arena `d` after appending a whole record at `tail`. */
  ghost predicate Appended(d: seq<byte>, r: seq<byte>, tail: nat, key: Key, v: seq<byte>)
    requires |v| < 0x1_0000_0000
  {
    && |r| == |d| && tail + RECORD_SIZE + ValueCap(|v|) <= |d|
    && r[..tail] == d[..tail]
    && r[tail..tail + KEY_SIZE] == key
    && LoadWord(r, tail + KEY_SIZE) == HeaderWord(tail + RECORD_SIZE, KindOf(|v|), |v|)
    && r[tail + RECORD_SIZE..tail + RECORD_SIZE + |ValueBytes(v)|] == ValueBytes(v)
  }

  /** `r` is `d` after writing a value region at `tail` and pointing the record at `kOff` to it. */
  ghost predicate Relocated(d: seq<byte>, r: seq<byte>, tail: nat, kOff: nat, v: seq<byte>)
    requires |v| < 0x1_0000_0000
  {
    && |r| == |d| && tail + ValueCap(|v|) <= |d| && kOff + RECORD_SIZE <= tail
    && r[..kOff + KEY_SIZE] == d[..kOff + KEY_SIZE]
    && LoadWord(r, kOff + KEY_SIZE) == HeaderWord(tail, KindOf(|v|), |v|)
    && r[kOff + RECORD_SIZE..tail] == d[kOff + RECORD_SIZE..tail]
    && r[tail..tail + |ValueBytes(v)|] == ValueBytes(v)
  }

  /** `r` is `d` after overwriting the short value of `c` where it is. */
  ghost predicate Overwritten(d: seq<byte>, r: seq<byte>, c: Cell, v: seq<byte>)
    requires c.Live?
  {
    && |r| == |d| && c.kOff + RECORD_SIZE <= |d| && c.vOff + |v| <= |d|
    && LoadWord(r, c.kOff + KEY_SIZE) == HeaderWord(c.vOff, Short, |v|)
    && r[c.vOff..c.vOff + |v|] == v
    && forall p :: 0 <= p < |d| ==>
         (c.kOff + KEY_SIZE <= p < c.kOff + RECORD_SIZE) || (c.vOff <= p < c.vOff + |v|) || r[p] == d[p]
  }

  lemma LongWord(d: seq<byte>, v: seq<byte>, off: nat)
    requires |v| < 0x1_0000_0000 && KindOf(|v|) == Long && off + |v| + 4 <= |d|
    requires d[off..off + |v| + 4] == ValueBytes(v)
    ensures LoadWord(d, off) == |v|
    ensures d[off + 4..off + 4 + |v|] == v
  {
    WordBytesValue(|v|);
    var s := d[off..off + |v| + 4];
    assert d[off] == s[0] && d[off + 1] == s[1] && d[off + 2] == s[2] && d[off + 3] == s[3];
    assert s[4..] == v;
    assert d[off + 4..off + 4 + |v|] == s[4..];
  }

  lemma ValueStored(d: seq<byte>, v: seq<byte>, off: nat)
    requires |v| < 0x1_0000_0000 && off + |ValueBytes(v)| <= |d|
    requires d[off..off + |ValueBytes(v)|] == ValueBytes(v)
    ensures KindOf(|v|) == Long ==> LoadWord(d, off) == |v|
    ensures d[off + Lead(KindOf(|v|))..off + Lead(KindOf(|v|)) + |v|] == v
  {
    if KindOf(|v|) == Long {
      LongWord(d, v, off);
    }
  }

  lemma AppendedPlaced(tail: nat, key: Key, v: seq<byte>)
    requires BUFFER_SIZE <= tail && tail % 4 == 0 && tail + RECORD_SIZE < MAX_ARENA
    requires tail + RECORD_SIZE + ValueCap(|v|) <= MAX_ARENA
    ensures (tail + RECORD_SIZE) % 4 == 0 && (tail + RECORD_SIZE + ValueCap(|v|)) % 4 == 0
    ensures Placed(Live(key, tail, KindOf(|v|), tail + RECORD_SIZE, ValueCap(|v|), v),
                   tail + RECORD_SIZE + ValueCap(|v|))
  {
    hide Cap4;
    Mod4Sum(tail, RECORD_SIZE);
    Mod4Sum(tail + RECORD_SIZE, ValueCap(|v|));
  }

  lemma Mod4Sum(a: nat, b: nat)
    requires a % 4 == 0 && b % 4 == 0
    ensures (a + b) % 4 == 0
  {
  }

  lemma PlacedBelow(c: Cell, tail: nat)
    requires c.Live? && Placed(c, tail)
    ensures BUFFER_SIZE <= c.kOff && c.kOff + RECORD_SIZE <= tail && BUFFER_SIZE <= c.vOff && c.vOff + c.cap <= tail
  {
  }

  lemma AppendedHolds(d: seq<byte>, r: seq<byte>, tail: nat, key: Key, v: seq<byte>)
    requires BUFFER_SIZE <= tail && tail % 4 == 0 && tail + RECORD_SIZE < MAX_ARENA && |v| < 0x1_0000_0000
    requires Appended(d, r, tail, key, v) && tail + RECORD_SIZE + ValueCap(|v|) <= MAX_ARENA
    ensures var c := Live(key, tail, KindOf(|v|), tail + RECORD_SIZE, ValueCap(|v|), v);
            var tail' := tail + RECORD_SIZE + ValueCap(|v|);
            Placed(c, tail') && Stored(c, r, tail')
  {
    hide Placed, HeaderWord, LoadWord, Cap4, ValueBytes;
    AppendedPlaced(tail, key, v);
    ValueStored(r, v, tail + RECORD_SIZE);
  }

  lemma RelocatedHolds(d: seq<byte>, r: seq<byte>, tail: nat, c: Cell, v: seq<byte>, tail': nat)
    requires c.Live? && Placed(c, tail) && tail <= |d| && Stored(c, d, tail)
    requires tail % 4 == 0 && tail < MAX_ARENA && |v| < 0x1_0000_0000
    requires Relocated(d, r, tail, c.kOff, v) && tail + ValueCap(|v|) <= tail' <= MAX_ARENA && tail' <= |d|
    ensures var c' := Live(c.key, c.kOff, KindOf(|v|), tail, ValueCap(|v|), v);
            Placed(c', tail') && Stored(c', r, tail')
  {
    hide LoadWord, HeaderWord, Cap4, ValueBytes;
    ValueStored(r, v, tail);
    assert r[c.kOff..c.kOff + KEY_SIZE] == r[..c.kOff + KEY_SIZE][c.kOff..];
    assert d[c.kOff..c.kOff + KEY_SIZE] == d[..c.kOff + KEY_SIZE][c.kOff..];
  }

  lemma OverwrittenHolds(d: seq<byte>, r: seq<byte>, tail: nat, c: Cell, v: seq<byte>)
    requires c.Live? && c.kind == Short && Placed(c, tail) && tail <= |d| && Stored(c, d, tail)
    requires |v| < OVER_SHORT && |v| <= c.cap && Overwritten(d, r, c, v)
    ensures var c' := c.(value := v); Placed(c', tail) && Stored(c', r, tail)
  {
    assert r[c.kOff..c.kOff + KEY_SIZE] == d[c.kOff..c.kOff + KEY_SIZE];
  }

  // ---------- The whole layout ----------

  /** One slot's record changes; the bytes of every other live record do not. */
  lemma LayoutReplace(d: seq<byte>, tail: nat, idx: seq<uint32>, cells: seq<Cell>,
                      i: nat, ki: uint32, c: Cell, d': seq<byte>, tail': nat)
    requires LayoutOk(d, tail, idx, cells) && i < |cells|
    requires tail <= tail' <= |d'| == |d| && tail' % 4 == 0 && tail' <= MAX_ARENA
    requires c.Live? && Holds(d', tail', ki, c)
    requires forall j :: 0 <= j < |cells| && j != i ==> Separate(cells[j], c)
    requires forall j :: 0 <= j < |cells| && j != i && cells[j].Live? ==>
               && SameBytes(d, d', cells[j].kOff, cells[j].kOff + RECORD_SIZE)
               && SameBytes(d, d', cells[j].vOff, cells[j].vOff + cells[j].cap)
    ensures LayoutOk(d', tail', idx[i := ki], cells[i := c])
  {
    var cells' := cells[i := c];
    forall j | 0 <= j < |cells'| && cells'[j].Live?
      ensures Holds(d', tail', idx[i := ki][j], cells'[j])
    {
      if j != i {
        assert Holds(d, tail, idx[j], cells[j]);
        StoredFrame(cells[j], d, d', tail, tail');
      }
    }
    forall j, k | 0 <= j < |cells'| && 0 <= k < |cells'| && j != k
      ensures Separate(cells'[j], cells'[k])
    {
      if j != i && k != i {
        assert Separate(cells[j], cells[k]);
      } else if k == i {
        assert Separate(cells[j], c);
      } else {
        assert Separate(cells[k], c);
      }
    }
  }

  lemma PrefixSame(d: seq<byte>, e: seq<byte>, n: nat)
    requires n <= |d| == |e| && d[..n] == e[..n]
    ensures SameBytes(d, e, 0, n)
  {
    forall p | 0 <= p < n ensures d[p] == e[p] {
      assert d[..n][p] == e[..n][p];
    }
  }

  lemma MiddleSame(d: seq<byte>, e: seq<byte>, m: nat, n: nat)
    requires m <= n <= |d| == |e| && d[m..n] == e[m..n]
    ensures SameBytes(d, e, m, n)
  {
    forall p | m <= p < n ensures d[p] == e[p] {
      assert d[m..n][p - m] == e[m..n][p - m];
    }
  }

  lemma FrozenBelow(frozen: set<int>, tail: nat, cells: seq<Cell>)
    requires FrozenOk(frozen, tail, cells)
    ensures forall p :: p in frozen ==> BUFFER_SIZE <= p < tail
  {
  }

  lemma LayoutAppend(d: seq<byte>, d': seq<byte>, tail: nat, idx: seq<uint32>, cells: seq<Cell>,
                     i: nat, key: Key, v: seq<byte>, frozen: set<int>)
    requires LayoutOk(d, tail, idx, cells) && i < |cells| && FrozenOk(frozen, tail, cells)
    requires tail + RECORD_SIZE < MAX_ARENA && |v| < 0x1_0000_0000
    requires tail + RECORD_SIZE + ValueCap(|v|) <= MAX_ARENA && Appended(d, d', tail, key, v)
    ensures IndexWord(tail, KindOf(|v|), ValueCap(|v|), |v|) < 0x1_0000_0000
    ensures var c := Live(key, tail, KindOf(|v|), tail + RECORD_SIZE, ValueCap(|v|), v);
            var tail' := tail + RECORD_SIZE + ValueCap(|v|);
            && LayoutOk(d', tail',
                        idx[i := IndexWord(tail, KindOf(|v|), ValueCap(|v|), |v|)], cells[i := c])
            && FrozenOk(Freeze(frozen, c), tail', cells[i := c])
            && forall p :: p in frozen ==> d'[p] == d[p]
  {
    hide Placed, Stored, HeaderWord, IndexWord, LoadWord, Cap4, ValueBytes, ValueCap, KindOf, FrozenOk;
    var c := Live(key, tail, KindOf(|v|), tail + RECORD_SIZE, ValueCap(|v|), v);
    var tail' := tail + RECORD_SIZE + ValueCap(|v|);
    AppendedPlaced(tail, key, v);
    AppendedHolds(d, d', tail, key, v);
    IndexWordFields(c, tail');
    PrefixSame(d, d', tail);
    FrozenBelow(frozen, tail, cells);
    forall j | 0 <= j < |cells| && j != i && cells[j].Live?
      ensures Separate(cells[j], c)
      ensures SameBytes(d, d', cells[j].kOff, cells[j].kOff + RECORD_SIZE)
      ensures SameBytes(d, d', cells[j].vOff, cells[j].vOff + cells[j].cap)
    {
      assert Holds(d, tail, idx[j], cells[j]);
      PlacedBelow(cells[j], tail);
    }
    LayoutReplace(d, tail, idx, cells, i, IndexWord(tail, c.kind, c.cap, |v|), c, d', tail');
    AllBelow(d, tail, idx, cells);
    FrozenReplace(frozen, tail, cells, i, c, tail');
  }

  lemma RelocatedSame(d: seq<byte>, d': seq<byte>, tail: nat, kOff: nat, v: seq<byte>)
    requires |v| < 0x1_0000_0000 && Relocated(d, d', tail, kOff, v)
    ensures SameBytes(d, d', 0, kOff + KEY_SIZE) && SameBytes(d, d', kOff + RECORD_SIZE, tail)
  {
    PrefixSame(d, d', kOff + KEY_SIZE);
    MiddleSame(d, d', kOff + RECORD_SIZE, tail);
  }

  lemma RelocateApart(d: seq<byte>, d': seq<byte>, tail: nat, e: Cell, o: Cell, c: Cell)
    requires e.Live? && o.Live? && c.Live? && Placed(e, tail) && Separate(e, o) && tail <= |d|
    requires c.kOff == o.kOff && c.vOff == tail
    requires SameBytes(d, d', 0, o.kOff + KEY_SIZE) && SameBytes(d, d', o.kOff + RECORD_SIZE, tail)
    ensures Separate(e, c)
    ensures SameBytes(d, d', e.kOff, e.kOff + RECORD_SIZE) && SameBytes(d, d', e.vOff, e.vOff + e.cap)
  {
  }

  lemma LayoutRelocate(d: seq<byte>, d': seq<byte>, tail: nat, idx: seq<uint32>, cells: seq<Cell>,
                       i: nat, v: seq<byte>, tail': nat, frozen: set<int>)
    requires LayoutOk(d, tail, idx, cells) && i < |cells| && cells[i].Live? && FrozenOk(frozen, tail, cells)
    requires tail < MAX_ARENA && |v| < 0x1_0000_0000 && Relocated(d, d', tail, cells[i].kOff, v)
    requires tail + ValueCap(|v|) <= tail' <= MAX_ARENA && tail' <= |d| && tail' % 4 == 0
    ensures IndexWord(cells[i].kOff, KindOf(|v|), ValueCap(|v|), |v|) < 0x1_0000_0000
    ensures var c := Live(cells[i].key, cells[i].kOff, KindOf(|v|), tail, ValueCap(|v|), v);
            && LayoutOk(d', tail',
                        idx[i := IndexWord(c.kOff, c.kind, c.cap, |v|)], cells[i := c])
            && FrozenOk(Freeze(frozen, c), tail', cells[i := c])
            && forall p :: p in frozen ==> d'[p] == d[p]
  {
    var o := cells[i];
    assert Holds(d, tail, idx[i], o);
    var c := Live(o.key, o.kOff, KindOf(|v|), tail, ValueCap(|v|), v);
    RelocatedHolds(d, d', tail, o, v, tail');
    IndexWordFields(c, tail');
    RelocatedSame(d, d', tail, o.kOff, v);
    forall j | 0 <= j < |cells| && j != i && cells[j].Live?
      ensures Separate(cells[j], c)
      ensures SameBytes(d, d', cells[j].kOff, cells[j].kOff + RECORD_SIZE)
      ensures SameBytes(d, d', cells[j].vOff, cells[j].vOff + cells[j].cap)
    {
      assert Holds(d, tail, idx[j], cells[j]);
      assert Separate(cells[j], o);
      RelocateApart(d, d', tail, cells[j], o, c);
    }
    LayoutReplace(d, tail, idx, cells, i, IndexWord(c.kOff, c.kind, c.cap, |v|), c, d', tail');
    AllBelow(d, tail, idx, cells);
    FrozenReplace(frozen, tail, cells, i, c, tail');
    forall p | p in frozen ensures d'[p] == d[p] {
      assert !Writable(o, p);
    }
  }

  lemma LayoutOverwrite(d: seq<byte>, d': seq<byte>, tail: nat, idx: seq<uint32>, cells: seq<Cell>,
                        i: nat, v: seq<byte>, frozen: set<int>)
    requires LayoutOk(d, tail, idx, cells) && i < |cells| && cells[i].Live? && FrozenOk(frozen, tail, cells)
    requires cells[i].kind == Short && |v| < OVER_SHORT && |v| <= cells[i].cap
    requires Overwritten(d, d', cells[i], v)
    ensures var c := cells[i].(value := v);
            && LayoutOk(d', tail, idx, cells[i := c])
            && FrozenOk(frozen, tail, cells[i := c])
            && forall p :: p in frozen ==> d'[p] == d[p]
  {
    var o := cells[i];
    assert Holds(d, tail, idx[i], o);
    var c := o.(value := v);
    OverwrittenHolds(d, d', tail, o, v);
    IndexWordFields(c, tail);
    forall j | 0 <= j < |cells| && j != i && cells[j].Live?
      ensures Separate(cells[j], c)
      ensures SameBytes(d, d', cells[j].kOff, cells[j].kOff + RECORD_SIZE)
      ensures SameBytes(d, d', cells[j].vOff, cells[j].vOff + cells[j].cap)
    {
      assert Holds(d, tail, idx[j], cells[j]);
      assert Separate(cells[j], o);
    }
    LayoutReplace(d, tail, idx, cells, i, idx[i], c, d', tail);
    assert idx[i := idx[i]] == idx;
    FrozenOverwrite(frozen, tail, cells, i, v);
    forall p | p in frozen ensures d'[p] == d[p] {
      assert !Writable(o, p);
    }
  }

  lemma FrozenOverwrite(frozen: set<int>, tail: nat, cells: seq<Cell>, i: nat, v: seq<byte>)
    requires FrozenOk(frozen, tail, cells) && i < |cells| && cells[i].Live?
    ensures FrozenOk(frozen, tail, cells[i := cells[i].(value := v)])
  {
    var cells' := cells[i := cells[i].(value := v)];
    forall j, p | 0 <= j < |cells'| && p in frozen
      ensures !Writable(cells'[j], p)
    {
      assert !Writable(cells[j], p);
    }
    forall j, p | 0 <= j < |cells'| && InValue(cells'[j], p)
      ensures p in frozen
    {
      assert InValue(cells[j], p);
    }
  }

  lemma LayoutDrop(d: seq<byte>, tail: nat, idx: seq<uint32>, cells: seq<Cell>, i: nat, ki: uint32, frozen: set<int>)
    requires LayoutOk(d, tail, idx, cells) && i < |cells| && FrozenOk(frozen, tail, cells)
    ensures LayoutOk(d, tail, idx[i := ki], cells[i := Free])
    ensures FrozenOk(frozen, tail, cells[i := Free])
  {
    var cells' := cells[i := Free];
    forall j | 0 <= j < |cells'| && cells'[j].Live?
      ensures Holds(d, tail, idx[i := ki][j], cells'[j])
    {
      assert Holds(d, tail, idx[j], cells[j]);
    }
    forall j, k | 0 <= j < |cells'| && 0 <= k < |cells'| && j != k
      ensures Separate(cells'[j], cells'[k])
    {
      assert Separate(cells[j], cells[k]);
    }
    forall j, p | 0 <= j < |cells'| && p in frozen
      ensures !Writable(cells'[j], p)
    {
      assert !Writable(cells[j], p);
    }
    forall j, p | 0 <= j < |cells'| && InValue(cells'[j], p)
      ensures p in frozen
    {
      assert InValue(cells[j], p);
    }
  }

  lemma AllBelow(d: seq<byte>, tail: nat, idx: seq<uint32>, cells: seq<Cell>)
    requires LayoutOk(d, tail, idx, cells)
    ensures forall j :: 0 <= j < |cells| && cells[j].Live? ==>
              cells[j].kOff + RECORD_SIZE <= tail && cells[j].vOff + cells[j].cap <= tail
  {
    forall j | 0 <= j < |cells| && cells[j].Live?
      ensures cells[j].kOff + RECORD_SIZE <= tail && cells[j].vOff + cells[j].cap <= tail
    {
      assert Holds(d, tail, idx[j], cells[j]);
    }
  }

  /** The frozen bytes after writing the new record `c`. */
  ghost function Freeze(frozen: set<int>, c: Cell): set<int>
    requires c.Live?
  {
    if c.kind == Short then frozen else frozen + set p | c.vOff <= p < c.vOff + c.cap && InValue(c, p)
  }

  /** A record whose value region starts at the old tail leaves the frozen bytes out of reach. */
  lemma FrozenReplace(frozen: set<int>, tail: nat, cells: seq<Cell>, i: nat, c: Cell, tail': nat)
    requires FrozenOk(frozen, tail, cells) && i < |cells| && tail <= tail'
    requires c.Live? && BUFFER_SIZE <= tail <= c.vOff && c.vOff + c.cap <= tail'
    requires c.kOff + RECORD_SIZE <= c.vOff
    requires tail <= c.kOff || (cells[i].Live? && cells[i].kOff == c.kOff)
    requires forall j :: 0 <= j < |cells| && cells[j].Live? ==>
               cells[j].kOff + RECORD_SIZE <= tail && cells[j].vOff + cells[j].cap <= tail
    ensures FrozenOk(Freeze(frozen, c), tail', cells[i := c])
  {
    var cells' := cells[i := c];
    var f := Freeze(frozen, c);
    forall j, p | 0 <= j < |cells'| && p in f
      ensures !Writable(cells'[j], p)
    {
      if p in frozen {
        assert !Writable(cells[j], p);
      }
    }
    forall j, p | 0 <= j < |cells'| && InValue(cells'[j], p)
      ensures p in f
    {
      if j != i {
        assert InValue(cells[j], p);
      }
    }
  }
}
