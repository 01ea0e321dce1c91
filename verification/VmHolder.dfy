/** The arena object of a shard: its bytes, its counters and its reference count. */
module VmHolder {
  import opened VmBytes
  import opened VmArena
  import opened VmLayout

  class KvHolder {
    const data: array<byte>
    var tail: nat
    var cap: nat
    var valUsed: nat
    var items: nat
    var limit: nat
    var ref: int
    var freed: bool
    /** Bytes a reader may have been handed; never written again. */
    ghost var frozen: set<int>
    /** Readers that have not run their closer, and whether a shard still owns this arena. */
    ghost var readers: nat
    ghost var owned: bool

    /** The reference count covers the owning shard and every reader; memory goes back at zero. */
    ghost predicate RefOk()
      reads this
    {
      && ref == readers + (if owned then 1 else 0)
      && (freed <==> ref == 0)
    }

    constructor (size: nat)
      ensures tail == BUFFER_SIZE && cap == size && valUsed == 0 && items == 0
      ensures limit == size * 999 / 1000
      ensures data.Length == BUFFER_SIZE + size && fresh(data)
      ensures frozen == {} && readers == 0 && owned && RefOk()
    {
      data := new byte[BUFFER_SIZE + size](_ => 0);
      tail, cap, valUsed, items := BUFFER_SIZE, size, 0, 0;
      limit := size * 999 / 1000;
      ref, freed := 1, false;
      frozen, readers, owned := {}, 0, true;
    }

    /** A reader takes a share of the buffer; only a buffer still referenced can be shared. */
    method Acquire()
      requires RefOk() && ref >= 1
      modifies this`ref, this`readers
      ensures RefOk() && !freed && readers == old(readers) + 1
    {
      ref := ref + 1;
      assert ref > 1;  // the code panics on an inconsistent count here
      readers := readers + 1;
    }

    /** The closer handed out with a value. */
    method CloseReader()
      requires RefOk() && readers > 0
      modifies this`ref, this`readers, this`freed
      ensures RefOk() && readers == old(readers) - 1
      ensures owned || readers > 0 ==> !freed
    {
      ref := ref - 1;
      assert ref >= 0;  // the code panics on an inconsistent count here
      readers := readers - 1;
      if ref == 0 {
        freed := true;
      }
    }

    /** The owning shard moves to another arena. */
    method ReleaseOwner()
      requires RefOk() && owned
      modifies this`ref, this`owned, this`freed
      ensures RefOk() && !owned
      ensures readers > 0 ==> !freed
    {
      ref := ref - 1;
      assert ref >= 0;
      owned := false;
      if ref == 0 {
        freed := true;
      }
    }

    /** One record fewer, and its bytes no longer charged. */
    method Uncharge(refund: nat)
      requires refund <= valUsed && items > 0
      modifies this`valUsed, this`items
      ensures valUsed == old(valUsed) - refund && items == old(items) - 1
    {
      valUsed := valUsed - refund;
      items := items - 1;
    }

    method StoreWord(off: nat, x: uint32)
      requires off + 4 <= data.Length
      modifies data
      ensures data[..] == Blit(old(data[..]), off, WordBytes(x))
    {
      CopyBytes(data, off, WordBytes(x));
    }

    /** Writes a header, and a value given in pieces, over what is there. */
    method Overwrite(kEnd: nat, h: uint32, off: nat, vals: seq<seq<byte>>)
      requires kEnd + 4 <= data.Length && off + |Flatten(vals)| <= data.Length
      modifies data
      ensures data[..] == Blit(Blit(old(data[..]), kEnd, WordBytes(h)), off, Flatten(vals))
    {
      hide *;
      StoreWord(kEnd, h);
      CopyPieces(data, off, vals);
    }

    /** Writes a value given in pieces at `off`, with its length word first when it is long. */
    method WriteValue(off: nat, vals: seq<seq<byte>>, vlen: nat, ghost v: seq<byte>)
      requires v == Flatten(vals) && vlen == |v|
      requires |v| < 0x1_0000_0000 && off + |ValueBytes(v)| <= data.Length
      modifies data
      ensures data[..] == Blit(old(data[..]), off, ValueBytes(v))
    {
      ghost var d := data[..];
      if vlen >= OVER_LONG {
        StoreWord(off, vlen);
        CopyPieces(data, off + 4, vals);
        TwoBlits(d, off, WordBytes(vlen), v);
      } else {
        CopyPieces(data, off, vals);
      }
    }

    /** Writes key, header and value at the tail. */
    method WriteRecord(k: Key, v: seq<byte>)
      requires |v| < 0x1_0000_0000 && tail + RECORD_SIZE + ValueCap(|v|) <= data.Length
      requires HeaderWord(tail + RECORD_SIZE, KindOf(|v|), |v|) < 0x1_0000_0000
      modifies data
      ensures Appended(old(data[..]), data[..], tail, k, v)
    {
      var kEnd := tail + KEY_SIZE;
      var vOffset := kEnd + 4;
      ghost var d := data[..];
      CopyBytes(data, tail, k);
      StoreWord(kEnd, HeaderWord(vOffset, KindOf(|v|), |v|));
      FlattenOne(v);
      WriteValue(vOffset, [v], |v|, v);
      AppendedByBlits(d, data[..], tail, k, v);
    }

    /** Writes a new value region at the tail and points the record at `kOff` to it. */
    method Relocate(kOff: nat, vals: seq<seq<byte>>, vlen: nat, ghost v: seq<byte>, ntail: nat, refund: nat,
                    ghost frozen': set<int>)
      returns (ki: uint32)
      requires v == Flatten(vals) && vlen == |v|
      requires |v| < 0x1_0000_0000 && kOff + RECORD_SIZE <= tail && tail + ValueCap(|v|) <= data.Length
      requires IndexWord(kOff, KindOf(|v|), ValueCap(|v|), |v|) < 0x1_0000_0000
      requires HeaderWord(tail, KindOf(|v|), |v|) < 0x1_0000_0000
      requires refund <= valUsed
      modifies this`tail, this`valUsed, this`frozen, data
      ensures ki == IndexWord(kOff, KindOf(|v|), ValueCap(|v|), |v|)
      ensures Relocated(old(data[..]), data[..], old(tail), kOff, v)
      ensures tail == ntail && valUsed == old(valUsed) - refund + ValueCap(|v|) && frozen == frozen'
    {
      var vOffset := tail;
      var h := HeaderWord(vOffset, KindOf(vlen), vlen);
      ghost var d := data[..];
      WriteValue(vOffset, vals, vlen, v);
      ki := IndexWord(kOff, KindOf(vlen), ValueCap(vlen), vlen);
      StoreWord(kOff + KEY_SIZE, h);
      tail := ntail;
      valUsed := valUsed - refund + ValueCap(vlen);
      frozen := frozen';
      RelocatedByBlits(d, data[..], kOff, v, vOffset, h);
    }

    /** Appends a record and its value; fails, changing nothing, when the arena is full. */
    method GcSet(k: Key, v: seq<byte>) returns (ki: uint32, fail: bool)
      requires |v| < 0x1_0000_0000 && data.Length == BUFFER_SIZE + cap && cap <= MAX_ARENA
      requires BUFFER_SIZE <= tail && tail % 4 == 0
      requires tail + RECORD_SIZE + ValueCap(|v|) <= cap ==> tail + RECORD_SIZE < MAX_ARENA
      modifies this`tail, this`valUsed, this`items, data
      ensures fail <==> old(tail) + RECORD_SIZE + ValueCap(|v|) > cap
      ensures fail ==> tail == old(tail) && valUsed == old(valUsed) && items == old(items) && data[..] == old(data[..])
      ensures !fail ==>
                && ki == IndexWord(old(tail), KindOf(|v|), ValueCap(|v|), |v|)
                && tail == old(tail) + RECORD_SIZE + ValueCap(|v|)
                && items == old(items) + 1 && valUsed == old(valUsed) + ValueCap(|v|)
                && Appended(old(data[..]), data[..], old(tail), k, v)
    {
      var vCap := ValueCap(|v|);
      var ntail := tail + RECORD_SIZE + vCap;
      if ntail > cap {
        return 0, true;
      }
      fail := false;
      AppendedPlaced(tail, k, v);
      ghost var c := Live(k, tail, KindOf(|v|), tail + RECORD_SIZE, vCap, v);
      IndexWordFields(c, ntail);
      HeaderWordFields(c, ntail);
      ki := IndexWord(tail, KindOf(|v|), vCap, |v|);
      WriteRecord(k, v);
      items := items + 1;
      valUsed := valUsed + vCap;
      tail := ntail;
    }
  }

  lemma ThreeBlits(d: seq<byte>, r: seq<byte>, a: nat, s: seq<byte>, t: seq<byte>, u: seq<byte>)
    requires a + |s| + |t| + |u| <= |d|
    requires r == Blit(Blit(Blit(d, a, s), a + |s|, t), a + |s| + |t|, u)
    ensures |r| == |d| && r[..a] == d[..a]
    ensures r[a..a + |s|] == s
    ensures r[a + |s|..a + |s| + |t|] == t
    ensures r[a + |s| + |t|..a + |s| + |t| + |u|] == u
  {
  }

  lemma SlicedWord(d: seq<byte>, off: nat, x: uint32)
    requires off + 4 <= |d| && d[off..off + 4] == WordBytes(x)
    ensures LoadWord(d, off) == x
  {
    WordBytesValue(x);
    var s := d[off..off + 4];
    assert d[off] == s[0] && d[off + 1] == s[1] && d[off + 2] == s[2] && d[off + 3] == s[3];
  }

  lemma AppendedByBlits(d: seq<byte>, r: seq<byte>, tail: nat, k: Key, v: seq<byte>)
    requires |v| < 0x1_0000_0000 && tail + RECORD_SIZE + ValueCap(|v|) <= |d|
    requires HeaderWord(tail + RECORD_SIZE, KindOf(|v|), |v|) < 0x1_0000_0000
    requires var d1 := Blit(d, tail, k);
             var d2 := Blit(d1, tail + KEY_SIZE, WordBytes(HeaderWord(tail + RECORD_SIZE, KindOf(|v|), |v|)));
             r == Blit(d2, tail + RECORD_SIZE, ValueBytes(v))
    ensures Appended(d, r, tail, k, v)
  {
    var w := WordBytes(HeaderWord(tail + RECORD_SIZE, KindOf(|v|), |v|));
    ThreeBlits(d, r, tail, k, w, ValueBytes(v));
    SlicedWord(r, tail + KEY_SIZE, HeaderWord(tail + RECORD_SIZE, KindOf(|v|), |v|));
  }

  /** The updated word and value of a short record, seen after the two writes. */
  lemma OverwrittenByBlits(d: seq<byte>, r: seq<byte>, c: Cell, v: seq<byte>, tail: nat, h: uint32)
    requires c.Live? && Placed(c, tail) && tail <= |d| && |v| <= c.cap
    requires h == HeaderWord(c.vOff, Short, |v|)
    requires r == Blit(Blit(d, c.kOff + KEY_SIZE, WordBytes(h)), c.vOff, v)
    ensures Overwritten(d, r, c, v)
  {
    hide Blit, WordBytes, HeaderWord, LoadWord, Cap4;
    var w := WordBytes(h);
    OverwriteBytes(d, r, c.kOff + KEY_SIZE, w, c.vOff, v);
    SlicedWord(r, c.kOff + KEY_SIZE, h);
  }

  lemma OverwriteBytes(d: seq<byte>, r: seq<byte>, a: nat, w: seq<byte>, b: nat, v: seq<byte>)
    requires a + |w| <= |d| && b + |v| <= |d| && (a + |w| <= b || b + |v| <= a)
    requires r == Blit(Blit(d, a, w), b, v)
    ensures |r| == |d| && r[a..a + |w|] == w && r[b..b + |v|] == v
    ensures forall p :: 0 <= p < |d| ==> (a <= p < a + |w|) || (b <= p < b + |v|) || r[p] == d[p]
  {
  }

  /** A value region at the tail and the header that points to it, seen after the two writes. */
  lemma RelocatedByBlits(d: seq<byte>, r: seq<byte>, kOff: nat, v: seq<byte>, tail: nat, h: uint32)
    requires |v| < 0x1_0000_0000 && kOff + RECORD_SIZE <= tail && tail + ValueCap(|v|) <= |d|
    requires h == HeaderWord(tail, KindOf(|v|), |v|)
    requires r == Blit(Blit(d, tail, ValueBytes(v)), kOff + KEY_SIZE, WordBytes(h))
    ensures Relocated(d, r, tail, kOff, v)
  {
    var w := WordBytes(h);
    RelocateBytes(d, r, tail, ValueBytes(v), kOff + KEY_SIZE, w);
    SlicedWord(r, kOff + KEY_SIZE, h);
  }

  lemma RelocateBytes(d: seq<byte>, r: seq<byte>, a: nat, vb: seq<byte>, b: nat, w: seq<byte>)
    requires b + |w| <= a && a + |vb| <= |d|
    requires r == Blit(Blit(d, a, vb), b, w)
    ensures |r| == |d| && r[..b] == d[..b] && r[b..b + |w|] == w
    ensures r[b + |w|..a] == d[b + |w|..a] && r[a..a + |vb|] == vb
  {
  }
}
