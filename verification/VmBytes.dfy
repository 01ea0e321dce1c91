/** Byte buffers and the big-endian words stored in them. */
module VmBytes {

  type byte = x: int | 0 <= x < 0x100
  type uint32 = x: int | 0 <= x < 0x1_0000_0000

  /** `d` with the bytes of `s` written at `off`, as Go's `copy(d[off:], s)` leaves it. */
  function Blit(d: seq<byte>, off: nat, s: seq<byte>): (r: seq<byte>)
    requires off + |s| <= |d|
    ensures |r| == |d|
    ensures forall i :: 0 <= i < |d| ==> r[i] == if off <= i < off + |s| then s[i - off] else d[i]
  {
    d[..off] + s + d[off + |s|..]
  }

  /** The four bytes of `x`, most significant first. */
  function WordBytes(x: uint32): (r: seq<byte>)
    ensures |r| == 4
  {
    [x / 0x100_0000, x / 0x1_0000 % 0x100, x / 0x100 % 0x100, x % 0x100]
  }

  function FromBytes(b0: int, b1: int, b2: int, b3: int): int {
    b0 * 0x100_0000 + b1 * 0x1_0000 + b2 * 0x100 + b3
  }

  /** The big-endian word at `off`. */
  function LoadWord(d: seq<byte>, off: nat): (r: uint32)
    requires off + 4 <= |d|
  {
    FromBytes(d[off], d[off + 1], d[off + 2], d[off + 3])
  }

  lemma WordBytesValue(x: uint32)
    ensures var b := WordBytes(x); FromBytes(b[0], b[1], b[2], b[3]) == x
  {
    var y := x / 0x100;
    var z := y / 0x100;
    assert x / 0x1_0000 == z;
    assert x / 0x100_0000 == z / 0x100;
  }

  lemma LoadStored(d: seq<byte>, off: nat, x: uint32)
    requires off + 4 <= |d|
    ensures LoadWord(Blit(d, off, WordBytes(x)), off) == x
  {
    WordBytesValue(x);
    var r := Blit(d, off, WordBytes(x));
    assert r[off] == WordBytes(x)[0];
    assert r[off + 1] == WordBytes(x)[1];
    assert r[off + 2] == WordBytes(x)[2];
    assert r[off + 3] == WordBytes(x)[3];
  }

  /** Bytes in `[lo, hi)` are the same in `d` and `e`. */
  ghost predicate SameBytes(d: seq<byte>, e: seq<byte>, lo: int, hi: int)
  {
    |d| == |e| && forall p :: lo <= p < hi && 0 <= p < |d| ==> d[p] == e[p]
  }

  lemma BytesOfWord(b0: byte, b1: byte, b2: byte, b3: byte)
    ensures var x := FromBytes(b0, b1, b2, b3); 0 <= x < 0x1_0000_0000 && WordBytes(x) == [b0, b1, b2, b3]
  {
    var x := FromBytes(b0, b1, b2, b3);
    var z := b0 * 0x100 + b1;
    Parts(b0, 0x100_0000, b1 * 0x1_0000 + b2 * 0x100 + b3);
    Parts(z, 0x1_0000, b2 * 0x100 + b3);
    Parts(z * 0x100 + b2, 0x100, b3);
    Parts(b0, 0x100, b1);
    Parts(z, 0x100, b2);
  }

  lemma Parts(q: nat, m: nat, r: nat)
    requires r < m
    ensures (q * m + r) / m == q && (q * m + r) % m == r
  {
    var d, s := (q * m + r) / m, (q * m + r) % m;
    assert m * d + s == q * m + r;
    assert m * (q - d) == s - r;
    if q > d {
      AtLeast(m, q - d);
    } else if d > q {
      AtLeast(m, d - q);
    }
  }

  lemma AtLeast(m: nat, d: nat)
    requires d > 0
    ensures m * d >= m
  {
    assert m * (d - 1) >= 0;
  }

  /** `copy(a[off:], s)` on a buffer long enough to take all of `s`. */
  method CopyBytes(a: array<byte>, off: nat, s: seq<byte>)
    requires off + |s| <= a.Length
    modifies a
    ensures a[..] == Blit(old(a[..]), off, s)
  {
    for i := 0 to |s|
      invariant forall p :: 0 <= p < a.Length ==>
        a[p] == if off <= p < off + i then s[p - off] else old(a[p])
    {
      a[off + i] := s[i];
    }
  }

  /** Smallest multiple of four not below `size`. */
  function Cap4(size: nat): (r: nat)
    ensures size <= r < size + 4 && r % 4 == 0
  {
    (size + 3) / 4 * 4
  }

  function Flatten(vals: seq<seq<byte>>): seq<byte> {
    if vals == [] then [] else Flatten(vals[..|vals| - 1]) + vals[|vals| - 1]
  }

  lemma FlattenOne(v: seq<byte>)
    ensures Flatten([v]) == v
  {
    assert [v][..0] == [];
  }

  lemma {:induction false} FlattenPrefix(vals: seq<seq<byte>>, i: nat)
    requires i <= |vals|
    ensures |Flatten(vals[..i])| <= |Flatten(vals)|
    decreases |vals|
  {
    if i < |vals| {
      assert vals[..|vals| - 1][..i] == vals[..i];
      FlattenPrefix(vals[..|vals| - 1], i);
    } else {
      assert vals[..i] == vals;
    }
  }

  lemma TwoBlits(d: seq<byte>, off: nat, s: seq<byte>, t: seq<byte>)
    requires off + |s| + |t| <= |d|
    ensures Blit(Blit(d, off, s), off + |s|, t) == Blit(d, off, s + t)
  {
  }

  /** Copying pieces one after another is copying their concatenation. */
  method CopyPieces(a: array<byte>, off: nat, vals: seq<seq<byte>>)
    requires off + |Flatten(vals)| <= a.Length
    modifies a
    ensures a[..] == Blit(old(a[..]), off, Flatten(vals))
  {
    var at := off;
    assert a[..] == Blit(old(a[..]), off, []);
    for i := 0 to |vals|
      invariant at == off + |Flatten(vals[..i])| && at <= a.Length
      invariant a[..] == Blit(old(a[..]), off, Flatten(vals[..i]))
    {
      assert vals[..i + 1][..i] == vals[..i];
      FlattenPrefix(vals, i + 1);
      CopyBytes(a, at, vals[i]);
      TwoBlits(old(a[..]), off, Flatten(vals[..i]), vals[i]);
      at := at + |vals[i]|;
    }
    assert vals[..|vals|] == vals;
  }
}
