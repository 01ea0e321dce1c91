/**
 The streaming MD5 digest: however a message is cut into writes, and wherever the digest
 is saved and restored in between, the sum is the MD5 of the whole message as RFC 1321
 defines it.
 */
module Md5 {

  import opened Md5Block

  const TWO64: nat := 0x1_0000_0000_0000_0000

  const INIT: State := State(0x67452301, 0xEFCDAB89, 0x98BADCFE, 0x10325476)

  // ---------- RFC 1321, sections 3.1 and 3.2 ----------

  function Zeros(n: nat): (r: seq<byte>)
    ensures |r| == n
  {
    seq(n, _ => 0)
  }

  /** The low `k` bits of a number, and the number they stand for. */
  function Bits(n: nat, k: nat): bv8 {
    if k == 0 then 0 else (if n % 2 == 1 then 1 else 0) | (Bits(n / 2, k - 1) << 1)
  }

  function Value(b: bv8, k: nat): nat {
    if k == 0 then 0 else (if b & 1 == 1 then 1 else 0) + 2 * Value(b >> 1, k - 1)
  }

  function ByteOf(n: nat): byte { Bits(n, 8) }

  /** The low 64 bits of a number, least significant byte first. */
  function Little(n: nat, k: nat): (r: seq<byte>)
    ensures |r| == k
  {
    if k == 0 then [] else [ByteOf(n)] + Little(n / 256, k - 1)
  }

  lemma PadMod(len: nat)
    ensures (len + 1 + (55 - len) % 64 + 8) % 64 == 0
  {
  }

  /** A one bit, zeros up to 56 modulo 64, and the length in bits. */
  function Padding(len: nat): (r: seq<byte>)
    ensures (len + |r|) % 64 == 0
  {
    var pad := (55 - len) % 64;
    PadMod(len);
    [0x80] + Zeros(pad) + Little(len * 8 % TWO64, 8)
  }

  function WordBytes(w: bv32): (r: seq<byte>)
    ensures |r| == 4
  {
    [(w & 0xff) as bv8, ((w >> 8) & 0xff) as bv8, ((w >> 16) & 0xff) as bv8, (w >> 24) as bv8]
  }

  function Output(s: State): seq<byte> {
    WordBytes(s.a) + WordBytes(s.b) + WordBytes(s.c) + WordBytes(s.d)
  }

  function Sum(message: seq<byte>): seq<byte> { Output(Absorb(INIT, message + Padding(|message|))) }

  /** Copies as much of `p` as fits behind the first `at` bytes of a block. */
  method CopyInto(x: array<byte>, at: nat, p: seq<byte>) returns (n: nat)
    requires x.Length == 64 && at <= 64
    modifies x
    ensures n == if |p| < 64 - at then |p| else 64 - at
    ensures x[..at + n] == old(x[..at]) + p[..n]
  {
    n := if |p| < 64 - at then |p| else 64 - at;
    for i := 0 to n
      invariant x[..at + i] == old(x[..at]) + p[..i]
    {
      x[at + i] := p[i];
    }
  }

  // ---------- The digest ----------

  class Digest {
    var s: State
    const x: array<byte>
    var nx: nat
    var len: nat
    // The whole blocks absorbed so far.
    ghost var done: seq<byte>

    ghost predicate Valid()
      reads this, x
    {
      && x.Length == 64 && nx < 64
      && |done| % 64 == 0 && s == Absorb(INIT, done)
      && len == (|done| + nx) % TWO64
    }

    /** Everything written: the blocks absorbed and what waits in the buffer. */
    ghost function Message(): seq<byte>
      requires x.Length == 64 && nx <= 64
      reads this, x
    {
      done + x[..nx]
    }

    constructor ()
      ensures Valid() && Message() == [] && fresh(x)
    {
      s := INIT;
      x := new byte[64](_ => 0);
      nx, len, done := 0, 0, [];
    }

    /** A copy that can be finished while the original goes on. */
    constructor Copy(d: Digest)
      requires d.Valid()
      ensures Valid() && Message() == d.Message() && fresh(x)
    {
      hide Absorb;
      s := d.s;
      x := new byte[64](_ => 0);
      nx, len, done := d.nx, d.len, d.done;
      new;
      for i := 0 to 64
        invariant x[..i] == d.x[..i] && d.Valid() && fresh(x)
        invariant s == d.s && nx == d.nx && len == d.len && done == d.done
      {
        x[i] := d.x[i];
      }
      assert x[..nx] == d.x[..nx];
    }

    /** Absorbs whole blocks when the buffer is empty. */
    method Block(p: seq<byte>)
      requires x.Length == 64 && |done| % 64 == 0 && s == Absorb(INIT, done) && |p| % 64 == 0
      modifies this`s, this`done
      ensures |done| % 64 == 0 && s == Absorb(INIT, done) && done == old(done) + p
    {
      hide Absorb;
      AbsorbMore(INIT, done, p);
      s := BlockGeneric(s, p);
      assert p[..|p|] == p;
      done := done + p;
      MultipleSum(|p|, |old(done)|);
    }

    ghost predicate Core()
      reads this`s, this`done
    {
      x.Length == 64 && |done| % 64 == 0 && s == Absorb(INIT, done)
    }

    /** Fills up a partly filled buffer and absorbs it when full; returns what is left. */
    method TopUp(p: seq<byte>) returns (rest: seq<byte>)
      requires Core() && 0 < nx < 64
      modifies this`s, this`done, this`nx, x
      ensures Core() && nx < 64 && (nx > 0 ==> rest == [])
      ensures Message() + rest == old(Message()) + p
    {
      hide Absorb;
      ghost var start := Message();
      var n := CopyInto(x, nx, p);
      nx := nx + n;
      rest := p[n..];
      assert Message() == start + p[..n];
      assert p == p[..n] + rest;
      assert Message() + rest == start + p;
      if nx == 64 {
        assert x[..nx] == x[..];
        ghost var full := Message();
        Block(x[..]);
        nx := 0;
        assert Message() == full;
      }
    }

    /** Absorbs whole blocks and keeps the remainder; the buffer is empty before. */
    method Refill(p: seq<byte>)
      requires Core() && nx == 0
      modifies this`s, this`done, this`nx, x
      ensures Core() && nx < 64 && Message() == old(Message()) + p
    {
      hide Absorb;
      ghost var start := done;
      var rest := p;
      if |p| >= 64 {
        var n := |p| - |p| % 64;
        WholeBlocks(|p|);
        Block(p[..n]);
        assert p == p[..n] + p[n..];
        rest := p[n..];
      }
      assert done + rest == start + p;
      if |rest| > 0 {
        var n := CopyInto(x, 0, rest);
        assert rest[..n] == rest;
        nx := n;
      }
    }

    method Write(p: seq<byte>)
      requires Valid()
      modifies this, x
      ensures Valid() && Message() == old(Message()) + p
    {
      hide Absorb, Core;
      ghost var start := Message();
      WrapSum(|start|, |p|);
      assert Core() by { ValidCore(); }
      len := (len + |p|) % TWO64;
      var rest := p;
      if nx > 0 {
        rest := TopUp(p);
      }
      if nx == 0 {
        Refill(rest);
      }
      assert Message() == start + p;
      CoreValid();
    }

    /** Pads and finishes; a whole number of blocks has then been absorbed. */
    method CheckSum() returns (h: seq<byte>, panicked: bool)
      requires Valid()
      modifies this, x
      ensures !panicked && h == Sum(old(Message()))
    {
      hide Absorb;
      ghost var start := Message();
      var pad := (55 - len) % 64;
      var tmp := [0x80] + Zeros(pad) + Little(len * 8 % TWO64, 8);
      PaddingIs(|start|, len);
      Write(tmp);
      panicked := nx != 0;
      NoRemainder(|done|, nx, |start| + |tmp|);
      assert done == start + tmp;
      h := Output(s);
    }

    /** The sum of what has been written; the digest can go on. */
    method SumOf() returns (h: seq<byte>)
      requires Valid()
      ensures h == Sum(Message())
    {
      var d := new Digest.Copy(this);
      var panicked;
      h, panicked := d.CheckSum();
    }

    // ---------- Saving and restoring ----------

    method MarshalBinary() returns (b: seq<byte>)
      requires Valid()
      ensures b == Saved(s, x[..nx] + Zeros(64 - nx), len)
    {
      b := Saved(s, x[..nx] + Zeros(64 - nx), len);
    }

    method UnmarshalBinary(b: seq<byte>) returns (ok: bool)
      requires x.Length == 64
      modifies this`s, this`nx, this`len, x
      ensures ok <==> |b| == 92 && b[..4] == MAGIC
      ensures ok ==> s == LoadState(b[4..20]) && x[..] == b[20..84] && len == FromBig(b[84..]) && nx == len % 64
    {
      if |b| < 4 || b[..4] != MAGIC || |b| != 92 {
        return false;
      }
      s := LoadState(b[4..20]);
      var data := b[20..84];
      for i := 0 to 64
        invariant x[..i] == data[..i] && s == LoadState(b[4..20])
      {
        x[i] := data[i];
      }
      assert data[..64] == data && x[..64] == x[..];
      len := FromBig(b[84..]);
      nx := len % 64;
      ok := true;
    }

    lemma ValidCore()
      requires Valid()
      ensures Core()
    {
    }

    lemma CoreValid()
      requires Core() && nx < 64 && len == (|done| + nx) % TWO64
      ensures Valid()
    {
    }
  }

  /** However a message is cut into writes, its sum is the same. */
  method SumOfChunks(chunks: seq<seq<byte>>) returns (h: seq<byte>)
    ensures h == Sum(Joined(chunks))
  {
    hide Sum, Absorb, Digest.Valid, Digest.Core;
    var d := new Digest();
    for i := 0 to |chunks|
      invariant d.Valid() && fresh(d) && fresh(d.x) && d.x.Length == 64 && d.nx < 64
      invariant d.Message() == Joined(chunks[..i])
    {
      assert chunks[..i + 1][..i] == chunks[..i];
      d.Write(chunks[i]);
      Sizes(d);
    }
    assert chunks[..|chunks|] == chunks;
    h := d.SumOf();
  }

  /** `s` has absorbed the whole blocks `done`. */
  ghost predicate Absorbed(s: State, done: seq<byte>) {
    |done| % 64 == 0 && s == Absorb(INIT, done)
  }

  lemma AbsorbedMore(s: State, done: seq<byte>, p: seq<byte>, s': State)
    requires Absorbed(s, done) && |p| % 64 == 0 && s' == Absorb(s, p)
    ensures Absorbed(s', done + p)
  {
    AbsorbMore(INIT, done, p);
    MultipleSum(|p|, |done|);
  }

  lemma BlocksAbsorbed(s: State, done: seq<byte>, p: seq<byte>, s': State)
    requires |p| % 64 == 0 && Absorbed(s, done) && s' == Absorb(s, p[..|p| - |p| % 64])
    ensures Absorbed(s', done + p)
  {
    hide Absorb, Absorbed;
    assert p[..|p|] == p;
    AbsorbedMore(s, done, p, s');
  }

  /** The first part of the fused form: the message is absorbed up to its last incomplete block. */
  method FusedMessage(p: seq<byte>, x: array<byte>) returns (s: State, nx: nat, ghost done: seq<byte>)
    requires x.Length == 64
    modifies x
    ensures nx < 64 && Absorbed(s, done) && done + x[..nx] == p
  {
    hide Absorb, Absorbed;
    s, nx, done := INIT, 0, [];
    NothingAbsorbed();
    var q := p;
    if nx > 0 {
      assert false;
    }
    if |q| >= 64 {
      var n := |q| - |q| % 64;
      WholeBlocks(|q|);
      ghost var s0 := s;
      s := BlockGeneric(s, q[..n]);
      BlocksAbsorbed(s0, done, q[..n], s);
      done := done + q[..n];
      q := q[n..];
      assert done + q == p;
    }
    if |q| > 0 {
      nx := CopyInto(x, 0, q);
      assert q[..nx] == q;
    }
  }

  /** The second part, first half: the padding fills up the buffer, which is absorbed when full. */
  method FusedTopUp(s: State, x: array<byte>, nx: nat, p: seq<byte>, ghost done: seq<byte>)
    returns (s': State, nx': nat, rest: seq<byte>, ghost done': seq<byte>)
    requires x.Length == 64 && 0 < nx < 64 && Absorbed(s, done)
    modifies x
    ensures nx' < 64 && Absorbed(s', done') && (nx' > 0 ==> rest == [])
    ensures done' + x[..nx'] + rest == old(done + x[..nx]) + p
  {
    hide Absorb, Absorbed;
    s', done' := s, done;
    var n := CopyInto(x, nx, p);
    nx', rest := nx + n, p[n..];
    assert p == p[..n] + rest;
    assert done + x[..nx'] + rest == old(done + x[..nx]) + p;
    if nx' == 64 {
      assert x[..nx'] == x[..];
      s' := BlockGeneric(s, x[..]);
      BlocksAbsorbed(s, done, x[..], s');
      done' := done + x[..];
      nx' := 0;
      assert x[..0] == [] && done' + [] == done';
    }
  }

  /** The second half: what is left of the padding is absorbed in whole blocks. */
  method FusedTail(s: State, x: array<byte>, p: seq<byte>, ghost done: seq<byte>)
    returns (s': State, nx': nat, ghost done': seq<byte>)
    requires x.Length == 64 && Absorbed(s, done)
    modifies x
    ensures nx' < 64 && Absorbed(s', done') && done' + x[..nx'] == done + p
  {
    hide Absorb, Absorbed;
    s', nx', done' := s, 0, done;
    var tp := p;
    if |tp| >= 64 {
      var n := |tp| - |tp| % 64;
      WholeBlocks(|tp|);
      s' := BlockGeneric(s, tp[..n]);
      BlocksAbsorbed(s, done, tp[..n], s');
      assert tp == tp[..n] + tp[n..];
      done' := done + tp[..n];
      tp := tp[n..];
    }
    assert done' + tp == done + p;
    if |tp| > 0 {
      nx' := CopyInto(x, 0, tp);
      assert tp[..nx'] == tp;
    }
  }

  /**
   The fused form used for keys: no digest object, the length set in advance, and writing unfolded
   once for the message and once for the padding. It gives the sum and its two halves as numbers.
   */
  method Md5Sum(p: seq<byte>) returns (h: seq<byte>, hi: nat, lo: nat, panicked: bool)
    ensures !panicked && h == Sum(p) && |h| == 16 && hi == FromBig(h[..8]) && lo == FromBig(h[8..])
  {
    hide Absorb, Absorbed, Little, FromBig;
    var len := |p| % TWO64;
    var x := new byte[64](_ => 0);
    var s, nx, done := FusedMessage(p, x);
    var pad := (55 - len) % 64;
    var tp := [0x80] + Zeros(pad) + Little(len * 8 % TWO64, 8);
    PaddingIs(|p|, len);
    ghost var all := p + tp;
    len := (len + |tp|) % TWO64;
    if nx > 0 {
      s, nx, tp, done := FusedTopUp(s, x, nx, tp, done);
    }
    assert done + x[..nx] + tp == all;
    if |tp| > 0 {
      assert nx == 0 && done + tp == all;
      s, nx, done := FusedTail(s, x, tp, done);
    }
    assert done + x[..nx] == all;
    panicked := nx != 0;
    assert nx == 0 && done == all by {
      AbsorbedWhole(s, done);
      NoRemainder(|done|, nx, |all|);
    }
    h := Output(s);
    assert h == Sum(p) by { AbsorbedIs(s, all); }
    hi, lo := FromBig(h[..8]), FromBig(h[8..]);
  }

  lemma NothingAbsorbed()
    ensures Absorbed(INIT, [])
  {
  }

  lemma AbsorbedIs(s: State, done: seq<byte>)
    requires Absorbed(s, done)
    ensures s == Absorb(INIT, done)
  {
  }

  lemma AbsorbedWhole(s: State, done: seq<byte>)
    requires Absorbed(s, done)
    ensures |done| % 64 == 0
  {
  }

  lemma Sizes(d: Digest)
    requires d.Valid()
    ensures d.x.Length == 64 && d.nx < 64
  {
  }

  function Joined(chunks: seq<seq<byte>>): seq<byte> {
    if chunks == [] then [] else Joined(chunks[..|chunks| - 1]) + chunks[|chunks| - 1]
  }

  /** A digest saved and restored elsewhere goes on as if nothing had happened. */
  method Resume(d: Digest) returns (e: Digest)
    requires d.Valid()
    ensures fresh(e) && fresh(e.x) && e.Valid() && e.Message() == d.Message()
  {
    hide Absorb, Saved, SaveState, LoadState, FromBig, Big, Compress, Steps, Padding, Little, Bits, Value, Power, Zeros;
    RemainderIs(|d.done|, d.nx);
    ghost var buf := d.x[..d.nx] + Zeros(64 - d.nx);
    SavedParts(d.s, buf, d.len);
    var b := d.MarshalBinary();
    e := new Digest();
    var ok := e.UnmarshalBinary(b);
    e.done := d.done;
    assert e.x[..e.nx] == buf[..d.nx] == d.x[..d.nx];
  }

  // ---------- The saved form ----------

  const MAGIC: seq<byte> := [109, 100, 53, 1]

  function BigWord(w: bv32): (r: seq<byte>)
    ensures |r| == 4
  {
    [(w >> 24) as bv8, ((w >> 16) & 0xff) as bv8, ((w >> 8) & 0xff) as bv8, (w & 0xff) as bv8]
  }

  function LoadWord(b: seq<byte>): bv32
    requires |b| == 4
  {
    ((b[0] as bv32) << 24) | ((b[1] as bv32) << 16) | ((b[2] as bv32) << 8) | (b[3] as bv32)
  }

  lemma WordRoundTrip(w: bv32)
    ensures LoadWord(BigWord(w)) == w
  {
  }

  function SaveState(s: State): (r: seq<byte>)
    ensures |r| == 16
  {
    BigWord(s.a) + BigWord(s.b) + BigWord(s.c) + BigWord(s.d)
  }

  function LoadState(b: seq<byte>): State
    requires |b| == 16
  {
    State(LoadWord(b[0..4]), LoadWord(b[4..8]), LoadWord(b[8..12]), LoadWord(b[12..16]))
  }

  lemma StateRoundTrip(s: State)
    ensures LoadState(SaveState(s)) == s
  {
    hide BigWord, LoadWord;
    var b := SaveState(s);
    assert b[0..4] == BigWord(s.a) && b[4..8] == BigWord(s.b) && b[8..12] == BigWord(s.c) && b[12..16] == BigWord(s.d);
    WordRoundTrip(s.a);
    WordRoundTrip(s.b);
    WordRoundTrip(s.c);
    WordRoundTrip(s.d);
  }

  /** A number, most significant byte first. */
  function Big(n: nat, k: nat): (r: seq<byte>)
    ensures |r| == k
  {
    if k == 0 then [] else Big(n / 256, k - 1) + [ByteOf(n)]
  }

  function FromBig(b: seq<byte>): nat {
    if b == [] then 0 else FromBig(b[..|b| - 1]) * 256 + Value(b[|b| - 1], 8)
  }

  function Power(k: nat): nat { if k == 0 then 1 else 256 * Power(k - 1) }

  /** Least significant byte first is the same in reverse. */
  lemma {:induction false} LittleReversed(n: nat, k: nat, i: nat)
    requires i < k
    ensures Little(n, k)[i] == Big(n, k)[k - 1 - i]
  {
    if i > 0 {
      LittleReversed(n / 256, k - 1, i - 1);
    }
  }

  lemma {:induction false} BigRoundTrip(n: nat, k: nat)
    requires n < Power(k)
    ensures FromBig(Big(n, k)) == n
  {
    if k > 0 {
      var b := Big(n, k);
      assert b[..k - 1] == Big(n / 256, k - 1);
      Smaller(n, k);
      BigRoundTrip(n / 256, k - 1);
      ByteValue(n);
    }
  }

  lemma Smaller(n: nat, k: nat)
    requires k > 0 && n < Power(k)
    ensures n / 256 < Power(k - 1)
  {
  }

  lemma Unshift(c: bv8, r: bv8)
    requires c & 0x80 == 0 && (r == 0 || r == 1)
    ensures (r | (c << 1)) >> 1 == c && (r | (c << 1)) & 1 == r
  {
  }

  lemma HighClear(c: bv8, r: bv8, k: nat)
    requires k < 7 && Clear(c, k) && (r == 0 || r == 1)
    ensures Clear(r | (c << 1), k + 1)
  {
  }

  /** The bits from `k` on are zero. */
  predicate Clear(c: bv8, k: nat) {
    match k
    case 0 => c == 0
    case 1 => c & 0xfe == 0
    case 2 => c & 0xfc == 0
    case 3 => c & 0xf8 == 0
    case 4 => c & 0xf0 == 0
    case 5 => c & 0xe0 == 0
    case 6 => c & 0xc0 == 0
    case _ => c & 0x80 == 0
  }

  lemma {:induction false} BitsClear(n: nat, k: nat)
    requires k <= 7
    ensures Clear(Bits(n, k), k)
  {
    if k > 0 {
      hide Clear;
      BitsClear(n / 2, k - 1);
      HighClear(Bits(n / 2, k - 1), if n % 2 == 1 then 1 else 0, k - 1);
    }
  }

  function Pow2(k: nat): (r: nat)
    ensures r > 0
  {
    if k == 0 then 1 else 2 * Pow2(k - 1)
  }

  lemma {:induction false} BitsValue(n: nat, k: nat)
    requires k <= 8
    ensures Value(Bits(n, k), k) == n % Pow2(k)
  {
    if k > 0 {
      var c: bv8, r: bv8 := Bits(n / 2, k - 1), if n % 2 == 1 then 1 else 0;
      BitsClear(n / 2, k - 1);
      ClearTop(c, k - 1);
      Unshift(c, r);
      BitsValue(n / 2, k - 1);
      HalfMod(n, Pow2(k - 1));
    }
  }

  lemma ClearTop(c: bv8, k: nat)
    requires k <= 7 && Clear(c, k)
    ensures c & 0x80 == 0
  {
  }

  lemma HalfMod(n: nat, m: nat)
    requires m > 0
    ensures n % 2 + 2 * (n / 2 % m) == n % (2 * m)
  {
    var h := n / 2;
    var q, r := h / m, h % m;
    assert n == 2 * h + n % 2 && h == q * m + r;
    assert n == q * (2 * m) + (2 * r + n % 2);
    ModIs(n, 2 * m, q, 2 * r + n % 2);
  }

  lemma ModIs(n: nat, m: nat, q: nat, r: nat)
    requires n == q * m + r && r < m
    ensures n % m == r
  {
    var p, t := n / m, n % m;
    assert n == p * m + t;
    if p < q {
      MulStep(p, q, m);
    } else if p > q {
      MulStep(q, p, m);
    }
  }

  lemma MulStep(a: nat, b: nat, m: nat)
    requires a < b
    ensures a * m + m <= b * m
  {
    var k := b - a - 1;
    assert b * m == a * m + m + k * m;
  }

  lemma ByteValue(n: nat)
    ensures Value(ByteOf(n), 8) == n % 256
  {
    BitsValue(n, 8);
    assert Pow2(4) == 16;
  }

  function Saved(s: State, buf: seq<byte>, len: nat): (r: seq<byte>)
    requires |buf| == 64
    ensures |r| == 92
  {
    MAGIC + SaveState(s) + buf + Big(len, 8)
  }

  lemma SavedParts(s: State, buf: seq<byte>, len: nat)
    requires |buf| == 64 && len < TWO64
    ensures var b := Saved(s, buf, len);
            && b[..4] == MAGIC == [109, 100, 53, 1] && LoadState(b[4..20]) == s
            && b[20..84] == buf && FromBig(b[84..]) == len
  {
    hide SaveState, LoadState, Big, FromBig, Power;
    var b := Saved(s, buf, len);
    assert b[4..20] == SaveState(s);
    assert b[84..] == Big(len, 8);
    StateRoundTrip(s);
    assert Power(8) == TWO64 by { PowerEight(); }
    BigRoundTrip(len, 8);
  }

  lemma PowerEight()
    ensures Power(8) == TWO64
  {
    assert Power(4) == 0x1_0000_0000;
  }

  // ---------- Arithmetic ----------

  lemma PaddingIs(m: nat, len: nat)
    requires len == m % TWO64
    ensures [0x80] + Zeros((55 - len) % 64) + Little(len * 8 % TWO64, 8) == Padding(m)
  {
    var q := m / TWO64;
    assert m == q * TWO64 + len;
    SamePad(q, len);
    SameBits(q, len);
  }

  lemma SamePad(q: nat, len: nat)
    ensures (55 - len) % 64 == (55 - (q * TWO64 + len)) % 64
  {
    var k := q * 0x400_0000_0000_0000;
    assert q * TWO64 == 64 * k;
    Shift64(55 - len, k);
  }

  lemma Shift64(a: int, k: nat)
    ensures (a - 64 * k) % 64 == a % 64
  {
  }

  lemma SameBits(q: nat, len: nat)
    ensures len * 8 % TWO64 == (q * TWO64 + len) * 8 % TWO64
  {
    assert (q * TWO64 + len) * 8 == (q * 8) * TWO64 + len * 8;
    ModDrop(q * 8, len * 8);
  }

  lemma NoRemainder(d: nat, nx: nat, total: nat)
    requires d % 64 == 0 && nx < 64 && d + nx == total && total % 64 == 0
    ensures nx == 0
  {
  }

  lemma RemainderIs(d: nat, nx: nat)
    requires d % 64 == 0 && nx < 64
    ensures (d + nx) % TWO64 % 64 == nx
  {
    var n := d + nx;
    var k := n / TWO64 * 0x400_0000_0000_0000;
    assert n % TWO64 == n - 64 * k;
    Shift64(n, k);
    Rest64(d, nx);
  }

  lemma Rest64(d: nat, nx: nat)
    requires d % 64 == 0 && nx < 64
    ensures (d + nx) % 64 == nx
  {
  }

  lemma MultipleSum(a: nat, b: nat)
    requires a % 64 == 0 && b % 64 == 0
    ensures (a + b) % 64 == 0
  {
  }

  lemma WholeBlocks(n: nat)
    ensures (n - n % 64) % 64 == 0 && n % 64 < 64
  {
  }

  lemma WrapSum(a: nat, b: nat)
    ensures (a % TWO64 + b) % TWO64 == (a + b) % TWO64
  {
    var q, r := a / TWO64, a % TWO64;
    assert a + b == q * TWO64 + (r + b);
    ModDrop(q, r + b);
  }

  lemma ModDrop(q: nat, m: nat)
    ensures (q * TWO64 + m) % TWO64 == m % TWO64
  {
    var k := m / TWO64;
    assert q * TWO64 + m == (q + k) * TWO64 + m % TWO64;
  }
}
