/**
 The MD5 compression function: the definition of RFC 1321 (sections 3.3 and 3.4), driven by
 tables, and the unrolled form with cheaper round functions that computes the same.
 */
module Md5Block {

  type byte = bv8

  datatype State = State(a: bv32, b: bv32, c: bv32, d: bv32)

  // ---------- RFC 1321 ----------

  function F(x: bv32, y: bv32, z: bv32): bv32 { (x & y) | (!x & z) }

  function G(x: bv32, y: bv32, z: bv32): bv32 { (x & z) | (y & !z) }

  function H(x: bv32, y: bv32, z: bv32): bv32 { x ^ y ^ z }

  function I(x: bv32, y: bv32, z: bv32): bv32 { y ^ (x | !z) }

  function Rotate(x: bv32, n: nat): bv32
    requires n < 32
  {
    x.RotateLeft(n)
  }

  /** One operation: `b + ((f + a + x + k) <<< n)`. */
  function Turn(f: bv32, a: bv32, b: bv32, x: bv32, k: bv32, n: nat): bv32
    requires n < 32
  {
    b + Rotate(f + a + x + k, n)
  }

  /** The round function of step `i`. */
  function Mix(i: nat, s: State): bv32 {
    if i < 16 then F(s.b, s.c, s.d)
    else if i < 32 then G(s.b, s.c, s.d)
    else if i < 48 then H(s.b, s.c, s.d)
    else I(s.b, s.c, s.d)
  }

  /** The word used in step `i`. */
  function Word(i: nat): (k: nat)
    ensures k < 16
  {
    if i < 16 then i % 16
    else if i < 32 then (5 * i + 1) % 16
    else if i < 48 then (3 * i + 5) % 16
    else 7 * i % 16
  }

  /** The rotation of step `i`. */
  function Shift(i: nat): (n: nat)
    ensures n < 32
  {
    var r := i % 4;
    if i < 16 then (if r == 0 then 7 else if r == 1 then 12 else if r == 2 then 17 else 22)
    else if i < 32 then (if r == 0 then 5 else if r == 1 then 9 else if r == 2 then 14 else 20)
    else if i < 48 then (if r == 0 then 4 else if r == 1 then 11 else if r == 2 then 16 else 23)
    else (if r == 0 then 6 else if r == 1 then 10 else if r == 2 then 15 else 21)
  }

  // The constants of the steps, derived from the sine of `i + 1`, by round.

  function Sines1(i: nat): bv32 {
    match i
    case 0 => 0xd76aa478
    case 1 => 0xe8c7b756
    case 2 => 0x242070db
    case 3 => 0xc1bdceee
    case 4 => 0xf57c0faf
    case 5 => 0x4787c62a
    case 6 => 0xa8304613
    case 7 => 0xfd469501
    case 8 => 0x698098d8
    case 9 => 0x8b44f7af
    case 10 => 0xffff5bb1
    case 11 => 0x895cd7be
    case 12 => 0x6b901122
    case 13 => 0xfd987193
    case 14 => 0xa679438e
    case _ => 0x49b40821
  }

  function Sines2(i: nat): bv32 {
    match i
    case 16 => 0xf61e2562
    case 17 => 0xc040b340
    case 18 => 0x265e5a51
    case 19 => 0xe9b6c7aa
    case 20 => 0xd62f105d
    case 21 => 0x02441453
    case 22 => 0xd8a1e681
    case 23 => 0xe7d3fbc8
    case 24 => 0x21e1cde6
    case 25 => 0xc33707d6
    case 26 => 0xf4d50d87
    case 27 => 0x455a14ed
    case 28 => 0xa9e3e905
    case 29 => 0xfcefa3f8
    case 30 => 0x676f02d9
    case _ => 0x8d2a4c8a
  }

  function Sines3(i: nat): bv32 {
    match i
    case 32 => 0xfffa3942
    case 33 => 0x8771f681
    case 34 => 0x6d9d6122
    case 35 => 0xfde5380c
    case 36 => 0xa4beea44
    case 37 => 0x4bdecfa9
    case 38 => 0xf6bb4b60
    case 39 => 0xbebfbc70
    case 40 => 0x289b7ec6
    case 41 => 0xeaa127fa
    case 42 => 0xd4ef3085
    case 43 => 0x04881d05
    case 44 => 0xd9d4d039
    case 45 => 0xe6db99e5
    case 46 => 0x1fa27cf8
    case _ => 0xc4ac5665
  }

  function Sines4(i: nat): bv32 {
    match i
    case 48 => 0xf4292244
    case 49 => 0x432aff97
    case 50 => 0xab9423a7
    case 51 => 0xfc93a039
    case 52 => 0x655b59c3
    case 53 => 0x8f0ccc92
    case 54 => 0xffeff47d
    case 55 => 0x85845dd1
    case 56 => 0x6fa87e4f
    case 57 => 0xfe2ce6e0
    case 58 => 0xa3014314
    case 59 => 0x4e0811a1
    case 60 => 0xf7537e82
    case 61 => 0xbd3af235
    case 62 => 0x2ad7d2bb
    case _ => 0xeb86d391
  }

  function Sine(i: nat): bv32 {
    if i < 16 then Sines1(i) else if i < 32 then Sines2(i) else if i < 48 then Sines3(i) else Sines4(i)
  }

  function Step(i: nat, s: State, x: seq<bv32>): State
    requires |x| == 16
  {
    State(s.d, Turn(Mix(i, s), s.a, s.b, x[Word(i)], Sine(i), Shift(i)), s.b, s.c)
  }

  /** Steps `lo` to `hi - 1`. */
  function Steps(s: State, x: seq<bv32>, lo: nat, hi: nat): State
    requires |x| == 16 && lo <= hi
    decreases hi
  {
    if lo == hi then s else Step(hi - 1, Steps(s, x, lo, hi - 1), x)
  }

  function Add(s: State, t: State): State { State(s.a + t.a, s.b + t.b, s.c + t.c, s.d + t.d) }

  /** Little-endian words of a block. */
  function WordAt(q: seq<byte>, k: nat): bv32
    requires |q| == 64 && k < 16
  {
    (q[4 * k] as bv32) | ((q[4 * k + 1] as bv32) << 8) | ((q[4 * k + 2] as bv32) << 16) | ((q[4 * k + 3] as bv32) << 24)
  }

  function Words(q: seq<byte>): seq<bv32>
    requires |q| == 64
  {
    seq(16, k requires 0 <= k < 16 => WordAt(q, k))
  }

  function Compress(s: State, q: seq<byte>): State
    requires |q| == 64
  {
    Add(Steps(s, Words(q), 0, |q|), s)
  }

  lemma LessOneBlock(n: nat)
    requires n % 64 == 0 && n > 0
    ensures n >= 64 && (n - 64) % 64 == 0
  {
  }

  /** The state after a whole number of blocks. */
  function Absorb(s: State, p: seq<byte>): State
    requires |p| % 64 == 0
    decreases |p|
  {
    if p == [] then s else
      LessOneBlock(|p|);
      Absorb(Compress(s, p[..64]), p[64..])
  }

  lemma {:induction false} AbsorbMore(s: State, p: seq<byte>, q: seq<byte>)
    requires |p| % 64 == 0 && |q| % 64 == 0
    ensures Absorb(s, p + q) == Absorb(Absorb(s, p), q)
    decreases |p|
  {
    hide Compress;
    if p == [] {
      assert p + q == q;
    } else {
      assert (p + q)[..64] == p[..64] && (p + q)[64..] == p[64..] + q;
      AbsorbMore(Compress(s, p[..64]), p[64..], q);
    }
  }

  // ---------- The unrolled form ----------

  function QuickF(x: bv32, y: bv32, z: bv32): bv32 { ((y ^ z) & x) ^ z }

  function QuickG(x: bv32, y: bv32, z: bv32): bv32 { ((x ^ y) & z) ^ y }

  lemma SelectBits(x: bv32, y: bv32, z: bv32)
    ensures ((y ^ z) & x) ^ z == (x & y) | (!x & z)
  {
  }

  lemma QuickFIs(x: bv32, y: bv32, z: bv32)
    ensures QuickF(x, y, z) == F(x, y, z)
  {
    SelectBits(x, y, z);
  }

  lemma SelectBitsAgain(x: bv32, y: bv32, z: bv32)
    ensures ((x ^ y) & z) ^ y == (x & z) | (y & !z)
  {
  }

  lemma QuickGIs(x: bv32, y: bv32, z: bv32)
    ensures QuickG(x, y, z) == G(x, y, z)
  {
    SelectBitsAgain(x, y, z);
  }

  lemma Table1()
    ensures Word(0) == 0 && Shift(0) == 7
            && Word(1) == 1 && Shift(1) == 12
            && Word(2) == 2 && Shift(2) == 17
            && Word(3) == 3 && Shift(3) == 22
            && Word(4) == 4 && Shift(4) == 7
            && Word(5) == 5 && Shift(5) == 12
            && Word(6) == 6 && Shift(6) == 17
            && Word(7) == 7 && Shift(7) == 22
            && Word(8) == 8 && Shift(8) == 7
            && Word(9) == 9 && Shift(9) == 12
            && Word(10) == 10 && Shift(10) == 17
            && Word(11) == 11 && Shift(11) == 22
            && Word(12) == 12 && Shift(12) == 7
            && Word(13) == 13 && Shift(13) == 12
            && Word(14) == 14 && Shift(14) == 17
            && Word(15) == 15 && Shift(15) == 22
  {
  }

  lemma Constants1()
    ensures Sine(0) == 0xd76aa478
            && Sine(1) == 0xe8c7b756
            && Sine(2) == 0x242070db
            && Sine(3) == 0xc1bdceee
            && Sine(4) == 0xf57c0faf
            && Sine(5) == 0x4787c62a
            && Sine(6) == 0xa8304613
            && Sine(7) == 0xfd469501
            && Sine(8) == 0x698098d8
            && Sine(9) == 0x8b44f7af
            && Sine(10) == 0xffff5bb1
            && Sine(11) == 0x895cd7be
            && Sine(12) == 0x6b901122
            && Sine(13) == 0xfd987193
            && Sine(14) == 0xa679438e
            && Sine(15) == 0x49b40821
  {
    hide Sines2, Sines3, Sines4;
  }

  lemma Table2()
    ensures Word(16) == 1 && Shift(16) == 5
            && Word(17) == 6 && Shift(17) == 9
            && Word(18) == 11 && Shift(18) == 14
            && Word(19) == 0 && Shift(19) == 20
            && Word(20) == 5 && Shift(20) == 5
            && Word(21) == 10 && Shift(21) == 9
            && Word(22) == 15 && Shift(22) == 14
            && Word(23) == 4 && Shift(23) == 20
            && Word(24) == 9 && Shift(24) == 5
            && Word(25) == 14 && Shift(25) == 9
            && Word(26) == 3 && Shift(26) == 14
            && Word(27) == 8 && Shift(27) == 20
            && Word(28) == 13 && Shift(28) == 5
            && Word(29) == 2 && Shift(29) == 9
            && Word(30) == 7 && Shift(30) == 14
            && Word(31) == 12 && Shift(31) == 20
  {
  }

  lemma Constants2()
    ensures Sine(16) == 0xf61e2562
            && Sine(17) == 0xc040b340
            && Sine(18) == 0x265e5a51
            && Sine(19) == 0xe9b6c7aa
            && Sine(20) == 0xd62f105d
            && Sine(21) == 0x02441453
            && Sine(22) == 0xd8a1e681
            && Sine(23) == 0xe7d3fbc8
            && Sine(24) == 0x21e1cde6
            && Sine(25) == 0xc33707d6
            && Sine(26) == 0xf4d50d87
            && Sine(27) == 0x455a14ed
            && Sine(28) == 0xa9e3e905
            && Sine(29) == 0xfcefa3f8
            && Sine(30) == 0x676f02d9
            && Sine(31) == 0x8d2a4c8a
  {
    hide Sines1, Sines3, Sines4;
  }

  lemma Table3()
    ensures Word(32) == 5 && Shift(32) == 4
            && Word(33) == 8 && Shift(33) == 11
            && Word(34) == 11 && Shift(34) == 16
            && Word(35) == 14 && Shift(35) == 23
            && Word(36) == 1 && Shift(36) == 4
            && Word(37) == 4 && Shift(37) == 11
            && Word(38) == 7 && Shift(38) == 16
            && Word(39) == 10 && Shift(39) == 23
            && Word(40) == 13 && Shift(40) == 4
            && Word(41) == 0 && Shift(41) == 11
            && Word(42) == 3 && Shift(42) == 16
            && Word(43) == 6 && Shift(43) == 23
            && Word(44) == 9 && Shift(44) == 4
            && Word(45) == 12 && Shift(45) == 11
            && Word(46) == 15 && Shift(46) == 16
            && Word(47) == 2 && Shift(47) == 23
  {
  }

  lemma Constants3()
    ensures Sine(32) == 0xfffa3942
            && Sine(33) == 0x8771f681
            && Sine(34) == 0x6d9d6122
            && Sine(35) == 0xfde5380c
            && Sine(36) == 0xa4beea44
            && Sine(37) == 0x4bdecfa9
            && Sine(38) == 0xf6bb4b60
            && Sine(39) == 0xbebfbc70
            && Sine(40) == 0x289b7ec6
            && Sine(41) == 0xeaa127fa
            && Sine(42) == 0xd4ef3085
            && Sine(43) == 0x04881d05
            && Sine(44) == 0xd9d4d039
            && Sine(45) == 0xe6db99e5
            && Sine(46) == 0x1fa27cf8
            && Sine(47) == 0xc4ac5665
  {
    hide Sines1, Sines2, Sines4;
  }

  lemma Table4()
    ensures Word(48) == 0 && Shift(48) == 6
            && Word(49) == 7 && Shift(49) == 10
            && Word(50) == 14 && Shift(50) == 15
            && Word(51) == 5 && Shift(51) == 21
            && Word(52) == 12 && Shift(52) == 6
            && Word(53) == 3 && Shift(53) == 10
            && Word(54) == 10 && Shift(54) == 15
            && Word(55) == 1 && Shift(55) == 21
            && Word(56) == 8 && Shift(56) == 6
            && Word(57) == 15 && Shift(57) == 10
            && Word(58) == 6 && Shift(58) == 15
            && Word(59) == 13 && Shift(59) == 21
            && Word(60) == 4 && Shift(60) == 6
            && Word(61) == 11 && Shift(61) == 10
            && Word(62) == 2 && Shift(62) == 15
            && Word(63) == 9 && Shift(63) == 21
  {
  }

  lemma Constants4()
    ensures Sine(48) == 0xf4292244
            && Sine(49) == 0x432aff97
            && Sine(50) == 0xab9423a7
            && Sine(51) == 0xfc93a039
            && Sine(52) == 0x655b59c3
            && Sine(53) == 0x8f0ccc92
            && Sine(54) == 0xffeff47d
            && Sine(55) == 0x85845dd1
            && Sine(56) == 0x6fa87e4f
            && Sine(57) == 0xfe2ce6e0
            && Sine(58) == 0xa3014314
            && Sine(59) == 0x4e0811a1
            && Sine(60) == 0xf7537e82
            && Sine(61) == 0xbd3af235
            && Sine(62) == 0x2ad7d2bb
            && Sine(63) == 0xeb86d391
  {
    hide Sines1, Sines2, Sines3;
  }

  method Round1(s: State, x: seq<bv32>) returns (t: State)
    requires |x| == 16
    ensures t == Steps(s, x, 0, 16)
  {
    hide *;
    var a, b, c, d := s.a, s.b, s.c, s.d;
    Table1();
    Constants1();
    StepsNone(s, x, 0);
    QuickFIs(b, c, d);
    StepsNext(s, x, 0, 0, State(a, b, c, d));
    a := Turn(QuickF(b, c, d), a, b, x[0], 0xd76aa478, 7);
    QuickFIs(a, b, c);
    StepsNext(s, x, 0, 1, State(d, a, b, c));
    d := Turn(QuickF(a, b, c), d, a, x[1], 0xe8c7b756, 12);
    QuickFIs(d, a, b);
    StepsNext(s, x, 0, 2, State(c, d, a, b));
    c := Turn(QuickF(d, a, b), c, d, x[2], 0x242070db, 17);
    QuickFIs(c, d, a);
    StepsNext(s, x, 0, 3, State(b, c, d, a));
    b := Turn(QuickF(c, d, a), b, c, x[3], 0xc1bdceee, 22);
    QuickFIs(b, c, d);
    StepsNext(s, x, 0, 4, State(a, b, c, d));
    a := Turn(QuickF(b, c, d), a, b, x[4], 0xf57c0faf, 7);
    QuickFIs(a, b, c);
    StepsNext(s, x, 0, 5, State(d, a, b, c));
    d := Turn(QuickF(a, b, c), d, a, x[5], 0x4787c62a, 12);
    QuickFIs(d, a, b);
    StepsNext(s, x, 0, 6, State(c, d, a, b));
    c := Turn(QuickF(d, a, b), c, d, x[6], 0xa8304613, 17);
    QuickFIs(c, d, a);
    StepsNext(s, x, 0, 7, State(b, c, d, a));
    b := Turn(QuickF(c, d, a), b, c, x[7], 0xfd469501, 22);
    QuickFIs(b, c, d);
    StepsNext(s, x, 0, 8, State(a, b, c, d));
    a := Turn(QuickF(b, c, d), a, b, x[8], 0x698098d8, 7);
    QuickFIs(a, b, c);
    StepsNext(s, x, 0, 9, State(d, a, b, c));
    d := Turn(QuickF(a, b, c), d, a, x[9], 0x8b44f7af, 12);
    QuickFIs(d, a, b);
    StepsNext(s, x, 0, 10, State(c, d, a, b));
    c := Turn(QuickF(d, a, b), c, d, x[10], 0xffff5bb1, 17);
    QuickFIs(c, d, a);
    StepsNext(s, x, 0, 11, State(b, c, d, a));
    b := Turn(QuickF(c, d, a), b, c, x[11], 0x895cd7be, 22);
    QuickFIs(b, c, d);
    StepsNext(s, x, 0, 12, State(a, b, c, d));
    a := Turn(QuickF(b, c, d), a, b, x[12], 0x6b901122, 7);
    QuickFIs(a, b, c);
    StepsNext(s, x, 0, 13, State(d, a, b, c));
    d := Turn(QuickF(a, b, c), d, a, x[13], 0xfd987193, 12);
    QuickFIs(d, a, b);
    StepsNext(s, x, 0, 14, State(c, d, a, b));
    c := Turn(QuickF(d, a, b), c, d, x[14], 0xa679438e, 17);
    QuickFIs(c, d, a);
    StepsNext(s, x, 0, 15, State(b, c, d, a));
    b := Turn(QuickF(c, d, a), b, c, x[15], 0x49b40821, 22);
    t := State(a, b, c, d);
  }

  method Round2(s: State, x: seq<bv32>) returns (t: State)
    requires |x| == 16
    ensures t == Steps(s, x, 16, 32)
  {
    hide *;
    var a, b, c, d := s.a, s.b, s.c, s.d;
    Table2();
    Constants2();
    StepsNone(s, x, 16);
    QuickGIs(b, c, d);
    StepsNext(s, x, 16, 16, State(a, b, c, d));
    a := Turn(QuickG(b, c, d), a, b, x[1], 0xf61e2562, 5);
    QuickGIs(a, b, c);
    StepsNext(s, x, 16, 17, State(d, a, b, c));
    d := Turn(QuickG(a, b, c), d, a, x[6], 0xc040b340, 9);
    QuickGIs(d, a, b);
    StepsNext(s, x, 16, 18, State(c, d, a, b));
    c := Turn(QuickG(d, a, b), c, d, x[11], 0x265e5a51, 14);
    QuickGIs(c, d, a);
    StepsNext(s, x, 16, 19, State(b, c, d, a));
    b := Turn(QuickG(c, d, a), b, c, x[0], 0xe9b6c7aa, 20);
    QuickGIs(b, c, d);
    StepsNext(s, x, 16, 20, State(a, b, c, d));
    a := Turn(QuickG(b, c, d), a, b, x[5], 0xd62f105d, 5);
    QuickGIs(a, b, c);
    StepsNext(s, x, 16, 21, State(d, a, b, c));
    d := Turn(QuickG(a, b, c), d, a, x[10], 0x02441453, 9);
    QuickGIs(d, a, b);
    StepsNext(s, x, 16, 22, State(c, d, a, b));
    c := Turn(QuickG(d, a, b), c, d, x[15], 0xd8a1e681, 14);
    QuickGIs(c, d, a);
    StepsNext(s, x, 16, 23, State(b, c, d, a));
    b := Turn(QuickG(c, d, a), b, c, x[4], 0xe7d3fbc8, 20);
    QuickGIs(b, c, d);
    StepsNext(s, x, 16, 24, State(a, b, c, d));
    a := Turn(QuickG(b, c, d), a, b, x[9], 0x21e1cde6, 5);
    QuickGIs(a, b, c);
    StepsNext(s, x, 16, 25, State(d, a, b, c));
    d := Turn(QuickG(a, b, c), d, a, x[14], 0xc33707d6, 9);
    QuickGIs(d, a, b);
    StepsNext(s, x, 16, 26, State(c, d, a, b));
    c := Turn(QuickG(d, a, b), c, d, x[3], 0xf4d50d87, 14);
    QuickGIs(c, d, a);
    StepsNext(s, x, 16, 27, State(b, c, d, a));
    b := Turn(QuickG(c, d, a), b, c, x[8], 0x455a14ed, 20);
    QuickGIs(b, c, d);
    StepsNext(s, x, 16, 28, State(a, b, c, d));
    a := Turn(QuickG(b, c, d), a, b, x[13], 0xa9e3e905, 5);
    QuickGIs(a, b, c);
    StepsNext(s, x, 16, 29, State(d, a, b, c));
    d := Turn(QuickG(a, b, c), d, a, x[2], 0xfcefa3f8, 9);
    QuickGIs(d, a, b);
    StepsNext(s, x, 16, 30, State(c, d, a, b));
    c := Turn(QuickG(d, a, b), c, d, x[7], 0x676f02d9, 14);
    QuickGIs(c, d, a);
    StepsNext(s, x, 16, 31, State(b, c, d, a));
    b := Turn(QuickG(c, d, a), b, c, x[12], 0x8d2a4c8a, 20);
    t := State(a, b, c, d);
  }

  method Round3(s: State, x: seq<bv32>) returns (t: State)
    requires |x| == 16
    ensures t == Steps(s, x, 32, 48)
  {
    hide *;
    var a, b, c, d := s.a, s.b, s.c, s.d;
    Table3();
    Constants3();
    StepsNone(s, x, 32);
    StepsNext(s, x, 32, 32, State(a, b, c, d));
    a := Turn(H(b, c, d), a, b, x[5], 0xfffa3942, 4);
    StepsNext(s, x, 32, 33, State(d, a, b, c));
    d := Turn(H(a, b, c), d, a, x[8], 0x8771f681, 11);
    StepsNext(s, x, 32, 34, State(c, d, a, b));
    c := Turn(H(d, a, b), c, d, x[11], 0x6d9d6122, 16);
    StepsNext(s, x, 32, 35, State(b, c, d, a));
    b := Turn(H(c, d, a), b, c, x[14], 0xfde5380c, 23);
    StepsNext(s, x, 32, 36, State(a, b, c, d));
    a := Turn(H(b, c, d), a, b, x[1], 0xa4beea44, 4);
    StepsNext(s, x, 32, 37, State(d, a, b, c));
    d := Turn(H(a, b, c), d, a, x[4], 0x4bdecfa9, 11);
    StepsNext(s, x, 32, 38, State(c, d, a, b));
    c := Turn(H(d, a, b), c, d, x[7], 0xf6bb4b60, 16);
    StepsNext(s, x, 32, 39, State(b, c, d, a));
    b := Turn(H(c, d, a), b, c, x[10], 0xbebfbc70, 23);
    StepsNext(s, x, 32, 40, State(a, b, c, d));
    a := Turn(H(b, c, d), a, b, x[13], 0x289b7ec6, 4);
    StepsNext(s, x, 32, 41, State(d, a, b, c));
    d := Turn(H(a, b, c), d, a, x[0], 0xeaa127fa, 11);
    StepsNext(s, x, 32, 42, State(c, d, a, b));
    c := Turn(H(d, a, b), c, d, x[3], 0xd4ef3085, 16);
    StepsNext(s, x, 32, 43, State(b, c, d, a));
    b := Turn(H(c, d, a), b, c, x[6], 0x04881d05, 23);
    StepsNext(s, x, 32, 44, State(a, b, c, d));
    a := Turn(H(b, c, d), a, b, x[9], 0xd9d4d039, 4);
    StepsNext(s, x, 32, 45, State(d, a, b, c));
    d := Turn(H(a, b, c), d, a, x[12], 0xe6db99e5, 11);
    StepsNext(s, x, 32, 46, State(c, d, a, b));
    c := Turn(H(d, a, b), c, d, x[15], 0x1fa27cf8, 16);
    StepsNext(s, x, 32, 47, State(b, c, d, a));
    b := Turn(H(c, d, a), b, c, x[2], 0xc4ac5665, 23);
    t := State(a, b, c, d);
  }

  method Round4(s: State, x: seq<bv32>) returns (t: State)
    requires |x| == 16
    ensures t == Steps(s, x, 48, 64)
  {
    hide *;
    var a, b, c, d := s.a, s.b, s.c, s.d;
    Table4();
    Constants4();
    StepsNone(s, x, 48);
    StepsNext(s, x, 48, 48, State(a, b, c, d));
    a := Turn(I(b, c, d), a, b, x[0], 0xf4292244, 6);
    StepsNext(s, x, 48, 49, State(d, a, b, c));
    d := Turn(I(a, b, c), d, a, x[7], 0x432aff97, 10);
    StepsNext(s, x, 48, 50, State(c, d, a, b));
    c := Turn(I(d, a, b), c, d, x[14], 0xab9423a7, 15);
    StepsNext(s, x, 48, 51, State(b, c, d, a));
    b := Turn(I(c, d, a), b, c, x[5], 0xfc93a039, 21);
    StepsNext(s, x, 48, 52, State(a, b, c, d));
    a := Turn(I(b, c, d), a, b, x[12], 0x655b59c3, 6);
    StepsNext(s, x, 48, 53, State(d, a, b, c));
    d := Turn(I(a, b, c), d, a, x[3], 0x8f0ccc92, 10);
    StepsNext(s, x, 48, 54, State(c, d, a, b));
    c := Turn(I(d, a, b), c, d, x[10], 0xffeff47d, 15);
    StepsNext(s, x, 48, 55, State(b, c, d, a));
    b := Turn(I(c, d, a), b, c, x[1], 0x85845dd1, 21);
    StepsNext(s, x, 48, 56, State(a, b, c, d));
    a := Turn(I(b, c, d), a, b, x[8], 0x6fa87e4f, 6);
    StepsNext(s, x, 48, 57, State(d, a, b, c));
    d := Turn(I(a, b, c), d, a, x[15], 0xfe2ce6e0, 10);
    StepsNext(s, x, 48, 58, State(c, d, a, b));
    c := Turn(I(d, a, b), c, d, x[6], 0xa3014314, 15);
    StepsNext(s, x, 48, 59, State(b, c, d, a));
    b := Turn(I(c, d, a), b, c, x[13], 0x4e0811a1, 21);
    StepsNext(s, x, 48, 60, State(a, b, c, d));
    a := Turn(I(b, c, d), a, b, x[4], 0xf7537e82, 6);
    StepsNext(s, x, 48, 61, State(d, a, b, c));
    d := Turn(I(a, b, c), d, a, x[11], 0xbd3af235, 10);
    StepsNext(s, x, 48, 62, State(c, d, a, b));
    c := Turn(I(d, a, b), c, d, x[2], 0x2ad7d2bb, 15);
    StepsNext(s, x, 48, 63, State(b, c, d, a));
    b := Turn(I(c, d, a), b, c, x[9], 0xeb86d391, 21);
    t := State(a, b, c, d);
  }

  lemma StepsNone(s: State, x: seq<bv32>, i: nat)
    requires |x| == 16
    ensures Steps(s, x, i, i) == s
  {
  }

  lemma StepsNext(s: State, x: seq<bv32>, lo: nat, i: nat, t: State)
    requires |x| == 16 && lo <= i && t == Steps(s, x, lo, i)
    ensures var f := if i < 16 then F(t.b, t.c, t.d) else if i < 32 then G(t.b, t.c, t.d)
                     else if i < 48 then H(t.b, t.c, t.d) else I(t.b, t.c, t.d);
            Steps(s, x, lo, i + 1) == State(t.d, Turn(f, t.a, t.b, x[Word(i)], Sine(i), Shift(i)), t.b, t.c)
  {
    hide Turn, F, G, H, I, Sine, Shift, Word;
  }

  lemma {:induction false} StepsJoin(s: State, x: seq<bv32>, mid: nat, hi: nat)
    requires |x| == 16 && mid <= hi
    ensures Steps(s, x, 0, hi) == Steps(Steps(s, x, 0, mid), x, mid, hi)
    decreases hi
  {
    hide Step;
    if mid < hi {
      StepsJoin(s, x, mid, hi - 1);
    }
  }

  /** Absorbs whole blocks; a tail shorter than a block is ignored. */
  method BlockGeneric(s: State, p: seq<byte>) returns (t: State)
    ensures t == Absorb(s, p[..|p| - |p| % 64])
  {
    hide Absorb, Compress, Steps, Words;
    t := s;
    var i := 0;
    assert p[..0] == [];
    AbsorbNone(s);
    while i + 64 <= |p|
      invariant i % 64 == 0 && i <= |p| && t == Absorb(s, p[..i])
    {
      var q := p[i..i + 64];
      var x := Words(q);
      assert |x| == 16 by { SixteenWords(q); }
      var u := Round1(t, x);
      StepsJoin(t, x, 16, 32);
      u := Round2(u, x);
      StepsJoin(t, x, 32, 48);
      u := Round3(u, x);
      StepsJoin(t, x, 48, 64);
      u := Round4(u, x);
      CompressIs(t, q, u);
      assert p[..i + 64] == p[..i] + q;
      AbsorbMore(s, p[..i], q);
      AbsorbOne(t, q);
      t := Add(u, t);
      i := i + 64;
    }
    assert i == |p| - |p| % 64;
  }

  lemma SixteenWords(q: seq<byte>)
    requires |q| == 64
    ensures |Words(q)| == 16
  {
  }

  lemma CompressIs(s: State, q: seq<byte>, u: State)
    requires |q| == 64 && u == Steps(s, Words(q), 0, |q|)
    ensures Compress(s, q) == Add(u, s)
  {
  }

  lemma AbsorbNone(s: State)
    ensures Absorb(s, []) == s
  {
  }

  lemma AbsorbOne(s: State, q: seq<byte>)
    requires |q| == 64
    ensures Absorb(s, q) == Compress(s, q)
  {
    hide Compress;
    assert q[..64] == q && q[64..] == [];
  }
}
