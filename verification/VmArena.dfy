/**
 The byte arena of a cache shard: packed 32-bit index words, record headers
 and the three value encodings.

 A record is a 16-byte key followed by a 4-byte header; the value lives in a
 region of its own.  The index word holds the key offset in words (24 bits),
 the capacity in words or the high size bits (7 bits) and the value type
 (1 bit); the header holds the value offset in words (24 bits) and the low
 size byte.  Masks and shifts of the 32-bit words are written as division and
 remainder by powers of two.
 */
module VmArena {
  import opened VmBytes

  /** Bytes taken by the reference-counted buffer descriptor at the start of the arena. */
  const BUFFER_SIZE: nat := 32
  const KEY_SIZE: nat := 16
  const RECORD_SIZE: nat := 20
  const OVER_SHORT: nat := 0x80
  const OVER_LONG: nat := 0x7fff
  const LIMIT_SIZE: nat := 0x40_0000
  const MAX_ARENA: nat := 0x400_0000
  const OFFSET_WORDS: nat := 0x100_0000
  const TYPE_BIT: nat := 0x8000_0000

  type Key = k: seq<byte> | |k| == 16 witness seq(16, _ => 0)

  // ---------- Index words ----------

  function ValType(ki: uint32): nat { ki / TYPE_BIT }

  function CapOrBigSize(ki: uint32): nat { ki / OFFSET_WORDS % 0x80 }

  function Offset(ki: uint32): nat { ki % OFFSET_WORDS }

  function SmallSize(header: uint32): nat { header / OFFSET_WORDS }

  /** Packing and unpacking an index word: the three fields come back while they fit. */
  lemma IndexRoundTrip(offset: nat, big: nat, typ: nat)
    requires offset < OFFSET_WORDS && big < 0x80 && typ < 2
    ensures offset + big * OFFSET_WORDS + typ * TYPE_BIT < 0x1_0000_0000
    ensures var ki := offset + big * OFFSET_WORDS + typ * TYPE_BIT;
            Offset(ki) == offset && CapOrBigSize(ki) == big && ValType(ki) == typ
  {
    var ki := offset + big * OFFSET_WORDS + typ * TYPE_BIT;
    assert ki == offset + OFFSET_WORDS * (big + 0x80 * typ);
    assert ki / OFFSET_WORDS == big + 0x80 * typ;
  }

  lemma HeaderRoundTrip(offset: nat, small: nat)
    requires offset < OFFSET_WORDS && small < 0x100
    ensures offset + small * OFFSET_WORDS < 0x1_0000_0000
    ensures var h := offset + small * OFFSET_WORDS; Offset(h) == offset && SmallSize(h) == small
  {
  }

  // ---------- Records ----------

  datatype Kind = Short | Medium | Long

  /** What a table slot holds: nothing, or a record with its place in the arena. */
  datatype Cell =
    | Free
    | Live(key: Key, kOff: nat, kind: Kind, vOff: nat, cap: nat, value: seq<byte>)

  function KindOf(size: nat): Kind {
    if size >= OVER_LONG then Long else if size >= OVER_SHORT then Medium else Short
  }

  lemma KindMeaning(size: nat)
    ensures KindOf(size) == if size < 128 then Short else if size < 32767 then Medium else Long
  {
  }

  /** A length word precedes the bytes of a long value. */
  function Lead(kind: Kind): nat { if kind == Long then 4 else 0 }

  /** Bytes reserved for a value when it is first written. */
  function ValueCap(size: nat): (r: nat)
    ensures r % 4 == 0 && r >= size
  {
    Cap4(size) + Lead(KindOf(size))
  }

  function IndexWord(kOff: nat, kind: Kind, cap: nat, size: nat): nat {
    match kind
    case Short => kOff / 4 + cap / 4 * OFFSET_WORDS
    case Medium => kOff / 4 + size / 0x100 * OFFSET_WORDS + TYPE_BIT
    case Long => kOff / 4 + OVER_LONG / 0x100 * OFFSET_WORDS + TYPE_BIT
  }

  function HeaderWord(vOff: nat, kind: Kind, size: nat): nat {
    match kind
    case Short => vOff / 4 + size * OFFSET_WORDS
    case Medium => vOff / 4 + size % 0x100 * OFFSET_WORDS
    case Long => vOff / 4 + OVER_LONG % 0x100 * OFFSET_WORDS
  }

  /** The sizes and places of a record below `tail`. */
  ghost predicate Placed(c: Cell, tail: nat)
    requires c.Live?
  {
    && BUFFER_SIZE <= c.kOff && c.kOff % 4 == 0 && c.kOff + RECORD_SIZE <= tail
    && BUFFER_SIZE <= c.vOff && c.vOff % 4 == 0 && c.vOff + c.cap <= tail
    && c.vOff < MAX_ARENA && tail <= MAX_ARENA
    && (c.kOff + RECORD_SIZE <= c.vOff || c.vOff + c.cap <= c.kOff)
    && c.kind == KindOf(|c.value|)
    && c.cap % 4 == 0 && |c.value| + Lead(c.kind) <= c.cap
    && (c.kind == Short ==> c.cap <= OVER_SHORT)
    && (c.kind != Short ==> c.cap == ValueCap(|c.value|))
  }

  /** The arena holds the record: its key, header, length word and value bytes. */
  ghost predicate Stored(c: Cell, d: seq<byte>, tail: nat)
    requires c.Live? && Placed(c, tail) && tail <= |d|
  {
    && d[c.kOff..c.kOff + KEY_SIZE] == c.key
    && LoadWord(d, c.kOff + KEY_SIZE) == HeaderWord(c.vOff, c.kind, |c.value|)
    && (c.kind == Long ==> LoadWord(d, c.vOff) == |c.value|)
    && d[c.vOff + Lead(c.kind)..c.vOff + Lead(c.kind) + |c.value|] == c.value
  }

  /** The index word `ki` leads to the record `c`. */
  ghost predicate Refers(ki: uint32, c: Cell)
    requires c.Live?
  {
    ki == IndexWord(c.kOff, c.kind, c.cap, |c.value|)
  }

  lemma IndexWordFields(c: Cell, tail: nat)
    requires c.Live? && Placed(c, tail)
    ensures IndexWord(c.kOff, c.kind, c.cap, |c.value|) < 0x1_0000_0000
    ensures var ki := IndexWord(c.kOff, c.kind, c.cap, |c.value|);
            && Offset(ki) * 4 == c.kOff
            && ValType(ki) == (if c.kind == Short then 0 else 1)
            && CapOrBigSize(ki) == (match c.kind
                                    case Short => c.cap / 4
                                    case Medium => |c.value| / 0x100
                                    case Long => 0x7f)
            && ki != 0
  {
    var big := match c.kind case Short => c.cap / 4 case Medium => |c.value| / 0x100 case Long => 0x7f;
    IndexRoundTrip(c.kOff / 4, big, if c.kind == Short then 0 else 1);
  }

  lemma HeaderWordFields(c: Cell, tail: nat)
    requires c.Live? && Placed(c, tail)
    ensures HeaderWord(c.vOff, c.kind, |c.value|) < 0x1_0000_0000
    ensures var h := HeaderWord(c.vOff, c.kind, |c.value|);
            && Offset(h) * 4 == c.vOff
            && SmallSize(h) == (match c.kind
                                case Short => |c.value|
                                case Medium => |c.value| % 0x100
                                case Long => 0xff)
  {
    var small := match c.kind case Short => |c.value| case Medium => |c.value| % 0x100 case Long => 0xff;
    HeaderRoundTrip(c.vOff / 4, small);
  }

  // ---------- Reading a record ----------

  /** Where a value starts and how long it is, as read back from the index word and the header. */
  datatype Extent = Extent(start: nat, size: nat)

  function DecodedSize(ki: uint32, header: uint32): nat {
    if ValType(ki) == 0 then SmallSize(header) else SmallSize(header) + CapOrBigSize(ki) * 0x100
  }

  ghost predicate Readable(d: seq<byte>, ki: uint32) {
    && Offset(ki) * 4 + RECORD_SIZE <= |d|
    && var h := LoadWord(d, Offset(ki) * 4 + KEY_SIZE);
       && (ValType(ki) != 0 && DecodedSize(ki, h) == OVER_LONG ==> Offset(h) * 4 + 4 <= |d|)
  }

  function ReadExtent(d: seq<byte>, ki: uint32): (e: Extent)
    requires Readable(d, ki)
  {
    var h := LoadWord(d, Offset(ki) * 4 + KEY_SIZE);
    var vOff := Offset(h) * 4;
    var size := DecodedSize(ki, h);
    if ValType(ki) != 0 && size == OVER_LONG then
      Extent(vOff + 4, LoadWord(d, vOff))
    else
      Extent(vOff, size)
  }

  function ReadKey(d: seq<byte>, ki: uint32): (k: Key)
    requires Offset(ki) * 4 + KEY_SIZE <= |d|
  {
    d[Offset(ki) * 4..Offset(ki) * 4 + KEY_SIZE]
  }

  /** A stored record reads back as its key and its value, in each of the three encodings. */
  lemma ReadStored(c: Cell, d: seq<byte>, tail: nat, ki: uint32)
    requires c.Live? && Placed(c, tail) && tail <= |d| && Stored(c, d, tail) && Refers(ki, c)
    ensures Readable(d, ki)
    ensures ReadKey(d, ki) == c.key
    ensures ReadExtent(d, ki) == Extent(c.vOff + Lead(c.kind), |c.value|)
    ensures ki != 0 && Offset(ki) * 4 == c.kOff
    ensures ValType(ki) == (if c.kind == Short then 0 else 1)
    ensures c.kind == Short ==> CapOrBigSize(ki) * 4 == c.cap
  {
    IndexWordFields(c, tail);
    HeaderWordFields(c, tail);
  }

  // ---------- Bytes given back to the usage counter ----------

  /** What an update subtracts: for a short value its capacity in words, not bytes. */
  function UpdateRefund(d: seq<byte>, ki: uint32): nat
    requires Readable(d, ki)
  {
    if ValType(ki) == 0 then CapOrBigSize(ki) else LongRefund(d, ki)
  }

  function DeleteRefund(d: seq<byte>, ki: uint32): nat
    requires Readable(d, ki)
  {
    if ValType(ki) == 0 then Cap4(ReadExtent(d, ki).size) else LongRefund(d, ki)
  }

  function LongRefund(d: seq<byte>, ki: uint32): nat
    requires Readable(d, ki) && ValType(ki) != 0
  {
    var h := LoadWord(d, Offset(ki) * 4 + KEY_SIZE);
    if DecodedSize(ki, h) == OVER_LONG then
      Cap4(LoadWord(d, Offset(h) * 4)) + 4
    else
      Cap4(DecodedSize(ki, h))
  }

  /**
   Neither subtraction takes away more than the record was charged for. For all but short values both take away
   just that. For a short value an update takes away a quarter of it, and a delete what its bytes now need.
   */
  lemma RefundBound(c: Cell, d: seq<byte>, tail: nat, ki: uint32)
    requires c.Live? && Placed(c, tail) && tail <= |d| && Stored(c, d, tail) && Refers(ki, c)
    ensures Readable(d, ki)
    ensures UpdateRefund(d, ki) <= c.cap && DeleteRefund(d, ki) <= c.cap
    ensures c.kind != Short ==> UpdateRefund(d, ki) == c.cap == DeleteRefund(d, ki)
    ensures c.kind == Short ==> 4 * UpdateRefund(d, ki) == c.cap && DeleteRefund(d, ki) == Cap4(|c.value|)
  {
    hide Offset, ValType, CapOrBigSize, SmallSize, IndexWord, HeaderWord, LoadWord, Cap4;
    ReadStored(c, d, tail, ki);
    IndexWordFields(c, tail);
    HeaderWordFields(c, tail);
  }

  /** Capacity charged for all records of a table. */
  ghost function SumCaps(cells: seq<Cell>): nat {
    if cells == [] then 0
    else SumCaps(cells[..|cells| - 1]) + CapOf(cells[|cells| - 1])
  }

  ghost function CapOf(c: Cell): nat { if c.Live? then c.cap else 0 }

  lemma {:induction false} SumCapsUpdate(cells: seq<Cell>, i: nat, c: Cell)
    requires i < |cells|
    ensures SumCaps(cells[i := c]) + CapOf(cells[i]) == SumCaps(cells) + CapOf(c)
  {
    var n := |cells| - 1;
    if i == n {
      assert cells[i := c][..n] == cells[..n];
    } else {
      assert cells[i := c][..n] == cells[..n][i := c];
      SumCapsUpdate(cells[..n], i, c);
    }
  }

  lemma {:induction false} SumCapsAtLeast(cells: seq<Cell>, i: nat)
    requires i < |cells|
    ensures CapOf(cells[i]) <= SumCaps(cells)
  {
    var n := |cells| - 1;
    if i != n {
      SumCapsAtLeast(cells[..n], i);
    }
  }

  // ---------- Separation ----------

  ghost predicate Apart(a: int, aLen: nat, b: int, bLen: nat) {
    a + aLen <= b || b + bLen <= a
  }

  /** The key and value regions of two records do not meet. */
  ghost predicate Separate(c: Cell, e: Cell) {
    c.Live? && e.Live? ==>
      && Apart(c.kOff, RECORD_SIZE, e.kOff, RECORD_SIZE)
      && Apart(c.kOff, RECORD_SIZE, e.vOff, e.cap)
      && Apart(c.vOff, c.cap, e.kOff, RECORD_SIZE)
      && Apart(c.vOff, c.cap, e.vOff, e.cap)
  }

  /** A record depends only on the bytes of its own two regions. */
  lemma StoredFrame(c: Cell, d: seq<byte>, e: seq<byte>, tail: nat, tail': nat)
    requires c.Live? && Placed(c, tail) && tail <= tail' <= MAX_ARENA && tail' <= |d| == |e|
    requires Stored(c, d, tail)
    requires SameBytes(d, e, c.kOff, c.kOff + RECORD_SIZE)
    requires SameBytes(d, e, c.vOff, c.vOff + c.cap)
    ensures Placed(c, tail') && Stored(c, e, tail')
  {
    hide HeaderWord, KindOf, ValueCap, FromBytes;
    SameSlice(d, e, c.kOff, c.kOff + RECORD_SIZE, c.kOff, c.kOff + KEY_SIZE);
    SameWord(d, e, c.kOff, c.kOff + RECORD_SIZE, c.kOff + KEY_SIZE);
    var lo := c.vOff + Lead(c.kind);
    SameSlice(d, e, c.vOff, c.vOff + c.cap, lo, lo + |c.value|);
    if c.kind == Long {
      SameWord(d, e, c.vOff, c.vOff + c.cap, c.vOff);
    }
  }

  lemma SameSlice(d: seq<byte>, e: seq<byte>, lo: nat, hi: nat, a: nat, b: nat)
    requires SameBytes(d, e, lo, hi) && lo <= a <= b <= hi <= |d|
    ensures e[a..b] == d[a..b]
  {
  }

  lemma SameWord(d: seq<byte>, e: seq<byte>, lo: nat, hi: nat, off: nat)
    requires SameBytes(d, e, lo, hi) && lo <= off && off + 4 <= hi <= |d|
    ensures LoadWord(e, off) == LoadWord(d, off)
  {
  }

  // ---------- Arenas above 64MB ----------

  // The shard that evicts by age packs the same words, but with the size check skipped its arena may be larger.

  /** A packed word as it is kept, in 32 bits. */
  function Word32(x: nat): uint32 { x % 0x1_0000_0000 }

  /** A word made of an offset and a field above it gives the offset back modulo 2^24. */
  lemma FarOffset(words: nat, above: nat)
    ensures Offset(Word32(words + above * OFFSET_WORDS)) == words % OFFSET_WORDS
  {
    var x := words + above * OFFSET_WORDS;
    var q := x / 0x1_0000_0000;
    assert Word32(x) == words + (above - q * 0x100) * OFFSET_WORDS;
    Remainder(words, above - q * 0x100, Word32(x));
  }

  lemma Remainder(words: nat, k: int, y: nat)
    requires y == words + k * OFFSET_WORDS
    ensures y % OFFSET_WORDS == words % OFFSET_WORDS
  {
    var r, p := words % OFFSET_WORDS, words / OFFSET_WORDS;
    assert y == r + (p + k) * OFFSET_WORDS;
  }

  /** The place the index word of a record leads to is right exactly below 64MB; above, it is 64MB or more too low. */
  lemma FarIndex(kOff: nat, kind: Kind, cap: nat, size: nat)
    requires kOff % 4 == 0
    ensures Offset(Word32(IndexWord(kOff, kind, cap, size))) * 4 == kOff % MAX_ARENA
    ensures Offset(Word32(IndexWord(kOff, kind, cap, size))) * 4 == kOff <==> kOff < MAX_ARENA
  {
    FarOffset(kOff / 4, match kind
                        case Short => cap / 4
                        case Medium => size / 0x100 + 0x80
                        case Long => OVER_LONG / 0x100 + 0x80);
    Words(kOff);
  }

  /** The same for the place of the value in the record's header. */
  lemma FarHeader(vOff: nat, kind: Kind, size: nat)
    requires vOff % 4 == 0
    ensures Offset(Word32(HeaderWord(vOff, kind, size))) * 4 == vOff % MAX_ARENA
    ensures Offset(Word32(HeaderWord(vOff, kind, size))) * 4 == vOff <==> vOff < MAX_ARENA
  {
    FarOffset(vOff / 4, match kind
                        case Short => size
                        case Medium => size % 0x100
                        case Long => OVER_LONG % 0x100);
    Words(vOff);
  }

  lemma Words(off: nat)
    requires off % 4 == 0
    ensures off / 4 % OFFSET_WORDS * 4 == off % MAX_ARENA
    ensures off % MAX_ARENA == off <==> off < MAX_ARENA
  {
    var w := off / 4;
    var q, r := w / OFFSET_WORDS, w % OFFSET_WORDS;
    assert off == q * MAX_ARENA + r * 4;
  }

  /** Two records 64MB apart: through its own word the second one shows the key of the first. */
  lemma FarKeyHidden(d: seq<byte>, first: Key, second: Key, cap: nat, size: nat)
    requires |d| >= MAX_ARENA + BUFFER_SIZE + RECORD_SIZE && first != second
    requires d[BUFFER_SIZE..BUFFER_SIZE + KEY_SIZE] == first
    requires d[MAX_ARENA + BUFFER_SIZE..MAX_ARENA + BUFFER_SIZE + KEY_SIZE] == second
    ensures var at := Offset(Word32(IndexWord(MAX_ARENA + BUFFER_SIZE, Short, cap, size))) * 4;
            at + KEY_SIZE <= |d| && d[at..at + KEY_SIZE] == first != second
  {
    FarIndex(MAX_ARENA + BUFFER_SIZE, Short, cap, size);
  }
}
