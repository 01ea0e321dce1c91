/**
 The wire protocol of the proxy: replies are written to a buffer and parsed back from a
 buffered stream. Integers are 64 bits wide and wrap around.
 */
module Resp {

  type byte = x: int | 0 <= x < 256

  const CR: byte := 13
  const LF: byte := 10
  const TWO63: int := 0x8000_0000_0000_0000
  const TWO64: int := 0x1_0000_0000_0000_0000

  /** A reply; a null bulk and a null array are the same to the reader. */
  datatype Reply =
    | Status(text: seq<byte>)
    | Error(text: seq<byte>)
    | Integer(n: int)
    | Bulk(data: seq<byte>)
    | Null
    | Array(items: seq<Reply>)

  // ---------- Decimal numbers ----------

  function Wrap(x: int): int { (x + TWO63) % TWO64 - TWO63 }

  predicate IsInt64(x: int) { -TWO63 <= x < TWO63 }

  function Digits(n: nat): (r: seq<byte>)
    ensures |r| > 0 && forall i :: 0 <= i < |r| ==> 48 <= r[i] <= 57
  {
    if n < 10 then [48 + n] else Digits(n / 10) + [48 + n % 10]
  }

  function Format(n: int): (r: seq<byte>)
    ensures |r| > 0 && forall i :: 0 <= i < |r| ==> r[i] != LF && r[i] != CR
  {
    if n >= 0 then Digits(n) else [45] + Digits(-n)
  }

  datatype Parsed = Number(n: int) | Bad

  /** Digits are accumulated in 64-bit arithmetic. */
  function ParseDigits(p: seq<byte>): Parsed {
    if p == [] then Number(0) else
      match ParseDigits(p[..|p| - 1])
      case Bad => Bad
      case Number(n) =>
        var b := p[|p| - 1];
        if b < 48 || b > 57 then Bad else Number(Wrap(n * 10 + (b - 48)))
  }

  function ParseInt(p: seq<byte>): Parsed {
    if p == [] then Bad
    else if p[0] == 45 then
      (if |p| == 1 then Bad
       else match ParseDigits(p[1..])
            case Bad => Bad
            case Number(n) => Number(Wrap(-n)))
    else ParseDigits(p)
  }

  function ParseLen(p: seq<byte>): Parsed {
    if p == [] then Bad else if p == [45, 49] then Number(-1) else ParseDigits(p)
  }

  lemma WrapStep(a: int, d: int)
    ensures Wrap(Wrap(a) * 10 + d) == Wrap(a * 10 + d)
  {
    var q := (a + TWO63) / TWO64;
    assert Wrap(a) == a - q * TWO64;
    Congruent(Wrap(a) * 10 + d, a * 10 + d, q * 10);
  }

  lemma Congruent(x: int, y: int, k: int)
    requires y == x + k * TWO64
    ensures Wrap(x) == Wrap(y)
  {
    ModShift(x + TWO63, k);
  }

  lemma ModShift(x: int, k: int)
    ensures (x + k * TWO64) % TWO64 == x % TWO64
  {
    var q, r := x / TWO64, x % TWO64;
    assert x + k * TWO64 == (q + k) * TWO64 + r;
  }

  /** The digits of a number read back as the number, wrapped to 64 bits. */
  lemma {:induction false} DigitsRoundTrip(n: nat)
    ensures ParseDigits(Digits(n)) == Number(Wrap(n))
  {
    if n < 10 {
      assert Digits(n)[..0] == [];
    } else {
      DigitsRoundTrip(n / 10);
      var r := Digits(n);
      assert r[..|r| - 1] == Digits(n / 10);
      WrapStep(n / 10, n % 10);
    }
  }

  /** Every 64-bit integer survives, the smallest included. */
  lemma IntRoundTrip(n: int)
    requires IsInt64(n)
    ensures ParseInt(Format(n)) == Number(n)
  {
    hide Digits, ParseDigits, Wrap;
    if n >= 0 {
      DigitsRoundTrip(n);
      WrapId(n);
      assert Digits(n)[0] != 45;
    } else {
      DigitsRoundTrip(-n);
      WrapNegated(n);
      assert Format(n)[1..] == Digits(-n);
    }
  }

  lemma WrapId(n: int)
    requires IsInt64(n)
    ensures Wrap(n) == n
  {
  }

  lemma WrapNegated(n: int)
    requires -TWO63 <= n < 0
    ensures Wrap(-Wrap(-n)) == n
  {
    if n > -TWO63 {
      WrapId(-n);
      WrapId(n);
    }
  }

  lemma LenRoundTrip(n: nat)
    requires n < TWO63
    ensures ParseLen(Digits(n)) == Number(n)
  {
    hide Digits, ParseDigits, Wrap;
    DigitsRoundTrip(n);
    WrapId(n);
    assert Digits(n)[0] != 45;
  }

  /** The loop that accumulates digits. */
  method AccumulateDigits(p: seq<byte>) returns (r: Parsed)
    ensures r == ParseDigits(p)
  {
    var n := 0;
    for i := 0 to |p|
      invariant ParseDigits(p[..i]) == Number(n)
    {
      assert p[..i + 1][..i] == p[..i];
      if p[i] < 48 || p[i] > 57 {
        BadPrefix(p, i + 1);
        return Bad;
      }
      n := Wrap(n * 10 + (p[i] - 48));
    }
    assert p[..|p|] == p;
    r := Number(n);
  }

  method ReadInt(p: seq<byte>) returns (r: Parsed)
    ensures r == ParseInt(p)
  {
    if |p| == 0 {
      return Bad;
    }
    var digits, negate := p, false;
    if p[0] == 45 {
      negate, digits := true, p[1..];
      if |digits| == 0 {
        return Bad;
      }
    }
    r := AccumulateDigits(digits);
    if negate && r.Number? {
      r := Number(Wrap(-r.n));
    }
  }

  method ReadLen(p: seq<byte>) returns (r: Parsed)
    ensures r == ParseLen(p)
  {
    if |p| == 0 {
      return Bad;
    }
    if p[0] == 45 && |p| == 2 && p[1] == 49 {
      return Number(-1);
    }
    r := AccumulateDigits(p);
  }

  lemma {:induction false} BadPrefix(p: seq<byte>, i: nat)
    requires i <= |p| && ParseDigits(p[..i]) == Bad
    ensures ParseDigits(p) == Bad
  {
    if i < |p| {
      assert p[..|p| - 1][..i] == p[..i];
      BadPrefix(p[..|p| - 1], i);
    } else {
      assert p[..i] == p;
    }
  }

  // ---------- Writing ----------

  function Line(first: byte, text: seq<byte>): seq<byte> { [first] + text + [CR, LF] }

  function Encode(r: Reply): seq<byte>
    decreases r
  {
    match r
    case Status(text) => Line(43, text)
    case Error(text) => Line(45, text)
    case Integer(n) => Line(58, Format(n))
    case Bulk(data) => Line(36, Digits(|data|)) + data + [CR, LF]
    case Null => Line(36, [45, 49])
    case Array(items) => Line(42, Digits(|items|)) + EncodeAll(items)
  }

  function EncodeAll(items: seq<Reply>): seq<byte>
    decreases items
  {
    if items == [] then [] else Encode(items[0]) + EncodeAll(items[1..])
  }

  // ---------- Reading ----------

  datatype LineRead = GotLine(line: seq<byte>, rest: seq<byte>) | NoLine

  datatype Result = Ok(reply: Reply, rest: seq<byte>) | Fail

  datatype Results = OkAll(items: seq<Reply>, rest: seq<byte>) | FailAll

  function FirstLf(input: seq<byte>): (i: nat)
    ensures i <= |input| && (i < |input| ==> input[i] == LF) && forall k :: 0 <= k < i ==> input[k] != LF
  {
    if input == [] || input[0] == LF then 0 else 1 + FirstLf(input[1..])
  }

  /** One line, ended by CR LF, no longer than the reader's buffer. */
  function ReadLine(size: nat, input: seq<byte>): (r: LineRead)
    ensures r.GotLine? ==> |r.rest| < |input| && forall k :: 0 <= k < |r.line| ==> r.line[k] != LF
  {
    var i := FirstLf(input);
    if i == |input| || i >= size || i == 0 || input[i - 1] != CR then NoLine
    else GotLine(input[..i - 1], input[i + 1..])
  }

  function ParseReply(size: nat, input: seq<byte>): (r: Result)
    ensures r.Ok? ==> |r.rest| < |input|
    decreases |input|, 0
  {
    match ReadLine(size, input)
    case NoLine => Fail
    case GotLine(line, rest) =>
      if line == [] then Fail
      else if line[0] == 43 then Ok(Status(line[1..]), rest)
      else if line[0] == 45 then Ok(Error(line[1..]), rest)
      else if line[0] == 58 then
        (match ParseInt(line[1..])
         case Bad => Fail
         case Number(n) => Ok(Integer(n), rest))
      else if line[0] == 36 then
        (match ParseLen(line[1..])
         case Bad => Fail
         case Number(n) => if n < 0 then Ok(Null, rest) else ParseBulk(size, n, rest))
      else if line[0] == 42 then
        (match ParseLen(line[1..])
         case Bad => Fail
         case Number(n) =>
           if n < 0 then Ok(Null, rest) else
             match ParseItems(size, n, rest)
             case FailAll => Fail
             case OkAll(items, tail) => Ok(Array(items), tail))
      else Fail
  }

  function ParseBulk(size: nat, n: nat, input: seq<byte>): (r: Result)
    ensures r.Ok? ==> |r.rest| <= |input|
  {
    if |input| < n then Fail else
      match ReadLine(size, input[n..])
      case NoLine => Fail
      case GotLine(line, rest) => if line != [] then Fail else Ok(Bulk(input[..n]), rest)
  }

  function ParseItems(size: nat, n: nat, input: seq<byte>): (r: Results)
    ensures r.OkAll? ==> |r.rest| <= |input|
    decreases |input|, 1
  {
    if n == 0 then OkAll([], input) else
      match ParseReply(size, input)
      case Fail => FailAll
      case Ok(first, rest) =>
        match ParseItems(size, n - 1, rest)
        case FailAll => FailAll
        case OkAll(items, tail) => OkAll([first] + items, tail)
  }

  // ---------- What can be sent ----------

  /** Integers and lengths have 64 bits. */
  ghost predicate Sized(r: Reply)
    decreases r
  {
    match r
    case Integer(n) => IsInt64(n)
    case Bulk(data) => |data| < TWO63
    case Array(items) => |items| < TWO63 && forall i :: 0 <= i < |items| ==> Sized(items[i])
    case _ => true
  }

  ghost predicate NoLf(text: seq<byte>) { forall i :: 0 <= i < |text| ==> text[i] != LF }

  /** No status or error text contains a line feed. */
  ghost predicate Clean(r: Reply)
    decreases r
  {
    match r
    case Status(text) => NoLf(text)
    case Error(text) => NoLf(text)
    case Array(items) => forall i :: 0 <= i < |items| ==> Clean(items[i])
    case _ => true
  }

  /** Every line fits the reader's buffer. */
  ghost predicate Fits(r: Reply, size: nat)
    decreases r
  {
    match r
    case Status(text) => |text| + 3 <= size
    case Error(text) => |text| + 3 <= size
    case Integer(n) => |Format(n)| + 3 <= size
    case Bulk(data) => |Digits(|data|)| + 3 <= size
    case Null => 5 <= size
    case Array(items) => |Digits(|items|)| + 3 <= size && forall i :: 0 <= i < |items| ==> Fits(items[i], size)
  }

  // ---------- Round trip ----------

  lemma {:induction false} FirstLfAt(text: seq<byte>, rest: seq<byte>)
    requires NoLf(text)
    ensures FirstLf(text + [LF] + rest) == |text|
  {
    var all := text + [LF] + rest;
    if text != [] {
      assert all[1..] == text[1..] + [LF] + rest;
      FirstLfAt(text[1..], rest);
    }
  }

  lemma ReadBack(size: nat, first: byte, text: seq<byte>, rest: seq<byte>)
    requires NoLf(text) && first != LF
    ensures ReadLine(size, Line(first, text) + rest) ==
            if |text| + 3 <= size then GotLine([first] + text, rest) else NoLine
  {
    var head := [first] + text + [CR];
    var all := Line(first, text) + rest;
    assert all == head + [LF] + rest;
    FirstLfAt(head, rest);
    var i := |head|;
    assert all[..i - 1] == [first] + text;
    assert all[i + 1..] == rest;
  }

  lemma BulkBack(size: nat, data: seq<byte>, rest: seq<byte>)
    requires 2 <= size
    ensures ParseBulk(size, |data|, data + [CR, LF] + rest) == Ok(Bulk(data), rest)
  {
    var all := data + [CR, LF] + rest;
    assert all[|data|..] == [CR] + [LF] + rest;
    FirstLfAt([CR], rest);
    assert all[|data|..][..0] == [];
    assert all[|data|..][2..] == rest;
    assert all[..|data|] == data;
  }

  /** A reply without line feeds in its texts reads back as itself, whatever follows, if its lines fit. */
  lemma {:induction false} Back(size: nat, r: Reply, rest: seq<byte>)
    requires Sized(r) && Clean(r)
    ensures ParseReply(size, Encode(r) + rest) == if Fits(r, size) then Ok(r, rest) else Fail
    decreases r
  {
    hide Digits, Wrap, ReadLine, ParseDigits, ParseBulk, ParseInt, ParseLen, Line;
    match r {
      case Status(text) =>
        ReadBack(size, 43, text, rest);
        assert ([43] + text)[1..] == text;
      case Error(text) =>
        ReadBack(size, 45, text, rest);
        assert ([45] + text)[1..] == text;
      case Integer(n) =>
        ReadBack(size, 58, Format(n), rest);
        assert ([58] + Format(n))[1..] == Format(n);
        IntRoundTrip(n);
      case Bulk(data) =>
        var tail := data + [CR, LF] + rest;
        assert Encode(r) + rest == Line(36, Digits(|data|)) + tail;
        ReadBack(size, 36, Digits(|data|), tail);
        assert ([36] + Digits(|data|))[1..] == Digits(|data|);
        LenRoundTrip(|data|);
        if 2 <= size {
          BulkBack(size, data, rest);
        }
      case Null =>
        ReadBack(size, 36, [45, 49], rest);
        NullLen();
        assert ([36] + [45, 49])[1..] == [45, 49];
      case Array(items) =>
        var tail := EncodeAll(items) + rest;
        assert Encode(r) + rest == Line(42, Digits(|items|)) + tail;
        ReadBack(size, 42, Digits(|items|), tail);
        assert ([42] + Digits(|items|))[1..] == Digits(|items|);
        LenRoundTrip(|items|);
        BackAll(size, items, rest);
    }
  }

  lemma NullLen()
    ensures ParseLen([45, 49]) == Number(-1)
  {
  }

  lemma {:induction false} BackAll(size: nat, items: seq<Reply>, rest: seq<byte>)
    requires forall i :: 0 <= i < |items| ==> Sized(items[i]) && Clean(items[i])
    ensures ParseItems(size, |items|, EncodeAll(items) + rest) ==
            if forall i :: 0 <= i < |items| ==> Fits(items[i], size) then OkAll(items, rest) else FailAll
    decreases items
  {
    hide ParseReply, Encode, Sized, Clean, Fits;
    if items == [] {
      assert EncodeAll(items) + rest == rest;
    } else {
      var tail := EncodeAll(items[1..]) + rest;
      assert EncodeAll(items) + rest == Encode(items[0]) + tail;
      Back(size, items[0], tail);
      BackAll(size, items[1..], rest);
      assert items == [items[0]] + items[1..];
      assert forall i :: 0 <= i < |items[1..]| ==> items[1..][i] == items[i + 1];
      assert forall i :: 0 < i < |items| ==> items[i] == items[1..][i - 1];
    }
  }

  /** Nothing the reader returns has a line feed in a text. */
  lemma {:induction false} ParsedClean(size: nat, input: seq<byte>)
    ensures var r := ParseReply(size, input); r.Ok? ==> Clean(r.reply)
    decreases |input|, 0
  {
    hide ParseDigits, ParseInt, ParseLen;
    var line := ReadLine(size, input);
    if line.GotLine? && line.line != [] && line.line[0] == 42 {
      var n := ParseLen(line.line[1..]);
      if n.Number? && n.n >= 0 {
        ItemsClean(size, n.n, line.rest);
        var items := ParseItems(size, n.n, line.rest);
        if items.OkAll? {
          ArrayClean(items.items);
        }
      }
    }
  }

  ghost predicate AllClean(items: seq<Reply>) {
    forall i :: 0 <= i < |items| ==> Clean(items[i])
  }

  lemma ArrayClean(items: seq<Reply>)
    requires AllClean(items)
    ensures Clean(Array(items))
  {
  }

  lemma EmptyClean()
    ensures AllClean([])
  {
  }

  lemma ConsClean(first: Reply, items: seq<Reply>)
    requires Clean(first) && AllClean(items)
    ensures AllClean([first] + items)
  {
    hide Clean;
  }

  lemma {:induction false} ItemsClean(size: nat, n: nat, input: seq<byte>)
    ensures var r := ParseItems(size, n, input); r.OkAll? ==> AllClean(r.items)
    decreases |input|, 1
  {
    hide Clean, AllClean;
    if n == 0 {
      assert AllClean([]) by { EmptyClean(); }
    } else {
      ParsedClean(size, input);
      var first := ParseReply(size, input);
      if first.Ok? {
        ItemsClean(size, n - 1, first.rest);
        var more := ParseItems(size, n - 1, first.rest);
        if more.OkAll? {
          ConsClean(first.reply, more.items);
        }
      }
    }
  }

  /** Exactly the replies without line feeds in texts, and with lines that fit, survive the wire. */
  lemma RoundTrip(size: nat, r: Reply, rest: seq<byte>)
    requires Sized(r)
    ensures ParseReply(size, Encode(r) + rest) == Ok(r, rest) <==> Clean(r) && Fits(r, size)
  {
    hide ParseReply, Encode, Sized, Clean, Fits;
    ParsedClean(size, Encode(r) + rest);
    if Clean(r) {
      Back(size, r, rest);
    }
  }

  /** A status with an embedded line end is cut short and leaves its tail to be read as the next reply. */
  lemma SplitStatus(rest: seq<byte>)
    ensures ParseReply(64, Encode(Status([97, CR, LF, 98])) + rest) == Ok(Status([97]), [98, CR, LF] + rest)
  {
    var input := Encode(Status([97, CR, LF, 98])) + rest;
    var tail := [98, CR, LF] + rest;
    assert input == Line(43, [97]) + tail;
    ReadBack(64, 43, [97], tail);
    assert ([43] + [97])[1..] == [97];
  }

  /** The bytes on the wire: `+OK`, `-ERR`, `:1`, `:-12`, `$2` with `ab`, and `$-1`. */
  lemma OnTheWire()
    ensures Encode(Status([79, 75])) == [43, 79, 75, 13, 10]
    ensures Encode(Error([69, 82, 82])) == [45, 69, 82, 82, 13, 10]
    ensures Encode(Integer(1)) == [58, 49, 13, 10]
    ensures Encode(Integer(-12)) == [58, 45, 49, 50, 13, 10]
    ensures Encode(Bulk([97, 98])) == [36, 50, 13, 10, 97, 98, 13, 10]
    ensures Encode(Null) == [36, 45, 49, 13, 10]
  {
    TextsOnTheWire();
    NumbersOnTheWire();
    hide Encode;
  }

  lemma TextsOnTheWire()
    ensures Encode(Status([79, 75])) == [43, 79, 75, 13, 10]
    ensures Encode(Error([69, 82, 82])) == [45, 69, 82, 82, 13, 10]
    ensures Encode(Bulk([97, 98])) == [36, 50, 13, 10, 97, 98, 13, 10]
    ensures Encode(Null) == [36, 45, 49, 13, 10]
  {
  }

  lemma NumbersOnTheWire()
    ensures Encode(Integer(1)) == [58, 49, 13, 10]
    ensures Encode(Integer(-12)) == [58, 45, 49, 50, 13, 10]
  {
    assert Digits(12) == [49, 50];
    assert Format(-12) == [45, 49, 50];
    hide Digits, Format;
  }

  /** An array is its length and its items: `*2` with `:7` and `$-1`. */
  lemma ArrayOnTheWire()
    ensures Encode(Array([Integer(7), Null])) == [42, 50, 13, 10, 58, 55, 13, 10, 36, 45, 49, 13, 10]
  {
    var items := [Integer(7), Null];
    EncodedTwo(Integer(7), Null);
    assert Encode(Integer(7)) == [58, 55, 13, 10];
    assert Encode(Null) == [36, 45, 49, 13, 10];
    hide EncodeAll;
    assert Encode(Array(items)) == Line(42, Digits(2)) + EncodeAll(items);
    assert Line(42, Digits(2)) == [42, 50, 13, 10];
  }

  lemma EncodedTwo(r: Reply, q: Reply)
    ensures EncodeAll([r, q]) == Encode(r) + Encode(q)
  {
    hide Encode;
    assert [r, q][1..] == [q] && [q][1..] == [];
    assert EncodeAll([q]) == Encode(q) + EncodeAll([]);
  }

  /** A null array reads as a null. */
  lemma NullArray(size: nat, rest: seq<byte>)
    requires 5 <= size
    ensures ParseReply(size, Line(42, [45, 49]) + rest) == Ok(Null, rest)
  {
    hide Line, ReadLine;
    ReadBack(size, 42, [45, 49], rest);
    assert ([42] + [45, 49])[1..] == [45, 49];
  }

  // ---------- The writer and the reader ----------

  class RespWriter {
    var buff: seq<byte>

    method WriteLine(first: byte, text: seq<byte>)
      modifies this
      ensures buff == old(buff) + Line(first, text)
    {
      buff := buff + [first];
      buff := buff + text;
      buff := buff + [CR, LF];
    }

    method WriteBulk(data: seq<byte>)
      modifies this
      ensures buff == old(buff) + Encode(Bulk(data))
    {
      WriteLine(36, Digits(|data|));
      buff := buff + data;
      buff := buff + [CR, LF];
    }

    /** Writes one item of an array, or a whole reply. */
    method Write(r: Reply)
      modifies this
      ensures buff == old(buff) + Encode(r)
      decreases r
    {
      match r {
        case Status(text) => WriteLine(43, text);
        case Error(text) => WriteLine(45, text);
        case Integer(n) => WriteLine(58, Format(n));
        case Bulk(data) => WriteBulk(data);
        case Null => WriteLine(36, [45, 49]);
        case Array(items) => WriteArray(items);
      }
    }

    method WriteArray(items: seq<Reply>)
      modifies this
      ensures buff == old(buff) + Encode(Array(items))
      decreases items
    {
      hide Encode, Digits, Line;
      ghost var start := buff;
      WriteLine(42, Digits(|items|));
      ghost var header := Line(42, Digits(|items|));
      for i := 0 to |items|
        invariant buff + EncodeAll(items[i..]) == start + header + EncodeAll(items)
      {
        ghost var before := buff;
        assert items[i..][0] == items[i] && items[i..][1..] == items[i + 1..];
        Write(items[i]);
        assert before + (Encode(items[i]) + EncodeAll(items[i + 1..])) == buff + EncodeAll(items[i + 1..]);
      }
      assert EncodeAll(items[|items|..]) == [];
      assert buff == start + header + EncodeAll(items);
      ArrayCode(items);
      assert start + header + EncodeAll(items) == start + (header + EncodeAll(items));
    }
  }

  lemma ArrayCode(items: seq<Reply>)
    ensures Encode(Array(items)) == Line(42, Digits(|items|)) + EncodeAll(items)
  {
  }

  lemma ItemsNone(size: nat, input: seq<byte>)
    ensures ParseItems(size, 0, input) == OkAll([], input)
  {
  }

  lemma ItemsNext(size: nat, n: nat, input: seq<byte>)
    requires n > 0
    ensures match ParseReply(size, input)
            case Fail => ParseItems(size, n, input) == FailAll
            case Ok(first, rest) =>
              |rest| < |input| &&
              (match ParseItems(size, n - 1, rest)
               case FailAll => ParseItems(size, n, input) == FailAll
               case OkAll(items, tail) => ParseItems(size, n, input) == OkAll([first] + items, tail))
  {
    hide ParseReply;
  }

  /** The first line feed is not before a place that no line feed precedes. */
  lemma LfIs(input: seq<byte>, i: nat)
    requires i <= |input| && forall k :: 0 <= k < i ==> input[k] != LF
    ensures FirstLf(input) >= i && (i < |input| && input[i] == LF ==> FirstLf(input) == i)
  {
  }

  // ---------- Requests ----------

  datatype Request = Got(args: seq<seq<byte>>, rest: seq<byte>) | NoRequest

  /** A request is an array of bulks; anything else fails. A null bulk counts as empty. */
  function ParseArg(size: nat, input: seq<byte>): (r: Result)
    ensures r.Ok? ==> |r.rest| < |input|
  {
    match ReadLine(size, input)
    case NoLine => Fail
    case GotLine(line, _) => if line != [] && line[0] == 36 then ParseReply(size, input) else Fail
  }

  function Arg(r: Reply): seq<byte> { if r.Bulk? then r.data else [] }

  function ParseArgs(size: nat, n: nat, input: seq<byte>): Request {
    if n == 0 then Got([], input) else
      match ParseArg(size, input)
      case Fail => NoRequest
      case Ok(first, rest) =>
        match ParseArgs(size, n - 1, rest)
        case NoRequest => NoRequest
        case Got(args, tail) => Got([Arg(first)] + args, tail)
  }

  /** Empty lines before a request are skipped. */
  function ParseRequest(size: nat, input: seq<byte>): Request
    decreases |input|
  {
    match ReadLine(size, input)
    case NoLine => NoRequest
    case GotLine(line, rest) =>
      if line == [] then ParseRequest(size, rest) else Headed(size, line, rest)
  }

  function Headed(size: nat, line: seq<byte>, rest: seq<byte>): Request
    requires line != []
  {
    if line[0] != 42 then NoRequest
    else match ParseLen(line[1..])
         case Bad => NoRequest
         case Number(n) => if n < 0 then Got([], rest) else ParseArgs(size, n, rest)
  }

  function Bulks(args: seq<seq<byte>>): (r: seq<Reply>)
    ensures |r| == |args| && forall i :: 0 <= i < |args| ==> r[i] == Bulk(args[i])
  {
    seq(|args|, i requires 0 <= i < |args| => Bulk(args[i]))
  }

  lemma ArgBack(size: nat, data: seq<byte>, rest: seq<byte>)
    requires |data| < TWO63
    ensures ParseArg(size, Encode(Bulk(data)) + rest) == if Fits(Bulk(data), size) then Ok(Bulk(data), rest) else Fail
  {
    hide ParseReply, ReadLine, Digits, Line;
    Back(size, Bulk(data), rest);
    var tail := data + [CR, LF] + rest;
    assert Encode(Bulk(data)) + rest == Line(36, Digits(|data|)) + tail;
    ReadBack(size, 36, Digits(|data|), tail);
  }

  lemma {:induction false} ArgsBack(size: nat, args: seq<seq<byte>>, rest: seq<byte>)
    requires forall i :: 0 <= i < |args| ==> |args[i]| < TWO63
    ensures ParseArgs(size, |args|, EncodeAll(Bulks(args)) + rest) ==
            if forall i :: 0 <= i < |args| ==> Fits(Bulk(args[i]), size) then Got(args, rest) else NoRequest
  {
    hide ParseArg, Encode, EncodeAll, Bulks, Fits;
    FirstBulk(args);
    if args == [] {
      assert EncodeAll(Bulks(args)) + rest == rest;
    } else {
      var tail := EncodeAll(Bulks(args[1..])) + rest;
      assert EncodeAll(Bulks(args)) + rest == Encode(Bulk(args[0])) + tail;
      ArgBack(size, args[0], tail);
      ArgsBack(size, args[1..], rest);
      FirstFits(args, size);
      assert args == [args[0]] + args[1..];
    }
  }

  lemma FirstBulk(args: seq<seq<byte>>)
    ensures EncodeAll(Bulks(args)) ==
            if args == [] then [] else Encode(Bulk(args[0])) + EncodeAll(Bulks(args[1..]))
  {
    hide Encode;
    if args != [] {
      assert Bulks(args)[1..] == Bulks(args[1..]);
    }
  }

  lemma FirstFits(args: seq<seq<byte>>, size: nat)
    requires args != []
    ensures (forall i :: 0 <= i < |args| ==> Fits(Bulk(args[i]), size)) <==>
            Fits(Bulk(args[0]), size) && forall i :: 0 <= i < |args[1..]| ==> Fits(Bulk(args[1..][i]), size)
  {
    hide Fits;
    assert forall i :: 0 < i < |args| ==> args[i] == args[1..][i - 1];
  }

  function Blank(k: nat): seq<byte> { if k == 0 then [] else [CR, LF] + Blank(k - 1) }

  lemma {:induction false} BlankSkipped(size: nat, k: nat, input: seq<byte>)
    requires 2 <= size
    ensures ParseRequest(size, Blank(k) + input) == ParseRequest(size, input)
  {
    if k == 0 {
      assert Blank(0) + input == input;
    } else {
      var tail := Blank(k - 1) + input;
      assert Blank(k) + input == [CR] + [LF] + tail;
      FirstLfAt([CR], tail);
      assert ([CR] + [LF] + tail)[2..] == tail;
      BlankSkipped(size, k - 1, input);
    }
  }

  lemma HeaderBack(size: nat, n: nat, tail: seq<byte>)
    requires n < TWO63
    ensures ParseRequest(size, Line(42, Digits(n)) + tail) ==
            if |Digits(n)| + 3 <= size then ParseArgs(size, n, tail) else NoRequest
  {
    LenRoundTrip(n);
    hide ReadLine, Digits, Line, ParseArgs, ParseLen;
    ReadBack(size, 42, Digits(n), tail);
    assert ([42] + Digits(n))[1..] == Digits(n);
  }

  lemma FitsBulks(size: nat, args: seq<seq<byte>>)
    ensures Fits(Array(Bulks(args)), size) <==>
            |Digits(|args|)| + 3 <= size && forall i :: 0 <= i < |args| ==> Fits(Bulk(args[i]), size)
  {
    hide Digits;
    assert forall i :: 0 <= i < |args| ==> Bulks(args)[i] == Bulk(args[i]);
  }

  /** A command sent as an array of bulks is read back as its arguments, exactly when its length lines fit. */
  lemma RequestRoundTrip(size: nat, k: nat, args: seq<seq<byte>>, rest: seq<byte>)
    requires 2 <= size && |args| < TWO63 && forall i :: 0 <= i < |args| ==> |args[i]| < TWO63
    ensures ParseRequest(size, Blank(k) + (Encode(Array(Bulks(args))) + rest)) == Got(args, rest)
            <==> Fits(Array(Bulks(args)), size)
  {
    hide ParseRequest, ParseArgs, Digits, Line, Encode, EncodeAll, Fits, Bulks;
    var code := Encode(Array(Bulks(args)));
    BlankSkipped(size, k, code + rest);
    ArgsBack(size, args, rest);
    FitsBulks(size, args);
    ArrayCode(Bulks(args));
    assert code + rest == Line(42, Digits(|args|)) + (EncodeAll(Bulks(args)) + rest);
    HeaderBack(size, |args|, EncodeAll(Bulks(args)) + rest);
  }

  lemma ArgsNone(size: nat, input: seq<byte>)
    ensures ParseArgs(size, 0, input) == Got([], input)
  {
  }

  lemma ArgsNext(size: nat, n: nat, input: seq<byte>)
    requires n > 0
    ensures match ParseArg(size, input)
            case Fail => ParseArgs(size, n, input) == NoRequest
            case Ok(first, rest) =>
              match ParseArgs(size, n - 1, rest)
              case NoRequest => ParseArgs(size, n, input) == NoRequest
              case Got(args, tail) => ParseArgs(size, n, input) == Got([Arg(first)] + args, tail)
  {
    hide ParseArg;
  }

  class RespReader {
    const size: nat
    var input: seq<byte>

    method NextLine() returns (r: LineRead)
      modifies this`input
      ensures r == ReadLine(size, old(input))
      ensures input == if r.GotLine? then r.rest else old(input)
    {
      var i := 0;
      while i < |input| && i < size && input[i] != LF
        invariant i <= |input| && i <= size && forall k :: 0 <= k < i ==> input[k] != LF
      {
        i := i + 1;
      }
      LfIs(input, i);
      if i == |input| || i == size || i == 0 || input[i - 1] != CR {
        return NoLine;
      }
      r := GotLine(input[..i - 1], input[i + 1..]);
      input := input[i + 1..];
    }

    /** Reads one reply off the stream; after a failure the connection is given up. */
    method Parse() returns (ok: bool, r: Reply)
      modifies this`input
      ensures match ParseReply(size, old(input))
              case Fail => !ok
              case Ok(reply, rest) => ok && r == reply && input == rest
      decreases |input|, 0
    {
      hide ParseDigits, Digits;
      ok, r := false, Null;
      var got := NextLine();
      if got.NoLine? || got.line == [] {
        return;
      }
      var line := got.line;
      if line[0] == 43 {
        return true, Status(line[1..]);
      } else if line[0] == 45 {
        return true, Error(line[1..]);
      } else if line[0] == 58 {
        var n := ReadInt(line[1..]);
        if n.Number? {
          return true, Integer(n.n);
        }
      } else if line[0] == 36 || line[0] == 42 {
        var n := ReadLen(line[1..]);
        if n.Bad? {
          return;
        } else if n.n < 0 {
          return true, Null;
        } else if line[0] == 36 {
          ok, r := TakeBulk(n.n);
        } else {
          var items;
          ok, items := ParseArray(n.n);
          r := Array(items);
        }
      }
    }

    /** One argument of a request. */
    method ReadArg() returns (ok: bool, arg: seq<byte>)
      modifies this`input
      ensures match ParseArg(size, old(input))
              case Fail => !ok
              case Ok(reply, rest) => ok && arg == Arg(reply) && input == rest
    {
      hide ParseDigits, Digits;
      ok, arg := false, [];
      var got := NextLine();
      if got.NoLine? || got.line == [] || got.line[0] != 36 {
        return;
      }
      var n := ReadLen(got.line[1..]);
      if n.Bad? {
        return;
      } else if n.n < 0 {
        return true, [];
      }
      var r;
      ok, r := TakeBulk(n.n);
      arg := Arg(r);
    }

    /** Reads one request, skipping empty lines before it. */
    method ReadRequest() returns (ok: bool, args: seq<seq<byte>>)
      modifies this`input
      ensures match ParseRequest(size, old(input))
              case NoRequest => !ok
              case Got(all, rest) => ok && args == all && input == rest
    {
      hide ParseLen, ParseArgs;
      ok, args := false, [];
      var got := NextLine();
      while got.GotLine? && got.line == []
        invariant |input| <= |old(input)|
        invariant match got
                  case NoLine => ParseRequest(size, old(input)) == NoRequest
                  case GotLine(line, rest) =>
                    && rest == input
                    && ParseRequest(size, old(input)) ==
                       if line == [] then ParseRequest(size, rest) else Headed(size, line, rest)
        decreases |input| + if got.GotLine? then 1 else 0
      {
        got := NextLine();
      }
      if got.NoLine? || got.line[0] != 42 {
        return;
      }
      var n := ReadLen(got.line[1..]);
      if n.Bad? {
        return;
      } else if n.n < 0 {
        return true, [];
      }
      ok, args := ReadArgs(n.n);
    }

    method ReadArgs(n: nat) returns (ok: bool, args: seq<seq<byte>>)
      modifies this`input
      ensures match ParseArgs(size, n, old(input))
              case NoRequest => !ok
              case Got(all, rest) => ok && args == all && input == rest
    {
      hide ParseArg, ParseArgs;
      args := [];
      ghost var start := input;
      for i := 0 to n
        invariant match ParseArgs(size, n - i, input)
                  case NoRequest => ParseArgs(size, n, start).NoRequest?
                  case Got(more, rest) => ParseArgs(size, n, start) == Got(args + more, rest)
      {
        ArgsNext(size, n - i, input);
        var first;
        ok, first := ReadArg();
        if !ok {
          return;
        }
        args := args + [first];
      }
      ArgsNone(size, input);
      ok := true;
    }

    method TakeBulk(n: nat) returns (ok: bool, r: Reply)
      modifies this`input
      ensures match ParseBulk(size, n, old(input))
              case Fail => !ok
              case Ok(reply, rest) => ok && r == reply && input == rest
    {
      ok, r := false, Null;
      if |input| < n {
        return;
      }
      var data := input[..n];
      input := input[n..];
      var end := NextLine();
      if end.GotLine? && end.line == [] {
        return true, Bulk(data);
      }
    }

    method ParseArray(n: nat) returns (ok: bool, items: seq<Reply>)
      modifies this`input
      ensures match ParseItems(size, n, old(input))
              case FailAll => !ok
              case OkAll(all, rest) => ok && items == all && input == rest
      decreases |input|, 1
    {
      hide ParseReply, ParseItems;
      items := [];
      ghost var start := input;
      for i := 0 to n
        invariant |input| <= |start|
        invariant match ParseItems(size, n - i, input)
                  case FailAll => ParseItems(size, n, start).FailAll?
                  case OkAll(more, rest) => ParseItems(size, n, start) == OkAll(items + more, rest)
      {
        ItemsNext(size, n - i, input);
        var first;
        ok, first := Parse();
        if !ok {
          return;
        }
        items := items + [first];
      }
      ItemsNone(size, input);
      ok := true;
    }
  }
}
