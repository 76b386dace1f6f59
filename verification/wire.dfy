/** The protobuf wire format: base 128 varints, field keys and length-delimited fields, written backwards into a
    buffer and read forwards. */
module Wire {
  import opened Types
  import opened Lex

  const U64: nat := 0x1_0000_0000_0000_0000
  const MAX_INT: nat := 0x8000_0000_0000_0000

  datatype Error = IntOverflow | UnexpectedEOF | InvalidLength | IllegalKey | WrongWireType | IllegalWireType | UnexpectedEndOfGroup | InvalidAmount

  datatype Result<+T> = Ok(value: T) | Failed(error: Error)

  // ---------- Varints ----------

  /** Groups of seven bits, least significant first, all but the last with the high bit set. */
  function Varint(v: nat): (b: Bytes)
    ensures |b| >= 1
  {
    if v < 128 then [v] else [v % 128 + 128] + Varint(v / 128)
  }

  function BitLen(x: nat): nat {
    if x == 0 then 0 else 1 + BitLen(x / 2)
  }

  /** The number of bytes of a varint, from the bit length of v with its lowest bit set. */
  function Sov(v: nat): nat {
    (BitLen(if v % 2 == 0 then v + 1 else v) + 6) / 7
  }

  lemma {:induction false} BitLenOr1(v: nat)
    requires v > 0
    ensures BitLen(if v % 2 == 0 then v + 1 else v) == BitLen(v)
  {
    if v % 2 == 0 {
      assert (v + 1) / 2 == v / 2;
    }
  }

  lemma BitLenBy128(v: nat)
    requires v >= 128
    ensures BitLen(v) == 7 + BitLen(v / 128)
  {
    var a, b, c := v / 2, v / 4, v / 8;
    assert a / 2 == b && b / 2 == c;
    var d, e, f := v / 16, v / 32, v / 64;
    assert c / 2 == d && d / 2 == e && e / 2 == f && f / 2 == v / 128;
    assert BitLen(v) == 1 + BitLen(a) && BitLen(a) == 1 + BitLen(b) && BitLen(b) == 1 + BitLen(c);
    assert BitLen(c) == 1 + BitLen(d) && BitLen(d) == 1 + BitLen(e) && BitLen(e) == 1 + BitLen(f);
  }

  lemma SmallBitLen(v: nat)
    requires 0 < v < 128
    ensures 1 <= BitLen(v) <= 7
  {
    var a, b, c := v / 2, v / 4, v / 8;
    assert a / 2 == b && b / 2 == c && c / 2 == v / 16 && v / 16 / 2 == v / 32 && v / 32 / 2 == v / 64 && v / 64 / 2 == 0;
    assert BitLen(v / 64) <= 1;
    assert BitLen(v / 32) <= 2;
    assert BitLen(v / 16) <= 3;
    assert BitLen(c) <= 4;
    assert BitLen(b) <= 5;
    assert BitLen(a) <= 6;
  }

  /** The size is exact for every value. */
  lemma {:induction false} SovIsLength(v: nat)
    ensures Sov(v) == |Varint(v)|
  {
    if v == 0 {
      assert BitLen(1) == 1 + BitLen(0);
    } else if v < 128 {
      BitLenOr1(v);
      SmallBitLen(v);
    } else {
      SovIsLength(v / 128);
      BitLenOr1(v);
      BitLenOr1(v / 128);
      BitLenBy128(v);
    }
  }

  function Pow128(k: nat): nat {
    if k == 0 then 1 else 128 * Pow128(k - 1)
  }

  /** Seven bits shifted to group k of a 64 bit word. */
  function Group(b: Byte, k: nat): nat {
    b % 128 * Pow128(k) % U64
  }

  /** Reads the rest of a varint from byte i on, the k-th of it. The groups have no bits in common, so adding
      them is or-ing them. */
  function ReadVarint(d: Bytes, i: nat, k: nat): (r: Result<(nat, nat)>)
    ensures r.Ok? ==> i < r.value.1 <= |d|
    decreases 10 - k
  {
    if k >= 10 then Failed(IntOverflow)
    else if i >= |d| then Failed(UnexpectedEOF)
    else if d[i] < 128 then Ok((Group(d[i], k), i + 1))
    else
      match ReadVarint(d, i + 1, k + 1)
      case Ok((v, next)) => Ok((Group(d[i], k) + v, next))
      case err => err
  }

  /** The loop that the source repeats for every varint. */
  method DecodeVarint(d: Bytes, start: nat) returns (r: Result<(nat, nat)>)
    ensures r == ReadVarint(d, start, 0)
  {
    var v: nat, i: nat, k: nat := 0, start, 0;
    while true
      invariant k <= 10
      invariant ReadVarint(d, start, 0) == (match ReadVarint(d, i, k) case Ok((w, n)) => Ok((v + w, n)) case err => err)
      decreases 10 - k
    {
      if k >= 10 {
        return Failed(IntOverflow);
      }
      if i >= |d| {
        return Failed(UnexpectedEOF);
      }
      var b := d[i];
      v := v + Group(b, k);
      i := i + 1;
      if b < 128 {
        return Ok((v, i));
      }
      k := k + 1;
    }
  }

  lemma TenGroups()
    ensures Pow128(10) >= U64
  {
    var p := Pow128(5);
    assert p == 128 * (128 * (128 * (128 * 128)));
    assert Pow128(6) == 128 * p && Pow128(7) == 128 * Pow128(6) && Pow128(8) == 128 * Pow128(7);
    assert Pow128(9) == 128 * Pow128(8) && Pow128(10) == 128 * Pow128(9);
  }

  lemma {:induction false} Pow128Grows(j: nat, k: nat)
    requires j <= k
    ensures 1 <= Pow128(j) <= Pow128(k)
  {
    if j < k {
      Pow128Grows(j, k - 1);
    } else if j > 0 {
      Pow128Grows(j - 1, k - 1);
    }
  }

  lemma SplitProduct(v: nat, p: nat)
    ensures v % 128 * p + v / 128 * (128 * p) == v * p
  {
    assert v == v % 128 + v / 128 * 128;
    assert (v % 128 + v / 128 * 128) * p == v % 128 * p + v / 128 * 128 * p;
  }

  lemma FactorBound(q: nat, p: nat)
    requires q >= 1
    ensures p <= q * p
  {
  }

  /** The lowest group of v and the rest of it, at group k of the word. */
  lemma SplitGroup(v: nat, k: nat)
    requires v >= 128 && v * Pow128(k) < U64
    ensures k < 9 && v / 128 * Pow128(k + 1) < U64
    ensures Group(v % 128 + 128, k) == v % 128 * Pow128(k)
    ensures v % 128 * Pow128(k) + v / 128 * Pow128(k + 1) == v * Pow128(k)
  {
    var p, p1 := Pow128(k), Pow128(k + 1);
    assert p1 == 128 * p;
    SplitProduct(v, p);
    FactorBound(v / 128, p1);
    TenGroups();
    assert k < 9 by {
      if k >= 9 {
        Pow128Grows(10, k + 1);
        assert false;
      }
    }
    assert (v % 128 + 128) % 128 == v % 128;
  }

  lemma LastGroup(v: nat, k: nat)
    requires v < 128 && v * Pow128(k) < U64
    ensures Group(v, k) == v * Pow128(k)
  {
  }

  /** Reading gives back what was written, for every 64 bit value. */
  lemma {:induction false} VarintRoundTrip(d: Bytes, i: nat, k: nat, v: nat)
    requires v * Pow128(k) < U64 && k <= 9
    requires i + |Varint(v)| <= |d| && d[i..i + |Varint(v)|] == Varint(v)
    ensures ReadVarint(d, i, k) == Ok((v * Pow128(k), i + |Varint(v)|))
    decreases v
  {
    var b := Varint(v);
    assert d[i] == d[i..i + |b|][0] == b[0];
    if v < 128 {
      LastGroup(v, k);
    } else {
      SplitGroup(v, k);
      var rest := Varint(v / 128);
      assert b == [v % 128 + 128] + rest;
      assert d[i + 1..i + 1 + |rest|] == d[i..i + |b|][1..] == rest;
      hide Group, Pow128, Varint;
      VarintRoundTrip(d, i + 1, k + 1, v / 128);
    }
  }

  lemma {:induction false} VarintLength(v: nat, k: nat)
    requires v * Pow128(k) < U64 && k <= 9
    ensures |Varint(v)| <= 10 - k
    decreases v
  {
    if v >= 128 {
      SplitGroup(v, k);
      VarintLength(v / 128, k + 1);
    }
  }

  lemma SplitVarint(b: Bytes, i: nat, v: nat)
    requires i <= |b| && b == b[..i] + Varint(v) && v >= 128
    ensures i + 1 <= |b| && b[i] == v % 128 + 128 && b == b[..i + 1] + Varint(v / 128)
  {
    assert b[i..] == Varint(v) == [v % 128 + 128] + Varint(v / 128);
  }

  lemma LastByte(b: Bytes, i: nat, v: nat)
    requires i <= |b| && b == b[..i] + Varint(v) && v < 128
    ensures i + 1 == |b| && b[i] == v
  {
  }

  lemma DivDiv(v: nat, p: nat)
    requires p > 0
    ensures v / 128 / p == v / (128 * p)
  {
    var a := v / 128 / p;
    assert 128 * p * a <= v < 128 * p * (a + 1) by {
      assert p * a <= v / 128 < p * (a + 1);
      assert 128 * (p * a) <= v && v < 128 * (p * (a + 1));
      assert 128 * p * a == 128 * (p * a) && 128 * p * (a + 1) == 128 * (p * (a + 1));
    }
    QuotientIs(v, 128 * p, a);
  }

  lemma QuotientIs(v: nat, d: nat, a: nat)
    requires d > 0 && d * a <= v < d * (a + 1)
    ensures v / d == a
  {
    var b := v / d;
    assert d * b <= v < d * (b + 1);
    CancelFactor(d, b, a + 1);
    CancelFactor(d, a, b + 1);
  }

  lemma CancelFactor(d: nat, a: nat, b: nat)
    requires d * a < d * b
    ensures a < b
  {
  }

  /** The format: byte i is the i-th group of seven bits from the low end, with the high bit set on all but the last. */
  lemma {:induction false} VarintIs(v: nat, i: nat)
    requires i < |Varint(v)|
    ensures Pow128(i) > 0 && Varint(v)[i] == v / Pow128(i) % 128 + if i < |Varint(v)| - 1 then 128 else 0
    decreases v
  {
    Pow128Grows(0, i);
    if i > 0 {
      Pow128Grows(0, i - 1);
      VarintIs(v / 128, i - 1);
      DivDiv(v, Pow128(i - 1));
    }
  }

  /** The buffer holds `b` in front of position `from`, and is otherwise as it was. */
  ghost predicate Written(d: Bytes, before: Bytes, from: nat, end: nat, b: Bytes) {
    && |d| == |before| && from + |b| == end <= |d|
    && d == before[..from] + b + before[end..]
  }

  /** The first i bytes of `b` are in the buffer from `base` on. */
  ghost predicate Partly(d: Bytes, before: Bytes, base: nat, b: Bytes, i: nat) {
    i <= |b| && base + |b| <= |before| && d == before[..base] + b[..i] + before[base + i..]
  }

  lemma PartlyStart(before: Bytes, base: nat, b: Bytes)
    requires base + |b| <= |before|
    ensures Partly(before, before, base, b, 0)
  {
  }

  lemma PartlyEnd(d: Bytes, before: Bytes, base: nat, b: Bytes)
    requires Partly(d, before, base, b, |b|)
    ensures Written(d, before, base, base + |b|, b)
  {
    assert b[..|b|] == b;
  }

  method PutByte(d: array<Byte>, ghost before: Bytes, base: nat, ghost b: Bytes, i: nat, x: Byte)
    requires Partly(d[..], before, base, b, i) && i < |b| && b[i] == x
    modifies d
    ensures Partly(d[..], before, base, b, i + 1)
  {
    d[base + i] := x;
    assert b[..i + 1] == b[..i] + [x];
  }

  /** Writes a varint that ends at `offset` and returns where it starts. */
  method EncodeVarint(d: array<Byte>, offset: nat, v0: nat) returns (base: nat)
    requires Sov(v0) <= offset <= d.Length
    modifies d
    ensures base == offset - |Varint(v0)| && Written(d[..], old(d[..]), base, offset, Varint(v0))
  {
    SovIsLength(v0);
    base := offset - Sov(v0);
    var i: nat, v := 0, v0;
    ghost var before, b := d[..], Varint(v0);
    PartlyStart(before, base, b);
    hide Varint, Sov, Written, Partly;
    while v >= 128
      invariant i <= |b| && b == b[..i] + Varint(v)
      invariant Partly(d[..], before, base, b, i)
    {
      SplitVarint(b, i, v);
      PutByte(d, before, base, b, i, v % 128 + 128);
      v := v / 128;
      i := i + 1;
    }
    LastByte(b, i, v);
    PutByte(d, before, base, b, i, v);
    PartlyEnd(d[..], before, base, b);
  }

  // ---------- Fields ----------

  /** A varint field; zero is left out. */
  function UintField(key: Byte, v: nat): Bytes {
    if v == 0 then [] else [key] + Varint(v)
  }

  /** A field with a length in front, left out where it is empty unless it is a message. */
  function MessageField(key: Byte, b: Bytes): Bytes {
    [key] + Varint(|b|) + b
  }

  function BytesField(key: Byte, b: Bytes): Bytes {
    if b == [] then [] else MessageField(key, b)
  }

  function UintSize(v: nat): nat {
    if v == 0 then 0 else 1 + Sov(v)
  }

  function MessageSize(len: nat): nat {
    1 + len + Sov(len)
  }

  function BytesSize(len: nat): nat {
    if len == 0 then 0 else MessageSize(len)
  }

  lemma FieldSizes(key: Byte, v: nat, b: Bytes)
    ensures UintSize(v) == |UintField(key, v)|
    ensures MessageSize(|b|) == |MessageField(key, b)|
    ensures BytesSize(|b|) == |BytesField(key, b)|
  {
    SovIsLength(v);
    SovIsLength(|b|);
  }

  lemma WrittenInFront(before: Bytes, mid: Bytes, d: Bytes, from: nat, i: nat, end: nat, a: Bytes, b: Bytes)
    requires Written(mid, before, i, end, b) && Written(d, mid, from, i, a)
    ensures Written(d, before, from, end, a + b)
  {
    assert mid[i..] == b + before[end..];
    assert mid[..from] == before[..from];
    assert mid[..from] + a + (b + before[end..]) == before[..from] + (a + b) + before[end..];
  }

  method PutKey(d: array<Byte>, i: nat, key: Byte) returns (from: nat)
    requires 1 <= i <= d.Length
    modifies d
    ensures from == i - 1 && Written(d[..], old(d[..]), from, i, [key])
  {
    from := i - 1;
    d[from] := key;
  }

  method PutBytes(d: array<Byte>, i: nat, b: Bytes) returns (from: nat)
    requires |b| <= i <= d.Length
    modifies d
    ensures from == i - |b| && Written(d[..], old(d[..]), from, i, b)
  {
    from := i - |b|;
    ghost var before := d[..];
    PartlyStart(before, from, b);
    hide Partly;
    for j := 0 to |b|
      invariant Partly(d[..], before, from, b, j)
    {
      PutByte(d, before, from, b, j, b[j]);
    }
    PartlyEnd(d[..], before, from, b);
  }

  method PutVarint(d: array<Byte>, i: nat, v: nat) returns (from: nat)
    requires |Varint(v)| <= i <= d.Length
    modifies d
    ensures from == i - |Varint(v)| && Written(d[..], old(d[..]), from, i, Varint(v))
  {
    SovIsLength(v);
    from := EncodeVarint(d, i, v);
  }

  /** The key and the length in front of a payload that is already in the buffer. */
  method PutHeader(d: array<Byte>, i: nat, key: Byte, len: nat) returns (from: nat)
    requires 1 + |Varint(len)| <= i <= d.Length
    modifies d
    ensures from == i - 1 - |Varint(len)| && Written(d[..], old(d[..]), from, i, [key] + Varint(len))
  {
    ghost var before := d[..];
    var j := PutVarint(d, i, len);
    ghost var mid := d[..];
    from := PutKey(d, j, key);
    WrittenInFront(before, mid, d[..], from, j, i, [key], Varint(len));
  }

  method PutUintField(d: array<Byte>, i: nat, key: Byte, v: nat) returns (from: nat)
    requires |UintField(key, v)| <= i <= d.Length
    modifies d
    ensures from == i - |UintField(key, v)| && Written(d[..], old(d[..]), from, i, UintField(key, v))
  {
    if v == 0 {
      return i;
    }
    from := PutHeader(d, i, key, v);
  }

  method PutBytesField(d: array<Byte>, i: nat, key: Byte, b: Bytes) returns (from: nat)
    requires |BytesField(key, b)| <= i <= d.Length
    modifies d
    ensures from == i - |BytesField(key, b)| && Written(d[..], old(d[..]), from, i, BytesField(key, b))
  {
    if |b| == 0 {
      return i;
    }
    ghost var before := d[..];
    var j := PutBytes(d, i, b);
    ghost var mid := d[..];
    from := PutHeader(d, j, key, |b|);
    WrittenInFront(before, mid, d[..], from, j, i, [key] + Varint(|b|), b);
  }

  // ---------- Reading keys and lengths ----------

  datatype FieldKey = FieldKey(num: int, wireType: nat)

  /** Truncation to 32 bits with a sign. */
  function Int32(x: nat): int {
    var low := x % 0x1_0000_0000;
    if low >= 0x8000_0000 then low - 0x1_0000_0000 else low
  }

  /** The key of the next field. */
  function ReadKey(d: Bytes, i: nat): (r: Result<(FieldKey, nat)>)
    ensures r.Ok? ==> i < r.value.1 <= |d|
  {
    match ReadVarint(d, i, 0)
    case Ok((wire, next)) =>
      var num := Int32(wire / 8);
      if wire % 8 == 4 || num <= 0 then Failed(IllegalKey) else Ok((FieldKey(num, wire % 8), next))
    case Failed(e) => Failed(e)
  }

  /** The payload of a length-delimited field, as the positions where it starts and stops. */
  function ReadPayload(d: Bytes, i: nat): (r: Result<(nat, nat)>)
    ensures r.Ok? ==> i < r.value.0 <= r.value.1 <= |d|
  {
    match ReadVarint(d, i, 0)
    case Ok((len, start)) =>
      if len >= MAX_INT || start + len >= MAX_INT then Failed(InvalidLength)
      else if start + len > |d| then Failed(UnexpectedEOF)
      else Ok((start, start + len))
    case err => err
  }

  lemma ReadKeyOf(d: Bytes, i: nat, key: Byte)
    requires i < |d| && d[i] == key && 8 <= key < 128 && key % 8 != 4
    ensures ReadKey(d, i) == Ok((FieldKey(key / 8, key % 8), i + 1))
  {
    assert Pow128(0) == 1;
    assert Group(key, 0) == key;
  }

  lemma ReadVarintOf(d: Bytes, i: nat, v: nat)
    requires v < U64 && i + |Varint(v)| <= |d| && d[i..i + |Varint(v)|] == Varint(v)
    ensures ReadVarint(d, i, 0) == Ok((v, i + |Varint(v)|))
  {
    assert Pow128(0) == 1;
    VarintRoundTrip(d, i, 0, v);
  }

  lemma SliceSplit(d: Bytes, i: nat, a: Bytes, b: Bytes)
    requires i + |a| + |b| <= |d| && d[i..i + |a| + |b|] == a + b
    ensures d[i..i + |a|] == a && d[i + |a|..i + |a| + |b|] == b
  {
    var w := d[i..i + |a| + |b|];
    assert d[i..i + |a|] == w[..|a|];
    assert d[i + |a|..i + |a| + |b|] == w[|a|..];
  }

  lemma ReadPayloadOf(d: Bytes, i: nat, b: Bytes)
    requires |d| < MAX_INT && i + |Varint(|b|)| + |b| <= |d|
    requires d[i..i + |Varint(|b|)| + |b|] == Varint(|b|) + b
    ensures var start := i + |Varint(|b|)|;
      ReadPayload(d, i) == Ok((start, start + |b|)) && d[start..start + |b|] == b
  {
    hide Varint, ReadVarint;
    SliceSplit(d, i, Varint(|b|), b);
    ReadVarintOf(d, i, |b|);
  }

  // ---------- Reading fields ----------

  datatype Kind = Uint | Data | Uints

  datatype Value = Number(n: nat) | Payload(b: Bytes) | Numbers(ns: seq<nat>)

  datatype Field = Known(num: int, value: Value) | Unknown

  /** The fields of a message that the reader knows. */
  type Schema = map<int, Kind>

  /** Varints up to position `stop`; the last of them may run past it. */
  function ReadPacked(d: Bytes, i: nat, stop: nat): (r: Result<(seq<nat>, nat)>)
    requires i <= |d| && stop <= |d|
    ensures r.Ok? ==> i <= r.value.1 <= |d|
    decreases |d| - i
  {
    if i >= stop then Ok(([], i))
    else
      match ReadVarint(d, i, 0)
      case Ok((v, next)) => (
        match ReadPacked(d, next, stop)
        case Ok((vs, last)) => Ok(([v] + vs, last))
        case err => err)
      case Failed(e) => Failed(e)
  }

  /** Where the content of a field of the given wire type ends. */
  function SkipContent(d: Bytes, i: nat, wireType: nat): (r: Result<nat>)
    ensures r.Ok? ==> i <= r.value < MAX_INT
  {
    if wireType == 0 then
      match ReadVarint(d, i, 0)
      case Ok((_, next)) => if next >= MAX_INT then Failed(InvalidLength) else Ok(next)
      case Failed(e) => Failed(e)
    else if wireType == 2 then
      match ReadVarint(d, i, 0)
      case Ok((len, next)) => if len >= MAX_INT || next + len >= MAX_INT then Failed(InvalidLength) else Ok(next + len)
      case Failed(e) => Failed(e)
    else if wireType > 5 then Failed(IllegalWireType)
    else
      var next := i + (if wireType == 1 then 8 else if wireType == 5 then 4 else 0);
      if next >= MAX_INT then Failed(InvalidLength) else Ok(next)
  }

  /** The number of groups open after a field of the given wire type. */
  function Depth(depth: nat, wireType: nat): int {
    if wireType == 3 then depth + 1 else if wireType == 4 then depth - 1 else depth
  }

  /** Where the field that starts at i ends, with its groups closed. */
  function SkipField(d: Bytes, i: nat, depth: nat): (r: Result<nat>)
    ensures r.Ok? ==> i < r.value
    decreases |d| - i
  {
    if i >= |d| then Failed(UnexpectedEOF)
    else
      match ReadVarint(d, i, 0)
      case Ok((wire, j)) => (
        if Depth(depth, wire % 8) < 0 then Failed(UnexpectedEndOfGroup)
        else
          match SkipContent(d, j, wire % 8)
          case Ok(next) => if Depth(depth, wire % 8) == 0 then Ok(next) else SkipField(d, next, Depth(depth, wire % 8))
          case Failed(e) => Failed(e))
      case Failed(e) => Failed(e)
  }

  /** The field at i, and where the next one starts. */
  function ReadField(d: Bytes, i: nat, schema: Schema): (r: Result<(Field, nat)>)
    requires i < |d|
    ensures r.Ok? ==> i < r.value.1 <= |d|
  {
    match ReadKey(d, i)
    case Failed(e) => Failed(e)
    case Ok((key, next)) =>
      if key.num !in schema then ReadUnknown(d, i)
      else ReadKnown(d, next, key, schema[key.num])
  }

  function ReadUnknown(d: Bytes, i: nat): (r: Result<(Field, nat)>)
    requires i < |d|
    ensures r.Ok? ==> i < r.value.1 <= |d|
  {
    match SkipField(d[i..], 0, 0)
    case Failed(e) => Failed(e)
    case Ok(n) =>
      if i + n >= MAX_INT then Failed(InvalidLength)
      else if i + n > |d| then Failed(UnexpectedEOF)
      else Ok((Unknown, i + n))
  }

  function ReadKnown(d: Bytes, i: nat, key: FieldKey, kind: Kind): (r: Result<(Field, nat)>)
    requires i <= |d|
    ensures r.Ok? ==> i <= r.value.1 <= |d|
  {
    if key.wireType == 0 && kind != Data then
      match ReadVarint(d, i, 0)
      case Ok((v, next)) => Ok((Known(key.num, if kind == Uint then Number(v) else Numbers([v])), next))
      case Failed(e) => Failed(e)
    else if key.wireType == 2 && kind != Uint then
      match ReadPayload(d, i)
      case Failed(e) => Failed(e)
      case Ok((start, stop)) => (
        if kind == Data then Ok((Known(key.num, Payload(d[start..stop])), stop))
        else
          match ReadPacked(d, start, stop)
          case Ok((vs, next)) => Ok((Known(key.num, Numbers(vs)), next))
          case Failed(e) => Failed(e))
    else Failed(WrongWireType)
  }

  /** A message read from i on: `put` adds the value of each known field to it. */
  function Parse<M>(d: Bytes, i: nat, schema: Schema, put: (M, int, Value) -> Result<M>, m: M): Result<M>
    requires i <= |d|
    decreases |d| - i
  {
    if i == |d| then Ok(m)
    else
      match ReadField(d, i, schema)
      case Failed(e) => Failed(e)
      case Ok((Unknown, next)) => Parse(d, next, schema, put, m)
      case Ok((Known(num, v), next)) =>
        match put(m, num, v)
        case Ok(m') => Parse(d, next, schema, put, m')
        case Failed(e) => Failed(e)
  }

  // ---------- Reading what was written ----------

  lemma ReadUintField(d: Bytes, i: nat, schema: Schema, key: Byte, v: nat, rest: Bytes)
    requires i <= |d| && d[i..] == UintField(key, v) + rest && 0 < v < U64
    requires 8 <= key < 128 && key % 8 == 0 && key / 8 in schema && schema[key / 8] == Uint
    ensures d[i..] != [] && ReadField(d, i, schema) == Ok((Known(key / 8, Number(v)), |d| - |rest|))
  {
    hide Varint, ReadVarint, ReadKey;
    var w := d[i..];
    assert w == [key] + Varint(v) + rest;
    assert d[i] == w[0] == key;
    ReadKeyOf(d, i, key);
    assert d[i + 1..i + 1 + |Varint(v)|] == w[1..1 + |Varint(v)|] == Varint(v);
    ReadVarintOf(d, i + 1, v);
  }

  lemma ReadMessageField(d: Bytes, i: nat, schema: Schema, key: Byte, b: Bytes, rest: Bytes)
    requires i <= |d| < MAX_INT && d[i..] == MessageField(key, b) + rest
    requires 8 <= key < 128 && key % 8 == 2 && key / 8 in schema && schema[key / 8] == Data
    ensures d[i..] != [] && ReadField(d, i, schema) == Ok((Known(key / 8, Payload(b)), |d| - |rest|))
  {
    hide Varint, ReadVarint, ReadKey, ReadPayload;
    var w, n := d[i..], |Varint(|b|)|;
    assert w == [key] + Varint(|b|) + b + rest;
    assert d[i] == w[0] == key;
    ReadKeyOf(d, i, key);
    assert d[i + 1..i + 1 + n + |b|] == w[1..1 + n + |b|] == Varint(|b|) + b;
    ReadPayloadOf(d, i + 1, b);
  }

  lemma SuffixOf(d: Bytes, i: nat, a: Bytes, rest: Bytes)
    requires i <= |d| && d[i..] == a + rest
    ensures |d| - |rest| == i + |a| && d[|d| - |rest|..] == rest
  {
    assert |d[i..]| == |a| + |rest|;
    assert d[i + |a|..] == d[i..][|a|..];
  }

  lemma ParseKnown<M>(d: Bytes, i: nat, schema: Schema, put: (M, int, Value) -> Result<M>, m: M, num: int, v: Value, j: nat, m': M)
    requires i < |d| && ReadField(d, i, schema) == Ok((Known(num, v), j)) && put(m, num, v) == Ok(m')
    ensures j <= |d| && Parse(d, i, schema, put, m) == Parse(d, j, schema, put, m')
  {
    hide ReadField;
  }

  /** One step of the reader over a varint field. */
  lemma ParseUint<M>(d: Bytes, i: nat, schema: Schema, put: (M, int, Value) -> Result<M>, m: M, key: Byte, v: nat, rest: Bytes, m': M)
    requires i <= |d| && d[i..] == UintField(key, v) + rest && v < U64
    requires 8 <= key < 128 && key % 8 == 0 && key / 8 in schema && schema[key / 8] == Uint
    requires if v == 0 then m' == m else put(m, key / 8, Number(v)) == Ok(m')
    ensures var j := |d| - |rest|; j >= i && d[j..] == rest && Parse(d, i, schema, put, m) == Parse(d, j, schema, put, m')
  {
    hide Parse, ReadField, Varint;
    SuffixOf(d, i, UintField(key, v), rest);
    if v == 0 {
      assert |UintField(key, v)| == 0;
    } else {
      ReadUintField(d, i, schema, key, v, rest);
      ParseKnown(d, i, schema, put, m, key / 8, Number(v), |d| - |rest|, m');
    }
  }

  /** One step of the reader over a field with a length. */
  lemma ParseMessage<M>(d: Bytes, i: nat, schema: Schema, put: (M, int, Value) -> Result<M>, m: M, key: Byte, b: Bytes, rest: Bytes, m': M)
    requires i <= |d| < MAX_INT && d[i..] == MessageField(key, b) + rest
    requires 8 <= key < 128 && key % 8 == 2 && key / 8 in schema && schema[key / 8] == Data
    requires put(m, key / 8, Payload(b)) == Ok(m')
    ensures var j := |d| - |rest|; j >= i && d[j..] == rest && Parse(d, i, schema, put, m) == Parse(d, j, schema, put, m')
  {
    hide ReadField, MessageField;
    var j := |d| - |rest|;
    SuffixOf(d, i, MessageField(key, b), rest);
    ReadMessageField(d, i, schema, key, b, rest);
    ParseKnown(d, i, schema, put, m, key / 8, Payload(b), j, m');
  }

  lemma ParseBytes<M>(d: Bytes, i: nat, schema: Schema, put: (M, int, Value) -> Result<M>, m: M, key: Byte, b: Bytes, rest: Bytes, m': M)
    requires i <= |d| < MAX_INT && d[i..] == BytesField(key, b) + rest
    requires 8 <= key < 128 && key % 8 == 2 && key / 8 in schema && schema[key / 8] == Data
    requires if b == [] then m' == m else put(m, key / 8, Payload(b)) == Ok(m')
    ensures var j := |d| - |rest|; j >= i && d[j..] == rest && Parse(d, i, schema, put, m) == Parse(d, j, schema, put, m')
  {
    if b == [] {
      assert d[i..] == rest;
    } else {
      ParseMessage(d, i, schema, put, m, key, b, rest, m');
    }
  }

  function Packed(ns: seq<nat>): Bytes {
    if ns == [] then [] else Varint(ns[0]) + Packed(ns[1..])
  }

  lemma {:induction false} ReadPackedOf(d: Bytes, i: nat, ns: seq<nat>)
    requires forall k :: 0 <= k < |ns| ==> ns[k] < U64
    requires i + |Packed(ns)| <= |d| && d[i..i + |Packed(ns)|] == Packed(ns)
    ensures ReadPacked(d, i, i + |Packed(ns)|) == Ok((ns, i + |Packed(ns)|))
    decreases |ns|
  {
    hide Varint, ReadVarint;
    if ns != [] {
      var v := Varint(ns[0]);
      SliceSplit(d, i, v, Packed(ns[1..]));
      ReadVarintOf(d, i, ns[0]);
      ReadPackedOf(d, i + |v|, ns[1..]);
      assert ns == [ns[0]] + ns[1..];
    }
  }

  /** An unknown field is skipped as a whole: its key and a varint, 8 bytes, a length with as many bytes, or 4 bytes. */
  lemma SkipsWhole(key: Byte, v: nat, b: Bytes, rest: Bytes)
    requires 8 <= key < 128 && v < U64 && |b| + 11 < MAX_INT
    ensures key % 8 == 0 ==> SkipField([key] + (Varint(v) + rest), 0, 0) == Ok(1 + |Varint(v)|)
    ensures key % 8 == 1 ==> SkipField([key] + rest, 0, 0) == Ok(9)
    ensures key % 8 == 2 ==> SkipField([key] + (Varint(|b|) + b), 0, 0) == Ok(1 + |Varint(|b|)| + |b|)
    ensures key % 8 == 5 ==> SkipField([key] + rest, 0, 0) == Ok(5)
  {
    assert Pow128(0) == 1;
    VarintLength(v, 0);
    VarintLength(|b|, 0);
    KeyIsRead([key] + (Varint(v) + rest), key);
    KeyIsRead([key] + rest, key);
    KeyIsRead([key] + (Varint(|b|) + b), key);
    var d1, d2 := [key] + (Varint(v) + rest), [key] + (Varint(|b|) + b);
    assert d1[1..1 + |Varint(v)|] == Varint(v) && d2[1..1 + |Varint(|b|)|] == Varint(|b|);
    ReadVarintOf(d1, 1, v);
    ReadVarintOf(d2, 1, |b|);
    hide ReadVarint, Varint;
  }

  lemma KeyIsRead(d: Bytes, key: Byte)
    requires d != [] && d[0] == key && key < 128
    ensures ReadVarint(d, 0, 0) == Ok((key, 1))
  {
    assert Pow128(0) == 1;
    assert Group(key, 0) == key;
  }

  // ---------- The reader's loops ----------

  method DecodePacked(d: Bytes, start: nat, stop: nat) returns (r: Result<(seq<nat>, nat)>)
    requires start <= |d| && stop <= |d|
    ensures r == ReadPacked(d, start, stop)
  {
    var vs: seq<nat>, i := [], start;
    assert forall ws: seq<nat> :: [] + ws == ws;
    while i < stop
      invariant i <= |d|
      invariant ReadPacked(d, start, stop) == (match ReadPacked(d, i, stop) case Ok((ws, n)) => Ok((vs + ws, n)) case err => err)
      decreases |d| - i
    {
      var v := DecodeVarint(d, i);
      if v.Failed? {
        return Failed(v.error);
      }
      assert forall ws: seq<nat> :: vs + ([v.value.0] + ws) == vs + [v.value.0] + ws;
      vs := vs + [v.value.0];
      i := v.value.1;
    }
    assert vs + [] == vs;
    return Ok((vs, i));
  }

  method DecodeContent(d: Bytes, start: nat, wireType: nat) returns (r: Result<nat>)
    ensures r == SkipContent(d, start, wireType)
  {
    var i := start;
    match wireType {
      case 0 =>
        var v := DecodeVarint(d, i);
        if v.Failed? {
          return Failed(v.error);
        }
        i := v.value.1;
      case 1 =>
        i := i + 8;
      case 2 =>
        var len := DecodeVarint(d, i);
        if len.Failed? {
          return Failed(len.error);
        }
        if len.value.0 >= MAX_INT {
          return Failed(InvalidLength);
        }
        i := len.value.1 + len.value.0;
      case 3 =>
      case 4 =>
      case 5 =>
        i := i + 4;
      case _ =>
        return Failed(IllegalWireType);
    }
    if i >= MAX_INT {
      return Failed(InvalidLength);
    }
    return Ok(i);
  }

  method Skip(d: Bytes) returns (r: Result<nat>)
    ensures r == SkipField(d, 0, 0)
  {
    hide ReadVarint, SkipContent;
    var i: nat, depth: nat := 0, 0;
    while i < |d|
      invariant SkipField(d, 0, 0) == SkipField(d, i, depth)
      decreases |d| - i
    {
      var wire := DecodeVarint(d, i);
      if wire.Failed? {
        return Failed(wire.error);
      }
      var wireType := wire.value.0 % 8;
      if wireType == 3 {
        depth := depth + 1;
      } else if wireType == 4 {
        if depth == 0 {
          return Failed(UnexpectedEndOfGroup);
        }
        depth := depth - 1;
      }
      var next := DecodeContent(d, wire.value.1, wireType);
      if next.Failed? {
        return Failed(next.error);
      }
      i := next.value;
      if depth == 0 {
        return Ok(i);
      }
    }
    return Failed(UnexpectedEOF);
  }

  /** What every message's reader does with the next field. */
  method DecodeField(d: Bytes, i: nat, schema: Schema) returns (r: Result<(Field, nat)>)
    requires i < |d|
    ensures r == ReadField(d, i, schema)
  {
    var wire := DecodeVarint(d, i);
    if wire.Failed? {
      return Failed(wire.error);
    }
    var j, wireType, num := wire.value.1, wire.value.0 % 8, Int32(wire.value.0 / 8);
    if wireType == 4 || num <= 0 {
      return Failed(IllegalKey);
    }
    if num !in schema {
      var n := Skip(d[i..]);
      if n.Failed? {
        return Failed(n.error);
      }
      if i + n.value >= MAX_INT {
        return Failed(InvalidLength);
      }
      if i + n.value > |d| {
        return Failed(UnexpectedEOF);
      }
      return Ok((Unknown, i + n.value));
    }
    var kind := schema[num];
    if wireType == 0 && kind != Data {
      var v := DecodeVarint(d, j);
      if v.Failed? {
        return Failed(v.error);
      }
      return Ok((Known(num, if kind == Uint then Number(v.value.0) else Numbers([v.value.0])), v.value.1));
    }
    if wireType == 2 && kind != Uint {
      var len := DecodeVarint(d, j);
      if len.Failed? {
        return Failed(len.error);
      }
      var start, stop := len.value.1, len.value.1 + len.value.0;
      if len.value.0 >= MAX_INT || stop >= MAX_INT {
        return Failed(InvalidLength);
      }
      if stop > |d| {
        return Failed(UnexpectedEOF);
      }
      if kind == Data {
        return Ok((Known(num, Payload(d[start..stop])), stop));
      }
      var ns := DecodePacked(d, start, stop);
      if ns.Failed? {
        return Failed(ns.error);
      }
      return Ok((Known(num, Numbers(ns.value.0)), ns.value.1));
    }
    return Failed(WrongWireType);
  }
}
