/** Column values, their order, and the key encoding whose byte order is that order. */
module Memcomparable {
  import opened Bytes
  import opened Options
  import opened KeyOrder

  // ---- Values ----

  const TWO_31 := 0x8000_0000
  const TWO_32 := 0x1_0000_0000
  const TWO_52 := 0x10_0000_0000_0000
  const TWO_63 := 0x8000_0000_0000_0000
  const TWO_64 := 0x1_0000_0000_0000_0000

  type I32 = n: int | -0x8000_0000 <= n < 0x8000_0000
  type I64 = n: int | -0x8000_0000_0000_0000 <= n < 0x8000_0000_0000_0000

  /** A varchar is its UTF-8 bytes; a double is its 64 bits. */
  datatype Value =
    | Null
    | Boolean(b: bool)
    | Integer(i: I32)
    | BigInt(n: I64)
    | Double(bits: U64)
    | Varchar(text: seq<byte>)

  datatype DataType = BooleanType | IntegerType | BigIntType | DoubleType | VarcharType(limit: nat)

  datatype Ordering = Below | Equal | Above

  /** Is the value one a column of this type may hold? */
  predicate OfType(v: Value, ty: DataType)
  {
    match v
    case Null => true
    case Boolean(_) => ty.BooleanType?
    case Integer(_) => ty.IntegerType?
    case BigInt(_) => ty.BigIntType?
    case Double(_) => ty.DoubleType?
    case Varchar(text) => ty.VarcharType? && Utf8(text)
  }

  // ---- Doubles, section 3.4 of IEEE 754-2008 ----

  /** The exponent and fraction fields, without the sign bit. */
  function Magnitude(bits: U64): (m: nat)
    ensures m < TWO_63
  {
    if bits >= TWO_63 then bits - TWO_63 else bits
  }

  function ExponentField(m: nat): nat
  {
    m / TWO_52
  }

  function FractionField(m: nat): nat
  {
    m % TWO_52
  }

  predicate IsNan(bits: U64)
  {
    ExponentField(Magnitude(bits)) == 2047 && FractionField(Magnitude(bits)) != 0
  }

  function Pow2(e: nat): (r: nat)
    ensures r > 0
  {
    if e == 0 then 1 else 2 * Pow2(e - 1)
  }

  /** The absolute value of the number in units of 2^-1074, the smallest positive one: subnormal
      numbers have no hidden bit. Infinity is read as the next power of two after the largest number. */
  function Size(m: nat): nat
  {
    var e, f := ExponentField(m), FractionField(m);
    if e == 0 then f else (TWO_52 + f) * Pow2(e - 1)
  }

  /** The number itself, in the same units. Both zeros are 0. */
  function Number(bits: U64): int
  {
    if bits >= TWO_63 then 0 - Size(Magnitude(bits)) else Size(Magnitude(bits))
  }

  // ---- `Value::compare` ----

  function OrderOf(a: int, b: int): Ordering
  {
    if a < b then Below else if a == b then Equal else Above
  }

  /** `str::cmp` is byte order. */
  function OrderOfText(a: seq<byte>, b: seq<byte>): Ordering
  {
    if a == b then Equal else if Less(a, b) then Below else Above
  }

  function Compare(a: Value, b: Value): Result<Option<Ordering>>
  {
    if a.Null? || b.Null? then Ok(None) else
      match (a, b)
      case (Boolean(x), Boolean(y)) => Ok(Some(OrderOf(if x then 1 else 0, if y then 1 else 0)))
      case (Integer(x), Integer(y)) => Ok(Some(OrderOf(x, y)))
      case (BigInt(x), BigInt(y)) => Ok(Some(OrderOf(x, y)))
      case (Double(x), Double(y)) => Ok(if IsNan(x) || IsNan(y) then None else Some(OrderOf(Number(x), Number(y))))
      case (Varchar(x), Varchar(y)) => Ok(Some(OrderOfText(x, y)))
      case _ => Err
  }

  // ---- UTF-8, table 3-7 of the Unicode Standard ----

  predicate In(b: byte, lo: int, hi: int)
  {
    lo <= b <= hi
  }

  /** The length of the well-formed character `s` starts with, or 0. */
  function CharLen(s: seq<byte>): (n: nat)
    ensures n <= |s|
  {
    if |s| >= 1 && s[0] < 0x80 then 1
    else if |s| >= 2 && In(s[0], 0xC2, 0xDF) && In(s[1], 0x80, 0xBF) then 2
    else if |s| >= 3 && In(s[2], 0x80, 0xBF) && (|| (s[0] == 0xE0 && In(s[1], 0xA0, 0xBF))
                                                 || (In(s[0], 0xE1, 0xEC) && In(s[1], 0x80, 0xBF))
                                                 || (s[0] == 0xED && In(s[1], 0x80, 0x9F))
                                                 || (In(s[0], 0xEE, 0xEF) && In(s[1], 0x80, 0xBF))) then 3
    else if |s| >= 4 && In(s[2], 0x80, 0xBF) && In(s[3], 0x80, 0xBF) && (|| (s[0] == 0xF0 && In(s[1], 0x90, 0xBF))
                                                                         || (In(s[0], 0xF1, 0xF3) && In(s[1], 0x80, 0xBF))
                                                                         || (s[0] == 0xF4 && In(s[1], 0x80, 0x8F))) then 4
    else 0
  }

  predicate Utf8(s: seq<byte>)
    decreases |s|
  {
    s == [] || (CharLen(s) > 0 && Utf8(s[CharLen(s)..]))
  }

  /** No UTF-8 text contains the byte 0xFF. */
  lemma {:induction false} Utf8HasNoFF(s: seq<byte>, i: nat)
    requires Utf8(s) && i < |s|
    ensures s[i] < 0xFF
    decreases |s|
  {
    var n := CharLen(s);
    if n <= i { Utf8HasNoFF(s[n..], i - n); }
  }

  // ---- Encoding ----

  const NULL_TAG: byte := 0x00
  const VALUE_TAG: byte := 0x01

  /** `to_be_bytes`. */
  function BeBytes(v: nat, width: nat): (s: seq<byte>)
    requires v < Pow256(width)
    ensures |s| == width
  {
    if width == 0 then [] else
      var p := Pow256(width - 1);
      DivBound(v, p);
      [v / p] + BeBytes(v % p, width - 1)
  }

  lemma DivBound(v: nat, p: nat)
    requires p > 0 && v < 256 * p
    ensures 0 <= v / p < 256 && 0 <= v % p < p && v == p * (v / p) + v % p
  {
  }

  /** `from_be_bytes`. */
  function FromBe(s: seq<byte>): (n: nat)
    ensures n < Pow256(|s|)
  {
    if s == [] then 0 else
      var p := Pow256(|s| - 1);
      DigitBound(s[0], p);
      s[0] * p + FromBe(s[1..])
  }

  lemma DigitBound(d: byte, p: nat)
    ensures 0 <= d * p <= 255 * p
  {
  }

  /** `v as u32`, `v as u64`. */
  function ToUnsigned(v: int, modulus: nat): (u: nat)
    requires 0 - modulus <= v < modulus
    ensures u < modulus
  {
    if v < 0 then v + modulus else v
  }

  /** `^ SIGN_BIT`. */
  function FlipSign(u: nat, sign: nat): (r: nat)
    requires u < 2 * sign
    ensures r < 2 * sign
  {
    if u >= sign then u - sign else u + sign
  }

  /** `order_preserving_bits`: negative numbers are complemented, the others get the sign bit. */
  function OrderBits(bits: U64): U64
  {
    var b := if Magnitude(bits) == 0 then 0 else bits;
    if b >= TWO_63 then TWO_64 - 1 - b else b + TWO_63
  }

  predicate Encodable(v: Value)
  {
    v.Double? ==> !IsNan(v.bits)
  }

  function Encode(v: Value): (s: seq<byte>)
    requires Encodable(v)
  {
    Widths();
    match v
    case Null => [NULL_TAG]
    case Boolean(b) => [VALUE_TAG, if b then 1 else 0]
    case Integer(i) => [VALUE_TAG] + BeBytes(FlipSign(ToUnsigned(i, TWO_32), TWO_31), 4)
    case BigInt(n) => [VALUE_TAG] + BeBytes(FlipSign(ToUnsigned(n, TWO_64), TWO_63), 8)
    case Double(bits) => [VALUE_TAG] + BeBytes(OrderBits(bits), 8)
    case Varchar(text) => [VALUE_TAG] + text
  }

  /** `encode_memcomparable`: a NaN is refused before anything is appended. */
  method EncodeInto(v: Value, buffer: seq<byte>) returns (ok: bool, out: seq<byte>)
    ensures ok == Encodable(v)
    ensures out == if ok then buffer + Encode(v) else buffer
  {
    Widths();
    if v.Double? && IsNan(v.bits) { return false, buffer; }
    if v.Null? { return true, buffer + [NULL_TAG]; }
    out := buffer + [VALUE_TAG];
    var body;
    match v {
      case Null => body := [];
      case Boolean(b) => body := [if b then 1 else 0];
      case Integer(i) => body := BeBytes(FlipSign(ToUnsigned(i, TWO_32), TWO_31), 4);
      case BigInt(n) => body := BeBytes(FlipSign(ToUnsigned(n, TWO_64), TWO_63), 8);
      case Double(bits) => body := BeBytes(OrderBits(bits), 8);
      case Varchar(text) => body := text;
    }
    assert Encode(v) == [VALUE_TAG] + body;
    assert out + body == buffer + ([VALUE_TAG] + body);
    return true, out + body;
  }

  // ---- Decoding ----

  function Decode(s: seq<byte>, ty: DataType): Result<(Value, nat)>
  {
    Widths();
    if s == [] then Err
    else if s[0] == NULL_TAG then Ok((Null, 1))
    else if s[0] != VALUE_TAG then Err
    else
      var rest := s[1..];
      match ty
      case BooleanType => if rest == [] then Err else Ok((Boolean(rest[0] != 0), 2))
      case IntegerType =>
        if |rest| < 4 then Err else Ok((Integer(FromUnsigned(FlipSign(FromBe(rest[..4]), TWO_31), TWO_31)), 5))
      case BigIntType =>
        if |rest| < 8 then Err else Ok((BigInt(FromUnsigned(FlipSign(FromBe(rest[..8]), TWO_63), TWO_63)), 9))
      case DoubleType =>
        if |rest| < 8 then Err else
          var bits := FromBe(rest[..8]);
          Ok((Double(if bits >= TWO_63 then bits - TWO_63 else TWO_64 - 1 - bits), 9))
      case VarcharType(_) => if Utf8(rest) then Ok((Varchar(rest), 1 + |rest|)) else Err
  }

  /** `bits as i32`, `bits as i64`. */
  function FromUnsigned(u: nat, sign: nat): (v: int)
    requires u < 2 * sign
    ensures 0 - sign <= v < sign
  {
    if u >= sign then u - 2 * sign else u
  }

  /** What decoding gives back: minus zero comes back as zero. */
  function Canonical(v: Value): Value
  {
    if v.Double? && Magnitude(v.bits) == 0 then Double(0) else v
  }

  lemma {:induction false} BeRoundTrip(v: nat, width: nat)
    requires v < Pow256(width)
    ensures FromBe(BeBytes(v, width)) == v
  {
    if width > 0 {
      var p := Pow256(width - 1);
      DivBound(v, p);
      BeRoundTrip(v % p, width - 1);
      assert BeBytes(v, width)[1..] == BeBytes(v % p, width - 1);
      assert v / p * p == p * (v / p);
    }
  }

  predicate FixedWidth(ty: DataType)
  {
    !ty.VarcharType?
  }

  /** Decoding gives back the value and the encoded length; a varchar takes the rest of the buffer. */
  lemma {:induction false} DecodesBack(v: Value, ty: DataType, rest: seq<byte>)
    requires OfType(v, ty) && Encodable(v) && (v.Varchar? ==> rest == [])
    ensures Decode(Encode(v) + rest, ty) == Ok((Canonical(v), |Encode(v)|))
  {
    Widths();
    var s := Encode(v) + rest;
    assert s[0] == Encode(v)[0];
    match v {
      case Integer(i) =>
        BeRoundTrip(FlipSign(ToUnsigned(i, TWO_32), TWO_31), 4);
        assert s[1..][..4] == Encode(v)[1..];
      case BigInt(n) =>
        BeRoundTrip(FlipSign(ToUnsigned(n, TWO_64), TWO_63), 8);
        assert s[1..][..8] == Encode(v)[1..];
      case Double(bits) =>
        BeRoundTrip(OrderBits(bits), 8);
        assert s[1..][..8] == Encode(v)[1..];
      case Varchar(text) => assert s[1..] == text;
      case _ =>
    }
  }

  // ---- Order ----

  lemma {:induction false} BeOrder(a: nat, b: nat, width: nat)
    requires a < Pow256(width) && b < Pow256(width)
    ensures Less(BeBytes(a, width), BeBytes(b, width)) <==> a < b
  {
    if width > 0 {
      var p := Pow256(width - 1);
      DivBound(a, p);
      DivBound(b, p);
      BeOrder(a % p, b % p, width - 1);
      assert BeBytes(a, width)[1..] == BeBytes(a % p, width - 1) && BeBytes(b, width)[1..] == BeBytes(b % p, width - 1);
      if a / p < b / p { Bigger(p, a / p, b / p); }
      if b / p < a / p { Bigger(p, b / p, a / p); }
    }
  }

  lemma Bigger(p: nat, x: nat, y: nat)
    requires x < y
    ensures p * x + p <= p * y
  {
    assert p * (x + 1) <= p * y;
  }

  lemma {:induction false} BeInjective(a: nat, b: nat, width: nat)
    requires a < Pow256(width) && b < Pow256(width) && BeBytes(a, width) == BeBytes(b, width)
    ensures a == b
  {
    BeRoundTrip(a, width);
    BeRoundTrip(b, width);
  }

  lemma {:induction false} Pow2Grows(i: nat, j: nat)
    requires i <= j
    ensures Pow2(i) <= Pow2(j)
  {
    if i < j { Pow2Grows(i, j - 1); }
  }

  /** A larger bit pattern is a larger number. */
  lemma {:induction false} SizeGrows(a: nat, b: nat)
    requires a < b
    ensures Size(a) < Size(b)
  {
    var ea, eb, fa, fb := ExponentField(a), ExponentField(b), FractionField(a), FractionField(b);
    assert a == TWO_52 * ea + fa && b == TWO_52 * eb + fb;
    if ea == eb {
      if ea > 0 { Product(fa, fb, Pow2(ea - 1)); }
    } else {
      assert ea < eb;
      Pow2Grows(ea, eb - 1);
      AtLeast(TWO_52, TWO_52 + fb, Pow2(ea), Pow2(eb - 1));
      if ea > 0 { Doubled(fa, Pow2(ea - 1)); }
    }
  }

  lemma Product(fa: nat, fb: nat, p: nat)
    requires fa < fb && p > 0
    ensures (TWO_52 + fa) * p < (TWO_52 + fb) * p
  {
  }

  lemma AtLeast(x: nat, y: nat, p: nat, q: nat)
    requires x <= y && p <= q
    ensures x * p <= y * q
  {
    assert x * p <= y * p <= y * q;
  }

  lemma Doubled(f: nat, p: nat)
    requires f < TWO_52 && p > 0
    ensures (TWO_52 + f) * p < TWO_52 * (2 * p)
  {
    assert (TWO_52 + f) * p < (TWO_52 + TWO_52) * p;
  }

  /** The stored bit pattern of a double has the order of its number. */
  lemma {:induction false} OrderBitsKeepOrder(a: U64, b: U64)
    ensures OrderBits(a) < OrderBits(b) <==> Number(a) < Number(b)
    ensures OrderBits(a) == OrderBits(b) <==> Number(a) == Number(b)
  {
    var ma, mb := Magnitude(a), Magnitude(b);
    if ma < mb { SizeGrows(ma, mb); }
    if mb < ma { SizeGrows(mb, ma); }
    if 0 < ma { SizeGrows(0, ma); }
    if 0 < mb { SizeGrows(0, mb); }
    assert Size(0) == 0;
  }

  /** The order of stored values: NULL first. */
  predicate ValueLess(a: Value, b: Value)
  {
    if a.Null? || b.Null? then a.Null? && !b.Null? else Compare(a, b) == Ok(Some(Below))
  }

  predicate ValueSame(a: Value, b: Value)
  {
    if a.Null? || b.Null? then a.Null? && b.Null? else Compare(a, b) == Ok(Some(Equal))
  }

  /** Byte order is value order. */
  lemma {:induction false} EncodingKeepsOrder(a: Value, b: Value, ty: DataType)
    requires OfType(a, ty) && OfType(b, ty) && Encodable(a) && Encodable(b)
    ensures Less(Encode(a), Encode(b)) <==> ValueLess(a, b)
    ensures Encode(a) == Encode(b) <==> ValueSame(a, b)
  {
    if !a.Null? && !b.Null? { ComparableOrder(a, b); }
  }

  lemma {:induction false} ComparableOrder(a: Value, b: Value)
    requires !a.Null? && !b.Null? && Encodable(a) && Encodable(b) && Compare(a, b).Ok?
    ensures Less(Encode(a), Encode(b)) <==> Compare(a, b) == Ok(Some(Below))
    ensures Encode(a) == Encode(b) <==> Compare(a, b) == Ok(Some(Equal))
  {
    assert Encode(a)[0] == Encode(b)[0] == VALUE_TAG;
    TaggedOrder(Encode(a), Encode(b));
    match a {
      case Boolean(_) =>
        assert Encode(a)[1..] == [if a.b then 1 else 0] && Encode(b)[1..] == [if b.b then 1 else 0];
      case Integer(_) => IntegerOrder(a, b);
      case BigInt(_) => BigIntOrder(a, b);
      case Double(_) => DoubleOrder(a, b);
      case Varchar(_) =>
        assert Encode(a)[1..] == a.text && Encode(b)[1..] == b.text;
        LessIsRank(a.text, b.text);
    }
  }

  lemma {:induction false} TaggedOrder(a: seq<byte>, b: seq<byte>)
    requires a != [] && b != [] && a[0] == b[0]
    ensures Less(a, b) <==> Less(a[1..], b[1..])
    ensures a == b <==> a[1..] == b[1..]
  {
    assert a == [a[0]] + a[1..] && b == [b[0]] + b[1..];
  }

  lemma {:induction false} IntegerOrder(a: Value, b: Value)
    requires a.Integer? && b.Integer?
    ensures Less(Encode(a)[1..], Encode(b)[1..]) <==> a.i < b.i
    ensures Encode(a)[1..] == Encode(b)[1..] <==> a.i == b.i
  {
    Widths();
    var x, y := FlipSign(ToUnsigned(a.i, TWO_32), TWO_31), FlipSign(ToUnsigned(b.i, TWO_32), TWO_31);
    assert Encode(a)[1..] == BeBytes(x, 4) && Encode(b)[1..] == BeBytes(y, 4);
    BeOrder(x, y, 4);
    if BeBytes(x, 4) == BeBytes(y, 4) { BeInjective(x, y, 4); }
  }

  lemma {:induction false} BigIntOrder(a: Value, b: Value)
    requires a.BigInt? && b.BigInt?
    ensures Less(Encode(a)[1..], Encode(b)[1..]) <==> a.n < b.n
    ensures Encode(a)[1..] == Encode(b)[1..] <==> a.n == b.n
  {
    Widths();
    var x, y := FlipSign(ToUnsigned(a.n, TWO_64), TWO_63), FlipSign(ToUnsigned(b.n, TWO_64), TWO_63);
    assert Encode(a)[1..] == BeBytes(x, 8) && Encode(b)[1..] == BeBytes(y, 8);
    BeOrder(x, y, 8);
    if BeBytes(x, 8) == BeBytes(y, 8) { BeInjective(x, y, 8); }
  }

  lemma {:induction false} DoubleOrder(a: Value, b: Value)
    requires a.Double? && b.Double? && Encodable(a) && Encodable(b)
    ensures Less(Encode(a)[1..], Encode(b)[1..]) <==> Number(a.bits) < Number(b.bits)
    ensures Encode(a)[1..] == Encode(b)[1..] <==> Number(a.bits) == Number(b.bits)
  {
    Widths();
    var x, y := OrderBits(a.bits), OrderBits(b.bits);
    assert Encode(a)[1..] == BeBytes(x, 8) && Encode(b)[1..] == BeBytes(y, 8);
    OrderBitsKeepOrder(a.bits, b.bits);
    BeOrder(x, y, 8);
    if BeBytes(x, 8) == BeBytes(y, 8) { BeInjective(x, y, 8); }
  }

  // ---- Prefix-freedom ----

  /** No encoding of a fixed-width type is a proper prefix of another. */
  lemma {:induction false} FixedWidthIsPrefixFree(a: Value, b: Value, ty: DataType)
    requires FixedWidth(ty) && OfType(a, ty) && OfType(b, ty) && Encodable(a) && Encodable(b)
    ensures Encode(a) == Encode(b) || Apart(Encode(a), Encode(b))
  {
    if a.Null? != b.Null? { assert Encode(a)[0] != Encode(b)[0]; }
  }

  /** Varchar encodings are not: exactly when one text extends the other, one key extends the other. */
  lemma {:induction false} VarcharPrefixes(a: Value, b: Value)
    requires a.Varchar? && b.Varchar?
    ensures Encode(a) == Encode(b) || Apart(Encode(a), Encode(b)) <==> a.text == b.text || Apart(a.text, b.text)
  {
    var x, y := Encode(a), Encode(b);
    assert x[1..] == a.text && y[1..] == b.text;
    if a.text <= b.text { assert x <= y; }
    if b.text <= a.text { assert y <= x; }
    if x <= y { assert a.text <= b.text; }
    if y <= x { assert b.text <= a.text; }
  }
}
