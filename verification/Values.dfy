/**
 Scalar values and the fields of a payload that carry them. Floating-point numbers are bit patterns;
 integers narrower than their field are sign- or zero-extended into it.
 */
module Values {
  import opened Bounded
  import opened Options

  datatype DataType =
    | Int8 | Int16 | Int32 | Int64 | UInt8 | UInt16 | UInt32 | UInt64
    | Float | Double | Boolean | String | DateTime | Text | Uuid
  {
    /** The number that stands for the type in a payload. */
    function Code(): nat {
      match this
      case Int8 => 1
      case Int16 => 2
      case Int32 => 3
      case Int64 => 4
      case UInt8 => 5
      case UInt16 => 6
      case UInt32 => 7
      case UInt64 => 8
      case Float => 9
      case Double => 10
      case Boolean => 11
      case String => 12
      case DateTime => 13
      case Text => 14
      case Uuid => 15
    }

    predicate IsInteger() {
      Code() <= 8 || DateTime?
    }

    predicate IsSigned() {
      Code() <= 4
    }

    /** The number of values of an integer type. */
    function Range(): (n: int)
      requires IsInteger()
      ensures n > 1 && n % 2 == 0
    {
      match this
      case Int8 => 0x100
      case UInt8 => 0x100
      case Int16 => 0x1_0000
      case UInt16 => 0x1_0000
      case Int32 => TWO_TO_THE_32
      case UInt32 => TWO_TO_THE_32
      case _ => TWO_TO_THE_64
    }

    /** Whether the type travels in `long_value` rather than `int_value`. */
    predicate IsLong() {
      Int64? || UInt64? || DateTime?
    }

    predicate IsText() {
      String? || Text? || Uuid?
    }
  }

  datatype Scalar =
    | Integer(i: int)
    | FloatBits(single: U32)
    | DoubleBits(double: U64)
    | Truth(b: bool)
    | Characters(s: string)

  datatype Wire =
    | IntValue(int32: U32)
    | LongValue(int64: U64)
    | FloatValue(f: U32)
    | DoubleValue(d: U64)
    | BooleanValue(b: bool)
    | StringValue(s: string)
    | OtherValue                     // bytes, datasets and extensions

  predicate Has(ty: DataType, s: Scalar) {
    match s
    case Integer(i) =>
      ty.IsInteger() && if ty.IsSigned() then -ty.Range() / 2 <= i < ty.Range() / 2 else 0 <= i < ty.Range()
    case FloatBits(_) => ty.Float?
    case DoubleBits(_) => ty.Double?
    case Truth(_) => ty.Boolean?
    case Characters(_) => ty.IsText()
  }

  /** Read the low bits of a field as a number of the given type: an `as` cast to it. */
  function Narrowed(ty: DataType, field: nat): int
    requires ty.IsInteger()
  {
    var low := field % ty.Range();
    if ty.IsSigned() && low >= ty.Range() / 2 then low - ty.Range() else low
  }

  function Encode(ty: DataType, s: Scalar): Wire
    requires Has(ty, s)
  {
    match s
    case Integer(i) => if ty.IsLong() then LongValue(i % TWO_TO_THE_64) else IntValue(i % TWO_TO_THE_32)
    case FloatBits(x) => FloatValue(x)
    case DoubleBits(x) => DoubleValue(x)
    case Truth(b) => BooleanValue(b)
    case Characters(cs) => StringValue(cs)
  }

  function Decode(ty: DataType, w: Wire): Option<Scalar> {
    match w
    case IntValue(v) => if ty.IsInteger() && !ty.IsLong() then Some(Integer(Narrowed(ty, v))) else None
    case LongValue(v) => if ty.IsLong() then Some(Integer(Narrowed(ty, v))) else None
    case FloatValue(v) => if ty.Float? then Some(FloatBits(v)) else None
    case DoubleValue(v) => if ty.Double? then Some(DoubleBits(v)) else None
    case BooleanValue(v) => if ty.Boolean? then Some(Truth(v)) else None
    case StringValue(v) => if ty.IsText() then Some(Characters(v)) else None
    case OtherValue => None
  }

  /** Reducing modulo a multiple first changes nothing. */
  lemma ModOfMultiple(i: int, small: int, k: int)
    requires small > 0 && k > 0 && small * k > 0
    ensures i % (small * k) % small == i % small
  {
    var big := small * k;
    var q := i / big;
    var r := i % big;
    assert i == small * (k * q + r / small) + r % small by {
      assert i == big * q + r;
      assert r == small * (r / small) + r % small;
      assert big * q == small * (k * q);
      assert small * (k * q + r / small) == small * (k * q) + small * (r / small);
    }
    ModUnique(i, small, k * q + r / small, r % small);
  }

  /** Reducing modulo a field and then modulo a type that fits in it is reducing modulo the type. */
  lemma NarrowThroughField(i: int, ty: DataType)
    requires ty.IsInteger()
    ensures i % TWO_TO_THE_64 % ty.Range() == i % ty.Range()
    ensures !ty.IsLong() ==> i % TWO_TO_THE_32 % ty.Range() == i % ty.Range()
  {
    var m := ty.Range();
    var k := TWO_TO_THE_64 / m;
    assert m * k == TWO_TO_THE_64;
    ModOfMultiple(i, m, k);
    if !ty.IsLong() {
      var k32 := TWO_TO_THE_32 / m;
      assert m * k32 == TWO_TO_THE_32;
      ModOfMultiple(i, m, k32);
    }
  }

  /** An integer of a type is determined by its remainder. */
  lemma NarrowedRemainder(ty: DataType, i: int, field: nat)
    requires Has(ty, Integer(i)) && field % ty.Range() == i % ty.Range()
    ensures Narrowed(ty, field) == i
  {
    var m := ty.Range();
    if i >= 0 {
      ModUnique(i, m, 0, i);
    } else {
      ModUnique(i, m, -1, i + m);
    }
  }

  /** Every scalar survives the payload, whatever its type's sign and width. */
  lemma DecodeEncode(ty: DataType, s: Scalar)
    requires Has(ty, s)
    ensures Decode(ty, Encode(ty, s)) == Some(s)
  {
    if s.Integer? {
      NarrowThroughField(s.i, ty);
      hide DataType.Range, Narrowed;
      NarrowedRemainder(ty, s.i, if ty.IsLong() then s.i % TWO_TO_THE_64 else s.i % TWO_TO_THE_32);
    }
  }

  /** The basic types in the order in which a payload numbers them, from 1. */
  const TYPES: seq<DataType> :=
    [Int8, Int16, Int32, Int64, UInt8, UInt16, UInt32, UInt64, Float, Double, Boolean, String, DateTime, Text, Uuid]

  lemma CodesNumberTheTypes(ty: DataType)
    ensures 1 <= ty.Code() <= |TYPES| && TYPES[ty.Code() - 1] == ty
  {
  }

  /** Integers travel in two's complement: in 64 bits for the 64-bit types and dates, else in 32. */
  lemma IntegersTravelInTwosComplement(ty: DataType, i: int)
    requires Has(ty, Integer(i))
    ensures if ty in {Int64, UInt64, DateTime}
            then Encode(ty, Integer(i)) == LongValue(if i < 0 then i + TWO_TO_THE_64 else i)
            else Encode(ty, Integer(i)) == IntValue(if i < 0 then i + TWO_TO_THE_32 else i)
  {
    if i < 0 {
      ModUnique(i, TWO_TO_THE_64, -1, i + TWO_TO_THE_64);
      if !ty.IsLong() {
        ModUnique(i, TWO_TO_THE_32, -1, i + TWO_TO_THE_32);
      }
    }
  }

  /** What is decoded is a value of the type. */
  lemma DecodedHasType(ty: DataType, w: Wire)
    ensures Decode(ty, w).Some? ==> Has(ty, Decode(ty, w).value)
  {
  }

  /** Two fields decode alike exactly when they agree in the bits of the type. */
  lemma DecodesByLowBits(ty: DataType, v: U32, w: U32)
    requires ty.IsInteger() && !ty.IsLong()
    ensures Decode(ty, IntValue(v)) == Decode(ty, IntValue(w)) <==> v % ty.Range() == w % ty.Range()
  {
  }

  /** Put an integer into the field its type expects, when a producer used the other one. */
  function Coerced(ty: DataType, w: Wire): Wire {
    match w
    case LongValue(v) => if ty.IsInteger() && !ty.IsLong() then IntValue(v % TWO_TO_THE_32) else w
    case IntValue(v) => if ty.Int64? || ty.UInt64? then LongValue(v) else w
    case _ => w
  }

  /** An integer sent in the wider field, sign-extended to 64 bits, is read back unchanged. */
  lemma CoercedLongIsRead(ty: DataType, i: int)
    requires Has(ty, Integer(i)) && !ty.IsLong()
    ensures Decode(ty, Coerced(ty, LongValue(i % TWO_TO_THE_64))) == Some(Integer(i))
  {
    NarrowThroughField(i, ty);
    ModOfMultiple(i, TWO_TO_THE_32, TWO_TO_THE_32);
    hide DataType.Range, Narrowed;
    NarrowedRemainder(ty, i, i % TWO_TO_THE_32);
  }

  /** A 64-bit integer sent in the narrower field is read back exactly when it is not negative. */
  lemma CoercedIntIsRead(ty: DataType, i: int)
    requires (ty.Int64? || ty.UInt64?) && -(TWO_TO_THE_32 / 2) <= i < TWO_TO_THE_32 && Has(ty, Integer(i))
    ensures Decode(ty, Coerced(ty, IntValue(i % TWO_TO_THE_32))) == Some(Integer(i)) <==> i >= 0
  {
    var v := if i >= 0 then i else i + TWO_TO_THE_32;
    ModUnique(i, TWO_TO_THE_32, if i >= 0 then 0 else -1, v);
    ModUnique(v, TWO_TO_THE_64, 0, v);
  }

  lemma CoercionKeepsEncodings(ty: DataType, s: Scalar)
    requires Has(ty, s)
    ensures Decode(ty, Coerced(ty, Encode(ty, s))) == Some(s)
    ensures ty !in {Int8, Int16, Int32, Int64, UInt8, UInt16, UInt32, UInt64} ==> forall w :: Coerced(ty, w) == w
  {
    DecodeEncode(ty, s);
  }
}
