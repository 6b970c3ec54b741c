/**
 Boolean arrays: a four-byte count and eight values to a byte, the first in the highest bit. The
 decoder reads `count % 8` values from the last byte, which is none of them when the count is a
 multiple of eight.
 */
module BooleanArrays {
  import opened Bounded
  import opened NumberArrays

  /** The place value of the `i`-th boolean of a byte. */
  function Weight(i: nat): (w: U8)
    requires i < 8
  {
    [128, 64, 32, 16, 8, 4, 2, 1][i]
  }

  /** `(byte >> (7 - i)) & 1 == 1`. */
  predicate Bit(byte: U8, i: nat)
    requires i < 8
  {
    byte / Weight(i) % 2 == 1
  }

  function Digit(bs: seq<bool>, i: nat): nat
  {
    if i < |bs| && bs[i] then 1 else 0
  }

  function Pack(bs: seq<bool>): U8
    requires |bs| <= 8
  {
    128 * Digit(bs, 0) + 64 * Digit(bs, 1) + 32 * Digit(bs, 2) + 16 * Digit(bs, 3)
    + 8 * Digit(bs, 4) + 4 * Digit(bs, 5) + 2 * Digit(bs, 6) + Digit(bs, 7)
  }

  lemma PlaceValue(x: int, high: nat, w: nat, digit: nat, low: nat)
    requires digit <= 1 && low < w && x == w * (2 * high + digit) + low
    ensures x / w % 2 == digit
  {
    QuotientUnique(x, w, 2 * high + digit, low);
  }

  lemma QuotientUnique(x: int, m: int, q: int, r: int)
    requires 0 <= r < m && x == m * q + r
    ensures x / m == q
  {
    ModUnique(x, m, q, r);
    assert m * (x / m) == m * q;
    assert m * (x / m - q) == 0;
  }

  /** Each packed value is found at its place, and the places after the last are zero. */
  lemma BitOfPack(bs: seq<bool>, i: nat)
    requires |bs| <= 8 && i < 8
    ensures Bit(Pack(bs), i) <==> i < |bs| && bs[i]
  {
    var x := Pack(bs);
    var d0, d1, d2, d3 := Digit(bs, 0), Digit(bs, 1), Digit(bs, 2), Digit(bs, 3);
    var d4, d5, d6, d7 := Digit(bs, 4), Digit(bs, 5), Digit(bs, 6), Digit(bs, 7);
    assert d0 <= 1 && d1 <= 1 && d2 <= 1 && d3 <= 1 && d4 <= 1 && d5 <= 1 && d6 <= 1 && d7 <= 1;
    var h := (0, d0, 2 * d0 + d1, 4 * d0 + 2 * d1 + d2, 8 * d0 + 4 * d1 + 2 * d2 + d3);
    var h5 := 2 * h.4 + d4;
    var h6 := 2 * h5 + d5;
    assert x == 128 * d0 + 64 * d1 + 32 * d2 + 16 * d3 + 8 * d4 + 4 * d5 + 2 * d6 + d7;
    hide Pack;
    match i
    case 0 => PlaceValue(x, 0, 128, d0, 64 * d1 + 32 * d2 + 16 * d3 + 8 * d4 + 4 * d5 + 2 * d6 + d7);
    case 1 => PlaceValue(x, h.1, 64, d1, 32 * d2 + 16 * d3 + 8 * d4 + 4 * d5 + 2 * d6 + d7);
    case 2 => PlaceValue(x, h.2, 32, d2, 16 * d3 + 8 * d4 + 4 * d5 + 2 * d6 + d7);
    case 3 => PlaceValue(x, h.3, 16, d3, 8 * d4 + 4 * d5 + 2 * d6 + d7);
    case 4 => PlaceValue(x, h.4, 8, d4, 4 * d5 + 2 * d6 + d7);
    case 5 => PlaceValue(x, h5, 4, d5, 2 * d6 + d7);
    case 6 => PlaceValue(x, h6, 2, d6, d7);
    case _ => PlaceValue(x, 2 * h6 + d6, 1, d7, 0);
  }

  /** The first `k` values of a byte. */
  function Bits(byte: U8, k: nat): (bs: seq<bool>)
    requires k <= 8
    ensures |bs| == k
  {
    if k == 0 then [] else Bits(byte, k - 1) + [Bit(byte, k - 1)]
  }

  lemma {:induction false} BitsAre(byte: U8, k: nat, bs: seq<bool>)
    requires k <= 8 && |bs| == k && forall i :: 0 <= i < k ==> (bs[i] <==> Bit(byte, i))
    ensures Bits(byte, k) == bs
  {
    if k > 0 {
      BitsAre(byte, k - 1, bs[..k - 1]);
      assert bs == bs[..k - 1] + [bs[k - 1]];
    }
  }

  function Min(a: nat, b: nat): nat {
    if a < b then a else b
  }

  /** Eight values to a byte, the last byte filled up with zeros. */
  function Packed(bs: seq<bool>): seq<U8> {
    if bs == [] then []
    else
      var n := Min(|bs|, 8);
      [Pack(bs[..n])] + Packed(bs[n..])
  }

  /** All values of all bytes. */
  function AllBits(bytes: seq<U8>): seq<bool> {
    if bytes == [] then [] else AllBits(bytes[..|bytes| - 1]) + Bits(bytes[|bytes| - 1], 8)
  }

  /** `u32::div_ceil(8)`. */
  function BytesFor(n: nat): nat {
    (n + 7) / 8
  }

  function BoolsEncoded(bs: seq<bool>): seq<U8> {
    ToLittleEndian(|bs| % TWO_TO_THE_32, 4) + Packed(bs)
  }

  datatype Reading = AsWritten | Corrected

  /** How many values the decoder takes from the last byte. */
  function Last(reading: Reading, count: nat): (n: nat)
    ensures n <= 8
  {
    if reading.Corrected? && count % 8 == 0 then 8 else count % 8
  }

  function Read(reading: Reading, bytes: seq<U8>): Result<seq<bool>> {
    if |bytes| < 4 then Err(InvalidSize)
    else
      var count := FromLittleEndian(bytes[..4]);
      if count == 0 then Ok([])
      else if |bytes| < 4 + BytesFor(count) then Err(InvalidFormat)
      else
        var data := bytes[4..];
        var k := |data| - 1;
        Ok(AllBits(data[..k]) + Bits(data[k], Last(reading, count)))
  }

  function BoolsDecoded(bytes: seq<U8>): Result<seq<bool>> {
    Read(AsWritten, bytes)
  }

  lemma {:induction false} PackedLength(bs: seq<bool>)
    ensures |Packed(bs)| == BytesFor(|bs|)
  {
    if bs != [] {
      PackedLength(bs[Min(|bs|, 8)..]);
    }
  }

  lemma {:induction false} AllBitsCons(b: U8, bytes: seq<U8>)
    ensures AllBits([b] + bytes) == Bits(b, 8) + AllBits(bytes)
  {
    hide Bits;
    if bytes == [] {
      assert [b] + bytes == [b] && [b][..0] == [];
    } else {
      var k := |bytes| - 1;
      AllBitsCons(b, bytes[..k]);
      assert ([b] + bytes)[..k + 1] == [b] + bytes[..k];
    }
  }

  lemma BitsOfPack(bs: seq<bool>, k: nat)
    requires k <= |bs| <= 8
    ensures Bits(Pack(bs), k) == bs[..k]
  {
    forall i | 0 <= i < k ensures bs[i] <==> Bit(Pack(bs), i) {
      BitOfPack(bs, i);
    }
    BitsAre(Pack(bs), k, bs[..k]);
  }

  /** Unpacking all but the last byte, and `last` values from that, gives back that many. */
  lemma {:induction false} Unpacked(bs: seq<bool>, last: nat)
    requires bs != [] && 8 * (BytesFor(|bs|) - 1) + last <= |bs|
    ensures |Packed(bs)| == BytesFor(|bs|) && last <= 8
    ensures var k := |Packed(bs)| - 1;
            AllBits(Packed(bs)[..k]) + Bits(Packed(bs)[k], last) == bs[..8 * k + last]
    decreases |bs|
  {
    hide *;
    PackedLength(bs);
    OneByteMore(|bs|);
    if |bs| <= 8 {
      UnpackedByte(bs, last);
    } else {
      PackedCons(bs);
      Unpacked(bs[8..], last);
      BitsOfPack(bs[..8], 8);
      assert bs[..8][..8] == bs[..8];
      UnpackedCons(bs, Pack(bs[..8]), Packed(bs[8..]), last);
    }
  }

  lemma OneByteMore(n: nat)
    requires n > 0
    ensures if n <= 8 then BytesFor(n) == 1 else BytesFor(n) == BytesFor(n - 8) + 1 > 1
  {
  }

  lemma PackedCons(bs: seq<bool>)
    requires |bs| > 8
    ensures Packed(bs) == [Pack(bs[..8])] + Packed(bs[8..])
  {
  }

  lemma UnpackedByte(bs: seq<bool>, last: nat)
    requires 0 < |bs| <= 8 && last <= |bs|
    ensures |Packed(bs)| == 1 && AllBits(Packed(bs)[..0]) + Bits(Packed(bs)[0], last) == bs[..last]
  {
    assert bs[..|bs|] == bs && Packed(bs) == [Pack(bs)];
    assert AllBits(Packed(bs)[..0]) == [];
    hide Packed, AllBits, Pack, Bits;
    BitsOfPack(bs, last);
  }

  lemma UnpackedCons(bs: seq<bool>, first: U8, rest: seq<U8>, last: nat)
    requires |bs| > 8 && rest != [] && last <= 8 && 8 * |rest| + last <= |bs|
    requires Bits(first, 8) == bs[..8]
    requires var k := |rest| - 1; AllBits(rest[..k]) + Bits(rest[k], last) == bs[8..][..8 * k + last]
    ensures var k := |rest|; AllBits(([first] + rest)[..k]) + Bits(([first] + rest)[k], last) == bs[..8 * k + last]
  {
    var k := |rest| - 1;
    AllBitsCons(first, rest[..k]);
    var middle, end := AllBits(rest[..k]), Bits(rest[k], last);
    assert ([first] + rest)[..k + 1] == [first] + rest[..k] && ([first] + rest)[k + 1] == rest[k];
    hide *;
    Associative(bs[..8], middle, end);
    TakeInParts(bs, 8, 8 * k + last);
  }

  lemma Associative<T>(a: seq<T>, b: seq<T>, c: seq<T>)
    ensures (a + b) + c == a + (b + c)
  {
  }

  lemma TakeInParts<T>(s: seq<T>, m: nat, n: nat)
    requires m + n <= |s|
    ensures s[..m] + s[m..][..n] == s[..m + n]
  {
  }

  /** How many values come out of an encoding of `n`. */
  function Kept(reading: Reading, n: nat): (m: nat)
    ensures m <= n
  {
    if n % TWO_TO_THE_32 == 0 then 0 else 8 * (BytesFor(n) - 1) + Last(reading, n)
  }

  /** The stored count leaves the same remainder as the number of values. */
  lemma SameRemainder(n: nat)
    ensures n % TWO_TO_THE_32 % 8 == n % 8
    ensures BytesFor(n % TWO_TO_THE_32) <= BytesFor(n)
  {
  }

  lemma NothingIsRead(reading: Reading, bytes: seq<U8>, n: nat)
    requires |bytes| >= 4 && FromLittleEndian(bytes[..4]) == 0 == n % TWO_TO_THE_32
    ensures Read(reading, bytes) == Ok([]) && Kept(reading, n) == 0
  {
    hide FromLittleEndian;
  }

  lemma StoredCountServes(reading: Reading, n: nat, count: nat)
    requires count == n % TWO_TO_THE_32 && count != 0
    ensures Last(reading, count) == Last(reading, n) && BytesFor(count) <= BytesFor(n)
    ensures Kept(reading, n) == 8 * (BytesFor(n) - 1) + Last(reading, n) <= n && n > 0
  {
    SameRemainder(n);
  }

  lemma ReadIs(reading: Reading, bytes: seq<U8>, count: nat, data: seq<U8>)
    requires |bytes| >= 4 && FromLittleEndian(bytes[..4]) == count && bytes[4..] == data
    requires 0 < count && BytesFor(count) <= |data|
    ensures |data| > 0 &&
              Read(reading, bytes) == Ok(AllBits(data[..|data| - 1]) + Bits(data[|data| - 1], Last(reading, count)))
  {
    hide FromLittleEndian, AllBits, Bits, Last;
  }

  lemma Turn4()
    ensures Turn(4) == TWO_TO_THE_32
  {
    assert Turn(0) == 1 && Turn(1) == 256 && Turn(2) == 0x1_0000 && Turn(3) == 0x100_0000;
  }

  /** An encoding is the count, as far as it fits, and the packed values. */
  lemma EncodingParts(bs: seq<bool>)
    ensures var bytes := BoolsEncoded(bs);
            |bytes| >= 4 && FromLittleEndian(bytes[..4]) == |bs| % TWO_TO_THE_32 && bytes[4..] == Packed(bs)
  {
    var count := |bs| % TWO_TO_THE_32;
    FromTo(count, 4);
    Turn4();
    ModUnique(count, TWO_TO_THE_32, 0, count);
    var header, body := ToLittleEndian(count, 4), Packed(bs);
    assert BoolsEncoded(bs) == header + body;
    hide *;
    assert (header + body)[..4] == header && (header + body)[4..] == body;
  }

  /** What comes out of an encoding is its beginning. */
  lemma EncodingIsRead(reading: Reading, bs: seq<bool>)
    ensures Read(reading, BoolsEncoded(bs)) == Ok(bs[..Kept(reading, |bs|)])
  {
    var count := |bs| % TWO_TO_THE_32;
    hide *;
    EncodingParts(bs);
    if count == 0 {
      NothingIsRead(reading, BoolsEncoded(bs), |bs|);
      assert bs[..0] == [];
    } else {
      StoredIsRead(reading, bs, count, BoolsEncoded(bs));
    }
  }

  lemma StoredIsRead(reading: Reading, bs: seq<bool>, count: nat, bytes: seq<U8>)
    requires count == |bs| % TWO_TO_THE_32 && count != 0
    requires |bytes| >= 4 && FromLittleEndian(bytes[..4]) == count && bytes[4..] == Packed(bs)
    ensures Read(reading, bytes) == Ok(bs[..Kept(reading, |bs|)])
  {
    hide *;
    StoredCountServes(reading, |bs|, count);
    PackedLength(bs);
    ReadIs(reading, bytes, count, Packed(bs));
    Unpacked(bs, Last(reading, |bs|));
  }

  lemma KeptAll(n: nat)
    ensures Kept(AsWritten, n) == n <==> n == 0 || n % 8 != 0
    ensures Kept(Corrected, n) == n <==> n == 0 || n % TWO_TO_THE_32 != 0
  {
    var stored := n % TWO_TO_THE_32;
    forall reading ensures Kept(reading, n) == if stored == 0 then 0 else 8 * (BytesFor(n) - 1) + Last(reading, n) {}
    hide *;
    assert stored == 0 ==> n % 8 == 0 by { SameRemainder(n); }
    LastByteHolds(n);
  }

  /** All but the last byte are full. */
  lemma LastByteHolds(n: nat)
    ensures n > 0 ==> 8 * (BytesFor(n) - 1) + Last(Corrected, n) == n
    ensures n > 0 && n % 8 != 0 ==> Last(AsWritten, n) == Last(Corrected, n)
    ensures n % 8 == 0 ==> Last(AsWritten, n) == 0 && Last(Corrected, n) == 8
  {
  }

  lemma TakeAll<T>(s: seq<T>, k: nat)
    requires k <= |s|
    ensures s[..k] == s <==> k == |s|
  {
  }

  /** The array survives exactly when it is empty or its length is not a multiple of eight. */
  lemma RoundTripsExactly(bs: seq<bool>)
    ensures BoolsDecoded(BoolsEncoded(bs)) == Ok(bs) <==> bs == [] || |bs| % 8 != 0
  {
    EncodingIsRead(AsWritten, bs);
    KeptAll(|bs|);
    hide Read, BoolsEncoded, Kept;
    TakeAll(bs, Kept(AsWritten, |bs|));
  }

  /** Otherwise the last eight values are lost, or all of them when the count itself is lost. */
  lemma MultiplesOfEightLoseEight(bs: seq<bool>)
    requires bs != [] && |bs| % 8 == 0
    ensures BoolsDecoded(BoolsEncoded(bs)) == Ok(if |bs| % TWO_TO_THE_32 == 0 then [] else bs[..|bs| - 8])
  {
    EncodingIsRead(AsWritten, bs);
    hide Read, BoolsEncoded;
  }

  /**
   Taking eight values from the last byte when the count is a multiple of eight would cure it for every count
   that fits.
   */
  lemma CorrectedRoundTrips(bs: seq<bool>)
    ensures Read(Corrected, BoolsEncoded(bs)) == Ok(bs) <==> bs == [] || |bs| % TWO_TO_THE_32 != 0
  {
    EncodingIsRead(Corrected, bs);
    KeptAll(|bs|);
    hide Read, BoolsEncoded, Kept;
    TakeAll(bs, Kept(Corrected, |bs|));
  }

  /** Which byte strings the decoder takes, and how much it makes of them, padding included. */
  lemma DecoderAccepts(bytes: seq<U8>)
    ensures BoolsDecoded(bytes).Ok? <==>
              |bytes| >= 4 && |bytes| >= 4 + BytesFor(FromLittleEndian(bytes[..4]))
    ensures BoolsDecoded(bytes).Ok? ==>
              var count := FromLittleEndian(bytes[..4]);
              |BoolsDecoded(bytes).value| == if count == 0 then 0 else 8 * (|bytes| - 5) + count % 8
    ensures BoolsDecoded(bytes).Err? ==>
              BoolsDecoded(bytes).error == if |bytes| < 4 then InvalidSize else InvalidFormat
  {
    if BoolsDecoded(bytes).Ok? {
      AllBitsLength(bytes[4..][..if |bytes| > 4 then |bytes| - 5 else 0]);
    }
  }

  /** The first of eight values is the highest bit, and each following weighs half of the one before. */
  lemma PlacesHalve(i: nat)
    requires i < 8
    ensures if i == 7 then Weight(i) == 1 else Weight(i) == 2 * Weight(i + 1)
  {
  }

  lemma {:induction false} BitOfBits(byte: U8, k: nat, i: nat)
    requires i < k <= 8
    ensures Bits(byte, k)[i] <==> Bit(byte, i)
  {
    if i < k - 1 {
      BitOfBits(byte, k - 1, i);
    }
  }

  lemma {:induction false} BitOfAllBits(bytes: seq<U8>, i: nat)
    requires i < 8 * |bytes|
    ensures i < |AllBits(bytes)| && (AllBits(bytes)[i] <==> Bit(bytes[i / 8], i % 8))
  {
    AllBitsLength(bytes);
    var k := |bytes| - 1;
    AllBitsLength(bytes[..k]);
    if i < 8 * k {
      BitOfAllBits(bytes[..k], i);
    } else {
      assert i / 8 == k && i % 8 == i - 8 * k;
      BitOfBits(bytes[k], 8, i - 8 * k);
    }
    hide Bits;
  }

  /** Whatever bytes are accepted, each value is the bit at its place, counted from the fifth byte on. */
  lemma DecodedBitByBit(bytes: seq<U8>, i: nat)
    requires BoolsDecoded(bytes).Ok? && i < |BoolsDecoded(bytes).value|
    ensures 4 + i / 8 < |bytes| && (BoolsDecoded(bytes).value[i] <==> Bit(bytes[4 + i / 8], i % 8))
  {
    DecoderAccepts(bytes);
    var data, k := bytes[4..], |bytes| - 5;
    var count := FromLittleEndian(bytes[..4]);
    AllBitsLength(data[..k]);
    hide FromLittleEndian, AllBits, Bit, Weight;
    assert BoolsDecoded(bytes).value == AllBits(data[..k]) + Bits(data[k], Last(AsWritten, count));
    if i < 8 * k {
      BitOfAllBits(data[..k], i);
      assert data[..k][i / 8] == bytes[4 + i / 8];
    } else {
      assert i / 8 == k && i % 8 == i - 8 * k;
      BitOfBits(data[k], Last(AsWritten, count), i - 8 * k);
    }
  }

  lemma {:induction false} AllBitsLength(bytes: seq<U8>)
    ensures |AllBits(bytes)| == 8 * |bytes|
  {
    if bytes != [] {
      AllBitsLength(bytes[..|bytes| - 1]);
    }
  }

  // As they run

  method PackByteWithBool(bools: seq<bool>) returns (acc: U8)
    requires |bools| <= 8
    ensures acc == Pack(bools)
  {
    acc := 0;
    for i := 0 to |bools|
      invariant acc == Pack(bools[..i])
    {
      PackSnoc(bools, i);
      if bools[i] {
        acc := acc + Weight(i);
      }
    }
    assert bools[..|bools|] == bools;
  }

  lemma PackSnoc(bs: seq<bool>, i: nat)
    requires i < |bs| <= 8
    ensures Pack(bs[..i + 1]) == Pack(bs[..i]) + if bs[i] then Weight(i) else 0
  {
    assert forall j: nat | j < 8 ::
        Digit(bs[..i + 1], j) == if j == i then (if bs[i] then 1 else 0) else Digit(bs[..i], j);
  }

  method EncodeBools(bs: seq<bool>) returns (out: seq<U8>)
    ensures out == BoolsEncoded(bs)
  {
    out := ToLittleEndian(|bs| % TWO_TO_THE_32, 4);
    ghost var header := out;
    var rest := bs;
    while rest != []
      invariant out + Packed(rest) == header + Packed(bs)
      decreases |rest|
    {
      var n := Min(|rest|, 8);
      var byte := PackByteWithBool(rest[..n]);
      assert Packed(rest) == [byte] + Packed(rest[n..]);
      out := out + [byte];
      rest := rest[n..];
    }
    assert out + Packed(rest) == out;
  }

  method DecodeBools(bytes: seq<U8>) returns (r: Result<seq<bool>>)
    ensures r == BoolsDecoded(bytes)
  {
    if |bytes| < 4 { return Err(InvalidSize); }
    var count := FromLittleEndian(bytes[..4]);
    if count == 0 { return Ok([]); }
    if |bytes| < 4 + BytesFor(count) { return Err(InvalidFormat); }
    var data := bytes[4..];
    var k := |data| - 1;
    var out := [];
    for i := 0 to k
      invariant out == AllBits(data[..i])
    {
      assert data[..i + 1][..i] == data[..i];
      var j := 8;
      ghost var before := out;
      while j > 0
        invariant 0 <= j <= 8 && out == before + Bits(data[i], 8 - j)
      {
        j := j - 1;
        out := out + [Bit(data[i], 7 - j)];
        assert Bits(data[i], 8 - j) == Bits(data[i], 7 - j) + [Bit(data[i], 7 - j)];
      }
    }
    ghost var before := out;
    for i := 0 to count % 8
      invariant out == before + Bits(data[k], i)
    {
      out := out + [Bit(data[k], i)];
    }
    return Ok(out);
  }
}
