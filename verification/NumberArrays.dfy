/** Arrays of fixed-width numbers as little-endian bytes. Floating-point numbers and dates are their bit patterns. */
module NumberArrays {
  import opened Bounded

  datatype NumberType = NumberType(width: nat, signed: bool)

  datatype FromBytesError = InvalidFormat | InvalidSize | BadStringElement

  datatype Result<+T> = Ok(value: T) | Err(error: FromBytesError)

  function Turn(width: nat): (n: int)
    ensures n > 0 && (width > 0 ==> n >= 256)
  {
    if width == 0 then 1 else 256 * Turn(width - 1)
  }

  predicate InRange(ty: NumberType, x: int) {
    if ty.signed then -Turn(ty.width) <= 2 * x < Turn(ty.width) else 0 <= x < Turn(ty.width)
  }

  function ToLittleEndian(x: int, width: nat): (bytes: seq<U8>)
    ensures |bytes| == width
    decreases width
  {
    if width == 0 then [] else [x % 256] + ToLittleEndian(x / 256, width - 1)
  }

  /** The number the bytes stand for, read without sign. */
  function FromLittleEndian(bytes: seq<U8>): (n: nat)
    ensures n < Turn(|bytes|)
  {
    if bytes == [] then 0 else bytes[0] + 256 * FromLittleEndian(bytes[1..])
  }

  function Signed(ty: NumberType, n: nat): int {
    if ty.signed && 2 * n >= Turn(ty.width) then n - Turn(ty.width) else n
  }

  /** Reading back gives the number modulo the width, whatever its sign. */
  lemma {:induction false} FromTo(x: int, width: nat)
    ensures FromLittleEndian(ToLittleEndian(x, width)) == x % Turn(width)
    decreases width
  {
    if width > 0 {
      FromTo(x / 256, width - 1);
      assert ToLittleEndian(x, width)[1..] == ToLittleEndian(x / 256, width - 1);
      DigitAndRest(x, Turn(width - 1));
    }
  }

  lemma DigitAndRest(x: int, t: int)
    requires t > 0
    ensures x % 256 + 256 * (x / 256 % t) == x % (256 * t)
  {
    var q := x / 256 / t;
    assert x / 256 == t * q + x / 256 % t;
    assert x == 256 * t * q + (x % 256 + 256 * (x / 256 % t)) by {
      assert x == 256 * (x / 256) + x % 256;
      assert 256 * (x / 256) == 256 * (t * q) + 256 * (x / 256 % t);
    }
    assert x / 256 % t <= t - 1;
    ModUnique(x, 256 * t, q, x % 256 + 256 * (x / 256 % t));
  }

  lemma RemainderIs(x: int, n: nat, t: nat)
    requires n < t && (x - n) % t == 0
    ensures x % t == n
  {
    ModUnique(x, t, (x - n) / t, n);
  }

  lemma ToFrom(bytes: seq<U8>, x: int)
    requires (x - FromLittleEndian(bytes)) % Turn(|bytes|) == 0
    ensures ToLittleEndian(x, |bytes|) == bytes
  {
    hide *;
    FromTo(x, |bytes|);
    RemainderIs(x, FromLittleEndian(bytes), Turn(|bytes|));
    DigitsUnique(ToLittleEndian(x, |bytes|), bytes);
  }

  lemma {:induction false} DigitsUnique(a: seq<U8>, b: seq<U8>)
    requires |a| == |b| && FromLittleEndian(a) == FromLittleEndian(b)
    ensures a == b
  {
    if a != [] {
      DigitsUnique(a[1..], b[1..]);
      assert a == [a[0]] + a[1..] && b == [b[0]] + b[1..];
    }
  }

  function NumberEncoded(ty: NumberType, x: int): (bytes: seq<U8>)
    ensures |bytes| == ty.width
  {
    ToLittleEndian(x, ty.width)
  }

  function NumberDecoded(ty: NumberType, bytes: seq<U8>): (x: int)
    requires |bytes| == ty.width
    ensures InRange(ty, x)
  {
    Signed(ty, FromLittleEndian(bytes))
  }

  lemma NumberRoundTrips(ty: NumberType, x: int)
    requires InRange(ty, x)
    ensures NumberDecoded(ty, NumberEncoded(ty, x)) == x
  {
    FromTo(x, ty.width);
    var t := Turn(ty.width);
    hide Turn, FromLittleEndian, ToLittleEndian;
    if x < 0 {
      ModUnique(x, t, -1, x + t);
    } else {
      ModUnique(x, t, 0, x);
    }
  }

  lemma BytesRoundTrip(ty: NumberType, bytes: seq<U8>)
    requires |bytes| == ty.width
    ensures NumberEncoded(ty, NumberDecoded(ty, bytes)) == bytes
  {
    var x := NumberDecoded(ty, bytes);
    var n := FromLittleEndian(bytes);
    var t := Turn(ty.width);
    assert (x - n) % t == 0 by {
      ModUnique(x - n, t, if x == n then 0 else -1, 0);
    }
    ToFrom(bytes, x);
  }

  function Encoded(ty: NumberType, xs: seq<int>): seq<U8> {
    if xs == [] then [] else Encoded(ty, xs[..|xs| - 1]) + NumberEncoded(ty, xs[|xs| - 1])
  }

  /** The numbers in as many whole chunks as there are. */
  function Chunks(ty: NumberType, bytes: seq<U8>): seq<int>
    requires ty.width > 0
  {
    if |bytes| < ty.width then []
    else [NumberDecoded(ty, bytes[..ty.width])] + Chunks(ty, bytes[ty.width..])
  }

  function Decoded(ty: NumberType, bytes: seq<U8>): Result<seq<int>>
    requires ty.width > 0
  {
    if |bytes| % ty.width != 0 then Err(InvalidFormat) else Ok(Chunks(ty, bytes))
  }

  ghost predicate AllInRange(ty: NumberType, xs: seq<int>) {
    forall i :: 0 <= i < |xs| ==> InRange(ty, xs[i])
  }

  lemma {:induction false} EncodedCons(ty: NumberType, xs: seq<int>)
    requires xs != []
    ensures Encoded(ty, xs) == NumberEncoded(ty, xs[0]) + Encoded(ty, xs[1..])
  {
    if |xs| > 1 {
      EncodedCons(ty, xs[..|xs| - 1]);
      assert xs[..|xs| - 1][1..] == xs[1..][..|xs| - 2];
    }
  }

  lemma {:induction false} EncodedLength(ty: NumberType, xs: seq<int>)
    ensures |Encoded(ty, xs)| == |xs| * ty.width
  {
    if xs != [] {
      EncodedLength(ty, xs[..|xs| - 1]);
      assert |xs| * ty.width == (|xs| - 1) * ty.width + ty.width;
    }
  }

  lemma {:induction false} ChunksOfEncoded(ty: NumberType, xs: seq<int>)
    requires ty.width > 0 && AllInRange(ty, xs)
    ensures Chunks(ty, Encoded(ty, xs)) == xs
  {
    if xs != [] {
      EncodedCons(ty, xs);
      NumberRoundTrips(ty, xs[0]);
      ChunksOfEncoded(ty, xs[1..]);
      var bytes := Encoded(ty, xs);
      assert bytes[..ty.width] == NumberEncoded(ty, xs[0]) && bytes[ty.width..] == Encoded(ty, xs[1..]);
    }
  }

  lemma {:induction false} EncodedChunks(ty: NumberType, bytes: seq<U8>, k: nat)
    requires ty.width > 0 && |bytes| == ty.width * k
    ensures Encoded(ty, Chunks(ty, bytes)) == bytes
    ensures AllInRange(ty, Chunks(ty, bytes)) && |Chunks(ty, bytes)| == k
    decreases k
  {
    if k == 0 {
      assert |bytes| < ty.width;
    } else {
      assert ty.width * k == ty.width * (k - 1) + ty.width;
      EncodedChunks(ty, bytes[ty.width..], k - 1);
      BytesRoundTrip(ty, bytes[..ty.width]);
      var xs := Chunks(ty, bytes);
      EncodedCons(ty, xs);
      assert xs[1..] == Chunks(ty, bytes[ty.width..]);
      assert bytes == bytes[..ty.width] + bytes[ty.width..];
    }
  }

  /** Every array of numbers survives its encoding. */
  lemma DecodeOfEncode(ty: NumberType, xs: seq<int>)
    requires ty.width > 0 && AllInRange(ty, xs)
    ensures Decoded(ty, Encoded(ty, xs)) == Ok(xs)
  {
    EncodedLength(ty, xs);
    ModUnique(|xs| * ty.width, ty.width, |xs|, 0);
    ChunksOfEncoded(ty, xs);
  }

  /** Decoding accepts exactly whole chunks, and what it accepts is the encoding of what it returns. */
  lemma EncodeOfDecode(ty: NumberType, bytes: seq<U8>)
    requires ty.width > 0
    ensures if |bytes| % ty.width == 0 then Decoded(ty, bytes).Ok? else Decoded(ty, bytes) == Err(InvalidFormat)
    ensures Decoded(ty, bytes).Ok? ==>
              AllInRange(ty, Decoded(ty, bytes).value) && Encoded(ty, Decoded(ty, bytes).value) == bytes
  {
    if |bytes| % ty.width == 0 {
      EncodedChunks(ty, bytes, |bytes| / ty.width);
    }
  }

  lemma DivideTwice(x: int, t: int)
    requires t > 0
    ensures x / 256 / t == x / (256 * t)
  {
    DigitAndRest(x, t);
    var q := x / 256 / t;
    assert x / 256 == t * q + x / 256 % t;
    assert x == 256 * (t * q) + (x % 256 + 256 * (x / 256 % t));
    assert 256 * (t * q) == 256 * t * q;
    QuotientIs(x, 256 * t, q, x % (256 * t));
  }

  lemma QuotientIs(x: int, m: int, q: int, r: int)
    requires m > 0 && 0 <= r < m && x == m * q + r
    ensures x / m == q
  {
    ModUnique(x, m, q, r);
    assert x == m * (x / m) + x % m;
    var d := x / m - q;
    assert m * d == 0 by {
      assert m * d == m * (x / m) - m * q;
    }
    assert d >= 1 ==> m * d >= m;
    assert d <= -1 ==> m * d <= -m;
  }

  /** The byte at a place is the digit of that weight. */
  lemma {:induction false} BytesAreDigits(x: int, width: nat, j: nat)
    requires j < width
    ensures ToLittleEndian(x, width)[j] == x / Turn(j) % 256
    decreases width
  {
    if j > 0 {
      BytesAreDigits(x / 256, width - 1, j - 1);
      DivideTwice(x, Turn(j - 1));
    }
  }

  /** The encoding, byte by byte: number after number, the least significant byte first. */
  lemma {:induction false} EncodingByByte(ty: NumberType, xs: seq<int>, i: nat, j: nat)
    requires i < |xs| && j < ty.width
    ensures var at := i * ty.width + j;
            at < |Encoded(ty, xs)| == |xs| * ty.width && Encoded(ty, xs)[at] == xs[i] / Turn(j) % 256
  {
    var before := xs[..|xs| - 1];
    EncodedLength(ty, xs);
    EncodedLength(ty, before);
    BytesAreDigits(xs[i], ty.width, j);
    assert |xs| * ty.width == (|xs| - 1) * ty.width + ty.width;
    if i < |xs| - 1 {
      EncodingByByte(ty, before, i, j);
    }
  }

  method Encode(ty: NumberType, xs: seq<int>) returns (out: seq<U8>)
    ensures out == Encoded(ty, xs)
  {
    out := [];
    for i := 0 to |xs|
      invariant out == Encoded(ty, xs[..i])
    {
      assert xs[..i + 1][..i] == xs[..i];
      out := out + NumberEncoded(ty, xs[i]);
    }
    assert xs[..|xs|] == xs;
  }

  method Decode(ty: NumberType, bytes: seq<U8>) returns (r: Result<seq<int>>)
    requires ty.width > 0
    ensures r == Decoded(ty, bytes)
  {
    if |bytes| % ty.width != 0 { return Err(InvalidFormat); }
    var out := [];
    var rest := bytes;
    while |rest| >= ty.width
      invariant out + Chunks(ty, rest) == Chunks(ty, bytes)
      decreases |rest|
    {
      out := out + [NumberDecoded(ty, rest[..ty.width])];
      rest := rest[ty.width..];
    }
    assert out + Chunks(ty, rest) == out;
    return Ok(out);
  }
}
