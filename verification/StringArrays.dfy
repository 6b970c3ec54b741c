/** String arrays: strings as their bytes, each ended by a zero byte. `utf8` says which byte strings are valid UTF-8. */
module StringArrays {
  import opened Bounded
  import opened NumberArrays
  import opened Splitting

  type Bytes = seq<U8>

  function StringsEncoded(ss: seq<Bytes>): Bytes {
    if ss == [] then [] else StringsEncoded(ss[..|ss| - 1]) + ss[|ss| - 1] + [0]
  }

  predicate AllValid(utf8: Bytes -> bool, ss: seq<Bytes>) {
    forall i :: 0 <= i < |ss| ==> utf8(ss[i])
  }

  function StringsDecoded(utf8: Bytes -> bool, bytes: Bytes): Result<seq<Bytes>> {
    if bytes == [] then Ok([])
    else if bytes[|bytes| - 1] != 0 then Err(InvalidFormat)
    else
      var pieces := Split(bytes, 0);
      var ss := pieces[..|pieces| - 1];
      if AllValid(utf8, ss) then Ok(ss) else Err(BadStringElement)
  }

  ghost predicate ZeroFree(ss: seq<Bytes>) {
    FreeOf(ss, 0)
  }

  lemma {:induction false} EncodedCons(ss: seq<Bytes>)
    requires ss != []
    ensures StringsEncoded(ss) == ss[0] + [0] + StringsEncoded(ss[1..])
  {
    if |ss| > 1 {
      EncodedCons(ss[..|ss| - 1]);
      assert ss[..|ss| - 1][1..] == ss[1..][..|ss| - 2];
    }
  }

  /** Ending each string is joining them with one empty piece after the last. */
  lemma {:induction false} EncodedIsJoined(ss: seq<Bytes>)
    ensures StringsEncoded(ss) == Join(ss + [[]], 0)
  {
    if ss != [] {
      EncodedCons(ss);
      EncodedIsJoined(ss[1..]);
      assert (ss + [[]])[1..] == ss[1..] + [[]];
    }
  }

  /** What ends in a zero byte has an empty last piece. */
  lemma {:induction false} LastPieceIsEmpty(pieces: seq<Bytes>)
    requires pieces != [] && ZeroFree(pieces)
    requires Join(pieces, 0) != [] && Join(pieces, 0)[|Join(pieces, 0)| - 1] == 0
    ensures pieces[|pieces| - 1] == []
  {
    if |pieces| > 1 {
      var rest := Join(pieces[1..], 0);
      if rest == [] {
        EmptyJoin(pieces[1..]);
      } else {
        assert Join(pieces, 0)[|Join(pieces, 0)| - 1] == rest[|rest| - 1];
        LastPieceIsEmpty(pieces[1..]);
      }
    }
  }

  lemma EmptyJoin(pieces: seq<Bytes>)
    requires pieces != [] && Join(pieces, 0) == []
    ensures pieces == [[]]
  {
  }

  /** A split of what ends in a zero byte is the strings it encodes, and an empty piece. */
  lemma SplitIsEncoded(bytes: Bytes)
    requires bytes != [] && bytes[|bytes| - 1] == 0
    ensures var ss := Split(bytes, 0)[..|Split(bytes, 0)| - 1];
            ZeroFree(ss) && StringsEncoded(ss) == bytes
  {
    var pieces := Split(bytes, 0);
    JoinOfSplit(bytes, 0);
    LastPieceIsEmpty(pieces);
    EncodedIsJoined(pieces[..|pieces| - 1]);
    assert pieces[..|pieces| - 1] + [[]] == pieces;
  }

  /** An array of strings survives its encoding exactly when no string holds a zero byte. */
  lemma StringsRoundTripExactly(utf8: Bytes -> bool, ss: seq<Bytes>)
    requires AllValid(utf8, ss)
    ensures StringsDecoded(utf8, StringsEncoded(ss)) == Ok(ss) <==> ZeroFree(ss)
  {
    if ss != [] {
      EndsInZero(ss);
      EncodedIsJoined(ss);
      hide StringsEncoded, Split, Join, FreeOf;
      SplitIsEncoded(StringsEncoded(ss));
      if ZeroFree(ss) {
        OneEmptyPieceMore(ss);
        SplitOfJoin(ss + [[]], 0);
        assert (ss + [[]])[..|ss|] == ss;
      }
    }
  }

  lemma EndsInZero(ss: seq<Bytes>)
    requires ss != []
    ensures var bytes := StringsEncoded(ss); bytes != [] && bytes[|bytes| - 1] == 0
  {
  }

  lemma OneEmptyPieceMore(ss: seq<Bytes>)
    requires ZeroFree(ss)
    ensures ZeroFree(ss + [[]])
  {
  }

  /** What is refused is refused for its last byte, or else for a piece that is not valid. */
  lemma RefusalsHaveTheirReason(utf8: Bytes -> bool, bytes: Bytes)
    ensures var r := StringsDecoded(utf8, bytes);
            r.Err? ==>
              && bytes != []
              && r.error == (if bytes[|bytes| - 1] != 0 then InvalidFormat else BadStringElement)
              && (r.error.BadStringElement? ==> exists piece :: piece in Split(bytes, 0) && !utf8(piece))
  {
    hide Split;
    var pieces := Split(bytes, 0);
    if StringsDecoded(utf8, bytes) == Err(BadStringElement) {
      var i :| 0 <= i < |pieces| - 1 && !utf8(pieces[..|pieces| - 1][i]);
      assert pieces[i] in pieces;
    }
  }

  /**
   Decoding accepts exactly what is empty, or ended by a zero byte with valid pieces; and what it accepts
   is the encoding of what it returns.
   */
  lemma EncodeOfDecode(utf8: Bytes -> bool, bytes: Bytes)
    ensures var r := StringsDecoded(utf8, bytes);
            && (r.Ok? <==>
                 bytes == [] || (bytes[|bytes| - 1] == 0 && AllValid(utf8, Split(bytes, 0)[..|Split(bytes, 0)| - 1])))
            && (r.Ok? ==> StringsEncoded(r.value) == bytes && ZeroFree(r.value) && AllValid(utf8, r.value))
  {
    if bytes != [] && bytes[|bytes| - 1] == 0 {
      SplitIsEncoded(bytes);
    }
  }

  method EncodeStrings(ss: seq<Bytes>) returns (out: Bytes)
    ensures out == StringsEncoded(ss)
  {
    out := [];
    for i := 0 to |ss|
      invariant out == StringsEncoded(ss[..i])
    {
      assert ss[..i + 1][..i] == ss[..i];
      out := out + ss[i];
      out := out + [0];
    }
    assert ss[..|ss|] == ss;
  }

  method DecodeStrings(utf8: Bytes -> bool, bytes: Bytes) returns (r: Result<seq<Bytes>>)
    ensures r == StringsDecoded(utf8, bytes)
  {
    if bytes == [] { return Ok([]); }
    if bytes[|bytes| - 1] != 0 { return Err(InvalidFormat); }
    var split := Split(bytes, 0);
    var ss := [];
    var i := 0;
    while i + 1 < |split|
      invariant 0 <= i < |split| && ss == split[..i] && AllValid(utf8, ss)
    {
      if !utf8(split[i]) { return Err(BadStringElement); }
      ss := ss + [split[i]];
      i := i + 1;
    }
    return Ok(ss);
  }
}
