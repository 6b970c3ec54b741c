/** Splitting a sequence at a separator, as the standard library's `split` does, and joining the pieces again. */
module Splitting {

  function Split<T(==)>(s: seq<T>, sep: T): (pieces: seq<seq<T>>)
    ensures pieces != []
  {
    if s == [] then [[]]
    else
      var pieces := Split(s[1..], sep);
      if s[0] == sep then [[]] + pieces else [[s[0]] + pieces[0]] + pieces[1..]
  }

  function Join<T>(pieces: seq<seq<T>>, sep: T): seq<T>
    requires pieces != []
  {
    if |pieces| == 1 then pieces[0] else pieces[0] + [sep] + Join(pieces[1..], sep)
  }

  ghost predicate FreeOf<T>(pieces: seq<seq<T>>, sep: T) {
    forall i :: 0 <= i < |pieces| ==> sep !in pieces[i]
  }

  /** One more element in front of the first piece. */
  lemma SplitGrows<T>(a: T, s: seq<T>, sep: T)
    requires a != sep
    ensures Split([a] + s, sep) == [[a] + Split(s, sep)[0]] + Split(s, sep)[1..]
  {
    assert ([a] + s)[1..] == s;
  }

  lemma SplitStarts<T>(s: seq<T>, sep: T)
    ensures Split([sep] + s, sep) == [[]] + Split(s, sep)
  {
    assert ([sep] + s)[1..] == s;
  }

  lemma {:induction false} SplitAtFirst<T>(piece: seq<T>, rest: seq<T>, sep: T)
    requires sep !in piece
    ensures Split(piece + [sep] + rest, sep) == [piece] + Split(rest, sep)
  {
    if piece == [] {
      assert piece + [sep] + rest == [sep] + rest;
      SplitStarts(rest, sep);
    } else {
      assert piece + [sep] + rest == [piece[0]] + (piece[1..] + [sep] + rest);
      SplitGrows(piece[0], piece[1..] + [sep] + rest, sep);
      SplitAtFirst(piece[1..], rest, sep);
      assert [piece[0]] + piece[1..] == piece;
    }
  }

  lemma {:induction false} SplitAtNone<T>(piece: seq<T>, sep: T)
    requires sep !in piece
    ensures Split(piece, sep) == [piece]
  {
    if piece != [] {
      SplitAtNone(piece[1..], sep);
      assert [piece[0]] + piece[1..] == piece;
    }
  }

  /** Splitting undoes joining, when no piece holds the separator. */
  lemma {:induction false} SplitOfJoin<T>(pieces: seq<seq<T>>, sep: T)
    requires pieces != [] && FreeOf(pieces, sep)
    ensures Split(Join(pieces, sep), sep) == pieces
  {
    if |pieces| == 1 {
      SplitAtNone(pieces[0], sep);
      assert pieces == [pieces[0]];
    } else {
      SplitAtFirst(pieces[0], Join(pieces[1..], sep), sep);
      SplitOfJoin(pieces[1..], sep);
    }
  }

  lemma JoinAfterEmpty<T>(pieces: seq<seq<T>>, sep: T)
    requires pieces != []
    ensures Join([[]] + pieces, sep) == [sep] + Join(pieces, sep)
  {
    var all := [[]] + pieces;
    assert all[1..] == pieces;
    assert all[0] + [sep] == [sep];
  }

  lemma JoinGrows<T>(a: T, pieces: seq<seq<T>>, sep: T)
    requires pieces != []
    ensures Join([[a] + pieces[0]] + pieces[1..], sep) == [a] + Join(pieces, sep)
  {
    var all := [[a] + pieces[0]] + pieces[1..];
    assert all[1..] == pieces[1..];
    if |pieces| > 1 {
      assert ([a] + pieces[0]) + [sep] + Join(pieces[1..], sep) == [a] + (pieces[0] + [sep] + Join(pieces[1..], sep));
    }
  }

  /** Joining always undoes splitting, and no piece of a split holds the separator. */
  lemma {:induction false} JoinOfSplit<T>(s: seq<T>, sep: T)
    ensures FreeOf(Split(s, sep), sep) && Join(Split(s, sep), sep) == s
  {
    if s != [] {
      var rest := Split(s[1..], sep);
      JoinOfSplit(s[1..], sep);
      assert s == [s[0]] + s[1..];
      hide Join;
      if s[0] == sep {
        JoinAfterEmpty(rest, sep);
      } else {
        JoinGrows(s[0], rest, sep);
      }
    }
  }
}
