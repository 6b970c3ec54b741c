/**
 Linear probing, by which metric aliases and device ids are found: from a hash upwards, one by one, to
 the first number that is not taken, in arithmetic that wraps at `turn`.
 */
module Probing {
  import opened Bounded
  import opened Options
  import opened FiniteSets

  function Candidate(turn: nat, start: nat, k: nat): nat
    requires turn > 0
  {
    (start + k) % turn
  }

  lemma CandidatesDiffer(turn: nat, start: nat, i: nat, j: nat)
    requires 0 < turn && i < j < i + turn
    ensures Candidate(turn, start, i) != Candidate(turn, start, j)
  {
    var q := (start + i) / turn;
    var r := (start + i) % turn;
    var d := j - i;
    if r + d < turn {
      ModUnique(start + j, turn, q, r + d);
    } else {
      ModUnique(start + j, turn, q + 1, r + d - turn);
    }
  }

  /** Pigeonhole: at most `|taken|` candidates in a row can be taken. */
  lemma {:induction false} TakenInARow(taken: set<nat>, turn: nat, start: nat, n: nat)
    requires 0 < turn && n <= turn
    requires forall k: nat :: k < n ==> Candidate(turn, start, k) in taken
    ensures n <= |taken|
    decreases n
  {
    hide Candidate;
    if n > 0 {
      var last := Candidate(turn, start, n - 1);
      forall k: nat | k < n - 1 ensures Candidate(turn, start, k) in taken - {last} {
        CandidatesDiffer(turn, start, k, n - 1);
      }
      TakenInARow(taken - {last}, turn, start, n - 1);
    }
  }

  /** How many candidates are passed over. */
  function Passed(taken: set<nat>, turn: nat, start: nat, k: nat := 0): (m: nat)
    requires |taken| < turn && k <= turn
    requires forall j: nat :: j < k ==> Candidate(turn, start, j) in taken
    ensures m <= |taken| && Candidate(turn, start, m) !in taken
    ensures forall j: nat :: j < m ==> Candidate(turn, start, j) in taken
    decreases |taken| + 1 - k
  {
    TakenInARow(taken, turn, start, k);
    if Candidate(turn, start, k) !in taken then k else Passed(taken, turn, start, k + 1)
  }

  /** The number found. */
  function Probed(taken: set<nat>, turn: nat, start: nat): (a: nat)
    requires |taken| < turn
    ensures a !in taken && a < turn
  {
    Candidate(turn, start, Passed(taken, turn, start))
  }

  lemma ProbedIs(taken: set<nat>, turn: nat, start: nat, k: nat)
    requires |taken| < turn && Candidate(turn, start, k) !in taken
    requires forall j: nat :: j < k ==> Candidate(turn, start, j) in taken
    ensures Probed(taken, turn, start) == Candidate(turn, start, k)
  {
    hide Candidate;
    var m := Passed(taken, turn, start);
    assert !(m < k) && !(k < m);
  }

  /** The loop: it tries at most one candidate more than are taken, and finds the first that is free. */
  method Probe(taken: set<nat>, turn: nat, start: nat) returns (a: nat, tried: nat)
    requires |taken| < turn && start < turn
    ensures a == Probed(taken, turn, start) && tried <= |taken| + 1
  {
    a, tried := start, 1;
    ModUnique(start, turn, 0, start);
    while a in taken
      invariant tried >= 1 && a == Candidate(turn, start, tried - 1)
      invariant forall j: nat :: j < tried - 1 ==> Candidate(turn, start, j) in taken
      invariant tried - 1 <= Passed(taken, turn, start)
      decreases |taken| + 1 - tried
    {
      NextCandidate(turn, start, tried - 1);
      a := (a + 1) % turn;
      tried := tried + 1;
    }
  }

  lemma NextCandidate(turn: nat, start: nat, k: nat)
    requires turn > 0
    ensures (Candidate(turn, start, k) + 1) % turn == Candidate(turn, start, k + 1)
  {
    var q := (start + k) / turn;
    var r := (start + k) % turn;
    if r + 1 == turn {
      ModUnique(start + k + 1, turn, q + 1, 0);
      ModUnique(turn, turn, 1, 0);
    } else {
      ModUnique(start + k + 1, turn, q, r + 1);
      ModUnique(r + 1, turn, 0, r + 1);
    }
  }

  // Probing a block without leaving it

  /** The first free place in `[h, n)`. */
  function Parked(taken: set<nat>, n: nat, h: nat): (c: Option<nat>)
    ensures c.Some? ==> h <= c.value < n && c.value !in taken && forall x :: h <= x < c.value ==> x in taken
    ensures c.None? ==> forall x :: h <= x < n ==> x in taken
    decreases n - h
  {
    if h >= n then None else if h !in taken then Some(h) else Parked(taken, n, h + 1)
  }

  function Elements(s: seq<nat>): set<nat> {
    set x | x in s
  }

  /** Places taken one after the other, as long as there is one for each. */
  function AllParked(n: nat, hs: seq<nat>): Option<seq<nat>> {
    if hs == [] then Some([])
    else
      var before := AllParked(n, hs[..|hs| - 1]);
      if before.None? then None
      else
        var c := Parked(Elements(before.value), n, hs[|hs| - 1]);
        if c.None? then None else Some(before.value + [c.value])
  }

  function CountAtLeast(s: seq<nat>, j: nat): nat {
    if s == [] then 0 else CountAtLeast(s[..|s| - 1], j) + if s[|s| - 1] >= j then 1 else 0
  }

  /** For every place, no more want a place from there on than there are. */
  ghost predicate Roomy(n: nat, hs: seq<nat>) {
    forall j: nat :: j <= n ==> CountAtLeast(hs, j) <= n - j
  }

  /** Everyone parks at or above where they wanted to, and everything in between is taken. */
  ghost predicate WellParked(n: nat, hs: seq<nat>, cs: seq<nat>) {
    && |cs| == |hs|
    && (forall i, j :: 0 <= i < j < |cs| ==> cs[i] != cs[j])
    && (forall i :: 0 <= i < |cs| ==> hs[i] <= cs[i] < n)
    && (forall i, x :: 0 <= i < |cs| && hs[i] <= x <= cs[i] ==> x in cs)
  }

  lemma {:induction false} ParkingIsWell(n: nat, hs: seq<nat>)
    requires AllParked(n, hs).Some?
    ensures WellParked(n, hs, AllParked(n, hs).value)
  {
    if hs != [] {
      var before := hs[..|hs| - 1];
      ParkingIsWell(n, before);
      var bs := AllParked(n, before).value;
      var cs := AllParked(n, hs).value;
      var c := cs[|cs| - 1];
      assert cs == bs + [c] && c == Parked(Elements(bs), n, hs[|hs| - 1]).value;
      forall i, x | 0 <= i < |cs| && hs[i] <= x <= cs[i] ensures x in cs {
        if i < |bs| {
          assert x in bs;
        } else if x != c {
          assert x in Elements(bs);
        }
      }
    }
  }

  lemma {:induction false} CountGrows(s: seq<nat>, t: seq<nat>, j: nat)
    requires |s| == |t| && forall i :: 0 <= i < |s| && s[i] >= j ==> t[i] >= j
    ensures CountAtLeast(s, j) <= CountAtLeast(t, j)
  {
    if s != [] {
      CountGrows(s[..|s| - 1], t[..|t| - 1], j);
    }
  }

  ghost function AtLeast(s: seq<nat>, j: nat): set<nat> {
    set x | x in s && x >= j
  }

  lemma AtLeastSnoc(s: seq<nat>, last: nat, j: nat)
    ensures AtLeast(s + [last], j) == if last >= j then AtLeast(s, j) + {last} else AtLeast(s, j)
    ensures last !in s ==> last !in AtLeast(s, j)
  {
  }

  lemma FrontDiffers(s: seq<nat>)
    requires s != [] && forall i, k :: 0 <= i < k < |s| ==> s[i] != s[k]
    ensures var before := s[..|s| - 1];
            s[|s| - 1] !in before && forall i, k :: 0 <= i < k < |before| ==> before[i] != before[k]
  {
  }

  /** Counting distinct numbers is measuring a set. */
  lemma {:induction false} CountIsSize(s: seq<nat>, j: nat)
    requires forall i, k :: 0 <= i < k < |s| ==> s[i] != s[k]
    ensures CountAtLeast(s, j) == |AtLeast(s, j)|
  {
    if s != [] {
      var before, last := s[..|s| - 1], s[|s| - 1];
      hide CountAtLeast, AtLeast;
      FrontDiffers(s);
      CountIsSize(before, j);
      assert s == before + [last];
      CountSnoc(before, last, j);
      AtLeastSnoc(before, last, j);
    }
  }

  lemma RoomIsNecessary(n: nat, hs: seq<nat>)
    requires AllParked(n, hs).Some?
    ensures Roomy(n, hs)
  {
    var cs := AllParked(n, hs).value;
    ParkingIsWell(n, hs);
    forall j: nat | j <= n ensures CountAtLeast(hs, j) <= n - j {
      CountGrows(hs, cs, j);
      CountIsSize(cs, j);
      SubsetSize(AtLeast(cs, j), Interval(j, n - j));
    }
  }

  /** The lower end of the run of taken places that ends at `j`. */
  function LowerEnd(taken: set<nat>, j: nat): (e: nat)
    ensures e <= j && (e > 0 ==> e - 1 !in taken) && forall x :: e <= x < j ==> x in taken
  {
    if j > 0 && j - 1 in taken then LowerEnd(taken, j - 1) else j
  }

  /** If someone finds no place, there is a place from which on too many want one. */
  lemma {:induction false} RoomIsSufficient(n: nat, hs: seq<nat>)
    requires (forall i :: 0 <= i < |hs| ==> hs[i] < n) && Roomy(n, hs)
    ensures AllParked(n, hs).Some?
  {
    if hs != [] {
      var before, last := hs[..|hs| - 1], hs[|hs| - 1];
      forall j: nat | j <= n ensures CountAtLeast(before, j) <= n - j {
        assert CountAtLeast(hs, j) <= n - j;
      }
      RoomIsSufficient(n, before);
      ParkingIsWell(n, before);
      var cs := AllParked(n, before).value;
      assert hs == before + [last];
      if Parked(Elements(cs), n, last).None? {
        TooManyFrom(n, before, cs, last);
      }
    }
  }

  /** One who finds no place makes it too many, from the lower end of the taken run on. */
  lemma TooManyFrom(n: nat, hs: seq<nat>, cs: seq<nat>, h: nat)
    requires WellParked(n, hs, cs) && h < n && Parked(Elements(cs), n, h).None?
    ensures !Roomy(n, hs + [h])
  {
    var e := LowerEnd(Elements(cs), h);
    assert e > 0 ==> e - 1 !in cs;
    assert forall i :: 0 <= i < |cs| && cs[i] >= e ==> hs[i] >= e;
    CountGrows(cs, hs, e);
    CountIsSize(cs, e);
    forall x | x in Interval(e, n - e) ensures x in AtLeast(cs, e) {
      assert x in Elements(cs);
    }
    SubsetSize(Interval(e, n - e), AtLeast(cs, e));
    CountSnoc(hs, h, e);
  }

  lemma CountSnoc(s: seq<nat>, last: nat, j: nat)
    ensures CountAtLeast(s + [last], j) == CountAtLeast(s, j) + if last >= j then 1 else 0
  {
    assert (s + [last])[..|s|] == s;
  }

  /** All find a place exactly when there is room from every place on. */
  lemma ParkingTheorem(n: nat, hs: seq<nat>)
    requires forall i :: 0 <= i < |hs| ==> hs[i] < n
    ensures AllParked(n, hs).Some? <==> Roomy(n, hs)
  {
    if AllParked(n, hs).Some? {
      RoomIsNecessary(n, hs);
    } else if Roomy(n, hs) {
      RoomIsSufficient(n, hs);
    }
  }
}
