/**
 Consequences of the refinement: any order of up to 256 consecutive messages is put right, and the window
 bound is exact.
 */
module ReorderWindow {
  import opened Bounded
  import opened Resequencing
  import opened ReorderRefinement
  import opened FiniteSets

  ghost predicate Distinct<M>(arrivals: seq<Arrival<M>>) {
    forall i, j :: 0 <= i < j < |arrivals| ==> arrivals[i].number != arrivals[j].number
  }

  ghost predicate Within<M>(arrivals: seq<Arrival<M>>, lo: nat, hi: nat) {
    forall i :: 0 <= i < |arrivals| ==> lo <= arrivals[i].number < hi
  }

  lemma {:induction false} ReceivedIs<M>(arrivals: seq<Arrival<M>>)
    requires Distinct(arrivals)
    ensures |Received(arrivals)| == |arrivals|
    ensures forall i :: 0 <= i < |arrivals| ==>
              arrivals[i].number in Received(arrivals) && Received(arrivals)[arrivals[i].number] == arrivals[i].body
  {
    if arrivals != [] {
      var before, last := arrivals[..|arrivals| - 1], arrivals[|arrivals| - 1];
      ReceivedIs(before);
      NotReceived(before, last.number);
    }
  }

  lemma {:induction false} NotReceived<M>(arrivals: seq<Arrival<M>>, a: nat)
    requires forall i :: 0 <= i < |arrivals| ==> arrivals[i].number != a
    ensures a !in Received(arrivals)
  {
    if arrivals != [] {
      NotReceived(arrivals[..|arrivals| - 1], a);
    }
  }

  lemma {:induction false} ReceivedWithin<M>(arrivals: seq<Arrival<M>>, lo: nat, hi: nat)
    requires Within(arrivals, lo, hi)
    ensures forall a :: a in Received(arrivals) ==> lo <= a < hi
  {
    if arrivals != [] {
      ReceivedWithin(arrivals[..|arrivals| - 1], lo, hi);
    }
  }

  lemma {:induction false} ConsecutiveIsInWindow<M>(start: nat, n: nat, arrivals: seq<Arrival<M>>)
    requires n <= 256 && Distinct(arrivals) && Within(arrivals, start, start + n)
    ensures InWindow(start, arrivals)
  {
    if arrivals != [] {
      var before, a := arrivals[..|arrivals| - 1], arrivals[|arrivals| - 1].number;
      ConsecutiveIsInWindow(start, n, before);
      NotReceived(before, a);
      OriginBounds(start, before);
      PrefixEnds(Received(before), start);
    }
  }

  /** As many messages as arrived, each in the place of its number. */
  ghost predicate InPlace<M>(start: nat, arrivals: seq<Arrival<M>>, out: seq<M>) {
    && |out| == |arrivals|
    && forall i :: 0 <= i < |arrivals| ==>
         start <= arrivals[i].number < start + |out| && out[arrivals[i].number - start] == arrivals[i].body
  }

  /**
   At most 256 consecutive messages, each arriving once, in any order: all come out, in order, and nothing
   stays behind.
   */
  lemma AnyOrderComesOutSorted<M>(s: ReorderState<M>, start: nat, arrivals: seq<Arrival<M>>)
    requires s == ReorderState(map[], start % 256, Good)
    requires |arrivals| <= 256 && Distinct(arrivals) && Within(arrivals, start, start + |arrivals|)
    ensures var (s', out) := FeedAll(s, arrivals);
            InPlace(start, arrivals, out) && s' == ReorderState(map[], (start + |arrivals|) % 256, Good)
  {
    hide *;
    EmptyIsValid(s);
    ConsecutiveIsInWindow(start, |arrivals|, arrivals);
    AllComesOut(start, arrivals);
    NothingWaits(s, start, arrivals);
  }

  lemma EmptyIsValid<M>(s: ReorderState<M>)
    requires s.buffer == map[] && s.phase.Good?
    ensures s.Valid()
  {
  }

  lemma NothingWaits<M>(s: ReorderState<M>, start: nat, arrivals: seq<Arrival<M>>)
    requires s == ReorderState(map[], start % 256, Good) && s.Valid() && InWindow(start, arrivals)
    requires forall a :: a in Received(arrivals) ==> a < Next(start, arrivals)
    ensures FeedAll(s, arrivals) ==
              (ReorderState(map[], Next(start, arrivals) % 256, Good), Prefix(Received(arrivals), start))
  {
    hide *;
    OutputIsMaximalPrefix(s, start, arrivals);
    NothingLeft(FeedAll(s, arrivals).0, Received(arrivals), Next(start, arrivals), Origin(start, arrivals));
  }

  /** The gap-free run of consecutive messages is all of them, each in its place. */
  lemma AllComesOut<M>(start: nat, arrivals: seq<Arrival<M>>)
    requires Distinct(arrivals) && Within(arrivals, start, start + |arrivals|)
    ensures var out := Prefix(Received(arrivals), start);
            InPlace(start, arrivals, out) && Next(start, arrivals) == start + |arrivals|
    ensures forall a :: a in Received(arrivals) ==> a < start + |arrivals|
  {
    hide *;
    NextIs(start, arrivals);
    ConsecutiveIsFull(start, arrivals);
    FullPrefix(Received(arrivals), start, |arrivals|);
    ReceivedIs(arrivals);
    ReceivedWithin(arrivals, start, start + |arrivals|);
    PlacedByNumber(start, arrivals, Received(arrivals), Prefix(Received(arrivals), start));
  }

  lemma PlacedByNumber<M>(start: nat, arrivals: seq<Arrival<M>>, received: map<nat, M>, out: seq<M>)
    requires |out| == |arrivals|
    requires forall a :: a in received ==> start <= a < start + |out| && out[a - start] == received[a]
    requires forall i :: 0 <= i < |arrivals| ==>
               arrivals[i].number in received && received[arrivals[i].number] == arrivals[i].body
    ensures InPlace(start, arrivals, out)
  {
  }

  lemma NothingLeft<M>(s: ReorderState<M>, received: map<nat, M>, next: nat, origin: nat)
    requires Tracks(s, received, next, origin) && forall a :: a in received ==> a < next
    ensures s == ReorderState(map[], next % 256, Good)
  {
    NothingHeld(s, received, next, origin);
  }

  lemma ConsecutiveIsFull<M>(start: nat, arrivals: seq<Arrival<M>>)
    requires Distinct(arrivals) && Within(arrivals, start, start + |arrivals|)
    ensures Received(arrivals).Keys == Interval(start, |arrivals|)
  {
    ReceivedIs(arrivals);
    ReceivedWithin(arrivals, start, start + |arrivals|);
    FullSubset(Received(arrivals).Keys, Interval(start, |arrivals|));
  }

  lemma FullPrefix<M>(received: map<nat, M>, start: nat, n: nat)
    requires received.Keys == Interval(start, n)
    ensures |Prefix(received, start)| == n
    ensures forall a :: a in received ==> Prefix(received, start)[a - start] == received[a]
  {
    PrefixEnds(received, start);
    var m := |Prefix(received, start)|;
    assert start + m !in Interval(start, n);
    assert start + n !in received;
  }

  /** The missing messages `from .. to`, in order. */
  function Gap<M>(from: nat, to: nat, body: nat -> M): seq<Arrival<M>>
    requires from <= to
  {
    seq(to - from, i requires 0 <= i => Arrival(from + i, body(from + i)))
  }

  function Bodies<M>(from: nat, to: nat, body: nat -> M): seq<M>
    requires from <= to
  {
    seq(to - from, i requires 0 <= i => body(from + i))
  }

  /** `a` sits at the head of the buffer although it is one turn too far ahead. */
  ghost predicate BlockedBy<M>(s: ReorderState<M>, next: nat, origin: nat, a: nat, h: nat) {
    && s.Valid() && s.phase == ReSequencing(origin % 256) && s.nextSeq == next % 256
    && origin <= next <= h < origin + 256 <= a < next + 256
    && a - origin - 256 in s.buffer
    && (forall k :: k in s.buffer ==> a - origin - 256 <= k)
    && (forall k: U8 :: next - origin <= k < h - origin ==> k !in s.buffer)
  }

  lemma BlockedDrain<M>(s: ReorderState<M>, next: nat, origin: nat, a: nat)
    requires s.Valid() && s.phase == ReSequencing(origin % 256) && s.nextSeq == next % 256
    requires origin + 256 <= a && next < a < next + 256
    requires a - origin < 512 && a - origin - 256 in s.buffer && forall k :: k in s.buffer ==> a - origin - 256 <= k
    ensures DrainAll(s) == (s, [])
  {
    AddBelowTurn(a, origin, FirstKey(s.buffer));
    if a % 256 == next % 256 {
      ModInjective(a, next);
    }
  }

  /** While the head is ahead of its turn, messages pass only as they arrive. */
  lemma BlockedFeed<M>(s: ReorderState<M>, next: nat, origin: nat, a: nat, h: nat, body: M)
    requires BlockedBy(s, next, origin, a, h) && next < h
    ensures var (s', out) := Feed(s, Arrival(next, body));
            out == [body] && s' == s.(nextSeq := (next + 1) % 256)
  {
    SubOfMod(next, origin);
    SuccOfMod(next);
    BlockedDrain(s.(nextSeq := (next + 1) % 256), next + 1, origin, a);
  }

  lemma {:induction false} BlockedGap<M>(
      s: ReorderState<M>, next: nat, to: nat, origin: nat, a: nat, h: nat, body: nat -> M)
    requires BlockedBy(s, next, origin, a, h) && next <= to <= h
    ensures var (s', out) := FeedAll(s, Gap(next, to, body));
            out == Bodies(next, to, body) && s' == s.(nextSeq := to % 256)
  {
    hide Feed;
    if next < to {
      BlockedGap(s, next, to - 1, origin, a, h, body);
      GapSnoc(next, to, body);
      FeedAllSnoc(s, Gap(next, to - 1, body), Arrival(to - 1, body(to - 1)));
      BlockedFeed(FeedAll(s, Gap(next, to - 1, body)).0, to - 1, origin, a, h, body(to - 1));
    }
  }

  lemma GapSnoc<M>(from: nat, to: nat, body: nat -> M)
    requires from < to
    ensures Gap(from, to, body) == Gap(from, to - 1, body) + [Arrival(to - 1, body(to - 1))]
    ensures Bodies(from, to, body) == Bodies(from, to - 1, body) + [body(to - 1)]
  {
  }

  lemma BeyondWindowBlocks<M>(s: ReorderState<M>, received: map<nat, M>, next: nat, origin: nat, h: nat, a: Arrival<M>)
    requires Tracks(s, received, next, origin) && next < h && h in received
    requires forall x :: x in received && next <= x ==> h <= x
    requires origin + 256 <= a.number < next + 256
    ensures Feed(s, a).1 == [] && BlockedBy(Feed(s, a).0, next, origin, a.number, h)
  {
    assert h - origin in s.buffer;
    assert (a.number - 256) % 256 == a.number % 256;
    SubOfMod(a.number - 256, origin);
    if a.number % 256 == next % 256 {
      ModInjective(a.number, next);
    }
    ProcessedKeepsValid(s, a.number % 256, a.body);
  }

  lemma {:induction false} FeedAllCons<M>(s: ReorderState<M>, a: Arrival<M>, rest: seq<Arrival<M>>)
    requires s.Valid()
    ensures var (s1, out1) := Feed(s, a);
            FeedAll(s, [a] + rest) == (FeedAll(s1, rest).0, out1 + FeedAll(s1, rest).1)
  {
    if rest == [] {
      FeedAllSnoc(s, [], a);
      assert [a] + rest == [] + [a];
      assert [] + Feed(s, a).1 == Feed(s, a).1 + [];
    } else {
      var rest', last := rest[..|rest| - 1], rest[|rest| - 1];
      assert rest == rest' + [last];
      FeedAllCons(s, a, rest');
      ConsSnoc(s, a, rest', last);
    }
  }

  lemma ConsSnoc<M>(s: ReorderState<M>, a: Arrival<M>, rest: seq<Arrival<M>>, last: Arrival<M>)
    requires s.Valid()
    requires FeedAll(s, [a] + rest) == (FeedAll(Feed(s, a).0, rest).0, Feed(s, a).1 + FeedAll(Feed(s, a).0, rest).1)
    ensures FeedAll(s, [a] + (rest + [last]))
         == (FeedAll(Feed(s, a).0, rest + [last]).0, Feed(s, a).1 + FeedAll(Feed(s, a).0, rest + [last]).1)
  {
    hide *;
    FeedAllSnoc(s, [a] + rest, last);
    FeedAllSnoc(Feed(s, a).0, rest, last);
    assert [a] + (rest + [last]) == ([a] + rest) + [last];
    var (s1, out1) := Feed(s, a);
    var (s2, out2) := FeedAll(s1, rest);
    var out3 := Feed(s2, last).1;
    assert (out1 + out2) + out3 == out1 + (out2 + out3);
  }

  /** One more message of the gap, not the last. */
  lemma TrackedStep<M>(s: ReorderState<M>, received: map<nat, M>, next: nat, origin: nat, h: nat, body: M)
    requires Tracks(s, received, next, origin) && s.phase.ReSequencing?
    requires h in received && next + 1 < h && next !in received && next + 1 !in received
    ensures var (s', out) := Feed(s, Arrival(next, body));
            && out == [body]
            && Tracks(s', received[next := body], next + 1, origin) && s'.phase.ReSequencing?
  {
    var after := received[next := body];
    FeedTracks(s, received, next, origin, Arrival(next, body));
    assert Prefix(after, next + 1) == [];
    assert Prefix(after, next) == [after[next]] + Prefix(after, next + 1);
    NothingHeld(Feed(s, Arrival(next, body)).0, after, next + 1, origin);
    assert h in after;
  }

  /** What comes out from a number on does not depend on what lies below it. */
  lemma {:induction false} PrefixAbove<M>(received: map<nat, M>, from: nat, below: nat, body: M)
    requires below < from
    ensures Prefix(received[below := body], from) == Prefix(received, from)
    decreases |Prefix(received, from)|
  {
    hide Above;
    if from in received {
      assert Prefix(received, from) == [received[from]] + Prefix(received, from + 1);
      PrefixAbove(received, from + 1, below, body);
    }
  }

  lemma TrackedLast<M>(s: ReorderState<M>, received: map<nat, M>, next: nat, origin: nat, body: M)
    requires Tracks(s, received, next, origin) && s.phase.ReSequencing?
    requires next !in received && next + 1 in received
    ensures Feed(s, Arrival(next, body)).1 == [body] + Prefix(received, next + 1)
  {
    FeedTracks(s, received, next, origin, Arrival(next, body));
    PrefixAbove(received, next + 1, next, body);
  }

  lemma BodiesCons<M>(from: nat, to: nat, body: nat -> M)
    requires from < to
    ensures Gap(from, to, body) == [Arrival(from, body(from))] + Gap(from + 1, to, body)
    ensures Bodies(from, to, body) == [body(from)] + Bodies(from + 1, to, body)
  {
  }

  /** Inside the window, filling the gap releases all that follows it without a gap. */
  lemma {:induction false} TrackedGapReleases<M>(
      s: ReorderState<M>, received: map<nat, M>, next: nat, origin: nat, h: nat, body: nat -> M)
    requires Tracks(s, received, next, origin) && s.phase.ReSequencing?
    requires next < h && h in received && forall x :: x in received && next <= x ==> h <= x
    ensures FeedAll(s, Gap(next, h, body)).1 == Bodies(next, h, body) + Prefix(received, h)
    decreases h - next
  {
    hide Feed, FeedAll, Prefix, Gap, Bodies;
    assert s.Valid();
    var first := Arrival(next, body(next));
    BodiesCons(next, h, body);
    FeedAllCons(s, first, Gap(next + 1, h, body));
    if next + 1 == h {
      TrackedLast(s, received, next, origin, body(next));
      NoGap(Feed(s, first).0, h, body);
    } else {
      TrackedStep(s, received, next, origin, h, body(next));
      PrefixAbove(received, h, next, body(next));
      TrackedGapReleases(Feed(s, first).0, received[next := body(next)], next + 1, origin, h, body);
      assert [body(next)] + (Bodies(next + 1, h, body) + Prefix(received, h))
          == [body(next)] + Bodies(next + 1, h, body) + Prefix(received, h);
    }
  }

  lemma NoGap<M>(s: ReorderState<M>, h: nat, body: nat -> M)
    requires s.Valid()
    ensures FeedAll(s, Gap(h, h, body)).1 == [] && Bodies(h, h, body) == []
  {
    assert Gap(h, h, body) == [];
  }

  /**
   The window bound is exact. Take a resequencer waiting for `next` while holding messages from `h` on,
   and let one more message `a` arrive above `h`. Filling the gap then releases, after the gap's own
   messages, all that now follows them without a gap if `a` was less than one turn above the origin of the
   keys, not merely above `next`; otherwise it releases nothing that was held, although `h` is next.
   */
  lemma WindowBoundIsExact<M>(
      s: ReorderState<M>, received: map<nat, M>, next: nat, origin: nat, h: nat, a: Arrival<M>, body: nat -> M)
    requires Tracks(s, received, next, origin) && next < h && h in received
    requires forall x :: x in received && next <= x ==> h <= x
    requires a.number !in received && h < a.number < next + 256
    ensures var held := Prefix(received[a.number := a.body], h);
            && held != []
            && FeedAll(s, [a] + Gap(next, h, body)).1 ==
                 Bodies(next, h, body) + if a.number < origin + 256 then held else []
  {
    FeedAllCons(s, a, Gap(next, h, body));
    assert h - origin in s.buffer;
    if a.number < origin + 256 {
      EarlyTracks(s, received, next, origin, a.number, a.body);
      hide FeedAll, Gap, Bodies;
      TrackedGapReleases(Feed(s, a).0, received[a.number := a.body], next, origin, h, body);
    } else {
      hide FeedAll, Gap, Bodies;
      BeyondWindowBlocks(s, received, next, origin, h, a);
      BlockedGap(Feed(s, a).0, next, h, origin, a.number, h, body);
    }
  }
}
