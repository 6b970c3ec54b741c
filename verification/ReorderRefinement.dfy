/**
 The resequencer refines an unbounded reorder buffer. Messages carry unbounded numbers here; the
 resequencer sees them modulo 256. As long as each arrival lies in the window `[next, origin + 256)`,
 where `origin` is the number its keys are counted from, what has come out is the longest gap-free
 prefix of what has arrived.
 */
module ReorderRefinement {
  import opened Bounded
  import opened Resequencing

  datatype Arrival<M> = Arrival(number: nat, body: M)

  /** Take messages out until none is due. */
  function DrainAll<M>(s: ReorderState<M>): (r: (ReorderState<M>, seq<M>))
    requires s.Valid()
    ensures r.0.Valid()
    decreases |s.buffer|
  {
    DrainedKeepsValid(s);
    var (s', d) := Drained(s);
    if d.Message? then
      var (s'', out) := DrainAll(s');
      (s'', [d.message] + out)
    else (s', [])
  }

  /** What a node does with one arrival: an in-sequence message is followed by everything it was holding up. */
  function Feed<M>(s: ReorderState<M>, a: Arrival<M>): (r: (ReorderState<M>, seq<M>))
    requires s.Valid()
    ensures r.0.Valid()
  {
    ProcessedKeepsValid(s, a.number % 256, a.body);
    var (s', p) := Processed(s, a.number % 256, a.body);
    if p.MessageNextInSequence? then
      var (s'', out) := DrainAll(s');
      (s'', [p.message] + out)
    else (s', [])
  }

  function FeedAll<M>(s: ReorderState<M>, arrivals: seq<Arrival<M>>): (r: (ReorderState<M>, seq<M>))
    requires s.Valid()
    ensures r.0.Valid()
  {
    if arrivals == [] then (s, [])
    else
      var (s', out) := FeedAll(s, arrivals[..|arrivals| - 1]);
      var (s'', more) := Feed(s', arrivals[|arrivals| - 1]);
      (s'', out + more)
  }

  lemma FeedAllSnoc<M>(s: ReorderState<M>, before: seq<Arrival<M>>, a: Arrival<M>)
    requires s.Valid()
    ensures var (s', out) := FeedAll(s, before);
            FeedAll(s, before + [a]) == (Feed(s', a).0, out + Feed(s', a).1)
  {
    assert (before + [a])[..|before|] == before;
  }

  /** Everything that has arrived, by number. */
  ghost function Received<M>(arrivals: seq<Arrival<M>>): map<nat, M> {
    if arrivals == [] then map[]
    else Received(arrivals[..|arrivals| - 1])[arrivals[|arrivals| - 1].number := arrivals[|arrivals| - 1].body]
  }

  /** The reference: the longest gap-free run of received messages from `from` on. */
  ghost function Prefix<M>(received: map<nat, M>, from: nat): seq<M>
    decreases Above(received, from)
  {
    if from in received then
      assert from in Above(received, from);
      [received[from]] + Prefix(received, from + 1)
    else []
  }

  ghost function Above<M>(received: map<nat, M>, from: nat): set<nat> {
    set a | a in received && from <= a
  }

  /** The number expected next by the reference. */
  ghost function Next<M>(start: nat, arrivals: seq<Arrival<M>>): nat {
    start + |Prefix(Received(arrivals), start)|
  }

  ghost predicate Waiting<M>(start: nat, arrivals: seq<Arrival<M>>) {
    exists a :: a in Received(arrivals) && Next(start, arrivals) <= a
  }

  /** The number keys are counted from: fixed when messages start to wait, free to move once none does. */
  ghost function Origin<M>(start: nat, arrivals: seq<Arrival<M>>): nat {
    if !Waiting(start, arrivals) then Next(start, arrivals)
    else
      Origin(start, arrivals[..|arrivals| - 1])
  }

  /** Every arrival is new, not yet passed, and less than one turn above the origin. */
  ghost predicate InWindow<M>(start: nat, arrivals: seq<Arrival<M>>) {
    arrivals != [] ==>
      var before, a := arrivals[..|arrivals| - 1], arrivals[|arrivals| - 1].number;
      && InWindow(start, before)
      && a !in Received(before)
      && Next(start, before) <= a < Origin(start, before) + 256
  }

  /** The resequencer's value for what was received, the next number due, and the origin of its keys. */
  ghost predicate Tracks<M>(s: ReorderState<M>, received: map<nat, M>, next: nat, origin: nat) {
    && s.Valid()
    && s.nextSeq == next % 256
    && origin <= next
    && (s.phase.ReSequencing? ==> s.phase.offset == origin % 256)
    && (forall a :: a in received && next <= a ==> a < origin + 256)
    && (forall k: U8 :: k in s.buffer <==> origin + k in received && next <= origin + k)
    && (forall k: U8 :: k in s.buffer ==> s.buffer[k] == received[origin + k])
  }

  /** The head of the buffer is due exactly when the next number has been received, and then it is that number's. */
  lemma HeadTracks<M>(s: ReorderState<M>, received: map<nat, M>, next: nat, origin: nat)
    requires Tracks(s, received, next, origin) && s.phase.ReSequencing?
    ensures var key := FirstKey(s.buffer);
            && (Add8(key, s.phase.offset) == s.nextSeq <==> next in received)
            && (next in received ==> key == next - origin)
  {
    var key := FirstKey(s.buffer);
    AddOfMod(origin, key);
    if next in received {
      assert next - origin in s.buffer;
    } else if (origin + key) % 256 == next % 256 {
      ModInjective(origin + key, next);
      assert false;
    }
  }

  /** A message comes out exactly when the next due number has been received. */
  lemma DrainTracks<M>(s: ReorderState<M>, received: map<nat, M>, next: nat, origin: nat)
    requires Tracks(s, received, next, origin)
    ensures var (s', d) := Drained(s);
            && (d.Message? <==> next in received)
            && (d.Message? ==> d.message == received[next] && Tracks(s', received, next + 1, origin))
            && (!d.Message? ==> s' == s)
  {
    DrainedKeepsValid(s);
    if next in received {
      assert next - origin in s.buffer;
    }
    if s.phase.ReSequencing? {
      HeadTracks(s, received, next, origin);
      SuccOfMod(next);
    }
    hide FirstKey, Add8, Succ8;
  }

  lemma {:induction false} DrainAllTracks<M>(s: ReorderState<M>, received: map<nat, M>, next: nat, origin: nat)
    requires Tracks(s, received, next, origin)
    ensures var (s', out) := DrainAll(s);
            && out == Prefix(received, next)
            && next + |out| !in received
            && Tracks(s', received, next + |out|, origin)
    decreases |s.buffer|
  {
    DrainTracks(s, received, next, origin);
    if next in received {
      DrainedKeepsValid(s);
      DrainAllTracks(Drained(s).0, received, next + 1, origin);
    }
  }

  /** An arrival that is due passes straight through. */
  lemma DueTracks<M>(s: ReorderState<M>, received: map<nat, M>, next: nat, origin: nat, body: M)
    requires Tracks(s, received, next, origin) && next !in received
    requires next < origin + 256
    ensures var (s', p) := Processed(s, next % 256, body);
            && p == MessageNextInSequence(body)
            && Tracks(s', received[next := body], next + 1, origin)
  {
    SubOfMod(next, origin);
    SuccOfMod(next);
  }

  /** An early arrival is held. */
  lemma EarlyTracks<M>(s: ReorderState<M>, received: map<nat, M>, next: nat, origin: nat, a: nat, body: M)
    requires Tracks(s, received, next, origin) && (s.phase.Good? ==> origin == next)
    requires a !in received && next < a < origin + 256
    ensures var (s', p) := Processed(s, a % 256, body);
            && p.OutOfSequenceMessageInserted?
            && Tracks(s', received[a := body], next, origin)
  {
    SubOfMod(a, origin);
    ProcessedKeepsValid(s, a % 256, body);
    if a % 256 == next % 256 {
      ModInjective(a, next);
    }
  }

  lemma PrefixCons<M>(received: map<nat, M>, from: nat)
    ensures Prefix(received, from) == if from in received then [received[from]] + Prefix(received, from + 1) else []
  {
  }

  lemma FeedDue<M>(s: ReorderState<M>, received: map<nat, M>, next: nat, origin: nat, body: M)
    requires Tracks(s, received, next, origin) && next !in received && next < origin + 256
    ensures var (s', out) := Feed(s, Arrival(next, body));
            var received' := received[next := body];
            && out == Prefix(received', next)
            && next + |out| !in received'
            && Tracks(s', received', next + |out|, origin)
  {
    var received' := received[next := body];
    assert s.Valid();
    ProcessedKeepsValid(s, next % 256, body);
    hide Tracks, Processed, Prefix, DrainAll;
    var (s1, p) := Processed(s, next % 256, body);
    DueTracks(s, received, next, origin, body);
    DrainAllTracks(s1, received', next + 1, origin);
    PrefixCons(received', next);
    assert Feed(s, Arrival(next, body)) == (DrainAll(s1).0, [body] + DrainAll(s1).1);
  }

  /** One arrival inside the window. */
  lemma FeedTracks<M>(s: ReorderState<M>, received: map<nat, M>, next: nat, origin: nat, a: Arrival<M>)
    requires Tracks(s, received, next, origin) && next !in received && (s.phase.Good? ==> origin == next)
    requires a.number !in received && next <= a.number < origin + 256
    ensures var (s', out) := Feed(s, a);
            var received' := received[a.number := a.body];
            && out == Prefix(received', next)
            && next + |out| !in received'
            && Tracks(s', received', next + |out|, origin)
  {
    assert s.Valid();
    hide Tracks, Processed, Prefix, DrainAll;
    if a.number == next {
      hide Feed;
      FeedDue(s, received, next, origin, a.body);
    } else {
      EarlyTracks(s, received, next, origin, a.number, a.body);
      PrefixCons(received[a.number := a.body], next);
    }
  }

  /** New messages at or above the next due number extend the reference's output. */
  lemma {:induction false} PrefixGrows<M>(received: map<nat, M>, from: nat, a: nat, body: M)
    requires a !in received && from + |Prefix(received, from)| <= a
    ensures Prefix(received[a := body], from)
         == Prefix(received, from) + Prefix(received[a := body], from + |Prefix(received, from)|)
    decreases |Prefix(received, from)|
  {
    hide Above;
    if from in received {
      var rest, longer := Prefix(received, from + 1), received[a := body];
      assert Prefix(received, from) == [received[from]] + rest;
      PrefixGrows(received, from + 1, a, body);
      assert from + 1 + |rest| == from + |Prefix(received, from)|;
      assert from != a && Prefix(longer, from) == [received[from]] + Prefix(longer, from + 1);
    } else {
      assert Prefix(received, from) == [];
    }
  }

  /** The reference after one more arrival. */
  lemma NextGrows<M>(start: nat, before: seq<Arrival<M>>, a: Arrival<M>)
    requires a.number !in Received(before) && Next(start, before) <= a.number
    ensures var received' := Received(before)[a.number := a.body];
            && Received(before + [a]) == received'
            && Prefix(received', start) == Prefix(Received(before), start) + Prefix(received', Next(start, before))
            && Next(start, before + [a]) == Next(start, before) + |Prefix(received', Next(start, before))|
  {
    assert (before + [a])[..|before|] == before;
    PrefixGrows(Received(before), start, a.number, a.body);
  }

  lemma {:induction false} OriginBounds<M>(start: nat, arrivals: seq<Arrival<M>>)
    requires InWindow(start, arrivals)
    ensures start <= Origin(start, arrivals) <= Next(start, arrivals)
    ensures Next(start, arrivals) !in Received(arrivals)
  {
    hide *;
    PrefixEnds(Received(arrivals), start);
    NextIs(start, arrivals);
    OriginMoves(start, arrivals);
    if arrivals != [] {
      var before, a := arrivals[..|arrivals| - 1], arrivals[|arrivals| - 1];
      assert arrivals == before + [a];
      WindowSteps(start, before, a);
      OriginBounds(start, before);
      NextGrows(start, before, a);
    } else {
      NothingIsWaiting(start, arrivals);
    }
  }

  lemma NextIs<M>(start: nat, arrivals: seq<Arrival<M>>)
    ensures Next(start, arrivals) == start + |Prefix(Received(arrivals), start)|
  {
  }

  lemma NothingIsWaiting<M>(start: nat, arrivals: seq<Arrival<M>>)
    requires arrivals == []
    ensures !Waiting(start, arrivals)
  {
  }

  lemma WindowSteps<M>(start: nat, before: seq<Arrival<M>>, a: Arrival<M>)
    requires InWindow(start, before + [a])
    ensures InWindow(start, before) && a.number !in Received(before) && Next(start, before) <= a.number
  {
    assert (before + [a])[..|before|] == before;
  }

  lemma {:induction false} PrefixEnds<M>(received: map<nat, M>, from: nat)
    ensures from + |Prefix(received, from)| !in received
    ensures forall i :: from <= i < from + |Prefix(received, from)| ==>
              i in received && Prefix(received, from)[i - from] == received[i]
    decreases |Prefix(received, from)|
  {
    hide Above;
    if from in received {
      assert Prefix(received, from) == [received[from]] + Prefix(received, from + 1);
      PrefixEnds(received, from + 1);
    }
  }

  lemma NothingHeld<M>(s: ReorderState<M>, received: map<nat, M>, next: nat, origin: nat)
    requires Tracks(s, received, next, origin)
    ensures s.phase.Good? <==> !exists a :: a in received && next <= a
  {
    if a: nat :| a in received && next <= a {
      assert a - origin in s.buffer;
    }
    if s.phase.ReSequencing? {
      var k :| k in s.buffer;
      assert origin + k in received;
    }
  }

  /** The refinement: inside the window, what has come out is the longest gap-free prefix of what has arrived. */
  lemma {:induction false} OutputIsMaximalPrefix<M>(s: ReorderState<M>, start: nat, arrivals: seq<Arrival<M>>)
    requires s == ReorderState(map[], start % 256, Good)
    requires InWindow(start, arrivals)
    ensures var (s', out) := FeedAll(s, arrivals);
            && out == Prefix(Received(arrivals), start)
            && (s'.phase.Good? <==> !Waiting(start, arrivals))
            && Tracks(s', Received(arrivals), Next(start, arrivals), Origin(start, arrivals))
  {
    if arrivals != [] {
      var before, a := arrivals[..|arrivals| - 1], arrivals[|arrivals| - 1];
      assert arrivals == before + [a];
      OutputIsMaximalPrefix(s, start, before);
      OriginBounds(start, before);
      FeedKeepsMaximal(FeedAll(s, before).0, start, before, a);
    }
  }

  /** What comes out with one more arrival extends what came out before it to the new longest gap-free run. */
  lemma FeedExtends<M>(s: ReorderState<M>, received: map<nat, M>, start: nat, origin: nat, a: Arrival<M>)
    requires var next := start + |Prefix(received, start)|;
             && Tracks(s, received, next, origin) && (s.phase.Good? ==> origin == next) && next !in received
             && a.number !in received && next <= a.number < origin + 256
    requires s.Valid()
    ensures var (s', more) := Feed(s, a);
            var out := Prefix(received[a.number := a.body], start);
            Prefix(received, start) + more == out && Tracks(s', received[a.number := a.body], start + |out|, origin)
  {
    hide *;
    PrefixGrows(received, start, a.number, a.body);
    FeedTracks(s, received, start + |Prefix(received, start)|, origin, a);
  }

  lemma ReceivedSnoc<M>(start: nat, before: seq<Arrival<M>>, a: Arrival<M>)
    ensures Received(before + [a]) == Received(before)[a.number := a.body]
    ensures Next(start, before + [a]) == start + |Prefix(Received(before + [a]), start)|
    ensures Next(start, before) == start + |Prefix(Received(before), start)|
  {
    assert (before + [a])[..|before|] == before;
  }

  /** One more arrival, the keys still counted from where they were. */
  lemma FeedTracksReference<M>(s: ReorderState<M>, start: nat, before: seq<Arrival<M>>, a: Arrival<M>)
    requires Tracks(s, Received(before), Next(start, before), Origin(start, before)) && s.Valid()
    requires s.phase.Good? ==> !Waiting(start, before)
    requires Next(start, before) !in Received(before)
    requires a.number !in Received(before) && Next(start, before) <= a.number < Origin(start, before) + 256
    ensures var (s', more) := Feed(s, a);
            && Prefix(Received(before), start) + more == Prefix(Received(before + [a]), start)
            && Tracks(s', Received(before + [a]), Next(start, before + [a]), Origin(start, before))
  {
    hide *;
    OriginMoves(start, before);
    ReceivedSnoc(start, before, a);
    FeedExtends(s, Received(before), start, Origin(start, before), a);
  }

  lemma FeedKeepsMaximal<M>(s: ReorderState<M>, start: nat, before: seq<Arrival<M>>, a: Arrival<M>)
    requires Tracks(s, Received(before), Next(start, before), Origin(start, before))
    requires s.phase.Good? <==> !Waiting(start, before)
    requires Next(start, before) !in Received(before)
    requires a.number !in Received(before) && Next(start, before) <= a.number < Origin(start, before) + 256
    ensures var (s', more) := Feed(s, a);
            && Prefix(Received(before), start) + more == Prefix(Received(before + [a]), start)
            && (s'.phase.Good? <==> !Waiting(start, before + [a]))
            && Tracks(s', Received(before + [a]), Next(start, before + [a]), Origin(start, before + [a]))
  {
    assert s.Valid();
    hide *;
    FeedTracksReference(s, start, before, a);
    assert (before + [a])[..|before + [a]| - 1] == before;
    NewOrigin(Feed(s, a).0, start, before + [a]);
  }

  lemma OriginMoves<M>(start: nat, arrivals: seq<Arrival<M>>)
    ensures Origin(start, arrivals) ==
              if !Waiting(start, arrivals) || arrivals == [] then Next(start, arrivals)
              else Origin(start, arrivals[..|arrivals| - 1])
  {
  }

  /** With nothing waiting the origin is free to move. */
  lemma NewOrigin<M>(s: ReorderState<M>, start: nat, arrivals: seq<Arrival<M>>)
    requires arrivals != []
    requires Tracks(s, Received(arrivals), Next(start, arrivals), Origin(start, arrivals[..|arrivals| - 1]))
    ensures s.phase.Good? <==> !Waiting(start, arrivals)
    ensures Tracks(s, Received(arrivals), Next(start, arrivals), Origin(start, arrivals))
  {
    NothingHeld(s, Received(arrivals), Next(start, arrivals), Origin(start, arrivals[..|arrivals| - 1]));
  }
}
