/**
 From the edge's counter to the application's stores: what an edge node numbers after a birth is
 applied by the host in the order of numbering, in whatever order it arrives.
 */
module Delivery {
  import opened Bounded
  import opened Options
  import opened Resequencing
  import opened ReorderRefinement
  import opened HostNode
  import HostRuns
  import Edge = EdgeNode
  import EdgeRuns
  import EdgeGuarantees
  import EdgeSessions

  /** Hand messages over one after the other, until one is refused. */
  function Applied(cfg: Config, n: Node, ms: seq<Message>): (Node, Option<Reason>)
    decreases |ms|
  {
    if ms == [] then (n, None)
    else
      var (n', refused) := HandedOver(cfg, n, ms[0]);
      if refused.Some? then (n', refused) else Applied(cfg, n', ms[1..])
  }

  lemma {:induction false} AppliedAppend(cfg: Config, n: Node, a: seq<Message>, b: seq<Message>)
    ensures Applied(cfg, n, a + b) ==
            if Applied(cfg, n, a).1.Some? then Applied(cfg, n, a) else Applied(cfg, Applied(cfg, n, a).0, b)
    decreases |a|
  {
    hide HandedOver;
    if a == [] {
      assert a + b == b;
    } else {
      assert (a + b)[1..] == a[1..] + b;
      AppliedAppend(cfg, HandedOver(cfg, n, a[0]).0, a[1..], b);
    }
  }

  /** Hand-over looks at neither the resequencer nor the timer. */
  lemma HandedOverIgnores(cfg: Config, n: Node, s: ReorderState<Message>, timer: bool, m: Message)
    ensures HandedOver(cfg, n.(resequencer := s, timer := timer), m)
         == (HandedOver(cfg, n, m).0.(resequencer := s, timer := timer), HandedOver(cfg, n, m).1)
  {
    match m.body
    case NData(_) =>
    case DBirth(_, _) =>
    case DDeath(_) =>
    case DData(_, _) =>
  }

  lemma {:induction false} AppliedIgnores(cfg: Config, n: Node, s: ReorderState<Message>, timer: bool, ms: seq<Message>)
    ensures Applied(cfg, n.(resequencer := s, timer := timer), ms)
         == (Applied(cfg, n, ms).0.(resequencer := s, timer := timer), Applied(cfg, n, ms).1)
    decreases |ms|
  {
    hide HandedOver;
    if ms != [] {
      HandedOverIgnores(cfg, n, s, timer, ms[0]);
      AppliedIgnores(cfg, HandedOver(cfg, n, ms[0]).0, s, timer, ms[1..]);
    }
  }

  /** Draining hands over exactly what the resequencer has due. */
  lemma {:induction false} DrainIsApplied(cfg: Config, n: Node)
    requires n.resequencer.Valid() && Applied(cfg, n, DrainAll(n.resequencer).1).1.None?
    ensures var (s, out) := DrainAll(n.resequencer);
            DrainHandled(cfg, n) ==
              (Applied(cfg, n, out).0.(resequencer := s, timer := n.timer && !s.phase.Good?), None)
    decreases |n.resequencer.buffer|
  {
    DrainedKeepsValid(n.resequencer);
    var (s1, d) := Drained(n.resequencer);
    AppliedIgnores(cfg, n, DrainAll(n.resequencer).0, n.timer, DrainAll(n.resequencer).1);
    if d.Message? {
      var (s, out) := DrainAll(s1);
      var n1 := n.(resequencer := s1);
      HandedOverFrame(cfg, n1, d.message);
      HandedOverFrame(cfg, n, d.message);
      HandedOverIgnores(cfg, n, s1, n.timer, d.message);
      var n2 := HandedOver(cfg, n1, d.message).0;
      var n2' := HandedOver(cfg, n, d.message).0;
      hide HandedOver;
      assert ([d.message] + out)[1..] == out;
      AppliedIgnores(cfg, n2', s1, n.timer, out);
      DrainIsApplied(cfg, n2);
    }
  }

  /**
   A birthed node that hands over fresh messages through its resequencer, and whose timer runs only while
   something waits.
   */
  ghost predicate Receiving(cfg: Config, n: Node) {
    && cfg.resequence && !n.panicked && n.lifecycle.Birthed? && n.resequencer.Valid()
    && (n.resequencer.phase.Good? ==> !n.timer)
  }

  ghost predicate FreshFor(n: Node, timestamp: nat) {
    n.birthTimestamp <= timestamp && n.staleTimestamp <= timestamp
  }

  /** One message, when nothing it releases is refused: the resequencer and the stores each move on their own. */
  lemma MessageIsApplied(cfg: Config, n: Node, timestamp: nat, a: Arrival<Message>, clock: Clock)
    requires Receiving(cfg, n) && FreshFor(n, timestamp) && a.body.seqNumber == a.number % 256
    requires !Processed(n.resequencer, a.body.seqNumber, a.body).1.DuplicateMessageSequence?
    requires Applied(cfg, n, Feed(n.resequencer, a).1).1.None?
    ensures var (s, out) := Feed(n.resequencer, a);
            var n' := Step(cfg, n, Sequenced(timestamp, a.body), clock);
            && n' == Applied(cfg, n, out).0.(resequencer := s, timer := n'.timer)
            && (s.phase.Good? ==> !n'.timer)
  {
    var m := a.body;
    ProcessedKeepsValid(n.resequencer, m.seqNumber, m);
    var (s1, p) := Processed(n.resequencer, m.seqNumber, m);
    var n1 := n.(resequencer := s1);
    if p.MessageNextInSequence? {
      var (s, out) := DrainAll(s1);
      HandedOverIgnores(cfg, n, s1, n.timer, m);
      HandedOverFrame(cfg, n1, m);
      HandedOverFrame(cfg, n, m);
      var n2 := HandedOver(cfg, n1, m).0;
      assert ([m] + out)[1..] == out;
      hide HandedOver, Processed;
      AppliedIgnores(cfg, HandedOver(cfg, n, m).0, s1, n.timer, out);
      DrainIsApplied(cfg, n2);
    }
  }

  lemma {:induction false} AppliedFrame(cfg: Config, n: Node, ms: seq<Message>)
    ensures var n' := Applied(cfg, n, ms).0; n' == n.(devices := n'.devices, trace := n'.trace)
    decreases |ms|
  {
    if ms != [] {
      HandedOverFrame(cfg, n, ms[0]);
      hide HandedOver;
      AppliedFrame(cfg, HandedOver(cfg, n, ms[0]).0, ms[1..]);
    }
  }

  lemma ReceivingFrame(cfg: Config, n: Node, ms: seq<Message>, s: ReorderState<Message>, timer: bool)
    requires Receiving(cfg, n) && s.Valid() && (s.phase.Good? ==> !timer)
    ensures var n' := Applied(cfg, n, ms).0.(resequencer := s, timer := timer);
            Receiving(cfg, n') && forall t :: FreshFor(n', t) <==> FreshFor(n, t)
  {
    AppliedFrame(cfg, n, ms);
  }

  /**
   A message on its way: its absolute number and content, the payload's timestamp, and the host's clock when
   it arrives.
   */
  datatype Transmission = Transmission(arrival: Arrival<Message>, timestamp: nat, clock: Clock)

  function Arrivals(ts: seq<Transmission>): seq<Arrival<Message>> {
    seq(|ts|, i requires 0 <= i < |ts| => ts[i].arrival)
  }

  function HostAfter(cfg: Config, n: Node, ts: seq<Transmission>): (r: Node)
    requires n.resequencer.Valid()
    ensures r.resequencer.Valid()
  {
    if ts == [] then n
    else
      var n', t := HostAfter(cfg, n, ts[..|ts| - 1]), ts[|ts| - 1];
      StepKeepsValid(cfg, n', Sequenced(t.timestamp, t.arrival.body), t.clock);
      Step(cfg, n', Sequenced(t.timestamp, t.arrival.body), t.clock)
  }

  /** Each transmission is one of `sent`, numbered from 1, with a timestamp the host accepts. */
  ghost predicate FromSent(n: Node, sent: seq<Message>, ts: seq<Transmission>) {
    forall t :: t in ts ==>
      && 1 <= t.arrival.number <= |sent|
      && t.arrival.body == sent[t.arrival.number - 1]
      && FreshFor(n, t.timestamp)
  }

  ghost predicate NumberedFromOne(sent: seq<Message>) {
    forall i :: 0 <= i < |sent| ==> sent[i].seqNumber == (i + 1) % 256
  }

  ghost predicate Faithful(n: Node, sent: seq<Message>, ts: seq<Transmission>) {
    NumberedFromOne(sent) && FromSent(n, sent, ts)
  }

  lemma {:induction false} ReceivedIsSent(n: Node, sent: seq<Message>, ts: seq<Transmission>)
    requires Faithful(n, sent, ts)
    ensures forall a :: a in Received(Arrivals(ts)) ==> 1 <= a <= |sent| && Received(Arrivals(ts))[a] == sent[a - 1]
  {
    if ts != [] {
      var before := ts[..|ts| - 1];
      ReceivedIsSent(n, sent, before);
      assert Arrivals(ts)[..|ts| - 1] == Arrivals(before);
    }
  }

  /** The longest gap-free run received is a prefix of what was sent. */
  lemma PrefixIsSent(n: Node, sent: seq<Message>, ts: seq<Transmission>)
    requires Faithful(n, sent, ts)
    ensures Prefix(Received(Arrivals(ts)), 1) <= sent
  {
    hide *;
    ReceivedIsSent(n, sent, ts);
    var received := Received(Arrivals(ts));
    PrefixEnds(received, 1);
    var out := Prefix(received, 1);
    assert |sent| + 1 !in received;
    forall i | 0 <= i < |out| ensures out[i] == sent[i] {
      assert 1 + i in received && out[1 + i - 1] == received[1 + i];
    }
  }

  /** Inside the window nothing looks like a duplicate. */
  lemma NoFalseDuplicate(
      s: ReorderState<Message>, received: map<nat, Message>, next: nat, origin: nat, a: nat, body: Message)
    requires Tracks(s, received, next, origin) && (s.phase.Good? ==> origin == next)
    requires a !in received && next <= a < origin + 256
    ensures !Processed(s, a % 256, body).1.DuplicateMessageSequence?
  {
    if a == next {
      DueTracks(s, received, next, origin, body);
    } else {
      EarlyTracks(s, received, next, origin, a, body);
    }
  }

  /**
   The host is the stores' in-order application of the longest gap-free run received, and the resequencer's
   own bookkeeping.
   */
  ghost predicate AppliedInOrder(cfg: Config, n: Node, arrivals: seq<Arrival<Message>>, h: Node) {
    && n.resequencer.Valid()
    && var (s, out) := FeedAll(n.resequencer, arrivals);
    && h == Applied(cfg, n, out).0.(resequencer := s, timer := h.timer)
    && (s.phase.Good? ==> !h.timer)
  }

  lemma StepAppliesInOrder(cfg: Config, n: Node, before: seq<Arrival<Message>>, h: Node, t: Transmission)
    requires Receiving(cfg, n) && n.resequencer == ReorderState(map[], 1, Good)
    requires InWindow(1, before + [t.arrival]) && t.arrival.body.seqNumber == t.arrival.number % 256
    requires AppliedInOrder(cfg, n, before, h) && FreshFor(n, t.timestamp)
    requires Applied(cfg, n, FeedAll(n.resequencer, before + [t.arrival]).1).1.None?
    ensures h.resequencer.Valid()
    ensures AppliedInOrder(cfg, n, before + [t.arrival], Step(cfg, h, Sequenced(t.timestamp, t.arrival.body), t.clock))
  {
    assert (before + [t.arrival])[..|before|] == before;
    var (s, out) := FeedAll(n.resequencer, before);
    var more := Feed(s, t.arrival).1;
    OutputIsMaximalPrefix(n.resequencer, 1, before);
    ReceivingFrame(cfg, n, out, s, h.timer);
    NoFalseDuplicate(s, Received(before), Next(1, before), Origin(1, before), t.arrival.number, t.arrival.body);
    FeedAllSnoc(n.resequencer, before, t.arrival);
    AppliedAppend(cfg, n, out, more);
    AppliedIgnores(cfg, Applied(cfg, n, out).0, s, h.timer, more);
    hide Applied, Feed, FeedAll, Step, Processed, InWindow, Received, Prefix;
    MessageIsApplied(cfg, h, t.timestamp, t.arrival, t.clock);
  }

  lemma PrefixIsAccepted(cfg: Config, n: Node, out: seq<Message>, sent: seq<Message>)
    requires out <= sent && Applied(cfg, n, sent).1.None?
    ensures Applied(cfg, n, out).1.None?
  {
    assert sent == out + sent[|out|..];
    AppliedAppend(cfg, n, out, sent[|out|..]);
  }

  lemma FedInOrder(s: ReorderState<Message>, arrivals: seq<Arrival<Message>>)
    requires s == ReorderState(map[], 1, Good) && InWindow(1, arrivals)
    ensures var (s', out) := FeedAll(s, arrivals);
            && out == Prefix(Received(arrivals), 1)
            && (!Waiting(1, arrivals) ==> s' == ReorderState(map[], (1 + |out|) % 256, Good))
  {
    hide FeedAll, Received, Prefix, Waiting, InWindow, Origin;
    OutputIsMaximalPrefix(s, 1, arrivals);
  }

  lemma {:induction false} TransmissionsApplyInOrder(cfg: Config, n: Node, sent: seq<Message>, ts: seq<Transmission>)
    requires Receiving(cfg, n) && n.resequencer == ReorderState(map[], 1, Good)
    requires Faithful(n, sent, ts) && InWindow(1, Arrivals(ts))
    requires Applied(cfg, n, sent).1.None?
    ensures AppliedInOrder(cfg, n, Arrivals(ts), HostAfter(cfg, n, ts))
  {
    if ts != [] {
      var before, t := ts[..|ts| - 1], ts[|ts| - 1];
      assert Arrivals(ts) == Arrivals(before) + [t.arrival] && Arrivals(ts)[..|ts| - 1] == Arrivals(before);
      TransmissionsApplyInOrder(cfg, n, sent, before);
      assert t.arrival.body.seqNumber == t.arrival.number % 256;
      PrefixIsSent(n, sent, ts);
      hide Applied, FeedAll, Step, Receiving, AppliedInOrder, Received, Prefix, InWindow, Faithful, Arrivals;
      FedInOrder(n.resequencer, Arrivals(ts));
      PrefixIsAccepted(cfg, n, FeedAll(n.resequencer, Arrivals(ts)).1, sent);
      StepAppliesInOrder(cfg, n, Arrivals(before), HostAfter(cfg, n, before), t);
    }
  }

  /**
   In-order application: after an accepted birth, with fresh timestamps, each message arriving once
   inside the window, and stores that accept the messages in the order of sending, the host is exactly
   what handing over the longest gap-free run received, in the order of sending, makes of it.
   */
  lemma HostAppliesInSendingOrder(cfg: Config, n: Node, sent: seq<Message>, ts: seq<Transmission>)
    requires Receiving(cfg, n) && n.resequencer == ReorderState(map[], 1, Good)
    requires Faithful(n, sent, ts) && InWindow(1, Arrivals(ts))
    requires Applied(cfg, n, sent).1.None?
    ensures var h := HostAfter(cfg, n, ts);
            var out := Prefix(Received(Arrivals(ts)), 1);
            && out <= sent
            && h == Applied(cfg, n, out).0.(resequencer := h.resequencer, timer := h.timer)
            && (!Waiting(1, Arrivals(ts)) ==> h.resequencer == ReorderState(map[], (1 + |out|) % 256, Good) && !h.timer)
  {
    var arrivals := Arrivals(ts);
    TransmissionsApplyInOrder(cfg, n, sent, ts);
    hide Applied, FeedAll, HostAfter, Received, Prefix, Waiting, InWindow, Origin, Receiving;
    PrefixIsSent(n, sent, ts);
    hide Faithful, Arrivals;
    FedInOrder(n.resequencer, arrivals);
  }

  lemma AllReceived(n: Node, sent: seq<Message>, ts: seq<Transmission>)
    requires Faithful(n, sent, ts)
    requires forall a :: 1 <= a <= |sent| ==> a in Received(Arrivals(ts))
    ensures Prefix(Received(Arrivals(ts)), 1) == sent && !Waiting(1, Arrivals(ts))
  {
    var out := Prefix(Received(Arrivals(ts)), 1);
    PrefixIsSent(n, sent, ts);
    ReceivedIsSent(n, sent, ts);
    PrefixEnds(Received(Arrivals(ts)), 1);
    hide Received, Prefix, Faithful;
    assert 1 + |out| !in Received(Arrivals(ts));
    assert out == sent;
  }

  /** The same once everything has arrived. */
  lemma EverythingSentIsApplied(cfg: Config, n: Node, sent: seq<Message>, ts: seq<Transmission>)
    requires Receiving(cfg, n) && n.resequencer == ReorderState(map[], 1, Good)
    requires Faithful(n, sent, ts) && InWindow(1, Arrivals(ts))
    requires Applied(cfg, n, sent).1.None?
    requires forall a :: 1 <= a <= |sent| ==> a in Received(Arrivals(ts))
    ensures HostAfter(cfg, n, ts) ==
              Applied(cfg, n, sent).0.(resequencer := ReorderState(map[], (1 + |sent|) % 256, Good), timer := false)
  {
    AllReceived(n, sent, ts);
    hide *;
    HostAppliesInSendingOrder(cfg, n, sent, ts);
  }

  /** What is handed over since the birth grows by exactly the messages applied. */
  lemma {:induction false} AppliedIsRecorded(cfg: Config, n: Node, ms: seq<Message>)
    requires HostRuns.SinceBirth(n.trace).Some? && Applied(cfg, n, ms).1.None?
    ensures HostRuns.SinceBirth(Applied(cfg, n, ms).0.trace) == Some(HostRuns.SinceBirth(n.trace).value + ms)
    decreases |ms|
  {
    if ms == [] {
      assert HostRuns.SinceBirth(n.trace).value + ms == HostRuns.SinceBirth(n.trace).value;
    } else {
      var n' := HandedOver(cfg, n, ms[0]).0;
      HandedOverIsRecorded(cfg, n, ms[0]);
      hide HandedOver;
      AppliedIsRecorded(cfg, n', ms[1..]);
      assert HostRuns.SinceBirth(n.trace).value + [ms[0]] + ms[1..] == HostRuns.SinceBirth(n.trace).value + ms;
    }
  }

  lemma HandedOverIsRecorded(cfg: Config, n: Node, m: Message)
    requires HostRuns.SinceBirth(n.trace).Some?
    ensures HostRuns.SinceBirth(HandedOver(cfg, n, m).0.trace) == Some(HostRuns.SinceBirth(n.trace).value + [m])
  {
    var t := Then(n.trace, Handed(m));
    assert HostRuns.SinceBirth(t) == Some(HostRuns.SinceBirth(n.trace).value + [m]);
  }

  // What stores that never object make of it

  /** A DBIRTH of the device is among the messages. */
  ghost predicate Declared(ms: seq<Message>, d: string) {
    ms != [] && ((ms[|ms| - 1].body.DBirth? && ms[|ms| - 1].body.device == d) || Declared(ms[..|ms| - 1], d))
  }

  /** The device's last DBIRTH or DDEATH among them is a DBIRTH. */
  ghost predicate Born(ms: seq<Message>, d: string) {
    ms != [] &&
    var last := ms[|ms| - 1].body;
    last != DDeath(d) && ((last.DBirth? && last.device == d) || Born(ms[..|ms| - 1], d))
  }

  /** Devices are born before they die or send data, and send none while dead. */
  ghost predicate Orderly(ms: seq<Message>) {
    ms != [] ==>
      var before, last := ms[..|ms| - 1], ms[|ms| - 1].body;
      && Orderly(before)
      && (last.DData? ==> Born(before, last.device))
      && (last.DDeath? ==> Declared(before, last.device))
  }

  /** Stores that always accept accept every orderly sequence, whatever the host knew about the devices before. */
  lemma {:induction false} OrderlyMessagesAreAccepted(cfg: Config, n: Node, ms: seq<Message>)
    requires Orderly(ms) && forall t :: cfg.answers(t) == Stored
    ensures var (n', refused) := Applied(cfg, n, ms);
            && refused.None?
            && (forall d :: Declared(ms, d) ==> d in n'.devices)
            && (forall d :: Born(ms, d) ==> d in n'.devices && n'.devices[d].lifecycle.Birthed?)
  {
    if ms != [] {
      var before, last := ms[..|ms| - 1], ms[|ms| - 1];
      OrderlyMessagesAreAccepted(cfg, n, before);
      assert ms == before + [last];
      AppliedAppend(cfg, n, before, [last]);
      var n1 := Applied(cfg, n, before).0;
      assert Applied(cfg, n1, [last]) == (HandedOver(cfg, n1, last).0, HandedOver(cfg, n1, last).1);
    }
  }

  // From the edge

  /** The message published under an edge node's number. */
  ghost predicate Carries(names: nat -> string, number: EdgeRuns.Number, m: Message) {
    && m.seqNumber == number.seqNumber
    && match number.publisher
       case NData => m.body.NData?
       case DBirth(d) => m.body.DBirth? && m.body.device == names(d)
       case DData(d) => m.body.DData? && m.body.device == names(d)
       case DDeath(d) => m.body == DDeath(names(d))
  }

  ghost predicate AllCarry(names: nat -> string, ns: seq<EdgeRuns.Number>, ms: seq<Message>) {
    |ms| == |ns| && forall i :: 0 <= i < |ms| ==> Carries(names, ns[i], ms[i])
  }

  lemma NumberedByTheEdge(
      host: Option<string>, steps: seq<Edge.Step>, t: Edge.Trace, names: nat -> string, sent: seq<Message>)
    requires EdgeGuarantees.Earlier(t, EdgeRuns.Run(host, steps).session.shared.trace)
    requires AllCarry(names, EdgeRuns.SinceStart(t), sent)
    ensures NumberedFromOne(sent)
  {
    forall i | 0 <= i < |sent| ensures sent[i].seqNumber == (i + 1) % 256 {
      assert Carries(names, EdgeRuns.SinceStart(t)[i], sent[i]);
      EdgeGuarantees.AllocationsAreConsecutive(host, steps, t, i);
    }
  }

  lemma BirthIsReceiving(cfg: Config, before: Node, bdseq: U8, timestamp: nat)
    requires cfg.resequence && !before.panicked
    ensures var n := AcceptedBirth(before, bdseq, timestamp);
            && Receiving(cfg, n) && n.resequencer == ReorderState(map[], 1, Good) && n.resequencer.Valid()
            && HostRuns.SinceBirth(n.trace) == Some([])
  {
  }

  /**
   End to end: take any run of an edge node and any moment of it. If every message numbered since the
   last birth reaches a host that has just accepted that birth, once each, inside the window, in any
   order, with fresh timestamps, and its stores accept them, then the host hands over exactly those
   messages in the order in which the edge allocated their numbers, and nothing stays behind.
   */
  lemma EdgeOrderIsHostOrder(
      host: Option<string>, steps: seq<Edge.Step>, t: Edge.Trace, names: nat -> string,
      cfg: Config, before: Node, bdseq: U8, timestamp: nat, sent: seq<Message>, ts: seq<Transmission>)
    requires EdgeGuarantees.Earlier(t, EdgeRuns.Run(host, steps).session.shared.trace)
    requires AllCarry(names, EdgeRuns.SinceStart(t), sent)
    requires cfg.resequence && !before.panicked
    requires InWindow(1, Arrivals(ts)) && forall a :: 1 <= a <= |sent| ==> a in Received(Arrivals(ts))
    requires FromSent(AcceptedBirth(before, bdseq, timestamp), sent, ts)
    requires Applied(cfg, AcceptedBirth(before, bdseq, timestamp), sent).1.None?
    ensures var n := AcceptedBirth(before, bdseq, timestamp);
            n.resequencer.Valid() &&
            var h := HostAfter(cfg, n, ts);
            && HostRuns.SinceBirth(h.trace) == Some(sent)
            && h == Applied(cfg, n, sent).0.(
                      resequencer := ReorderState(map[], (1 + |sent|) % 256, Good), timer := false)
  {
    var n := AcceptedBirth(before, bdseq, timestamp);
    NumberedByTheEdge(host, steps, t, names, sent);
    BirthIsReceiving(cfg, before, bdseq, timestamp);
    assert Faithful(n, sent, ts);
    hide *;
    EverythingSentIsApplied(cfg, n, sent, ts);
    AppliedIsRecorded(cfg, n, sent);
    assert [] + sent == sent;
  }

  // From the edge's own session

  ghost predicate Injective(names: nat -> string) {
    forall d, e :: names(d) == names(e) ==> d == e
  }

  lemma AllCarrySnoc(names: nat -> string, ns: seq<EdgeRuns.Number>, ms: seq<Message>)
    requires AllCarry(names, ns, ms) && ns != []
    ensures AllCarry(names, ns[..|ns| - 1], ms[..|ms| - 1]) && Carries(names, ns[|ns| - 1], ms[|ms| - 1])
  {
  }

  lemma {:induction false} BirthsAreCarried(names: nat -> string, ns: seq<EdgeRuns.Number>, ms: seq<Message>, d: nat)
    requires Injective(names) && AllCarry(names, ns, ms)
    ensures EdgeSessions.Introduced(ns, d) ==> Declared(ms, names(d))
    ensures EdgeSessions.BornIn(ns, d) ==> Born(ms, names(d))
  {
    if ns != [] {
      var before, last := ns[..|ns| - 1], ns[|ns| - 1];
      AllCarrySnoc(names, ns, ms);
      BirthsAreCarried(names, before, ms[..|ms| - 1], d);
      assert ns == before + [last];
      EdgeSessions.IntroducedSnoc(before, last, d);
      hide EdgeSessions.Introduced, AllCarry;
    }
  }

  /** What the edge numbers in order reaches the wire in order. */
  lemma {:induction false} OrderIsCarried(names: nat -> string, ns: seq<EdgeRuns.Number>, ms: seq<Message>)
    requires Injective(names) && AllCarry(names, ns, ms) && EdgeSessions.InOrder(ns)
    ensures Orderly(ms)
  {
    if ns != [] {
      var before, last := ns[..|ns| - 1], ns[|ns| - 1].publisher;
      AllCarrySnoc(names, ns, ms);
      OrderIsCarried(names, before, ms[..|ms| - 1]);
      if last.DData? || last.DDeath? {
        BirthsAreCarried(names, before, ms[..|ms| - 1], last.device);
      }
      hide AllCarry, Injective;
    }
  }

  /** The host holds the device, and holds it live. */
  predicate LiveAt(n: Node, d: string) {
    d in n.devices && n.devices[d].lifecycle.Birthed?
  }

  /** What stores that never object make of one message: whether it is refused, and which devices are live after. */
  lemma AcceptingHandOver(cfg: Config, n: Node, m: Message, d: string)
    requires forall t :: cfg.answers(t) == Stored
    ensures var (n', refused) := HandedOver(cfg, n, m);
            && (refused.None? <==>
                  && (m.body.DData? ==> LiveAt(n, m.body.device))
                  && (m.body.DDeath? ==> m.body.device in n.devices))
            && (LiveAt(n', d) <==> (m.body.DBirth? && m.body.device == d) || (m.body != DDeath(d) && LiveAt(n, d)))
            && (d in n.devices ==> d in n'.devices)
  {
  }

  /** Every device was quiet at that moment, or the host holds it live. */
  ghost predicate QuietOrLive(names: nat -> string, start: Edge.Trace, n: Node) {
    forall d :: EdgeSessions.Quiet(start, d) || LiveAt(n, names(d))
  }

  /** A device up or on its way up, or with data on its way to a number. */
  ghost predicate Alive(t: Edge.Trace, d: nat) {
    EdgeRuns.DeviceIsUp(t, d) || EdgeRuns.BirthOut(t, d) || EdgeRuns.Checked(t, d) > 0
  }

  ghost predicate AliveIsLive(names: nat -> string, t: Edge.Trace, n: Node) {
    forall d :: Alive(t, d) ==> LiveAt(n, names(d))
  }

  /** What a hand-over of a number does to the devices, seen from the record. */
  lemma NumberedStep(
      host: Option<string>, t: Edge.Trace, names: nat -> string, cfg: Config, n: Node, m: Message, d: nat)
    requires EdgeRuns.Proper(host, t) && t.Then? && t.action.Allocated? && EdgeSessions.NoneOvertaken(t)
    requires Injective(names) && Carries(names, EdgeRuns.Number(t.action.seqNumber, t.action.publisher), m)
    requires forall t :: cfg.answers(t) == Stored
    requires AliveIsLive(names, t.before, n)
    ensures Alive(t, d) ==> LiveAt(HandedOver(cfg, n, m).0, names(d))
  {
    AcceptingHandOver(cfg, n, m, names(d));
    assert EdgeRuns.Allowed(host, t.before, t.action);
    hide HandedOver, LiveAt, EdgeRuns.Proper;
    if t.action.publisher == Edge.DDeath(d) {
      assert EdgeRuns.MayAsk(t.before, t.action.publisher);
      assert !EdgeRuns.DeviceIsUp(t.before, d) && !EdgeRuns.BirthOut(t.before, d) && EdgeRuns.Checked(t, d) <= 0;
    } else {
      assert m.body != DDeath(names(d));
      assert Alive(t, d) ==> Alive(t.before, d) || t.action.publisher == Edge.DBirth(d);
    }
  }

  /** Steps that number nothing bring no device to life but through a DBIRTH that was out, or a check of a device up. */
  lemma OtherAction(host: Option<string>, t: Edge.Trace, d: nat)
    requires EdgeRuns.Proper(host, t) && t.Then? && !t.action.Allocated?
    ensures Alive(t, d) ==> Alive(t.before, d)
  {
  }

  /**
   In a session in which no death overtakes data, if the host took every device for live that was not quiet
   at the start, stores that never object accept everything, and every device alive is held live.
   */
  lemma {:induction false} SessionIsAccepted(
      host: Option<string>, t: Edge.Trace, names: nat -> string, cfg: Config, n: Node, sent: seq<Message>)
    requires EdgeRuns.Proper(host, t) && EdgeSessions.NoneOvertaken(t)
    requires QuietOrLive(names, EdgeSessions.StartOf(t), n)
    requires Injective(names) && AllCarry(names, EdgeRuns.SinceStart(t), sent)
    requires forall t :: cfg.answers(t) == Stored
    ensures Applied(cfg, n, sent).1.None? && AliveIsLive(names, t, Applied(cfg, n, sent).0)
    decreases t, 1
  {
    if t.Nothing? || t.action.BirthStarted? {
      assert sent == [];
    } else if !t.action.Allocated? {
      SessionIsAccepted(host, t.before, names, cfg, n, sent);
      forall d | Alive(t, d) ensures LiveAt(Applied(cfg, n, sent).0, names(d)) {
        OtherAction(host, t, d);
      }
    } else {
      var before, m := sent[..|sent| - 1], sent[|sent| - 1];
      AllCarrySnoc(names, EdgeRuns.SinceStart(t), sent);
      SessionIsAccepted(host, t.before, names, cfg, n, before);
      var n1 := Applied(cfg, n, before).0;
      NumberedIsAccepted(host, t, names, cfg, n, before, m);
      AppliedOneMore(cfg, n, before, m);
      assert sent == before + [m];
      forall d | Alive(t, d) ensures LiveAt(HandedOver(cfg, n1, m).0, names(d)) {
        NumberedStep(host, t, names, cfg, n1, m, d);
      }
    }
  }

  lemma AppliedOneMore(cfg: Config, n: Node, before: seq<Message>, m: Message)
    requires Applied(cfg, n, before).1.None?
    ensures Applied(cfg, n, before + [m]) == HandedOver(cfg, Applied(cfg, n, before).0, m)
  {
    hide HandedOver;
    AppliedAppend(cfg, n, before, [m]);
    var n1 := Applied(cfg, n, before).0;
    assert Applied(cfg, n1, [m]) == (HandedOver(cfg, n1, m).0, HandedOver(cfg, n1, m).1);
  }

  /** The next number's message is accepted. */
  lemma NumberedIsAccepted(
      host: Option<string>, t: Edge.Trace, names: nat -> string, cfg: Config, n: Node, before: seq<Message>, m: Message)
    requires EdgeRuns.Proper(host, t) && EdgeSessions.NoneOvertaken(t) && t.Then? && t.action.Allocated?
    requires QuietOrLive(names, EdgeSessions.StartOf(t), n)
    requires Injective(names) && AllCarry(names, EdgeRuns.SinceStart(t.before), before)
    requires Carries(names, EdgeRuns.Number(t.action.seqNumber, t.action.publisher), m)
    requires forall t :: cfg.answers(t) == Stored
    requires AliveIsLive(names, t.before, Applied(cfg, n, before).0)
    ensures HandedOver(cfg, Applied(cfg, n, before).0, m).1.None?
    decreases t, 0
  {
    var p := t.action.publisher;
    AcceptingHandOver(cfg, Applied(cfg, n, before).0, m, "");
    assert EdgeRuns.Allowed(host, t.before, t.action);
    if p.DData? {
      assert Alive(t.before, p.device);
    } else if p.DDeath? {
      var t' := t.before.before;
      assert EdgeRuns.DeviceIsUp(t', p.device) && EdgeRuns.SinceStart(t') == EdgeRuns.SinceStart(t.before);
      assert Alive(t', p.device);
      SessionIsAccepted(host, t', names, cfg, n, before);
    }
    hide HandedOver, Applied, EdgeRuns.Proper, AllCarry;
  }

  /**
   End to end from what the edge does alone: if every device that was not quiet when the session's birth was
   started is one the host holds live, and no death has overtaken data since, stores that never object make
   the host hand over exactly what the edge numbered, in the order of numbering, whatever order it arrives in.
   */
  lemma EdgeSessionIsAppliedInOrder(
      host: Option<string>, steps: seq<Edge.Step>, t: Edge.Trace, names: nat -> string,
      cfg: Config, before: Node, bdseq: U8, timestamp: nat, sent: seq<Message>, ts: seq<Transmission>)
    requires EdgeGuarantees.Earlier(t, EdgeRuns.Run(host, steps).session.shared.trace)
    requires QuietOrLive(names, EdgeSessions.StartOf(t), before) && EdgeSessions.NoneOvertaken(t)
    requires Injective(names) && AllCarry(names, EdgeRuns.SinceStart(t), sent)
    requires cfg.resequence && !before.panicked && forall t :: cfg.answers(t) == Stored
    requires InWindow(1, Arrivals(ts)) && forall a :: 1 <= a <= |sent| ==> a in Received(Arrivals(ts))
    requires FromSent(AcceptedBirth(before, bdseq, timestamp), sent, ts)
    ensures var n := AcceptedBirth(before, bdseq, timestamp);
            n.resequencer.Valid() &&
            var h := HostAfter(cfg, n, ts);
            && HostRuns.SinceBirth(h.trace) == Some(sent)
            && Applied(cfg, n, sent).1.None?
            && h == Applied(cfg, n, sent).0.(
                      resequencer := ReorderState(map[], (1 + |sent|) % 256, Good), timer := false)
  {
    var n := AcceptedBirth(before, bdseq, timestamp);
    EdgeSessions.EarlierSessionIsProper(host, steps, t);
    assert QuietOrLive(names, EdgeSessions.StartOf(t), n);
    hide *;
    SessionIsAccepted(host, t, names, cfg, n, sent);
    EdgeOrderIsHostOrder(host, steps, t, names, cfg, before, bdseq, timestamp, sent, ts);
  }

  /** The publisher's message under that number. */
  function MessageFor(names: nat -> string, number: EdgeRuns.Number): Message {
    Tagged(number.seqNumber,
           match number.publisher
           case NData => NData([])
           case DBirth(d) => DBirth(names(d), [])
           case DData(d) => DData(names(d), [])
           case DDeath(d) => DDeath(names(d)))
  }

  lemma LoneDataIsRefused(cfg: Config, n: Node, names: nat -> string, d: nat)
    requires !LiveAt(n, names(d))
    ensures var ns := [EdgeRuns.Number(1, Edge.DData(d))];
            var sent := [MessageFor(names, ns[0])];
            AllCarry(names, ns, sent) && Applied(cfg, n, sent).1.Some?
  {
    var sent := [MessageFor(names, EdgeRuns.Number(1, Edge.DData(d)))];
    assert sent[0].body == DData(names(d), []);
  }

  /**
   For any host, with stores that never object: whatever a session in which no death overtakes data goes on
   to number is accepted, if and only if every device was quiet when its birth was started, or is one the
   host holds live when it accepts that birth.
   */
  lemma SessionIsAcceptedExactly(
      host: Option<string>, steps: seq<Edge.Step>, names: nat -> string, cfg: Config, n: Node)
    requires var t := EdgeRuns.Run(host, steps).session.shared.trace; t.Then? && t.action.BirthStarted?
    requires Injective(names) && forall t :: cfg.answers(t) == Stored
    ensures QuietOrLive(names, EdgeRuns.Run(host, steps).session.shared.trace.before, n) <==>
              forall more, sent ::
                && EdgeSessions.SameSession(host, steps, more)
                && EdgeSessions.NoneOvertaken(EdgeRuns.Run(host, steps + more).session.shared.trace)
                && AllCarry(names, EdgeSessions.Numbers(host, steps + more), sent)
                ==> Applied(cfg, n, sent).1.None?
  {
    var start := EdgeRuns.Run(host, steps).session.shared.trace.before;
    if QuietOrLive(names, start, n) {
      forall more, sent |
        && EdgeSessions.SameSession(host, steps, more)
        && EdgeSessions.NoneOvertaken(EdgeRuns.Run(host, steps + more).session.shared.trace)
        && AllCarry(names, EdgeSessions.Numbers(host, steps + more), sent)
        ensures Applied(cfg, n, sent).1.None?
      {
        var t := EdgeRuns.Run(host, steps + more).session.shared.trace;
        EdgeSessions.RunIsProper(host, steps + more);
        assert EdgeSessions.StartOf(t) == start;
        assert AllCarry(names, EdgeRuns.SinceStart(t), sent);
        hide *;
        SessionIsAccepted(host, t, names, cfg, n, sent);
      }
    } else {
      var d: nat :| !EdgeSessions.Quiet(start, d) && !LiveAt(n, names(d));
      var more := EdgeSessions.DataNumberedFirst(host, steps, d);
      LoneDataIsRefused(cfg, n, names, d);
    }
  }

  /** Data after the device's death is refused: the host knows the device, and knows it dead. */
  lemma DataAfterItsDeathIsRefused(
      cfg: Config, n: Node, names: nat -> string, ns: seq<EdgeRuns.Number>, d: nat, sent: seq<Message>)
    requires |ns| >= 2 && ns[|ns| - 2].publisher == Edge.DDeath(d) && ns[|ns| - 1].publisher == Edge.DData(d)
    requires AllCarry(names, ns, sent) && Applied(cfg, n, sent[..|sent| - 1]).1.None?
    ensures Applied(cfg, n, sent).1 == Some(RecordedStateStale)
  {
    var before, death, data := sent[..|sent| - 2], sent[|sent| - 2], sent[|sent| - 1];
    assert Carries(names, ns[|ns| - 2], death) && Carries(names, ns[|ns| - 1], data);
    assert sent[..|sent| - 1] == before + [death] && sent == before + [death] + [data];
    AppliedAppend(cfg, n, before, [death]);
    AppliedOneMore(cfg, n, before, death);
    AppliedOneMore(cfg, n, before + [death], data);
  }

  /**
   When a death has overtaken data, the session can go on so that it is refused, whatever the host knew and
   whatever stores answer: the data is numbered next, and is refused as data of a stale device if nothing
   was refused before.
   */
  lemma OvertakenDataIsRefused(
      host: Option<string>, steps: seq<Edge.Step>, d: nat, names: nat -> string,
      cfg: Config, n: Node, sent: seq<Message>)
    requires var t := EdgeRuns.Run(host, steps).session.shared.trace;
             t.Then? && t.action.Allocated? && t.action.publisher == Edge.DDeath(d) && EdgeRuns.Checked(t, d) > 0
    requires AllCarry(names, EdgeSessions.Numbers(host, steps + [Edge.NumberDeviceData(d)]), sent)
    ensures EdgeSessions.SameSession(host, steps, [Edge.NumberDeviceData(d)]) && sent != []
    ensures Applied(cfg, n, sent).1.Some?
    ensures Applied(cfg, n, sent[..|sent| - 1]).1.None? ==> Applied(cfg, n, sent).1 == Some(RecordedStateStale)
  {
    var ns := EdgeSessions.Numbers(host, steps + [Edge.NumberDeviceData(d)]);
    assert |sent| == |ns|;
    hide *;
    EdgeSessions.OvertakenDataIsOutOfOrder(host, steps, d);
    if Applied(cfg, n, sent[..|sent| - 1]).1.None? {
      DataAfterItsDeathIsRefused(cfg, n, names, ns, d, sent);
    } else {
      assert sent == sent[..|sent| - 1] + [sent[|sent| - 1]];
      AppliedAppend(cfg, n, sent[..|sent| - 1], [sent[|sent| - 1]]);
    }
  }
}
