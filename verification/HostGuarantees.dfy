/** The guarantees of an application's node, read off the invariant of its runs. */
module HostGuarantees {
  import opened Bounded
  import opened Options
  import opened Resequencing
  import opened HostNode
  import opened HostRuns

  /** `t` is what had been done at some earlier point, or now. */
  ghost predicate Earlier(t: Trace, now: Trace) {
    t == now || (now.Then? && Earlier(t, now.before))
  }

  lemma {:induction false} EarlierIsProper(cfg: Config, t: Trace, now: Trace)
    requires Earlier(t, now) && Proper(cfg, now)
    ensures Proper(cfg, t)
  {
    if t != now {
      EarlierIsProper(cfg, t, now.before);
    }
  }

  lemma {:induction false} ProperIsNumbered(cfg: Config, t: Trace, i: nat)
    requires cfg.resequence && Proper(cfg, t) && SinceBirth(t).Some? && i < |SinceBirth(t).value|
    ensures SinceBirth(t).value[i].seqNumber == (i + 1) % 256
  {
    if t.action.BirthAccepted? {
    } else if !t.action.Handed? || i < |SinceBirth(t).value| - 1 {
      ProperIsNumbered(cfg, t.before, i);
    }
  }

  /**
   Session order: whatever arrives, however stores answer and rebirths are decided, the messages handed
   over between an accepted NBIRTH and the next one or the next stale transition are numbered
   1, 2, 3, ... modulo 256, with no gap and no repeat.
   */
  lemma SessionsAreInOrder(cfg: Config, inputs: seq<(Input, Clock)>, t: Trace, i: nat)
    requires cfg.resequence && Earlier(t, Run(cfg, inputs).trace)
    requires SinceBirth(t).Some? && i < |SinceBirth(t).value|
    ensures SinceBirth(t).value[i].seqNumber == (i + 1) % 256
  {
    RunKeeps(cfg, inputs);
    EarlierIsProper(cfg, t, Run(cfg, inputs).trace);
    ProperIsNumbered(cfg, t, i);
  }

  /** Nothing is handed over outside a session, with or without resequencing. */
  lemma NothingHandedWhileStale(cfg: Config, inputs: seq<(Input, Clock)>, t: Trace)
    requires Earlier(t, Run(cfg, inputs).trace) && t.Then? && t.action.Handed?
    ensures SinceBirth(t.before).Some?
  {
    RunKeeps(cfg, inputs);
    EarlierIsProper(cfg, t, Run(cfg, inputs).trace);
  }

  /** Store callback protocol, for the node's store and for every device's. */
  lemma StoresSeeProtocol(cfg: Config, inputs: seq<(Input, Clock)>, t: Trace)
    requires Earlier(t, Run(cfg, inputs).trace) && t.Then?
    ensures t.action.NodeStoreData? ==> NodeStoreLive(t.before)
    ensures t.action.NodeStoreStale? ==> NodeStoreLive(t.before) && !NodeStoreLive(t)
    ensures t.action.DeviceStoreData? ==> DeviceStoreLive(t.before, t.action.device)
  {
    RunKeeps(cfg, inputs);
    EarlierIsProper(cfg, t, Run(cfg, inputs).trace);
  }

  /** What a node holds about a device is what its record of hand-overs and store answers says. */
  lemma DeviceStateIsRecorded(cfg: Config, inputs: seq<(Input, Clock)>, d: string)
    ensures var n := Run(cfg, inputs);
            && (d in n.devices <==> Seen(n.trace, d))
            && (d in n.devices ==>
                  && (n.devices[d].lifecycle.Birthed? <==> DeviceAlive(cfg, n.trace, d))
                  && (cfg.deviceHasStore(d) ==> (n.devices[d].lifecycle.Birthed? <==> DeviceStoreLive(n.trace, d))))
            && (cfg.hasStore ==> (n.lifecycle.Birthed? <==> NodeStoreLive(n.trace)))
  {
    RunKeeps(cfg, inputs);
    var n := Run(cfg, inputs);
    assert DeviceKnown(cfg, n.devices, n.trace, d);
  }

  /**
   Device data, whenever it is handed over: refused when its device was never seen, when it is not alive, or
   when its store objects, with a reason for each and for each of the store's objections. Only data of a
   live device reaches the store.
   */
  lemma DeviceDataOutcome(cfg: Config, n: Node, pending: nat, m: Message)
    requires Inv(cfg, n, pending) && m.body.DData?
    ensures var d := m.body.device;
            var (n', refused) := HandedOver(cfg, n, m);
            var handed := Then(n.trace, Handed(m));
            if !Seen(n.trace, d) then n'.trace == handed && refused == Some(UnknownDevice)
            else if !DeviceAlive(cfg, n.trace, d) then n'.trace == handed && refused == Some(RecordedStateStale)
            else if !cfg.deviceHasStore(d) then n'.trace == handed && refused == None
            else
              && n'.trace == Then(handed, DeviceStoreData(d, cfg.answers(handed) == Stored))
              && refused == match cfg.answers(handed)
                            case Stored => None
                            case BadValue => Some(InvalidPayload)
                            case NoSuchMetric => Some(UnknownMetric)
  {
    assert DeviceKnown(cfg, n.devices, n.trace, m.body.device);
  }

  /** Staleness closure. */
  lemma StaleNodesHoldNothing(cfg: Config, inputs: seq<(Input, Clock)>)
    ensures var n := Run(cfg, inputs);
            n.lifecycle.Stale? ==>
              && (forall d :: d in n.devices ==> n.devices[d].lifecycle.Stale?)
              && n.resequencer == ReorderState(map[], 0, Good)
              && !n.timer
  {
    RunKeeps(cfg, inputs);
  }

  ghost function BirthTimes(t: Trace): seq<nat> {
    match t
    case Nothing => []
    case Then(before, BirthAccepted(timestamp)) => BirthTimes(before) + [timestamp]
    case Then(before, _) => BirthTimes(before)
  }

  lemma {:induction false} ProperBirthsIncrease(cfg: Config, t: Trace)
    requires Proper(cfg, t)
    ensures forall i, j :: 0 <= i < j < |BirthTimes(t)| ==> BirthTimes(t)[i] < BirthTimes(t)[j]
    ensures forall i :: 0 <= i < |BirthTimes(t)| ==> BirthTimes(t)[i] <= LastAccepted(t)
  {
    if t.Then? {
      ProperBirthsIncrease(cfg, t.before);
    }
  }

  lemma AcceptedBirthsIncrease(cfg: Config, inputs: seq<(Input, Clock)>, i: nat, j: nat)
    requires i < j < |BirthTimes(Run(cfg, inputs).trace)|
    ensures BirthTimes(Run(cfg, inputs).trace)[i] < BirthTimes(Run(cfg, inputs).trace)[j]
  {
    RunKeeps(cfg, inputs);
    ProperBirthsIncrease(cfg, Run(cfg, inputs).trace);
  }

  /**
   An NBIRTH is accepted exactly when it is newer than every one accepted before and the node's store, if
   there is one and the birth is not a repeated one of the live session, takes it.
   */
  lemma BirthsAreAcceptedExactly(cfg: Config, inputs: seq<(Input, Clock)>, bdseq: U8, timestamp: nat, clock: Clock)
    ensures var n := Run(cfg, inputs);
            var n' := BirthHandled(cfg, n, bdseq, timestamp, clock);
            var repeated := SinceBirth(n.trace).Some? && n.bdseq == bdseq;
            if timestamp > LastAccepted(n.trace) && (!cfg.hasStore || repeated || cfg.answers(n.trace) == Stored)
            then SinceBirth(n'.trace) == Some([]) && LastAccepted(n'.trace) == timestamp
                 && n'.bdseq == bdseq && n'.resequencer.nextSeq == 1
            else LastAccepted(n'.trace) == LastAccepted(n.trace) && n'.bdseq == n.bdseq
  {
    RunKeeps(cfg, inputs);
    var n := Run(cfg, inputs);
    var refused := n.Did(NodeStoreBirth(false));
    assert LastAccepted(refused.trace) == LastAccepted(n.trace);
    RequestedAcceptsNothing(cfg, refused, InvalidPayload, clock);
  }

  lemma RequestedAcceptsNothing(cfg: Config, n: Node, reason: Reason, clock: Clock)
    ensures LastAccepted(Requested(cfg, n, reason, clock).trace) == LastAccepted(n.trace)
    ensures Requested(cfg, n, reason, clock).bdseq == n.bdseq
  {
    var (n', go) := Evaluated(cfg, n, reason, clock.now);
    if go {
      var t1 := Then(n'.trace, WentStale(clock.stamp));
      var t2 := if cfg.hasStore then Then(t1, NodeStoreStale) else t1;
      assert LastAccepted(t1) == LastAccepted(t2) == LastAccepted(n.trace);
      assert LastAccepted(Then(t2, DeviceStoresStale(WithStore(n'.devices)))) == LastAccepted(n.trace);
      assert LastAccepted(MadeStale(cfg, n', clock.stamp).trace) == LastAccepted(n.trace);
    }
  }

  /** Handling messages changes neither the node's own lifecycle nor what its rebirth decisions rest on. */
  ghost predicate SameButForMessages(n: Node, n': Node) {
    n' == n.(resequencer := n'.resequencer, devices := n'.devices, timer := n'.timer, trace := n'.trace)
  }

  lemma {:induction false} DrainFrame(cfg: Config, n: Node)
    requires n.resequencer.Valid()
    ensures SameButForMessages(n, DrainHandled(cfg, n).0)
    decreases |n.resequencer.buffer|
  {
    DrainedKeepsValid(n.resequencer);
    var (s, d) := Drained(n.resequencer);
    if d.Message? {
      HandedOverFrame(cfg, n.(resequencer := s), d.message);
      var (n', refused) := HandedOver(cfg, n.(resequencer := s), d.message);
      if refused.None? {
        DrainFrame(cfg, n');
      }
    }
  }

  lemma SequencedFrame(cfg: Config, n: Node, timestamp: nat, m: Message)
    requires n.resequencer.Valid()
    ensures SameButForMessages(n, SequencedHandled(cfg, n, timestamp, m).0)
  {
    ProcessedKeepsValid(n.resequencer, m.seqNumber, m);
    HandedOverFrame(cfg, n, m);
    var n1 := n.(resequencer := Processed(n.resequencer, m.seqNumber, m).0);
    HandedOverFrame(cfg, n1, m);
    var (n2, refused) := HandedOver(cfg, n1, m);
    hide HandedOver, Processed;
    if refused.None? {
      DrainFrame(cfg, n2);
    }
  }

  /**
   A due message stays buffered exactly when a hand-over was refused while the next message was already
   held, and the rebirth it called for was suppressed, or came with a stamp older than the birth.
   */
  lemma DueMessagesAreHandedOver(cfg: Config, n: Node, timestamp: nat, m: Message, clock: Clock)
    requires n.resequencer.Valid() && cfg.resequence && !n.panicked
    requires !Drained(n.resequencer).1.Message?
    ensures var (n', refused) := SequencedHandled(cfg, n, timestamp, m);
            var n'' := Step(cfg, n, Sequenced(timestamp, m), clock);
            n''.resequencer.Valid() &&
            (Drained(n''.resequencer).1.Message? <==>
              && refused.Some? && Drained(n'.resequencer).1.Message?
              && (!Evaluated(cfg, n', refused.value, clock.now).1 || clock.stamp < n.birthTimestamp))
  {
    SequencedFrame(cfg, n, timestamp, m);
    SequencedDrains(cfg, n, timestamp, m);
    if n.lifecycle.Stale? {
      assert SequencedHandled(cfg, n, timestamp, m).0 == n;
    }
    hide SequencedHandled;
  }

  /** The number expected next is held. */
  ghost predicate Stalled(s: ReorderState<Message>) {
    s.phase.ReSequencing? && Sub8(s.nextSeq, s.phase.offset) in s.buffer
  }

  lemma DueIsStalled(s: ReorderState<Message>)
    requires s.Valid() && Drained(s).1.Message?
    ensures Stalled(s)
  {
    AddSub(FirstKey(s.buffer), s.phase.offset);
    hide Sub8, Add8, Succ8;
  }

  /** How often the node was birthed or made stale. */
  ghost function Changes(t: Trace): nat {
    match t
    case Nothing => 0
    case Then(before, BirthAccepted(_)) => Changes(before) + 1
    case Then(before, WentStale(_)) => Changes(before) + 1
    case Then(before, _) => Changes(before)
  }

  /** While the next number is held, whatever arrives is a duplicate or is held as well. */
  lemma StalledTakesNothing(s: ReorderState<Message>, m: Message)
    requires s.Valid() && Stalled(s)
    ensures var (s', p) := Processed(s, m.seqNumber, m); Stalled(s') && !p.MessageNextInSequence?
  {
  }

  /** Nothing has changed that a stall depends on. */
  ghost predicate StillStalled(n: Node, n': Node) {
    n'.lifecycle.Birthed? && Stalled(n'.resequencer) && SinceBirth(n'.trace) == SinceBirth(n.trace)
  }

  lemma MadeStaleChanges(cfg: Config, n: Node, timestamp: nat)
    ensures var n' := MadeStale(cfg, n, timestamp); n' == n || Changes(n'.trace) > Changes(n.trace)
  {
    if n.lifecycle.Birthed? && n.birthTimestamp <= timestamp {
      var t := Then(n.trace, WentStale(timestamp));
      assert Changes(t) == Changes(n.trace) + 1;
      var t' := if cfg.hasStore then Then(t, NodeStoreStale) else t;
      assert Changes(Then(t', DeviceStoresStale(WithStore(n.devices)))) == Changes(t') == Changes(t);
    }
  }

  lemma RequestedChanges(cfg: Config, n: Node, reason: Reason, clock: Clock)
    ensures var n' := Requested(cfg, n, reason, clock);
            && Changes(n'.trace) >= Changes(n.trace)
            && (n.lifecycle.Birthed? && Stalled(n.resequencer) ==>
                 Changes(n'.trace) > Changes(n.trace) || StillStalled(n, n'))
  {
    hide MadeStale;
    MadeStaleChanges(cfg, Evaluated(cfg, n, reason, clock.now).0, clock.stamp);
  }

  lemma StalledMessage(cfg: Config, n: Node, timestamp: nat, m: Message)
    requires cfg.resequence && n.resequencer.Valid() && n.lifecycle.Birthed? && Stalled(n.resequencer)
    ensures var n' := SequencedHandled(cfg, n, timestamp, m).0; StillStalled(n, n') && n'.trace == n.trace
  {
    StalledTakesNothing(n.resequencer, m);
    hide Processed;
  }

  lemma StalledStep(cfg: Config, n: Node, input: Input, clock: Clock)
    requires cfg.resequence && n.resequencer.Valid() && n.lifecycle.Birthed? && Stalled(n.resequencer)
    ensures var n' := Step(cfg, n, input, clock); Changes(n'.trace) > Changes(n.trace) || StillStalled(n, n')
  {
    hide MadeStale, Requested, SequencedHandled;
    if !n.panicked {
      match input
      case NBirth(_, _) => RequestedChanges(cfg, n.Did(NodeStoreBirth(false)), InvalidPayload, clock);
      case NDeath(_, timestamp) =>
        MadeStaleChanges(cfg, n.(timer := false), timestamp);
        RequestedChanges(cfg, MadeStale(cfg, n.(timer := false), timestamp), OutOfSyncBdSeq, clock);
      case Sequenced(timestamp, m) =>
        StalledMessage(cfg, n, timestamp, m);
        var (n', refused) := SequencedHandled(cfg, n, timestamp, m);
        if refused.Some? {
          RequestedChanges(cfg, n', refused.value, clock);
        }
      case Undecodable => RequestedChanges(cfg, n, InvalidPayload, clock);
      case AppOffline(timestamp) => MadeStaleChanges(cfg, n, timestamp);
      case RebirthWanted(reason) => RequestedChanges(cfg, n, reason, clock);
    }
  }

  /** One of the steps births the node or makes it stale. */
  ghost predicate ChangesWithin(cfg: Config, inputs: seq<(Input, Clock)>, more: seq<(Input, Clock)>) {
    exists k :: 0 <= k < |more| && ChangesAt(cfg, inputs + more[..k], more[k])
  }

  ghost predicate ChangesAt(cfg: Config, inputs: seq<(Input, Clock)>, next: (Input, Clock)) {
    Changes(Step(cfg, Run(cfg, inputs), next.0, next.1).trace) > Changes(Run(cfg, inputs).trace)
  }

  lemma RunOn(cfg: Config, inputs: seq<(Input, Clock)>, next: (Input, Clock))
    ensures Run(cfg, inputs + [next]) == Step(cfg, Run(cfg, inputs), next.0, next.1)
  {
    assert (inputs + [next])[..|inputs|] == inputs;
  }

  lemma ChangesLater(cfg: Config, inputs: seq<(Input, Clock)>, before: seq<(Input, Clock)>, next: (Input, Clock))
    requires ChangesWithin(cfg, inputs, before) || ChangesAt(cfg, inputs + before, next)
    ensures ChangesWithin(cfg, inputs, before + [next])
  {
    var more := before + [next];
    if ChangesWithin(cfg, inputs, before) {
      var k :| 0 <= k < |before| && ChangesAt(cfg, inputs + before[..k], before[k]);
      assert more[..k] == before[..k] && more[k] == before[k];
    } else {
      assert more[..|before|] == before && more[|before|] == next;
    }
  }

  lemma OneMoreStalled(cfg: Config, n: Node, inputs: seq<(Input, Clock)>, next: (Input, Clock))
    requires cfg.resequence && StillStalled(n, Run(cfg, inputs))
    ensures ChangesAt(cfg, inputs, next) || StillStalled(n, Run(cfg, inputs + [next]))
  {
    RunOn(cfg, inputs, next);
    hide Step, Changes, SinceBirth, Run;
    StalledStep(cfg, Run(cfg, inputs), next.0, next.1);
  }

  lemma DueInRunIsStalled(cfg: Config, inputs: seq<(Input, Clock)>)
    requires Drained(Run(cfg, inputs).resequencer).1.Message?
    ensures StillStalled(Run(cfg, inputs), Run(cfg, inputs))
  {
    RunKeeps(cfg, inputs);
    hide Step, Run, Drained;
    DueIsStalled(Run(cfg, inputs).resequencer);
  }

  /**
   A stall is permanent: once a due message has been left behind, nothing more is handed over, whatever
   arrives, before a step that births the node or makes it stale.
   */
  lemma {:induction false} StallsArePermanent(cfg: Config, inputs: seq<(Input, Clock)>, more: seq<(Input, Clock)>)
    requires cfg.resequence && Drained(Run(cfg, inputs).resequencer).1.Message?
    ensures ChangesWithin(cfg, inputs, more) || StillStalled(Run(cfg, inputs), Run(cfg, inputs + more))
    decreases |more|
  {
    hide *;
    if more == [] {
      assert inputs + more == inputs;
      DueInRunIsStalled(cfg, inputs);
    } else {
      var before, next := more[..|more| - 1], more[|more| - 1];
      StallsArePermanent(cfg, inputs, before);
      assert more == before + [next] && inputs + more == inputs + before + [next];
      if StillStalled(Run(cfg, inputs), Run(cfg, inputs + before)) {
        OneMoreStalled(cfg, Run(cfg, inputs), inputs + before, next);
      }
      if ChangesWithin(cfg, inputs, before) || ChangesAt(cfg, inputs + before, next) {
        ChangesLater(cfg, inputs, before, next);
      }
    }
  }

  lemma {:induction false} DrainDrains(cfg: Config, n: Node)
    requires n.resequencer.Valid()
    ensures var (n', refused) := DrainHandled(cfg, n); refused.None? ==> !Drained(n'.resequencer).1.Message?
    decreases |n.resequencer.buffer|
  {
    DrainedKeepsValid(n.resequencer);
    var (s, d) := Drained(n.resequencer);
    if d.Message? {
      HandedOverFrame(cfg, n.(resequencer := s), d.message);
      var (n', refused) := HandedOver(cfg, n.(resequencer := s), d.message);
      if refused.None? {
        DrainDrains(cfg, n');
      }
    }
  }

  lemma SequencedDrains(cfg: Config, n: Node, timestamp: nat, m: Message)
    requires n.resequencer.Valid() && cfg.resequence
    requires !Drained(n.resequencer).1.Message?
    ensures var (n', refused) := SequencedHandled(cfg, n, timestamp, m);
            refused.None? ==> !Drained(n'.resequencer).1.Message?
  {
    var r := Processed(n.resequencer, m.seqNumber, m).1;
    ProcessedKeepsValid(n.resequencer, m.seqNumber, m);
    var n1 := n.(resequencer := Processed(n.resequencer, m.seqNumber, m).0);
    HandedOverFrame(cfg, n1, m);
    var (n2, refused) := HandedOver(cfg, n1, m);
    if r.MessageNextInSequence? {
      hide HandedOver, Processed;
      if refused.None? {
        DrainDrains(cfg, n2);
      }
    } else if r.OutOfSequenceMessageInserted? {
      hide HandedOver;
      InsertedIsNotDue(n.resequencer, m);
    }
  }

  lemma InsertedIsNotDue(s: ReorderState<Message>, m: Message)
    requires s.Valid() && !Drained(s).1.Message?
    requires Processed(s, m.seqNumber, m).1.OutOfSequenceMessageInserted?
    ensures var s' := Processed(s, m.seqNumber, m).0; s'.Valid() && !Drained(s').1.Message?
  {
    ProcessedKeepsValid(s, m.seqNumber, m);
    var s' := Processed(s, m.seqNumber, m).0;
    var key := Sub8(m.seqNumber, s'.phase.offset);
    SubAdd(m.seqNumber, s'.phase.offset);
    assert s'.buffer == s.buffer[key := m] && s'.nextSeq == s.nextSeq != m.seqNumber;
    hide Processed;
    if FirstKey(s'.buffer) != key {
      assert FirstKey(s'.buffer) in s.buffer;
      assert FirstKey(s.buffer) in s'.buffer;
    }
  }
}
