/**
 What a node of an application makes of each input, read off the record of its run: which store is asked,
 which reason for a rebirth arises, and when the node goes stale.
 */
module HostOutcomes {
  import opened Bounded
  import opened Options
  import opened Resequencing
  import opened ReorderRefinement
  import ReorderSafety
  import opened HostNode
  import opened HostRuns
  import opened HostGuarantees
  import opened HostRequests

  // Handing over

  /** What one message adds to the record, and the reason it gives: by kind, from the record and the store's answer. */
  ghost function Outcome(cfg: Config, t: Trace, m: Message): (Trace, Option<Reason>) {
    var handed := Then(t, Handed(m));
    var answer := cfg.answers(handed);
    match m.body
    case NData(_) =>
      if !cfg.hasStore then (handed, None)
      else if answer == Stored then (Then(handed, NodeStoreData(true)), None)
      else (Then(handed, NodeStoreData(false)), Some(InvalidPayload))
    case DBirth(d, _) =>
      if !cfg.deviceHasStore(d) then (handed, None)
      else if answer == Stored then (Then(handed, DeviceStoreBirth(d, true)), None)
      else (Then(handed, DeviceStoreBirth(d, false)), Some(InvalidPayload))
    case DDeath(d) =>
      if !Seen(t, d) then (handed, Some(UnknownDevice))
      else if !cfg.deviceHasStore(d) then (handed, None)
      else (Then(handed, DeviceStoresStale({d})), None)
    case DData(d, _) =>
      if !Seen(t, d) then (handed, Some(UnknownDevice))
      else if !DeviceAlive(cfg, t, d) then (handed, Some(RecordedStateStale))
      else if !cfg.deviceHasStore(d) then (handed, None)
      else
        (Then(handed, DeviceStoreData(d, answer == Stored)),
         match answer
         case Stored => None
         case BadValue => Some(InvalidPayload)
         case NoSuchMetric => Some(UnknownMetric))
  }

  /** A hand-over does to the record what its kind says, and gives the reason its kind says, whenever it happens. */
  lemma HandOversHaveTheirOutcome(cfg: Config, n: Node, pending: nat, m: Message)
    requires Inv(cfg, n, pending)
    ensures var (n', refused) := HandedOver(cfg, n, m); (n'.trace, refused) == Outcome(cfg, n.trace, m)
  {
    if !m.body.NData? {
      assert DeviceKnown(cfg, n.devices, n.trace, m.body.device);
    }
    hide Seen, DeviceAlive, DeviceStoreLive, Proper;
  }

  /** Messages one after the other, until the first that gives a reason. */
  ghost function Outcomes(cfg: Config, t: Trace, ms: seq<Message>): (Trace, Option<Reason>)
    decreases |ms|
  {
    if ms == [] then (t, None)
    else
      var (t', refused) := Outcome(cfg, t, ms[0]);
      if refused.Some? then (t', refused) else Outcomes(cfg, t', ms[1..])
  }

  lemma {:induction false} DrainHasItsOutcome(cfg: Config, n: Node)
    requires Inv(cfg, n) && n.resequencer.Valid()
    ensures var (n', refused) := DrainHandled(cfg, n);
            (n'.trace, refused) == Outcomes(cfg, n.trace, DrainAll(n.resequencer).1)
    decreases |n.resequencer.buffer|
  {
    DrainedKeepsValid(n.resequencer);
    ReleasedKeeps(cfg, n);
    var (s, d) := Drained(n.resequencer);
    hide Inv, Outcome, HandedOver;
    if d.Message? {
      var n1 := n.(resequencer := s);
      HandOversHaveTheirOutcome(cfg, n1, 1, d.message);
      HandedOverKeeps(cfg, n1, d.message);
      HandedOverFrame(cfg, n1, d.message);
      var due := DrainAll(n.resequencer).1;
      assert due == [d.message] + DrainAll(s).1 && due[1..] == DrainAll(s).1;
      var (n2, refused) := HandedOver(cfg, n1, d.message);
      if refused.None? {
        DrainHasItsOutcome(cfg, n2);
      }
    }
  }

  // Sequenced messages

  /** A message of that number is put aside. */
  ghost predicate Held(s: ReorderState<Message>, number: U8) {
    exists k :: k in s.buffer && s.buffer[k].seqNumber == number
  }

  lemma HeldUnderItsKey(s: ReorderState<Message>, number: U8)
    requires s.Valid() && ReorderSafety.Keyed(s)
    ensures Held(s, number) <==> s.phase.ReSequencing? && Sub8(number, s.phase.offset) in s.buffer
  {
    if s.phase.ReSequencing? {
      SubAdd(number, s.phase.offset);
      forall k | k in s.buffer ensures Sub8(s.buffer[k].seqNumber, s.phase.offset) == k {
        AddSub(k, s.phase.offset);
      }
      hide Sub8, Add8;
    }
  }

  /** What a message that is next releases: itself and what was waiting for it. */
  ghost function Released(s: ReorderState<Message>, m: Message): seq<Message> {
    var next := s.(nextSeq := Succ8(s.nextSeq));
    if next.Valid() then [m] + DrainAll(next).1 else [m]
  }

  /**
   What a sequenced message adds to the record, and the reason it gives. Nothing, if it is older than the
   latest birth or stale transition; outside a session, that the recorded state is stale; without
   resequencing, what its hand-over gives. With it, a number already put aside is a failure, one that is
   not next is put aside, and the next one is handed over with what it releases, up to the first objection.
   */
  ghost function SequencedOutcome(cfg: Config, n: Node, timestamp: nat, m: Message): (Trace, Option<Reason>) {
    var t := n.trace;
    if timestamp < LastAccepted(t) || timestamp < LastStale(t) then (t, None)
    else if SinceBirth(t).None? then (t, Some(RecordedStateStale))
    else if !cfg.resequence then Outcome(cfg, t, m)
    else if Held(n.resequencer, m.seqNumber) then (t, Some(ReorderFail))
    else if m.seqNumber != (|SinceBirth(t).value| + 1) % 256 then (t, None)
    else Outcomes(cfg, t, Released(n.resequencer, m))
  }

  lemma NextHasItsOutcome(cfg: Config, n: Node, timestamp: nat, m: Message)
    requires Inv(cfg, n) && n.resequencer.Valid() && cfg.resequence && n.lifecycle.Birthed?
    requires n.birthTimestamp <= timestamp && n.staleTimestamp <= timestamp
    requires Processed(n.resequencer, m.seqNumber, m).1.MessageNextInSequence?
    ensures var (n', refused) := SequencedHandled(cfg, n, timestamp, m);
            (n'.trace, refused) == Outcomes(cfg, n.trace, Released(n.resequencer, m))
  {
    ProcessedKeepsValid(n.resequencer, m.seqNumber, m);
    ProcessedKeeps(cfg, n, m);
    var s := Processed(n.resequencer, m.seqNumber, m).0;
    assert s == n.resequencer.(nextSeq := Succ8(n.resequencer.nextSeq));
    var n1 := n.(resequencer := s);
    var released := Released(n.resequencer, m);
    assert released == [m] + DrainAll(s).1 && released[1..] == DrainAll(s).1;
    HandOversHaveTheirOutcome(cfg, n1, 1, m);
    HandedOverKeeps(cfg, n1, m);
    HandedOverFrame(cfg, n1, m);
    hide Inv, Outcome, HandedOver, Processed, Released;
    var (n2, refused) := HandedOver(cfg, n1, m);
    if refused.None? {
      DrainHasItsOutcome(cfg, n2);
    }
  }

  lemma MessagesHaveTheirOutcome(cfg: Config, n: Node, timestamp: nat, m: Message)
    requires Inv(cfg, n) && n.resequencer.Valid()
    ensures var (n', refused) := SequencedHandled(cfg, n, timestamp, m);
            (n'.trace, refused) == SequencedOutcome(cfg, n, timestamp, m)
  {
    assert n.birthTimestamp == LastAccepted(n.trace) && n.staleTimestamp == LastStale(n.trace);
    assert n.lifecycle.Birthed? <==> SinceBirth(n.trace).Some?;
    if n.birthTimestamp <= timestamp && n.staleTimestamp <= timestamp && n.lifecycle.Birthed? {
      if cfg.resequence {
        HeldUnderItsKey(n.resequencer, m.seqNumber);
        ProcessedKeepsValid(n.resequencer, m.seqNumber, m);
        assert n.resequencer.nextSeq == (|SinceBirth(n.trace).value| + 1) % 256;
        hide Inv, Processed, Held, Outcomes, Released, HandedOver;
        if Processed(n.resequencer, m.seqNumber, m).1.MessageNextInSequence? {
          NextHasItsOutcome(cfg, n, timestamp, m);
        }
      } else {
        assert Inv(cfg, n, 1);
        HandOversHaveTheirOutcome(cfg, n, 1, m);
        hide Inv, HandedOver, Outcome;
      }
    }
  }

  /** A message that is put aside is held after that, and one that is not gives no reason only if it is too old. */
  lemma PutAsideIsHeld(cfg: Config, n: Node, timestamp: nat, m: Message)
    requires Inv(cfg, n) && n.resequencer.Valid() && cfg.resequence && n.lifecycle.Birthed?
    requires LastAccepted(n.trace) <= timestamp && LastStale(n.trace) <= timestamp
    requires !Held(n.resequencer, m.seqNumber) && m.seqNumber != (|SinceBirth(n.trace).value| + 1) % 256
    ensures var s, s' := n.resequencer, SequencedHandled(cfg, n, timestamp, m).0.resequencer;
            && s'.nextSeq == s.nextSeq && Held(s', m.seqNumber)
            && forall number: U8 :: Held(s', number) <==> Held(s, number) || number == m.seqNumber
  {
    HeldUnderItsKey(n.resequencer, m.seqNumber);
    ReorderSafety.SupplyKeepsKeyed(n.resequencer, m);
    ProcessedKeepsValid(n.resequencer, m.seqNumber, m);
    var s, s' := n.resequencer, Processed(n.resequencer, m.seqNumber, m).0;
    var key := Sub8(m.seqNumber, if s.phase.ReSequencing? then s.phase.offset else s.nextSeq);
    assert s'.buffer == s.buffer[key := m] && key !in s.buffer;
    assert SequencedHandled(cfg, n, timestamp, m).0.resequencer == s';
    hide Inv, Processed, Sub8, SequencedHandled, ReorderSafety.Keyed;
    forall number: U8 ensures Held(s', number) <==> Held(s, number) || number == m.seqNumber {
      if Held(s, number) {
        var k :| k in s.buffer && s.buffer[k].seqNumber == number;
        assert k in s'.buffer && s'.buffer[k].seqNumber == number;
      }
      assert key in s'.buffer && s'.buffer[key].seqNumber == m.seqNumber;
    }
  }

  /**
   The reason a running task has to decide on after a sequenced message, and what the message adds to the
   record before that, in every run.
   */
  lemma SequencedReasonsExactly(cfg: Config, inputs: seq<(Input, Clock)>, timestamp: nat, m: Message)
    requires !Run(cfg, inputs).panicked
    ensures var n := Run(cfg, inputs);
            && Raised(cfg, n, Sequenced(timestamp, m)) == SequencedOutcome(cfg, n, timestamp, m).1
            && Handled(cfg, n, Sequenced(timestamp, m)).0.trace == SequencedOutcome(cfg, n, timestamp, m).0
  {
    RunKeeps(cfg, inputs);
    MessagesHaveTheirOutcome(cfg, Run(cfg, inputs), timestamp, m);
    hide Run, Inv, SequencedHandled, SequencedOutcome;
  }

  // Births, deaths, and going offline

  /** The devices that have been seen and have a store. */
  ghost predicate StoredDevices(cfg: Config, t: Trace, names: set<string>) {
    forall d :: d in names <==> Seen(t, d) && cfg.deviceHasStore(d)
  }

  /** Going stale: the transition, the node's store if there is one, and the stores of all devices seen. */
  ghost predicate WentStaleWith(cfg: Config, t: Trace, t': Trace, timestamp: nat) {
    && t'.Then? && t'.action.DeviceStoresStale? && StoredDevices(cfg, t, t'.action.devices)
    && var went := Then(t, WentStale(timestamp));
       t'.before == if cfg.hasStore then Then(went, NodeStoreStale) else went
  }

  lemma StaleExactly(cfg: Config, n: Node, timestamp: nat)
    requires Inv(cfg, n)
    ensures var n' := MadeStale(cfg, n, timestamp);
            if SinceBirth(n.trace).Some? && timestamp >= LastAccepted(n.trace)
            then WentStaleWith(cfg, n.trace, n'.trace, timestamp) && n'.lifecycle.Stale? && !n'.timer
            else n' == n
  {
    forall d ensures d in WithStore(n.devices) <==> Seen(n.trace, d) && cfg.deviceHasStore(d) {
      assert DeviceKnown(cfg, n.devices, n.trace, d);
    }
    hide Seen, DeviceAlive, DeviceStoreLive, Proper;
  }

  /**
   An application that goes offline makes a node stale exactly when it is birthed and the timestamp is not
   older than the birth; an NDEATH does the same, and gives a reason exactly when its bdSeq is not the last
   accepted birth's.
   */
  lemma DeathsAreTakenExactly(cfg: Config, inputs: seq<(Input, Clock)>, bdseq: U8, timestamp: nat)
    requires !Run(cfg, inputs).panicked
    ensures var n := Run(cfg, inputs);
            var t := n.trace;
            var stale := SinceBirth(t).Some? && timestamp >= LastAccepted(t);
            var (offline, none) := Handled(cfg, n, AppOffline(timestamp));
            var (dead, reason) := Handled(cfg, n, NDeath(bdseq, timestamp));
            && (if stale then WentStaleWith(cfg, t, offline.trace, timestamp) else offline == n) && none.None?
            && (if stale then WentStaleWith(cfg, t, dead.trace, timestamp) else dead == n.(timer := false))
            && reason == if bdseq != n.bdseq then Some(OutOfSyncBdSeq) else None
  {
    RunKeeps(cfg, inputs);
    var n := Run(cfg, inputs);
    StaleExactly(cfg, n, timestamp);
    TimerKeeps(cfg, n, false);
    StaleExactly(cfg, n.(timer := false), timestamp);
    hide Run, Inv, MadeStale, WentStaleWith;
  }

  /**
   An NBIRTH not newer than the last accepted one is ignored. The node's store is asked about any other
   exactly when there is one and the birth is not a repeated one of the live session; a refusal gives a
   reason and changes nothing else, and otherwise a session starts.
   */
  lemma BirthsAreTakenExactly(cfg: Config, inputs: seq<(Input, Clock)>, bdseq: U8, timestamp: nat)
    requires !Run(cfg, inputs).panicked
    ensures var n := Run(cfg, inputs);
            var t := n.trace;
            var (n', reason) := Handled(cfg, n, NBirth(bdseq, timestamp));
            var asked := cfg.hasStore && !(SinceBirth(t).Some? && n.bdseq == bdseq);
            if timestamp <= LastAccepted(t) then n' == n && reason.None?
            else if asked && cfg.answers(t) != Stored then
              n' == n.Did(NodeStoreBirth(false)) && reason == Some(InvalidPayload)
            else
              && reason.None? && n'.bdseq == bdseq && !n'.timer && n'.lifecycle.Birthed?
              && n'.resequencer == ReorderState(map[], 1, Good) && n'.devices == n.devices
              && n'.trace == Then(if asked then Then(t, NodeStoreBirth(true)) else t, BirthAccepted(timestamp))
  {
    RunKeeps(cfg, inputs);
    hide Run, Proper, DevicesKnown, ReorderSafety.Keyed;
  }

  // Decisions

  /**
   What a reason comes to: nothing, when it is disabled or asked about too soon; otherwise a request, before
   which a birthed node goes stale, unless the request's stamp is older than the birth.
   */
  ghost predicate Decided(cfg: Config, t: Trace, t': Trace, reason: Reason, clock: Clock) {
    if !cfg.rebirth.Enabled(reason) || clock.now < LastRequest(t) + cfg.rebirth.cooldown then t' == t
    else
      && t'.Then? && t'.action == RebirthRequested(clock.now, reason)
      && if SinceBirth(t).Some? && clock.stamp >= LastAccepted(t)
         then WentStaleWith(cfg, t, t'.before, clock.stamp)
         else t'.before == t
  }

  lemma RequestsAreDecided(cfg: Config, n: Node, reason: Reason, clock: Clock)
    requires Inv(cfg, n)
    ensures Decided(cfg, n.trace, Requested(cfg, n, reason, clock).trace, reason, clock)
  {
    assert n.lastRebirth == LastRequest(n.trace);
    MadeStaleFrame(cfg, n, clock);
    StaleExactly(cfg, n, clock.stamp);
    hide Inv, MadeStale, LastRequest, SinceBirth, LastAccepted, WentStaleWith;
  }

  lemma HandledBirthKeeps(cfg: Config, n: Node, bdseq: U8, timestamp: nat)
    requires Inv(cfg, n) && n.resequencer.Valid()
    ensures Inv(cfg, Handled(cfg, n, NBirth(bdseq, timestamp)).0)
  {
    if timestamp > n.birthTimestamp {
      AcceptedKeeps(cfg, n, bdseq, timestamp, cfg.hasStore && !(n.lifecycle.Birthed? && n.bdseq == bdseq));
      NeutralDevices(cfg, n.devices, n.trace, NodeStoreBirth(false));
    }
    hide AcceptedBirth, Seen, DeviceAlive, DeviceStoreLive;
  }

  lemma HandledKeeps(cfg: Config, n: Node, input: Input)
    requires Inv(cfg, n) && n.resequencer.Valid()
    ensures Inv(cfg, Handled(cfg, n, input).0)
  {
    hide Inv, SequencedHandled, MadeStale;
    match input
    case NBirth(bdseq, timestamp) => HandledBirthKeeps(cfg, n, bdseq, timestamp);
    case NDeath(bdseq, timestamp) =>
      TimerKeeps(cfg, n, false);
      MadeStaleKeeps(cfg, n.(timer := false), timestamp);
    case Sequenced(timestamp, m) => SequencedKeeps(cfg, n, timestamp, m);
    case AppOffline(timestamp) => MadeStaleKeeps(cfg, n, timestamp);
    case _ =>
  }

  /**
   Every input is handled, and its reason, if there is one, decided on, in every run. An undecodable message
   and a request from elsewhere are all reason; the latter is how an expired reorder timer is heard.
   */
  lemma ReasonsAreDecidedExactly(cfg: Config, inputs: seq<(Input, Clock)>, input: Input, clock: Clock)
    requires !Run(cfg, inputs).panicked
    ensures var n := Run(cfg, inputs);
            var (n', raised) := Handled(cfg, n, input);
            var t' := Run(cfg, inputs + [(input, clock)]).trace;
            && (if raised.None? then t' == n'.trace else Decided(cfg, n'.trace, t', raised.value, clock))
            && (input.Undecodable? ==> n' == n && raised == Some(InvalidPayload))
            && (input.RebirthWanted? ==> n' == n && raised == Some(input.reason))
  {
    var n := Run(cfg, inputs);
    RunKeeps(cfg, inputs);
    assert n.resequencer.Valid();
    hide Run, Inv, Step, Requested, Decided, SequencedHandled, MadeStale;
    HandledKeeps(cfg, n, input);
    RunOn(cfg, inputs, (input, clock));
    StepIsHandledAndDecided(cfg, n, input, clock);
    var (n', raised) := Handled(cfg, n, input);
    if raised.Some? {
      RequestsAreDecided(cfg, n', raised.value, clock);
    }
  }

  // Switches

  /** The configuration with one reason's switch set; for the reorder timeout, a duration or none. */
  function Switched(c: RebirthConfig, reason: Reason, on: bool): RebirthConfig {
    match reason
    case InvalidPayload => c.(invalidPayload := on)
    case OutOfSyncBdSeq => c.(outOfSyncBdSeq := on)
    case UnknownNode => c.(unknownNode := on)
    case UnknownDevice => c.(unknownDevice := on)
    case UnknownMetric => c.(unknownMetric := on)
    case ReorderTimeout => c.(reorderTimeout := if on then Some(0) else None)
    case ReorderFail => c.(reorderFailure := on)
    case RecordedStateStale => c.(recordedStateStale := on)
  }

  /** Every reason has a switch of its own, which says nothing about any other. */
  lemma SwitchesAreTheirReasons(c: RebirthConfig, switch: Reason, on: bool, reason: Reason)
    ensures Switched(c, switch, on).Enabled(reason) <==> if reason == switch then on else c.Enabled(reason)
  {
  }

  /** In every run, a rebirth is requested only for a reason whose own switch is on. */
  lemma RequestsObeyTheirSwitch(cfg: Config, inputs: seq<(Input, Clock)>, t: Trace)
    requires Earlier(t, Run(cfg, inputs).trace) && t.Then? && t.action.RebirthRequested?
    ensures var c := cfg.rebirth;
            match t.action.reason
            case InvalidPayload => c.invalidPayload
            case OutOfSyncBdSeq => c.outOfSyncBdSeq
            case UnknownNode => c.unknownNode
            case UnknownDevice => c.unknownDevice
            case UnknownMetric => c.unknownMetric
            case ReorderTimeout => c.reorderTimeout.Some?
            case ReorderFail => c.reorderFailure
            case RecordedStateStale => c.recordedStateStale
  {
    RunKeeps(cfg, inputs);
    EarlierIsProper(cfg, t, Run(cfg, inputs).trace);
  }
}
