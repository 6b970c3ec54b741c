/** What every run of an application's node keeps, for all inputs, clocks, store answers and configurations. */
module HostRuns {
  import opened Bounded
  import opened Options
  import opened Resequencing
  import opened ReorderSafety
  import opened HostNode

  /** The messages handed over since the node was last birthed; none while it is stale. */
  ghost function SinceBirth(t: Trace): Option<seq<Message>> {
    match t
    case Nothing => None
    case Then(_, BirthAccepted(_)) => Some([])
    case Then(_, WentStale(_)) => None
    case Then(before, Handed(m)) => if SinceBirth(before).Some? then Some(SinceBirth(before).value + [m]) else None
    case Then(before, _) => SinceBirth(before)
  }

  /** Whether the node's store has seen a successful birth with no later `set_stale`. */
  ghost predicate NodeStoreLive(t: Trace) {
    match t
    case Nothing => false
    case Then(before, NodeStoreBirth(ok)) => ok || NodeStoreLive(before)
    case Then(_, NodeStoreStale) => false
    case Then(before, _) => NodeStoreLive(before)
  }

  /** The same for the store of one device. */
  ghost predicate DeviceStoreLive(t: Trace, device: string) {
    match t
    case Nothing => false
    case Then(before, DeviceStoreBirth(d, ok)) => (d == device && ok) || DeviceStoreLive(before, device)
    case Then(before, DeviceStoresStale(ds)) => device !in ds && DeviceStoreLive(before, device)
    case Then(before, _) => DeviceStoreLive(before, device)
  }

  /** Whether a DBIRTH of the device has been handed over. */
  ghost predicate Seen(t: Trace, device: string) {
    t.Then? &&
    (Seen(t.before, device)
     || (t.action.Handed? && t.action.message.body.DBirth? && t.action.message.body.device == device))
  }

  /**
   Whether the latest of the device's DBIRTHs, DDEATHs and the node's deaths was a DBIRTH its store, if any,
   accepted.
   */
  ghost predicate DeviceAlive(cfg: Config, t: Trace, device: string) {
    match t
    case Nothing => false
    case Then(_, WentStale(_)) => false
    case Then(before, Handed(m)) =>
      if m.body == DDeath(device) then false
      else
        || (m.body.DBirth? && m.body.device == device && !cfg.deviceHasStore(device))
        || DeviceAlive(cfg, before, device)
    case Then(before, DeviceStoreBirth(d, ok)) => (d == device && ok) || DeviceAlive(cfg, before, device)
    case Then(before, _) => DeviceAlive(cfg, before, device)
  }

  ghost function LastAccepted(t: Trace): nat {
    match t
    case Nothing => 0
    case Then(_, BirthAccepted(timestamp)) => timestamp
    case Then(before, _) => LastAccepted(before)
  }

  /** The timestamp of the latest stale transition. */
  ghost function LastStale(t: Trace): nat {
    match t
    case Nothing => 0
    case Then(_, WentStale(timestamp)) => timestamp
    case Then(before, _) => LastStale(before)
  }

  ghost function LastRequest(t: Trace): nat {
    match t
    case Nothing => 0
    case Then(_, RebirthRequested(at, _)) => at
    case Then(before, _) => LastRequest(before)
  }

  /** What a node may do next, given what it has done. */
  ghost predicate Allowed(cfg: Config, t: Trace, action: Action) {
    match action
    // accepted birth timestamps strictly increase
    case BirthAccepted(timestamp) => timestamp > LastAccepted(t)
    // messages are handed over only while birthed, numbered 1, 2, 3, ... modulo 256 since the birth
    case Handed(m) => SinceBirth(t).Some? && (cfg.resequence ==> m.seqNumber == (|SinceBirth(t).value| + 1) % 256)
    // stores see data, and the node's store is told to go stale, only while live
    case NodeStoreData(_) => NodeStoreLive(t)
    case NodeStoreStale => NodeStoreLive(t)
    case DeviceStoreData(d, _) => DeviceStoreLive(t, d)
    // rebirth requests have an enabled reason and are a cooldown apart
    case RebirthRequested(at, reason) => cfg.rebirth.Enabled(reason) && at >= LastRequest(t) + cfg.rebirth.cooldown
    case _ => true
  }

  ghost predicate Proper(cfg: Config, t: Trace) {
    t.Then? ==> Proper(cfg, t.before) && Allowed(cfg, t.before, t.action)
  }

  /** A stale node holds nothing that is not stale. */
  ghost predicate StaleIsClosed(n: Node) {
    n.lifecycle.Stale? ==>
      && (forall d :: d in n.devices ==> n.devices[d].lifecycle.Stale?)
      && n.resequencer == Fresh()
      && !n.timer
  }

  /** `pending` counts messages the resequencer has released that are not yet handed over. */
  ghost predicate Numbered(cfg: Config, n: Node, pending: nat := 0) {
    && n.resequencer.Valid()
    && (n.lifecycle.Birthed? <==> SinceBirth(n.trace).Some?)
    && Keyed(n.resequencer)
    && (cfg.resequence && n.lifecycle.Birthed? ==>
          n.resequencer.nextSeq == (|SinceBirth(n.trace).value| + 1 + pending) % 256)
  }

  /** The node's store is live exactly while the node is birthed. */
  ghost predicate StoreKnown(cfg: Config, n: Node) {
    cfg.hasStore ==> (n.lifecycle.Birthed? <==> NodeStoreLive(n.trace))
  }

  /** A device's state is what the record says it should be. */
  ghost predicate DeviceKnown(cfg: Config, devices: map<string, Device>, t: Trace, d: string) {
    && (d in devices <==> Seen(t, d))
    && (d !in devices ==> !DeviceAlive(cfg, t, d) && !DeviceStoreLive(t, d))
    && (d in devices ==>
          && devices[d].hasStore == cfg.deviceHasStore(d)
          && (devices[d].lifecycle.Birthed? <==> DeviceAlive(cfg, t, d))
          && (devices[d].hasStore ==> (devices[d].lifecycle.Birthed? <==> DeviceStoreLive(t, d))))
  }

  ghost predicate DevicesKnown(cfg: Config, devices: map<string, Device>, t: Trace) {
    forall d :: DeviceKnown(cfg, devices, t, d)
  }

  ghost predicate TimesKnown(n: Node) {
    && n.birthTimestamp == LastAccepted(n.trace) && n.lastRebirth == LastRequest(n.trace)
    && n.staleTimestamp == LastStale(n.trace)
  }

  ghost predicate Core(cfg: Config, n: Node, pending: nat := 0) {
    && Numbered(cfg, n, pending)
    && StoreKnown(cfg, n)
    && TimesKnown(n)
    && Proper(cfg, n.trace)
  }

  ghost predicate Inv(cfg: Config, n: Node, pending: nat := 0) {
    && Core(cfg, n, pending)
    && StaleIsClosed(n)
    && DevicesKnown(cfg, n.devices, n.trace)
  }

  lemma MadeStaleKeeps(cfg: Config, n: Node, timestamp: nat)
    requires Inv(cfg, n)
    ensures var n' := MadeStale(cfg, n, timestamp);
            && Inv(cfg, n')
            && LastRequest(n'.trace) == LastRequest(n.trace)
  {
    if n.lifecycle.Birthed? && n.birthTimestamp <= timestamp {
      var t0 := n.trace;
      var t1 := Then(t0, WentStale(timestamp));
      var t2 := if cfg.hasStore then Then(t1, NodeStoreStale) else t1;
      var t3 := Then(t2, DeviceStoresStale(WithStore(n.devices)));
      assert NodeStoreLive(t1) == NodeStoreLive(t0);
      assert cfg.hasStore ==> !NodeStoreLive(t2);
      assert SinceBirth(t1) == SinceBirth(t2) == SinceBirth(t3) == None;
      assert LastAccepted(t0) == LastAccepted(t1) == LastAccepted(t2) == LastAccepted(t3);
      assert LastRequest(t0) == LastRequest(t1) == LastRequest(t2) == LastRequest(t3);
      assert timestamp == LastStale(t1) == LastStale(t2) == LastStale(t3);
      assert Proper(cfg, t1) && Proper(cfg, t2) && Proper(cfg, t3);
      MadeStaleDevices(cfg, n, timestamp);
    }
  }

  lemma MadeStaleDevices(cfg: Config, n: Node, timestamp: nat)
    requires DevicesKnown(cfg, n.devices, n.trace) && n.lifecycle.Birthed? && n.birthTimestamp <= timestamp
    ensures var n' := MadeStale(cfg, n, timestamp); DevicesKnown(cfg, n'.devices, n'.trace)
  {
    var n' := MadeStale(cfg, n, timestamp);
    var t1 := Then(n.trace, WentStale(timestamp));
    var t2 := if cfg.hasStore then Then(t1, NodeStoreStale) else t1;
    var t3 := Then(t2, DeviceStoresStale(WithStore(n.devices)));
    assert n'.trace == t3 && n'.devices == AllStale(n.devices);
    forall d
      ensures DeviceKnown(cfg, n'.devices, n'.trace, d)
    {
      assert DeviceKnown(cfg, n.devices, n.trace, d);
      assert Seen(t1, d) == Seen(n.trace, d) && Seen(t2, d) == Seen(t1, d);
      assert !DeviceAlive(cfg, t1, d) && !DeviceAlive(cfg, t2, d);
      assert DeviceStoreLive(t1, d) == DeviceStoreLive(n.trace, d) && DeviceStoreLive(t2, d) == DeviceStoreLive(t1, d);
    }
  }

  /** Actions that are not about devices. */
  lemma NeutralDevices(cfg: Config, devices: map<string, Device>, t: Trace, action: Action)
    requires DevicesKnown(cfg, devices, t)
    requires action.BirthAccepted? || action.NodeStoreBirth? || action.RebirthRequested?
    ensures DevicesKnown(cfg, devices, Then(t, action))
  {
    forall d ensures DeviceKnown(cfg, devices, Then(t, action), d) {
      assert DeviceKnown(cfg, devices, t, d);
    }
  }

  /** Asking for a rebirth at a time when it may be asked for. */
  lemma AskedKeeps(cfg: Config, n: Node, reason: Reason, now: nat)
    requires Inv(cfg, n) && cfg.rebirth.Enabled(reason) && now >= n.lastRebirth + cfg.rebirth.cooldown
    ensures Inv(cfg, n.(lastRebirth := now).Did(RebirthRequested(now, reason)))
  {
    NeutralDevices(cfg, n.devices, n.trace, RebirthRequested(now, reason));
  }

  lemma RequestedKeeps(cfg: Config, n: Node, reason: Reason, clock: Clock)
    requires Inv(cfg, n)
    ensures Inv(cfg, Requested(cfg, n, reason, clock))
  {
    var (n', go) := Evaluated(cfg, n, reason, clock.now);
    if go {
      MadeStaleKeeps(cfg, n, clock.stamp);
      MadeStaleFrame(cfg, n, clock);
      hide MadeStale, Inv;
      AskedKeeps(cfg, MadeStale(cfg, n, clock.stamp), reason, clock.now);
    } else {
      assert Requested(cfg, n, reason, clock) in {n, n.(panicked := true)};
    }
  }

  lemma MadeStaleFrame(cfg: Config, n: Node, clock: Clock)
    ensures MadeStale(cfg, n.(lastRebirth := clock.now), clock.stamp) ==
              MadeStale(cfg, n, clock.stamp).(lastRebirth := clock.now)
    ensures MadeStale(cfg, n, clock.stamp).lastRebirth == n.lastRebirth
  {
  }

  /** A birth is accepted once the store, if there is one to tell, has accepted it. */
  lemma AcceptedKeeps(cfg: Config, n: Node, bdseq: U8, timestamp: nat, told: bool)
    requires Inv(cfg, n) && timestamp > n.birthTimestamp
    requires cfg.hasStore && !told ==> n.lifecycle.Birthed?
    ensures Inv(cfg, AcceptedBirth(if told then n.Did(NodeStoreBirth(true)) else n, bdseq, timestamp))
  {
    var n' := if told then n.Did(NodeStoreBirth(true)) else n;
    if told {
      NeutralDevices(cfg, n.devices, n.trace, NodeStoreBirth(true));
    }
    NeutralDevices(cfg, n.devices, n'.trace, BirthAccepted(timestamp));
    assert Proper(cfg, n'.trace) && LastAccepted(n'.trace) == LastAccepted(n.trace) &&
      LastRequest(n'.trace) == LastRequest(n.trace);
  }

  lemma BirthKeeps(cfg: Config, n: Node, bdseq: U8, timestamp: nat, clock: Clock)
    requires Inv(cfg, n)
    ensures Inv(cfg, BirthHandled(cfg, n, bdseq, timestamp, clock))
  {
    if timestamp > n.birthTimestamp {
      if cfg.hasStore && !(n.lifecycle.Birthed? && n.bdseq == bdseq) {
        if cfg.answers(n.trace) == Stored {
          AcceptedKeeps(cfg, n, bdseq, timestamp, true);
        } else {
          NeutralDevices(cfg, n.devices, n.trace, NodeStoreBirth(false));
          RequestedKeeps(cfg, n.Did(NodeStoreBirth(false)), InvalidPayload, clock);
        }
      } else {
        AcceptedKeeps(cfg, n, bdseq, timestamp, false);
      }
    }
  }

  lemma DeathKeeps(cfg: Config, n: Node, bdseq: U8, timestamp: nat, clock: Clock)
    requires Inv(cfg, n)
    ensures Inv(cfg, DeathHandled(cfg, n, bdseq, timestamp, clock))
  {
    hide MadeStale, Requested;
    var n1 := n.(timer := false);
    MadeStaleKeeps(cfg, n1, timestamp);
    RequestedKeeps(cfg, MadeStale(cfg, n1, timestamp), OutOfSyncBdSeq, clock);
  }

  /** Actions of the stores that change nothing the node itself relies on. */
  lemma ToldKeeps(cfg: Config, n: Node, action: Action)
    requires Core(cfg, n) && Allowed(cfg, n.trace, action)
    requires action.NodeStoreData? || action.DeviceStoreData? || action.DeviceStoreBirth? || action.DeviceStoresStale?
    ensures Core(cfg, n.Did(action))
  {
  }

  lemma HandedKeeps(cfg: Config, n: Node, m: Message)
    requires Core(cfg, n, 1) && n.lifecycle.Birthed?
    requires cfg.resequence ==> Succ8(m.seqNumber) == n.resequencer.nextSeq
    ensures Core(cfg, n.Did(Handed(m)))
  {
    if cfg.resequence {
      BeforeNext(m.seqNumber, |SinceBirth(n.trace).value| + 1);
    }
    hide Succ8, Keyed, NodeStoreLive;
  }

  lemma BeforeNext(x: U8, k: nat)
    requires Succ8(x) == (k + 1) % 256
    ensures x == k % 256
  {
  }

  /** The actions of one hand-over, besides the hand-over itself. */
  ghost function Consequence(cfg: Config, n: Node, body: Event): Option<Action> {
    match body
    case NData(_) => if cfg.hasStore then Some(NodeStoreData(cfg.answers(n.trace) == Stored)) else None
    case DBirth(d, _) =>
      if !(if d in n.devices then n.devices[d].hasStore else cfg.deviceHasStore(d)) then None
      else Some(DeviceStoreBirth(d, cfg.answers(n.trace) == Stored))
    case DDeath(d) => if d in n.devices && n.devices[d].hasStore then Some(DeviceStoresStale({d})) else None
    case DData(d, _) =>
      if d in n.devices && n.devices[d].lifecycle.Birthed? && n.devices[d].hasStore
      then Some(DeviceStoreData(d, cfg.answers(n.trace) == Stored)) else None
  }

  lemma HandedOverTrace(cfg: Config, n0: Node, m: Message)
    ensures var n := n0.Did(Handed(m));
            var c := Consequence(cfg, n, m.body);
            HandedOver(cfg, n0, m).0.trace == if c.Some? then Then(n.trace, c.value) else n.trace
  {
  }

  lemma HandedOverCore(cfg: Config, n0: Node, m: Message)
    requires Inv(cfg, n0, 1) && n0.lifecycle.Birthed?
    requires cfg.resequence ==> Succ8(m.seqNumber) == n0.resequencer.nextSeq
    ensures Core(cfg, HandedOver(cfg, n0, m).0)
  {
    HandedKeeps(cfg, n0, m);
    HandedOverFrame(cfg, n0, m);
    HandedOverTrace(cfg, n0, m);
    var n := n0.Did(Handed(m));
    var c := Consequence(cfg, n, m.body);
    assert cfg.hasStore ==> NodeStoreLive(n.trace);
    if c.Some? && c.value.DeviceStoreData? {
      var d := c.value.device;
      assert DeviceKnown(cfg, n0.devices, n0.trace, d);
      assert DeviceStoreLive(n.trace, d);
    }
    hide HandedOver;
    if c.Some? {
      ToldKeeps(cfg, n, c.value);
    }
  }

  lemma HandedOverDevices(cfg: Config, n0: Node, m: Message)
    requires DevicesKnown(cfg, n0.devices, n0.trace)
    ensures var n' := HandedOver(cfg, n0, m).0; DevicesKnown(cfg, n'.devices, n'.trace)
  {
    forall d {
      HandedOverDevice(cfg, n0, m, d);
    }
  }

  lemma HandedOverDevice(cfg: Config, n0: Node, m: Message, d: string)
    requires DeviceKnown(cfg, n0.devices, n0.trace, d)
    ensures var n' := HandedOver(cfg, n0, m).0; DeviceKnown(cfg, n'.devices, n'.trace, d)
  {
    var t := Then(n0.trace, Handed(m));
    HandedOverTrace(cfg, n0, m);
    assert DeviceStoreLive(t, d) == DeviceStoreLive(n0.trace, d);
    if m.body.NData? || m.body.device != d {
      HandedOverOther(cfg, n0, m, d);
    } else {
      HandedOverOwn(cfg, n0, m);
    }
  }

  /** A hand-over leaves the devices it does not name alone. */
  lemma HandedOverOther(cfg: Config, n0: Node, m: Message, d: string)
    requires m.body.NData? || m.body.device != d
    ensures var n' := HandedOver(cfg, n0, m).0;
            && (d in n'.devices <==> d in n0.devices)
            && (d in n0.devices ==> n'.devices[d] == n0.devices[d])
            && Seen(n'.trace, d) == Seen(n0.trace, d)
            && DeviceAlive(cfg, n'.trace, d) == DeviceAlive(cfg, n0.trace, d)
            && DeviceStoreLive(n'.trace, d) == DeviceStoreLive(n0.trace, d)
  {
    HandedOverTrace(cfg, n0, m);
    var t := Then(n0.trace, Handed(m));
    assert Seen(t, d) == Seen(n0.trace, d);
    assert DeviceAlive(cfg, t, d) == DeviceAlive(cfg, n0.trace, d);
    assert DeviceStoreLive(t, d) == DeviceStoreLive(n0.trace, d);
  }

  lemma HandedOverOwn(cfg: Config, n0: Node, m: Message)
    requires !m.body.NData?
    requires DeviceKnown(cfg, n0.devices, n0.trace, m.body.device)
    ensures var n' := HandedOver(cfg, n0, m).0; DeviceKnown(cfg, n'.devices, n'.trace, m.body.device)
  {
    HandedOverTrace(cfg, n0, m);
    var d := m.body.device;
    var t := Then(n0.trace, Handed(m));
    assert Seen(t, d) == (Seen(n0.trace, d) || m.body.DBirth?);
    assert DeviceAlive(cfg, t, d) ==
      (!m.body.DDeath? && ((m.body.DBirth? && !cfg.deviceHasStore(d)) || DeviceAlive(cfg, n0.trace, d)));
    assert DeviceStoreLive(t, d) == DeviceStoreLive(n0.trace, d);
  }

  lemma HandedOverKeeps(cfg: Config, n: Node, m: Message)
    requires Inv(cfg, n, 1) && n.lifecycle.Birthed?
    requires cfg.resequence ==> Succ8(m.seqNumber) == n.resequencer.nextSeq
    ensures var n' := HandedOver(cfg, n, m).0; Inv(cfg, n') && n'.lifecycle.Birthed?
  {
    HandedOverCore(cfg, n, m);
    HandedOverDevices(cfg, n, m);
    HandedOverFrame(cfg, n, m);
    hide HandedOver;
  }

  lemma ResequencerSetKeeps(cfg: Config, n: Node, s: ReorderState<Message>, pending: nat)
    requires Inv(cfg, n) && n.lifecycle.Birthed?
    requires s.Valid() && Keyed(s)
    requires pending <= 1 && s.nextSeq == (if pending == 0 then n.resequencer.nextSeq else Succ8(n.resequencer.nextSeq))
    ensures Inv(cfg, n.(resequencer := s), pending)
  {
  }

  /** What the resequencer releases is the message numbered next. */
  lemma ReleasedKeeps(cfg: Config, n: Node)
    requires Inv(cfg, n)
    ensures var (s, d) := Drained(n.resequencer);
            var n' := n.(resequencer := s);
            if d.Message? then Inv(cfg, n', 1) && n'.lifecycle.Birthed? && Succ8(d.message.seqNumber) == s.nextSeq
            else n' == n
  {
    TakeKeepsKeyed(n.resequencer);
    var (s, d) := Drained(n.resequencer);
    if d.Message? {
      assert n.lifecycle.Birthed?;
      hide Inv, Keyed, Drained;
      ResequencerSetKeeps(cfg, n, s, 1);
    }
  }

  lemma {:induction false} DrainKeeps(cfg: Config, n: Node)
    requires Inv(cfg, n)
    ensures Inv(cfg, DrainHandled(cfg, n).0)
    decreases |n.resequencer.buffer|
  {
    assert n.resequencer.Valid();
    DrainedKeepsValid(n.resequencer);
    ReleasedKeeps(cfg, n);
    TimerKeeps(cfg, n, false);
    var (s, d) := Drained(n.resequencer);
    hide Inv;
    if d.Message? {
      var n' := n.(resequencer := s);
      HandedOverKeeps(cfg, n', d.message);
      HandedOverFrame(cfg, n', d.message);
      var (n'', refused) := HandedOver(cfg, n', d.message);
      if refused.None? {
        DrainKeeps(cfg, n'');
      }
    }
  }

  lemma TimerKeeps(cfg: Config, n: Node, timer: bool)
    requires Inv(cfg, n) && (timer ==> n.lifecycle.Birthed?)
    ensures Inv(cfg, n.(timer := timer))
  {
  }

  /** What the resequencer makes of an arrival. */
  lemma ProcessedKeeps(cfg: Config, n: Node, m: Message)
    requires Inv(cfg, n) && n.lifecycle.Birthed?
    ensures var (s, p) := Processed(n.resequencer, m.seqNumber, m);
            if p.MessageNextInSequence?
            then p.message == m && Inv(cfg, n.(resequencer := s), 1) && Succ8(m.seqNumber) == s.nextSeq
            else Inv(cfg, n.(resequencer := s))
  {
    SupplyKeepsKeyed(n.resequencer, m);
    var (s, p) := Processed(n.resequencer, m.seqNumber, m);
    hide Inv, Keyed, Processed;
    ResequencerSetKeeps(cfg, n, s, if p.MessageNextInSequence? then 1 else 0);
  }

  lemma SequencedKeeps(cfg: Config, n: Node, timestamp: nat, m: Message)
    requires Inv(cfg, n)
    ensures Inv(cfg, SequencedHandled(cfg, n, timestamp, m).0)
  {
    assert n.resequencer.Valid();
    if n.lifecycle.Birthed? {
      if cfg.resequence {
        ProcessedKeepsValid(n.resequencer, m.seqNumber, m);
        ProcessedKeeps(cfg, n, m);
        var (s, p) := Processed(n.resequencer, m.seqNumber, m);
        var n' := n.(resequencer := s);
        hide Inv, Processed;
        if p.MessageNextInSequence? {
          HandedOverKeeps(cfg, n', m);
          HandedOverFrame(cfg, n', m);
          var (n'', refused) := HandedOver(cfg, n', m);
          if refused.None? {
            DrainKeeps(cfg, n'');
          }
        } else {
          TimerKeeps(cfg, n', n.timer || cfg.rebirth.reorderTimeout.Some?);
        }
      } else {
        assert Inv(cfg, n, 1);
        HandedOverKeeps(cfg, n, m);
      }
    }
  }

  lemma StepKeeps(cfg: Config, n: Node, input: Input, clock: Clock)
    requires Inv(cfg, n)
    ensures Inv(cfg, Step(cfg, n, input, clock))
  {
    assert n.resequencer.Valid();
    hide Inv, BirthHandled, DeathHandled, SequencedHandled, MadeStale, Requested;
    match input
    case NBirth(bdseq, timestamp) => BirthKeeps(cfg, n, bdseq, timestamp, clock);
    case NDeath(bdseq, timestamp) => DeathKeeps(cfg, n, bdseq, timestamp, clock);
    case Sequenced(timestamp, m) =>
      SequencedKeeps(cfg, n, timestamp, m);
      var (n', refused) := SequencedHandled(cfg, n, timestamp, m);
      if refused.Some? {
        RequestedKeeps(cfg, n', refused.value, clock);
      }
    case Undecodable => RequestedKeeps(cfg, n, InvalidPayload, clock);
    case AppOffline(timestamp) => MadeStaleKeeps(cfg, n, timestamp);
    case RebirthWanted(reason) => RequestedKeeps(cfg, n, reason, clock);
  }

  /** A node after any inputs, each with the clock readings of its turn. */
  ghost function Run(cfg: Config, inputs: seq<(Input, Clock)>): (n: Node)
    ensures n.resequencer.Valid()
  {
    if inputs == [] then NewNode()
    else
      var n := Run(cfg, inputs[..|inputs| - 1]);
      var (input, clock) := inputs[|inputs| - 1];
      StepKeepsValid(cfg, n, input, clock);
      Step(cfg, n, input, clock)
  }

  lemma {:induction false} RunKeeps(cfg: Config, inputs: seq<(Input, Clock)>)
    ensures Inv(cfg, Run(cfg, inputs))
  {
    if inputs != [] {
      RunKeeps(cfg, inputs[..|inputs| - 1]);
      var (input, clock) := inputs[|inputs| - 1];
      hide Inv, Step;
      StepKeeps(cfg, Run(cfg, inputs[..|inputs| - 1]), input, clock);
    }
  }
}
