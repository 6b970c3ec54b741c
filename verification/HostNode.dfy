/**
 One edge node as the application sees it: its lifecycle, its devices, the resequencer in front of
 them, and the decision to ask for a rebirth. Metric stores are oracles: their answers may depend on
 everything that has happened before. Clocks are inputs.
 */
module HostNode {
  import opened Bounded
  import opened Options
  import opened Resequencing

  /** The metrics of a payload, which only stores look into. */
  type Details = seq<U8>

  datatype Event =
    | NData(details: Details)
    | DBirth(device: string, details: Details)
    | DDeath(device: string)
    | DData(device: string, details: Details)

  type Message = Tagged<Event>

  datatype Lifecycle = Birthed | Stale

  datatype StoreAnswer = Stored | BadValue | NoSuchMetric

  datatype Reason =
    | InvalidPayload
    | OutOfSyncBdSeq
    | UnknownNode
    | UnknownDevice
    | UnknownMetric
    | ReorderTimeout
    | ReorderFail
    | RecordedStateStale

  /** What a node does that the outside can see, or that its guarantees are about. */
  datatype Action =
    | BirthAccepted(timestamp: nat)
    | WentStale(timestamp: nat)
    | Handed(message: Message)
    | NodeStoreBirth(ok: bool)
    | NodeStoreData(ok: bool)
    | NodeStoreStale
    | DeviceStoreBirth(device: string, ok: bool)
    | DeviceStoreData(device: string, ok: bool)
    | DeviceStoresStale(devices: set<string>)
    | RebirthRequested(at: nat, reason: Reason)

  /** Everything a node has done, the latest action outermost. */
  datatype Trace = Nothing | Then(before: Trace, action: Action)

  datatype RebirthConfig = RebirthConfig(
    cooldown: nat, invalidPayload: bool, outOfSyncBdSeq: bool, unknownNode: bool, unknownDevice: bool,
    unknownMetric: bool, reorderFailure: bool, recordedStateStale: bool, reorderTimeout: Option<nat>)
  {
    predicate Enabled(reason: Reason) {
      match reason
      case InvalidPayload => invalidPayload
      case OutOfSyncBdSeq => outOfSyncBdSeq
      case UnknownNode => unknownNode
      case UnknownDevice => unknownDevice
      case UnknownMetric => unknownMetric
      case ReorderTimeout => reorderTimeout.Some?
      case ReorderFail => reorderFailure
      case RecordedStateStale => recordedStateStale
    }
  }

  /** `hasStore` and `deviceHasStore` say where the callbacks registered a store; `answers` is what stores answer. */
  datatype Config = Config(
    rebirth: RebirthConfig, resequence: bool,
    hasStore: bool, deviceHasStore: string -> bool, answers: Trace -> StoreAnswer)

  datatype Device = Device(lifecycle: Lifecycle, hasStore: bool)

  /** The two clock readings of a rebirth decision: time since the epoch, and the millisecond stamp taken after it. */
  datatype Clock = Clock(now: nat, stamp: nat)

  /** `panicked` records the underflow of `now - last_rebirth`, which ends the node's task. */
  datatype Node = Node(
    resequencer: ReorderState<Message>, devices: map<string, Device>, timer: bool, lifecycle: Lifecycle,
    birthTimestamp: nat, staleTimestamp: nat, bdseq: U8, lastRebirth: nat, panicked: bool, trace: Trace)
  {
    function Did(action: Action): Node {
      this.(trace := Then(trace, action))
    }
  }

  function NewNode(): Node {
    Node(Fresh(), map[], false, Stale, 0, 0, 0, 0, false, Nothing)
  }

  function AllStale(devices: map<string, Device>): map<string, Device> {
    map name | name in devices :: devices[name].(lifecycle := Stale)
  }

  function WithStore(devices: map<string, Device>): set<string> {
    set name | name in devices && devices[name].hasStore
  }

  function MadeStale(cfg: Config, n: Node, timestamp: nat): (r: Node)
    ensures n.resequencer.Valid() ==> r.resequencer.Valid()
  {
    if n.lifecycle.Stale? || timestamp < n.birthTimestamp then n
    else
      var n1 := n.(resequencer := Fresh(), timer := false, lifecycle := Stale, staleTimestamp := timestamp)
                 .Did(WentStale(timestamp));
      var n2 := if cfg.hasStore then n1.Did(NodeStoreStale) else n1;
      n2.(devices := AllStale(n.devices)).Did(DeviceStoresStale(WithStore(n.devices)))
  }

  /** Whether a rebirth may be requested now; doing so restarts the cooldown. */
  function Evaluated(cfg: Config, n: Node, reason: Reason, now: nat): (Node, bool) {
    if !cfg.rebirth.Enabled(reason) then (n, false)
    else if now < n.lastRebirth then (n.(panicked := true), false)
    else if now - n.lastRebirth < cfg.rebirth.cooldown then (n, false)
    else (n.(lastRebirth := now), true)
  }

  function Requested(cfg: Config, n: Node, reason: Reason, clock: Clock): (r: Node)
    ensures n.resequencer.Valid() ==> r.resequencer.Valid()
  {
    var (n', go) := Evaluated(cfg, n, reason, clock.now);
    if go then MadeStale(cfg, n', clock.stamp).Did(RebirthRequested(clock.now, reason)) else n'
  }

  function AcceptedBirth(n: Node, bdseq: U8, timestamp: nat): Node {
    n.(timer := false, birthTimestamp := timestamp, lifecycle := Birthed, bdseq := bdseq,
       resequencer := Fresh<Message>().(nextSeq := 1)).Did(BirthAccepted(timestamp))
  }

  function BirthHandled(cfg: Config, n: Node, bdseq: U8, timestamp: nat, clock: Clock): (r: Node)
    ensures n.resequencer.Valid() ==> r.resequencer.Valid()
  {
    if timestamp <= n.birthTimestamp then n
    else if cfg.hasStore && !(n.lifecycle.Birthed? && n.bdseq == bdseq) then
      var ok := cfg.answers(n.trace) == Stored;
      var n' := n.Did(NodeStoreBirth(ok));
      if ok then AcceptedBirth(n', bdseq, timestamp) else Requested(cfg, n', InvalidPayload, clock)
    else AcceptedBirth(n, bdseq, timestamp)
  }

  function DeathHandled(cfg: Config, n: Node, bdseq: U8, timestamp: nat, clock: Clock): (r: Node)
    ensures n.resequencer.Valid() ==> r.resequencer.Valid()
  {
    var n' := MadeStale(cfg, n.(timer := false), timestamp);
    if bdseq != n'.bdseq then Requested(cfg, n', OutOfSyncBdSeq, clock) else n'
  }

  /** Hand a message over to the stores; the second result is the reason to ask for a rebirth, if any. */
  function HandedOver(cfg: Config, n0: Node, m: Message): (Node, Option<Reason>) {
    var n := n0.Did(Handed(m));
    match m.body
    case NData(_) =>
      if !cfg.hasStore then (n, None)
      else
        var ok := cfg.answers(n.trace) == Stored;
        (n.Did(NodeStoreData(ok)), if ok then None else Some(InvalidPayload))
    case DBirth(d, _) =>
      var device := if d in n.devices then n.devices[d] else Device(Stale, cfg.deviceHasStore(d));
      var n1 := n.(devices := n.devices[d := device]);
      if !device.hasStore then (n1.(devices := n.devices[d := device.(lifecycle := Birthed)]), None)
      else
        var ok := cfg.answers(n.trace) == Stored;
        var n2 := n1.Did(DeviceStoreBirth(d, ok));
        if ok then (n2.(devices := n.devices[d := device.(lifecycle := Birthed)]), None)
        else (n2, Some(InvalidPayload))
    case DDeath(d) =>
      if d !in n.devices then (n, Some(UnknownDevice))
      else
        var n1 := n.(devices := n.devices[d := n.devices[d].(lifecycle := Stale)]);
        (if n.devices[d].hasStore then n1.Did(DeviceStoresStale({d})) else n1, None)
    case DData(d, _) =>
      if d !in n.devices then (n, Some(UnknownDevice))
      else if n.devices[d].lifecycle.Stale? then (n, Some(RecordedStateStale))
      else if !n.devices[d].hasStore then (n, None)
      else
        var answer := cfg.answers(n.trace);
        (n.Did(DeviceStoreData(d, answer == Stored)),
         match answer
         case Stored => None
         case BadValue => Some(InvalidPayload)
         case NoSuchMetric => Some(UnknownMetric))
  }

  /** Hand-over leaves the resequencer and the node's own lifecycle alone. */
  lemma HandedOverFrame(cfg: Config, n: Node, m: Message)
    ensures var n' := HandedOver(cfg, n, m).0;
            n' == n.(devices := n'.devices, trace := n'.trace)
  {
  }

  /** Hand over what has become due, until nothing is or a store objects. */
  function DrainHandled(cfg: Config, n: Node): (r: (Node, Option<Reason>))
    requires n.resequencer.Valid()
    ensures r.0.resequencer.Valid()
    decreases |n.resequencer.buffer|
  {
    DrainedKeepsValid(n.resequencer);
    var (s, d) := Drained(n.resequencer);
    var n' := n.(resequencer := s);
    match d
    case Message(m) =>
      HandedOverFrame(cfg, n', m);
      var (n'', refused) := HandedOver(cfg, n', m);
      if refused.Some? then (n'', refused) else DrainHandled(cfg, n'')
    case Empty => (n'.(timer := false), None)
    case SequenceMissing => (n', None)
  }

  function SequencedHandled(cfg: Config, n: Node, timestamp: nat, m: Message): (r: (Node, Option<Reason>))
    requires n.resequencer.Valid()
    ensures r.0.resequencer.Valid()
  {
    HandedOverFrame(cfg, n, m);
    if timestamp < n.birthTimestamp || timestamp < n.staleTimestamp then (n, None)
    else if n.lifecycle.Stale? then (n, Some(RecordedStateStale))
    else if !cfg.resequence then HandedOver(cfg, n, m)
    else
      ProcessedKeepsValid(n.resequencer, m.seqNumber, m);
      var (s, p) := Processed(n.resequencer, m.seqNumber, m);
      var n' := n.(resequencer := s);
      match p
      case OutOfSequenceMessageInserted =>
        (n'.(timer := n.timer || cfg.rebirth.reorderTimeout.Some?), None)
      case DuplicateMessageSequence => (n', Some(ReorderFail))
      case MessageNextInSequence(m') =>
        HandedOverFrame(cfg, n', m');
        var (n'', refused) := HandedOver(cfg, n', m');
        if refused.Some? then (n'', refused) else DrainHandled(cfg, n'')
  }

  function MessageHandled(cfg: Config, n: Node, timestamp: nat, m: Message, clock: Clock): (r: Node)
    requires n.resequencer.Valid()
    ensures r.resequencer.Valid()
  {
    var (n', refused) := SequencedHandled(cfg, n, timestamp, m);
    if refused.Some? then Requested(cfg, n', refused.value, clock) else n'
  }

  /** What reaches a node's task: messages, the application going offline, and requests from its rebirth channel. */
  datatype Input =
    | NBirth(bdseq: U8, timestamp: nat)
    | NDeath(bdseq: U8, timestamp: nat)
    | Sequenced(timestamp: nat, message: Message)
    | Undecodable
    | AppOffline(timestamp: nat)
    | RebirthWanted(reason: Reason)

  function Step(cfg: Config, n: Node, input: Input, clock: Clock): Node
    requires n.resequencer.Valid()
  {
    if n.panicked then n
    else match input
      case NBirth(bdseq, timestamp) => BirthHandled(cfg, n, bdseq, timestamp, clock)
      case NDeath(bdseq, timestamp) => DeathHandled(cfg, n, bdseq, timestamp, clock)
      case Sequenced(timestamp, m) => MessageHandled(cfg, n, timestamp, m, clock)
      case Undecodable => Requested(cfg, n, InvalidPayload, clock)
      case AppOffline(timestamp) => MadeStale(cfg, n, timestamp)
      case RebirthWanted(reason) => Requested(cfg, n, reason, clock)
  }

  lemma StepKeepsValid(cfg: Config, n: Node, input: Input, clock: Clock)
    requires n.resequencer.Valid()
    ensures Step(cfg, n, input, clock).resequencer.Valid()
  {
    hide BirthHandled, DeathHandled, MessageHandled, Requested, MadeStale;
  }
}
