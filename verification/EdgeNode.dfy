/**
 An edge node: the state its publishers share under a mutex, the task that owns its session, its
 devices, and the event loop that owns the MQTT connection. Every `.await` on the client ends a step,
 so that the other tasks may act while the call is outstanding; everything between two awaits is one
 step, but for a device's data, which handles on other threads publish: reading the device's flag and
 taking a number are two steps. What the client does, and when, is the environment's choice.
 */
module EdgeNode {
  import opened Bounded
  import opened Options

  /** What a sequence number was taken for. */
  datatype Publisher = NData | DBirth(device: nat) | DData(device: nat) | DDeath(device: nat)

  datatype BirthKind = FirstBirth | Rebirth

  /** Who sent an NDEATH: the node's task because its primary host is gone, or a handle because it is cancelled. */
  datatype Sender = HostGone | Cancelled

  datatype Action =
    | Connected(will: U8)            // a connection was made with this bdSeq in its will
    | OfflineHandled                 // the node handled the end of a connection
    | StateAccepted(online: bool, timestamp: nat)
    | SessionUp
    | SessionDown                    // given up because its birth could not be published
    | BirthStarted(bdseq: U8)        // sequence reset, NBIRTH handed to the client
    | BirthDone
    | BirthFailed(kind: BirthKind)
    | NodeDead                       // data publishing stopped
    | DeathSent(bdseq: U8, sender: Sender)
    | DeathReturned                  // the client took or refused the NDEATH sent because the host is gone
    | Allocated(seqNumber: U8, publisher: Publisher)
    | DeviceUp(device: nat)
    | DeviceDown(device: nat)
    | DeviceBirthFailed(device: nat)
    | DataChecked(device: nat)       // a publisher found the device birthed and goes on to ask for a number
    | DataRefused(device: nat)       // and was refused one

  /** Everything an edge node has done, the latest action outermost. */
  datatype Trace = Nothing | Then(before: Trace, action: Action)

  /** The state shared by the node, its devices and its handles. */
  datatype Shared = Shared(
    seqNumber: U8, online: bool, birthed: bool, primaryHostOnline: bool, lastHostTimestamp: Option<nat>,
    bdseq: U8, trace: Trace)
  {
    function Did(action: Action): Shared {
      this.(trace := Then(trace, action))
    }
  }

  function Allocate(s: Shared, publisher: Publisher): (Shared, Option<U8>) {
    if !s.online || !s.birthed then (s, None)
    else
      var next := Succ8(s.seqNumber);
      (s.(seqNumber := next).Did(Allocated(next, publisher)), Some(next))
  }

  function HostTimestampUpdated(s: Shared, timestamp: nat): (Shared, bool) {
    if s.lastHostTimestamp.Some? && timestamp < s.lastHostTimestamp.value then (s, false)
    else (s.(lastHostTimestamp := Some(timestamp)), true)
  }

  /** The client call the node's task is waiting for. */
  datatype Wait = Idle | Subscribing | Birthing(kind: BirthKind) | PublishingDeath | Disconnecting

  datatype Session = Session(shared: Shared, clientOnline: bool, retryPending: bool, wait: Wait)

  predicate ReadyToBirth(primaryHost: Option<string>, s: Shared) {
    primaryHost.None? || s.primaryHostOnline
  }

  function BirthBegun(n: Session, kind: BirthKind): Session {
    n.(shared := n.shared.(birthed := false, seqNumber := 0).Did(BirthStarted(n.shared.bdseq)), wait := Birthing(kind))
  }

  function BirthIfReady(host: Option<string>, n: Session): Session {
    if n.shared.birthed || !ReadyToBirth(host, n.shared) then n else BirthBegun(n, FirstBirth)
  }

  function OnlineTried(host: Option<string>, n: Session): Session {
    if !n.clientOnline || n.retryPending then n
    else if !n.shared.online then n.(wait := Subscribing)
    else BirthIfReady(host, n)
  }

  /** The client call the task was waiting for returned. */
  function Returned(host: Option<string>, n: Session, ok: bool): Session {
    match n.wait
    case Idle => n
    case Subscribing =>
      if ok then BirthIfReady(host, n.(shared := n.shared.(online := true).Did(SessionUp), wait := Idle))
      else n.(retryPending := true, wait := Disconnecting)
    case Birthing(kind) =>
      if ok then n.(shared := n.shared.(birthed := true).Did(BirthDone), wait := Idle)
      else if kind.FirstBirth? then
        n.(shared := n.shared.(online := false).Did(BirthFailed(kind)).Did(SessionDown),
           retryPending := true, wait := Disconnecting)
      else n.(shared := n.shared.Did(BirthFailed(kind)), wait := Idle)
    case PublishingDeath =>
      n.(shared := n.shared.(birthed := false).Did(NodeDead).Did(DeathReturned), wait := Disconnecting)
    case Disconnecting => n.(wait := Idle)
  }

  /** The new will is sent back only when a session ended; otherwise the reply channel is dropped. */
  function OfflineSeen(n: Session): (Session, Option<U8>) {
    var s := n.shared.(primaryHostOnline := false).Did(OfflineHandled);
    if !s.online then (n.(clientOnline := false, shared := s), None)
    else
      var bdseq := Succ8(s.bdseq);
      (n.(clientOnline := false, shared := s.(online := false, birthed := false, bdseq := bdseq)), Some(bdseq))
  }

  function HostStateSeen(host: Option<string>, n: Session, from: string, online: bool, timestamp: nat): Session {
    if host != Some(from) then n
    else
      var (s, accepted) := HostTimestampUpdated(n.shared, timestamp);
      if !accepted then n
      else
        var n' := n.(shared := s.(primaryHostOnline := online).Did(StateAccepted(online, timestamp)));
        if online then OnlineTried(host, n')
        else if !n'.shared.birthed then n'
        else n'.(shared := n'.shared.Did(DeathSent(n'.shared.bdseq, HostGone)), wait := PublishingDeath)
  }

  function Rebirthed(n: Session): Session {
    if !n.shared.birthed then n else BirthBegun(n, Rebirth)
  }

  function CommandRebirthed(n: Session): Session {
    if !n.shared.birthed then n
    else BirthBegun(n.(shared := n.shared.(birthed := false).Did(NodeDead)), Rebirth)
  }

  /**
   `NodeHandle::cancel`, once it has arranged for the disconnection: data is stopped and the NDEATH made at
   one go.
   */
  function CancelSent(s: Shared): Shared {
    s.(birthed := false).Did(NodeDead).Did(DeathSent(s.bdseq, Cancelled))
  }

  /** `checked` counts the publishers of its data that found it birthed and have not asked for a number yet. */
  datatype Device = Device(enabled: bool, birthed: bool, publishing: Option<Publisher>, checked: nat)

  function DeviceBirthed(s: Shared, v: Device, d: nat, kind: BirthKind): (Shared, Device) {
    if !v.enabled || (kind.FirstBirth? && v.birthed) then (s, v)
    else
      var (s', seqNumber) := Allocate(s, DBirth(d));
      if seqNumber.None? then (s, v) else (s'.Did(DeviceDown(d)), v.(birthed := false, publishing := Some(DBirth(d))))
  }

  function DeviceDied(s: Shared, v: Device, d: nat, publish: bool): (Shared, Device) {
    if !v.birthed then (s, v)
    else
      var s', v' := s.Did(DeviceDown(d)), v.(birthed := false);
      if !publish then (s', v')
      else
        var (s'', seqNumber) := Allocate(s', DDeath(d));
        if seqNumber.None? then (s', v') else (s'', v'.(publishing := Some(DDeath(d))))
  }

  /** The client call the device's task was waiting for returned. */
  function DeviceReturned(s: Shared, v: Device, d: nat, ok: bool): (Shared, Device) {
    if v.publishing != Some(DBirth(d)) then (s, v.(publishing := None))
    else if ok then (s.Did(DeviceUp(d)), v.(birthed := true, publishing := None))
    else (s.Did(DeviceBirthFailed(d)), v.(publishing := None))
  }

  /** A publisher of the device's data reads the device's flag, and takes a number in a step of its own. */
  function DataCheckPassed(s: Shared, v: Device, d: nat): (Shared, Device) {
    if !v.birthed then (s, v) else (s.Did(DataChecked(d)), v.(checked := v.checked + 1))
  }

  function DataNumbered(s: Shared, v: Device, d: nat): (Shared, Device)
    requires v.checked > 0
  {
    var (s', seqNumber) := Allocate(s, DData(d));
    (if seqNumber.None? then s.Did(DataRefused(d)) else s', v.(checked := v.checked - 1))
  }

  /** What the event loop queues for the node's task. */
  datatype ClientMessage = WentOnline | WentOffline | HostState(from: string, online: bool, timestamp: nat)

  /** The event loop does not poll the client while it waits for the node to answer a disconnection. */
  datatype Loop = Polling | AwaitingWill | WillArrived(reply: Option<U8>)

  datatype System = System(session: Session, queue: seq<ClientMessage>, loop: Loop, will: U8, devices: map<nat, Device>)

  datatype Step =
    // the client and the event loop
    | Connect
    | Disconnect
    | ReceiveState(from: string, online: bool, timestamp: nat)
    | RegisterWill
    // the node's task
    | TakeMessage
    | RetryFires
    | RebirthAsked
    | RebirthCommanded
    | CallReturns(ok: bool)
    // handles
    | PublishNodeData
    | CheckDevice(device: nat)
    | NumberDeviceData(device: nat)
    | Cancel
    | AddDevice(device: nat)
    // a device's task
    | BirthDevice(device: nat, kind: BirthKind)
    | KillDevice(device: nat, publish: bool)
    | EnableDevice(device: nat)
    | DisableDevice(device: nat)
    | DeviceCallReturns(device: nat, ok: bool)

  predicate DeviceIdle(y: System, d: nat) {
    d in y.devices && y.devices[d].publishing.None?
  }

  predicate Enabled(y: System, step: Step) {
    match step
    case Connect => y.loop.Polling?
    case Disconnect => y.loop.Polling?
    case ReceiveState(_, _, _) => y.loop.Polling?
    case RegisterWill => y.loop.WillArrived?
    case TakeMessage => y.session.wait.Idle? && y.queue != []
    case RetryFires => y.session.wait.Idle? && y.session.retryPending
    case RebirthAsked => y.session.wait.Idle?
    case RebirthCommanded => y.session.wait.Idle?
    case CallReturns(_) => !y.session.wait.Idle?
    case CheckDevice(d) => d in y.devices
    case NumberDeviceData(d) => d in y.devices && y.devices[d].checked > 0
    case AddDevice(d) => d !in y.devices
    case BirthDevice(d, _) => DeviceIdle(y, d)
    case KillDevice(d, _) => DeviceIdle(y, d)
    case EnableDevice(d) => DeviceIdle(y, d)
    case DisableDevice(d) => DeviceIdle(y, d)
    case DeviceCallReturns(d, _) => d in y.devices && y.devices[d].publishing.Some?
    case _ => true
  }

  function WithShared(y: System, s: Shared): System {
    y.(session := y.session.(shared := s))
  }

  function WithDevice(y: System, d: nat, r: (Shared, Device)): System {
    WithShared(y, r.0).(devices := y.devices[d := r.1])
  }

  function MessageTaken(host: Option<string>, y: System): System
    requires y.queue != []
  {
    var y' := y.(queue := y.queue[1..]);
    match y.queue[0]
    case WentOnline => y'.(session := OnlineTried(host, y.session.(clientOnline := true)))
    case WentOffline =>
      var (n, reply) := OfflineSeen(y.session);
      y'.(session := n, loop := WillArrived(reply))
    case HostState(from, online, timestamp) => y'.(session := HostStateSeen(host, y.session, from, online, timestamp))
  }

  function After(host: Option<string>, y: System, step: Step): System
    requires Enabled(y, step)
  {
    var s := y.session.shared;
    match step
    case Connect => WithShared(y, s.Did(Connected(y.will))).(queue := y.queue + [WentOnline])
    case Disconnect => y.(queue := y.queue + [WentOffline], loop := AwaitingWill)
    case ReceiveState(from, online, timestamp) =>
      if host.None? then y else y.(queue := y.queue + [HostState(from, online, timestamp)])
    case RegisterWill => y.(will := if y.loop.reply.Some? then y.loop.reply.value else y.will, loop := Polling)
    case TakeMessage => MessageTaken(host, y)
    case RetryFires => y.(session := OnlineTried(host, y.session.(retryPending := false)))
    case RebirthAsked => y.(session := Rebirthed(y.session))
    case RebirthCommanded => y.(session := CommandRebirthed(y.session))
    case CallReturns(ok) => y.(session := Returned(host, y.session, ok))
    case PublishNodeData => WithShared(y, Allocate(s, NData).0)
    case CheckDevice(d) => WithDevice(y, d, DataCheckPassed(s, y.devices[d], d))
    case NumberDeviceData(d) => WithDevice(y, d, DataNumbered(s, y.devices[d], d))
    case Cancel => WithShared(y, CancelSent(s))
    case AddDevice(d) => y.(devices := y.devices[d := Device(false, false, None, 0)])
    case BirthDevice(d, kind) => WithDevice(y, d, DeviceBirthed(s, y.devices[d], d, kind))
    case KillDevice(d, publish) => WithDevice(y, d, DeviceDied(s, y.devices[d], d, publish))
    case EnableDevice(d) => WithDevice(y, d, DeviceBirthed(s, y.devices[d].(enabled := true), d, FirstBirth))
    case DisableDevice(d) => WithDevice(y, d, DeviceDied(s, y.devices[d].(enabled := false), d, true))
    case DeviceCallReturns(d, ok) => WithDevice(y, d, DeviceReturned(s, y.devices[d], d, ok))
  }

  function Initial(): System {
    System(Session(Shared(0, false, false, false, None, 0, Nothing), false, false, Idle), [], Polling, 0, map[])
  }
}
