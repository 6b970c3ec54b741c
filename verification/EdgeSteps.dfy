/**
 What each step of an edge node leads to, read off the record of its run: when a session is sought, a birth
 started, a device's birth or death numbered, and what becomes of a call to the client.
 */
module EdgeSteps {
  import opened Bounded
  import opened Options
  import opened EdgeNode
  import opened EdgeRuns
  import opened EdgeSessions

  ghost function Record(y: System): Trace {
    y.session.shared.trace
  }

  // Devices

  /** The next number was taken, for this. */
  ghost predicate Numbered(t: Trace, t': Trace, p: Publisher) {
    && t' == Then(t, Allocated((|SinceStart(t)| + 1) % 256, p))
    && SinceStart(t') == SinceStart(t) + [Number((|SinceStart(t)| + 1) % 256, p)]
  }

  lemma GrantedExactly(host: Option<string>, s: Shared, p: Publisher)
    requires SharedKnown(host, s)
    ensures var (s', n) := Allocate(s, p);
            if SessionOn(s.trace) && NodeUp(s.trace) then n.Some? && Numbered(s.trace, s'.trace, p)
            else n.None? && s' == s
  {
    SuccOfMod(|SinceStart(s.trace)|);
  }

  /** The shared state and one device are what the record says. */
  ghost predicate Known(host: Option<string>, s: Shared, v: Device, d: nat) {
    SharedKnown(host, s) && Facts(s.trace, d) == Flags(v, d) && DeviceFit(v)
  }

  lemma RunKnows(host: Option<string>, steps: seq<Step>, d: nat)
    requires d in Run(host, steps).devices
    ensures var y := Run(host, steps); Known(host, y.session.shared, y.devices[d], d)
  {
    RunKeeps(host, steps);
    var y := Run(host, steps);
    assert Facts(Record(y), d) == Flags(y.devices[d], d) && DeviceFit(y.devices[d]);
  }

  /** The device's DBIRTH took the next number, and the device is down until it is published. */
  ghost predicate BirthNumbered(t: Trace, t': Trace, d: nat) {
    && t'.Then? && t'.action == DeviceDown(d) && Numbered(t, t'.before, DBirth(d))
    && SinceStart(t') == SinceStart(t'.before)
    && BirthOut(t', d) && !DeviceIsUp(t', d)
  }

  ghost predicate MayBeBorn(t: Trace, d: nat, enabled: bool, kind: BirthKind) {
    enabled && SessionOn(t) && NodeUp(t) && (kind.Rebirth? || !DeviceIsUp(t, d))
  }

  lemma BornExactly(host: Option<string>, s: Shared, v: Device, d: nat, kind: BirthKind)
    requires SharedKnown(host, s) && Facts(s.trace, d).0 == v.birthed
    ensures var (s', v') := DeviceBirthed(s, v, d, kind);
            if MayBeBorn(s.trace, d, v.enabled, kind) then
              BirthNumbered(s.trace, s'.trace, d) && v' == v.(birthed := false, publishing := Some(DBirth(d)))
            else s' == s && v' == v
  {
    GrantedExactly(host, s, DBirth(d));
    hide SharedKnown, Allocate;
    var t := Allocate(s, DBirth(d)).0.trace;
    assert t.Then? && t.action.Allocated? && t.action.publisher == DBirth(d) ==> BirthOut(t, d);
  }

  /** One step of a run that is a device's own. */
  lemma DeviceStep(host: Option<string>, steps: seq<Step>, step: Step, d: nat, s: Shared, v: Device)
    requires var y := Run(host, steps);
             d in y.devices && Enabled(y, step) && After(host, y, step) == WithDevice(y, d, (s, v))
    ensures var y, y' := Run(host, steps), Run(host, steps + [step]);
            && y' == y.(devices := y.devices[d := v], session := y.session.(shared := s))
            && Record(y') == s.trace && (v.publishing.None? ==> DeviceIdle(y', d))
            && (s == y.session.shared && v == y.devices[d] ==> y' == y)
  {
    RunOn(host, steps, step);
    var y := Run(host, steps);
    assert v == y.devices[d] ==> y.devices[d := v] == y.devices;
    hide Run, After, Enabled;
  }

  /**
   A device that is told to be born takes a number for its DBIRTH if and only if it is enabled, the node has
   a session and is birthed, and the device is not up or this is a rebirth. Otherwise nothing happens.
   */
  lemma DeviceBirthsAreNumberedExactly(host: Option<string>, steps: seq<Step>, d: nat, kind: BirthKind)
    requires DeviceIdle(Run(host, steps), d)
    ensures var y, y' := Run(host, steps), Run(host, steps + [BirthDevice(d, kind)]);
            if MayBeBorn(Record(y), d, y.devices[d].enabled, kind) then
              && BirthNumbered(Record(y), Record(y'), d)
              && y'.devices == y.devices[d := y.devices[d].(birthed := false, publishing := Some(DBirth(d)))]
            else y' == y
  {
    RunKnows(host, steps, d);
    var y := Run(host, steps);
    var (s, v) := DeviceBirthed(y.session.shared, y.devices[d], d, kind);
    BornExactly(host, y.session.shared, y.devices[d], d, kind);
    assert After(host, y, BirthDevice(d, kind)) == WithDevice(y, d, (s, v));
    hide Run, After, DeviceBirthed, WithDevice, MayBeBorn, BirthNumbered, SharedKnown;
    DeviceStep(host, steps, BirthDevice(d, kind), d, s, v);
  }

  /** Enabling a device sets its flag, and then births it unless it is up. */
  lemma EnabledDevicesAreBirthedExactly(host: Option<string>, steps: seq<Step>, d: nat)
    requires DeviceIdle(Run(host, steps), d)
    ensures var y, y' := Run(host, steps), Run(host, steps + [EnableDevice(d)]);
            var v := y.devices[d].(enabled := true);
            if MayBeBorn(Record(y), d, true, FirstBirth) then
              && BirthNumbered(Record(y), Record(y'), d)
              && y'.devices == y.devices[d := v.(birthed := false, publishing := Some(DBirth(d)))]
            else y' == y.(devices := y.devices[d := v])
  {
    RunKnows(host, steps, d);
    var y := Run(host, steps);
    var v0 := y.devices[d].(enabled := true);
    var (s, v) := DeviceBirthed(y.session.shared, v0, d, FirstBirth);
    BornExactly(host, y.session.shared, v0, d, FirstBirth);
    assert After(host, y, EnableDevice(d)) == WithDevice(y, d, (s, v));
    hide Run, After, DeviceBirthed, WithDevice, MayBeBorn, BirthNumbered, SharedKnown;
    DeviceStep(host, steps, EnableDevice(d), d, s, v);
  }

  /** What a death leads to: nothing if the device is down; else it is down, and its DDEATH is numbered if it can be. */
  ghost predicate Died(t: Trace, t': Trace, v: Device, v': Device, d: nat, publish: bool) {
    if !DeviceIsUp(t, d) then t' == t && v' == v
    else
      && !DeviceIsUp(t', d)
      && if publish && SessionOn(t) && NodeUp(t) then
           && Numbered(Then(t, DeviceDown(d)), t', DDeath(d)) && SinceStart(Then(t, DeviceDown(d))) == SinceStart(t)
           && v' == v.(birthed := false, publishing := Some(DDeath(d)))
         else t' == Then(t, DeviceDown(d)) && v' == v.(birthed := false)
  }

  lemma DownIsKnown(host: Option<string>, s: Shared, d: nat)
    requires SharedKnown(host, s)
    ensures var s' := s.Did(DeviceDown(d));
            && SharedKnown(host, s') && SinceStart(s'.trace) == SinceStart(s.trace) && !DeviceIsUp(s'.trace, d)
            && SessionOn(s'.trace) == SessionOn(s.trace) && NodeUp(s'.trace) == NodeUp(s.trace)
  {
  }

  lemma DiesExactly(host: Option<string>, s: Shared, v: Device, d: nat, publish: bool)
    requires SharedKnown(host, s) && Facts(s.trace, d).0 == v.birthed
    ensures var (s', v') := DeviceDied(s, v, d, publish); Died(s.trace, s'.trace, v, v', d, publish)
    ensures !DeviceIsUp(s.trace, d) ==> DeviceDied(s, v, d, publish) == (s, v)
  {
    DownIsKnown(host, s, d);
    GrantedExactly(host, s.Did(DeviceDown(d)), DDeath(d));
    hide SharedKnown, Allocate;
  }

  /**
   A device that is told to die takes a number for its DDEATH if and only if it is up, is to publish it, and
   the node has a session and is birthed. Disabling it clears its flag, and has it publish its death.
   */
  lemma DeviceDeathsAreNumberedExactly(host: Option<string>, steps: seq<Step>, d: nat, publish: bool)
    requires DeviceIdle(Run(host, steps), d)
    ensures var y, y' := Run(host, steps), Run(host, steps + [KillDevice(d, publish)]);
            && d in y'.devices && y'.devices == y.devices[d := y'.devices[d]]
            && Died(Record(y), Record(y'), y.devices[d], y'.devices[d], d, publish)
  {
    RunKnows(host, steps, d);
    var y := Run(host, steps);
    var (s, v) := DeviceDied(y.session.shared, y.devices[d], d, publish);
    DiesExactly(host, y.session.shared, y.devices[d], d, publish);
    assert After(host, y, KillDevice(d, publish)) == WithDevice(y, d, (s, v));
    hide Run, After, DeviceDied, WithDevice, Died, SharedKnown;
    DeviceStep(host, steps, KillDevice(d, publish), d, s, v);
  }

  lemma DisabledDevicesDieExactly(host: Option<string>, steps: seq<Step>, d: nat)
    requires DeviceIdle(Run(host, steps), d)
    ensures var y, y' := Run(host, steps), Run(host, steps + [DisableDevice(d)]);
            && d in y'.devices && y'.devices == y.devices[d := y'.devices[d]]
            && Died(Record(y), Record(y'), y.devices[d].(enabled := false), y'.devices[d], d, true)
  {
    RunKnows(host, steps, d);
    var y := Run(host, steps);
    var v0 := y.devices[d].(enabled := false);
    var (s, v) := DeviceDied(y.session.shared, v0, d, true);
    DiesExactly(host, y.session.shared, v0, d, true);
    assert After(host, y, DisableDevice(d)) == WithDevice(y, d, (s, v));
    hide Run, After, DeviceDied, WithDevice, Died, SharedKnown;
    DeviceStep(host, steps, DisableDevice(d), d, s, v);
  }

  lemma ReturnsExactly(host: Option<string>, s: Shared, v: Device, d: nat, ok: bool)
    requires Known(host, s, v, d) && v.publishing.Some?
    ensures var (s', v') := DeviceReturned(s, v, d, ok);
            && SinceStart(s'.trace) == SinceStart(s.trace) && v'.publishing.None? && !BirthOut(s'.trace, d)
            && DeviceIsUp(s'.trace, d) == if BirthOut(s.trace, d) then ok else DeviceIsUp(s.trace, d)
  {
    hide SharedKnown;
  }

  /** A device whose DBIRTH was out is up exactly when the client took it; the outcome of a DDEATH changes nothing. */
  lemma DeviceCallsEndExactly(host: Option<string>, steps: seq<Step>, d: nat, ok: bool)
    requires var y := Run(host, steps); d in y.devices && y.devices[d].publishing.Some?
    ensures var y, y' := Run(host, steps), Run(host, steps + [DeviceCallReturns(d, ok)]);
            var t, t' := Record(y), Record(y');
            && DeviceIdle(y', d) && SinceStart(t') == SinceStart(t) && !BirthOut(t', d)
            && DeviceIsUp(t', d) == (if BirthOut(t, d) then ok else DeviceIsUp(t, d))
  {
    var y := Run(host, steps);
    hide *;
    RunKnows(host, steps, d);
    var (s, v) := DeviceReturned(y.session.shared, y.devices[d], d, ok);
    ReturnsExactly(host, y.session.shared, y.devices[d], d, ok);
    ReturnIs(host, y, d, ok);
    DeviceStep(host, steps, DeviceCallReturns(d, ok), d, s, v);
  }

  lemma ReturnIs(host: Option<string>, y: System, d: nat, ok: bool)
    requires d in y.devices && y.devices[d].publishing.Some?
    ensures Record(y) == y.session.shared.trace && Enabled(y, DeviceCallReturns(d, ok))
    ensures After(host, y, DeviceCallReturns(d, ok)) ==
              WithDevice(y, d, DeviceReturned(y.session.shared, y.devices[d], d, ok))
  {
  }

  /** Data passes its check exactly while the device is up. */
  lemma DataPassesExactly(host: Option<string>, steps: seq<Step>, d: nat)
    requires d in Run(host, steps).devices
    ensures var t, t' := Record(Run(host, steps)), Record(Run(host, steps + [CheckDevice(d)]));
            t' == if DeviceIsUp(t, d) then Then(t, DataChecked(d)) else t
  {
    RunKnows(host, steps, d);
    var y := Run(host, steps);
    var (s, v) := DataCheckPassed(y.session.shared, y.devices[d], d);
    assert After(host, y, CheckDevice(d)) == WithDevice(y, d, (s, v));
    hide Run, After, WithDevice, SharedKnown;
    DeviceStep(host, steps, CheckDevice(d), d, s, v);
  }

  /** Data past its check takes a number exactly while the node has a session and is birthed. */
  lemma DataIsNumberedExactly(host: Option<string>, steps: seq<Step>, d: nat)
    requires d in Run(host, steps).devices && Checked(Record(Run(host, steps)), d) > 0
    ensures var t, t' := Record(Run(host, steps)), Record(Run(host, steps + [NumberDeviceData(d)]));
            if SessionOn(t) && NodeUp(t) then Numbered(t, t', DData(d)) else t' == Then(t, DataRefused(d))
  {
    RunKnows(host, steps, d);
    var y := Run(host, steps);
    var (s, v) := DataNumbered(y.session.shared, y.devices[d], d);
    GrantedExactly(host, y.session.shared, DData(d));
    assert After(host, y, NumberDeviceData(d)) == WithDevice(y, d, (s, v));
    hide Run, After, WithDevice, SharedKnown, Allocate, Numbered;
    DeviceStep(host, steps, NumberDeviceData(d), d, s, v);
  }

  /** A new device is disabled and down, and others stay as they are. */
  lemma NewDevicesAreDown(host: Option<string>, steps: seq<Step>, d: nat)
    requires d !in Run(host, steps).devices
    ensures var y, y' := Run(host, steps), Run(host, steps + [AddDevice(d)]);
            && y'.devices == y.devices[d := y'.devices[d]] && y'.session == y.session
            && !y'.devices[d].enabled && !DeviceIsUp(Record(y'), d) && DeviceIdle(y', d)
  {
    RunOn(host, steps, AddDevice(d));
    RunKeeps(host, steps + [AddDevice(d)]);
    var y' := Run(host, steps + [AddDevice(d)]);
    assert Facts(Record(y'), d) == Flags(y'.devices[d], d);
    hide Run;
  }

  // The session

  /**
   What comes of looking for a session: nothing without a connection or before a pending retry; subscribing
   without a session; with one, a birth, unless the node is birthed or its primary host is not known online.
   */
  ghost predicate Sought(host: Option<string>, n: Session, n': Session) {
    var t, t' := n.shared.trace, n'.shared.trace;
    && n'.clientOnline == n.clientOnline && n'.retryPending == n.retryPending
    && if !n.clientOnline || n.retryPending then n' == n
       else if !SessionOn(t) then n'.wait.Subscribing? && t' == t
       else if NodeUp(t) || (host.Some? && !HostUp(t)) then n' == n
       else n'.wait == Birthing(FirstBirth) && t' == Then(t, BirthStarted(EndedSessions(t) % 256))
  }

  lemma TryingSeeks(host: Option<string>, n: Session)
    requires SharedKnown(host, n.shared)
    ensures Sought(host, n, OnlineTried(host, n))
  {
  }

  lemma SharedIsKnown(host: Option<string>, steps: seq<Step>)
    ensures SharedKnown(host, Run(host, steps).session.shared)
  {
    RunKeeps(host, steps);
  }

  /** A retry that fires is spent, and a session is sought. */
  lemma RetriesAreSpent(host: Option<string>, steps: seq<Step>)
    requires var n := Run(host, steps).session; n.wait.Idle? && n.retryPending
    ensures var y, y' := Run(host, steps), Run(host, steps + [RetryFires]);
            && !y'.session.retryPending && Sought(host, y.session.(retryPending := false), y'.session)
            && y' == y.(session := y'.session)
  {
    SharedIsKnown(host, steps);
    RunOn(host, steps, RetryFires);
    TryingSeeks(host, Run(host, steps).session.(retryPending := false));
    hide Run, OnlineTried, Sought, SharedKnown;
  }

  /** What the node makes of the end of a connection. */
  ghost predicate OfflineTaken(y: System, y': System) {
    var t, t' := Record(y), Record(y');
    && t' == Then(t, OfflineHandled) && !y'.session.clientOnline && y'.session.wait.Idle?
    && y'.session.retryPending == y.session.retryPending
    && y'.loop == WillArrived(if SessionOn(t) then Some((EndedSessions(t) + 1) % 256) else None)
  }

  /** What it makes of a STATE. */
  ghost predicate StateTaken(
      host: Option<string>, n: Session, n': Session, from: string, online: bool, timestamp: nat) {
    var t := n.shared.trace;
    var accepted := Then(t, StateAccepted(online, timestamp));
    if host != Some(from) || (LastState(t).Some? && timestamp < LastState(t).value) then n' == n
    else if online then exists n1: Session ::
      n1.shared.trace == accepted && n1.clientOnline == n.clientOnline
      && n1.retryPending == n.retryPending && n1.wait == n.wait && Sought(host, n1, n')
    else if NodeUp(t) then
      n'.wait.PublishingDeath? && n'.shared.trace == Then(accepted, DeathSent(EndedSessions(t) % 256, HostGone))
    else n'.wait == n.wait && n'.shared.trace == accepted
  }

  lemma StateIsTaken(host: Option<string>, n: Session, from: string, online: bool, timestamp: nat)
    requires SharedKnown(host, n.shared)
    ensures StateTaken(host, n, HostStateSeen(host, n, from, online, timestamp), from, online, timestamp)
  {
    var (s, accepted) := HostTimestampUpdated(n.shared, timestamp);
    var n1 := n.(shared := s.(primaryHostOnline := online).Did(StateAccepted(online, timestamp)));
    if host == Some(from) && accepted {
      assert SharedKnown(host, n1.shared);
      if online {
        TryingSeeks(host, n1);
      }
    }
    hide Sought, OnlineTried;
  }

  lemma OfflineIsTaken(host: Option<string>, y: System)
    requires SharedKnown(host, y.session.shared) && y.session.wait.Idle? && y.queue != [] && y.queue[0].WentOffline?
    ensures OfflineTaken(y, After(host, y, TakeMessage))
  {
  }

  /**
   What the node's task makes of what its event loop queued, in the order queued: of a new connection, of
   the end of one, and of a STATE.
   */
  lemma MessagesAreTakenExactly(host: Option<string>, steps: seq<Step>)
    requires var y := Run(host, steps); y.session.wait.Idle? && y.queue != []
    ensures var y, y' := Run(host, steps), Run(host, steps + [TakeMessage]);
            && y'.queue == y.queue[1..] && y'.devices == y.devices && y'.will == y.will
            && match y.queue[0]
               case WentOnline => Sought(host, y.session.(clientOnline := true), y'.session)
               case WentOffline => OfflineTaken(y, y')
               case HostState(from, online, timestamp) =>
                 StateTaken(host, y.session, y'.session, from, online, timestamp)
  {
    SharedIsKnown(host, steps);
    RunOn(host, steps, TakeMessage);
    var y := Run(host, steps);
    hide Run, OnlineTried, Sought, SharedKnown, StateTaken, HostStateSeen;
    match y.queue[0]
    case WentOnline => TryingSeeks(host, y.session.(clientOnline := true));
    case WentOffline => OfflineIsTaken(host, y);
    case HostState(from, online, timestamp) => StateIsTaken(host, y.session, from, online, timestamp);
  }

  /** What a returned call leads to. */
  ghost predicate CallEnded(host: Option<string>, n: Session, n': Session, ok: bool) {
    var t, t' := n.shared.trace, n'.shared.trace;
    match n.wait
    case Idle => false
    // subscribed: a session, and a birth as soon as the primary host allows it; otherwise a retry
    case Subscribing =>
      var on := Then(t, SessionUp);
      if !ok then t' == t && n'.retryPending && n'.wait.Disconnecting?
      else
        && n'.retryPending == n.retryPending
        && if host.Some? && !HostUp(t) then t' == on && n'.wait.Idle?
           else t' == Then(on, BirthStarted(EndedSessions(t) % 256)) && n'.wait == Birthing(FirstBirth)
    // a first birth that fails gives the session up and is tried again, another one does not
    case Birthing(kind) =>
      if ok then t' == Then(t, BirthDone) && n'.wait.Idle? && n'.retryPending == n.retryPending
      else if kind.FirstBirth? then
        t' == Then(Then(t, BirthFailed(kind)), SessionDown) && n'.retryPending && n'.wait.Disconnecting?
      else t' == Then(t, BirthFailed(kind)) && n'.wait.Idle? && n'.retryPending == n.retryPending
    // an NDEATH ends data whether the client took it or not
    case PublishingDeath =>
      t' == Then(Then(t, NodeDead), DeathReturned) && n'.wait.Disconnecting? && n'.retryPending == n.retryPending
    case Disconnecting => t' == t && n'.wait.Idle? && n'.retryPending == n.retryPending
  }

  lemma CallsEnd(host: Option<string>, n: Session, ok: bool)
    requires SessionKept(host, n) && !n.wait.Idle?
    ensures CallEnded(host, n, Returned(host, n, ok), ok)
  {
  }

  lemma CallsEndExactly(host: Option<string>, steps: seq<Step>, ok: bool)
    requires !Run(host, steps).session.wait.Idle?
    ensures var y, y' := Run(host, steps), Run(host, steps + [CallReturns(ok)]);
            && CallEnded(host, y.session, y'.session, ok)
            && y'.session.clientOnline == y.session.clientOnline && y' == y.(session := y'.session)
  {
    RunKeeps(host, steps);
    RunOn(host, steps, CallReturns(ok));
    CallsEnd(host, Run(host, steps).session, ok);
    hide Run, CallEnded, Inv;
  }

  // Rebirths, node data, and cancellation

  /**
   A rebirth starts exactly while the node is birthed, and nothing happens otherwise: asked for, it is the next
   thing to happen; commanded, data is stopped first.
   */
  lemma RebirthsAreStartedExactly(host: Option<string>, steps: seq<Step>)
    requires Run(host, steps).session.wait.Idle?
    ensures var y := Run(host, steps);
            var asked, commanded := Run(host, steps + [RebirthAsked]), Run(host, steps + [RebirthCommanded]);
            var t := Record(y);
            var start := BirthStarted(EndedSessions(t) % 256);
            if !NodeUp(t) then asked == commanded == y
            else
              && Record(asked) == Then(t, start) && Record(commanded) == Then(Then(t, NodeDead), start)
              && SinceStart(Record(asked)) == SinceStart(Record(commanded)) == []
              && asked == y.(session := asked.session) && commanded == y.(session := commanded.session)
              && asked.session.wait == commanded.session.wait == Birthing(Rebirth)
              && asked.session.clientOnline == commanded.session.clientOnline == y.session.clientOnline
              && asked.session.retryPending == commanded.session.retryPending == y.session.retryPending
  {
    SharedIsKnown(host, steps);
    RunOn(host, steps, RebirthAsked);
    RunOn(host, steps, RebirthCommanded);
    hide Run;
  }

  /** A publisher of node data takes a number exactly while the node has a session and is birthed. */
  lemma NodeDataIsNumberedExactly(host: Option<string>, steps: seq<Step>)
    ensures var y, y' := Run(host, steps), Run(host, steps + [PublishNodeData]);
            if SessionOn(Record(y)) && NodeUp(Record(y))
            then Numbered(Record(y), Record(y'), NData) && y' == WithShared(y, y'.session.shared)
            else y' == y
  {
    SharedIsKnown(host, steps);
    RunOn(host, steps, PublishNodeData);
    GrantedExactly(host, Run(host, steps).session.shared, NData);
    hide Run, SharedKnown, Allocate, Numbered;
  }

  /** Cancelling stops data and sends an NDEATH with the connection's bdSeq, birthed or not. */
  lemma CancellationsAreSentExactly(host: Option<string>, steps: seq<Step>)
    ensures var y, y' := Run(host, steps), Run(host, steps + [Cancel]);
            && Record(y') == Then(Then(Record(y), NodeDead), DeathSent(EndedSessions(Record(y)) % 256, Cancelled))
            && y' == WithShared(y, y'.session.shared)
  {
    SharedIsKnown(host, steps);
    RunOn(host, steps, Cancel);
    hide Run;
  }

  // The event loop

  /**
   The event loop queues what the client reports, in the order of the reports: a connection, made under a will
   that carries the number of ended sessions; its end, after which it does not poll before the node's reply;
   and a STATE, if there is a primary host. The reply's will, if there is one, is registered.
   */
  lemma ReportsAreQueuedExactly(
      host: Option<string>, steps: seq<Step>, from: string, online: bool, timestamp: nat)
    ensures var y := Run(host, steps);
            var connected, ended := Run(host, steps + [Connect]), Run(host, steps + [Disconnect]);
            var heard := Run(host, steps + [ReceiveState(from, online, timestamp)]);
            var registered := Run(host, steps + [RegisterWill]);
            && (if !y.loop.Polling? then connected == ended == heard == y
                else
                  && Record(connected) == Then(Record(y), Connected(EndedSessions(Record(y)) % 256))
                  && connected == WithShared(y, connected.session.shared).(queue := y.queue + [WentOnline])
                  && ended == y.(queue := y.queue + [WentOffline], loop := AwaitingWill)
                  && heard == if host.None? then y else y.(queue := y.queue + [HostState(from, online, timestamp)]))
            && if !y.loop.WillArrived? then registered == y
               else registered == y.(will := EndedSessions(Record(y)) % 256, loop := Polling)
  {
    WillIsKnown(host, steps);
    RunOn(host, steps, Connect);
    RunOn(host, steps, Disconnect);
    RunOn(host, steps, ReceiveState(from, online, timestamp));
    RunOn(host, steps, RegisterWill);
    hide Run, EndedSessions;
  }

  lemma WillIsKnown(host: Option<string>, steps: seq<Step>)
    ensures var y := Run(host, steps);
            var ended := EndedSessions(Record(y)) % 256;
            && (y.loop.Polling? ==> y.will == ended)
            && (y.loop.WillArrived? ==> ended == if y.loop.reply.Some? then y.loop.reply.value else y.will)
  {
    RunKeeps(host, steps);
  }
}
