/** What every run of an edge node keeps, for every interleaving of its tasks and every behaviour of the client. */
module EdgeRuns {
  import opened Bounded
  import opened Options
  import opened EdgeNode

  datatype Number = Number(seqNumber: U8, publisher: Publisher)

  /** The numbers allocated since the last birth was started. */
  ghost function SinceStart(t: Trace): seq<Number> {
    match t
    case Nothing => []
    case Then(_, BirthStarted(_)) => []
    case Then(before, Allocated(n, p)) => SinceStart(before) + [Number(n, p)]
    case Then(before, _) => SinceStart(before)
  }

  /** A session was established on the current connection and neither ended nor given up. */
  ghost predicate SessionOn(t: Trace) {
    match t
    case Nothing => false
    case Then(_, SessionUp) => true
    case Then(_, SessionDown) => false
    case Then(_, OfflineHandled) => false
    case Then(before, _) => SessionOn(before)
  }

  /** The last birth was published, and data has not been stopped nor another birth started since. */
  ghost predicate NodeUp(t: Trace) {
    match t
    case Nothing => false
    case Then(_, BirthDone) => true
    case Then(_, BirthStarted(_)) => false
    case Then(_, NodeDead) => false
    case Then(_, OfflineHandled) => false
    case Then(before, _) => NodeUp(before)
  }

  /** The last STATE accepted since the last disconnection said online. */
  ghost predicate HostUp(t: Trace) {
    match t
    case Nothing => false
    case Then(_, StateAccepted(online, _)) => online
    case Then(_, OfflineHandled) => false
    case Then(before, _) => HostUp(before)
  }

  ghost function LastState(t: Trace): Option<nat> {
    match t
    case Nothing => None
    case Then(_, StateAccepted(_, timestamp)) => Some(timestamp)
    case Then(before, _) => LastState(before)
  }

  /** The bdSeq in the will of the connection whose end has not been handled yet. */
  ghost function CurrentWill(t: Trace): Option<U8> {
    match t
    case Nothing => None
    case Then(_, Connected(will)) => Some(will)
    case Then(_, OfflineHandled) => None
    case Then(before, _) => CurrentWill(before)
  }

  /** How many established sessions have ended with their connection. */
  ghost function EndedSessions(t: Trace): nat {
    match t
    case Nothing => 0
    case Then(before, OfflineHandled) => EndedSessions(before) + if SessionOn(before) then 1 else 0
    case Then(before, _) => EndedSessions(before)
  }

  /** The device's last DBIRTH was published, and it has not died nor been born again since. */
  ghost predicate DeviceIsUp(t: Trace, d: nat) {
    match t
    case Nothing => false
    case Then(before, DeviceUp(e)) => d == e || DeviceIsUp(before, d)
    case Then(before, DeviceDown(e)) => d != e && DeviceIsUp(before, d)
    case Then(before, _) => DeviceIsUp(before, d)
  }

  /** The device has a number for a DBIRTH whose publication has not ended. */
  ghost predicate BirthOut(t: Trace, d: nat) {
    match t
    case Nothing => false
    case Then(before, Allocated(_, p)) => p == DBirth(d) || BirthOut(before, d)
    case Then(before, DeviceUp(e)) => d != e && BirthOut(before, d)
    case Then(before, DeviceBirthFailed(e)) => d != e && BirthOut(before, d)
    case Then(before, _) => BirthOut(before, d)
  }

  /** How many publishers of the device's data are between their check and their number. */
  ghost function Checked(t: Trace, d: nat): int {
    match t
    case Nothing => 0
    case Then(before, DataChecked(e)) => Checked(before, d) + if d == e then 1 else 0
    case Then(before, DataRefused(e)) => Checked(before, d) - if d == e then 1 else 0
    case Then(before, Allocated(_, p)) => Checked(before, d) - if p == DData(d) then 1 else 0
    case Then(before, _) => Checked(before, d)
  }

  /** The last NBIRTH was handed to the client, which has neither taken nor refused it. */
  ghost predicate NodeBirthing(t: Trace) {
    match t
    case Nothing => false
    case Then(_, BirthStarted(_)) => true
    case Then(_, BirthDone) => false
    case Then(_, BirthFailed(_)) => false
    case Then(before, _) => NodeBirthing(before)
  }

  /** The last NDEATH since the last birth was sent because the host is gone, and is still with the client. */
  ghost predicate HostDeathOut(t: Trace) {
    match t
    case Nothing => false
    case Then(_, DeathSent(_, sender)) => sender.HostGone?
    case Then(_, DeathReturned) => false
    case Then(_, BirthStarted(_)) => false
    case Then(before, _) => HostDeathOut(before)
  }

  /** On this connection a rebirth failed or the node was cancelled, with no birth started since. */
  ghost predicate GivenUp(t: Trace) {
    match t
    case Nothing => false
    case Then(before, BirthFailed(kind)) => kind.Rebirth? || GivenUp(before)
    case Then(before, DeathSent(_, sender)) => sender.Cancelled? || GivenUp(before)
    case Then(_, BirthStarted(_)) => false
    case Then(_, OfflineHandled) => false
    case Then(before, _) => GivenUp(before)
  }

  /** What a publisher must have done before it asks for a number. */
  ghost predicate MayAsk(t: Trace, p: Publisher) {
    && (p.DData? ==> Checked(t, p.device) > 0)
    && (p.DDeath? ==>
         t.Then? && t.action == DeviceDown(p.device) && DeviceIsUp(t.before, p.device) && !BirthOut(t, p.device))
  }

  /** What an edge node may do next, given what it has done. */
  ghost predicate Allowed(host: Option<string>, t: Trace, action: Action) {
    match action
    // numbers are 1, 2, 3, ... modulo 256 since the birth, taken only while online and birthed
    case Allocated(n, p) =>
      && SessionOn(t) && NodeUp(t)
      && n == (|SinceStart(t)| + 1) % 256
      && MayAsk(t, p)
    // births need a session and the primary host, and carry the bdSeq of the connection's will
    case BirthStarted(bdseq) =>
      && SessionOn(t)
      && (host.Some? ==> HostUp(t))
      && CurrentWill(t) == Some(bdseq)
      && bdseq == EndedSessions(t) % 256
    case BirthDone => NodeBirthing(t)
    // deaths sent while there is a connection carry the bdSeq of its will; a handle's comes after data is stopped
    case DeathSent(bdseq, sender) =>
      && (CurrentWill(t).Some? ==> CurrentWill(t) == Some(bdseq))
      && bdseq == EndedSessions(t) % 256
      && (if sender.Cancelled? then !NodeUp(t) else !NodeBirthing(t))
    case DeathReturned => !NodeUp(t)
    case Connected(will) => will == EndedSessions(t) % 256
    case StateAccepted(_, timestamp) => LastState(t).Some? ==> LastState(t).value <= timestamp
    // a device comes up by its DBIRTH, and its data is let through to ask for a number only while it is up
    case DeviceUp(d) => BirthOut(t, d)
    case DataChecked(d) => DeviceIsUp(t, d)
    case _ => true
  }

  ghost predicate Proper(host: Option<string>, t: Trace) {
    t.Then? ==> Proper(host, t.before) && Allowed(host, t.before, t.action)
  }

  /** The shared state is what the record says it should be. */
  ghost predicate SharedKnown(host: Option<string>, s: Shared) {
    && (s.online <==> SessionOn(s.trace))
    && (s.birthed <==> NodeUp(s.trace))
    && (s.primaryHostOnline <==> HostUp(s.trace))
    && s.lastHostTimestamp == LastState(s.trace)
    && s.seqNumber == |SinceStart(s.trace)| % 256
    && s.bdseq == EndedSessions(s.trace) % 256
    && (CurrentWill(s.trace).Some? ==> CurrentWill(s.trace).value == s.bdseq)
    && Proper(host, s.trace)
  }

  /** What the node's task has established before each call it waits for. */
  ghost predicate SessionKept(host: Option<string>, n: Session) {
    var s := n.shared;
    && SharedKnown(host, s)
    && (s.birthed ==> s.online && (ReadyToBirth(host, s) || n.wait.PublishingDeath?))
    && (n.wait.Birthing? ==> s.online && ReadyToBirth(host, s) && !s.birthed)
    && (n.wait.Birthing? <==> NodeBirthing(s.trace))
    && (n.wait.PublishingDeath? ==> s.online && !ReadyToBirth(host, s))
    && (HostDeathOut(s.trace) ==> n.wait.PublishingDeath? && s.birthed)
    && (n.wait.Subscribing? ==> !s.online)
    && (CurrentWill(s.trace).None? ==> n.wait.Idle? && !n.clientOnline && !s.online)
  }

  /** What keeps the node's task going: something outstanding, a retry, or a reason why not. */
  ghost predicate SessionGoesOn(host: Option<string>, n: Session) {
    var s := n.shared;
    && (n.retryPending ==> !s.birthed && (n.wait.Idle? || n.wait.Disconnecting?))
    && (s.online || n.wait.Subscribing? ==> n.clientOnline)
    && (n.clientOnline && !s.online ==> n.wait.Subscribing? || n.retryPending)
    && (n.wait.Disconnecting? ==> n.retryPending || !ReadyToBirth(host, s))
    && (n.wait.Idle? && n.clientOnline && ReadyToBirth(host, s) && !s.birthed ==> n.retryPending || GivenUp(s.trace))
  }

  /** Whenever the event loop may connect, the registered will carries the bdSeq the node will use. */
  ghost predicate WillRegistered(y: System) {
    var s := y.session.shared;
    match y.loop
    case Polling => WentOffline !in y.queue && y.will == s.bdseq
    case AwaitingWill =>
      && y.queue != [] && y.queue[|y.queue| - 1] == WentOffline && WentOffline !in y.queue[..|y.queue| - 1]
      && y.will == s.bdseq
    case WillArrived(reply) =>
      && y.queue == [] && CurrentWill(s.trace).None?
      && (if reply.Some? then reply.value == s.bdseq else y.will == s.bdseq)
  }

  /**
   What the record says of a device: whether it is up, whether its DBIRTH is out, and how many publishers
   passed its check.
   */
  ghost function Facts(t: Trace, d: nat): (bool, bool, int) {
    (DeviceIsUp(t, d), BirthOut(t, d), Checked(t, d))
  }

  ghost function Flags(v: Device, d: nat): (bool, bool, int) {
    (v.birthed, v.publishing == Some(DBirth(d)), v.checked)
  }

  ghost predicate DevicesKnown(y: System) {
    forall d :: Facts(y.session.shared.trace, d) == if d in y.devices then Flags(y.devices[d], d) else (false, false, 0)
  }

  /**
   A device that is up is publishing neither its birth nor its death; a disabled one is down and not on its
   way up.
   */
  ghost predicate DeviceFit(v: Device) {
    && (v.birthed ==> v.publishing.None?)
    && (!v.enabled ==> !v.birthed && (v.publishing.Some? ==> !v.publishing.value.DBirth?))
  }

  ghost predicate DevicesFit(devices: map<nat, Device>) {
    forall d :: d in devices ==> DeviceFit(devices[d])
  }

  ghost predicate Inv(host: Option<string>, y: System) {
    && SessionKept(host, y.session) && SessionGoesOn(host, y.session)
    && WillRegistered(y)
    && (CurrentWill(y.session.shared.trace).None? ==> WentOnline !in y.queue)
    && DevicesKnown(y) && DevicesFit(y.devices)
  }

  // The shared state

  lemma AllocateKeeps(host: Option<string>, s: Shared, p: Publisher)
    requires SharedKnown(host, s) && MayAsk(s.trace, p)
    ensures SharedKnown(host, Allocate(s, p).0)
  {
    if s.online && s.birthed {
      SuccOfMod(|SinceStart(s.trace)|);
    }
  }

  // The node's task

  lemma BirthBegunKeeps(host: Option<string>, n: Session, kind: BirthKind)
    requires SharedKnown(host, n.shared) && n.shared.online && ReadyToBirth(host, n.shared)
    requires CurrentWill(n.shared.trace).Some?
    ensures SessionKept(host, BirthBegun(n, kind))
  {
  }

  lemma OnlineTriedKeeps(host: Option<string>, n: Session)
    requires SessionKept(host, n) && n.wait.Idle?
    ensures SessionKept(host, OnlineTried(host, n))
  {
    if n.clientOnline && n.shared.online && !n.shared.birthed && ReadyToBirth(host, n.shared) {
      BirthBegunKeeps(host, n, FirstBirth);
    }
  }

  lemma SubscribedKeeps(host: Option<string>, n: Session)
    requires SessionKept(host, n) && n.wait.Subscribing?
    ensures SessionKept(host, Returned(host, n, true))
  {
    var n' := n.(shared := n.shared.(online := true).Did(SessionUp), wait := Idle);
    assert SessionKept(host, n');
    if !n.shared.birthed && ReadyToBirth(host, n.shared) {
      BirthBegunKeeps(host, n', FirstBirth);
    }
  }

  lemma BirthReturnedKeeps(host: Option<string>, n: Session, ok: bool)
    requires SessionKept(host, n) && n.wait.Birthing?
    ensures SessionKept(host, Returned(host, n, ok))
  {
    var failed := n.shared.Did(BirthFailed(n.wait.kind));
    assert SharedKnown(host, failed) && !NodeBirthing(failed.trace) && !HostDeathOut(failed.trace);
  }

  lemma DeathReturnedKeeps(host: Option<string>, n: Session, ok: bool)
    requires SessionKept(host, n) && n.wait.PublishingDeath?
    ensures SessionKept(host, Returned(host, n, ok))
  {
    var dead := n.shared.(birthed := false).Did(NodeDead);
    assert SharedKnown(host, dead) && !NodeBirthing(dead.trace);
  }

  lemma ReturnedKeeps(host: Option<string>, n: Session, ok: bool)
    requires SessionKept(host, n) && !n.wait.Idle?
    ensures SessionKept(host, Returned(host, n, ok))
  {
    if n.wait.Birthing? {
      BirthReturnedKeeps(host, n, ok);
    } else if n.wait.PublishingDeath? {
      DeathReturnedKeeps(host, n, ok);
    } else if n.wait.Subscribing? && ok {
      SubscribedKeeps(host, n);
    }
  }

  lemma OfflineSeenKeeps(host: Option<string>, n: Session)
    requires SessionKept(host, n) && n.wait.Idle?
    ensures SessionKept(host, OfflineSeen(n).0)
  {
    SuccOfMod(EndedSessions(n.shared.trace));
  }

  lemma HostStateSeenKeeps(host: Option<string>, n: Session, from: string, online: bool, timestamp: nat)
    requires SessionKept(host, n) && n.wait.Idle?
    ensures SessionKept(host, HostStateSeen(host, n, from, online, timestamp))
  {
    if host == Some(from) && HostTimestampUpdated(n.shared, timestamp).1 {
      var s := HostTimestampUpdated(n.shared, timestamp).0.(primaryHostOnline := online);
      var n' := n.(shared := s.Did(StateAccepted(online, timestamp)));
      assert SharedKnown(host, n'.shared);
      if online {
        OnlineTriedKeeps(host, n');
      }
    }
  }

  lemma RebirthsKeep(host: Option<string>, n: Session)
    requires SessionKept(host, n) && n.wait.Idle?
    ensures SessionKept(host, Rebirthed(n)) && SessionKept(host, CommandRebirthed(n))
  {
    if n.shared.birthed {
      BirthBegunKeeps(host, n, Rebirth);
      BirthBegunKeeps(host, n.(shared := n.shared.(birthed := false).Did(NodeDead)), Rebirth);
    }
  }

  // What keeps it going

  /** Trying to go online leaves nothing undone, whatever was pending before. */
  lemma OnlineTriedGoesOn(host: Option<string>, n: Session)
    requires n.shared.online ==> n.clientOnline
    requires SessionKept(host, n) && n.wait.Idle? && (n.retryPending ==> !n.shared.birthed)
    ensures SessionGoesOn(host, OnlineTried(host, n))
  {
  }

  lemma ReturnedGoesOn(host: Option<string>, n: Session, ok: bool)
    requires SessionKept(host, n) && SessionGoesOn(host, n) && !n.wait.Idle?
    ensures SessionGoesOn(host, Returned(host, n, ok))
  {
    hide Proper, SinceStart;
  }

  lemma TurnsGoOn(host: Option<string>, n: Session)
    requires SessionKept(host, n) && SessionGoesOn(host, n) && n.wait.Idle?
    ensures SessionGoesOn(host, OfflineSeen(n).0)
    ensures SessionGoesOn(host, Rebirthed(n)) && SessionGoesOn(host, CommandRebirthed(n))
  {
    hide Proper, SinceStart;
  }

  lemma HostStateSeenGoesOn(host: Option<string>, n: Session, from: string, online: bool, timestamp: nat)
    requires SessionKept(host, n) && SessionGoesOn(host, n) && n.wait.Idle?
    ensures SessionGoesOn(host, HostStateSeen(host, n, from, online, timestamp))
  {
    if host == Some(from) && HostTimestampUpdated(n.shared, timestamp).1 && online {
      var s := HostTimestampUpdated(n.shared, timestamp).0.(primaryHostOnline := online);
      var n' := n.(shared := s.Did(StateAccepted(online, timestamp)));
      assert SessionKept(host, n');
      OnlineTriedGoesOn(host, n');
    } else {
      hide Proper, SinceStart;
    }
  }

  // The rest of the system

  /** A step of the node's task that does not touch the will, the connection or the devices. */
  ghost predicate SessionFrame(t: Trace, bdseq: U8, n: Session) {
    n.shared.bdseq == bdseq && SameOutside(t, n.shared.trace)
  }

  ghost predicate SameOutside(t: Trace, t': Trace) {
    CurrentWill(t') == CurrentWill(t) && forall d :: Facts(t', d) == Facts(t, d)
  }

  /** What the node's task does while its connection lasts. */
  predicate Inner(action: Action) {
    match action
    case Connected(_) => false
    case OfflineHandled => false
    case Allocated(_, _) => false
    case DeviceUp(_) => false
    case DeviceDown(_) => false
    case DeviceBirthFailed(_) => false
    case DataChecked(_) => false
    case DataRefused(_) => false
    case _ => true
  }

  lemma InnerFrame(t: Trace, action: Action)
    requires Inner(action)
    ensures SameOutside(t, Then(t, action))
  {
  }

  lemma OnlineTriedFrame(host: Option<string>, n: Session)
    ensures SessionFrame(n.shared.trace, n.shared.bdseq, OnlineTried(host, n))
  {
    hide SameOutside;
    assert SameOutside(n.shared.trace, n.shared.trace) by { Unchanged(n.shared.trace); }
    InnerFrame(n.shared.trace, BirthStarted(n.shared.bdseq));
  }

  lemma Unchanged(t: Trace)
    ensures SameOutside(t, t)
  {
  }

  lemma Onwards(t0: Trace, t1: Trace, t2: Trace)
    requires SameOutside(t0, t1) && SameOutside(t1, t2)
    ensures SameOutside(t0, t2)
  {
  }

  /** Two more actions, one after the other. */
  lemma TwoInner(t: Trace, a: Action, b: Action)
    requires Inner(a) && Inner(b)
    ensures SameOutside(t, Then(Then(t, a), b))
  {
    hide SameOutside;
    InnerFrame(t, a);
    InnerFrame(Then(t, a), b);
    Onwards(t, Then(t, a), Then(Then(t, a), b));
  }

  lemma ReturnedFrame(host: Option<string>, n: Session, ok: bool)
    ensures SessionFrame(n.shared.trace, n.shared.bdseq, Returned(host, n, ok))
  {
    var t := n.shared.trace;
    hide SameOutside;
    Unchanged(t);
    match n.wait
    case Subscribing =>
      InnerFrame(t, SessionUp);
      TwoInner(t, SessionUp, BirthStarted(n.shared.bdseq));
    case Birthing(kind) =>
      InnerFrame(t, BirthDone);
      InnerFrame(t, BirthFailed(kind));
      TwoInner(t, BirthFailed(kind), SessionDown);
    case PublishingDeath => TwoInner(t, NodeDead, DeathReturned);
    case _ =>
  }

  lemma HostStateSeenFrame(host: Option<string>, n: Session, from: string, online: bool, timestamp: nat)
    ensures SessionFrame(n.shared.trace, n.shared.bdseq, HostStateSeen(host, n, from, online, timestamp))
  {
    var t, state := n.shared.trace, StateAccepted(online, timestamp);
    Unchanged(t);
    InnerFrame(t, state);
    TwoInner(t, state, BirthStarted(n.shared.bdseq));
    TwoInner(t, state, DeathSent(n.shared.bdseq, HostGone));
    hide SameOutside;
  }

  lemma RebirthsFrame(n: Session)
    ensures SessionFrame(n.shared.trace, n.shared.bdseq, Rebirthed(n))
    ensures SessionFrame(n.shared.trace, n.shared.bdseq, CommandRebirthed(n))
  {
    var t, birth := n.shared.trace, BirthStarted(n.shared.bdseq);
    Unchanged(t);
    InnerFrame(t, birth);
    TwoInner(t, NodeDead, birth);
    hide SameOutside;
  }

  lemma SessionStepKeeps(host: Option<string>, y: System, n: Session)
    requires Inv(host, y) && SessionKept(host, n) && SessionGoesOn(host, n)
    requires SessionFrame(y.session.shared.trace, y.session.shared.bdseq, n)
    ensures Inv(host, y.(session := n))
  {
    hide SessionKept, SessionGoesOn, Facts, Flags;
  }

  lemma OfflineTakenKeeps(host: Option<string>, y: System)
    requires Inv(host, y) && y.session.wait.Idle? && y.queue != [] && y.queue[0].WentOffline?
    ensures Inv(host, MessageTaken(host, y))
  {
    assert y.loop.AwaitingWill? && y.queue[1..] == [];
    OfflineSeenKeeps(host, y.session);
    TurnsGoOn(host, y.session);
    OfflineSeenFrame(y.session);
    hide SessionKept, SessionGoesOn, OfflineSeen, Facts, Flags;
  }

  lemma MessageTakenKeeps(host: Option<string>, y: System)
    requires Inv(host, y) && y.session.wait.Idle? && y.queue != []
    ensures Inv(host, MessageTaken(host, y))
  {
    var rest := y.(queue := y.queue[1..]);
    match y.queue[0]
    case WentOffline => OfflineTakenKeeps(host, y);
    case WentOnline =>
      var n := y.session.(clientOnline := true);
      assert SessionKept(host, n) && (n.retryPending ==> !n.shared.birthed);
      hide SessionKept, SessionGoesOn, OnlineTried, DevicesKnown;
      OnlineTriedKeeps(host, n);
      OnlineTriedGoesOn(host, n);
      OnlineTriedFrame(host, n);
      QueueTailKept(host, y);
      SessionStepKeeps(host, rest, OnlineTried(host, n));
    case HostState(from, online, timestamp) =>
      hide SessionKept, SessionGoesOn, HostStateSeen, DevicesKnown;
      HostStateSeenKeeps(host, y.session, from, online, timestamp);
      HostStateSeenGoesOn(host, y.session, from, online, timestamp);
      HostStateSeenFrame(host, y.session, from, online, timestamp);
      QueueTailKept(host, y);
      SessionStepKeeps(host, rest, HostStateSeen(host, y.session, from, online, timestamp));
  }

  lemma OfflineSeenFrame(n: Session)
    ensures var (n', reply) := OfflineSeen(n);
            && (if reply.Some? then reply.value == n'.shared.bdseq else n'.shared.bdseq == n.shared.bdseq)
            && CurrentWill(n'.shared.trace).None?
            && forall d :: Facts(n'.shared.trace, d) == Facts(n.shared.trace, d)
  {
  }

  lemma QueueTailKept(host: Option<string>, y: System)
    requires Inv(host, y) && y.queue != [] && !y.queue[0].WentOffline?
    ensures Inv(host, y.(queue := y.queue[1..]))
  {
    hide SessionKept, SessionGoesOn, Facts, Flags;
    if y.loop.AwaitingWill? {
      var k := |y.queue| - 1;
      assert k > 0;
      assert y.queue[1..][..k - 1] == y.queue[..k][1..];
    }
  }

  lemma ConnectKeeps(host: Option<string>, y: System)
    requires Inv(host, y) && y.loop.Polling?
    ensures Inv(host, After(host, y, Connect))
  {
    var t := y.session.shared.trace;
    assert forall d :: Facts(Then(t, Connected(y.will)), d) == Facts(t, d);
    hide Facts, Flags;
  }

  lemma LoopKeeps(host: Option<string>, y: System, step: Step)
    requires Inv(host, y) && Enabled(y, step)
    requires step.Disconnect? || step.ReceiveState? || step.RegisterWill? || step.AddDevice?
    ensures Inv(host, After(host, y, step))
  {
    hide SessionKept, SessionGoesOn, Facts;
  }

  /** What tasks other than the node's do to the shared state. */
  ghost predicate OtherStep(host: Option<string>, s: Shared, s': Shared) {
    && SharedKnown(host, s')
    && s'.online == s.online && (s'.birthed ==> s.birthed) && s'.primaryHostOnline == s.primaryHostOnline
    && s'.bdseq == s.bdseq && CurrentWill(s'.trace) == CurrentWill(s.trace)
    && NodeBirthing(s'.trace) == NodeBirthing(s.trace)
    && (HostDeathOut(s'.trace) ==> HostDeathOut(s.trace) && s'.birthed == s.birthed)
    && (GivenUp(s.trace) || (s.birthed && !s'.birthed) ==> GivenUp(s'.trace))
  }

  lemma OtherSteps(host: Option<string>, s0: Shared, s1: Shared, s2: Shared)
    requires OtherStep(host, s0, s1) && OtherStep(host, s1, s2)
    ensures OtherStep(host, s0, s2)
  {
    hide SharedKnown;
  }

  lemma OtherStepKeeps(host: Option<string>, y: System, s: Shared, devices: map<nat, Device>)
    requires Inv(host, y) && OtherStep(host, y.session.shared, s)
    requires DevicesKnown(WithShared(y, s).(devices := devices)) && DevicesFit(devices)
    ensures Inv(host, WithShared(y, s).(devices := devices))
  {
    hide SharedKnown, DevicesKnown, DevicesFit;
  }

  lemma NobodyStepKeeps(host: Option<string>, y: System, s: Shared)
    requires Inv(host, y) && OtherStep(host, y.session.shared, s)
    requires forall d :: Facts(s.trace, d) == Facts(y.session.shared.trace, d)
    ensures Inv(host, WithShared(y, s))
  {
    hide SessionKept, SessionGoesOn, OtherStep, Facts, Flags;
    OtherStepKeeps(host, y, s, y.devices);
  }

  /** One device, or a publisher of its data, has moved. */
  lemma DeviceStepKeeps(host: Option<string>, y: System, d: nat, s: Shared, v: Device)
    requires Inv(host, y) && d in y.devices && OtherStep(host, y.session.shared, s)
    requires forall e :: Facts(s.trace, e) == if e == d then Flags(v, d) else Facts(y.session.shared.trace, e)
    requires DeviceFit(v)
    ensures Inv(host, WithDevice(y, d, (s, v)))
  {
    hide SessionKept, SessionGoesOn, OtherStep, Facts, Flags, DeviceFit;
    OtherStepKeeps(host, y, s, y.devices[d := v]);
  }

  /** How an allocation changes what the record says of devices. */
  lemma AllocateIsOther(host: Option<string>, s: Shared, p: Publisher)
    requires SharedKnown(host, s) && MayAsk(s.trace, p)
    ensures OtherStep(host, s, Allocate(s, p).0)
    ensures var s' := Allocate(s, p).0;
            forall d :: Facts(s'.trace, d) ==
              var (up, out, checked) := Facts(s.trace, d);
              (up, out || (s' != s && p == DBirth(d)), checked - if s' != s && p == DData(d) then 1 else 0)
  {
    AllocateKeeps(host, s, p);
    hide SharedKnown, MayAsk;
  }

  /** What is recorded without a change of the shared state. */
  lemma NoteIsOther(host: Option<string>, s: Shared, action: Action)
    requires SharedKnown(host, s) && Allowed(host, s.trace, action)
    requires action.DeviceUp? || action.DeviceDown? || action.DeviceBirthFailed?
             || action.DataChecked? || action.DataRefused?
    ensures OtherStep(host, s, s.Did(action))
  {
  }

  lemma CancelIsOther(host: Option<string>, s: Shared)
    requires SharedKnown(host, s)
    ensures OtherStep(host, s, CancelSent(s))
    ensures forall d :: Facts(CancelSent(s).trace, d) == Facts(s.trace, d)
  {
    var dead := s.(birthed := false).Did(NodeDead);
    assert OtherwiseSame(s.trace, dead.trace) && SharedKnown(host, dead);
    DeathNoteKeeps(host, dead);
    hide SharedKnown, Facts;
  }

  /** Stopping data, and handing over the NDEATH after that, change nothing else that is known. */
  ghost predicate OtherwiseSame(t: Trace, t': Trace) {
    SameOutside(t, t') && NodeBirthing(t') == NodeBirthing(t)
  }

  lemma DeathNoteKeeps(host: Option<string>, s: Shared)
    requires SharedKnown(host, s) && !s.birthed
    ensures var s' := s.Did(DeathSent(s.bdseq, Cancelled));
            SharedKnown(host, s') && OtherwiseSame(s.trace, s'.trace) && GivenUp(s'.trace) && !HostDeathOut(s'.trace)
  {
  }

  lemma DeviceBirthedKeeps(host: Option<string>, y: System, d: nat, v: Device, kind: BirthKind)
    requires Inv(host, y) && d in y.devices && v.publishing.None?
    requires Flags(v, d) == Flags(y.devices[d], d) && DeviceFit(v)
    ensures Inv(host, WithDevice(y, d, DeviceBirthed(y.session.shared, v, d, kind)))
  {
    var s := y.session.shared;
    var (s', v') := DeviceBirthed(s, v, d, kind);
    AllocateIsOther(host, s, DBirth(d));
    var s1 := Allocate(s, DBirth(d)).0;
    NoteIsOther(host, s1, DeviceDown(d));
    OtherSteps(host, s, s1, s1.Did(DeviceDown(d)));
    assert OtherStep(host, s, s) by { NothingIsOther(host, s); }
    hide SharedKnown, OtherStep;
    assert Facts(s.trace, d) == Flags(v, d);
    DeviceStepKeeps(host, y, d, s', v');
  }

  lemma NothingIsOther(host: Option<string>, s: Shared)
    requires SharedKnown(host, s)
    ensures OtherStep(host, s, s)
  {
  }

  lemma DeviceDiedKeeps(host: Option<string>, y: System, d: nat, v: Device, publish: bool)
    requires Inv(host, y) && d in y.devices && v.publishing.None? && Flags(v, d) == Flags(y.devices[d], d)
    ensures Inv(host, WithDevice(y, d, DeviceDied(y.session.shared, v, d, publish)))
  {
    var s := y.session.shared;
    var (s', v') := DeviceDied(s, v, d, publish);
    assert Facts(s.trace, d) == Flags(v, d);
    var s1 := s.Did(DeviceDown(d));
    NoteIsOther(host, s, DeviceDown(d));
    if v.birthed {
      AllocateIsOther(host, s1, DDeath(d));
      OtherSteps(host, s, s1, Allocate(s1, DDeath(d)).0);
    }
    assert OtherStep(host, s, s) by { NothingIsOther(host, s); }
    hide SharedKnown, OtherStep;
    DeviceStepKeeps(host, y, d, s', v');
  }

  lemma DeviceReturnedKeeps(host: Option<string>, y: System, d: nat, ok: bool)
    requires Inv(host, y) && d in y.devices && y.devices[d].publishing.Some?
    ensures Inv(host, WithDevice(y, d, DeviceReturned(y.session.shared, y.devices[d], d, ok)))
  {
    var s, v := y.session.shared, y.devices[d];
    var (s', v') := DeviceReturned(s, v, d, ok);
    assert Facts(s.trace, d) == Flags(v, d);
    NothingIsOther(host, s);
    if v.publishing == Some(DBirth(d)) {
      NoteIsOther(host, s, if ok then DeviceUp(d) else DeviceBirthFailed(d));
    }
    hide SharedKnown, OtherStep;
    DeviceStepKeeps(host, y, d, s', v');
  }

  lemma DataCheckPassedKeeps(host: Option<string>, y: System, d: nat)
    requires Inv(host, y) && d in y.devices
    ensures Inv(host, WithDevice(y, d, DataCheckPassed(y.session.shared, y.devices[d], d)))
  {
    var s, v := y.session.shared, y.devices[d];
    var (s', v') := DataCheckPassed(s, v, d);
    assert Facts(s.trace, d) == Flags(v, d);
    NothingIsOther(host, s);
    if v.birthed {
      NoteIsOther(host, s, DataChecked(d));
    }
    hide SharedKnown, OtherStep;
    DeviceStepKeeps(host, y, d, s', v');
  }

  lemma DataNumberedKeeps(host: Option<string>, y: System, d: nat)
    requires Inv(host, y) && d in y.devices && y.devices[d].checked > 0
    ensures Inv(host, WithDevice(y, d, DataNumbered(y.session.shared, y.devices[d], d)))
  {
    var s, v := y.session.shared, y.devices[d];
    var (s', v') := DataNumbered(s, v, d);
    assert Facts(s.trace, d) == Flags(v, d);
    AllocateIsOther(host, s, DData(d));
    NoteIsOther(host, s, DataRefused(d));
    hide SharedKnown, OtherStep;
    DeviceStepKeeps(host, y, d, s', v');
  }

  lemma HandlesKeep(host: Option<string>, y: System, step: Step)
    requires Inv(host, y) && (step.PublishNodeData? || step.Cancel?)
    ensures Inv(host, After(host, y, step))
  {
    var s := y.session.shared;
    hide SharedKnown, OtherStep, Allocate, Facts;
    if step.Cancel? {
      CancelIsOther(host, s);
      NobodyStepKeeps(host, y, CancelSent(s));
    } else {
      AllocateIsOther(host, s, NData);
      NobodyStepKeeps(host, y, Allocate(s, NData).0);
    }
  }

  lemma TaskKeeps(host: Option<string>, y: System, step: Step)
    requires Inv(host, y) && Enabled(y, step)
    requires step.RetryFires? || step.RebirthAsked? || step.RebirthCommanded? || step.CallReturns?
    ensures Inv(host, After(host, y, step))
  {
    var n := y.session;
    match step
    case RetryFires =>
      var n' := n.(retryPending := false);
      assert SessionKept(host, n');
      hide SessionKept, SessionGoesOn, OnlineTried, SessionFrame;
      OnlineTriedKeeps(host, n');
      OnlineTriedGoesOn(host, n');
      OnlineTriedFrame(host, n');
      SessionStepKeeps(host, y, OnlineTried(host, n'));
    case RebirthAsked =>
      hide SessionKept, SessionGoesOn, Rebirthed, SessionFrame;
      RebirthsKeep(host, n);
      TurnsGoOn(host, n);
      RebirthsFrame(n);
      SessionStepKeeps(host, y, Rebirthed(n));
    case RebirthCommanded =>
      hide SessionKept, SessionGoesOn, CommandRebirthed, SessionFrame;
      RebirthsKeep(host, n);
      TurnsGoOn(host, n);
      RebirthsFrame(n);
      SessionStepKeeps(host, y, CommandRebirthed(n));
    case CallReturns(ok) =>
      hide SessionKept, SessionGoesOn, Returned, SessionFrame;
      ReturnedKeeps(host, n, ok);
      ReturnedGoesOn(host, n, ok);
      ReturnedFrame(host, n, ok);
      SessionStepKeeps(host, y, Returned(host, n, ok));
  }

  lemma DeviceTaskKeeps(host: Option<string>, y: System, step: Step)
    requires Inv(host, y) && Enabled(y, step)
    requires step.BirthDevice? || step.EnableDevice? || step.KillDevice? || step.DisableDevice?
             || step.DeviceCallReturns?
    ensures Inv(host, After(host, y, step))
  {
    assert DeviceFit(y.devices[step.device]);
    match step
    case BirthDevice(d, kind) => DeviceBirthedKeeps(host, y, d, y.devices[d], kind);
    case EnableDevice(d) => DeviceBirthedKeeps(host, y, d, y.devices[d].(enabled := true), FirstBirth);
    case KillDevice(d, publish) => DeviceDiedKeeps(host, y, d, y.devices[d], publish);
    case DisableDevice(d) => DeviceDiedKeeps(host, y, d, y.devices[d].(enabled := false), true);
    case DeviceCallReturns(d, ok) => DeviceReturnedKeeps(host, y, d, ok);
  }

  lemma PublisherKeeps(host: Option<string>, y: System, step: Step)
    requires Inv(host, y) && Enabled(y, step) && (step.CheckDevice? || step.NumberDeviceData?)
    ensures Inv(host, After(host, y, step))
  {
    hide Inv, DataCheckPassed, DataNumbered, WithDevice;
    if step.CheckDevice? {
      DataCheckPassedKeeps(host, y, step.device);
    } else {
      DataNumberedKeeps(host, y, step.device);
    }
  }

  lemma StepKeeps(host: Option<string>, y: System, step: Step)
    requires Inv(host, y) && Enabled(y, step)
    ensures Inv(host, After(host, y, step))
  {
    hide Inv, After;
    if step.TakeMessage? {
      assert After(host, y, step) == MessageTaken(host, y) by { TakingIs(host, y); }
      MessageTakenKeeps(host, y);
    } else if step.Connect? {
      ConnectKeeps(host, y);
    } else if step.PublishNodeData? || step.Cancel? {
      HandlesKeep(host, y, step);
    } else if step.CheckDevice? || step.NumberDeviceData? {
      PublisherKeeps(host, y, step);
    } else if step.RetryFires? || step.RebirthAsked? || step.RebirthCommanded? || step.CallReturns? {
      TaskKeeps(host, y, step);
    } else if step.Disconnect? || step.ReceiveState? || step.RegisterWill? || step.AddDevice? {
      LoopKeeps(host, y, step);
    } else {
      DeviceTaskKeeps(host, y, step);
    }
  }

  lemma TakingIs(host: Option<string>, y: System)
    requires Enabled(y, TakeMessage)
    ensures After(host, y, TakeMessage) == MessageTaken(host, y)
  {
  }

  /** Steps are attempted in the order given; those that cannot be taken are skipped. */
  function Run(host: Option<string>, steps: seq<Step>): System {
    if steps == [] then Initial()
    else
      var y, step := Run(host, steps[..|steps| - 1]), steps[|steps| - 1];
      if Enabled(y, step) then After(host, y, step) else y
  }

  lemma {:induction false} RunKeeps(host: Option<string>, steps: seq<Step>)
    ensures Inv(host, Run(host, steps))
  {
    if steps != [] {
      var y, step := Run(host, steps[..|steps| - 1]), steps[|steps| - 1];
      RunKeeps(host, steps[..|steps| - 1]);
      hide Inv, After;
      if Enabled(y, step) {
        StepKeeps(host, y, step);
      }
    }
  }
}
