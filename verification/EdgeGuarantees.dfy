/** The guarantees of an edge node, read off the invariant of its runs. */
module EdgeGuarantees {
  import opened Bounded
  import opened Options
  import opened EdgeNode
  import opened EdgeRuns

  /** `t` is what had been done at some earlier point, or now. */
  ghost predicate Earlier(t: Trace, now: Trace) {
    t == now || (now.Then? && Earlier(t, now.before))
  }

  lemma {:induction false} EarlierIsProper(host: Option<string>, t: Trace, now: Trace)
    requires Earlier(t, now) && Proper(host, now)
    ensures Proper(host, t)
  {
    if t != now {
      EarlierIsProper(host, t, now.before);
    }
  }

  lemma {:induction false} ProperIsNumbered(host: Option<string>, t: Trace, i: nat)
    requires Proper(host, t) && i < |SinceStart(t)|
    ensures SinceStart(t)[i].seqNumber == (i + 1) % 256
  {
    if !t.action.Allocated? || i < |SinceStart(t)| - 1 {
      ProperIsNumbered(host, t.before, i);
    }
  }

  /**
   Allocation order: under every interleaving of the node, its handles, its devices, rebirths and
   cancellation, the numbers handed out since a birth was started are 1, 2, 3, ... modulo 256.
   */
  lemma AllocationsAreConsecutive(host: Option<string>, steps: seq<Step>, t: Trace, i: nat)
    requires Earlier(t, Run(host, steps).session.shared.trace) && i < |SinceStart(t)|
    ensures SinceStart(t)[i].seqNumber == (i + 1) % 256
  {
    RunKeeps(host, steps);
    EarlierIsProper(host, t, Run(host, steps).session.shared.trace);
    ProperIsNumbered(host, t, i);
  }

  /**
   None is handed out offline or unbirthed. A device's data gets one only after a check that found the
   device up, each check serving once; a death gets one only as the device goes down.
   */
  lemma AllocationsAreGated(host: Option<string>, steps: seq<Step>, t: Trace)
    requires Earlier(t, Run(host, steps).session.shared.trace) && t.Then?
    ensures t.action.Allocated? ==> SessionOn(t.before) && NodeUp(t.before) && MayAsk(t.before, t.action.publisher)
    ensures t.action.DataChecked? ==> DeviceIsUp(t.before, t.action.device)
    ensures t.action.DeviceUp? ==> BirthOut(t.before, t.action.device)
  {
    RunKeeps(host, steps);
    EarlierIsProper(host, t, Run(host, steps).session.shared.trace);
  }

  /** A publisher gets a number exactly while the record shows a session and a completed birth. */
  lemma AllocationIsGrantedExactly(host: Option<string>, steps: seq<Step>, p: Publisher)
    ensures var s := Run(host, steps).session.shared;
            Allocate(s, p).1 ==
              if SessionOn(s.trace) && NodeUp(s.trace) then Some((|SinceStart(s.trace)| + 1) % 256) else None
  {
    RunKeeps(host, steps);
    SuccOfMod(|SinceStart(Run(host, steps).session.shared.trace)|);
  }

  /** A disabled device is down: its last DBIRTH is followed by its death. */
  lemma DisabledDevicesAreDown(host: Option<string>, steps: seq<Step>, d: nat)
    ensures var y := Run(host, steps);
            d in y.devices ==>
              && (y.devices[d].birthed <==> DeviceIsUp(y.session.shared.trace, d))
              && (!y.devices[d].enabled ==> !DeviceIsUp(y.session.shared.trace, d))
  {
    RunKeeps(host, steps);
    var y := Run(host, steps);
    assert d in y.devices ==> DeviceFit(y.devices[d]);
    assert Facts(y.session.shared.trace, d) == if d in y.devices then Flags(y.devices[d], d) else (false, false, 0);
  }

  /** A STATE is accepted exactly when it is the primary host's and not older than the last one accepted. */
  lemma StatesAreAcceptedExactly(host: Option<string>, steps: seq<Step>, from: string, online: bool, timestamp: nat)
    ensures var n := Run(host, steps).session;
            var t := n.shared.trace;
            LastState(HostStateSeen(host, n, from, online, timestamp).shared.trace) ==
              if host == Some(from) && (LastState(t).None? || LastState(t).value <= timestamp) then Some(timestamp)
              else LastState(t)
  {
    RunKeeps(host, steps);
    var n := Run(host, steps).session;
    assert LastState(Then(n.shared.trace, StateAccepted(online, timestamp))) == Some(timestamp);
  }

  /** A rebirth, asked for or commanded, starts exactly when the node is birthed; then numbering starts again. */
  lemma RebirthsStartExactly(host: Option<string>, steps: seq<Step>)
    ensures var n := Run(host, steps).session;
            var asked, commanded := Rebirthed(n).shared.trace, CommandRebirthed(n).shared.trace;
            if NodeUp(n.shared.trace)
            then asked.action == commanded.action == BirthStarted(n.shared.bdseq)
                 && commanded.before == Then(asked.before, NodeDead)
                 && SinceStart(asked) == SinceStart(commanded) == []
            else asked == commanded == n.shared.trace
  {
    RunKeeps(host, steps);
  }

  /**
   Birth gating: every NBIRTH, whether first, asked for or commanded, is published on an established
   session, and only after the primary host's last accepted STATE since the last disconnection was online.
   */
  lemma BirthsAreGated(host: Option<string>, steps: seq<Step>, t: Trace)
    requires Earlier(t, Run(host, steps).session.shared.trace) && t.Then? && t.action.BirthStarted?
    ensures SessionOn(t.before) && (host.Some? ==> HostUp(t.before))
  {
    RunKeeps(host, steps);
    EarlierIsProper(host, t, Run(host, steps).session.shared.trace);
  }

  /** Between two turns of the node's task, birthed implies online with the primary host, if there is one, online. */
  lemma BirthedBetweenTurns(host: Option<string>, steps: seq<Step>)
    ensures var n := Run(host, steps).session;
            n.wait.Idle? && n.shared.birthed ==>
              n.shared.online && SessionOn(n.shared.trace) &&
                (host.Some? ==> n.shared.primaryHostOnline && HostUp(n.shared.trace))
  {
    RunKeeps(host, steps);
  }

  ghost function StateTimes(t: Trace): seq<nat> {
    match t
    case Nothing => []
    case Then(before, StateAccepted(_, timestamp)) => StateTimes(before) + [timestamp]
    case Then(before, _) => StateTimes(before)
  }

  lemma {:induction false} ProperStatesAscend(host: Option<string>, t: Trace)
    requires Proper(host, t)
    ensures forall i, j :: 0 <= i < j < |StateTimes(t)| ==> StateTimes(t)[i] <= StateTimes(t)[j]
    ensures if StateTimes(t) == [] then LastState(t) == None
            else LastState(t) == Some(StateTimes(t)[|StateTimes(t)| - 1])
  {
    if t.Then? {
      ProperStatesAscend(host, t.before);
    }
  }

  lemma AcceptedStatesAscend(host: Option<string>, steps: seq<Step>, i: nat, j: nat)
    requires i < j < |StateTimes(Run(host, steps).session.shared.trace)|
    ensures var times := StateTimes(Run(host, steps).session.shared.trace); times[i] <= times[j]
  {
    RunKeeps(host, steps);
    ProperStatesAscend(host, Run(host, steps).session.shared.trace);
  }

  /**
   bdSeq and last will agree: every NBIRTH, and every NDEATH sent while there is a connection, carries
   the bdSeq of that connection's will, which counts the established sessions that have ended.
   */
  lemma WillsAgree(host: Option<string>, steps: seq<Step>, t: Trace)
    requires Earlier(t, Run(host, steps).session.shared.trace) && t.Then?
    ensures t.action.BirthStarted? ==>
              CurrentWill(t.before) == Some(t.action.bdseq) && t.action.bdseq == EndedSessions(t.before) % 256
    ensures t.action.DeathSent? && CurrentWill(t.before).Some? ==> CurrentWill(t.before) == Some(t.action.bdseq)
    ensures t.action.Connected? ==> t.action.will == EndedSessions(t.before) % 256
  {
    RunKeeps(host, steps);
    EarlierIsProper(host, t, Run(host, steps).session.shared.trace);
  }

  /** Whenever the event loop may connect, the registered will carries the node's bdSeq. */
  lemma WillIsRegisteredBeforeConnecting(host: Option<string>, steps: seq<Step>)
    ensures var y := Run(host, steps);
            && y.session.shared.bdseq == EndedSessions(y.session.shared.trace) % 256
            && (Enabled(y, Connect) ==> y.will == y.session.shared.bdseq)
  {
    RunKeeps(host, steps);
  }
}
