/**
 What a session's numbers look like from the host's side of the wire: whether data comes after the births
 it belongs to, and before the node's death. Neither always holds; both are settled exactly.
 */
module EdgeSessions {
  import opened Bounded
  import opened Options
  import opened EdgeNode
  import opened EdgeRuns
  import opened EdgeGuarantees

  /** What had been done when the last birth was started. */
  ghost function StartOf(t: Trace): Trace {
    match t
    case Nothing => Nothing
    case Then(before, BirthStarted(_)) => before
    case Then(before, _) => StartOf(before)
  }

  /** Further steps that start no birth. */
  ghost predicate SameSession(host: Option<string>, steps: seq<Step>, more: seq<Step>) {
    StartOf(Run(host, steps + more).session.shared.trace) == StartOf(Run(host, steps).session.shared.trace)
  }

  ghost function Numbers(host: Option<string>, steps: seq<Step>): seq<Number> {
    SinceStart(Run(host, steps).session.shared.trace)
  }

  lemma RunOn(host: Option<string>, steps: seq<Step>, step: Step)
    ensures var y := Run(host, steps);
            Run(host, steps + [step]) == if Enabled(y, step) then After(host, y, step) else y
  {
    assert (steps + [step])[..|steps + [step]| - 1] == steps;
  }

  // Births and data

  /** A device that is neither up nor on its way up. */
  ghost predicate AtRest(t: Trace, d: nat) {
    !DeviceIsUp(t, d) && !BirthOut(t, d)
  }

  /** Nor is any of its data on its way to a number. */
  ghost predicate Quiet(t: Trace, d: nat) {
    AtRest(t, d) && Checked(t, d) <= 0
  }

  ghost predicate Introduced(ns: seq<Number>, d: nat) {
    exists j :: 0 <= j < |ns| && ns[j].publisher == DBirth(d)
  }

  /** Whatever the publisher numbers comes after a DBIRTH of the device. */
  ghost predicate FollowsBirth(ns: seq<Number>, p: Publisher, d: nat) {
    forall i :: 0 <= i < |ns| && ns[i].publisher == p ==> Introduced(ns[..i], d)
  }

  lemma IntroducedSnoc(ns: seq<Number>, n: Number, d: nat)
    ensures Introduced(ns + [n], d) <==> Introduced(ns, d) || n.publisher == DBirth(d)
  {
    if Introduced(ns, d) {
      var j :| 0 <= j < |ns| && ns[j].publisher == DBirth(d);
      assert (ns + [n])[j].publisher == DBirth(d);
    }
    if n.publisher == DBirth(d) {
      assert (ns + [n])[|ns|].publisher == DBirth(d);
    }
  }

  lemma FollowsSnoc(ns: seq<Number>, n: Number, p: Publisher, d: nat)
    requires FollowsBirth(ns, p, d) && (n.publisher == p ==> Introduced(ns, d))
    ensures FollowsBirth(ns + [n], p, d)
  {
    forall i | 0 <= i < |ns + [n]| && (ns + [n])[i].publisher == p ensures Introduced((ns + [n])[..i], d) {
      assert (ns + [n])[..i] == ns[..i];
      assert ns[..|ns|] == ns;
    }
  }

  /** In a session that began with the device at rest, it is up or on its way up only by a DBIRTH of the session. */
  lemma {:induction false} UpByBirth(host: Option<string>, t: Trace, d: nat)
    requires Proper(host, t) && AtRest(StartOf(t), d)
    ensures DeviceIsUp(t, d) || BirthOut(t, d) ==> Introduced(SinceStart(t), d)
    ensures Quiet(StartOf(t), d) && Checked(t, d) > 0 ==> Introduced(SinceStart(t), d)
  {
    if t.Then? && !t.action.BirthStarted? {
      UpByBirth(host, t.before, d);
      if t.action.Allocated? {
        IntroducedSnoc(SinceStart(t.before), Number(t.action.seqNumber, t.action.publisher), d);
      }
      hide Introduced, Proper;
    }
  }

  lemma {:induction false} DataFollowsBirth(host: Option<string>, t: Trace, d: nat)
    requires Proper(host, t) && AtRest(StartOf(t), d)
    ensures Quiet(StartOf(t), d) ==> FollowsBirth(SinceStart(t), DData(d), d)
    ensures FollowsBirth(SinceStart(t), DDeath(d), d)
  {
    if t.Then? && !t.action.BirthStarted? {
      DataFollowsBirth(host, t.before, d);
      if t.action.Allocated? {
        var n := Number(t.action.seqNumber, t.action.publisher);
        UpByBirth(host, t.before, d);
        if n.publisher == DDeath(d) {
          UpByBirth(host, t.before.before, d);
        }
        hide FollowsBirth, Introduced;
        FollowsSnoc(SinceStart(t.before), n, DDeath(d), d);
        if Quiet(StartOf(t), d) {
          FollowsSnoc(SinceStart(t.before), n, DData(d), d);
        }
      }
    }
  }

  /** A step if it can be taken, as runs take them. */
  function Tried(host: Option<string>, y: System, step: Step): System {
    if Enabled(y, step) then After(host, y, step) else y
  }

  lemma RunOnFour(host: Option<string>, steps: seq<Step>, a: Step, b: Step, c: Step, e: Step)
    ensures Run(host, steps + [a, b, c, e]) ==
              Tried(host, Tried(host, Tried(host, Tried(host, Run(host, steps), a), b), c), e)
  {
    RunOn(host, steps, a);
    RunOn(host, steps + [a], b);
    RunOn(host, steps + [a] + [b], c);
    RunOn(host, steps + [a] + [b] + [c], e);
    hide Run, Enabled, After;
    assert steps + [a, b, c, e] == steps + [a] + [b] + [c] + [e];
  }

  /** A session that has numbered nothing, with its NBIRTH out or just published. */
  ghost predicate Unnumbered(y: System, start: Trace) {
    var s := y.session.shared;
    && s.online && (if s.birthed then y.session.wait.Idle? else y.session.wait.Birthing?)
    && s.seqNumber == 0 && SinceStart(s.trace) == [] && StartOf(s.trace) == start
  }

  lemma DeviceBirthEnds(host: Option<string>, y: System, d: nat, start: Trace)
    requires Unnumbered(y, start) && d in y.devices && DeviceFit(y.devices[d])
    requires Flags(y.devices[d], d) != (false, false, 0)
    ensures var y' := Tried(host, y, DeviceCallReturns(d, true));
            Unnumbered(y', start) && d in y'.devices && (y'.devices[d].birthed || y'.devices[d].checked > 0)
            && (y.devices[d].birthed || y.devices[d].publishing == Some(DBirth(d)) ==>
                 y'.devices[d].birthed && y'.devices[d].publishing.None?)
  {
  }

  lemma CheckPasses(host: Option<string>, y: System, d: nat, start: Trace)
    requires Unnumbered(y, start) && d in y.devices && (y.devices[d].birthed || y.devices[d].checked > 0)
    ensures var y' := Tried(host, y, CheckDevice(d));
            Unnumbered(y', start) && d in y'.devices && y'.devices[d].checked > 0
  {
  }

  lemma BirthEnds(host: Option<string>, y: System, start: Trace)
    requires Unnumbered(y, start) && y.session.wait.Birthing?
    ensures var y' := Tried(host, y, CallReturns(true));
            Unnumbered(y', start) && y'.session.shared.birthed && y'.devices == y.devices
  {
  }

  lemma DataIsNumbered(host: Option<string>, y: System, d: nat, start: Trace)
    requires Unnumbered(y, start) && y.session.shared.birthed && d in y.devices && y.devices[d].checked > 0
    ensures var t := Tried(host, y, NumberDeviceData(d)).session.shared.trace;
            SinceStart(t) == [Number(1, DData(d))] && StartOf(t) == start
  {
  }

  lemma DeathIsNumbered(host: Option<string>, y: System, d: nat, start: Trace)
    requires Unnumbered(y, start) && y.session.shared.birthed
    requires d in y.devices && y.devices[d].birthed && y.devices[d].publishing.None?
    ensures var t := Tried(host, y, KillDevice(d, true)).session.shared.trace;
            SinceStart(t) == [Number(1, DDeath(d))] && StartOf(t) == start
  {
    var t := Then(y.session.shared.trace, DeviceDown(d));
    assert SinceStart(t) == [] && StartOf(t) == start;
  }

  /** What is known where a birth has just been started. */
  lemma JustStarted(host: Option<string>, y: System, d: nat)
    requires Inv(host, y) && y.session.shared.trace.Then? && y.session.shared.trace.action.BirthStarted?
    ensures var t := y.session.shared.trace;
            && Unnumbered(y, t.before) && y.session.wait.Birthing?
            && Facts(t.before, d) == (if d in y.devices then Flags(y.devices[d], d) else (false, false, 0))
            && (d in y.devices ==> DeviceFit(y.devices[d]))
  {
    var t := y.session.shared.trace;
    assert Facts(t, d) == if d in y.devices then Flags(y.devices[d], d) else (false, false, 0);
    assert Facts(t, d) == Facts(t.before, d);
    hide WillRegistered, Proper;
  }

  /** Not quiet when the birth was started: its data can be the first thing numbered. */
  lemma DataCanComeFirst(host: Option<string>, steps: seq<Step>, d: nat)
    requires var t := Run(host, steps).session.shared.trace; t.Then? && t.action.BirthStarted? && !Quiet(t.before, d)
    ensures var more := [DeviceCallReturns(d, true), CheckDevice(d), CallReturns(true), NumberDeviceData(d)];
            SameSession(host, steps, more) && Numbers(host, steps + more) == [Number(1, DData(d))]
  {
    var y0 := Run(host, steps);
    var start := y0.session.shared.trace.before;
    RunKeeps(host, steps);
    JustStarted(host, y0, d);
    assert Facts(start, d) != (false, false, 0);
    var y1 := Tried(host, y0, DeviceCallReturns(d, true));
    var y2 := Tried(host, y1, CheckDevice(d));
    var y3 := Tried(host, y2, CallReturns(true));
    assert StartOf(y0.session.shared.trace) == start;
    hide Run, Tried, Inv, Unnumbered, Facts;
    RunOnFour(host, steps, DeviceCallReturns(d, true), CheckDevice(d), CallReturns(true), NumberDeviceData(d));
    DeviceBirthEnds(host, y0, d, start);
    CheckPasses(host, y1, d, start);
    StillBirthing(host, y0, d);
    BirthEnds(host, y2, start);
    DataIsNumbered(host, y3, d, start);
  }

  /** Devices do not touch what the node's task is waiting for. */
  lemma StillBirthing(host: Option<string>, y: System, d: nat)
    ensures Tried(host, y, DeviceCallReturns(d, true)).session.wait == y.session.wait
    ensures Tried(host, Tried(host, y, DeviceCallReturns(d, true)), CheckDevice(d)).session.wait == y.session.wait
  {
  }

  /** Not at rest when the birth was started: its death can be the first thing numbered. */
  lemma DeathCanComeFirst(host: Option<string>, steps: seq<Step>, d: nat)
    requires var t := Run(host, steps).session.shared.trace; t.Then? && t.action.BirthStarted? && !AtRest(t.before, d)
    ensures var more := [DeviceCallReturns(d, true), CallReturns(true), KillDevice(d, true)];
            SameSession(host, steps, more) && Numbers(host, steps + more) == [Number(1, DDeath(d))]
  {
    var y0 := Run(host, steps);
    var start := y0.session.shared.trace.before;
    RunKeeps(host, steps);
    JustStarted(host, y0, d);
    assert Facts(start, d) != (false, false, 0);
    assert d in y0.devices && (y0.devices[d].birthed || y0.devices[d].publishing == Some(DBirth(d)));
    assert StartOf(y0.session.shared.trace) == start;
    var a, b, c := DeviceCallReturns(d, true), CallReturns(true), KillDevice(d, true);
    hide Run, Tried, Inv, Unnumbered, Facts, AtRest;
    DeviceBirthEnds(host, y0, d, start);
    StillBirthing(host, y0, d);
    BirthEnds(host, Tried(host, y0, a), start);
    DeathIsNumbered(host, Tried(host, Tried(host, y0, a), b), d, start);
    RunOnThree(host, steps, a, b, c);
  }

  lemma RunOnThree(host: Option<string>, steps: seq<Step>, a: Step, b: Step, c: Step)
    ensures Run(host, steps + [a, b, c]) == Tried(host, Tried(host, Tried(host, Run(host, steps), a), b), c)
  {
    RunOn(host, steps, a);
    RunOn(host, steps + [a], b);
    RunOn(host, steps + [a] + [b], c);
    hide Run, Enabled, After;
    assert steps + [a, b, c] == steps + [a] + [b] + [c];
  }

  /**
   DBIRTH before DDATA, exactly: in a session, whatever happens in it, a device's data is numbered only
   after a DBIRTH of that session, if and only if the device was quiet when the session's birth was
   started: down, with no DBIRTH out, and with no publisher between its check and its number.
   */
  lemma DataFollowsItsBirthExactly(host: Option<string>, steps: seq<Step>, d: nat)
    requires var t := Run(host, steps).session.shared.trace; t.Then? && t.action.BirthStarted?
    ensures Quiet(Run(host, steps).session.shared.trace.before, d) <==>
              forall more :: SameSession(host, steps, more) ==> FollowsBirth(Numbers(host, steps + more), DData(d), d)
  {
    var t := Run(host, steps).session.shared.trace;
    if Quiet(t.before, d) {
      forall more | SameSession(host, steps, more) ensures FollowsBirth(Numbers(host, steps + more), DData(d), d) {
        RunKeeps(host, steps + more);
        DataFollowsBirth(host, Run(host, steps + more).session.shared.trace, d);
      }
    } else {
      var more := [DeviceCallReturns(d, true), CheckDevice(d), CallReturns(true), NumberDeviceData(d)];
      DataCanComeFirst(host, steps, d);
      hide Run;
      FirstDoesNotFollow(Numbers(host, steps + more), DData(d), d);
    }
  }

  lemma FirstDoesNotFollow(ns: seq<Number>, p: Publisher, d: nat)
    requires ns == [Number(1, p)]
    ensures !FollowsBirth(ns, p, d)
  {
    assert ns[0].publisher == p && |ns[..0]| == 0;
    assert !Introduced(ns[..0], d);
  }

  /** The same for its death, which needs the device only to have been at rest. */
  lemma DeathFollowsItsBirthExactly(host: Option<string>, steps: seq<Step>, d: nat)
    requires var t := Run(host, steps).session.shared.trace; t.Then? && t.action.BirthStarted?
    ensures AtRest(Run(host, steps).session.shared.trace.before, d) <==>
              forall more :: SameSession(host, steps, more) ==> FollowsBirth(Numbers(host, steps + more), DDeath(d), d)
  {
    var t := Run(host, steps).session.shared.trace;
    if AtRest(t.before, d) {
      forall more | SameSession(host, steps, more) ensures FollowsBirth(Numbers(host, steps + more), DDeath(d), d) {
        RunKeeps(host, steps + more);
        DataFollowsBirth(host, Run(host, steps + more).session.shared.trace, d);
      }
    } else {
      var more := [DeviceCallReturns(d, true), CallReturns(true), KillDevice(d, true)];
      DeathCanComeFirst(host, steps, d);
      hide Run;
      FirstDoesNotFollow(Numbers(host, steps + more), DDeath(d), d);
    }
  }

  // The node's death and data

  /** The last NDEATH was handed over after the last NBIRTH. */
  ghost predicate DeathIsOut(t: Trace) {
    match t
    case Nothing => false
    case Then(_, DeathSent(_, _)) => true
    case Then(_, BirthStarted(_)) => false
    case Then(before, _) => DeathIsOut(before)
  }

  /** The last NDEATH since the last birth came from a handle, while that birth's NBIRTH was with the client. */
  ghost predicate CancelledInBirth(t: Trace) {
    match t
    case Nothing => false
    case Then(before, DeathSent(_, sender)) => sender.Cancelled? && NodeBirthing(before)
    case Then(_, BirthStarted(_)) => false
    case Then(before, _) => CancelledInBirth(before)
  }

  lemma {:induction false} OpenAfterDeath(host: Option<string>, t: Trace)
    requires Proper(host, t) && DeathIsOut(t)
    ensures NodeUp(t) ==> HostDeathOut(t) || CancelledInBirth(t)
    ensures NodeBirthing(t) ==> CancelledInBirth(t)
  {
    if !t.action.DeathSent? {
      OpenAfterDeath(host, t.before);
    }
  }

  /**
   A number is handed out after an NDEATH, with no birth started since, only while an NDEATH sent because
   the host is gone is still with the client, or when the last NDEATH was a handle's and came while an
   NBIRTH was with the client.
   */
  lemma DataAfterDeath(host: Option<string>, steps: seq<Step>, t: Trace)
    requires Earlier(t, Run(host, steps).session.shared.trace)
    requires t.Then? && t.action.Allocated? && DeathIsOut(t.before)
    ensures HostDeathOut(t.before) || CancelledInBirth(t.before)
  {
    RunKeeps(host, steps);
    EarlierIsProper(host, t, Run(host, steps).session.shared.trace);
    OpenAfterDeath(host, t.before);
  }

  /** Whether numbers can still be handed out without another birth. */
  ghost predicate Closed(t: Trace) {
    !NodeUp(t) && !NodeBirthing(t)
  }

  ghost function Length(t: Trace): nat {
    if t.Nothing? then 0 else 1 + Length(t.before)
  }

  lemma {:induction false} StartIsEarlier(t: Trace)
    ensures t.Then? ==> Length(StartOf(t)) < Length(t)
  {
    if t.Then? && !t.action.BirthStarted? {
      StartIsEarlier(t.before);
    }
  }

  lemma {:induction false} EarlierIsShorter(t: Trace, now: Trace)
    requires Earlier(t, now)
    ensures Length(t) <= Length(now)
  {
    if t != now {
      EarlierIsShorter(t, now.before);
    }
  }

  /** Once closed, a session hands out no more numbers. */
  lemma {:induction false} ClosedStays(host: Option<string>, t: Trace, now: Trace)
    requires Proper(host, now) && Earlier(t, now) && t.Then? && StartOf(now) == StartOf(t) && Closed(t)
    ensures Closed(now) && SinceStart(now) == SinceStart(t)
  {
    if t != now {
      if now.action.BirthStarted? {
        StartIsEarlier(t);
        EarlierIsShorter(t, now.before);
      } else {
        ClosedStays(host, t, now.before);
      }
    }
  }

  // A step adds to the record, and takes nothing away

  ghost predicate Grown(t: Trace, t': Trace) {
    || t' == t
    || (t'.Then? && (t'.before == t || (t'.before.Then? && (t'.before.before == t ||
         (t'.before.before.Then? && t'.before.before.before == t)))))
  }

  lemma GrownIsEarlier(t: Trace, t': Trace)
    requires Grown(t, t')
    ensures Earlier(t, t')
  {
    if t' != t && t'.before != t {
      if t'.before.before != t {
        assert Earlier(t, t'.before.before.before) && Earlier(t, t'.before.before);
      }
      assert Earlier(t, t'.before);
    }
  }

  lemma TurnGrows(host: Option<string>, n: Session, from: string, online: bool, timestamp: nat)
    ensures Grown(n.shared.trace, HostStateSeen(host, n, from, online, timestamp).shared.trace)
    ensures Grown(n.shared.trace, OnlineTried(host, n).shared.trace)
    ensures Grown(n.shared.trace, OfflineSeen(n).0.shared.trace)
    ensures Grown(n.shared.trace, Rebirthed(n).shared.trace) && Grown(n.shared.trace, CommandRebirthed(n).shared.trace)
  {
  }

  lemma CallGrows(host: Option<string>, n: Session, ok: bool)
    ensures Grown(n.shared.trace, Returned(host, n, ok).shared.trace)
  {
  }

  lemma TaskGrows(host: Option<string>, y: System, step: Step)
    requires Enabled(y, step)
    requires step.TakeMessage? || step.RetryFires? || step.RebirthAsked? || step.RebirthCommanded? || step.CallReturns?
    ensures Grown(y.session.shared.trace, After(host, y, step).session.shared.trace)
  {
    hide Grown, HostStateSeen, OnlineTried, OfflineSeen, Rebirthed, CommandRebirthed, Returned;
    var n := y.session;
    TurnGrows(host, n, "", true, 0);
    if step.CallReturns? {
      CallGrows(host, n, step.ok);
    } else if step.RetryFires? {
      TurnGrows(host, n.(retryPending := false), "", true, 0);
    } else if step.TakeMessage? {
      TurnGrows(host, n.(clientOnline := true), "", true, 0);
      if y.queue[0].HostState? {
        TurnGrows(host, n, y.queue[0].from, y.queue[0].online, y.queue[0].timestamp);
      }
    }
  }

  lemma StepGrows(host: Option<string>, y: System, step: Step)
    requires Enabled(y, step)
    ensures Grown(y.session.shared.trace, After(host, y, step).session.shared.trace)
  {
    if step.TakeMessage? || step.RetryFires? || step.RebirthAsked? || step.RebirthCommanded? || step.CallReturns? {
      TaskGrows(host, y, step);
    } else {
      hide MessageTaken, OnlineTried, Returned, Rebirthed, CommandRebirthed;
    }
  }

  lemma {:induction false} EarlierOn(a: Trace, b: Trace, c: Trace)
    requires Earlier(a, b) && Earlier(b, c)
    ensures Earlier(a, c)
  {
    if b != c {
      EarlierOn(a, b, c.before);
    }
  }

  lemma {:induction false} RunGrows(host: Option<string>, steps: seq<Step>, more: seq<Step>)
    ensures Earlier(Run(host, steps).session.shared.trace, Run(host, steps + more).session.shared.trace)
    decreases |more|
  {
    if more == [] {
      assert steps + more == steps;
    } else {
      var front, step := more[..|more| - 1], more[|more| - 1];
      RunGrows(host, steps, front);
      RunOn(host, steps + front, step);
      assert steps + more == steps + front + [step];
      var y := Run(host, steps + front);
      hide Run, After;
      if Enabled(y, step) {
        StepGrows(host, y, step);
        GrownIsEarlier(y.session.shared.trace, After(host, y, step).session.shared.trace);
        EarlierOn(
          Run(host, steps).session.shared.trace, y.session.shared.trace, After(host, y, step).session.shared.trace);
      }
    }
  }

  /**
   An NDEATH sent because the host is gone leaves numbers to be had; so does one sent while an NBIRTH is with
   the client.
   */
  lemma DeathLeavesDataOpen(host: Option<string>, steps: seq<Step>)
    requires var t := Run(host, steps).session.shared.trace;
             t.Then? && t.action.DeathSent? && (t.action.sender.HostGone? || NodeBirthing(t.before))
    ensures exists more :: SameSession(host, steps, more) && Numbers(host, steps + more) != Numbers(host, steps)
  {
    RunKeeps(host, steps);
    var y := Run(host, steps);
    var t := y.session.shared.trace;
    var more := if t.action.sender.HostGone? then [PublishNodeData] else [CallReturns(true), PublishNodeData];
    hide Run, Inv, After, NodeBirthing;
    if t.action.sender.HostGone? {
      HostGoneLeavesOpen(host, y);
      RunOn(host, steps, PublishNodeData);
    } else {
      CancelInBirthLeavesOpen(host, y);
      RunOn(host, steps, CallReturns(true));
      RunOn(host, steps + [CallReturns(true)], PublishNodeData);
      assert steps + more == steps + [CallReturns(true)] + [PublishNodeData];
    }
    assert SameSession(host, steps, more) && Numbers(host, steps + more) != Numbers(host, steps);
  }

  lemma HostGoneLeavesOpen(host: Option<string>, y: System)
    requires Inv(host, y) && y.session.shared.trace.Then? && y.session.shared.trace.action.DeathSent?
    requires y.session.shared.trace.action.sender.HostGone?
    ensures var t := After(host, y, PublishNodeData).session.shared.trace;
            StartOf(t) == StartOf(y.session.shared.trace) && |SinceStart(t)| == |SinceStart(y.session.shared.trace)| + 1
  {
    hide Proper, DevicesKnown;
  }

  lemma CancelInBirthLeavesOpen(host: Option<string>, y: System)
    requires Inv(host, y) && y.session.shared.trace.Then? && y.session.shared.trace.action.DeathSent?
    requires NodeBirthing(y.session.shared.trace.before)
    ensures Enabled(y, CallReturns(true))
    ensures var t := After(host, After(host, y, CallReturns(true)), PublishNodeData).session.shared.trace;
            StartOf(t) == StartOf(y.session.shared.trace) && |SinceStart(t)| == |SinceStart(y.session.shared.trace)| + 1
  {
    var t := y.session.shared.trace;
    assert NodeBirthing(t) && y.session.wait.Birthing?;
    var t1 := After(host, y, CallReturns(true)).session.shared.trace;
    assert StartOf(t1) == StartOf(t) && SinceStart(t1) == SinceStart(t);
    hide Proper, DevicesKnown;
  }

  /**
   No data after an NDEATH, exactly: whatever happens, the session numbers nothing more after an NDEATH, if
   and only if a handle sent it, and no NBIRTH was with the client then.
   */
  lemma DeathClosesExactly(host: Option<string>, steps: seq<Step>)
    requires var t := Run(host, steps).session.shared.trace; t.Then? && t.action.DeathSent?
    ensures var t := Run(host, steps).session.shared.trace;
            t.action.sender.Cancelled? && !NodeBirthing(t.before) <==>
              forall more :: SameSession(host, steps, more) ==> Numbers(host, steps + more) == Numbers(host, steps)
  {
    var t := Run(host, steps).session.shared.trace;
    if t.action.sender.Cancelled? && !NodeBirthing(t.before) {
      RunKeeps(host, steps);
      assert Closed(t);
      forall more | SameSession(host, steps, more) ensures Numbers(host, steps + more) == Numbers(host, steps) {
        RunGrows(host, steps, more);
        RunKeeps(host, steps + more);
        ClosedStays(host, t, Run(host, steps + more).session.shared.trace);
      }
    } else {
      DeathLeavesDataOpen(host, steps);
    }
  }

  // The order a host needs

  /** The last of the device's DBIRTHs and DDEATHs is a DBIRTH. */
  ghost predicate BornIn(ns: seq<Number>, d: nat) {
    ns != [] &&
    var last := ns[|ns| - 1].publisher;
    last != DDeath(d) && (last == DBirth(d) || BornIn(ns[..|ns| - 1], d))
  }

  /** Devices are born before they die, and send data only between a birth and the next death. */
  ghost predicate InOrder(ns: seq<Number>) {
    ns != [] ==>
      var before, last := ns[..|ns| - 1], ns[|ns| - 1].publisher;
      && InOrder(before)
      && (last.DData? ==> BornIn(before, last.device))
      && (last.DDeath? ==> Introduced(before, last.device))
  }

  /** In the session, no death has been numbered while data of the device was between its check and its number. */
  ghost predicate NoneOvertaken(t: Trace) {
    match t
    case Nothing => true
    case Then(_, BirthStarted(_)) => true
    case Then(before, Allocated(_, p)) => (p.DDeath? ==> Checked(before, p.device) <= 0) && NoneOvertaken(before)
    case Then(before, _) => NoneOvertaken(before)
  }

  lemma OrderSnoc(ns: seq<Number>, n: Number)
    ensures InOrder(ns + [n]) <==>
              && InOrder(ns)
              && (n.publisher.DData? ==> BornIn(ns, n.publisher.device))
              && (n.publisher.DDeath? ==> Introduced(ns, n.publisher.device))
    ensures forall d :: BornIn(ns + [n], d) <==> n.publisher != DDeath(d) && (n.publisher == DBirth(d) || BornIn(ns, d))
  {
    assert (ns + [n])[..|ns|] == ns;
  }

  /** A device up or on its way up, or with data on its way to a number, is one born last. */
  ghost predicate AliveIsBorn(t: Trace, d: nat) {
    DeviceIsUp(t, d) || BirthOut(t, d) || Checked(t, d) > 0 ==> BornIn(SinceStart(t), d)
  }

  lemma {:induction false} BornWhileAlive(host: Option<string>, t: Trace, d: nat)
    requires Proper(host, t) && Quiet(StartOf(t), d) && NoneOvertaken(t)
    ensures AliveIsBorn(t, d)
  {
    if t.Then? && !t.action.BirthStarted? {
      BornWhileAlive(host, t.before, d);
      assert Allowed(host, t.before, t.action);
      if t.action.Allocated? {
        OrderSnoc(SinceStart(t.before), Number(t.action.seqNumber, t.action.publisher));
        hide BornIn, Proper, SessionOn, NodeUp;
        if t.action.publisher == DDeath(d) {
          assert !DeviceIsUp(t.before, d) && !BirthOut(t, d) && Checked(t, d) <= 0;
        }
      } else {
        hide BornIn, Proper, SessionOn, NodeUp, HostUp, CurrentWill, EndedSessions, NodeBirthing;
        assert SinceStart(t) == SinceStart(t.before);
      }
    }
  }

  ghost predicate AllQuiet(t: Trace) {
    forall d :: Quiet(t, d)
  }

  /** In a session that began with every device quiet, and where no death overtakes data, numbers are in order. */
  lemma {:induction false} SessionIsInOrder(host: Option<string>, t: Trace)
    requires Proper(host, t) && AllQuiet(StartOf(t)) && NoneOvertaken(t)
    ensures InOrder(SinceStart(t))
  {
    if t.Then? && !t.action.BirthStarted? {
      assert StartOf(t) == StartOf(t.before);
      SessionIsInOrder(host, t.before);
      if t.action.Allocated? {
        var p := t.action.publisher;
        OrderSnoc(SinceStart(t.before), Number(t.action.seqNumber, p));
        if p.DData? {
          assert Quiet(StartOf(t.before), p.device);
          BornWhileAlive(host, t.before, p.device);
        } else if p.DDeath? {
          assert StartOf(t.before.before) == StartOf(t) && Quiet(StartOf(t), p.device);
          UpByBirth(host, t.before.before, p.device);
        }
        hide InOrder, BornIn, Introduced;
      }
    }
  }

  lemma EarlierSessionIsProper(host: Option<string>, steps: seq<Step>, t: Trace)
    requires Earlier(t, Run(host, steps).session.shared.trace)
    ensures Proper(host, t)
  {
    RunIsProper(host, steps);
    EarlierIsProper(host, t, Run(host, steps).session.shared.trace);
  }

  lemma RunIsProper(host: Option<string>, steps: seq<Step>)
    ensures Proper(host, Run(host, steps).session.shared.trace)
  {
    RunKeeps(host, steps);
  }

  /** A death that overtakes data lets that data be numbered after it. */
  lemma OvertakenDataIsOutOfOrder(host: Option<string>, steps: seq<Step>, d: nat)
    requires var t := Run(host, steps).session.shared.trace;
             t.Then? && t.action.Allocated? && t.action.publisher == DDeath(d) && Checked(t, d) > 0
    ensures SameSession(host, steps, [NumberDeviceData(d)]) && !InOrder(Numbers(host, steps + [NumberDeviceData(d)]))
    ensures var ns := Numbers(host, steps);
            && ns != [] && ns[|ns| - 1].publisher == DDeath(d)
            && exists k :: Numbers(host, steps + [NumberDeviceData(d)]) == ns + [Number(k, DData(d))]
  {
    RunKeeps(host, steps);
    RunOn(host, steps, NumberDeviceData(d));
    OvertakenIsNumbered(host, Run(host, steps), d);
  }

  /** The data that was overtaken is still on its way, and its node gives out numbers. */
  lemma OvertakenIsOnItsWay(host: Option<string>, y: System, d: nat)
    requires Inv(host, y)
    requires var t := y.session.shared.trace;
             t.Then? && t.action.Allocated? && t.action.publisher == DDeath(d) && Checked(t, d) > 0
    ensures Enabled(y, NumberDeviceData(d)) && y.session.shared.online && y.session.shared.birthed
  {
    var t := y.session.shared.trace;
    assert Facts(t, d) == if d in y.devices then Flags(y.devices[d], d) else (false, false, 0);
    assert Allowed(host, t.before, t.action);
    hide WillRegistered, SessionGoesOn, DevicesFit, Checked;
  }

  lemma OvertakenIsNumbered(host: Option<string>, y: System, d: nat)
    requires Inv(host, y)
    requires var t := y.session.shared.trace;
             t.Then? && t.action.Allocated? && t.action.publisher == DDeath(d) && Checked(t, d) > 0
    ensures Enabled(y, NumberDeviceData(d))
    ensures var t := After(host, y, NumberDeviceData(d)).session.shared.trace;
            && StartOf(t) == StartOf(y.session.shared.trace) && !InOrder(SinceStart(t))
            && SinceStart(t) ==
                 SinceStart(y.session.shared.trace) + [Number(Succ8(y.session.shared.seqNumber), DData(d))]
  {
    var t := y.session.shared.trace;
    OvertakenIsOnItsWay(host, y, d);
    var n := Number(Succ8(y.session.shared.seqNumber), DData(d));
    hide Inv, InOrder, BornIn, Checked;
    assert SinceStart(After(host, y, NumberDeviceData(d)).session.shared.trace) == SinceStart(t) + [n];
    hide After;
    OrderSnoc(SinceStart(t.before), Number(t.action.seqNumber, DDeath(d)));
    OrderSnoc(SinceStart(t), n);
  }

  ghost predicate NoDeaths(ns: seq<Number>) {
    forall i :: 0 <= i < |ns| ==> !ns[i].publisher.DDeath?
  }

  lemma NoDeathsSnoc(ns: seq<Number>, n: Number)
    requires NoDeaths(ns + [n])
    ensures NoDeaths(ns) && !n.publisher.DDeath?
  {
    assert (ns + [n])[|ns|] == n;
    assert forall i :: 0 <= i < |ns| ==> (ns + [n])[i] == ns[i];
  }

  lemma {:induction false} NothingDiedNothingOvertaken(t: Trace)
    requires NoDeaths(SinceStart(t))
    ensures NoneOvertaken(t)
  {
    if t.Then? && !t.action.BirthStarted? {
      if t.action.Allocated? {
        NoDeathsSnoc(SinceStart(t.before), Number(t.action.seqNumber, t.action.publisher));
      }
      NothingDiedNothingOvertaken(t.before);
    }
  }

  lemma DataNumberedFirst(host: Option<string>, steps: seq<Step>, d: nat) returns (more: seq<Step>)
    requires var t := Run(host, steps).session.shared.trace; t.Then? && t.action.BirthStarted? && !Quiet(t.before, d)
    ensures SameSession(host, steps, more) && Numbers(host, steps + more) == [Number(1, DData(d))]
    ensures NoneOvertaken(Run(host, steps + more).session.shared.trace)
  {
    more := [DeviceCallReturns(d, true), CheckDevice(d), CallReturns(true), NumberDeviceData(d)];
    DataCanComeFirst(host, steps, d);
    hide Run;
    NothingDiedNothingOvertaken(Run(host, steps + more).session.shared.trace);
  }

  /**
   Numbers stay in order through a session in which no death overtakes data, if and only if every device was
   quiet at its start.
   */
  lemma SessionIsInOrderExactly(host: Option<string>, steps: seq<Step>)
    requires var t := Run(host, steps).session.shared.trace; t.Then? && t.action.BirthStarted?
    ensures AllQuiet(Run(host, steps).session.shared.trace.before) <==>
              forall more :: SameSession(host, steps, more) &&
                NoneOvertaken(Run(host, steps + more).session.shared.trace)
                ==> InOrder(Numbers(host, steps + more))
  {
    var t := Run(host, steps).session.shared.trace;
    if AllQuiet(t.before) {
      forall more | SameSession(host, steps, more) && NoneOvertaken(Run(host, steps + more).session.shared.trace)
        ensures InOrder(Numbers(host, steps + more))
      {
        RunKeeps(host, steps + more);
        SessionIsInOrder(host, Run(host, steps + more).session.shared.trace);
      }
    } else {
      var d :| !Quiet(t.before, d);
      var more := DataNumberedFirst(host, steps, d);
      LoneDataIsOutOfOrder(d);
    }
  }

  lemma LoneDataIsOutOfOrder(d: nat)
    ensures !InOrder([Number(1, DData(d))])
  {
    var ns := [Number(1, DData(d))];
    assert ns[..|ns| - 1] == [];
  }

  // Runs in which the conditions fail

  /** A rebirth while a device's DBIRTH is with the client: the device is down, but not quiet. */
  lemma RebirthDuringDeviceBirth(d: nat) returns (steps: seq<Step>)
    ensures var t := Run(None, steps).session.shared.trace;
            t.Then? && t.action.BirthStarted? && !DeviceIsUp(t.before, d) && !Quiet(t.before, d)
  {
    var s3 := [Connect, TakeMessage, CallReturns(true)];
    FirstBirthBegins();
    var y3 := Run(None, s3);
    RunOn(None, s3, CallReturns(true));
    var s4 := s3 + [CallReturns(true)];
    var y4 := Run(None, s4);
    assert y4.session.wait.Idle? && y4.session.shared.birthed && y4.session.shared.online && y4.devices == map[];
    RunKeeps(None, s4);
    assert Facts(y4.session.shared.trace, d) == (false, false, 0);
    hide Run, Inv, Facts;
    RunOnThree(None, s4, AddDevice(d), EnableDevice(d), RebirthAsked);
    steps := s4 + [AddDevice(d), EnableDevice(d), RebirthAsked];
    DeviceBirthInFlight(y4, d);
  }

  /** A node without a primary host starts its first birth as soon as it has subscribed. */
  lemma FirstBirthBegins()
    ensures var y := Run(None, [Connect, TakeMessage, CallReturns(true)]);
            && y.session.wait.Birthing? && y.session.shared.online && y.devices == map[]
            && NodeBirthing(y.session.shared.trace) && y.session.shared.bdseq == 0
  {
    var y1 := Tried(None, Initial(), Connect);
    var y2 := Tried(None, y1, TakeMessage);
    assert y2.session.wait.Subscribing?;
    RunOnThree(None, [], Connect, TakeMessage, CallReturns(true));
    assert [] + [Connect, TakeMessage, CallReturns(true)] == [Connect, TakeMessage, CallReturns(true)];
    assert Run(None, []) == Initial();
  }

  /** A new device, enabled on a birthed node, has its DBIRTH out. */
  lemma DeviceBirthGoesOut(y: System, d: nat)
    requires y.session.shared.birthed && y.session.shared.online && y.devices == map[]
    requires Facts(y.session.shared.trace, d) == (false, false, 0)
    ensures var y' := Tried(None, Tried(None, y, AddDevice(d)), EnableDevice(d));
            && y'.session.wait == y.session.wait && y'.session.shared.birthed && y'.session.shared.online
            && d in y'.devices && y'.devices[d] == Device(true, false, Some(DBirth(d)), 0)
            && Facts(y'.session.shared.trace, d) == (false, true, 0)
  {
    var t := Then(y.session.shared.trace, Allocated(Succ8(y.session.shared.seqNumber), DBirth(d)));
    assert !DeviceIsUp(t, d) && BirthOut(t, d) && Checked(t, d) == 0;
  }

  lemma DeviceBirthInFlight(y: System, d: nat)
    requires y.session.wait.Idle? && y.session.shared.birthed && y.session.shared.online && y.devices == map[]
    requires Facts(y.session.shared.trace, d) == (false, false, 0)
    ensures var y' := Tried(None, Tried(None, y, AddDevice(d)), EnableDevice(d));
            var t := Tried(None, y', RebirthAsked).session.shared.trace;
            t.Then? && t.action.BirthStarted? && !DeviceIsUp(t.before, d) && BirthOut(t.before, d)
  {
    DeviceBirthGoesOut(y, d);
    var y' := Tried(None, Tried(None, y, AddDevice(d)), EnableDevice(d));
    assert Tried(None, y', RebirthAsked).session.shared.trace.before == y'.session.shared.trace;
    hide Tried;
  }

  /** A device disabled while a publisher of its data is between its check and its number. */
  lemma DeathOvertakesData(d: nat) returns (steps: seq<Step>)
    ensures var t := Run(None, steps).session.shared.trace;
            t.Then? && t.action.Allocated? && t.action.publisher == DDeath(d) && Checked(t, d) > 0
  {
    var s3 := [Connect, TakeMessage, CallReturns(true)];
    FirstBirthBegins();
    RunOn(None, s3, CallReturns(true));
    var s4 := s3 + [CallReturns(true)];
    var y4 := Run(None, s4);
    assert y4.session.shared.birthed && y4.session.shared.online && y4.devices == map[];
    RunKeeps(None, s4);
    assert Facts(y4.session.shared.trace, d) == (false, false, 0);
    hide Run, Inv, Facts, Tried;
    RunOnThree(None, s4, AddDevice(d), EnableDevice(d), DeviceCallReturns(d, true));
    var s7 := s4 + [AddDevice(d), EnableDevice(d), DeviceCallReturns(d, true)];
    DeviceBirthGoesOut(y4, d);
    var y6 := Tried(None, Tried(None, y4, AddDevice(d)), EnableDevice(d));
    assert Checked(y6.session.shared.trace, d) == 0 by { CheckedIs(y6.session.shared.trace, d); }
    DeviceComesUp(y6, d);
    RunOn(None, s7, CheckDevice(d));
    RunOn(None, s7 + [CheckDevice(d)], DisableDevice(d));
    steps := s7 + [CheckDevice(d)] + [DisableDevice(d)];
    DisabledAfterCheck(Run(None, s7), d);
  }

  lemma CheckedIs(t: Trace, d: nat)
    ensures Facts(t, d).2 == Checked(t, d)
  {
  }

  lemma DeviceComesUp(y: System, d: nat)
    requires y.session.shared.birthed && y.session.shared.online
    requires d in y.devices && y.devices[d] == Device(true, false, Some(DBirth(d)), 0)
    requires Checked(y.session.shared.trace, d) == 0
    ensures var y' := Tried(None, y, DeviceCallReturns(d, true));
            && y'.session.shared.birthed && y'.session.shared.online
            && d in y'.devices && y'.devices[d] == Device(true, true, None, 0)
            && Checked(y'.session.shared.trace, d) == 0
  {
  }

  lemma DisabledAfterCheck(y: System, d: nat)
    requires y.session.shared.birthed && y.session.shared.online
    requires d in y.devices && y.devices[d] == Device(true, true, None, 0) && Checked(y.session.shared.trace, d) == 0
    ensures var t := Tried(None, Tried(None, y, CheckDevice(d)), DisableDevice(d)).session.shared.trace;
            t.Then? && t.action.Allocated? && t.action.publisher == DDeath(d) && Checked(t, d) > 0
  {
    var t := Then(y.session.shared.trace, DataChecked(d));
    assert Checked(t, d) == 1 && Checked(Then(t, DeviceDown(d)), d) == 1;
  }

  /** Cancelling while the first NBIRTH is with the client. */
  lemma CancelDuringBirth() returns (steps: seq<Step>)
    ensures var t := Run(None, steps).session.shared.trace;
            t.Then? && t.action == DeathSent(0, Cancelled) && NodeBirthing(t.before)
  {
    var s3 := [Connect, TakeMessage, CallReturns(true)];
    FirstBirthBegins();
    hide Run;
    RunOn(None, s3, Cancel);
    steps := s3 + [Cancel];
  }

  /** The primary host going offline while its node is birthed. */
  lemma HostGoesOffline(h: string, steps: seq<Step>, timestamp: nat)
    requires var y := Run(Some(h), steps);
             && y.session.wait.Idle? && y.session.shared.birthed && y.loop.Polling? && y.queue == []
             && (LastState(y.session.shared.trace).Some? ==> LastState(y.session.shared.trace).value <= timestamp)
    ensures var t := Run(Some(h), steps + [ReceiveState(h, false, timestamp)] + [TakeMessage]).session.shared.trace;
            t.Then? && t.action.DeathSent? && t.action.sender.HostGone?
  {
    RunKeeps(Some(h), steps);
    RunOn(Some(h), steps, ReceiveState(h, false, timestamp));
    RunOn(Some(h), steps + [ReceiveState(h, false, timestamp)], TakeMessage);
    hide Run;
  }
}
