/** What keeps an edge node going, where it stops, and what gets it going again. */
module EdgeStalls {
  import opened Options
  import opened EdgeNode
  import opened EdgeRuns
  import opened EdgeSessions

  /** On a session, between turns, unbirthed, and without a retry. */
  predicate Stuck(n: Session) {
    n.wait.Idle? && n.shared.online && !n.shared.birthed && !n.retryPending
  }

  /**
   A node whose client is connected but whose session is not on is subscribing or will try again. One that
   could be birthed, between turns, is birthed, will try again, or is stuck; and then a rebirth failed or
   the node was cancelled on this connection, with no birth started since.
   */
  lemma NodeGoesOn(host: Option<string>, steps: seq<Step>)
    ensures var n := Run(host, steps).session;
            && (n.clientOnline && !SessionOn(n.shared.trace) ==> n.wait.Subscribing? || n.retryPending)
            && (n.wait.Idle? && n.clientOnline && !NodeUp(n.shared.trace) ==> (n.retryPending <==> !Stuck(n)))
            && (Stuck(n) && (host.None? || HostUp(n.shared.trace)) ==> GivenUp(n.shared.trace))
  {
    RunKeeps(host, steps);
  }

  /**
   What gets a stuck node going: the end of its connection, another start of one while it may be birthed, or
   an accepted STATE by which its primary host is online.
   */
  predicate Frees(host: Option<string>, y: System, step: Step) {
    step.TakeMessage? && Enabled(y, step) &&
    match y.queue[0]
    case WentOffline => true
    case WentOnline => ReadyToBirth(host, y.session.shared)
    case HostState(from, online, timestamp) =>
      host == Some(from) && online && HostTimestampUpdated(y.session.shared, timestamp).1
  }

  /** What a step makes of a stuck node. */
  ghost predicate StuckStep(host: Option<string>, y: System, y': System, step: Step) {
    if !Frees(host, y, step) then
      Stuck(y'.session) && SinceStart(y'.session.shared.trace) == SinceStart(y.session.shared.trace)
    else if y.queue[0].WentOffline? then !y'.session.shared.online
    else y'.session.wait == Birthing(FirstBirth)
  }

  lemma StuckTurn(host: Option<string>, y: System)
    requires Inv(host, y) && Stuck(y.session) && Enabled(y, TakeMessage)
    ensures StuckStep(host, y, After(host, y, TakeMessage), TakeMessage)
  {
    var n := y.session;
    assert n.clientOnline;
    hide Inv, SessionKept, SessionGoesOn;
  }

  /** Nobody else gets a number, or gets the node going. */
  lemma OthersLeaveStuck(host: Option<string>, y: System, step: Step)
    requires Stuck(y.session) && Enabled(y, step) && !step.TakeMessage?
    ensures StuckStep(host, y, After(host, y, step), step)
  {
    hide OnlineTried, HostStateSeen, Returned, MessageTaken;
    var t := y.session.shared.trace;
    assert SinceStart(Then(t, NodeDead)) == SinceStart(t);
  }

  lemma StepOfStuck(host: Option<string>, y: System, step: Step)
    requires Inv(host, y) && Stuck(y.session) && Enabled(y, step)
    ensures StuckStep(host, y, After(host, y, step), step)
  {
    hide After, Inv, StuckStep;
    if step.TakeMessage? {
      StuckTurn(host, y);
    } else {
      OthersLeaveStuck(host, y, step);
    }
  }

  ghost predicate FreedAt(host: Option<string>, steps: seq<Step>, step: Step) {
    Frees(host, Run(host, steps), step)
  }

  /** One of the further steps gets the node going. */
  ghost predicate FreedWithin(host: Option<string>, steps: seq<Step>, more: seq<Step>) {
    exists k :: 0 <= k < |more| && FreedAt(host, steps + more[..k], more[k])
  }

  ghost predicate StuckAfter(host: Option<string>, steps: seq<Step>) {
    Stuck(Run(host, steps).session)
  }

  /** One step more of a run. */
  lemma StuckOn(host: Option<string>, steps: seq<Step>, step: Step)
    requires StuckAfter(host, steps)
    ensures StuckAfter(host, steps + [step]) <==> !FreedAt(host, steps, step)
    ensures !FreedAt(host, steps, step) ==> Numbers(host, steps + [step]) == Numbers(host, steps)
  {
    RunOn(host, steps, step);
    RunKeeps(host, steps);
    hide Run, After, Inv;
    if Enabled(Run(host, steps), step) {
      StepOfStuck(host, Run(host, steps), step);
    }
  }

  lemma NotFreedBefore(host: Option<string>, steps: seq<Step>, more: seq<Step>)
    requires more != [] && !FreedWithin(host, steps, more)
    ensures !FreedWithin(host, steps, more[..|more| - 1])
    ensures !FreedAt(host, steps + more[..|more| - 1], more[|more| - 1])
  {
    var before := more[..|more| - 1];
    forall k | 0 <= k < |before| ensures !FreedAt(host, steps + before[..k], before[k]) {
      assert before[..k] == more[..k] && before[k] == more[k];
    }
  }

  lemma {:induction false} StuckUntilFreed(host: Option<string>, steps: seq<Step>, more: seq<Step>)
    requires StuckAfter(host, steps) && !FreedWithin(host, steps, more)
    ensures StuckAfter(host, steps + more) && Numbers(host, steps + more) == Numbers(host, steps)
    decreases |more|
  {
    hide *;
    if more == [] {
      assert steps + more == steps;
    } else {
      var before, step := more[..|more| - 1], more[|more| - 1];
      NotFreedBefore(host, steps, more);
      StuckUntilFreed(host, steps, before);
      assert steps + more == steps + before + [step];
      StuckOn(host, steps + before, step);
    }
  }

  /**
   A stuck node stays stuck, and numbers nothing, through whatever happens, if and only if none of it gets
   the node going.
   */
  lemma StuckExactly(host: Option<string>, steps: seq<Step>, more: seq<Step>)
    requires StuckAfter(host, steps)
    ensures !FreedWithin(host, steps, more) <==>
              forall k :: 0 <= k <= |more| ==> StuckAfter(host, steps + more[..k])
    ensures !FreedWithin(host, steps, more) ==> Numbers(host, steps + more) == Numbers(host, steps)
  {
    hide StuckAfter, FreedAt, Numbers;
    if FreedWithin(host, steps, more) {
      var k :| 0 <= k < |more| && FreedAt(host, steps + more[..k], more[k]);
      assert steps + more[..k + 1] == steps + more[..k] + [more[k]];
      if StuckAfter(host, steps + more[..k]) {
        StuckOn(host, steps + more[..k], more[k]);
      }
    } else {
      StuckUntilFreed(host, steps, more);
      forall k | 0 <= k <= |more| ensures StuckAfter(host, steps + more[..k]) {
        NotFreedWithinPrefix(host, steps, more, k);
        StuckUntilFreed(host, steps, more[..k]);
      }
    }
  }

  lemma NotFreedWithinPrefix(host: Option<string>, steps: seq<Step>, more: seq<Step>, k: nat)
    requires k <= |more| && !FreedWithin(host, steps, more)
    ensures !FreedWithin(host, steps, more[..k])
  {
    forall j | 0 <= j < k ensures !FreedAt(host, steps + more[..k][..j], more[..k][j]) {
      assert more[..k][..j] == more[..j] && more[..k][j] == more[j];
    }
  }

  /**
   A rebirth whose NBIRTH the client refuses leaves the node stuck, although it may be birthed: online and
   unbirthed, it numbers nothing and answers no request for a rebirth, until something else gets it going.
   */
  lemma FailedRebirthSticks(host: Option<string>, steps: seq<Step>, more: seq<Step>)
    requires Run(host, steps).session.wait == Birthing(Rebirth)
    ensures var failed := steps + [CallReturns(false)];
            var n := Run(host, failed).session;
            && StuckAfter(host, failed) && GivenUp(n.shared.trace) && Rebirthed(n) == CommandRebirthed(n) == n
            && ReadyToBirth(host, n.shared)
            && (FreedWithin(host, failed, more) || Numbers(host, failed + more) == Numbers(host, failed) == [])
  {
    var failed := steps + [CallReturns(false)];
    RefusedRebirth(host, steps);
    hide *;
    StuckExactly(host, failed, more);
  }

  /** While an NBIRTH is with the client nothing has been numbered since. */
  lemma {:induction false} BirthingNumbersNothing(host: Option<string>, t: Trace)
    requires Proper(host, t) && NodeBirthing(t)
    ensures !NodeUp(t) && SinceStart(t) == []
  {
    if !t.action.BirthStarted? {
      BirthingNumbersNothing(host, t.before);
    }
  }

  lemma RefusedRebirth(host: Option<string>, steps: seq<Step>)
    requires Run(host, steps).session.wait == Birthing(Rebirth)
    ensures var failed := steps + [CallReturns(false)];
            var n := Run(host, failed).session;
            && StuckAfter(host, failed) && GivenUp(n.shared.trace) && Rebirthed(n) == CommandRebirthed(n) == n
            && ReadyToBirth(host, n.shared) && Numbers(host, failed) == []
  {
    RunKeeps(host, steps);
    RunOn(host, steps, CallReturns(false));
    BirthingNumbersNothing(host, Run(host, steps).session.shared.trace);
    hide Run, Proper, WillRegistered, DevicesKnown;
  }
}
