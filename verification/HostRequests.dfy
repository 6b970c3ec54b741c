/** When a node of an application asks for a rebirth, whatever called for it, and when deciding to ends its task. */
module HostRequests {
  import opened Bounded
  import opened Options
  import opened Resequencing
  import opened HostNode
  import opened HostRuns
  import opened HostGuarantees

  /** What handling an input comes to before a rebirth is decided on, and the reason to ask for one, if any. */
  ghost function Handled(cfg: Config, n: Node, input: Input): (r: (Node, Option<Reason>))
    requires n.resequencer.Valid()
    ensures r.0.resequencer.Valid()
  {
    match input
    case NBirth(bdseq, timestamp) =>
      if timestamp <= n.birthTimestamp then (n, None)
      else if cfg.hasStore && !(n.lifecycle.Birthed? && n.bdseq == bdseq) then
        if cfg.answers(n.trace) == Stored then (AcceptedBirth(n.Did(NodeStoreBirth(true)), bdseq, timestamp), None)
        else (n.Did(NodeStoreBirth(false)), Some(InvalidPayload))
      else (AcceptedBirth(n, bdseq, timestamp), None)
    case NDeath(bdseq, timestamp) =>
      (MadeStale(cfg, n.(timer := false), timestamp), if bdseq != n.bdseq then Some(OutOfSyncBdSeq) else None)
    case Sequenced(timestamp, m) => SequencedHandled(cfg, n, timestamp, m)
    case Undecodable => (n, Some(InvalidPayload))
    case AppOffline(timestamp) => (MadeStale(cfg, n, timestamp), None)
    case RebirthWanted(reason) => (n, Some(reason))
  }

  /** Every input is handled, and then its reason, if there is one, decided on. */
  lemma StepIsHandledAndDecided(cfg: Config, n: Node, input: Input, clock: Clock)
    requires n.resequencer.Valid() && !n.panicked
    ensures var (n', raised) := Handled(cfg, n, input);
            Step(cfg, n, input, clock) == if raised.Some? then Requested(cfg, n', raised.value, clock) else n'
  {
  }

  /** How many rebirths were requested. */
  ghost function Requests(t: Trace): nat {
    match t
    case Nothing => 0
    case Then(before, RebirthRequested(_, _)) => Requests(before) + 1
    case Then(before, _) => Requests(before)
  }

  lemma StaleRequestsNothing(cfg: Config, n: Node, timestamp: nat)
    ensures var n' := MadeStale(cfg, n, timestamp);
            Requests(n'.trace) == Requests(n.trace) && n'.lastRebirth == n.lastRebirth && n'.panicked == n.panicked
  {
    var t := Then(n.trace, WentStale(timestamp));
    var t' := if cfg.hasStore then Then(t, NodeStoreStale) else t;
    assert Requests(Then(t', DeviceStoresStale(WithStore(n.devices)))) == Requests(t');
    assert Requests(t') == Requests(t) == Requests(n.trace);
  }

  lemma HandedOverRequestsNothing(cfg: Config, n: Node, m: Message)
    ensures Requests(HandedOver(cfg, n, m).0.trace) == Requests(n.trace)
  {
    assert Requests(Then(n.trace, Handed(m))) == Requests(n.trace);
  }

  lemma {:induction false} DrainRequestsNothing(cfg: Config, n: Node)
    requires n.resequencer.Valid()
    ensures Requests(DrainHandled(cfg, n).0.trace) == Requests(n.trace)
    decreases |n.resequencer.buffer|
  {
    DrainedKeepsValid(n.resequencer);
    var (s, d) := Drained(n.resequencer);
    if d.Message? {
      var n1 := n.(resequencer := s);
      HandedOverFrame(cfg, n1, d.message);
      HandedOverRequestsNothing(cfg, n1, d.message);
      hide HandedOver, Requests;
      var (n2, refused) := HandedOver(cfg, n1, d.message);
      if refused.None? {
        DrainRequestsNothing(cfg, n2);
      }
    }
  }

  lemma MessageRequestsNothing(cfg: Config, n: Node, timestamp: nat, m: Message)
    requires n.resequencer.Valid()
    ensures Requests(SequencedHandled(cfg, n, timestamp, m).0.trace) == Requests(n.trace)
  {
    ProcessedKeepsValid(n.resequencer, m.seqNumber, m);
    HandedOverFrame(cfg, n, m);
    HandedOverRequestsNothing(cfg, n, m);
    var n1 := n.(resequencer := Processed(n.resequencer, m.seqNumber, m).0);
    HandedOverFrame(cfg, n1, m);
    HandedOverRequestsNothing(cfg, n1, m);
    var (n2, refused) := HandedOver(cfg, n1, m);
    hide HandedOver, Processed, Requests;
    if refused.None? {
      DrainRequestsNothing(cfg, n2);
    }
  }

  lemma BirthRequestsNothing(cfg: Config, n: Node, bdseq: U8, timestamp: nat)
    requires n.resequencer.Valid()
    ensures var n' := Handled(cfg, n, NBirth(bdseq, timestamp)).0;
            Requests(n'.trace) == Requests(n.trace) && n'.lastRebirth == n.lastRebirth && n'.panicked == n.panicked
  {
    hide MadeStale, SequencedHandled;
    var accepted := Then(n.trace, NodeStoreBirth(true));
    assert Requests(Then(n.trace, NodeStoreBirth(false))) == Requests(accepted) == Requests(n.trace);
    assert Requests(Then(accepted, BirthAccepted(timestamp))) == Requests(n.trace);
  }

  /** Handling itself requests nothing, and touches nothing a decision rests on. */
  lemma HandlingRequestsNothing(cfg: Config, n: Node, input: Input)
    requires n.resequencer.Valid()
    ensures var n' := Handled(cfg, n, input).0;
            Requests(n'.trace) == Requests(n.trace) && n'.lastRebirth == n.lastRebirth && n'.panicked == n.panicked
  {
    hide MadeStale, SequencedHandled, Requests;
    match input
    case NBirth(bdseq, timestamp) => BirthRequestsNothing(cfg, n, bdseq, timestamp);
    case NDeath(_, timestamp) => StaleRequestsNothing(cfg, n.(timer := false), timestamp);
    case Sequenced(timestamp, m) =>
      MessageRequestsNothing(cfg, n, timestamp, m);
      SequencedFrame(cfg, n, timestamp, m);
    case Undecodable =>
    case AppOffline(timestamp) => StaleRequestsNothing(cfg, n, timestamp);
    case RebirthWanted(_) =>
  }

  lemma RequestedRequests(cfg: Config, n: Node, reason: Reason, clock: Clock)
    requires !n.panicked
    ensures var n' := Requested(cfg, n, reason, clock);
            var granted := cfg.rebirth.Enabled(reason) && clock.now >= n.lastRebirth + cfg.rebirth.cooldown;
            && Requests(n'.trace) == Requests(n.trace) + (if granted then 1 else 0)
            && (granted ==> n'.trace.action == RebirthRequested(clock.now, reason))
            && n'.lastRebirth == (if granted then clock.now else n.lastRebirth)
            && (n'.panicked <==> cfg.rebirth.Enabled(reason) && clock.now < n.lastRebirth)
            && (!cfg.rebirth.Enabled(reason) ==> n' == n)
  {
    StaleRequestsNothing(cfg, Evaluated(cfg, n, reason, clock.now).0, clock.stamp);
    hide MadeStale;
  }

  /** The reason a running task has to decide on, given an input. */
  ghost function Raised(cfg: Config, n: Node, input: Input): Option<Reason>
    requires n.resequencer.Valid()
  {
    if n.panicked then None else Handled(cfg, n, input).1
  }

  /**
   A rebirth is requested exactly when an input gives an enabled reason for one, whatever kind of input it
   is, and a cooldown has passed since the last request.
   */
  lemma RequestsAreGrantedExactly(cfg: Config, inputs: seq<(Input, Clock)>, input: Input, clock: Clock)
    ensures var t, t' := Run(cfg, inputs).trace, Run(cfg, inputs + [(input, clock)]).trace;
            var raised := Raised(cfg, Run(cfg, inputs), input);
            var granted := raised.Some? && cfg.rebirth.Enabled(raised.value) &&
              clock.now >= LastRequest(t) + cfg.rebirth.cooldown;
            && Requests(t') == Requests(t) + (if granted then 1 else 0)
            && (granted ==> t'.action == RebirthRequested(clock.now, raised.value))
  {
    RunKeeps(cfg, inputs);
    RunOn(cfg, inputs, (input, clock));
    var n := Run(cfg, inputs);
    hide Run, Step, Handled, Requested, MadeStale;
    if !n.panicked {
      StepIsHandledAndDecided(cfg, n, input, clock);
      HandlingRequestsNothing(cfg, n, input);
      var (n', raised) := Handled(cfg, n, input);
      if raised.Some? {
        RequestedRequests(cfg, n', raised.value, clock);
      }
    } else {
      PanickedStays(cfg, n, input, clock);
    }
  }

  lemma PanickedStays(cfg: Config, n: Node, input: Input, clock: Clock)
    requires n.resequencer.Valid() && n.panicked
    ensures Step(cfg, n, input, clock) == n
  {
  }

  /** A reason the configuration disables changes nothing, and does not even use up the cooldown. */
  lemma DisabledReasonsChangeNothing(cfg: Config, inputs: seq<(Input, Clock)>, input: Input, clock: Clock)
    requires var raised := Raised(cfg, Run(cfg, inputs), input); raised.Some? && !cfg.rebirth.Enabled(raised.value)
    ensures var n, n' := Run(cfg, inputs), Run(cfg, inputs + [(input, clock)]);
            n' == Handled(cfg, n, input).0 && n'.lastRebirth == n.lastRebirth && Requests(n'.trace) == Requests(n.trace)
  {
    var n := Run(cfg, inputs);
    RunOn(cfg, inputs, (input, clock));
    StepIsHandledAndDecided(cfg, n, input, clock);
    HandlingRequestsNothing(cfg, n, input);
    hide Run, Step, Handled, MadeStale;
  }

  /** How many rebirth requests were issued at a time in `[from, to]`. */
  ghost function RequestsWithin(t: Trace, from: nat, to: nat): nat {
    match t
    case Nothing => 0
    case Then(before, RebirthRequested(at, _)) => RequestsWithin(before, from, to) + (if from <= at <= to then 1 else 0)
    case Then(before, _) => RequestsWithin(before, from, to)
  }

  /** The requests counted span a cooldown each but the first, up to the last request or the end of the interval. */
  lemma {:induction false} RequestsTakeTime(cfg: Config, t: Trace, from: nat, to: nat)
    requires Proper(cfg, t) && RequestsWithin(t, from, to) > 0
    ensures from + (RequestsWithin(t, from, to) - 1) * cfg.rebirth.cooldown <= LastRequest(t)
    ensures from + (RequestsWithin(t, from, to) - 1) * cfg.rebirth.cooldown <= to
  {
    var earlier := RequestsWithin(t.before, from, to);
    if earlier > 0 {
      RequestsTakeTime(cfg, t.before, from, to);
      assert earlier * cfg.rebirth.cooldown == (earlier - 1) * cfg.rebirth.cooldown + cfg.rebirth.cooldown;
    }
  }

  lemma QuotientBound(k: nat, d: nat, span: nat)
    requires d > 0 && k * d <= span
    ensures k <= span / d
  {
    assert span < d * (span / d + 1);
    assert k * d < (span / d + 1) * d;
  }

  lemma CountBound(count: nat, d: nat, from: nat, span: nat)
    requires count > 0 && d > 0 && from + (count - 1) * d <= from + span
    ensures count <= 1 + span / d
  {
    QuotientBound(count - 1, d, span);
  }

  lemma ProperIsRateBounded(cfg: Config, t: Trace, from: nat, span: nat)
    requires Proper(cfg, t) && cfg.rebirth.cooldown > 0
    ensures RequestsWithin(t, from, from + span) <= 1 + span / cfg.rebirth.cooldown
  {
    var count := RequestsWithin(t, from, from + span);
    if count > 0 {
      RequestsTakeTime(cfg, t, from, from + span);
      hide *;
      CountBound(count, cfg.rebirth.cooldown, from, span);
    }
  }

  /**
   Rebirth rate bound: in any interval of length `span` a node issues at most
   `1 + span / cooldown` requests, whatever reasons arise.
   */
  lemma RequestsAreRateBounded(cfg: Config, inputs: seq<(Input, Clock)>, from: nat, span: nat)
    requires cfg.rebirth.cooldown > 0
    ensures RequestsWithin(Run(cfg, inputs).trace, from, from + span) <= 1 + span / cfg.rebirth.cooldown
  {
    RunKeeps(cfg, inputs);
    ProperIsRateBounded(cfg, Run(cfg, inputs).trace, from, span);
  }

  // When a decision ends the task

  lemma StepPanicsExactly(cfg: Config, n: Node, input: Input, clock: Clock)
    requires n.resequencer.Valid()
    ensures var raised := Raised(cfg, n, input);
            Step(cfg, n, input, clock).panicked <==>
              n.panicked || (raised.Some? && cfg.rebirth.Enabled(raised.value) && clock.now < n.lastRebirth)
    ensures var n' := Step(cfg, n, input, clock);
            n'.lastRebirth == n.lastRebirth ||
              (n'.lastRebirth == clock.now && clock.now >= n.lastRebirth + cfg.rebirth.cooldown)
  {
    hide Step, Handled, Requested, MadeStale;
    if n.panicked {
      PanickedStays(cfg, n, input, clock);
    } else {
      StepIsHandledAndDecided(cfg, n, input, clock);
      HandlingRequestsNothing(cfg, n, input);
      var (n', raised) := Handled(cfg, n, input);
      if raised.Some? {
        RequestedRequests(cfg, n', raised.value, clock);
      }
    }
  }

  /** The input gives an enabled reason when the clock shows less than at the last request. */
  ghost predicate PanicsAt(cfg: Config, inputs: seq<(Input, Clock)>, i: nat)
    requires i < |inputs|
  {
    var n := Run(cfg, inputs[..i]);
    var raised := Raised(cfg, n, inputs[i].0);
    raised.Some? && cfg.rebirth.Enabled(raised.value) && inputs[i].1.now < LastRequest(n.trace)
  }

  lemma LastPanics(cfg: Config, inputs: seq<(Input, Clock)>)
    requires inputs != []
    ensures Run(cfg, inputs).panicked <==>
              Run(cfg, inputs[..|inputs| - 1]).panicked || PanicsAt(cfg, inputs, |inputs| - 1)
  {
    var n, next := Run(cfg, inputs[..|inputs| - 1]), inputs[|inputs| - 1];
    RunKeeps(cfg, inputs[..|inputs| - 1]);
    assert n.lastRebirth == LastRequest(n.trace) && Run(cfg, inputs) == Step(cfg, n, next.0, next.1);
    hide Step, Raised, LastRequest, Inv, Run;
    StepPanicsExactly(cfg, n, next.0, next.1);
  }

  lemma PanicsBefore(cfg: Config, inputs: seq<(Input, Clock)>)
    requires inputs != []
    ensures forall i :: 0 <= i < |inputs| - 1 ==>
              (PanicsAt(cfg, inputs, i) <==> PanicsAt(cfg, inputs[..|inputs| - 1], i))
  {
    hide Run, Raised;
    forall i | 0 <= i < |inputs| - 1 ensures PanicsAt(cfg, inputs, i) <==> PanicsAt(cfg, inputs[..|inputs| - 1], i) {
      assert inputs[..i] == inputs[..|inputs| - 1][..i];
    }
  }

  /**
   The task panics exactly when some input gives an enabled reason for a rebirth at a moment when the clock
   shows less than it did at the last request.
   */
  lemma {:induction false} PanicsExactly(cfg: Config, inputs: seq<(Input, Clock)>)
    ensures Run(cfg, inputs).panicked <==> exists i :: 0 <= i < |inputs| && PanicsAt(cfg, inputs, i)
  {
    if inputs != [] {
      var last := |inputs| - 1;
      var before := inputs[..last];
      PanicsExactly(cfg, before);
      LastPanics(cfg, inputs);
      PanicsBefore(cfg, inputs);
      hide Run, PanicsAt;
      if i :| 0 <= i < |before| && PanicsAt(cfg, before, i) {
        assert PanicsAt(cfg, inputs, i);
      }
    }
  }

  function Timed(inputs: seq<Input>, clocks: seq<Clock>): (r: seq<(Input, Clock)>)
    requires |inputs| == |clocks|
  {
    seq(|inputs|, i requires 0 <= i < |inputs| => (inputs[i], clocks[i]))
  }

  /** A clock that has shown a cooldown or more shows less later on. */
  ghost predicate GoesBack(clocks: seq<Clock>, cooldown: nat) {
    exists i, j :: 0 <= i < j < |clocks| && cooldown <= clocks[i].now && clocks[j].now < clocks[i].now
  }

  ghost function Clocks(inputs: seq<(Input, Clock)>): seq<Clock> {
    seq(|inputs|, i requires 0 <= i < |inputs| => inputs[i].1)
  }

  lemma {:induction false} LastRequestWasSeen(cfg: Config, inputs: seq<(Input, Clock)>)
    ensures var last := Run(cfg, inputs).lastRebirth;
            last == 0 || exists i :: 0 <= i < |inputs| && inputs[i].1.now == last >= cfg.rebirth.cooldown
  {
    if inputs != [] {
      var before, next := inputs[..|inputs| - 1], inputs[|inputs| - 1];
      LastRequestWasSeen(cfg, before);
      hide Step;
      StepPanicsExactly(cfg, Run(cfg, before), next.0, next.1);
      hide Run, Raised;
      assert forall i :: 0 <= i < |before| ==> before[i] == inputs[i];
    }
  }

  lemma {:induction false} PanicsOnlyIfBack(cfg: Config, inputs: seq<(Input, Clock)>)
    requires Run(cfg, inputs).panicked
    ensures GoesBack(Clocks(inputs), cfg.rebirth.cooldown)
  {
    PanicsExactly(cfg, inputs);
    var j :| 0 <= j < |inputs| && PanicsAt(cfg, inputs, j);
    RunKeeps(cfg, inputs[..j]);
    LastRequestWasSeen(cfg, inputs[..j]);
    hide Run, Raised, LastRequest;
    var last := Run(cfg, inputs[..j]).lastRebirth;
    var i :| 0 <= i < j && inputs[..j][i].1.now == last >= cfg.rebirth.cooldown;
    assert Clocks(inputs)[i].now == last && Clocks(inputs)[j].now < last;
  }

  /** An application that goes offline has nothing to tell a node that was never birthed. */
  function RequestsAt(i: nat, j: nat, reason: Reason, n: nat): (r: seq<Input>)
    ensures |r| == n
  {
    seq(n, k => if k == i || k == j then RebirthWanted(reason) else AppOffline(0))
  }

  lemma QuietStep(cfg: Config, n: Node, clock: Clock)
    requires n.resequencer.Valid() && n.lifecycle.Stale?
    ensures Step(cfg, n, AppOffline(0), clock) == n
  {
  }

  lemma RequestStep(cfg: Config, n: Node, reason: Reason, clock: Clock)
    requires n.resequencer.Valid() && n.lifecycle.Stale? && !n.panicked && cfg.rebirth.Enabled(reason)
    ensures var n' := Step(cfg, n, RebirthWanted(reason), clock);
            if clock.now < n.lastRebirth then n'.panicked
            else n'.lifecycle.Stale? && !n'.panicked &&
                 (clock.now >= n.lastRebirth + cfg.rebirth.cooldown ==> n'.lastRebirth == clock.now)
  {
  }

  /** Two requests, the clock having gone back between them. */
  lemma {:induction false} TwoRequests(cfg: Config, reason: Reason, clocks: seq<Clock>, i: nat, j: nat, k: nat)
    requires cfg.rebirth.Enabled(reason) && i < j < |clocks| && k <= |clocks|
    requires cfg.rebirth.cooldown <= clocks[i].now && clocks[j].now < clocks[i].now
    ensures var n := Run(cfg, Timed(RequestsAt(i, j, reason, |clocks|), clocks)[..k]);
            if k <= i then n == NewNode()
            else if k <= j then n.lifecycle.Stale? && !n.panicked && n.lastRebirth == clocks[i].now
            else n.panicked
    decreases k
  {
    var all := Timed(RequestsAt(i, j, reason, |clocks|), clocks);
    if k > 0 {
      TwoRequests(cfg, reason, clocks, i, j, k - 1);
      var n := Run(cfg, all[..k - 1]);
      assert all[..k] == all[..k - 1] + [all[k - 1]];
      RunOn(cfg, all[..k - 1], all[k - 1]);
      hide Run, Step;
      if k - 1 == i || k - 1 == j {
        RequestStep(cfg, n, reason, clocks[k - 1]);
      } else if k - 1 < j {
        QuietStep(cfg, n, clocks[k - 1]);
      } else {
        PanickedStays(cfg, n, all[k - 1].0, all[k - 1].1);
      }
    }
  }

  /**
   Which clocks can end the task: given the readings, and a reason that is enabled, some inputs make the
   task panic if and only if a reading is less than one before it that was at least the cooldown.
   */
  lemma ClocksThatPanicExactly(cfg: Config, reason: Reason, clocks: seq<Clock>)
    requires cfg.rebirth.Enabled(reason)
    ensures GoesBack(clocks, cfg.rebirth.cooldown) <==>
              exists inputs: seq<Input> :: |inputs| == |clocks| && Run(cfg, Timed(inputs, clocks)).panicked
  {
    if GoesBack(clocks, cfg.rebirth.cooldown) {
      var i, j :| 0 <= i < j < |clocks| && cfg.rebirth.cooldown <= clocks[i].now && clocks[j].now < clocks[i].now;
      hide Run;
      TwoRequests(cfg, reason, clocks, i, j, |clocks|);
      var inputs := RequestsAt(i, j, reason, |clocks|);
      assert Timed(inputs, clocks)[..|clocks|] == Timed(inputs, clocks);
      assert |inputs| == |clocks| && Run(cfg, Timed(inputs, clocks)).panicked;
    } else if inputs: seq<Input> :| |inputs| == |clocks| && Run(cfg, Timed(inputs, clocks)).panicked {
      hide Run, GoesBack;
      assert Clocks(Timed(inputs, clocks)) == clocks;
      PanicsOnlyIfBack(cfg, Timed(inputs, clocks));
    }
  }

  ghost predicate NeverGoesBack(clocks: seq<Clock>) {
    forall i, j :: 0 <= i < j < |clocks| ==> clocks[i].now <= clocks[j].now
  }

  /** The task cannot panic while the clock does not go back. */
  lemma SteadyClockNeverPanics(cfg: Config, inputs: seq<(Input, Clock)>)
    requires NeverGoesBack(Clocks(inputs))
    ensures !Run(cfg, inputs).panicked
  {
    hide Run;
    if Run(cfg, inputs).panicked {
      PanicsOnlyIfBack(cfg, inputs);
    }
  }
}
