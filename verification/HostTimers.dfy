/**
 When a node of an application waits for missing messages without a reorder timer. `timer` is the handle of
 the timer's task, which the node holds from the moment it starts one until it cancels it.
 */
module HostTimers {
  import opened Resequencing
  import opened HostNode
  import opened HostRuns
  import opened HostGuarantees
  import opened HostRequests

  /** Messages are held until others arrive. */
  ghost predicate Holding(n: Node) {
    n.lifecycle.Birthed? && n.resequencer.phase.ReSequencing?
  }

  /** A running task is given a message that it holds. */
  ghost predicate Inserts(cfg: Config, n: Node, input: Input) {
    && !n.panicked && input.Sequenced? && cfg.resequence && n.lifecycle.Birthed?
    && n.birthTimestamp <= input.timestamp && n.staleTimestamp <= input.timestamp
    && Processed(n.resequencer, input.message.seqNumber, input.message).1.OutOfSequenceMessageInserted?
  }

  /** An NDEATH has been handled since a message was last put aside. */
  ghost predicate DeathSinceInsertion(cfg: Config, inputs: seq<(Input, Clock)>) {
    inputs != [] &&
    var before, input := inputs[..|inputs| - 1], inputs[|inputs| - 1].0;
    var n := Run(cfg, before);
    if !n.panicked && input.NDeath? then true
    else if Inserts(cfg, n, input) then false
    else DeathSinceInsertion(cfg, before)
  }

  /** The timer's state is carried over, unless nothing is held any more. */
  ghost predicate TimerCarried(n: Node, n': Node) {
    && (n'.timer ==> n.timer)
    && (Holding(n') ==> Holding(n) && n'.timer == n.timer)
  }

  lemma {:induction false} DrainCarries(cfg: Config, n: Node)
    requires n.resequencer.Valid()
    ensures TimerCarried(n, DrainHandled(cfg, n).0)
    decreases |n.resequencer.buffer|
  {
    DrainedKeepsValid(n.resequencer);
    var (s, d) := Drained(n.resequencer);
    if d.Message? {
      var n1 := n.(resequencer := s);
      HandedOverFrame(cfg, n1, d.message);
      hide HandedOver, FirstKey;
      var (n2, refused) := HandedOver(cfg, n1, d.message);
      if refused.None? {
        DrainCarries(cfg, n2);
      }
    }
  }

  lemma MessageMovesTimer(cfg: Config, n: Node, timestamp: nat, m: Message)
    requires n.resequencer.Valid() && !n.panicked
    ensures var n' := SequencedHandled(cfg, n, timestamp, m).0;
            if Inserts(cfg, n, Sequenced(timestamp, m)) then n'.timer == (n.timer || cfg.rebirth.reorderTimeout.Some?)
            else TimerCarried(n, n')
  {
    ProcessedKeepsValid(n.resequencer, m.seqNumber, m);
    HandedOverFrame(cfg, n, m);
    var n1 := n.(resequencer := Processed(n.resequencer, m.seqNumber, m).0);
    HandedOverFrame(cfg, n1, m);
    var (n2, refused) := HandedOver(cfg, n1, m);
    hide HandedOver;
    if refused.None? {
      DrainCarries(cfg, n2);
    }
  }

  lemma StaleCarries(cfg: Config, n: Node, timestamp: nat)
    ensures TimerCarried(n, MadeStale(cfg, n, timestamp))
  {
  }

  lemma RequestCarries(cfg: Config, n: Node, reason: Reason, clock: Clock)
    ensures TimerCarried(n, Requested(cfg, n, reason, clock))
  {
    StaleCarries(cfg, Evaluated(cfg, n, reason, clock.now).0, clock.stamp);
    hide MadeStale;
  }

  lemma HandlingMovesTimer(cfg: Config, n: Node, input: Input)
    requires n.resequencer.Valid() && !n.panicked
    ensures var n' := Handled(cfg, n, input).0;
            if Inserts(cfg, n, input) then n'.timer == (n.timer || cfg.rebirth.reorderTimeout.Some?)
            else if input.NDeath? then !n'.timer && (Holding(n') ==> Holding(n))
            else TimerCarried(n, n')
  {
    match input
    case NBirth(_, _) =>
    case NDeath(_, timestamp) => StaleCarries(cfg, n.(timer := false), timestamp);
    case Sequenced(timestamp, m) =>
      MessageMovesTimer(cfg, n, timestamp, m);
      hide SequencedHandled, Inserts;
    case Undecodable =>
    case AppOffline(timestamp) => StaleCarries(cfg, n, timestamp);
    case RebirthWanted(_) =>
  }

  lemma StepMovesTimer(cfg: Config, n: Node, input: Input, clock: Clock)
    requires n.resequencer.Valid() && !n.panicked
    ensures var n' := Step(cfg, n, input, clock);
            if Inserts(cfg, n, input) then
              (n'.timer ==> n.timer || cfg.rebirth.reorderTimeout.Some?)
              && (Holding(n') ==> n'.timer == (n.timer || cfg.rebirth.reorderTimeout.Some?))
            else if input.NDeath? then !n'.timer && (Holding(n') ==> Holding(n))
            else TimerCarried(n, n')
  {
    StepIsHandledAndDecided(cfg, n, input, clock);
    HandlingMovesTimer(cfg, n, input);
    hide Step, Handled, Requested, Inserts;
    var (n', raised) := Handled(cfg, n, input);
    if raised.Some? {
      RequestCarries(cfg, n', raised.value, clock);
    }
  }

  /**
   A node that holds messages has a timer for them if and only if one is configured and no NDEATH has been
   handled since a message was last put aside: such a death cancels the timer even when it leaves the node
   birthed, and only the next message put aside starts one again.
   */
  lemma {:induction false} HoldsWithTimerExactly(cfg: Config, inputs: seq<(Input, Clock)>)
    ensures var n := Run(cfg, inputs);
            && (n.timer ==> cfg.rebirth.reorderTimeout.Some?)
            && (Holding(n) ==> (n.timer <==> cfg.rebirth.reorderTimeout.Some? && !DeathSinceInsertion(cfg, inputs)))
  {
    if inputs != [] {
      var before, next := inputs[..|inputs| - 1], inputs[|inputs| - 1];
      HoldsWithTimerExactly(cfg, before);
      var n := Run(cfg, before);
      assert Run(cfg, inputs) == Step(cfg, n, next.0, next.1);
      hide Run, Inserts;
      if n.panicked {
        PanickedStays(cfg, n, next.0, next.1);
        assert !Inserts(cfg, n, next.0) by { PanickedInsertsNothing(cfg, n, next.0); }
      } else {
        StepMovesTimer(cfg, n, next.0, next.1);
      }
      hide Step;
    }
  }

  lemma PanickedInsertsNothing(cfg: Config, n: Node, input: Input)
    requires n.panicked
    ensures !Inserts(cfg, n, input)
  {
  }
}
