/** What every run of the session machine keeps, with any number of attempts outstanding at once. */
module AppSessionRuns {
  import opened Bounded
  import opened Options
  import opened AppSession

  /**
   `count` is the attempt counter without wrap-around; `tasks` are the spawned attempts whose results
   have not been taken, each under its unbounded number, with the timestamp it publishes.
   */
  datatype System = System(app: App, count: nat, tasks: map<nat, nat>)

  datatype Step =
    | ClientOnline
    | ClientOffline(now: nat)
    | TaskReturns(number: nat, ok: bool)
    | RetryFires

  predicate Enabled(y: System, step: Step) {
    match step
    case TaskReturns(number, _) => number in y.tasks
    case RetryFires => y.app.retryPending
    case _ => true
  }

  function Spawning(y: System, r: (App, bool)): System {
    if r.1 then System(r.0, y.count + 1, y.tasks[y.count + 1 := r.0.willTimestamp]) else y.(app := r.0)
  }

  function After(y: System, step: Step): System
    requires Enabled(y, step)
  {
    match step
    case ClientOnline => Spawning(y, ClientWentOnline(y.app))
    case ClientOffline(now) => y.(app := ClientWentOffline(y.app, now), count := y.count + 1)
    case TaskReturns(n, ok) =>
      y.(app := ResultReceived(y.app, n % TWO_TO_THE_64, ok, y.tasks[n]), tasks := y.tasks - {n})
    case RetryFires => Spawning(y, RetryFired(y.app))
  }

  /** A result under the number the machine expects, while the client is online. */
  predicate TakenAsCurrent(y: System, step: Step) {
    step.TaskReturns? && step.number % TWO_TO_THE_64 == y.app.attempt && y.app.clientOnline
  }

  /**
   An older result, whose number the counter has come round to, that can do harm: it is taken as current
   while the application is online, or it is a success while the current attempt is still to report.
   */
  predicate Misleads(y: System, step: Step) {
    && TakenAsCurrent(y, step) && step.number < y.count
    && (y.app.online || (step.ok && y.count in y.tasks))
  }

  ghost predicate UserOnline(t: Trace) {
    match t
    case Nothing => false
    case Then(_, WentOnline(_)) => true
    case Then(_, WentOffline) => false
    case Then(before, _) => UserOnline(before)
  }

  ghost function RegisteredWill(t: Trace): Option<nat> {
    match t
    case Nothing => None
    case Then(_, WillSet(timestamp)) => Some(timestamp)
    case Then(before, _) => RegisteredWill(before)
  }

  /** What holds however late results are taken. */
  ghost predicate Kept(y: System) {
    var a := y.app;
    && a.attempt == y.count % TWO_TO_THE_64
    && (forall n :: n in y.tasks ==> n <= y.count)
    // the machine does not stick
    && (a.clientOnline && !a.online ==> a.inFlight || a.retryPending)
    // an attempt in flight is outstanding, on a live connection, and publishes the will's timestamp
    && (a.inFlight ==> a.clientOnline && !a.online && !a.retryPending && y.count in y.tasks)
    && (y.count in y.tasks ==> a.clientOnline && y.tasks[y.count] == a.willTimestamp)
    && (a.online ==> a.clientOnline)
    && (a.published ==> a.online)
    && (a.online <==> UserOnline(a.trace))
    && RegisteredWill(a.trace) == Some(a.willTimestamp)
  }

  /** What a user may be told, given what it was told before. */
  ghost predicate Allowed(t: Trace, action: Action) {
    match action
    case WentOnline(_) => !UserOnline(t)
    case WentOffline => UserOnline(t)
    case WillSet(_) => true
  }

  ghost predicate Proper(t: Trace) {
    t.Then? ==> Proper(t.before) && Allowed(t.before, t.action)
  }

  /** What holds besides as long as no older result has misled the machine. */
  ghost predicate KeptUnmisled(y: System) {
    && Kept(y)
    && (y.app.online ==> y.app.published && y.count !in y.tasks)
    && Proper(y.app.trace)
  }

  /** Different attempts less than a full turn of the counter apart have different numbers. */
  lemma NumbersDiffer(n: nat, count: nat)
    requires n <= count
    ensures n % TWO_TO_THE_64 == count % TWO_TO_THE_64 <==> (count - n) % TWO_TO_THE_64 == 0
    ensures count - n < TWO_TO_THE_64 ==> ((count - n) % TWO_TO_THE_64 == 0 <==> n == count)
  {
    assert count == n + (count - n);
    assert (n % TWO_TO_THE_64 + (count - n) % TWO_TO_THE_64 - count) % TWO_TO_THE_64 == 0;
  }

  lemma StepKeeps(y: System, step: Step)
    requires Kept(y) && Enabled(y, step)
    ensures Kept(After(y, step))
    ensures KeptUnmisled(y) && !Misleads(y, step) ==> KeptUnmisled(After(y, step))
  {
    if step.TaskReturns? {
      NumbersDiffer(step.number, y.count);
    }
  }

  function Initial(now: nat): System {
    System(NewApp(now), 0, map[])
  }

  /** Steps are attempted in the order given; those that cannot be taken are skipped. */
  function Run(now: nat, steps: seq<Step>): System {
    if steps == [] then Initial(now)
    else
      var y, step := Run(now, steps[..|steps| - 1]), steps[|steps| - 1];
      if Enabled(y, step) then After(y, step) else y
  }

  lemma {:induction false} RunKeeps(now: nat, steps: seq<Step>)
    ensures Kept(Run(now, steps))
  {
    if steps != [] {
      var y, step := Run(now, steps[..|steps| - 1]), steps[|steps| - 1];
      RunKeeps(now, steps[..|steps| - 1]);
      if Enabled(y, step) {
        StepKeeps(y, step);
      }
    }
  }

  /** No older result has misled the machine. */
  predicate Unmisled(now: nat, steps: seq<Step>) {
    steps != [] ==>
      var before, step := steps[..|steps| - 1], steps[|steps| - 1];
      Unmisled(now, before) && (Enabled(Run(now, before), step) ==> !Misleads(Run(now, before), step))
  }

  lemma {:induction false} UnmisledRunsKeep(now: nat, steps: seq<Step>)
    requires Unmisled(now, steps)
    ensures KeptUnmisled(Run(now, steps))
  {
    if steps != [] {
      var before, step := steps[..|steps| - 1], steps[|steps| - 1];
      UnmisledRunsKeep(now, before);
      if Enabled(Run(now, before), step) {
        StepKeeps(Run(now, before), step);
      }
    }
  }

  /**
   The machine never sticks: with the client online and the application not, an attempt is in flight or
   a retry is scheduled; and an attempt in flight has its task, which will report under the number the
   machine expects. This holds however late results are taken.
   */
  lemma NeverSticks(now: nat, steps: seq<Step>)
    ensures var y := Run(now, steps);
            && (y.app.clientOnline && !y.app.online ==> y.app.inFlight || y.app.retryPending)
            && (y.app.inFlight ==> y.count in y.tasks && y.count % TWO_TO_THE_64 == y.app.attempt)
  {
    RunKeeps(now, steps);
  }

  /**
   When attempts are started: exactly when the client comes online, or a retry fires while it is, and the
   user has not been told it is online, no other attempt is in flight and no retry is still to come. A new
   attempt is the current one, in flight, and carries the timestamp of the registered will.
   */
  lemma AttemptsStartExactly(now: nat, steps: seq<Step>, step: Step)
    requires Enabled(Run(now, steps), step)
    ensures var y, y' := Run(now, steps), Run(now, steps + [step]);
            var started :=
              && (if step.ClientOnline? then !y.app.retryPending else step.RetryFires? && y.app.clientOnline)
              && !UserOnline(y.app.trace) && !y.app.inFlight;
            if started then
              && y'.count == y.count + 1 && y'.app.inFlight && y'.app.attempt == y'.count % TWO_TO_THE_64
              && y'.app.clientOnline && RegisteredWill(y.app.trace).Some?
              && y'.tasks == y.tasks[y.count + 1 := RegisteredWill(y.app.trace).value]
            else y'.tasks == if step.TaskReturns? then y.tasks - {step.number} else y.tasks
  {
    RunKeeps(now, steps);
    RunOn(now, steps, step);
    hide Run;
    NextNumber(Run(now, steps).count);
  }

  /**
   A retry that fires is spent. With the client online and the application not, it starts an attempt, with
   the will's timestamp; otherwise it starts none.
   */
  lemma RetriesAreSpent(now: nat, steps: seq<Step>)
    requires Run(now, steps).app.retryPending
    ensures var y, y' := Run(now, steps), Run(now, steps + [RetryFires]);
            && !y'.app.retryPending && y'.app.trace == y.app.trace
            && if y.app.clientOnline && !y.app.online then
                 y'.app.inFlight && y'.count == y.count + 1 && y'.tasks == y.tasks[y.count + 1 := y.app.willTimestamp]
               else y'.tasks == y.tasks && y'.count == y.count
  {
    RunKeeps(now, steps);
    RunOn(now, steps, RetryFires);
    hide Run;
  }

  /**
   What a result does: nothing unless it bears the current number on a live connection. Then a success is
   told to the user with the timestamp it published, and a failure schedules a retry; no attempt is left in
   flight.
   */
  lemma ResultsAreTakenExactly(now: nat, steps: seq<Step>, n: nat, ok: bool)
    requires n in Run(now, steps).tasks
    ensures var y, y' := Run(now, steps), Run(now, steps + [TaskReturns(n, ok)]);
            if !y.app.clientOnline || n % TWO_TO_THE_64 != y.count % TWO_TO_THE_64 then y'.app == y.app
            else
              && !y'.app.inFlight && y'.app.published == ok
              && UserOnline(y'.app.trace) == (UserOnline(y.app.trace) || ok)
              && y'.app.trace == (if ok then Then(y.app.trace, WentOnline(y.tasks[n])) else y.app.trace)
              && y'.app.retryPending == (y.app.retryPending || !ok)
  {
    RunKeeps(now, steps);
    RunOn(now, steps, TaskReturns(n, ok));
    hide Run;
  }

  /**
   The end of a connection leaves nothing in flight. It is told exactly to a user who was told online, and
   exactly then the will is replaced by one with a new timestamp. A session result of before is not the
   current one any more.
   */
  lemma ConnectionsEndExactly(now: nat, steps: seq<Step>, when: nat)
    ensures var y, y' := Run(now, steps), Run(now, steps + [ClientOffline(when)]);
            && !y'.app.clientOnline && !y'.app.inFlight && !y'.app.published && !UserOnline(y'.app.trace)
            && y'.tasks == y.tasks && y'.app.retryPending == y.app.retryPending
            && y'.app.attempt == (y.count + 1) % TWO_TO_THE_64 != y.app.attempt
            && y'.app.trace == (if UserOnline(y.app.trace) then Then(Then(y.app.trace, WillSet(when)), WentOffline)
                                else y.app.trace)
            && RegisteredWill(y'.app.trace) == Some(y'.app.willTimestamp)
  {
    RunKeeps(now, steps);
    RunOn(now, steps, ClientOffline(when));
    RunKeeps(now, steps + [ClientOffline(when)]);
    hide Run;
    NextNumber(Run(now, steps).count);
  }

  /**
   An attempt in flight has exactly one outstanding task under its number, unless one is a whole turn of the
   counter old.
   */
  lemma OneTaskPerNumber(now: nat, steps: seq<Step>, n: nat)
    requires var y := Run(now, steps); y.app.inFlight && n in y.tasks
    ensures var y := Run(now, steps);
            n % TWO_TO_THE_64 == y.app.attempt <==> (y.count - n) % TWO_TO_THE_64 == 0
    ensures var y := Run(now, steps);
            n % TWO_TO_THE_64 == y.app.attempt && y.count < n + TWO_TO_THE_64 ==> n == y.count
  {
    RunKeeps(now, steps);
    NumbersDiffer(n, Run(now, steps).count);
  }

  /**
   The result of an older attempt changes nothing, unless it is a whole number of turns of the counter
   old; then, with the client online, a success is reported as if it were current.
   */
  lemma OlderResultsChangeNothing(now: nat, steps: seq<Step>, n: nat, ok: bool)
    requires var y := Run(now, steps); n in y.tasks && n < y.count
    ensures var y := Run(now, steps);
            var y' := After(y, TaskReturns(n, ok));
            if (y.count - n) % TWO_TO_THE_64 != 0 then y' == y.(tasks := y.tasks - {n})
            else y'.app.trace != y.app.trace <==> y.app.clientOnline && ok
  {
    RunKeeps(now, steps);
    NumbersDiffer(n, Run(now, steps).count);
  }

  /** What the user has been told: online is true, offline is false. */
  ghost function Told(t: Trace): seq<bool> {
    match t
    case Nothing => []
    case Then(before, WentOnline(_)) => Told(before) + [true]
    case Then(before, WentOffline) => Told(before) + [false]
    case Then(before, _) => Told(before)
  }

  ghost predicate Alternates(told: seq<bool>) {
    forall i :: 0 <= i < |told| ==> told[i] == (i % 2 == 0)
  }

  lemma {:induction false} LastTold(t: Trace)
    ensures UserOnline(t) == (Told(t) != [] && Told(t)[|Told(t)| - 1])
  {
    if t.Then? {
      LastTold(t.before);
    }
  }

  lemma {:induction false} ProperAlternates(t: Trace)
    requires Proper(t)
    ensures Alternates(Told(t))
  {
    if t.Then? {
      ProperAlternates(t.before);
      LastTold(t.before);
    }
  }

  /** No success is taken as current while the application is online already. */
  ghost predicate NoneDoubled(now: nat, steps: seq<Step>) {
    steps != [] ==>
      var before, step := steps[..|steps| - 1], steps[|steps| - 1];
      var y := Run(now, before);
      NoneDoubled(now, before) && !(Enabled(y, step) && TakenAsCurrent(y, step) && step.ok && y.app.online)
  }

  /** What a step adds to what the user has been told. */
  lemma StepTells(y: System, step: Step)
    requires Kept(y) && Enabled(y, step)
    ensures var t, t' := Told(y.app.trace), Told(After(y, step).app.trace);
            && t <= t'
            && (Proper(y.app.trace) && !(TakenAsCurrent(y, step) && step.ok && y.app.online) ==>
                 Proper(After(y, step).app.trace))
            && (TakenAsCurrent(y, step) && step.ok && y.app.online ==> t' == t + [true])
  {
  }

  lemma {:induction false} UndoubledIsProper(now: nat, steps: seq<Step>)
    requires NoneDoubled(now, steps)
    ensures Proper(Run(now, steps).app.trace)
  {
    if steps != [] {
      var before, step := steps[..|steps| - 1], steps[|steps| - 1];
      UndoubledIsProper(now, before);
      RunKeeps(now, before);
      if Enabled(Run(now, before), step) {
        StepTells(Run(now, before), step);
        hide After;
      }
    }
  }

  lemma DoubledDoesNotAlternate(told: seq<bool>)
    requires told != [] && told[|told| - 1]
    ensures !Alternates(told + [true])
  {
    assert (told + [true])[|told| - 1] && (told + [true])[|told|];
  }

  /**
   The user is told online and offline strictly in turn, starting with online, if and only if no success is
   ever taken as current while the application is online already.
   */
  lemma {:induction false} OnlineAndOfflineAlternate(now: nat, steps: seq<Step>)
    ensures Alternates(Told(Run(now, steps).app.trace)) <==> NoneDoubled(now, steps)
  {
    if NoneDoubled(now, steps) {
      UndoubledIsProper(now, steps);
      ProperAlternates(Run(now, steps).app.trace);
    } else {
      var before, step := steps[..|steps| - 1], steps[|steps| - 1];
      var y := Run(now, before);
      OnlineAndOfflineAlternate(now, before);
      RunKeeps(now, before);
      LastTold(y.app.trace);
      if Enabled(y, step) {
        StepTells(y, step);
        hide After;
        if NoneDoubled(now, before) {
          DoubledDoesNotAlternate(Told(y.app.trace));
        }
      }
    }
  }

  /** A failure has been taken as current since the application went online, and no success after it. */
  ghost predicate FailedOnline(now: nat, steps: seq<Step>) {
    steps != [] &&
    var before, step := steps[..|steps| - 1], steps[|steps| - 1];
    var y := Run(now, before);
    if !Enabled(y, step) then FailedOnline(now, before)
    else if step.ClientOffline? then false
    else if TakenAsCurrent(y, step) then y.app.online && !step.ok
    else FailedOnline(now, before)
  }

  lemma {:induction false} PublishedExactly(now: nat, steps: seq<Step>)
    ensures var a := Run(now, steps).app; a.published <==> a.online && !FailedOnline(now, steps)
  {
    if steps != [] {
      PublishedExactly(now, steps[..|steps| - 1]);
      RunKeeps(now, steps[..|steps| - 1]);
    }
  }

  /**
   The application answers a STATE that declares it dead if and only if the user has been told it is online
   and no failure has been taken as current since.
   */
  lemma RepublishesWhileOnline(now: nat, steps: seq<Step>, fromOwnHost: bool, stateOnline: bool)
    ensures var a := Run(now, steps).app;
            RepublishesOnState(a, fromOwnHost, stateOnline) <==>
              UserOnline(a.trace) && !FailedOnline(now, steps) && fromOwnHost && !stateOnline
  {
    RunKeeps(now, steps);
    PublishedExactly(now, steps);
  }

  /** What users and hosts rely on. */
  ghost predicate Sound(now: nat, steps: seq<Step>) {
    Alternates(Told(Run(now, steps).app.trace)) &&
      (UserOnline(Run(now, steps).app.trace) ==> Run(now, steps).app.published)
  }

  lemma UnmisledIsSound(now: nat, steps: seq<Step>)
    requires Unmisled(now, steps)
    ensures Sound(now, steps)
  {
    UnmisledRunsKeep(now, steps);
    ProperAlternates(Run(now, steps).app.trace);
  }

  lemma UnmisledOn(now: nat, steps: seq<Step>, step: Step)
    ensures Unmisled(now, steps + [step]) <==>
              Unmisled(now, steps) && (Enabled(Run(now, steps), step) ==> !Misleads(Run(now, steps), step))
  {
    assert (steps + [step])[..|steps|] == steps;
  }

  /** What a misleading step does at once, and what the current attempt's success does after it. */
  lemma MisledStep(y: System, step: Step)
    requires KeptUnmisled(y) && Enabled(y, step) && Misleads(y, step)
    ensures var y' := After(y, step);
            var t, t' := Told(y.app.trace), Told(y'.app.trace);
            if !y.app.online then
              var last := TaskReturns(y.count, true);
              Enabled(y', last) && t' == t + [true] && Told(After(y', last).app.trace) == t + [true] + [true]
            else if step.ok then t' == t + [true]
            else UserOnline(y'.app.trace) && !y'.app.published
  {
    NumbersDiffer(step.number, y.count);
    var t := Then(y.app.trace, WentOnline(y.tasks[step.number]));
    assert Told(t) == Told(y.app.trace) + [true];
  }

  /**
   Where it is lost, exactly: after a run without misleading steps, a step misleads the machine if and only
   if what users and hosts rely on is lost by it, or by the current attempt's success following it.
   */
  lemma SoundnessIsLostExactly(now: nat, steps: seq<Step>, step: Step)
    requires Unmisled(now, steps) && Enabled(Run(now, steps), step)
    ensures var y := Run(now, steps);
            Misleads(y, step) <==>
              !Sound(now, steps + [step]) || !Sound(now, steps + [step] + [TaskReturns(y.count, true)])
  {
    var y, last := Run(now, steps), TaskReturns(Run(now, steps).count, true);
    UnmisledOn(now, steps, step);
    UnmisledOn(now, steps + [step], last);
    RunOn(now, steps, step);
    RunOn(now, steps + [step], last);
    if Misleads(y, step) {
      UnmisledRunsKeep(now, steps);
      hide Run, Unmisled, After;
      MisledStep(y, step);
      LastTold(y.app.trace);
      if !y.app.online {
        DoubledDoesNotAlternate(Told(y.app.trace) + [true]);
      } else if step.ok {
        DoubledDoesNotAlternate(Told(y.app.trace));
      }
    } else {
      UnmisledIsSound(now, steps + [step]);
      CountIsNotOlder(now, steps, step);
      UnmisledIsSound(now, steps + [step] + [last]);
    }
  }

  /** The current attempt's result is not mistaken, nor is it after one more attempt. */
  lemma CountIsNotOlder(now: nat, steps: seq<Step>, step: Step)
    requires Enabled(Run(now, steps), step)
    ensures !Misleads(Run(now, steps + [step]), TaskReturns(Run(now, steps).count, true))
  {
    RunOn(now, steps, step);
    RunKeeps(now, steps + [step]);
    var n, count := Run(now, steps).count, Run(now, steps + [step]).count;
    assert n <= count <= n + 1;
    hide Run, After;
    NumbersDiffer(n, count);
  }

  /** The attempt was started at some earlier moment, and publishes the timestamp of the will registered then. */
  ghost predicate StartedAt(now: nat, steps: seq<Step>, n: nat, k: nat, timestamp: nat) {
    k <= |steps| && var y := Run(now, steps[..k]); y.count == n && RegisteredWill(y.app.trace) == Some(timestamp)
  }

  lemma {:induction false} AttemptsCarryTheirWill(now: nat, steps: seq<Step>, n: nat) returns (k: nat)
    requires n in Run(now, steps).tasks
    ensures StartedAt(now, steps, n, k, Run(now, steps).tasks[n])
  {
    var before, step := steps[..|steps| - 1], steps[|steps| - 1];
    RunKeeps(now, steps);
    if n in Run(now, before).tasks && Run(now, before).tasks[n] == Run(now, steps).tasks[n] {
      k := AttemptsCarryTheirWill(now, before, n);
      assert steps[..k] == before[..k];
    } else {
      k := |steps|;
      assert steps[..k] == steps;
    }
  }

  /**
   A session reported online published the timestamp of the will registered when its attempt was started;
   for the current attempt, that of the will registered now.
   */
  lemma OnlineCarriesWillTimestamp(now: nat, steps: seq<Step>, n: nat)
    requires var y := Run(now, steps); n in y.tasks && TakenAsCurrent(y, TaskReturns(n, true))
    ensures var y := Run(now, steps);
            var t := After(y, TaskReturns(n, true)).app.trace;
            && t == Then(y.app.trace, WentOnline(y.tasks[n]))
            && (exists k :: StartedAt(now, steps, n, k, y.tasks[n]))
            && (n == y.count ==> RegisteredWill(t) == Some(y.tasks[n]) && y.app.willTimestamp == y.tasks[n])
  {
    RunKeeps(now, steps);
    var k := AttemptsCarryTheirWill(now, steps, n);
  }

  /** A result taken before the counter has made a full turn since never misleads. */
  lemma PromptResultsDoNotMislead(now: nat, steps: seq<Step>, step: Step)
    requires step.TaskReturns? && Run(now, steps).count < step.number + TWO_TO_THE_64
    ensures !Misleads(Run(now, steps), step)
  {
    RunKeeps(now, steps);
    if step.number <= Run(now, steps).count {
      NumbersDiffer(step.number, Run(now, steps).count);
    }
  }

  // With a mistaken result

  function Offlines(k: nat): seq<Step> {
    if k == 0 then [ClientOnline] else Offlines(k - 1) + [ClientOffline(0)]
  }

  lemma RunOn(now: nat, steps: seq<Step>, step: Step)
    ensures var y := Run(now, steps);
            Run(now, steps + [step]) == if Enabled(y, step) then After(y, step) else y
  {
    assert (steps + [step])[..|steps|] == steps;
  }

  /** With one attempt outstanding since the start, after the counter has gone on to `k`. */
  function Waiting(k: nat): System {
    System(NewApp(0).(attempt := k % TWO_TO_THE_64), k, map[1 := 0])
  }

  lemma OfflinePasses(k: nat)
    ensures After(Waiting(k), ClientOffline(0)) == Waiting(k + 1)
  {
    assert Succ64(k % TWO_TO_THE_64) == (k + 1) % TWO_TO_THE_64 by {
      NextNumber(k);
    }
  }

  lemma NextNumber(k: nat)
    ensures (k % TWO_TO_THE_64 + 1) % TWO_TO_THE_64 == (k + 1) % TWO_TO_THE_64
  {
  }

  lemma {:induction false} OfflinesPass(k: nat)
    requires k >= 1
    ensures Run(0, Offlines(k)) == Waiting(k + 1)
  {
    if k == 1 {
      assert Offlines(1) == [ClientOnline] + [ClientOffline(0)] && [] + [ClientOnline] == [ClientOnline];
      RunOn(0, [], ClientOnline);
      assert After(Initial(0), ClientOnline) ==
        Waiting(1).(app := NewApp(0).(clientOnline := true, inFlight := true, attempt := 1));
      RunOn(0, [ClientOnline], ClientOffline(0));
    } else {
      OfflinesPass(k - 1);
      RunOn(0, Offlines(k - 1), ClientOffline(0));
      OfflinePasses(k);
    }
  }

  /**
   A result that waits for a whole turn of the counter passes for the current one, and the user is told
   online twice.
   */
  lemma AStaleResultCanPassForCurrent() returns (steps: seq<Step>)
    ensures Told(Run(0, steps).app.trace) == [true, true]
  {
    var turn := TWO_TO_THE_64;
    var s0 := Offlines(turn - 1);
    OfflinesPass(turn - 1);
    assert Waiting(turn) == System(NewApp(0), turn, map[1 := 0]);
    hide Run, Offlines, Waiting;
    RunOn(0, s0, ClientOnline);
    RunOn(0, s0 + [ClientOnline], TaskReturns(1, true));
    RunOn(0, s0 + [ClientOnline] + [TaskReturns(1, true)], TaskReturns(turn + 1, true));
    steps := s0 + [ClientOnline] + [TaskReturns(1, true)] + [TaskReturns(turn + 1, true)];
    var t := NewApp(0).trace;
    assert Told(t) == [];
    assert Told(Then(t, WentOnline(0))) == [true];
  }
}
