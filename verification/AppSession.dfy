/**
 The session machine of an application's event loop. Establishing a session runs on a spawned task
 whose result comes back tagged with a wrapping attempt number; the connection may have come and gone
 meanwhile.
 */
module AppSession {
  import opened Bounded
  import opened Options

  datatype Action =
    | WillSet(timestamp: nat)
    | WentOnline(timestamp: nat)     // reported to the user; the STATE message carried this timestamp
    | WentOffline                    // reported to the user

  /** What the event loop has done, the latest action outermost. */
  datatype Trace = Nothing | Then(before: Trace, action: Action)

  datatype App = App(
    online: bool, clientOnline: bool, inFlight: bool, attempt: U64, retryPending: bool, published: bool,
    willTimestamp: nat, trace: Trace)
  {
    function Did(action: Action): App {
      this.(trace := Then(trace, action))
    }
  }

  /** `u64::wrapping_add(1)`. */
  function Succ64(x: U64): U64 {
    (x + 1) % TWO_TO_THE_64
  }

  function NewApp(now: nat): App {
    App(false, false, false, 0, false, false, now, Then(Nothing, WillSet(now)))
  }

  /** Whether an attempt is spawned, and the state after. */
  function OnlineTried(a: App): (App, bool) {
    if !a.clientOnline || a.online || a.retryPending || a.inFlight then (a, false)
    else (a.(attempt := Succ64(a.attempt), inFlight := true), true)
  }

  function ClientWentOnline(a: App): (App, bool) {
    OnlineTried(a.(clientOnline := true))
  }

  function ClientWentOffline(a: App, now: nat): App {
    var a' := a.(clientOnline := false, attempt := Succ64(a.attempt), inFlight := false);
    if !a.online then a'
    else a'.(online := false, published := false, willTimestamp := now).Did(WillSet(now)).Did(WentOffline)
  }

  /** The result of an attempt, with the timestamp its STATE message carried. */
  function ResultReceived(a: App, attempt: U64, ok: bool, timestamp: nat): App {
    if attempt != a.attempt then a
    else
      var a' := a.(inFlight := false);
      if !a.clientOnline then a'
      else if ok then a'.(published := true, online := true).Did(WentOnline(timestamp))
      else a'.(published := false, retryPending := true)
  }

  function RetryFired(a: App): (App, bool) {
    OnlineTried(a.(retryPending := false))
  }

  /** Whether hearing its own host declared offline makes the application declare itself online again. */
  predicate RepublishesOnState(a: App, fromOwnHost: bool, stateOnline: bool) {
    a.published && fromOwnHost && !stateOnline
  }

  class AppEventLoop {
    var online: bool
    var clientOnline: bool
    var inFlight: bool
    var attempt: U64
    var retryPending: bool
    var published: bool
    var willTimestamp: nat
    ghost var trace: Trace

    ghost function Model(): App
      reads this
    {
      App(online, clientOnline, inFlight, attempt, retryPending, published, willTimestamp, trace)
    }

    constructor (now: nat)
      ensures Model() == NewApp(now)
    {
      online, clientOnline, inFlight, attempt, retryPending, published := false, false, false, 0, false, false;
      willTimestamp, trace := now, Then(Nothing, WillSet(now));
    }

    /** The attempt number and timestamp of the task to spawn, if any. */
    method TryOnline() returns (spawned: Option<(U64, nat)>)
      modifies this`attempt, this`inFlight
      ensures Model() == OnlineTried(old(Model())).0
      ensures spawned == if OnlineTried(old(Model())).1 then Some((attempt, willTimestamp)) else None
    {
      if !clientOnline || online || retryPending || inFlight { return None; }
      attempt := Succ64(attempt);
      inFlight := true;
      return Some((attempt, willTimestamp));
    }

    method HandleOffline(now: nat) returns (event: Option<Action>)
      modifies this`online, this`published, this`willTimestamp, this`trace
      ensures event == if old(online) then Some(WentOffline) else None
      ensures Model() == if !old(online) then old(Model())
                         else old(Model()).(online := false, published := false, willTimestamp := now)
                              .Did(WillSet(now)).Did(WentOffline)
    {
      if !online { return None; }
      online := false;
      published := false;
      willTimestamp := now;
      trace := Then(Then(trace, WillSet(now)), WentOffline);
      return Some(WentOffline);
    }

    method OnClientOnline() returns (spawned: Option<(U64, nat)>)
      modifies this`clientOnline, this`attempt, this`inFlight
      ensures Model() == ClientWentOnline(old(Model())).0
      ensures spawned == if ClientWentOnline(old(Model())).1 then Some((attempt, willTimestamp)) else None
    {
      clientOnline := true;
      spawned := TryOnline();
    }

    method OnClientOffline(now: nat) returns (event: Option<Action>)
      modifies this
      ensures Model() == ClientWentOffline(old(Model()), now)
      ensures event == if old(online) then Some(WentOffline) else None
    {
      clientOnline := false;
      attempt := Succ64(attempt);
      inFlight := false;
      event := HandleOffline(now);
    }

    method OnSessionResult(number: U64, ok: bool, timestamp: nat) returns (event: Option<Action>)
      modifies this
      ensures Model() == ResultReceived(old(Model()), number, ok, timestamp)
      ensures event == if number == old(attempt) && old(clientOnline) && ok then Some(WentOnline(timestamp)) else None
    {
      if number != attempt { return None; }
      inFlight := false;
      if !clientOnline { return None; }
      published := ok;
      if !ok {
        retryPending := true;
        return None;
      }
      online := true;
      trace := Then(trace, WentOnline(timestamp));
      return Some(WentOnline(timestamp));
    }

    method OnRetry() returns (spawned: Option<(U64, nat)>)
      modifies this`retryPending, this`attempt, this`inFlight
      ensures Model() == RetryFired(old(Model())).0
      ensures spawned == if RetryFired(old(Model())).1 then Some((attempt, willTimestamp)) else None
    {
      retryPending := false;
      spawned := TryOnline();
    }
  }
}
