/**
 The objects of an edge node, updating their fields in place: the state behind the mutex, the node's
 task and a device's task. A method ends where the task next waits for the client, leaving what it
 waits for in `wait` or `publishing`.
 */
module EdgeTask {
  import opened Bounded
  import opened Options
  import opened EdgeNode

  class EoNState {
    const primaryHost: Option<string>
    var seqNumber: U8
    var online: bool
    var birthed: bool
    var primaryHostOnline: bool
    var lastHostTimestamp: Option<nat>
    var bdseq: U8
    /** What the node has done; nothing decides by it. */
    ghost var trace: Trace

    ghost function Model(): Shared
      reads this
    {
      Shared(seqNumber, online, birthed, primaryHostOnline, lastHostTimestamp, bdseq, trace)
    }

    constructor (primaryHost: Option<string>)
      ensures this.primaryHost == primaryHost && Model() == Initial().session.shared
    {
      this.primaryHost := primaryHost;
      seqNumber, online, birthed, primaryHostOnline := 0, false, false, false;
      lastHostTimestamp, bdseq, trace := None, 0, Nothing;
    }

    ghost method Record(action: Action)
      modifies this`trace
      ensures trace == Then(old(trace), action)
    {
      trace := Then(trace, action);
    }

    method GetNextSeq(publisher: Publisher) returns (r: Option<U8>)
      modifies this`seqNumber, this`trace
      ensures (Model(), r) == Allocate(old(Model()), publisher)
    {
      if !online { return None; }
      if !birthed { return None; }
      seqNumber := Succ8(seqNumber);
      Record(Allocated(seqNumber, publisher));
      return Some(seqNumber);
    }

    method OnlineSwap(value: bool) returns (was: bool)
      modifies this`online
      ensures online == value && was == old(online)
    {
      was := online;
      online := value;
    }

    method UpdatePrimaryHostTimestamp(timestamp: nat) returns (accepted: bool)
      modifies this`lastHostTimestamp
      ensures (Model(), accepted) == HostTimestampUpdated(old(Model()), timestamp)
    {
      match lastHostTimestamp {
        case Some(last) => if timestamp < last { return false; }
        case None =>
      }
      lastHostTimestamp := Some(timestamp);
      return true;
    }

    method SetDead()
      modifies this`birthed, this`trace
      ensures Model() == old(Model()).(birthed := false).Did(NodeDead)
    {
      birthed := false;
      Record(NodeDead);
    }

    /** The bdSeq of the NDEATH that `cancel` publishes. */
    method Cancel() returns (bdseqSent: U8)
      modifies this`birthed, this`trace
      ensures Model() == CancelSent(old(Model())) && bdseqSent == old(bdseq)
    {
      SetDead();
      Record(DeathSent(bdseq, Cancelled));
      return bdseq;
    }

    method StartBirth()
      modifies this`birthed, this`seqNumber
      ensures Model() == old(Model()).(birthed := false, seqNumber := 0)
    {
      birthed := false;
      seqNumber := 0;
    }
  }

  class NodeTask {
    const state: EoNState
    var clientOnline: bool
    var retryPending: bool
    var wait: Wait

    ghost function Model(): Session
      reads this, state
    {
      Session(state.Model(), clientOnline, retryPending, wait)
    }

    constructor (state: EoNState)
      ensures this.state == state && Model() == Session(state.Model(), false, false, Idle)
    {
      this.state := state;
      clientOnline, retryPending, wait := false, false, Idle;
    }

    method Birth(kind: BirthKind)
      modifies this`wait, state
      ensures Model() == BirthBegun(old(Model()), kind)
    {
      state.StartBirth();
      state.Record(BirthStarted(state.bdseq));
      wait := Birthing(kind);
    }

    method BirthUnlessWaiting()
      modifies this`wait, state
      ensures Model() == BirthIfReady(state.primaryHost, old(Model()))
    {
      if state.birthed { return; }
      if !(state.primaryHost.None? || state.primaryHostOnline) { return; }
      Birth(FirstBirth);
    }

    method TryOnline()
      modifies this`wait, state
      ensures Model() == OnlineTried(state.primaryHost, old(Model()))
    {
      if !clientOnline || retryPending { return; }
      if !state.online {
        wait := Subscribing;
        return;
      }
      BirthUnlessWaiting();
    }

    method CallReturned(ok: bool)
      modifies this, state
      ensures Model() == Returned(state.primaryHost, old(Model()), ok)
    {
      match wait
      case Idle =>
      case Subscribing =>
        if ok {
          var _ := state.OnlineSwap(true);
          state.Record(SessionUp);
          wait := Idle;
          BirthUnlessWaiting();
        } else {
          retryPending, wait := true, Disconnecting;
        }
      case Birthing(kind) =>
        if ok {
          state.birthed := true;
          state.Record(BirthDone);
          wait := Idle;
        } else {
          state.Record(BirthFailed(kind));
          if kind == FirstBirth {
            var _ := state.OnlineSwap(false);
            state.Record(SessionDown);
            retryPending, wait := true, Disconnecting;
          } else {
            wait := Idle;
          }
        }
      case PublishingDeath =>
        state.SetDead();
        state.Record(DeathReturned);
        wait := Disconnecting;
      case Disconnecting => wait := Idle;
    }

    method OnOffline() returns (will: Option<U8>)
      modifies this, state
      ensures (Model(), will) == OfflineSeen(old(Model()))
    {
      clientOnline := false;
      state.primaryHostOnline := false;
      state.Record(OfflineHandled);
      var wasOnline := state.OnlineSwap(false);
      if !wasOnline { return None; }
      state.birthed := false;
      state.bdseq := Succ8(state.bdseq);
      return Some(state.bdseq);
    }

    method OnPrimaryHostState(from: string, online: bool, timestamp: nat)
      modifies this, state
      ensures Model() == HostStateSeen(state.primaryHost, old(Model()), from, online, timestamp)
    {
      if state.primaryHost.None? { return; }
      if from != state.primaryHost.value { return; }
      var accepted := state.UpdatePrimaryHostTimestamp(timestamp);
      if !accepted { return; }
      state.primaryHostOnline := online;
      state.Record(StateAccepted(online, timestamp));
      if online {
        TryOnline();
      } else if state.birthed {
        state.Record(DeathSent(state.bdseq, HostGone));
        wait := PublishingDeath;
      }
    }

    method OnRebirthRequest()
      modifies this, state
      ensures Model() == Rebirthed(old(Model()))
    {
      if !state.birthed { return; }
      Birth(Rebirth);
    }

    method CommandRebirth()
      modifies this, state
      ensures Model() == CommandRebirthed(old(Model()))
    {
      if !state.birthed { return; }
      state.SetDead();
      Birth(Rebirth);
    }
  }

  class DeviceTask {
    const state: EoNState
    const id: nat
    var enabled: bool
    var birthed: bool
    var publishing: Option<Publisher>
    /** Publishers between their check and their number; a count of calls under way. */
    ghost var checked: nat

    ghost function Model(): (Shared, EdgeNode.Device)
      reads this, state
    {
      (state.Model(), Device(enabled, birthed, publishing, checked))
    }

    constructor (state: EoNState, id: nat)
      ensures this.state == state && this.id == id && Model() == (state.Model(), Device(false, false, None, 0))
    {
      this.state, this.id := state, id;
      enabled, birthed, publishing, checked := false, false, None, 0;
    }

    method Birth(kind: BirthKind)
      modifies this`birthed, this`publishing, state
      ensures Model() == DeviceBirthed(old(Model()).0, old(Model()).1, id, kind)
    {
      if !enabled { return; }
      if kind == FirstBirth && birthed { return; }
      var seqNumber := state.GetNextSeq(DBirth(id));
      if seqNumber.None? { return; }
      birthed := false;
      state.Record(DeviceDown(id));
      publishing := Some(DBirth(id));
    }

    method Death(publish: bool)
      modifies this`birthed, this`publishing, state
      ensures Model() == DeviceDied(old(Model()).0, old(Model()).1, id, publish)
    {
      if !birthed { return; }
      birthed := false;
      state.Record(DeviceDown(id));
      if publish {
        var seqNumber := state.GetNextSeq(DDeath(id));
        if seqNumber.None? { return; }
        publishing := Some(DDeath(id));
      }
    }

    method PublishReturned(ok: bool)
      modifies this`birthed, this`publishing, state
      ensures Model() == DeviceReturned(old(Model()).0, old(Model()).1, id, ok)
    {
      if publishing == Some(DBirth(id)) {
        if ok {
          birthed := true;
          state.Record(DeviceUp(id));
        } else {
          state.Record(DeviceBirthFailed(id));
        }
      }
      publishing := None;
    }

    method Enable()
      modifies this, state
      ensures Model() == DeviceBirthed(old(Model()).0, old(Model()).1.(enabled := true), id, FirstBirth)
    {
      enabled := true;
      Birth(FirstBirth);
    }

    method Disable()
      modifies this, state
      ensures Model() == DeviceDied(old(Model()).0, old(Model()).1.(enabled := false), id, true)
    {
      enabled := false;
      Death(true);
    }

    /** The first half of `check_publish_state_and_get_seq`, on whatever thread holds a handle. */
    method CheckPublishState() returns (ok: bool)
      modifies this`checked, state
      ensures Model() == DataCheckPassed(old(Model()).0, old(Model()).1, id) && ok == old(birthed)
    {
      if !birthed { return false; }
      state.Record(DataChecked(id));
      checked := checked + 1;
      return true;
    }

    /** The second half. */
    method TakeDataNumber() returns (r: Option<U8>)
      requires checked > 0
      modifies this`checked, state
      ensures Model() == DataNumbered(old(Model()).0, old(Model()).1, id)
      ensures r == Allocate(old(Model()).0, DData(id)).1
    {
      r := state.GetNextSeq(DData(id));
      if r.None? {
        state.Record(DataRefused(id));
      }
      checked := checked - 1;
    }
  }
}
