/** The task that owns a node, updating its fields in place. */
module HostTask {
  import opened Bounded
  import opened Options
  import opened Resequencing
  import opened HostNode

  class NodeTask {
    const cfg: Config
    const resequencer: Resequencer<Message>
    var devices: map<string, Device>
    var timer: bool
    var lifecycle: Lifecycle
    var birthTimestamp: nat
    var staleTimestamp: nat
    var bdseq: U8
    var lastRebirth: nat
    var panicked: bool
    /** What has been done so far; only the stores' answers and the specification look at it. */
    var trace: Trace

    ghost function Model(): Node
      reads this, resequencer
    {
      Node(resequencer.Model(), devices, timer, lifecycle, birthTimestamp, staleTimestamp, bdseq, lastRebirth,
           panicked, trace)
    }

    ghost predicate Valid()
      reads this, resequencer
    {
      resequencer.Valid()
    }

    constructor (cfg: Config)
      ensures Valid() && fresh(resequencer) && this.cfg == cfg && Model() == NewNode()
    {
      this.cfg := cfg;
      resequencer := new Resequencer();
      devices, timer, lifecycle := map[], false, Stale;
      birthTimestamp, staleTimestamp, bdseq, lastRebirth := 0, 0, 0, 0;
      panicked, trace := false, Nothing;
    }

    method Record(action: Action)
      modifies this`trace
      ensures trace == Then(old(trace), action)
    {
      trace := Then(trace, action);
    }

    method SetStale(timestamp: nat)
      requires Valid()
      modifies this, resequencer
      ensures Valid() && Model() == MadeStale(cfg, old(Model()), timestamp)
    {
      if lifecycle == Stale { return; }
      if timestamp < birthTimestamp { return; }
      resequencer.Reset();
      timer := false;
      lifecycle := Stale;
      staleTimestamp := timestamp;
      Record(WentStale(timestamp));
      if cfg.hasStore {
        Record(NodeStoreStale);
      }
      Record(DeviceStoresStale(WithStore(devices)));
      devices := AllStale(devices);
    }

    method EvalRebirth(reason: Reason, now: nat) returns (go: bool)
      requires Valid()
      modifies this`lastRebirth, this`panicked
      ensures Valid() && (Model(), go) == Evaluated(cfg, old(Model()), reason, now)
    {
      if !cfg.rebirth.Enabled(reason) { return false; }
      if now < lastRebirth {
        panicked := true;
        return false;
      }
      if now - lastRebirth < cfg.rebirth.cooldown { return false; }
      lastRebirth := now;
      return true;
    }

    method IssueRebirth(reason: Reason, clock: Clock)
      requires Valid()
      modifies this, resequencer
      ensures Valid() && Model() == Requested(cfg, old(Model()), reason, clock)
    {
      var go := EvalRebirth(reason, clock.now);
      if !go { return; }
      SetStale(clock.stamp);
      Record(RebirthRequested(clock.now, reason));
    }

    method HandleBirth(bdseq: U8, timestamp: nat, clock: Clock)
      requires Valid()
      modifies this, resequencer
      ensures Valid() && Model() == BirthHandled(cfg, old(Model()), bdseq, timestamp, clock)
    {
      if timestamp <= birthTimestamp { return; }
      if !(lifecycle == Birthed && this.bdseq == bdseq) {
        if cfg.hasStore {
          var ok := cfg.answers(trace) == Stored;
          Record(NodeStoreBirth(ok));
          if !ok {
            IssueRebirth(InvalidPayload, clock);
            return;
          }
        }
      }
      timer := false;
      birthTimestamp := timestamp;
      lifecycle := Birthed;
      this.bdseq := bdseq;
      resequencer.Reset();
      resequencer.SetNextSequence(1);
      Record(BirthAccepted(timestamp));
    }

    method HandleDeath(bdseq: U8, timestamp: nat, clock: Clock)
      requires Valid()
      modifies this, resequencer
      ensures Valid() && Model() == DeathHandled(cfg, old(Model()), bdseq, timestamp, clock)
    {
      timer := false;
      SetStale(timestamp);
      if bdseq != this.bdseq {
        IssueRebirth(OutOfSyncBdSeq, clock);
      }
    }

    method ProcessInSequenceMessage(m: Message) returns (refused: Option<Reason>)
      requires Valid()
      modifies this`devices, this`trace
      ensures Valid() && (Model(), refused) == HandedOver(cfg, old(Model()), m)
    {
      Record(Handed(m));
      match m.body {
        case NData(_) =>
          if cfg.hasStore {
            var ok := cfg.answers(trace) == Stored;
            Record(NodeStoreData(ok));
            return if ok then None else Some(InvalidPayload);
          }
        case DBirth(d, _) =>
          if d !in devices {
            devices := devices[d := Device(Stale, cfg.deviceHasStore(d))];
          }
          assert devices == old(devices)[d := devices[d]];
          if devices[d].hasStore {
            var ok := cfg.answers(trace) == Stored;
            Record(DeviceStoreBirth(d, ok));
            if !ok { return Some(InvalidPayload); }
          }
          devices := devices[d := devices[d].(lifecycle := Birthed)];
          assert devices == old(devices)[d := devices[d]];
        case DDeath(d) =>
          if d !in devices { return Some(UnknownDevice); }
          devices := devices[d := devices[d].(lifecycle := Stale)];
          if devices[d].hasStore {
            Record(DeviceStoresStale({d}));
          }
        case DData(d, _) =>
          if d !in devices { return Some(UnknownDevice); }
          if devices[d].lifecycle == Stale { return Some(RecordedStateStale); }
          if devices[d].hasStore {
            var answer := cfg.answers(trace);
            Record(DeviceStoreData(d, answer == Stored));
            match answer {
              case Stored =>
              case BadValue => return Some(InvalidPayload);
              case NoSuchMetric => return Some(UnknownMetric);
            }
          }
      }
      return None;
    }

    method DrainResequenceBuffer() returns (refused: Option<Reason>)
      requires Valid()
      modifies this`devices, this`trace, this`timer, resequencer
      ensures Valid() && (Model(), refused) == DrainHandled(cfg, old(Model()))
    {
      refused := None;
      while true
        invariant Valid()
        invariant DrainHandled(cfg, Model()) == DrainHandled(cfg, old(Model()))
        decreases |resequencer.buffer|
      {
        DrainedKeepsValid(resequencer.Model());
        var r := resequencer.Drain();
        match r
        case Message(m) =>
          var objection := ProcessInSequenceMessage(m);
          if objection.Some? { return objection; }
        case Empty =>
          timer := false;
          return None;
        case SequenceMissing => return None;
      }
    }

    method HandleResequencableMessage(timestamp: nat, m: Message) returns (refused: Option<Reason>)
      requires Valid()
      modifies this`devices, this`trace, this`timer, resequencer
      ensures Valid() && (Model(), refused) == SequencedHandled(cfg, old(Model()), timestamp, m)
    {
      if timestamp < birthTimestamp || timestamp < staleTimestamp { return None; }
      if lifecycle != Birthed { return Some(RecordedStateStale); }
      if !cfg.resequence {
        refused := ProcessInSequenceMessage(m);
        return;
      }
      var r := resequencer.Process(m.seqNumber, m);
      match r
      case MessageNextInSequence(next) =>
        refused := ProcessInSequenceMessage(next);
        if refused.Some? { return; }
        refused := DrainResequenceBuffer();
      case OutOfSequenceMessageInserted =>
        if !timer {
          timer := cfg.rebirth.reorderTimeout.Some?;
        }
        return None;
      case DuplicateMessageSequence => return Some(ReorderFail);
    }

    /** One turn of the task's loop. */
    method Handle(input: Input, clock: Clock)
      requires Valid()
      modifies this, resequencer
      ensures Valid() && Model() == Step(cfg, old(Model()), input, clock)
    {
      if panicked { return; }
      match input
      case NBirth(bdseq, timestamp) => HandleBirth(bdseq, timestamp, clock);
      case NDeath(bdseq, timestamp) => HandleDeath(bdseq, timestamp, clock);
      case Sequenced(timestamp, m) =>
        var refused := HandleResequencableMessage(timestamp, m);
        if refused.Some? {
          IssueRebirth(refused.value, clock);
        }
      case Undecodable => IssueRebirth(InvalidPayload, clock);
      case AppOffline(timestamp) => SetStale(timestamp);
      case RebirthWanted(reason) => IssueRebirth(reason, clock);
    }
  }
}
