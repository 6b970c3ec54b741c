/** The device registry of an edge node: names, and the ids found for them by probing from a hash. */
module DeviceIds {
  import opened Bounded
  import opened Options
  import opened FiniteSets
  import opened Probing

  const OBJECT_ID_NODE: nat := 0

  /** `Diverged` is where probing would never end, every id being taken. */
  datatype Registry = Registry(ids: set<nat>, devices: map<string, nat>) | Diverged

  function Taken(ids: set<nat>): set<nat> {
    ids + {OBJECT_ID_NODE}
  }

  function Added(hash: string -> U32, r: Registry, name: string): (Registry, Option<nat>) {
    if r.Diverged? || name in r.devices then (r, None)
    else if |Taken(r.ids)| >= TWO_TO_THE_32 then (Diverged, None)
    else
      var id := Probed(Taken(r.ids), TWO_TO_THE_32, hash(name));
      (Registry(r.ids + {id}, r.devices[name := id]), Some(id))
  }

  function Removed(r: Registry, name: string): Registry {
    if r.Diverged? || name !in r.devices then r
    else Registry(r.ids - {r.devices[name]}, r.devices - {name})
  }

  datatype Op = Add(name: string) | Remove(name: string)

  function Run(hash: string -> U32, ops: seq<Op>): Registry {
    if ops == [] then Registry({}, map[])
    else
      var r := Run(hash, ops[..|ops| - 1]);
      match ops[|ops| - 1]
      case Add(name) => Added(hash, r, name).0
      case Remove(name) => Removed(r, name)
  }

  ghost predicate Injective(m: map<string, nat>) {
    forall a, b :: a in m && b in m && m[a] == m[b] ==> a == b
  }

  /** Ids are what the devices have: never the node's own, each one device's alone, each 32 bits wide. */
  ghost predicate Consistent(r: Registry) {
    r.Registry? ==>
      && r.ids == r.devices.Values
      && Injective(r.devices)
      && forall id :: id in r.ids ==> 0 < id < TWO_TO_THE_32
  }

  lemma InsertedValues(m: map<string, nat>, name: string, id: nat)
    requires name !in m && Injective(m) && id !in m.Values
    ensures m[name := id].Values == m.Values + {id} && Injective(m[name := id])
  {
    var m' := m[name := id];
    assert name in m' && m'[name] == id;
    forall i | i in m.Values ensures i in m'.Values {
      var n :| n in m && m[n] == i;
      assert n in m' && m'[n] == i;
    }
  }

  lemma RemovedValues(m: map<string, nat>, name: string)
    requires name in m && Injective(m)
    ensures (m - {name}).Values == m.Values - {m[name]} && Injective(m - {name})
  {
    var m' := m - {name};
    forall i | i in m.Values && i != m[name] ensures i in m'.Values {
      var n :| n in m && m[n] == i;
      assert n in m' && m'[n] == i;
    }
  }

  lemma NewId(ids: set<nat>, h: U32)
    requires |Taken(ids)| < TWO_TO_THE_32
    ensures var id := Probed(Taken(ids), TWO_TO_THE_32, h); id !in ids && 0 < id < TWO_TO_THE_32
  {
    hide Probed;
    assert OBJECT_ID_NODE in Taken(ids);
  }

  lemma AddedKeeps(hash: string -> U32, r: Registry, name: string)
    requires Consistent(r)
    ensures Consistent(Added(hash, r, name).0)
  {
    hide Probed, Injective, Taken;
    if r.Registry? && name !in r.devices && |Taken(r.ids)| < TWO_TO_THE_32 {
      NewId(r.ids, hash(name));
      InsertedValues(r.devices, name, Probed(Taken(r.ids), TWO_TO_THE_32, hash(name)));
    }
  }

  lemma RemovedKeeps(r: Registry, name: string)
    requires Consistent(r)
    ensures Consistent(Removed(r, name))
  {
    if r.Registry? && name in r.devices {
      hide Injective;
      RemovedValues(r.devices, name);
    }
  }

  /** Over any run of additions and removals the ids stay those of the devices, distinct and not zero. */
  lemma {:induction false} IdsStayDistinct(hash: string -> U32, ops: seq<Op>)
    ensures Consistent(Run(hash, ops))
  {
    if ops != [] {
      IdsStayDistinct(hash, ops[..|ops| - 1]);
      var r := Run(hash, ops[..|ops| - 1]);
      match ops[|ops| - 1]
      case Add(name) => AddedKeeps(hash, r, name);
      case Remove(name) => RemovedKeeps(r, name);
    }
  }

  lemma {:induction false} ValuesAreCounted(m: map<string, nat>)
    requires Injective(m)
    ensures |m.Values| == |m|
    decreases |m.Keys|
  {
    if name :| name in m {
      var m' := m - {name};
      assert m'.Keys == m.Keys - {name};
      RemovedValues(m, name);
      hide Injective;
      ValuesAreCounted(m');
      assert m[name] in m.Values;
      assert |m'.Keys| == |m.Keys| - 1;
    } else {
      assert m == map[];
    }
  }

  lemma TakenSize(ids: set<nat>)
    requires forall id :: id in ids ==> 0 < id < TWO_TO_THE_32
    ensures |Taken(ids)| == |ids| + 1 <= TWO_TO_THE_32
  {
    hide Interval;
    assert OBJECT_ID_NODE !in ids;
    SubsetSize(Taken(ids), Interval(0, TWO_TO_THE_32));
  }

  ghost predicate HasDevice(hash: string -> U32, ops: seq<Op>, name: string) {
    Run(hash, ops).Registry? && name in Run(hash, ops).devices
  }

  ghost function IdOf(hash: string -> U32, ops: seq<Op>, name: string): (id: U32)
    requires HasDevice(hash, ops, name)
    ensures id == Run(hash, ops).devices[name] && id != OBJECT_ID_NODE
  {
    IdsStayDistinct(hash, ops);
    assert Run(hash, ops).devices[name] in Run(hash, ops).ids;
    Run(hash, ops).devices[name]
  }

  lemma IdsDiffer(hash: string -> U32, ops: seq<Op>, d: string, e: string)
    requires HasDevice(hash, ops, d) && HasDevice(hash, ops, e) && d != e
    ensures IdOf(hash, ops, d) != IdOf(hash, ops, e)
  {
    IdsStayDistinct(hash, ops);
  }

  /** Probing ends unless all 2^32 - 1 ids are in use. */
  lemma ProbingEnds(hash: string -> U32, ops: seq<Op>, name: string)
    requires Run(hash, ops).Registry?
    ensures var r := Run(hash, ops);
            |r.ids| == |r.devices| &&
              (Added(hash, r, name).0.Diverged? <==> name !in r.devices && |r.devices| == TWO_TO_THE_32 - 1)
  {
    IdsStayDistinct(hash, ops);
    var r := Run(hash, ops);
    hide Run, Injective, Taken, Probed;
    ValuesAreCounted(r.devices);
    TakenSize(r.ids);
  }

  /** The id is the first free one from the hash on, zero being the node's. */
  ghost predicate FirstFree(ids: set<nat>, start: nat, id: nat) {
    && id != OBJECT_ID_NODE && id !in ids
    && exists k: nat :: id == Candidate(TWO_TO_THE_32, start, k) &&
         forall j: nat :: j < k ==> Candidate(TWO_TO_THE_32, start, j) in ids + {OBJECT_ID_NODE}
  }

  /**
   Adding a device that is registered changes nothing; any other gets the first free id from its hash on.
   Removing one takes its name away and sets its id free. No other device is touched.
   */
  lemma DevicesChangeExactly(hash: string -> U32, ops: seq<Op>, name: string)
    requires Run(hash, ops).Registry?
    ensures var r, r' := Run(hash, ops), Run(hash, ops + [Add(name)]);
            if name in r.devices then r' == r
            else if r'.Registry? then
              && name in r'.devices && FirstFree(r.ids, hash(name), r'.devices[name])
              && r'.devices == r.devices[name := r'.devices[name]] && r'.ids == r.ids + {r'.devices[name]}
            else |r.devices| == TWO_TO_THE_32 - 1
    ensures var r, r' := Run(hash, ops), Run(hash, ops + [Remove(name)]);
            && r'.Registry? && r'.devices == r.devices - {name}
            && r'.ids == (if name in r.devices then r.ids - {r.devices[name]} else r.ids) && r'.ids == r'.devices.Values
  {
    var r := Run(hash, ops);
    assert (ops + [Add(name)])[..|ops|] == ops && (ops + [Remove(name)])[..|ops|] == ops;
    ProbingEnds(hash, ops, name);
    IdsStayDistinct(hash, ops + [Remove(name)]);
    assert name !in r.devices ==> r.devices - {name} == r.devices;
    hide Injective, Run;
    if name !in r.devices && |Taken(r.ids)| < TWO_TO_THE_32 {
      var k := Passed(Taken(r.ids), TWO_TO_THE_32, hash(name));
      assert Probed(Taken(r.ids), TWO_TO_THE_32, hash(name)) == Candidate(TWO_TO_THE_32, hash(name), k);
    }
    hide Passed, Candidate;
  }

  lemma FreeIdIsFound(ids: set<nat>, id: U32)
    requires (forall i :: i in ids ==> 0 < i < TWO_TO_THE_32) && id !in Taken(ids)
    ensures |Taken(ids)| < TWO_TO_THE_32 && Probed(Taken(ids), TWO_TO_THE_32, id) == id
  {
    hide Interval, Probed;
    SubsetSize(Taken(ids) + {id}, Interval(0, TWO_TO_THE_32));
    ModUnique(id, TWO_TO_THE_32, 0, id);
    assert Candidate(TWO_TO_THE_32, id, 0) == id;
    hide Candidate;
    ProbedIs(Taken(ids), TWO_TO_THE_32, id, 0);
  }

  lemma FreeIdIsAdded(hash: string -> U32, r: Registry, name: string)
    requires Consistent(r) && r.Registry? && name !in r.devices && hash(name) !in Taken(r.ids)
    ensures Added(hash, r, name).0 == Registry(r.ids + {hash(name)}, r.devices[name := hash(name)])
  {
    hide Injective, Probed;
    FreeIdIsFound(r.ids, hash(name));
    hide Taken;
  }

  /** A name whose hash is a free id gets that id, and no other device is touched. */
  lemma FreeIdIsGiven(hash: string -> U32, ops: seq<Op>, name: string)
    requires Run(hash, ops).Registry? && name !in Run(hash, ops).devices
    requires hash(name) !in Taken(Run(hash, ops).ids)
    ensures HasDevice(hash, ops + [Add(name)], name) && IdOf(hash, ops + [Add(name)], name) == hash(name)
    ensures forall d :: HasDevice(hash, ops, d) ==>
              HasDevice(hash, ops + [Add(name)], d) && IdOf(hash, ops + [Add(name)], d) == IdOf(hash, ops, d)
  {
    var r := Run(hash, ops);
    IdsStayDistinct(hash, ops);
    FreeIdIsAdded(hash, r, name);
    assert (ops + [Add(name)])[..|ops|] == ops;
    assert Run(hash, ops + [Add(name)]) == Added(hash, r, name).0;
    hide Added, Taken, Consistent, Run;
  }

  class DeviceMap {
    const hash: string -> U32
    var deviceIds: set<nat>
    var devices: map<string, nat>

    ghost function Model(): Registry
      reads this
    {
      Registry(deviceIds, devices)
    }

    constructor (hash: string -> U32)
      ensures this.hash == hash && Model() == Registry({}, map[])
    {
      this.hash, deviceIds, devices := hash, {}, map[];
    }

    /** Tries at most two candidates more than there are ids. */
    method GenerateDeviceId(name: string) returns (id: nat, tried: nat)
      requires |Taken(deviceIds)| < TWO_TO_THE_32
      modifies this`deviceIds
      ensures id == Probed(Taken(old(deviceIds)), TWO_TO_THE_32, hash(name))
      ensures deviceIds == old(deviceIds) + {id} && tried <= |old(deviceIds)| + 2
    {
      assert |Taken(deviceIds)| <= |deviceIds| + 1;
      id, tried := Probe(Taken(deviceIds), TWO_TO_THE_32, hash(name));
      deviceIds := deviceIds + {id};
    }

    /** Probes, which takes a free id, only for a name that is not registered. */
    method AddDevice(name: string) returns (id: Option<nat>)
      requires name !in devices ==> |Taken(deviceIds)| < TWO_TO_THE_32
      modifies this
      ensures (Model(), id) == Added(hash, old(Model()), name)
    {
      if name in devices { return None; }
      var i, _ := GenerateDeviceId(name);
      devices := devices[name := i];
      return Some(i);
    }

    method RemoveDevice(name: string)
      modifies this
      ensures Model() == Removed(old(Model()), name)
    {
      if name !in devices { return; }
      var id := devices[name];
      devices := devices - {name};
      deviceIds := deviceIds - {id};
    }
  }
}
