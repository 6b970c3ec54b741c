/**
 Registering the metrics of a birth, and the aliases generated for them: the object's id above, a hash
 of the metric's name below, and probing upwards when that is taken.
 */
module Aliases {
  import opened Bounded
  import opened Options
  import opened Probing
  import DeviceIds

  datatype AliasConfig = NoAlias | Generate | Custom(alias: U64)

  /** The alias a metric was given, and whether it was generated. */
  datatype Alias = Unaliased | Chosen(alias: nat) | Made(alias: nat)

  datatype BirthMetric = BirthMetric(name: string, alias: Alias)

  datatype BirthError = DuplicateMetric | AliasNotUnique | UnsupportedDatatype | ValueNotProvided | UnregisteredTemplate

  datatype Initializer = Initializer(id: U32, metrics: seq<BirthMetric>, names: set<string>, aliases: set<nat>)

  datatype Registration =
    | Definition(name: string)
    | Metric(name: string, config: AliasConfig, isTemplate: bool)
    | TemplateMetric(name: string, config: AliasConfig, hasValue: bool, definitionKnown: bool)

  function FirstAlias(id: U32, hash: U32): nat {
    id * TWO_TO_THE_32 + hash
  }

  function TokenCreated(
      hash: string -> U32, i: Initializer, name: string, config: AliasConfig): (q: (Initializer, Option<BirthError>))
    requires config.Generate? && name !in i.names ==> |i.aliases| < TWO_TO_THE_64
    ensures q.0.id == i.id && |q.0.aliases| <= |i.aliases| + 1
  {
    if name in i.names then (i, Some(DuplicateMetric))
    else
      var named := i.(names := i.names + {name});
      match config
      case NoAlias => (named.(metrics := i.metrics + [BirthMetric(name, Unaliased)]), None)
      case Generate =>
        var a := Probed(i.aliases, TWO_TO_THE_64, FirstAlias(i.id, hash(name)));
        (named.(aliases := i.aliases + {a}, metrics := i.metrics + [BirthMetric(name, Made(a))]), None)
      case Custom(a) =>
        if a in i.aliases then (i, Some(AliasNotUnique))
        else (named.(metrics := i.metrics + [BirthMetric(name, Chosen(a))]), None)
  }

  /** Whether a registration comes to look for a free alias. */
  predicate Probes(i: Initializer, r: Registration) {
    match r
    case Definition(_) => false
    case Metric(name, config, isTemplate) => !isTemplate && config.Generate? && name !in i.names
    case TemplateMetric(name, config, hasValue, definitionKnown) =>
      hasValue && definitionKnown && config.Generate? && name !in i.names
  }

  function Registered(hash: string -> U32, i: Initializer, r: Registration): (q: (Initializer, Option<BirthError>))
    requires Probes(i, r) ==> |i.aliases| < TWO_TO_THE_64
    ensures q.0.id == i.id && |q.0.aliases| <= |i.aliases| + 1
  {
    match r
    case Definition(name) =>
      if name in i.names then (i, Some(DuplicateMetric))
      else (i.(names := i.names + {name}, metrics := i.metrics + [BirthMetric(name, Unaliased)]), None)
    case Metric(name, config, isTemplate) =>
      if isTemplate then (i, Some(UnsupportedDatatype)) else TokenCreated(hash, i, name, config)
    case TemplateMetric(name, config, hasValue, definitionKnown) =>
      if !hasValue then (i, Some(ValueNotProvided))
      else if !definitionKnown then (i, Some(UnregisteredTemplate))
      else TokenCreated(hash, i, name, config)
  }

  function Run(hash: string -> U32, id: U32, rs: seq<Registration>): (i: Initializer)
    requires |rs| < TWO_TO_THE_64
    ensures |i.aliases| <= |rs| && i.id == id
  {
    if rs == [] then Initializer(id, [], {}, {})
    else Registered(hash, Run(hash, id, rs[..|rs| - 1]), rs[|rs| - 1]).0
  }

  /** The generated aliases, in order, and the hashes they were generated from. */
  function MadeAliases(metrics: seq<BirthMetric>): seq<nat> {
    if metrics == [] then []
    else
      var m := metrics[|metrics| - 1];
      MadeAliases(metrics[..|metrics| - 1]) + if m.alias.Made? then [m.alias.alias] else []
  }

  function MadeHashes(hash: string -> U32, metrics: seq<BirthMetric>): (hs: seq<nat>)
    ensures |hs| == |MadeAliases(metrics)| && forall j :: 0 <= j < |hs| ==> hs[j] < TWO_TO_THE_32
  {
    if metrics == [] then []
    else
      var m := metrics[|metrics| - 1];
      MadeHashes(hash, metrics[..|metrics| - 1]) + if m.alias.Made? then [hash(m.name)] else []
  }

  /** The reference: one probe per hash. */
  function Aliased(id: U32, hs: seq<nat>): (as_: seq<nat>)
    requires |hs| < TWO_TO_THE_64 && forall j :: 0 <= j < |hs| ==> hs[j] < TWO_TO_THE_32
    ensures |as_| == |hs|
  {
    if hs == [] then []
    else
      var before := Aliased(id, hs[..|hs| - 1]);
      ElementsSize(before);
      before + [Probed(Elements(before), TWO_TO_THE_64, FirstAlias(id, hs[|hs| - 1]))]
  }

  lemma {:induction false} ElementsSize(s: seq<nat>)
    ensures |Elements(s)| <= |s|
  {
    if s != [] {
      ElementsSize(s[..|s| - 1]);
      assert s == s[..|s| - 1] + [s[|s| - 1]];
      assert Elements(s) == Elements(s[..|s| - 1]) + {s[|s| - 1]};
    }
  }

  ghost predicate DistinctNames(metrics: seq<BirthMetric>) {
    forall j, k :: 0 <= j < k < |metrics| ==> metrics[j].name != metrics[k].name
  }

  ghost function NamesOf(metrics: seq<BirthMetric>): set<string> {
    set m | m in metrics :: m.name
  }

  lemma NamesSnoc(metrics: seq<BirthMetric>, m: BirthMetric)
    requires DistinctNames(metrics) && m.name !in NamesOf(metrics)
    ensures NamesOf(metrics + [m]) == NamesOf(metrics) + {m.name} && DistinctNames(metrics + [m])
  {
    assert forall x :: x in metrics + [m] <==> x in metrics || x == m;
    assert forall x :: x in metrics ==> x.name in NamesOf(metrics);
    forall j, k | 0 <= j < k < |metrics + [m]| ensures (metrics + [m])[j].name != (metrics + [m])[k].name {
      assert (metrics + [m])[j] in metrics;
    }
  }

  lemma MadeSnoc(hash: string -> U32, metrics: seq<BirthMetric>, m: BirthMetric)
    ensures MadeAliases(metrics + [m]) == MadeAliases(metrics) + if m.alias.Made? then [m.alias.alias] else []
    ensures MadeHashes(hash, metrics + [m]) == MadeHashes(hash, metrics) + if m.alias.Made? then [hash(m.name)] else []
  {
    assert (metrics + [m])[..|metrics|] == metrics;
  }

  lemma AliasedSnoc(id: U32, hs: seq<nat>, h: U32)
    requires |hs| + 1 < TWO_TO_THE_64 && forall j :: 0 <= j < |hs| ==> hs[j] < TWO_TO_THE_32
    ensures |Elements(Aliased(id, hs))| < TWO_TO_THE_64
    ensures Aliased(id, hs + [h]) ==
              Aliased(id, hs) + [Probed(Elements(Aliased(id, hs)), TWO_TO_THE_64, FirstAlias(id, h))]
  {
    assert (hs + [h])[..|hs|] == hs;
    ElementsSize(Aliased(id, hs));
  }

  lemma ElementsSnoc(s: seq<nat>, x: nat)
    ensures Elements(s + [x]) == Elements(s) + {x}
  {
  }

  /** The names are the metrics' own. */
  ghost predicate NamesKept(i: Initializer) {
    i.names == NamesOf(i.metrics) && DistinctNames(i.metrics)
  }

  /** The aliases recorded are the generated ones, and those are what probing makes of the hashes. */
  ghost predicate AliasesKept(hash: string -> U32, i: Initializer) {
    && i.aliases == Elements(MadeAliases(i.metrics))
    && |MadeAliases(i.metrics)| < TWO_TO_THE_64
    && MadeAliases(i.metrics) == Aliased(i.id, MadeHashes(hash, i.metrics))
  }

  /** One more metric. */
  lemma OneMore(hash: string -> U32, i: Initializer, m: BirthMetric)
    requires AliasesKept(hash, i) && |MadeAliases(i.metrics)| + 1 < TWO_TO_THE_64 && |i.aliases| < TWO_TO_THE_64
    requires m.alias.Made? ==> m.alias.alias == Probed(i.aliases, TWO_TO_THE_64, FirstAlias(i.id, hash(m.name)))
    ensures var made := if m.alias.Made? then {m.alias.alias} else {};
            AliasesKept(hash, i.(metrics := i.metrics + [m], names := i.names + {m.name}, aliases := i.aliases + made))
  {
    MadeSnoc(hash, i.metrics, m);
    hide MadeAliases, MadeHashes, Aliased, Probed, Elements;
    if m.alias.Made? {
      AliasedSnoc(i.id, MadeHashes(hash, i.metrics), hash(m.name));
      ElementsSnoc(MadeAliases(i.metrics), m.alias.alias);
    } else {
      assert MadeAliases(i.metrics) + [] == MadeAliases(i.metrics) &&
        MadeHashes(hash, i.metrics) + [] == MadeHashes(hash, i.metrics);
      assert i.aliases + {} == i.aliases;
    }
  }

  lemma TokenKeeps(hash: string -> U32, i: Initializer, name: string, config: AliasConfig)
    requires NamesKept(i) && AliasesKept(hash, i)
    requires |MadeAliases(i.metrics)| + 1 < TWO_TO_THE_64 && |i.aliases| < TWO_TO_THE_64
    ensures var i' := TokenCreated(hash, i, name, config).0;
            NamesKept(i') && AliasesKept(hash, i') && |MadeAliases(i'.metrics)| <= |MadeAliases(i.metrics)| + 1
  {
    var (i', e) := TokenCreated(hash, i, name, config);
    if e.None? {
      var m := i'.metrics[|i.metrics|];
      assert i'.metrics == i.metrics + [m] && m.name == name;
      NamesSnoc(i.metrics, m);
      OneMore(hash, i, m);
      MadeSnoc(hash, i.metrics, m);
      hide AliasesKept, NamesOf, DistinctNames, MadeAliases;
    }
  }

  lemma RegisteredKeeps(hash: string -> U32, i: Initializer, r: Registration)
    requires NamesKept(i) && AliasesKept(hash, i)
    requires |MadeAliases(i.metrics)| + 1 < TWO_TO_THE_64 && |i.aliases| < TWO_TO_THE_64
    ensures var i' := Registered(hash, i, r).0;
            NamesKept(i') && AliasesKept(hash, i') && |MadeAliases(i'.metrics)| <= |MadeAliases(i.metrics)| + 1
  {
    if r.Definition? {
      assert Registered(hash, i, r) == TokenCreated(hash, i, r.name, NoAlias);
      TokenKeeps(hash, i, r.name, NoAlias);
    } else {
      TokenKeeps(hash, i, r.name, r.config);
    }
    hide NamesKept, AliasesKept, TokenCreated, MadeAliases;
  }

  lemma {:induction false} RunKeeps(hash: string -> U32, id: U32, rs: seq<Registration>)
    requires |rs| < TWO_TO_THE_64
    ensures var i := Run(hash, id, rs); NamesKept(i) && AliasesKept(hash, i) && |MadeAliases(i.metrics)| <= |rs|
  {
    if rs != [] {
      var before := rs[..|rs| - 1];
      RunKeeps(hash, id, before);
      hide NamesKept, AliasesKept, Registered, MadeAliases;
      RegisteredKeeps(hash, Run(hash, id, before), rs[|rs| - 1]);
    } else {
      assert NamesOf([]) == {} && Elements([]) == {};
    }
  }

  /** Names are unique within a birth. */
  lemma BirthNamesAreDistinct(hash: string -> U32, id: U32, rs: seq<Registration>)
    requires |rs| < TWO_TO_THE_64
    ensures DistinctNames(Run(hash, id, rs).metrics)
  {
    RunKeeps(hash, id, rs);
  }

  ghost predicate HasName(metrics: seq<BirthMetric>, name: string) {
    exists m :: m in metrics && m.name == name
  }

  lemma NamesAreHad(metrics: seq<BirthMetric>, name: string)
    ensures name in NamesOf(metrics) <==> HasName(metrics, name)
  {
  }

  /** The error of a registration, if any: what is wrong with it by itself first, then its name, then its alias. */
  ghost function RegistrationError(i: Initializer, r: Registration): Option<BirthError> {
    if r.Metric? && r.isTemplate then Some(UnsupportedDatatype)
    else if r.TemplateMetric? && !r.hasValue then Some(ValueNotProvided)
    else if r.TemplateMetric? && !r.definitionKnown then Some(UnregisteredTemplate)
    else if HasName(i.metrics, r.name) then Some(DuplicateMetric)
    else if !r.Definition? && r.config.Custom? && r.config.alias in Elements(MadeAliases(i.metrics)) then
      Some(AliasNotUnique)
    else None
  }

  /** One metric more, with the alias its setting says: none, the chosen one, or what probing makes of one more hash. */
  ghost predicate OneMetricMore(hash: string -> U32, i: Initializer, i': Initializer, r: Registration) {
    && |i'.metrics| == |i.metrics| + 1
    && var m := i'.metrics[|i.metrics|];
       && i'.metrics == i.metrics + [m] && m.name == r.name
       && if r.Definition? || r.config.NoAlias? then m.alias.Unaliased?
          else if r.config.Custom? then m.alias == Chosen(r.config.alias)
          else
            && m.alias.Made?
            && MadeAliases(i'.metrics) == MadeAliases(i.metrics) + [m.alias.alias]
            && MadeHashes(hash, i'.metrics) == MadeHashes(hash, i.metrics) + [hash(r.name)]
  }

  lemma MetricMore(hash: string -> U32, i: Initializer, i': Initializer, r: Registration, m: BirthMetric)
    requires i'.metrics == i.metrics + [m] && m.name == r.name
    requires SettingOf(if r.Definition? then NoAlias else r.config, m.alias)
    ensures OneMetricMore(hash, i, i', r)
  {
    MadeSnoc(hash, i.metrics, m);
    hide MadeAliases, MadeHashes;
  }

  ghost predicate SettingOf(config: AliasConfig, alias: Alias) {
    match config
    case NoAlias => alias.Unaliased?
    case Custom(a) => alias == Chosen(a)
    case Generate => alias.Made?
  }

  lemma TokenExactly(hash: string -> U32, i: Initializer, name: string, config: AliasConfig)
    requires config.Generate? && name !in i.names ==> |i.aliases| < TWO_TO_THE_64
    ensures var (i', error) := TokenCreated(hash, i, name, config);
            && error == (if name in i.names then Some(DuplicateMetric)
                         else if config.Custom? && config.alias in i.aliases then Some(AliasNotUnique)
                         else None)
            && if error.Some? then i' == i
               else |i'.metrics| == |i.metrics| + 1 &&
                    var m := i'.metrics[|i.metrics|];
                    i'.metrics == i.metrics + [m] && m.name == name && SettingOf(config, m.alias)
  {
    hide Probed, FirstAlias;
  }

  lemma RegisteredExactly(hash: string -> U32, i: Initializer, r: Registration)
    requires i.names == NamesOf(i.metrics) && i.aliases == Elements(MadeAliases(i.metrics))
    requires |i.aliases| < TWO_TO_THE_64
    ensures var (i', error) := Registered(hash, i, r);
            && error == RegistrationError(i, r)
            && if error.Some? then i' == i else OneMetricMore(hash, i, i', r)
  {
    hide NamesOf, HasName, MadeAliases, MadeHashes, Elements, OneMetricMore, TokenCreated;
    NamesAreHad(i.metrics, r.name);
    if r.Definition? {
      DefinedExactly(hash, i, r);
    } else {
      TokenExactly(hash, i, r.name, r.config);
      var (i', error) := TokenCreated(hash, i, r.name, r.config);
      if error.None? {
        MetricMore(hash, i, i', r, i'.metrics[|i.metrics|]);
      }
    }
  }

  lemma DefinedExactly(hash: string -> U32, i: Initializer, r: Registration)
    requires r.Definition?
    ensures var (i', error) := Registered(hash, i, r);
            if r.name in i.names then i' == i && error == Some(DuplicateMetric)
            else error.None? && OneMetricMore(hash, i, i', r)
  {
    if r.name !in i.names {
      var m := BirthMetric(r.name, Unaliased);
      MetricMore(hash, i, i.(names := i.names + {r.name}, metrics := i.metrics + [m]), r, m);
      hide OneMetricMore;
    }
  }

  /**
   A registration has exactly that error, and then changes nothing; otherwise one metric more is in the
   birth, with the alias its setting says.
   */
  lemma RegistrationsEndExactly(hash: string -> U32, id: U32, rs: seq<Registration>, r: Registration)
    requires |rs| + 1 < TWO_TO_THE_64
    ensures var i, i' := Run(hash, id, rs), Run(hash, id, rs + [r]);
            && Registered(hash, i, r) == (i', RegistrationError(i, r))
            && if RegistrationError(i, r).Some? then i' == i else OneMetricMore(hash, i, i', r)
  {
    RunKeeps(hash, id, rs);
    RunOn(hash, id, rs, r);
    var i := Run(hash, id, rs);
    assert i.names == NamesOf(i.metrics) && i.aliases == Elements(MadeAliases(i.metrics));
    hide *;
    RegisteredExactly(hash, i, r);
  }

  // Where generated aliases lie

  /** The object's own block of 2^32 aliases. */
  predicate InBlock(id: U32, a: nat) {
    FirstAlias(id, 0) <= a < FirstAlias(id, 0) + TWO_TO_THE_32
  }

  ghost predicate AllInBlock(id: U32, as_: seq<nat>) {
    forall j :: 0 <= j < |as_| ==> InBlock(id, as_[j])
  }

  function Placed(base: nat, cs: seq<nat>): seq<nat> {
    seq(|cs|, j requires 0 <= j < |cs| => base + cs[j])
  }

  lemma PlacedHas(base: nat, cs: seq<nat>, x: nat)
    ensures x in Elements(Placed(base, cs)) <==> x >= base && x - base in Elements(cs)
  {
    if x >= base && x - base in cs {
      var j :| 0 <= j < |cs| && cs[j] == x - base;
      assert Placed(base, cs)[j] == x;
    }
  }

  /** Up to the end of the block, a candidate is the next number. */
  lemma CandidateInBlock(id: U32, h: U32, k: nat)
    requires h + k <= TWO_TO_THE_32
    ensures Candidate(TWO_TO_THE_64, FirstAlias(id, h), k) == (FirstAlias(id, 0) + h + k) % TWO_TO_THE_64
    ensures h + k < TWO_TO_THE_32 ==> Candidate(TWO_TO_THE_64, FirstAlias(id, h), k) == FirstAlias(id, 0) + h + k
  {
    if h + k < TWO_TO_THE_32 {
      ModUnique(FirstAlias(id, 0) + h + k, TWO_TO_THE_64, 0, FirstAlias(id, 0) + h + k);
    }
  }

  /** The first free place from `h`, or the end of the block. */
  ghost function RunEnd(cs: seq<nat>, h: U32): (end: nat)
    requires forall j :: 0 <= j < |cs| ==> cs[j] < TWO_TO_THE_32
    ensures h <= end <= TWO_TO_THE_32 && end !in Elements(cs)
    ensures forall x :: h <= x < end ==> x in Elements(cs)
    ensures var c := Parked(Elements(cs), TWO_TO_THE_32, h);
            if c.Some? then c.value == end < TWO_TO_THE_32 else end == TWO_TO_THE_32
  {
    var c := Parked(Elements(cs), TWO_TO_THE_32, h);
    if c.Some? then c.value else TWO_TO_THE_32
  }

  lemma EndIsFree(id: U32, cs: seq<nat>, end: nat)
    requires forall j :: 0 <= j < |cs| ==> cs[j] < TWO_TO_THE_32
    requires end <= TWO_TO_THE_32 && end !in Elements(cs)
    ensures (FirstAlias(id, 0) + end) % TWO_TO_THE_64 !in Elements(Placed(FirstAlias(id, 0), cs))
  {
    var base := FirstAlias(id, 0);
    if end < TWO_TO_THE_32 {
      ModUnique(base + end, TWO_TO_THE_64, 0, base + end);
    } else {
      NextBlock(id);
    }
    PlacedHas(base, cs, (base + end) % TWO_TO_THE_64);
  }

  lemma CandidatesTaken(id: U32, cs: seq<nat>, h: U32, taken: set<nat>, j: nat)
    requires (forall i :: 0 <= i < |cs| ==> cs[i] < TWO_TO_THE_32) && j < RunEnd(cs, h) - h
    requires taken == Elements(Placed(FirstAlias(id, 0), cs))
    ensures Candidate(TWO_TO_THE_64, FirstAlias(id, h), j) in taken
  {
    assert h + j in Elements(cs);
    hide *;
    CandidateInBlock(id, h, j);
    PlacedHas(FirstAlias(id, 0), cs, FirstAlias(id, 0) + h + j);
  }

  /** While everything taken lies in the block, probing finds the first free place in it, or the number after it. */
  lemma ProbedIsParked(id: U32, cs: seq<nat>, h: U32, taken: set<nat>)
    requires forall j :: 0 <= j < |cs| ==> cs[j] < TWO_TO_THE_32
    requires taken == Elements(Placed(FirstAlias(id, 0), cs)) && |taken| < TWO_TO_THE_64
    ensures Probed(taken, TWO_TO_THE_64, FirstAlias(id, h)) == (FirstAlias(id, 0) + RunEnd(cs, h)) % TWO_TO_THE_64
  {
    var k := RunEnd(cs, h) - h;
    hide *;
    forall j: nat | j < k ensures Candidate(TWO_TO_THE_64, FirstAlias(id, h), j) in taken {
      CandidatesTaken(id, cs, h, taken, j);
    }
    CandidateInBlock(id, h, k);
    EndIsFree(id, cs, h + k);
    ProbedIs(taken, TWO_TO_THE_64, FirstAlias(id, h), k);
  }

  /** Generated aliases stay in the object's block exactly as long as parking succeeds, and are then its places. */
  lemma {:induction false} AliasedIsParked(id: U32, hs: seq<nat>)
    requires |hs| < TWO_TO_THE_64 && forall j :: 0 <= j < |hs| ==> hs[j] < TWO_TO_THE_32
    ensures var cs := AllParked(TWO_TO_THE_32, hs);
            if cs.Some? then Aliased(id, hs) == Placed(FirstAlias(id, 0), cs.value)
            else !AllInBlock(id, Aliased(id, hs))
  {
    if hs != [] {
      var before, h := hs[..|hs| - 1], hs[|hs| - 1];
      AliasedIsParked(id, before);
      var cs := AllParked(TWO_TO_THE_32, before);
      var as_ := Aliased(id, before);
      ElementsSize(as_);
      assert Aliased(id, hs) == as_ + [Probed(Elements(as_), TWO_TO_THE_64, FirstAlias(id, h))];
      hide Probed, Aliased, Placed, FirstAlias, InBlock, Parked;
      if cs.None? {
        StaysOut(id, as_, Probed(Elements(as_), TWO_TO_THE_64, FirstAlias(id, h)));
      } else {
        ParkingIsWell(TWO_TO_THE_32, before);
        ParkOneMore(id, cs.value, h, as_, Probed(Elements(as_), TWO_TO_THE_64, FirstAlias(id, h)));
      }
    }
  }

  lemma StaysOut(id: U32, as_: seq<nat>, a: nat)
    requires !AllInBlock(id, as_)
    ensures !AllInBlock(id, as_ + [a])
  {
    var j :| 0 <= j < |as_| && !InBlock(id, as_[j]);
    assert (as_ + [a])[j] == as_[j];
  }

  lemma ParkOneMore(id: U32, cs: seq<nat>, h: U32, as_: seq<nat>, a: nat)
    requires forall j :: 0 <= j < |cs| ==> cs[j] < TWO_TO_THE_32
    requires as_ == Placed(FirstAlias(id, 0), cs) && |Elements(as_)| < TWO_TO_THE_64
    requires a == Probed(Elements(as_), TWO_TO_THE_64, FirstAlias(id, h))
    ensures var c := Parked(Elements(cs), TWO_TO_THE_32, h);
            if c.Some? then as_ + [a] == Placed(FirstAlias(id, 0), cs + [c.value]) else !AllInBlock(id, as_ + [a])
  {
    hide *;
    ProbedIsParked(id, cs, h, Elements(as_));
    NextBlock(id);
    var end := RunEnd(cs, h);
    EndInBlock(id, end);
    PlacedSnoc(FirstAlias(id, 0), cs, end);
    if Parked(Elements(cs), TWO_TO_THE_32, h).None? {
      LeavesBlock(id, as_, a);
    }
  }

  lemma EndInBlock(id: U32, end: nat)
    ensures end < TWO_TO_THE_32 ==> (FirstAlias(id, 0) + end) % TWO_TO_THE_64 == FirstAlias(id, 0) + end
  {
    if end < TWO_TO_THE_32 {
      ModUnique(FirstAlias(id, 0) + end, TWO_TO_THE_64, 0, FirstAlias(id, 0) + end);
    }
  }

  lemma PlacedSnoc(base: nat, cs: seq<nat>, c: nat)
    ensures Placed(base, cs + [c]) == Placed(base, cs) + [base + c]
  {
  }

  lemma LeavesBlock(id: U32, as_: seq<nat>, a: nat)
    requires !InBlock(id, a)
    ensures !AllInBlock(id, as_ + [a])
  {
    assert (as_ + [a])[|as_|] == a;
  }

  lemma NextBlock(id: U32)
    ensures !InBlock(id, (FirstAlias(id, 0) + TWO_TO_THE_32) % TWO_TO_THE_64)
  {
    var next := FirstAlias(id, 0) + TWO_TO_THE_32;
    if next < TWO_TO_THE_64 {
      ModUnique(next, TWO_TO_THE_64, 0, next);
    } else {
      ModUnique(next, TWO_TO_THE_64, 1, 0);
    }
  }

  ghost predicate AllHashes(hs: seq<nat>) {
    |hs| < TWO_TO_THE_64 && forall j :: 0 <= j < |hs| ==> hs[j] < TWO_TO_THE_32
  }

  lemma InBlockExactly(id: U32, hs: seq<nat>)
    requires AllHashes(hs)
    ensures AllInBlock(id, Aliased(id, hs)) <==> Roomy(TWO_TO_THE_32, hs)
  {
    ParkingTheorem(TWO_TO_THE_32, hs);
    AliasedIsParked(id, hs);
    if AllParked(TWO_TO_THE_32, hs).Some? {
      ParkingIsWell(TWO_TO_THE_32, hs);
    }
    hide Roomy, Aliased;
  }

  /**
   Generated aliases stay in their object's block of 2^32 exactly when, for every number, no more of the
   hashes lie at or above it than there are places from there to the end of the block.
   */
  lemma StayInBlockExactly(hash: string -> U32, id: U32, rs: seq<Registration>)
    requires |rs| < TWO_TO_THE_64
    ensures var metrics := Run(hash, id, rs).metrics;
            AllInBlock(id, MadeAliases(metrics)) <==> Roomy(TWO_TO_THE_32, MadeHashes(hash, metrics))
  {
    RunKeeps(hash, id, rs);
    hide Roomy, Run, MadeAliases, MadeHashes, Aliased;
    InBlockExactly(id, MadeHashes(hash, Run(hash, id, rs).metrics));
  }

  ghost predicate Distinct(s: seq<nat>) {
    forall j, k :: 0 <= j < k < |s| ==> s[j] != s[k]
  }

  lemma DistinctSnoc(s: seq<nat>, x: nat)
    requires Distinct(s) && x !in Elements(s)
    ensures Distinct(s + [x])
  {
    assert x !in s;
  }

  lemma {:induction false} AliasedAreDistinct(id: U32, hs: seq<nat>)
    requires |hs| < TWO_TO_THE_64 && forall j :: 0 <= j < |hs| ==> hs[j] < TWO_TO_THE_32
    ensures Distinct(Aliased(id, hs))
  {
    if hs != [] {
      var before := hs[..|hs| - 1];
      AliasedAreDistinct(id, before);
      ElementsSize(Aliased(id, before));
      hide Probed, Distinct, Elements;
      DistinctSnoc(
        Aliased(id, before), Probed(Elements(Aliased(id, before)), TWO_TO_THE_64, FirstAlias(id, hs[|hs| - 1])));
    }
  }

  /** Within one object generated aliases are always distinct. */
  lemma GeneratedAreDistinct(hash: string -> U32, id: U32, rs: seq<Registration>)
    requires |rs| < TWO_TO_THE_64
    ensures Distinct(MadeAliases(Run(hash, id, rs).metrics))
  {
    RunKeeps(hash, id, rs);
    hide Run, MadeAliases, MadeHashes, Aliased;
    AliasedAreDistinct(id, MadeHashes(hash, Run(hash, id, rs).metrics));
  }

  // Aliases of different objects

  lemma BlocksAreApart(id: U32, id': U32)
    requires id != id'
    ensures forall a: nat :: !(InBlock(id, a) && InBlock(id', a))
  {
  }

  lemma RoomyAreApart(id: U32, hs: seq<nat>, id': U32, hs': seq<nat>)
    requires AllHashes(hs) && AllHashes(hs') && id != id' && Roomy(TWO_TO_THE_32, hs) && Roomy(TWO_TO_THE_32, hs')
    ensures Elements(Aliased(id, hs)) !! Elements(Aliased(id', hs'))
  {
    InBlockExactly(id, hs);
    InBlockExactly(id', hs');
    BlocksAreApart(id, id');
    hide InBlock, Aliased, Roomy;
  }

  lemma {:induction false} AliasedAreBounded(id: U32, hs: seq<nat>)
    requires AllHashes(hs)
    ensures forall j :: 0 <= j < |hs| ==> Aliased(id, hs)[j] < TWO_TO_THE_64
  {
    if hs != [] {
      AliasedAreBounded(id, hs[..|hs| - 1]);
    }
  }

  lemma OneHasRoom(h: U32)
    ensures Roomy(TWO_TO_THE_32, [h])
  {
    assert [h][..0] == [];
  }

  lemma OneAliased(id: U32, h: U32)
    ensures AllHashes([h]) && Aliased(id, [h]) == [FirstAlias(id, h)] && FirstAlias(id, h) < TWO_TO_THE_64
  {
    assert Elements(Aliased(id, [])) == {};
    FirstIsFree({}, FirstAlias(id, h));
    AliasedSnoc(id, [], h);
    assert [] + [h] == [h];
  }

  lemma SplitAlias(id: U32, a: nat) returns (id': U32, h: U32)
    requires a < TWO_TO_THE_64 && !InBlock(id, a)
    ensures id' != id && a == FirstAlias(id', h)
  {
    id', h := a / TWO_TO_THE_32, a % TWO_TO_THE_32;
  }

  /** Without room, some alias is the first choice of another object for some hash. */
  lemma CrowdedTakesAnothersAlias(id: U32, hs: seq<nat>) returns (id': U32, h: U32)
    requires AllHashes(hs) && !Roomy(TWO_TO_THE_32, hs)
    ensures id' != id && AllHashes([h]) && Roomy(TWO_TO_THE_32, [h]) && Aliased(id', [h]) == [FirstAlias(id', h)]
    ensures FirstAlias(id', h) in Elements(Aliased(id, hs))
  {
    InBlockExactly(id, hs);
    var j :| 0 <= j < |Aliased(id, hs)| && !InBlock(id, Aliased(id, hs)[j]);
    AliasedAreBounded(id, hs);
    id', h := SplitAlias(id, Aliased(id, hs)[j]);
    hide InBlock, Aliased, Roomy, FirstAlias;
    OneHasRoom(h);
    OneAliased(id', h);
  }

  /**
   An object's generated aliases differ from those of every other object that has room for its own, if and
   only if it has room for its own.
   */
  lemma ApartExactly(id: U32, hs: seq<nat>)
    requires AllHashes(hs)
    ensures Roomy(TWO_TO_THE_32, hs) <==>
              forall id': U32, hs' :: id' != id && AllHashes(hs') && Roomy(TWO_TO_THE_32, hs') ==>
                Elements(Aliased(id, hs)) !! Elements(Aliased(id', hs'))
  {
    if Roomy(TWO_TO_THE_32, hs) {
      forall id': U32, hs' | id' != id && AllHashes(hs') && Roomy(TWO_TO_THE_32, hs')
        ensures Elements(Aliased(id, hs)) !! Elements(Aliased(id', hs'))
      {
        RoomyAreApart(id, hs, id', hs');
      }
    } else {
      var id', h := CrowdedTakesAnothersAlias(id, hs);
      assert FirstAlias(id', h) in Elements(Aliased(id', [h]));
    }
  }

  /** The aliases generated in the birth of an object. */
  ghost function Generated(hash: string -> U32, id: U32, rs: seq<Registration>): set<nat>
    requires |rs| < TWO_TO_THE_64
  {
    Elements(MadeAliases(Run(hash, id, rs).metrics))
  }

  ghost predicate HasRoom(hash: string -> U32, id: U32, rs: seq<Registration>)
    requires |rs| < TWO_TO_THE_64
  {
    Roomy(TWO_TO_THE_32, MadeHashes(hash, Run(hash, id, rs).metrics))
  }

  lemma GeneratedIsAliased(hash: string -> U32, id: U32, rs: seq<Registration>)
    requires |rs| < TWO_TO_THE_64
    ensures var hs := MadeHashes(hash, Run(hash, id, rs).metrics);
            AllHashes(hs) && Generated(hash, id, rs) == Elements(Aliased(id, hs))
  {
    RunKeeps(hash, id, rs);
  }

  /** Across objects they are distinct too, as long as both have room. */
  lemma GeneratedDifferAcrossObjects(
      hash: string -> U32, id: U32, rs: seq<Registration>, id': U32, rs': seq<Registration>)
    requires |rs| < TWO_TO_THE_64 && |rs'| < TWO_TO_THE_64 && id != id'
    requires HasRoom(hash, id, rs) && HasRoom(hash, id', rs')
    ensures Generated(hash, id, rs) !! Generated(hash, id', rs')
  {
    GeneratedIsAliased(hash, id, rs);
    GeneratedIsAliased(hash, id', rs');
    hide Generated, Run, MadeHashes, Roomy, AllHashes, Elements, Aliased;
    RoomyAreApart(id, MadeHashes(hash, Run(hash, id, rs).metrics), id', MadeHashes(hash, Run(hash, id', rs').metrics));
  }

  // Aliases of a node and its devices

  datatype Holder = TheNode | TheDevice(name: string)

  ghost predicate Present(hash: string -> U32, ops: seq<DeviceIds.Op>, o: Holder) {
    o.TheDevice? ==> DeviceIds.HasDevice(hash, ops, o.name)
  }

  ghost function HolderId(hash: string -> U32, ops: seq<DeviceIds.Op>, o: Holder): U32
    requires Present(hash, ops, o)
  {
    if o.TheNode? then DeviceIds.OBJECT_ID_NODE else DeviceIds.IdOf(hash, ops, o.name)
  }

  lemma HoldersDiffer(hash: string -> U32, ops: seq<DeviceIds.Op>, o: Holder, o': Holder)
    requires Present(hash, ops, o) && Present(hash, ops, o') && o != o'
    ensures HolderId(hash, ops, o) != HolderId(hash, ops, o')
  {
    if o.TheDevice? && o'.TheDevice? {
      DeviceIds.IdsDiffer(hash, ops, o.name, o'.name);
    }
  }

  /** The object is registered throughout, or is the node itself. */
  ghost predicate Remains(hash: string -> U32, ops: seq<DeviceIds.Op>, more: seq<DeviceIds.Op>, o: Holder) {
    Present(hash, ops, o) && Present(hash, ops + more, o) && HolderId(hash, ops + more, o) == HolderId(hash, ops, o)
  }

  /** There are names of every hash to be had. */
  ghost predicate Onto(hash: string -> U32) {
    forall h: U32, used: set<string> :: HasUnused(hash, h, used)
  }

  ghost predicate HasUnused(hash: string -> U32, h: U32, used: set<string>) {
    exists name: string :: name !in used && hash(name) == h
  }

  /** Every id is some object's, or can be made one's by adding a device. */
  lemma IdCanBeHad(hash: string -> U32, ops: seq<DeviceIds.Op>, o: Holder, id: U32)
    returns (more: seq<DeviceIds.Op>, o': Holder)
    requires Onto(hash) && DeviceIds.Run(hash, ops).Registry? && Present(hash, ops, o)
    ensures Remains(hash, ops, more, o) && Present(hash, ops + more, o') && HolderId(hash, ops + more, o') == id
  {
    var r := DeviceIds.Run(hash, ops);
    DeviceIds.IdsStayDistinct(hash, ops);
    more := [];
    assert ops + [] == ops;
    if id == DeviceIds.OBJECT_ID_NODE {
      o' := TheNode;
    } else if id in r.ids {
      var name :| name in r.devices && r.devices[name] == id;
      o' := TheDevice(name);
    } else {
      assert HasUnused(hash, id, r.devices.Keys);
      var name :| name !in r.devices.Keys && hash(name) == id;
      more, o' := [DeviceIds.Add(name)], TheDevice(name);
      DeviceIds.FreeIdIsGiven(hash, ops, name);
    }
  }

  /** For a name, the metric that has an alias generated from its hash. */
  lemma OneGeneratedIs(hash: string -> U32, id: U32, name: string)
    ensures var rs := [Metric(name, Generate, false)];
            HasRoom(hash, id, rs) && Generated(hash, id, rs) == {FirstAlias(id, hash(name))}
  {
    var a := FirstAlias(id, hash(name));
    var m := BirthMetric(name, Made(a));
    OneAliased(id, hash(name));
    FirstIsFree({}, a);
    OneGenerated(hash, id, name, a);
    assert [] + [m] == [m];
    MadeSnoc(hash, [], m);
    OneHasRoom(hash(name));
    hide Run, Roomy, FirstAlias;
    assert MadeAliases([m]) == [a] && MadeHashes(hash, [m]) == [hash(name)];
  }

  /**
   Node-wide uniqueness, exactly: whatever devices come and go beside it, the aliases generated for an
   object differ from those of every other object that has room for its own, if and only if it has room.
   The hash only needs to have unused names for every value.
   */
  lemma GeneratedDifferAcrossNodeExactly(
      hash: string -> U32, ops: seq<DeviceIds.Op>, o: Holder, rs: seq<Registration>)
    requires |rs| < TWO_TO_THE_64 && Onto(hash)
    requires DeviceIds.Run(hash, ops).Registry? && Present(hash, ops, o)
    ensures HasRoom(hash, HolderId(hash, ops, o), rs) <==>
              forall more, o', rs' ::
                && Remains(hash, ops, more, o) && Present(hash, ops + more, o') && o' != o
                && |rs'| < TWO_TO_THE_64 && HasRoom(hash, HolderId(hash, ops + more, o'), rs')
                ==> Generated(hash, HolderId(hash, ops, o), rs) !! Generated(hash, HolderId(hash, ops + more, o'), rs')
  {
    var id := HolderId(hash, ops, o);
    if HasRoom(hash, id, rs) {
      forall more, o', rs' |
        && Remains(hash, ops, more, o) && Present(hash, ops + more, o') && o' != o
        && |rs'| < TWO_TO_THE_64 && HasRoom(hash, HolderId(hash, ops + more, o'), rs')
        ensures Generated(hash, id, rs) !! Generated(hash, HolderId(hash, ops + more, o'), rs')
      {
        HoldersDiffer(hash, ops + more, o, o');
        GeneratedDifferAcrossObjects(hash, id, rs, HolderId(hash, ops + more, o'), rs');
      }
    } else {
      var more, o', rs' := CrowdedCollides(hash, ops, o, rs);
    }
  }

  lemma CrowdedCollides(hash: string -> U32, ops: seq<DeviceIds.Op>, o: Holder, rs: seq<Registration>)
    returns (more: seq<DeviceIds.Op>, o': Holder, rs': seq<Registration>)
    requires |rs| < TWO_TO_THE_64 && Onto(hash)
    requires DeviceIds.Run(hash, ops).Registry? && Present(hash, ops, o)
    requires !HasRoom(hash, HolderId(hash, ops, o), rs)
    ensures Remains(hash, ops, more, o) && Present(hash, ops + more, o') && o' != o
    ensures |rs'| < TWO_TO_THE_64 && HasRoom(hash, HolderId(hash, ops + more, o'), rs')
    ensures !(Generated(hash, HolderId(hash, ops, o), rs) !! Generated(hash, HolderId(hash, ops + more, o'), rs'))
  {
    var id := HolderId(hash, ops, o);
    GeneratedIsAliased(hash, id, rs);
    assert forall h: U32 :: HasUnused(hash, h, {});
    hide Run, Generated, MadeHashes, Roomy, AllHashes, Elements, Aliased, FirstAlias, Present, HolderId;
    var id', h := CrowdedTakesAnothersAlias(id, MadeHashes(hash, Run(hash, id, rs).metrics));
    assert HasUnused(hash, h, {});
    var name :| hash(name) == h;
    more, o' := IdCanBeHad(hash, ops, o, id');
    rs' := [Metric(name, Generate, false)];
    OneGeneratedIs(hash, id', name);
    var a := FirstAlias(id', h);
    assert a in Generated(hash, id, rs) && a in Generated(hash, id', rs');
  }

  // Custom aliases, and what can collide

  /** A custom alias is refused exactly when it was generated before; other custom aliases do not count. */
  lemma CustomIsCheckedAgainstGenerated(hash: string -> U32, id: U32, rs: seq<Registration>, name: string, a: U64)
    requires |rs| < TWO_TO_THE_64
    ensures var i := Run(hash, id, rs);
            var (i', e) := Registered(hash, i, Metric(name, Custom(a), false));
            && (e.None? <==> name !in NamesOf(i.metrics) && a !in Elements(MadeAliases(i.metrics)))
            && (e.None? ==> i'.metrics == i.metrics + [BirthMetric(name, Chosen(a))] && i'.aliases == i.aliases)
  {
    RunKeeps(hash, id, rs);
  }

  /** The alias the metric carries in the birth, if any. */
  function CarriedBy(m: BirthMetric): seq<nat> {
    match m.alias
    case Unaliased => []
    case Chosen(a) => [a]
    case Made(a) => [a]
  }

  /** All the aliases of a birth, in order, and the custom ones among them. */
  function AllAliases(metrics: seq<BirthMetric>): seq<nat> {
    if metrics == [] then []
    else AllAliases(metrics[..|metrics| - 1]) + CarriedBy(metrics[|metrics| - 1])
  }

  function ChosenAliases(metrics: seq<BirthMetric>): seq<nat> {
    if metrics == [] then []
    else
      var m := metrics[|metrics| - 1];
      ChosenAliases(metrics[..|metrics| - 1]) + if m.alias.Chosen? then [m.alias.alias] else []
  }

  lemma DistinctSnocExactly(s: seq<nat>, x: nat)
    ensures Distinct(s + [x]) <==> Distinct(s) && x !in Elements(s)
  {
    if Distinct(s + [x]) {
      forall j, k | 0 <= j < k < |s| ensures s[j] != s[k] {
        assert (s + [x])[j] != (s + [x])[k];
      }
      forall j | 0 <= j < |s| ensures s[j] != x {
        assert (s + [x])[j] != (s + [x])[|s|];
      }
    } else if x !in Elements(s) && Distinct(s) {
      DistinctSnoc(s, x);
    }
  }

  /** All are distinct when each kind is, and no alias is of both. */
  lemma {:induction false} DistinctByKind(metrics: seq<BirthMetric>)
    ensures Elements(AllAliases(metrics)) == Elements(MadeAliases(metrics)) + Elements(ChosenAliases(metrics))
    ensures Distinct(AllAliases(metrics)) <==>
              && Distinct(MadeAliases(metrics)) && Distinct(ChosenAliases(metrics))
              && Elements(MadeAliases(metrics)) !! Elements(ChosenAliases(metrics))
  {
    if metrics != [] {
      var before, m := metrics[..|metrics| - 1], metrics[|metrics| - 1];
      DistinctByKind(before);
      var all, made, chosen := AllAliases(before), MadeAliases(before), ChosenAliases(before);
      assert all + [] == all && made + [] == made && chosen + [] == chosen;
      assert AllAliases(metrics) == all + CarriedBy(m);
      hide Distinct, Elements, AllAliases;
      if !m.alias.Unaliased? {
        var a := m.alias.alias;
        ElementsSnoc(all, a);
        ElementsSnoc(made, a);
        ElementsSnoc(chosen, a);
        DistinctSnocExactly(all, a);
        DistinctSnocExactly(made, a);
        DistinctSnocExactly(chosen, a);
      }
    }
  }

  /**
   Uniqueness within a birth, exactly: all aliases of a birth are distinct if and only if the custom ones
   accepted are distinct from each other and from what probing makes of the hashes of the names with
   generated ones, wherever in the birth these come.
   */
  lemma BirthAliasesAreDistinctExactly(hash: string -> U32, id: U32, rs: seq<Registration>)
    requires |rs| < TWO_TO_THE_64
    ensures var metrics := Run(hash, id, rs).metrics;
            var hs := MadeHashes(hash, metrics);
            AllHashes(hs) &&
            (Distinct(AllAliases(metrics)) <==>
               Distinct(ChosenAliases(metrics)) && Elements(Aliased(id, hs)) !! Elements(ChosenAliases(metrics)))
  {
    var metrics := Run(hash, id, rs).metrics;
    GeneratedAreDistinct(hash, id, rs);
    RunKeeps(hash, id, rs);
    assert MadeAliases(metrics) == Aliased(id, MadeHashes(hash, metrics));
    GeneratedIsAliased(hash, id, rs);
    hide Run, AllAliases, ChosenAliases, MadeAliases, MadeHashes, Distinct, Elements, Aliased;
    DistinctByKind(metrics);
  }

  /** So two metrics can be given one alias, and a generated alias can repeat a custom one. */
  lemma CustomAliasesCanRepeat(hash: string -> U32, id: U32, a: string, b: string, c: string)
    requires a != b && b != c && a != c
    ensures var alias := FirstAlias(id, hash(c));
            var rs := [Metric(a, Custom(alias), false), Metric(b, Custom(alias), false), Metric(c, Generate, false)];
            Run(hash, id, rs).metrics ==
              [BirthMetric(a, Chosen(alias)), BirthMetric(b, Chosen(alias)), BirthMetric(c, Made(alias))]
  {
    var alias := FirstAlias(id, hash(c));
    var r1, r2, r3 := Metric(a, Custom(alias), false), Metric(b, Custom(alias), false), Metric(c, Generate, false);
    var i0 := Initializer(id, [], {}, {});
    var i1 := Initializer(id, [BirthMetric(a, Chosen(alias))], {a}, {});
    var i2 := Initializer(id, [BirthMetric(a, Chosen(alias)), BirthMetric(b, Chosen(alias))], {a, b}, {});
    var i3 := Initializer(
      id, [BirthMetric(a, Chosen(alias)), BirthMetric(b, Chosen(alias)), BirthMetric(c, Made(alias))],
      {a, b, c}, {alias});
    FirstIsFree({}, alias);
    hide Run, Registered, TokenCreated, Probed, FirstAlias;
    NothingRun(hash, id);
    CustomOn(hash, i0, a, alias, i1);
    CustomOn(hash, i1, b, alias, i2);
    GenerateOn(hash, i2, c, alias, i3);
    RunOn(hash, id, [], r1);
    RunOn(hash, id, [r1], r2);
    RunOn(hash, id, [r1, r2], r3);
    assert [] + [r1] == [r1] && [r1] + [r2] == [r1, r2] && [r1, r2] + [r3] == [r1, r2, r3];
  }

  lemma NothingRun(hash: string -> U32, id: U32)
    ensures Run(hash, id, []) == Initializer(id, [], {}, {})
  {
  }

  lemma CustomOn(hash: string -> U32, i: Initializer, name: string, a: U64, i': Initializer)
    requires |i.aliases| < TWO_TO_THE_64 && name !in i.names && a !in i.aliases
    requires i' == i.(names := i.names + {name}, metrics := i.metrics + [BirthMetric(name, Chosen(a))])
    ensures Registered(hash, i, Metric(name, Custom(a), false)).0 == i'
  {
  }

  lemma GenerateOn(hash: string -> U32, i: Initializer, name: string, a: nat, i': Initializer)
    requires |i.aliases| < TWO_TO_THE_64 && name !in i.names
    requires a == Probed(i.aliases, TWO_TO_THE_64, FirstAlias(i.id, hash(name)))
    requires i' == i.(names := i.names + {name}, aliases := i.aliases + {a},
                      metrics := i.metrics + [BirthMetric(name, Made(a))])
    ensures Registered(hash, i, Metric(name, Generate, false)).0 == i'
  {
  }

  lemma RunOn(hash: string -> U32, id: U32, rs: seq<Registration>, r: Registration)
    requires |rs| + 1 < TWO_TO_THE_64
    ensures Run(hash, id, rs + [r]) == Registered(hash, Run(hash, id, rs), r).0
  {
    assert (rs + [r])[..|rs|] == rs;
  }

  lemma FirstIsFree(taken: set<nat>, a: nat)
    requires a < TWO_TO_THE_64 && a !in taken && |taken| < TWO_TO_THE_64
    ensures Probed(taken, TWO_TO_THE_64, a) == a
  {
    ModUnique(a, TWO_TO_THE_64, 0, a);
    ProbedIs(taken, TWO_TO_THE_64, a, 0);
  }

  lemma SecondIsFree(taken: set<nat>, a: nat)
    requires a + 1 < TWO_TO_THE_64 && a in taken && a + 1 !in taken && |taken| < TWO_TO_THE_64
    ensures Probed(taken, TWO_TO_THE_64, a) == a + 1
  {
    ModUnique(a, TWO_TO_THE_64, 0, a);
    ModUnique(a + 1, TWO_TO_THE_64, 0, a + 1);
    assert Candidate(TWO_TO_THE_64, a, 1) == a + 1 && Candidate(TWO_TO_THE_64, a, 0) == a;
    hide Candidate;
    ProbedIs(taken, TWO_TO_THE_64, a, 1);
  }

  /** When probing carries out of an object's block, it can meet the aliases of the object with the next id. */
  lemma CarriedAliasesCanCollide(hash: string -> U32, id: U32, a: string, b: string, c: string)
    requires a != b && hash(a) == hash(b) == TWO_TO_THE_32 - 1 && hash(c) == 0 && id + 1 < TWO_TO_THE_32
    ensures var next := FirstAlias(id + 1, 0);
            && Run(hash, id, [Metric(a, Generate, false), Metric(b, Generate, false)]).metrics ==
                 [BirthMetric(a, Made(next - 1)), BirthMetric(b, Made(next))]
            && Run(hash, id + 1, [Metric(c, Generate, false)]).metrics == [BirthMetric(c, Made(next))]
  {
    hide *;
    var next := FirstAlias(id + 1, 0);
    CarryProbes(id, hash(a));
    TwoGenerated(hash, id, a, next - 1, b, next);
    OneGenerated(hash, id + 1, c, next);
  }

  lemma CarryProbes(id: U32, last: U32)
    requires id + 1 < TWO_TO_THE_32 && last == TWO_TO_THE_32 - 1
    ensures var next := FirstAlias(id + 1, 0);
            && next > 0 && Probed({}, TWO_TO_THE_64, FirstAlias(id, last)) == next - 1
            && Probed({next - 1}, TWO_TO_THE_64, FirstAlias(id, last)) == next
            && Probed({}, TWO_TO_THE_64, next) == next
  {
    hide Probed;
    var next := FirstAlias(id + 1, 0);
    FirstIsFree({}, next - 1);
    FirstIsFree({}, next);
    SecondIsFree({next - 1}, next - 1);
  }

  lemma OneGenerated(hash: string -> U32, id: U32, name: string, a: nat)
    requires a == Probed({}, TWO_TO_THE_64, FirstAlias(id, hash(name)))
    ensures Run(hash, id, [Metric(name, Generate, false)]) == Initializer(id, [BirthMetric(name, Made(a))], {name}, {a})
  {
    var i0 := Initializer(id, [], {}, {});
    var r := Metric(name, Generate, false);
    hide Run, Registered, TokenCreated, Probed;
    NothingRun(hash, id);
    RunOn(hash, id, [], r);
    assert [] + [r] == [r];
    GenerateOn(hash, i0, name, a, Initializer(id, [BirthMetric(name, Made(a))], {name}, {a}));
  }

  lemma TwoGenerated(hash: string -> U32, id: U32, name: string, a: nat, name': string, a': nat)
    requires name' != name && a == Probed({}, TWO_TO_THE_64, FirstAlias(id, hash(name)))
    requires a' == Probed({a}, TWO_TO_THE_64, FirstAlias(id, hash(name')))
    ensures Run(hash, id, [Metric(name, Generate, false), Metric(name', Generate, false)]).metrics ==
              [BirthMetric(name, Made(a)), BirthMetric(name', Made(a'))]
  {
    var r, r' := Metric(name, Generate, false), Metric(name', Generate, false);
    hide Run, Registered, TokenCreated, Probed;
    OneGenerated(hash, id, name, a);
    var i1 := Run(hash, id, [r]);
    var i2 := i1.(names := i1.names + {name'}, aliases := i1.aliases + {a'},
                  metrics := i1.metrics + [BirthMetric(name', Made(a'))]);
    RunOn(hash, id, [r], r');
    assert [r] + [r'] == [r, r'];
    GenerateOn(hash, i1, name', a', i2);
  }

  class BirthInitializer {
    const id: U32
    const hash: string -> U32
    var birthMetrics: seq<BirthMetric>
    var metricNames: set<string>
    var metricAliases: set<nat>

    ghost function Model(): Initializer
      reads this
    {
      Initializer(id, birthMetrics, metricNames, metricAliases)
    }

    constructor (id: U32, hash: string -> U32)
      ensures this.id == id && this.hash == hash && Model() == Run(hash, id, [])
    {
      this.id, this.hash := id, hash;
      birthMetrics, metricNames, metricAliases := [], {}, {};
    }

    /** Tries at most one candidate more than there are aliases. */
    method GenerateAlias(name: string) returns (alias: nat, tried: nat)
      requires |metricAliases| < TWO_TO_THE_64
      modifies this`metricAliases
      ensures alias == Probed(old(metricAliases), TWO_TO_THE_64, FirstAlias(id, hash(name)))
      ensures metricAliases == old(metricAliases) + {alias} && tried <= |old(metricAliases)| + 1
    {
      alias, tried := Probe(metricAliases, TWO_TO_THE_64, FirstAlias(id, hash(name)));
      metricAliases := metricAliases + {alias};
    }

    /** The alias of the token, or why there is none. */
    method CreateMetricToken(name: string, config: AliasConfig) returns (alias: Alias, error: Option<BirthError>)
      requires config.Generate? && name !in metricNames ==> |metricAliases| < TWO_TO_THE_64
      modifies this`metricNames, this`metricAliases
      ensures error == TokenCreated(hash, old(Model()), name, config).1
      ensures var i := TokenCreated(hash, old(Model()), name, config).0;
              Model() == i.(metrics := birthMetrics) &&
                (error.None? ==> i.metrics == birthMetrics + [BirthMetric(name, alias)])
    {
      alias := Unaliased;
      if name in metricNames { return alias, Some(DuplicateMetric); }
      match config {
        case NoAlias =>
        case Generate =>
          var a, _ := GenerateAlias(name);
          alias := Made(a);
        case Custom(a) =>
          if a in metricAliases { return alias, Some(AliasNotUnique); }
          alias := Chosen(a);
      }
      metricNames := metricNames + {name};
      return alias, None;
    }

    method Register(r: Registration) returns (error: Option<BirthError>)
      requires Probes(Model(), r) ==> |metricAliases| < TWO_TO_THE_64
      modifies this
      ensures (Model(), error) == Registered(hash, old(Model()), r)
    {
      var alias: Alias;
      match r {
        case Definition(name) =>
          if name in metricNames { return Some(DuplicateMetric); }
          metricNames := metricNames + {name};
          birthMetrics := birthMetrics + [BirthMetric(name, Unaliased)];
          return None;
        case Metric(name, config, isTemplate) =>
          if isTemplate { return Some(UnsupportedDatatype); }
          alias, error := CreateMetricToken(name, config);
        case TemplateMetric(name, config, hasValue, definitionKnown) =>
          if !hasValue { return Some(ValueNotProvided); }
          if !definitionKnown { return Some(UnregisteredTemplate); }
          alias, error := CreateMetricToken(name, config);
      }
      if error.Some? { return; }
      birthMetrics := birthMetrics + [BirthMetric(r.name, alias)];
    }
  }
}
