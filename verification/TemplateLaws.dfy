/**
 Instances and structs round-trip: an instance of everything, and an instance of the differences,
 applied where they belong, give back what they were made from, through every level of nesting.
 */
module TemplateLaws {
  import opened Options
  import opened Values
  import opened Template

  /** `a` as received on top of `b`: `a`'s fields, but for skipped ones, at every level. */
  ghost function Merged(base: Base, fs: Fields, a: Record, b: Record): (r: Record)
    requires FieldsOk(fs) && FitsAll(fs, a) && FitsAll(fs, b)
    ensures FitsAll(fs, r)
    decreases FieldsSize(fs), 0
  {
    match fs
    case NoFields => End
    case Field(_, role, kind, _, rest) =>
      With(
        if role.Skipped? then b.value else MergedValue(base, kind, a.value, b.value),
        Merged(base, rest, a.rest, b.rest))
  }

  ghost function MergedValue(base: Base, k: Kind, x: Value, y: Value): (v: Value)
    requires KindOk(k) && Fits(k, x) && Fits(k, y)
    ensures Fits(k, v)
    decreases KindSize(k), 1
  {
    if !k.Nested? then x
    else
      DefaultsFit(k.fields);
      Struct(Merged(base, k.fields, x.record, if base.Existing? then y.record else Defaults(k.fields)))
  }

  /** The records agree in every field that is not skipped, at every level. */
  ghost predicate Agree(fs: Fields, a: Record, b: Record)
    requires FieldsOk(fs) && FitsAll(fs, a) && FitsAll(fs, b)
    decreases FieldsSize(fs), 0
  {
    fs.Field? ==> (fs.role.Skipped? || AgreeIn(fs.kind, a.value, b.value)) && Agree(fs.rest, a.rest, b.rest)
  }

  ghost predicate AgreeIn(k: Kind, x: Value, y: Value)
    requires KindOk(k) && Fits(k, x) && Fits(k, y)
    decreases KindSize(k), 1
  {
    if k.Nested? then Agree(k.fields, x.record, y.record) else x == y
  }

  /** The records agree in every skipped field, at every level. */
  ghost predicate SameSkipped(fs: Fields, a: Record, b: Record)
    requires FieldsOk(fs) && FitsAll(fs, a) && FitsAll(fs, b)
    decreases FieldsSize(fs), 0
  {
    fs.Field? ==>
      && (if fs.role.Skipped? then a.value == b.value else SameSkippedIn(fs.kind, a.value, b.value))
      && SameSkipped(fs.rest, a.rest, b.rest)
  }

  ghost predicate SameSkippedIn(k: Kind, x: Value, y: Value)
    requires KindOk(k) && Fits(k, x) && Fits(k, y)
    decreases KindSize(k), 1
  {
    k.Nested? ==> SameSkipped(k.fields, x.record, y.record)
  }

  /** Merging takes the unskipped from one side and the skipped from the other; these two facts pin it down. */
  lemma {:induction false} MergedIs(fs: Fields, a: Record, b: Record)
    requires FieldsOk(fs) && FitsAll(fs, a) && FitsAll(fs, b)
    ensures Agree(fs, Merged(Existing, fs, a, b), a)
    ensures SameSkipped(fs, Merged(Existing, fs, a, b), b)
    decreases FieldsSize(fs)
  {
    if fs.Field? {
      MergedIs(fs.rest, a.rest, b.rest);
      if !fs.role.Skipped? && fs.kind.Nested? {
        assert KindSize(fs.kind) == FieldsSize(fs.kind.fields) + 1;
        MergedIs(fs.kind.fields, a.value.record, b.value.record);
      }
    }
  }

  lemma {:induction false} AgreeAndSameSkipped(fs: Fields, a: Record, b: Record)
    requires FieldsOk(fs) && FitsAll(fs, a) && FitsAll(fs, b)
    requires Agree(fs, a, b) && SameSkipped(fs, a, b)
    ensures a == b
    decreases FieldsSize(fs)
  {
    if fs.Field? {
      AgreeAndSameSkipped(fs.rest, a.rest, b.rest);
      if !fs.role.Skipped? && fs.kind.Nested? {
        assert KindSize(fs.kind) == FieldsSize(fs.kind.fields) + 1;
        AgreeAndSameSkipped(fs.kind.fields, a.value.record, b.value.record);
      }
    }
  }

  /** Merging what agrees changes nothing. */
  lemma {:induction false} MergedWithAgreeing(fs: Fields, a: Record, b: Record)
    requires FieldsOk(fs) && FitsAll(fs, a) && FitsAll(fs, b) && Agree(fs, a, b)
    ensures Merged(Existing, fs, a, b) == b
    decreases FieldsSize(fs)
  {
    if fs.Field? {
      MergedWithAgreeing(fs.rest, a.rest, b.rest);
      if !fs.role.Skipped? && fs.kind.Nested? {
        assert KindSize(fs.kind) == FieldsSize(fs.kind.fields) + 1;
        MergedWithAgreeing(fs.kind.fields, a.value.record, b.value.record);
      }
    }
  }

  // The difference

  /** There is no difference exactly when the records agree. */
  lemma {:induction false} NoDifferenceMeansAgree(t: Kind, a: Record, b: Record)
    requires t.Nested? && KindOk(t) && FitsAll(t.fields, a) && FitsAll(t.fields, b)
    ensures InstanceOf(Changes, t, a, b).None? <==> Agree(t.fields, a, b)
    decreases KindSize(t)
  {
    NothingSentMeansAgree(t.fields, a, b);
  }

  lemma {:induction false} NothingSentMeansAgree(fs: Fields, a: Record, b: Record)
    requires FieldsOk(fs) && FitsAll(fs, a) && FitsAll(fs, b)
    ensures MetricsOf(Changes, fs, a, b) == [] && ParametersOf(Changes, fs, a, b) == [] <==> Agree(fs, a, b)
    decreases FieldsSize(fs)
  {
    if fs.Field? {
      NothingSentMeansAgree(fs.rest, a.rest, b.rest);
      if !fs.role.Skipped? && fs.kind.Nested? {
        NoDifferenceMeansAgree(fs.kind, a.value.record, b.value.record);
      }
    }
  }

  // Applying

  /** The values an instance of that extent brings, by field name. */
  ghost function Brought(extent: Extent, base: Base, role: Role, fs: Fields, a: Record, b: Record): map<string, Value>
    requires FieldsOk(fs) && FitsAll(fs, a) && FitsAll(fs, b)
    decreases FieldsSize(fs)
  {
    match fs
    case NoFields => map[]
    case Field(name, ro, kind, _, rest) =>
      var others := Brought(extent, base, role, rest, a.rest, b.rest);
      if ro != role || ro.Skipped? || Sent(extent, kind, a.value, b.value).None? then others
      else others[name := MergedValue(base, kind, a.value, b.value)]
  }

  lemma {:induction false} BroughtIsNamed(extent: Extent, base: Base, role: Role, fs: Fields, a: Record, b: Record)
    requires FieldsOk(fs) && FitsAll(fs, a) && FitsAll(fs, b)
    ensures Brought(extent, base, role, fs, a, b).Keys <= Names(fs)
    decreases FieldsSize(fs)
  {
    if fs.Field? {
      BroughtIsNamed(extent, base, role, fs.rest, a.rest, b.rest);
    }
  }

  /** `fs` with `r` is the tail of `all` with `rAll`, as far as looking fields up goes. */
  ghost predicate Tail(role: Role, all: Fields, rAll: Record, fs: Fields, r: Record)
    requires !role.Skipped? && FieldsOk(all) && FitsAll(all, rAll) && FieldsOk(fs) && FitsAll(fs, r)
  {
    forall n :: Find(role, fs, r, n).Some? ==> Find(role, all, rAll, n) == Find(role, fs, r, n)
  }

  lemma TailOfTail(role: Role, all: Fields, rAll: Record, fs: Fields, r: Record)
    requires !role.Skipped? && FieldsOk(all) && FitsAll(all, rAll) && FieldsOk(fs) && FitsAll(fs, r)
    requires fs.Field? && Tail(role, all, rAll, fs, r)
    ensures Tail(role, all, rAll, fs.rest, r.rest)
    ensures fs.role == role ==> Find(role, all, rAll, fs.name) == Some((fs.kind, r.value))
  {
    forall n | Find(role, fs.rest, r.rest, n).Some?
      ensures Find(role, all, rAll, n) == Find(role, fs.rest, r.rest, n)
    {
      assert n in Names(fs.rest);
      assert Find(role, fs, r, n) == Find(role, fs.rest, r.rest, n);
    }
  }

  lemma ScalarsOfWire(k: Kind, v: Value)
    requires !k.Nested? && Fits(k, v)
    ensures Scalars(k, WireOf(k, v)) == Ok(v)
  {
    if k.Leaf? {
      DecodeEncode(k.ty, v.s);
    } else if v.o.Some? {
      DecodeEncode(k.ty, v.o.value);
    }
  }

  lemma ParameterStep(fs: Fields, r: Record, e: ParameterEntry, ps: seq<ParameterEntry>, p: map<string, Value>)
    requires FieldsOk(fs) && FitsAll(fs, r) && Typed(fs, p)
    requires e.name.Some? && Find(Parameter, fs, r, e.name.value).Some?
    requires Scalars(Find(Parameter, fs, r, e.name.value).value.0, e.value).Ok?
    ensures var p' := p[e.name.value := Scalars(Find(Parameter, fs, r, e.name.value).value.0, e.value).value];
            Typed(fs, p') && ParametersRead(fs, r, [e] + ps, p) == ParametersRead(fs, r, ps, p')
  {
    assert ([e] + ps)[1..] == ps;
  }

  lemma MetricStep(base: Base, fs: Fields, r: Record, e: MetricEntry, ms: seq<MetricEntry>, p: map<string, Value>)
    requires FieldsOk(fs) && FitsAll(fs, r) && Typed(fs, p)
    requires e.name.Some? && Find(Metric, fs, r, e.name.value).Some?
    requires var f := Find(Metric, fs, r, e.name.value).value; Received(base, f.0, f.1, e.value).Ok?
    ensures var f := Find(Metric, fs, r, e.name.value).value;
            var p' := p[e.name.value := Received(base, f.0, f.1, e.value).value];
            Typed(fs, p') && MetricsRead(base, fs, r, [e] + ms, p) == MetricsRead(base, fs, r, ms, p')
  {
    assert ([e] + ms)[1..] == ms;
  }

  lemma UpdateBeforeMerge(p: map<string, Value>, q: map<string, Value>, n: string, v: Value)
    requires n !in q
    ensures p[n := v] + q == p + q[n := v]
  {
  }

  lemma {:induction false} ParametersApply(
      extent: Extent, base: Base, all: Fields, rAll: Record, fs: Fields, a: Record, b: Record, p: map<string, Value>)
    requires FieldsOk(all) && FitsAll(all, rAll) && FieldsOk(fs) && FitsAll(fs, a) && FitsAll(fs, b) && Typed(all, p)
    requires Tail(Parameter, all, rAll, fs, b)
    ensures ParametersRead(all, rAll, ParametersOf(extent, fs, a, b), p) ==
              Ok(p + Brought(extent, base, Parameter, fs, a, b))
    decreases FieldsSize(fs)
  {
    if fs.NoFields? {
      assert p + map[] == p;
    } else {
      TailOfTail(Parameter, all, rAll, fs, b);
      hide Tail, Find, Typed, ParametersRead;
      if fs.role.Parameter? && !(extent.Changes? && a.value == b.value) {
        ScalarsOfWire(fs.kind, a.value);
        BroughtIsNamed(extent, base, Parameter, fs.rest, a.rest, b.rest);
        hide Scalars, WireOf;
        var e := ParameterEntry(Some(fs.name), Code(fs.kind), WireOf(fs.kind, a.value));
        ParameterStep(all, rAll, e, ParametersOf(extent, fs.rest, a.rest, b.rest), p);
        UpdateBeforeMerge(p, Brought(extent, base, Parameter, fs.rest, a.rest, b.rest), fs.name, a.value);
        ParametersApply(extent, base, all, rAll, fs.rest, a.rest, b.rest, p[fs.name := a.value]);
      } else {
        ParametersApply(extent, base, all, rAll, fs.rest, a.rest, b.rest, p);
      }
    }
  }

  lemma {:induction false} MetricsApply(
      extent: Extent, base: Base, all: Fields, rAll: Record, fs: Fields, a: Record, b: Record, p: map<string, Value>)
    requires FieldsOk(all) && FitsAll(all, rAll) && FieldsOk(fs) && FitsAll(fs, a) && FitsAll(fs, b) && Typed(all, p)
    requires Tail(Metric, all, rAll, fs, b) && (extent.Whole? || base.Existing?)
    ensures MetricsRead(base, all, rAll, MetricsOf(extent, fs, a, b), p) ==
              Ok(p + Brought(extent, base, Metric, fs, a, b))
    decreases FieldsSize(fs), 0
  {
    if fs.NoFields? {
      assert p + map[] == p;
    } else {
      TailOfTail(Metric, all, rAll, fs, b);
      hide Tail, Find, Typed, MetricsRead, Received;
      if fs.role.Metric? && Sent(extent, fs.kind, a.value, b.value).Some? {
        ValueArrives(extent, base, fs.kind, a.value, b.value);
        BroughtIsNamed(extent, base, Metric, fs.rest, a.rest, b.rest);
        var v := MergedValue(base, fs.kind, a.value, b.value);
        hide MergedValue, Sent;
        var e := MetricEntry(Some(fs.name), Code(fs.kind), Sent(extent, fs.kind, a.value, b.value).value);
        MetricStep(base, all, rAll, e, MetricsOf(extent, fs.rest, a.rest, b.rest), p);
        UpdateBeforeMerge(p, Brought(extent, base, Metric, fs.rest, a.rest, b.rest), fs.name, v);
        MetricsApply(extent, base, all, rAll, fs.rest, a.rest, b.rest, p[fs.name := v]);
      } else {
        MetricsApply(extent, base, all, rAll, fs.rest, a.rest, b.rest, p);
      }
    }
  }

  /** What is sent of one field, received on top of the other's, merges the two. */
  lemma {:induction false} ValueArrives(extent: Extent, base: Base, k: Kind, x: Value, y: Value)
    requires KindOk(k) && Fits(k, x) && Fits(k, y) && (extent.Whole? || base.Existing?)
    requires Sent(extent, k, x, y).Some?
    ensures Received(base, k, y, Sent(extent, k, x, y).value) == Ok(MergedValue(base, k, x, y))
    decreases KindSize(k), 1
  {
    if !k.Nested? {
      ScalarsOfWire(k, x);
    } else if base.Existing? {
      InstanceArrives(extent, base, k, x.record, y.record);
    } else {
      DefaultsFit(k.fields);
      WholeIgnoresOther(k, x.record, y.record, Defaults(k.fields));
      InstanceArrives(extent, base, k, x.record, Defaults(k.fields));
    }
  }

  /** An instance of the whole is the same whatever it is compared to. */
  lemma {:induction false} WholeIgnoresOther(t: Kind, a: Record, b: Record, c: Record)
    requires t.Nested? && KindOk(t) && FitsAll(t.fields, a) && FitsAll(t.fields, b) && FitsAll(t.fields, c)
    ensures InstanceOf(Whole, t, a, b) == InstanceOf(Whole, t, a, c)
    decreases KindSize(t)
  {
    WholeFieldsIgnoreOther(t.fields, a, b, c);
  }

  lemma {:induction false} WholeFieldsIgnoreOther(fs: Fields, a: Record, b: Record, c: Record)
    requires FieldsOk(fs) && FitsAll(fs, a) && FitsAll(fs, b) && FitsAll(fs, c)
    ensures MetricsOf(Whole, fs, a, b) == MetricsOf(Whole, fs, a, c)
    ensures ParametersOf(Whole, fs, a, b) == ParametersOf(Whole, fs, a, c)
    decreases FieldsSize(fs)
  {
    if fs.Field? {
      WholeFieldsIgnoreOther(fs.rest, a.rest, b.rest, c.rest);
      if !fs.role.Skipped? && fs.kind.Nested? {
        WholeIgnoresOther(fs.kind, a.value.record, b.value.record, c.value.record);
      }
    }
  }

  /** Whether the map holds for the fields what an instance of that extent brings. */
  ghost predicate Holds(extent: Extent, base: Base, fs: Fields, a: Record, b: Record, p: map<string, Value>)
    requires FieldsOk(fs) && FitsAll(fs, a) && FitsAll(fs, b)
    decreases FieldsSize(fs)
  {
    fs.Field? ==>
      && Holds(extent, base, fs.rest, a.rest, b.rest, p)
      && (!fs.role.Skipped? ==>
            if Sent(extent, fs.kind, a.value, b.value).None? then fs.name !in p
            else fs.name in p && p[fs.name] == MergedValue(base, fs.kind, a.value, b.value))
  }

  lemma {:induction false} BroughtHolds(
      extent: Extent, base: Base, fs: Fields, a: Record, b: Record, p: map<string, Value>)
    requires FieldsOk(fs) && FitsAll(fs, a) && FitsAll(fs, b)
    requires var brought := Brought(extent, base, Parameter, fs, a, b) + Brought(extent, base, Metric, fs, a, b);
             forall n :: n in Names(fs) ==> (n in p <==> n in brought) && (n in p ==> p[n] == brought[n])
    ensures Holds(extent, base, fs, a, b, p)
    decreases FieldsSize(fs)
  {
    if fs.Field? {
      BroughtIsNamed(extent, base, Parameter, fs.rest, a.rest, b.rest);
      BroughtIsNamed(extent, base, Metric, fs.rest, a.rest, b.rest);
      hide Sent, MergedValue;
      if !fs.role.Skipped? {
        assert fs.name in Names(fs);
      }
      BroughtHolds(extent, base, fs.rest, a.rest, b.rest, p);
    }
  }

  lemma {:induction false} AssignedIsMerged(
      extent: Extent, base: Base, fs: Fields, a: Record, b: Record, p: map<string, Value>)
    requires FieldsOk(fs) && FitsAll(fs, a) && FitsAll(fs, b) && Typed(fs, p) && (extent.Whole? || base.Existing?)
    requires Holds(extent, base, fs, a, b, p)
    ensures Assigned(fs, b, p) == Merged(base, fs, a, b)
    decreases FieldsSize(fs), 0
  {
    if fs.Field? {
      TypedRest(fs, p);
      AssignedIsMerged(extent, base, fs.rest, a.rest, b.rest, p);
      if !fs.role.Skipped? && Sent(extent, fs.kind, a.value, b.value).None? {
        UnsentIsKept(extent, base, fs.kind, a.value, b.value);
      }
    }
  }

  /** A field that is not sent is one that merging would not change. */
  lemma UnsentIsKept(extent: Extent, base: Base, k: Kind, x: Value, y: Value)
    requires KindOk(k) && Fits(k, x) && Fits(k, y) && (extent.Whole? || base.Existing?)
    requires Sent(extent, k, x, y).None?
    ensures MergedValue(base, k, x, y) == y
  {
    if k.Nested? {
      NoDifferenceMeansAgree(k, x.record, y.record);
      MergedWithAgreeing(k.fields, x.record, y.record);
    }
  }

  /** An instance of the whole, or of the differences, arrives as the merge of the two records. */
  lemma {:induction false} InstanceArrives(extent: Extent, base: Base, t: Kind, a: Record, b: Record)
    requires t.Nested? && KindOk(t) && FitsAll(t.fields, a) && FitsAll(t.fields, b) && (extent.Whole? || base.Existing?)
    requires InstanceOf(extent, t, a, b).Some?
    ensures Applied(base, t, b, InstanceOf(extent, t, a, b).value) == Ok(Merged(base, t.fields, a, b))
    decreases KindSize(t), 0
  {
    var fs := t.fields;
    hide Find;
    ParametersApply(extent, base, fs, b, fs, a, b, map[]);
    var ps := Brought(extent, base, Parameter, fs, a, b);
    assert map[] + ps == ps;
    MetricsApply(extent, base, fs, b, fs, a, b, ps);
    BroughtHolds(extent, base, fs, a, b, ps + Brought(extent, base, Metric, fs, a, b));
    AssignedIsMerged(extent, base, fs, a, b, ps + Brought(extent, base, Metric, fs, a, b));
  }

  // The laws

  lemma {:induction false} AgreeIsSymmetric(fs: Fields, a: Record, b: Record)
    requires FieldsOk(fs) && FitsAll(fs, a) && FitsAll(fs, b)
    ensures Agree(fs, a, b) <==> Agree(fs, b, a)
    decreases FieldsSize(fs)
  {
    if fs.Field? {
      AgreeIsSymmetric(fs.rest, a.rest, b.rest);
      if !fs.role.Skipped? && fs.kind.Nested? {
        assert KindSize(fs.kind) == FieldsSize(fs.kind.fields) + 1;
        AgreeIsSymmetric(fs.kind.fields, a.value.record, b.value.record);
      }
    }
  }

  /**
   Diff and patch: there is a difference exactly when some unskipped field differs, at any level; applied
   to `b` it succeeds, gives `a`'s unskipped fields with `b`'s skipped ones, and leaves no difference.
   */
  lemma DifferencePatches(t: Kind, a: Record, b: Record)
    requires t.Nested? && KindOk(t) && FitsAll(t.fields, a) && FitsAll(t.fields, b)
    ensures InstanceOf(Changes, t, a, b).None? <==> Agree(t.fields, a, b)
    ensures InstanceOf(Changes, t, a, b).Some? ==>
              var r := Updated(t, b, InstanceOf(Changes, t, a, b).value);
              && r.Ok? && FitsAll(t.fields, r.value)
              && Agree(t.fields, r.value, a)
              && SameSkipped(t.fields, r.value, b)
              && InstanceOf(Changes, t, a, r.value).None?
  {
    NoDifferenceMeansAgree(t, a, b);
    if InstanceOf(Changes, t, a, b).Some? {
      InstanceArrives(Changes, Existing, t, a, b);
      var r := Merged(Existing, t.fields, a, b);
      MergedIs(t.fields, a, b);
      AgreeIsSymmetric(t.fields, r, a);
      NoDifferenceMeansAgree(t, a, r);
    }
  }

  /** The whole instance patches just as well. */
  lemma WholeInstancePatches(t: Kind, a: Record, b: Record)
    requires t.Nested? && KindOk(t) && FitsAll(t.fields, a) && FitsAll(t.fields, b)
    ensures var r := Updated(t, b, InstanceOf(Whole, t, a, a).value);
            && r.Ok? && FitsAll(t.fields, r.value)
            && Agree(t.fields, r.value, a)
            && SameSkipped(t.fields, r.value, b)
  {
    WholeIgnoresOther(t, a, a, b);
    InstanceArrives(Whole, Existing, t, a, b);
    MergedIs(t.fields, a, b);
  }

  /** Every skipped field, at every level, has its default. */
  ghost predicate SkippedAreDefault(fs: Fields, a: Record)
    requires FieldsOk(fs) && FitsAll(fs, a)
    decreases FieldsSize(fs), 0
  {
    fs.Field? ==>
      && (if fs.role.Skipped? then a.value == fs.default else SkippedAreDefaultIn(fs.kind, a.value))
      && SkippedAreDefault(fs.rest, a.rest)
  }

  ghost predicate SkippedAreDefaultIn(k: Kind, x: Value)
    requires KindOk(k) && Fits(k, x)
    decreases KindSize(k), 1
  {
    k.Nested? ==> SkippedAreDefault(k.fields, x.record)
  }

  lemma {:induction false} CreatedIs(fs: Fields, a: Record)
    requires FieldsOk(fs) && FitsAll(fs, a) && FitsAll(fs, Defaults(fs))
    ensures Agree(fs, Merged(Default, fs, a, Defaults(fs)), a)
    ensures SkippedAreDefault(fs, Merged(Default, fs, a, Defaults(fs)))
    decreases FieldsSize(fs)
  {
    if fs.Field? {
      CreatedIs(fs.rest, a.rest);
      if !fs.role.Skipped? && fs.kind.Nested? {
        assert KindSize(fs.kind) == FieldsSize(fs.kind.fields) + 1;
        DefaultsFit(fs.kind.fields);
        CreatedIs(fs.kind.fields, a.value.record);
      }
    }
  }

  /** An instance of a struct gives the struct back, but for skipped fields, which are at their defaults. */
  lemma InstanceRoundTrips(t: Kind, a: Record)
    requires t.Nested? && KindOk(t) && FitsAll(t.fields, a)
    ensures var r := Created(t, InstanceOf(Whole, t, a, a).value);
            && r.Ok? && FitsAll(t.fields, r.value)
            && Agree(t.fields, r.value, a)
            && SkippedAreDefault(t.fields, r.value)
            && (SkippedAreDefault(t.fields, a) ==> r.value == a)
  {
    DefaultsFit(t.fields);
    WholeIgnoresOther(t, a, a, Defaults(t.fields));
    InstanceArrives(Whole, Default, t, a, Defaults(t.fields));
    CreatedIs(t.fields, a);
    if SkippedAreDefault(t.fields, a) {
      DefaultsAgree(t.fields, Merged(Default, t.fields, a, Defaults(t.fields)), a);
    }
  }

  lemma {:induction false} DefaultsAgree(fs: Fields, a: Record, b: Record)
    requires FieldsOk(fs) && FitsAll(fs, a) && FitsAll(fs, b) && Agree(fs, a, b)
    requires SkippedAreDefault(fs, a) && SkippedAreDefault(fs, b)
    ensures a == b
    decreases FieldsSize(fs)
  {
    if fs.Field? {
      DefaultsAgree(fs.rest, a.rest, b.rest);
      if !fs.role.Skipped? && fs.kind.Nested? {
        assert KindSize(fs.kind) == FieldsSize(fs.kind.fields) + 1;
        DefaultsAgree(fs.kind.fields, a.value.record, b.value.record);
      }
    }
  }

  // What any instance leaves alone

  /** New values keep the skipped parts of what they replace. */
  ghost predicate KeepsSkipped(fs: Fields, r: Record, p: map<string, Value>)
    requires FieldsOk(fs) && FitsAll(fs, r) && Typed(fs, p)
    decreases FieldsSize(fs)
  {
    fs.Field? ==>
      (TypedRest(fs, p);
       && KeepsSkipped(fs.rest, r.rest, p)
       && (!fs.role.Skipped? && fs.name in p ==> SameSkippedIn(fs.kind, p[fs.name], r.value)))
  }

  lemma {:induction false} AssignedKeepsSkipped(fs: Fields, r: Record, p: map<string, Value>)
    requires FieldsOk(fs) && FitsAll(fs, r) && Typed(fs, p) && KeepsSkipped(fs, r, p)
    ensures SameSkipped(fs, Assigned(fs, r, p), r)
    decreases FieldsSize(fs)
  {
    if fs.Field? {
      TypedRest(fs, p);
      AssignedKeepsSkipped(fs.rest, r.rest, p);
      if !fs.role.Skipped? && fs.kind.Nested? {
        assert KindSize(fs.kind) == FieldsSize(fs.kind.fields) + 1;
        SameSkippedWithSelf(fs.kind.fields, r.value.record);
      }
    }
  }

  lemma {:induction false} SameSkippedWithSelf(fs: Fields, r: Record)
    requires FieldsOk(fs) && FitsAll(fs, r)
    ensures SameSkipped(fs, r, r)
    decreases FieldsSize(fs)
  {
    if fs.Field? {
      SameSkippedWithSelf(fs.rest, r.rest);
      if !fs.role.Skipped? && fs.kind.Nested? {
        assert KindSize(fs.kind) == FieldsSize(fs.kind.fields) + 1;
        SameSkippedWithSelf(fs.kind.fields, r.value.record);
      }
    }
  }

  /** One more value, for a field that can be found. */
  lemma {:induction false} KeepsSkippedStep(
      role: Role, fs: Fields, r: Record, p: map<string, Value>, n: string, v: Value)
    requires !role.Skipped? && FieldsOk(fs) && FitsAll(fs, r) && Typed(fs, p) && KeepsSkipped(fs, r, p)
    requires Typed(fs, p[n := v])
    requires Find(role, fs, r, n).Some? ==>
               var (k, y) := Find(role, fs, r, n).value; Fits(k, v) && SameSkippedIn(k, v, y)
    requires n in Names(fs) ==> Find(role, fs, r, n).Some?
    ensures KeepsSkipped(fs, r, p[n := v])
    decreases FieldsSize(fs)
  {
    if fs.Field? {
      TypedRest(fs, p);
      TypedRest(fs, p[n := v]);
      if fs.role == role && fs.name == n {
        KeepsSkippedElsewhere(fs.rest, r.rest, p, n, v);
      } else {
        KeepsSkippedStep(role, fs.rest, r.rest, p, n, v);
      }
    }
  }

  lemma {:induction false} KeepsSkippedElsewhere(fs: Fields, r: Record, p: map<string, Value>, n: string, v: Value)
    requires FieldsOk(fs) && FitsAll(fs, r) && Typed(fs, p) && KeepsSkipped(fs, r, p)
    requires Typed(fs, p[n := v]) && n !in Names(fs)
    ensures KeepsSkipped(fs, r, p[n := v])
    decreases FieldsSize(fs)
  {
    if fs.Field? {
      TypedRest(fs, p);
      TypedRest(fs, p[n := v]);
      KeepsSkippedElsewhere(fs.rest, r.rest, p, n, v);
    }
  }

  lemma {:induction false} NothingKeepsSkipped(fs: Fields, r: Record)
    requires FieldsOk(fs) && FitsAll(fs, r)
    ensures KeepsSkipped(fs, r, map[])
    decreases FieldsSize(fs)
  {
    if fs.Field? {
      NothingKeepsSkipped(fs.rest, r.rest);
    }
  }

  lemma {:induction false} ParametersKeepSkipped(fs: Fields, r: Record, ps: seq<ParameterEntry>, p: map<string, Value>)
    requires FieldsOk(fs) && FitsAll(fs, r) && Typed(fs, p) && KeepsSkipped(fs, r, p)
    ensures var q := ParametersRead(fs, r, ps, p); q.Ok? ==> KeepsSkipped(fs, r, q.value)
    decreases |ps|
  {
    if ParametersRead(fs, r, ps, p).Ok? && ps != [] {
      var n := ps[0].name.value;
      var v := Scalars(Find(Parameter, fs, r, n).value.0, ps[0].value).value;
      assert Typed(fs, p[n := v]);
      hide Typed, Find;
      KeepsSkippedStep(Parameter, fs, r, p, n, v);
      ParametersKeepSkipped(fs, r, ps[1..], p[n := v]);
    }
  }

  lemma {:induction false} MetricsKeepSkipped(fs: Fields, r: Record, ms: seq<MetricEntry>, p: map<string, Value>)
    requires FieldsOk(fs) && FitsAll(fs, r) && Typed(fs, p) && KeepsSkipped(fs, r, p)
    ensures var q := MetricsRead(Existing, fs, r, ms, p); q.Ok? ==> KeepsSkipped(fs, r, q.value)
    decreases FieldsSize(fs), |ms|
  {
    if MetricsRead(Existing, fs, r, ms, p).Ok? && ms != [] {
      var n := ms[0].name.value;
      var (k, y) := Find(Metric, fs, r, n).value;
      ReceivedKeepsSkipped(k, y, ms[0].value);
      var v := Received(Existing, k, y, ms[0].value).value;
      assert Typed(fs, p[n := v]);
      hide Typed, Find, Received;
      KeepsSkippedStep(Metric, fs, r, p, n, v);
      MetricsKeepSkipped(fs, r, ms[1..], p[n := v]);
    }
  }

  lemma {:induction false} ReceivedKeepsSkipped(k: Kind, y: Value, v: Option<MetricValue>)
    requires KindOk(k) && Fits(k, y)
    ensures var r := Received(Existing, k, y, v); r.Ok? ==> SameSkippedIn(k, r.value, y)
    decreases KindSize(k), 1
  {
    if k.Nested? {
      if v.None? {
        SameSkippedWithSelf(k.fields, y.record);
      } else if IntoInstance(v.value).Ok? {
        UpdatesKeepSkipped(k, y.record, IntoInstance(v.value).value);
      }
    }
  }

  /** Whatever an instance says, a successful update keeps every skipped field, at every level. */
  lemma {:induction false} UpdatesKeepSkipped(t: Kind, r: Record, i: Instance)
    requires t.Nested? && KindOk(t) && FitsAll(t.fields, r)
    ensures Updated(t, r, i).Ok? ==> SameSkipped(t.fields, Updated(t, r, i).value, r)
    decreases KindSize(t), 0
  {
    if Updated(t, r, i).Ok? {
      var fs := t.fields;
      NothingKeepsSkipped(fs, r);
      ParametersKeepSkipped(fs, r, i.parameters, map[]);
      var p := ParametersRead(fs, r, i.parameters, map[]).value;
      MetricsKeepSkipped(fs, r, i.metrics, p);
      AssignedKeepsSkipped(fs, r, MetricsRead(Existing, fs, r, i.metrics, p).value);
    }
  }

  ghost function MetricNames(ms: seq<MetricEntry>): set<Option<string>> {
    set e | e in ms :: e.name
  }

  ghost function ParameterNames(ps: seq<ParameterEntry>): set<Option<string>> {
    set e | e in ps :: e.name
  }

  lemma MetricNamesOfCons(e: MetricEntry, ms: seq<MetricEntry>)
    ensures MetricNames([e] + ms) == {e.name} + MetricNames(ms)
  {
    assert forall x :: x in [e] + ms <==> x == e || x in ms;
  }

  lemma ParameterNamesOfCons(e: ParameterEntry, ps: seq<ParameterEntry>)
    ensures ParameterNames([e] + ps) == {e.name} + ParameterNames(ps)
  {
    assert forall x :: x in [e] + ps <==> x == e || x in ps;
  }

  /** A difference mentions exactly the metrics that differ, at any level below them. */
  lemma {:induction false} DifferenceNamesMetrics(fs: Fields, a: Record, b: Record, n: string)
    requires FieldsOk(fs) && FitsAll(fs, a) && FitsAll(fs, b)
    ensures Find(Metric, fs, a, n).Some? <==> Find(Metric, fs, b, n).Some?
    ensures Some(n) in MetricNames(MetricsOf(Changes, fs, a, b)) <==>
              Find(Metric, fs, a, n).Some? &&
              (var (k, x) := Find(Metric, fs, a, n).value;
               var y := Find(Metric, fs, b, n).value.1;
               Fits(k, y) && !AgreeIn(k, x, y))
    decreases FieldsSize(fs)
  {
    if fs.Field? {
      DifferenceNamesMetrics(fs.rest, a.rest, b.rest, n);
      if fs.role.Metric? {
        var sent := Sent(Changes, fs.kind, a.value, b.value);
        SentWhenDifferent(fs.kind, a.value, b.value);
        if sent.Some? {
          MetricNamesOfCons(
            MetricEntry(Some(fs.name), Code(fs.kind), sent.value), MetricsOf(Changes, fs.rest, a.rest, b.rest));
        }
        hide Sent, AgreeIn, MetricNames, Fits;
        assert Find(Metric, fs.rest, a.rest, fs.name).None?;
      }
    }
  }

  lemma SentWhenDifferent(k: Kind, x: Value, y: Value)
    requires KindOk(k) && Fits(k, x) && Fits(k, y)
    ensures Sent(Changes, k, x, y).Some? <==> !AgreeIn(k, x, y)
  {
    if k.Nested? {
      NoDifferenceMeansAgree(k, x.record, y.record);
    }
  }

  /** And exactly the parameters that differ. */
  lemma {:induction false} DifferenceNamesParameters(fs: Fields, a: Record, b: Record, n: string)
    requires FieldsOk(fs) && FitsAll(fs, a) && FitsAll(fs, b)
    ensures Find(Parameter, fs, a, n).Some? <==> Find(Parameter, fs, b, n).Some?
    ensures Some(n) in ParameterNames(ParametersOf(Changes, fs, a, b)) <==>
              Find(Parameter, fs, a, n).Some? && Find(Parameter, fs, a, n) != Find(Parameter, fs, b, n)
    decreases FieldsSize(fs)
  {
    if fs.Field? {
      DifferenceNamesParameters(fs.rest, a.rest, b.rest, n);
      if fs.role.Parameter? {
        var e := ParameterEntry(Some(fs.name), Code(fs.kind), WireOf(fs.kind, a.value));
        ParameterNamesOfCons(e, ParametersOf(Changes, fs.rest, a.rest, b.rest));
        hide ParameterNames, Fits;
        assert Find(Parameter, fs.rest, a.rest, fs.name).None?;
      }
    }
  }

  lemma {:induction false} ParametersReadNames(
      fs: Fields, r: Record, ps: seq<ParameterEntry>, p: map<string, Value>, n: string)
    requires FieldsOk(fs) && FitsAll(fs, r) && Typed(fs, p) && ParametersRead(fs, r, ps, p).Ok?
    ensures n in ParametersRead(fs, r, ps, p).value <==> n in p || Some(n) in ParameterNames(ps)
    decreases |ps|
  {
    if ps != [] {
      assert ps == [ps[0]] + ps[1..];
      ParameterNamesOfCons(ps[0], ps[1..]);
      var name := ps[0].name.value;
      var v := Scalars(Find(Parameter, fs, r, name).value.0, ps[0].value).value;
      ParametersReadNames(fs, r, ps[1..], p[name := v], n);
    }
  }

  lemma {:induction false} MetricsReadNames(
      fs: Fields, r: Record, ms: seq<MetricEntry>, p: map<string, Value>, n: string)
    requires FieldsOk(fs) && FitsAll(fs, r) && Typed(fs, p) && MetricsRead(Existing, fs, r, ms, p).Ok?
    ensures n in MetricsRead(Existing, fs, r, ms, p).value <==> n in p || Some(n) in MetricNames(ms)
    decreases |ms|
  {
    if ms != [] {
      assert ms == [ms[0]] + ms[1..];
      MetricNamesOfCons(ms[0], ms[1..]);
      var name := ms[0].name.value;
      var f := Find(Metric, fs, r, name).value;
      MetricsReadNames(fs, r, ms[1..], p[name := Received(Existing, f.0, f.1, ms[0].value).value], n);
    }
  }

  lemma {:induction false} AssignedElsewhere(role: Role, fs: Fields, r: Record, p: map<string, Value>, n: string)
    requires !role.Skipped? && FieldsOk(fs) && FitsAll(fs, r) && Typed(fs, p) && n !in p
    ensures Find(role, fs, Assigned(fs, r, p), n) == Find(role, fs, r, n)
    decreases FieldsSize(fs)
  {
    if fs.Field? {
      TypedRest(fs, p);
      AssignedElsewhere(role, fs.rest, r.rest, p, n);
    }
  }

  /** Whatever an instance says, a successful update leaves alone every field it does not mention. */
  lemma UpdatesKeepTheUnmentioned(t: Kind, r: Record, i: Instance, role: Role, n: string)
    requires t.Nested? && KindOk(t) && FitsAll(t.fields, r) && !role.Skipped?
    requires Some(n) !in ParameterNames(i.parameters) && Some(n) !in MetricNames(i.metrics)
    ensures Updated(t, r, i).Ok? ==> Find(role, t.fields, Updated(t, r, i).value, n) == Find(role, t.fields, r, n)
  {
    if Updated(t, r, i).Ok? {
      var fs := t.fields;
      var p := ParametersRead(fs, r, i.parameters, map[]);
      ParametersReadNames(fs, r, i.parameters, map[], n);
      MetricsReadNames(fs, r, i.metrics, p.value, n);
      AssignedElsewhere(role, fs, r, MetricsRead(Existing, fs, r, i.metrics, p.value).value, n);
    }
  }
}
