/**
 Which instances a template accepts, from whoever they come: exactly those of its own reference and version
 whose every entry names a field of its kind and carries a value for it. And what becomes of the rest.
 */
module TemplateAcceptance {
  import opened Options
  import opened Values
  import opened Template

  /** The unskipped field of that name. */
  ghost function FieldNamed(fs: Fields, name: string): (f: Option<(Role, Kind)>)
    ensures f.Some? ==> KindSize(f.value.1) < FieldsSize(fs) && name in Names(fs)
    ensures f.Some? && FieldsOk(fs) ==> KindOk(f.value.1) && (f.value.0.Parameter? ==> !f.value.1.Nested?)
  {
    match fs
    case NoFields => None
    case Field(n, role, kind, _, rest) =>
      if !role.Skipped? && n == name then Some((role, kind)) else FieldNamed(rest, name)
  }

  lemma {:induction false} FoundIsNamed(role: Role, fs: Fields, r: Record, name: string)
    requires !role.Skipped? && FieldsOk(fs) && FitsAll(fs, r)
    ensures var f := Find(role, fs, r, name);
            if f.Some? then FieldNamed(fs, name) == Some((role, f.value.0))
            else FieldNamed(fs, name).None? || FieldNamed(fs, name).value.0 != role
    decreases FieldsSize(fs)
  {
    if fs.Field? {
      FoundIsNamed(role, fs.rest, r.rest, name);
    }
  }

  // Scalars

  /** A value for a scalar field: one of its type, or none for an optional field. */
  ghost predicate ScalarOk(k: Kind, w: Option<Wire>)
    requires !k.Nested?
  {
    if w.None? then k.Optional? else Decode(k.ty, w.value).Some?
  }

  ghost function ScalarOf(k: Kind, w: Option<Wire>): Value
    requires !k.Nested? && ScalarOk(k, w)
  {
    if w.None? then Maybe(None)
    else if k.Optional? then Maybe(Decode(k.ty, w.value))
    else Plain(Decode(k.ty, w.value).value)
  }

  lemma ScalarsExactly(k: Kind, w: Option<Wire>)
    requires !k.Nested?
    ensures if ScalarOk(k, w) then Scalars(k, w) == Ok(ScalarOf(k, w)) else Scalars(k, w).Err?
  {
  }

  // Acceptance

  ghost predicate ParameterOk(fs: Fields, e: ParameterEntry)
    requires FieldsOk(fs)
  {
    e.name.Some? &&
    var f := FieldNamed(fs, e.name.value);
    f.Some? && f.value.0.Parameter? && ScalarOk(f.value.1, e.value)
  }

  ghost predicate MetricOk(base: Base, fs: Fields, e: MetricEntry)
    requires FieldsOk(fs)
    decreases FieldsSize(fs), 0
  {
    e.name.Some? &&
    var f := FieldNamed(fs, e.name.value);
    f.Some? && f.value.0.Metric? && ValueOk(base, f.value.1, e.value)
  }

  /**
   A value for a metric: scalar for a scalar field, an acceptable instance for a nested one, or none where one
   exists.
   */
  ghost predicate ValueOk(base: Base, k: Kind, v: Option<MetricValue>)
    requires KindOk(k)
    decreases KindSize(k), 1
  {
    if !k.Nested? then
      if v.None? then ScalarOk(k, None) else v.value.Simple? && ScalarOk(k, Some(v.value.w))
    else if v.None? then base.Existing?
    else
      && v.value.TemplateValue? && v.value.isDefinition == Some(false) && v.value.templateRef.Some?
      && Acceptable(base, k, Instance(v.value.templateRef.value, v.value.version, v.value.metrics, v.value.parameters))
  }

  ghost predicate Acceptable(base: Base, t: Kind, i: Instance)
    requires t.Nested? && KindOk(t)
    decreases KindSize(t), 0
  {
    && i.templateRef == t.ref && i.version == t.version
    && (forall e :: e in i.parameters ==> ParameterOk(t.fields, e))
    && (forall e :: e in i.metrics ==> MetricOk(base, t.fields, e))
  }

  // Refusal

  /** What the first wrong parameter is refused with. */
  ghost function ParametersError(fs: Fields, ps: seq<ParameterEntry>): (e: Option<TemplateError>)
    requires FieldsOk(fs)
    ensures e.None? <==> forall x :: x in ps ==> ParameterOk(fs, x)
  {
    if ps == [] then None
    else
      assert forall x :: x in ps <==> x == ps[0] || x in ps[1..];
      if ParameterOk(fs, ps[0]) then ParametersError(fs, ps[1..])
      else if ps[0].name.None? then Some(InvalidPayload)
      else
        var name := ps[0].name.value;
        var f := FieldNamed(fs, name);
        Some(if f.None? || !f.value.0.Parameter? then UnknownParameter(name) else InvalidParameterValue(name))
  }

  /** And the first wrong metric, with its cause below. */
  ghost function MetricsError(base: Base, fs: Fields, ms: seq<MetricEntry>): (e: Option<TemplateError>)
    requires FieldsOk(fs)
    ensures e.None? <==> forall x :: x in ms ==> MetricOk(base, fs, x)
    decreases FieldsSize(fs), |ms| + 1
  {
    if ms == [] then None
    else
      assert forall x :: x in ms <==> x == ms[0] || x in ms[1..];
      if MetricOk(base, fs, ms[0]) then MetricsError(base, fs, ms[1..])
      else
        assert ms[0] in ms;
        Some(MetricError(base, fs, ms[0]))
  }

  ghost function MetricError(base: Base, fs: Fields, e: MetricEntry): TemplateError
    requires FieldsOk(fs) && !MetricOk(base, fs, e)
    decreases FieldsSize(fs), 0
  {
    if e.name.None? then InvalidPayload
    else
      var f := FieldNamed(fs, e.name.value);
      if f.None? || !f.value.0.Metric? then UnknownMetric(e.name.value)
      else InvalidMetricValue(e.name.value, ValueError(base, f.value.1, e.value))
  }

  ghost function ValueError(base: Base, k: Kind, v: Option<MetricValue>): TemplateError
    requires KindOk(k) && !ValueOk(base, k, v)
    decreases KindSize(k), 1
  {
    if v.None? then MissingValue
    else if !k.Nested? then InvalidMetricValue("", ValueConversion)
    else if !v.value.TemplateValue? || v.value.isDefinition != Some(false) || v.value.templateRef.None? then
      ValueConversion
    else
      Refusal(base, k, Instance(v.value.templateRef.value, v.value.version, v.value.metrics, v.value.parameters)).value
  }

  /** What an instance is refused with, if it is: the reference first, then the version, the parameters, the metrics. */
  ghost function Refusal(base: Base, t: Kind, i: Instance): (e: Option<TemplateError>)
    requires t.Nested? && KindOk(t)
    ensures e.None? <==> Acceptable(base, t, i)
    decreases KindSize(t), 0
  {
    if i.templateRef != t.ref then Some(RefMismatch(i.templateRef))
    else if i.version != t.version then Some(VersionMismatch)
    else if ParametersError(t.fields, i.parameters).Some? then ParametersError(t.fields, i.parameters)
    else MetricsError(base, t.fields, i.metrics)
  }

  /** The conversions do as said. */
  ghost predicate EndsWith<T>(q: Result<T>, refusal: Option<TemplateError>) {
    if refusal.None? then q.Ok? else q == Err(refusal.value)
  }

  lemma {:induction false} ParametersAreReadExactly(
      fs: Fields, r: Record, ps: seq<ParameterEntry>, p: map<string, Value>)
    requires FieldsOk(fs) && FitsAll(fs, r) && Typed(fs, p)
    ensures EndsWith(ParametersRead(fs, r, ps, p), ParametersError(fs, ps))
    decreases |ps|
  {
    if ps != [] && ps[0].name.Some? {
      var name := ps[0].name.value;
      FoundIsNamed(Parameter, fs, r, name);
      var f := Find(Parameter, fs, r, name);
      if f.Some? {
        ScalarsExactly(f.value.0, ps[0].value);
        var v := Scalars(f.value.0, ps[0].value);
        if v.Ok? {
          assert Typed(fs, p[name := v.value]);
          hide Typed, Find, Scalars, FieldNamed, ScalarOk;
          ParametersAreReadExactly(fs, r, ps[1..], p[name := v.value]);
        }
      }
    }
  }

  lemma {:induction false} MetricsAreReadExactly(
      base: Base, fs: Fields, r: Record, ms: seq<MetricEntry>, p: map<string, Value>)
    requires FieldsOk(fs) && FitsAll(fs, r) && Typed(fs, p)
    ensures EndsWith(MetricsRead(base, fs, r, ms, p), MetricsError(base, fs, ms))
    decreases FieldsSize(fs), |ms|
  {
    if ms != [] && ms[0].name.Some? {
      var name := ms[0].name.value;
      FoundIsNamed(Metric, fs, r, name);
      var f := Find(Metric, fs, r, name);
      if f.Some? {
        ValuesAreReceivedExactly(base, f.value.0, f.value.1, ms[0].value);
        var v := Received(base, f.value.0, f.value.1, ms[0].value);
        if v.Ok? {
          assert Typed(fs, p[name := v.value]);
          hide Typed, Find, Received, FieldNamed, ValueOk, ValueError;
          MetricsAreReadExactly(base, fs, r, ms[1..], p[name := v.value]);
        }
      }
    }
  }

  lemma {:induction false} ValuesAreReceivedExactly(base: Base, k: Kind, y: Value, v: Option<MetricValue>)
    requires KindOk(k) && Fits(k, y)
    ensures var q := Received(base, k, y, v);
            if ValueOk(base, k, v) then q.Ok? else q == Err(ValueError(base, k, v))
    decreases KindSize(k), 1
  {
    if k.Nested? {
      if v.Some? && IntoInstance(v.value).Ok? {
        DefaultsFit(k.fields);
        AcceptsExactly(base, k, if base.Existing? then y.record else Defaults(k.fields), IntoInstance(v.value).value);
        hide Acceptable, Refusal, Applied;
      }
    } else if v.Some? && v.value.Simple? {
      ScalarsExactly(k, Some(v.value.w));
    } else if v.None? {
      ScalarsExactly(k, None);
    }
  }

  /**
   Acceptance, exactly, for an update and for a conversion: an instance is accepted if and only if it is of
   the template's reference and version, every parameter names a parameter and every metric a metric, and
   each carries a value for it, at every level of nesting. Whatever the target holds, a refused instance is
   refused for its reference first, then for its version, then for its first wrong entry, parameters first.
   */
  lemma {:induction false} AcceptsExactly(base: Base, t: Kind, r: Record, i: Instance)
    requires t.Nested? && KindOk(t) && FitsAll(t.fields, r)
    ensures Applied(base, t, r, i).Ok? <==> Acceptable(base, t, i)
    ensures !Acceptable(base, t, i) ==> Applied(base, t, r, i) == Err(Refusal(base, t, i).value)
    decreases KindSize(t), 0
  {
    if i.templateRef == t.ref && i.version == t.version {
      var fs := t.fields;
      ParametersAreReadExactly(fs, r, i.parameters, map[]);
      var p := ParametersRead(fs, r, i.parameters, map[]);
      if p.Ok? {
        MetricsAreReadExactly(base, fs, r, i.metrics, p.value);
      }
      hide MetricsRead, ParametersRead, ParameterOk, MetricOk, MetricsError, ParametersError;
    }
  }

  /** An instance of another template, or of another version of it, is refused as such, whatever else it holds. */
  lemma OtherTemplatesAreRefused(t: Kind, r: Record, i: Instance)
    requires t.Nested? && KindOk(t) && FitsAll(t.fields, r)
    ensures i.templateRef != t.ref ==> Updated(t, r, i) == Created(t, i) == Err(RefMismatch(i.templateRef))
    ensures i.templateRef == t.ref && i.version != t.version ==>
              Updated(t, r, i) == Created(t, i) == Err(VersionMismatch)
  {
    DefaultsFit(t.fields);
    AcceptsExactly(Existing, t, r, i);
    AcceptsExactly(Default, t, Defaults(t.fields), i);
    hide Applied, MetricOk, ParameterOk;
  }

  // What arrives

  /** The last parameter of that name, and the last metric. */
  ghost function LastParameter(ps: seq<ParameterEntry>, name: string): Option<ParameterEntry> {
    if ps == [] then None
    else if LastParameter(ps[1..], name).Some? then LastParameter(ps[1..], name)
    else if ps[0].name == Some(name) then Some(ps[0])
    else None
  }

  ghost function LastMetric(ms: seq<MetricEntry>, name: string): Option<MetricEntry> {
    if ms == [] then None
    else if LastMetric(ms[1..], name).Some? then LastMetric(ms[1..], name)
    else if ms[0].name == Some(name) then Some(ms[0])
    else None
  }

  /** What is read for a name, on top of what had been read. */
  ghost predicate ReadFor(p: map<string, Value>, q: map<string, Value>, name: string, v: Option<Value>) {
    if v.Some? then name in q && q[name] == v.value
    else (name in q <==> name in p) && (name in p ==> q[name] == p[name])
  }

  lemma {:induction false} ParametersReadLast(
      fs: Fields, r: Record, ps: seq<ParameterEntry>, p: map<string, Value>, name: string)
    requires FieldsOk(fs) && FitsAll(fs, r) && Typed(fs, p) && ParametersRead(fs, r, ps, p).Ok?
    ensures var e := LastParameter(ps, name);
            var f := FieldNamed(fs, name);
            && (e.Some? ==> f.Some? && f.value.0.Parameter? && ScalarOk(f.value.1, e.value.value))
            && ReadFor(p, ParametersRead(fs, r, ps, p).value, name,
                       if e.Some? then Some(ScalarOf(f.value.1, e.value.value)) else None)
    decreases |ps|
  {
    if ps != [] {
      var own := ps[0].name.value;
      FoundIsNamed(Parameter, fs, r, own);
      var k := Find(Parameter, fs, r, own).value.0;
      ScalarsExactly(k, ps[0].value);
      var v := Scalars(k, ps[0].value).value;
      assert Typed(fs, p[own := v]);
      hide Typed, Find, FieldNamed, ScalarOk, ScalarOf, Scalars;
      ParametersReadLast(fs, r, ps[1..], p[own := v], name);
    }
  }

  /** What a nested or scalar field becomes, from what it was and the value of a metric. */
  ghost function ArrivedAs(base: Base, k: Kind, y: Value, v: Option<MetricValue>): Value
    requires KindOk(k) && Fits(k, y) && ValueOk(base, k, v)
  {
    if !k.Nested? then ScalarOf(k, if v.None? then None else Some(v.value.w))
    else if v.None? then y
    else
      DefaultsFit(k.fields);
      var prior := if base.Existing? then y.record else Defaults(k.fields);
      var i := Instance(v.value.templateRef.value, v.value.version, v.value.metrics, v.value.parameters);
      AcceptsExactly(base, k, prior, i);
      Struct(Applied(base, k, prior, i).value)
  }

  lemma ReceivedArrives(base: Base, k: Kind, y: Value, v: Option<MetricValue>)
    requires KindOk(k) && Fits(k, y) && Received(base, k, y, v).Ok?
    ensures ValueOk(base, k, v) && Received(base, k, y, v).value == ArrivedAs(base, k, y, v)
  {
    ValuesAreReceivedExactly(base, k, y, v);
    if !k.Nested? {
      ScalarsExactly(k, if v.None? then None else Some(v.value.w));
    }
    hide Applied, Acceptable;
  }

  lemma {:induction false} MetricsReadLast(
      base: Base, fs: Fields, r: Record, ms: seq<MetricEntry>, p: map<string, Value>, name: string)
    requires FieldsOk(fs) && FitsAll(fs, r) && Typed(fs, p) && MetricsRead(base, fs, r, ms, p).Ok?
    ensures var e := LastMetric(ms, name);
            var f := Find(Metric, fs, r, name);
            && (e.Some? ==> f.Some? && ValueOk(base, f.value.0, e.value.value))
            && ReadFor(p, MetricsRead(base, fs, r, ms, p).value, name,
                       if e.Some? then Some(ArrivedAs(base, f.value.0, f.value.1, e.value.value)) else None)
    decreases |ms|
  {
    if ms != [] {
      var own := ms[0].name.value;
      var (k, y) := Find(Metric, fs, r, own).value;
      ReceivedArrives(base, k, y, ms[0].value);
      var v := Received(base, k, y, ms[0].value).value;
      assert Typed(fs, p[own := v]);
      hide Typed, Find, Received, ValueOk, ArrivedAs;
      MetricsReadLast(base, fs, r, ms[1..], p[own := v], name);
    }
  }

  lemma {:induction false} AssignedAt(role: Role, fs: Fields, r: Record, p: map<string, Value>, name: string)
    requires !role.Skipped? && FieldsOk(fs) && FitsAll(fs, r) && Typed(fs, p) && Find(role, fs, r, name).Some?
    ensures var (k, y) := Find(role, fs, r, name).value;
            Find(role, fs, Assigned(fs, r, p), name) == Some((k, if name in p then p[name] else y))
    decreases FieldsSize(fs)
  {
    TypedRest(fs, p);
    if !(fs.role == role && fs.name == name) {
      AssignedAt(role, fs.rest, r.rest, p, name);
    }
  }

  /**
   What an accepted instance makes of a field: the last entry that names it decides, on top of what the field
   was; a field that no entry names stays as it was.
   */
  lemma LastEntryArrives(base: Base, t: Kind, r: Record, i: Instance, role: Role, name: string)
    requires t.Nested? && KindOk(t) && FitsAll(t.fields, r) && Applied(base, t, r, i).Ok?
    requires !role.Skipped? && Find(role, t.fields, r, name).Some?
    ensures var q := Applied(base, t, r, i).value;
            var (k, y) := Find(role, t.fields, r, name).value;
            var p, m := LastParameter(i.parameters, name), LastMetric(i.metrics, name);
            var expected :=
              if role.Parameter? && p.Some? && ScalarOk(k, p.value.value) then ScalarOf(k, p.value.value)
              else if role.Metric? && m.Some? && ValueOk(base, k, m.value.value) then
                ArrivedAs(base, k, y, m.value.value)
              else y;
            && Find(role, t.fields, q, name) == Some((k, expected))
            && (role.Parameter? && p.Some? ==> ScalarOk(k, p.value.value))
            && (role.Metric? && m.Some? ==> ValueOk(base, k, m.value.value))
  {
    var fs := t.fields;
    FoundIsNamed(role, fs, r, name);
    FoundIsNamed(Metric, fs, r, name);
    var p := ParametersRead(fs, r, i.parameters, map[]).value;
    ParametersReadLast(fs, r, i.parameters, map[], name);
    MetricsReadLast(base, fs, r, i.metrics, p, name);
    AssignedAt(role, fs, r, MetricsRead(base, fs, r, i.metrics, p).value, name);
    hide ParametersRead, MetricsRead, Find, FieldNamed, Assigned, ValueOk, ScalarOk, ScalarOf, ArrivedAs;
    hide LastParameter, LastMetric;
  }

  // What is sent

  /** Every metric sent is a metric of the template, under its type's number; templates are type 19. */
  lemma {:induction false} MetricsCarryTheirType(extent: Extent, fs: Fields, a: Record, b: Record, e: MetricEntry)
    requires FieldsOk(fs) && FitsAll(fs, a) && FitsAll(fs, b) && e in MetricsOf(extent, fs, a, b)
    ensures e.name.Some? &&
            var f := FieldNamed(fs, e.name.value);
            f.Some? && f.value.0.Metric? && e.typeCode == if f.value.1.Nested? then 19 else f.value.1.ty.Code()
    decreases FieldsSize(fs)
  {
    var others := MetricsOf(extent, fs.rest, a.rest, b.rest);
    if e in others {
      MetricsCarryTheirType(extent, fs.rest, a.rest, b.rest, e);
    }
    hide Sent, DataType.Code;
  }

  lemma {:induction false} ParametersCarryTheirType(extent: Extent, fs: Fields, a: Record, b: Record, e: ParameterEntry)
    requires FieldsOk(fs) && FitsAll(fs, a) && FitsAll(fs, b) && e in ParametersOf(extent, fs, a, b)
    ensures e.name.Some? &&
            var f := FieldNamed(fs, e.name.value);
            f.Some? && f.value.0.Parameter? && !f.value.1.Nested? && e.typeCode == f.value.1.ty.Code()
    decreases FieldsSize(fs)
  {
    var others := ParametersOf(extent, fs.rest, a.rest, b.rest);
    if e in others {
      ParametersCarryTheirType(extent, fs.rest, a.rest, b.rest, e);
    }
    hide WireOf, DataType.Code;
  }
}
