/**
 The meaning of `#[derive(Template)]`: a schema of named fields, some of them templates in turn, with
 the conversions the derive generates between a struct, an instance that carries all of it, and an
 instance that carries only what changed. Schemas and records are lists, field by field.
 */
module Template {
  import opened Options
  import opened Values

  datatype Role = Metric | Parameter | Skipped

  datatype Kind =
    | Leaf(ty: DataType)
    | Optional(ty: DataType)
    | Nested(ref: string, version: Option<string>, fields: Fields)

  datatype Fields = NoFields | Field(name: string, role: Role, kind: Kind, default: Value, rest: Fields)

  datatype Value = Plain(s: Scalar) | Maybe(o: Option<Scalar>) | Struct(record: Record)

  datatype Record = End | With(value: Value, rest: Record)

  // What travels

  datatype MetricValue =
    | Simple(w: Wire)
    | TemplateValue(
        version: Option<string>, metrics: seq<MetricEntry>, parameters: seq<ParameterEntry>,
        templateRef: Option<string>, isDefinition: Option<bool>)

  datatype MetricEntry = MetricEntry(name: Option<string>, typeCode: nat, value: Option<MetricValue>)

  datatype ParameterEntry = ParameterEntry(name: Option<string>, typeCode: nat, value: Option<Wire>)

  datatype Instance = Instance(
    templateRef: string, version: Option<string>, metrics: seq<MetricEntry>, parameters: seq<ParameterEntry>)

  datatype TemplateError =
    | InvalidPayload
    | UnknownParameter(name: string)
    | UnknownMetric(name: string)
    | RefMismatch(ref: string)
    | VersionMismatch
    | InvalidParameterValue(name: string)
    | InvalidMetricValue(name: string, cause: TemplateError)
    | MissingValue
    | ValueConversion

  datatype Result<+T> = Ok(value: T) | Err(error: TemplateError)

  function IntoMetricValue(i: Instance): MetricValue {
    TemplateValue(i.version, i.metrics, i.parameters, Some(i.templateRef), Some(false))
  }

  function IntoInstance(v: MetricValue): Result<Instance> {
    match v
    case Simple(_) => Err(ValueConversion)
    case TemplateValue(version, metrics, parameters, templateRef, isDefinition) =>
      if isDefinition != Some(false) || templateRef.None? then Err(ValueConversion)
      else Ok(Instance(templateRef.value, version, metrics, parameters))
  }

  // Well-formed schemas and records

  function KindSize(k: Kind): nat {
    if k.Nested? then FieldsSize(k.fields) + 1 else 0
  }

  function FieldsSize(fs: Fields): nat {
    match fs
    case NoFields => 0
    case Field(_, _, kind, _, rest) => KindSize(kind) + FieldsSize(rest) + 1
  }

  ghost function Names(fs: Fields): set<string> {
    match fs
    case NoFields => {}
    case Field(name, role, _, _, rest) => if role.Skipped? then Names(rest) else {name} + Names(rest)
  }

  /** What the derive accepts: distinct names, scalar parameters, defaults of the declared types. */
  ghost predicate KindOk(k: Kind) {
    k.Nested? ==> FieldsOk(k.fields)
  }

  ghost predicate FieldsOk(fs: Fields) {
    match fs
    case NoFields => true
    case Field(name, role, kind, default, rest) =>
      && (role.Skipped? ||
           (name !in Names(rest) && KindOk(kind) && Fits(kind, default) && (role.Parameter? ==> !kind.Nested?)))
      && FieldsOk(rest)
  }

  predicate Fits(k: Kind, v: Value) {
    match k
    case Leaf(ty) => v.Plain? && Has(ty, v.s)
    case Optional(ty) => v.Maybe? && (v.o.Some? ==> Has(ty, v.o.value))
    case Nested(_, _, fields) => v.Struct? && FitsAll(fields, v.record)
  }

  predicate FitsAll(fs: Fields, r: Record) {
    match fs
    case NoFields => r.End?
    case Field(_, role, kind, _, rest) => r.With? && (role.Skipped? || Fits(kind, r.value)) && FitsAll(rest, r.rest)
  }

  function Defaults(fs: Fields): Record {
    match fs
    case NoFields => End
    case Field(_, _, _, default, rest) => With(default, Defaults(rest))
  }

  lemma {:induction false} DefaultsFit(fs: Fields)
    requires FieldsOk(fs)
    ensures FitsAll(fs, Defaults(fs))
  {
    if fs.Field? {
      DefaultsFit(fs.rest);
    }
  }

  function Code(k: Kind): nat {
    if k.Nested? then 19 else k.ty.Code()
  }

  // From a struct to an instance: all of it, or what differs from another

  datatype Extent = Whole | Changes

  function WireOf(k: Kind, v: Value): Option<Wire>
    requires !k.Nested? && Fits(k, v)
  {
    match k
    case Leaf(ty) => Some(Encode(ty, v.s))
    case Optional(ty) => if v.o.Some? then Some(Encode(ty, v.o.value)) else None
  }

  /** The value to send for a field, if it is to be sent. */
  function Sent(extent: Extent, k: Kind, x: Value, y: Value): Option<Option<MetricValue>>
    requires KindOk(k) && Fits(k, x) && Fits(k, y)
    decreases KindSize(k), 1
  {
    if k.Nested? then
      var i := InstanceOf(extent, k, x.record, y.record);
      if i.Some? then Some(Some(IntoMetricValue(i.value))) else None
    else if extent.Changes? && x == y then None
    else if WireOf(k, x).Some? then Some(Some(Simple(WireOf(k, x).value)))
    else Some(None)
  }

  function MetricsOf(extent: Extent, fs: Fields, a: Record, b: Record): seq<MetricEntry>
    requires FieldsOk(fs) && FitsAll(fs, a) && FitsAll(fs, b)
    decreases FieldsSize(fs), 0
  {
    match fs
    case NoFields => []
    case Field(name, role, kind, _, rest) =>
      var others := MetricsOf(extent, rest, a.rest, b.rest);
      if !role.Metric? then others
      else
        var sent := Sent(extent, kind, a.value, b.value);
        if sent.None? then others else [MetricEntry(Some(name), Code(kind), sent.value)] + others
  }

  function ParametersOf(extent: Extent, fs: Fields, a: Record, b: Record): seq<ParameterEntry>
    requires FieldsOk(fs) && FitsAll(fs, a) && FitsAll(fs, b)
  {
    match fs
    case NoFields => []
    case Field(name, role, kind, _, rest) =>
      var others := ParametersOf(extent, rest, a.rest, b.rest);
      if !role.Parameter? || (extent.Changes? && a.value == b.value) then others
      else [ParameterEntry(Some(name), Code(kind), WireOf(kind, a.value))] + others
  }

  /** The whole of `a`, or what of it differs from `b`, if anything. */
  function InstanceOf(extent: Extent, t: Kind, a: Record, b: Record): Option<Instance>
    requires t.Nested? && KindOk(t) && FitsAll(t.fields, a) && FitsAll(t.fields, b)
    decreases KindSize(t), 0
  {
    var metrics := MetricsOf(extent, t.fields, a, b);
    var parameters := ParametersOf(extent, t.fields, a, b);
    if extent.Changes? && parameters == [] && metrics == [] then None
    else Some(Instance(t.ref, t.version, metrics, parameters))
  }

  // From an instance to a struct: on top of an existing one, or of the defaults

  datatype Base = Existing | Default

  /** The kind of the unskipped field of that name. */
  ghost function KindAt(fs: Fields, name: string): Option<Kind> {
    match fs
    case NoFields => None
    case Field(n, role, kind, _, rest) => if !role.Skipped? && n == name then Some(kind) else KindAt(rest, name)
  }

  /** The field of that name and role, with its value in the record. */
  function Find(role: Role, fs: Fields, r: Record, name: string): (f: Option<(Kind, Value)>)
    requires !role.Skipped? && FieldsOk(fs) && FitsAll(fs, r)
    ensures f.Some? ==> KindSize(f.value.0) < FieldsSize(fs) && KindOk(f.value.0) && Fits(f.value.0, f.value.1)
    ensures f.Some? ==> name in Names(fs) && KindAt(fs, name) == Some(f.value.0)
    ensures f.Some? && role.Parameter? ==> !f.value.0.Nested?
  {
    match fs
    case NoFields => None
    case Field(n, ro, kind, _, rest) =>
      if ro == role && n == name then Some((kind, r.value)) else Find(role, rest, r.rest, name)
  }

  function Scalars(k: Kind, w: Option<Wire>): (r: Result<Value>)
    requires !k.Nested?
    ensures r.Ok? ==> Fits(k, r.value)
  {
    match w
    case None => if k.Optional? then Ok(Maybe(None)) else Err(MissingValue)
    case Some(wire) =>
      DecodedHasType(k.ty, wire);
      var s := Decode(k.ty, wire);
      if s.None? then Err(InvalidMetricValue("", ValueConversion))
      else Ok(if k.Optional? then Maybe(s) else Plain(s.value))
  }

  /** What becomes of a field's value when its metric is received. */
  function Received(base: Base, k: Kind, prior: Value, v: Option<MetricValue>): (r: Result<Value>)
    requires KindOk(k) && Fits(k, prior)
    ensures r.Ok? ==> Fits(k, r.value)
    decreases KindSize(k), 1
  {
    if k.Nested? then
      if v.None? then (if base.Existing? then Ok(prior) else Err(MissingValue))
      else
        var i := IntoInstance(v.value);
        if i.Err? then Err(i.error)
        else
          DefaultsFit(k.fields);
          var r := Applied(base, k, if base.Existing? then prior.record else Defaults(k.fields), i.value);
          if r.Ok? then Ok(Struct(r.value)) else Err(r.error)
    else if v.Some? && !v.value.Simple? then Err(InvalidMetricValue("", ValueConversion))
    else Scalars(k, if v.Some? then Some(v.value.w) else None)
  }

  /** New values for some fields, of the fields' types. */
  ghost predicate Typed(fs: Fields, p: map<string, Value>) {
    forall n :: n in p && KindAt(fs, n).Some? ==> Fits(KindAt(fs, n).value, p[n])
  }

  /** Read parameters one by one; the first that is wrong ends it. */
  function ParametersRead(
      fs: Fields, r: Record, ps: seq<ParameterEntry>, p: map<string, Value>): (q: Result<map<string, Value>>)
    requires FieldsOk(fs) && FitsAll(fs, r) && Typed(fs, p)
    ensures q.Ok? ==> Typed(fs, q.value)
    decreases |ps|
  {
    if ps == [] then Ok(p)
    else if ps[0].name.None? then Err(InvalidPayload)
    else
      var name := ps[0].name.value;
      var f := Find(Parameter, fs, r, name);
      if f.None? then Err(UnknownParameter(name))
      else
        var v := Scalars(f.value.0, ps[0].value);
        if v.Err? then Err(InvalidParameterValue(name))
        else ParametersRead(fs, r, ps[1..], p[name := v.value])
  }

  function MetricsRead(
      base: Base, fs: Fields, r: Record, ms: seq<MetricEntry>, p: map<string, Value>): (q: Result<map<string, Value>>)
    requires FieldsOk(fs) && FitsAll(fs, r) && Typed(fs, p)
    ensures q.Ok? ==> Typed(fs, q.value)
    decreases FieldsSize(fs), |ms|
  {
    if ms == [] then Ok(p)
    else if ms[0].name.None? then Err(InvalidPayload)
    else
      var name := ms[0].name.value;
      var f := Find(Metric, fs, r, name);
      if f.None? then Err(UnknownMetric(name))
      else
        var v := Received(base, f.value.0, f.value.1, ms[0].value);
        if v.Err? then Err(InvalidMetricValue(name, v.error))
        else MetricsRead(base, fs, r, ms[1..], p[name := v.value])
  }

  /** The record with the new values in place. */
  function Assigned(fs: Fields, r: Record, p: map<string, Value>): (q: Record)
    requires FieldsOk(fs) && FitsAll(fs, r) && Typed(fs, p)
    ensures FitsAll(fs, q)
  {
    match fs
    case NoFields => End
    case Field(name, role, kind, _, rest) =>
      TypedRest(fs, p);
      With(if !role.Skipped? && name in p then p[name] else r.value, Assigned(rest, r.rest, p))
  }

  lemma TypedRest(fs: Fields, p: map<string, Value>)
    requires fs.Field? && FieldsOk(fs) && Typed(fs, p)
    ensures Typed(fs.rest, p)
    ensures !fs.role.Skipped? && fs.name in p ==> Fits(fs.kind, p[fs.name])
  {
    forall n | n in p && KindAt(fs.rest, n).Some? ensures Fits(KindAt(fs.rest, n).value, p[n]) {
      NamedOnly(fs.rest, n);
      assert KindAt(fs, n) == KindAt(fs.rest, n);
    }
    if !fs.role.Skipped? {
      assert KindAt(fs, fs.name) == Some(fs.kind);
    }
  }

  lemma {:induction false} NamedOnly(fs: Fields, n: string)
    ensures KindAt(fs, n).Some? <==> n in Names(fs)
  {
    if fs.Field? {
      NamedOnly(fs.rest, n);
    }
  }

  /** The record after an instance; nothing is assigned unless all of it is right. */
  function Applied(base: Base, t: Kind, r: Record, i: Instance): (q: Result<Record>)
    requires t.Nested? && KindOk(t) && FitsAll(t.fields, r)
    ensures q.Ok? ==> FitsAll(t.fields, q.value)
    decreases KindSize(t), 0
  {
    if i.templateRef != t.ref then Err(RefMismatch(i.templateRef))
    else if i.version != t.version then Err(VersionMismatch)
    else
      var p := ParametersRead(t.fields, r, i.parameters, map[]);
      if p.Err? then Err(p.error)
      else
        var q := MetricsRead(base, t.fields, r, i.metrics, p.value);
        if q.Err? then Err(q.error) else Ok(Assigned(t.fields, r, q.value))
  }

  /** `update_from_instance`. */
  function Updated(t: Kind, r: Record, i: Instance): Result<Record>
    requires t.Nested? && KindOk(t) && FitsAll(t.fields, r)
  {
    Applied(Existing, t, r, i)
  }

  /** `TryFrom<TemplateInstance>`. */
  function Created(t: Kind, i: Instance): Result<Record>
    requires t.Nested? && KindOk(t)
  {
    DefaultsFit(t.fields);
    Applied(Default, t, Defaults(t.fields), i)
  }
}
