/** The generated conversions as they run: loops over entries into temporaries, assigned at the end. */
module TemplateTask {
  import opened Options
  import opened Template

  class Target {
    const t: Kind
    var record: Record

    ghost predicate Valid()
      reads this
    {
      t.Nested? && KindOk(t) && FitsAll(t.fields, record)
    }

    constructor (t: Kind, record: Record)
      requires t.Nested? && KindOk(t) && FitsAll(t.fields, record)
      ensures Valid() && this.t == t && this.record == record
    {
      this.t, this.record := t, record;
    }

    /** A failing update leaves the target as it was. */
    method UpdateFromInstance(i: Instance) returns (error: Option<TemplateError>)
      requires Valid()
      modifies this`record
      ensures Valid()
      ensures Updated(t, old(record), i) == if error.None? then Ok(record) else Err(error.value)
      ensures error.Some? ==> record == old(record)
      decreases KindSize(t), 1
    {
      var q := ReadInstance(Existing, t, record, i);
      match q
      case Ok(r) =>
        record := r;
        error := None;
      case Err(e) => error := Some(e);
    }
  }

  method CreateFromInstance(t: Kind, i: Instance) returns (r: Result<Record>)
    requires t.Nested? && KindOk(t)
    ensures r == Created(t, i)
  {
    DefaultsFit(t.fields);
    r := ReadInstance(Default, t, Defaults(t.fields), i);
  }

  /** Nested targets are updated on a copy. */
  method ReceiveMetric(base: Base, k: Kind, prior: Value, v: Option<MetricValue>) returns (r: Result<Value>)
    requires KindOk(k) && Fits(k, prior)
    ensures r == Received(base, k, prior, v)
    decreases KindSize(k), 2
  {
    if !k.Nested? { return Received(base, k, prior, v); }
    if v.None? {
      return if base == Existing then Ok(prior) else Err(MissingValue);
    }
    var i := IntoInstance(v.value);
    if i.Err? { return Err(i.error); }
    if base == Existing {
      var tmp := new Target(k, prior.record);
      var error := tmp.UpdateFromInstance(i.value);
      return if error.Some? then Err(error.value) else Ok(Struct(tmp.record));
    }
    DefaultsFit(k.fields);
    var created := ReadInstance(Default, k, Defaults(k.fields), i.value);
    return if created.Ok? then Ok(Struct(created.value)) else Err(created.error);
  }

  method ReadInstance(base: Base, t: Kind, r: Record, i: Instance) returns (q: Result<Record>)
    requires t.Nested? && KindOk(t) && FitsAll(t.fields, r)
    ensures q == Applied(base, t, r, i)
    decreases KindSize(t), 0
  {
    if i.templateRef != t.ref { return Err(RefMismatch(i.templateRef)); }
    if i.version != t.version { return Err(VersionMismatch); }
    var fs := t.fields;
    var p: map<string, Value> := map[];
    for j := 0 to |i.parameters|
      invariant Typed(fs, p)
      invariant ParametersRead(fs, r, i.parameters, map[]) == ParametersRead(fs, r, i.parameters[j..], p)
    {
      var e := i.parameters[j];
      assert i.parameters[j..][0] == e && i.parameters[j..][1..] == i.parameters[j + 1..];
      if e.name.None? { return Err(InvalidPayload); }
      var f := Find(Parameter, fs, r, e.name.value);
      if f.None? { return Err(UnknownParameter(e.name.value)); }
      var v := Scalars(f.value.0, e.value);
      if v.Err? { return Err(InvalidParameterValue(e.name.value)); }
      p := p[e.name.value := v.value];
    }
    ghost var parameters := p;
    for j := 0 to |i.metrics|
      invariant Typed(fs, parameters) && Typed(fs, p)
      invariant MetricsRead(base, fs, r, i.metrics, parameters) == MetricsRead(base, fs, r, i.metrics[j..], p)
    {
      var e := i.metrics[j];
      assert i.metrics[j..][0] == e && i.metrics[j..][1..] == i.metrics[j + 1..];
      if e.name.None? { return Err(InvalidPayload); }
      var f := Find(Metric, fs, r, e.name.value);
      if f.None? { return Err(UnknownMetric(e.name.value)); }
      var v := ReceiveMetric(base, f.value.0, f.value.1, e.value);
      if v.Err? { return Err(InvalidMetricValue(e.name.value, v.error)); }
      p := p[e.name.value := v.value];
    }
    return Ok(Assigned(fs, r, p));
  }
}
