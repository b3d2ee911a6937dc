/** The write interceptor: every batch write first validates the field names
    and, when a written field concerns scoping and the model asks for it,
    runs the consistency check before handing the write to the host. */
module Interceptor {
  import opened Outcomes
  import opened Records
  import opened Errors
  import opened Evaluator
  import opened Consistency

  /** What a write that raises nothing does: nothing at all (an empty record
      set), or hand the values to the host's own write. */
  datatype Effect<V> = Untouched | Delegated(vals: seq<(FieldName, V)>)

  /** The field names of a batch of written values, in order. */
  function Keys<V>(vals: seq<(FieldName, V)>): (r: seq<FieldName>)
    ensures |r| == |vals|
    ensures forall i :: 0 <= i < |vals| ==> r[i] == vals[i].0
  {
    seq(|vals|, i requires 0 <= i < |vals| => vals[i].0)
  }

  /** Writing field `name` of `m` calls for the check: it is the
      operating-unit field itself, or a relational field with the marker. */
  predicate Triggers(m: Model, name: FieldName) {
    || name == OperatingUnitField
    || (LookupField(m, name).Some? && LookupField(m, name).value.relational
        && LookupField(m, name).value.checkOperatingUnit)
  }

  predicate NeedsCheck(m: Model, names: seq<FieldName>) {
    exists i :: 0 <= i < |names| && Triggers(m, names[i])
  }

  /** A batch write of `vals` onto `self`, given the outcome of the check
      over all fields of `self`; the outcome matters only when the write
      calls for the check. */
  function Intercept<V>(env: Env, self: RecordSet, vals: seq<(FieldName, V)>, check: Outcome<Failure>)
    : Result<Effect<V>, Failure>
  {
    var m := ModelOf(env.reg, self.model);
    if self.ids == [] then Ok(Untouched)
    else
      match FirstMissing(m, Keys(vals))
      case Some(name) => Err(InvalidField(name, m.name))
      case None =>
        if NeedsCheck(m, Keys(vals)) && m.checkAuto then
          match check
          case Fail(e) => Err(e)
          case Pass => Ok(Delegated(vals))
        else Ok(Delegated(vals))
  }

  /** A batch write of `vals` onto `self`, running the check as intended:
      an inconsistency raises the aggregated error. */
  function Write<V>(env: Env, self: RecordSet, vals: seq<(FieldName, V)>): (r: Result<Effect<V>, Failure>)
    ensures self.ids == [] ==> r == Ok(Untouched)
    ensures r.Ok? && self.ids != [] ==> r.value == Delegated(vals)
  {
    Intercept(env, self, vals, CheckOperatingUnit(env, self, None))
  }

  /** The same write running the check exactly as written, which raises a
      name error where the intended check reports inconsistencies. */
  function WriteAsWritten<V>(env: Env, self: RecordSet, vals: seq<(FieldName, V)>): (r: Result<Effect<V>, Failure>)
    ensures self.ids == [] ==> r == Ok(Untouched)
    ensures r.Ok? && self.ids != [] ==> r.value == Delegated(vals)
    ensures r.Err? ==> !r.error.Incompatible?
  {
    Intercept(env, self, vals, CheckOperatingUnitAsWritten(env, self, None))
  }

  /** The write as written succeeds exactly when the intended one does, and
      otherwise raises the same failure or the name error; where the intended
      write raises the aggregated error, it raises the name error. */
  lemma WriteAsWrittenDiffers<V>(env: Env, self: RecordSet, vals: seq<(FieldName, V)>)
    ensures WriteAsWritten(env, self, vals).Ok? <==> Write(env, self, vals).Ok?
    ensures WriteAsWritten(env, self, vals) == Write(env, self, vals)
      || WriteAsWritten(env, self, vals) == Err(NameNotDefined("_"))
    ensures Write(env, self, vals).Err? && Write(env, self, vals).error.Incompatible? ==>
      WriteAsWritten(env, self, vals) == Err(NameNotDefined("_"))
  {
    AsWrittenNeverReports(env, self, None);
  }

  /** A write fails with the invalid-field error exactly when the record set
      is not empty and some written name is not a field of the model; the
      error names the first such name and the model. */
  lemma WriteRejectsUnknownField<V>(env: Env, self: RecordSet, vals: seq<(FieldName, V)>)
    ensures var m := ModelOf(env.reg, self.model);
      var r := Write(env, self, vals);
      (r.Err? && r.error.InvalidField?) <==>
        self.ids != [] && exists i :: 0 <= i < |vals| && !HasField(m, vals[i].0)
    ensures var m := ModelOf(env.reg, self.model);
      var r := Write(env, self, vals);
      r.Err? && r.error.InvalidField? ==>
        r.error.model == m.name
        && exists i :: 0 <= i < |vals| && vals[i].0 == r.error.field && !HasField(m, vals[i].0)
             && forall j :: 0 <= j < i ==> HasField(m, vals[j].0)
  {
    var m := ModelOf(env.reg, self.model);
    var keys := Keys(vals);
    assert forall i :: 0 <= i < |vals| ==> keys[i] == vals[i].0;
  }

  /** Unless the model asks for automatic checks and a written field calls for
      one, a write of known fields goes straight to the host, whatever the
      stored data. */
  lemma WriteSkipsCheck<V>(env: Env, self: RecordSet, vals: seq<(FieldName, V)>)
    requires self.ids != []
    requires forall i :: 0 <= i < |vals| ==> HasField(ModelOf(env.reg, self.model), vals[i].0)
    requires !(ModelOf(env.reg, self.model).checkAuto && NeedsCheck(ModelOf(env.reg, self.model), Keys(vals)))
    ensures Write(env, self, vals) == Ok(Delegated(vals))
  {
  }

  /** When the model asks for automatic checks and a written field calls for
      one, a write of known fields raises exactly what the check over all
      fields raises, and otherwise goes to the host. */
  lemma WriteRunsCheck<V>(env: Env, self: RecordSet, vals: seq<(FieldName, V)>)
    requires self.ids != []
    requires forall i :: 0 <= i < |vals| ==> HasField(ModelOf(env.reg, self.model), vals[i].0)
    requires ModelOf(env.reg, self.model).checkAuto && NeedsCheck(ModelOf(env.reg, self.model), Keys(vals))
    ensures CheckOperatingUnit(env, self, None).Pass? ==> Write(env, self, vals) == Ok(Delegated(vals))
    ensures CheckOperatingUnit(env, self, None).Fail? ==> Write(env, self, vals) == Err(CheckOperatingUnit(env, self, None).error)
  {
  }

  /** The check runs before the host's write, over the stored values: two
      writes of the same field names onto the same records raise the same
      error whatever values they carry. */
  lemma WriteIgnoresValues<V>(env: Env, self: RecordSet, vals: seq<(FieldName, V)>, others: seq<(FieldName, V)>)
    requires Keys(vals) == Keys(others)
    ensures Write(env, self, vals).Err? <==> Write(env, self, others).Err?
    ensures Write(env, self, vals).Err? ==> Write(env, self, vals).error == Write(env, self, others).error
  {
  }
}
