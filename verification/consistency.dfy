/** The consistency check as a whole: select the fields, collect the
    inconsistent pairs, and raise one aggregated error when there are any. */
module Consistency {
  import opened Outcomes
  import opened Records
  import opened Errors
  import opened Selection
  import opened Evaluator
  import opened Reporter

  /** The inconsistent pairs of the records of `self` over the fields the
      check selects from `fieldNames`; none when no field is selected. */
  function Scan(env: Env, self: RecordSet, fieldNames: Option<seq<FieldName>>): (r: Result<seq<Violation>, Failure>)
    ensures r.Err? ==> r.error.MissingField?
  {
    var m := ModelOf(env.reg, self.model);
    var sel :- SelectFields(env.reg, m, NamesToCheck(m, fieldNames));
    if sel.regular == [] && sel.property == [] then Ok([])
    else Inconsistencies(env, m, self.ids, sel)
  }

  /** The check: passes when nothing is inconsistent, raises the aggregated
      error over the first five inconsistencies otherwise, and raises
      unchanged any failure the host raised along the way. */
  function CheckOperatingUnit(env: Env, self: RecordSet, fieldNames: Option<seq<FieldName>>): (r: Outcome<Failure>)
    ensures r.Pass? <==> Scan(env, self, fieldNames) == Ok([])
    ensures r.Fail? ==> r.error.MissingField? || r.error.Incompatible?
    ensures Scan(env, self, fieldNames).Err? ==> r == Fail(Scan(env, self, fieldNames).error)
    ensures Scan(env, self, fieldNames).Ok? && Scan(env, self, fieldNames).value != [] ==>
      var lines := Report(env.store, ModelOf(env.reg, self.model), Scan(env, self, fieldNames).value);
      lines.Err? ==> r == Fail(lines.error)
    ensures r.Fail? && r.error.Incompatible? ==>
      && Scan(env, self, fieldNames).Ok?
      && Scan(env, self, fieldNames).value != []
      && r.error.header == Header
      && Report(env.store, ModelOf(env.reg, self.model), Scan(env, self, fieldNames).value) == Ok(r.error.lines)
    ensures Scan(env, self, fieldNames).Ok? && Scan(env, self, fieldNames).value != [] ==>
      var lines := Report(env.store, ModelOf(env.reg, self.model), Scan(env, self, fieldNames).value);
      lines.Ok? ==> r == Fail(Incompatible(Header, lines.value))
  {
    match Scan(env, self, fieldNames)
    case Err(e) => Fail(e)
    case Ok(vs) =>
      if vs == [] then Pass
      else
        match Report(env.store, ModelOf(env.reg, self.model), vs)
        case Err(e) => Fail(e)
        case Ok(lines) => Fail(Incompatible(Header, lines))
  }

  /** The check exactly as written: the report path first calls the
      translation function `_`, which the module never imports, so reaching
      it raises a name error instead of the aggregated error. */
  function CheckOperatingUnitAsWritten(env: Env, self: RecordSet, fieldNames: Option<seq<FieldName>>): Outcome<Failure> {
    match Scan(env, self, fieldNames)
    case Err(e) => Fail(e)
    case Ok(vs) => if vs == [] then Pass else Fail(NameNotDefined("_"))
  }

  /** As written, the check never raises the aggregated error: wherever the
      intended check reports inconsistencies, it raises a name error. */
  lemma AsWrittenNeverReports(env: Env, self: RecordSet, fieldNames: Option<seq<FieldName>>)
    ensures CheckOperatingUnitAsWritten(env, self, fieldNames).Fail? ==>
      !CheckOperatingUnitAsWritten(env, self, fieldNames).error.Incompatible?
    ensures CheckOperatingUnit(env, self, fieldNames).Fail? && CheckOperatingUnit(env, self, fieldNames).error.Incompatible? ==>
      CheckOperatingUnitAsWritten(env, self, fieldNames) == Fail(NameNotDefined("_"))
    ensures CheckOperatingUnit(env, self, fieldNames).Pass? <==> CheckOperatingUnitAsWritten(env, self, fieldNames).Pass?
  {
  }

  /** With no relational field selected the check passes whatever the data. */
  lemma NothingSelectedPasses(env: Env, self: RecordSet, fieldNames: Option<seq<FieldName>>)
    requires var m := ModelOf(env.reg, self.model);
      SelectFields(env.reg, m, NamesToCheck(m, fieldNames)) == Ok(Selected([], []))
    ensures CheckOperatingUnit(env, self, fieldNames) == Pass
  {
  }

  /** An empty record set passes the check unless a named field is missing. */
  lemma EmptyRecordSetPasses(env: Env, self: RecordSet, fieldNames: Option<seq<FieldName>>)
    requires self.ids == []
    ensures var m := ModelOf(env.reg, self.model);
      CheckOperatingUnit(env, self, fieldNames).Pass? <==> SelectFields(env.reg, m, NamesToCheck(m, fieldNames)).Ok?
  {
  }

  /** When the check raises the aggregated error, each line reports an
      inconsistent pair of one of the records, in the order they were found. */
  lemma ReportedLinesAreInconsistencies(env: Env, self: RecordSet, fieldNames: Option<seq<FieldName>>, lines: seq<Line>)
    requires CheckOperatingUnit(env, self, fieldNames) == Fail(Incompatible(Header, lines))
    ensures 1 <= |lines| <= MaxLines
    ensures var m := ModelOf(env.reg, self.model);
      var sel := SelectFields(env.reg, m, NamesToCheck(m, fieldNames)).value;
      forall i :: 0 <= i < |lines| ==>
        exists k :: 0 <= k < |self.ids| && self.ids[k] == lines[i].record
          && Reported(env, m, sel, self.ids[k], Violation(lines[i].record, lines[i].field, lines[i].values))
  {
    var m := ModelOf(env.reg, self.model);
    var sel := SelectFields(env.reg, m, NamesToCheck(m, fieldNames)).value;
    var vs := Scan(env, self, fieldNames).value;
    assert Report(env.store, m, vs) == Ok(lines);
    assert Inconsistencies(env, m, self.ids, sel) == Ok(vs);
    forall i | 0 <= i < |lines|
      ensures exists k :: 0 <= k < |self.ids| && self.ids[k] == lines[i].record
                && Reported(env, m, sel, self.ids[k], Violation(lines[i].record, lines[i].field, lines[i].values))
    {
      assert LineFor(env.store, m, vs[i]) == Ok(lines[i]);
      CollectedIsReported(env, m, self.ids, sel, vs, i);
    }
  }

  /** A collected violation is an inconsistent pair of one of the records. */
  lemma CollectedIsReported(env: Env, m: Model, ids: seq<Id>, sel: Selected, vs: seq<Violation>, i: int)
    requires Inconsistencies(env, m, ids, sel) == Ok(vs)
    requires 0 <= i < |vs|
    ensures exists k :: 0 <= k < |ids| && ids[k] == vs[i].record && Reported(env, m, sel, ids[k], vs[i])
  {
    InconsistenciesMembership(env, m, ids, sel, vs);
    assert vs[i] in vs;
    var k :| 0 <= k < |ids| && vs[i] in RecordInconsistencies(env, m, ids[k], sel).value;
    RecordInconsistenciesMembership(env, m, ids[k], sel, RecordInconsistencies(env, m, ids[k], sel).value);
  }

  /** In a well-formed registry, the check triggered by a write reads the
      records under the model they belong to, and examines exactly the
      fields of that model that pass the selection test. */
  lemma WriteCheckConsidersAllFields(env: Env, self: RecordSet, f: Field)
    requires WellFormed(env.reg)
    ensures ModelOf(env.reg, self.model).name == self.model
    ensures var m := ModelOf(env.reg, self.model);
      var sel := SelectFields(env.reg, m, NamesToCheck(m, None));
      && sel.Ok?
      && (f in sel.value.regular <==> f in m.fields && Checked(env.reg, f) && !f.companyDependent)
      && (f in sel.value.property <==> f in m.fields && Checked(env.reg, f) && f.companyDependent)
  {
    ModelOfWellFormed(env.reg, self.model);
    AllFieldsConsidered(env.reg, ModelOf(env.reg, self.model), None, f);
  }
}
