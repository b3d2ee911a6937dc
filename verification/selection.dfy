/** Which relational fields the consistency check looks at, split into
    regular fields and company-dependent ("property") fields. */
module Selection {
  import opened Outcomes
  import opened Records
  import opened Errors

  datatype Selected = Selected(regular: seq<Field>, property: seq<Field>)

  /** The names the check walks: every field of the model when no list is
      given or the list mentions the operating-unit field, otherwise the list
      as given. Only field names and the caller's names are walked, and a
      caller's name is dropped only when it is not a field and the list
      mentions the operating-unit field. */
  function NamesToCheck(m: Model, fieldNames: Option<seq<FieldName>>): (r: seq<FieldName>)
    ensures fieldNames.None? || OperatingUnitField in fieldNames.value ==> forall f :: f in m.fields ==> f.name in r
    ensures forall n :: n in r ==> HasField(m, n) || (fieldNames.Some? && n in fieldNames.value)
    ensures fieldNames.Some? ==>
      forall n :: n in fieldNames.value ==> n in r || (OperatingUnitField in fieldNames.value && !HasField(m, n))
  {
    if fieldNames.None? || OperatingUnitField in fieldNames.value then FieldNames(m) else fieldNames.value
  }

  /** The model itself takes part in scoping. */
  predicate HasScopeField(reg: Registry, model: ModelName) {
    HasField(ModelOf(reg, model), OperatingUnitField) || HasField(ModelOf(reg, model), OperatingUnitsField)
  }

  /** A field is checked when it is relational, carries the marker, and its
      comodel takes part in scoping. */
  predicate Checked(reg: Registry, f: Field) {
    f.relational && f.checkOperatingUnit && HasScopeField(reg, f.comodel)
  }

  /** The field `name` names, if it is a field of `m` and checked. */
  function CheckedField(reg: Registry, m: Model, name: FieldName): seq<Field> {
    match LookupField(m, name)
    case Some(f) => if Checked(reg, f) then [f] else []
    case None => []
  }

  /** The checked fields `names` name, in the order of `names`. */
  function CheckedFields(reg: Registry, m: Model, names: seq<FieldName>): seq<Field> {
    if |names| == 0 then []
    else CheckedFields(reg, m, names[..|names| - 1]) + CheckedField(reg, m, names[|names| - 1])
  }

  /** The fields of `fields` whose company dependence is `companyDependent`, in order. */
  function WithDependence(fields: seq<Field>, companyDependent: bool): seq<Field> {
    if |fields| == 0 then []
    else
      var last := fields[|fields| - 1];
      WithDependence(fields[..|fields| - 1], companyDependent)
        + (if last.companyDependent == companyDependent then [last] else [])
  }

  /** The selection over `names`, or the failed lookup of the first name that
      is not a field of `m`. */
  function SelectFields(reg: Registry, m: Model, names: seq<FieldName>): Result<Selected, Failure> {
    match FirstMissing(m, names)
    case Some(name) => Err(MissingField(m.name, name))
    case None =>
      var checked := CheckedFields(reg, m, names);
      Ok(Selected(WithDependence(checked, false), WithDependence(checked, true)))
  }

  /** A field is among the checked fields of `names` exactly when it is
      checked and one of `names` looks it up. */
  lemma {:induction false} CheckedFieldsMembership(reg: Registry, m: Model, names: seq<FieldName>, f: Field)
    ensures f in CheckedFields(reg, m, names) <==>
      Checked(reg, f) && exists i :: 0 <= i < |names| && LookupField(m, names[i]) == Some(f)
    decreases |names|
  {
    if |names| > 0 {
      var init := names[..|names| - 1];
      CheckedFieldsMembership(reg, m, init, f);
      if exists i :: 0 <= i < |names| && LookupField(m, names[i]) == Some(f) {
        var i :| 0 <= i < |names| && LookupField(m, names[i]) == Some(f);
        if i < |names| - 1 {
          assert init[i] == names[i];
        }
      }
      assert forall i :: 0 <= i < |init| ==> init[i] == names[i];
    }
  }

  lemma {:induction false} WithDependenceMembership(fields: seq<Field>, companyDependent: bool, f: Field)
    ensures f in WithDependence(fields, companyDependent) <==> f in fields && f.companyDependent == companyDependent
    decreases |fields|
  {
    if |fields| > 0 {
      var init := fields[..|fields| - 1];
      WithDependenceMembership(init, companyDependent, f);
      assert fields == init + [fields[|fields| - 1]];
    }
  }

  /** The two lists together hold every field of `fields`, each once. */
  lemma {:induction false} WithDependenceCover(fields: seq<Field>)
    ensures multiset(WithDependence(fields, false)) + multiset(WithDependence(fields, true)) == multiset(fields)
    decreases |fields|
  {
    if |fields| > 0 {
      var init := fields[..|fields| - 1];
      WithDependenceCover(init);
      assert fields == init + [fields[|fields| - 1]];
    }
  }

  /** A successful selection splits the checked fields into regular and
      property fields: each list holds exactly the checked fields of its kind,
      no field is in both, and together they hold every checked field once. */
  lemma SelectionPartition(reg: Registry, m: Model, names: seq<FieldName>, sel: Selected)
    requires SelectFields(reg, m, names) == Ok(sel)
    ensures forall f :: f in sel.regular <==>
      Checked(reg, f) && !f.companyDependent && exists i :: 0 <= i < |names| && LookupField(m, names[i]) == Some(f)
    ensures forall f :: f in sel.property <==>
      Checked(reg, f) && f.companyDependent && exists i :: 0 <= i < |names| && LookupField(m, names[i]) == Some(f)
    ensures forall f :: !(f in sel.regular && f in sel.property)
    ensures multiset(sel.regular) + multiset(sel.property) == multiset(CheckedFields(reg, m, names))
  {
    var checked := CheckedFields(reg, m, names);
    forall f
      ensures f in sel.regular <==> f in checked && !f.companyDependent
      ensures f in sel.property <==> f in checked && f.companyDependent
      ensures f in checked <==> Checked(reg, f) && exists i :: 0 <= i < |names| && LookupField(m, names[i]) == Some(f)
    {
      WithDependenceMembership(checked, false, f);
      WithDependenceMembership(checked, true, f);
      CheckedFieldsMembership(reg, m, names, f);
    }
    WithDependenceCover(checked);
  }

  /** Selection fails exactly when some name is not a field, and then names
      the first such name; walking all fields of the model never fails. */
  lemma SelectionFailure(reg: Registry, m: Model, fieldNames: Option<seq<FieldName>>)
    ensures var names := NamesToCheck(m, fieldNames);
      (SelectFields(reg, m, names).Err? <==> exists i :: 0 <= i < |names| && !HasField(m, names[i]))
      && (SelectFields(reg, m, names).Err? ==>
            exists i :: 0 <= i < |names| && SelectFields(reg, m, names).error == MissingField(m.name, names[i])
              && !HasField(m, names[i]) && forall j :: 0 <= j < i ==> HasField(m, names[j]))
    ensures fieldNames.None? || OperatingUnitField in fieldNames.value ==> SelectFields(reg, m, NamesToCheck(m, fieldNames)).Ok?
  {
  }

  /** Walking every field considers every field: with distinct field names,
      a field of the model is selected exactly when it passes the test, and
      it lands in the list its company dependence decides. */
  lemma AllFieldsConsidered(reg: Registry, m: Model, fieldNames: Option<seq<FieldName>>, f: Field)
    requires DistinctNames(m)
    requires fieldNames.None? || OperatingUnitField in fieldNames.value
    ensures f in CheckedFields(reg, m, NamesToCheck(m, fieldNames)) <==> f in m.fields && Checked(reg, f)
    ensures SelectFields(reg, m, NamesToCheck(m, fieldNames)).Ok?
    ensures var sel := SelectFields(reg, m, NamesToCheck(m, fieldNames)).value;
      && (f in sel.regular <==> f in m.fields && Checked(reg, f) && !f.companyDependent)
      && (f in sel.property <==> f in m.fields && Checked(reg, f) && f.companyDependent)
  {
    var names := NamesToCheck(m, fieldNames);
    assert names == FieldNames(m);
    CheckedFieldsMembership(reg, m, names, f);
    if f in m.fields {
      var i :| 0 <= i < |m.fields| && m.fields[i] == f;
      FindOwnName(m.fields, i);
      assert LookupField(m, names[i]) == Some(f);
    }
    SelectionFailure(reg, m, fieldNames);
    SelectionPartition(reg, m, names, SelectFields(reg, m, names).value);
  }
}
