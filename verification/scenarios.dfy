/** Concrete scenarios: model A has a checked partner field into model B,
    which takes part in scoping. Record a1 (operating unit 1, company 3)
    already refers to partner b1. */
module Scenarios {
  import opened Outcomes
  import opened Records
  import opened Errors
  import opened Domains
  import opened Selection
  import opened Evaluator
  import opened Reporter
  import opened Consistency
  import opened Interceptor

  const ModelA: Model := Model("a.model", [
    Field("name", false, false, false, ""),
    Field(CompanyField, true, false, false, CompanyModel),
    Field(OperatingUnitField, true, false, false, OperatingUnitModel),
    Field("partner_id", true, true, false, "b.model")], true)

  const ModelB: Model := Model("b.model", [
    Field(CompanyField, true, false, false, CompanyModel),
    Field(OperatingUnitField, true, false, false, OperatingUnitModel)], false)

  const Registry0: Registry := map["a.model" := ModelA, "b.model" := ModelB]

  /** The world where b1 belongs to company 2. */
  function World(partnerCompany: seq<Id>): Env {
    Env(Registry0,
        map[("a.model", 1) := map[CompanyField := [3], OperatingUnitField := [1], "partner_id" := [1]],
            ("b.model", 1) := map[CompanyField := partnerCompany]],
        _ => Everything)
  }

  const A1: RecordSet := RecordSet("a.model", [1])

  const PartnerField: Field := ModelA.fields[3]

  const PartnerViolation: Violation := Violation(1, "partner_id", RecordSet("b.model", [1]))

  /** The field names of model A, in declaration order. */
  const NamesA: seq<FieldName> := ["name", CompanyField, OperatingUnitField, "partner_id"]

  const ScopeA1: RecordSet := RecordSet(OperatingUnitModel, [1])

  /** The line reported for a1's partner: company 3, field and partner b1. */
  const PartnerReportLine: Line := Line(RecordMessage, 1, RecordSet(CompanyModel, [3]), "partner_id", RecordSet("b.model", [1]))

  /** The lookup finds the first field of a name. */
  lemma {:induction false} FindAt(fields: seq<Field>, name: FieldName, i: nat)
    requires i < |fields| && fields[i].name == name
    requires forall j :: 0 <= j < i ==> fields[j].name != name
    ensures FindField(fields, name) == Some(fields[i])
    decreases i
  {
    if i > 0 {
      FindAt(fields[1..], name, i - 1);
    }
  }

  /** The scenario registry is one the host could build. */
  lemma RegistryWellFormed()
    ensures WellFormed(Registry0)
  {
    assert DistinctNames(ModelA) by {
      assert forall a :: 0 <= a < |ModelA.fields| ==> ModelA.fields[a].name == NamesA[a];
    }
    assert DistinctNames(ModelB);
  }

  lemma RegisteredModels()
    ensures ModelOf(Registry0, "a.model") == ModelA
    ensures ModelOf(Registry0, "b.model") == ModelB
  {
  }

  lemma LookupName()
    ensures LookupField(ModelA, "name") == Some(ModelA.fields[0])
  {
    FindAt(ModelA.fields, "name", 0);
  }

  lemma LookupCompany()
    ensures LookupField(ModelA, CompanyField) == Some(ModelA.fields[1])
  {
    FindAt(ModelA.fields, CompanyField, 1);
  }

  lemma LookupOperatingUnit()
    ensures LookupField(ModelA, OperatingUnitField) == Some(ModelA.fields[2])
  {
    FindAt(ModelA.fields, OperatingUnitField, 2);
  }

  lemma LookupPartner()
    ensures LookupField(ModelA, "partner_id") == Some(PartnerField)
  {
    FindAt(ModelA.fields, "partner_id", 3);
  }

  lemma NoOperatingUnitsField()
    ensures !HasField(ModelA, OperatingUnitsField)
  {
  }

  lemma NoBogusField()
    ensures !HasField(ModelA, "bogus")
  {
  }

  lemma NamesOfA()
    ensures NamesToCheck(ModelA, None) == NamesA
  {
  }

  lemma NoneMissingInA()
    ensures FirstMissing(ModelA, NamesA) == None
  {
    assert NamesA == FieldNames(ModelA);
  }

  lemma PartnerIsChecked()
    ensures Checked(Registry0, PartnerField)
  {
    RegisteredModels();
    assert ModelB.fields[1].name == OperatingUnitField;
  }

  lemma UncheckedFieldsOfA()
    ensures CheckedField(Registry0, ModelA, "name") == []
    ensures CheckedField(Registry0, ModelA, CompanyField) == []
    ensures CheckedField(Registry0, ModelA, OperatingUnitField) == []
  {
    LookupName();
    LookupCompany();
    LookupOperatingUnit();
  }

  lemma PartnerFieldChecked()
    ensures CheckedField(Registry0, ModelA, "partner_id") == [PartnerField]
  {
    LookupPartner();
    PartnerIsChecked();
  }

  lemma {:induction false} CheckedFieldsSnoc(reg: Registry, m: Model, names: seq<FieldName>, i: nat)
    requires i < |names|
    ensures CheckedFields(reg, m, names[..i + 1]) == CheckedFields(reg, m, names[..i]) + CheckedField(reg, m, names[i])
  {
    assert names[..i + 1][..i] == names[..i];
  }

  lemma CheckedInPrefixOfA()
    ensures CheckedFields(Registry0, ModelA, NamesA[..3]) == []
  {
    UncheckedFieldsOfA();
    CheckedFieldsSnoc(Registry0, ModelA, NamesA, 0);
    CheckedFieldsSnoc(Registry0, ModelA, NamesA, 1);
    CheckedFieldsSnoc(Registry0, ModelA, NamesA, 2);
    assert NamesA[..0] == [];
  }

  lemma CheckedInA()
    ensures CheckedFields(Registry0, ModelA, NamesA) == [PartnerField]
  {
    CheckedInPrefixOfA();
    PartnerFieldChecked();
    CheckedOnlyLast(Registry0, ModelA, NamesA, PartnerField);
  }

  /** When nothing before the last name is selected, the selection is what
      the last name selects. */
  lemma CheckedOnlyLast(reg: Registry, m: Model, names: seq<FieldName>, f: Field)
    requires |names| > 0
    requires CheckedFields(reg, m, names[..|names| - 1]) == []
    requires CheckedField(reg, m, names[|names| - 1]) == [f]
    ensures CheckedFields(reg, m, names) == [f]
  {
    assert CheckedFields(reg, m, names) == [] + [f];
  }

  lemma PartnerIsRegular()
    ensures WithDependence([PartnerField], false) == [PartnerField]
    ensures WithDependence([PartnerField], true) == []
  {
    assert [PartnerField][..0] == [];
  }

  /** The check on model A selects exactly the partner field, as a regular field. */
  lemma SelectsPartnerOnly()
    ensures SelectFields(Registry0, ModelA, NamesToCheck(ModelA, None)) == Ok(Selected([PartnerField], []))
  {
    NamesOfA();
    NoneMissingInA();
    CheckedInA();
    PartnerIsRegular();
  }

  /** a1's scope is its operating unit 1. */
  lemma ScopeOfA1(partnerCompany: seq<Id>)
    ensures ScopeOf(World(partnerCompany).store, ModelA, 1) == Ok(ScopeA1)
  {
    NoOperatingUnitsField();
    LookupOperatingUnit();
  }

  /** a1's partner field is inconsistent exactly when b1 has a company and it
      is not among a1's scope ids: company 2 is neither unset nor operating unit 1. */
  lemma PartnerPairInconsistent(partnerCompany: seq<Id>)
    ensures PairInconsistent(World(partnerCompany), ModelA, 1, ScopeA1, PartnerField, false)
      == Ok(partnerCompany != [] && 1 !in partnerCompany)
  {
    var env := World(partnerCompany);
    RegisteredModels();
    assert ModelB.fields[0].name == CompanyField;
    assert HasField(ModelB, CompanyField);
    assert Read(env.store, "b.model", 1, CompanyField) == partnerCompany;
    assert Corecord(env.store, ModelA, 1, PartnerField) == RecordSet("b.model", [1]);
    RegularPairMeaning(env, ModelA, 1, ScopeA1, PartnerField);
  }

  lemma GatherSingle(x: Result<seq<Violation>, Failure>)
    ensures Gather([x]) == x
  {
    assert [x][..0] == [];
    if x.Ok? {
      assert [] + x.value == x.value;
    }
  }

  lemma PartnerRegular(partnerCompany: seq<Id>)
    ensures FieldInconsistencies(World(partnerCompany), ModelA, 1, ScopeA1, [PartnerField], false)
      == Ok(if partnerCompany != [] && 1 !in partnerCompany then [PartnerViolation] else [])
  {
    var env := World(partnerCompany);
    PartnerPairInconsistent(partnerCompany);
    assert Corecord(env.store, ModelA, 1, PartnerField) == RecordSet("b.model", [1]);
    var step := PairStep(env, ModelA, 1, ScopeA1, PartnerField, false);
    assert step == Ok(if partnerCompany != [] && 1 !in partnerCompany then [PartnerViolation] else []);
    assert FieldSteps(env, ModelA, 1, ScopeA1, [PartnerField], false) == [step];
    GatherSingle(step);
  }

  lemma NoPropertyFields(partnerCompany: seq<Id>)
    ensures FieldInconsistencies(World(partnerCompany), ModelA, 1, ScopeA1, [], true) == Ok([])
  {
    assert FieldSteps(World(partnerCompany), ModelA, 1, ScopeA1, [], true) == [];
  }

  /** One record's violations from its scope and its regular fields, when
      no property field is selected. */
  lemma RecordInconsistenciesFrom(env: Env, m: Model, id: Id, sel: Selected, scope: RecordSet, regular: seq<Violation>)
    requires ScopeOf(env.store, m, id) == Ok(scope)
    requires FieldInconsistencies(env, m, id, scope, sel.regular, false) == Ok(regular)
    requires FieldInconsistencies(env, m, id, scope, sel.property, true) == Ok([])
    ensures RecordInconsistencies(env, m, id, sel) == Ok(regular)
  {
    assert regular + [] == regular;
  }

  /** A scan whose selection is not empty is the scan of the records. */
  lemma ScanFrom(env: Env, self: RecordSet, sel: Selected, found: Result<seq<Violation>, Failure>)
    requires var m := ModelOf(env.reg, self.model);
      SelectFields(env.reg, m, NamesToCheck(m, None)) == Ok(sel)
    requires sel.regular != []
    requires Inconsistencies(env, ModelOf(env.reg, self.model), self.ids, sel) == found
    ensures Scan(env, self, None) == found
  {
  }

  /** The violations of a single record are that record's. */
  lemma InconsistenciesSingle(env: Env, m: Model, id: Id, sel: Selected)
    ensures Inconsistencies(env, m, [id], sel) == RecordInconsistencies(env, m, id, sel)
  {
    var step := RecordInconsistencies(env, m, id, sel);
    assert RecordSteps(env, m, [id], sel) == [step];
    GatherSingle(step);
  }

  lemma A1Inconsistencies(partnerCompany: seq<Id>)
    ensures RecordInconsistencies(World(partnerCompany), ModelA, 1, Selected([PartnerField], []))
      == Ok(if partnerCompany != [] && 1 !in partnerCompany then [PartnerViolation] else [])
  {
    ScopeOfA1(partnerCompany);
    PartnerRegular(partnerCompany);
    NoPropertyFields(partnerCompany);
    var regular := if partnerCompany != [] && 1 !in partnerCompany then [PartnerViolation] else [];
    RecordInconsistenciesFrom(World(partnerCompany), ModelA, 1, Selected([PartnerField], []), ScopeA1, regular);
  }

  /** The check over a1 collects the partner violation exactly when b1's
      company is set and differs from a1's operating unit id. */
  lemma Collected(partnerCompany: seq<Id>)
    ensures Scan(World(partnerCompany), A1, None)
      == Ok(if partnerCompany != [] && 1 !in partnerCompany then [PartnerViolation] else [])
  {
    var env := World(partnerCompany);
    var sel := Selected([PartnerField], []);
    RegisteredModels();
    SelectsPartnerOnly();
    A1Inconsistencies(partnerCompany);
    InconsistenciesSingle(env, ModelA, 1, sel);
    ScanFrom(env, A1, sel, RecordInconsistencies(env, ModelA, 1, sel));
  }

  /** The report for a single violation is its single line. */
  lemma ReportSingle(store: Store, m: Model, v: Violation, line: Line)
    requires LineFor(store, m, v) == Ok(line)
    ensures Report(store, m, [v]) == Ok([line])
  {
    assert [v][..Min(MaxLines, 1)] == [v];
    assert [v][1..] == [];
    assert [line] + [] == [line];
  }

  lemma CompanyOfA1(partnerCompany: seq<Id>)
    ensures CompanyOf(World(partnerCompany).store, ModelA, 1) == Ok(RecordSet(CompanyModel, [3]))
  {
    LookupCompany();
    assert Read(World(partnerCompany).store, "a.model", 1, CompanyField) == [3];
  }

  /** The report for a1's partner violation names a1's company 3. */
  lemma PartnerLine(partnerCompany: seq<Id>)
    ensures Report(World(partnerCompany).store, ModelA, [PartnerViolation]) == Ok([PartnerReportLine])
  {
    CompanyOfA1(partnerCompany);
    assert !SameRecords(RecordSet("a.model", [1]), RecordSet("b.model", [1]));
    assert LineFor(World(partnerCompany).store, ModelA, PartnerViolation) == Ok(PartnerReportLine);
    ReportSingle(World(partnerCompany).store, ModelA, PartnerViolation, PartnerReportLine);
  }

  lemma CheckRefusesA1()
    ensures CheckOperatingUnit(World([2]), A1, None) == Fail(Incompatible(Header, [PartnerReportLine]))
  {
    RegisteredModels();
    Collected([2]);
    PartnerLine([2]);
  }

  lemma CheckAcceptsA1()
    ensures CheckOperatingUnit(World([]), A1, None) == Pass
  {
    Collected([]);
  }

  lemma PartnerWriteTriggers()
    ensures FirstMissing(ModelA, ["partner_id"]) == None
    ensures NeedsCheck(ModelA, ["partner_id"])
  {
    LookupPartner();
    assert Triggers(ModelA, ["partner_id"][0]);
  }

  /** Writing the partner field while a1 already refers to a partner of
      another company raises the aggregated error naming a1, the field and
      b1; the same write passes once b1 has no company. */
  lemma IncompatiblePartnerRefused()
    ensures Write(World([2]), A1, [("partner_id", 1)]) == Err(Incompatible(Header, [PartnerReportLine]))
    ensures Write(World([]), A1, [("partner_id", 1)]) == Ok(Delegated([("partner_id", 1)]))
  {
    RegisteredModels();
    assert Keys([("partner_id", 1)]) == ["partner_id"];
    PartnerWriteTriggers();
    CheckRefusesA1();
    CheckAcceptsA1();
  }

  /** Writing an unrelated field never runs the check, even though a1's
      partner is incompatible. */
  lemma UnrelatedWriteSkipsCheck()
    ensures Write(World([2]), A1, [("name", 7)]) == Ok(Delegated([("name", 7)]))
  {
    RegisteredModels();
    LookupName();
    assert Keys([("name", 7)]) == ["name"];
    assert !Triggers(ModelA, "name");
    assert !NeedsCheck(ModelA, ["name"]);
  }

  /** Writing an unknown field raises the invalid-field error, not the
      consistency error. */
  lemma UnknownFieldRejected()
    ensures Write(World([2]), A1, [("bogus", 7)]) == Err(InvalidField("bogus", "a.model"))
  {
    RegisteredModels();
    NoBogusField();
    assert Keys([("bogus", 7)]) == ["bogus"];
  }

  /** As written, the same check raises a name error instead. */
  lemma AsWrittenRaisesNameError()
    ensures CheckOperatingUnitAsWritten(World([2]), A1, None) == Fail(NameNotDefined("_"))
  {
    Collected([2]);
  }

  /** As written, the write of the partner field raises a name error instead
      of the aggregated error. */
  lemma AsWrittenWriteRaisesNameError()
    ensures WriteAsWritten(World([2]), A1, [("partner_id", 1)]) == Err(NameNotDefined("_"))
  {
    IncompatiblePartnerRefused();
    WriteAsWrittenDiffers(World([2]), A1, [("partner_id", 1)]);
  }
}
