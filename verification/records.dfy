/** The host record framework as the consistency check sees it: models with a
    static table of field descriptors, record sets, and the stored values of
    relational fields. */
module Records {
  import opened Outcomes

  /** Record identifiers; the host database assigns positive ones. */
  type Id = i: int | 0 < i witness 1

  type ModelName = string
  type FieldName = string

  const OperatingUnitModel: ModelName := "operating.unit"
  const CompanyModel: ModelName := "res.company"
  const OperatingUnitField: FieldName := "operating_unit_id"
  const OperatingUnitsField: FieldName := "operating_unit_ids"
  const CompanyField: FieldName := "company_id"

  /** Static descriptor of one field. `checkOperatingUnit` is false when the
      field does not declare the marker at all. `comodel` is only meaningful
      for relational fields. */
  datatype Field = Field(
    name: FieldName,
    relational: bool,
    checkOperatingUnit: bool,
    companyDependent: bool,
    comodel: ModelName)

  /** A model: its name, its fields in declaration order (distinct by name
      in a model the host builds, see `DistinctNames`), and the per-model
      toggle that makes every qualifying write run the check. */
  datatype Model = Model(name: ModelName, fields: seq<Field>, checkAuto: bool)

  type Registry = map<ModelName, Model>

  /** The host keeps a model's fields in a dictionary keyed by name, so no
      two fields share a name. */
  predicate DistinctNames(m: Model) {
    forall a, b :: 0 <= a < b < |m.fields| ==> m.fields[a].name != m.fields[b].name
  }

  /** A registry as the host builds it: every model is registered under its
      own name and has distinct field names. */
  predicate WellFormed(reg: Registry) {
    forall k :: k in reg ==> reg[k].name == k && DistinctNames(reg[k])
  }

  /** An ordered record set of one model. */
  datatype RecordSet = RecordSet(model: ModelName, ids: seq<Id>)

  /** Stored relational values: for each record, the ids each of its
      relational fields refers to. An absent entry is an empty value. */
  type Row = map<FieldName, seq<Id>>
  type Store = map<(ModelName, Id), Row>

  /** The model registered under `name`; an unregistered name behaves as a
      model without fields. */
  function ModelOf(reg: Registry, name: ModelName): (m: Model)
    ensures name in reg ==> m == reg[name]
    ensures name !in reg ==> m.fields == []
  {
    if name in reg then reg[name] else Model(name, [], false)
  }

  predicate HasField(m: Model, name: FieldName) {
    exists f :: f in m.fields && f.name == name
  }

  function FindField(fields: seq<Field>, name: FieldName): (r: Option<Field>)
    ensures r.None? <==> forall f :: f in fields ==> f.name != name
    ensures r.Some? ==> r.value in fields && r.value.name == name
  {
    if |fields| == 0 then None
    else if fields[0].name == name then Some(fields[0])
    else FindField(fields[1..], name)
  }

  /** The descriptor of field `name` of `m`, if `m` has one. */
  function LookupField(m: Model, name: FieldName): (r: Option<Field>)
    ensures r.None? <==> !HasField(m, name)
    ensures r.Some? ==> r.value in m.fields && r.value.name == name
  {
    FindField(m.fields, name)
  }

  /** In a well-formed registry the model found under a name carries that
      name and has distinct field names, registered or not. */
  lemma ModelOfWellFormed(reg: Registry, name: ModelName)
    requires WellFormed(reg)
    ensures ModelOf(reg, name).name == name
    ensures DistinctNames(ModelOf(reg, name))
  {
  }

  /** With distinct names, looking up the name of a field finds that field. */
  lemma {:induction false} FindOwnName(fields: seq<Field>, i: nat)
    requires i < |fields|
    requires forall a, b :: 0 <= a < b < |fields| ==> fields[a].name != fields[b].name
    ensures FindField(fields, fields[i].name) == Some(fields[i])
    decreases i
  {
    if i > 0 {
      assert fields[0].name != fields[i].name;
      assert fields[1..][i - 1] == fields[i];
      FindOwnName(fields[1..], i - 1);
    }
  }

  /** The names of all fields of `m`, in declaration order. */
  function FieldNames(m: Model): (r: seq<FieldName>)
    ensures |r| == |m.fields|
    ensures forall i :: 0 <= i < |r| ==> HasField(m, r[i])
    ensures forall f :: f in m.fields ==> f.name in r
  {
    var names := seq(|m.fields|, i requires 0 <= i < |m.fields| => m.fields[i].name);
    assert forall f :: f in m.fields ==> f.name in names by {
      forall f | f in m.fields
        ensures f.name in names
      {
        var i :| 0 <= i < |m.fields| && m.fields[i] == f;
        assert names[i] == f.name;
      }
    }
    names
  }

  /** The first of `names` that is not a field of `m`: the one the host's
      field lookup fails on when it walks `names` in order. */
  function FirstMissing(m: Model, names: seq<FieldName>): (r: Option<FieldName>)
    ensures r.None? <==> forall i :: 0 <= i < |names| ==> HasField(m, names[i])
    ensures r.Some? ==>
      exists i :: 0 <= i < |names| && names[i] == r.value && !HasField(m, names[i])
        && forall j :: 0 <= j < i ==> HasField(m, names[j])
  {
    if |names| == 0 then None
    else if !HasField(m, names[0]) then Some(names[0])
    else
      FirstMissing(m, names[1..])
  }

  /** The stored value of relational field `field` of record `id` of `model`. */
  function Read(store: Store, model: ModelName, id: Id, field: FieldName): seq<Id> {
    if (model, id) in store && field in store[(model, id)] then store[(model, id)][field] else []
  }
}
