/** The consistency evaluator: resolves each record's scope, decides for each
    (record, field) pair whether the referenced records are compatible, and
    collects every incompatible pair in order. */
module Evaluator {
  import opened Outcomes
  import opened Records
  import opened Errors
  import opened Domains
  import opened Selection

  /** What the check reads: the registry, the stored values, and the domain
      the host builds for a comodel from the current company (the host's
      company-compatibility domain, left abstract). */
  datatype Env = Env(reg: Registry, store: Store, companyDomain: ModelName -> Domain)

  /** A (record, field) pair whose referenced records are incompatible. */
  datatype Violation = Violation(record: Id, field: FieldName, corecords: RecordSet)

  /** The scope of record `id` of `m`: the record itself for an operating
      unit; otherwise its operating units when the model has that field;
      otherwise its single operating unit, which the host fails to read when
      the model has no such field either. */
  function ScopeOf(store: Store, m: Model, id: Id): (r: Result<RecordSet, Failure>)
    ensures m.name == OperatingUnitModel ==> r == Ok(RecordSet(m.name, [id]))
    ensures m.name != OperatingUnitModel && HasField(m, OperatingUnitsField) ==>
      r.Ok? && r.value.ids == Read(store, m.name, id, OperatingUnitsField)
    ensures m.name != OperatingUnitModel && !HasField(m, OperatingUnitsField) && HasField(m, OperatingUnitField) ==>
      r.Ok? && r.value.ids == Read(store, m.name, id, OperatingUnitField)
    ensures r.Err? <==> m.name != OperatingUnitModel && !HasField(m, OperatingUnitsField) && !HasField(m, OperatingUnitField)
    ensures r.Err? ==> r.error == MissingField(m.name, OperatingUnitField)
  {
    if m.name == OperatingUnitModel then Ok(RecordSet(m.name, [id]))
    else match LookupField(m, OperatingUnitsField)
      case Some(f) => Ok(RecordSet(f.comodel, Read(store, m.name, id, f.name)))
      case None =>
        match LookupField(m, OperatingUnitField)
        case Some(f) => Ok(RecordSet(f.comodel, Read(store, m.name, id, f.name)))
        case None => Err(MissingField(m.name, OperatingUnitField))
  }

  /** The records field `f` of record `id` refers to. */
  function Corecord(store: Store, m: Model, id: Id, f: Field): RecordSet {
    RecordSet(f.comodel, Read(store, m.name, id, f.name))
  }

  /** The domain the referenced records must satisfy: the scope's domain for
      a regular field, the current company's domain for a property field. */
  function DomainFor(env: Env, scope: RecordSet, f: Field, property: bool): Domain {
    if property then env.companyDomain(f.comodel) else CheckOperatingUnitDomain(FromRecords(scope))
  }

  /** Whether the pair (record `id`, field `f`) is inconsistent: the field
      refers to some record, the domain is not empty, and not one referenced
      record satisfies it. Fails when the comodel lacks a field the domain
      names. */
  function PairInconsistent(env: Env, m: Model, id: Id, scope: RecordSet, f: Field, property: bool): (r: Result<bool, Failure>)
    ensures var co := Corecord(env.store, m, id, f);
      var d := DomainFor(env, scope, f, property);
      && (r == Ok(true) <==>
            co.ids != [] && !d.Everything?
            && FirstMissing(ModelOf(env.reg, f.comodel), LeafFields(d)).None?
            && forall x :: x in co.ids ==> !Holds(env.store, f.comodel, x, d))
      && (r.Err? <==>
            co.ids != [] && !d.Everything? && FirstMissing(ModelOf(env.reg, f.comodel), LeafFields(d)).Some?)
      && (r.Err? ==> r.error.MissingField? && r.error.model == f.comodel)
      && (r.Err? ==> r.error == MissingField(f.comodel, FirstMissing(ModelOf(env.reg, f.comodel), LeafFields(d)).value))
  {
    var co := Corecord(env.store, m, id, f);
    var d := DomainFor(env, scope, f, property);
    if co.ids == [] || d.Everything? then Ok(false)
    else
      var matched :- FilteredDomain(env.reg, env.store, co, d);
      assert matched != [] ==> matched[0] in matched;
      Ok(matched == [])
  }

  /** Concatenates the results of a sequence of steps in order; the first
      failure, if any, is the result. */
  function Gather(results: seq<Result<seq<Violation>, Failure>>): (r: Result<seq<Violation>, Failure>)
    ensures r.Err? ==> exists i :: 0 <= i < |results| && results[i] == r
    decreases |results|
  {
    if |results| == 0 then Ok([])
    else
      match Gather(results[..|results| - 1])
      case Err(e) => Err(e)
      case Ok(found) =>
        match results[|results| - 1]
        case Err(e) => Err(e)
        case Ok(more) => Ok(found + more)
  }

  /** The pair (record `id`, field `f`) as a step: the violation when it is
      inconsistent, nothing when it is not. */
  function PairStep(env: Env, m: Model, id: Id, scope: RecordSet, f: Field, property: bool): Result<seq<Violation>, Failure> {
    match PairInconsistent(env, m, id, scope, f, property)
    case Err(e) => Err(e)
    case Ok(inconsistent) => Ok(if inconsistent then [Violation(id, f.name, Corecord(env.store, m, id, f))] else [])
  }

  function FieldSteps(env: Env, m: Model, id: Id, scope: RecordSet, fields: seq<Field>, property: bool)
    : (r: seq<Result<seq<Violation>, Failure>>)
    ensures |r| == |fields|
    ensures forall j :: 0 <= j < |fields| ==> r[j] == PairStep(env, m, id, scope, fields[j], property)
  {
    seq(|fields|, j requires 0 <= j < |fields| => PairStep(env, m, id, scope, fields[j], property))
  }

  /** The inconsistent pairs of record `id` over `fields`, in field order. */
  function FieldInconsistencies(env: Env, m: Model, id: Id, scope: RecordSet, fields: seq<Field>, property: bool)
    : (r: Result<seq<Violation>, Failure>)
    ensures r.Err? ==> r.error.MissingField?
  {
    Gather(FieldSteps(env, m, id, scope, fields, property))
  }

  /** The inconsistent pairs of one record: its regular fields, then its
      property fields. */
  function RecordInconsistencies(env: Env, m: Model, id: Id, sel: Selected): (r: Result<seq<Violation>, Failure>)
    ensures r.Err? ==> r.error.MissingField?
  {
    match ScopeOf(env.store, m, id)
    case Err(e) => Err(e)
    case Ok(scope) =>
      match FieldInconsistencies(env, m, id, scope, sel.regular, false)
      case Err(e) => Err(e)
      case Ok(regular) =>
        match FieldInconsistencies(env, m, id, scope, sel.property, true)
        case Err(e) => Err(e)
        case Ok(property) => Ok(regular + property)
  }

  function RecordSteps(env: Env, m: Model, ids: seq<Id>, sel: Selected): (r: seq<Result<seq<Violation>, Failure>>)
    ensures |r| == |ids|
    ensures forall i :: 0 <= i < |ids| ==> r[i] == RecordInconsistencies(env, m, ids[i], sel)
  {
    seq(|ids|, i requires 0 <= i < |ids| => RecordInconsistencies(env, m, ids[i], sel))
  }

  /** The inconsistent pairs of records `ids`, record by record; the first
      failure raised along the way, if any. */
  function Inconsistencies(env: Env, m: Model, ids: seq<Id>, sel: Selected): (r: Result<seq<Violation>, Failure>)
    ensures r.Err? ==> r.error.MissingField?
    ensures ids == [] ==> r == Ok([])
  {
    Gather(RecordSteps(env, m, ids, sel))
  }

  /** Walks the fields of one record, accumulating inconsistent pairs. */
  method ScanFields(env: Env, m: Model, id: Id, scope: RecordSet, fields: seq<Field>, property: bool)
    returns (r: Result<seq<Violation>, Failure>)
    ensures r == FieldInconsistencies(env, m, id, scope, fields, property)
  {
    ghost var steps := FieldSteps(env, m, id, scope, fields, property);
    var found: seq<Violation> := [];
    var j := 0;
    while j < |fields|
      invariant 0 <= j <= |fields|
      invariant Gather(steps[..j]) == Ok(found)
    {
      assert steps[..j + 1][..j] == steps[..j];
      var step := PairStep(env, m, id, scope, fields[j], property);
      if step.Err? {
        GatherFailureSticks(steps, j + 1);
        return Err(step.error);
      }
      found := found + step.value;
      j := j + 1;
    }
    assert steps[..|fields|] == steps;
    return Ok(found);
  }

  /** Walks the records, resolving each one's scope and scanning its regular
      and then its property fields, without stopping at the first
      inconsistency. */
  method CollectInconsistencies(env: Env, m: Model, ids: seq<Id>, sel: Selected)
    returns (r: Result<seq<Violation>, Failure>)
    ensures r == Inconsistencies(env, m, ids, sel)
  {
    ghost var steps := RecordSteps(env, m, ids, sel);
    var found: seq<Violation> := [];
    var i := 0;
    while i < |ids|
      invariant 0 <= i <= |ids|
      invariant Gather(steps[..i]) == Ok(found)
    {
      var id := ids[i];
      assert steps[..i + 1][..i] == steps[..i];
      var scope := ScopeOf(env.store, m, id);
      if scope.Err? {
        GatherFailureSticks(steps, i + 1);
        return Err(scope.error);
      }
      var regular := ScanFields(env, m, id, scope.value, sel.regular, false);
      if regular.Err? {
        GatherFailureSticks(steps, i + 1);
        return Err(regular.error);
      }
      var property := ScanFields(env, m, id, scope.value, sel.property, true);
      if property.Err? {
        GatherFailureSticks(steps, i + 1);
        return Err(property.error);
      }
      found := found + (regular.value + property.value);
      i := i + 1;
    }
    assert steps[..|ids|] == steps;
    return Ok(found);
  }

  /** A failure among the first `k` steps is the failure of all of them. */
  lemma {:induction false} GatherFailureSticks(results: seq<Result<seq<Violation>, Failure>>, k: int)
    requires 0 <= k <= |results|
    requires Gather(results[..k]).Err?
    ensures Gather(results) == Gather(results[..k])
    decreases |results|
  {
    if k < |results| {
      var init := results[..|results| - 1];
      assert init[..k] == results[..k];
      GatherFailureSticks(init, k);
    } else {
      assert results[..k] == results;
    }
  }

  /** Gathering a concatenation of steps concatenates what each part gathers. */
  lemma {:induction false} GatherConcat(rs1: seq<Result<seq<Violation>, Failure>>, rs2: seq<Result<seq<Violation>, Failure>>)
    requires Gather(rs1 + rs2).Ok?
    ensures Gather(rs1).Ok? && Gather(rs2).Ok?
    ensures Gather(rs1 + rs2).value == Gather(rs1).value + Gather(rs2).value
    decreases |rs2|
  {
    if |rs2| == 0 {
      assert rs1 + rs2 == rs1;
    } else {
      var init := rs2[..|rs2| - 1];
      assert (rs1 + rs2)[..|rs1 + rs2| - 1] == rs1 + init;
      assert (rs1 + rs2)[|rs1 + rs2| - 1] == rs2[|rs2| - 1];
      GatherConcat(rs1, init);
    }
  }

  /** A successful gathering holds exactly what the steps produced, and every
      step succeeded. */
  lemma {:induction false} GatherMembership(results: seq<Result<seq<Violation>, Failure>>, found: seq<Violation>)
    requires Gather(results) == Ok(found)
    ensures forall i :: 0 <= i < |results| ==> results[i].Ok?
    ensures forall v :: v in found <==> exists i :: 0 <= i < |results| && v in results[i].value
    decreases |results|
  {
    if |results| > 0 {
      var init := results[..|results| - 1];
      var earlier := Gather(init).value;
      GatherMembership(init, earlier);
      assert found == earlier + results[|results| - 1].value;
      assert forall i :: 0 <= i < |init| ==> init[i] == results[i];
    }
  }

  /** For a regular field the rule reads: with an empty scope, the pair is
      inconsistent when the field refers to some record and every referenced
      record has an operating unit; with a scope, when every referenced record
      has a company and none of its companies is among the scope's ids. */
  lemma RegularPairMeaning(env: Env, m: Model, id: Id, scope: RecordSet, f: Field)
    requires scope.ids == [] ==> HasField(ModelOf(env.reg, f.comodel), OperatingUnitField)
    requires scope.ids != [] ==> HasField(ModelOf(env.reg, f.comodel), CompanyField)
    ensures PairInconsistent(env, m, id, scope, f, false).Ok?
    ensures var co := Corecord(env.store, m, id, f);
      PairInconsistent(env, m, id, scope, f, false) == Ok(true) <==>
        co.ids != [] &&
        if scope.ids == [] then
          forall x :: x in co.ids ==> Read(env.store, f.comodel, x, OperatingUnitField) != []
        else
          forall x :: x in co.ids ==>
            Read(env.store, f.comodel, x, CompanyField) != []
            && forall c :: c in Read(env.store, f.comodel, x, CompanyField) ==> c !in scope.ids
  {
    var co := Corecord(env.store, m, id, f);
    forall x | x in co.ids {
      ScopeDomainMeaning(env.store, f.comodel, x, FromRecords(scope));
    }
  }

  /** The pairs found over `fields` are exactly the inconsistent ones. */
  lemma FieldInconsistenciesMembership(
    env: Env, m: Model, id: Id, scope: RecordSet, fields: seq<Field>, property: bool, found: seq<Violation>)
    requires FieldInconsistencies(env, m, id, scope, fields, property) == Ok(found)
    ensures forall v :: v in found <==>
      exists f :: f in fields && v == Violation(id, f.name, Corecord(env.store, m, id, f))
        && PairInconsistent(env, m, id, scope, f, property) == Ok(true)
  {
    var steps := FieldSteps(env, m, id, scope, fields, property);
    GatherMembership(steps, found);
    forall v | v in found
      ensures exists f :: f in fields && v == Violation(id, f.name, Corecord(env.store, m, id, f))
                && PairInconsistent(env, m, id, scope, f, property) == Ok(true)
    {
      var j :| 0 <= j < |steps| && v in steps[j].value;
      PairStepMembership(env, m, id, scope, fields[j], property, v);
    }
    forall f | f in fields && PairInconsistent(env, m, id, scope, f, property) == Ok(true)
      ensures Violation(id, f.name, Corecord(env.store, m, id, f)) in found
    {
      var j :| 0 <= j < |fields| && fields[j] == f;
      PairStepMembership(env, m, id, scope, f, property, Violation(id, f.name, Corecord(env.store, m, id, f)));
    }
  }

  lemma PairStepMembership(env: Env, m: Model, id: Id, scope: RecordSet, f: Field, property: bool, v: Violation)
    requires PairStep(env, m, id, scope, f, property).Ok?
    ensures v in PairStep(env, m, id, scope, f, property).value <==>
      v == Violation(id, f.name, Corecord(env.store, m, id, f)) && PairInconsistent(env, m, id, scope, f, property) == Ok(true)
  {
  }

  /** Violation `v` is one the check must report for record `id`: the
      record's scope resolves, and `v` is an inconsistent pair of one of its
      regular or property fields. */
  ghost predicate Reported(env: Env, m: Model, sel: Selected, id: Id, v: Violation) {
    && ScopeOf(env.store, m, id).Ok?
    && var scope := ScopeOf(env.store, m, id).value;
    || (exists f :: f in sel.regular && v == Violation(id, f.name, Corecord(env.store, m, id, f))
          && PairInconsistent(env, m, id, scope, f, false) == Ok(true))
    || (exists f :: f in sel.property && v == Violation(id, f.name, Corecord(env.store, m, id, f))
          && PairInconsistent(env, m, id, scope, f, true) == Ok(true))
  }

  lemma RecordInconsistenciesMembership(env: Env, m: Model, id: Id, sel: Selected, found: seq<Violation>)
    requires RecordInconsistencies(env, m, id, sel) == Ok(found)
    ensures forall v :: v in found <==> Reported(env, m, sel, id, v)
  {
    var scope := ScopeOf(env.store, m, id).value;
    var regular := FieldInconsistencies(env, m, id, scope, sel.regular, false).value;
    var property := FieldInconsistencies(env, m, id, scope, sel.property, true).value;
    FieldInconsistenciesMembership(env, m, id, scope, sel.regular, false, regular);
    FieldInconsistenciesMembership(env, m, id, scope, sel.property, true, property);
  }

  /** Every inconsistent pair of every record is collected, and nothing else:
      the collection does not stop at the first inconsistency. */
  lemma InconsistenciesMembership(env: Env, m: Model, ids: seq<Id>, sel: Selected, found: seq<Violation>)
    requires Inconsistencies(env, m, ids, sel) == Ok(found)
    ensures forall i :: 0 <= i < |ids| ==> RecordInconsistencies(env, m, ids[i], sel).Ok?
    ensures forall v :: v in found <==>
      exists i :: 0 <= i < |ids| && v in RecordInconsistencies(env, m, ids[i], sel).value
  {
    GatherMembership(RecordSteps(env, m, ids, sel), found);
  }

  /** The same, stated through the inconsistency rule itself. */
  lemma CollectedIffReported(env: Env, m: Model, ids: seq<Id>, sel: Selected, found: seq<Violation>)
    requires Inconsistencies(env, m, ids, sel) == Ok(found)
    ensures forall v :: v in found <==> exists i :: 0 <= i < |ids| && Reported(env, m, sel, ids[i], v)
  {
    InconsistenciesMembership(env, m, ids, sel, found);
    forall i | 0 <= i < |ids|
      ensures forall v :: v in RecordInconsistencies(env, m, ids[i], sel).value <==> Reported(env, m, sel, ids[i], v)
    {
      RecordInconsistenciesMembership(env, m, ids[i], sel, RecordInconsistencies(env, m, ids[i], sel).value);
    }
  }

  /** The pairs of a concatenation of record sets are the pairs of the first
      followed by those of the second: pairs are ordered by record. */
  lemma InconsistenciesConcat(env: Env, m: Model, ids1: seq<Id>, ids2: seq<Id>, sel: Selected)
    requires Inconsistencies(env, m, ids1 + ids2, sel).Ok?
    ensures Inconsistencies(env, m, ids1, sel).Ok? && Inconsistencies(env, m, ids2, sel).Ok?
    ensures Inconsistencies(env, m, ids1 + ids2, sel).value
      == Inconsistencies(env, m, ids1, sel).value + Inconsistencies(env, m, ids2, sel).value
  {
    assert RecordSteps(env, m, ids1 + ids2, sel) == RecordSteps(env, m, ids1, sel) + RecordSteps(env, m, ids2, sel);
    GatherConcat(RecordSteps(env, m, ids1, sel), RecordSteps(env, m, ids2, sel));
  }

  /** Within one record, the pairs of its regular fields come first, then
      those of its property fields. */
  lemma RecordInconsistenciesOrder(env: Env, m: Model, id: Id, sel: Selected)
    requires RecordInconsistencies(env, m, id, sel).Ok?
    ensures ScopeOf(env.store, m, id).Ok?
    ensures var scope := ScopeOf(env.store, m, id).value;
      && FieldInconsistencies(env, m, id, scope, sel.regular, false).Ok?
      && FieldInconsistencies(env, m, id, scope, sel.property, true).Ok?
      && RecordInconsistencies(env, m, id, sel).value
        == FieldInconsistencies(env, m, id, scope, sel.regular, false).value
           + FieldInconsistencies(env, m, id, scope, sel.property, true).value
  {
  }

  /** Pairs follow the order of the fields: the pairs over two lists of
      fields in sequence are those of the first list followed by those of the
      second. */
  lemma FieldInconsistenciesConcat(
    env: Env, m: Model, id: Id, scope: RecordSet, fields1: seq<Field>, fields2: seq<Field>, property: bool)
    requires FieldInconsistencies(env, m, id, scope, fields1 + fields2, property).Ok?
    ensures FieldInconsistencies(env, m, id, scope, fields1, property).Ok?
    ensures FieldInconsistencies(env, m, id, scope, fields2, property).Ok?
    ensures FieldInconsistencies(env, m, id, scope, fields1 + fields2, property).value
      == FieldInconsistencies(env, m, id, scope, fields1, property).value
         + FieldInconsistencies(env, m, id, scope, fields2, property).value
  {
    var steps1 := FieldSteps(env, m, id, scope, fields1, property);
    var steps2 := FieldSteps(env, m, id, scope, fields2, property);
    FieldStepsConcat(env, m, id, scope, fields1, fields2, property);
    GatherConcat(steps1, steps2);
  }

  /** The steps over two field lists are the steps over each, in order. */
  lemma FieldStepsConcat(
    env: Env, m: Model, id: Id, scope: RecordSet, fields1: seq<Field>, fields2: seq<Field>, property: bool)
    ensures FieldSteps(env, m, id, scope, fields1 + fields2, property)
      == FieldSteps(env, m, id, scope, fields1, property) + FieldSteps(env, m, id, scope, fields2, property)
  {
    var all := FieldSteps(env, m, id, scope, fields1 + fields2, property);
    var steps1 := FieldSteps(env, m, id, scope, fields1, property);
    var steps2 := FieldSteps(env, m, id, scope, fields2, property);
    forall j | 0 <= j < |fields1| + |fields2|
      ensures all[j] == (steps1 + steps2)[j]
    {
      if j < |fields1| {
        assert (fields1 + fields2)[j] == fields1[j];
      } else {
        assert (fields1 + fields2)[j] == fields2[j - |fields1|];
      }
    }
  }
}
