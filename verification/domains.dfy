/** Scope ids, the compatibility domains built from them, and the host's
    evaluation of such a domain over a record set. */
module Domains {
  import opened Outcomes
  import opened Records
  import opened Errors

  /** What may be passed where scope ids are expected: a record set, a list
      (or tuple) of ids, or a single id. */
  datatype ScopeArg =
    | FromRecords(records: RecordSet)
    | FromList(ids: seq<Id>)
    | FromScalar(id: Id)

  /** The truth value the source gives the argument: a record set or list is
      false when empty; an id is positive, hence true. */
  predicate IsEmpty(arg: ScopeArg) {
    match arg
    case FromRecords(rs) => |rs.ids| == 0
    case FromList(ids) => |ids| == 0
    case FromScalar(_) => false
  }

  /** Normalises a scope argument to a list of ids. */
  function ToOperatingUnitIds(arg: ScopeArg): (r: seq<Id>)
    ensures r == [] <==> IsEmpty(arg)
    ensures arg.FromScalar? ==> |r| == 1
  {
    match arg
    case FromRecords(rs) => rs.ids
    case FromList(ids) => ids
    case FromScalar(id) => [id]
  }

  /** One condition of a domain: a field is unset, or a field refers to one
      of the given ids. */
  datatype Leaf = IsUnset(field: FieldName) | Among(field: FieldName, ids: seq<Id>)

  /** The domain shapes in play: the empty domain (which every record
      satisfies and which the source treats as false), a single condition,
      and the disjunction of two conditions. */
  datatype Domain = Everything | Single(leaf: Leaf) | Or(left: Leaf, right: Leaf)

  /** The compatibility domain for a scope. */
  function CheckOperatingUnitDomain(scope: ScopeArg): (d: Domain)
    ensures d != Everything
    ensures IsEmpty(scope) ==> d == Single(IsUnset(OperatingUnitField))
    ensures !IsEmpty(scope) ==> d.Or? && d.left.field == CompanyField && d.right.field == CompanyField
  {
    if IsEmpty(scope) then Single(IsUnset(OperatingUnitField))
    else Or(IsUnset(CompanyField), Among(CompanyField, ToOperatingUnitIds(scope)))
  }

  predicate LeafHolds(store: Store, model: ModelName, id: Id, leaf: Leaf) {
    match leaf
    case IsUnset(f) => Read(store, model, id, f) == []
    case Among(f, ids) => exists x :: x in Read(store, model, id, f) && x in ids
  }

  /** Whether record `id` of `model` satisfies `d`. */
  predicate Holds(store: Store, model: ModelName, id: Id, d: Domain) {
    match d
    case Everything => true
    case Single(leaf) => LeafHolds(store, model, id, leaf)
    case Or(left, right) => LeafHolds(store, model, id, left) || LeafHolds(store, model, id, right)
  }

  /** The fields a domain names, in the order the host's filter resolves
      them: it walks the domain from its last element to its first. */
  function LeafFields(d: Domain): seq<FieldName> {
    match d
    case Everything => []
    case Single(leaf) => [leaf.field]
    case Or(left, right) => [right.field, left.field]
  }

  /** The ids among `ids` whose records satisfy `d`. */
  function Filter(store: Store, model: ModelName, ids: seq<Id>, d: Domain): (r: seq<Id>)
    ensures forall x :: x in r <==> x in ids && Holds(store, model, x, d)
    ensures |r| <= |ids|
  {
    if |ids| == 0 then []
    else (if Holds(store, model, ids[0], d) then [ids[0]] else []) + Filter(store, model, ids[1..], d)
  }

  /** The host's in-memory domain filter over a record set. The empty domain
      and the empty record set are returned as they are; otherwise every field
      the domain names must exist on the record set's model. */
  function FilteredDomain(reg: Registry, store: Store, rs: RecordSet, d: Domain): (r: Result<seq<Id>, Failure>)
    ensures d.Everything? || rs.ids == [] ==> r == Ok(rs.ids)
    ensures r.Err? <==> !d.Everything? && rs.ids != [] && FirstMissing(ModelOf(reg, rs.model), LeafFields(d)).Some?
    ensures r.Err? ==> r.error.MissingField? && r.error.model == rs.model
    ensures r.Err? ==> r.error == MissingField(rs.model, FirstMissing(ModelOf(reg, rs.model), LeafFields(d)).value)
    ensures r.Ok? ==> forall x :: x in r.value <==> x in rs.ids && Holds(store, rs.model, x, d)
  {
    if d.Everything? || rs.ids == [] then Ok(rs.ids)
    else match FirstMissing(ModelOf(reg, rs.model), LeafFields(d))
      case Some(f) => Err(MissingField(rs.model, f))
      case None => Ok(Filter(store, rs.model, rs.ids, d))
  }

  /** Normalising a list gives it back, so normalising twice changes nothing. */
  lemma ToOperatingUnitIdsIdempotent(arg: ScopeArg)
    ensures ToOperatingUnitIds(FromList(ToOperatingUnitIds(arg))) == ToOperatingUnitIds(arg)
    ensures arg.FromRecords? ==> ToOperatingUnitIds(arg) == arg.records.ids
    ensures arg.FromList? ==> ToOperatingUnitIds(arg) == arg.ids
    ensures arg.FromScalar? ==> ToOperatingUnitIds(arg) == [arg.id]
  {
  }

  /** What the compatibility domain means for a referenced record: with no
      scope, its operating unit must be unset; with a scope, its company must
      be unset or one of the scope's ids. */
  lemma ScopeDomainMeaning(store: Store, model: ModelName, id: Id, scope: ScopeArg)
    ensures IsEmpty(scope) ==>
      (Holds(store, model, id, CheckOperatingUnitDomain(scope)) <==> Read(store, model, id, OperatingUnitField) == [])
    ensures !IsEmpty(scope) ==>
      (Holds(store, model, id, CheckOperatingUnitDomain(scope)) <==>
        Read(store, model, id, CompanyField) == []
        || exists c :: c in Read(store, model, id, CompanyField) && c in ToOperatingUnitIds(scope))
  {
  }
}
