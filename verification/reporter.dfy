/** The violation reporter: turns the collected violations into the lines of
    one aggregated error, keeping at most five of them. */
module Reporter {
  import opened Outcomes
  import opened Records
  import opened Errors
  import opened Evaluator

  const Header: string := "Incompatible companies on records:"

  /** How many violations the report shows. */
  const MaxLines: nat := 5

  function Min(a: int, b: int): int {
    if a <= b then a else b
  }

  /** Record-set equality as the host defines it: same model, same set of ids. */
  predicate SameRecords(a: RecordSet, b: RecordSet) {
    a.model == b.model && (set x | x in a.ids) == (set x | x in b.ids)
  }

  /** The company of record `id` of `m`; the host fails to read it when the
      model has no company field. */
  function CompanyOf(store: Store, m: Model, id: Id): (r: Result<RecordSet, Failure>)
    ensures r.Err? <==> !HasField(m, CompanyField)
    ensures r.Err? ==> r.error == MissingField(m.name, CompanyField)
    ensures r.Ok? ==> r.value.ids == Read(store, m.name, id, CompanyField)
  {
    match LookupField(m, CompanyField)
    case Some(f) => Ok(RecordSet(f.comodel, Read(store, m.name, id, CompanyField)))
    case None => Err(MissingField(m.name, CompanyField))
  }

  /** The report line for one violation of a record of `m`. */
  function LineFor(store: Store, m: Model, v: Violation): (r: Result<Line, Failure>)
    ensures r.Ok? ==> r.value.record == v.record && r.value.field == v.field && r.value.values == v.corecords
    ensures r.Ok? ==> (r.value.kind == CompanyMessage <==> m.name == CompanyModel)
    ensures r.Ok? ==> (r.value.kind == RootCompanyMessage <==>
      m.name != CompanyModel && v.field == CompanyField && SameRecords(RecordSet(m.name, [v.record]), v.corecords))
    ensures r.Ok? && r.value.kind == CompanyMessage ==> r.value.company == RecordSet(m.name, [v.record])
    ensures r.Ok? && r.value.kind != CompanyMessage ==> r.value.company.ids == Read(store, m.name, v.record, CompanyField)
    ensures r.Err? <==> m.name != CompanyModel && !HasField(m, CompanyField)
    ensures r.Err? ==> r.error == MissingField(m.name, CompanyField)
  {
    if m.name == CompanyModel then
      Ok(Line(CompanyMessage, v.record, RecordSet(m.name, [v.record]), v.field, v.corecords))
    else
      var company :- CompanyOf(store, m, v.record);
      var kind := if SameRecords(RecordSet(m.name, [v.record]), v.corecords) && v.field == CompanyField
        then RootCompanyMessage else RecordMessage;
      Ok(Line(kind, v.record, company, v.field, v.corecords))
  }

  /** The lines for `vs`, in order; the first failure if a line cannot be made. */
  function Lines(store: Store, m: Model, vs: seq<Violation>): (r: Result<seq<Line>, Failure>)
    ensures r.Ok? <==> forall i :: 0 <= i < |vs| ==> LineFor(store, m, vs[i]).Ok?
    ensures r.Ok? ==> |r.value| == |vs| && forall i :: 0 <= i < |vs| ==> LineFor(store, m, vs[i]) == Ok(r.value[i])
    ensures r.Err? ==> r.error == MissingField(m.name, CompanyField)
  {
    if |vs| == 0 then Ok([])
    else
      match LineFor(store, m, vs[0])
      case Err(e) => Err(e)
      case Ok(first) =>
        match Lines(store, m, vs[1..])
        case Err(e) => Err(e)
        case Ok(rest) => Ok([first] + rest)
  }

  /** The report lines: one for each of the first five violations, in order;
      the rest are dropped without mention. */
  function Report(store: Store, m: Model, vs: seq<Violation>): (r: Result<seq<Line>, Failure>)
    ensures r.Ok? ==> |r.value| == Min(MaxLines, |vs|)
    ensures r.Ok? ==> forall i :: 0 <= i < |r.value| ==> LineFor(store, m, vs[i]) == Ok(r.value[i])
    ensures r.Err? <==> exists i :: 0 <= i < Min(MaxLines, |vs|) && LineFor(store, m, vs[i]).Err?
    ensures r.Err? ==> r.error == MissingField(m.name, CompanyField)
  {
    Lines(store, m, vs[..Min(MaxLines, |vs|)])
  }

  /** Violations past the fifth never change the report. */
  lemma ReportIgnoresRest(store: Store, m: Model, vs: seq<Violation>, rest: seq<Violation>)
    requires |vs| >= MaxLines
    ensures Report(store, m, vs + rest) == Report(store, m, vs)
  {
    assert (vs + rest)[..MaxLines] == vs[..MaxLines];
  }

  /** A line cannot be made only for a record without a company field, and
      then no line for the same model can be made. */
  lemma ReportFailsOnlyWithoutCompanyField(store: Store, m: Model, vs: seq<Violation>)
    requires vs != []
    ensures Report(store, m, vs).Err? <==> m.name != CompanyModel && !HasField(m, CompanyField)
  {
    assert LineFor(store, m, vs[0]).Err? <==> m.name != CompanyModel && !HasField(m, CompanyField);
  }
}
