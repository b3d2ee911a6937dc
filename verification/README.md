# Operating-unit consistency check

A Dafny model of the operating-unit consistency check that the
`operating_unit` add-on adds to every model of the host framework
(`operating_unit/models/models.py`).

Models opt in by setting `_check_operating_unit_auto`. Their relational
fields opt in by carrying the `check_operating_unit` marker. A write that
names such a field or `operating_unit_id` runs the check *before* the host
stores anything, so the check looks at the references already stored, not
the ones being written. The check examines each marked relational field
whose comodel has `operating_unit_id` or `operating_unit_ids`; a marked
field into any other comodel is never examined. For each record and each
examined field, the pair is flagged when the field refers to some record and
*none* of the referenced records passes the compatibility domain:

- for a regular field, the domain is built from the record's operating units;
- for a company-dependent field, it is the host's domain for the current
  company.

Deciding a pair can also fail instead: when the referenced model lacks a
field the domain names, the filter raises, and the check raises that failure.

As intended, the check raises one aggregated error that lists at most five
flagged (record, field) pairs. As written, reaching the report raises a
`NameError` first, because the module never binds `_` (see "## Findings").

The model is functional:

- **Registry** — a map from model name to a `Model`. Each `Model` holds its
  field descriptors in declaration order.
- **Store** — the stored relational values: record → field → ids.
- **Env** — the registry, the store, and the host's company-compatibility
  domain for the current company. The domain is an abstract parameter.
- **Failures** — every exception the host would raise is a `Failure` value
  carried by `Result` or `Outcome`:
  - the invalid-field `ValueError`;
  - the `KeyError` and `AttributeError` raised by field lookups that fail;
  - the aggregated `UserError`;
  - a `NameError`.

Modules, in the order the check runs:

| module | what it models |
|---|---|
| `Outcomes` | `Option`, `Result`, `Outcome` |
| `Records` | ids, field descriptors, models, record sets, stored values, field lookup |
| `Errors` | the failures and the report lines |
| `Domains` | `to_operating_unit_ids`, `_check_operating_unit_domain`, and the host's `filtered_domain` on the domains used here |
| `Selection` | which fields are checked, split into regular and company-dependent ("property") fields |
| `Evaluator` | scope resolution, the per-pair compatibility rule, the collection of all inconsistent pairs (as functions and as loops) |
| `Reporter` | the capped report and the choice of message per line |
| `Consistency` | `_check_operating_unit` as a whole, both as written and as intended |
| `Interceptor` | `write`: `Write` runs the intended check (`Consistency.CheckOperatingUnit`), `WriteAsWritten` the check as written |
| `Scenarios` | one concrete registry and store, with end-to-end write outcomes |

Points where the code's behaviour is easy to misread:

- The check runs *before* the host's own write. It therefore validates the
  values already stored, not the values being written. `WriteIgnoresValues`
  states this.
- With an empty scope, the compatibility domain tests the referenced
  record's `operating_unit_id`, not its `company_id` (models.py:36-37).
- A record whose model has neither `operating_unit_ids` nor
  `operating_unit_id` is not tolerated. Reading `record.operating_unit_id`
  raises, so the check fails with a missing-field failure.
- With a non-empty scope, the domain compares the referenced record's
  `company_id` with operating-unit ids (models.py:38). The model keeps that
  comparison as written.
- `filtered_domain` evaluates the leaves of `['|', A, B]` from the last one
  back to the first. For a comodel that lacks the field, the missing-field
  failure therefore names the field of leaf B first.

## Model

| member | source | states |
|---|---|---|
| Interceptor.Write | operating_unit/models/models.py:13-26 | an empty record set is left untouched; any write that raises nothing hands exactly the given values to the host |
| Interceptor.WriteRejectsUnknownField | operating_unit/models/models.py:18-21 | a write fails with the invalid-field error exactly when the record set is non-empty and some written name is not a field; the error names the first such name and the model |
| Interceptor.WriteSkipsCheck | operating_unit/models/models.py:17-24 | when the model does not ask for automatic checks, or no written field is `operating_unit_id` or a marked relational field, a write of known fields goes to the host whatever the stored data |
| Interceptor.WriteRunsCheck | operating_unit/models/models.py:22-26 | when the model asks for automatic checks and a written field triggers one, the write raises exactly what the check over all fields raises, and otherwise goes to the host |
| Interceptor.WriteAsWrittenDiffers | operating_unit/models/models.py:24-26 | the write built on the check as written succeeds exactly when the intended write does; otherwise it raises the same failure or the name error, and it raises the name error wherever the intended write raises the aggregated error |
| Interceptor.WriteIgnoresValues | operating_unit/models/models.py:24-26 | the check runs before the host's write: two writes with the same field names raise the same error whatever values they carry |
| Domains.ToOperatingUnitIds | operating_unit/models/models.py:28-33 | the result is empty exactly when the argument is empty; a scalar becomes a one-element list |
| Domains.ToOperatingUnitIdsIdempotent | operating_unit/models/models.py:28-33 | a record set gives its ids, a list is returned as is, a scalar is wrapped; normalising an already normalised list changes nothing |
| Domains.CheckOperatingUnitDomain | operating_unit/models/models.py:35-38 | the domain is never empty: with no scope it is the single "operating unit unset" leaf; otherwise an or of two `company_id` leaves |
| Domains.ScopeDomainMeaning | operating_unit/models/models.py:35-38 | a record satisfies the domain exactly when, with no scope, its operating unit is unset, and with a scope, its company is unset or one of its companies is among the scope ids |
| Domains.Filter | operating_unit/models/models.py:70 | the filtered ids are exactly the given ids that satisfy the domain |
| Domains.FilteredDomain | operating_unit/models/models.py:70 | an empty domain or record set filters to itself; it fails exactly when the domain names a field the comodel lacks, naming the comodel and the first missing field in the order the filter walks the leaves; otherwise it keeps exactly the satisfying records |
| Selection.AllFieldsConsidered | operating_unit/models/models.py:41-53 | with no names, or names including `operating_unit_id`, and distinct field names, every field of the model is considered: a field is selected exactly when it is a field of the model that passes the test, and it lands in the regular or property list by its company dependence |
| Consistency.WriteCheckConsidersAllFields | operating_unit/models/models.py:25-53 | in a registry where each model is registered under its own name with distinct field names, the check a write runs reads the records under their own model and examines exactly the model's fields that pass the test, split by company dependence |
| Selection.CheckedFieldsMembership | operating_unit/models/models.py:46-49 | a field is selected exactly when one of the names looks it up and it is relational, marked, and its comodel has `operating_unit_id` or `operating_unit_ids` |
| Selection.SelectionPartition | operating_unit/models/models.py:44-53 | the regular list holds exactly the selected fields that are not company-dependent, the property list exactly those that are; no field is in both, and together they hold every selected field once |
| Selection.SelectionFailure | operating_unit/models/models.py:46-47 | the selection fails exactly when a walked name is not a field of the model, naming the first such name; walking all fields never fails |
| Selection.WithDependenceCover | operating_unit/models/models.py:50-53 | the regular and property lists together are a permutation of the selected fields |
| Consistency.NothingSelectedPasses | operating_unit/models/models.py:55-56 | when no field is selected the check passes whatever the stored data |
| Consistency.EmptyRecordSetPasses | operating_unit/models/models.py:55-59 | over no records the check passes exactly when every walked name is a field |
| Evaluator.ScopeOf | operating_unit/models/models.py:59-65 | an operating unit is its own scope; otherwise the scope is the record's `operating_unit_ids` when the model has that field, else its `operating_unit_id`; it fails exactly when the model has neither |
| Evaluator.PairInconsistent | operating_unit/models/models.py:66-78 | a pair is inconsistent exactly when the field refers to some record, the domain is not empty, and no referenced record satisfies it; it fails exactly when the domain names a field the comodel lacks, with the filter's failure naming the comodel and that first missing field |
| Evaluator.RegularPairMeaning | operating_unit/models/models.py:66-71 | for a regular field: with no scope, the pair is inconsistent when every referenced record has an operating unit; with a scope, when every referenced record has a company and none of its companies is a scope id |
| Evaluator.FieldInconsistenciesMembership | operating_unit/models/models.py:66-78 | the pairs found over a list of fields are exactly the inconsistent ones |
| Evaluator.RecordInconsistenciesMembership | operating_unit/models/models.py:59-78 | the pairs found for one record are exactly its inconsistent regular and property pairs under its scope |
| Evaluator.InconsistenciesMembership | operating_unit/models/models.py:58-78 | the collection does not stop at the first inconsistency: when it completes, it holds exactly the pairs found for each record |
| Evaluator.CollectedIffReported | operating_unit/models/models.py:58-78 | a pair is collected exactly when it is an inconsistent pair of one of the records |
| Evaluator.InconsistenciesConcat | operating_unit/models/models.py:58-59 | pairs are ordered by record: the pairs of two record sets in sequence are those of the first followed by those of the second |
| Evaluator.RecordInconsistenciesOrder | operating_unit/models/models.py:66-78 | within one record, the pairs of its regular fields come first, then those of its property fields |
| Evaluator.FieldInconsistenciesConcat | operating_unit/models/models.py:66-71 | pairs follow field order: the pairs over two field lists in sequence are those of the first followed by those of the second |
| Evaluator.GatherConcat | operating_unit/models/models.py:58-78 | collecting two runs of steps in sequence yields the first run's pairs followed by the second's |
| Evaluator.ScanFields | operating_unit/models/models.py:66-78 | the loop over one record's fields computes the functional definition of its inconsistent pairs, including the first failure |
| Evaluator.CollectInconsistencies | operating_unit/models/models.py:58-78 | the loop over the records computes the functional definition of all inconsistent pairs, including the first failure |
| Reporter.CompanyOf | operating_unit/models/models.py:89-91 | the company of a record is its stored `company_id`; reading it fails exactly when the model has no such field |
| Reporter.LineFor | operating_unit/models/models.py:85-99 | a line keeps the record, field and referenced records; it uses the company message exactly for a company, the root-company message exactly when a non-company record refers to itself through `company_id`, and the record message otherwise; it fails with the missing `company_id` of the model exactly when a non-company model lacks that field |
| Reporter.Lines | operating_unit/models/models.py:85-99 | lines are made for every violation in order; otherwise the failure is the missing `company_id` of the model |
| Reporter.Report | operating_unit/models/models.py:85 | the report has one line per violation up to five, each the line for the violation in that position; it fails, with the missing `company_id` of the model, exactly when one of those lines cannot be made |
| Reporter.ReportIgnoresRest | operating_unit/models/models.py:85 | violations past the fifth never change the report |
| Reporter.ReportFailsOnlyWithoutCompanyField | operating_unit/models/models.py:86-91 | a non-empty report fails exactly when the model is not `res.company` and has no `company_id` field |
| Consistency.CheckOperatingUnit | operating_unit/models/models.py:40-100 | the check passes exactly when the scan finds nothing; a failure of the selection, a scope read or a filter is raised unchanged, and so is a failed company read while reporting; otherwise it raises the aggregated error, whose header and lines are the report of the pairs found |
| Consistency.ReportedLinesAreInconsistencies | operating_unit/models/models.py:80-100 | every line of the aggregated error, of which there are one to five, reports an inconsistent pair of one of the records |
| Consistency.CollectedIsReported | operating_unit/models/models.py:58-78 | each collected violation belongs to one of the records and is one of its inconsistent pairs |
| Consistency.AsWrittenNeverReports | operating_unit/models/models.py:80-81 | as written, the check never raises the aggregated error: whenever the intended check would, the code raises a name error, and both pass on the same inputs |
| Scenarios.SelectsPartnerOnly | operating_unit/models/models.py:40-53 | on a model with a name, company, operating unit and a marked partner field, only the partner field is selected, as a regular field |
| Scenarios.PartnerPairInconsistent | operating_unit/models/models.py:66-71 | a record of operating unit 1 whose partner has company 2 is inconsistent; a partner without a company, or with company 1, is not |
| Scenarios.Collected | operating_unit/models/models.py:58-78 | the scan over that record collects the partner pair exactly in the inconsistent case |
| Scenarios.PartnerLine | operating_unit/models/models.py:85-91 | the report line for that pair uses the record message and names the record's company 3 |
| Scenarios.IncompatiblePartnerRefused | operating_unit/models/models.py:13-26 | with the intended check, writing the partner field raises the aggregated error with that single line when the partner has company 2, and goes to the host when the partner has no company |
| Scenarios.UnrelatedWriteSkipsCheck | operating_unit/models/models.py:17-26 | writing an unmarked field goes to the host even though stored data is inconsistent |
| Scenarios.UnknownFieldRejected | operating_unit/models/models.py:18-21 | writing an unknown field raises the invalid-field error naming the field and the model |
| Scenarios.AsWrittenWriteRaisesNameError | operating_unit/models/models.py:24-25 | as written, writing the partner field onto that record raises a name error |
| Scenarios.AsWrittenRaisesNameError | operating_unit/models/models.py:80-81 | as written, the same inconsistent record makes the check raise a name error |

## Left out

- The host's own `write` (`super().write`), which stores the values: the
  model returns the values handed to it.
- `_inherit`, the `_check_operating_unit_auto` class default (it is the
  `checkAuto` field of a model), and `_valid_field_parameter`
  (models.py:102-104), which only registers the marker with the field
  machinery. These are declarations, not behaviour.
- `sudo()` and `with_context(active_test=False)`. The model has no access
  rights and no archiving: every stored record is visible.
- `env.company` and `_check_company_domain`, which belong to the host. They
  are the abstract `companyDomain` parameter of `Env`.
- Display names, field labels from `ir.model.fields`, translation and string
  formatting. A report line carries the record, company, field name and
  referenced records that the message is formatted from.
- Logging: the module declares a logger but never uses it.
- Python values `0`, `False` and `None` as a scope argument. Ids are
  positive, so a scalar scope is never empty.
- Registry well-formedness (each model registered under its own name, no
  two fields of a model with one name) is what the host guarantees; the
  operations do not demand it, and only the lemmas that depend on it
  (`Selection.AllFieldsConsidered`, `Consistency.WriteCheckConsidersAllFields`)
  require it.
- A comodel name not in the registry behaves as a model without fields. The
  host refuses to load such a registry.
- Operators in domains other than the ones the check builds (`=` False and
  `in`), and the rest of `filtered_domain`.
- Domains.CheckOperatingUnitDomain: the contract states the shape of the
  non-empty-scope domain. Its meaning is stated separately by
  `Domains.ScopeDomainMeaning`.

## Findings

| source | as written | input that shows it | evidently intended | confidence | as-written member | corrected member |
|---|---|---|---|---|---|---|
| operating_unit/models/models.py:4, 81-84, 100 | the module imports only `models` from the host, yet the report path calls `_`, `_lt` and raises `UserError` | a record of operating unit 1 whose marked partner field refers to a record of company 2 (`Scenarios.AsWrittenRaisesNameError`): reaching line 81 raises `NameError` for `_` | the aggregated incompatibility error listing the first five pairs | not executed | Consistency.CheckOperatingUnitAsWritten (also used by `Interceptor.WriteAsWritten`) | Consistency.CheckOperatingUnit (also used by `Interceptor.Write`) |
