/** What the consistency check and the write interceptor can raise. */
module Errors {
  import opened Records

  /** Which of the three report messages a line uses. */
  datatype MessageKind =
    | CompanyMessage      // the offending record is itself a company
    | RootCompanyMessage  // the record's own company field refers to the record itself
    | RecordMessage       // any other record

  /** One line of the aggregated report: the message variant, the offending
      record (of the checked model), the company the message names, the
      field, and the referenced records that failed the check. */
  datatype Line = Line(
    kind: MessageKind,
    record: Id,
    company: RecordSet,
    field: FieldName,
    values: RecordSet)

  datatype Failure =
    /** A write names a field the model does not have. */
    | InvalidField(field: FieldName, model: ModelName)
    /** The host looked up a field the model does not have while checking. */
    | MissingField(model: ModelName, field: FieldName)
    /** The aggregated scope-consistency error: a header and the report lines. */
    | Incompatible(header: string, lines: seq<Line>)
    /** A name the code uses is not defined in its module. */
    | NameNotDefined(name: string)
}
