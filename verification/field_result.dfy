/**
 Every validator of the delivery models answers with either the value it was
 given (possibly a substituted default) or the invalid marker, which the
 JavaScript source spells as the boolean `false`. Construction never fails:
 a record simply carries an `Invalid` field.
 */
module FieldResults {

  /** The outcome of validating one field: the accepted value, or the invalid marker. */
  datatype FieldResult<+T> = Valid(value: T) | Invalid
}
