// The database errors the modelled writes can raise. A write that raises
// leaves every table as it was (its transaction is not committed).
module DbErrors {
  datatype DbError = ForeignKeyViolation | CheckViolation
}
