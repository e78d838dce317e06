/** Optional values and the outcome of a registry write. */
module Wrappers {

  /** A nullable field (`null=True` in the schema) or an absent request parameter. */
  datatype Option<+T> = None | Some(value: T)

  /** Why the database refused a write: a foreign key that names no row, or a
      second row for a column declared `unique` (a one-to-one key is unique). */
  datatype DbError =
    | ForeignKeyViolation(column: string)
    | UniqueViolation(column: string)

  datatype Outcome = Ok | Err(error: DbError)
}
