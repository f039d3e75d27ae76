/** Datatypes and small functions the components share. */
module Common {

  datatype Option<+T> = None | Some(value: T)

  /** A value, or the message of the error thrown instead. */
  datatype Result<+T> = Ok(value: T) | Err(error: string)

  /** A field of a parsed JSON object: missing, of the wrong type or value, or usable. */
  datatype Field<+T> = Absent | Malformed | Given(value: T)

  predicate Filled(f: Field<string>) { f.Given? && f.value != "" }

  function Min(a: int, b: int): int { if a <= b then a else b }

  function Max(a: int, b: int): int { if a >= b then a else b }
}
