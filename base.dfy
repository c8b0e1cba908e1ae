/** Values shared by every module of the model: optional values and the
    errors the Go code can return. */
module Base {

  datatype Option<+T> = None | Some(value: T)

  /** The errors the modelled code returns. Go errors are opaque values; the
      model keeps only which collaborator produced them. */
  datatype Error =
    | ScanFailed(reason: string)      // sql.Rows.Scan could not fill its destinations
    | PatternFailed                   // regexp.Compile rejected the quoting pattern
    | ShortWrite                      // the sink took fewer bytes than it was given
    | ColumnNotFound(name: string)    // Query.IndexOf found no such column
    | UnknownColumn                   // Query.Type could not resolve its argument
    | CallerError(message: string)    // returned by a caller's visitor or reducer

  function Min(a: nat, b: nat): nat
  {
    if a <= b then a else b
  }

  /** Concatenation regroups freely. */
  lemma AppendAssoc<T>(a: seq<T>, b: seq<T>, c: seq<T>)
    ensures a + b + c == a + (b + c)
  {
  }
}
