/** The database/sql collaborators the core consumes: nullable strings and a
    forward-only result cursor. */
module Sql {
  import opened Base

  /** sql.NullString: a string that may be SQL NULL (valid == false). */
  datatype NullString = NullString(str: string, valid: bool)

  /** One position of a result set, as the driver delivers it. */
  datatype Step =
    | Row(values: seq<NullString>)    // a row Scan can copy out
    | Unscannable(reason: string)     // a row Scan fails on (a conversion the driver refuses)
    | Interrupted(reason: string)     // the driver stops the iteration: Next reports false

  /** The outcome of Rows.Scan into `width` destinations. */
  datatype Scanned = Scanned(values: seq<NullString>) | ScanError(error: Error)

  /** Rows.Scan: it refuses a destination count that differs from the row's
      column count, and it refuses a row the driver cannot convert. */
  function ScanStep(s: Step, width: nat): (r: Scanned)
    ensures r.Scanned? ==> s.Row? && r.values == s.values && |r.values| == width
    ensures s.Row? && |s.values| == width ==> r.Scanned?
  {
    match s
    case Row(vs) => if |vs| == width then Scanned(vs) else ScanError(ScanFailed("destination count differs from column count"))
    case Unscannable(reason) => ScanError(ScanFailed(reason))
    case Interrupted(reason) => ScanError(ScanFailed(reason))
  }

  /** sql.Rows: a cursor over `rows`; `pos` is the number of successful Next calls. */
  class Cursor {
    const rows: seq<Step>
    var pos: nat

    ghost predicate Valid()
      reads this
    {
      pos <= |rows|
    }

    constructor (rows: seq<Step>)
      ensures this.rows == rows && pos == 0 && Valid()
    {
      this.rows := rows;
      pos := 0;
    }

    /** Rows.Next: advances to the next row if there is one and the driver
        does not stop; once it reports false it keeps reporting false. */
    method Next() returns (more: bool)
      requires Valid()
      modifies this
      ensures Valid()
      ensures more <==> old(pos) < |rows| && !rows[old(pos)].Interrupted?
      ensures pos == if more then old(pos) + 1 else old(pos)
    {
      more := pos < |rows| && !rows[pos].Interrupted?;
      if more {
        pos := pos + 1;
      }
    }

    /** Rows.Scan of the current row into `dest`. */
    method Scan(dest: array<NullString>) returns (err: Option<Error>)
      requires Valid() && 0 < pos
      modifies dest
      ensures var r := ScanStep(rows[pos - 1], dest.Length);
        (r.Scanned? ==> err.None? && dest[..] == r.values) &&
        (r.ScanError? ==> err == Some(r.error) && dest[..] == old(dest[..]))
    {
      var r := ScanStep(rows[pos - 1], dest.Length);
      if r.Scanned? {
        var i := 0;
        while i < dest.Length
          invariant 0 <= i <= dest.Length
          invariant forall k :: 0 <= k < i ==> dest[k] == r.values[k]
        {
          dest[i] := r.values[i];
          i := i + 1;
        }
        err := None;
      } else {
        err := Some(r.error);
      }
    }
  }
}
