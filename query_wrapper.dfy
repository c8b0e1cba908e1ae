/** query_wrapper.go: the query handle, its column metadata and the two ways
    of consuming its rows (push iteration and accumulation). */
module QueryWrapper {
  import opened Base
  import opened Sql
  import Decimal

  /** DBType: the high-level type of a result column, an int in Go. */
  newtype DBType = int {
    /** DBType.String: the name of each named constant, "Unknown" for any other value. */
    function String(): (s: string)
      ensures s == "Number" || s == "Text" || s == "Date" || s == "Time" || s == "Bytes" || s == "Unknown"
    {
      if this == DBNumber then "Number"
      else if this == DBText then "Text"
      else if this == DBDate then "Date"
      else if this == DBTime then "Time"
      else if this == DBBytes then "Bytes"
      else "Unknown"
    }
  }

  const DBNumber: DBType := 0
  const DBText: DBType := 1
  const DBDate: DBType := 2
  const DBTime: DBType := 3
  const DBBytes: DBType := 4
  const DBUnknown: DBType := 999

  /** String names exactly the five typed constants, and no two of them alike;
      every other value, DBUnknown included, is "Unknown". */
  lemma StringNames(d: DBType, e: DBType)
    ensures d.String() != "Unknown" <==> 0 <= d <= 4
    ensures d.String() == e.String() && 0 <= d <= 4 ==> d == e
    ensures DBNumber.String() == "Number" && DBText.String() == "Text" && DBDate.String() == "Date"
    ensures DBTime.String() == "Time" && DBBytes.String() == "Bytes" && DBUnknown.String() == "Unknown"
  {
  }

  /** The argument of Query.Type: a column name or an ordinal. Go takes an
      interface{} and panics on anything else. */
  datatype ColumnRef = ByName(name: string) | ByIndex(index: int)

  /** What a visitor (Go's Iterator) answers for one row: its new state,
      whether to stop, and an error. */
  datatype Visit<S> = Visit(state: S, stop: bool, err: Option<Error>)

  /** What ForEach does to a cursor: the error it returns, the visitor's final
      state, how many times Next succeeded and how many visitor calls it made. */
  datatype Walked<S> = Walked(err: Option<Error>, state: S, advanced: nat, calls: nat)

  /** ForEach over the cursor positions `steps`, scanning `width` columns. */
  function Walk<S>(steps: seq<Step>, width: nat, visitor: (S, seq<NullString>) -> Visit<S>, s: S): (w: Walked<S>)
    ensures w.advanced <= |steps| && w.calls <= w.advanced <= w.calls + 1
  {
    if steps == [] || steps[0].Interrupted? then Walked(None, s, 0, 0)
    else match ScanStep(steps[0], width)
      case ScanError(e) => Walked(Some(e), s, 1, 0)
      case Scanned(values) =>
        var v := visitor(s, values);
        if v.err.Some? then Walked(v.err, v.state, 1, 1)
        else if v.stop then Walked(None, v.state, 1, 1)
        else
          var rest := Walk(steps[1..], width, visitor, v.state);
          Walked(rest.err, rest.state, rest.advanced + 1, rest.calls + 1)
  }

  /** What Accumulate returns: Go's (interface{}, error), with nil as None. */
  datatype Accumulated<A> = Accumulated(value: Option<A>, err: Option<Error>, advanced: nat)

  /** Accumulate over `steps`: `current` is the running value, `starting` the
      value Accumulate was called with. */
  function Fold<A>(steps: seq<Step>, width: nat, reducer: (A, seq<NullString>) -> Result<A>, current: A, starting: A): (r: Accumulated<A>)
    ensures r.advanced <= |steps|
  {
    if steps == [] || steps[0].Interrupted? then Accumulated(Some(current), None, 0)
    else match ScanStep(steps[0], width)
      case ScanError(e) => Accumulated(None, Some(e), 1)
      case Scanned(values) =>
        match reducer(current, values)
        case Failed(e) => Accumulated(Some(starting), Some(e), 1)
        case Ok(next) =>
          var rest := Fold(steps[1..], width, reducer, next, starting);
          Accumulated(rest.value, rest.err, rest.advanced + 1)
  }

  /** The reducer's answer: Go's (interface{}, error). */
  datatype Result<A> = Ok(value: A) | Failed(error: Error)

  /** Query: the wrapped result of an executed statement. The cursor is shared
      by every copy of the value, as the *sql.Rows handle is in Go. */
  datatype Query = Query(executedQuery: string, result: Cursor, columns: seq<string>) {

    /** IndexOf: the first column called `name`, or -1 and an error. */
    method IndexOf(name: string) returns (i: int, err: Option<Error>)
      ensures err.None? <==> name in columns
      ensures err.None? ==> 0 <= i < |columns| && columns[i] == name && name !in columns[..i]
      ensures err.Some? ==> i == -1 && err == Some(ColumnNotFound(name))
    {
      var k := 0;
      while k < |columns|
        invariant 0 <= k <= |columns|
        invariant name !in columns[..k]
      {
        if name == columns[k] {
          return k, None;
        }
        k := k + 1;
      }
      assert columns[..k] == columns;
      return -1, Some(ColumnNotFound(name));
    }

    /** Type: a name that is not a column is an error with type -1; any other
        argument, an out-of-range ordinal included, yields DBUnknown. */
    method Type(column: ColumnRef) returns (t: DBType, err: Option<Error>)
      ensures err.Some? <==> column.ByName? && column.name !in columns
      ensures err.Some? ==> t == -1 && err == Some(UnknownColumn)
      ensures err.None? ==> t == DBUnknown
    {
      var lookup: Option<Error> := None;
      match column {
        case ByName(name) =>
          var _, e := IndexOf(name);
          lookup := e;
        case ByIndex(_) =>
      }
      if lookup.Some? {
        return -1, Some(UnknownColumn);
      }
      return DBUnknown, None;
    }

    /** MakeBuffer: one NULL string slot per column. */
    method MakeBuffer() returns (buffer: array<NullString>)
      ensures fresh(buffer) && buffer.Length == |columns|
      ensures forall k :: 0 <= k < buffer.Length ==> buffer[k] == NullString("", false)
    {
      buffer := new NullString[|columns|];
      var i := 0;
      while i < buffer.Length
        invariant 0 <= i <= buffer.Length
        invariant forall k :: 0 <= k < i ==> buffer[k] == NullString("", false)
      {
        buffer[i] := NullString("", false);
        i := i + 1;
      }
    }

    /** ForEach: calls the visitor on every row in cursor order, stopping right
        after the first call that asks to stop, and returning the first scan or
        visitor error. */
    method ForEach<S>(visitor: (S, seq<NullString>) -> Visit<S>, s0: S) returns (err: Option<Error>, s: S)
      requires result.Valid()
      modifies result
      ensures result.Valid()
      ensures var w := Walk(old(result.rows[result.pos..]), |columns|, visitor, s0);
        err == w.err && s == w.state && result.pos == old(result.pos) + w.advanced
    {
      var buffer := MakeBuffer();
      ghost var start := result.pos;
      ghost var whole := Walk(result.rows[start..], |columns|, visitor, s0);
      s := s0;
      while true
        invariant result.Valid() && start <= result.pos
        invariant var w := Walk(result.rows[result.pos..], |columns|, visitor, s);
          whole.err == w.err && whole.state == w.state && whole.advanced == result.pos - start + w.advanced
        decreases |result.rows| - result.pos
      {
        ghost var here := result.rows[result.pos..];
        var more := result.Next();
        if !more {
          return None, s;
        }
        var scanErr := result.Scan(buffer);
        if scanErr.Some? {
          return scanErr, s;
        }
        assert ScanStep(here[0], |columns|) == Scanned(buffer[..]);
        assert here[1..] == result.rows[result.pos..];
        var v := visitor(s, buffer[..]);
        if v.err.Some? {
          return v.err, v.state;
        }
        s := v.state;
        if v.stop {
          return None, s;
        }
      }
    }

    /** Accumulate: threads a value through the reducer over every row. A scan
        error returns nil; a reducer error returns the starting value. */
    method Accumulate<A>(reducer: (A, seq<NullString>) -> Result<A>, starting: A) returns (value: Option<A>, err: Option<Error>)
      requires result.Valid()
      modifies result
      ensures result.Valid()
      ensures var r := Fold(old(result.rows[result.pos..]), |columns|, reducer, starting, starting);
        value == r.value && err == r.err && result.pos == old(result.pos) + r.advanced
    {
      var buffer := MakeBuffer();
      ghost var start := result.pos;
      ghost var whole := Fold(result.rows[start..], |columns|, reducer, starting, starting);
      var current := starting;
      while true
        invariant result.Valid() && start <= result.pos
        invariant var r := Fold(result.rows[result.pos..], |columns|, reducer, current, starting);
          whole.value == r.value && whole.err == r.err && whole.advanced == result.pos - start + r.advanced
        decreases |result.rows| - result.pos
      {
        ghost var here := result.rows[result.pos..];
        var more := result.Next();
        if !more {
          return Some(current), None;
        }
        var scanErr := result.Scan(buffer);
        if scanErr.Some? {
          return None, scanErr;
        }
        assert ScanStep(here[0], |columns|) == Scanned(buffer[..]);
        assert here[1..] == result.rows[result.pos..];
        var next := reducer(current, buffer[..]);
        if next.Failed? {
          return Some(starting), Some(next.error);
        }
        current := next.value;
      }
    }
  }

  // ----- Properties of ForEach and Accumulate -----

  /** Every cursor position scans into `width` columns (and none interrupts). */
  predicate AllScan(steps: seq<Step>, width: nat)
  {
    forall k :: 0 <= k < |steps| ==> ScanStep(steps[k], width).Scanned?
  }

  /** The rows of a cursor every position of which scans. */
  function Values(steps: seq<Step>, width: nat): (rows: seq<seq<NullString>>)
    requires AllScan(steps, width)
    ensures |rows| == |steps|
  {
    seq(|steps|, k requires 0 <= k < |steps| => ScanStep(steps[k], width).values)
  }

  /** The left fold of `g` over `rows`, from `s`. */
  function FoldLeft<S>(g: (S, seq<NullString>) -> S, s: S, rows: seq<seq<NullString>>): S
  {
    if rows == [] then s else FoldLeft(g, g(s, rows[0]), rows[1..])
  }

  /** A visitor that never stops and never fails, updating its state with `g`. */
  function Continue<S>(g: (S, seq<NullString>) -> S): (S, seq<NullString>) -> Visit<S>
  {
    (s, row) => Visit(g(s, row), false, None)
  }

  /** A reducer that never fails. */
  function Lift<A>(g: (A, seq<NullString>) -> A): (A, seq<NullString>) -> Result<A>
  {
    (a, row) => Ok(g(a, row))
  }

  /** The visitor of the stop test: it counts rows and asks to stop once the
      count exceeds `k`. */
  function StopAfter(k: int): (int, seq<NullString>) -> Visit<int>
  {
    (count, row) => Visit(count + 1, count + 1 > k, None)
  }

  /** A visitor that never stops is called on every row, in cursor order: its
      final state is the left fold over all rows. */
  lemma {:induction false} WalkVisitsAll<S>(steps: seq<Step>, width: nat, g: (S, seq<NullString>) -> S, s: S)
    requires AllScan(steps, width)
    ensures Walk(steps, width, Continue(g), s) == Walked(None, FoldLeft(g, s, Values(steps, width)), |steps|, |steps|)
  {
    if steps != [] {
      assert ScanStep(steps[0], width).Scanned?;
      assert AllScan(steps[1..], width) by {
        forall k | 0 <= k < |steps| - 1 ensures ScanStep(steps[1..][k], width).Scanned? {
          assert steps[1..][k] == steps[k + 1];
        }
      }
      assert Values(steps, width)[1..] == Values(steps[1..], width);
      WalkVisitsAll(steps[1..], width, g, g(s, ScanStep(steps[0], width).values));
    }
  }

  /** The stopping visitor, started at count c <= k, is called min(|steps|, k + 1 - c)
      times and stops right after the call that takes its count past k. */
  lemma {:induction false} WalkStopsAfter(steps: seq<Step>, width: nat, k: int, c: int)
    requires AllScan(steps, width) && c <= k
    ensures var w := Walk(steps, width, StopAfter(k), c);
      w.err.None? && w.advanced == w.calls &&
      w.calls == (if |steps| <= k + 1 - c then |steps| else k + 1 - c) &&
      w.state == c + w.calls
  {
    if steps != [] {
      assert ScanStep(steps[0], width).Scanned?;
      if c + 1 <= k {
        assert AllScan(steps[1..], width) by {
          forall j | 0 <= j < |steps| - 1 ensures ScanStep(steps[1..][j], width).Scanned? {
            assert steps[1..][j] == steps[j + 1];
          }
        }
        WalkStopsAfter(steps[1..], width, k, c + 1);
      }
    }
  }

  /** A reducer that never fails folds over every row. */
  lemma {:induction false} FoldAll<A>(steps: seq<Step>, width: nat, g: (A, seq<NullString>) -> A, current: A, starting: A)
    requires AllScan(steps, width)
    ensures Fold(steps, width, Lift(g), current, starting) == Accumulated(Some(FoldLeft(g, current, Values(steps, width))), None, |steps|)
  {
    if steps != [] {
      assert ScanStep(steps[0], width).Scanned?;
      assert AllScan(steps[1..], width) by {
        forall k | 0 <= k < |steps| - 1 ensures ScanStep(steps[1..][k], width).Scanned? {
          assert steps[1..][k] == steps[k + 1];
        }
      }
      assert Values(steps, width)[1..] == Values(steps[1..], width);
      FoldAll(steps[1..], width, g, g(current, ScanStep(steps[0], width).values), starting);
    }
  }

  /** Accumulate's error rule: without an error the value is present; a scan
      error yields nil; a reducer error yields the starting value, not the last
      accumulator. The failing position is the last one the cursor reached. */
  lemma {:induction false} FoldFailure<A>(steps: seq<Step>, width: nat, reducer: (A, seq<NullString>) -> Result<A>, current: A, starting: A)
    ensures var r := Fold(steps, width, reducer, current, starting);
      (r.err.None? ==> r.value.Some?) &&
      (r.err.Some? ==> (
        && 1 <= r.advanced
        && (r.value.None? <==> ScanStep(steps[r.advanced - 1], width).ScanError?)
        && (r.value.Some? ==> r.value.value == starting)))
  {
    if steps != [] && !steps[0].Interrupted? && ScanStep(steps[0], width).Scanned? {
      var next := reducer(current, ScanStep(steps[0], width).values);
      if next.Ok? {
        FoldFailure(steps[1..], width, reducer, next.value, starting);
        var r := Fold(steps[1..], width, reducer, next.value, starting);
        if r.err.Some? {
          assert steps[r.advanced] == steps[1..][r.advanced - 1];
        }
      }
    }
  }

  /** ForEach's error rule: the walk advances one row more than it calls the
      visitor exactly when it ends on a row Scan refuses, and then it returns
      that scan error. */
  lemma {:induction false} WalkFailure<S>(steps: seq<Step>, width: nat, visitor: (S, seq<NullString>) -> Visit<S>, s: S)
    ensures var w := Walk(steps, width, visitor, s);
      w.advanced == w.calls + 1 <==>
        w.advanced >= 1 && ScanStep(steps[w.advanced - 1], width).ScanError? && w.err.Some?
    ensures var w := Walk(steps, width, visitor, s);
      w.advanced == w.calls + 1 ==> w.err == Some(ScanStep(steps[w.advanced - 1], width).error)
  {
    if steps != [] && !steps[0].Interrupted? && ScanStep(steps[0], width).Scanned? {
      var v := visitor(s, ScanStep(steps[0], width).values);
      if v.err.None? && !v.stop {
        WalkFailure(steps[1..], width, visitor, v.state);
        var w := Walk(steps[1..], width, visitor, v.state);
        if w.advanced >= 1 {
          assert steps[w.advanced] == steps[1..][w.advanced - 1];
        }
      }
    }
  }

  /** ForEach never checks rows.Err(): a driver interruption after the
      positions `pre` ends it exactly as the end of the result set does. */
  lemma {:induction false} WalkInterrupted<S>(pre: seq<Step>, reason: string, post: seq<Step>, width: nat, visitor: (S, seq<NullString>) -> Visit<S>, s: S)
    ensures Walk(pre + [Interrupted(reason)] + post, width, visitor, s) == Walk(pre, width, visitor, s)
  {
    var steps := pre + [Interrupted(reason)] + post;
    if pre != [] {
      assert steps[0] == pre[0];
      assert steps[1..] == pre[1..] + [Interrupted(reason)] + post;
      if ScanStep(pre[0], width).Scanned? {
        var v := visitor(s, ScanStep(pre[0], width).values);
        if v.err.None? && !v.stop {
          WalkInterrupted(pre[1..], reason, post, width, visitor, v.state);
        }
      }
    }
  }

  /** Accumulate never checks rows.Err() either: an interruption after `pre`
      returns the running value with no error, as the end of the result set does. */
  lemma {:induction false} FoldInterrupted<A>(pre: seq<Step>, reason: string, post: seq<Step>, width: nat, reducer: (A, seq<NullString>) -> Result<A>, current: A, starting: A)
    ensures Fold(pre + [Interrupted(reason)] + post, width, reducer, current, starting) == Fold(pre, width, reducer, current, starting)
  {
    var steps := pre + [Interrupted(reason)] + post;
    if pre != [] {
      assert steps[0] == pre[0];
      assert steps[1..] == pre[1..] + [Interrupted(reason)] + post;
      if ScanStep(pre[0], width).Scanned? {
        var r := reducer(current, ScanStep(pre[0], width).values);
        if r.Ok? {
          FoldInterrupted(pre[1..], reason, post, width, reducer, r.value, starting);
        }
      }
    }
  }

  /** The visitor's state after it has been called on `rows` in order. */
  function Trace<S>(visitor: (S, seq<NullString>) -> Visit<S>, s: S, rows: seq<seq<NullString>>): S
  {
    if rows == [] then s else Trace(visitor, visitor(s, rows[0]).state, rows[1..])
  }

  /** The visitor, called on `rows` in order, neither stops nor fails on any of them. */
  predicate Continues<S>(visitor: (S, seq<NullString>) -> Visit<S>, s: S, rows: seq<seq<NullString>>)
  {
    rows == [] || (var v := visitor(s, rows[0]); v.err.None? && !v.stop && Continues(visitor, v.state, rows[1..]))
  }

  /** While the first j rows scan and the visitor goes on, ForEach calls it on
      each of them in order and then carries on over the rest of the cursor
      from the state they lead to. */
  lemma {:induction false} WalkContinues<S>(steps: seq<Step>, width: nat, visitor: (S, seq<NullString>) -> Visit<S>, s: S, j: nat)
    requires j <= |steps| && AllScan(steps[..j], width) && Continues(visitor, s, Values(steps[..j], width))
    ensures var rest := Walk(steps[j..], width, visitor, Trace(visitor, s, Values(steps[..j], width)));
      Walk(steps, width, visitor, s) == Walked(rest.err, rest.state, rest.advanced + j, rest.calls + j)
  {
    if j == 0 {
      assert steps[0..] == steps;
    } else {
      var head := steps[..j];
      assert head[0] == steps[0];
      assert ScanStep(steps[0], width).Scanned?;
      var values := ScanStep(steps[0], width).values;
      assert Values(head, width)[0] == values;
      var v := visitor(s, values);
      var tail := steps[1..];
      var later := tail[..j - 1];
      assert later == head[1..];
      assert AllScan(later, width) by {
        forall k | 0 <= k < |later| ensures ScanStep(later[k], width).Scanned? {
          assert later[k] == head[k + 1];
        }
      }
      assert Values(head, width)[1..] == Values(later, width);
      WalkContinues(tail, width, visitor, v.state, j - 1);
      assert tail[j - 1..] == steps[j..];
    }
  }

  /** A visitor that goes on over the first j rows and then stops or fails on
      row j is called exactly j + 1 times: ForEach returns that call's error,
      or none on a stop, with that call's state. */
  lemma WalkEndsAtCall<S>(steps: seq<Step>, width: nat, visitor: (S, seq<NullString>) -> Visit<S>, s: S, j: nat)
    requires j < |steps| && AllScan(steps[..j + 1], width) && Continues(visitor, s, Values(steps[..j], width))
    requires var v := visitor(Trace(visitor, s, Values(steps[..j], width)), ScanStep(steps[j], width).values);
      v.stop || v.err.Some?
    ensures var v := visitor(Trace(visitor, s, Values(steps[..j], width)), ScanStep(steps[j], width).values);
      Walk(steps, width, visitor, s) == Walked(v.err, v.state, j + 1, j + 1)
  {
    assert steps[..j + 1][j] == steps[j];
    assert AllScan(steps[..j], width) by {
      forall k | 0 <= k < j ensures ScanStep(steps[..j][k], width).Scanned? {
        assert steps[..j][k] == steps[..j + 1][k];
      }
    }
    WalkContinues(steps, width, visitor, s, j);
    assert steps[j..][0] == steps[j];
  }

  /** A row Scan refuses after j rows the visitor went on over ends ForEach
      with that scan error, and the visitor is not called on it. */
  lemma WalkEndsAtScan<S>(steps: seq<Step>, width: nat, visitor: (S, seq<NullString>) -> Visit<S>, s: S, j: nat)
    requires j < |steps| && AllScan(steps[..j], width) && Continues(visitor, s, Values(steps[..j], width))
    requires !steps[j].Interrupted? && ScanStep(steps[j], width).ScanError?
    ensures Walk(steps, width, visitor, s) ==
      Walked(Some(ScanStep(steps[j], width).error), Trace(visitor, s, Values(steps[..j], width)), j + 1, j)
  {
    WalkContinues(steps, width, visitor, s, j);
    assert steps[j..][0] == steps[j];
  }

  // ----- The scenarios of query_wrapper_test.go -----

  /** `select id from test_simple`: five rows, ids 1 to 5. */
  const TestSimple: seq<Step> := [
    Row([NullString("1", true)]), Row([NullString("2", true)]), Row([NullString("3", true)]),
    Row([NullString("4", true)]), Row([NullString("5", true)])]

  /** The test's reducer: adds the integer value of the first column. */
  function SumIds(total: int, row: seq<NullString>): Result<int>
  {
    if |row| == 0 then Failed(CallerError("no column"))
    else if !row[0].valid then Failed(CallerError("Expected a value for 'id' but got nil instead"))
    else match Decimal.Atoi(row[0].str)
      case None => Failed(CallerError("invalid syntax"))
      case Some(v) => Ok(total + v)
  }

  /** The stop test sees 3 of the 5 rows; the plain visitor sees all 5. */
  lemma ForEachScenarios()
    ensures Walk(TestSimple, 1, StopAfter(2), 0).state == 3
    ensures Walk(TestSimple, 1, Continue((count: int, row: seq<NullString>) => count + 1), 0).state == 5
  {
    assert AllScan(TestSimple, 1);
    WalkStopsAfter(TestSimple, 1, 2, 0);
    WalkVisitsAll(TestSimple, 1, (count: int, row: seq<NullString>) => count + 1, 0);
  }

  /** The sum reducer over ids 1..5 from 0 accumulates 15. */
  lemma AccumulateScenario()
    ensures Fold(TestSimple, 1, SumIds, 0, 0) == Accumulated(Some(15), None, 5)
  {
    assert Decimal.Atoi("1") == Some(1) by { Decimal.AtoiIntText(1); }
    assert Decimal.Atoi("2") == Some(2) by { Decimal.AtoiIntText(2); }
    assert Decimal.Atoi("3") == Some(3) by { Decimal.AtoiIntText(3); }
    assert Decimal.Atoi("4") == Some(4) by { Decimal.AtoiIntText(4); }
    assert Decimal.Atoi("5") == Some(5) by { Decimal.AtoiIntText(5); }
  }
}
