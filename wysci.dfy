/** The HTTP layer's own row path: scan buffers chosen by the column's native
    type name, the rendering of each scanned slot to text, and the unescaped
    CSV line the endpoints write. */
module Wysci {
  import opened Base
  import opened Sql
  import opened Decimal
  import opened Io
  import Processor

  // ----- Slots and their kinds -----

  type Int32 = i: int | -0x8000_0000 <= i <= 0x7FFF_FFFF
  type Int64 = i: int | Int64Min <= i <= Int64Max
  type Month = m: int | 1 <= m <= 12 witness 1
  type Day = d: int | 1 <= d <= 31 witness 1

  /** time.Time, broken down in its own location; `clock` (nanoseconds into
      the day) only matters to the timestamp renderer. */
  datatype Time = Time(year: int, month: Month, day: Day, clock: nat)

  /** The six sql.Null* destination types createBuffer allocates. */
  datatype Kind = StringKind | TimeKind | FloatKind | BoolKind | Int32Kind | Int64Kind

  /** One element of the scan buffer: nil, or a reference to a sql.Null* value
      (its payload and its Valid flag). */
  datatype Slot =
    | Nil
    | StringSlot(s: NullString)
    | TimeSlot(time: Time, valid: bool)
    | FloatSlot(float: real, valid: bool)
    | BoolSlot(flag: bool, valid: bool)
    | Int32Slot(int32: Int32, valid: bool)
    | Int64Slot(int64: Int64, valid: bool)

  /** The type assertion inside castString, castTime, castFloat64, castBool,
      castInt32 and castInt64: the kind a slot holds, none for nil. A cast to
      kind k succeeds exactly when KindOf(v) == Some(k). */
  function KindOf(v: Slot): (k: Option<Kind>)
    ensures k.None? <==> v.Nil?
  {
    match v
    case Nil => None
    case StringSlot(_) => Some(StringKind)
    case TimeSlot(_, _) => Some(TimeKind)
    case FloatSlot(_, _) => Some(FloatKind)
    case BoolSlot(_, _) => Some(BoolKind)
    case Int32Slot(_, _) => Some(Int32Kind)
    case Int64Slot(_, _) => Some(Int64Kind)
  }

  /** SQL NULL: a slot whose Valid flag is false (nil counts as no value). */
  predicate IsNull(v: Slot)
  {
    match v
    case Nil => true
    case StringSlot(s) => !s.valid
    case _ => !v.valid
  }

  // ----- createBuffer -----

  /** createBuffer's table: the destination kind for a native type name,
      none for a name outside it. */
  function KindFor(t: string): (k: Option<Kind>)
    ensures k.Some? ==> k == ScanKind(t) || t == "NVARCHAR" || t == "INT"
    ensures ScanKind(t).Some? ==> k == ScanKind(t) || t == "NVCHAR"
  {
    if t == "VARCHAR" || t == "TEXT" || t == "NVARCHAR" || t == "MONEY" then Some(StringKind)
    else if t == "TIMESTAMP" || t == "DATE" then Some(TimeKind)
    else if t == "DECIMAL" then Some(FloatKind)
    else if t == "BOOL" then Some(BoolKind)
    else if t == "INT" || t == "INT4" then Some(Int32Kind)
    else if t == "BIGINT" then Some(Int64Kind)
    else None
  }

  /** What new(sql.NullX) holds: the zero value, not valid; nil for no kind. */
  function ZeroSlot(k: Option<Kind>): (v: Slot)
    ensures KindOf(v) == k && IsNull(v)
  {
    match k
    case None => Nil
    case Some(StringKind) => StringSlot(NullString("", false))
    case Some(TimeKind) => TimeSlot(Time(1, 1, 1, 0), false)
    case Some(FloatKind) => FloatSlot(0.0, false)
    case Some(BoolKind) => BoolSlot(false, false)
    case Some(Int32Kind) => Int32Slot(0, false)
    case Some(Int64Kind) => Int64Slot(0, false)
  }

  /** The buffer createBuffer returns for `typenames`. */
  function Allocated(typenames: seq<string>): (b: seq<Slot>)
    ensures |b| == |typenames|
    ensures forall i :: 0 <= i < |b| ==> KindOf(b[i]) == KindFor(typenames[i]) && IsNull(b[i])
    ensures forall i :: 0 <= i < |b| ==> (b[i].Nil? <==> KindFor(typenames[i]).None?)
  {
    seq(|typenames|, i requires 0 <= i < |typenames| => ZeroSlot(KindFor(typenames[i])))
  }

  /** createBuffer: one slot per type name, allocated by kind. */
  method CreateBuffer(typenames: seq<string>) returns (buffer: array<Slot>)
    ensures fresh(buffer) && buffer[..] == Allocated(typenames)
  {
    buffer := new Slot[|typenames|](_ => Nil);
    for i := 0 to |typenames|
      invariant forall j :: 0 <= j < i ==> buffer[j] == ZeroSlot(KindFor(typenames[j]))
    {
      buffer[i] := ZeroSlot(KindFor(typenames[i]));
    }
  }

  // ----- scanRow -----

  /** The kind scanRow's switch expects for a type name, as written: it tests
      "NVCHAR" where createBuffer allocates for "NVARCHAR", and it has a case
      for "INT4" but none for "INT". */
  function ScanKind(t: string): (k: Option<Kind>)
    ensures t == "NVARCHAR" || t == "INT" ==> k.None?
  {
    if t == "VARCHAR" || t == "TEXT" || t == "NVCHAR" || t == "MONEY" then Some(StringKind)
    else if t == "TIMESTAMP" || t == "DATE" then Some(TimeKind)
    else if t == "DECIMAL" then Some(FloatKind)
    else if t == "BOOL" then Some(BoolKind)
    else if t == "INT4" then Some(Int32Kind)
    else if t == "BIGINT" then Some(Int64Kind)
    else None
  }

  /** The renderers the model leaves abstract: fmt's %v of a time.Time and
      %f of a float64. */
  datatype Show = Show(timestamp: Time -> string, float: real -> string)

  /** Two decimal digits at least, as the "01" and "02" fields of a time layout. */
  function Pad(n: nat, width: nat): string
  {
    ZeroPad(NatText(n), width)
  }

  /** The "2006" field of a time layout: a sign for negative years, then at
      least four digits. */
  function YearText(y: int): string
  {
    if y < 0 then "-" + Pad(-y, 4) else Pad(y, 4)
  }

  /** time.Format with layout "01/02/2006". */
  function DateText(tm: Time): (r: string)
    ensures |r| >= 10 && r[2] == '/' && r[5] == '/'
  {
    NatTextWidth(tm.month, 2);
    NatTextWidth(tm.day, 2);
    Pad(tm.month, 2) + "/" + Pad(tm.day, 2) + "/" + YearText(tm.year)
  }

  /** The text scanRow appends for a slot of the kind its case expects. */
  function Render(show: Show, t: string, v: Slot): (r: string)
    ensures IsNull(v) ==> r == ""
    ensures v.BoolSlot? && v.valid ==> (r == "true" || r == "false") && (r == "true" <==> v.flag)
  {
    match v
    case Nil => ""
    case StringSlot(s) => if s.valid then s.str else ""
    case TimeSlot(tm, valid) =>
      if !valid then "" else if t == "TIMESTAMP" then show.timestamp(tm) else DateText(tm)
    case FloatSlot(f, valid) => if valid then show.float(f) else ""
    case BoolSlot(b, valid) => if valid then (if b then "true" else "false") else ""
    case Int32Slot(i, valid) => if valid then IntText(i) else ""
    case Int64Slot(i, valid) => if valid then IntText(i) else ""
  }

  /** A column yields a part when its name has a case in the switch `dispatch`
      and the slot holds the kind that case casts to. */
  predicate Renders(dispatch: string -> Option<Kind>, t: string, v: Slot)
  {
    dispatch(t).Some? && KindOf(v) == dispatch(t)
  }

  /** What one column of a row contributes: a part, or nothing when skipped. */
  type Column = (string, Slot) -> Option<string>

  /** One column under the type-name switch `dispatch`: a column that would
      not render is skipped, as by scanRow's `continue`. */
  function ColumnPart(show: Show, dispatch: string -> Option<Kind>): Column
  {
    (t: string, v: Slot) => if Renders(dispatch, t, v) then Some(Render(show, t, v)) else None
  }

  /** The part list of an optional part. */
  function Emit(p: Option<string>): seq<string>
  {
    if p.Some? then [p.value] else []
  }

  /** The parts columns lo to hi - 1 of a row render to, in column order. */
  function Parts(part: Column, slots: seq<Slot>, names: seq<string>, lo: nat, hi: nat): (r: seq<string>)
    requires lo <= hi <= |slots| <= |names|
    ensures |r| <= hi - lo
    decreases hi - lo
  {
    if lo == hi then [] else Parts(part, slots, names, lo, hi - 1) + Emit(part(names[hi - 1], slots[hi - 1]))
  }

  /** The parts a whole row renders to. */
  function Rendered(part: Column, slots: seq<Slot>, names: seq<string>): (r: seq<string>)
    requires |slots| <= |names|
    ensures |r| <= |slots|
  {
    Parts(part, slots, names, 0, |slots|)
  }

  /** scanRow on a buffer as Rows.Scan left it. */
  method ScanRow(buffer: array<Slot>, typenames: seq<string>, show: Show) returns (parts: seq<string>)
    requires buffer.Length <= |typenames|
    ensures parts == Rendered(ColumnPart(show, ScanKind), buffer[..], typenames)
  {
    parts := [];
    for idx := 0 to buffer.Length
      invariant parts == Parts(ColumnPart(show, ScanKind), buffer[..], typenames, 0, idx)
    {
      var t := typenames[idx];
      var v := buffer[idx];
      var expected := ScanKind(t);
      if expected.None? {
        continue;
      }
      if KindOf(v) != expected {
        // the cast helper fails: logged, and the column is skipped
        continue;
      }
      parts := parts + [Render(show, t, v)];
    }
  }

  // ----- What the rendering promises -----

  /** Columns lo to hi - 1 yield exactly one part each, in order, if and
      only if every one of them yields a part on its own. */
  lemma {:induction false} PartsComplete(part: Column, slots: seq<Slot>, names: seq<string>, lo: nat, hi: nat)
    requires lo <= hi <= |slots| <= |names|
    ensures |Parts(part, slots, names, lo, hi)| == hi - lo <==>
      forall i :: lo <= i < hi ==> part(names[i], slots[i]).Some?
    ensures |Parts(part, slots, names, lo, hi)| == hi - lo ==>
      forall i :: lo <= i < hi ==> Some(Parts(part, slots, names, lo, hi)[i - lo]) == part(names[i], slots[i])
    decreases hi - lo
  {
    if lo < hi {
      PartsComplete(part, slots, names, lo, hi - 1);
      var r, rf, p := Parts(part, slots, names, lo, hi), Parts(part, slots, names, lo, hi - 1), part(names[hi - 1], slots[hi - 1]);
      assert r == rf + Emit(p);
      if p.Some? {
        assert |r| == hi - lo ==> forall k :: 0 <= k < hi - 1 - lo ==> r[k] == rf[k] by {
          assert r == rf + [p.value];
        }
      } else {
        assert |r| <= hi - 1 - lo;
      }
    }
  }

  /** A whole row renders one part per column, in order, exactly when every
      column yields a part. */
  lemma RenderedComplete(part: Column, slots: seq<Slot>, names: seq<string>)
    requires |slots| <= |names|
    ensures |Rendered(part, slots, names)| == |slots| <==>
      forall i :: 0 <= i < |slots| ==> part(names[i], slots[i]).Some?
    ensures |Rendered(part, slots, names)| == |slots| ==>
      forall i :: 0 <= i < |slots| ==> Some(Rendered(part, slots, names)[i]) == part(names[i], slots[i])
  {
    PartsComplete(part, slots, names, 0, |slots|);
  }

  /** The parts of columns lo to hi - 1 are those of lo to m - 1 followed by
      those of m to hi - 1. */
  lemma {:induction false} PartsSplit(part: Column, slots: seq<Slot>, names: seq<string>, lo: nat, m: nat, hi: nat)
    requires lo <= m <= hi <= |slots| <= |names|
    ensures Parts(part, slots, names, lo, hi) == Parts(part, slots, names, lo, m) + Parts(part, slots, names, m, hi)
    decreases hi - m
  {
    if m < hi {
      PartsSplit(part, slots, names, lo, m, hi - 1);
      AppendAssoc(Parts(part, slots, names, lo, m), Parts(part, slots, names, m, hi - 1), Emit(part(names[hi - 1], slots[hi - 1])));
    }
  }

  /** A column that yields no part (no case for its name, or a failed cast)
      drops out, and the columns after it are still rendered, in order. */
  lemma SkippedColumn(part: Column, slots: seq<Slot>, names: seq<string>, j: nat)
    requires j < |slots| <= |names| && part(names[j], slots[j]).None?
    ensures Rendered(part, slots, names) == Parts(part, slots, names, 0, j) + Parts(part, slots, names, j + 1, |slots|)
  {
    var n := |slots|;
    assert Parts(part, slots, names, j, j + 1) == [];
    assert Parts(part, slots, names, j, n) == Parts(part, slots, names, j + 1, n) by {
      PartsSplit(part, slots, names, j, j + 1, n);
    }
    PartsSplit(part, slots, names, 0, j, n);
  }

  /** INT4 and BIGINT parts are signed decimal text: strconv.Atoi reads the
      value back. */
  lemma IntPartReadsBack(show: Show, t: string, v: Slot)
    requires (v.Int32Slot? || v.Int64Slot?) && v.valid
    ensures Atoi(Render(show, t, v)) == Some(if v.Int32Slot? then v.int32 else v.int64)
  {
    if v.Int32Slot? {
      AtoiIntText(v.int32);
    } else {
      AtoiIntText(v.int64);
    }
  }

  /** A padded field is all digits and reads back as its number. */
  lemma PadValue(n: nat, width: nat)
    ensures AllDigits(Pad(n, width)) && DigitsValue(Pad(n, width)) == n
  {
    NatTextValue(n);
    ZeroPadValue(NatText(n), width);
  }

  /** A DATE part is MM/DD/YYYY: two-digit month, '/', two-digit day, '/',
      then the year; ten characters for the years 0 to 9999. */
  lemma DateLayout(tm: Time)
    ensures var s := DateText(tm);
      |s| >= 10 && s[2] == '/' && s[5] == '/' &&
      AllDigits(s[..2]) && DigitsValue(s[..2]) == tm.month &&
      AllDigits(s[3..5]) && DigitsValue(s[3..5]) == tm.day
    ensures 0 <= tm.year ==>
      var s := DateText(tm);
      AllDigits(s[6..]) && DigitsValue(s[6..]) == tm.year && (tm.year <= 9999 ==> |s| == 10)
  {
    var m, d, y := Pad(tm.month, 2), Pad(tm.day, 2), YearText(tm.year);
    NatTextWidth(tm.month, 2);
    NatTextWidth(tm.day, 2);
    PadValue(tm.month, 2);
    PadValue(tm.day, 2);
    var s := DateText(tm);
    assert s == m + "/" + d + "/" + y;
    assert |m| == 2 && |d| == 2 && |y| >= 4;
    assert s[..2] == m && s[3..5] == d && s[6..] == y;
    if 0 <= tm.year {
      PadValue(tm.year, 4);
      if tm.year <= 9999 {
        NatTextWidth(tm.year, 4);
      }
    }
  }

  // ----- The dispatch mismatch between createBuffer and scanRow -----

  /** As written, an NVARCHAR column gets a string slot but renders no part. */
  lemma NvarcharDropped(show: Show)
    ensures KindFor("NVARCHAR") == Some(StringKind)
    ensures Rendered(ColumnPart(show, ScanKind), [StringSlot(NullString("x", true))], ["NVARCHAR"]) == []
  {
    assert ScanKind("NVARCHAR") == None;
    assert [StringSlot(NullString("x", true))][..0] == [];
  }

  /** As written, an INT column gets an int32 slot but renders no part. */
  lemma IntDropped(show: Show)
    ensures KindFor("INT") == Some(Int32Kind)
    ensures Rendered(ColumnPart(show, ScanKind), [Int32Slot(7, true)], ["INT"]) == []
  {
    assert ScanKind("INT") == None;
    assert [Int32Slot(7, true)][..0] == [];
  }

  /** The two switches agree on every name but NVARCHAR, INT and the
      misspelt NVCHAR. */
  lemma DispatchDifference(t: string)
    ensures ScanKind(t) != KindFor(t) <==> t == "NVARCHAR" || t == "INT" || t == "NVCHAR"
  {
  }

  /** With scanRow dispatching on createBuffer's own table, a buffer whose
      slots keep the kinds createBuffer gave them renders one part per
      column, in column order, exactly when every type name is known. */
  lemma {:induction false} AllocatedColumnsRender(show: Show, slots: seq<Slot>, names: seq<string>)
    requires |slots| == |names|
    requires forall i :: 0 <= i < |slots| ==> KindOf(slots[i]) == KindFor(names[i])
    ensures var parts := Rendered(ColumnPart(show, KindFor), slots, names);
      (|parts| == |names| <==> forall i :: 0 <= i < |names| ==> KindFor(names[i]).Some?) &&
      (|parts| == |names| ==> forall i :: 0 <= i < |names| ==> parts[i] == Render(show, names[i], slots[i]))
  {
    var part := ColumnPart(show, KindFor);
    RenderedComplete(part, slots, names);
    assert forall i :: 0 <= i < |names| ==> (part(names[i], slots[i]).Some? <==> KindFor(names[i]).Some?);
  }

  // ----- appendCSVLine -----

  /** strings.Join(row, ","). */
  function CommaJoin(row: seq<string>): (r: string)
    ensures |row| >= 1 ==> row[0] <= r
    ensures |r| + 1 >= |row|
  {
    if row == [] then []
    else if |row| == 1 then row[0]
    else row[0] + [','] + CommaJoin(row[1..])
  }

  /** The bytes appendCSVLine means to write: the joined row and "\r\n". */
  function PlainLine(row: seq<string>): (r: string)
    ensures |r| >= 2 && r[|r| - 2] == '\r' && r[|r| - 1] == '\n'
  {
    CommaJoin(row) + Processor.SafeEOL
  }

  /** appendCSVLine: two writes, their counts and errors ignored. */
  method AppendCSVLine(w: Sink, row: seq<string>)
    modifies w
    ensures w.data == old(w.data) + Take(PlainLine(row), old(w.room))
    ensures w.room == old(w.room) - Min(|PlainLine(row)|, old(w.room))
  {
    var joined := CommaJoin(row);
    TakeConcat(joined, Processor.SafeEOL, w.room);
    var _, _ := w.Write(joined);
    var _, _ := w.Write(Processor.SafeEOL);
  }

  /** A field the CSV writer would leave as it is. */
  predicate Plain(f: string)
  {
    Processor.Quote !in f && ',' !in f
  }

  /** The unescaped line is the escaped CSV line if and only if no field holds
      a comma or a double quote; otherwise the escaped line is longer. */
  lemma {:induction false} PlainLineVersusLine(row: seq<string>)
    ensures |Processor.Line(row, ',')| >= |PlainLine(row)|
    ensures Processor.Line(row, ',') == PlainLine(row) <==> forall i :: 0 <= i < |row| ==> Plain(row[i])
    ensures !(forall i :: 0 <= i < |row| ==> Plain(row[i])) ==> |Processor.Line(row, ',')| > |PlainLine(row)|
  {
    JoinedVersusCommaJoin(row);
    var line, plain := Processor.Line(row, ','), PlainLine(row);
    assert line[..|line| - 2] == Processor.Joined(row, ',');
    assert plain[..|plain| - 2] == CommaJoin(row);
  }

  lemma {:induction false} JoinedVersusCommaJoin(row: seq<string>)
    ensures |Processor.Joined(row, ',')| >= |CommaJoin(row)|
    ensures Processor.Joined(row, ',') == CommaJoin(row) <==> forall i :: 0 <= i < |row| ==> Plain(row[i])
    ensures !(forall i :: 0 <= i < |row| ==> Plain(row[i])) ==> |Processor.Joined(row, ',')| > |CommaJoin(row)|
  {
    if row != [] {
      var f := row[0];
      EscapeLength(f);
      Processor.EscapeFieldUnchanged(f, ',');
      if |row| > 1 {
        var rest := row[1..];
        JoinedVersusCommaJoin(rest);
        assert forall i :: 1 <= i < |row| ==> row[i] == rest[i - 1];
        var e := Processor.EscapeField(f, ',');
        assert Processor.Joined(row, ',') == e + [','] + Processor.Joined(rest, ',');
        assert CommaJoin(row) == f + [','] + CommaJoin(rest);
        if Plain(f) {
          var p := f + [','];
          assert Processor.Joined(row, ',') == p + Processor.Joined(rest, ',');
          assert CommaJoin(row) == p + CommaJoin(rest);
          assert (p + Processor.Joined(rest, ','))[|p|..] == Processor.Joined(rest, ',');
          assert (p + CommaJoin(rest))[|p|..] == CommaJoin(rest);
        } else {
          assert |e| > |f|;
        }
      }
    }
  }

  /** Escaping never shortens a field, and lengthens every field it changes. */
  lemma EscapeLength(f: string)
    ensures |Processor.EscapeField(f, ',')| >= |f|
    ensures Processor.EscapeField(f, ',') != f ==> |Processor.EscapeField(f, ',')| > |f|
  {
  }

  /** For such rows the reader recovers the fields from the unescaped line. */
  lemma PlainLineReadsBack(row: seq<string>)
    requires |row| >= 1 && forall i :: 0 <= i < |row| ==> Plain(row[i])
    ensures Processor.ReadRecord(PlainLine(row), ',') == Some(row)
  {
    PlainLineVersusLine(row);
    Processor.ReadLine(row, ',');
  }

  /** As written, a field holding a comma makes two different rows write the
      same bytes. */
  lemma PlainLineAmbiguous()
    ensures ["a,b"] != ["a", "b"]
    ensures PlainLine(["a,b"]) == PlainLine(["a", "b"])
  {
    assert ["a,b"][0] != ["a", "b"][0];
    assert ["a", "b"][1..] == ["b"];
  }

  /** The escaped CSV line the formatter writes keeps distinct rows distinct. */
  lemma EscapedLineInjective(a: seq<string>, b: seq<string>)
    requires |a| >= 1 && |b| >= 1
    ensures Processor.Line(a, ',') == Processor.Line(b, ',') ==> a == b
  {
    Processor.ReadLine(a, ',');
    Processor.ReadLine(b, ',');
  }
}
