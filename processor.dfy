/** processor.go: the delimited-row formatter (CSVFormatter) and the
    streaming driver (QueryProcessor.Process). */
module Processor {
  import opened Base
  import opened Io
  import opened Sql
  import opened QueryWrapper

  /** safeEOL: every line ends in CR LF. */
  const SafeEOL: string := "\r\n"
  const Quote: char := '"'

  // ----- Escaping and joining one row -----

  /** regexp.Compile accepts the pattern `["d]` built from a one-character
      delimiter d, except for a backslash, which escapes the closing bracket
      and leaves the class unterminated. */
  predicate PatternCompiles(d: char): (ok: bool)
    ensures d == ',' || d == '\t' ==> ok
    ensures d == '\\' ==> !ok
  {
    d != '\\'
  }

  /** The pattern `["d]` matches `f`. For every delimiter but `]` this is
      "f contains a double quote or d". For `]` the class closes after the quote
      and the pattern is the two characters `"]`. */
  predicate NeedsQuoting(f: string, d: char): (m: bool)
    ensures d != ']' ==> (m <==> Quote in f || d in f)
    ensures d == ']' && m ==> Quote in f && ']' in f
  {
    if d == ']' then exists i :: 0 <= i && i + 1 < |f| && f[i] == Quote && f[i + 1] == ']'
    else Quote in f || d in f
  }

  /** ReplaceAll of `"` by `""`. */
  function DoubleQuotes(s: string): (r: string)
    ensures Quote !in s ==> r == s
    ensures |r| >= |s|
  {
    if Quote !in s then s else (if s[0] == Quote then [Quote, Quote] else [s[0]]) + DoubleQuotes(s[1..])
  }

  /** Quote doubling, one character at a time. */
  lemma DoubleQuotesCons(s: string)
    requires s != []
    ensures DoubleQuotes(s) == (if s[0] == Quote then [Quote, Quote] else [s[0]]) + DoubleQuotes(s[1..])
  {
    if Quote !in s {
      assert Quote !in s[1..] by {
        forall k | 0 <= k < |s| - 1 ensures s[1..][k] != Quote {
          assert s[1..][k] == s[k + 1];
        }
      }
      assert [s[0]] + s[1..] == s;
    }
  }

  /** Quote doubling distributes over concatenation. */
  lemma {:induction false} DoubleQuotesAppend(a: string, b: string)
    ensures DoubleQuotes(a + b) == DoubleQuotes(a) + DoubleQuotes(b)
  {
    if a != [] {
      DoubleQuotesCons(a);
      DoubleQuotesCons(a + b);
      assert (a + b)[1..] == a[1..] + b;
      DoubleQuotesAppend(a[1..], b);
    } else {
      assert a + b == b;
    }
  }

  /** One field as writeRow emits it. */
  function EscapeField(f: string, d: char): (r: string)
    ensures |r| >= |f|
    ensures r != f ==> |r| >= |f| + 2
  {
    if NeedsQuoting(f, d) then [Quote] + DoubleQuotes(f) + [Quote] else f
  }

  /** The escaped fields separated by the delimiter, with none after the last. */
  function Joined(fields: seq<string>, d: char): (r: string)
    ensures |r| + 1 >= |fields|
  {
    if fields == [] then []
    else if |fields| == 1 then EscapeField(fields[0], d)
    else EscapeField(fields[0], d) + [d] + Joined(fields[1..], d)
  }

  /** The line writeRow hands to the sink. */
  function Line(fields: seq<string>, d: char): (r: string)
    ensures |r| >= 2 && r[|r| - 2] == '\r' && r[|r| - 1] == '\n'
  {
    Joined(fields, d) + SafeEOL
  }

  /** Joined from field i on: that field escaped, a delimiter unless it is
      the last, then the fields after it. */
  lemma JoinedStep(fields: seq<string>, i: nat, d: char)
    requires i < |fields|
    ensures Joined(fields[i..], d) ==
      EscapeField(fields[i], d) + (if i < |fields| - 1 then [d] else []) + Joined(fields[i + 1..], d)
  {
    assert fields[i..][1..] == fields[i + 1..];
    if i == |fields| - 1 {
      assert fields[i..] == [fields[i]] && fields[i + 1..] == [];
    }
  }

  /** What writeRow does to a sink with `room` bytes of room: a delimiter
      that does not compile writes nothing and fails; otherwise the whole
      line goes to the sink in one write. */
  function RowWrite(fields: seq<string>, d: char, room: nat): (w: Written)
    ensures |w.bytes| <= room
    ensures !PatternCompiles(d) ==> w == Written([], Some(PatternFailed))
    ensures PatternCompiles(d) ==> w.bytes == Take(Line(fields, d), room) && (w.err.None? <==> |Line(fields, d)| <= room)
  {
    if !PatternCompiles(d) then Written([], Some(PatternFailed)) else WriteResult(Line(fields, d), room)
  }

  // ----- A reader for the lines, to state what the escaping preserves -----

  /** Reads the inside of a quoted field: `""` stands for `"`, and a lone `"`
      ends the field. Returns the field and what follows the closing quote. */
  function ReadQuoted(s: string): (r: (string, string))
    ensures |r.1| <= |s|
  {
    if s == [] then ([], [])
    else if s[0] == Quote then
      if |s| > 1 && s[1] == Quote then var t := ReadQuoted(s[2..]); ([Quote] + t.0, t.1)
      else ([], s[1..])
    else var t := ReadQuoted(s[1..]); ([s[0]] + t.0, t.1)
  }

  /** The position of the first `d` in `s`, or |s|. */
  function FirstIndex(s: string, d: char): (k: nat)
    ensures k <= |s| && d !in s[..k] && (k < |s| ==> s[k] == d)
  {
    if s == [] then 0
    else if s[0] == d then 0
    else
      var k := FirstIndex(s[1..], d);
      assert s[..k + 1] == [s[0]] + s[1..][..k];
      k + 1
  }

  /** Splits a joined row back into its fields. */
  function ReadFields(s: string, d: char): (fields: seq<string>)
    ensures |fields| >= 1
    decreases |s|
  {
    if |s| > 0 && s[0] == Quote then
      var t := ReadQuoted(s[1..]);
      if |t.1| > 0 && t.1[0] == d then [t.0] + ReadFields(t.1[1..], d) else [t.0]
    else
      var k := FirstIndex(s, d);
      if k < |s| then [s[..k]] + ReadFields(s[k + 1..], d) else [s]
  }

  /** Reads one line: the fields before the final CR LF. */
  function ReadRecord(line: string, d: char): Option<seq<string>>
  {
    if |line| >= 2 && line[|line| - 2..] == SafeEOL then Some(ReadFields(line[..|line| - 2], d)) else None
  }

  lemma {:induction false} ReadQuotedDoubled(f: string, rest: string)
    requires rest == [] || rest[0] != Quote
    ensures ReadQuoted(DoubleQuotes(f) + [Quote] + rest) == (f, rest)
  {
    var s := DoubleQuotes(f) + [Quote] + rest;
    if f == [] {
      assert s == [Quote] + rest;
      assert s[1..] == rest;
    } else if f[0] == Quote {
      DoubleQuotesCons(f);
      assert s == [Quote, Quote] + (DoubleQuotes(f[1..]) + [Quote] + rest);
      assert s[2..] == DoubleQuotes(f[1..]) + [Quote] + rest;
      ReadQuotedDoubled(f[1..], rest);
      assert [Quote] + f[1..] == f;
    } else {
      DoubleQuotesCons(f);
      assert s == [f[0]] + (DoubleQuotes(f[1..]) + [Quote] + rest);
      assert s[1..] == DoubleQuotes(f[1..]) + [Quote] + rest;
      ReadQuotedDoubled(f[1..], rest);
      assert [f[0]] + f[1..] == f;
    }
  }

  /** Reading one escaped field followed by `tail` (empty, or the delimiter
      and more) gives the field back and resumes at `tail`. */
  lemma ReadEscapedField(f: string, d: char, tail: string)
    requires d != Quote && d != ']' && PatternCompiles(d)
    requires tail == [] || tail[0] == d
    ensures var s := EscapeField(f, d) + tail;
      ReadFields(s, d) == [f] + (if tail == [] then [] else ReadFields(tail[1..], d))
  {
    if NeedsQuoting(f, d) {
      ReadQuotedField(f, d, tail);
    } else {
      ReadPlainField(f, d, tail);
    }
  }

  lemma ReadQuotedField(f: string, d: char, tail: string)
    requires d != Quote
    requires tail == [] || tail[0] == d
    ensures var s := [Quote] + DoubleQuotes(f) + [Quote] + tail;
      ReadFields(s, d) == [f] + (if tail == [] then [] else ReadFields(tail[1..], d))
  {
    var s := [Quote] + DoubleQuotes(f) + [Quote] + tail;
    assert s[0] == Quote;
    assert ReadQuoted(s[1..]) == (f, tail) by {
      assert s[1..] == DoubleQuotes(f) + [Quote] + tail;
      ReadQuotedDoubled(f, tail);
    }
  }

  lemma ReadPlainField(f: string, d: char, tail: string)
    requires d != Quote && Quote !in f && d !in f
    requires tail == [] || tail[0] == d
    ensures ReadFields(f + tail, d) == [f] + (if tail == [] then [] else ReadFields(tail[1..], d))
  {
    var s := f + tail;
    assert s[..|f|] == f && s[|f|..] == tail;
    var k := FirstIndex(s, d);
    assert k == |f|;
    assert s[..k] == f;
    if |s| > 0 {
      assert s[0] != Quote by {
        if |f| > 0 { assert s[0] == f[0]; } else { assert s[0] == tail[0]; }
      }
    }
    if tail != [] {
      assert s[k + 1..] == tail[1..];
    } else {
      assert s == f;
    }
  }

  /** Delimiter safety: for a delimiter other than `"`, `\` and `]`, the
      fields of any non-empty row can be read back from its line exactly. */
  lemma {:induction false} ReadJoined(fields: seq<string>, d: char)
    requires |fields| >= 1
    requires d != Quote && d != ']' && PatternCompiles(d)
    ensures ReadFields(Joined(fields, d), d) == fields
  {
    if |fields| == 1 {
      ReadEscapedField(fields[0], d, []);
      assert EscapeField(fields[0], d) + [] == Joined(fields, d);
    } else {
      var tail := [d] + Joined(fields[1..], d);
      assert Joined(fields, d) == EscapeField(fields[0], d) + tail;
      ReadEscapedField(fields[0], d, tail);
      assert tail[1..] == Joined(fields[1..], d);
      ReadJoined(fields[1..], d);
      assert [fields[0]] + fields[1..] == fields;
    }
  }

  /** The line of a non-empty row reads back as that row. */
  lemma ReadLine(fields: seq<string>, d: char)
    requires |fields| >= 1
    requires d != Quote && d != ']' && PatternCompiles(d)
    ensures ReadRecord(Line(fields, d), d) == Some(fields)
  {
    var line := Line(fields, d);
    assert line[|line| - 2..] == SafeEOL;
    assert line[..|line| - 2] == Joined(fields, d);
    ReadJoined(fields, d);
  }

  /** writeRow leaves a field unchanged exactly when the pattern does not
      match it; for an ordinary delimiter, when it contains neither `"` nor d. */
  lemma EscapeFieldUnchanged(f: string, d: char)
    ensures EscapeField(f, d) == f <==> !NeedsQuoting(f, d)
    ensures d != ']' ==> (EscapeField(f, d) == f <==> Quote !in f && d !in f)
  {
  }

  /** With `]` as delimiter the pattern only matches `"]`, so a field holding a
      lone `]` is not quoted and its line cannot be told from that of two fields. */
  lemma BracketDelimiterAmbiguous()
    ensures Line(["a]b"], ']') == Line(["a", "b"], ']')
  {
    assert !NeedsQuoting("a]b", ']');
    assert !NeedsQuoting("a", ']') && !NeedsQuoting("b", ']');
  }

  /** The header of processor_test.go: columns foo and bar give `foo,bar` CR LF. */
  lemma HeaderExample()
    ensures Line(["foo", "bar"], ',') == "foo,bar\r\n"
  {
  }

  /** A field holding the delimiter is quoted: `embedded,comma` under a comma,
      and `embedded<TAB>tab` under a tab. */
  lemma EmbeddedDelimiterExamples()
    ensures var f := "embedded" + [','] + "comma";
      Line(["foo", f], ',') == "foo," + [Quote] + f + [Quote] + SafeEOL
    ensures var f := "embedded" + ['\t'] + "tab";
      Line(["foo", f], '\t') == "foo\t" + [Quote] + f + [Quote] + SafeEOL
  {
    var comma := "embedded" + [','] + "comma";
    assert comma[8] == ',';
    EscapeWithDelimiter(comma, ',');
    assert EscapeField("foo", ',') == "foo";
    LineOfTwo("foo", comma, ',');
    var tab := "embedded" + ['\t'] + "tab";
    assert tab[8] == '\t';
    EscapeWithDelimiter(tab, '\t');
    assert EscapeField("foo", '\t') == "foo";
    LineOfTwo("foo", tab, '\t');
  }

  /** Embedded quotes are doubled inside the quoted field: the sample values
      `"Hello World"` and `"Hello, World"` are written as `"""Hello World"""`
      and `"""Hello, World"""`. */
  lemma QuoteExample()
    ensures var f := [Quote] + "Hello World" + [Quote];
      Line(["foo", f], ',') == "foo," + [Quote, Quote, Quote] + "Hello World" + [Quote, Quote, Quote] + SafeEOL
    ensures var f := [Quote] + "Hello, World" + [Quote];
      Line(["foo", f], ',') == "foo," + [Quote, Quote, Quote] + "Hello, World" + [Quote, Quote, Quote] + SafeEOL
  {
    assert EscapeField("foo", ',') == "foo";
    EscapeQuotedWord("Hello World", ',');
    LineOfTwo("foo", [Quote] + "Hello World" + [Quote], ',');
    EscapeQuotedWord("Hello, World", ',');
    LineOfTwo("foo", [Quote] + "Hello, World" + [Quote], ',');
  }

  /** A field holding the delimiter but no quote is only surrounded by quotes. */
  lemma EscapeWithDelimiter(w: string, d: char)
    requires Quote !in w && d in w && d != ']'
    ensures EscapeField(w, d) == [Quote] + w + [Quote]
  {
  }

  /** A quoted word is escaped by doubling both of its quotes and quoting the result. */
  lemma EscapeQuotedWord(w: string, d: char)
    requires Quote !in w && d != ']'
    ensures EscapeField([Quote] + w + [Quote], d) == [Quote, Quote, Quote] + w + [Quote, Quote, Quote]
  {
    var q := [Quote];
    var f := q + w + q;
    assert NeedsQuoting(f, d) by {
      assert f[0] == Quote;
    }
    assert DoubleQuotes(f) == [Quote, Quote] + w + [Quote, Quote] by {
      DoubleQuotesCons(q);
      DoubleQuotesAppend(q, w);
      DoubleQuotesAppend(q + w, q);
    }
  }

  /** A two-field line, spelled out. */
  lemma LineOfTwo(a: string, b: string, d: char)
    ensures Line([a, b], d) == EscapeField(a, d) + [d] + EscapeField(b, d) + SafeEOL
  {
    assert [a, b][1..] == [b];
    assert Joined([b], d) == EscapeField(b, d);
    assert Joined([a, b], d) == EscapeField(a, d) + [d] + Joined([b], d);
  }

  // ----- Format: one row of nullable values -----

  /** Format's row: one field per column; a NULL value becomes the NULL
      placeholder, a valid one its string, and columns beyond the values "". */
  function FieldsOf(values: seq<NullString>, n: nat, nullString: string): (fields: seq<string>)
    ensures |fields| == n
    ensures forall i :: |values| <= i < n ==> fields[i] == []
  {
    seq(n, i requires 0 <= i < n => if i < |values| then (if values[i].valid then values[i].str else nullString) else [])
  }

  /** The formatter's settings, as Format reads them. */
  datatype Settings = Settings(columns: seq<string>, delimiter: char, nullString: string)

  /** What one Format call leaves: the bytes written, the error, the latch. */
  datatype Formatted = Formatted(bytes: string, err: Option<Error>, latch: bool)

  /** The effect of Format on a sink with `room` bytes of room. */
  function FormatResult(s: Settings, latch: bool, values: seq<NullString>, room: nat): (f: Formatted)
    ensures |f.bytes| <= room
    ensures latch ==> f.latch
  {
    var row := FieldsOf(values, |s.columns|, s.nullString);
    if !latch then
      var header := RowWrite(s.columns, s.delimiter, room);
      if header.err.Some? then Formatted(header.bytes, header.err, false)
      else
        var line := RowWrite(row, s.delimiter, room - |header.bytes|);
        Formatted(header.bytes + line.bytes, line.err, true)
    else
      var line := RowWrite(row, s.delimiter, room);
      Formatted(line.bytes, line.err, true)
  }

  /** The bytes one Format call means to write: the header line on the first
      call, then the row line. */
  function Chunk(s: Settings, latch: bool, values: seq<NullString>): string
  {
    (if latch then [] else Line(s.columns, s.delimiter)) + Line(FieldsOf(values, |s.columns|, s.nullString), s.delimiter)
  }

  /** Format writes a prefix of its chunk and fails exactly when the chunk does
      not fit; a delimiter that does not compile writes nothing and fails. The
      latch is set once the header is written and is never reset. */
  lemma FormatWritesChunk(s: Settings, latch: bool, values: seq<NullString>, room: nat)
    ensures var f := FormatResult(s, latch, values, room);
      (PatternCompiles(s.delimiter) ==>
        f.bytes == Take(Chunk(s, latch, values), room) &&
        (f.err.None? <==> |Chunk(s, latch, values)| <= room) &&
        (f.err.Some? ==> f.err == Some(ShortWrite))) &&
      (!PatternCompiles(s.delimiter) ==> f.bytes == [] && f.err == Some(PatternFailed)) &&
      (f.latch <==> latch || (PatternCompiles(s.delimiter) && |Line(s.columns, s.delimiter)| <= room))
  {
    if PatternCompiles(s.delimiter) && !latch {
      TakeConcat(Line(s.columns, s.delimiter), Line(FieldsOf(values, |s.columns|, s.nullString), s.delimiter), room);
    }
  }

  /** A row whose values are all NULL has one field per column, each the NULL
      placeholder; with the default placeholder its line is n - 1 delimiters. */
  lemma {:induction false} AllNullRow(values: seq<NullString>, nullString: string, d: char)
    requires forall k :: 0 <= k < |values| ==> !values[k].valid
    ensures FieldsOf(values, |values|, nullString) == seq(|values|, _ => nullString)
    ensures |values| >= 1 ==> Line(FieldsOf(values, |values|, ""), d) == seq(|values| - 1, _ => d) + SafeEOL
  {
    if |values| >= 1 {
      EmptyFieldsJoin(|values|, d);
      assert FieldsOf(values, |values|, "") == seq(|values|, _ => "");
    }
  }

  lemma {:induction false} EmptyFieldsJoin(n: nat, d: char)
    requires n >= 1
    ensures Joined(seq(n, _ => ""), d) == seq(n - 1, _ => d)
  {
    var fields: seq<string> := seq(n, _ => "");
    assert !NeedsQuoting("", d);
    if n > 1 {
      assert fields[1..] == seq(n - 1, _ => "");
      EmptyFieldsJoin(n - 1, d);
      assert [d] + seq(n - 2, _ => d) == seq(n - 1, _ => d);
    }
  }

  // ----- Process: the whole cursor -----

  /** What one Format call does, as a function of the header latch, the values
      and the sink's room: the Go Formatter interface, seen from Process. */
  type Formatting = (bool, seq<NullString>, nat) -> Formatted

  /** The CSVFormatter's Format under the given settings. */
  function CSV(s: Settings): Formatting
  {
    (latch: bool, values: seq<NullString>, room: nat) => FormatResult(s, latch, values, room)
  }

  /** `fmt` is the CSVFormatter's Format for the settings `s`. */
  ghost predicate Implements(fmt: Formatting, s: Settings)
  {
    forall latch, values, room {:trigger FormatResult(s, latch, values, room)} ::
      fmt(latch, values, room) == FormatResult(s, latch, values, room)
  }

  /** The room a sink has left after taking `n` bytes. */
  function Left(room: nat, n: nat): nat
  {
    if n <= room then room - n else 0
  }

  /** What Process leaves: the bytes written, the error, how far the cursor
      advanced, and the formatter's latch. */
  datatype Driven = Driven(output: string, err: Option<Error>, consumed: nat, latch: bool)

  /** Process over the cursor positions `steps`: scan each row into `width`
      destinations and format it, stopping at the first error and counting the
      failing call's bytes. */
  function Drive(steps: seq<Step>, width: nat, fmt: Formatting, latch: bool, room: nat): (r: Driven)
    ensures r.consumed <= |steps|
  {
    if steps == [] || steps[0].Interrupted? then Driven([], None, 0, latch)
    else match ScanStep(steps[0], width)
      case ScanError(e) => Driven([], Some(e), 1, latch)
      case Scanned(values) =>
        var f := fmt(latch, values, room);
        if f.err.Some? then Driven(f.bytes, f.err, 1, f.latch)
        else
          var rest := Drive(steps[1..], width, fmt, f.latch, Left(room, |f.bytes|));
          Driven(f.bytes + rest.output, rest.err, rest.consumed + 1, rest.latch)
  }

  /** Process never checks rows.Err(): a driver interruption after the
      positions `pre` ends Process exactly as the end of the result set does. */
  lemma {:induction false} DriveInterrupted(pre: seq<Step>, reason: string, post: seq<Step>, width: nat, fmt: Formatting, latch: bool, room: nat)
    ensures Drive(pre + [Interrupted(reason)] + post, width, fmt, latch, room) == Drive(pre, width, fmt, latch, room)
  {
    var steps := pre + [Interrupted(reason)] + post;
    if pre != [] {
      assert steps[0] == pre[0];
      assert steps[1..] == pre[1..] + [Interrupted(reason)] + post;
      if ScanStep(pre[0], width).Scanned? {
        var f := fmt(latch, ScanStep(pre[0], width).values, room);
        if f.err.None? {
          DriveInterrupted(pre[1..], reason, post, width, fmt, f.latch, Left(room, |f.bytes|));
        }
      }
    }
  }

  /** The output Process means to produce when the sink never refuses a byte,
      and whether it gets through the cursor without a scan or pattern error. */
  datatype Ideal = Ideal(output: string, complete: bool)

  function Stream(steps: seq<Step>, width: nat, s: Settings, latch: bool): Ideal
  {
    if steps == [] || steps[0].Interrupted? then Ideal([], true)
    else match ScanStep(steps[0], width)
      case ScanError(_) => Ideal([], false)
      case Scanned(values) =>
        if !PatternCompiles(s.delimiter) then Ideal([], false)
        else
          var rest := Stream(steps[1..], width, s, true);
          Ideal(Chunk(s, latch, values) + rest.output, rest.complete)
  }

  /** Everything Process writes is a prefix of its intended output, cut where
      the sink ran out of room, and it reports no error exactly when the whole
      intended output was written without a scan or pattern error. */
  lemma {:induction false} DriveWritesPrefix(steps: seq<Step>, width: nat, s: Settings, latch: bool, room: nat)
    ensures var r := Drive(steps, width, CSV(s), latch, room);
      var i := Stream(steps, width, s, latch);
      r.output == Take(i.output, room) && (r.err.None? <==> i.complete && |i.output| <= room)
    decreases |steps|, 1
  {
    if steps == [] || steps[0].Interrupted? || ScanStep(steps[0], width).ScanError? {
    } else if !PatternCompiles(s.delimiter) {
      FormatWritesChunk(s, latch, ScanStep(steps[0], width).values, room);
    } else {
      DriveStepWritesPrefix(steps, width, s, latch, room);
    }
  }

  /** The step of DriveWritesPrefix for a row that scans under a delimiter that compiles. */
  lemma {:induction false} DriveStepWritesPrefix(steps: seq<Step>, width: nat, s: Settings, latch: bool, room: nat)
    requires steps != [] && !steps[0].Interrupted? && ScanStep(steps[0], width).Scanned? && PatternCompiles(s.delimiter)
    ensures var r := Drive(steps, width, CSV(s), latch, room);
      var i := Stream(steps, width, s, latch);
      r.output == Take(i.output, room) && (r.err.None? <==> i.complete && |i.output| <= room)
    decreases |steps|, 0
  {
    var chunk := Chunk(s, latch, ScanStep(steps[0], width).values);
    var rest := Stream(steps[1..], width, s, true);
    var r := Drive(steps, width, CSV(s), latch, room);
    var i := Stream(steps, width, s, latch);
    assert i == Ideal(chunk + rest.output, rest.complete) by {
      StreamStep(steps, width, s, latch);
    }
    if |chunk| <= room {
      var more := Drive(steps[1..], width, CSV(s), true, room - |chunk|);
      assert r.output == chunk + more.output && r.err == more.err by {
        DriveAccepted(steps, width, s, latch, room);
      }
      DriveWritesPrefix(steps[1..], width, s, true, room - |chunk|);
      assert Take(i.output, room) == chunk + Take(rest.output, room - |chunk|) by {
        TakeConcat(chunk, rest.output, room);
      }
    } else {
      assert r.output == Take(chunk, room) && r.err.Some? by {
        DriveRefused(steps, width, s, latch, room);
      }
      assert Take(i.output, room) == Take(chunk, room) by {
        TakeConcat(chunk, rest.output, room);
      }
    }
  }

  /** The intended output over a row that scans under a delimiter that
      compiles: its chunk, then the rest of the cursor with the header latched. */
  lemma StreamStep(steps: seq<Step>, width: nat, s: Settings, latch: bool)
    requires steps != [] && !steps[0].Interrupted? && ScanStep(steps[0], width).Scanned? && PatternCompiles(s.delimiter)
    ensures var rest := Stream(steps[1..], width, s, true);
      Stream(steps, width, s, latch) == Ideal(Chunk(s, latch, ScanStep(steps[0], width).values) + rest.output, rest.complete)
  {
  }

  /** Drive over a row whose chunk fits: the chunk, then the rest of the
      cursor with the header latched. */
  lemma DriveAccepted(steps: seq<Step>, width: nat, s: Settings, latch: bool, room: nat)
    requires steps != [] && !steps[0].Interrupted? && ScanStep(steps[0], width).Scanned? && PatternCompiles(s.delimiter)
    requires |Chunk(s, latch, ScanStep(steps[0], width).values)| <= room
    ensures var chunk := Chunk(s, latch, ScanStep(steps[0], width).values);
      var more := Drive(steps[1..], width, CSV(s), true, room - |chunk|);
      Drive(steps, width, CSV(s), latch, room) == Driven(chunk + more.output, more.err, more.consumed + 1, more.latch)
  {
    var values := ScanStep(steps[0], width).values;
    FormatAccepted(s, latch, values, room);
  }

  /** A chunk that fits is written whole, without error, and sets the latch. */
  lemma FormatAccepted(s: Settings, latch: bool, values: seq<NullString>, room: nat)
    requires PatternCompiles(s.delimiter) && |Chunk(s, latch, values)| <= room
    ensures FormatResult(s, latch, values, room) == Formatted(Chunk(s, latch, values), None, true)
  {
    FormatWritesChunk(s, latch, values, room);
    if !latch {
      assert |Line(s.columns, s.delimiter)| <= |Chunk(s, latch, values)|;
    }
  }

  /** Drive over a row whose chunk does not fit: what the sink took of the
      chunk, and a short write. */
  lemma DriveRefused(steps: seq<Step>, width: nat, s: Settings, latch: bool, room: nat)
    requires steps != [] && !steps[0].Interrupted? && ScanStep(steps[0], width).Scanned? && PatternCompiles(s.delimiter)
    requires |Chunk(s, latch, ScanStep(steps[0], width).values)| > room
    ensures var r := Drive(steps, width, CSV(s), latch, room);
      r.output == Take(Chunk(s, latch, ScanStep(steps[0], width).values), room) && r.err.Some?
  {
    var values := ScanStep(steps[0], width).values;
    var f := FormatResult(s, latch, values, room);
    assert CSV(s)(latch, values, room) == f;
    FormatWritesChunk(s, latch, values, room);
    assert Drive(steps, width, CSV(s), latch, room) == Driven(f.bytes, f.err, 1, f.latch);
  }

  /** One line per row, in cursor order. */
  function RowLines(rows: seq<seq<NullString>>, s: Settings): string
  {
    if rows == [] then [] else Line(FieldsOf(rows[0], |s.columns|, s.nullString), s.delimiter) + RowLines(rows[1..], s)
  }

  /** Over a cursor whose rows all scan, the intended output is the header
      line, written once and only if there is a row, then one line per row. An
      empty result writes nothing, not even the header. */
  lemma {:induction false} StreamLayout(steps: seq<Step>, width: nat, s: Settings)
    requires AllScan(steps, width) && PatternCompiles(s.delimiter)
    ensures Stream(steps, width, s, true) == Ideal(RowLines(Values(steps, width), s), true)
    ensures Stream(steps, width, s, false) ==
      Ideal((if steps == [] then [] else Line(s.columns, s.delimiter)) + RowLines(Values(steps, width), s), true)
  {
    if steps != [] {
      assert ScanStep(steps[0], width).Scanned? && !steps[0].Interrupted?;
      assert AllScan(steps[1..], width) by {
        forall k | 0 <= k < |steps| - 1 ensures ScanStep(steps[1..][k], width).Scanned? {
          assert steps[1..][k] == steps[k + 1];
        }
      }
      var v0 := ScanStep(steps[0], width).values;
      var line0 := Line(FieldsOf(v0, |s.columns|, s.nullString), s.delimiter);
      var rest := RowLines(Values(steps[1..], width), s);
      assert RowLines(Values(steps, width), s) == line0 + rest by {
        assert Values(steps, width)[1..] == Values(steps[1..], width);
        assert Values(steps, width)[0] == v0;
      }
      assert Stream(steps[1..], width, s, true) == Ideal(rest, true) by {
        StreamLayout(steps[1..], width, s);
      }
      assert Stream(steps, width, s, true) == Ideal(line0 + rest, true) by {
        StreamStep(steps, width, s, true);
        assert Chunk(s, true, v0) == line0;
      }
      assert Stream(steps, width, s, false) == Ideal(Line(s.columns, s.delimiter) + line0 + rest, true) by {
        StreamStep(steps, width, s, false);
      }
      AppendAssoc(Line(s.columns, s.delimiter), line0, rest);
    }
  }

  // ----- The formatter object -----

  /** CSVFormatter: the delimiter and the NULL placeholder (public fields in Go),
      the query whose column names form the header, and the header latch. */
  class CSVFormatter {
    var delimiter: char
    var nullString: string
    const query: Query
    var didPrintHeaders: bool

    /** NewCSVFormatter: delimiter ",", NULL placeholder "", no header yet. */
    constructor (q: Query)
      ensures delimiter == ',' && nullString == [] && query == q && !didPrintHeaders
    {
      delimiter := ',';
      nullString := [];
      query := q;
      didPrintHeaders := false;
    }

    function Config(): Settings
      reads this`delimiter, this`nullString
    {
      Settings(query.columns, delimiter, nullString)
    }

    /** ColumnCount: the number of fields of every row Format writes. */
    function ColumnCount(): (n: nat)
      ensures n == |query.columns|
      ensures forall values: seq<NullString>, ns: string :: |FieldsOf(values, n, ns)| == n
    {
      |query.columns|
    }

    /** writeRow: escapes the fields into a local buffer, then writes the line
        to the sink in a single write. */
    method WriteRow(row: seq<string>, w: Sink) returns (n: nat, err: Option<Error>)
      modifies w
      ensures var r := RowWrite(row, delimiter, old(w.room));
        n == |r.bytes| && err == r.err && w.data == old(w.data) + r.bytes && w.room == old(w.room) - n
    {
      if !PatternCompiles(delimiter) {
        return 0, Some(PatternFailed);
      }
      var b: string := [];
      var i := 0;
      while i < |row|
        invariant 0 <= i <= |row|
        invariant b + Joined(row[i..], delimiter) == Joined(row, delimiter)
      {
        ghost var before, rest := b, Joined(row[i + 1..], delimiter);
        var field := row[i];
        if NeedsQuoting(field, delimiter) {
          field := [Quote] + DoubleQuotes(field) + [Quote];
        }
        b := b + field;
        if i < |row| - 1 {
          b := b + [delimiter];
        }
        assert b + rest == Joined(row, delimiter) by {
          var sep: string := if i < |row| - 1 then [delimiter] else [];
          JoinedStep(row, i, delimiter);
          assert b == before + field + sep;
          AppendAssoc(before, field, sep);
          AppendAssoc(before, field + sep, rest);
        }
        i := i + 1;
      }
      b := b + SafeEOL;
      n, err := w.Write(b);
    }

    /** writeHeaders: the column names as a row; the latch is set only when
        that write succeeds. */
    method WriteHeaders(w: Sink) returns (n: nat, err: Option<Error>)
      modifies this`didPrintHeaders, w
      ensures var r := RowWrite(query.columns, delimiter, old(w.room));
        n == |r.bytes| && err == r.err && w.data == old(w.data) + r.bytes && w.room == old(w.room) - n
      ensures didPrintHeaders == (old(didPrintHeaders) || err.None?)
    {
      n, err := WriteRow(query.columns, w);
      if err.Some? {
        return;
      }
      didPrintHeaders := true;
    }

    /** Format: the header on the first call that finds the latch unset, then
        the row. Go indexes past the row buffer (a panic) when there are more
        values than columns. */
    method Format(values: seq<NullString>, w: Sink) returns (n: nat, err: Option<Error>)
      requires |values| <= |query.columns|
      modifies this`didPrintHeaders, w
      ensures var f := FormatResult(old(Config()), old(didPrintHeaders), values, old(w.room));
        n == |f.bytes| && err == f.err && didPrintHeaders == f.latch &&
        w.data == old(w.data) + f.bytes && w.room == old(w.room) - n
    {
      ghost var room0, data0, latch0 := w.room, w.data, didPrintHeaders;
      ghost var head: string := [];
      n, err := 0, None;
      if !didPrintHeaders {
        n, err := WriteHeaders(w);
        if err.Some? {
          FormatCases(Config(), latch0, values, room0);
          return;
        }
        head := RowWrite(query.columns, delimiter, room0).bytes;
      }
      var row := RowCells(values, |query.columns|, nullString);
      var next;
      next, err := WriteRow(row[..], w);
      FormatCases(Config(), latch0, values, room0);
      AppendAssoc(data0, head, RowWrite(row[..], delimiter, room0 - |head|).bytes);
      n := n + next;
    }
  }

  /** The row buffer Format fills: one string per column, the value's text or
      the NULL placeholder, and "" past the end of `values`. */
  method RowCells(values: seq<NullString>, width: nat, nullString: string) returns (row: array<string>)
    requires |values| <= width
    ensures fresh(row) && row[..] == FieldsOf(values, width, nullString)
  {
    row := new string[width](_ => []);
    for i := 0 to |values|
      modifies row
      invariant forall k :: 0 <= k < row.Length ==>
        row[k] == if k < i then (if values[k].valid then values[k].str else nullString) else []
    {
      if values[i].valid {
        row[i] := values[i].str;
      } else {
        row[i] := nullString;
      }
    }
    assert row[..] == FieldsOf(values, width, nullString);
  }

  /** The two ways a Format call ends: a failed header write, which leaves the
      latch unset; or the header (when due) followed by the row line. */
  lemma FormatCases(s: Settings, latch: bool, values: seq<NullString>, room: nat)
    ensures var header := RowWrite(s.columns, s.delimiter, room);
      !latch && header.err.Some? ==> FormatResult(s, latch, values, room) == Formatted(header.bytes, header.err, false)
    ensures var header := RowWrite(s.columns, s.delimiter, room);
      var head := if latch then [] else header.bytes;
      var line := RowWrite(FieldsOf(values, |s.columns|, s.nullString), s.delimiter, room - |head|);
      (latch || header.err.None?) ==> FormatResult(s, latch, values, room) == Formatted(head + line.bytes, line.err, true)
  {
  }

  /** QueryProcessor: the formatter rows go to; nil picks a default CSV formatter. */
  datatype QueryProcessor = QueryProcessor(rowFormatter: Option<CSVFormatter>) {
    function Owned(): set<object>
    {
      if rowFormatter.Some? then {rowFormatter.value} else {}
    }
  }

  /** The settings Process formats with: the given formatter's, or NewCSVFormatter's. */
  function ProcessSettings(qp: QueryProcessor, query: Query): Settings
    reads qp.Owned()
  {
    if qp.rowFormatter.Some? then qp.rowFormatter.value.Config() else Settings(query.columns, ',', [])
  }

  /** Process: scans every row of the cursor into a buffer of one NULL string
      per column, formats it, and adds up the byte counts; it stops at the
      first scan or format error and returns the total with that error. Go's
      receiver is a copy, so a default formatter never outlives the call. */
  method Process(qp: QueryProcessor, query: Query, w: Sink) returns (total: nat, err: Option<Error>)
    requires query.result.Valid()
    requires qp.rowFormatter.Some? ==> |query.columns| <= qp.rowFormatter.value.ColumnCount()
    modifies w, query.result, qp.Owned()
    ensures query.result.Valid()
    ensures var r := Drive(old(query.result.rows[query.result.pos..]), |query.columns|, CSV(old(ProcessSettings(qp, query))),
                           qp.rowFormatter.Some? && old(qp.rowFormatter.value.didPrintHeaders), old(w.room));
      total == |r.output| && err == r.err && w.data == old(w.data) + r.output && w.room == old(w.room) - total &&
      query.result.pos == old(query.result.pos) + r.consumed &&
      (qp.rowFormatter.Some? ==> qp.rowFormatter.value.didPrintHeaders == r.latch)
    ensures qp.rowFormatter.Some? ==> qp.rowFormatter.value.Config() == old(qp.rowFormatter.value.Config())
  {
    var f: CSVFormatter;
    if qp.rowFormatter.Some? {
      f := qp.rowFormatter.value;
    } else {
      f := new CSVFormatter(query);
    }
    total, err := Drain(f, query.result, |query.columns|, w, CSV(f.Config()));
  }

  /** Process with its formatter chosen: the loop over the cursor. */
  method Drain(f: CSVFormatter, cursor: Cursor, nCols: nat, w: Sink, ghost fmt: Formatting) returns (total: nat, err: Option<Error>)
    requires cursor.Valid() && nCols <= |f.query.columns| && Implements(fmt, f.Config())
    modifies w, cursor, f`didPrintHeaders
    ensures cursor.Valid()
    ensures var r := Drive(old(cursor.rows[cursor.pos..]), nCols, fmt, old(f.didPrintHeaders), old(w.room));
      total == |r.output| && err == r.err && w.data == old(w.data) + r.output && w.room == old(w.room) - total &&
      cursor.pos == old(cursor.pos) + r.consumed && f.didPrintHeaders == r.latch
  {
    var buffer := new NullString[nCols];
    ghost var start := cursor.pos;
    ghost var whole := Drive(cursor.rows[start..], nCols, fmt, f.didPrintHeaders, w.room);
    ghost var out: string := [];
    total := 0;
    while true
      invariant cursor.Valid() && start <= cursor.pos && f.Config() == old(f.Config())
      invariant w.data == old(w.data) + out && w.room == old(w.room) - |out| && total == |out|
      invariant whole == Glue(out, cursor.pos - start, Drive(cursor.rows[cursor.pos..], nCols, fmt, f.didPrintHeaders, w.room))
      decreases |cursor.rows| - cursor.pos
    {
      ghost var here, pos, room := cursor.rows[cursor.pos..], cursor.pos, w.room;
      ghost var k := pos - start;
      ghost var t := Turn(here, nCols, fmt, f.didPrintHeaders, room);
      DrainStep(whole, out, k, here, nCols, fmt, f.didPrintHeaders, room);
      var n, stepErr, done := TurnOnce(f, cursor, buffer, w, fmt);
      AppendAssoc(old(w.data), out, t.output);
      out := out + t.output;
      total := total + n;
      if done {
        return total, stepErr;
      }
      assert cursor.pos - start == k + 1 && w.room == Left(room, |t.output|) && f.didPrintHeaders == t.latch;
      assert here[1..] == cursor.rows[cursor.pos..];
    }
  }

  /** How one turn moves the loop of Drain: either it ends the walk, or the
      walk goes on over the rest of the cursor. */
  lemma DrainStep(whole: Driven, out: string, k: nat, here: seq<Step>, width: nat, fmt: Formatting, latch: bool, room: nat)
    requires whole == Glue(out, k, Drive(here, width, fmt, latch, room))
    ensures var t := Turn(here, width, fmt, latch, room);
      (t.done ==> whole == Driven(out + t.output, t.err, k + t.consumed, t.latch)) &&
      (!t.done ==>
         here != [] && whole == Glue(out + t.output, k + 1, Drive(here[1..], width, fmt, t.latch, Left(room, |t.output|))))
  {
    var t := Turn(here, width, fmt, latch, room);
    DriveByTurn(here, width, fmt, latch, room);
    if t.done {
      assert t.output + [] == t.output;
    } else {
      GlueStep(out, k, t.output, Drive(here[1..], width, fmt, t.latch, Left(room, |t.output|)));
    }
  }

  /** One turn of Process's loop: advance the cursor, scan the row, format it. */
  method TurnOnce(f: CSVFormatter, cursor: Cursor, buffer: array<NullString>, w: Sink, ghost fmt: Formatting)
    returns (n: nat, err: Option<Error>, done: bool)
    requires cursor.Valid() && buffer.Length <= |f.query.columns| && Implements(fmt, f.Config())
    modifies w, cursor, f`didPrintHeaders, buffer
    ensures cursor.Valid()
    ensures var t := Turn(old(cursor.rows[cursor.pos..]), buffer.Length, fmt, old(f.didPrintHeaders), old(w.room));
      n == |t.output| && err == t.err && done == t.done && w.data == old(w.data) + t.output && w.room == old(w.room) - n &&
      cursor.pos == old(cursor.pos) + t.consumed && f.didPrintHeaders == t.latch
  {
    ghost var here := cursor.rows[cursor.pos..];
    var more := cursor.Next();
    if !more {
      return 0, None, true;
    }
    err := cursor.Scan(buffer);
    if err.Some? {
      return 0, err, true;
    }
    assert ScanStep(here[0], buffer.Length) == Scanned(buffer[..]);
    n, err := f.Format(buffer[..], w);
    done := err.Some?;
  }

  /** What one turn of Process's loop does, as a value. */
  datatype Turned = Turned(output: string, err: Option<Error>, done: bool, consumed: nat, latch: bool)

  function Turn(steps: seq<Step>, width: nat, fmt: Formatting, latch: bool, room: nat): (t: Turned)
    ensures t.err.Some? ==> t.done
    ensures t.consumed <= 1
    ensures !t.done ==> steps != [] && t.consumed == 1
  {
    if steps == [] || steps[0].Interrupted? then Turned([], None, true, 0, latch)
    else match ScanStep(steps[0], width)
      case ScanError(e) => Turned([], Some(e), true, 1, latch)
      case Scanned(values) =>
        var f := fmt(latch, values, room);
        Turned(f.bytes, f.err, f.err.Some?, 1, f.latch)
  }

  /** Drive is the turns taken one after the other until one is done. */
  lemma DriveByTurn(steps: seq<Step>, width: nat, fmt: Formatting, latch: bool, room: nat)
    ensures var t := Turn(steps, width, fmt, latch, room);
      var r := Drive(steps, width, fmt, latch, room);
      (t.done ==> r == Driven(t.output, t.err, t.consumed, t.latch)) &&
      (!t.done ==> steps != [] && r == Glue(t.output, 1, Drive(steps[1..], width, fmt, t.latch, Left(room, |t.output|))))
  {
  }

  /** The walk so far, `out` written over `k` rows, joined to the rest. */
  function Glue(out: string, k: nat, rest: Driven): Driven
  {
    Driven(out + rest.output, rest.err, k + rest.consumed, rest.latch)
  }

  lemma GlueStep(out: string, k: nat, bytes: string, rest: Driven)
    ensures Glue(out, k, Driven(bytes + rest.output, rest.err, rest.consumed + 1, rest.latch)) == Glue(out + bytes, k + 1, rest)
  {
    assert out + (bytes + rest.output) == (out + bytes) + rest.output;
  }

}
