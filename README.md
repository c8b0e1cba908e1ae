# wysci in Dafny

wysci is a small Go service. It runs configured SQL queries and streams each
result set as delimited text. This project models its core and proves
properties of that model:

- **the delimited-row formatter** (`CSVFormatter`) and the loop that feeds it
  the rows of a cursor (`QueryProcessor.Process`);
- **the query handle's consumers** (`DBType.String`, `Query.IndexOf`,
  `Query.Type`, `Query.MakeBuffer`, `Query.ForEach`, `Query.Accumulate`);
- **the HTTP layer's own row path**: `createBuffer` picks a scan slot per
  native type name; `scanRow` renders the slots to text; `appendCSVLine`
  joins and writes them without escaping;
- **the server's configuration precedence** (`finalString`, `finalInt`).

Modules and files:

| file | module | models |
|---|---|---|
| base.dfy | `Base` | `Option`, the error values, `Min` |
| io.dfy | `Io` | an `io.Writer` as a class `Sink` with a byte budget `room`: a write that does not fit is short and fails |
| sql.dfy | `Sql` | `sql.NullString`; `sql.Rows` as a class `Cursor` over a sequence of positions, each a row, a row `Scan` refuses, or a driver interruption |
| decimal.dfy | `Decimal` | `%d`, `strconv.Atoi` and the zero-padded fields of `time.Format` |
| processor.dfy | `Processor` | processor.go |
| query_wrapper.dfy | `QueryWrapper` | query_wrapper.go |
| wysci.dfy | `Wysci` | createBuffer, the cast helpers, scanRow and appendCSVLine of wysci.go |
| server.dfy | `Server` | finalString and finalInt of cmds/server/agogo.go |

The code that changes state is written as methods on classes and arrays:

- `CSVFormatter` has the fields `delimiter`, `nullString` and `didPrintHeaders`;
- the sink and the cursor are objects;
- `writeRow`, `Format`'s row fill, `Process`, `ForEach`, `Accumulate`,
  `MakeBuffer`, `IndexOf`, `createBuffer` and `scanRow` are loops.

Each such method is proved against a function of its inputs and the old
state:

- `RowWrite`, `FormatResult` and `Drive` for the formatter;
- `Walk` and `Fold` for the query handle;
- `Allocated` and `Rendered` for the row path.

The lemmas then state what the source promises about those functions:

- escaping, joining and reading back;
- the header latch;
- every byte written is a prefix of the intended output;
- early stop and the error rules;
- the dispatch tables.

Strings are byte strings, one `char` per byte, so byte counts are lengths.

The code is followed where it differs from its own description:

- `Process` over an empty result writes nothing, not even the header. The
  header is written by the first `Format` call (processor.go:115-121), and
  there is none without a row.
- On a reducer error, `Accumulate` returns the `starting` value it was given
  (query_wrapper.go:304), not the last good accumulator.
- `Type` never looks at column types; on success it always returns
  `DBUnknown` (query_wrapper.go:221). The model's `Query` therefore has no
  column-type field.

## Model

| member | source | states |
|---|---|---|
| Processor.CSVFormatter.constructor | processor.go:37-44 | a new formatter has delimiter `,`, NULL placeholder `""`, the given query, and the header latch unset |
| Processor.EscapeField | processor.go:62-67 | escaping never shortens a field, and a field it changes grows by at least the two wrapping quotes |
| Processor.Joined | processor.go:62-82 | the joined text has at least one byte for each delimiter between fields; what it holds is stated by ReadJoined |
| Processor.Line | processor.go:84 | every line ends in CR LF |
| Processor.RowWrite | processor.go:46-97 | a pattern that does not compile writes nothing and fails; otherwise the sink takes as much of the line as fits, and the write fails exactly when the line does not fit |
| Processor.FieldsOf | processor.go:123-130 | one field per column, and `""` in every column past the values |
| Processor.FormatResult | processor.go:111-140 | Format never writes more than the sink's room, and once set the latch stays set |
| Processor.CSVFormatter.ColumnCount | processor.go:144-146 | the count is the number of query columns, and every row Format builds has exactly that many fields |
| Processor.CSVFormatter.WriteRow | processor.go:46-97 | a delimiter whose quoting pattern does not compile writes nothing and returns 0 with an error; otherwise the escaped, joined, CR LF terminated line goes to the sink in one write, and the count, error and new sink state are that write's |
| Processor.CSVFormatter.WriteHeaders | processor.go:99-107 | the column names are written as a row; the latch is set exactly when it was set already or this write succeeded |
| Processor.CSVFormatter.Format | processor.go:111-140 | on the first call with the latch unset, the header then the row; a failed header write returns only the header's bytes and leaves the latch unset; otherwise the count is the header bytes plus the row bytes and the sink gets both, in order |
| Processor.RowCells | processor.go:123-130 | the row has one field per column: a valid value's string, the NULL placeholder for a NULL, and `""` beyond the values |
| Processor.FormatWritesChunk | processor.go:111-140 | Format writes a prefix of header-then-row, as much as the sink takes; it fails exactly when that does not fit; a pattern that does not compile writes nothing; the latch is set once the header fits, and is never reset |
| Processor.PatternCompiles | processor.go:47-51 | the pattern `["d]` compiles for the comma and tab delimiters and not for a backslash |
| Processor.NeedsQuoting | processor.go:64 | for any delimiter but `]` the pattern matches a field exactly when it holds `"` or the delimiter; with `]` a match needs both `"` and `]` in the field |
| Processor.DoubleQuotes | processor.go:65 | a field without quotes is unchanged and no field gets shorter; ReadQuotedDoubled states that the quoted-field reader undoes it |
| Processor.EscapeFieldUnchanged | processor.go:62-67 | a field is left as it is exactly when the quoting pattern does not match it; for any delimiter but `]`, exactly when it holds neither `"` nor the delimiter |
| Processor.EscapeWithDelimiter | processor.go:62-67 | a field holding the delimiter but no quote is only wrapped in quotes |
| Processor.EscapeQuotedWord | processor.go:62-67 | a quote-free word `w` between one pair of quotes is written as `"""w"""`, for any delimiter but `]`; what escaping preserves in general is stated by ReadJoined |
| Processor.ReadJoined | processor.go:62-82 | for a delimiter other than `"`, `\` and `]`, the fields of every non-empty row are recovered from the joined text: escaping and joining lose nothing |
| Processor.ReadLine | processor.go:46-97 | the whole line, with its CR LF, reads back as the row |
| Processor.LineOfTwo | processor.go:75-84 | two fields are joined by one delimiter, with none after the last, then CR LF |
| Processor.BracketDelimiterAmbiguous | processor.go:47 | with `]` as delimiter the pattern only matches `"]`, so the one-field row `a]b` and the two-field row `a`, `b` give the same line |
| Processor.HeaderExample | processor_test.go:26-48 | the header of columns foo and bar is exactly `foo,bar` CR LF |
| Processor.EmbeddedDelimiterExamples | main_test.go:41-42 | the sample values `embedded,comma` under a comma and `embedded<TAB>tab` under a tab are written wrapped in quotes |
| Processor.QuoteExample | main_test.go:45 | the sample values `"Hello World"` and `"Hello, World"` are written with both quotes doubled, inside wrapping quotes |
| Processor.AllNullRow | processor.go:123-130 | a row of NULLs is one placeholder per column; with the default placeholder its line is n - 1 delimiters and CR LF |
| Processor.Process | processor.go:158-200 | the total is the sum of every Format count, the failing call's partial count included; it stops at the first scan or format error and returns it (rows.Err() is never checked, so a driver interruption ends it with no error, as DriveInterrupted states); the sink gets exactly those bytes; a missing formatter is replaced by a default one; a given formatter keeps its settings and its latch follows the calls |
| Processor.Drain | processor.go:176-199 | the loop over the cursor, with a formatting function that agrees with CSVFormatter's Format: its result, the sink, the cursor position and the latch are those of Drive |
| Processor.TurnOnce | processor.go:184-196 | one turn of the loop: Next, Scan into the buffer, Format; it ends the loop on exhaustion or an error |
| Processor.DriveInterrupted | processor.go:184-199 | a driver interruption after any positions ends Process exactly as the end of the result set does: same bytes, no error |
| Processor.DriveWritesPrefix | processor.go:183-199 | everything Process writes is a prefix of the intended output, cut where the sink runs out of room; it reports no error exactly when the whole intended output fits and no scan or pattern error occurs |
| Processor.StreamLayout | processor.go:183-199 | over rows that all scan, the intended output is the header once, only if there is a row, then one line per row in cursor order; a latched formatter writes no header |
| Processor.Drive | processor.go:183-199 | Process advances the cursor at most once per row |
| QueryWrapper.StringNames | query_wrapper.go:34-49 | the five typed constants map to Number, Text, Date, Time and Bytes, to no other name, and no two of them alike; every other value maps to Unknown |
| QueryWrapper.DBType.String | query_wrapper.go:34-49 | every value maps to one of Number, Text, Date, Time, Bytes and Unknown |
| QueryWrapper.Query.IndexOf | query_wrapper.go:188-196 | found exactly when the name is a column; then the index is the first with that name; otherwise -1 and a not-found error |
| QueryWrapper.Query.Type | query_wrapper.go:199-222 | an error with type -1 exactly when a name is not a column; every other argument gives DBUnknown and no error |
| QueryWrapper.Query.MakeBuffer | query_wrapper.go:235-244 | a new buffer of one NULL string per column |
| QueryWrapper.Walk | query_wrapper.go:257-275 | ForEach advances the cursor at most once per row, and calls the visitor no more often than it advances and at most once less |
| QueryWrapper.Query.ForEach | query_wrapper.go:247-278 | the error returned, the visitor's final state and the cursor position are those of Walk over the remaining rows |
| QueryWrapper.WalkInterrupted | query_wrapper.go:257-275 | ForEach never checks rows.Err(): an interruption after any positions gives the same result as the end of the result set, with no error |
| QueryWrapper.WalkVisitsAll | query_wrapper.go:257-275 | a visitor that never stops or fails is called on every row in cursor order: its final state is the left fold over the rows |
| QueryWrapper.WalkStopsAfter | query_wrapper.go:272-274 | the visitor that asks to stop once its count passes k is called min(rows, k + 1) times and no more |
| QueryWrapper.WalkFailure | query_wrapper.go:259-264 | ForEach advances once more than it calls the visitor exactly when it ends on a row Scan refuses, and then it returns that scan error |
| QueryWrapper.WalkContinues | query_wrapper.go:257-275 | while the rows scan and the visitor neither stops nor fails, it is called on each row in cursor order and ForEach carries on from the state they lead to |
| QueryWrapper.WalkEndsAtCall | query_wrapper.go:266-274 | for any visitor, the first call that stops or fails is the last: ForEach has called it exactly that many times and returns that call's error, or nil on a stop |
| QueryWrapper.WalkEndsAtScan | query_wrapper.go:259-264 | a row Scan refuses ends ForEach with that error, and the visitor is not called on it |
| QueryWrapper.ForEachScenarios | query_wrapper_test.go:64-120 | over the five test rows, the stop-after-2 visitor sees 3 rows and the plain visitor sees 5 |
| QueryWrapper.Query.Accumulate | query_wrapper.go:281-309 | the value, error and cursor position are those of Fold over the remaining rows, from the starting value |
| QueryWrapper.FoldInterrupted | query_wrapper.go:291-308 | Accumulate never checks rows.Err(): an interruption after any positions returns the running value with no error, as the end of the result set does |
| QueryWrapper.Fold | query_wrapper.go:291-308 | Accumulate advances the cursor at most once per row |
| QueryWrapper.FoldAll | query_wrapper.go:291-308 | a reducer that never fails returns the left fold over every row from the starting value, or the starting value itself over no rows |
| QueryWrapper.FoldFailure | query_wrapper.go:295-305 | without an error there is a value; a scan error returns nil; a reducer error returns the starting value, not the last accumulator |
| QueryWrapper.AccumulateScenario | query_wrapper_test.go:122-170 | the sum reducer over ids 1 to 5 from 0 returns 15 with no error |
| Sql.Cursor.Next | processor.go:184 | Next advances exactly when a row remains and the driver does not stop |
| Sql.ScanStep | processor.go:185 | Scan copies out a row only when it is a row of the driver's with exactly as many values as destinations, and always does for such a row |
| Sql.Cursor.Scan | processor.go:185-189 | a successful Scan copies the current row into the buffer; a failed one leaves the buffer and returns the error |
| Io.WriteResult | processor.go:90 | one write keeps the first bytes that fit, fails exactly when the bytes do not all fit, and then reports a short write |
| Io.Sink.Write | processor.go:90-96 | a write keeps as much as fits and reports a short write when it does not all fit |
| Io.TakeConcat | wysci.go:202-205 | two writes in a row keep the same bytes as one write of both |
| Decimal.AtoiIntText | wysci.go:178-194 | `strconv.Atoi` reads back the `%d` text of every 64-bit integer |
| Decimal.ZeroPadValue | wysci.go:142 | zero-padding a digit string keeps its value |
| Decimal.IntText | wysci.go:179 | `%d` text is never empty and starts with a minus sign exactly for a negative number |
| Decimal.Atoi | cmds/server/agogo.go:67 | an integer `strconv.Atoi` accepts lies in the 64-bit range |
| Wysci.KindOf | wysci.go:59-108 | a cast helper succeeds exactly when the slot holds its kind; nil holds none |
| Wysci.ZeroSlot | wysci.go:41-52 | a new slot holds the kind asked for, and is NULL |
| Wysci.KindFor | wysci.go:36-56 | createBuffer's table agrees with scanRow's switch on every name it allocates for but NVARCHAR and INT, and on every name the switch knows but NVCHAR |
| Wysci.ScanKind | wysci.go:117-195 | scanRow's switch has no case for NVARCHAR and none for INT |
| Wysci.Allocated | wysci.go:36-56 | one slot per type name, of the kind createBuffer's table gives the name, each NULL; nil exactly for a name outside the table |
| Wysci.CreateBuffer | wysci.go:36-56 | the buffer createBuffer fills is Allocated of the type names |
| Wysci.Render | wysci.go:118-194 | a NULL slot renders as `""`; a valid BOOL as `true` or `false`, `true` exactly when the value is true |
| Wysci.DateText | wysci.go:142 | a DATE is at least ten characters with `/` at the third and sixth |
| Wysci.IntPartReadsBack | wysci.go:171-194 | INT4 and BIGINT values render as signed decimal text that `strconv.Atoi` reads back |
| Wysci.DateLayout | wysci.go:141-142 | a DATE is two-digit month, `/`, two-digit day, `/`, year; month, day and a year from 0 read back; ten characters for the years 0 to 9999 |
| Wysci.ScanRow | wysci.go:111-199 | the parts are Rendered of the buffer under scanRow's own switch |
| Wysci.Parts | wysci.go:115-196 | a range of columns yields at most one part per column |
| Wysci.PartsComplete | wysci.go:115-196 | a range of columns yields one part per column exactly when every column in it yields a part, and then the parts are those columns' parts in column order |
| Wysci.RenderedComplete | wysci.go:111-199 | a whole row gives one part per column, in order, exactly when every column yields a part |
| Wysci.PartsSplit | wysci.go:115-196 | the parts of a range are those of its first half followed by those of its second half |
| Wysci.SkippedColumn | wysci.go:119-123 | a column that yields no part drops out, and the columns after it are still rendered in order |
| Wysci.DispatchDifference | wysci.go:117-195 | scanRow's switch and createBuffer's table agree on every name except NVARCHAR, INT and NVCHAR |
| Wysci.NvarcharDropped | wysci.go:118 | an NVARCHAR column gets a string slot from createBuffer but scanRow renders no part for it |
| Wysci.IntDropped | wysci.go:171 | an INT column gets an int32 slot from createBuffer but scanRow renders no part for it |
| Wysci.AllocatedColumnsRender | wysci.go:111-199 | dispatching on createBuffer's own table, a buffer with the kinds createBuffer gave it renders one part per column, in order, exactly when every type name is known |
| Wysci.AppendCSVLine | wysci.go:202-205 | the sink gets the comma-joined row then CR LF, as much as fits |
| Wysci.CommaJoin | wysci.go:203 | the joined text of a non-empty row starts with its first field unchanged, and has at least one byte for each comma between fields |
| Wysci.PlainLine | wysci.go:202-205 | the line appendCSVLine writes ends in CR LF |
| Wysci.JoinedVersusCommaJoin | wysci.go:203 | the plain join is never longer than the escaped one, and equal to it exactly when no field holds a comma or a quote |
| Wysci.PlainLineVersusLine | wysci.go:202-205 | the unescaped line is never longer than the formatter's line, equals it exactly when no field holds a comma or a quote, and otherwise is strictly shorter |
| Wysci.PlainLineReadsBack | wysci.go:202-205 | a row with no comma or quote in any field reads back from its unescaped line |
| Wysci.PlainLineAmbiguous | wysci.go:203 | the rows `a,b` and `a`, `b` give the same unescaped line |
| Wysci.EscapedLineInjective | processor.go:62-84 | distinct non-empty rows give distinct escaped lines |
| Server.FirstGiven | cmds/server/agogo.go:16-31 | the chosen value is the default or one of the candidates, and is empty only if the default is |
| Server.FinalString | cmds/server/agogo.go:16-31 | the result is one of the four sources, and a non-empty command-line value always wins |
| Server.FinalStringPrecedence | cmds/server/agogo.go:16-31 | finalString is the first non-empty of command line, environment, configuration file, else the default; each case spelled out |
| Server.FinalIntCases | cmds/server/agogo.go:33-48 | a nonzero command-line value wins; with it zero, a nonzero environment value gives 0; with both zero, the file's value if nonzero, else the default |
| Server.FinalIntIgnoresEnv | cmds/server/agogo.go:39-41 | whenever the environment value is nonzero the result is the command-line value, whatever the environment value is |
| Server.FinalIntDropsEnv | cmds/server/agogo.go:39-41 | environment 5433, command line 0, file 0, default 5432: finalInt gives 0, the corrected rule 5433 |
| Server.FirstNonzero | cmds/server/agogo.go:33-48 | the chosen value is the default or one of the candidates, and is zero only if the default is |
| Server.FinalIntIntendedPrecedence | cmds/server/agogo.go:33-48 | the corrected finalInt is the first nonzero of command line, environment, configuration file, else the default |
| Server.FinalIntDiffers | cmds/server/agogo.go:39-41 | finalInt and the corrected rule differ exactly when the command-line value is zero and the environment value is not |
| Server.FinalInt | cmds/server/agogo.go:33-48 | the result is the command-line value, the file's value or the default; the environment's value is never chosen as such; a nonzero command-line value always wins |
| Server.FinalIntIntended | cmds/server/agogo.go:33-48 | the corrected rule picks one of the four sources, and a nonzero command-line value always wins |

## Left out

- Logging (logrus and `log`) and the timing of `Process`, `ForEach` and `Accumulate`: no effect on results.
- `ConfigureEndpoints` and the HTTP plumbing (wysci.go:208-260): routing, query-string parameter binding and status codes. Its row path (createBuffer, scanRow, appendCSVLine) is modelled.
- `main` (cmds/server/agogo.go:50-101): flags, environment reads and the connection. Its defaults come in as parameters of finalString and finalInt.
- config.go is not part of this model: it only declares structs and decodes a TOML file.
- `ExecuteQuery`, `ExecuteQueryWithContext`, `Close`, `Result`, `typeMetadata` and `Query.Columns`: database/sql wrappers. The cursor is a sequence of positions, and a `Query` holds its column names.
- Rows.Scan into createBuffer's slots (wysci.go:112) is not modelled. `Wysci.ScanRow` renders the buffer as Scan left it. Scan's error is ignored there, so on a failed scan the slots may be stale; the model takes whatever slots it is given.
- The `%f` rendering of a float64 and the `%v` rendering of a `time.Time` (wysci.go:140, wysci.go:155) are the parameters of `Show`.
- Time zones: a `Time` is already broken down in its own location. `DateText` does not model `time.Format`'s handling of years outside 0 to 9999 beyond a sign and at least four digits.
- Processor.PatternCompiles: the delimiter is one ASCII character. Inside the class `["d]` built at processor.go:47 every such character is literal except `\` and `]`, which are modelled. An empty, multi-character or non-ASCII delimiter is not modelled.
- Processor.CSVFormatter.Format: requires at most as many values as columns. With more values Go indexes past the row and panics (processor.go:126).
- Processor.Process: requires that the query have at most as many columns as the formatter's `ColumnCount`, for the same reason: a formatter built over a narrower query panics in Format (processor.go:126).
- Processor.Process: only `CSVFormatter` is modelled as the `Formatter`. `Drain` requires a formatting function that agrees with CSVFormatter's Format; only the function `Drive` is stated for any formatting function.
- Io.Sink.Write: a writer that returns an error after accepting every byte (`n == len(b)` with a non-nil error) is not modelled: the sink fails only on a short write. DriveWritesPrefix's "no error exactly when everything fits" rests on this.
- QueryWrapper.Query.MakeBuffer: whether the `&v` slots alias one another depends on Go's loop-variable semantics (query_wrapper.go:239-241). They are modelled as distinct NULL strings.
- QueryWrapper.Query.ForEach and QueryWrapper.Query.Accumulate: Go hands the visitor or reducer the same buffer on every call, and the next Scan overwrites it (query_wrapper.go:255-266, 289-301). The model passes a copy of the row's values, so a visitor or reducer that keeps a row it was given does not see it change.
- QueryWrapper.Query.Type: the panic for an argument that is neither int nor string (query_wrapper.go:207) cannot occur, because `ColumnRef` has only a name case and an index case.
- Wysci.ScanRow: requires at least as many type names as slots. Go panics otherwise (wysci.go:116).
- Server.FinalIntCases: Go's `int` width is not modelled; the values are unbounded integers.

## Findings

| source | as written | input that shows it | evidently intended | confidence | as-written member | corrected member |
|---|---|---|---|---|---|---|
| cmds/server/agogo.go:39-41 | a nonzero environment port assigns the command-line port | environment 5433, command line 0, file 0, default 5432 gives 0 | the environment port, as finalString does (5433) | not executed | Server.FinalIntDropsEnv | Server.FinalIntIntendedPrecedence |
| wysci.go:118 | scanRow tests "NVCHAR" where createBuffer allocates for "NVARCHAR" | an NVARCHAR column holding "x" renders no part | render NVARCHAR as a string | not executed | Wysci.NvarcharDropped | Wysci.AllocatedColumnsRender |
| wysci.go:171 | scanRow has a case for INT4 but not for INT, which createBuffer allocates as int32 | an INT column holding 7 renders no part | render INT as decimal text | not executed | Wysci.IntDropped | Wysci.AllocatedColumnsRender |
| wysci.go:203 | appendCSVLine joins with commas and escapes nothing | the row `a,b` and the rows `a`, `b` give the same line | escape fields as the formatter does | not executed | Wysci.PlainLineAmbiguous | Wysci.EscapedLineInjective |

The first finding is masked in practice: `main` gives the command-line port a default of 5432 (cmds/server/agogo.go:58), so the environment and file ports only matter with an explicit `-dbport 0`, and then the environment's is dropped.
