# elastic-jdbc in Dafny

A model of the core of `elastic-jdbc`. That is a JDBC driver which sends SQL to the Elasticsearch SQL endpoint over HTTP. The model covers:

- **Prepared statement.** The typed setters render each bind value to literal SQL text. They store it in a map keyed by the 1-based parameter position. `executeQuery()` then turns the template and that map into one literal query:
  - each `?` is replaced left to right;
  - `=?` and `!=?` become ` is NULL ` and ` is NOT NULL ` when the bound text is the `'null'` sentinel;
  - a `GROUP BY` whose tail looks like a three-part qualified name is cut off.
- **Plain statement.** It has a closed flag that guards every call. Its constructor validates the result-set options. It holds the row limit and the close-on-completion flag. It builds the JSON request body and keeps the last result set.
- **Connection.** It turns the JDBC URL into an HTTP host. It hands out statements. `nativeSQL` strips a trailing `;`. It keeps the catalog, type map and holdability.
- **Driver.** It accepts URLs by prefix and keeps the register/deregister state.
- **Column metadata.** A 1-based, bounds-checked column list, the metadata answers derived from it, and the `ColumnInfo` and `SqlResponseResults` records.

Layout, one module per file:

| file | module | models |
|---|---|---|
| `common.dfy` | `Common` | Java exceptions (`Error`), `null` (`Option`), throwing calls (`Result`, `Outcome`), fixed-width ints, JDBC constants |
| `text.dfy` | `Text` | `startsWith`, `endsWith`, `indexOf`, `split(sep, 2)`, `replaceFirst` for literal patterns, and the regex character classes |
| `literals.dfy` | `Literals` | what each setter stores |
| `translator.dfy` | `Translator` | the translation in `executeQuery()`, as pure functions and their laws |
| `sql.dfy` | `Sql` | `ColumnInfo` and `SqlResponseResults` (classes with fluent setters) |
| `columns.dfy` | `Columns` | `ResultSetColumns` |
| `metadata.dfy` | `MetaData` | `JdbcResultSetMetaData` |
| `statement.dfy` | `Statements` | `JdbcStatement` (class) |
| `prepared.dfy` | `Prepared` | `JdbcPreparedStatement` (class; the substitution loop is a `while` loop proved against `Translator`) |
| `connection.dfy` | `Connections` | `JdbcConnection` (class) |
| `driver.dfy` | `Drivers` | `Driver` and its static registration field |

How the model is built:

- `JdbcPreparedStatement` inherits from `JdbcStatement`. Here it holds a `Statement` instead.
- The HTTP exchange is a parameter `server: string -> Option<string>`. It maps the request body to the response, or to `None` when sending the request or building the result set throws.
- A result set keeps its response and a closed flag.

Behaviour of the code worth knowing:

- **No `GROUP BY`.** A prepared query whose substituted text has no `GROUP BY` does not run. `split("GROUP BY", 2)` then has no second part, and `parts[1]` throws an index-out-of-bounds error (`Translator.StripGroupBy`, `Translator.Translate`). So `a=?` with a NULL binding does become `a is NULL ` (`Translator.IsNullTranslation`), but execution then fails unless the query also has a `GROUP BY`.
- **Two-part names.** The `GROUP BY` pattern demands two dots. So `GROUP BY t.col` is kept, not stripped (`Translator.TwoPartNameKept`).
- **`setNull`.** It binds the bare word `null`, not the `'null'` sentinel. So it never produces `IS NULL` (`Translator.SetNullTranslation`). Only `setString(i, null)`, `setString(i, "null")` and `setObject(i, null)` bind the sentinel.
- **Null descriptors.** The array constructor of the column list throws a null-pointer error for a null array or a null descriptor (`Columns.FromArray`). The list constructor accepts both, so the metadata getters throw a null-pointer error when they reach a null descriptor (`MetaData.ListMetaDataDisagrees`).
- **Null SQL text.** `nativeSQL(null)` throws a null-pointer error when it tests the text's end, so every `prepareStatement` overload that passes its text through `nativeSQL` throws it too, after the open check and before any option check (`Connections.Connection.NativeSql`, `Connections.Connection.PrepareStatement`). A prepared statement built directly on a null template throws the same error from `executeQuery()` (`Prepared.QueryError`).

## Model

| member | source | states |
|---|---|---|
| Text.SplitFirst | src/main/java/gr/uoa/di/madgik/elastic/JdbcPreparedStatement.java:39 | `split(sep, 2)`: one part exactly when `sep` does not occur, else the text before and after its first occurrence, which rejoin to the input |
| Text.ReplaceFirst | src/main/java/gr/uoa/di/madgik/elastic/JdbcPreparedStatement.java:41-48 | `replaceFirst` leaves a text without the pattern unchanged; `Text.ReplaceFirstAt` gives the splice at the leftmost occurrence |
| Text.IndexOf | src/main/java/gr/uoa/di/madgik/elastic/JdbcPreparedStatement.java:39 | finds the leftmost occurrence, and `None` exactly when there is none |
| Literals.BooleanText | src/main/java/gr/uoa/di/madgik/elastic/JdbcPreparedStatement.java:71-74 | `setBoolean` stores `true` for true and `false` for false, and nothing else |
| Literals.NatText | src/main/java/gr/uoa/di/madgik/elastic/JdbcPreparedStatement.java:77-98 | decimal digits, non-empty, no leading zero |
| Literals.DecimalRoundTrip | src/main/java/gr/uoa/di/madgik/elastic/JdbcPreparedStatement.java:77-98 | the integer setters' text parses back to the bound value |
| Literals.DecimalTextInjective | src/main/java/gr/uoa/di/madgik/elastic/JdbcPreparedStatement.java:77-98 | distinct integers are stored as distinct texts |
| Literals.StringLiteral | src/main/java/gr/uoa/di/madgik/elastic/JdbcPreparedStatement.java:119-122 | `setString` stores the string between single quotes, unescaped; a null string gives the sentinel |
| Literals.StringLiteralSentinel | src/main/java/gr/uoa/di/madgik/elastic/JdbcPreparedStatement.java:119-122 | `setString` stores the sentinel exactly for a null string and for the string `null` (also lines 38) |
| Literals.NullTextIsNotSentinel | src/main/java/gr/uoa/di/madgik/elastic/JdbcPreparedStatement.java:38-68 | what `setNull` stores differs from the sentinel |
| Literals.BytesText | src/main/java/gr/uoa/di/madgik/elastic/JdbcPreparedStatement.java:125-128 | `setBytes` stores a bracketed list, or `null` for a null array |
| Literals.ElementsTextCommas | src/main/java/gr/uoa/di/madgik/elastic/JdbcPreparedStatement.java:127 | a byte list of n elements has n-1 commas |
| Literals.NumberShape | src/main/java/gr/uoa/di/madgik/elastic/JdbcPreparedStatement.java:182 | every text the number pattern accepts is digits, an optional dot, digits |
| Literals.ShapeIsNumber | src/main/java/gr/uoa/di/madgik/elastic/JdbcPreparedStatement.java:182 | every text of that shape is accepted |
| Literals.ObjectLiteral | src/main/java/gr/uoa/di/madgik/elastic/JdbcPreparedStatement.java:179-186 | `setObject` stores the text bare if it matches the number pattern, else quoted |
| Literals.ObjectLiteralOfInteger | src/main/java/gr/uoa/di/madgik/elastic/JdbcPreparedStatement.java:179-186 | an integer object is bare when non-negative and quoted when negative |
| Literals.ObjectLiteralOfNull | src/main/java/gr/uoa/di/madgik/elastic/JdbcPreparedStatement.java:179-186 | `setObject(i, null)` stores the sentinel |
| Literals.ObjectLiteralExamples | src/main/java/gr/uoa/di/madgik/elastic/JdbcPreparedStatement.java:179-186 | `12.5` and `12.` stay bare; `-3` and `.5` are quoted |
| Literals.RenderedWithoutPlaceholder | src/main/java/gr/uoa/di/madgik/elastic/JdbcPreparedStatement.java:71-98 | boolean, integer and byte-array texts contain no `?` (also lines 125-128) |
| Translator.SubstituteAt | src/main/java/gr/uoa/di/madgik/elastic/JdbcPreparedStatement.java:38-48 | one loop step, all four cases: a non-sentinel value replaces the first `?`; for the sentinel, `!=?` becomes ` is NOT NULL `, else `=?` becomes ` is NULL `, else the `?` becomes `'null'` |
| Translator.SetNullNotRewritten | src/main/java/gr/uoa/di/madgik/elastic/JdbcPreparedStatement.java:38-68 | a `setNull` binding is pasted verbatim even after `=` |
| Translator.SubstituteWithoutPlaceholder | src/main/java/gr/uoa/di/madgik/elastic/JdbcPreparedStatement.java:45-48 | a binding applied to a text with no `?` leaves it unchanged |
| Translator.SubstituteAllWithoutPlaceholder | src/main/java/gr/uoa/di/madgik/elastic/JdbcPreparedStatement.java:37-49 | bindings beyond the number of `?` leave the text unchanged |
| Translator.FirstPlaceholder | src/main/java/gr/uoa/di/madgik/elastic/JdbcPreparedStatement.java:39 | a text with a `?` splits at its first `?` |
| Translator.SubstituteConsumesOne | src/main/java/gr/uoa/di/madgik/elastic/JdbcPreparedStatement.java:38-48 | with a `?`-free value, each step removes exactly one `?` |
| Translator.SubstituteAllSnoc | src/main/java/gr/uoa/di/madgik/elastic/JdbcPreparedStatement.java:37-49 | one more loop iteration is one more substitution on the result so far |
| Translator.TranslationFills | src/main/java/gr/uoa/di/madgik/elastic/JdbcPreparedStatement.java:37-49 | for plain values, the loop equals `Fill`, an independent left-to-right fill of the template's gaps |
| Translator.QualifiedShape | src/main/java/gr/uoa/di/madgik/elastic/JdbcPreparedStatement.java:52 | every tail the GROUP BY pattern accepts is space, name, dot, name, dot, then no line terminator |
| Translator.ShapeIsQualified | src/main/java/gr/uoa/di/madgik/elastic/JdbcPreparedStatement.java:52 | every tail of that shape is accepted |
| Translator.TwoPartNameKept | src/main/java/gr/uoa/di/madgik/elastic/JdbcPreparedStatement.java:52 | a tail with one dot, such as ` t.col`, is not accepted |
| Translator.StripGroupBy | src/main/java/gr/uoa/di/madgik/elastic/JdbcPreparedStatement.java:51-54 | fails exactly when there is no `GROUP BY`; otherwise the text, or the part before its first `GROUP BY` |
| Translator.StripGroupByAt | src/main/java/gr/uoa/di/madgik/elastic/JdbcPreparedStatement.java:51-54 | for the first `GROUP BY` after `a`: cut to `a` iff the tail matches, else unchanged |
| Translator.Values | src/main/java/gr/uoa/di/madgik/elastic/JdbcPreparedStatement.java:37-38 | the values at positions 1..n, in order |
| Translator.Translate | src/main/java/gr/uoa/di/madgik/elastic/JdbcPreparedStatement.java:37-54 | fails with a null-pointer error iff a position in 1..size is unbound; with an index error iff no `GROUP BY` is left |
| Translator.GapFails | src/main/java/gr/uoa/di/madgik/elastic/JdbcPreparedStatement.java:37-38 | a binding at position 2 alone makes the translation fail |
| Translator.TranslateSingle | src/main/java/gr/uoa/di/madgik/elastic/JdbcPreparedStatement.java:37-54 | with only position 1 bound (as after `clearParameters`), the translation is one substitution, then the GROUP BY step (also lines 167-170) |
| Translator.IsNullTranslation | src/main/java/gr/uoa/di/madgik/elastic/JdbcPreparedStatement.java:38-54 | `a=?b` with the sentinel at position 1 translates as `a is NULL b` |
| Translator.IsNullSubstitution | src/main/java/gr/uoa/di/madgik/elastic/JdbcPreparedStatement.java:42-43 | the sentinel turns `a=?b` into `a is NULL b` when `a` does not end in `!` |
| Translator.SetNullTranslation | src/main/java/gr/uoa/di/madgik/elastic/JdbcPreparedStatement.java:48-68 | `a=?b` with `setNull` at position 1 translates as `a=nullb` |
| Prepared.QueryError | src/main/java/gr/uoa/di/madgik/elastic/JdbcPreparedStatement.java:33-56 | the error `executeQuery()` raises: closed, then a null-pointer error for a null template or an unbound position, then index-out-of-bounds when the substituted text has no `GROUP BY`, then "Error executing sql query: " plus the query when the server fails; none exactly when the server answers |
| Prepared.PreparedStatement.constructor | src/main/java/gr/uoa/di/madgik/elastic/JdbcPreparedStatement.java:21-24 | an open statement with the template and no bindings |
| Prepared.PreparedStatement.FromStatement | src/main/java/gr/uoa/di/madgik/elastic/JdbcPreparedStatement.java:26-29 | the given statement with the template and no bindings |
| Prepared.PreparedStatement.Create | src/main/java/gr/uoa/di/madgik/elastic/JdbcPreparedStatement.java:26-29 | succeeds exactly when the statement's option check passes |
| Prepared.PreparedStatement.SetNull | src/main/java/gr/uoa/di/madgik/elastic/JdbcPreparedStatement.java:65-68 | binds `null` at position i, every other position unchanged; only the open check when closed |
| Prepared.PreparedStatement.SetBoolean | src/main/java/gr/uoa/di/madgik/elastic/JdbcPreparedStatement.java:71-74 | binds `true`/`false` at i, others unchanged |
| Prepared.PreparedStatement.SetByte | src/main/java/gr/uoa/di/madgik/elastic/JdbcPreparedStatement.java:77-80 | binds the decimal text at i, others unchanged |
| Prepared.PreparedStatement.SetShort | src/main/java/gr/uoa/di/madgik/elastic/JdbcPreparedStatement.java:83-86 | binds the decimal text at i, others unchanged |
| Prepared.PreparedStatement.SetInt | src/main/java/gr/uoa/di/madgik/elastic/JdbcPreparedStatement.java:89-92 | binds the decimal text at i, others unchanged |
| Prepared.PreparedStatement.SetLong | src/main/java/gr/uoa/di/madgik/elastic/JdbcPreparedStatement.java:95-98 | binds the decimal text at i, others unchanged |
| Prepared.PreparedStatement.SetValueOf | src/main/java/gr/uoa/di/madgik/elastic/JdbcPreparedStatement.java:101-116 | binds the value's text as given at i, others unchanged; closed statements throw (also `setObject(i, x, type)`, lines 173-176) |
| Prepared.PreparedStatement.SetDateOrTime | src/main/java/gr/uoa/di/madgik/elastic/JdbcPreparedStatement.java:131-140 | `setDate`/`setTime` always throw after the open check: a null-pointer error for null, else the unsupported `toInstant()`; nothing is bound |
| Prepared.PreparedStatement.SetTimestamp | src/main/java/gr/uoa/di/madgik/elastic/JdbcPreparedStatement.java:143-146 | binds the instant's text at i, others unchanged; a null timestamp or a closed statement throws and binds nothing |
| Prepared.PreparedStatement.SetString | src/main/java/gr/uoa/di/madgik/elastic/JdbcPreparedStatement.java:119-122 | binds the quoted string at i, others unchanged |
| Prepared.PreparedStatement.SetBytes | src/main/java/gr/uoa/di/madgik/elastic/JdbcPreparedStatement.java:125-128 | binds the byte list at i, others unchanged |
| Prepared.PreparedStatement.SetObject | src/main/java/gr/uoa/di/madgik/elastic/JdbcPreparedStatement.java:179-186 | binds the bare-or-quoted text at i, others unchanged |
| Prepared.PreparedStatement.SetStream | src/main/java/gr/uoa/di/madgik/elastic/JdbcPreparedStatement.java:149-164 | only the open check; no binding changes |
| Prepared.PreparedStatement.ClearParameters | src/main/java/gr/uoa/di/madgik/elastic/JdbcPreparedStatement.java:167-170 | empties the bindings when open |
| Prepared.BindAll | src/main/java/gr/uoa/di/madgik/elastic/JdbcPreparedStatement.java:37-49 | the loop fails with a null-pointer error iff some position in 1..size is unbound; otherwise its text is `SubstituteAll` of the bound values in position order (loop invariant: the text so far is `SubstituteAll` of the values seen) |
| Prepared.PreparedStatement.ExecuteQuery | src/main/java/gr/uoa/di/madgik/elastic/JdbcPreparedStatement.java:33-56 | fails exactly as `QueryError` says; on success the new result set holds the server's answer for the translated query, and the statement's other state is unchanged |
| Prepared.PreparedStatement.Execute | src/main/java/gr/uoa/di/madgik/elastic/JdbcPreparedStatement.java:189-192 | fails as `executeQuery()` does and keeps the old result set; else answers true with a fresh open result set holding the server's answer; close-on-completion unchanged |
| Prepared.PreparedStatement.UnsupportedCall | src/main/java/gr/uoa/di/madgik/elastic/JdbcPreparedStatement.java:58-62 | always throws: the closed error, else "Unsupported Operation" |
| Statements.RequestBody | src/main/java/gr/uoa/di/madgik/elastic/JdbcStatement.java:154 | the body is `{"query": "`, the query unescaped, `"}` |
| Statements.RequestBodyRoundTrip | src/main/java/gr/uoa/di/madgik/elastic/JdbcStatement.java:154 | the query reads back from the body, so distinct queries send distinct bodies |
| Statements.ValidateOptions | src/main/java/gr/uoa/di/madgik/elastic/JdbcStatement.java:31-39 | passes iff forward-only, read-only and close-at-commit; otherwise the first failing check's message |
| Statements.Statement.constructor | src/main/java/gr/uoa/di/madgik/elastic/JdbcStatement.java:22-25 | open, no result set, row limit 0 |
| Statements.Statement.Create | src/main/java/gr/uoa/di/madgik/elastic/JdbcStatement.java:27-40 | succeeds exactly when `ValidateOptions` passes, else throws its error |
| Statements.Statement.CheckClosed | src/main/java/gr/uoa/di/madgik/elastic/JdbcStatement.java:42-46 | fails with "This statement has been closed." iff closed |
| Statements.Statement.Close | src/main/java/gr/uoa/di/madgik/elastic/JdbcStatement.java:63-68 | always leaves the statement closed; the first call closes the result set, or throws if there is none; later calls do nothing |
| Statements.Statement.IsClosed | src/main/java/gr/uoa/di/madgik/elastic/JdbcStatement.java:299-301 | true exactly when the statement's closed flag is set, which only `close()` sets |
| Statements.Statement.Execute | src/main/java/gr/uoa/di/madgik/elastic/JdbcStatement.java:148-164 | true and a new result set when the server answers; false with the old result set kept otherwise |
| Statements.Statement.ExecuteQuery | src/main/java/gr/uoa/di/madgik/elastic/JdbcStatement.java:49-54 | fails iff `execute` would answer false, naming the query; otherwise returns the new result set |
| Statements.Statement.GetResultSet | src/main/java/gr/uoa/di/madgik/elastic/JdbcStatement.java:167-170 | the held result set when open |
| Statements.Statement.GetMaxRows | src/main/java/gr/uoa/di/madgik/elastic/JdbcStatement.java:83-86 | the limit when it fits an int; an arithmetic error otherwise |
| Statements.Statement.GetLargeMaxRows | src/main/java/gr/uoa/di/madgik/elastic/JdbcStatement.java:95-98 | the limit when open |
| Statements.Statement.SetMaxRows | src/main/java/gr/uoa/di/madgik/elastic/JdbcStatement.java:89-92 | stores the int limit when open, nothing else changes |
| Statements.Statement.SetLargeMaxRows | src/main/java/gr/uoa/di/madgik/elastic/JdbcStatement.java:101-104 | stores the long limit when open, nothing else changes |
| Statements.MaxRowsRoundTrip | src/main/java/gr/uoa/di/madgik/elastic/JdbcStatement.java:83-92 | `setMaxRows` then `getMaxRows` returns the value |
| Statements.LargeMaxRowsNarrowed | src/main/java/gr/uoa/di/madgik/elastic/JdbcStatement.java:83-104 | `setLargeMaxRows` then `getMaxRows` returns the value iff it fits an int, else an arithmetic error |
| Statements.Statement.SetEscapeProcessing | src/main/java/gr/uoa/di/madgik/elastic/JdbcStatement.java:107-109 | fails with the closed error exactly when closed; the flag is ignored |
| Statements.Statement.Get | src/main/java/gr/uoa/di/madgik/elastic/JdbcStatement.java:191-218 | when open, update count -1, fetch size, timeout and field size 0, and the forward-only, read-only, close-at-commit cursor constants (also lines 71-74, 112-115, 173-176, 293-296) |
| Statements.Statement.GetMoreResults | src/main/java/gr/uoa/di/madgik/elastic/JdbcStatement.java:179-182 | false when open |
| Statements.Statement.IsPoolable | src/main/java/gr/uoa/di/madgik/elastic/JdbcStatement.java:310-313 | false when open (the same body as `getMoreResults()` in the source) |
| Statements.Statement.CloseOnCompletion | src/main/java/gr/uoa/di/madgik/elastic/JdbcStatement.java:316-319 | sets the flag when open, nothing else changes |
| Statements.Statement.IsCloseOnCompletion | src/main/java/gr/uoa/di/madgik/elastic/JdbcStatement.java:322-325 | the flag when open |
| Statements.Statement.GetConnection | src/main/java/gr/uoa/di/madgik/elastic/JdbcStatement.java:239-242 | the creating connection when open |
| Statements.Statement.UnsupportedCall | src/main/java/gr/uoa/di/madgik/elastic/JdbcStatement.java:56-60 | always throws: the closed error, else "Unsupported Operation" |
| Statements.ClosedStaysClosed | src/main/java/gr/uoa/di/madgik/elastic/JdbcStatement.java:42-54 | after `close`, queries fail with the closed error and a second `close` succeeds (also lines 63-68, 298-301) |
| Connections.HostString | src/main/java/gr/uoa/di/madgik/elastic/JdbcConnection.java:49-50 | fails iff the URL has no `//`; the host always starts with `http` |
| Connections.HostStringAt | src/main/java/gr/uoa/di/madgik/elastic/JdbcConnection.java:49-50 | when no `//` occurs before `scheme` ends, the host is the text after that `//`, with `http://` prepended unless it starts with `http` |
| Connections.SlashFreeScheme | src/main/java/gr/uoa/di/madgik/elastic/JdbcConnection.java:49 | a scheme without `/` holds no `//`, so the first `//` is the one after it |
| Connections.HttpLikeHostKept | src/main/java/gr/uoa/di/madgik/elastic/JdbcConnection.java:50 | a host merely beginning with `http` gets no scheme |
| Connections.NativeSqlText | src/main/java/gr/uoa/di/madgik/elastic/JdbcConnection.java:289 | removes exactly one trailing `;`, else unchanged |
| Connections.NativeSqlIdempotence | src/main/java/gr/uoa/di/madgik/elastic/JdbcConnection.java:289 | applying it twice equals once iff the text does not end in `;;` |
| Connections.Connection.Open | src/main/java/gr/uoa/di/madgik/elastic/JdbcConnection.java:39-70 | fails with the converted empty-message error for null properties or a URL without `//`; otherwise the client points at `HostString(url)` |
| Connections.Connection.Make | src/main/java/gr/uoa/di/madgik/elastic/JdbcConnection.java:29-70 | a valid connection: a live client for the host, auto-commit on, hold-over-commit, no catalog, an empty type map |
| Connections.Connection.IsClosed | src/main/java/gr/uoa/di/madgik/elastic/JdbcConnection.java:273-275 | never true for a valid connection |
| Connections.Connection.CheckClosed | src/main/java/gr/uoa/di/madgik/elastic/JdbcConnection.java:109-113 | fails with "Connection has been closed." iff closed |
| Connections.Connection.Close | src/main/java/gr/uoa/di/madgik/elastic/JdbcConnection.java:195-204 | closes the client but the connection still reports open |
| Connections.StatementAfterClose | src/main/java/gr/uoa/di/madgik/elastic/JdbcConnection.java:195-204 | after `close`, `createStatement` still succeeds (also lines 122-125, 273-275) |
| Connections.Connection.CreateStatement | src/main/java/gr/uoa/di/madgik/elastic/JdbcConnection.java:122-125 | a fresh open statement of this connection |
| Connections.Connection.CreateStatementWith | src/main/java/gr/uoa/di/madgik/elastic/JdbcConnection.java:137-141 | succeeds iff forward-only and read-only (holdability close-at-commit is supplied) |
| Connections.Connection.CreateStatementWithHoldability | src/main/java/gr/uoa/di/madgik/elastic/JdbcConnection.java:155-160 | succeeds iff the option check passes |
| Connections.Connection.NativeSql | src/main/java/gr/uoa/di/madgik/elastic/JdbcConnection.java:286-290 | the closed error when closed; a null-pointer error for a null text; else the `NativeSqlText` rewrite |
| Connections.Connection.PrepareStatement | src/main/java/gr/uoa/di/madgik/elastic/JdbcConnection.java:170-173 | the closed error when closed; a null-pointer error for a null text; else a fresh open prepared statement whose template is `nativeSQL(sql)`, with no bindings |
| Connections.Connection.PrepareStatementWith | src/main/java/gr/uoa/di/madgik/elastic/JdbcConnection.java:376-380 | always fails: the closed error, then a null-pointer error for a null text, then the option check's error for the connection's hold-over-commit holdability |
| Connections.Connection.PrepareStatementWithHoldability | src/main/java/gr/uoa/di/madgik/elastic/JdbcConnection.java:587-593 | the closed error, then a null-pointer error for a null text, then the option check's error; succeeds exactly when all pass, with template `nativeSQL(sql)` |
| Connections.Connection.SetReadOnly | src/main/java/gr/uoa/di/madgik/elastic/JdbcConnection.java:300-302 | only the open check |
| Connections.Connection.IsReadOnly | src/main/java/gr/uoa/di/madgik/elastic/JdbcConnection.java:311-314 | true when open |
| Connections.Connection.GetTransactionIsolation | src/main/java/gr/uoa/di/madgik/elastic/JdbcConnection.java:407-410 | no transactions, when open |
| Connections.Connection.GetWarnings | src/main/java/gr/uoa/di/madgik/elastic/JdbcConnection.java:348-351 | always throws "getWarnings() not implemented" when open |
| Connections.Connection.GetAutoCommit | src/main/java/gr/uoa/di/madgik/elastic/JdbcConnection.java:234-243 | always true for a valid connection (also lines 33) |
| Connections.Connection.SetCatalog | src/main/java/gr/uoa/di/madgik/elastic/JdbcConnection.java:323-326 | the closed error exactly when closed, catalog unchanged; else stores the catalog; nothing else changes |
| Connections.Connection.GetCatalog | src/main/java/gr/uoa/di/madgik/elastic/JdbcConnection.java:335-338 | the stored catalog, initially null |
| Connections.CatalogRoundTrip | src/main/java/gr/uoa/di/madgik/elastic/JdbcConnection.java:323-338 | `setCatalog` then `getCatalog` returns the value |
| Connections.Connection.SetTypeMap | src/main/java/gr/uoa/di/madgik/elastic/JdbcConnection.java:462-465 | the closed error exactly when closed, map unchanged; else stores the map (null included); nothing else changes |
| Connections.Connection.GetTypeMap | src/main/java/gr/uoa/di/madgik/elastic/JdbcConnection.java:448-451 | the stored map |
| Connections.Connection.SetHoldability | src/main/java/gr/uoa/di/madgik/elastic/JdbcConnection.java:421-427 | the closed error when closed; else accepts only hold-over-commit and throws a feature error otherwise; on a valid connection the holdability never changes |
| Connections.Connection.GetHoldability | src/main/java/gr/uoa/di/madgik/elastic/JdbcConnection.java:436-439 | hold-over-commit for a valid connection (also lines 35) |
| Connections.Connection.UnsupportedCall | src/main/java/gr/uoa/di/madgik/elastic/JdbcConnection.java:532-560 | always throws: the closed error, else the operation's refusal message |
| Drivers.PrefixedUrlHost | src/main/java/gr/uoa/di/madgik/elastic/Driver.java:12-38 | every accepted URL yields a host: the text after the prefix, `http://`-prefixed unless it starts with `http` |
| Drivers.Driver.AcceptsUrl | src/main/java/gr/uoa/di/madgik/elastic/Driver.java:52-60 | throws "Url is null" for null; else true iff the URL starts with `jdbc:elastic://` |
| Drivers.Driver.Connect | src/main/java/gr/uoa/di/madgik/elastic/Driver.java:34-42 | throws for null; no connection iff the prefix is missing; else a valid connection to the URL's host |
| Drivers.Driver.GetPropertyInfo | src/main/java/gr/uoa/di/madgik/elastic/Driver.java:63-65 | no properties |
| Drivers.Driver.GetMajorVersion | src/main/java/gr/uoa/di/madgik/elastic/Driver.java:68-70 | the major version is 1 |
| Drivers.Driver.GetMinorVersion | src/main/java/gr/uoa/di/madgik/elastic/Driver.java:73-75 | the minor version is 0 |
| Drivers.Driver.JdbcCompliant | src/main/java/gr/uoa/di/madgik/elastic/Driver.java:78-80 | the driver does not claim JDBC compliance |
| Drivers.Registry.Register | src/main/java/gr/uoa/di/madgik/elastic/Driver.java:87-94 | registers iff not registered, else throws "already registered"; registered afterwards |
| Drivers.Registry.Deregister | src/main/java/gr/uoa/di/madgik/elastic/Driver.java:96-103 | deregisters iff registered, else throws "not registered"; unregistered afterwards |
| Drivers.Registry.IsRegistered | src/main/java/gr/uoa/di/madgik/elastic/Driver.java:105-107 | true exactly when the class-level field holds a driver |
| Drivers.RegisterThenDeregister | src/main/java/gr/uoa/di/madgik/elastic/Driver.java:87-107 | register, register again (refused), deregister: back to unregistered |
| Columns.ResultSetColumns.Get | src/main/java/gr/uoa/di/madgik/elastic/ResultSetColumns.java:36-42 | succeeds iff 1 <= index <= list length, answering element index-1 (possibly a null descriptor); "Index out of bounds" otherwise; a null list throws a null-pointer error |
| Columns.Empty | src/main/java/gr/uoa/di/madgik/elastic/ResultSetColumns.java:17-20 | size 0, empty names, every lookup out of bounds |
| Columns.FromArray | src/main/java/gr/uoa/di/madgik/elastic/ResultSetColumns.java:22-26 | a null array or a null descriptor throws a null-pointer error; otherwise size is the array length, names are the columns' names in order, and lookups succeed exactly for 1..size |
| Columns.FromList | src/main/java/gr/uoa/di/madgik/elastic/ResultSetColumns.java:28-30 | keeps the list as given (null, or holding null descriptors, included), size 0, names null |
| Columns.ListSizeDisagrees | src/main/java/gr/uoa/di/madgik/elastic/ResultSetColumns.java:15-37 | for a non-empty list, size is 0 while `get(1)` succeeds, even on a null descriptor |
| Columns.ArrayColumnsAgree | src/main/java/gr/uoa/di/madgik/elastic/ResultSetColumns.java:22-42 | for an array without nulls, `get(index)` answers element index-1 and the recorded name is that element's name |
| MetaData.ResultSetMetaData.CheckRsColumns | src/main/java/gr/uoa/di/madgik/elastic/JdbcResultSetMetaData.java:20-24 | fails with "Columns not initialized" iff there is no columns object or its list is null |
| MetaData.ResultSetMetaData.GetColumnCount | src/main/java/gr/uoa/di/madgik/elastic/JdbcResultSetMetaData.java:26-30 | the recorded size |
| MetaData.ResultSetMetaData.GetColumnName | src/main/java/gr/uoa/di/madgik/elastic/JdbcResultSetMetaData.java:80-84 | the column's type string, never its name, for a non-null descriptor in 1..list length; "Index out of bounds" outside it; a null-pointer error for a null descriptor; "Columns not initialized" without columns (`NameAnswer`) |
| MetaData.ResultSetMetaData.GetColumnLabel | src/main/java/gr/uoa/di/madgik/elastic/JdbcResultSetMetaData.java:74-78 | the same source body as `getColumnName`, so the same answer: the column's type string for a non-null descriptor in 1..list length; "Index out of bounds" outside it; a null-pointer error for a null descriptor; "Columns not initialized" without columns (`NameAnswer`) |
| MetaData.ResultSetMetaData.GetColumnTypeName | src/main/java/gr/uoa/di/madgik/elastic/JdbcResultSetMetaData.java:122-126 | the same source body as `getColumnName`, so the same answer: the column's type string for a non-null descriptor in 1..list length; "Index out of bounds" outside it; a null-pointer error for a null descriptor; "Columns not initialized" without columns (`NameAnswer`) |
| MetaData.ResultSetMetaData.Is | src/main/java/gr/uoa/di/madgik/elastic/JdbcResultSetMetaData.java:32-56 | case-sensitive, searchable and read-only hold, the others do not, for any column index (also lines 62-66, 128-144) |
| MetaData.ResultSetMetaData.IsNullable | src/main/java/gr/uoa/di/madgik/elastic/JdbcResultSetMetaData.java:56-60 | nullability unknown |
| MetaData.ResultSetMetaData.GetColumnDisplaySize | src/main/java/gr/uoa/di/madgik/elastic/JdbcResultSetMetaData.java:68-72 | 0 |
| MetaData.ResultSetMetaData.UnsupportedQuery | src/main/java/gr/uoa/di/madgik/elastic/JdbcResultSetMetaData.java:86-120 | throws "Columns not initialized" before initialisation, "Unsupported Operation" after (also lines 146-150) |
| MetaData.UninitializedMetaData | src/main/java/gr/uoa/di/madgik/elastic/JdbcResultSetMetaData.java:13-24 | with the no-argument constructor every query throws "Columns not initialized" |
| MetaData.ArrayMetaDataAgrees | src/main/java/gr/uoa/di/madgik/elastic/JdbcResultSetMetaData.java:26-30 | over array-built columns, names are answered exactly for 1..count (also lines 80-84) |
| MetaData.ListMetaDataDisagrees | src/main/java/gr/uoa/di/madgik/elastic/JdbcResultSetMetaData.java:26-30 | over list-built columns the count is 0 while column 1 is answered, or throws a null-pointer error when it is a null descriptor (also lines 80-84) |
| Sql.ColumnInfo.constructor | src/main/java/gr/uoa/di/madgik/elastic/sql/ColumnInfo.java:8-9 | a new column with null name and type |
| Sql.ColumnInfo.WithNameAndType | src/main/java/gr/uoa/di/madgik/elastic/sql/ColumnInfo.java:11-12 | ignores its arguments: name and type stay null |
| Sql.ColumnInfo.SetName | src/main/java/gr/uoa/di/madgik/elastic/sql/ColumnInfo.java:14-20 | sets the name, keeps the type, returns the same object |
| Sql.ColumnInfo.SetType | src/main/java/gr/uoa/di/madgik/elastic/sql/ColumnInfo.java:23-30 | sets the type, keeps the name, returns the same object |
| Sql.ColumnInfo.GetName | src/main/java/gr/uoa/di/madgik/elastic/sql/ColumnInfo.java:14-16 | the stored name, null included |
| Sql.ColumnInfo.GetType | src/main/java/gr/uoa/di/madgik/elastic/sql/ColumnInfo.java:23-25 | the stored type string, null included |
| Sql.BuildColumn | src/main/java/gr/uoa/di/madgik/elastic/sql/ColumnInfo.java:8-30 | chained setters on a new object leave both values in that object |
| Sql.SqlResponseResults.constructor | src/main/java/gr/uoa/di/madgik/elastic/sql/SqlResponseResults.java:7-11 | null columns and rows |
| Sql.SqlResponseResults.SetColumns | src/main/java/gr/uoa/di/madgik/elastic/sql/SqlResponseResults.java:13-20 | sets the columns, keeps the rows, returns the same object |
| Sql.SqlResponseResults.SetRows | src/main/java/gr/uoa/di/madgik/elastic/sql/SqlResponseResults.java:22-29 | sets the rows, keeps the columns, returns the same object |
| Sql.SqlResponseResults.GetColumns | src/main/java/gr/uoa/di/madgik/elastic/sql/SqlResponseResults.java:13-15 | the stored column list, null included, and null descriptors in it |
| Sql.SqlResponseResults.GetRows | src/main/java/gr/uoa/di/madgik/elastic/sql/SqlResponseResults.java:22-24 | the stored rows, null included, and null rows in it |

## Left out

- Connections.Connection.SetTypeMap: Java stores the caller's `Map` object, and `getTypeMap` hands back that same object, so later writes through either reference change the connection's map. The model stores the map's entries as a value at the time of the call, so that aliasing is not captured. The same holds for Connections.Connection.GetTypeMap.
- Sql.SqlResponseResults.SetColumns: Java stores the caller's `List` object, and `getColumns` hands back that same object, so later writes through either reference change the response. The model stores the list's elements as a value, so that aliasing is not captured; the descriptors themselves are shared objects. The same holds for Sql.SqlResponseResults.SetRows and the row lists.
- Sql.Cell: a row value is narrowed to a JSON scalar (null, boolean, number text, string). The source's `Object` cells may also be nested lists or maps, which are not modelled.
- The HTTP exchange and `JdbcResultSet`. The request and the building of the result set are the `server` parameter. Rows, the cursor and `getMetaData()` on a result set are not part of this model. So `PreparedStatement.getMetaData()` is left out too.
- Building the Elasticsearch client: credentials, TLS and host parsing by `HttpHost.create`. A URL with `//` is assumed to give a client. `RestClient.close()` is assumed not to throw.
- The connection lock: `lock`/`unlock`, and `setAutoCommit`. The latter releases a lock it never took. These are concurrency. Without them, auto-commit simply stays on.
- `isValid`, `getClientInfo` and `setClientInfo`. They query the client's nodes or use `ClientInfoStatus`, which are library calls.
- `DriverManager` registration and the class initialiser of `Driver`. Only the static `driver` field is modelled, by `Registry`. `getParentLogger` and all logging are left out.
- `unwrap`/`isWrapperFor`, which rely on Java reflection.
- `setFloat`, `setDouble`, `setBigDecimal` and `setObject(i, x, type)`. The `String.valueOf` text of these values is taken as an input (`SetValueOf`), not computed. The text of a timestamp's instant is an input too (`SetTimestamp`). For `setObject(i, x)`, the text of `x` is likewise an input.
- Translator.Substitute: `replaceFirst` is modelled as literal replacement. Java would read `$` and `\` in a bound text as group references and escapes, so the model assumes bound texts contain neither.
- Columns.FromArray: `Arrays.asList` is a view of the caller's array. The model takes a snapshot of the array's elements, so later writes into the array are not seen. The column objects themselves are shared.
- Parameter positions and row limits are unbounded integers. Java `int` positions cannot exceed 2^31-1, which no map of bindings reaches.
- The long tail of "Unsupported Operation" methods is collapsed into one `UnsupportedCall` per class. The same is done for the metadata (`UnsupportedQuery`).
