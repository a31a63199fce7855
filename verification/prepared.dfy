/** The prepared statement (JdbcPreparedStatement): a statement plus the
    SQL template and the map from 1-based parameter positions to the
    literal text bound there. `executeQuery()` splices the bound texts into
    the template, one `?` at a time, handles a trailing `GROUP BY`, and runs
    the result as a plain query. The statement part is held by composition
    where the source inherits it. */
module Prepared {
  import opened Common
  import opened Text
  import opened Literals
  import opened Translator
  import opened Statements

  /** The error `executeQuery()` throws for these inputs, or `None` when it
      answers a result set. A null template (`sql` is `None`) throws a
      null-pointer error at its first use, whatever the bindings. */
  function QueryError(closed: bool, sql: Option<string>, params: map<int, string>, server: Server): (e: Option<Error>)
    ensures closed ==> e == Some(ClosedError)
    ensures !closed && sql.None? ==> e == Some(NullPointer)
    ensures !closed && !Gapless(params) ==> e == Some(NullPointer)
    ensures !closed && sql.Some? && Gapless(params) && GroupByMissing(sql.value, params) ==> e == Some(IndexOutOfBounds)
    ensures !closed && sql.Some? && Translate(sql.value, params).Success? ==>
      (e.None? <==> server(RequestBody(Translate(sql.value, params).value)).Some?)
    ensures !closed && sql.Some? && Translate(sql.value, params).Success? && e.Some? ==>
      e.value == SqlError("Error executing sql query: " + Translate(sql.value, params).value)
  {
    if closed then Some(ClosedError)
    else match sql
      case None => Some(NullPointer)
      case Some(text) =>
        match Translate(text, params)
        case Failure(err) => Some(err)
        case Success(query) =>
          if server(RequestBody(query)).None? then Some(SqlError("Error executing sql query: " + query)) else None
  }

  /** The substitution loop of `executeQuery()`: positions 1..size in
      order, each bound text replacing the first remaining `?`; a missing
      position reads null and throws. */
  method BindAll(sql: string, parameters: map<int, string>) returns (r: Result<string>)
    ensures r.Failure? <==> !Gapless(parameters)
    ensures r.Failure? ==> r.error == NullPointer
    ensures r.Success? ==> r.value == SubstituteAll(sql, Values(parameters, |parameters|))
  {
    var translated := sql;
    var i := 1;
    while i <= |parameters|
      invariant 1 <= i <= |parameters| + 1
      invariant BoundUpTo(parameters, i - 1)
      invariant translated == SubstituteAll(sql, Values(parameters, i - 1))
    {
      if i !in parameters {
        return Failure(NullPointer);
      }
      BoundUpToStep(parameters, i - 1);
      SubstituteAllSnoc(sql, Values(parameters, i - 1), parameters[i]);
      translated := Substitute(translated, parameters[i]);
      i := i + 1;
    }
    assert Gapless(parameters);
    r := Success(translated);
  }

  class PreparedStatement {
    const statement: Statement
    /** The template; `None` when a null text was given. */
    const sql: Option<string>
    var parameters: map<int, string>

    /** The two-argument constructor: an open statement, no bindings. */
    constructor (connection: object, sql: Option<string>)
      ensures fresh(statement) && statement.connection == connection
      ensures !statement.closed && statement.resultSet == null && statement.maxRows == 0
      ensures this.sql == sql && parameters == map[]
    {
      statement := new Statement(connection);
      this.sql := sql;
      parameters := map[];
    }

    constructor FromStatement(statement: Statement, sql: Option<string>)
      ensures this.statement == statement && this.sql == sql && parameters == map[]
    {
      this.statement := statement;
      this.sql := sql;
      parameters := map[];
    }

    /** The five-argument constructor: the statement's option check decides. */
    static method Create(connection: object, sql: Option<string>, rsType: int, rsConcurrency: int, rsHoldability: int)
      returns (r: Result<PreparedStatement>)
      ensures r.Success? <==> ValidateOptions(rsType, rsConcurrency, rsHoldability).Pass?
      ensures r.Failure? ==> r.error == ValidateOptions(rsType, rsConcurrency, rsHoldability).error
      ensures r.Success? ==> fresh(r.value) && fresh(r.value.statement)
      ensures r.Success? ==> r.value.statement.connection == connection && !r.value.statement.closed
      ensures r.Success? ==> r.value.sql == sql && r.value.parameters == map[]
    {
      var s := Statement.Create(connection, rsType, rsConcurrency, rsHoldability);
      if s.Failure? {
        return Failure(s.error);
      }
      var p := new PreparedStatement.FromStatement(s.value, sql);
      return Success(p);
    }

    /** What every setter does: the open check, then store `text` at
        position `i`, replacing an earlier binding there. */
    method Bind(i: int, text: string) returns (r: Outcome)
      modifies this
      ensures r == statement.CheckClosed()
      ensures parameters == if statement.IsClosed() then old(parameters) else old(parameters)[i := text]
    {
      r := statement.CheckClosed();
      if r.Pass? {
        parameters := parameters[i := text];
      }
    }

    /** `setNull(i, sqlType)` binds the bare word `null`, which the
        translation does NOT treat as a NULL comparison. */
    method SetNull(i: int, sqlType: Int32) returns (r: Outcome)
      modifies this
      ensures r == statement.CheckClosed()
      ensures parameters == if statement.IsClosed() then old(parameters) else old(parameters)[i := NullText]
    {
      r := Bind(i, NullText);
    }

    /** `setBoolean(i, x)`: `true` or `false`. */
    method SetBoolean(i: int, x: bool) returns (r: Outcome)
      modifies this
      ensures r == statement.CheckClosed()
      ensures parameters == if statement.IsClosed() then old(parameters) else old(parameters)[i := BooleanText(x)]
    {
      r := Bind(i, BooleanText(x));
    }

    /** `setByte(i, x)`: the decimal text. */
    method SetByte(i: int, x: Int8) returns (r: Outcome)
      modifies this
      ensures r == statement.CheckClosed()
      ensures parameters == if statement.IsClosed() then old(parameters) else old(parameters)[i := DecimalText(x as int)]
    {
      r := Bind(i, DecimalText(x as int));
    }

    /** `setShort(i, x)`: the decimal text. */
    method SetShort(i: int, x: Int16) returns (r: Outcome)
      modifies this
      ensures r == statement.CheckClosed()
      ensures parameters == if statement.IsClosed() then old(parameters) else old(parameters)[i := DecimalText(x as int)]
    {
      r := Bind(i, DecimalText(x as int));
    }

    /** `setInt(i, x)`: the decimal text. */
    method SetInt(i: int, x: Int32) returns (r: Outcome)
      modifies this
      ensures r == statement.CheckClosed()
      ensures parameters == if statement.IsClosed() then old(parameters) else old(parameters)[i := DecimalText(x as int)]
    {
      r := Bind(i, DecimalText(x as int));
    }

    /** `setLong(i, x)`: the decimal text. */
    method SetLong(i: int, x: Int64) returns (r: Outcome)
      modifies this
      ensures r == statement.CheckClosed()
      ensures parameters == if statement.IsClosed() then old(parameters) else old(parameters)[i := DecimalText(x as int)]
    {
      r := Bind(i, DecimalText(x as int));
    }

    /** `setFloat`, `setDouble`, `setBigDecimal` and `setObject(i, x, type)`:
        the value's `String.valueOf` text, bound as it is (the text is an
        input here). */
    method SetValueOf(i: int, text: string) returns (r: Outcome)
      modifies this
      ensures r == statement.CheckClosed()
      ensures parameters == if statement.IsClosed() then old(parameters) else old(parameters)[i := text]
    {
      r := Bind(i, text);
    }

    /** `setDate(i, x)` and `setTime(i, x)`: after the open check the value
        is converted with `toInstant()`, which `java.sql.Date` and
        `java.sql.Time` do not support, so the call always throws and
        nothing is bound; the exception carries no message, written `""`.
        A null value throws a null-pointer error instead. `x` is the
        value's milliseconds since the epoch. */
    method SetDateOrTime(i: int, x: Option<Int64>) returns (r: Outcome)
      ensures r.Fail?
      ensures statement.IsClosed() ==> r.error == ClosedError
      ensures !statement.IsClosed() && x.None? ==> r.error == NullPointer
      ensures !statement.IsClosed() && x.Some? ==> r.error == Unsupported("")
    {
      r := statement.CheckClosed();
      if r.Pass? {
        r := if x.None? then Fail(NullPointer) else Fail(Unsupported(""));
      }
    }

    /** `setTimestamp(i, x)`: the text of `x.toInstant()` (an input here),
        or a null-pointer error for a null timestamp. */
    method SetTimestamp(i: int, x: Option<string>) returns (r: Outcome)
      modifies this
      ensures statement.IsClosed() ==> r == Fail(ClosedError) && parameters == old(parameters)
      ensures !statement.IsClosed() && x.None? ==> r == Fail(NullPointer) && parameters == old(parameters)
      ensures !statement.IsClosed() && x.Some? ==> r == Pass && parameters == old(parameters)[i := x.value]
    {
      r := statement.CheckClosed();
      if r.Pass? {
        if x.None? {
          r := Fail(NullPointer);
        } else {
          r := Bind(i, x.value);
        }
      }
    }

    /** `setString(i, x)`: the string in single quotes, without escaping;
        a null string binds `'null'`. */
    method SetString(i: int, x: Option<string>) returns (r: Outcome)
      modifies this
      ensures r == statement.CheckClosed()
      ensures parameters == if statement.IsClosed() then old(parameters) else old(parameters)[i := StringLiteral(x)]
    {
      r := Bind(i, StringLiteral(x));
    }

    /** `setBytes(i, x)`: the bracketed element list, or `null`. */
    method SetBytes(i: int, x: Option<seq<Int8>>) returns (r: Outcome)
      modifies this
      ensures r == statement.CheckClosed()
      ensures parameters == if statement.IsClosed() then old(parameters) else old(parameters)[i := BytesText(x)]
    {
      r := Bind(i, BytesText(x));
    }

    /** `setObject(i, x)`: the text of `x`, quoted unless it is an unsigned
        decimal number; `text` is `String.valueOf(x)`. */
    method SetObject(i: int, text: string) returns (r: Outcome)
      modifies this
      ensures r == statement.CheckClosed()
      ensures parameters == if statement.IsClosed() then old(parameters) else old(parameters)[i := ObjectLiteral(text)]
    {
      r := Bind(i, ObjectLiteral(text));
    }

    /** `setAsciiStream`, `setUnicodeStream` and `setBinaryStream` with an
        int length: the open check only; nothing is bound. */
    method SetStream(i: int, length: Int32) returns (r: Outcome)
      ensures r == statement.CheckClosed()
    {
      r := statement.CheckClosed();
    }

    /** `clearParameters()` */
    method ClearParameters() returns (r: Outcome)
      modifies this
      ensures r == statement.CheckClosed()
      ensures parameters == if statement.IsClosed() then old(parameters) else map[]
    {
      r := statement.CheckClosed();
      if r.Pass? {
        parameters := map[];
      }
    }

    /** `executeQuery()`: the open check; the substitution loop over
        positions 1..size (a missing position throws); the `GROUP BY`
        handling; then the statement's `executeQuery` on the result. */
    method ExecuteQuery(server: Server) returns (r: Result<ResultSet>)
      modifies statement
      ensures statement.closed == old(statement.closed) && statement.maxRows == old(statement.maxRows)
      ensures statement.closeOnCompletion == old(statement.closeOnCompletion)
      ensures r.Failure? <==> QueryError(old(statement.closed), sql, parameters, server).Some?
      ensures r.Failure? ==> r.error == QueryError(old(statement.closed), sql, parameters, server).value
      ensures r.Failure? ==> statement.resultSet == old(statement.resultSet)
      ensures r.Success? ==> r.value == statement.resultSet && fresh(r.value) && !r.value.closed
      ensures r.Success? ==> sql.Some? && Translate(sql.value, parameters).Success?
      ensures r.Success? ==> r.value.response == server(RequestBody(Translate(sql.value, parameters).value)).value
    {
      var check := statement.CheckClosed();
      if check.Fail? {
        return Failure(check.error);
      }
      if sql.None? {
        return Failure(NullPointer);
      }
      var translated := BindAll(sql.value, parameters);
      if translated.Failure? {
        return Failure(translated.error);
      }
      var stripped := StripGroupBy(translated.value);
      if stripped.Failure? {
        return Failure(stripped.error);
      }
      r := statement.ExecuteQuery(stripped.value, server);
    }

    /** `execute()`: `executeQuery()`, then whether a result set is held,
        which after a successful query is always true. */
    method Execute(server: Server) returns (r: Result<bool>)
      modifies statement
      ensures statement.closed == old(statement.closed) && statement.maxRows == old(statement.maxRows)
      ensures r.Failure? <==> QueryError(old(statement.closed), sql, parameters, server).Some?
      ensures r.Failure? ==> r.error == QueryError(old(statement.closed), sql, parameters, server).value
      ensures statement.closeOnCompletion == old(statement.closeOnCompletion)
      ensures r.Failure? ==> statement.resultSet == old(statement.resultSet)
      ensures r.Success? ==> r.value
      ensures r.Success? ==> fresh(statement.resultSet) && !statement.resultSet.closed
      ensures r.Success? ==> sql.Some? && Translate(sql.value, parameters).Success?
      ensures r.Success? ==> statement.resultSet.response == server(RequestBody(Translate(sql.value, parameters).value)).value
    {
      var query := ExecuteQuery(server);
      if query.Failure? {
        return Failure(query.error);
      }
      var held := statement.GetResultSet();
      r := Success(held.value != null);
    }

    /** `executeUpdate()`, `addBatch()`, the Calendar and typed-name
        setters, the stream setters with a long length or none, the reader,
        LOB, array, ref, URL, row-id and XML setters, `setNString`,
        `setObject` with a scale and `getParameterMetaData()`: the open
        check, then unsupported. */
    function UnsupportedCall(): (r: Outcome)
      reads statement
      ensures r.Fail?
      ensures r.error == if statement.IsClosed() then ClosedError else UnsupportedOperation
    {
      statement.UnsupportedCall()
    }
  }
}
