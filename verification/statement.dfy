/** The plain statement (JdbcStatement): it sends each query to the
    Elasticsearch SQL endpoint as a JSON body, keeps the last result set,
    and answers the JDBC cursor questions with fixed values. Every member
    but `close` and `isClosed` first checks that the statement is open. */
module Statements {
  import opened Common
  import opened Text

  /** The SQL endpoint as seen from one request: the response body for a
      JSON request body, or `None` when sending the request or building the
      result set from the response throws. */
  type Server = string -> Option<string>

  /** A result set built from one response; its rows and cursor are not
      part of this model, only whether it has been closed. */
  class ResultSet {
    const response: string
    var closed: bool

    constructor (response: string)
      ensures this.response == response && !closed
    {
      this.response := response;
      closed := false;
    }

    method Close()
      modifies this
      ensures closed
    {
      closed := true;
    }
  }

  const ClosedError: Error := SqlError("This statement has been closed.")

  const RequestPrefix: string := "{\"query\": \""
  const RequestSuffix: string := "\"}"

  /** `String.format("{\"query\": \"%s\"}", sql)`: the query is pasted
      between the quotes as it is, without JSON escaping. */
  function RequestBody(sql: string): (body: string)
    ensures StartsWith(body, RequestPrefix) && EndsWith(body, RequestSuffix)
    ensures |body| == |RequestPrefix| + |sql| + |RequestSuffix|
  {
    RequestPrefix + sql + RequestSuffix
  }

  /** The query a request body carries, if it has the request's shape. */
  function QueryOf(body: string): (sql: Option<string>)
    ensures sql.Some? ==> RequestBody(sql.value) == body
  {
    if |body| >= |RequestPrefix| + |RequestSuffix| && StartsWith(body, RequestPrefix) && EndsWith(body, RequestSuffix)
    then
      var sql := body[|RequestPrefix|..|body| - |RequestSuffix|];
      assert body == body[..|RequestPrefix|] + sql + body[|body| - |RequestSuffix|..];
      Some(sql)
    else None
  }

  /** The query can be read back from the request body, so distinct queries
      send distinct bodies. */
  lemma RequestBodyRoundTrip(sql: string)
    ensures QueryOf(RequestBody(sql)) == Some(sql)
  {
    var body := RequestBody(sql);
    assert body[|RequestPrefix|..|body| - |RequestSuffix|] == sql;
  }

  /** The result-set options the four-argument constructor accepts, checked
      in the source's order: type, then concurrency, then holdability. */
  function ValidateOptions(rsType: int, rsConcurrency: int, rsHoldability: int): (r: Outcome)
    ensures r.Pass? <==>
      rsType == TYPE_FORWARD_ONLY && rsConcurrency == CONCUR_READ_ONLY && rsHoldability == CLOSE_CURSORS_AT_COMMIT
    ensures rsType != TYPE_FORWARD_ONLY ==>
      r == Fail(FeatureNotSupported("rsType supports only ResultSet.TYPE_FORWARD_ONLY"))
    ensures rsType == TYPE_FORWARD_ONLY && rsConcurrency != CONCUR_READ_ONLY ==>
      r == Fail(FeatureNotSupported("rsConcurrency supports only ResultSet.CONCUR_READ_ONLY"))
    ensures rsType == TYPE_FORWARD_ONLY && rsConcurrency == CONCUR_READ_ONLY && rsHoldability != CLOSE_CURSORS_AT_COMMIT ==>
      r == Fail(FeatureNotSupported("rsHoldability supports only ResultSet.CLOSE_CURSORS_AT_COMMIT"))
  {
    if rsType != TYPE_FORWARD_ONLY then
      Fail(FeatureNotSupported("rsType supports only ResultSet.TYPE_FORWARD_ONLY"))
    else if rsConcurrency != CONCUR_READ_ONLY then
      Fail(FeatureNotSupported("rsConcurrency supports only ResultSet.CONCUR_READ_ONLY"))
    else if rsHoldability != CLOSE_CURSORS_AT_COMMIT then
      Fail(FeatureNotSupported("rsHoldability supports only ResultSet.CLOSE_CURSORS_AT_COMMIT"))
    else Pass
  }

  /** The getters that answer a constant while the statement is open. */
  datatype FixedQuery =
    | MaxFieldSize | QueryTimeout | UpdateCount | FetchDirection | FetchSize
    | ResultSetConcurrency | ResultSetType | ResultSetHoldability

  class Statement {
    const connection: object
    var resultSet: ResultSet?
    var maxRows: Int64
    var closed: bool
    var closeOnCompletion: bool

    /** The one-argument constructor: open, no result set, no row limit. */
    constructor (connection: object)
      ensures this.connection == connection
      ensures resultSet == null && maxRows == 0 && !closed && !closeOnCompletion
    {
      this.connection := connection;
      resultSet := null;
      maxRows := 0;
      closed := false;
      closeOnCompletion := false;
    }

    /** The four-argument constructor: a statement exists only for a
        forward-only, read-only cursor closed at commit. */
    static method Create(connection: object, rsType: int, rsConcurrency: int, rsHoldability: int)
      returns (r: Result<Statement>)
      ensures r.Success? <==> ValidateOptions(rsType, rsConcurrency, rsHoldability).Pass?
      ensures r.Failure? ==> r.error == ValidateOptions(rsType, rsConcurrency, rsHoldability).error
      ensures r.Success? ==> fresh(r.value) && r.value.connection == connection
      ensures r.Success? ==> r.value.resultSet == null && r.value.maxRows == 0
      ensures r.Success? ==> !r.value.closed && !r.value.closeOnCompletion
    {
      var check := ValidateOptions(rsType, rsConcurrency, rsHoldability);
      if check.Fail? {
        return Failure(check.error);
      }
      var s := new Statement(connection);
      return Success(s);
    }

    /** `isClosed()`: whether `close()` has run. */
    function IsClosed(): (b: bool)
      reads this
      ensures b <==> closed
    {
      closed
    }

    /** `checkClosed()` */
    function CheckClosed(): (r: Outcome)
      reads this
      ensures r.Fail? <==> IsClosed()
      ensures r.Fail? ==> r.error == ClosedError
    {
      if closed then Fail(ClosedError) else Pass
    }

    /** `close()`: marks the statement closed before closing the result
        set, so a statement that never ran a query is closed even though
        the call throws; a second call does nothing. */
    method Close() returns (r: Outcome)
      modifies this, resultSet
      ensures IsClosed()
      ensures resultSet == old(resultSet) && maxRows == old(maxRows)
      ensures closeOnCompletion == old(closeOnCompletion)
      ensures old(closed) ==> r == Pass && (resultSet != null ==> resultSet.closed == old(resultSet.closed))
      ensures !old(closed) ==> r == if resultSet == null then Fail(NullPointer) else Pass
      ensures !old(closed) && resultSet != null ==> resultSet.closed
    {
      if closed {
        return Pass;
      }
      closed := true;
      if resultSet == null {
        return Fail(NullPointer);
      }
      resultSet.Close();
      r := Pass;
    }

    /** `execute(sql)`: sends the request body; on an answer, replaces the
        result set with a new one and answers true; if the exchange throws,
        keeps the old result set and answers false. */
    method Execute(sql: string, server: Server) returns (r: Result<bool>)
      modifies this
      ensures closed == old(closed) && maxRows == old(maxRows)
      ensures closeOnCompletion == old(closeOnCompletion)
      ensures old(closed) ==> r == Failure(ClosedError)
      ensures !old(closed) ==> r == Success(server(RequestBody(sql)).Some?)
      ensures r == Success(true) ==>
        fresh(resultSet) && resultSet.response == server(RequestBody(sql)).value && !resultSet.closed
      ensures r != Success(true) ==> resultSet == old(resultSet)
    {
      var check := CheckClosed();
      if check.Fail? {
        return Failure(check.error);
      }
      match server(RequestBody(sql))
      case None =>
        r := Success(false);
      case Some(response) =>
        resultSet := new ResultSet(response);
        r := Success(true);
    }

    /** `executeQuery(sql)`: `execute`, then the new result set; an
        unanswered query throws "Error executing sql query: " and the query. */
    method ExecuteQuery(sql: string, server: Server) returns (r: Result<ResultSet>)
      modifies this
      ensures closed == old(closed) && maxRows == old(maxRows)
      ensures closeOnCompletion == old(closeOnCompletion)
      ensures old(closed) ==> r == Failure(ClosedError)
      ensures !old(closed) && server(RequestBody(sql)).None? ==>
        r == Failure(SqlError("Error executing sql query: " + sql))
      ensures r.Success? <==> !old(closed) && server(RequestBody(sql)).Some?
      ensures r.Success? ==> r.value == resultSet && fresh(resultSet)
      ensures r.Success? ==> resultSet.response == server(RequestBody(sql)).value && !resultSet.closed
      ensures r.Failure? ==> resultSet == old(resultSet)
    {
      var executed := Execute(sql, server);
      match executed
      case Failure(e) =>
        r := Failure(e);
      case Success(answered) =>
        if !answered {
          return Failure(SqlError("Error executing sql query: " + sql));
        }
        r := Success(resultSet);
    }

    /** `getResultSet()` */
    function GetResultSet(): (r: Result<ResultSet?>)
      reads this
      ensures r.Failure? <==> IsClosed()
      ensures r.Success? ==> r.value == resultSet
    {
      if closed then Failure(ClosedError) else Success(resultSet)
    }

    /** `getMaxRows()`: the limit narrowed to an int; a limit set through
        `setLargeMaxRows` beyond the int range throws. */
    function GetMaxRows(): (r: Result<Int32>)
      reads this
      ensures IsClosed() ==> r == Failure(ClosedError)
      ensures !IsClosed() && !FitsInt32(maxRows as int) ==> r == Failure(Arithmetic)
      ensures r.Success? <==> !IsClosed() && FitsInt32(maxRows as int)
      ensures r.Success? ==> r.value as int == maxRows as int
    {
      if closed then Failure(ClosedError)
      else if !FitsInt32(maxRows as int) then Failure(Arithmetic)
      else Success(maxRows as int as Int32)
    }

    /** `getLargeMaxRows()` */
    function GetLargeMaxRows(): (r: Result<Int64>)
      reads this
      ensures r.Failure? <==> IsClosed()
      ensures r.Success? ==> r.value == maxRows
    {
      if closed then Failure(ClosedError) else Success(maxRows)
    }

    /** `setMaxRows(max)`: widens the int limit to a long. */
    method SetMaxRows(max: Int32) returns (r: Outcome)
      modifies this
      ensures r == old(CheckClosed())
      ensures maxRows == if old(closed) then old(maxRows) else max as int as Int64
      ensures closed == old(closed) && resultSet == old(resultSet)
      ensures closeOnCompletion == old(closeOnCompletion)
    {
      r := CheckClosed();
      if r.Pass? {
        maxRows := max as int as Int64;
      }
    }

    /** `setLargeMaxRows(max)` */
    method SetLargeMaxRows(max: Int64) returns (r: Outcome)
      modifies this
      ensures r == old(CheckClosed())
      ensures maxRows == if old(closed) then old(maxRows) else max
      ensures closed == old(closed) && resultSet == old(resultSet)
      ensures closeOnCompletion == old(closeOnCompletion)
    {
      r := CheckClosed();
      if r.Pass? {
        maxRows := max;
      }
    }

    /** `setEscapeProcessing(enable)`: only the open check; the flag is
        ignored. The source's other open-check-only setters coincide. */
    method SetEscapeProcessing(enable: bool) returns (r: Outcome)
      ensures r.Fail? <==> closed
      ensures r.Fail? ==> r.error == ClosedError
    {
      r := CheckClosed();
    }

    /** The constant getters: `getMaxFieldSize`, `getQueryTimeout` and
        `getFetchSize` answer 0, `getUpdateCount` -1 (no update count), and
        the cursor getters the only cursor kind supported. */
    function Get(q: FixedQuery): (r: Result<int>)
      reads this
      ensures r.Failure? <==> IsClosed()
      ensures r.Failure? ==> r.error == ClosedError
      ensures r.Success? && q.UpdateCount? ==> r.value == -1
      ensures r.Success? && (q.MaxFieldSize? || q.QueryTimeout? || q.FetchSize?) ==> r.value == 0
      ensures r.Success? && q.FetchDirection? ==> r.value == FETCH_FORWARD
      ensures r.Success? && q.ResultSetConcurrency? ==> r.value == CONCUR_READ_ONLY
      ensures r.Success? && q.ResultSetType? ==> r.value == TYPE_FORWARD_ONLY
      ensures r.Success? && q.ResultSetHoldability? ==> r.value == CLOSE_CURSORS_AT_COMMIT
    {
      if closed then Failure(ClosedError)
      else Success(match q
        case MaxFieldSize => 0
        case QueryTimeout => 0
        case UpdateCount => -1
        case FetchDirection => FETCH_FORWARD
        case FetchSize => 0
        case ResultSetConcurrency => CONCUR_READ_ONLY
        case ResultSetType => TYPE_FORWARD_ONLY
        case ResultSetHoldability => CLOSE_CURSORS_AT_COMMIT)
    }

    /** `getMoreResults()`: there is never a further result. */
    function GetMoreResults(): (r: Result<bool>)
      reads this
      ensures r.Failure? <==> IsClosed()
      ensures r.Success? ==> !r.value
    {
      if closed then Failure(ClosedError) else Success(false)
    }

    /** `isPoolable()`: never poolable. The source's method has the same
        body as `getMoreResults()`. */
    function IsPoolable(): (r: Result<bool>)
      reads this
      ensures r.Failure? <==> IsClosed()
      ensures r.Success? ==> !r.value
    {
      if closed then Failure(ClosedError) else Success(false)
    }

    /** `closeOnCompletion()`: records the request (nothing acts on it). */
    method CloseOnCompletion() returns (r: Outcome)
      modifies this
      ensures r == old(CheckClosed())
      ensures closeOnCompletion == (old(closeOnCompletion) || !old(closed))
      ensures closed == old(closed) && resultSet == old(resultSet) && maxRows == old(maxRows)
    {
      r := CheckClosed();
      if r.Pass? {
        closeOnCompletion := true;
      }
    }

    /** `isCloseOnCompletion()` */
    function IsCloseOnCompletion(): (r: Result<bool>)
      reads this
      ensures r.Failure? <==> IsClosed()
      ensures r.Success? ==> r.value == closeOnCompletion
    {
      if closed then Failure(ClosedError) else Success(closeOnCompletion)
    }

    /** `getConnection()`: the connection that created the statement. */
    function GetConnection(): (r: Result<object>)
      reads this
      ensures r.Failure? <==> IsClosed()
      ensures r.Success? ==> r.value == connection
    {
      if closed then Failure(ClosedError) else Success(connection)
    }

    /** `executeUpdate`, `setMaxFieldSize`, `setQueryTimeout`, `cancel`,
        `getWarnings`, `clearWarnings`, `setCursorName`, `setFetchDirection`,
        `setFetchSize`, the batch calls, `getMoreResults(current)`,
        `getGeneratedKeys`, the keyed `execute` and `executeUpdate`
        overloads and `setPoolable`: the open check, then unsupported. */
    function UnsupportedCall(): (r: Outcome)
      reads this
      ensures r.Fail?
      ensures r.error == if IsClosed() then ClosedError else UnsupportedOperation
    {
      if closed then Fail(ClosedError) else Fail(UnsupportedOperation)
    }
  }

  /** A limit set through `setMaxRows` reads back unchanged. */
  method MaxRowsRoundTrip(s: Statement, max: Int32) returns (r: Result<Int32>)
    requires !s.IsClosed()
    modifies s
    ensures r == Success(max)
  {
    var set' := s.SetMaxRows(max);
    r := s.GetMaxRows();
  }

  /** A limit set through `setLargeMaxRows` reads back through `getMaxRows`
      only when it fits in an int. */
  method LargeMaxRowsNarrowed(s: Statement, max: Int64) returns (r: Result<Int32>)
    requires !s.IsClosed()
    modifies s
    ensures FitsInt32(max as int) ==> r.Success? && r.value as int == max as int
    ensures !FitsInt32(max as int) ==> r == Failure(Arithmetic)
  {
    var set' := s.SetLargeMaxRows(max);
    r := s.GetMaxRows();
  }

  /** Once closed, every checked call throws the closed error and a second
      `close()` succeeds. */
  method ClosedStaysClosed(s: Statement, sql: string, server: Server) returns (r: Result<ResultSet>, again: Outcome)
    modifies s, s.resultSet
    ensures r == Failure(ClosedError) && again == Pass
    ensures s.IsClosed() && s.GetMaxRows() == Failure(ClosedError)
  {
    var first := s.Close();
    r := s.ExecuteQuery(sql, server);
    again := s.Close();
  }
}
