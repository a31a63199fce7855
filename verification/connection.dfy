/** The connection (JdbcConnection): it turns the JDBC URL into the HTTP
    host of the Elasticsearch client, hands out statements and prepared
    statements, rewrites SQL through `nativeSQL`, and keeps a little
    session state (catalog, type map, holdability). */
module Connections {
  import opened Common
  import opened Text
  import opened Statements
  import opened Prepared

  /** The HTTP client the connection owns. Only its host and whether it
      has been closed are modelled. */
  class RestClient {
    const host: string
    var open: bool

    constructor (host: string)
      ensures this.host == host && open
    {
      this.host := host;
      open := true;
    }

    method Close()
      modifies this
      ensures !open
    {
      open := false;
    }
  }

  const ConnectionClosed: Error := SqlError("Connection has been closed.")

  /** What the connection's exception converter throws: an SQL exception
      with an empty message wrapping the cause. */
  const Converted: Error := SqlError("")

  const UrlSeparator: string := "//"

  /** Lines 49-50 of the connection constructor: the text after the first
      `//` of the URL, with `http://` put in front unless it already starts
      with `http`. A URL without `//` has no second part to read. */
  function HostString(url: string): (r: Result<string>)
    ensures r.Failure? <==> NoneBefore(url, UrlSeparator, |url| + 1)
    ensures r.Failure? ==> r.error == IndexOutOfBounds
    ensures r.Success? ==> StartsWith(r.value, "http")
  {
    var parts := SplitFirst(url, UrlSeparator);
    if |parts| < 2 then Failure(IndexOutOfBounds)
    else
      var rest := parts[1];
      if StartsWith(rest, "http") then Success(rest)
      else
        assert ("http://" + rest)[..4] == "http";
        Success("http://" + rest)
  }

  /** For a URL whose first `//` follows `scheme`, the host is the rest of
      the URL, prefixed with `http://` when it does not already start with
      `http`. */
  lemma HostStringAt(scheme: string, rest: string)
    requires NoneBefore(scheme + UrlSeparator + rest, UrlSeparator, |scheme|)
    ensures HostString(scheme + UrlSeparator + rest) ==
      Success(if StartsWith(rest, "http") then rest else "http://" + rest)
  {
    var url := scheme + UrlSeparator + rest;
    assert OccursAt(url, UrlSeparator, |scheme|);
    var parts := SplitFirst(url, UrlSeparator);
    assert |parts[0]| == |scheme|;
    assert parts[1] == url[|scheme| + 2..] == rest;
  }

  /** A scheme without `/` cannot hold the first `//`. */
  lemma SlashFreeScheme(scheme: string, rest: string)
    requires '/' !in scheme
    ensures NoneBefore(scheme + UrlSeparator + rest, UrlSeparator, |scheme|)
  {
    var url := scheme + UrlSeparator + rest;
    forall j | 0 <= j < |scheme|
      ensures !OccursAt(url, UrlSeparator, j)
    {
      assert url[j] == scheme[j];
    }
  }

  /** The `http` test is a bare prefix test: a host name that merely begins
      with those letters gets no scheme. */
  lemma HttpLikeHostKept(scheme: string, host: string)
    requires NoneBefore(scheme + UrlSeparator + "http" + host, UrlSeparator, |scheme|)
    ensures HostString(scheme + UrlSeparator + "http" + host) == Success("http" + host)
  {
    assert scheme + UrlSeparator + "http" + host == scheme + UrlSeparator + ("http" + host);
    HostStringAt(scheme, "http" + host);
  }

  /** `nativeSQL`'s rewrite: drop one trailing `;`. */
  function NativeSqlText(sql: string): (r: string)
    ensures EndsWith(sql, ";") ==> r + ";" == sql
    ensures !EndsWith(sql, ";") ==> r == sql
  {
    if EndsWith(sql, ";") then sql[..|sql| - 1] else sql
  }

  /** Applying the rewrite twice changes nothing more exactly when the text
      does not end in `;;`: only one terminator is removed per call. */
  lemma NativeSqlIdempotence(sql: string)
    ensures NativeSqlText(NativeSqlText(sql)) == NativeSqlText(sql) <==> !EndsWith(sql, ";;")
  {
    var once := NativeSqlText(sql);
    if EndsWith(sql, ";;") {
      assert once == sql[..|sql| - 1];
      assert EndsWith(once, ";");
      assert |NativeSqlText(once)| < |once|;
    } else if EndsWith(sql, ";") {
      assert once == sql[..|sql| - 1];
      assert |sql| >= 2 ==> sql[|sql| - 2..] == [sql[|sql| - 2], ';'];
      assert !EndsWith(once, ";");
    }
  }

  /** The operations that refuse with a dedicated message. */
  datatype Refusal = Generic | Savepoints | Rollbacks

  function RefusalError(k: Refusal): Error {
    match k
    case Generic => UnsupportedOperation
    case Savepoints => Unsupported("Savepoint not supported")
    case Rollbacks => Unsupported("Rollbacks not supported")
  }

  class Connection {
    const client: RestClient?
    var typeMap: Option<map<string, string>>
    var catalog: Option<string>
    var autoCommit: bool
    var holdability: int

    /** What every connection satisfies between calls: the client is set
        once and never cleared, auto-commit is never switched off, and the
        only holdability ever stored is "hold over commit". */
    ghost predicate Valid()
      reads this
    {
      client != null && autoCommit && holdability == HOLD_CURSORS_OVER_COMMIT
    }

    constructor Make(host: string)
      ensures Valid() && fresh(client) && client.host == host && client.open
      ensures catalog == None && typeMap == Some(map[])
    {
      client := new RestClient(host);
      typeMap := Some(map[]);
      catalog := None;
      autoCommit := true;
      holdability := HOLD_CURSORS_OVER_COMMIT;
    }

    /** The public constructor: a null property set or a URL without `//`
        is converted to an SQL exception; otherwise the client points at
        the URL's host. */
    static method Open(url: string, properties: Option<map<string, string>>) returns (r: Result<Connection>)
      ensures r.Success? <==> properties.Some? && HostString(url).Success?
      ensures r.Failure? ==> r.error == Converted
      ensures r.Success? ==> fresh(r.value) && fresh(r.value.client) && r.value.Valid()
      ensures r.Success? ==> r.value.client.host == HostString(url).value
      ensures r.Success? ==> r.value.catalog == None && r.value.typeMap == Some(map[])
    {
      if properties.None? {
        return Failure(Converted);
      }
      var host := HostString(url);
      if host.Failure? {
        return Failure(Converted);
      }
      var c := new Connection.Make(host.value);
      return Success(c);
    }

    /** `isClosed()`: whether the client is null, which it never is. */
    function IsClosed(): (b: bool)
      reads this
      ensures Valid() ==> !b
    {
      client == null
    }

    /** `checkClosed()` */
    function CheckClosed(): (r: Outcome)
      reads this
      ensures r.Fail? <==> IsClosed()
      ensures r.Fail? ==> r.error == ConnectionClosed
    {
      if client == null then Fail(ConnectionClosed) else Pass
    }

    /** `close()`: closes the client but keeps it, so the connection still
        reports itself open and keeps handing out statements. */
    method Close() returns (r: Outcome)
      requires Valid()
      modifies client
      ensures r == Pass && Valid() && !client.open
      ensures !IsClosed()
    {
      client.Close();
      r := Pass;
    }

    /** `createStatement()` */
    method CreateStatement() returns (r: Result<Statement>)
      ensures r.Success? <==> !IsClosed()
      ensures r.Failure? ==> r.error == ConnectionClosed
      ensures r.Success? ==> fresh(r.value) && r.value.connection == this
      ensures r.Success? ==> !r.value.closed && r.value.resultSet == null && r.value.maxRows == 0
    {
      var check := CheckClosed();
      if check.Fail? {
        return Failure(check.error);
      }
      var s := new Statement(this);
      return Success(s);
    }

    /** `createStatement(type, concurrency)`: the statement's option check
        with holdability "close at commit", which that check accepts. */
    method CreateStatementWith(rsType: int, rsConcurrency: int) returns (r: Result<Statement>)
      ensures r.Success? <==> !IsClosed() && rsType == TYPE_FORWARD_ONLY && rsConcurrency == CONCUR_READ_ONLY
      ensures IsClosed() ==> r == Failure(ConnectionClosed)
      ensures !IsClosed() && r.Failure? ==> r.error == ValidateOptions(rsType, rsConcurrency, CLOSE_CURSORS_AT_COMMIT).error
      ensures r.Success? ==> fresh(r.value) && r.value.connection == this && !r.value.closed
    {
      var check := CheckClosed();
      if check.Fail? {
        return Failure(check.error);
      }
      r := Statement.Create(this, rsType, rsConcurrency, CLOSE_CURSORS_AT_COMMIT);
    }

    /** `createStatement(type, concurrency, holdability)` */
    method CreateStatementWithHoldability(rsType: int, rsConcurrency: int, rsHoldability: int)
      returns (r: Result<Statement>)
      ensures r.Success? <==> !IsClosed() && ValidateOptions(rsType, rsConcurrency, rsHoldability).Pass?
      ensures IsClosed() ==> r == Failure(ConnectionClosed)
      ensures !IsClosed() && r.Failure? ==> r.error == ValidateOptions(rsType, rsConcurrency, rsHoldability).error
      ensures r.Success? ==> fresh(r.value) && r.value.connection == this && !r.value.closed
    {
      var check := CheckClosed();
      if check.Fail? {
        return Failure(check.error);
      }
      r := Statement.Create(this, rsType, rsConcurrency, rsHoldability);
    }

    /** `nativeSQL(sql)`: a null text throws when its end is tested. */
    function NativeSql(sql: Option<string>): (r: Result<string>)
      reads this
      ensures r.Success? <==> !IsClosed() && sql.Some?
      ensures IsClosed() ==> r == Failure(ConnectionClosed)
      ensures !IsClosed() && sql.None? ==> r == Failure(NullPointer)
      ensures r.Success? ==> r.value == NativeSqlText(sql.value)
    {
      if client == null then Failure(ConnectionClosed)
      else match sql
        case None => Failure(NullPointer)
        case Some(text) => Success(NativeSqlText(text))
    }

    /** `prepareStatement(sql)`: the template is the `nativeSQL` text, so a
        null text throws before any statement is built. */
    method PrepareStatement(sql: Option<string>) returns (r: Result<PreparedStatement>)
      ensures r.Success? <==> !IsClosed() && sql.Some?
      ensures IsClosed() ==> r == Failure(ConnectionClosed)
      ensures !IsClosed() && sql.None? ==> r == Failure(NullPointer)
      ensures r.Success? ==> fresh(r.value) && fresh(r.value.statement) && r.value.statement.connection == this
      ensures r.Success? ==> r.value.sql == Some(NativeSqlText(sql.value)) && r.value.parameters == map[]
      ensures r.Success? ==> !r.value.statement.closed
    {
      var text := NativeSql(sql);
      if text.Failure? {
        return Failure(text.error);
      }
      var p := new PreparedStatement(this, Some(text.value));
      return Success(p);
    }

    /** `prepareStatement(sql, type, concurrency)` passes the connection's
        own holdability, "hold over commit", to an option check that only
        accepts "close at commit": this overload always throws, with a
        null-pointer error first for a null text. (Every connection has
        that holdability: see `Valid`.) */
    method PrepareStatementWith(sql: Option<string>, rsType: int, rsConcurrency: int) returns (r: Result<PreparedStatement>)
      requires holdability == HOLD_CURSORS_OVER_COMMIT
      ensures r.Failure?
      ensures IsClosed() ==> r.error == ConnectionClosed
      ensures !IsClosed() && sql.None? ==> r.error == NullPointer
      ensures !IsClosed() && sql.Some? && rsType == TYPE_FORWARD_ONLY && rsConcurrency == CONCUR_READ_ONLY ==>
        r.error == FeatureNotSupported("rsHoldability supports only ResultSet.CLOSE_CURSORS_AT_COMMIT")
      ensures !IsClosed() && sql.Some? ==> r.error == ValidateOptions(rsType, rsConcurrency, HOLD_CURSORS_OVER_COMMIT).error
    {
      var text := NativeSql(sql);
      if text.Failure? {
        return Failure(text.error);
      }
      r := PreparedStatement.Create(this, Some(text.value), rsType, rsConcurrency, holdability);
    }

    /** `prepareStatement(sql, type, concurrency, holdability)`: the open
        check, then `nativeSQL` (null throws), then the option check. */
    method PrepareStatementWithHoldability(sql: Option<string>, rsType: int, rsConcurrency: int, rsHoldability: int)
      returns (r: Result<PreparedStatement>)
      ensures r.Success? <==> !IsClosed() && sql.Some? && ValidateOptions(rsType, rsConcurrency, rsHoldability).Pass?
      ensures IsClosed() ==> r == Failure(ConnectionClosed)
      ensures !IsClosed() && sql.None? ==> r == Failure(NullPointer)
      ensures !IsClosed() && sql.Some? && r.Failure? ==>
        r.error == ValidateOptions(rsType, rsConcurrency, rsHoldability).error
      ensures r.Success? ==> fresh(r.value) && r.value.statement.connection == this
      ensures r.Success? ==> r.value.sql == Some(NativeSqlText(sql.value)) && r.value.parameters == map[]
    {
      var text := NativeSql(sql);
      if text.Failure? {
        return Failure(text.error);
      }
      r := PreparedStatement.Create(this, Some(text.value), rsType, rsConcurrency, rsHoldability);
    }

    /** `setReadOnly(readOnly)` and `clearWarnings()`: the open check only. */
    method SetReadOnly(readOnly: bool) returns (r: Outcome)
      ensures r == CheckClosed()
    {
      r := CheckClosed();
    }

    /** `isReadOnly()`: always read-only. */
    function IsReadOnly(): (r: Result<bool>)
      reads this
      ensures r.Failure? <==> IsClosed()
      ensures r.Success? ==> r.value
    {
      if client == null then Failure(ConnectionClosed) else Success(true)
    }

    /** `getTransactionIsolation()`: no transactions. */
    function GetTransactionIsolation(): (r: Result<int>)
      reads this
      ensures r.Failure? <==> IsClosed()
      ensures r.Success? ==> r.value == TRANSACTION_NONE
    {
      if client == null then Failure(ConnectionClosed) else Success(TRANSACTION_NONE)
    }

    /** `getWarnings()`: never implemented. */
    function GetWarnings(): (r: Outcome)
      reads this
      ensures r.Fail?
      ensures r.error == if IsClosed() then ConnectionClosed else FeatureNotSupported("getWarnings() not implemented")
    {
      if client == null then Fail(ConnectionClosed) else Fail(FeatureNotSupported("getWarnings() not implemented"))
    }

    /** `getAutoCommit()`: always on, since it is never switched off. */
    function GetAutoCommit(): (r: bool)
      reads this
      ensures Valid() ==> r
    {
      autoCommit
    }

    /** `setCatalog(c)`: the open check, then the catalog is stored. */
    method SetCatalog(c: Option<string>) returns (r: Outcome)
      modifies this
      ensures r.Fail? <==> IsClosed()
      ensures r.Fail? ==> r.error == ConnectionClosed
      ensures catalog == if IsClosed() then old(catalog) else c
      ensures typeMap == old(typeMap) && holdability == old(holdability) && autoCommit == old(autoCommit)
    {
      r := CheckClosed();
      if r.Pass? {
        catalog := c;
      }
    }

    /** `getCatalog()` */
    function GetCatalog(): (r: Result<Option<string>>)
      reads this
      ensures r.Failure? <==> IsClosed()
      ensures r.Success? ==> r.value == catalog
    {
      if client == null then Failure(ConnectionClosed) else Success(catalog)
    }

    /** `setTypeMap(m)`: the open check, then the map's current entries
        (or null) are stored. */
    method SetTypeMap(m: Option<map<string, string>>) returns (r: Outcome)
      modifies this
      ensures r.Fail? <==> IsClosed()
      ensures r.Fail? ==> r.error == ConnectionClosed
      ensures typeMap == if IsClosed() then old(typeMap) else m
      ensures catalog == old(catalog) && holdability == old(holdability) && autoCommit == old(autoCommit)
    {
      r := CheckClosed();
      if r.Pass? {
        typeMap := m;
      }
    }

    /** `getTypeMap()` */
    function GetTypeMap(): (r: Result<Option<map<string, string>>>)
      reads this
      ensures r.Failure? <==> IsClosed()
      ensures r.Success? ==> r.value == typeMap
    {
      if client == null then Failure(ConnectionClosed) else Success(typeMap)
    }

    /** `setHoldability(h)`: only "hold over commit" is accepted, so the
        stored holdability never changes. */
    method SetHoldability(h: int) returns (r: Outcome)
      modifies this
      ensures IsClosed() ==> r == Fail(ConnectionClosed)
      ensures !IsClosed() ==> (r.Pass? <==> h == HOLD_CURSORS_OVER_COMMIT)
      ensures !IsClosed() && r.Fail? ==> r.error == FeatureNotSupported("")
      ensures holdability == if r.Pass? then h else old(holdability)
      ensures old(Valid()) ==> Valid() && holdability == old(holdability)
      ensures catalog == old(catalog) && typeMap == old(typeMap) && autoCommit == old(autoCommit)
    {
      r := CheckClosed();
      if r.Fail? {
        return;
      }
      if h != HOLD_CURSORS_OVER_COMMIT {
        return Fail(FeatureNotSupported(""));
      }
      holdability := h;
    }

    /** `getHoldability()` */
    function GetHoldability(): (r: Result<int>)
      reads this
      ensures r.Failure? <==> IsClosed()
      ensures r.Success? ==> r.value == holdability
      ensures Valid() ==> r == Success(HOLD_CURSORS_OVER_COMMIT)
    {
      if client == null then Failure(ConnectionClosed) else Success(holdability)
    }

    /** The callable-statement, savepoint, LOB, struct, schema, abort,
        network-timeout, commit, rollback, metadata and keyed
        `prepareStatement` calls: the open check, then a refusal. */
    function UnsupportedCall(k: Refusal): (r: Outcome)
      reads this
      ensures r.Fail?
      ensures r.error == if IsClosed() then ConnectionClosed else RefusalError(k)
    {
      if client == null then Fail(ConnectionClosed) else Fail(RefusalError(k))
    }
  }

  /** Closing a connection does not stop it from handing out statements. */
  method StatementAfterClose(c: Connection) returns (r: Result<Statement>)
    requires c.Valid()
    modifies c.client
    ensures r.Success? && !c.client.open
  {
    var closed := c.Close();
    r := c.CreateStatement();
  }

  /** A catalog set on the connection reads back. */
  method CatalogRoundTrip(c: Connection, name: Option<string>) returns (r: Result<Option<string>>)
    requires c.Valid()
    modifies c
    ensures r == Success(name)
  {
    var set' := c.SetCatalog(name);
    r := c.GetCatalog();
  }
}
