/** Result-set metadata (JdbcResultSetMetaData): every query first checks
    that the columns were given; the column count is the recorded size;
    name, label and type name all answer the column's TYPE string; the
    remaining flags are constants, and the rest throw. */
module MetaData {
  import opened Common
  import opened Sql
  import opened Columns

  const NotInitialized: Error := SqlError("Columns not initialized")

  /** The boolean column properties; each answers the same constant for
      every column. */
  datatype Property =
    | AutoIncrement | CaseSensitive | Searchable | Currency | Signed
    | ReadOnly | Writable | DefinitelyWritable

  /** The metadata object; `None` stands for the no-argument constructor. */
  datatype ResultSetMetaData = ResultSetMetaData(rsColumns: Option<ResultSetColumns>)
  {
    predicate Initialized() {
      rsColumns.Some? && rsColumns.value.rsColumns.Some?
    }

    /** The column list, once the check has passed. */
    function Listed(): seq<ColumnInfo?>
      requires Initialized()
    {
      rsColumns.value.rsColumns.value
    }

    /** The descriptors the answers may read. */
    function Descriptors(): set<ColumnInfo?> {
      if Initialized() then set c | c in Listed() && c != null else {}
    }

    /** `checkRsColumns()`: throws unless the columns object and its list
        are both present. */
    function CheckRsColumns(): (r: Outcome)
      ensures r.Pass? <==> Initialized()
      ensures r.Fail? ==> r.error == NotInitialized
    {
      if rsColumns.None? || rsColumns.value.rsColumns.None? then Fail(NotInitialized) else Pass
    }

    /** `getColumnCount()`: the recorded size, not the list's length. */
    function GetColumnCount(): (r: Result<int>)
      ensures r.Failure? <==> CheckRsColumns().Fail?
      ensures r.Failure? ==> r.error == NotInitialized
      ensures r.Success? ==> r.value == rsColumns.value.size
    {
      match CheckRsColumns()
      case Fail(e) => Failure(e)
      case Pass => Success(rsColumns.value.size)
    }

    /** What the three column-name queries answer for `column`: "Columns
        not initialized" without columns; "Index out of bounds" outside
        1..list length; a null-pointer error for a null descriptor; else
        that descriptor's TYPE string. */
    predicate NameAnswer(column: int, r: Result<Option<string>>)
      reads Descriptors()
    {
      if !Initialized() then r == Failure(NotInitialized)
      else if !(1 <= column <= |Listed()|) then r == Failure(SqlError("Index out of bounds"))
      else if Listed()[column - 1] == null then r == Failure(NullPointer)
      else r == Success(Listed()[column - 1].columnType)
    }

    /** `getColumnName(column)`: the TYPE string of the column'th descriptor
        (1-based); an index outside the list throws "Index out of bounds",
        and a null descriptor (possible in a list-built column list) throws
        a null-pointer error when its type is read. */
    function GetColumnName(column: int): (r: Result<Option<string>>)
      reads Descriptors()
      ensures NameAnswer(column, r)
    {
      match CheckRsColumns()
      case Fail(e) => Failure(e)
      case Pass =>
        match rsColumns.value.Get(column)
        case Failure(e) => Failure(e)
        case Success(info) => if info == null then Failure(NullPointer) else Success(info.GetType())
    }

    /** `getColumnLabel(column)`: the source's method has the same body as
        `getColumnName`, so it too answers the column's type string. */
    function GetColumnLabel(column: int): (r: Result<Option<string>>)
      reads Descriptors()
      ensures NameAnswer(column, r)
    {
      GetColumnName(column)
    }

    /** `getColumnTypeName(column)`: the source's method has the same body
        as `getColumnName`; here the type string is the intended answer. */
    function GetColumnTypeName(column: int): (r: Result<Option<string>>)
      reads Descriptors()
      ensures NameAnswer(column, r)
    {
      GetColumnName(column)
    }

    /** The boolean property queries: case-sensitive, searchable and
        read-only hold, the others do not, whatever the column. */
    function Is(p: Property, column: int): (r: Result<bool>)
      ensures r.Failure? <==> !Initialized()
      ensures r.Failure? ==> r.error == NotInitialized
      ensures r.Success? ==> (r.value <==> p in {CaseSensitive, Searchable, ReadOnly})
    {
      match CheckRsColumns()
      case Fail(e) => Failure(e)
      case Pass =>
        Success(match p
          case CaseSensitive => true
          case Searchable => true
          case ReadOnly => true
          case _ => false)
    }

    /** `isNullable(column)`: always "nullability unknown". */
    function IsNullable(column: int): (r: Result<int>)
      ensures r.Failure? <==> !Initialized()
      ensures r.Failure? ==> r.error == NotInitialized
      ensures r.Success? ==> r.value == COLUMN_NULLABLE_UNKNOWN
    {
      match CheckRsColumns()
      case Fail(e) => Failure(e)
      case Pass => Success(COLUMN_NULLABLE_UNKNOWN)
    }

    /** `getColumnDisplaySize(column)`: always 0. */
    function GetColumnDisplaySize(column: int): (r: Result<int>)
      ensures r.Failure? <==> !Initialized()
      ensures r.Failure? ==> r.error == NotInitialized
      ensures r.Success? ==> r.value == 0
    {
      match CheckRsColumns()
      case Fail(e) => Failure(e)
      case Pass => Success(0)
    }

    /** `getSchemaName`, `getPrecision`, `getScale`, `getTableName`,
        `getCatalogName`, `getColumnType` and `getColumnClassName`: never
        answer; the columns check comes first. */
    function UnsupportedQuery(column: int): (r: Outcome)
      ensures r.Fail?
      ensures r.error == if Initialized() then UnsupportedOperation else NotInitialized
    {
      match CheckRsColumns()
      case Fail(e) => Fail(e)
      case Pass => Fail(UnsupportedOperation)
    }
  }

  /** The no-argument constructor yields metadata on which every query
      throws "Columns not initialized". */
  lemma UninitializedMetaData(column: int, p: Property)
    ensures ResultSetMetaData(None).GetColumnCount() == Failure(NotInitialized)
    ensures ResultSetMetaData(None).GetColumnName(column) == Failure(NotInitialized)
    ensures ResultSetMetaData(None).Is(p, column) == Failure(NotInitialized)
    ensures ResultSetMetaData(None).UnsupportedQuery(column) == Fail(NotInitialized)
  {
  }

  /** Over array-built columns the count and the name lookup agree: a
      column number is answered exactly when it lies in 1..getColumnCount(),
      and the answer is that descriptor's type. */
  lemma ArrayMetaDataAgrees(cols: seq<ColumnInfo>, column: int)
    ensures FromArray(Some(cols)).Success?
    ensures ResultSetMetaData(Some(FromArray(Some(cols)).value)).GetColumnCount() == Success(|cols|)
    ensures ResultSetMetaData(Some(FromArray(Some(cols)).value)).GetColumnName(column).Success?
      <==> 1 <= column <= |cols|
    ensures 1 <= column <= |cols| ==>
      ResultSetMetaData(Some(FromArray(Some(cols)).value)).GetColumnName(column)
        == Success(cols[column - 1].columnType)
  {
  }

  /** Over list-built columns the count is 0 although column 1 can be read;
      a null first descriptor makes the read throw a null-pointer error. */
  lemma ListMetaDataDisagrees(cols: seq<ColumnInfo?>)
    requires |cols| > 0
    ensures ResultSetMetaData(Some(FromList(Some(cols)))).GetColumnCount() == Success(0)
    ensures cols[0] != null ==>
      ResultSetMetaData(Some(FromList(Some(cols)))).GetColumnName(1) == Success(cols[0].columnType)
    ensures cols[0] == null ==>
      ResultSetMetaData(Some(FromList(Some(cols)))).GetColumnName(1) == Failure(NullPointer)
  {
  }
}
