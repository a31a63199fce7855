/** The column list a result set is built on (ResultSetColumns): the column
    descriptors, a snapshot of their names, and a recorded size that only
    the array constructor sets. */
module Columns {
  import opened Common
  import opened Sql

  /** The names of `cols`, in order, as they read now. */
  function Names(cols: seq<ColumnInfo>): (names: seq<Option<string>>)
    reads set c | c in cols
    ensures |names| == |cols|
    ensures forall i :: 0 <= i < |cols| ==> names[i] == cols[i].name
  {
    if cols == [] then [] else Names(cols[..|cols| - 1]) + [cols[|cols| - 1].name]
  }

  /** `rsColumns` is null only when the list constructor was given null;
      `rsColumnNames` is null after the list constructor. A list given to
      the list constructor may hold null descriptors. The descriptors are
      shared with whoever built them; the names were read once. */
  datatype ResultSetColumns = ResultSetColumns(
    rsColumns: Option<seq<ColumnInfo?>>,
    rsColumnNames: Option<seq<Option<string>>>,
    size: int)
  {
    /** `get(index)`: the 1-based column `index`, which may be a null
        descriptor; a bad index throws "Index out of bounds", and a null
        list throws a null-pointer error. */
    function Get(index: int): (r: Result<ColumnInfo?>)
      ensures rsColumns.None? ==> r == Failure(NullPointer)
      ensures rsColumns.Some? ==>
        (r.Success? <==> 1 <= index <= |rsColumns.value|)
      ensures rsColumns.Some? && r.Failure? ==> r.error == SqlError("Index out of bounds")
      ensures r.Success? ==> r.value == rsColumns.value[index - 1]
    {
      match rsColumns
      case None => Failure(NullPointer)
      case Some(cols) =>
        if index < 1 || index > |cols| then Failure(SqlError("Index out of bounds"))
        else Success(cols[index - 1])
    }
  }

  /** The no-argument constructor: empty lists and size 0. */
  function Empty(): (r: ResultSetColumns)
    ensures r.size == 0 && r.rsColumnNames == Some([])
    ensures forall index :: r.Get(index) == Failure(SqlError("Index out of bounds"))
  {
    ResultSetColumns(Some([]), Some([]), 0)
  }

  /** The array constructor: a null array throws when its length is read,
      and a null descriptor throws when its name is read. Otherwise the
      size is the array length and the names are those the columns carry
      at construction time. */
  function FromArray(cols: Option<seq<ColumnInfo?>>): (r: Result<ResultSetColumns>)
    reads if cols.Some? then set c | c in cols.value && c != null else {}
    ensures r.Failure? <==> cols.None? || null in cols.value
    ensures r.Failure? ==> r.error == NullPointer
    ensures r.Success? ==> r.value.rsColumns == cols && r.value.size == |cols.value|
    ensures r.Success? ==> r.value.rsColumnNames.Some? && |r.value.rsColumnNames.value| == |cols.value|
    ensures r.Success? ==> forall i :: 0 <= i < |cols.value| ==>
      cols.value[i] != null && r.value.rsColumnNames.value[i] == cols.value[i].name
    ensures r.Success? ==> forall index :: r.value.Get(index).Success? <==> 1 <= index <= r.value.size
  {
    match cols
    case None => Failure(NullPointer)
    case Some(cs) =>
      if null in cs then Failure(NullPointer)
      else
        var present: seq<ColumnInfo> := cs;
        Success(ResultSetColumns(Some(cs), Some(Names(present)), |cs|))
  }

  /** The list constructor keeps the list (possibly null, possibly holding
      null descriptors) but leaves the size at 0 and the names null. */
  function FromList(cols: Option<seq<ColumnInfo?>>): (r: ResultSetColumns)
    ensures r.size == 0 && r.rsColumnNames.None?
    ensures r.rsColumns == cols
  {
    ResultSetColumns(cols, None, 0)
  }

  /** For an array-built column list, `get` answers for exactly the indices
      1 to `getSize()`, and answers the array's own descriptors. */
  lemma ArrayColumnsAgree(cols: seq<ColumnInfo>, index: int)
    requires 1 <= index <= |cols|
    ensures FromArray(Some(cols)).Success?
    ensures FromArray(Some(cols)).value.Get(index) == Success(cols[index - 1])
    ensures FromArray(Some(cols)).value.rsColumnNames.value[index - 1] == cols[index - 1].name
  {
  }

  /** For a list-built column list the recorded size and the list disagree:
      `getSize()` is 0 while `get(1)` still answers the first descriptor,
      even a null one. */
  lemma ListSizeDisagrees(cols: seq<ColumnInfo?>)
    requires |cols| > 0
    ensures FromList(Some(cols)).size == 0
    ensures FromList(Some(cols)).Get(1) == Success(cols[0])
  {
  }
}
