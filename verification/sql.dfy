/** The records of the SQL response (package `sql`): a column descriptor
    and the columns-plus-rows body, each with fluent setters that update the
    object in place and return it. */
module Sql {
  import opened Common

  /** One column descriptor: a name and a type string, either possibly null. */
  class ColumnInfo {
    var name: Option<string>
    var columnType: Option<string>

    /** The no-argument constructor leaves both fields null. */
    constructor ()
      ensures name == None && columnType == None
    {
      name, columnType := None, None;
    }

    /** The two-argument constructor ignores its arguments: both fields stay
        null. */
    constructor WithNameAndType(name': Option<string>, type': Option<string>)
      ensures name == None && columnType == None
    {
      name, columnType := None, None;
    }

    /** `getName()`: the stored name, null included. */
    function GetName(): (n: Option<string>)
      reads this
      ensures n == name
    {
      name
    }

    /** `getType()`: the stored type string, null included. */
    function GetType(): (t: Option<string>)
      reads this
      ensures t == columnType
    {
      columnType
    }

    /** Sets the name, keeps the type, and returns this same object. */
    method SetName(name': Option<string>) returns (self: ColumnInfo)
      modifies this
      ensures self == this
      ensures GetName() == name' && GetType() == old(GetType())
    {
      name := name';
      self := this;
    }

    /** Sets the type, keeps the name, and returns this same object. */
    method SetType(type': Option<string>) returns (self: ColumnInfo)
      modifies this
      ensures self == this
      ensures GetType() == type' && GetName() == old(GetName())
    {
      columnType := type';
      self := this;
    }
  }

  /** A JSON value in a row of the response. The source's cells are untyped
      Java objects; this narrows them to the JSON scalars, and numbers keep
      their JSON text. */
  datatype Cell = JsonNull | JsonBoolean(b: bool) | JsonNumber(text: string) | JsonString(s: string)

  /** The response body: the column descriptors and the rows. Either list
      may be null, and so may a descriptor or a row inside it. The lists
      are held as values: see `SetColumns`. */
  class SqlResponseResults {
    var columns: Option<seq<ColumnInfo?>>
    var rows: Option<seq<Option<seq<Cell>>>>

    /** A fresh object has null columns and null rows. */
    constructor ()
      ensures columns == None && rows == None
    {
      columns, rows := None, None;
    }

    /** `getColumns()`: the stored columns, null included. */
    function GetColumns(): (cs: Option<seq<ColumnInfo?>>)
      reads this
      ensures cs == columns
    {
      columns
    }

    /** `getRows()`: the stored rows, null included. */
    function GetRows(): (rs: Option<seq<Option<seq<Cell>>>>)
      reads this
      ensures rs == rows
    {
      rows
    }

    /** Sets the columns, keeps the rows, and returns this same object. */
    method SetColumns(columns': Option<seq<ColumnInfo?>>) returns (self: SqlResponseResults)
      modifies this
      ensures self == this
      ensures GetColumns() == columns' && GetRows() == old(GetRows())
    {
      columns := columns';
      self := this;
    }

    /** Sets the rows, keeps the columns, and returns this same object. */
    method SetRows(rows': Option<seq<Option<seq<Cell>>>>) returns (self: SqlResponseResults)
      modifies this
      ensures self == this
      ensures GetRows() == rows' && GetColumns() == old(GetColumns())
    {
      rows := rows';
      self := this;
    }
  }

  /** Fluent use: `new ColumnInfo().setName(n).setType(t)` yields one object
      holding both values. */
  method BuildColumn(n: Option<string>, t: Option<string>) returns (c: ColumnInfo)
    ensures fresh(c) && c.GetName() == n && c.GetType() == t
  {
    var fresh' := new ColumnInfo();
    var named := fresh'.SetName(n);
    c := named.SetType(t);
  }
}
