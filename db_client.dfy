/**
 * The producer side of w3af's SQLite client: requests are put on a queue that
 * a worker thread drains in arrival order. Here the queue is the log of every
 * request put on it, and the DDL helpers are the statements they enqueue.
 */
module DbClient {
  import opened SqlText

  /** The statement text `commit()` enqueues; the worker commits when it sees it. */
  const CommitMarker: string := "--commit--"
  /** The statement text `close()` enqueues; the worker stops when it sees it. */
  const CloseMarker: string := "--close--"

  /** The identity of the queue a SELECT's rows are delivered on. */
  datatype ResultQueue = ResultQueue(id: nat)

  /** One queued request: the statement, its bound parameters and where its rows go. */
  datatype Request = Request(sql: string, params: seq<Value>, res: Option<ResultQueue>)

  /** A column of `createTable`: its name and its SQL type. */
  type Column = (string, string)

  /** The column definitions `createTable` accumulates: `name type, ` per column. */
  function ColumnDefs(columns: seq<Column>): string
    decreases |columns|
  {
    if columns == [] then ""
    else
      var c := columns[|columns| - 1];
      ColumnDefs(columns[..|columns| - 1]) + c.0 + " " + c.1 + ", "
  }

  /** The statement `createTable(name, columns, primaryKeyColumns)` executes. */
  function CreateTableSql(name: string, columns: seq<Column>, primaryKeyColumns: seq<string>): string
  {
    "CREATE TABLE " + name + "(" + ColumnDefs(columns) + "PRIMARY KEY (" + Join(",", primaryKeyColumns) + "))"
  }

  /** The statement `createIndex(table, columns)` executes. */
  function CreateIndexSql(table: string, columns: seq<string>): string
  {
    "CREATE INDEX " + table + "_index ON " + table + "( " + Join(",", columns) + " )"
  }

  /** `name type` */
  function ColumnText(c: Column): string
  {
    c.0 + " " + c.1
  }

  function ColumnTexts(columns: seq<Column>): (r: seq<string>)
    ensures |r| == |columns|
    decreases |columns|
  {
    if columns == [] then [] else ColumnTexts(columns[..|columns| - 1]) + [ColumnText(columns[|columns| - 1])]
  }

  /** The primary-key clause that closes a table's definition list. */
  function PrimaryKeyClause(primaryKeyColumns: seq<string>): string
  {
    "PRIMARY KEY (" + Join(",", primaryKeyColumns) + ")"
  }

  /** The accumulated definitions are the column texts, each followed by `', '`. */
  lemma {:induction false} ColumnDefsAsJoin(columns: seq<Column>)
    ensures columns == [] ==> ColumnDefs(columns) == ""
    ensures columns != [] ==> ColumnDefs(columns) == Join(", ", ColumnTexts(columns)) + ", "
    decreases |columns|
  {
    if columns != [] {
      var init, last := columns[..|columns| - 1], columns[|columns| - 1];
      assert ColumnDefs(columns) == ColumnDefs(init) + ColumnText(last) + ", ";
      assert ColumnTexts(columns) == ColumnTexts(init) + [ColumnText(last)];
      if init == [] {
        assert ColumnTexts(columns) == [ColumnText(last)];
        assert ColumnDefs(columns) == ColumnText(last) + ", ";
      } else {
        ColumnDefsAsJoin(init);
        JoinSnoc(", ", ColumnTexts(init), ColumnText(last));
        assert ColumnDefs(columns) == (Join(", ", ColumnTexts(init)) + ", ") + ColumnText(last) + ", ";
      }
    }
  }

  /**
   * The table definition is one comma-separated list inside parentheses:
   * every column, then the primary-key clause.
   */
  lemma CreateTableIsDefinitionList(name: string, columns: seq<Column>, primaryKeyColumns: seq<string>)
    ensures CreateTableSql(name, columns, primaryKeyColumns) ==
      "CREATE TABLE " + name + "(" + Join(", ", ColumnTexts(columns) + [PrimaryKeyClause(primaryKeyColumns)]) + ")"
  {
    ColumnDefsAsJoin(columns);
    var pk := PrimaryKeyClause(primaryKeyColumns);
    var head := "CREATE TABLE " + name + "(";
    var keys := Join(",", primaryKeyColumns);
    assert CreateTableSql(name, columns, primaryKeyColumns) == head + ColumnDefs(columns) + pk + ")";
    if columns == [] {
      assert ColumnTexts(columns) + [pk] == [pk];
    } else {
      JoinSnoc(", ", ColumnTexts(columns), pk);
      assert head + ColumnDefs(columns) + pk + ")" == head + (Join(", ", ColumnTexts(columns)) + ", " + pk) + ")";
    }
  }

  /**
   * With names free of commas, the index statement has one comma fewer than
   * it has columns: the column list is exactly the columns, comma-separated.
   */
  lemma CreateIndexColumnCommas(table: string, columns: seq<string>)
    requires ',' !in table
    requires forall i :: 0 <= i < |columns| ==> ',' !in columns[i]
    ensures CountChar(',', CreateIndexSql(table, columns)) == if columns == [] then 0 else |columns| - 1
  {
    assert CountChar(',', ",") == 1;
    JoinCountChar(',', ",", columns);
    IndexCountWith(',', "CREATE INDEX ", table, "_index ON ", "( ", Join(",", columns), " )");
  }

  /** The fixed parts and the table name add nothing to the count of `c`. */
  lemma IndexCountWith(c: char, p1: string, table: string, p2: string, p3: string, list: string, p4: string)
    requires c !in p1 && c !in table && c !in p2 && c !in p3 && c !in p4
    ensures CountChar(c, p1 + table + p2 + table + p3 + list + p4) == CountChar(c, list)
  {
  }

  /** The request `commit()` enqueues. */
  function CommitRequest(): Request
  {
    Request(CommitMarker, [], None)
  }

  /**
   * The SQLite client as its callers see it: what it was opened with and the
   * log of requests put on its queue.
   */
  class DBClientSQLite {
    /** `None` once `close()` has run. */
    var filename: Option<string>
    var autocommit: bool
    var journalMode: string
    var cacheSize: int
    /** Every request put on the queue, oldest first. */
    var reqs: seq<Request>

    constructor (filename: string, autocommit: bool := false, journalMode: string := "OFF", cacheSize: int := 2000)
      ensures this.filename == Some(filename)
      ensures this.autocommit == autocommit && this.journalMode == journalMode && this.cacheSize == cacheSize
      ensures reqs == []
    {
      this.filename := Some(filename);
      this.autocommit := autocommit;
      this.journalMode := journalMode;
      this.cacheSize := cacheSize;
      reqs := [];
    }

    /** Enqueues one request; missing parameters become the empty tuple. */
    method Execute(sql: string, parameters: Option<seq<Value>> := None, res: Option<ResultQueue> := None)
      modifies this`reqs
      ensures reqs == old(reqs) + [Request(sql, if parameters.Some? then parameters.value else [], res)]
    {
      reqs := reqs + [Request(sql, if parameters.Some? then parameters.value else [], res)];
    }

    /** Enqueues one request per item, in item order, all with the same statement. */
    method ExecuteMany(sql: string, items: seq<seq<Value>>)
      modifies this`reqs
      ensures |reqs| == |old(reqs)| + |items|
      ensures reqs[..|old(reqs)|] == old(reqs)
      ensures forall k :: 0 <= k < |items| ==> reqs[|old(reqs)| + k] == Request(sql, items[k], None)
    {
      var i := 0;
      while i < |items|
        invariant 0 <= i <= |items|
        invariant |reqs| == |old(reqs)| + i
        invariant reqs[..|old(reqs)|] == old(reqs)
        invariant forall k :: 0 <= k < i ==> reqs[|old(reqs)| + k] == Request(sql, items[k], None)
      {
        Execute(sql, Some(items[i]));
        i := i + 1;
      }
    }

    /** Enqueues the commit marker. */
    method Commit()
      modifies this`reqs
      ensures reqs == old(reqs) + [CommitRequest()]
    {
      Execute(CommitMarker);
    }

    /** Forgets the file name, then enqueues the close marker. */
    method Close()
      modifies this`reqs, this`filename
      ensures filename == None
      ensures reqs == old(reqs) + [Request(CloseMarker, [], None)]
    {
      filename := None;
      Execute(CloseMarker);
    }

    method GetFileName() returns (f: Option<string>)
      ensures f == filename
    {
      f := filename;
    }

    /** Enqueues the table's CREATE statement, then a commit. */
    method CreateTable(name: string, columns: seq<Column> := [], primaryKeyColumns: seq<string> := [])
      modifies this`reqs
      ensures reqs == old(reqs) + [Request(CreateTableSql(name, columns, primaryKeyColumns), [], None), CommitRequest()]
    {
      var sql := "CREATE TABLE " + name + "(";
      var i := 0;
      while i < |columns|
        invariant 0 <= i <= |columns|
        invariant sql == "CREATE TABLE " + name + "(" + ColumnDefs(columns[..i])
      {
        assert columns[..i + 1][..i] == columns[..i];
        var (columnName, columnType) := columns[i];
        sql := sql + columnName + " " + columnType + ", ";
        i := i + 1;
      }
      assert columns[..i] == columns;
      sql := sql + "PRIMARY KEY (" + Join(",", primaryKeyColumns) + "))";
      Execute(sql);
      Commit();
    }

    /** Enqueues the index's CREATE statement, then a commit. */
    method CreateIndex(table: string, columns: seq<string>)
      modifies this`reqs
      ensures reqs == old(reqs) + [Request(CreateIndexSql(table, columns), [], None), CommitRequest()]
    {
      var sql := "CREATE INDEX " + table + "_index ON " + table + "( " + Join(",", columns) + " )";
      Execute(sql);
      Commit();
    }
  }
}
