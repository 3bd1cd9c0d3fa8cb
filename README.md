# w3af database layer: SQL text builders and request queue

A Dafny model of the deterministic part of w3af's database layer,
`core/data/db/db.py`:

- **`WhereHelper`** builds a parameterised WHERE clause. It takes a list of
  conditions. Each condition is either a plain `(field, value, oper)` triple
  or a group `([triples], conjunction)`. It returns the clause text with one
  `?` per triple, and it keeps the values to bind in `_values`, in the same
  order.
- **`DBClient.createTable` / `createIndex`** build DDL statements. Each one
  executes its statement and then commits.
- **`DBClientSQLite`** is seen from the producer side: `execute`,
  `executemany`, `commit` and `close` put requests on the queue that the
  worker thread drains. Here that queue is an append-only log of requests.

Files:

- `sql_text.dfy` (module `SqlText`): bound values, `Option`, Python's
  `str.join` and `s[k:]`, and character counting.
- `where_helper.dfy` (module `Where`): the conditions, `_makePair`, the
  class `WhereHelper` with its `Sql`/`Values` methods, and lemmas. The
  lemmas relate the source's build-then-slice construction to a direct
  definition of the intended clause, and count placeholders against bound
  values.
- `db_client.dfy` (module `DbClient`): the request log class and the DDL
  statements. The lemmas give the statements' shape.

`WhereHelper.Sql` and `DBClientSQLite.CreateTable` are loops, as in the
source. Each is proved against a specification function: `WhereSql`/`CondValues`
and `CreateTableSql`. The properties of those functions are proved as lemmas.
The source's slicing stays as written: `tmpWhere[len(oper)+1:]` and
`result[5:]` are modelled by `PySliceFrom`, which follows Python's rule that a
slice past the end is empty. `WhereSqlIsExpected` then proves that the slicing
always removes exactly the leading `' ' + conj` and `' AND '`.

## Model

| member | source | states |
|---|---|---|
| `Where.MakePairShape` | core/data/db/db.py:250-253 | `_makePair` returns `' ' + conj + ' ' + field + ' ' + oper + ' ?'` and passes the value through unchanged; the defaults are `oper='='` and `conj='AND'` |
| `Where.GroupSqlAsJoin` | core/data/db/db.py:274-279 | a group's `tmpWhere` is empty for no members; otherwise it is `' ' + conj + ' '` followed by the member texts `field oper ?`, joined by `' ' + conj + ' '` |
| `Where.ContributionIsClause` | core/data/db/db.py:271-285 | every condition adds `' AND '` plus its clause; a group's clause is `( a opA ? C b opB ?)`; a group without members adds nothing |
| `Where.GroupOfTwo` | core/data/db/db.py:280-281 | a group of members `a`, `b` with conjunction `C` adds exactly `' AND ( a opA ? C b opB ?)'` |
| `Where.EmptyGroupAddsNothing` | core/data/db/db.py:272-281 | appending a group with no members changes neither the text nor the values |
| `Where.RawSqlAsJoin` | core/data/db/db.py:268-285 | before slicing, `result` is `''` when no condition has a clause, and otherwise `' AND '` followed by the clauses joined by `' AND '` |
| `Where.WhereSqlIsExpected` | core/data/db/db.py:255-291 | `sql(whereStr)` equals the intended clause: the clauses joined by `' AND '`, behind `' WHERE '` when `whereStr` holds, and `''` when there is no clause |
| `Where.WhereSqlEmptyIff` | core/data/db/db.py:286-291 | `sql()` is `''` exactly when every condition is a group with no members; with `whereStr=False` the text is the same minus the `' WHERE '` prefix |
| `Where.DoctestOneCondition` | core/data/db/db.py:259-261 | `[('field','3','=')]` renders as `' WHERE field = ?'` |
| `Where.TwoPlainConditions` | core/data/db/db.py:263-265 | any two plain conditions render as `' WHERE f1 op1 ? AND f2 op2 ?'` |
| `Where.GroupValuesAt` | core/data/db/db.py:275-278 | a group binds one value per member, in member order |
| `Where.CondValuesAreTermValues` | core/data/db/db.py:269-285 | `_values` lists the value of every triple in condition order, with group members in their inner order |
| `Where.RawSqlCount` | core/data/db/db.py:271-285 | before slicing, the text holds one `?` per bound value, provided no field, operator or conjunction holds a `?` |
| `Where.PlaceholdersMatchValues` | core/data/db/db.py:268-291 | the returned text holds exactly as many `?` as `_values` holds values, for both values of `whereStr` |
| `Where.WhereHelper.constructor` | core/data/db/db.py:240-242 | stores the conditions (an empty list by default) and starts with no cached values |
| `Where.WhereHelper.Sql` | core/data/db/db.py:255-291 | returns `WhereSql(conditions, whereStr)` and resets `_values` to `CondValues(conditions)`, whatever it held before |
| `Where.WhereHelper.AppendGroup` | core/data/db/db.py:274-279 | the loop over a group's members returns the group's `tmpWhere` and appends the members' values to `_values` |
| `Where.WhereHelper.Values` | core/data/db/db.py:244-248 | renders only when `_values` is empty; otherwise it returns `_values` unchanged |
| `Where.SqlTwice` | core/data/db/db.py:268-269 | two calls of `sql()` return the same text and leave the same values, so nothing accumulates |
| `DbClient.ColumnDefsAsJoin` | core/data/db/db.py:43-45 | the column loop yields every `name type` joined by `', '`, with one more `', '` after the last |
| `DbClient.CreateTableIsDefinitionList` | core/data/db/db.py:42-47 | the CREATE TABLE statement is `CREATE TABLE name(` + the columns and `PRIMARY KEY (k1,k2,...)` joined by `', '` + `)` |
| `DbClient.CreateIndexColumnCommas` | core/data/db/db.py:59 | when no name holds a comma, the CREATE INDEX statement holds one comma fewer than it has columns (none for no columns) |
| `DbClient.DBClientSQLite.constructor` | core/data/db/db.py:94-108 | stores the file name, autocommit flag, journal mode and cache size, with defaults `False`, `"OFF"` and `2000`; the request log starts empty |
| `DbClient.DBClientSQLite.Execute` | core/data/db/db.py:184-189 | appends exactly one request `(sql, parameters or (), res)`, so missing parameters become the empty tuple |
| `DbClient.DBClientSQLite.ExecuteMany` | core/data/db/db.py:191-193 | appends one request per item, in item order, all with the same statement; earlier requests are kept |
| `DbClient.DBClientSQLite.Commit` | core/data/db/db.py:220-221 | appends the `'--commit--'` marker request |
| `DbClient.DBClientSQLite.Close` | core/data/db/db.py:223-225 | clears the file name, then appends the `'--close--'` marker request |
| `DbClient.DBClientSQLite.GetFileName` | core/data/db/db.py:227-229 | returns the current file name, which is `None` after `close` |
| `DbClient.DBClientSQLite.CreateTable` | core/data/db/db.py:37-50 | appends the request for `CreateTableSql(name, columns, primaryKeyColumns)`, then a commit, in that order and nothing else |
| `DbClient.DBClientSQLite.CreateIndex` | core/data/db/db.py:52-62 | appends the request for `CREATE INDEX t_index ON t( c1,c2 )`, then a commit, in that order and nothing else |

## Left out

- `DBClientSQLite.run` (core/data/db/db.py:124-182): the worker thread's loop over a real sqlite3 connection, with its PRAGMAs, cursor iteration and printed exceptions. It is foreign I/O and concurrency. The log records what it would consume, but what it does with each request is not modelled.
- `select` / `select_one` (core/data/db/db.py:195-218): the result queue, the `'--no more--'` sentinel and the generator that blocks on `Queue.get` all depend on the consumer thread. A request's `res` is modelled only as the identity of a result queue.
- The constructor's thread start and its `put(None)`/`join` handshake, and the blocking of the bounded `Queue(50)`: these are concurrency concerns. The log starts empty and never blocks.
- The file-name re-encoding through `sys.getfilesystemencoding()` (core/data/db/db.py:99-104) calls platform libraries, and line 105 overwrites its result anyway. The model stores the file name as given.
- `WhereHelper.__str__` depends on Python's `repr` of a list.
- The class-level mutable defaults `conditions = {}` and `_values = []` are treated as per-instance fields. `sql()` always assigns a fresh list, so the shared class-level list is never mutated. The default condition collection `{}` is modelled as an empty list.
- The `NotImplementedError` stubs of `DBClient` are abstract. `createTable` and `createIndex`, defined on `DBClient`, are modelled as methods of the SQLite client, which supplies `execute` and `commit`.
- `sql()` tells a group from a plain triple with `isinstance(cond[0], list)`. The model uses a datatype with two variants, so malformed conditions do not arise. Those are a tuple in place of the member list, a triple of the wrong length, or non-string fields.
- Bound values are modelled as `Null`, integers or text. Python accepts any object sqlite3 can bind; the text builders only ever pass values through.
- `Where.WhereHelper.Values`: the model copies by value and does not capture the list aliasing in the source. `__init__` keeps a reference to the caller's condition list (core/data/db/db.py:242), so a later change the caller makes to that list shows up in the next `sql()`. `values()` returns the live `_values` list (core/data/db/db.py:248), so whatever a caller appends to it comes back from the next `values()`. `sql()` rebinds `_values` to a fresh list (core/data/db/db.py:269), so a list handed out earlier stops being updated. In the model, `conditions` and `boundValues` are `seq` values: a caller receives a copy, and nothing outside the helper can change its state.
- `Where.WhereHelper.AppendGroup`: the inner loop of `sql()` is a separate method. It has the same body and updates `_values` in the same order.
- `Where.PlaceholdersMatchValues`: the count holds only when no field, operator or conjunction holds a `?` of its own. The source does not promise anything for such names.
