/**
 * The data model shared by the importer, the schema emitter, the dump analysis
 * and the DDL parser, and the two "declared and present" selections that the
 * importer and the schema emitter both make.
 */
module Types {

  /** A declared column: its name and its source-dialect type text. */
  datatype Column = Column(name: string, typ: string)

  /** A declared table; `columns` keeps the order of the DDL. */
  datatype Table = Table(name: string, columns: seq<Column>)

  /** A foreign key between two declared tables. */
  datatype Relation = Relation(
    constraintName: string,
    sourceTable: string,
    sourceColumn: string,
    targetTable: string,
    targetColumn: string)

  /** What one XML dump revealed: the table name and its attribute names (each with the last value seen). */
  datatype TableInfo = TableInfo(name: string, columns: map<string, string>)

  /** The discovered dumps, keyed by table name. */
  type Dumps = map<string, TableInfo>

  /** The declared tables that have a dump, in declared order. */
  function Jobs(tables: seq<Table>, dumps: Dumps): (jobs: seq<Table>)
    ensures forall t :: t in jobs <==> t in tables && t.name in dumps
  {
    if tables == [] then []
    else
      var last := tables[|tables| - 1];
      assert tables == tables[..|tables| - 1] + [last];
      Jobs(tables[..|tables| - 1], dumps) + (if last.name in dumps then [last] else [])
  }

  /** Selecting jobs distributes over concatenation, so the declared order is kept. */
  lemma {:induction false} JobsAppend(a: seq<Table>, b: seq<Table>, dumps: Dumps)
    ensures Jobs(a + b, dumps) == Jobs(a, dumps) + Jobs(b, dumps)
  {
    if b != [] {
      assert (a + b)[..|a + b| - 1] == a + b[..|b| - 1];
      assert (a + b)[|a + b| - 1] == b[|b| - 1];
      JobsAppend(a, b[..|b| - 1], dumps);
    } else {
      assert a + b == a;
    }
  }

  /** The declared columns whose name is a key of `present`, in declared order. */
  function SelectColumns(declared: seq<Column>, present: map<string, string>): (cols: seq<Column>)
    ensures forall c :: c in cols <==> c in declared && c.name in present
  {
    if declared == [] then []
    else
      var last := declared[|declared| - 1];
      assert declared == declared[..|declared| - 1] + [last];
      SelectColumns(declared[..|declared| - 1], present) + (if last.name in present then [last] else [])
  }

  /** Selecting columns distributes over concatenation, so the declared order is kept. */
  lemma {:induction false} SelectColumnsAppend(a: seq<Column>, b: seq<Column>, present: map<string, string>)
    ensures SelectColumns(a + b, present) == SelectColumns(a, present) + SelectColumns(b, present)
  {
    if b != [] {
      assert (a + b)[..|a + b| - 1] == a + b[..|b| - 1];
      assert (a + b)[|a + b| - 1] == b[|b| - 1];
      SelectColumnsAppend(a, b[..|b| - 1], present);
    } else {
      assert a + b == a;
    }
  }

  /** The names of some columns, in order. */
  function Names(cols: seq<Column>): (names: seq<string>)
    ensures |names| == |cols|
    ensures forall k :: 0 <= k < |cols| ==> names[k] == cols[k].name
  {
    seq(|cols|, k requires 0 <= k < |cols| => cols[k].name)
  }
}
