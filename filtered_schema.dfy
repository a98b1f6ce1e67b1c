/**
 * GenerateFilteredSchema (database/schema.go): the PostgreSQL DDL written for
 * the declared tables that have a dump, restricted to the columns the dump
 * shows, followed by the foreign keys whose both ends survive. The file is
 * modelled as the sequence of its lines, each without its final newline.
 */
module FilteredSchema {
  import opened Strings
  import opened Seqs
  import opened Types
  import opened PgTypes

  // ================================================================ the text

  /** The first three lines: a comment, the CREATE SCHEMA statement and a blank line. */
  function Header(schema: string): seq<string> {
    ["-- filtered schema", "CREATE SCHEMA IF NOT EXISTS " + schema + ";", ""]
  }

  const DropComment := "-- Drop existing tables (if any) in reverse dependency order"
  const ForeignKeyComment := "-- Add foreign key constraints"

  function DropLine(schema: string, table: string): string {
    "DROP TABLE IF EXISTS " + schema + "." + table + " CASCADE;"
  }

  /** One DROP line per table, in the order given. */
  function DropLines(schema: string, ts: seq<Table>): seq<string> {
    seq(|ts|, k requires 0 <= k < |ts| => DropLine(schema, ts[k].name))
  }

  /** What the DROP loop writes, walking `ts` from its last table to its first. */
  function Drops(schema: string, ts: seq<Table>, dumps: Dumps): seq<string> {
    if ts == [] then []
    else Drops(schema, ts[1..], dumps) + (if ts[0].name in dumps then [DropLine(schema, ts[0].name)] else [])
  }

  /** The suffix that marks a primary key column: only a column named Id, in any letter case. */
  function PrimaryKey(name: string): string {
    if EqualFold(name, "Id") then " PRIMARY KEY" else ""
  }

  /** The declared columns with their types translated to PostgreSQL. */
  function Translated(cols: seq<Column>): (pg: seq<Column>)
    ensures |pg| == |cols|
  {
    seq(|cols|, i requires 0 <= i < |cols| => Column(cols[i].name, ToPgType(cols[i].typ)))
  }

  /** The declaration of one column whose type is already translated, without the separating comma. */
  function ColumnDecl(c: Column): string {
    "    " + c.name + " " + c.typ + PrimaryKey(c.name)
  }

  /** The line of the i-th kept column: every one but the last ends with a comma. */
  function ColumnLine(cols: seq<Column>, i: nat): string
    requires i < |cols|
  {
    ColumnDecl(cols[i]) + (if i + 1 < |cols| then "," else "")
  }

  /** The column lines of a CREATE TABLE. */
  function ColumnLines(cols: seq<Column>): (lines: seq<string>)
    ensures |lines| == |cols|
  {
    seq(|cols|, i requires 0 <= i < |cols| => ColumnLine(cols, i))
  }

  /** The block for one table with the columns that are kept. */
  function CreateBlock(schema: string, table: string, cols: seq<Column>): seq<string> {
    ["CREATE TABLE IF NOT EXISTS " + schema + "." + table + " ("] + ColumnLines(Translated(cols)) + [");", ""]
  }

  /** The declared columns of `t` that its dump shows, in declared order. */
  function KeptColumns(t: Table, dumps: Dumps): seq<Column>
    requires t.name in dumps
  {
    SelectColumns(t.columns, dumps[t.name].columns)
  }

  /** A table gets a CREATE TABLE block when it has a dump sharing at least one of its columns. */
  predicate Creates(t: Table, dumps: Dumps) {
    t.name in dumps && KeptColumns(t, dumps) != []
  }

  /** What the CREATE loop writes for one table. */
  function TableBlock(schema: string, t: Table, dumps: Dumps): seq<string> {
    if Creates(t, dumps) then CreateBlock(schema, t.name, KeptColumns(t, dumps)) else []
  }

  /** What the CREATE loop writes for `tables`, in declared order. */
  function CreateSection(schema: string, tables: seq<Table>, dumps: Dumps): seq<string> {
    if tables == [] then []
    else CreateSection(schema, tables[..|tables| - 1], dumps) + TableBlock(schema, tables[|tables| - 1], dumps)
  }

  /** The foreign key filters: both tables have a dump, and each dump shows the column. */
  predicate Qualifies(r: Relation, dumps: Dumps) {
    r.sourceTable in dumps && r.targetTable in dumps &&
    r.sourceColumn in dumps[r.sourceTable].columns && r.targetColumn in dumps[r.targetTable].columns
  }

  function ConstraintNames(rs: seq<Relation>): set<string> {
    set r | r in rs :: r.constraintName
  }

  /**
   * The relations whose constraint lines are written: each qualifying relation
   * whose constraint name no earlier written relation used.
   */
  function Emitted(rels: seq<Relation>, dumps: Dumps): seq<Relation> {
    if rels == [] then []
    else
      var es := Emitted(rels[..|rels| - 1], dumps);
      var r := rels[|rels| - 1];
      if Qualifies(r, dumps) && r.constraintName !in ConstraintNames(es) then es + [r] else es
  }

  function DropConstraint(schema: string, r: Relation): string {
    "ALTER TABLE " + schema + "." + r.sourceTable + " DROP CONSTRAINT IF EXISTS " + r.constraintName + ";"
  }

  function AddConstraint(schema: string, r: Relation): string {
    "ALTER TABLE " + schema + "." + r.sourceTable + " ADD CONSTRAINT " + r.constraintName +
    " FOREIGN KEY (" + r.sourceColumn + ") REFERENCES " + schema + "." + r.targetTable +
    "(" + r.targetColumn + ");"
  }

  /** The two lines written for each relation in `es`, in order. */
  function ConstraintLines(schema: string, es: seq<Relation>): (lines: seq<string>)
    ensures |lines| == 2 * |es|
  {
    if es == [] then []
    else
      ConstraintLines(schema, es[..|es| - 1]) +
      [DropConstraint(schema, es[|es| - 1]), AddConstraint(schema, es[|es| - 1])]
  }

  /** The whole file GenerateFilteredSchema writes. */
  function SchemaText(tables: seq<Table>, rels: seq<Relation>, dumps: Dumps, schema: string): seq<string> {
    Header(schema) +
    ([DropComment] + DropLines(schema, Reverse(Jobs(tables, dumps))) + [""] +
     CreateSection(schema, tables, dumps) +
     [ForeignKeyComment] + ConstraintLines(schema, Emitted(rels, dumps)))
  }

  // ================================================================ the writer

  /** The DROP loop: from the last declared table to the first, one line per table with a dump. */
  method EmitDrops(tables: seq<Table>, dumps: Dumps, schema: string) returns (lines: seq<string>)
    ensures lines == Drops(schema, tables, dumps)
  {
    lines := [];
    var i := |tables|;
    while i > 0
      invariant 0 <= i <= |tables|
      invariant lines == Drops(schema, tables[i..], dumps)
    {
      i := i - 1;
      var t := tables[i];
      assert tables[i..][1..] == tables[i + 1..];
      if t.name in dumps {
        lines := lines + [DropLine(schema, t.name)];
      }
    }
    assert tables[0..] == tables;
  }

  /** The column filter of the CREATE loop: the declared columns present in the dump, in declared order. */
  method PresentColumns(declared: seq<Column>, present: map<string, string>) returns (cols: seq<Column>)
    ensures cols == SelectColumns(declared, present)
  {
    cols := [];
    for j := 0 to |declared|
      invariant cols == SelectColumns(declared[..j], present)
    {
      assert declared[..j + 1][..j] == declared[..j];
      if declared[j].name in present {
        cols := cols + [declared[j]];
      }
    }
    assert declared[..|declared|] == declared;
  }

  /** The column lines: a comma after every column but the last, and the primary key marker on Id. */
  method EmitColumns(cols: seq<Column>) returns (lines: seq<string>)
    ensures lines == ColumnLines(Translated(cols))
  {
    lines := [];
    for i := 0 to |cols|
      invariant |lines| == i
      invariant forall k :: 0 <= k < i ==> lines[k] == ColumnLine(Translated(cols), k)
    {
      var c := cols[i];
      var comma := "";
      if i + 1 < |cols| {
        comma := ",";
      }
      var pg := ToPgType(c.typ);
      var pk := "";
      if EqualFold(c.name, "Id") {
        pk := " PRIMARY KEY";
      }
      assert Translated(cols)[i] == Column(c.name, pg);
      lines := lines + ["    " + c.name + " " + pg + pk + comma];
    }
    assert lines == ColumnLines(Translated(cols));
  }

  /** The CREATE loop, in declared order. */
  method EmitCreates(tables: seq<Table>, dumps: Dumps, schema: string) returns (lines: seq<string>)
    ensures lines == CreateSection(schema, tables, dumps)
  {
    lines := [];
    for i := 0 to |tables|
      invariant lines == CreateSection(schema, tables[..i], dumps)
    {
      var t := tables[i];
      assert tables[..i + 1][..i] == tables[..i];
      if t.name !in dumps {
        continue;
      }
      var ti := dumps[t.name];
      var cols := PresentColumns(t.columns, ti.columns);
      if |cols| == 0 {
        continue;
      }
      var body := EmitColumns(cols);
      lines := lines + ["CREATE TABLE IF NOT EXISTS " + schema + "." + t.name + " ("] + body + [");", ""];
    }
    assert tables[..|tables|] == tables;
  }

  /** The foreign key loop, with the set of constraint names already written. */
  method EmitForeignKeys(rels: seq<Relation>, dumps: Dumps, schema: string) returns (lines: seq<string>)
    ensures lines == ConstraintLines(schema, Emitted(rels, dumps))
  {
    var seen: set<string> := {};
    lines := [];
    for i := 0 to |rels|
      invariant lines == ConstraintLines(schema, Emitted(rels[..i], dumps))
      invariant seen == ConstraintNames(Emitted(rels[..i], dumps))
    {
      var r := rels[i];
      EmittedStep(rels, dumps, i, schema);
      if !(r.sourceTable in dumps && r.targetTable in dumps) {
        continue;
      }
      var tiSrc, tiTgt := dumps[r.sourceTable], dumps[r.targetTable];
      if r.sourceColumn !in tiSrc.columns {
        continue;
      }
      if r.targetColumn !in tiTgt.columns {
        continue;
      }
      if r.constraintName in seen {
        continue;
      }
      lines := lines + [DropConstraint(schema, r), AddConstraint(schema, r)];
      seen := seen + {r.constraintName};
    }
    assert rels[..|rels|] == rels;
  }

  /** One more relation: it is written, and its name recorded, exactly when it qualifies and its name is new. */
  lemma EmittedStep(rels: seq<Relation>, dumps: Dumps, i: nat, schema: string)
    requires i < |rels|
    ensures var es, r := Emitted(rels[..i], dumps), rels[i];
      if Qualifies(r, dumps) && r.constraintName !in ConstraintNames(es) then
        Emitted(rels[..i + 1], dumps) == es + [r] &&
        ConstraintLines(schema, es + [r]) == ConstraintLines(schema, es) + [DropConstraint(schema, r), AddConstraint(schema, r)] &&
        ConstraintNames(es + [r]) == ConstraintNames(es) + {r.constraintName}
      else
        Emitted(rels[..i + 1], dumps) == es
  {
    var es, r := Emitted(rels[..i], dumps), rels[i];
    assert rels[..i + 1][..i] == rels[..i];
    assert (es + [r])[..|es|] == es;
  }

  /** GenerateFilteredSchema, writing into a sequence of lines instead of a file. */
  method GenerateFilteredSchema(tables: seq<Table>, rels: seq<Relation>, dumps: Dumps, schema: string)
    returns (lines: seq<string>)
    ensures lines == SchemaText(tables, rels, dumps, schema)
  {
    lines := Header(schema);
    lines := lines + [DropComment];
    var drops := EmitDrops(tables, dumps, schema);
    DropsReverseJobs(schema, tables, dumps);
    lines := lines + drops + [""];
    var creates := EmitCreates(tables, dumps, schema);
    lines := lines + creates;
    lines := lines + [ForeignKeyComment];
    var fks := EmitForeignKeys(rels, dumps, schema);
    lines := lines + fks;
  }

  // ================================================================ properties

  lemma DropLinesAppend(schema: string, a: seq<Table>, b: seq<Table>)
    ensures DropLines(schema, a + b) == DropLines(schema, a) + DropLines(schema, b)
  {
    assert forall k :: 0 <= k < |a + b| ==>
      DropLines(schema, a + b)[k] == (DropLines(schema, a) + DropLines(schema, b))[k];
  }

  /** Walking the tables backwards drops the tables that have a dump, in reverse declared order. */
  lemma {:induction false} DropsReverseJobs(schema: string, tables: seq<Table>, dumps: Dumps)
    ensures Drops(schema, tables, dumps) == DropLines(schema, Reverse(Jobs(tables, dumps)))
  {
    if tables != [] {
      var t, rest := tables[0], tables[1..];
      DropsReverseJobs(schema, rest, dumps);
      assert tables == [t] + rest;
      JobsAppend([t], rest, dumps);
      assert [t][..0] == [];
      ReverseAppend(Jobs([t], dumps), Jobs(rest, dumps));
      DropLinesAppend(schema, Reverse(Jobs(rest, dumps)), Reverse(Jobs([t], dumps)));
      if t.name in dumps {
        assert Jobs([t], dumps) == [t];
        assert Reverse([t]) == [t];
      } else {
        assert Jobs([t], dumps) == [];
      }
    }
  }

  /** Every written relation is one of the input relations and passes the filters. */
  lemma {:induction false} EmittedSound(rels: seq<Relation>, dumps: Dumps)
    ensures forall e :: e in Emitted(rels, dumps) ==> e in rels && Qualifies(e, dumps)
  {
    if rels != [] {
      var init := rels[..|rels| - 1];
      EmittedSound(init, dumps);
      assert rels == init + [rels[|rels| - 1]];
    }
  }

  /** The file opens with the header, and the DROP comment comes right after it. */
  lemma HeaderFirst(tables: seq<Table>, rels: seq<Relation>, dumps: Dumps, schema: string)
    ensures var text := SchemaText(tables, rels, dumps, schema);
      |text| > 4 && text[..3] == Header(schema) && text[3] == DropComment
  {
  }

  /**
   * The DROP lines: the k-th drops the k-th table with a dump counted from the
   * end of the declaration, so exactly the tables with a dump are dropped, in
   * reverse declared order.
   */
  lemma DropsReversed(tables: seq<Table>, dumps: Dumps, schema: string)
    ensures var jobs := Jobs(tables, dumps);
      var lines := DropLines(schema, Reverse(jobs));
      |lines| == |jobs| &&
      (forall k :: 0 <= k < |jobs| ==> lines[k] == DropLine(schema, jobs[|jobs| - 1 - k].name)) &&
      (forall t :: t in tables && t.name in dumps ==> DropLine(schema, t.name) in lines)
  {
    var jobs := Jobs(tables, dumps);
    var lines := DropLines(schema, Reverse(jobs));
    forall t | t in tables && t.name in dumps ensures DropLine(schema, t.name) in lines {
      var k :| 0 <= k < |jobs| && jobs[k] == t;
      assert lines[|jobs| - 1 - k] == DropLine(schema, t.name);
    }
  }

  /** The tables that get a CREATE TABLE block, in declared order. */
  function Created(tables: seq<Table>, dumps: Dumps): (cs: seq<Table>)
    ensures forall k :: 0 <= k < |cs| ==> cs[k] in tables && Creates(cs[k], dumps)
  {
    if tables == [] then []
    else
      var last := tables[|tables| - 1];
      assert forall t :: t in tables[..|tables| - 1] ==> t in tables;
      Created(tables[..|tables| - 1], dumps) + (if Creates(last, dumps) then [last] else [])
  }

  /** A table is created iff it has a dump that shows at least one declared column. */
  lemma CreatesIff(t: Table, dumps: Dumps)
    ensures Creates(t, dumps) <==>
      t.name in dumps && exists c :: c in t.columns && c.name in dumps[t.name].columns
  {
    if t.name in dumps {
      var kept := KeptColumns(t, dumps);
      if kept != [] {
        assert kept[0] in kept;
      }
    }
  }

  /** Every created table is a declared one with a dump, and every such table with a shared column is created. */
  lemma {:induction false} CreatedExactly(tables: seq<Table>, dumps: Dumps, t: Table)
    ensures t in Created(tables, dumps) <==> t in tables && Creates(t, dumps)
  {
    if tables != [] {
      var init, last := tables[..|tables| - 1], tables[|tables| - 1];
      CreatedExactly(init, dumps, t);
      assert tables == init + [last];
    }
  }

  /** The blocks of `ts`, one after another. */
  function Blocks(schema: string, ts: seq<Table>, dumps: Dumps): seq<string>
    requires forall k :: 0 <= k < |ts| ==> Creates(ts[k], dumps)
  {
    if ts == [] then []
    else
      var last := ts[|ts| - 1];
      assert Creates(last, dumps);
      Blocks(schema, ts[..|ts| - 1], dumps) + CreateBlock(schema, last.name, KeptColumns(last, dumps))
  }

  /** The CREATE section is the blocks of the created tables, in declared order, and nothing else. */
  lemma {:induction false} CreateSectionIsBlocks(schema: string, tables: seq<Table>, dumps: Dumps)
    ensures CreateSection(schema, tables, dumps) == Blocks(schema, Created(tables, dumps), dumps)
  {
    if tables != [] {
      var init, last := tables[..|tables| - 1], tables[|tables| - 1];
      CreateSectionIsBlocks(schema, init, dumps);
      var cs := Created(init, dumps);
      if Creates(last, dumps) {
        assert Created(tables, dumps) == cs + [last];
        assert (cs + [last])[..|cs|] == cs;
        assert Blocks(schema, cs + [last], dumps) ==
          Blocks(schema, cs, dumps) + CreateBlock(schema, last.name, KeptColumns(last, dumps));
      } else {
        assert Created(tables, dumps) == cs + [] == cs;
        assert CreateSection(schema, tables, dumps) == CreateSection(schema, init, dumps) + [];
      }
    }
  }

  /**
   * The column lines of a block: as many as the kept columns, the k-th
   * declares the k-th column, and every one but the last carries the comma.
   */
  lemma ColumnCommas(cols: seq<Column>)
    requires cols != []
    ensures var lines := ColumnLines(cols);
      (forall k :: 0 <= k < |cols| - 1 ==> lines[k] == ColumnDecl(cols[k]) + ",") &&
      lines[|cols| - 1] == ColumnDecl(cols[|cols| - 1])
  {
    assert ColumnLines(cols)[|cols| - 1] == ColumnDecl(cols[|cols| - 1]) + "";
  }

  /** The primary key marker is appended exactly to the columns named Id in any letter case. */
  lemma PrimaryKeyIff(c: Column)
    ensures EqualFold(c.name, "Id") ==> ColumnDecl(c) == "    " + c.name + " " + c.typ + " PRIMARY KEY"
    ensures !EqualFold(c.name, "Id") ==> ColumnDecl(c) == "    " + c.name + " " + c.typ
  {
    assert "    " + c.name + " " + c.typ + "" == "    " + c.name + " " + c.typ;
  }

  /** The k-th kept column is declared under its own name with its type translated by toPgType. */
  lemma TranslatedAt(cols: seq<Column>, k: nat)
    requires k < |cols|
    ensures Translated(cols)[k] == Column(cols[k].name, ToPgType(cols[k].typ))
  {
  }

  /**
   * The CREATE TABLE block of `name` with the kept columns `cols` starts at line
   * `i` of `text`: its opening line, then one line per kept column, in declared
   * order, with the translated type, " PRIMARY KEY" exactly on a column named Id
   * in any letter case and a comma after every column but the last, then ");".
   */
  ghost predicate BlockAt(text: seq<string>, i: nat, schema: string, name: string, cols: seq<Column>) {
    i + |cols| + 2 <= |text| &&
    text[i] == "CREATE TABLE IF NOT EXISTS " + schema + "." + name + " (" &&
    (forall k :: 0 <= k < |cols| ==>
      text[i + 1 + k] == "    " + cols[k].name + " " + ToPgType(cols[k].typ) +
        (if EqualFold(cols[k].name, "Id") then " PRIMARY KEY" else "") +
        (if k + 1 < |cols| then "," else "")) &&
    text[i + 1 + |cols|] == ");"
  }

  /** The line written for the k-th of the kept columns `cols`: translated type, primary key marker, comma. */
  lemma KeptColumnLine(cols: seq<Column>, k: nat)
    requires k < |cols|
    ensures ColumnLines(Translated(cols))[k] == "    " + cols[k].name + " " + ToPgType(cols[k].typ) +
      (if EqualFold(cols[k].name, "Id") then " PRIMARY KEY" else "") +
      (if k + 1 < |cols| then "," else "")
  {
    var pg := Translated(cols);
    assert pg[k] == Column(cols[k].name, ToPgType(cols[k].typ));
    assert ColumnLines(pg)[k] == ColumnLine(pg, k);
  }

  /** A copy of a table's block inside `text` is a BlockAt. */
  lemma BlockAtSlice(text: seq<string>, i: nat, schema: string, name: string, cols: seq<Column>, block: seq<string>)
    requires block == CreateBlock(schema, name, cols)
    requires i + |block| <= |text| && text[i .. i + |block|] == block
    ensures BlockAt(text, i, schema, name, cols)
  {
    assert |block| == |cols| + 3;
    assert text[i] == block[0];
    forall k | 0 <= k < |cols|
      ensures text[i + 1 + k] == "    " + cols[k].name + " " + ToPgType(cols[k].typ) +
        (if EqualFold(cols[k].name, "Id") then " PRIMARY KEY" else "") +
        (if k + 1 < |cols| then "," else "")
    {
      assert text[i + 1 + k] == block[1 + k] == ColumnLines(Translated(cols))[k];
      KeptColumnLine(cols, k);
    }
    assert text[i + 1 + |cols|] == block[1 + |cols|];
  }

  lemma {:induction false} BlocksAppend(schema: string, a: seq<Table>, b: seq<Table>, dumps: Dumps)
    requires forall k :: 0 <= k < |a| ==> Creates(a[k], dumps)
    requires forall k :: 0 <= k < |b| ==> Creates(b[k], dumps)
    ensures forall k :: 0 <= k < |a + b| ==> Creates((a + b)[k], dumps)
    ensures Blocks(schema, a + b, dumps) == Blocks(schema, a, dumps) + Blocks(schema, b, dumps)
  {
    if b != [] {
      var init, last := b[..|b| - 1], b[|b| - 1];
      BlocksAppend(schema, a, init, dumps);
      assert (a + b)[..|a + b| - 1] == a + init;
    } else {
      assert a + b == a;
    }
  }

  /** A piece in the middle of a concatenation sits at the offset given by what precedes it. */
  lemma SliceOfMiddle<T>(text: seq<T>, h: seq<T>, a: seq<T>, mid: seq<T>, u: seq<T>, v: seq<T>, x: seq<T>, b: seq<T>, y: seq<T>, i: nat)
    requires text == h + (a + mid + u + v) && mid == x + b + y && i == |h| + |a| + |x|
    ensures i + |b| <= |text| && text[i .. i + |b|] == b
  {
    assert forall k :: 0 <= k < |b| ==> text[i + k] == b[k];
  }

  /** The blocks of the created tables split around the k-th one. */
  lemma BlocksAround(schema: string, cs: seq<Table>, k: nat, dumps: Dumps)
    requires k < |cs| && forall j :: 0 <= j < |cs| ==> Creates(cs[j], dumps)
    ensures Blocks(schema, cs, dumps) ==
      Blocks(schema, cs[..k], dumps) + CreateBlock(schema, cs[k].name, KeptColumns(cs[k], dumps)) +
      Blocks(schema, cs[k + 1..], dumps)
  {
    assert cs == cs[..k] + [cs[k]] + cs[k + 1..];
    BlocksAppend(schema, cs[..k], [cs[k]], dumps);
    BlocksAppend(schema, cs[..k] + [cs[k]], cs[k + 1..], dumps);
    assert Blocks(schema, [cs[k]], dumps) == CreateBlock(schema, cs[k].name, KeptColumns(cs[k], dumps)) by {
      assert [cs[k]][..0] == [];
    }
  }

  /**
   * Every declared table that has a dump sharing a column gets its CREATE TABLE
   * block in the written file, with the comma and primary key rules on each of
   * its column lines.
   */
  lemma CreatedTableLines(tables: seq<Table>, rels: seq<Relation>, dumps: Dumps, schema: string, t: Table)
    requires t in tables && Creates(t, dumps)
    ensures exists i :: BlockAt(SchemaText(tables, rels, dumps, schema), i, schema, t.name, KeptColumns(t, dumps))
  {
    var text := SchemaText(tables, rels, dumps, schema);
    var cs := Created(tables, dumps);
    CreatedExactly(tables, dumps, t);
    var k :| 0 <= k < |cs| && cs[k] == t;
    CreateSectionIsBlocks(schema, tables, dumps);
    BlocksAround(schema, cs, k, dumps);
    var cols := KeptColumns(t, dumps);
    var block := CreateBlock(schema, t.name, cols);
    var h, a := Header(schema), [DropComment] + DropLines(schema, Reverse(Jobs(tables, dumps))) + [""];
    var x, y := Blocks(schema, cs[..k], dumps), Blocks(schema, cs[k + 1..], dumps);
    var u, v := [ForeignKeyComment], ConstraintLines(schema, Emitted(rels, dumps));
    assert text == h + (a + CreateSection(schema, tables, dumps) + u + v);
    var i := |h| + |a| + |x|;
    SliceOfMiddle(text, h, a, CreateSection(schema, tables, dumps), u, v, x, block, y, i);
    BlockAtSlice(text, i, schema, t.name, cols, block);
  }

  predicate DistinctNames(es: seq<Relation>) {
    forall i, j :: 0 <= i < j < |es| ==> es[i].constraintName != es[j].constraintName
  }

  /** No constraint name is written twice. */
  lemma {:induction false} EmittedDistinct(rels: seq<Relation>, dumps: Dumps)
    ensures DistinctNames(Emitted(rels, dumps))
  {
    if rels != [] {
      var init, r := rels[..|rels| - 1], rels[|rels| - 1];
      EmittedDistinct(init, dumps);
      var es := Emitted(init, dumps);
      if Qualifies(r, dumps) && r.constraintName !in ConstraintNames(es) {
        var es' := es + [r];
        forall i, j | 0 <= i < j < |es'| ensures es'[i].constraintName != es'[j].constraintName {
          if j == |es| {
            assert es'[i] == es[i] && es'[j] == r;
            assert es[i] in es;
            assert es[i].constraintName in ConstraintNames(es);
          } else {
            assert es'[i] == es[i] && es'[j] == es[j];
          }
        }
        assert Emitted(rels, dumps) == es';
      } else {
        assert Emitted(rels, dumps) == es;
      }
    }
  }

  /**
   * A name is written iff some qualifying relation carries it: a relation
   * rejected by the filters does not reserve its name.
   */
  lemma {:induction false} EmittedNames(rels: seq<Relation>, dumps: Dumps, name: string)
    ensures name in ConstraintNames(Emitted(rels, dumps)) <==>
      exists r :: r in rels && Qualifies(r, dumps) && r.constraintName == name
  {
    if rels != [] {
      var init, r := rels[..|rels| - 1], rels[|rels| - 1];
      EmittedNames(init, dumps, name);
      EmittedSound(rels, dumps);
      var es := Emitted(init, dumps);
      assert rels == init + [r];
      if Qualifies(r, dumps) && r.constraintName !in ConstraintNames(es) {
        assert ConstraintNames(es + [r]) == ConstraintNames(es) + {r.constraintName};
      }
      var es' := Emitted(rels, dumps);
      if name in ConstraintNames(es') {
        var e :| e in es' && e.constraintName == name;
        var k :| 0 <= k < |es'| && es'[k] == e;
      }
    }
  }

  /**
   * The first qualifying relation with a given name is the one written for
   * that name, and no other relation with that name is written.
   */
  lemma {:induction false} FirstWins(rels: seq<Relation>, dumps: Dumps, j: nat)
    requires j < |rels| && Qualifies(rels[j], dumps)
    requires forall i :: 0 <= i < j ==> !(Qualifies(rels[i], dumps) && rels[i].constraintName == rels[j].constraintName)
    ensures rels[j] in Emitted(rels, dumps)
    ensures forall e :: e in Emitted(rels, dumps) && e.constraintName == rels[j].constraintName ==> e == rels[j]
  {
    var init, r := rels[..|rels| - 1], rels[|rels| - 1];
    var es := Emitted(init, dumps);
    assert rels == init + [r];
    EmittedSound(init, dumps);
    if j < |rels| - 1 {
      FirstWins(init, dumps, j);
      assert init[j] == rels[j];
      if Qualifies(r, dumps) && r.constraintName !in ConstraintNames(es) {
        assert rels[j].constraintName in ConstraintNames(es) by {
          assert rels[j] in es;
        }
      }
    } else {
      assert r == rels[j];
      forall e | e in es ensures e.constraintName != r.constraintName {
        var k :| 0 <= k < |es| && es[k] == e;
        var i :| 0 <= i < |init| && init[i] == e;
        assert rels[i] == e;
      }
      assert r.constraintName !in ConstraintNames(es);
    }
  }
}
