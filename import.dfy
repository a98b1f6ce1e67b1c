/**
 * The batch importer of database/import.go. ImportDataToPostgres selects the
 * declared tables that have a dump, disables their triggers, imports each one,
 * and re-enables the triggers. ImportSingleTable streams the rows of one dump
 * into parameterized INSERT statements of 1000 rows inside one transaction.
 * The database is the abstract recorder of module Recorder.
 */
module Import {
  import opened Wrappers
  import opened Strings
  import opened Seqs
  import opened Types
  import opened XmlTokens
  import opened Recorder

  /** Rows per INSERT statement. */
  const BatchSize: nat := 1000

  /** The values one row contributes, one per selected column. */
  type Row = seq<SqlValue>

  // ================================================================ job selection

  /** The declared tables that have a dump, collected by an append loop. */
  method SelectJobs(tables: seq<Table>, dumps: Dumps) returns (jobs: seq<Table>)
    ensures jobs == Jobs(tables, dumps)
  {
    jobs := [];
    for i := 0 to |tables|
      invariant jobs == Jobs(tables[..i], dumps)
    {
      assert tables[..i + 1][..i] == tables[..i];
      if tables[i].name in dumps {
        jobs := jobs + [tables[i]];
      }
    }
    assert tables[..|tables|] == tables;
  }

  /** The names of the declared columns present in the dump, in declared order. */
  method SelectColumnNames(declared: seq<Column>, present: map<string, string>) returns (cols: seq<string>)
    ensures cols == Names(SelectColumns(declared, present))
  {
    cols := [];
    for i := 0 to |declared|
      invariant cols == Names(SelectColumns(declared[..i], present))
    {
      assert declared[..i + 1][..i] == declared[..i];
      if declared[i].name in present {
        cols := cols + [declared[i].name];
      }
    }
    assert declared[..|declared|] == declared;
  }

  // ================================================================ row extraction

  /** The value of the first attribute whose local name is `col`, or NULL when there is none. */
  function Lookup(attrs: seq<Attr>, col: string): (v: SqlValue)
    ensures v == Null <==> forall i :: 0 <= i < |attrs| ==> attrs[i].local != col
  {
    if attrs == [] then Null
    else if attrs[0].local == col then Text(attrs[0].value)
    else
      var v := Lookup(attrs[1..], col);
      assert forall i :: 1 <= i < |attrs| ==> attrs[i] == attrs[1..][i - 1];
      v
  }

  /** When attribute `j` is the first one named `col`, its value is the one looked up. */
  lemma {:induction false} LookupFirst(attrs: seq<Attr>, col: string, j: nat)
    requires j < |attrs| && attrs[j].local == col
    requires forall i :: 0 <= i < j ==> attrs[i].local != col
    ensures Lookup(attrs, col) == Text(attrs[j].value)
  {
    if j > 0 {
      LookupFirst(attrs[1..], col, j - 1);
    }
  }

  /** The values a decoded row contributes. */
  function RowValues(attrs: seq<Attr>, cols: seq<string>): (vs: Row)
    ensures |vs| == |cols|
  {
    seq(|cols|, k requires 0 <= k < |cols| => Lookup(attrs, cols[k]))
  }

  lemma RowValuesSnoc(attrs: seq<Attr>, cols: seq<string>, k: nat)
    requires k < |cols|
    ensures RowValues(attrs, cols[..k + 1]) == RowValues(attrs, cols[..k]) + [Lookup(attrs, cols[k])]
  {
  }

  /**
   * The nested loop of importSingleTable that appends one decoded row: for each
   * selected column, the first attribute with that local name, else nil.
   */
  method AppendRowValues(values: seq<SqlValue>, attrs: seq<Attr>, cols: seq<string>) returns (out: seq<SqlValue>)
    ensures out == values + RowValues(attrs, cols)
  {
    out := values;
    for k := 0 to |cols|
      invariant out == values + RowValues(attrs, cols[..k])
    {
      RowValuesSnoc(attrs, cols, k);
      ghost var mid := out;
      var found := false;
      var j := 0;
      while j < |attrs|
        invariant 0 <= j <= |attrs|
        invariant !found && out == mid
        invariant forall i :: 0 <= i < j ==> attrs[i].local != cols[k]
      {
        if attrs[j].local == cols[k] {
          LookupFirst(attrs, cols[k], j);
          out := out + [Text(attrs[j].value)];
          found := true;
          break;
        }
        j := j + 1;
      }
      if !found {
        out := out + [Null];
      }
    }
    assert cols[..|cols|] == cols;
  }

  /** The rows decoded from a dump, as value tuples over the selected columns. */
  function DecodedValues(toks: seq<Token>, cols: seq<string>): (rows: seq<Row>)
    ensures |rows| == |DecodedRows(toks)|
    ensures forall k :: 0 <= k < |rows| ==> |rows[k]| == |cols|
  {
    var r := DecodedRows(toks);
    seq(|r|, k requires 0 <= k < |r| => RowValues(r[k], cols))
  }

  // ================================================================ statements

  /** The placeholder numbers of tuple `i` (counting from 0) when each tuple has `w` columns. */
  function TupleSlots(i: nat, w: nat): seq<nat> {
    seq(w, j requires 0 <= j < w => i * w + j + 1)
  }

  function Dollar(n: nat): string {
    "$" + NatToString(n)
  }

  function TupleText(slots: seq<nat>): string {
    "(" + Join(seq(|slots|, j requires 0 <= j < |slots| => Dollar(slots[j])), ",") + ")"
  }

  /** The placeholder tuples of a statement inserting `tuples` rows of `w` columns. */
  function Placeholders(tuples: nat, w: nat): seq<string> {
    seq(tuples, i requires 0 <= i < tuples => TupleText(TupleSlots(i, w)))
  }

  /** Read tuple by tuple, the placeholders of a statement are exactly $1 .. $(tuples * w), in order. */
  lemma {:induction false} SlotsRowMajor(tuples: nat, w: nat)
    ensures Flatten(seq(tuples, i requires 0 <= i < tuples => TupleSlots(i, w))) ==
      seq(tuples * w, k requires 0 <= k < tuples * w => k + 1)
  {
    var all := seq(tuples, i requires 0 <= i < tuples => TupleSlots(i, w));
    if tuples > 0 {
      var init := seq(tuples - 1, i requires 0 <= i < tuples - 1 => TupleSlots(i, w));
      assert all == init + [TupleSlots(tuples - 1, w)];
      SlotsRowMajor(tuples - 1, w);
      FlattenAppend(init, [TupleSlots(tuples - 1, w)]);
      FlattenOne(TupleSlots(tuples - 1, w));
      assert tuples * w == (tuples - 1) * w + w;
    } else {
      assert all == [];
    }
  }

  lemma PlaceholdersSnoc(tuples: nat, w: nat)
    ensures Placeholders(tuples + 1, w) == Placeholders(tuples, w) + [TupleText(TupleSlots(tuples, w))]
  {
  }

  /** The numbered placeholders of one tuple whose first slot follows `base`. */
  method TuplePlaceholders(base: nat, w: nat) returns (ph: seq<string>)
    ensures ph == seq(w, m requires 0 <= m < w => Dollar(base + m + 1))
  {
    ph := [];
    for j := 0 to w
      invariant ph == seq(j, m requires 0 <= m < j => Dollar(base + m + 1))
    {
      ph := ph + [Dollar(base + j + 1)];
    }
  }

  lemma TupleTextAt(i: nat, w: nat, ph: seq<string>)
    requires ph == seq(w, m requires 0 <= m < w => Dollar(i * w + m + 1))
    ensures "(" + Join(ph, ",") + ")" == TupleText(TupleSlots(i, w))
  {
    var slots := TupleSlots(i, w);
    assert ph == seq(|slots|, m requires 0 <= m < |slots| => Dollar(slots[m]));
  }

  /** The placeholder tuples, built by the nested append loop of importSingleTable. */
  method BuildPlaceholders(tuples: nat, w: nat) returns (placeholders: seq<string>)
    ensures placeholders == Placeholders(tuples, w)
  {
    placeholders := [];
    for i := 1 to tuples + 1
      invariant placeholders == Placeholders(i - 1, w)
    {
      var ph := TuplePlaceholders((i - 1) * w, w);
      TupleTextAt(i - 1, w, ph);
      PlaceholdersSnoc(i - 1, w);
      placeholders := placeholders + ["(" + Join(ph, ",") + ")"];
    }
  }

  /** The text of `INSERT INTO schema.table (c1, c2, ...) VALUES <placeholders>`. */
  function InsertText(schema: string, table: string, cols: seq<string>, placeholders: seq<string>): string {
    "INSERT INTO " + schema + "." + table + " (" + Join(cols, ", ") + ") VALUES " + Join(placeholders, ", ")
  }

  /** The INSERT statement for `tuples` rows. */
  function InsertQuery(schema: string, table: string, cols: seq<string>, tuples: nat): string {
    InsertText(schema, table, cols, Placeholders(tuples, |cols|))
  }

  // ================================================================ batches

  /** The batches the rolling buffer cuts a row sequence into. */
  function Chunks<T>(xs: seq<T>): seq<seq<T>>
    decreases |xs|
  {
    if xs == [] then []
    else if |xs| <= BatchSize then [xs]
    else [xs[..BatchSize]] + Chunks(xs[BatchSize..])
  }

  /**
   * The batches are consecutive and non-empty, all of BatchSize rows except
   * the last, and together they are the rows in order.
   */
  lemma {:induction false} ChunksSpec<T>(xs: seq<T>)
    ensures Flatten(Chunks(xs)) == xs
    ensures forall k :: 0 <= k < |Chunks(xs)| ==> 0 < |Chunks(xs)[k]| <= BatchSize
    ensures forall k :: 0 <= k < |Chunks(xs)| - 1 ==> |Chunks(xs)[k]| == BatchSize
    decreases |xs|
  {
    if xs == [] {
    } else if |xs| <= BatchSize {
      FlattenOne(xs);
    } else {
      var rest := Chunks(xs[BatchSize..]);
      ChunksSpec(xs[BatchSize..]);
      assert Chunks(xs)[1..] == rest;
      assert xs == xs[..BatchSize] + xs[BatchSize..];
    }
  }

  /** There are ceil(|xs| / BatchSize) batches. */
  lemma {:induction false} ChunkCount<T>(xs: seq<T>)
    ensures |Chunks(xs)| == (|xs| + BatchSize - 1) / BatchSize
    decreases |xs|
  {
    if |xs| > BatchSize {
      ChunkCount(xs[BatchSize..]);
    }
  }

  /** Batch `k` holds the rows k * BatchSize up to (k + 1) * BatchSize (or the end). */
  lemma {:induction false} ChunkAt<T>(xs: seq<T>, k: nat)
    requires k * BatchSize < |xs|
    ensures k < |Chunks(xs)|
    ensures Chunks(xs)[k] ==
      xs[k * BatchSize .. if (k + 1) * BatchSize <= |xs| then (k + 1) * BatchSize else |xs|]
    decreases k
  {
    if k > 0 {
      var ys := xs[BatchSize..];
      ChunkAt(ys, k - 1);
      assert ys[(k - 1) * BatchSize ..] == xs[k * BatchSize ..];
    }
  }

  /** The calls that insert one batch: a full batch reuses the prepared 1000-row statement, the short last one prepares its own. */
  function ChunkCalls(schema: string, table: string, cols: seq<string>, chunk: seq<Row>): seq<Call> {
    if |chunk| == BatchSize then
      [StmtExec(InsertQuery(schema, table, cols, BatchSize), Flatten(chunk))]
    else
      [Prepare(InsertQuery(schema, table, cols, |chunk|)),
       StmtExec(InsertQuery(schema, table, cols, |chunk|), Flatten(chunk))]
  }

  function BatchCalls(schema: string, table: string, cols: seq<string>, cs: seq<seq<Row>>): seq<Call> {
    if cs == [] then []
    else BatchCalls(schema, table, cols, cs[..|cs| - 1]) + ChunkCalls(schema, table, cols, cs[|cs| - 1])
  }

  lemma {:induction false} BatchCallsAppend(schema: string, table: string, cols: seq<string>, a: seq<seq<Row>>, b: seq<seq<Row>>)
    ensures BatchCalls(schema, table, cols, a + b) ==
      BatchCalls(schema, table, cols, a) + BatchCalls(schema, table, cols, b)
  {
    if b == [] {
      assert a + b == a;
    } else {
      assert (a + b)[..|a + b| - 1] == a + b[..|b| - 1];
      assert (a + b)[|a + b| - 1] == b[|b| - 1];
      BatchCallsAppend(schema, table, cols, a, b[..|b| - 1]);
    }
  }

  /** The transaction opening: Begin, then Prepare of the 1000-row statement. */
  function PlanHead(schema: string, table: string, cols: seq<string>): seq<Call> {
    [Begin, Prepare(InsertQuery(schema, table, cols, BatchSize))]
  }

  /** The calls of the transaction before its Commit. */
  function PlanBody(schema: string, table: string, cols: seq<string>, rows: seq<Row>): seq<Call> {
    PlanHead(schema, table, cols) + BatchCalls(schema, table, cols, Chunks(rows))
  }

  /** Every call importSingleTable issues for `rows` when none of them fails. */
  function TablePlan(schema: string, table: string, cols: seq<string>, rows: seq<Row>): seq<Call> {
    PlanBody(schema, table, cols, rows) + [Commit]
  }

  /** The calls of a batch sequence split around batch `f`. */
  lemma BatchCallsAt(schema: string, table: string, cols: seq<string>, cs: seq<seq<Row>>, f: nat)
    requires f < |cs|
    ensures BatchCalls(schema, table, cols, cs) ==
      BatchCalls(schema, table, cols, cs[..f]) + ChunkCalls(schema, table, cols, cs[f]) +
      BatchCalls(schema, table, cols, cs[f + 1..])
    ensures BatchCalls(schema, table, cols, cs[..f + 1]) ==
      BatchCalls(schema, table, cols, cs[..f]) + ChunkCalls(schema, table, cols, cs[f])
  {
    assert cs == cs[..f] + [cs[f]] + cs[f + 1..];
    BatchCallsAppend(schema, table, cols, cs[..f] + [cs[f]], cs[f + 1..]);
    BatchCallsAppend(schema, table, cols, cs[..f], [cs[f]]);
    assert [cs[f]][..0] == [];
    assert BatchCalls(schema, table, cols, [cs[f]]) == ChunkCalls(schema, table, cols, cs[f]);
    assert cs[..f + 1] == cs[..f] + [cs[f]];
  }

  // ================================================================ what the plan executes

  /** The arguments of all StmtExec calls, concatenated in order. */
  function ExecArgs(calls: seq<Call>): seq<SqlValue> {
    if calls == [] then [] else ExecArgs(calls[..|calls| - 1]) + CallArgs(calls[|calls| - 1])
  }

  function CallArgs(c: Call): seq<SqlValue> {
    if c.StmtExec? then c.args else []
  }

  lemma ExecArgsSnoc(calls: seq<Call>, c: Call)
    ensures ExecArgs(calls + [c]) == ExecArgs(calls) + CallArgs(c)
  {
    assert (calls + [c])[..|calls|] == calls;
  }

  lemma {:induction false} ExecArgsAppend(a: seq<Call>, b: seq<Call>)
    ensures ExecArgs(a + b) == ExecArgs(a) + ExecArgs(b)
    decreases |b|
  {
    if b == [] {
      assert a + b == a;
    } else {
      var init, last := b[..|b| - 1], b[|b| - 1];
      assert b == init + [last];
      calc {
        ExecArgs(a + b);
        { assert a + b == (a + init) + [last]; }
        ExecArgs((a + init) + [last]);
        { ExecArgsSnoc(a + init, last); }
        ExecArgs(a + init) + CallArgs(last);
        { ExecArgsAppend(a, init); }
        ExecArgs(a) + ExecArgs(init) + CallArgs(last);
        { ExecArgsSnoc(init, last); }
        ExecArgs(a) + ExecArgs(b);
      }
    }
  }

  lemma ExecArgsChunk(schema: string, table: string, cols: seq<string>, c: seq<Row>)
    ensures ExecArgs(ChunkCalls(schema, table, cols, c)) == Flatten(c)
  {
    var cc := ChunkCalls(schema, table, cols, c);
    if |c| == BatchSize {
      assert cc[..|cc| - 1] == [];
    } else {
      assert cc[..|cc| - 1] == [cc[0]];
      assert [cc[0]][..0] == [];
      assert ExecArgs([cc[0]]) == [];
    }
  }

  lemma ExecArgsNone(a: Call, b: Call)
    requires !a.StmtExec? && !b.StmtExec?
    ensures ExecArgs([a]) == [] && ExecArgs([a, b]) == []
  {
    assert [a][..0] == [];
    assert [a, b][..1] == [a];
  }

  lemma {:induction false} BatchArgs(schema: string, table: string, cols: seq<string>, cs: seq<seq<Row>>)
    ensures ExecArgs(BatchCalls(schema, table, cols, cs)) == Flatten(Flatten(cs))
  {
    if cs != [] {
      var init, c := cs[..|cs| - 1], cs[|cs| - 1];
      assert ExecArgs(BatchCalls(schema, table, cols, cs)) == Flatten(Flatten(init)) + Flatten(c) by {
        BatchArgs(schema, table, cols, init);
        ExecArgsAppend(BatchCalls(schema, table, cols, init), ChunkCalls(schema, table, cols, c));
        ExecArgsChunk(schema, table, cols, c);
      }
      assert Flatten(cs) == Flatten(init) + c by {
        assert cs == init + [c];
        FlattenAppend(init, [c]);
        FlattenOne(c);
      }
      FlattenAppend(Flatten(init), c);
    }
  }

  /**
   * The batches of the plan, concatenated, are exactly the decoded rows in
   * document order: nothing is dropped, duplicated or reordered.
   */
  lemma PlanArgsAreRows(schema: string, table: string, cols: seq<string>, rows: seq<Row>)
    ensures ExecArgs(TablePlan(schema, table, cols, rows)) == Flatten(rows)
  {
    var cs := Chunks(rows);
    ChunksSpec(rows);
    BatchArgs(schema, table, cols, cs);
    ExecArgsAppend(PlanHead(schema, table, cols), BatchCalls(schema, table, cols, cs));
    ExecArgsAppend(PlanHead(schema, table, cols) + BatchCalls(schema, table, cols, cs), [Commit]);
    ExecArgsNone(Begin, Prepare(InsertQuery(schema, table, cols, BatchSize)));
    ExecArgsNone(Commit, Commit);
  }

  /**
   * With 2500 rows the plan executes the 1000-row statement twice and a
   * right-sized 500-row statement once.
   */
  lemma Plan2500(schema: string, table: string, cols: seq<string>, rows: seq<Row>)
    requires |rows| == 2500
    ensures var full, last := InsertQuery(schema, table, cols, 1000), InsertQuery(schema, table, cols, 500);
      TablePlan(schema, table, cols, rows) ==
        [Begin, Prepare(full),
         StmtExec(full, Flatten(rows[..1000])),
         StmtExec(full, Flatten(rows[1000..2000])),
         Prepare(last), StmtExec(last, Flatten(rows[2000..])),
         Commit]
  {
    var r1 := rows[1000..];
    var r2 := r1[1000..];
    assert Chunks(r2) == [r2];
    assert Chunks(r1) == [r1[..1000]] + [r2];
    var cs := Chunks(rows);
    assert cs == [rows[..1000], r1[..1000], r2];
    assert r1[..1000] == rows[1000..2000];
    assert r2 == rows[2000..];
    var full, last := InsertQuery(schema, table, cols, 1000), InsertQuery(schema, table, cols, 500);
    assert ChunkCalls(schema, table, cols, cs[0]) == [StmtExec(full, Flatten(rows[..1000]))];
    assert ChunkCalls(schema, table, cols, cs[1]) == [StmtExec(full, Flatten(rows[1000..2000]))];
    assert ChunkCalls(schema, table, cols, cs[2]) == [Prepare(last), StmtExec(last, Flatten(rows[2000..]))];
    assert cs[..1][..0] == [];
    assert BatchCalls(schema, table, cols, cs[..1]) == ChunkCalls(schema, table, cols, cs[0]);
    assert cs[..2][..1] == cs[..1];
    assert BatchCalls(schema, table, cols, cs[..2]) ==
      ChunkCalls(schema, table, cols, cs[0]) + ChunkCalls(schema, table, cols, cs[1]);
    assert cs[..3][..2] == cs[..2] && cs[..3] == cs;
    assert BatchCalls(schema, table, cols, cs) ==
      ChunkCalls(schema, table, cols, cs[0]) + ChunkCalls(schema, table, cols, cs[1]) +
      ChunkCalls(schema, table, cols, cs[2]);
  }

  // ================================================================ executeBatch

  /** `values` padded with NULLs up to `n` entries; nothing is dropped. */
  function Padded(values: seq<SqlValue>, n: nat): (r: seq<SqlValue>)
    ensures |r| == if |values| < n then n else |values|
    ensures r[..|values|] == values
    ensures forall k :: |values| <= k < |r| ==> r[k] == Null
  {
    if |values| < n then values + seq(n - |values|, _ => Null) else values
  }

  /** executeBatch: pad the arguments with nil up to batchSize * cols, then execute the statement once. */
  method ExecuteBatch(db: Db, stmt: string, values: seq<SqlValue>, batchSize: nat, cols: nat)
    returns (db': Db, ok: bool)
    ensures (db', ok) == Issue(db, StmtExec(stmt, Padded(values, batchSize * cols)))
  {
    var expectedArgs := batchSize * cols;
    var vs := values;
    if |vs| < expectedArgs {
      while |vs| < expectedArgs
        invariant |values| <= |vs| <= expectedArgs
        invariant vs[..|values|] == values
        invariant forall k :: |values| <= k < |vs| ==> vs[k] == Null
        decreases expectedArgs - |vs|
      {
        vs := vs + [Null];
      }
    }
    assert vs == Padded(values, expectedArgs);
    db', ok := Perform(db, StmtExec(stmt, vs));
  }

  // ================================================================ importSingleTable

  datatype Outcome =
    | Skipped            // no declared column occurs in the dump: nil is returned at once
    | OpenFailed         // the table's XML file could not be opened
    | Failed(call: Call) // the call that returned an error; the rest was not attempted
    | Imported(rows: nat) // committed, with this many rows

  /**
   * The effect of importSingleTable on the database and what it reports. After
   * a failure between Begin and Commit the deferred Rollback reaches the
   * database (its error is ignored); after a failed Begin there is no
   * transaction, and after a Commit attempt the transaction is already done,
   * so the deferred Rollback issues nothing.
   */
  function ImportEffect(db: Db, schema: string, table: Table, ti: TableInfo, files: map<string, seq<Token>>)
    : (Db, Outcome)
  {
    var cols := Names(SelectColumns(table.columns, ti.columns));
    if cols == [] then (db, Skipped)
    else if table.name !in files then (db, OpenFailed)
    else
      var toks := files[table.name];
      var (d, failure) := Settle(db, TablePlan(schema, table.name, cols, DecodedValues(toks, cols)));
      (d, if failure.None? then Imported(|DecodedRows(toks)|) else Failed(failure.value))
  }

  /**
   * Run a transaction's plan and then the deferred Rollback, which reaches the
   * database only while the transaction is open: not after a failed Begin,
   * and not after the Commit attempt. Also gives the call that failed.
   */
  function Settle(db: Db, plan: seq<Call>): (Db, Option<Call>) {
    var r := Run(db, plan);
    match r.failed
    case None => (r.db, None)
    case Some(k) =>
      var c := plan[k];
      (if c == Begin || c == Commit then r.db else Issue(r.db, Rollback).0, Some(c))
  }

  /** A settled plan adds its calls up to the failing one, and a Rollback only after a failure. */
  lemma SettleLog(db: Db, plan: seq<Call>)
    ensures var (d, failure) := Settle(db, plan);
      var r := Run(db, plan);
      d.failsAt == db.failsAt && |db.log| <= |d.log| && d.log[..|db.log|] == db.log &&
      (failure.None? ==> d.log[|db.log|..] == plan) &&
      (failure.None? <==> r.failed.None?) &&
      (failure.Some? ==>
        var k := r.failed.value;
        failure.value == plan[k] &&
        d.log[|db.log|..] == plan[..k + 1] + (if plan[k] == Begin || plan[k] == Commit then [] else [Rollback]))
  {
    RunLog(db, plan);
    var r := Run(db, plan);
    if r.failed.Some? {
      assert r.db.log[|db.log|..] == plan[..r.failed.value + 1];
      assert Issue(r.db, Rollback).0.log[|db.log|..] == plan[..r.failed.value + 1] + [Rollback];
      assert plan[..r.failed.value + 1] + [] == plan[..r.failed.value + 1];
    } else {
      assert r.db.log[|db.log|..] == plan;
    }
  }

  // ---------------------------------------------------------------- the state of the token loop

  /** With |xs| == b * BatchSize + cur and cur < BatchSize there are b batches, plus one when cur > 0. */
  lemma {:induction false} ChunkCountExact<T>(xs: seq<T>, b: nat, cur: nat)
    requires |xs| == b * BatchSize + cur && cur < BatchSize
    ensures |Chunks(xs)| == if cur == 0 then b else b + 1
    decreases b
  {
    if b > 0 {
      assert |xs[BatchSize..]| == (b - 1) * BatchSize + cur;
      ChunkCountExact(xs[BatchSize..], b - 1, cur);
    }
  }

  /**
   * importSingleTable after `full` complete batches and `cur` more rows held in
   * `values`: Begin, Prepare and the INSERT of every complete batch have
   * succeeded, leaving the database in state `d`.
   */
  ghost predicate Streamed(db: Db, d: Db, schema: string, table: string, cols: seq<string>, rows: seq<Row>,
                           full: nat, cur: nat, values: seq<SqlValue>)
  {
    full * BatchSize + cur <= |rows| && cur < BatchSize && full <= |Chunks(rows)| &&
    values == Flatten(rows[full * BatchSize .. full * BatchSize + cur]) &&
    Run(db, PlanHead(schema, table, cols) + BatchCalls(schema, table, cols, Chunks(rows)[..full]))
      == RunResult(d, None)
  }

  /** The plan stopped at call `c`, and `d` is the state right after it. */
  ghost predicate FailedAt(db: Db, d: Db, plan: seq<Call>, c: Call) {
    var r := Run(db, plan);
    r.failed.Some? && r.db == d && plan[r.failed.value] == c
  }

  lemma StreamStart(db: Db, d: Db, schema: string, table: string, cols: seq<string>, rows: seq<Row>)
    requires Run(db, PlanHead(schema, table, cols)) == RunResult(d, None)
    ensures Streamed(db, d, schema, table, cols, rows, 0, 0, [])
  {
    assert Chunks(rows)[..0] == [];
    assert PlanHead(schema, table, cols) + [] == PlanHead(schema, table, cols);
    assert rows[0..0] == [];
  }

  /** Appending the next row to a buffer of consecutive rows. */
  lemma BufferSnoc(rows: seq<Row>, a: nat, n: nat)
    requires a <= n < |rows|
    ensures Flatten(rows[a..n]) + rows[n] == Flatten(rows[a..n + 1])
  {
    assert rows[a..n + 1] == rows[a..n] + [rows[n]];
    FlattenAppend(rows[a..n], [rows[n]]);
    FlattenOne(rows[n]);
  }

  /** A row that does not complete a batch is only buffered. */
  lemma StreamRow(db: Db, d: Db, schema: string, table: string, cols: seq<string>, rows: seq<Row>,
                  full: nat, cur: nat, values: seq<SqlValue>)
    requires Streamed(db, d, schema, table, cols, rows, full, cur, values)
    requires full * BatchSize + cur < |rows| && cur + 1 < BatchSize
    ensures Streamed(db, d, schema, table, cols, rows, full, cur + 1, values + rows[full * BatchSize + cur])
  {
    BufferSnoc(rows, full * BatchSize, full * BatchSize + cur);
  }

  /** A full batch is inserted by one execution of the 1000-row statement. */
  lemma FullChunkCalls(schema: string, table: string, cols: seq<string>, chunk: seq<Row>, args: seq<SqlValue>)
    requires |chunk| == BatchSize && Flatten(chunk) == args
    ensures ChunkCalls(schema, table, cols, chunk) == [StmtExec(InsertQuery(schema, table, cols, BatchSize), args)]
  {
  }

  /** One more single-call batch after a successful run through the batches before it. */
  lemma ExtendBatches(db: Db, d: Db, head: seq<Call>, schema: string, table: string, cols: seq<string>,
                      cs: seq<seq<Row>>, f: nat, c: Call)
    requires f < |cs| && ChunkCalls(schema, table, cols, cs[f]) == [c]
    requires Run(db, head + BatchCalls(schema, table, cols, cs[..f])) == RunResult(d, None)
    ensures Issue(d, c).1 ==>
      Run(db, head + BatchCalls(schema, table, cols, cs[..f + 1])) == RunResult(Issue(d, c).0, None)
    ensures !Issue(d, c).1 ==>
      Run(db, head + BatchCalls(schema, table, cols, cs) + [Commit]) ==
        RunResult(Issue(d, c).0, Some(|head + BatchCalls(schema, table, cols, cs[..f])|))
    ensures |head + BatchCalls(schema, table, cols, cs[..f])| < |head + BatchCalls(schema, table, cols, cs) + [Commit]| &&
      (head + BatchCalls(schema, table, cols, cs) + [Commit])[|head + BatchCalls(schema, table, cols, cs[..f])|] == c
  {
    var prefix := head + BatchCalls(schema, table, cols, cs[..f]);
    var rest := BatchCalls(schema, table, cols, cs[f + 1..]) + [Commit];
    BatchCallsAt(schema, table, cols, cs, f);
    Regroup(head, BatchCalls(schema, table, cols, cs[..f]), [c], BatchCalls(schema, table, cols, cs[f + 1..]), [Commit]);
    RunExtend(db, prefix, c, rest, d);
  }

  /** The buffer plus the row that completes it is the next whole batch. */
  lemma FullBatchArgs(rows: seq<Row>, cols: seq<string>, full: nat, values: seq<SqlValue>)
    requires full * BatchSize + BatchSize - 1 < |rows|
    requires values == Flatten(rows[full * BatchSize .. full * BatchSize + BatchSize - 1])
    requires forall k :: 0 <= k < |rows| ==> |rows[k]| == |cols|
    ensures full < |Chunks(rows)| && |Chunks(rows)[full]| == BatchSize
    ensures values + rows[full * BatchSize + BatchSize - 1] == Flatten(Chunks(rows)[full])
    ensures |values + rows[full * BatchSize + BatchSize - 1]| == BatchSize * |cols|
  {
    var start := full * BatchSize;
    var n := start + BatchSize - 1;
    assert (full + 1) * BatchSize == n + 1;
    ChunkAt(rows, full);
    BufferSnoc(rows, start, n);
    FlattenUniform(Chunks(rows)[full], |cols|);
  }

  /**
   * The row that completes a batch: the 1000-row statement `c` is executed with
   * the whole batch; if that succeeds the buffer starts afresh, otherwise the
   * plan stops at that call.
   */
  lemma StreamFull(db: Db, d: Db, schema: string, table: string, cols: seq<string>, rows: seq<Row>,
                   full: nat, values: seq<SqlValue>, c: Call, d': Db, ok: bool)
    requires Streamed(db, d, schema, table, cols, rows, full, BatchSize - 1, values)
    requires full * BatchSize + BatchSize - 1 < |rows|
    requires forall k :: 0 <= k < |rows| ==> |rows[k]| == |cols|
    requires c == StmtExec(InsertQuery(schema, table, cols, BatchSize), values + rows[full * BatchSize + BatchSize - 1])
    requires (d', ok) == Issue(d, c)
    ensures ok ==> Streamed(db, d', schema, table, cols, rows, full + 1, 0, [])
    ensures !ok ==> FailedAt(db, d', TablePlan(schema, table, cols, rows), c)
  {
    var cs := Chunks(rows);
    FullBatchArgs(rows, cols, full, values);
    FullChunkCalls(schema, table, cols, cs[full], c.args);
    var head := PlanHead(schema, table, cols);
    ExtendBatches(db, d, head, schema, table, cols, cs, full, c);
    if ok {
      var n := (full + 1) * BatchSize;
      assert rows[n .. n] == [];
    } else {
      assert TablePlan(schema, table, cols, rows) == head + BatchCalls(schema, table, cols, cs) + [Commit];
    }
  }

  /** At the end of the stream the buffer holds `cur` rows; with none, every batch has been executed. */
  lemma StreamEnd(db: Db, d: Db, schema: string, table: string, cols: seq<string>, rows: seq<Row>,
                  full: nat, cur: nat, values: seq<SqlValue>)
    requires Streamed(db, d, schema, table, cols, rows, full, cur, values)
    requires full * BatchSize + cur == |rows|
    requires forall k :: 0 <= k < |rows| ==> |rows[k]| == |cols|
    ensures |values| == cur * |cols|
    ensures cur == 0 ==> Run(db, PlanBody(schema, table, cols, rows)) == RunResult(d, None)
  {
    FlattenUniform(rows[full * BatchSize .. |rows|], |cols|);
    ChunkCountExact(rows, full, cur);
    if cur == 0 {
      assert Chunks(rows)[..full] == Chunks(rows);
    }
  }

  /**
   * The short last batch: a statement of `cur` tuples is prepared and executed
   * with it; the plan stops at whichever of the two calls fails.
   */
  lemma StreamFlush(db: Db, d: Db, schema: string, table: string, cols: seq<string>, rows: seq<Row>,
                    full: nat, cur: nat, values: seq<SqlValue>)
    requires Streamed(db, d, schema, table, cols, rows, full, cur, values)
    requires full * BatchSize + cur == |rows| && 0 < cur
    ensures var q := InsertQuery(schema, table, cols, cur);
      var (d1, ok1) := Issue(d, Prepare(q));
      var (d2, ok2) := Issue(d1, StmtExec(q, values));
      (!ok1 ==> FailedAt(db, d1, TablePlan(schema, table, cols, rows), Prepare(q))) &&
      (ok1 && !ok2 ==> FailedAt(db, d2, TablePlan(schema, table, cols, rows), StmtExec(q, values))) &&
      (ok1 && ok2 ==> Run(db, PlanBody(schema, table, cols, rows)) == RunResult(d2, None))
  {
    var cs := Chunks(rows);
    ChunkCountExact(rows, full, cur);
    ChunkAt(rows, full);
    assert cs[full] == rows[full * BatchSize .. |rows|];
    assert cs[full + 1..] == [] && cs[..full + 1] == cs;
    var q := InsertQuery(schema, table, cols, cur);
    var p, e := Prepare(q), StmtExec(q, values);
    var prefix := PlanHead(schema, table, cols) + BatchCalls(schema, table, cols, cs[..full]);
    assert PlanBody(schema, table, cols, rows) == prefix + [p] + [e] &&
      TablePlan(schema, table, cols, rows) == prefix + [p] + [e, Commit] by {
      assert ChunkCalls(schema, table, cols, cs[full]) == [p, e];
      BatchCallsAt(schema, table, cols, cs, full);
      assert BatchCalls(schema, table, cols, cs[full + 1..]) == [];
      Regroup(PlanHead(schema, table, cols), BatchCalls(schema, table, cols, cs[..full]), [p, e], [], [Commit]);
      assert [p, e] == [p] + [e];
    }
    var (d1, ok1) := Issue(d, p);
    RunExtend(db, prefix, p, [e, Commit], d);
    if ok1 {
      RunExtend(db, prefix + [p], e, [Commit], d1);
    }
  }

  /** The Commit that ends a transaction whose body has succeeded. */
  lemma CommitStep(db: Db, d: Db, schema: string, table: string, cols: seq<string>, rows: seq<Row>)
    requires Run(db, PlanBody(schema, table, cols, rows)) == RunResult(d, None)
    ensures var (d', ok) := Issue(d, Commit);
      (ok ==> Run(db, TablePlan(schema, table, cols, rows)) == RunResult(d', None)) &&
      (!ok ==> FailedAt(db, d', TablePlan(schema, table, cols, rows), Commit))
  {
    var body := PlanBody(schema, table, cols, rows);
    RunExtend(db, body, Commit, [], d);
    assert body + [Commit] + [] == TablePlan(schema, table, cols, rows);
  }

  /**
   * One decoded row inside the token loop of importSingleTable: its values are
   * appended to the buffer and, when that completes a batch, the 1000-row
   * statement is executed with the batch and the buffer is emptied.
   */
  method AddRow(ghost db0: Db, db: Db, schema: string, table: string, cols: seq<string>, query: string,
                ghost rows: seq<Row>, ghost full: nat, currentBatchSize: nat, values: seq<SqlValue>, attrs: seq<Attr>)
    returns (db': Db, values': seq<SqlValue>, currentBatchSize': nat, failure: Option<Call>, ghost full': nat)
    requires query == InsertQuery(schema, table, cols, BatchSize)
    requires Streamed(db0, db, schema, table, cols, rows, full, currentBatchSize, values)
    requires full * BatchSize + currentBatchSize < |rows|
    requires rows[full * BatchSize + currentBatchSize] == RowValues(attrs, cols)
    requires forall k :: 0 <= k < |rows| ==> |rows[k]| == |cols|
    ensures failure.None? ==>
      (full' * BatchSize + currentBatchSize' == full * BatchSize + currentBatchSize + 1 &&
       Streamed(db0, db', schema, table, cols, rows, full', currentBatchSize', values'))
    ensures failure.Some? ==>
      failure.value.StmtExec? && FailedAt(db0, db', TablePlan(schema, table, cols, rows), failure.value)
  {
    values' := AppendRowValues(values, attrs, cols);
    if currentBatchSize + 1 >= BatchSize {
      assert currentBatchSize + 1 == BatchSize;
      FullBatchArgs(rows, cols, full, values);
      assert Padded(values', BatchSize * |cols|) == values';
      var ok;
      db', ok := ExecuteBatch(db, query, values', currentBatchSize + 1, |cols|);
      StreamFull(db0, db, schema, table, cols, rows, full, values, StmtExec(query, values'), db', ok);
      if !ok {
        return db', values', currentBatchSize + 1, Some(StmtExec(query, values')), full;
      }
      values', currentBatchSize', failure, full' := [], 0, None, full + 1;
    } else {
      StreamRow(db0, db, schema, table, cols, rows, full, currentBatchSize, values);
      db', currentBatchSize', failure, full' := db, currentBatchSize + 1, None, full;
    }
  }

  /**
   * The token loop of importSingleTable: every decoded row goes through AddRow.
   * The loop ends at the first read error, or at the first INSERT that fails.
   */
  method StreamBatches(ghost db0: Db, db: Db, schema: string, table: string, cols: seq<string>,
                       query: string, toks: seq<Token>, ghost rows: seq<Row>)
    returns (db': Db, values: seq<SqlValue>, rowCount: nat, currentBatchSize: nat, failure: Option<Call>,
             ghost full: nat)
    requires query == InsertQuery(schema, table, cols, BatchSize)
    requires Run(db0, PlanHead(schema, table, cols)) == RunResult(db, None)
    requires |rows| == |DecodedRows(toks)|
    requires forall n :: 0 <= n < |rows| ==> rows[n] == RowValues(DecodedRows(toks)[n], cols)
    ensures failure.None? ==> (rowCount == |rows| == full * BatchSize + currentBatchSize &&
      Streamed(db0, db', schema, table, cols, rows, full, currentBatchSize, values))
    ensures failure.Some? ==>
      failure.value.StmtExec? && FailedAt(db0, db', TablePlan(schema, table, cols, rows), failure.value)
  {
    StreamStart(db0, db, schema, table, cols, rows);
    db', values, rowCount, currentBatchSize, failure, full := db, [], 0, 0, None, 0;
    var i := 0;
    while i < |toks|
      invariant i <= |TokensRead(toks)|
      invariant rowCount == |RowsIn(toks[..i])|
      invariant rowCount == full * BatchSize + currentBatchSize
      invariant failure.None?
      invariant Streamed(db0, db', schema, table, cols, rows, full, currentBatchSize, values)
    {
      var tok := toks[i];
      if tok.StreamError? {
        break;
      }
      NextToken(toks, i);
      if tok.RowStart? {
        assert rows[rowCount] == RowValues(tok.attrs, cols);
        db', values, currentBatchSize, failure, full :=
          AddRow(db0, db', schema, table, cols, query, rows, full, currentBatchSize, values, tok.attrs);
        if failure.Some? {
          return;
        }
        rowCount := rowCount + 1;
      }
      i := i + 1;
    }
    TokensReadAt(toks, i);
  }

  /** A failed plan: the deferred Rollback follows unless the failing call was Begin or Commit. */
  lemma EffectFailed(db: Db, schema: string, table: Table, ti: TableInfo, files: map<string, seq<Token>>,
                     d: Db, c: Call)
    requires Names(SelectColumns(table.columns, ti.columns)) != [] && table.name in files
    requires var cols := Names(SelectColumns(table.columns, ti.columns));
      FailedAt(db, d, TablePlan(schema, table.name, cols, DecodedValues(files[table.name], cols)), c)
    ensures ImportEffect(db, schema, table, ti, files) ==
      (if c == Begin || c == Commit then d else Issue(d, Rollback).0, Failed(c))
  {
  }

  /** A plan run to the end: the table is committed with all its decoded rows. */
  lemma EffectImported(db: Db, schema: string, table: Table, ti: TableInfo, files: map<string, seq<Token>>, d: Db)
    requires Names(SelectColumns(table.columns, ti.columns)) != [] && table.name in files
    requires var cols := Names(SelectColumns(table.columns, ti.columns));
      Run(db, TablePlan(schema, table.name, cols, DecodedValues(files[table.name], cols))) == RunResult(d, None)
    ensures ImportEffect(db, schema, table, ti, files) == (d, Imported(|DecodedRows(files[table.name])|))
  {
  }

  /** Steps 4 of importSingleTable: Begin, then Prepare of the 1000-row statement. */
  method OpenTransaction(db: Db, schema: string, table: string, cols: seq<string>, query: string,
                         ghost rows: seq<Row>)
    returns (db': Db, failure: Option<Call>)
    requires query == InsertQuery(schema, table, cols, BatchSize)
    ensures failure.None? ==> Run(db, PlanHead(schema, table, cols)) == RunResult(db', None)
    ensures failure.Some? ==> FailedAt(db, db', TablePlan(schema, table, cols, rows), failure.value)
    ensures failure.Some? ==> failure.value in [Begin, Prepare(query)]
  {
    ghost var plan := TablePlan(schema, table, cols, rows);
    var ok;
    db', ok := Perform(db, Begin);
    assert plan == [] + [Begin] + plan[1..];
    RunExtend(db, [], Begin, plan[1..], db);
    if !ok {
      return db', Some(Begin);
    }
    ghost var d1 := db';
    assert plan == [Begin] + [Prepare(query)] + plan[2..];
    db', ok := Perform(db', Prepare(query));
    RunExtend(db, [Begin], Prepare(query), plan[2..], d1);
    if !ok {
      return db', Some(Prepare(query));
    }
    assert [Begin] + [Prepare(query)] == PlanHead(schema, table, cols);
    failure := None;
  }

  /** Steps 6 and 7 of importSingleTable: the short last batch, if any, and the Commit. */
  method FinishTable(ghost db0: Db, db: Db, schema: string, table: string, cols: seq<string>,
                     placeholders: seq<string>, ghost rows: seq<Row>, ghost full: nat,
                     currentBatchSize: nat, values: seq<SqlValue>)
    returns (db': Db, failure: Option<Call>)
    requires placeholders == Placeholders(BatchSize, |cols|)
    requires Streamed(db0, db, schema, table, cols, rows, full, currentBatchSize, values)
    requires full * BatchSize + currentBatchSize == |rows|
    requires forall k :: 0 <= k < |rows| ==> |rows[k]| == |cols|
    ensures failure.None? ==> Run(db0, TablePlan(schema, table, cols, rows)) == RunResult(db', None)
    ensures failure.Some? ==> FailedAt(db0, db', TablePlan(schema, table, cols, rows), failure.value)
    ensures failure.Some? ==> failure.value != Begin
  {
    StreamEnd(db0, db, schema, table, cols, rows, full, currentBatchSize, values);
    db' := db;
    var ok;
    if currentBatchSize > 0 {
      StreamFlush(db0, db, schema, table, cols, rows, full, currentBatchSize, values);
      var last := placeholders[..currentBatchSize];
      assert last == Placeholders(currentBatchSize, |cols|);
      var query := InsertText(schema, table, cols, last);
      db', ok := Perform(db', Prepare(query));
      if !ok {
        return db', Some(Prepare(query));
      }
      db', ok := ExecuteBatch(db', query, values, currentBatchSize, |cols|);
      if !ok {
        return db', Some(StmtExec(query, values));
      }
    }
    CommitStep(db0, db', schema, table, cols, rows);
    db', ok := Perform(db', Commit);
    if !ok {
      return db', Some(Commit);
    }
    failure := None;
  }

  /**
   * importSingleTable, with the file already opened as a token stream. On every
   * return after Begin the deferred tx.Rollback runs; it reaches the database
   * only while the transaction is still open, that is, unless Begin itself or
   * the Commit attempt was the call that failed.
   */
  method ImportSingleTable(db: Db, schema: string, table: Table, ti: TableInfo, files: map<string, seq<Token>>)
    returns (db': Db, outcome: Outcome)
    ensures (db', outcome) == ImportEffect(db, schema, table, ti, files)
  {
    // 1. the columns to import
    var cols := SelectColumnNames(table.columns, ti.columns);
    if |cols| == 0 {
      return db, Skipped;
    }

    // 2. the 1000-row statement
    var placeholders := BuildPlaceholders(BatchSize, |cols|);
    var query := InsertText(schema, table.name, cols, placeholders);

    // 3. the XML file
    if table.name !in files {
      return db, OpenFailed;
    }
    var toks := files[table.name];
    ghost var rows := DecodedValues(toks, cols);

    // 4. the transaction
    var failure;
    db', failure := OpenTransaction(db, schema, table.name, cols, query, rows);
    var rowCount := 0;
    if failure.None? {
      // 5. the token loop
      var values, currentBatchSize;
      ghost var full;
      db', values, rowCount, currentBatchSize, failure, full :=
        StreamBatches(db, db', schema, table.name, cols, query, toks, rows);
      if failure.None? {
        // 6 and 7. the remaining rows and the commit
        db', failure := FinishTable(db, db', schema, table.name, cols, placeholders, rows, full,
                                    currentBatchSize, values);
      }
    }
    if failure.Some? {
      var c := failure.value;
      EffectFailed(db, schema, table, ti, files, db', c);
      if c != Begin && c != Commit {
        var ok;
        db', ok := Perform(db', Rollback);
      }
      return db', Failed(c);
    }
    EffectImported(db, schema, table, ti, files, db');
    return db', Imported(rowCount);
  }

  // ================================================================ properties of one table's import

  /** The calls of a batch sequence are Prepare and StmtExec calls only. */
  lemma {:induction false} BatchCallsShape(schema: string, table: string, cols: seq<string>, cs: seq<seq<Row>>)
    ensures forall i :: 0 <= i < |BatchCalls(schema, table, cols, cs)| ==>
      BatchCalls(schema, table, cols, cs)[i].Prepare? || BatchCalls(schema, table, cols, cs)[i].StmtExec?
  {
    if cs != [] {
      BatchCallsShape(schema, table, cols, cs[..|cs| - 1]);
    }
  }

  /** Commit occurs in a table's plan only as its last call, and Exec does not occur at all. */
  lemma PlanShape(schema: string, table: string, cols: seq<string>, rows: seq<Row>)
    ensures var plan := TablePlan(schema, table, cols, rows);
      (forall i :: 0 <= i < |plan| ==> !plan[i].Exec? && !plan[i].Rollback?) &&
      (forall i :: 0 <= i < |plan| - 1 ==> plan[i] != Commit) &&
      plan[|plan| - 1] == Commit
  {
    BatchCallsShape(schema, table, cols, Chunks(rows));
  }

  /** A table whose declared columns all miss the dump is skipped without touching the database. */
  lemma SkippedIffNoColumns(db: Db, schema: string, table: Table, ti: TableInfo, files: map<string, seq<Token>>)
    ensures ImportEffect(db, schema, table, ti, files).1 == Skipped <==>
      forall c :: c in table.columns ==> c.name !in ti.columns
    ensures ImportEffect(db, schema, table, ti, files).1 == Skipped ==>
      ImportEffect(db, schema, table, ti, files).0 == db
  {
    var sel := SelectColumns(table.columns, ti.columns);
    if sel != [] {
      assert sel[0] in sel;
    }
  }

  /** No call of `calls` is a plain Exec (the statements ImportDataToPostgres issues for triggers). */
  ghost predicate NoExec(calls: seq<Call>) {
    forall i :: 0 <= i < |calls| ==> !calls[i].Exec?
  }

  /** `d` is `db` after some further calls, none of them a plain Exec. */
  ghost predicate ExtendsWithoutExec(db: Db, d: Db) {
    d.failsAt == db.failsAt && |db.log| <= |d.log| && d.log[..|db.log|] == db.log && NoExec(d.log[|db.log|..])
  }

  /**
   * What importSingleTable adds to the log: the calls of its plan up to the
   * failing one, then the Rollback when the transaction was left open; no
   * trigger statement among them.
   */
  lemma EffectLog(db: Db, schema: string, table: Table, ti: TableInfo, files: map<string, seq<Token>>)
    ensures ExtendsWithoutExec(db, ImportEffect(db, schema, table, ti, files).0)
  {
    var cols := Names(SelectColumns(table.columns, ti.columns));
    if cols != [] && table.name in files {
      var plan := TablePlan(schema, table.name, cols, DecodedValues(files[table.name], cols));
      PlanShape(schema, table.name, cols, DecodedValues(files[table.name], cols));
      SettleWithoutExec(db, plan);
    }
  }

  lemma SettleWithoutExec(db: Db, plan: seq<Call>)
    requires NoExec(plan)
    ensures ExtendsWithoutExec(db, Settle(db, plan).0)
  {
    SettleLog(db, plan);
    var d := Settle(db, plan).0;
    var added := d.log[|db.log|..];
    var r := Run(db, plan);
    if r.failed.Some? {
      var k := r.failed.value;
      forall i | 0 <= i < |added| ensures !added[i].Exec? {
        if i <= k {
          assert added[i] == plan[i];
        }
      }
    } else {
      assert added == plan;
    }
  }

  /**
   * Commit is attempted only after every batch has been executed: once a
   * Commit is in the log, the calls added are exactly the whole plan.
   */
  lemma CommitOnlyAfterEveryBatch(db: Db, schema: string, table: Table, ti: TableInfo, files: map<string, seq<Token>>)
    requires Names(SelectColumns(table.columns, ti.columns)) != [] && table.name in files
    ensures var cols := Names(SelectColumns(table.columns, ti.columns));
      var d := ImportEffect(db, schema, table, ti, files).0;
      |db.log| <= |d.log| &&
      (Commit in d.log[|db.log|..] ==>
        d.log[|db.log|..] == TablePlan(schema, table.name, cols, DecodedValues(files[table.name], cols)))
  {
    var cols := Names(SelectColumns(table.columns, ti.columns));
    var plan := TablePlan(schema, table.name, cols, DecodedValues(files[table.name], cols));
    PlanShape(schema, table.name, cols, DecodedValues(files[table.name], cols));
    SettleCommit(db, plan);
  }

  /** When Commit is only a plan's last call, a settled plan holds Commit only if it ran in full. */
  lemma SettleCommit(db: Db, plan: seq<Call>)
    requires plan != [] && plan[|plan| - 1] == Commit
    requires forall i :: 0 <= i < |plan| - 1 ==> plan[i] != Commit
    ensures var d := Settle(db, plan).0;
      |db.log| <= |d.log| && (Commit in d.log[|db.log|..] ==> d.log[|db.log|..] == plan)
  {
    SettleLog(db, plan);
    var r := Run(db, plan);
    if r.failed.Some? {
      var k := r.failed.value;
      if k < |plan| - 1 {
        assert Commit !in plan[..k + 1];
        assert Commit !in plan[..k + 1] + [Rollback];
      } else {
        assert plan[..k + 1] == plan;
        assert plan[k] == Commit;
      }
    }
  }

  /**
   * A committed table: the StmtExec arguments it added to the log are the
   * decoded rows in document order, and the reported count is the number of
   * decoded rows.
   */
  lemma ImportedRowsInOrder(db: Db, schema: string, table: Table, ti: TableInfo, files: map<string, seq<Token>>)
    requires ImportEffect(db, schema, table, ti, files).1.Imported?
    ensures var cols := Names(SelectColumns(table.columns, ti.columns));
      var (d, o) := ImportEffect(db, schema, table, ti, files);
      table.name in files && |db.log| <= |d.log| &&
      ExecArgs(d.log[|db.log|..]) == Flatten(DecodedValues(files[table.name], cols)) &&
      o.rows == |DecodedRows(files[table.name])|
  {
    var cols := Names(SelectColumns(table.columns, ti.columns));
    var rows := DecodedValues(files[table.name], cols);
    var plan := TablePlan(schema, table.name, cols, rows);
    RunLog(db, plan);
    PlanArgsAreRows(schema, table.name, cols, rows);
    assert ImportEffect(db, schema, table, ti, files).0.log[|db.log|..] == plan;
  }

  // ================================================================ importDataToPostgres

  /** The statement that disables or re-enables every trigger of a table. */
  function TriggerSql(schema: string, table: string, enable: bool): string {
    "ALTER TABLE " + schema + "." + table + (if enable then " ENABLE" else " DISABLE") + " TRIGGER ALL;"
  }

  /** One trigger statement per job, in job order. */
  function TriggerCalls(schema: string, jobs: seq<Table>, enable: bool): (calls: seq<Call>)
    ensures |calls| == |jobs|
    ensures forall k :: 0 <= k < |calls| ==> calls[k].Exec?
  {
    seq(|jobs|, k requires 0 <= k < |jobs| => Exec(TriggerSql(schema, jobs[k].name, enable)))
  }

  lemma TriggerCallsAt(schema: string, jobs: seq<Table>, enable: bool, i: nat)
    requires i < |jobs|
    ensures TriggerCalls(schema, jobs[..i + 1], enable) ==
      TriggerCalls(schema, jobs[..i], enable) + [Exec(TriggerSql(schema, jobs[i].name, enable))]
    ensures TriggerCalls(schema, jobs, enable) ==
      TriggerCalls(schema, jobs[..i], enable) + [Exec(TriggerSql(schema, jobs[i].name, enable))] +
      TriggerCalls(schema, jobs[i + 1..], enable)
  {
  }

  /** The error ImportDataToPostgres returns; per-table failures are only logged. */
  datatype ImportError = DisableFailed(table: string) | EnableFailed(table: string)

  /** importSingleTable on each job in order, each one starting from the state the previous one left. */
  function ImportAll(db: Db, schema: string, jobs: seq<Table>, dumps: Dumps, files: map<string, seq<Token>>)
    : (r: (Db, seq<Outcome>))
    requires forall k :: 0 <= k < |jobs| ==> jobs[k].name in dumps
    ensures |r.1| == |jobs|
  {
    if jobs == [] then (db, [])
    else
      var (d, outs) := ImportAll(db, schema, jobs[..|jobs| - 1], dumps, files);
      var t := jobs[|jobs| - 1];
      var (d', o) := ImportEffect(d, schema, t, dumps[t.name], files);
      (d', outs + [o])
  }

  lemma JobsInDumps(tables: seq<Table>, dumps: Dumps)
    ensures forall k :: 0 <= k < |Jobs(tables, dumps)| ==> Jobs(tables, dumps)[k].name in dumps
  {
    var jobs := Jobs(tables, dumps);
    assert forall k :: 0 <= k < |jobs| ==> jobs[k] in jobs;
  }

  /**
   * The effect of ImportDataToPostgres: disable the triggers of every job,
   * stopping at the first failure; import every job; re-enable the triggers,
   * stopping at the first failure.
   */
  function ImportDataEffect(db: Db, schema: string, tables: seq<Table>, dumps: Dumps, files: map<string, seq<Token>>)
    : (Db, seq<Outcome>, Option<ImportError>)
  {
    var jobs := Jobs(tables, dumps);
    var r1 := Run(db, TriggerCalls(schema, jobs, false));
    match r1.failed
    case Some(k) => (r1.db, [], Some(DisableFailed(jobs[k].name)))
    case None =>
      JobsInDumps(tables, dumps);
      var (d2, outs) := ImportAll(r1.db, schema, jobs, dumps, files);
      var r3 := Run(d2, TriggerCalls(schema, jobs, true));
      match r3.failed
      case Some(k) => (r3.db, outs, Some(EnableFailed(jobs[k].name)))
      case None => (r3.db, outs, None)
  }

  /** One trigger loop of ImportDataToPostgres: a statement per job, stopping at the first failure. */
  method SetTriggers(db: Db, schema: string, jobs: seq<Table>, enable: bool) returns (db': Db, failed: Option<nat>)
    ensures Run(db, TriggerCalls(schema, jobs, enable)) == RunResult(db', failed)
  {
    db' := db;
    for i := 0 to |jobs|
      invariant Run(db, TriggerCalls(schema, jobs[..i], enable)) == RunResult(db', None)
    {
      var c := Exec(TriggerSql(schema, jobs[i].name, enable));
      TriggerCallsAt(schema, jobs, enable, i);
      ghost var before := db';
      var ok;
      db', ok := Perform(db', c);
      RunExtend(db, TriggerCalls(schema, jobs[..i], enable), c, TriggerCalls(schema, jobs[i + 1..], enable), before);
      if !ok {
        return db', Some(i);
      }
    }
    assert jobs[..|jobs|] == jobs;
    failed := None;
  }

  /** The import loop of ImportDataToPostgres: every job in order, whatever the outcome of the previous ones. */
  method ImportTables(db: Db, schema: string, jobs: seq<Table>, dumps: Dumps, files: map<string, seq<Token>>)
    returns (db': Db, outcomes: seq<Outcome>)
    requires forall k :: 0 <= k < |jobs| ==> jobs[k].name in dumps
    ensures (db', outcomes) == ImportAll(db, schema, jobs, dumps, files)
  {
    db', outcomes := db, [];
    for i := 0 to |jobs|
      invariant (db', outcomes) == ImportAll(db, schema, jobs[..i], dumps, files)
    {
      assert jobs[..i + 1][..i] == jobs[..i];
      var t := jobs[i];
      var o;
      db', o := ImportSingleTable(db', schema, t, dumps[t.name], files);
      outcomes := outcomes + [o];
    }
    assert jobs[..|jobs|] == jobs;
  }

  /** ImportDataToPostgres, with the table imports run one after another. */
  method ImportDataToPostgres(db: Db, tables: seq<Table>, dumps: Dumps, files: map<string, seq<Token>>, schema: string)
    returns (db': Db, outcomes: seq<Outcome>, err: Option<ImportError>)
    ensures (db', outcomes, err) == ImportDataEffect(db, schema, tables, dumps, files)
  {
    var jobs := SelectJobs(tables, dumps);
    JobsInDumps(tables, dumps);
    var failed;
    db', failed := SetTriggers(db, schema, jobs, false);
    if failed.Some? {
      return db', [], Some(DisableFailed(jobs[failed.value].name));
    }
    db', outcomes := ImportTables(db', schema, jobs, dumps, files);
    db', failed := SetTriggers(db', schema, jobs, true);
    if failed.Some? {
      return db', outcomes, Some(EnableFailed(jobs[failed.value].name));
    }
    err := None;
  }

  // ================================================================ properties of importDataToPostgres

  /** The table imports, all together, issue no trigger statement. */
  lemma {:induction false} ImportAllLog(db: Db, schema: string, jobs: seq<Table>, dumps: Dumps,
                                        files: map<string, seq<Token>>)
    requires forall k :: 0 <= k < |jobs| ==> jobs[k].name in dumps
    ensures ExtendsWithoutExec(db, ImportAll(db, schema, jobs, dumps, files).0)
  {
    if jobs != [] {
      var init := jobs[..|jobs| - 1];
      ImportAllLog(db, schema, init, dumps, files);
      var d := ImportAll(db, schema, init, dumps, files).0;
      var t := jobs[|jobs| - 1];
      EffectLog(d, schema, t, dumps[t.name], files);
      var d' := ImportEffect(d, schema, t, dumps[t.name], files).0;
      assert ImportAll(db, schema, jobs, dumps, files).0 == d';
      ExtendsTrans(db, d, d');
    }
  }

  lemma ExtendsTrans(a: Db, b: Db, c: Db)
    requires ExtendsWithoutExec(a, b) && ExtendsWithoutExec(b, c)
    ensures ExtendsWithoutExec(a, c)
  {
    assert c.log[..|b.log|] == b.log;
    assert c.log[..|a.log|] == b.log[..|a.log|];
    assert c.log[|a.log|..] == b.log[|a.log|..] + c.log[|b.log|..];
    forall i | 0 <= i < |c.log| - |a.log| ensures !c.log[|a.log|..][i].Exec? {
      if i < |b.log| - |a.log| {
        assert c.log[|a.log|..][i] == b.log[|a.log|..][i];
      } else {
        assert c.log[|a.log|..][i] == c.log[|b.log|..][i - (|b.log| - |a.log|)];
      }
    }
  }

  /**
   * A failed disable ends everything at once: no table is imported, and the
   * calls added to the log are a prefix of the DISABLE statements.
   */
  lemma DisableFailureImportsNothing(db: Db, schema: string, tables: seq<Table>, dumps: Dumps,
                                     files: map<string, seq<Token>>)
    ensures var (d, outs, err) := ImportDataEffect(db, schema, tables, dumps, files);
      err.Some? && err.value.DisableFailed? ==>
        outs == [] && |db.log| <= |d.log| &&
        d.log[|db.log|..] <= TriggerCalls(schema, Jobs(tables, dumps), false)
  {
    var calls := TriggerCalls(schema, Jobs(tables, dumps), false);
    RunLog(db, calls);
    var r := Run(db, calls);
    if r.failed.Some? {
      assert r.db.log[|db.log|..] == calls[..r.failed.value + 1];
    }
  }

  /** `d` is `db` after some further calls. */
  ghost predicate Extends(db: Db, d: Db) {
    d.failsAt == db.failsAt && |db.log| <= |d.log| && d.log[..|db.log|] == db.log
  }

  /** No plain Exec call added between `db` and `d` failed. */
  ghost predicate NoExecFailed(db: Db, d: Db) {
    forall p :: |db.log| <= p < |d.log| && d.log[p].Exec? ==> p !in db.failsAt
  }

  /** A run of Exec calls fails iff one of the Exec calls it adds failed. */
  lemma RunExecFailure(db: Db, calls: seq<Call>)
    requires forall i :: 0 <= i < |calls| ==> calls[i].Exec?
    ensures var r := Run(db, calls);
      Extends(db, r.db) && (r.failed.None? <==> NoExecFailed(db, r.db))
  {
    RunLog(db, calls);
    RunFailure(db, calls);
    var r := Run(db, calls);
    if r.failed.Some? {
      var k := r.failed.value;
      assert r.db.log[|db.log| + k] == calls[k];
    } else {
      forall p | |db.log| <= p < |r.db.log| && r.db.log[p].Exec? ensures p !in db.failsAt {
        assert p - |db.log| < |calls|;
      }
    }
  }

  /** Failures of Exec calls over two consecutive stretches of the log. */
  lemma NoExecFailedSplit(a: Db, b: Db, c: Db)
    requires Extends(a, b) && Extends(b, c)
    ensures NoExecFailed(a, c) <==> NoExecFailed(a, b) && NoExecFailed(b, c)
  {
    forall p | |a.log| <= p < |b.log| ensures c.log[p] == b.log[p] {
      assert c.log[..|b.log|][p] == b.log[p];
    }
  }

  /** Calls that include no Exec cannot contribute a failed Exec. */
  lemma WithoutExecNoFailure(a: Db, b: Db)
    requires ExtendsWithoutExec(a, b)
    ensures Extends(a, b) && NoExecFailed(a, b)
  {
    forall p | |a.log| <= p < |b.log| ensures !b.log[p].Exec? {
      assert b.log[p] == b.log[|a.log|..][p - |a.log|];
    }
  }

  /**
   * The returned error reflects the trigger statements only: it is None
   * exactly when no plain Exec call added to the log failed, whatever became
   * of the per-table imports.
   */
  lemma ErrorIffTriggerFailed(db: Db, schema: string, tables: seq<Table>, dumps: Dumps,
                              files: map<string, seq<Token>>)
    ensures var (d, outs, err) := ImportDataEffect(db, schema, tables, dumps, files);
      |db.log| <= |d.log| &&
      (err.None? <==> forall p :: |db.log| <= p < |d.log| && d.log[p].Exec? ==> p !in db.failsAt)
  {
    var jobs := Jobs(tables, dumps);
    var off := TriggerCalls(schema, jobs, false);
    RunExecFailure(db, off);
    var r1 := Run(db, off);
    if r1.failed.None? {
      JobsInDumps(tables, dumps);
      ImportAllLog(r1.db, schema, jobs, dumps, files);
      var d2 := ImportAll(r1.db, schema, jobs, dumps, files).0;
      WithoutExecNoFailure(r1.db, d2);
      var on := TriggerCalls(schema, jobs, true);
      RunExecFailure(d2, on);
      var r3 := Run(d2, on);
      assert ImportDataEffect(db, schema, tables, dumps, files) ==
        (r3.db, ImportAll(r1.db, schema, jobs, dumps, files).1,
         if r3.failed.Some? then Some(EnableFailed(jobs[r3.failed.value].name)) else None);
      ThreeStretches(db, r1.db, d2, r3.db);
    }
  }

  /** Disable statements, imports without Exec calls, enable statements: failures come from the two ends. */
  lemma ThreeStretches(db: Db, d1: Db, d2: Db, d: Db)
    requires Extends(db, d1) && Extends(d1, d2) && Extends(d2, d)
    requires NoExecFailed(d1, d2)
    ensures Extends(db, d)
    ensures NoExecFailed(db, d) <==> NoExecFailed(db, d1) && NoExecFailed(d2, d)
  {
    NoExecFailedSplit(d1, d2, d);
    NoExecFailedSplit(db, d1, d);
    assert d.log[..|d1.log|] == d1.log by {
      assert d.log[..|d1.log|] == d.log[..|d2.log|][..|d1.log|];
    }
    assert d.log[..|db.log|] == db.log by {
      assert d.log[..|db.log|] == d.log[..|d1.log|][..|db.log|];
    }
  }

  /** Unless a disable failed, every job is imported, in job order. */
  lemma EveryJobImported(db: Db, schema: string, tables: seq<Table>, dumps: Dumps, files: map<string, seq<Token>>)
    ensures var (d, outs, err) := ImportDataEffect(db, schema, tables, dumps, files);
      (err.None? || err.value.EnableFailed?) ==> |outs| == |Jobs(tables, dumps)|
  {
    var r1 := Run(db, TriggerCalls(schema, Jobs(tables, dumps), false));
    if r1.failed.None? {
      JobsInDumps(tables, dumps);
      assert ImportDataEffect(db, schema, tables, dumps, files).1 ==
        ImportAll(r1.db, schema, Jobs(tables, dumps), dumps, files).1;
    }
  }
}
