/**
 * The database as the core sees it through database/sql, reduced to a recorder:
 * every call the importer issues is appended to a log, and a failure oracle
 * (the set of log positions whose call fails) decides which calls return an error.
 */
module Recorder {
  import opened Wrappers

  /** A value passed as a statement argument: attribute text, or SQL NULL (Go's nil). */
  datatype SqlValue = Text(s: string) | Null

  datatype Call =
    | Exec(sql: string)                          // db.Exec of a whole statement
    | Begin                                      // db.Begin
    | Prepare(sql: string)                       // tx.Prepare
    | StmtExec(sql: string, args: seq<SqlValue>) // stmt.Exec on the statement prepared from `sql`
    | Commit                                     // tx.Commit
    | Rollback                                   // the deferred tx.Rollback of an unfinished transaction

  /** The calls issued so far and the positions at which a call fails. */
  datatype Db = Db(log: seq<Call>, failsAt: set<nat>)

  /** Issue one call: it is recorded, and it succeeds unless the oracle marks its position. */
  function Issue(db: Db, c: Call): (r: (Db, bool))
    ensures r.0.log == db.log + [c] && r.0.failsAt == db.failsAt
    ensures r.1 <==> |db.log| !in db.failsAt
  {
    (db.(log := db.log + [c]), |db.log| !in db.failsAt)
  }

  /** Send one call to the database, as the Go code does at each database/sql call site. */
  method Perform(db: Db, c: Call) returns (db': Db, ok: bool)
    ensures (db', ok) == Issue(db, c)
  {
    db' := db.(log := db.log + [c]);
    ok := |db.log| !in db.failsAt;
  }

  /** The state after a run of calls, and the index of the call that failed, if one did. */
  datatype RunResult = RunResult(db: Db, failed: Option<nat>)

  /** Issue `calls` in order, stopping after the first one that fails. */
  function Run(db: Db, calls: seq<Call>): (r: RunResult)
    ensures r.failed.Some? ==> r.failed.value < |calls|
    decreases |calls|
  {
    if calls == [] then RunResult(db, None)
    else if |db.log| in db.failsAt then RunResult(Issue(db, calls[0]).0, Some(0))
    else
      var r := Run(Issue(db, calls[0]).0, calls[1..]);
      RunResult(r.db, if r.failed.Some? then Some(r.failed.value + 1) else None)
  }

  /**
   * What a run records: the calls up to and including the failing one (all of
   * them when none fails); the oracle itself is unchanged.
   */
  lemma {:induction false} RunLog(db: Db, calls: seq<Call>)
    ensures var r := Run(db, calls);
      r.db.failsAt == db.failsAt &&
      (r.failed.None? ==> r.db.log == db.log + calls) &&
      (r.failed.Some? ==> r.db.log == db.log + calls[..r.failed.value + 1])
    decreases |calls|
  {
    if calls != [] {
      var (d1, ok) := Issue(db, calls[0]);
      if ok {
        RunLog(d1, calls[1..]);
        var r := Run(d1, calls[1..]);
        if r.failed.Some? {
          assert calls[..r.failed.value + 2] == [calls[0]] + calls[1..][..r.failed.value + 1];
        } else {
          assert calls == [calls[0]] + calls[1..];
        }
      }
    }
  }

  /** A run fails exactly at the first position the oracle marks, and fails iff one is marked. */
  lemma {:induction false} RunFailure(db: Db, calls: seq<Call>)
    ensures var r := Run(db, calls);
      (r.failed.None? <==> forall k :: |db.log| <= k < |db.log| + |calls| ==> k !in db.failsAt) &&
      (r.failed.Some? ==>
        (|db.log| + r.failed.value in db.failsAt &&
         forall k :: |db.log| <= k < |db.log| + r.failed.value ==> k !in db.failsAt))
    decreases |calls|
  {
    if calls != [] {
      var (d1, ok) := Issue(db, calls[0]);
      if ok {
        RunFailure(d1, calls[1..]);
      }
    }
  }

  /** Running `a + b` is running `a` and, only if that succeeded, running `b` after it. */
  lemma {:induction false} RunAppend(db: Db, a: seq<Call>, b: seq<Call>)
    ensures Run(db, a + b) ==
      var ra := Run(db, a);
      if ra.failed.Some? then ra
      else
        var rb := Run(ra.db, b);
        RunResult(rb.db, if rb.failed.Some? then Some(|a| + rb.failed.value) else None)
    decreases |a|
  {
    if a == [] {
      assert a + b == b;
    } else {
      var (d1, ok) := Issue(db, a[0]);
      assert (a + b)[0] == a[0];
      if ok {
        assert (a + b)[1..] == a[1..] + b;
        RunAppend(d1, a[1..], b);
      }
    }
  }

  /**
   * One more call after a successful run of `p`: if it succeeds the run of
   * `p + [c]` succeeds; if it fails, any plan that continues `p + [c]` stops there.
   */
  lemma RunExtend(db: Db, p: seq<Call>, c: Call, rest: seq<Call>, d: Db)
    requires Run(db, p) == RunResult(d, None)
    ensures Issue(d, c).1 ==> Run(db, p + [c]) == RunResult(Issue(d, c).0, None)
    ensures !Issue(d, c).1 ==> Run(db, p + [c] + rest) == RunResult(Issue(d, c).0, Some(|p|))
  {
    RunAppend(db, p, [c]);
    RunAppend(db, p + [c], rest);
  }
}
