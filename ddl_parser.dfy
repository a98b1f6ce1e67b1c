/**
 * The DDL table parser (parser/schema.go) on text already read: every
 * `CREATE TABLE name ( ... );` block found by a leftmost, non-overlapping scan
 * becomes a table, and every line of its body that the column pattern accepts
 * becomes a column. The two regular expressions are written out as recognizers
 * with RE2's meaning of `\s`, `\w`, `(?i)`, `(?s)` and the lazy `.*?`.
 */
module DdlParser {
  import opened Wrappers
  import opened Strings
  import opened Types

  // ---------------------------------------------------------------- character runs

  /** The character classes the two patterns use. */
  datatype CharClass =
    | Space     // `\s`
    | Word      // `\w`
    | TypeChar  // `[A-Za-z0-9()_,]`

  predicate InClass(c: char, cls: CharClass) {
    match cls
    case Space => IsReSpace(c)
    case Word => IsWordChar(c)
    case TypeChar => IsLetter(c) || IsDigit(c) || c == '(' || c == ')' || c == '_' || c == ','
  }

  /** The end of the longest run of `cls` characters starting at `i`: where a greedy `cls*` stops. */
  function RunEnd(s: string, i: nat, cls: CharClass): (j: nat)
    requires i <= |s|
    ensures i <= j <= |s|
    decreases |s| - i
  {
    if i < |s| && InClass(s[i], cls) then RunEnd(s, i + 1, cls) else i
  }

  lemma {:induction false} RunEndSpec(s: string, i: nat, cls: CharClass)
    requires i <= |s|
    ensures var j := RunEnd(s, i, cls);
      (forall k :: i <= k < j ==> InClass(s[k], cls)) && (j == |s| || !InClass(s[j], cls))
    decreases |s| - i
  {
    if i < |s| && InClass(s[i], cls) {
      RunEndSpec(s, i + 1, cls);
    }
  }

  /** A run of `cls` characters ends exactly where the first character outside the class is. */
  lemma RunEndUnique(s: string, i: nat, j: nat, cls: CharClass)
    requires i <= j <= |s|
    requires forall k :: i <= k < j ==> InClass(s[k], cls)
    requires j == |s| || !InClass(s[j], cls)
    ensures RunEnd(s, i, cls) == j
  {
    RunEndSpec(s, i, cls);
  }

  // ---------------------------------------------------------------- the table pattern

  /** `(?is)CREATE TABLE\s+(\w+)\s*\((.*?)\)\s*;` as a match: where it starts, the two groups, and where it ends. */
  datatype TableMatch = TableMatch(start: nat, name: string, body: string, end: nat)

  const Keyword: string := "CREATE TABLE"

  /** The keyword starts at `i`, letters compared without regard to case. */
  predicate KeywordAt(text: string, i: nat) {
    i + |Keyword| <= |text| && forall k :: 0 <= k < |Keyword| ==> UpperChar(text[i + k]) == Keyword[k]
  }

  /** `\)\s*;` matches text[q..e]. */
  predicate Closes(text: string, q: nat, e: nat) {
    q + 1 < e <= |text| && text[q] == ')' && text[e - 1] == ';' &&
    forall k :: q < k < e - 1 ==> IsReSpace(text[k])
  }

  /** Where `\)\s*;` starting at `q` ends, if it matches there. */
  function CloseAt(text: string, q: nat): Option<nat>
    requires q < |text|
  {
    if text[q] != ')' then None
    else
      var j := RunEnd(text, q + 1, Space);
      if j < |text| && text[j] == ';' then Some(j + 1) else None
  }

  lemma CloseAtIff(text: string, q: nat, e: nat)
    requires q < |text|
    ensures CloseAt(text, q) == Some(e) <==> Closes(text, q, e)
  {
    RunEndSpec(text, q + 1, Space);
    if Closes(text, q, e) {
      RunEndUnique(text, q + 1, e - 1, Space);
    }
  }

  /** The lazy `.*?`: the first position at or after `k` where `\)\s*;` matches, and where that match ends. */
  function BodyEnd(text: string, k: nat): (r: Option<(nat, nat)>)
    requires k <= |text|
    ensures r.Some? ==> k <= r.value.0 < r.value.1 <= |text|
    decreases |text| - k
  {
    if k == |text| then None
    else
      match CloseAt(text, k)
      case Some(e) => Some((k, e))
      case None => BodyEnd(text, k + 1)
  }

  /** BodyEnd finds a closing `)` and it is the first one that can close the block. */
  lemma {:induction false} BodyEndSound(text: string, k: nat)
    requires k <= |text|
    requires BodyEnd(text, k).Some?
    ensures var (q, e) := BodyEnd(text, k).value;
      Closes(text, q, e) && forall q', e' :: k <= q' < q ==> !Closes(text, q', e')
    decreases |text| - k
  {
    var (q, e) := BodyEnd(text, k).value;
    if CloseAt(text, k).Some? {
      CloseAtIff(text, k, e);
    } else {
      BodyEndSound(text, k + 1);
      forall q', e' | k <= q' < q ensures !Closes(text, q', e') {
        CloseAtIff(text, q', e');
      }
    }
  }

  /** If `\)\s*;` can match at some q at or after `k`, BodyEnd finds one no later than q. */
  lemma {:induction false} BodyEndComplete(text: string, k: nat, q: nat, e: nat)
    requires k <= q && Closes(text, q, e)
    ensures BodyEnd(text, k).Some? && BodyEnd(text, k).value.0 <= q
    decreases q - k
  {
    if CloseAt(text, k).None? {
      if k == q {
        CloseAtIff(text, q, e);
      } else {
        BodyEndComplete(text, k + 1, q, e);
      }
    }
  }

  /** The table pattern tried at position `i` only, as RE2 runs it. */
  function MatchAt(text: string, i: nat): (r: Option<TableMatch>)
    requires i <= |text|
    ensures r.Some? ==> r.value.start == i && i < r.value.end <= |text|
  {
    if !KeywordAt(text, i) then None
    else
      var b := RunEnd(text, i + |Keyword|, Space);
      if b == i + |Keyword| then None
      else
        var c := RunEnd(text, b, Word);
        if c == b then None
        else
          var d := RunEnd(text, c, Space);
          if d == |text| || text[d] != '(' then None
          else
            var close := BodyEnd(text, d + 1);
            if close.None? then None
            else Some(TableMatch(i, text[b..c], text[d + 1..close.value.0], close.value.1))
  }

  /**
   * The pattern read declaratively: the keyword at i, white space up to b, a
   * word up to c, white space up to d, `(` at d, then `\)\s*;` from q to e.
   */
  ghost predicate TablePattern(text: string, i: nat, b: nat, c: nat, d: nat, q: nat, e: nat) {
    i + |Keyword| < b < c <= d < q && q + 1 < e <= |text| && KeywordAt(text, i) &&
    (forall k :: i + |Keyword| <= k < b ==> IsReSpace(text[k])) &&
    (forall k :: b <= k < c ==> IsWordChar(text[k])) &&
    (forall k :: c <= k < d ==> IsReSpace(text[k])) &&
    text[d] == '(' && Closes(text, q, e)
  }

  /** The runs MatchAt measures, stated as the pattern's parts: the keyword and the three runs. */
  ghost predicate Runs(text: string, i: nat, b: nat, c: nat, d: nat) {
    KeywordAt(text, i) && b == RunEnd(text, i + |Keyword|, Space) && i + |Keyword| < b &&
    c == RunEnd(text, b, Word) && b < c && d == RunEnd(text, c, Space) && d < |text| && text[d] == '('
  }

  /** When the runs are there and the block closes, MatchAt matches with the two groups between them. */
  lemma MatchAtOfRuns(text: string, i: nat, b: nat, c: nat, d: nat)
    requires i <= |text| && Runs(text, i, b, c, d) && BodyEnd(text, d + 1).Some?
    ensures MatchAt(text, i) ==
      Some(TableMatch(i, text[b..c], text[d + 1..BodyEnd(text, d + 1).value.0], BodyEnd(text, d + 1).value.1))
  {
  }

  /** A match found at i has the runs MatchAt measures. */
  lemma MatchAtRuns(text: string, i: nat)
    requires i <= |text| && MatchAt(text, i).Some?
    ensures Runs(text, i, RunEnd(text, i + |Keyword|, Space), RunEnd(text, RunEnd(text, i + |Keyword|, Space), Word),
                  RunEnd(text, RunEnd(text, RunEnd(text, i + |Keyword|, Space), Word), Space))
    ensures BodyEnd(text, RunEnd(text, RunEnd(text, RunEnd(text, i + |Keyword|, Space), Word), Space) + 1).Some?
  {
  }

  /** The runs, with a close after the parenthesis, make an instance of the pattern. */
  lemma RunsPattern(text: string, i: nat, b: nat, c: nat, d: nat, q: nat, e: nat)
    requires Runs(text, i, b, c, d) && d < q && Closes(text, q, e)
    ensures TablePattern(text, i, b, c, d, q, e)
  {
    RunEndSpec(text, i + |Keyword|, Space);
    RunEndSpec(text, b, Word);
    RunEndSpec(text, c, Space);
  }

  /** The match built from the runs and the first close is an instance of the pattern with the shortest body. */
  lemma RunsSound(text: string, i: nat, b: nat, c: nat, d: nat, m: TableMatch)
    requires Runs(text, i, b, c, d) && BodyEnd(text, d + 1).Some?
    requires m == TableMatch(i, text[b..c], text[d + 1..BodyEnd(text, d + 1).value.0], BodyEnd(text, d + 1).value.1)
    ensures exists b': nat, c': nat, d': nat, q: nat :: (TablePattern(text, i, b', c', d', q, m.end) &&
      m.name == text[b'..c'] && m.body == text[d' + 1..q] &&
      forall q', e' :: d' < q' < q ==> !Closes(text, q', e'))
  {
    var (q, e) := BodyEnd(text, d + 1).value;
    BodyEndSound(text, d + 1);
    RunsPattern(text, i, b, c, d, q, e);
  }

  /**
   * A match found at i is an instance of the pattern whose body is the shortest
   * possible: no earlier `)` could have ended the block.
   */
  lemma MatchAtSound(text: string, i: nat)
    requires i <= |text| && MatchAt(text, i).Some?
    ensures var m := MatchAt(text, i).value;
      exists b: nat, c: nat, d: nat, q: nat :: TablePattern(text, i, b, c, d, q, m.end) &&
        m.name == text[b..c] && m.body == text[d + 1..q] &&
        forall q', e' :: d < q' < q ==> !Closes(text, q', e')
  {
    MatchAtRuns(text, i);
    var b := RunEnd(text, i + |Keyword|, Space);
    var c := RunEnd(text, b, Word);
    var d := RunEnd(text, c, Space);
    MatchAtOfRuns(text, i, b, c, d);
    RunsSound(text, i, b, c, d, MatchAt(text, i).value);
  }

  /** The runs of an instance of the pattern are the ones MatchAt measures. */
  lemma PatternRuns(text: string, i: nat, b: nat, c: nat, d: nat, q: nat, e: nat)
    requires TablePattern(text, i, b, c, d, q, e)
    ensures Runs(text, i, b, c, d)
  {
    assert !IsReSpace(text[b]) by {
      assert IsWordChar(text[b]);
    }
    RunEndUnique(text, i + |Keyword|, b, Space);
    assert !IsWordChar(text[c]) by {
      assert c == d ==> text[c] == '(';
      assert c < d ==> IsReSpace(text[c]);
    }
    RunEndUnique(text, b, c, Word);
    RunEndUnique(text, c, d, Space);
  }

  /**
   * Wherever the pattern can match at i, MatchAt matches there, with the same
   * name (the runs are forced) and a body that ends no later.
   */
  lemma MatchAtComplete(text: string, i: nat, b: nat, c: nat, d: nat, q: nat, e: nat)
    requires TablePattern(text, i, b, c, d, q, e)
    ensures MatchAt(text, i).Some?
    ensures MatchAt(text, i).value.name == text[b..c]
    ensures |MatchAt(text, i).value.body| <= q - d - 1
  {
    PatternRuns(text, i, b, c, d, q, e);
    BodyEndComplete(text, d + 1, q, e);
    MatchAtOfRuns(text, i, b, c, d);
  }

  /** The outcome of trying the pattern at each position of the text. */
  function Attempts(text: string): (r: seq<Option<TableMatch>>)
    ensures |r| == |text|
  {
    seq(|text|, p requires 0 <= p < |text| => MatchAt(text, p))
  }

  /** A match found at p starts at p and ends after it, within the text. */
  ghost predicate Ordered(attempts: seq<Option<TableMatch>>) {
    forall p :: 0 <= p < |attempts| && attempts[p].Some? ==>
      attempts[p].value.start == p && p < attempts[p].value.end <= |attempts|
  }

  lemma AttemptsOrdered(text: string)
    ensures Ordered(Attempts(text))
  {
    var r := Attempts(text);
    forall p | 0 <= p < |r| && r[p].Some? ensures r[p].value.start == p && p < r[p].value.end <= |r| {
      assert r[p] == MatchAt(text, p);
    }
  }

  /** The search from `pos`: the leftmost match, then the search resumes where it ended. */
  function Scan(attempts: seq<Option<TableMatch>>, pos: nat): seq<TableMatch>
    requires Ordered(attempts) && pos <= |attempts|
    decreases |attempts| - pos
  {
    if pos == |attempts| then []
    else if attempts[pos].Some? then [attempts[pos].value] + Scan(attempts, attempts[pos].value.end)
    else Scan(attempts, pos + 1)
  }

  /** FindAllStringSubmatch with no limit. */
  function FindAll(text: string): seq<TableMatch> {
    AttemptsOrdered(text);
    Scan(Attempts(text), 0)
  }

  /** No attempt in [lo, hi) matched. */
  ghost predicate NoneIn(attempts: seq<Option<TableMatch>>, lo: nat, hi: nat) {
    forall p :: lo <= p < hi && p < |attempts| ==> attempts[p].None?
  }

  /** Each of `ms` is the match found at its start. */
  ghost predicate AllFound(attempts: seq<Option<TableMatch>>, ms: seq<TableMatch>) {
    forall k :: 0 <= k < |ms| ==> ms[k].start < |attempts| && attempts[ms[k].start] == Some(ms[k])
  }

  /** Consecutive elements of `ms` do not overlap, and nothing matches between them. */
  ghost predicate GapsEmpty(attempts: seq<Option<TableMatch>>, ms: seq<TableMatch>) {
    forall k :: 0 < k < |ms| ==> ms[k - 1].end <= ms[k].start && NoneIn(attempts, ms[k - 1].end, ms[k].start)
  }

  /** Every result of the scan is the match found at its start. */
  lemma {:induction false} ScanFound(attempts: seq<Option<TableMatch>>, pos: nat)
    requires Ordered(attempts) && pos <= |attempts|
    ensures AllFound(attempts, Scan(attempts, pos))
    decreases |attempts| - pos
  {
    if pos < |attempts| {
      if attempts[pos].Some? {
        var m := attempts[pos].value;
        ScanFound(attempts, m.end);
        var rest := Scan(attempts, m.end);
        var ms := [m] + rest;
        assert Scan(attempts, pos) == ms;
        forall k | 0 <= k < |ms| ensures ms[k].start < |attempts| && attempts[ms[k].start] == Some(ms[k]) {
          if k > 0 {
            assert ms[k] == rest[k - 1];
          }
        }
      } else {
        ScanFound(attempts, pos + 1);
      }
    }
  }

  /** Nothing matches before the first result, and nothing after the end of the last. */
  lemma {:induction false} ScanEnds(attempts: seq<Option<TableMatch>>, pos: nat)
    requires Ordered(attempts) && pos <= |attempts|
    ensures var ms := Scan(attempts, pos);
      (|ms| > 0 ==> pos <= ms[0].start && NoneIn(attempts, pos, ms[0].start)) &&
      NoneIn(attempts, if ms == [] then pos else ms[|ms| - 1].end, |attempts|)
    decreases |attempts| - pos
  {
    if pos < |attempts| {
      if attempts[pos].Some? {
        var m := attempts[pos].value;
        ScanEnds(attempts, m.end);
        var rest := Scan(attempts, m.end);
        var ms := [m] + rest;
        assert Scan(attempts, pos) == ms;
        if rest != [] {
          assert ms[|ms| - 1] == rest[|rest| - 1];
        }
      } else {
        ScanEnds(attempts, pos + 1);
        var ms := Scan(attempts, pos);
        assert ms == Scan(attempts, pos + 1);
        if ms != [] {
          assert NoneIn(attempts, pos, ms[0].start);
        }
      }
    }
  }

  /** Consecutive results do not overlap, and nothing matches between them. */
  lemma {:induction false} ScanBetween(attempts: seq<Option<TableMatch>>, pos: nat)
    requires Ordered(attempts) && pos <= |attempts|
    ensures GapsEmpty(attempts, Scan(attempts, pos))
    decreases |attempts| - pos
  {
    if pos < |attempts| {
      if attempts[pos].Some? {
        var m := attempts[pos].value;
        ScanBetween(attempts, m.end);
        ScanEnds(attempts, m.end);
        var rest := Scan(attempts, m.end);
        var ms := [m] + rest;
        assert Scan(attempts, pos) == ms;
        forall k | 0 < k < |ms| ensures ms[k - 1].end <= ms[k].start && NoneIn(attempts, ms[k - 1].end, ms[k].start) {
          assert ms[k] == rest[k - 1];
          if k > 1 {
            assert ms[k - 1] == rest[k - 2];
          }
        }
      } else {
        ScanBetween(attempts, pos + 1);
      }
    }
  }

  /** No match can start in [lo, hi). */
  ghost predicate NoMatchIn(text: string, lo: nat, hi: nat) {
    forall p :: lo <= p < hi && p < |text| ==> MatchAt(text, p).None?
  }

  lemma NoneInAttempts(text: string, lo: nat, hi: nat)
    requires NoneIn(Attempts(text), lo, hi)
    ensures NoMatchIn(text, lo, hi)
  {
    var r := Attempts(text);
    forall p | lo <= p < hi && p < |text| ensures MatchAt(text, p).None? {
      assert r[p] == MatchAt(text, p);
    }
  }

  /** The k-th result is the match of the pattern at its start. */
  lemma FindAllFound(text: string, k: nat)
    requires k < |FindAll(text)|
    ensures FindAll(text)[k].start < |text| && MatchAt(text, FindAll(text)[k].start) == Some(FindAll(text)[k])
  {
    var r := Attempts(text);
    AttemptsOrdered(text);
    ScanFound(r, 0);
    var m := FindAll(text)[k];
    assert r[m.start] == MatchAt(text, m.start);
  }

  /** Consecutive results do not overlap, and no match starts between them. */
  lemma FindAllBetween(text: string, k: nat)
    requires 0 < k < |FindAll(text)|
    ensures FindAll(text)[k - 1].end <= FindAll(text)[k].start
    ensures NoMatchIn(text, FindAll(text)[k - 1].end, FindAll(text)[k].start)
  {
    var r := Attempts(text);
    AttemptsOrdered(text);
    ScanBetween(r, 0);
    var ms := FindAll(text);
    assert NoneIn(r, ms[k - 1].end, ms[k].start);
    NoneInAttempts(text, ms[k - 1].end, ms[k].start);
  }

  /** No match starts before the first result, nor after the end of the last (anywhere, when there is none). */
  lemma FindAllEnds(text: string)
    ensures |FindAll(text)| > 0 ==> NoMatchIn(text, 0, FindAll(text)[0].start)
    ensures FindAll(text) == [] ==> NoMatchIn(text, 0, |text|)
    ensures FindAll(text) != [] ==> NoMatchIn(text, FindAll(text)[|FindAll(text)| - 1].end, |text|)
  {
    var r := Attempts(text);
    AttemptsOrdered(text);
    ScanEnds(r, 0);
    var ms := FindAll(text);
    if ms != [] {
      NoneInAttempts(text, 0, ms[0].start);
      NoneInAttempts(text, ms[|ms| - 1].end, |text|);
    } else {
      NoneInAttempts(text, 0, |text|);
    }
  }

  // ---------------------------------------------------------------- the column pattern

  /** A letter or `_`: the first character of an identifier. */
  predicate IsIdentStart(c: char) { IsLetter(c) || c == '_' }

  /** `(?i)^\s*([A-Za-z_]\w*)\s+([A-Za-z0-9()_,]+)` applied to a line: the two groups, or no match. */
  function ColumnMatch(line: string): Option<Column> {
    var a := RunEnd(line, 0, Space);
    if a == |line| || !IsIdentStart(line[a]) then None
    else
      var b := RunEnd(line, a + 1, Word);
      var c := RunEnd(line, b, Space);
      if c == b then None
      else
        var d := RunEnd(line, c, TypeChar);
        if d == c then None else Some(Column(line[a..b], line[c..d]))
  }

  /**
   * The column pattern read declaratively: white space up to a, an identifier
   * from a to b, white space from b to c, and type characters from c to d.
   */
  ghost predicate ColumnPattern(line: string, a: nat, b: nat, c: nat, d: nat) {
    a < b < c < d <= |line| &&
    (forall k :: 0 <= k < a ==> IsReSpace(line[k])) &&
    IsIdentStart(line[a]) && (forall k :: a < k < b ==> IsWordChar(line[k])) &&
    (forall k :: b <= k < c ==> IsReSpace(line[k])) &&
    (forall k :: c <= k < d ==> InClass(line[k], TypeChar))
  }

  /** A recognized column is an instance of the pattern whose type is the longest run of type characters. */
  lemma ColumnMatchSound(line: string)
    requires ColumnMatch(line).Some?
    ensures exists a: nat, b: nat, c: nat, d: nat :: (ColumnPattern(line, a, b, c, d) &&
      ColumnMatch(line).value == Column(line[a..b], line[c..d]) &&
      (d == |line| || !InClass(line[d], TypeChar)))
  {
    var a := RunEnd(line, 0, Space);
    var b := RunEnd(line, a + 1, Word);
    var c := RunEnd(line, b, Space);
    var d := RunEnd(line, c, TypeChar);
    RunEndSpec(line, 0, Space);
    RunEndSpec(line, a + 1, Word);
    RunEndSpec(line, b, Space);
    RunEndSpec(line, c, TypeChar);
    assert ColumnPattern(line, a, b, c, d);
  }

  /** Whenever the pattern can match a line, the line is recognized, with the same name and a type at least as long. */
  lemma ColumnMatchComplete(line: string, a: nat, b: nat, c: nat, d: nat)
    requires ColumnPattern(line, a, b, c, d)
    ensures ColumnMatch(line).Some?
    ensures ColumnMatch(line).value.name == line[a..b]
    ensures |ColumnMatch(line).value.typ| >= d - c
  {
    RunEndUnique(line, 0, a, Space);
    assert !IsWordChar(line[b]) by {
      assert IsReSpace(line[b]);
    }
    RunEndUnique(line, a + 1, b, Word);
    assert c < |line| && !IsReSpace(line[c]) by {
      assert InClass(line[c], TypeChar);
    }
    RunEndUnique(line, b, c, Space);
    RunEndSpec(line, c, TypeChar);
  }

  // ---------------------------------------------------------------- lines and tables

  /** Lines that are empty, or that start with PRIMARY KEY or CONSTRAINT in any case, are not columns. */
  predicate Skipped(line: string) {
    line == "" || HasPrefix(Upper(line), "PRIMARY KEY") || HasPrefix(Upper(line), "CONSTRAINT")
  }

  /** What one raw line of a block contributes. */
  function LineColumn(raw: string): Option<Column> {
    var line := TrimSpace(raw);
    if Skipped(line) then None else ColumnMatch(TrimSuffix(line, ","))
  }

  /** The present values, in order. */
  function Somes<T>(xs: seq<Option<T>>): seq<T> {
    if xs == [] then []
    else
      var last := xs[|xs| - 1];
      Somes(xs[..|xs| - 1]) + (if last.Some? then [last.value] else [])
  }

  /** What each line contributes. */
  function LineResults(lines: seq<string>): (r: seq<Option<Column>>)
    ensures |r| == |lines|
  {
    seq(|lines|, i requires 0 <= i < |lines| => LineColumn(lines[i]))
  }

  /** The columns of a block's lines, in line order. */
  function LinesColumns(lines: seq<string>): seq<Column> {
    Somes(LineResults(lines))
  }

  /** The table a block match describes. */
  function TableOf(m: TableMatch): Table {
    Table(m.name, LinesColumns(Split(m.body, '\n')))
  }

  /** The tables of a schema text. */
  function Schema(text: string): (tables: seq<Table>)
    ensures |tables| == |FindAll(text)|
  {
    var ms := FindAll(text);
    seq(|ms|, k requires 0 <= k < |ms| => TableOf(ms[k]))
  }

  /** The inner loop of ParseSQLSchema: the columns of one block, line by line. */
  method BlockColumns(block: string) returns (columns: seq<Column>)
    ensures columns == LinesColumns(Split(block, '\n'))
  {
    columns := [];
    var lines := Split(block, '\n');
    ghost var results := LineResults(lines);
    for i := 0 to |lines|
      invariant columns == Somes(results[..i])
    {
      assert results[..i + 1][..i] == results[..i];
      var line := TrimSpace(lines[i]);
      if line == "" || HasPrefix(Upper(line), "PRIMARY KEY") || HasPrefix(Upper(line), "CONSTRAINT") {
        continue;
      }
      line := TrimSuffix(line, ",");
      var caps := ColumnMatch(line);
      if caps.Some? {
        columns := columns + [caps.value];
      }
    }
    assert results[..|lines|] == results;
  }

  /** ParseSQLSchema after the file has been read. */
  method ParseSqlSchema(text: string) returns (tables: seq<Table>)
    ensures tables == Schema(text)
  {
    var matches := FindAll(text);
    tables := [];
    for m := 0 to |matches|
      invariant |tables| == m
      invariant forall k :: 0 <= k < m ==> tables[k] == TableOf(matches[k])
    {
      var name := matches[m].name;
      var columns := BlockColumns(matches[m].body);
      tables := tables + [Table(name, columns)];
    }
  }

  // ---------------------------------------------------------------- properties

  /** Keeping the present values distributes over concatenation, so order is kept. */
  lemma {:induction false} SomesAppend<T>(a: seq<Option<T>>, b: seq<Option<T>>)
    ensures Somes(a + b) == Somes(a) + Somes(b)
  {
    if b != [] {
      assert (a + b)[..|a + b| - 1] == a + b[..|b| - 1];
      assert (a + b)[|a + b| - 1] == b[|b| - 1];
      SomesAppend(a, b[..|b| - 1]);
    } else {
      assert a + b == a;
    }
  }

  lemma {:induction false} SomesSpec<T>(xs: seq<Option<T>>, x: T)
    ensures x in Somes(xs) <==> exists i :: 0 <= i < |xs| && xs[i] == Some(x)
  {
    if xs != [] {
      var init := xs[..|xs| - 1];
      SomesSpec(init, x);
      if exists i :: 0 <= i < |init| && init[i] == Some(x) {
        var i :| 0 <= i < |init| && init[i] == Some(x);
        assert xs[i] == init[i];
      }
      if exists i :: 0 <= i < |xs| && xs[i] == Some(x) {
        var i :| 0 <= i < |xs| && xs[i] == Some(x);
        if i < |init| {
          assert init[i] == xs[i];
        }
      }
    }
  }

  /** The columns of a block keep line order: they distribute over the lines. */
  lemma LinesColumnsAppend(a: seq<string>, b: seq<string>)
    ensures LinesColumns(a + b) == LinesColumns(a) + LinesColumns(b)
  {
    assert LineResults(a + b) == LineResults(a) + LineResults(b);
    SomesAppend(LineResults(a), LineResults(b));
  }

  /** A column of a block is what some line contributes, and every line that yields a column adds it. */
  lemma LinesColumnsSpec(lines: seq<string>, col: Column)
    ensures col in LinesColumns(lines) <==> exists i :: 0 <= i < |lines| && LineColumn(lines[i]) == Some(col)
  {
    var rs := LineResults(lines);
    SomesSpec(rs, col);
    if col in LinesColumns(lines) {
      var i :| 0 <= i < |rs| && rs[i] == Some(col);
      assert LineColumn(lines[i]) == Some(col);
    }
    if exists i :: 0 <= i < |lines| && LineColumn(lines[i]) == Some(col) {
      var i :| 0 <= i < |lines| && LineColumn(lines[i]) == Some(col);
      assert rs[i] == Some(col);
    }
  }
}
