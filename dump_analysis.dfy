/**
 * Dump-shape discovery (xmlparser/parser.go): the walk keeps the regular
 * entries whose path ends in ".xml", each such file is scanned token by token,
 * and the attributes of every `row` element that decodes are folded into one
 * column map, published under the file's base name without ".xml". The worker
 * pool is replaced by one loop over the files in walk order.
 */
module DumpAnalysis {
  import opened Strings
  import opened Seqs
  import opened Types
  import opened XmlTokens

  // ---------------------------------------------------------------- the walk

  /** One call of the walk callback: the path, whether it names a directory, and whether the walk reported an error for it. */
  datatype WalkEntry = WalkEntry(path: string, isDir: bool, walkError: bool)

  /** The callback keeps an entry iff there was no error, it is not a directory and its path ends in ".xml". */
  predicate Collected(e: WalkEntry) {
    !e.walkError && !e.isDir && HasSuffix(e.path, ".xml")
  }

  /** The paths the callback appends, in walk order. */
  function CollectedPaths(entries: seq<WalkEntry>): seq<string> {
    if entries == [] then []
    else
      var last := entries[|entries| - 1];
      CollectedPaths(entries[..|entries| - 1]) + (if Collected(last) then [last.path] else [])
  }

  /** A path is collected iff some entry with that path passes the filter. */
  lemma {:induction false} CollectedPathsSpec(entries: seq<WalkEntry>, p: string)
    ensures p in CollectedPaths(entries) <==>
      exists k :: 0 <= k < |entries| && Collected(entries[k]) && entries[k].path == p
  {
    if entries != [] {
      var init := entries[..|entries| - 1];
      CollectedPathsSpec(init, p);
      if p in CollectedPaths(init) {
        var k :| 0 <= k < |init| && Collected(init[k]) && init[k].path == p;
        assert entries[k] == init[k];
      }
      if exists k :: 0 <= k < |entries| && Collected(entries[k]) && entries[k].path == p {
        var k :| 0 <= k < |entries| && Collected(entries[k]) && entries[k].path == p;
        if k < |init| {
          assert init[k] == entries[k];
        }
      }
    }
  }

  /** Collecting distributes over concatenation, so walk order is kept. */
  lemma {:induction false} CollectedPathsAppend(a: seq<WalkEntry>, b: seq<WalkEntry>)
    ensures CollectedPaths(a + b) == CollectedPaths(a) + CollectedPaths(b)
  {
    if b != [] {
      assert (a + b)[..|a + b| - 1] == a + b[..|b| - 1];
      assert (a + b)[|a + b| - 1] == b[|b| - 1];
      CollectedPathsAppend(a, b[..|b| - 1]);
    } else {
      assert a + b == a;
    }
  }

  /** The walk callback and the `files` slice it appends to. */
  method CollectXmlPaths(entries: seq<WalkEntry>) returns (files: seq<string>)
    ensures files == CollectedPaths(entries)
  {
    files := [];
    for i := 0 to |entries|
      invariant files == CollectedPaths(entries[..i])
    {
      assert entries[..i + 1][..i] == entries[..i];
      var e := entries[i];
      if e.walkError || e.isDir || !HasSuffix(e.path, ".xml") {
        continue;
      }
      files := files + [e.path];
    }
    assert entries[..|entries|] == entries;
  }

  // ---------------------------------------------------------------- table names

  function TrimTrailingSlashes(s: string): string {
    if s != [] && s[|s| - 1] == '/' then TrimTrailingSlashes(s[..|s| - 1]) else s
  }

  /** The text after the last '/'. */
  function AfterLastSlash(s: string): string {
    if s == [] || s[|s| - 1] == '/' then [] else AfterLastSlash(s[..|s| - 1]) + [s[|s| - 1]]
  }

  /** AfterLastSlash is the longest '/'-free suffix. */
  lemma {:induction false} AfterLastSlashSpec(s: string)
    ensures var r := AfterLastSlash(s);
      |r| <= |s| && s[|s| - |r|..] == r && '/' !in r && (|r| < |s| ==> s[|s| - |r| - 1] == '/')
  {
    if s != [] && s[|s| - 1] != '/' {
      var t := s[..|s| - 1];
      AfterLastSlashSpec(t);
      var r := AfterLastSlash(t);
      assert AfterLastSlash(s) == r + [s[|s| - 1]];
      assert t[|t| - |r|..] + [s[|s| - 1]] == s[|s| - |r| - 1..];
    }
  }

  /** filepath.Base with '/' as the separator. */
  function BaseName(path: string): string {
    if path == [] then "."
    else
      var t := TrimTrailingSlashes(path);
      if t == [] then "/" else AfterLastSlash(t)
  }

  /** The table name of a dump file: its base name with one trailing ".xml" removed. */
  function TableName(path: string): string {
    TrimSuffix(BaseName(path), ".xml")
  }

  /**
   * For a path ending in ".xml" the table name is the last path element without
   * its extension: the path is a directory part (empty or ending in '/') followed
   * by the name and ".xml", and the name contains no '/'.
   */
  lemma TableNameOfXml(path: string)
    requires HasSuffix(path, ".xml")
    ensures var name := TableName(path);
      '/' !in name && HasSuffix(path, name + ".xml") &&
      (|name| + 4 == |path| || path[|path| - |name| - 5] == '/')
  {
    assert path[|path| - 1] == 'l';
    assert TrimTrailingSlashes(path) == path;
    var b := AfterLastSlash(path);
    AfterLastSlashSpec(path);
    assert b == BaseName(path);
    assert path[|path| - 4..] == ".xml";
    assert |b| >= 4;
    assert b[|b| - 4..] == path[|path| - 4..];
    var name := TrimSuffix(b, ".xml");
    TrimSuffixSpec(b, ".xml");
    assert name + ".xml" == b;
    assert forall k :: 0 <= k < |name| ==> name[k] == b[k];
  }

  // ---------------------------------------------------------------- one file

  /** Assigning the attributes in order into `m`: the map write of the inner loop. */
  function Absorb(m: map<string, string>, attrs: seq<Attr>): map<string, string> {
    if attrs == [] then m
    else
      var last := attrs[|attrs| - 1];
      Absorb(m, attrs[..|attrs| - 1])[last.local := last.value]
  }

  lemma {:induction false} AbsorbAppend(m: map<string, string>, a: seq<Attr>, b: seq<Attr>)
    ensures Absorb(m, a + b) == Absorb(Absorb(m, a), b)
  {
    if b != [] {
      assert (a + b)[..|a + b| - 1] == a + b[..|b| - 1];
      assert (a + b)[|a + b| - 1] == b[|b| - 1];
      AbsorbAppend(m, a, b[..|b| - 1]);
    } else {
      assert a + b == a;
    }
  }

  /** A key of the result is a key of `m` or the name of one of the attributes. */
  lemma {:induction false} AbsorbKeys(m: map<string, string>, attrs: seq<Attr>, k: string)
    ensures k in Absorb(m, attrs) <==> k in m || exists j :: 0 <= j < |attrs| && attrs[j].local == k
  {
    if attrs != [] {
      var init := attrs[..|attrs| - 1];
      AbsorbKeys(m, init, k);
      if exists j :: 0 <= j < |init| && init[j].local == k {
        var j :| 0 <= j < |init| && init[j].local == k;
        assert attrs[j] == init[j];
      }
      if exists j :: 0 <= j < |attrs| && attrs[j].local == k {
        var j :| 0 <= j < |attrs| && attrs[j].local == k;
        if j < |init| {
          assert init[j] == attrs[j];
        }
      }
    }
  }

  /** The stored value of a name is the value of its last attribute. */
  lemma {:induction false} AbsorbLastWins(m: map<string, string>, attrs: seq<Attr>, j: nat)
    requires j < |attrs|
    requires forall j' :: j < j' < |attrs| ==> attrs[j'].local != attrs[j].local
    ensures attrs[j].local in Absorb(m, attrs) && Absorb(m, attrs)[attrs[j].local] == attrs[j].value
  {
    var init := attrs[..|attrs| - 1];
    if j < |init| {
      assert init[j] == attrs[j];
      AbsorbLastWins(m, init, j);
    }
  }

  /** A name that no attribute carries keeps its entry of `m`, or stays absent. */
  lemma {:induction false} AbsorbUntouched(m: map<string, string>, attrs: seq<Attr>, k: string)
    requires forall j :: 0 <= j < |attrs| ==> attrs[j].local != k
    ensures k in Absorb(m, attrs) <==> k in m
    ensures k in m ==> Absorb(m, attrs)[k] == m[k]
  {
    if attrs != [] {
      var init := attrs[..|attrs| - 1];
      assert forall j :: 0 <= j < |init| ==> init[j] == attrs[j];
      AbsorbUntouched(m, init, k);
    }
  }

  /** The column map built from some decoded rows: every attribute, in document order, into a fresh map. */
  function ColumnsOf(rows: seq<seq<Attr>>): map<string, string> {
    Absorb(map[], Flatten(rows))
  }

  /** What scanning one file's tokens yields. */
  function ScanResult(toks: seq<Token>): map<string, string> {
    ColumnsOf(DecodedRows(toks))
  }

  /** The token loop of one worker: stop at the first error, fold each decoded row's attributes into the map. */
  method ScanColumns(toks: seq<Token>) returns (columns: map<string, string>)
    ensures columns == ScanResult(toks)
  {
    columns := map[];
    var i := 0;
    assert toks[..0] == [];
    while i < |toks| && !toks[i].StreamError?
      invariant i <= |TokensRead(toks)|
      invariant columns == ColumnsOf(RowsIn(toks[..i]))
      decreases |toks| - i
    {
      NextToken(toks, i);
      match toks[i] {
      case RowStart(attrs) => {
        ghost var before := columns;
        for j := 0 to |attrs|
          invariant columns == Absorb(before, attrs[..j])
        {
          assert attrs[..j + 1][..j] == attrs[..j];
          columns := columns[attrs[j].local := attrs[j].value];
        }
        assert attrs[..|attrs|] == attrs;
        ghost var seen := RowsIn(toks[..i]);
        calc {
          ColumnsOf(RowsIn(toks[..i + 1]));
          ColumnsOf(seen + [attrs]);
          { FlattenAppend(seen, [attrs]); FlattenOne(attrs); }
          Absorb(map[], Flatten(seen) + attrs);
          { AbsorbAppend(map[], Flatten(seen), attrs); }
          Absorb(before, attrs);
        }
        assert columns == ColumnsOf(RowsIn(toks[..i + 1]));
      }
      case _ =>
        assert RowsIn(toks[..i + 1]) == RowsIn(toks[..i]) + [];
        assert RowsIn(toks[..i]) + [] == RowsIn(toks[..i]);
        assert columns == ColumnsOf(RowsIn(toks[..i + 1]));
      }
      i := i + 1;
    }
    TokensReadAt(toks, i);
  }

  /** An element of a flattened sequence comes from one of its parts, and every part's elements are in it. */
  lemma {:induction false} InFlatten<T>(xss: seq<seq<T>>, x: T)
    ensures x in Flatten(xss) <==> exists i :: 0 <= i < |xss| && x in xss[i]
  {
    if xss != [] {
      InFlatten(xss[1..], x);
      assert Flatten(xss) == xss[0] + Flatten(xss[1..]);
      if exists i :: 0 <= i < |xss| && x in xss[i] {
        var i :| 0 <= i < |xss| && x in xss[i];
        if i > 0 {
          assert xss[1..][i - 1] == xss[i];
        }
      }
      if exists i :: 0 <= i < |xss[1..]| && x in xss[1..][i] {
        var i :| 0 <= i < |xss[1..]| && x in xss[1..][i];
        assert xss[i + 1] == xss[1..][i];
      }
    }
  }

  /** The column names of a file are exactly the attribute names of its decoded rows. */
  lemma ScanKeys(toks: seq<Token>, k: string)
    ensures var rows: seq<seq<Attr>> := DecodedRows(toks);
      k in ScanResult(toks) <==> exists i, a: Attr :: 0 <= i < |rows| && a in rows[i] && a.local == k
  {
    var rows: seq<seq<Attr>> := DecodedRows(toks);
    var attrs := Flatten(rows);
    AbsorbKeys(map[], attrs, k);
    if k in ScanResult(toks) {
      var j :| 0 <= j < |attrs| && attrs[j].local == k;
      InFlatten(rows, attrs[j]);
    }
    if exists i, a: Attr :: 0 <= i < |rows| && a in rows[i] && a.local == k {
      var i, a: Attr :| 0 <= i < |rows| && a in rows[i] && a.local == k;
      InFlatten(rows, a);
    }
  }

  /** For a repeated name, the value stored is that of its last attribute over the decoded rows in document order. */
  lemma ScanLastWins(toks: seq<Token>, j: nat)
    requires j < |Flatten(DecodedRows(toks))|
    requires var attrs := Flatten(DecodedRows(toks));
      forall j' :: j < j' < |attrs| ==> attrs[j'].local != attrs[j].local
    ensures var a := Flatten(DecodedRows(toks))[j];
      a.local in ScanResult(toks) && ScanResult(toks)[a.local] == a.value
  {
    AbsorbLastWins(map[], Flatten(DecodedRows(toks)), j);
  }

  /** A file whose decoded rows carry no attributes (in particular one with no rows) gives an empty map. */
  lemma ScanEmpty(toks: seq<Token>)
    ensures ScanResult(toks) == map[] <==>
      forall i :: 0 <= i < |DecodedRows(toks)| ==> DecodedRows(toks)[i] == []
  {
    var rows: seq<seq<Attr>> := DecodedRows(toks);
    if ScanResult(toks) == map[] {
      forall i | 0 <= i < |rows| ensures rows[i] == [] {
        if rows[i] != [] {
          assert rows[i][0] in rows[i];
          ScanKeys(toks, rows[i][0].local);
        }
      }
    } else {
      var k :| k in ScanResult(toks);
      ScanKeys(toks, k);
    }
  }

  /** Tokens before the first error are all read. */
  lemma {:induction false} TokensReadPrefix(a: seq<Token>, rest: seq<Token>)
    requires forall k :: 0 <= k < |a| ==> !a[k].StreamError?
    ensures TokensRead(a + rest) == a + TokensRead(rest)
  {
    if a != [] {
      assert (a + rest)[0] == a[0];
      assert (a + rest)[1..] == a[1..] + rest;
      TokensReadPrefix(a[1..], rest);
    } else {
      assert a + rest == rest;
    }
  }

  /** A token error ends the scan, and what was folded before it is kept. */
  lemma TokenErrorKeepsPartial(a: seq<Token>, b: seq<Token>)
    requires forall k :: 0 <= k < |a| ==> !a[k].StreamError?
    ensures ScanResult(a + [StreamError] + b) == ScanResult(a)
  {
    assert a + [StreamError] + b == a + ([StreamError] + b);
    TokensReadPrefix(a, [StreamError] + b);
    TokensReadPrefix(a, []);
    assert a + [] == a;
  }

  /** A non-row token, or a row that fails to decode, contributes nothing. */
  lemma OtherTokensIgnored(a: seq<Token>, t: Token, b: seq<Token>)
    requires forall k :: 0 <= k < |a| ==> !a[k].StreamError?
    requires t.OtherToken? || t.BadRow?
    ensures ScanResult(a + [t] + b) == ScanResult(a + b)
  {
    var r := TokensRead(b);
    assert forall k :: 0 <= k < |a + [t]| ==> !(a + [t])[k].StreamError?;
    TokensReadPrefix(a + [t], b);
    TokensReadPrefix(a, b);
    assert [t][..0] == [];
    assert RowsIn([t]) == [];
    calc {
      DecodedRows(a + [t] + b);
      RowsIn(a + [t] + r);
      { RowsInAppend(a + [t], r); }
      RowsIn(a + [t]) + RowsIn(r);
      { RowsInAppend(a, [t]); }
      RowsIn(a) + RowsIn(r);
      { RowsInAppend(a, r); }
      RowsIn(a + r);
      DecodedRows(a + b);
    }
  }

  // ---------------------------------------------------------------- all files

  /** The collected paths that open, in order; a path that is not a key of `files` fails to open. */
  function Opened(paths: seq<string>, files: map<string, seq<Token>>): (ops: seq<string>)
    ensures forall j :: 0 <= j < |ops| ==> ops[j] in files
  {
    if paths == [] then []
    else
      var p := paths[|paths| - 1];
      Opened(paths[..|paths| - 1], files) + (if p in files then [p] else [])
  }

  /** The opened paths are exactly the paths that are keys of `files`. */
  lemma {:induction false} OpenedSpec(paths: seq<string>, files: map<string, seq<Token>>, p: string)
    ensures p in Opened(paths, files) <==> p in paths && p in files
  {
    if paths != [] {
      var init := paths[..|paths| - 1];
      OpenedSpec(init, files, p);
      assert paths == init + [paths[|paths| - 1]];
    }
  }

  /** The entry built for each opened path: its table name and the scan of its tokens. */
  function Infos(ops: seq<string>, files: map<string, seq<Token>>): (infos: seq<TableInfo>)
    requires forall j :: 0 <= j < |ops| ==> ops[j] in files
    ensures |infos| == |ops|
  {
    seq(|ops|, j requires 0 <= j < |ops| => TableInfo(TableName(ops[j]), ScanResult(files[ops[j]])))
  }

  /** Writing the entries into the map one after the other, each under its own name. */
  function Publish(infos: seq<TableInfo>): Dumps {
    if infos == [] then map[]
    else
      var last := infos[|infos| - 1];
      Publish(infos[..|infos| - 1])[last.name := last]
  }

  lemma PublishSnoc(infos: seq<TableInfo>, x: TableInfo)
    ensures Publish(infos + [x]) == Publish(infos)[x.name := x]
  {
    assert (infos + [x])[..|infos|] == infos;
  }

  lemma OpenedStep(paths: seq<string>, files: map<string, seq<Token>>, i: nat)
    requires i < |paths|
    ensures paths[i] in files ==> Opened(paths[..i + 1], files) == Opened(paths[..i], files) + [paths[i]]
    ensures paths[i] !in files ==> Opened(paths[..i + 1], files) == Opened(paths[..i], files)
  {
    assert paths[..i + 1][..i] == paths[..i];
  }

  lemma InfosSnoc(ops: seq<string>, p: string, files: map<string, seq<Token>>)
    requires forall j :: 0 <= j < |ops| ==> ops[j] in files
    requires p in files
    ensures Infos(ops + [p], files) == Infos(ops, files) + [TableInfo(TableName(p), ScanResult(files[p]))]
  {
  }

  /** What a sequential run over `paths` publishes. */
  function Analysis(paths: seq<string>, files: map<string, seq<Token>>): Dumps {
    var ops := Opened(paths, files);
    Publish(Infos(ops, files))
  }

  /**
   * AnalyzeXMLDumps run sequentially. `files` maps each path that opens to the
   * tokens its decoder produces; a path that is not a key fails to open.
   */
  method AnalyzeXmlDumps(entries: seq<WalkEntry>, files: map<string, seq<Token>>) returns (dumps: Dumps)
    ensures dumps == Analysis(CollectedPaths(entries), files)
  {
    var paths := CollectXmlPaths(entries);
    dumps := map[];
    for i := 0 to |paths|
      invariant dumps == Publish(Infos(Opened(paths[..i], files), files))
    {
      OpenedStep(paths, files, i);
      var path := paths[i];
      var name := TableName(path);
      if path !in files {
        continue;
      }
      var columns := ScanColumns(files[path]);
      var info := TableInfo(name, columns);
      InfosSnoc(Opened(paths[..i], files), path, files);
      PublishSnoc(Infos(Opened(paths[..i], files), files), info);
      dumps := dumps[info.name := info];
    }
    assert paths[..|paths|] == paths;
  }

  /** A name is a key of the published map iff some entry carries it. */
  lemma {:induction false} PublishKeys(infos: seq<TableInfo>, name: string)
    ensures name in Publish(infos) <==> exists j :: 0 <= j < |infos| && infos[j].name == name
  {
    if infos != [] {
      var init := infos[..|infos| - 1];
      PublishKeys(init, name);
      if exists j :: 0 <= j < |init| && init[j].name == name {
        var j :| 0 <= j < |init| && init[j].name == name;
        assert infos[j] == init[j];
      }
      if exists j :: 0 <= j < |infos| && infos[j].name == name {
        var j :| 0 <= j < |infos| && infos[j].name == name;
        if j < |init| {
          assert init[j] == infos[j];
        }
      }
    }
  }

  /** The published entry of a name is the last entry carrying that name. */
  lemma {:induction false} PublishLast(infos: seq<TableInfo>, name: string)
    requires name in Publish(infos)
    ensures exists j :: (0 <= j < |infos| && Publish(infos)[name] == infos[j] && infos[j].name == name &&
      forall j' :: j < j' < |infos| ==> infos[j'].name != name)
  {
    var init := infos[..|infos| - 1];
    var last := infos[|infos| - 1];
    if last.name != name {
      PublishLast(init, name);
      var j :| 0 <= j < |init| && Publish(init)[name] == init[j] && init[j].name == name &&
        forall j' :: j < j' < |init| ==> init[j'].name != name;
      assert infos[j] == init[j];
      forall j' | j < j' < |infos| ensures infos[j'].name != name {
        if j' < |init| {
          assert infos[j'] == init[j'];
        }
      }
    }
  }

  /** The published names are exactly the table names of the collected paths that open. */
  lemma PublishedNames(entries: seq<WalkEntry>, files: map<string, seq<Token>>, name: string)
    ensures name in Analysis(CollectedPaths(entries), files) <==>
      exists p :: p in CollectedPaths(entries) && p in files && TableName(p) == name
  {
    var paths := CollectedPaths(entries);
    var ops := Opened(paths, files);
    var infos := Infos(ops, files);
    PublishKeys(infos, name);
    if name in Publish(infos) {
      var j :| 0 <= j < |infos| && infos[j].name == name;
      OpenedSpec(paths, files, ops[j]);
    }
    if exists p :: p in paths && p in files && TableName(p) == name {
      var p :| p in paths && p in files && TableName(p) == name;
      OpenedSpec(paths, files, p);
      var j :| 0 <= j < |ops| && ops[j] == p;
      assert infos[j].name == name;
    }
  }

  /** A published entry carries its key as its name, and its columns are the scan of an opened path with that name. */
  lemma PublishedEntry(paths: seq<string>, files: map<string, seq<Token>>, name: string)
    requires name in Analysis(paths, files)
    ensures Analysis(paths, files)[name].name == name
    ensures exists p :: (p in paths && p in files && TableName(p) == name &&
      Analysis(paths, files)[name].columns == ScanResult(files[p]))
  {
    var ops := Opened(paths, files);
    var infos := Infos(ops, files);
    PublishLast(infos, name);
    var j :| 0 <= j < |infos| && Publish(infos)[name] == infos[j] && infos[j].name == name &&
      forall j' :: j < j' < |infos| ==> infos[j'].name != name;
    assert Analysis(paths, files) == Publish(infos);
    assert infos[j] == TableInfo(TableName(ops[j]), ScanResult(files[ops[j]]));
    OpenedSpec(paths, files, ops[j]);
  }

  /** The entry written last under a name stays. */
  lemma {:induction false} PublishLastWins(infos: seq<TableInfo>, j: nat)
    requires j < |infos|
    requires forall j' :: j < j' < |infos| ==> infos[j'].name != infos[j].name
    ensures infos[j].name in Publish(infos) && Publish(infos)[infos[j].name] == infos[j]
  {
    var init := infos[..|infos| - 1];
    if j < |init| {
      assert init[j] == infos[j];
      PublishLastWins(init, j);
    }
  }

  /**
   * When several opened paths share a table name, the entry is the scan of the
   * last of them in walk order (with the worker pool, of whichever worker wrote last).
   */
  lemma LastOpenedWins(paths: seq<string>, files: map<string, seq<Token>>, j: nat)
    requires var ops := Opened(paths, files);
      j < |ops| && forall j' :: j < j' < |ops| ==> TableName(ops[j']) != TableName(ops[j])
    ensures var p := Opened(paths, files)[j];
      TableName(p) in Analysis(paths, files) && Analysis(paths, files)[TableName(p)] == TableInfo(TableName(p), ScanResult(files[p]))
  {
    var ops := Opened(paths, files);
    var infos := Infos(ops, files);
    forall j' | j < j' < |infos| ensures infos[j'].name != infos[j].name {
      assert infos[j'].name == TableName(ops[j']);
    }
    PublishLastWins(infos, j);
  }

  /** Every opened path is scanned and its table name published; a path that fails to open contributes nothing. */
  lemma OpenedPathsPublished(paths: seq<string>, files: map<string, seq<Token>>, p: string)
    requires p in paths && p in files
    ensures TableName(p) in Analysis(paths, files)
  {
    var ops := Opened(paths, files);
    OpenedSpec(paths, files, p);
    var j :| 0 <= j < |ops| && ops[j] == p;
    PublishKeys(Infos(ops, files), TableName(p));
    assert Infos(ops, files)[j].name == TableName(p);
  }
}
