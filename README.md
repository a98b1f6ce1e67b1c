# pgstart_task core in Dafny

A model of the data path of `pgstart_task`, a tool that moves a SQL Server database into PostgreSQL. The tool starts from a DDL script and a directory of XML dumps, one file per table with one `row` element per record. It then:

- reads the declared tables from the DDL (`parser/schema.go`, module `DdlParser`);
- discovers which tables and columns the dumps actually contain (`xmlparser/parser.go`, module `DumpAnalysis`);
- writes a filtered PostgreSQL schema (`database/schema.go`, modules `FilteredSchema` and `PgTypes`);
- imports the rows in parameterized batches of 1000 (`database/import.go`, module `Import`).

Shared modules:

| module | contents |
|---|---|
| `Types` | The records of `database/types.go`, plus the two "declared and present" selections that the importer and the schema writer both make. |
| `XmlTokens` | The XML input as a token stream: a `row` that decoded, a `row` that failed to decode, any other token, or a read error. |
| `Recorder` | The database as a log of calls, with a failure oracle saying which log positions fail. |
| `Strings` | ASCII versions of the `strings` functions the core uses. |
| `Seqs` | `Flatten` and `Reverse`. |
| `Wrappers` | `Option`. |

Each stateful Go function is a Dafny method with the same loops. It is proved equal to a specification function. The properties the Go code promises are lemmas about those functions:

- **Import:** batches concatenate to the decoded rows, the placeholders are row-major, and Commit happens only after every batch.
- **Schema:** what is dropped and created, the comma rule, the primary-key rule, and foreign-key deduplication.
- **Type mapping:** case order, the VARCHAR length round trip, and fixed points.
- **Dump analysis:** column keys, last value wins, partial results on a read error, and the published names.
- **DDL parser:** the regular expressions are sound and complete against a declarative reading, and the block search is leftmost and non-overlapping.

The database is a value (`Recorder.Db`) threaded through the methods. The XML files are token sequences keyed by path, or by table name for the importer. The DDL text is a string that has already been read.

## Model

| member | source | states |
|---|---|---|
| Types.Jobs | database/import.go:18-23 | A table is a job iff it is declared and its name is a key of the dumps. |
| Types.JobsAppend | database/import.go:18-23 | Job selection distributes over concatenation, so declared order is kept. |
| Import.SelectJobs | database/import.go:18-23 | The append loop yields exactly `Jobs(tables, dumps)`. |
| Types.SelectColumns | database/import.go:76-81 | A column is kept iff it is declared and its name is a key of the dump's column map. |
| Types.SelectColumnsAppend | database/schema.go:38-43 | Column selection distributes over concatenation, so declared order is kept. |
| Import.SelectColumnNames | database/import.go:76-81 | The loop yields the names of `SelectColumns(declared, present)`, in order. |
| Import.SkippedIffNoColumns | database/import.go:82-85 | A table is skipped iff none of its declared columns is in the dump, and a skipped table leaves the database untouched. |
| Import.Lookup | database/import.go:147-158 | The value is NULL iff no attribute has the column's local name. |
| Import.LookupFirst | database/import.go:149-154 | When attribute j is the first with that name, its value is the one used. |
| Import.AppendRowValues | database/import.go:147-159 | The nested loop appends exactly `RowValues(attrs, cols)`, one value per selected column. |
| Import.DecodedValues | database/import.go:139-162 | One tuple per decoded row, each of exactly `len(cols)` values. |
| Import.Placeholders | database/import.go:92-98 | Definition: tuple i of a statement with `tuples` tuples of width w is the text "($(i·w+1),…,$(i·w+w))", the numbers joined by commas. |
| Import.SlotsRowMajor | database/import.go:92-98 | Read tuple by tuple, the placeholder numbers are exactly 1 .. tuples·w in order; tuple i, column j is `i·w + j + 1`. |
| Import.TuplePlaceholders | database/import.go:93-96 | The inner loop builds `$(base+1)` .. `$(base+w)`. |
| Import.TupleTextAt | database/import.go:97 | The joined tuple text is the text of tuple i's slots. |
| Import.BuildPlaceholders | database/import.go:92-98 | The nested loop yields `Placeholders(tuples, w)`. |
| Import.Chunks | database/import.go:161-192 | Definition: the rows cut into consecutive batches of 1000 rows, with a shorter last batch for the remainder. |
| Import.ChunksSpec | database/import.go:161-170 | The batches concatenate to the rows. Every batch is non-empty and at most 1000 rows, and every batch but the last has exactly 1000. |
| Import.ChunkCount | database/import.go:164-192 | There are ceil(rows / 1000) batches. |
| Import.ChunkAt | database/import.go:164-170 | Batch k holds rows k·1000 up to (k+1)·1000 or the end. |
| Import.ChunkCountExact | database/import.go:161-175 | With full·1000 + cur rows and cur < 1000, there are `full` batches, plus one when cur > 0. |
| Import.ExecArgsAppend | database/import.go:165 | The executed arguments of two call sequences concatenate. |
| Import.BatchArgs | database/import.go:164-192 | The arguments of all batch executions are the flattened batches. |
| Import.PlanArgsAreRows | database/import.go:133-192 | The executed batches of a table, concatenated, are exactly its decoded rows in document order. |
| Import.Plan2500 | database/import.go:164-192 | 2500 rows give Begin, Prepare(1000), two 1000-row executions, Prepare(500), one 500-row execution, then Commit. |
| Import.Padded | database/import.go:205-210 | Padding keeps the values as a prefix and fills with NULL up to batchSize·cols; nothing is dropped. |
| Import.ExecuteBatch | database/import.go:204-215 | The padding loop and then one statement execution with the padded values. |
| Import.Settle | database/import.go:124 | Definition: run a plan's calls until the first failure; if that failure is neither Begin nor Commit, the deferred Rollback is recorded after it. |
| Import.SettleLog | database/import.go:124 | A settled plan records its calls up to the failing one. A Rollback follows iff the failing call was neither Begin nor Commit. |
| Import.SettleCommit | database/import.go:195-197 | When Commit is only the plan's last call, a Commit in the log means the whole plan ran. |
| Import.StreamRow | database/import.go:161-164 | A row that does not complete a batch is only buffered, so `len(values) == currentBatchSize·len(cols)` is kept. |
| Import.FullBatchArgs | database/import.go:164-165 | The buffer plus the completing row is the next whole batch, with exactly 1000·len(cols) values. |
| Import.StreamFull | database/import.go:164-170 | A full batch is executed once with the 1000-row statement. On success the buffer is cleared, and on failure the plan stops at that call. |
| Import.StreamEnd | database/import.go:172-175 | At the end of the stream the buffer holds cur·len(cols) values. With cur == 0, every batch has been executed. |
| Import.StreamFlush | database/import.go:175-192 | A non-empty remainder prepares a statement of exactly `currentBatchSize` tuples and executes it once. The plan stops at whichever call fails. |
| Import.CommitStep | database/import.go:195-197 | Commit ends the plan successfully or is its failing call. |
| Import.AddRow | database/import.go:139-171 | One decoded row keeps the buffer invariant, or, when an execution fails, stops the plan at that StmtExec. |
| Import.StreamBatches | database/import.go:133-172 | The token loop stops at the first read error. It ends with rowCount equal to the number of decoded rows and the buffer invariant, or at the failing batch execution. |
| Import.OpenTransaction | database/import.go:120-130 | Begin then Prepare. A failure is reported as one of those two calls. |
| Import.FinishTable | database/import.go:175-197 | The final batch and the Commit complete the plan, or the plan stops at the failing call, which is never Begin. |
| Import.ImportEffect | database/import.go:72-201 | Definition of one table's import: no selected columns means Skipped with no call; a file that does not open means OpenFailed; otherwise the plan Begin, Prepare(1000), the batches of the decoded rows, Commit is settled, giving Failed at the failing call or Imported with the number of decoded rows. |
| Import.ImportSingleTable | database/import.go:72-201 | The method's effect on the database and its outcome are `ImportEffect`: skip, open failure, failure at one call (with the deferred Rollback when the transaction is open), or imported with the row count. |
| Import.EffectFailed | database/import.go:124 | A failed plan is followed by Rollback unless Begin or Commit failed. |
| Import.EffectImported | database/import.go:195-200 | A plan run to the end reports the number of decoded rows. |
| Import.BatchCallsShape | database/import.go:164-192 | Batch calls are only Prepare and statement executions. |
| Import.PlanShape | database/import.go:120-197 | A table's plan has no trigger Exec and no Rollback, and Commit occurs only as its last call. |
| Import.EffectLog | database/import.go:72-201 | A table import only appends calls to the log, and none of them is a trigger statement. |
| Import.CommitOnlyAfterEveryBatch | database/import.go:164-197 | Once a Commit appears in the log, the calls added are exactly the whole plan: every batch was executed. |
| Import.ImportedRowsInOrder | database/import.go:133-199 | A committed table's executed arguments are its decoded rows in document order, and the reported count is the number of decoded rows. |
| Import.TriggerCalls | database/import.go:27-33 | One Exec per job, in job order. |
| Import.TriggerCallsAt | database/import.go:60-66 | The trigger statements split around job i. |
| Import.SetTriggers | database/import.go:27-33 | The loop runs the trigger statements and stops at the first failure, giving its index. |
| Import.ImportAll | database/import.go:44-56 | One outcome per job. |
| Import.JobsInDumps | database/import.go:45 | Every job has a dump entry. |
| Import.ImportTables | database/import.go:44-56 | Every job is imported in order, whatever happened to the previous ones. |
| Import.ImportDataEffect | database/import.go:16-69 | Definition of the whole import: run the DISABLE TRIGGER calls of the jobs and return DisableFailed at the first failure; else import each job in order; then run the ENABLE TRIGGER calls and return EnableFailed at the first failure, else no error. |
| Import.ImportDataToPostgres | database/import.go:16-69 | The method's effect is `ImportDataEffect`: disable all triggers (stopping at the first failure), import every job, then enable all triggers (stopping at the first failure). |
| Import.ImportAllLog | database/import.go:44-48 | The imports together issue no trigger statement. |
| Import.DisableFailureImportsNothing | database/import.go:27-33 | A failed disable imports nothing. Only a prefix of the DISABLE statements reaches the log. |
| Import.ErrorIffTriggerFailed | database/import.go:27-68 | The returned error is None iff no trigger statement failed. Per-table failures never change it. |
| Import.EveryJobImported | database/import.go:40-56 | Unless a disable failed, every job gets an outcome. |
| Recorder.Issue | database/import.go:120 | A call is appended to the log and succeeds iff the oracle does not mark its position. |
| Recorder.Run | database/import.go:27-33 | A failing index is within the calls. |
| Recorder.RunLog | database/import.go:27-33 | A run records the calls up to and including the failing one. |
| Recorder.RunFailure | database/import.go:27-33 | A run fails exactly at the first marked position, and fails iff some position is marked. |
| Recorder.RunAppend | database/import.go:27-66 | Running a + b is running a and, only if that succeeded, b. |
| XmlTokens.TokensRead | database/import.go:133-137 | The loop sees the tokens before the first read error and nothing after it. |
| XmlTokens.NextToken | database/import.go:139-145 | A token read without error that is a decoded row is the next decoded row. |
| FilteredSchema.HeaderFirst | database/schema.go:19-22 | The file opens with the comment, the CREATE SCHEMA line and a blank line, then the DROP comment. |
| FilteredSchema.EmitDrops | database/schema.go:23-28 | The reverse index loop yields `Drops(schema, tables, dumps)`. |
| FilteredSchema.DropsReverseJobs | database/schema.go:23-28 | Walking backwards drops the tables with a dump in reverse declared order. |
| FilteredSchema.DropsReversed | database/schema.go:23-28 | DROP line k names the k-th table with a dump counted from the end. Every declared table with a dump is dropped. |
| FilteredSchema.PresentColumns | database/schema.go:38-43 | The filter loop yields `SelectColumns(declared, present)`. |
| FilteredSchema.EmitColumns | database/schema.go:49-60 | The column loop yields the column lines of the translated columns. |
| FilteredSchema.TranslatedAt | database/schema.go:54 | Kept column k is declared under its own name with type `ToPgType` of its declared type. |
| FilteredSchema.ColumnCommas | database/schema.go:49-53 | Every column line but the last ends with a comma, and the last has none. |
| FilteredSchema.PrimaryKeyIff | database/schema.go:55-58 | " PRIMARY KEY" is appended iff the name equals "Id" ignoring case. |
| FilteredSchema.EmitCreates | database/schema.go:32-62 | The CREATE loop yields `CreateSection(schema, tables, dumps)`. |
| FilteredSchema.Created | database/schema.go:32-47 | Every created table is declared and passes the filter. |
| FilteredSchema.CreatesIff | database/schema.go:33-46 | A table gets a block iff it has a dump that shows at least one declared column. |
| FilteredSchema.CreatedExactly | database/schema.go:32-47 | A table is created iff it is declared and passes the filter. |
| FilteredSchema.CreateSectionIsBlocks | database/schema.go:32-62 | The CREATE section is the blocks of the created tables, in declared order, and nothing else. |
| FilteredSchema.CreatedTableLines | database/schema.go:32-62 | Every declared table whose dump shares a column has its block in the written file: its CREATE TABLE line, then one line per kept column in declared order with the `ToPgType` type, " PRIMARY KEY" iff the name equals "Id" ignoring case, and a comma on every line but the last, then ");". |
| FilteredSchema.ConstraintLines | database/schema.go:83-92 | Two lines per written relation. |
| FilteredSchema.Emitted | database/schema.go:64-94 | Definition: walking the relations in order, a relation is kept iff it passes the dump filters and no relation kept before it has its constraint name. |
| FilteredSchema.EmittedStep | database/schema.go:67-93 | A relation is written, and its name is added to `seen`, iff it qualifies and its name is new. |
| FilteredSchema.EmitForeignKeys | database/schema.go:64-94 | The foreign key loop with its `seen` set yields the lines of `Emitted(rels, dumps)`. |
| FilteredSchema.EmittedSound | database/schema.go:67-78 | Every written relation is an input relation whose two tables have dumps showing its two columns. |
| FilteredSchema.EmittedDistinct | database/schema.go:79-81 | No constraint name is written twice. |
| FilteredSchema.EmittedNames | database/schema.go:65-94 | A name is written iff some qualifying relation carries it. A filtered-out relation does not reserve its name. |
| FilteredSchema.FirstWins | database/schema.go:65-94 | The first qualifying relation with a name is the one written, and no other relation with that name is. |
| FilteredSchema.SchemaText | database/schema.go:12-96 | Definition of the written file: header, DROP comment, DROP lines of the jobs in reverse order, blank line, the CREATE blocks, the foreign key comment, then the two constraint lines of each kept relation. |
| FilteredSchema.GenerateFilteredSchema | database/schema.go:12-96 | The lines written are `SchemaText`: header, DROP section, CREATE section, foreign key section. |
| PgTypes.GroupLength | database/schema.go:102-107 | Definition: the digits of the first `(digits)` group as a number, or 0 when there is no group or the number does not fit a 64-bit int. |
| PgTypes.Translate | database/schema.go:109-140 | Definition: the case chain of the switch, tried in source order on the normalised text, with the length and the upper-cased original as inputs. |
| PgTypes.ToPgType | database/schema.go:99-141 | Definition: `Translate` of the trimmed lower-cased input, its `GroupLength`, and the upper-cased untrimmed input. |
| PgTypes.DigitRun | database/schema.go:103 | The run stays in the text and stops at a non-digit or the end. |
| PgTypes.DigitRunDigits | database/schema.go:103 | The run consists of digits. |
| PgTypes.FirstGroup | database/schema.go:103 | The position found is the leftmost match of `\((\d+)\)`, and None means there is none. |
| PgTypes.NoGroup | database/schema.go:102-107 | Text without "(" has length 0. |
| PgTypes.GroupLengthAfter | database/schema.go:102-107 | For w(d) with a parenthesis-free w, the length is the number d spells, or 0 when Atoi rejects it as out of range. |
| PgTypes.LengthRoundTrip | database/schema.go:102-107 | The length written after a word is the length read back. |
| PgTypes.ToPgTypeFold | database/schema.go:100 | The result depends on the input only up to letter case. |
| PgTypes.NormalUpper | database/schema.go:100 | Upper-casing the input does not change the normalised text. |
| PgTypes.TranslateRange | database/schema.go:109-140 | Every result of the case analysis is a fixed name, VARCHAR(n) with 1 ≤ n ≤ 255, or the upper-cased input. |
| PgTypes.ToPgTypeRange | database/schema.go:99-141 | Every result is a fixed name, a bounded VARCHAR(n), or the upper-cased input. |
| PgTypes.TranslateDatetime | database/schema.go:120-123 | A datetime type also starts with "date" but becomes TIMESTAMP, because its case comes first. |
| PgTypes.DatetimeBeforeDate | database/schema.go:120-123 | The same, for `ToPgType` on any input whose trimmed lower-case form starts with "datetime". |
| PgTypes.TranslateDecimal | database/schema.go:126-127 | decimal and numeric give the upper-cased input. |
| PgTypes.DecimalKeepsInput | database/schema.go:126-127 | decimal and numeric return the whole original input, untrimmed and upper-cased. |
| PgTypes.TranslateCharFamily | database/schema.go:130-137 | The char family gives TEXT above 255, VARCHAR(n) for n from 1 to 255, else VARCHAR. |
| PgTypes.CharFamilyLength | database/schema.go:102-107 | The same, with n the length read from the first `(digits)` group. |
| PgTypes.VarcharDigits | database/schema.go:102-137 | "varchar(d)" translates by the number d spells. |
| PgTypes.VarcharRoundTrip | database/schema.go:102-137 | "varchar(n)" gives VARCHAR(n) for 1 ≤ n ≤ 255, TEXT above 255, and VARCHAR for 0. |
| PgTypes.VarcharIsFixed | database/schema.go:130-137 | VARCHAR(n) translates to itself. |
| PgTypes.FixedNameIsFixed | database/schema.go:109-137 | Every fixed type name translates to itself. |
| PgTypes.ToPgTypeIdempotent | database/schema.go:99-141 | Translating a result again gives the same result. |
| DumpAnalysis.CollectedPathsSpec | xmlparser/parser.go:18-24 | A path is collected iff some walk entry with that path has no error, is not a directory and ends in ".xml". |
| DumpAnalysis.CollectedPathsAppend | xmlparser/parser.go:18-24 | Collection keeps walk order. |
| DumpAnalysis.CollectXmlPaths | xmlparser/parser.go:18-24 | The callback's appends yield `CollectedPaths(entries)`. |
| DumpAnalysis.AfterLastSlashSpec | xmlparser/parser.go:38 | The last path element contains no '/' and is preceded by '/' or the start. |
| DumpAnalysis.TableName | xmlparser/parser.go:38 | Definition: the last path element with one trailing ".xml" removed. |
| DumpAnalysis.TableNameOfXml | xmlparser/parser.go:38 | For a path ending in ".xml", the name contains no '/'. The path is a directory part, then the name, then ".xml". |
| DumpAnalysis.AbsorbAppend | xmlparser/parser.go:57-59 | Folding a + b is folding a, then b. |
| DumpAnalysis.AbsorbKeys | xmlparser/parser.go:57-59 | A key of the result is a key of the start map or some attribute's local name. |
| DumpAnalysis.AbsorbLastWins | xmlparser/parser.go:58 | A repeated name keeps the value of its last attribute. |
| DumpAnalysis.AbsorbUntouched | xmlparser/parser.go:57-59 | A name no attribute carries keeps its old entry. |
| DumpAnalysis.ScanResult | xmlparser/parser.go:47-62 | Definition: the attributes of the decoded rows before the first token error, folded into a map in document order. |
| DumpAnalysis.ScanColumns | xmlparser/parser.go:47-62 | The token loop yields `ScanResult(toks)`, the fold of the decoded rows before the first error. |
| DumpAnalysis.InFlatten | xmlparser/parser.go:57 | An element of the flattened rows comes from one row. |
| DumpAnalysis.ScanKeys | xmlparser/parser.go:52-60 | A file's column keys are exactly the local names of attributes of decoded rows. |
| DumpAnalysis.ScanLastWins | xmlparser/parser.go:58 | For a repeated name, the stored value is the one seen last in document order. |
| DumpAnalysis.ScanEmpty | xmlparser/parser.go:39 | The map is empty iff every decoded row has no attributes; in particular, a file with no rows gives an empty map. |
| DumpAnalysis.TokensReadPrefix | xmlparser/parser.go:47-51 | Tokens before the first error are all read. |
| DumpAnalysis.TokenErrorKeepsPartial | xmlparser/parser.go:47-51 | A read error ends the scan and keeps whatever was folded before it. |
| DumpAnalysis.OtherTokensIgnored | xmlparser/parser.go:52-56 | A non-row token, or a row that fails to decode, contributes nothing. |
| DumpAnalysis.Opened | xmlparser/parser.go:41-45 | Every opened path opens. |
| DumpAnalysis.OpenedSpec | xmlparser/parser.go:41-45 | A path is opened iff it is collected and opens; a path that fails to open is left out. |
| DumpAnalysis.PublishSnoc | xmlparser/parser.go:66 | Publishing one more entry writes it under its own name. |
| DumpAnalysis.Analysis | xmlparser/parser.go:16-81 | Definition: each collected path that opens, in walk order, is scanned and published under its table name. |
| DumpAnalysis.AnalyzeXmlDumps | xmlparser/parser.go:16-81 | The sequential run yields `Analysis(CollectedPaths(entries), files)`. |
| DumpAnalysis.PublishKeys | xmlparser/parser.go:66 | A name is published iff some entry carries it. |
| DumpAnalysis.PublishLast | xmlparser/parser.go:66 | The published entry of a name is the last entry carrying it. |
| DumpAnalysis.PublishedNames | xmlparser/parser.go:38-66 | The published names are exactly the table names of the collected paths that open. |
| DumpAnalysis.PublishedEntry | xmlparser/parser.go:38-67 | An entry's Name field equals its key. Its columns are the scan of an opened path with that table name, published even when the scan stopped at an error. |
| DumpAnalysis.PublishLastWins | xmlparser/parser.go:66 | The entry written last under a name stays. |
| DumpAnalysis.LastOpenedWins | xmlparser/parser.go:65-67 | When several opened paths share a name, the sequential run keeps the scan of the last one. |
| DumpAnalysis.OpenedPathsPublished | xmlparser/parser.go:38-66 | Every collected path that opens has its table name published. |
| Strings.Split | parser/schema.go:28 | The pieces contain no separator, and joined with it they give back the text. |
| Strings.TrimSuffixSpec | parser/schema.go:35 | The suffix is removed once when present, and nothing changes otherwise. |
| Strings.TrimLeftSpec | parser/schema.go:29 | TrimLeft removes exactly the leading white space. |
| Strings.TrimRightSpec | parser/schema.go:29 | TrimRight removes exactly the trailing white space. |
| DdlParser.RunEnd | parser/schema.go:19-20 | A greedy run ends within the text. |
| DdlParser.RunEndSpec | parser/schema.go:19-20 | The run is all in the class, and stops at the end or at a character outside it. |
| DdlParser.RunEndUnique | parser/schema.go:19-20 | A class run can end only at the first character outside the class. |
| DdlParser.CloseAtIff | parser/schema.go:19 | `\)\s*;` matches from q to e iff CloseAt finds e. |
| DdlParser.BodyEnd | parser/schema.go:19 | The lazy body ends within the text. |
| DdlParser.BodyEndSound | parser/schema.go:19 | The close found matches, and no earlier position can close the block. |
| DdlParser.BodyEndComplete | parser/schema.go:19 | If some close exists at or after k, one is found no later. |
| DdlParser.MatchAt | parser/schema.go:19 | A match tried at i starts at i and ends within the text. |
| DdlParser.PatternRuns | parser/schema.go:19 | The runs of any instance of the pattern are forced. |
| DdlParser.MatchAtSound | parser/schema.go:19 | A match at i is an instance of `(?is)CREATE TABLE\s+(\w+)\s*\((.*?)\)\s*;` with its groups as name and body, and the shortest body. |
| DdlParser.MatchAtComplete | parser/schema.go:19 | Wherever the pattern can match at i, MatchAt matches with the same name and a body that ends no later. |
| DdlParser.ScanFound | parser/schema.go:23 | Each result of the scan is the match at its start. |
| DdlParser.ScanEnds | parser/schema.go:23 | No match starts before the first result or after the last one ends. |
| DdlParser.ScanBetween | parser/schema.go:23 | Consecutive results do not overlap, and no match starts between them. |
| DdlParser.FindAll | parser/schema.go:19-23 | Definition: scanning from the start, take the match at the first position where one begins, then continue after its end. |
| DdlParser.FindAllFound | parser/schema.go:23 | Result k is the pattern's match at its start. |
| DdlParser.FindAllBetween | parser/schema.go:23 | Results are in text order, do not overlap, and no match starts in a gap. |
| DdlParser.FindAllEnds | parser/schema.go:23 | No match starts before the first result or after the last, and with no result there is no match at all. |
| DdlParser.ColumnMatch | parser/schema.go:20 | Definition: skip leading white space, read an identifier, require white space, then take the maximal run of type characters. |
| DdlParser.ColumnMatchSound | parser/schema.go:20 | A recognized line is an instance of `^\s*([A-Za-z_]\w*)\s+([A-Za-z0-9()_,]+)`. Its type is the longest run of type characters, so the rest of the line is ignored. |
| DdlParser.ColumnMatchComplete | parser/schema.go:20 | Whenever the pattern can match a line, it is recognized, with the same name and a type at least as long. |
| DdlParser.Schema | parser/schema.go:23-26 | One table per block match. Tables without columns are included. |
| DdlParser.LineColumn | parser/schema.go:29-40 | Definition: trim the line, skip it if empty or starting with PRIMARY KEY or CONSTRAINT in upper case, remove one trailing comma, then apply `ColumnMatch`. |
| DdlParser.BlockColumns | parser/schema.go:28-42 | The line loop (trim, skip empty, PRIMARY KEY and CONSTRAINT lines, trim one comma, match) yields `LinesColumns` of the block's lines. |
| DdlParser.ParseSqlSchema | parser/schema.go:17-45 | The nested loops yield `Schema(text)`. |
| DdlParser.LinesColumnsAppend | parser/schema.go:36-42 | Columns distribute over lines, so line order is kept. |
| DdlParser.LinesColumnsSpec | parser/schema.go:28-42 | A column of a block is what some line contributes, and every line that yields a column adds it. |

## Left out

- Concurrency: the worker pools, channels, WaitGroup and mutex of database/import.go:36-56 and xmlparser/parser.go:26-35, 65-78. Each table and each file is processed independently, so the model runs them one after another in job order and walk order.
- Import.ImportTables: in Go, the imports of different tables interleave on the database, so the model's log order between tables is one of the possible orders.
- DumpAnalysis.LastOpenedWins: with the worker pool, the entry kept for a shared table name is whichever worker wrote last, not necessarily the last path in walk order. PublishedEntry states the order-independent part.
- database/sql: Exec, Begin, Prepare, stmt.Exec, Commit and Rollback become calls recorded by `Recorder`, and the failure oracle decides their errors. stmt.Close, and the error text that `fmt.Errorf` wraps around each failure, are not modelled.
- encoding/xml lexing and decoding: the input is the token sequence a decoder would produce.
- The file system: filepath.Walk becomes a sequence of walk entries, and os.Open becomes membership in a map of token streams. os.ReadFile is replaced by the DDL text as a parameter, and os.Create/Fprintf by the written file as a sequence of lines. The error returns of os.ReadFile and os.Create are not modelled.
- filepath.Base is modelled with '/' as the only separator; Windows volume names and '\' are not.
- Logging and fmt.Printf diagnostics. They do not affect results.
- ExecuteSQLFile (database/import.go:219-226): a file read plus one Exec.
- parser/relations.go, config/config.go and cmd/main.go are not part of this model.
- Unicode: strings.ToLower, ToUpper, TrimSpace and EqualFold are ASCII-only. RE2's `(?i)` would also let U+017F and U+212A match 's' and 'k'; this is not modelled.
- Machine integers: Go's `int` row counters and placeholder numbers are unbounded here. strconv.Atoi's range limit is modelled exactly: a length above 2^63 - 1 gives 0.
