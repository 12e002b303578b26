# Incremental JSONL backup exporter of `bd`, modelled in Dafny

`bd backup` writes a JSONL copy of the issue database into a backup
directory, one file per table: `issues.jsonl`, `events.jsonl`,
`comments.jsonl`, `dependencies.jsonl`, `labels.jsonl` and `config.jsonl`.
A `backup_state.json` file next to them records the following:

- the Dolt commit the backup was taken at;
- the highest event id exported (the events watermark);
- a timestamp;
- the row count of each table.

A run works in this order:

1. It loads that state.
2. It skips the run when the store has not moved since the last backup,
   unless the run is forced.
3. It exports the six tables in a fixed order. Every table but events is
   a full snapshot written atomically. Events are exported incrementally
   above the watermark and appended, except on the first export.
4. It saves the state as its last step.

When the store has a shadow `wisps` table, each export except config
reads its base table UNION ALL its shadow table: `wisps` for issues,
`wisp_events`, `wisp_comments`, `wisp_dependencies` and `wisp_labels` for
the others.

The model has nine modules, one per file:

- `Common`: bytes, `int64`, `Option`, `Result`, the six entities and
  their file names, and the errors.
- `Values`: driver values, `normalizeValue`, `truncateHash`, and the
  building of one row.
- `Files`: the file system as a map from paths to bytes, as a class whose
  operating-system calls may fail nondeterministically.
- `AtomicWrite`: `atomicWriteFile`.
- `Queries`: the query each export sends, its SQL text, the wisps switch,
  and the store, which is an oracle that answers queries and reports its
  commit.
- `Jsonl`: the row loop shared by both exporters, as specification
  functions plus the two loop methods proved against them.
- `StateStore`: `backupState`, as a value record and a mutable class,
  plus `loadBackupState` and `saveBackupState`.
- `Exporters`: `exportTable` and `exportEventsIncremental`.
- `Orchestrator`: `runBackupExport`, split into its steps.

The following are parameters:

- the RFC 3339 formatter and `json.Marshal` of a row, as `RowCodec`;
- `json.MarshalIndent` and `json.Unmarshal` of the state, as
  `StateCodec`;
- the result of `backupDir()`, as `Option<string>`;
- `time.Now()`, as a `Time`.

`tableExistsCheck` is `Store.TableExists`, a set of table names. A failing
metadata query is a name missing from that set.

## Model

| member | source | states |
|---|---|---|
| Values.Normalize | cmd/bd/backup_export.go:396-410 | bytes become the string with the same bytes; a zero time becomes nil; a non-zero time becomes its RFC 3339 text; nil and every other value come back unchanged; the result is always JSON-friendly (no bytes, no time) |
| Values.NormalizeIdempotent | cmd/bd/backup_export.go:396-410 | normalising twice gives the same value as normalising once |
| Values.NormalizeFixedPoints | cmd/bd/backup_export.go:396-410 | the values normalisation leaves unchanged are exactly the JSON-friendly ones |
| Values.TruncateHash | cmd/bd/backup_export.go:245-250 | the result is the prefix of the hash of length min(len, 8): the whole hash when it has at most 8 characters, otherwise exactly its first 8 |
| Values.BuildRow | cmd/bd/backup_export.go:281-284 | the per-column loop builds exactly `RowOf` of the columns and scanned values |
| Values.RowOfKeys | cmd/bd/backup_export.go:281-284 | the row's keys are exactly the column names |
| Values.RowOfLookup | cmd/bd/backup_export.go:281-284 | each column name is a key of the row and holds the normalised value of the last column of that name |
| Values.RowOfFriendly | cmd/bd/backup_export.go:281-284 | every value in a built row is JSON-friendly |
| AtomicWrite.AtomicWriteFile | cmd/bd/backup_export.go:98-125 | on success the target holds exactly the data and nothing else changed; on a create, write, sync, close or rename failure every path, the target included, is as before, and no temporary file remains |
| Jsonl.ScanRow | cmd/bd/backup_export.go:271-277 | a scan succeeds exactly when the driver delivers one value per column; every failure is a scan error |
| Jsonl.EncodeRow | cmd/bd/backup_export.go:271-289 | a row fails only with a scan error or a marshal error |
| Jsonl.EncodeAllOk | cmd/bd/backup_export.go:269-293 | the loop yields objects exactly when every tuple scans and marshals; then there is one object per tuple, in the store's order |
| Jsonl.EncodeAllFirstError | cmd/bd/backup_export.go:269-289 | a failed loop reports the error of the first failing tuple, and every tuple before it succeeded |
| Jsonl.EncodeAllKeepsError | cmd/bd/backup_export.go:275-289 | once a prefix of the tuples fails, the loop's result is that failure whatever follows |
| Jsonl.JsonlConcat | cmd/bd/backup_export.go:290-291 | the buffer of two object sequences is the concatenation of their buffers |
| Jsonl.SplitJsonl | cmd/bd/backup_export.go:290-291 | when no object holds a raw newline, splitting the buffer at newlines gives back the objects: one line per row, in order |
| Jsonl.TableBatchContents | cmd/bd/backup_export.go:254-299 | with compact JSON, a table export succeeds exactly when the query, the columns, every tuple and the iteration succeed; then the count is the number of tuples and the buffer's lines are the marshalled rows in order; zero rows give an empty buffer and count 0 |
| Jsonl.HighWaterBounds | cmd/bd/backup_export.go:331-351 | maxID is never negative, is at least every int64 id seen, and is 0 or one of those ids |
| Jsonl.HighWaterAdvances | cmd/bd/backup_export.go:303-391 | when the store returns only ids above the watermark, the new maxID exceeds the watermark exactly when some row has an int64 id; when none has one, maxID is 0 |
| Jsonl.IdFromDriver | cmd/bd/backup_export.go:343-351 | the id maxID looks at is the driver value of the last `id` column when that value is an int64, and there is none without an `id` column |
| Jsonl.CollectTable | cmd/bd/backup_export.go:266-296 | exportTable's `rows.Next()` loop computes exactly `TableBatch` of the result set: the buffer, the count, or the first scan, marshal or iteration error |
| Jsonl.CollectEvents | cmd/bd/backup_export.go:329-363 | the events loop computes exactly `EventsBatch`: the buffer, the count and maxID, or the first error |
| Queries.EventsQuery | cmd/bd/backup_export.go:304-316 | the events query reads events and, with wisps, wisp_events, selects only ids above the watermark, and binds the watermark once per branch |
| Queries.WispsOnlyAddShadowBranch | cmd/bd/backup_export.go:304-316 | for the events query here and the snapshot queries at lines 156-205 alike, turning wisps on only adds the shadow table: the statement becomes the base branch UNION ALL the shadow branch with the same projection, filter and ordering key |
| Queries.ConfigNeverShadowed | cmd/bd/backup_export.go:212-213 | config has no shadow table: with or without wisps its query is the same single branch over `config`, ordered by `key` |
| Queries.IssuesStatementText | cmd/bd/backup_export.go:156 | the rendered issues query without wisps is the exporter's statement character for character |
| StateStore.BackupState.constructor | cmd/bd/backup_export.go:26-38 | a new state object holds the given record |
| StateStore.LoadBackupState | cmd/bd/backup_export.go:72-85 | a missing state file gives the zero state; a read failure or a parse failure is an error, never a zero state; a parse failure happens only when the file does not parse, so a parsable file fails only to read; on success the state is the parse of the file |
| StateStore.SaveBackupState | cmd/bd/backup_export.go:89-95 | `MarshalStateFailed` is reported exactly when the state does not marshal, and then nothing is written; on success the state file holds the marshalled state and nothing else changed; any failure leaves every file as it was |
| StateStore.SavedStateReloads | cmd/bd/backup_export.go:72-95 | given a codec that reads back what it writes, the state saved is the state the next load reads |
| Exporters.ExportTable | cmd/bd/backup_export.go:254-299 | a query, columns, scan, marshal or iteration failure returns 0 before anything is written; otherwise the count is returned even when the write fails, and the file is either replaced by the buffer or left unchanged |
| Exporters.AppendFile | cmd/bd/backup_export.go:377-389 | on success the file is its old content (empty if it was missing) followed by the data; a failure is an open, write or close error, and a failed open changes nothing; any failure leaves every other path unchanged and the old content a prefix of the file |
| Exporters.PlaceEvents | cmd/bd/backup_export.go:369-389 | the first export replaces the events file atomically, and a failure then is a write error that changes nothing; later exports append, and a failure then is an open, write or close error |
| Exporters.ExportEventsIncremental | cmd/bd/backup_export.go:303-393 | a collection error or zero new rows leaves the events file and the watermark untouched; otherwise, on success, the watermark becomes maxID and the file is replaced (watermark 0) or extended (old content kept as a prefix); a failed write keeps the watermark and is an atomic-write error that changes nothing (watermark 0) or an append error that keeps the old content as a prefix; no other state field changes; when the store honours the filter, the watermark increases exactly when a row has an int64 id |
| Orchestrator.UntouchedAfterStop | cmd/bd/backup_export.go:160-217 | a run that stopped at an entity has not touched the file of any entity after it in the export order |
| Orchestrator.WrittenNext | cmd/bd/backup_export.go:160-217 | writing the next entity's file extends what a run has written, one entity at a time, in export order |
| Orchestrator.ExportSnapshotStep | cmd/bd/backup_export.go:160-217 | a snapshot step touches only its own file; on failure the error is "backup <entity>" wrapping either the collection error of the snapshot or, when the snapshot collects, an atomic-write error, and every file and the state are unchanged; on success the file holds the snapshot and only that entity's count is overwritten |
| Orchestrator.ExportEventsStep | cmd/bd/backup_export.go:166-171 | the events step touches only the events file; on failure the error is "backup events" wrapping the collection error, or the write error of a non-empty batch (atomic write at watermark 0, append otherwise), the file is unchanged (collection error or watermark 0) or keeps its old content as a prefix, and the state is unchanged; on success the events count grows by the number of new events and the watermark moves as the incremental export says |
| Orchestrator.ExportHead | cmd/bd/backup_export.go:160-171 | issues then events: a failure reported for an entity means every export before it succeeded and wrote its file, that entity's own export failed with the reported cause and kept its file, and nothing after it changed; on success the issues count is overwritten, the events count grows by the new events, the watermark moves, and the files hold the issues snapshot and the placed events |
| Orchestrator.ExportRest | cmd/bd/backup_export.go:173-217 | comments, dependencies, labels and config in that order: a failure reported for an entity means every one of these before it was exported and wrote its file, its own export failed with the reported cause and left its file unchanged, and only files from comments up to it changed; on success their counts are overwritten and the files hold their snapshots |
| Orchestrator.ExportAll | cmd/bd/backup_export.go:156-217 | the six exports run in the fixed order and the first failure stops them: the reported entity is the first whose export failed, with the reported cause, every earlier entity was exported and holds its new file, the failed entity's file is unchanged (events: unchanged or old content kept as a prefix), and nothing after it changed; on success the snapshot counts are overwritten, the events count is accumulated, the watermark is updated, and the files are exactly the snapshots plus the new events |
| Orchestrator.ExportAndSave | cmd/bd/backup_export.go:156-231 | the state file is written last: any failure leaves it as it was and is either an export failure, tied to the first failing export as in `ExportAll`, or a failure of the second commit read or of the save, which comes only after all six exports succeeded and leaves exactly the exported files, and is `CommitForStateFailed` exactly when the second commit read fails and `MarshalStateFailed` exactly when the stamped record does not marshal; on success the record carries the second commit read, the new watermark, the given time and the new counts, and the files are the exported files plus the marshalled record |
| Orchestrator.StampAndSave | cmd/bd/backup_export.go:219-229 | `CommitForStateFailed` is reported exactly when the second commit read fails, and `MarshalStateFailed` exactly when the read succeeds and the stamped record does not marshal; a failed read or save writes nothing and is a commit, marshal or atomic-write error; on success the record carries the commit read after the exports and the given time, the state file holds its marshalled form, and the watermark and counts are untouched |
| Orchestrator.RunLoaded | cmd/bd/backup_export.go:140-231 | starting from the loaded record: without force, `CommitFailed` is reported exactly when the commit read fails, and it writes nothing; an unchanged non-empty commit returns the loaded state and writes nothing; otherwise the outcome is that of `ExportAndSave` with the wisps table probed once, so `CommitForStateFailed` and `MarshalStateFailed` are tied to their causes; only the six output files and the state file may change |
| Orchestrator.RunInDir | cmd/bd/backup_export.go:135-232 | with the directory resolved: a state file that does not load gives `ReadStateFailed` or `ParseStateFailed` and writes nothing, a parse failure only when the file does not parse; after loading, the outcome is that of `RunLoaded` relative to the stored record, with `CommitForStateFailed` and `MarshalStateFailed` tied to their causes |
| Orchestrator.RunBackupExport | cmd/bd/backup_export.go:129-232 | `BackupDirFailed` is reported exactly when the backup directory does not resolve, and then nothing changes; `ReadStateFailed` and `ParseStateFailed` arise only from an existing state file (a parse failure only from one that does not parse), and a state file that does not load always gives one of the three setup errors; without force, a failing commit read is exactly what gives `CommitFailed`; setup errors write nothing; only the six output files and the state file may change, and a failed run never rewrites the state file; an export failure is tied to the first failing export as in `ExportAll`, relative to the loaded watermark; a failed second commit read or save comes after all six exports succeeded and leaves exactly the exported files, and is `CommitForStateFailed` exactly when that read fails and `MarshalStateFailed` exactly when the record it would save (the second commit read, the new watermark, the given time and the new counts) does not marshal; without force, an unchanged non-empty commit writes nothing and returns the loaded state (or a read error); otherwise a successful run leaves exactly the exported files and the saved state |

## Left out

- `backupDir` is an oracle. The model receives the directory it resolved, or `None` when it failed. Configuration lookup, home-directory expansion, `os.Stat` and `MkdirAll` are not modelled.
- `tableExistsCheck` is an oracle: a set of table names. A failing metadata query is a missing name.
- SQL execution is not modelled: the store answers each query with a column list, a sequence of scanned tuples and an iteration-error flag. Column discovery, the `UNION ALL` merge and `ORDER BY` are the store's business. The model trusts the order and filter the store applies, and `HighWaterAdvances` states its assumption (every returned id lies above the watermark) as a precondition.
- `json.Marshal`, `json.MarshalIndent`, `json.Unmarshal` and the RFC 3339 formatting of `time.Time.Format` are function parameters. They are not re-implemented. Compact JSON output (no raw newline inside an object) is an explicit precondition (`Compact`) where the line framing is stated.
- Go `interface{}` values are a closed datatype of the driver's types: nil, bytes, string, time, int64, uint64, float64 and bool. Floating point is an unbounded `real`.
- `os.Remove` is infallible in the model. The exporter ignores its error, so a failed removal would leave a stray `.backup-tmp-*` file that the model does not show.
- `os.CreateTemp` retrying with fresh random names is reduced to one attempt at a nondeterministic fresh name.
- `fsync` durability, crash timing and the partial state a crash leaves are not modelled. `Sync` and `Close` only succeed or fail.
- Partial writes are modelled only for the append path. A failed `Write` may leave any prefix of the new lines. A crash in the middle of the atomic write is not modelled.
- Logging through `debug.Logf` and the `truncateHash` call that only feeds it are left out of `RunBackupExport`. `TruncateHash` is modelled on its own.
- Values.TruncateHash: works on characters, whereas Go's `h[:8]` slices bytes. For the hexadecimal commit hashes it is applied to, the two agree.
- Counts are unbounded integers. Go's `int` overflow of the accumulated events count is not modelled.
- `time.Now().UTC()` is the parameter `now`.
- The global `store` handle, the context, `rows.Close` and concurrency between invocations are not modelled. A single writer is assumed.
- Queries.IssuesStatementText: only the issues statement without wisps is proved equal, character for character, to the exporter's text. The other statements are stated structurally (`EventsQuery`, `WispsOnlyAddShadowBranch`, `ConfigNeverShadowed`) over the same projection, table and ordering-key strings, and their full rendered text is not proved equal to the source's literals.
- Duplicate events are a hazard the model describes but does not prevent. When the events file was appended but a later step failed, the state file keeps the old watermark. The next run appends the same events again. `RunBackupExport`'s contract states it: after a failure in a later export, in the second commit read or in the save, it promises an unchanged state file and an events file that holds the appended lines, so the stored watermark lags behind the file.
