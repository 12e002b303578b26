/** exportTable and exportEventsIncremental: run a query, collect its rows,
    and place the buffer in the backup directory. */
module Exporters {
  import opened Common
  import opened Files
  import opened AtomicWrite
  import opened Queries
  import opened Jsonl
  import opened StateStore

  /** The output file of an entity in the backup directory. */
  function OutputPath(dir: string, e: Entity): Path
  {
    Path(dir, FileName(e))
  }

  /** The content of p, or nothing when p does not exist. */
  function Existing(files: map<Path, seq<byte>>, p: Path): seq<byte>
  {
    if p in files then files[p] else []
  }

  /** exportTable: a failing query, scan, marshal or iteration returns before
      anything is written; otherwise the buffer goes through atomicWriteFile
      and the count is returned together with the writer's result. */
  method ExportTable(fs: FileSystem, store: Store, dir: string, filename: string, query: Query, c: RowCodec)
    returns (n: int, err: Option<Error>)
    modifies fs
    ensures var b := TableBatch(store.answer(query), c);
            && (b.Err? ==> n == 0 && err == Some(b.error) && fs.files == old(fs.files))
            && (b.Ok? ==> n == b.value.count)
            && (b.Ok? && err.None? ==> fs.files == old(fs.files)[Path(dir, filename) := b.value.lines])
            && (b.Ok? && err.Some? ==> fs.files == old(fs.files) && IsWriteError(err.value))
  {
    var res := store.answer(query);
    match res {
      case QueryError =>
        return 0, Some(QueryFailed);
      case ColumnsError =>
        return 0, Some(ColumnsFailed);
      case Rows(cols, scans, iterationError) =>
        var batch := CollectTable(cols, scans, iterationError, c);
        if batch.Err? {
          return 0, Some(batch.error);
        }
        err := AtomicWriteFile(fs, Path(dir, filename), batch.value.lines);
        n := batch.value.count;
    }
  }

  /** The errors the append branch can return, one per failing step. */
  predicate IsAppendError(e: Error)
  {
    e.OpenEventsFailed? || e.AppendEventsFailed? || e.CloseEventsFailed?
  }

  /** The append branch of exportEventsIncremental: open with O_APPEND and
      O_CREATE, write, close. It is not atomic: a failed write may leave part
      of the new lines behind, but what was there before stays a prefix. */
  method AppendFile(fs: FileSystem, path: Path, data: seq<byte>) returns (err: Option<Error>)
    modifies fs
    ensures err.None? ==> fs.files == old(fs.files)[path := Existing(old(fs.files), path) + data]
    ensures err == Some(OpenEventsFailed) ==> fs.files == old(fs.files)
    ensures err.Some? ==> IsAppendError(err.value)
    ensures fs.files - {path} == old(fs.files) - {path}
    ensures Existing(old(fs.files), path) <= Existing(fs.files, path) <= Existing(old(fs.files), path) + data
  {
    ghost var before := Existing(fs.files, path);
    var isOpen := fs.OpenAppend(path);
    if !isOpen {
      return Some(OpenEventsFailed);
    }
    assert fs.files[path] == before;
    var wrote, written := fs.Write(path, data);
    assert before <= fs.files[path] <= before + data by {
      assert data[..written] <= data;
    }
    if !wrote {
      var _ := fs.Close(path);
      return Some(AppendEventsFailed);
    }
    assert data[..written] == data;
    var closed := fs.Close(path);
    if !closed {
      return Some(CloseEventsFailed);
    }
    return None;
  }

  /** The placement rule of exportEventsIncremental: the first export (a
      watermark of 0) replaces the file atomically, later ones append. */
  method PlaceEvents(fs: FileSystem, path: Path, lines: seq<byte>, firstExport: bool) returns (err: Option<Error>)
    modifies fs
    ensures err.None? ==> fs.files == old(fs.files)[path := (if firstExport then [] else Existing(old(fs.files), path)) + lines]
    ensures err.Some? && firstExport ==> fs.files == old(fs.files) && IsWriteError(err.value)
    ensures err.Some? && !firstExport ==> IsAppendError(err.value)
    ensures err.Some? && !firstExport ==>
              fs.files - {path} == old(fs.files) - {path} &&
              Existing(old(fs.files), path) <= Existing(fs.files, path) <= Existing(old(fs.files), path) + lines
  {
    if firstExport {
      err := AtomicWriteFile(fs, path, lines);
      assert [] + lines == lines;
    } else {
      err := AppendFile(fs, path, lines);
    }
  }

  /** exportEventsIncremental: collects the events above the watermark; none
      is a no-op; with watermark 0 the file is replaced atomically, otherwise
      the new lines are appended; the watermark moves to maxID only after the
      write succeeded. Nothing else in the state changes. */
  method ExportEventsIncremental(fs: FileSystem, store: Store, dir: string, state: BackupState, hasWisps: bool, c: RowCodec)
    returns (n: int, err: Option<Error>)
    modifies fs, state
    ensures state.Record() == old(state.Record()).(lastEventID := state.lastEventID)
    ensures var b := EventsBatch(store.answer(EventsQuery(hasWisps, old(state.lastEventID))), c);
            var p := OutputPath(dir, Events);
            && (b.Err? ==> n == 0 && err == Some(b.error))
            && (b.Ok? && b.value.count == 0 ==> n == 0 && err.None?)
            && (b.Err? || b.value.count == 0 ==> fs.files == old(fs.files) && state.lastEventID == old(state.lastEventID))
            && (b.Ok? && b.value.count > 0 && err.None? ==>
                  n == b.value.count && state.lastEventID == b.value.maxId &&
                  fs.files == old(fs.files)[p := (if old(state.lastEventID) == 0 then [] else Existing(old(fs.files), p)) + b.value.lines])
            && (b.Ok? && b.value.count > 0 && err.Some? ==>
                  n == 0 && state.lastEventID == old(state.lastEventID) &&
                  (old(state.lastEventID) == 0 ==> fs.files == old(fs.files) && IsWriteError(err.value)) &&
                  (old(state.lastEventID) != 0 ==> IsAppendError(err.value)) &&
                  (old(state.lastEventID) != 0 ==>
                     fs.files - {p} == old(fs.files) - {p} &&
                     Existing(old(fs.files), p) <= Existing(fs.files, p) <= Existing(old(fs.files), p) + b.value.lines))
    ensures var res := store.answer(EventsQuery(hasWisps, old(state.lastEventID)));
            err.None? && n > 0 && old(state.lastEventID) >= 0 &&
            IdsAbove(res.columns, res.scans, c.rfc3339, old(state.lastEventID)) ==>
              (state.lastEventID > old(state.lastEventID) <==>
                 exists i :: 0 <= i < |res.scans| && ScannedId(res.columns, res.scans[i], c.rfc3339).Some?)
  {
    var query := EventsQuery(hasWisps, state.lastEventID);
    var res := store.answer(query);
    ghost var b := EventsBatch(res, c);
    if res.QueryError? {
      return 0, Some(QueryFailed);
    }
    if res.ColumnsError? {
      return 0, Some(ColumnsFailed);
    }
    var batch := CollectEvents(res.columns, res.scans, res.iterationError, c);
    assert batch == b;
    if batch.Err? {
      return 0, Some(batch.error);
    }
    var lines := batch.value.lines;
    if batch.value.count == 0 {
      return 0, None;
    }

    err := PlaceEvents(fs, OutputPath(dir, Events), lines, state.lastEventID == 0);
    if err.Some? {
      return 0, err;
    }

    state.lastEventID := batch.value.maxId;
    if 0 <= old(state.lastEventID) && IdsAbove(res.columns, res.scans, c.rfc3339, old(state.lastEventID)) {
      HighWaterAdvances(res.columns, res.scans, c.rfc3339, old(state.lastEventID));
    }
    return batch.value.count, None;
  }
}
