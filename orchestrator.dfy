/** runBackupExport: load the state, skip when the store has not moved since
    the last backup, export the six entities in a fixed order, record the new
    commit, and save the state last. */
module Orchestrator {
  import opened Common
  import opened Values
  import opened Files
  import opened Queries
  import opened Jsonl
  import opened StateStore
  import opened Exporters
  import opened AtomicWrite

  /** The snapshot an entity's export writes, given the wisps switch. */
  function Snapshot(store: Store, e: Entity, hasWisps: bool, c: RowCodec): Result<Batch, Error>
    requires e != Events
  {
    TableBatch(store.answer(SnapshotQuery(e, hasWisps)), c)
  }

  /** The new events the incremental export collects above a watermark. */
  function NewEvents(store: Store, hasWisps: bool, watermark: int64, c: RowCodec): Result<EventBatch, Error>
  {
    EventsBatch(store.answer(EventsQuery(hasWisps, watermark)), c)
  }

  /** The six output files of a backup directory. */
  function OutputPaths(dir: string): set<Path>
  {
    {OutputPath(dir, Issues), OutputPath(dir, Events), OutputPath(dir, Comments),
     OutputPath(dir, Dependencies), OutputPath(dir, Labels), OutputPath(dir, Config)}
  }

  /** Every output file after entity e in the export order is as it was. */
  ghost predicate UntouchedAfter(before: map<Path, seq<byte>>, after: map<Path, seq<byte>>, dir: string, e: Entity)
  {
    forall later: Entity :: Position(later) > Position(e) ==> SameAt(before, after, OutputPath(dir, later))
  }

  /** The output files of e and of every entity before it. */
  function WrittenUpTo(dir: string, e: Entity): set<Path>
  {
    match e
    case Issues => {OutputPath(dir, Issues)}
    case Events => {OutputPath(dir, Issues), OutputPath(dir, Events)}
    case Comments => {OutputPath(dir, Issues), OutputPath(dir, Events), OutputPath(dir, Comments)}
    case Dependencies =>
      {OutputPath(dir, Issues), OutputPath(dir, Events), OutputPath(dir, Comments), OutputPath(dir, Dependencies)}
    case Labels =>
      {OutputPath(dir, Issues), OutputPath(dir, Events), OutputPath(dir, Comments), OutputPath(dir, Dependencies),
       OutputPath(dir, Labels)}
    case Config => OutputPaths(dir)
  }

  /** A run stopped at entity e has touched nothing after e. */
  lemma UntouchedAfterStop(before: map<Path, seq<byte>>, after: map<Path, seq<byte>>, dir: string, e: Entity)
    requires OnlyChanged(before, after, WrittenUpTo(dir, e))
    ensures UntouchedAfter(before, after, dir, e)
  {
    forall later: Entity | Position(later) > Position(e)
      ensures SameAt(before, after, OutputPath(dir, later))
    {
      assert OutputPath(dir, later) !in WrittenUpTo(dir, e);
    }
  }

  /** Writing the file of the entity after prev extends what was written up to
      prev to what is written up to that entity. */
  lemma WrittenNext(f0: map<Path, seq<byte>>, f1: map<Path, seq<byte>>, f2: map<Path, seq<byte>>, dir: string, prev: Entity, e: Entity)
    requires Position(e) == Position(prev) + 1
    requires OnlyChanged(f0, f1, WrittenUpTo(dir, prev)) && OnlyChanged(f1, f2, {OutputPath(dir, e)})
    ensures OnlyChanged(f0, f2, WrittenUpTo(dir, e))
  {
    OnlyChangedTrans(f0, f1, f2, WrittenUpTo(dir, prev), {OutputPath(dir, e)});
    assert WrittenUpTo(dir, prev) + {OutputPath(dir, e)} == WrittenUpTo(dir, e);
  }

  /** What is written up to an entity includes what is written up to any
      entity before it. */
  lemma WrittenUpToGrows(dir: string, e: Entity, later: Entity)
    requires Position(e) <= Position(later)
    ensures WrittenUpTo(dir, e) <= WrittenUpTo(dir, later)
  {
  }

  /** The output files of the exports from comments up to e. */
  function RestUpTo(dir: string, e: Entity): set<Path>
  {
    match e
    case Issues => {}
    case Events => {}
    case Comments => {OutputPath(dir, Comments)}
    case Dependencies => {OutputPath(dir, Comments), OutputPath(dir, Dependencies)}
    case Labels => {OutputPath(dir, Comments), OutputPath(dir, Dependencies), OutputPath(dir, Labels)}
    case Config => {OutputPath(dir, Comments), OutputPath(dir, Dependencies), OutputPath(dir, Labels), OutputPath(dir, Config)}
  }

  /** Before the export of e (after prev) among the last four, e's file and
      the first two files are as they were, and what may have changed lies
      within what is written up to e. */
  lemma RestBefore(f0: map<Path, seq<byte>>, f1: map<Path, seq<byte>>, dir: string, prev: Entity, e: Entity)
    requires Position(e) == Position(prev) + 1 && Position(e) > Position(Events)
    requires OnlyChanged(f0, f1, RestUpTo(dir, prev))
    ensures SameAt(f0, f1, OutputPath(dir, e))
    ensures OnlyChanged(f0, f1, RestUpTo(dir, e))
  {
    assert OutputPath(dir, e) !in RestUpTo(dir, prev);
    assert RestUpTo(dir, prev) <= RestUpTo(dir, e);
  }

  /** Writing the file of e after prev extends the files written since
      comments by e's file. */
  lemma RestNext(f0: map<Path, seq<byte>>, f1: map<Path, seq<byte>>, f2: map<Path, seq<byte>>, dir: string, prev: Entity, e: Entity)
    requires Position(e) == Position(prev) + 1 && Position(e) > Position(Events)
    requires OnlyChanged(f0, f1, RestUpTo(dir, prev)) && OnlyChanged(f1, f2, {OutputPath(dir, e)})
    ensures OnlyChanged(f0, f2, RestUpTo(dir, e))
  {
    OnlyChangedTrans(f0, f1, f2, RestUpTo(dir, prev), {OutputPath(dir, e)});
    assert RestUpTo(dir, prev) + {OutputPath(dir, e)} == RestUpTo(dir, e);
  }

  /** A successful export of e after prev among the last four extends both
      the exported entities and the files written since comments by e. */
  lemma RestStep(f0: map<Path, seq<byte>>, f1: map<Path, seq<byte>>, f2: map<Path, seq<byte>>, store: Store, dir: string,
                 prev: Entity, e: Entity, next: Entity, hasWisps: bool, watermark: int64, c: RowCodec)
    requires Position(e) == Position(prev) + 1 && Position(next) == Position(e) + 1 && Position(e) > Position(Events)
    requires OnlyChanged(f0, f1, RestUpTo(dir, prev))
    requires ExportedBetween(f0, f1, store, dir, Comments, e, hasWisps, watermark, c)
    requires OnlyChanged(f1, f2, {OutputPath(dir, e)}) && Exported(f1, f2, store, dir, e, hasWisps, watermark, c)
    ensures OnlyChanged(f0, f2, RestUpTo(dir, e))
    ensures ExportedBetween(f0, f2, store, dir, Comments, next, hasWisps, watermark, c)
  {
    RestBefore(f0, f1, dir, prev, e);
    ExportedNext(f0, f1, f2, store, dir, Comments, e, next, hasWisps, watermark, c);
    RestNext(f0, f1, f2, dir, prev, e);
  }

  /** The files written since comments are neither of the first two files and
      lie within what is written up to e. */
  lemma RestWithin(f0: map<Path, seq<byte>>, f1: map<Path, seq<byte>>, dir: string, e: Entity)
    requires OnlyChanged(f0, f1, RestUpTo(dir, e))
    ensures SameAt(f0, f1, OutputPath(dir, Issues)) && SameAt(f0, f1, OutputPath(dir, Events))
    ensures OnlyChanged(f0, f1, WrittenUpTo(dir, e))
  {
    assert OutputPath(dir, Issues) !in RestUpTo(dir, e) && OutputPath(dir, Events) !in RestUpTo(dir, e);
    OnlyChangedWithin(f0, f1, RestUpTo(dir, e), WrittenUpTo(dir, e));
  }

  /** A map update at p changes nothing but p. */
  lemma UpdateOnlyChanges(f: map<Path, seq<byte>>, p: Path, v: seq<byte>)
    ensures OnlyChanged(f, f[p := v], {p})
  {
  }

  /** The events file after a successful incremental export. */
  function WithEvents(files: map<Path, seq<byte>>, p: Path, watermark: int64, ev: EventBatch): map<Path, seq<byte>>
  {
    if ev.count == 0 then files
    else files[p := (if watermark == 0 then [] else Existing(files, p)) + ev.lines]
  }

  /** Do all snapshot and events queries succeed? */
  predicate AllExportsSucceed(store: Store, hasWisps: bool, watermark: int64, c: RowCodec)
  {
    && Snapshot(store, Issues, hasWisps, c).Ok?
    && NewEvents(store, hasWisps, watermark, c).Ok?
    && Snapshot(store, Comments, hasWisps, c).Ok?
    && Snapshot(store, Dependencies, hasWisps, c).Ok?
    && Snapshot(store, Labels, hasWisps, c).Ok?
    && Snapshot(store, Config, hasWisps, c).Ok?
  }

  /** The watermark after a run whose exports all succeed: maxID of the new
      events, or the old watermark when there are none. */
  function ExportedWatermark(store: Store, hasWisps: bool, watermark: int64, c: RowCodec): int64
    requires AllExportsSucceed(store, hasWisps, watermark, c)
  {
    var ev := NewEvents(store, hasWisps, watermark, c).value;
    if ev.count == 0 then watermark else ev.maxId
  }

  /** The counts after a run whose exports all succeed: each snapshot count is
      its row count, the events count grows by the new events. */
  function ExportedCounts(counts: Counts, store: Store, hasWisps: bool, watermark: int64, c: RowCodec): Counts
    requires AllExportsSucceed(store, hasWisps, watermark, c)
  {
    Counts(
      Snapshot(store, Issues, hasWisps, c).value.count,
      counts.events + NewEvents(store, hasWisps, watermark, c).value.count,
      Snapshot(store, Comments, hasWisps, c).value.count,
      Snapshot(store, Dependencies, hasWisps, c).value.count,
      Snapshot(store, Labels, hasWisps, c).value.count,
      Snapshot(store, Config, hasWisps, c).value.count)
  }

  /** The files after a run whose exports all succeed: every snapshot file is
      replaced by its rows, and the events file is extended or replaced. */
  function ExportedFiles(files: map<Path, seq<byte>>, store: Store, dir: string, hasWisps: bool, watermark: int64, c: RowCodec)
    : map<Path, seq<byte>>
    requires AllExportsSucceed(store, hasWisps, watermark, c)
  {
    WithEvents(files[OutputPath(dir, Issues) := Snapshot(store, Issues, hasWisps, c).value.lines],
               OutputPath(dir, Events), watermark, NewEvents(store, hasWisps, watermark, c).value)
      [OutputPath(dir, Comments) := Snapshot(store, Comments, hasWisps, c).value.lines]
      [OutputPath(dir, Dependencies) := Snapshot(store, Dependencies, hasWisps, c).value.lines]
      [OutputPath(dir, Labels) := Snapshot(store, Labels, hasWisps, c).value.lines]
      [OutputPath(dir, Config) := Snapshot(store, Config, hasWisps, c).value.lines]
  }

  /** Overwrite the count of a snapshot entity. */
  function WithCount(counts: Counts, e: Entity, n: int): Counts
    requires e != Events
  {
    match e
    case Issues => counts.(issues := n)
    case Events => counts
    case Comments => counts.(comments := n)
    case Dependencies => counts.(dependencies := n)
    case Labels => counts.(labels := n)
    case Config => counts.(config := n)
  }

  /** Entity e was exported: its rows were collected and its output file
      holds what a successful export writes over the files before. */
  ghost predicate Exported(before: map<Path, seq<byte>>, after: map<Path, seq<byte>>, store: Store, dir: string,
                           e: Entity, hasWisps: bool, watermark: int64, c: RowCodec)
  {
    var p := OutputPath(dir, e);
    if e == Events then
      && NewEvents(store, hasWisps, watermark, c).Ok?
      && SameAt(WithEvents(before, p, watermark, NewEvents(store, hasWisps, watermark, c).value), after, p)
    else
      && Snapshot(store, e, hasWisps, c).Ok?
      && p in after && after[p] == Snapshot(store, e, hasWisps, c).value.lines
  }

  /** Every entity from first up to, not including, stop was exported. */
  ghost predicate ExportedBetween(before: map<Path, seq<byte>>, after: map<Path, seq<byte>>, store: Store, dir: string,
                                  first: Entity, stop: Entity, hasWisps: bool, watermark: int64, c: RowCodec)
  {
    forall e: Entity :: Position(first) <= Position(e) < Position(stop) ==>
      Exported(before, after, store, dir, e, hasWisps, watermark, c)
  }

  /** How the export of e fails with cause: its rows cannot be collected and
      cause is that error, or they can and writing them fails (the events
      export writes only when there are new events; it replaces the file on
      the first export and appends otherwise). */
  predicate FailsWith(store: Store, e: Entity, hasWisps: bool, watermark: int64, c: RowCodec, cause: Error)
  {
    if e == Events then
      var b := NewEvents(store, hasWisps, watermark, c);
      || (b.Err? && cause == b.error)
      || (b.Ok? && b.value.count > 0 && (if watermark == 0 then IsWriteError(cause) else IsAppendError(cause)))
    else
      var b := Snapshot(store, e, hasWisps, c);
      || (b.Err? && cause == b.error)
      || (b.Ok? && IsWriteError(cause))
  }

  /** The output file of e after its export failed: as it was, except that a
      failed append keeps the old content as a prefix and adds at most the
      new lines. */
  ghost predicate KeptOnFailure(before: map<Path, seq<byte>>, after: map<Path, seq<byte>>, store: Store, dir: string,
                                e: Entity, hasWisps: bool, watermark: int64, c: RowCodec)
  {
    var p := OutputPath(dir, e);
    if e == Events && watermark != 0 && NewEvents(store, hasWisps, watermark, c).Ok? then
      Existing(before, p) <= Existing(after, p) <= Existing(before, p) + NewEvents(store, hasWisps, watermark, c).value.lines
    else
      SameAt(before, after, p)
  }

  /** The exports stopped with "backup <e>: cause": every entity before e was
      exported, e's own export failed with cause and kept its file, and no
      file after e changed. */
  ghost predicate StoppedAt(before: map<Path, seq<byte>>, after: map<Path, seq<byte>>, store: Store, dir: string,
                            e: Entity, cause: Error, hasWisps: bool, watermark: int64, c: RowCodec)
  {
    && ExportedBetween(before, after, store, dir, Issues, e, hasWisps, watermark, c)
    && FailsWith(store, e, hasWisps, watermark, c, cause)
    && KeptOnFailure(before, after, store, dir, e, hasWisps, watermark, c)
    && OnlyChanged(before, after, WrittenUpTo(dir, e))
  }

  /** Whether e was exported depends on the two file maps only at e's file. */
  lemma ExportedFramed(b0: map<Path, seq<byte>>, a0: map<Path, seq<byte>>, b1: map<Path, seq<byte>>, a1: map<Path, seq<byte>>,
                       store: Store, dir: string, e: Entity, hasWisps: bool, watermark: int64, c: RowCodec)
    requires Exported(b0, a0, store, dir, e, hasWisps, watermark, c)
    requires SameAt(b0, b1, OutputPath(dir, e)) && SameAt(a0, a1, OutputPath(dir, e))
    ensures Exported(b1, a1, store, dir, e, hasWisps, watermark, c)
  {
  }

  /** A step that writes only the file of e, untouched until then, and
      exports e extends the run of exported entities by e. */
  lemma ExportedNext(f0: map<Path, seq<byte>>, f1: map<Path, seq<byte>>, f2: map<Path, seq<byte>>, store: Store, dir: string,
                     first: Entity, e: Entity, next: Entity, hasWisps: bool, watermark: int64, c: RowCodec)
    requires Position(first) <= Position(e) && Position(next) == Position(e) + 1
    requires ExportedBetween(f0, f1, store, dir, first, e, hasWisps, watermark, c)
    requires SameAt(f0, f1, OutputPath(dir, e)) && OnlyChanged(f1, f2, {OutputPath(dir, e)})
    requires Exported(f1, f2, store, dir, e, hasWisps, watermark, c)
    ensures ExportedBetween(f0, f2, store, dir, first, next, hasWisps, watermark, c)
  {
    forall x: Entity | Position(first) <= Position(x) < Position(next)
      ensures Exported(f0, f2, store, dir, x, hasWisps, watermark, c)
    {
      if x == e {
        ExportedFramed(f1, f2, f0, f2, store, dir, e, hasWisps, watermark, c);
      } else {
        assert OutputPath(dir, x) !in {OutputPath(dir, e)};
        ExportedFramed(f0, f1, f0, f2, store, dir, x, hasWisps, watermark, c);
      }
    }
  }

  /** A failed step at e that writes only e's file keeps every entity
      exported before it, and e's file is kept as seen from the start. */
  lemma StoppedNext(f0: map<Path, seq<byte>>, f1: map<Path, seq<byte>>, f2: map<Path, seq<byte>>, store: Store, dir: string,
                    first: Entity, e: Entity, hasWisps: bool, watermark: int64, c: RowCodec)
    requires Position(first) <= Position(e)
    requires ExportedBetween(f0, f1, store, dir, first, e, hasWisps, watermark, c)
    requires SameAt(f0, f1, OutputPath(dir, e)) && OnlyChanged(f1, f2, {OutputPath(dir, e)})
    requires KeptOnFailure(f1, f2, store, dir, e, hasWisps, watermark, c)
    ensures ExportedBetween(f0, f2, store, dir, first, e, hasWisps, watermark, c)
    ensures KeptOnFailure(f0, f2, store, dir, e, hasWisps, watermark, c)
  {
    forall x: Entity | Position(first) <= Position(x) < Position(e)
      ensures Exported(f0, f2, store, dir, x, hasWisps, watermark, c)
    {
      assert OutputPath(dir, x) !in {OutputPath(dir, e)};
      ExportedFramed(f0, f1, f0, f2, store, dir, x, hasWisps, watermark, c);
    }
    assert Existing(f0, OutputPath(dir, e)) == Existing(f1, OutputPath(dir, e));
  }

  /** The first two exports followed by exports from comments up to e are
      the exports up to e; the watermark the later steps saw does not matter
      to entities other than events. */
  lemma ExportedJoin(f0: map<Path, seq<byte>>, f1: map<Path, seq<byte>>, f2: map<Path, seq<byte>>, store: Store, dir: string,
                     e: Entity, hasWisps: bool, w0: int64, w1: int64, c: RowCodec)
    requires ExportedBetween(f0, f1, store, dir, Issues, Comments, hasWisps, w0, c)
    requires OnlyChanged(f0, f1, WrittenUpTo(dir, Events))
    requires SameAt(f1, f2, OutputPath(dir, Issues)) && SameAt(f1, f2, OutputPath(dir, Events))
    requires ExportedBetween(f1, f2, store, dir, Comments, e, hasWisps, w1, c)
    ensures ExportedBetween(f0, f2, store, dir, Issues, e, hasWisps, w0, c)
  {
    forall x: Entity | Position(Issues) <= Position(x) < Position(e)
      ensures Exported(f0, f2, store, dir, x, hasWisps, w0, c)
    {
      if Position(x) < Position(Comments) {
        ExportedFramed(f0, f1, f0, f2, store, dir, x, hasWisps, w0, c);
      } else {
        assert OutputPath(dir, x) !in WrittenUpTo(dir, Events);
        ExportedFramed(f1, f2, f0, f2, store, dir, x, hasWisps, w1, c);
        assert x != Events;
      }
    }
  }

  /** The first two exports followed by the last four change only output files. */
  lemma HeadThenRest(f0: map<Path, seq<byte>>, f1: map<Path, seq<byte>>, f2: map<Path, seq<byte>>, dir: string)
    requires OnlyChanged(f0, f1, WrittenUpTo(dir, Events)) && OnlyChanged(f1, f2, RestUpTo(dir, Config))
    ensures OnlyChanged(f0, f2, WrittenUpTo(dir, Config))
  {
    RestWithin(f1, f2, dir, Config);
    OnlyChangedTrans(f0, f1, f2, WrittenUpTo(dir, Events), WrittenUpTo(dir, Config));
    WrittenUpToGrows(dir, Events, Config);
    assert WrittenUpTo(dir, Events) + WrittenUpTo(dir, Config) == WrittenUpTo(dir, Config);
  }

  /** A failure among the last four exports, seen from the start of the run. */
  lemma StoppedAfterHead(f0: map<Path, seq<byte>>, f1: map<Path, seq<byte>>, f2: map<Path, seq<byte>>, store: Store, dir: string,
                         e: Entity, cause: Error, hasWisps: bool, w0: int64, w1: int64, c: RowCodec)
    requires Position(e) > Position(Events)
    requires ExportedBetween(f0, f1, store, dir, Issues, Comments, hasWisps, w0, c)
    requires OnlyChanged(f0, f1, WrittenUpTo(dir, Events))
    requires ExportedBetween(f1, f2, store, dir, Comments, e, hasWisps, w1, c)
    requires FailsWith(store, e, hasWisps, w1, c, cause) && SameAt(f1, f2, OutputPath(dir, e))
    requires OnlyChanged(f1, f2, RestUpTo(dir, e))
    ensures StoppedAt(f0, f2, store, dir, e, cause, hasWisps, w0, c)
  {
    RestWithin(f1, f2, dir, e);
    ExportedJoin(f0, f1, f2, store, dir, e, hasWisps, w0, w1, c);
    assert OutputPath(dir, e) !in WrittenUpTo(dir, Events);
    assert e != Events;
    OnlyChangedTrans(f0, f1, f2, WrittenUpTo(dir, Events), WrittenUpTo(dir, e));
    WrittenUpToGrows(dir, Events, e);
    assert WrittenUpTo(dir, Events) + WrittenUpTo(dir, e) == WrittenUpTo(dir, e);
  }

  /** One snapshot step of runBackupExport: exportTable on the entity's query,
      "backup <entity>: " on failure, the count overwritten on success. */
  method ExportSnapshotStep(fs: FileSystem, store: Store, dir: string, state: BackupState, e: Entity, hasWisps: bool, c: RowCodec)
    returns (err: Option<Error>)
    requires e != Events
    modifies fs, state
    ensures OnlyChanged(old(fs.files), fs.files, {OutputPath(dir, e)})
    ensures err.Some? ==>
              && err.value.Backup? && err.value.entity == e
              && FailsWith(store, e, hasWisps, old(state.lastEventID), c, err.value.cause)
              && fs.files == old(fs.files) && state.Record() == old(state.Record())
    ensures err.None? ==>
              Snapshot(store, e, hasWisps, c).Ok? &&
              fs.files == old(fs.files)[OutputPath(dir, e) := Snapshot(store, e, hasWisps, c).value.lines] &&
              state.Record() == old(state.Record()).(counts := WithCount(old(state.counts), e, Snapshot(store, e, hasWisps, c).value.count)) &&
              Exported(old(fs.files), fs.files, store, dir, e, hasWisps, old(state.lastEventID), c)
  {
    var n, failure := ExportTable(fs, store, dir, FileName(e), SnapshotQuery(e, hasWisps), c);
    if failure.Some? {
      return Some(Backup(e, failure.value));
    }
    UpdateOnlyChanges(old(fs.files), OutputPath(dir, e), Snapshot(store, e, hasWisps, c).value.lines);
    state.counts := WithCount(state.counts, e, n);
    return None;
  }

  /** The events step of runBackupExport: the incremental export, then the
      events count grows by the number of new events. */
  method ExportEventsStep(fs: FileSystem, store: Store, dir: string, state: BackupState, hasWisps: bool, c: RowCodec)
    returns (err: Option<Error>)
    modifies fs, state
    ensures OnlyChanged(old(fs.files), fs.files, {OutputPath(dir, Events)})
    ensures err.Some? ==>
              && err.value.Backup? && err.value.entity == Events
              && FailsWith(store, Events, hasWisps, old(state.lastEventID), c, err.value.cause)
              && KeptOnFailure(old(fs.files), fs.files, store, dir, Events, hasWisps, old(state.lastEventID), c)
              && state.Record() == old(state.Record())
    ensures err.None? ==>
              NewEvents(store, hasWisps, old(state.lastEventID), c).Ok? &&
              var ev := NewEvents(store, hasWisps, old(state.lastEventID), c).value;
              fs.files == WithEvents(old(fs.files), OutputPath(dir, Events), old(state.lastEventID), ev) &&
              state.Record() == old(state.Record()).(
                lastEventID := if ev.count == 0 then old(state.lastEventID) else ev.maxId,
                counts := old(state.counts).(events := old(state.counts).events + ev.count))
  {
    ghost var before := fs.files;
    ghost var b := NewEvents(store, hasWisps, state.lastEventID, c);
    var n, failure := ExportEventsIncremental(fs, store, dir, state, hasWisps, c);
    if failure.Some? {
      assert before - {OutputPath(dir, Events)} == fs.files - {OutputPath(dir, Events)};
      OnlyChangedAt(before, fs.files, OutputPath(dir, Events));
      return Some(Backup(Events, failure.value));
    }
    assert b.Ok?;
    if b.value.count == 0 {
      assert n == 0 && fs.files == before && state.lastEventID == old(state.lastEventID);
    } else {
      assert n == b.value.count && state.lastEventID == b.value.maxId;
      assert fs.files == WithEvents(before, OutputPath(dir, Events), old(state.lastEventID), b.value);
      UpdateOnlyChanges(before, OutputPath(dir, Events), (if old(state.lastEventID) == 0 then [] else Existing(before, OutputPath(dir, Events))) + b.value.lines);
    }
    state.counts := state.counts.(events := state.counts.events + n);
    return None;
  }

  /** The four snapshot exports that follow the events in runBackupExport:
      comments, dependencies, labels, config. */
  method ExportRest(fs: FileSystem, store: Store, dir: string, state: BackupState, hasWisps: bool, c: RowCodec)
    returns (err: Option<Error>)
    modifies fs, state
    ensures state.lastDoltCommit == old(state.lastDoltCommit) && state.timestamp == old(state.timestamp)
    ensures state.lastEventID == old(state.lastEventID)
    ensures state.counts.issues == old(state.counts.issues) && state.counts.events == old(state.counts.events)
    ensures err.Some? ==>
              && err.value.Backup? && Position(err.value.entity) > Position(Events)
              && ExportedBetween(old(fs.files), fs.files, store, dir, Comments, err.value.entity, hasWisps, old(state.lastEventID), c)
              && FailsWith(store, err.value.entity, hasWisps, old(state.lastEventID), c, err.value.cause)
              && SameAt(old(fs.files), fs.files, OutputPath(dir, err.value.entity))
    ensures OnlyChanged(old(fs.files), fs.files, RestUpTo(dir, if err.Some? then err.value.entity else Config))
    ensures err.None? ==>
              && Snapshot(store, Comments, hasWisps, c).Ok?
              && Snapshot(store, Dependencies, hasWisps, c).Ok?
              && Snapshot(store, Labels, hasWisps, c).Ok?
              && Snapshot(store, Config, hasWisps, c).Ok?
              && state.counts == old(state.counts).(
                   comments := Snapshot(store, Comments, hasWisps, c).value.count,
                   dependencies := Snapshot(store, Dependencies, hasWisps, c).value.count,
                   labels := Snapshot(store, Labels, hasWisps, c).value.count,
                   config := Snapshot(store, Config, hasWisps, c).value.count)
              && fs.files == old(fs.files)
                   [OutputPath(dir, Comments) := Snapshot(store, Comments, hasWisps, c).value.lines]
                   [OutputPath(dir, Dependencies) := Snapshot(store, Dependencies, hasWisps, c).value.lines]
                   [OutputPath(dir, Labels) := Snapshot(store, Labels, hasWisps, c).value.lines]
                   [OutputPath(dir, Config) := Snapshot(store, Config, hasWisps, c).value.lines]
  {
    ghost var w := state.lastEventID;
    ghost var f0 := fs.files;
    RestBefore(f0, f0, dir, Events, Comments);
    err := ExportSnapshotStep(fs, store, dir, state, Comments, hasWisps, c);
    if err.Some? {
      return;
    }
    ghost var f1 := fs.files;
    RestStep(f0, f0, f1, store, dir, Events, Comments, Dependencies, hasWisps, w, c);

    RestBefore(f0, f1, dir, Comments, Dependencies);
    err := ExportSnapshotStep(fs, store, dir, state, Dependencies, hasWisps, c);
    if err.Some? {
      return;
    }
    ghost var f2 := fs.files;
    RestStep(f0, f1, f2, store, dir, Comments, Dependencies, Labels, hasWisps, w, c);

    RestBefore(f0, f2, dir, Dependencies, Labels);
    err := ExportSnapshotStep(fs, store, dir, state, Labels, hasWisps, c);
    if err.Some? {
      return;
    }
    ghost var f3 := fs.files;
    RestStep(f0, f2, f3, store, dir, Dependencies, Labels, Config, hasWisps, w, c);

    RestBefore(f0, f3, dir, Labels, Config);
    err := ExportSnapshotStep(fs, store, dir, state, Config, hasWisps, c);
    if err.Some? {
      return;
    }
    RestNext(f0, f3, fs.files, dir, Labels, Config);
  }

  /** The first two exports of runBackupExport: the issues snapshot, then the
      incremental events. */
  method ExportHead(fs: FileSystem, store: Store, dir: string, state: BackupState, hasWisps: bool, c: RowCodec)
    returns (err: Option<Error>)
    modifies fs, state
    ensures state.lastDoltCommit == old(state.lastDoltCommit) && state.timestamp == old(state.timestamp)
    ensures err.Some? ==>
              && err.value.Backup? && Position(err.value.entity) <= Position(Events)
              && StoppedAt(old(fs.files), fs.files, store, dir, err.value.entity, err.value.cause, hasWisps, old(state.lastEventID), c)
    ensures err.None? ==> OnlyChanged(old(fs.files), fs.files, WrittenUpTo(dir, Events))
    ensures err.None? ==> ExportedBetween(old(fs.files), fs.files, store, dir, Issues, Comments, hasWisps, old(state.lastEventID), c)
    ensures err.None? ==>
              && Snapshot(store, Issues, hasWisps, c).Ok?
              && NewEvents(store, hasWisps, old(state.lastEventID), c).Ok?
              && var ev := NewEvents(store, hasWisps, old(state.lastEventID), c).value;
              && state.lastEventID == (if ev.count == 0 then old(state.lastEventID) else ev.maxId)
              && state.counts == old(state.counts).(
                   issues := Snapshot(store, Issues, hasWisps, c).value.count,
                   events := old(state.counts).events + ev.count)
              && fs.files == WithEvents(old(fs.files)[OutputPath(dir, Issues) := Snapshot(store, Issues, hasWisps, c).value.lines],
                                        OutputPath(dir, Events), old(state.lastEventID), ev)
  {
    ghost var f0 := fs.files;
    ghost var counts0 := state.counts;
    ghost var watermark := state.lastEventID;
    err := ExportSnapshotStep(fs, store, dir, state, Issues, hasWisps, c);
    if err.Some? {
      return;
    }
    ghost var f1 := fs.files;
    ghost var counts1 := state.counts;
    assert counts1 == counts0.(issues := Snapshot(store, Issues, hasWisps, c).value.count);
    assert state.lastEventID == watermark;
    ExportedNext(f0, f0, f1, store, dir, Issues, Issues, Events, hasWisps, watermark, c);

    err := ExportEventsStep(fs, store, dir, state, hasWisps, c);
    WrittenNext(f0, f1, fs.files, dir, Issues, Events);
    if err.Some? {
      StoppedNext(f0, f1, fs.files, store, dir, Issues, Events, hasWisps, watermark, c);
      return;
    }
    ExportedNext(f0, f1, fs.files, store, dir, Issues, Events, Comments, hasWisps, watermark, c);
  }

  /** The six exports of runBackupExport, in order: issues, events, comments,
      dependencies, labels, config. Snapshot counts are overwritten and the
      events count accumulates; the first failure is wrapped with its entity
      and leaves every later entity's file untouched. */
  method ExportAll(fs: FileSystem, store: Store, dir: string, state: BackupState, hasWisps: bool, c: RowCodec)
    returns (err: Option<Error>)
    modifies fs, state
    ensures state.lastDoltCommit == old(state.lastDoltCommit) && state.timestamp == old(state.timestamp)
    ensures err.Some? ==>
              && err.value.Backup?
              && StoppedAt(old(fs.files), fs.files, store, dir, err.value.entity, err.value.cause, hasWisps, old(state.lastEventID), c)
    ensures OnlyChanged(old(fs.files), fs.files, WrittenUpTo(dir, if err.Some? then err.value.entity else Config))
    ensures err.None? ==> AllExportsSucceed(store, hasWisps, old(state.lastEventID), c)
    ensures err.None? ==>
              && state.lastEventID == ExportedWatermark(store, hasWisps, old(state.lastEventID), c)
              && state.counts == ExportedCounts(old(state.counts), store, hasWisps, old(state.lastEventID), c)
              && fs.files == ExportedFiles(old(fs.files), store, dir, hasWisps, old(state.lastEventID), c)
  {
    ghost var f0 := fs.files;
    ghost var w0 := state.lastEventID;
    err := ExportHead(fs, store, dir, state, hasWisps, c);
    if err.Some? {
      return;
    }
    ghost var f1 := fs.files;
    ghost var w1 := state.lastEventID;
    err := ExportRest(fs, store, dir, state, hasWisps, c);
    if err.Some? {
      StoppedAfterHead(f0, f1, fs.files, store, dir, err.value.entity, err.value.cause, hasWisps, w0, w1, c);
      return;
    }
    HeadThenRest(f0, f1, fs.files, dir);
  }

  /** The state a run starts from, when the backup directory resolves and the
      state file loads. */
  ghost function Prior(files: map<Path, seq<byte>>, backupDir: Option<string>, sc: StateCodec): Option<StateRecord>
  {
    if backupDir.None? then None else StoredState(files, backupDir.value, sc)
  }

  /** The change-detection short circuit: not forced, and the store's commit
      equals a non-empty recorded commit. */
  predicate Unchanged(force: bool, store: Store, prior: StateRecord)
  {
    !force && store.commitAtCheck == Some(prior.lastDoltCommit) && prior.lastDoltCommit != ""
  }

  /** The state file is none of the output files. */
  lemma StateFileApart(dir: string, e: Entity)
    ensures StatePath(dir) !in WrittenUpTo(dir, e)
  {
  }

  /** The errors of the end of a run: the second commit read, or saving the
      state (marshalling or the atomic write). */
  predicate IsSaveError(e: Error)
  {
    e.CommitForStateFailed? || e.MarshalStateFailed? || IsWriteError(e)
  }

  /** The errors a run reports before any export: the backup directory, the
      state file, or the change-detection commit read. */
  predicate IsSetupError(e: Error)
  {
    e.BackupDirFailed? || e.ReadStateFailed? || e.ParseStateFailed? || e.CommitFailed?
  }

  /** The three stages report disjoint errors. */
  lemma StagesApart(e: Error)
    ensures IsSetupError(e) ==> !e.Backup? && !IsSaveError(e)
    ensures e.Backup? ==> !IsSaveError(e)
  {
  }

  /** The end of runBackupExport: read the commit again, record it with the
      time, and save the state. */
  method StampAndSave(fs: FileSystem, store: Store, dir: string, state: BackupState, now: Time, sc: StateCodec)
    returns (err: Option<Error>)
    modifies fs, state
    ensures state.lastEventID == old(state.lastEventID) && state.counts == old(state.counts)
    ensures err.Some? ==> fs.files == old(fs.files) && IsSaveError(err.value)
    ensures store.commitAtEnd.None? <==> err == Some(CommitForStateFailed)
    ensures err == Some(MarshalStateFailed) <==>
              store.commitAtEnd.Some? && sc.marshalIndent(old(state.Record()).(lastDoltCommit := store.commitAtEnd.value, timestamp := now)).None?
    ensures err.None? ==>
              && store.commitAtEnd.Some?
              && state.Record() == old(state.Record()).(lastDoltCommit := store.commitAtEnd.value, timestamp := now)
              && sc.marshalIndent(state.Record()).Some?
              && fs.files == old(fs.files)[StatePath(dir) := sc.marshalIndent(state.Record()).value]
  {
    var currentCommit := store.commitAtEnd;
    if currentCommit.None? {
      return Some(CommitForStateFailed);
    }
    state.lastDoltCommit := currentCommit.value;
    state.timestamp := now;
    err := SaveBackupState(fs, dir, state, sc);
  }

  /** The record a run that started from prior saves at the end: the commit
      read after the exports, the new watermark, the given time and the new
      counts. */
  ghost function StampedRecord(commit: string, store: Store, hasWisps: bool, prior: StateRecord, now: Time, c: RowCodec): StateRecord
    requires AllExportsSucceed(store, hasWisps, prior.lastEventID, c)
  {
    StateRecord(
      commit,
      ExportedWatermark(store, hasWisps, prior.lastEventID, c),
      now,
      ExportedCounts(prior.counts, store, hasWisps, prior.lastEventID, c))
  }

  /** What a run that reached the exports and then failed with err leaves
      behind: an export failure is tied to the first failing export and
      touches nothing after it; a failure at the end (second commit read or
      save) comes after all six exports were written. */
  ghost predicate FailedAfterSetup(before: map<Path, seq<byte>>, after: map<Path, seq<byte>>, store: Store, dir: string,
                                   hasWisps: bool, prior: StateRecord, now: Time, c: RowCodec, sc: StateCodec, err: Error)
  {
    && (err.Backup? ==>
          && StoppedAt(before, after, store, dir, err.entity, err.cause, hasWisps, prior.lastEventID, c)
          && UntouchedAfter(before, after, dir, err.entity))
    && (IsSaveError(err) ==>
          && AllExportsSucceed(store, hasWisps, prior.lastEventID, c)
          && after == ExportedFiles(before, store, dir, hasWisps, prior.lastEventID, c)
          && (err.CommitForStateFailed? <==> store.commitAtEnd.None?)
          && (err.MarshalStateFailed? <==>
                store.commitAtEnd.Some? && sc.marshalIndent(StampedRecord(store.commitAtEnd.value, store, hasWisps, prior, now, c)).None?))
  }

  /** What a completed run leaves behind, starting from the record prior: all
      exports succeeded, the record rec carries the second commit read, the
      new watermark, the given time and the new counts, and the files are the
      exported files plus the marshalled record as the state file. */
  ghost predicate Completed(before: map<Path, seq<byte>>, after: map<Path, seq<byte>>, store: Store, dir: string,
                            hasWisps: bool, prior: StateRecord, now: Time, c: RowCodec, sc: StateCodec, rec: StateRecord)
  {
    && AllExportsSucceed(store, hasWisps, prior.lastEventID, c)
    && store.commitAtEnd.Some?
    && rec == StampedRecord(store.commitAtEnd.value, store, hasWisps, prior, now, c)
    && sc.marshalIndent(rec).Some?
    && after == ExportedFiles(before, store, dir, hasWisps, prior.lastEventID, c)[StatePath(dir) := sc.marshalIndent(rec).value]
  }

  /** The part of runBackupExport after change detection: export the six
      entities, read the commit again, stamp the time and save the state. The
      state file is written last, so a failure leaves it as it was. */
  method ExportAndSave(fs: FileSystem, store: Store, dir: string, state: BackupState, hasWisps: bool, now: Time,
                       c: RowCodec, sc: StateCodec)
    returns (err: Option<Error>)
    modifies fs, state
    ensures OnlyChanged(old(fs.files), fs.files, OutputPaths(dir) + {StatePath(dir)})
    ensures err.Some? ==> SameAt(old(fs.files), fs.files, StatePath(dir)) && (err.value.Backup? || IsSaveError(err.value))
    ensures err.Some? ==> FailedAfterSetup(old(fs.files), fs.files, store, dir, hasWisps, old(state.Record()), now, c, sc, err.value)
    ensures err.Some? && err.value.CommitForStateFailed? ==> store.commitAtEnd.None?
    ensures err.None? ==> Completed(old(fs.files), fs.files, store, dir, hasWisps, old(state.Record()), now, c, sc, state.Record())
  {
    ghost var f0 := fs.files;
    ghost var r0 := state.Record();
    ghost var watermark := state.lastEventID;
    ghost var counts := state.counts;
    err := ExportAll(fs, store, dir, state, hasWisps, c);
    ghost var f1 := fs.files;
    ghost var last := if err.Some? then err.value.entity else Config;
    StateFileApart(dir, last);
    WrittenUpToGrows(dir, last, Config);
    OnlyChangedWithin(f0, f1, WrittenUpTo(dir, last), OutputPaths(dir) + {StatePath(dir)});
    if err.Some? {
      UntouchedAfterStop(f0, f1, dir, last);
      StagesApart(err.value);
      return;
    }

    ghost var r1 := state.Record();
    if store.commitAtEnd.Some? {
      assert r1.(lastDoltCommit := store.commitAtEnd.value, timestamp := now)
          == StampedRecord(store.commitAtEnd.value, store, hasWisps, r0, now, c);
    }
    err := StampAndSave(fs, store, dir, state, now, sc);
    ghost var f2 := fs.files;
    if err.None? {
      UpdateOnlyChanges(f1, StatePath(dir), sc.marshalIndent(state.Record()).value);
    } else {
      StagesApart(err.value);
    }
    OnlyChangedTrans(f0, f1, f2, OutputPaths(dir) + {StatePath(dir)}, {StatePath(dir)});
    assert OutputPaths(dir) + {StatePath(dir)} + {StatePath(dir)} == OutputPaths(dir) + {StatePath(dir)};
  }

  /** runBackupExport once the state has loaded: change detection, then the
      exports and the save. */
  method RunLoaded(fs: FileSystem, store: Store, dir: string, state: BackupState, ghost prior: StateRecord, force: bool, now: Time,
                   c: RowCodec, sc: StateCodec)
    returns (r: Result<BackupState, Error>)
    requires state.Record() == prior
    modifies fs, state
    ensures r.Ok? ==> r.value == state
    ensures OnlyChanged(old(fs.files), fs.files, OutputPaths(dir) + {StatePath(dir)})
    ensures r.Err? ==> SameAt(old(fs.files), fs.files, StatePath(dir))
    ensures r.Err? ==> r.error.CommitFailed? || r.error.Backup? || IsSaveError(r.error)
    // the change-detection commit read
    ensures (r.Err? && r.error.CommitFailed?) <==> !force && store.commitAtCheck.None?
    ensures r.Err? && r.error.CommitForStateFailed? ==> store.commitAtEnd.None?
    ensures r.Err? && IsSetupError(r.error) ==> r.error.CommitFailed? && fs.files == old(fs.files)
    // the short circuit
    ensures Unchanged(force, store, prior) ==>
              r.Ok? && fs.files == old(fs.files) && r.value.Record() == prior
    // a failed export, or a failure at the end
    ensures r.Err? && !r.error.CommitFailed? ==>
              FailedAfterSetup(old(fs.files), fs.files, store, dir, store.TableExists("wisps"), prior, now, c, sc, r.error)
    // a completed run
    ensures r.Ok? && !Unchanged(force, store, prior) ==>
              Completed(old(fs.files), fs.files, store, dir, store.TableExists("wisps"), prior, now, c, sc, r.value.Record())
  {
    if !force {
      var currentCommit := store.commitAtCheck;
      if currentCommit.None? {
        return Err(CommitFailed);
      }
      if currentCommit.value == state.lastDoltCommit && state.lastDoltCommit != "" {
        return Ok(state);
      }
    }

    var hasWisps := store.TableExists("wisps");
    var err := ExportAndSave(fs, store, dir, state, hasWisps, now, c, sc);
    if err.Some? {
      StagesApart(err.value);
      return Err(err.value);
    }
    return Ok(state);
  }


  /** runBackupExport once backupDir() has resolved to dir: load the state,
      then detect changes, export and save. */
  method RunInDir(fs: FileSystem, store: Store, dir: string, force: bool, now: Time,
                  c: RowCodec, sc: StateCodec)
    returns (r: Result<BackupState, Error>)
    modifies fs
    ensures r.Ok? ==> fresh(r.value) && StoredState(old(fs.files), dir, sc).Some?
    ensures OnlyChanged(old(fs.files), fs.files, OutputPaths(dir) + {StatePath(dir)})
    ensures r.Err? ==> IsSetupError(r.error) || r.error.Backup? || IsSaveError(r.error)
    ensures r.Err? ==> SameAt(old(fs.files), fs.files, StatePath(dir))
    ensures r.Err? && IsSetupError(r.error) ==> fs.files == old(fs.files)
    ensures StoredState(old(fs.files), dir, sc).None? ==>
              r.Err? && (r.error.ReadStateFailed? || r.error.ParseStateFailed?)
    ensures !force && store.commitAtCheck.None? ==> r.Err? && IsSetupError(r.error)
    ensures r.Err? && r.error.CommitFailed? ==> !force && store.commitAtCheck.None?
    ensures r.Err? && r.error.CommitForStateFailed? ==> store.commitAtEnd.None?
    ensures (r.Err? ==> !r.error.BackupDirFailed?)
    ensures r.Err? && (r.error.ReadStateFailed? || r.error.ParseStateFailed?) ==> StatePath(dir) in old(fs.files)
    ensures r.Err? && r.error.ParseStateFailed? ==> StoredState(old(fs.files), dir, sc).None?
    ensures StoredState(old(fs.files), dir, sc).Some? && Unchanged(force, store, StoredState(old(fs.files), dir, sc).value) ==>
              && fs.files == old(fs.files)
              && (r.Ok? ==> r.value.Record() == StoredState(old(fs.files), dir, sc).value)
              && (r.Err? ==> r.error.ReadStateFailed?)
    ensures r.Err? && (r.error.Backup? || IsSaveError(r.error)) ==>
              && StoredState(old(fs.files), dir, sc).Some?
              && FailedAfterSetup(old(fs.files), fs.files, store, dir, store.TableExists("wisps"),
                                  StoredState(old(fs.files), dir, sc).value, now, c, sc, r.error)
    ensures r.Ok? && !Unchanged(force, store, StoredState(old(fs.files), dir, sc).value) ==>
              Completed(old(fs.files), fs.files, store, dir, store.TableExists("wisps"),
                        StoredState(old(fs.files), dir, sc).value, now, c, sc, r.value.Record())
  {
    var loaded := LoadBackupState(fs, dir, sc);
    if loaded.Err? {
      return Err(loaded.error);
    }
    var state := loaded.value;
    ghost var prior := StoredState(old(fs.files), dir, sc).value;
    r := RunLoaded(fs, store, dir, state, prior, force, now, c, sc);
  }

  /** runBackupExport. backupDir is the directory backupDir() resolved (None:
      it failed) and now is time.Now().UTC(). */
  method RunBackupExport(fs: FileSystem, store: Store, backupDir: Option<string>, force: bool, now: Time,
                         c: RowCodec, sc: StateCodec)
    returns (r: Result<BackupState, Error>)
    modifies fs
    ensures r.Ok? ==> fresh(r.value) && Prior(old(fs.files), backupDir, sc).Some?
    // nothing outside the backup files changes, and no temporary file is left
    ensures backupDir.None? ==> r.Err? && r.error.BackupDirFailed? && fs.files == old(fs.files)
    ensures backupDir.Some? ==>
              OnlyChanged(old(fs.files), fs.files, OutputPaths(backupDir.value) + {StatePath(backupDir.value)})
    // a failed run does not rewrite the state file
    ensures r.Err? ==> IsSetupError(r.error) || r.error.Backup? || IsSaveError(r.error)
    ensures r.Err? && backupDir.Some? ==> SameAt(old(fs.files), fs.files, StatePath(backupDir.value))
    // failures before the exports write nothing
    ensures r.Err? && IsSetupError(r.error) ==> fs.files == old(fs.files)
    ensures Prior(old(fs.files), backupDir, sc).None? ==>
              r.Err? && (r.error.BackupDirFailed? || r.error.ReadStateFailed? || r.error.ParseStateFailed?)
    ensures !force && store.commitAtCheck.None? ==> r.Err? && IsSetupError(r.error)
    ensures r.Err? && r.error.CommitFailed? ==> !force && store.commitAtCheck.None?
    ensures r.Err? && r.error.CommitForStateFailed? ==> store.commitAtEnd.None?
    ensures r.Err? && r.error.BackupDirFailed? ==> backupDir.None?
    ensures r.Err? && (r.error.ReadStateFailed? || r.error.ParseStateFailed?) ==>
              backupDir.Some? && StatePath(backupDir.value) in old(fs.files)
    ensures r.Err? && r.error.ParseStateFailed? ==> Prior(old(fs.files), backupDir, sc).None?
    // the short circuit writes nothing and returns the loaded state
    ensures Prior(old(fs.files), backupDir, sc).Some? && Unchanged(force, store, Prior(old(fs.files), backupDir, sc).value) ==>
              && fs.files == old(fs.files)
              && (r.Ok? ==> r.value.Record() == Prior(old(fs.files), backupDir, sc).value)
              && (r.Err? ==> r.error.ReadStateFailed?)
    // a failed export is tied to the first failing export, and a failure at
    // the end comes after all six exports were written
    ensures r.Err? && (r.error.Backup? || IsSaveError(r.error)) ==>
              && backupDir.Some? && Prior(old(fs.files), backupDir, sc).Some?
              && FailedAfterSetup(old(fs.files), fs.files, store, backupDir.value, store.TableExists("wisps"),
                                  Prior(old(fs.files), backupDir, sc).value, now, c, sc, r.error)
    // a completed run
    ensures r.Ok? && !Unchanged(force, store, Prior(old(fs.files), backupDir, sc).value) ==>
              Completed(old(fs.files), fs.files, store, backupDir.value, store.TableExists("wisps"),
                        Prior(old(fs.files), backupDir, sc).value, now, c, sc, r.value.Record())
  {
    if backupDir.None? {
      return Err(BackupDirFailed);
    }
    assert Prior(old(fs.files), backupDir, sc) == StoredState(old(fs.files), backupDir.value, sc);
    r := RunInDir(fs, store, backupDir.value, force, now, c, sc);
  }
}
