/** The backup state: the record kept in backup_state.json, the in-memory
    object the exporter updates through a pointer, and loading and saving it. */
module StateStore {
  import opened Common
  import opened Values
  import opened Files
  import opened AtomicWrite

  /** Last known row counts per entity (Go int). */
  datatype Counts = Counts(issues: int, events: int, comments: int, dependencies: int, labels: int, config: int)

  /** The contents of a backupState, as it is marshalled and unmarshalled. */
  datatype StateRecord = StateRecord(lastDoltCommit: string, lastEventID: int64, timestamp: Time, counts: Counts)

  /** The zero backupState: never exported. */
  const ZeroState: StateRecord := StateRecord("", 0, ZeroTime, Counts(0, 0, 0, 0, 0, 0))

  const StateFile: string := "backup_state.json"

  function StatePath(dir: string): Path
  {
    Path(dir, StateFile)
  }

  /** json.MarshalIndent and json.Unmarshal of the state; either may fail. */
  datatype StateCodec = StateCodec(
    marshalIndent: StateRecord -> Option<seq<byte>>,
    unmarshal: seq<byte> -> Option<StateRecord>)

  /** The *backupState the exporter loads, mutates field by field and saves. */
  class BackupState {
    var lastDoltCommit: string
    var lastEventID: int64
    var timestamp: Time
    var counts: Counts

    constructor (r: StateRecord)
      ensures Record() == r
    {
      lastDoltCommit := r.lastDoltCommit;
      lastEventID := r.lastEventID;
      timestamp := r.timestamp;
      counts := r.counts;
    }

    /** The current field values as one record. */
    function Record(): StateRecord
      reads this
    {
      StateRecord(lastDoltCommit, lastEventID, timestamp, counts)
    }
  }

  /** The state a successful read of the state file yields: the zero state
      when the file is missing, its parse otherwise (None: it does not parse). */
  ghost function StoredState(files: map<Path, seq<byte>>, dir: string, sc: StateCodec): Option<StateRecord>
  {
    if StatePath(dir) !in files then Some(ZeroState) else sc.unmarshal(files[StatePath(dir)])
  }

  /** loadBackupState: a missing file gives the zero state; a read failure or a
      parse failure is an error, never a zero state. */
  method LoadBackupState(fs: FileSystem, dir: string, sc: StateCodec) returns (r: Result<BackupState, Error>)
    ensures r.Ok? ==> fresh(r.value) && StoredState(fs.files, dir, sc) == Some(r.value.Record())
    ensures StatePath(dir) !in fs.files ==> r.Ok? && r.value.Record() == ZeroState
    ensures StoredState(fs.files, dir, sc).None? ==> r.Err?
    ensures StoredState(fs.files, dir, sc).Some? && r.Err? ==> r.error.ReadStateFailed?
    ensures r.Err? ==> StatePath(dir) in fs.files && (r.error.ReadStateFailed? || r.error.ParseStateFailed?)
  {
    var data := fs.ReadFile(StatePath(dir));
    if data == Err(NotExist) {
      var st := new BackupState(ZeroState);
      return Ok(st);
    }
    if data.Err? {
      return Err(ReadStateFailed);
    }
    var parsed := sc.unmarshal(data.value);
    if parsed.None? {
      return Err(ParseStateFailed);
    }
    var st := new BackupState(parsed.value);
    return Ok(st);
  }

  /** saveBackupState: marshal the state and write it with atomicWriteFile. */
  method SaveBackupState(fs: FileSystem, dir: string, state: BackupState, sc: StateCodec) returns (err: Option<Error>)
    modifies fs
    ensures sc.marshalIndent(state.Record()).None? <==> err == Some(MarshalStateFailed)
    ensures err.None? ==> fs.files == old(fs.files)[StatePath(dir) := sc.marshalIndent(state.Record()).value]
    ensures err.Some? ==> fs.files == old(fs.files) && (err.value == MarshalStateFailed || IsWriteError(err.value))
  {
    var data := sc.marshalIndent(state.Record());
    if data.None? {
      return Some(MarshalStateFailed);
    }
    err := AtomicWriteFile(fs, StatePath(dir), data.value);
  }

  /** A saved state is the state the next load reads back, as long as the
      codec reads back what it writes; saving touches no other file. */
  lemma SavedStateReloads(files: map<Path, seq<byte>>, dir: string, rec: StateRecord, sc: StateCodec)
    requires sc.marshalIndent(rec).Some? && sc.unmarshal(sc.marshalIndent(rec).value) == Some(rec)
    ensures StoredState(files[StatePath(dir) := sc.marshalIndent(rec).value], dir, sc) == Some(rec)
  {
  }
}
