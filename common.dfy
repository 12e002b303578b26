/** Shared vocabulary of the backup exporter: machine integers, the Option and
    Result wrappers, the exported entities and the error taxonomy. */
module Common {

  /** A byte of file content or of a Go string. */
  type byte = b: int | 0 <= b < 0x100

  /** Go's int64, the type of event ids and of the watermark. */
  type int64 = i: int | -0x8000_0000_0000_0000 <= i < 0x8000_0000_0000_0000

  /** Go's uint64, a driver value type that is not an int64. */
  type uint64 = u: int | 0 <= u < 0x1_0000_0000_0000_0000

  /** The line terminator of a JSONL file. */
  const Newline: byte := 10

  datatype Option<+T> = None | Some(value: T)

  datatype Result<+T, +E> = Ok(value: T) | Err(error: E)

  /** The six entities a backup exports, in the order the exporter visits them. */
  datatype Entity = Issues | Events | Comments | Dependencies | Labels | Config

  const ExportOrder: seq<Entity> := [Issues, Events, Comments, Dependencies, Labels, Config]

  /** The output file of each entity inside the backup directory. */
  function FileName(e: Entity): string
  {
    match e
    case Issues => "issues.jsonl"
    case Events => "events.jsonl"
    case Comments => "comments.jsonl"
    case Dependencies => "dependencies.jsonl"
    case Labels => "labels.jsonl"
    case Config => "config.jsonl"
  }

  /** Position of an entity in ExportOrder. */
  function Position(e: Entity): (k: nat)
    ensures k < |ExportOrder| && ExportOrder[k] == e
  {
    match e
    case Issues => 0
    case Events => 1
    case Comments => 2
    case Dependencies => 3
    case Labels => 4
    case Config => 5
  }

  /** Every failure the exporter reports; Backup(e, cause) is the
      "backup <entity>: ..." wrapping the orchestrator adds. */
  datatype Error =
    | BackupDirFailed
    | ReadStateFailed
    | ParseStateFailed
    | MarshalStateFailed
    | CommitFailed
    | CommitForStateFailed
    | QueryFailed
    | ColumnsFailed
    | ScanFailed
    | MarshalFailed
    | IterationFailed
    | CreateTempFailed
    | WriteTempFailed
    | SyncTempFailed
    | CloseTempFailed
    | RenameTempFailed
    | OpenEventsFailed
    | AppendEventsFailed
    | CloseEventsFailed
    | Backup(entity: Entity, cause: Error)
}
