/** The actions of the transaction log (internal/storage/delta/actions.go).  `Action` is a sum
    type: the source promises that exactly one of its five pointers is set. */
module Actions {
  datatype Protocol = Protocol(minReaderVersion: int, minWriterVersion: int)

  datatype Format = Format(provider: string, options: map<string, string>)

  datatype Metadata = Metadata(
    id: string, name: string, description: string, format: Format, schemaString: string,
    partitionColumns: seq<string>, configuration: map<string, string>, createdTime: int)

  /** The engine only ever writes `{"numRecords":n}`; the JSON text is abstracted away. */
  datatype Stats = NoStats | NumRecords(n: int)

  datatype Add = Add(
    path: string, size: int, partitionValues: map<string, string>, modificationTime: int,
    dataChange: bool, stats: Stats, tags: map<string, string>)

  datatype Remove = Remove(path: string, deletionTimestamp: int, dataChange: bool, extendedFileMetadata: bool)

  datatype CommitInfo = CommitInfo(
    timestamp: int, operation: string, operationParams: map<string, string>,
    readVersion: int, isBlindAppend: bool)

  datatype Action =
    | ProtocolAction(protocol: Protocol)
    | MetadataAction(metadata: Metadata)
    | AddAction(add: Add)
    | RemoveAction(remove: Remove)
    | CommitInfoAction(commitInfo: CommitInfo)

  function NewProtocolAction(): Action {
    ProtocolAction(Protocol(1, 2))
  }

  function NewMetadataAction(id: string, name: string, schemaString: string, now: int): Action {
    MetadataAction(Metadata(id, name, "", Format("parquet", map[]), schemaString, [], map[], now))
  }

  function NewAdd(path: string, size: int, stats: Stats, now: int): Add {
    Add(path, size, map[], now, true, stats, map[])
  }

  function NewCommitInfoAction(operation: string, readVersion: int, isBlindAppend: bool, now: int): Action {
    CommitInfoAction(CommitInfo(now, operation, map[], readVersion, isBlindAppend))
  }
}
