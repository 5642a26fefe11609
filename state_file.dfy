/**
 * The sent-incidents state file: how the table is recovered from what reading
 * the file returned, and when the table is written back.
 */
module StateFile {
  import opened Wrappers

  /**
   * What `json.Unmarshal` makes of a non-empty state file: a JSON object, the
   * JSON literal `null` (which leaves the map nil without an error), or an error.
   */
  datatype Decoded = Parsed(entries: map<string, bool>) | Null | Malformed(reason: string)

  /** The outcome of reading the state file; `length` is the number of bytes read. */
  datatype ReadResult =
    | NotExist
    | ReadFailed(reason: string)
    | Contents(length: nat, decoded: Decoded)

  datatype LoadError = ReadError(reason: string) | CorruptState(reason: string)

  /**
   * The map `loadSentIncidents` returns. A nil map reads like an empty one,
   * but storing into it panics.
   */
  datatype SentTable = NilTable | Table(entries: map<string, bool>)

  /** What reading the table gives: a nil map reads every key as absent. */
  function Entries(table: SentTable): (entries: map<string, bool>)
    ensures table.NilTable? ==> entries == map[]
    ensures table.Table? ==> entries == table.entries
  {
    match table
    case NilTable => map[]
    case Table(entries) => entries
  }

  /**
   * `loadSentIncidents`: a missing file and an empty file both give an empty
   * table and no error (the first run); any other read error is returned; a
   * non-empty file gives the table it decodes to, a nil map when it holds
   * `null`, or an error when it does not decode.
   */
  function LoadSentIncidents(read: ReadResult): (r: Result<SentTable, LoadError>)
    ensures r.Err? <==> read.ReadFailed? || (read.Contents? && read.length > 0 && read.decoded.Malformed?)
    ensures read.ReadFailed? ==> r == Err(ReadError(read.reason))
    ensures r.Ok? && !(read.Contents? && read.length > 0) ==> r.value == Table(map[])
    ensures r.Ok? && read.Contents? && read.length > 0 && read.decoded.Parsed? ==>
              r.value == Table(read.decoded.entries)
    ensures r == Ok(NilTable) <==> read.Contents? && read.length > 0 && read.decoded.Null?
  {
    match read
    case NotExist => Ok(Table(map[]))
    case ReadFailed(reason) => Err(ReadError(reason))
    case Contents(length, decoded) =>
      if length == 0 then Ok(Table(map[]))
      else
        match decoded
        case Parsed(entries) => Ok(Table(entries))
        case Null => Ok(NilTable)
        case Malformed(reason) => Err(CorruptState(reason))
  }

  /**
   * A table that was saved and is read back whole is recovered as it was:
   * the written file is never empty, so the empty-file branch cannot hide it.
   */
  lemma LoadReturnsSavedTable(entries: map<string, bool>, length: nat)
    requires length > 0
    ensures LoadSentIncidents(Contents(length, Parsed(entries))) == Ok(Table(entries))
  {
  }
}
