/** Names, timestamps and result codes shared by the whole cache model. */
module CacheTypes {

  newtype byte = x: int | 0 <= x < 256

  type Bytes = seq<byte>

  /** The lower-case hexadecimal text of an MD5 digest. */
  datatype Hash = Hash(hex: string)

  /** A stream key together with its priority: one directory `key/prio`. */
  datatype Slot = Slot(key: string, prio: byte)

  datatype Option<+T> = None | Some(value: T)

  /** Outcome class of one system call, chosen by the environment. */
  datatype Fault = Fine | NoSpace | IoFail

  datatype AddSourceResult = SourceNotChanged | SourceInserted | SourceEmpty | SourceIoError | SourceDiskFull

  datatype AddKeyResult =
    | NotChanged | Inserted | Replaced | SourcePending | SourceUnknown
    | IoError | DiskFull | InternalError

  datatype UpdateResult =
    | UpdNotChanged | UpdSourceOnly | UpdKeysOnly | UpdAll
    | UpdIoError | UpdDiskFull | UpdInternalError
  {
    predicate Succeeded() {
      UpdNotChanged? || UpdSourceOnly? || UpdKeysOnly? || UpdAll?
    }
  }

  datatype Timespec = Timespec(sec: int, nsec: int) {
    predicate Normalised() {
      0 <= nsec < 1_000_000_000
    }

    /** Lexicographic order, as the comparison operators of the collector use it. */
    predicate Before(t: Timespec) {
      sec < t.sec || (sec == t.sec && nsec < t.nsec)
    }
  }
}
