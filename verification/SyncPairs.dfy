// The entities of the remote synchronizer (include/sync_buffer.h).
module SyncPairs {

  /** A directory on a device: dir@host:port. */
  datatype Location = Location(dir: string, host: string, port: int)

  /** One file to copy from its source directory to the file of the same name in its target. */
  datatype SyncPair = SyncPair(file: string, src: Location, tar: Location)

  /** What memset leaves behind: the terminator of a cancel report. */
  const NO_LOCATION := Location("", "", 0)

  /** What memset leaves behind: the pair that tells a worker to stop. */
  const NO_PAIR := SyncPair("", NO_LOCATION, NO_LOCATION)

  /** The producer looks for the same file of the same source, whatever the target. */
  predicate SameSource(a: SyncPair, b: SyncPair) {
    a.file == b.file && a.src == b.src
  }
}
