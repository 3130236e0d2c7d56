// The entities of the real-time synchronizer (include/job_info.h, include/sync_info_mem_store.h).
module Jobs {

  datatype Op = Full | Added | Modified | Deleted

  /** A job for one source directory; `sync` says that the console asked for it. */
  datatype Job = Job(src: string, tar: string, file: string, op: Op, sync: bool)

  /** A job that a child process works on. */
  datatype Task = Task(job: Job, pid: int)

  /** What the monitor knows about a source directory; pid is NO_WORKER when no child works on it. */
  datatype Info = Info(src: string, tar: string, wd: int, pid: int, active: bool)

  const NO_WORKER: int := -1

  /** How worker_manager_setup_worker ends: a child, or a failure after the slot was taken. */
  datatype Setup = Started(pid: nat) | PipeFailed | ForkFailed

  datatype EventKind = Create | Modify | Delete | Other

  /** An inotify event for the directory watched as wd. */
  datatype Event = Event(wd: int, kind: EventKind, name: string)
}
