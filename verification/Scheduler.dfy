// The state of fss_manager_run and what one turn of its parts does to it (fss_manager.c,
// worker_management.c, file_monitor.c).
module Scheduler {
  import opened Sequences
  import opened Jobs
  import JobRemoval

  // ---------- The monitor ----------

  /** The position of the first entry for src, or the length of the table. */
  function Find(monitor: seq<Info>, src: string): (i: nat)
    ensures i <= |monitor|
    ensures i < |monitor| ==> monitor[i].src == src
    ensures forall j :: 0 <= j < i ==> monitor[j].src != src
  {
    if monitor == [] || monitor[0].src == src then 0 else 1 + Find(monitor[1..], src)
  }

  function FindWatch(monitor: seq<Info>, wd: int): (i: nat)
    ensures i <= |monitor|
    ensures i < |monitor| ==> monitor[i].wd == wd
    ensures forall j :: 0 <= j < i ==> monitor[j].wd != wd
  {
    if monitor == [] || monitor[0].wd == wd then 0 else 1 + FindWatch(monitor[1..], wd)
  }

  predicate Monitored(monitor: seq<Info>, src: string) {
    exists i :: 0 <= i < |monitor| && monitor[i].src == src
  }

  /** file_monitor_is_working: 1 or 0, and -1 for a directory that is not in the table. */
  function IsWorking(monitor: seq<Info>, src: string): int {
    var i := Find(monitor, src);
    if i == |monitor| then -1 else if monitor[i].pid != NO_WORKER then 1 else 0
  }

  function SetPid(monitor: seq<Info>, src: string, pid: int): (r: seq<Info>)
    ensures |r| == |monitor|
    ensures forall i :: 0 <= i < |r| ==> r[i] == if i == Find(monitor, src) then monitor[i].(pid := pid) else monitor[i]
  {
    var i := Find(monitor, src);
    if i == |monitor| then monitor else monitor[i := monitor[i].(pid := pid)]
  }

  // ---------- State ----------

  datatype State = State(
    limit: nat,             // worker_limit
    active: int,            // active_workers
    free: seq<nat>,         // slot_queue
    busy: map<nat, Task>,   // worker_jobs of the slots that have a worker
    lost: set<nat>,         // slots taken out of the queue by a setup that failed
    fds: map<nat, nat>,     // the descriptors in pfds of the worker slots, where there is one
    open: set<nat>,         // the open descriptors of the manager
    queue: seq<Job>,
    monitor: seq<Info>,
    shutDown: bool)

  /** Slots 0 and 1 belong to the console and to inotify. */
  function Slots(limit: nat): (r: set<nat>)
    ensures forall i :: i in r <==> 2 <= i < limit + 2
    ensures |r| == limit
  {
    if limit == 0 then {} else Slots(limit - 1) + {limit + 1}
  }

  function Available(s: State): int {
    s.limit - s.active
  }

  // ---------- A dispatch pass ----------

  /** int_queue_dequeue: 0, the console's index, when no slot is left. */
  function NextSlot(s: State): nat {
    if s.free == [] then 0 else s.free[0]
  }

  /** The lowest number from n on that is not the number of an open descriptor. */
  function Lowest(open: set<nat>, n: nat): (r: nat)
    ensures n <= r && r !in open && forall i :: n <= i < r ==> i in open
    decreases |open|
  {
    if n !in open then n
    else
      var r := Lowest(open - {n}, n + 1);
      assert forall i :: n < i ==> (i in open - {n} <==> i in open);
      r
  }

  /** pipe takes the two lowest closed numbers; the first is the end that the manager reads from. */
  function ReadEnd(open: set<nat>): nat {
    Lowest(open, 0)
  }

  /** A failed fork closes both ends again and leaves the number of one behind in pfds. */
  function SetUp(s: State, job: Job, r: Setup): State {
    var slot, free := NextSlot(s), if s.free == [] then [] else s.free[1..];
    var lost := s.lost + if s.free == [] then {} else {slot};
    match r
    case Started(pid) =>
      s.(free := free, busy := s.busy[slot := Task(job, pid)], active := s.active + 1,
         fds := s.fds[slot := ReadEnd(s.open)], open := s.open + {ReadEnd(s.open)},
         monitor := SetPid(s.monitor, job.src, pid))
    case PipeFailed => s.(free := free, lost := lost)
    case ForkFailed => s.(free := free, lost := lost, fds := s.fds[slot := ReadEnd(s.open)])
  }

  /** One turn of the dispatch loop with a worker available. */
  function DispatchOne(s: State, r: Setup): (t: State)
    requires s.queue != []
    ensures |t.queue| >= |s.queue| - 1
  {
    var job, u := s.queue[0], s.(queue := s.queue[1..]);
    if IsWorking(s.monitor, job.src) != 0 then u.(queue := u.queue + [job]) else SetUp(u, job, r)
  }

  /** The dispatch loop: at most n turns; r[i] is what setting up a worker yields in turn i. */
  function Pass(s: State, n: nat, r: seq<Setup>): State
    requires n <= |s.queue| && n <= |r|
    decreases n
  {
    if n == 0 || Available(s) == 0 then s else Pass(DispatchOne(s, r[0]), n - 1, r[1..])
  }

  // ---------- Completion, commands, events ----------

  /** The slot's entry in pfds names an open descriptor, so poll can report it. */
  predicate Polled(s: State, slot: nat) {
    2 <= slot < s.limit + 2 && slot in s.fds && s.fds[slot] in s.open
  }

  /** A worker's report was read: its directory becomes free, and its slot too, unless its pipe cannot be closed. */
  function Complete(s: State, slot: nat): State
    requires slot in s.busy
  {
    var t := s.(monitor := SetPid(s.monitor, s.busy[slot].job.src, NO_WORKER));
    if slot !in s.fds || s.fds[slot] !in s.open then t
    else t.(free := s.free + [slot], busy := s.busy - {slot}, active := s.active - 1,
            fds := s.fds - {slot}, open := s.open - {s.fds[slot]})
  }

  /** file_monitor_add for a directory that is not active. */
  function Watch(monitor: seq<Info>, src: string, tar: string, wd: int): seq<Info> {
    var i := Find(monitor, src);
    if i == |monitor| then monitor + [Info(src, tar, wd, NO_WORKER, true)]
    else monitor[i := monitor[i].(active := true, wd := wd, tar := tar)]
  }

  predicate IsActive(monitor: seq<Info>, src: string) {
    var i := Find(monitor, src); i < |monitor| && monitor[i].active
  }

  /** add: wd is what inotify_add_watch returned. */
  function Add(s: State, src: string, tar: string, wd: int): State {
    if IsActive(s.monitor, src) || wd < 0 then s
    else s.(monitor := Watch(s.monitor, src, tar, wd), queue := s.queue + [Job(src, tar, "ALL", Full, false)])
  }

  /** sync: only for a directory without a queued or a running job. */
  function Sync(s: State, src: string, wd: int): State {
    var i := Find(s.monitor, src);
    if i == |s.monitor| || s.monitor[i].pid != NO_WORKER || JobRemoval.Queued(s.queue, src) then s
    else if s.monitor[i].active then s.(queue := s.queue + [Job(src, s.monitor[i].tar, "ALL", Full, true)])
    else if wd < 0 then s
    else s.(monitor := Watch(s.monitor, src, s.monitor[i].tar, wd),
            queue := s.queue + [Job(src, s.monitor[i].tar, "ALL", Full, true)])
  }

  function Inside(src: string): Job -> bool {
    (j: Job) => j.src == src
  }

  /** cancel, where removing the directory from the queue does what it is meant to. */
  function Cancel(s: State, src: string): State {
    var i := Find(s.monitor, src);
    if !IsActive(s.monitor, src) then s
    else s.(monitor := s.monitor[i := s.monitor[i].(active := false)], queue := JobRemoval.Without(s.queue, src))
  }

  /** An event whose watch is still in the table, or one of a kind that makes no job. */
  predicate Readable(s: State, e: Event) {
    e.kind == Other || FindWatch(s.monitor, e.wd) < |s.monitor|
  }

  function OpOf(kind: EventKind): Op
    requires kind != Other
  {
    match kind case Create => Added case Modify => Modified case Delete => Deleted
  }

  function Read(s: State, e: Event): State
    requires Readable(s, e)
  {
    if e.kind == Other then s
    else
      var info := s.monitor[FindWatch(s.monitor, e.wd)];
      s.(queue := s.queue + [Job(info.src, info.tar, e.name, OpOf(e.kind), false)])
  }

  // ---------- Slots ----------

  ghost predicate NoRepeat<T(!new)>(s: seq<T>) {
    forall i, j :: 0 <= i < j < |s| ==> s[i] != s[j]
  }

  /** Free, busy and lost slots are disjoint and together all the worker slots. */
  ghost predicate SlotInv(s: State) {
    && 0 < s.limit
    && NoRepeat(s.free)
    && (forall x :: x in s.free ==> x !in s.busy && x !in s.lost)
    && (forall x :: x in s.busy ==> x !in s.lost)
    && (forall x :: 2 <= x < s.limit + 2 <==> x in s.free || x in s.busy || x in s.lost)
    && s.active == |s.busy.Keys|
  }

  lemma {:induction false} NoRepeatCount<T(!new)>(s: seq<T>)
    requires NoRepeat(s)
    ensures |set x | x in s| == |s|
  {
    if s != [] {
      var init := s[..|s| - 1];
      var last := s[|s| - 1];
      NoRepeatCount(init);
      assert s == init + [last];
      assert (set x | x in s) == (set x | x in init) + {last};
      assert last !in init;
    }
  }

  /** |slot_queue| + active_workers + lost == worker_limit. */
  lemma {:induction false} SlotConservation(s: State)
    requires SlotInv(s)
    ensures |s.free| + s.active + |s.lost| == s.limit
  {
    var free := set x | x in s.free;
    NoRepeatCount(s.free);
    assert Slots(s.limit) == free + s.busy.Keys + s.lost;
    assert free !! s.busy.Keys && (free + s.busy.Keys) !! s.lost;
    assert |s.busy.Keys| == |s.busy|;
  }

  /** The console's index is handed out as a slot exactly when every idle slot was lost before. */
  lemma {:induction false} NextSlotIsConsoleExactlyWhen(s: State)
    requires SlotInv(s) && Available(s) > 0
    ensures NextSlot(s) == 0 <==> |s.lost| == Available(s)
    ensures NextSlot(s) == 0 || 2 <= NextSlot(s) < s.limit + 2
    ensures s.lost == {} ==> NextSlot(s) != 0
  {
    SlotConservation(s);
    if s.free != [] {
      assert s.free[0] in s.free;
    }
  }

  // ---------- Descriptors ----------

  /** Each busy slot has an open descriptor of its own; besides, only lost slots have an entry. */
  ghost predicate Descriptors(s: State) {
    && (forall x :: x in s.busy ==> x in s.fds && s.fds[x] in s.open)
    && (forall x, y :: x in s.busy && y in s.busy && x != y ==> s.fds[x] != s.fds[y])
    && (forall x :: x in s.fds ==> x in s.busy || x in s.lost)
  }

  /** No number that a failed fork left behind is open again. */
  ghost predicate NoneStale(s: State) {
    forall x :: x in s.lost && x in s.fds ==> s.fds[x] !in s.open
  }

  /** The next pipe gets a number that a failed fork left behind. */
  ghost predicate Reuses(s: State) {
    exists x :: x in s.lost && x in s.fds && s.fds[x] == ReadEnd(s.open)
  }

  /** Every slot whose report poll lets the manager read has a worker. */
  ghost predicate ReportsAreSound(s: State) {
    forall x :: Polled(s, x) ==> x in s.busy
  }

  lemma {:induction false} ReportsAreSoundExactlyWhen(s: State)
    requires SlotInv(s) && Descriptors(s)
    ensures ReportsAreSound(s) <==> NoneStale(s)
    ensures forall x :: x in s.busy ==> Polled(s, x)
  {
    if ReportsAreSound(s) {
      forall x | x in s.lost && x in s.fds ensures s.fds[x] !in s.open {
        assert Polled(s, x) ==> x in s.busy;
      }
    }
  }

  /** A successful setup makes a slot without a worker readable exactly when its pipe gets such a number. */
  lemma {:induction false} SetUpIsSoundExactlyWhen(s: State, job: Job, r: Setup)
    requires SlotInv(s) && Descriptors(s) && NoneStale(s) && s.free != []
    ensures NoneStale(SetUp(s, job, r)) <==> !(r.Started? && Reuses(s))
  {
    var t := SetUp(s, job, r);
    assert s.free[0] in s.free;
    if r.Started? {
      if Reuses(s) {
        var x :| x in s.lost && x in s.fds && s.fds[x] == ReadEnd(s.open);
        assert x in t.lost && t.fds[x] in t.open;
      } else {
        forall x | x in t.lost && x in t.fds ensures t.fds[x] !in t.open {
          assert x in s.fds && t.fds[x] == s.fds[x];
        }
      }
    }
  }

  /** Once such a slot is readable no further setup changes that. */
  lemma {:induction false} StaleStays(s: State, job: Job, r: Setup)
    requires SlotInv(s) && !NoneStale(s)
    ensures !NoneStale(SetUp(s, job, r))
  {
    var t := SetUp(s, job, r);
    var x :| x in s.lost && x in s.fds && s.fds[x] in s.open;
    assert x != NextSlot(s) by {
      if s.free != [] {
        assert s.free[0] in s.free;
      }
    }
    assert x in t.lost && t.fds[x] == s.fds[x] && s.fds[x] in t.open;
  }

  lemma {:induction false} SetUpKeepsDescriptors(s: State, job: Job, r: Setup)
    requires SlotInv(s) && Descriptors(s) && s.free != []
    ensures Descriptors(SetUp(s, job, r))
  {
    assert s.free[0] in s.free;
  }

  lemma {:induction false} SetUpIsSound(s: State, job: Job, r: Setup)
    requires SlotInv(s) && Descriptors(s) && s.free != []
    ensures var t := SetUp(s, job, r);
            && Descriptors(t) && (!NoneStale(s) ==> !NoneStale(t))
            && (NoneStale(s) ==> (NoneStale(t) <==> !(r.Started? && Reuses(s))))
  {
    hide SlotInv, NoneStale, Reuses, SetUp;
    SetUpKeepsDescriptors(s, job, r);
    if NoneStale(s) {
      SetUpIsSoundExactlyWhen(s, job, r);
    } else {
      StaleStays(s, job, r);
    }
  }

  // ---------- One worker per directory ----------

  ghost predicate DistinctDirs(monitor: seq<Info>) {
    forall i, j :: 0 <= i < j < |monitor| ==> monitor[i].src != monitor[j].src
  }

  /** The mark of a directory: the pid of its worker, or NO_WORKER. */
  function Pid(monitor: seq<Info>, src: string): int {
    var i := Find(monitor, src);
    if i == |monitor| then NO_WORKER else monitor[i].pid
  }

  /** No two slots work on one directory; a directory carries a pid iff a slot with that pid works on it. */
  ghost predicate ExclusionInv(s: State) {
    && DistinctDirs(s.monitor)
    && OnePerDir(s.busy)
    && Marks(s.monitor, s.busy)
    && QueueMonitored(s.queue, s.monitor)
  }

  ghost predicate OnePerDir(busy: map<nat, Task>) {
    forall k, l :: k in busy && l in busy && k != l ==> busy[k].job.src != busy[l].job.src
  }

  ghost predicate Marks(monitor: seq<Info>, busy: map<nat, Task>) {
    && (forall k :: k in busy ==> Pid(monitor, busy[k].job.src) == busy[k].pid != NO_WORKER)
    && (forall src :: Pid(monitor, src) != NO_WORKER ==> BusyWith(busy, src))
  }

  ghost predicate QueueMonitored(queue: seq<Job>, monitor: seq<Info>) {
    forall j :: j in queue ==> Monitored(monitor, j.src)
  }

  ghost predicate BusyWith(busy: map<nat, Task>, src: string) {
    exists k :: k in busy && busy[k].job.src == src
  }

  // ---------- One console sync per directory ----------

  function IsSyncOf(src: string): Job -> bool {
    (j: Job) => j.src == src && j.sync
  }

  ghost predicate BusySync(busy: map<nat, Task>, src: string) {
    exists k :: k in busy && busy[k].job.src == src && busy[k].job.sync
  }

  function SyncCount(queue: seq<Job>, src: string): nat {
    |Filter(queue, IsSyncOf(src))|
  }

  /** How many console syncs of src are queued or running. */
  ghost function SyncLoad(queue: seq<Job>, busy: map<nat, Task>, src: string): nat {
    SyncCount(queue, src) + if BusySync(busy, src) then 1 else 0
  }

  ghost predicate SyncInv(s: State) {
    forall src :: SyncLoad(s.queue, s.busy, src) <= 1
  }

  ghost predicate CoreInv(s: State) {
    SlotInv(s) && ExclusionInv(s) && SyncInv(s) && Descriptors(s)
  }

  ghost predicate Inv(s: State) {
    CoreInv(s) && NoneStale(s)
  }

  /** A turn of the dispatch loop that puts the job back, or has a slot to give and a number that is not stale. */
  ghost predicate TurnIsSound(s: State, r: Setup)
    requires s.queue != []
  {
    BusyWith(s.busy, s.queue[0].src) || (s.free != [] && !(r.Started? && Reuses(s)))
  }

  // ---------- Every step keeps the invariants ----------

  lemma {:induction false} MonitoredFind(monitor: seq<Info>, src: string)
    ensures Monitored(monitor, src) <==> Find(monitor, src) < |monitor|
    ensures IsWorking(monitor, src)
         == if !Monitored(monitor, src) then -1 else if Pid(monitor, src) != NO_WORKER then 1 else 0
  {
  }

  /** For a queued directory is_working answers whether a slot works on it, and never -1. */
  lemma {:induction false} WorkingMeansBusy(s: State, src: string)
    requires ExclusionInv(s) && Monitored(s.monitor, src)
    ensures IsWorking(s.monitor, src) == if BusyWith(s.busy, src) then 1 else 0
  {
    MonitoredFind(s.monitor, src);
  }

  lemma {:induction false} FindAfterSet(monitor: seq<Info>, src: string, pid: int, x: string)
    ensures Find(SetPid(monitor, src, pid), x) == Find(monitor, x)
    ensures Monitored(SetPid(monitor, src, pid), x) == Monitored(monitor, x)
    ensures Pid(SetPid(monitor, src, pid), x) == if x == src && Monitored(monitor, src) then pid else Pid(monitor, x)
    ensures DistinctDirs(monitor) ==> DistinctDirs(SetPid(monitor, src, pid))
  {
    var r := SetPid(monitor, src, pid);
    assert forall i :: 0 <= i < |r| ==> r[i].src == monitor[i].src;
    FindBySource(monitor, r, x);
    MonitoredFind(monitor, x);
    MonitoredFind(r, x);
    MonitoredFind(monitor, src);
  }

  lemma {:induction false} FindBySource(a: seq<Info>, b: seq<Info>, x: string)
    requires |a| == |b| && forall i :: 0 <= i < |a| ==> a[i].src == b[i].src
    ensures Find(a, x) == Find(b, x)
  {
    if a != [] {
      FindBySource(a[1..], b[1..], x);
    }
  }

  /** Taking the head of a queue without repetitions. */
  lemma {:induction false} TakeHead<T(!new)>(s: seq<T>)
    requires NoRepeat(s) && s != []
    ensures NoRepeat(s[1..]) && s[0] !in s[1..]
    ensures forall x :: x in s <==> x == s[0] || x in s[1..]
  {
    assert s == [s[0]] + s[1..];
  }

  lemma {:induction false} SlotStepSetUp(s: State, job: Job, r: Setup)
    requires SlotInv(s) && s.free != []
    ensures SlotInv(SetUp(s, job, r))
  {
    var t := SetUp(s, job, r);
    var slot := s.free[0];
    TakeHead(s.free);
    if r.Started? {
      assert t.busy.Keys == s.busy.Keys + {slot};
      assert |t.busy.Keys| == |s.busy.Keys| + 1;
    }
    assert forall x :: x in t.free ==> x in s.free && x != slot;
    assert forall x :: x in t.busy ==> x in s.busy || x == slot;
    assert forall x :: x in t.lost ==> x in s.lost || x == slot;
  }

  lemma {:induction false} BusyAfterStart(busy: map<nat, Task>, slot: nat, task: Task)
    requires slot !in busy
    ensures forall x :: BusyWith(busy[slot := task], x) <==> BusyWith(busy, x) || x == task.job.src
    ensures OnePerDir(busy) && !BusyWith(busy, task.job.src) ==> OnePerDir(busy[slot := task])
  {
    var busy' := busy[slot := task];
    forall x ensures BusyWith(busy', x) <==> BusyWith(busy, x) || x == task.job.src {
      if BusyWith(busy, x) {
        var k :| k in busy && busy[k].job.src == x;
        assert busy'[k] == busy[k];
      }
      assert busy'[slot].job.src == task.job.src;
    }
  }

  lemma {:induction false} MarksAfterStart(monitor: seq<Info>, busy: map<nat, Task>, slot: nat, task: Task)
    requires Marks(monitor, busy) && OnePerDir(busy) && !BusyWith(busy, task.job.src)
    requires slot !in busy && task.pid != NO_WORKER && Monitored(monitor, task.job.src)
    ensures Marks(SetPid(monitor, task.job.src, task.pid), busy[slot := task])
    ensures OnePerDir(busy[slot := task])
  {
    var monitor', busy' := SetPid(monitor, task.job.src, task.pid), busy[slot := task];
    BusyAfterStart(busy, slot, task);
    forall x ensures Pid(monitor', x) == if x == task.job.src then task.pid else Pid(monitor, x) {
      FindAfterSet(monitor, task.job.src, task.pid, x);
    }
    hide Pid, Find, SetPid, OnePerDir;
    forall k | k in busy' ensures Pid(monitor', busy'[k].job.src) == busy'[k].pid != NO_WORKER {
      if k != slot {
        assert busy'[k] == busy[k] && busy[k].job.src != task.job.src;
      }
    }
  }

  lemma {:induction false} QueueAfterSet(queue: seq<Job>, monitor: seq<Info>, src: string, pid: int)
    requires QueueMonitored(queue, monitor)
    ensures QueueMonitored(queue, SetPid(monitor, src, pid))
  {
    forall j | j in queue ensures Monitored(SetPid(monitor, src, pid), j.src) {
      FindAfterSet(monitor, src, pid, j.src);
    }
  }

  lemma {:induction false} ExclusionStepStart(s: State, job: Job, pid: nat)
    requires SlotInv(s) && ExclusionInv(s) && s.free != []
    requires Monitored(s.monitor, job.src) && !BusyWith(s.busy, job.src)
    ensures ExclusionInv(SetUp(s, job, Started(pid)))
  {
    assert s.free[0] in s.free;
    MarksAfterStart(s.monitor, s.busy, s.free[0], Task(job, pid));
    QueueAfterSet(s.queue, s.monitor, job.src, pid);
    FindAfterSet(s.monitor, job.src, pid, job.src);
  }

  lemma {:induction false} SyncStepStart(queue: seq<Job>, busy: map<nat, Task>, slot: nat, task: Task, src: string)
    requires queue != [] && queue[0] == task.job && slot !in busy && !BusyWith(busy, task.job.src)
    ensures SyncLoad(queue[1..], busy[slot := task], src) == SyncLoad(queue, busy, src)
  {
    var busy' := busy[slot := task];
    FilterHead(queue, IsSyncOf(src));
    if task.job.src == src {
      assert !BusySync(busy, src);
      assert BusySync(busy', src) == task.job.sync by {
        assert busy'[slot] == task;
        assert forall k :: k in busy' && k != slot ==> busy'[k] == busy[k];
      }
    } else {
      if BusySync(busy, src) {
        var k :| k in busy && busy[k].job.src == src && busy[k].job.sync;
        assert busy'[k] == busy[k];
      }
      assert BusySync(busy', src) ==> BusySync(busy, src);
    }
  }

  lemma {:induction false} SyncStepRequeue(queue: seq<Job>, busy: map<nat, Task>, src: string)
    requires queue != []
    ensures SyncLoad(queue[1..] + [queue[0]], busy, src) == SyncLoad(queue, busy, src)
    ensures SyncLoad(queue[1..], busy, src) <= SyncLoad(queue, busy, src)
  {
    FilterHead(queue, IsSyncOf(src));
    FilterAppend(queue[1..], [queue[0]], IsSyncOf(src));
    FilterHead([queue[0]], IsSyncOf(src));
    assert [queue[0]][1..] == [];
  }

  lemma {:induction false} HeadIsMonitored(s: State)
    requires ExclusionInv(s) && s.queue != []
    ensures Monitored(s.monitor, s.queue[0].src) && QueueMonitored(s.queue[1..], s.monitor)
    ensures QueueMonitored(s.queue[1..] + [s.queue[0]], s.monitor)
    ensures IsWorking(s.monitor, s.queue[0].src) == if BusyWith(s.busy, s.queue[0].src) then 1 else 0
  {
    assert s.queue == [s.queue[0]] + s.queue[1..];
    assert s.queue[0] in s.queue;
    WorkingMeansBusy(s, s.queue[0].src);
  }

  lemma {:induction false} PutBackStep(s: State)
    requires CoreInv(s) && s.queue != []
    ensures CoreInv(s.(queue := s.queue[1..] + [s.queue[0]]))
  {
    HeadIsMonitored(s);
    forall src ensures SyncLoad(s.queue[1..] + [s.queue[0]], s.busy, src) <= 1 {
      assert SyncLoad(s.queue, s.busy, src) <= 1;
      SyncStepRequeue(s.queue, s.busy, src);
    }
  }

  lemma {:induction false} SyncAfterSetUp(s: State, r: Setup)
    requires SyncInv(s) && s.queue != [] && !BusyWith(s.busy, s.queue[0].src) && s.free != [] && s.free[0] !in s.busy
    ensures SyncInv(SetUp(s.(queue := s.queue[1..]), s.queue[0], r))
  {
    var job, t := s.queue[0], SetUp(s.(queue := s.queue[1..]), s.queue[0], r);
    forall src ensures SyncLoad(t.queue, t.busy, src) <= 1 {
      assert SyncLoad(s.queue, s.busy, src) <= 1;
      SyncStepRequeue(s.queue, s.busy, src);
      if r.Started? {
        SyncStepStart(s.queue, s.busy, s.free[0], Task(job, r.pid), src);
      }
    }
  }

  lemma {:induction false} ExclusionAfterSetUp(s: State, job: Job, r: Setup)
    requires SlotInv(s) && ExclusionInv(s) && s.free != [] && Monitored(s.monitor, job.src) && !BusyWith(s.busy, job.src)
    ensures ExclusionInv(SetUp(s, job, r))
  {
    if r.Started? {
      ExclusionStepStart(s, job, r.pid);
    }
  }

  lemma {:induction false} SetUpStep(s: State, r: Setup)
    requires CoreInv(s) && s.queue != [] && !BusyWith(s.busy, s.queue[0].src) && s.free != []
    ensures var t := SetUp(s.(queue := s.queue[1..]), s.queue[0], r);
            && CoreInv(t) && (!NoneStale(s) ==> !NoneStale(t))
            && (NoneStale(s) ==> (NoneStale(t) <==> !(r.Started? && Reuses(s))))
  {
    var u := s.(queue := s.queue[1..]);
    HeadIsMonitored(s);
    OtherQueue(s, u.queue);
    FreeIsIdle(s);
    hide SetUp, SlotInv, SyncInv, ExclusionInv, Descriptors, NoneStale, Reuses, BusyWith, Monitored, QueueMonitored;
    SyncAfterSetUp(s, r);
    SlotStepSetUp(u, s.queue[0], r);
    ExclusionAfterSetUp(u, s.queue[0], r);
    SetUpIsSound(u, s.queue[0], r);
  }

  lemma {:induction false} FreeIsIdle(s: State)
    requires SlotInv(s) && s.free != []
    ensures s.free[0] !in s.busy && s.free[0] !in s.lost
  {
    assert s.free[0] in s.free;
  }

  /** Slots and descriptors do not depend on the queue, and the table only on whose jobs are in it. */
  lemma {:induction false} OtherQueue(s: State, queue: seq<Job>)
    ensures var u := s.(queue := queue);
            && (SlotInv(s) ==> SlotInv(u)) && (Descriptors(s) ==> Descriptors(u))
            && (NoneStale(s) <==> NoneStale(u)) && (Reuses(s) <==> Reuses(u))
            && (ExclusionInv(s) && QueueMonitored(queue, s.monitor) ==> ExclusionInv(u))
  {
    hide OnePerDir, Marks, DistinctDirs, NoRepeat;
  }

  lemma {:induction false} TurnStep(s: State, r: Setup)
    requires CoreInv(s) && s.queue != [] && (BusyWith(s.busy, s.queue[0].src) || s.free != [])
    ensures CoreInv(DispatchOne(s, r))
    ensures NoneStale(s) ==> (NoneStale(DispatchOne(s, r)) <==> TurnIsSound(s, r))
    ensures !NoneStale(s) ==> !NoneStale(DispatchOne(s, r))
    ensures IsWorking(s.monitor, s.queue[0].src) == if BusyWith(s.busy, s.queue[0].src) then 1 else 0
  {
    HeadIsMonitored(s);
    hide CoreInv, SetUp, IsWorking, Reuses, BusyWith;
    if BusyWith(s.busy, s.queue[0].src) {
      PutBackStep(s);
    } else {
      SetUpStep(s, r);
    }
  }

  lemma {:induction false} DispatchStep(s: State, r: Setup)
    requires Inv(s) && s.queue != [] && TurnIsSound(s, r)
    ensures Inv(DispatchOne(s, r))
    ensures IsWorking(s.monitor, s.queue[0].src) == if BusyWith(s.busy, s.queue[0].src) then 1 else 0
  {
    hide CoreInv, NoneStale;
    TurnStep(s, r);
  }
}
