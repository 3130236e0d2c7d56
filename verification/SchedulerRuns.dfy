// Runs of the real-time manager: any interleaving of dispatch passes, completions, console commands and events.
module SchedulerRuns {
  import opened Sequences
  import opened Jobs
  import opened Scheduler
  import opened Dispatch
  import opened DispatchOrder
  import JobRemoval

  datatype Step =
    | DoPass(r: seq<Setup>)
    | DoComplete(slot: nat)
    | DoAdd(src: string, tar: string, wd: int)
    | DoCancel(src: string)
    | DoSync(src: string, wd: int)
    | DoRead(e: Event)
    | DoShutDown

  /** After the shutdown command only passes and completions are left. */
  ghost predicate Possible(s: State, x: Step) {
    match x
    case DoPass(r) => |s.queue| <= |r| && SlotsSuffice(s, |s.queue|, r)
    case DoComplete(slot) => slot in s.busy && Polled(s, slot)
    case DoAdd(_, _, _) => !s.shutDown
    case DoCancel(src) => !s.shutDown && (IsActive(s.monitor, src) ==> JobRemoval.RemoveIsExact(s.queue, src))
    case DoSync(_, _) => !s.shutDown
    case DoRead(e) => !s.shutDown && Readable(s, e)
    case DoShutDown => !s.shutDown
  }

  /** And no worker's pipe gets a number that a failed fork left behind. */
  ghost predicate Enabled(s: State, x: Step) {
    Possible(s, x) && (x.DoPass? ==> SetupsAreSound(s, |s.queue|, x.r))
  }

  ghost function Next(s: State, x: Step): State
    requires Possible(s, x)
  {
    match x
    case DoPass(r) => Pass(s, |s.queue|, r)
    case DoComplete(slot) => Complete(s, slot)
    case DoAdd(src, tar, wd) => Add(s, src, tar, wd)
    case DoCancel(src) => Cancel(s, src)
    case DoSync(src, wd) => Sync(s, src, wd)
    case DoRead(e) => Read(s, e)
    case DoShutDown => s.(shutDown := true)
  }

  /** worker_manager_init: every worker slot is free; `open` are the descriptors open by then. */
  function Init(limit: nat, open: set<nat>): State {
    State(limit, 0, seq(limit, i => i + 2), map[], {}, map[], open, [], [], false)
  }

  lemma {:induction false} InitInv(limit: nat, open: set<nat>)
    requires 0 < limit
    ensures Inv(Init(limit, open))
  {
    var s := Init(limit, open);
    forall x ensures 2 <= x < limit + 2 <==> x in s.free {
      if 2 <= x < limit + 2 {
        assert s.free[x - 2] == x;
      }
    }
  }

  // ---------- Completions ----------

  lemma {:induction false} CompleteKeepsSlots(s: State, slot: nat)
    requires SlotInv(s) && slot in s.busy && Polled(s, slot)
    ensures SlotInv(Complete(s, slot))
  {
    var t := Complete(s, slot);
    assert t.busy.Keys == s.busy.Keys - {slot};
    assert |t.busy.Keys| == |t.busy| && |s.busy.Keys| == |s.busy|;
    assert forall x :: x in t.free <==> x in s.free || x == slot;
  }

  lemma {:induction false} CompleteKeepsExclusion(s: State, slot: nat)
    requires ExclusionInv(s) && slot in s.busy && Polled(s, slot)
    ensures ExclusionInv(Complete(s, slot))
  {
    var d, t := s.busy[slot].job.src, Complete(s, slot);
    MonitoredFind(s.monitor, d);
    forall x ensures Pid(t.monitor, x) == if x == d then NO_WORKER else Pid(s.monitor, x) {
      FindAfterSet(s.monitor, d, NO_WORKER, x);
    }
    forall x | Pid(t.monitor, x) != NO_WORKER ensures BusyWith(t.busy, x) {
      var k :| k in s.busy && s.busy[k].job.src == x;
      assert t.busy[k] == s.busy[k];
    }
    QueueAfterSet(s.queue, s.monitor, d, NO_WORKER);
    FindAfterSet(s.monitor, d, NO_WORKER, d);
  }

  lemma {:induction false} CompleteKeepsSyncs(s: State, slot: nat)
    requires SyncInv(s) && slot in s.busy
    ensures SyncInv(Complete(s, slot))
  {
    var t := Complete(s, slot);
    forall src ensures SyncLoad(t.queue, t.busy, src) <= 1 {
      assert SyncLoad(s.queue, s.busy, src) <= 1;
      assert BusySync(t.busy, src) ==> BusySync(s.busy, src);
    }
  }

  lemma {:induction false} CompleteKeepsDescriptors(s: State, slot: nat)
    requires SlotInv(s) && Descriptors(s) && NoneStale(s) && slot in s.busy
    ensures Polled(s, slot) && Descriptors(Complete(s, slot)) && NoneStale(Complete(s, slot))
  {
  }

  /** The pipe of a slot with a worker can always be closed, and closing it closes no other slot's pipe. */
  lemma {:induction false} CompleteKeepsInv(s: State, slot: nat)
    requires Inv(s) && slot in s.busy
    ensures Inv(Complete(s, slot)) && Polled(s, slot)
    ensures Complete(s, slot).active == s.active - 1
  {
    hide SlotInv, ExclusionInv, SyncInv, Descriptors, NoneStale;
    CompleteKeepsDescriptors(s, slot);
    CompleteKeepsSlots(s, slot);
    CompleteKeepsExclusion(s, slot);
    CompleteKeepsSyncs(s, slot);
  }

  // ---------- Commands and events ----------

  /** A table that keeps every directory and every mark. */
  ghost predicate Extends(old': seq<Info>, new': seq<Info>) {
    && |old'| <= |new'|
    && (DistinctDirs(old') ==> DistinctDirs(new'))
    && (forall x :: Pid(new', x) == Pid(old', x))
    && (forall x :: Monitored(old', x) ==> Monitored(new', x))
  }

  lemma {:induction false} FindInAppended(monitor: seq<Info>, info: Info, x: string)
    ensures Find(monitor + [info], x)
         == if Find(monitor, x) < |monitor| then Find(monitor, x) else if info.src == x then |monitor| else |monitor| + 1
  {
    if monitor == [] {
      assert monitor + [info] == [info] && [info][1..] == [];
    } else {
      assert (monitor + [info])[1..] == monitor[1..] + [info];
      FindInAppended(monitor[1..], info, x);
    }
  }

  /** Changing an entry without its name and its mark. */
  lemma {:induction false} EntryChanges(monitor: seq<Info>, i: nat, info: Info)
    requires i < |monitor| && info.src == monitor[i].src && info.pid == monitor[i].pid
    ensures Extends(monitor, monitor[i := info])
    ensures forall x :: Find(monitor[i := info], x) == Find(monitor, x)
  {
    var m := monitor[i := info];
    forall x ensures Find(m, x) == Find(monitor, x) {
      FindBySource(monitor, m, x);
    }
    forall x ensures Monitored(monitor, x) ==> Monitored(m, x) {
      MonitoredFind(monitor, x);
      MonitoredFind(m, x);
    }
  }

  lemma {:induction false} WatchExtends(monitor: seq<Info>, src: string, tar: string, wd: int)
    ensures Extends(monitor, Watch(monitor, src, tar, wd))
    ensures Monitored(Watch(monitor, src, tar, wd), src)
  {
    var i, m := Find(monitor, src), Watch(monitor, src, tar, wd);
    if i < |monitor| {
      EntryChanges(monitor, i, m[i]);
      assert m[i].src == src;
    } else {
      forall x ensures Pid(m, x) == Pid(monitor, x) && (Monitored(monitor, x) ==> Monitored(m, x)) {
        FindInAppended(monitor, m[i], x);
        MonitoredFind(monitor, x);
        MonitoredFind(m, x);
      }
      assert m[i].src == src;
    }
  }

  lemma {:induction false} SyncAfterArrival(queue: seq<Job>, busy: map<nat, Task>, job: Job, src: string)
    ensures SyncLoad(queue + [job], busy, src) == SyncLoad(queue, busy, src) + if job.src == src && job.sync then 1 else 0
  {
    assert (queue + [job])[..|queue|] == queue;
  }

  /** A table that keeps directories and marks keeps exclusion, whatever jobs of its directories are queued. */
  lemma {:induction false} ExclusionInTable(s: State, t: State)
    requires ExclusionInv(s) && Extends(s.monitor, t.monitor) && t.busy == s.busy
    requires forall j :: j in t.queue ==> j in s.queue || Monitored(t.monitor, j.src)
    ensures ExclusionInv(t)
  {
    hide OnePerDir;
    assert Marks(t.monitor, t.busy);
    forall j | j in t.queue ensures Monitored(t.monitor, j.src) {
      if j in s.queue {
        assert Monitored(s.monitor, j.src);
      }
    }
  }

  lemma {:induction false} SameSlots(s: State, t: State)
    requires t == s.(queue := t.queue, monitor := t.monitor, shutDown := t.shutDown)
    ensures SlotInv(s) ==> SlotInv(t)
    ensures Descriptors(s) ==> Descriptors(t)
    ensures NoneStale(s) ==> NoneStale(t)
  {
  }

  /** One more job at the end of the queue, and a table that keeps its marks. */
  lemma {:induction false} ArrivalKeepsInv(s: State, t: State, job: Job)
    requires Inv(s) && t == s.(queue := s.queue + [job], monitor := t.monitor)
    requires Extends(s.monitor, t.monitor) && Monitored(t.monitor, job.src)
    requires job.sync ==> SyncLoad(s.queue, s.busy, job.src) == 0
    ensures Inv(t)
  {
    forall src ensures SyncLoad(t.queue, t.busy, src) <= 1 {
      assert SyncLoad(s.queue, s.busy, src) <= 1;
      SyncAfterArrival(s.queue, s.busy, job, src);
    }
    hide SlotInv, ExclusionInv, Extends, Descriptors, NoneStale, SyncLoad, Monitored;
    SameSlots(s, t);
    ExclusionInTable(s, t);
  }

  lemma {:induction false} AddKeepsInv(s: State, src: string, tar: string, wd: int)
    requires Inv(s)
    ensures Inv(Add(s, src, tar, wd))
    ensures |s.monitor| <= |Add(s, src, tar, wd).monitor|
  {
    hide Inv, Extends;
    var t := Add(s, src, tar, wd);
    if t != s {
      WatchExtends(s.monitor, src, tar, wd);
      ArrivalKeepsInv(s, t, Job(src, tar, "ALL", Full, false));
    }
  }

  lemma {:induction false} NothingToSync(s: State, src: string)
    requires ExclusionInv(s) && Pid(s.monitor, src) == NO_WORKER && !JobRemoval.Queued(s.queue, src)
    ensures SyncLoad(s.queue, s.busy, src) == 0
  {
    forall j | j in s.queue ensures !IsSyncOf(src)(j) {
      var i :| 0 <= i < |s.queue| && s.queue[i] == j;
    }
    FilterNone(s.queue, IsSyncOf(src));
  }

  lemma {:induction false} SyncKeepsInv(s: State, src: string, wd: int)
    requires Inv(s)
    ensures Inv(Sync(s, src, wd))
    ensures |s.monitor| <= |Sync(s, src, wd).monitor|
  {
    var t, i := Sync(s, src, wd), Find(s.monitor, src);
    if t != s {
      NothingToSync(s, src);
      MonitoredFind(s.monitor, src);
      WatchExtends(s.monitor, src, s.monitor[i].tar, wd);
      EntryChanges(s.monitor, i, s.monitor[i]);
      assert s.monitor[i := s.monitor[i]] == s.monitor;
      hide Inv, Extends;
      ArrivalKeepsInv(s, t, Job(src, s.monitor[i].tar, "ALL", Full, true));
    }
  }

  lemma {:induction false} ReadKeepsInv(s: State, e: Event)
    requires Inv(s) && Readable(s, e)
    ensures Inv(Read(s, e))
  {
    if e.kind != Other {
      var i := FindWatch(s.monitor, e.wd);
      EntryChanges(s.monitor, i, s.monitor[i]);
      assert s.monitor[i := s.monitor[i]] == s.monitor;
      var info := s.monitor[i];
      assert Monitored(s.monitor, info.src);
      hide Inv, Extends;
      ArrivalKeepsInv(s, Read(s, e), Job(info.src, info.tar, e.name, OpOf(e.kind), false));
    }
  }

  lemma {:induction false} FilterTwice<T>(q: seq<T>, p: T -> bool, r: T -> bool)
    ensures |Filter(Filter(q, p), r)| <= |Filter(q, r)|
    ensures (forall x :: x in q && r(x) ==> p(x)) ==> Filter(Filter(q, p), r) == Filter(q, r)
  {
    if q != [] {
      var init, last := q[..|q| - 1], q[|q| - 1];
      assert q == init + [last];
      FilterTwice(init, p, r);
      FilterAppend(Filter(init, p), [last], r);
      assert [last][..0] == [];
      assert Filter(init, p) + [] == Filter(init, p);
    }
  }

  lemma {:induction false} SyncAfterCancel(s: State, src: string)
    requires SyncInv(s)
    ensures SyncInv(Cancel(s, src))
  {
    var t := Cancel(s, src);
    forall x ensures SyncLoad(t.queue, t.busy, x) <= 1 {
      assert SyncLoad(s.queue, s.busy, x) <= 1;
      FilterTwice(s.queue, JobRemoval.OtherJobs(src), IsSyncOf(x));
    }
  }

  lemma {:induction false} CancelKeepsInv(s: State, src: string)
    requires Inv(s)
    ensures Inv(Cancel(s, src))
  {
    var t, i := Cancel(s, src), Find(s.monitor, src);
    SyncAfterCancel(s, src);
    if IsActive(s.monitor, src) {
      forall j | j in t.queue ensures j in s.queue {
        FilterMember(s.queue, JobRemoval.OtherJobs(src), j);
      }
      hide SlotInv, ExclusionInv, SyncInv, Extends, Descriptors, NoneStale, JobRemoval.Without;
      EntryChanges(s.monitor, i, t.monitor[i]);
      SameSlots(s, t);
      ExclusionInTable(s, t);
    }
  }

  // ---------- Every run ----------

  /** Every step keeps the invariants; the table never shrinks, and a shutdown is never taken back. */
  lemma {:induction false} StepKeepsInv(s: State, x: Step)
    requires Inv(s) && Enabled(s, x)
    ensures Inv(Next(s, x))
    ensures |s.monitor| <= |Next(s, x).monitor| && Next(s, x).limit == s.limit
    ensures s.shutDown ==> Next(s, x).shutDown
  {
    hide Inv, SetupsAreSound, SlotsSuffice;
    match x {
      case DoPass(r) => PassKeepsInv(s, |s.queue|, r); PassKeepsTable(s, |s.queue|, r);
      case DoComplete(slot) => CompleteKeepsInv(s, slot);
      case DoAdd(src, tar, wd) => AddKeepsInv(s, src, tar, wd);
      case DoCancel(src) => CancelKeepsInv(s, src);
      case DoSync(src, wd) => SyncKeepsInv(s, src, wd);
      case DoRead(e) => ReadKeepsInv(s, e);
      case DoShutDown => ShutDownKeepsInv(s);
    }
  }

  lemma {:induction false} ShutDownKeepsInv(s: State)
    requires Inv(s)
    ensures Inv(s.(shutDown := true))
  {
  }

  ghost predicate Run(s: State, run: seq<Step>)
    decreases |run|
  {
    run == [] || (Enabled(s, run[0]) && Run(Next(s, run[0]), run[1..]))
  }

  ghost function After(s: State, run: seq<Step>): State
    requires Run(s, run)
    decreases |run|
  {
    if run == [] then s else After(Next(s, run[0]), run[1..])
  }

  lemma {:induction false} RunKeepsInv(s: State, run: seq<Step>)
    requires Inv(s) && Run(s, run)
    ensures Inv(After(s, run))
    ensures |s.monitor| <= |After(s, run).monitor| && After(s, run).limit == s.limit
    decreases |run|
  {
    hide Inv, Possible, SetupsAreSound, Next;
    if run != [] {
      StepKeepsInv(s, run[0]);
      RunKeepsInv(Next(s, run[0]), run[1..]);
    }
  }

  // ---------- What failed forks lead to ----------

  /** A run in which pipes may get any number. */
  ghost predicate LooseRun(s: State, run: seq<Step>)
    decreases |run|
  {
    run == [] || (Possible(s, run[0]) && LooseRun(Next(s, run[0]), run[1..]))
  }

  /** In no state on the way poll can report a slot without a worker. */
  ghost predicate AlwaysSound(s: State, run: seq<Step>)
    requires LooseRun(s, run)
    decreases |run|
  {
    ReportsAreSound(s) && (run == [] || AlwaysSound(Next(s, run[0]), run[1..]))
  }

  lemma {:induction false} SoundNow(s: State)
    requires Inv(s)
    ensures ReportsAreSound(s) && forall x :: x in s.busy ==> Polled(s, x)
  {
    ReportsAreSoundExactlyWhen(s);
  }

  /**
   * Over a whole run, every report that poll lets the manager read is one of a worker exactly when no pass starts
   * a worker whose pipe gets a number that a failed fork left behind.
   */
  lemma {:induction false} RunIsSoundExactlyWhen(s: State, run: seq<Step>)
    requires Inv(s) && LooseRun(s, run)
    ensures AlwaysSound(s, run) <==> Run(s, run)
    decreases |run|
  {
    hide Inv, Possible, SetupsAreSound, ReportsAreSound, Next, Pass, SlotsSuffice;
    SoundNow(s);
    if run != [] {
      if Enabled(s, run[0]) {
        StepKeepsInv(s, run[0]);
        RunIsSoundExactlyWhen(Next(s, run[0]), run[1..]);
      } else {
        UnsoundPass(s, run[0]);
      }
    }
  }

  lemma {:induction false} UnsoundPass(s: State, x: Step)
    requires Inv(s) && Possible(s, x) && !Enabled(s, x)
    ensures !ReportsAreSound(Next(s, x))
  {
    hide Inv, SetupsAreSound, ReportsAreSound, Pass, SlotsSuffice;
    PassIsSoundExactlyWhen(s, |s.queue|, x.r);
  }

  /**
   * In every state reached with sound setups: no two slots work on one directory; a directory carries a pid exactly
   * when a slot works on it; is_working answers 0 or 1 for a queued job; the worker slots are free, busy or lost,
   * each once; poll can report exactly the busy ones; and each directory has at most one console sync.
   */
  lemma {:induction false} EveryReachableState(limit: nat, open: set<nat>, run: seq<Step>)
    requires 0 < limit && Run(Init(limit, open), run)
    ensures var s := After(Init(limit, open), run);
            && (forall k, l :: k in s.busy && l in s.busy && k != l ==> s.busy[k].job.src != s.busy[l].job.src)
            && (forall src :: Pid(s.monitor, src) != NO_WORKER <==> BusyWith(s.busy, src))
            && (forall j :: j in s.queue ==> IsWorking(s.monitor, j.src) == if BusyWith(s.busy, j.src) then 1 else 0)
            && |s.free| + s.active + |s.lost| == limit && 0 <= s.active <= limit
            && (forall x :: Polled(s, x) <==> x in s.busy)
            && (forall src :: SyncLoad(s.queue, s.busy, src) <= 1)
  {
    InitInv(limit, open);
    RunKeepsInv(Init(limit, open), run);
    var s := After(Init(limit, open), run);
    hide Run, After;
    SlotConservation(s);
    SoundNow(s);
    forall j | j in s.queue ensures IsWorking(s.monitor, j.src) == if BusyWith(s.busy, j.src) then 1 else 0 {
      WorkingMeansBusy(s, j.src);
    }
    forall src ensures Pid(s.monitor, src) != NO_WORKER <==> BusyWith(s.busy, src) {
      if BusyWith(s.busy, src) {
        var k :| k in s.busy && s.busy[k].job.src == src;
      }
    }
  }

  // ---------- Shutdown ----------

  /** Starting a job or reading a report always lowers it. */
  function Work(s: State): int {
    2 * |s.queue| + s.active
  }

  /** The test at the end of the dispatch pass that ends the manager. */
  predicate Done(s: State) {
    s.shutDown && s.queue == [] && s.active == 0
  }

  lemma {:induction false} TurnNeverAddsWork(s: State, r: Setup)
    requires s.queue != []
    ensures var t := DispatchOne(s, r);
            Work(t) <= Work(s) - (|s.queue| - |t.queue|) && |s.queue| - 1 <= |t.queue| <= |s.queue|
  {
    hide IsWorking, ReadEnd, SetPid;
  }

  lemma {:induction false} PassNeverAddsWork(s: State, n: nat, r: seq<Setup>)
    requires n <= |s.queue| && n <= |r|
    ensures var t := Pass(s, n, r); Work(t) <= Work(s) - (|s.queue| - |t.queue|) && |t.queue| <= |s.queue|
    decreases n
  {
    hide DispatchOne, Work;
    if n != 0 && Available(s) != 0 {
      TurnNeverAddsWork(s, r[0]);
      PassNeverAddsWork(DispatchOne(s, r[0]), n - 1, r[1..]);
    }
  }

  /** One turn of the loop after a shutdown: what the setups yield, and the slots whose reports are then read. */
  datatype Round = Round(setups: seq<Setup>, ready: seq<nat>)

  ghost predicate Ready(s: State, ready: seq<nat>)
    decreases |ready|
  {
    ready == [] || (ready[0] in s.busy && Polled(s, ready[0]) && Ready(Complete(s, ready[0]), ready[1..]))
  }

  ghost function CompleteAll(s: State, ready: seq<nat>): State
    requires Ready(s, ready)
    decreases |ready|
  {
    if ready == [] then s else CompleteAll(Complete(s, ready[0]), ready[1..])
  }

  ghost predicate Rounds(s: State, rounds: seq<Round>)
    decreases |rounds|
  {
    rounds == [] || (
      && |s.queue| <= |rounds[0].setups| && SetupsAreSound(s, |s.queue|, rounds[0].setups)
      && var t := Pass(s, |s.queue|, rounds[0].setups);
         !Done(t) && Ready(t, rounds[0].ready) && Rounds(CompleteAll(t, rounds[0].ready), rounds[1..]))
  }

  ghost function AfterRounds(s: State, rounds: seq<Round>): State
    requires Rounds(s, rounds)
    decreases |rounds|
  {
    if rounds == [] then s
    else AfterRounds(CompleteAll(Pass(s, |s.queue|, rounds[0].setups), rounds[0].ready), rounds[1..])
  }

  function Reports(rounds: seq<Round>): nat {
    if rounds == [] then 0 else |rounds[0].ready| + Reports(rounds[1..])
  }

  lemma {:induction false} CompleteAllEffect(s: State, ready: seq<nat>)
    requires Inv(s) && Ready(s, ready)
    ensures var t := CompleteAll(s, ready);
            Inv(t) && Work(t) == Work(s) - |ready| && t.shutDown == s.shutDown
    decreases |ready|
  {
    hide Inv;
    if ready != [] {
      CompleteKeepsInv(s, ready[0]);
      CompleteAllEffect(Complete(s, ready[0]), ready[1..]);
    }
  }

  /** The loop ends exactly when no work is left; until then poll has a worker to wait for. */
  lemma {:induction false} DoneOrWaiting(s: State, r: seq<Setup>)
    requires Inv(s) && s.shutDown && |s.queue| <= |r| && SetupsAreSound(s, |s.queue|, r)
    ensures var t := Pass(s, |s.queue|, r); (Done(t) <==> Work(t) == 0) && (!Done(t) ==> t.busy != map[])
  {
    PassKeepsInv(s, |s.queue|, r);
    PassKeepsTable(s, |s.queue|, r);
    NoStall(s, r);
  }

  /** After a shutdown no more reports are read than there was work, so the loop ends once workers finish. */
  lemma {:induction false} ShutdownIsBounded(s: State, rounds: seq<Round>)
    requires Inv(s) && s.shutDown && Rounds(s, rounds)
    ensures Reports(rounds) + Work(AfterRounds(s, rounds)) <= Work(s)
    ensures Inv(AfterRounds(s, rounds)) && 0 <= Work(AfterRounds(s, rounds))
    decreases |rounds|
  {
    if rounds == [] {
      assert s.active == |s.busy|;
    } else {
      hide Inv, Work, Done, SetupsAreSound, Ready, CompleteAll;
      var t := Pass(s, |s.queue|, rounds[0].setups);
      PassKeepsInv(s, |s.queue|, rounds[0].setups);
      PassKeepsTable(s, |s.queue|, rounds[0].setups);
      PassNeverAddsWork(s, |s.queue|, rounds[0].setups);
      CompleteAllEffect(t, rounds[0].ready);
      ShutdownIsBounded(CompleteAll(t, rounds[0].ready), rounds[1..]);
    }
  }

  // ---------- First in, first out, for each directory and whole runs ----------

  /** The jobs a step puts into the queue. */
  ghost function Arrivals(s: State, x: Step): seq<Job>
    requires Possible(s, x)
  {
    if (x.DoAdd? || x.DoSync? || x.DoRead?) && |Next(s, x).queue| > |s.queue| then Next(s, x).queue[|s.queue|..] else []
  }

  /** The jobs a step starts. */
  ghost function Starts(s: State, x: Step): seq<Job>
    requires Possible(s, x)
  {
    if x.DoPass? then Launched(s, StopAt(s)) else []
  }

  ghost function Arrived(s: State, run: seq<Step>): seq<Job>
    requires Run(s, run)
    decreases |run|
  {
    if run == [] then [] else Arrivals(s, run[0]) + Arrived(Next(s, run[0]), run[1..])
  }

  ghost function Begun(s: State, run: seq<Step>): seq<Job>
    requires Run(s, run)
    decreases |run|
  {
    if run == [] then [] else Starts(s, run[0]) + Begun(Next(s, run[0]), run[1..])
  }

  /** Every setup succeeds, src is not cancelled, and each pass keeps the order of its jobs. */
  ghost predicate Orderly(s: State, run: seq<Step>, src: string)
    requires Run(s, run)
    decreases |run|
  {
    run == [] || (
      && (run[0].DoPass? ==> AllStarted(run[0].r) && KeepsOrder(s, src))
      && run[0] != DoCancel(src)
      && Orderly(Next(s, run[0]), run[1..], src))
  }

  /** A step that is no pass and no cancel only appends. */
  lemma {:induction false} OthersAppend(s: State, x: Step)
    requires Enabled(s, x) && !x.DoPass? && !x.DoCancel?
    ensures Next(s, x).queue == s.queue + Arrivals(s, x)
  {
    var t := Next(s, x);
    assert t.queue == s.queue || (|t.queue| == |s.queue| + 1 && t.queue[..|s.queue|] == s.queue);
    assert s.queue + [] == s.queue;
    assert (x.DoComplete? || x.DoShutDown?) ==> t.queue == s.queue;
  }

  lemma {:induction false} StepKeepsOrder(s: State, x: Step, src: string)
    requires Inv(s) && Enabled(s, x)
    requires (x.DoPass? ==> AllStarted(x.r) && KeepsOrder(s, src)) && x != DoCancel(src)
    ensures JobsOf(s.queue + Arrivals(s, x), src) == JobsOf(Starts(s, x) + Next(s, x).queue, src)
  {
    hide Inv, SlotsSuffice, SetupsAreSound, JobsOf, KeepsOrder, Pass, Launched, StopAt, StartedOf;
    if x.DoPass? {
      PassKeepsOrder(s, x.r, src);
      JobsOfConcat(Launched(s, StopAt(s)), Next(s, x).queue, src);
      assert s.queue + [] == s.queue;
    } else {
      assert [] + Next(s, x).queue == Next(s, x).queue;
      if x.DoCancel? {
        CancelKeepsJobsOf(s, x.src, src);
        assert s.queue + [] == s.queue;
      } else {
        OthersAppend(s, x);
      }
    }
  }

  lemma {:induction false} CancelKeepsJobsOf(s: State, other: string, src: string)
    requires other != src
    ensures JobsOf(Cancel(s, other).queue, src) == JobsOf(s.queue, src)
  {
    FilterTwice(s.queue, JobRemoval.OtherJobs(other), Inside(src));
  }

  /**
   * Over a whole run without failed setups (there may have been some before) whose passes each keep the order of a
   * directory's jobs, the jobs that arrive for it are those that have been started followed by those that still wait,
   * in this order.
   */
  lemma {:induction false} FifoPerDirectory(s: State, run: seq<Step>, src: string)
    requires Inv(s) && Run(s, run) && Orderly(s, run, src)
    ensures JobsOf(s.queue + Arrived(s, run), src) == JobsOf(Begun(s, run) + After(s, run).queue, src)
    decreases |run|
  {
    if run == [] {
      assert s.queue + [] == s.queue == [] + s.queue;
    } else {
      var x, t := run[0], Next(s, run[0]);
      hide Inv, Possible, SetupsAreSound, Next, Arrivals, Starts, KeepsOrder;
      StepKeepsInv(s, x);
      StepKeepsOrder(s, x, src);
      FifoPerDirectory(t, run[1..], src);
      FifoSteps(s.queue, Arrivals(s, x), Arrived(t, run[1..]), t.queue, Starts(s, x), Begun(t, run[1..]),
                After(t, run[1..]).queue, src);
    }
  }

  /** Every setup succeeds, and src is not cancelled. */
  ghost predicate Smooth(run: seq<Step>, src: string) {
    && (forall i :: 0 <= i < |run| && run[i].DoPass? ==> AllStarted(run[i].r))
    && DoCancel(src) !in run
  }

  /** With more workers than directories no pass stops early, so every such run is orderly. */
  lemma {:induction false} EnoughWorkersAreOrderly(s: State, run: seq<Step>, src: string)
    requires Inv(s) && Run(s, run) && Smooth(run, src) && |After(s, run).monitor| < s.limit
    ensures Orderly(s, run, src)
    decreases |run|
  {
    if run != [] {
      var x, t := run[0], Next(s, run[0]);
      assert x in run && (forall i :: 0 <= i < |run[1..]| ==> run[1..][i] == run[i + 1]);
      hide Inv, SetupsAreSound, Next, KeepsOrder, SlotsSuffice;
      StepKeepsInv(s, x);
      RunKeepsInv(t, run[1..]);
      if x.DoPass? {
        EnoughWorkersKeepOrder(s, x.r, src);
      }
      StepKeepsOrder(s, x, src);
      EnoughWorkersAreOrderly(t, run[1..], src);
    }
  }

  lemma {:induction false} FifoSteps(q: seq<Job>, a: seq<Job>, more: seq<Job>, q': seq<Job>, b: seq<Job>, more': seq<Job>,
                                     last: seq<Job>, src: string)
    requires JobsOf(q + a, src) == JobsOf(b + q', src) && JobsOf(q' + more, src) == JobsOf(more' + last, src)
    ensures JobsOf(q + (a + more), src) == JobsOf((b + more') + last, src)
  {
    hide JobsOf;
    var jobs, jobs' := JobsOf(q', src), JobsOf(more, src);
    assert q + (a + more) == (q + a) + more && (b + more') + last == b + (more' + last);
    JobsOfConcat(q + a, more, src);
    JobsOfConcat(b, q', src);
    JobsOfConcat(q', more, src);
    JobsOfConcat(b, more' + last, src);
    assert (JobsOf(b, src) + jobs) + jobs' == JobsOf(b, src) + (jobs + jobs');
  }
}
