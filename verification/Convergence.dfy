// The whole manager seen from one directory: every run of the scheduler, of the events of all directories and of
// that directory's worker is a run of Mirror, so the directory's target converges.
module Convergence {
  import opened Sequences
  import opened Jobs
  import opened Scheduler
  import opened Dispatch
  import opened DispatchOrder
  import JobRemoval
  import SchedulerRuns
  import Mirror

  /** The directory, its target and its watch. */
  datatype Watched = Watched(dir: string, tar: string, wd: int)

  /** The manager, the unread events of all watches, the directory's files and how far its worker is. */
  datatype World = World(s: State, kernel: seq<Event>, src: Mirror.Files, tar: Mirror.Files, work: Mirror.Work)

  datatype Step =
    | Manager(step: SchedulerRuns.Step)
    | ReadEvent
    | Edit(move: Mirror.Move)
    | ElsewhereEvent(e: Event)
    | Worker(move: Mirror.Move)

  function KindOf(op: Op): EventKind
    requires op != Full
  {
    match op case Added => Create case Modified => Modify case Deleted => Delete
  }

  function EventOf(d: Watched, x: Mirror.Move): Event
    requires Mirror.IsEdit(x)
  {
    var c := Mirror.ChangeOf(x); Event(d.wd, KindOf(c.op), c.file)
  }

  /** No setup fails, different directories have different watches, and the directory is not cancelled. */
  ghost predicate ManagerMay(d: Watched, w: World, x: SchedulerRuns.Step) {
    && SchedulerRuns.Enabled(w.s, x)
    && match x
       case DoPass(r) => AllStarted(r)
       case DoComplete(slot) => w.s.busy[slot].job.src == d.dir ==> w.work == Mirror.Finished
       case DoAdd(src, _, wd) => src != d.dir ==> wd != d.wd
       case DoSync(src, wd) => src != d.dir ==> wd != d.wd
       case DoCancel(src) => src != d.dir
       case DoRead(_) => false
       case DoShutDown => true
  }

  predicate EditMay(d: Watched, w: World, x: Mirror.Move) {
    && Mirror.IsEdit(x)
    && (x.file in w.src <==> !x.Create?)
    && (x.merge ==> w.kernel != [] && w.kernel[|w.kernel| - 1] == EventOf(d, x))
  }

  predicate WorkerMay(w: World, x: Mirror.Move) {
    && (x.Act? || x.Scribble? || x.Close? || x.Pick? || x.ListEnd?)
    && Mirror.Enabled(Mirror.State(w.src, w.tar, [], [], w.work), x)
  }

  ghost predicate Enabled(d: Watched, w: World, x: Step) {
    match x
    case Manager(y) => ManagerMay(d, w, y)
    case ReadEvent => w.kernel != [] && SchedulerRuns.Enabled(w.s, SchedulerRuns.DoRead(w.kernel[0]))
    case Edit(y) => EditMay(d, w, y)
    case ElsewhereEvent(e) => e.wd != d.wd || e.kind == Other
    case Worker(y) => WorkerMay(w, y)
  }

  /** The job the directory's worker has. */
  ghost function RunningJob(busy: map<nat, Task>, dir: string): Job
    requires BusyWith(busy, dir)
  {
    var k :| k in busy && busy[k].job.src == dir; busy[k].job
  }

  /** What a step of the manager means for the directory's worker. */
  ghost function WorkAfter(d: Watched, s: State, t: State, work: Mirror.Work): Mirror.Work {
    if !BusyWith(t.busy, d.dir) then Mirror.NoWork
    else if BusyWith(s.busy, d.dir) then work
    else Mirror.Todo(AsChange(RunningJob(t.busy, d.dir)))
  }

  ghost function With(d: Watched, w: World, t: State): World {
    w.(s := t, work := WorkAfter(d, w.s, t, w.work))
  }

  function ByRead(w: World): World
    requires w.kernel != [] && Readable(w.s, w.kernel[0])
  {
    w.(s := Read(w.s, w.kernel[0]), kernel := w.kernel[1..])
  }

  function ByWorker(w: World, x: Mirror.Move): World
    requires WorkerMay(w, x)
  {
    var m := Mirror.Next(Mirror.State(w.src, w.tar, [], [], w.work), x); w.(tar := m.tar, work := m.work)
  }

  ghost function Next(d: Watched, w: World, x: Step): World
    requires Enabled(d, w, x)
  {
    match x
    case Manager(y) => With(d, w, SchedulerRuns.Next(w.s, y))
    case ReadEvent => ByRead(w)
    case Edit(y) =>
      w.(src := if y.Delete? then w.src - {y.file} else w.src[y.file := y.data],
         kernel := if y.merge then w.kernel else w.kernel + [EventOf(d, y)],
         work := Mirror.Disturb(w.work, y))
    case ElsewhereEvent(e) => w.(kernel := w.kernel + [e])
    case Worker(y) => ByWorker(w, y)
  }

  // ---------- The directory's view ----------

  function AsChange(job: Job): Mirror.Change {
    Mirror.Change(job.op, job.file)
  }

  function AsChanges(jobs: seq<Job>): (r: seq<Mirror.Change>)
    ensures |r| == |jobs| && forall i :: 0 <= i < |r| ==> r[i] == AsChange(jobs[i])
  {
    seq(|jobs|, i requires 0 <= i < |jobs| => AsChange(jobs[i]))
  }

  predicate Concerns(d: Watched, e: Event) {
    e.wd == d.wd && e.kind != Other
  }

  function ChangeIn(e: Event): Mirror.Change
    requires e.kind != Other
  {
    Mirror.Change(OpOf(e.kind), e.name)
  }

  function EventsOf(d: Watched, kernel: seq<Event>): seq<Mirror.Change> {
    if kernel == [] then []
    else
      var e := kernel[|kernel| - 1];
      EventsOf(d, kernel[..|kernel| - 1]) + if Concerns(d, e) then [ChangeIn(e)] else []
  }

  ghost function View(d: Watched, w: World): Mirror.State {
    Mirror.State(w.src, w.tar, EventsOf(d, w.kernel), AsChanges(JobsOf(w.s.queue, d.dir)), w.work)
  }

  /** The directory is in the table, active, and the only one with its watch. */
  ghost predicate TableInv(d: Watched, monitor: seq<Info>) {
    && var i := Find(monitor, d.dir);
       && i < |monitor|
       && monitor[i].tar == d.tar && monitor[i].wd == d.wd && monitor[i].active
       && forall j :: 0 <= j < |monitor| && j != i ==> monitor[j].wd != d.wd
  }

  ghost predicate ManagerInv(d: Watched, s: State) {
    Inv(s) && TableInv(d, s.monitor)
  }

  ghost predicate WorldInv(d: Watched, w: World) {
    && ManagerInv(d, w.s)
    && (BusyWith(w.s.busy, d.dir) <==> w.work != Mirror.NoWork)
  }

  lemma {:induction false} EventsAppend(d: Watched, kernel: seq<Event>, e: Event)
    ensures EventsOf(d, kernel + [e])
         == EventsOf(d, kernel) + if Concerns(d, e) then [ChangeIn(e)] else []
  {
    assert (kernel + [e])[..|kernel|] == kernel;
  }

  lemma {:induction false} EventsHead(d: Watched, kernel: seq<Event>)
    requires kernel != []
    ensures var e := kernel[0];
            EventsOf(d, kernel) == (if Concerns(d, e) then [ChangeIn(e)] else []) + EventsOf(d, kernel[1..])
  {
    var init, e := kernel[..|kernel| - 1], kernel[|kernel| - 1];
    if init == [] {
      assert kernel[1..] == [];
    } else {
      EventsHead(d, init);
      assert kernel[1..] == init[1..] + [e];
      EventsAppend(d, init[1..], e);
    }
  }

  // ---------- The table ----------

  lemma {:induction false} SameEntries(d: Watched, a: seq<Info>, b: seq<Info>)
    requires TableInv(d, a) && |a| == |b|
    requires forall i :: 0 <= i < |a| ==> b[i] == a[i].(pid := b[i].pid)
    ensures TableInv(d, b)
  {
    FindBySource(a, b, d.dir);
  }

  lemma {:induction false} PassKeepsEntries(s: State, n: nat, r: seq<Setup>)
    requires n <= |s.queue| && n <= |r|
    ensures var t := Pass(s, n, r);
            && |t.monitor| == |s.monitor|
            && forall i :: 0 <= i < |s.monitor| ==> t.monitor[i] == s.monitor[i].(pid := t.monitor[i].pid)
    decreases n
  {
    hide IsWorking, ReadEnd;
    if n != 0 && Available(s) != 0 {
      PassKeepsEntries(DispatchOne(s, r[0]), n - 1, r[1..]);
    }
  }

  lemma {:induction false} WatchElsewhere(d: Watched, monitor: seq<Info>, src: string, tar: string, wd: int)
    requires TableInv(d, monitor) && src != d.dir && wd != d.wd
    ensures TableInv(d, Watch(monitor, src, tar, wd))
  {
    var i, m := Find(monitor, src), Watch(monitor, src, tar, wd);
    if i < |monitor| {
      FindBySource(monitor, m, d.dir);
    } else {
      SchedulerRuns.FindInAppended(monitor, m[i], d.dir);
    }
  }

  // ---------- Each step is at most one move ----------

  /** The moves lead from one view to the other. */
  ghost predicate Leads(v: Mirror.State, moves: seq<Mirror.Move>, v': Mirror.State) {
    Mirror.Run(v, moves) && Mirror.After(v, moves) == v'
  }

  lemma {:induction false} NoMove(v: Mirror.State)
    ensures Leads(v, [], v) && Mirror.Edited([]) == {}
  {
  }

  lemma {:induction false} OneMove(v: Mirror.State, x: Mirror.Move)
    requires Mirror.Enabled(v, x)
    ensures Leads(v, [x], Mirror.Next(v, x))
    ensures Mirror.Edited([x]) == if Mirror.IsEdit(x) then {x.file} else {}
  {
    var v' := Mirror.Next(v, x);
    hide Mirror.Enabled, Mirror.Next;
    assert [x][1..] == [];
    assert Mirror.Run(v', []) && Mirror.After(v', []) == v';
  }

  lemma {:induction false} RunningIs(busy: map<nat, Task>, job: Job)
    requires OnePerDir(busy) && Runs(busy, job)
    ensures BusyWith(busy, job.src) && RunningJob(busy, job.src) == job
  {
  }

  lemma {:induction false} JobsOfHead(queue: seq<Job>, src: string)
    requires JobsOf(queue, src) != []
    ensures JobsOf(queue, src)[0].src == src
  {
    FilterMember(queue, Inside(src), JobsOf(queue, src)[0]);
  }

  lemma {:induction false} StartedIsOf(s: State, dir: string)
    requires StartedOf(s, dir) != []
    ensures |StartedOf(s, dir)| == 1 && StartedOf(s, dir)[0].src == dir && !BusyWith(s.busy, dir)
  {
    JobsOfHead(s.queue[..StopAt(s)], dir);
  }

  lemma {:induction false} PassEffect(d: Watched, s: State, r: seq<Setup>)
    requires ManagerInv(d, s) && |s.queue| <= |r| && AllStarted(r) && SetupsAreSound(s, |s.queue|, r)
    requires KeepsOrder(s, d.dir)
    ensures var t, started := Pass(s, |s.queue|, r), StartedOf(s, d.dir);
            && ManagerInv(d, t)
            && (BusyWith(t.busy, d.dir) <==> BusyWith(s.busy, d.dir) || started != [])
            && JobsOf(s.queue, d.dir) == started + JobsOf(t.queue, d.dir)
            && (started != [] ==> |started| == 1 && !BusyWith(s.busy, d.dir) && RunningJob(t.busy, d.dir) == started[0])
  {
    var t, started := Pass(s, |s.queue|, r), StartedOf(s, d.dir);
    PassKeepsEntries(s, |s.queue|, r);
    PassKeepsOrder(s, r, d.dir);
    hide Pass, JobsOf, BusyWith, Runs, StartedOf, KeepsOrder, Launched, StopAt, SetupsAreSound;
    SameEntries(d, s.monitor, t.monitor);
    if started != [] {
      StartedIsOf(s, d.dir);
      hide SlotInv, SyncInv, Marks, TableInv, RunningJob, Descriptors, NoneStale;
      RunningIs(t.busy, started[0]);
    }
  }

  /** The directory's first job goes to a worker. */
  lemma {:induction false} FirstJobStarts(d: Watched, w: World, t: State)
    requires WorldInv(d, w) && ManagerInv(d, t) && JobsOf(w.s.queue, d.dir) != []
    requires !BusyWith(w.s.busy, d.dir) && BusyWith(t.busy, d.dir)
    requires var jobs := JobsOf(w.s.queue, d.dir);
             JobsOf(t.queue, d.dir) == jobs[1..] && RunningJob(t.busy, d.dir) == jobs[0]
    ensures WorldInv(d, With(d, w, t)) && Leads(View(d, w), [Mirror.Begin], View(d, With(d, w, t)))
    ensures Mirror.Edited([Mirror.Begin]) == {}
  {
    hide ManagerInv, JobsOf, BusyWith, RunningJob, EventsOf, Leads;
    assert AsChanges(JobsOf(w.s.queue, d.dir))[1..] == AsChanges(JobsOf(t.queue, d.dir));
    OneMove(View(d, w), Mirror.Begin);
  }

  /** The directory's worker has reported. */
  lemma {:induction false} WorkerReports(d: Watched, w: World, t: State)
    requires WorldInv(d, w) && ManagerInv(d, t) && t.queue == w.s.queue
    requires w.work == Mirror.Finished && !BusyWith(t.busy, d.dir)
    ensures WorldInv(d, With(d, w, t)) && Leads(View(d, w), [Mirror.Report], View(d, With(d, w, t)))
    ensures Mirror.Edited([Mirror.Report]) == {}
  {
    hide ManagerInv, JobsOf, BusyWith, EventsOf, Leads;
    OneMove(View(d, w), Mirror.Report);
  }

  /** A full copy joins the queue. */
  lemma {:induction false} FullJobArrives(d: Watched, w: World, t: State, job: Job)
    requires WorldInv(d, w) && ManagerInv(d, t) && t.busy == w.s.busy && AsChange(job) == Mirror.ALL
    requires JobsOf(t.queue, d.dir) == JobsOf(w.s.queue, d.dir) + [job]
    ensures WorldInv(d, With(d, w, t)) && Leads(View(d, w), [Mirror.FullSync], View(d, With(d, w, t)))
    ensures Mirror.Edited([Mirror.FullSync]) == {}
  {
    hide ManagerInv, JobsOf, BusyWith, EventsOf, Leads;
    assert AsChanges(JobsOf(t.queue, d.dir)) == AsChanges(JobsOf(w.s.queue, d.dir)) + [Mirror.ALL];
    OneMove(View(d, w), Mirror.FullSync);
  }

  /** A step that changes neither the directory's jobs nor its worker is invisible. */
  lemma {:induction false} Invisible(d: Watched, w: World, t: State)
    requires WorldInv(d, w) && ManagerInv(d, t) && JobsOf(t.queue, d.dir) == JobsOf(w.s.queue, d.dir)
    requires BusyWith(t.busy, d.dir) <==> BusyWith(w.s.busy, d.dir)
    ensures WorldInv(d, With(d, w, t)) && Leads(View(d, w), [], View(d, With(d, w, t)))
    ensures Mirror.Edited([]) == {}
  {
    hide ManagerInv, JobsOf, BusyWith;
    NoMove(View(d, w));
  }

  lemma {:induction false} PassMoves(d: Watched, w: World, r: seq<Setup>) returns (moves: seq<Mirror.Move>)
    requires WorldInv(d, w) && |w.s.queue| <= |r| && AllStarted(r) && SetupsAreSound(w.s, |w.s.queue|, r)
    requires KeepsOrder(w.s, d.dir)
    ensures var v := With(d, w, Pass(w.s, |w.s.queue|, r)); WorldInv(d, v) && Leads(View(d, w), moves, View(d, v))
    ensures Mirror.Edited(moves) == {}
  {
    var t := Pass(w.s, |w.s.queue|, r);
    var started := StartedOf(w.s, d.dir);
    hide Pass, JobsOf, BusyWith, Leads, ManagerInv, RunningJob, View, With, StartedOf, KeepsOrder, SetupsAreSound;
    PassEffect(d, w.s, r);
    if started == [] {
      moves := [];
      assert started + JobsOf(t.queue, d.dir) == JobsOf(t.queue, d.dir);
      Invisible(d, w, t);
    } else {
      moves := [Mirror.Begin];
      FirstJobStarts(d, w, t);
    }
  }

  lemma {:induction false} CompleteBusy(s: State, slot: nat, dir: string)
    requires OnePerDir(s.busy) && slot in s.busy && Polled(s, slot)
    ensures BusyWith(Complete(s, slot).busy, dir) <==> BusyWith(s.busy, dir) && s.busy[slot].job.src != dir
  {
    var t := Complete(s, slot);
    if BusyWith(s.busy, dir) && s.busy[slot].job.src != dir {
      var k :| k in s.busy && s.busy[k].job.src == dir;
      assert t.busy[k] == s.busy[k];
    }
  }

  lemma {:induction false} CompleteTable(d: Watched, s: State, slot: nat)
    requires TableInv(d, s.monitor) && slot in s.busy
    ensures TableInv(d, Complete(s, slot).monitor) && Complete(s, slot).queue == s.queue
  {
    SameEntries(d, s.monitor, Complete(s, slot).monitor);
  }

  lemma {:induction false} OneWorkerPerDir(s: State)
    requires Inv(s)
    ensures OnePerDir(s.busy)
  {
  }

  lemma {:induction false} CompleteEffect(d: Watched, s: State, slot: nat)
    requires ManagerInv(d, s) && slot in s.busy
    ensures var t, mine := Complete(s, slot), s.busy[slot].job.src == d.dir;
            && ManagerInv(d, t) && t.queue == s.queue
            && (BusyWith(t.busy, d.dir) <==> BusyWith(s.busy, d.dir) && !mine)
  {
    OneWorkerPerDir(s);
    hide Inv, TableInv, OnePerDir, Complete, BusyWith, Polled;
    SchedulerRuns.CompleteKeepsInv(s, slot);
    CompleteTable(d, s, slot);
    CompleteBusy(s, slot, d.dir);
  }

  lemma {:induction false} CompleteMoves(d: Watched, w: World, slot: nat) returns (moves: seq<Mirror.Move>)
    requires WorldInv(d, w) && ManagerMay(d, w, SchedulerRuns.DoComplete(slot))
    ensures var v := With(d, w, Complete(w.s, slot)); WorldInv(d, v) && Leads(View(d, w), moves, View(d, v))
    ensures Mirror.Edited(moves) == {}
  {
    var t := Complete(w.s, slot);
    CompleteEffect(d, w.s, slot);
    hide Complete, JobsOf, Leads, ManagerInv, BusyWith, View, With;
    if w.s.busy[slot].job.src == d.dir {
      moves := [Mirror.Report];
      WorkerReports(d, w, t);
    } else {
      moves := [];
      Invisible(d, w, t);
    }
  }

  lemma {:induction false} AddEffect(d: Watched, s: State, src: string, tar: string, wd: int)
    requires ManagerInv(d, s) && (src != d.dir ==> wd != d.wd)
    ensures var t := Add(s, src, tar, wd);
            ManagerInv(d, t) && t.busy == s.busy && JobsOf(t.queue, d.dir) == JobsOf(s.queue, d.dir)
  {
    var t := Add(s, src, tar, wd);
    assert src == d.dir ==> t == s;
    hide Inv, JobsOf;
    SchedulerRuns.AddKeepsInv(s, src, tar, wd);
    if t != s {
      JobsOfAppend(s.queue, Job(src, tar, "ALL", Full, false), d.dir);
      assert JobsOf(s.queue, d.dir) + [] == JobsOf(s.queue, d.dir);
      WatchElsewhere(d, s.monitor, src, tar, wd);
    }
  }

  lemma {:induction false} AddMoves(d: Watched, w: World, src: string, tar: string, wd: int)
    requires WorldInv(d, w) && (src != d.dir ==> wd != d.wd)
    ensures var v := With(d, w, Add(w.s, src, tar, wd)); WorldInv(d, v) && Leads(View(d, w), [], View(d, v))
    ensures Mirror.Edited([]) == {}
  {
    AddEffect(d, w.s, src, tar, wd);
    hide Add, JobsOf, Leads, ManagerInv, BusyWith, View, With;
    Invisible(d, w, Add(w.s, src, tar, wd));
  }

  /** sync of the directory itself adds a full copy, unless it finds work for it. */
  lemma {:induction false} OwnSyncEffect(d: Watched, s: State, wd: int)
    requires ManagerInv(d, s) && Sync(s, d.dir, wd) != s
    ensures var t := Sync(s, d.dir, wd);
            && ManagerInv(d, t) && t.busy == s.busy
            && JobsOf(t.queue, d.dir) == JobsOf(s.queue, d.dir) + [Job(d.dir, d.tar, "ALL", Full, true)]
  {
    hide Inv, JobsOf;
    SchedulerRuns.SyncKeepsInv(s, d.dir, wd);
    JobsOfAppend(s.queue, Job(d.dir, d.tar, "ALL", Full, true), d.dir);
  }

  lemma {:induction false} OtherSyncEffect(d: Watched, s: State, src: string, wd: int)
    requires ManagerInv(d, s) && src != d.dir && wd != d.wd
    ensures var t := Sync(s, src, wd);
            ManagerInv(d, t) && t.busy == s.busy && JobsOf(t.queue, d.dir) == JobsOf(s.queue, d.dir)
  {
    var t, i := Sync(s, src, wd), Find(s.monitor, src);
    hide Inv, JobsOf;
    SchedulerRuns.SyncKeepsInv(s, src, wd);
    if t != s {
      JobsOfAppend(s.queue, Job(src, s.monitor[i].tar, "ALL", Full, true), d.dir);
      assert JobsOf(s.queue, d.dir) + [] == JobsOf(s.queue, d.dir);
      WatchElsewhere(d, s.monitor, src, s.monitor[i].tar, wd);
    }
  }

  lemma {:induction false} SyncMoves(d: Watched, w: World, src: string, wd: int) returns (moves: seq<Mirror.Move>)
    requires WorldInv(d, w) && (src != d.dir ==> wd != d.wd)
    ensures var v := With(d, w, Sync(w.s, src, wd)); WorldInv(d, v) && Leads(View(d, w), moves, View(d, v))
    ensures Mirror.Edited(moves) == {}
  {
    var t := Sync(w.s, src, wd);
    hide Sync, JobsOf, Leads, ManagerInv, BusyWith, View, With;
    moves := [];
    if src == d.dir && t != w.s {
      moves := [Mirror.FullSync];
      OwnSyncEffect(d, w.s, wd);
      FullJobArrives(d, w, t, Job(d.dir, d.tar, "ALL", Full, true));
    } else {
      if t != w.s {
        OtherSyncEffect(d, w.s, src, wd);
      }
      Invisible(d, w, t);
    }
  }

  lemma {:induction false} CancelMoves(d: Watched, w: World, src: string)
    requires WorldInv(d, w) && src != d.dir
    ensures var v := With(d, w, Cancel(w.s, src)); WorldInv(d, v) && Leads(View(d, w), [], View(d, v))
    ensures Mirror.Edited([]) == {}
  {
    CancelEffect(d, w.s, src);
    hide Cancel, JobsOf, Leads, ManagerInv, BusyWith, View, With;
    Invisible(d, w, Cancel(w.s, src));
  }

  lemma {:induction false} CancelEffect(d: Watched, s: State, src: string)
    requires ManagerInv(d, s) && src != d.dir
    ensures var t := Cancel(s, src);
            ManagerInv(d, t) && t.busy == s.busy && JobsOf(t.queue, d.dir) == JobsOf(s.queue, d.dir)
  {
    SchedulerRuns.CancelKeepsInv(s, src);
    SchedulerRuns.CancelKeepsJobsOf(s, src, d.dir);
    hide Inv, JobsOf;
    if IsActive(s.monitor, src) {
      FindBySource(s.monitor, Cancel(s, src).monitor, d.dir);
    }
  }

  lemma {:induction false} ManagerMoves(d: Watched, w: World, x: SchedulerRuns.Step) returns (moves: seq<Mirror.Move>)
    requires WorldInv(d, w) && ManagerMay(d, w, x) && (x.DoPass? ==> KeepsOrder(w.s, d.dir))
    ensures WorldInv(d, Next(d, w, Manager(x))) && Leads(View(d, w), moves, View(d, Next(d, w, Manager(x))))
    ensures Mirror.Edited(moves) == {}
  {
    hide WorldInv, Leads, Pass, Complete, Add, Cancel, Sync, View, KeepsOrder, SetupsAreSound;
    moves := [];
    match x {
      case DoPass(r) => moves := PassMoves(d, w, r);
      case DoComplete(slot) => moves := CompleteMoves(d, w, slot);
      case DoAdd(src, tar, wd) => AddMoves(d, w, src, tar, wd);
      case DoCancel(src) => CancelMoves(d, w, src);
      case DoSync(src, wd) => moves := SyncMoves(d, w, src, wd);
      case DoShutDown => ShutDownMoves(d, w);
    }
  }

  lemma {:induction false} ShutDownMoves(d: Watched, w: World)
    requires WorldInv(d, w)
    ensures var v := With(d, w, w.s.(shutDown := true)); WorldInv(d, v) && Leads(View(d, w), [], View(d, v))
    ensures Mirror.Edited([]) == {}
  {
    SchedulerRuns.ShutDownKeepsInv(w.s);
    hide Inv, JobsOf, Leads, BusyWith, View, With;
    Invisible(d, w, w.s.(shutDown := true));
  }

  lemma {:induction false} ReadEffect(d: Watched, s: State, e: Event)
    requires ManagerInv(d, s) && Readable(s, e)
    ensures var t := Read(s, e);
            && ManagerInv(d, t) && t.busy == s.busy
            && (Concerns(d, e) ==>
                  JobsOf(t.queue, d.dir) == JobsOf(s.queue, d.dir) + [Job(d.dir, d.tar, e.name, OpOf(e.kind), false)])
            && (!Concerns(d, e) ==> JobsOf(t.queue, d.dir) == JobsOf(s.queue, d.dir))
  {
    hide Inv, JobsOf;
    SchedulerRuns.ReadKeepsInv(s, e);
    if e.kind != Other {
      var i := FindWatch(s.monitor, e.wd);
      var info := s.monitor[i];
      JobsOfAppend(s.queue, Job(info.src, info.tar, e.name, OpOf(e.kind), false), d.dir);
      assert e.wd == d.wd ==> i == Find(s.monitor, d.dir);
      if e.wd != d.wd && info.src == d.dir {
        DirIsUnique(s, i, Find(s.monitor, d.dir));
      }
      assert JobsOf(s.queue, d.dir) + [] == JobsOf(s.queue, d.dir);
    }
  }

  lemma {:induction false} DirIsUnique(s: State, i: nat, j: nat)
    requires Inv(s) && i < |s.monitor| && j < |s.monitor| && s.monitor[i].src == s.monitor[j].src
    ensures i == j
  {
  }

  /** An event of the directory becomes a job. */
  lemma {:induction false} EventFetched(d: Watched, w: World, t: State, job: Job)
    requires WorldInv(d, w) && w.kernel != [] && Concerns(d, w.kernel[0]) && AsChange(job) == ChangeIn(w.kernel[0])
    requires ManagerInv(d, t) && t.busy == w.s.busy && JobsOf(t.queue, d.dir) == JobsOf(w.s.queue, d.dir) + [job]
    ensures var w' := w.(s := t, kernel := w.kernel[1..]);
            WorldInv(d, w') && Leads(View(d, w), [Mirror.Fetch], View(d, w'))
    ensures Mirror.Edited([Mirror.Fetch]) == {}
  {
    EventsHead(d, w.kernel);
    hide ManagerInv, JobsOf, BusyWith, EventsOf, Leads, ChangeIn, Concerns;
    assert EventsOf(d, w.kernel[1..]) == EventsOf(d, w.kernel)[1..];
    assert AsChanges(JobsOf(t.queue, d.dir)) == AsChanges(JobsOf(w.s.queue, d.dir)) + [ChangeIn(w.kernel[0])];
    OneMove(View(d, w), Mirror.Fetch);
  }

  lemma {:induction false} EventElsewhere(d: Watched, w: World, t: State)
    requires WorldInv(d, w) && w.kernel != [] && !Concerns(d, w.kernel[0])
    requires ManagerInv(d, t) && t.busy == w.s.busy && JobsOf(t.queue, d.dir) == JobsOf(w.s.queue, d.dir)
    ensures var w' := w.(s := t, kernel := w.kernel[1..]); WorldInv(d, w') && Leads(View(d, w), [], View(d, w'))
    ensures Mirror.Edited([]) == {}
  {
    EventsHead(d, w.kernel);
    hide ManagerInv, JobsOf, BusyWith, EventsOf, Leads;
    assert [] + EventsOf(d, w.kernel[1..]) == EventsOf(d, w.kernel[1..]);
    NoMove(View(d, w));
  }

  lemma {:induction false} ReadMoves(d: Watched, w: World) returns (moves: seq<Mirror.Move>)
    requires WorldInv(d, w) && w.kernel != [] && Readable(w.s, w.kernel[0])
    ensures WorldInv(d, ByRead(w)) && Leads(View(d, w), moves, View(d, ByRead(w)))
    ensures Mirror.Edited(moves) == {}
  {
    var e := w.kernel[0];
    var t := Read(w.s, e);
    ReadEffect(d, w.s, e);
    hide Read, ManagerInv, JobsOf, BusyWith, EventsOf, Leads, View;
    if Concerns(d, e) {
      moves := [Mirror.Fetch];
      EventFetched(d, w, t, Job(d.dir, d.tar, e.name, OpOf(e.kind), false));
    } else {
      moves := [];
      EventElsewhere(d, w, t);
    }
  }

  lemma {:induction false} DisturbKeepsBusy(work: Mirror.Work, x: Mirror.Move)
    requires Mirror.IsEdit(x)
    ensures Mirror.Disturb(work, x) == Mirror.NoWork <==> work == Mirror.NoWork
  {
  }

  /** An edit's event reaches the directory's view, or is dropped where the directory's last event is its equal. */
  lemma {:induction false} EditEvents(d: Watched, kernel: seq<Event>, x: Mirror.Move)
    requires Mirror.IsEdit(x)
    ensures EventsOf(d, kernel + [EventOf(d, x)]) == EventsOf(d, kernel) + [Mirror.ChangeOf(x)]
    ensures kernel != [] && kernel[|kernel| - 1] == EventOf(d, x) ==>
              Mirror.CanMerge(EventsOf(d, kernel), Mirror.ChangeOf(x))
  {
    EventsAppend(d, kernel, EventOf(d, x));
  }

  lemma {:induction false} EditMoves(d: Watched, w: World, x: Mirror.Move)
    requires WorldInv(d, w) && EditMay(d, w, x)
    ensures WorldInv(d, Next(d, w, Edit(x))) && Leads(View(d, w), [x], View(d, Next(d, w, Edit(x))))
    ensures Mirror.Edited([x]) == {x.file}
  {
    EditEvents(d, w.kernel, x);
    DisturbKeepsBusy(w.work, x);
    hide ManagerInv, JobsOf, BusyWith, EventsOf, Leads, Mirror.Disturb;
    OneMove(View(d, w), x);
  }

  lemma {:induction false} ElsewhereMoves(d: Watched, w: World, e: Event)
    requires WorldInv(d, w) && Enabled(d, w, ElsewhereEvent(e))
    ensures var w' := Next(d, w, ElsewhereEvent(e)); WorldInv(d, w') && Leads(View(d, w), [], View(d, w'))
    ensures Mirror.Edited([]) == {}
  {
    EventsAppend(d, w.kernel, e);
    hide ManagerInv, JobsOf, BusyWith, EventsOf, Leads;
    assert EventsOf(d, w.kernel) + [] == EventsOf(d, w.kernel);
    NoMove(View(d, w));
  }

  /** The worker's own moves do not look at the queues. */
  lemma {:induction false} WorkerIgnoresQueues(m: Mirror.State, x: Mirror.Move)
    requires x.Act? || x.Scribble? || x.Close? || x.Pick? || x.ListEnd?
    requires var bare := m.(kernel := [], queue := []); Mirror.Enabled(bare, x)
    ensures Mirror.Enabled(m, x) && !Mirror.IsEdit(x)
    ensures var n := Mirror.Next(m.(kernel := [], queue := []), x);
            Mirror.Next(m, x) == m.(tar := n.tar, work := n.work) && n.work != Mirror.NoWork && m.work != Mirror.NoWork
  {
  }

  lemma {:induction false} WorkerMoves(d: Watched, w: World, x: Mirror.Move)
    requires WorldInv(d, w) && WorkerMay(w, x)
    ensures var w' := ByWorker(w, x); WorldInv(d, w') && Leads(View(d, w), [x], View(d, w'))
    ensures Mirror.Edited([x]) == {}
  {
    WorkerIgnoresQueues(View(d, w), x);
    hide ManagerInv, JobsOf, BusyWith, EventsOf, Leads, Mirror.Enabled, Mirror.Next, Mirror.IsEdit, Mirror.Edited;
    OneMove(View(d, w), x);
  }

  lemma {:induction false} NextIsByRead(d: Watched, w: World)
    requires Enabled(d, w, ReadEvent)
    ensures w.kernel != [] && Readable(w.s, w.kernel[0]) && Next(d, w, ReadEvent) == ByRead(w)
  {
  }

  lemma {:induction false} NextIsByWorker(d: Watched, w: World, x: Mirror.Move)
    requires WorkerMay(w, x)
    ensures Next(d, w, Worker(x)) == ByWorker(w, x)
  {
  }

  /** The name a step edits. */
  function EditOf(x: Step): set<string> {
    if x.Edit? && Mirror.IsEdit(x.move) then {x.move.file} else {}
  }

  /** A pass that this step may be keeps the order of the directory's jobs. */
  ghost predicate StepKeepsOrder(d: Watched, w: World, x: Step) {
    x.Manager? && x.step.DoPass? ==> KeepsOrder(w.s, d.dir)
  }

  lemma {:induction false} StepMoves(d: Watched, w: World, x: Step) returns (moves: seq<Mirror.Move>)
    requires WorldInv(d, w) && Enabled(d, w, x) && StepKeepsOrder(d, w, x)
    ensures WorldInv(d, Next(d, w, x)) && Leads(View(d, w), moves, View(d, Next(d, w, x)))
    ensures Mirror.Edited(moves) == EditOf(x)
  {
    hide WorldInv, Next, Leads, View, KeepsOrder;
    moves := [];
    match x {
      case Manager(y) => moves := ManagerMoves(d, w, y);
      case ReadEvent => NextIsByRead(d, w); moves := ReadMoves(d, w);
      case Edit(y) => EditMoves(d, w, y); moves := [y];
      case ElsewhereEvent(e) => ElsewhereMoves(d, w, e);
      case Worker(y) => WorkerMoves(d, w, y); NextIsByWorker(d, w, y); moves := [y];
    }
  }

  // ---------- Every run ----------

  ghost predicate Run(d: Watched, w: World, run: seq<Step>)
    decreases |run|
  {
    run == [] || (Enabled(d, w, run[0]) && Run(d, Next(d, w, run[0]), run[1..]))
  }

  ghost function After(d: Watched, w: World, run: seq<Step>): World
    requires Run(d, w, run)
    decreases |run|
  {
    if run == [] then w else After(d, Next(d, w, run[0]), run[1..])
  }

  function Edited(run: seq<Step>): set<string> {
    if run == [] then {} else EditOf(run[0]) + Edited(run[1..])
  }

  /** The table never shrinks, and the number of workers never changes. */
  lemma {:induction false} StepTable(d: Watched, w: World, x: Step)
    requires Inv(w.s) && Enabled(d, w, x)
    ensures var s := Next(d, w, x).s; |w.s.monitor| <= |s.monitor| && s.limit == w.s.limit && Inv(s)
  {
    hide Inv, TableInv, BusyWith, WorkAfter, SchedulerRuns.Possible, SetupsAreSound, SchedulerRuns.Next;
    if x.Manager? {
      SchedulerRuns.StepKeepsInv(w.s, x.step);
    } else if x.ReadEvent? {
      NextIsByRead(d, w);
      ReadTable(w);
    }
  }

  lemma {:induction false} ReadTable(w: World)
    requires Inv(w.s) && w.kernel != [] && Readable(w.s, w.kernel[0])
    ensures var s := ByRead(w).s; s.monitor == w.s.monitor && s.limit == w.s.limit && Inv(s)
  {
    hide Inv;
    SchedulerRuns.ReadKeepsInv(w.s, w.kernel[0]);
  }

  lemma {:induction false} RunTable(d: Watched, w: World, run: seq<Step>)
    requires Inv(w.s) && Run(d, w, run)
    ensures var s := After(d, w, run).s; |w.s.monitor| <= |s.monitor| && s.limit == w.s.limit
    decreases |run|
  {
    if run != [] {
      hide Inv, Enabled, Next;
      StepTable(d, w, run[0]);
      RunTable(d, Next(d, w, run[0]), run[1..]);
    }
  }

  lemma {:induction false} MovesJoin(v: Mirror.State, a: seq<Mirror.Move>, v': Mirror.State,
                                     b: seq<Mirror.Move>, v'': Mirror.State)
    requires Leads(v, a, v') && Leads(v', b, v'')
    ensures Leads(v, a + b, v'')
    ensures Mirror.Edited(a + b) == Mirror.Edited(a) + Mirror.Edited(b)
  {
    Mirror.RunConcat(v, a, b);
    EditedConcat(a, b);
  }

  lemma {:induction false} EditedConcat(a: seq<Mirror.Move>, b: seq<Mirror.Move>)
    ensures Mirror.Edited(a + b) == Mirror.Edited(a) + Mirror.Edited(b)
  {
    if a == [] {
      assert a + b == b;
    } else {
      assert (a + b)[1..] == a[1..] + b;
      EditedConcat(a[1..], b);
    }
  }

  /** Every pass of the run keeps the order of the directory's jobs. */
  ghost predicate Orderly(d: Watched, w: World, run: seq<Step>)
    requires Run(d, w, run)
    decreases |run|
  {
    run == [] || (StepKeepsOrder(d, w, run[0]) && Orderly(d, Next(d, w, run[0]), run[1..]))
  }

  /** A run of the whole manager is a run of the directory. */
  lemma {:induction false} RunMoves(d: Watched, w: World, run: seq<Step>) returns (moves: seq<Mirror.Move>)
    requires WorldInv(d, w) && Run(d, w, run) && Orderly(d, w, run)
    ensures WorldInv(d, After(d, w, run)) && Leads(View(d, w), moves, View(d, After(d, w, run)))
    ensures Mirror.Edited(moves) == Edited(run)
    decreases |run|
  {
    hide Enabled, Next, View, Leads, EditOf, ManagerInv, BusyWith, StepKeepsOrder;
    if run == [] {
      moves := [];
      NoMove(View(d, w));
    } else {
      var w' := Next(d, w, run[0]);
      var first := StepMoves(d, w, run[0]);
      var rest := RunMoves(d, w', run[1..]);
      moves := first + rest;
      MovesJoin(View(d, w), first, View(d, w'), rest, View(d, After(d, w', run[1..])));
    }
  }

  lemma {:induction false} WorldHasInv(d: Watched, w: World)
    requires WorldInv(d, w)
    ensures Inv(w.s)
  {
  }

  lemma {:induction false} PassAllowed(d: Watched, w: World, x: Step)
    requires Inv(w.s) && Enabled(d, w, x) && |w.s.monitor| < w.s.limit
    ensures StepKeepsOrder(d, w, x)
  {
    hide Inv, SetupsAreSound, KeepsOrder;
    if x.Manager? && x.step.DoPass? {
      EnoughWorkersKeepOrder(w.s, x.step.r, d.dir);
    }
  }

  /** With more workers than directories every run is orderly. */
  lemma {:induction false} EnoughWorkersAreOrderly(d: Watched, w: World, run: seq<Step>)
    requires WorldInv(d, w) && Run(d, w, run) && |After(d, w, run).s.monitor| < w.s.limit
    ensures Orderly(d, w, run)
    decreases |run|
  {
    hide Enabled, Next, ManagerInv, BusyWith, StepKeepsOrder, Leads, View, WorldInv;
    if run != [] {
      var w' := Next(d, w, run[0]);
      WorldHasInv(d, w);
      StepTable(d, w, run[0]);
      RunTable(d, w', run[1..]);
      PassAllowed(d, w, run[0]);
      var moves := StepMoves(d, w, run[0]);
      EnoughWorkersAreOrderly(d, w', run[1..]);
    }
  }

  // ---------- From `add` or `sync` on ----------

  datatype Command = ByAdd | BySync

  /**
   * `add` of a directory that is not active, or `sync` of one in the table that has no worker; none of its jobs is
   * queued, none of its events unread, and its watch is its own: a new one, unless it is active. It may have been
   * cancelled before, and then, behind `add`, a worker that was started before may still be at work. How the state
   * came about does not matter: setups may have failed and passes reordered jobs.
   */
  ghost predicate Before(d: Watched, s: State, kernel: seq<Event>, c: Command) {
    && Inv(s) && NoneQueued(d, s.queue) && NoneUnread(d, kernel)
    && match c
       case ByAdd => !IsActive(s.monitor, d.dir) && NewWatch(d, s.monitor)
       case BySync =>
         && Find(s.monitor, d.dir) < |s.monitor| && s.monitor[Find(s.monitor, d.dir)].pid == NO_WORKER
         && s.monitor[Find(s.monitor, d.dir)].tar == d.tar
         && if IsActive(s.monitor, d.dir) then TableInv(d, s.monitor) else NewWatch(d, s.monitor)
  }

  ghost predicate NoneQueued(d: Watched, queue: seq<Job>) {
    forall j :: j in queue ==> j.src != d.dir
  }

  ghost predicate NoneUnread(d: Watched, kernel: seq<Event>) {
    forall e :: e in kernel ==> !Concerns(d, e)
  }

  ghost predicate NewWatch(d: Watched, monitor: seq<Info>) {
    0 <= d.wd && forall i :: 0 <= i < |monitor| ==> monitor[i].wd != d.wd
  }

  /** The manager behind the command. */
  function Behind(d: Watched, s: State, c: Command): State {
    if c.ByAdd? then Add(s, d.dir, d.tar, d.wd) else Sync(s, d.dir, d.wd)
  }

  /** What the old worker, if there is one, is at: Finished, if it works on another target. */
  ghost predicate OldWorker(d: Watched, s: State, src: Mirror.Files, work: Mirror.Work) {
    && (BusyWith(s.busy, d.dir) <==> work != Mirror.NoWork)
    && (work.Todo? && work.change.op == Full ==> work.change == Mirror.ALL)
    && (work.Copying? || work.ListCopying? ==> work.torn || work.file in src)
  }

  /** No event, job or worker of the directory is left. */
  ghost predicate Quiet(d: Watched, w: World) {
    !BusyWith(w.s.busy, d.dir) && NoneQueued(d, w.s.queue) && NoneUnread(d, w.kernel)
  }

  lemma {:induction false} NoEvents(d: Watched, kernel: seq<Event>)
    ensures EventsOf(d, kernel) == [] <==> forall e :: e in kernel ==> !Concerns(d, e)
  {
    if kernel != [] {
      var init := kernel[..|kernel| - 1];
      assert kernel == init + [kernel[|kernel| - 1]];
      NoEvents(d, init);
    }
  }

  lemma {:induction false} NoJobsOf(queue: seq<Job>, dir: string)
    ensures JobsOf(queue, dir) == [] <==> forall j :: j in queue ==> j.src != dir
  {
    NoJobs(queue, dir);
  }

  lemma {:induction false} QuietView(d: Watched, w: World)
    requires WorldInv(d, w) && Quiet(d, w)
    ensures Mirror.Quiet(View(d, w))
  {
    NoEvents(d, w.kernel);
    NoJobsOf(w.s.queue, d.dir);
  }

  lemma {:induction false} WatchedNow(d: Watched, monitor: seq<Info>)
    requires NewWatch(d, monitor)
    ensures TableInv(d, Watch(monitor, d.dir, d.tar, d.wd))
  {
    var i, m := Find(monitor, d.dir), Watch(monitor, d.dir, d.tar, d.wd);
    if i < |monitor| {
      FindBySource(monitor, m, d.dir);
    } else {
      SchedulerRuns.FindInAppended(monitor, Info(d.dir, d.tar, d.wd, NO_WORKER, true), d.dir);
    }
  }

  lemma {:induction false} NotQueued(queue: seq<Job>, dir: string)
    requires forall j :: j in queue ==> j.src != dir
    ensures !JobRemoval.Queued(queue, dir)
  {
  }

  /** What both commands do: the directory is watched, and one full job of it is queued. */
  lemma {:induction false} CommandEffect(d: Watched, s: State, kernel: seq<Event>, c: Command)
    requires Before(d, s, kernel, c)
    ensures var t := Behind(d, s, c);
            && Inv(t) && TableInv(d, t.monitor) && t.busy == s.busy
            && t.queue == s.queue + [Job(d.dir, d.tar, "ALL", Full, c.BySync?)]
  {
    hide Inv;
    if c.ByAdd? {
      SchedulerRuns.AddKeepsInv(s, d.dir, d.tar, d.wd);
      WatchedNow(d, s.monitor);
    } else {
      SchedulerRuns.SyncKeepsInv(s, d.dir, d.wd);
      NotQueued(s.queue, d.dir);
      hide JobRemoval.Queued;
      if !IsActive(s.monitor, d.dir) {
        WatchedNow(d, s.monitor);
      }
    }
  }

  lemma {:induction false} NewDirectory(d: Watched, s: State, kernel: seq<Event>, c: Command)
    requires Before(d, s, kernel, c)
    ensures var t := Behind(d, s, c);
            && ManagerInv(d, t) && t.busy == s.busy
            && JobsOf(t.queue, d.dir) == [Job(d.dir, d.tar, "ALL", Full, c.BySync?)]
    ensures EventsOf(d, kernel) == []
  {
    var job := Job(d.dir, d.tar, "ALL", Full, c.BySync?);
    CommandEffect(d, s, kernel, c);
    NoEvents(d, kernel);
    NoJobsOf(s.queue, d.dir);
    hide JobsOf, BusyWith, Inv, TableInv, Find, EventsOf, Behind;
    JobsOfAppend(s.queue, job, d.dir);
    assert [] + [job] == [job];
  }

  /** A manager that has just started is such a one, for every directory. */
  lemma {:induction false} BeforeTheFirstAdd(d: Watched, limit: nat, open: set<nat>)
    requires 0 < limit && 0 <= d.wd
    ensures Before(d, SchedulerRuns.Init(limit, open), [], ByAdd)
  {
    SchedulerRuns.InitInv(limit, open);
  }

  /** Whatever run went before, with failed setups and reordered jobs: an idle directory can start again by `sync`. */
  lemma {:induction false} SyncAfterAnyRun(d: Watched, limit: nat, open: set<nat>, run: seq<SchedulerRuns.Step>,
                                           kernel: seq<Event>)
    requires 0 < limit && SchedulerRuns.Run(SchedulerRuns.Init(limit, open), run)
    requires var s := SchedulerRuns.After(SchedulerRuns.Init(limit, open), run);
             TableInv(d, s.monitor) && !BusyWith(s.busy, d.dir) && NoneQueued(d, s.queue) && NoneUnread(d, kernel)
    ensures Before(d, SchedulerRuns.After(SchedulerRuns.Init(limit, open), run), kernel, BySync)
  {
    SchedulerRuns.InitInv(limit, open);
    SchedulerRuns.RunKeepsInv(SchedulerRuns.Init(limit, open), run);
    SchedulerRuns.EveryReachableState(limit, open, run);
    var s := SchedulerRuns.After(SchedulerRuns.Init(limit, open), run);
    assert Pid(s.monitor, d.dir) == NO_WORKER;
    hide SchedulerRuns.Run, SchedulerRuns.After, SchedulerRuns.Init, Inv;
  }

  /** The world right behind the command. */
  ghost function Start(d: Watched, s: State, kernel: seq<Event>, c: Command, src: Mirror.Files, tar: Mirror.Files,
                       work: Mirror.Work): World {
    World(Behind(d, s, c), kernel, src, tar, work)
  }

  lemma {:induction false} StartInv(d: Watched, s: State, kernel: seq<Event>, c: Command, src: Mirror.Files,
                                    tar: Mirror.Files, work: Mirror.Work)
    requires Before(d, s, kernel, c) && OldWorker(d, s, src, work)
    ensures WorldInv(d, Start(d, s, kernel, c, src, tar, work))
  {
    hide Before, Behind, ManagerInv, JobsOf, BusyWith;
    NewDirectory(d, s, kernel, c);
  }

  lemma {:induction false} OneFullJob(jobs: seq<Job>, d: Watched, console: bool)
    requires jobs == [Job(d.dir, d.tar, "ALL", Full, console)]
    ensures AsChanges(jobs) == [Mirror.ALL]
  {
  }

  lemma {:induction false} StartView(d: Watched, s: State, kernel: seq<Event>, c: Command, src: Mirror.Files,
                                     tar: Mirror.Files, work: Mirror.Work)
    requires Before(d, s, kernel, c) && OldWorker(d, s, src, work)
    ensures var v := View(d, Start(d, s, kernel, c, src, tar, work));
            v == Mirror.State(src, tar, [], [Mirror.ALL], work) && Mirror.JustAdded(v)
  {
    hide Before, Behind, ManagerInv, JobsOf, EventsOf, BusyWith, AsChanges;
    NewDirectory(d, s, kernel, c);
    OneFullJob(JobsOf(Behind(d, s, c).queue, d.dir), d, c.BySync?);
  }

  /** A run from the command on that ends with nothing of the directory pending. */
  ghost predicate Settles(d: Watched, s: State, kernel: seq<Event>, c: Command, src: Mirror.Files, tar: Mirror.Files,
                          work: Mirror.Work, run: seq<Step>) {
    && Before(d, s, kernel, c) && OldWorker(d, s, src, work)
    && var w := Start(d, s, kernel, c, src, tar, work); Run(d, w, run) && Quiet(d, After(d, w, run))
  }

  /**
   * Convergence of the whole manager from `add` or `sync` on, where from then on no setup fails and each pass keeps
   * the order of the directory's jobs: whatever happens and in whatever order, once nothing of the directory is
   * pending its target is its source, exactly when every name that only the target had, or got from an old worker,
   * has been edited since. What was in the target before, and why, does not matter. The directory is not cancelled
   * again.
   */
  lemma {:induction false} ConvergesExactlyWhen(d: Watched, s: State, kernel: seq<Event>, c: Command, src: Mirror.Files,
                                                tar: Mirror.Files, work: Mirror.Work, run: seq<Step>)
    requires Settles(d, s, kernel, c, src, tar, work, run) && Orderly(d, Start(d, s, kernel, c, src, tar, work), run)
    ensures var end := After(d, Start(d, s, kernel, c, src, tar, work), run);
            end.tar == end.src <==> Mirror.Extra(Mirror.State(src, tar, [], [Mirror.ALL], work)) <= Edited(run)
  {
    var w := Start(d, s, kernel, c, src, tar, work);
    StartInv(d, s, kernel, c, src, tar, work);
    StartView(d, s, kernel, c, src, tar, work);
    hide Before, Start, WorldInv, Quiet, Run, After, Mirror.Quiet, Mirror.JustAdded, Mirror.Extra, Orderly, OldWorker;
    var moves := RunMoves(d, w, run);
    QuietView(d, After(d, w, run));
    Mirror.ConvergesExactlyWhen(View(d, w), moves);
  }

  /** No old worker, and more workers than directories: exactly when every name that only the target had was edited. */
  lemma {:induction false} ConvergesWithEnoughWorkers(d: Watched, s: State, kernel: seq<Event>, c: Command,
                                                      src: Mirror.Files, tar: Mirror.Files, run: seq<Step>)
    requires Settles(d, s, kernel, c, src, tar, Mirror.NoWork, run)
    requires var w := Start(d, s, kernel, c, src, tar, Mirror.NoWork); |After(d, w, run).s.monitor| < w.s.limit
    ensures var end := After(d, Start(d, s, kernel, c, src, tar, Mirror.NoWork), run);
            end.tar == end.src <==> tar.Keys - src.Keys <= Edited(run)
  {
    var w := Start(d, s, kernel, c, src, tar, Mirror.NoWork);
    Mirror.ExtraWithoutWorker(Mirror.State(src, tar, [], [Mirror.ALL], Mirror.NoWork));
    StartInv(d, s, kernel, c, src, tar, Mirror.NoWork);
    hide Before, Start, WorldInv, Quiet, Run, After, Orderly, Mirror.Extra;
    EnoughWorkersAreOrderly(d, w, run);
    ConvergesExactlyWhen(d, s, kernel, c, src, tar, Mirror.NoWork, run);
  }
}
