// fss_manager_run and the functions it calls (fss_manager.c) on the job queue, the table and the slots; each is
// proved to be the corresponding step of Scheduler.
module FssManager {
  import opened Jobs
  import opened LinkedQueues
  import opened Scheduler
  import opened Dispatch
  import JobRemoval
  import FileMonitor
  import WorkerSlots
  import SchedulerRuns

  /** One turn of a pass, or its end. */
  lemma {:induction false} PassTurn(s: State, n: nat, r: seq<Setup>)
    requires n <= |s.queue| && n <= |r|
    ensures n == 0 || Available(s) == 0 ==> Pass(s, n, r) == s
    ensures n != 0 && Available(s) != 0 ==> Pass(s, n, r) == Pass(DispatchOne(s, r[0]), n - 1, r[1..])
  {
  }

  // ---------- One turn of the endless loop ----------

  datatype Command =
    | NoCommand
    | AddCommand(src: string, tar: string, wd: int)
    | CancelCommand(src: string)
    | SyncCommand(src: string, wd: int)
    | ShutdownCommand

  /** What the setups of the pass yield, and then what poll finds: a command, events, and slots with a report. */
  datatype Poll = Poll(setups: seq<Setup>, command: Command, events: seq<Event>, ready: seq<nat>)

  function CommandStep(c: Command): SchedulerRuns.Step
    requires !c.NoCommand?
  {
    match c
    case AddCommand(src, tar, wd) => SchedulerRuns.DoAdd(src, tar, wd)
    case CancelCommand(src) => SchedulerRuns.DoCancel(src)
    case SyncCommand(src, wd) => SchedulerRuns.DoSync(src, wd)
    case ShutdownCommand => SchedulerRuns.DoShutDown
  }

  function Reads(events: seq<Event>): seq<SchedulerRuns.Step> {
    if events == [] then [] else [SchedulerRuns.DoRead(events[0])] + Reads(events[1..])
  }

  function Completions(ready: seq<nat>): seq<SchedulerRuns.Step> {
    if ready == [] then [] else [SchedulerRuns.DoComplete(ready[0])] + Completions(ready[1..])
  }

  /** Once the manager shuts down, commands and events stay unread. */
  function PollSteps(s: State, p: Poll): seq<SchedulerRuns.Step> {
    var command := if s.shutDown || p.command.NoCommand? then [] else [CommandStep(p.command)];
    var events := if s.shutDown || p.command.ShutdownCommand? then [] else Reads(p.events);
    command + events + Completions(p.ready)
  }

  lemma {:induction false} RunHead(s: State, x: SchedulerRuns.Step, rest: seq<SchedulerRuns.Step>)
    requires SchedulerRuns.Run(s, [x] + rest)
    ensures SchedulerRuns.Enabled(s, x) && SchedulerRuns.Possible(s, x) && SchedulerRuns.Run(SchedulerRuns.Next(s, x), rest)
    ensures SchedulerRuns.After(s, [x] + rest) == SchedulerRuns.After(SchedulerRuns.Next(s, x), rest)
  {
    assert ([x] + rest)[1..] == rest;
  }

  lemma {:induction false} RunSplit(s: State, a: seq<SchedulerRuns.Step>, b: seq<SchedulerRuns.Step>)
    requires SchedulerRuns.Run(s, a + b)
    ensures SchedulerRuns.Run(s, a) && SchedulerRuns.Run(SchedulerRuns.After(s, a), b)
    ensures SchedulerRuns.After(s, a + b) == SchedulerRuns.After(SchedulerRuns.After(s, a), b)
    decreases |a|
  {
    hide SchedulerRuns.Possible, SetupsAreSound, SchedulerRuns.Next;
    if a == [] {
      assert a + b == b;
    } else {
      assert (a + b)[1..] == a[1..] + b;
      RunSplit(SchedulerRuns.Next(s, a[0]), a[1..], b);
    }
  }

  lemma {:induction false} InitParts(limit: nat, open: set<nat>)
    ensures var s := SchedulerRuns.Init(limit, open);
            s == State(s.limit, s.active, s.free, s.busy, s.lost, s.fds, s.open, [], [], false)
  {
  }

  class Manager {
    const queue: Queue<Job>
    const table: FileMonitor.Table
    const workers: WorkerSlots.Slots
    var shutDown: bool
    ghost var repr: set<object>

    ghost predicate Valid()
      reads this, repr
    {
      && {this, queue, table, workers, workers.free} <= repr
      && (forall i :: 0 <= i < |queue.nodes| ==> queue.nodes[i] in repr)
      && (forall i :: 0 <= i < |workers.free.nodes| ==> workers.free.nodes[i] in repr)
      && queue.Valid() && workers.Valid()
    }

    /** The state of Scheduler that the structures hold. */
    ghost function Model(): State
      reads this, queue, table, workers, workers.free
    {
      State(workers.limit, workers.active, workers.free.contents, workers.jobs, workers.lost, workers.fds, workers.open,
            queue.contents, table.entries, shutDown)
    }

    constructor (limit: nat, open: set<nat>)
      ensures Valid() && fresh(repr) && Model() == SchedulerRuns.Init(limit, open)
    {
      InitParts(limit, open);
      hide SchedulerRuns.Init;
      var slots := new WorkerSlots.Slots(limit, open);
      ghost var nodes := set node | node in slots.free.nodes;
      assert forall i :: 0 <= i < |slots.free.nodes| ==> slots.free.nodes[i] in nodes;
      assert fresh(nodes);
      queue := new Queue<Job>();
      table := new FileMonitor.Table();
      workers := slots;
      shutDown := false;
      new;
      repr := {this, queue, table, workers, workers.free} + nodes;
    }

    method Enqueue(job: Job)
      requires Valid()
      modifies repr
      ensures Valid() && fresh(repr - old(repr)) && Model() == old(Model()).(queue := old(queue.contents) + [job])
    {
      queue.Enqueue(job);
      repr := repr + {queue.nodes[|queue.nodes| - 1]};
      assert queue.nodes == queue.nodes[..|queue.nodes| - 1] + [queue.nodes[|queue.nodes| - 1]];
    }

    /** Sets a worker up and marks the directory, unless pipe or fork fails. */
    method Start(job: Job, outcome: Setup)
      requires Valid() && Available(Model()) != 0
      modifies repr
      ensures Valid() && repr == old(repr) && Model() == SetUp(old(Model()), job, outcome)
    {
      hide SetPid, Find;
      var pid := workers.SetupWorker(job, outcome);
      if pid < 0 {
        return;
      }
      var r := table.Mark(job.src, pid);
    }

    method Dequeue() returns (job: Job)
      requires Valid() && queue.contents != []
      modifies repr
      ensures Valid() && repr == old(repr)
      ensures job == old(queue.contents)[0] && Model() == old(Model()).(queue := old(queue.contents)[1..])
    {
      job := queue.Dequeue(queue.head.value);
    }

    /** The body of the dispatch loop behind its test for an available worker. */
    method Turn(outcome: Setup)
      requires Valid() && queue.contents != [] && Available(Model()) != 0
      modifies repr
      ensures Valid() && fresh(repr - old(repr)) && Model() == DispatchOne(old(Model()), outcome)
    {
      hide SetUp, Valid, IsWorking;
      var job := Dequeue();
      var working := table.Working(job.src);
      if working != 0 {
        Enqueue(job);
      } else {
        Start(job, outcome);
      }
    }

    method Idle() returns (r: int)
      ensures r == Available(Model())
    {
      r := workers.AvailableWorkers();
    }

    method JobCount() returns (n: nat)
      requires Valid()
      ensures n == |Model().queue|
    {
      n := queue.size;
    }

    /** The dispatch loop: as many turns as there were jobs, unless all the workers are taken before. */
    method DispatchPass(outcomes: seq<Setup>)
      requires Valid() && |queue.contents| <= |outcomes|
      modifies repr
      ensures Valid() && fresh(repr - old(repr)) && Model() == Pass(old(Model()), |old(queue.contents)|, outcomes)
    {
      hide Valid, Pass, Available, DispatchOne;
      var n := JobCount();
      var s := 0;
      assert outcomes[0..] == outcomes;
      while s < n
        invariant s <= n && n == |old(queue.contents)| && n - s <= |Model().queue|
        invariant Valid() && fresh(repr - old(repr))
        invariant Pass(Model(), n - s, outcomes[s..]) == Pass(old(Model()), n, outcomes)
      {
        PassTurn(Model(), n - s, outcomes[s..]);
        var available := Idle();
        if available == 0 {
          return;
        }
        assert outcomes[s..][1..] == outcomes[s + 1..];
        Turn(outcomes[s]);
        s := s + 1;
      }
      PassTurn(Model(), 0, outcomes[s..]);
    }

    /** A worker's report was read. */
    method FinishWorker(slot: nat)
      requires Valid() && slot in workers.jobs
      modifies repr
      ensures Valid() && fresh(repr - old(repr)) && Model() == Complete(old(Model()), slot)
    {
      hide SetPid, Find;
      var r := table.Mark(workers.jobs[slot].job.src, NO_WORKER);
      var closed := workers.FreeWorker(slot);
      if closed == 0 {
        ghost var nodes := workers.free.nodes;
        repr := repr + {nodes[|nodes| - 1]};
        assert nodes == nodes[..|nodes| - 1] + [nodes[|nodes| - 1]];
      }
    }

    method AddEntry(src: string, tar: string, wd: int)
      requires Valid() && !IsActive(table.entries, src)
      modifies repr
      ensures Valid() && repr == old(repr) && Model() == old(Model()).(monitor := Watch(old(table.entries), src, tar, wd))
    {
      hide Watch, Find, IsActive;
      var r := table.Add(src, tar, wd);
    }

    /** fss_add_monitored_file, where inotify_add_watch would return wd. */
    method AddMonitoredFile(src: string, tar: string, wd: int) returns (r: int)
      requires Valid()
      modifies repr
      ensures Valid() && fresh(repr - old(repr)) && Model() == Add(old(Model()), src, tar, wd)
      ensures r == if IsActive(old(table.entries), src) || wd >= 0 then 0 else -1
    {
      hide Valid, Watch, Find;
      var i := table.Lookup(src);
      if i < |table.entries| && table.entries[i].active {
        return 0;
      }
      if wd < 0 {
        return -1;
      }
      AddEntry(src, tar, wd);
      Enqueue(Job(src, tar, "ALL", Full, false));
      r := 0;
    }

    method DirQueued(src: string) returns (found: bool)
      requires Valid()
      ensures found <==> JobRemoval.Queued(Model().queue, src)
    {
      found := JobRemoval.DirExists(queue, src);
    }

    /** fss_sync_file */
    method SyncFile(src: string, wd: int) returns (r: int)
      requires Valid()
      modifies repr
      ensures Valid() && fresh(repr - old(repr)) && Model() == Sync(old(Model()), src, wd)
      ensures var before, i := old(Model()), Find(old(table.entries), src);
              r == if i < |before.monitor| && before.monitor[i].pid == NO_WORKER && !before.monitor[i].active
                      && !JobRemoval.Queued(before.queue, src) && wd < 0 then -1 else 0
    {
      hide Valid, Watch, Find, JobRemoval.Queued;
      var i := table.Lookup(src);
      if i == |table.entries| {
        return 0;
      }
      var found := DirQueued(src);
      if table.entries[i].pid != NO_WORKER || found {
        return 0;
      }
      var tar := table.entries[i].tar;
      if !table.entries[i].active {
        if wd < 0 {
          return -1;
        }
        AddEntry(src, tar, wd);
      }
      Enqueue(Job(src, tar, "ALL", Full, true));
      r := 0;
    }

    method Deactivate(src: string)
      requires Valid() && Find(table.entries, src) < |table.entries|
      modifies repr
      ensures Valid() && repr == old(repr)
      ensures var i := Find(old(table.entries), src);
              Model() == old(Model()).(monitor := old(table.entries)[i := old(table.entries)[i].(active := false)])
    {
      hide Find;
      var r := table.Deactivate(src);
    }

    method RemoveJobs(src: string)
      requires Valid() && JobRemoval.RemoveIsExact(queue.contents, src)
      modifies repr
      ensures Valid() && repr == old(repr)
      ensures Model() == old(Model()).(queue := JobRemoval.Without(old(queue.contents), src))
    {
      hide JobRemoval.RemoveIsExact, JobRemoval.Without, JobRemoval.Chain, JobRemoval.Hits;
      ghost var nodes := workers.free.nodes;
      JobRemoval.RemoveDir(queue, src);
      assert workers.free.nodes == nodes && workers.Valid();
    }

    /** The cancel command, where the queue is one that job_queue_remove_dir handles. */
    method CancelDir(src: string)
      requires Valid() && (IsActive(table.entries, src) ==> JobRemoval.RemoveIsExact(queue.contents, src))
      modifies repr
      ensures Valid() && repr == old(repr) && Model() == Cancel(old(Model()), src)
    {
      hide Valid, Find, JobRemoval.RemoveIsExact, JobRemoval.Without;
      var i := table.Lookup(src);
      if i < |table.entries| && table.entries[i].active {
        Deactivate(src);
        RemoveJobs(src);
      }
    }

    /** One event of the inotify buffer. */
    method ReadOne(e: Event)
      requires Valid() && Readable(Model(), e)
      modifies repr
      ensures Valid() && fresh(repr - old(repr)) && Model() == Read(old(Model()), e)
    {
      hide Valid, FindWatch;
      var i := table.LookupWatch(e.wd);
      if e.kind != Other {
        var info := table.entries[i];
        Enqueue(Job(info.src, info.tar, e.name, OpOf(e.kind), false));
      }
    }

    /** The loop over the bytes read from inotify. */
    method ReadEvents(events: seq<Event>)
      requires Valid() && SchedulerRuns.Run(Model(), Reads(events))
      modifies repr
      ensures Valid() && fresh(repr - old(repr)) && Model() == SchedulerRuns.After(old(Model()), Reads(events))
    {
      hide Valid, Read, Readable, SchedulerRuns.Run, SchedulerRuns.After;
      var i := 0;
      assert events[0..] == events;
      while i < |events|
        invariant 0 <= i <= |events| && Valid() && fresh(repr - old(repr))
        invariant SchedulerRuns.Run(Model(), Reads(events[i..]))
        invariant SchedulerRuns.After(Model(), Reads(events[i..])) == SchedulerRuns.After(old(Model()), Reads(events))
      {
        assert events[i..][1..] == events[i + 1..];
        RunHead(Model(), SchedulerRuns.DoRead(events[i]), Reads(events[i + 1..]));
        ReadOne(events[i]);
        i := i + 1;
      }
      NothingLeft(Model());
    }

    /** The loop over the slots of the workers whose pipe has something to read. */
    method ReadReports(ready: seq<nat>)
      requires Valid() && SchedulerRuns.Run(Model(), Completions(ready))
      modifies repr
      ensures Valid() && fresh(repr - old(repr)) && Model() == SchedulerRuns.After(old(Model()), Completions(ready))
    {
      hide Valid, Complete, SchedulerRuns.Run, SchedulerRuns.After;
      var i := 0;
      assert ready[0..] == ready;
      while i < |ready|
        invariant 0 <= i <= |ready| && Valid() && fresh(repr - old(repr))
        invariant SchedulerRuns.Run(Model(), Completions(ready[i..]))
        invariant SchedulerRuns.After(Model(), Completions(ready[i..]))
               == SchedulerRuns.After(old(Model()), Completions(ready))
      {
        assert ready[i..][1..] == ready[i + 1..];
        RunHead(Model(), SchedulerRuns.DoComplete(ready[i]), Completions(ready[i + 1..]));
        FinishWorker(ready[i]);
        i := i + 1;
      }
      NothingLeft(Model());
    }

    method StopReading()
      requires Valid()
      modifies repr
      ensures Valid() && repr == old(repr) && Model() == old(Model()).(shutDown := true)
    {
      shutDown := true;
    }

    method Execute(c: Command)
      requires Valid() && !c.NoCommand? && SchedulerRuns.Enabled(Model(), CommandStep(c))
      modifies repr
      ensures Valid() && fresh(repr - old(repr)) && Model() == SchedulerRuns.Next(old(Model()), CommandStep(c))
    {
      hide Valid, Add, Sync, Cancel;
      match c {
        case AddCommand(src, tar, wd) => var r := AddMonitoredFile(src, tar, wd);
        case CancelCommand(src) => CancelDir(src);
        case SyncCommand(src, wd) => var r := SyncFile(src, wd);
        case ShutdownCommand => StopReading();
      }
    }

    /** What poll finds is handled in the order of the slots: the console, inotify, the workers. */
    method HandlePoll(p: Poll)
      requires Valid() && SchedulerRuns.Run(Model(), PollSteps(Model(), p))
      modifies repr
      ensures Valid() && fresh(repr - old(repr)) && Model() == SchedulerRuns.After(old(Model()), PollSteps(old(Model()), p))
    {
      ghost var s := Model();
      ghost var command := if s.shutDown || p.command.NoCommand? then [] else [CommandStep(p.command)];
      ghost var events := if s.shutDown || p.command.ShutdownCommand? then [] else Reads(p.events);
      RunSplit(s, command + events, Completions(p.ready));
      RunSplit(s, command, events);
      OneOrNone(s, command);
      CommandsKeepRunning(s, p.command);
      hide Valid, SchedulerRuns.Run, SchedulerRuns.After, SchedulerRuns.Next, SchedulerRuns.Enabled, Reads, Completions;
      if !p.command.NoCommand? && !shutDown {
        Execute(p.command);
      }
      assert Model() == SchedulerRuns.After(s, command);
      if !shutDown {
        ReadEvents(p.events);
      }
      ReadReports(p.ready);
    }

    /**
     * One turn of the endless loop: the dispatch pass, the test that ends the manager, and what poll finds. It is a
     * run of the steps of SchedulerRuns, if each of them may be taken.
     */
    method Turnaround(p: Poll) returns (done: bool)
      requires Valid() && |queue.contents| <= |p.setups|
      requires SchedulerRuns.Enabled(Model(), SchedulerRuns.DoPass(p.setups))
      requires var t := Pass(Model(), |queue.contents|, p.setups);
               SchedulerRuns.Done(t) || SchedulerRuns.Run(t, PollSteps(t, p))
      modifies repr
      ensures Valid() && fresh(repr - old(repr))
      ensures var t := Pass(old(Model()), |old(queue.contents)|, p.setups);
              (done <==> SchedulerRuns.Done(t)) && Model() == if done then t else SchedulerRuns.After(t, PollSteps(t, p))
    {
      hide Valid, Pass, PollSteps, SchedulerRuns.Run, SchedulerRuns.After, SchedulerRuns.Enabled;
      DispatchPass(p.setups);
      var waiting := JobCount();
      if shutDown && waiting == 0 && workers.active == 0 {
        return true;
      }
      HandlePoll(p);
      done := false;
    }
  }

  lemma {:induction false} NothingLeft(s: State)
    ensures Reads([]) == [] && Completions([]) == []
    ensures SchedulerRuns.Run(s, []) && SchedulerRuns.After(s, []) == s
  {
  }

  lemma {:induction false} OneOrNone(s: State, steps: seq<SchedulerRuns.Step>)
    requires |steps| <= 1 && SchedulerRuns.Run(s, steps)
    ensures steps == [] ==> SchedulerRuns.After(s, steps) == s
    ensures steps != [] ==>
              SchedulerRuns.Enabled(s, steps[0]) && SchedulerRuns.After(s, steps) == SchedulerRuns.Next(s, steps[0])
  {
    if steps != [] {
      assert steps[1..] == [];
      assert steps == [steps[0]] + [];
      RunHead(s, steps[0], []);
    }
  }

  /** Only the shutdown command shuts down. */
  lemma {:induction false} CommandsKeepRunning(s: State, c: Command)
    ensures !c.NoCommand? && SchedulerRuns.Enabled(s, CommandStep(c)) ==>
              (SchedulerRuns.Next(s, CommandStep(c)).shutDown <==> s.shutDown || c.ShutdownCommand?)
  {
  }
}
