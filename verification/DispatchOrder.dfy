// The order in which dispatch passes start the jobs of one directory, and what failed setups lead to.
module DispatchOrder {
  import opened Sequences
  import opened Jobs
  import opened Scheduler
  import opened Dispatch

  function JobsOf(queue: seq<Job>, src: string): seq<Job> {
    Filter(queue, Inside(src))
  }

  lemma {:induction false} VisitedMeansJobs(s: State, k: nat, src: string)
    requires k <= |s.queue|
    ensures JobsOf(s.queue[..k], src) != [] <==> Visited(s, k, src)
  {
    if k != 0 {
      VisitedMeansJobs(s, k - 1, src);
      VisitedStep(s, k);
      hide Visited;
      assert s.queue[..k][..k - 1] == s.queue[..k - 1];
    }
  }

  lemma {:induction false} JobsOfAppend(q: seq<Job>, job: Job, src: string)
    ensures JobsOf(q + [job], src) == JobsOf(q, src) + if job.src == src then [job] else []
  {
    assert (q + [job])[..|q|] == q;
  }

  /** The jobs of one directory among the first k, without the launched one. */
  lemma {:induction false} PutBackOf(s: State, k: nat, src: string)
    requires k <= |s.queue|
    ensures var all := JobsOf(s.queue[..k], src);
            JobsOf(PutBack(s, k), src) == if BusyWith(s.busy, src) || all == [] then all else all[1..]
    ensures var all := JobsOf(s.queue[..k], src);
            !BusyWith(s.busy, src) && all != [] ==> all[0] in Launched(s, k)
  {
    hide BusyWith, Visited, JobsOf;
    if k == 0 {
      JobsOfNone(s, src);
    } else {
      PutBackOf(s, k - 1, src);
      VisitedMeansJobs(s, k - 1, src);
      var job, before := s.queue[k - 1], JobsOf(s.queue[..k - 1], src);
      assert s.queue[..k] == s.queue[..k - 1] + [job];
      JobsOfAppend(s.queue[..k - 1], job, src);
      JobsOfAppend(PutBack(s, k - 1), job, src);
      if before != [] {
        assert (before + [job])[1..] == before[1..] + [job];
      }
      assert PutBack(s, k - 1) + [] == PutBack(s, k - 1);
    }
  }

  lemma {:induction false} JobsOfNone(s: State, src: string)
    ensures JobsOf(s.queue[..0], src) == [] == JobsOf([], src)
  {
    assert s.queue[..0] == [];
  }

  lemma {:induction false} DirsCount(monitor: seq<Info>)
    requires DistinctDirs(monitor)
    ensures |set i | 0 <= i < |monitor| :: monitor[i].src| == |monitor|
  {
    if monitor != [] {
      var n := |monitor| - 1;
      var init := monitor[..n];
      DirsCount(init);
      assert (set i | 0 <= i < |monitor| :: monitor[i].src) == (set i | 0 <= i < n :: init[i].src) + {monitor[n].src};
    }
  }

  lemma {:induction false} BusyDirsCount(busy: map<nat, Task>, dirs: set<string>)
    requires OnePerDir(busy) && forall k :: k in busy ==> busy[k].job.src in dirs
    ensures |busy| <= |dirs|
  {
    if busy != map[] {
      var k :| k in busy;
      var rest := busy - {k};
      BusyDirsCount(rest, dirs - {busy[k].job.src});
      assert busy.Keys == rest.Keys + {k};
      assert |busy.Keys| == |busy| && |rest.Keys| == |rest|;
    }
  }

  /** Never more workers than directories in the table. */
  lemma {:induction false} ActiveAtMostDirs(s: State)
    requires Inv(s)
    ensures s.active <= |s.monitor|
  {
    var dirs := set i | 0 <= i < |s.monitor| :: s.monitor[i].src;
    DirsCount(s.monitor);
    forall k | k in s.busy ensures s.busy[k].job.src in dirs {
      var d := s.busy[k].job.src;
      MonitoredFind(s.monitor, d);
      assert Pid(s.monitor, d) != NO_WORKER;
      assert s.monitor[Find(s.monitor, d)].src == d;
    }
    BusyDirsCount(s.busy, dirs);
  }

  lemma {:induction false} PassKeepsTable(s: State, n: nat, r: seq<Setup>)
    requires n <= |s.queue| && n <= |r|
    ensures var t := Pass(s, n, r); |t.monitor| == |s.monitor| && t.shutDown == s.shutDown && t.limit == s.limit
    decreases n
  {
    hide IsWorking, ReadEnd;
    if n != 0 && Available(s) != 0 {
      PassKeepsTable(DispatchOne(s, r[0]), n - 1, r[1..]);
    }
  }

  // ---------- When a pass keeps the order of a directory's jobs ----------

  /**
   * No job of the directory is left unvisited, or none of its visited jobs is put back: at most one is visited, or
   * none while it has a worker.
   */
  ghost predicate KeepsOrder(s: State, src: string) {
    var k := StopAt(s);
    || JobsOf(s.queue[k..], src) == []
    || |JobsOf(s.queue[..k], src)| <= if BusyWith(s.busy, src) then 0 else 1
  }

  /** With more workers than directories every pass is a complete one. */
  lemma {:induction false} EnoughWorkersKeepOrder(s: State, r: seq<Setup>, src: string)
    requires |s.queue| <= |r| && Inv(s) && AllStarted(r) && SetupsAreSound(s, |s.queue|, r) && |s.monitor| < s.limit
    ensures StopAt(s) == |s.queue| && KeepsOrder(s, src)
  {
    hide Inv, SetupsAreSound, BusyShape, Pass, Launched, PutBack, Runs, StopAt, BusyWith;
    PassShape(s, r);
    PassKeepsTable(s, |s.queue|, r);
    ActiveAtMostDirs(Pass(s, |s.queue|, r));
    assert StopAt(s) == |s.queue|;
    assert s.queue[|s.queue|..] == [];
  }

  /** The positions, among the first k, of the jobs that are put back. */
  ghost function PutBackAt(s: State, k: nat): seq<nat>
    requires k <= |s.queue|
  {
    if k == 0 then [] else PutBackAt(s, k - 1) + if Chosen(s, k - 1) then [] else [k - 1]
  }

  /** Where each job of the queue behind the pass was in the queue before. */
  ghost function Origins(s: State): seq<nat> {
    var k := StopAt(s);
    seq(|s.queue| - k, i => k + i) + PutBackAt(s, k)
  }

  lemma {:induction false} PutBackAtIs(s: State, k: nat)
    requires k <= |s.queue|
    ensures |PutBackAt(s, k)| == |PutBack(s, k)|
    ensures forall i :: 0 <= i < |PutBackAt(s, k)| ==>
                          PutBackAt(s, k)[i] < k && PutBack(s, k)[i] == s.queue[PutBackAt(s, k)[i]]
    ensures forall i, j :: 0 <= i < j < |PutBackAt(s, k)| ==> PutBackAt(s, k)[i] < PutBackAt(s, k)[j]
  {
    hide Chosen;
    if k != 0 {
      PutBackAtIs(s, k - 1);
    }
  }

  /** The positions of the directory's jobs increase. */
  ghost predicate Increase(queue: seq<Job>, at: seq<nat>, src: string)
    requires forall i :: 0 <= i < |at| ==> at[i] < |queue|
  {
    forall i, j :: 0 <= i < j < |at| && queue[at[i]].src == src == queue[at[j]].src ==> at[i] < at[j]
  }

  /** No job of the directory has overtaken another one of it, where equal jobs are told apart. */
  ghost predicate InOrder(s: State, src: string)
    requires forall i :: 0 <= i < |Origins(s)| ==> Origins(s)[i] < |s.queue|
  {
    Increase(s.queue, Origins(s), src)
  }

  lemma {:induction false} OriginsAre(s: State)
    ensures var at, k := Origins(s), StopAt(s);
            && |at| == |s.queue| - k + |PutBack(s, k)|
            && (forall i :: 0 <= i < |at| ==> at[i] < |s.queue|)
            && (forall i :: 0 <= i < |at| ==> s.queue[at[i]] == (s.queue[k..] + PutBack(s, k))[i])
  {
    hide StopAt, PutBack, PutBackAt;
    PutBackAtIs(s, StopAt(s));
  }

  lemma {:induction false} OriginsShape(s: State)
    ensures var at, k := Origins(s), StopAt(s);
            var n := |s.queue| - k;
            && |at| == n + |PutBack(s, k)|
            && (forall i :: 0 <= i < n ==> at[i] == k + i)
            && (forall i :: 0 <= i < |PutBack(s, k)| ==> at[n + i] < |s.queue| && s.queue[at[n + i]] == PutBack(s, k)[i])
            && (forall i :: n <= i < |at| ==> at[i] < k)
            && (forall i, j :: n <= i < j < |at| ==> at[i] < at[j])
  {
    hide StopAt, PutBack, PutBackAt;
    PutBackAtIs(s, StopAt(s));
  }

  lemma {:induction false} NoJobs(queue: seq<Job>, src: string)
    ensures JobsOf(queue, src) == [] <==> forall i :: 0 <= i < |queue| ==> queue[i].src != src
  {
    if forall i :: 0 <= i < |queue| ==> queue[i].src != src {
      forall j | j in queue ensures j.src != src {
        var i :| 0 <= i < |queue| && queue[i] == j;
      }
      FilterNone(queue, Inside(src));
    } else {
      var i :| 0 <= i < |queue| && queue[i].src == src;
      FilterMember(queue, Inside(src), queue[i]);
    }
  }

  /** Some job of the directory is at a position from lo on and below hi. */
  ghost predicate Among(queue: seq<Job>, at: seq<nat>, lo: nat, hi: nat, src: string)
    requires hi <= |at| && forall i :: 0 <= i < |at| ==> at[i] < |queue|
  {
    exists i :: lo <= i < hi && queue[at[i]].src == src
  }

  /** Two increasing runs of positions, all of the first behind all of the second. */
  lemma {:induction false} TwoRuns(queue: seq<Job>, at: seq<nat>, n: nat, k: nat, src: string)
    requires n <= |at| && (forall i :: 0 <= i < |at| ==> at[i] < |queue|)
    requires (forall i :: 0 <= i < n ==> at[i] == k + i) && (forall i :: n <= i < |at| ==> at[i] < k)
    requires forall i, j :: n <= i < j < |at| ==> at[i] < at[j]
    ensures Increase(queue, at, src) <==> !Among(queue, at, 0, n, src) || !Among(queue, at, n, |at|, src)
  {
    if Among(queue, at, 0, n, src) && Among(queue, at, n, |at|, src) {
      var i :| 0 <= i < n && queue[at[i]].src == src;
      var j :| n <= j < |at| && queue[at[j]].src == src;
      assert at[i] > at[j];
    }
  }

  lemma {:induction false} AmongIs(queue: seq<Job>, at: seq<nat>, lo: nat, jobs: seq<Job>, src: string)
    requires lo + |jobs| <= |at| && (forall i :: 0 <= i < |at| ==> at[i] < |queue|)
    requires forall i :: 0 <= i < |jobs| ==> queue[at[lo + i]] == jobs[i]
    ensures Among(queue, at, lo, lo + |jobs|, src) <==> JobsOf(jobs, src) != []
  {
    NoJobs(jobs, src);
    hide JobsOf;
    if Among(queue, at, lo, lo + |jobs|, src) {
      var i :| lo <= i < lo + |jobs| && queue[at[i]].src == src;
      assert jobs[i - lo].src == src;
    }
  }

  /** Of two such runs, which hold the jobs `ahead` and `behind`, what is in order is exactly one without the other. */
  lemma {:induction false} RunsInOrder(queue: seq<Job>, at: seq<nat>, k: nat, ahead: seq<Job>, behind: seq<Job>, src: string)
    requires |at| == |ahead| + |behind| && (forall i :: 0 <= i < |at| ==> at[i] < |queue|)
    requires forall i :: 0 <= i < |ahead| ==> at[i] == k + i && queue[at[i]] == ahead[i]
    requires forall i :: 0 <= i < |behind| ==> queue[at[|ahead| + i]] == behind[i]
    requires forall i :: |ahead| <= i < |at| ==> at[i] < k
    requires forall i, j :: |ahead| <= i < j < |at| ==> at[i] < at[j]
    ensures Increase(queue, at, src) <==> JobsOf(ahead, src) == [] || JobsOf(behind, src) == []
  {
    hide JobsOf, Among, Increase;
    TwoRuns(queue, at, |ahead|, k, src);
    AmongIs(queue, at, 0, ahead, src);
    AmongIs(queue, at, |ahead|, behind, src);
  }

  /** What is put back and what is left unvisited, both of one directory, are what is out of order. */
  lemma {:induction false} OutOfOrderExactlyWhen(s: State, src: string)
    requires forall i :: 0 <= i < |Origins(s)| ==> Origins(s)[i] < |s.queue|
    ensures var k := StopAt(s);
            InOrder(s, src) <==> JobsOf(s.queue[k..], src) == [] || JobsOf(PutBack(s, k), src) == []
  {
    OriginsShape(s);
    hide JobsOf, PutBack, PutBackAt, StopAt, Origins, Increase;
    RunsInOrder(s.queue, Origins(s), StopAt(s), s.queue[StopAt(s)..], PutBack(s, StopAt(s)), src);
  }

  /**
   * The order of a directory's jobs, also of equal ones, behind a pass without a failed setup is the order before
   * exactly under a condition on the state before.
   */
  lemma {:induction false} PassKeepsOrderExactlyWhen(s: State, r: seq<Setup>, src: string)
    requires |s.queue| <= |r| && Inv(s) && AllStarted(r) && SetupsAreSound(s, |s.queue|, r)
    ensures var t, at := Pass(s, |s.queue|, r), Origins(s);
            && |t.queue| == |at| && (forall i :: 0 <= i < |at| ==> at[i] < |s.queue| && t.queue[i] == s.queue[at[i]])
            && (InOrder(s, src) <==> KeepsOrder(s, src))
  {
    hide Inv, SetupsAreSound, BusyShape, Pass, Launched, PutBack, Runs, StopAt, BusyWith, JobsOf, InOrder, Origins;
    PassShape(s, r);
    OriginsAre(s);
    OutOfOrderExactlyWhen(s, src);
    PutBackOf(s, StopAt(s), src);
  }

  /** What a pass starts of a directory: at most its first job, if it is idle and a job of it is visited. */
  ghost function StartedOf(s: State, src: string): seq<Job> {
    var visited := JobsOf(s.queue[..StopAt(s)], src);
    if BusyWith(s.busy, src) || visited == [] then [] else [visited[0]]
  }

  /** Under that condition a pass takes what it starts of a directory from the front of its jobs. */
  lemma {:induction false} PassKeepsOrder(s: State, r: seq<Setup>, src: string)
    requires |s.queue| <= |r| && Inv(s) && AllStarted(r) && SetupsAreSound(s, |s.queue|, r) && KeepsOrder(s, src)
    ensures var t, started := Pass(s, |s.queue|, r), StartedOf(s, src);
            && JobsOf(s.queue, src) == started + JobsOf(t.queue, src)
            && JobsOf(Launched(s, StopAt(s)), src) == started
            && (BusyWith(t.busy, src) <==> BusyWith(s.busy, src) || started != [])
            && (started != [] ==> Runs(t.busy, started[0]))
            && Inv(t) && t.limit == s.limit
  {
    var k := StopAt(s);
    PassShape(s, r);
    hide Inv, SetupsAreSound, Pass, Launched, PutBack, Runs, StopAt, BusyWith, JobsOf, Visited, KeepsOrder;
    VisitedMeansJobs(s, k, src);
    LaunchedOf(s, k, src);
    PutBackOf(s, k, src);
    FrontThenRest(s, src);
  }

  /** Nothing lies between what is started and what stays when one of the two parts that change places is empty. */
  lemma {:induction false} PartsInOrder(all: seq<Job>, started: seq<Job>, back: seq<Job>, rest: seq<Job>)
    requires all == started + back && (rest == [] || back == [])
    ensures all + rest == started + (rest + back)
  {
    if rest == [] {
      assert all + rest == all && rest + back == back;
    } else {
      assert started + back == started && rest + back == rest;
    }
  }

  lemma {:induction false} FrontOf(s: State, src: string)
    ensures var k := StopAt(s); JobsOf(s.queue[..k], src) == StartedOf(s, src) + JobsOf(PutBack(s, k), src)
    ensures KeepsOrder(s, src) ==> JobsOf(s.queue[StopAt(s)..], src) == [] || JobsOf(PutBack(s, StopAt(s)), src) == []
  {
    hide StopAt, BusyWith, PutBack, JobsOf, Launched;
    PutBackOf(s, StopAt(s), src);
  }

  lemma {:induction false} FrontThenRest(s: State, src: string)
    requires KeepsOrder(s, src)
    ensures var k := StopAt(s); JobsOf(s.queue, src) == StartedOf(s, src) + JobsOf(s.queue[k..] + PutBack(s, k), src)
  {
    hide StopAt, PutBack, JobsOf, KeepsOrder, StartedOf;
    var k := StopAt(s);
    FrontOf(s, src);
    JobsOfConcat(s.queue[..k], s.queue[k..], src);
    JobsOfConcat(s.queue[k..], PutBack(s, k), src);
    assert s.queue == s.queue[..k] + s.queue[k..];
    PartsInOrder(JobsOf(s.queue[..k], src), StartedOf(s, src), JobsOf(PutBack(s, k), src), JobsOf(s.queue[k..], src));
  }

  lemma {:induction false} LaunchedOf(s: State, k: nat, src: string)
    requires k <= |s.queue|
    ensures var all := JobsOf(s.queue[..k], src);
            JobsOf(Launched(s, k), src) == if BusyWith(s.busy, src) || all == [] then [] else [all[0]]
  {
    hide BusyWith, Visited, JobsOf;
    if k == 0 {
      JobsOfNone(s, src);
    } else {
      LaunchedOf(s, k - 1, src);
      VisitedMeansJobs(s, k - 1, src);
      var job, l := s.queue[k - 1], Launched(s, k - 1);
      assert s.queue[..k] == s.queue[..k - 1] + [job];
      JobsOfAppend(s.queue[..k - 1], job, src);
      JobsOfAppend(l, job, src);
      assert l + [] == l;
    }
  }

  lemma {:induction false} JobsOfConcat(a: seq<Job>, b: seq<Job>, src: string)
    ensures JobsOf(a + b, src) == JobsOf(a, src) + JobsOf(b, src)
  {
    FilterAppend(a, b, Inside(src));
  }

  // Two workers, two directories, three jobs for one of them and one for the other.

  const A1 := Job("a", "x", "1", Added, false)
  const A2 := Job("a", "x", "2", Added, false)
  const A3 := Job("a", "x", "3", Added, false)
  const B1 := Job("b", "y", "1", Added, false)
  const INFO_A := Info("a", "x", 1, NO_WORKER, true)
  const INFO_B := Info("b", "y", 2, NO_WORKER, true)

  const CROWDED := State(2, 0, [2, 3], map[], {}, map[], {}, [A1, A2, B1, A3], [INFO_A, INFO_B], false)

  // One worker, two directories with a job each.

  const ALL_A := Job("a", "x", "ALL", Full, false)
  const ALL_B := Job("b", "y", "ALL", Full, false)

  const SOLE := State(1, 0, [2], map[], {}, map[], {}, [ALL_A, ALL_B], [INFO_A, INFO_B], false)

  lemma {:induction false} TwoDirs(pidA: int, pidB: int)
    ensures var m := [INFO_A.(pid := pidA), INFO_B.(pid := pidB)];
            Find(m, "a") == 0 && Find(m, "b") == 1 && DistinctDirs(m)
  {
    var m := [INFO_A.(pid := pidA), INFO_B.(pid := pidB)];
    assert "a"[0] != "b"[0];
    assert m[1..] == [INFO_B.(pid := pidB)];
  }

  /** Jobs of these directories, none of them a console sync. */
  predicate PlainJobs(queue: seq<Job>) {
    forall i :: 0 <= i < |queue| ==> !queue[i].sync && (queue[i].src == "a" || queue[i].src == "b")
  }

  lemma {:induction false} IdleInv(s: State)
    requires 0 < s.limit == |s.free| && (forall i :: 0 <= i < |s.free| ==> s.free[i] == i + 2)
    requires s.active == 0 && s.busy == map[] && s.lost == {} && s.fds == map[]
    requires s.monitor == [INFO_A, INFO_B] && PlainJobs(s.queue)
    ensures Inv(s)
  {
    TwoDirs(NO_WORKER, NO_WORKER);
    assert s.monitor == [INFO_A.(pid := NO_WORKER), INFO_B.(pid := NO_WORKER)];
    assert SlotInv(s) by {
      forall x | 2 <= x < s.limit + 2 ensures x in s.free {
        assert s.free[x - 2] == x;
      }
    }
    hide SlotInv, DistinctDirs;
    assert s.monitor[0].src == "a" && s.monitor[1].src == "b";
    forall src ensures SyncLoad(s.queue, s.busy, src) <= 1 {
      FilterNone(s.queue, IsSyncOf(src));
    }
  }

  lemma {:induction false} SolePass(r: seq<Setup>)
    requires r == [PipeFailed, Started(7)]
    ensures !SlotsSuffice(SOLE, 2, r) && 0 in Pass(SOLE, 2, r).busy
  {
    var s := SOLE;
    TwoDirs(NO_WORKER, NO_WORKER);
    assert s.monitor == [INFO_A.(pid := NO_WORKER), INFO_B.(pid := NO_WORKER)];
    var u := s.(free := [], lost := {2}, queue := [ALL_B]);
    assert DispatchOne(s, r[0]) == u;
    var t := DispatchOne(u, r[1..][0]);
    assert 0 in t.busy && !SlotsSuffice(u, 1, r[1..]);
    assert Pass(s, 2, r) == Pass(u, 1, r[1..]) == t;
  }

  /** One slot, a failed pipe, and the next job is given the console's index. */
  lemma {:induction false} OneFailureCanGiveAwayTheConsole(r: seq<Setup>)
    requires r == [PipeFailed, Started(7)]
    ensures Inv(SOLE) && SOLE.lost == {} && !SlotsSuffice(SOLE, 2, r) && 0 in Pass(SOLE, 2, r).busy
  {
    hide SlotsSuffice, Pass, Inv;
    SolePass(r);
    IdleInv(SOLE);
  }

  // Two workers, two directories with a job each.

  const PAIR := State(2, 0, [2, 3], map[], {}, map[], {}, [ALL_A, ALL_B], [INFO_A, INFO_B], false)

  lemma {:induction false} PairPass(r: seq<Setup>)
    requires r == [ForkFailed, Started(7)]
    ensures var t := Pass(PAIR, 2, r);
            && 2 in t.lost && t.busy == map[3 := Task(ALL_B, 7)] && t.fds.Keys == {2, 3} && t.fds[2] == t.fds[3]
            && Polled(t, 2) && Polled(t, 3)
    ensures SlotsSuffice(PAIR, 2, r)
  {
    var s := PAIR;
    TwoDirs(NO_WORKER, NO_WORKER);
    assert s.monitor == [INFO_A.(pid := NO_WORKER), INFO_B.(pid := NO_WORKER)];
    var u := s.(free := [3], lost := {2}, queue := [ALL_B], fds := map[2 := ReadEnd(s.open)]);
    assert DispatchOne(s, r[0]) == u;
    var t := DispatchOne(u, r[1..][0]);
    assert t.fds == map[2 := ReadEnd(s.open), 3 := ReadEnd(s.open)];
    assert SlotsSuffice(u, 1, r[1..]);
    assert Pass(s, 2, r) == Pass(u, 1, r[1..]) == t;
  }

  /** A failed fork and a start in one pass: poll reports both slots by one descriptor, and one has no worker. */
  lemma {:induction false} FailedForkCanMixReports(r: seq<Setup>)
    requires r == [ForkFailed, Started(7)]
    ensures var t := Pass(PAIR, 2, r);
            && Inv(PAIR) && SlotsSuffice(PAIR, 2, r) && !SetupsAreSound(PAIR, 2, r)
            && Polled(t, 2) && Polled(t, 3) && 2 !in t.busy && 3 in t.busy && t.fds[2] == t.fds[3]
  {
    hide SlotsSuffice, SetupsAreSound, Pass, Inv;
    PairPass(r);
    IdleInv(PAIR);
    PassIsSoundExactlyWhen(PAIR, 2, r);
  }

  lemma {:induction false} CrowdedPass(r: seq<Setup>)
    requires |r| == 4 && r[0] == Started(7) && r[2] == Started(9)
    ensures Pass(CROWDED, 4, r).queue == [A3, A2]
  {
    var s := CROWDED;
    TwoDirs(NO_WORKER, NO_WORKER);
    TwoDirs(7, NO_WORKER);
    TwoDirs(7, 9);
    assert s.monitor == [INFO_A.(pid := NO_WORKER), INFO_B.(pid := NO_WORKER)];
    var s1 := s.(free := [3], active := 1, busy := map[2 := Task(A1, 7)], queue := [A2, B1, A3],
                fds := map[2 := ReadEnd(s.open)], open := s.open + {ReadEnd(s.open)},
                monitor := [INFO_A.(pid := 7), INFO_B.(pid := NO_WORKER)]);
    assert DispatchOne(s, r[0]) == s1;
    var s2 := s1.(queue := [B1, A3, A2]);
    assert DispatchOne(s1, r[1]) == s2;
    var s3 := DispatchOne(s2, r[2]);
    assert s3.queue == [A3, A2] && s3.active == 2;
    assert r[1..][0] == r[1] && r[1..][1..] == r[2..] && r[2..][1..] == r[3..];
    assert Pass(s, 4, r) == Pass(s1, 3, r[1..]) == Pass(s2, 2, r[2..]);
    assert Pass(s2, 2, r[2..]) == Pass(s3, 1, r[3..]) == s3;
  }

  /** With as many workers as directories a pass can stop early, and the third job of a overtakes the second. */
  lemma {:induction false} TwoWorkersTwoDirsCanReorder(r: seq<Setup>)
    requires r == [Started(7), Started(8), Started(9), Started(10)]
    ensures Inv(CROWDED) && CROWDED.lost == {} && AllStarted(r) && |CROWDED.monitor| == CROWDED.limit
    ensures CROWDED.queue == [A1, A2, B1, A3] && Pass(CROWDED, 4, r).queue == [A3, A2]
  {
    hide Pass, Inv;
    CrowdedPass(r);
    IdleInv(CROWDED);
  }
}
