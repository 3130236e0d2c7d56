// What a whole dispatch pass of fss_manager_run does, for every queue, table and outcome of the setups.
module Dispatch {
  import opened Sequences
  import opened Jobs
  import opened Scheduler

  // ---------- Any pass ----------

  /** Whenever the pass sets up a worker there is a worker slot for it. */
  ghost predicate SlotsSuffice(s: State, n: nat, r: seq<Setup>)
    requires n <= |s.queue| && n <= |r|
    decreases n
  {
    n == 0 || Available(s) == 0
    || ((BusyWith(s.busy, s.queue[0].src) || s.free != []) && SlotsSuffice(DispatchOne(s, r[0]), n - 1, r[1..]))
  }

  /** And no pipe of a worker that starts gets a number that a failed fork left behind. */
  ghost predicate SetupsAreSound(s: State, n: nat, r: seq<Setup>)
    requires n <= |s.queue| && n <= |r|
    decreases n
  {
    n == 0 || Available(s) == 0 || (TurnIsSound(s, r[0]) && SetupsAreSound(DispatchOne(s, r[0]), n - 1, r[1..]))
  }

  lemma {:induction false} PassKeepsInv(s: State, n: nat, r: seq<Setup>)
    requires n <= |s.queue| && n <= |r| && Inv(s) && SetupsAreSound(s, n, r)
    ensures Inv(Pass(s, n, r))
    decreases n
  {
    hide Inv, DispatchOne, TurnIsSound;
    if n != 0 && Available(s) != 0 {
      DispatchStep(s, r[0]);
      PassKeepsInv(DispatchOne(s, r[0]), n - 1, r[1..]);
    }
  }

  /** A readable slot without a worker stays one for the rest of the pass. */
  lemma {:induction false} StaleStaysForThePass(s: State, n: nat, r: seq<Setup>)
    requires n <= |s.queue| && n <= |r| && CoreInv(s) && !NoneStale(s) && SlotsSuffice(s, n, r)
    ensures CoreInv(Pass(s, n, r)) && !NoneStale(Pass(s, n, r))
    decreases n
  {
    hide CoreInv, DispatchOne, NoneStale;
    if n != 0 && Available(s) != 0 {
      TurnStep(s, r[0]);
      StaleStaysForThePass(DispatchOne(s, r[0]), n - 1, r[1..]);
    }
  }

  lemma {:induction false} PassStale(s: State, n: nat, r: seq<Setup>)
    requires n <= |s.queue| && n <= |r| && CoreInv(s) && NoneStale(s) && SlotsSuffice(s, n, r)
    ensures CoreInv(Pass(s, n, r)) && (NoneStale(Pass(s, n, r)) <==> SetupsAreSound(s, n, r))
    decreases n
  {
    hide CoreInv, DispatchOne, NoneStale, TurnIsSound;
    if n != 0 && Available(s) != 0 {
      var t := DispatchOne(s, r[0]);
      TurnStep(s, r[0]);
      if NoneStale(t) {
        PassStale(t, n - 1, r[1..]);
      } else {
        StaleStaysForThePass(t, n - 1, r[1..]);
      }
    }
  }

  /**
   * With slots for all, a pass leaves poll with reports of workers only exactly when no pipe of a worker that it
   * starts got a number that a failed fork left behind.
   */
  lemma {:induction false} PassIsSoundExactlyWhen(s: State, n: nat, r: seq<Setup>)
    requires n <= |s.queue| && n <= |r| && Inv(s) && SlotsSuffice(s, n, r)
    ensures ReportsAreSound(Pass(s, n, r)) <==> SetupsAreSound(s, n, r)
  {
    PassStale(s, n, r);
    hide SlotsSuffice, SetupsAreSound, Pass, NoneStale, SlotInv, Descriptors, ReportsAreSound;
    ReportsAreSoundExactlyWhen(Pass(s, n, r));
  }

  /** A start directly behind a failed fork always gets the number that the fork left behind. */
  lemma {:induction false} FailedForkThenStart(s: State, a: Job, b: Job, pid: nat)
    requires SlotInv(s) && s.free != []
    ensures var t := SetUp(SetUp(s, a, ForkFailed), b, Started(pid));
            !NoneStale(t) && Polled(t, s.free[0]) && s.free[0] !in t.busy
  {
    var slot, t := s.free[0], SetUp(SetUp(s, a, ForkFailed), b, Started(pid));
    assert slot in s.free;
    TakeHead(s.free);
    if s.free[1..] != [] {
      assert s.free[1..][0] in s.free[1..];
    }
    assert slot in t.lost && t.fds[slot] in t.open;
  }

  ghost predicate AllStarted(r: seq<Setup>) {
    forall i :: 0 <= i < |r| ==> r[i].Started?
  }

  lemma {:induction false} SlotLeft(s: State, r: Setup)
    requires Inv(s) && s.lost == {} && s.queue != [] && r.Started?
    ensures Available(s) != 0 ==> Available(s) > 0 && s.free != []
    ensures !Reuses(s) && DispatchOne(s, r).lost == {}
  {
    SlotConservation(s);
  }

  /** Without a failed setup, now or before, there is a slot whenever there is a worker available, and nothing stale. */
  lemma {:induction false} SoundWithoutFailure(s: State, n: nat, r: seq<Setup>)
    requires n <= |s.queue| && n <= |r| && Inv(s) && s.lost == {} && AllStarted(r)
    ensures SetupsAreSound(s, n, r) && Pass(s, n, r).lost == {}
    decreases n
  {
    hide Inv, DispatchOne, Reuses;
    if n != 0 && Available(s) != 0 {
      SlotLeft(s, r[0]);
      DispatchStep(s, r[0]);
      SoundWithoutFailure(DispatchOne(s, r[0]), n - 1, r[1..]);
    }
  }

  /** A directory that is busy stays busy, and a queued job whose directory is busy stays in the queue. */
  lemma {:induction false} DispatchOneBusy(s: State, r: Setup, src: string)
    requires Inv(s) && s.queue != [] && TurnIsSound(s, r)
    ensures BusyWith(DispatchOne(s, r).busy, src)
       <==> BusyWith(s.busy, src) || (src == s.queue[0].src && r.Started?)
  {
    DispatchStep(s, r);
    var t := DispatchOne(s, r);
    if !BusyWith(s.busy, s.queue[0].src) {
      var slot := s.free[0];
      assert slot in s.free;
      if BusyWith(s.busy, src) {
        var k :| k in s.busy && s.busy[k].job.src == src;
        assert t.busy[k] == s.busy[k];
      }
      if r.Started? {
        assert t.busy[slot].job == s.queue[0];
        if BusyWith(t.busy, src) && src != s.queue[0].src {
          var k :| k in t.busy && t.busy[k].job.src == src;
          assert s.busy[k].job.src == src;
        }
      }
    }
  }

  /** The jobs behind the first n belong to busy directories. */
  ghost predicate BusyFrom(s: State, n: nat)
    requires n <= |s.queue|
  {
    forall i :: n <= i < |s.queue| ==> BusyWith(s.busy, s.queue[i].src)
  }

  lemma {:induction false} TurnRotates(s: State, r: Setup)
    requires Inv(s) && s.queue != [] && TurnIsSound(s, r)
    ensures var t, wait := DispatchOne(s, r), BusyWith(s.busy, s.queue[0].src);
            t.queue == s.queue[1..] + if wait then [s.queue[0]] else []
  {
    DispatchStep(s, r);
  }

  lemma {:induction false} BusyFromStep(s: State, n: nat, r: Setup)
    requires 0 < n <= |s.queue| && Inv(s) && TurnIsSound(s, r) && BusyFrom(s, n)
    ensures BusyFrom(DispatchOne(s, r), n - 1)
  {
    var t := DispatchOne(s, r);
    TurnRotates(s, r);
    hide Inv, DispatchOne, TurnIsSound, BusyWith;
    forall i | n - 1 <= i < |t.queue| ensures BusyWith(t.busy, t.queue[i].src) {
      DispatchOneBusy(s, r, t.queue[i].src);
      if i < |s.queue| - 1 {
        assert t.queue[i] == s.queue[i + 1];
      } else {
        assert t.queue[i] == s.queue[0];
      }
    }
  }

  lemma {:induction false} PassLeavesBusy(s: State, n: nat, r: seq<Setup>)
    requires n <= |s.queue| && n <= |r| && Inv(s) && SetupsAreSound(s, n, r) && BusyFrom(s, n)
    ensures var t := Pass(s, n, r); Available(t) == 0 || BusyFrom(t, 0)
    decreases n
  {
    hide Inv, DispatchOne, BusyFrom, BusyWith, TurnIsSound;
    if n != 0 && Available(s) != 0 {
      DispatchStep(s, r[0]);
      BusyFromStep(s, n, r[0]);
      PassLeavesBusy(DispatchOne(s, r[0]), n - 1, r[1..]);
    }
  }

  /** No stall: after a pass no worker is available, or every queued job waits for a worker of its own directory. */
  lemma {:induction false} NoStall(s: State, r: seq<Setup>)
    requires |s.queue| <= |r| && Inv(s) && SetupsAreSound(s, |s.queue|, r)
    ensures var t := Pass(s, |s.queue|, r);
            && (Available(t) == 0 || forall j :: j in t.queue ==> BusyWith(t.busy, j.src))
            && (t.queue != [] ==> t.active > 0)
  {
    var t := Pass(s, |s.queue|, r);
    PassLeavesBusy(s, |s.queue|, r);
    PassKeepsInv(s, |s.queue|, r);
    if t.queue != [] && Available(t) != 0 {
      assert BusyWith(t.busy, t.queue[0].src);
      var k :| k in t.busy && t.busy[k].job.src == t.queue[0].src;
      assert |t.busy| > 0;
    }
  }

  // ---------- A pass without a failed setup: its exact shape ----------

  /** The state after k turns. */
  function Turns(s: State, k: nat, r: seq<Setup>): (t: State)
    requires k <= |s.queue| && k <= |r|
    ensures |t.queue| >= |s.queue| - k
  {
    if k == 0 then s else DispatchOne(Turns(s, k - 1, r), r[k - 1])
  }

  ghost predicate Visited(s: State, k: nat, src: string)
    requires k <= |s.queue|
  {
    exists i :: 0 <= i < k && s.queue[i].src == src
  }

  /** Job i of the queue is the first one of a directory that is idle at the start. */
  ghost predicate Chosen(s: State, i: nat)
    requires i < |s.queue|
  {
    !BusyWith(s.busy, s.queue[i].src) && !Visited(s, i, s.queue[i].src)
  }

  ghost function Launched(s: State, k: nat): seq<Job>
    requires k <= |s.queue|
  {
    if k == 0 then [] else Launched(s, k - 1) + if Chosen(s, k - 1) then [s.queue[k - 1]] else []
  }

  ghost function PutBack(s: State, k: nat): seq<Job>
    requires k <= |s.queue|
  {
    if k == 0 then [] else PutBack(s, k - 1) + if Chosen(s, k - 1) then [] else [s.queue[k - 1]]
  }

  /** The slots work on what they worked on before, and on the launched jobs. */
  ghost predicate Runs(busy: map<nat, Task>, job: Job) {
    exists k :: k in busy && busy[k].job == job
  }

  /** None of the first k turns found all the workers taken. */
  ghost predicate Unbroken(s: State, k: nat, r: seq<Setup>)
    requires k <= |s.queue| && k <= |r|
  {
    k == 0 || (Unbroken(s, k - 1, r) && Available(Turns(s, k - 1, r)) != 0)
  }

  /** After k turns: the queue, the number of workers, the busy directories and the running jobs. */
  ghost predicate Shape(s: State, t: State, k: nat)
    requires k <= |s.queue|
  {
    && t.queue == s.queue[k..] + PutBack(s, k)
    && t.active == s.active + |Launched(s, k)|
    && BusyShape(s, t.busy, k)
    && (forall job :: Runs(t.busy, job) <==> Runs(s.busy, job) || job in Launched(s, k))
  }

  ghost predicate BusyShape(s: State, busy: map<nat, Task>, k: nat)
    requires k <= |s.queue|
  {
    forall src :: BusyWith(busy, src) <==> BusyWith(s.busy, src) || Visited(s, k, src)
  }

  lemma {:induction false} TurnEffect(s: State, r: Setup)
    requires Inv(s) && s.queue != [] && TurnIsSound(s, r) && r.Started?
    ensures var t, job, wait := DispatchOne(s, r), s.queue[0], BusyWith(s.busy, s.queue[0].src);
            && Inv(t) && t.limit == s.limit
            && t.queue == s.queue[1..] + (if wait then [job] else [])
            && t.active == s.active + (if wait then 0 else 1)
  {
    DispatchStep(s, r);
  }

  /** One successful turn, without the tables. */
  lemma {:induction false} DispatchOneEffect(s: State, r: Setup)
    requires Inv(s) && s.queue != [] && TurnIsSound(s, r) && r.Started?
    ensures var t, job, wait := DispatchOne(s, r), s.queue[0], BusyWith(s.busy, s.queue[0].src);
            && Inv(t) && t.limit == s.limit
            && t.queue == s.queue[1..] + (if wait then [job] else [])
            && t.active == s.active + (if wait then 0 else 1)
            && (forall src :: BusyWith(t.busy, src) <==> BusyWith(s.busy, src) || src == job.src)
            && (forall j :: Runs(t.busy, j) <==> Runs(s.busy, j) || (!wait && j == job))
  {
    hide *;
    TurnEffect(s, r);
    forall src ensures BusyWith(DispatchOne(s, r).busy, src) <==> BusyWith(s.busy, src) || src == s.queue[0].src {
      DispatchOneBusy(s, r, src);
    }
    forall j
      ensures Runs(DispatchOne(s, r).busy, j) <==> Runs(s.busy, j) || (!BusyWith(s.busy, s.queue[0].src) && j == s.queue[0])
    {
      RunsAfterTurn(s, r, j);
    }
  }

  lemma {:induction false} VisitedStep(s: State, k: nat)
    requires 0 < k <= |s.queue|
    ensures forall src :: Visited(s, k, src) <==> Visited(s, k - 1, src) || src == s.queue[k - 1].src
  {
  }

  lemma {:induction false} ShapeStepQueue(s: State, u: State, k: nat, job: Job)
    requires 0 < k <= |s.queue| && job == s.queue[k - 1] && u.queue == s.queue[k - 1..] + PutBack(s, k - 1)
    ensures u.queue != [] && u.queue[0] == job
    ensures u.queue[1..] + (if Chosen(s, k - 1) then [] else [job]) == s.queue[k..] + PutBack(s, k)
  {
    hide Chosen;
    assert s.queue[k - 1..] == [job] + s.queue[k..];
    assert u.queue[1..] == s.queue[k..] + PutBack(s, k - 1);
  }

  lemma {:induction false} ShapeStepBusy(s: State, before: map<nat, Task>, after: map<nat, Task>, k: nat)
    requires 0 < k <= |s.queue| && BusyShape(s, before, k - 1)
    requires forall src :: BusyWith(after, src) <==> BusyWith(before, src) || src == s.queue[k - 1].src
    ensures BusyShape(s, after, k)
    ensures Chosen(s, k - 1) <==> !BusyWith(before, s.queue[k - 1].src)
  {
    hide BusyWith, Visited;
    VisitedStep(s, k);
  }

  lemma {:induction false} ShapeStep(s: State, u: State, k: nat, r: Setup)
    requires 0 < k <= |s.queue| && r.Started? && Inv(u) && Shape(s, u, k - 1)
    requires u.queue != [] ==> TurnIsSound(u, r)
    ensures u.queue != [] && Inv(DispatchOne(u, r)) && DispatchOne(u, r).limit == u.limit
    ensures Shape(s, DispatchOne(u, r), k)
  {
    hide Inv, DispatchOne, BusyWith, Runs, Visited, BusyShape, Chosen, TurnIsSound;
    ShapeStepQueue(s, u, k, s.queue[k - 1]);
    DispatchOneEffect(u, r);
    ShapeStepBusy(s, u.busy, DispatchOne(u, r).busy, k);
  }

  /** In a sound pass every turn before its end is sound. */
  lemma {:induction false} TurnOfSoundPass(s: State, n: nat, k: nat, r: seq<Setup>)
    requires k < n <= |s.queue| && n <= |r| && SetupsAreSound(s, n, r) && Unbroken(s, k + 1, r)
    ensures TurnIsSound(Turns(s, k, r), r[k])
    decreases k
  {
    hide DispatchOne, TurnIsSound, Available;
    assert Turns(s, 0, r) == s;
    TurnsFromHead(s, k + 1, r);
    if k != 0 {
      TurnsFromHead(s, k, r);
      TurnOfSoundPass(DispatchOne(s, r[0]), n - 1, k - 1, r[1..]);
    }
  }

  lemma {:induction false} LastTurn(s: State, k: nat, r: seq<Setup>)
    requires |s.queue| <= |r| && 0 < k <= |s.queue| && AllStarted(r) && SetupsAreSound(s, |s.queue|, r)
    requires Unbroken(s, k, r)
    ensures Unbroken(s, k - 1, r) && r[k - 1].Started?
    ensures Turns(s, k, r) == DispatchOne(Turns(s, k - 1, r), r[k - 1])
    ensures TurnIsSound(Turns(s, k - 1, r), r[k - 1])
  {
    hide DispatchOne, SetupsAreSound, TurnIsSound, Available;
    TurnOfSoundPass(s, |s.queue|, k - 1, r);
  }

  lemma {:induction false} TurnsShape(s: State, k: nat, r: seq<Setup>)
    requires |s.queue| <= |r| && k <= |s.queue| && Inv(s) && AllStarted(r) && SetupsAreSound(s, |s.queue|, r)
    requires Unbroken(s, k, r)
    ensures var t := Turns(s, k, r); Inv(t) && t.limit == s.limit && Shape(s, t, k)
  {
    hide Inv, DispatchOne, Shape, SetupsAreSound, AllStarted;
    if k == 0 {
      ShapeZero(s);
    } else {
      hide *;
      LastTurn(s, k, r);
      TurnsShape(s, k - 1, r);
      ShapeStep(s, Turns(s, k - 1, r), k, r[k - 1]);
    }
  }

  lemma {:induction false} ShapeZero(s: State)
    ensures Shape(s, s, 0)
  {
    assert s.queue[0..] + [] == s.queue;
  }

  lemma {:induction false} RunsAfterTurn(s: State, r: Setup, job: Job)
    requires Inv(s) && s.queue != [] && TurnIsSound(s, r) && r.Started?
    ensures Runs(DispatchOne(s, r).busy, job)
       <==> Runs(s.busy, job) || (!BusyWith(s.busy, s.queue[0].src) && job == s.queue[0])
  {
    DispatchStep(s, r);
    hide Inv;
    if !BusyWith(s.busy, s.queue[0].src) {
      var busy, slot := DispatchOne(s, r).busy, s.free[0];
      assert slot in s.free && busy[slot].job == s.queue[0];
      if Runs(s.busy, job) {
        var k :| k in s.busy && s.busy[k].job == job;
        assert busy[k] == s.busy[k];
      }
      if Runs(busy, job) && job != s.queue[0] {
        var k :| k in busy && busy[k].job == job;
        assert s.busy[k] == busy[k];
      }
    }
  }

  /** The pass turn by turn from its start is the turns counted from their end. */
  lemma {:induction false} TurnsFromHead(s: State, k: nat, r: seq<Setup>)
    requires 0 < k <= |s.queue| && k <= |r|
    ensures Turns(s, k, r) == Turns(DispatchOne(s, r[0]), k - 1, r[1..])
    ensures Unbroken(s, k, r) <==> Available(s) != 0 && Unbroken(DispatchOne(s, r[0]), k - 1, r[1..])
  {
    hide DispatchOne, Available;
    assert Turns(s, 0, r) == s;
    if k != 1 {
      TurnsFromHead(s, k - 1, r);
      assert r[1..][k - 2] == r[k - 1];
    }
  }

  lemma {:induction false} PassIsTurns(s: State, n: nat, r: seq<Setup>) returns (k: nat)
    requires n <= |s.queue| && n <= |r|
    ensures k <= n && Pass(s, n, r) == Turns(s, k, r) && Unbroken(s, k, r)
    ensures k == n || Available(Turns(s, k, r)) == 0
    decreases n
  {
    hide DispatchOne, Available;
    if n == 0 || Available(s) == 0 {
      k := 0;
    } else {
      var j := PassIsTurns(DispatchOne(s, r[0]), n - 1, r[1..]);
      k := j + 1;
      TurnsFromHead(s, k, r);
    }
  }

  lemma {:induction false} LaunchedOncePerDir(s: State, k: nat)
    requires k <= |s.queue|
    ensures forall i, j :: 0 <= i < j < |Launched(s, k)| ==> Launched(s, k)[i].src != Launched(s, k)[j].src
    ensures forall i :: 0 <= i < |Launched(s, k)| ==> Visited(s, k, Launched(s, k)[i].src)
  {
    hide BusyWith, Visited;
    if k != 0 {
      LaunchedOncePerDir(s, k - 1);
      VisitedStep(s, k);
    }
  }

  /** The elements of c, some in a and the others in b. */
  ghost predicate Splits<T>(a: seq<T>, b: seq<T>, c: seq<T>) {
    multiset(a + b) == multiset(c)
  }

  lemma {:induction false} OneMoreJob(s: State, k: nat)
    requires 0 < k <= |s.queue|
    ensures var job, chosen := s.queue[k - 1], Chosen(s, k - 1);
            && Launched(s, k) == Launched(s, k - 1) + (if chosen then [job] else [])
            && PutBack(s, k) == PutBack(s, k - 1) + (if chosen then [] else [job])
            && s.queue[..k] == s.queue[..k - 1] + [job]
  {
    hide Chosen;
  }

  lemma {:induction false} NoJobYet(s: State)
    ensures Launched(s, 0) == [] && PutBack(s, 0) == [] && s.queue[..0] == []
    ensures Splits(Launched(s, 0), PutBack(s, 0), s.queue[..0])
  {
  }

  lemma {:induction false} PassConserves(s: State, k: nat)
    requires k <= |s.queue|
    ensures Splits(Launched(s, k), PutBack(s, k), s.queue[..k])
  {
    hide Chosen, Splits, Launched, PutBack;
    if k == 0 {
      NoJobYet(s);
    } else {
      PassConserves(s, k - 1);
      OneMoreJob(s, k);
      SplitsStep(Launched(s, k - 1), PutBack(s, k - 1), s.queue[..k - 1], s.queue[k - 1], Chosen(s, k - 1));
    }
  }

  lemma {:induction false} SplitsStep<T>(a: seq<T>, b: seq<T>, c: seq<T>, x: T, left: bool)
    requires Splits(a, b, c)
    ensures Splits(a + if left then [x] else [], b + if left then [] else [x], c + [x])
  {
    if left {
      assert b + [] == b;
      assert multiset((a + [x]) + b) == multiset(a) + multiset([x]) + multiset(b);
    } else {
      assert a + [] == a;
      assert a + (b + [x]) == (a + b) + [x];
    }
  }

  lemma {:induction false} RotationConserves<T>(a: seq<T>, b: seq<T>, q: seq<T>, k: nat)
    requires k <= |q| && Splits(a, b, q[..k])
    ensures multiset((q[k..] + b) + a) == multiset(q)
  {
    assert q == q[..k] + q[k..];
  }

  /** Where a pass without a failed setup stops: once it has started as many jobs as there were workers available. */
  ghost function StopFrom(s: State, k: nat): (r: nat)
    requires k <= |s.queue|
    ensures k <= r <= |s.queue|
    decreases |s.queue| - k
  {
    if k == |s.queue| || |Launched(s, k)| == Available(s) then k else StopFrom(s, k + 1)
  }

  ghost function StopAt(s: State): (r: nat)
    ensures r <= |s.queue|
  {
    StopFrom(s, 0)
  }

  lemma {:induction false} StopIs(s: State, j: nat, k: nat)
    requires j <= k <= |s.queue| && (forall i :: j <= i < k ==> |Launched(s, i)| != Available(s))
    requires k == |s.queue| || |Launched(s, k)| == Available(s)
    ensures StopFrom(s, j) == k
    decreases k - j
  {
    if j != k {
      StopIs(s, j + 1, k);
    }
  }

  lemma {:induction false} UnbrokenBefore(s: State, j: nat, k: nat, r: seq<Setup>)
    requires j <= k <= |s.queue| && k <= |r| && Unbroken(s, k, r)
    ensures Unbroken(s, j, r) && (j < k ==> Available(Turns(s, j, r)) != 0)
    decreases k - j
  {
    hide Available, Turns;
    if j != k {
      UnbrokenBefore(s, j, k - 1, r);
    }
  }

  lemma {:induction false} WorkersLeft(s: State, k: nat, r: seq<Setup>)
    requires |s.queue| <= |r| && k <= |s.queue| && Inv(s) && AllStarted(r) && SetupsAreSound(s, |s.queue|, r)
    requires Unbroken(s, k, r)
    ensures Available(Turns(s, k, r)) == Available(s) - |Launched(s, k)|
  {
    hide Inv, DispatchOne, SetupsAreSound;
    TurnsShape(s, k, r);
  }

  /** A pass without a failed setup stops at StopAt. */
  lemma {:induction false} PassStopsAt(s: State, r: seq<Setup>)
    requires |s.queue| <= |r| && Inv(s) && AllStarted(r) && SetupsAreSound(s, |s.queue|, r)
    ensures Pass(s, |s.queue|, r) == Turns(s, StopAt(s), r) && Unbroken(s, StopAt(s), r)
    ensures StopAt(s) < |s.queue| ==> Available(Pass(s, |s.queue|, r)) == 0
  {
    var k := PassIsTurns(s, |s.queue|, r);
    hide Inv, Available, Turns, Unbroken, Pass, Launched, SetupsAreSound;
    forall i | 0 <= i < k ensures |Launched(s, i)| != Available(s) {
      UnbrokenBefore(s, i, k, r);
      WorkersLeft(s, i, r);
    }
    WorkersLeft(s, k, r);
    StopIs(s, 0, k);
  }

  /**
   * The exact shape of a pass without a failed setup: it visits the jobs up to StopAt. The visited jobs whose
   * directory was idle and which come first for it are started, at most one for each directory; the other visited
   * jobs go behind the unvisited ones, in order; no job is lost or made up. It stops early only with no worker left.
   */
  lemma {:induction false} PassShape(s: State, r: seq<Setup>)
    requires |s.queue| <= |r| && Inv(s) && AllStarted(r) && SetupsAreSound(s, |s.queue|, r)
    ensures var t, k := Pass(s, |s.queue|, r), StopAt(s);
            && t.queue == s.queue[k..] + PutBack(s, k)
            && t.active == s.active + |Launched(s, k)|
            && (k < |s.queue| ==> Available(t) == 0)
            && (forall job :: Runs(t.busy, job) <==> Runs(s.busy, job) || job in Launched(s, k))
            && BusyShape(s, t.busy, k)
            && multiset(t.queue + Launched(s, k)) == multiset(s.queue)
            && Inv(t) && t.limit == s.limit
    ensures var jobs := Launched(s, StopAt(s)); forall i, j :: 0 <= i < j < |jobs| ==> jobs[i].src != jobs[j].src
  {
    hide Inv, DispatchOne, BusyWith, Runs, BusyShape, Available, Chosen, Visited, Splits, Launched, PutBack,
      StopAt, Pass, Turns, SetupsAreSound;
    var k := StopAt(s);
    PassStopsAt(s, r);
    TurnsShape(s, k, r);
    LaunchedOncePerDir(s, k);
    PassConserves(s, k);
    RotationConserves(Launched(s, k), PutBack(s, k), s.queue, k);
  }
}
