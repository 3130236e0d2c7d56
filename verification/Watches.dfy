// What becomes of inotify events whose watch left the table, or whose watch two directories share.
module Watches {
  import opened Sequences
  import opened Jobs
  import opened Scheduler
  import opened SchedulerRuns
  import Convergence
  import Mirror
  import JobRemoval

  ghost predicate HasWatch(monitor: seq<Info>, wd: int) {
    exists i :: 0 <= i < |monitor| && monitor[i].wd == wd
  }

  ghost predicate OneHas(monitor: seq<Info>, wd: int) {
    forall i, j :: 0 <= i < |monitor| && 0 <= j < |monitor| && monitor[i].wd == wd == monitor[j].wd ==> i == j
  }

  lemma {:induction false} ReadableMeansHasWatch(s: State, e: Event)
    requires e.kind != Other
    ensures Readable(s, e) <==> HasWatch(s.monitor, e.wd)
  {
    var i := FindWatch(s.monitor, e.wd);
    assert i < |s.monitor| ==> s.monitor[i].wd == e.wd;
  }

  // ---------- When an unread event loses its entry ----------

  /** The directory's entry has the watch, and gets another one. */
  predicate Replaces(monitor: seq<Info>, src: string, w: int, wd: int) {
    var i := Find(monitor, src); i < |monitor| && monitor[i].wd == wd && w != wd
  }

  /** The step watches a cancelled directory anew, and its entry gives up this watch. */
  predicate Rewatches(s: State, x: Step, wd: int) {
    match x
    case DoAdd(src, _, w) => !IsActive(s.monitor, src) && 0 <= w && Replaces(s.monitor, src, w, wd)
    case DoSync(src, w) =>
      && !IsActive(s.monitor, src) && 0 <= w && Replaces(s.monitor, src, w, wd)
      && s.monitor[Find(s.monitor, src)].pid == NO_WORKER && !JobRemoval.Queued(s.queue, src)
    case _ => false
  }

  /** inotify hands out the number again. */
  predicate HandsOut(x: Step, wd: int) {
    (x.DoAdd? || x.DoSync?) && x.wd == wd
  }

  ghost predicate NeverRewatched(s: State, run: seq<Step>, wd: int)
    requires Run(s, run)
    decreases |run|
  {
    run == [] || (!Rewatches(s, run[0], wd) && NeverRewatched(Next(s, run[0]), run[1..], wd))
  }

  lemma {:induction false} SameWatches(a: seq<Info>, b: seq<Info>, wd: int)
    requires |a| == |b| && forall i :: 0 <= i < |a| ==> b[i].wd == a[i].wd
    ensures (HasWatch(a, wd) <==> HasWatch(b, wd)) && (OneHas(a, wd) ==> OneHas(b, wd))
  {
    if HasWatch(a, wd) {
      var i :| 0 <= i < |a| && a[i].wd == wd;
      assert b[i].wd == wd;
    }
  }

  lemma {:induction false} WatchEffect(monitor: seq<Info>, src: string, tar: string, w: int, wd: int)
    requires OneHas(monitor, wd) && w != wd
    ensures var m := Watch(monitor, src, tar, w);
            OneHas(m, wd) && (HasWatch(m, wd) <==> HasWatch(monitor, wd) && !Replaces(monitor, src, w, wd))
  {
    var m, k := Watch(monitor, src, tar, w), Find(monitor, src);
    forall i | 0 <= i < |monitor| && i != k ensures m[i] == monitor[i] {
    }
    if HasWatch(monitor, wd) && !Replaces(monitor, src, w, wd) {
      var i :| 0 <= i < |monitor| && monitor[i].wd == wd;
      assert m[i].wd == wd;
    }
  }

  lemma {:induction false} PassWatches(s: State, r: seq<Setup>, wd: int)
    requires |s.queue| <= |r|
    ensures var m := Pass(s, |s.queue|, r).monitor;
            (HasWatch(s.monitor, wd) <==> HasWatch(m, wd)) && (OneHas(s.monitor, wd) ==> OneHas(m, wd))
  {
    Convergence.PassKeepsEntries(s, |s.queue|, r);
    hide Pass;
    SameWatches(s.monitor, Pass(s, |s.queue|, r).monitor, wd);
  }

  lemma {:induction false} StepWatch(s: State, x: Step, wd: int)
    requires Possible(s, x) && OneHas(s.monitor, wd) && !HandsOut(x, wd)
    ensures var m := Next(s, x).monitor;
            OneHas(m, wd) && (HasWatch(m, wd) <==> HasWatch(s.monitor, wd) && !Rewatches(s, x, wd))
  {
    match x {
      case DoPass(r) => PassWatches(s, r, wd);
      case DoAdd(src, tar, w) => WatchEffect(s.monitor, src, tar, w, wd);
      case DoSync(src, w) =>
        var i := Find(s.monitor, src);
        if i < |s.monitor| {
          WatchEffect(s.monitor, src, s.monitor[i].tar, w, wd);
        }
      case _ => SameWatches(s.monitor, Next(s, x).monitor, wd);
    }
  }

  lemma {:induction false} RunWatch(s: State, run: seq<Step>, wd: int)
    requires Run(s, run) && OneHas(s.monitor, wd) && forall i :: 0 <= i < |run| ==> !HandsOut(run[i], wd)
    ensures HasWatch(After(s, run).monitor, wd) <==> HasWatch(s.monitor, wd) && NeverRewatched(s, run, wd)
    decreases |run|
  {
    hide Possible, Next, HasWatch, OneHas, Rewatches, Scheduler.SlotInv;
    if run != [] {
      StepWatch(s, run[0], wd);
      RunWatch(Next(s, run[0]), run[1..], wd);
    }
  }

  /**
   * Over every run, an event that can be read now can still be read later exactly when the directory of its watch
   * was not watched anew in between: its entry is what the manager would look for, and not find.
   */
  lemma {:induction false} ReadableExactlyWhen(s: State, run: seq<Step>, e: Event)
    requires Run(s, run) && e.kind != Other && Readable(s, e) && OneHas(s.monitor, e.wd)
    requires forall i :: 0 <= i < |run| ==> !HandsOut(run[i], e.wd)
    ensures Readable(After(s, run), e) <==> NeverRewatched(s, run, e.wd)
  {
    RunWatch(s, run, e.wd);
    ReadableMeansHasWatch(s, e);
    ReadableMeansHasWatch(After(s, run), e);
    hide Readable, HasWatch, OneHas, Run, After;
  }

  /** The directory is active, and has the watch. */
  predicate ActiveWith(monitor: seq<Info>, src: string, wd: int) {
    IsActive(monitor, src) && monitor[Find(monitor, src)].wd == wd
  }

  lemma {:induction false} SameActive(a: seq<Info>, b: seq<Info>, src: string, wd: int)
    requires |a| == |b| && ActiveWith(a, src, wd)
    requires forall i :: 0 <= i < |a| ==>
               b[i].src == a[i].src && (a[i].src == src ==> b[i].wd == a[i].wd && b[i].active == a[i].active)
    ensures ActiveWith(b, src, wd)
  {
    FindBySource(a, b, src);
  }

  lemma {:induction false} WatchKeepsActive(monitor: seq<Info>, other: string, tar: string, w: int, src: string, wd: int)
    requires ActiveWith(monitor, src, wd) && !IsActive(monitor, other)
    ensures ActiveWith(Watch(monitor, other, tar, w), src, wd)
  {
    var i, m := Find(monitor, other), Watch(monitor, other, tar, w);
    assert other != src;
    if i < |monitor| {
      SameActive(monitor, m, src, wd);
    } else {
      FindInAppended(monitor, m[i], src);
    }
  }

  lemma {:induction false} PassKeepsActive(s: State, r: seq<Setup>, src: string, wd: int)
    requires |s.queue| <= |r| && ActiveWith(s.monitor, src, wd)
    ensures ActiveWith(Pass(s, |s.queue|, r).monitor, src, wd)
  {
    Convergence.PassKeepsEntries(s, |s.queue|, r);
    hide Pass;
    SameActive(s.monitor, Pass(s, |s.queue|, r).monitor, src, wd);
  }

  lemma {:induction false} StepKeepsActive(s: State, x: Step, src: string, wd: int)
    requires Possible(s, x) && ActiveWith(s.monitor, src, wd) && x != DoCancel(src)
    ensures ActiveWith(Next(s, x).monitor, src, wd)
  {
    hide Pass, Watch;
    match x {
      case DoPass(r) => PassKeepsActive(s, r, src, wd);
      case DoAdd(other, tar, w) =>
        if !IsActive(s.monitor, other) {
          WatchKeepsActive(s.monitor, other, tar, w, src, wd);
        }
      case DoSync(other, w) =>
        var i := Find(s.monitor, other);
        if i < |s.monitor| && !s.monitor[i].active {
          WatchKeepsActive(s.monitor, other, s.monitor[i].tar, w, src, wd);
        }
      case _ => SameActive(s.monitor, Next(s, x).monitor, src, wd);
    }
  }

  /** A step watches anew only what is not active. */
  lemma {:induction false} RewatchedIsInactive(s: State, x: Step, src: string, wd: int)
    requires ActiveWith(s.monitor, src, wd) && OneHas(s.monitor, wd)
    ensures !Rewatches(s, x, wd)
  {
    var i := Find(s.monitor, src);
    assert s.monitor[i].wd == wd;
  }

  /** So it needs a cancel of the directory first: without one its events can always be read. */
  lemma {:induction false} RewatchNeedsCancel(s: State, run: seq<Step>, src: string, wd: int)
    requires Run(s, run) && ActiveWith(s.monitor, src, wd) && OneHas(s.monitor, wd) && DoCancel(src) !in run
    requires forall i :: 0 <= i < |run| ==> !HandsOut(run[i], wd)
    ensures NeverRewatched(s, run, wd)
    decreases |run|
  {
    hide Possible, Next, ActiveWith, OneHas, Rewatches;
    if run != [] {
      assert run[0] in run && forall x :: x in run[1..] ==> x in run;
      StepKeepsActive(s, run[0], src, wd);
      RewatchedIsInactive(s, run[0], src, wd);
      StepWatch(s, run[0], wd);
      RewatchNeedsCancel(Next(s, run[0]), run[1..], src, wd);
    }
  }

  lemma {:induction false} NoStep(s: State)
    ensures Run(s, []) && After(s, []) == s
  {
  }

  lemma {:induction false} StepFirst(s: State, x: Step, rest: seq<Step>)
    requires Enabled(s, x) && Possible(s, x) && Run(Next(s, x), rest)
    ensures Run(s, [x] + rest) && After(s, [x] + rest) == After(Next(s, x), rest)
  {
    assert ([x] + rest)[1..] == rest;
  }

  lemma {:induction false} OneJobRemoval(job: Job)
    ensures JobRemoval.RemoveIsExact([job], job.src) && JobRemoval.Without([job], job.src) == []
  {
    assert [job][1..] == [] && [job][..0] == [];
    assert JobRemoval.Strip([job], job.src) == [];
  }

  /** `add`, an edit that stays unread, `cancel` and `add` again: its entry is not found. */
  lemma {:induction false} CancelAndAddLosesTheEntry(limit: nat, open: set<nat>, src: string, tar: string, e: Event)
    requires e.wd == 1 && e.kind != Other
    ensures var s, run := Init(limit, open), [DoAdd(src, tar, 1), DoCancel(src), DoAdd(src, tar, 2)];
            Run(s, run) && Readable(Next(s, run[0]), e) && !Readable(After(s, run), e)
  {
    var s, job := Init(limit, open), Job(src, tar, "ALL", Full, false);
    var x, y, z := DoAdd(src, tar, 1), DoCancel(src), DoAdd(src, tar, 2);
    OneJobRemoval(job);
    hide JobRemoval.RemoveIsExact, JobRemoval.Without;
    var s1 := s.(monitor := [Info(src, tar, 1, NO_WORKER, true)], queue := [job]);
    var s2 := s.(monitor := [Info(src, tar, 1, NO_WORKER, false)]);
    var s3 := s.(monitor := [Info(src, tar, 2, NO_WORKER, true)], queue := [job]);
    assert Find([], src) == 0 && [] + [job] == [job];
    assert Next(s, x) == s1;
    assert Find(s1.monitor, src) == 0;
    assert Next(s1, y) == s2;
    assert Find(s2.monitor, src) == 0;
    assert Next(s2, z) == s3;
    assert Enabled(s, x) && Enabled(s1, y) && Enabled(s2, z);
    ReadableMeansHasWatch(s1, e);
    ReadableMeansHasWatch(s3, e);
    assert s1.monitor[0].wd == 1;
    hide Enabled, Possible, Next, HasWatch, Readable;
    NoStep(s3);
    StepFirst(s2, z, []);
    StepFirst(s1, y, [z]);
    StepFirst(s, x, [y, z]);
    assert [z] + [] == [z] && [y] + [z] == [y, z] && [x] + [y, z] == [x, y, z];
  }

  // ---------- Two directories with one watch ----------

  /** An earlier entry has the directory's watch: two names of one directory, for which inotify gives one number. */
  predicate Shadowed(monitor: seq<Info>, src: string) {
    var j := Find(monitor, src); j < |monitor| && FindWatch(monitor, monitor[j].wd) < j
  }

  /** An event of the directory's watch becomes a job of the directory exactly when no earlier entry has the watch. */
  lemma {:induction false} EventArrivesExactlyWhen(s: State, e: Event, src: string)
    requires Inv(s) && e.kind != Other && Readable(s, e)
    requires Find(s.monitor, src) < |s.monitor| && s.monitor[Find(s.monitor, src)].wd == e.wd
    ensures var job := Read(s, e).queue[|s.queue|]; job.src == src <==> !Shadowed(s.monitor, src)
  {
    var j, i := Find(s.monitor, src), FindWatch(s.monitor, e.wd);
    assert Read(s, e).queue[|s.queue|].src == s.monitor[i].src;
    assert i <= j;
    if s.monitor[i].src == src {
      Convergence.DirIsUnique(s, i, j);
    }
  }

  /** Nor does any other event. */
  lemma {:induction false} NoEventArrives(s: State, e: Event, src: string)
    requires Inv(s) && e.kind != Other && Readable(s, e) && Shadowed(s.monitor, src)
    ensures Read(s, e).queue[|s.queue|].src != src
  {
    var j, i := Find(s.monitor, src), FindWatch(s.monitor, e.wd);
    if s.monitor[i].src == src {
      Convergence.DirIsUnique(s, i, j);
    }
  }

  ghost predicate AlwaysShadowed(s: State, run: seq<Step>, src: string)
    requires Run(s, run)
    decreases |run|
  {
    Shadowed(s.monitor, src) && (run == [] || AlwaysShadowed(Next(s, run[0]), run[1..], src))
  }

  /** What a step makes arrive: nothing, a full job, or an event's job. */
  lemma {:induction false} ArrivalIs(s: State, x: Step)
    requires Possible(s, x)
    ensures Arrivals(s, x) == [] || (|Arrivals(s, x)| == 1 && Arrivals(s, x)[0].op == Full)
         || (x.DoRead? && x.e.kind != Other && Arrivals(s, x) == [Read(s, x.e).queue[|s.queue|]])
  {
    hide Pass, Complete, Cancel, Watch, Find, FindWatch;
  }

  lemma {:induction false} OnlyFullArrives(s: State, x: Step, src: string)
    requires Inv(s) && Possible(s, x) && Shadowed(s.monitor, src)
    ensures forall i :: 0 <= i < |Arrivals(s, x)| && Arrivals(s, x)[i].src == src ==> Arrivals(s, x)[i].op == Full
  {
    ArrivalIs(s, x);
    if x.DoRead? && x.e.kind != Other {
      NoEventArrives(s, x.e, src);
    }
    hide Inv, Arrivals, Next, Read, Shadowed;
  }

  /** While it is so, all the jobs that arrive for the directory are full ones, from `add` and `sync`. */
  lemma {:induction false} ShadowedGetsNoEvents(s: State, run: seq<Step>, src: string)
    requires Inv(s) && Run(s, run) && AlwaysShadowed(s, run, src)
    ensures forall i :: 0 <= i < |Arrived(s, run)| && Arrived(s, run)[i].src == src ==> Arrived(s, run)[i].op == Full
    decreases |run|
  {
    hide Inv, Possible, Next, Shadowed, Arrivals;
    if run != [] {
      OnlyFullArrives(s, run[0], src);
      StepKeepsInv(s, run[0]);
      ShadowedGetsNoEvents(Next(s, run[0]), run[1..], src);
    }
  }

  const FIRST := Info("d", "t", 1, NO_WORKER, true)
  const SECOND := Info("./d", "u", 1, NO_WORKER, true)
  const LATER := Convergence.Watched("./d", "u", 1)

  /** Two names of one directory: the second one is shadowed from its `add` on. */
  lemma {:induction false} TwoNamesShareAWatch(limit: nat, open: set<nat>)
    ensures var s, run := Init(limit, open), [DoAdd("d", "t", 1), DoAdd("./d", "u", 1)];
            Run(s, run) && After(s, run).monitor == [FIRST, SECOND] && Shadowed(After(s, run).monitor, "./d")
  {
    var s := Init(limit, open);
    var x, y := DoAdd("d", "t", 1), DoAdd("./d", "u", 1);
    var s1 := Next(s, x);
    assert "d" != "./d" by {
      assert |"d"| == 1;
    }
    assert s1.monitor == [FIRST];
    FindInAppended([], FIRST, "./d");
    assert [] + [FIRST] == [FIRST] && Find([], "./d") == 0;
    assert Next(s1, y).monitor == [FIRST, SECOND];
    FindInAppended([FIRST], SECOND, "./d");
    assert [FIRST] + [SECOND] == [FIRST, SECOND];
    assert Enabled(s, x) && Enabled(s1, y);
    hide Enabled, Possible, Next;
    NoStep(Next(s1, y));
    StepFirst(s1, y, []);
    StepFirst(s, x, [y]);
    assert [y] + [] == [y] && [x] + [y] == [x, y];
  }

  /** A quiet world with both names and equal files. */
  function Mirrored(s: State, name: string, was: string): Convergence.World {
    Convergence.World(s, [], map[name := was], map[name := was], Mirror.NoWork)
  }

  /** The edit's event becomes a job of the first name; the second one's target stays as it is, with nothing pending. */
  lemma {:induction false} SharedWatchStaysBehind(limit: nat, open: set<nat>, name: string, was: string, data: string)
    requires was != data
    ensures var s := Init(limit, open).(monitor := [FIRST, SECOND]);
            var run := [Convergence.Edit(Mirror.Modify(name, data, false)), Convergence.ReadEvent];
            && Convergence.Run(LATER, Mirrored(s, name, was), run)
            && var end := Convergence.After(LATER, Mirrored(s, name, was), run);
               Convergence.Quiet(LATER, end) && end.tar != end.src
  {
    var s := Init(limit, open).(monitor := [FIRST, SECOND]);
    var edit, read := Convergence.Edit(Mirror.Modify(name, data, false)), Convergence.ReadEvent;
    var e, job := Event(1, Modify, name), Job("d", "t", name, Modified, false);
    var w := Mirrored(s, name, was);
    var w1 := w.(src := map[name := data], kernel := [e]);
    var w2 := w1.(s := s.(queue := [job]), kernel := []);
    assert FindWatch(s.monitor, 1) == 0;
    assert Convergence.Enabled(LATER, w, edit) && [] + [e] == [e] && w.src[name := data] == map[name := data];
    assert Convergence.Next(LATER, w, edit) == w1;
    assert Readable(s, e) && [] + [job] == [job] && Read(s, e) == s.(queue := [job]) && [e][1..] == [];
    assert Convergence.Enabled(LATER, w1, read) && Convergence.Next(LATER, w1, read) == w2;
    assert "d" != "./d" by {
      assert |"d"| == 1;
    }
    assert Convergence.Quiet(LATER, w2) && w2.tar[name] != w2.src[name];
    hide Convergence.Enabled, Convergence.Next, Convergence.Quiet;
    assert [edit, read][1..] == [read] && [read][1..] == [];
    assert Convergence.Run(LATER, w2, []) && Convergence.After(LATER, w2, []) == w2;
    assert Convergence.Run(LATER, w1, [read]) && Convergence.After(LATER, w1, [read]) == w2;
  }
}
