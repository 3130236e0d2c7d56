// The thread pool around the ring (sync_buffer.c, nfs_manager.c, nfs_manager_main.c) as a step system.
//
// One main thread produces, cancels and quits; any number of workers consume. Every step is one thread
// taking the mutex, running one critical section up to its unlock or its wait, or acting outside it.
// Signals are sent after the unlock, as the code does, and a sleeper may wake up for no reason.
module WorkerPool {
  import opened Sequences
  import opened SyncPairs
  import SyncBuffer

  // ---------- State ----------

  /** A pair in flight; `id` is its position among all the pairs ever placed. */
  datatype Item = Item(id: nat, pair: SyncPair)

  datatype Worker =
    | Asking                        // about to lock in sync_buffer_obtain
    | Locked                        // holds the mutex, about to test the loop condition
    | Sleeping                      // waits on cond_nonempty
    | Awake                         // woken, has to lock again
    | Signalling(pair: SyncPair)    // unlocked with a pair, cond_nonfull not yet signalled
    | Copying(pair: SyncPair)       // transfers the pair's file
    | Exited(onQuit: bool)          // left the loop: no pair left after quit, or a pair without a name

  datatype Main =
    | Idle
    | Checking(pair: SyncPair) | CheckLocked(pair: SyncPair)
    | Placing(pair: SyncPair) | PlaceLocked(pair: SyncPair)
    | PlaceSleeping(pair: SyncPair) | PlaceAwake(pair: SyncPair)
    | MustSignal                    // unlocked after a place, cond_nonempty not yet signalled
    | Cancelling(dir: string) | CancelLocked(dir: string) | CancelSignal
    | Quitting | QuitLocked | MustBroadcast
    | Joining

  datatype Owner = Nobody | MainThread | WorkerThread(w: nat)

  datatype State = State(
    size: nat, ring: seq<Item>, quit: bool,
    owner: Owner, workers: seq<Worker>, main: Main,
    // History: what was placed and obtained, which entries a cancel removed and for which directory,
    // and which entries a cancel lost although they belong to another directory.
    placed: seq<SyncPair>, obtained: seq<Item>, cancelled: map<nat, string>, wiped: set<nat>)

  datatype Command = Offer(pair: SyncPair) | Cancel(dir: string) | Quit

  datatype Step =
    | Start(command: Command)
    | MainLock | MainRun
    | Signal(w: nat) | SignalNobody | SignalCancel | Broadcast
    | WorkerLock(w: nat) | WorkerRun(w: nat) | WorkerSignal(w: nat) | Finish(w: nat)
    | SpuriousMain | SpuriousWorker(w: nat)

  predicate Init(s: State) {
    && 0 < s.size && s.ring == [] && !s.quit && s.owner == Nobody && s.main == Idle
    && s.placed == [] && s.obtained == [] && s.cancelled == map[] && s.wiped == {}
    && forall w :: 0 <= w < |s.workers| ==> s.workers[w] == Asking
  }

  // ---------- Steps ----------

  predicate WantsLock(m: Main) {
    m.Checking? || m.Placing? || m.PlaceAwake? || m.Cancelling? || m.Quitting?
  }

  predicate HasLock(m: Main) {
    m.CheckLocked? || m.PlaceLocked? || m.CancelLocked? || m.QuitLocked?
  }

  predicate SomeSleeps(ws: seq<Worker>) {
    exists w :: 0 <= w < |ws| && ws[w].Sleeping?
  }

  predicate SomeSignals(ws: seq<Worker>) {
    exists w :: 0 <= w < |ws| && ws[w].Signalling?
  }

  predicate AllExited(ws: seq<Worker>) {
    forall w :: 0 <= w < |ws| ==> ws[w].Exited?
  }

  predicate IsSpurious(step: Step) {
    step.SpuriousMain? || step.SpuriousWorker?
  }

  /** The steps that change one worker, step.w. */
  predicate OnWorker(step: Step) {
    step.Signal? || step.WorkerLock? || step.WorkerRun? || step.WorkerSignal? || step.Finish? || step.SpuriousWorker?
  }

  predicate Enabled(s: State, step: Step) {
    match step
    case Start(_) => s.main.Idle?
    case MainLock => s.owner == Nobody && WantsLock(s.main)
    case MainRun => HasLock(s.main)
    case Signal(w) => s.main.MustSignal? && w < |s.workers| && s.workers[w].Sleeping?
    case SignalNobody => s.main.MustSignal? && !SomeSleeps(s.workers)
    case SignalCancel => s.main.CancelSignal?
    case Broadcast => s.main.MustBroadcast?
    case WorkerLock(w) => s.owner == Nobody && w < |s.workers| && (s.workers[w].Asking? || s.workers[w].Awake?)
    case WorkerRun(w) => w < |s.workers| && s.workers[w].Locked?
    case WorkerSignal(w) => w < |s.workers| && s.workers[w].Signalling?
    case Finish(w) => w < |s.workers| && s.workers[w].Copying?
    case SpuriousMain => s.main.PlaceSleeping?
    case SpuriousWorker(w) => w < |s.workers| && s.workers[w].Sleeping?
  }

  function Lock(m: Main): Main
    requires WantsLock(m)
  {
    match m
    case Checking(p) => CheckLocked(p)
    case Placing(p) => PlaceLocked(p)
    case PlaceAwake(p) => PlaceLocked(p)
    case Cancelling(d) => CancelLocked(d)
    case Quitting => QuitLocked
  }

  function ItemOutside(dir: string): Item -> bool {
    (x: Item) => x.pair.src.dir != dir
  }

  function IdsIn(ring: seq<Item>, dir: string): set<nat> {
    set x | x in ring && x.pair.src.dir == dir :: x.id
  }

  function IdsOutside(ring: seq<Item>, dir: string): set<nat> {
    set x | x in ring && x.pair.src.dir != dir :: x.id
  }

  /** The main thread's critical sections. */
  function RunMain(s: State): State
    requires HasLock(s.main)
  {
    var u := s.(owner := Nobody);
    match s.main
    case CheckLocked(p) =>
      u.(main := if exists x :: x in s.ring && SameSource(p, x.pair) then Idle else Placing(p))
    case PlaceLocked(p) =>
      if |s.ring| >= s.size then u.(main := PlaceSleeping(p))
      else u.(ring := s.ring + [Item(|s.placed|, p)], placed := s.placed + [p], main := MustSignal)
    case CancelLocked(dir) =>
      var kept := Filter(s.ring, ItemOutside(dir));
      var lost := |kept| == s.size;
      u.(ring := if lost then [] else kept,
         cancelled := s.cancelled + map id | id in IdsIn(s.ring, dir) :: dir,
         wiped := s.wiped + if lost then IdsOutside(s.ring, dir) else {},
         main := if IdsIn(s.ring, dir) != {} then CancelSignal else Idle)
    case QuitLocked =>
      u.(quit := true, main := MustBroadcast)
  }

  /** A worker's critical section. */
  function RunWorker(s: State, w: nat): State
    requires w < |s.workers| && s.workers[w].Locked?
  {
    var u := s.(owner := Nobody);
    if s.ring != [] then
      u.(ring := s.ring[1..], obtained := s.obtained + [s.ring[0]], workers := s.workers[w := Signalling(s.ring[0].pair)])
    else if s.quit then u.(workers := s.workers[w := Exited(true)])
    else u.(workers := s.workers[w := Sleeping])
  }

  function WakeAll(ws: seq<Worker>): (r: seq<Worker>)
    ensures |r| == |ws|
    ensures forall w :: 0 <= w < |ws| ==> r[w] == if ws[w].Sleeping? then Awake else ws[w]
  {
    seq(|ws|, i requires 0 <= i < |ws| => if ws[i].Sleeping? then Awake else ws[i])
  }

  function Apply(s: State, step: Step): State
    requires Enabled(s, step)
  {
    match step
    case Start(Offer(p)) => s.(main := Checking(p))
    case Start(Cancel(d)) => s.(main := Cancelling(d))
    case Start(Quit) => s.(main := Quitting)
    case MainLock => s.(owner := MainThread, main := Lock(s.main))
    case MainRun => RunMain(s)
    case Signal(w) => s.(workers := s.workers[w := Awake], main := Idle)
    case SignalNobody => s.(main := Idle)
    case SignalCancel => s.(main := Idle)
    case Broadcast => s.(workers := WakeAll(s.workers), main := Joining)
    case WorkerLock(w) => s.(owner := WorkerThread(w), workers := s.workers[w := Locked])
    case WorkerRun(w) => RunWorker(s, w)
    case WorkerSignal(w) =>
      var p := s.workers[w].pair;
      s.(workers := s.workers[w := if p.file == "" then Exited(false) else Copying(p)],
         main := if s.main.PlaceSleeping? then PlaceAwake(s.main.pair) else s.main)
    case Finish(w) => s.(workers := s.workers[w := Asking])
    case SpuriousMain => s.(main := PlaceAwake(s.main.pair))
    case SpuriousWorker(w) => s.(workers := s.workers[w := Awake])
  }

  ghost predicate Next(s: State, t: State) {
    exists step :: Enabled(s, step) && t == Apply(s, step)
  }

  ghost predicate Run(tr: seq<State>) {
    && tr != [] && Init(tr[0])
    && forall i :: 0 <= i < |tr| - 1 ==> Next(tr[i], tr[i + 1])
  }

  // ---------- The mutex and the wakeups ----------

  function Weight(w: Worker): nat {
    if w.Locked? || w.Awake? then 1 else 0
  }

  /** How much is still to do for a worker once quit is set. */
  function Rank(w: Worker): nat {
    match w
    case Exited(_) => 0
    case Locked => 1
    case Asking => 2
    case Awake => 2
    case Sleeping => 3
    case Copying(_) => 3
    case Signalling(_) => 4
  }

  function Total(ws: seq<Worker>, f: Worker -> nat): nat {
    if ws == [] then 0 else f(ws[0]) + Total(ws[1..], f)
  }

  lemma {:induction false} TotalUpdate(ws: seq<Worker>, w: nat, v: Worker, f: Worker -> nat)
    requires w < |ws|
    ensures Total(ws[w := v], f) == Total(ws, f) - f(ws[w]) + f(v)
  {
    if w == 0 {
      assert ws[w := v][1..] == ws[1..];
    } else {
      assert ws[w := v][1..] == ws[1..][w - 1 := v];
      TotalUpdate(ws[1..], w - 1, v, f);
    }
  }

  lemma {:induction false} TotalPositive(ws: seq<Worker>, f: Worker -> nat)
    ensures Total(ws, f) > 0 <==> exists w :: 0 <= w < |ws| && f(ws[w]) > 0
  {
    if ws != [] {
      TotalPositive(ws[1..], f);
      assert forall w :: 0 < w < |ws| ==> ws[w] == ws[1..][w - 1];
      if w :| 0 <= w < |ws[1..]| && f(ws[1..][w]) > 0 {
        assert f(ws[w + 1]) > 0;
      }
    }
  }

  lemma {:induction false} TotalMonotone(ws: seq<Worker>, vs: seq<Worker>, f: Worker -> nat)
    requires |ws| == |vs| && forall w :: 0 <= w < |ws| ==> f(vs[w]) <= f(ws[w])
    ensures Total(vs, f) <= Total(ws, f)
  {
    if ws != [] {
      TotalMonotone(ws[1..], vs[1..], f);
    }
  }

  ghost predicate MutexInv(s: State) {
    && (s.owner.MainThread? <==> HasLock(s.main))
    && (forall w :: 0 <= w < |s.workers| ==> (s.workers[w].Locked? <==> s.owner == WorkerThread(w)))
    && (s.owner.WorkerThread? ==> s.owner.w < |s.workers|)
  }

  /** Whoever sleeps has nothing to do, or somebody is already on the way to wake it or to take its work. */
  ghost predicate WakeInv(s: State) {
    && 0 < s.size && |s.ring| <= s.size
    && (SomeSleeps(s.workers) ==> |s.ring| <= (if s.main.MustSignal? then 1 else 0) + Total(s.workers, Weight))
    && (s.main.PlaceSleeping? ==> |s.ring| == s.size || SomeSignals(s.workers))
    && (s.quit <==> s.main.MustBroadcast? || s.main.Joining?)
    && (s.main.Joining? ==> !SomeSleeps(s.workers))
  }

  lemma {:induction false} MutexStepWorker(s: State, step: Step)
    requires MutexInv(s) && Enabled(s, step) && OnWorker(step)
    ensures MutexInv(Apply(s, step))
  {
    var t := Apply(s, step);
    forall w | 0 <= w < |s.workers| && w != step.w ensures t.workers[w] == s.workers[w] {}
  }

  lemma {:induction false} MutexStep(s: State, step: Step)
    requires MutexInv(s) && Enabled(s, step)
    ensures MutexInv(Apply(s, step))
  {
    if OnWorker(step) {
      MutexStepWorker(s, step);
    }
  }

  lemma {:induction false} KeptFits(ring: seq<Item>, dir: string)
    ensures |Filter(ring, ItemOutside(dir))| <= |ring|
    ensures IdsIn(ring, dir) == {} ==> Filter(ring, ItemOutside(dir)) == ring
  {
    if IdsIn(ring, dir) == {} {
      forall x | x in ring ensures ItemOutside(dir)(x) {
        assert x.pair.src.dir == dir ==> x.id in IdsIn(ring, dir);
      }
      FilterAll(ring, ItemOutside(dir));
    }
  }

  lemma {:induction false} WakeStepMain(s: State, step: Step)
    requires MutexInv(s) && WakeInv(s) && Enabled(s, step)
    requires step.Start? || step.MainLock? || step.MainRun? || step.SignalNobody? || step.SignalCancel? || step.SpuriousMain?
    ensures WakeInv(Apply(s, step))
  {
    if s.main.CancelLocked? {
      KeptFits(s.ring, s.main.dir);
    }
  }

  lemma {:induction false} WakeStepWorker(s: State, step: Step)
    requires MutexInv(s) && WakeInv(s) && Enabled(s, step)
    requires OnWorker(step)
    ensures WakeInv(Apply(s, step))
  {
    var t := Apply(s, step);
    TotalUpdate(s.workers, step.w, t.workers[step.w], Weight);
    forall w | 0 <= w < |s.workers| && w != step.w ensures t.workers[w] == s.workers[w] {}
    if SomeSleeps(t.workers) && !SomeSleeps(s.workers) {
      assert step.WorkerRun? && t.ring == [];
    }
    if t.main.PlaceSleeping? && SomeSignals(s.workers) {
      var w :| 0 <= w < |s.workers| && s.workers[w].Signalling?;
      assert t.workers[w].Signalling?;
    }
    if step.WorkerRun? && s.ring != [] {
      assert t.workers[step.w].Signalling?;
    }
  }

  lemma {:induction false} WakeStepBroadcast(s: State)
    requires WakeInv(s) && Enabled(s, Broadcast)
    ensures WakeInv(Apply(s, Broadcast))
  {
  }

  lemma {:induction false} WakeStep(s: State, step: Step)
    requires MutexInv(s) && WakeInv(s) && Enabled(s, step)
    ensures WakeInv(Apply(s, step))
  {
    if step.Broadcast? {
      WakeStepBroadcast(s);
    } else if OnWorker(step) {
      WakeStepWorker(s, step);
    } else {
      WakeStepMain(s, step);
    }
  }

  // ---------- First in, first out ----------

  /** What was placed, in order, without the entries in `gone`. */
  function Live(placed: seq<SyncPair>, gone: set<nat>): seq<Item> {
    if placed == [] then []
    else
      var n := |placed| - 1;
      Live(placed[..n], gone) + if n in gone then [] else [Item(n, placed[n])]
  }

  function Gone(s: State): set<nat> {
    s.cancelled.Keys + s.wiped
  }

  /** Obtained so far, then still in the ring: together exactly the placed entries that no cancel took. */
  ghost predicate FifoInv(s: State) {
    && Live(s.placed, Gone(s)) == s.obtained + s.ring
    && (forall id :: id in Gone(s) ==> id < |s.placed|)
    && (forall id :: id in s.cancelled ==> id < |s.placed| && s.placed[id].src.dir == s.cancelled[id])
  }

  /** Entries keep the order in which they were placed, so no entry occurs twice. */
  lemma {:induction false} LiveOrdered(placed: seq<SyncPair>, gone: set<nat>)
    ensures forall i :: 0 <= i < |Live(placed, gone)| ==>
              var x := Live(placed, gone)[i]; x.id < |placed| && x.id !in gone && x.pair == placed[x.id]
    ensures forall i, j :: 0 <= i < j < |Live(placed, gone)| ==> Live(placed, gone)[i].id < Live(placed, gone)[j].id
  {
    if placed != [] {
      LiveOrdered(placed[..|placed| - 1], gone);
    }
  }

  function NotAmong(ids: set<nat>): Item -> bool {
    (x: Item) => x.id !in ids
  }

  lemma {:induction false} LiveDrop(placed: seq<SyncPair>, gone: set<nat>, more: set<nat>)
    ensures Live(placed, gone + more) == Filter(Live(placed, gone), NotAmong(more))
  {
    if placed != [] {
      var n := |placed| - 1;
      var init := Live(placed[..n], gone);
      LiveDrop(placed[..n], gone, more);
      if n !in gone {
        assert (init + [Item(n, placed[n])])[..|init|] == init;
      } else {
        assert init + [] == init;
      }
    }
  }

  /** Removing ids that all sit in the ring leaves the obtained part alone. */
  lemma {:induction false} DropFromRing(obtained: seq<Item>, ring: seq<Item>, more: set<nat>)
    requires forall x, y :: x in obtained && y in ring ==> x.id != y.id
    requires forall id :: id in more ==> exists x :: x in ring && x.id == id
    ensures Filter(obtained + ring, NotAmong(more)) == obtained + Filter(ring, NotAmong(more))
  {
    assert forall x :: x in obtained ==> NotAmong(more)(x);
    FilterAll(obtained, NotAmong(more));
    FilterAppend(obtained, ring, NotAmong(more));
  }

  lemma {:induction false} RingIdsDistinct(s: State)
    requires FifoInv(s)
    ensures forall x, y :: x in s.obtained && y in s.ring ==> x.id != y.id
    ensures forall x, y :: x in s.ring && y in s.ring && x.id == y.id ==> x == y
    ensures forall x :: x in s.ring ==> x.id < |s.placed| && x.pair == s.placed[x.id] && x.id !in Gone(s)
  {
    var all := s.obtained + s.ring;
    LiveOrdered(s.placed, Gone(s));
    forall x | x in s.ring ensures exists i :: |s.obtained| <= i < |all| && all[i] == x {
      var i :| 0 <= i < |s.ring| && s.ring[i] == x;
      assert all[|s.obtained| + i] == x;
    }
    forall x | x in s.obtained ensures exists i :: 0 <= i < |s.obtained| && all[i] == x {
      var i :| 0 <= i < |s.obtained| && s.obtained[i] == x;
      assert all[i] == x;
    }
  }

  /** What is left of the ring, and which ids are gone, agree. */
  lemma {:induction false} CancelRing(ring: seq<Item>, dir: string, lost: bool)
    requires forall x, y :: x in ring && y in ring && x.id == y.id ==> x == y
    ensures var more := IdsIn(ring, dir) + if lost then IdsOutside(ring, dir) else {};
            Filter(ring, NotAmong(more)) == if lost then [] else Filter(ring, ItemOutside(dir))
  {
    var hit, other := IdsIn(ring, dir), IdsOutside(ring, dir);
    var more := hit + if lost then other else {};
    if lost {
      forall x | x in ring ensures !NotAmong(more)(x) {
        assert x.id in if x.pair.src.dir == dir then hit else other;
      }
      FilterNone(ring, NotAmong(more));
    } else {
      forall x | x in ring ensures NotAmong(more)(x) == ItemOutside(dir)(x) {
        assert x.pair.src.dir == dir ==> x.id in hit;
      }
      FilterAgree(ring, NotAmong(more), ItemOutside(dir));
    }
  }

  function RemovedIds(s: State): set<nat>
    requires s.main.CancelLocked?
  {
    IdsIn(s.ring, s.main.dir)
    + if |Filter(s.ring, ItemOutside(s.main.dir))| == s.size then IdsOutside(s.ring, s.main.dir) else {}
  }

  lemma {:induction false} CancelHistory(s: State)
    requires FifoInv(s) && s.main.CancelLocked?
    ensures Gone(RunMain(s)) == Gone(s) + RemovedIds(s)
    ensures forall id :: id in RemovedIds(s) ==> id < |s.placed| && exists x :: x in s.ring && x.id == id
    ensures var c := RunMain(s).cancelled; forall id :: id in c ==> id < |s.placed| && s.placed[id].src.dir == c[id]
  {
    RingIdsDistinct(s);
  }

  lemma {:induction false} FifoStepCancel(s: State)
    requires FifoInv(s) && s.main.CancelLocked?
    ensures FifoInv(RunMain(s))
  {
    var dir, t, more := s.main.dir, RunMain(s), RemovedIds(s);
    CancelHistory(s);
    assert Live(s.placed, Gone(t)) == s.obtained + t.ring by {
      RingIdsDistinct(s);
      LiveDrop(s.placed, Gone(s), more);
      DropFromRing(s.obtained, s.ring, more);
      CancelRing(s.ring, dir, |Filter(s.ring, ItemOutside(dir))| == s.size);
    }
  }

  lemma {:induction false} LivePlaced(placed: seq<SyncPair>, gone: set<nat>, pair: SyncPair)
    requires |placed| !in gone
    ensures Live(placed + [pair], gone) == Live(placed, gone) + [Item(|placed|, pair)]
  {
    assert (placed + [pair])[..|placed|] == placed;
  }

  lemma {:induction false} FifoMore(s: State, t: State, pair: SyncPair)
    requires FifoInv(s) && t.placed == s.placed + [pair] && t.ring == s.ring + [Item(|s.placed|, pair)]
    requires t.obtained == s.obtained && t.cancelled == s.cancelled && t.wiped == s.wiped
    ensures FifoInv(t)
  {
    assert Gone(t) == Gone(s) && |s.placed| !in Gone(s);
    LivePlaced(s.placed, Gone(s), pair);
    hide Live, Gone;
    assert s.obtained + t.ring == (s.obtained + s.ring) + [Item(|s.placed|, pair)];
  }

  /** A step that touches neither the ring nor what was placed, obtained and removed. */
  lemma {:induction false} FifoSame(s: State, t: State)
    requires FifoInv(s) && t.ring == s.ring && t.placed == s.placed && t.obtained == s.obtained
    requires t.cancelled == s.cancelled && t.wiped == s.wiped
    ensures FifoInv(t)
  {
    assert Gone(t) == Gone(s);
  }

  lemma {:induction false} FifoStepPlace(s: State)
    requires FifoInv(s) && s.main.PlaceLocked?
    ensures FifoInv(RunMain(s))
  {
    hide FifoInv;
    if |s.ring| < s.size {
      FifoMore(s, RunMain(s), s.main.pair);
    } else {
      FifoSame(s, RunMain(s));
    }
  }

  lemma {:induction false} FifoStepMain(s: State)
    requires FifoInv(s) && HasLock(s.main)
    ensures FifoInv(RunMain(s))
  {
    if s.main.CancelLocked? {
      FifoStepCancel(s);
    } else if s.main.PlaceLocked? {
      FifoStepPlace(s);
    } else {
      hide FifoInv;
      FifoSame(s, RunMain(s));
    }
  }

  lemma {:induction false} FifoStepObtain(s: State, w: nat)
    requires FifoInv(s) && w < |s.workers| && s.workers[w].Locked?
    ensures FifoInv(RunWorker(s, w))
  {
    assert Gone(RunWorker(s, w)) == Gone(s);
    assert s.ring != [] ==> s.obtained + s.ring == (s.obtained + [s.ring[0]]) + s.ring[1..];
  }

  lemma {:induction false} FifoStep(s: State, step: Step)
    requires FifoInv(s) && Enabled(s, step)
    ensures FifoInv(Apply(s, step))
  {
    hide FifoInv;
    if step.MainRun? {
      FifoStepMain(s);
    } else if step.WorkerRun? {
      FifoStepObtain(s, step.w);
    } else {
      FifoSame(s, Apply(s, step));
    }
  }

  // ---------- No file queued twice, and why a worker leaves ----------

  ghost predicate NotQueued(ring: seq<Item>, pair: SyncPair) {
    forall x :: x in ring ==> !SameSource(pair, x.pair)
  }

  function Pending(m: Main): set<SyncPair> {
    match m
    case Placing(p) => {p}
    case PlaceLocked(p) => {p}
    case PlaceSleeping(p) => {p}
    case PlaceAwake(p) => {p}
    case _ => {}
  }

  ghost predicate NoDup(ring: seq<Item>) {
    forall i, j :: 0 <= i < j < |ring| ==> !SameSource(ring[i].pair, ring[j].pair)
  }

  /** The duplicate check is still right when the pair is placed, although the mutex was free in between. */
  ghost predicate NoDupInv(s: State) {
    && NoDup(s.ring)
    && (forall p :: p in Pending(s.main) ==> NotQueued(s.ring, p))
  }

  /** Filtering keeps positions in order. */
  lemma {:induction false} FilterKeepsNoDup(ring: seq<Item>, p: Item -> bool)
    requires NoDup(ring)
    ensures NoDup(Filter(ring, p))
  {
    if ring != [] {
      var n := |ring| - 1;
      var init := ring[..n];
      FilterKeepsNoDup(init, p);
      forall i | 0 <= i < |Filter(init, p)| ensures !SameSource(Filter(init, p)[i].pair, ring[n].pair) {
        FilterMember(init, p, Filter(init, p)[i]);
        var j :| 0 <= j < n && ring[j] == Filter(init, p)[i];
      }
    }
  }

  lemma {:induction false} NoDupStepMain(s: State)
    requires NoDupInv(s) && HasLock(s.main)
    ensures NoDupInv(RunMain(s))
  {
    if s.main.CancelLocked? {
      FilterKeepsNoDup(s.ring, ItemOutside(s.main.dir));
    } else if s.main.PlaceLocked? && |s.ring| < s.size {
      assert s.main.pair in Pending(s.main);
      forall i | 0 <= i < |s.ring| ensures !SameSource(s.ring[i].pair, s.main.pair) {
        assert s.ring[i] in s.ring;
      }
    }
  }

  lemma {:induction false} NoDupStep(s: State, step: Step)
    requires NoDupInv(s) && Enabled(s, step)
    ensures NoDupInv(Apply(s, step))
  {
    if step.MainRun? {
      hide NoDupInv;
      NoDupStepMain(s);
    } else {
      hide SameSource;
      assert Pending(Apply(s, step).main) <= Pending(s.main);
      assert Apply(s, step).ring == s.ring || Apply(s, step).ring == s.ring[1..];
    }
  }

  /** A worker leaves on quit only from an empty ring, and whoever has a pair has one that was placed. */
  ghost predicate ExitInv(s: State) {
    && (forall w :: 0 <= w < |s.workers| && s.workers[w] == Exited(true) ==> s.quit && s.ring == [])
    && (forall w :: 0 <= w < |s.workers| && s.workers[w].Signalling? ==> s.workers[w].pair in s.placed)
    && (forall w :: 0 <= w < |s.workers| && s.workers[w].Copying? ==>
          s.workers[w].pair in s.placed && s.workers[w].pair.file != "")
  }

  lemma {:induction false} ExitStepMain(s: State)
    requires ExitInv(s) && WakeInv(s) && HasLock(s.main)
    ensures ExitInv(RunMain(s))
  {
    if s.main.CancelLocked? {
      KeptFits(s.ring, s.main.dir);
    }
    hide Filter;
  }

  lemma {:induction false} ExitStepObtain(s: State, w: nat)
    requires ExitInv(s) && FifoInv(s) && w < |s.workers| && s.workers[w].Locked?
    ensures ExitInv(RunWorker(s, w))
  {
    if s.ring != [] {
      RingIdsDistinct(s);
      assert s.ring[0] in s.ring;
    }
  }

  lemma {:induction false} ExitStepOther(s: State, step: Step)
    requires ExitInv(s) && Enabled(s, step) && !step.MainRun? && !step.WorkerRun?
    ensures ExitInv(Apply(s, step))
  {
  }

  lemma {:induction false} ExitStep(s: State, step: Step)
    requires WakeInv(s) && FifoInv(s) && ExitInv(s) && Enabled(s, step)
    ensures ExitInv(Apply(s, step))
  {
    if step.WorkerRun? {
      ExitStepObtain(s, step.w);
    } else if step.MainRun? {
      ExitStepMain(s);
    } else {
      hide ExitInv;
      ExitStepOther(s, step);
    }
  }

  // ---------- Workers lost to pairs without a name ----------

  /** A worker that was given a pair without a name: it has left, or will as soon as it has signalled. */
  function Astray(w: Worker): nat {
    if w == Exited(false) || (w.Signalling? && w.pair.file == "") then 1 else 0
  }

  function Nameless(items: seq<Item>): nat {
    if items == [] then 0
    else Nameless(items[..|items| - 1]) + if items[|items| - 1].pair.file == "" then 1 else 0
  }

  /** Each pair without a name that was obtained has cost one worker. */
  ghost predicate LossInv(s: State) {
    Total(s.workers, Astray) == Nameless(s.obtained)
  }

  lemma {:induction false} NamelessMore(items: seq<Item>, x: Item)
    ensures Nameless(items + [x]) == Nameless(items) + if x.pair.file == "" then 1 else 0
  {
    assert (items + [x])[..|items|] == items;
  }

  lemma {:induction false} OneGoesAstray(s: State, step: Step)
    requires Enabled(s, step) && OnWorker(step)
    ensures var t := Apply(s, step);
            && step.w < |s.workers| == |t.workers| && t.workers == s.workers[step.w := t.workers[step.w]]
            && Nameless(t.obtained) + Astray(s.workers[step.w]) == Nameless(s.obtained) + Astray(t.workers[step.w])
  {
    if step.WorkerRun? && s.ring != [] {
      NamelessMore(s.obtained, s.ring[0]);
    }
    hide Nameless;
  }

  lemma {:induction false} LossStepWorker(s: State, step: Step)
    requires LossInv(s) && Enabled(s, step) && OnWorker(step)
    ensures LossInv(Apply(s, step))
  {
    OneGoesAstray(s, step);
    hide Total, Nameless, Astray, Apply, Enabled;
    TotalUpdate(s.workers, step.w, Apply(s, step).workers[step.w], Astray);
  }

  lemma {:induction false} LossStep(s: State, step: Step)
    requires LossInv(s) && Enabled(s, step)
    ensures LossInv(Apply(s, step))
  {
    if OnWorker(step) {
      hide LossInv, Enabled, Apply;
      LossStepWorker(s, step);
    } else if step.Broadcast? {
      var ws := Apply(s, step).workers;
      TotalMonotone(s.workers, ws, Astray);
      TotalMonotone(ws, s.workers, Astray);
    } else {
      hide Total, Nameless;
    }
  }

  lemma {:induction false} TotalFull(ws: seq<Worker>)
    ensures Total(ws, Astray) <= |ws|
    ensures Total(ws, Astray) == |ws| <==> forall w :: 0 <= w < |ws| ==> Astray(ws[w]) == 1
  {
    if ws != [] {
      TotalFull(ws[1..]);
      assert forall w :: 0 < w < |ws| ==> ws[w] == ws[1..][w - 1];
      if forall w :: 0 <= w < |ws| ==> Astray(ws[w]) == 1 {
        forall w | 0 <= w < |ws[1..]| ensures Astray(ws[1..][w]) == 1 {
          assert Astray(ws[w + 1]) == 1;
        }
      }
    }
  }

  // ---------- Over every run ----------

  ghost predicate Inv(s: State) {
    MutexInv(s) && WakeInv(s) && FifoInv(s) && NoDupInv(s) && ExitInv(s) && LossInv(s)
  }

  lemma {:induction false} InvInit(s: State)
    requires Init(s)
    ensures Inv(s)
  {
    TotalPositive(s.workers, Astray);
  }

  lemma {:induction false} InvStep(s: State, t: State)
    requires Inv(s) && Next(s, t)
    ensures Inv(t)
  {
    var step :| Enabled(s, step) && t == Apply(s, step);
    MutexStep(s, step);
    WakeStep(s, step);
    FifoStep(s, step);
    NoDupStep(s, step);
    ExitStep(s, step);
    LossStep(s, step);
  }

  lemma {:induction false} RunKeepsInv(tr: seq<State>, i: nat)
    requires Run(tr) && i < |tr|
    ensures Inv(tr[i])
  {
    if i == 0 {
      InvInit(tr[0]);
    } else {
      hide Inv, Next;
      RunKeepsInv(tr, i - 1);
      InvStep(tr[i - 1], tr[i]);
    }
  }

  lemma {:induction false} StepAt(tr: seq<State>, i: nat) returns (step: Step)
    requires Run(tr) && i < |tr| - 1
    ensures Inv(tr[i]) && Enabled(tr[i], step) && tr[i + 1] == Apply(tr[i], step)
  {
    RunKeepsInv(tr, i);
    assert Next(tr[i], tr[i + 1]);
    step :| Enabled(tr[i], step) && tr[i + 1] == Apply(tr[i], step);
  }

  /** Over every run: obtained, then still queued, is what was placed minus what cancels removed, in order and once each. */
  lemma {:induction false} FirstInFirstOut(tr: seq<State>, i: nat)
    requires Run(tr) && i < |tr|
    ensures var s := tr[i];
            && s.obtained + s.ring == Live(s.placed, s.cancelled.Keys + s.wiped)
            && (forall id :: id in s.cancelled ==> id < |s.placed| && s.placed[id].src.dir == s.cancelled[id])
            && (forall j, k :: 0 <= j < k < |s.obtained| ==> s.obtained[j].id < s.obtained[k].id)
  {
    RunKeepsInv(tr, i);
    var s := tr[i];
    LiveOrdered(s.placed, Gone(s));
    assert forall j :: 0 <= j < |s.obtained| ==> s.obtained[j] == (s.obtained + s.ring)[j];
  }

  /** The manager never calls cancel on a full ring without a pair of that directory. */
  ghost predicate CancelsAreExact(tr: seq<State>) {
    forall i :: 0 <= i < |tr| ==> tr[i].main.CancelLocked? ==>
      SyncBuffer.CancelIsExact(Pairs(tr[i].ring), tr[i].size, tr[i].main.dir)
  }

  function Pairs(ring: seq<Item>): (r: seq<SyncPair>)
    ensures |r| == |ring| && forall i :: 0 <= i < |r| ==> r[i] == ring[i].pair
  {
    seq(|ring|, i requires 0 <= i < |ring| => ring[i].pair)
  }

  /** The ring of this machine is the contents of the verified buffer, and cancel does to it what the buffer does. */
  lemma {:induction false} FilterPairs(ring: seq<Item>, dir: string)
    ensures Pairs(Filter(ring, ItemOutside(dir))) == SyncBuffer.Without(Pairs(ring), dir)
  {
    if ring != [] {
      var n := |ring| - 1;
      FilterPairs(ring[..n], dir);
      assert Pairs(ring)[..n] == Pairs(ring[..n]);
    }
  }

  /** The main thread's turn at the ring meets the contract of Place. */
  lemma {:induction false} PlaceMatchesBuffer(s: State)
    requires s.main.PlaceLocked?
    ensures SyncBuffer.Places(Pairs(s.ring), s.size, s.main.pair, RunMain(s).main.MustSignal?, Pairs(RunMain(s).ring))
  {
    assert Pairs(s.ring) + [] == Pairs(s.ring);
  }

  /** What a worker that held the mutex has found in the ring. */
  function Outcome(w: Worker): SyncBuffer.Obtained {
    match w
    case Signalling(pair) => SyncBuffer.Pair(pair)
    case Exited(_) => SyncBuffer.Quit
    case _ => SyncBuffer.MustWait
  }

  /** A worker's turn at the ring meets the contract of Obtain, and without a pair it exits or sleeps. */
  lemma {:induction false} ObtainMatchesBuffer(s: State, w: nat)
    requires w < |s.workers| && s.workers[w].Locked?
    ensures var t := RunWorker(s, w);
            && SyncBuffer.Obtains(Pairs(s.ring), s.quit, Outcome(t.workers[w]), Pairs(t.ring))
            && t.workers[w] == match Outcome(t.workers[w])
                               case Pair(pair) => Signalling(pair)
                               case Quit => Exited(true)
                               case MustWait => Sleeping
  {
    assert s.ring != [] ==> Pairs(s.ring) == [s.ring[0].pair] + Pairs(s.ring[1..]);
  }

  lemma {:induction false} CancelMatchesBuffer(s: State)
    requires s.main.CancelLocked?
    ensures Pairs(RunMain(s).ring) == SyncBuffer.AfterCancel(Pairs(s.ring), s.size, s.main.dir)
    ensures RunMain(s).main.CancelSignal? <==> SyncBuffer.HasDir(Pairs(s.ring), s.main.dir)
  {
    FilterPairs(s.ring, s.main.dir);
    if SyncBuffer.HasDir(Pairs(s.ring), s.main.dir) {
      var i :| 0 <= i < |s.ring| && Pairs(s.ring)[i].src.dir == s.main.dir;
      assert s.ring[i] in s.ring && s.ring[i].id in IdsIn(s.ring, s.main.dir);
    }
    if IdsIn(s.ring, s.main.dir) != {} {
      var id :| id in IdsIn(s.ring, s.main.dir);
      var x :| x in s.ring && x.pair.src.dir == s.main.dir && x.id == id;
      var i :| 0 <= i < |s.ring| && s.ring[i] == x;
      assert Pairs(s.ring)[i].src.dir == s.main.dir;
    }
  }

  /** One cancel loses a pair of another directory exactly when it is not exact. */
  lemma {:induction false} CancelLosesExactlyWhen(s: State)
    requires FifoInv(s) && s.main.CancelLocked? && |s.ring| <= s.size
    ensures RunMain(s).wiped == s.wiped <==> SyncBuffer.CancelIsExact(Pairs(s.ring), s.size, s.main.dir)
  {
    var dir := s.main.dir;
    FilterPairs(s.ring, dir);
    SyncBuffer.CancelIsFilterExactlyWhen(Pairs(s.ring), s.size, dir);
    RingIdsDistinct(s);
    FilterKeepsLength(s.ring, ItemOutside(dir));
    if !SyncBuffer.CancelIsExact(Pairs(s.ring), s.size, dir) {
      assert |Filter(s.ring, ItemOutside(dir))| == |s.ring| == s.size;
      assert s.ring[0] in s.ring;
      assert s.ring[0].id in IdsOutside(s.ring, dir) && s.ring[0].id !in s.wiped;
      assert s.ring[0].id in RunMain(s).wiped;
    }
  }

  lemma {:induction false} WipedStep(s: State, step: Step)
    requires FifoInv(s) && |s.ring| <= s.size && Enabled(s, step)
    requires s.main.CancelLocked? ==> SyncBuffer.CancelIsExact(Pairs(s.ring), s.size, s.main.dir)
    ensures Apply(s, step).wiped == s.wiped
  {
    if step.MainRun? && s.main.CancelLocked? {
      CancelLosesExactlyWhen(s);
    }
  }

  lemma {:induction false} WipedStepOfRun(tr: seq<State>, i: nat)
    requires Run(tr) && CancelsAreExact(tr) && i < |tr| - 1
    ensures tr[i + 1].wiped == tr[i].wiped
  {
    var step := StepAt(tr, i);
    hide NoDupInv, ExitInv, LossInv, MutexInv, Enabled, Apply;
    WipedStep(tr[i], step);
  }

  lemma {:induction false} ExactCancelsLoseNothing(tr: seq<State>, i: nat)
    requires Run(tr) && CancelsAreExact(tr) && i < |tr|
    ensures tr[i].wiped == {}
  {
    if i != 0 {
      hide Run, CancelsAreExact;
      ExactCancelsLoseNothing(tr, i - 1);
      WipedStepOfRun(tr, i - 1);
    }
  }

  /** Some worker has left because it found quit and an empty ring, not because of a pair without a name. */
  ghost predicate SomeLeftOnQuit(s: State) {
    exists w :: 0 <= w < |s.workers| && s.workers[w] == Exited(true)
  }

  /** As soon as one worker has left on quit, every placed pair was cancelled or obtained, exactly once and in order. */
  lemma {:induction false} FullDrain(tr: seq<State>, i: nat)
    requires Run(tr) && i < |tr| && SomeLeftOnQuit(tr[i])
    ensures tr[i].quit && tr[i].ring == []
    ensures tr[i].obtained == Live(tr[i].placed, tr[i].cancelled.Keys + tr[i].wiped)
    ensures CancelsAreExact(tr) ==> tr[i].obtained == Live(tr[i].placed, tr[i].cancelled.Keys)
  {
    RunKeepsInv(tr, i);
    var s := tr[i];
    if CancelsAreExact(tr) {
      ExactCancelsLoseNothing(tr, i);
      assert s.cancelled.Keys + {} == s.cancelled.Keys;
    }
    assert s.obtained + [] == s.obtained;
  }

  /** Every pair without a name that was obtained has taken one worker out of the pool. */
  lemma {:induction false} NamelessPairsCostWorkers(tr: seq<State>, i: nat)
    requires Run(tr) && i < |tr|
    ensures Total(tr[i].workers, Astray) == Nameless(tr[i].obtained) <= |tr[i].workers|
  {
    RunKeepsInv(tr, i);
    TotalFull(tr[i].workers);
  }

  /**
   * When all the workers have left, some of them left on quit exactly when fewer pairs without a name were obtained
   * than there are workers; and then everything that was placed and not cancelled was obtained.
   */
  lemma {:induction false} DrainedExactlyWhen(s: State)
    requires Inv(s) && AllExited(s.workers)
    ensures SomeLeftOnQuit(s) <==> Nameless(s.obtained) < |s.workers|
    ensures Nameless(s.obtained) < |s.workers| ==>
              s.quit && s.ring == [] && s.obtained == Live(s.placed, s.cancelled.Keys + s.wiped)
  {
    var ws := s.workers;
    TotalFull(ws);
    if w :| 0 <= w < |ws| && Astray(ws[w]) != 1 {
      assert ws[w] == Exited(true);
    }
    if SomeLeftOnQuit(s) {
      var w :| 0 <= w < |ws| && ws[w] == Exited(true);
      assert Astray(ws[w]) == 0;
      assert s.obtained + [] == s.obtained;
    }
  }

  lemma {:induction false} DrainsExactlyWhen(tr: seq<State>, i: nat)
    requires Run(tr) && i < |tr| && AllExited(tr[i].workers)
    ensures SomeLeftOnQuit(tr[i]) <==> Nameless(tr[i].obtained) < |tr[i].workers|
    ensures Nameless(tr[i].obtained) < |tr[i].workers| ==>
              && tr[i].quit && tr[i].ring == []
              && tr[i].obtained == Live(tr[i].placed, tr[i].cancelled.Keys + tr[i].wiped)
  {
    RunKeepsInv(tr, i);
    hide Run, Inv;
    DrainedExactlyWhen(tr[i]);
  }

  lemma {:induction false} NoFileQueuedTwice(tr: seq<State>, i: nat, j: nat, k: nat)
    requires Run(tr) && i < |tr| && j < k < |tr[i].ring|
    ensures !SameSource(tr[i].ring[j].pair, tr[i].ring[k].pair)
  {
    RunKeepsInv(tr, i);
  }

  // ---------- No deadlock, and shutdown ends ----------

  /** The main thread waits for room in a full ring, and every worker has left. */
  ghost predicate Abandoned(s: State) {
    s.main.PlaceSleeping? && |s.ring| == s.size && AllExited(s.workers)
  }

  /** A worker that has not left can move, or it sleeps. */
  lemma {:induction false} WorkerMoves(s: State, w: nat) returns (step: Step)
    requires s.owner == Nobody && w < |s.workers|
    requires !s.workers[w].Exited? && !s.workers[w].Sleeping? && !s.workers[w].Locked?
    ensures Enabled(s, step) && !IsSpurious(step) && !step.Start?
  {
    match s.workers[w]
    case Asking => step := WorkerLock(w);
    case Awake => step := WorkerLock(w);
    case Signalling(_) => step := WorkerSignal(w);
    case Copying(_) => step := Finish(w);
  }

  /** A sleeping worker with work in the ring: somebody awake is about to take it. */
  lemma {:induction false} SleeperIsNotNeeded(s: State) returns (step: Step)
    requires MutexInv(s) && WakeInv(s) && s.owner == Nobody && !s.main.MustSignal?
    requires SomeSleeps(s.workers) && s.ring != []
    ensures Enabled(s, step) && !IsSpurious(step) && !step.Start?
  {
    TotalPositive(s.workers, Weight);
    var w :| 0 <= w < |s.workers| && Weight(s.workers[w]) > 0;
    step := WorkerLock(w);
  }

  /**
   * No deadlock: as long as the main thread is inside a command or waits for its workers, some thread can
   * move without a spurious wakeup. The one exception is exactly known (AbandonedExactlyWhen).
   */
  lemma {:induction false} NoDeadlock(s: State) returns (step: Step)
    requires Inv(s) && !s.main.Idle? && !(s.main.Joining? && AllExited(s.workers)) && !Abandoned(s)
    ensures Enabled(s, step) && !IsSpurious(step)
  {
    hide FifoInv, NoDupInv, ExitInv, LossInv, Total;
    if s.owner.WorkerThread? {
      step := WorkerRun(s.owner.w);
    } else if s.owner.MainThread? {
      step := MainRun;
    } else if WantsLock(s.main) {
      step := MainLock;
    } else if s.main.PlaceSleeping? || s.main.Joining? {
      hide Inv, Enabled, Abandoned;
      step := WaitingMoves(s);
    } else {
      step := MainSignals(s);
    }
  }

  /** The main thread owes a signal. */
  lemma {:induction false} MainSignals(s: State) returns (step: Step)
    requires s.main.MustSignal? || s.main.CancelSignal? || s.main.MustBroadcast?
    ensures Enabled(s, step) && !IsSpurious(step)
  {
    if s.main.CancelSignal? {
      step := SignalCancel;
    } else if s.main.MustBroadcast? {
      step := Broadcast;
    } else if SomeSleeps(s.workers) {
      var w :| 0 <= w < |s.workers| && s.workers[w].Sleeping?;
      step := Signal(w);
    } else {
      step := SignalNobody;
    }
  }

  /** The main thread waits: some worker moves. */
  lemma {:induction false} WaitingMoves(s: State) returns (step: Step)
    requires Inv(s) && s.owner == Nobody && (s.main.PlaceSleeping? || s.main.Joining?)
    requires !(s.main.Joining? && AllExited(s.workers)) && !Abandoned(s)
    ensures Enabled(s, step) && !IsSpurious(step)
  {
    hide FifoInv, NoDupInv, ExitInv, LossInv, Total;
    if SomeSignals(s.workers) {
      var w :| 0 <= w < |s.workers| && s.workers[w].Signalling?;
      step := WorkerSignal(w);
    } else if SomeSleeps(s.workers) {
      step := SleeperIsNotNeeded(s);
    } else {
      var w :| 0 <= w < |s.workers| && !s.workers[w].Exited?;
      step := WorkerMoves(s, w);
    }
  }

  /**
   * The exception is there exactly when the main thread sleeps on a full ring, nobody is about to signal, and as
   * many pairs without a name were obtained as there are workers.
   */
  lemma {:induction false} AbandonedExactlyWhen(s: State)
    requires Inv(s)
    ensures Abandoned(s) <==>
              && s.main.PlaceSleeping? && |s.ring| == s.size && !SomeSignals(s.workers)
              && Nameless(s.obtained) == |s.workers|
  {
    TotalFull(s.workers);
    if Nameless(s.obtained) == |s.workers| && !SomeSignals(s.workers) {
      forall w | 0 <= w < |s.workers| ensures s.workers[w].Exited? {
        assert Astray(s.workers[w]) == 1;
      }
    }
    if Abandoned(s) {
      forall w | 0 <= w < |s.workers| ensures Astray(s.workers[w]) == 1 {
        assert s.workers[w] == Exited(true) || s.workers[w] == Exited(false);
      }
    }
  }

  lemma {:induction false} AbandonedIsStuck(s: State)
    requires Inv(s) && Abandoned(s)
    ensures forall step :: Enabled(s, step) ==> step == SpuriousMain
  {
  }

  /** The main thread, with nobody left to make room, on its way round the loop of sync_buffer_place. */
  ghost predicate Hopeless(s: State, pair: SyncPair) {
    && (s.main == PlaceSleeping(pair) || s.main == PlaceAwake(pair) || s.main == PlaceLocked(pair))
    && |s.ring| == s.size && AllExited(s.workers)
  }

  lemma {:induction false} HopelessStep(s: State, step: Step, pair: SyncPair)
    requires MutexInv(s) && Hopeless(s, pair) && Enabled(s, step)
    ensures var t := Apply(s, step);
            Hopeless(t, pair) && t.workers == s.workers && t.ring == s.ring && t.placed == s.placed && t.quit == s.quit
  {
    assert !OnWorker(step);
  }

  lemma {:induction false} HopelessStepOfRun(tr: seq<State>, i: nat, pair: SyncPair)
    requires Run(tr) && i < |tr| - 1 && Hopeless(tr[i], pair)
    ensures Hopeless(tr[i + 1], pair) && tr[i + 1].workers == tr[i].workers
    ensures tr[i + 1].ring == tr[i].ring && tr[i + 1].placed == tr[i].placed
  {
    var step := StepAt(tr, i);
    hide Run, Hopeless, WakeInv, FifoInv, NoDupInv, ExitInv, LossInv, MutexInv, Enabled, Apply;
    HopelessStep(tr[i], step, pair);
  }

  lemma {:induction false} HopelessForEver(tr: seq<State>, i: nat, j: nat, pair: SyncPair)
    requires Run(tr) && i <= j < |tr| && Hopeless(tr[i], pair)
    ensures Hopeless(tr[j], pair)
    ensures tr[j].ring == tr[i].ring && tr[j].placed == tr[i].placed && tr[j].workers == tr[i].workers
  {
    hide Run, Hopeless;
    if i != j {
      HopelessForEver(tr, i, j - 1, pair);
      HopelessStepOfRun(tr, j - 1, pair);
    }
  }

  /** It never ends: whatever wakes the main thread, the pair is never placed and the ring never changes again. */
  lemma {:induction false} AbandonedForEver(tr: seq<State>, i: nat, j: nat)
    requires Run(tr) && i <= j < |tr| && Abandoned(tr[i])
    ensures Hopeless(tr[j], tr[i].main.pair)
    ensures tr[j].ring == tr[i].ring && tr[j].placed == tr[i].placed && tr[j].workers == tr[i].workers
  {
    assert Hopeless(tr[i], tr[i].main.pair);
    hide Run, Hopeless, Abandoned;
    HopelessForEver(tr, i, j, tr[i].main.pair);
  }

  /** With the main thread idle, everybody is asleep or gone only when there is nothing to do. */
  lemma {:induction false} QuietOnlyWhenEmpty(s: State)
    requires Inv(s) && s.main.Idle? && forall step :: Enabled(s, step) ==> step.Start? || IsSpurious(step)
    ensures forall w :: 0 <= w < |s.workers| ==> s.workers[w].Sleeping? || s.workers[w].Exited?
    ensures s.ring == [] || AllExited(s.workers)
  {
    if s.owner.WorkerThread? {
      assert Enabled(s, WorkerRun(s.owner.w));
    }
    forall w | 0 <= w < |s.workers| ensures s.workers[w].Sleeping? || s.workers[w].Exited? {
      if !s.workers[w].Sleeping? && !s.workers[w].Exited? && !s.workers[w].Locked? {
        var step := WorkerMoves(s, w);
      }
    }
    if s.ring != [] && SomeSleeps(s.workers) {
      var step := SleeperIsNotNeeded(s);
    }
  }

  /** What is left to do after quit: every step, spurious or not, makes it smaller. */
  function ToDo(s: State): nat {
    4 * |s.ring| + Total(s.workers, Rank) + if s.main.MustBroadcast? then 1 else 0
  }

  lemma {:induction false} ShutdownStep(s: State, step: Step)
    requires MutexInv(s) && WakeInv(s) && s.quit && Enabled(s, step)
    ensures Apply(s, step).quit && ToDo(Apply(s, step)) < ToDo(s)
  {
    var t := Apply(s, step);
    if step.Broadcast? {
      TotalMonotone(s.workers, t.workers, Rank);
    } else {
      assert OnWorker(step);
      TotalUpdate(s.workers, step.w, t.workers[step.w], Rank);
    }
  }

  lemma {:induction false} ShutdownStepOfRun(tr: seq<State>, i: nat)
    requires Run(tr) && i < |tr| - 1 && tr[i].quit
    ensures tr[i + 1].quit && ToDo(tr[i + 1]) < ToDo(tr[i])
  {
    var step := StepAt(tr, i);
    hide Run, WakeInv, FifoInv, NoDupInv, ExitInv, LossInv, MutexInv, Enabled, Apply, ToDo;
    ShutdownStep(tr[i], step);
  }

  /** After quit only boundedly many steps remain, so with NoDeadlock every worker leaves. */
  lemma {:induction false} ShutdownIsBounded(tr: seq<State>, i: nat, j: nat)
    requires Run(tr) && i <= j < |tr| && tr[i].quit
    ensures tr[j].quit && ToDo(tr[j]) + (j - i) <= ToDo(tr[i])
  {
    hide Run, ToDo;
    if i != j {
      ShutdownIsBounded(tr, i, j - 1);
      ShutdownStepOfRun(tr, j - 1);
    }
  }
}
