// The whole remote synchronizer: the workers of WorkerPool carry out, pair by pair, the transfers of Transfer, to as
// many hosts as there are.
module Synchronizer {
  import opened SyncPairs
  import opened Wire
  import P = WorkerPool
  import N = Transfer

  /** A device that serves connections: host and port. */
  type Host = (string, int)

  /** How names are written as bytes, and what the source file of each pair holds. */
  datatype Setting = Setting(bytes: string -> N.Content, file: SyncPair -> N.Content)

  function HostOf(p: SyncPair): Host {
    (p.tar.host, p.tar.port)
  }

  function PathOf(e: Setting, p: SyncPair): N.Path {
    e.bytes(p.tar.dir) + [47] + e.bytes(p.file)
  }

  predicate SameTarget(e: Setting, a: SyncPair, b: SyncPair) {
    HostOf(a) == HostOf(b) && PathOf(e, a) == PathOf(e, b)
  }

  /** The pool, the hosts, which workers have begun with their pair, and the pairs whose transfer did not come about. */
  datatype State = State(pool: P.State, nets: map<Host, N.State>, begun: set<nat>, failed: set<SyncPair>)

  datatype Step =
    | Pool(x: P.Step)
    | NoSource(w: nat)              // the source cannot be reached
    | Work(w: nat, y: N.Step)       // the worker's own step towards the target host of its pair
    | Serve(host: Host, z: N.Step)

  predicate ByHost(x: N.Step) {
    x.ServeTruncate? || x.ServePiece? || x.ServeEnd?
  }

  predicate Copies(s: State, w: nat) {
    w < |s.pool.workers| && s.pool.workers[w].Copying?
  }

  predicate Reaches(s: State, w: nat) {
    Copies(s, w) && HostOf(s.pool.workers[w].pair) in s.nets
  }

  function NetOf(s: State, w: nat): N.State
    requires Reaches(s, w)
  {
    s.nets[HostOf(s.pool.workers[w].pair)]
  }

  predicate Enabled(e: Setting, s: State, x: Step) {
    match x
    case Pool(y) =>
      && P.Enabled(s.pool, y)
      && (y.Finish? ==>
            && y.w in s.begun && Reaches(s, y.w)
            && y.w < |NetOf(s, y.w).workers| && NetOf(s, y.w).workers[y.w].Free?)
    case NoSource(w) => Copies(s, w) && w !in s.begun
    case Work(w, y) =>
      && Reaches(s, w) && !ByHost(y) && y.i == w && N.Enabled(NetOf(s, w), y)
      && (y.Pull? ==>
            && w !in s.begun && y.path == PathOf(e, s.pool.workers[w].pair)
            && y.file == e.file(s.pool.workers[w].pair))
    case Serve(h, y) => h in s.nets && ByHost(y) && N.Enabled(s.nets[h], y)
  }

  /** The transfer is not to be: the source refuses the file, or the first connection to the target fails. */
  predicate Fails(y: N.Step) {
    y.GiveUp? || (y.Pull? && N.Pulled(y.file).None?)
  }

  function Next(e: Setting, s: State, x: Step): State
    requires Enabled(e, s, x)
  {
    match x
    case Pool(y) => s.(pool := P.Apply(s.pool, y), begun := if y.Finish? then s.begun - {y.w} else s.begun)
    case NoSource(w) => s.(begun := s.begun + {w}, failed := s.failed + {s.pool.workers[w].pair})
    case Work(w, y) =>
      var p := s.pool.workers[w].pair;
      s.(nets := s.nets[HostOf(p) := N.Next(NetOf(s, w), y)], begun := s.begun + {w},
         failed := if Fails(y) then s.failed + {p} else s.failed)
    case Serve(h, y) => s.(nets := s.nets[h := N.Next(s.nets[h], y)])
  }

  // ---------- What every run keeps for one pair ----------

  predicate Holds(w: P.Worker, p: SyncPair) {
    (w.Signalling? || w.Copying?) && w.pair == p
  }

  ghost predicate Obtained(s: P.State, p: SyncPair) {
    exists i :: 0 <= i < |s.obtained| && s.obtained[i].pair == p
  }

  /** The pair was placed once, and no other pair for its target was. */
  ghost predicate OwnTarget(e: Setting, placed: seq<SyncPair>, p: SyncPair) {
    && p in placed
    && forall i, j :: 0 <= i < |placed| && 0 <= j < |placed| && SameTarget(e, placed[i], p) && SameTarget(e, placed[j], p)
         ==> i == j
  }

  ghost predicate Targeted(e: Setting, placed: seq<SyncPair>, p: SyncPair) {
    exists i :: 0 <= i < |placed| && SameTarget(e, placed[i], p)
  }

  /** One worker at most has the pair, and it has obtained it. */
  ghost predicate HeldOnce(s: P.State, p: SyncPair) {
    forall w :: 0 <= w < |s.workers| && Holds(s.workers[w], p) ==>
      Obtained(s, p) && forall v :: 0 <= v < |s.workers| && Holds(s.workers[v], p) ==> v == w
  }

  /** A worker that is on its way at the host brings what its pair says. */
  predicate LinkedAt(e: Setting, s: State, h: Host, net: N.State, w: nat)
    requires w < |s.pool.workers| == |net.workers|
  {
    var v := net.workers[w];
    !v.Free? ==>
      && w in s.begun && Copies(s, w)
      && var q := s.pool.workers[w].pair; HostOf(q) == h && v.path == PathOf(e, q) && v.file == e.file(q)
  }

  ghost predicate Linked(e: Setting, s: State, h: Host) {
    && h in s.nets && |s.nets[h].workers| == |s.pool.workers|
    && (forall w :: 0 <= w < |s.pool.workers| ==> LinkedAt(e, s, h, s.nets[h], w))
    && (forall w :: w in s.begun ==> Copies(s, w))
  }

  /** Something is or was on its way to the path. */
  ghost predicate Touched(net: N.State, path: N.Path) {
    path in net.sent || exists w :: 0 <= w < |net.workers| && N.InFlight(net.workers[w], path)
  }

  /** A worker has the pair and is not done with it. */
  predicate IsBusyWith(s: State, net: N.State, p: SyncPair, w: nat)
    requires w < |s.pool.workers| == |net.workers|
  {
    Holds(s.pool.workers[w], p) && !(w in s.begun && net.workers[w].Free?)
  }

  ghost predicate Pending(s: State, net: N.State, p: SyncPair)
    requires |s.pool.workers| == |net.workers|
  {
    exists w :: 0 <= w < |s.pool.workers| && IsBusyWith(s, net, p, w)
  }

  /** All of the pair's file has been sent, and nothing else since. */
  ghost predicate Delivered(e: Setting, net: N.State, p: SyncPair) {
    var path := PathOf(e, p);
    path in net.sent && net.sent[path].file == e.file(p) && !N.Pushed(net, path)
  }

  ghost predicate Outcome(e: Setting, s: State, net: N.State, p: SyncPair)
    requires |s.pool.workers| == |net.workers|
  {
    p.file != "" && Obtained(s.pool, p) ==> p in s.failed || Pending(s, net, p) || Delivered(e, net, p)
  }

  ghost predicate OwnInv(e: Setting, s: State, net: N.State, p: SyncPair)
    requires |s.pool.workers| == |net.workers|
  {
    HeldOnce(s.pool, p) && N.AloneInv(net, PathOf(e, p)) && Outcome(e, s, net, p)
  }

  /** `before` is what the pair's host had when the run began. */
  ghost predicate PairInv(e: Setting, before: map<N.Path, N.Content>, s: State, p: SyncPair) {
    && P.Inv(s.pool) && Linked(e, s, HostOf(p))
    && var net := s.nets[HostOf(p)];
       && N.Inv(before, net, PathOf(e, p))
       && (Touched(net, PathOf(e, p)) ==> Targeted(e, s.pool.placed, p))
       && (OwnTarget(e, s.pool.placed, p) ==> OwnInv(e, s, net, p))
  }

  // ---------- Steps of the pool ----------

  lemma {:induction false} OwnMeansItself(e: Setting, placed: seq<SyncPair>, p: SyncPair, q: SyncPair)
    requires OwnTarget(e, placed, p) && q in placed && SameTarget(e, q, p)
    ensures q == p
  {
    var i :| 0 <= i < |placed| && placed[i] == q;
    var j :| 0 <= j < |placed| && placed[j] == p;
  }

  /** What is own now was own before, or was placed just now for a target that nobody had. */
  lemma {:induction false} OwnBefore(e: Setting, placed: seq<SyncPair>, more: seq<SyncPair>, p: SyncPair)
    requires OwnTarget(e, placed + more, p) && |more| <= 1
    ensures OwnTarget(e, placed, p) || (more == [p] && !Targeted(e, placed, p) && p !in placed)
  {
    var all := placed + more;
    assert forall i :: 0 <= i < |placed| ==> all[i] == placed[i];
    if p in placed {
      var i :| 0 <= i < |placed| && placed[i] == p;
    } else {
      var i :| 0 <= i < |all| && all[i] == p;
      assert i == |placed| && all[i] == more[0] && SameTarget(e, all[i], p);
      forall j | 0 <= j < |placed| ensures !SameTarget(e, placed[j], p) {
        assert all[j] == placed[j];
      }
    }
  }

  lemma {:induction false} TargetedMore(e: Setting, placed: seq<SyncPair>, more: seq<SyncPair>, p: SyncPair)
    requires Targeted(e, placed, p)
    ensures Targeted(e, placed + more, p)
  {
    var i :| 0 <= i < |placed| && SameTarget(e, placed[i], p);
    assert (placed + more)[i] == placed[i];
  }

  /** What a step of the pool does to the worker v, as far as it has a pair. */
  lemma {:induction false} PoolWorker(s: P.State, x: P.Step, v: nat)
    requires P.Enabled(s, x) && v < |s.workers|
    ensures var t := P.Apply(s, x);
            && |t.workers| == |s.workers|
            && (P.OnWorker(x) && x.w == v ==>
                  && (x.WorkerRun? && s.ring != [] ==> t.workers[v] == P.Signalling(s.ring[0].pair))
                  && (x.WorkerRun? ==> !s.workers[v].Signalling? && !s.workers[v].Copying?)
                  && (x.WorkerSignal? && s.workers[v].pair.file != "" ==> t.workers[v] == P.Copying(s.workers[v].pair))
                  && (!(x.WorkerRun? && s.ring != []) && !(x.WorkerSignal? && s.workers[v].pair.file != "") ==>
                        !t.workers[v].Signalling? && !t.workers[v].Copying?)
                  && (s.workers[v].Copying? ==> x.Finish?) && (s.workers[v].Signalling? ==> x.WorkerSignal?))
            && (!(P.OnWorker(x) && x.w == v) ==>
                  || t.workers[v] == s.workers[v]
                  || (t.workers[v] == P.Awake && s.workers[v] == P.Sleeping))
  {
  }

  lemma {:induction false} PoolHistory(s: P.State, x: P.Step)
    requires P.Enabled(s, x)
    ensures var t := P.Apply(s, x);
            && t.placed == s.placed + (if x.MainRun? && s.main.PlaceLocked? && |s.ring| < s.size then [s.main.pair] else [])
            && t.obtained == s.obtained + (if x.WorkerRun? && s.ring != [] then [s.ring[0]] else [])
  {
    assert s.placed + [] == s.placed && s.obtained + [] == s.obtained;
  }

  lemma {:induction false} ObtainedMore(s: P.State, t: P.State, more: seq<P.Item>, p: SyncPair)
    requires t.obtained == s.obtained + more && |more| <= 1
    ensures Obtained(t, p) <==> Obtained(s, p) || (more != [] && more[0].pair == p)
  {
    if Obtained(s, p) {
      var i :| 0 <= i < |s.obtained| && s.obtained[i].pair == p;
      assert t.obtained[i] == s.obtained[i];
    }
    if more != [] {
      assert t.obtained[|s.obtained|] == more[0];
    }
    if Obtained(t, p) {
      var i :| 0 <= i < |t.obtained| && t.obtained[i].pair == p;
      assert i < |s.obtained| ==> t.obtained[i] == s.obtained[i];
    }
  }

  /** A pair is in the ring or was obtained only if it was placed; and an own one is not both. */
  lemma {:induction false} PlacedOnly(e: Setting, s: P.State, p: SyncPair)
    requires P.FifoInv(s)
    ensures Obtained(s, p) ==> p in s.placed
    ensures s.ring != [] && s.ring[0].pair == p ==> p in s.placed
    ensures OwnTarget(e, s.placed, p) && s.ring != [] && s.ring[0].pair == p ==> !Obtained(s, p)
  {
    var all := s.obtained + s.ring;
    P.LiveOrdered(s.placed, P.Gone(s));
    assert all == P.Live(s.placed, P.Gone(s));
    if Obtained(s, p) {
      var i :| 0 <= i < |s.obtained| && s.obtained[i].pair == p;
      assert all[i] == s.obtained[i] && s.placed[all[i].id] == p;
      if s.ring != [] && s.ring[0].pair == p {
        assert all[|s.obtained|] == s.ring[0] && all[i].id < s.ring[0].id && s.placed[s.ring[0].id] == p;
        assert SameTarget(e, s.placed[all[i].id], p) && SameTarget(e, s.placed[s.ring[0].id], p);
      }
    }
    if s.ring != [] {
      assert all[|s.obtained|] == s.ring[0];
    }
  }

  lemma {:induction false} HeldStep(s: P.State, x: P.Step, p: SyncPair)
    requires HeldOnce(s, p) && P.Enabled(s, x)
    requires x.WorkerRun? && s.ring != [] && s.ring[0].pair == p ==> !Obtained(s, p)
    ensures HeldOnce(P.Apply(s, x), p)
  {
    var t := P.Apply(s, x);
    PoolHistory(s, x);
    var more := if x.WorkerRun? && s.ring != [] then [s.ring[0]] else [];
    ObtainedMore(s, t, more, p);
    forall v | 0 <= v < |s.workers|
      ensures |t.workers| == |s.workers|
      ensures Holds(t.workers[v], p) ==>
                Holds(s.workers[v], p) || (x == P.WorkerRun(v) && more != [] && more[0].pair == p)
    {
      PoolWorker(s, x, v);
    }
    hide P.Enabled, P.Apply, Obtained;
  }

  /** The workers that have a pair have one that was placed. */
  lemma {:induction false} HeldWasPlaced(s: P.State, w: nat, p: SyncPair)
    requires P.ExitInv(s) && w < |s.workers| && Holds(s.workers[w], p)
    ensures p in s.placed && (s.workers[w].Copying? ==> p.file != "")
  {
  }

  lemma {:induction false} PoolKeepsLinks(e: Setting, s: State, y: P.Step, h: Host)
    requires Linked(e, s, h) && Enabled(e, s, Pool(y))
    ensures Linked(e, Next(e, s, Pool(y)), h)
  {
    var t, net := Next(e, s, Pool(y)), s.nets[h];
    forall w | 0 <= w < |s.pool.workers| ensures |t.pool.workers| == |s.pool.workers| && LinkedAt(e, t, h, net, w) {
      PoolWorker(s.pool, y, w);
      assert LinkedAt(e, s, h, net, w);
    }
    forall w | w in t.begun ensures Copies(t, w) {
      assert Copies(s, w);
      PoolWorker(s.pool, y, w);
    }
    if |s.pool.workers| == 0 {
      PoolWorkers(s.pool, y);
    }
  }

  lemma {:induction false} PoolWorkers(s: P.State, x: P.Step)
    requires P.Enabled(s, x)
    ensures |P.Apply(s, x).workers| == |s.workers|
  {
  }

  /** What becomes of the pair in a step of the pool. */
  lemma {:induction false} PoolKeepsOutcome(e: Setting, s: State, y: P.Step, p: SyncPair)
    requires Linked(e, s, HostOf(p)) && Enabled(e, s, Pool(y)) && Outcome(e, s, s.nets[HostOf(p)], p)
    ensures var t, net := Next(e, s, Pool(y)), s.nets[HostOf(p)];
            |t.pool.workers| == |net.workers| && Outcome(e, t, net, p)
  {
    var t, net := Next(e, s, Pool(y)), s.nets[HostOf(p)];
    PoolWorkers(s.pool, y);
    PoolHistory(s.pool, y);
    var more := if y.WorkerRun? && s.pool.ring != [] then [s.pool.ring[0]] else [];
    ObtainedMore(s.pool, t.pool, more, p);
    if p.file != "" && Obtained(t.pool, p) {
      if !Obtained(s.pool, p) {
        PoolWorker(s.pool, y, y.w);
        assert y.w in s.begun ==> Copies(s, y.w);
        assert IsBusyWith(t, net, p, y.w);
      } else if Pending(s, net, p) {
        var w :| 0 <= w < |s.pool.workers| && IsBusyWith(s, net, p, w);
        PoolWorker(s.pool, y, w);
        assert y == P.WorkerSignal(w) ==> w !in s.begun;
        assert IsBusyWith(t, net, p, w);
      }
    }
  }

  /** A pair that was placed just now, for a target that nobody had. */
  lemma {:induction false} NewOwn(e: Setting, s: State, y: P.Step, p: SyncPair)
    requires P.Inv(s.pool) && Linked(e, s, HostOf(p)) && Enabled(e, s, Pool(y)) && y.MainRun? && p !in s.pool.placed
    requires !Touched(s.nets[HostOf(p)], PathOf(e, p))
    ensures var t, net := Next(e, s, Pool(y)), s.nets[HostOf(p)]; |t.pool.workers| == |net.workers| && OwnInv(e, t, net, p)
  {
    var t, net := Next(e, s, Pool(y)), s.nets[HostOf(p)];
    PoolWorkers(s.pool, y);
    PoolHistory(s.pool, y);
    ObtainedMore(s.pool, t.pool, [], p);
    PlacedOnly(e, s.pool, p);
    forall w | 0 <= w < |t.pool.workers| ensures !Holds(t.pool.workers[w], p) {
      PoolWorker(s.pool, y, w);
      if Holds(s.pool.workers[w], p) {
        HeldWasPlaced(s.pool, w, p);
      }
    }
  }

  lemma {:induction false} PoolKeepsOwn(e: Setting, s: State, y: P.Step, p: SyncPair)
    requires P.Inv(s.pool) && Linked(e, s, HostOf(p)) && Enabled(e, s, Pool(y))
    requires OwnTarget(e, s.pool.placed, p) && OwnInv(e, s, s.nets[HostOf(p)], p)
    ensures var t, net := Next(e, s, Pool(y)), s.nets[HostOf(p)]; |t.pool.workers| == |net.workers| && OwnInv(e, t, net, p)
  {
    PlacedOnly(e, s.pool, p);
    PoolKeepsOutcome(e, s, y, p);
    hide P.Inv, P.Apply, P.Enabled, HeldOnce, Outcome, N.AloneInv, OwnTarget;
    HeldStep(s.pool, y, p);
  }

  lemma {:induction false} PoolStep(e: Setting, before: map<N.Path, N.Content>, s: State, y: P.Step, p: SyncPair)
    requires PairInv(e, before, s, p) && Enabled(e, s, Pool(y))
    ensures PairInv(e, before, Next(e, s, Pool(y)), p)
  {
    var t, net := Next(e, s, Pool(y)), s.nets[HostOf(p)];
    assert P.Next(s.pool, t.pool);
    P.InvStep(s.pool, t.pool);
    PoolHistory(s.pool, y);
    var more := if y.MainRun? && s.pool.main.PlaceLocked? && |s.pool.ring| < s.pool.size then [s.pool.main.pair] else [];
    PoolKeepsLinks(e, s, y, HostOf(p));
    assert t.nets == s.nets && Enabled(e, s, Pool(y));
    hide P.Inv, P.Apply, P.Enabled, Linked, OwnInv, OwnTarget, Touched, Targeted, N.Inv, Enabled, Next;
    if Targeted(e, s.pool.placed, p) {
      TargetedMore(e, s.pool.placed, more, p);
    }
    if OwnTarget(e, t.pool.placed, p) {
      OwnBefore(e, s.pool.placed, more, p);
      if OwnTarget(e, s.pool.placed, p) {
        PoolKeepsOwn(e, s, y, p);
      } else {
        NewOwn(e, s, y, p);
      }
    }
  }

  // ---------- Steps of a worker and of a host ----------

  /** What a worker's own step does to the machine of its host. */
  lemma {:induction false} WorkEffect(s: N.State, w: nat, y: N.Step)
    requires !ByHost(y) && y.i == w && N.Enabled(s, y)
    ensures var t := N.Next(s, y);
            && w < |s.workers| == |t.workers| && t.workers == s.workers[w := t.workers[w]]
            && (y.Pull? ==> s.workers[w].Free?) && (!y.Pull? ==> !s.workers[w].Free?)
            && (!t.workers[w].Free? ==>
                  if y.Pull? then t.workers[w].path == y.path && t.workers[w].file == y.file
                  else t.workers[w].path == s.workers[w].path && t.workers[w].file == s.workers[w].file)
            && (t.workers[w].Free? ==> Fails(y) || y.SendLast? || y.LastFails?)
  {
  }

  /** What it does to what was sent for one path. */
  lemma {:induction false} WorkSends(s: N.State, w: nat, y: N.Step, path: N.Path)
    requires !ByHost(y) && y.i == w && N.Enabled(s, y)
    ensures var t := N.Next(s, y);
            && (y.Pull? || s.workers[w].path != path ==> N.Get(t.sent, path) == N.Get(s.sent, path))
            && (path in t.sent && path !in s.sent ==> y.SendTruncate?)
            && (y.LastFails? || y.SendLast? ==>
                  && s.workers[w].Pushing?
                  && (path in s.sent ==> path in t.sent && t.sent[path].file == s.sent[path].file))
  {
  }

  lemma {:induction false} WorkKeepsLinks(e: Setting, s: State, w: nat, y: N.Step, h: Host)
    requires Linked(e, s, h) && Enabled(e, s, Work(w, y))
    ensures Linked(e, Next(e, s, Work(w, y)), h)
  {
    var t, own := Next(e, s, Work(w, y)), HostOf(s.pool.workers[w].pair);
    WorkEffect(NetOf(s, w), w, y);
    hide N.Enabled, N.Next;
    forall v | 0 <= v < |s.pool.workers| ensures LinkedAt(e, t, h, t.nets[h], v) {
      assert LinkedAt(e, s, h, s.nets[h], v);
    }
  }

  /** Whoever is on its way to an own pair's path has that pair. */
  lemma {:induction false} OnlyItsWorker(e: Setting, s: State, p: SyncPair, v: nat)
    requires P.ExitInv(s.pool) && Linked(e, s, HostOf(p)) && OwnTarget(e, s.pool.placed, p) && v < |s.pool.workers|
    requires N.InFlight(s.nets[HostOf(p)].workers[v], PathOf(e, p))
    ensures Holds(s.pool.workers[v], p)
  {
    assert LinkedAt(e, s, HostOf(p), s.nets[HostOf(p)], v);
    var q := s.pool.workers[v].pair;
    HeldWasPlaced(s.pool, v, q);
    OwnMeansItself(e, s.pool.placed, p, q);
  }

  /** The worker of an own pair does nothing that another one is at. */
  lemma {:induction false} OwnIsGuarded(e: Setting, s: State, w: nat, y: N.Step, p: SyncPair)
    requires P.ExitInv(s.pool) && Linked(e, s, HostOf(p)) && OwnTarget(e, s.pool.placed, p) && HeldOnce(s.pool, p)
    requires Enabled(e, s, Work(w, y)) && HostOf(s.pool.workers[w].pair) == HostOf(p)
    ensures N.Guarded(s.nets[HostOf(p)], y, PathOf(e, p))
  {
    var net, q := s.nets[HostOf(p)], s.pool.workers[w].pair;
    if y.Pull? && y.path == PathOf(e, p) {
      HeldWasPlaced(s.pool, w, q);
      OwnMeansItself(e, s.pool.placed, p, q);
      forall v | 0 <= v < |net.workers| ensures !N.InFlight(net.workers[v], PathOf(e, p)) {
        if N.InFlight(net.workers[v], PathOf(e, p)) {
          OnlyItsWorker(e, s, p, v);
        }
      }
    }
  }

  /** The worker that has the pair itself. */
  lemma {:induction false} OwnWorkerOutcome(e: Setting, s: State, w: nat, y: N.Step, p: SyncPair)
    requires P.ExitInv(s.pool) && Linked(e, s, HostOf(p)) && Enabled(e, s, Work(w, y)) && s.pool.workers[w].pair == p
    requires N.WorkersInv(s.nets[HostOf(p)], PathOf(e, p)) && N.AloneInv(s.nets[HostOf(p)], PathOf(e, p))
    ensures var t := Next(e, s, Work(w, y)); Linked(e, t, HostOf(p)) && Outcome(e, t, t.nets[HostOf(p)], p)
  {
    var t, h, path := Next(e, s, Work(w, y)), HostOf(p), PathOf(e, p);
    var net, net' := s.nets[h], t.nets[h];
    WorkKeepsLinks(e, s, w, y, h);
    WorkEffect(net, w, y);
    WorkSends(net, w, y, path);
    assert LinkedAt(e, s, h, net, w) && N.WorkerInv(net, w, path);
    hide N.Enabled, N.Next, N.Pulled, N.Data;
    if !net'.workers[w].Free? {
      assert IsBusyWith(t, net', p, w);
    } else if !Fails(y) {
      assert N.Pushes(net.workers, w, path);
      forall v | 0 <= v < |net'.workers| ensures !N.Pushes(net'.workers, v, path) {
        if v != w {
          assert !(N.InFlight(net.workers[w], path) && N.InFlight(net.workers[v], path));
        }
      }
      assert Delivered(e, net', p);
    }
  }

  /** A worker that has another pair. */
  lemma {:induction false} OtherWorkerOutcome(e: Setting, s: State, w: nat, y: N.Step, p: SyncPair)
    requires Linked(e, s, HostOf(p)) && Enabled(e, s, Work(w, y)) && !SameTarget(e, s.pool.workers[w].pair, p)
    requires Outcome(e, s, s.nets[HostOf(p)], p)
    ensures var t := Next(e, s, Work(w, y)); Linked(e, t, HostOf(p)) && Outcome(e, t, t.nets[HostOf(p)], p)
  {
    var t, h, path, q := Next(e, s, Work(w, y)), HostOf(p), PathOf(e, p), s.pool.workers[w].pair;
    var net, net' := s.nets[h], t.nets[h];
    WorkKeepsLinks(e, s, w, y, h);
    WorkEffect(NetOf(s, w), w, y);
    WorkSends(NetOf(s, w), w, y, path);
    assert LinkedAt(e, s, h, net, w) && LinkedAt(e, t, h, net', w);
    hide N.Enabled, N.Next;
    if Pending(s, net, p) {
      var v :| 0 <= v < |s.pool.workers| && IsBusyWith(s, net, p, v);
      assert v != w && IsBusyWith(t, net', p, v);
    } else if Delivered(e, net, p) {
      forall v | 0 <= v < |net'.workers| ensures !N.Pushes(net'.workers, v, path) {
        assert !N.Pushes(net.workers, v, path);
      }
      assert Delivered(e, net', p);
    }
  }

  lemma {:induction false} WorkTouches(e: Setting, s: State, w: nat, y: N.Step, p: SyncPair)
    requires P.ExitInv(s.pool) && Linked(e, s, HostOf(p)) && Enabled(e, s, Work(w, y))
    requires Touched(s.nets[HostOf(p)], PathOf(e, p)) ==> Targeted(e, s.pool.placed, p)
    ensures Touched(Next(e, s, Work(w, y)).nets[HostOf(p)], PathOf(e, p)) ==> Targeted(e, s.pool.placed, p)
  {
    var t, h, path, q := Next(e, s, Work(w, y)), HostOf(p), PathOf(e, p), s.pool.workers[w].pair;
    var net, net' := s.nets[h], t.nets[h];
    HeldWasPlaced(s.pool, w, q);
    WorkEffect(NetOf(s, w), w, y);
    WorkSends(NetOf(s, w), w, y, path);
    WorkKeepsLinks(e, s, w, y, h);
    assert LinkedAt(e, s, h, net, w) && LinkedAt(e, t, h, net', w);
    hide N.Enabled, N.Next;
    if SameTarget(e, q, p) {
      var i :| 0 <= i < |s.pool.placed| && s.pool.placed[i] == q;
    } else if Touched(net', path) {
      if path !in net'.sent {
        var v :| 0 <= v < |net'.workers| && N.InFlight(net'.workers[v], path);
        assert v != w && N.InFlight(net.workers[v], path);
      }
      assert Touched(net, path);
    }
  }

  lemma {:induction false} WorkKeepsOwn(e: Setting, before: map<N.Path, N.Content>, s: State, w: nat, y: N.Step, p: SyncPair)
    requires PairInv(e, before, s, p) && Enabled(e, s, Work(w, y)) && OwnTarget(e, s.pool.placed, p)
    ensures var t := Next(e, s, Work(w, y)); Linked(e, t, HostOf(p)) && OwnInv(e, t, t.nets[HostOf(p)], p)
  {
    var t, q, net := Next(e, s, Work(w, y)), s.pool.workers[w].pair, s.nets[HostOf(p)];
    HeldWasPlaced(s.pool, w, q);
    assert t.pool == s.pool && HeldOnce(t.pool, p);
    assert N.WorkersInv(net, PathOf(e, p));
    if HostOf(q) == HostOf(p) {
      OwnIsGuarded(e, s, w, y, p);
      N.StepKeepsAlone(net, y, PathOf(e, p));
    }
    assert N.AloneInv(t.nets[HostOf(p)], PathOf(e, p));
    hide Linked, Outcome, N.AloneInv, N.Inv, N.WorkersInv, P.MutexInv, P.WakeInv, P.FifoInv, P.NoDupInv, P.LossInv,
      P.ExitInv, OwnTarget, HeldOnce, Enabled, Next, Touched, Targeted;
    if SameTarget(e, q, p) {
      OwnMeansItself(e, s.pool.placed, p, q);
      OwnWorkerOutcome(e, s, w, y, p);
    } else {
      OtherWorkerOutcome(e, s, w, y, p);
    }
  }

  lemma {:induction false} WorkStep(e: Setting, before: map<N.Path, N.Content>, s: State, w: nat, y: N.Step, p: SyncPair)
    requires PairInv(e, before, s, p) && Enabled(e, s, Work(w, y))
    ensures PairInv(e, before, Next(e, s, Work(w, y)), p)
  {
    var t, net := Next(e, s, Work(w, y)), s.nets[HostOf(p)];
    if HostOf(s.pool.workers[w].pair) == HostOf(p) {
      N.StepKeepsInv(before, net, y, PathOf(e, p));
    }
    assert N.Inv(before, t.nets[HostOf(p)], PathOf(e, p)) && t.pool == s.pool;
    WorkTouches(e, s, w, y, p);
    WorkKeepsLinks(e, s, w, y, HostOf(p));
    if OwnTarget(e, s.pool.placed, p) {
      WorkKeepsOwn(e, before, s, w, y, p);
    }
    hide Linked, OwnInv, N.Inv, P.Inv, OwnTarget, Enabled, Next, Touched, Targeted;
  }

  lemma {:induction false} NoSourceStep(e: Setting, before: map<N.Path, N.Content>, s: State, w: nat, p: SyncPair)
    requires PairInv(e, before, s, p) && Enabled(e, s, NoSource(w))
    ensures PairInv(e, before, Next(e, s, NoSource(w)), p)
  {
    var t, net := Next(e, s, NoSource(w)), s.nets[HostOf(p)];
    hide N.Inv, P.Inv, N.AloneInv, HeldOnce, OwnTarget, Targeted, Touched;
    forall v | 0 <= v < |s.pool.workers| ensures LinkedAt(e, t, HostOf(p), net, v) {
      assert LinkedAt(e, s, HostOf(p), net, v);
    }
    if OwnTarget(e, s.pool.placed, p) && Pending(s, net, p) {
      var v :| 0 <= v < |s.pool.workers| && IsBusyWith(s, net, p, v);
      assert v != w ==> IsBusyWith(t, net, p, v);
    }
  }

  /** A host touches neither the workers nor what was sent. */
  lemma {:induction false} HostEffect(s: N.State, y: N.Step)
    requires ByHost(y) && N.Enabled(s, y)
    ensures N.Next(s, y).workers == s.workers && N.Next(s, y).sent == s.sent
  {
  }

  lemma {:induction false} ServeStep(e: Setting, before: map<N.Path, N.Content>, s: State, h: Host, y: N.Step, p: SyncPair)
    requires PairInv(e, before, s, p) && Enabled(e, s, Serve(h, y))
    ensures PairInv(e, before, Next(e, s, Serve(h, y)), p)
  {
    var t, net := Next(e, s, Serve(h, y)), s.nets[HostOf(p)];
    HostEffect(s.nets[h], y);
    if h == HostOf(p) {
      N.StepKeepsInv(before, net, y, PathOf(e, p));
    }
    var net' := t.nets[HostOf(p)];
    hide N.Inv, P.Inv, HeldOnce, OwnTarget, Targeted, N.Next, N.Enabled;
    forall v | 0 <= v < |s.pool.workers| ensures LinkedAt(e, t, HostOf(p), net', v) {
      assert LinkedAt(e, s, HostOf(p), net, v);
    }
    if OwnTarget(e, s.pool.placed, p) && Pending(s, net, p) {
      var v :| 0 <= v < |s.pool.workers| && IsBusyWith(s, net, p, v);
      assert IsBusyWith(t, net', p, v);
    }
  }

  // ---------- Every run ----------

  predicate Run(e: Setting, s: State, run: seq<Step>)
    decreases |run|
  {
    run == [] || (Enabled(e, s, run[0]) && Run(e, Next(e, s, run[0]), run[1..]))
  }

  function After(e: Setting, s: State, run: seq<Step>): State
    requires Run(e, s, run)
    decreases |run|
  {
    if run == [] then s else After(e, Next(e, s, run[0]), run[1..])
  }

  ghost predicate Init(s: State) {
    && P.Init(s.pool) && s.begun == {} && s.failed == {}
    && forall h :: h in s.nets ==> s.nets[h] == N.Start(s.nets[h].files, s.nets[h].refused, |s.pool.workers|)
  }

  lemma {:induction false} InitInv(e: Setting, s: State, p: SyncPair)
    requires Init(s) && HostOf(p) in s.nets
    ensures PairInv(e, s.nets[HostOf(p)].files, s, p)
  {
    var net := s.nets[HostOf(p)];
    P.InvInit(s.pool);
    N.StartInv(net.files, net.refused, |s.pool.workers|, PathOf(e, p));
    hide P.Inv, N.Inv;
    assert net.sent == map[] && forall w :: 0 <= w < |net.workers| ==> net.workers[w].Free?;
  }

  lemma {:induction false} StepKeepsInv(e: Setting, before: map<N.Path, N.Content>, s: State, x: Step, p: SyncPair)
    requires PairInv(e, before, s, p) && Enabled(e, s, x)
    ensures PairInv(e, before, Next(e, s, x), p)
  {
    hide PairInv, Enabled, Next;
    match x
    case Pool(y) => PoolStep(e, before, s, y, p);
    case NoSource(w) => NoSourceStep(e, before, s, w, p);
    case Work(w, y) => WorkStep(e, before, s, w, y, p);
    case Serve(h, y) => ServeStep(e, before, s, h, y, p);
  }

  lemma {:induction false} RunKeepsInv(e: Setting, before: map<N.Path, N.Content>, s: State, run: seq<Step>, p: SyncPair)
    requires PairInv(e, before, s, p) && Run(e, s, run)
    ensures PairInv(e, before, After(e, s, run), p)
    decreases |run|
  {
    hide PairInv, Enabled, Next;
    if run != [] {
      StepKeepsInv(e, before, s, run[0], p);
      RunKeepsInv(e, before, Next(e, s, run[0]), run[1..], p);
    }
  }

  // ---------- What arrives ----------

  lemma {:induction false} LiveHolds(placed: seq<SyncPair>, gone: set<nat>, i: nat)
    requires i < |placed| && i !in gone
    ensures P.Item(i, placed[i]) in P.Live(placed, gone)
  {
    if i != |placed| - 1 {
      LiveHolds(placed[..|placed| - 1], gone, i);
    }
  }

  /** Once the pool has drained, an own pair that no cancel took has failed or is delivered. */
  lemma {:induction false} DrainedMeansDelivered(e: Setting, s: State, i: nat)
    requires P.Inv(s.pool) && i < |s.pool.placed| && i !in P.Gone(s.pool)
    requires P.AllExited(s.pool.workers) && P.Nameless(s.pool.obtained) < |s.pool.workers|
    requires HostOf(s.pool.placed[i]) in s.nets && |s.nets[HostOf(s.pool.placed[i])].workers| == |s.pool.workers|
    requires s.pool.placed[i].file != "" && s.pool.placed[i] !in s.failed
    requires Outcome(e, s, s.nets[HostOf(s.pool.placed[i])], s.pool.placed[i])
    ensures Delivered(e, s.nets[HostOf(s.pool.placed[i])], s.pool.placed[i])
  {
    var p := s.pool.placed[i];
    P.DrainedExactlyWhen(s.pool);
    LiveHolds(s.pool.placed, P.Gone(s.pool), i);
    var k :| 0 <= k < |s.pool.obtained| && s.pool.obtained[k] == P.Item(i, p);
    hide P.Inv, P.Live, P.Nameless, Delivered;
    assert Obtained(s.pool, p);
  }

  /** A delivered file is there as soon as the host has served its connections. */
  lemma {:induction false} DeliveredIsThere(e: Setting, before: map<N.Path, N.Content>, net: N.State, p: SyncPair)
    requires var path := PathOf(e, p);
             N.Inv(before, net, path) && N.AloneInv(net, path) && Delivered(e, net, p)
             && !N.About(net.conns, path) && path !in net.refused
    ensures var path, data := PathOf(e, p), e.file(p);
            && path in net.files && net.files[path] == N.Data(data)
            && (net.files[path] == data <==> |data| < TWO_31)
  {
    var path := PathOf(e, p);
    N.TruncateIsAbout(net.conns, path);
    N.DrainedFile(before, net, path);
    N.WholeExactlyWhen(net, path);
    hide N.Data, N.Pulled, N.Drain, N.About, N.Pushed;
    N.DataIsPrefix(e.file(p));
  }

  /**
   * From the producer to the targets, over every run of the pool with its transfers to any number of hosts: once all
   * the workers have left, fewer pairs without a name were obtained than there are workers, and the pair's host has
   * served its connections for the path, every pair that was placed and not cancelled, whose target no other pair
   * has, whose transfer came about and whose path can be written, has its target equal to what was pulled of its
   * source, and so to its source exactly below 2 GiB.
   */
  lemma {:induction false} EverythingArrives(e: Setting, s: State, run: seq<Step>, i: nat)
    requires Init(s) && Run(e, s, run)
    requires var t := After(e, s, run);
             && i < |t.pool.placed| && i !in t.pool.cancelled.Keys + t.pool.wiped
             && P.AllExited(t.pool.workers) && P.Nameless(t.pool.obtained) < |t.pool.workers|
    requires var t := After(e, s, run);
             var p := t.pool.placed[i];
             && p.file != "" && p !in t.failed && OwnTarget(e, t.pool.placed, p)
             && HostOf(p) in s.nets && HostOf(p) in t.nets
             && !N.About(t.nets[HostOf(p)].conns, PathOf(e, p)) && PathOf(e, p) !in t.nets[HostOf(p)].refused
    ensures var t := After(e, s, run);
            var p := t.pool.placed[i];
            var files, path := t.nets[HostOf(p)].files, PathOf(e, p);
            && path in files && files[path] == N.Data(e.file(p))
            && (files[path] == e.file(p) <==> |e.file(p)| < TWO_31)
  {
    var t := After(e, s, run);
    var p := t.pool.placed[i];
    var before := s.nets[HostOf(p)].files;
    InitInv(e, s, p);
    RunKeepsInv(e, before, s, run, p);
    assert P.Gone(t.pool) == t.pool.cancelled.Keys + t.pool.wiped;
    hide Run, After, Init, P.Inv, N.Inv, N.AloneInv, OwnTarget, Touched, Targeted, HeldOnce, Outcome, Delivered, P.AllExited,
      P.Nameless, N.About, N.Data, P.Gone;
    DrainedMeansDelivered(e, t, i);
    DeliveredIsThere(e, before, t.nets[HostOf(p)], p);
  }
}
