// How a pool of any size is lost to pairs without a name: runs of WorkerPool.
module NamelessPairs {
  import opened SyncPairs
  import opened WorkerPool

  // ---------- Runs by their steps ----------

  predicate Does(s: State, steps: seq<Step>)
    decreases |steps|
  {
    steps == [] || (Enabled(s, steps[0]) && Does(Apply(s, steps[0]), steps[1..]))
  }

  function End(s: State, steps: seq<Step>): State
    requires Does(s, steps)
    decreases |steps|
  {
    if steps == [] then s else End(Apply(s, steps[0]), steps[1..])
  }

  function Trace(s: State, steps: seq<Step>): (tr: seq<State>)
    requires Does(s, steps)
    ensures |tr| == |steps| + 1 && tr[0] == s
    decreases |steps|
  {
    if steps == [] then [s] else [s] + Trace(Apply(s, steps[0]), steps[1..])
  }

  lemma {:induction false} TraceSteps(s: State, steps: seq<Step>, i: nat)
    requires Does(s, steps) && i < |steps|
    ensures Next(Trace(s, steps)[i], Trace(s, steps)[i + 1])
    decreases |steps|
  {
    if i != 0 {
      TraceSteps(Apply(s, steps[0]), steps[1..], i - 1);
    }
  }

  lemma {:induction false} TraceEnds(s: State, steps: seq<Step>)
    requires Does(s, steps)
    ensures Trace(s, steps)[|steps|] == End(s, steps)
    decreases |steps|
  {
    hide Enabled, Apply;
    if steps != [] {
      TraceEnds(Apply(s, steps[0]), steps[1..]);
    }
  }

  lemma {:induction false} TraceIsRun(s: State, steps: seq<Step>)
    requires Init(s) && Does(s, steps)
    ensures Run(Trace(s, steps)) && Trace(s, steps)[|steps|] == End(s, steps)
  {
    TraceEnds(s, steps);
    forall i | 0 <= i < |steps| ensures Next(Trace(s, steps)[i], Trace(s, steps)[i + 1]) {
      TraceSteps(s, steps, i);
    }
  }

  lemma {:induction false} Joined(s: State, a: seq<Step>, b: seq<Step>)
    requires Does(s, a) && Does(End(s, a), b)
    ensures Does(s, a + b) && End(s, a + b) == End(End(s, a), b)
    decreases |a|
  {
    hide Enabled, Apply;
    if a == [] {
      assert a + b == b;
    } else {
      assert (a + b)[1..] == a[1..] + b;
      Joined(Apply(s, a[0]), a[1..], b);
    }
  }

  lemma {:induction false} ThreeSteps(s: State, x: Step, y: Step, z: Step)
    requires Enabled(s, x) && Enabled(Apply(s, x), y) && Enabled(Apply(Apply(s, x), y), z)
    ensures Does(s, [x, y, z]) && End(s, [x, y, z]) == Apply(Apply(Apply(s, x), y), z)
  {
    var t := Apply(Apply(s, x), y);
    hide Enabled, Apply;
    assert [x, y, z][1..] == [y, z] && [y, z][1..] == [z] && [z][1..] == [];
    assert Does(Apply(t, z), []);
    assert Does(t, [z]) && End(t, [z]) == Apply(t, z);
    assert Does(Apply(s, x), [y, z]) && End(Apply(s, x), [y, z]) == Apply(t, z);
  }

  // ---------- One command, one worker ----------

  /** The main thread rests, nobody holds the mutex, and every worker is about to ask or has left. */
  ghost predicate Calm(s: State) {
    && s.main == Idle && s.owner == Nobody && !s.quit
    && forall w :: 0 <= w < |s.workers| ==> s.workers[w] == Asking || s.workers[w].Exited?
  }

  /** No waiting pair has the same source. */
  ghost predicate Fresh(s: State, pair: SyncPair) {
    forall x :: x in s.ring ==> !SameSource(pair, x.pair)
  }

  function Checks(pair: SyncPair): seq<Step> {
    [Start(Offer(pair)), MainLock, MainRun]
  }

  const PLACES := [MainLock, MainRun, SignalNobody]
  const SLEEPS := [MainLock, MainRun]

  lemma {:induction false} CheckSteps(s: State, pair: SyncPair)
    requires Calm(s) && Fresh(s, pair)
    ensures Does(s, Checks(pair)) && End(s, Checks(pair)) == s.(main := Placing(pair))
  {
    var s1, s2 := s.(main := Checking(pair)), s.(main := CheckLocked(pair), owner := MainThread);
    assert Apply(s, Start(Offer(pair))) == s1;
    assert Apply(s1, MainLock) == s2;
    assert Apply(s2, MainRun) == s.(main := Placing(pair));
    ThreeSteps(s, Start(Offer(pair)), MainLock, MainRun);
  }

  /** The state with one pair more in the ring. */
  function Placed(s: State, pair: SyncPair): State {
    s.(ring := s.ring + [Item(|s.placed|, pair)], placed := s.placed + [pair])
  }

  lemma {:induction false} PlaceSteps(s: State, pair: SyncPair)
    requires Calm(s) && |s.ring| < s.size
    ensures var t := s.(main := Placing(pair)); Does(t, PLACES) && End(t, PLACES) == Placed(s, pair)
    ensures Calm(Placed(s, pair))
  {
    var t := s.(main := Placing(pair));
    var t1, t2 := s.(main := PlaceLocked(pair), owner := MainThread), Placed(s, pair).(main := MustSignal);
    assert Apply(t, MainLock) == t1;
    assert Apply(t1, MainRun) == t2;
    assert !SomeSleeps(t2.workers) && Apply(t2, SignalNobody) == Placed(s, pair);
    ThreeSteps(t, MainLock, MainRun, SignalNobody);
  }

  lemma {:induction false} OfferSteps(s: State, pair: SyncPair)
    requires Calm(s) && Fresh(s, pair) && |s.ring| < s.size
    ensures Does(s, Checks(pair) + PLACES) && End(s, Checks(pair) + PLACES) == Placed(s, pair) && Calm(Placed(s, pair))
  {
    hide Does, End;
    CheckSteps(s, pair);
    PlaceSteps(s, pair);
    Joined(s, Checks(pair), PLACES);
  }

  lemma {:induction false} TwoSteps(s: State, x: Step, y: Step)
    requires Enabled(s, x) && Enabled(Apply(s, x), y)
    ensures Does(s, [x, y]) && End(s, [x, y]) == Apply(Apply(s, x), y)
  {
    hide Enabled, Apply;
    assert [x, y][1..] == [y] && [y][1..] == [];
    assert Does(Apply(Apply(s, x), y), []);
    assert Does(Apply(s, x), [y]) && End(Apply(s, x), [y]) == Apply(Apply(s, x), y);
  }

  lemma {:induction false} SleepSteps(s: State, pair: SyncPair)
    requires Calm(s) && Fresh(s, pair) && |s.ring| >= s.size
    ensures Does(s, Checks(pair) + SLEEPS) && End(s, Checks(pair) + SLEEPS) == s.(main := PlaceSleeping(pair))
  {
    CheckSteps(s, pair);
    var t := s.(main := Placing(pair));
    var t1 := s.(main := PlaceLocked(pair), owner := MainThread);
    assert Apply(t, MainLock) == t1;
    assert Apply(t1, MainRun) == s.(main := PlaceSleeping(pair));
    TwoSteps(t, MainLock, MainRun);
    hide Does, End;
    Joined(s, Checks(pair), SLEEPS);
  }

  function Leaves(w: nat): seq<Step> {
    [WorkerLock(w), WorkerRun(w), WorkerSignal(w)]
  }

  /** A worker takes a pair without a name, and is gone. */
  function Gone(s: State, w: nat, pair: SyncPair): State
    requires w < |s.workers|
  {
    var item := Item(|s.placed|, pair);
    s.(placed := s.placed + [pair], obtained := s.obtained + [item], workers := s.workers[w := Exited(false)])
  }

  lemma {:induction false} LeaveSteps(s: State, w: nat, pair: SyncPair)
    requires Calm(s) && s.ring == [] && w < |s.workers| && s.workers[w] == Asking && pair.file == ""
    ensures Does(Placed(s, pair), Leaves(w)) && End(Placed(s, pair), Leaves(w)) == Gone(s, w, pair)
    ensures Calm(Gone(s, w, pair))
  {
    var t := Placed(s, pair);
    var t1 := t.(owner := WorkerThread(w), workers := t.workers[w := Locked]);
    var item := Item(|s.placed|, pair);
    var t2 := Gone(s, w, pair).(workers := s.workers[w := Signalling(pair)]);
    assert t.ring == [item] && t.ring[1..] == [];
    assert Apply(t, WorkerLock(w)) == t1;
    assert s.workers[w := Locked][w := Signalling(pair)] == s.workers[w := Signalling(pair)];
    assert Apply(t1, WorkerRun(w)) == t2;
    assert s.workers[w := Signalling(pair)][w := Exited(false)] == s.workers[w := Exited(false)];
    assert Apply(t2, WorkerSignal(w)) == Gone(s, w, pair);
    ThreeSteps(t, WorkerLock(w), WorkerRun(w), WorkerSignal(w));
  }

  lemma {:induction false} OneLeaves(s: State, w: nat, pair: SyncPair) returns (steps: seq<Step>)
    requires Calm(s) && s.ring == [] && 0 < s.size && w < |s.workers| && s.workers[w] == Asking && pair.file == ""
    ensures Does(s, steps) && End(s, steps) == Gone(s, w, pair) && Calm(Gone(s, w, pair))
  {
    steps := (Checks(pair) + PLACES) + Leaves(w);
    OfferSteps(s, pair);
    LeaveSteps(s, w, pair);
    hide Does, End, Calm;
    Joined(s, Checks(pair) + PLACES, Leaves(w));
  }

  /** One pair without a name after the other, until all the workers from w on are gone. */
  lemma {:induction false} AllLeave(s: State, w: nat, pair: SyncPair) returns (steps: seq<Step>)
    requires Calm(s) && s.ring == [] && 0 < s.size && w <= |s.workers| && pair.file == ""
    requires (forall v :: 0 <= v < w ==> s.workers[v].Exited?)
    requires (forall v :: w <= v < |s.workers| ==> s.workers[v] == Asking)
    ensures Does(s, steps)
    ensures var t := End(s, steps); Calm(t) && t.ring == [] && t.size == s.size && AllExited(t.workers)
    decreases |s.workers| - w
  {
    steps := [];
    if w != |s.workers| {
      var first := OneLeaves(s, w, pair);
      var rest := AllLeave(Gone(s, w, pair), w + 1, pair);
      steps := first + rest;
      hide Does, End, Calm;
      Joined(s, first, rest);
    }
  }

  ghost predicate AllFresh(s: State, pairs: seq<SyncPair>) {
    && (forall i :: 0 <= i < |pairs| ==> Fresh(s, pairs[i]))
    && (forall i, j :: 0 <= i < j < |pairs| ==> !SameSource(pairs[j], pairs[i]))
  }

  lemma {:induction false} StillFresh(s: State, pairs: seq<SyncPair>)
    requires pairs != [] && AllFresh(s, pairs)
    ensures AllFresh(Placed(s, pairs[0]), pairs[1..])
  {
    var t := Placed(s, pairs[0]);
    forall i | 0 <= i < |pairs[1..]| ensures Fresh(t, pairs[1..][i]) {
      assert pairs[1..][i] == pairs[i + 1];
      assert Fresh(s, pairs[i + 1]) && !SameSource(pairs[i + 1], pairs[0]);
    }
  }

  /** The ring fills up, and the pair behind the last that fits makes the main thread sleep. */
  lemma {:induction false} RingFills(s: State, pairs: seq<SyncPair>) returns (steps: seq<Step>)
    requires Calm(s) && AllFresh(s, pairs) && |s.ring| + |pairs| == s.size + 1 && |s.ring| <= s.size
    ensures Does(s, steps)
    ensures var t := End(s, steps);
            t.main == PlaceSleeping(pairs[|pairs| - 1]) && |t.ring| == t.size && t.workers == s.workers
    decreases |pairs|
  {
    assert Fresh(s, pairs[0]);
    if |pairs| == 1 {
      SleepSteps(s, pairs[0]);
      steps := Checks(pairs[0]) + SLEEPS;
    } else {
      OfferSteps(s, pairs[0]);
      StillFresh(s, pairs);
      hide AllFresh, Calm, Fresh;
      var first := Checks(pairs[0]) + PLACES;
      var rest := RingFills(Placed(s, pairs[0]), pairs[1..]);
      steps := first + rest;
      hide Does, End;
      Joined(s, first, rest);
    }
  }

  /**
   * Whatever the sizes of pool and ring: as many pairs without a name as there are workers, and then one pair more
   * than the ring holds, lead to a state in which the producer sleeps for ever.
   */
  lemma {:induction false} EveryPoolCanBeAbandoned(s: State, nameless: SyncPair, pairs: seq<SyncPair>)
    returns (tr: seq<State>)
    requires Init(s) && nameless.file == "" && |pairs| == s.size + 1
    requires forall i, j :: 0 <= i < j < |pairs| ==> !SameSource(pairs[j], pairs[i])
    ensures Run(tr) && tr[0] == s && Abandoned(tr[|tr| - 1])
  {
    var a := AllLeave(s, 0, nameless);
    var t := End(s, a);
    assert AllFresh(t, pairs);
    var b := RingFills(t, pairs);
    Joined(s, a, b);
    TraceIsRun(s, a + b);
    tr := Trace(s, a + b);
  }
}
