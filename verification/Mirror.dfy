// One synchronized directory: edits of the source, unread events, queued jobs and the worker's effect on the
// target (worker.c, with file_copy of util.c), interleaved in every way.
module Mirror {
  import opened Jobs

  type Files = map<string, string>

  datatype Change = Change(op: Op, file: string)

  /** How far the directory's worker is; `torn` says that its source file changed since it was opened. */
  datatype Work =
    | NoWork
    | Todo(change: Change)
    | Copying(file: string, torn: bool)
    | Listing(must: set<string>)                                 // readdir still has to deliver these
    | ListCopying(must: set<string>, file: string, torn: bool)
    | Finished

  datatype State = State(src: Files, tar: Files, kernel: seq<Change>, queue: seq<Change>, work: Work)

  const ALL := Change(Full, "ALL")

  datatype Move =
    | Create(file: string, data: string, merge: bool)
    | Modify(file: string, data: string, merge: bool)
    | Delete(file: string, merge: bool)
    | Fetch                                // an event becomes a job
    | Begin                                // the first job goes to a worker
    | Act(junk: string)                    // the worker opens the files, unlinks the target or lists the source
    | Scribble(junk: string)               // a copy has written some bytes
    | Close(junk: string)                  // a copy is over
    | Pick(file: string, junk: string)     // readdir delivers a name
    | ListEnd
    | Report                               // the manager reads the worker's report
    | FullSync                             // the console asks for a full copy

  predicate IsEdit(x: Move) {
    x.Create? || x.Modify? || x.Delete?
  }

  function ChangeOf(x: Move): Change
    requires IsEdit(x)
  {
    Change(match x case Create(_, _, _) => Added case Modify(_, _, _) => Modified case _ => Deleted, x.file)
  }

  /** inotify drops an event that equals the last unread one of its queue. */
  predicate CanMerge(kernel: seq<Change>, c: Change) {
    kernel != [] && kernel[|kernel| - 1] == c
  }

  predicate Copies(work: Work, file: string) {
    (work.Copying? || work.ListCopying?) && work.file == file
  }

  /** A name that is deleted while the source is listed need not be delivered any more. */
  function Disturb(work: Work, x: Move): Work
    requires IsEdit(x)
  {
    var w := if Copies(work, x.file) then work.(torn := true) else work;
    if x.Delete? && (w.Listing? || w.ListCopying?) then w.(must := w.must - {x.file}) else w
  }

  predicate Enabled(m: State, x: Move) {
    match x
    case Create(file, _, merge) => file !in m.src && (merge ==> CanMerge(m.kernel, ChangeOf(x)))
    case Modify(file, _, merge) => file in m.src && (merge ==> CanMerge(m.kernel, ChangeOf(x)))
    case Delete(file, merge) => file in m.src && (merge ==> CanMerge(m.kernel, ChangeOf(x)))
    case Fetch => m.kernel != []
    case Begin => m.work.NoWork? && m.queue != []
    case Act(_) => m.work.Todo?
    case Scribble(_) => m.work.Copying? || m.work.ListCopying?
    case Close(_) => (m.work.Copying? || m.work.ListCopying?) && (!m.work.torn ==> m.work.file in m.src)
    case Pick(_, _) => m.work.Listing?
    case ListEnd => m.work.Listing? && m.work.must == {}
    case Report => m.work.Finished?
    case FullSync => true
  }

  function Edit(m: State, x: Move): State
    requires IsEdit(x)
  {
    m.(src := if x.Delete? then m.src - {x.file} else m.src[x.file := x.data],
       kernel := if x.merge then m.kernel else m.kernel + [ChangeOf(x)],
       work := Disturb(m.work, x))
  }

  /** The worker's first access: a copy of a missing file and the removal of one do nothing. */
  function Access(m: State, junk: string): State
    requires m.work.Todo?
  {
    var c := m.work.change;
    match c.op
    case Full => m.(work := Listing(m.src.Keys))
    case Deleted => m.(tar := m.tar - {c.file}, work := Finished)
    case _ =>
      if c.file in m.src then m.(tar := m.tar[c.file := junk], work := Copying(c.file, false))
      else m.(work := Finished)
  }

  /** A copy whose source did not change delivers it; another one may leave anything. */
  function EndCopy(m: State, junk: string): State
    requires Enabled(m, Close(junk))
  {
    m.(tar := m.tar[m.work.file := if m.work.torn then junk else m.src[m.work.file]],
       work := if m.work.Copying? then Finished else Listing(m.work.must))
  }

  function Next(m: State, x: Move): State
    requires Enabled(m, x)
  {
    match x
    case Fetch => m.(kernel := m.kernel[1..], queue := m.queue + [m.kernel[0]])
    case Begin => m.(queue := m.queue[1..], work := Todo(m.queue[0]))
    case Act(junk) => Access(m, junk)
    case Scribble(junk) => m.(tar := m.tar[m.work.file := junk])
    case Close(junk) => EndCopy(m, junk)
    case Pick(file, junk) =>
      if file in m.src then m.(tar := m.tar[file := junk], work := ListCopying(m.work.must - {file}, file, false))
      else m.(work := Listing(m.work.must - {file}))
    case ListEnd => m.(work := Finished)
    case Report => m.(work := NoWork)
    case FullSync => m.(queue := m.queue + [ALL])
    case _ => Edit(m, x)
  }

  // ---------- What holds for every file ----------

  /** The last change of the file that waits in q; Full if there is none. */
  function Last(q: seq<Change>, file: string): Op {
    if q == [] then Full
    else
      var c := q[|q| - 1];
      if c.file == file && c.op != Full then c.op else Last(q[..|q| - 1], file)
  }

  predicate Settled(m: State, file: string) {
    if file in m.src then file in m.tar && m.tar[file] == m.src[file] else file !in m.tar
  }

  predicate Matches(m: State, op: Op, file: string) {
    op == Deleted <==> file !in m.src
  }

  /** A full copy is to come that will deliver the file. */
  predicate FullPending(m: State, file: string) {
    || Change(Full, "ALL") in m.queue
    || m.work == Todo(ALL)
    || ((m.work.Listing? || m.work.ListCopying?) && file in m.work.must)
  }

  predicate FileJob(work: Work, file: string) {
    work.Todo? && work.change.op != Full && work.change.file == file
  }

  /** What the worker is about to do to the file leaves it right, or a full copy behind it will. */
  predicate JobInv(m: State, file: string)
    requires FileJob(m.work, file)
  {
    || Matches(m, m.work.change.op, file)
    || (file in m.src && ALL in m.queue)
    || (m.work.change.op != Deleted && file !in m.src && file !in m.tar)
  }

  /** The last word on the file is right: in the queues, at the worker, or in the target already. */
  predicate FileInv(m: State, file: string) {
    var op := Last(m.queue + m.kernel, file);
    if op != Full then Matches(m, op, file)
    else if FileJob(m.work, file) then JobInv(m, file)
    else if Copies(m.work, file) then file in m.src && (!m.work.torn || ALL in m.queue)
    else Settled(m, file) || (file in m.src && FullPending(m, file))
  }

  predicate Removes(work: Work, file: string) {
    work == Todo(Change(Deleted, file))
  }

  /** A name that only the target has, or will have, and that nothing has touched. */
  predicate StaleInv(m: State, file: string) {
    && file !in m.src && Last(m.queue + m.kernel, file) == Full
    && (Copies(m.work, file) || (file in m.tar && !Removes(m.work, file)))
  }

  ghost predicate FullsAreWhole(q: seq<Change>) {
    forall c :: c in q && c.op == Full ==> c == ALL
  }

  ghost predicate Inv(m: State, stale: set<string>) {
    && FullsAreWhole(m.queue + m.kernel)
    && (m.work.Todo? && m.work.change.op == Full ==> m.work.change == ALL)
    && (forall c :: c in m.kernel ==> c.op != Full)
    && (forall file :: if file in stale then StaleInv(m, file) else FileInv(m, file))
  }

  // ---------- One file, one move ----------

  lemma {:induction false} LastAppend(q: seq<Change>, c: Change, file: string)
    ensures Last(q + [c], file) == if c.file == file && c.op != Full then c.op else Last(q, file)
  {
    assert (q + [c])[..|q|] == q;
  }

  lemma {:induction false} LastHead(q: seq<Change>, file: string)
    requires q != []
    ensures Last(q, file) == if Last(q[1..], file) != Full then Last(q[1..], file) else Last([q[0]], file)
  {
    if |q| > 1 {
      var init := q[..|q| - 1];
      LastHead(init, file);
      assert init[1..] == q[1..][..|q[1..]| - 1];
    } else {
      assert q[1..] == [];
      assert q == [q[0]];
    }
  }

  /** An edit of the file itself puts the last word into the queues; one of another file does not matter. */
  lemma {:induction false} EditStep(m: State, x: Move, file: string)
    requires Enabled(m, x) && IsEdit(x)
    ensures file == x.file ==> FileInv(Next(m, x), file)
    ensures file != x.file && FileInv(m, file) ==> FileInv(Next(m, x), file)
    ensures file != x.file && StaleInv(m, file) ==> StaleInv(Next(m, x), file)
  {
    var t, c := Next(m, x), ChangeOf(x);
    LastAppend(m.queue + m.kernel, c, file);
    assert m.queue + (m.kernel + [c]) == (m.queue + m.kernel) + [c];
    if x.merge {
      var q := m.queue + m.kernel;
      assert q[|q| - 1] == c;
    }
  }

  lemma {:induction false} FetchStep(m: State, file: string)
    requires m.kernel != [] && m.kernel[0].op != Full
    ensures FileInv(m, file) ==> FileInv(Next(m, Fetch), file)
    ensures StaleInv(m, file) ==> StaleInv(Next(m, Fetch), file)
  {
    assert m.queue + [m.kernel[0]] + m.kernel[1..] == m.queue + m.kernel;
    assert ALL in m.queue ==> ALL in m.queue + [m.kernel[0]];
  }

  lemma {:induction false} BeginStep(m: State, file: string)
    requires Enabled(m, Begin) && (m.queue[0].op == Full ==> m.queue[0] == ALL)
    ensures FileInv(m, file) ==> FileInv(Next(m, Begin), file)
    ensures StaleInv(m, file) ==> StaleInv(Next(m, Begin), file)
  {
    var q := m.queue + m.kernel;
    LastHead(q, file);
    assert q[1..] == m.queue[1..] + m.kernel && q[0] == m.queue[0];
    assert [q[0]][..0] == [];
    assert m.queue == [m.queue[0]] + m.queue[1..];
  }

  lemma {:induction false} FullSyncStep(m: State, file: string)
    requires FullsAreWhole(m.queue + m.kernel)
    ensures FileInv(m, file) ==> FileInv(Next(m, FullSync), file)
    ensures StaleInv(m, file) ==> StaleInv(Next(m, FullSync), file)
  {
    FullInside(m.queue, m.kernel, file);
    assert ALL in m.queue ==> ALL in m.queue + [ALL];
  }

  /** A full job between the queued changes and the events is not a word on any one file. */
  lemma {:induction false} FullInside(q: seq<Change>, k: seq<Change>, file: string)
    ensures Last(q + [ALL] + k, file) == Last(q + k, file)
  {
    if k == [] {
      LastAppend(q, ALL, file);
      assert q + [ALL] + [] == q + [ALL] && q + [] == q;
    } else {
      var init, c := k[..|k| - 1], k[|k| - 1];
      FullInside(q, init, file);
      assert q + [ALL] + k == (q + [ALL] + init) + [c] && q + k == (q + init) + [c];
      LastAppend(q + [ALL] + init, c, file);
      LastAppend(q + init, c, file);
    }
  }

  /** The moves of the worker alone. */
  lemma {:induction false} WorkStep(m: State, x: Move, file: string)
    requires Enabled(m, x) && (x.Act? || x.Scribble? || x.Close? || x.Pick? || x.ListEnd? || x.Report?)
    requires m.work.Todo? && m.work.change.op == Full ==> m.work.change == ALL
    ensures FileInv(m, file) ==> FileInv(Next(m, x), file)
    ensures StaleInv(m, file) ==> StaleInv(Next(m, x), file)
  {
    hide Last;
  }

  /** Every move keeps what holds for every file; an edit of a stale name ends its being stale. */
  lemma {:induction false} MoveKeepsInv(m: State, x: Move, stale: set<string>)
    requires Inv(m, stale) && Enabled(m, x)
    ensures Inv(Next(m, x), if IsEdit(x) then stale - {x.file} else stale)
  {
    var t, left := Next(m, x), if IsEdit(x) then stale - {x.file} else stale;
    forall file ensures if file in left then StaleInv(t, file) else FileInv(t, file) {
      assert if file in stale then StaleInv(m, file) else FileInv(m, file);
      FileStep(m, x, file);
    }
    hide StaleInv, FileInv, Access, EndCopy, Edit;
    OpsStep(m, x);
  }

  lemma {:induction false} FileStep(m: State, x: Move, file: string)
    requires Enabled(m, x) && FullsAreWhole(m.queue + m.kernel)
    requires m.work.Todo? && m.work.change.op == Full ==> m.work.change == ALL
    requires forall c :: c in m.kernel ==> c.op != Full
    ensures IsEdit(x) && file == x.file ==> FileInv(Next(m, x), file)
    ensures !(IsEdit(x) && file == x.file) && FileInv(m, file) ==> FileInv(Next(m, x), file)
    ensures !(IsEdit(x) && file == x.file) && StaleInv(m, file) ==> StaleInv(Next(m, x), file)
  {
    hide FileInv, StaleInv, Next;
    if IsEdit(x) {
      EditStep(m, x, file);
    } else {
      match x {
        case Fetch => FetchStep(m, file);
        case Begin => assert m.queue[0] in m.queue + m.kernel; BeginStep(m, file);
        case FullSync => FullSyncStep(m, file);
        case _ => WorkStep(m, x, file);
      }
    }
  }

  lemma {:induction false} OpsStep(m: State, x: Move)
    requires Enabled(m, x) && FullsAreWhole(m.queue + m.kernel)
    requires m.work.Todo? && m.work.change.op == Full ==> m.work.change == ALL
    requires forall c :: c in m.kernel ==> c.op != Full
    ensures FullsAreWhole(Next(m, x).queue + Next(m, x).kernel)
    ensures var t := Next(m, x); t.work.Todo? && t.work.change.op == Full ==> t.work.change == ALL
    ensures forall c :: c in Next(m, x).kernel ==> c.op != Full
  {
    var t := Next(m, x);
    forall c | c in t.queue + t.kernel && c.op == Full ensures c == ALL {
      if c in m.queue || c in m.kernel {
        assert c in m.queue + m.kernel;
      }
    }
    if x.Begin? {
      assert m.queue[0] in m.queue + m.kernel;
    }
  }

  // ---------- Every run ----------

  ghost predicate Run(m: State, run: seq<Move>)
    decreases |run|
  {
    run == [] || (Enabled(m, run[0]) && Run(Next(m, run[0]), run[1..]))
  }

  ghost function After(m: State, run: seq<Move>): State
    requires Run(m, run)
    decreases |run|
  {
    if run == [] then m else After(Next(m, run[0]), run[1..])
  }

  lemma {:induction false} RunConcat(m: State, a: seq<Move>, b: seq<Move>)
    requires Run(m, a) && Run(After(m, a), b)
    ensures Run(m, a + b) && After(m, a + b) == After(After(m, a), b)
    decreases |a|
  {
    hide Enabled, Next;
    if a == [] {
      assert a + b == b;
    } else {
      assert (a + b)[1..] == a[1..] + b;
      RunConcat(Next(m, a[0]), a[1..], b);
    }
  }

  ghost predicate Touched(run: seq<Move>, file: string) {
    exists i :: 0 <= i < |run| && IsEdit(run[i]) && run[i].file == file
  }

  /** The names a run has edited. */
  ghost function Edited(run: seq<Move>): (r: set<string>)
    ensures forall file :: file in r <==> Touched(run, file)
  {
    if run == [] then {}
    else
      var rest := Edited(run[1..]);
      assert forall file :: Touched(run, file) <==> Touched(run[1..], file) || (IsEdit(run[0]) && run[0].file == file);
      rest + if IsEdit(run[0]) then {run[0].file} else {}
  }

  lemma {:induction false} RunKeepsInv(m: State, run: seq<Move>, stale: set<string>)
    requires Inv(m, stale) && Run(m, run)
    ensures Inv(After(m, run), stale - Edited(run))
    decreases |run|
  {
    if run == [] {
      assert stale - Edited(run) == stale;
    } else {
      hide Inv, Enabled, Next, IsEdit;
      var x := run[0];
      MoveKeepsInv(m, x, stale);
      var left := if IsEdit(x) then stale - {x.file} else stale;
      RunKeepsInv(Next(m, x), run[1..], left);
      assert stale - Edited(run) == left - Edited(run[1..]);
    }
  }

  /**
   * Right behind `add`: the watch is in place and one full copy is queued. A worker that was started before a
   * cancel of the directory may still be at work.
   */
  predicate JustAdded(m: State) {
    && m.kernel == [] && m.queue == [ALL]
    && (m.work.Todo? && m.work.change.op == Full ==> m.work.change == ALL)
    && (m.work.Copying? || m.work.ListCopying? ==> m.work.torn || m.work.file in m.src)
  }

  /** No event is unread, no job is queued, and no worker runs. */
  predicate Quiet(m: State) {
    m.kernel == [] && m.queue == [] && m.work == NoWork
  }

  /** The names that only the target has, or that an old worker is about to leave there. */
  function Extra(m: State): set<string> {
    var names := m.tar.Keys + if m.work.Copying? || m.work.ListCopying? then {m.work.file} else {};
    set file | file in names && file !in m.src && !Removes(m.work, file)
  }

  lemma {:induction false} ExtraWithoutWorker(m: State)
    requires m.work == NoWork
    ensures Extra(m) == m.tar.Keys - m.src.Keys
  {
  }

  lemma {:induction false} InvAfterAdd(m: State)
    requires JustAdded(m)
    ensures Inv(m, Extra(m))
  {
    var q := m.queue + m.kernel;
    assert q == [ALL] && q[..0] == [] && ALL in m.queue;
    forall file ensures if file in Extra(m) then StaleInv(m, file) else FileInv(m, file) {
      assert Last(q, file) == Full;
    }
  }

  lemma {:induction false} QuietMeansSettled(m: State, stale: set<string>)
    requires Inv(m, stale) && Quiet(m)
    ensures m.tar == m.src <==> stale == {}
  {
    assert m.queue + m.kernel == [];
    if stale == {} {
      forall file ensures (file in m.tar <==> file in m.src) && (file in m.src ==> m.tar[file] == m.src[file]) {
        assert FileInv(m, file);
      }
    } else {
      var file :| file in stale;
      assert StaleInv(m, file);
    }
  }

  /**
   * Convergence: whatever the interleaving since `add`, once nothing is pending the target is the source, exactly
   * when every name that only the target had, or got from an old worker, has been edited in the source since. A
   * full copy deletes nothing.
   */
  lemma {:induction false} ConvergesExactlyWhen(m: State, run: seq<Move>)
    requires JustAdded(m) && Run(m, run) && Quiet(After(m, run))
    ensures After(m, run).tar == After(m, run).src <==> Extra(m) <= Edited(run)
  {
    hide Inv, JustAdded, Quiet;
    InvAfterAdd(m);
    RunKeepsInv(m, run, Extra(m));
    QuietMeansSettled(After(m, run), Extra(m) - Edited(run));
  }
}
