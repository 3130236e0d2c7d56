// The child process (worker.c) with the source at rest: its loop over the source directory, what it leaves in the
// target, its report; and that this is one way through Mirror.
module Worker {
  import opened Jobs
  import Mirror

  type Files = Mirror.Files

  /** The report's status line. */
  datatype Status = Success | Error | Partial

  /** Copies of the listed names, where the source has them. */
  function Copied(tar: Files, src: Files, names: seq<string>): Files {
    if names == [] then tar
    else
      var name := names[|names| - 1];
      var before := Copied(tar, src, names[..|names| - 1]);
      if name in src then before[name := src[name]] else before
  }

  predicate Listed(names: seq<string>, name: string) {
    exists i :: 0 <= i < |names| && names[i] == name
  }

  /**
   * Whether file_copy says Success: the source has the file, and what `nwrite` happened to hold is no error code
   * where the file is empty, since no write sets it then.
   */
  predicate SaysSuccess(src: Files, name: string, nwrite: int) {
    name in src && (src[name] != "" || nwrite >= 0)
  }

  /** How many of the copies say Success; junk(i) is what `nwrite` holds at first in the copy of the i-th name. */
  function Successes(src: Files, names: seq<string>, junk: nat -> int): (n: nat)
    ensures n <= |names|
  {
    if names == [] then 0
    else
      Successes(src, names[..|names| - 1], junk)
      + if SaysSuccess(src, names[|names| - 1], junk(|names| - 1)) then 1 else 0
  }

  /** Each listed file of the source is in the target; no other name is touched. */
  lemma {:induction false} CopiedIs(tar: Files, src: Files, names: seq<string>, name: string)
    ensures var r := Copied(tar, src, names);
            if Listed(names, name) && name in src then name in r && r[name] == src[name]
            else (name in r <==> name in tar) && (name in tar ==> r[name] == tar[name])
  {
    if names != [] {
      var init, last := names[..|names| - 1], names[|names| - 1];
      CopiedIs(tar, src, init, name);
      assert Listed(names, name) <==> Listed(init, name) || name == last by {
        assert names == init + [last];
        assert forall i :: 0 <= i < |init| ==> init[i] == names[i];
      }
    }
  }

  /** What readdir delivers of a directory at rest, without "." and "..": every file. */
  ghost predicate ListingOf(names: seq<string>, src: Files) {
    forall name :: Listed(names, name) <==> name in src
  }

  /** A full copy makes the target the source exactly when the target had no other names: it deletes nothing. */
  lemma {:induction false} FullMirrorsExactlyWhen(tar: Files, src: Files, names: seq<string>)
    requires ListingOf(names, src)
    ensures Copied(tar, src, names) == src <==> tar.Keys <= src.Keys
  {
    var r := Copied(tar, src, names);
    forall name ensures if name in src then name in r && r[name] == src[name] else (name in r <==> name in tar) {
      CopiedIs(tar, src, names, name);
    }
    if tar.Keys <= src.Keys {
      assert r.Keys == src.Keys;
    } else {
      var name :| name in tar && name !in src;
      assert name in r;
    }
  }

  lemma {:induction false} AllOrNone(src: Files, names: seq<string>, junk: nat -> int)
    ensures Successes(src, names, junk) == |names|
       <==> forall i :: 0 <= i < |names| ==> SaysSuccess(src, names[i], junk(i))
    ensures Successes(src, names, junk) == 0
       <==> forall i :: 0 <= i < |names| ==> !SaysSuccess(src, names[i], junk(i))
  {
    if names != [] {
      var init := names[..|names| - 1];
      AllOrNone(src, init, junk);
      assert forall i :: 0 <= i < |init| ==> init[i] == names[i];
      hide SaysSuccess;
    }
  }

  /** The report of a full copy of a directory at rest: only what `nwrite` held for an empty file can spoil it. */
  lemma {:induction false} EmptyFilesDecideTheReport(src: Files, names: seq<string>, junk: nat -> int)
    requires ListingOf(names, src)
    ensures Successes(src, names, junk) == |names|
       <==> forall i :: 0 <= i < |names| && names[i] in src && src[names[i]] == "" ==> junk(i) >= 0
  {
    AllOrNone(src, names, junk);
    forall i | 0 <= i < |names| ensures names[i] in src {
      assert Listed(names, names[i]);
    }
  }

  class Target {
    var files: Files

    constructor (files: Files)
      ensures this.files == files
    {
      this.files := files;
    }

    /** file_copy of one name; `nwrite` is what its uninitialised variable holds. */
    method Copy(src: Files, name: string, nwrite: int) returns (ok: bool)
      modifies this
      ensures ok <==> SaysSuccess(src, name, nwrite)
      ensures files == if name in src then old(files)[name := src[name]] else old(files)
    {
      if name !in src {
        return false;
      }
      var wrote := if src[name] == "" then nwrite else 0;
      files := files[name := src[name]];
      ok := wrote >= 0;
    }

    /** FULL: a copy of every name that readdir delivers. */
    method CopyAll(src: Files, names: seq<string>, junk: nat -> int) returns (processed: nat, failed: nat)
      modifies this
      ensures files == Copied(old(files), src, names)
      ensures processed == Successes(src, names, junk) && processed + failed == |names|
    {
      processed, failed := 0, 0;
      var i := 0;
      while i < |names|
        invariant 0 <= i <= |names| && processed == Successes(src, names[..i], junk) && processed + failed == i
        invariant files == Copied(old(files), src, names[..i])
      {
        assert names[..i + 1][..i] == names[..i];
        var ok := Copy(src, names[i], junk(i));
        if ok {
          processed := processed + 1;
        } else {
          failed := failed + 1;
        }
        i := i + 1;
      }
      assert names[..|names|] == names;
    }

    /** The whole worker. A FULL that finds nothing to copy is a success. */
    method Execute(op: Op, name: string, src: Files, names: seq<string>, junk: nat -> int) returns (status: Status)
      modifies this
      ensures op == Full ==>
                && files == Copied(old(files), src, names)
                && (status == Success <==> forall i :: 0 <= i < |names| ==> SaysSuccess(src, names[i], junk(i)))
                && (status == Error <==>
                    names != [] && forall i :: 0 <= i < |names| ==> !SaysSuccess(src, names[i], junk(i)))
      ensures op == Added || op == Modified ==>
                && files == (if name in src then old(files)[name := src[name]] else old(files))
                && status == (if SaysSuccess(src, name, junk(0)) then Success else Error)
      ensures op == Deleted ==>
                files == old(files) - {name} && status == (if name in old(files) then Success else Error)
    {
      match op {
        case Full =>
          var processed, failed := CopyAll(src, names, junk);
          AllOrNone(src, names, junk);
          status := if failed == 0 then Success else if processed == 0 then Error else Partial;
        case Deleted =>
          status := if name in files then Success else Error;
          files := files - {name};
        case _ =>
          var ok := Copy(src, name, junk(0));
          status := if ok then Success else Error;
      }
    }
  }

  // ---------- One way through Mirror ----------

  /** The moves of a worker that lists these names while nobody edits. */
  function Walk(names: seq<string>): seq<Mirror.Move> {
    if names == [] then [Mirror.ListEnd] else [Mirror.Pick(names[0], ""), Mirror.Close("")] + Walk(names[1..])
  }

  lemma {:induction false} CopiedHead(tar: Files, src: Files, names: seq<string>)
    requires names != []
    ensures Copied(tar, src, names)
         == Copied(if names[0] in src then tar[names[0] := src[names[0]]] else tar, src, names[1..])
  {
    var init := names[..|names| - 1];
    if init != [] {
      CopiedHead(tar, src, init);
      assert names[1..][..|names| - 2] == init[1..];
    } else {
      assert names[1..] == [];
      assert Copied(tar, src, init) == tar;
    }
  }

  lemma {:induction false} TwoMoves(m: Mirror.State, x: Mirror.Move, y: Mirror.Move, rest: seq<Mirror.Move>)
    requires Mirror.Enabled(m, x) && Mirror.Enabled(Mirror.Next(m, x), y)
    requires Mirror.Run(Mirror.Next(Mirror.Next(m, x), y), rest)
    ensures Mirror.Run(m, [x, y] + rest)
    ensures Mirror.After(m, [x, y] + rest) == Mirror.After(Mirror.Next(Mirror.Next(m, x), y), rest)
  {
    hide Mirror.Enabled, Mirror.Next;
    assert ([x, y] + rest)[1..] == [y] + rest && ([y] + rest)[1..] == rest;
    assert Mirror.Run(Mirror.Next(m, x), [y] + rest);
  }

  /** What is left of a listing delivers the rest of the source, and then the worker is done. */
  lemma {:induction false} WalkIsRun(m: Mirror.State, names: seq<string>)
    requires m.work.Listing? && (forall i :: 0 <= i < |names| ==> names[i] in m.src)
    requires forall name :: name in m.work.must ==> Listed(names, name)
    ensures Mirror.Run(m, Walk(names))
    ensures Mirror.After(m, Walk(names)) == m.(tar := Copied(m.tar, m.src, names), work := Mirror.Finished)
    decreases |names|
  {
    if names == [] {
      assert m.work.must == {};
      assert [Mirror.ListEnd][1..] == [];
    } else {
      var x, y := Mirror.Pick(names[0], ""), Mirror.Close("");
      var t := m.(tar := m.tar[names[0] := m.src[names[0]]], work := Mirror.Listing(m.work.must - {names[0]}));
      assert Mirror.Next(Mirror.Next(m, x), y) == t;
      forall name | name in t.work.must ensures Listed(names[1..], name) {
        var i :| 0 <= i < |names| && names[i] == name;
        assert names[1..][i - 1] == name;
      }
      WalkIsRun(t, names[1..]);
      TwoMoves(m, x, y, Walk(names[1..]));
      CopiedHead(m.tar, m.src, names);
    }
  }

  /** The worker's FULL, with nobody editing, is a run of Mirror from the job to the end of the work. */
  lemma {:induction false} FullIsRun(m: Mirror.State, names: seq<string>)
    requires m.work == Mirror.Todo(Mirror.ALL) && ListingOf(names, m.src)
    ensures Mirror.Run(m, [Mirror.Act("")] + Walk(names))
    ensures Mirror.After(m, [Mirror.Act("")] + Walk(names))
         == m.(tar := Copied(m.tar, m.src, names), work := Mirror.Finished)
  {
    var t := m.(work := Mirror.Listing(m.src.Keys));
    assert Mirror.Next(m, Mirror.Act("")) == t;
    forall i | 0 <= i < |names| ensures names[i] in m.src {
      assert Listed(names, names[i]);
    }
    WalkIsRun(t, names);
    assert ([Mirror.Act("")] + Walk(names))[1..] == Walk(names);
  }

  /** All that happens behind `add` while nobody edits: the full job starts, lists, copies and is reported. */
  function FirstSync(names: seq<string>): seq<Mirror.Move> {
    [Mirror.Begin] + ([Mirror.Act("")] + Walk(names)) + [Mirror.Report]
  }

  /** So a quiet state is reached from every state behind `add`, with the copied files in the target. */
  lemma {:induction false} FirstSyncIsRun(m: Mirror.State, names: seq<string>)
    requires Mirror.JustAdded(m) && m.work == Mirror.NoWork && ListingOf(names, m.src)
    ensures Mirror.Run(m, FirstSync(names)) && Mirror.Quiet(Mirror.After(m, FirstSync(names)))
    ensures Mirror.After(m, FirstSync(names)).tar == Copied(m.tar, m.src, names)
    ensures Mirror.After(m, FirstSync(names)).src == m.src
  {
    var t := m.(queue := [], work := Mirror.Todo(Mirror.ALL));
    assert m.queue[1..] == [] && Mirror.Next(m, Mirror.Begin) == t;
    SingleMove(m, Mirror.Begin);
    FullIsRun(t, names);
    var steps := [Mirror.Act("")] + Walk(names);
    var u := Mirror.After(t, steps);
    assert Mirror.Next(u, Mirror.Report) == u.(work := Mirror.NoWork);
    SingleMove(u, Mirror.Report);
    hide Walk, Mirror.Enabled, Mirror.Next, Copied;
    Mirror.RunConcat(m, [Mirror.Begin], steps);
    Mirror.RunConcat(m, [Mirror.Begin] + steps, [Mirror.Report]);
  }

  lemma {:induction false} SingleMove(m: Mirror.State, x: Mirror.Move)
    requires Mirror.Enabled(m, x)
    ensures Mirror.Run(m, [x]) && Mirror.After(m, [x]) == Mirror.Next(m, x)
  {
    var t := Mirror.Next(m, x);
    hide Mirror.Enabled, Mirror.Next;
    assert [x][1..] == [] && Mirror.Run(t, []) && Mirror.After(t, []) == t;
  }
}
