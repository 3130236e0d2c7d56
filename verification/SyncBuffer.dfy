// The bounded ring of sync_buffer.c: one critical section per method.
module SyncBuffer {
  import opened Sequences
  import opened SyncPairs

  // ---------- The ring as a value ----------

  /** The index i positions along a ring of `size` slots, without a remainder. */
  function Wrap(i: int, size: int): (r: int)
    requires 0 <= i < 2 * size
    ensures 0 <= r < size
  {
    if i < size then i else i - size
  }

  lemma {:induction false} WrapIsMod(i: int, size: int)
    requires 0 < size && 0 <= i < 2 * size
    ensures i % size == Wrap(i, size)
  {
    if i < size {
      assert i % size == i;
    } else {
      var j := i - size;
      assert i == 1 * size + j;
      ModOfSum(1, size, j);
    }
  }

  lemma {:induction false} SmallMultipleIsZero(d: int, size: int)
    requires -size < d * size < size
    ensures d == 0
  {
    assert d >= 1 ==> d * size >= size;
    assert d <= -1 ==> d * size <= -size;
  }

  lemma {:induction false} ModOfSum(k: int, size: int, j: int)
    requires 0 <= j < size
    ensures (k * size + j) % size == j
  {
    var i := k * size + j;
    var q, r := i / size, i % size;
    assert i == q * size + r;
    assert (k - q) * size == r - j;
    SmallMultipleIsZero(k - q, size);
  }

  /** The first `count` pairs of a ring that starts at `start`. */
  function Slice(data: seq<SyncPair>, start: int, count: int): (r: seq<SyncPair>)
    requires 0 <= start && 0 <= count <= |data| && (count == 0 || start < |data|)
    ensures |r| == count
    ensures forall i :: 0 <= i < count ==> r[i] == data[Wrap(start + i, |data|)]
  {
    seq(count, i requires 0 <= i < count => data[Wrap(start + i, |data|)])
  }

  /** One pair more behind the others. */
  lemma {:induction false} SliceMore(data: seq<SyncPair>, start: int, count: int, pair: SyncPair)
    requires 0 <= start < |data| && 0 <= count < |data|
    ensures Slice(data[Wrap(start + count, |data|) := pair], start, count + 1) == Slice(data, start, count) + [pair]
  {
  }

  // ---------- What cancel is for, and what it computes ----------

  function OtherDir(dir: string): SyncPair -> bool {
    (p: SyncPair) => p.src.dir != dir
  }

  function InDir(dir: string): SyncPair -> bool {
    (p: SyncPair) => p.src.dir == dir
  }

  /** The queue without the pairs of one source directory: what cancel is for. */
  function Without(q: seq<SyncPair>, dir: string): seq<SyncPair> {
    Filter(q, OtherDir(dir))
  }

  predicate HasDir(q: seq<SyncPair>, dir: string) {
    exists i :: 0 <= i < |q| && q[i].src.dir == dir
  }

  /** What cancel leaves: the count is a difference of indices modulo the size, so a full ring reads as empty. */
  function AfterCancel(q: seq<SyncPair>, size: nat, dir: string): seq<SyncPair> {
    if |Without(q, dir)| == size then [] else Without(q, dir)
  }

  /** A caller can tell beforehand whether cancel will do its job. */
  predicate CancelIsExact(q: seq<SyncPair>, size: nat, dir: string) {
    q == [] || |q| < size || HasDir(q, dir)
  }

  lemma {:induction false} CancelIsFilterExactlyWhen(q: seq<SyncPair>, size: nat, dir: string)
    requires |q| <= size
    ensures AfterCancel(q, size, dir) == Without(q, dir) <==> CancelIsExact(q, size, dir)
    ensures !CancelIsExact(q, size, dir) ==> Without(q, dir) == q && AfterCancel(q, size, dir) == []
  {
    FilterKeepsLength(q, OtherDir(dir));
    if HasDir(q, dir) {
      var i :| 0 <= i < |q| && q[i].src.dir == dir;
      assert q[i] in q && !OtherDir(dir)(q[i]);
      assert |Without(q, dir)| < |q|;
    } else {
      forall x | x in q ensures OtherDir(dir)(x) {
        var i :| 0 <= i < |q| && q[i] == x;
      }
      FilterAll(q, OtherDir(dir));
    }
  }

  /** A one-slot ring, full, and a cancel of a directory that is not in it: the pair is gone. */
  lemma {:induction false} CancelCanWipeTheRing()
    ensures exists q: seq<SyncPair>, size: nat, dir: string ::
              |q| <= size && !HasDir(q, dir) && q != [] && AfterCancel(q, size, dir) == []
  {
    var p := SyncPair("f", Location("/a", "h", 1), Location("/b", "h", 2));
    CancelIsFilterExactlyWhen([p], 1, "/c");
    assert !HasDir([p], "/c") && AfterCancel([p], 1, "/c") == [];
  }

  // ---------- The report of cancel ----------

  /** The source locations of the pairs, each at its first occurrence. */
  function DistinctSources(q: seq<SyncPair>): (r: seq<Location>)
    ensures |r| <= |q|
    ensures forall l :: l in r <==> exists i :: 0 <= i < |q| && q[i].src == l
    ensures forall i, j :: 0 <= i < j < |r| ==> r[i] != r[j]
  {
    if q == [] then []
    else
      var r := DistinctSources(q[..|q| - 1]);
      var l := q[|q| - 1].src;
      assert forall i :: 0 <= i < |q| - 1 ==> q[i] == q[..|q| - 1][i];
      if l in r then r else r + [l]
  }

  /** The locations cancel reports. */
  function CancelReport(q: seq<SyncPair>, dir: string): seq<Location> {
    DistinctSources(Filter(q, InDir(dir)))
  }

  /** The report stops when the caller's buffer is full. */
  function Take(report: seq<Location>, room: nat): seq<Location> {
    if |report| <= room then report else report[..room]
  }

  /** The report is a set of exactly the locations that lost a pair, and is empty iff nothing was removed. */
  lemma {:induction false} CancelReportIsASet(q: seq<SyncPair>, dir: string)
    ensures forall i, j :: 0 <= i < j < |CancelReport(q, dir)| ==> CancelReport(q, dir)[i] != CancelReport(q, dir)[j]
    ensures forall l :: l in CancelReport(q, dir) <==> exists i :: 0 <= i < |q| && q[i].src == l && l.dir == dir
    ensures CancelReport(q, dir) != [] <==> HasDir(q, dir)
    ensures |CancelReport(q, dir)| + |Without(q, dir)| <= |q|
  {
    var removed := Filter(q, InDir(dir));
    forall l ensures l in CancelReport(q, dir) <==> exists i :: 0 <= i < |q| && q[i].src == l && l.dir == dir {
      if l in CancelReport(q, dir) {
        var i :| 0 <= i < |removed| && removed[i].src == l;
        FilterMember(q, InDir(dir), removed[i]);
        var j :| 0 <= j < |q| && q[j] == removed[i];
      }
      if i :| 0 <= i < |q| && q[i].src == l && l.dir == dir {
        FilterMember(q, InDir(dir), q[i]);
        var j :| 0 <= j < |removed| && removed[j] == q[i];
      }
    }
    if HasDir(q, dir) {
      var i :| 0 <= i < |q| && q[i].src.dir == dir;
      assert q[i].src in CancelReport(q, dir);
    }
    if CancelReport(q, dir) != [] {
      assert CancelReport(q, dir)[0] in CancelReport(q, dir);
    }
    FilterPartition(q, dir);
  }

  /**
   * The manager passes a report buffer of exactly `size` entries. Its terminator fits unless every slot
   * of the ring holds a pair of that directory and no two of them share host and port.
   */
  lemma {:induction false} TerminatorFitsExactlyWhen(q: seq<SyncPair>, size: nat, dir: string)
    requires |q| <= size
    ensures |CancelReport(q, dir)| < size
       <==> !(|q| == size && AllInDir(q, dir) && AllDistinct(q))
  {
    CancelReportIsASet(q, dir);
    FilterKeepsLength(q, InDir(dir));
    if |CancelReport(q, dir)| == size {
      assert |Filter(q, InDir(dir))| == |q|;
      forall i | 0 <= i < |q| ensures q[i].src.dir == dir {
        assert q[i] in q;
      }
    }
    if AllInDir(q, dir) {
      forall x | x in q ensures InDir(dir)(x) {
        var i :| 0 <= i < |q| && q[i] == x;
      }
      FilterAll(q, InDir(dir));
      DistinctSourcesLength(q);
    }
  }

  predicate AllInDir(q: seq<SyncPair>, dir: string) {
    forall i :: 0 <= i < |q| ==> q[i].src.dir == dir
  }

  predicate AllDistinct(q: seq<SyncPair>) {
    forall i, j :: 0 <= i < j < |q| ==> q[i].src != q[j].src
  }

  lemma {:induction false} DistinctSourcesLength(q: seq<SyncPair>)
    ensures |DistinctSources(q)| == |q| <==> AllDistinct(q)
  {
    if q != [] {
      var init := q[..|q| - 1];
      DistinctSourcesLength(init);
      var l := q[|q| - 1].src;
      if AllDistinct(q) {
        assert forall i :: 0 <= i < |init| ==> init[i] == q[i];
        assert l !in DistinctSources(init);
      } else if |DistinctSources(q)| == |q| {
        assert AllDistinct(init) && l !in DistinctSources(init);
        forall i, j | 0 <= i < j < |q| ensures q[i].src != q[j].src {
          assert q[i] == init[i];
          if j < |q| - 1 {
            assert q[j] == init[j];
          }
        }
      }
    }
  }

  lemma {:induction false} FilterPartition(q: seq<SyncPair>, dir: string)
    ensures |Filter(q, InDir(dir))| + |Without(q, dir)| == |q|
  {
    if q != [] {
      FilterPartition(q[..|q| - 1], dir);
    }
  }

  // ---------- The compaction, on the slots ----------

  /** After i pairs of q: the kept ones are packed from `start`, the unread ones are untouched. */
  ghost predicate Compacted(data: seq<SyncPair>, start: int, q: seq<SyncPair>, i: int, dir: string)
  {
    && 0 <= start < |data|
    && 0 <= i <= |q| <= |data|
    && Slice(data, start, |Without(q[..i], dir)|) == Without(q[..i], dir)
    && forall j :: i <= j < |q| ==> data[Wrap(start + j, |data|)] == q[j]
  }

  lemma {:induction false} KeepStep(data: seq<SyncPair>, start: int, q: seq<SyncPair>, i: int, dir: string, place: int)
    requires 0 < i <= |q| && Compacted(data, start, q, i - 1, dir)
    requires place == Wrap(start + |Without(q[..i - 1], dir)|, |data|)
    requires q[i - 1].src.dir != dir
    ensures Without(q[..i], dir) == Without(q[..i - 1], dir) + [q[i - 1]]
    ensures Compacted(data[place := q[i - 1]], start, q, i, dir)
    ensures Wrap(place + 1, |data|) == Wrap(start + |Without(q[..i], dir)|, |data|)
  {
    var after := data[place := q[i - 1]];
    var before := Without(q[..i - 1], dir);
    assert q[..i][..i - 1] == q[..i - 1];
    forall j | 0 <= j < |before| ensures after[Wrap(start + j, |data|)] == before[j] {
      assert data[Wrap(start + j, |data|)] == Slice(data, start, |before|)[j];
    }
    assert Slice(after, start, |before| + 1) == before + [q[i - 1]];
  }

  lemma {:induction false} DropStep(data: seq<SyncPair>, start: int, q: seq<SyncPair>, i: int, dir: string)
    requires 0 < i <= |q| && Compacted(data, start, q, i - 1, dir)
    requires q[i - 1].src.dir == dir
    ensures Without(q[..i], dir) == Without(q[..i - 1], dir)
    ensures Compacted(data, start, q, i, dir)
  {
    assert q[..i][..i - 1] == q[..i - 1];
  }

  lemma {:induction false} ReportStep(q: seq<SyncPair>, i: int, dir: string, room: nat)
    requires 0 < i <= |q|
    ensures HasDir(q[..i], dir) == (HasDir(q[..i - 1], dir) || q[i - 1].src.dir == dir)
    ensures var before := Take(CancelReport(q[..i - 1], dir), room);
            Take(CancelReport(q[..i], dir), room) == before
              + if q[i - 1].src.dir != dir || q[i - 1].src in before || |before| == room then [] else [q[i - 1].src]
  {
    assert q[..i][..i - 1] == q[..i - 1];
    assert q[..i][i - 1] == q[i - 1];
    var removed := Filter(q[..i - 1], InDir(dir));
    assert (removed + [q[i - 1]])[..|removed|] == removed;
    assert removed + [] == removed;
  }

  lemma {:induction false} ReportNone(q: seq<SyncPair>, dir: string, room: nat)
    ensures !HasDir(q[..0], dir) && Take(CancelReport(q[..0], dir), room) == []
  {
    assert q[..0] == [];
  }

  /** The variables of the loop: the slots, the write index, whether any pair was removed, the report. */
  datatype Sweep = Sweep(slots: seq<SyncPair>, place: int, any: bool, report: seq<Location>)

  function SweepTo(data: seq<SyncPair>, start: int, i: nat, dir: string, room: nat): (r: Sweep)
    requires 0 <= start < |data| && i <= |data|
    ensures |r.slots| == |data| && 0 <= r.place < |data| && |r.report| <= room
  {
    if i == 0 then Sweep(data, start, false, [])
    else
      var s := SweepTo(data, start, i - 1, dir, room);
      var pair := s.slots[Wrap(i - 1 + start, |data|)];
      if pair.src.dir != dir then
        s.(slots := s.slots[s.place := pair], place := Wrap(s.place + 1, |data|))
      else
        s.(any := true, report := s.report + if pair.src in s.report || |s.report| == room then [] else [pair.src])
  }

  /** What the slots and the write index are after i pairs. */
  ghost predicate Packed(s: Sweep, start: int, q: seq<SyncPair>, i: nat, dir: string) {
    && Compacted(s.slots, start, q, i, dir)
    && s.place == Wrap(start + |Without(q[..i], dir)|, |s.slots|)
  }

  lemma {:induction false} PackedNone(data: seq<SyncPair>, start: int, q: seq<SyncPair>, dir: string)
    requires 0 <= start < |data| && |q| <= |data| && q == Slice(data, start, |q|)
    ensures Packed(Sweep(data, start, false, []), start, q, 0, dir)
  {
    assert q[..0] == [];
  }

  /** The i-th pair is kept, at the write index, or dropped. */
  lemma {:induction false} PackedNext(data: seq<SyncPair>, start: int, q: seq<SyncPair>, i: nat, dir: string, room: nat)
    requires 0 <= start < |data| && 0 < i <= |q| <= |data|
    requires Packed(SweepTo(data, start, i - 1, dir, room), start, q, i - 1, dir)
    ensures Packed(SweepTo(data, start, i, dir, room), start, q, i, dir)
  {
    var s := SweepTo(data, start, i - 1, dir, room);
    assert s.slots[Wrap(start + (i - 1), |data|)] == q[i - 1];
    hide Without, Slice;
    if q[i - 1].src.dir != dir {
      KeepStep(s.slots, start, q, i, dir, s.place);
    } else {
      DropStep(s.slots, start, q, i, dir);
    }
  }

  lemma {:induction false} SweepIsPacked(data: seq<SyncPair>, start: int, q: seq<SyncPair>, i: nat, dir: string, room: nat)
    requires 0 <= start < |data| && i <= |q| <= |data| && q == Slice(data, start, |q|)
    ensures Packed(SweepTo(data, start, i, dir, room), start, q, i, dir)
  {
    if i == 0 {
      hide Packed;
      PackedNone(data, start, q, dir);
    } else {
      hide *;
      SweepIsPacked(data, start, q, i - 1, dir, room);
      PackedNext(data, start, q, i, dir, room);
    }
  }

  /** The write index never overtakes the read index, so the sweep packs the filtered queue. */
  lemma {:induction false} SweepPacks(data: seq<SyncPair>, start: int, q: seq<SyncPair>, i: nat, dir: string, room: nat)
    requires 0 <= start < |data| && i <= |q| <= |data| && q == Slice(data, start, |q|)
    ensures var s := SweepTo(data, start, i, dir, room);
            && Compacted(s.slots, start, q, i, dir)
            && s.place == Wrap(start + |Without(q[..i], dir)|, |data|)
            && (i < |q| ==> s.slots[Wrap(start + i, |data|)] == q[i])
  {
    SweepIsPacked(data, start, q, i, dir, room);
    hide Without, Slice, SweepTo;
  }

  lemma {:induction false} SweepReports(data: seq<SyncPair>, start: int, q: seq<SyncPair>, i: nat, dir: string, room: nat)
    requires 0 <= start < |data| && i <= |q| <= |data| && q == Slice(data, start, |q|)
    ensures SweepTo(data, start, i, dir, room).any == HasDir(q[..i], dir)
    ensures SweepTo(data, start, i, dir, room).report == Take(CancelReport(q[..i], dir), room)
  {
    hide Compacted, CancelReport, HasDir, Take, Slice, Without, Wrap;
    if i == 0 {
      ReportNone(q, dir, room);
    } else {
      SweepReports(data, start, q, i - 1, dir, room);
      SweepPacks(data, start, q, i - 1, dir, room);
      ReportStep(q, i, dir, room);
    }
  }

  lemma {:induction false} SweptRing(data: seq<SyncPair>, start: int, q: seq<SyncPair>, dir: string, room: nat)
    requires 0 <= start < |data| && |q| <= |data| && q == Slice(data, start, |q|)
    ensures var s := SweepTo(data, start, |q|, dir, room);
            && Slice(s.slots, start, |Without(q, dir)|) == Without(q, dir)
            && s.place == Wrap(start + |Without(q, dir)|, |data|)
            && s.any == HasDir(q, dir)
            && s.report == Take(CancelReport(q, dir), room)
  {
    SweepPacks(data, start, q, |q|, dir, room);
    SweepReports(data, start, q, |q|, dir, room);
    assert q[..|q|] == q;
  }

  lemma {:induction false} IndicesAfterCancel(start: int, kept: int, size: int)
    requires 0 <= start < size && 0 <= kept <= size
    ensures var place := Wrap(start + kept, size);
            var end, count := (place - 1 + size) % size, (place - start + size) % size;
            && count == (if kept == size then 0 else kept)
            && 0 <= end < size && Wrap(end + 1, size) == Wrap(start + count, size)
  {
    var place := Wrap(start + kept, size);
    WrapIsMod(place - 1 + size, size);
    var end := (place - 1 + size) % size;
    if kept == size {
      ModOfSum(1, size, 0);
    } else {
      WrapIsMod(place - start + size, size);
    }
  }

  // ---------- The buffer ----------

  datatype Obtained = Pair(pair: SyncPair) | MustWait | Quit

  /** What one locked turn of sync_buffer_place does: a pair goes behind the others exactly when there is room. */
  predicate Places(before: seq<SyncPair>, size: nat, pair: SyncPair, placed: bool, after: seq<SyncPair>) {
    placed == (|before| < size) && after == before + if placed then [pair] else []
  }

  /** What one locked turn of sync_buffer_obtain does: the oldest pair first, then quit, else it must wait. */
  predicate Obtains(before: seq<SyncPair>, quit: bool, r: Obtained, after: seq<SyncPair>) {
    match r
    case Pair(pair) => before == [pair] + after
    case Quit => before == after == [] && quit
    case MustWait => before == after == [] && !quit
  }

  predicate InRing(start: int, end: int, count: int, size: int) {
    && 0 <= start < size && 0 <= count <= size && -1 <= end < size
    && Wrap(end + 1, size) == Wrap(start + count, size)
  }

  class Buffer {
    var data: array<SyncPair>
    var start: int
    var end: int
    var count: int
    var size: int
    var quit: bool

    ghost predicate Valid()
      reads this, data
    {
      && 0 <= count <= size == data.Length
      && if size == 0 then start == 0 else InRing(start, end, count, size)
    }

    /** The pairs waiting in the ring, oldest first. */
    ghost function Contents(): seq<SyncPair>
      reads this, data
      requires Valid()
    {
      Slice(data[..], start, count)
    }

    constructor (size: int)
      requires 0 <= size
      ensures Valid() && fresh(data) && this.size == size
      ensures Contents() == [] && !quit
    {
      data := new SyncPair[size](_ => NO_PAIR);
      start, end, count, this.size := 0, -1, 0, size;
      quit := false;
    }

    /** One turn of sync_buffer_place with the mutex held: it waits exactly when the ring is full. */
    method Place(pair: SyncPair) returns (placed: bool)
      requires Valid()
      modifies this`end, this`count, data
      ensures Valid()
      ensures Places(old(Contents()), size, pair, placed, Contents())
    {
      if count >= size {
        return false;
      }
      ghost var before := data[..];
      WrapIsMod(end + 1, size);
      SliceMore(before, start, count, pair);
      end := (end + 1) % size;
      data[end] := pair;
      assert data[..] == before[end := pair];
      hide Slice;
      count := count + 1;
      placed := true;
    }

    /** One turn of sync_buffer_obtain with the mutex held: pairs first, then quit, else wait. */
    method Obtain() returns (r: Obtained)
      requires Valid()
      modifies this`start, this`count
      ensures Valid()
      ensures Obtains(old(Contents()), quit, r, Contents())
    {
      if count <= 0 && !quit {
        return MustWait;
      }
      if count <= 0 && quit {
        return Quit;
      }
      ghost var q := Contents();
      var pair := data[start];
      WrapIsMod(start + 1, size);
      start := (start + 1) % size;
      count := count - 1;
      assert q == [pair] + Contents();
      return Pair(pair);
    }

    /** The scan of sync_buffer_file_exists. */
    method FileExists(pair: SyncPair) returns (found: bool)
      requires Valid()
      ensures found <==> exists i :: 0 <= i < |Contents()| && SameSource(pair, Contents()[i])
    {
      var i := 0;
      while i < count
        invariant 0 <= i <= count
        invariant forall j :: 0 <= j < i ==> !SameSource(pair, Contents()[j])
      {
        WrapIsMod(i + start, size);
        var current := data[(i + start) % size];
        assert current == Contents()[i];
        if pair.file == current.file && pair.src.dir == current.src.dir
           && pair.src.host == current.src.host && pair.src.port == current.src.port {
          return true;
        }
        i := i + 1;
      }
      return false;
    }

    /** Adds a location to the report unless it is already there or there is no room. */
    static method Report(location: Location, deleted: array<Location>, index: int, bufferSize: int) returns (next: int)
      requires 0 <= index <= bufferSize <= deleted.Length
      modifies deleted
      ensures index <= next <= bufferSize
      ensures deleted[..next] == old(deleted[..index])
                + if location in old(deleted[..index]) || index == bufferSize then [] else [location]
    {
      var exists_ := false;
      var j := 0;
      while j < index
        invariant 0 <= j <= index
        invariant forall k :: 0 <= k < j ==> deleted[k] != location
      {
        if deleted[j].dir == location.dir && deleted[j].host == location.host && deleted[j].port == location.port {
          exists_ := true;
          assert deleted[j] in deleted[..index];
          break;
        }
        j := j + 1;
      }
      next := index;
      if !exists_ && index < bufferSize {
        deleted[index] := location;
        next := index + 1;
      }
    }

    /** Every index of the ring is a remainder; i never runs more than one lap ahead. */
    static method RingIndex(i: int, size: int) returns (r: int)
      requires 0 < size && 0 <= i < 2 * size
      ensures r == Wrap(i, size)
    {
      WrapIsMod(i, size);
      r := i % size;
    }

    /** The loop of sync_buffer_cancel_dir. */
    method Compact(dir: string, deleted: array<Location>, bufferSize: int)
      returns (any: bool, place: int, index: int)
      requires 0 <= start < size == data.Length && 0 <= count <= size
      requires 0 <= bufferSize <= deleted.Length
      modifies data, deleted
      ensures 0 <= index <= bufferSize
      ensures Sweep(data[..], place, any, deleted[..index]) == SweepTo(old(data[..]), start, count, dir, bufferSize)
    {
      hide Wrap;
      any, place, index := false, start, 0;
      var i := 0;
      while i < count
        invariant 0 <= i <= count
        invariant 0 <= index <= bufferSize
        invariant Sweep(data[..], place, any, deleted[..index]) == SweepTo(old(data[..]), start, i, dir, bufferSize)
      {
        var search := RingIndex(i + start, size);
        var current := data[search].src;
        ghost var s := SweepTo(old(data[..]), start, i, dir, bufferSize);
        ghost var next := SweepTo(old(data[..]), start, i + 1, dir, bufferSize);
        if dir != current.dir {
          data[place] := data[search];
          assert data[..] == s.slots[place := s.slots[search]];
          place := RingIndex(place + 1, size);
          assert next == s.(slots := data[..], place := place);
        } else {
          any := true;
          index := Report(current, deleted, index, bufferSize);
          assert next == s.(any := true, report := deleted[..index]) && data[..] == s.slots;
        }
        i := i + 1;
      }
    }

    /** The new end and count, both modulo the size. */
    method SetIndices(place: int, ghost kept: int)
      requires 0 <= start < size && 0 <= kept <= size && place == Wrap(start + kept, size)
      modifies this`end, this`count
      ensures count == if kept == size then 0 else kept
      ensures 0 <= end < size && Wrap(end + 1, size) == Wrap(start + count, size)
    {
      IndicesAfterCancel(start, kept, size);
      end := (place - 1 + size) % size;
      count := (place - start + size) % size;
    }

    /**
     * sync_buffer_cancel_dir. The layout it leaves is always the filtered queue; the count it computes is that
     * queue's length modulo the size, so that a ring of size 0 stops the program. `deleted` must have room for the
     * terminator behind the locations actually reported.
     */
    method CancelDir(dir: string, deleted: array<Location>, bufferSize: int) returns (any: bool, ghost reported: nat)
      requires Valid() && 0 < size
      requires 0 <= bufferSize <= deleted.Length
      requires |Take(CancelReport(Contents(), dir), bufferSize)| < deleted.Length
      modifies this`end, this`count, data, deleted
      ensures Valid()
      ensures |Without(old(Contents()), dir)| <= size
      ensures Slice(data[..], start, |Without(old(Contents()), dir)|) == Without(old(Contents()), dir)
      ensures Contents() == AfterCancel(old(Contents()), size, dir)
      ensures any == HasDir(old(Contents()), dir)
      ensures reported < deleted.Length
      ensures deleted[..reported] == Take(CancelReport(old(Contents()), dir), bufferSize)
      ensures deleted[reported] == NO_LOCATION
    {
      ghost var q := Contents();
      ghost var left := Without(q, dir);
      SweptRing(data[..], start, q, dir, bufferSize);
      var place, index;
      any, place, index := Compact(dir, deleted, bufferSize);
      SetIndices(place, |left|);
      deleted[index] := NO_LOCATION;
      reported := index;
    }

    method SetQuit()
      requires Valid()
      modifies this`quit
      ensures Valid() && quit && Contents() == old(Contents())
    {
      quit := true;
    }
  }
}
