// job_queue_dir_exists and job_queue_remove_dir (job_queue.c), on the linked list as the code walks it.
module JobRemoval {
  import opened Sequences
  import opened Jobs
  import opened LinkedQueues

  function OtherJobs(src: string): Job -> bool {
    (j: Job) => j.src != src
  }

  /** What removing a directory is for. */
  function Without(q: seq<Job>, src: string): seq<Job> {
    Filter(q, OtherJobs(src))
  }

  /** The queue behind the jobs of src it begins with. */
  function Strip(q: seq<Job>, src: string): (r: seq<Job>)
    ensures |r| <= |q| && (r != [] ==> r[0].src != src)
  {
    if q == [] || q[0].src != src then q else Strip(q[1..], src)
  }

  lemma {:induction false} StripShape(q: seq<Job>, src: string)
    ensures var r := Strip(q, src); r == q[|q| - |r|..] && forall i :: 0 <= i < |q| - |r| ==> q[i].src == src
  {
    if q != [] && q[0].src == src {
      StripShape(q[1..], src);
    }
  }

  predicate Queued(q: seq<Job>, src: string) {
    exists i :: 0 <= i < |q| && q[i].src == src
  }

  /** The position of the last job of src among q[1..i], or 0. */
  function LastHit(q: seq<Job>, i: nat, src: string): (m: nat)
    requires 0 < i <= |q|
    ensures m < i
    ensures m != 0 ==> q[m].src == src
    ensures forall j :: m < j < i ==> q[j].src != src
  {
    if i == 1 then 0 else if q[i - 1].src == src then i - 1 else LastHit(q, i - 1, src)
  }

  /**
   * When the code does its job: once the leading jobs of src are dropped, its other jobs sit directly behind
   * the first kept job, and some other job follows them.
   */
  predicate RemoveIsExact(q: seq<Job>, src: string) {
    var s := Strip(q, src);
    s == [] || (
      var m := LastHit(s, |s|, src);
      OnlyHits(s, m, src) && (m == 0 || m < |s| - 1))
  }

  predicate OnlyHits(s: seq<Job>, m: nat, src: string)
    requires m < |s|
  {
    forall i :: 1 <= i <= m ==> s[i].src == src
  }

  /** How many jobs of src there are. */
  function Hits(q: seq<Job>, src: string): nat {
    |q| - |Without(q, src)|
  }

  /** The chain the code leaves: the predecessor never advances, so each removal cuts all that lies before it. */
  function Chain(q: seq<Job>, src: string): seq<Job> {
    var s := Strip(q, src);
    if s == [] then [] else [s[0]] + s[LastHit(s, |s|, src) + 1..]
  }

  /** Whether the tail pointer is set to NULL although a job is left. */
  predicate TailLost(q: seq<Job>, src: string) {
    var s := Strip(q, src);
    s != [] && LastHit(s, |s|, src) != 0 && LastHit(s, |s|, src) == |s| - 1
  }

  lemma {:induction false} WithoutStrip(q: seq<Job>, src: string)
    ensures Without(q, src) == Without(Strip(q, src), src)
  {
    var k := |q| - |Strip(q, src)|;
    StripShape(q, src);
    hide Strip, Filter;
    assert q == q[..k] + q[k..];
    FilterAppend(q[..k], q[k..], OtherJobs(src));
    forall x | x in q[..k] ensures !OtherJobs(src)(x) {
      var i :| 0 <= i < k && q[i] == x;
    }
    FilterNone(q[..k], OtherJobs(src));
    assert [] + Filter(q[k..], OtherJobs(src)) == Filter(q[k..], OtherJobs(src));
  }

  lemma {:induction false} NoneIsKept(q: seq<Job>, src: string)
    ensures |Without(q, src)| == |q| <==> !Queued(q, src)
    ensures !Queued(q, src) ==> Without(q, src) == q
  {
    FilterKeepsLength(q, OtherJobs(src));
    if !Queued(q, src) {
      forall x | x in q ensures OtherJobs(src)(x) {
        var i :| 0 <= i < |q| && q[i] == x;
      }
      FilterAll(q, OtherJobs(src));
    } else {
      var i :| 0 <= i < |q| && q[i].src == src;
      assert q[i] in q;
    }
  }

  lemma {:induction false} WithoutParts(h: Job, b: seq<Job>, c: seq<Job>, src: string)
    requires h.src != src && !Queued(c, src)
    ensures Without([h] + b + c, src) == [h] + Without(b, src) + c
  {
    FilterAppend([h] + b, c, OtherJobs(src));
    FilterAppend([h], b, OtherJobs(src));
    assert [h][..0] == [];
    NoneIsKept(c, src);
  }

  /** The kept jobs of a list that starts with one: those up to the last hit, and everything behind it. */
  lemma {:induction false} SplitAtLastHit(s: seq<Job>, src: string)
    requires s != [] && s[0].src != src
    ensures var m := LastHit(s, |s|, src); Without(s, src) == [s[0]] + Without(s[1..m + 1], src) + s[m + 1..]
  {
    hide Without;
    var m := LastHit(s, |s|, src);
    assert s == [s[0]] + s[1..m + 1] + s[m + 1..];
    WithoutParts(s[0], s[1..m + 1], s[m + 1..], src);
  }

  lemma {:induction false} AllHit(q: seq<Job>, src: string)
    ensures Without(q, src) == [] <==> forall i :: 0 <= i < |q| ==> q[i].src == src
  {
    if forall i :: 0 <= i < |q| ==> q[i].src == src {
      forall x | x in q ensures !OtherJobs(src)(x) {
        var i :| 0 <= i < |q| && q[i] == x;
      }
      FilterNone(q, OtherJobs(src));
    } else {
      var i :| 0 <= i < |q| && q[i].src != src;
      FilterMember(q, OtherJobs(src), q[i]);
    }
  }

  lemma {:induction false} KeptCount(s: seq<Job>, src: string)
    requires s != [] && s[0].src != src
    ensures var m := LastHit(s, |s|, src);
            && (|Without(s, src)| == |s| - m <==> OnlyHits(s, m, src))
            && (|Without(s, src)| == |s| - m ==> Without(s, src) == [s[0]] + s[m + 1..])
  {
    var m := LastHit(s, |s|, src);
    var between := s[1..m + 1];
    SplitAtLastHit(s, src);
    AllHit(between, src);
    hide Without;
    assert forall i :: 1 <= i <= m ==> s[i] == between[i - 1];
    assert forall i :: 0 <= i < |between| ==> between[i] == s[i + 1];
    assert [s[0]] + [] == [s[0]];
  }

  /**
   * The chain, the size and the tail come out right exactly when RemoveIsExact held before, and then the
   * chain is the filtered queue. Otherwise the size is not the length of the chain or the tail is gone.
   */
  lemma {:induction false} RemoveIsFilterExactlyWhen(q: seq<Job>, src: string)
    ensures (|Chain(q, src)| == |q| - Hits(q, src) && !TailLost(q, src)) <==> RemoveIsExact(q, src)
    ensures RemoveIsExact(q, src) ==> Chain(q, src) == Without(q, src)
  {
    hide Without, OnlyHits, Strip, LastHit;
    var s := Strip(q, src);
    WithoutStrip(q, src);
    if s == [] {
      EmptyIsKept(src);
    } else {
      KeptCount(s, src);
    }
  }

  lemma {:induction false} EmptyIsKept(src: string)
    ensures Without([], src) == []
  {
  }

  /** Three jobs, the last one removed: the second is lost as well, and the next enqueue follows a NULL tail. */
  lemma {:induction false} RemoveCanLoseJobs(a: Job, b: Job, c: Job)
    requires a.src == b.src != c.src
    ensures Without([a, b, c], c.src) == [a, b] && Chain([a, b, c], c.src) == [a] && TailLost([a, b, c], c.src)
  {
    var q := [a, b, c];
    assert Without([], c.src) == [];
    assert q[..2] == [a, b] && [a, b][..1] == [a] && [a][..0] == [];
    assert Without([a], c.src) == [a] && Without([a, b], c.src) == [a, b];
  }

  // ---------- The list walks ----------

  lemma {:induction false} StripIs(q: seq<Job>, k: nat, src: string)
    requires k <= |q| && (forall i :: 0 <= i < k ==> q[i].src == src) && (k < |q| ==> q[k].src != src)
    ensures Strip(q, src) == q[k..]
  {
    if k != 0 {
      StripIs(q[1..], k - 1, src);
    }
  }

  method DirExists(queue: Queue<Job>, src: string) returns (found: bool)
    requires queue.Valid()
    ensures found <==> Queued(queue.contents, src)
  {
    var node := queue.head;
    ghost var i := 0;
    while node != null
      invariant i <= |queue.nodes| && node == queue.NodeAt(i)
      invariant forall j :: 0 <= j < i ==> queue.nodes[j].value.src != src
      decreases |queue.nodes| - i
    {
      if node.value.src == src {
        assert queue.contents[i].src == src;
        return true;
      }
      node := node.next;
      i := i + 1;
    }
    return false;
  }

  /** The first loop: drops the jobs of src the list begins with. */
  method DropLeading(queue: Queue<Job>, src: string)
    requires queue.Valid() && queue.size != 0
    modifies queue
    ensures queue.Valid() && queue.contents == Strip(old(queue.contents), src)
    ensures IsSuffix(queue.nodes, old(queue.nodes))
  {
    ghost var q := queue.contents;
    ghost var k := 0;
    while queue.size != 0 && queue.head.value.src == src
      invariant queue.Valid() && k <= |q|
      invariant queue.contents == q[k..] && queue.nodes == old(queue.nodes)[k..]
      invariant forall i :: 0 <= i < k ==> q[i].src == src
      decreases queue.size
    {
      var dropped := queue.Dequeue(queue.head.value);
      assert q[k..] == [dropped] + queue.contents;
      k := k + 1;
    }
    StripIs(q, k, src);
  }

  /** Every element of a is one of b. */
  ghost predicate IsSubset<T>(a: seq<T>, b: seq<T>) {
    forall i :: 0 <= i < |a| ==> a[i] in b
  }

  function KeptTo(s: seq<Job>, i: nat, src: string): nat
    requires i <= |s|
  {
    |Without(s[..i], src)|
  }

  lemma {:induction false} KeptAtEnds(s: seq<Job>, src: string)
    requires s != [] && s[0].src != src
    ensures KeptTo(s, 1, src) == 1 && KeptTo(s, |s|, src) == |Without(s, src)|
  {
    assert s[..|s|] == s;
    assert s[..1] == [s[0]] && [s[0]][..0] == [];
  }

  lemma {:induction false} KeptStep(s: seq<Job>, i: nat, src: string)
    requires i < |s|
    ensures KeptTo(s, i + 1, src) == KeptTo(s, i, src) + if s[i].src == src then 0 else 1
    ensures i != 0 ==> LastHit(s, i + 1, src) == if s[i].src == src then i else LastHit(s, i, src)
  {
    assert s[..i + 1][..i] == s[..i];
  }

  /** Cuts the node out of the list, where prev is taken for its predecessor. */
  method Bypass(queue: Queue<Job>, prev: Node<Job>, node: Node<Job>)
    requires 0 < queue.size && node != prev
    modifies queue`size, queue`tail, prev`next
    ensures prev.next == old(node.next) && queue.size == old(queue.size) - 1
    ensures queue.tail == if old(node.next) == null then null else old(queue.tail)
  {
    prev.next := node.next;
    queue.size := queue.size - 1;
    if node.next == null {
      queue.tail := null;
    }
  }

  /** After i jobs: the last one that was removed, and the size. */
  predicate Walked(s: seq<Job>, i: nat, m: nat, size: nat, src: string) {
    1 <= i <= |s| && m == LastHit(s, i, src) && size == |s| - i + KeptTo(s, i, src) && 0 < KeptTo(s, i, src)
  }

  lemma {:induction false} WalkStarts(s: seq<Job>, src: string)
    requires s != [] && s[0].src != src
    ensures Walked(s, 1, 0, |s|, src)
  {
    KeptAtEnds(s, src);
  }

  lemma {:induction false} WalkGoesOn(s: seq<Job>, i: nat, m: nat, size: nat, src: string)
    requires Walked(s, i, m, size, src) && i < |s|
    ensures m < i && 0 < size
    ensures if s[i].src == src then Walked(s, i + 1, i, size - 1, src) else Walked(s, i + 1, m, size, src)
  {
    KeptStep(s, i, src);
    hide LastHit, KeptTo;
  }

  lemma {:induction false} WalkEnds(s: seq<Job>, m: nat, size: nat, src: string)
    requires Walked(s, |s|, m, size, src) && s[0].src != src
    ensures m == LastHit(s, |s|, src) && size == |Without(s, src)|
  {
    KeptAtEnds(s, src);
  }

  /** The second loop: the predecessor stays the first node of the list, and its successor moves on. */
  method Walk(queue: Queue<Job>, prev: Node<Job>, src: string) returns (ghost m: nat)
    requires queue.Valid() && queue.size != 0 && queue.contents[0].src != src && prev == queue.head
    modifies queue`size, queue`tail, prev`next
    ensures m == LastHit(queue.contents, |queue.contents|, src)
    ensures queue.head.next == queue.NodeAt(m + 1)
    ensures queue.size == |Without(queue.contents, src)|
    ensures queue.tail == if m != 0 && m == |queue.nodes| - 1 then null else old(queue.tail)
  {
    ghost var s := queue.contents;
    hide Without, LastHit, Walked;
    WalkStarts(s, src);
    var node := prev.next;
    assert queue.nodes[0].next == queue.NodeAt(1);
    ghost var i := 1;
    m := 0;
    while node != null
      invariant 1 <= i <= |s| && node == queue.NodeAt(i) && Walked(s, i, m, queue.size, src) && m < i
      invariant prev.next == queue.NodeAt(m + 1)
      invariant queue.tail == if m != 0 && m == |s| - 1 then null else old(queue.tail)
      decreases |s| - i
    {
      WalkGoesOn(s, i, m, queue.size, src);
      assert node == queue.nodes[i] && node.next == queue.NodeAt(i + 1);
      if node.value.src == src {
        Bypass(queue, prev, node);
        node := prev.next;
        m := i;
      } else {
        node := node.next;
      }
      i := i + 1;
    }
    WalkEnds(s, m, queue.size, src);
  }

  /** The list behind the second loop, which began with the jobs s. */
  ghost predicate Unlinked(contents: seq<Job>, size: nat, valid: bool, s: seq<Job>, src: string) {
    && s != []
    && var m := LastHit(s, |s|, src);
       && contents == [s[0]] + s[m + 1..]
       && size == |Without(s, src)|
       && (valid <==> |Without(s, src)| == |s| - m && !(m != 0 && m == |s| - 1))
  }

  method Unlink(queue: Queue<Job>, src: string)
    requires queue.Valid() && queue.size != 0 && queue.contents[0].src != src
    modifies queue, queue.head
    ensures queue.Linked() && IsSubset(queue.nodes, old(queue.nodes))
    ensures Unlinked(queue.contents, queue.size, queue.Valid(), old(queue.contents), src)
  {
    hide Without, LastHit;
    ghost var m := Walk(queue, queue.head, src);
    queue.Cut(m);
    assert forall i :: 0 < i < |queue.nodes| ==> queue.nodes[i] == old(queue.nodes)[m + i];
  }

  /** What removal comes to when every job is a leading one. */
  lemma {:induction false} NothingLeft(q: seq<Job>, src: string)
    requires Strip(q, src) == []
    ensures Chain(q, src) == [] == Without(q, src) && Hits(q, src) == |q| && RemoveIsExact(q, src)
  {
    WithoutStrip(q, src);
    EmptyIsKept(src);
    RemoveIsFilterExactlyWhen(q, src);
    hide Strip, Without;
  }

  /** And when some other job is left. */
  lemma {:induction false} SomeLeft(q: seq<Job>, src: string)
    requires Strip(q, src) != []
    ensures var s := Strip(q, src);
            var m := LastHit(s, |s|, src);
            && Chain(q, src) == [s[0]] + s[m + 1..]
            && |Without(s, src)| == |q| - Hits(q, src)
            && (RemoveIsExact(q, src) <==> |Without(s, src)| == |s| - m && !(m != 0 && m == |s| - 1))
            && (RemoveIsExact(q, src) ==> Chain(q, src) == Without(q, src))
  {
    RemoveIsFilterExactlyWhen(q, src);
    WithoutStrip(q, src);
    hide Without, RemoveIsExact, LastHit;
  }

  lemma {:induction false} SuffixIsSubset<T>(a: seq<T>, b: seq<T>)
    requires IsSuffix(a, b)
    ensures IsSubset(a, b) && forall i :: 0 <= i < |a| ==> a[i] in b
  {
  }

  lemma {:induction false} SubsetOfItself<T>(a: seq<T>)
    ensures IsSubset(a, a)
  {
  }

  lemma {:induction false} SubsetOfSubset<T>(a: seq<T>, b: seq<T>, c: seq<T>)
    requires IsSubset(a, b) && IsSubset(b, c)
    ensures IsSubset(a, c)
  {
  }

  /** The list that removal leaves: its chain, its size, and whether head, tail and size still agree. */
  ghost predicate Removes(contents: seq<Job>, size: nat, valid: bool, q: seq<Job>, src: string) {
    && contents == Chain(q, src)
    && size == |q| - Hits(q, src)
    && (valid <==> RemoveIsExact(q, src))
    && (RemoveIsExact(q, src) ==> contents == Without(q, src))
  }

  lemma {:induction false} EmptyStrip(src: string)
    ensures Strip([], src) == []
  {
  }

  lemma {:induction false} RemovesAll(q: seq<Job>, src: string)
    requires Strip(q, src) == []
    ensures Removes([], 0, true, q, src)
  {
    NothingLeft(q, src);
    hide Strip, Chain, Without, Hits, RemoveIsExact;
  }

  lemma {:induction false} RemovesSome(contents: seq<Job>, size: nat, valid: bool, q: seq<Job>, src: string)
    requires Unlinked(contents, size, valid, Strip(q, src), src)
    ensures Removes(contents, size, valid, q, src)
  {
    SomeLeft(q, src);
    hide Strip, Chain, Without, Hits, RemoveIsExact, LastHit;
  }

  lemma {:induction false} EmptyMeansZero(queue: Queue<Job>)
    requires queue.Valid()
    ensures queue.Linked() && (queue.size == 0 <==> queue.contents == [])
  {
  }

  lemma {:induction false} HeadIsNode(queue: Queue<Job>)
    requires queue.Valid()
    ensures queue.size != 0 ==> queue.nodes != [] && queue.head == queue.nodes[0]
  {
  }

  /** job_queue_remove_dir: the chain, the size and the tail it leaves, whether or not they still agree. */
  method RemoveDir(queue: Queue<Job>, src: string)
    requires queue.Valid()
    modifies queue, queue.nodes
    ensures queue.Linked() && IsSubset(queue.nodes, old(queue.nodes))
    ensures Removes(queue.contents, queue.size, queue.Valid(), old(queue.contents), src)
  {
    ghost var q, nodes := queue.contents, queue.nodes;
    EmptyStrip(src);
    SubsetOfItself(nodes);
    hide *;
    EmptyMeansZero(queue);
    if queue.size == 0 {
      RemovesAll(q, src);
      return;
    }
    DropLeading(queue, src);
    SuffixIsSubset(queue.nodes, nodes);
    EmptyMeansZero(queue);
    HeadIsNode(queue);
    if queue.size == 0 {
      RemovesAll(q, src);
      return;
    }
    ghost var left := queue.nodes;
    Unlink(queue, src);
    RemovesSome(queue.contents, queue.size, queue.Valid(), q, src);
    SubsetOfSubset(queue.nodes, left, nodes);
  }
}
