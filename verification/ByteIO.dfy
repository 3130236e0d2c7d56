// The loops over short reads and writes of util.c. A descriptor carries a script of what each system call does.
module ByteIO {
  import opened Sequences

  type Byte = b: int | 0 <= b < 256

  const TAB: Byte := 9
  const NEWLINE: Byte := 10
  const SPACE: Byte := 32

  /** What one read or write does: EINTR, another error, or at most n bytes (and at least one, if it can). */
  datatype Outcome = Interrupted | Failed | Moved(n: nat)

  function Min(a: int, b: int): int {
    if a < b then a else b
  }

  /** How many bytes a call moves that is asked for n > 0 where `most` can be moved. */
  function Grant(script: seq<Outcome>, n: nat, most: nat): (k: nat)
    requires script != [] ==> script[0].Moved?
    ensures k <= n && k <= most && (0 < n && 0 < most ==> 0 < k)
  {
    var all := Min(n, most);
    if script == [] || script[0].n >= all then all else if all == 0 then 0 else if script[0].n == 0 then 1 else script[0].n
  }

  /** The buffer with some bytes put at position at. */
  function Patch(buf: seq<Byte>, at: nat, bytes: seq<Byte>): (r: seq<Byte>)
    requires at + |bytes| <= |buf|
    ensures |r| == |buf|
  {
    buf[..at] + bytes + buf[at + |bytes|..]
  }

  lemma {:induction false} GrantAll(n: nat, most: nat)
    ensures Grant([], n, most) == if n < most then n else most
  {
  }

  function Rest<T>(s: seq<T>): seq<T> {
    if s == [] then [] else s[1..]
  }

  lemma {:induction false} PatchMore(buf: seq<Byte>, at: nat, data: seq<Byte>, i: nat)
    requires i < |data| && at + i < |buf|
    ensures Patch(buf, at, data[..i])[at + i := data[i]] == Patch(buf, at, data[..i + 1])
  {
  }

  class Input {
    var data: seq<Byte>        // what is still to be read
    var script: seq<Outcome>

    constructor (data: seq<Byte>, script: seq<Outcome>)
      ensures this.data == data && this.script == script
    {
      this.data, this.script := data, script;
    }

    /** read(2): -1 with or without EINTR, or the number of bytes now at buf[at..]; 0 means the end of the data. */
    method Read(buf: array<Byte>, at: nat, n: nat) returns (r: int, interrupted: bool)
      requires at + n <= buf.Length
      modifies this, buf
      ensures n == 0 ==> r == 0 && script == old(script)
      ensures n != 0 ==> script == Rest(old(script))
      ensures n != 0 && old(script) != [] && !old(script)[0].Moved? ==>
                r == -1 && (interrupted <==> old(script)[0] == Interrupted)
      ensures n != 0 && (old(script) == [] || old(script)[0].Moved?) ==> r == Grant(old(script), n, |old(data)|)
      ensures r <= n && r <= |old(data)|
      ensures r < 0 ==> data == old(data) && buf[..] == old(buf[..])
      ensures r >= 0 ==> data == old(data)[r..] && buf[..] == Patch(old(buf[..]), at, old(data)[..r])
    {
      interrupted := false;
      if n == 0 {
        assert data[..0] == [];
        return 0, false;
      }
      if script != [] && !script[0].Moved? {
        r, interrupted := -1, script[0] == Interrupted;
      } else {
        r := Grant(script, n, |data|);
        assert buf[..] == Patch(buf[..], at, data[..0]);
        for i := 0 to r
          invariant data == old(data) && script == old(script)
          invariant buf[..] == Patch(old(buf[..]), at, data[..i])
        {
          PatchMore(old(buf[..]), at, data, i);
          buf[at + i] := data[i];
        }
        data := data[r..];
      }
      script := Rest(script);
    }
  }

  class Output {
    var written: seq<Byte>
    var script: seq<Outcome>

    constructor (script: seq<Outcome>)
      ensures written == [] && this.script == script
    {
      written, this.script := [], script;
    }

    /** open(2) with O_TRUNC */
    method Truncate()
      modifies this
      ensures written == [] && script == old(script)
    {
      written := [];
    }

    /** write(2) */
    method Write(buf: array<Byte>, at: nat, n: nat) returns (r: int, interrupted: bool)
      requires at + n <= buf.Length
      modifies this
      ensures n == 0 ==> r == 0 && script == old(script)
      ensures n != 0 ==> script == Rest(old(script))
      ensures n != 0 && old(script) != [] && !old(script)[0].Moved? ==>
                r == -1 && (interrupted <==> old(script)[0] == Interrupted)
      ensures n != 0 && (old(script) == [] || old(script)[0].Moved?) ==> r == Grant(old(script), n, n)
      ensures r <= n
      ensures written == if r < 0 then old(written) else old(written) + buf[at..at + r]
    {
      r, interrupted := 0, false;
      if n != 0 {
        if script != [] && !script[0].Moved? {
          r, interrupted := -1, script[0] == Interrupted;
        } else {
          r := Grant(script, n, n);
          written := written + buf[at..at + r];
        }
        script := Rest(script);
      } else {
        assert buf[at..at] == [];
      }
    }
  }

  /** Some call of the script fails for good. */
  predicate Fails(script: seq<Outcome>) {
    exists i :: 0 <= i < |script| && script[i] == Failed
  }

  lemma {:induction false} SuffixStep(a: seq<Outcome>, b: seq<Outcome>)
    requires IsSuffix(a, b)
    ensures |Rest(a)| == (if a == [] then 0 else |a| - 1) && IsSuffix(Rest(a), b) && (Fails(a) ==> Fails(b))
    ensures a != [] && a[0] == Failed ==> Fails(b)
  {
    if a != [] {
      assert a[0] == b[|b| - |a|];
    }
    if Fails(a) {
      var i :| 0 <= i < |a| && a[i] == Failed;
      assert b[|b| - |a| + i] == Failed;
    }
  }

  /** The first m of the bytes that were to be read are in the buffer, and the rest is still to come. */
  predicate Got(buf: seq<Byte>, before: seq<Byte>, data: seq<Byte>, rest: seq<Byte>, m: nat) {
    m <= |data| && m <= |before| && buf == Patch(before, 0, data[..m]) && rest == data[m..]
  }

  lemma {:induction false} GotMore(buf: seq<Byte>, before: seq<Byte>, data: seq<Byte>, rest: seq<Byte>, m: nat, r: nat)
    requires Got(buf, before, data, rest, m) && r <= |rest| && m + r <= |before|
    ensures Got(Patch(buf, m, rest[..r]), before, data, rest[r..], m + r)
  {
    assert data[..m + r] == data[..m] + data[m..][..r];
  }

  lemma {:induction false} GotNothing(buf: seq<Byte>, data: seq<Byte>)
    ensures Got(buf, buf, data, data, 0)
  {
  }

  /**
   * read_bytes: moves exactly the next n bytes, unless a call fails. The caller has to know that n bytes will
   * come: at the end of the data the loop would turn for ever (ReadBytesEndsExactlyWhen).
   */
  method ReadBytes(source: Input, buf: array<Byte>, n: nat) returns (ok: bool, ghost m: nat)
    requires n <= buf.Length && n <= |source.data|
    modifies source, buf
    ensures Got(buf[..], old(buf[..]), old(source.data), source.data, m)
    ensures m <= n && (ok <==> m == n) && (!ok ==> Fails(old(source.script)))
    ensures IsSuffix(source.script, old(source.script))
  {
    hide *;
    var bytesRead, left := 0, n;
    GotNothing(buf[..], source.data);
    SuffixOfItself(source.script);
    while true
      invariant 0 <= bytesRead && bytesRead + left == n && 0 <= left && (0 < left || n == 0)
      invariant Got(buf[..], old(buf[..]), old(source.data), source.data, bytesRead)
      invariant IsSuffix(source.script, old(source.script))
      decreases |source.script|
    {
      SuffixStep(source.script, old(source.script));
      ghost var before, rest := buf[..], source.data;
      GotLengths(before, old(buf[..]), old(source.data), rest, bytesRead);
      GrantAll(left, |rest|);
      var bytes, interrupted := source.Read(buf, bytesRead, left);
      if 0 <= bytes {
        GotMore(before, old(buf[..]), old(source.data), rest, bytesRead, bytes);
      }
      if bytes == left {
        return true, n;
      }
      if bytes < 0 {
        if !interrupted {
          return false, bytesRead;
        }
      } else {
        bytesRead, left := bytesRead + bytes, left - bytes;
      }
    }
  }

  lemma {:induction false} GotLengths(buf: seq<Byte>, before: seq<Byte>, data: seq<Byte>, rest: seq<Byte>, m: nat)
    requires Got(buf, before, data, rest, m)
    ensures |buf| == |before| && m + |rest| == |data|
  {
  }

  lemma {:induction false} SuffixOfItself(s: seq<Outcome>)
    ensures IsSuffix(s, s)
  {
  }

  // ---------- The end of the data ----------

  /** Whether read_bytes' loop, with `left` bytes asked for and `most` to come, ends within some turns. */
  predicate Ends(script: seq<Outcome>, left: nat, most: nat, turns: nat)
    requires !Fails(script)
  {
    if turns == 0 then false
    else if left == 0 then true
    else
      NoFailureLeft(script);
      if script != [] && script[0].Interrupted? then Ends(Rest(script), left, most, turns - 1)
      else
        var bytes := Grant(script, left, most);
        bytes == left || Ends(Rest(script), left - bytes, most - bytes, turns - 1)
  }

  lemma {:induction false} NoFailureLeft(script: seq<Outcome>)
    requires !Fails(script)
    ensures !Fails(Rest(script)) && (script != [] ==> script[0] != Failed)
  {
    if script != [] {
      SuffixOfItself(script);
      SuffixStep(script, script);
    }
  }

  lemma {:induction false} EndsWithEnough(script: seq<Outcome>, left: nat, most: nat)
    requires !Fails(script) && left <= most
    ensures Ends(script, left, most, |script| + 1)
    decreases |script|
  {
    NoFailureLeft(script);
    if script != [] && left != 0 {
      var bytes := if script[0].Interrupted? then 0 else Grant(script, left, most);
      EndsWithEnough(Rest(script), left - bytes, most - bytes);
    }
  }

  lemma {:induction false} NeverEndsWithLess(script: seq<Outcome>, left: nat, most: nat, turns: nat)
    requires !Fails(script) && most < left
    ensures !Ends(script, left, most, turns)
  {
    if turns != 0 {
      NoFailureLeft(script);
      var bytes := if script != [] && script[0].Interrupted? then 0 else Grant(script, left, most);
      NeverEndsWithLess(Rest(script), left - bytes, most - bytes, turns - 1);
    }
  }

  ghost predicate EverEnds(script: seq<Outcome>, n: nat, most: nat)
    requires !Fails(script)
  {
    exists turns: nat :: Ends(script, n, most, turns)
  }

  /** Without a failing call the loop ends exactly when all the bytes asked for are to come. */
  lemma {:induction false} ReadBytesEndsExactlyWhen(script: seq<Outcome>, n: nat, most: nat)
    requires !Fails(script)
    ensures EverEnds(script, n, most) <==> n <= most
  {
    if n <= most {
      EndsWithEnough(script, n, most);
    } else if EverEnds(script, n, most) {
      var turns: nat :| Ends(script, n, most, turns);
      NeverEndsWithLess(script, n, most, turns);
    }
  }

  /** read_eof: the next min(n, remaining) bytes, or -1 when a call fails. */
  method ReadEof(source: Input, buf: array<Byte>, n: nat) returns (r: int)
    requires n <= buf.Length
    modifies source, buf
    ensures r == -1 || r == (if n < |old(source.data)| then n else |old(source.data)|)
    ensures r != -1 ==> Got(buf[..], old(buf[..]), old(source.data), source.data, r)
    ensures r == -1 ==> Fails(old(source.script))
    ensures IsSuffix(source.script, old(source.script))
  {
    hide *;
    r := 0;
    var left := n;
    GotNothing(buf[..], source.data);
    SuffixOfItself(source.script);
    while true
      invariant 0 <= r && r + left == n && 0 <= left
      invariant Got(buf[..], old(buf[..]), old(source.data), source.data, r)
      invariant IsSuffix(source.script, old(source.script))
      decreases |source.script|, left
    {
      SuffixStep(source.script, old(source.script));
      ghost var before, rest := buf[..], source.data;
      GotLengths(before, old(buf[..]), old(source.data), rest, r);
      GrantAll(left, |rest|);
      var bytes, interrupted := source.Read(buf, r, left);
      if 0 <= bytes {
        GotMore(before, old(buf[..]), old(source.data), rest, r, bytes);
      }
      if bytes == 0 {
        return;
      }
      if bytes < 0 {
        if !interrupted {
          return -1;
        }
      } else {
        r, left := r + bytes, left - bytes;
      }
    }
  }

  /** write_bytes: exactly the n bytes of the buffer, in order, unless a call fails. */
  method WriteBytes(target: Output, buf: array<Byte>, n: nat) returns (ok: bool, ghost m: nat)
    requires n <= buf.Length
    modifies target
    ensures m <= n && target.written == old(target.written) + buf[..m]
    ensures (ok <==> m == n) && (!ok ==> Fails(old(target.script)))
    ensures IsSuffix(target.script, old(target.script))
  {
    hide *;
    var written, left := 0, n;
    SuffixOfItself(target.script);
    while true
      invariant 0 <= written && written + left == n && 0 <= left && (0 < left || n == 0)
      invariant target.written == old(target.written) + buf[..written]
      invariant IsSuffix(target.script, old(target.script))
      decreases |target.script|
    {
      SuffixStep(target.script, old(target.script));
      GrantAll(left, left);
      var bytes, interrupted := target.Write(buf, written, left);
      assert 0 <= bytes ==> buf[..written] + buf[written..written + bytes] == buf[..written + bytes];
      if bytes == left {
        return true, n;
      }
      if bytes < 0 {
        if !interrupted {
          return false, written;
        }
      } else {
        written, left := written + bytes, left - bytes;
      }
    }
  }

  // ---------- Copying a file ----------

  datatype Copied = Success | OpenFailed | ReadFailed | WriteFailed

  const BLOCK: nat := 1024

  lemma {:induction false} SuffixOfSuffix(a: seq<Outcome>, b: seq<Outcome>, c: seq<Outcome>)
    requires IsSuffix(a, b) && IsSuffix(b, c)
    ensures IsSuffix(a, c) && (Fails(b) ==> Fails(c))
  {
    if Fails(b) {
      var i :| 0 <= i < |b| && b[i] == Failed;
      assert c[|c| - |b| + i] == Failed;
    }
  }

  /** The first n bytes of data have been written, and the rest of it is still to be read. */
  predicate Sent(base: seq<Byte>, written: seq<Byte>, data: seq<Byte>, rest: seq<Byte>, n: nat) {
    n <= |data| && written == base + data[..n] && rest == data[n..]
  }

  lemma {:induction false} SentNothing(base: seq<Byte>, data: seq<Byte>)
    ensures Sent(base, base, data, data, 0)
  {
  }

  lemma {:induction false} SentMore(base: seq<Byte>, written: seq<Byte>, data: seq<Byte>, now: seq<Byte>, done: nat,
                                    buf: seq<Byte>, before: seq<Byte>, rest: seq<Byte>, n: nat)
    requires Sent(base, written, data, now, done) && Got(buf, before, now, rest, n)
    ensures n <= |buf| && Sent(base, written + buf[..n], data, rest, done + n)
    ensures forall m :: 0 <= m <= n ==> IsPrefix(base, written + buf[..m], data)
  {
    forall m | 0 <= m <= n ensures done + m <= |data| && written + buf[..m] == base + data[..done + m] {
      assert buf[..m] == data[done..][..m];
      assert data[..done] + buf[..m] == data[..done + m];
      assert base + data[..done] + buf[..m] == base + (data[..done] + buf[..m]);
    }
    assert data[done..][n..] == data[done + n..];
  }

  lemma {:induction false} SentAll(base: seq<Byte>, written: seq<Byte>, data: seq<Byte>, rest: seq<Byte>, n: nat)
    requires Sent(base, written, data, rest, n)
    ensures IsPrefix(base, written, data) && n + |rest| == |data|
    ensures rest == [] ==> written == base + data
  {
    if rest == [] {
      assert data[..n] == data;
    }
  }

  /** What was written is the beginning of data. */
  predicate IsPrefix(before: seq<Byte>, after: seq<Byte>, data: seq<Byte>) {
    exists n :: 0 <= n <= |data| && after == before + data[..n]
  }

  /**
   * file_copy; null stands for a file that cannot be opened. The target is emptied once both are open. `nwrite` is
   * what the uninitialised variable of that name holds: it decides what an empty file yields, since no write sets it.
   */
  method FileCopy(source: Input?, target: Output?, nwrite: int) returns (r: Copied)
    modifies source, target
    ensures r == OpenFailed <==> source == null || target == null
    ensures r == OpenFailed ==> (source != null ==> unchanged(source)) && (target != null ==> unchanged(target))
    ensures r != OpenFailed ==> IsPrefix([], target.written, old(source.data))
    ensures r != OpenFailed && !Fails(old(source.script)) && !Fails(old(target.script)) ==>
              target.written == old(source.data) && (r == Success <==> old(source.data) != [] || nwrite >= 0)
    ensures r == Success ==> target.written == old(source.data)
  {
    if source == null || target == null {
      return OpenFailed;
    }
    target.Truncate();
    r := CopyLoop(source, target, nwrite);
    assert forall bytes: seq<Byte> :: [] + bytes == bytes;
  }

  /** The loop of file_copy. */
  method CopyLoop(source: Input, target: Output, nwrite: int) returns (r: Copied)
    modifies source, target
    ensures r != OpenFailed && IsPrefix(old(target.written), target.written, old(source.data))
    ensures !Fails(old(source.script)) && !Fails(old(target.script)) ==>
              && target.written == old(target.written) + old(source.data)
              && (r == Success <==> old(source.data) != [] || nwrite >= 0)
    ensures r == Success ==> target.written == old(target.written) + old(source.data)
  {
    var buf := new Byte[BLOCK];
    assert 0 < buf.Length;
    hide *;
    var done, wrote := 0, nwrite;
    ghost var all, base := source.data, target.written;
    SuffixOfItself(source.script);
    SuffixOfItself(target.script);
    SentNothing(base, all);
    while true
      invariant Sent(base, target.written, all, source.data, done)
      invariant wrote == if done == 0 then nwrite else 0
      invariant IsSuffix(source.script, old(source.script)) && IsSuffix(target.script, old(target.script))
      decreases |source.data|
    {
      ghost var before, now, script, script' := buf[..], source.data, source.script, target.script;
      SentAll(base, target.written, all, now, done);
      var nread := ReadEof(source, buf, buf.Length);
      SuffixOfSuffix(source.script, script, old(source.script));
      if nread < 0 {
        return ReadFailed;
      }
      if nread == 0 {
        break;
      }
      SentMore(base, target.written, all, now, done, buf[..], before, source.data, nread);
      var ok, m := WriteBytes(target, buf, nread);
      SuffixOfSuffix(target.script, script', old(target.script));
      if !ok {
        return WriteFailed;
      }
      done, wrote := done + nread, 0;
      SentAll(base, target.written, all, source.data, done);
    }
    r := if wrote < 0 then WriteFailed else Success;
  }

  // ---------- Words and lines ----------

  /** What ends a word (read_wc) or a line (read_line). */
  predicate Stops(b: Byte, line: bool) {
    b == NEWLINE || (!line && (b == SPACE || b == TAB))
  }

  /** The position of the first byte that ends a word or a line, or the length of the data. */
  function StopAt(data: seq<Byte>, line: bool): (j: nat)
    ensures j <= |data| && (j < |data| ==> Stops(data[j], line))
    ensures forall i :: 0 <= i < j ==> !Stops(data[i], line)
  {
    if data == [] || Stops(data[0], line) then 0 else 1 + StopAt(data[1..], line)
  }

  lemma {:induction false} StopIs(data: seq<Byte>, line: bool, j: nat)
    requires j < |data| && Stops(data[j], line) && forall i :: 0 <= i < j ==> !Stops(data[i], line)
    ensures StopAt(data, line) == j
  {
  }

  /**
   * Whether errno says something else than EINTR, or a call fails, by the time that a read behind `most` more bytes
   * finds the end of the data; `eintr` is what errno says now.
   */
  predicate LeavesAtTheEnd(script: seq<Outcome>, most: nat, eintr: bool) {
    if script == [] then !eintr
    else
      match script[0]
      case Failed => true
      case Interrupted => LeavesAtTheEnd(script[1..], most, true)
      case Moved(_) => if most == 0 then !eintr else LeavesAtTheEnd(script[1..], most - 1, eintr)
  }

  /**
   * Whether the loop of read_line and read_wc ends within some turns: the end of the line or word is `stop` bytes
   * away, `room` bytes fit the buffer, `most` are to come. A read that finds the end of the data leaves errno alone,
   * and the loop repeats it for ever where errno is EINTR.
   */
  predicate ScanEnds(script: seq<Outcome>, stop: nat, room: nat, most: nat, eintr: bool, turns: nat)
    requires stop <= most
  {
    if turns == 0 then false
    else if room == 0 || (script != [] && script[0].Failed?) then true
    else if script != [] && script[0].Interrupted? then ScanEnds(script[1..], stop, room, most, true, turns - 1)
    else if most == 0 then !eintr || ScanEnds(Rest(script), stop, room, most, eintr, turns - 1)
    else stop == 0 || ScanEnds(Rest(script), stop - 1, room - 1, most - 1, eintr, turns - 1)
  }

  lemma {:induction false} ScanEndsInTime(script: seq<Outcome>, stop: nat, room: nat, most: nat, eintr: bool)
    requires stop <= most && (stop < most || room <= most || LeavesAtTheEnd(script, most, eintr))
    ensures ScanEnds(script, stop, room, most, eintr, |script| + most + 1)
    decreases |script| + most
  {
    if room != 0 && !(script != [] && script[0].Failed?) {
      if script != [] && script[0].Interrupted? {
        ScanEndsInTime(script[1..], stop, room, most, true);
      } else if most != 0 && stop != 0 {
        ScanEndsInTime(Rest(script), stop - 1, room - 1, most - 1, eintr);
        ScanEndsLater(Rest(script), stop - 1, room - 1, most - 1, eintr, |Rest(script)| + most, |script| + most);
      }
    }
  }

  lemma {:induction false} ScanEndsLater(script: seq<Outcome>, stop: nat, room: nat, most: nat, eintr: bool,
                                         turns: nat, more: nat)
    requires stop <= most && turns <= more && ScanEnds(script, stop, room, most, eintr, turns)
    ensures ScanEnds(script, stop, room, most, eintr, more)
    decreases turns
  {
    if room != 0 && !(script != [] && script[0].Failed?) {
      if script != [] && script[0].Interrupted? {
        ScanEndsLater(script[1..], stop, room, most, true, turns - 1, more - 1);
      } else if most == 0 {
        if eintr {
          ScanEndsLater(Rest(script), stop, room, most, eintr, turns - 1, more - 1);
        }
      } else if stop != 0 {
        ScanEndsLater(Rest(script), stop - 1, room - 1, most - 1, eintr, turns - 1, more - 1);
      }
    }
  }

  /** A Failed call that comes later than the reads at the end of the data is never reached on the way there. */
  lemma {:induction false} ScanStays(script: seq<Outcome>, stop: nat, room: nat, most: nat, eintr: bool, turns: nat)
    requires stop == most < room && !Fails(script) && !LeavesAtTheEnd(script, most, eintr)
    ensures !ScanEnds(script, stop, room, most, eintr, turns)
    decreases turns
  {
    if turns != 0 {
      NoFailureLeft(script);
      if script != [] && script[0].Interrupted? {
        ScanStays(script[1..], stop, room, most, true, turns - 1);
      } else if most == 0 {
        StaysWithEintr(Rest(script));
        ScanStays(Rest(script), stop, room, most, eintr, turns - 1);
      } else {
        ScanStays(Rest(script), stop - 1, room - 1, most - 1, eintr, turns - 1);
      }
    }
  }

  lemma {:induction false} StaysWithEintr(script: seq<Outcome>)
    requires !Fails(script)
    ensures !LeavesAtTheEnd(script, 0, true)
  {
    NoFailureLeft(script);
    if script != [] && script[0].Interrupted? {
      StaysWithEintr(script[1..]);
    }
  }

  ghost predicate ScanEverEnds(script: seq<Outcome>, stop: nat, room: nat, most: nat, eintr: bool)
    requires stop <= most
  {
    exists turns: nat :: ScanEnds(script, stop, room, most, eintr, turns)
  }

  /**
   * Without a failing call read_line and read_wc end exactly when the end of the line or word comes, or the buffer
   * runs full, or errno is not EINTR when the data ends.
   */
  lemma {:induction false} ScanEndsExactlyWhen(script: seq<Outcome>, stop: nat, room: nat, most: nat, eintr: bool)
    requires stop <= most && !Fails(script)
    ensures ScanEverEnds(script, stop, room, most, eintr)
       <==> stop < most || room <= most || LeavesAtTheEnd(script, most, eintr)
  {
    if stop < most || room <= most || LeavesAtTheEnd(script, most, eintr) {
      ScanEndsInTime(script, stop, room, most, eintr);
    } else if ScanEverEnds(script, stop, room, most, eintr) {
      var turns: nat :| ScanEnds(script, stop, room, most, eintr, turns);
      ScanStays(script, stop, room, most, eintr, turns);
    }
  }

  /**
   * The loop of read_line and read_wc, one byte at a time: the length of the word or line, which is then in the
   * buffer with its end, or -1 when a call fails, the data ends, or no end comes among the first n - 1 bytes.
   * `stale` says whether errno is EINTR from an earlier call.
   */
  method Scan(source: Input, buf: array<Byte>, n: nat, line: bool, stale: bool) returns (r: int)
    requires 0 < n <= buf.Length
    requires
      || StopAt(source.data, line) < |source.data| || n - 1 <= |source.data|
      || LeavesAtTheEnd(source.script, |source.data|, stale)
    modifies source, buf
    ensures r == -1 || r == StopAt(old(source.data), line) < n - 1
    ensures r != -1 ==> r < |old(source.data)| && Got(buf[..], old(buf[..]), old(source.data), source.data, r + 1)
    ensures !Fails(old(source.script)) ==>
              (r != -1 <==> StopAt(old(source.data), line) < |old(source.data)| && StopAt(old(source.data), line) < n - 1)
    ensures IsSuffix(source.script, old(source.script))
  {
    hide Got, IsSuffix, Fails, Patch, Grant, Stops, StopAt, LeavesAtTheEnd;
    ghost var all := source.data;
    GotNothing(buf[..], all);
    SuffixOfItself(source.script);
    var i, eintr := 0, stale;
    while i < n - 1
      invariant 0 <= i <= n - 1 && i <= |all|
      invariant Got(buf[..], old(buf[..]), all, source.data, i)
      invariant i <= StopAt(all, line)
      invariant IsSuffix(source.script, old(source.script))
      invariant StopAt(all, line) < |all| || n - 1 <= |all| || LeavesAtTheEnd(source.script, |all| - i, eintr)
      decreases n - i, |source.script|
    {
      SuffixStep(source.script, old(source.script));
      ghost var before, rest := buf[..], source.data;
      GotLengths(before, old(buf[..]), all, rest, i);
      GrantAll(1, |rest|);
      ScanTurn(source.script, |rest|, eintr);
      var bytes, interrupted := source.Read(buf, i, 1);
      if bytes <= 0 {
        eintr := if bytes < 0 then interrupted else eintr;
        if !eintr {
          return -1;
        }
      } else {
        GotMore(before, old(buf[..]), all, rest, i, bytes);
        GotLast(buf[..], old(buf[..]), all, source.data, i);
        StopNow(all, line, i);
        if Stops(buf[i], line) {
          return i;
        }
        i := i + 1;
      }
    }
    r := -1;
  }

  /** What one read does to the condition. */
  lemma {:induction false} ScanTurn(script: seq<Outcome>, most: nat, eintr: bool)
    ensures var moved := script == [] || script[0].Moved?;
            && (moved ==> Grant(script, 1, most) == if most == 0 then 0 else 1)
            && (LeavesAtTheEnd(script, most, eintr) ==>
                  && (moved && most == 0 ==> !eintr)
                  && (moved && most != 0 ==> LeavesAtTheEnd(Rest(script), most - 1, eintr))
                  && (!moved && script[0].Interrupted? ==> LeavesAtTheEnd(Rest(script), most, true)))
  {
  }

  lemma {:induction false} StopNow(data: seq<Byte>, line: bool, i: nat)
    requires i <= StopAt(data, line) && i < |data|
    ensures StopAt(data, line) == i <==> Stops(data[i], line)
  {
  }

  lemma {:induction false} GotLast(buf: seq<Byte>, before: seq<Byte>, data: seq<Byte>, rest: seq<Byte>, i: nat)
    requires Got(buf, before, data, rest, i + 1)
    ensures i < |data| && i < |buf| && buf[i] == data[i]
    ensures buf[..i] == data[..i] && rest == data[i + 1..]
  {
  }

  lemma {:induction false} SuffixIsAsGood(a: seq<Outcome>, b: seq<Outcome>)
    requires IsSuffix(a, b)
    ensures Fails(a) ==> Fails(b)
  {
    SuffixOfItself(a);
    SuffixOfSuffix(a, a, b);
  }

  /** A 0 behind the first j of n bytes that were read. */
  lemma {:induction false} EndedBy0(buf: seq<Byte>, before: seq<Byte>, data: seq<Byte>, rest: seq<Byte>, n: nat, j: nat)
    requires Got(buf, before, data, rest, n) && j <= n && j < |buf|
    ensures n <= |data| && rest == data[n..] && buf[j := 0][..j] == data[..j]
  {
  }

  /** read_wc: the buffer holds the next word, ended by 0, and the byte behind the word is gone. */
  method ReadWord(source: Input, buf: array<Byte>, n: nat, stale: bool) returns (r: int)
    requires 0 < n <= buf.Length
    requires
      || StopAt(source.data, false) < |source.data| || n - 1 <= |source.data|
      || LeavesAtTheEnd(source.script, |source.data|, stale)
    modifies source, buf
    ensures r == -1 || r == StopAt(old(source.data), false) < n - 1
    ensures r != -1 ==> r < |old(source.data)| && source.data == old(source.data)[r + 1..]
    ensures r != -1 ==> buf[..r] == old(source.data)[..r] && buf[r] == 0
    ensures !Fails(old(source.script)) ==>
              (r != -1 <==> StopAt(old(source.data), false) < |old(source.data)| && StopAt(old(source.data), false) < n - 1)
    ensures !Fails(old(source.script)) ==> !Fails(source.script)
  {
    ghost var before := buf[..];
    hide *;
    r := Scan(source, buf, n, false, stale);
    SuffixIsAsGood(source.script, old(source.script));
    if r != -1 {
      ghost var now := buf[..];
      EndedBy0(now, before, old(source.data), source.data, r + 1, r);
      buf[r] := 0;
      assert buf[..] == now[r := 0] && buf[..r] == buf[..][..r];
    }
  }

  /** read_line: likewise for a line, whose newline stays in front of the 0. */
  method ReadLine(source: Input, buf: array<Byte>, n: nat, stale: bool) returns (r: int)
    requires 0 < n <= buf.Length
    requires
      || StopAt(source.data, true) < |source.data| || n - 1 <= |source.data|
      || LeavesAtTheEnd(source.script, |source.data|, stale)
    modifies source, buf
    ensures r == -1 || r == StopAt(old(source.data), true) < n - 1
    ensures r != -1 ==> r < |old(source.data)| && source.data == old(source.data)[r + 1..]
    ensures r != -1 ==> buf[..r + 1] == old(source.data)[..r + 1] && buf[r + 1] == 0
    ensures !Fails(old(source.script)) ==>
              (r != -1 <==> StopAt(old(source.data), true) < |old(source.data)| && StopAt(old(source.data), true) < n - 1)
    ensures !Fails(old(source.script)) ==> !Fails(source.script)
  {
    ghost var before := buf[..];
    hide *;
    r := Scan(source, buf, n, true, stale);
    SuffixIsAsGood(source.script, old(source.script));
    if r != -1 {
      ghost var now := buf[..];
      EndedBy0(now, before, old(source.data), source.data, r + 1, r + 1);
      buf[r + 1] := 0;
      assert buf[..] == now[r + 1 := 0] && buf[..r + 1] == buf[..][..r + 1];
    }
  }
}
