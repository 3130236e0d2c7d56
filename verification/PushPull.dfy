// The commands of nfs_client.c, and the transfer loop of worker_thread (nfs_manager.c), byte for byte.
module PushPull {
  import opened Sequences
  import opened ByteIO
  import opened Wire
  import opened Transfer

  // ---------- What is said over the connections ----------

  /** The reply to PULL of a file; `message` is the error text behind a negative size. */
  function Reply(file: Option<Content>, message: Content): Content {
    if file.None? || Int32(|file.value|) < 0 then BigEndian(-1) + message
    else BigEndian(Int32(|file.value|)) + [SPACE] + file.value
  }

  /** The PUSH commands for the bytes from `sent` on. */
  function ChunkStreams(path: Path, data: Content, sent: nat): seq<Content>
    requires sent <= |data|
    decreases |data| - sent
  {
    if sent == |data| then []
    else
      var chunk := Chunk(data, sent, CHUNK);
      [Printed(path, |chunk|) + chunk] + ChunkStreams(path, data, sent + |chunk|)
  }

  /** All connections of a transfer: PUSH -1, the chunks, PUSH 0. */
  function Streams(path: Path, data: Content): seq<Content> {
    [Printed(path, -1)] + ChunkStreams(path, data, 0) + [Printed(path, 0)]
  }

  /** What the server makes of the bytes of one connection. */
  function AsConn(stream: Content): Option<Conn> {
    var c := ParsePush(stream);
    if c.None? || c.value.size < -1 || c.value.size > |c.value.payload| then None
    else if c.value.size == -1 then Some(Truncate(c.value.path))
    else Some(Append(c.value.path, c.value.payload[..c.value.size]))
  }

  function AsConns(streams: seq<Content>): Option<seq<Conn>> {
    if streams == [] then Some([])
    else
      var first, rest := AsConn(streams[0]), AsConns(streams[1..]);
      if first.None? || rest.None? then None else Some([first.value] + rest.value)
  }

  // ---------- A whole transfer ----------

  lemma {:induction false} StreamIsConn(path: Path, payload: Content)
    requires OneWord(path) && Fits(path, |payload|)
    ensures AsConn(Printed(path, |payload|) + payload) == Some(Append(path, payload))
  {
    PushRoundTrip(path, |payload|, payload);
    assert payload[..|payload|] == payload;
  }

  lemma {:induction false} TruncateIsConn(path: Path)
    requires OneWord(path) && Fits(path, -1)
    ensures AsConn(Printed(path, -1)) == Some(Truncate(path))
  {
    PushRoundTrip(path, -1, []);
    assert Printed(path, -1) + [] == Printed(path, -1);
  }

  /** Every header of the transfer fits the command buffer. */
  predicate HeadersFit(path: Path) {
    OneWord(path) && forall n :: -1 <= n <= CHUNK ==> Fits(path, n)
  }

  /** One connection in front of others. */
  lemma {:induction false} ConnThenOthers(stream: Content, streams: seq<Content>, c: Conn, conns: seq<Conn>)
    requires AsConn(stream) == Some(c) && AsConns(streams) == Some(conns)
    ensures AsConns([stream] + streams) == Some([c] + conns)
  {
    assert ([stream] + streams)[1..] == streams;
  }

  lemma {:induction false} LastIsConn(path: Path)
    requires HeadersFit(path)
    ensures AsConns([Printed(path, 0)]) == Some([Append(path, [])])
  {
    StreamIsConn(path, []);
    assert Printed(path, 0) + [] == Printed(path, 0);
    assert AsConns([]) == Some([]);
    assert [Printed(path, 0)] == [Printed(path, 0)] + [] && [Append(path, [])] + [] == [Append(path, [])];
    ConnThenOthers(Printed(path, 0), [], Append(path, []), []);
  }

  lemma {:induction false} NoChunkLeft(path: Path, data: Content)
    ensures ChunkStreams(path, data, |data|) == [] && ChunkConns(path, data, |data|) == [Append(path, [])]
  {
  }

  lemma {:induction false} NextChunk(path: Path, data: Content, sent: nat)
    requires sent < |data| && HeadersFit(path)
    ensures var chunk := Chunk(data, sent, CHUNK);
            && 0 < |chunk| && sent + |chunk| <= |data| && OneWord(path) && Fits(path, |chunk|)
            && ChunkStreams(path, data, sent)
                 == [Printed(path, |chunk|) + chunk] + ChunkStreams(path, data, sent + |chunk|)
            && ChunkConns(path, data, sent) == [Append(path, chunk)] + ChunkConns(path, data, sent + |chunk|)
  {
    ChunkExtends(data, sent, CHUNK);
    hide Printed, Chunk, Fits, OneWord;
  }

  lemma {:induction false} ChunksAreConns(path: Path, data: Content, sent: nat)
    requires sent <= |data| && HeadersFit(path)
    ensures AsConns(ChunkStreams(path, data, sent) + [Printed(path, 0)]) == Some(ChunkConns(path, data, sent))
    decreases |data| - sent
  {
    hide *;
    if sent == |data| {
      NoChunkLeft(path, data);
      LastIsConn(path);
      assert [] + [Printed(path, 0)] == [Printed(path, 0)];
    } else {
      var chunk := Chunk(data, sent, CHUNK);
      NextChunk(path, data, sent);
      StreamIsConn(path, chunk);
      ChunksAreConns(path, data, sent + |chunk|);
      ConsConcat(Printed(path, |chunk|) + chunk, ChunkStreams(path, data, sent + |chunk|), [Printed(path, 0)]);
      ConnThenOthers(Printed(path, |chunk|) + chunk, ChunkStreams(path, data, sent + |chunk|) + [Printed(path, 0)],
                     Append(path, chunk), ChunkConns(path, data, sent + |chunk|));
    }
  }

  /** The bytes of a transfer's connections are the connections that the machine's worker opens. */
  lemma {:induction false} StreamsAreConns(path: Path, data: Content)
    requires HeadersFit(path)
    ensures AsConns(Streams(path, data)) == Some(WorkerConns(path, data))
  {
    TruncateIsConn(path);
    ChunksAreConns(path, data, 0);
    ConsConcat(Printed(path, -1), ChunkStreams(path, data, 0), [Printed(path, 0)]);
    hide ChunkStreams, ChunkConns, Printed, AsConn, AsConns, Fits;
    ConnThenOthers(Printed(path, -1), ChunkStreams(path, data, 0) + [Printed(path, 0)], Truncate(path),
                   ChunkConns(path, data, 0));
  }

  lemma {:induction false} ConsDrains(file: Option<Content>, c: Conn, conns: seq<Conn>, path: Path)
    ensures Drain(file, [c] + conns, path) == Drain(Apply(file, c, path), conns, path)
  {
    DrainHead(file, [c] + conns, path);
    assert ([c] + conns)[1..] == conns;
  }

  /** The chunks bring the rest of the file. */
  lemma {:induction false} ChunksDeliver(path: Path, data: Content, sent: nat)
    requires sent <= |data|
    ensures Drain(Some(data[..sent]), ChunkConns(path, data, sent), path) == Some(data)
    decreases |data| - sent
  {
    if sent == |data| {
      ConsDrains(Some(data[..sent]), Append(path, []), [], path);
      assert [Append(path, [])] + [] == [Append(path, [])] && data[..sent] + [] == data;
    } else {
      var chunk := Chunk(data, sent, CHUNK);
      ChunkExtends(data, sent, CHUNK);
      ChunksDeliver(path, data, sent + |chunk|);
      hide Chunk;
      ConsDrains(Some(data[..sent]), Append(path, chunk), ChunkConns(path, data, sent + |chunk|), path);
    }
  }

  lemma {:induction false} ConsConcat<T>(x: T, a: seq<T>, b: seq<T>)
    ensures ([x] + a) + b == [x] + (a + b)
  {
  }

  /** The connections of a transfer make the target what the worker had to send, whatever was there before. */
  lemma {:induction false} StreamsDeliver(path: Path, data: Content, before: Option<Content>)
    requires HeadersFit(path)
    ensures var conns := AsConns(Streams(path, data)); conns.Some? && Drain(before, conns.value, path) == Some(data)
  {
    hide Streams, AsConns, HeadersFit, Drain;
    StreamsAreConns(path, data);
    ConsDrains(before, Truncate(path), ChunkConns(path, data, 0), path);
    ChunksDeliver(path, data, 0);
    assert data[..0] == [];
  }

  /** Names within the limits of the config file and of LIST, without white space, fit. */
  lemma {:induction false} NamesFit(dir: Content, file: Content)
    requires |dir| < DIR_SIZE && |file| < FILE_SIZE - 1 && OneWord(dir) && OneWord(file)
    ensures HeadersFit(dir + [47] + file)
  {
    forall n | -1 <= n <= CHUNK ensures Fits(dir + [47] + file, n) {
      ChunkHeadersFit(dir, file, n);
    }
  }

  // ---------- The client's commands ----------

  lemma {:induction false} GotAll(buf: Content, before: Content, data: Content, rest: Content, n: nat)
    requires Got(buf, before, data, rest, n)
    ensures n <= |data| && n <= |buf| && buf[..n] == data[..n] && rest == data[n..]
  {
  }

  /** The first `done` bytes of the payload are in the file, and the rest is still to come. */
  predicate Grown(now: map<Path, Content>, was: map<Path, Content>, path: Path, all: Content, done: nat, rest: Content) {
    path in was && done <= |all| && rest == all[done..] && now == was[path := was[path] + all[..done]]
  }

  lemma {:induction false} GrownNone(was: map<Path, Content>, path: Path, all: Content)
    requires path in was
    ensures Grown(was, was, path, all, 0, all)
  {
    assert all[..0] == [] && was[path] + [] == was[path] && all[0..] == all;
  }

  lemma {:induction false} GrownMore(now: map<Path, Content>, was: map<Path, Content>, path: Path, all: Content, done: nat,
                                     rest: Content, buf: Content, before: Content, after: Content, n: nat)
    requires Grown(now, was, path, all, done, rest) && Got(buf, before, rest, after, n)
    ensures path in now && n <= |buf|
    ensures Grown(now[path := now[path] + buf[..n]], was, path, all, done + n, after)
  {
    GotAll(buf, before, rest, after, n);
    hide Got;
    SplitAt(all, done, n);
    AppendTwice(was[path], all[..done], buf[..n]);
  }

  lemma {:induction false} SplitAt(all: Content, done: nat, n: nat)
    requires done + n <= |all|
    ensures all[..done] + all[done..][..n] == all[..done + n] && all[done..][n..] == all[done + n..]
  {
  }

  lemma {:induction false} AppendTwice(a: Content, b: Content, c: Content)
    ensures (a + b) + c == a + (b + c)
  {
  }

  lemma {:induction false} GrownAll(now: map<Path, Content>, was: map<Path, Content>, path: Path, all: Content, done: nat,
                                    rest: Content)
    requires Grown(now, was, path, all, done, rest)
    ensures path in was && done <= |all| && rest == all[done..] && now == was[path := was[path] + all[..done]]
  {
  }

  /** A directory's entries without the ones that command_list skips; an entry without an inode number is none. */
  function Shown(entries: seq<(nat, Content)>): seq<Content> {
    if entries == [] then []
    else
      var (inode, name) := entries[|entries| - 1];
      Shown(entries[..|entries| - 1]) + if inode == 0 || name == [DOT] || name == [DOT, DOT] then [] else [name]
  }

  function Lines(names: seq<Content>): Content {
    if names == [] then [] else Lines(names[..|names| - 1]) + names[|names| - 1] + [NEWLINE]
  }

  lemma {:induction false} LinesAreListing(names: seq<Content>, tail: seq<Content>)
    ensures Lines(names) + Listing(tail) == Listing(names + tail)
  {
    if names == [] {
      assert names + tail == tail;
    } else {
      var init, last := names[..|names| - 1], names[|names| - 1];
      LinesAreListing(init, [last] + tail);
      assert names + tail == init + ([last] + tail) && ([last] + tail)[1..] == tail;
      assert Lines(names) + Listing(tail) == Lines(init) + (last + [NEWLINE] + Listing(tail));
    }
  }

  /** Writes some bytes that are already in memory. */
  method WriteAll(target: Output, bytes: Content)
    requires !Fails(target.script)
    modifies target
    ensures !Fails(target.script) && target.written == old(target.written) + bytes
  {
    var buf := new Byte[|bytes|](i requires 0 <= i < |bytes| => bytes[i]);
    assert buf[..] == bytes;
    var ok, m := WriteBytes(target, buf, buf.Length);
    SuffixOfSuffix(target.script, old(target.script), old(target.script)) by {
      SuffixOfItself(old(target.script));
    }
    assert buf[..buf.Length] == bytes;
  }

  /** The word at the head of a stream, as read_wc finds it. */
  predicate Found(s: Content, word: Content, rest: Content) {
    var j := StopAt(s, false); j < |s| && j < WORD_LIMIT && s[..j] == word && s[j + 1..] == rest
  }

  /** A PUSH is three words and the payload. */
  lemma {:induction false} PushWords(s: Content) returns (c: Command, s1: Content, s2: Content, digits: Content)
    requires AsConn(s).Some?
    ensures ParsePush(s) == Some(c) && -1 <= c.size <= |c.payload|
    ensures Found(s, PUSH, s1) && Found(s1, c.path, s2) && Found(s2, digits, c.payload) && Atoi(digits) == c.size
  {
    c := ParsePush(s).value;
    s1 := Word(s).value.1;
    s2 := Word(s1).value.1;
    digits := Word(s2).value.0;
  }

  /** One word of the connection. */
  method TakeWord(sock: Input, buf: array<Byte>, ghost expected: Content, ghost rest: Content) returns (word: Content)
    requires buf.Length == WORD_LIMIT + 1 && Found(sock.data, expected, rest) && !Fails(sock.script)
    modifies sock, buf
    ensures word == expected && sock.data == rest && !Fails(sock.script)
  {
    hide Fails, StopAt, LeavesAtTheEnd;
    var stale := *;
    var n := ReadWord(sock, buf, buf.Length, stale);
    word := buf[..n];
  }

  /** What command_push does with a PUSH is what the connection stands for. */
  lemma {:induction false} PushIsApply(s: Content, files: map<Path, Content>, refused: set<Path>)
    requires AsConn(s).Some?
    ensures var c, conn := ParsePush(s).value, AsConn(s).value;
            var after := if c.path in refused then files
                         else if c.size == -1 then files[c.path := []]
                         else if c.path !in files then files
                         else files[c.path := files[c.path] + c.payload[..c.size]];
            forall path :: Get(after, path)
              == if path in refused then Get(files, path) else Apply(Get(files, path), conn, path)
  {
  }

  class Host {
    var files: map<Path, Content>
    const refused: set<Path>    // paths that cannot be opened for writing

    constructor (files: map<Path, Content>, refused: set<Path>)
      ensures this.files == files && this.refused == refused
    {
      this.files, this.refused := files, refused;
    }

    /**
     * command_push: truncates, or appends the next `size` bytes of the connection in pieces of 1024; a path that
     * cannot be opened stays as it is, and the payload is then not read.
     */
    method CommandPush(path: Path, size: int, sock: Input) returns (r: int)
      requires -1 <= size <= |sock.data| && !Fails(sock.script)
      modifies this, sock
      ensures path in refused || (size != -1 && path !in old(files)) ==>
                files == old(files) && sock.data == old(sock.data) && r == -1
      ensures path !in refused && size == -1 ==> files == old(files)[path := []] && r == 0
      ensures path !in refused && size != -1 && path in old(files) ==>
                && files == old(files)[path := old(files)[path] + old(sock.data)[..size]]
                && sock.data == old(sock.data)[size..] && r == 0
    {
      if size == -1 {
        if path in refused {
          return -1;
        }
        files := files[path := []];
        return 0;
      }
      if path !in files || path in refused {
        return -1;
      }
      var buf := new Byte[PIECE];
      var left, toRead := size, if size < PIECE then size else PIECE;
      ghost var all, done := sock.data, 0;
      GrownNone(files, path, all);
      SuffixOfItself(sock.script);
      hide *;
      while left != 0
        invariant 0 <= left && done + left == size && toRead == (if left < buf.Length then left else buf.Length)
        invariant Grown(files, old(files), path, all, done, sock.data) && |sock.data| == |all| - done
        invariant !Fails(sock.script)
        decreases left
      {
        ghost var before, rest, script := buf[..], sock.data, sock.script;
        var ok, m := ReadBytes(sock, buf, toRead);
        SuffixIsAsGood(sock.script, script);
        GrownMore(files, old(files), path, all, done, rest, buf[..], before, sock.data, toRead);
        GotAll(buf[..], before, rest, sock.data, toRead);
        assert buf[..][..toRead] == buf[..toRead];
        files := files[path := files[path] + buf[..toRead]];
        done := done + toRead;
        left := left - toRead;
        toRead := if left < buf.Length then left else buf.Length;
      }
      GrownAll(files, old(files), path, all, done, sock.data);
      r := 0;
    }

    /** main and execute_command for a PUSH: what the bytes of the connection say happens to the files. */
    method ExecutePush(sock: Input) returns (r: int)
      requires !Fails(sock.script) && AsConn(sock.data).Some?
      modifies this, sock
      ensures forall path :: Get(files, path)
                == if path in refused then Get(old(files), path)
                   else Apply(Get(old(files), path), AsConn(old(sock.data)).value, path)
    {
      var buf := new Byte[WORD_LIMIT + 1];
      ghost var c, s1, s2, digits := PushWords(sock.data);
      PushIsApply(sock.data, files, refused);
      assert buf.Length == WORD_LIMIT + 1;
      hide *;
      var command := TakeWord(sock, buf, PUSH, s1);
      if command != PUSH {
        return -1;
      }
      var path := TakeWord(sock, buf, c.path, s2);
      var size := TakeWord(sock, buf, digits, c.payload);
      r := CommandPush(path, Atoi(size), sock);
    }

    /**
     * command_pull: the size, a blank and the file, or -1 and an error text when there is no such file or its size
     * does not fit an int32_t as a nonnegative number.
     */
    method CommandPull(path: Path, script: seq<Outcome>, message: Content, sock: Output) returns (r: int)
      requires !Fails(script) && !Fails(sock.script)
      modifies sock
      ensures sock.written == old(sock.written) + Reply(Get(files, path), message)
      ensures r == 0 <==> path in files && Int32(|files[path]|) >= 0
    {
      var size: int := if path in files then Int32(|files[path]|) else -1;
      if size < 0 {
        WriteAll(sock, BigEndian(-1));
        WriteAll(sock, message);
        return -1;
      }
      var file := new Input(files[path], script);
      WriteAll(sock, BigEndian(size));
      WriteAll(sock, [SPACE]);
      SendFile(file, sock);
      r := 0;
    }

    /** command_list for a directory with these entries. */
    method CommandList(entries: seq<(nat, Content)>, sock: Output)
      requires !Fails(sock.script)
      modifies sock
      ensures sock.written == old(sock.written) + Listing(Shown(entries))
    {
      ghost var base := sock.written;
      NoEntries(entries);
      AllEntries(entries);
      hide Shown, Lines, Listing, Fails;
      assert base + [] == base;
      for i := 0 to |entries|
        invariant !Fails(sock.script) && sock.written == base + Lines(Shown(entries[..i]))
      {
        var (inode, name) := entries[i];
        EntryStep(entries, i);
        if inode == 0 || name == [DOT] || name == [DOT, DOT] {
          continue;
        }
        WriteAll(sock, name);
        WriteAll(sock, [NEWLINE]);
        Regroup(base, Lines(Shown(entries[..i])), name, [NEWLINE]);
      }
      WriteAll(sock, [DOT, NEWLINE]);
      assert base + Lines(Shown(entries)) + [DOT, NEWLINE] == base + (Lines(Shown(entries)) + [DOT, NEWLINE]);
    }
  }

  lemma {:induction false} Regroup(a: Content, b: Content, c: Content, d: Content)
    ensures a + b + c + d == a + (b + c + d)
  {
  }

  lemma {:induction false} NoEntries(entries: seq<(nat, Content)>)
    ensures Lines(Shown(entries[..0])) == []
  {
  }

  lemma {:induction false} AllEntries(entries: seq<(nat, Content)>)
    ensures entries[..|entries|] == entries
    ensures Lines(Shown(entries)) + [DOT, NEWLINE] == Listing(Shown(entries))
  {
    LinesAreListing(Shown(entries), []);
    assert Shown(entries) + [] == Shown(entries);
  }

  lemma {:induction false} EntryStep(entries: seq<(nat, Content)>, i: nat)
    requires i < |entries|
    ensures var (inode, name) := entries[i];
            var before := Lines(Shown(entries[..i]));
            Lines(Shown(entries[..i + 1]))
              == if inode == 0 || name == [DOT] || name == [DOT, DOT] then before else before + name + [NEWLINE]
  {
    var (inode, name) := entries[i];
    assert entries[..i + 1][..i] == entries[..i];
    LinesAppend(Shown(entries[..i]), name);
    assert Shown(entries[..i]) + [] == Shown(entries[..i]);
  }

  lemma {:induction false} LinesAppend(names: seq<Content>, name: Content)
    ensures Lines(names + [name]) == Lines(names) + name + [NEWLINE]
  {
    assert (names + [name])[..|names|] == names;
  }

  /** The copy loop of command_pull. */
  method SendFile(file: Input, sock: Output)
    requires !Fails(file.script) && !Fails(sock.script)
    modifies file, sock
    ensures sock.written == old(sock.written) + old(file.data)
  {
    var buf := new Byte[PIECE];
    assert 0 < buf.Length;
    hide *;
    ghost var all, base, done := file.data, sock.written, 0;
    SentNothing(base, all);
    while true
      invariant Sent(base, sock.written, all, file.data, done) && !Fails(file.script) && !Fails(sock.script)
      decreases |file.data|
    {
      ghost var before, now, script, script' := buf[..], file.data, file.script, sock.script;
      SentAll(base, sock.written, all, now, done);
      var nread := ReadEof(file, buf, buf.Length);
      if nread <= 0 {
        break;
      }
      StillGood(file.script, script);
      SentMore(base, sock.written, all, now, done, buf[..], before, file.data, nread);
      var ok, m := WriteBytes(sock, buf, nread);
      StillGood(sock.script, script');
      done := done + nread;
      SentAll(base, sock.written, all, file.data, done);
    }
  }

  lemma {:induction false} StillGood(a: seq<Outcome>, b: seq<Outcome>)
    requires IsSuffix(a, b) && !Fails(b)
    ensures !Fails(a)
  {
    SuffixOfItself(a);
    SuffixOfSuffix(a, a, b);
  }

  // ---------- The worker's side ----------

  lemma {:induction false} ChunkRead(all: Content, done: nat, buf: Content, before: Content, now: Content, rest: Content,
                                     size: nat, n: nat)
    requires done <= size <= |all| && now == all[done..] && Got(buf, before, now, rest, n)
    requires n == if size - done < CHUNK then size - done else CHUNK
    ensures n <= |buf| && rest == all[done + n..] && buf[..n] == Chunk(all[..size], done, CHUNK)
  {
    GotAll(buf, before, now, rest, n);
    hide Got;
    assert all[done..][..n] == all[done..done + n] == all[..size][done..done + n] && all[done..][n..] == all[done + n..];
    assert n == size - done ==> all[..size][done..] == all[..size][done..done + n];
  }

  /** Where the transfer loop stands: it has opened `streams` and the chunks from `done` on are still to come. */
  predicate PushedTo(path: Path, data: Content, done: nat, streams: seq<Content>) {
    done <= |data| && streams + ChunkStreams(path, data, done) + [Printed(path, 0)] == Streams(path, data)
  }

  lemma {:induction false} PushedNone(path: Path, data: Content)
    ensures PushedTo(path, data, 0, [Printed(path, -1)])
  {
  }

  lemma {:induction false} PushedOne(path: Path, data: Content, done: nat, streams: seq<Content>)
    requires done < |data| && PushedTo(path, data, done, streams)
    ensures var chunk := Chunk(data, done, CHUNK);
            0 < |chunk| <= |data| - done && PushedTo(path, data, done + |chunk|, streams + [Printed(path, |chunk|) + chunk])
  {
    ChunkExtends(data, done, CHUNK);
    hide Printed, Streams;
    var chunk := Chunk(data, done, CHUNK);
    assert streams + [Printed(path, |chunk|) + chunk] + ChunkStreams(path, data, done + |chunk|)
        == streams + ([Printed(path, |chunk|) + chunk] + ChunkStreams(path, data, done + |chunk|));
  }

  lemma {:induction false} PushedAll(path: Path, data: Content, streams: seq<Content>)
    requires PushedTo(path, data, |data|, streams)
    ensures streams + [Printed(path, 0)] == Streams(path, data)
  {
    hide Printed, Streams;
    assert streams + [] == streams;
  }

  /** What one connection of the worker carries: the header, and the bytes of the buffer behind it. */
  method Connection(path: Path, n: int, buf: array<Byte>, used: nat) returns (stream: Content)
    requires used <= buf.Length
    ensures stream == Printed(path, n) + buf[..used] && (used == 0 ==> stream == Printed(path, n))
  {
    stream := Printed(path, n) + buf[..used];
  }

  /** One turn of the transfer loop: a chunk is read from the source and sent. */
  method PushChunk(path: Path, sock: Input, buf: array<Byte>, toRead: nat, ghost all: Content, ghost done: nat,
                   ghost size: nat)
    returns (stream: Content)
    requires buf.Length == CHUNK && done < size <= |all| && sock.data == all[done..] && !Fails(sock.script)
    requires toRead == if size - done < CHUNK then size - done else CHUNK
    modifies sock, buf
    ensures !Fails(sock.script) && sock.data == all[done + toRead..]
    ensures var chunk := Chunk(all[..size], done, CHUNK); |chunk| == toRead && stream == Printed(path, toRead) + chunk
  {
    ghost var before, now, script := buf[..], sock.data, sock.script;
    hide Printed, Fails, IsSuffix, Patch, Chunk, Got;
    var ok, m := ReadBytes(sock, buf, toRead);
    StillGood(sock.script, script);
    ChunkRead(all, done, buf[..], before, now, sock.data, size, toRead);
    stream := Connection(path, toRead, buf, toRead);
    assert buf[..][..toRead] == buf[..toRead];
  }

  /**
   * worker_thread from the first PUSH on, where every connection comes about: the bytes of each connection in
   * turn, for a file of `size` bytes that come over the source's connection.
   */
  method PushFile(path: Path, size: nat, sock: Input) returns (streams: seq<Content>)
    requires size <= |sock.data| && !Fails(sock.script)
    modifies sock
    ensures streams == Streams(path, old(sock.data)[..size])
  {
    var buf := new Byte[CHUNK];
    ghost var all, data := sock.data, sock.data[..size];
    assert all[0..] == all && buf.Length == CHUNK;
    hide *;
    var first := Connection(path, -1, buf, 0);
    var left, toRead := size, if size < CHUNK then size else CHUNK;
    streams := [first];
    ghost var done := 0;
    PushedNone(path, data);
    while left != 0
      invariant 0 <= left && done + left == size && toRead == (if left < CHUNK then left else CHUNK)
      invariant sock.data == all[done..] && !Fails(sock.script)
      invariant PushedTo(path, data, done, streams)
      decreases left
    {
      var stream := PushChunk(path, sock, buf, toRead, all, done, size);
      PushedOne(path, data, done, streams);
      streams := streams + [stream];
      done := done + toRead;
      left := left - toRead;
      toRead := if left < CHUNK then left else CHUNK;
    }
    var last := Connection(path, 0, buf, 0);
    PushedAll(path, data, streams);
    streams := streams + [last];
  }

  /** What the worker finds in the reply to its PULL. */
  lemma {:induction false} ReplyParts(file: Option<Content>, message: Content)
    requires message != []
    ensures var reply, size := Reply(file, message), if file.None? then -1 else Int32(|file.value|);
            && 4 < |reply| && (FromBigEndian(reply[..4]) >= 0 <==> size >= 0)
            && (size >= 0 ==> FromBigEndian(reply[..4]) == size <= |file.value| && reply[5..] == file.value
                              && file.value[..size] == Data(file.value) && Pulled(file.value).Some?)
            && (size < 0 && file.Some? ==> Pulled(file.value).None?)
  {
    var reply, size := Reply(file, message), if file.None? then -1 else Int32(|file.value|);
    SizeRoundTrip(if size < 0 then -1 else size);
    assert reply[..4] == BigEndian(if size < 0 then -1 else size);
    if file.Some? {
      SizeRoundTrip(|file.value|);
      SizeFits(|file.value|);
      assert size >= 0 ==> reply[5..] == file.value;
    }
  }

  /** worker_thread behind its PULL: nothing is pushed on an error, and the pulled bytes are otherwise. */
  method PullAndPush(path: Path, sock: Input, ghost file: Option<Content>, ghost message: Content)
    returns (streams: seq<Content>)
    requires message != [] && sock.data == Reply(file, message) && !Fails(sock.script)
    modifies sock
    ensures streams == if file.None? || Pulled(file.value).None? then [] else Streams(path, Data(file.value))
  {
    ghost var all, script := sock.data, sock.script;
    ReplyParts(file, message);
    var buf := new Byte[CHUNK];
    assert buf.Length == CHUNK;
    hide Reply, Data, Pulled, Int32, FromBigEndian, Fails, IsSuffix, Streams;
    ghost var before := buf[..];
    var ok, m := ReadBytes(sock, buf, 4);
    StillGood(sock.script, script);
    GotAll(buf[..], before, all, sock.data, 4);
    assert buf[..][..4] == buf[..4];
    var size := FromBigEndian(buf[..4]);
    ghost var now, script' := sock.data, sock.script;
    before := buf[..];
    ok, m := ReadBytes(sock, buf, 1);
    StillGood(sock.script, script');
    GotAll(buf[..], before, now, sock.data, 1);
    assert all[4..][1..] == all[5..];
    if size < 0 {
      return [];
    }
    streams := PushFile(path, size, sock);
  }

  /**
   * One transfer from end to end: the connections that PullAndPush opens make the target what was pulled, whatever
   * it was before, and that is the source file exactly when the file is smaller than 2 GiB.
   */
  lemma {:induction false} WholeTransfer(path: Path, file: Content, before: Option<Content>)
    requires HeadersFit(path) && Pulled(file).Some?
    ensures var conns := AsConns(Streams(path, Data(file)));
            && conns.Some? && Drain(before, conns.value, path) == Some(Data(file))
            && (Drain(before, conns.value, path) == Some(file) <==> |file| < TWO_31)
  {
    hide Streams, Drain, AsConns;
    StreamsDeliver(path, Data(file), before);
    PulledWholeExactlyWhen(file);
  }

  /** So for every pair of names that the config file and LIST can bring in and that have no white space. */
  lemma {:induction false} NamesTransfer(dir: Content, name: Content, file: Content, before: Option<Content>)
    requires |dir| < DIR_SIZE && |name| < FILE_SIZE - 1 && OneWord(dir) && OneWord(name) && |file| < TWO_31
    ensures var path := dir + [47] + name;
            var conns := AsConns(Streams(path, Data(file)));
            conns.Some? && Drain(before, conns.value, path) == Some(file)
  {
    NamesFit(dir, name);
    PulledWholeExactlyWhen(file);
    hide Streams, Drain, AsConns, HeadersFit;
    WholeTransfer(dir + [47] + name, file, before);
  }

  // ---------- The producer's side ----------

  /** Where the loop stands that reads `all`: it has `names` and a line, and the rest is to come. */
  predicate Reading(all: (seq<Content>, Content), names: seq<Content>, line: Content, rest: Content) {
    if line == [DOT] then all == (names, rest) else ToCome(all, names + [line], rest)
  }

  predicate ToCome(all: (seq<Content>, Content), names: seq<Content>, rest: Content) {
    ReadNames(rest).Some? && all == (names + ReadNames(rest).value.0, ReadNames(rest).value.1)
  }

  lemma {:induction false} NextName(all: (seq<Content>, Content), names: seq<Content>, s: Content)
    requires ToCome(all, names, s)
    ensures var j := StopAt(s, true); j < |s| && j < FILE_SIZE - 1 && Reading(all, names, s[..j], s[j + 1..])
  {
    var j := StopAt(s, true);
    if s[..j] == [DOT] {
      assert names + [] == names;
    } else {
      var more := ReadNames(s[j + 1..]).value;
      assert names + ([s[..j]] + more.0) == (names + [s[..j]]) + more.0;
    }
  }

  lemma {:induction false} AllToCome(s: Content)
    requires ReadNames(s).Some?
    ensures ToCome(ReadNames(s).value, [], s)
  {
    assert [] + ReadNames(s).value.0 == ReadNames(s).value.0;
  }

  /** The loops over a LIST reply in nfs_read_config_file and nfs_connect_to_console: the names up to the dot. */
  method ReadListing(sock: Input) returns (names: seq<Content>)
    requires ReadNames(sock.data).Some? && !Fails(sock.script)
    modifies sock
    ensures (names, sock.data) == ReadNames(old(sock.data)).value
  {
    var buf := new Byte[FILE_SIZE];
    ghost var all := ReadNames(sock.data).value;
    names := [];
    AllToCome(sock.data);
    assert buf.Length == FILE_SIZE;
    var file := ReadName(sock, buf, all, names);
    while file != [DOT]
      invariant !Fails(sock.script) && Reading(all, names, file, sock.data)
      decreases |sock.data|, file != [DOT]
    {
      names := names + [file];
      file := ReadName(sock, buf, all, names);
    }
  }

  /** One line of the reply without its newline. */
  method ReadName(sock: Input, buf: array<Byte>, ghost all: (seq<Content>, Content), ghost names: seq<Content>)
    returns (file: Content)
    requires buf.Length == FILE_SIZE && ToCome(all, names, sock.data) && !Fails(sock.script)
    modifies sock, buf
    ensures !Fails(sock.script) && Reading(all, names, file, sock.data) && |sock.data| < |old(sock.data)|
  {
    NextName(all, names, sock.data);
    hide ReadNames, StopAt, Fails, Reading, ToCome, LeavesAtTheEnd;
    var stale := *;
    var n := ReadLine(sock, buf, buf.Length, stale);
    file := buf[..n];
    assert file == buf[..n + 1][..n] == old(sock.data)[..n + 1][..n] == old(sock.data)[..n];
  }
}
