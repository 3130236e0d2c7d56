// Chunked transfer to one target host: worker threads open a connection for each PUSH, and nfs_client serves the
// connections one after the other.
module Transfer {
  import opened ByteIO
  import opened Wire

  type Path = seq<Byte>
  type Content = seq<Byte>

  const CHUNK: nat := 4096
  const PIECE: nat := 1024

  // ---------- What a PULL delivers ----------

  /**
   * The bytes a worker reads from the source: as many as the size header says. The header holds the size reduced
   * to an int32_t; a negative one means an error, and nothing is pushed.
   */
  function Pulled(file: Content): Option<Content> {
    var size := FromBigEndian(BigEndian(|file|));
    if size < 0 then None
    else
      SizeFits(|file|);
      Some(file[..size])
  }

  function Data(file: Content): Content {
    if Pulled(file).None? then [] else Pulled(file).value
  }

  lemma {:induction false} SizeFits(n: nat)
    ensures FromBigEndian(BigEndian(n)) <= n
    ensures FromBigEndian(BigEndian(n)) == n <==> n < TWO_31
  {
    SizeRoundTrip(n);
  }

  /** A file is pulled whole exactly when it is smaller than 2 GiB. */
  lemma {:induction false} PulledWholeExactlyWhen(file: Content)
    ensures Pulled(file) == Some(file) <==> |file| < TWO_31
  {
    SizeFits(|file|);
    if Pulled(file).Some? {
      assert |Pulled(file).value| == FromBigEndian(BigEndian(|file|));
    }
    assert file[..|file|] == file;
  }

  // ---------- The machine ----------

  /** One connection: PUSH -1, or PUSH n with its payload. */
  datatype Conn = Truncate(path: Path) | Append(path: Path, payload: Content)

  /** A worker that pushes pulls `file` and has sent the first `sent` bytes of what it pulls. */
  datatype Worker = Free | Connecting(path: Path, file: Content) | Pushing(path: Path, file: Content, sent: nat)

  /** What has been sent for a path since its latest PUSH -1: the bytes, the source file and the worker of that PUSH,
      and how many of the bytes came from other workers. */
  datatype Sending = Sending(bytes: Content, file: Content, owner: nat, foreign: nat)

  /** The host's files, the connections it has still to serve, the workers; and what was sent for each path. */
  datatype State = State(
    files: map<Path, Content>,
    conns: seq<Conn>,
    workers: seq<Worker>,
    sent: map<Path, Sending>,
    refused: set<Path>)         // paths that the host cannot open for writing

  datatype Step =
    | Pull(i: nat, path: Path, file: Content)
    | GiveUp(i: nat)            // the first connection fails
    | SendTruncate(i: nat)
    | SendChunk(i: nat)
    | SendLast(i: nat)
    | LastFails(i: nat)         // the connection for the final PUSH fails
    | ServeTruncate
    | ServePiece
    | ServeEnd

  /** Bytes pushed in one go: all that is left, but no more than the buffer holds. */
  function Chunk(data: Content, from: nat, size: nat): Content
    requires from <= |data|
  {
    if |data| - from < size then data[from..] else data[from..from + size]
  }

  predicate InFlight(w: Worker, path: Path) {
    !w.Free? && w.path == path
  }

  predicate Opens(s: State, path: Path) {
    path in s.files && path !in s.refused
  }

  predicate Enabled(s: State, x: Step) {
    match x
    case Pull(i, _, _) => i < |s.workers| && s.workers[i].Free?
    case GiveUp(i) => i < |s.workers| && s.workers[i].Connecting?
    case SendTruncate(i) => i < |s.workers| && s.workers[i].Connecting?
    case SendChunk(i) => i < |s.workers| && s.workers[i].Pushing? && s.workers[i].sent < |Data(s.workers[i].file)|
    case SendLast(i) => i < |s.workers| && s.workers[i].Pushing? && s.workers[i].sent == |Data(s.workers[i].file)|
    case LastFails(i) => i < |s.workers| && s.workers[i].Pushing? && s.workers[i].sent == |Data(s.workers[i].file)|
    case ServeTruncate => s.conns != [] && s.conns[0].Truncate?
    case ServePiece => s.conns != [] && s.conns[0].Append? && s.conns[0].payload != [] && Opens(s, s.conns[0].path)
    case ServeEnd => s.conns != [] && s.conns[0].Append? && (s.conns[0].payload == [] || !Opens(s, s.conns[0].path))
  }

  /** Worker i, which transfers `file`, opens a connection. */
  function Record(sent: map<Path, Sending>, c: Conn, i: nat, file: Content): map<Path, Sending> {
    if c.Truncate? then sent[c.path := Sending([], file, i, 0)]
    else if c.path !in sent then sent
    else
      var r := sent[c.path];
      var more := if i == r.owner then 0 else |c.payload|;
      sent[c.path := r.(bytes := r.bytes + c.payload, foreign := r.foreign + more)]
  }

  function Send(s: State, i: nat, c: Conn, w: Worker): State
    requires i < |s.workers| && !s.workers[i].Free?
  {
    s.(conns := s.conns + [c], workers := s.workers[i := w], sent := Record(s.sent, c, i, s.workers[i].file))
  }

  function Next(s: State, x: Step): State
    requires Enabled(s, x)
  {
    match x
    case Pull(i, path, file) =>
      if Pulled(file).None? then s else s.(workers := s.workers[i := Connecting(path, file)])
    case GiveUp(i) => s.(workers := s.workers[i := Free])
    case SendTruncate(i) =>
      var w := s.workers[i];
      Send(s, i, Truncate(w.path), Pushing(w.path, w.file, 0))
    case SendChunk(i) =>
      var w := s.workers[i];
      var chunk := Chunk(Data(w.file), w.sent, CHUNK);
      Send(s, i, Append(w.path, chunk), w.(sent := w.sent + |chunk|))
    case SendLast(i) => Send(s, i, Append(s.workers[i].path, []), Free)
    case LastFails(i) => s.(workers := s.workers[i := Free])
    case ServeTruncate =>
      var path := s.conns[0].path;
      s.(files := if path in s.refused then s.files else s.files[path := []], conns := s.conns[1..])
    case ServePiece =>
      var c := s.conns[0];
      var piece := Chunk(c.payload, 0, PIECE);
      s.(files := s.files[c.path := s.files[c.path] + piece], conns := [c.(payload := c.payload[|piece|..])] + s.conns[1..])
    case ServeEnd => s.(conns := s.conns[1..])
  }

  // ---------- What the connections will do to a file ----------

  function Get<T>(m: map<Path, T>, path: Path): Option<T> {
    if path in m then Some(m[path]) else None
  }

  /** Where the host can write: PUSH -1 creates or truncates; another PUSH appends to a file that exists. */
  function Apply(file: Option<Content>, c: Conn, path: Path): Option<Content> {
    if c.path != path then file
    else match c
         case Truncate(_) => Some([])
         case Append(_, payload) => if file.None? then None else Some(file.value + payload)
  }

  function Drain(file: Option<Content>, conns: seq<Conn>, path: Path): Option<Content> {
    if conns == [] then file else Apply(Drain(file, conns[..|conns| - 1], path), conns[|conns| - 1], path)
  }

  lemma {:induction false} DrainAppend(file: Option<Content>, conns: seq<Conn>, c: Conn, path: Path)
    ensures Drain(file, conns + [c], path) == Apply(Drain(file, conns, path), c, path)
  {
    assert (conns + [c])[..|conns|] == conns;
  }

  lemma {:induction false} DrainHead(file: Option<Content>, conns: seq<Conn>, path: Path)
    requires conns != []
    ensures Drain(file, conns, path) == Drain(Apply(file, conns[0], path), conns[1..], path)
  {
    var init, last := conns[..|conns| - 1], conns[|conns| - 1];
    if init != [] {
      DrainHead(file, init, path);
      assert conns[1..] == init[1..] + [last];
      DrainAppend(Apply(file, conns[0], path), init[1..], last, path);
    } else {
      assert conns[1..] == [];
    }
  }

  ghost predicate About(conns: seq<Conn>, path: Path) {
    exists i :: 0 <= i < |conns| && conns[i].path == path
  }

  /** Connections for other paths do nothing, and appends only extend the file. */
  lemma {:induction false} DrainExtends(file: Option<Content>, conns: seq<Conn>, path: Path)
    requires Truncate(path) !in conns
    ensures var end := Drain(file, conns, path); (file.None? <==> end.None?) && (file.Some? ==> file.value <= end.value)
    ensures !About(conns, path) ==> Drain(file, conns, path) == file
  {
    if conns != [] {
      assert conns == conns[..|conns| - 1] + [conns[|conns| - 1]];
      DrainExtends(file, conns[..|conns| - 1], path);
    }
  }

  // ---------- The invariant of one path ----------

  /** A worker on its way with the path; if the latest PUSH -1 is its own, it transfers what was recorded then. */
  predicate WorkerInv(s: State, i: nat, path: Path)
    requires i < |s.workers|
  {
    var w := s.workers[i];
    InFlight(w, path) ==>
      && Pulled(w.file).Some?
      && (w.Pushing? ==>
            && w.sent <= |Data(w.file)| && path in s.sent
            && (s.sent[path].owner == i ==> s.sent[path].file == w.file))
  }

  ghost predicate WorkersInv(s: State, path: Path) {
    forall i :: 0 <= i < |s.workers| ==> WorkerInv(s, i, path)
  }

  predicate Pushes(ws: seq<Worker>, i: nat, path: Path) {
    i < |ws| && ws[i].Pushing? && ws[i].path == path
  }

  /** How many bytes the owner of the latest PUSH -1 has sent: all of them, once it does not push the path any more. */
  function Own(r: Sending, ws: seq<Worker>, path: Path): nat {
    if Pushes(ws, r.owner, path) then ws[r.owner].sent else |Data(r.file)|
  }

  /** Of the bytes that were sent, n are the owner's. */
  predicate Adds(r: Sending, n: nat) {
    && Pulled(r.file).Some? && n <= |Data(r.file)| && |r.bytes| == r.foreign + n
    && (r.foreign == 0 ==> r.bytes == Data(r.file)[..n])
  }

  predicate SentInv(s: State, path: Path) {
    path in s.sent ==> Adds(s.sent[path], Own(s.sent[path], s.workers, path))
  }

  /** `before` is what the host had when the run began. */
  ghost predicate FileInv(before: map<Path, Content>, s: State, path: Path) {
    if path in s.refused then Get(s.files, path) == Get(before, path)
    else if path in s.sent then Drain(Get(s.files, path), s.conns, path) == Some(s.sent[path].bytes)
    else Get(s.files, path) == Get(before, path) && !About(s.conns, path)
  }

  ghost predicate Inv(before: map<Path, Content>, s: State, path: Path) {
    WorkersInv(s, path) && SentInv(s, path) && FileInv(before, s, path)
  }

  // ---------- Every step ----------

  lemma {:induction false} ChunkExtends(data: Content, from: nat, size: nat)
    requires from <= |data| && 0 < size
    ensures var c := Chunk(data, from, size);
            && |c| <= size && from + |c| <= |data| && data[..from] + c == data[..from + |c|]
            && (from < |data| ==> c != [])
  {
  }

  /** One connection more, and what was sent for the path with it. */
  lemma {:induction false} FileSent(before: map<Path, Content>, s: State, t: State, c: Conn, path: Path)
    requires FileInv(before, s, path) && t.files == s.files && t.refused == s.refused && t.conns == s.conns + [c]
    requires c.path != path ==> Get(t.sent, path) == Get(s.sent, path)
    requires c.path == path ==> path in t.sent && (c.Append? ==> path in s.sent)
    requires c.path == path ==> t.sent[path].bytes == if c.Truncate? then [] else s.sent[path].bytes + c.payload
    ensures FileInv(before, t, path)
  {
    DrainAppend(Get(s.files, path), s.conns, c, path);
    hide Drain;
    assert About(t.conns, path) ==> About(s.conns, path) || c.path == path;
  }

  /** A worker that turns to something else, or sends something for another path. */
  lemma {:induction false} SentElsewhere(s: State, t: State, i: nat, path: Path)
    requires WorkersInv(s, path) && SentInv(s, path) && i < |s.workers| == |t.workers|
    requires t.workers == s.workers[i := t.workers[i]] && Get(t.sent, path) == Get(s.sent, path)
    requires !Pushes(t.workers, i, path) && (InFlight(t.workers[i], path) ==> Pulled(t.workers[i].file).Some?)
    requires Pushes(s.workers, i, path) ==> s.workers[i].sent == |Data(s.workers[i].file)|
    ensures WorkersInv(t, path) && SentInv(t, path)
  {
    hide Pulled, Data;
    forall j | 0 <= j < |t.workers| ensures WorkerInv(t, j, path) {
      assert WorkerInv(s, j, path);
    }
    assert WorkerInv(s, i, path);
    if path in s.sent {
      assert Own(t.sent[path], t.workers, path) == Own(s.sent[path], s.workers, path);
    }
  }

  /** PUSH -1: the path has a new owner, and nothing has been sent. */
  lemma {:induction false} TruncateStep(s: State, i: nat, path: Path)
    requires WorkersInv(s, path) && i < |s.workers| && s.workers[i].Connecting? && s.workers[i].path == path
    ensures var t := Next(s, SendTruncate(i)); WorkersInv(t, path) && SentInv(t, path)
  {
    var t := Next(s, SendTruncate(i));
    assert WorkerInv(s, i, path);
    assert t.sent[path] == Sending([], s.workers[i].file, i, 0) && Own(t.sent[path], t.workers, path) == 0;
    hide Pulled, Data;
    forall j | 0 <= j < |t.workers| ensures WorkerInv(t, j, path) {
      assert WorkerInv(s, j, path);
    }
  }

  /** The owner's bytes go on where they stopped; another worker's are foreign. */
  lemma {:induction false} AddsMore(r: Sending, n: nat, chunk: Content, m: nat)
    requires Adds(r, n)
    ensures n + |chunk| <= |Data(r.file)| && Data(r.file)[..n] + chunk == Data(r.file)[..n + |chunk|] ==>
              Adds(r.(bytes := r.bytes + chunk), n + |chunk|)
    ensures |chunk| == m != 0 ==> Adds(r.(bytes := r.bytes + chunk, foreign := r.foreign + m), n)
    ensures Adds(r.(bytes := r.bytes + []), n)
  {
    assert r.bytes + [] == r.bytes;
    hide Pulled, Data;
  }

  lemma {:induction false} ChunkStep(s: State, i: nat, path: Path)
    requires WorkersInv(s, path) && SentInv(s, path) && Enabled(s, SendChunk(i)) && s.workers[i].path == path
    ensures var t := Next(s, SendChunk(i)); path in s.sent && WorkersInv(t, path) && SentInv(t, path)
  {
    var w, t := s.workers[i], Next(s, SendChunk(i));
    var data := Data(w.file);
    var chunk := Chunk(data, w.sent, CHUNK);
    assert WorkerInv(s, i, path);
    ChunkExtends(data, w.sent, CHUNK);
    hide Pulled, Data, Chunk, Adds;
    forall j | 0 <= j < |t.workers| ensures WorkerInv(t, j, path) {
      assert WorkerInv(s, j, path);
    }
    var r := s.sent[path];
    AddsMore(r, Own(r, s.workers, path), chunk, |chunk|);
    if r.owner == i {
      assert t.sent[path] == r.(bytes := r.bytes + chunk);
      assert Own(t.sent[path], t.workers, path) == w.sent + |chunk|;
    } else {
      assert t.sent[path] == r.(bytes := r.bytes + chunk, foreign := r.foreign + |chunk|);
      assert Own(t.sent[path], t.workers, path) == Own(r, s.workers, path);
    }
  }

  lemma {:induction false} LastStepOf(s: State, i: nat, path: Path)
    requires WorkersInv(s, path) && SentInv(s, path) && Enabled(s, SendLast(i)) && s.workers[i].path == path
    ensures var t := Next(s, SendLast(i)); path in s.sent && WorkersInv(t, path) && SentInv(t, path)
  {
    var w, t := s.workers[i], Next(s, SendLast(i));
    assert WorkerInv(s, i, path);
    hide Pulled, Data, Adds;
    forall j | 0 <= j < |t.workers| ensures WorkerInv(t, j, path) {
      assert WorkerInv(s, j, path);
    }
    var r := s.sent[path];
    AddsMore(r, Own(r, s.workers, path), [], 0);
    assert t.sent[path] == r.(bytes := r.bytes + []);
    assert Own(t.sent[path], t.workers, path) == Own(r, s.workers, path);
  }

  predicate Sends(x: Step) {
    x.SendTruncate? || x.SendChunk? || x.SendLast?
  }

  /** The connection that a sending step opens. */
  function Opened(s: State, x: Step): Conn
    requires Enabled(s, x) && Sends(x)
  {
    var w := s.workers[x.i];
    match x
    case SendTruncate(_) => Truncate(w.path)
    case SendChunk(_) => Append(w.path, Chunk(Data(w.file), w.sent, CHUNK))
    case SendLast(_) => Append(w.path, [])
  }

  lemma {:induction false} OpenedIs(s: State, x: Step, path: Path)
    requires Enabled(s, x) && Sends(x) && WorkersInv(s, path)
    ensures var t, c := Next(s, x), Opened(s, x);
            && t.files == s.files && t.refused == s.refused && t.conns == s.conns + [c] && c.path == s.workers[x.i].path
            && |t.workers| == |s.workers| && t.workers == s.workers[x.i := t.workers[x.i]]
            && (c.path != path ==> Get(t.sent, path) == Get(s.sent, path) && !InFlight(t.workers[x.i], path))
            && (c.path == path ==>
                  && path in t.sent && (c.Append? ==> path in s.sent)
                  && t.sent[path].bytes == if c.Truncate? then [] else s.sent[path].bytes + c.payload)
  {
    assert WorkerInv(s, x.i, path);
    hide Pulled, Data, Chunk;
  }

  lemma {:induction false} SendStep(before: map<Path, Content>, s: State, x: Step, path: Path)
    requires Inv(before, s, path) && Enabled(s, x) && Sends(x)
    ensures Inv(before, Next(s, x), path)
  {
    var t, c := Next(s, x), Opened(s, x);
    OpenedIs(s, x, path);
    hide Next, Opened, WorkersInv, SentInv, FileInv;
    FileSent(before, s, t, c, path);
    if c.path != path {
      SentElsewhere(s, t, x.i, path);
    } else {
      match x
      case SendTruncate(i) => TruncateStep(s, i, path);
      case SendChunk(i) => ChunkStep(s, i, path);
      case SendLast(i) => LastStepOf(s, i, path);
    }
  }

  /** A worker begins with a file, or ends its work on one, without a connection. */
  lemma {:induction false} QuietStep(before: map<Path, Content>, s: State, x: Step, path: Path)
    requires Inv(before, s, path) && Enabled(s, x) && (x.Pull? || x.GiveUp? || x.LastFails?)
    ensures Inv(before, Next(s, x), path)
  {
    var t := Next(s, x);
    hide Data, WorkersInv, SentInv, Drain;
    if t != s {
      SentElsewhere(s, t, x.i, path);
    }
  }

  /** The server takes something off the head connection, and the file is what it makes of it. */
  lemma {:induction false} ServePath(before: map<Path, Content>, s: State, t: State, path: Path)
    requires Inv(before, s, path) && t == s.(files := t.files, conns := t.conns)
    requires path !in s.refused ==> Drain(Get(t.files, path), t.conns, path) == Drain(Get(s.files, path), s.conns, path)
    requires path in s.refused || !About(s.conns, path) ==> Get(t.files, path) == Get(s.files, path)
    requires About(t.conns, path) ==> About(s.conns, path)
    ensures Inv(before, t, path)
  {
    hide Drain, Pulled, Data;
    forall i | 0 <= i < |t.workers| ensures WorkerInv(t, i, path) {
      assert WorkerInv(s, i, path);
    }
  }

  lemma {:induction false} ServerMoves(before: map<Path, Content>, s: State, x: Step, path: Path)
    requires Inv(before, s, path) && Enabled(s, x) && (x.ServeTruncate? || x.ServePiece? || x.ServeEnd?)
    ensures Inv(before, Next(s, x), path)
  {
    var t, c, rest := Next(s, x), s.conns[0], s.conns[1..];
    assert path in s.files ==> s.files[path] + [] == s.files[path];
    DrainHead(Get(s.files, path), s.conns, path);
    if x.ServePiece? {
      PieceDrain(s, c, rest, path);
    }
    AboutTail(s.conns, t.conns, path);
    hide Drain, Chunk, About, Inv;
    ServePath(before, s, t, path);
  }

  lemma {:induction false} AboutTail(a: seq<Conn>, b: seq<Conn>, path: Path)
    requires a != [] && (b == a[1..] || (|b| == |a| && b[0].path == a[0].path && b[1..] == a[1..]))
    ensures About(b, path) ==> About(a, path)
    ensures !About(a, path) ==> a[0].path != path
  {
    if About(b, path) {
      var i :| 0 <= i < |b| && b[i].path == path;
      if b == a[1..] {
        assert a[i + 1] == b[i];
      } else if i != 0 {
        assert a[1..][i - 1] == b[1..][i - 1];
      }
    }
  }

  /** Appending the first piece and then the others is appending the payload. */
  lemma {:induction false} PieceDrain(s: State, c: Conn, rest: seq<Conn>, path: Path)
    requires c.Append? && c.path in s.files
    ensures var piece := Chunk(c.payload, 0, PIECE);
            var left := c.(payload := c.payload[|piece|..]);
            var files := s.files[c.path := s.files[c.path] + piece];
            Drain(Get(files, path), [left] + rest, path) == Drain(Apply(Get(s.files, path), c, path), rest, path)
  {
    var piece := Chunk(c.payload, 0, PIECE);
    var left := c.(payload := c.payload[|piece|..]);
    var files := s.files[c.path := s.files[c.path] + piece];
    DrainHead(Get(files, path), [left] + rest, path);
    assert ([left] + rest)[1..] == rest;
    if path == c.path {
      assert piece + c.payload[|piece|..] == c.payload;
      assert s.files[path] + piece + c.payload[|piece|..] == s.files[path] + c.payload;
    }
  }

  lemma {:induction false} StepKeepsInv(before: map<Path, Content>, s: State, x: Step, path: Path)
    requires Inv(before, s, path) && Enabled(s, x)
    ensures Inv(before, Next(s, x), path)
  {
    hide Inv, Enabled, Next;
    if x.ServeTruncate? || x.ServePiece? || x.ServeEnd? {
      ServerMoves(before, s, x, path);
    } else if Sends(x) {
      SendStep(before, s, x, path);
    } else {
      QuietStep(before, s, x, path);
    }
  }

  // ---------- Every run ----------

  predicate Run(s: State, run: seq<Step>)
    decreases |run|
  {
    run == [] || (Enabled(s, run[0]) && Run(Next(s, run[0]), run[1..]))
  }

  function After(s: State, run: seq<Step>): State
    requires Run(s, run)
    decreases |run|
  {
    if run == [] then s else After(Next(s, run[0]), run[1..])
  }

  /** A host with some files, and n workers. */
  function Start(files: map<Path, Content>, refused: set<Path>, n: nat): State {
    State(files, [], seq(n, _ => Free), map[], refused)
  }

  lemma {:induction false} RunKeepsInv(before: map<Path, Content>, s: State, run: seq<Step>, path: Path)
    requires Inv(before, s, path) && Run(s, run)
    ensures Inv(before, After(s, run), path) && After(s, run).refused == s.refused
    decreases |run|
  {
    hide Inv, Enabled;
    if run != [] {
      StepKeepsInv(before, s, run[0], path);
      RunKeepsInv(before, Next(s, run[0]), run[1..], path);
    }
  }

  ghost predicate Pushed(s: State, path: Path) {
    exists i :: 0 <= i < |s.workers| && Pushes(s.workers, i, path)
  }

  /** No connection of the path waits to be served, and no worker still has some to open. */
  ghost predicate Over(s: State, path: Path) {
    !About(s.conns, path) && !Pushed(s, path)
  }

  lemma {:induction false} DrainedFile(before: map<Path, Content>, s: State, path: Path)
    requires FileInv(before, s, path) && path in s.sent && path !in s.refused && Truncate(path) !in s.conns
    ensures path in s.files && s.files[path] <= s.sent[path].bytes
    ensures !About(s.conns, path) ==> s.files[path] == s.sent[path].bytes
  {
    DrainExtends(Get(s.files, path), s.conns, path);
  }

  /** What was sent is what was pulled exactly when nothing of it came from another worker. */
  lemma {:induction false} WholeExactlyWhen(s: State, path: Path)
    requires SentInv(s, path) && path in s.sent
    ensures var r := s.sent[path];
            && (r.foreign == 0 ==> r.bytes <= Data(r.file))
            && (!Pushed(s, path) ==> (r.bytes == Data(r.file) <==> r.foreign == 0))
  {
    var r := s.sent[path];
    hide Pulled, Data;
    assert Data(r.file)[..|Data(r.file)|] == Data(r.file);
    assert Pushes(s.workers, r.owner, path) ==> Pushed(s, path);
  }

  lemma {:induction false} DataIsPrefix(file: Content)
    requires Pulled(file).Some?
    ensures Data(file) <= file && (Data(file) == file <==> |file| < TWO_31)
  {
    PulledWholeExactlyWhen(file);
  }

  lemma {:induction false} TruncateIsAbout(conns: seq<Conn>, path: Path)
    ensures Truncate(path) in conns ==> About(conns, path)
  {
    if Truncate(path) in conns {
      var i :| 0 <= i < |conns| && conns[i] == Truncate(path);
    }
  }

  lemma {:induction false} StartInv(files: map<Path, Content>, refused: set<Path>, n: nat, path: Path)
    ensures Inv(files, Start(files, refused, n), path)
  {
  }

  /**
   * Over every run, with any number of workers, for every path that the host can write: once all connections of the
   * path are served, the target is what the transfer of the latest PUSH -1 pulled exactly when no other worker has
   * sent a byte for the path since that PUSH. Until then it is a prefix of it, once the PUSH is served. A path that
   * nothing was sent for, or that the host cannot write, is what it was.
   */
  lemma {:induction false} FaithfulExactlyWhen(files: map<Path, Content>, refused: set<Path>, n: nat, run: seq<Step>,
                                               path: Path)
    requires Run(Start(files, refused, n), run)
    ensures var s := After(Start(files, refused, n), run);
            path in s.sent && path !in refused && Over(s, path) ==>
              && path in s.files
              && (s.files[path] == Data(s.sent[path].file) <==> s.sent[path].foreign == 0)
    ensures var s := After(Start(files, refused, n), run);
            path in s.sent && path !in refused && Truncate(path) !in s.conns && s.sent[path].foreign == 0 ==>
              path in s.files && s.files[path] <= Data(s.sent[path].file)
    ensures var s := After(Start(files, refused, n), run);
            path !in s.sent || path in refused ==> Get(s.files, path) == Get(files, path)
    ensures var s := After(Start(files, refused, n), run);
            path in s.sent ==> Pulled(s.sent[path].file).Some?
  {
    var s0 := Start(files, refused, n);
    StartInv(files, refused, n, path);
    RunKeepsInv(files, s0, run, path);
    var s := After(s0, run);
    hide Run, After, Start, Data, Drain, About, Pushed, WorkersInv;
    if path in s.sent {
      WholeExactlyWhen(s, path);
      TruncateIsAbout(s.conns, path);
      if path !in s.refused && Truncate(path) !in s.conns {
        DrainedFile(files, s, path);
      }
    }
  }

  // ---------- One transfer at a time ----------

  /** Only one worker at a time is to bring the path. */
  predicate Guarded(s: State, x: Step, path: Path) {
    x.Pull? && x.path == path ==> forall j :: 0 <= j < |s.workers| ==> !InFlight(s.workers[j], path)
  }

  /** No transfer to the path begins while another one is under way. */
  predicate Exclusive(s: State, run: seq<Step>, path: Path)
    requires Run(s, run)
    decreases |run|
  {
    run == [] || (Guarded(s, run[0], path) && Exclusive(Next(s, run[0]), run[1..], path))
  }

  /** One worker at most is on its way with the path, and what was sent is its own. */
  ghost predicate AloneInv(s: State, path: Path) {
    && (forall i, j :: 0 <= i < |s.workers| && 0 <= j < |s.workers| && i != j ==>
          !(InFlight(s.workers[i], path) && InFlight(s.workers[j], path)))
    && (forall i :: 0 <= i < |s.workers| && Pushes(s.workers, i, path) ==> path in s.sent && s.sent[path].owner == i)
    && (path in s.sent ==> s.sent[path].foreign == 0)
  }

  /** Worker i turns to something else; if that is the path, nobody else is on its way with it. */
  lemma {:induction false} OneTurns(s: State, t: State, i: nat, path: Path)
    requires AloneInv(s, path) && i < |s.workers| == |t.workers| && t.workers == s.workers[i := t.workers[i]]
    requires InFlight(t.workers[i], path) && !InFlight(s.workers[i], path) ==>
               forall j :: 0 <= j < |s.workers| ==> !InFlight(s.workers[j], path)
    requires if InFlight(s.workers[i], path) && path in t.sent then
               t.sent[path].foreign == 0 && (Pushes(t.workers, i, path) ==> t.sent[path].owner == i)
             else Get(t.sent, path) == Get(s.sent, path) && !Pushes(t.workers, i, path)
    ensures AloneInv(t, path)
  {
    forall j | 0 <= j < |t.workers| && j != i ensures t.workers[j] == s.workers[j] {
    }
    forall j | 0 <= j < |t.workers| && Pushes(t.workers, j, path) ensures path in t.sent && t.sent[path].owner == j {
      assert j != i ==> Pushes(s.workers, j, path) && InFlight(s.workers[j], path);
    }
  }

  lemma {:induction false} StepKeepsAlone(s: State, x: Step, path: Path)
    requires AloneInv(s, path) && Enabled(s, x) && Guarded(s, x, path)
    ensures AloneInv(Next(s, x), path)
  {
    var t := Next(s, x);
    hide Pulled, Data, Chunk;
    if x.ServeTruncate? || x.ServePiece? || x.ServeEnd? {
    } else {
      assert Pushes(s.workers, x.i, path) ==> path in s.sent && s.sent[path].owner == x.i;
      assert path in s.sent ==> s.sent[path].foreign == 0;
      if t != s {
        hide AloneInv;
        OneTurns(s, t, x.i, path);
      }
    }
  }

  lemma {:induction false} RunKeepsAlone(s: State, run: seq<Step>, path: Path)
    requires AloneInv(s, path) && Run(s, run) && Exclusive(s, run, path)
    ensures AloneInv(After(s, run), path)
    decreases |run|
  {
    hide AloneInv, Enabled, Guarded;
    if run != [] {
      StepKeepsAlone(s, run[0], path);
      RunKeepsAlone(Next(s, run[0]), run[1..], path);
    }
  }

  /**
   * So with one transfer to the path at a time, whatever happens to other paths: the target is a prefix of its
   * source once PUSH -1 is served, and what was pulled once all is served, which is the source exactly below 2 GiB.
   */
  lemma {:induction false} TransferIsFaithful(files: map<Path, Content>, refused: set<Path>, n: nat, run: seq<Step>,
                                              path: Path)
    requires Run(Start(files, refused, n), run) && Exclusive(Start(files, refused, n), run, path)
    ensures var s := After(Start(files, refused, n), run);
            path in s.sent && path !in refused && Truncate(path) !in s.conns ==>
              path in s.files && s.files[path] <= s.sent[path].file
    ensures var s := After(Start(files, refused, n), run);
            path in s.sent && path !in refused && Over(s, path) ==>
              && path in s.files && s.files[path] == Data(s.sent[path].file)
              && (s.files[path] == s.sent[path].file <==> |s.sent[path].file| < TWO_31)
  {
    var s0 := Start(files, refused, n);
    assert AloneInv(s0, path);
    RunKeepsAlone(s0, run, path);
    FaithfulExactlyWhen(files, refused, n, run, path);
    var s := After(s0, run);
    if path in s.sent {
      hide Run, After, Start, Pulled, Data, About, Pushed, Exclusive;
      DataIsPrefix(s.sent[path].file);
    }
  }

  // ---------- One worker's connections ----------

  /** What a worker opens for the bytes from `sent` on. */
  function ChunkConns(path: Path, data: Content, sent: nat): seq<Conn>
    requires sent <= |data|
    decreases |data| - sent
  {
    if sent == |data| then [Append(path, [])]
    else
      var chunk := Chunk(data, sent, CHUNK);
      [Append(path, chunk)] + ChunkConns(path, data, sent + |chunk|)
  }

  /** All it opens for a file: PUSH -1, the chunks, PUSH 0. */
  function WorkerConns(path: Path, data: Content): seq<Conn> {
    [Truncate(path)] + ChunkConns(path, data, 0)
  }

  function SendSteps(i: nat, data: Content, sent: nat): seq<Step>
    requires sent <= |data|
    decreases |data| - sent
  {
    if sent == |data| then [SendLast(i)] else [SendChunk(i)] + SendSteps(i, data, sent + |Chunk(data, sent, CHUNK)|)
  }

  lemma {:induction false} FirstStep(s: State, x: Step, rest: seq<Step>)
    requires Enabled(s, x) && Run(Next(s, x), rest)
    ensures Run(s, [x] + rest) && After(s, [x] + rest) == After(Next(s, x), rest)
  {
    assert ([x] + rest)[1..] == rest;
  }

  lemma {:induction false} LastStep(s: State, x: Step)
    requires Enabled(s, x)
    ensures Run(s, [x]) && After(s, [x]) == Next(s, x)
  {
    var t := Next(s, x);
    assert Run(t, []) && After(t, []) == t;
    assert [x] + [] == [x];
    FirstStep(s, x, []);
  }

  lemma {:induction false} ChunkSent(s: State, i: nat)
    requires i < |s.workers| && s.workers[i].Pushing? && s.workers[i].sent < |Data(s.workers[i].file)|
    ensures var w, t := s.workers[i], Next(s, SendChunk(i));
            var chunk := Chunk(Data(w.file), w.sent, CHUNK);
            && Enabled(s, SendChunk(i)) && 0 < |chunk| <= |Data(w.file)| - w.sent
            && t.conns == s.conns + [Append(w.path, chunk)]
            && t.workers == s.workers[i := w.(sent := w.sent + |chunk|)]
  {
    ChunkExtends(Data(s.workers[i].file), s.workers[i].sent, CHUNK);
    hide Data, Chunk;
  }

  lemma {:induction false} LastSent(s: State, i: nat)
    requires i < |s.workers| && s.workers[i].Pushing? && s.workers[i].sent == |Data(s.workers[i].file)|
    ensures var t := Next(s, SendLast(i));
            && Enabled(s, SendLast(i)) && t.conns == s.conns + [Append(s.workers[i].path, [])]
            && t.workers == s.workers[i := Free]
  {
    hide Data;
  }

  /** One chunk, and then what a worker that has sent it opens. */
  lemma {:induction false} ChunkThenRest(s: State, i: nat, chunk: Content, rest: seq<Step>, more: seq<Conn>)
    requires i < |s.workers| && s.workers[i].Pushing? && Enabled(s, SendChunk(i))
    requires var t := Next(s, SendChunk(i));
             && t.conns == s.conns + [Append(s.workers[i].path, chunk)] && |t.workers| == |s.workers|
             && t.workers == s.workers[i := t.workers[i]]
             && Run(t, rest) && After(t, rest).conns == t.conns + more && After(t, rest).workers == t.workers[i := Free]
    ensures Run(s, [SendChunk(i)] + rest)
    ensures After(s, [SendChunk(i)] + rest).conns == s.conns + ([Append(s.workers[i].path, chunk)] + more)
    ensures After(s, [SendChunk(i)] + rest).workers == s.workers[i := Free]
  {
    hide *;
    var t := Next(s, SendChunk(i));
    FirstStep(s, SendChunk(i), rest);
    assert t.conns + more == s.conns + ([Append(s.workers[i].path, chunk)] + more);
    assert s.workers[i := t.workers[i]][i := Free] == s.workers[i := Free];
  }

  lemma {:induction false} SendStepsAre(s: State, i: nat)
    requires i < |s.workers| && s.workers[i].Pushing? && s.workers[i].sent <= |Data(s.workers[i].file)|
    ensures var w := s.workers[i];
            var steps := SendSteps(i, Data(w.file), w.sent);
            && Run(s, steps) && After(s, steps).conns == s.conns + ChunkConns(w.path, Data(w.file), w.sent)
            && After(s, steps).workers == s.workers[i := Free]
    decreases |Data(s.workers[i].file)| - s.workers[i].sent
  {
    var w := s.workers[i];
    var data := Data(w.file);
    hide Data, Enabled, Next, Run, After, Chunk;
    if w.sent == |data| {
      LastSent(s, i);
      LastStep(s, SendLast(i));
    } else {
      var chunk := Chunk(data, w.sent, CHUNK);
      ChunkSent(s, i);
      SendStepsAre(Next(s, SendChunk(i)), i);
      ChunkThenRest(s, i, chunk, SendSteps(i, data, w.sent + |chunk|), ChunkConns(w.path, data, w.sent + |chunk|));
    }
  }

  lemma {:induction false} TruncateSent(s: State, i: nat)
    requires i < |s.workers| && s.workers[i].Connecting?
    ensures var w, t := s.workers[i], Next(s, SendTruncate(i));
            && Enabled(s, SendTruncate(i)) && t.conns == s.conns + [Truncate(w.path)]
            && t.workers == s.workers[i := Pushing(w.path, w.file, 0)]
  {
    hide Data;
  }

  /** A worker left to itself opens exactly these connections, in this order. */
  lemma {:induction false} WorkerOpens(s: State, i: nat)
    requires i < |s.workers| && s.workers[i].Connecting?
    ensures var w := s.workers[i];
            var steps := [SendTruncate(i)] + SendSteps(i, Data(w.file), 0);
            && Run(s, steps) && After(s, steps).conns == s.conns + WorkerConns(w.path, Data(w.file))
            && After(s, steps).workers == s.workers[i := Free]
  {
    var w, t := s.workers[i], Next(s, SendTruncate(i));
    hide Data, Enabled, Next, Run, After, SendSteps, ChunkConns;
    TruncateSent(s, i);
    SendStepsAre(t, i);
    FirstStep(s, SendTruncate(i), SendSteps(i, Data(w.file), 0));
    assert t.conns + ChunkConns(w.path, Data(w.file), 0) == s.conns + WorkerConns(w.path, Data(w.file));
    assert s.workers[i := t.workers[i]][i := Free] == s.workers[i := Free];
  }
}
