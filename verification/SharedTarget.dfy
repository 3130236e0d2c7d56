// Two workers that bring two files to one path at the same time: a run of the machine of Transfer.
module SharedTarget {
  import opened ByteIO
  import opened Wire
  import opened Transfer

  /** The machine with two workers: its files, its connections, and what each worker does. */
  function Two(path: Path, file: Option<Content>, conns: seq<Conn>, a: Worker, b: Worker,
               sent: Option<Sending>): State {
    State(if file.None? then map[] else map[path := file.value], conns, [a, b],
          if sent.None? then map[] else map[path := sent.value], {})
  }

  lemma {:induction false} OneByte(x: Byte)
    ensures Pulled([x]) == Some([x]) && Data([x]) == [x]
    ensures Chunk([x], 0, CHUNK) == [x] == Chunk([x], 0, PIECE)
  {
    PulledWholeExactlyWhen([x]);
  }

  lemma {:induction false} Joined(s: State, a: seq<Step>, b: seq<Step>)
    requires Run(s, a) && Run(After(s, a), b)
    ensures Run(s, a + b) && After(s, a + b) == After(After(s, a), b)
    decreases |a|
  {
    hide Enabled, Next;
    if a == [] {
      assert a + b == b;
    } else {
      assert (a + b)[1..] == a[1..] + b;
      Joined(Next(s, a[0]), a[1..], b);
    }
  }

  lemma {:induction false} ThreeSteps(s: State, x: Step, y: Step, z: Step)
    requires Enabled(s, x) && Enabled(Next(s, x), y) && Enabled(Next(Next(s, x), y), z)
    ensures Run(s, [x, y, z]) && After(s, [x, y, z]) == Next(Next(Next(s, x), y), z)
  {
    hide Enabled, Next;
    LastStep(Next(Next(s, x), y), z);
    FirstStep(Next(s, x), y, [z]);
    FirstStep(s, x, [y, z]);
    assert [x] + [y, z] == [x, y, z] && [y] + [z] == [y, z];
  }

  const BOTH_OPEN := [SendTruncate(0), SendTruncate(1), SendChunk(0)]
  const BOTH_CLOSE := [SendChunk(1), SendLast(0), SendLast(1)]
  const SERVE_ONE := [ServeTruncate, ServeTruncate, ServePiece]
  const SERVE_TWO := [ServeEnd, ServePiece, ServeEnd]
  const SERVE_REST := [ServeEnd, ServeEnd]

  lemma {:induction false} OpenStep(path: Path, x: Byte, y: Byte)
    ensures var s := Two(path, None, [], Connecting(path, [x]), Connecting(path, [y]), None);
            Run(s, BOTH_OPEN) && After(s, BOTH_OPEN)
              == Two(path, None, [Truncate(path), Truncate(path), Append(path, [x])],
                     Pushing(path, [x], 1), Pushing(path, [y], 0), Some(Sending([x], [y], 1, 1)))
  {
    OneByte(x);
    hide Pulled, Data, Chunk;
    var t := Truncate(path);
    var s2 := Two(path, None, [], Connecting(path, [x]), Connecting(path, [y]), None);
    var s3 := Two(path, None, [t], Pushing(path, [x], 0), Connecting(path, [y]), Some(Sending([], [x], 0, 0)));
    var s4 := Two(path, None, [t, t], Pushing(path, [x], 0), Pushing(path, [y], 0), Some(Sending([], [y], 1, 0)));
    var s5 := Two(path, None, [t, t, Append(path, [x])], Pushing(path, [x], 1), Pushing(path, [y], 0),
                  Some(Sending([x], [y], 1, 1)));
    assert [] + [x] == [x];
    assert Next(s2, SendTruncate(0)) == s3;
    assert Next(s3, SendTruncate(1)) == s4;
    assert Next(s4, SendChunk(0)) == s5;
    ThreeSteps(s2, SendTruncate(0), SendTruncate(1), SendChunk(0));
  }

  lemma {:induction false} CloseStep(path: Path, x: Byte, y: Byte)
    ensures var s := Two(path, None, [Truncate(path), Truncate(path), Append(path, [x])],
                         Pushing(path, [x], 1), Pushing(path, [y], 0), Some(Sending([x], [y], 1, 1)));
            Run(s, BOTH_CLOSE) && After(s, BOTH_CLOSE)
              == Two(path, None, [Truncate(path), Truncate(path), Append(path, [x]), Append(path, [y]),
                                  Append(path, []), Append(path, [])], Free, Free, Some(Sending([x, y], [y], 1, 1)))
  {
    OneByte(x);
    OneByte(y);
    hide Pulled, Data, Chunk;
    var t, c, d, e := Truncate(path), Append(path, [x]), Append(path, [y]), Append(path, []);
    var s5 := Two(path, None, [t, t, c], Pushing(path, [x], 1), Pushing(path, [y], 0), Some(Sending([x], [y], 1, 1)));
    var s6 := Two(path, None, [t, t, c, d], Pushing(path, [x], 1), Pushing(path, [y], 1), Some(Sending([x, y], [y], 1, 1)));
    var s7 := Two(path, None, [t, t, c, d, e], Free, Pushing(path, [y], 1), Some(Sending([x, y], [y], 1, 1)));
    var s8 := Two(path, None, [t, t, c, d, e, e], Free, Free, Some(Sending([x, y], [y], 1, 1)));
    assert [x] + [y] == [x, y] && [x, y] + [] == [x, y];
    assert Next(s5, SendChunk(1)) == s6;
    assert Next(s6, SendLast(0)) == s7;
    assert Next(s7, SendLast(1)) == s8;
    ThreeSteps(s5, SendChunk(1), SendLast(0), SendLast(1));
  }

  lemma {:induction false} ServeFirst(path: Path, x: Byte, rest: seq<Conn>, sent: Option<Sending>)
    ensures var s := Two(path, None, [Truncate(path), Truncate(path), Append(path, [x])] + rest, Free, Free, sent);
            && Run(s, SERVE_ONE)
            && After(s, SERVE_ONE) == Two(path, Some([x]), [Append(path, [])] + rest, Free, Free, sent)
  {
    OneByte(x);
    hide Chunk;
    var t, c := Truncate(path), Append(path, [x]);
    var s0 := Two(path, None, [t, t, c] + rest, Free, Free, sent);
    var s1 := Two(path, Some([]), [t, c] + rest, Free, Free, sent);
    var s2 := Two(path, Some([]), [c] + rest, Free, Free, sent);
    var s3 := Two(path, Some([x]), [Append(path, [])] + rest, Free, Free, sent);
    assert ([t, t, c] + rest)[1..] == [t, c] + rest && ([t, c] + rest)[1..] == [c] + rest && ([c] + rest)[1..] == rest;
    assert [] + [x] == [x] && [x][1..] == [];
    assert Next(s0, ServeTruncate) == s1;
    assert Next(s1, ServeTruncate) == s2;
    assert Next(s2, ServePiece) == s3;
    ThreeSteps(s0, ServeTruncate, ServeTruncate, ServePiece);
  }

  lemma {:induction false} ServeSecond(path: Path, x: Byte, y: Byte, rest: seq<Conn>, sent: Option<Sending>)
    ensures var s := Two(path, Some([x]), [Append(path, []), Append(path, [y])] + rest, Free, Free, sent);
            Run(s, SERVE_TWO) && After(s, SERVE_TWO) == Two(path, Some([x, y]), rest, Free, Free, sent)
  {
    OneByte(y);
    hide Chunk;
    var d, e := Append(path, [y]), Append(path, []);
    var s0 := Two(path, Some([x]), [e, d] + rest, Free, Free, sent);
    var s1 := Two(path, Some([x]), [d] + rest, Free, Free, sent);
    var s2 := Two(path, Some([x, y]), [e] + rest, Free, Free, sent);
    var s3 := Two(path, Some([x, y]), rest, Free, Free, sent);
    assert ([e, d] + rest)[1..] == [d] + rest && ([d] + rest)[1..] == rest && ([e] + rest)[1..] == rest;
    assert [x] + [y] == [x, y] && [y][1..] == [];
    assert Next(s0, ServeEnd) == s1;
    assert Next(s1, ServePiece) == s2;
    assert Next(s2, ServeEnd) == s3;
    ThreeSteps(s0, ServeEnd, ServePiece, ServeEnd);
  }

  lemma {:induction false} ServeLast(path: Path, file: Content, sent: Option<Sending>)
    ensures var s := Two(path, Some(file), [Append(path, []), Append(path, [])], Free, Free, sent);
            Run(s, SERVE_REST) && After(s, SERVE_REST) == Two(path, Some(file), [], Free, Free, sent)
  {
    var e := Append(path, []);
    var s0, s1 := Two(path, Some(file), [e, e], Free, Free, sent), Two(path, Some(file), [e], Free, Free, sent);
    assert Next(s0, ServeEnd) == s1;
    LastStep(s1, ServeEnd);
    FirstStep(s0, ServeEnd, [ServeEnd]);
  }

  lemma {:induction false} SendAll(path: Path, x: Byte, y: Byte)
    ensures var s, steps := Two(path, None, [], Connecting(path, [x]), Connecting(path, [y]), None),
                          BOTH_OPEN + BOTH_CLOSE;
            Run(s, steps) && After(s, steps)
              == Two(path, None, [Truncate(path), Truncate(path), Append(path, [x]), Append(path, [y]),
                                  Append(path, []), Append(path, [])], Free, Free, Some(Sending([x, y], [y], 1, 1)))
  {
    OpenStep(path, x, y);
    CloseStep(path, x, y);
    hide Two, Next, Enabled, Run, After;
    Joined(Two(path, None, [], Connecting(path, [x]), Connecting(path, [y]), None), BOTH_OPEN, BOTH_CLOSE);
  }

  lemma {:induction false} ServeAll(path: Path, x: Byte, y: Byte, sent: Option<Sending>)
    ensures var s := Two(path, None, [Truncate(path), Truncate(path), Append(path, [x]), Append(path, [y]),
                                      Append(path, []), Append(path, [])], Free, Free, sent);
            var steps := SERVE_ONE + (SERVE_TWO + SERVE_REST);
            Run(s, steps) && After(s, steps) == Two(path, Some([x, y]), [], Free, Free, sent)
  {
    var t, c, d, e := Truncate(path), Append(path, [x]), Append(path, [y]), Append(path, []);
    ServeFirst(path, x, [d, e, e], sent);
    ServeSecond(path, x, y, [e, e], sent);
    ServeLast(path, [x, y], sent);
    assert [t, t, c] + [d, e, e] == [t, t, c, d, e, e] && [e] + [d, e, e] == [e, d] + [e, e];
    hide Two, Next, Enabled, Run, After;
    Joined(Two(path, Some([x]), [e, d] + [e, e], Free, Free, sent), SERVE_TWO, SERVE_REST);
    Joined(Two(path, None, [t, t, c] + [d, e, e], Free, Free, sent), SERVE_ONE, SERVE_TWO + SERVE_REST);
  }

  function MixedRun(path: Path, x: Byte, y: Byte): seq<Step> {
    [Pull(0, path, [x]), Pull(1, path, [y])] + ((BOTH_OPEN + BOTH_CLOSE) + (SERVE_ONE + (SERVE_TWO + SERVE_REST)))
  }

  lemma {:induction false} MixedRunEnds(path: Path, x: Byte, y: Byte)
    ensures var s, run := Start(map[], {}, 2), MixedRun(path, x, y);
            Run(s, run) && After(s, run) == Two(path, Some([x, y]), [], Free, Free, Some(Sending([x, y], [y], 1, 1)))
  {
    BothPull(path, x, y);
    SendAll(path, x, y);
    ServeAll(path, x, y, Some(Sending([x, y], [y], 1, 1)));
    hide Two, Next, Enabled, Run, After, Start;
    Joined(Two(path, None, [], Connecting(path, [x]), Connecting(path, [y]), None),
           BOTH_OPEN + BOTH_CLOSE, SERVE_ONE + (SERVE_TWO + SERVE_REST));
    Joined(Start(map[], {}, 2), [Pull(0, path, [x]), Pull(1, path, [y])],
           (BOTH_OPEN + BOTH_CLOSE) + (SERVE_ONE + (SERVE_TWO + SERVE_REST)));
  }

  /**
   * Why the path's transfers have to come one at a time: two workers bring two one-byte files to one path, and when
   * every connection is served the target holds both bytes, which is neither file.
   */
  lemma {:induction false} SharedTargetMixes(path: Path, x: Byte, y: Byte)
    ensures var s, run := Start(map[], {}, 2), MixedRun(path, x, y);
            && Run(s, run) && !Exclusive(s, run, path)
            && After(s, run).files == map[path := [x, y]] && After(s, run).conns == []
            && After(s, run).workers == [Free, Free] && Get(After(s, run).sent, path) == Some(Sending([x, y], [y], 1, 1))
  {
    MixedRunEnds(path, x, y);
    hide Run, After, Exclusive, MixedRun;
    PullsOverlap(path, x, y);
  }

  lemma {:induction false} BothPull(path: Path, x: Byte, y: Byte)
    ensures var s, pulls := Start(map[], {}, 2), [Pull(0, path, [x]), Pull(1, path, [y])];
            Run(s, pulls) && After(s, pulls) == Two(path, None, [], Connecting(path, [x]), Connecting(path, [y]), None)
  {
    OneByte(x);
    OneByte(y);
    hide Pulled;
    var s0, s1 := Two(path, None, [], Free, Free, None), Two(path, None, [], Connecting(path, [x]), Free, None);
    assert Start(map[], {}, 2) == s0;
    assert Next(s0, Pull(0, path, [x])) == s1;
    LastStep(s1, Pull(1, path, [y]));
    FirstStep(s0, Pull(0, path, [x]), [Pull(1, path, [y])]);
  }

  lemma {:induction false} PullsOverlap(path: Path, x: Byte, y: Byte)
    requires Run(Start(map[], {}, 2), MixedRun(path, x, y))
    ensures !Exclusive(Start(map[], {}, 2), MixedRun(path, x, y), path)
  {
    OneByte(x);
    hide Pulled;
    var s, run := Start(map[], {}, 2), MixedRun(path, x, y);
    var t := Next(s, run[0]);
    assert run[0] == Pull(0, path, [x]) && run[1..][0] == Pull(1, path, [y]);
    assert InFlight(t.workers[0], path);
    assert !Guarded(t, run[1..][0], path);
  }
}
