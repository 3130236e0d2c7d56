// What goes over the sockets of the remote synchronizer: the PUSH header, the size header of PULL, the LIST reply.
module Wire {
  import opened ByteIO

  datatype Option<T> = None | Some(value: T)

  const MINUS: Byte := 45
  const ZERO: Byte := 48
  const DOT: Byte := 46

  const PUSH: seq<Byte> := [80, 85, 83, 72]

  // ---------- Decimal numbers ----------

  function Digits(n: nat): (r: seq<Byte>)
    ensures r != []
  {
    if n < 10 then [ZERO + n] else Digits(n / 10) + [ZERO + n % 10]
  }

  /** What %ld prints. */
  function Decimal(n: int): seq<Byte> {
    if n < 0 then [MINUS] + Digits(-n) else Digits(n)
  }

  predicate IsDigit(b: Byte) {
    ZERO <= b < ZERO + 10
  }

  function Value(s: seq<Byte>, acc: int): int {
    if s == [] || !IsDigit(s[0]) then acc else Value(s[1..], 10 * acc + (s[0] - ZERO))
  }

  /** atoi, for a word that starts with a digit or a minus sign. */
  function Atoi(s: seq<Byte>): int {
    if s != [] && s[0] == MINUS then -Value(s[1..], 0) else Value(s, 0)
  }

  predicate AllDigits(s: seq<Byte>) {
    forall i :: 0 <= i < |s| ==> IsDigit(s[i])
  }

  lemma {:induction false} ValueAppend(s: seq<Byte>, d: Byte, acc: int)
    requires AllDigits(s) && IsDigit(d)
    ensures Value(s + [d], acc) == 10 * Value(s, acc) + (d - ZERO)
  {
    if s == [] {
      assert s + [d] == [d] && [d][1..] == [];
    } else {
      assert (s + [d])[1..] == s[1..] + [d];
      ValueAppend(s[1..], d, 10 * acc + (s[0] - ZERO));
    }
  }

  lemma {:induction false} DigitsValue(n: nat)
    ensures AllDigits(Digits(n)) && Value(Digits(n), 0) == n
  {
    if n < 10 {
      assert [ZERO + n][1..] == [];
    } else {
      DigitsValue(n / 10);
      ValueAppend(Digits(n / 10), ZERO + n % 10, 0);
    }
  }

  /** Printing and reading a number gives it back. */
  lemma {:induction false} DecimalRoundTrip(n: int)
    ensures Atoi(Decimal(n)) == n
    ensures forall i :: 0 <= i < |Decimal(n)| ==> !Stops(Decimal(n)[i], false)
  {
    DigitsValue(if n < 0 then -n else n);
    if n < 0 {
      assert ([MINUS] + Digits(-n))[1..] == Digits(-n);
    } else {
      assert IsDigit(Digits(n)[0]);
    }
  }

  lemma {:induction false} DigitsLength(n: nat)
    ensures n < 10 ==> |Digits(n)| == 1
    ensures n < 100 ==> |Digits(n)| <= 2
    ensures n < 1000 ==> |Digits(n)| <= 3
    ensures n < 10000 ==> |Digits(n)| <= 4
  {
    if n >= 10 {
      DigitsLength(n / 10);
    }
  }

  // ---------- PUSH ----------

  /** The header of a PUSH as the format string lays it out. */
  function Header(path: seq<Byte>, n: int): seq<Byte> {
    PUSH + [SPACE] + path + [SPACE] + Decimal(n) + [SPACE]
  }

  const DIR_SIZE := 256
  const FILE_SIZE := 256
  const COMM_SIZE := DIR_SIZE + FILE_SIZE + 10

  /** snprintf into the command buffer: at most its size less one. */
  function Printed(path: seq<Byte>, n: int): seq<Byte> {
    var h := Header(path, n);
    if |h| < COMM_SIZE then h else h[..COMM_SIZE - 1]
  }

  const WORD_LIMIT := 1023

  /** The next word of a stream and what follows it, if read_wc with the server's buffer finds one. */
  function Word(s: seq<Byte>): Option<(seq<Byte>, seq<Byte>)> {
    var j := StopAt(s, false);
    if j < |s| && j < WORD_LIMIT then Some((s[..j], s[j + 1..])) else None
  }

  datatype Command = Command(path: seq<Byte>, size: int, payload: seq<Byte>)

  /** How the server takes a PUSH apart; the payload is what follows the header. */
  function ParsePush(s: seq<Byte>): Option<Command> {
    var command := Word(s);
    if command.None? || command.value.0 != PUSH then None
    else
      var path := Word(command.value.1);
      if path.None? then None
      else
        var size := Word(path.value.1);
        if size.None? then None else Some(Command(path.value.0, Atoi(size.value.0), size.value.1))
  }

  predicate OneWord(path: seq<Byte>) {
    forall i :: 0 <= i < |path| ==> !Stops(path[i], false)
  }

  lemma {:induction false} WordIs(word: seq<Byte>, stop: Byte, rest: seq<Byte>)
    requires OneWord(word) && Stops(stop, false) && |word| < WORD_LIMIT
    ensures Word(word + [stop] + rest) == Some((word, rest))
  {
    var s := word + [stop] + rest;
    StopIs(s, false, |word|);
    assert s[..|word|] == word && s[|word| + 1..] == rest;
  }

  /** The lengths for which the command buffer holds the whole header. */
  predicate Fits(path: seq<Byte>, n: int) {
    |path| + |Decimal(n)| <= COMM_SIZE - 8
  }

  lemma {:induction false} FitsMeansWhole(path: seq<Byte>, n: int)
    ensures Fits(path, n) <==> Printed(path, n) == Header(path, n)
  {
  }

  /** The server reads a printed header back, in front of any payload. */
  lemma {:induction false} PushRoundTrip(path: seq<Byte>, n: int, payload: seq<Byte>)
    requires OneWord(path) && Fits(path, n)
    ensures ParsePush(Printed(path, n) + payload) == Some(Command(path, n, payload))
  {
    var size := Decimal(n);
    DecimalRoundTrip(n);
    FitsMeansWhole(path, n);
    var s2 := size + [SPACE] + payload;
    var s1 := path + [SPACE] + s2;
    assert Printed(path, n) + payload == PUSH + [SPACE] + s1;
    WordIs(PUSH, SPACE, s1);
    WordIs(path, SPACE, s2);
    WordIs(size, SPACE, payload);
  }

  /** A word that was found sits in front of its stop. */
  lemma {:induction false} WordShape(s: seq<Byte>)
    requires Word(s).Some?
    ensures var (word, rest) := Word(s).value;
            && OneWord(word) && |s| == |word| + 1 + |rest| && s[..|word|] == word && Stops(s[|word|], false)
            && s[|word| + 1..] == rest
  {
  }

  /** Reading back the header needs a path without white space and a header that fits, and nothing else. */
  lemma {:induction false} PushRoundTripExactlyWhen(path: seq<Byte>, n: int, payload: seq<Byte>)
    ensures ParsePush(Printed(path, n) + payload) == Some(Command(path, n, payload)) <==> OneWord(path) && Fits(path, n)
  {
    if OneWord(path) && Fits(path, n) {
      PushRoundTrip(path, n, payload);
    } else if ParsePush(Printed(path, n) + payload) == Some(Command(path, n, payload)) {
      CutHeaderIsMisread(path, n, payload);
    }
  }

  lemma {:induction false} CutHeaderIsMisread(path: seq<Byte>, n: int, payload: seq<Byte>)
    requires ParsePush(Printed(path, n) + payload) == Some(Command(path, n, payload))
    ensures OneWord(path) && Fits(path, n)
  {
    var h := Printed(path, n);
    var s := h + payload;
    var s1 := Word(s).value.1;
    var s2 := Word(s1).value.1;
    WordShape(s);
    WordShape(s1);
    WordShape(s2);
    DecimalRoundTrip(n);
    var size := Word(s2).value.0;
    var last := 6 + |path| + |size|;
    assert s[5..] == s1 && s1[|path| + 1..] == s2;
    assert Stops(s2[|size|], false) && s2[|size|] == s[last];
    assert |h| == last + 1 && s[last] == h[last] == Header(path, n)[last];
  }

  /** No header is ever cut: names within the limits of the config file and of LIST, chunks up to 4096. */
  lemma {:induction false} ChunkHeadersFit(dir: seq<Byte>, file: seq<Byte>, n: int)
    requires |dir| < DIR_SIZE && |file| < FILE_SIZE - 1 && -1 <= n <= 4096
    ensures Fits(dir + [47] + file, n)
  {
    DigitsLength(if n < 0 then -n else n);
  }

  /** The buffer is exactly large enough: one more byte of the file name and a full chunk's header is cut. */
  lemma {:induction false} OneMoreByteIsCut(dir: seq<Byte>, file: seq<Byte>)
    requires |dir| == DIR_SIZE - 1 && |file| == FILE_SIZE - 1
    ensures !Fits(dir + [47] + file, 4096)
  {
    assert Digits(4) == [ZERO + 4];
    assert Digits(40) == [ZERO + 4, ZERO];
    assert Digits(409) == [ZERO + 4, ZERO, ZERO + 9];
    assert Digits(4096) == [ZERO + 4, ZERO, ZERO + 9, ZERO + 6];
  }

  // ---------- The size header of PULL ----------

  const TWO_8 := 256
  const TWO_16 := 65536
  const TWO_24 := 16777216
  const TWO_31 := 2147483648
  const TWO_32 := 4294967296

  /** The conversion of a file's size to int32_t: reduced modulo 2^32 to the signed range. */
  function Int32(i: int): (r: int)
    ensures -TWO_31 <= r < TWO_31
  {
    var u := i % TWO_32; if u < TWO_31 then u else u - TWO_32
  }

  /** htonl: the most significant byte first. */
  function BigEndian(i: int): (r: seq<Byte>)
    ensures |r| == 4
  {
    var u := i % TWO_32; [u / TWO_24, u / TWO_16 % TWO_8, u / TWO_8 % TWO_8, u % TWO_8]
  }

  /** ntohl, and the conversion to int32_t. */
  function FromBigEndian(s: seq<Byte>): int
    requires |s| == 4
  {
    Int32(TWO_24 * s[0] + TWO_16 * s[1] + TWO_8 * s[2] + s[3])
  }

  /** The digits of u to the base 256. */
  lemma {:induction false} DigitsOf(u: nat)
    ensures TWO_24 * (u / TWO_24) + TWO_16 * (u / TWO_16 % TWO_8) + TWO_8 * (u / TWO_8 % TWO_8) + u % TWO_8 == u
  {
    var a, b, c := u / TWO_8, u / TWO_8 / TWO_8, u / TWO_8 / TWO_8 / TWO_8;
    assert u / TWO_16 == b;
    assert u / TWO_24 == c;
    assert u == TWO_8 * a + u % TWO_8 && a == TWO_8 * b + a % TWO_8 && b == TWO_8 * c + b % TWO_8;
  }

  /** The header decodes to the size it was made of, for every size of an int32_t, negative ones included. */
  lemma {:induction false} SizeRoundTrip(i: int)
    ensures FromBigEndian(BigEndian(i)) == Int32(i)
    ensures Int32(i) == i <==> -TWO_31 <= i < TWO_31
  {
    DigitsOf(i % TWO_32);
    RemainderOnce(i);
  }

  lemma {:induction false} RemainderOnce(i: int)
    ensures Int32(i % TWO_32) == Int32(i)
  {
    var u := i % TWO_32;
    assert u % TWO_32 == u;
  }

  // ---------- LIST ----------

  /** The reply to LIST: a name a line, and a line with a dot. */
  function Listing(names: seq<seq<Byte>>): seq<Byte> {
    if names == [] then [DOT, NEWLINE] else names[0] + [NEWLINE] + Listing(names[1..])
  }

  /** The names the manager reads, and what follows the dot; None when a line does not fit the file name. */
  function ReadNames(s: seq<Byte>): Option<(seq<seq<Byte>>, seq<Byte>)> {
    var j := StopAt(s, true);
    if j == |s| || j >= FILE_SIZE - 1 then None
    else if s[..j] == [DOT] then Some(([], s[j + 1..]))
    else
      var more := ReadNames(s[j + 1..]);
      if more.None? then None else Some(([s[..j]] + more.value.0, more.value.1))
  }

  /** Names that one line of the reply can carry. */
  predicate Listable(name: seq<Byte>) {
    |name| < FILE_SIZE - 1 && name != [DOT] && NEWLINE !in name
  }

  lemma {:induction false} FirstLine(name: seq<Byte>, rest: seq<Byte>)
    ensures var s := name + [NEWLINE] + rest;
            var j := StopAt(s, true);
            && j <= |name| && (j == |name| <==> NEWLINE !in name)
            && (j == |name| ==> s[..j] == name && s[j + 1..] == rest)
  {
    var s := name + [NEWLINE] + rest;
    assert s[|name|] == NEWLINE;
    if NEWLINE in name {
      var i :| 0 <= i < |name| && name[i] == NEWLINE;
      assert s[i] == NEWLINE;
    } else {
      assert forall i :: 0 <= i < |name| ==> s[i] == name[i];
      StopIs(s, true, |name|);
    }
    assert s[..|name|] == name && s[|name| + 1..] == rest;
  }

  /** The first name of a reply is read back exactly when one line can carry it. */
  lemma {:induction false} FirstName(name: seq<Byte>, more: seq<Byte>)
    ensures var got := ReadNames(name + [NEWLINE] + more);
            if !Listable(name) then got.None? || got.value.0 == [] || got.value.0[0] != name
            else got == (if ReadNames(more).None? then None
                         else Some(([name] + ReadNames(more).value.0, ReadNames(more).value.1)))
  {
    FirstLine(name, more);
  }

  lemma {:induction false} ConsEquals<T>(x: T, a: seq<T>, b: seq<T>)
    ensures [x] + a == [x] + b <==> a == b
  {
    assert ([x] + a)[1..] == a && ([x] + b)[1..] == b;
  }

  predicate ReadsBack(names: seq<seq<Byte>>, rest: seq<Byte>) {
    ReadNames(Listing(names) + rest) == Some((names, rest))
  }

  predicate AllListable(names: seq<seq<Byte>>) {
    forall i :: 0 <= i < |names| ==> Listable(names[i])
  }

  lemma {:induction false} NoNamesReadBack(rest: seq<Byte>)
    ensures ReadsBack([], rest)
  {
    FirstLine([DOT], rest);
    assert Listing([]) + rest == [DOT] + [NEWLINE] + rest;
  }

  lemma {:induction false} OneNameMore(name: seq<Byte>, others: seq<seq<Byte>>, rest: seq<Byte>)
    ensures ReadsBack([name] + others, rest) <==> Listable(name) && ReadsBack(others, rest)
  {
    var more := Listing(others) + rest;
    assert ([name] + others)[1..] == others;
    assert Listing([name] + others) + rest == name + [NEWLINE] + more;
    FirstName(name, more);
    hide ReadNames, Listing, Listable;
    ConsEquals(name, others, if ReadNames(more).Some? then ReadNames(more).value.0 else []);
  }

  lemma {:induction false} OneListableMore(name: seq<Byte>, others: seq<seq<Byte>>)
    ensures AllListable([name] + others) <==> Listable(name) && AllListable(others)
  {
    hide Listable;
    assert forall i :: 0 <= i < |others| ==> ([name] + others)[i + 1] == others[i];
    assert ([name] + others)[0] == name;
  }

  lemma {:induction false} ReadsBackExactlyWhen(names: seq<seq<Byte>>, rest: seq<Byte>)
    ensures ReadsBack(names, rest) <==> AllListable(names)
  {
    if names == [] {
      NoNamesReadBack(rest);
    } else {
      var name, others := names[0], names[1..];
      hide ReadsBack, AllListable, Listable;
      ReadsBackExactlyWhen(others, rest);
      OneNameMore(name, others, rest);
      OneListableMore(name, others);
      assert names == [name] + others;
    }
  }

  /** The manager reads the names of a directory back exactly when one line can carry each of them. */
  lemma {:induction false} ListRoundTripExactlyWhen(names: seq<seq<Byte>>, rest: seq<Byte>)
    ensures ReadNames(Listing(names) + rest) == Some((names, rest))
       <==> forall i :: 0 <= i < |names| ==> Listable(names[i])
  {
    ReadsBackExactlyWhen(names, rest);
    hide ReadNames, Listing, Listable;
  }

  /** A file name that ends in a newline reads as the name without it and a second name, which is empty. */
  lemma {:induction false} TrailingNewlineIsAnEmptyName(name: seq<Byte>, rest: seq<Byte>)
    requires Listable(name)
    ensures ReadNames(Listing([name + [NEWLINE]]) + rest) == Some(([name, []], rest))
  {
    ListRoundTripExactlyWhen([name, []], rest);
    var empty: seq<Byte> := [];
    assert [name, empty][1..] == [empty] && [empty][1..] == [] && [name + [NEWLINE]][1..] == [];
    assert Listing([empty]) == [NEWLINE] + Listing([]);
    assert Listing([name, empty]) == name + [NEWLINE] + Listing([empty]);
    assert Listing([name + [NEWLINE]]) == Listing([name, empty]);
  }
}
