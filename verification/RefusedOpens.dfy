/** Stores that close cleanly and cannot be opened again: exactly when that happens, and
    an input for each of the ways: a header that points past the data, bytes behind the
    data that a scan gives up on, and a data file that was never created. */
module RefusedOpens {
  import opened Bytes
  import opened Results
  import opened BlockFormat
  import opened FileSet
  import opened IndexFile
  import opened FloorScan
  import opened BlockIo
  import opened History
  import opened Log
  import opened Scan
  import opened StoreState
  import opened Writers
  import opened WriterInvariants
  import opened Concurrency
  import opened Agreement

  // ---------------------------------------------------------------- two failed writes

  /** Two overlapping writes that both fail, the first one giving up its space first: the
      highwater falls back only to the end of the first one's space, and a clean close
      persists an end of data that no file reaches. */
  function TwoFailures(a: Action, b: Action): (s: seq<Action>)
    requires a.Begin? && b.Begin?
  {
    [a, b, Abort(a.id, 0), Abort(b.id, 0), Advance(a.id), Advance(b.id), Close]
  }

  lemma BothBreak(c: Config, w: World, i: nat, j: nat, a: Job, b: Job)
    requires Legal(c, a) && Legal(c, b) && w.calls == map[i := Call(a, Reserved), j := Call(b, Reserved)] && i != j
    ensures Runs(c, w, [Abort(i, 0), Abort(j, 0)])
    ensures Final(c, w, [Abort(i, 0), Abort(j, 0)]) == w.(calls := map[i := Call(a, Failing), j := Call(b, Failing)])
  {
    var w1, w2 := Goto(w, i, Failing), w.(calls := map[i := Call(a, Failing), j := Call(b, Failing)]);
    assert Goto(w1, j, Failing) == w2;
    assert Enabled(c, w, Abort(i, 0)) && Do(c, w, Abort(i, 0)) == w1;
    assert Enabled(c, w1, Abort(j, 0)) && Do(c, w1, Abort(j, 0)) == w2;
    hide *;
    RunsOne(c, w1, Abort(j, 0));
    RunsThen(c, w, Abort(i, 0), [Abort(j, 0)]);
    assert [Abort(i, 0)] + [Abort(j, 0)] == [Abort(i, 0), Abort(j, 0)];
  }

  lemma ReleaseIsNext(c: Config, w: World, i: nat)
    requires i in w.calls && Legal(c, w.calls[i].job) && w.calls[i].pc == Failing
    ensures Enabled(c, w, Advance(i)) && Do(c, w, Advance(i)) == Release(w, i)
  {
    hide Legal, Release;
  }

  lemma CloseIsNext(c: Config, w: World)
    requires AllReturned(w)
    ensures Enabled(c, w, Close) && Do(c, w, Close) == DoClose(w)
  {
    hide AllReturned, DoClose;
  }

  /** The first release is refused, the second one undoes only its own reservation. */
  lemma BothRelease(c: Config, w: World, i: nat, j: nat, a: Job, b: Job)
    requires Legal(c, a) && Legal(c, b) && a.end == b.start && w.dataHighwater == b.end && i != j
    requires w.calls == map[i := Call(a, Failing), j := Call(b, Failing)]
    ensures Runs(c, w, [Advance(i), Advance(j), Close])
    ensures Final(c, w, [Advance(i), Advance(j), Close])
         == DoClose(w.(dataHighwater := a.end, calls := map[i := Call(a, Released), j := Call(b, Released)]))
  {
    hide Legal, DoClose;
    LegalRange(c, b);
    var w1 := w.(calls := map[i := Call(a, Released), j := Call(b, Failing)]);
    var w2 := w.(dataHighwater := a.end, calls := map[i := Call(a, Released), j := Call(b, Released)]);
    assert Release(w, i) == w1 && Release(w1, j) == w2 && AllReturned(w2);
    hide *;
    ReleaseIsNext(c, w, i);
    ReleaseIsNext(c, w1, j);
    CloseIsNext(c, w2);
    RunsOne(c, w2, Close);
    RunsThen(c, w1, Advance(j), [Close]);
    RunsThen(c, w, Advance(i), [Advance(j)] + [Close]);
    assert [Advance(i)] + ([Advance(j)] + [Close]) == [Advance(i), Advance(j), Close];
  }

  lemma BothReserve(c: Config, h: Header, x: U64, a: seq<Byte>, y: U64, b: seq<Byte>)
    requires c.codec.Valid() && c.minHeight >= 1 && c.cap == None && NewHeader(c, h)
    requires Acceptable(c, x, a) && Acceptable(c, y, b)
    ensures var m, n := HEADER_SIZE + |c.codec.compress(a)|, HEADER_SIZE + |c.codec.compress(b)|;
      var j, k := Job(x, a, 0, 0, m), Job(y, b, m, m, m + n);
      && Legal(c, j) && Legal(c, k)
      && Runs(c, Start(h), [Begin(0, x, a), Begin(1, y, b)])
      && Final(c, Start(h), [Begin(0, x, a), Begin(1, y, b)])
          == Start(h).(dataHighwater := m + n, calls := map[0 := Call(j, Reserved), 1 := Call(k, Reserved)])
  {
    var w := Start(h);
    var m, n := HEADER_SIZE + |c.codec.compress(a)|, HEADER_SIZE + |c.codec.compress(b)|;
    assert Admit(c, 0, x, a) == Ok(Reservation(0, m)) && Admit(c, m, y, b) == Ok(Reservation(m, m + n));
    var w1, w2 := DoBegin(w, Reservation(0, m), 0, x, a), DoBegin(DoBegin(w, Reservation(0, m), 0, x, a), Reservation(m, m + n), 1, y, b);
    assert Enabled(c, w, Begin(0, x, a)) && Do(c, w, Begin(0, x, a)) == w1;
    assert Enabled(c, w1, Begin(1, y, b)) && Do(c, w1, Begin(1, y, b)) == w2;
    hide Runs, Final, Enabled, Do;
    RunsOne(c, w1, Begin(1, y, b));
    RunsThen(c, w, Begin(0, x, a), [Begin(1, y, b)]);
    assert [Begin(0, x, a)] + [Begin(1, y, b)] == [Begin(0, x, a), Begin(1, y, b)];
  }

  /** The store that results holds nothing and has lost nothing, and it cannot be opened. */
  lemma TwoFailedWritesStopReopening(c: Config, h: Header, x: U64, a: seq<Byte>, y: U64, b: seq<Byte>)
    requires c.codec.Valid() && c.minHeight >= 1 && c.cap == None && NewHeader(c, h)
    requires Acceptable(c, x, a) && Acceptable(c, y, b)
    ensures var s := TwoFailures(Begin(0, x, a), Begin(1, y, b));
      && Runs(c, Start(h), s)
      && Final(c, Start(h), s).files == map[]
      && Final(c, Start(h), s).index.slots == []
      && Recover(c, Final(c, Start(h), s).files, Final(c, Start(h), s).index) == Err(DataShrunk)
  {
    var w := Start(h);
    var m, n := HEADER_SIZE + |c.codec.compress(a)|, HEADER_SIZE + |c.codec.compress(b)|;
    var j, k := Job(x, a, 0, 0, m), Job(y, b, m, m, m + n);
    var q := w.(dataHighwater := m, calls := map[0 := Call(j, Released), 1 := Call(k, Released)]);
    assert w.files == q.files == map[] && DoClose(q).index.slots == [] && DoClose(q).index.header.nextWriteOffset == m > 0;
    assert DoClose(q).files == map[];
    assert Recover(c, map[], DoClose(q).index) == Err(DataShrunk);
    assert TwoFailures(Begin(0, x, a), Begin(1, y, b))
        == [Begin(0, x, a), Begin(1, y, b)] + ([Abort(0, 0), Abort(1, 0)] + [Advance(0), Advance(1), Close]);
    hide *;
    BothReserve(c, h, x, a, y, b);
    var w1 := Final(c, w, [Begin(0, x, a), Begin(1, y, b)]);
    BothBreak(c, w1, 0, 1, j, k);
    BothRelease(c, Final(c, w1, [Abort(0, 0), Abort(1, 0)]), 0, 1, j, k);
    RunsJoin(c, w1, [Abort(0, 0), Abort(1, 0)], [Advance(0), Advance(1), Close]);
    RunsJoin(c, w, [Begin(0, x, a), Begin(1, y, b)], [Abort(0, 0), Abort(1, 0)] + [Advance(0), Advance(1), Close]);
  }

  lemma {:induction false} ScanNeverShrinks(c: Config, files: Files, end: nat, ix: Index, pos: nat, highwater: nat, last: nat)
    ensures RunFrom(c, files, end, ix, pos, highwater, last).error != Some(DataShrunk)
    decreases end - pos
  {
    StepAdvances(c, files, end, pos);
    ParseNeverShrinks(c, files, end, pos);
    hide ParseAt;
    match ParseAt(c, files, end, pos)
    case Skip(next) => ScanNeverShrinks(c, files, end, ix, next, highwater, last);
    case Visit(height, size, _, next) =>
      var indexed := ix.(slots := Record(c, ix.slots, pos, height, size));
      var raised := Max(highwater, height);
      if next >= last + CHECKPOINT_BYTES {
        ScanNeverShrinks(c, files, end, indexed.(header := ProgressHeader(ix.header, next, raised)), next, raised, next);
      } else {
        ScanNeverShrinks(c, files, end, indexed, next, raised, last);
      }
    case _ =>
  }

  lemma ParseNeverShrinks(c: Config, files: Files, end: nat, pos: nat)
    ensures ParseAt(c, files, end, pos).Fail? ==> ParseAt(c, files, end, pos).error != DataShrunk
  {
    hide Split, LeU16, LeU32, LeU64, Addressable;
  }

  lemma ShrunkIff(c: Config, files: Files, ix: Index)
    ensures Recover(c, files, ix) == Err(DataShrunk) <==>
              ValidateLayout(c.cap, Sizes(files)).Ok? && ValidateLayout(c.cap, Sizes(files)).value < ix.header.nextWriteOffset
  {
    if ValidateLayout(c.cap, Sizes(files)).Ok? {
      var end := ValidateLayout(c.cap, Sizes(files)).value;
      ScanNeverShrinks(c, files, end, ix, ix.header.nextWriteOffset, ix.header.maxHeight, ix.header.nextWriteOffset);
    }
    hide RunFrom, FloorFrom, Sizes, StartFloor;
  }

  // ---------------------------------------------------------------- clean closes

  /** Exactly when the next open succeeds behind a clean close of any store that any
      interleaving of calls leads to: no data file is missing, the files reach the data
      highwater, and a scan of what lies behind the highwater finds no error. If nothing
      lies there, only the first two matter; and a framed block that ends at the
      highwater makes the files reach it. */
  lemma CloseReopensIff(c: Config, w: World)
    requires c.codec.Valid() && c.minHeight >= 1 && Reachable(c, w) && AllReturned(w)
    ensures var layout, q := ValidateLayout(c.cap, Sizes(w.files)), DoClose(w);
      && (Recover(c, q.files, q.index).Ok? <==>
            layout.Ok? && w.dataHighwater <= layout.value
            && Walk(c, w.files, layout.value, w.dataHighwater).error.None?)
      && (Recover(c, q.files, q.index) == Err(DataShrunk) <==> layout.Ok? && layout.value < w.dataHighwater)
      && (layout.Ok? && layout.value <= w.dataHighwater ==>
            (Recover(c, q.files, q.index).Ok? <==> layout.value == w.dataHighwater))
      && (layout.Ok? && EndsFramed(w) ==> w.dataHighwater <= layout.value)
  {
    var layout, q := ValidateLayout(c.cap, Sizes(w.files)), DoClose(w);
    hide *;
    ReachableInv(c, w);
    CloseInv(c, w);
    InvFacts(c, w);
    InvFacts(c, q);
    ClosedOffset(w);
    HeaderMark(c, q);
    RecoverOkIff(c, q.files, q.index);
    ShrunkIff(c, q.files, q.index);
    if layout.Ok? {
      NothingBehind(c, w.files, layout.value);
      if EndsFramed(w) {
        FramedTop(c, w);
      }
    }
  }

  /** A block whose frame is on disk ends at the highwater. */
  ghost predicate EndsFramed(w: World) {
    exists i :: i in w.calls && Framed(w.calls[i]) && w.calls[i].job.end == w.dataHighwater
  }

  lemma ClosedOffset(w: World)
    requires PointerOk(w)
    ensures DoClose(w).files == w.files && DoClose(w).index.header.nextWriteOffset == w.dataHighwater
  {
  }

  lemma NothingBehind(c: Config, files: Files, end: nat)
    ensures Walk(c, files, end, end) == Trail([], end, None)
  {
  }

  lemma FramedTop(c: Config, w: World)
    requires DataOk(c, w) && EndsFramed(w) && ValidateLayout(c.cap, Sizes(w.files)).Ok?
    ensures w.dataHighwater <= ValidateLayout(c.cap, Sizes(w.files)).value
  {
    hide *;
    var i := FramedCall(w);
    var j := w.calls[i].job;
    FrameOf(c, w, i);
    HeldBelowLayout(c, w.files, j.offset, c.codec.Frame(j.height, j.block));
  }

  lemma FramedCall(w: World) returns (i: nat)
    requires EndsFramed(w)
    ensures i in w.calls && Framed(w.calls[i]) && w.calls[i].job.end == w.dataHighwater
  {
    hide Framed;
    i :| i in w.calls && Framed(w.calls[i]) && w.calls[i].job.end == w.dataHighwater;
  }

  lemma FrameOf(c: Config, w: World, i: nat)
    requires DataOk(c, w) && i in w.calls && Framed(w.calls[i])
    ensures var j := w.calls[i].job;
      && |c.codec.compress(j.block)| < U32_LIMIT
      && Holds(w.files, c.cap, j.offset, c.codec.Frame(j.height, j.block))
      && |c.codec.Frame(j.height, j.block)| == HEADER_SIZE + |c.codec.compress(j.block)|
      && j.end == j.offset + |c.codec.Frame(j.height, j.block)|
      && InOneFile(c.cap, j.offset, |c.codec.Frame(j.height, j.block)|)
  {
    assert CallOk(c, w.files, w.calls[i]);
    hide Framed, Holds, InOneFile, PayloadHeld;
  }

  /** Bytes on disk at a global offset lie below the end that the file sizes imply. */
  lemma HeldBelowLayout(c: Config, files: Files, off: nat, data: seq<Byte>)
    requires Holds(files, c.cap, off, data) && InOneFile(c.cap, off, |data|)
    requires ValidateLayout(c.cap, Sizes(files)).Ok?
    ensures off + |data| <= ValidateLayout(c.cap, Sizes(files)).value
  {
    var p, sizes := Split(c.cap, off), Sizes(files);
    assert p.file in sizes && sizes[p.file] == |files[p.file]|;
    var last := LastFile(sizes.Keys);
    if c.cap.Some? {
      var cap := c.cap.value;
      assert off == (off / cap) * cap + off % cap;
      if p.file < last {
        SmallMultiple(last - p.file, cap);
        assert (last - p.file) * cap == last * cap - p.file * cap;
      }
    }
  }

  // ---------------------------------------------------------------- stale bytes

  /** The build without a compression library. */
  function PlainCodec(hash: seq<Byte> -> U64): Codec {
    Codec(b => b, b => Some(b), hash)
  }

  lemma PlainIsValid(hash: seq<Byte> -> U64)
    ensures PlainCodec(hash).Valid()
  {
  }

  /** A whole frame of a height that no index slot exists for makes recovery give up. */
  lemma ForeignFrameFails(c: Config, front: seq<Byte>, height: U64, block: seq<Byte>)
    requires c.codec.Valid() && c.cap == None && block != [] && 0 < |c.codec.compress(block)| <= MAX_BLOCK_SIZE
    requires c.minHeight <= height && !Addressable(c.minHeight, height)
    ensures var file := front + c.codec.Frame(height, block);
      ParseAt(c, map[0 := file], |file|, |front|) == Outcome.Fail(InvalidHeight)
  {
    var frame, header := c.codec.Frame(height, block), c.codec.HeaderFor(height, block);
    var file, at := front + frame, |front|;
    BlockFormat.HeaderRoundTrip(header);
    hide Serialize, Addressable;
    assert file[at..at + HEADER_SIZE] == Serialize(header);
    assert file[at + HEADER_SIZE..at + HEADER_SIZE + header.size] == c.codec.compress(block);
    assert c.codec.decompress(c.codec.compress(block)) == Some(block);
    hide Deserialize;
  }

  lemma PayloadLeft(payload: seq<Byte>)
    requires payload != []
    ensures WriteAt([], HEADER_SIZE, payload) == seq(HEADER_SIZE, _ => 0 as Byte) + payload
  {
  }

  /** Overwriting the front of what an unfinished write has left. */
  lemma FrontRewritten(zeros: seq<Byte>, b: seq<Byte>, rest: seq<Byte>, header: seq<Byte>)
    requires |zeros| == |header| == HEADER_SIZE && b != []
    ensures WriteAt(WriteAt(zeros + (b + rest), HEADER_SIZE, b), 0, header) == (header + b) + rest
  {
    var f := WriteAt(zeros + (b + rest), HEADER_SIZE, b);
    assert f == zeros + (b + rest);
  }

  /** The world in which one write has left its payload, but no header, and has failed. */
  function PayloadOnly(h: Header, x: U64, a: seq<Byte>): World {
    Start(h).(files := map[0 := seq(HEADER_SIZE, _ => 0 as Byte) + a],
              calls := map[0 := Call(Job(x, a, 0, 0, HEADER_SIZE + |a|), Released)])
  }

  lemma PayloadOnlyReachable(c: Config, h: Header, x: U64, a: seq<Byte>)
    requires c.codec.Valid() && c.minHeight >= 1 && c.cap == None && NewHeader(c, h) && Acceptable(c, x, a)
    requires c.codec.compress(a) == a
    ensures Reachable(c, PayloadOnly(h, x, a))
  {
    hide *;
    var n := HEADER_SIZE + |a|;
    var j := Job(x, a, 0, 0, n);
    var w0 := Start(h).(dataHighwater := n);
    var w1 := w0.(files := WriteInto(w0.files, c.cap, 0, 0, []));
    var w2 := w1.(files := WriteInto(w1.files, c.cap, 0, HEADER_SIZE, a));
    FirstReserved(c, h, x, a);
    ReachableStart(c, h);
    ReachableStep(c, Start(h), Begin(0, x, a));
    OpenStep(c, w0, 0, j);
    LeadsReachable(c, At(w0, 0, j, Reserved), 0, At(w1, 0, j, FileOpen));
    PayloadStep(c, w1, 0, j);
    LeadsReachable(c, At(w1, 0, j, FileOpen), 0, At(w2, 0, j, PayloadWritten));
    AtCall(w2, 0, j, PayloadWritten);
    NoneLanded(c, At(w2, 0, j, PayloadWritten), j);
    ReachableStep(c, At(w2, 0, j, PayloadWritten), Abort(0, 0));
    var w3 := Touch(c, At(w2, 0, j, PayloadWritten), 0, 0, [], Failing);
    GivesUp(c, h, x, a, w3);
    ReachableStep(c, w3, Advance(0));
  }

  lemma FirstReserved(c: Config, h: Header, x: U64, a: seq<Byte>)
    requires c.codec.Valid() && c.minHeight >= 1 && c.cap == None && NewHeader(c, h) && Acceptable(c, x, a)
    requires c.codec.compress(a) == a
    ensures var n := HEADER_SIZE + |a|;
      var j := Job(x, a, 0, 0, n);
      && Legal(c, j) && Enabled(c, Start(h), Begin(0, x, a))
      && Do(c, Start(h), Begin(0, x, a)) == At(Start(h).(dataHighwater := n), 0, j, Reserved)
  {
    assert Admit(c, 0, x, a) == Ok(Reservation(0, HEADER_SIZE + |a|));
  }

  lemma AtCall(w: World, id: nat, j: Job, pc: Pc)
    ensures id in At(w, id, j, pc).calls && At(w, id, j, pc).calls[id] == Call(j, pc)
  {
  }

  lemma GivesUp(c: Config, h: Header, x: U64, a: seq<Byte>, w: World)
    requires c.cap == None && a != [] && Legal(c, Job(x, a, 0, 0, HEADER_SIZE + |a|))
    requires var n := HEADER_SIZE + |a|;
      var w0 := Start(h).(dataHighwater := n);
      var w1 := w0.(files := WriteInto(w0.files, c.cap, 0, 0, []));
      var w2 := w1.(files := WriteInto(w1.files, c.cap, 0, HEADER_SIZE, a));
      w == Touch(c, At(w2, 0, Job(x, a, 0, 0, n), PayloadWritten), 0, 0, [], Failing)
    ensures Enabled(c, w, Advance(0)) && Do(c, w, Advance(0)) == PayloadOnly(h, x, a)
  {
    var zeros := seq(HEADER_SIZE, _ => 0 as Byte);
    PayloadLeft(a);
    hide Legal, WriteAt;
    EmptyWrite([], 0);
    EmptyWrite(zeros + a, 0);
    assert w.files == map[0 := zeros + a];
    assert w.calls == map[0 := Call(Job(x, a, 0, 0, HEADER_SIZE + |a|), Failing)];
  }

  /** A header write that fails before its first byte. */
  lemma NoneLanded(c: Config, w: World, j: Job)
    requires Legal(c, j) && 0 in w.calls && w.calls[0] == Call(j, PayloadWritten)
    ensures Enabled(c, w, Abort(0, 0)) && Do(c, w, Abort(0, 0)) == Touch(c, w, 0, 0, [], Failing)
  {
    hide Legal, BlockHeaderOf, Touch;
  }

  /** One failed write and no concurrency: a block whose payload happens to contain a
      frame of an impossible height fails at its header and is rolled back; a shorter
      block takes its place; the store closes cleanly with all its bytes on disk and a
      framed block at its end; and it cannot be opened. */
  lemma StaleBytesStopReopening(c: Config, h: Header, x: U64, y: U64, b: seq<Byte>, z: seq<Byte>) returns (w: World)
    requires exists hash :: c == Config(PlainCodec(hash), None, 1)
    requires NewHeader(c, h) && Addressable(1, x) && Addressable(1, y)
    requires b != [] && z != [] && |b| + |z| + HEADER_SIZE <= MAX_BLOCK_SIZE
    ensures Reachable(c, w) && AllReturned(w) && EndsFramed(w)
    ensures w.dataHighwater <= |FileAt(w.files, 0)| && View(w, y) == Some(b)
    ensures Recover(c, DoClose(w).files, DoClose(w).index) == Err(InvalidHeight)
  {
    var foreign: U64 := U64_LIMIT - 1;
    PlainConfig(c, b, z, foreign);
    var tail := c.codec.Frame(foreign, z);
    hide *;
    w := Overwritten(c, h, x, y, b, tail);
    StaleConclusion(c, w, y, b, tail, z, foreign, Job(x, b + tail, 0, 0, HEADER_SIZE + |b + tail|));
  }

  /** A failed write of `b + tail` that left its payload, and a write of `b` over it. */
  lemma Overwritten(c: Config, h: Header, x: U64, y: U64, b: seq<Byte>, tail: seq<Byte>) returns (w: World)
    requires c.codec.Valid() && c.minHeight >= 1 && c.cap == None && NewHeader(c, h)
    requires Addressable(c.minHeight, x) && Addressable(c.minHeight, y)
    requires b != [] && |b + tail| <= MAX_BLOCK_SIZE && c.codec.compress(b) == b && c.codec.compress(b + tail) == b + tail
    ensures Reachable(c, w) && |c.codec.compress(b)| < U32_LIMIT
    ensures w.files == map[0 := (Serialize(c.codec.HeaderFor(y, b)) + b) + tail] && w.dataHighwater == HEADER_SIZE + |b|
    ensures w.calls == map[0 := Call(Job(x, b + tail, 0, 0, HEADER_SIZE + |b + tail|), Released),
                           1 := Call(Job(y, b, 0, 0, HEADER_SIZE + |b|), Finished)]
  {
    hide *;
    var a := b + tail;
    var w0 := PayloadOnly(h, x, a);
    SmallBlock(b);
    PlainAcceptable(c, x, a);
    PlainAcceptable(c, y, b);
    PayloadOnlyReachable(c, h, x, a);
    ReachableInv(c, w0);
    PayloadOnlyIs(h, x, a);
    AtFront(c, w0, y, b);
    w := UninterruptedCallIsWrite(c, w0, 1, y, b);
    ReachableStep(c, w0, Begin(1, y, b));
    LeadsReachable(c, Do(c, w0, Begin(1, y, b)), 1, w);
    StoredIs(w0);
    StoredIs(w);
    ShortWriteOver(c, Stored(w0), Stored(w), y, b, tail);
  }

  lemma SmallBlock(b: seq<Byte>)
    ensures |b| <= MAX_BLOCK_SIZE ==> |b| < U32_LIMIT
  {
  }

  lemma StaleConclusion(c: Config, w: World, y: U64, b: seq<Byte>, tail: seq<Byte>, z: seq<Byte>, foreign: U64, j: Job)
    requires c.codec.Valid() && c.minHeight == 1 && c.cap == None && Reachable(c, w)
    requires z != [] && 0 < |c.codec.compress(z)| <= MAX_BLOCK_SIZE && !Addressable(c.minHeight, foreign) && foreign >= 1
    requires |c.codec.compress(b)| < U32_LIMIT && tail == c.codec.Frame(foreign, z)
    requires w.files == map[0 := (Serialize(c.codec.HeaderFor(y, b)) + b) + tail] && w.dataHighwater == HEADER_SIZE + |b|
    requires w.calls == map[0 := Call(j, Released), 1 := Call(Job(y, b, 0, 0, HEADER_SIZE + |b|), Finished)]
    ensures AllReturned(w) && EndsFramed(w) && w.dataHighwater <= |FileAt(w.files, 0)| && View(w, y) == Some(b)
    ensures Recover(c, DoClose(w).files, DoClose(w).index) == Err(InvalidHeight)
  {
    var front := Serialize(c.codec.HeaderFor(y, b)) + b;
    var file := front + tail;
    assert FileAt(w.files, 0) == file && |front| == HEADER_SIZE + |b|;
    hide *;
    ForeignFrameFails(c, front, foreign, z);
    ReachableInv(c, w);
    InvFacts(c, w);
    ClosedOffset(w);
    OneFileLayout(file);
    RecoverFailsAt(c, w.files, DoClose(w).index, |file|, InvalidHeight);
    SecondFinished(c, w, j, Job(y, b, 0, 0, HEADER_SIZE + |b|));
  }

  /** What the proof needs to know of the uncompressed build. */
  lemma PlainConfig(c: Config, b: seq<Byte>, z: seq<Byte>, foreign: U64)
    requires exists hash :: c == Config(PlainCodec(hash), None, 1)
    requires z != [] && |b| + |z| + HEADER_SIZE <= MAX_BLOCK_SIZE && foreign == U64_LIMIT - 1
    ensures c.codec.Valid() && c.minHeight == 1 && c.cap == None && !Addressable(1, foreign)
    ensures c.codec.compress(b) == b && c.codec.compress(z) == z
    ensures var a := b + c.codec.Frame(foreign, z);
      c.codec.compress(a) == a && b != [] ==> a != [] && |a| <= MAX_BLOCK_SIZE
  {
    var hash :| c == Config(PlainCodec(hash), None, 1);
    PlainIsValid(hash);
  }

  lemma PlainAcceptable(c: Config, height: nat, block: seq<Byte>)
    requires block != [] && |block| <= MAX_BLOCK_SIZE && c.codec.compress(block) == block && Addressable(c.minHeight, height)
    ensures Acceptable(c, height, block)
  {
  }

  lemma PayloadOnlyIs(h: Header, x: U64, a: seq<Byte>)
    ensures var w := PayloadOnly(h, x, a);
      && w.dataHighwater == 0 && w.calls == map[0 := Call(Job(x, a, 0, 0, HEADER_SIZE + |a|), Released)]
      && w.files == map[0 := seq(HEADER_SIZE, _ => 0 as Byte) + a]
  {
  }

  lemma StoredIs(w: World)
    ensures Stored(w).files == w.files && Stored(w).dataHighwater == w.dataHighwater
  {
  }

  lemma AtFront(c: Config, w: World, y: U64, b: seq<Byte>)
    requires c.cap == None && Acceptable(c, y, b) && w.dataHighwater == 0 && 1 !in w.calls
    ensures Admit(c, 0, y, b) == Ok(Reservation(0, HEADER_SIZE + |c.codec.compress(b)|))
    ensures Enabled(c, w, Begin(1, y, b))
  {
  }

  lemma ShortWriteOver(c: Config, s: State, q: State, y: U64, b: seq<Byte>, rest: seq<Byte>)
    requires Write(c, s, y, b) == Ok(q) && s.dataHighwater == 0 && c.cap == None
    requires s.files == map[0 := seq(HEADER_SIZE, _ => 0 as Byte) + (b + rest)]
    requires Admit(c, 0, y, b) == Ok(Reservation(0, HEADER_SIZE + |b|)) && c.codec.compress(b) == b != [] && |b| < U32_LIMIT
    ensures q.files == map[0 := (Serialize(c.codec.HeaderFor(y, b)) + b) + rest] && q.dataHighwater == HEADER_SIZE + |b|
  {
    FrontRewritten(seq(HEADER_SIZE, _ => 0 as Byte), b, rest, Serialize(c.codec.HeaderFor(y, b)));
    assert q.files == PlaceFrame(c, s.files, 0, y, b) by {
      hide Admit, PlaceFrame, AdvancedFloor, CheckpointDue, CheckpointHeader, Put;
    }
    hide Admit, AdvancedFloor, CheckpointDue, CheckpointHeader, Put, WriteAt, Serialize;
  }

  lemma OneFileLayout(file: seq<Byte>)
    ensures ValidateLayout(None, Sizes(map[0 := file])) == Ok(|file|)
  {
    assert 0 in Sizes(map[0 := file]);
  }

  lemma RecoverFailsAt(c: Config, files: Files, ix: Index, end: nat, e: Error)
    requires ValidateLayout(c.cap, Sizes(files)) == Ok(end) && ix.header.nextWriteOffset <= end
    requires ParseAt(c, files, end, ix.header.nextWriteOffset) == Outcome.Fail(e)
    ensures Recover(c, files, ix) == Err(e)
  {
    hide ParseAt, ValidateLayout, Sizes, ScanFloor;
  }

  /** Call 1 is the only one that has written an index entry. */
  lemma SecondFinished(c: Config, w: World, j: Job, k: Job)
    requires IndexOk(c, w) && w.calls == map[0 := Call(j, Released), 1 := Call(k, Finished)] && k.end == w.dataHighwater
    ensures AllReturned(w) && EndsFramed(w) && View(w, k.height) == Some(k.block)
  {
    assert Framed(w.calls[1]) && EntryWritten(w.calls[1]) && !EntryWritten(w.calls[0]);
    hide EntryAt, Get;
    assert IndexedAt(w, w.latest[k.height], k.height);
  }

  // ---------------------------------------------------------------- a missing file

  /** The world in which one write could not open its data file and has not yet given
      up the space. */
  function Unopened(h: Header, x: U64, a: seq<Byte>, len: nat): World {
    Start(h).(dataHighwater := len, calls := map[0 := Call(Job(x, a, 0, 0, len), Failing)])
  }

  lemma UnopenedReachable(c: Config, h: Header, x: U64, a: seq<Byte>, cap: Pos)
    requires c.codec.Valid() && c.minHeight >= 1 && NewHeader(c, h) && Acceptable(c, x, a) && c.cap == Some(cap)
    requires HEADER_SIZE + |c.codec.compress(a)| <= cap < U64_LIMIT
    ensures Reachable(c, Unopened(h, x, a, HEADER_SIZE + |c.codec.compress(a)|))
  {
    var n := HEADER_SIZE + |c.codec.compress(a)|;
    var j := Job(x, a, 0, 0, n);
    DivUnique(0, cap, 0, 0);
    assert Admit(c, 0, x, a) == Ok(Reservation(0, n));
    var w1 := DoBegin(Start(h), Reservation(0, n), 0, x, a);
    assert Legal(c, j) && w1.calls == map[0 := Call(j, Reserved)];
    assert Enabled(c, Start(h), Begin(0, x, a)) && Do(c, Start(h), Begin(0, x, a)) == w1;
    hide Legal;
    assert Goto(w1, 0, Failing) == Unopened(h, x, a, n);
    assert Enabled(c, w1, Abort(0, 0)) && Do(c, w1, Abort(0, 0)) == Unopened(h, x, a, n);
    hide *;
    ReachableStart(c, h);
    ReachableStep(c, Start(h), Begin(0, x, a));
    ReachableStep(c, w1, Abort(0, 0));
  }

  /** A block that does not fit behind `len` bytes of the first file goes to the second. */
  lemma SecondFile(c: Config, height: U64, block: seq<Byte>, cap: Pos, len: nat)
    requires c.cap == Some(cap) && Acceptable(c, height, block) && len <= cap
    requires HEADER_SIZE + |c.codec.compress(block)| <= cap < len + HEADER_SIZE + |c.codec.compress(block)|
    requires 2 * cap < U64_LIMIT
    ensures Admit(c, len, height, block) == Ok(Reservation(cap, cap + HEADER_SIZE + |c.codec.compress(block)|))
    ensures FileIndexLeft(c, len) && Split(c.cap, cap) == Place(1, 0)
  {
    DivUnique(cap, cap, 1, 0);
    if len < cap {
      DivUnique(len, cap, 0, len);
    }
  }

  lemma HiddenLayout(cap: Pos, files: Files)
    requires 0 !in files && 1 in files
    ensures ValidateLayout(Some(cap), Sizes(files)) == Err(MissingFile)
  {
    assert 1 in Sizes(files) && 0 !in Sizes(files);
  }

  /** With split files: a write that cannot open file 0 overlaps with one that succeeds
      in file 1, whose space keeps the failed reservation from being rolled back. The
      call that succeeded has returned, its block reads back, the store closes cleanly,
      and it cannot be opened, because file 0 was never created. */
  lemma UnopenedFileStopsReopening(c: Config, h: Header, cap: Pos, x: U64, a: seq<Byte>, y: U64, b: seq<Byte>)
    returns (w: World)
    requires c.codec.Valid() && c.minHeight >= 1 && c.cap == Some(cap) && 2 * cap < U64_LIMIT && NewHeader(c, h)
    requires Acceptable(c, x, a) && Acceptable(c, y, b)
    requires HEADER_SIZE + |c.codec.compress(a)| <= cap && HEADER_SIZE + |c.codec.compress(b)| <= cap
    requires cap < HEADER_SIZE + |c.codec.compress(a)| + HEADER_SIZE + |c.codec.compress(b)|
    ensures Reachable(c, w) && AllReturned(w) && EndsFramed(w)
    ensures 1 in w.calls && w.calls[1].pc.Finished? && View(w, y) == Some(b)
    ensures Recover(c, DoClose(w).files, DoClose(w).index) == Err(MissingFile)
  {
    hide *;
    var n, m := HEADER_SIZE + |c.codec.compress(a)|, HEADER_SIZE + |c.codec.compress(b)|;
    var j, k := Job(x, a, 0, 0, n), Job(y, b, n, cap, cap + m);
    UnopenedReachable(c, h, x, a, cap);
    SecondFile(c, y, b, cap, n);
    var q := BesideUnopened(c, h, x, a, y, b, n, cap, m);
    w := Release(q, 0);
    ReachableInv(c, q);
    CallFacts(c, q, 0);
    ReleaseIsNext(c, q, 0);
    ReachableStep(c, q, Advance(0));
    RefusedRelease(q, j, k, w);
    UnopenedConclusion(c, w, j, k, cap);
  }

  lemma BesideUnopened(c: Config, h: Header, x: U64, a: seq<Byte>, y: U64, b: seq<Byte>, n: nat, off: nat, m: nat)
    returns (q: World)
    requires c.codec.Valid() && c.minHeight >= 1 && Reachable(c, Unopened(h, x, a, n)) && Acceptable(c, y, b)
    requires FileIndexLeft(c, n) && Admit(c, n, y, b) == Ok(Reservation(off, off + m)) && Split(c.cap, off).file == 1
    ensures Reachable(c, q) && 0 !in q.files && 1 in q.files && q.dataHighwater == off + m
    ensures q.calls == map[0 := Call(Job(x, a, 0, 0, n), Failing), 1 := Call(Job(y, b, n, off, off + m), Finished)]
  {
    hide *;
    var w0 := Unopened(h, x, a, n);
    ReachableInv(c, w0);
    UnopenedIs(h, x, a, n);
    CanBegin(c, w0, y, b);
    q := UninterruptedCallIsWrite(c, w0, 1, y, b);
    ReachableStep(c, w0, Begin(1, y, b));
    LeadsReachable(c, Do(c, w0, Begin(1, y, b)), 1, q);
    StoredIs(w0);
    StoredIs(q);
    WrittenInFile(c, Stored(w0), Stored(q), y, b, off);
  }

  lemma UnopenedConclusion(c: Config, w: World, j: Job, k: Job, cap: Pos)
    requires c.codec.Valid() && c.minHeight >= 1 && c.cap == Some(cap) && Reachable(c, w)
    requires w.calls == map[0 := Call(j, Released), 1 := Call(k, Finished)] && w.dataHighwater == k.end
    requires 0 !in w.files && 1 in w.files
    ensures AllReturned(w) && EndsFramed(w) && View(w, k.height) == Some(k.block)
    ensures Recover(c, DoClose(w).files, DoClose(w).index) == Err(MissingFile)
  {
    hide *;
    ReachableInv(c, w);
    InvFacts(c, w);
    SecondFinished(c, w, j, k);
    ClosedOffset(w);
    HiddenLayout(cap, w.files);
    NoLayout(c, w.files, DoClose(w).index);
  }

  lemma UnopenedIs(h: Header, x: U64, a: seq<Byte>, len: nat)
    ensures var w := Unopened(h, x, a, len);
      w.dataHighwater == len && w.files == map[] && w.calls == map[0 := Call(Job(x, a, 0, 0, len), Failing)]
  {
  }

  lemma CanBegin(c: Config, w: World, y: U64, b: seq<Byte>)
    requires FileIndexLeft(c, w.dataHighwater) && Admit(c, w.dataHighwater, y, b).Ok? && Acceptable(c, y, b)
    requires 1 !in w.calls
    ensures Enabled(c, w, Begin(1, y, b))
  {
    hide FileIndexLeft, Admit, Addressable;
  }

  lemma NoLayout(c: Config, files: Files, ix: Index)
    requires ValidateLayout(c.cap, Sizes(files)) == Err(MissingFile)
    ensures Recover(c, files, ix) == Err(MissingFile)
  {
    hide ValidateLayout, Sizes;
  }

  lemma WrittenInFile(c: Config, s: State, q: State, height: U64, block: seq<Byte>, off: nat)
    requires Write(c, s, height, block) == Ok(q) && s.files == map[]
    requires Admit(c, s.dataHighwater, height, block).Ok? && Admit(c, s.dataHighwater, height, block).value.offset == off
    requires Split(c.cap, off).file == 1
    ensures 0 !in q.files && 1 in q.files && q.dataHighwater == Admit(c, s.dataHighwater, height, block).value.end
  {
    hide Admit, Split, WriteAt, Serialize, AdvancedFloor, CheckpointDue, CheckpointHeader, Put;
  }

  lemma RefusedRelease(q: World, j: Job, k: Job, w: World)
    requires q.calls == map[0 := Call(j, Failing), 1 := Call(k, Finished)] && w == Release(q, 0)
    requires q.dataHighwater == k.end && k.end != j.end
    ensures w.calls == map[0 := Call(j, Released), 1 := Call(k, Finished)]
    ensures w.dataHighwater == k.end && w.files == q.files
  {
  }

  // ---------------------------------------------------------------- a stub at the end

  /** The index that a clean close writes right behind a recovery. */
  function ClosedAfter(r: Recovered): Index {
    r.index.(header := CheckpointHeader(r.index.header, r.next, r.highwater, r.floor))
  }

  lemma {:induction false} WalkEndsAtStop(c: Config, files: Files, end: nat, pos: nat)
    requires Walk(c, files, end, pos).error.None?
    ensures ParseAt(c, files, end, Walk(c, files, end, pos).next) == Stop
    decreases end - pos
  {
    StepAdvances(c, files, end, pos);
    hide ParseAt;
    match ParseAt(c, files, end, pos)
    case Skip(next) => WalkEndsAtStop(c, files, end, next);
    case Visit(height, size, block, next) => WalkEndsAtStop(c, files, end, next);
    case _ =>
  }

  /** The floor scan can be resumed from its own result. */
  lemma ResumeOk(a: Index, b: Index, resume: nat, bound: nat)
    requires ScanFloor(a, resume, bound).Ok? && INDEX_HEADER_SIZE + 16 * |a.slots| < U64_LIMIT
    requires b.header.minHeight == a.header.minHeight
    ensures ScanFloor(b, ScanFloor(a, resume, bound).value, bound).Ok?
  {
    var start, f := StartFloor(a, resume, bound), ScanFloor(a, resume, bound).value;
    FloorFromSpec(a, start, bound);
    hide FloorFrom;
    if a.header.minHeight <= bound && start < f < bound {
      assert PopulatedAt(a, f);
    }
  }

  /** Behind a successful recovery and a clean close, the next open fails exactly when
      the scan has ended beyond the data. */
  lemma RefusedIffPast(c: Config, files: Files, end: nat, ix: Index)
    requires ValidateLayout(c.cap, Sizes(files)) == Ok(end) && Recover(c, files, ix).Ok?
    requires |Encode(Recover(c, files, ix).value.index)| < U64_LIMIT
    ensures var r := Recover(c, files, ix).value;
      && (Recover(c, files, ClosedAfter(r)).Err? <==> r.next > end)
      && (Recover(c, files, ClosedAfter(r)) == Err(DataShrunk) <==> r.next > end)
      && r.next == Walk(c, files, end, ix.header.nextWriteOffset).next
      && Walk(c, files, end, ix.header.nextWriteOffset).error.None?
  {
    hide *;
    RecoverMeans(c, files, end, ix);
    var r := Recover(c, files, ix).value;
    RunFollowsWalk(c, files, end, ix, ix.header.nextWriteOffset, ix.header.maxHeight, ix.header.nextWriteOffset);
    WalkEndsAtStop(c, files, end, ix.header.nextWriteOffset);
    EncodedLength(r.index);
    ClosedPoints(r);
    ResumeOk(r.index, ClosedAfter(r), ix.header.contiguous, r.highwater);
    RecoverAtStop(c, files, end, ClosedAfter(r));
  }

  lemma EncodedLength(ix: Index)
    ensures |Encode(ix)| == INDEX_HEADER_SIZE + 16 * |ix.slots|
  {
  }

  lemma RecoverAtStop(c: Config, files: Files, end: nat, ix: Index)
    requires ValidateLayout(c.cap, Sizes(files)) == Ok(end)
    requires ParseAt(c, files, end, ix.header.nextWriteOffset) == Stop
    requires ScanFloor(ix, ix.header.contiguous, ix.header.maxHeight).Ok?
    ensures Recover(c, files, ix).Err? <==> ix.header.nextWriteOffset > end
    ensures Recover(c, files, ix) == Err(DataShrunk) <==> ix.header.nextWriteOffset > end
  {
    hide ParseAt, ValidateLayout, Sizes, ScanFloor;
  }

  /** Exactly when a successful recovery and a clean close leave a store that the next
      open refuses, whatever its data files hold: when files are split and a stub shorter
      than a block header ends the last one. An index file is shorter than 2^64 bytes. */
  lemma RecoverThenCloseIsRefusedIff(c: Config, files: Files, end: nat, ix: Index)
    requires SoundLayout(c, files, end) && Recover(c, files, ix).Ok?
    requires |Encode(Recover(c, files, ix).value.index)| < U64_LIMIT
    ensures var refused := c.cap.Some? && 0 < end - Resting(c, files, end, ix.header.nextWriteOffset) < HEADER_SIZE;
      && (Recover(c, files, ClosedAfter(Recover(c, files, ix).value)).Err? <==> refused)
      && (Recover(c, files, ClosedAfter(Recover(c, files, ix).value)) == Err(DataShrunk) <==> refused)
  {
    hide *;
    SoundEnd(c, files, end);
    RecoverMeans(c, files, end, ix);
    RefusedIffPast(c, files, end, ix);
    ScanOvershootsIff(c, files, end, ix.header.nextWriteOffset);
  }

  lemma SoundEnd(c: Config, files: Files, end: nat)
    requires SoundLayout(c, files, end)
    ensures ValidateLayout(c.cap, Sizes(files)) == Ok(end)
  {
  }

  // ---------------------------------------------------------------- a stub behind a log

  function LastPlace(c: Config, log: seq<Seen>): Place
    requires log != []
  {
    Split(c.cap, log[|log| - 1].offset)
  }

  /** The last data file of a log with further bytes behind its last block. */
  function WithStub(c: Config, files: Files, log: seq<Seen>, stub: seq<Byte>): Files
    requires log != []
  {
    files[LastPlace(c, log).file := FileAt(files, LastPlace(c, log).file) + stub]
  }

  ghost predicate StubFits(c: Config, files: Files, log: seq<Seen>, stub: seq<Byte>) {
    && log != [] && EndAt(log, |log|) + |stub| < U64_LIMIT
    && InOneFile(c.cap, log[|log| - 1].offset, FrameLen(log[|log| - 1]) + |stub|)
  }

  /** What a scan does behind the last block of a log that bytes follow. */
  lemma ParseStub(c: Config, files: Files, off: nat, len: nat, stub: seq<Byte>)
    requires InOneFile(c.cap, off, len + |stub|) && len > 0 && EndsWith(c.cap, files, off, len + |stub|)
    requires |stub| < HEADER_SIZE
    ensures var end, o := off + len + |stub|, ParseAt(c, files, off + len + |stub|, off + len);
      && (c.cap.None? || stub == [] ==> o == Stop)
      && (c.cap.Some? && stub != [] ==> o.Fail? || (o.Skip? && o.next >= end))
      && (c.cap.Some? && stub != [] && o.Skip? ==> (o.next > end <==> off % c.cap.value + len + |stub| < c.cap.value))
  {
    if c.cap.Some? && stub != [] {
      var cap := c.cap.value;
      EndInFile(cap, off, len);
      assert off == (off / cap) * cap + off % cap;
      assert (off / cap + 1) * cap == (off / cap) * cap + cap;
    }
  }

  lemma WalkPastEnd(c: Config, files: Files, end: nat, pos: nat, next: nat)
    requires ParseAt(c, files, end, pos) == Outcome.Skip(next) && next >= end
    ensures Walk(c, files, end, pos) == Trail([], next, None)
  {
    assert ParseAt(c, files, end, next) == Stop;
    hide ParseAt;
  }

  lemma WalkFails(c: Config, files: Files, end: nat, pos: nat)
    requires ParseAt(c, files, end, pos).Fail?
    ensures Walk(c, files, end, pos).error.Some?
  {
    hide ParseAt;
  }

  lemma StubShape(c: Config, files: Files, log: seq<Seen>, stub: seq<Byte>)
    requires log != [] && EndsWith(c.cap, files, log[|log| - 1].offset, FrameLen(log[|log| - 1]))
    ensures var after := WithStub(c, files, log, stub);
      && EndsWith(c.cap, after, log[|log| - 1].offset, FrameLen(log[|log| - 1]) + |stub|)
      && Grown(files, after)
      && forall i :: i in files && i != LastPlace(c, log).file ==> i in after && after[i] == files[i]
  {
    hide Split;
  }

  /** Bytes behind the last block disturb neither the log nor the tails it has skipped. */
  lemma StubKeepsLog(c: Config, files: Files, log: seq<Seen>, stub: seq<Byte>)
    requires Tight(c, files, log) && log != []
    ensures OnDisk(c, WithStub(c, files, log, stub), log)
  {
    var after := WithStub(c, files, log, stub);
    hide *;
    TightAt(c, files, log);
    StubShape(c, files, log, stub);
    forall i | 0 <= i < |log| && log[i].offset != EndAt(log, i)
      ensures TailClosed(c, after, EndAt(log, i))
    {
      OnDiskAt(c, files, log, i);
      SkippedBeforeLast(c, log, i);
      TailUntouched(c, files, after, EndAt(log, i), LastPlace(c, log).file);
    }
    OnDiskStays(c, files, after, log);
  }

  lemma TailUntouched(c: Config, files: Files, after: Files, at: nat, file: nat)
    requires TailClosed(c, files, at) && Split(c.cap, at).file != file
    requires forall i :: i in files && i != file ==> i in after && after[i] == files[i]
    ensures TailClosed(c, after, at)
  {
    hide Split;
  }

  /** The same with a condition on the file alone: a store that holds a history, with a
      stub of less than a block header behind its last block, is refused after recovery
      and a clean close exactly when files are split, the stub is not empty, and it does
      not happen to fill its file. */
  lemma StubBehindLogIsRefusedIff(c: Config, files: Files, log: seq<Seen>, ix: Index, k: nat, stub: seq<Byte>)
    requires c.codec.Valid() && Tight(c, files, log) && StubFits(c, files, log, stub) && |stub| < HEADER_SIZE
    requires k <= |log| && ix.header.nextWriteOffset == EndAt(log, k)
    requires Recover(c, WithStub(c, files, log, stub), ix).Ok?
    requires |Encode(Recover(c, WithStub(c, files, log, stub), ix).value.index)| < U64_LIMIT
    ensures var after := WithStub(c, files, log, stub);
      Recover(c, after, ClosedAfter(Recover(c, after, ix).value)).Err?
      <==> (c.cap.Some? && stub != [] && |FileAt(after, LastPlace(c, log).file)| < c.cap.value)
  {
    hide *;
    StubFacts(c, files, log, stub);
    var after, end := WithStub(c, files, log, stub), EndAt(log, |log|) + |stub|;
    StubLayout(c, files, log, stub);
    RefusedIffPast(c, after, end, ix);
    StubWalk(c, files, log, k, stub);
  }

  lemma StubLayout(c: Config, files: Files, log: seq<Seen>, stub: seq<Byte>)
    requires Tight(c, files, log) && StubFits(c, files, log, stub)
    ensures ValidateLayout(c.cap, Sizes(WithStub(c, files, log, stub))) == Ok(EndAt(log, |log|) + |stub|)
  {
    hide *;
    TightAt(c, files, log);
    StubFacts(c, files, log, stub);
    StubShape(c, files, log, stub);
    LayoutOfLastFile(c.cap, WithStub(c, files, log, stub), log[|log| - 1].offset, FrameLen(log[|log| - 1]) + |stub|);
  }

  /** Where a scan from any block boundary ends, if it ends without an error. */
  lemma StubWalk(c: Config, files: Files, log: seq<Seen>, k: nat, stub: seq<Byte>)
    requires c.codec.Valid() && Tight(c, files, log) && StubFits(c, files, log, stub) && |stub| < HEADER_SIZE
    requires k <= |log|
    ensures var after, end := WithStub(c, files, log, stub), EndAt(log, |log|) + |stub|;
      var w := Walk(c, after, end, EndAt(log, k));
      w.error.None? ==>
        (w.next > end <==> (c.cap.Some? && stub != [] && |FileAt(after, LastPlace(c, log).file)| < c.cap.value))
  {
    hide *;
    StubFacts(c, files, log, stub);
    var after, end := WithStub(c, files, log, stub), EndAt(log, |log|) + |stub|;
    StubKeepsLog(c, files, log, stub);
    ScanVisitsLog(c, after, end, log, k);
    StubParse(c, files, log, stub);
    var o := ParseAt(c, after, end, EndAt(log, |log|));
    if c.cap.None? || stub == [] {
      WalkStops(c, after, end, EndAt(log, |log|));
    } else if o.Fail? {
      WalkFails(c, after, end, EndAt(log, |log|));
    } else {
      WalkPastEnd(c, after, end, EndAt(log, |log|), o.next);
    }
  }

  lemma StubParse(c: Config, files: Files, log: seq<Seen>, stub: seq<Byte>)
    requires Tight(c, files, log) && StubFits(c, files, log, stub) && |stub| < HEADER_SIZE
    ensures var after, end := WithStub(c, files, log, stub), EndAt(log, |log|) + |stub|;
      var o := ParseAt(c, after, end, EndAt(log, |log|));
      && (c.cap.None? || stub == [] ==> o == Stop)
      && (c.cap.Some? && stub != [] ==> o.Fail? || (o.Skip? && o.next >= end))
      && (c.cap.Some? && stub != [] && o.Skip? ==>
            (o.next > end <==> |FileAt(after, LastPlace(c, log).file)| < c.cap.value))
  {
    hide *;
    var n := |log| - 1;
    TightAt(c, files, log);
    StubFacts(c, files, log, stub);
    StubShape(c, files, log, stub);
    LaidFacts(c, log[n], EndAt(log, n));
    ParseStub(c, WithStub(c, files, log, stub), log[n].offset, FrameLen(log[n]), stub);
    if c.cap.Some? {
      StubSize(c, files, log, stub);
    }
  }

  lemma StubFacts(c: Config, files: Files, log: seq<Seen>, stub: seq<Byte>)
    requires StubFits(c, files, log, stub)
    ensures log != [] && EndAt(log, |log|) + |stub| < U64_LIMIT
    ensures InOneFile(c.cap, log[|log| - 1].offset, FrameLen(log[|log| - 1]) + |stub|)
  {
  }

  lemma StubSize(c: Config, files: Files, log: seq<Seen>, stub: seq<Byte>)
    requires log != [] && EndsWith(c.cap, files, log[|log| - 1].offset, FrameLen(log[|log| - 1])) && c.cap.Some?
    ensures |FileAt(WithStub(c, files, log, stub), LastPlace(c, log).file)|
         == log[|log| - 1].offset % c.cap.value + FrameLen(log[|log| - 1]) + |stub|
  {
  }

  lemma ClosedPoints(r: Recovered)
    ensures var h := ClosedAfter(r).header;
      && h.nextWriteOffset == r.next && h.maxHeight == r.highwater && h.contiguous == r.floor
      && h.minHeight == r.index.header.minHeight
  {
  }

  lemma RecoverMeans(c: Config, files: Files, end: nat, ix: Index)
    requires ValidateLayout(c.cap, Sizes(files)) == Ok(end) && Recover(c, files, ix).Ok?
    ensures ix.header.nextWriteOffset <= end
    ensures var r := Recover(c, files, ix).value;
      var run := RunFrom(c, files, end, ix, ix.header.nextWriteOffset, ix.header.maxHeight, ix.header.nextWriteOffset);
      && run.error.None? && r.next == run.next && r.index == run.index && r.highwater == run.highwater
      && ScanFloor(r.index, ix.header.contiguous, r.highwater) == Ok(r.floor)
  {
    hide RunFrom, ScanFloor, ValidateLayout, Sizes;
  }

  /** An empty store whose only data file is such a stub opens once. */
  lemma StubStopsReopening(c: Config, h: Header, stub: seq<Byte>)
    requires c.cap.Some? && |stub| < c.cap.value < U64_LIMIT && NewHeader(c, h) && c.minHeight >= 1
    requires 0 < |stub| < HEADER_SIZE
    ensures var files := map[0 := stub];
      && Recover(c, files, Index(h, [])) == Ok(Recovered(Index(h, []), c.cap.value, 0, c.minHeight - 1))
      && Recover(c, files, ClosedAfter(Recover(c, files, Index(h, [])).value)) == Err(DataShrunk)
  {
    var files: Files := map[0 := stub];
    var end, cap := |stub|, c.cap.value;
    assert LastFile(Sizes(files).Keys) == 0 by { assert 0 in Sizes(files).Keys; }
    assert ValidateLayout(c.cap, Sizes(files)) == Ok(end);
    assert Split(c.cap, 0) == Place(0, 0) by { DivMul(0, cap); }
    assert ParseAt(c, files, end, 0) == Outcome.Skip(cap);
    assert ParseAt(c, files, end, cap) == Stop;
    hide ParseAt;
    assert RunFrom(c, files, end, Index(h, []), cap, 0, 0) == Run(Index(h, []), cap, 0, None);
    assert RunFrom(c, files, end, Index(h, []), 0, 0, 0) == Run(Index(h, []), cap, 0, None);
    assert RunOn(c, files, end, Index(h, [])) == Run(Index(h, []), cap, 0, None);
    assert ScanFloor(Index(h, []), 0, 0) == Ok(c.minHeight - 1);
    hide RunFrom, RunOn, ScanFloor, ValidateLayout, Sizes;
    ShrunkIff(c, files, ClosedAfter(Recover(c, files, Index(h, [])).value));
  }
}
