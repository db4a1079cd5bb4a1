/** Whole histories of writes: what the open store remembers agrees with the
    history, and closing and reopening it is the identity. */
module Reopen {
  import opened Bytes
  import opened Results
  import opened BlockFormat
  import opened FileSet
  import opened IndexFile
  import opened FloorScan
  import opened BlockIo
  import opened Scan
  import opened Log
  import opened History
  import opened StoreState

  /** The state agrees with the history `log`, and its stored header was written
      when the first `k` blocks were indexed. */
  ghost predicate Keeps(c: Config, s: State, log: seq<Seen>, k: nat) {
    && Tight(c, s.files, log)
    && s.index.slots == SlotsOf(c, log)
    && s.dataHighwater == EndAt(log, |log|)
    && IsHighwater(c, log, s.heightHighwater)
    && IsLogFloor(c, log, s.floor)
    && HeaderDescribes(c, s.index.header, log, k)
    && s.lastCheckpoint == s.index.header.nextWriteOffset
  }

  lemma KeepsFacts(c: Config, s: State, log: seq<Seen>, k: nat)
    requires Keeps(c, s, log, k)
    ensures Tight(c, s.files, log) && OnDisk(c, s.files, log) && Laid(c, log)
    ensures s.index.slots == SlotsOf(c, log) && s.dataHighwater == EndAt(log, |log|)
    ensures IsHighwater(c, log, s.heightHighwater) && IsLogFloor(c, log, s.floor)
    ensures HeaderDescribes(c, s.index.header, log, k) && k <= |log|
    ensures s.index.header.nextWriteOffset == EndAt(log, k) == s.lastCheckpoint
    ensures Matches(c, s.index.header) && c.minHeight == s.index.header.minHeight
  {
    hide LaidAt, FrameOnDisk, TailClosed, SlotsOf, IsHighwater, IsLogFloor;
  }

  /** A store as `open` with `truncate` leaves it. */
  function Fresh(h: Header): State {
    State(map[], Index(h, []), 0, if h.minHeight == 0 then 0 else h.minHeight - 1,
          if h.minHeight == 0 then 0 else h.minHeight - 1, 0)
  }

  lemma FreshKeeps(c: Config, h: Header)
    requires Matches(c, h) && c.minHeight >= 1
    requires h.nextWriteOffset == 0 && h.maxHeight == 0 && h.contiguous == 0
    ensures Keeps(c, Fresh(h), [], 0)
  {
  }

  /** The block that a write appends to the history. */
  function Appended(c: Config, off: nat, height: nat, block: seq<Byte>): Seen {
    Seen(height, off, |c.codec.compress(block)|, block)
  }

  lemma HighwaterAppend(c: Config, log: seq<Seen>, hw: nat, v: Seen)
    requires IsHighwater(c, log, hw) && c.minHeight <= v.height
    ensures IsHighwater(c, log + [v], Max(hw, v.height))
  {
    var all := log + [v];
    assert forall x :: x in all <==> x in log || x == v;
    if log != [] {
      var u :| u in log && u.height == hw;
      assert u in all;
    }
    assert v in all;
  }

  /** The incremental floor is the floor of the longer history. */
  lemma FloorAppend(c: Config, ix: Index, log: seq<Seen>, floor: nat, v: Seen)
    requires c.minHeight >= 1 && HeightsOk(c, log) && Addressable(c.minHeight, v.height) && v.size > 0
    requires ix.slots == SlotsOf(c, log) && ix.header.minHeight == c.minHeight
    requires IsLogFloor(c, log, floor)
    ensures var after := ix.(slots := Put(ix.slots, Slot(c, v.height), Entry(v.offset, v.size, 0)));
      && IsLogFloor(c, log + [v], AdvancedFloor(after, floor, v.height))
      && after.slots == SlotsOf(c, log + [v])
  {
    SlotsOfAppend(c, log, v);
    HeightsAppend(c, log, v);
    AddressableMin(c.minHeight, v.height);
    hide SlotsOf, Put, HeightsOk, AdvancedFloor, PopulatedAt, Addressable;
    var e := Entry(v.offset, v.size, 0);
    var after := ix.(slots := Put(ix.slots, Slot(c, v.height), e));
    assert Slot(c, v.height) == v.height - ix.header.minHeight;
    forall h | c.minHeight <= h <= floor
      ensures PopulatedAt(ix, h)
    {
      PopulatedIffLogged(c, log, ix, h);
    }
    PopulatedIffLogged(c, log, ix, floor + 1);
    FloorSurvivesWrite(ix, v.height, e, floor);
    var raised := AdvancedFloor(after, floor, v.height);
    forall h | c.minHeight <= h <= raised
      ensures Logged(log + [v], h)
    {
      PopulatedIffLogged(c, log + [v], after, h);
    }
    PopulatedIffLogged(c, log + [v], after, raised + 1);
  }

  lemma HeightsAppend(c: Config, log: seq<Seen>, v: Seen)
    requires HeightsOk(c, log) && Addressable(c.minHeight, v.height) && v.size > 0
    ensures HeightsOk(c, log + [v])
  {
  }

  lemma HeaderStays(c: Config, h: Header, log: seq<Seen>, k: nat, v: Seen)
    requires HeaderDescribes(c, h, log, k)
    ensures HeaderDescribes(c, h, log + [v], k)
  {
    assert (log + [v])[..k] == log[..k];
  }

  /** A checkpoint header describes the whole history so far. */
  lemma CheckpointDescribes(c: Config, h: Header, log: seq<Seen>, hw: nat, floor: nat)
    requires Matches(c, h) && IsHighwater(c, log, hw) && IsLogFloor(c, log, floor)
    ensures HeaderDescribes(c, CheckpointHeader(h, EndAt(log, |log|), hw, floor), log, |log|)
  {
    assert log[..|log|] == log;
  }

  lemma AdmittedIsLaid(c: Config, s: State, height: nat, block: seq<Byte>, from: nat)
    requires c.codec.Valid() && height < U64_LIMIT && s.dataHighwater == from
    requires FileIndexLeft(c, from) && Admit(c, from, height, block).Ok?
    requires |c.codec.compress(block)| <= MAX_BLOCK_SIZE
    ensures var r := Admit(c, from, height, block).value;
      var v := Appended(c, r.offset, height, block);
      && LaidAt(c, v, from) && v.offset + FrameLen(v) == r.end
      && Addressable(c.minHeight, v.height) && v.size > 0
  {
    AdmittedPlace(c, from, height, block);
    PayloadPositive(c, block);
    var len := |c.codec.compress(block)| + HEADER_SIZE;
    assert len == HEADER_SIZE + |c.codec.compress(block)|;
  }

  lemma IndexedKeeps(c: Config, s: State, log: seq<Seen>, k: nat, height: U64, block: seq<Byte>)
    requires c.codec.Valid() && c.minHeight >= 1 && Keeps(c, s, log, k)
    requires FileIndexLeft(c, s.dataHighwater) && Admit(c, s.dataHighwater, height, block).Ok?
    requires |c.codec.compress(block)| <= MAX_BLOCK_SIZE
    ensures var r := Admit(c, s.dataHighwater, height, block).value;
      Keeps(c, Indexed(c, s, r, height, block), log + [Appended(c, r.offset, height, block)], k)
  {
    KeepsFacts(c, s, log, k);
    AdmittedIsLaid(c, s, height, block, s.dataHighwater);
    var r := Admit(c, s.dataHighwater, height, block).value;
    var v := Appended(c, r.offset, height, block);
    assert Indexed(c, s, r, height, block).files == WriteFrame(c, s.files, v);
    hide Admit, Reserve, Tight, LaidAt, OnDisk, HeaderDescribes, IsLogFloor, IsHighwater, PlaceFrame, WriteFrame,
         SlotsOf, AdvancedFloor, Laid, Addressable, FileIndexLeft, Put;
    TightAppend(c, s.files, log, v);
    LaidHeights(c, log);
    AddressableMin(c.minHeight, height);
    HighwaterAppend(c, log, s.heightHighwater, v);
    FloorAppend(c, s.index, log, s.floor, v);
    HeaderStays(c, s.index.header, log, k, v);
  }

  /** A successful write appends its block to the history, and nothing else changes. */
  lemma WriteKeepsHistory(c: Config, s: State, log: seq<Seen>, k: nat, height: U64, block: seq<Byte>) returns (k': nat)
    requires c.codec.Valid() && c.minHeight >= 1 && Keeps(c, s, log, k)
    requires FileIndexLeft(c, s.dataHighwater) && Write(c, s, height, block).Ok?
    requires |c.codec.compress(block)| <= MAX_BLOCK_SIZE
    ensures var off := Admit(c, s.dataHighwater, height, block).value.offset;
      Keeps(c, Write(c, s, height, block).value, log + [Appended(c, off, height, block)], k')
  {
    IndexedKeeps(c, s, log, k, height, block);
    var r := Admit(c, s.dataHighwater, height, block).value;
    var next := Indexed(c, s, r, height, block);
    var all := log + [Appended(c, r.offset, height, block)];
    KeepsFacts(c, next, all, k);
    CheckpointKeeps(c, next, all, k);
    k' := if CheckpointDue(s.heightHighwater < height, height, r.end, s.lastCheckpoint) then |all| else k;
  }

  lemma CheckpointKeeps(c: Config, s: State, log: seq<Seen>, k: nat)
    requires Keeps(c, s, log, k)
    ensures Keeps(c, Checkpointed(s), log, |log|)
  {
    KeepsFacts(c, s, log, k);
    hide Tight, SlotsOf, IsHighwater, IsLogFloor, HeaderDescribes, EndAt;
    CheckpointDescribes(c, s.index.header, log, s.heightHighwater, s.floor);
  }

  // ---------------------------------------------------------------- sequences of writes

  datatype Request = Request(height: U64, block: seq<Byte>)

  /** The state after a sequence of successful writes. */
  function After(c: Config, s: State, items: seq<Request>): Result<State> {
    if items == [] then Ok(s)
    else
      var before :- After(c, s, items[..|items| - 1]);
      Write(c, before, items[|items| - 1].height, items[|items| - 1].block)
  }

  /** The same blocks in the same order. */
  ghost predicate SameBlocks(log: seq<Seen>, items: seq<Request>) {
    && |log| == |items|
    && forall i :: 0 <= i < |log| ==> log[i].height == items[i].height && log[i].block == items[i].block
  }

  /** Requests that reads will not refuse for their compressed size. */
  ghost predicate ReadableSizes(c: Config, items: seq<Request>) {
    forall x :: x in items ==> |c.codec.compress(x.block)| <= MAX_BLOCK_SIZE
  }

  lemma WriteMovesForward(c: Config, s: State, height: U64, block: seq<Byte>)
    requires Write(c, s, height, block).Ok?
    ensures Admit(c, s.dataHighwater, height, block).Ok?
    ensures s.dataHighwater <= Write(c, s, height, block).value.dataHighwater
  {
    ReserveFits(c.cap, s.dataHighwater, |c.codec.compress(block)| + HEADER_SIZE);
  }

  lemma FileIndexLeftBelow(c: Config, a: nat, b: nat)
    requires a <= b && FileIndexLeft(c, b)
    ensures FileIndexLeft(c, a)
  {
    if c.cap.Some? {
      DivMonotone(a, b, c.cap.value);
    }
  }

  /** The store refines the history: after any sequence of successful writes, at any
      heights and in any order, the state agrees with exactly those blocks. */
  lemma {:induction false} HistoryIsKept(c: Config, h: Header, items: seq<Request>) returns (log: seq<Seen>, k: nat)
    requires c.codec.Valid() && c.minHeight >= 1 && Matches(c, h)
    requires h.nextWriteOffset == 0 && h.maxHeight == 0 && h.contiguous == 0
    requires After(c, Fresh(h), items).Ok? && ReadableSizes(c, items)
    requires FileIndexLeft(c, After(c, Fresh(h), items).value.dataHighwater)
    ensures SameBlocks(log, items)
    ensures Keeps(c, After(c, Fresh(h), items).value, log, k)
    decreases |items|
  {
    hide *;
    if items == [] {
      FreshKeeps(c, h);
      log, k := [], 0;
      NoBlocks();
      AfterNothing(c, Fresh(h));
    } else {
      var n := |items| - 1;
      var x := items[n];
      AfterStep(c, Fresh(h), items);
      var s := After(c, Fresh(h), items[..n]).value;
      ReadablePrefix(c, items);
      WriteMovesForward(c, s, x.height, x.block);
      FileIndexLeftBelow(c, s.dataHighwater, After(c, Fresh(h), items).value.dataHighwater);
      log, k := HistoryIsKept(c, h, items[..n]);
      k := WriteKeepsHistory(c, s, log, k, x.height, x.block);
      var v := Appended(c, Admit(c, s.dataHighwater, x.height, x.block).value.offset, x.height, x.block);
      BlocksAppend(log, items, v, c, Admit(c, s.dataHighwater, x.height, x.block).value.offset);
      log := log + [v];
    }
  }

  lemma AfterNothing(c: Config, s: State)
    ensures After(c, s, []) == Ok(s)
  {
  }

  lemma AfterStep(c: Config, s: State, items: seq<Request>)
    requires items != [] && After(c, s, items).Ok?
    ensures var n := |items| - 1;
      && After(c, s, items[..n]).Ok?
      && After(c, s, items) == Write(c, After(c, s, items[..n]).value, items[n].height, items[n].block)
  {
  }

  lemma ReadablePrefix(c: Config, items: seq<Request>)
    requires items != [] && ReadableSizes(c, items)
    ensures ReadableSizes(c, items[..|items| - 1])
    ensures |c.codec.compress(items[|items| - 1].block)| <= MAX_BLOCK_SIZE
  {
    assert items[|items| - 1] in items;
  }

  lemma NoBlocks()
    ensures SameBlocks([], [])
  {
  }

  lemma BlocksAppend(log: seq<Seen>, items: seq<Request>, v: Seen, c: Config, off: nat)
    requires items != [] && SameBlocks(log, items[..|items| - 1])
    requires v == Appended(c, off, items[|items| - 1].height, items[|items| - 1].block)
    ensures SameBlocks(log + [v], items)
  {
  }

  /** Reads after a history: the last block written at each height, nothing elsewhere. */
  lemma ReadsAfterHistory(c: Config, s: State, log: seq<Seen>, k: nat)
    requires c.codec.Valid() && Keeps(c, s, log, k)
    ensures forall h :: Addressable(c.minHeight, h) ==>
              ReadBlock(c, s.files, s.index.slots, h) == Ok(LastBlock(log, h))
  {
    KeepsFacts(c, s, log, k);
    hide Keeps, OnDisk, SlotsOf, ReadBlock, LastBlock, Addressable;
    forall h | Addressable(c.minHeight, h)
      ensures ReadBlock(c, s.files, s.index.slots, h) == Ok(LastBlock(log, h))
    {
      ReadsMatchLog(c, s.files, log, h);
    }
  }

  // ---------------------------------------------------------------- reopening

  lemma LogFloorIsUnique(c: Config, log: seq<Seen>, f: nat, g: nat)
    requires c.minHeight >= 1 && IsLogFloor(c, log, f) && IsLogFloor(c, log, g)
    ensures f == g
  {
  }

  lemma TightIsRecoverable(c: Config, files: Files, log: seq<Seen>)
    requires c.codec.Valid() && Tight(c, files, log)
    ensures Recoverable(c, files, log, EndAt(log, |log|), EndAt(log, |log|))
  {
    ScanInvertsWriter(c, files, log, |log|);
    TightAt(c, files, log);
    hide Tight, OnDisk, Walk, ValidateLayout;
    assert log[|log|..] == [];
  }

  lemma SlotsAreUpTo(c: Config, log: seq<Seen>, k: nat)
    requires k <= |log|
    ensures IndexUpTo(c, SlotsOf(c, log), log, k)
  {
    var base, ws := SlotsOf(c, log[..k]), Updates(c, log[k..]);
    SlotsOfConcat(c, log[..k], log[k..]);
    assert log[..k] + log[k..] == log;
    PutAllCovered(base, ws);
  }

  /** Having applied the writes is one way of being about to apply them. */
  lemma PutAllCovered(base: seq<Entry>, ws: seq<SlotUpdate>)
    ensures Covered(base, PutAll(base, ws), ws)
  {
    PutAllSpec(base, ws);
    ReachBounds(ws, |base|);
    forall k: nat
      ensures Get(PutAll(base, ws), k) == Get(base, k) || Writes(ws, k)
    {
      if !Writes(ws, k) {
        forall i | 0 <= i < |ws|
          ensures ws[i].slot != k
        {
          assert ws[i] in ws;
        }
        NoLaterWrite(ws, k, Get(base, k));
      }
    }
  }

  /** Reopening without a clean shutdown, all writes having reached the disk: recovery
      walks the blocks since the last checkpoint and restores everything. */
  lemma ReopenRestores(c: Config, s: State, log: seq<Seen>, k: nat)
    requires c.codec.Valid() && c.minHeight >= 1 && Keeps(c, s, log, k)
    ensures Recover(c, s.files, s.index).Ok?
    ensures var r := Recover(c, s.files, s.index).value;
      && Represents(c, s.files, r, log)
      && r.index.slots == s.index.slots && r.next == s.dataHighwater && r.floor == s.floor
      && (log != [] ==> r.highwater == s.heightHighwater)
    ensures ValidateLayout(c.cap, Sizes(s.files)) == Ok(s.dataHighwater)
  {
    KeepsFacts(c, s, log, k);
    TightIsRecoverable(c, s.files, log);
    SlotsAreUpTo(c, log, k);
    RecoverableLayout(c, s.files, log, EndAt(log, |log|), EndAt(log, |log|));
    hide *;
    RecoversLog(c, s.files, s.index, log, k, EndAt(log, |log|), EndAt(log, |log|));
    var r := Recover(c, s.files, s.index).value;
    RepresentsFacts(c, s.files, r, log);
    LogFloorIsUnique(c, log, r.floor, s.floor);
    if log != [] {
      HighwaterIsUnique(c, log, r.highwater, s.heightHighwater);
    }
  }

  lemma RecoverableLayout(c: Config, files: Files, log: seq<Seen>, end: nat, next: nat)
    requires Recoverable(c, files, log, end, next)
    ensures ValidateLayout(c.cap, Sizes(files)) == Ok(end)
  {
  }

  lemma RepresentsFacts(c: Config, files: Files, r: Recovered, log: seq<Seen>)
    requires Represents(c, files, r, log)
    ensures IsHighwater(c, log, r.highwater) && IsLogFloor(c, log, r.floor)
  {
  }

  lemma HighwaterIsUnique(c: Config, log: seq<Seen>, a: nat, b: nat)
    requires log != [] && IsHighwater(c, log, a) && IsHighwater(c, log, b)
    ensures a == b
  {
    var u :| u in log && u.height == a;
    var v :| v in log && v.height == b;
  }

  /** A clean close and reopen is the identity: the layout equals the allocator's
      position, so no block is scanned, and every part of the state comes back. */
  lemma CleanReopenIsIdentity(c: Config, s: State, log: seq<Seen>, k: nat)
    requires c.codec.Valid() && c.minHeight >= 1 && Keeps(c, s, log, k)
    ensures var closed := Checkpointed(s);
      && ValidateLayout(c.cap, Sizes(s.files)) == Ok(closed.index.header.nextWriteOffset)
      && Recover(c, s.files, closed.index)
          == Ok(Recovered(closed.index, s.dataHighwater, s.heightHighwater, s.floor))
  {
    var closed := Checkpointed(s);
    CheckpointKeeps(c, s, log, k);
    ReopenRestores(c, closed, log, |log|);
    KeepsFacts(c, s, log, k);
    NoScan(c, s.files, s.dataHighwater, closed.index);
  }

  lemma NoScan(c: Config, files: Files, end: nat, ix: Index)
    requires ValidateLayout(c.cap, Sizes(files)) == Ok(end) && ix.header.nextWriteOffset == end
    requires Recover(c, files, ix).Ok?
    ensures var r := Recover(c, files, ix).value;
      r.index == ix && r.next == end && r.highwater == ix.header.maxHeight
  {
    hide ValidateLayout;
  }

  // ---------------------------------------------------------------- going on after recovery

  /** Recovery of a history re-establishes what every operation of an open store relies
      on: each entry's bytes exist below the allocator, and the floor is sound. */
  lemma RecoveredStateIsSound(c: Config, files: Files, ix: Index, log: seq<Seen>, k: nat, end: nat, next: nat)
    requires c.codec.Valid() && c.minHeight >= 1
    requires Recoverable(c, files, log, end, next)
    requires HeaderDescribes(c, ix.header, log, k) && IndexUpTo(c, ix.slots, log, k)
    ensures Recover(c, files, ix).Ok?
    ensures var r := Recover(c, files, ix).value;
      AllBacked(c, files, r.index.slots, r.next) && FloorSound(r.index, r.floor)
  {
    hide *;
    RecoversLog(c, files, ix, log, k, end, next);
    var r := Recover(c, files, ix).value;
    RepresentsFacts(c, files, r, log);
    RecoverableLog(c, files, log, end, next);
    OnDiskAt(c, files, log, 0);
    LaidHeights(c, log);
    LogIsBacked(c, files, log);
    AllBackedGrows(c, files, r.index.slots, EndAt(log, |log|), next);
    MatchesMin(c, r.index.header);
    LogFloorIsSound(c, r.index, log, r.floor);
  }

  /** What is on disk holds some history, up to index writes that a scan repeats. */
  ghost predicate HoldsHistory(c: Config, files: Files, ix: Index) {
    exists log: seq<Seen>, k: nat, end: nat, next: nat ::
      Recoverable(c, files, log, end, next) && HeaderDescribes(c, ix.header, log, k) && IndexUpTo(c, ix.slots, log, k)
  }

  lemma HistoryRecovers(c: Config, files: Files, ix: Index)
    requires c.codec.Valid() && c.minHeight >= 1 && HoldsHistory(c, files, ix)
    ensures Recover(c, files, ix).Ok?
    ensures var r := Recover(c, files, ix).value;
      AllBacked(c, files, r.index.slots, r.next) && FloorSound(r.index, r.floor)
  {
    hide Recoverable, HeaderDescribes, IndexUpTo, Recover, AllBacked, FloorSound;
    var log: seq<Seen>, k: nat, end: nat, next: nat :|
      Recoverable(c, files, log, end, next) && HeaderDescribes(c, ix.header, log, k) && IndexUpTo(c, ix.slots, log, k);
    RecoveredStateIsSound(c, files, ix, log, k, end, next);
  }

  /** Every state that successful writes lead to leaves such a disk, closed or not. */
  lemma KeptHistoryIsHeld(c: Config, s: State, log: seq<Seen>, k: nat)
    requires c.codec.Valid() && Keeps(c, s, log, k)
    ensures HoldsHistory(c, s.files, s.index) && HoldsHistory(c, s.files, Checkpointed(s).index)
  {
    hide *;
    KeepsFacts(c, s, log, k);
    TightIsRecoverable(c, s.files, log);
    SlotsAreUpTo(c, log, k);
    HeldIntro(c, s.files, s.index, log, k);
    CheckpointKeeps(c, s, log, k);
    KeepsFacts(c, Checkpointed(s), log, |log|);
    SlotsAreUpTo(c, log, |log|);
    HeldIntro(c, s.files, Checkpointed(s).index, log, |log|);
  }

  lemma HeldIntro(c: Config, files: Files, ix: Index, log: seq<Seen>, k: nat)
    requires Recoverable(c, files, log, EndAt(log, |log|), EndAt(log, |log|))
    requires HeaderDescribes(c, ix.header, log, k) && IndexUpTo(c, ix.slots, log, k)
    ensures HoldsHistory(c, files, ix)
  {
    hide Recoverable, HeaderDescribes, IndexUpTo;
  }

  lemma MatchesMin(c: Config, h: Header)
    requires Matches(c, h)
    ensures h.minHeight == c.minHeight
  {
  }

  /** The scan never ends in front of the last block of the history. */
  lemma RecoverableLog(c: Config, files: Files, log: seq<Seen>, end: nat, next: nat)
    requires Recoverable(c, files, log, end, next)
    ensures OnDisk(c, files, log) && EndAt(log, |log|) <= next
  {
    hide OnDisk, Walk, ValidateLayout;
    WalkMovesForward(c, files, end, EndAt(log, |log|));
  }

  lemma {:induction false} WalkMovesForward(c: Config, files: Files, end: nat, pos: nat)
    ensures pos <= Walk(c, files, end, pos).next
    decreases end - pos
  {
    StepAdvances(c, files, end, pos);
    match ParseAt(c, files, end, pos)
    case Skip(next) => WalkMovesForward(c, files, end, next);
    case Visit(height, size, block, next) => WalkMovesForward(c, files, end, next);
    case _ =>
  }

  lemma LogFloorIsSound(c: Config, ix: Index, log: seq<Seen>, f: nat)
    requires HeightsOk(c, log) && ix.slots == SlotsOf(c, log) && ix.header.minHeight == c.minHeight
    requires IsLogFloor(c, log, f)
    ensures FloorSound(ix, f)
  {
    hide SlotsOf, PopulatedAt, HeightsOk;
    forall h | c.minHeight <= h <= f
      ensures PopulatedAt(ix, h)
    {
      PopulatedIffLogged(c, log, ix, h);
    }
  }

  lemma LogIsBacked(c: Config, files: Files, log: seq<Seen>)
    requires OnDisk(c, files, log) && HeightsOk(c, log)
    ensures AllBacked(c, files, SlotsOf(c, log), EndAt(log, |log|))
  {
    hide *;
    forall k | 0 <= k < |SlotsOf(c, log)| && SlotsOf(c, log)[k].size > 0
      ensures Backed(c, files, SlotsOf(c, log)[k], EndAt(log, |log|))
    {
      EntryIsBacked(c, files, log, k);
    }
    AllBackedIntro(c, files, SlotsOf(c, log), EndAt(log, |log|));
  }

  lemma AllBackedIntro(c: Config, files: Files, slots: seq<Entry>, limit: nat)
    requires forall k :: 0 <= k < |slots| && slots[k].size > 0 ==> Backed(c, files, slots[k], limit)
    ensures AllBacked(c, files, slots, limit)
  {
    hide Backed;
  }

  lemma EntryIsBacked(c: Config, files: Files, log: seq<Seen>, k: nat)
    requires OnDisk(c, files, log) && HeightsOk(c, log)
    requires k < |SlotsOf(c, log)| && SlotsOf(c, log)[k].size > 0
    ensures Backed(c, files, SlotsOf(c, log)[k], EndAt(log, |log|))
  {
    hide *;
    var h := c.minHeight + k;
    SlotHeight(c, SlotsOf(c, log), k);
    SlotOfHeight(c, log, h);
    if Logged(log, h) {
      var i: nat :| IsCurrent(c, log, h, i);
      CurrentFacts(c, log, h, i);
      OnDiskAt(c, files, log, i);
      EndsIncrease(c, log, i, |log|);
      LaidFacts(c, log[i], EndAt(log, i));
      BlockIsBacked(c, files, log[i], EndAt(log, |log|));
    } else {
      assert false by { NoSize(); }
    }
  }

  lemma NoSize()
    ensures ZERO.size == 0
  {
  }

  lemma SlotHeight(c: Config, slots: seq<Entry>, k: nat)
    requires k < |slots|
    ensures Slot(c, c.minHeight + k) == k && Get(slots, k) == slots[k]
  {
  }

  lemma BlockIsBacked(c: Config, files: Files, v: Seen, limit: nat)
    requires FrameOnDisk(c, files, v) && InOneFile(c.cap, v.offset, FrameLen(v)) && v.size == |c.codec.compress(v.block)|
    requires v.offset + FrameLen(v) <= limit
    ensures Backed(c, files, Entry(v.offset, v.size, 0), limit)
  {
    hide Split, InOneFile, Serialize;
  }

  // ---------------------------------------------------------------- what failed writes leave

  /** Exactly when reopening keeps what every read returned: when each height that the
      scan behind the persisted offset visits already read as its last visited block.
      Without visits nothing changes. */
  lemma ReopenKeepsReadsIff(c: Config, files: Files, ix: Index)
    requires Recover(c, files, ix).Ok?
    ensures var visits := Walk(c, files, ValidateLayout(c.cap, Sizes(files)).value, ix.header.nextWriteOffset).visits;
      var r := Recover(c, files, ix).value;
      var kept := forall h :: Addressable(c.minHeight, h) ==>
                    ReadBlock(c, files, r.index.slots, h) == ReadBlock(c, files, ix.slots, h);
      && (kept <==> forall i: nat :: IsLastVisit(visits, i) ==>
                      ReadBlock(c, files, ix.slots, visits[i].height) == Ok(Some(visits[i].block)))
      && (visits == [] ==> kept)
  {
    hide *;
    var end := RecoverRuns(c, files, ix);
    ScanIsSound(c, files, end, ix);
    WalkReadsBack(c, files, end, ix.header.nextWriteOffset);
    KeptIff(c, files, ix.slots, Recover(c, files, ix).value.index.slots,
            Walk(c, files, end, ix.header.nextWriteOffset).visits);
  }

  lemma RecoverRuns(c: Config, files: Files, ix: Index) returns (end: nat)
    requires Recover(c, files, ix).Ok?
    ensures ValidateLayout(c.cap, Sizes(files)) == Ok(end)
    ensures Recover(c, files, ix).value.index == RunOn(c, files, end, ix).index
  {
    hide RunOn, ScanFloor, ValidateLayout, Sizes;
    end := ValidateLayout(c.cap, Sizes(files)).value;
  }

  lemma KeptIff(c: Config, files: Files, before: seq<Entry>, after: seq<Entry>, visits: seq<Seen>)
    requires forall i: nat :: IsLastVisit(visits, i) ==>
               ReadBlock(c, files, after, visits[i].height) == Ok(Some(visits[i].block))
    requires forall h :: c.minHeight <= h && (forall v :: v in visits ==> v.height != h) ==>
               Get(after, Slot(c, h)) == Get(before, Slot(c, h))
    requires forall v :: v in visits ==> Addressable(c.minHeight, v.height)
    ensures var kept := forall h :: Addressable(c.minHeight, h) ==>
                          ReadBlock(c, files, after, h) == ReadBlock(c, files, before, h);
      && (kept <==> forall i: nat :: IsLastVisit(visits, i) ==>
                      ReadBlock(c, files, before, visits[i].height) == Ok(Some(visits[i].block)))
      && (visits == [] ==> kept)
  {
    hide ReadEntry, Get, Slot;
    forall i: nat | IsLastVisit(visits, i)
      ensures Addressable(c.minHeight, visits[i].height)
    {
      assert visits[i] in visits;
    }
    forall h | Addressable(c.minHeight, h) && exists v :: v in visits && v.height == h
      ensures exists i: nat :: IsLastVisit(visits, i) && visits[i].height == h
    {
      LastBlockAt(visits, h);
      assert Logged(visits, h);
    }
    forall h | Addressable(c.minHeight, h) && forall v :: v in visits ==> v.height != h
      ensures ReadBlock(c, files, after, h) == ReadBlock(c, files, before, h)
    {
    }
    hide ReadBlock, Addressable;
  }

  /** A write that fails at its data sync reports an error, changes no read and gives its
      space back; but its frame is on disk behind the highwater, and a clean close and
      reopen index the block after all. */
  lemma FailedSyncComesBack(c: Config, s: State, log: seq<Seen>, k: nat, height: U64, block: seq<Byte>)
    requires c.codec.Valid() && c.minHeight >= 1 && Keeps(c, s, log, k)
    requires FileIndexLeft(c, s.dataHighwater) && Admit(c, s.dataHighwater, height, block).Ok?
    requires |c.codec.compress(block)| <= MAX_BLOCK_SIZE
    ensures var files := PlaceFrame(c, s.files, Admit(c, s.dataHighwater, height, block).value.offset, height, block);
      var closed := Checkpointed(s).index;
      && Recover(c, files, closed).Ok?
      && (forall h :: Addressable(c.minHeight, h) ==>
            && ReadBlock(c, files, s.index.slots, h) == Ok(LastBlock(log, h))
            && ReadBlock(c, files, Recover(c, files, closed).value.index.slots, h)
                == Ok(if h == height then Some(block) else LastBlock(log, h)))
  {
    hide *;
    var r := Admit(c, s.dataHighwater, height, block).value;
    var v := Appended(c, r.offset, height, block);
    FrameOf(c, s.files, r.offset, height, block);
    var files := PlaceFrame(c, s.files, r.offset, height, block);
    var all := log + [v];
    KeepsFacts(c, s, log, k);
    AdmittedIsLaid(c, s, height, block, s.dataHighwater);
    TightAppend(c, s.files, log, v);
    TightIsRecoverable(c, files, all);
    CheckpointKeeps(c, s, log, k);
    KeepsFacts(c, Checkpointed(s), log, |log|);
    HeaderStays(c, Checkpointed(s).index.header, log, |log|, v);
    SlotsAreStale(c, log, v);
    RecoversLog(c, files, Checkpointed(s).index, all, |log|, EndAt(all, |all|), EndAt(all, |all|));
    TightAt(c, files, all);
    ReadsComeBack(c, files, s.index.slots, Recover(c, files, Checkpointed(s).index).value.index.slots, log, v);
  }

  lemma FrameOf(c: Config, files: Files, off: nat, height: U64, block: seq<Byte>)
    requires |c.codec.compress(block)| <= MAX_BLOCK_SIZE
    ensures var v := Appended(c, off, height, block);
      && |c.codec.compress(v.block)| < U32_LIMIT && v.height == height && v.block == block
      && WriteFrame(c, files, v) == PlaceFrame(c, files, off, height, block)
  {
  }

  /** An index without the last block is one that recovery completes. */
  lemma SlotsAreStale(c: Config, log: seq<Seen>, v: Seen)
    ensures IndexUpTo(c, SlotsOf(c, log), log + [v], |log|)
  {
    assert (log + [v])[..|log|] == log;
    ReachBounds(Updates(c, (log + [v])[|log|..]), |SlotsOf(c, log)|);
    hide SlotsOf, Updates, Reach;
  }

  lemma ReadsComeBack(c: Config, files: Files, before: seq<Entry>, after: seq<Entry>, log: seq<Seen>, v: Seen)
    requires c.codec.Valid() && OnDisk(c, files, log + [v])
    requires before == SlotsOf(c, log) && after == SlotsOf(c, log + [v])
    ensures forall h :: Addressable(c.minHeight, h) ==>
              && ReadBlock(c, files, before, h) == Ok(LastBlock(log, h))
              && ReadBlock(c, files, after, h) == Ok(if h == v.height then Some(v.block) else LastBlock(log, h))
  {
    hide *;
    OnDiskPrefix(c, files, log, v);
    forall h | Addressable(c.minHeight, h)
      ensures ReadBlock(c, files, before, h) == Ok(LastBlock(log, h))
      ensures ReadBlock(c, files, after, h) == Ok(if h == v.height then Some(v.block) else LastBlock(log, h))
    {
      ReadsMatchLog(c, files, log, h);
      ReadsMatchLog(c, files, log + [v], h);
      LastBlockOfMore(log, v, h);
    }
  }

  lemma OnDiskPrefix(c: Config, files: Files, log: seq<Seen>, v: Seen)
    requires OnDisk(c, files, log + [v])
    ensures OnDisk(c, files, log)
  {
    hide *;
    forall i | 0 <= i < |log|
      ensures LogEntryOnDisk(c, files, log, i)
    {
      OnDiskAt(c, files, log + [v], i);
      EndOfPrefix(log, v, i);
      LogEntryIntro(c, files, log, i);
    }
    OnDiskIntro(c, files, log);
  }

  lemma LastBlockOfMore(log: seq<Seen>, v: Seen, h: nat)
    ensures LastBlock(log + [v], h) == if h == v.height then Some(v.block) else LastBlock(log, h)
  {
    assert (log + [v])[..|log|] == log;
  }

  // ---------------------------------------------------------------- file sizes

  /** In a store that was created with a file size, no data file grows beyond it. */
  lemma FilesStayWithin(c: Config, h: Header, items: seq<Request>)
    requires c.codec.Valid() && c.minHeight >= 1 && Matches(c, h)
    requires h.nextWriteOffset == 0 && h.maxHeight == 0 && h.contiguous == 0
    requires After(c, Fresh(h), items).Ok? && ReadableSizes(c, items)
    requires FileIndexLeft(c, After(c, Fresh(h), items).value.dataHighwater)
    requires 0 < h.maxDataFileSize < 0xFFFF_FFFF_FFFF_FFFF
    ensures forall i :: i in After(c, Fresh(h), items).value.files ==>
      |After(c, Fresh(h), items).value.files[i]| <= h.maxDataFileSize
  {
    assert c.cap == Some(h.maxDataFileSize);
    var files := After(c, Fresh(h), items).value.files;
    hide After, ReadableSizes, FileIndexLeft, Keeps, Tight;
    var log, k := HistoryIsKept(c, h, items);
    KeepsFacts(c, After(c, Fresh(h), items).value, log, k);
    TightAt(c, files, log);
  }

  // ---------------------------------------------------------------- bounded recovery

  /** After any non-empty sequence of successful writes, a recovery scan would walk
      less than 64 MiB, whatever the order of the heights. */
  lemma RecoveryGapIsBounded(c: Config, s: State, items: seq<Request>)
    requires s.lastCheckpoint == s.index.header.nextWriteOffset
    requires items != [] && After(c, s, items).Ok?
    ensures var t := After(c, s, items).value;
      && t.lastCheckpoint == t.index.header.nextWriteOffset
      && t.dataHighwater < t.index.header.nextWriteOffset + 67_108_864
    decreases |items|
  {
    var n := |items| - 1;
    if n > 0 {
      RecoveryGapIsBounded(c, s, items[..n]);
    }
  }
}
