/** Recovery as a whole, and what a store that holds a given history of blocks
    answers: reads, height highwater and contiguity floor. */
module History {
  import opened Bytes
  import opened Results
  import opened FileSet
  import opened IndexFile
  import opened FloorScan
  import opened BlockIo
  import opened Scan
  import opened Log

  datatype Recovered = Recovered(index: Index, next: nat, highwater: nat, floor: nat)

  /** `recover`: check the layout, scan what lies beyond the header's offset, and
      recompute the floor from the persisted one. */
  function Recover(c: Config, files: Files, ix: Index): Result<Recovered> {
    var end :- ValidateLayout(c.cap, Sizes(files));
    if end < ix.header.nextWriteOffset then Err(DataShrunk)
    else
      var run := RunOn(c, files, end, ix);
      if run.error.Some? then Err(run.error.value)
      else
        var floor :- ScanFloor(run.index, ix.header.contiguous, run.highwater);
        Ok(Recovered(run.index, run.next, run.highwater, floor))
  }

  /** The parameters an open store derives from its index header. */
  predicate Matches(c: Config, h: Header) {
    c.minHeight == h.minHeight && c.cap == EffectiveCap(h.maxDataFileSize)
  }

  // ---------------------------------------------------------------- what a history means

  predicate Logged(log: seq<Seen>, h: nat) {
    exists v :: v in log && v.height == h
  }

  /** The block a store holding `log` owes to a reader of height `h`. */
  function LastBlock(log: seq<Seen>, h: nat): Option<seq<Byte>> {
    if log == [] then None
    else if log[|log| - 1].height == h then Some(log[|log| - 1].block)
    else LastBlock(log[..|log| - 1], h)
  }

  /** The highest height written; below the lowest admissible one if nothing was. */
  predicate IsHighwater(c: Config, log: seq<Seen>, hw: nat) {
    && (forall v :: v in log ==> v.height <= hw)
    && (log == [] ==> hw < c.minHeight)
    && (log != [] ==> Logged(log, hw))
  }

  /** The largest height below which no height is missing. */
  ghost predicate IsLogFloor(c: Config, log: seq<Seen>, f: nat) {
    && c.minHeight <= f + 1
    && (forall h :: c.minHeight <= h <= f ==> Logged(log, h))
    && !Logged(log, f + 1)
  }

  ghost predicate Represents(c: Config, files: Files, r: Recovered, log: seq<Seen>) {
    && (forall h :: Addressable(c.minHeight, h) ==>
          ReadBlock(c, files, r.index.slots, h) == Ok(LastBlock(log, h)))
    && IsHighwater(c, log, r.highwater)
    && IsLogFloor(c, log, r.floor)
  }

  /** The index slots after the whole history. */
  function SlotsOf(c: Config, log: seq<Seen>): seq<Entry> {
    PutAll([], Updates(c, log))
  }

  lemma {:induction false} LastBlockAt(log: seq<Seen>, h: nat)
    ensures LastBlock(log, h).Some? <==> Logged(log, h)
    ensures Logged(log, h) ==>
      exists i: nat :: IsLastVisit(log, i) && log[i].height == h && LastBlock(log, h) == Some(log[i].block)
  {
    if log == [] {
    } else {
      var n := |log| - 1;
      var before := log[..n];
      LastBlockAt(before, h);
      assert forall v :: v in log <==> v in before || v == log[n];
      if log[n].height == h {
        assert IsLastVisit(log, n);
      } else if Logged(log, h) {
        assert Logged(before, h);
        var i: nat :| IsLastVisit(before, i) && before[i].height == h && LastBlock(before, h) == Some(before[i].block);
        assert IsLastVisit(log, i);
      }
    }
  }

  lemma {:induction false} UpdatesConcat(c: Config, a: seq<Seen>, b: seq<Seen>)
    ensures Updates(c, a + b) == Updates(c, a) + Updates(c, b)
  {
    if a == [] {
      assert a + b == b;
    } else {
      assert (a + b)[1..] == a[1..] + b;
      UpdatesConcat(c, a[1..], b);
    }
  }

  lemma SlotsOfConcat(c: Config, a: seq<Seen>, b: seq<Seen>)
    ensures SlotsOf(c, a + b) == PutAll(SlotsOf(c, a), Updates(c, b))
  {
    UpdatesConcat(c, a, b);
    PutAllConcat([], Updates(c, a), Updates(c, b));
  }

  lemma SlotsOfAppend(c: Config, log: seq<Seen>, v: Seen)
    ensures SlotsOf(c, log + [v]) == Put(SlotsOf(c, log), Slot(c, v.height), Entry(v.offset, v.size, 0))
  {
    SlotsOfConcat(c, log, [v]);
    assert Updates(c, [v]) == [UpdateFor(c, v)];
    OneUpdate(SlotsOf(c, log), UpdateFor(c, v));
  }

  lemma OneUpdate(slots: seq<Entry>, w: SlotUpdate)
    ensures PutAll(slots, [w]) == Put(slots, w.slot, w.entry)
  {
    assert [w][1..] == [];
  }

  ghost predicate HeightsOk(c: Config, log: seq<Seen>) {
    forall v :: v in log ==> Addressable(c.minHeight, v.height) && v.size > 0
  }

  lemma LaidHeights(c: Config, log: seq<Seen>)
    requires c.codec.Valid() && Laid(c, log)
    ensures HeightsOk(c, log)
  {
    forall v | v in log
      ensures Addressable(c.minHeight, v.height) && v.size > 0
    {
      var i :| 0 <= i < |log| && log[i] == v;
      assert LaidAt(c, log[i], EndAt(log, i));
      assert c.codec.compress(v.block) != [];
    }
  }

  /** Block `i` is the one that the index and the history name for height `h`. */
  ghost predicate IsCurrent(c: Config, log: seq<Seen>, h: nat, i: nat) {
    && IsLastVisit(log, i) && log[i].height == h
    && LastBlock(log, h) == Some(log[i].block)
    && Get(SlotsOf(c, log), Slot(c, h)) == Entry(log[i].offset, log[i].size, 0)
  }

  lemma CurrentFacts(c: Config, log: seq<Seen>, h: nat, i: nat)
    requires IsCurrent(c, log, h, i)
    ensures i < |log| && log[i].height == h && log[i] in log
    ensures LastBlock(log, h) == Some(log[i].block)
    ensures Get(SlotsOf(c, log), Slot(c, h)) == Entry(log[i].offset, log[i].size, 0)
  {
  }

  /** What the index says about a height, in terms of the history. */
  lemma SlotOfHeight(c: Config, log: seq<Seen>, h: nat)
    requires HeightsOk(c, log) && c.minHeight <= h
    ensures Logged(log, h) ==> exists i: nat :: IsCurrent(c, log, h, i)
    ensures !Logged(log, h) ==> LastBlock(log, h) == None && Get(SlotsOf(c, log), Slot(c, h)) == ZERO
  {
    LastBlockAt(log, h);
    assert forall v :: v in log ==> c.minHeight <= v.height;
    if Logged(log, h) {
      var i: nat :| IsLastVisit(log, i) && log[i].height == h && LastBlock(log, h) == Some(log[i].block);
      PutAllSpec([], Updates(c, log));
      LastWriteOfVisits(c, log, i, Get([], Slot(c, h)));
      assert IsCurrent(c, log, h, i);
    } else {
      UnvisitedHeightKept(c, [], log, h);
    }
  }

  lemma PopulatedIffLogged(c: Config, log: seq<Seen>, ix: Index, h: nat)
    requires HeightsOk(c, log) && ix.slots == SlotsOf(c, log) && c.minHeight == ix.header.minHeight <= h
    ensures PopulatedAt(ix, h) <==> Logged(log, h)
  {
    hide SlotsOf, Get, IsCurrent;
    SlotOfHeight(c, log, h);
    if Logged(log, h) {
      var i: nat :| IsCurrent(c, log, h, i);
      CurrentFacts(c, log, h, i);
    }
  }

  /** Reads return the last block written at a height, and nothing for the others. */
  lemma ReadsMatchLog(c: Config, files: Files, log: seq<Seen>, h: nat)
    requires c.codec.Valid() && OnDisk(c, files, log) && Addressable(c.minHeight, h)
    ensures ReadBlock(c, files, SlotsOf(c, log), h) == Ok(LastBlock(log, h))
  {
    hide *;
    OnDiskAt(c, files, log, 0);
    LaidHeights(c, log);
    AddressableMin(c.minHeight, h);
    SlotOfHeight(c, log, h);
    ReadBlockIs(c, files, SlotsOf(c, log), h);
    if Logged(log, h) {
      var i: nat :| IsCurrent(c, log, h, i);
      CurrentFacts(c, log, h, i);
      OnDiskAt(c, files, log, i);
      ReadLogged(c, files, log[i], EndAt(log, i));
    } else {
      ReadZero(c, files);
    }
  }

  lemma AddressableMin(minHeight: nat, h: nat)
    requires Addressable(minHeight, h)
    ensures minHeight <= h
  {
  }

  lemma ReadBlockIs(c: Config, files: Files, slots: seq<Entry>, h: nat)
    requires Addressable(c.minHeight, h)
    ensures ReadBlock(c, files, slots, h) == ReadEntry(c, files, Get(slots, Slot(c, h)))
  {
  }

  lemma ReadZero(c: Config, files: Files)
    ensures ReadEntry(c, files, ZERO) == Ok(None)
  {
  }

  lemma ReadLogged(c: Config, files: Files, v: Seen, from: nat)
    requires c.codec.Valid() && LaidAt(c, v, from) && FrameOnDisk(c, files, v)
    ensures ReadEntry(c, files, Entry(v.offset, v.size, 0)) == Ok(Some(v.block))
  {
    ReadHeldFrame(c, files, v.offset, v.height, v.block);
  }

  // ---------------------------------------------------------------- recovery of a history

  /** A header that was written when the first `k` blocks were indexed. */
  ghost predicate HeaderDescribes(c: Config, h: Header, log: seq<Seen>, k: nat) {
    && Matches(c, h)
    && k <= |log|
    && h.nextWriteOffset == EndAt(log, k)
    && IsHighwater(c, log[..k], h.maxHeight)
    && (forall x :: c.minHeight <= x <= h.contiguous ==> Logged(log[..k], x))
  }

  lemma HighwaterOfRest(c: Config, log: seq<Seen>, k: nat, before: nat)
    requires k <= |log| && IsHighwater(c, log[..k], before)
    requires forall v :: v in log ==> c.minHeight <= v.height
    ensures IsHighwater(c, log, MaxHeight(log[k..], before))
  {
    var hw := MaxHeight(log[k..], before);
    MaxHeightSpec(log[k..], before);
    assert log == log[..k] + log[k..];
    assert forall v :: v in log <==> v in log[..k] || v in log[k..];
    if v :| v in log[k..] && v.height == hw {
      assert v in log;
    } else if log[..k] != [] {
      var v :| v in log[..k] && v.height == before;
      assert v in log;
    }
  }

  /** The exact floor over the index is the floor of the history. */
  lemma FloorOfHistory(c: Config, ix: Index, log: seq<Seen>, hw: nat, f: nat)
    requires HeightsOk(c, log) && ix.slots == SlotsOf(c, log) && c.minHeight == ix.header.minHeight
    requires IsHighwater(c, log, hw) && IsContiguousFloor(ix, hw, f)
    ensures IsLogFloor(c, log, f)
  {
    hide SlotsOf, HeightsOk;
    forall h | c.minHeight <= h <= f
      ensures Logged(log, h)
    {
      PopulatedIffLogged(c, log, ix, h);
    }
    PopulatedIffLogged(c, log, ix, f + 1);
    assert f < hw && c.minHeight <= hw ==> !Logged(log, f + 1);
    if !(f < hw && c.minHeight <= hw) {
      forall v | v in log
        ensures v.height != f + 1
      {
        assert v.height <= hw;
      }
    }
  }

  lemma ResumeIsSound(c: Config, ix: Index, log: seq<Seen>, k: nat, resume: nat)
    requires HeightsOk(c, log) && ix.slots == SlotsOf(c, log) && c.minHeight == ix.header.minHeight
    requires k <= |log| && forall x :: c.minHeight <= x <= resume ==> Logged(log[..k], x)
    ensures forall h :: c.minHeight <= h <= resume ==> PopulatedAt(ix, h)
  {
    forall h | c.minHeight <= h <= resume
      ensures PopulatedAt(ix, h)
    {
      assert Logged(log[..k], h);
      var v :| v in log[..k] && v.height == h;
      assert v in log;
      PopulatedIffLogged(c, log, ix, h);
    }
  }

  lemma FloorScanSucceeds(c: Config, ix: Index, log: seq<Seen>, resume: nat, hw: nat)
    requires HeightsOk(c, log) && c.minHeight == ix.header.minHeight && IsHighwater(c, log, hw)
    ensures ScanFloor(ix, resume, hw).Ok?
  {
    if log != [] {
      var v :| v in log && v.height == hw;
    }
  }

  lemma RecoveredFloor(c: Config, ix: Index, log: seq<Seen>, k: nat, resume: nat, hw: nat)
    requires c.minHeight >= 1
    requires HeightsOk(c, log) && ix.slots == SlotsOf(c, log) && c.minHeight == ix.header.minHeight
    requires k <= |log| && forall x :: c.minHeight <= x <= resume ==> Logged(log[..k], x)
    requires IsHighwater(c, log, hw)
    ensures ScanFloor(ix, resume, hw).Ok? && IsLogFloor(c, log, ScanFloor(ix, resume, hw).value)
  {
    hide SlotsOf, HeightsOk, IsLogFloor, IsContiguousFloor, PopulatedAt, ScanFloor, IsHighwater;
    FloorScanSucceeds(c, ix, log, resume, hw);
    ResumeIsSound(c, ix, log, k, resume);
    ResumeIsExactIff(ix, resume, hw);
    FloorOfHistory(c, ix, log, hw, ScanFloor(ix, resume, hw).value);
  }

  lemma {:induction false} RunKeepsMatch(c: Config, files: Files, end: nat, ix: Index, pos: nat, highwater: nat, last: nat)
    requires Matches(c, ix.header)
    ensures Matches(c, RunFrom(c, files, end, ix, pos, highwater, last).index.header)
    ensures RunFrom(c, files, end, ix, pos, highwater, last).index.header.contiguous == ix.header.contiguous
    decreases end - pos
  {
    StepAdvances(c, files, end, pos);
    match ParseAt(c, files, end, pos)
    case Stop =>
    case Fail(e) =>
    case Overrun(height, size, block) =>
    case Skip(next) => RunKeepsMatch(c, files, end, ix, next, highwater, last);
    case Visit(height, size, block, next) =>
      var indexed := ix.(slots := Record(c, ix.slots, pos, height, size));
      var raised := Max(highwater, height);
      if next >= last + CHECKPOINT_BYTES {
        RunKeepsMatch(c, files, end, indexed.(header := ProgressHeader(ix.header, next, raised)), next, raised, next);
      } else {
        RunKeepsMatch(c, files, end, indexed, next, raised, last);
      }
  }

  /** Data files that hold the log, with nothing a scan would accept behind it. */
  ghost predicate Recoverable(c: Config, files: Files, log: seq<Seen>, end: nat, next: nat) {
    && OnDisk(c, files, log)
    && ValidateLayout(c.cap, Sizes(files)) == Ok(end)
    && EndAt(log, |log|) <= end
    && Walk(c, files, end, EndAt(log, |log|)) == Trail([], next, None)
  }

  /** An index image that agrees with the first `k` blocks wherever the others do not overwrite it. */
  ghost predicate IndexUpTo(c: Config, slots: seq<Entry>, log: seq<Seen>, k: nat) {
    && k <= |log|
    && Covered(SlotsOf(c, log[..k]), slots, Updates(c, log[k..]))
  }

  lemma RunOverLog(c: Config, files: Files, ix: Index, log: seq<Seen>, k: nat, end: nat, next: nat)
    requires c.codec.Valid() && Recoverable(c, files, log, end, next)
    requires IndexUpTo(c, ix.slots, log, k) && ix.header.nextWriteOffset == EndAt(log, k)
    ensures var r := RunOn(c, files, end, ix);
      && r.index.slots == SlotsOf(c, log)
      && r.next == next && r.error == None
      && r.highwater == MaxHeight(log[k..], ix.header.maxHeight)
  {
    ScanVisitsLog(c, files, end, log, k);
    assert log[k..] + [] == log[k..];
    hide *;
    RunFollowsWalk(c, files, end, ix, ix.header.nextWriteOffset, ix.header.maxHeight, ix.header.nextWriteOffset);
    RunOnIs(c, files, end, ix);
    IndexReplays(c, ix.slots, log, k);
  }

  lemma RunOnIs(c: Config, files: Files, end: nat, ix: Index)
    ensures RunOn(c, files, end, ix)
         == RunFrom(c, files, end, ix, ix.header.nextWriteOffset, ix.header.maxHeight, ix.header.nextWriteOffset)
  {
  }

  lemma IndexReplays(c: Config, slots: seq<Entry>, log: seq<Seen>, k: nat)
    requires IndexUpTo(c, slots, log, k)
    ensures PutAll(slots, Updates(c, log[k..])) == SlotsOf(c, log)
  {
    hide Covered, SlotsOf;
    ReplayAbsorbs(SlotsOf(c, log[..k]), slots, Updates(c, log[k..]));
    SlotsOfConcat(c, log[..k], log[k..]);
    assert log[..k] + log[k..] == log;
  }

  /** Recovery of a history: whatever part of the recent index writes is missing or
      stale, the recovered store answers exactly as the history demands. */
  lemma RecoversLog(c: Config, files: Files, ix: Index, log: seq<Seen>, k: nat, end: nat, next: nat)
    requires c.codec.Valid() && c.minHeight >= 1
    requires Recoverable(c, files, log, end, next)
    requires HeaderDescribes(c, ix.header, log, k) && IndexUpTo(c, ix.slots, log, k)
    ensures Recover(c, files, ix).Ok?
    ensures var r := Recover(c, files, ix).value;
      && Represents(c, files, r, log)
      && r.index.slots == SlotsOf(c, log) && r.next == next
      && Matches(c, r.index.header)
  {
    RunOverLog(c, files, ix, log, k, end, next);
    OnDiskAt(c, files, log, 0);
    EndsIncrease(c, log, k, |log|);
    LaidHeights(c, log);
    assert forall v :: v in log ==> c.minHeight <= v.height;
    HighwaterOfRest(c, log, k, ix.header.maxHeight);
    RunKeepsMatch(c, files, end, ix, ix.header.nextWriteOffset, ix.header.maxHeight, ix.header.nextWriteOffset);
    assert ValidateLayout(c.cap, Sizes(files)) == Ok(end) && ix.header.nextWriteOffset <= end;
    var r := RunOn(c, files, end, ix);
    assert Matches(c, r.index.header) && r.index.header.minHeight == c.minHeight;
    assert forall x :: c.minHeight <= x <= ix.header.contiguous ==> Logged(log[..k], x);
    assert OnDisk(c, files, log) && k <= |log|;
    hide *;
    RecoveredFloor(c, r.index, log, k, ix.header.contiguous, r.highwater);
    RecoverIs(c, files, ix, end);
    RepresentsIntro(c, files, Recover(c, files, ix).value, log);
  }

  lemma RecoverIs(c: Config, files: Files, ix: Index, end: nat)
    requires ValidateLayout(c.cap, Sizes(files)) == Ok(end) && ix.header.nextWriteOffset <= end
    requires RunOn(c, files, end, ix).error == None
    requires ScanFloor(RunOn(c, files, end, ix).index, ix.header.contiguous, RunOn(c, files, end, ix).highwater).Ok?
    ensures var run := RunOn(c, files, end, ix);
      Recover(c, files, ix) == Ok(Recovered(run.index, run.next, run.highwater,
                                            ScanFloor(run.index, ix.header.contiguous, run.highwater).value))
  {
    hide RunOn, ScanFloor, ValidateLayout;
  }

  lemma RepresentsIntro(c: Config, files: Files, r: Recovered, log: seq<Seen>)
    requires c.codec.Valid() && OnDisk(c, files, log) && r.index.slots == SlotsOf(c, log)
    requires IsHighwater(c, log, r.highwater) && IsLogFloor(c, log, r.floor)
    ensures Represents(c, files, r, log)
  {
    hide OnDisk, SlotsOf, IsHighwater, IsLogFloor, ReadBlock, LastBlock;
    forall h | Addressable(c.minHeight, h)
      ensures ReadBlock(c, files, r.index.slots, h) == Ok(LastBlock(log, h))
    {
      ReadsMatchLog(c, files, log, h);
    }
  }

  // ---------------------------------------------------------------- when recovery succeeds

  lemma FloorScanOk(ix: Index, resume: nat, bound: nat)
    requires bound < ix.header.minHeight || Addressable(ix.header.minHeight, bound)
    ensures ScanFloor(ix, resume, bound).Ok?
  {
    hide FloorFrom;
  }

  /** The highwater that a scan ends with belongs to an addressable height, or to none. */
  lemma ScannedBound(c: Config, files: Files, end: nat, pos: nat, before: nat)
    requires before < c.minHeight || Addressable(c.minHeight, before)
    ensures var hw := MaxHeight(Walk(c, files, end, pos).visits, before);
      hw < c.minHeight || Addressable(c.minHeight, hw)
  {
    hide Addressable, ReadEntry, ParseAt, Walk;
    WalkReadsBack(c, files, end, pos);
    MaxHeightSpec(Walk(c, files, end, pos).visits, before);
  }

  lemma {:induction false} RunKeepsMinHeight(c: Config, files: Files, end: nat, ix: Index, pos: nat, highwater: nat, last: nat)
    ensures RunFrom(c, files, end, ix, pos, highwater, last).index.header.minHeight == ix.header.minHeight
    decreases end - pos
  {
    StepAdvances(c, files, end, pos);
    hide ParseAt;
    match ParseAt(c, files, end, pos)
    case Skip(next) => RunKeepsMinHeight(c, files, end, ix, next, highwater, last);
    case Visit(height, size, _, next) =>
      var indexed := ix.(slots := Record(c, ix.slots, pos, height, size));
      var raised := Max(highwater, height);
      if next >= last + CHECKPOINT_BYTES {
        RunKeepsMinHeight(c, files, end, indexed.(header := ProgressHeader(ix.header, next, raised)), next, raised, next);
      } else {
        RunKeepsMinHeight(c, files, end, indexed, next, raised, last);
      }
    case _ =>
  }

  /** Recovery succeeds exactly when no data file is missing, the files reach the
      persisted offset, and the scan behind that offset ends without an error. */
  lemma RecoverOkIff(c: Config, files: Files, ix: Index)
    requires ix.header.minHeight == c.minHeight
    requires ix.header.maxHeight < c.minHeight || Addressable(c.minHeight, ix.header.maxHeight)
    ensures var layout, start := ValidateLayout(c.cap, Sizes(files)), ix.header.nextWriteOffset;
      Recover(c, files, ix).Ok? <==>
        layout.Ok? && start <= layout.value && Walk(c, files, layout.value, start).error.None?
  {
    var layout, start := ValidateLayout(c.cap, Sizes(files)), ix.header.nextWriteOffset;
    if layout.Ok? && start <= layout.value {
      RunFollowsWalk(c, files, layout.value, ix, start, ix.header.maxHeight, start);
      RunKeepsMinHeight(c, files, layout.value, ix, start, ix.header.maxHeight, start);
      ScannedBound(c, files, layout.value, start, ix.header.maxHeight);
      var run := RunOn(c, files, layout.value, ix);
      FloorScanOk(run.index, ix.header.contiguous, run.highwater);
    }
    hide RunFrom, Walk, ScanFloor, ValidateLayout, Sizes, Addressable;
  }
}
