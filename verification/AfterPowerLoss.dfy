/** What a power loss takes from concurrent writers in sync mode: exactly which block
    every height reads after the recovery behind it, when that is the block it read before,
    and when the recovered contiguity floor is the true one. */
module AfterPowerLoss {
  import opened Bytes
  import opened Results
  import opened FileSet
  import opened IndexFile
  import opened FloorScan
  import opened BlockIo
  import opened Scan
  import opened Log
  import opened History
  import opened StoreState
  import opened PowerLoss
  import opened Writers
  import opened WriterInvariants
  import opened Concurrency
  import opened ConcurrentCrash
  import RefusedOpens

  /** Some call wrote a block at `height` whose space lies at or behind `off`. */
  predicate WrittenBehind(w: World, height: nat, off: nat) {
    exists i :: i in w.calls && w.calls[i].job.height == height && w.calls[i].job.offset >= off
  }

  predicate Wrote(w: World, height: nat) {
    exists i :: i in w.calls && w.calls[i].job.height == height
  }

  predicate WroteBlock(w: World, height: nat, block: seq<Byte>) {
    exists i :: i in w.calls && w.calls[i].pc.Finished? && w.calls[i].job.height == height && w.calls[i].job.block == block
  }

  /** Call `i` was the last to reserve space among all calls at `height`. */
  predicate LastReserved(w: World, height: nat, i: nat) {
    && i in w.calls && w.calls[i].job.height == height
    && forall j :: j in w.calls && w.calls[j].job.height == height ==> w.calls[j].job.offset <= w.calls[i].job.offset
  }

  lemma LoggedCall(c: Config, m: Machine, i: nat)
    requires CallsLogged(c, m) && AllReturned(m.w) && i < |m.log|
    ensures WroteBlock(m.w, m.log[i].height, m.log[i].block)
    ensures forall off: nat :: m.log[i].offset >= off ==> WrittenBehind(m.w, m.log[i].height, off)
  {
    assert LoggedAt(c, m, i);
    var k := m.w.calls[m.order[i]];
    assert InTime(k) && Returned(k);
  }

  lemma CallLogged(c: Config, m: Machine, height: nat, off: nat) returns (i: nat)
    requires CallsLogged(c, m) && WrittenBehind(m.w, height, off)
    ensures i < |m.log| && m.log[i].height == height && m.log[i].offset >= off
  {
    var id :| id in m.w.calls && m.w.calls[id].job.height == height && m.w.calls[id].job.offset >= off;
    i := PlaceInLog(c, m, id);
  }

  lemma HeaderBoundary(c: Config, log: seq<Seen>, ix: Index) returns (k: nat)
    requires IndexFrom(c, log, ix)
    ensures k <= |log| && ix.header.nextWriteOffset == EndAt(log, k) && ix.header.minHeight == c.minHeight
    ensures ix.header.maxHeight < c.minHeight || Addressable(c.minHeight, ix.header.maxHeight)
  {
    hide Addressable, SlotsFrom, EndAt;
    k :| k <= |log| && ix.header.nextWriteOffset == EndAt(log, k);
  }

  /** Recovery from any image whose header points at a block boundary of the log. */
  lemma ImageRecovers(c: Config, files: Files, log: seq<Seen>, ix: Index) returns (k: nat, end: nat)
    requires c.codec.Valid() && c.minHeight >= 1 && Tight(c, files, log) && IndexFrom(c, log, ix)
    ensures k <= |log| && ix.header.nextWriteOffset == EndAt(log, k)
    ensures Recover(c, files, ix).Ok? && ValidateLayout(c.cap, Sizes(files)) == Ok(end)
    ensures Walk(c, files, end, ix.header.nextWriteOffset).visits == log[k..]
    ensures Recover(c, files, ix).value.index == RunOn(c, files, end, ix).index
  {
    hide *;
    k := HeaderBoundary(c, log, ix);
    ScanInvertsWriter(c, files, log, k);
    TightAt(c, files, log);
    EndsIncrease(c, log, k, |log|);
    RecoverOkIff(c, files, ix);
    end := Reopen.RecoverRuns(c, files, ix);
  }

  /** A height that the scan does not visit reads what its entry in the image says. */
  lemma UnvisitedRead(c: Config, files: Files, log: seq<Seen>, ix: Index, slots: seq<Entry>, h: nat) returns (i: nat)
    requires c.codec.Valid() && OnDisk(c, files, log) && HeightsOk(c, log) && IndexFrom(c, log, ix)
    requires Addressable(c.minHeight, h) && Get(slots, Slot(c, h)) == Get(ix.slots, Slot(c, h))
    ensures !PopulatedAt(ix, h) ==> ReadBlock(c, files, slots, h) == Ok(None)
    ensures PopulatedAt(ix, h) ==>
      i < |log| && log[i].height == h && ReadBlock(c, files, slots, h) == Ok(Some(log[i].block))
  {
    hide *;
    AddressableMin(c.minHeight, h);
    ReadBlockIs(c, files, slots, h);
    SlotTells(c, log, ix, h);
    if PopulatedAt(ix, h) {
      i := EntryBlock(c, log, ix, h);
      OnDiskAt(c, files, log, i);
      ReadLogged(c, files, log[i], EndAt(log, i));
    } else {
      i := 0;
      ReadZero(c, files);
    }
  }

  lemma SlotTells(c: Config, log: seq<Seen>, ix: Index, h: nat)
    requires IndexFrom(c, log, ix) && c.minHeight <= h
    ensures !PopulatedAt(ix, h) ==> Get(ix.slots, Slot(c, h)) == ZERO || Get(ix.slots, Slot(c, h)).size == 0
    ensures !PopulatedAt(ix, h) && HeightsOk(c, log) ==> Get(ix.slots, Slot(c, h)) == ZERO
  {
    hide Addressable, HeaderFrom;
    assert ix.header.minHeight == c.minHeight by { HeaderMin(c, log, ix.header); }
    var k := Slot(c, h);
    assert Get(ix.slots, k) == ZERO || EntryOfLog(c, log, k, Get(ix.slots, k));
  }

  lemma HeaderMin(c: Config, log: seq<Seen>, h: Header)
    requires HeaderFrom(c, log, h)
    ensures h.minHeight == c.minHeight
  {
  }

  lemma EntryBlock(c: Config, log: seq<Seen>, ix: Index, h: nat) returns (i: nat)
    requires IndexFrom(c, log, ix) && c.minHeight <= h && PopulatedAt(ix, h) && HeightsOk(c, log)
    ensures i < |log| && log[i].height == h
    ensures Get(ix.slots, Slot(c, h)) == Entry(log[i].offset, log[i].size, 0)
  {
    HeaderMin(c, log, ix.header);
    var k := Slot(c, h);
    assert Get(ix.slots, k) == ZERO || EntryOfLog(c, log, k, Get(ix.slots, k));
    hide HeaderFrom;
    var v :| v in log && Slot(c, v.height) == k && Get(ix.slots, k) == Entry(v.offset, v.size, 0);
    assert Addressable(c.minHeight, v.height);
    i :| 0 <= i < |log| && log[i] == v;
  }

  /** A height that the scan visits reads the last logged block of that height. */
  lemma VisitedRead(c: Config, files: Files, log: seq<Seen>, k: nat, slots: seq<Entry>, h: nat) returns (i: nat)
    requires k <= |log| && Logged(log[k..], h)
    requires forall j: nat :: IsLastVisit(log[k..], j) ==> ReadBlock(c, files, slots, log[k..][j].height) == Ok(Some(log[k..][j].block))
    ensures k <= i < |log| && log[i].height == h && ReadBlock(c, files, slots, h) == Ok(Some(log[i].block))
    ensures IsLastVisit(log, i)
  {
    hide ReadBlock, LastBlock;
    var rest := log[k..];
    LastBlockAt(rest, h);
    var j: nat :| IsLastVisit(rest, j) && rest[j].height == h;
    i := k + j;
    LastOfRest(log, k, j);
  }

  lemma LastOfRest(log: seq<Seen>, k: nat, j: nat)
    requires k <= |log| && IsLastVisit(log[k..], j)
    ensures k + j < |log| && log[k..][j] == log[k + j] && IsLastVisit(log, k + j)
  {
    forall n | k + j < n < |log|
      ensures log[n].height != log[k + j].height
    {
      assert log[n] == log[k..][n - k];
    }
  }

  /** The last logged block of a height is that of the call that reserved its space last. */
  lemma LastOfLog(c: Config, m: Machine, i: nat)
    requires CallsLogged(c, m) && Laid(c, m.log) && IsLastVisit(m.log, i)
    ensures exists id :: LastReserved(m.w, m.log[i].height, id)
    ensures forall id :: LastReserved(m.w, m.log[i].height, id) ==> m.w.calls[id].job.block == m.log[i].block
  {
    hide *;
    IsLastVisitInRange(m.log, i);
    LoggedPlace(c, m, i);
    forall id | id in m.w.calls && m.w.calls[id].job.height == m.log[i].height
      ensures m.w.calls[id].job.offset <= m.log[i].offset
      ensures m.w.calls[id].job.offset == m.log[i].offset ==> m.w.calls[id].job.block == m.log[i].block
    {
      NoneBehindLast(c, m, i, id);
    }
    TopIsLast(m.w, m.log[i], m.order[i]);
  }

  lemma NoneBehindLast(c: Config, m: Machine, i: nat, id: nat)
    requires CallsLogged(c, m) && Laid(c, m.log) && IsLastVisit(m.log, i)
    requires id in m.w.calls && m.w.calls[id].job.height == m.log[i].height
    ensures m.w.calls[id].job.offset <= m.log[i].offset
    ensures m.w.calls[id].job.offset == m.log[i].offset ==> m.w.calls[id].job.block == m.log[i].block
  {
    hide Laid, CallsLogged, InTime;
    var j := PlaceInLog(c, m, id);
    if j < i {
      EarlierOffset(c, m.log, j, i);
    }
  }

  lemma TopIsLast(w: World, v: Seen, top: nat)
    requires top in w.calls && w.calls[top].job.height == v.height && w.calls[top].job.offset == v.offset
    requires forall id :: id in w.calls && w.calls[id].job.height == v.height ==>
      && w.calls[id].job.offset <= v.offset
      && (w.calls[id].job.offset == v.offset ==> w.calls[id].job.block == v.block)
    ensures LastReserved(w, v.height, top)
    ensures forall id :: LastReserved(w, v.height, id) ==> w.calls[id].job.block == v.block
  {
  }

  lemma LoggedPlace(c: Config, m: Machine, i: nat)
    requires CallsLogged(c, m) && i < |m.log|
    ensures |m.order| == |m.log| && m.order[i] in m.w.calls
    ensures m.w.calls[m.order[i]].job.height == m.log[i].height && m.w.calls[m.order[i]].job.offset == m.log[i].offset
  {
    assert LoggedAt(c, m, i);
  }

  lemma EarlierOffset(c: Config, log: seq<Seen>, j: nat, i: nat)
    requires Laid(c, log) && j < i < |log|
    ensures log[j].offset < log[i].offset
  {
    hide *;
    EndsIncrease(c, log, j, i);
    LaidEntry(c, log, j);
    LaidEntry(c, log, i);
    LaidFacts(c, log[j], EndAt(log, j));
    LaidStep(c, log[i], EndAt(log, i));
  }

  lemma NotVisited(c: Config, m: Machine, k: nat, h: nat)
    requires CallsLogged(c, m) && Laid(c, m.log) && k <= |m.log|
    ensures Logged(m.log[k..], h) <==> WrittenBehind(m.w, h, EndAt(m.log, k))
  {
    hide *;
    if WrittenBehind(m.w, h, EndAt(m.log, k)) {
      var i := CallLogged(c, m, h, EndAt(m.log, k));
      if i < k {
        EndsIncrease(c, m.log, i, k);
        LaidEntry(c, m.log, i);
        LaidFacts(c, m.log[i], EndAt(m.log, i));
      }
      InRest(m.log, k, i);
    }
    if Logged(m.log[k..], h) {
      var i := FromRest(m.log, k, h);
      EndsIncrease(c, m.log, k, i);
      LaidEntry(c, m.log, i);
      LaidStep(c, m.log[i], EndAt(m.log, i));
      CallBehind(c, m, i, EndAt(m.log, k));
    }
  }

  lemma InRest(log: seq<Seen>, k: nat, i: nat)
    requires k <= i < |log|
    ensures Logged(log[k..], log[i].height)
  {
    assert log[k..][i - k] == log[i];
  }

  lemma FromRest(log: seq<Seen>, k: nat, h: nat) returns (i: nat)
    requires k <= |log| && Logged(log[k..], h)
    ensures k <= i < |log| && log[i].height == h
  {
    var v :| v in log[k..] && v.height == h;
    var j :| 0 <= j < |log[k..]| && log[k..][j] == v;
    i := k + j;
  }

  lemma CallBehind(c: Config, m: Machine, i: nat, off: nat)
    requires CallsLogged(c, m) && i < |m.log| && m.log[i].offset >= off
    ensures WrittenBehind(m.w, m.log[i].height, off)
  {
    assert LoggedAt(c, m, i);
  }

  /** What a height reads after the recovery that follows a power loss. */
  function ReadAfter(c: Config, files: Files, image: Index, h: nat): Result<Option<seq<Byte>>>
    requires Recover(c, files, image).Ok?
  {
    ReadBlock(c, files, Recover(c, files, image).value.index.slots, h)
  }

  /** What a power loss behind a quiet run leaves, and how its recovery goes. */
  lemma ImageOfRun(c: Config, m: Machine, keep: seq<bool>) returns (k: nat, end: nat)
    requires c.codec.Valid() && c.minHeight >= 1 && ConcurrentCrash.Reachable(c, m) && AllReturned(m.w)
    requires |keep| == |m.unsynced|
    ensures CallsLogged(c, m) && Laid(c, m.log) && HeightsOk(c, m.log) && OnDisk(c, m.w.files, m.log)
    ensures var image := ApplyOps(m.durable, Kept(m.unsynced, keep));
      && IndexFrom(c, m.log, image) && image.header.minHeight == c.minHeight
      && k <= |m.log| && image.header.nextWriteOffset == EndAt(m.log, k)
      && Recover(c, m.w.files, image).Ok? && ValidateLayout(c.cap, Sizes(m.w.files)) == Ok(end)
      && Walk(c, m.w.files, end, image.header.nextWriteOffset).visits == m.log[k..]
      && Recover(c, m.w.files, image).value.index == RunOn(c, m.w.files, end, image).index
  {
    hide *;
    var image := ApplyOps(m.durable, Kept(m.unsynced, keep));
    ConcurrentCrash.ReachableInv(c, m);
    InvParts(c, m);
    LaidParts(c, m);
    LaidHeights(c, m.log);
    QuietIsTight(c, m);
    TightAt(c, m.w.files, m.log);
    ImageFrom(c, m, keep);
    k, end := ImageRecovers(c, m.w.files, m.log, image);
    var _ := HeaderBoundary(c, m.log, image);
  }

  /** Concurrent writers and a power loss. After any run in which no system call fails
      and all calls have returned, whatever subset of the unsynced index writes survives:
      recovery succeeds, and a height reads nothing exactly when its index entry is lost
      and the surviving header points past every block written for it; any other height
      reads a block that some call wrote for it. */
  lemma LostIff(c: Config, m: Machine, keep: seq<bool>, h: nat)
    requires c.codec.Valid() && c.minHeight >= 1 && ConcurrentCrash.Reachable(c, m) && AllReturned(m.w)
    requires |keep| == |m.unsynced| && Addressable(c.minHeight, h)
    ensures var image := ApplyOps(m.durable, Kept(m.unsynced, keep));
      && Recover(c, m.w.files, image).Ok?
      && (ReadAfter(c, m.w.files, image, h) == Ok(None) <==>
            !PopulatedAt(image, h) && !WrittenBehind(m.w, h, image.header.nextWriteOffset))
      && (ReadAfter(c, m.w.files, image, h) != Ok(None) ==>
            exists block :: ReadAfter(c, m.w.files, image, h) == Ok(Some(block)) && WroteBlock(m.w, h, block))
  {
    hide *;
    var image := ApplyOps(m.durable, Kept(m.unsynced, keep));
    var k, end := ImageOfRun(c, m, keep);
    ScanIsSound(c, m.w.files, end, image);
    NotVisited(c, m, k, h);
    ReadAfterIs(c, m.w.files, image, h);
    var slots := Recover(c, m.w.files, image).value.index.slots;
    if Logged(m.log[k..], h) {
      var i := VisitedRead(c, m.w.files, m.log, k, slots, h);
      LoggedCall(c, m, i);
    } else {
      AddressableMin(c.minHeight, h);
      NotLogged(m.log[k..], h);
      var i := UnvisitedRead(c, m.w.files, m.log, image, slots, h);
      if PopulatedAt(image, h) {
        LoggedCall(c, m, i);
      }
    }
  }

  lemma ReadAfterIs(c: Config, files: Files, image: Index, h: nat)
    requires Recover(c, files, image).Ok?
    ensures ReadAfter(c, files, image, h) == ReadBlock(c, files, Recover(c, files, image).value.index.slots, h)
  {
  }

  lemma NotLogged(log: seq<Seen>, h: nat)
    requires !Logged(log, h)
    ensures forall v :: v in log ==> v.height != h
  {
  }

  /** Exactly what is read. After any run in which no system call fails and all calls
      have returned, and whatever subset of the unsynced index writes survives a power
      loss: a height with a block behind the surviving header's offset reads the block
      whose space was reserved last, not the one that was published last; any other
      height reads what the surviving index entry says. */
  lemma ReadAfterPowerLoss(c: Config, m: Machine, keep: seq<bool>, h: nat)
    requires c.codec.Valid() && c.minHeight >= 1 && ConcurrentCrash.Reachable(c, m) && AllReturned(m.w)
    requires |keep| == |m.unsynced| && Addressable(c.minHeight, h)
    ensures var image := ApplyOps(m.durable, Kept(m.unsynced, keep));
      && Recover(c, m.w.files, image).Ok?
      && (WrittenBehind(m.w, h, image.header.nextWriteOffset) ==>
            && (exists i :: LastReserved(m.w, h, i))
            && forall i :: LastReserved(m.w, h, i) ==>
                 ReadAfter(c, m.w.files, image, h) == Ok(Some(m.w.calls[i].job.block)))
      && (!WrittenBehind(m.w, h, image.header.nextWriteOffset) ==>
            ReadAfter(c, m.w.files, image, h) == ReadBlock(c, m.w.files, image.slots, h))
  {
    hide *;
    var image := ApplyOps(m.durable, Kept(m.unsynced, keep));
    var k, end := ImageOfRun(c, m, keep);
    ScanIsSound(c, m.w.files, end, image);
    NotVisited(c, m, k, h);
    ReadAfterIs(c, m.w.files, image, h);
    var slots := Recover(c, m.w.files, image).value.index.slots;
    if Logged(m.log[k..], h) {
      var i := VisitedRead(c, m.w.files, m.log, k, slots, h);
      LastOfLog(c, m, i);
    } else {
      AddressableMin(c.minHeight, h);
      NotLogged(m.log[k..], h);
      ReadBlockIs(c, m.w.files, slots, h);
      ReadBlockIs(c, m.w.files, image.slots, h);
    }
  }

  /** A height reads after the power loss what it read before if and only if the block
      reserved last is the one that was read, or, where the header points past all of
      its blocks, the surviving entry still stands for it. */
  lemma ReadIsKeptIff(c: Config, m: Machine, keep: seq<bool>, h: nat)
    requires c.codec.Valid() && c.minHeight >= 1 && ConcurrentCrash.Reachable(c, m) && AllReturned(m.w)
    requires |keep| == |m.unsynced| && Addressable(c.minHeight, h)
    ensures var image := ApplyOps(m.durable, Kept(m.unsynced, keep));
      && Recover(c, m.w.files, image).Ok?
      && (ReadAfter(c, m.w.files, image, h) == Ok(View(m.w, h)) <==>
            if WrittenBehind(m.w, h, image.header.nextWriteOffset)
            then forall i :: LastReserved(m.w, h, i) ==> View(m.w, h) == Some(m.w.calls[i].job.block)
            else ReadBlock(c, m.w.files, image.slots, h) == Ok(View(m.w, h)))
  {
    hide *;
    ReadAfterPowerLoss(c, m, keep, h);
  }

  /** At most one call wrote the height. */
  predicate WrittenOnce(w: World, height: nat) {
    forall i, j :: i in w.calls && j in w.calls && w.calls[i].job.height == height && w.calls[j].job.height == height
      ==> i == j
  }

  /** A process kill loses no write, so every written height reads a block written for it;
      but the kill keeps what is read if and only if, of the blocks behind the header, the one reserved
      last was published last. So a kill changes no height that was written once. */
  lemma KillKeepsReadIff(c: Config, m: Machine, h: nat)
    requires c.codec.Valid() && c.minHeight >= 1 && ConcurrentCrash.Reachable(c, m) && AllReturned(m.w)
    requires Addressable(c.minHeight, h)
    ensures Recover(c, m.w.files, m.w.index).Ok?
    ensures ReadAfter(c, m.w.files, m.w.index, h) == Ok(View(m.w, h)) <==>
              (WrittenBehind(m.w, h, m.w.index.header.nextWriteOffset) ==>
                 forall i :: LastReserved(m.w, h, i) ==> View(m.w, h) == Some(m.w.calls[i].job.block))
    ensures ReadAfter(c, m.w.files, m.w.index, h) == Ok(None) <==> !Wrote(m.w, h)
    ensures Wrote(m.w, h) ==>
              exists block :: ReadAfter(c, m.w.files, m.w.index, h) == Ok(Some(block)) && WroteBlock(m.w, h, block)
    ensures WrittenOnce(m.w, h) ==> ReadAfter(c, m.w.files, m.w.index, h) == Ok(View(m.w, h))
  {
    hide *;
    ConcurrentCrash.ReachableInv(c, m);
    InvParts(c, m);
    InvFacts(c, m.w);
    KeptAll(m.unsynced);
    WholeView(c, m);
    ReadIsKeptIff(c, m, seq(|m.unsynced|, _ => true), h);
    LostIff(c, m, seq(|m.unsynced|, _ => true), h);
    JobsStayHere(m.w);
    EntryOfView(c, m.w, m.w, h);
    ReadBlockIs(c, m.w.files, m.w.index.slots, h);
    EntryTells(c, m.w, h);
    ViewTells(c, m, h);
    if WrittenOnce(m.w, h) {
      OnceIsLast(c, m, h);
    }
  }

  lemma JobsStayHere(w: World)
    ensures JobsStay(w, w)
  {
    hide EntryWritten;
  }

  lemma ViewTells(c: Config, m: Machine, h: nat)
    requires CallsLogged(c, m) && IndexOk(c, m.w) && AllReturned(m.w)
    ensures View(m.w, h) == None <==> h !in m.w.latest
    ensures h in m.w.latest <==> Wrote(m.w, h)
    ensures forall off: nat :: WrittenBehind(m.w, h, off) ==> Wrote(m.w, h)
  {
    if h in m.w.latest {
      assert IndexedAt(m.w, m.w.latest[h], h);
    }
    if Wrote(m.w, h) {
      var id :| id in m.w.calls && m.w.calls[id].job.height == h;
      CallIndexed(c, m, id);
    }
  }

  lemma OnceIsLast(c: Config, m: Machine, h: nat)
    requires CallsLogged(c, m) && IndexOk(c, m.w) && AllReturned(m.w) && WrittenOnce(m.w, h)
    ensures forall i :: LastReserved(m.w, h, i) ==> View(m.w, h) == Some(m.w.calls[i].job.block)
  {
    forall i | LastReserved(m.w, h, i)
      ensures View(m.w, h) == Some(m.w.calls[i].job.block)
    {
      CallIndexed(c, m, i);
      assert IndexedAt(m.w, m.w.latest[h], h);
    }
  }

  lemma WholeView(c: Config, m: Machine)
    requires DiskOk(c, m)
    ensures ApplyOps(m.durable, m.unsynced) == m.w.index
  {
    hide IndexFrom, OpFrom, ApplyOps;
  }

  lemma CallIndexed(c: Config, m: Machine, id: nat)
    requires CallsLogged(c, m) && IndexOk(c, m.w) && AllReturned(m.w) && id in m.w.calls
    ensures m.w.calls[id].job.height in m.w.latest
  {
    hide EntryAt, IndexedAt, Item;
    assert Returned(m.w.calls[id]) && InTime(m.w.calls[id]) && EntryWritten(m.w.calls[id]);
  }

  // ---------------------------------------------------------------- the recovered floor

  /** After the recovery, a height is indexed if its entry survived or the scan found a
      block for it. */
  lemma IndexedAfter(c: Config, files: Files, log: seq<Seen>, image: Index, k: nat, end: nat, h: nat)
    requires HeightsOk(c, log) && k <= |log| && c.minHeight <= h
    requires Walk(c, files, end, image.header.nextWriteOffset).visits == log[k..]
    requires image.header.minHeight == RunOn(c, files, end, image).index.header.minHeight == c.minHeight
    ensures PopulatedAt(RunOn(c, files, end, image).index, h) <==> PopulatedAt(image, h) || Logged(log[k..], h)
  {
    var ix := RunOn(c, files, end, image).index;
    hide *;
    ScanIsSound(c, files, end, image);
    if Logged(log[k..], h) {
      var i := VisitedRead(c, files, log, k, ix.slots, h);
      HeightOf(c, log, i);
      ReadBlockIs(c, files, ix.slots, h);
      ReadTells(c, files, ix, h);
    } else {
      NotLogged(log[k..], h);
      SameEntry(c, ix, image, h);
    }
  }

  lemma HeightOf(c: Config, log: seq<Seen>, i: nat)
    requires HeightsOk(c, log) && i < |log|
    ensures Addressable(c.minHeight, log[i].height)
  {
    hide Addressable;
    assert log[i] in log;
  }

  lemma ReadTells(c: Config, files: Files, ix: Index, h: nat)
    requires ix.header.minHeight == c.minHeight <= h
    requires ReadEntry(c, files, Get(ix.slots, Slot(c, h))).Ok? && ReadEntry(c, files, Get(ix.slots, Slot(c, h))) != Ok(None)
    ensures PopulatedAt(ix, h)
  {
  }

  lemma SameEntry(c: Config, a: Index, b: Index, h: nat)
    requires a.header.minHeight == b.header.minHeight == c.minHeight <= h
    requires Get(a.slots, Slot(c, h)) == Get(b.slots, Slot(c, h))
    ensures PopulatedAt(a, h) <==> PopulatedAt(b, h)
  {
  }

  /** Concurrent writers and the recovered floor. After such a run and a power loss, the
      floor that recovery computes is the true one for the recovered index if and only if
      every height that the surviving header claims, up to the recovered highwater, has
      its entry in the image or a block behind the header's offset. */
  lemma FloorAfterIff(c: Config, m: Machine, keep: seq<bool>)
    requires c.codec.Valid() && c.minHeight >= 1 && ConcurrentCrash.Reachable(c, m) && AllReturned(m.w)
    requires |keep| == |m.unsynced|
    ensures var image := ApplyOps(m.durable, Kept(m.unsynced, keep));
      && Recover(c, m.w.files, image).Ok?
      && var r := Recover(c, m.w.files, image).value;
      && (r.floor >= image.header.contiguous || r.floor >= r.highwater) && r.highwater >= image.header.maxHeight
      && (IsContiguousFloor(r.index, r.highwater, r.floor) <==>
            forall h :: c.minHeight <= h <= image.header.contiguous && h <= r.highwater ==>
              PopulatedAt(image, h) || WrittenBehind(m.w, h, image.header.nextWriteOffset))
  {
    hide *;
    var image := ApplyOps(m.durable, Kept(m.unsynced, keep));
    var k, end := ImageOfRun(c, m, keep);
    var r := Recover(c, m.w.files, image).value;
    var pos, mark := image.header.nextWriteOffset, image.header.maxHeight;
    RefusedOpens.RecoverMeans(c, m.w.files, end, image);
    RunOnIs(c, m.w.files, end, image);
    RunKeepsMinHeight(c, m.w.files, end, image, pos, mark, pos);
    RunFollowsWalk(c, m.w.files, end, image, pos, mark, pos);
    MaxHeightSpec(m.log[k..], mark);
    ResumeIsExactIff(r.index, image.header.contiguous, r.highwater);
    FloorReaches(r.index, image.header.contiguous, r.highwater);
    forall h | c.minHeight <= h
      ensures PopulatedAt(r.index, h) <==> PopulatedAt(image, h) || WrittenBehind(m.w, h, pos)
    {
      IndexedAfter(c, m.w.files, m.log, image, k, end, h);
      NotVisited(c, m, k, h);
    }
  }

  lemma FloorReaches(ix: Index, resume: nat, bound: nat)
    requires ScanFloor(ix, resume, bound).Ok?
    ensures ScanFloor(ix, resume, bound).value >= resume || ScanFloor(ix, resume, bound).value >= bound
  {
    FloorFromSpec(ix, StartFloor(ix, resume, bound), bound);
  }
}
