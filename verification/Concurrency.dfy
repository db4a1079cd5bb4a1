/** What concurrent writers and lock-free readers may rely on. */
module Concurrency {
  import opened Bytes
  import opened Results
  import opened FileSet
  import opened IndexFile
  import opened FloorScan
  import opened BlockIo
  import opened StoreState
  import opened Writers
  import opened WriterInvariants

  // ---------------------------------------------------------------- space

  /** In every reachable state, two reservations that are not given up are disjoint,
      whether their calls are in flight, indexed or failed at the index; each lies in one
      data file and below the allocator; and so their bytes on disk are disjoint too. */
  lemma SpaceIsNeverShared(c: Config, w: World, i: nat, j: nat)
    requires c.codec.Valid() && c.minHeight >= 1 && Reachable(c, w)
    requires AliveAt(w, i) && AliveAt(w, j) && i != j
    ensures var a, b := w.calls[i].job, w.calls[j].job;
      var p, q := Split(c.cap, a.offset), Split(c.cap, b.offset);
      && Apart(a, b)
      && a.start <= a.offset && a.offset + Len(c, a) == a.end <= w.dataHighwater
      && InOneFile(c.cap, a.offset, Len(c, a))
      && (p.file != q.file || p.local + Len(c, a) <= q.local || q.local + Len(c, b) <= p.local)
  {
    var a, b := w.calls[i].job, w.calls[j].job;
    hide *;
    ReachableInv(c, w);
    InvFacts(c, w);
    InCalls(w, i);
    InCalls(w, j);
    CallFacts(c, w, i);
    CallFacts(c, w, j);
    SpaceFacts(w, i, j);
    LegalFacts(c, a);
    LegalFacts(c, b);
    ApartOffsets(c, a, b);
    DisjointPlaces(c.cap, a.offset, Len(c, a), b.offset, Len(c, b));
  }

  lemma InCalls(w: World, i: nat)
    requires AliveAt(w, i)
    ensures i in w.calls
  {
  }

  lemma SpaceFacts(w: World, i: nat, j: nat)
    requires SpaceOk(w) && AliveAt(w, i) && AliveAt(w, j) && i != j
    ensures Apart(w.calls[i].job, w.calls[j].job) && w.calls[i].job.end <= w.dataHighwater
  {
    assert ApartAt(w, i, j);
  }

  lemma LegalFacts(c: Config, j: Job)
    requires Legal(c, j)
    ensures j.start <= j.offset && j.offset + Len(c, j) == j.end && InOneFile(c.cap, j.offset, Len(c, j))
  {
    hide InOneFile;
  }

  lemma ApartOffsets(c: Config, a: Job, b: Job)
    requires Apart(a, b) && a.start <= a.offset && b.start <= b.offset
    requires a.offset + Len(c, a) == a.end && b.offset + Len(c, b) == b.end
    ensures a.offset + Len(c, a) <= b.offset || b.offset + Len(c, b) <= a.offset
  {
  }

  /** The guards of the steps cut off no behaviour: a call that has not returned can
      always take its next step. */
  lemma CallsAreNeverStuck(c: Config, w: World, id: nat)
    requires c.codec.Valid() && c.minHeight >= 1 && Reachable(c, w) && id in w.calls
    ensures Returned(w.calls[id]) || Enabled(c, w, Advance(id))
  {
    ReachableInv(c, w);
    CallFacts(c, w, id);
    hide Inv, Reachable, Legal, Returned, CallOk;
  }

  // ---------------------------------------------------------------- reads

  /** The block that the last index entry written for a height stands for. */
  function View(w: World, height: nat): Option<seq<Byte>> {
    if height in w.latest && w.latest[height] in w.calls then Some(w.calls[w.latest[height]].job.block) else None
  }

  /** The view changes in one step of one call, the writing of its index entry, at its
      own height, to its own block. */
  lemma ViewChangesOnlyAtEntries(c: Config, w: World, a: Action, height: nat)
    requires c.codec.Valid() && c.minHeight >= 1 && Inv(c, w) && Enabled(c, w, a)
    ensures View(Do(c, w, a), height)
         == if a.Advance? && w.calls[a.id].pc.Synced? && w.calls[a.id].job.height == height
            then Some(w.calls[a.id].job.block) else View(w, height)
  {
    var q := Do(c, w, a);
    InvFacts(c, w);
    StepKeepsJobs(c, w, a);
    StepLatest(c, w, a);
    if height in w.latest {
      assert IndexedAt(w, w.latest[height], height);
    }
    hide Do, Enabled, Inv, SpaceOk, DataOk, IndexOk, FloorOk, MarksOk, HeaderOk, PointerOk, EntryWritten;
  }

  lemma StepLatest(c: Config, w: World, a: Action)
    requires Enabled(c, w, a)
    ensures Do(c, w, a).latest
         == if a.Advance? && w.calls[a.id].pc.Synced? then w.latest[w.calls[a.id].job.height := a.id] else w.latest
  {
    hide Admit, FileIndexLeft, Legal, AllReturned, WriteInto, BlockHeaderOf, Pending, Put, CheckpointDue, Addressable, PopulatedAt;
  }

  /** No call is forgotten or given another job, and no block is un-indexed. */
  lemma StepKeepsJobs(c: Config, w: World, a: Action)
    requires Enabled(c, w, a)
    ensures JobsStay(w, Do(c, w, a))
  {
    hide Admit, FileIndexLeft, Legal, AllReturned, Pending, EntryWritten, DoAdvance, DoFail, DoClose, JobsStay, Returned, CanFail;
    match a
    case Begin(id, height, block) => BeginKeepsJobs(w, Admit(c, w.dataHighwater, height, block).value, id, height, block);
    case Advance(id) => AdvanceKeepsJobs(c, w, id);
    case Abort(id, torn) => FailKeepsJobs(c, w, id, torn);
    case Close => CloseKeepsJobs(w);
  }

  lemma BeginKeepsJobs(w: World, r: Reservation, id: nat, height: U64, block: seq<Byte>)
    requires id !in w.calls
    ensures JobsStay(w, DoBegin(w, r, id, height, block))
  {
    hide EntryWritten;
  }

  lemma CloseKeepsJobs(w: World)
    ensures JobsStay(w, DoClose(w))
  {
    hide EntryWritten;
  }

  lemma MoveKeepsJobs(w: World, q: World, id: nat)
    requires Moves(w, q, id) && id in w.calls && (EntryWritten(w.calls[id]) ==> EntryWritten(q.calls[id]))
    ensures JobsStay(w, q)
  {
    hide EntryWritten;
  }

  lemma AdvanceKeepsJobs(c: Config, w: World, id: nat)
    requires id in w.calls && Legal(c, w.calls[id].job)
    ensures JobsStay(w, DoAdvance(c, w, id))
  {
    hide *;
    AdvanceMoves(c, w, id);
    if EntryWritten(w.calls[id]) {
      AdvanceStaysWritten(c, w, id);
    }
    MoveKeepsJobs(w, DoAdvance(c, w, id), id);
  }

  lemma AdvanceMoves(c: Config, w: World, id: nat)
    requires id in w.calls && Legal(c, w.calls[id].job)
    ensures Moves(w, DoAdvance(c, w, id), id) && id in DoAdvance(c, w, id).calls
  {
    hide Legal, WriteInto, BlockHeaderOf, Put, CheckpointDue, Addressable, PopulatedAt, CheckpointHeader, Max, EntryOf;
  }

  lemma AdvanceStaysWritten(c: Config, w: World, id: nat)
    requires id in w.calls && Legal(c, w.calls[id].job) && EntryWritten(w.calls[id])
    ensures id in DoAdvance(c, w, id).calls && EntryWritten(DoAdvance(c, w, id).calls[id])
  {
    hide Legal, Touch, Publish, Release, BlockHeaderOf, CheckpointDue, Addressable, PopulatedAt, CheckpointHeader, Max;
  }

  lemma FailKeepsJobs(c: Config, w: World, id: nat, torn: nat)
    requires id in w.calls && Legal(c, w.calls[id].job) && torn <= |Pending(c, w.calls[id])| && CanFail(w.calls[id])
    ensures JobsStay(w, DoFail(c, w, id, torn))
  {
    hide Legal, WriteInto, Pending, JobsStay;
    MoveKeepsJobs(w, DoFail(c, w, id, torn), id);
  }

  ghost predicate JobsStay(w: World, q: World) {
    forall i :: i in w.calls ==>
      i in q.calls && q.calls[i].job == w.calls[i].job && (EntryWritten(w.calls[i]) ==> EntryWritten(q.calls[i]))
  }

  lemma {:induction false} RunKeepsJobs(c: Config, w: World, actions: seq<Action>)
    requires Runs(c, w, actions)
    ensures JobsStay(w, Final(c, w, actions))
    decreases |actions|
  {
    hide Enabled, Do, EntryWritten;
    if actions == [] {
    } else {
      StepKeepsJobs(c, w, actions[0]);
      RunKeepsJobs(c, Do(c, w, actions[0]), actions[1..]);
    }
  }

  /** Reads take no lock. A read that loads the index entry in one state and the data in
      any later one returns exactly the view of the first state: nothing, or a whole
      block that some call passed for that height, never a mixture and never an error. */
  lemma ReadsAreAtomic(c: Config, w: World, actions: seq<Action>, height: nat)
    requires c.codec.Valid() && c.minHeight >= 1 && Reachable(c, w) && Runs(c, w, actions)
    requires Addressable(c.minHeight, height)
    ensures ReadEntry(c, Final(c, w, actions).files, Get(w.index.slots, Slot(c, height))) == Ok(View(w, height))
  {
    var q := Final(c, w, actions);
    hide *;
    ReachableInv(c, w);
    RunsInv(c, w, actions);
    RunKeepsJobs(c, w, actions);
    InvFacts(c, w);
    InvFacts(c, q);
    EntryOfView(c, w, q, height);
  }

  lemma EntryOfView(c: Config, w: World, q: World, height: nat)
    requires c.codec.Valid() && IndexOk(c, w) && DataOk(c, q) && JobsStay(w, q) && Addressable(c.minHeight, height)
    ensures ReadEntry(c, q.files, Get(w.index.slots, Slot(c, height))) == Ok(View(w, height))
  {
    hide EntryWritten, ReadEntry, Addressable, InOneFile, Holds, PayloadHeld;
    assert c.minHeight <= height by { SlotOf(c, height); }
    SlotOf(c, height);
    var e := Get(w.index.slots, Slot(c, height));
    assert e == EntryAt(c, w, c.minHeight + Slot(c, height));
    if height in w.latest {
      var i := w.latest[height];
      assert IndexedAt(w, i, height);
      var k := q.calls[i];
      assert CallOk(c, q.files, k) && Framed(k);
      ReadHeldFrame(c, q.files, k.job.offset, k.job.height, k.job.block);
    } else {
      ReadOfNothing(c, q.files, e);
    }
  }

  lemma SlotOf(c: Config, height: nat)
    requires Addressable(c.minHeight, height)
    ensures c.minHeight <= height && c.minHeight + Slot(c, height) == height
  {
  }

  /** What a finished call wrote is seen by every read that starts afterwards, unless a
      later entry replaced it. */
  lemma FinishedIsVisible(c: Config, w: World, id: nat)
    requires c.codec.Valid() && c.minHeight >= 1 && Reachable(c, w) && id in w.calls && w.calls[id].pc.Finished?
    ensures View(w, w.calls[id].job.height).Some?
    ensures exists i :: IndexedAt(w, i, w.calls[id].job.height)
              && View(w, w.calls[id].job.height) == Some(w.calls[i].job.block)
  {
    ReachableInv(c, w);
    InvFacts(c, w);
    assert EntryWritten(w.calls[id]);
    hide SpaceOk, DataOk, FloorOk, MarksOk, HeaderOk, PointerOk, EntryAt, EntryWritten;
    var h := w.calls[id].job.height;
    assert IndexedAt(w, w.latest[h], h);
  }

  // ---------------------------------------------------------------- the floor

  /** In every reachable state all heights up to the floor are indexed, and a floor that
      can still move has a call in flight that will move it. */
  lemma FloorIsSoundAndOwned(c: Config, w: World)
    requires c.codec.Valid() && c.minHeight >= 1 && Reachable(c, w)
    ensures FloorSound(w.index, w.floor)
    ensures PopulatedAt(w.index, w.floor + 1) ==>
              exists i :: i in w.calls && Responsible(w.calls[i], w.floor) && !Returned(w.calls[i])
  {
    hide *;
    ReachableInv(c, w);
    InvFacts(c, w);
    SoundFloor(c, w);
    EntryTells(c, w, w.floor + 1);
    OwnedFloor(c, w);
  }

  lemma SoundFloor(c: Config, w: World)
    requires FloorOk(c, w) && IndexOk(c, w) && DataOk(c, w)
    ensures FloorSound(w.index, w.floor) && w.index.header.minHeight == c.minHeight
  {
    forall h | c.minHeight <= h <= w.floor
      ensures PopulatedAt(w.index, h)
    {
      EntryTells(c, w, h);
    }
    hide PopulatedAt, EntryAt, IndexedAt, CallOk, Responsible;
  }

  lemma OwnedFloor(c: Config, w: World)
    requires FloorOk(c, w)
    ensures w.floor + 1 in w.latest ==> exists i :: i in w.calls && Responsible(w.calls[i], w.floor) && !Returned(w.calls[i])
  {
    hide Claims;
    if w.floor + 1 in w.latest {
      var i :| i in w.calls && Responsible(w.calls[i], w.floor);
      assert !Returned(w.calls[i]);
    }
  }

  /** Whenever no call is in flight, the floor is exact, the height highwater is the
      largest finished height, and the floor scan of recovery computes the same floor from
      header and entries as the running process sees them. */
  lemma FloorIsExactWhenQuiet(c: Config, w: World)
    requires c.codec.Valid() && c.minHeight >= 1 && Reachable(c, w) && AllReturned(w)
    ensures IsContiguousFloor(w.index, w.heightHighwater, w.floor)
    ensures !PopulatedAt(w.index, w.floor + 1)
    ensures forall i :: i in w.calls && w.calls[i].pc.Finished? ==> w.calls[i].job.height <= w.heightHighwater
    ensures w.heightHighwater + 1 == c.minHeight || PopulatedAt(w.index, w.heightHighwater)
    ensures ScanFloor(w.index, w.index.header.contiguous, w.heightHighwater) == Ok(w.floor)
  {
    hide *;
    ReachableInv(c, w);
    InvFacts(c, w);
    SoundFloor(c, w);
    FloorIsSoundAndOwned(c, w);
    QuietFloor(c, w);
    MarkIsIndexed(c, w);
    EntryTells(c, w, w.heightHighwater);
    QuietMarks(c, w);
    HighestIndexed(c, w);
    HeaderClaims(c, w);
    ExactFloor(c, w);
  }

  lemma QuietFloor(c: Config, w: World)
    requires AllReturned(w)
    requires PopulatedAt(w.index, w.floor + 1) ==>
               exists i :: i in w.calls && Responsible(w.calls[i], w.floor) && !Returned(w.calls[i])
    ensures !PopulatedAt(w.index, w.floor + 1)
  {
    hide PopulatedAt, Returned, Responsible;
  }

  lemma QuietMarks(c: Config, w: World)
    requires MarksOk(c, w)
    ensures forall i :: i in w.calls && w.calls[i].pc.Finished? ==> w.calls[i].job.height <= w.heightHighwater
  {
    forall i | i in w.calls && w.calls[i].pc.Finished?
      ensures w.calls[i].job.height <= w.heightHighwater
    {
      assert Counted(w.calls[i]);
    }
  }

  /** With all calls returned, no indexed height exceeds the highwater. */
  lemma HighestIndexed(c: Config, w: World)
    requires IndexOk(c, w) && DataOk(c, w) && MarksOk(c, w) && AllReturned(w)
    ensures forall h: nat :: PopulatedAt(w.index, h) ==> h <= w.heightHighwater && Addressable(c.minHeight, h)
  {
    forall h: nat | PopulatedAt(w.index, h)
      ensures h <= w.heightHighwater && Addressable(c.minHeight, h)
    {
      EntryTells(c, w, h);
      LatestIsFinished(c, w, h);
    }
  }

  lemma LatestIsFinished(c: Config, w: World, h: nat)
    requires IndexOk(c, w) && MarksOk(c, w) && AllReturned(w) && h in w.latest
    ensures h <= w.heightHighwater
  {
    var i := w.latest[h];
    assert IndexedAt(w, i, h);
    assert Returned(w.calls[i]) && Counted(w.calls[i]);
    hide EntryAt, EntryOf, Get;
  }

  lemma HeaderClaims(c: Config, w: World)
    requires HeaderOk(c, w) && IndexOk(c, w) && DataOk(c, w)
    ensures w.index.header.minHeight == c.minHeight
    ensures forall h :: c.minHeight <= h <= w.index.header.contiguous ==> PopulatedAt(w.index, h)
  {
    forall h | c.minHeight <= h <= w.index.header.contiguous
      ensures PopulatedAt(w.index, h)
    {
      EntryTells(c, w, h);
    }
    hide LoadedOk, EntryAt, IndexedAt, PopulatedAt;
  }

  lemma ExactFloor(c: Config, w: World)
    requires c.minHeight >= 1 && FloorSound(w.index, w.floor) && !PopulatedAt(w.index, w.floor + 1)
    requires w.index.header.minHeight == c.minHeight
    requires forall h :: c.minHeight <= h <= w.index.header.contiguous ==> PopulatedAt(w.index, h)
    requires forall h: nat :: PopulatedAt(w.index, h) ==> h <= w.heightHighwater && Addressable(c.minHeight, h)
    requires w.heightHighwater + 1 == c.minHeight || PopulatedAt(w.index, w.heightHighwater)
    ensures IsContiguousFloor(w.index, w.heightHighwater, w.floor)
    ensures ScanFloor(w.index, w.index.header.contiguous, w.heightHighwater) == Ok(w.floor)
  {
    var ix, resume, bound := w.index, w.index.header.contiguous, w.heightHighwater;
    hide PopulatedAt;
    assert w.floor >= c.minHeight ==> PopulatedAt(ix, w.floor);
    assert IsContiguousFloor(ix, bound, w.floor);
    assert ScanFloor(ix, resume, bound).Ok? by {
      assert PopulatedAt(ix, bound) ==> Addressable(c.minHeight, bound);
    }
    ResumeIsExactIff(ix, resume, bound);
    FloorIsUnique(ix, bound, w.floor, ScanFloor(ix, resume, bound).value);
  }

  // ---------------------------------------------------------------- headers

  /** Whenever the index header is looked at, in particular right after any checkpoint
      of any call, it is true of the index as the running process sees it: every height up
      to the floor it claims is indexed, the highwater it claims is unset or an indexed
      height, and it points at no byte that the allocator could hand out. What is on disk
      in sync mode is another matter: see `FloorAfterIff` and `RecoveredFloorIsFalse`. */
  lemma HeadersTellTheTruth(c: Config, w: World)
    requires c.codec.Valid() && c.minHeight >= 1 && Reachable(c, w)
    ensures var h := w.index.header;
      && (forall x :: c.minHeight <= x <= h.contiguous ==> PopulatedAt(w.index, x))
      && (h.maxHeight == 0 || h.maxHeight + 1 == c.minHeight || PopulatedAt(w.index, h.maxHeight))
      && h.nextWriteOffset <= w.dataHighwater
  {
    ReachableInv(c, w);
    InvFacts(c, w);
    HeaderClaims(c, w);
    EntryTells(c, w, w.index.header.maxHeight);
    hide PopulatedAt, SpaceOk, DataOk, IndexOk, FloorOk, MarksOk, LoadedOk;
  }

  /** No action is one of call `id`. */
  predicate Others(actions: seq<Action>, id: nat) {
    forall a :: a in actions ==> a != Advance(id) && !(a.Abort? && a.id == id)
  }

  lemma OtherStepKeepsCall(c: Config, w: World, a: Action, id: nat)
    requires Enabled(c, w, a) && a != Advance(id) && !(a.Abort? && a.id == id) && id in w.calls
    ensures id in Do(c, w, a).calls && Do(c, w, a).calls[id] == w.calls[id]
  {
    hide Admit, FileIndexLeft, Legal, AllReturned, Pending, DoAdvance, DoFail, Returned, CanFail;
    match a
    case Begin(_, _, _) =>
    case Advance(i) => AdvanceMoves(c, w, i);
    case Abort(i, torn) => FailMoves(c, w, i, torn);
    case Close =>
  }

  lemma FailMoves(c: Config, w: World, id: nat, torn: nat)
    requires id in w.calls && Legal(c, w.calls[id].job) && torn <= |Pending(c, w.calls[id])|
    ensures Moves(w, DoFail(c, w, id, torn), id)
  {
    hide Legal, WriteInto, Pending;
  }

  lemma {:induction false} OthersKeepCall(c: Config, w: World, actions: seq<Action>, id: nat)
    requires Runs(c, w, actions) && Others(actions, id) && id in w.calls
    ensures id in Final(c, w, actions).calls && Final(c, w, actions).calls[id] == w.calls[id]
    decreases |actions|
  {
    hide Enabled, Do;
    if actions == [] {
    } else {
      assert actions[0] in actions;
      OtherStepKeepsCall(c, w, actions[0], id);
      OthersKeepCall(c, Do(c, w, actions[0]), actions[1..], id);
    }
  }

  /** A checkpoint is not atomic: whatever other calls do between its loads and its write,
      the header that a call writes carries the end of its own block, the highwater of the
      moment it loaded that, and the floor of the later moment it loaded that one; and the
      mark it leaves for later calls is the end of its own block again. */
  lemma HeaderCarriesLoads(c: Config, w: World, id: nat, first: seq<Action>, second: seq<Action>, third: seq<Action>)
    requires id in w.calls && w.calls[id].pc.IndexSynced? && Legal(c, w.calls[id].job)
    requires Others(first, id) && Others(second, id) && Others(third, id)
    requires Runs(c, DoAdvance(c, w, id), first)
    ensures var loading := Final(c, DoAdvance(c, w, id), first);
      && SameJob(w, loading, id)
      && (Runs(c, DoAdvance(c, loading, id), second) ==>
            var writing := Final(c, DoAdvance(c, loading, id), second);
            && SameJob(w, writing, id)
            && var header := DoAdvance(c, writing, id).index.header;
               && header.nextWriteOffset == w.calls[id].job.end
               && header.maxHeight == w.heightHighwater
               && header.contiguous == loading.floor
               && (Runs(c, DoAdvance(c, writing, id), third) ==>
                     var last := Final(c, DoAdvance(c, writing, id), third);
                     SameJob(w, last, id) && DoAdvance(c, last, id).lastCheckpoint == w.calls[id].job.end))
  {
    hide Legal, Runs, Final, Others;
    var q := DoAdvance(c, w, id);
    OthersKeepCall(c, q, first, id);
    var loading := Final(c, q, first);
    var p := DoAdvance(c, loading, id);
    if Runs(c, p, second) {
      OthersKeepCall(c, p, second, id);
      var writing := Final(c, p, second);
      if Runs(c, DoAdvance(c, writing, id), third) {
        OthersKeepCall(c, DoAdvance(c, writing, id), third, id);
      }
    }
  }

  predicate SameJob(w: World, q: World, id: nat) {
    id in w.calls && id in q.calls && q.calls[id].job == w.calls[id].job
  }

  /** When a call makes a checkpoint: its height raised the highwater to a multiple of 1024
      at the moment it was counted, or at the moment of the decision 64 MiB lie between the
      last checkpoint and the end of its own block. */
  lemma CallCheckpointsIff(c: Config, w: World, id: nat, between: seq<Action>)
    requires id in w.calls && w.calls[id].pc.Floored? && Legal(c, w.calls[id].job)
    requires Others(between, id) && Runs(c, DoAdvance(c, w, id), between)
    ensures var v, j := Final(c, DoAdvance(c, w, id), between), w.calls[id].job;
      && DoAdvance(c, w, id).heightHighwater == Max(w.heightHighwater, j.height)
      && SameJob(w, v, id)
      && DoAdvance(c, v, id)
         == Goto(v, id, if (w.heightHighwater < j.height && j.height % 1024 == 0) || j.end >= v.lastCheckpoint + 67_108_864
                        then Saving else Finished)
  {
    hide *;
    RaiseStep(c, w, id);
    OthersKeepCall(c, DoAdvance(c, w, id), between, id);
    DecideStep(c, Final(c, DoAdvance(c, w, id), between), id);
    SameJobIntro(w, Final(c, DoAdvance(c, w, id), between), id);
  }

  lemma SameJobIntro(w: World, q: World, id: nat)
    requires id in w.calls && id in q.calls && q.calls[id].job == w.calls[id].job
    ensures SameJob(w, q, id)
  {
  }

  lemma RaiseStep(c: Config, w: World, id: nat)
    requires id in w.calls && w.calls[id].pc.Floored? && Legal(c, w.calls[id].job)
    ensures var q, j := DoAdvance(c, w, id), w.calls[id].job;
      && q.heightHighwater == Max(w.heightHighwater, j.height)
      && id in q.calls && q.calls[id] == Call(j, Raised(w.heightHighwater < j.height))
  {
    hide Legal;
  }

  lemma DecideStep(c: Config, w: World, id: nat)
    requires id in w.calls && w.calls[id].pc.Raised? && Legal(c, w.calls[id].job)
    ensures var j := w.calls[id].job;
      DoAdvance(c, w, id)
      == Goto(w, id, if (w.calls[id].pc.rose && j.height % 1024 == 0) || j.end >= w.lastCheckpoint + 67_108_864
                     then Saving else Finished)
  {
    hide Legal, CheckpointDue;
    CheckpointDueIff(w.calls[id].pc.rose, w.calls[id].job.height, w.calls[id].job.end, w.lastCheckpoint);
  }

  /** What a call that fails gives back: if its space is still the last, all that it took,
      the skipped end of a file included; otherwise nothing. */
  lemma RollbackIff(c: Config, w: World, id: nat, height: U64, block: seq<Byte>, between: seq<Action>)
    requires Enabled(c, w, Begin(id, height, block)) && Runs(c, Do(c, w, Begin(id, height, block)), between)
    ensures var v := Final(c, Do(c, w, Begin(id, height, block)), between);
      var end := RoomAt(c.cap, w.dataHighwater, 22 + |c.codec.compress(block)|) + 22 + |c.codec.compress(block)|;
      id in v.calls && (v.calls[id].pc.Failing? && Legal(c, v.calls[id].job) ==>
        DoAdvance(c, v, id) == v.(
          calls := v.calls[id := Call(v.calls[id].job, Released)],
          dataHighwater := if v.dataHighwater == end then w.dataHighwater else v.dataHighwater))
  {
    AdmitIff(c, w.dataHighwater, height, block);
    hide Legal, Runs, Final, RoomAt, Admit, Admissible, FileIndexLeft;
    RunKeepsJobs(c, Do(c, w, Begin(id, height, block)), between);
  }

  /** A call may fail at each of its system calls and nowhere else. The failure itself
      changes no mark and no entry; behind it a call that was writing data has to give its
      space back, one that was writing its entry returns an error, and one that was making
      a checkpoint leaves its block indexed. */
  lemma EverySystemCallMayFail(c: Config, w: World, id: nat, torn: nat)
    requires id in w.calls && Legal(c, w.calls[id].job) && torn <= |Pending(c, w.calls[id])|
    ensures var pc := w.calls[id].pc;
      var data := pc.Reserved? || pc.FileOpen? || pc.PayloadWritten? || pc.HeaderWritten?;
      && (Enabled(c, w, Abort(id, torn)) <==> data || pc.Synced? || pc.Saving? || pc.HaveFloor?)
      && (Enabled(c, w, Abort(id, torn)) ==>
            var q := Do(c, w, Abort(id, torn));
            q == w.(files := q.files,
                    calls := w.calls[id := Call(w.calls[id].job, if data then Failing else if pc.Synced? then Unindexed
                                                                 else Finished)]))
  {
    hide Legal, WriteInto, Pending;
  }
}
