/** Concurrent writers in sync mode, with the index writes that are not synced yet: what a
    run without failing writes leaves on disk. */
module ConcurrentCrash {
  import opened Bytes
  import opened Results
  import opened BlockFormat
  import opened FileSet
  import opened IndexFile
  import opened BlockIo
  import opened Scan
  import opened Log
  import opened History
  import opened StoreState
  import opened PowerLoss
  import opened Writers
  import opened WriterInvariants
  import opened Concurrency
  import RefusedOpens
  import Reopen

  /** The writers, the index file as it is on disk with the writes that are not synced
      yet, and as history the calls and their blocks in the order of their reservations.
      A call syncs its data before it writes its index entry, so the data of a call that
      has returned is on disk. */
  datatype Machine = Machine(w: World, durable: Index, unsynced: seq<IndexOp>, order: seq<nat>, log: seq<Seen>)

  function Item(c: Config, j: Job): Seen {
    Seen(j.height, j.offset, |c.codec.compress(j.block)|, j.block)
  }

  function Created(h: Header): Machine {
    Machine(Writers.Start(h), Index(h, []), [], [], [])
  }

  /** No system call fails. */
  ghost predicate Enabled(c: Config, m: Machine, a: Action) {
    (a.Begin? || a.Advance?) && Writers.Enabled(c, m.w, a)
  }

  /** The index entry and the header are writes that a later sync makes durable; the one
      sync of the index file is the first step of a checkpoint. */
  ghost function Do(c: Config, m: Machine, a: Action): Machine
    requires Enabled(c, m, a)
  {
    var q := Writers.Do(c, m.w, a);
    match a
    case Begin(id, height, block) =>
      m.(w := q, order := m.order + [id], log := m.log + [Item(c, q.calls[id].job)])
    case Advance(id) =>
      var k := m.w.calls[id];
      if k.pc.Synced? then
        m.(w := q, unsynced := m.unsynced + [PutEntry(Slot(c, k.job.height), EntryOf(c, k.job))])
      else if k.pc.HaveFloor? then
        m.(w := q, unsynced := m.unsynced + [PutHeader(q.index.header)])
      else if k.pc.Saving? then
        m.(w := q, durable := m.w.index, unsynced := [])
      else m.(w := q)
    case _ => m
  }

  ghost predicate Runs(c: Config, m: Machine, actions: seq<Action>)
    decreases |actions|
  {
    actions != [] ==> Enabled(c, m, actions[0]) && Runs(c, Do(c, m, actions[0]), actions[1..])
  }

  ghost function Final(c: Config, m: Machine, actions: seq<Action>): Machine
    requires Runs(c, m, actions)
    decreases |actions|
  {
    if actions == [] then m else Final(c, Do(c, m, actions[0]), actions[1..])
  }

  // ---------------------------------------------------------------- the invariant

  /** The log lists the blocks of all calls, none of which has failed. */
  ghost predicate CallsLogged(c: Config, m: Machine) {
    && |m.order| == |m.log|
    && (forall i :: 0 <= i < |m.log| ==> LoggedAt(c, m, i))
    && (forall id :: id in m.w.calls ==> id in m.order && InTime(m.w.calls[id]))
  }

  ghost predicate LoggedAt(c: Config, m: Machine, i: nat)
    requires i < |m.order| == |m.log|
  {
    m.order[i] in m.w.calls && m.log[i] == Item(c, m.w.calls[m.order[i]].job)
  }

  predicate InTime(k: Call) {
    !k.pc.Failing? && !k.pc.Released? && !k.pc.Unindexed?
  }

  ghost predicate LogLaid(c: Config, m: Machine) {
    Laid(c, m.log) && m.w.dataHighwater == EndAt(m.log, |m.log|)
  }

  /** No file is longer than some block of the log demands. */
  ghost predicate FilesBelow(c: Config, files: Files, log: seq<Seen>) {
    forall f :: f in files ==> exists i :: 0 <= i < |log| && BelowBlock(c, files, log, f, i)
  }

  predicate BelowBlock(c: Config, files: Files, log: seq<Seen>, f: nat, i: nat)
    requires f in files && i < |log|
  {
    var p := Split(c.cap, log[i].offset);
    p.file == f && |files[f]| <= p.local + FrameLen(log[i])
  }

  predicate EntryOfLog(c: Config, log: seq<Seen>, k: nat, e: Entry) {
    exists v :: v in log && Slot(c, v.height) == k && e == Entry(v.offset, v.size, 0)
  }

  ghost predicate HeaderFrom(c: Config, log: seq<Seen>, h: Header) {
    && h.minHeight == c.minHeight
    && (h.maxHeight < c.minHeight || Addressable(c.minHeight, h.maxHeight))
    && exists k: nat :: k <= |log| && h.nextWriteOffset == EndAt(log, k)
  }

  ghost predicate SlotsFrom(c: Config, log: seq<Seen>, slots: seq<Entry>) {
    forall k: nat :: Get(slots, k) == ZERO || EntryOfLog(c, log, k, Get(slots, k))
  }

  ghost predicate OpFrom(c: Config, log: seq<Seen>, op: IndexOp) {
    match op
    case PutEntry(k, e) => EntryOfLog(c, log, k, e)
    case PutHeader(h) => HeaderFrom(c, log, h)
  }

  ghost predicate IndexFrom(c: Config, log: seq<Seen>, ix: Index) {
    HeaderFrom(c, log, ix.header) && SlotsFrom(c, log, ix.slots)
  }

  ghost predicate DiskOk(c: Config, m: Machine) {
    && IndexFrom(c, m.log, m.durable)
    && (forall op :: op in m.unsynced ==> OpFrom(c, m.log, op))
    && ApplyOps(m.durable, m.unsynced) == m.w.index
  }

  ghost predicate Inv(c: Config, m: Machine) {
    && WriterInvariants.Inv(c, m.w)
    && CallsLogged(c, m) && LogLaid(c, m) && FilesBelow(c, m.w.files, m.log) && DiskOk(c, m)
  }

  lemma InvParts(c: Config, m: Machine)
    requires Inv(c, m)
    ensures WriterInvariants.Inv(c, m.w)
    ensures CallsLogged(c, m) && LogLaid(c, m) && FilesBelow(c, m.w.files, m.log) && DiskOk(c, m)
  {
  }

  lemma InvOf(c: Config, m: Machine)
    requires WriterInvariants.Inv(c, m.w)
    requires CallsLogged(c, m) && LogLaid(c, m) && FilesBelow(c, m.w.files, m.log) && DiskOk(c, m)
    ensures Inv(c, m)
  {
  }

  // ---------------------------------------------------------------- index images

  lemma OpKeepsFrom(c: Config, log: seq<Seen>, ix: Index, op: IndexOp)
    requires IndexFrom(c, log, ix) && OpFrom(c, log, op)
    ensures IndexFrom(c, log, ApplyOp(ix, op))
  {
    hide HeaderFrom, EntryOfLog;
  }

  lemma {:induction false} OpsKeepFrom(c: Config, log: seq<Seen>, ix: Index, ops: seq<IndexOp>)
    requires IndexFrom(c, log, ix) && forall op :: op in ops ==> OpFrom(c, log, op)
    ensures IndexFrom(c, log, ApplyOps(ix, ops))
    decreases |ops|
  {
    hide IndexFrom, OpFrom, ApplyOp;
    if ops == [] {
    } else {
      assert ops[0] in ops;
      OpKeepsFrom(c, log, ix, ops[0]);
      OpsKeepFrom(c, log, ApplyOp(ix, ops[0]), ops[1..]);
    }
  }

  /** Whatever subset of the unsynced index writes survives, the index holds entries of
      logged blocks only, and its header points at a block boundary. */
  lemma ImageFrom(c: Config, m: Machine, keep: seq<bool>)
    requires DiskOk(c, m) && |keep| == |m.unsynced|
    ensures IndexFrom(c, m.log, ApplyOps(m.durable, Kept(m.unsynced, keep)))
  {
    hide IndexFrom, OpFrom, ApplyOps, Kept;
    KeptIsPart(m.unsynced, keep);
    OpsKeepFrom(c, m.log, m.durable, Kept(m.unsynced, keep));
  }

  lemma FromMore(c: Config, log: seq<Seen>, v: Seen, ix: Index)
    requires IndexFrom(c, log, ix)
    ensures IndexFrom(c, log + [v], ix)
  {
    HeaderFromMore(c, log, v, ix.header);
    forall k: nat
      ensures Get(ix.slots, k) == ZERO || EntryOfLog(c, log + [v], k, Get(ix.slots, k))
    {
      if EntryOfLog(c, log, k, Get(ix.slots, k)) {
        EntryOfMore(c, log, v, k, Get(ix.slots, k));
      }
    }
    hide HeaderFrom, EntryOfLog;
  }

  lemma HeaderFromMore(c: Config, log: seq<Seen>, v: Seen, h: Header)
    requires HeaderFrom(c, log, h)
    ensures HeaderFrom(c, log + [v], h)
  {
    var k: nat :| k <= |log| && h.nextWriteOffset == EndAt(log, k);
    EndsOfAppended(log, v);
    hide EndAt;
    assert k <= |log + [v]| && h.nextWriteOffset == EndAt(log + [v], k);
  }

  lemma EntryOfMore(c: Config, log: seq<Seen>, v: Seen, k: nat, e: Entry)
    requires EntryOfLog(c, log, k, e)
    ensures EntryOfLog(c, log + [v], k, e)
  {
    var u :| u in log && Slot(c, u.height) == k && e == Entry(u.offset, u.size, 0);
    assert u in log + [v];
  }

  lemma OpFromMore(c: Config, log: seq<Seen>, v: Seen, op: IndexOp)
    requires OpFrom(c, log, op)
    ensures OpFrom(c, log + [v], op)
  {
    match op
    case PutEntry(k, e) => EntryOfMore(c, log, v, k, e);
    case PutHeader(h) => HeaderFromMore(c, log, v, h);
  }

  // ---------------------------------------------------------------- the steps

  lemma CreatedInv(c: Config, h: Header)
    requires NewHeader(c, h) && c.minHeight >= 1
    ensures Inv(c, Created(h))
  {
    StartInv(c, h);
    assert EndAt([], 0) == 0;
    hide WriterInvariants.Inv;
  }

  lemma BeginFacts(c: Config, m: Machine, id: nat, height: U64, block: seq<Byte>)
    requires c.codec.Valid() && Enabled(c, m, Begin(id, height, block))
    ensures id !in m.w.calls && FileIndexLeft(c, m.w.dataHighwater)
    ensures Admit(c, m.w.dataHighwater, height, block).Ok? && |c.codec.compress(block)| <= MAX_BLOCK_SIZE
    ensures var q, r := Do(c, m, Begin(id, height, block)), Admit(c, m.w.dataHighwater, height, block).value;
      var j := Job(height, block, m.w.dataHighwater, r.offset, r.end);
      && q.w == Writers.Do(c, m.w, Begin(id, height, block))
      && q.w.calls == m.w.calls[id := Call(j, Reserved)] && q.w.files == m.w.files && q.w.index == m.w.index
      && q.w.dataHighwater == r.end && q.order == m.order + [id] && q.log == m.log + [Item(c, j)]
      && q.durable == m.durable && q.unsynced == m.unsynced
  {
    hide Admit, FileIndexLeft;
  }

  lemma BeginInv(c: Config, m: Machine, id: nat, height: U64, block: seq<Byte>)
    requires c.codec.Valid() && c.minHeight >= 1 && Inv(c, m) && Enabled(c, m, Begin(id, height, block))
    ensures Inv(c, Do(c, m, Begin(id, height, block)))
  {
    hide *;
    BeginFacts(c, m, id, height, block);
    var q, r := Do(c, m, Begin(id, height, block)), Admit(c, m.w.dataHighwater, height, block).value;
    var j := Job(height, block, m.w.dataHighwater, r.offset, r.end);
    InvParts(c, m);
    EnabledThere(c, m, Begin(id, height, block));
    StepInv(c, m.w, Begin(id, height, block));
    BegunCalls(c, m, q, id, j);
    BegunLog(c, m, q, height, block, r);
    BegunFiles(c, m.w.files, m.log, Item(c, j));
    BegunDisk(c, m, q, Item(c, j));
    InvOf(c, q);
  }

  lemma EnabledThere(c: Config, m: Machine, a: Action)
    requires Enabled(c, m, a)
    ensures Writers.Enabled(c, m.w, a)
  {
    hide Writers.Enabled;
  }

  lemma BegunCalls(c: Config, m: Machine, q: Machine, id: nat, j: Job)
    requires CallsLogged(c, m) && id !in m.w.calls && q.w.calls == m.w.calls[id := Call(j, Reserved)]
    requires q.order == m.order + [id] && q.log == m.log + [Item(c, j)]
    ensures CallsLogged(c, q)
  {
    hide Item;
    forall i | 0 <= i < |q.log|
      ensures LoggedAt(c, q, i)
    {
      if i < |m.log| {
        assert LoggedAt(c, m, i);
      }
    }
  }

  lemma BegunLog(c: Config, m: Machine, q: Machine, height: U64, block: seq<Byte>, r: Reservation)
    requires c.codec.Valid() && LogLaid(c, m) && FileIndexLeft(c, m.w.dataHighwater)
    requires Admit(c, m.w.dataHighwater, height, block) == Ok(r) && |c.codec.compress(block)| <= MAX_BLOCK_SIZE
    requires q.log == m.log + [Item(c, Job(height, block, m.w.dataHighwater, r.offset, r.end))] && q.w.dataHighwater == r.end
    ensures LogLaid(c, q)
  {
    hide *;
    var from, v := m.w.dataHighwater, Reopen.Appended(c, r.offset, height, block);
    var s := State(m.w.files, m.w.index, from, m.w.heightHighwater, m.w.floor, m.w.lastCheckpoint);
    Reopen.AdmittedIsLaid(c, s, height, block, from);
    ItemIsAppended(c, r.offset, height, block, from, r.end);
    EndsOfAppended(m.log, v);
    LaidParts(c, m);
    LaidMore(c, m.log, v);
    LaidIntro(c, q);
  }

  lemma ItemIsAppended(c: Config, off: nat, height: U64, block: seq<Byte>, start: nat, end: nat)
    ensures Item(c, Job(height, block, start, off, end)) == Reopen.Appended(c, off, height, block)
  {
  }

  lemma LaidParts(c: Config, m: Machine)
    requires LogLaid(c, m)
    ensures Laid(c, m.log) && m.w.dataHighwater == EndAt(m.log, |m.log|)
  {
    hide Laid;
  }

  lemma LaidIntro(c: Config, m: Machine)
    requires Laid(c, m.log) && m.w.dataHighwater == EndAt(m.log, |m.log|)
    ensures LogLaid(c, m)
  {
    hide Laid;
  }

  lemma LaidMore(c: Config, log: seq<Seen>, v: Seen)
    requires Laid(c, log) && LaidAt(c, v, EndAt(log, |log|))
    ensures Laid(c, log + [v])
  {
    hide *;
    forall i | 0 <= i < |log + [v]|
      ensures LaidAt(c, (log + [v])[i], EndAt(log + [v], i))
    {
      EndOfPrefix(log, v, i);
      if i < |log| {
        LaidEntry(c, log, i);
      }
    }
    LaidAll(c, log + [v]);
  }

  lemma LaidAll(c: Config, log: seq<Seen>)
    requires forall i :: 0 <= i < |log| ==> LaidAt(c, log[i], EndAt(log, i))
    ensures Laid(c, log)
  {
    hide LaidAt;
  }

  lemma BegunFiles(c: Config, files: Files, log: seq<Seen>, v: Seen)
    requires FilesBelow(c, files, log)
    ensures FilesBelow(c, files, log + [v])
  {
    hide Split;
    forall f | f in files
      ensures exists i :: 0 <= i < |log + [v]| && BelowBlock(c, files, log + [v], f, i)
    {
      var i :| 0 <= i < |log| && BelowBlock(c, files, log, f, i);
      assert BelowBlock(c, files, log + [v], f, i);
    }
  }

  lemma BegunDisk(c: Config, m: Machine, q: Machine, v: Seen)
    requires DiskOk(c, m) && q.log == m.log + [v] && q.durable == m.durable && q.unsynced == m.unsynced
    requires q.w.index == m.w.index
    ensures DiskOk(c, q)
  {
    hide IndexFrom, OpFrom, ApplyOps;
    FromMore(c, m.log, v, m.durable);
    forall op | op in q.unsynced
      ensures OpFrom(c, q.log, op)
    {
      OpFromMore(c, m.log, v, op);
    }
  }

  /** What one step of a call that has not failed does, as far as files and index go. */
  ghost predicate Touches(c: Config, w: World, q: World, id: nat)
    requires id in w.calls
  {
    || q.files == w.files
    || exists at: nat, data: seq<Byte> ::
         at + |data| <= Len(c, w.calls[id].job) && q.files == WriteInto(w.files, c.cap, w.calls[id].job.offset, at, data)
  }

  lemma AdvanceParts(c: Config, w: World, id: nat)
    requires id in w.calls && Legal(c, w.calls[id].job) && InTime(w.calls[id]) && !Returned(w.calls[id])
    ensures var q := DoAdvance(c, w, id);
      && Moves(w, q, id) && q.dataHighwater == w.dataHighwater && InTime(q.calls[id]) && Touches(c, w, q, id)
  {
    hide *;
    AdvanceMoves(c, w, id);
    AdvanceInTime(c, w, id);
    AdvanceTouches(c, w, id);
  }

  lemma AdvanceInTime(c: Config, w: World, id: nat)
    requires id in w.calls && Legal(c, w.calls[id].job) && InTime(w.calls[id])
    ensures var q := DoAdvance(c, w, id);
      q.dataHighwater == w.dataHighwater && id in q.calls && InTime(q.calls[id])
  {
    hide Legal, WriteInto, BlockHeaderOf, Put, CheckpointDue, Addressable, PopulatedAt, CheckpointHeader, Max, EntryOf, Release;
  }

  lemma AdvanceTouches(c: Config, w: World, id: nat)
    requires id in w.calls && Legal(c, w.calls[id].job)
    ensures Touches(c, w, DoAdvance(c, w, id), id)
  {
    HeaderFits(c, w.calls[id].job);
    hide Legal, WriteInto, BlockHeaderOf, Put, CheckpointDue, Addressable, PopulatedAt, CheckpointHeader, Max, EntryOf;
    var none: seq<Byte> := [];
    assert 0 + |none| <= Len(c, w.calls[id].job);
  }

  lemma AdvanceIndex(c: Config, w: World, id: nat)
    requires id in w.calls && Legal(c, w.calls[id].job) && InTime(w.calls[id]) && !Returned(w.calls[id])
    ensures var k, q := w.calls[id], DoAdvance(c, w, id);
      && (k.pc.Synced? ==> q.index == ApplyOp(w.index, PutEntry(Slot(c, k.job.height), EntryOf(c, k.job))))
      && (k.pc.HaveFloor? ==> q.index == ApplyOp(w.index, PutHeader(q.index.header)) && q.index.header.nextWriteOffset == k.job.end)
      && (!k.pc.Synced? && !k.pc.HaveFloor? ==> q.index == w.index)
  {
    hide Legal, WriteInto, BlockHeaderOf, Put, CheckpointDue, Addressable, PopulatedAt, Max, EntryOf, Slot;
  }

  lemma AdvanceIs(c: Config, m: Machine, id: nat)
    requires Enabled(c, m, Advance(id))
    ensures id in m.w.calls && Legal(c, m.w.calls[id].job) && !Returned(m.w.calls[id])
    ensures var k, q := m.w.calls[id], Do(c, m, Advance(id));
      && q.w == Writers.Do(c, m.w, Advance(id)) == DoAdvance(c, m.w, id) && q.order == m.order && q.log == m.log
      && (k.pc.Synced? ==>
            q.durable == m.durable && q.unsynced == m.unsynced + [PutEntry(Slot(c, k.job.height), EntryOf(c, k.job))])
      && (k.pc.HaveFloor? ==> q.durable == m.durable && q.unsynced == m.unsynced + [PutHeader(q.w.index.header)])
      && (k.pc.Saving? ==> q.durable == m.w.index && q.unsynced == [])
      && (!k.pc.Synced? && !k.pc.HaveFloor? && !k.pc.Saving? ==> q.durable == m.durable && q.unsynced == m.unsynced)
  {
    hide Legal, Returned, DoAdvance, Slot, EntryOf;
  }

  lemma AdvanceInv(c: Config, m: Machine, id: nat)
    requires c.codec.Valid() && c.minHeight >= 1 && Inv(c, m) && Enabled(c, m, Advance(id))
    ensures Inv(c, Do(c, m, Advance(id)))
  {
    hide *;
    var q := Do(c, m, Advance(id));
    InvParts(c, m);
    AdvanceIs(c, m, id);
    EnabledThere(c, m, Advance(id));
    StepInv(c, m.w, Advance(id));
    var i := PlaceInLog(c, m, id);
    AdvanceParts(c, m.w, id);
    AdvanceIndex(c, m.w, id);
    MovedCalls(c, m, q, id);
    MovedLog(c, m, q);
    TouchedFiles(c, m, q, id, i);
    MovedDisk(c, m, q, id, i);
    InvOf(c, q);
  }

  lemma PlaceInLog(c: Config, m: Machine, id: nat) returns (i: nat)
    requires CallsLogged(c, m) && id in m.w.calls
    ensures i < |m.log| && m.log[i] == Item(c, m.w.calls[id].job) && InTime(m.w.calls[id])
  {
    hide Item, InTime;
    i :| 0 <= i < |m.order| && m.order[i] == id;
    assert LoggedAt(c, m, i);
  }

  lemma MovedCalls(c: Config, m: Machine, q: Machine, id: nat)
    requires CallsLogged(c, m) && Moves(m.w, q.w, id) && id in m.w.calls && InTime(q.w.calls[id])
    requires q.order == m.order && q.log == m.log
    ensures CallsLogged(c, q)
  {
    hide Item, InTime;
    forall i | 0 <= i < |q.log|
      ensures LoggedAt(c, q, i)
    {
      assert LoggedAt(c, m, i);
    }
  }

  lemma MovedLog(c: Config, m: Machine, q: Machine)
    requires LogLaid(c, m) && q.log == m.log && q.w.dataHighwater == m.w.dataHighwater
    ensures LogLaid(c, q)
  {
    hide *;
    LaidParts(c, m);
    LaidIntro(c, q);
  }

  lemma TouchedFiles(c: Config, m: Machine, q: Machine, id: nat, i: nat)
    requires FilesBelow(c, m.w.files, m.log) && q.log == m.log && id in m.w.calls && Touches(c, m.w, q.w, id)
    requires i < |m.log| && m.log[i] == Item(c, m.w.calls[id].job)
    ensures FilesBelow(c, q.w.files, q.log)
  {
    hide FilesBelow, WriteInto, Len;
    if q.w.files != m.w.files {
      var at: nat, data: seq<Byte> :|
        at + |data| <= Len(c, m.w.calls[id].job)
        && q.w.files == WriteInto(m.w.files, c.cap, m.w.calls[id].job.offset, at, data);
      ItemLength(c, m.w.calls[id].job);
      StillBelow(c, m.w.files, m.log, i, at, data);
    }
  }

  lemma ItemLength(c: Config, j: Job)
    ensures FrameLen(Item(c, j)) == Len(c, j) && Item(c, j).offset == j.offset
  {
  }

  /** A write inside the place of a logged block. */
  lemma StillBelow(c: Config, files: Files, log: seq<Seen>, i: nat, at: nat, data: seq<Byte>)
    requires FilesBelow(c, files, log) && i < |log| && at + |data| <= FrameLen(log[i])
    ensures FilesBelow(c, WriteInto(files, c.cap, log[i].offset, at, data), log)
  {
    var after := WriteInto(files, c.cap, log[i].offset, at, data);
    var p := Split(c.cap, log[i].offset);
    hide Split, FrameLen;
    forall f | f in after
      ensures exists j :: 0 <= j < |log| && BelowBlock(c, after, log, f, j)
    {
      if f != p.file || (f in files && |after[f]| == |files[f]|) {
        assert f in files;
        var j :| 0 <= j < |log| && BelowBlock(c, files, log, f, j);
        assert BelowBlock(c, after, log, f, j);
      } else {
        assert BelowBlock(c, after, log, f, i);
      }
    }
  }

  lemma MovedDisk(c: Config, m: Machine, q: Machine, id: nat, i: nat)
    requires DiskOk(c, m) && id in m.w.calls && q.log == m.log && i < |m.log| && m.log[i] == Item(c, m.w.calls[id].job)
    requires Legal(c, m.w.calls[id].job) && WriterInvariants.Inv(c, q.w) && c.minHeight >= 1
    requires var k := m.w.calls[id];
      && (k.pc.Synced? ==>
            && q.durable == m.durable && q.unsynced == m.unsynced + [PutEntry(Slot(c, k.job.height), EntryOf(c, k.job))]
            && q.w.index == ApplyOp(m.w.index, PutEntry(Slot(c, k.job.height), EntryOf(c, k.job))))
      && (k.pc.HaveFloor? ==>
            && q.durable == m.durable && q.unsynced == m.unsynced + [PutHeader(q.w.index.header)]
            && q.w.index == ApplyOp(m.w.index, PutHeader(q.w.index.header)) && q.w.index.header.nextWriteOffset == k.job.end)
      && (!k.pc.Synced? && !k.pc.HaveFloor? ==> q.w.index == m.w.index)
      && (k.pc.Saving? ==> q.durable == m.w.index && q.unsynced == [])
      && (!k.pc.Synced? && !k.pc.HaveFloor? && !k.pc.Saving? ==> q.durable == m.durable && q.unsynced == m.unsynced)
    ensures DiskOk(c, q)
  {
    hide *;
    var k := m.w.calls[id];
    if k.pc.Synced? {
      var op := PutEntry(Slot(c, k.job.height), EntryOf(c, k.job));
      ItemEntry(c, m.log, i, k.job);
      OneMore(c, m, q, op);
    } else if k.pc.HaveFloor? {
      var op := PutHeader(q.w.index.header);
      InvFacts(c, q.w);
      HeaderMark(c, q.w);
      ItemEnd(c, m.log, i, k.job, q.w.index.header);
      OneMore(c, m, q, op);
    } else if k.pc.Saving? {
      NowDurable(c, m, q);
    } else {
      SameDisk(c, m, q);
    }
  }

  lemma ItemEntry(c: Config, log: seq<Seen>, i: nat, j: Job)
    requires i < |log| && log[i] == Item(c, j)
    ensures OpFrom(c, log, PutEntry(Slot(c, j.height), EntryOf(c, j)))
  {
    assert log[i] in log;
  }

  lemma ItemEnd(c: Config, log: seq<Seen>, i: nat, j: Job, h: Header)
    requires i < |log| && log[i] == Item(c, j) && Legal(c, j) && h.nextWriteOffset == j.end
    requires h.minHeight == c.minHeight && (h.maxHeight < c.minHeight || Addressable(c.minHeight, h.maxHeight))
    ensures OpFrom(c, log, PutHeader(h))
  {
    hide Addressable, InOneFile;
    assert i + 1 <= |log| && h.nextWriteOffset == EndAt(log, i + 1);
  }

  lemma OneMore(c: Config, m: Machine, q: Machine, op: IndexOp)
    requires DiskOk(c, m) && OpFrom(c, m.log, op) && q.log == m.log
    requires q.durable == m.durable && q.unsynced == m.unsynced + [op] && q.w.index == ApplyOp(m.w.index, op)
    ensures DiskOk(c, q)
  {
    hide IndexFrom, OpFrom, ApplyOps, ApplyOp;
    ApplyOpsAppend(m.durable, m.unsynced, op);
  }

  lemma NowDurable(c: Config, m: Machine, q: Machine)
    requires DiskOk(c, m) && q.log == m.log && q.durable == m.w.index && q.unsynced == [] && q.w.index == m.w.index
    ensures DiskOk(c, q)
  {
    OpsKeepFrom(c, m.log, m.durable, m.unsynced);
    hide IndexFrom, OpFrom;
    assert ApplyOps(q.durable, []) == q.durable;
  }

  lemma SameDisk(c: Config, m: Machine, q: Machine)
    requires DiskOk(c, m) && q.log == m.log && q.durable == m.durable && q.unsynced == m.unsynced && q.w.index == m.w.index
    ensures DiskOk(c, q)
  {
    hide IndexFrom, OpFrom, ApplyOps;
  }

  lemma {:induction false} RunsInv(c: Config, m: Machine, actions: seq<Action>)
    requires c.codec.Valid() && c.minHeight >= 1 && Inv(c, m) && Runs(c, m, actions)
    ensures Inv(c, Final(c, m, actions))
    decreases |actions|
  {
    hide Inv, Do, Writers.Enabled;
    if actions == [] {
    } else {
      var a := actions[0];
      if a.Begin? {
        BeginInv(c, m, a.id, a.height, a.block);
      } else {
        AdvanceInv(c, m, a.id);
      }
      RunsInv(c, Do(c, m, a), actions[1..]);
    }
  }

  // ---------------------------------------------------------------- a quiet run is a log

  /** All calls have returned, and so their blocks are indexed. */
  lemma QuietOnDisk(c: Config, m: Machine, i: nat)
    requires CallsLogged(c, m) && DataOk(c, m.w) && AllReturned(m.w) && i < |m.log|
    ensures FrameOnDisk(c, m.w.files, m.log[i])
    ensures m.order[i] in m.w.calls && m.w.calls[m.order[i]].pc.Finished?
  {
    hide Holds, InOneFile, Addressable;
    assert LoggedAt(c, m, i);
    var k := m.w.calls[m.order[i]];
    assert InTime(k) && Returned(k) && CallOk(c, m.w.files, k) && Framed(k);
  }

  /** Blocks further on in the log lie in the same data file or in a later one. */
  lemma FilesIncrease(c: Config, log: seq<Seen>, i: nat, j: nat)
    requires Laid(c, log) && i <= j < |log|
    ensures Split(c.cap, log[i].offset).file <= Split(c.cap, log[j].offset).file
  {
    hide *;
    LaidEntry(c, log, i);
    LaidEntry(c, log, j);
    LaidFacts(c, log[i], EndAt(log, i));
    LaidFacts(c, log[j], EndAt(log, j));
    LaidStep(c, log[j], EndAt(log, j));
    EndsIncrease(c, log, i, j);
    FilesOrdered(c.cap, log[i].offset, log[j].offset, FrameLen(log[i]), FrameLen(log[j]));
  }

  lemma FilesOrdered(cap: Option<Pos>, a: nat, b: nat, aLen: nat, bLen: nat)
    requires a <= b && InOneFile(cap, a, aLen) && InOneFile(cap, b, bLen)
    ensures Split(cap, a).file <= Split(cap, b).file
  {
    if cap.Some? {
      DivMonotone(a, b, cap.value);
    }
  }

  /** Every file up to that of the last block holds some block. */
  lemma {:induction false} NoFileSkipped(c: Config, log: seq<Seen>, n: nat, f: nat)
    requires Laid(c, log) && n < |log| && f <= Split(c.cap, log[n].offset).file
    ensures exists i :: 0 <= i <= n && Split(c.cap, log[i].offset).file == f
    decreases n
  {
    hide *;
    if f == Split(c.cap, log[n].offset).file {
    } else {
      LaidEntry(c, log, n);
      LaidFacts(c, log[n], EndAt(log, n));
      if n == 0 {
        EndOfNone(log);
        FirstPlace(c, log[0]);
        FirstIsFirst(c, log[0]);
        assert false;
      } else {
        OneFurther(c, log, n);
        NoFileSkipped(c, log, n - 1, f);
      }
    }
  }

  lemma EndOfNone(log: seq<Seen>)
    ensures EndAt(log, 0) == 0
  {
  }

  lemma FirstIsFirst(c: Config, v: Seen)
    requires NextPlaceIs(c, map[], 0, v)
    ensures Split(c.cap, v.offset).file == 0
  {
    var p := Split(c.cap, v.offset);
    hide Split, TailClosed;
    var none: Files := map[];
    assert 0 !in none;
  }

  lemma OneFurther(c: Config, log: seq<Seen>, n: nat)
    requires Laid(c, log) && 0 < n < |log|
    ensures Split(c.cap, log[n].offset).file <= Split(c.cap, log[n - 1].offset).file + 1
    ensures log[n].offset != EndAt(log, n) ==>
      Split(c.cap, EndAt(log, n)) == Place(Split(c.cap, log[n - 1].offset).file,
                                          Split(c.cap, log[n - 1].offset).local + FrameLen(log[n - 1]))
  {
    hide *;
    var u, v := log[n - 1], log[n];
    LaidEntry(c, log, n - 1);
    LaidEntry(c, log, n);
    LaidFacts(c, u, EndAt(log, n - 1));
    LaidFacts(c, v, EndAt(log, n));
    EndOfLast(log, n);
    NextFile(c.cap, u.offset, FrameLen(u), v.offset, FrameLen(v));
    BehindMeans(Split(c.cap, v.offset), Split(c.cap, u.offset), Split(c.cap, EndAt(log, n)), FrameLen(u), v.offset != EndAt(log, n));
  }

  lemma EndOfLast(log: seq<Seen>, n: nat)
    requires 0 < n <= |log|
    ensures EndAt(log, n) == log[n - 1].offset + FrameLen(log[n - 1])
  {
  }

  lemma BehindMeans(p: Place, q: Place, e: Place, len: nat, skipped: bool)
    requires Behind(p, q, e, len, skipped)
    ensures p.file <= q.file + 1 && (skipped ==> e == Place(q.file, q.local + len))
  {
  }

  /** In the same file, a block that ends earlier ends at a smaller local offset. */
  lemma LocalEnds(cap: Option<Pos>, a: nat, aLen: nat, b: nat, bLen: nat)
    requires InOneFile(cap, a, aLen) && InOneFile(cap, b, bLen) && Split(cap, a).file == Split(cap, b).file
    requires a + aLen <= b + bLen
    ensures Split(cap, a).local + aLen <= Split(cap, b).local + bLen
    ensures cap.Some? ==> Split(cap, a).local + aLen <= cap.value
  {
    if cap.Some? {
      assert a == (a / cap.value) * cap.value + a % cap.value;
      assert b == (b / cap.value) * cap.value + b % cap.value;
    }
  }

  /** The block that bounds a file, when the file is that of block `n` and no later block
      lies in it, ends where block `n` ends at the latest. */
  lemma FileEnds(c: Config, files: Files, log: seq<Seen>, n: nat)
    requires Laid(c, log) && FilesBelow(c, files, log) && n < |log| && Split(c.cap, log[n].offset).file in files
    requires forall j :: n < j < |log| ==> Split(c.cap, log[j].offset).file != Split(c.cap, log[n].offset).file
    ensures |files[Split(c.cap, log[n].offset).file]| <= Split(c.cap, log[n].offset).local + FrameLen(log[n])
  {
    hide *;
    var f := Split(c.cap, log[n].offset).file;
    var i := BoundingBlock(c, files, log, f);
    LaidEntry(c, log, i);
    LaidEntry(c, log, n);
    LaidFacts(c, log[i], EndAt(log, i));
    LaidFacts(c, log[n], EndAt(log, n));
    if i < n {
      EndsIncrease(c, log, i, n);
      LaidStep(c, log[n], EndAt(log, n));
    }
    LocalEnds(c.cap, log[i].offset, FrameLen(log[i]), log[n].offset, FrameLen(log[n]));
  }

  lemma BoundingBlock(c: Config, files: Files, log: seq<Seen>, f: nat) returns (i: nat)
    requires FilesBelow(c, files, log) && f in files
    ensures i < |log| && Split(c.cap, log[i].offset).file == f
    ensures |files[f]| <= Split(c.cap, log[i].offset).local + FrameLen(log[i])
  {
    hide Split, FrameLen;
    i :| 0 <= i < |log| && BelowBlock(c, files, log, f, i);
  }

  lemma FrameInFile(c: Config, files: Files, v: Seen)
    requires FrameOnDisk(c, files, v) && v.size == |c.codec.compress(v.block)|
    ensures var p := Split(c.cap, v.offset);
      p.file in files && p.local + FrameLen(v) <= |files[p.file]|
  {
    hide Split, Serialize;
  }

  /** A tail that the allocator has skipped is closed. */
  lemma QuietTail(c: Config, files: Files, log: seq<Seen>, i: nat)
    requires Laid(c, log) && FilesBelow(c, files, log) && i < |log| && log[i].offset != EndAt(log, i)
    requires forall j :: 0 <= j < |log| ==> FrameOnDisk(c, files, log[j])
    ensures TailClosed(c, files, EndAt(log, i))
  {
    hide *;
    LaidEntry(c, log, i);
    LaidFacts(c, log[i], EndAt(log, i));
    if i == 0 {
      EndOfNone(log);
      FirstNotSkipped(c, log[0]);
      assert false;
    } else {
      LaidEntry(c, log, i - 1);
      LaidFacts(c, log[i - 1], EndAt(log, i - 1));
      OneFurther(c, log, i);
      FrameInFile(c, files, log[i - 1]);
      LaidStep(c, log[i], EndAt(log, i));
      SkippedFile(c.cap, EndAt(log, i), log[i].offset, FrameLen(log[i]), log[i].offset, FrameLen(log[i]));
      forall j | i - 1 < j < |log|
        ensures Split(c.cap, log[j].offset).file != Split(c.cap, log[i - 1].offset).file
      {
        FilesIncrease(c, log, i, j);
      }
      FileEnds(c, files, log, i - 1);
      TailIntro(c, files, EndAt(log, i));
    }
  }

  lemma FirstNotSkipped(c: Config, v: Seen)
    requires Reserve(c.cap, 0, FrameLen(v)) == Ok(Reservation(v.offset, v.offset + FrameLen(v)))
    ensures v.offset == 0
  {
    ReserveFits(c.cap, 0, FrameLen(v));
  }

  lemma TailIntro(c: Config, files: Files, at: nat)
    requires Split(c.cap, at).file in files && |files[Split(c.cap, at).file]| <= Split(c.cap, at).local
    ensures TailClosed(c, files, at)
  {
    hide Split;
  }

  lemma QuietShape(c: Config, files: Files, log: seq<Seen>)
    requires Laid(c, log) && FilesBelow(c, files, log) && log != []
    requires forall j :: 0 <= j < |log| ==> FrameOnDisk(c, files, log[j])
    ensures EndsWith(c.cap, files, log[|log| - 1].offset, FrameLen(log[|log| - 1]))
  {
    hide *;
    var n := |log| - 1;
    var last := Split(c.cap, log[n].offset);
    LaidEntry(c, log, n);
    LaidFacts(c, log[n], EndAt(log, n));
    FrameInFile(c, files, log[n]);
    FileEnds(c, files, log, n);
    forall f: nat | f in files
      ensures f <= last.file
    {
      var i := BoundingBlock(c, files, log, f);
      FilesIncrease(c, log, i, n);
    }
    forall f: nat | f <= last.file
      ensures f in files
    {
      NoFileSkipped(c, log, n, f);
      var i :| 0 <= i <= n && Split(c.cap, log[i].offset).file == f;
      LaidEntry(c, log, i);
      LaidFacts(c, log[i], EndAt(log, i));
      FrameInFile(c, files, log[i]);
    }
    ShapeIntro(c.cap, files, log[n].offset, FrameLen(log[n]));
  }

  lemma ShapeIntro(cap: Option<Pos>, files: Files, off: nat, len: nat)
    requires forall f: nat :: f in files <==> f <= Split(cap, off).file
    requires Split(cap, off).file in files && |files[Split(cap, off).file]| == Split(cap, off).local + len
    ensures EndsWith(cap, files, off, len)
  {
    hide Split;
  }

  lemma QuietCap(c: Config, files: Files, log: seq<Seen>)
    requires Laid(c, log) && FilesBelow(c, files, log)
    ensures WithinCap(c.cap, files)
  {
    forall f: nat | f in files && c.cap.Some?
      ensures |files[f]| <= c.cap.value
    {
      hide *;
      var i := BoundingBlock(c, files, log, f);
      LaidEntry(c, log, i);
      LaidFacts(c, log[i], EndAt(log, i));
      LocalEnds(c.cap, log[i].offset, FrameLen(log[i]), log[i].offset, FrameLen(log[i]));
    }
  }

  lemma TightOf(c: Config, files: Files, log: seq<Seen>)
    requires OnDisk(c, files, log) && WithinCap(c.cap, files)
    requires log == [] ==> files == map[]
    requires log != [] ==> EndsWith(c.cap, files, log[|log| - 1].offset, FrameLen(log[|log| - 1]))
    ensures Tight(c, files, log)
  {
    hide OnDisk, WithinCap, EndsWith;
  }

  lemma NoBlocksNoFiles(c: Config, files: Files)
    requires FilesBelow(c, files, [])
    ensures files == map[]
  {
    assert forall f :: f !in files;
  }

  /** A run without failures in which all calls have returned leaves exactly the log of
      its reservations on disk, whatever the interleaving was. */
  lemma QuietIsTight(c: Config, m: Machine)
    requires Inv(c, m) && AllReturned(m.w)
    ensures Tight(c, m.w.files, m.log)
  {
    hide *;
    InvParts(c, m);
    InvFacts(c, m.w);
    LaidParts(c, m);
    forall i: nat | i < |m.log|
      ensures FrameOnDisk(c, m.w.files, m.log[i])
    {
      QuietOnDisk(c, m, i);
    }
    forall i | 0 <= i < |m.log|
      ensures LogEntryOnDisk(c, m.w.files, m.log, i)
    {
      LaidEntry(c, m.log, i);
      if m.log[i].offset != EndAt(m.log, i) {
        QuietTail(c, m.w.files, m.log, i);
      }
      LogEntryIntro(c, m.w.files, m.log, i);
    }
    OnDiskIntro(c, m.w.files, m.log);
    QuietCap(c, m.w.files, m.log);
    if m.log == [] {
      NoBlocksNoFiles(c, m.w.files);
    } else {
      QuietShape(c, m.w.files, m.log);
    }
    TightOf(c, m.w.files, m.log);
  }

  // ---------------------------------------------------------------- reachable states

  ghost predicate Reachable(c: Config, m: Machine) {
    exists h: Header, actions: seq<Action> ::
      NewHeader(c, h) && Runs(c, Created(h), actions) && m == Final(c, Created(h), actions)
  }

  lemma ReachableInv(c: Config, m: Machine)
    requires c.codec.Valid() && c.minHeight >= 1 && Reachable(c, m)
    ensures Inv(c, m)
  {
    hide Inv, Runs, Final, NewHeader;
    var h: Header, actions: seq<Action> :|
      NewHeader(c, h) && Runs(c, Created(h), actions) && m == Final(c, Created(h), actions);
    CreatedInv(c, h);
    RunsInv(c, Created(h), actions);
  }

  /** If no write has failed, a clean close is always followed by a successful open. */
  lemma CloseWithoutFailuresReopens(c: Config, m: Machine)
    requires c.codec.Valid() && c.minHeight >= 1 && Reachable(c, m) && AllReturned(m.w)
    ensures Recover(c, DoClose(m.w).files, DoClose(m.w).index).Ok?
  {
    hide *;
    var q := DoClose(m.w);
    ReachableInv(c, m);
    InvParts(c, m);
    LaidParts(c, m);
    QuietIsTight(c, m);
    TightLayout(c, m.w.files, m.log);
    InvFacts(c, m.w);
    CloseInv(c, m.w);
    InvFacts(c, q);
    HeaderMark(c, q);
    RefusedOpens.ClosedOffset(m.w);
    RefusedOpens.NothingBehind(c, m.w.files, m.w.dataHighwater);
    RecoverOkIff(c, q.files, q.index);
  }
}
