/** What every interleaving of writers keeps: space, data, index entries, floor,
    highwater and header, each with the reason why no step disturbs it. */
module WriterInvariants {
  import opened Bytes
  import opened Results
  import opened BlockFormat
  import opened FileSet
  import opened IndexFile
  import opened BlockIo
  import opened StoreState
  import opened Writers

  // ---------------------------------------------------------------- the invariant

  predicate Apart(a: Job, b: Job) {
    a.end <= b.start || b.end <= a.start
  }

  predicate AliveAt(w: World, i: nat) {
    i in w.calls && Alive(w.calls[i])
  }

  predicate ApartAt(w: World, i: nat, j: nat)
    requires i in w.calls && j in w.calls
  {
    Apart(w.calls[i].job, w.calls[j].job)
  }

  /** Reservations never overlap and lie below the allocator. */
  ghost predicate SpaceOk(w: World) {
    && (forall i :: AliveAt(w, i) ==> w.calls[i].job.end <= w.dataHighwater)
    && (forall i, j :: AliveAt(w, i) && AliveAt(w, j) && i != j ==> ApartAt(w, i, j))
  }

  predicate PayloadHeld(files: Files, cap: Option<Pos>, off: nat, payload: seq<Byte>) {
    var p := Split(cap, off);
    && p.file in files
    && p.local + HEADER_SIZE + |payload| <= |files[p.file]|
    && files[p.file][p.local + HEADER_SIZE..p.local + HEADER_SIZE + |payload|] == payload
  }

  ghost predicate CallOk(c: Config, files: Files, k: Call) {
    && Legal(c, k.job)
    && (k.pc.PayloadWritten? ==> PayloadHeld(files, c.cap, k.job.offset, c.codec.compress(k.job.block)))
    && (Framed(k) ==> Holds(files, c.cap, k.job.offset, c.codec.Frame(k.job.height, k.job.block)))
  }

  ghost predicate DataOk(c: Config, w: World) {
    forall i :: i in w.calls ==> CallOk(c, w.files, w.calls[i])
  }

  predicate IndexedAt(w: World, i: nat, height: nat) {
    i in w.calls && EntryWritten(w.calls[i]) && w.calls[i].job.height == height
  }

  function EntryAt(c: Config, w: World, height: nat): Entry {
    if height in w.latest && w.latest[height] in w.calls then EntryOf(c, w.calls[w.latest[height]].job) else ZERO
  }

  /** Every index entry is that of the call that wrote the height last. */
  ghost predicate IndexOk(c: Config, w: World) {
    && w.index.header.minHeight == c.minHeight
    && (forall h :: h in w.latest ==> c.minHeight <= h && IndexedAt(w, w.latest[h], h))
    && (forall k: nat :: Get(w.index.slots, k) == EntryAt(c, w, c.minHeight + k))
    && (forall i :: i in w.calls && EntryWritten(w.calls[i]) ==> w.calls[i].job.height in w.latest)
  }

  /** All heights up to `f` are indexed. */
  ghost predicate Claims(c: Config, w: World, f: nat) {
    forall h :: c.minHeight <= h <= f ==> h in w.latest
  }

  ghost predicate FloorOk(c: Config, w: World) {
    && c.minHeight <= w.floor + 1
    && Claims(c, w, w.floor)
    && (w.floor + 1 in w.latest ==> exists i :: i in w.calls && Responsible(w.calls[i], w.floor))
    && (forall i :: i in w.calls && w.calls[i].pc.Ready? ==> w.calls[i].pc.cur + 1 in w.latest)
  }

  ghost predicate MarkedBy(w: World, mark: nat) {
    exists i :: i in w.calls && Counted(w.calls[i]) && w.calls[i].job.height == mark
  }

  ghost predicate MarksOk(c: Config, w: World) {
    && (forall i :: i in w.calls && Counted(w.calls[i]) ==> w.calls[i].job.height <= w.heightHighwater)
    && (w.heightHighwater + 1 == c.minHeight || MarkedBy(w, w.heightHighwater))
  }

  /** A header tells no more than what is indexed. */
  ghost predicate Honest(c: Config, w: World, h: Header) {
    && Claims(c, w, h.contiguous)
    && (h.maxHeight == 0 || h.maxHeight + 1 == c.minHeight || h.maxHeight in w.latest)
  }

  ghost predicate HeaderOk(c: Config, w: World) {
    && Honest(c, w, w.index.header)
    && (forall i :: i in w.calls ==> LoadedOk(c, w, w.calls[i].pc))
  }

  /** Space that may still be given back does not end where the header points. */
  ghost predicate PointerOk(w: World) {
    && w.index.header.nextWriteOffset <= w.dataHighwater
    && (forall i :: AliveAt(w, i) && !EntryWritten(w.calls[i]) && !Returned(w.calls[i]) ==>
          ClearOf(w.calls[i].job, w.index.header.nextWriteOffset))
  }

  predicate ClearOf(j: Job, off: nat) {
    off <= j.start || j.end < off
  }

  ghost predicate LoadedOk(c: Config, w: World, pc: Pc) {
    && (pc.HaveHighwater? || pc.HaveFloor? ==> pc.mark + 1 == c.minHeight || pc.mark in w.latest)
    && (pc.HaveFloor? ==> Claims(c, w, pc.floor))
  }

  ghost predicate Inv(c: Config, w: World) {
    SpaceOk(w) && DataOk(c, w) && IndexOk(c, w) && FloorOk(c, w) && MarksOk(c, w) && HeaderOk(c, w) && PointerOk(w)
  }

  lemma InvFacts(c: Config, w: World)
    requires Inv(c, w)
    ensures SpaceOk(w) && DataOk(c, w) && IndexOk(c, w) && FloorOk(c, w) && MarksOk(c, w) && HeaderOk(c, w) && PointerOk(w)
  {
  }

  lemma InvIntro(c: Config, w: World)
    requires SpaceOk(w) && DataOk(c, w) && IndexOk(c, w) && FloorOk(c, w) && MarksOk(c, w) && HeaderOk(c, w) && PointerOk(w)
    ensures Inv(c, w)
  {
  }

  // ---------------------------------------------------------------- what a step leaves alone

  /** Only call `id` moves, and it keeps its job. */
  predicate Moves(w: World, q: World, id: nat) {
    && id in q.calls && q.calls == w.calls[id := q.calls[id]]
    && (id in w.calls ==> q.calls[id].job == w.calls[id].job)
  }

  predicate WasIndexed(w: World, id: nat) {
    id in w.calls && EntryWritten(w.calls[id])
  }

  predicate WasCounted(w: World, id: nat) {
    id in w.calls && Counted(w.calls[id])
  }

  predicate InCascade(w: World, id: nat) {
    id in w.calls && (w.calls[id].pc.Published? || w.calls[id].pc.Cascading? || w.calls[id].pc.Ready?)
  }

  lemma SpaceStays(w: World, q: World, id: nat)
    requires SpaceOk(w) && Moves(w, q, id) && AliveAt(w, id) && q.dataHighwater == w.dataHighwater
    ensures SpaceOk(q)
  {
    hide Alive, Apart;
    forall i, j | AliveAt(q, i) && AliveAt(q, j) && i != j
      ensures ApartAt(q, i, j)
    {
      assert AliveAt(w, i) && AliveAt(w, j);
      assert ApartAt(w, i, j);
    }
    forall i | AliveAt(q, i)
      ensures q.calls[i].job.end <= q.dataHighwater
    {
      assert AliveAt(w, i);
    }
  }

  lemma DataStays(c: Config, w: World, q: World, id: nat)
    requires DataOk(c, w) && Moves(w, q, id) && q.files == w.files && id in w.calls
    requires !q.calls[id].pc.PayloadWritten? && (Framed(q.calls[id]) ==> Framed(w.calls[id]))
    ensures DataOk(c, q)
  {
    hide Framed, Legal, Holds, PayloadHeld;
  }

  lemma IndexStays(c: Config, w: World, q: World, id: nat)
    requires IndexOk(c, w) && Moves(w, q, id) && q.index.slots == w.index.slots && q.latest == w.latest
    requires q.index.header.minHeight == w.index.header.minHeight
    requires WasIndexed(w, id) == EntryWritten(q.calls[id])
    ensures IndexOk(c, q)
  {
    hide EntryWritten, EntryOf;
    forall h | h in q.latest
      ensures c.minHeight <= h && IndexedAt(q, q.latest[h], h)
    {
      assert IndexedAt(w, w.latest[h], h);
    }
    forall k: nat
      ensures Get(q.index.slots, k) == EntryAt(c, q, c.minHeight + k)
    {
      var h := c.minHeight + k;
      assert Get(w.index.slots, k) == EntryAt(c, w, h);
      if h in w.latest {
        assert IndexedAt(w, w.latest[h], h);
      }
    }
  }

  lemma FloorStays(c: Config, w: World, q: World, id: nat)
    requires FloorOk(c, w) && Moves(w, q, id) && q.floor == w.floor && q.latest == w.latest
    requires !InCascade(w, id) && !q.calls[id].pc.Ready?
    ensures FloorOk(c, q)
  {
    if w.floor + 1 in w.latest {
      var i :| i in w.calls && Responsible(w.calls[i], w.floor);
      assert i != id;
      assert i in q.calls && Responsible(q.calls[i], q.floor);
    }
  }

  lemma MarksStay(c: Config, w: World, q: World, id: nat)
    requires MarksOk(c, w) && Moves(w, q, id) && q.heightHighwater == w.heightHighwater
    requires WasCounted(w, id) == Counted(q.calls[id])
    ensures MarksOk(c, q)
  {
    hide Counted;
    if MarkedBy(w, w.heightHighwater) {
      var i :| i in w.calls && Counted(w.calls[i]) && w.calls[i].job.height == w.heightHighwater;
      assert i in q.calls && Counted(q.calls[i]) && q.calls[i].job.height == q.heightHighwater;
    }
  }

  lemma HeaderStays(c: Config, w: World, q: World, id: nat)
    requires HeaderOk(c, w) && Moves(w, q, id) && q.index.header == w.index.header && q.latest == w.latest
    requires LoadedOk(c, w, q.calls[id].pc)
    ensures HeaderOk(c, q)
  {
    forall i | i in q.calls
      ensures LoadedOk(c, q, q.calls[i].pc)
    {
      assert i != id ==> LoadedOk(c, w, w.calls[i].pc);
    }
  }

  lemma PointerStays(w: World, q: World, id: nat)
    requires PointerOk(w) && Moves(w, q, id) && AliveAt(w, id) && q.dataHighwater == w.dataHighwater
    requires q.index.header.nextWriteOffset == w.index.header.nextWriteOffset
    requires EntryWritten(w.calls[id]) ==> EntryWritten(q.calls[id])
    requires Returned(w.calls[id]) ==> Returned(q.calls[id])
    ensures PointerOk(q)
  {
    hide EntryWritten, Returned, ClearOf;
    forall i | AliveAt(q, i) && !EntryWritten(q.calls[i]) && !Returned(q.calls[i])
      ensures ClearOf(q.calls[i].job, q.index.header.nextWriteOffset)
    {
      assert AliveAt(w, i);
    }
  }

  // ---------------------------------------------------------------- steps before the index entry

  /** A step of a call whose block is not indexed yet, before and after. */
  predicate Early(w: World, q: World, id: nat) {
    && Moves(w, q, id) && q.index == w.index && q.latest == w.latest
    && q.floor == w.floor && q.heightHighwater == w.heightHighwater
    && !WasIndexed(w, id) && !EntryWritten(q.calls[id])
  }

  /** Such a step can only concern space and data. */
  lemma EarlyStep(c: Config, w: World, q: World, id: nat)
    requires IndexOk(c, w) && FloorOk(c, w) && MarksOk(c, w) && HeaderOk(c, w) && Early(w, q, id)
    ensures IndexOk(c, q) && FloorOk(c, q) && MarksOk(c, q) && HeaderOk(c, q)
  {
    EarlyPc(c, w, q, id);
    hide *;
    EarlyParts(w, q, id);
    IndexStays(c, w, q, id);
    FloorStays(c, w, q, id);
    MarksStay(c, w, q, id);
    HeaderStays(c, w, q, id);
  }

  lemma EarlyPc(c: Config, w: World, q: World, id: nat)
    requires Early(w, q, id)
    ensures LoadedOk(c, w, q.calls[id].pc)
  {
  }

  lemma EarlyParts(w: World, q: World, id: nat)
    requires Early(w, q, id)
    ensures Moves(w, q, id) && q.index == w.index && q.latest == w.latest
    ensures q.floor == w.floor && q.heightHighwater == w.heightHighwater && id in q.calls
    ensures WasIndexed(w, id) == EntryWritten(q.calls[id]) && WasCounted(w, id) == Counted(q.calls[id])
    ensures !InCascade(w, id) && !q.calls[id].pc.Ready?
  {
  }

  lemma BeginInv(c: Config, w: World, id: nat, height: U64, block: seq<Byte>)
    requires c.codec.Valid() && Inv(c, w) && id !in w.calls && FileIndexLeft(c, w.dataHighwater)
    requires Admit(c, w.dataHighwater, height, block).Ok? && |c.codec.compress(block)| <= MAX_BLOCK_SIZE
    ensures Inv(c, DoBegin(w, Admit(c, w.dataHighwater, height, block).value, id, height, block))
  {
    var r := Admit(c, w.dataHighwater, height, block).value;
    var q := DoBegin(w, r, id, height, block);
    hide *;
    InvFacts(c, w);
    NewJob(c, w, r, height, block);
    BeginEffect(c, w, r, id, height, block);
    EarlyStep(c, w, q, id);
    NewSpace(c, w, q, id, r);
    InvIntro(c, q);
  }

  lemma NewJob(c: Config, w: World, r: Reservation, height: U64, block: seq<Byte>)
    requires c.codec.Valid() && FileIndexLeft(c, w.dataHighwater)
    requires Admit(c, w.dataHighwater, height, block) == Ok(r) && |c.codec.compress(block)| <= MAX_BLOCK_SIZE
    ensures Legal(c, Job(height, block, w.dataHighwater, r.offset, r.end))
  {
    AdmittedPlace(c, w.dataHighwater, height, block);
    assert block != [] && c.codec.compress(block) != [];
    hide InOneFile, Reserve, FileIndexLeft;
  }

  lemma BeginEffect(c: Config, w: World, r: Reservation, id: nat, height: U64, block: seq<Byte>)
    requires id !in w.calls
    ensures var q := DoBegin(w, r, id, height, block);
      && Early(w, q, id) && q.files == w.files && q.dataHighwater == r.end
      && q.calls[id] == Call(Job(height, block, w.dataHighwater, r.offset, r.end), Reserved)
  {
  }

  lemma NewCallOk(c: Config, w: World, q: World, id: nat)
    requires DataOk(c, w) && Moves(w, q, id) && q.files == w.files && q.calls[id].pc == Reserved && Legal(c, q.calls[id].job)
    ensures DataOk(c, q)
  {
    hide Legal, Holds, PayloadHeld;
  }

  lemma NewSpace(c: Config, w: World, q: World, id: nat, r: Reservation)
    requires SpaceOk(w) && DataOk(c, w) && PointerOk(w) && Early(w, q, id) && id !in w.calls
    requires q.files == w.files && q.dataHighwater == r.end && q.calls[id].pc == Reserved
    requires q.calls[id].job.start == w.dataHighwater && q.calls[id].job.end == r.end && Legal(c, q.calls[id].job)
    ensures SpaceOk(q) && DataOk(c, q) && PointerOk(q)
  {
    var j := q.calls[id].job;
    assert w.dataHighwater <= r.end;
    NewCallOk(c, w, q, id);
    hide CallOk, Legal, EntryWritten, Returned;
    forall a, b | AliveAt(q, a) && AliveAt(q, b) && a != b
      ensures ApartAt(q, a, b)
    {
      assert a != id ==> AliveAt(w, a);
      assert b != id ==> AliveAt(w, b);
    }
    forall i | AliveAt(q, i)
      ensures q.calls[i].job.end <= q.dataHighwater
      ensures !EntryWritten(q.calls[i]) && !Returned(q.calls[i]) ==> ClearOf(q.calls[i].job, q.index.header.nextWriteOffset)
    {
      assert i != id ==> AliveAt(w, i);
    }
  }

  /** A write inside one reservation leaves the data of every other call alone. */
  lemma OtherKept(c: Config, files: Files, k: Call, j: Job, at: nat, data: seq<Byte>)
    requires CallOk(c, files, k) && Legal(c, j) && Apart(k.job, j) && at + |data| <= Len(c, j)
    ensures CallOk(c, WriteInto(files, c.cap, j.offset, at, data), k)
  {
    hide WriteInto, Split, InOneFile, Serialize;
    var bytes := c.codec.Frame(k.job.height, k.job.block);
    if Framed(k) {
      WriteIntoFrame(files, c.cap, j.offset, Len(c, j), at, data, k.job.offset, bytes);
    }
    if k.pc.PayloadWritten? {
      PayloadKept(files, c.cap, k.job.offset, c.codec.compress(k.job.block), j.offset, Len(c, j), at, data);
    }
  }

  lemma PayloadKept(files: Files, cap: Option<Pos>, off: nat, payload: seq<Byte>, other: nat, len: nat, at: nat, data: seq<Byte>)
    requires PayloadHeld(files, cap, off, payload) && InOneFile(cap, off, HEADER_SIZE + |payload|)
    requires InOneFile(cap, other, len) && at + |data| <= len
    requires off + HEADER_SIZE + |payload| <= other || other + len <= off
    ensures PayloadHeld(WriteInto(files, cap, other, at, data), cap, off, payload)
  {
    hide *;
    DisjointPlaces(cap, off, HEADER_SIZE + |payload|, other, len);
    PayloadKeptAt(files, cap, off, payload, other, len, at, data);
  }

  lemma PayloadKeptAt(files: Files, cap: Option<Pos>, off: nat, payload: seq<Byte>, other: nat, len: nat, at: nat, data: seq<Byte>)
    requires PayloadHeld(files, cap, off, payload) && at + |data| <= len
    requires var p, q := Split(cap, off), Split(cap, other);
      p.file != q.file || p.local + (HEADER_SIZE + |payload|) <= q.local || q.local + len <= p.local
    ensures PayloadHeld(WriteInto(files, cap, other, at, data), cap, off, payload)
  {
    hide Split, WriteAt;
    var p, q := Split(cap, off), Split(cap, other);
    if p.file == q.file {
      WriteAtFrame(files[p.file], q.local + at, data, p.local + HEADER_SIZE, p.local + HEADER_SIZE + |payload|);
    }
  }

  /** A data-file step of call `id` inside its own space. */
  lemma TouchInv(c: Config, w: World, id: nat, at: nat, data: seq<Byte>, pc: Pc)
    requires Inv(c, w) && id in w.calls && !EntryWritten(w.calls[id]) && Alive(w.calls[id]) && !Returned(w.calls[id])
    requires at + |data| <= Len(c, w.calls[id].job)
    requires !EntryWritten(Call(w.calls[id].job, pc))
    requires CallOk(c, WriteInto(w.files, c.cap, w.calls[id].job.offset, at, data), Call(w.calls[id].job, pc))
    ensures Inv(c, Touch(c, w, id, at, data, pc))
  {
    var q := Touch(c, w, id, at, data, pc);
    hide *;
    InvFacts(c, w);
    TouchEffect(c, w, id, at, data, pc);
    EarlyStep(c, w, q, id);
    SpaceStays(w, q, id);
    PointerStays(w, q, id);
    OthersKept(c, w, q, id, at, data);
    InvIntro(c, q);
  }

  lemma TouchEffect(c: Config, w: World, id: nat, at: nat, data: seq<Byte>, pc: Pc)
    requires id in w.calls && !EntryWritten(w.calls[id]) && Alive(w.calls[id]) && !EntryWritten(Call(w.calls[id].job, pc))
    ensures var q := Touch(c, w, id, at, data, pc);
      && Early(w, q, id) && Moves(w, q, id) && AliveAt(w, id) && q.dataHighwater == w.dataHighwater && q.index == w.index
      && q.calls[id] == Call(w.calls[id].job, pc)
      && q.files == WriteInto(w.files, c.cap, w.calls[id].job.offset, at, data)
  {
    hide EntryWritten, Alive, WriteInto;
  }

  lemma OthersKept(c: Config, w: World, q: World, id: nat, at: nat, data: seq<Byte>)
    requires DataOk(c, w) && SpaceOk(w) && Moves(w, q, id) && AliveAt(w, id)
    requires at + |data| <= Len(c, w.calls[id].job)
    requires q.files == WriteInto(w.files, c.cap, w.calls[id].job.offset, at, data)
    requires CallOk(c, q.files, q.calls[id])
    ensures DataOk(c, q)
  {
    hide CallOk, WriteInto, Len;
    forall i | i in q.calls
      ensures CallOk(c, q.files, q.calls[i])
    {
      if i != id {
        assert CallOk(c, w.files, w.calls[i]) && CallOk(c, w.files, w.calls[id]);
        LegalJob(c, w.files, w.calls[id]);
        if AliveAt(w, i) {
          assert ApartAt(w, i, id);
          OtherKept(c, w.files, w.calls[i], w.calls[id].job, at, data);
        } else {
          GivenUp(c, w.files, q.files, w.calls[i]);
        }
      }
    }
  }

  lemma LegalJob(c: Config, files: Files, k: Call)
    requires CallOk(c, files, k)
    ensures Legal(c, k.job)
  {
  }

  lemma GivenUp(c: Config, before: Files, after: Files, k: Call)
    requires CallOk(c, before, k) && !Alive(k)
    ensures CallOk(c, after, k)
  {
  }

  lemma CallFacts(c: Config, w: World, id: nat)
    requires Inv(c, w) && id in w.calls
    ensures CallOk(c, w.files, w.calls[id]) && Legal(c, w.calls[id].job)
  {
    hide SpaceOk, IndexOk, FloorOk, MarksOk, HeaderOk, PointerOk, Legal, Framed, Holds, PayloadHeld;
  }

  lemma OpenInv(c: Config, w: World, id: nat)
    requires Inv(c, w) && id in w.calls && w.calls[id].pc.Reserved?
    ensures Inv(c, Touch(c, w, id, 0, [], FileOpen))
  {
    CallFacts(c, w, id);
    hide Inv, Legal, WriteInto, Touch;
    TouchInv(c, w, id, 0, [], FileOpen);
  }

  lemma PayloadInv(c: Config, w: World, id: nat)
    requires Inv(c, w) && id in w.calls && w.calls[id].pc.FileOpen?
    ensures Inv(c, Touch(c, w, id, HEADER_SIZE, c.codec.compress(w.calls[id].job.block), PayloadWritten))
  {
    var j := w.calls[id].job;
    CallFacts(c, w, id);
    PayloadLands(c, w.files, j);
    hide Inv, Legal, WriteInto, Touch, PayloadHeld;
    TouchInv(c, w, id, HEADER_SIZE, c.codec.compress(j.block), PayloadWritten);
  }

  lemma PayloadLands(c: Config, files: Files, j: Job)
    requires Legal(c, j)
    ensures PayloadHeld(WriteInto(files, c.cap, j.offset, HEADER_SIZE, c.codec.compress(j.block)),
                        c.cap, j.offset, c.codec.compress(j.block))
  {
    hide Split, InOneFile, WriteAt;
    var p := Split(c.cap, j.offset);
    WriteAtReads(FileAt(files, p.file), p.local + HEADER_SIZE, c.codec.compress(j.block));
  }

  lemma CommitInv(c: Config, w: World, id: nat)
    requires Inv(c, w) && id in w.calls && w.calls[id].pc.PayloadWritten? && Legal(c, w.calls[id].job)
    ensures Inv(c, Touch(c, w, id, 0, BlockHeaderOf(c, w.calls[id].job), HeaderWritten))
  {
    var j := w.calls[id].job;
    CallFacts(c, w, id);
    HeaderLands(c, w.files, j);
    HeaderFits(c, j);
    hide Inv, Legal, WriteInto, Touch, Holds, BlockHeaderOf;
    TouchInv(c, w, id, 0, BlockHeaderOf(c, j), HeaderWritten);
  }

  lemma HeaderFits(c: Config, j: Job)
    requires Legal(c, j)
    ensures |BlockHeaderOf(c, j)| == HEADER_SIZE <= Len(c, j)
  {
  }

  /** The header in front of the payload completes the frame. */
  lemma HeaderLands(c: Config, files: Files, j: Job)
    requires Legal(c, j) && PayloadHeld(files, c.cap, j.offset, c.codec.compress(j.block))
    ensures Holds(WriteInto(files, c.cap, j.offset, 0, BlockHeaderOf(c, j)), c.cap, j.offset,
                  c.codec.Frame(j.height, j.block))
  {
    hide Split, InOneFile, Serialize;
    var p := Split(c.cap, j.offset);
    HeaderInFront(files[p.file], p.local, BlockHeaderOf(c, j), c.codec.compress(j.block));
    hide WriteAt;
  }

  lemma HeaderInFront(f: seq<Byte>, at: nat, header: seq<Byte>, payload: seq<Byte>)
    requires |header| == HEADER_SIZE && at + HEADER_SIZE + |payload| <= |f|
    requires f[at + HEADER_SIZE..at + HEADER_SIZE + |payload|] == payload
    ensures var g := WriteAt(f, at, header);
      at + HEADER_SIZE + |payload| <= |g| && g[at..at + HEADER_SIZE + |payload|] == header + payload
  {
    WriteAtReads(f, at, header);
    WriteAtFrame(f, at, header, at + HEADER_SIZE, at + HEADER_SIZE + |payload|);
    hide WriteAt;
    var g := WriteAt(f, at, header);
    assert g[at..at + HEADER_SIZE + |payload|]
        == g[at..at + HEADER_SIZE] + g[at + HEADER_SIZE..at + HEADER_SIZE + |payload|];
  }

  /** A write that fails half-way. */
  lemma TornInv(c: Config, w: World, id: nat, at: nat, data: seq<Byte>)
    requires Inv(c, w) && id in w.calls && (w.calls[id].pc.FileOpen? || w.calls[id].pc.PayloadWritten?)
    requires at + |data| <= Len(c, w.calls[id].job)
    ensures Inv(c, Touch(c, w, id, at, data, Failing))
  {
    hide *;
    CallFacts(c, w, id);
    TornCall(c, WriteInto(w.files, c.cap, w.calls[id].job.offset, at, data), w.calls[id]);
    TouchInv(c, w, id, at, data, Failing);
  }

  lemma TornCall(c: Config, files: Files, k: Call)
    requires Legal(c, k.job) && (k.pc.FileOpen? || k.pc.PayloadWritten?)
    ensures CallOk(c, files, Call(k.job, Failing)) && !EntryWritten(Call(k.job, Failing))
    ensures !EntryWritten(k) && Alive(k) && !Returned(k)
  {
    hide Legal;
  }

  /** A step that touches no file and only moves an unpublished call. */
  lemma GotoInv(c: Config, w: World, id: nat, pc: Pc)
    requires Inv(c, w) && id in w.calls && !Returned(w.calls[id]) && !EntryWritten(w.calls[id])
    requires pc.Synced? || pc.Unindexed? ==> Framed(w.calls[id])
    requires pc.Synced? || pc.Unindexed? || pc.Failing?
    ensures Inv(c, Goto(w, id, pc))
  {
    var q := Goto(w, id, pc);
    hide *;
    InvFacts(c, w);
    GotoEffect(w, id, pc);
    EarlyStep(c, w, q, id);
    SpaceStays(w, q, id);
    PointerStays(w, q, id);
    DataStays(c, w, q, id);
    InvIntro(c, q);
  }

  lemma GotoEffect(w: World, id: nat, pc: Pc)
    requires id in w.calls && !Returned(w.calls[id]) && !EntryWritten(w.calls[id])
    requires pc.Synced? || pc.Unindexed? ==> Framed(w.calls[id])
    requires pc.Synced? || pc.Unindexed? || pc.Failing?
    ensures var q := Goto(w, id, pc);
      && Early(w, q, id) && Moves(w, q, id) && AliveAt(w, id) && q == w.(calls := q.calls)
      && !q.calls[id].pc.PayloadWritten? && (Framed(q.calls[id]) ==> Framed(w.calls[id]))
      && !Returned(w.calls[id]) && !EntryWritten(w.calls[id])
  {
  }

  lemma ReleaseInv(c: Config, w: World, id: nat)
    requires Inv(c, w) && id in w.calls && w.calls[id].pc.Failing?
    ensures Inv(c, Release(w, id))
  {
    var q := Release(w, id);
    hide *;
    InvFacts(c, w);
    CallFacts(c, w, id);
    ReleaseEffect(w, id);
    EarlyStep(c, w, q, id);
    ReleasedSpace(c, w, q, id);
    DataStays(c, w, q, id);
    InvIntro(c, q);
  }

  lemma ReleaseEffect(w: World, id: nat)
    requires id in w.calls && w.calls[id].pc.Failing?
    ensures var q, j := Release(w, id), w.calls[id].job;
      && Early(w, q, id) && Moves(w, q, id) && AliveAt(w, id) && q.files == w.files && q.index == w.index
      && q.calls[id].pc.Released? && !Framed(q.calls[id]) && !q.calls[id].pc.PayloadWritten?
      && !EntryWritten(w.calls[id]) && !Returned(w.calls[id])
      && q.dataHighwater == if w.dataHighwater == j.end then j.start else w.dataHighwater
  {
  }

  /** The rollback never reaches into space that another call still holds. */
  lemma ReleasedSpace(c: Config, w: World, q: World, id: nat)
    requires SpaceOk(w) && PointerOk(w) && Moves(w, q, id) && q.index == w.index
    requires AliveAt(w, id) && !EntryWritten(w.calls[id]) && !Returned(w.calls[id]) && q.calls[id].pc.Released?
    requires Legal(c, w.calls[id].job)
    requires q.dataHighwater == if w.dataHighwater == w.calls[id].job.end then w.calls[id].job.start else w.dataHighwater
    requires DataOk(c, w)
    ensures SpaceOk(q) && PointerOk(q)
  {
    var j := w.calls[id].job;
    assert j.start < j.end && ClearOf(j, w.index.header.nextWriteOffset);
    assert !AliveAt(q, id);
    hide Legal, EntryWritten, Returned, Holds, PayloadHeld, Framed;
    forall a, b | AliveAt(q, a) && AliveAt(q, b) && a != b
      ensures ApartAt(q, a, b)
    {
      assert AliveAt(w, a) && AliveAt(w, b);
      assert ApartAt(w, a, b);
    }
    forall i | AliveAt(q, i)
      ensures q.calls[i].job.end <= q.dataHighwater
      ensures !EntryWritten(q.calls[i]) && !Returned(q.calls[i]) ==> ClearOf(q.calls[i].job, q.index.header.nextWriteOffset)
    {
      assert AliveAt(w, i) && i != id;
      assert ApartAt(w, i, id);
      assert CallOk(c, w.files, w.calls[i]);
      LegalRange(c, w.calls[i].job);
    }
  }

  lemma LegalRange(c: Config, j: Job)
    requires Legal(c, j)
    ensures j.start < j.end
  {
  }

  // ---------------------------------------------------------------- the index entry

  lemma PublishInv(c: Config, w: World, id: nat)
    requires Inv(c, w) && id in w.calls && w.calls[id].pc.Synced?
    ensures Inv(c, Publish(c, w, id))
  {
    var q := Publish(c, w, id);
    hide *;
    InvFacts(c, w);
    CallFacts(c, w, id);
    PublishEffect(c, w, id);
    SpaceStays(w, q, id);
    DataStays(c, w, q, id);
    PointerStays(w, q, id);
    MarksStay(c, w, q, id);
    PublishedIndex(c, w, id);
    PublishedFloor(c, w, q, id);
    PublishedHeader(c, w, q, id);
    InvIntro(c, q);
  }

  lemma PublishEffect(c: Config, w: World, id: nat)
    requires id in w.calls && w.calls[id].pc.Synced?
    ensures var q := Publish(c, w, id);
      && Moves(w, q, id) && AliveAt(w, id) && q.calls[id] == Call(w.calls[id].job, Published)
      && q.files == w.files && q.dataHighwater == w.dataHighwater && q.floor == w.floor
      && q.heightHighwater == w.heightHighwater && q.index.header == w.index.header
      && q.latest == w.latest[w.calls[id].job.height := id]
      && !q.calls[id].pc.PayloadWritten? && Framed(w.calls[id]) && !EntryWritten(w.calls[id]) && !Returned(w.calls[id])
      && WasCounted(w, id) == Counted(q.calls[id]) && !InCascade(w, id)
  {
  }

  lemma PublishedIndex(c: Config, w: World, id: nat)
    requires IndexOk(c, w) && id in w.calls && w.calls[id].pc.Synced? && Legal(c, w.calls[id].job)
    ensures IndexOk(c, Publish(c, w, id))
  {
    LegalSlot(c, w.calls[id].job);
    PublishedLatest(c, w, id);
    PublishedSlots(c, w, id);
    hide EntryAt, IndexedAt, Legal, EntryOf, Slot;
  }

  lemma LegalSlot(c: Config, j: Job)
    requires Legal(c, j)
    ensures c.minHeight <= j.height && Slot(c, j.height) == j.height - c.minHeight
  {
    hide InOneFile;
  }

  lemma PublishedLatest(c: Config, w: World, id: nat)
    requires IndexOk(c, w) && id in w.calls && w.calls[id].pc.Synced? && c.minHeight <= w.calls[id].job.height
    ensures var q := Publish(c, w, id);
      && (forall h :: h in q.latest ==> c.minHeight <= h && IndexedAt(q, q.latest[h], h))
      && (forall i :: i in q.calls && EntryWritten(q.calls[i]) ==> q.calls[i].job.height in q.latest)
  {
    var q, j := Publish(c, w, id), w.calls[id].job;
    assert EntryWritten(q.calls[id]) && !EntryWritten(w.calls[id]);
    hide EntryWritten, EntryOf, Put, EntryAt;
    forall h | h in q.latest
      ensures c.minHeight <= h && IndexedAt(q, q.latest[h], h)
    {
      if h != j.height {
        assert IndexedAt(w, w.latest[h], h);
      }
    }
  }

  lemma PublishedSlots(c: Config, w: World, id: nat)
    requires IndexOk(c, w) && id in w.calls && Slot(c, w.calls[id].job.height) == w.calls[id].job.height - c.minHeight
    ensures var q := Publish(c, w, id);
      forall k: nat :: Get(q.index.slots, k) == EntryAt(c, q, c.minHeight + k)
  {
    var q, j := Publish(c, w, id), w.calls[id].job;
    hide EntryWritten, EntryOf;
    forall k: nat
      ensures Get(q.index.slots, k) == EntryAt(c, q, c.minHeight + k)
    {
      var h := c.minHeight + k;
      assert Get(w.index.slots, k) == EntryAt(c, w, h);
      if h != j.height && h in w.latest {
        assert IndexedAt(w, w.latest[h], h);
      }
    }
  }

  lemma PublishedFloor(c: Config, w: World, q: World, id: nat)
    requires FloorOk(c, w) && Moves(w, q, id) && q.floor == w.floor && !InCascade(w, id)
    requires id in w.calls && q.calls[id] == Call(w.calls[id].job, Published)
    requires q.latest == w.latest[w.calls[id].job.height := id]
    ensures FloorOk(c, q)
  {
    if q.floor + 1 in q.latest {
      if w.calls[id].job.height == q.floor + 1 {
        assert Responsible(q.calls[id], q.floor);
      } else {
        var i :| i in w.calls && Responsible(w.calls[i], w.floor);
        assert i in q.calls && Responsible(q.calls[i], q.floor);
      }
    }
  }

  lemma PublishedHeader(c: Config, w: World, q: World, id: nat)
    requires HeaderOk(c, w) && Moves(w, q, id) && q.index.header == w.index.header
    requires q.latest == w.latest[q.calls[id].job.height := id] && q.calls[id].pc.Published?
    ensures HeaderOk(c, q)
  {
    forall i | i in q.calls
      ensures LoadedOk(c, q, q.calls[i].pc)
    {
      assert i != id ==> LoadedOk(c, w, w.calls[i].pc);
    }
  }

  // ---------------------------------------------------------------- steps after the index entry

  /** A step of an indexed call that leaves data and entries alone. */
  predicate Late(w: World, q: World, id: nat) {
    && Moves(w, q, id) && WasIndexed(w, id) && EntryWritten(q.calls[id])
    && q.files == w.files && q.dataHighwater == w.dataHighwater && q.latest == w.latest
    && q.index.slots == w.index.slots && q.index.header.minHeight == w.index.header.minHeight
  }

  lemma LateStep(c: Config, w: World, q: World, id: nat)
    requires SpaceOk(w) && DataOk(c, w) && IndexOk(c, w) && Late(w, q, id)
    ensures SpaceOk(q) && DataOk(c, q) && IndexOk(c, q)
  {
    LateParts(w, q, id);
    hide *;
    SpaceStays(w, q, id);
    DataStays(c, w, q, id);
    IndexStays(c, w, q, id);
  }

  lemma LateParts(w: World, q: World, id: nat)
    requires Late(w, q, id)
    ensures Moves(w, q, id) && AliveAt(w, id) && id in w.calls && id in q.calls
    ensures q.files == w.files && q.dataHighwater == w.dataHighwater && q.latest == w.latest
    ensures q.index.slots == w.index.slots && q.index.header.minHeight == w.index.header.minHeight
    ensures !q.calls[id].pc.PayloadWritten? && Framed(w.calls[id])
    ensures WasIndexed(w, id) == EntryWritten(q.calls[id]) && EntryWritten(w.calls[id]) && EntryWritten(q.calls[id])
  {
  }

  /** A step of the cascade: only the floor can change. */
  lemma CascadeInv(c: Config, w: World, q: World, id: nat)
    requires Inv(c, w) && Late(w, q, id) && q.index == w.index && q.heightHighwater == w.heightHighwater
    requires !Counted(w.calls[id]) && !Counted(q.calls[id]) && FloorOk(c, q)
    ensures Inv(c, q)
  {
    CascadePc(c, w, q, id);
    hide *;
    InvFacts(c, w);
    LateParts(w, q, id);
    LateStep(c, w, q, id);
    PointerStays(w, q, id);
    MarksStay(c, w, q, id);
    HeaderStays(c, w, q, id);
    InvIntro(c, q);
  }

  lemma CascadePc(c: Config, w: World, q: World, id: nat)
    requires Late(w, q, id) && !Counted(w.calls[id]) && !Counted(q.calls[id])
    ensures LoadedOk(c, w, q.calls[id].pc) && WasCounted(w, id) == Counted(q.calls[id])
    ensures !Returned(w.calls[id])
  {
  }

  lemma FirstExchangeInv(c: Config, w: World, id: nat)
    requires Inv(c, w) && c.minHeight >= 1 && id in w.calls && w.calls[id].pc.Published?
    ensures Inv(c, FirstExchange(w, id))
  {
    var q := FirstExchange(w, id);
    CallFacts(c, w, id);
    hide *;
    InvFacts(c, w);
    FirstExchangeFloor(c, w, id);
    FirstExchangeEffect(w, id);
    CascadeInv(c, w, q, id);
  }

  lemma FirstExchangeEffect(w: World, id: nat)
    requires id in w.calls && w.calls[id].pc.Published?
    ensures var q := FirstExchange(w, id);
      && Late(w, q, id) && q.index == w.index && q.heightHighwater == w.heightHighwater
      && !Counted(w.calls[id]) && !Counted(q.calls[id])
  {
  }

  lemma FirstExchangeFloor(c: Config, w: World, id: nat)
    requires FloorOk(c, w) && IndexOk(c, w) && c.minHeight >= 1 && id in w.calls && w.calls[id].pc.Published?
    ensures FloorOk(c, FirstExchange(w, id))
  {
    hide *;
    PublishedHeight(c, w, id);
    FirstExchangeCases(c, w, id);
  }

  lemma FirstExchangeCases(c: Config, w: World, id: nat)
    requires FloorOk(c, w) && id in w.calls && w.calls[id].pc.Published?
    requires w.calls[id].job.height in w.latest && w.calls[id].job.height >= 1
    ensures FloorOk(c, FirstExchange(w, id))
  {
    var q := FirstExchange(w, id);
    if q.floor != w.floor {
      assert Responsible(q.calls[id], q.floor);
    } else if w.floor + 1 in w.latest {
      OtherIsResponsible(w, q, id);
    }
  }

  lemma PublishedHeight(c: Config, w: World, id: nat)
    requires IndexOk(c, w) && c.minHeight >= 1 && id in w.calls && w.calls[id].pc.Published?
    ensures w.calls[id].job.height in w.latest && w.calls[id].job.height >= 1
  {
    hide EntryAt, IndexedAt, Get;
    assert EntryWritten(w.calls[id]);
  }

  lemma OtherIsResponsible(w: World, q: World, id: nat)
    requires Moves(w, q, id) && q.floor == w.floor && id in w.calls && !Responsible(w.calls[id], w.floor)
    requires exists i :: i in w.calls && Responsible(w.calls[i], w.floor)
    ensures exists i :: i in q.calls && Responsible(q.calls[i], q.floor)
  {
    hide Responsible;
    var i :| i in w.calls && Responsible(w.calls[i], w.floor);
    assert i in q.calls && Responsible(q.calls[i], q.floor);
  }

  lemma LookInv(c: Config, w: World, id: nat)
    requires Inv(c, w) && id in w.calls && w.calls[id].pc.Cascading?
    ensures Inv(c, Look(c, w, id, w.calls[id].pc.cur))
  {
    var q := Look(c, w, id, w.calls[id].pc.cur);
    hide *;
    InvFacts(c, w);
    EntryTells(c, w, w.calls[id].pc.cur + 1);
    LookFloor(c, w, id);
    LookEffect(c, w, id);
    CascadeInv(c, w, q, id);
  }

  lemma LookEffect(c: Config, w: World, id: nat)
    requires id in w.calls && w.calls[id].pc.Cascading?
    ensures var q := Look(c, w, id, w.calls[id].pc.cur);
      && Late(w, q, id) && q.index == w.index && q.heightHighwater == w.heightHighwater
      && !Counted(w.calls[id]) && !Counted(q.calls[id])
  {
    hide PopulatedAt, Addressable;
  }

  /** An entry is non-zero exactly when some call indexed its height. */
  lemma EntryTells(c: Config, w: World, height: nat)
    requires IndexOk(c, w) && DataOk(c, w)
    ensures PopulatedAt(w.index, height) <==> height in w.latest
    ensures height in w.latest ==> Addressable(c.minHeight, height)
  {
    hide EntryWritten, Framed, Holds, PayloadHeld, InOneFile;
    if c.minHeight <= height {
      assert Get(w.index.slots, height - c.minHeight) == EntryAt(c, w, c.minHeight + (height - c.minHeight));
    }
    if height in w.latest {
      assert IndexedAt(w, w.latest[height], height);
      assert CallOk(c, w.files, w.calls[w.latest[height]]);
    }
  }

  lemma LookFloor(c: Config, w: World, id: nat)
    requires FloorOk(c, w) && id in w.calls && w.calls[id].pc.Cascading?
    requires var h := w.calls[id].pc.cur + 1;
      (PopulatedAt(w.index, h) <==> h in w.latest) && (h in w.latest ==> Addressable(c.minHeight, h))
    ensures FloorOk(c, Look(c, w, id, w.calls[id].pc.cur))
  {
    var q, cur := Look(c, w, id, w.calls[id].pc.cur), w.calls[id].pc.cur;
    hide PopulatedAt, Addressable;
    if w.floor + 1 in w.latest {
      if w.floor == cur {
        assert Responsible(q.calls[id], q.floor);
      } else {
        OtherIsResponsible(w, q, id);
      }
    }
  }

  lemma ExchangeInv(c: Config, w: World, id: nat)
    requires Inv(c, w) && id in w.calls && w.calls[id].pc.Ready?
    ensures Inv(c, Exchange(w, id, w.calls[id].pc.cur))
  {
    var q := Exchange(w, id, w.calls[id].pc.cur);
    hide *;
    InvFacts(c, w);
    ExchangeFloor(c, w, id);
    ExchangeEffect(w, id);
    CascadeInv(c, w, q, id);
  }

  lemma ExchangeEffect(w: World, id: nat)
    requires id in w.calls && w.calls[id].pc.Ready?
    ensures var q := Exchange(w, id, w.calls[id].pc.cur);
      && Late(w, q, id) && q.index == w.index && q.heightHighwater == w.heightHighwater
      && !Counted(w.calls[id]) && !Counted(q.calls[id])
  {
  }

  lemma ExchangeFloor(c: Config, w: World, id: nat)
    requires FloorOk(c, w) && id in w.calls && w.calls[id].pc.Ready?
    ensures FloorOk(c, Exchange(w, id, w.calls[id].pc.cur))
  {
    var q := Exchange(w, id, w.calls[id].pc.cur);
    if q.floor != w.floor {
      assert Responsible(q.calls[id], q.floor);
    } else if w.floor + 1 in w.latest {
      OtherIsResponsible(w, q, id);
    }
  }

  // ---------------------------------------------------------------- highwater and checkpoint

  /** A step of a call behind the cascade. */
  lemma BehindInv(c: Config, w: World, q: World, id: nat)
    requires Inv(c, w) && Late(w, q, id) && q.floor == w.floor && q.index.header == w.index.header
    requires !InCascade(w, id) && Counted(q.calls[id]) && !w.calls[id].pc.Finished?
    requires MarksOk(c, q) && LoadedOk(c, w, q.calls[id].pc)
    ensures Inv(c, q)
  {
    BehindPc(w, q, id);
    hide *;
    InvFacts(c, w);
    LateParts(w, q, id);
    LateStep(c, w, q, id);
    PointerStays(w, q, id);
    FloorStays(c, w, q, id);
    HeaderStays(c, w, q, id);
    InvIntro(c, q);
  }

  lemma BehindPc(w: World, q: World, id: nat)
    requires Late(w, q, id) && Counted(q.calls[id]) && !w.calls[id].pc.Finished?
    ensures !q.calls[id].pc.Ready? && !Returned(w.calls[id])
  {
  }

  lemma RaiseInv(c: Config, w: World, id: nat)
    requires Inv(c, w) && id in w.calls && w.calls[id].pc.Floored?
    ensures Inv(c, Raise(w, id))
  {
    var q := Raise(w, id);
    hide *;
    InvFacts(c, w);
    RaiseEffect(c, w, id);
    RaisedMarks(c, w, id);
    BehindInv(c, w, q, id);
  }

  lemma RaiseEffect(c: Config, w: World, id: nat)
    requires id in w.calls && w.calls[id].pc.Floored?
    ensures var q := Raise(w, id);
      && Late(w, q, id) && q.floor == w.floor && q.index.header == w.index.header && !InCascade(w, id)
      && Counted(q.calls[id]) && !w.calls[id].pc.Finished? && LoadedOk(c, w, q.calls[id].pc)
  {
  }

  lemma RaisedMarks(c: Config, w: World, id: nat)
    requires MarksOk(c, w) && id in w.calls && w.calls[id].pc.Floored?
    ensures MarksOk(c, Raise(w, id))
  {
    var q, h := Raise(w, id), w.calls[id].job.height;
    assert Counted(q.calls[id]) && !Counted(w.calls[id]);
    hide Counted;
    if w.heightHighwater < h {
      assert MarkedBy(q, h);
    } else if MarkedBy(w, w.heightHighwater) {
      var i :| i in w.calls && Counted(w.calls[i]) && w.calls[i].job.height == w.heightHighwater;
      assert i in q.calls && Counted(q.calls[i]) && q.calls[i].job.height == q.heightHighwater;
    }
  }

  /** Loads, decisions and returns: only the call itself changes. */
  lemma LocalInv(c: Config, w: World, q: World, id: nat)
    requires Inv(c, w) && id in w.calls && Counted(w.calls[id]) && !w.calls[id].pc.Finished?
    requires Moves(w, q, id) && Counted(q.calls[id]) && LoadedOk(c, w, q.calls[id].pc)
    requires q == w.(calls := q.calls, lastCheckpoint := q.lastCheckpoint)
    ensures Inv(c, q)
  {
    LocalParts(w, q, id);
    hide *;
    InvFacts(c, w);
    MarksStay(c, w, q, id);
    BehindInv(c, w, q, id);
  }

  lemma LocalParts(w: World, q: World, id: nat)
    requires id in w.calls && Counted(w.calls[id]) && Moves(w, q, id) && Counted(q.calls[id])
    requires q == w.(calls := q.calls, lastCheckpoint := q.lastCheckpoint)
    ensures Late(w, q, id) && !InCascade(w, id) && WasCounted(w, id) == Counted(q.calls[id])
  {
  }

  lemma GoOnInv(c: Config, w: World, id: nat, pc: Pc, last: nat)
    requires Inv(c, w) && id in w.calls && Counted(w.calls[id]) && !w.calls[id].pc.Finished?
    requires Counted(Call(w.calls[id].job, pc)) && LoadedOk(c, w, pc)
    ensures Inv(c, Goto(w, id, pc).(lastCheckpoint := last))
  {
    hide *;
    GoOnEffect(w, id, pc, last);
    LocalInv(c, w, Goto(w, id, pc).(lastCheckpoint := last), id);
  }

  lemma GoOnEffect(w: World, id: nat, pc: Pc, last: nat)
    requires id in w.calls
    ensures var q := Goto(w, id, pc).(lastCheckpoint := last);
      Moves(w, q, id) && q == w.(calls := q.calls, lastCheckpoint := last) && q.calls[id] == Call(w.calls[id].job, pc)
  {
  }

  lemma CountedPc(c: Config, w: World, k: Call, pc: Pc)
    requires pc.Saving? || pc.IndexSynced? || pc.HaveHighwater? || pc.HaveFloor? || pc.HeaderSaved? || pc.Finished?
    ensures Counted(Call(k.job, pc))
    ensures !pc.HaveHighwater? && !pc.HaveFloor? ==> LoadedOk(c, w, pc)
  {
  }

  lemma BehindCascade(k: Call)
    requires k.pc.Raised? || k.pc.Saving? || k.pc.IndexSynced? || k.pc.HaveHighwater? || k.pc.HaveFloor? || k.pc.HeaderSaved?
    ensures Counted(k)
  {
  }

  lemma DecideInv(c: Config, w: World, id: nat)
    requires Inv(c, w) && id in w.calls && w.calls[id].pc.Raised?
    ensures Inv(c, Decide(w, id, w.calls[id].pc.rose))
  {
    hide *;
    BehindCascade(w.calls[id]);
    CountedPc(c, w, w.calls[id], Saving);
    CountedPc(c, w, w.calls[id], Finished);
    GoOnInv(c, w, id, Saving, w.lastCheckpoint);
    GoOnInv(c, w, id, Finished, w.lastCheckpoint);
    DecideEffect(w, id, w.calls[id].pc.rose);
  }

  lemma DecideEffect(w: World, id: nat, rose: bool)
    requires id in w.calls
    ensures Decide(w, id, rose) == Goto(w, id, Saving).(lastCheckpoint := w.lastCheckpoint)
         || Decide(w, id, rose) == Goto(w, id, Finished).(lastCheckpoint := w.lastCheckpoint)
  {
    hide CheckpointDue;
  }

  lemma GotoSameLast(w: World, id: nat, pc: Pc)
    requires id in w.calls
    ensures Goto(w, id, pc).(lastCheckpoint := w.lastCheckpoint) == Goto(w, id, pc)
  {
  }

  lemma SyncIndexInv(c: Config, w: World, id: nat)
    requires Inv(c, w) && id in w.calls && w.calls[id].pc.Saving?
    ensures Inv(c, Goto(w, id, IndexSynced))
  {
    hide *;
    BehindCascade(w.calls[id]);
    CountedPc(c, w, w.calls[id], IndexSynced);
    GoOnInv(c, w, id, IndexSynced, w.lastCheckpoint);
    GotoSameLast(w, id, IndexSynced);
  }

  lemma LoadHighwaterInv(c: Config, w: World, id: nat)
    requires Inv(c, w) && id in w.calls && w.calls[id].pc.IndexSynced?
    ensures Inv(c, Goto(w, id, HaveHighwater(w.heightHighwater)))
  {
    var pc := HaveHighwater(w.heightHighwater);
    hide *;
    InvFacts(c, w);
    MarkIsIndexed(c, w);
    MarkLoaded(c, w);
    BehindCascade(w.calls[id]);
    CountedPc(c, w, w.calls[id], pc);
    GoOnInv(c, w, id, pc, w.lastCheckpoint);
    GotoSameLast(w, id, pc);
  }

  lemma MarkLoaded(c: Config, w: World)
    requires w.heightHighwater + 1 == c.minHeight || w.heightHighwater in w.latest
    ensures LoadedOk(c, w, HaveHighwater(w.heightHighwater))
  {
  }

  lemma MarkIsIndexed(c: Config, w: World)
    requires MarksOk(c, w) && IndexOk(c, w)
    ensures w.heightHighwater + 1 == c.minHeight || w.heightHighwater in w.latest
  {
    hide EntryAt, IndexedAt;
  }

  lemma LoadFloorInv(c: Config, w: World, id: nat)
    requires Inv(c, w) && id in w.calls && w.calls[id].pc.HaveHighwater?
    ensures Inv(c, Goto(w, id, HaveFloor(w.calls[id].pc.mark, w.floor)))
  {
    var pc := HaveFloor(w.calls[id].pc.mark, w.floor);
    hide *;
    InvFacts(c, w);
    FloorLoaded(c, w, id);
    BehindCascade(w.calls[id]);
    CountedPc(c, w, w.calls[id], pc);
    GoOnInv(c, w, id, pc, w.lastCheckpoint);
    GotoSameLast(w, id, pc);
  }

  lemma FloorLoaded(c: Config, w: World, id: nat)
    requires HeaderOk(c, w) && FloorOk(c, w) && id in w.calls && w.calls[id].pc.HaveHighwater?
    ensures LoadedOk(c, w, HaveFloor(w.calls[id].pc.mark, w.floor))
  {
    hide Claims, Responsible;
    assert LoadedOk(c, w, w.calls[id].pc);
  }

  lemma ReturnInv(c: Config, w: World, id: nat, last: nat)
    requires Inv(c, w) && id in w.calls
    requires w.calls[id].pc.Saving? || w.calls[id].pc.HaveFloor? || w.calls[id].pc.HeaderSaved?
    ensures Inv(c, Goto(w, id, Finished).(lastCheckpoint := last))
  {
    hide *;
    BehindCascade(w.calls[id]);
    CountedPc(c, w, w.calls[id], Finished);
    GoOnInv(c, w, id, Finished, last);
  }

  lemma SaveHeaderInv(c: Config, w: World, id: nat)
    requires Inv(c, w) && id in w.calls && w.calls[id].pc.HaveFloor?
    ensures Inv(c, SaveHeader(w, id, w.calls[id].pc.mark, w.calls[id].pc.floor))
  {
    var q := SaveHeader(w, id, w.calls[id].pc.mark, w.calls[id].pc.floor);
    hide *;
    InvFacts(c, w);
    CallFacts(c, w, id);
    SaveHeaderEffect(w, id);
    LateParts(w, q, id);
    LateStep(c, w, q, id);
    MarksStay(c, w, q, id);
    FloorStays(c, w, q, id);
    SavedHeader(c, w, id);
    SavedPointer(c, w, q, id);
    InvIntro(c, q);
  }

  lemma SaveHeaderEffect(w: World, id: nat)
    requires id in w.calls && w.calls[id].pc.HaveFloor?
    ensures var q := SaveHeader(w, id, w.calls[id].pc.mark, w.calls[id].pc.floor);
      && Late(w, q, id) && q.floor == w.floor && q.heightHighwater == w.heightHighwater
      && !InCascade(w, id) && !q.calls[id].pc.Ready? && WasCounted(w, id) == Counted(q.calls[id])
      && q.index.header.nextWriteOffset == w.calls[id].job.end
  {
  }

  lemma SavedHeader(c: Config, w: World, id: nat)
    requires HeaderOk(c, w) && id in w.calls && w.calls[id].pc.HaveFloor?
    ensures HeaderOk(c, SaveHeader(w, id, w.calls[id].pc.mark, w.calls[id].pc.floor))
  {
    var q := SaveHeader(w, id, w.calls[id].pc.mark, w.calls[id].pc.floor);
    assert LoadedOk(c, w, w.calls[id].pc);
    forall i | i in q.calls
      ensures LoadedOk(c, q, q.calls[i].pc)
    {
      assert i != id ==> LoadedOk(c, w, w.calls[i].pc);
    }
  }

  /** The saved offset is the end of an indexed block, so no rollback passes it. */
  lemma SavedPointer(c: Config, w: World, q: World, id: nat)
    requires SpaceOk(w) && DataOk(c, w) && Late(w, q, id) && q.index.header.nextWriteOffset == w.calls[id].job.end
    ensures PointerOk(q)
  {
    LateParts(w, q, id);
    hide EntryWritten, Returned, Framed, Holds, PayloadHeld, Legal;
    assert CallOk(c, w.files, w.calls[id]);
    LegalRange(c, w.calls[id].job);
    forall i | AliveAt(q, i) && !EntryWritten(q.calls[i]) && !Returned(q.calls[i])
      ensures ClearOf(q.calls[i].job, q.index.header.nextWriteOffset)
    {
      assert i != id && AliveAt(w, i) && ApartAt(w, i, id);
    }
  }

  lemma CloseInv(c: Config, w: World)
    requires Inv(c, w) && AllReturned(w)
    ensures Inv(c, DoClose(w))
  {
    var q := DoClose(w);
    hide *;
    InvFacts(c, w);
    CloseEffect(w);
    MarkIsIndexed(c, w);
    ClosedData(c, w, q);
    ClosedIndex(c, w, q);
    ClosedHeader(c, w);
    ClosedPointer(w);
    InvIntro(c, q);
  }

  lemma CloseEffect(w: World)
    ensures var q := DoClose(w);
      && q.calls == w.calls && q.files == w.files && q.dataHighwater == w.dataHighwater && q.floor == w.floor
      && q.heightHighwater == w.heightHighwater && q.latest == w.latest && q.index.slots == w.index.slots
      && q.index.header.minHeight == w.index.header.minHeight
  {
  }

  lemma ClosedData(c: Config, w: World, q: World)
    requires SpaceOk(w) && DataOk(c, w) && FloorOk(c, w) && MarksOk(c, w)
    requires q.calls == w.calls && q.files == w.files && q.dataHighwater == w.dataHighwater && q.floor == w.floor
    requires q.heightHighwater == w.heightHighwater && q.latest == w.latest
    ensures SpaceOk(q) && DataOk(c, q) && FloorOk(c, q) && MarksOk(c, q)
  {
    hide CallOk, Alive, Apart, Responsible, Counted;
    forall i, j | AliveAt(q, i) && AliveAt(q, j) && i != j
      ensures ApartAt(q, i, j)
    {
      assert AliveAt(w, i) && AliveAt(w, j) && ApartAt(w, i, j);
    }
    forall i | AliveAt(q, i)
      ensures q.calls[i].job.end <= q.dataHighwater
    {
      assert AliveAt(w, i);
    }
    assert MarkedBy(w, w.heightHighwater) ==> MarkedBy(q, q.heightHighwater);
  }

  lemma ClosedIndex(c: Config, w: World, q: World)
    requires IndexOk(c, w) && q.calls == w.calls && q.latest == w.latest && q.index.slots == w.index.slots
    requires q.index.header.minHeight == w.index.header.minHeight
    ensures IndexOk(c, q)
  {
    hide EntryWritten, EntryOf;
    forall h | h in q.latest
      ensures c.minHeight <= h && IndexedAt(q, q.latest[h], h)
    {
      assert IndexedAt(w, w.latest[h], h);
    }
    forall k: nat
      ensures Get(q.index.slots, k) == EntryAt(c, q, c.minHeight + k)
    {
      assert Get(w.index.slots, k) == EntryAt(c, w, c.minHeight + k);
    }
  }

  lemma ClosedHeader(c: Config, w: World)
    requires HeaderOk(c, w) && FloorOk(c, w)
    requires w.heightHighwater + 1 == c.minHeight || w.heightHighwater in w.latest
    ensures HeaderOk(c, DoClose(w))
  {
    var q := DoClose(w);
    hide Responsible;
    assert Claims(c, q, w.floor);
    forall i | i in q.calls
      ensures LoadedOk(c, q, q.calls[i].pc)
    {
      assert LoadedOk(c, w, w.calls[i].pc);
    }
  }

  lemma ClosedPointer(w: World)
    requires PointerOk(w) && AllReturned(w)
    ensures PointerOk(DoClose(w))
  {
    hide Returned, EntryWritten, ClearOf;
  }

  // ---------------------------------------------------------------- runs

  lemma StartInv(c: Config, h: Header)
    requires NewHeader(c, h) && c.minHeight >= 1
    ensures Inv(c, Start(h))
  {
  }

  lemma AdvanceInv(c: Config, w: World, id: nat)
    requires Inv(c, w) && c.minHeight >= 1 && id in w.calls && Legal(c, w.calls[id].job) && !Returned(w.calls[id])
    ensures Inv(c, DoAdvance(c, w, id))
  {
    hide Inv, Legal, Touch, Goto, Publish, FirstExchange, Look, Exchange, Raise, Decide, SaveHeader, Release, BlockHeaderOf;
    match w.calls[id].pc
    case Reserved => OpenInv(c, w, id);
    case FileOpen => PayloadInv(c, w, id);
    case PayloadWritten => CommitInv(c, w, id);
    case HeaderWritten => GotoInv(c, w, id, Synced);
    case Synced => PublishInv(c, w, id);
    case Published => FirstExchangeInv(c, w, id);
    case Cascading(cur) => LookInv(c, w, id);
    case Ready(cur) => ExchangeInv(c, w, id);
    case Floored => RaiseInv(c, w, id);
    case Raised(rose) => DecideInv(c, w, id);
    case Saving => SyncIndexInv(c, w, id);
    case IndexSynced => LoadHighwaterInv(c, w, id);
    case HaveHighwater(mark) => LoadFloorInv(c, w, id);
    case HaveFloor(mark, floor) => SaveHeaderInv(c, w, id);
    case HeaderSaved => ReturnInv(c, w, id, w.calls[id].job.end);
    case Failing => ReleaseInv(c, w, id);
    case _ =>
  }

  lemma PendingFits(c: Config, k: Call, torn: nat)
    requires Legal(c, k.job) && torn <= |Pending(c, k)|
    ensures k.pc.FileOpen? ==> HEADER_SIZE + torn <= Len(c, k.job)
    ensures k.pc.PayloadWritten? ==> torn <= Len(c, k.job)
  {
    HeaderFits(c, k.job);
  }

  lemma FailStages(k: Call)
    requires CanFail(k)
    ensures !Returned(k)
    ensures k.pc.Synced? ==> Framed(k)
    ensures !k.pc.Saving? && !k.pc.HaveFloor? ==> !EntryWritten(k)
    ensures k.pc.Reserved? || k.pc.FileOpen? || k.pc.PayloadWritten? || k.pc.HeaderWritten? || k.pc.Synced?
         || k.pc.Saving? || k.pc.HaveFloor?
  {
  }

  lemma FailIs(c: Config, w: World, id: nat, torn: nat)
    requires id in w.calls && Legal(c, w.calls[id].job) && torn <= |Pending(c, w.calls[id])|
    ensures var k, q := w.calls[id], DoFail(c, w, id, torn);
      && (k.pc.FileOpen? ==> q == Touch(c, w, id, HEADER_SIZE, Pending(c, k)[..torn], Failing))
      && (k.pc.PayloadWritten? ==> q == Touch(c, w, id, 0, Pending(c, k)[..torn], Failing))
      && (k.pc.Synced? ==> q == Goto(w, id, Unindexed))
      && (k.pc.Saving? || k.pc.HaveFloor? ==> q == Goto(w, id, Finished))
      && (k.pc.Reserved? || k.pc.HeaderWritten? ==> q == Goto(w, id, Failing))
  {
    hide Legal, Touch, Goto, Pending;
  }

  lemma FailInv(c: Config, w: World, id: nat, torn: nat)
    requires Inv(c, w) && id in w.calls && Legal(c, w.calls[id].job) && CanFail(w.calls[id])
    requires torn <= |Pending(c, w.calls[id])|
    ensures Inv(c, DoFail(c, w, id, torn))
  {
    hide *;
    PendingFits(c, w.calls[id], torn);
    FailStages(w.calls[id]);
    FailIs(c, w, id, torn);
    match w.calls[id].pc
    case FileOpen => TornInv(c, w, id, HEADER_SIZE, Pending(c, w.calls[id])[..torn]);
    case PayloadWritten => TornInv(c, w, id, 0, Pending(c, w.calls[id])[..torn]);
    case Synced => GotoInv(c, w, id, Unindexed);
    case Saving =>
      ReturnInv(c, w, id, w.lastCheckpoint);
      GotoSameLast(w, id, Finished);
    case HaveFloor(_, _) =>
      ReturnInv(c, w, id, w.lastCheckpoint);
      GotoSameLast(w, id, Finished);
    case Reserved => GotoInv(c, w, id, Failing);
    case HeaderWritten => GotoInv(c, w, id, Failing);
    case _ =>
  }

  lemma StepInv(c: Config, w: World, a: Action)
    requires c.codec.Valid() && c.minHeight >= 1 && Inv(c, w) && Enabled(c, w, a)
    ensures Inv(c, Do(c, w, a))
  {
    hide Inv, DoBegin, DoAdvance, DoFail, DoClose, Admit, FileIndexLeft, Legal, CanFail, Returned, AllReturned, Pending;
    match a
    case Begin(id, height, block) => BeginInv(c, w, id, height, block);
    case Advance(id) => AdvanceInv(c, w, id);
    case Abort(id, torn) => FailInv(c, w, id, torn);
    case Close => CloseInv(c, w);
  }

  lemma {:induction false} RunsInv(c: Config, w: World, actions: seq<Action>)
    requires c.codec.Valid() && c.minHeight >= 1 && Inv(c, w) && Runs(c, w, actions)
    ensures Inv(c, Final(c, w, actions))
    decreases |actions|
  {
    hide Inv, Enabled, Do;
    if actions == [] {
    } else {
      StepInv(c, w, actions[0]);
      RunsInv(c, Do(c, w, actions[0]), actions[1..]);
    }
  }

  lemma RunsNone(c: Config, w: World)
    ensures Runs(c, w, []) && Final(c, w, []) == w
  {
  }

  lemma RunsThen(c: Config, w: World, a: Action, rest: seq<Action>)
    requires Enabled(c, w, a) && Runs(c, Do(c, w, a), rest)
    ensures Runs(c, w, [a] + rest)
    ensures Final(c, w, [a] + rest) == Final(c, Do(c, w, a), rest)
  {
    hide Enabled, Do;
    assert ([a] + rest)[1..] == rest;
  }

  lemma RunsOne(c: Config, w: World, a: Action)
    requires Enabled(c, w, a)
    ensures Runs(c, w, [a]) && Final(c, w, [a]) == Do(c, w, a)
  {
    hide Enabled, Do;
    RunsNone(c, Do(c, w, a));
    RunsThen(c, w, a, []);
    assert [a] + [] == [a];
  }

  lemma {:induction false} RunsJoin(c: Config, w: World, s: seq<Action>, t: seq<Action>)
    requires Runs(c, w, s) && Runs(c, Final(c, w, s), t)
    ensures Runs(c, w, s + t) && Final(c, w, s + t) == Final(c, Final(c, w, s), t)
    decreases |s|
  {
    hide Enabled, Do;
    if s == [] {
      assert s + t == t;
    } else {
      assert (s + t)[1..] == s[1..] + t;
      RunsJoin(c, Do(c, w, s[0]), s[1..], t);
    }
  }

  /** A state that some interleaving of some calls on a new store leads to. */
  ghost predicate Reachable(c: Config, w: World) {
    exists h: Header, actions: seq<Action> ::
      NewHeader(c, h) && Runs(c, Start(h), actions) && w == Final(c, Start(h), actions)
  }

  lemma ReachableInv(c: Config, w: World)
    requires c.codec.Valid() && c.minHeight >= 1 && Reachable(c, w)
    ensures Inv(c, w)
  {
    hide Inv, Runs, Final, NewHeader;
    var h: Header, actions: seq<Action> :|
      NewHeader(c, h) && Runs(c, Start(h), actions) && w == Final(c, Start(h), actions);
    StartInv(c, h);
    RunsInv(c, Start(h), actions);
  }

  lemma ReachableStart(c: Config, h: Header)
    requires NewHeader(c, h)
    ensures Reachable(c, Start(h))
  {
    RunsNone(c, Start(h));
    hide Runs, Final;
  }

  lemma ReachableOn(c: Config, w: World, actions: seq<Action>)
    requires Reachable(c, w) && Runs(c, w, actions)
    ensures Reachable(c, Final(c, w, actions))
  {
    hide Runs, Final, NewHeader;
    var h: Header, before: seq<Action> :|
      NewHeader(c, h) && Runs(c, Start(h), before) && w == Final(c, Start(h), before);
    RunsJoin(c, Start(h), before, actions);
  }

  lemma ReachableStep(c: Config, w: World, a: Action)
    requires Reachable(c, w) && Enabled(c, w, a)
    ensures Reachable(c, Do(c, w, a))
  {
    hide *;
    RunsOne(c, w, a);
    ReachableOn(c, w, [a]);
  }

  /** The highwater that a header claims belongs to an addressable height, or to none. */
  lemma HeaderMark(c: Config, q: World)
    requires IndexOk(c, q) && DataOk(c, q) && HeaderOk(c, q) && c.minHeight >= 1
    ensures q.index.header.minHeight == c.minHeight
    ensures q.index.header.maxHeight < c.minHeight || Addressable(c.minHeight, q.index.header.maxHeight)
  {
    EntryTells(c, q, q.index.header.maxHeight);
    hide LoadedOk, Claims, CallOk, EntryAt, IndexedAt, PopulatedAt, Addressable;
  }
}
