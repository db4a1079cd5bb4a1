/** Facts about the state of an open store that its methods rely on: published
    entries survive later writes, and the contiguity floor survives new entries. */
module StoreState {
  import opened Bytes
  import opened Results
  import opened BlockFormat
  import opened FileSet
  import opened IndexFile
  import opened FloorScan
  import opened BlockIo

  /** The error that `write_block` reports before it touches anything, or the space
      it reserves. The panic on an oversized compressed block is an error here. */
  function Admit(c: Config, dataHighwater: nat, height: nat, block: seq<Byte>): Result<Reservation> {
    if block == [] then Err(EmptyBlock)
    else if |block| >= U32_LIMIT then Err(BlockTooLarge)
    else if |c.codec.compress(block)| >= U32_LIMIT then Err(Panicked)
    else if !Addressable(c.minHeight, height) then Err(InvalidHeight)
    else Reserve(c.cap, dataHighwater, |c.codec.compress(block)| + HEADER_SIZE)
  }

  /** The allocator can still tell the current data file from the last addressable one. */
  predicate FileIndexLeft(c: Config, dataHighwater: nat) {
    c.cap.Some? ==> dataHighwater / c.cap.value < U32_LIMIT
  }

  /** A block that `write_block` accepts behind `dataHighwater` bytes of data. */
  predicate Admissible(c: Config, dataHighwater: nat, height: nat, block: seq<Byte>) {
    && 0 < |block| < 0x1_0000_0000 && |c.codec.compress(block)| < 0x1_0000_0000
    && c.minHeight <= height && 64 + 16 * (height - c.minHeight) < 0x1_0000_0000_0000_0000
    && HasRoom(c.cap, dataHighwater, 22 + |c.codec.compress(block)|)
  }

  /** It gets its space exactly then; otherwise the first test that fails names the error. */
  lemma AdmitIff(c: Config, dataHighwater: nat, height: nat, block: seq<Byte>)
    ensures var a, len := Admit(c, dataHighwater, height, block), 22 + |c.codec.compress(block)|;
      && (a.Ok? <==> Admissible(c, dataHighwater, height, block))
      && (a.Ok? ==> var at := RoomAt(c.cap, dataHighwater, len); a.value == Reservation(at, at + len))
      && (block == [] ==> a == Err(EmptyBlock))
      && (|block| >= 0x1_0000_0000 ==> a == Err(BlockTooLarge))
      && (0 < |block| < 0x1_0000_0000 && |c.codec.compress(block)| >= 0x1_0000_0000 ==> a == Err(Panicked))
      && (0 < |block| < 0x1_0000_0000 && |c.codec.compress(block)| < 0x1_0000_0000
          && !(c.minHeight <= height && 64 + 16 * (height - c.minHeight) < 0x1_0000_0000_0000_0000)
          ==> a == Err(InvalidHeight))
  {
    ReserveIff(c.cap, dataHighwater, |c.codec.compress(block)| + HEADER_SIZE);
    hide HasRoom, RoomAt, Reserve;
  }

  lemma AdmittedPlace(c: Config, dataHighwater: nat, height: nat, block: seq<Byte>)
    requires FileIndexLeft(c, dataHighwater) && Admit(c, dataHighwater, height, block).Ok?
    ensures var r := Admit(c, dataHighwater, height, block).value;
      var len := HEADER_SIZE + |c.codec.compress(block)|;
      && dataHighwater <= r.offset && r.end == r.offset + len < U64_LIMIT
      && InOneFile(c.cap, r.offset, len)
  {
    ReserveFits(c.cap, dataHighwater, |c.codec.compress(block)| + HEADER_SIZE);
  }

  // ---------------------------------------------------------------- published entries

  /** The bytes an entry spans exist, lie in one file, and lie below the allocator. */
  ghost predicate Backed(c: Config, files: Files, e: Entry, limit: nat) {
    var p := Split(c.cap, e.offset);
    && e.offset + HEADER_SIZE + e.size <= limit
    && InOneFile(c.cap, e.offset, HEADER_SIZE + e.size)
    && p.file in files
    && p.local + HEADER_SIZE + e.size <= |files[p.file]|
  }

  ghost predicate AllBacked(c: Config, files: Files, slots: seq<Entry>, limit: nat) {
    forall k :: 0 <= k < |slots| && slots[k].size > 0 ==> Backed(c, files, slots[k], limit)
  }

  lemma BackedSurvives(c: Config, files: Files, e: Entry, limit: nat, off: nat, len: nat, at: nat, data: seq<Byte>)
    requires Backed(c, files, e, limit) && limit <= off && InOneFile(c.cap, off, len)
    requires at + |data| <= len
    ensures var after := WriteInto(files, c.cap, off, at, data);
      && Backed(c, after, e, limit)
      && ReadEntry(c, after, e) == ReadEntry(c, files, e)
  {
    var after := WriteInto(files, c.cap, off, at, data);
    var p, q := Split(c.cap, e.offset), Split(c.cap, off);
    DisjointPlaces(c.cap, e.offset, HEADER_SIZE + e.size, off, len);
    if p.file == q.file {
      WriteAtFrame(files[p.file], q.local + at, data, p.local, p.local + HEADER_SIZE + e.size);
    }
    hide Split, InOneFile;
    ReadDependsOnRange(c, files, after, e);
  }

  /** Reserved space can be written without any published block noticing. */
  lemma AllBackedSurvives(c: Config, files: Files, slots: seq<Entry>, limit: nat,
                          off: nat, len: nat, at: nat, data: seq<Byte>)
    requires AllBacked(c, files, slots, limit) && limit <= off && InOneFile(c.cap, off, len)
    requires at + |data| <= len
    ensures var after := WriteInto(files, c.cap, off, at, data);
      && AllBacked(c, after, slots, limit)
      && forall h :: ReadBlock(c, after, slots, h) == ReadBlock(c, files, slots, h)
  {
    hide Backed, InOneFile, ReadEntry, WriteInto;
    var after := WriteInto(files, c.cap, off, at, data);
    forall k | 0 <= k < |slots| && slots[k].size > 0
      ensures Backed(c, after, slots[k], limit)
    {
      BackedSurvives(c, files, slots[k], limit, off, len, at, data);
    }
    forall h
      ensures ReadBlock(c, after, slots, h) == ReadBlock(c, files, slots, h)
    {
      var e := Get(slots, Slot(c, h));
      if e.size > 0 {
        BackedSurvives(c, files, e, limit, off, len, at, data);
      } else {
        ReadOfNothing(c, files, e);
        ReadOfNothing(c, after, e);
      }
    }
  }

  lemma ReadOfNothing(c: Config, files: Files, e: Entry)
    requires e.size == 0
    ensures ReadEntry(c, files, e) == Ok(None)
  {
  }

  lemma AllBackedGrows(c: Config, files: Files, slots: seq<Entry>, limit: nat, more: nat)
    requires AllBacked(c, files, slots, limit) && limit <= more
    ensures AllBacked(c, files, slots, more)
  {
  }

  /** After the payload and the header are written, the whole frame is on disk. */
  lemma FrameLands(c: Config, files: Files, off: nat, height: U64, block: seq<Byte>)
    requires c.codec.Valid() && block != [] && |c.codec.compress(block)| < U32_LIMIT
    ensures var half := WriteInto(files, c.cap, off, HEADER_SIZE, c.codec.compress(block));
      Holds(WriteInto(half, c.cap, off, 0, Serialize(c.codec.HeaderFor(height, block))),
            c.cap, off, c.codec.Frame(height, block))
  {
    assert c.codec.compress(block) != [];
    hide Split, Serialize;
    var p := Split(c.cap, off);
    FrameBytes(FileAt(files, p.file), p.local, Serialize(c.codec.HeaderFor(height, block)), c.codec.compress(block));
  }

  /** Bytes behind the end of a file count as zero. */
  function ByteAt(f: seq<Byte>, i: nat): Byte {
    if i < |f| then f[i] else 0
  }

  /** The header is written last: if a byte of its place at `at` has changed, then the
      whole payload is there. */
  ghost predicate PayloadFirst(before: seq<Byte>, after: seq<Byte>, at: nat, payload: seq<Byte>) {
    payload != [] && (exists i :: at <= i < at + 22 && ByteAt(after, i) != ByteAt(before, i)) ==>
      at + 22 + |payload| <= |after| && after[at + 22..at + 22 + |payload|] == payload
  }

  lemma NothingTouched(f: seq<Byte>, at: nat, payload: seq<Byte>)
    ensures PayloadFirst(f, f, at, payload)
  {
  }

  lemma HeaderUntouched(f: seq<Byte>, at: nat, data: seq<Byte>, payload: seq<Byte>)
    ensures PayloadFirst(f, WriteAt(f, at + HEADER_SIZE, data), at, payload)
  {
    var after := WriteAt(f, at + HEADER_SIZE, data);
    assert forall i :: 0 <= i < at + 22 ==> ByteAt(after, i) == ByteAt(f, i);
  }

  lemma PayloadStays(f: seq<Byte>, at: nat, payload: seq<Byte>, header: seq<Byte>)
    requires |header| <= HEADER_SIZE
    ensures PayloadFirst(f, WriteAt(WriteAt(f, at + HEADER_SIZE, payload), at, header), at, payload)
  {
    var half := WriteAt(f, at + HEADER_SIZE, payload);
    if payload != [] {
      WriteAtReads(f, at + HEADER_SIZE, payload);
      WriteAtFrame(half, at, header, at + HEADER_SIZE, at + HEADER_SIZE + |payload|);
    }
  }

  lemma FrameBytes(f: seq<Byte>, at: nat, header: seq<Byte>, payload: seq<Byte>)
    requires |header| == HEADER_SIZE && payload != []
    ensures var full := WriteAt(WriteAt(f, at + HEADER_SIZE, payload), at, header);
      && at + HEADER_SIZE + |payload| <= |full|
      && full[at..at + HEADER_SIZE + |payload|] == header + payload
  {
    var half := WriteAt(f, at + HEADER_SIZE, payload);
    WriteAtReads(f, at + HEADER_SIZE, payload);
    WriteAtReads(half, at, header);
    WriteAtFrame(half, at, header, at + HEADER_SIZE, at + HEADER_SIZE + |payload|);
    hide WriteAt;
    var full := WriteAt(half, at, header);
    assert full[at..at + HEADER_SIZE + |payload|]
        == full[at..at + HEADER_SIZE] + full[at + HEADER_SIZE..at + HEADER_SIZE + |payload|];
  }

  /** Publishing a block that is on disk changes exactly its own height. */
  lemma PublishChangesOne(c: Config, files: Files, slots: seq<Entry>, limit: nat, height: U64, off: nat, block: seq<Byte>)
    requires c.codec.Valid() && block != [] && |c.codec.compress(block)| < U32_LIMIT
    requires Addressable(c.minHeight, height)
    requires AllBacked(c, files, slots, limit)
    requires Holds(files, c.cap, off, c.codec.Frame(height, block))
    requires InOneFile(c.cap, off, HEADER_SIZE + |c.codec.compress(block)|)
    requires off + HEADER_SIZE + |c.codec.compress(block)| <= limit
    ensures var size := |c.codec.compress(block)|;
      var after := Put(slots, Slot(c, height), Entry(off, size, 0));
      && AllBacked(c, files, after, limit)
      && (forall h :: Addressable(c.minHeight, h) ==>
            ReadBlock(c, files, after, h)
            == if h != height then ReadBlock(c, files, slots, h)
               else if size <= MAX_BLOCK_SIZE then Ok(Some(block)) else Err(Corrupt))
  {
    var size := |c.codec.compress(block)|;
    var e := Entry(off, size, 0);
    var after := Put(slots, Slot(c, height), e);
    ReadHeldFrame(c, files, off, height, block);
    assert Backed(c, files, e, limit);
    hide Backed, ReadEntry, Holds, InOneFile;
    forall k | 0 <= k < |after| && after[k].size > 0
      ensures Backed(c, files, after[k], limit)
    {
      assert after[k] == Get(after, k);
      if k != Slot(c, height) {
        assert after[k] == Get(slots, k);
      }
    }
  }

  // ---------------------------------------------------------------- the floor

  /** `advance_max_contiguous_height` without concurrency. */
  function AdvancedFloor(ix: Index, floor: nat, height: nat): nat {
    if floor == (if height == 0 then 0 else height - 1)
    then FloorFrom(ix, height, ix.header.minHeight + |ix.slots|)
    else floor
  }

  ghost predicate FloorSound(ix: Index, floor: nat) {
    && ix.header.minHeight <= floor + 1
    && forall h :: ix.header.minHeight <= h <= floor ==> PopulatedAt(ix, h)
  }

  /** No entry ever disappears, so the floor stays sound; and the incremental
      cascade finds the first gap again whenever the floor was exact before. */
  lemma FloorSurvivesWrite(ix: Index, height: nat, e: Entry, floor: nat)
    requires ix.header.minHeight >= 1 && ix.header.minHeight <= height && e.Populated()
    requires FloorSound(ix, floor)
    ensures var after := ix.(slots := Put(ix.slots, height - ix.header.minHeight, e));
      var raised := AdvancedFloor(after, floor, height);
      && FloorSound(after, raised) && floor <= raised
      && (!PopulatedAt(ix, floor + 1) ==> !PopulatedAt(after, raised + 1))
  {
    var after := ix.(slots := Put(ix.slots, height - ix.header.minHeight, e));
    var bound := ix.header.minHeight + |after.slots|;
    FloorFromSpec(after, height, bound);
    assert forall h :: PopulatedAt(ix, h) ==> PopulatedAt(after, h);
    assert PopulatedAt(after, height);
    assert forall h :: h != height ==> PopulatedAt(after, h) == PopulatedAt(ix, h);
    hide FloorFrom;
    hide Put;
    var raised := AdvancedFloor(after, floor, height);
    assert raised + 1 >= bound ==> !PopulatedAt(after, raised + 1);
  }

  // ---------------------------------------------------------------- a whole write

  /** Everything an open store remembers. */
  datatype State = State(files: Files, index: Index, dataHighwater: nat,
                         heightHighwater: nat, floor: nat, lastCheckpoint: nat)

  /** The header a checkpoint writes. */
  function CheckpointHeader(h: Header, next: nat, highwater: nat, floor: nat): Header {
    h.(nextWriteOffset := next, maxHeight := highwater, contiguous := floor)
  }

  function Checkpointed(s: State): State {
    s.(index := s.index.(header := CheckpointHeader(s.index.header, s.dataHighwater, s.heightHighwater, s.floor)),
       lastCheckpoint := s.dataHighwater)
  }

  /** Either trigger: the tip rose to a multiple of the interval, or enough bytes were written. */
  predicate CheckpointDue(tipRose: bool, height: nat, saved: nat, lastCheckpoint: nat) {
    (tipRose && height % CHECKPOINT_INTERVAL == 0) || saved >= lastCheckpoint + CHECKPOINT_BYTES
  }

  /** In numbers: a multiple of 1024, or 64 MiB. */
  lemma CheckpointDueIff(tipRose: bool, height: nat, saved: nat, lastCheckpoint: nat)
    ensures CheckpointDue(tipRose, height, saved, lastCheckpoint) <==>
      (tipRose && height % 1024 == 0) || saved >= lastCheckpoint + 67_108_864
  {
  }

  /** The state with the block indexed, the floor advanced and the highwater raised. */
  function Indexed(c: Config, s: State, r: Reservation, height: U64, block: seq<Byte>): State
    requires |c.codec.compress(block)| < U32_LIMIT
  {
    var index := s.index.(slots := Put(s.index.slots, Slot(c, height), Entry(r.offset, |c.codec.compress(block)|, 0)));
    State(PlaceFrame(c, s.files, r.offset, height, block), index, r.end,
          Max(s.heightHighwater, height), AdvancedFloor(index, s.floor, height), s.lastCheckpoint)
  }

  /** A write during which no system call fails. */
  function Write(c: Config, s: State, height: U64, block: seq<Byte>): Result<State> {
    var r :- Admit(c, s.dataHighwater, height, block);
    var next := Indexed(c, s, r, height, block);
    Ok(if CheckpointDue(s.heightHighwater < height, height, r.end, s.lastCheckpoint) then Checkpointed(next) else next)
  }
}
