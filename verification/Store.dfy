/** The store object: its fields, its operations with their error paths, and the
    invariant they keep. Each operation is proved against the functions of the
    other modules. */
module Store {
  import opened Bytes
  import opened Results
  import opened BlockFormat
  import opened FileSet
  import opened IndexFile
  import opened FloorScan
  import opened ScanWindow
  import opened BlockIo
  import opened Scan
  import opened Log
  import opened History
  import opened StoreState
  import Reopen

  /** Which system call of one operation fails, and how many bytes a failing data
      write still leaves on disk. */
  datatype Fault =
    | NoFault
    | OpenFails                          // the data file cannot be opened
    | PayloadWriteFails(landed: nat)
    | HeaderWriteFails(landed: nat)
    | DataSyncFails
    | IndexWriteFails
    | IndexSyncFails
    | CheckpointWriteFails

  /** The data of a block does not reach its file whole and, in sync mode, synced. */
  predicate DataFails(fault: Fault, syncMode: bool) {
    fault.OpenFails? || fault.PayloadWriteFails? || fault.HeaderWriteFails? || (syncMode && fault.DataSyncFails?)
  }

  lemma NothingFails(syncMode: bool)
    ensures !DataFails(NoFault, syncMode) && !CheckpointFails(NoFault, syncMode)
  {
  }

  predicate CheckpointFails(fault: Fault, syncMode: bool) {
    fault.CheckpointWriteFails? || (syncMode && fault.IndexSyncFails?)
  }

  /** Two headers that agree on everything but the checkpointed fields. */
  predicate SameStore(a: Header, b: Header) {
    && a.version == b.version && a.maxDataFileSize == b.maxDataFileSize
    && a.minHeight == b.minHeight && a.reserved == b.reserved
  }

  ghost predicate EntriesFit(slots: seq<Entry>) {
    forall e :: e in slots ==> e.Fits()
  }

  class Store {
    const c: Config
    const syncMode: bool
    var files: Files
    var index: Index             // the index file
    var header: Header           // the in-memory copy of its header
    var dataHighwater: nat
    var maxContiguous: nat
    var heightHighwater: nat
    var lastCheckpoint: nat
    var recovered: bool

    /** The stored header and the in-memory state fit together. */
    ghost predicate Attached()
      reads this
    {
      && c.codec.Valid() && c.minHeight >= 1
      && Matches(c, header) && SameStore(header, index.header)
      && dataHighwater < U64_LIMIT
      && lastCheckpoint == index.header.nextWriteOffset <= dataHighwater
      && 16 * |index.slots| + INDEX_HEADER_SIZE <= U64_LIMIT
      && c.minHeight + |index.slots| <= U64_LIMIT
    }

    /** What every operation of an open store keeps. */
    ghost predicate Valid()
      reads this
    {
      && Attached()
      && AllBacked(c, files, index.slots, dataHighwater)
      && FloorSound(index, maxContiguous)
    }

    ghost function Snapshot(): State
      reads this
    {
      State(files, index, dataHighwater, heightHighwater, maxContiguous, lastCheckpoint)
    }

    /** `open` with `truncate`: an empty store. */
    constructor Create(codec: Codec, minimumHeight: U64, maxDataFileSize: Option<Pos>, syncMode: bool)
      requires codec.Valid() && minimumHeight >= 1
      requires maxDataFileSize.Some? ==> maxDataFileSize.value < U64_LIMIT
      ensures Valid() && recovered
      ensures c.codec == codec && c.minHeight == minimumHeight
      ensures c.cap == if maxDataFileSize == Some(0xFFFF_FFFF_FFFF_FFFF) then None else maxDataFileSize
      ensures this.syncMode == syncMode && lastCheckpoint == 0
      ensures files == map[] && index.slots == [] && dataHighwater == 0
      ensures maxContiguous == minimumHeight - 1 && heightHighwater == minimumHeight - 1
      ensures index.header == header
      ensures header == Header(1, if maxDataFileSize.Some? then maxDataFileSize.value else 0xFFFF_FFFF_FFFF_FFFF,
                               minimumHeight, 0, 0, 0, (0, 0))
    {
      var cap := if maxDataFileSize.Some? then maxDataFileSize.value else U64_LIMIT - 1;
      var h := Header(1, cap, minimumHeight, 0, 0, 0, (0, 0));
      c := Config(codec, EffectiveCap(cap), minimumHeight);
      this.syncMode := syncMode;
      files := map[];
      index := Index(h, []);
      header := h;
      dataHighwater := 0;
      maxContiguous := minimumHeight - 1;
      heightHighwater := minimumHeight - 1;
      lastCheckpoint := 0;
      recovered := true;
    }

    /** `open` without `truncate`, up to the call of `recover`. */
    constructor Attach(codec: Codec, files: Files, index: Index, minimumHeight: U64, syncMode: bool)
      requires codec.Valid() && index.header.minHeight >= 1 && index.header.nextWriteOffset < U64_LIMIT
      requires 16 * |index.slots| + INDEX_HEADER_SIZE <= U64_LIMIT
      requires index.header.minHeight + |index.slots| <= U64_LIMIT
      ensures Attached() && !recovered
      ensures this.files == files && this.index == index && header == index.header
      ensures dataHighwater == lastCheckpoint == index.header.nextWriteOffset && this.syncMode == syncMode
      ensures maxContiguous == heightHighwater == if minimumHeight == 0 then 0 else minimumHeight - 1
      ensures c.codec == codec && c.minHeight == index.header.minHeight
      ensures var stored := index.header.maxDataFileSize;
        && (c.cap == None <==> stored == 0 || stored == 0xFFFF_FFFF_FFFF_FFFF)
        && (c.cap.Some? ==> c.cap.value == stored)
    {
      c := Config(codec, EffectiveCap(index.header.maxDataFileSize), index.header.minHeight);
      this.syncMode := syncMode;
      this.files := files;
      this.index := index;
      header := index.header;
      dataHighwater := index.header.nextWriteOffset;
      maxContiguous := if minimumHeight == 0 then 0 else minimumHeight - 1;
      heightHighwater := if minimumHeight == 0 then 0 else minimumHeight - 1;
      lastCheckpoint := index.header.nextWriteOffset;
      recovered := false;
    }

    // -------------------------------------------------------------- space

    method ReserveSpace(size: nat) returns (r: Result<Reservation>, previous: nat)
      modifies this`dataHighwater
      ensures r == Reserve(c.cap, old(dataHighwater), size) && previous == old(dataHighwater)
      ensures r.Ok? <==> HasRoom(c.cap, previous, size)
      ensures r.Ok? ==> r.value.offset == RoomAt(c.cap, previous, size)
      ensures dataHighwater == if r.Ok? then RoomAt(c.cap, previous, size) + size else previous
    {
      ReserveIff(c.cap, dataHighwater, size);
      hide HasRoom, RoomAt, Reserve;
      previous := dataHighwater;
      r := Reserve(c.cap, dataHighwater, size);
      if r.Ok? {
        dataHighwater := r.value.end;
      }
    }

    /** Rolls back only while this reservation is the last one. */
    method ReleaseReservation(previous: nat, reservedEnd: nat)
      modifies this`dataHighwater
      ensures dataHighwater == if old(dataHighwater) == reservedEnd then previous else old(dataHighwater)
    {
      if dataHighwater == reservedEnd {
        dataHighwater := previous;
      }
    }

    /** The data file is opened, which creates it; then payload first, header second, and
        the sync; a failing write lands a prefix. */
    method WriteData(off: nat, blockHeader: BlockHeader, payload: seq<Byte>, fault: Fault) returns (ok: bool)
      modifies this`files
      ensures ok <==> !DataFails(fault, syncMode)
      ensures files == DataLeft(c, old(files), off, blockHeader, payload, fault)
    {
      if fault.OpenFails? {
        return false;
      }
      if fault.PayloadWriteFails? {
        files := WriteInto(files, c.cap, off, HEADER_SIZE, payload[..Landed(fault.landed, |payload|)]);
        return false;
      }
      files := WriteInto(files, c.cap, off, HEADER_SIZE, payload);
      if fault.HeaderWriteFails? {
        files := WriteInto(files, c.cap, off, 0, Serialize(blockHeader)[..Landed(fault.landed, HEADER_SIZE)]);
        return false;
      }
      files := WriteInto(files, c.cap, off, 0, Serialize(blockHeader));
      ok := !(syncMode && fault.DataSyncFails?);
    }

    // -------------------------------------------------------------- floor and highwater

    /** The cascade of compare-exchange steps, run by a single thread. */
    method AdvanceMaxContiguousHeight(height: U64)
      requires Attached() && c.minHeight <= height
      requires PopulatedAt(index, height)
      modifies this`maxContiguous
      ensures maxContiguous == AdvancedFloor(index, old(maxContiguous), height)
    {
      ghost var bound := index.header.minHeight + |index.slots|;
      var prev := if height == 0 then 0 else height - 1;
      if maxContiguous != prev {
        return;
      }
      maxContiguous := height;
      while true
        invariant c.minHeight <= height <= maxContiguous == prev + 1 < bound
        invariant FloorFrom(index, maxContiguous, bound) == FloorFrom(index, height, bound)
        decreases bound - prev
      {
        prev := prev + 1;
        var next := (prev + 1) % U64_LIMIT;
        if !Addressable(c.minHeight, next) {
          break;
        }
        var entry := Lookup(index, next);
        if entry.offset == 0 && entry.size == 0 {
          break;
        }
        if maxContiguous != prev {
          break;
        }
        maxContiguous := next;
      }
    }

    method UpdateHighwater(height: nat) returns (rose: bool)
      modifies this`heightHighwater
      ensures rose <==> old(heightHighwater) < height
      ensures heightHighwater == Max(old(heightHighwater), height)
    {
      rose := heightHighwater < height;
      if rose {
        heightHighwater := height;
      }
    }

    // -------------------------------------------------------------- checkpoints

    method Checkpoint(savedOffset: nat, fault: Fault) returns (r: Result<()>)
      requires Attached() && savedOffset <= dataHighwater
      modifies this`index, this`lastCheckpoint
      ensures Attached()
      ensures savedOffset == 0 && heightHighwater >= c.minHeight ==> r == Err(RefusedCheckpoint)
      ensures savedOffset > 0 || heightHighwater < c.minHeight ==>
        (r.Err? <==> CheckpointFails(fault, syncMode))
      ensures r.Err? && savedOffset > 0 ==> r.error == Io
      ensures r.Ok? ==>
        && index == old(index).(header := CheckpointHeader(header, savedOffset, heightHighwater, maxContiguous))
        && lastCheckpoint == savedOffset
      ensures r.Err? ==> index == old(index) && lastCheckpoint == old(lastCheckpoint)
    {
      if savedOffset == 0 && heightHighwater >= header.minHeight {
        return Err(RefusedCheckpoint);
      }
      if syncMode && fault.IndexSyncFails? {
        return Err(Io);
      }
      if fault.CheckpointWriteFails? {
        return Err(Io);
      }
      index := index.(header := CheckpointHeader(header, savedOffset, heightHighwater, maxContiguous));
      lastCheckpoint := savedOffset;
      r := Ok(());
    }

    /** `Drop`: a last checkpoint, unless the store never finished recovering. */
    method Close(fault: Fault)
      requires Attached()
      modifies this`index, this`lastCheckpoint
      ensures Attached()
      ensures var refused := dataHighwater == 0 && heightHighwater >= c.minHeight;
        index == if !recovered || refused || CheckpointFails(fault, syncMode) then old(index)
                 else old(index).(header := CheckpointHeader(header, dataHighwater, heightHighwater, maxContiguous))
    {
      if !recovered {
        return;
      }
      var _ := Checkpoint(dataHighwater, fault);
    }

    // -------------------------------------------------------------- write_block

    /** Inserts a block. `published` tells whether the index entry was written; that is
        always so on success, and also when only the checkpoint behind it failed.
        A published write changes what is read at its own height and nothing else;
        any other outcome changes no read, floor or highwater, and gives the space
        back unless the index write itself failed. After every success the data that
        a recovery scan would have to walk is less than 64 MiB, and no data file has
        grown beyond the cap, whatever failed. */
    method WriteBlock(height: U64, block: seq<Byte>, fault: Fault)
      returns (r: Result<()>, ghost published: bool)
      requires Valid() && FileIndexLeft(c, dataHighwater)
      modifies this
      ensures Valid()
      ensures var admitted := Admit(c, old(dataHighwater), height, block);
        && (admitted.Err? ==> r == Err(admitted.error) && !published
                              && files == old(files) && dataHighwater == old(dataHighwater))
        && (admitted.Ok? && r.Err? ==> r.error == Io)
        && (published ==> admitted.Ok? && dataHighwater == admitted.value.end)
      ensures published <==> Admissible(c, old(dataHighwater), height, block) && !DataFails(fault, syncMode) && !fault.IndexWriteFails?
      ensures var due := (old(heightHighwater) < height && height % 1024 == 0)
                         || dataHighwater >= old(lastCheckpoint) + 67_108_864;
        && (r.Ok? <==> published && !(due && CheckpointFails(fault, syncMode)))
        && (index.header != old(index.header) <==> r.Ok? && due)
        && (r.Ok? && due ==>
              index.header == header.(nextWriteOffset := dataHighwater, maxHeight := heightHighwater, contiguous := maxContiguous))
      ensures var admitted := Admit(c, old(dataHighwater), height, block);
        admitted.Ok? ==>
          && |c.codec.compress(block)| < U32_LIMIT
          && files == DataLeft(c, old(files), admitted.value.offset, c.codec.HeaderFor(height, block),
                               c.codec.compress(block), fault)
      ensures forall h :: Addressable(c.minHeight, h) ==>
        ReadBlock(c, files, index.slots, h)
        == if !published || h != height then old(ReadBlock(c, files, index.slots, h))
           else if |c.codec.compress(block)| <= MAX_BLOCK_SIZE then Ok(Some(block)) else Err(Corrupt)
      ensures !published ==>
        && index == old(index) && lastCheckpoint == old(lastCheckpoint)
        && maxContiguous == old(maxContiguous) && heightHighwater == old(heightHighwater)
        && (dataHighwater == old(dataHighwater) || fault.IndexWriteFails?)
      ensures published ==>
        var off := Admit(c, old(dataHighwater), height, block).value.offset;
        && index.slots == Put(old(index.slots), Slot(c, height), Entry(off, |c.codec.compress(block)|, 0))
        && files == PlaceFrame(c, old(files), off, height, block)
        && maxContiguous == AdvancedFloor(index, old(maxContiguous), height) >= old(maxContiguous)
        && heightHighwater == Max(old(heightHighwater), height)
        && (old(!PopulatedAt(index, maxContiguous + 1)) ==> !PopulatedAt(index, maxContiguous + 1))
      ensures r.Ok? ==> dataHighwater - index.header.nextWriteOffset < 67_108_864
      ensures WithinCap(c.cap, old(files)) ==> WithinCap(c.cap, files)
      ensures header == old(header) && recovered == old(recovered)
      ensures var spec := Write(c, old(Snapshot()), height, block);
        fault == NoFault ==>
          && (spec.Ok? ==> r.Ok? && Snapshot() == spec.value)
          && (spec.Err? ==> r == Err(spec.error) && Snapshot() == old(Snapshot()))
    {
      hide Reserve, AllBacked, FloorSound, ReadBlock, WriteInto, Serialize, AdvancedFloor, InOneFile, Holds,
           FileIndexLeft, PopulatedAt, Addressable, Landed, WithinCap, Admissible, HasRoom, RoomAt,
           DataFails, CheckpointFails, DataLeft, PlaceFrame, Checkpointed, CheckpointDue, Max;
      ghost var dh := dataHighwater;
      AdmitIff(c, dh, height, block);
      NothingFails(syncMode);
      if block == [] {
        return Err(EmptyBlock), false;
      }
      if |block| >= U32_LIMIT {
        return Err(BlockTooLarge), false;
      }
      var payload := c.codec.compress(block);
      if |payload| >= U32_LIMIT {
        return Err(Panicked), false;
      }
      if !Addressable(c.minHeight, height) {
        return Err(InvalidHeight), false;
      }
      var blockHeader := c.codec.HeaderFor(height, block);
      var reserved, previous := ReserveSpace(|payload| + HEADER_SIZE);
      if reserved.Err? {
        return Err(reserved.error), false;
      }
      var offset, savedOffset := reserved.value.offset, reserved.value.end;
      AdmittedPlace(c, dh, height, block);
      ghost var before, slots := files, index.slots;
      var ok := WriteData(offset, blockHeader, payload, fault);
      DataWritesAreInvisible(c, before, slots, dh, offset, blockHeader, payload, fault, files);
      DataStaysWithin(c, before, offset, blockHeader, payload, fault);
      if !ok {
        ReleaseReservation(previous, savedOffset);
        return Err(Io), false;
      }
      AllBackedGrows(c, files, slots, dh, dataHighwater);
      if fault.IndexWriteFails? {
        return Err(Io), false;
      }
      WholeFrame(c, before, offset, height, block, fault, syncMode);
      r := Publish(height, block, |payload|, offset, savedOffset, fault);
      published := true;
    }

    /** The part of `write_block` behind the data sync: index entry, floor, highwater,
        and a checkpoint when the tip rose to a multiple of 1024 or 64 MiB of data have
        been written since the last one. */
    method Publish(height: U64, ghost block: seq<Byte>, size: nat, offset: nat, savedOffset: nat, fault: Fault)
      returns (r: Result<()>)
      requires Valid() && Addressable(c.minHeight, height)
      requires block != [] && size == |c.codec.compress(block)| < U32_LIMIT
      requires Holds(files, c.cap, offset, c.codec.Frame(height, block))
      requires InOneFile(c.cap, offset, HEADER_SIZE + size)
      requires offset + HEADER_SIZE + size == savedOffset == dataHighwater
      modifies this`index, this`maxContiguous, this`heightHighwater, this`lastCheckpoint
      ensures Valid()
      ensures forall h :: Addressable(c.minHeight, h) ==>
        ReadBlock(c, files, index.slots, h)
        == if h != height then old(ReadBlock(c, files, index.slots, h))
           else if size <= MAX_BLOCK_SIZE then Ok(Some(block)) else Err(Corrupt)
      ensures index.slots == Put(old(index.slots), Slot(c, height), Entry(offset, size, 0))
      ensures maxContiguous == AdvancedFloor(index, old(maxContiguous), height) >= old(maxContiguous)
      ensures maxContiguous == AdvancedFloor(old(index).(slots := index.slots), old(maxContiguous), height)
      ensures heightHighwater == Max(old(heightHighwater), height)
      ensures old(!PopulatedAt(index, maxContiguous + 1)) ==> !PopulatedAt(index, maxContiguous + 1)
      ensures var due := (old(heightHighwater) < height && height % 1024 == 0)
                         || savedOffset >= old(lastCheckpoint) + 67_108_864;
        && (r.Err? <==> due && CheckpointFails(fault, syncMode))
        && index.header == if !due || r.Err? then old(index.header)
                           else header.(nextWriteOffset := savedOffset, maxHeight := heightHighwater, contiguous := maxContiguous)
      ensures r.Err? ==> r.error == Io
      ensures r.Ok? ==> dataHighwater - index.header.nextWriteOffset < 67_108_864
      ensures fault == NoFault ==>
        var next := old(Snapshot()).(index := old(index).(slots := index.slots),
                                     heightHighwater := heightHighwater, floor := maxContiguous);
        Snapshot() == if CheckpointDue(old(heightHighwater) < height, height, savedOffset, old(lastCheckpoint))
                      then Checkpointed(next) else next
    {
      hide AllBacked, FloorSound, ReadBlock, Holds, InOneFile, Put, AdvancedFloor, PopulatedAt, Addressable, Split;
      ghost var floor, e := maxContiguous, Entry(offset, size, 0);
      PublishChangesOne(c, files, index.slots, dataHighwater, height, offset, block);
      PayloadPositive(c, block);
      SlotInRange(c, |index.slots|, height);
      FloorSurvivesWrite(index, height, e, floor);
      PutPopulates(c, index, height, e);
      index := index.(slots := Put(index.slots, Slot(c, height), Entry(offset, size, 0)));
      ghost var mid := index;
      AdvanceMaxContiguousHeight(height);
      var tipRose := UpdateHighwater(height);
      var bytesSinceCheckpoint := if savedOffset < lastCheckpoint then 0 else savedOffset - lastCheckpoint;
      r := Ok(());
      if (tipRose && height % CHECKPOINT_INTERVAL == 0) || bytesSinceCheckpoint >= CHECKPOINT_BYTES {
        r := Checkpoint(savedOffset, fault);
      }
      HeadersDoNotMatter(mid, index, maxContiguous, floor, height);
    }

    // -------------------------------------------------------------- recovery

    /** The scan's decision at the current position, read through the window. */
    method NextBlock(window: Window, end: nat) returns (o: Outcome)
      requires window.Valid(files) && FilesFit(files)
      modifies window
      ensures window.Valid(files)
      ensures o == ParseAt(c, files, end, header.nextWriteOffset)
    {
      hide Addressable, Split, AdvanceToNextFile;
      var scan := header.nextWriteOffset;
      if scan >= end {
        return Stop;
      }
      var place := Split(c.cap, scan);
      if place.file !in files {
        return Stop;
      }
      var file := files[place.file];
      var headerEnd := place.local + HEADER_SIZE;
      if headerEnd > |file| {
        if c.cap.None? {
          return Stop;
        }
        var following := AdvanceToNextFile(place.file, c.cap.value);
        return if following.Ok? then Outcome.Skip(following.value) else Fail(following.error);
      }
      var headerBytes := window.Read(file, place.file, place.local, HEADER_SIZE, |file|, files);
      var blockHeader := Deserialize(headerBytes.value).value;
      if blockHeader.height < c.minHeight || blockHeader.size == 0 || blockHeader.size > MAX_BLOCK_SIZE
         || blockHeader.version != BLOCK_ENTRY_VERSION
      {
        return Stop;
      }
      if headerEnd + blockHeader.size > |file| {
        return Stop;
      }
      var payload := window.Read(file, place.file, headerEnd, blockHeader.size, |file|, files);
      var decoded := c.codec.decompress(payload.value);
      if decoded.None? || c.codec.hash(decoded.value) != blockHeader.checksum {
        return Stop;
      }
      if !Addressable(c.minHeight, blockHeader.height) {
        return Fail(InvalidHeight);
      }
      var next := scan + HEADER_SIZE + blockHeader.size;
      if next >= U64_LIMIT {
        return Overrun(blockHeader.height, blockHeader.size, decoded.value);
      }
      return Visit(blockHeader.height, blockHeader.size, decoded.value, next);
    }

    /** Rewrites an entry only if the index says something else; either way it says
        `entry` afterwards. */
    method UpdateIndexIfChanged(height: nat, entry: Entry) returns (written: bool)
      requires c.minHeight <= height
      modifies this`index
      ensures !written <==> height - c.minHeight < |old(index.slots)| && old(index.slots)[height - c.minHeight] == entry
      ensures index == old(index).(slots := Put(old(index.slots), Slot(c, height), entry))
    {
      var k := Slot(c, height);
      if k < |index.slots| && index.slots[k] == entry {
        assert Put(index.slots, k, entry) == index.slots;
        return false;
      }
      index := index.(slots := Put(index.slots, k, entry));
      written := true;
    }

    /** The scan loop. It ends where the uninterrupted run ends, with the same index. */
    method RecoverUnindexedBlocks(end: nat) returns (r: Result<()>)
      requires Attached() && header == index.header && FilesFit(files) && EntriesFit(index.slots)
      requires end < U64_LIMIT && heightHighwater < U64_LIMIT
      modifies this`index, this`header, this`heightHighwater, this`maxContiguous, this`lastCheckpoint
      ensures var run := RunFrom(c, files, end, old(index), old(header.nextWriteOffset),
                                 old(heightHighwater), old(header.nextWriteOffset));
        && index == run.index && header.nextWriteOffset == run.next && heightHighwater == run.highwater
        && r == (if run.error.None? then Ok(()) else Err(run.error.value))
      ensures SameStore(header, index.header) && header.contiguous == old(header.contiguous) && Matches(c, header)
      ensures lastCheckpoint == index.header.nextWriteOffset <= header.nextWriteOffset < U64_LIMIT
      ensures EntriesFit(index.slots) && heightHighwater < U64_LIMIT && SlotsInRange(c, |index.slots|)
    {
      hide ParseAt, RunFrom, FilesFit, EntriesFit, Put, SlotsInRange;
      ghost var goal := RunFrom(c, files, end, index, header.nextWriteOffset, heightHighwater, header.nextWriteOffset);
      AttachedInRange(c, |index.slots|);
      var lastProgress := header.nextWriteOffset;
      var window := new Window();
      while true
        invariant window.Valid(files) && fresh(window)
        invariant EntriesFit(index.slots) && heightHighwater < U64_LIMIT && SlotsInRange(c, |index.slots|)
        invariant HeaderInMemory(header, index.header) && header.contiguous == old(header.contiguous)
        invariant lastCheckpoint == index.header.nextWriteOffset == lastProgress <= header.nextWriteOffset < U64_LIMIT
        invariant Matches(c, header)
        invariant goal == RunFrom(c, files, end, index, header.nextWriteOffset, heightHighwater, lastProgress)
        decreases end - header.nextWriteOffset
      {
        var scan := header.nextWriteOffset;
        var o := NextBlock(window, end);
        StepAdvances(c, files, end, scan);
        RunStep(c, files, end, index, scan, heightHighwater, lastProgress);
        VisitFits(c, files, end, scan, index.slots);
        NextFits(c, files, end, scan);
        if o.Stop? {
          return Ok(());
        } else if o.Fail? {
          return Err(o.error);
        } else if o.Skip? {
          header := header.(nextWriteOffset := o.next);
        } else {
          var _ := UpdateIndexIfChanged(o.height, Entry(scan, o.size, 0));
          var _ := UpdateHighwater(o.height);
          maxContiguous := Max(maxContiguous, o.height);
          if o.Overrun? {
            return Err(Corrupt);
          }
          header := header.(nextWriteOffset := o.next);
          if o.next - lastProgress >= CHECKPOINT_BYTES {
            CheckpointRecoveryProgress();
            lastProgress := o.next;
          }
        }
      }
    }

    method CheckpointRecoveryProgress()
      requires HeaderInMemory(header, index.header)
      modifies this`index, this`header, this`lastCheckpoint
      ensures index == old(index).(header := ProgressHeader(old(index.header), header.nextWriteOffset, heightHighwater))
      ensures header == index.header && header.nextWriteOffset == old(header.nextWriteOffset)
      ensures lastCheckpoint == header.nextWriteOffset
    {
      header := header.(maxHeight := heightHighwater);
      index := index.(header := header);
      lastCheckpoint := header.nextWriteOffset;
    }

    /** `recover`: it succeeds, fails and ends exactly as the function `Recover` says, and
        never touches a data file. A store that holds a history goes on where it was: all
        that the other operations rely on holds again. */
    method Recover() returns (r: Result<()>)
      requires Attached() && header == index.header && header.Fits() && FilesFit(files) && EntriesFit(index.slots)
      requires IndexStaysAddressable(c, files, index)
      modifies this`index, this`header, this`heightHighwater, this`maxContiguous, this`lastCheckpoint,
               this`dataHighwater, this`recovered
      ensures var spec := History.Recover(c, files, old(index));
        && (r.Ok? <==> spec.Ok?)
        && (r.Err? ==> r.error == spec.error && recovered == old(recovered) && dataHighwater == old(dataHighwater))
        && (spec.Ok? ==>
              && index == spec.value.index && dataHighwater == spec.value.next
              && heightHighwater == spec.value.highwater && maxContiguous == spec.value.floor
              && recovered && lastCheckpoint == index.header.nextWriteOffset <= dataHighwater
              && SameStore(header, index.header) && Attached())
      ensures Reopen.HoldsHistory(c, files, old(index)) ==> r.Ok? && Valid()
    {
      hide RunFrom, RunOn, ScanFloor, FilesFit, EntriesFit, Encode, ValidateLayout, Sizes, Describes,
           Reopen.HoldsHistory, AllBacked, FloorSound;
      if Reopen.HoldsHistory(c, files, index) {
        Reopen.HistoryRecovers(c, files, index);
      }
      var layout := ValidateLayout(c.cap, Sizes(files));
      if layout.Err? {
        return Err(layout.error);
      }
      var end := layout.value;
      if end < header.nextWriteOffset {
        return Err(DataShrunk);
      }
      ghost var start := index;
      heightHighwater := header.maxHeight;
      AttachedInRange(c, |index.slots|);
      NothingToScan(c, files, end, index);
      LayoutFits(c, files, end);
      if end > header.nextWriteOffset {
        r := RecoverUnindexedBlocks(end);
        if r.Err? {
          return r;
        }
      }
      assert index == RunOn(c, files, end, start).index;
      DescribesEncoding(index);
      var floor := ScanContiguousFloor(Encode(index), header.minHeight, heightHighwater, header.contiguous, index);
      if floor.Err? {
        return Err(floor.error);
      }
      maxContiguous := floor.value;
      dataHighwater := header.nextWriteOffset;
      recovered := true;
      return Ok(());
    }

    // -------------------------------------------------------------- read_block

    /** The answer is the one that the bytes demand. Opening the data file of an entry
        creates it when it is missing, and nothing else changes. */
    method Read(height: U64) returns (r: Result<Option<seq<Byte>>>)
      requires Matches(c, header)
      modifies this`files
      ensures r == old(ReadBlock(c, files, index.slots, height))
      ensures Answers(c, old(files), index.slots, height, r)
      ensures var e := Get(index.slots, Slot(c, height));
        var f := FileIndex(c.cap, e.offset);
        files == if Addressable(c.minHeight, height) && 0 < e.size <= 0x4000_0000 && f !in old(files)
                 then old(files)[f := []] else old(files)
    {
      hide Answers, FileIndex;
      ReadAnswers(c, files, index.slots, height);
      if !Addressable(c.minHeight, height) {
        return Err(InvalidHeight);
      }
      var entry := Get(index.slots, Slot(c, height));
      if entry.size == 0 {
        return Ok(None);
      }
      if entry.size > MAX_BLOCK_SIZE {
        return Err(Corrupt);
      }
      var place := Split(c.cap, entry.offset);
      var file := FileAt(files, place.file);
      SplitIs(c.cap, entry.offset);
      if place.file !in files {
        files := CreateFile(files, place.file);
      }
      if place.local + HEADER_SIZE + entry.size > |file| {
        return Err(UnexpectedEof);
      }
      r := ReadFrame(c, file[place.local..place.local + HEADER_SIZE + entry.size], entry.size);
    }
  }

  /** File sizes are file offsets of the operating system, which are signed. */
  ghost predicate FilesFit(files: Files) {
    forall i :: i in files ==> i < U32_LIMIT && |files[i]| < U64_LIMIT / 2
  }

  ghost predicate SlotsInRange(c: Config, slots: nat) {
    16 * slots + INDEX_HEADER_SIZE <= U64_LIMIT && c.minHeight + slots <= U64_LIMIT
  }

  lemma AttachedInRange(c: Config, slots: nat)
    requires 16 * slots + INDEX_HEADER_SIZE <= U64_LIMIT && c.minHeight + slots <= U64_LIMIT
    ensures SlotsInRange(c, slots)
  {
  }

  /** The index file that recovery leaves is shorter than 2^64 bytes. */
  ghost predicate IndexStaysAddressable(c: Config, files: Files, ix: Index) {
    var layout := ValidateLayout(c.cap, Sizes(files));
    layout.Ok? ==> |Encode(RunOn(c, files, layout.value, ix).index)| < U64_LIMIT
  }

  /** During the scan the in-memory header runs ahead of the stored one in two fields. */
  ghost predicate HeaderInMemory(memory: Header, stored: Header) {
    memory == stored.(nextWriteOffset := memory.nextWriteOffset, maxHeight := memory.maxHeight)
  }

  lemma RunStep(c: Config, files: Files, end: nat, ix: Index, pos: nat, highwater: nat, last: nat)
    ensures var run := RunFrom(c, files, end, ix, pos, highwater, last);
      var o := ParseAt(c, files, end, pos);
      && (o.Stop? ==> run == Run(ix, pos, highwater, None))
      && (o.Fail? ==> run == Run(ix, pos, highwater, Some(o.error)))
      && (o.Skip? ==> run == RunFrom(c, files, end, ix, o.next, highwater, last))
      && (o.Overrun? || o.Visit? ==>
            var indexed := ix.(slots := Put(ix.slots, Slot(c, o.height), Entry(pos, o.size, 0)));
            var raised := Max(highwater, o.height);
            && (o.Overrun? ==> run == Run(indexed, pos, raised, Some(Corrupt)))
            && (o.Visit? ==>
                  run == if o.next >= last + CHECKPOINT_BYTES
                         then RunFrom(c, files, end, indexed.(header := ProgressHeader(ix.header, o.next, raised)),
                                      o.next, raised, o.next)
                         else RunFrom(c, files, end, indexed, o.next, raised, last)))
  {
  }

  /** What the scan writes into the index fits the entry format. */
  lemma VisitFits(c: Config, files: Files, end: nat, pos: nat, slots: seq<Entry>)
    requires end < U64_LIMIT && EntriesFit(slots) && SlotsInRange(c, |slots|)
    ensures var o := ParseAt(c, files, end, pos);
      (o.Visit? || o.Overrun?) ==>
        var after := Put(slots, Slot(c, o.height), Entry(pos, o.size, 0));
        c.minHeight <= o.height < U64_LIMIT && EntriesFit(after) && SlotsInRange(c, |after|)
  {
    VisitReadsBack(c, files, end, pos);
    var o := ParseAt(c, files, end, pos);
    if o.Visit? || o.Overrun? {
      var e := Entry(pos, o.size, 0);
      VisitBounds(c, files, end, pos);
      SlotInRange(c, |slots|, o.height);
      hide ParseAt, Addressable, ReadEntry;
      var after := Put(slots, Slot(c, o.height), e);
      forall x | x in after
        ensures x.Fits()
      {
        var k :| 0 <= k < |after| && after[k] == x;
        assert Get(after, k) == x;
        assert k != Slot(c, o.height) ==> x == Get(slots, k);
      }
    }
  }

  lemma VisitBounds(c: Config, files: Files, end: nat, pos: nat)
    ensures var o := ParseAt(c, files, end, pos);
      (o.Visit? || o.Overrun?) ==> pos < end && o.height < U64_LIMIT && o.size < U32_LIMIT
  {
  }

  lemma NextFits(c: Config, files: Files, end: nat, pos: nat)
    ensures var o := ParseAt(c, files, end, pos);
      o.Skip? || o.Visit? ==> o.next < U64_LIMIT
  {
  }

  lemma NothingToScan(c: Config, files: Files, end: nat, ix: Index)
    ensures end <= ix.header.nextWriteOffset ==>
      RunOn(c, files, end, ix) == Run(ix, ix.header.nextWriteOffset, ix.header.maxHeight, None)
    ensures RunOn(c, files, end, ix)
         == RunFrom(c, files, end, ix, ix.header.nextWriteOffset, ix.header.maxHeight, ix.header.nextWriteOffset)
  {
  }

  lemma LayoutFits(c: Config, files: Files, end: nat)
    requires ValidateLayout(c.cap, Sizes(files)) == Ok(end) && FilesFit(files)
    ensures end < U64_LIMIT
  {
    if files != map[] && c.cap.None? {
      assert 0 in Sizes(files);
    }
  }

  lemma DescribesEncoding(ix: Index)
    requires EntriesFit(ix.slots) && |Encode(ix)| < U64_LIMIT
    ensures Describes(ix, Encode(ix), ix.header.minHeight)
  {
  }

  lemma SlotInRange(c: Config, slots: nat, height: U64)
    requires Addressable(c.minHeight, height)
    requires 16 * slots + INDEX_HEADER_SIZE <= U64_LIMIT && c.minHeight + slots <= U64_LIMIT
    ensures c.minHeight <= height
    ensures 16 * Max(slots, Slot(c, height) + 1) + INDEX_HEADER_SIZE <= U64_LIMIT
    ensures c.minHeight + Max(slots, Slot(c, height) + 1) <= U64_LIMIT
  {
  }

  lemma PutPopulates(c: Config, ix: Index, height: nat, e: Entry)
    requires ix.header.minHeight == c.minHeight <= height && e.Populated()
    ensures PopulatedAt(ix.(slots := Put(ix.slots, Slot(c, height), e)), height)
    ensures Slot(c, height) == height - ix.header.minHeight
  {
  }

  /** The floor looks only at the slots and the lowest height. */
  lemma HeadersDoNotMatter(a: Index, b: Index, floor: nat, m: nat, height: nat)
    requires a.slots == b.slots && a.header.minHeight == b.header.minHeight
    ensures FloorSound(a, floor) <==> FloorSound(b, floor)
    ensures PopulatedAt(a, floor + 1) <==> PopulatedAt(b, floor + 1)
    ensures AdvancedFloor(a, m, height) == AdvancedFloor(b, m, height)
  {
    forall h
      ensures PopulatedAt(a, h) == PopulatedAt(b, h)
    {
    }
    SameFloorFrom(a, b, height, a.header.minHeight + |a.slots|);
  }

  lemma {:induction false} SameFloorFrom(a: Index, b: Index, f: nat, bound: nat)
    requires a.slots == b.slots && a.header.minHeight == b.header.minHeight
    ensures FloorFrom(a, f, bound) == FloorFrom(b, f, bound)
    decreases bound - f
  {
    if f < bound && PopulatedAt(a, f + 1) {
      SameFloorFrom(a, b, f + 1, bound);
    }
  }

  /** What one call leaves in the data files. A file that cannot be opened is not created;
      a payload write that fails at once, or a lock that fails, leaves it as it was or
      empty; and a failed sync leaves the whole frame. */
  function DataLeft(c: Config, files: Files, off: nat, blockHeader: BlockHeader, payload: seq<Byte>, fault: Fault): Files {
    var half := WriteInto(files, c.cap, off, HEADER_SIZE, payload);
    match fault
    case OpenFails => files
    case PayloadWriteFails(landed) => WriteInto(files, c.cap, off, HEADER_SIZE, payload[..Landed(landed, |payload|)])
    case HeaderWriteFails(landed) => WriteInto(half, c.cap, off, 0, Serialize(blockHeader)[..Landed(landed, HEADER_SIZE)])
    case _ => WriteInto(half, c.cap, off, 0, Serialize(blockHeader))
  }

  function Landed(landed: nat, all: nat): (n: nat)
    ensures n <= all
  {
    if landed < all then landed else all
  }

  /** If none of the data writes fails, the frame is there and can be read. */
  lemma WholeFrame(c: Config, files: Files, off: nat, height: U64, block: seq<Byte>, fault: Fault, syncMode: bool)
    requires c.codec.Valid() && block != [] && |c.codec.compress(block)| < U32_LIMIT && !DataFails(fault, syncMode)
    ensures var after := PlaceFrame(c, files, off, height, block);
      && DataLeft(c, files, off, c.codec.HeaderFor(height, block), c.codec.compress(block), fault) == after
      && Holds(after, c.cap, off, c.codec.Frame(height, block))
  {
    hide Holds, WriteInto, Serialize;
    FrameLands(c, files, off, height, block);
  }

  /** The header is the commit point: if a call, wherever it fails, has changed a byte of
      the place of the block header, then the whole payload is there. */
  lemma HeaderIsCommitPoint(c: Config, files: Files, off: nat, blockHeader: BlockHeader, payload: seq<Byte>, fault: Fault)
    ensures var f, at := FileIndex(c.cap, off), LocalOffset(c.cap, off);
      PayloadFirst(FileAt(files, f), FileAt(DataLeft(c, files, off, blockHeader, payload, fault), f), at, payload)
  {
    SplitIs(c.cap, off);
    hide FileIndex, LocalOffset, Split, Serialize, WriteAt, PayloadFirst, Landed;
    var before, at := FileAt(files, FileIndex(c.cap, off)), LocalOffset(c.cap, off);
    match fault
    case OpenFails => NothingTouched(before, at, payload);
    case PayloadWriteFails(landed) => HeaderUntouched(before, at, payload[..Landed(landed, |payload|)], payload);
    case HeaderWriteFails(landed) => PayloadStays(before, at, payload, Serialize(blockHeader)[..Landed(landed, HEADER_SIZE)]);
    case _ => PayloadStays(before, at, payload, Serialize(blockHeader));
  }

  /** Nor do they make any file longer than the cap. */
  lemma DataStaysWithin(c: Config, files: Files, off: nat, blockHeader: BlockHeader, payload: seq<Byte>, fault: Fault)
    requires InOneFile(c.cap, off, HEADER_SIZE + |payload|)
    ensures WithinCap(c.cap, files) ==> WithinCap(c.cap, DataLeft(c, files, off, blockHeader, payload, fault))
  {
    var len := HEADER_SIZE + |payload|;
    if WithinCap(c.cap, files) {
      hide WithinCap, InOneFile, WriteInto, Serialize;
      var half := WriteInto(files, c.cap, off, HEADER_SIZE, payload);
      WriteStaysWithin(c.cap, files, off, len, HEADER_SIZE, payload);
      match fault
      case OpenFails =>
      case PayloadWriteFails(landed) =>
        WriteStaysWithin(c.cap, files, off, len, HEADER_SIZE, payload[..Landed(landed, |payload|)]);
      case HeaderWriteFails(landed) =>
        WriteStaysWithin(c.cap, half, off, len, 0, Serialize(blockHeader)[..Landed(landed, HEADER_SIZE)]);
      case _ => WriteStaysWithin(c.cap, half, off, len, 0, Serialize(blockHeader));
    }
  }

  lemma WriteStaysWithin(cap: Option<Pos>, files: Files, off: nat, len: nat, at: nat, data: seq<Byte>)
    requires InOneFile(cap, off, len) && at + |data| <= len && WithinCap(cap, files)
    ensures WithinCap(cap, WriteInto(files, cap, off, at, data))
  {
  }

  /** However far the data writes get, no published block notices. */
  lemma DataWritesAreInvisible(c: Config, before: Files, slots: seq<Entry>, limit: nat, off: nat,
                               blockHeader: BlockHeader, payload: seq<Byte>, fault: Fault, after: Files)
    requires AllBacked(c, before, slots, limit) && limit <= off
    requires InOneFile(c.cap, off, HEADER_SIZE + |payload|)
    requires after == DataLeft(c, before, off, blockHeader, payload, fault)
    ensures AllBacked(c, after, slots, limit)
    ensures forall h :: ReadBlock(c, after, slots, h) == ReadBlock(c, before, slots, h)
  {
    hide AllBacked, InOneFile, ReadBlock, WriteInto, Serialize;
    var len := HEADER_SIZE + |payload|;
    var half := WriteInto(before, c.cap, off, HEADER_SIZE, payload);
    AllBackedSurvives(c, before, slots, limit, off, len, HEADER_SIZE, payload);
    match fault
    case OpenFails =>
    case PayloadWriteFails(landed) =>
      AllBackedSurvives(c, before, slots, limit, off, len, HEADER_SIZE, payload[..Landed(landed, |payload|)]);
    case HeaderWriteFails(landed) =>
      AllBackedSurvives(c, half, slots, limit, off, len, 0, Serialize(blockHeader)[..Landed(landed, HEADER_SIZE)]);
    case _ =>
      AllBackedSurvives(c, half, slots, limit, off, len, 0, Serialize(blockHeader));
  }
}
