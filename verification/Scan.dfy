/** The recovery scan: one parsing step at a position, whole runs of it, what a
    run leaves in the index, and where it stops. */
module Scan {
  import opened Bytes
  import opened Results
  import opened BlockFormat
  import opened FileSet
  import opened IndexFile
  import opened BlockIo

  datatype Outcome =
    | Stop                                                        // end of the valid data
    | Fail(error: Error)                                          // recovery gives up
    | Skip(next: nat)                                             // on to the next file
    | Visit(height: nat, size: nat, block: seq<Byte>, next: nat)  // a valid block
    | Overrun(height: nat, size: nat, block: seq<Byte>)           // a valid block ending past u64

  /** What the scan finds at global offset `pos`, when the file sizes add up to `end`. */
  function ParseAt(c: Config, files: Files, end: nat, pos: nat): Outcome {
    if pos >= end then Stop
    else
      var p := Split(c.cap, pos);
      if p.file !in files then Stop
      else if p.local + HEADER_SIZE > |files[p.file]| then
        match c.cap {
          case None => Stop
          case Some(cap) =>
            match AdvanceToNextFile(p.file, cap)
            case Ok(next) => Skip(next)
            case Err(e) => Fail(e)
        }
      else ParseBlock(c, files[p.file], p.local, pos)
  }

  function ParseBlock(c: Config, file: seq<Byte>, local: nat, pos: nat): Outcome
    requires local + HEADER_SIZE <= |file|
  {
    var payloadAt := local + HEADER_SIZE;
    match Deserialize(file[local..payloadAt])
    case Err(e) => Fail(e)
    case Ok(h) =>
      if h.height < c.minHeight || h.size == 0 || h.size > MAX_BLOCK_SIZE || h.version != BLOCK_ENTRY_VERSION
      then Stop
      else if payloadAt + h.size > |file| then Stop
      else match c.codec.decompress(file[payloadAt..payloadAt + h.size])
        case None => Stop
        case Some(block) =>
          if c.codec.hash(block) != h.checksum then Stop
          else if !Addressable(c.minHeight, h.height) then Fail(InvalidHeight)
          else if pos + HEADER_SIZE + h.size >= U64_LIMIT then Overrun(h.height, h.size, block)
          else Visit(h.height, h.size, block, pos + HEADER_SIZE + h.size)
  }

  /** Every step that continues strictly raises the position. */
  lemma StepAdvances(c: Config, files: Files, end: nat, pos: nat)
    ensures var o := ParseAt(c, files, end, pos);
      && (o.Skip? ==> pos < o.next && pos < end)
      && (o.Visit? ==> pos < o.next == pos + HEADER_SIZE + o.size && pos < end)
  {
    if c.cap.Some? && pos / c.cap.value < U32_LIMIT {
      FileSet.Skip(pos, c.cap.value);
    }
  }

  // ---------------------------------------------------------------- runs

  datatype Run = Run(index: Index, next: nat, highwater: nat, error: Option<Error>)

  /** The header a mid-scan checkpoint writes; the contiguity floor stays as persisted. */
  function ProgressHeader(h: Header, next: nat, highwater: nat): Header {
    h.(nextWriteOffset := next, maxHeight := highwater)
  }

  function Record(c: Config, slots: seq<Entry>, pos: nat, height: nat, size: nat): seq<Entry> {
    Put(slots, Slot(c, height), Entry(pos, size, 0))
  }

  /** The uninterrupted scan from `pos`; `last` is where it last persisted its progress. */
  function RunFrom(c: Config, files: Files, end: nat, ix: Index, pos: nat, highwater: nat, last: nat): Run
    decreases end - pos
  {
    StepAdvances(c, files, end, pos);
    match ParseAt(c, files, end, pos)
    case Stop => Run(ix, pos, highwater, None)
    case Fail(e) => Run(ix, pos, highwater, Some(e))
    case Skip(next) => RunFrom(c, files, end, ix, next, highwater, last)
    case Overrun(height, size, _) =>
      Run(ix.(slots := Record(c, ix.slots, pos, height, size)), pos, Max(highwater, height), Some(Corrupt))
    case Visit(height, size, _, next) =>
      var indexed := ix.(slots := Record(c, ix.slots, pos, height, size));
      var raised := Max(highwater, height);
      if next >= last + CHECKPOINT_BYTES then
        RunFrom(c, files, end, indexed.(header := ProgressHeader(ix.header, next, raised)), next, raised, next)
      else
        RunFrom(c, files, end, indexed, next, raised, last)
  }

  /** What a fresh start of the scan on an index file leads to. */
  function RunOn(c: Config, files: Files, end: nat, ix: Index): Run {
    RunFrom(c, files, end, ix, ix.header.nextWriteOffset, ix.header.maxHeight, ix.header.nextWriteOffset)
  }

  datatype Seen = Seen(height: nat, offset: nat, size: nat, block: seq<Byte>)

  datatype Trail = Trail(visits: seq<Seen>, next: nat, error: Option<Error>)

  /** The blocks a scan visits: a function of the data files and the start alone. */
  function Walk(c: Config, files: Files, end: nat, pos: nat): Trail
    decreases end - pos
  {
    StepAdvances(c, files, end, pos);
    match ParseAt(c, files, end, pos)
    case Stop => Trail([], pos, None)
    case Fail(e) => Trail([], pos, Some(e))
    case Skip(next) => Walk(c, files, end, next)
    case Overrun(height, size, block) => Trail([Seen(height, pos, size, block)], pos, Some(Corrupt))
    case Visit(height, size, block, next) =>
      var rest := Walk(c, files, end, next);
      rest.(visits := [Seen(height, pos, size, block)] + rest.visits)
  }

  lemma WalkVisit(c: Config, files: Files, end: nat, v: Seen, next: nat)
    requires ParseAt(c, files, end, v.offset) == Visit(v.height, v.size, v.block, next)
    ensures var rest := Walk(c, files, end, next);
      Walk(c, files, end, v.offset) == rest.(visits := [v] + rest.visits)
  {
  }

  lemma WalkStops(c: Config, files: Files, end: nat, pos: nat)
    requires ParseAt(c, files, end, pos) == Stop
    ensures Walk(c, files, end, pos) == Trail([], pos, None)
  {
  }

  lemma WalkSkip(c: Config, files: Files, end: nat, pos: nat, next: nat)
    requires ParseAt(c, files, end, pos) == Outcome.Skip(next)
    ensures Walk(c, files, end, pos) == Walk(c, files, end, next)
  {
  }

  function UpdateFor(c: Config, v: Seen): SlotUpdate {
    SlotUpdate(Slot(c, v.height), Entry(v.offset, v.size, 0))
  }

  function Updates(c: Config, visits: seq<Seen>): (ws: seq<SlotUpdate>)
    ensures |ws| == |visits|
  {
    if visits == [] then [] else [UpdateFor(c, visits[0])] + Updates(c, visits[1..])
  }

  lemma {:induction false} UpdatesAt(c: Config, visits: seq<Seen>, i: nat)
    requires i < |visits|
    ensures Updates(c, visits)[i] == UpdateFor(c, visits[i])
  {
    if i > 0 {
      UpdatesAt(c, visits[1..], i - 1);
    }
  }

  function MaxHeight(visits: seq<Seen>, before: nat): nat {
    if visits == [] then before else MaxHeight(visits[1..], Max(before, visits[0].height))
  }

  lemma {:induction false} MaxHeightSpec(visits: seq<Seen>, before: nat)
    ensures var m := MaxHeight(visits, before);
      && before <= m
      && (forall v :: v in visits ==> v.height <= m)
      && (m == before || exists v :: v in visits && v.height == m)
  {
    if visits == [] {
    } else {
      MaxHeightSpec(visits[1..], Max(before, visits[0].height));
      forall v | v in visits
        ensures v.height <= MaxHeight(visits, before)
      {
        assert v == visits[0] || v in visits[1..];
      }
    }
  }

  /** A run records exactly the walked blocks, whatever the index held before. */
  lemma {:induction false} RunFollowsWalk(c: Config, files: Files, end: nat, ix: Index, pos: nat, highwater: nat, last: nat)
    ensures var w := Walk(c, files, end, pos);
      var r := RunFrom(c, files, end, ix, pos, highwater, last);
      && r.index.slots == PutAll(ix.slots, Updates(c, w.visits))
      && r.next == w.next && r.error == w.error
      && r.highwater == MaxHeight(w.visits, highwater)
    decreases end - pos
  {
    StepAdvances(c, files, end, pos);
    match ParseAt(c, files, end, pos)
    case Stop =>
    case Fail(e) =>
    case Skip(next) => RunFollowsWalk(c, files, end, ix, next, highwater, last);
    case Overrun(height, size, block) =>
      assert [Seen(height, pos, size, block)][1..] == [];
    case Visit(height, size, block, next) =>
      var indexed := ix.(slots := Record(c, ix.slots, pos, height, size));
      var raised := Max(highwater, height);
      var rest := Walk(c, files, end, next).visits;
      assert ([Seen(height, pos, size, block)] + rest)[1..] == rest;
      if next >= last + CHECKPOINT_BYTES {
        RunFollowsWalk(c, files, end, indexed.(header := ProgressHeader(ix.header, next, raised)), next, raised, next);
      } else {
        RunFollowsWalk(c, files, end, indexed, next, raised, last);
      }
  }

  /** Progress is persisted as soon as 64 MiB have been validated since the last time, and
      not before: the persisted offset stays where it was or rises by at least that much,
      and every validated block ends less than that behind it. */
  lemma {:induction false} RunPersists(c: Config, files: Files, end: nat, ix: Index, pos: nat, highwater: nat, last: nat)
    requires ix.header.nextWriteOffset == last
    ensures var r := RunFrom(c, files, end, ix, pos, highwater, last);
      var saved := r.index.header.nextWriteOffset;
      && (saved == last || saved >= last + 67_108_864)
      && (saved == last ==> r.index.header == ix.header)
      && (r.error.None? ==> forall v :: v in Walk(c, files, end, pos).visits ==> v.offset + 22 + v.size < saved + 67_108_864)
    decreases end - pos
  {
    StepAdvances(c, files, end, pos);
    var o := ParseAt(c, files, end, pos);
    hide ParseAt;
    match o
    case Stop =>
    case Fail(e) =>
    case Overrun(height, size, block) =>
    case Skip(next) => RunPersists(c, files, end, ix, next, highwater, last);
    case Visit(height, size, block, next) =>
      var indexed := ix.(slots := Record(c, ix.slots, pos, height, size));
      var raised := Max(highwater, height);
      if next >= last + CHECKPOINT_BYTES {
        RunPersists(c, files, end, indexed.(header := ProgressHeader(ix.header, next, raised)), next, raised, next);
      } else {
        RunPersists(c, files, end, indexed, next, raised, last);
      }
  }

  /** Which header a run leaves behind does not depend on the slots. */
  lemma {:induction false} RunHeaderIgnoresSlots(c: Config, files: Files, end: nat, a: Index, b: Index,
                                                 pos: nat, highwater: nat, last: nat)
    requires a.header == b.header
    ensures RunFrom(c, files, end, a, pos, highwater, last).index.header
         == RunFrom(c, files, end, b, pos, highwater, last).index.header
    decreases end - pos
  {
    StepAdvances(c, files, end, pos);
    match ParseAt(c, files, end, pos)
    case Stop =>
    case Fail(e) =>
    case Overrun(height, size, block) =>
    case Skip(next) => RunHeaderIgnoresSlots(c, files, end, a, b, next, highwater, last);
    case Visit(height, size, block, next) =>
      var a1 := a.(slots := Record(c, a.slots, pos, height, size));
      var b1 := b.(slots := Record(c, b.slots, pos, height, size));
      var raised := Max(highwater, height);
      if next >= last + CHECKPOINT_BYTES {
        var h := ProgressHeader(a.header, next, raised);
        RunHeaderIgnoresSlots(c, files, end, a1.(header := h), b1.(header := h), next, raised, next);
      } else {
        RunHeaderIgnoresSlots(c, files, end, a1, b1, next, raised, last);
      }
  }

  /** A run ends in the same index, position and highwater from any index image that
      differs from `ix` only in slots the run rewrites. */
  lemma RunAbsorbs(c: Config, files: Files, end: nat, ix: Index, slots: seq<Entry>, pos: nat, highwater: nat, last: nat)
    requires Covered(ix.slots, slots, Updates(c, Walk(c, files, end, pos).visits))
    ensures RunFrom(c, files, end, ix, pos, highwater, last)
         == RunFrom(c, files, end, ix.(slots := slots), pos, highwater, last)
  {
    var other := ix.(slots := slots);
    RunFollowsWalk(c, files, end, ix, pos, highwater, last);
    RunFollowsWalk(c, files, end, other, pos, highwater, last);
    RunHeaderIgnoresSlots(c, files, end, ix, other, pos, highwater, last);
    ReplayAbsorbs(ix.slots, slots, Updates(c, Walk(c, files, end, pos).visits));
  }

  // ---------------------------------------------------------------- soundness on arbitrary bytes

  /** Whatever the bytes are, a visited block passes every check of `read_block`. */
  lemma VisitReadsBack(c: Config, files: Files, end: nat, pos: nat)
    ensures var o := ParseAt(c, files, end, pos);
      (o.Visit? || o.Overrun?) ==>
        && ReadEntry(c, files, Entry(pos, o.size, 0)) == Ok(Some(o.block))
        && Addressable(c.minHeight, o.height)
  {
    var o := ParseAt(c, files, end, pos);
    if o.Visit? || o.Overrun? {
      var p := Split(c.cap, pos);
      var file := files[p.file];
      var buf := file[p.local..p.local + HEADER_SIZE + o.size];
      assert buf[..HEADER_SIZE] == file[p.local..p.local + HEADER_SIZE];
      assert buf[HEADER_SIZE..] == file[p.local + HEADER_SIZE..p.local + HEADER_SIZE + o.size];
    }
  }

  lemma {:induction false} WalkReadsBack(c: Config, files: Files, end: nat, pos: nat)
    ensures forall v :: v in Walk(c, files, end, pos).visits ==>
      && ReadEntry(c, files, Entry(v.offset, v.size, 0)) == Ok(Some(v.block))
      && Addressable(c.minHeight, v.height)
      && pos <= v.offset < end
    decreases end - pos
  {
    StepAdvances(c, files, end, pos);
    VisitReadsBack(c, files, end, pos);
    match ParseAt(c, files, end, pos)
    case Stop =>
    case Fail(e) =>
    case Overrun(height, size, block) =>
    case Skip(next) => WalkReadsBack(c, files, end, next);
    case Visit(height, size, block, next) => WalkReadsBack(c, files, end, next);
  }

  predicate IsLastVisit(visits: seq<Seen>, i: nat) {
    i < |visits| && forall j :: i < j < |visits| ==> visits[j].height != visits[i].height
  }

  lemma {:induction false} LastWriteOfVisits(c: Config, visits: seq<Seen>, i: nat, before: Entry)
    requires IsLastVisit(visits, i)
    requires forall v :: v in visits ==> c.minHeight <= v.height
    ensures LastWrite(Updates(c, visits), Slot(c, visits[i].height), before)
         == Entry(visits[i].offset, visits[i].size, 0)
  {
    var k := Slot(c, visits[i].height);
    var ws := Updates(c, visits);
    var rest := visits[1..];
    assert ws == [UpdateFor(c, visits[0])] + Updates(c, rest);
    assert ws[1..] == Updates(c, rest);
    var next := if ws[0].slot == k then ws[0].entry else before;
    assert LastWrite(ws, k, before) == LastWrite(ws[1..], k, next);
    if i == 0 {
      forall j | 0 <= j < |ws[1..]|
        ensures ws[1..][j].slot != k
      {
        UpdatesAt(c, rest, j);
        assert visits[j + 1] in visits;
      }
      NoLaterWrite(ws[1..], k, next);
    } else {
      LastWriteOfVisits(c, rest, i - 1, next);
    }
  }

  lemma {:induction false} NoLaterWrite(ws: seq<SlotUpdate>, k: nat, before: Entry)
    requires forall i :: 0 <= i < |ws| ==> ws[i].slot != k
    ensures LastWrite(ws, k, before) == before
  {
    if ws == [] {
    } else {
      NoLaterWrite(ws[1..], k, before);
    }
  }

  /** Every visit is one that `read_block` would accept at the visited place. */
  ghost predicate AllReadable(c: Config, files: Files, visits: seq<Seen>) {
    forall v :: v in visits ==>
      && ReadEntry(c, files, Entry(v.offset, v.size, 0)) == Ok(Some(v.block))
      && Addressable(c.minHeight, v.height)
  }

  lemma VisitedHeightReads(c: Config, files: Files, slots: seq<Entry>, visits: seq<Seen>, i: nat)
    requires AllReadable(c, files, visits) && IsLastVisit(visits, i)
    ensures ReadBlock(c, files, PutAll(slots, Updates(c, visits)), visits[i].height) == Ok(Some(visits[i].block))
  {
    hide ReadEntry;
    var k := Slot(c, visits[i].height);
    assert visits[i] in visits;
    PutAllSpec(slots, Updates(c, visits));
    LastWriteOfVisits(c, visits, i, Get(slots, k));
    assert Get(PutAll(slots, Updates(c, visits)), k) == Entry(visits[i].offset, visits[i].size, 0);
  }

  lemma UnvisitedHeightKept(c: Config, slots: seq<Entry>, visits: seq<Seen>, h: nat)
    requires c.minHeight <= h && (forall v :: v in visits ==> c.minHeight <= v.height != h)
    ensures Get(PutAll(slots, Updates(c, visits)), Slot(c, h)) == Get(slots, Slot(c, h))
  {
    var ws := Updates(c, visits);
    forall i | 0 <= i < |ws|
      ensures ws[i].slot != Slot(c, h)
    {
      UpdatesAt(c, visits, i);
      assert visits[i] in visits;
    }
    NoLaterWrite(ws, Slot(c, h), Get(slots, Slot(c, h)));
    PutAllSpec(slots, ws);
  }

  /** After a scan of any data files, every visited height is indexed at its last
      visited block and reads back as that block, every other height is indexed as
      before, and the highwater is the maximum of the old one and the visited heights. */
  lemma ScanIsSound(c: Config, files: Files, end: nat, ix: Index)
    ensures var visits := Walk(c, files, end, ix.header.nextWriteOffset).visits;
      var r := RunOn(c, files, end, ix);
      && (forall i: nat :: IsLastVisit(visits, i) ==>
            ReadBlock(c, files, r.index.slots, visits[i].height) == Ok(Some(visits[i].block)))
      && (forall h :: c.minHeight <= h && (forall v :: v in visits ==> v.height != h) ==>
            Get(r.index.slots, Slot(c, h)) == Get(ix.slots, Slot(c, h)))
      && r.highwater == MaxHeight(visits, ix.header.maxHeight)
  {
    var start := ix.header.nextWriteOffset;
    var visits := Walk(c, files, end, start).visits;
    var r := RunOn(c, files, end, ix);
    RunFollowsWalk(c, files, end, ix, start, ix.header.maxHeight, start);
    WalkReadsBack(c, files, end, start);
    assert AllReadable(c, files, visits);
    assert r.index.slots == PutAll(ix.slots, Updates(c, visits));
    assert forall v :: v in visits ==> c.minHeight <= v.height;
    assert r.highwater == MaxHeight(visits, ix.header.maxHeight);
    hide *;
    forall i: nat | IsLastVisit(visits, i)
      ensures ReadBlock(c, files, r.index.slots, visits[i].height) == Ok(Some(visits[i].block))
    {
      IsLastVisitInRange(visits, i);
      VisitedHeightReads(c, files, ix.slots, visits, i);
    }
    forall h | c.minHeight <= h && (forall v :: v in visits ==> v.height != h)
      ensures Get(r.index.slots, Slot(c, h)) == Get(ix.slots, Slot(c, h))
    {
      UnvisitedHeightKept(c, ix.slots, visits, h);
    }
  }

  lemma IsLastVisitInRange(visits: seq<Seen>, i: nat)
    requires IsLastVisit(visits, i)
    ensures i < |visits|
  {
  }

  // ---------------------------------------------------------------- where the scan stops

  /** A data directory as recovery accepts it: `end` is its computed layout, and no
      file is larger than the cap. */
  predicate SoundLayout(c: Config, files: Files, end: nat) {
    && ValidateLayout(c.cap, Sizes(files)) == Ok(end) && end < U64_LIMIT
    && (c.cap.Some? ==> forall i :: i in files ==> |files[i]| <= c.cap.value && i < U32_LIMIT)
  }

  lemma LayoutEnd(c: Config, files: Files, end: nat)
    requires SoundLayout(c, files, end) && files != map[]
    ensures files.Keys != {}
    ensures forall i :: 0 <= i <= LastFile(files.Keys) ==> i in files
    ensures c.cap.None? ==> files.Keys == {0} && end == |files[0]|
    ensures c.cap.Some? ==> end == LastFile(files.Keys) * c.cap.value + |files[LastFile(files.Keys)]|
  {
    assert Sizes(files).Keys == files.Keys;
  }

  /** A visited block never ends past the computed layout, so no mid-scan
      checkpoint promises more data than there is. */
  lemma VisitStaysInside(c: Config, files: Files, end: nat, pos: nat)
    requires SoundLayout(c, files, end)
    ensures var o := ParseAt(c, files, end, pos);
      && !o.Overrun?
      && (o.Visit? ==> o.next <= end)
  {
    BlockInsideFile(c, files, end, pos);
    var o := ParseAt(c, files, end, pos);
    if o.Visit? || o.Overrun? {
      RangeInsideLayout(c, files, end, pos, HEADER_SIZE + o.size);
    }
  }

  lemma RangeInsideLayout(c: Config, files: Files, end: nat, pos: nat, len: nat)
    requires SoundLayout(c, files, end) && pos < end
    requires Split(c.cap, pos).file in files && Split(c.cap, pos).local + len <= |files[Split(c.cap, pos).file]|
    ensures pos + len <= end < U64_LIMIT
  {
    LayoutEnd(c, files, end);
    if c.cap.Some? {
      PlaceInsideLayout(c, files, end, pos);
      var p, last := Split(c.cap, pos), LastFile(files.Keys);
      assert (p.file + 1) * c.cap.value == p.file * c.cap.value + c.cap.value;
    }
  }

  lemma BlockInsideFile(c: Config, files: Files, end: nat, pos: nat)
    ensures var o := ParseAt(c, files, end, pos);
      var p := Split(c.cap, pos);
      (o.Visit? || o.Overrun?) ==>
        && pos < end && p.file in files
        && p.local + HEADER_SIZE + o.size <= |files[p.file]|
        && (o.Overrun? ==> pos + HEADER_SIZE + o.size >= U64_LIMIT)
        && (o.Visit? ==> o.next == pos + HEADER_SIZE + o.size)
  {
  }

  lemma PlaceInsideLayout(c: Config, files: Files, end: nat, pos: nat)
    requires SoundLayout(c, files, end) && c.cap.Some? && pos < end && files != map[]
    ensures var p, last := Split(c.cap, pos), LastFile(files.Keys);
      && p.file <= last && p.file in files && last < U32_LIMIT
      && pos == p.file * c.cap.value + p.local
      && (p.file < last ==> (p.file + 1) * c.cap.value <= last * c.cap.value <= end)
  {
    LayoutEnd(c, files, end);
    var last := LastFile(files.Keys);
    FileOfOffset(pos, c.cap.value, last, |files[last]|);
  }

  /** The position at which a scan takes its last decision inside the data. */
  function Resting(c: Config, files: Files, end: nat, pos: nat): nat
    decreases end - pos
  {
    StepAdvances(c, files, end, pos);
    match ParseAt(c, files, end, pos)
    case Skip(next) => if next <= end then Resting(c, files, end, next) else pos
    case Visit(_, _, _, next) => Resting(c, files, end, next)
    case _ => pos
  }

  /** In multi-file mode a scan ends beyond the computed layout exactly when a stub
      shorter than a block header is left at the end of the last file: it is taken
      for a skipped tail. */
  lemma {:induction false} ScanOvershootsIff(c: Config, files: Files, end: nat, pos: nat)
    requires SoundLayout(c, files, end) && pos <= end
    ensures Walk(c, files, end, pos).next > end
       <==> c.cap.Some? && 0 < end - Resting(c, files, end, pos) < HEADER_SIZE
             && Walk(c, files, end, pos).error.None?
    decreases end - pos
  {
    StepAdvances(c, files, end, pos);
    VisitStaysInside(c, files, end, pos);
    if pos < end {
      assert files != map[];
      StubIsSkipped(c, files, end, pos);
    }
    match ParseAt(c, files, end, pos)
    case Stop =>
    case Fail(e) =>
    case Overrun(height, size, block) =>
    case Skip(next) =>
      if next <= end {
        ScanOvershootsIff(c, files, end, next);
      } else {
        assert ParseAt(c, files, end, next) == Stop;
      }
    case Visit(height, size, block, next) => ScanOvershootsIff(c, files, end, next);
  }

  lemma StubIsSkipped(c: Config, files: Files, end: nat, pos: nat)
    requires SoundLayout(c, files, end) && pos < end && files != map[]
    ensures c.cap.Some? && end - pos < HEADER_SIZE ==>
      ParseAt(c, files, end, pos).Skip? || ParseAt(c, files, end, pos).Fail?
    ensures var o := ParseAt(c, files, end, pos);
      o.Skip? && o.next > end ==> c.cap.Some? && end - pos < HEADER_SIZE
  {
    if c.cap.Some? {
      LayoutEnd(c, files, end);
      PlaceInsideLayout(c, files, end, pos);
    }
  }
}
