/** The recovery scan in terms of the bytes it meets: which bytes it indexes, which ones
    end it, and which ones make recovery give up. */
module ScanOutcomes {
  import opened Bytes
  import opened Results
  import opened BlockFormat
  import opened FileSet
  import opened IndexFile
  import opened BlockIo
  import opened Scan
  import opened Log
  import opened History
  import RefusedOpens

  // ---------------------------------------------------------------- what stands at a position

  /** A whole block of a height that the store tracks. */
  ghost predicate FrameAt(c: Config, files: Files, pos: nat, height: nat, size: nat, block: seq<Byte>) {
    && BlockAt(c, files, pos, size, block)
    && var s := Span(c.cap, files, pos, 22 + size).value;
    && Word64(s, 0) == height && Word16(s, 20) == 1 && c.minHeight <= height
  }

  /** A whole block header that the scan refuses, for its own fields or for the payload
      behind it: cut off, not decodable, or with another hash. */
  ghost predicate RefusedAt(c: Config, files: Files, pos: nat) {
    var h := Span(c.cap, files, pos, 22);
    && h.Some?
    && var size := Word32(h.value, 8);
       || Word64(h.value, 0) < c.minHeight
       || size == 0 || size > 0x4000_0000
       || Word16(h.value, 20) != 1
       || PayloadRefused(c, Span(c.cap, files, pos, 22 + size), Word64(h.value, 12))
  }

  predicate PayloadRefused(c: Config, s: Option<seq<Byte>>, checksum: nat)
    requires s.Some? ==> |s.value| >= 22
  {
    || s.None?
    || c.codec.decompress(s.value[22..]) == None
    || c.codec.hash(c.codec.decompress(s.value[22..]).value) != checksum
  }

  /** The file ends before a block header would. */
  predicate StubAt(c: Config, files: Files, pos: nat) {
    FileIndex(c.cap, pos) in files && LocalOffset(c.cap, pos) + 22 > |files[FileIndex(c.cap, pos)]|
  }

  /** The start of the next file, if there can be one. */
  predicate NextFileAt(c: Config, pos: nat, next: nat) {
    && c.cap.Some?
    && FileIndex(c.cap, pos) + 1 < 0x1_0000_0000
    && next == (FileIndex(c.cap, pos) + 1) * c.cap.value < 0x1_0000_0000_0000_0000
  }

  /** An index entry for the height has an offset below 2^64. */
  predicate HasSlot(c: Config, height: nat) {
    c.minHeight <= height && 64 + 16 * (height - c.minHeight) < 0x1_0000_0000_0000_0000
  }

  /** The header and the payload of the parse step are those of the bytes. */
  lemma HeaderOfSpan(c: Config, files: Files, pos: nat)
    requires Span(c.cap, files, pos, 22).Some?
    ensures var s, h := Span(c.cap, files, pos, 22).value, Deserialize(Span(c.cap, files, pos, 22).value);
      && h.Ok? && h.value.height == Word64(s, 0) && h.value.size == Word32(s, 8)
      && h.value.checksum == Word64(s, 12) && h.value.version == Word16(s, 20)
  {
    var s := Span(c.cap, files, pos, 22).value;
    HeaderLayout(s, Deserialize(s).value);
    hide FromLe, Word64, Word32, Word16, Span;
  }

  /** The longer span starts with the header. */
  lemma SpanStarts(c: Config, files: Files, pos: nat, size: nat)
    requires Span(c.cap, files, pos, 22 + size).Some?
    ensures var s, h := Span(c.cap, files, pos, 22 + size).value, Span(c.cap, files, pos, 22);
      && h.Some? && s[..22] == h.value
      && Word64(s, 0) == Word64(h.value, 0) && Word32(s, 8) == Word32(h.value, 8)
      && Word64(s, 12) == Word64(h.value, 12) && Word16(s, 20) == Word16(h.value, 20)
  {
    var s := Span(c.cap, files, pos, 22 + size).value;
    WordsOfPrefix(s, 22);
    hide FileIndex, LocalOffset, Word64, Word32, Word16;
    assert s[..22] == Span(c.cap, files, pos, 22).value;
  }

  /** Behind a whole header there is a refused block or exactly one frame. */
  lemma FrameOrRefused(c: Config, files: Files, pos: nat)
    requires Span(c.cap, files, pos, 22).Some?
    ensures var h := Span(c.cap, files, pos, 22).value;
      var s := Span(c.cap, files, pos, 22 + Word32(h, 8));
      && (RefusedAt(c, files, pos) ==>
            forall height, size, block :: !FrameAt(c, files, pos, height, size, block))
      && (!RefusedAt(c, files, pos) ==>
            && s.Some? && c.codec.decompress(s.value[22..]).Some?
            && forall height, size, block :: FrameAt(c, files, pos, height, size, block) <==>
                 height == Word64(h, 0) && size == Word32(h, 8) && Some(block) == c.codec.decompress(s.value[22..]))
  {
    var h := Span(c.cap, files, pos, 22).value;
    var s := Span(c.cap, files, pos, 22 + Word32(h, 8));
    if s.Some? {
      SpanStarts(c, files, pos, Word32(h, 8));
    }
    forall height, size, block | FrameAt(c, files, pos, height, size, block)
      ensures height == Word64(h, 0) && size == Word32(h, 8) && Some(block) == c.codec.decompress(s.value[22..])
      ensures !RefusedAt(c, files, pos)
    {
      SpanStarts(c, files, pos, size);
      hide Span, Word64, Word32, Word16;
    }
    hide Span, Word64, Word32, Word16;
  }

  /** The parse step behind a whole header, by its bytes. */
  lemma ParseHeader(c: Config, files: Files, end: nat, pos: nat)
    requires pos < end && Span(c.cap, files, pos, 22).Some?
    ensures var h := Span(c.cap, files, pos, 22).value;
      var s := Span(c.cap, files, pos, 22 + Word32(h, 8));
      var o := ParseAt(c, files, end, pos);
      && (RefusedAt(c, files, pos) ==> o == Stop)
      && (!RefusedAt(c, files, pos) ==>
            && s.Some? && c.codec.decompress(s.value[22..]).Some?
            && var height, size, block := Word64(h, 0), Word32(h, 8), c.codec.decompress(s.value[22..]).value;
            o == if !HasSlot(c, height) then Fail(InvalidHeight)
                 else if pos + 22 + size >= 0x1_0000_0000_0000_0000 then Overrun(height, size, block)
                 else Visit(height, size, block, pos + 22 + size))
  {
    SplitIs(c.cap, pos);
    HeaderOfSpan(c, files, pos);
    var f, at := FileIndex(c.cap, pos), LocalOffset(c.cap, pos);
    var size := Word32(Span(c.cap, files, pos, 22).value, 8);
    if at + 22 + size <= |files[f]| {
      SliceOfSlice(files[f], at, at + 22 + size, 22, 22 + size);
    }
    hide FileIndex, LocalOffset, Split, FromLe, Word64, Word32, Word16, Deserialize;
  }

  /** One step of the scan, for every position and every content of the files. It indexes
      exactly the whole blocks; it moves on to the next file exactly at a stub; it fails
      exactly at a whole block whose height has no slot, at a block that ends beyond 2^64,
      and at a stub behind which no file can follow; and it stops everywhere else. */
  lemma StepOutcome(c: Config, files: Files, end: nat, pos: nat)
    ensures var o := ParseAt(c, files, end, pos);
      && (o.Stop? <==> pos >= end || FileIndex(c.cap, pos) !in files || (StubAt(c, files, pos) && c.cap.None?)
                       || RefusedAt(c, files, pos))
      && (forall height, size, block :: o == Visit(height, size, block, pos + 22 + size) <==>
            FrameAt(c, files, pos, height, size, block) && pos < end && HasSlot(c, height)
            && pos + 22 + size < 0x1_0000_0000_0000_0000)
      && (o.Visit? ==> o.next == pos + 22 + o.size)
      && (forall height, size, block :: o == Overrun(height, size, block) <==>
            FrameAt(c, files, pos, height, size, block) && pos < end && HasSlot(c, height)
            && pos + 22 + size >= 0x1_0000_0000_0000_0000)
      && (forall next :: o == Outcome.Skip(next) <==> NextFileAt(c, pos, next) && pos < end && StubAt(c, files, pos))
      && (o == Fail(InvalidHeight) <==>
            pos < end && exists height, size, block :: FrameAt(c, files, pos, height, size, block) && !HasSlot(c, height))
      && (o == Fail(OffsetOverflow) <==>
            pos < end && StubAt(c, files, pos) && c.cap.Some? && !exists next :: NextFileAt(c, pos, next))
      && (o.Fail? ==> o.error == InvalidHeight || o.error == OffsetOverflow)
  {
    if pos < end && Span(c.cap, files, pos, 22).Some? {
      WholeHeader(c, files, end, pos);
    } else {
      NoHeader(c, files, end, pos);
    }
  }

  lemma WholeHeader(c: Config, files: Files, end: nat, pos: nat)
    requires pos < end && Span(c.cap, files, pos, 22).Some?
    ensures FileIndex(c.cap, pos) in files && !StubAt(c, files, pos)
    ensures var o := ParseAt(c, files, end, pos);
      && (o.Stop? <==> RefusedAt(c, files, pos)) && !o.Skip?
      && (forall height, size, block :: o == Visit(height, size, block, pos + 22 + size) <==>
            FrameAt(c, files, pos, height, size, block) && HasSlot(c, height)
            && pos + 22 + size < 0x1_0000_0000_0000_0000)
      && (o.Visit? ==> o.next == pos + 22 + o.size)
      && (forall height, size, block :: o == Overrun(height, size, block) <==>
            FrameAt(c, files, pos, height, size, block) && HasSlot(c, height)
            && pos + 22 + size >= 0x1_0000_0000_0000_0000)
      && (o.Fail? <==> exists height, size, block :: FrameAt(c, files, pos, height, size, block) && !HasSlot(c, height))
      && (o.Fail? ==> o.error == InvalidHeight)
  {
    ParseHeader(c, files, end, pos);
    FrameOrRefused(c, files, pos);
    var h := Span(c.cap, files, pos, 22).value;
    var s := Span(c.cap, files, pos, 22 + Word32(h, 8));
    assert FileIndex(c.cap, pos) in files && !StubAt(c, files, pos);
    hide FrameAt, RefusedAt, ParseAt, HasSlot, Span, Word64, Word32;
    if !RefusedAt(c, files, pos) {
      assert FrameAt(c, files, pos, Word64(h, 0), Word32(h, 8), c.codec.decompress(s.value[22..]).value);
    }
  }

  lemma NoHeader(c: Config, files: Files, end: nat, pos: nat)
    requires pos >= end || Span(c.cap, files, pos, 22).None?
    ensures Span(c.cap, files, pos, 22).None? ==>
      !RefusedAt(c, files, pos) && forall height, size, block :: !FrameAt(c, files, pos, height, size, block)
    ensures var o := ParseAt(c, files, end, pos);
      && (o.Stop? <==> pos >= end || FileIndex(c.cap, pos) !in files || (StubAt(c, files, pos) && c.cap.None?))
      && (forall next :: o == Outcome.Skip(next) <==> NextFileAt(c, pos, next) && pos < end && StubAt(c, files, pos))
      && (o.Fail? <==> pos < end && StubAt(c, files, pos) && c.cap.Some? && !exists next :: NextFileAt(c, pos, next))
      && !o.Visit? && !o.Overrun? && (o.Fail? ==> o.error == OffsetOverflow)
  {
    SplitIs(c.cap, pos);
    forall height, size, block | FrameAt(c, files, pos, height, size, block)
      ensures Span(c.cap, files, pos, 22).Some?
    {
      SpanStarts(c, files, pos, size);
    }
    hide FrameAt;
    var next := if c.cap.Some? then (FileIndex(c.cap, pos) + 1) * c.cap.value else 0;
    hide FileIndex, LocalOffset, Split;
    assert NextFileAt(c, pos, next) || forall n :: !NextFileAt(c, pos, n);
  }

  // ---------------------------------------------------------------- whole scans

  /** The scan goes on from `a` to `b`: over a whole block, or over a stub. */
  ghost predicate GoesOn(c: Config, files: Files, end: nat, a: nat, b: nat) {
    a < end && ((NextFileAt(c, a, b) && StubAt(c, files, a)) || BlockEndsAt(c, files, a, b))
  }

  ghost predicate BlockEndsAt(c: Config, files: Files, a: nat, b: nat) {
    && b < 0x1_0000_0000_0000_0000
    && exists height, size, block :: FrameAt(c, files, a, height, size, block) && HasSlot(c, height) && b == a + 22 + size
  }

  /** The bytes that make recovery give up: a whole block without a slot for its height, or
      one that ends beyond 2^64, or a stub that no file can follow. */
  ghost predicate FailsAt(c: Config, files: Files, end: nat, a: nat) {
    && a < end
    && (|| (StubAt(c, files, a) && c.cap.Some? && !exists b :: NextFileAt(c, a, b))
        || exists height, size, block :: FrameAt(c, files, a, height, size, block)
             && (!HasSlot(c, height) || a + 22 + size >= 0x1_0000_0000_0000_0000))
  }

  lemma StepGoesOn(c: Config, files: Files, end: nat, a: nat)
    ensures var o := ParseAt(c, files, end, a);
      && (forall b :: GoesOn(c, files, end, a, b) <==> (o.Visit? || o.Skip?) && o.next == b)
      && (FailsAt(c, files, end, a) <==> o.Fail? || o.Overrun?)
  {
    StepOutcome(c, files, end, a);
    var o := ParseAt(c, files, end, a);
    hide ParseAt, FrameAt, StubAt, NextFileAt, HasSlot, RefusedAt, FileIndex;
    if o.Visit? {
      assert FrameAt(c, files, a, o.height, o.size, o.block);
    } else if o.Overrun? {
      assert FrameAt(c, files, a, o.height, o.size, o.block);
    } else if o.Skip? {
      assert NextFileAt(c, a, o.next);
    }
    assert FailsAt(c, files, end, a) ==> o.Fail? || o.Overrun?;
    forall b | GoesOn(c, files, end, a, b)
      ensures (o.Visit? || o.Skip?) && o.next == b
    {
      if NextFileAt(c, a, b) && StubAt(c, files, a) {
        assert o == Outcome.Skip(b);
      } else {
        var height, size, block :|
          FrameAt(c, files, a, height, size, block) && HasSlot(c, height) && b == a + 22 + size;
        assert o == Visit(height, size, block, a + 22 + size);
      }
    }
  }

  /** A way of the scan from `pos` to bytes on which it fails. */
  ghost predicate FailingWay(c: Config, files: Files, end: nat, pos: nat, way: seq<nat>) {
    && way != [] && way[0] == pos
    && (forall i :: 0 <= i < |way| - 1 ==> GoesOn(c, files, end, way[i], way[i + 1]))
    && FailsAt(c, files, end, way[|way| - 1])
  }

  lemma {:induction false} FailureHasWay(c: Config, files: Files, end: nat, pos: nat) returns (way: seq<nat>)
    requires Walk(c, files, end, pos).error.Some?
    ensures FailingWay(c, files, end, pos, way)
    decreases end - pos
  {
    StepAdvances(c, files, end, pos);
    StepGoesOn(c, files, end, pos);
    var o := ParseAt(c, files, end, pos);
    hide ParseAt, GoesOn, FailsAt;
    if o.Visit? || o.Skip? {
      var rest := FailureHasWay(c, files, end, o.next);
      way := [pos] + rest;
      assert way[|way| - 1] == rest[|rest| - 1];
      assert forall i :: 0 < i < |way| - 1 ==> way[i] == rest[i - 1] && way[i + 1] == rest[i];
    } else {
      way := [pos];
    }
  }

  lemma {:induction false} WayFails(c: Config, files: Files, end: nat, pos: nat, way: seq<nat>)
    requires FailingWay(c, files, end, pos, way)
    ensures Walk(c, files, end, pos).error.Some?
    decreases |way|
  {
    StepAdvances(c, files, end, pos);
    StepGoesOn(c, files, end, pos);
    hide ParseAt, GoesOn, FailsAt;
    if |way| > 1 {
      assert GoesOn(c, files, end, way[0], way[0 + 1]);
      WayFails(c, files, end, way[1], way[1..]);
    }
  }

  /** Where the data files end, if they are numbered without a gap. */
  ghost predicate DataEndsAt(c: Config, files: Files, end: nat) {
    (files == map[] && end == 0) || exists last :: LaidOutTo(c.cap, Sizes(files), last, end)
  }

  /** Recovery succeeds exactly when the data files are numbered without a gap, they reach
      the persisted offset, and no way of the scan from there leads to failing bytes. In
      particular no damage to a block makes it fail by itself. */
  lemma RecoverIff(c: Config, files: Files, ix: Index)
    requires ix.header.minHeight == c.minHeight
    requires ix.header.maxHeight < c.minHeight || HasSlot(c, ix.header.maxHeight)
    ensures Recover(c, files, ix).Ok? <==>
      exists end :: DataEndsAt(c, files, end) && ix.header.nextWriteOffset <= end
                    && !exists way :: FailingWay(c, files, end, ix.header.nextWriteOffset, way)
  {
    RecoverOkIff(c, files, ix);
    hide Recover, FailingWay, LaidOutTo, ValidateLayout, Walk;
    var start := ix.header.nextWriteOffset;
    forall end: nat
      ensures ValidateLayout(c.cap, Sizes(files)) == Ok(end) <==> DataEndsAt(c, files, end)
      ensures Walk(c, files, end, start).error.Some? <==> exists way :: FailingWay(c, files, end, start, way)
    {
      LayoutOf(c, files, end);
      if Walk(c, files, end, start).error.Some? {
        var way := FailureHasWay(c, files, end, start);
      }
      if way :| FailingWay(c, files, end, start, way) {
        WayFails(c, files, end, start, way);
      }
    }
  }

  lemma LayoutOf(c: Config, files: Files, end: nat)
    ensures ValidateLayout(c.cap, Sizes(files)) == Ok(end) <==> DataEndsAt(c, files, end)
  {
    LayoutIff(c.cap, Sizes(files), end);
    assert Sizes(files) == map[] <==> files == map[] by {
      assert Sizes(files).Keys == files.Keys;
    }
    hide ValidateLayout, LaidOutTo, Sizes;
  }

  // ---------------------------------------------------------------- damage behind a log

  /** A log on disk, and behind it a refused header: the payload is cut off, does not
      decode or has another hash, or the header's own fields are refused. Whatever follows
      that header, in this file and in later ones. */
  ghost predicate DamagedBehind(c: Config, files: Files, log: seq<Seen>, end: nat) {
    && OnDisk(c, files, log) && DataEndsAt(c, files, end) && EndAt(log, |log|) <= end
    && RefusedAt(c, files, EndAt(log, |log|))
  }

  lemma DamageStopsWalk(c: Config, files: Files, log: seq<Seen>, end: nat)
    requires DamagedBehind(c, files, log, end)
    ensures Recoverable(c, files, log, end, EndAt(log, |log|))
  {
    var at := EndAt(log, |log|);
    hide OnDisk, DataEndsAt, RefusedAt, EndAt;
    StepOutcome(c, files, end, at);
    WalkStops(c, files, end, at);
    LayoutOf(c, files, end);
  }

  /** A damaged block ends the log and does not keep the store from opening. From any
      block boundary, and with any entries in the index file, recovery succeeds, ends in
      front of the damage, and every block in between is readable; with an index that any
      kill could have left, the store then holds exactly the log. */
  lemma DamageEndsTheLog(c: Config, files: Files, ix: Index, log: seq<Seen>, k: nat, end: nat)
    requires c.codec.Valid() && c.minHeight >= 1 && DamagedBehind(c, files, log, end)
    requires ix.header.minHeight == c.minHeight && k <= |log| && ix.header.nextWriteOffset == EndAt(log, k)
    requires ix.header.maxHeight < c.minHeight || HasSlot(c, ix.header.maxHeight)
    ensures Recover(c, files, ix).Ok? && Recover(c, files, ix).value.next == EndAt(log, |log|)
    ensures forall h :: Logged(log[k..], h) ==>
      ReadBlock(c, files, Recover(c, files, ix).value.index.slots, h) == Ok(LastBlock(log[k..], h))
    ensures HeaderDescribes(c, ix.header, log, k) && IndexUpTo(c, ix.slots, log, k) ==>
      Represents(c, files, Recover(c, files, ix).value, log)
  {
    hide *;
    var at := EndAt(log, |log|);
    DamageStopsWalk(c, files, log, end);
    RecoverableFacts(c, files, log, end, at);
    ScanVisitsLog(c, files, end, log, k);
    assert log[k..] + [] == log[k..];
    EndsIncrease(c, log, k, |log|);
    SlotOrNone(c, ix.header.maxHeight);
    RecoverOkIff(c, files, ix);
    RefusedOpens.RecoverMeans(c, files, end, ix);
    RunFollowsWalk(c, files, end, ix, EndAt(log, k), ix.header.maxHeight, EndAt(log, k));
    RunOnIs(c, files, end, ix);
    ScanIsSound(c, files, end, ix);
    forall h | Logged(log[k..], h)
      ensures ReadBlock(c, files, Recover(c, files, ix).value.index.slots, h) == Ok(LastBlock(log[k..], h))
    {
      var i := LastVisitOf(log[k..], h);
    }
    if HeaderDescribes(c, ix.header, log, k) && IndexUpTo(c, ix.slots, log, k) {
      RecoversLog(c, files, ix, log, k, end, at);
    }
  }

  lemma LastVisitOf(log: seq<Seen>, h: nat) returns (i: nat)
    requires Logged(log, h)
    ensures i < |log| && IsLastVisit(log, i) && log[i].height == h && LastBlock(log, h) == Some(log[i].block)
  {
    LastBlockAt(log, h);
    hide LastBlock;
    i :| IsLastVisit(log, i) && log[i].height == h && LastBlock(log, h) == Some(log[i].block);
  }

  lemma RecoverableFacts(c: Config, files: Files, log: seq<Seen>, end: nat, next: nat)
    requires Recoverable(c, files, log, end, next)
    ensures OnDisk(c, files, log) && Laid(c, log) && ValidateLayout(c.cap, Sizes(files)) == Ok(end)
    ensures EndAt(log, |log|) <= end && Walk(c, files, end, EndAt(log, |log|)) == Trail([], next, None)
  {
    hide LaidAt, FrameOnDisk, TailClosed, Walk, ValidateLayout;
  }

  lemma SlotOrNone(c: Config, height: nat)
    ensures HasSlot(c, height) <==> Addressable(c.minHeight, height)
  {
  }
}
