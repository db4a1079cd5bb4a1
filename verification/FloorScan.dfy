/** The contiguity floor: its definition, the resumable computation that recovery
    uses, and the chunked scan of the index file that performs it. */
module FloorScan {
  import opened Bytes
  import opened Results
  import opened IndexFile

  const CHUNK_ENTRIES: nat := 4096

  /** `f` is the largest height up to `bound` below which nothing is missing,
      or one less than the lowest height if that one is missing already. */
  predicate IsContiguousFloor(ix: Index, bound: nat, f: nat) {
    && ix.header.minHeight <= f + 1
    && (f < ix.header.minHeight || f <= bound)
    && (forall h :: ix.header.minHeight <= h <= f ==> PopulatedAt(ix, h))
    && (f < bound && ix.header.minHeight <= bound ==> !PopulatedAt(ix, f + 1))
  }

  lemma FloorIsUnique(ix: Index, bound: nat, f: nat, g: nat)
    requires ix.header.minHeight >= 1
    requires IsContiguousFloor(ix, bound, f) && IsContiguousFloor(ix, bound, g)
    ensures f == g
  {
  }

  /** The end of the run of populated heights that starts right above `f`. */
  function FloorFrom(ix: Index, f: nat, bound: nat): nat
    decreases bound - f
  {
    if f < bound && PopulatedAt(ix, f + 1) then FloorFrom(ix, f + 1, bound) else f
  }

  /** Where the scan starts: the persisted floor, clamped to what can be known. */
  function StartFloor(ix: Index, resume: nat, bound: nat): nat {
    var empty := if ix.header.minHeight == 0 then 0 else ix.header.minHeight - 1;
    var from := Max(resume, empty);
    if bound < ix.header.minHeight then empty else if from < bound then from else bound
  }

  /** What the scan returns; the one error is a resume point that no offset reaches. */
  function ScanFloor(ix: Index, resume: nat, bound: nat): Result<nat> {
    var start := StartFloor(ix, resume, bound);
    if bound < ix.header.minHeight || start >= bound then Ok(start)
    else if !Addressable(ix.header.minHeight, start + 1) then Err(OffsetOverflow)
    else Ok(FloorFrom(ix, start, bound))
  }

  lemma {:induction false} FloorFromSpec(ix: Index, f: nat, bound: nat)
    ensures var g := FloorFrom(ix, f, bound);
      && f <= g <= Max(f, bound)
      && (forall h :: f < h <= g ==> PopulatedAt(ix, h))
      && (g < bound ==> !PopulatedAt(ix, g + 1))
    decreases bound - f
  {
    if f < bound && PopulatedAt(ix, f + 1) {
      FloorFromSpec(ix, f + 1, bound);
    }
  }

  lemma FloorStopsAtEnd(ix: Index, f: nat, bound: nat)
    requires ix.header.minHeight + |ix.slots| <= f + 1
    ensures FloorFrom(ix, f, bound) == f
  {
  }

  lemma {:induction false} FloorFromReaches(ix: Index, f: nat, bound: nat, g: nat)
    requires f <= g <= bound
    requires forall h :: f < h <= g ==> PopulatedAt(ix, h)
    requires g < bound ==> !PopulatedAt(ix, g + 1)
    ensures FloorFrom(ix, f, bound) == g
    decreases g - f
  {
    if f == g {
    } else {
      assert PopulatedAt(ix, f + 1);
      FloorFromReaches(ix, f + 1, bound, g);
    }
  }

  /** Resuming gives the true floor for a sound resume point, and only then. */
  lemma ResumeIsExactIff(ix: Index, resume: nat, bound: nat)
    requires ix.header.minHeight >= 1 && ScanFloor(ix, resume, bound).Ok?
    ensures IsContiguousFloor(ix, bound, ScanFloor(ix, resume, bound).value)
       <==> (forall h :: ix.header.minHeight <= h <= resume && h <= bound ==> PopulatedAt(ix, h))
  {
    var start := StartFloor(ix, resume, bound);
    var f := ScanFloor(ix, resume, bound).value;
    if ix.header.minHeight <= bound && start < bound {
      FloorFromSpec(ix, start, bound);
    }
  }

  /** The scan for every resume point, sound or not: it starts at the resume point, but
      not below the lowest height and not above the highwater, and ends at the first gap
      above; it fails only if no index entry can exist right behind its start. */
  lemma ScanFloorIs(ix: Index, resume: nat, bound: nat)
    ensures var r, low := ScanFloor(ix, resume, bound), ix.header.minHeight;
      var start := if resume + 1 < low then low - 1 else resume;
      && (bound < low ==> r == Ok(low - 1))
      && (low <= bound <= start ==> r == Ok(bound))
      && (low <= bound && start < bound ==>
            && (r == Err(OffsetOverflow) <==> 64 + 16 * (start + 1 - low) >= 0x1_0000_0000_0000_0000)
            && (r.Err? ==> r.error == OffsetOverflow)
            && (r.Ok? ==>
                  && start <= r.value <= bound
                  && (forall h :: start < h <= r.value ==> PopulatedAt(ix, h))
                  && (r.value < bound ==> !PopulatedAt(ix, r.value + 1))))
  {
    var start := StartFloor(ix, resume, bound);
    FloorFromSpec(ix, start, bound);
  }

  /** A positional read fills its buffer up to the end of the file. */
  function ReadAt(file: seq<Byte>, off: nat, n: nat): (s: seq<Byte>)
    ensures |s| <= n
  {
    if off >= |file| then [] else if off + n <= |file| then file[off..off + n] else file[off..]
  }

  ghost predicate Describes(ix: Index, file: seq<Byte>, minHeight: nat) {
    && file == Encode(ix)
    && minHeight == ix.header.minHeight
    && (forall e :: e in ix.slots ==> e.Fits())
    && |file| < U64_LIMIT
  }

  /** The chunk's `i`-th entry is the entry of height `height + i`. */
  ghost predicate ChunkHolds(ix: Index, chunk: seq<Byte>, height: nat, n: nat) {
    && |chunk| == n * 16
    && forall i {:trigger chunk[16 * i..16 * (i + 1)]} :: 0 <= i < n ==>
         DecodeEntry(chunk[16 * i..16 * (i + 1)]) == Lookup(ix, height + i)
  }

  function ChunkAt(file: seq<Byte>, minHeight: nat, height: nat): (chunk: seq<Byte>)
    requires minHeight <= height
    ensures |chunk| <= 65536
    ensures |chunk| > 0 ==> (height - minHeight) * 16 < |file|
  {
    ReadAt(file, INDEX_HEADER_SIZE + (height - minHeight) * 16, 65536)
  }

  /** What one chunk read of a well-formed index file contains. */
  lemma ChunkEntries(ix: Index, file: seq<Byte>, minHeight: nat, height: nat)
    requires Describes(ix, file, minHeight) && minHeight <= height
    ensures var n := if |ix.slots| <= height - minHeight then 0
                     else if |ix.slots| < height - minHeight + CHUNK_ENTRIES then |ix.slots| - (height - minHeight)
                     else CHUNK_ENTRIES;
      && ChunkHolds(ix, ChunkAt(file, minHeight, height), height, n)
      && (n > 0 ==> Addressable(minHeight, height + n) && Addressable(minHeight, height))
      && (n < CHUNK_ENTRIES ==> minHeight + |ix.slots| <= height + n)
  {
    var relative := height - minHeight;
    var chunk := ChunkAt(file, minHeight, height);
    var from := INDEX_HEADER_SIZE + 16 * relative;
    assert |chunk| > 0 ==> chunk == file[from..from + |chunk|];
    assert |file| == INDEX_HEADER_SIZE + 16 * |ix.slots|;
    forall i {:trigger chunk[16 * i..16 * (i + 1)]} | 0 <= i < |chunk| / 16
      ensures DecodeEntry(chunk[16 * i..16 * (i + 1)]) == Lookup(ix, height + i)
    {
      ChunkEntry(ix, chunk, from, relative, i);
    }
  }

  lemma ChunkEntry(ix: Index, chunk: seq<Byte>, from: nat, relative: nat, i: nat)
    requires from == INDEX_HEADER_SIZE + 16 * relative && 16 * (i + 1) <= |chunk|
    requires from + |chunk| <= |Encode(ix)| && chunk == Encode(ix)[from..from + |chunk|]
    requires relative + i < |ix.slots| && ix.slots[relative + i].Fits()
    ensures DecodeEntry(chunk[16 * i..16 * (i + 1)]) == ix.slots[relative + i]
  {
    hide Encode;
    hide DecodeEntry;
    hide EntryBytes;
    EntryReadOnDisk(ix, relative + i);
    EntryRoundTrip(ix.slots[relative + i]);
    SliceOfSlice(Encode(ix), from, from + |chunk|, 16 * i, 16 * (i + 1));
  }

  lemma ScanFloorCases(ix: Index, file: seq<Byte>, minHeight: nat, resume: nat, bound: nat)
    ensures Describes(ix, file, minHeight) ==>
      var empty := if minHeight == 0 then 0 else minHeight - 1;
      var start := if resume < empty then empty else resume;
      && minHeight == ix.header.minHeight
      && ScanFloor(ix, resume, bound)
          == if bound < minHeight then Ok(empty)
             else if start >= bound then Ok(bound)
             else if !Addressable(minHeight, start + 1) then Err(OffsetOverflow)
             else Ok(FloorFrom(ix, start, bound))
  {
  }

  /** `scan_contiguous_floor` on the bytes of the index file, 4096 entries at a time. */
  method ScanContiguousFloor(file: seq<Byte>, minHeight: U64, heightHighwater: U64, resume: U64,
                             ghost ix: Index)
    returns (r: Result<nat>)
    ensures Describes(ix, file, minHeight) ==> r == ScanFloor(ix, resume, heightHighwater)
  {
    hide *;
    ScanFloorCases(ix, file, minHeight, resume, heightHighwater);
    var floorIfEmpty := if minHeight == 0 then 0 else minHeight - 1;
    if heightHighwater < minHeight {
      return Ok(floorIfEmpty);
    }
    var startFloor := if resume < floorIfEmpty then floorIfEmpty else resume;
    if startFloor >= heightHighwater {
      return Ok(heightHighwater);
    }
    ghost var good := Describes(ix, file, minHeight);
    ghost var target := FloorFrom(ix, startFloor, heightHighwater);
    var heightCursor := startFloor + 1;
    var lastPresent := startFloor;
    while true
      invariant minHeight <= heightCursor == lastPresent + 1
      invariant startFloor <= lastPresent <= heightHighwater
      invariant good ==> FloorFrom(ix, lastPresent, heightHighwater) == target
      invariant good && lastPresent > startFloor ==> Addressable(minHeight, heightCursor)
      invariant lastPresent > startFloor ==> Addressable(minHeight, startFloor + 1)
      decreases |file| - (heightCursor - minHeight) * 16
    {
      if !Addressable(minHeight, heightCursor) {
        return Err(OffsetOverflow);
      }
      var chunk := ChunkAt(file, minHeight, heightCursor);
      if good {
        ChunkSize(ix, file, minHeight, heightCursor);
      }
      if |chunk| == 0 {
        if good {
          FloorStopsAtEnd(ix, lastPresent, heightHighwater);
        }
        return Ok(lastPresent);
      }
      if |chunk| % 16 != 0 {
        return Err(PartialEntry);
      }
      var entriesRead := |chunk| / 16;
      var done;
      lastPresent, done := ScanChunk(chunk, entriesRead, heightCursor, heightHighwater, ix, good);
      if done {
        return Ok(lastPresent);
      }
      heightCursor := heightCursor + entriesRead;
      if entriesRead < CHUNK_ENTRIES {
        if good {
          FloorStopsAtEnd(ix, lastPresent, heightHighwater);
        }
        return Ok(lastPresent);
      }
    }
  }

  lemma ChunkSize(ix: Index, file: seq<Byte>, minHeight: nat, height: nat)
    requires Describes(ix, file, minHeight) && minHeight <= height
    ensures var chunk := ChunkAt(file, minHeight, height);
      && |chunk| % 16 == 0
      && ChunkHolds(ix, chunk, height, |chunk| / 16)
      && (|chunk| > 0 ==> Addressable(minHeight, height + |chunk| / 16) && Addressable(minHeight, height))
      && (|chunk| == 0 || |chunk| / 16 < CHUNK_ENTRIES ==> minHeight + |ix.slots| <= height + |chunk| / 16)
  {
    ChunkEntries(ix, file, minHeight, height);
  }

  /** The inner loop: the entries of one chunk, up to the first gap or the highwater. */
  method ScanChunk(chunk: seq<Byte>, entriesRead: nat, heightCursor: nat, heightHighwater: nat,
                   ghost ix: Index, ghost good: bool)
    returns (lastPresent: nat, done: bool)
    requires |chunk| == entriesRead * 16
    requires good ==> ix.header.minHeight <= heightCursor && ChunkHolds(ix, chunk, heightCursor, entriesRead)
    requires 0 < heightCursor <= heightHighwater + 1
    ensures heightCursor - 1 <= lastPresent <= heightHighwater
    ensures good ==> FloorFrom(ix, lastPresent, heightHighwater) == FloorFrom(ix, heightCursor - 1, heightHighwater)
    ensures good && done ==> FloorFrom(ix, lastPresent, heightHighwater) == lastPresent
    ensures !done ==> lastPresent + 1 == heightCursor + entriesRead
  {
    lastPresent := heightCursor - 1;
    var i := 0;
    while i < entriesRead
      invariant 0 <= i <= entriesRead
      invariant lastPresent + 1 == heightCursor + i
      invariant lastPresent <= heightHighwater
      invariant good ==> FloorFrom(ix, lastPresent, heightHighwater) == FloorFrom(ix, heightCursor - 1, heightHighwater)
    {
      var height := heightCursor + i;
      if height > heightHighwater {
        return lastPresent, true;
      }
      var entry := DecodeEntry(chunk[16 * i..16 * (i + 1)]);
      if entry.offset == 0 && entry.size == 0 {
        return lastPresent, true;
      }
      lastPresent := height;
      i := i + 1;
    }
    done := false;
  }
}
