/** Histories of written blocks: how the writer lays them out, and why the
    recovery scan reads exactly that history back. */
module Log {
  import opened Bytes
  import opened Results
  import opened BlockFormat
  import opened FileSet
  import opened IndexFile
  import opened BlockIo
  import opened Scan

  /** What `write_block` accepts, within the block size that reads accept. */
  ghost predicate Writable(c: Config, height: nat, block: seq<Byte>) {
    && block != [] && |block| < U32_LIMIT
    && |c.codec.compress(block)| <= MAX_BLOCK_SIZE
    && height < U64_LIMIT && Addressable(c.minHeight, height)
  }

  function FrameLen(v: Seen): nat {
    HEADER_SIZE + v.size
  }

  /** The allocator's position after the first `i` blocks. */
  function EndAt(log: seq<Seen>, i: nat): nat
    requires i <= |log|
  {
    if i == 0 then 0 else log[i - 1].offset + FrameLen(log[i - 1])
  }

  ghost predicate LaidAt(c: Config, v: Seen, from: nat) {
    && Writable(c, v.height, v.block)
    && v.size == |c.codec.compress(v.block)|
    && Reserve(c.cap, from, FrameLen(v)) == Ok(Reservation(v.offset, v.offset + FrameLen(v)))
    && InOneFile(c.cap, v.offset, FrameLen(v))
  }

  ghost predicate Laid(c: Config, log: seq<Seen>) {
    forall i :: 0 <= i < |log| ==> LaidAt(c, log[i], EndAt(log, i))
  }

  ghost predicate FrameOnDisk(c: Config, files: Files, v: Seen) {
    && v.height < U64_LIMIT && |c.codec.compress(v.block)| < U32_LIMIT
    && Holds(files, c.cap, v.offset, c.codec.Frame(v.height, v.block))
  }

  /** A file that the allocator has left holds nothing past that point. */
  predicate TailClosed(c: Config, files: Files, at: nat) {
    var p := Split(c.cap, at);
    p.file in files && |files[p.file]| <= p.local
  }

  /** Every block of the log is on disk where the allocator put it. */
  ghost predicate OnDisk(c: Config, files: Files, log: seq<Seen>) {
    && Laid(c, log)
    && (forall i :: 0 <= i < |log| ==> FrameOnDisk(c, files, log[i]))
    && (forall i :: 0 <= i < |log| && log[i].offset != EndAt(log, i) ==> TailClosed(c, files, EndAt(log, i)))
  }

  lemma LaidStep(c: Config, v: Seen, from: nat)
    requires LaidAt(c, v, from)
    ensures from <= v.offset && v.offset + FrameLen(v) < U64_LIMIT
  {
    ReserveFits(c.cap, from, FrameLen(v));
  }

  lemma OnDiskAt(c: Config, files: Files, log: seq<Seen>, i: nat)
    requires OnDisk(c, files, log)
    ensures Laid(c, log)
    ensures i < |log| ==>
      && LaidAt(c, log[i], EndAt(log, i))
      && FrameOnDisk(c, files, log[i])
      && (log[i].offset != EndAt(log, i) ==> TailClosed(c, files, EndAt(log, i)))
      && EndAt(log, i + 1) == log[i].offset + FrameLen(log[i])
  {
    hide LaidAt, FrameOnDisk, TailClosed;
  }

  lemma {:induction false} EndsIncrease(c: Config, log: seq<Seen>, i: nat, j: nat)
    requires Laid(c, log) && i <= j <= |log|
    ensures EndAt(log, i) <= EndAt(log, j)
    ensures i < j ==> EndAt(log, i) <= log[i].offset && log[i].offset + FrameLen(log[i]) <= EndAt(log, j)
    ensures 0 < j ==> EndAt(log, j) < U64_LIMIT
    decreases j - i
  {
    hide LaidAt;
    if 0 < j {
      assert LaidAt(c, log[j - 1], EndAt(log, j - 1));
      LaidStep(c, log[j - 1], EndAt(log, j - 1));
    }
    if i < j {
      EndsIncrease(c, log, i, j - 1);
    }
  }

  /** The scan recognises a block that was written in full. */
  lemma ParseWritten(c: Config, files: Files, end: nat, v: Seen)
    requires c.codec.Valid()
    requires Writable(c, v.height, v.block) && v.size == |c.codec.compress(v.block)|
    requires FrameOnDisk(c, files, v)
    requires v.offset + FrameLen(v) < U64_LIMIT && v.offset < end
    ensures ParseAt(c, files, end, v.offset) == Visit(v.height, v.size, v.block, v.offset + FrameLen(v))
  {
    var p := Split(c.cap, v.offset);
    var file := files[p.file];
    var frame := c.codec.Frame(v.height, v.block);
    var header := c.codec.HeaderFor(v.height, v.block);
    BlockFormat.HeaderRoundTrip(header);
    assert c.codec.compress(v.block) != [];
    SliceOfSlice(file, p.local, p.local + |frame|, 0, HEADER_SIZE);
    SliceOfSlice(file, p.local, p.local + |frame|, HEADER_SIZE, |frame|);
    assert file[p.local..p.local + HEADER_SIZE] == Serialize(header);
    assert file[p.local + HEADER_SIZE..p.local + HEADER_SIZE + v.size] == c.codec.compress(v.block);
    assert c.codec.decompress(c.codec.compress(v.block)) == Some(v.block);
  }

  /** The scan follows the allocator over a skipped tail. */
  lemma ParseSkippedTail(c: Config, files: Files, end: nat, v: Seen, from: nat)
    requires LaidAt(c, v, from) && v.offset != from
    requires TailClosed(c, files, from) && from < end
    ensures ParseAt(c, files, end, from) == Outcome.Skip(v.offset)
  {
    ReserveFits(c.cap, from, FrameLen(v));
  }

  /** One block further: over a skipped tail if there is one, then the block. */
  lemma ScanVisitsNext(c: Config, files: Files, end: nat, v: Seen, from: nat)
    requires c.codec.Valid() && LaidAt(c, v, from) && FrameOnDisk(c, files, v)
    requires v.offset != from ==> TailClosed(c, files, from)
    requires v.offset + FrameLen(v) <= end
    ensures var rest := Walk(c, files, end, v.offset + FrameLen(v));
      Walk(c, files, end, from) == rest.(visits := [v] + rest.visits)
  {
    hide *;
    LaidStep(c, v, from);
    LaidFacts(c, v, from);
    OffsetBeforeEnd(v, end);
    ParseWritten(c, files, end, v);
    WalkVisit(c, files, end, v, v.offset + FrameLen(v));
    if v.offset != from {
      ParseSkippedTail(c, files, end, v, from);
      WalkSkip(c, files, end, from, v.offset);
    }
  }

  lemma OffsetBeforeEnd(v: Seen, end: nat)
    requires v.offset + FrameLen(v) <= end
    ensures v.offset < end
  {
  }

  /** From any block boundary the scan visits the rest of the log, then whatever follows it. */
  lemma {:induction false} ScanVisitsLog(c: Config, files: Files, end: nat, log: seq<Seen>, k: nat)
    requires c.codec.Valid() && OnDisk(c, files, log) && k <= |log|
    requires EndAt(log, |log|) <= end
    ensures var tail := Walk(c, files, end, EndAt(log, |log|));
      Walk(c, files, end, EndAt(log, k)) == tail.(visits := log[k..] + tail.visits)
    decreases |log| - k
  {
    hide *;
    var tail := Walk(c, files, end, EndAt(log, |log|));
    if k == |log| {
      assert log[k..] + tail.visits == tail.visits;
    } else {
      OnDiskAt(c, files, log, k);
      EndsIncrease(c, log, k, |log|);
      ScanVisitsNext(c, files, end, log[k], EndAt(log, k));
      ScanVisitsLog(c, files, end, log, k + 1);
      assert [log[k]] + (log[k + 1..] + tail.visits) == log[k..] + tail.visits;
    }
  }

  // ---------------------------------------------------------------- files that hold the log and nothing else

  /** The files run from 0 to the one that holds the range, and end where it ends. */
  ghost predicate EndsWith(cap: Option<Pos>, files: Files, off: nat, len: nat) {
    var p := Split(cap, off);
    && (forall i :: i in files <==> 0 <= i <= p.file)
    && |files[p.file]| == p.local + len
  }

  ghost predicate WithinCap(cap: Option<Pos>, files: Files) {
    cap.Some? ==> forall i :: i in files ==> |files[i]| <= cap.value
  }

  ghost predicate Tight(c: Config, files: Files, log: seq<Seen>) {
    && OnDisk(c, files, log)
    && (log == [] ==> files == map[])
    && (log != [] ==> EndsWith(c.cap, files, log[|log| - 1].offset, FrameLen(log[|log| - 1])))
    && WithinCap(c.cap, files)
  }

  lemma TightAt(c: Config, files: Files, log: seq<Seen>)
    requires Tight(c, files, log)
    ensures OnDisk(c, files, log) && Laid(c, log) && WithinCap(c.cap, files)
    ensures log == [] ==> files == map[]
    ensures log != [] ==>
      var u := log[|log| - 1];
      && LaidAt(c, u, EndAt(log, |log| - 1))
      && EndAt(log, |log|) == u.offset + FrameLen(u)
      && EndsWith(c.cap, files, u.offset, FrameLen(u))
  {
    hide LaidAt, FrameOnDisk, TailClosed, EndsWith;
  }

  lemma LaidFacts(c: Config, v: Seen, from: nat)
    requires LaidAt(c, v, from)
    ensures Writable(c, v.height, v.block) && v.size == |c.codec.compress(v.block)|
    ensures v.height < U64_LIMIT && v.size <= MAX_BLOCK_SIZE < U32_LIMIT
    ensures Reserve(c.cap, from, FrameLen(v)) == Ok(Reservation(v.offset, v.offset + FrameLen(v)))
    ensures InOneFile(c.cap, v.offset, FrameLen(v))
    ensures FrameLen(v) > 0
  {
  }

  /** The file sizes alone tell where the log ends. */
  lemma TightLayout(c: Config, files: Files, log: seq<Seen>)
    requires Tight(c, files, log)
    ensures ValidateLayout(c.cap, Sizes(files)) == Ok(EndAt(log, |log|))
  {
    hide *;
    TightAt(c, files, log);
    if log == [] {
      EmptyLayout(c.cap);
      EmptyEnd();
    } else {
      var v := log[|log| - 1];
      LaidStep(c, v, EndAt(log, |log| - 1));
      LaidFacts(c, v, EndAt(log, |log| - 1));
      LayoutOfLastFile(c.cap, files, v.offset, FrameLen(v));
    }
  }

  lemma EmptyEnd()
    ensures EndAt([], 0) == 0
  {
  }

  lemma EmptyLayout(cap: Option<Pos>)
    ensures ValidateLayout(cap, Sizes(map[])) == Ok(0)
  {
  }

  lemma LayoutOfLastFile(cap: Option<Pos>, files: Files, off: nat, len: nat)
    requires InOneFile(cap, off, len) && off + len < U64_LIMIT
    requires EndsWith(cap, files, off, len)
    ensures ValidateLayout(cap, Sizes(files)) == Ok(off + len)
  {
    var p := Split(cap, off);
    assert p.file in Sizes(files);
    assert LastFile(Sizes(files).Keys) == p.file;
    if cap.Some? {
      assert off == (off / cap.value) * cap.value + off % cap.value;
    }
  }

  /** The scan inverts the writer: from any block boundary it yields the remaining
      blocks with their offsets and sizes, and stops where the allocator stands. */
  lemma ScanInvertsWriter(c: Config, files: Files, log: seq<Seen>, k: nat)
    requires c.codec.Valid() && Tight(c, files, log) && k <= |log|
    ensures ValidateLayout(c.cap, Sizes(files)) == Ok(EndAt(log, |log|))
    ensures Walk(c, files, EndAt(log, |log|), EndAt(log, k)) == Trail(log[k..], EndAt(log, |log|), None)
  {
    TightLayout(c, files, log);
    ScanVisitsLog(c, files, EndAt(log, |log|), log, k);
    assert log[k..] + [] == log[k..];
  }

  /** The next block starts exactly where its file ends, and its file is the last
      one or the one after it. */
  ghost predicate NextPlaceIs(c: Config, files: Files, end: nat, v: Seen) {
    var p := Split(c.cap, v.offset);
    && |FileAt(files, p.file)| == p.local
    && (p.local == 0 ==> forall i :: i in files <==> 0 <= i < p.file)
    && (p.local > 0 ==> forall i :: i in files <==> 0 <= i <= p.file)
    && (v.offset != end ==> TailClosed(c, files, end) && Split(c.cap, end).file < p.file)
  }

  lemma NextPlace(c: Config, files: Files, log: seq<Seen>, v: Seen)
    requires Tight(c, files, log) && LaidAt(c, v, EndAt(log, |log|))
    ensures NextPlaceIs(c, files, EndAt(log, |log|), v)
  {
    hide *;
    TightAt(c, files, log);
    LaidFacts(c, v, EndAt(log, |log|));
    if log == [] {
      EmptyEnd();
      FirstPlace(c, v);
    } else {
      var u := log[|log| - 1];
      LaidFacts(c, u, EndAt(log, |log| - 1));
      NextFile(c.cap, u.offset, FrameLen(u), v.offset, FrameLen(v));
      PlaceBehind(c, files, u, v);
    }
  }

  lemma FirstPlace(c: Config, v: Seen)
    requires Reserve(c.cap, 0, FrameLen(v)) == Ok(Reservation(v.offset, v.offset + FrameLen(v)))
    ensures NextPlaceIs(c, map[], 0, v)
  {
    ReserveFits(c.cap, 0, FrameLen(v));
  }

  lemma PlaceBehind(c: Config, files: Files, u: Seen, v: Seen)
    requires EndsWith(c.cap, files, u.offset, FrameLen(u))
    requires Behind(Split(c.cap, v.offset), Split(c.cap, u.offset), Split(c.cap, u.offset + FrameLen(u)),
                    FrameLen(u), v.offset != u.offset + FrameLen(u))
    ensures NextPlaceIs(c, files, u.offset + FrameLen(u), v)
  {
    hide Split;
  }

  /** How the place `p` of a block relates to the place `q` of the block before it,
      which is `len` long and ends at place `e`. */
  predicate Behind(p: Place, q: Place, e: Place, len: nat, skipped: bool) {
    && (p.local > 0 ==> p.file == q.file && p.local == q.local + len)
    && (p.local == 0 ==> p.file == q.file + 1)
    && (skipped ==> p.local == 0 && e == Place(q.file, q.local + len))
  }

  /** A reservation right behind a block continues its file or opens the next one. */
  lemma NextFile(cap: Option<Pos>, u: nat, uLen: nat, v: nat, vLen: nat)
    requires InOneFile(cap, u, uLen) && uLen > 0
    requires Reserve(cap, u + uLen, vLen) == Ok(Reservation(v, v + vLen))
    requires InOneFile(cap, v, vLen)
    ensures Behind(Split(cap, v), Split(cap, u), Split(cap, u + uLen), uLen, v != u + uLen)
  {
    ReserveFits(cap, u + uLen, vLen);
    if cap.Some? {
      EndInFile(cap.value, u, uLen);
    }
  }

  lemma EndInFile(cap: Pos, off: nat, len: nat)
    requires off % cap + len <= cap
    ensures off % cap + len < cap ==> (off + len) / cap == off / cap && (off + len) % cap == off % cap + len
    ensures off % cap + len == cap ==> (off + len) / cap == off / cap + 1 && (off + len) % cap == 0
  {
    assert off == (off / cap) * cap + off % cap;
    if off % cap + len < cap {
      DivUnique(off + len, cap, off / cap, off % cap + len);
    } else {
      assert (off / cap + 1) * cap == (off / cap) * cap + cap;
      DivUnique(off + len, cap, off / cap + 1, 0);
    }
  }

  function WriteFrame(c: Config, files: Files, v: Seen): Files
    requires v.height < U64_LIMIT && |c.codec.compress(v.block)| < U32_LIMIT
  {
    PlaceFrame(c, files, v.offset, v.height, v.block)
  }

  lemma FrameAppends(f: seq<Byte>, header: seq<Byte>, payload: seq<Byte>)
    requires |header| == HEADER_SIZE && payload != []
    ensures WriteAt(WriteAt(f, |f| + HEADER_SIZE, payload), |f|, header) == f + (header + payload)
  {
  }

  /** The two writes of a frame at the end of its file append the frame. */
  lemma WriteFrameAppends(c: Config, files: Files, v: Seen)
    requires c.codec.Valid() && Writable(c, v.height, v.block)
    requires |FileAt(files, Split(c.cap, v.offset).file)| == Split(c.cap, v.offset).local
    ensures var p := Split(c.cap, v.offset);
      var frame := c.codec.Frame(v.height, v.block);
      && WriteFrame(c, files, v) == files[p.file := FileAt(files, p.file) + frame]
      && FrameOnDisk(c, WriteFrame(c, files, v), v)
  {
    var p := Split(c.cap, v.offset);
    var payload := c.codec.compress(v.block);
    var header := Serialize(c.codec.HeaderFor(v.height, v.block));
    var frame := c.codec.Frame(v.height, v.block);
    assert payload != [];
    assert frame == header + payload;
    hide Serialize, WriteAt;
    FrameAppends(FileAt(files, p.file), header, payload);
    assert (FileAt(files, p.file) + frame)[p.local..p.local + |frame|] == frame;
  }

  lemma TightAppend(c: Config, files: Files, log: seq<Seen>, v: Seen)
    requires c.codec.Valid() && Tight(c, files, log) && LaidAt(c, v, EndAt(log, |log|))
    ensures Tight(c, WriteFrame(c, files, v), log + [v])
    ensures EndAt(log + [v], |log| + 1) == v.offset + FrameLen(v)
    ensures forall k :: 0 <= k <= |log| ==> EndAt(log + [v], k) == EndAt(log, k)
  {
    hide *;
    TightAt(c, files, log);
    LaidFacts(c, v, EndAt(log, |log|));
    NextPlace(c, files, log, v);
    PlaceAtEnd(c, files, EndAt(log, |log|), v);
    WriteFrameAppends(c, files, v);
    var after := WriteFrame(c, files, v);
    ShapeAfterAppend(c, files, EndAt(log, |log|), v, after);
    TailsStayClosed(c, files, log, v, after);
    LogExtends(c, files, after, log, v);
    TightIntro(c, after, log, v);
    EndsOfAppended(log, v);
  }

  lemma PlaceAtEnd(c: Config, files: Files, end: nat, v: Seen)
    requires NextPlaceIs(c, files, end, v)
    ensures |FileAt(files, Split(c.cap, v.offset).file)| == Split(c.cap, v.offset).local
  {
  }

  lemma ShapeAfterAppend(c: Config, files: Files, end: nat, v: Seen, after: Files)
    requires NextPlaceIs(c, files, end, v) && WithinCap(c.cap, files) && InOneFile(c.cap, v.offset, FrameLen(v))
    requires |c.codec.compress(v.block)| == v.size <= MAX_BLOCK_SIZE < U32_LIMIT && v.height < U64_LIMIT
    requires var p := Split(c.cap, v.offset);
      after == files[p.file := FileAt(files, p.file) + c.codec.Frame(v.height, v.block)]
    ensures EndsWith(c.cap, after, v.offset, FrameLen(v))
    ensures WithinCap(c.cap, after)
    ensures Grown(files, after)
    ensures forall i :: i in files && i != Split(c.cap, v.offset).file ==> i in after && after[i] == files[i]
  {
    assert c.cap.Some? ==> Split(c.cap, v.offset).local + FrameLen(v) <= c.cap.value;
    hide Split;
  }

  lemma TightIntro(c: Config, after: Files, log: seq<Seen>, v: Seen)
    requires OnDisk(c, after, log + [v]) && EndsWith(c.cap, after, v.offset, FrameLen(v)) && WithinCap(c.cap, after)
    ensures Tight(c, after, log + [v])
  {
    hide OnDisk, EndsWith, WithinCap;
  }

  lemma EndsOfAppended(log: seq<Seen>, v: Seen)
    ensures EndAt(log + [v], |log| + 1) == v.offset + FrameLen(v)
    ensures forall k :: 0 <= k <= |log| ==> EndAt(log + [v], k) == EndAt(log, k)
  {
  }

  /** A block at the end of the log reopens no tail that the log has left behind. */
  lemma TailsStayClosed(c: Config, files: Files, log: seq<Seen>, v: Seen, after: Files)
    requires Tight(c, files, log) && LaidAt(c, v, EndAt(log, |log|))
    requires forall i :: i in files && i != Split(c.cap, v.offset).file ==> i in after && after[i] == files[i]
    ensures forall i :: 0 <= i < |log| && log[i].offset != EndAt(log, i) ==> TailClosed(c, after, EndAt(log, i))
    ensures v.offset != EndAt(log, |log|) ==> TailClosed(c, after, EndAt(log, |log|))
  {
    forall i | 0 <= i <= |log| && (log + [v])[i].offset != EndAt(log, i)
      ensures TailClosed(c, after, EndAt(log, i))
    {
      TailBeforeLast(c, files, log, v, i);
    }
  }

  /** A skipped tail lies in an earlier file than the block that is written next. */
  lemma TailBeforeLast(c: Config, files: Files, log: seq<Seen>, v: Seen, i: nat)
    requires Tight(c, files, log) && LaidAt(c, v, EndAt(log, |log|))
    requires i <= |log| && (log + [v])[i].offset != EndAt(log, i)
    ensures TailClosed(c, files, EndAt(log, i))
    ensures Split(c.cap, EndAt(log, i)).file < Split(c.cap, v.offset).file
  {
    hide *;
    NextPlace(c, files, log, v);
    if i == |log| {
      TailOfNext(c, files, EndAt(log, i), v);
    } else {
      TightAt(c, files, log);
      OnDiskAt(c, files, log, i);
      LaidStep(c, v, EndAt(log, |log|));
      EndsIncrease(c, log, i, |log|);
      LaidFacts(c, log[i], EndAt(log, i));
      LaidFacts(c, v, EndAt(log, |log|));
      SkippedFile(c.cap, EndAt(log, i), log[i].offset, FrameLen(log[i]), v.offset, FrameLen(v));
    }
  }

  lemma TailOfNext(c: Config, files: Files, end: nat, v: Seen)
    requires NextPlaceIs(c, files, end, v) && v.offset != end
    ensures TailClosed(c, files, end) && Split(c.cap, end).file < Split(c.cap, v.offset).file
  {
  }

  lemma SkippedFile(cap: Option<Pos>, from: nat, u: nat, uLen: nat, v: nat, vLen: nat)
    requires Reserve(cap, from, uLen) == Ok(Reservation(u, u + uLen)) && u != from && u <= v
    requires InOneFile(cap, v, vLen)
    ensures Split(cap, from).file < Split(cap, v).file
  {
    ReserveFits(cap, from, uLen);
    DivMonotone(u, v, cap.value);
  }

  /** Appending to the end of one file keeps a log on disk and adds a block to it. */
  lemma LogExtends(c: Config, before: Files, after: Files, log: seq<Seen>, v: Seen)
    requires OnDisk(c, before, log) && LaidAt(c, v, EndAt(log, |log|))
    requires Grown(before, after)
    requires forall i :: 0 <= i < |log| && log[i].offset != EndAt(log, i) ==> TailClosed(c, after, EndAt(log, i))
    requires FrameOnDisk(c, after, v)
    requires v.offset != EndAt(log, |log|) ==> TailClosed(c, after, EndAt(log, |log|))
    ensures OnDisk(c, after, log + [v])
  {
    hide *;
    var all := log + [v];
    forall i | 0 <= i < |all|
      ensures LogEntryOnDisk(c, after, all, i)
    {
      EndOfPrefix(log, v, i);
      if i < |log| {
        OnDiskAt(c, before, log, i);
        FrameStays(c, before, after, log[i]);
      }
      LogEntryIntro(c, after, all, i);
    }
    OnDiskIntro(c, after, all);
  }

  ghost predicate LogEntryOnDisk(c: Config, files: Files, log: seq<Seen>, i: nat)
    requires i < |log|
  {
    && LaidAt(c, log[i], EndAt(log, i))
    && FrameOnDisk(c, files, log[i])
    && (log[i].offset != EndAt(log, i) ==> TailClosed(c, files, EndAt(log, i)))
  }

  lemma LogEntryIntro(c: Config, files: Files, log: seq<Seen>, i: nat)
    requires i < |log| && LaidAt(c, log[i], EndAt(log, i)) && FrameOnDisk(c, files, log[i])
    requires log[i].offset != EndAt(log, i) ==> TailClosed(c, files, EndAt(log, i))
    ensures LogEntryOnDisk(c, files, log, i)
  {
  }

  lemma OnDiskIntro(c: Config, files: Files, log: seq<Seen>)
    requires forall i :: 0 <= i < |log| ==> LogEntryOnDisk(c, files, log, i)
    ensures OnDisk(c, files, log)
  {
    hide LaidAt, FrameOnDisk, TailClosed;
    forall i | 0 <= i < |log|
      ensures LaidAt(c, log[i], EndAt(log, i)) && FrameOnDisk(c, files, log[i])
      ensures log[i].offset != EndAt(log, i) ==> TailClosed(c, files, EndAt(log, i))
    {
      assert LogEntryOnDisk(c, files, log, i);
    }
  }

  lemma EndOfPrefix(log: seq<Seen>, v: Seen, i: nat)
    requires i <= |log|
    ensures EndAt(log + [v], i) == EndAt(log, i)
  {
  }

  lemma FrameStays(c: Config, before: Files, after: Files, v: Seen)
    requires Grown(before, after) && FrameOnDisk(c, before, v)
    ensures FrameOnDisk(c, after, v)
  {
    GrownHolds(c, before, after, v.offset, c.codec.Frame(v.height, v.block));
  }

  /** Files keep all their bytes and may have more. */
  predicate Grown(before: Files, after: Files) {
    forall i :: i in before ==> i in after && before[i] <= after[i]
  }

  lemma GrownHolds(c: Config, before: Files, after: Files, off: nat, data: seq<Byte>)
    requires Grown(before, after) && Holds(before, c.cap, off, data)
    ensures Holds(after, c.cap, off, data)
  {
    var p := Split(c.cap, off);
    assert before[p.file] <= after[p.file];
    assert after[p.file][..|before[p.file]|] == before[p.file];
    SliceOfSlice(after[p.file], 0, |before[p.file]|, p.local, p.local + |data|);
  }

  lemma OnDiskStays(c: Config, before: Files, after: Files, log: seq<Seen>)
    requires OnDisk(c, before, log) && Grown(before, after)
    requires forall i :: 0 <= i < |log| && log[i].offset != EndAt(log, i) ==> TailClosed(c, after, EndAt(log, i))
    ensures OnDisk(c, after, log)
  {
    hide *;
    forall i | 0 <= i < |log|
      ensures LogEntryOnDisk(c, after, log, i)
    {
      OnDiskAt(c, before, log, i);
      FrameStays(c, before, after, log[i]);
      LogEntryIntro(c, after, log, i);
    }
    OnDiskIntro(c, after, log);
  }

  /** A tail that the log has skipped lies in an earlier file than its last block. */
  lemma SkippedBeforeLast(c: Config, log: seq<Seen>, i: nat)
    requires Laid(c, log) && i < |log| && log[i].offset != EndAt(log, i)
    ensures Split(c.cap, EndAt(log, i)).file < Split(c.cap, log[|log| - 1].offset).file
  {
    hide *;
    var n := |log| - 1;
    LaidEntry(c, log, i);
    LaidEntry(c, log, n);
    LaidFacts(c, log[i], EndAt(log, i));
    LaidFacts(c, log[n], EndAt(log, n));
    LaidStep(c, log[n], EndAt(log, n));
    EndsIncrease(c, log, i, n);
    SkippedFile(c.cap, EndAt(log, i), log[i].offset, FrameLen(log[i]), log[n].offset, FrameLen(log[n]));
  }

  lemma LaidEntry(c: Config, log: seq<Seen>, i: nat)
    requires Laid(c, log) && i < |log|
    ensures LaidAt(c, log[i], EndAt(log, i))
  {
    hide LaidAt;
  }
}
