/** Data files: global offsets, the space allocator's arithmetic, and the layout
    check that runs before recovery. */
module FileSet {
  import opened Bytes
  import opened Results

  /** The data directory: file index to contents. */
  type Files = map<nat, seq<Byte>>

  datatype Place = Place(file: nat, local: nat)

  datatype Reservation = Reservation(offset: nat, end: nat)

  /** `u64::MAX` and 0 in the index header both mean that data is not split. */
  function EffectiveCap(maxDataFileSize: nat): Option<Pos> {
    if maxDataFileSize == U64_LIMIT - 1 || maxDataFileSize == 0 then None else Some(maxDataFileSize)
  }

  /** Global offset to file and local offset; the file index saturates at `u32::MAX`. */
  function Split(cap: Option<Pos>, off: nat): Place {
    match cap
    case None => Place(0, off)
    case Some(c) =>
      Place(if off / c < U32_LIMIT then off / c else U32_LIMIT - 1, off % c)
  }

  /** The global offset at which the file after `file` starts. */
  function AdvanceToNextFile(file: nat, cap: Pos): Result<nat> {
    if file + 1 >= U32_LIMIT || (file + 1) * cap >= U64_LIMIT then Err(OffsetOverflow)
    else Ok((file + 1) * cap)
  }

  /** The range `[offset, offset + len)` lies in one data file with an exact index. */
  predicate InOneFile(cap: Option<Pos>, off: nat, len: nat) {
    match cap
    case None => true
    case Some(c) => off / c < U32_LIMIT && off % c + len <= c
  }

  /** The offset of a block of `size` bytes when the first `current` bytes are taken:
      `current` itself, or the start of the next file when the block would cross the cap. */
  function WriteOffset(cap: Option<Pos>, current: nat, size: nat): Result<nat> {
    match cap
    case None => Ok(current)
    case Some(c) =>
      if current % c + size >= U64_LIMIT then Err(BlockTooLarge)
      else if current % c + size <= c then Ok(current)
      else if current / c >= U32_LIMIT then Err(OffsetOverflow)
      else AdvanceToNextFile(current / c, c)
  }

  /** What the allocator hands out for a block of `size` bytes, header included. */
  function Reserve(cap: Option<Pos>, current: nat, size: nat): Result<Reservation> {
    if cap.Some? && size > cap.value then Err(ExceedsFileSize)
    else
      var offset :- WriteOffset(cap, current, size);
      if offset + size >= U64_LIMIT then Err(BlockTooLarge)
      else Ok(Reservation(offset, offset + size))
  }

  lemma Skip(current: nat, c: Pos)
    ensures current < (current / c + 1) * c
    ensures ((current / c + 1) * c) % c == 0
    ensures ((current / c + 1) * c) / c == current / c + 1
  {
    var q := current / c + 1;
    assert current == (current / c) * c + current % c;
    DivMul(q, c);
  }

  lemma DivMul(q: nat, c: Pos)
    ensures (q * c) % c == 0
    ensures (q * c) / c == q
  {
    DivUnique(q * c, c, q, 0);
  }

  lemma SmallMultiple(d: int, c: Pos)
    ensures d >= 1 ==> d * c >= c
    ensures d <= -1 ==> d * c + c <= 0
  {
    if d >= 1 {
      assert (d - 1) * c >= 0;
    } else if d <= -1 {
      assert (-d - 1) * c >= 0;
    }
  }

  /** Quotient and remainder are determined by the division equation. */
  lemma DivUnique(n: nat, c: Pos, q: nat, r: nat)
    requires n == q * c + r && r < c
    ensures n / c == q && n % c == r
  {
    var q1 := n / c;
    assert n == q1 * c + n % c;
    SmallMultiple(q - q1, c);
    assert (q - q1) * c == q * c - q1 * c;
  }

  /** The allocator only moves forward, by at least the size asked for; it never
      lets a block cross a file boundary; and it skips bytes only to reach the
      start of the next file, when the block would not have fitted. */
  lemma ReserveFits(cap: Option<Pos>, current: nat, size: nat)
    requires Reserve(cap, current, size).Ok?
    ensures var r := Reserve(cap, current, size).value;
      && current <= r.offset && r.end == r.offset + size < U64_LIMIT
      && (cap.Some? ==> r.offset % cap.value + size <= cap.value)
      && (r.offset != current ==>
            && cap.Some?
            && current % cap.value + size > cap.value
            && r.offset % cap.value == 0
            && r.offset / cap.value == current / cap.value + 1
            && r.offset / cap.value < U32_LIMIT)
  {
    if cap.Some? {
      Skip(current, cap.value);
    }
  }

  /** Behind `current` bytes there is room for `size` more: where the block fits into the
      rest of its file, below 2^64; otherwise in the next file, whose index fits 32 bits. */
  predicate HasRoom(cap: Option<Pos>, current: nat, size: nat) {
    if cap.None? then current + size < 0x1_0000_0000_0000_0000
    else
      && size <= cap.value
      && if current % cap.value + size <= cap.value
         then current + size < 0x1_0000_0000_0000_0000
         else current / cap.value + 1 < 0x1_0000_0000
              && (current / cap.value + 1) * cap.value + size < 0x1_0000_0000_0000_0000
  }

  /** Where it goes. */
  function RoomAt(cap: Option<Pos>, current: nat, size: nat): nat {
    if cap.None? || current % cap.value + size <= cap.value then current
    else (current / cap.value + 1) * cap.value
  }

  /** Space is granted exactly where there is room, and exactly there. Otherwise the block
      is larger than any file, or the next file cannot be addressed, or the end overflows. */
  lemma ReserveIff(cap: Option<Pos>, current: nat, size: nat)
    ensures HasRoom(cap, current, size) ==>
      Reserve(cap, current, size) == Ok(Reservation(RoomAt(cap, current, size), RoomAt(cap, current, size) + size))
    ensures !HasRoom(cap, current, size) ==>
      Reserve(cap, current, size) == Err(
        if cap.Some? && size > cap.value then ExceedsFileSize
        else if cap.Some? && cap.value < current % cap.value + size < 0x1_0000_0000_0000_0000
                && (current / cap.value + 1 >= 0x1_0000_0000
                    || (current / cap.value + 1) * cap.value >= 0x1_0000_0000_0000_0000)
        then OffsetOverflow
        else BlockTooLarge)
  {
    if cap.Some? {
      Skip(current, cap.value);
      NextStart(current, cap.value);
    }
  }

  lemma NextStart(current: nat, c: Pos)
    ensures (current / c + 1) * c >= c && (current / c + 1) * c > current >= current % c
  {
    Skip(current, c);
    SmallMultiple(current / c + 1, c);
  }

  /** The data file that holds a global offset, and the offset in it. */
  function FileIndex(cap: Option<Pos>, off: nat): nat {
    if cap.None? then 0 else if off / cap.value < 0x1_0000_0000 then off / cap.value else 0xFFFF_FFFF
  }

  function LocalOffset(cap: Option<Pos>, off: nat): nat {
    if cap.None? then off else off % cap.value
  }

  lemma SplitIs(cap: Option<Pos>, off: nat)
    ensures Split(cap, off) == Place(FileIndex(cap, off), LocalOffset(cap, off))
  {
  }

  /** Within the `u32` range of file indices, places and offsets correspond one to one. */
  lemma SplitInjective(cap: Option<Pos>, a: nat, b: nat)
    requires InOneFile(cap, a, 0) && InOneFile(cap, b, 0)
    requires Split(cap, a) == Split(cap, b)
    ensures a == b
  {
    if cap.Some? {
      assert a == (a / cap.value) * cap.value + a % cap.value;
      assert b == (b / cap.value) * cap.value + b % cap.value;
    }
  }

  /** An offset owns its place exclusively exactly when its file index fits `u32`:
      beyond that the saturated index sends it onto bytes of the last file. */
  lemma PlaceIsExclusiveIff(cap: Pos, off: nat)
    ensures (off / cap < U32_LIMIT) <==> (forall other: nat :: Split(Some(cap), other) == Split(Some(cap), off) && other <= off ==> other == off)
  {
    if off / cap < U32_LIMIT {
      forall other: nat | Split(Some(cap), other) == Split(Some(cap), off) && other <= off
        ensures other == off
      {
        DivMonotone(other, off, cap);
        SplitInjective(Some(cap), other, off);
      }
    } else {
      var other := (U32_LIMIT - 1) * cap + off % cap;
      DivUnique(other, cap, U32_LIMIT - 1, off % cap);
      assert off == (off / cap) * cap + off % cap;
      assert (U32_LIMIT - 1) * cap + cap <= (off / cap) * cap;
      assert Split(Some(cap), other) == Split(Some(cap), off);
    }
  }

  lemma DivMonotone(a: nat, b: nat, c: Pos)
    requires a <= b
    ensures a / c <= b / c
  {
    assert a == (a / c) * c + a % c;
    assert b == (b / c) * c + b % c;
    SmallMultiple(a / c - b / c, c);
    assert (a / c - b / c) * c == (a / c) * c - (b / c) * c;
  }

  lemma FileOfOffset(pos: nat, c: Pos, last: nat, size: nat)
    requires pos < last * c + size && size <= c
    ensures pos / c <= last
    ensures pos == (pos / c) * c + pos % c
    ensures pos / c < last ==> (pos / c + 1) * c <= last * c
  {
    var q := pos / c;
    assert pos == q * c + pos % c;
    SmallMultiple(q - last, c);
    assert (q - last) * c == q * c - last * c;
    if q < last {
      SmallMultiple(last - q, c);
      assert (q + 1) * c == q * c + c;
      assert (last - q) * c == last * c - q * c;
    }
  }

  /** The allocator checks the index only when it skips: filling the last
      addressable file exactly makes it hand out an offset whose place is
      already the start of that file. */
  lemma AllocatorCanAliasLastFile()
    ensures var cap: Pos := 23;
      var full := U32_LIMIT * cap;
      && Reserve(Some(cap), full, 23) == Ok(Reservation(full, full + 23))
      && Split(Some(cap), full) == Split(Some(cap), full - cap)
  {
    var cap: Pos := 23;
    DivMul(U32_LIMIT, cap);
    DivMul(U32_LIMIT - 1, cap);
  }

  /** Disjoint global ranges stay disjoint as (file, local) ranges. */
  lemma DisjointPlaces(cap: Option<Pos>, a: nat, aLen: nat, b: nat, bLen: nat)
    requires InOneFile(cap, a, aLen) && InOneFile(cap, b, bLen)
    requires a + aLen <= b || b + bLen <= a
    ensures var p, q := Split(cap, a), Split(cap, b);
      p.file != q.file || p.local + aLen <= q.local || q.local + bLen <= p.local
  {
    if cap.Some? {
      assert a == (a / cap.value) * cap.value + a % cap.value;
      assert b == (b / cap.value) * cap.value + b % cap.value;
    }
  }

  function FileAt(files: Files, file: nat): seq<Byte> {
    if file in files then files[file] else []
  }

  /** Opening a file creates it; a positional write goes to the opened file. */
  function WriteFile(files: Files, file: nat, local: nat, data: seq<Byte>): Files {
    files[file := WriteAt(FileAt(files, file), local, data)]
  }

  function CreateFile(files: Files, file: nat): Files {
    WriteFile(files, file, 0, [])
  }

  /** A write `at` bytes into the range that starts at global offset `off`. */
  function WriteInto(files: Files, cap: Option<Pos>, off: nat, at: nat, data: seq<Byte>): Files {
    WriteFile(files, Split(cap, off).file, Split(cap, off).local + at, data)
  }

  /** The `n` bytes at a global offset, if its file has them. */
  function Span(cap: Option<Pos>, files: Files, off: nat, n: nat): (s: Option<seq<Byte>>)
    ensures s.Some? ==> |s.value| == n
  {
    var f, at := FileIndex(cap, off), LocalOffset(cap, off);
    if f in files && at + n <= |files[f]| then Some(files[f][at..at + n]) else None
  }

  /** The bytes `data` are on disk at global offset `off`. */
  predicate Holds(files: Files, cap: Option<Pos>, off: nat, data: seq<Byte>) {
    var p := Split(cap, off);
    && p.file in files
    && p.local + |data| <= |files[p.file]|
    && files[p.file][p.local..p.local + |data|] == data
  }

  /** A write inside one reserved range leaves the bytes of every other range alone. */
  lemma WriteIntoFrame(files: Files, cap: Option<Pos>, off: nat, len: nat, at: nat, data: seq<Byte>,
                 other: nat, bytes: seq<Byte>)
    requires InOneFile(cap, off, len) && InOneFile(cap, other, |bytes|)
    requires off + len <= other || other + |bytes| <= off
    requires at + |data| <= len
    requires Holds(files, cap, other, bytes)
    ensures Holds(WriteInto(files, cap, off, at, data), cap, other, bytes)
  {
    hide *;
    DisjointPlaces(cap, off, len, other, |bytes|);
    WriteBeside(files, cap, off, len, at, data, other, bytes);
  }

  lemma WriteBeside(files: Files, cap: Option<Pos>, off: nat, len: nat, at: nat, data: seq<Byte>,
                    other: nat, bytes: seq<Byte>)
    requires at + |data| <= len && Holds(files, cap, other, bytes)
    requires var p, q := Split(cap, off), Split(cap, other);
      p.file != q.file || p.local + len <= q.local || q.local + |bytes| <= p.local
    ensures Holds(WriteInto(files, cap, off, at, data), cap, other, bytes)
  {
    hide Split, WriteAt;
    var p, q := Split(cap, off), Split(cap, other);
    if p.file == q.file {
      WriteAtFrame(files[p.file], p.local + at, data, q.local, q.local + |bytes|);
    }
  }

  lemma {:induction false} MaxExists(s: set<nat>)
    requires s != {}
    ensures exists m :: m in s && forall k :: k in s ==> k <= m
  {
    var x :| x in s;
    assert forall k :: k in s ==> k == x || k in s - {x};
    if s - {x} == {} {
      assert x in s && forall k :: k in s ==> k <= x;
    } else {
      MaxExists(s - {x});
      var m :| m in s - {x} && forall k :: k in s - {x} ==> k <= m;
      var top := Max(m, x);
      assert top in s && forall k :: k in s ==> k <= top;
    }
  }

  /** The highest file index present. */
  function LastFile(s: set<nat>): (m: nat)
    requires s != {}
    ensures m in s && forall k :: k in s ==> k <= m
  {
    MaxExists(s);
    var m :| m in s && forall k :: k in s ==> k <= m;
    m
  }

  /** File indices run from 0 without a gap. */
  predicate Contiguous(sizes: map<nat, nat>) {
    sizes != map[] ==> forall i :: 0 <= i <= LastFile(sizes.Keys) ==> i in sizes
  }

  /** The next write offset that the file sizes alone imply. */
  function ValidateLayout(cap: Option<Pos>, sizes: map<nat, nat>): Result<nat> {
    if sizes == map[] then Ok(0)
    else
      var last := LastFile(sizes.Keys);
      if !Contiguous(sizes) then Err(MissingFile)
      else match cap
        case None => if last > 0 then Err(SplitModeMismatch) else Ok(sizes[0])
        case Some(c) =>
          if last * c >= U64_LIMIT || last * c + sizes[last] >= U64_LIMIT then Err(OffsetOverflow)
          else Ok(last * c + sizes[last])
  }

  /** The files run from 0 to `last`, and `end` is where the last one ends. */
  ghost predicate LaidOutTo(cap: Option<Pos>, sizes: map<nat, nat>, last: nat, end: nat) {
    && (forall i: nat :: i in sizes <==> i <= last)
    && last in sizes
    && (if cap.None? then last == 0 && end == sizes[0]
        else end == last * cap.value + sizes[last] < 0x1_0000_0000_0000_0000)
  }

  /** A file is missing below one that is there. */
  ghost predicate Gap(sizes: map<nat, nat>) {
    exists i, j :: 0 <= i < j && i !in sizes && j in sizes
  }

  /** What the layout check accepts and computes, and what each refusal means. */
  lemma LayoutIff(cap: Option<Pos>, sizes: map<nat, nat>, end: nat)
    ensures ValidateLayout(cap, sizes) == Ok(end) <==>
      (sizes == map[] && end == 0) || exists last :: LaidOutTo(cap, sizes, last, end)
    ensures ValidateLayout(cap, sizes) == Err(MissingFile) <==> Gap(sizes)
    ensures ValidateLayout(cap, sizes) == Err(SplitModeMismatch) <==> !Gap(sizes) && cap.None? && 1 in sizes
    ensures ValidateLayout(cap, sizes).Err? ==>
      ValidateLayout(cap, sizes).error in {MissingFile, SplitModeMismatch, OffsetOverflow}
  {
    if sizes == map[] {
    } else {
      var last := LastFile(sizes.Keys);
      if Contiguous(sizes) {
        assert forall i: nat :: i in sizes <==> i <= last;
        if ValidateLayout(cap, sizes) == Ok(end) {
          assert LaidOutTo(cap, sizes, last, end);
        }
        if other: nat :| LaidOutTo(cap, sizes, other, end) {
          assert other == last;
        }
      } else {
        var i :| 0 <= i <= last && i !in sizes;
        assert i < last && last in sizes;
      }
    }
  }

  function Sizes(files: Files): (sizes: map<nat, nat>)
    ensures sizes.Keys == files.Keys
  {
    map i | i in files :: |files[i]|
  }
}
