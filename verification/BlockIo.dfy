/** The fixed parameters of an open store, and what `read_block` returns for a
    given state of the index and the data files. */
module BlockIo {
  import opened Bytes
  import opened Results
  import opened BlockFormat
  import opened FileSet
  import opened IndexFile

  /** Height interval and byte distance between index-header checkpoints. */
  const CHECKPOINT_INTERVAL: nat := 1024
  const CHECKPOINT_BYTES: nat := 64 * 1024 * 1024

  datatype Config = Config(codec: Codec, cap: Option<Pos>, minHeight: nat)

  function Slot(c: Config, height: nat): nat {
    if c.minHeight <= height then height - c.minHeight else 0
  }

  /** Reads the block that an index entry points at, with all of `read_block`'s checks. */
  function ReadEntry(c: Config, files: Files, e: Entry): Result<Option<seq<Byte>>> {
    if e.size == 0 then Ok(None)
    else if e.size > MAX_BLOCK_SIZE then Err(Corrupt)
    else
      var p := Split(c.cap, e.offset);
      var file := FileAt(files, p.file);
      if p.local + HEADER_SIZE + e.size > |file| then Err(UnexpectedEof)
      else ReadFrame(c, file[p.local..p.local + HEADER_SIZE + e.size], e.size)
  }

  function ReadFrame(c: Config, buf: seq<Byte>, size: nat): Result<Option<seq<Byte>>>
    requires |buf| >= HEADER_SIZE
  {
    var header :- Deserialize(buf[..HEADER_SIZE]);
    if header.size != size then Err(Corrupt)
    else match c.codec.decompress(buf[HEADER_SIZE..])
      case None => Err(Corrupt)
      case Some(block) => if c.codec.hash(block) != header.checksum then Err(Corrupt) else Ok(Some(block))
  }

  /** `read_block` as a function of the index and the data files. */
  function ReadBlock(c: Config, files: Files, slots: seq<Entry>, height: nat): Result<Option<seq<Byte>>> {
    if !Addressable(c.minHeight, height) then Err(InvalidHeight)
    else ReadEntry(c, files, Get(slots, Slot(c, height)))
  }

  /** The bytes at `off` pass every test of a read of `size` payload bytes and decode to
      `block`: the size in the header is the one asked for, the payload decompresses, and
      the hash of the block is the checksum in the header. */
  ghost predicate BlockAt(c: Config, files: Files, off: nat, size: nat, block: seq<Byte>) {
    var s := Span(c.cap, files, off, 22 + size);
    && 0 < size <= 0x4000_0000 && s.Some?
    && Word32(s.value, 8) == size
    && c.codec.decompress(s.value[22..]) == Some(block)
    && c.codec.hash(block) == Word64(s.value, 12)
  }

  /** The entry of an addressable height; behind the end of the index file it is zero. */
  function EntryFor(c: Config, slots: seq<Entry>, height: nat): Entry
    requires c.minHeight <= height
  {
    if height - c.minHeight < |slots| then slots[height - c.minHeight] else Entry(0, 0, 0)
  }

  /** `r` is the answer that the bytes of index and data files demand at a height. */
  ghost predicate Answers(c: Config, files: Files, slots: seq<Entry>, height: nat, r: Result<Option<seq<Byte>>>) {
    if !(c.minHeight <= height && 64 + 16 * (height - c.minHeight) < 0x1_0000_0000_0000_0000) then r == Err(InvalidHeight)
    else
      var e := EntryFor(c, slots, height);
      var s := Span(c.cap, files, e.offset, 22 + e.size);
      && (r == Ok(None) <==> e.size == 0)
      && (forall block :: r == Ok(Some(block)) <==> BlockAt(c, files, e.offset, e.size, block))
      && (r == Err(UnexpectedEof) <==> 0 < e.size <= 0x4000_0000 && s.None?)
      && (r.Err? ==> r.error == UnexpectedEof || r.error == Corrupt)
  }

  lemma ReadEntryTells(c: Config, files: Files, e: Entry)
    ensures var r := ReadEntry(c, files, e);
      && (r == Ok(None) <==> e.size == 0)
      && (forall block :: r == Ok(Some(block)) <==> BlockAt(c, files, e.offset, e.size, block))
      && (r == Err(UnexpectedEof) <==> 0 < e.size <= 0x4000_0000 && Span(c.cap, files, e.offset, 22 + e.size).None?)
      && (r.Err? ==> r.error == UnexpectedEof || r.error == Corrupt)
  {
    SplitIs(c.cap, e.offset);
    var s := Span(c.cap, files, e.offset, 22 + e.size);
    if s.Some? {
      var h := Deserialize(s.value[..22]).value;
      HeaderLayout(s.value[..22], h);
      WordsOfPrefix(s.value, 22);
    }
    hide FromLe, Split, FileIndex, LocalOffset, Deserialize, Word64, Word32;
  }

  /** Reads answer what the bytes demand. In particular a block whose bytes were damaged
      is returned only if header, payload and checksum still agree. */
  lemma ReadAnswers(c: Config, files: Files, slots: seq<Entry>, height: nat)
    ensures Answers(c, files, slots, height, ReadBlock(c, files, slots, height))
  {
    hide ReadEntry, BlockAt, Span;
    if Addressable(c.minHeight, height) {
      ReadEntryTells(c, files, Get(slots, Slot(c, height)));
    }
  }

  /** The two data writes, payload first. */
  function PlaceFrame(c: Config, files: Files, off: nat, height: U64, block: seq<Byte>): Files
    requires |c.codec.compress(block)| < U32_LIMIT
  {
    WriteInto(WriteInto(files, c.cap, off, HEADER_SIZE, c.codec.compress(block)),
              c.cap, off, 0, Serialize(c.codec.HeaderFor(height, block)))
  }

  lemma PayloadPositive(c: Config, block: seq<Byte>)
    requires c.codec.Valid() && block != []
    ensures |c.codec.compress(block)| > 0
  {
    assert c.codec.compress(block) != [];
  }

  /** A frame on disk reads back as its block, unless reads refuse its size. */
  lemma ReadHeldFrame(c: Config, files: Files, off: nat, height: U64, block: seq<Byte>)
    requires c.codec.Valid() && block != [] && |c.codec.compress(block)| < U32_LIMIT
    requires Holds(files, c.cap, off, c.codec.Frame(height, block))
    ensures var e := Entry(off, |c.codec.compress(block)|, 0);
      ReadEntry(c, files, e) == if e.size <= MAX_BLOCK_SIZE then Ok(Some(block)) else Err(Corrupt)
  {
    var payload := c.codec.compress(block);
    var frame := c.codec.Frame(height, block);
    assert payload != [];
    HeaderRoundTrip(c.codec.HeaderFor(height, block));
    assert frame[..HEADER_SIZE] == Serialize(c.codec.HeaderFor(height, block));
    assert frame[HEADER_SIZE..] == payload;
    assert c.codec.decompress(payload) == Some(block);
  }

  /** A read touches only the bytes its entry spans. */
  lemma ReadDependsOnRange(c: Config, before: Files, after: Files, e: Entry)
    requires var p := Split(c.cap, e.offset);
      && p.file in before && p.file in after
      && p.local + HEADER_SIZE + e.size <= |before[p.file]|
      && p.local + HEADER_SIZE + e.size <= |after[p.file]|
      && before[p.file][p.local..p.local + HEADER_SIZE + e.size]
          == after[p.file][p.local..p.local + HEADER_SIZE + e.size]
    ensures ReadEntry(c, before, e) == ReadEntry(c, after, e)
  {
  }
}
