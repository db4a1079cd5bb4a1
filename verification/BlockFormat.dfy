/** The on-disk form of one block: a 22-byte header and the compressed payload. */
module BlockFormat {
  import opened Bytes
  import opened Results

  const MAX_BLOCK_SIZE: nat := 0x4000_0000
  const BLOCK_ENTRY_VERSION: nat := 1
  const HEADER_SIZE: nat := 22

  datatype BlockHeader = BlockHeader(height: U64, size: U32, checksum: U64, version: U16)

  function Serialize(h: BlockHeader): (s: seq<Byte>)
    ensures |s| == HEADER_SIZE
  {
    ToLe(h.height, 8) + (ToLe(h.size, 4) + (ToLe(h.checksum, 8) + ToLe(h.version, 2)))
  }

  function LeU64(s: seq<Byte>): U64
    requires |s| == 8
  {
    Widths();
    ToFromLe(s);
    FromLe(s)
  }

  function LeU32(s: seq<Byte>): U32
    requires |s| == 4
  {
    Widths();
    ToFromLe(s);
    FromLe(s)
  }

  function LeU16(s: seq<Byte>): U16
    requires |s| == 2
  {
    Widths();
    ToFromLe(s);
    FromLe(s)
  }

  function Deserialize(s: seq<Byte>): Result<BlockHeader> {
    if |s| != HEADER_SIZE then Err(Corrupt)
    else Ok(BlockHeader(LeU64(s[0..8]), LeU32(s[8..12]), LeU64(s[12..20]), LeU16(s[20..22])))
  }

  /** A header survives being written and read back. */
  lemma HeaderRoundTrip(h: BlockHeader)
    ensures Deserialize(Serialize(h)) == Ok(h)
  {
    hide ToLe;
    hide FromLe;
    var s := Serialize(h);
    Widths();
    assert s[0..8] == ToLe(h.height, 8);
    assert s[8..12] == ToLe(h.size, 4);
    assert s[12..20] == ToLe(h.checksum, 8);
    assert s[20..22] == ToLe(h.version, 2);
    FromToLe(h.height, 8);
    FromToLe(h.size, 4);
    FromToLe(h.checksum, 8);
    FromToLe(h.version, 2);
  }

  /** Bytes parse exactly when there are 22 of them, and then re-serialize to themselves. */
  lemma HeaderBytesRoundTrip(s: seq<Byte>)
    ensures Deserialize(s).Ok? <==> |s| == HEADER_SIZE
    ensures |s| == HEADER_SIZE ==> Serialize(Deserialize(s).value) == s
  {
    hide ToLe;
    hide FromLe;
    if |s| == HEADER_SIZE {
      ToFromLe(s[0..8]);
      ToFromLe(s[8..12]);
      ToFromLe(s[12..20]);
      ToFromLe(s[20..22]);
      assert s[12..] == s[12..20] + s[20..22];
      assert s[8..] == s[8..12] + s[12..];
      assert s == s[0..8] + s[8..];
    }
  }

  /** Where the fields of a header lie, and in which byte order: height, size, checksum
      and version at bytes 0, 8, 12 and 20, least significant byte first. */
  lemma HeaderLayout(s: seq<Byte>, h: BlockHeader)
    requires |s| == 22
    ensures Deserialize(s) == Ok(h) <==>
      Word64(s, 0) == h.height && Word32(s, 8) == h.size && Word64(s, 12) == h.checksum && Word16(s, 20) == h.version
    ensures Serialize(h) == s <==> Deserialize(s) == Ok(h)
  {
    HeaderRoundTrip(h);
    HeaderBytesRoundTrip(s);
    hide FromLe, Serialize, Word64, Word32, Word16;
    LeIsWord(s, 0);
    LeIsWord(s, 8);
    LeIsWord(s, 12);
    LeIsWord(s, 20);
  }

  /** The compression library and the hash, known only by the law they keep. */
  datatype Codec = Codec(
    compress: seq<Byte> -> seq<Byte>,
    decompress: seq<Byte> -> Option<seq<Byte>>,
    hash: seq<Byte> -> U64)
  {
    ghost predicate Valid() {
      && (forall b :: decompress(compress(b)) == Some(b))
      && (forall b :: b != [] ==> compress(b) != [])
    }

    /** The header that `write_block` builds for a block. */
    function HeaderFor(height: U64, block: seq<Byte>): BlockHeader
      requires |compress(block)| < U32_LIMIT
    {
      BlockHeader(height, |compress(block)|, hash(block), BLOCK_ENTRY_VERSION)
    }

    /** Header and payload as they end up next to each other in a data file. */
    function Frame(height: U64, block: seq<Byte>): (s: seq<Byte>)
      requires |compress(block)| < U32_LIMIT
      ensures |s| == HEADER_SIZE + |compress(block)|
    {
      Serialize(HeaderFor(height, block)) + compress(block)
    }
  }

  /** What a block is on disk, byte for byte. */
  lemma FrameLayout(codec: Codec, height: U64, block: seq<Byte>)
    requires |codec.compress(block)| < U32_LIMIT
    ensures var s := codec.Frame(height, block);
      && |s| == 22 + |codec.compress(block)| && s[22..] == codec.compress(block)
      && Word64(s, 0) == height && Word32(s, 8) == |codec.compress(block)|
      && Word64(s, 12) == codec.hash(block) && Word16(s, 20) == 1
  {
    var s, h := codec.Frame(height, block), codec.HeaderFor(height, block);
    HeaderLayout(Serialize(h), h);
    WordsOfPrefix(s, 22);
    assert s[..22] == Serialize(h);
  }

  lemma WordsOfPrefix(s: seq<Byte>, n: nat)
    requires 22 <= n <= |s|
    ensures Word64(s[..n], 0) == Word64(s, 0) && Word32(s[..n], 8) == Word32(s, 8)
    ensures Word64(s[..n], 12) == Word64(s, 12) && Word16(s[..n], 20) == Word16(s, 20)
  {
  }
}
