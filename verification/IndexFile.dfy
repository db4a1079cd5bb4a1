/** The index file: a 64-byte header followed by one 16-byte entry per height,
    both as a value (`Index`) and as the bytes on disk (`Encode`). */
module IndexFile {
  import opened Bytes

  const ENTRY_SIZE: nat := 16
  const INDEX_HEADER_SIZE: nat := 64

  datatype Entry = Entry(offset: nat, size: nat, reserved: nat)
  {
    /** An all-zero offset and size mark a slot that was never written. */
    predicate Populated() {
      !(offset == 0 && size == 0)
    }

    predicate Fits() {
      offset < U64_LIMIT && size < U32_LIMIT && reserved < U32_LIMIT
    }
  }

  const ZERO := Entry(0, 0, 0)

  datatype Header = Header(
    version: nat,
    maxDataFileSize: nat,
    minHeight: nat,
    maxHeight: nat,
    nextWriteOffset: nat,
    contiguous: nat,
    reserved: (nat, nat))
  {
    predicate Fits() {
      && version < U64_LIMIT && maxDataFileSize < U64_LIMIT && minHeight < U64_LIMIT
      && maxHeight < U64_LIMIT && nextWriteOffset < U64_LIMIT && contiguous < U64_LIMIT
      && reserved.0 < U64_LIMIT && reserved.1 < U64_LIMIT
    }
  }

  /** `slots[k]` describes height `minHeight + k`; heights past the end read as zero. */
  datatype Index = Index(header: Header, slots: seq<Entry>)

  /** Whether a height has an index slot that `u64` offsets can reach. */
  predicate Addressable(minHeight: nat, height: nat) {
    minHeight <= height && (height - minHeight) * 16 + INDEX_HEADER_SIZE < U64_LIMIT
  }

  function Get(slots: seq<Entry>, k: nat): Entry {
    if k < |slots| then slots[k] else ZERO
  }

  /** Writing past the end extends the file with zero entries. */
  function Put(slots: seq<Entry>, k: nat, e: Entry): (s: seq<Entry>)
    ensures |s| == Max(|slots|, k + 1)
    ensures Get(s, k) == e && forall j: nat :: j != k ==> Get(s, j) == Get(slots, j)
  {
    if k < |slots| then slots[k := e] else slots + seq(k - |slots|, _ => ZERO) + [e]
  }

  /** The entry of a height that may lie below the lowest one. */
  function Lookup(ix: Index, height: nat): Entry {
    if ix.header.minHeight <= height then Get(ix.slots, height - ix.header.minHeight) else ZERO
  }

  predicate PopulatedAt(ix: Index, height: nat) {
    Lookup(ix, height).Populated()
  }

  /** A height is missing exactly when its slot is behind the end of the file, or offset
      and size in it are both zero: the first block of a store has offset 0. */
  lemma PopulatedIff(ix: Index, height: nat)
    ensures PopulatedAt(ix, height) <==>
      && ix.header.minHeight <= height < ix.header.minHeight + |ix.slots|
      && var e := ix.slots[height - ix.header.minHeight];
      (e.offset != 0 || e.size != 0)
  {
  }

  // ---------------------------------------------------------------- bytes

  function EntryBytes(e: Entry): (s: seq<Byte>)
    ensures |s| == ENTRY_SIZE
  {
    ToLe(e.offset, 8) + (ToLe(e.size, 4) + ToLe(e.reserved, 4))
  }

  function DecodeEntry(s: seq<Byte>): Entry
    requires |s| == ENTRY_SIZE
  {
    Entry(FromLe(s[0..8]), FromLe(s[8..12]), FromLe(s[12..16]))
  }

  function HeaderBytes(h: Header): (s: seq<Byte>)
    ensures |s| == INDEX_HEADER_SIZE
  {
    ToLe(h.version, 8) + (ToLe(h.maxDataFileSize, 8) + (ToLe(h.minHeight, 8) + (ToLe(h.maxHeight, 8)
    + (ToLe(h.nextWriteOffset, 8) + (ToLe(h.contiguous, 8)
    + (ToLe(h.reserved.0, 8) + ToLe(h.reserved.1, 8)))))))
  }

  function DecodeHeader(s: seq<Byte>): Header
    requires |s| == INDEX_HEADER_SIZE
  {
    Header(FromLe(s[0..8]), FromLe(s[8..16]), FromLe(s[16..24]), FromLe(s[24..32]),
           FromLe(s[32..40]), FromLe(s[40..48]), (FromLe(s[48..56]), FromLe(s[56..64])))
  }

  function SlotBytes(slots: seq<Entry>): (s: seq<Byte>)
    ensures |s| == 16 * |slots|
  {
    if slots == [] then [] else EntryBytes(slots[0]) + SlotBytes(slots[1..])
  }

  function Encode(ix: Index): (s: seq<Byte>)
    ensures |s| == INDEX_HEADER_SIZE + 16 * |ix.slots|
  {
    HeaderBytes(ix.header) + SlotBytes(ix.slots)
  }

  lemma EntryRoundTrip(e: Entry)
    requires e.Fits()
    ensures DecodeEntry(EntryBytes(e)) == e
  {
    hide ToLe;
    hide FromLe;
    var s := EntryBytes(e);
    Widths();
    assert s[0..8] == ToLe(e.offset, 8);
    assert s[8..12] == ToLe(e.size, 4);
    assert s[12..16] == ToLe(e.reserved, 4);
    FromToLe(e.offset, 8);
    FromToLe(e.size, 4);
    FromToLe(e.reserved, 4);
  }

  lemma EntryBytesRoundTrip(s: seq<Byte>)
    requires |s| == ENTRY_SIZE
    ensures DecodeEntry(s).Fits() && EntryBytes(DecodeEntry(s)) == s
  {
    hide ToLe;
    hide FromLe;
    Widths();
    ToFromLe(s[0..8]);
    ToFromLe(s[8..12]);
    ToFromLe(s[12..16]);
    assert s[8..] == s[8..12] + s[12..16];
    assert s == s[0..8] + s[8..];
  }

  lemma IndexHeaderRoundTrip(h: Header)
    requires h.Fits()
    ensures DecodeHeader(HeaderBytes(h)) == h
  {
    hide ToLe;
    hide FromLe;
    var s := HeaderBytes(h);
    Widths();
    assert s[0..8] == ToLe(h.version, 8);
    assert s[8..16] == ToLe(h.maxDataFileSize, 8);
    assert s[16..24] == ToLe(h.minHeight, 8);
    assert s[24..32] == ToLe(h.maxHeight, 8);
    assert s[32..40] == ToLe(h.nextWriteOffset, 8);
    assert s[40..48] == ToLe(h.contiguous, 8);
    assert s[48..56] == ToLe(h.reserved.0, 8);
    assert s[56..64] == ToLe(h.reserved.1, 8);
    FromToLe(h.version, 8);
    FromToLe(h.maxDataFileSize, 8);
    FromToLe(h.minHeight, 8);
    FromToLe(h.maxHeight, 8);
    FromToLe(h.nextWriteOffset, 8);
    FromToLe(h.contiguous, 8);
    FromToLe(h.reserved.0, 8);
    FromToLe(h.reserved.1, 8);
  }

  /** Offset, size and reserved bytes of an entry lie at bytes 0, 8 and 12. */
  lemma EntryLayout(s: seq<Byte>, e: Entry)
    requires |s| == 16 && e.Fits()
    ensures EntryBytes(e) == s <==> Word64(s, 0) == e.offset && Word32(s, 8) == e.size && Word32(s, 12) == e.reserved
    ensures EntryBytes(e) == s <==> DecodeEntry(s) == e
  {
    EntryRoundTrip(e);
    EntryBytesRoundTrip(s);
    hide FromLe, ToLe, EntryBytes, Word64, Word32;
    LeIsWord(s, 0);
    LeIsWord(s, 8);
    LeIsWord(s, 12);
  }

  /** The fields of the index header lie eight bytes apart, in this order. */
  lemma IndexHeaderLayout(s: seq<Byte>, h: Header)
    requires |s| == 64 && h.Fits()
    ensures HeaderBytes(h) == s <==>
      && Word64(s, 0) == h.version && Word64(s, 8) == h.maxDataFileSize
      && Word64(s, 16) == h.minHeight && Word64(s, 24) == h.maxHeight
      && Word64(s, 32) == h.nextWriteOffset && Word64(s, 40) == h.contiguous
      && Word64(s, 48) == h.reserved.0 && Word64(s, 56) == h.reserved.1
    ensures HeaderBytes(h) == s <==> DecodeHeader(s) == h
  {
    IndexHeaderRoundTrip(h);
    IndexHeaderBytesRoundTrip(s);
    hide FromLe, ToLe, HeaderBytes, Word64;
    LeIsWord(s, 0);
    LeIsWord(s, 8);
    LeIsWord(s, 16);
    LeIsWord(s, 24);
    LeIsWord(s, 32);
    LeIsWord(s, 40);
    LeIsWord(s, 48);
    LeIsWord(s, 56);
  }

  /** The whole file: the header, then the entry of the lowest height and so on upwards. */
  lemma IndexLayout(ix: Index, k: nat)
    requires k < |ix.slots|
    ensures |Encode(ix)| == 64 + 16 * |ix.slots|
    ensures Encode(ix)[..64] == HeaderBytes(ix.header)
    ensures Encode(ix)[64 + 16 * k..80 + 16 * k] == EntryBytes(ix.slots[k])
  {
    EntryReadOnDisk(ix, k);
  }

  lemma ZeroBytes()
    ensures EntryBytes(ZERO) == seq(ENTRY_SIZE, _ => 0 as Byte)
  {
    ZeroLe(8);
    ZeroLe(4);
  }

  lemma {:induction false} ZeroLe(n: nat)
    ensures ToLe(0, n) == seq(n, _ => 0 as Byte)
  {
    if n == 0 {
    } else {
      ZeroLe(n - 1);
    }
  }

  /** Slot `k` occupies exactly the sixteen bytes at its offset. */
  lemma {:induction false} SlotBytesAt(slots: seq<Entry>, k: nat)
    requires k < |slots|
    ensures SlotBytes(slots)[16 * k..16 * (k + 1)] == EntryBytes(slots[k])
  {
    if k == 0 {
    } else {
      SlotBytesAt(slots[1..], k - 1);
      var a, b := EntryBytes(slots[0]), SlotBytes(slots[1..]);
      assert (a + b)[16 * k..16 * (k + 1)] == b[16 * (k - 1)..16 * k];
    }
  }

  lemma WriteAtPrefix(a: seq<Byte>, b: seq<Byte>, off: nat, data: seq<Byte>)
    requires data != []
    ensures WriteAt(a + b, |a| + off, data) == a + WriteAt(b, off, data)
  {
    var x, y := WriteAt(a + b, |a| + off, data), a + WriteAt(b, off, data);
    assert |x| == |y|;
    forall i | 0 <= i < |x|
      ensures x[i] == y[i]
    {
      if i < |a| {
        assert y[i] == a[i];
      } else {
        assert y[i] == WriteAt(b, off, data)[i - |a|];
      }
    }
  }

  /** Overwriting a prefix of the same length, or an empty file. */
  lemma WriteAtStart(before: seq<Byte>, rest: seq<Byte>, data: seq<Byte>)
    requires |before| == |data| || (before == [] && rest == [])
    ensures data != [] ==> WriteAt(before + rest, 0, data) == data + rest
  {
    if data != [] {
      var x, y := WriteAt(before + rest, 0, data), data + rest;
      assert |x| == |y|;
      assert forall i :: 0 <= i < |x| ==> x[i] == y[i];
    }
  }

  lemma SlotWriteFirst(slots: seq<Entry>, e: Entry)
    ensures WriteAt(SlotBytes(slots), 0, EntryBytes(e)) == SlotBytes(Put(slots, 0, e))
  {
    hide EntryBytes;
    hide WriteAt;
    var after := Put(slots, 0, e);
    if slots == [] {
      assert after == [e] && after[1..] == [];
      WriteAtStart([], [], EntryBytes(e));
      assert SlotBytes(after) == EntryBytes(e) + [];
      assert [] + [] == SlotBytes(slots);
    } else {
      assert after == [e] + slots[1..] && after[1..] == slots[1..];
      WriteAtStart(EntryBytes(slots[0]), SlotBytes(slots[1..]), EntryBytes(e));
    }
  }

  /** Writing past the end of an empty file leaves a zero slot in front. */
  lemma SparseWrite(k: nat, data: seq<Byte>)
    requires k > 0 && data != []
    ensures WriteAt([], 16 * k, data) == EntryBytes(ZERO) + WriteAt([], 16 * (k - 1), data)
  {
    ZeroBytes();
    var x, y := WriteAt([], 16 * k, data), WriteAt([], 16 * (k - 1), data);
    var z := EntryBytes(ZERO);
    hide EntryBytes;
    assert |x| == |z + y|;
    forall i | 0 <= i < |x|
      ensures x[i] == (z + y)[i]
    {
      if i < ENTRY_SIZE {
        assert (z + y)[i] == z[i] == 0;
      } else {
        assert (z + y)[i] == y[i - ENTRY_SIZE];
      }
    }
  }

  lemma PutRest(slots: seq<Entry>, k: nat, e: Entry)
    requires k > 0
    ensures var head, rest := Get(slots, 0), if slots == [] then [] else slots[1..];
      Put(slots, k, e) == [head] + Put(rest, k - 1, e)
  {
    var head, rest := Get(slots, 0), if slots == [] then [] else slots[1..];
    var x, y := Put(slots, k, e), [head] + Put(rest, k - 1, e);
    assert |x| == |y|;
    forall i | 0 <= i < |x|
      ensures x[i] == y[i]
    {
      assert x[i] == Get(x, i);
      if i > 0 {
        assert y[i] == Get(Put(rest, k - 1, e), i - 1);
      }
    }
  }

  lemma NoSlotBytes()
    ensures SlotBytes([]) == []
  {
  }

  lemma SlotBytesOf(e: Entry, rest: seq<Entry>)
    ensures SlotBytes([e] + rest) == EntryBytes(e) + SlotBytes(rest)
  {
    hide EntryBytes;
    assert ([e] + rest)[1..] == rest;
  }

  lemma SlotWriteStep(head: Entry, rest: seq<Entry>, k: nat, e: Entry)
    requires WriteAt(SlotBytes(rest), 16 * k, EntryBytes(e)) == SlotBytes(Put(rest, k, e))
    ensures WriteAt(SlotBytes([head] + rest), 16 * (k + 1), EntryBytes(e)) == SlotBytes([head] + Put(rest, k, e))
  {
    hide *;
    SlotBytesOf(head, rest);
    SlotBytesOf(head, Put(rest, k, e));
    EntryBytesLength(head);
    EntryBytesLength(e);
    WriteAtPrefix(EntryBytes(head), SlotBytes(rest), 16 * k, EntryBytes(e));
  }

  lemma EntryBytesLength(e: Entry)
    ensures |EntryBytes(e)| == 16
  {
  }

  lemma SlotWriteSparse(k: nat, e: Entry)
    requires WriteAt(SlotBytes([]), 16 * k, EntryBytes(e)) == SlotBytes(Put([], k, e))
    ensures WriteAt(SlotBytes([]), 16 * (k + 1), EntryBytes(e)) == SlotBytes([ZERO] + Put([], k, e))
  {
    hide *;
    NoSlotBytes();
    EntryBytesLength(e);
    SlotBytesOf(ZERO, Put([], k, e));
    SparseWrite(k + 1, EntryBytes(e));
  }

  lemma {:induction false} SlotWrite(slots: seq<Entry>, k: nat, e: Entry)
    ensures WriteAt(SlotBytes(slots), 16 * k, EntryBytes(e)) == SlotBytes(Put(slots, k, e))
    decreases k
  {
    if k == 0 {
      SlotWriteFirst(slots, e);
    } else {
      PutRest(slots, k, e);
      if slots == [] {
        SlotWrite([], k - 1, e);
        SlotWriteSparse(k - 1, e);
      } else {
        SlotWrite(slots[1..], k - 1, e);
        assert slots == [slots[0]] + slots[1..];
        SlotWriteStep(slots[0], slots[1..], k - 1, e);
      }
    }
  }

  /** Writing sixteen bytes at `index_entry_offset` updates that height's entry,
      zero-fills skipped slots, and changes neither the header nor any other entry. */
  lemma EntryWriteOnDisk(ix: Index, k: nat, e: Entry)
    ensures WriteAt(Encode(ix), INDEX_HEADER_SIZE + 16 * k, EntryBytes(e))
         == Encode(ix.(slots := Put(ix.slots, k, e)))
  {
    hide *;
    SlotWrite(ix.slots, k, e);
    EncodeParts(ix);
    EncodeParts(ix.(slots := Put(ix.slots, k, e)));
    EntryBytesLength(e);
    WriteBehindHeader(HeaderBytes(ix.header), SlotBytes(ix.slots), 16 * k, EntryBytes(e),
                      SlotBytes(Put(ix.slots, k, e)), Encode(ix));
  }

  lemma WriteBehindHeader(head: seq<Byte>, body: seq<Byte>, off: nat, data: seq<Byte>,
                          after: seq<Byte>, file: seq<Byte>)
    requires |head| == INDEX_HEADER_SIZE && data != [] && file == head + body
    requires WriteAt(body, off, data) == after
    ensures WriteAt(file, INDEX_HEADER_SIZE + off, data) == head + after
  {
    hide WriteAt;
    WriteAtPrefix(head, body, off, data);
  }

  lemma EncodeParts(ix: Index)
    ensures Encode(ix) == HeaderBytes(ix.header) + SlotBytes(ix.slots)
    ensures |HeaderBytes(ix.header)| == INDEX_HEADER_SIZE
  {
  }

  /** Rewriting the header leaves every entry alone. */
  lemma HeaderWriteOnDisk(ix: Index, h: Header)
    ensures WriteAt(Encode(ix), 0, HeaderBytes(h)) == Encode(ix.(header := h))
  {
  }

  /** Sixteen bytes read at a height's offset are its entry; past the end there are none. */
  lemma EntryReadOnDisk(ix: Index, k: nat)
    ensures k < |ix.slots| ==>
      var at := INDEX_HEADER_SIZE + 16 * k;
      && at + ENTRY_SIZE <= |Encode(ix)|
      && Encode(ix)[at..at + ENTRY_SIZE] == EntryBytes(ix.slots[k])
    ensures k >= |ix.slots| ==> |Encode(ix)| <= INDEX_HEADER_SIZE + 16 * k
  {
    if k < |ix.slots| {
      SlotBytesAt(ix.slots, k);
      var at := INDEX_HEADER_SIZE + 16 * k;
      assert Encode(ix)[at..at + ENTRY_SIZE]
          == SlotBytes(ix.slots)[16 * k..16 * (k + 1)];
    }
  }

  /** Every file of 64 + 16n bytes is the encoding of exactly one index value. */
  lemma {:induction false} EveryImageDecodes(s: seq<Byte>)
    requires |s| >= INDEX_HEADER_SIZE && (|s| - INDEX_HEADER_SIZE) % 16 == 0
    ensures exists ix: Index :: ix.header.Fits() && (forall e :: e in ix.slots ==> e.Fits()) && Encode(ix) == s
  {
    var slots := DecodeSlots(s[INDEX_HEADER_SIZE..]);
    var h := s[..INDEX_HEADER_SIZE];
    IndexHeaderBytesRoundTrip(h);
    hide HeaderBytes;
    assert s == h + s[INDEX_HEADER_SIZE..];
    var ix := Index(DecodeHeader(h), slots);
    assert ix.header.Fits() && Encode(ix) == s;
  }

  lemma IndexHeaderBytesRoundTrip(h: seq<Byte>)
    requires |h| == INDEX_HEADER_SIZE
    ensures DecodeHeader(h).Fits() && HeaderBytes(DecodeHeader(h)) == h
  {
    hide ToLe;
    hide FromLe;
    Widths();
    ToFromLe(h[0..8]);
    ToFromLe(h[8..16]);
    ToFromLe(h[16..24]);
    ToFromLe(h[24..32]);
    ToFromLe(h[32..40]);
    ToFromLe(h[40..48]);
    ToFromLe(h[48..56]);
    ToFromLe(h[56..64]);
    assert h[48..] == h[48..56] + h[56..64];
    assert h[40..] == h[40..48] + h[48..];
    assert h[32..] == h[32..40] + h[40..];
    assert h[24..] == h[24..32] + h[32..];
    assert h[16..] == h[16..24] + h[24..];
    assert h[8..] == h[8..16] + h[16..];
    assert h == h[0..8] + h[8..];
  }

  lemma {:induction false} DecodeSlots(s: seq<Byte>) returns (slots: seq<Entry>)
    requires |s| % 16 == 0
    ensures SlotBytes(slots) == s && forall e :: e in slots ==> e.Fits()
  {
    if s == [] {
      slots := [];
    } else {
      var e := DecodeEntry(s[..ENTRY_SIZE]);
      EntryBytesRoundTrip(s[..ENTRY_SIZE]);
      var rest := DecodeSlots(s[ENTRY_SIZE..]);
      slots := [e] + rest;
      assert slots[1..] == rest;
      assert s == s[..ENTRY_SIZE] + s[ENTRY_SIZE..];
    }
  }

  // ---------------------------------------------------------------- write sequences

  datatype SlotUpdate = SlotUpdate(slot: nat, entry: Entry)

  function PutAll(slots: seq<Entry>, ws: seq<SlotUpdate>): seq<Entry>
    decreases ws
  {
    if ws == [] then slots else PutAll(Put(slots, ws[0].slot, ws[0].entry), ws[1..])
  }

  predicate Writes(ws: seq<SlotUpdate>, k: nat) {
    exists w :: w in ws && w.slot == k
  }

  /** The last entry that `ws` stores in slot `k`, or `before` if there is none. */
  function LastWrite(ws: seq<SlotUpdate>, k: nat, before: Entry): Entry {
    if ws == [] then before
    else LastWrite(ws[1..], k, if ws[0].slot == k then ws[0].entry else before)
  }

  /** The number of slots the file must have after `ws`. */
  function Reach(ws: seq<SlotUpdate>, before: nat): nat {
    if ws == [] then before else Reach(ws[1..], Max(before, ws[0].slot + 1))
  }

  lemma {:induction false} PutAllSpec(slots: seq<Entry>, ws: seq<SlotUpdate>)
    ensures |PutAll(slots, ws)| == Reach(ws, |slots|)
    ensures forall k: nat :: Get(PutAll(slots, ws), k) == LastWrite(ws, k, Get(slots, k))
    decreases ws
  {
    if ws == [] {
    } else {
      var next := Put(slots, ws[0].slot, ws[0].entry);
      PutAllSpec(next, ws[1..]);
      forall k: nat
        ensures Get(PutAll(slots, ws), k) == LastWrite(ws, k, Get(slots, k))
      {
        assert Get(next, k) == if ws[0].slot == k then ws[0].entry else Get(slots, k);
      }
    }
  }

  lemma {:induction false} PutAllConcat(slots: seq<Entry>, a: seq<SlotUpdate>, b: seq<SlotUpdate>)
    ensures PutAll(slots, a + b) == PutAll(PutAll(slots, a), b)
    decreases a
  {
    if a == [] {
      assert a + b == b;
    } else {
      assert (a + b)[1..] == a[1..] + b;
      PutAllConcat(Put(slots, a[0].slot, a[0].entry), a[1..], b);
    }
  }

  lemma {:induction false} LastWriteOverrides(ws: seq<SlotUpdate>, k: nat, x: Entry, y: Entry)
    requires x == y || Writes(ws, k)
    ensures LastWrite(ws, k, x) == LastWrite(ws, k, y)
  {
    if ws == [] {
    } else if ws[0].slot == k {
    } else {
      if x != y {
        var w :| w in ws && w.slot == k;
        assert w in ws[1..];
      }
      LastWriteOverrides(ws[1..], k, x, y);
    }
  }

  lemma {:induction false} ReachBounds(ws: seq<SlotUpdate>, before: nat)
    ensures before <= Reach(ws, before)
    ensures forall w :: w in ws ==> w.slot < Reach(ws, before)
  {
    if ws == [] {
    } else {
      ReachBounds(ws[1..], Max(before, ws[0].slot + 1));
      forall w | w in ws
        ensures w.slot < Reach(ws, before)
      {
        assert w == ws[0] || w in ws[1..];
      }
    }
  }

  lemma {:induction false} ReachAbsorbs(ws: seq<SlotUpdate>, a: nat, b: nat)
    requires a <= b <= Reach(ws, a)
    ensures Reach(ws, a) == Reach(ws, b)
  {
    if ws == [] {
    } else if b <= Max(a, ws[0].slot + 1) {
      assert Max(b, ws[0].slot + 1) == Max(a, ws[0].slot + 1);
    } else {
      ReachAbsorbs(ws[1..], Max(a, ws[0].slot + 1), b);
    }
  }

  /** `image` differs from `base` only where `ws` is going to write anyway. */
  ghost predicate Covered(base: seq<Entry>, image: seq<Entry>, ws: seq<SlotUpdate>) {
    && |base| <= |image| <= Reach(ws, |base|)
    && forall k: nat :: Get(image, k) == Get(base, k) || Writes(ws, k)
  }

  /** Replaying `ws` repairs every such difference, byte for byte. */
  lemma ReplayAbsorbs(base: seq<Entry>, image: seq<Entry>, ws: seq<SlotUpdate>)
    requires Covered(base, image, ws)
    ensures PutAll(base, ws) == PutAll(image, ws)
  {
    PutAllSpec(base, ws);
    PutAllSpec(image, ws);
    ReachAbsorbs(ws, |base|, |image|);
    forall k: nat
      ensures Get(PutAll(base, ws), k) == Get(PutAll(image, ws), k)
    {
      LastWriteOverrides(ws, k, Get(base, k), Get(image, k));
    }
    forall k: nat | k < |PutAll(base, ws)|
      ensures PutAll(base, ws)[k] == PutAll(image, ws)[k]
    {
      assert Get(PutAll(base, ws), k) == Get(PutAll(image, ws), k);
    }
  }

  /** A further write to a slot that `ws` writes keeps the relation. */
  lemma CoveredPut(base: seq<Entry>, image: seq<Entry>, ws: seq<SlotUpdate>, k: nat, e: Entry)
    requires Covered(base, image, ws) && Writes(ws, k)
    ensures Covered(base, Put(image, k, e), ws)
  {
    ReachBounds(ws, |base|);
  }
}
