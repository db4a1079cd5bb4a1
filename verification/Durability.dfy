/** Crash safety in sync mode: one write at a time, every system call a step of its
    own, and a power loss that may come between any two of them. */
module Durability {
  import opened Bytes
  import opened Results
  import opened BlockFormat
  import opened FileSet
  import opened IndexFile
  import opened BlockIo
  import opened Scan
  import opened Log
  import opened History
  import opened StoreState
  import opened Reopen
  import opened PowerLoss

  /** A data-file write; opening a file is a write of nothing that creates it. */
  datatype DataOp = DataOp(file: nat, local: nat, data: seq<Byte>)

  function ApplyData(files: Files, ops: seq<DataOp>): Files
    decreases |ops|
  {
    if ops == [] then files
    else ApplyData(WriteFile(files, ops[0].file, ops[0].local, ops[0].data), ops[1..])
  }

  /** The data-file operations of one block, in the order they are issued. */
  function DataOps(c: Config, v: Seen): (ops: seq<DataOp>)
    requires v.height < U64_LIMIT && |c.codec.compress(v.block)| < U32_LIMIT
    ensures |ops| == 3
  {
    var p := Split(c.cap, v.offset);
    [DataOp(p.file, 0, []),
     DataOp(p.file, p.local + HEADER_SIZE, c.codec.compress(v.block)),
     DataOp(p.file, p.local, Serialize(c.codec.HeaderFor(v.height, v.block)))]
  }

  /** Where the writer stands between two system calls. */
  datatype Phase =
    | Idle
    | Writing(done: nat)   // space reserved and `done` data operations issued
    | DataSynced           // the data file was synced
    | IndexWritten         // the index entry was written
    | BeforeSync           // a checkpoint is due
    | BeforeHeader         // the index file was synced for it

  datatype Machine = Machine(
    files: Files,                // data files on disk
    unsyncedData: seq<DataOp>,
    index: Index,                // the index file on disk
    unsyncedIndex: seq<IndexOp>,
    phase: Phase,
    job: Seen,                   // the block being written
    dataHighwater: nat,
    heightHighwater: nat,
    floor: nat,
    lastCheckpoint: nat,
    log: seq<Seen>,              // history: blocks whose data was synced
    acked: nat,                  // history: how many of them were acknowledged
    base: nat,                   // history: blocks that the header on disk describes
    top: nat)                    // history: blocks that the latest header describes

  function IndexView(m: Machine): Index {
    ApplyOps(m.index, m.unsyncedIndex)
  }

  datatype Action =
    | Begin(height: U64, block: seq<Byte>)
    | DataStep          // open the file, write the payload, write the block header
    | SyncData
    | WriteEntry
    | Settle            // advance the floor, raise the highwater, decide on a checkpoint
    | SyncIndex
    | WriteHeader
    | Close             // a final checkpoint

  predicate Pending(m: Machine) {
    m.phase.Writing?
  }

  ghost predicate Enabled(c: Config, m: Machine, a: Action) {
    match a
    case Begin(height, block) =>
      && m.phase == Idle
      && FileIndexLeft(c, m.dataHighwater)
      && Admit(c, m.dataHighwater, height, block).Ok?
      && |c.codec.compress(block)| <= MAX_BLOCK_SIZE
    case DataStep => m.phase.Writing? && m.phase.done < 3 && JobFits(c, m.job)
    case SyncData => m.phase == Writing(3)
    case WriteEntry => m.phase == DataSynced
    case Settle => m.phase == IndexWritten
    case SyncIndex => m.phase == BeforeSync
    case WriteHeader => m.phase == BeforeHeader
    case Close => m.phase == Idle
  }

  predicate JobFits(c: Config, v: Seen) {
    v.height < U64_LIMIT && |c.codec.compress(v.block)| < U32_LIMIT
  }

  ghost function DoBegin(c: Config, m: Machine, r: Reservation, height: U64, block: seq<Byte>): Machine {
    m.(phase := Writing(0), job := Appended(c, r.offset, height, block), dataHighwater := r.end)
  }

  function DoDataStep(c: Config, m: Machine): Machine
    requires m.phase.Writing? && m.phase.done < 3 && JobFits(c, m.job)
  {
    m.(phase := Writing(m.phase.done + 1), unsyncedData := m.unsyncedData + [DataOps(c, m.job)[m.phase.done]])
  }

  function DoSyncData(m: Machine): Machine {
    m.(phase := DataSynced, files := ApplyData(m.files, m.unsyncedData), unsyncedData := [], log := m.log + [m.job])
  }

  function JobEntry(c: Config, m: Machine): IndexOp {
    PutEntry(Slot(c, m.job.height), Entry(m.job.offset, m.job.size, 0))
  }

  function DoWriteEntry(c: Config, m: Machine): Machine {
    m.(phase := IndexWritten, unsyncedIndex := m.unsyncedIndex + [JobEntry(c, m)])
  }

  function DoSettle(m: Machine): Machine {
    var due := CheckpointDue(m.heightHighwater < m.job.height, m.job.height, m.dataHighwater, m.lastCheckpoint);
    m.(phase := if due then BeforeSync else Idle,
       floor := AdvancedFloor(IndexView(m), m.floor, m.job.height),
       heightHighwater := Max(m.heightHighwater, m.job.height),
       acked := if due then m.acked else |m.log|)
  }

  function DoSyncIndex(m: Machine): Machine {
    m.(phase := BeforeHeader, index := IndexView(m), unsyncedIndex := [], base := m.top)
  }

  function NextHeader(m: Machine): Header {
    CheckpointHeader(IndexView(m).header, m.dataHighwater, m.heightHighwater, m.floor)
  }

  function DoWriteHeader(m: Machine): Machine {
    m.(phase := Idle, lastCheckpoint := m.dataHighwater, acked := |m.log|, top := |m.log|,
       unsyncedIndex := m.unsyncedIndex + [PutHeader(NextHeader(m))])
  }

  ghost function Do(c: Config, m: Machine, a: Action): Machine
    requires Enabled(c, m, a)
  {
    match a
    case Begin(height, block) => DoBegin(c, m, Admit(c, m.dataHighwater, height, block).value, height, block)
    case DataStep => DoDataStep(c, m)
    case SyncData => DoSyncData(m)
    case WriteEntry => DoWriteEntry(c, m)
    case Settle => DoSettle(m)
    case SyncIndex => DoSyncIndex(m)
    case WriteHeader => DoWriteHeader(m)
    case Close => m.(phase := BeforeSync)
  }

  /** A new store whose creation header has reached the disk. */
  function Created(h: Header): Machine {
    var s := Fresh(h);
    Machine(s.files, [], s.index, [], Idle, Seen(0, 0, 0, []),
            s.dataHighwater, s.heightHighwater, s.floor, s.lastCheckpoint, [], 0, 0, 0)
  }

  ghost predicate Runs(c: Config, m: Machine, actions: seq<Action>)
    decreases |actions|
  {
    actions != [] ==> Enabled(c, m, actions[0]) && Runs(c, Do(c, m, actions[0]), actions[1..])
  }

  ghost function Final(c: Config, m: Machine, actions: seq<Action>): Machine
    requires Runs(c, m, actions)
    decreases |actions|
  {
    if actions == [] then m else Final(c, Do(c, m, actions[0]), actions[1..])
  }

  // ---------------------------------------------------------------- the invariant

  ghost predicate IndexImage(c: Config, ix: Index, log: seq<Seen>, k: nat) {
    HeaderDescribes(c, ix.header, log, k) && IndexUpTo(c, ix.slots, log, k)
  }

  ghost predicate EntriesOf(c: Config, log: seq<Seen>, k: nat, ops: seq<IndexOp>) {
    k <= |log| && forall op :: op in ops ==> op.PutEntry? && Writes(Updates(c, log[k..]), op.slot)
  }

  predicate HeaderPending(m: Machine) {
    m.unsyncedIndex != [] && m.unsyncedIndex[0].PutHeader?
  }

  /** The index on disk describes a prefix of the history, and every unsynced index
      write is about blocks behind the prefix that its header describes. */
  ghost predicate IndexSafe(c: Config, m: Machine) {
    && IndexImage(c, m.index, m.log, m.base)
    && m.base <= m.top
    && (if HeaderPending(m) then
          && IndexImage(c, m.index.(header := m.unsyncedIndex[0].header), m.log, m.top)
          && EntriesOf(c, m.log, m.top, m.unsyncedIndex[1..])
        else
          m.top == m.base && EntriesOf(c, m.log, m.base, m.unsyncedIndex))
  }

  /** How many blocks the index entries and the in-memory marks account for. */
  function Entered(m: Machine): int {
    if m.phase == DataSynced then |m.log| - 1 else |m.log|
  }

  function Settled(m: Machine): int {
    if m.phase == DataSynced || m.phase == IndexWritten then |m.log| - 1 else |m.log|
  }

  ghost predicate MarksOk(c: Config, m: Machine) {
    && 0 <= Settled(m) && 0 <= Entered(m)
    && IsHighwater(c, m.log[..Settled(m)], m.heightHighwater)
    && IsLogFloor(c, m.log[..Settled(m)], m.floor)
    && IndexView(m).slots == SlotsOf(c, m.log[..Entered(m)])
    && Matches(c, IndexView(m).header)
  }

  ghost predicate JobOk(c: Config, m: Machine) {
    && (m.phase.Writing? ==>
          && LaidAt(c, m.job, EndAt(m.log, |m.log|)) && m.dataHighwater == m.job.offset + FrameLen(m.job)
          && JobFits(c, m.job) && m.phase.done <= 3
          && m.unsyncedData == DataOps(c, m.job)[..m.phase.done])
    && (!m.phase.Writing? ==> m.unsyncedData == [] && m.dataHighwater == EndAt(m.log, |m.log|))
    && (m.phase == DataSynced || m.phase == IndexWritten ==> m.log != [] && m.log[|m.log| - 1] == m.job)
  }

  predicate AcksOk(m: Machine) {
    && m.acked <= |m.log| <= m.acked + 1
    && (m.phase.Idle? || m.phase.Writing? ==> m.acked == |m.log|)
  }

  ghost predicate Inv(c: Config, m: Machine) {
    && Tight(c, m.files, m.log)
    && IndexSafe(c, m)
    && MarksOk(c, m)
    && JobOk(c, m)
    && AcksOk(m)
    && Ordered(m)
  }

  /** Headers never describe more than what is indexed. */
  predicate Ordered(m: Machine) {
    && m.base <= m.top <= |m.log|
    && (m.phase == DataSynced ==> m.top < |m.log|)
    && (m.phase == BeforeHeader ==> m.unsyncedIndex == [] && m.base == m.top)
  }

  // ---------------------------------------------------------------- longer histories

  lemma {:induction false} ReachMore(a: seq<SlotUpdate>, b: seq<SlotUpdate>, before: nat)
    ensures Reach(a, before) <= Reach(a + b, before)
    decreases |a|
  {
    if a == [] {
      assert a + b == b;
      ReachBounds(b, before);
    } else {
      assert (a + b)[1..] == a[1..] + b;
      ReachMore(a[1..], b, Max(before, a[0].slot + 1));
    }
  }

  lemma WritesMore(a: seq<SlotUpdate>, b: seq<SlotUpdate>, k: nat)
    requires Writes(a, k) || Writes(b, k)
    ensures Writes(a + b, k)
  {
    if Writes(a, k) {
      var w :| w in a && w.slot == k;
      assert w in a + b;
    } else {
      var w :| w in b && w.slot == k;
      assert w in a + b;
    }
  }

  lemma RestOfAppended(log: seq<Seen>, v: Seen, k: nat)
    requires k <= |log|
    ensures (log + [v])[k..] == log[k..] + [v] && (log + [v])[..k] == log[..k]
  {
  }

  lemma IndexUpToMore(c: Config, slots: seq<Entry>, log: seq<Seen>, k: nat, v: Seen)
    requires IndexUpTo(c, slots, log, k)
    ensures IndexUpTo(c, slots, log + [v], k)
  {
    RestOfAppended(log, v, k);
    UpdatesConcat(c, log[k..], [v]);
    var a, b := Updates(c, log[k..]), Updates(c, [v]);
    ReachMore(a, b, |SlotsOf(c, log[..k])|);
    hide SlotsOf, Updates, Reach, Writes;
    forall j: nat
      ensures Get(slots, j) == Get(SlotsOf(c, log[..k]), j) || Writes(a + b, j)
    {
      if Writes(a, j) {
        WritesMore(a, b, j);
      }
    }
  }

  lemma EntriesOfMore(c: Config, log: seq<Seen>, k: nat, ops: seq<IndexOp>, v: Seen)
    requires EntriesOf(c, log, k, ops)
    ensures EntriesOf(c, log + [v], k, ops)
  {
    RestOfAppended(log, v, k);
    UpdatesConcat(c, log[k..], [v]);
    hide Writes, Updates;
    forall op | op in ops
      ensures op.PutEntry? && Writes(Updates(c, (log + [v])[k..]), op.slot)
    {
      WritesMore(Updates(c, log[k..]), Updates(c, [v]), op.slot);
    }
  }

  lemma ImageMore(c: Config, ix: Index, log: seq<Seen>, k: nat, v: Seen)
    requires IndexImage(c, ix, log, k)
    ensures IndexImage(c, ix, log + [v], k)
  {
    hide HeaderDescribes, IndexUpTo;
    HeaderStays(c, ix.header, log, k, v);
    IndexUpToMore(c, ix.slots, log, k, v);
  }

  // ---------------------------------------------------------------- surviving index images

  lemma {:induction false} EntriesKeepImage(c: Config, ix: Index, log: seq<Seen>, k: nat, ops: seq<IndexOp>)
    requires IndexImage(c, ix, log, k) && EntriesOf(c, log, k, ops)
    ensures IndexImage(c, ApplyOps(ix, ops), log, k)
    decreases |ops|
  {
    hide HeaderDescribes;
    if ops == [] {
    } else {
      assert ops[0] in ops;
      CoveredPut(SlotsOf(c, log[..k]), ix.slots, Updates(c, log[k..]), ops[0].slot, ops[0].entry);
      EntriesKeepImage(c, ApplyOp(ix, ops[0]), log, k, ops[1..]);
    }
  }

  lemma {:induction false} UpdatesSuffix(c: Config, log: seq<Seen>, j: nat, k: nat, slot: nat)
    requires j <= k <= |log| && Writes(Updates(c, log[k..]), slot)
    ensures Writes(Updates(c, log[j..]), slot)
  {
    assert log[j..] == log[j..k] + log[k..];
    UpdatesConcat(c, log[j..k], log[k..]);
    WritesMore(Updates(c, log[j..k]), Updates(c, log[k..]), slot);
  }

  lemma EntriesOfEarlier(c: Config, log: seq<Seen>, j: nat, k: nat, ops: seq<IndexOp>, part: seq<IndexOp>)
    requires j <= k && EntriesOf(c, log, k, ops) && forall op :: op in part ==> op in ops
    ensures EntriesOf(c, log, j, part)
  {
    hide Writes, Updates;
    forall op | op in part
      ensures op.PutEntry? && Writes(Updates(c, log[j..]), op.slot)
    {
      UpdatesSuffix(c, log, j, k, op.slot);
    }
  }

  /** Whatever subset of the unsynced index writes survives, the index describes a
      prefix of the history and is stale only where the later blocks are indexed. */
  lemma IndexSurvives(c: Config, m: Machine, keep: seq<bool>) returns (k: nat)
    requires IndexSafe(c, m) && |keep| == |m.unsyncedIndex|
    ensures IndexImage(c, ApplyOps(m.index, Kept(m.unsyncedIndex, keep)), m.log, k)
    ensures k == m.base || (k == m.top && HeaderPending(m))
  {
    hide IndexImage, EntriesOf, Put;
    var ops := m.unsyncedIndex;
    if HeaderPending(m) {
      var part := Kept(ops[1..], keep[1..]);
      KeptIsPart(ops[1..], keep[1..]);
      if keep[0] {
        k := m.top;
        EntriesOfEarlier(c, m.log, m.top, m.top, ops[1..], part);
        EntriesKeepImage(c, m.index.(header := ops[0].header), m.log, m.top, part);
        assert ([ops[0]] + part)[1..] == part;
      } else {
        k := m.base;
        EntriesOfEarlier(c, m.log, m.base, m.top, ops[1..], part);
        EntriesKeepImage(c, m.index, m.log, m.base, part);
        assert [] + part == part;
      }
    } else {
      k := m.base;
      KeptIsPart(ops, keep);
      EntriesOfEarlier(c, m.log, m.base, m.base, ops, Kept(ops, keep));
      EntriesKeepImage(c, m.index, m.log, m.base, Kept(ops, keep));
    }
  }

  // ---------------------------------------------------------------- surviving data images

  function Zeros(n: nat): seq<Byte> {
    seq(n, _ => 0)
  }

  /** The file of the block in flight with `extra` appended to it. */
  function Extended(c: Config, files: Files, v: Seen, extra: seq<Byte>): Files {
    var f := Split(c.cap, v.offset).file;
    files[f := FileAt(files, f) + extra]
  }

  /** What can be left of a block of which not everything reached the disk: nothing,
      an empty file, the payload alone, or the header alone. */
  ghost predicate IsRemnant(c: Config, v: Seen, extra: seq<Byte>)
    requires JobFits(c, v)
  {
    || extra == []
    || extra == Zeros(HEADER_SIZE) + c.codec.compress(v.block)
    || extra == Serialize(c.codec.HeaderFor(v.height, v.block))
  }

  ghost predicate DataImage(c: Config, files: Files, v: Seen, image: Files)
    requires JobFits(c, v)
  {
    || image == files
    || image == PlaceFrame(c, files, v.offset, v.height, v.block)
    || exists extra :: IsRemnant(c, v, extra) && image == Extended(c, files, v, extra)
  }

  lemma PayloadAlone(f: seq<Byte>, payload: seq<Byte>)
    requires payload != []
    ensures WriteAt(f, |f| + HEADER_SIZE, payload) == f + (Zeros(HEADER_SIZE) + payload)
  {
  }

  /** Every subset of the data operations of a block leaves one of these images. */
  lemma DataSurvives(c: Config, files: Files, v: Seen, n: nat, keep: seq<bool>)
    requires c.codec.Valid() && JobFits(c, v) && v.block != []
    requires |FileAt(files, Split(c.cap, v.offset).file)| == Split(c.cap, v.offset).local
    requires n <= 3 && |keep| == n
    ensures DataImage(c, files, v, ApplyData(files, Kept(DataOps(c, v)[..n], keep)))
  {
    assert c.codec.compress(v.block) != [];
    var ops := DataOps(c, v);
    hide Serialize, Split, WriteAt;
    var k0, k1, k2 := n > 0 && keep[0], n > 1 && keep[1], n > 2 && keep[2];
    var kept := Kept(ops[..n], keep);
    KeptThree(ops, n, keep);
    assert kept == (if k0 then [ops[0]] else []) + (if k1 then [ops[1]] else []) + (if k2 then [ops[2]] else []);
    ThreeSteps(c, files, v, k0, k1, k2);
  }

  lemma KeptThree(ops: seq<DataOp>, n: nat, keep: seq<bool>)
    requires |ops| == 3 && n <= 3 && |keep| == n
    ensures Kept(ops[..n], keep)
         == (if n > 0 && keep[0] then [ops[0]] else []) + (if n > 1 && keep[1] then [ops[1]] else [])
            + (if n > 2 && keep[2] then [ops[2]] else [])
  {
    var s := ops[..n];
    if n > 0 {
      var s1, keep1 := s[1..], keep[1..];
      assert Kept(s, keep) == (if keep[0] then [ops[0]] else []) + Kept(s1, keep1);
      if n > 1 {
        var s2, keep2 := s1[1..], keep1[1..];
        assert Kept(s1, keep1) == (if keep[1] then [ops[1]] else []) + Kept(s2, keep2);
        if n > 2 {
          assert Kept(s2, keep2) == (if keep[2] then [ops[2]] else []) + Kept(s2[1..], keep2[1..]);
          assert s2[1..] == [];
        } else {
          assert s2 == [];
        }
      } else {
        assert s1 == [];
      }
    }
  }

  lemma ApplyDataConcat(files: Files, a: seq<DataOp>, b: seq<DataOp>)
    ensures ApplyData(files, a + b) == ApplyData(ApplyData(files, a), b)
    decreases |a|
  {
    if a == [] {
      assert a + b == b;
    } else {
      assert (a + b)[1..] == a[1..] + b;
      ApplyDataConcat(WriteFile(files, a[0].file, a[0].local, a[0].data), a[1..], b);
    }
  }

  lemma ApplyOne(files: Files, op: DataOp)
    ensures ApplyData(files, [op]) == WriteFile(files, op.file, op.local, op.data)
    ensures ApplyData(files, []) == files
  {
    assert [op][1..] == [];
  }

  lemma OpeningKeeps(f: seq<Byte>)
    ensures WriteAt(f, 0, []) == f
  {
  }

  lemma ApplyNone(files: Files, ops: seq<DataOp>) returns (after: Files)
    ensures after == files == ApplyData(files, ops[..0])
  {
    after := files;
  }

  /** One more operation, and what it does to its file. */
  lemma ApplyNext(files: Files, before: Files, ops: seq<DataOp>, n: nat) returns (after: Files)
    requires n < |ops| && before == ApplyData(files, ops[..n])
    ensures after == ApplyData(files, ops[..n + 1])
    ensures FileAt(after, ops[n].file) == WriteAt(FileAt(before, ops[n].file), ops[n].local, ops[n].data)
  {
    hide WriteAt;
    assert ops[..n + 1] == ops[..n] + [ops[n]];
    ApplyDataConcat(files, ops[..n], [ops[n]]);
    ApplyOne(before, ops[n]);
    after := ApplyData(files, ops[..n + 1]);
  }

  /** However many of its data operations a killed process has completed, a block header
      stands in front of its whole payload. */
  lemma KilledWriteHasPayload(c: Config, files: Files, v: Seen, done: nat)
    requires JobFits(c, v) && done <= 3
    ensures var f, at := FileIndex(c.cap, v.offset), LocalOffset(c.cap, v.offset);
      PayloadFirst(FileAt(files, f), FileAt(ApplyData(files, DataOps(c, v)[..done]), f), at, c.codec.compress(v.block))
  {
    SplitIs(c.cap, v.offset);
    var ops, p := DataOps(c, v), Split(c.cap, v.offset);
    var f, payload := FileAt(files, p.file), c.codec.compress(v.block);
    var header := Serialize(c.codec.HeaderFor(v.height, v.block));
    assert ops == [DataOp(p.file, 0, []), DataOp(p.file, p.local + HEADER_SIZE, payload), DataOp(p.file, p.local, header)];
    OpeningKeeps(f);
    hide *;
    NothingTouched(f, p.local, payload);
    HeaderUntouched(f, p.local, payload, payload);
    PayloadStays(f, p.local, payload, header);
    var none := ApplyNone(files, ops);
    var one := ApplyNext(files, none, ops, 0);
    var two := ApplyNext(files, one, ops, 1);
    var three := ApplyNext(files, two, ops, 2);
    assert done == 0 || done == 1 || done == 2 || done == 3;
  }

  lemma ThreeSteps(c: Config, files: Files, v: Seen, k0: bool, k1: bool, k2: bool)
    requires c.codec.Valid() && JobFits(c, v) && c.codec.compress(v.block) != []
    requires |FileAt(files, Split(c.cap, v.offset).file)| == Split(c.cap, v.offset).local
    ensures var ops := DataOps(c, v);
      DataImage(c, files, v, ApplyData(files,
        (if k0 then [ops[0]] else []) + (if k1 then [ops[1]] else []) + (if k2 then [ops[2]] else [])))
  {
    var ops := DataOps(c, v);
    var p := Split(c.cap, v.offset);
    var f := FileAt(files, p.file);
    var payload, header := c.codec.compress(v.block), Serialize(c.codec.HeaderFor(v.height, v.block));
    var a := if k0 then [ops[0]] else [];
    var b := if k1 then [ops[1]] else [];
    var d := if k2 then [ops[2]] else [];
    ApplyDataConcat(files, a + b, d);
    ApplyDataConcat(files, a, b);
    var files0 := ApplyData(files, a);
    ApplyOne(files, ops[0]);
    ApplyOne(files0, ops[1]);
    ApplyOne(ApplyData(files0, b), ops[2]);
    PayloadAlone(f, payload);
    WriteAtAppends(f, header);
    assert files0 == if k0 then files[p.file := f] else files;
    assert ops[1] == DataOp(p.file, p.local + HEADER_SIZE, payload) && ops[2] == DataOp(p.file, p.local, header);
    hide DataOps, WriteAt, Serialize, Split, ApplyData;
    ImageOf(c, files, v, files0, k1, k2, ApplyData(ApplyData(files0, b), d));
  }

  lemma ImageOf(c: Config, files: Files, v: Seen, files0: Files, k1: bool, k2: bool, image: Files)
    requires JobFits(c, v)
    requires var p := Split(c.cap, v.offset);
      var f := FileAt(files, p.file);
      var payload, header := c.codec.compress(v.block), Serialize(c.codec.HeaderFor(v.height, v.block));
      var files1 := if k1 then WriteFile(files0, p.file, p.local + HEADER_SIZE, payload) else files0;
      && (files0 == files || files0 == files[p.file := f])
      && WriteAt(f, p.local + HEADER_SIZE, payload) == f + (Zeros(HEADER_SIZE) + payload)
      && WriteAt(f, p.local, header) == f + header
      && image == if k2 then WriteFile(files1, p.file, p.local, header) else files1
    ensures DataImage(c, files, v, image)
  {
    hide WriteAt, Serialize, Split, Zeros;
    var p := Split(c.cap, v.offset);
    var f := FileAt(files, p.file);
    var payload, header := c.codec.compress(v.block), Serialize(c.codec.HeaderFor(v.height, v.block));
    assert FileAt(files0, p.file) == f;
    if k1 && k2 {
      assert image == PlaceFrame(c, files, v.offset, v.height, v.block);
    } else if k1 {
      var extra := Zeros(HEADER_SIZE) + payload;
      assert IsRemnant(c, v, extra) && image == Extended(c, files, v, extra);
    } else if k2 {
      assert IsRemnant(c, v, header) && image == Extended(c, files, v, header);
    } else if files0 != files {
      assert f + [] == f;
      assert IsRemnant(c, v, []) && image == Extended(c, files, v, []);
    }
  }

  /** The scan does not take a remnant for a block. */
  lemma RemnantStops(c: Config, files: Files, end: nat, v: Seen, extra: seq<Byte>)
    requires c.codec.Valid() && JobFits(c, v) && IsRemnant(c, v, extra)
    requires v.size == |c.codec.compress(v.block)| > 0
    requires |FileAt(files, Split(c.cap, v.offset).file)| == Split(c.cap, v.offset).local
    requires end == v.offset + |extra|
    ensures ParseAt(c, Extended(c, files, v, extra), end, v.offset) == Stop
  {
    if extra != [] {
      var p := Split(c.cap, v.offset);
      var f := FileAt(files, p.file);
      var file := f + extra;
      hide Split;
      assert file[p.local..p.local + HEADER_SIZE] == extra[..HEADER_SIZE];
      if extra == Serialize(c.codec.HeaderFor(v.height, v.block)) {
        BlockFormat.HeaderRoundTrip(c.codec.HeaderFor(v.height, v.block));
        assert extra[..HEADER_SIZE] == extra;
      } else {
        ZeroHeader(extra);
      }
    }
  }

  lemma ZeroHeader(extra: seq<Byte>)
    requires |extra| >= HEADER_SIZE && extra[..HEADER_SIZE] == Zeros(HEADER_SIZE)
    ensures Deserialize(extra[..HEADER_SIZE]).Ok? && Deserialize(extra[..HEADER_SIZE]).value.size == 0
  {
    var s := extra[..HEADER_SIZE];
    ZeroLe(4);
    FromToLe(0, 4);
    assert s[8..12] == ToLe(0, 4);
  }

  /** A remnant ends the data files right behind the place of its block. */
  lemma RemnantEnds(c: Config, files: Files, from: nat, v: Seen, extra: seq<Byte>)
    requires c.codec.Valid() && LaidAt(c, v, from) && NextPlaceIs(c, files, from, v)
    requires JobFits(c, v) && IsRemnant(c, v, extra)
    ensures var after := Extended(c, files, v, extra);
      && from <= v.offset
      && ValidateLayout(c.cap, Sizes(after)) == Ok(v.offset + |extra|)
      && Walk(c, after, v.offset + |extra|, v.offset) == Trail([], v.offset, None)
  {
    var after := Extended(c, files, v, extra);
    hide *;
    LaidFacts(c, v, from);
    LaidStep(c, v, from);
    RemnantLength(c, v, extra);
    PayloadOf(c, v);
    PlaceAtEnd(c, files, from, v);
    ExtendedShape(c, files, from, v, extra, after);
    RemnantFits(c, v, |extra|);
    LayoutOfLastFile(c.cap, after, v.offset, |extra|);
    RemnantStops(c, files, v.offset + |extra|, v, extra);
    WalkStops(c, after, v.offset + |extra|, v.offset);
  }

  /** A remnant disturbs neither the log nor the tail in front of it. */
  lemma RemnantKeepsLog(c: Config, files: Files, log: seq<Seen>, v: Seen, extra: seq<Byte>)
    requires Tight(c, files, log) && LaidAt(c, v, EndAt(log, |log|))
    requires NextPlaceIs(c, files, EndAt(log, |log|), v)
    ensures OnDisk(c, Extended(c, files, v, extra), log)
    ensures v.offset != EndAt(log, |log|) ==> TailClosed(c, Extended(c, files, v, extra), EndAt(log, |log|))
  {
    var after := Extended(c, files, v, extra);
    hide *;
    ExtendedShape(c, files, EndAt(log, |log|), v, extra, after);
    TailsStayClosed(c, files, log, v, after);
    TightAt(c, files, log);
    OnDiskStays(c, files, after, log);
  }

  /** From the end of the log, over a skipped tail if there is one, to the remnant. */
  lemma WalkToRemnant(c: Config, files: Files, end: nat, from: nat, v: Seen)
    requires LaidAt(c, v, from) && from <= v.offset
    requires v.offset != from ==> TailClosed(c, files, from) && from < end
    requires Walk(c, files, end, v.offset) == Trail([], v.offset, None)
    ensures Walk(c, files, end, from) == Trail([], v.offset, None)
  {
    hide *;
    if v.offset != from {
      ParseSkippedTail(c, files, end, v, from);
      WalkSkip(c, files, end, from, v.offset);
    }
  }

  /** Data files with a remnant behind the log recover to the log. */
  lemma RemnantRecovers(c: Config, files: Files, log: seq<Seen>, v: Seen, extra: seq<Byte>) returns (end: nat, next: nat)
    requires c.codec.Valid() && Tight(c, files, log) && LaidAt(c, v, EndAt(log, |log|))
    requires JobFits(c, v) && IsRemnant(c, v, extra)
    ensures Recoverable(c, Extended(c, files, v, extra), log, end, next)
  {
    hide *;
    var after := Extended(c, files, v, extra);
    var from := EndAt(log, |log|);
    end, next := v.offset + |extra|, v.offset;
    NextPlace(c, files, log, v);
    RemnantEnds(c, files, from, v, extra);
    RemnantKeepsLog(c, files, log, v, extra);
    WalkToRemnant(c, after, end, from, v);
    RecoverableIntro(c, after, log, end, next);
  }

  lemma PayloadOf(c: Config, v: Seen)
    requires c.codec.Valid() && Writable(c, v.height, v.block)
    ensures |c.codec.compress(v.block)| > 0
  {
    PayloadPositive(c, v.block);
  }

  lemma RemnantLength(c: Config, v: Seen, extra: seq<Byte>)
    requires JobFits(c, v) && IsRemnant(c, v, extra) && v.size == |c.codec.compress(v.block)|
    ensures |extra| <= FrameLen(v)
  {
  }

  lemma RemnantFits(c: Config, v: Seen, len: nat)
    requires InOneFile(c.cap, v.offset, FrameLen(v)) && len <= FrameLen(v) && v.offset + FrameLen(v) < U64_LIMIT
    ensures InOneFile(c.cap, v.offset, len) && v.offset + len < U64_LIMIT
  {
  }

  lemma ExtendedShape(c: Config, files: Files, from: nat, v: Seen, extra: seq<Byte>, after: Files)
    requires NextPlaceIs(c, files, from, v) && after == Extended(c, files, v, extra)
    ensures EndsWith(c.cap, after, v.offset, |extra|)
    ensures Grown(files, after)
    ensures forall i :: i in files && i != Split(c.cap, v.offset).file ==> i in after && after[i] == files[i]
  {
    hide Split;
  }

  lemma RecoverableIntro(c: Config, files: Files, log: seq<Seen>, end: nat, next: nat)
    requires OnDisk(c, files, log) && ValidateLayout(c.cap, Sizes(files)) == Ok(end)
    requires EndAt(log, |log|) <= end && Walk(c, files, end, EndAt(log, |log|)) == Trail([], next, None)
    ensures Recoverable(c, files, log, end, next)
  {
    hide OnDisk, Walk, ValidateLayout;
  }

  /** Whatever subset of the data writes in flight survives, the data files hold the
      history, or the history and the block in flight, and nothing else a scan accepts. */
  lemma DataImageRecovers(c: Config, files: Files, log: seq<Seen>, v: Seen, image: Files)
    returns (all: seq<Seen>, end: nat, next: nat)
    requires c.codec.Valid() && Tight(c, files, log) && LaidAt(c, v, EndAt(log, |log|))
    requires JobFits(c, v) && DataImage(c, files, v, image)
    ensures all == log || all == log + [v]
    ensures Recoverable(c, image, all, end, next)
  {
    hide Tight, LaidAt, IsRemnant, Extended, Recoverable, PlaceFrame;
    if image == files {
      all, end, next := log, EndAt(log, |log|), EndAt(log, |log|);
      TightIsRecoverable(c, files, log);
    } else if image == PlaceFrame(c, files, v.offset, v.height, v.block) {
      all := log + [v];
      assert WriteFrame(c, files, v) == image;
      TightAppend(c, files, log, v);
      end, next := EndAt(all, |all|), EndAt(all, |all|);
      TightIsRecoverable(c, image, all);
    } else {
      var extra :| IsRemnant(c, v, extra) && image == Extended(c, files, v, extra);
      all := log;
      end, next := RemnantRecovers(c, files, log, v, extra);
    }
  }

  // ---------------------------------------------------------------- the theorem

  /** What a power loss may leave behind. */
  ghost predicate Survives(m: Machine, files: Files, ix: Index) {
    exists keepData: seq<bool>, keepIndex: seq<bool> ::
      && |keepData| == |m.unsyncedData| && |keepIndex| == |m.unsyncedIndex|
      && files == ApplyData(m.files, Kept(m.unsyncedData, keepData))
      && ix == ApplyOps(m.index, Kept(m.unsyncedIndex, keepIndex))
  }

  lemma SurvivorRecovers(c: Config, m: Machine, keepData: seq<bool>, keepIndex: seq<bool>)
    returns (all: seq<Seen>)
    requires c.codec.Valid() && c.minHeight >= 1 && Inv(c, m)
    requires |keepData| == |m.unsyncedData| && |keepIndex| == |m.unsyncedIndex|
    ensures var files := ApplyData(m.files, Kept(m.unsyncedData, keepData));
      var ix := ApplyOps(m.index, Kept(m.unsyncedIndex, keepIndex));
      && Recover(c, files, ix).Ok?
      && Represents(c, files, Recover(c, files, ix).value, all)
    ensures all == m.log || (m.phase.Writing? && all == m.log + [m.job])
  {
    var files := ApplyData(m.files, Kept(m.unsyncedData, keepData));
    var ix := ApplyOps(m.index, Kept(m.unsyncedIndex, keepIndex));
    var end, next;
    if m.phase.Writing? {
      var from := EndAt(m.log, |m.log|);
      LaidFacts(c, m.job, from);
      assert m.job.block != [] && JobFits(c, m.job) && m.phase.done <= 3;
      hide Tight, LaidAt, IndexSafe, DataImage, NextPlaceIs, Kept, MarksOk, DataOps;
      NextPlace(c, m.files, m.log, m.job);
      PlaceAtEnd(c, m.files, from, m.job);
      DataSurvives(c, m.files, m.job, m.phase.done, keepData);
      all, end, next := DataImageRecovers(c, m.files, m.log, m.job, files);
    } else {
      all, end, next := m.log, EndAt(m.log, |m.log|), EndAt(m.log, |m.log|);
      TightIsRecoverable(c, m.files, m.log);
    }
    hide *;
    InvIndex(c, m);
    var k := IndexSurvives(c, m, keepIndex);
    if all != m.log {
      ImageMore(c, ix, m.log, k, m.job);
    }
    ImageFacts(c, ix, all, k);
    RecoversLog(c, files, ix, all, k, end, next);
  }

  lemma InvIndex(c: Config, m: Machine)
    requires Inv(c, m)
    ensures IndexSafe(c, m)
  {
  }

  lemma ImageFacts(c: Config, ix: Index, log: seq<Seen>, k: nat)
    requires IndexImage(c, ix, log, k)
    ensures HeaderDescribes(c, ix.header, log, k) && IndexUpTo(c, ix.slots, log, k)
  {
  }

  // ---------------------------------------------------------------- the steps

  lemma InvFacts(c: Config, m: Machine)
    requires Inv(c, m)
    ensures Tight(c, m.files, m.log) && IndexSafe(c, m) && MarksOk(c, m) && JobOk(c, m) && AcksOk(m) && Ordered(m)
  {
  }

  lemma InvIntro(c: Config, m: Machine)
    requires Tight(c, m.files, m.log) && IndexSafe(c, m) && MarksOk(c, m) && JobOk(c, m) && AcksOk(m) && Ordered(m)
    ensures Inv(c, m)
  {
  }

  lemma SameIndexSafe(c: Config, m: Machine, q: Machine)
    requires IndexSafe(c, m) && q.index == m.index && q.unsyncedIndex == m.unsyncedIndex
    requires q.log == m.log && q.base == m.base && q.top == m.top
    ensures IndexSafe(c, q)
  {
    hide IndexImage, EntriesOf;
  }

  lemma SameMarks(c: Config, m: Machine, q: Machine)
    requires MarksOk(c, m) && q.index == m.index && q.unsyncedIndex == m.unsyncedIndex && q.log == m.log
    requires q.heightHighwater == m.heightHighwater && q.floor == m.floor
    requires Settled(q) == Settled(m) && Entered(q) == Entered(m)
    ensures MarksOk(c, q)
  {
    hide IsHighwater, IsLogFloor, SlotsOf, ApplyOps, Matches;
  }

  lemma CreatedInv(c: Config, h: Header)
    requires Matches(c, h) && c.minHeight >= 1
    requires h.nextWriteOffset == 0 && h.maxHeight == 0 && h.contiguous == 0
    ensures Inv(c, Created(h))
  {
    FreshKeeps(c, h);
    SlotsAreUpTo(c, [], 0);
    assert Created(h).log[..0] == [];
    assert SlotsOf(c, []) == [];
  }

  lemma BeginInv(c: Config, m: Machine, height: U64, block: seq<Byte>)
    requires c.codec.Valid() && Inv(c, m) && m.phase == Idle
    requires FileIndexLeft(c, m.dataHighwater) && Admit(c, m.dataHighwater, height, block).Ok?
    requires |c.codec.compress(block)| <= MAX_BLOCK_SIZE
    ensures Inv(c, DoBegin(c, m, Admit(c, m.dataHighwater, height, block).value, height, block))
  {
    var s := State(m.files, m.index, m.dataHighwater, m.heightHighwater, m.floor, m.lastCheckpoint);
    var r := Admit(c, m.dataHighwater, height, block).value;
    var q := DoBegin(c, m, r, height, block);
    hide *;
    BeginEffect(c, m, r, height, block);
    InvFacts(c, m);
    NoJob(c, m);
    SameCounts(m, q);
    AdmittedIsLaid(c, s, height, block, m.dataHighwater);
    SameIndexSafe(c, m, q);
    SameMarks(c, m, q);
    LaidFacts(c, q.job, m.dataHighwater);
    NewJobOk(c, q);
    SmallParts(m, q);
    InvIntro(c, q);
  }

  lemma BeginEffect(c: Config, m: Machine, r: Reservation, height: U64, block: seq<Byte>)
    ensures DoBegin(c, m, r, height, block)
         == m.(phase := Writing(0), job := Appended(c, r.offset, height, block), dataHighwater := r.end)
  {
  }

  lemma NoJob(c: Config, m: Machine)
    requires JobOk(c, m) && !m.phase.Writing?
    ensures m.unsyncedData == [] && m.dataHighwater == EndAt(m.log, |m.log|)
  {
    hide LaidAt, DataOps;
  }

  lemma SameCounts(m: Machine, q: Machine)
    requires q.log == m.log
    requires m.phase != DataSynced && m.phase != IndexWritten && q.phase != DataSynced && q.phase != IndexWritten
    ensures Settled(q) == Settled(m) == |m.log| && Entered(q) == Entered(m) == |m.log|
  {
  }

  lemma NewJobOk(c: Config, q: Machine)
    requires q.phase == Writing(0) && q.unsyncedData == []
    requires LaidAt(c, q.job, EndAt(q.log, |q.log|)) && q.dataHighwater == q.job.offset + FrameLen(q.job)
    ensures JobOk(c, q)
  {
    LaidFacts(c, q.job, EndAt(q.log, |q.log|));
    assert DataOps(c, q.job)[..0] == [];
    hide LaidAt, DataOps;
  }

  lemma SmallParts(m: Machine, q: Machine)
    requires AcksOk(m) && Ordered(m) && q.log == m.log && q.acked == m.acked && q.base == m.base && q.top == m.top
    requires q.phase.Writing? && (m.phase.Idle? || m.phase.Writing?)
    ensures AcksOk(q) && Ordered(q)
  {
  }

  lemma DataStepInv(c: Config, m: Machine)
    requires Inv(c, m) && m.phase.Writing? && m.phase.done < 3 && JobFits(c, m.job)
    ensures Inv(c, DoDataStep(c, m))
  {
    var q := DoDataStep(c, m);
    hide *;
    DataStepEffect(c, m);
    InvFacts(c, m);
    NextDataOp(c, m);
    SameCounts(m, q);
    SameIndexSafe(c, m, q);
    SameMarks(c, m, q);
    SmallParts(m, q);
    InvIntro(c, q);
  }

  lemma DataStepEffect(c: Config, m: Machine)
    requires m.phase.Writing? && m.phase.done < 3 && JobFits(c, m.job)
    ensures var q := DoDataStep(c, m);
      q == m.(phase := Writing(m.phase.done + 1), unsyncedData := q.unsyncedData)
  {
  }

  lemma NextDataOp(c: Config, m: Machine)
    requires JobOk(c, m) && m.phase.Writing? && m.phase.done < 3 && JobFits(c, m.job)
    ensures JobOk(c, DoDataStep(c, m))
  {
    hide LaidAt, DataOps;
    var ops, n := DataOps(c, m.job), m.phase.done;
    assert ops[..n] + [ops[n]] == ops[..n + 1];
  }

  lemma AllDataApplied(c: Config, files: Files, v: Seen)
    requires c.codec.Valid() && JobFits(c, v) && v.block != []
    ensures ApplyData(files, DataOps(c, v)) == PlaceFrame(c, files, v.offset, v.height, v.block)
  {
    var ops := DataOps(c, v);
    assert c.codec.compress(v.block) != [];
    assert ops == [ops[0]] + ([ops[1]] + [ops[2]]);
    ApplyDataConcat(files, [ops[0]], [ops[1]] + [ops[2]]);
    ApplyOne(files, ops[0]);
    var files0 := ApplyData(files, [ops[0]]);
    ApplyDataConcat(files0, [ops[1]], [ops[2]]);
    ApplyOne(files0, ops[1]);
    ApplyOne(ApplyData(files0, [ops[1]]), ops[2]);
    hide WriteAt, Serialize, Split;
    assert FileAt(files0, ops[0].file) == FileAt(files, ops[0].file);
  }

  lemma SyncDataInv(c: Config, m: Machine)
    requires c.codec.Valid() && Inv(c, m) && m.phase == Writing(3)
    ensures Inv(c, DoSyncData(m))
  {
    var v, q := m.job, DoSyncData(m);
    assert q == m.(phase := DataSynced, files := q.files, unsyncedData := [], log := m.log + [v]);
    hide *;
    InvFacts(c, m);
    SyncedFiles(c, m);
    SafeMore(c, m, q, v);
    SyncedMarks(c, m, q);
    InvIntro(c, q);
  }

  lemma SyncedFiles(c: Config, m: Machine)
    requires c.codec.Valid() && Tight(c, m.files, m.log) && JobOk(c, m) && m.phase == Writing(3)
    ensures Tight(c, DoSyncData(m).files, m.log + [m.job])
    ensures JobOk(c, DoSyncData(m))
  {
    var v := m.job;
    var from := EndAt(m.log, |m.log|);
    assert LaidAt(c, v, from) && JobFits(c, v) && m.dataHighwater == v.offset + FrameLen(v);
    FullOps(c, v);
    assert DoSyncData(m).files == ApplyData(m.files, DataOps(c, v));
    assert DoSyncData(m) == m.(phase := DataSynced, files := DoSyncData(m).files, unsyncedData := [], log := m.log + [v]);
    hide *;
    LaidFacts(c, v, from);
    WritableBlock(c, v);
    AllDataApplied(c, m.files, v);
    WriteFrameIs(c, m.files, v);
    TightAppend(c, m.files, m.log, v);
    SyncedJob(c, DoSyncData(m), m.log, v);
  }

  lemma SyncedJob(c: Config, q: Machine, log: seq<Seen>, v: Seen)
    requires q.phase == DataSynced && q.log == log + [v] && q.job == v && q.unsyncedData == []
    requires q.dataHighwater == EndAt(log + [v], |log| + 1)
    ensures JobOk(c, q)
  {
  }

  lemma FullOps(c: Config, v: Seen)
    requires JobFits(c, v)
    ensures DataOps(c, v)[..3] == DataOps(c, v)
  {
  }

  lemma WritableBlock(c: Config, v: Seen)
    requires Writable(c, v.height, v.block)
    ensures v.block != []
  {
  }

  lemma SyncedMarks(c: Config, m: Machine, q: Machine)
    requires m.phase == Writing(3) && q.phase == DataSynced && q.log == m.log + [m.job]
    requires MarksOk(c, m) && AcksOk(m) && Ordered(m)
    requires q.index == m.index && q.unsyncedIndex == m.unsyncedIndex && q.base == m.base && q.top == m.top
    requires q.heightHighwater == m.heightHighwater && q.floor == m.floor && q.acked == m.acked
    ensures MarksOk(c, q) && AcksOk(q) && Ordered(q)
  {
    var n := |m.log|;
    assert q.log[..n] == m.log && m.log[..n] == m.log;
    hide IsHighwater, IsLogFloor, SlotsOf, ApplyOps, Matches;
  }

  lemma WriteFrameIs(c: Config, files: Files, v: Seen)
    requires JobFits(c, v)
    ensures WriteFrame(c, files, v) == PlaceFrame(c, files, v.offset, v.height, v.block)
  {
  }

  lemma SafeMore(c: Config, m: Machine, q: Machine, v: Seen)
    requires IndexSafe(c, m) && q.log == m.log + [v]
    requires q.index == m.index && q.unsyncedIndex == m.unsyncedIndex && q.base == m.base && q.top == m.top
    ensures IndexSafe(c, q)
  {
    hide IndexImage, EntriesOf;
    ImageMore(c, m.index, m.log, m.base, v);
    if HeaderPending(m) {
      ImageMore(c, m.index.(header := m.unsyncedIndex[0].header), m.log, m.top, v);
      EntriesOfMore(c, m.log, m.top, m.unsyncedIndex[1..], v);
    } else {
      EntriesOfMore(c, m.log, m.base, m.unsyncedIndex, v);
    }
  }

  lemma LastIsWritten(c: Config, log: seq<Seen>, k: nat)
    requires k < |log|
    ensures Writes(Updates(c, log[k..]), Slot(c, log[|log| - 1].height))
  {
    var n := |log| - 1;
    assert log[k..] == log[k..n] + [log[n]];
    UpdatesConcat(c, log[k..n], [log[n]]);
    assert Updates(c, [log[n]]) == [UpdateFor(c, log[n])];
    assert UpdateFor(c, log[n]) in Updates(c, log[k..]);
  }

  lemma WriteEntryInv(c: Config, m: Machine)
    requires Inv(c, m) && m.phase == DataSynced
    ensures Inv(c, DoWriteEntry(c, m))
  {
    var q, op := DoWriteEntry(c, m), JobEntry(c, m);
    hide *;
    WriteEntryEffect(c, m);
    InvFacts(c, m);
    LastJob(c, m);
    SafeWithEntry(c, m, q, op);
    EntryMarks(c, m);
    EntryParts(c, m, q);
    InvIntro(c, q);
  }

  lemma WriteEntryEffect(c: Config, m: Machine)
    ensures DoWriteEntry(c, m) == m.(phase := IndexWritten, unsyncedIndex := m.unsyncedIndex + [JobEntry(c, m)])
    ensures JobEntry(c, m).PutEntry? && JobEntry(c, m).slot == Slot(c, m.job.height)
  {
  }

  lemma LastJob(c: Config, m: Machine)
    requires JobOk(c, m) && Ordered(m) && (m.phase == DataSynced || m.phase == IndexWritten)
    ensures m.log != [] && m.log[|m.log| - 1] == m.job && (m.phase == DataSynced ==> m.top < |m.log|)
  {
    hide LaidAt, DataOps;
  }

  lemma EntryMarks(c: Config, m: Machine)
    requires MarksOk(c, m) && m.phase == DataSynced && m.log != [] && m.log[|m.log| - 1] == m.job
    ensures MarksOk(c, DoWriteEntry(c, m))
  {
    var n := |m.log|;
    var q := DoWriteEntry(c, m);
    hide IsHighwater, IsLogFloor, SlotsOf, ApplyOps, Put;
    assert m.log == m.log[..n - 1] + [m.job] && q.log[..n] == q.log;
    SlotsOfAppend(c, m.log[..n - 1], m.job);
    ApplyOpsAppend(m.index, m.unsyncedIndex, JobEntry(c, m));
  }

  lemma EntryParts(c: Config, m: Machine, q: Machine)
    requires JobOk(c, m) && AcksOk(m) && Ordered(m) && m.phase == DataSynced && q.phase == IndexWritten
    requires q.unsyncedData == m.unsyncedData && q.dataHighwater == m.dataHighwater && q.log == m.log && q.job == m.job
    requires q.acked == m.acked && q.base == m.base && q.top == m.top
    ensures JobOk(c, q) && AcksOk(q) && Ordered(q)
  {
    hide LaidAt, DataOps;
  }

  lemma SafeWithEntry(c: Config, m: Machine, q: Machine, op: IndexOp)
    requires IndexSafe(c, m) && m.log != [] && m.top < |m.log|
    requires op.PutEntry? && op.slot == Slot(c, m.log[|m.log| - 1].height)
    requires q.log == m.log && q.index == m.index && q.unsyncedIndex == m.unsyncedIndex + [op]
    requires q.base == m.base && q.top == m.top
    ensures IndexSafe(c, q)
  {
    hide IndexImage, Updates, Writes;
    if HeaderPending(m) {
      LastIsWritten(c, m.log, m.top);
      assert q.unsyncedIndex[1..] == m.unsyncedIndex[1..] + [op];
    } else {
      LastIsWritten(c, m.log, m.base);
      assert m.unsyncedIndex != [] ==> q.unsyncedIndex[0] == m.unsyncedIndex[0];
    }
  }

  lemma SettleInv(c: Config, m: Machine)
    requires c.codec.Valid() && c.minHeight >= 1 && Inv(c, m) && m.phase == IndexWritten
    ensures Inv(c, DoSettle(m))
  {
    var q := DoSettle(m);
    hide *;
    SettleEffect(m);
    InvFacts(c, m);
    LastJob(c, m);
    SameIndexSafe(c, m, q);
    SettleParts(c, m, q);
    SettleMarks(c, m, q);
    InvIntro(c, q);
  }

  lemma SettleEffect(m: Machine)
    ensures var q := DoSettle(m);
      && q == m.(phase := q.phase, floor := AdvancedFloor(IndexView(m), m.floor, m.job.height),
                 heightHighwater := Max(m.heightHighwater, m.job.height), acked := q.acked)
      && (q.phase == BeforeSync || (q.phase == Idle && q.acked == |q.log|))
      && (q.phase == BeforeSync ==> q.acked == m.acked)
  {
    hide IndexView, AdvancedFloor, CheckpointDue, Max;
  }

  lemma SettleParts(c: Config, m: Machine, q: Machine)
    requires JobOk(c, m) && AcksOk(m) && Ordered(m) && m.phase == IndexWritten
    requires (q.phase == Idle && q.acked == |q.log|) || (q.phase == BeforeSync && q.acked == m.acked)
    requires q.unsyncedData == m.unsyncedData && q.dataHighwater == m.dataHighwater && q.log == m.log && q.job == m.job
    requires q.base == m.base && q.top == m.top
    ensures JobOk(c, q) && AcksOk(q) && Ordered(q)
  {
    hide LaidAt, DataOps;
  }

  lemma SettleMarks(c: Config, m: Machine, q: Machine)
    requires c.codec.Valid() && c.minHeight >= 1 && m.phase == IndexWritten
    requires Tight(c, m.files, m.log) && MarksOk(c, m) && m.log != [] && m.log[|m.log| - 1] == m.job
    requires q.phase == Idle || q.phase == BeforeSync
    requires q.log == m.log && q.index == m.index && q.unsyncedIndex == m.unsyncedIndex
    requires q.floor == AdvancedFloor(IndexView(m), m.floor, m.job.height)
    requires q.heightHighwater == Max(m.heightHighwater, m.job.height)
    ensures MarksOk(c, q)
  {
    var n := |m.log|;
    var v, before, ix := m.job, m.log[..n - 1], IndexView(m);
    hide *;
    LastSplit(m.log);
    MarksBefore(c, m);
    ViewIs(m);
    TightAt(c, m.files, m.log);
    LaidHeights(c, m.log);
    HeightsSplit(c, before, v);
    AddressableMin(c.minHeight, v.height);
    HighwaterAppend(c, before, m.heightHighwater, v);
    FloorAfterAppend(c, ix, before, m.floor, v);
    MarksIntro(c, q, ix);
  }

  lemma LastSplit(log: seq<Seen>)
    requires log != []
    ensures log == log[..|log| - 1] + [log[|log| - 1]]
  {
  }

  lemma MarksBefore(c: Config, m: Machine)
    requires m.phase == IndexWritten && MarksOk(c, m) && m.log != []
    ensures IsHighwater(c, m.log[..|m.log| - 1], m.heightHighwater) && IsLogFloor(c, m.log[..|m.log| - 1], m.floor)
    ensures IndexView(m).slots == SlotsOf(c, m.log) && Matches(c, IndexView(m).header)
    ensures IndexView(m).header.minHeight == c.minHeight
  {
    hide IsHighwater, IsLogFloor, SlotsOf, IndexView;
    assert m.log[..|m.log|] == m.log;
  }

  lemma ViewIs(m: Machine)
    ensures IndexView(m) == ApplyOps(m.index, m.unsyncedIndex)
  {
  }

  lemma MarksIntro(c: Config, q: Machine, ix: Index)
    requires q.phase == Idle || q.phase == BeforeSync
    requires ix == ApplyOps(q.index, q.unsyncedIndex) && Matches(c, ix.header) && ix.slots == SlotsOf(c, q.log)
    requires IsHighwater(c, q.log, q.heightHighwater) && IsLogFloor(c, q.log, q.floor)
    ensures MarksOk(c, q)
  {
    assert q.log[..|q.log|] == q.log;
    hide IsHighwater, IsLogFloor, SlotsOf, ApplyOps, Matches;
  }

  lemma HeightsSplit(c: Config, before: seq<Seen>, v: Seen)
    requires HeightsOk(c, before + [v])
    ensures HeightsOk(c, before) && Addressable(c.minHeight, v.height) && v.size > 0
  {
    var all := before + [v];
    assert forall x :: x in before ==> x in all;
    assert v in all;
  }

  lemma FloorAfterAppend(c: Config, ix: Index, before: seq<Seen>, floor: nat, v: Seen)
    requires c.minHeight >= 1 && HeightsOk(c, before) && Addressable(c.minHeight, v.height) && v.size > 0
    requires ix.slots == SlotsOf(c, before + [v]) && ix.header.minHeight == c.minHeight
    requires IsLogFloor(c, before, floor)
    ensures IsLogFloor(c, before + [v], AdvancedFloor(ix, floor, v.height))
  {
    hide SlotsOf, Put, HeightsOk, IsLogFloor, AdvancedFloor, Addressable;
    var prior := ix.(slots := SlotsOf(c, before));
    FloorAppend(c, prior, before, floor, v);
    SlotsOfAppend(c, before, v);
    assert ix == prior.(slots := Put(prior.slots, Slot(c, v.height), Entry(v.offset, v.size, 0)));
  }

  lemma SyncIndexInv(c: Config, m: Machine)
    requires Inv(c, m) && m.phase == BeforeSync
    ensures Inv(c, DoSyncIndex(m))
  {
    var q := DoSyncIndex(m);
    hide *;
    SyncIndexEffect(m);
    InvFacts(c, m);
    ViewImage(c, m);
    SyncParts(c, m, q);
    InvIntro(c, q);
  }

  lemma SyncIndexEffect(m: Machine)
    ensures DoSyncIndex(m) == m.(phase := BeforeHeader, index := IndexView(m), unsyncedIndex := [], base := m.top)
    ensures IndexView(DoSyncIndex(m)) == IndexView(m)
  {
  }

  lemma SyncParts(c: Config, m: Machine, q: Machine)
    requires JobOk(c, m) && AcksOk(m) && Ordered(m) && MarksOk(c, m) && m.phase == BeforeSync
    requires q == m.(phase := BeforeHeader, index := q.index, unsyncedIndex := [], base := m.top)
    requires IndexView(q) == IndexView(m) && IndexImage(c, q.index, q.log, m.top)
    ensures JobOk(c, q) && AcksOk(q) && Ordered(q) && MarksOk(c, q) && IndexSafe(c, q)
  {
    NoEntries(c, m.log, m.top);
    hide LaidAt, DataOps, IsHighwater, IsLogFloor, SlotsOf, ApplyOps, Matches, IndexImage, EntriesOf;
  }

  lemma ImagePrefix(c: Config, ix: Index, log: seq<Seen>, k: nat)
    requires IndexImage(c, ix, log, k)
    ensures k <= |log|
  {
  }

  lemma NoEntries(c: Config, log: seq<Seen>, k: nat)
    requires k <= |log|
    ensures EntriesOf(c, log, k, [])
  {
  }

  /** What a sync makes durable. */
  lemma ViewImage(c: Config, m: Machine)
    requires IndexSafe(c, m)
    ensures IndexImage(c, ApplyOps(m.index, m.unsyncedIndex), m.log, m.top)
    ensures IndexView(m) == ApplyOps(m.index, m.unsyncedIndex)
  {
    var ops := m.unsyncedIndex;
    ImagePrefix(c, m.index, m.log, m.base);
    if HeaderPending(m) {
      EntriesKeepImage(c, m.index.(header := ops[0].header), m.log, m.top, ops[1..]);
    } else {
      EntriesKeepImage(c, m.index, m.log, m.base, ops);
    }
  }

  lemma WriteHeaderInv(c: Config, m: Machine)
    requires Inv(c, m) && m.phase == BeforeHeader
    ensures Inv(c, DoWriteHeader(m))
  {
    var n, q := |m.log|, DoWriteHeader(m);
    var h := CheckpointHeader(m.index.header, m.dataHighwater, m.heightHighwater, m.floor);
    hide *;
    InvFacts(c, m);
    SyncedIndexFacts(c, m);
    WriteHeaderEffect(m);
    CheckpointDescribes(c, m.index.header, m.log, m.heightHighwater, m.floor);
    CheckpointMatches(c, m.index.header, m.dataHighwater, m.heightHighwater, m.floor);
    SlotsAreUpTo(c, m.log, n);
    HeaderParts(c, m, q, h);
    InvIntro(c, q);
  }

  lemma SyncedIndexFacts(c: Config, m: Machine)
    requires JobOk(c, m) && Ordered(m) && MarksOk(c, m) && m.phase == BeforeHeader
    ensures m.unsyncedIndex == [] && m.base == m.top && IndexView(m) == m.index
    ensures m.index.slots == SlotsOf(c, m.log) && Matches(c, m.index.header) && m.dataHighwater == EndAt(m.log, |m.log|)
    ensures IsHighwater(c, m.log, m.heightHighwater) && IsLogFloor(c, m.log, m.floor)
  {
    hide LaidAt, DataOps, IsHighwater, IsLogFloor, SlotsOf, Matches;
    assert m.log[..|m.log|] == m.log;
  }

  lemma WriteHeaderEffect(m: Machine)
    requires m.unsyncedIndex == [] && IndexView(m) == m.index
    ensures var h := CheckpointHeader(m.index.header, m.dataHighwater, m.heightHighwater, m.floor);
      DoWriteHeader(m) == m.(phase := Idle, lastCheckpoint := m.dataHighwater, acked := |m.log|, top := |m.log|,
                             unsyncedIndex := [PutHeader(h)])
  {
    hide CheckpointHeader, IndexView;
  }

  lemma CheckpointMatches(c: Config, h: Header, next: nat, highwater: nat, floor: nat)
    requires Matches(c, h)
    ensures Matches(c, CheckpointHeader(h, next, highwater, floor))
  {
  }

  lemma HeaderParts(c: Config, m: Machine, q: Machine, h: Header)
    requires JobOk(c, m) && Ordered(m) && IndexSafe(c, m) && m.phase == BeforeHeader && m.unsyncedIndex == []
    requires q == m.(phase := Idle, lastCheckpoint := m.dataHighwater, acked := |m.log|, top := |m.log|,
                     unsyncedIndex := [PutHeader(h)])
    requires HeaderDescribes(c, h, m.log, |m.log|) && IndexUpTo(c, m.index.slots, m.log, |m.log|)
    requires m.index.slots == SlotsOf(c, m.log) && Matches(c, h)
    requires IsHighwater(c, m.log, m.heightHighwater) && IsLogFloor(c, m.log, m.floor)
    ensures JobOk(c, q) && AcksOk(q) && Ordered(q) && MarksOk(c, q) && IndexSafe(c, q)
  {
    NoEntries(c, m.log, |m.log|);
    assert q.unsyncedIndex[1..] == [];
    ApplyOneOp(m.index, PutHeader(h));
    hide LaidAt, DataOps, IsHighwater, IsLogFloor, SlotsOf, ApplyOps, HeaderDescribes, IndexUpTo, EntriesOf, Matches;
    assert q.log[..|q.log|] == q.log;
  }

  lemma ApplyOneOp(ix: Index, op: IndexOp)
    ensures ApplyOps(ix, [op]) == ApplyOp(ix, op)
  {
    assert [op][1..] == [];
  }

  lemma CloseInv(c: Config, m: Machine)
    requires Inv(c, m) && m.phase == Idle
    ensures Inv(c, m.(phase := BeforeSync))
  {
    var q := m.(phase := BeforeSync);
    hide *;
    InvFacts(c, m);
    SameCounts(m, q);
    SameIndexSafe(c, m, q);
    SameMarks(c, m, q);
    CloseParts(c, m, q);
    InvIntro(c, q);
  }

  lemma CloseParts(c: Config, m: Machine, q: Machine)
    requires JobOk(c, m) && AcksOk(m) && Ordered(m) && m.phase == Idle && q == m.(phase := BeforeSync)
    ensures JobOk(c, q) && AcksOk(q) && Ordered(q)
  {
    hide LaidAt, DataOps;
  }

  lemma StepInv(c: Config, m: Machine, a: Action)
    requires c.codec.Valid() && c.minHeight >= 1 && Inv(c, m) && Enabled(c, m, a)
    ensures Inv(c, Do(c, m, a))
  {
    hide Inv, DoBegin, DoDataStep, DoSyncData, DoWriteEntry, DoSettle, DoSyncIndex, DoWriteHeader,
         Admit, FileIndexLeft, JobFits;
    match a
    case Begin(height, block) => BeginInv(c, m, height, block);
    case DataStep => DataStepInv(c, m);
    case SyncData => SyncDataInv(c, m);
    case WriteEntry => WriteEntryInv(c, m);
    case Settle => SettleInv(c, m);
    case SyncIndex => SyncIndexInv(c, m);
    case WriteHeader => WriteHeaderInv(c, m);
    case Close => CloseInv(c, m);
  }

  lemma {:induction false} RunsInv(c: Config, m: Machine, actions: seq<Action>)
    requires c.codec.Valid() && c.minHeight >= 1 && Inv(c, m) && Runs(c, m, actions)
    ensures Inv(c, Final(c, m, actions))
    decreases |actions|
  {
    hide Inv, Enabled, Do;
    if actions == [] {
    } else {
      StepInv(c, m, actions[0]);
      RunsInv(c, Do(c, m, actions[0]), actions[1..]);
    }
  }

  /** The recovered store holds the blocks `all`: every acknowledged one, and at most
      the one that was in flight, with its highwater and floor exact for them. */
  ghost predicate NothingLost(c: Config, m: Machine, files: Files, r: Recovered, all: seq<Seen>) {
    && m.acked <= |m.log| && m.acked <= |all| <= m.acked + 1
    && all[..m.acked] == m.log[..m.acked]
    && (all == m.log || (m.phase.Writing? && all == m.log + [m.job]))
    && Represents(c, files, r, all)
  }

  /** Durability. After any run of the store, wherever the power fails and whichever
      of the unsynced writes it drops, recovery succeeds and the recovered store holds
      every acknowledged block with its last value and at most the one block that was
      in flight, with the exact height highwater and the exact contiguity floor. */
  lemma AcknowledgedBlocksSurvive(c: Config, h: Header, actions: seq<Action>, files: Files, ix: Index)
    requires c.codec.Valid() && c.minHeight >= 1 && Matches(c, h)
    requires h.nextWriteOffset == 0 && h.maxHeight == 0 && h.contiguous == 0
    requires Runs(c, Created(h), actions)
    requires Survives(Final(c, Created(h), actions), files, ix)
    ensures Recover(c, files, ix).Ok?
    ensures exists all: seq<Seen> ::
              NothingLost(c, Final(c, Created(h), actions), files, Recover(c, files, ix).value, all)
  {
    hide *;
    var m := Final(c, Created(h), actions);
    CreatedInv(c, h);
    RunsInv(c, Created(h), actions);
    var keepData, keepIndex := SurvivorIs(m, files, ix);
    var all := SurvivorRecovers(c, m, keepData, keepIndex);
    InvFacts(c, m);
    NothingLostIntro(c, m, files, Recover(c, files, ix).value, all);
  }

  lemma NothingLostIntro(c: Config, m: Machine, files: Files, r: Recovered, all: seq<Seen>)
    requires AcksOk(m) && Represents(c, files, r, all)
    requires all == m.log || (m.phase.Writing? && all == m.log + [m.job])
    ensures NothingLost(c, m, files, r, all)
  {
    AckCounts(m);
    assert (m.log + [m.job])[..|m.log|] == m.log;
    hide Represents;
  }

  lemma AckCounts(m: Machine)
    requires AcksOk(m)
    ensures m.acked <= |m.log| <= m.acked + 1 && (m.phase.Writing? ==> m.acked == |m.log|)
  {
  }

  lemma SurvivorIs(m: Machine, files: Files, ix: Index) returns (keepData: seq<bool>, keepIndex: seq<bool>)
    requires Survives(m, files, ix)
    ensures |keepData| == |m.unsyncedData| && |keepIndex| == |m.unsyncedIndex|
    ensures files == ApplyData(m.files, Kept(m.unsyncedData, keepData))
    ensures ix == ApplyOps(m.index, Kept(m.unsyncedIndex, keepIndex))
  {
    hide ApplyData, Kept, ApplyOps;
    keepData, keepIndex :|
      && |keepData| == |m.unsyncedData| && |keepIndex| == |m.unsyncedIndex|
      && files == ApplyData(m.files, Kept(m.unsyncedData, keepData))
      && ix == ApplyOps(m.index, Kept(m.unsyncedIndex, keepIndex));
  }

  /** The guards of the steps cut off no behaviour: a write in flight can always go on. */
  lemma WritesAreNeverStuck(c: Config, h: Header, actions: seq<Action>) returns (a: Action)
    requires c.codec.Valid() && c.minHeight >= 1 && Matches(c, h)
    requires h.nextWriteOffset == 0 && h.maxHeight == 0 && h.contiguous == 0
    requires Runs(c, Created(h), actions) && Final(c, Created(h), actions).phase != Idle
    ensures Enabled(c, Final(c, Created(h), actions), a) && a != Close && !a.Begin?
  {
    hide *;
    CreatedInv(c, h);
    RunsInv(c, Created(h), actions);
    InvFacts(c, Final(c, Created(h), actions));
    a := StepOf(c, Final(c, Created(h), actions));
  }

  lemma StepOf(c: Config, m: Machine) returns (a: Action)
    requires JobOk(c, m) && m.phase != Idle
    ensures Enabled(c, m, a) && a != Close && !a.Begin?
  {
    hide LaidAt, DataOps, JobFits;
    match m.phase
    case Idle =>
    case Writing(done) => a := if done < 3 then DataStep else SyncData;
    case DataSynced => a := WriteEntry;
    case IndexWritten => a := Settle;
    case BeforeSync => a := SyncIndex;
    case BeforeHeader => a := WriteHeader;
  }

  // ---------------------------------------------------------------- agreement with `Write`

  /** The state that the running process sees, synced or not. */
  function Stored(m: Machine): State {
    State(ApplyData(m.files, m.unsyncedData), IndexView(m), m.dataHighwater, m.heightHighwater, m.floor, m.lastCheckpoint)
  }

  lemma {:induction false} Extend(c: Config, m: Machine, s: seq<Action>, a: Action)
    requires Runs(c, m, s) && Enabled(c, Final(c, m, s), a)
    ensures Runs(c, m, s + [a]) && Final(c, m, s + [a]) == Do(c, Final(c, m, s), a)
    decreases |s|
  {
    hide Enabled, Do;
    if s == [] {
      assert [] + [a] == [a] && [a][1..] == [];
    } else {
      assert (s + [a])[1..] == s[1..] + [a];
      Extend(c, Do(c, m, s[0]), s[1..], a);
    }
  }

  lemma NextStep(c: Config, m: Machine, s: seq<Action>, q: Machine, a: Action)
    requires Runs(c, m, s) && Final(c, m, s) == q && Enabled(c, q, a)
    ensures Runs(c, m, s + [a]) && Final(c, m, s + [a]) == Do(c, q, a)
  {
    hide *;
    Extend(c, m, s, a);
  }

  lemma DataStepIs(c: Config, q: Machine)
    requires q.phase.Writing? && q.phase.done < 3 && JobFits(c, q.job) && q.unsyncedData == DataOps(c, q.job)[..q.phase.done]
    ensures Enabled(c, q, DataStep)
    ensures Do(c, q, DataStep)
         == q.(phase := Writing(q.phase.done + 1), unsyncedData := DataOps(c, q.job)[..q.phase.done + 1])
  {
    hide DataOps;
    var ops, n := DataOps(c, q.job), q.phase.done;
    assert ops[..n] + [ops[n]] == ops[..n + 1];
  }

  /** Space reserved, all three data operations issued, and the data synced. */
  lemma DataPart(c: Config, m: Machine, height: U64, block: seq<Byte>) returns (s: seq<Action>, q: Machine)
    requires c.codec.Valid() && m.phase == Idle && m.unsyncedData == [] && Enabled(c, m, Begin(height, block))
    ensures Runs(c, m, s) && Final(c, m, s) == q && q.phase == DataSynced
    ensures var r := Admit(c, m.dataHighwater, height, block).value;
      && |c.codec.compress(block)| < U32_LIMIT
      && q == m.(phase := DataSynced, job := Appended(c, r.offset, height, block), dataHighwater := r.end,
                 files := PlaceFrame(c, m.files, r.offset, height, block), log := m.log + [q.job])
  {
    var r := Admit(c, m.dataHighwater, height, block).value;
    var v := Appended(c, r.offset, height, block);
    var q0 := DoBegin(c, m, r, height, block);
    BeginFacts(c, m, height, block);
    hide *;
    s := [];
    NoActions(c, m);
    NextStep(c, m, s, m, Begin(height, block));
    s := s + [Begin(height, block)];
    BeginEffect(c, m, r, height, block);
    NoOps(c, v);
    DataStepIs(c, q0);
    NextStep(c, m, s, q0, DataStep);
    s := s + [DataStep];
    var q1 := q0.(phase := Writing(1), unsyncedData := DataOps(c, v)[..1]);
    DataStepIs(c, q1);
    NextStep(c, m, s, q1, DataStep);
    s := s + [DataStep];
    var q2 := q0.(phase := Writing(2), unsyncedData := DataOps(c, v)[..2]);
    DataStepIs(c, q2);
    NextStep(c, m, s, q2, DataStep);
    s := s + [DataStep];
    var q3 := q0.(phase := Writing(3), unsyncedData := DataOps(c, v)[..3]);
    SyncDataIs(c, q3, r.offset, height, block);
    NextStep(c, m, s, q3, SyncData);
    s, q := s + [SyncData], Do(c, q3, SyncData);
  }

  lemma NoActions(c: Config, m: Machine)
    ensures Runs(c, m, []) && Final(c, m, []) == m
  {
  }

  lemma BeginFacts(c: Config, m: Machine, height: U64, block: seq<Byte>)
    requires Enabled(c, m, Begin(height, block))
    ensures var r := Admit(c, m.dataHighwater, height, block).value;
      && Do(c, m, Begin(height, block)) == DoBegin(c, m, r, height, block)
      && JobFits(c, Appended(c, r.offset, height, block)) && |c.codec.compress(block)| < U32_LIMIT && block != []
  {
    hide Reserve, FileIndexLeft, Addressable;
  }

  lemma NoOps(c: Config, v: Seen)
    requires JobFits(c, v)
    ensures DataOps(c, v)[..0] == []
  {
  }

  lemma SyncDataIs(c: Config, q: Machine, off: nat, height: U64, block: seq<Byte>)
    requires c.codec.Valid() && q.phase == Writing(3) && q.job == Appended(c, off, height, block) && block != []
    requires JobFits(c, q.job) && q.unsyncedData == DataOps(c, q.job)[..3]
    ensures |c.codec.compress(block)| < U32_LIMIT && Enabled(c, q, SyncData)
    ensures Do(c, q, SyncData)
         == q.(phase := DataSynced, files := PlaceFrame(c, q.files, off, height, block), unsyncedData := [], log := q.log + [q.job])
  {
    AllDataApplied(c, q.files, q.job);
    FullOps(c, q.job);
    hide ApplyData, DataOps, PlaceFrame;
  }

  /** The index entry, the floor and the highwater. */
  lemma EntryPart(c: Config, m: Machine, s: seq<Action>, q: Machine) returns (t: seq<Action>, p: Machine)
    requires Runs(c, m, s) && Final(c, m, s) == q && q.phase == DataSynced
    ensures Runs(c, m, t) && Final(c, m, t) == p
    ensures var index := ApplyOp(IndexView(q), JobEntry(c, q));
      var due := CheckpointDue(q.heightHighwater < q.job.height, q.job.height, q.dataHighwater, q.lastCheckpoint);
      && IndexView(p) == index
      && p == q.(phase := if due then BeforeSync else Idle, unsyncedIndex := p.unsyncedIndex,
                 floor := AdvancedFloor(index, q.floor, q.job.height),
                 heightHighwater := Max(q.heightHighwater, q.job.height),
                 acked := if due then q.acked else |q.log|)
  {
    var q1 := DoWriteEntry(c, q);
    p := DoSettle(q1);
    WriteEntryEffect(c, q);
    ApplyOpsAppend(q.index, q.unsyncedIndex, JobEntry(c, q));
    assert Enabled(c, q, WriteEntry) && Do(c, q, WriteEntry) == q1;
    assert Enabled(c, q1, Settle) && Do(c, q1, Settle) == p;
    assert IndexView(q1) == ApplyOp(IndexView(q), JobEntry(c, q));
    hide Runs, Final, Enabled, Do, ApplyOp, ApplyOps, JobEntry, AdvancedFloor, CheckpointDue;
    NextStep(c, m, s, q, WriteEntry);
    NextStep(c, m, s + [WriteEntry], q1, Settle);
    t := s + [WriteEntry] + [Settle];
  }

  /** The checkpoint. */
  lemma CheckpointPart(c: Config, m: Machine, s: seq<Action>, q: Machine) returns (t: seq<Action>, p: Machine)
    requires Runs(c, m, s) && Final(c, m, s) == q && q.phase == BeforeSync
    ensures Runs(c, m, t) && Final(c, m, t) == p
    ensures IndexView(p) == IndexView(q).(header := CheckpointHeader(IndexView(q).header, q.dataHighwater, q.heightHighwater, q.floor))
    ensures p == q.(phase := Idle, index := p.index, unsyncedIndex := p.unsyncedIndex, base := p.base, top := p.top,
                    lastCheckpoint := q.dataHighwater, acked := |q.log|)
  {
    var q1 := DoSyncIndex(q);
    p := DoWriteHeader(q1);
    SyncIndexEffect(q);
    assert Enabled(c, q, SyncIndex) && Do(c, q, SyncIndex) == q1;
    assert Enabled(c, q1, WriteHeader) && Do(c, q1, WriteHeader) == p;
    WriteHeaderEffect(q1);
    ApplyOneOp(q1.index, p.unsyncedIndex[0]);
    hide Runs, Final, Enabled, Do, CheckpointHeader;
    NextStep(c, m, s, q, SyncIndex);
    NextStep(c, m, s + [SyncIndex], q1, WriteHeader);
    t := s + [SyncIndex] + [WriteHeader];
  }

  /** A whole write that no power failure interrupts is acknowledged and does exactly
      what `Write` does to the state the process sees. */
  lemma UninterruptedWriteIsWrite(c: Config, m: Machine, height: U64, block: seq<Byte>) returns (s: seq<Action>, q: Machine)
    requires c.codec.Valid() && Inv(c, m) && Enabled(c, m, Begin(height, block))
    ensures Runs(c, m, s) && Final(c, m, s) == q
    ensures q.phase == Idle && q.acked == |q.log| && q.log == m.log + [q.job]
    ensures q.job.height == height && q.job.block == block
    ensures Write(c, Stored(m), height, block) == Ok(Stored(q))
  {
    BeginPhase(c, m, height, block);
    hide *;
    InvFacts(c, m);
    NoJob(c, m);
    var q1, q2;
    s, q1 := DataPart(c, m, height, block);
    s, q2 := EntryPart(c, m, s, q1);
    if q2.phase == BeforeSync {
      s, q := CheckpointPart(c, m, s, q2);
    } else {
      q := q2;
    }
    WriteIs(c, m, height, block, q1, q2, q);
  }

  lemma BeginPhase(c: Config, m: Machine, height: U64, block: seq<Byte>)
    requires Enabled(c, m, Begin(height, block))
    ensures m.phase == Idle && Admit(c, m.dataHighwater, height, block).Ok?
  {
    hide Admit, FileIndexLeft;
  }

  lemma WriteIs(c: Config, m: Machine, height: U64, block: seq<Byte>, q1: Machine, q2: Machine, q: Machine)
    requires Admit(c, m.dataHighwater, height, block).Ok? && m.unsyncedData == [] && m.phase == Idle
    requires |c.codec.compress(block)| < U32_LIMIT
    requires var r := Admit(c, m.dataHighwater, height, block).value;
      q1 == m.(phase := DataSynced, job := Appended(c, r.offset, height, block), dataHighwater := r.end,
               files := PlaceFrame(c, m.files, r.offset, height, block), log := m.log + [q1.job])
    requires var index := ApplyOp(IndexView(q1), JobEntry(c, q1));
      var due := CheckpointDue(q1.heightHighwater < q1.job.height, q1.job.height, q1.dataHighwater, q1.lastCheckpoint);
      && IndexView(q2) == index
      && q2 == q1.(phase := if due then BeforeSync else Idle, unsyncedIndex := q2.unsyncedIndex,
                   floor := AdvancedFloor(index, q1.floor, q1.job.height),
                   heightHighwater := Max(q1.heightHighwater, q1.job.height),
                   acked := if due then q1.acked else |q1.log|)
    requires if q2.phase == BeforeSync then
        && IndexView(q) == IndexView(q2).(header := CheckpointHeader(IndexView(q2).header, q2.dataHighwater, q2.heightHighwater, q2.floor))
        && q == q2.(phase := Idle, index := q.index, unsyncedIndex := q.unsyncedIndex, base := q.base, top := q.top,
                    lastCheckpoint := q2.dataHighwater, acked := |q2.log|)
      else q == q2
    ensures Write(c, Stored(m), height, block) == Ok(Stored(q))
    ensures q.phase == Idle && q.acked == |q.log| && q.log == m.log + [q.job]
    ensures q.job.height == height && q.job.block == block
  {
    hide Admit, PlaceFrame, AdvancedFloor, CheckpointDue, CheckpointHeader, Put, ApplyOps;
    assert IndexView(q1) == IndexView(m);
  }
}
