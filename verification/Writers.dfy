/** Many writers and readers at once. Every system call, every locked section and
    every access to an atomic of `write_block` is one step; the steps of any number of
    calls interleave freely, and a data write or an index write may fail. */
module Writers {
  import opened Bytes
  import opened BlockFormat
  import opened FileSet
  import opened IndexFile
  import opened BlockIo
  import opened History
  import opened StoreState

  /** A block and the space reserved for it; `start` is the highwater found when reserving. */
  datatype Job = Job(height: U64, block: seq<Byte>, start: nat, offset: nat, end: nat)

  /** Where a call of `write_block` stands. */
  datatype Pc =
    | Reserved                              // space reserved
    | FileOpen                              // data file opened
    | PayloadWritten
    | HeaderWritten                         // block header written: the commit point
    | Synced                                // about to write the index entry
    | Published                             // entry written, about to try the first exchange
    | Cascading(cur: nat)                   // moved the floor to `cur`, about to look at the next entry
    | Ready(cur: nat)                       // saw the entry behind `cur`, about to exchange
    | Floored                               // done with the floor
    | Raised(rose: bool)                    // highwater updated
    | Saving                                // a checkpoint is due, about to sync the index file
    | IndexSynced                           // synced if the store is in sync mode
    | HaveHighwater(mark: nat)              // its highwater is loaded
    | HaveFloor(mark: nat, floor: nat)      // its floor is loaded too
    | HeaderSaved                           // index header written
    | Finished                              // returned, the block is indexed
    | Failing                               // a data write failed, about to release the space
    | Released                              // returned an error, the space is given up
    | Unindexed                             // returned an error, the entry was not written

  datatype Call = Call(job: Job, pc: Pc)

  /** The store, and every call made so far. `latest` is history: the call whose
      index entry was written last, for each height. */
  datatype World = World(
    files: Files,
    index: Index,
    dataHighwater: nat,
    floor: nat,
    heightHighwater: nat,
    lastCheckpoint: nat,
    calls: map<nat, Call>,
    latest: map<nat, nat>)

  datatype Action =
    | Begin(id: nat, height: U64, block: seq<Byte>)   // all checks passed, space reserved
    | Advance(id: nat)                                // the next step succeeds
    | Abort(id: nat, torn: nat)                       // it fails after `torn` bytes
    | Close                                           // the final checkpoint

  function Len(c: Config, j: Job): nat {
    HEADER_SIZE + |c.codec.compress(j.block)|
  }

  function EntryOf(c: Config, j: Job): Entry {
    Entry(j.offset, |c.codec.compress(j.block)|, 0)
  }

  /** What the reservation of a call guarantees by itself. */
  predicate Legal(c: Config, j: Job) {
    && j.block != [] && 0 < |c.codec.compress(j.block)| <= MAX_BLOCK_SIZE
    && Addressable(c.minHeight, j.height)
    && j.start <= j.offset && j.end == j.offset + Len(c, j)
    && InOneFile(c.cap, j.offset, Len(c, j))
  }

  function BlockHeaderOf(c: Config, j: Job): seq<Byte>
    requires Legal(c, j)
  {
    Serialize(c.codec.HeaderFor(j.height, j.block))
  }

  /** The call keeps its reservation. */
  predicate Alive(k: Call) {
    !k.pc.Released?
  }

  /** Its index entry is written. */
  predicate EntryWritten(k: Call) {
    || k.pc.Published? || k.pc.Cascading? || k.pc.Ready? || k.pc.Floored? || k.pc.Raised?
    || k.pc.Saving? || k.pc.IndexSynced?
    || k.pc.HaveHighwater? || k.pc.HaveFloor? || k.pc.HeaderSaved? || k.pc.Finished?
  }

  /** Header and payload of its block are on disk. */
  predicate Framed(k: Call) {
    k.pc.HeaderWritten? || k.pc.Synced? || k.pc.Unindexed? || EntryWritten(k)
  }

  /** Its height is counted in the height highwater. */
  predicate Counted(k: Call) {
    EntryWritten(k) && !k.pc.Published? && !k.pc.Cascading? && !k.pc.Ready? && !k.pc.Floored?
  }

  predicate Returned(k: Call) {
    k.pc.Finished? || k.pc.Released? || k.pc.Unindexed?
  }

  ghost predicate AllReturned(w: World) {
    forall i :: i in w.calls ==> Returned(w.calls[i])
  }

  /** The call that will move the floor on from `f`. */
  predicate Responsible(k: Call, f: nat) {
    (k.pc.Published? && k.job.height == f + 1) || k.pc == Cascading(f) || k.pc == Ready(f)
  }

  // ---------------------------------------------------------------- steps

  function Goto(w: World, id: nat, pc: Pc): World
    requires id in w.calls
  {
    w.(calls := w.calls[id := Call(w.calls[id].job, pc)])
  }

  /** A data-file operation of call `id`, `at` bytes into its space. */
  function Touch(c: Config, w: World, id: nat, at: nat, data: seq<Byte>, pc: Pc): World
    requires id in w.calls
  {
    Goto(w, id, pc).(files := WriteInto(w.files, c.cap, w.calls[id].job.offset, at, data))
  }

  function Publish(c: Config, w: World, id: nat): World
    requires id in w.calls
  {
    var j := w.calls[id].job;
    Goto(w, id, Published).(
      index := w.index.(slots := Put(w.index.slots, Slot(c, j.height), EntryOf(c, j))),
      latest := w.latest[j.height := id])
  }

  /** The first exchange: from the height before the block's to the block's. */
  function FirstExchange(w: World, id: nat): World
    requires id in w.calls
  {
    var h := w.calls[id].job.height;
    if w.floor == (if h == 0 then 0 else h - 1) then Goto(w, id, Cascading(h)).(floor := h)
    else Goto(w, id, Floored)
  }

  function Look(c: Config, w: World, id: nat, cur: nat): World
    requires id in w.calls
  {
    Goto(w, id, if Addressable(c.minHeight, cur + 1) && PopulatedAt(w.index, cur + 1) then Ready(cur) else Floored)
  }

  function Exchange(w: World, id: nat, cur: nat): World
    requires id in w.calls
  {
    if w.floor == cur then Goto(w, id, Cascading(cur + 1)).(floor := cur + 1) else Goto(w, id, Floored)
  }

  function Raise(w: World, id: nat): World
    requires id in w.calls
  {
    var h := w.calls[id].job.height;
    Goto(w, id, Raised(w.heightHighwater < h)).(heightHighwater := Max(w.heightHighwater, h))
  }

  /** The saved offset is never 0 here, so the checkpoint is not refused. */
  function Decide(w: World, id: nat, rose: bool): World
    requires id in w.calls
  {
    var j := w.calls[id].job;
    Goto(w, id, if CheckpointDue(rose, j.height, j.end, w.lastCheckpoint) then Saving else Finished)
  }

  function SaveHeader(w: World, id: nat, mark: nat, floor: nat): World
    requires id in w.calls
  {
    Goto(w, id, HeaderSaved).(
      index := w.index.(header := CheckpointHeader(w.index.header, w.calls[id].job.end, mark, floor)))
  }

  /** The conditional rollback. */
  function Release(w: World, id: nat): World
    requires id in w.calls
  {
    var j := w.calls[id].job;
    Goto(w, id, Released).(dataHighwater := if w.dataHighwater == j.end then j.start else w.dataHighwater)
  }

  function DoBegin(w: World, r: Reservation, id: nat, height: U64, block: seq<Byte>): World {
    w.(dataHighwater := r.end,
       calls := w.calls[id := Call(Job(height, block, w.dataHighwater, r.offset, r.end), Reserved)])
  }

  function DoAdvance(c: Config, w: World, id: nat): World
    requires id in w.calls && Legal(c, w.calls[id].job)
  {
    var k := w.calls[id];
    match k.pc
    case Reserved => Touch(c, w, id, 0, [], FileOpen)
    case FileOpen => Touch(c, w, id, HEADER_SIZE, c.codec.compress(k.job.block), PayloadWritten)
    case PayloadWritten => Touch(c, w, id, 0, BlockHeaderOf(c, k.job), HeaderWritten)
    case HeaderWritten => Goto(w, id, Synced)
    case Synced => Publish(c, w, id)
    case Published => FirstExchange(w, id)
    case Cascading(cur) => Look(c, w, id, cur)
    case Ready(cur) => Exchange(w, id, cur)
    case Floored => Raise(w, id)
    case Raised(rose) => Decide(w, id, rose)
    case Saving => Goto(w, id, IndexSynced)
    case IndexSynced => Goto(w, id, HaveHighwater(w.heightHighwater))
    case HaveHighwater(mark) => Goto(w, id, HaveFloor(mark, w.floor))
    case HaveFloor(mark, floor) => SaveHeader(w, id, mark, floor)
    case HeaderSaved => Goto(w, id, Finished).(lastCheckpoint := k.job.end)
    case Failing => Release(w, id)
    case _ => w
  }

  /** Bytes that the next data write of the call is about to write. */
  function Pending(c: Config, k: Call): seq<Byte>
    requires Legal(c, k.job)
  {
    if k.pc == FileOpen then c.codec.compress(k.job.block)
    else if k.pc == PayloadWritten then BlockHeaderOf(c, k.job)
    else []
  }

  predicate CanFail(k: Call) {
    k.pc.Reserved? || k.pc.FileOpen? || k.pc.PayloadWritten? || k.pc.HeaderWritten? || k.pc.Synced?
    || k.pc.Saving? || k.pc.HaveFloor?
  }

  /** A failed open, data write or sync gives the space back; a failed index entry does
      not; and a failed checkpoint leaves the block indexed. */
  function DoFail(c: Config, w: World, id: nat, torn: nat): World
    requires id in w.calls && Legal(c, w.calls[id].job) && torn <= |Pending(c, w.calls[id])|
  {
    var k := w.calls[id];
    match k.pc
    case FileOpen => Touch(c, w, id, HEADER_SIZE, Pending(c, k)[..torn], Failing)
    case PayloadWritten => Touch(c, w, id, 0, Pending(c, k)[..torn], Failing)
    case Synced => Goto(w, id, Unindexed)
    case Saving => Goto(w, id, Finished)
    case HaveFloor(_, _) => Goto(w, id, Finished)
    case _ => Goto(w, id, Failing)
  }

  /** The checkpoint on close, refused when it would point a non-empty store at 0. */
  function DoClose(w: World): World {
    if w.dataHighwater == 0 && w.heightHighwater >= w.index.header.minHeight then w
    else w.(index := w.index.(header := CheckpointHeader(w.index.header, w.dataHighwater, w.heightHighwater, w.floor)),
            lastCheckpoint := w.dataHighwater)
  }

  /** File indices stay within `u32` and compressed blocks within what reads accept. */
  ghost predicate Enabled(c: Config, w: World, a: Action) {
    match a
    case Begin(id, height, block) =>
      && id !in w.calls
      && FileIndexLeft(c, w.dataHighwater)
      && Admit(c, w.dataHighwater, height, block).Ok?
      && |c.codec.compress(block)| <= MAX_BLOCK_SIZE
    case Advance(id) => id in w.calls && Legal(c, w.calls[id].job) && !Returned(w.calls[id])
    case Abort(id, torn) =>
      && id in w.calls && Legal(c, w.calls[id].job) && CanFail(w.calls[id])
      && torn <= |Pending(c, w.calls[id])|
    case Close => AllReturned(w)
  }

  ghost function Do(c: Config, w: World, a: Action): World
    requires Enabled(c, w, a)
  {
    match a
    case Begin(id, height, block) => DoBegin(w, Admit(c, w.dataHighwater, height, block).value, id, height, block)
    case Advance(id) => DoAdvance(c, w, id)
    case Abort(id, torn) => DoFail(c, w, id, torn)
    case Close => DoClose(w)
  }

  ghost predicate Runs(c: Config, w: World, actions: seq<Action>)
    decreases |actions|
  {
    actions != [] ==> Enabled(c, w, actions[0]) && Runs(c, Do(c, w, actions[0]), actions[1..])
  }

  ghost function Final(c: Config, w: World, actions: seq<Action>): World
    requires Runs(c, w, actions)
    decreases |actions|
  {
    if actions == [] then w else Final(c, Do(c, w, actions[0]), actions[1..])
  }

  /** A new store. */
  function Start(h: Header): World {
    var empty := if h.minHeight == 0 then 0 else h.minHeight - 1;
    World(map[], Index(h, []), 0, empty, empty, 0, map[], map[])
  }

  predicate NewHeader(c: Config, h: Header) {
    Matches(c, h) && h.nextWriteOffset == 0 && h.maxHeight == 0 && h.contiguous == 0
  }

  /** A block that nothing but an I/O error can keep from being written. */
  predicate Acceptable(c: Config, height: nat, block: seq<Byte>) {
    && block != [] && |block| < U32_LIMIT
    && 0 < |c.codec.compress(block)| <= MAX_BLOCK_SIZE
    && Addressable(c.minHeight, height)
  }
}
