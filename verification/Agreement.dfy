/** The step machines and the sequential store agree: a write whose steps are not
    interrupted does exactly what `Write` says. */
module Agreement {
  import opened Bytes
  import opened Results
  import opened BlockFormat
  import opened FileSet
  import opened IndexFile
  import opened FloorScan
  import opened BlockIo
  import opened StoreState
  import opened Writers
  import opened WriterInvariants

  /** What the sequential store remembers of a world. */
  function Stored(w: World): State {
    State(w.files, w.index, w.dataHighwater, w.heightHighwater, w.floor, w.lastCheckpoint)
  }

  /** Steps of call `id` alone lead from `w` to `q`. */
  ghost predicate Leads(c: Config, w: World, id: nat, q: World) {
    exists actions: seq<Action> ::
      (forall a :: a in actions ==> a == Advance(id)) && Runs(c, w, actions) && Final(c, w, actions) == q
  }

  lemma LeadsStep(c: Config, w: World, id: nat)
    requires id in w.calls && Legal(c, w.calls[id].job) && !Returned(w.calls[id])
    ensures Leads(c, w, id, DoAdvance(c, w, id))
  {
    hide Legal, Returned, DoAdvance;
    var actions := [Advance(id)];
    assert Enabled(c, w, Advance(id)) && Do(c, w, Advance(id)) == DoAdvance(c, w, id);
    hide Runs, Final, Enabled, Do;
    RunsOne(c, w, Advance(id));
    assert Runs(c, w, actions) && Final(c, w, actions) == DoAdvance(c, w, id);
  }

  lemma LeadsOn(c: Config, w: World, id: nat, q: World, r: World)
    requires Leads(c, w, id, q) && Leads(c, q, id, r)
    ensures Leads(c, w, id, r)
  {
    hide Runs, Final;
    var s: seq<Action> :| (forall a :: a in s ==> a == Advance(id)) && Runs(c, w, s) && Final(c, w, s) == q;
    var t: seq<Action> :| (forall a :: a in t ==> a == Advance(id)) && Runs(c, q, t) && Final(c, q, t) == r;
    RunsJoin(c, w, s, t);
    assert forall a :: a in s + t ==> a == Advance(id);
  }

  lemma LeadsInv(c: Config, w: World, id: nat, q: World)
    requires c.codec.Valid() && c.minHeight >= 1 && Inv(c, w) && Leads(c, w, id, q)
    ensures Inv(c, q)
  {
    hide Inv, Runs, Final;
    var s: seq<Action> :| (forall a :: a in s ==> a == Advance(id)) && Runs(c, w, s) && Final(c, w, s) == q;
    RunsInv(c, w, s);
  }

  lemma LeadsReachable(c: Config, w: World, id: nat, q: World)
    requires Reachable(c, w) && Leads(c, w, id, q)
    ensures Reachable(c, q)
  {
    hide Reachable, Runs, Final;
    var s: seq<Action> :| (forall a :: a in s ==> a == Advance(id)) && Runs(c, w, s) && Final(c, w, s) == q;
    ReachableOn(c, w, s);
  }

  /** The world with call `id` at `pc`. */
  function At(w: World, id: nat, j: Job, pc: Pc): World {
    w.(calls := w.calls[id := Call(j, pc)])
  }

  lemma AtAt(w: World, id: nat, j: Job, pc: Pc, next: Pc)
    ensures Goto(At(w, id, j, pc), id, next) == At(w, id, j, next)
  {
    assert w.calls[id := Call(j, pc)][id := Call(j, next)] == w.calls[id := Call(j, next)];
  }

  lemma Step(c: Config, w: World, id: nat, j: Job, pc: Pc, q: World)
    requires Legal(c, j) && !Returned(Call(j, pc)) && q == DoAdvance(c, At(w, id, j, pc), id)
    ensures Leads(c, At(w, id, j, pc), id, q)
  {
    hide Legal, Returned, DoAdvance, Leads;
    LeadsStep(c, At(w, id, j, pc), id);
  }

  // ---------------------------------------------------------------- the data

  lemma SameFrame(c: Config, files: Files, j: Job)
    requires Legal(c, j)
    ensures WriteInto(WriteInto(WriteInto(files, c.cap, j.offset, 0, []), c.cap, j.offset, HEADER_SIZE, c.codec.compress(j.block)),
                      c.cap, j.offset, 0, BlockHeaderOf(c, j))
         == PlaceFrame(c, files, j.offset, j.height, j.block)
  {
    hide Split, WriteAt, Serialize;
    var p := Split(c.cap, j.offset);
    assert WriteAt(FileAt(files, p.file), p.local, []) == FileAt(files, p.file) by { EmptyWrite(FileAt(files, p.file), p.local); }
    var f0 := files[p.file := FileAt(files, p.file)];
    assert WriteInto(files, c.cap, j.offset, 0, []) == f0;
    assert FileAt(f0, p.file) == FileAt(files, p.file);
    var g := WriteAt(FileAt(files, p.file), p.local + HEADER_SIZE, c.codec.compress(j.block));
    assert f0[p.file := g] == files[p.file := g];
  }

  lemma EmptyWrite(f: seq<Byte>, off: nat)
    ensures WriteAt(f, off, []) == f
  {
  }

  lemma OpenStep(c: Config, w: World, id: nat, j: Job)
    requires Legal(c, j)
    ensures Leads(c, At(w, id, j, Reserved), id, At(w.(files := WriteInto(w.files, c.cap, j.offset, 0, [])), id, j, FileOpen))
  {
    hide Legal, Leads, WriteInto;
    AtAt(w, id, j, Reserved, FileOpen);
    Step(c, w, id, j, Reserved, At(w.(files := WriteInto(w.files, c.cap, j.offset, 0, [])), id, j, FileOpen));
  }

  lemma PayloadStep(c: Config, w: World, id: nat, j: Job)
    requires Legal(c, j)
    ensures Leads(c, At(w, id, j, FileOpen), id,
                  At(w.(files := WriteInto(w.files, c.cap, j.offset, HEADER_SIZE, c.codec.compress(j.block))), id, j, PayloadWritten))
  {
    hide Legal, Leads, WriteInto;
    AtAt(w, id, j, FileOpen, PayloadWritten);
    Step(c, w, id, j, FileOpen,
         At(w.(files := WriteInto(w.files, c.cap, j.offset, HEADER_SIZE, c.codec.compress(j.block))), id, j, PayloadWritten));
  }

  lemma HeaderStep(c: Config, w: World, id: nat, j: Job)
    requires Legal(c, j)
    ensures Leads(c, At(w, id, j, PayloadWritten), id,
                  At(w.(files := WriteInto(w.files, c.cap, j.offset, 0, BlockHeaderOf(c, j))), id, j, HeaderWritten))
  {
    hide Legal, Leads, WriteInto, BlockHeaderOf;
    AtAt(w, id, j, PayloadWritten, HeaderWritten);
    Step(c, w, id, j, PayloadWritten,
         At(w.(files := WriteInto(w.files, c.cap, j.offset, 0, BlockHeaderOf(c, j))), id, j, HeaderWritten));
  }

  lemma SyncStep(c: Config, w: World, id: nat, j: Job)
    requires Legal(c, j)
    ensures Leads(c, At(w, id, j, HeaderWritten), id, At(w, id, j, Synced))
  {
    hide Legal, Leads;
    AtAt(w, id, j, HeaderWritten, Synced);
    Step(c, w, id, j, HeaderWritten, At(w, id, j, Synced));
  }

  lemma DataSteps(c: Config, w: World, id: nat, j: Job)
    requires Legal(c, j)
    ensures Leads(c, At(w, id, j, Reserved), id,
                  At(w, id, j, Synced).(files := PlaceFrame(c, w.files, j.offset, j.height, j.block)))
  {
    hide *;
    var w1 := w.(files := WriteInto(w.files, c.cap, j.offset, 0, []));
    var w2 := w1.(files := WriteInto(w1.files, c.cap, j.offset, HEADER_SIZE, c.codec.compress(j.block)));
    var w3 := w2.(files := WriteInto(w2.files, c.cap, j.offset, 0, BlockHeaderOf(c, j)));
    var start := At(w, id, j, Reserved);
    OpenStep(c, w, id, j);
    PayloadStep(c, w1, id, j);
    LeadsOn(c, start, id, At(w1, id, j, FileOpen), At(w2, id, j, PayloadWritten));
    HeaderStep(c, w2, id, j);
    LeadsOn(c, start, id, At(w2, id, j, PayloadWritten), At(w3, id, j, HeaderWritten));
    SyncStep(c, w3, id, j);
    LeadsOn(c, start, id, At(w3, id, j, HeaderWritten), At(w3, id, j, Synced));
    SameFrame(c, w.files, j);
    LegalBlock(c, j);
    AtFiles(w, id, j, Synced, PlaceFrame(c, w.files, j.offset, j.height, j.block));
  }

  lemma LegalBlock(c: Config, j: Job)
    requires Legal(c, j)
    ensures |c.codec.compress(j.block)| < U32_LIMIT
  {
    hide InOneFile, Addressable;
  }

  lemma AtFiles(w: World, id: nat, j: Job, pc: Pc, files: Files)
    ensures At(w.(files := files), id, j, pc) == At(w, id, j, pc).(files := files)
  {
  }

  // ---------------------------------------------------------------- the cascade

  /** Without interference the cascade stops at the first gap. */
  lemma {:induction false} CascadeSteps(c: Config, w: World, id: nat, j: Job, cur: nat)
    requires Legal(c, j) && w.floor == cur && w.index.header.minHeight == c.minHeight <= cur + 1
    requires forall h: nat :: PopulatedAt(w.index, h) ==> Addressable(c.minHeight, h)
    ensures var bound := c.minHeight + |w.index.slots|;
      Leads(c, At(w, id, j, Cascading(cur)), id,
            At(w, id, j, Floored).(floor := FloorFrom(w.index, cur, bound)))
    decreases c.minHeight + |w.index.slots| - cur
  {
    var bound := c.minHeight + |w.index.slots|;
    var start := At(w, id, j, Cascading(cur));
    hide Legal, Leads, Addressable;
    if PopulatedAt(w.index, cur + 1) {
      assert cur + 1 < bound;
      hide PopulatedAt;
      var next := w.(floor := cur + 1);
      Step(c, w, id, j, Cascading(cur), At(w, id, j, Ready(cur))) by { AtAt(w, id, j, Cascading(cur), Ready(cur)); }
      Step(c, w, id, j, Ready(cur), At(next, id, j, Cascading(cur + 1))) by {
        AtAt(w, id, j, Ready(cur), Cascading(cur + 1));
      }
      LeadsOn(c, start, id, At(w, id, j, Ready(cur)), At(next, id, j, Cascading(cur + 1)));
      CascadeSteps(c, next, id, j, cur + 1);
      LeadsOn(c, start, id, At(next, id, j, Cascading(cur + 1)),
              At(next, id, j, Floored).(floor := FloorFrom(w.index, cur + 1, bound)));
      assert At(next, id, j, Floored).(floor := FloorFrom(w.index, cur + 1, bound))
          == At(w, id, j, Floored).(floor := FloorFrom(w.index, cur, bound));
    } else {
      hide PopulatedAt;
      Step(c, w, id, j, Cascading(cur), At(w, id, j, Floored)) by { AtAt(w, id, j, Cascading(cur), Floored); }
      assert At(w, id, j, Floored) == At(w, id, j, Floored).(floor := cur);
    }
  }

  lemma FloorSteps(c: Config, w: World, id: nat, j: Job)
    requires Legal(c, j) && c.minHeight >= 1 && w.index.header.minHeight == c.minHeight <= j.height
    requires forall h: nat :: PopulatedAt(w.index, h) ==> Addressable(c.minHeight, h)
    ensures Leads(c, At(w, id, j, Published), id,
                  At(w, id, j, Floored).(floor := AdvancedFloor(w.index, w.floor, j.height)))
  {
    var h := j.height;
    var start := At(w, id, j, Published);
    hide Legal, Leads, Addressable, PopulatedAt, FloorFrom;
    if w.floor == h - 1 {
      var next := w.(floor := h);
      Step(c, w, id, j, Published, At(next, id, j, Cascading(h))) by { AtAt(w, id, j, Published, Cascading(h)); }
      CascadeSteps(c, next, id, j, h);
      var end := At(next, id, j, Floored).(floor := FloorFrom(w.index, h, c.minHeight + |w.index.slots|));
      LeadsOn(c, start, id, At(next, id, j, Cascading(h)), end);
      assert end == At(w, id, j, Floored).(floor := AdvancedFloor(w.index, w.floor, h));
    } else {
      Step(c, w, id, j, Published, At(w, id, j, Floored)) by { AtAt(w, id, j, Published, Floored); }
      assert At(w, id, j, Floored) == At(w, id, j, Floored).(floor := w.floor);
    }
  }

  // ---------------------------------------------------------------- the checkpoint

  function Saved(w: World, end: nat): World {
    w.(index := w.index.(header := CheckpointHeader(w.index.header, end, w.heightHighwater, w.floor)), lastCheckpoint := end)
  }

  lemma LoadSteps(c: Config, w: World, id: nat, j: Job)
    requires Legal(c, j)
    ensures Leads(c, At(w, id, j, Saving), id, At(w, id, j, HaveFloor(w.heightHighwater, w.floor)))
  {
    var a, b := HaveHighwater(w.heightHighwater), HaveFloor(w.heightHighwater, w.floor);
    hide Legal, Leads;
    AtAt(w, id, j, Saving, IndexSynced);
    AtAt(w, id, j, IndexSynced, a);
    AtAt(w, id, j, a, b);
    Step(c, w, id, j, Saving, At(w, id, j, IndexSynced));
    Step(c, w, id, j, IndexSynced, At(w, id, j, a));
    Step(c, w, id, j, a, At(w, id, j, b));
    LeadsOn(c, At(w, id, j, Saving), id, At(w, id, j, IndexSynced), At(w, id, j, a));
    LeadsOn(c, At(w, id, j, Saving), id, At(w, id, j, a), At(w, id, j, b));
  }

  lemma SaveSteps(c: Config, w: World, id: nat, j: Job)
    requires Legal(c, j)
    ensures Leads(c, At(w, id, j, HaveFloor(w.heightHighwater, w.floor)), id, At(Saved(w, j.end), id, j, Finished))
  {
    var b, s := HaveFloor(w.heightHighwater, w.floor), w.(index := Saved(w, j.end).index);
    hide Legal, Leads, CheckpointHeader;
    AtAt(w, id, j, b, HeaderSaved);
    AtAt(s, id, j, HeaderSaved, Finished);
    Step(c, w, id, j, b, At(s, id, j, HeaderSaved));
    Step(c, s, id, j, HeaderSaved, At(Saved(w, j.end), id, j, Finished));
    LeadsOn(c, At(w, id, j, b), id, At(s, id, j, HeaderSaved), At(Saved(w, j.end), id, j, Finished));
  }

  lemma CheckpointSteps(c: Config, w: World, id: nat, j: Job)
    requires Legal(c, j)
    ensures Leads(c, At(w, id, j, Saving), id, At(Saved(w, j.end), id, j, Finished))
  {
    hide *;
    LoadSteps(c, w, id, j);
    SaveSteps(c, w, id, j);
    LeadsOn(c, At(w, id, j, Saving), id, At(w, id, j, HaveFloor(w.heightHighwater, w.floor)), At(Saved(w, j.end), id, j, Finished));
  }

  /** From the floor to the return. */
  lemma EndSteps(c: Config, w: World, id: nat, j: Job)
    requires Legal(c, j)
    ensures var raised := w.(heightHighwater := Max(w.heightHighwater, j.height));
      Leads(c, At(w, id, j, Floored), id,
            At(if CheckpointDue(w.heightHighwater < j.height, j.height, j.end, w.lastCheckpoint) then Saved(raised, j.end)
               else raised, id, j, Finished))
  {
    var rose := w.heightHighwater < j.height;
    var raised := w.(heightHighwater := Max(w.heightHighwater, j.height));
    var due := CheckpointDue(rose, j.height, j.end, w.lastCheckpoint);
    var start := At(w, id, j, Floored);
    hide Legal, Leads, CheckpointDue, Saved;
    var next := if due then Saving else Finished;
    Step(c, w, id, j, Floored, At(raised, id, j, Raised(rose))) by { AtAt(w, id, j, Floored, Raised(rose)); }
    Step(c, raised, id, j, Raised(rose), At(raised, id, j, next)) by { AtAt(raised, id, j, Raised(rose), next); }
    LeadsOn(c, start, id, At(raised, id, j, Raised(rose)), At(raised, id, j, next));
    if due {
      CheckpointSteps(c, raised, id, j);
      LeadsOn(c, start, id, At(raised, id, j, Saving), At(Saved(raised, j.end), id, j, Finished));
    }
  }

  // ---------------------------------------------------------------- one call alone

  function Entered(c: Config, w: World, id: nat, j: Job): World {
    w.(index := w.index.(slots := Put(w.index.slots, Slot(c, j.height), EntryOf(c, j))), latest := w.latest[j.height := id])
  }

  lemma PublishStep(c: Config, w: World, id: nat, j: Job)
    requires Legal(c, j)
    ensures Leads(c, At(w, id, j, Synced), id, At(Entered(c, w, id, j), id, j, Published))
  {
    hide Legal, Leads, EntryOf, Put;
    Step(c, w, id, j, Synced, At(Entered(c, w, id, j), id, j, Published)) by { AtAt(w, id, j, Synced, Published); }
  }

  /** A call that no other call interrupts, from its reservation to its return, does
      exactly what `Write` does, whatever the other calls in flight have done before. */
  lemma UninterruptedCallIsWrite(c: Config, w: World, id: nat, height: U64, block: seq<Byte>) returns (q: World)
    requires c.codec.Valid() && c.minHeight >= 1 && Inv(c, w) && Enabled(c, w, Begin(id, height, block))
    ensures Leads(c, Do(c, w, Begin(id, height, block)), id, q)
    ensures var r := Admit(c, w.dataHighwater, height, block).value;
      q.calls == w.calls[id := Call(Job(height, block, w.dataHighwater, r.offset, r.end), Finished)]
    ensures Write(c, Stored(w), height, block) == Ok(Stored(q))
  {
    var r := Admit(c, w.dataHighwater, height, block).value;
    var j := Job(height, block, w.dataHighwater, r.offset, r.end);
    var w0 := w.(dataHighwater := r.end);
    assert Do(c, w, Begin(id, height, block)) == At(w0, id, j, Reserved);
    assert Admit(c, w.dataHighwater, height, block) == Ok(r);
    EnabledBegin(c, w, id, height, block);
    hide *;
    NewJob(c, w, r, height, block);
    BeginInv(c, w, id, height, block);
    BeginIs(c, w, r, id, height, block);
    q := Lands(c, w0, id, j);
    WriteIs(c, w, r, id, height, block, q);
  }

  lemma EnabledBegin(c: Config, w: World, id: nat, height: U64, block: seq<Byte>)
    requires Enabled(c, w, Begin(id, height, block))
    ensures id !in w.calls && FileIndexLeft(c, w.dataHighwater)
    ensures Admit(c, w.dataHighwater, height, block).Ok? && |c.codec.compress(block)| <= MAX_BLOCK_SIZE
  {
    hide Admit, FileIndexLeft;
  }

  lemma BeginIs(c: Config, w: World, r: Reservation, id: nat, height: U64, block: seq<Byte>)
    ensures DoBegin(w, r, id, height, block)
         == At(w.(dataHighwater := r.end), id, Job(height, block, w.dataHighwater, r.offset, r.end), Reserved)
  {
  }

  /** All steps of call `id` after its reservation. */
  function Done(c: Config, w: World, id: nat, j: Job): World
    requires Legal(c, j)
  {
    var placed := w.(files := PlaceFrame(c, w.files, j.offset, j.height, j.block));
    var entered := Entered(c, placed, id, j);
    var floored := entered.(floor := AdvancedFloor(entered.index, entered.floor, j.height));
    var raised := floored.(heightHighwater := Max(w.heightHighwater, j.height));
    At(if CheckpointDue(w.heightHighwater < j.height, j.height, j.end, w.lastCheckpoint) then Saved(raised, j.end) else raised,
       id, j, Finished)
  }

  lemma Lands(c: Config, w: World, id: nat, j: Job) returns (q: World)
    requires c.codec.Valid() && c.minHeight >= 1 && Legal(c, j) && Inv(c, At(w, id, j, Reserved))
    ensures Leads(c, At(w, id, j, Reserved), id, q) && q == Done(c, w, id, j)
  {
    var start := At(w, id, j, Reserved);
    var placed := w.(files := PlaceFrame(c, w.files, j.offset, j.height, j.block));
    var entered := Entered(c, placed, id, j);
    var floored := entered.(floor := AdvancedFloor(entered.index, entered.floor, j.height));
    q := Done(c, w, id, j);
    DoneIs(c, w, id, j);
    LegalHeight(c, j);
    hide *;
    DataSteps(c, w, id, j);
    AtFiles(w, id, j, Synced, PlaceFrame(c, w.files, j.offset, j.height, j.block));
    PublishStep(c, placed, id, j);
    LeadsOn(c, start, id, At(placed, id, j, Synced), At(entered, id, j, Published));
    LeadsInv(c, start, id, At(entered, id, j, Published));
    EntriesAddressable(c, At(entered, id, j, Published));
    AtIndex(entered, id, j, Published);
    FloorSteps(c, entered, id, j);
    AtFloor(entered, id, j, floored.floor);
    LeadsOn(c, start, id, At(entered, id, j, Published), At(floored, id, j, Floored));
    EndSteps(c, floored, id, j);
    LeadsOn(c, start, id, At(floored, id, j, Floored), q);
  }

  lemma AtIndex(w: World, id: nat, j: Job, pc: Pc)
    ensures At(w, id, j, pc).index == w.index
  {
  }

  lemma AtFloor(w: World, id: nat, j: Job, floor: nat)
    ensures At(w.(floor := floor), id, j, Floored) == At(w, id, j, Floored).(floor := floor)
  {
  }

  lemma LegalHeight(c: Config, j: Job)
    requires Legal(c, j)
    ensures c.minHeight <= j.height
  {
    hide InOneFile;
  }

  lemma EntriesAddressable(c: Config, w: World)
    requires Inv(c, w)
    ensures w.index.header.minHeight == c.minHeight
    ensures forall h: nat :: PopulatedAt(w.index, h) ==> Addressable(c.minHeight, h)
  {
    hide *;
    InvFacts(c, w);
    MinHeightIs(c, w);
    forall h: nat | PopulatedAt(w.index, h)
      ensures Addressable(c.minHeight, h)
    {
      EntryTells(c, w, h);
    }
  }

  lemma MinHeightIs(c: Config, w: World)
    requires IndexOk(c, w)
    ensures w.index.header.minHeight == c.minHeight
  {
    hide EntryAt, IndexedAt;
  }

  lemma DoneIs(c: Config, w: World, id: nat, j: Job)
    requires Legal(c, j)
    ensures var placed := w.(files := PlaceFrame(c, w.files, j.offset, j.height, j.block));
      var entered := Entered(c, placed, id, j);
      var floored := entered.(floor := AdvancedFloor(entered.index, entered.floor, j.height));
      var raised := floored.(heightHighwater := Max(floored.heightHighwater, j.height));
      Done(c, w, id, j)
        == At(if CheckpointDue(floored.heightHighwater < j.height, j.height, j.end, floored.lastCheckpoint)
              then Saved(raised, j.end) else raised, id, j, Finished)
  {
    hide Legal, PlaceFrame, AdvancedFloor, CheckpointDue, Saved;
  }

  lemma WriteIs(c: Config, w: World, r: Reservation, id: nat, height: U64, block: seq<Byte>, q: World)
    requires Admit(c, w.dataHighwater, height, block) == Ok(r)
    requires var j := Job(height, block, w.dataHighwater, r.offset, r.end);
      Legal(c, j) && q == Done(c, w.(dataHighwater := r.end), id, j)
    ensures Write(c, Stored(w), height, block) == Ok(Stored(q))
    ensures q.calls == w.calls[id := Call(Job(height, block, w.dataHighwater, r.offset, r.end), Finished)]
  {
    var j := Job(height, block, w.dataHighwater, r.offset, r.end);
    assert |c.codec.compress(block)| < U32_LIMIT;
    hide Admit, Legal, PlaceFrame, AdvancedFloor, CheckpointDue, CheckpointHeader, Put;
  }
}
