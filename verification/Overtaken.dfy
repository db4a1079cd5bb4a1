/** Runs of overlapping calls in which no system call fails, all calls return, and yet
    something acknowledged is not there after a power loss or a process kill. */
module Overtaken {
  import opened Bytes
  import opened Results
  import opened BlockFormat
  import opened FileSet
  import opened IndexFile
  import opened FloorScan
  import opened BlockIo
  import opened History
  import opened StoreState
  import opened PowerLoss
  import opened Writers
  import opened WriterInvariants
  import opened Concurrency
  import opened ConcurrentCrash
  import opened AfterPowerLoss

  // ---------------------------------------------------------------- building runs

  lemma {:induction false} Extend(c: Config, m: Machine, s: seq<Action>, a: Action)
    requires ConcurrentCrash.Runs(c, m, s) && ConcurrentCrash.Enabled(c, ConcurrentCrash.Final(c, m, s), a)
    ensures ConcurrentCrash.Runs(c, m, s + [a])
    ensures ConcurrentCrash.Final(c, m, s + [a]) == ConcurrentCrash.Do(c, ConcurrentCrash.Final(c, m, s), a)
    decreases |s|
  {
    hide ConcurrentCrash.Enabled, ConcurrentCrash.Do;
    if s == [] {
      assert [] + [a] == [a] && [a][1..] == [];
    } else {
      assert (s + [a])[1..] == s[1..] + [a];
      Extend(c, ConcurrentCrash.Do(c, m, s[0]), s[1..], a);
    }
  }

  lemma ReachableStart(c: Config, h: Header)
    requires NewHeader(c, h)
    ensures ConcurrentCrash.Reachable(c, Created(h))
  {
    var none: seq<Action> := [];
    assert ConcurrentCrash.Runs(c, Created(h), none) && ConcurrentCrash.Final(c, Created(h), none) == Created(h);
    hide ConcurrentCrash.Runs, ConcurrentCrash.Final, NewHeader;
  }

  lemma ReachableStep(c: Config, m: Machine, a: Action)
    requires ConcurrentCrash.Reachable(c, m) && ConcurrentCrash.Enabled(c, m, a)
    ensures ConcurrentCrash.Reachable(c, ConcurrentCrash.Do(c, m, a))
  {
    hide ConcurrentCrash.Runs, ConcurrentCrash.Final, NewHeader, ConcurrentCrash.Enabled, ConcurrentCrash.Do;
    var h: Header, s: seq<Action> :|
      NewHeader(c, h) && ConcurrentCrash.Runs(c, Created(h), s) && m == ConcurrentCrash.Final(c, Created(h), s);
    Extend(c, Created(h), s, a);
  }

  function Room(c: Config, block: seq<Byte>): nat {
    HEADER_SIZE + |c.codec.compress(block)|
  }

  lemma StartMarks(c: Config, h: Header)
    requires NewHeader(c, h) && c.minHeight >= 1
    ensures var m := Created(h);
      && m.w.floor == m.w.heightHighwater == c.minHeight - 1 && m.w.lastCheckpoint == 0 && m.w.dataHighwater == 0
      && m.w.index == m.durable == Index(h, []) && m.unsynced == [] && m.w.calls == map[] && m.w.latest == map[]
      && h.minHeight == c.minHeight && h.nextWriteOffset == 0
  {
  }

  /** A call reserves space in the one data file. */
  lemma BeginCall(c: Config, m: Machine, id: nat, height: U64, block: seq<Byte>) returns (q: Machine)
    requires c.codec.Valid() && c.cap == None && ConcurrentCrash.Reachable(c, m) && id !in m.w.calls
    requires Acceptable(c, height, block) && m.w.dataHighwater + Room(c, block) < U64_LIMIT
    ensures ConcurrentCrash.Reachable(c, q)
    ensures var end := m.w.dataHighwater + Room(c, block);
      var job := Job(height, block, m.w.dataHighwater, m.w.dataHighwater, end);
      q == m.(w := m.w.(dataHighwater := end, calls := m.w.calls[id := Call(job, Reserved)]), order := q.order, log := q.log)
  {
    var end := m.w.dataHighwater + Room(c, block);
    assert Admit(c, m.w.dataHighwater, height, block) == Ok(Reservation(m.w.dataHighwater, end));
    assert ConcurrentCrash.Enabled(c, m, Begin(id, height, block));
    hide ConcurrentCrash.Reachable, Admit, Acceptable, Room;
    ReachableStep(c, m, Begin(id, height, block));
    q := ConcurrentCrash.Do(c, m, Begin(id, height, block));
  }

  /** A call in flight can take its next step. */
  lemma Take(c: Config, m: Machine, id: nat)
    requires c.codec.Valid() && c.minHeight >= 1 && ConcurrentCrash.Reachable(c, m)
    requires id in m.w.calls && !Returned(m.w.calls[id])
    ensures Legal(c, m.w.calls[id].job) && ConcurrentCrash.Enabled(c, m, Advance(id))
    ensures ConcurrentCrash.Reachable(c, ConcurrentCrash.Do(c, m, Advance(id)))
  {
    hide *;
    ConcurrentCrash.ReachableInv(c, m);
    InvParts(c, m);
    CallFacts(c, m.w, id);
    CanTake(c, m, id);
    ReachableStep(c, m, Advance(id));
  }

  lemma CanTake(c: Config, m: Machine, id: nat)
    requires id in m.w.calls && !Returned(m.w.calls[id]) && Legal(c, m.w.calls[id].job)
    ensures ConcurrentCrash.Enabled(c, m, Advance(id))
  {
    hide Legal, Returned;
  }

  function Moved(calls: map<nat, Call>, id: nat, pc: Pc): map<nat, Call>
    requires id in calls
  {
    calls[id := Call(calls[id].job, pc)]
  }

  lemma MovedTwice(calls: map<nat, Call>, id: nat, a: Pc, b: Pc)
    requires id in calls
    ensures Moved(Moved(calls, id, a), id, b) == Moved(calls, id, b)
  {
  }

  lemma MovedKeeps(calls: map<nat, Call>, id: nat, pc: Pc)
    requires id in calls
    ensures id in Moved(calls, id, pc) && Moved(calls, id, pc)[id] == Call(calls[id].job, pc)
  {
  }

  /** One step among the data files. */
  lemma DataStep(c: Config, m: Machine, id: nat, pc: Pc) returns (q: Machine)
    requires c.codec.Valid() && c.minHeight >= 1 && ConcurrentCrash.Reachable(c, m) && id in m.w.calls
    requires var k := m.w.calls[id].pc;
      (k.Reserved? && pc.FileOpen?) || (k.FileOpen? && pc.PayloadWritten?) || (k.PayloadWritten? && pc.HeaderWritten?)
      || (k.HeaderWritten? && pc.Synced?)
    ensures ConcurrentCrash.Reachable(c, q)
    ensures q == m.(w := m.w.(files := q.w.files, calls := Moved(m.w.calls, id, pc)))
  {
    Take(c, m, id);
    q := ConcurrentCrash.Do(c, m, Advance(id));
    hide ConcurrentCrash.Reachable, Legal, WriteInto, BlockHeaderOf;
  }

  lemma DataPhase(c: Config, m: Machine, id: nat) returns (q: Machine)
    requires c.codec.Valid() && c.minHeight >= 1 && ConcurrentCrash.Reachable(c, m)
    requires id in m.w.calls && m.w.calls[id].pc.Reserved?
    ensures ConcurrentCrash.Reachable(c, q)
    ensures q == m.(w := m.w.(files := q.w.files, calls := Moved(m.w.calls, id, Synced)))
  {
    hide ConcurrentCrash.Reachable;
    q := DataStep(c, m, id, FileOpen);
    q := DataStep(c, q, id, PayloadWritten);
    q := DataStep(c, q, id, HeaderWritten);
    q := DataStep(c, q, id, Synced);
  }

  /** The machine with the index entry of a call written and its floor not looked at. */
  function Entered(c: Config, m: Machine, id: nat, pc: Pc): Machine
    requires id in m.w.calls
  {
    var j := m.w.calls[id].job;
    m.(w := m.w.(index := m.w.index.(slots := Put(m.w.index.slots, Slot(c, j.height), EntryOf(c, j))),
                 latest := m.w.latest[j.height := id], calls := Moved(m.w.calls, id, pc)),
       unsynced := m.unsynced + [PutEntry(Slot(c, j.height), EntryOf(c, j))])
  }

  lemma EntryStep(c: Config, m: Machine, id: nat) returns (q: Machine)
    requires c.codec.Valid() && c.minHeight >= 1 && ConcurrentCrash.Reachable(c, m)
    requires id in m.w.calls && m.w.calls[id].pc.Synced?
    ensures ConcurrentCrash.Reachable(c, q) && q == Entered(c, m, id, Published)
  {
    hide ConcurrentCrash.Reachable, Legal, Slot, EntryOf, Put;
    Take(c, m, id);
    q := ConcurrentCrash.Do(c, m, Advance(id));
  }

  /** The index entry, in front of a gap: the floor stays where it is. */
  lemma EntryPhase(c: Config, m: Machine, id: nat) returns (q: Machine)
    requires c.codec.Valid() && c.minHeight >= 1 && ConcurrentCrash.Reachable(c, m)
    requires id in m.w.calls && m.w.calls[id].pc.Synced? && m.w.floor + 1 < m.w.calls[id].job.height
    ensures ConcurrentCrash.Reachable(c, q) && q == Entered(c, m, id, Floored)
  {
    hide ConcurrentCrash.Reachable, Legal, Slot, EntryOf, Put;
    var q1 := EntryStep(c, m, id);
    Take(c, q1, id);
    q := ConcurrentCrash.Do(c, q1, Advance(id));
    MovedTwice(m.w.calls, id, Published, Floored);
  }

  /** The highwater and the decision whether a checkpoint is due. */
  lemma DecisionSteps(c: Config, m: Machine, id: nat) returns (q: Machine)
    requires c.codec.Valid() && c.minHeight >= 1 && ConcurrentCrash.Reachable(c, m)
    requires id in m.w.calls && m.w.calls[id].pc.Floored?
    ensures ConcurrentCrash.Reachable(c, q)
    ensures var j := m.w.calls[id].job;
      var due := CheckpointDue(m.w.heightHighwater < j.height, j.height, j.end, m.w.lastCheckpoint);
      q == m.(w := m.w.(heightHighwater := Max(m.w.heightHighwater, j.height),
                        calls := Moved(m.w.calls, id, if due then Saving else Finished)))
  {
    hide ConcurrentCrash.Reachable, Legal, CheckpointDue;
    var j, rose := m.w.calls[id].job, m.w.heightHighwater < m.w.calls[id].job.height;
    var hw := Max(m.w.heightHighwater, j.height);
    Take(c, m, id);
    var q1 := ConcurrentCrash.Do(c, m, Advance(id));
    assert q1 == m.(w := m.w.(heightHighwater := hw, calls := Moved(m.w.calls, id, Raised(rose))));
    Take(c, q1, id);
    q := ConcurrentCrash.Do(c, q1, Advance(id));
    MovedTwice(m.w.calls, id, Raised(rose), if CheckpointDue(rose, j.height, j.end, m.w.lastCheckpoint) then Saving else Finished);
  }

  /** The sync of the index file and the load of the highwater behind it. */
  lemma SyncSteps(c: Config, m: Machine, id: nat) returns (q: Machine)
    requires c.codec.Valid() && c.minHeight >= 1 && ConcurrentCrash.Reachable(c, m)
    requires id in m.w.calls && m.w.calls[id].pc.Saving?
    ensures ConcurrentCrash.Reachable(c, q)
    ensures q == m.(w := m.w.(calls := Moved(m.w.calls, id, HaveHighwater(m.w.heightHighwater))),
                    durable := m.w.index, unsynced := [])
  {
    hide ConcurrentCrash.Reachable, Legal;
    Take(c, m, id);
    var q1 := ConcurrentCrash.Do(c, m, Advance(id));
    assert q1 == m.(w := m.w.(calls := Moved(m.w.calls, id, IndexSynced)), durable := m.w.index, unsynced := []);
    Take(c, q1, id);
    q := ConcurrentCrash.Do(c, q1, Advance(id));
    MovedTwice(m.w.calls, id, IndexSynced, HaveHighwater(m.w.heightHighwater));
  }

  /** The machine with the header of a call's checkpoint written, and the call returned. */
  function HeaderPut(m: Machine, id: nat, mark: nat): Machine
    requires id in m.w.calls
  {
    var j := m.w.calls[id].job;
    var header := CheckpointHeader(m.w.index.header, j.end, mark, m.w.floor);
    m.(w := m.w.(calls := Moved(m.w.calls, id, Finished), index := m.w.index.(header := header), lastCheckpoint := j.end),
       unsynced := m.unsynced + [PutHeader(header)])
  }

  /** The rest of a checkpoint: the floor is loaded, the header written. */
  lemma HeaderSteps(c: Config, m: Machine, id: nat, mark: nat) returns (q: Machine)
    requires c.codec.Valid() && c.minHeight >= 1 && ConcurrentCrash.Reachable(c, m)
    requires id in m.w.calls && m.w.calls[id].pc == HaveHighwater(mark)
    ensures ConcurrentCrash.Reachable(c, q) && q == HeaderPut(m, id, mark)
  {
    hide ConcurrentCrash.Reachable, Legal, CheckpointHeader;
    var floor := m.w.floor;
    Take(c, m, id);
    var q1 := ConcurrentCrash.Do(c, m, Advance(id));
    assert q1 == m.(w := m.w.(calls := Moved(m.w.calls, id, HaveFloor(mark, floor))));
    Take(c, q1, id);
    var q2 := ConcurrentCrash.Do(c, q1, Advance(id));
    MovedTwice(m.w.calls, id, HaveFloor(mark, floor), HeaderSaved);
    var header := CheckpointHeader(m.w.index.header, m.w.calls[id].job.end, mark, floor);
    assert q2 == m.(w := m.w.(calls := Moved(m.w.calls, id, HeaderSaved), index := m.w.index.(header := header)),
                    unsynced := m.unsynced + [PutHeader(header)]);
    Take(c, q2, id);
    q := ConcurrentCrash.Do(c, q2, Advance(id));
    MovedTwice(m.w.calls, id, HeaderSaved, Finished);
  }

  // ---------------------------------------------------------------- whole calls

  /** What a whole call in front of a gap has done when no checkpoint was due. */
  ghost predicate PlainlyDone(c: Config, m: Machine, id: nat, q: Machine)
    requires id in m.w.calls
  {
    q == Entered(c, m, id, Finished).(w := Entered(c, m, id, Finished).w.(
      files := q.w.files, heightHighwater := Max(m.w.heightHighwater, m.w.calls[id].job.height)))
  }

  lemma PlainCall(c: Config, m: Machine, id: nat) returns (q: Machine)
    requires c.codec.Valid() && c.minHeight >= 1 && ConcurrentCrash.Reachable(c, m)
    requires id in m.w.calls && m.w.calls[id].pc.Reserved?
    requires var j := m.w.calls[id].job;
      m.w.floor + 1 < j.height && !CheckpointDue(m.w.heightHighwater < j.height, j.height, j.end, m.w.lastCheckpoint)
    ensures ConcurrentCrash.Reachable(c, q) && PlainlyDone(c, m, id, q)
  {
    hide ConcurrentCrash.Reachable, CheckpointDue, Slot, EntryOf, Put;
    var q1 := DataPhase(c, m, id);
    var q2 := EntryPhase(c, q1, id);
    MovedTwice(m.w.calls, id, Synced, Floored);
    q := DecisionSteps(c, q2, id);
    MovedTwice(m.w.calls, id, Floored, Finished);
  }

  /** A call in front of a gap with a checkpoint, up to the sync of the index. */
  lemma SyncedCall(c: Config, m: Machine, id: nat) returns (q: Machine)
    requires c.codec.Valid() && c.minHeight >= 1 && ConcurrentCrash.Reachable(c, m)
    requires id in m.w.calls && m.w.calls[id].pc.Reserved?
    requires var j := m.w.calls[id].job;
      m.w.floor + 1 < j.height && CheckpointDue(m.w.heightHighwater < j.height, j.height, j.end, m.w.lastCheckpoint)
    ensures ConcurrentCrash.Reachable(c, q)
    ensures var j, hw := m.w.calls[id].job, Max(m.w.heightHighwater, m.w.calls[id].job.height);
      var index := m.w.index.(slots := Put(m.w.index.slots, Slot(c, j.height), EntryOf(c, j)));
      q == m.(w := m.w.(files := q.w.files, index := index, heightHighwater := hw, latest := m.w.latest[j.height := id],
                        calls := Moved(m.w.calls, id, HaveHighwater(hw))),
              durable := index, unsynced := [])
  {
    hide ConcurrentCrash.Reachable, CheckpointDue, Slot, EntryOf, Put;
    var hw := Max(m.w.heightHighwater, m.w.calls[id].job.height);
    var q1 := DataPhase(c, m, id);
    var q2 := EntryPhase(c, q1, id);
    MovedTwice(m.w.calls, id, Synced, Floored);
    var q3 := DecisionSteps(c, q2, id);
    MovedTwice(m.w.calls, id, Floored, Saving);
    q := SyncSteps(c, q3, id);
    MovedTwice(m.w.calls, id, Saving, HaveHighwater(hw));
  }

  /** What it has done when one was due: the index with its entry is synced, the header
      is written behind that. */
  ghost predicate CheckpointDone(c: Config, m: Machine, id: nat, q: Machine)
    requires id in m.w.calls
  {
    var j := m.w.calls[id].job;
    var slots := Put(m.w.index.slots, Slot(c, j.height), EntryOf(c, j));
    var hw := Max(m.w.heightHighwater, j.height);
    var header := CheckpointHeader(m.w.index.header, j.end, hw, m.w.floor);
    q == m.(w := m.w.(files := q.w.files, index := Index(header, slots), heightHighwater := hw, lastCheckpoint := j.end,
                      latest := m.w.latest[j.height := id], calls := Moved(m.w.calls, id, Finished)),
            durable := m.w.index.(slots := slots), unsynced := [PutHeader(header)])
  }

  lemma CheckpointCall(c: Config, m: Machine, id: nat) returns (q: Machine)
    requires c.codec.Valid() && c.minHeight >= 1 && ConcurrentCrash.Reachable(c, m)
    requires id in m.w.calls && m.w.calls[id].pc.Reserved?
    requires var j := m.w.calls[id].job;
      m.w.floor + 1 < j.height && CheckpointDue(m.w.heightHighwater < j.height, j.height, j.end, m.w.lastCheckpoint)
    ensures ConcurrentCrash.Reachable(c, q) && CheckpointDone(c, m, id, q)
  {
    hide ConcurrentCrash.Reachable, CheckpointDue, Slot, EntryOf, Put, CheckpointHeader;
    var hw := Max(m.w.heightHighwater, m.w.calls[id].job.height);
    var q1 := SyncedCall(c, m, id);
    q := HeaderSteps(c, q1, id, hw);
    MovedTwice(m.w.calls, id, HaveHighwater(hw), Finished);
  }

  lemma DueAtInterval(mark: nat, height: nat, end: nat, last: nat)
    requires mark < height && height % CHECKPOINT_INTERVAL == 0
    ensures CheckpointDue(mark < height, height, end, last)
  {
  }

  lemma NotDueOffInterval(mark: nat, height: nat, end: nat, last: nat)
    requires height % CHECKPOINT_INTERVAL != 0 && end < last + CHECKPOINT_BYTES
    ensures !CheckpointDue(mark < height, height, end, last)
  {
  }

  lemma NewlyAfter(calls: map<nat, Call>, i: nat, j: Job, k: nat, l: Job)
    requires i !in calls && k !in calls && i != k
    ensures var both := calls[i := Call(j, Reserved)][k := Call(l, Reserved)];
      var done := calls[i := Call(j, Finished)][k := Call(l, Finished)];
      && Moved(Moved(both, k, Finished), i, Finished) == done
      && both[i] == Moved(both, k, Finished)[i] == Call(j, Reserved) && both[k] == Call(l, Reserved)
      && i in both && k in both && i in Moved(both, k, Finished)
  {
  }

  /** No block lies at or behind the allocator's position. */
  lemma OffsetsBelow(c: Config, m: Machine)
    requires WriterInvariants.Inv(c, m.w) && CallsLogged(c, m)
    ensures forall i :: i in m.w.calls ==> m.w.calls[i].job.offset < m.w.dataHighwater
  {
    forall i | i in m.w.calls
      ensures m.w.calls[i].job.offset < m.w.dataHighwater
    {
      hide *;
      InvFacts(c, m.w);
      CallFacts(c, m.w, i);
      var _ := PlaceInLog(c, m, i);
      EndBelow(c, m.w, i);
    }
  }

  lemma EndBelow(c: Config, w: World, i: nat)
    requires SpaceOk(w) && i in w.calls && InTime(w.calls[i]) && Legal(c, w.calls[i].job)
    ensures w.calls[i].job.offset < w.dataHighwater
  {
    hide InOneFile, Addressable;
    assert AliveAt(w, i);
  }

  lemma AcceptableHeight(c: Config, height: nat, block: seq<Byte>)
    requires Acceptable(c, height, block)
    ensures Addressable(c.minHeight, height) && c.minHeight <= height && 0 < |c.codec.compress(block)|
  {
  }

  // ---------------------------------------------------------------- a header that overtakes an entry

  /** Two more calls on a machine where none is in flight, at heights with a gap below
      them: `i` at `x` and `k` at `y`. Call `k` finishes first and makes a checkpoint; the
      entry of call `i` is written behind it. */
  lemma Overtake(c: Config, m: Machine, i: nat, x: U64, a: seq<Byte>, k: nat, y: U64, b: seq<Byte>) returns (q: Machine)
    requires c.codec.Valid() && c.minHeight >= 1 && c.cap == None && ConcurrentCrash.Reachable(c, m)
    requires i !in m.w.calls && k !in m.w.calls && i != k && Acceptable(c, x, a) && Acceptable(c, y, b)
    requires m.w.dataHighwater + Room(c, a) + Room(c, b) < U64_LIMIT
    requires m.w.floor + 1 < x && m.w.floor + 1 < y && m.w.heightHighwater < y
    requires x % CHECKPOINT_INTERVAL != 0 && y % CHECKPOINT_INTERVAL == 0
    ensures ConcurrentCrash.Reachable(c, q)
    ensures var d := m.w.dataHighwater;
      var e := d + Room(c, a);
      var j, l := Job(x, a, d, d, e), Job(y, b, e, e, e + Room(c, b));
      && q.w.calls == m.w.calls[i := Call(j, Finished)][k := Call(l, Finished)]
      && q.w.latest == m.w.latest[y := k][x := i]
      && q.durable == m.w.index.(slots := Put(m.w.index.slots, Slot(c, y), EntryOf(c, l)))
      && |q.unsynced| == 2 && q.unsynced[0] == PutHeader(CheckpointHeader(m.w.index.header, l.end, y, m.w.floor))
  {
    hide ConcurrentCrash.Reachable, CheckpointDue, Slot, EntryOf, Put, CheckpointHeader, Acceptable, Room;
    var d := m.w.dataHighwater;
    var e := d + Room(c, a);
    var j, l := Job(x, a, d, d, e), Job(y, b, e, e, e + Room(c, b));
    NewlyAfter(m.w.calls, i, j, k, l);
    var m1 := BeginCall(c, m, i, x, a);
    var m2 := BeginCall(c, m1, k, y, b);
    DueAtInterval(m2.w.heightHighwater, y, l.end, m2.w.lastCheckpoint);
    var m3 := CheckpointCall(c, m2, k);
    NotDueOffInterval(m3.w.heightHighwater, x, e, m3.w.lastCheckpoint);
    q := PlainCall(c, m3, i);
  }

  /** Sync mode does not keep what concurrent writers were told is written. In every
      reachable state without calls in flight, two more calls can return successfully and
      a power loss then make `x` read again what it read before both of them: it keeps the
      header that one call wrote and drops the entry that the other one wrote behind it. */
  lemma AcknowledgedWriteIsUndone(c: Config, m: Machine, i: nat, x: U64, a: seq<Byte>, k: nat, y: U64, b: seq<Byte>)
    returns (q: Machine, keep: seq<bool>)
    requires c.codec.Valid() && c.minHeight >= 1 && c.cap == None && ConcurrentCrash.Reachable(c, m) && AllReturned(m.w)
    requires i !in m.w.calls && k !in m.w.calls && i != k && Acceptable(c, x, a) && Acceptable(c, y, b)
    requires m.w.dataHighwater + Room(c, a) + Room(c, b) < U64_LIMIT
    requires m.w.floor + 1 < x && m.w.floor + 1 < y && m.w.heightHighwater < y
    requires x % CHECKPOINT_INTERVAL != 0 && y % CHECKPOINT_INTERVAL == 0
    ensures ConcurrentCrash.Reachable(c, q) && AllReturned(q.w) && |keep| == |q.unsynced|
    ensures WroteBlock(q.w, x, a) && View(q.w, x) == Some(a)
    ensures var image := ApplyOps(q.durable, Kept(q.unsynced, keep));
      Recover(c, q.w.files, image).Ok? && ReadAfter(c, q.w.files, image, x) == Ok(View(m.w, x))
  {
    hide *;
    q := Overtake(c, m, i, x, a, k, y, b);
    keep := [true, false];
    var image := ApplyOps(q.durable, Kept(q.unsynced, keep));
    OnlyHeaderKept(q.durable, q.unsynced);
    ConcurrentCrash.ReachableInv(c, m);
    ConcurrentCrash.ReachableInv(c, q);
    InvParts(c, m);
    InvParts(c, q);
    InvFacts(c, m.w);
    InvFacts(c, q.w);
    OffsetsBelow(c, m);
    AcceptableHeight(c, x, a);
    AcceptableHeight(c, y, b);
    OvertakenCalls(c, m, q, i, x, a, k, y, b, image);
    ReadAfterPowerLoss(c, q, keep, x);
    EntryOfView(c, m.w, q.w, x);
    ReadBlockIs(c, q.w.files, image.slots, x);
  }

  lemma OvertakenCalls(c: Config, m: Machine, q: Machine, i: nat, x: U64, a: seq<Byte>, k: nat, y: U64, b: seq<Byte>,
                       image: Index)
    requires i !in m.w.calls && k !in m.w.calls && i != k && x != y && c.minHeight <= x && c.minHeight <= y
    requires AllReturned(m.w) && forall n :: n in m.w.calls ==> m.w.calls[n].job.offset < m.w.dataHighwater
    requires var d := m.w.dataHighwater;
      var e := d + Room(c, a);
      var j, l := Job(x, a, d, d, e), Job(y, b, e, e, e + Room(c, b));
      && q.w.calls == m.w.calls[i := Call(j, Finished)][k := Call(l, Finished)]
      && q.w.latest == m.w.latest[y := k][x := i]
      && image.slots == Put(m.w.index.slots, Slot(c, y), EntryOf(c, l))
      && image.header == CheckpointHeader(m.w.index.header, l.end, y, m.w.floor)
    ensures AllReturned(q.w) && JobsStay(m.w, q.w) && WroteBlock(q.w, x, a) && View(q.w, x) == Some(a)
    ensures !WrittenBehind(q.w, x, image.header.nextWriteOffset)
    ensures Get(image.slots, Slot(c, x)) == Get(m.w.index.slots, Slot(c, x))
  {
    assert Slot(c, x) != Slot(c, y);
    assert q.w.calls[i].pc.Finished?;
    hide EntryOf, Put, Get;
  }

  lemma OnlyHeaderKept(durable: Index, ops: seq<IndexOp>)
    requires |ops| == 2 && ops[0].PutHeader?
    ensures ApplyOps(durable, Kept(ops, [true, false])) == durable.(header := ops[0].header)
  {
    var keep := [true, false];
    assert keep[1..] == [false] && keep[1..][1..] == [];
    assert Kept(ops[1..], keep[1..]) == [];
    assert Kept(ops, keep) == [ops[0]];
    assert [ops[0]][1..] == [];
  }

  /** From a new store: an acknowledged block is gone. */
  lemma AcknowledgedBlockIsLost(c: Config, h: Header, x: U64, a: seq<Byte>, y: U64, b: seq<Byte>)
    returns (m: Machine, keep: seq<bool>)
    requires c.codec.Valid() && c.minHeight >= 1 && c.cap == None && NewHeader(c, h)
    requires Acceptable(c, x, a) && Acceptable(c, y, b) && c.minHeight < x && c.minHeight < y
    requires x % CHECKPOINT_INTERVAL != 0 && y % CHECKPOINT_INTERVAL == 0
    ensures ConcurrentCrash.Reachable(c, m) && AllReturned(m.w) && |keep| == |m.unsynced|
    ensures WroteBlock(m.w, x, a) && View(m.w, x) == Some(a)
    ensures var image := ApplyOps(m.durable, Kept(m.unsynced, keep));
      Recover(c, m.w.files, image).Ok? && ReadAfter(c, m.w.files, image, x) == Ok(None)
  {
    hide *;
    StartMarks(c, h);
    ReachableStart(c, h);
    NoCalls(c, Created(h).w);
    RoomBelow(c, x, a);
    RoomBelow(c, y, b);
    m, keep := AcknowledgedWriteIsUndone(c, Created(h), 0, x, a, 1, y, b);
    assert View(Created(h).w, x) == None by { NothingSeen(Created(h).w, x); }
  }

  lemma NoCalls(c: Config, w: World)
    requires w.calls == map[]
    ensures AllReturned(w)
  {
  }

  lemma NothingSeen(w: World, height: nat)
    requires w.latest == map[]
    ensures View(w, height) == None
  {
  }

  lemma RoomBelow(c: Config, height: nat, block: seq<Byte>)
    requires Acceptable(c, height, block)
    ensures Room(c, block) <= HEADER_SIZE + MAX_BLOCK_SIZE && 4 * (HEADER_SIZE + MAX_BLOCK_SIZE) < U64_LIMIT
  {
  }

  /** From a store that holds one block: its acknowledged rewrite is gone, and the height
      reads the block that had been replaced. */
  lemma AcknowledgedRewriteReverts(c: Config, h: Header, x: U64, a: seq<Byte>, b: seq<Byte>, y: U64, z: seq<Byte>)
    returns (m: Machine, keep: seq<bool>)
    requires c.codec.Valid() && c.minHeight >= 1 && c.cap == None && NewHeader(c, h)
    requires Acceptable(c, x, a) && Acceptable(c, x, b) && Acceptable(c, y, z) && c.minHeight < x < y
    requires x % CHECKPOINT_INTERVAL != 0 && y % CHECKPOINT_INTERVAL == 0 && Room(c, a) < CHECKPOINT_BYTES
    ensures ConcurrentCrash.Reachable(c, m) && AllReturned(m.w) && |keep| == |m.unsynced|
    ensures WroteBlock(m.w, x, b) && View(m.w, x) == Some(b)
    ensures var image := ApplyOps(m.durable, Kept(m.unsynced, keep));
      Recover(c, m.w.files, image).Ok? && ReadAfter(c, m.w.files, image, x) == Ok(Some(a))
  {
    hide *;
    var m1 := OneBlock(c, h, x, a);
    RoomBelow(c, x, a);
    RoomBelow(c, x, b);
    RoomBelow(c, y, z);
    m, keep := AcknowledgedWriteIsUndone(c, m1, 1, x, b, 2, y, z);
  }

  lemma OneBlock(c: Config, h: Header, x: U64, a: seq<Byte>) returns (m: Machine)
    requires c.codec.Valid() && c.minHeight >= 1 && c.cap == None && NewHeader(c, h)
    requires Acceptable(c, x, a) && c.minHeight < x && x % CHECKPOINT_INTERVAL != 0 && Room(c, a) < CHECKPOINT_BYTES
    ensures ConcurrentCrash.Reachable(c, m) && AllReturned(m.w) && View(m.w, x) == Some(a)
    ensures m.w.calls.Keys == {0} && m.w.dataHighwater == Room(c, a)
    ensures m.w.floor == c.minHeight - 1 && m.w.heightHighwater == x
  {
    StartMarks(c, h);
    ReachableStart(c, h);
    hide ConcurrentCrash.Reachable, NewHeader, Created, CheckpointDue, Slot, EntryOf, Put, CheckpointHeader, Acceptable, Room;
    var m1 := BeginCall(c, Created(h), 0, x, a);
    NotDueOffInterval(m1.w.heightHighwater, x, Room(c, a), m1.w.lastCheckpoint);
    m := PlainCall(c, m1, 0);
    assert m.w.calls[0].pc.Finished?;
  }

  // ---------------------------------------------------------------- a kill swaps two blocks

  /** Even a process kill can change what is read. In every reachable state without calls
      in flight, let two more calls write `x`, the one that reserved its space last
      publishing first: `x` then reads `a`, and `b` after a kill, because the scan takes
      the blocks in the order of their space. */
  lemma KillSwapsRewrites(c: Config, m: Machine, x: U64, i: nat, a: seq<Byte>, k: nat, b: seq<Byte>) returns (q: Machine)
    requires c.codec.Valid() && c.minHeight >= 1 && c.cap == None && ConcurrentCrash.Reachable(c, m) && AllReturned(m.w)
    requires i !in m.w.calls && k !in m.w.calls && i != k && Acceptable(c, x, a) && Acceptable(c, x, b)
    requires m.w.floor + 1 < x && x % CHECKPOINT_INTERVAL != 0
    requires m.w.dataHighwater + Room(c, a) + Room(c, b) < U64_LIMIT
    requires m.w.dataHighwater + Room(c, a) + Room(c, b) < m.w.lastCheckpoint + CHECKPOINT_BYTES
    ensures ConcurrentCrash.Reachable(c, q) && AllReturned(q.w) && View(q.w, x) == Some(a)
    ensures Recover(c, q.w.files, q.w.index).Ok? && ReadAfter(c, q.w.files, q.w.index, x) == Ok(Some(b))
  {
    hide *;
    q := Swap(c, m, x, i, a, k, b);
    ConcurrentCrash.ReachableInv(c, m);
    ConcurrentCrash.ReachableInv(c, q);
    InvParts(c, m);
    InvParts(c, q);
    InvFacts(c, m.w);
    OffsetsBelow(c, m);
    PointerBelow(m.w);
    SwappedCalls(c, m, q, x, i, a, k, b);
    AcceptableHeight(c, x, a);
    KeptAll(q.unsynced);
    WholeView(c, q);
    ReadAfterPowerLoss(c, q, seq(|q.unsynced|, _ => true), x);
  }

  lemma PointerBelow(w: World)
    requires PointerOk(w)
    ensures w.index.header.nextWriteOffset <= w.dataHighwater
  {
  }

  lemma Swap(c: Config, m: Machine, x: U64, i: nat, a: seq<Byte>, k: nat, b: seq<Byte>) returns (q: Machine)
    requires c.codec.Valid() && c.minHeight >= 1 && c.cap == None && ConcurrentCrash.Reachable(c, m)
    requires i !in m.w.calls && k !in m.w.calls && i != k && Acceptable(c, x, a) && Acceptable(c, x, b)
    requires m.w.floor + 1 < x && x % CHECKPOINT_INTERVAL != 0
    requires m.w.dataHighwater + Room(c, a) + Room(c, b) < U64_LIMIT
    requires m.w.dataHighwater + Room(c, a) + Room(c, b) < m.w.lastCheckpoint + CHECKPOINT_BYTES
    ensures ConcurrentCrash.Reachable(c, q)
    ensures var d := m.w.dataHighwater;
      var e := d + Room(c, a);
      var j, l := Job(x, a, d, d, e), Job(x, b, e, e, e + Room(c, b));
      && q.w.calls == m.w.calls[i := Call(j, Finished)][k := Call(l, Finished)]
      && q.w.latest == m.w.latest[x := k][x := i] && q.w.index.header == m.w.index.header
  {
    hide ConcurrentCrash.Reachable, CheckpointDue, Slot, EntryOf, Put, CheckpointHeader, Acceptable, Room;
    var d := m.w.dataHighwater;
    var e := d + Room(c, a);
    var j, l := Job(x, a, d, d, e), Job(x, b, e, e, e + Room(c, b));
    NewlyAfter(m.w.calls, i, j, k, l);
    var m1 := BeginCall(c, m, i, x, a);
    var m2 := BeginCall(c, m1, k, x, b);
    NotDueOffInterval(m2.w.heightHighwater, x, l.end, m2.w.lastCheckpoint);
    var m3 := PlainCall(c, m2, k);
    NotDueOffInterval(m3.w.heightHighwater, x, e, m3.w.lastCheckpoint);
    q := PlainCall(c, m3, i);
  }

  lemma SwappedCalls(c: Config, m: Machine, q: Machine, x: U64, i: nat, a: seq<Byte>, k: nat, b: seq<Byte>)
    requires i !in m.w.calls && k !in m.w.calls && i != k
    requires AllReturned(m.w) && forall n :: n in m.w.calls ==> m.w.calls[n].job.offset < m.w.dataHighwater
    requires m.w.index.header.nextWriteOffset <= m.w.dataHighwater
    requires var d := m.w.dataHighwater;
      var e := d + Room(c, a);
      var j, l := Job(x, a, d, d, e), Job(x, b, e, e, e + Room(c, b));
      && q.w.calls == m.w.calls[i := Call(j, Finished)][k := Call(l, Finished)]
      && q.w.latest == m.w.latest[x := k][x := i] && q.w.index.header == m.w.index.header
    ensures AllReturned(q.w) && View(q.w, x) == Some(a)
    ensures WrittenBehind(q.w, x, q.w.index.header.nextWriteOffset)
    ensures LastReserved(q.w, x, k) && q.w.calls[k].job.block == b
  {
    assert k in q.w.calls && q.w.calls[k].job.height == x;
  }

  // ---------------------------------------------------------------- a false floor

  lemma TwoReserved(c: Config, h: Header, x: U64, a: seq<Byte>, y: U64, b: seq<Byte>) returns (m: Machine)
    requires c.codec.Valid() && c.minHeight >= 1 && c.cap == None && NewHeader(c, h)
    requires Acceptable(c, x, a) && Acceptable(c, y, b)
    ensures ConcurrentCrash.Reachable(c, m)
    ensures var d, e := Room(c, a), Room(c, a) + Room(c, b);
      m == Created(h).(w := Created(h).w.(dataHighwater := e, calls :=
                         map[0 := Call(Job(x, a, 0, 0, d), Reserved), 1 := Call(Job(y, b, d, d, e), Reserved)]),
                       order := m.order, log := m.log)
  {
    StartMarks(c, h);
    ReachableStart(c, h);
    RoomBelow(c, x, a);
    RoomBelow(c, y, b);
    hide ConcurrentCrash.Reachable, NewHeader, Created, Acceptable, Room;
    var m1 := BeginCall(c, Created(h), 0, x, a);
    m := BeginCall(c, m1, 1, y, b);
  }

  /** The machine with the floor of a call settled at `floor`. */
  function Settled(m: Machine, id: nat, floor: nat): Machine
    requires id in m.w.calls
  {
    m.(w := m.w.(floor := floor, calls := Moved(m.w.calls, id, Floored)))
  }

  /** The cascade of a call whose entry closes the gap below one more indexed height. */
  lemma CascadeSteps(c: Config, m: Machine, id: nat) returns (q: Machine)
    requires c.codec.Valid() && c.minHeight >= 1 && ConcurrentCrash.Reachable(c, m)
    requires id in m.w.calls && m.w.calls[id].pc.Published?
    requires var x := m.w.calls[id].job.height;
      && m.w.floor + 1 == x && Addressable(c.minHeight, x + 1)
      && PopulatedAt(m.w.index, x + 1) && !PopulatedAt(m.w.index, x + 2)
    ensures ConcurrentCrash.Reachable(c, q) && q == Settled(m, id, m.w.calls[id].job.height + 1)
  {
    hide ConcurrentCrash.Reachable, Legal, Addressable, PopulatedAt;
    var x: nat := m.w.calls[id].job.height;
    Take(c, m, id);
    var q1 := ConcurrentCrash.Do(c, m, Advance(id));
    assert q1 == m.(w := m.w.(floor := x, calls := Moved(m.w.calls, id, Cascading(x))));
    Take(c, q1, id);
    var q2 := ConcurrentCrash.Do(c, q1, Advance(id));
    MovedTwice(m.w.calls, id, Cascading(x), Ready(x));
    assert q2 == m.(w := m.w.(floor := x, calls := Moved(m.w.calls, id, Ready(x))));
    Take(c, q2, id);
    var q3 := ConcurrentCrash.Do(c, q2, Advance(id));
    MovedTwice(m.w.calls, id, Ready(x), Cascading(x + 1));
    assert q3 == m.(w := m.w.(floor := x + 1, calls := Moved(m.w.calls, id, Cascading(x + 1))));
    Take(c, q3, id);
    q := ConcurrentCrash.Do(c, q3, Advance(id));
    MovedTwice(m.w.calls, id, Cascading(x + 1), Floored);
  }

  /** Calls at the lowest height and the one above it, whose entry comes first. Its
      checkpoint has synced the index when the other call writes its entry and takes the
      floor over both heights, and loads that floor for its header. */
  lemma FloorRun(c: Config, h: Header, x: U64, a: seq<Byte>, b: seq<Byte>) returns (m: Machine)
    requires c.codec.Valid() && c.minHeight >= 1 && c.cap == None && NewHeader(c, h)
    requires x == c.minHeight && Acceptable(c, x, a) && x + 1 < U64_LIMIT && Acceptable(c, x + 1, b)
    requires (x + 1) % CHECKPOINT_INTERVAL == 0
    ensures ConcurrentCrash.Reachable(c, m)
    ensures var d, e := Room(c, a), Room(c, a) + Room(c, b);
      var j, l := Job(x, a, 0, 0, d), Job(x + 1, b, d, d, e);
      && m.w.calls == map[0 := Call(j, Finished), 1 := Call(l, Finished)]
      && m.w.latest == map[x + 1 := 1, x := 0]
      && m.durable == Index(h, Put([], Slot(c, x + 1), EntryOf(c, l)))
      && m.unsynced == [PutEntry(Slot(c, x), EntryOf(c, j)), PutHeader(CheckpointHeader(h, e, x + 1, x + 1))]
  {
    var y: U64 := x + 1;
    var d, e := Room(c, a), Room(c, a) + Room(c, b);
    var j, l := Job(x, a, 0, 0, d), Job(y, b, d, d, e);
    StartMarks(c, h);
    AcceptableHeight(c, y, b);
    hide *;
    var m1 := UpperSynced(c, h, x, a, b);
    var m2 := LowerPublished(c, h, m1, j, l);
    m := BothFinished(c, h, m2, j, l);
  }

  /** Call 1 has its entry on disk and the highwater loaded. */
  ghost predicate IsUpperSynced(c: Config, h: Header, m: Machine, j: Job, l: Job) {
    && m.w.calls == map[0 := Call(j, Reserved), 1 := Call(l, HaveHighwater(l.height))]
    && m.w.latest == map[l.height := 1] && m.w.floor + 1 == c.minHeight && m.w.heightHighwater == l.height
    && m.w.index == m.durable == Index(h, Put([], Slot(c, l.height), EntryOf(c, l))) && m.unsynced == []
  }

  lemma UpperSynced(c: Config, h: Header, x: U64, a: seq<Byte>, b: seq<Byte>) returns (m: Machine)
    requires c.codec.Valid() && c.minHeight >= 1 && c.cap == None && NewHeader(c, h)
    requires x == c.minHeight && Acceptable(c, x, a) && x + 1 < U64_LIMIT && Acceptable(c, x + 1, b)
    requires (x + 1) % CHECKPOINT_INTERVAL == 0
    ensures ConcurrentCrash.Reachable(c, m)
    ensures var d, e := Room(c, a), Room(c, a) + Room(c, b);
      IsUpperSynced(c, h, m, Job(x, a, 0, 0, d), Job(x + 1, b, d, d, e))
  {
    StartMarks(c, h);
    hide ConcurrentCrash.Reachable, NewHeader, Created, CheckpointDue, Slot, EntryOf, Put, CheckpointHeader, Acceptable, Room;
    var m0 := TwoReserved(c, h, x, a, x + 1, b);
    DueAtInterval(m0.w.heightHighwater, x + 1, m0.w.calls[1].job.end, m0.w.lastCheckpoint);
    m := SyncedCall(c, m0, 1);
  }

  /** Call 0 has written its entry and taken the floor over both heights. */
  ghost predicate IsLowerPublished(c: Config, h: Header, m: Machine, j: Job, l: Job) {
    && m.w.calls == map[0 := Call(j, Floored), 1 := Call(l, HaveHighwater(l.height))]
    && m.w.latest == map[l.height := 1, j.height := 0] && m.w.floor == l.height && m.w.index.header == h
    && m.durable == Index(h, Put([], Slot(c, l.height), EntryOf(c, l)))
    && m.unsynced == [PutEntry(Slot(c, j.height), EntryOf(c, j))]
  }

  lemma LowerPublished(c: Config, h: Header, m: Machine, j: Job, l: Job) returns (q: Machine)
    requires c.codec.Valid() && c.minHeight >= 1 && ConcurrentCrash.Reachable(c, m) && IsUpperSynced(c, h, m, j, l)
    requires h.minHeight == c.minHeight == j.height && l.height == j.height + 1 && Addressable(c.minHeight, l.height)
    requires |c.codec.compress(l.block)| > 0
    ensures ConcurrentCrash.Reachable(c, q) && IsLowerPublished(c, h, q, j, l)
  {
    hide ConcurrentCrash.Reachable, Slot, EntryOf, Put, Addressable, PopulatedAt;
    var m1 := DataPhase(c, m, 0);
    var m2 := EntryStep(c, m1, 0);
    BothEntries(c, h, m2.w.index, j, l);
    q := CascadeSteps(c, m2, 0);
  }

  lemma BothFinished(c: Config, h: Header, m: Machine, j: Job, l: Job) returns (q: Machine)
    requires c.codec.Valid() && c.minHeight >= 1 && ConcurrentCrash.Reachable(c, m) && IsLowerPublished(c, h, m, j, l)
    requires (j.height + 1) % CHECKPOINT_INTERVAL == 0 && j.end <= l.end
    ensures ConcurrentCrash.Reachable(c, q)
    ensures q.w.calls == map[0 := Call(j, Finished), 1 := Call(l, Finished)] && q.w.latest == m.w.latest
    ensures q.durable == m.durable
    ensures q.unsynced == m.unsynced + [PutHeader(CheckpointHeader(h, l.end, l.height, l.height))]
  {
    hide ConcurrentCrash.Reachable, Slot, EntryOf, Put, CheckpointDue, CheckpointHeader;
    var m1 := HeaderSteps(c, m, 1, l.height);
    OffInterval(j.height);
    NotDueOffInterval(m1.w.heightHighwater, j.height, j.end, m1.w.lastCheckpoint);
    q := DecisionSteps(c, m1, 0);
  }

  lemma OffInterval(x: nat)
    requires (x + 1) % CHECKPOINT_INTERVAL == 0
    ensures x % CHECKPOINT_INTERVAL != 0
  {
  }

  lemma BothEntries(c: Config, h: Header, ix: Index, j: Job, l: Job)
    requires h.minHeight == c.minHeight == j.height && l.height == j.height + 1
    requires ix == Index(h, Put(Put([], Slot(c, l.height), EntryOf(c, l)), Slot(c, j.height), EntryOf(c, j)))
    requires |c.codec.compress(l.block)| > 0
    ensures PopulatedAt(ix, j.height + 1) && !PopulatedAt(ix, j.height + 2)
  {
    var none: seq<Entry> := [];
    assert Get(none, 2) == ZERO;
  }

  /** The recovered floor can be false. Both calls have returned, the power loss keeps the
      header and drops the entry of the lowest height: recovery succeeds and claims that
      nothing is missing up to the height above, while the lowest height reads nothing. */
  lemma RecoveredFloorIsFalse(c: Config, h: Header, x: U64, a: seq<Byte>, b: seq<Byte>)
    returns (m: Machine, keep: seq<bool>)
    requires c.codec.Valid() && c.minHeight >= 1 && c.cap == None && NewHeader(c, h)
    requires x == c.minHeight && Acceptable(c, x, a) && x + 1 < U64_LIMIT && Acceptable(c, x + 1, b)
    requires (x + 1) % CHECKPOINT_INTERVAL == 0
    ensures ConcurrentCrash.Reachable(c, m) && AllReturned(m.w) && |keep| == |m.unsynced|
    ensures WroteBlock(m.w, x, a) && View(m.w, x) == Some(a)
    ensures var image := ApplyOps(m.durable, Kept(m.unsynced, keep));
      && Recover(c, m.w.files, image).Ok?
      && ReadAfter(c, m.w.files, image, x) == Ok(None)
      && var r := Recover(c, m.w.files, image).value;
      && r.floor > x && !IsContiguousFloor(r.index, r.highwater, r.floor)
  {
    hide *;
    m := FloorRun(c, h, x, a, b);
    keep := [false, true];
    var image := ApplyOps(m.durable, Kept(m.unsynced, keep));
    LastOpKept(m.durable, m.unsynced);
    AcceptableHeight(c, x, a);
    StartMarks(c, h);
    LowestMissing(c, h, m, x, a, b, image);
    LostIff(c, m, keep, x);
    FloorAfterIff(c, m, keep);
  }

  lemma LastOpKept(durable: Index, ops: seq<IndexOp>)
    requires |ops| == 2 && ops[1].PutHeader?
    ensures ApplyOps(durable, Kept(ops, [false, true])) == durable.(header := ops[1].header)
  {
    var keep := [false, true];
    assert keep[1..] == [true] && keep[1..][1..] == [];
    assert ops[1..] == [ops[1]] && [ops[1]][1..] == [];
    assert Kept(ops[1..], keep[1..]) == [ops[1]];
    assert Kept(ops, keep) == [ops[1]];
  }

  lemma LowestMissing(c: Config, h: Header, m: Machine, x: U64, a: seq<Byte>, b: seq<Byte>, image: Index)
    requires x == c.minHeight == h.minHeight && x + 1 < U64_LIMIT
    requires var d, e := Room(c, a), Room(c, a) + Room(c, b);
      var j, l := Job(x, a, 0, 0, d), Job(x + 1, b, d, d, e);
      && m.w.calls == map[0 := Call(j, Finished), 1 := Call(l, Finished)]
      && m.w.latest == map[x + 1 := 1, x := 0]
      && image == Index(CheckpointHeader(h, e, x + 1, x + 1), Put([], Slot(c, x + 1), EntryOf(c, l)))
    ensures AllReturned(m.w) && WroteBlock(m.w, x, a) && View(m.w, x) == Some(a)
    ensures !PopulatedAt(image, x) && !WrittenBehind(m.w, x, image.header.nextWriteOffset)
    ensures image.header.contiguous == image.header.maxHeight == x + 1
  {
    var none: seq<Entry> := [];
    assert Get(none, 0) == ZERO;
    assert m.w.calls[0].pc.Finished?;
  }
}
