/** Recovery that is killed: a step machine for the scan, its index writes and its
    checkpoints, interrupted by process kills and power losses at any point. */
module Restart {
  import opened Bytes
  import opened Results
  import opened FileSet
  import opened IndexFile
  import opened FloorScan
  import opened BlockIo
  import opened Scan
  import opened History
  import opened PowerLoss

  /** The three places between the system calls of a mid-scan checkpoint. */
  datatype Phase = Scanning | BeforeSync | BeforeHeader

  /** The index file on disk with its unsynced writes, and the scan's own variables. */
  datatype Process = Process(
    durable: Index,
    unsynced: seq<IndexOp>,
    phase: Phase,
    next: nat,
    highwater: nat,
    last: nat)

  /** The index file as the running system sees it. */
  function View(p: Process): Index {
    ApplyOps(p.durable, p.unsynced)
  }

  /** `recover` starting over on whatever the index file holds. */
  function Start(durable: Index, unsynced: seq<IndexOp>): Process {
    var h := ApplyOps(durable, unsynced).header;
    Process(durable, unsynced, Scanning, h.nextWriteOffset, h.maxHeight, h.nextWriteOffset)
  }

  datatype Action =
    | Advance                       // one iteration of the scan loop
    | Sync                          // sync_all on the index file
    | WriteHeader                   // the header write behind it
    | Kill                          // the process dies and recovery starts over
    | LosePower(keep: seq<bool>)    // so does the machine, with part of the unsynced writes

  predicate Enabled(c: Config, files: Files, end: nat, p: Process, a: Action) {
    match a
    case Advance =>
      var o := ParseAt(c, files, end, p.next);
      p.phase == Scanning && !o.Stop? && !o.Fail?
    case Sync => p.phase == BeforeSync
    case WriteHeader => p.phase == BeforeHeader
    case Kill => true
    case LosePower(keep) => |keep| == |p.unsynced|
  }

  /** The index writes of one visit: none if the entry already says the same. */
  function VisitOps(c: Config, ix: Index, pos: nat, height: nat, size: nat): seq<IndexOp> {
    var k, e := Slot(c, height), Entry(pos, size, 0);
    if k < |ix.slots| && ix.slots[k] == e then [] else [PutEntry(k, e)]
  }

  /** The scan rewrites an entry exactly when the index says something else. */
  lemma VisitWritesIff(c: Config, ix: Index, pos: nat, height: nat, size: nat)
    requires c.minHeight <= height
    ensures var k, ops := height - c.minHeight, VisitOps(c, ix, pos, height, size);
      && (ops == [] <==> k < |ix.slots| && ix.slots[k] == Entry(pos, size, 0))
      && (ops != [] ==> ops == [PutEntry(k, Entry(pos, size, 0))])
  {
  }

  function Do(c: Config, files: Files, end: nat, p: Process, a: Action): Process
    requires Enabled(c, files, end, p, a)
  {
    match a
    case Advance => AdvanceScan(c, p, ParseAt(c, files, end, p.next))
    case Sync => p.(durable := View(p), unsynced := [], phase := BeforeHeader)
    case WriteHeader =>
      p.(unsynced := p.unsynced + [PutHeader(ProgressHeader(View(p).header, p.next, p.highwater))],
         last := p.next, phase := Scanning)
    case Kill => Start(p.durable, p.unsynced)
    case LosePower(keep) => Start(ApplyOps(p.durable, Kept(p.unsynced, keep)), [])
  }

  function AdvanceScan(c: Config, p: Process, o: Outcome): Process {
    match o
    case Skip(next) => p.(next := next)
    case Visit(height, size, _, next) =>
      p.(unsynced := p.unsynced + VisitOps(c, View(p), p.next, height, size),
         highwater := Max(p.highwater, height), next := next,
         phase := if next >= p.last + CHECKPOINT_BYTES then BeforeSync else Scanning)
    case Overrun(height, size, _) =>
      p.(unsynced := p.unsynced + VisitOps(c, View(p), p.next, height, size),
         highwater := Max(p.highwater, height))
    case _ => p
  }

  ghost predicate Runs(c: Config, files: Files, end: nat, p: Process, actions: seq<Action>)
    decreases |actions|
  {
    actions != [] ==>
      && Enabled(c, files, end, p, actions[0])
      && Runs(c, files, end, Do(c, files, end, p, actions[0]), actions[1..])
  }

  function Final(c: Config, files: Files, end: nat, p: Process, actions: seq<Action>): Process
    requires Runs(c, files, end, p, actions)
    decreases |actions|
  {
    if actions == [] then p else Final(c, files, end, Do(c, files, end, p, actions[0]), actions[1..])
  }

  // ---------------------------------------------------------------- the invariant

  /** A scan that starts at `pos` is going to write slot `k`. */
  ghost predicate Rewrites(c: Config, files: Files, end: nat, pos: nat, k: nat) {
    Writes(Updates(c, Walk(c, files, end, pos).visits), k)
  }

  ghost predicate Covers(c: Config, files: Files, end: nat, from: nat, to: nat) {
    forall k :: Rewrites(c, files, end, to, k) ==> Rewrites(c, files, end, from, k)
  }

  ghost predicate OnlyRewrites(c: Config, files: Files, end: nat, from: nat, ops: seq<IndexOp>) {
    forall op :: op in ops ==> op.PutEntry? && Rewrites(c, files, end, from, op.slot)
  }

  /** Unsynced writes are entries that the scan repeats if they are lost, and at
      most one header, which is the oldest of them. */
  ghost predicate Harmless(c: Config, files: Files, end: nat, p: Process, goal: Run) {
    var base := p.durable;
    if p.unsynced != [] && p.unsynced[0].PutHeader? then
      var h := p.unsynced[0].header;
      && RunOn(c, files, end, base.(header := h)) == goal
      && Covers(c, files, end, base.header.nextWriteOffset, h.nextWriteOffset)
      && OnlyRewrites(c, files, end, h.nextWriteOffset, p.unsynced[1..])
      && Covers(c, files, end, h.nextWriteOffset, p.next)
    else
      && OnlyRewrites(c, files, end, base.header.nextWriteOffset, p.unsynced)
      && Covers(c, files, end, base.header.nextWriteOffset, p.next)
  }

  /** From here on, the current attempt ends in `goal`. */
  ghost predicate Heads(c: Config, files: Files, end: nat, p: Process, goal: Run) {
    var ix := View(p);
    if p.phase == Scanning then RunFrom(c, files, end, ix, p.next, p.highwater, p.last) == goal
    else RunFrom(c, files, end, ix.(header := ProgressHeader(ix.header, p.next, p.highwater)),
                 p.next, p.highwater, p.next) == goal
  }

  ghost predicate Inv(c: Config, files: Files, end: nat, p: Process, goal: Run) {
    && RunOn(c, files, end, p.durable) == goal
    && Harmless(c, files, end, p, goal)
    && Heads(c, files, end, p, goal)
    && p.last == View(p).header.nextWriteOffset
    && (p.phase == BeforeHeader ==> p.unsynced == [])
    && (p.phase == Scanning ==> p.last <= p.next)
    && (p.phase != Scanning ==> p.last + CHECKPOINT_BYTES <= p.next)
  }

  // ---------------------------------------------------------------- losing writes

  lemma OneEntryAbsorbed(c: Config, files: Files, end: nat, ix: Index, op: IndexOp)
    requires op.PutEntry? && Rewrites(c, files, end, ix.header.nextWriteOffset, op.slot)
    ensures RunOn(c, files, end, ApplyOp(ix, op)) == RunOn(c, files, end, ix)
    ensures ApplyOp(ix, op).header == ix.header
  {
    var start := ix.header.nextWriteOffset;
    var ws := Updates(c, Walk(c, files, end, start).visits);
    ReachBounds(ws, |ix.slots|);
    CoveredPut(ix.slots, ix.slots, ws, op.slot, op.entry);
    RunAbsorbs(c, files, end, ix, Put(ix.slots, op.slot, op.entry), start, ix.header.maxHeight, start);
  }

  lemma {:induction false} EntriesAbsorbed(c: Config, files: Files, end: nat, ix: Index, ops: seq<IndexOp>)
    requires OnlyRewrites(c, files, end, ix.header.nextWriteOffset, ops)
    ensures RunOn(c, files, end, ApplyOps(ix, ops)) == RunOn(c, files, end, ix)
    ensures ApplyOps(ix, ops).header == ix.header
    decreases |ops|
  {
    hide RunOn, Rewrites;
    if ops == [] {
    } else {
      assert ops[0] in ops;
      OneEntryAbsorbed(c, files, end, ix, ops[0]);
      EntriesAbsorbed(c, files, end, ApplyOp(ix, ops[0]), ops[1..]);
    }
  }

  lemma OnlyRewritesPart(c: Config, files: Files, end: nat, from: nat, to: nat, ops: seq<IndexOp>, part: seq<IndexOp>)
    requires OnlyRewrites(c, files, end, to, ops) && Covers(c, files, end, from, to)
    requires forall op :: op in part ==> op in ops
    ensures OnlyRewrites(c, files, end, from, part)
  {
    hide Rewrites;
  }

  lemma CoversReflexive(c: Config, files: Files, end: nat, at: nat)
    ensures Covers(c, files, end, at, at)
  {
  }

  lemma CoversTransitive(c: Config, files: Files, end: nat, x: nat, y: nat, z: nat)
    requires Covers(c, files, end, x, y) && Covers(c, files, end, y, z)
    ensures Covers(c, files, end, x, z)
  {
    hide Rewrites;
  }

  /** Every image a power loss can leave leads recovery to the same end. */
  lemma EveryImageLeadsThere(c: Config, files: Files, end: nat, p: Process, goal: Run, keep: seq<bool>)
    requires RunOn(c, files, end, p.durable) == goal && Harmless(c, files, end, p, goal)
    requires |keep| == |p.unsynced|
    ensures var image := ApplyOps(p.durable, Kept(p.unsynced, keep));
      && RunOn(c, files, end, image) == goal
      && image.header == if p.unsynced != [] && p.unsynced[0].PutHeader? && keep[0]
                         then p.unsynced[0].header else p.durable.header
  {
    hide RunOn, Rewrites, Covers, OnlyRewrites, Put;
    var base, ops := p.durable, p.unsynced;
    if ops != [] && ops[0].PutHeader? {
      var h := ops[0].header;
      var part := Kept(ops[1..], keep[1..]);
      KeptIsPart(ops[1..], keep[1..]);
      if keep[0] {
        CoversReflexive(c, files, end, h.nextWriteOffset);
        OnlyRewritesPart(c, files, end, h.nextWriteOffset, h.nextWriteOffset, ops[1..], part);
        EntriesAbsorbed(c, files, end, base.(header := h), part);
        assert ([ops[0]] + part)[1..] == part;
      } else {
        OnlyRewritesPart(c, files, end, base.header.nextWriteOffset, h.nextWriteOffset, ops[1..], part);
        EntriesAbsorbed(c, files, end, base, part);
        assert [] + part == part;
      }
    } else {
      KeptIsPart(ops, keep);
      CoversReflexive(c, files, end, base.header.nextWriteOffset);
      OnlyRewritesPart(c, files, end, base.header.nextWriteOffset, base.header.nextWriteOffset, ops, Kept(ops, keep));
      EntriesAbsorbed(c, files, end, base, Kept(ops, keep));
    }
  }

  lemma ViewLeadsThere(c: Config, files: Files, end: nat, p: Process, goal: Run)
    requires RunOn(c, files, end, p.durable) == goal && Harmless(c, files, end, p, goal)
    ensures RunOn(c, files, end, View(p)) == goal
    ensures View(p).header == if p.unsynced != [] && p.unsynced[0].PutHeader?
                              then p.unsynced[0].header else p.durable.header
  {
    hide RunOn, Harmless;
    KeptAll(p.unsynced);
    EveryImageLeadsThere(c, files, end, p, goal, seq(|p.unsynced|, _ => true));
  }

  // ---------------------------------------------------------------- the steps

  lemma StartInv(c: Config, files: Files, end: nat, ix: Index)
    ensures Inv(c, files, end, Start(ix, []), RunOn(c, files, end, ix))
  {
    CoversReflexive(c, files, end, ix.header.nextWriteOffset);
  }

  lemma KillInv(c: Config, files: Files, end: nat, p: Process, goal: Run)
    requires Inv(c, files, end, p, goal)
    ensures Inv(c, files, end, Start(p.durable, p.unsynced), goal)
  {
    ViewLeadsThere(c, files, end, p, goal);
    CoversReflexive(c, files, end, p.durable.header.nextWriteOffset);
    CoversReflexive(c, files, end, View(p).header.nextWriteOffset);
    StartHeads(c, files, end, p, goal);
    hide RunOn, RunFrom, Covers, OnlyRewrites, ApplyOps;
  }

  lemma StartHeads(c: Config, files: Files, end: nat, p: Process, goal: Run)
    requires RunOn(c, files, end, View(p)) == goal
    ensures Heads(c, files, end, Start(p.durable, p.unsynced), goal)
  {
  }

  lemma LosePowerInv(c: Config, files: Files, end: nat, p: Process, goal: Run, keep: seq<bool>)
    requires Inv(c, files, end, p, goal) && |keep| == |p.unsynced|
    ensures Inv(c, files, end, Start(ApplyOps(p.durable, Kept(p.unsynced, keep)), []), goal)
  {
    EveryImageLeadsThere(c, files, end, p, goal, keep);
    StartInv(c, files, end, ApplyOps(p.durable, Kept(p.unsynced, keep)));
  }

  lemma SyncInv(c: Config, files: Files, end: nat, p: Process, goal: Run)
    requires Inv(c, files, end, p, goal) && p.phase == BeforeSync
    ensures Inv(c, files, end, p.(durable := View(p), unsynced := [], phase := BeforeHeader), goal)
  {
    ViewLeadsThere(c, files, end, p, goal);
    hide RunOn, RunFrom, Covers, Rewrites;
  }

  lemma WriteHeaderInv(c: Config, files: Files, end: nat, p: Process, goal: Run)
    requires Inv(c, files, end, p, goal) && p.phase == BeforeHeader
    ensures Inv(c, files, end, Do(c, files, end, p, WriteHeader), goal)
  {
    var h := ProgressHeader(View(p).header, p.next, p.highwater);
    var q := Do(c, files, end, p, WriteHeader);
    assert p.unsynced == [] && View(p) == p.durable;
    assert q.unsynced == [PutHeader(h)];
    ApplyOpsAppend(p.durable, [], PutHeader(h));
    assert [] + [PutHeader(h)] == q.unsynced;
    assert View(q) == p.durable.(header := h);
    RunOnIs(c, files, end, p.durable.(header := h));
    hide RunOn, RunFrom, Rewrites, Covers;
    HeaderIsHarmless(c, files, end, p, q, goal, h);
  }

  lemma HeaderIsHarmless(c: Config, files: Files, end: nat, p: Process, q: Process, goal: Run, h: Header)
    requires Harmless(c, files, end, p, goal) && p.unsynced == []
    requires q.durable == p.durable && q.unsynced == [PutHeader(h)] && q.next == p.next == h.nextWriteOffset
    requires RunOn(c, files, end, p.durable.(header := h)) == goal
    ensures Harmless(c, files, end, q, goal)
  {
    CoversReflexive(c, files, end, p.next);
    NoMore(c, files, end, p.next);
    hide RunOn, Rewrites, Covers, OnlyRewrites;
    assert q.unsynced[1..] == [];
  }

  lemma {:induction false} StepCovers(c: Config, files: Files, end: nat, pos: nat)
    ensures var o := ParseAt(c, files, end, pos);
      && (o.Skip? || o.Visit? ==> Covers(c, files, end, pos, o.next))
      && (o.Visit? || o.Overrun? ==> Rewrites(c, files, end, pos, Slot(c, o.height)))
  {
    var o := ParseAt(c, files, end, pos);
    if o.Visit? || o.Overrun? {
      var v := Seen(o.height, pos, o.size, o.block);
      var rest := if o.Visit? then Walk(c, files, end, o.next).visits else [];
      var visits := Walk(c, files, end, pos).visits;
      StepAdvances(c, files, end, pos);
      assert visits == [v] + rest && visits[1..] == rest;
      var ws, later := Updates(c, visits), Updates(c, rest);
      assert ws == [UpdateFor(c, v)] + later;
      assert ws[0] in ws;
      assert forall w :: w in later ==> w in ws;
    }
  }

  /** After a visit the file says what the uninterrupted scan would have written. */
  lemma VisitView(c: Config, p: Process, height: nat, size: nat)
    ensures var ops := VisitOps(c, View(p), p.next, height, size);
      ApplyOps(p.durable, p.unsynced + ops)
      == View(p).(slots := Record(c, View(p).slots, p.next, height, size))
  {
    var ops := VisitOps(c, View(p), p.next, height, size);
    var k, e := Slot(c, height), Entry(p.next, size, 0);
    if ops == [] {
      assert p.unsynced + ops == p.unsynced;
      assert Put(View(p).slots, k, e) == View(p).slots;
    } else {
      ApplyOpsAppend(p.durable, p.unsynced, PutEntry(k, e));
    }
  }

  lemma OnlyRewritesMore(c: Config, files: Files, end: nat, from: nat, pos: nat, ops: seq<IndexOp>, more: seq<IndexOp>)
    requires OnlyRewrites(c, files, end, from, ops) && OnlyRewrites(c, files, end, pos, more)
    requires Covers(c, files, end, from, pos)
    ensures OnlyRewrites(c, files, end, from, ops + more)
  {
    hide Rewrites;
  }

  /** New entry writes of a visit can be lost without harm. */
  lemma HarmlessMore(c: Config, files: Files, end: nat, p: Process, goal: Run, more: seq<IndexOp>, next: nat)
    requires Harmless(c, files, end, p, goal) && Covers(c, files, end, p.next, next)
    requires OnlyRewrites(c, files, end, p.next, more)
    ensures forall q: Process :: q.durable == p.durable && q.unsynced == p.unsynced + more && q.next == next
              ==> Harmless(c, files, end, q, goal)
  {
    hide RunOn, Rewrites, Covers, OnlyRewrites;
    var base := p.durable.header.nextWriteOffset;
    if p.unsynced != [] && p.unsynced[0].PutHeader? {
      var h := p.unsynced[0].header;
      assert (p.unsynced + more)[1..] == p.unsynced[1..] + more;
      OnlyRewritesMore(c, files, end, h.nextWriteOffset, p.next, p.unsynced[1..], more);
      CoversTransitive(c, files, end, h.nextWriteOffset, p.next, next);
    } else {
      OnlyRewritesMore(c, files, end, base, p.next, p.unsynced, more);
      CoversTransitive(c, files, end, base, p.next, next);
      if p.unsynced + more != [] {
        AllEntries(c, files, end, base, p.unsynced + more);
      }
    }
  }

  lemma AllEntries(c: Config, files: Files, end: nat, from: nat, ops: seq<IndexOp>)
    requires OnlyRewrites(c, files, end, from, ops) && ops != []
    ensures ops[0].PutEntry?
  {
    assert ops[0] in ops;
  }

  lemma AdvanceInv(c: Config, files: Files, end: nat, p: Process, goal: Run)
    requires Inv(c, files, end, p, goal) && Enabled(c, files, end, p, Advance)
    ensures Inv(c, files, end, Do(c, files, end, p, Advance), goal)
  {
    hide Inv, ParseAt;
    if ParseAt(c, files, end, p.next).Skip? {
      SkipInv(c, files, end, p, goal);
    } else {
      VisitInv(c, files, end, p, goal);
    }
  }

  lemma SkipInv(c: Config, files: Files, end: nat, p: Process, goal: Run)
    requires Inv(c, files, end, p, goal) && p.phase == Scanning && ParseAt(c, files, end, p.next).Skip?
    ensures Inv(c, files, end, AdvanceScan(c, p, ParseAt(c, files, end, p.next)), goal)
  {
    var o := ParseAt(c, files, end, p.next);
    StepAdvances(c, files, end, p.next);
    StepCovers(c, files, end, p.next);
    RunSkip(c, files, end, p, o.next);
    hide RunOn, RunFrom, Rewrites, Covers, ParseAt, ApplyOps, OnlyRewrites, Harmless;
    NoMore(c, files, end, p.next);
    HarmlessMore(c, files, end, p, goal, [], o.next);
    assert p.unsynced + [] == p.unsynced;
  }

  lemma VisitInv(c: Config, files: Files, end: nat, p: Process, goal: Run)
    requires Inv(c, files, end, p, goal) && p.phase == Scanning
    requires ParseAt(c, files, end, p.next).Visit? || ParseAt(c, files, end, p.next).Overrun?
    ensures Inv(c, files, end, AdvanceScan(c, p, ParseAt(c, files, end, p.next)), goal)
  {
    var o := ParseAt(c, files, end, p.next);
    StepAdvances(c, files, end, p.next);
    StepCovers(c, files, end, p.next);
    var ops := VisitOps(c, View(p), p.next, o.height, o.size);
    VisitView(c, p, o.height, o.size);
    OpsRewrite(c, files, end, p);
    RunVisit(c, files, end, View(p), p.next, p.highwater, p.last);
    hide RunOn, RunFrom, Rewrites, Covers, ParseAt, ApplyOps, OnlyRewrites, Harmless, VisitOps, Record;
    if o.Visit? {
      HarmlessMore(c, files, end, p, goal, ops, o.next);
    } else {
      CoversReflexive(c, files, end, p.next);
      HarmlessMore(c, files, end, p, goal, ops, p.next);
    }
  }

  lemma OpsRewrite(c: Config, files: Files, end: nat, p: Process)
    ensures var o := ParseAt(c, files, end, p.next);
      o.Visit? || o.Overrun? ==> OnlyRewrites(c, files, end, p.next, VisitOps(c, View(p), p.next, o.height, o.size))
  {
    StepCovers(c, files, end, p.next);
    hide Rewrites, ParseAt, View;
  }

  lemma NoMore(c: Config, files: Files, end: nat, from: nat)
    ensures OnlyRewrites(c, files, end, from, [])
  {
  }

  lemma RunSkip(c: Config, files: Files, end: nat, p: Process, next: nat)
    requires ParseAt(c, files, end, p.next) == Outcome.Skip(next)
    ensures RunFrom(c, files, end, View(p), p.next, p.highwater, p.last)
         == RunFrom(c, files, end, View(p), next, p.highwater, p.last)
  {
  }

  lemma RunVisit(c: Config, files: Files, end: nat, ix: Index, pos: nat, highwater: nat, last: nat)
    ensures var o := ParseAt(c, files, end, pos);
      o.Visit? || o.Overrun? ==>
        var run := RunFrom(c, files, end, ix, pos, highwater, last);
        var indexed := ix.(slots := Record(c, ix.slots, pos, o.height, o.size));
        var raised := Max(highwater, o.height);
        && (o.Overrun? ==> run == RunFrom(c, files, end, indexed, pos, raised, last))
        && (o.Visit? ==>
              run == if o.next >= last + CHECKPOINT_BYTES
                     then RunFrom(c, files, end, indexed.(header := ProgressHeader(ix.header, o.next, raised)),
                                  o.next, raised, o.next)
                     else RunFrom(c, files, end, indexed, o.next, raised, last))
  {
    var o := ParseAt(c, files, end, pos);
    if o.Overrun? {
      var indexed := Record(c, ix.slots, pos, o.height, o.size);
      assert Record(c, indexed, pos, o.height, o.size) == indexed;
    }
  }

  lemma StepInv(c: Config, files: Files, end: nat, p: Process, goal: Run, a: Action)
    requires Inv(c, files, end, p, goal) && Enabled(c, files, end, p, a)
    ensures Inv(c, files, end, Do(c, files, end, p, a), goal)
  {
    hide Inv;
    match a
    case Advance => AdvanceInv(c, files, end, p, goal);
    case Sync => SyncInv(c, files, end, p, goal);
    case WriteHeader => WriteHeaderInv(c, files, end, p, goal);
    case Kill => KillInv(c, files, end, p, goal);
    case LosePower(keep) => LosePowerInv(c, files, end, p, goal, keep);
  }

  lemma {:induction false} RunsInv(c: Config, files: Files, end: nat, p: Process, goal: Run, actions: seq<Action>)
    requires Inv(c, files, end, p, goal) && Runs(c, files, end, p, actions)
    ensures Inv(c, files, end, Final(c, files, end, p, actions), goal)
    decreases |actions|
  {
    hide Inv, Enabled, Do;
    if actions == [] {
    } else {
      StepInv(c, files, end, p, goal, actions[0]);
      RunsInv(c, files, end, Do(c, files, end, p, actions[0]), goal, actions[1..]);
    }
  }

  /** However often and wherever recovery is killed, and whichever unsynced index
      writes a power loss drops: once a scan reaches its end, the index file, the next
      write offset and the highwater are those of one uninterrupted run, and at every
      moment before that every surviving image still leads there. */
  lemma RecoveryIsRestartable(c: Config, files: Files, end: nat, ix: Index, actions: seq<Action>)
    requires Runs(c, files, end, Start(ix, []), actions)
    ensures var p := Final(c, files, end, Start(ix, []), actions);
      var whole := RunOn(c, files, end, ix);
      && (forall keep: seq<bool> :: |keep| == |p.unsynced| ==>
            RunOn(c, files, end, ApplyOps(p.durable, Kept(p.unsynced, keep))) == whole)
      && (p.phase == Scanning && ParseAt(c, files, end, p.next).Stop? ==>
            whole == Run(View(p), p.next, p.highwater, None))
      && (p.phase == Scanning && ParseAt(c, files, end, p.next).Fail? ==>
            whole == Run(View(p), p.next, p.highwater, Some(ParseAt(c, files, end, p.next).error)))
  {
    var p := Final(c, files, end, Start(ix, []), actions);
    var whole := RunOn(c, files, end, ix);
    StartInv(c, files, end, ix);
    RunsInv(c, files, end, Start(ix, []), whole, actions);
    assert p.phase == Scanning ==> RunFrom(c, files, end, View(p), p.next, p.highwater, p.last) == whole;
    forall keep: seq<bool> | |keep| == |p.unsynced|
      ensures RunOn(c, files, end, ApplyOps(p.durable, Kept(p.unsynced, keep))) == whole
    {
      EveryImageLeadsThere(c, files, end, p, whole, keep);
    }
    hide ParseAt, ApplyOps, Inv;
  }

  /** Kills cannot make recovery lose ground: each checkpoint raises the offset from
      which the next attempt resumes by at least 64 MiB, and never past the end of the data. */
  lemma CheckpointsAdvance(c: Config, files: Files, end: nat, ix: Index, actions: seq<Action>)
    requires SoundLayout(c, files, end)
    requires Runs(c, files, end, Start(ix, []), actions)
    requires Final(c, files, end, Start(ix, []), actions).phase == BeforeHeader
    ensures var p := Final(c, files, end, Start(ix, []), actions);
      var q := Do(c, files, end, p, WriteHeader);
      && View(q).header.nextWriteOffset >= View(p).header.nextWriteOffset + 67_108_864
      && View(q).header.nextWriteOffset <= end
  {
    var p := Final(c, files, end, Start(ix, []), actions);
    StartInv(c, files, end, ix);
    RunsInv(c, files, end, Start(ix, []), RunOn(c, files, end, ix), actions);
    ApplyOpsAppend(p.durable, p.unsynced, PutHeader(ProgressHeader(View(p).header, p.next, p.highwater)));
    RunsInside(c, files, end, Start(ix, []), actions);
  }

  ghost predicate Inside(end: nat, p: Process) {
    p.phase != Scanning ==> p.next <= end
  }

  lemma {:induction false} RunsInside(c: Config, files: Files, end: nat, p: Process, actions: seq<Action>)
    requires SoundLayout(c, files, end) && Runs(c, files, end, p, actions) && Inside(end, p)
    ensures Inside(end, Final(c, files, end, p, actions))
    decreases |actions|
  {
    if actions == [] {
    } else {
      VisitStaysInside(c, files, end, p.next);
      hide ParseAt, SoundLayout;
      RunsInside(c, files, end, Do(c, files, end, p, actions[0]), actions[1..]);
    }
  }

  // ---------------------------------------------------------------- whole recoveries

  /** A header that recovery of `first` may leave: same store, same persisted floor. */
  predicate Descends(h: Header, first: Header, end: nat) {
    h.minHeight == first.minHeight && h.contiguous == first.contiguous && h.nextWriteOffset <= end
  }

  predicate OpDescends(op: IndexOp, first: Header, end: nat) {
    (op.PutHeader? ==> Descends(op.header, first, end)) && (op.PutEntry? ==> op.entry.Populated())
  }

  ghost predicate OpsDescend(ops: seq<IndexOp>, first: Header, end: nat) {
    forall op :: op in ops ==> OpDescends(op, first, end)
  }

  ghost predicate SlotsGrow(before: seq<Entry>, after: seq<Entry>) {
    forall k: nat :: Get(before, k).Populated() ==> Get(after, k).Populated()
  }

  ghost predicate IndexDescends(ix: Index, first: Index, end: nat) {
    Descends(ix.header, first.header, end) && SlotsGrow(first.slots, ix.slots)
  }

  ghost predicate ProcessDescends(p: Process, first: Index, end: nat) {
    && IndexDescends(p.durable, first, end) && OpsDescend(p.unsynced, first.header, end) && Inside(end, p)
  }

  lemma {:induction false} OpsKeepDescent(ix: Index, ops: seq<IndexOp>, first: Index, end: nat)
    requires IndexDescends(ix, first, end) && OpsDescend(ops, first.header, end)
    ensures IndexDescends(ApplyOps(ix, ops), first, end)
    decreases |ops|
  {
    hide Descends;
    if ops == [] {
    } else {
      assert ops[0] in ops && OpDescends(ops[0], first.header, end);
      OpsKeepDescent(ApplyOp(ix, ops[0]), ops[1..], first, end);
    }
  }

  lemma ViewDescends(p: Process, first: Index, end: nat)
    requires ProcessDescends(p, first, end)
    ensures IndexDescends(View(p), first, end)
  {
    hide IndexDescends, OpsDescend;
    OpsKeepDescent(p.durable, p.unsynced, first, end);
  }

  lemma ImageDescends(p: Process, first: Index, end: nat, keep: seq<bool>)
    requires ProcessDescends(p, first, end) && |keep| == |p.unsynced|
    ensures IndexDescends(ApplyOps(p.durable, Kept(p.unsynced, keep)), first, end)
  {
    hide IndexDescends, OpDescends, ApplyOps, Kept;
    KeptIsPart(p.unsynced, keep);
    assert OpsDescend(Kept(p.unsynced, keep), first.header, end);
    OpsKeepDescent(p.durable, Kept(p.unsynced, keep), first, end);
  }

  lemma OpsDescendMore(ops: seq<IndexOp>, op: IndexOp, first: Header, end: nat)
    requires OpsDescend(ops, first, end) && OpDescends(op, first, end)
    ensures OpsDescend(ops + [op], first, end)
  {
    hide OpDescends;
  }

  lemma StepDescends(c: Config, files: Files, end: nat, p: Process, first: Index, a: Action)
    requires SoundLayout(c, files, end) && ProcessDescends(p, first, end) && Enabled(c, files, end, p, a)
    ensures ProcessDescends(Do(c, files, end, p, a), first, end)
  {
    match a
    case Advance =>
      VisitStaysInside(c, files, end, p.next);
      AdvanceDescends(c, files, end, p, first);
    case Sync =>
      ViewDescends(p, first, end);
      hide IndexDescends, SoundLayout, ApplyOps;
    case WriteHeader =>
      ViewDescends(p, first, end);
      hide SlotsGrow, SoundLayout, ApplyOps;
      OpsDescendMore(p.unsynced, PutHeader(ProgressHeader(View(p).header, p.next, p.highwater)), first.header, end);
    case Kill =>
      hide IndexDescends, SoundLayout, ApplyOps, OpsDescend;
    case LosePower(keep) =>
      ImageDescends(p, first, end, keep);
      hide IndexDescends, SoundLayout, ApplyOps, Kept;
  }

  lemma AdvanceDescends(c: Config, files: Files, end: nat, p: Process, first: Index)
    requires ProcessDescends(p, first, end) && Enabled(c, files, end, p, Advance)
    requires ParseAt(c, files, end, p.next).Visit? ==> ParseAt(c, files, end, p.next).next <= end
    ensures ProcessDescends(Do(c, files, end, p, Advance), first, end)
  {
    var o := ParseAt(c, files, end, p.next);
    VisitHasSize(c, files, end, p.next);
    hide IndexDescends, ParseAt, ApplyOps, OpsDescend;
    if o.Visit? || o.Overrun? {
      var op := PutEntry(Slot(c, o.height), Entry(p.next, o.size, 0));
      OpsDescendMore(p.unsynced, op, first.header, end);
      assert p.unsynced + [] == p.unsynced;
      hide View;
    }
  }

  lemma VisitHasSize(c: Config, files: Files, end: nat, pos: nat)
    ensures var o := ParseAt(c, files, end, pos);
      o.Visit? || o.Overrun? ==> o.size > 0
  {
  }

  lemma {:induction false} RunsDescend(c: Config, files: Files, end: nat, p: Process, first: Index, actions: seq<Action>)
    requires SoundLayout(c, files, end) && ProcessDescends(p, first, end) && Runs(c, files, end, p, actions)
    ensures ProcessDescends(Final(c, files, end, p, actions), first, end)
    decreases |actions|
  {
    hide ProcessDescends, Enabled, Do, SoundLayout;
    if actions == [] {
    } else {
      StepDescends(c, files, end, p, first, actions[0]);
      RunsDescend(c, files, end, Do(c, files, end, p, actions[0]), first, actions[1..]);
    }
  }

  /** The whole of recovery, floor and errors included, from whatever image any number
      of kills and power losses leave, is the recovery of the first image; and no
      mid-recovery header claims contiguity that its index does not have. */
  lemma RecoverIsRestartable(c: Config, files: Files, end: nat, ix: Index, actions: seq<Action>, keep: seq<bool>)
    requires SoundLayout(c, files, end) && ix.header.nextWriteOffset <= end
    requires Runs(c, files, end, Start(ix, []), actions)
    requires |keep| == |Final(c, files, end, Start(ix, []), actions).unsynced|
    ensures var p := Final(c, files, end, Start(ix, []), actions);
      var image := ApplyOps(p.durable, Kept(p.unsynced, keep));
      && Recover(c, files, image) == Recover(c, files, ix)
      && ((forall x :: ix.header.minHeight <= x <= ix.header.contiguous ==> PopulatedAt(ix, x)) ==>
            forall x :: image.header.minHeight <= x <= image.header.contiguous ==> PopulatedAt(image, x))
  {
    var p := Final(c, files, end, Start(ix, []), actions);
    var image := ApplyOps(p.durable, Kept(p.unsynced, keep));
    StartDescends(ix, end);
    hide *;
    RunsDescend(c, files, end, Start(ix, []), ix, actions);
    ImageDescends(p, ix, end, keep);
    StartInv(c, files, end, ix);
    RunsInv(c, files, end, Start(ix, []), RunOn(c, files, end, ix), actions);
    InvHarmless(c, files, end, p, RunOn(c, files, end, ix));
    EveryImageLeadsThere(c, files, end, p, RunOn(c, files, end, ix), keep);
    SameRecovery(c, files, end, ix, image);
    DescentKeepsClaims(image, ix, end);
  }

  lemma StartDescends(ix: Index, end: nat)
    requires ix.header.nextWriteOffset <= end
    ensures ProcessDescends(Start(ix, []), ix, end)
  {
  }

  lemma InvHarmless(c: Config, files: Files, end: nat, p: Process, goal: Run)
    requires Inv(c, files, end, p, goal)
    ensures RunOn(c, files, end, p.durable) == goal && Harmless(c, files, end, p, goal)
  {
    hide RunOn, Harmless, Heads, View;
  }

  lemma SameRecovery(c: Config, files: Files, end: nat, ix: Index, image: Index)
    requires SoundLayout(c, files, end) && ix.header.nextWriteOffset <= end
    requires IndexDescends(image, ix, end) && RunOn(c, files, end, image) == RunOn(c, files, end, ix)
    ensures Recover(c, files, image) == Recover(c, files, ix)
  {
    hide RunOn, ScanFloor, ValidateLayout, SlotsGrow;
  }

  lemma DescentKeepsClaims(image: Index, first: Index, end: nat)
    requires IndexDescends(image, first, end)
    ensures (forall x :: first.header.minHeight <= x <= first.header.contiguous ==> PopulatedAt(first, x)) ==>
              forall x :: image.header.minHeight <= x <= image.header.contiguous ==> PopulatedAt(image, x)
  {
    if forall x :: first.header.minHeight <= x <= first.header.contiguous ==> PopulatedAt(first, x) {
      forall x | image.header.minHeight <= x <= image.header.contiguous
        ensures PopulatedAt(image, x)
      {
        assert PopulatedAt(first, x);
        assert Get(first.slots, x - first.header.minHeight).Populated();
      }
    }
  }
}
