/** Crash upon crash: a power loss during writing, and then a recovery that is itself
    killed or loses power any number of times. */
module CrashSafety {
  import opened Bytes
  import opened Results
  import opened FileSet
  import opened IndexFile
  import opened BlockIo
  import opened Scan
  import opened Log
  import opened History
  import opened PowerLoss
  import opened Durability
  import R = Restart

  lemma FileIndices(c: Config, files: Files, off: nat, len: nat)
    requires InOneFile(c.cap, off, len) && EndsWith(c.cap, files, off, len)
    ensures c.cap.Some? ==> forall i :: i in files ==> i < U32_LIMIT
  {
  }

  lemma SoundIntro(c: Config, files: Files, end: nat)
    requires ValidateLayout(c.cap, Sizes(files)) == Ok(end) && end < U64_LIMIT && WithinCap(c.cap, files)
    requires c.cap.Some? ==> forall i :: i in files ==> i < U32_LIMIT
    ensures SoundLayout(c, files, end)
  {
    hide ValidateLayout, Sizes;
  }

  /** Data files that hold a log and nothing else are laid out as recovery demands. */
  lemma TightIsSound(c: Config, files: Files, log: seq<Seen>)
    requires Tight(c, files, log)
    ensures SoundLayout(c, files, EndAt(log, |log|))
  {
    hide *;
    TightLayout(c, files, log);
    TightAt(c, files, log);
    if log == [] {
      EmptyEnd();
      SmallEnd();
    } else {
      var n := |log| - 1;
      LaidStep(c, log[n], EndAt(log, n));
      LaidFacts(c, log[n], EndAt(log, n));
      FileIndices(c, files, log[n].offset, FrameLen(log[n]));
    }
    SoundIntro(c, files, EndAt(log, |log|));
  }

  lemma SmallEnd()
    ensures 0 < U64_LIMIT
  {
  }

  /** So are data files with a remnant of the next block behind the log. */
  lemma RemnantIsSound(c: Config, files: Files, log: seq<Seen>, v: Seen, extra: seq<Byte>)
    requires c.codec.Valid() && Tight(c, files, log) && LaidAt(c, v, EndAt(log, |log|))
    requires JobFits(c, v) && IsRemnant(c, v, extra)
    ensures SoundLayout(c, Extended(c, files, v, extra), v.offset + |extra|)
  {
    hide *;
    var from := EndAt(log, |log|);
    var after := Extended(c, files, v, extra);
    TightAt(c, files, log);
    NextPlace(c, files, log, v);
    PlaceAtEnd(c, files, from, v);
    RemnantEnds(c, files, from, v, extra);
    LaidFacts(c, v, from);
    LaidStep(c, v, from);
    RemnantLength(c, v, extra);
    RemnantFits(c, v, |extra|);
    ExtendedShape(c, files, from, v, extra, after);
    FileIndices(c, after, v.offset, |extra|);
    ExtendedWithin(c, files, v, extra);
    SoundIntro(c, after, v.offset + |extra|);
  }

  lemma ExtendedWithin(c: Config, files: Files, v: Seen, extra: seq<Byte>)
    requires WithinCap(c.cap, files) && InOneFile(c.cap, v.offset, |extra|)
    requires |FileAt(files, Split(c.cap, v.offset).file)| == Split(c.cap, v.offset).local
    ensures WithinCap(c.cap, Extended(c, files, v, extra))
  {
  }

  lemma ImageIsSound(c: Config, files: Files, log: seq<Seen>, v: Seen, image: Files) returns (end: nat)
    requires c.codec.Valid() && Tight(c, files, log) && LaidAt(c, v, EndAt(log, |log|))
    requires JobFits(c, v) && DataImage(c, files, v, image)
    ensures SoundLayout(c, image, end)
  {
    hide Tight, LaidAt, IsRemnant, Extended, PlaceFrame, SoundLayout;
    if image == files {
      end := EndAt(log, |log|);
      TightIsSound(c, files, log);
    } else if image == PlaceFrame(c, files, v.offset, v.height, v.block) {
      WriteFrameIs(c, files, v);
      TightAppend(c, files, log, v);
      end := EndAt(log + [v], |log| + 1);
      TightIsSound(c, image, log + [v]);
    } else {
      var extra :| IsRemnant(c, v, extra) && image == Extended(c, files, v, extra);
      end := v.offset + |extra|;
      RemnantIsSound(c, files, log, v, extra);
    }
  }

  /** Whatever data a power loss leaves, its files are laid out as recovery demands. */
  lemma SurvivorIsSound(c: Config, m: Machine, keepData: seq<bool>) returns (end: nat)
    requires c.codec.Valid() && Inv(c, m) && |keepData| == |m.unsyncedData|
    ensures SoundLayout(c, ApplyData(m.files, Kept(m.unsyncedData, keepData)), end)
  {
    hide *;
    InvFacts(c, m);
    if m.phase.Writing? {
      JobInFlight(c, m);
      var from := EndAt(m.log, |m.log|);
      LaidFacts(c, m.job, from);
      WritableBlock(c, m.job);
      NextPlace(c, m.files, m.log, m.job);
      PlaceAtEnd(c, m.files, from, m.job);
      DataSurvives(c, m.files, m.job, m.phase.done, keepData);
      end := ImageIsSound(c, m.files, m.log, m.job, ApplyData(m.files, Kept(m.unsyncedData, keepData)));
    } else {
      NoJob(c, m);
      NothingKept(m.files, keepData);
      end := EndAt(m.log, |m.log|);
      TightIsSound(c, m.files, m.log);
    }
  }

  lemma JobInFlight(c: Config, m: Machine)
    requires JobOk(c, m) && m.phase.Writing?
    ensures LaidAt(c, m.job, EndAt(m.log, |m.log|)) && JobFits(c, m.job) && m.phase.done <= 3
    ensures m.unsyncedData == DataOps(c, m.job)[..m.phase.done] && |m.unsyncedData| == m.phase.done
  {
    hide LaidAt;
  }

  lemma NothingKept(files: Files, keep: seq<bool>)
    requires |keep| == 0
    ensures ApplyData(files, Kept([], keep)) == files
  {
  }

  /** Durability of the whole chain: after a power loss at any step of any run, recovery
      may be killed or lose power again at any of its own steps, any number of times;
      the recovery that comes through still holds every acknowledged block, at most the
      one that was in flight besides, with the exact highwater and floor. */
  lemma NothingLostThroughRestarts(c: Config, h: Header, actions: seq<Action>, files: Files, ix: Index, end: nat,
                                   restarts: seq<R.Action>, keep: seq<bool>)
    requires c.codec.Valid() && c.minHeight >= 1 && Matches(c, h)
    requires h.nextWriteOffset == 0 && h.maxHeight == 0 && h.contiguous == 0
    requires Runs(c, Created(h), actions)
    requires Survives(Final(c, Created(h), actions), files, ix)
    requires ValidateLayout(c.cap, Sizes(files)) == Ok(end)
    requires R.Runs(c, files, end, R.Start(ix, []), restarts)
    requires |keep| == |R.Final(c, files, end, R.Start(ix, []), restarts).unsynced|
    ensures var p := R.Final(c, files, end, R.Start(ix, []), restarts);
      var image := ApplyOps(p.durable, Kept(p.unsynced, keep));
      && Recover(c, files, image).Ok?
      && exists all: seq<Seen> ::
           NothingLost(c, Final(c, Created(h), actions), files, Recover(c, files, image).value, all)
  {
    hide *;
    var m := Final(c, Created(h), actions);
    CreatedInv(c, h);
    RunsInv(c, Created(h), actions);
    var keepData, keepIndex := SurvivorIs(m, files, ix);
    var sound := SurvivorIsSound(c, m, keepData);
    LayoutOfSound(c, files, sound);
    AcknowledgedBlocksSurvive(c, h, actions, files, ix);
    RecoverReaches(c, files, end, ix);
    R.RecoverIsRestartable(c, files, end, ix, restarts, keep);
  }

  /** The layout that `SoundLayout` speaks of is the one that recovery computes. */
  lemma LayoutOfSound(c: Config, files: Files, end: nat)
    requires SoundLayout(c, files, end)
    ensures ValidateLayout(c.cap, Sizes(files)) == Ok(end)
  {
  }

  lemma RecoverReaches(c: Config, files: Files, end: nat, ix: Index)
    requires Recover(c, files, ix).Ok? && ValidateLayout(c.cap, Sizes(files)) == Ok(end)
    ensures ix.header.nextWriteOffset <= end
  {
    hide ValidateLayout, Sizes, RunOn;
  }
}
