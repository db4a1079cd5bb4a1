/** The read-ahead window of the recovery scan. */
module ScanWindow {
  import opened Bytes
  import opened Results
  import opened FileSet

  const DEFAULT_BYTES: nat := 0x10_0000

  lemma Refilled(file: seq<Byte>, at: nat, want: nat, rest: seq<Byte>)
    requires at + want <= |file|
    ensures (file[at..at + want] + rest)[..want] == file[at..at + want]
  {
  }

  lemma ResidentRange(file: seq<Byte>, buf: seq<Byte>, start: nat, len: nat, begin: nat, n: nat)
    requires len <= |buf| && start + len <= |file| && begin + n <= len
    requires buf[..len] == file[start..start + len]
    ensures buf[begin..begin + n] == file[start + begin..start + begin + n]
  {
    SliceOfSlice(buf, 0, len, begin, begin + n);
    SliceOfSlice(file, start, start + len, begin, begin + n);
  }

  class Window {
    var fileIdx: Option<nat>
    var start: nat
    var len: nat
    var buf: seq<Byte>

    /** The resident bytes are a copy of the range of the file they claim to be. */
    ghost predicate Valid(files: Files)
      reads this
    {
      && len <= |buf|
      && (fileIdx.Some? ==>
            && fileIdx.value in files
            && start + len <= |files[fileIdx.value]|
            && buf[..len] == files[fileIdx.value][start..start + len])
    }

    constructor ()
      ensures forall files :: Valid(files)
      ensures fresh(this)
    {
      fileIdx := None;
      start := 0;
      len := 0;
      buf := seq(DEFAULT_BYTES, _ => 0);
    }

    /** Reads through the window and reads of the file itself are indistinguishable:
        the same ranges succeed and the bytes are the same. */
    method Read(file: seq<Byte>, idx: nat, localOffset: U64, n: nat, fileSize: U64, ghost files: Files)
      returns (r: Result<seq<Byte>>)
      requires Valid(files)
      requires idx in files && files[idx] == file && fileSize <= |file|
      modifies this
      ensures Valid(files)
      ensures r.Ok? <==> localOffset + n <= fileSize
      ensures r.Ok? ==> r.value == file[localOffset..localOffset + n]
      ensures r.Err? ==> r.error == if localOffset + n >= 0x1_0000_0000_0000_0000 then Corrupt else UnexpectedEof
    {
      if localOffset + n >= U64_LIMIT {
        return Err(Corrupt);
      }
      var end := localOffset + n;
      if end > fileSize {
        return Err(UnexpectedEof);
      }
      var resident := fileIdx == Some(idx) && localOffset >= start && end <= start + len;
      if !resident {
        if n > |buf| {
          buf := buf + seq(n - |buf|, _ => 0);
          assert n == |buf|;
        }
        var want := if fileSize - localOffset < |buf| then fileSize - localOffset else |buf|;
        Refilled(file, localOffset, want, buf[want..]);
        buf := file[localOffset..localOffset + want] + buf[want..];
        fileIdx := Some(idx);
        start := localOffset;
        len := want;
      }
      var begin := localOffset - start;
      ResidentRange(file, buf, start, len, begin, n);
      r := Ok(buf[begin..begin + n]);
    }
  }
}
