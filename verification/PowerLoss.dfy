/** What a power loss leaves of the index file: the synced contents, plus any
    subset of the writes issued since the last sync, in their order. */
module PowerLoss {
  import opened IndexFile

  datatype IndexOp =
    | PutEntry(slot: nat, entry: Entry)
    | PutHeader(header: Header)

  function ApplyOp(ix: Index, op: IndexOp): Index {
    match op
    case PutEntry(k, e) => ix.(slots := Put(ix.slots, k, e))
    case PutHeader(h) => ix.(header := h)
  }

  function ApplyOps(ix: Index, ops: seq<IndexOp>): Index
    decreases |ops|
  {
    if ops == [] then ix else ApplyOps(ApplyOp(ix, ops[0]), ops[1..])
  }

  /** The elements of `s` that `keep` selects. */
  function Kept<T>(s: seq<T>, keep: seq<bool>): seq<T>
    requires |keep| == |s|
  {
    if s == [] then [] else (if keep[0] then [s[0]] else []) + Kept(s[1..], keep[1..])
  }

  lemma {:induction false} KeptIsPart<T>(s: seq<T>, keep: seq<bool>)
    requires |keep| == |s|
    ensures forall x :: x in Kept(s, keep) ==> x in s
  {
    if s == [] {
    } else {
      KeptIsPart(s[1..], keep[1..]);
    }
  }

  lemma {:induction false} ApplyOpsConcat(ix: Index, a: seq<IndexOp>, b: seq<IndexOp>)
    ensures ApplyOps(ix, a + b) == ApplyOps(ApplyOps(ix, a), b)
    decreases |a|
  {
    if a == [] {
      assert a + b == b;
    } else {
      assert (a + b)[1..] == a[1..] + b;
      ApplyOpsConcat(ApplyOp(ix, a[0]), a[1..], b);
    }
  }

  lemma ApplyOpsAppend(ix: Index, ops: seq<IndexOp>, op: IndexOp)
    ensures ApplyOps(ix, ops + [op]) == ApplyOp(ApplyOps(ix, ops), op)
  {
    ApplyOpsConcat(ix, ops, [op]);
    assert [op][1..] == [];
  }

  lemma {:induction false} KeptAll<T>(s: seq<T>)
    ensures Kept(s, seq(|s|, _ => true)) == s
  {
    if s == [] {
    } else {
      var all := seq(|s|, _ => true);
      assert all[1..] == seq(|s[1..]|, _ => true);
      KeptAll(s[1..]);
    }
  }
}
