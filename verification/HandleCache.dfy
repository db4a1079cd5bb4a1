/** The bounded cache of open data-file handles. */
module HandleCache {
  import opened Results

  /** An open file: which data file it is, and which opening of it. */
  datatype Handle = Handle(file: nat, serial: nat)

  predicate NoDup(s: seq<nat>) {
    forall i, j :: 0 <= i < j < |s| ==> s[i] != s[j]
  }

  /** `retain(|i| i != x)`. */
  function Without(s: seq<nat>, x: nat): seq<nat> {
    if s == [] then [] else (if s[0] == x then [] else [s[0]]) + Without(s[1..], x)
  }

  lemma {:induction false} WithoutMembers(s: seq<nat>, x: nat)
    ensures forall y :: y in Without(s, x) <==> y in s && y != x
  {
    if s == [] {
    } else {
      WithoutMembers(s[1..], x);
      assert forall y :: y in s <==> y == s[0] || y in s[1..];
    }
  }

  lemma {:induction false} WithoutAbsent(s: seq<nat>, x: nat)
    requires x !in s
    ensures Without(s, x) == s
  {
    if s == [] {
    } else {
      WithoutAbsent(s[1..], x);
    }
  }

  lemma {:induction false} WithoutConcat(a: seq<nat>, b: seq<nat>, x: nat)
    ensures Without(a + b, x) == Without(a, x) + Without(b, x)
  {
    if a == [] {
      assert a + b == b;
    } else {
      assert (a + b)[1..] == a[1..] + b;
      WithoutConcat(a[1..], b, x);
    }
  }

  lemma {:induction false} WithoutAt(s: seq<nat>, pos: nat)
    requires NoDup(s) && pos < |s|
    ensures Without(s, s[pos]) == s[..pos] + s[pos + 1..]
  {
    if pos == 0 {
      WithoutAbsent(s[1..], s[0]);
    } else {
      assert s[1..][pos - 1] == s[pos];
      WithoutAt(s[1..], pos - 1);
      assert s[..pos] + s[pos + 1..] == [s[0]] + (s[1..][..pos - 1] + s[1..][pos..]);
    }
  }

  lemma {:induction false} WithoutNoDup(s: seq<nat>, x: nat)
    requires NoDup(s)
    ensures NoDup(Without(s, x))
    ensures |Without(s, x)| == if x in s then |s| - 1 else |s|
  {
    if x in s {
      var pos :| 0 <= pos < |s| && s[pos] == x;
      WithoutAt(s, pos);
    } else {
      WithoutAbsent(s, x);
    }
  }

  // ---------------------------------------------------------------- what LRU means

  /** The distinct indices of a trace, least recently accessed first. */
  function Recency(trace: seq<nat>): seq<nat> {
    if trace == [] then []
    else Without(Recency(trace[..|trace| - 1]), trace[|trace| - 1]) + [trace[|trace| - 1]]
  }

  function LastAccess(trace: seq<nat>, x: nat): int {
    if trace == [] then -1
    else if trace[|trace| - 1] == x then |trace| - 1
    else LastAccess(trace[..|trace| - 1], x)
  }

  lemma {:induction false} LastAccessInRange(trace: seq<nat>, x: nat)
    ensures LastAccess(trace, x) < |trace|
  {
    if trace == [] {
    } else {
      LastAccessInRange(trace[..|trace| - 1], x);
    }
  }

  /** `Recency` lists every index of the trace once, in the order of last access. */
  lemma {:induction false} RecencyIsOrderedByLastAccess(trace: seq<nat>)
    ensures NoDup(Recency(trace))
    ensures forall x :: x in Recency(trace) <==> x in trace
    ensures forall i, j :: 0 <= i < j < |Recency(trace)| ==>
              LastAccess(trace, Recency(trace)[i]) < LastAccess(trace, Recency(trace)[j])
  {
    if trace == [] {
    } else {
      var before, x := trace[..|trace| - 1], trace[|trace| - 1];
      RecencyIsOrderedByLastAccess(before);
      var r, kept := Recency(before), Without(Recency(before), x);
      WithoutNoDup(r, x);
      WithoutMembers(r, x);
      assert trace == before + [x];
      forall i, j | 0 <= i < j < |Recency(trace)|
        ensures LastAccess(trace, Recency(trace)[i]) < LastAccess(trace, Recency(trace)[j])
      {
        assert Recency(trace)[i] == kept[i];
        LastAccessInRange(before, kept[i]);
        if j < |kept| {
          WithoutKeepsOrder(r, x, i, j);
        }
      }
    }
  }

  lemma WithoutKeepsOrder(s: seq<nat>, x: nat, i: nat, j: nat)
    requires NoDup(s) && i < j < |Without(s, x)|
    ensures exists a, b :: 0 <= a < b < |s| && s[a] == Without(s, x)[i] && s[b] == Without(s, x)[j]
  {
    if x in s {
      var pos :| 0 <= pos < |s| && s[pos] == x;
      WithoutAt(s, pos);
      var a, b := if i < pos then i else i + 1, if j < pos then j else j + 1;
      assert s[a] == Without(s, x)[i] && s[b] == Without(s, x)[j];
    } else {
      WithoutAbsent(s, x);
      assert s[i] == Without(s, x)[i] && s[j] == Without(s, x)[j];
    }
  }

  function LastN(s: seq<nat>, n: nat): seq<nat> {
    if |s| <= n then s else s[|s| - n..]
  }

  /** What one access does to the order of a cache. */
  function Access(order: seq<nat>, capacity: nat, x: nat): seq<nat> {
    if x in order then Without(order, x) + [x]
    else if order != [] && |order| + 1 > capacity then order[1..] + [x]
    else order + [x]
  }

  function OrderAfter(capacity: nat, trace: seq<nat>): seq<nat> {
    if trace == [] then []
    else Access(OrderAfter(capacity, trace[..|trace| - 1]), capacity, trace[|trace| - 1])
  }

  /** After any trace the cache holds exactly the most recently accessed distinct
      indices, as many as fit, ordered by last access. */
  lemma {:induction false} CacheIsLru(capacity: nat, trace: seq<nat>)
    requires capacity >= 1
    ensures OrderAfter(capacity, trace) == LastN(Recency(trace), capacity)
  {
    if trace == [] {
    } else {
      var before, x := trace[..|trace| - 1], trace[|trace| - 1];
      CacheIsLru(capacity, before);
      RecencyIsOrderedByLastAccess(before);
      AccessKeepsMostRecent(Recency(before), capacity, x);
    }
  }

  /** A cache state is what a trace of its own indices in order leads to. */
  lemma {:induction false} OrderIsItsOwnTrace(capacity: nat, order: seq<nat>)
    requires NoDup(order) && |order| <= capacity
    ensures OrderAfter(capacity, order) == order
  {
    if order == [] {
    } else {
      var before, x := order[..|order| - 1], order[|order| - 1];
      assert order == before + [x];
      NoDupHalves(before, [x]);
      assert x in [x];
      OrderIsItsOwnTrace(capacity, before);
      hide OrderAfter, NoDup;
      OrderAfterAccess(capacity, before, x);
    }
  }

  lemma OrderAfterAccess(capacity: nat, trace: seq<nat>, x: nat)
    ensures OrderAfter(capacity, trace + [x]) == Access(OrderAfter(capacity, trace), capacity, x)
  {
    assert (trace + [x])[..|trace|] == trace;
  }

  lemma AccessKeepsMostRecent(r: seq<nat>, capacity: nat, x: nat)
    requires NoDup(r) && capacity >= 1
    ensures Access(LastN(r, capacity), capacity, x) == LastN(Without(r, x) + [x], capacity)
  {
    var cached := LastN(r, capacity);
    var older := r[..|r| - |cached|];
    assert r == older + cached;
    WithoutConcat(older, cached, x);
    NoDupHalves(older, cached);
    if x in cached {
      AccessHit(older, cached, capacity, x);
    } else {
      AccessMiss(older, cached, capacity, x);
    }
  }

  lemma NoDupHalves(a: seq<nat>, b: seq<nat>)
    requires NoDup(a + b)
    ensures NoDup(a) && NoDup(b)
    ensures forall y :: y in b ==> y !in a
  {
    var s := a + b;
    assert forall i :: 0 <= i < |a| ==> a[i] == s[i];
    assert forall j :: 0 <= j < |b| ==> b[j] == s[|a| + j];
    forall i, j | 0 <= i < |a| && 0 <= j < |b|
      ensures a[i] != b[j]
    {
      assert s[i] != s[|a| + j];
    }
  }

  lemma AccessHit(older: seq<nat>, cached: seq<nat>, capacity: nat, x: nat)
    requires NoDup(cached) && x in cached && x !in older
    requires |cached| == capacity || (older == [] && |cached| < capacity)
    ensures Without(older, x) == older
    ensures Without(cached, x) + [x] == LastN(older + Without(cached, x) + [x], capacity)
  {
    WithoutAbsent(older, x);
    var kept := Without(cached, x);
    assert |kept| == |cached| - 1 by {
      WithoutNoDup(cached, x);
    }
    LastNOfAppend(older, kept, x, capacity);
  }

  lemma AccessMiss(older: seq<nat>, cached: seq<nat>, capacity: nat, x: nat)
    requires capacity >= 1 && x !in cached
    requires |cached| == capacity || (older == [] && |cached| < capacity)
    ensures Access(cached, capacity, x) == LastN(Without(older, x) + Without(cached, x) + [x], capacity)
  {
    WithoutAbsent(cached, x);
    if |cached| < capacity {
      LastNOfAppend([], cached, x, capacity);
    } else {
      LastNOfAppend(Without(older, x) + [cached[0]], cached[1..], x, capacity);
      assert Without(older, x) + cached + [x] == Without(older, x) + [cached[0]] + cached[1..] + [x];
    }
  }

  /** Elements far enough from the end do not matter. */
  lemma LastNOfAppend(a: seq<nat>, b: seq<nat>, x: nat, n: nat)
    requires |b| + 1 == n || (a == [] && |b| < n)
    ensures LastN(a + b + [x], n) == b + [x]
  {
  }

  lemma AccessKeepsShape(order: seq<nat>, capacity: nat, x: nat)
    requires NoDup(order) && 1 <= capacity && |order| <= capacity
    ensures var after := Access(order, capacity, x);
      && NoDup(after)
      && |after| <= capacity
      && (forall y :: y in after <==>
            y == x || (y in order && !(x !in order && |order| == capacity && y == order[0])))
      && |after| == if x in order || |order| == capacity then |order| else |order| + 1
  {
    WithoutNoDup(order, x);
    WithoutMembers(order, x);
    if x !in order && |order| == capacity {
      assert order == [order[0]] + order[1..];
    }
  }

  lemma TouchIsAccess(order: seq<nat>, capacity: nat, pos: nat)
    requires NoDup(order) && pos < |order|
    ensures Access(order, capacity, order[pos]) == order[..pos] + order[pos + 1..] + [order[pos]]
  {
    WithoutAt(order, pos);
  }

  /** What every state of the cache satisfies. */
  ghost predicate Consistent(capacity: nat, order: seq<nat>, handles: map<nat, Handle>, opens: nat) {
    && capacity >= 1
    && NoDup(order)
    && (forall i :: i in order <==> i in handles)
    && |order| == |handles| <= capacity
    && (forall i :: i in handles ==> handles[i].file == i && handles[i].serial < opens)
  }

  lemma DropSize(m: map<nat, Handle>, x: nat)
    ensures |m - {x}| == if x in m then |m| - 1 else |m|
  {
    assert (m - {x}).Keys == m.Keys - {x};
    assert |(m - {x}).Keys| == |m - {x}| && |m.Keys| == |m|;
  }

  lemma InsertKeepsConsistent(capacity: nat, order: seq<nat>, handles: map<nat, Handle>, opens: nat, h: Handle)
    requires Consistent(capacity, order, handles, opens) && h.serial < opens
    ensures var x := h.file;
      var grown := handles[x := h];
      var after := if x !in handles && |grown| > capacity then grown - {order[0]} else grown;
      && Consistent(capacity, Access(order, capacity, x), after, opens)
      && (x !in handles && |grown| > capacity ==> order[0] != x)
  {
    var x := h.file;
    AccessKeepsShape(order, capacity, x);
    var grown := handles[x := h];
    assert |grown| == if x in handles then |handles| else |handles| + 1;
    if x !in handles && |grown| > capacity {
      assert order[0] in order;
      DropSize(grown, order[0]);
    }
  }

  lemma RemoveKeepsConsistent(capacity: nat, order: seq<nat>, handles: map<nat, Handle>, opens: nat, x: nat)
    requires Consistent(capacity, order, handles, opens)
    ensures Consistent(capacity, Without(order, x), handles - {x}, opens)
  {
    DropSize(handles, x);
    WithoutNoDup(order, x);
    WithoutMembers(order, x);
  }

  lemma TouchKeepsConsistent(capacity: nat, order: seq<nat>, handles: map<nat, Handle>, opens: nat, x: nat)
    requires Consistent(capacity, order, handles, opens) && x in order
    ensures Consistent(capacity, Access(order, capacity, x), handles, opens)
  {
    AccessKeepsShape(order, capacity, x);
  }

  /** One access more in the trace is one access step of the cache. */
  lemma AccessIsTraced(capacity: nat, trace: seq<nat>, x: nat)
    requires capacity >= 1
    ensures Access(LastN(Recency(trace), capacity), capacity, x) == LastN(Recency(trace + [x]), capacity)
  {
    CacheIsLru(capacity, trace);
    CacheIsLru(capacity, trace + [x]);
    OrderAfterAccess(capacity, trace, x);
  }

  lemma ConsistentOrder(capacity: nat, order: seq<nat>, handles: map<nat, Handle>, opens: nat)
    requires Consistent(capacity, order, handles, opens)
    ensures order == LastN(Recency(order), capacity)
  {
    OrderIsItsOwnTrace(capacity, order);
    CacheIsLru(capacity, order);
  }

  class Inner {
    const capacity: nat
    var order: seq<nat>
    var handles: map<nat, Handle>
    var opens: nat   // how many times a file was opened
    /** The accesses so far; after an eviction, a trace that leads to what is left. */
    ghost var trace: seq<nat>

    /** The cache is consistent and holds the most recently accessed indices of its
        trace, as many as fit, ordered by last access. */
    ghost predicate Valid()
      reads this
    {
      Consistent(capacity, order, handles, opens) && order == LastN(Recency(trace), capacity)
    }

    constructor (maxDataFiles: nat)
      ensures Valid() && order == [] && trace == [] && capacity == if maxDataFiles == 0 then 1 else maxDataFiles
    {
      capacity := if maxDataFiles == 0 then 1 else maxDataFiles;
      order := [];
      handles := map[];
      opens := 0;
      trace := [];
    }

    method Insert(index: nat, handle: Handle)
      requires Valid() && handle.file == index && handle.serial < opens
      modifies this`order, this`handles, this`trace
      ensures Valid() && trace == old(trace) + [index]
      ensures order == Access(old(order), capacity, index)
      ensures handles[index] == handle
      ensures forall i :: i in order && i != index ==> i in old(handles) && handles[i] == old(handles)[i]
    {
      hide NoDup, Without, Recency, LastN;
      InsertKeepsConsistent(capacity, order, handles, opens, handle);
      var replaced := index in handles;
      handles := handles[index := handle];
      if replaced {
        order := Without(order, index);
      } else if |handles| > capacity && |order| > 0 && order[0] != index {
        var lru := order[0];
        order := order[1..];
        handles := handles - {lru};
      }
      order := order + [index];
      assert order == Access(old(order), capacity, index);
      AccessIsTraced(capacity, trace, index);
      trace := trace + [index];
    }

    method Touch(index: nat)
      requires Valid()
      modifies this`order, this`trace
      ensures Valid() && trace == if index in handles then old(trace) + [index] else old(trace)
      ensures order == if index in handles then Access(old(order), capacity, index) else old(order)
    {
      hide NoDup, Without, Recency, LastN;
      AccessIsTraced(capacity, trace, index);
      if |order| > 0 && order[|order| - 1] == index {
        TouchIsAccess(order, capacity, |order| - 1);
        assert order == order[..|order| - 1] + order[|order|..] + [index];
        trace := trace + [index];
        return;
      }
      if index in order {
        var pos :| 0 <= pos < |order| && order[pos] == index;
        TouchIsAccess(order, capacity, pos);
        TouchKeepsConsistent(capacity, order, handles, opens, index);
        order := order[..pos] + order[pos + 1..] + [index];
        trace := trace + [index];
      }
    }

    method Remove(index: nat)
      requires Valid()
      modifies this`order, this`handles, this`trace
      ensures Valid() && trace == order
      ensures order == Without(old(order), index) && handles == old(handles) - {index}
    {
      hide Consistent, LastN, Recency, Without;
      RemoveKeepsConsistent(capacity, order, handles, opens, index);
      handles := handles - {index};
      order := Without(order, index);
      ConsistentOrder(capacity, order, handles, opens);
      trace := order;
    }

    method Lookup(index: nat) returns (r: Option<Handle>)
      requires Valid()
      modifies this`order, this`trace
      ensures Valid() && trace == if index in handles then old(trace) + [index] else old(trace)
      ensures r == if index in handles then Some(handles[index]) else None
      ensures order == if index in handles then Access(old(order), capacity, index) else old(order)
    {
      if index !in handles {
        return None;
      }
      Touch(index);
      return Some(handles[index]);
    }

    /** Every successful access is one `Access` step and extends the trace; a cached handle is returned as it is, and a
        missing file is opened exactly once. */
    method GetOrOpen(index: nat) returns (r: Handle)
      requires Valid()
      modifies this
      ensures Valid() && trace == old(trace) + [index]
      ensures order == Access(old(order), capacity, index)
      ensures r == handles[index] && r.file == index
      ensures index in old(handles) ==> r == old(handles)[index] && opens == old(opens)
      ensures index !in old(handles) ==> r.serial == old(opens) && opens == old(opens) + 1
      ensures forall i :: i in order && i != index ==> i in old(handles) && handles[i] == old(handles)[i]
    {
      hide Access, Recency, LastN, NoDup;
      var cached := Lookup(index);
      if cached.Some? {
        return cached.value;
      }
      r := Handle(index, opens);
      opens := opens + 1;
      Insert(index, r);
    }

    /** Forgetting a handle keeps the cache well formed. */
    method Evict(index: nat)
      requires Valid()
      modifies this
      ensures Valid() && opens == old(opens) && trace == order
      ensures order == Without(old(order), index) && handles == old(handles) - {index}
    {
      Remove(index);
    }
  }
}
