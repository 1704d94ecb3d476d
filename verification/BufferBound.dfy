/**
 The write buffer over whole runs of cache operations: it stays within its maximum exactly when
 a full buffer writes something back before it takes another slot.
 */
module BufferBound {
  import opened NodeCache
  import opened Sequences

  datatype Limits = Limits(max: nat, writeBack: nat, size: nat)

  datatype Op =
    | AddDirty(i: nat)
    | LoadPage(p: nat)
    | Flush
    | SelfInvalidate(keep: set<nat>)

  ghost predicate CanDo(l: Limits, s: CacheState, o: Op) {
    && Agreed(s, l.size) && l.writeBack <= l.max
    && match o
       case AddDirty(i) => i < |s.slots| && s.slots[i].valid && !s.slots[i].dirty
       case LoadPage(p) => p < |s.home| && CopyIn(s.slots, p).Absent?
       case _ => true
  }

  ghost function Do(l: Limits, s: CacheState, o: Op): (t: CacheState)
    requires CanDo(l, s, o)
  {
    match o
    case AddDirty(i) =>
      var room := MakeRoom(s, l.max, l.writeBack, l.size);
      StaysClean(l, s, i);
      MarkDirty(room, i)
    case LoadPage(p) => LoadOne(s, p, l.size)
    case Flush => FlushFront(s, |s.buffer|, l.size)
    case SelfInvalidate(keep) => SelfInvalidated(s, keep, l.size)
  }

  /** A clean slot is still clean, and mapped, when room has been made. */
  lemma StaysClean(l: Limits, s: CacheState, i: nat)
    requires Agreed(s, l.size) && l.writeBack <= l.max && i < |s.slots| && s.slots[i].valid && !s.slots[i].dirty
    ensures var room := MakeRoom(s, l.max, l.writeBack, l.size);
      && Agreed(room, l.size) && |room.slots| == |s.slots| && room.slots[i].valid && !room.slots[i].dirty
      && room.slots[i].tag.Mapped? && room.slots[i].tag.page < |room.prot|
  {
    var room := MakeRoom(s, l.max, l.writeBack, l.size);
    MakeRoomWrites(s, l.max, l.writeBack, l.size);
    assert SlotOk(room.slots[i], i, |room.slots|, |room.home|, l.size);
    assert room.slots[i].(dirty := s.slots[i].dirty) == s.slots[i];
  }

  lemma DoKeeps(l: Limits, s: CacheState, o: Op)
    requires CanDo(l, s, o)
    ensures Agreed(Do(l, s, o), l.size)
    ensures l.writeBack > 0 && |s.buffer| <= l.max ==> |Do(l, s, o).buffer| <= l.max
  {
    match o
    case AddDirty(i) =>
      StaysClean(l, s, i);
      MarkDirtyKeeps(MakeRoom(s, l.max, l.writeBack, l.size), i, l.size);
      MakeRoomWrites(s, l.max, l.writeBack, l.size);
    case LoadPage(p) => LoadOneOnlyFor(s, p, l.size);
    case Flush =>
    case SelfInvalidate(keep) => SelfInvalidationWrites(s, keep, l.size);
  }

  ghost predicate IsRun(l: Limits, s: CacheState, ops: seq<Op>, t: CacheState)
    decreases |ops|
  {
    if ops == [] then t == s
    else CanDo(l, s, ops[0]) && IsRun(l, Do(l, s, ops[0]), ops[1..], t)
  }

  lemma {:induction false} StaysWithin(l: Limits, s: CacheState, ops: seq<Op>, t: CacheState)
    requires Agreed(s, l.size) && l.writeBack > 0 && |s.buffer| <= l.max && IsRun(l, s, ops, t)
    ensures Agreed(t, l.size) && |t.buffer| <= l.max
    decreases |ops|
  {
    if ops != [] {
      DoKeeps(l, s, ops[0]);
      StaysWithin(l, Do(l, s, ops[0]), ops[1..], t);
    }
  }

  /** Clean slots, each once. */
  ghost predicate CleanSlots(s: CacheState, clean: seq<nat>) {
    && NoDuplicates(clean)
    && forall k :: 0 <= k < |clean| ==> clean[k] < |s.slots| && s.slots[clean[k]].valid && !s.slots[clean[k]].dirty
  }

  /** If nothing is ever written back to make room, each slot that becomes dirty adds to the buffer. */
  lemma {:induction false} GrowsByEach(l: Limits, s: CacheState, clean: seq<nat>) returns (ops: seq<Op>, t: CacheState)
    requires Agreed(s, l.size) && l.writeBack == 0 && CleanSlots(s, clean)
    ensures IsRun(l, s, ops, t) && |t.buffer| == |s.buffer| + |clean|
    decreases |clean|
  {
    if clean == [] {
      ops, t := [], s;
    } else {
      var o := AddDirty(clean[0]);
      var s' := Do(l, s, o);
      DoKeeps(l, s, o);
      TailDistinct(clean);
      assert forall k :: 0 <= k < |clean[1..]| ==> clean[1..][k] == clean[k + 1];
      var rest;
      rest, t := GrowsByEach(l, s', clean[1..]);
      ops := [o] + rest;
      assert ops[1..] == rest;
    }
  }

  /** No run of operations makes the buffer exceed its maximum. */
  ghost predicate AlwaysWithin(l: Limits, s: CacheState) {
    forall ops, t :: IsRun(l, s, ops, t) ==> |t.buffer| <= l.max
  }

  lemma Bounded(l: Limits, s: CacheState)
    requires Agreed(s, l.size) && l.writeBack > 0 && |s.buffer| <= l.max
    ensures AlwaysWithin(l, s)
  {
    forall ops, t | IsRun(l, s, ops, t)
      ensures |t.buffer| <= l.max
    {
      StaysWithin(l, s, ops, t);
    }
  }

  lemma Exceeded(l: Limits, s: CacheState, ops: seq<Op>, t: CacheState)
    requires IsRun(l, s, ops, t) && |t.buffer| > l.max
    ensures !AlwaysWithin(l, s)
  {
  }

  /**
   Take any cache whose buffer is within its maximum while enough other slots are valid and clean to
   exceed it. Every run of operations keeps it within if and only if the write-back size is positive.
   */
  lemma BufferBound(l: Limits, s: CacheState, clean: seq<nat>)
    requires Agreed(s, l.size) && l.writeBack <= l.max && |s.buffer| <= l.max
    requires CleanSlots(s, clean) && |s.buffer| + |clean| > l.max
    ensures AlwaysWithin(l, s) <==> l.writeBack > 0
  {
    if l.writeBack > 0 {
      Bounded(l, s);
    } else {
      var ops, t := GrowsByEach(l, s, clean);
      Exceeded(l, s, ops, t);
    }
  }

  // ----- from a fresh cache -----

  /** The slots below n hold pages and are clean; nothing else has happened. */
  ghost predicate Filled(s: CacheState, n: nat) {
    && s.buffer == []
    && (forall i :: 0 <= i < |s.slots| ==> !s.slots[i].dirty && (s.slots[i].valid <==> i < n))
  }

  /** Loading page n into the slot with its number. */
  lemma FillNext(l: Limits, s: CacheState, n: nat)
    requires Agreed(s, l.size) && l.writeBack <= l.max && Filled(s, n) && n < |s.slots| && n < |s.home|
    ensures CanDo(l, s, LoadPage(n))
    ensures var t := Do(l, s, LoadPage(n));
      Agreed(t, l.size) && |t.slots| == |s.slots| && |t.home| == |s.home| && Filled(t, n + 1)
  {
    assert n % |s.slots| == n;
    DoKeeps(l, s, LoadPage(n));
  }

  lemma {:induction false} FillsCache(l: Limits, s: CacheState, n: nat) returns (ops: seq<Op>, t: CacheState)
    requires Agreed(s, l.size) && l.writeBack <= l.max && Filled(s, n) && n <= |s.slots| <= |s.home|
    ensures IsRun(l, s, ops, t) && Agreed(t, l.size) && |t.slots| == |s.slots| && Filled(t, |s.slots|)
    decreases |s.slots| - n
  {
    if n == |s.slots| {
      ops, t := [], s;
    } else {
      FillNext(l, s, n);
      var rest;
      rest, t := FillsCache(l, Do(l, s, LoadPage(n)), n + 1);
      ops := [LoadPage(n)] + rest;
      assert ops[1..] == rest;
    }
  }

  lemma {:induction false} RunsConcatenate(l: Limits, s: CacheState, a: seq<Op>, t: CacheState, b: seq<Op>,
                                           u: CacheState)
    requires IsRun(l, s, a, t) && IsRun(l, t, b, u)
    ensures IsRun(l, s, a + b, u)
    decreases |a|
  {
    if a == [] {
      assert a + b == b;
    } else {
      RunsConcatenate(l, Do(l, s, a[0]), a[1..], t, b, u);
      AppendTail(a, b);
    }
  }

  /** The slots 0 to n - 1. */
  ghost function AllSlots(n: nat): (r: seq<nat>)
    ensures |r| == n && forall i :: 0 <= i < n ==> r[i] == i
  {
    seq(n, i => i)
  }

  /**
   A fresh cache with more slots than the buffer may list: every run stays within the maximum if and
   only if the write-back size is positive.
   */
  lemma FreshBound(l: Limits, s: CacheState)
    requires Agreed(s, l.size) && l.writeBack <= l.max && Filled(s, 0) && l.max < |s.slots| <= |s.home|
    ensures AlwaysWithin(l, s) <==> l.writeBack > 0
  {
    if l.writeBack > 0 {
      Bounded(l, s);
    } else {
      var loads, t := FillsCache(l, s, 0);
      var adds, u := GrowsByEach(l, t, AllSlots(|t.slots|));
      RunsConcatenate(l, s, loads, t, adds, u);
      Exceeded(l, s, loads + adds, u);
    }
  }
}
