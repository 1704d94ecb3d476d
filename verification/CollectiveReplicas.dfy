/**
 The collective allocator: every node has a copy, all nodes make the same calls in the same order,
 each at its own pace, and only node 0 takes chunks from the global pool. The others hear of them
 by a broadcast.
 */
module CollectiveReplicas {
  import opened Options
  import opened Allocator
  import opened Sequences

  /** A call; blocks are named by the number of the allocation that returned them. */
  datatype Call = New(n: nat) | Delete(i: nat, n: nat) | FreeOf(i: nat)

  /** A copy of the allocator, what its allocations have returned, and how often its pool has grown. */
  datatype Replica = Replica(a: Alloc, results: seq<Option<nat>>, growths: nat)

  const Fresh := Replica(EmptyAlloc, [], 0)

  /** Allocation i has returned a block. */
  predicate Returned(s: Replica, i: nat) {
    i < |s.results| && s.results[i].Some?
  }

  /** One call on one node; `chunks(j)` is what node 0 gets for the j-th growth. */
  function Step(isZero: bool, s: Replica, c: Call, chunks: nat -> Option<nat>): (s': Replica) {
    match c
    case New(n) =>
      var r := AllocateOn(isZero, s.a, n, chunks(s.growths));
      Replica(r.a, s.results + [if r.Given? then Some(r.p) else None], s.growths + if NeedsChunk(s.a, n) then 1 else 0)
    case Delete(i, n) => if Returned(s, i) then s.(a := Deallocate(s.a, s.results[i].value, n)) else s
    case FreeOf(i) => if Returned(s, i) then s.(a := Free(s.a, s.results[i].value)) else s
  }

  function Run(isZero: bool, s: Replica, calls: seq<Call>, chunks: nat -> Option<nat>): (s': Replica) {
    if calls == [] then s
    else Step(isZero, Run(isZero, s, calls[..|calls| - 1], chunks), calls[|calls| - 1], chunks)
  }

  /** Some allocation has thrown bad_alloc. */
  predicate Failed(s: Replica) {
    None in s.results
  }

  /** Unless it fails, a growth leaves no trace of which node took the chunk. */
  lemma CopyIsAllocate(isZero: bool, a: Alloc, n: nat, chunk: Option<nat>)
    ensures !NeedsChunk(a, n) || chunk.Some? ==> AllocateOn(isZero, a, n, chunk) == Allocate(a, n, chunk)
  {
  }

  lemma StepAgrees(s: Replica, c: Call, chunks: nat -> Option<nat>)
    requires !Failed(s)
    ensures Failed(Step(true, s, c, chunks)) <==> Failed(Step(false, s, c, chunks))
    ensures !Failed(Step(true, s, c, chunks)) ==> Step(true, s, c, chunks) == Step(false, s, c, chunks)
  {
    if c.New? {
      CopyIsAllocate(false, s.a, c.n, chunks(s.growths));
    }
  }

  /** On every node, the next allocation of n bytes returns the block that was deleted with that size. */
  lemma DeletedComesBack(isZero: bool, s: Replica, i: nat, n: nat, chunks: nat -> Option<nat>)
    requires Returned(s, i)
    ensures var s' := Step(isZero, Step(isZero, s, Delete(i, n), chunks), New(n), chunks);
      s'.results == s.results + [s.results[i]] && s'.growths == s.growths && s'.a.pool == s.a.pool
  {
    LastBackFirst(isZero, s.a, s.results[i].value, n, chunks(s.growths));
  }

  /** Or freed, if its size is on record. */
  lemma FreedComesBack(isZero: bool, s: Replica, i: nat, n: nat, chunks: nat -> Option<nat>)
    requires Returned(s, i) && s.results[i].value in s.a.sizes
    requires s.a.sizes[s.results[i].value] == AlignUp(n, Alignment)
    ensures var s' := Step(isZero, Step(isZero, s, FreeOf(i), chunks), New(n), chunks);
      s'.results == s.results + [s.results[i]] && s'.growths == s.growths && s'.a.pool == s.a.pool
  {
    LastFreedFirst(isZero, s.a, s.results[i].value, n, chunks(s.growths));
    LastBackFirst(isZero, s.a, s.results[i].value, n, chunks(s.growths));
  }

  lemma StepGrows(isZero: bool, s: Replica, c: Call, chunks: nat -> Option<nat>)
    ensures s.results <= Step(isZero, s, c, chunks).results
    ensures s.growths <= Step(isZero, s, c, chunks).growths
    ensures Failed(s) ==> Failed(Step(isZero, s, c, chunks))
  {
  }

  /**
   For every sequence of calls and whatever node 0 gets from the global pool, all copies return the
   same pointers and grow at the same calls, or fail at the same call.
   */
  lemma {:induction false} ReplicasAgree(s: Replica, calls: seq<Call>, chunks: nat -> Option<nat>)
    requires !Failed(s)
    ensures Failed(Run(true, s, calls, chunks)) <==> Failed(Run(false, s, calls, chunks))
    ensures !Failed(Run(true, s, calls, chunks)) ==> Run(true, s, calls, chunks) == Run(false, s, calls, chunks)
  {
    if calls != [] {
      var before, c := calls[..|calls| - 1], calls[|calls| - 1];
      ReplicasAgree(s, before, chunks);
      var x, y := Run(true, s, before, chunks), Run(false, s, before, chunks);
      if Failed(x) {
        StepGrows(true, x, c, chunks);
        StepGrows(false, y, c, chunks);
      } else {
        StepAgrees(x, c, chunks);
      }
    }
  }

  // ---- After a failure ----

  /** A growth that fails parts the copies, unless there has been none before: the others keep their old memory. */
  lemma FailureParts(s: Replica, n: nat, chunks: nat -> Option<nat>)
    requires NeedsChunk(s.a, n) && chunks(s.growths) == None
    ensures var x, y := Step(true, s, New(n), chunks), Step(false, s, New(n), chunks);
      && x.results == y.results == s.results + [None]
      && (x == y <==> s.a.pool.memory == None)
  {
  }

  /** One chunk and no more. */
  function OneChunkAt(c: nat): (chunks: nat -> Option<nat>) {
    (j: nat) => if j == 0 then Some(c) else None
  }

  /** A small request, a large one that does not fit behind it, and the small one again. */
  ghost predicate Pair(small: nat, large: nat) {
    && 0 < small == AlignUp(small, Alignment) <= large == AlignUp(large, Alignment)
    && AlignUp(small, ChunkSize) < small + large && AlignUp(small, ChunkSize) != 2 * small
  }

  lemma SmallRequest(isZero: bool, small: nat, c: nat)
    requires 0 < small == AlignUp(small, Alignment)
    ensures Step(isZero, Fresh, New(small), OneChunkAt(c)) ==
      Replica(Alloc(Pool(Some(c), AlignUp(small, ChunkSize), small), map[], map[c := small]), [Some(c)], 1)
  {
    AlignUpLeast(small, ChunkSize);
  }

  /** `room` is the size of the chunk that the small request has taken. */
  lemma LargeRequest(isZero: bool, s: Replica, small: nat, large: nat, room: nat, c: nat)
    requires large == AlignUp(large, Alignment) && small <= room < small + large
    requires s.growths == 1 && s.results == [Some(c)]
    requires s.a == Alloc(Pool(Some(c), room, small), map[], map[c := small])
    ensures var t := Step(isZero, s, New(large), OneChunkAt(c));
      && t.results == [Some(c), None]
      && t.a.pool == Pool(if isZero then None else Some(c), AlignUp(large, ChunkSize), 0)
      && t.a.free.Keys <= {room - small}
  {
    assert !Fits(s.a.pool, large) && !HasFree(s.a.free, large);
    assert OneChunkAt(c)(1) == None;
    var parked := Parked(s.a, large);
    assert AllocateOn(isZero, s.a, large, None).a.free == parked.free;
  }

  lemma SmallAgain(isZero: bool, s: Replica, small: nat, room: nat, size: nat, c: nat)
    requires small == AlignUp(small, Alignment) <= size && room != 2 * small && small <= room
    requires s.results == [Some(c), None]
    requires s.a.pool == Pool(if isZero then None else Some(c), size, 0) && s.a.free.Keys <= {room - small}
    ensures Step(isZero, s, New(small), OneChunkAt(c)).results == [Some(c), None, Some(if isZero then 0 else c)]
  {
    assert !HasFree(s.a.free, small) && Fits(s.a.pool, small);
  }

  lemma RunOfThree(isZero: bool, x: Call, y: Call, z: Call, chunks: nat -> Option<nat>)
    ensures Run(isZero, Fresh, [x, y, z], chunks) ==
      Step(isZero, Step(isZero, Step(isZero, Fresh, x, chunks), y, chunks), z, chunks)
  {
    assert [x, y, z][..2] == [x, y] && [x, y][..1] == [x] && [x][..0] == [];
    assert Run(isZero, Fresh, [x], chunks) == Step(isZero, Fresh, x, chunks);
    assert Run(isZero, Fresh, [x, y], chunks) == Step(isZero, Step(isZero, Fresh, x, chunks), y, chunks);
  }

  /**
   From the start: after the large request has failed, the small one gets a null pointer on node 0,
   and on every other node the block that it got the first time.
   */
  lemma CopiesDiverge(isZero: bool, small: nat, large: nat, c: nat)
    requires Pair(small, large)
    ensures Run(isZero, Fresh, [New(small), New(large), New(small)], OneChunkAt(c)).results ==
      [Some(c), None, Some(if isZero then 0 else c)]
  {
    RunOfThree(isZero, New(small), New(large), New(small), OneChunkAt(c));
    AlignUpLeast(small, ChunkSize);
    AlignUpLeast(large, ChunkSize);
    ThreeSteps(isZero, small, large, AlignUp(small, ChunkSize), AlignUp(large, ChunkSize), c);
  }

  lemma ThreeSteps(isZero: bool, small: nat, large: nat, room: nat, size: nat, c: nat)
    requires small == AlignUp(small, Alignment) && large == AlignUp(large, Alignment) && 0 < small <= room
    requires room == AlignUp(small, ChunkSize) && size == AlignUp(large, ChunkSize)
    requires room < small + large && room != 2 * small && small <= size
    ensures var s1 := Step(isZero, Fresh, New(small), OneChunkAt(c));
      var s2 := Step(isZero, s1, New(large), OneChunkAt(c));
      Step(isZero, s2, New(small), OneChunkAt(c)).results == [Some(c), None, Some(if isZero then 0 else c)]
  {
    var s1 := Step(isZero, Fresh, New(small), OneChunkAt(c));
    SmallRequest(isZero, small, c);
    LargeRequest(isZero, s1, small, large, room, c);
    SmallAgain(isZero, Step(isZero, s1, New(large), OneChunkAt(c)), small, room, size, c);
  }

  /** An aligned request within a chunk but not half of it, and an aligned one of a chunk or more. */
  lemma PairHolds(small: nat, large: nat)
    requires 0 < small <= ChunkSize <= large && small % Alignment == 0 && large % Alignment == 0
    requires 2 * small != ChunkSize
    ensures Pair(small, large)
  {
    AlignUpExact(small, Alignment);
    AlignUpExact(large, Alignment);
    OneChunk(small);
  }

  /** So the copies differ after all such requests, ... */
  lemma CopiesDiffer(small: nat, large: nat, c: nat)
    requires 0 < small <= ChunkSize <= large && small % Alignment == 0 && large % Alignment == 0
    requires 2 * small != ChunkSize && c > 0
    ensures Run(true, Fresh, [New(small), New(large), New(small)], OneChunkAt(c)) !=
            Run(false, Fresh, [New(small), New(large), New(small)], OneChunkAt(c))
  {
    PairHolds(small, large);
    CopiesDiverge(true, small, large, c);
    CopiesDiverge(false, small, large, c);
    assert [Some(c), None, Some(0)][2] != [Some(c), None, Some(c)][2];
  }

  /** ... for example of 16 and 8192 bytes. */
  lemma CopiesDifferExample(small: nat, large: nat, c: nat)
    requires small == 16 && large == 8192 && c > 0
    ensures Run(true, Fresh, [New(small), New(large), New(small)], OneChunkAt(c)) !=
            Run(false, Fresh, [New(small), New(large), New(small)], OneChunkAt(c))
  {
    CopiesDiffer(small, large, c);
  }

  // ---- Nodes at their own pace ----

  /** Where a node is in the calls, and its copy. */
  datatype Local = Local(pos: nat, copy: Replica)

  /** Node r must wait for the value that node 0 sends at the growth it has come to. */
  predicate Waits(m: seq<Local>, calls: seq<Call>, r: nat)
    requires r < |m| && m[r].pos < |calls|
  {
    var c := calls[m[r].pos];
    r != 0 && c.New? && NeedsChunk(m[r].copy.a, c.n) && m[r].copy.growths >= m[0].copy.growths
  }

  predicate Enabled(m: seq<Local>, calls: seq<Call>, r: nat) {
    r < |m| && m[r].pos < |calls| && !Waits(m, calls, r)
  }

  function Advance(m: seq<Local>, calls: seq<Call>, chunks: nat -> Option<nat>, r: nat): (m': seq<Local>)
    requires Enabled(m, calls, r)
  {
    m[r := Local(m[r].pos + 1, Step(r == 0, m[r].copy, calls[m[r].pos], chunks))]
  }

  ghost predicate IsRun(m: seq<Local>, calls: seq<Call>, chunks: nat -> Option<nat>, order: seq<nat>, m': seq<Local>)
    decreases |order|
  {
    if order == [] then m' == m
    else Enabled(m, calls, order[0]) && IsRun(Advance(m, calls, chunks, order[0]), calls, chunks, order[1..], m')
  }

  /** Every copy is what the calls made so far make of it. */
  ghost predicate OnTrack(m: seq<Local>, calls: seq<Call>, chunks: nat -> Option<nat>) {
    forall r :: 0 <= r < |m| ==>
      m[r].pos <= |calls| && m[r].copy == Run(r == 0, Fresh, calls[..m[r].pos], chunks)
  }

  lemma AdvanceKeeps(m: seq<Local>, calls: seq<Call>, chunks: nat -> Option<nat>, r: nat)
    requires OnTrack(m, calls, chunks) && Enabled(m, calls, r)
    ensures OnTrack(Advance(m, calls, chunks, r), calls, chunks)
  {
    var i := m[r].pos;
    assert calls[..i + 1][..i] == calls[..i] && calls[..i + 1][i] == calls[i];
  }

  lemma {:induction false} RunKeeps(m: seq<Local>, calls: seq<Call>, chunks: nat -> Option<nat>, order: seq<nat>,
                                    m': seq<Local>)
    requires OnTrack(m, calls, chunks) && IsRun(m, calls, chunks, order, m')
    ensures OnTrack(m', calls, chunks) && |m'| == |m|
    decreases |order|
  {
    if order != [] {
      AdvanceKeeps(m, calls, chunks, order[0]);
      RunKeeps(Advance(m, calls, chunks, order[0]), calls, chunks, order[1..], m');
    }
  }

  function Start(nodes: nat): (m: seq<Local>) {
    seq(nodes, _ => Local(0, Fresh))
  }

  lemma RunLast(isZero: bool, calls: seq<Call>, chunks: nat -> Option<nat>, j: nat)
    requires 0 < j <= |calls|
    ensures Run(isZero, Fresh, calls[..j], chunks) ==
      Step(isZero, Run(isZero, Fresh, calls[..j - 1], chunks), calls[j - 1], chunks)
  {
    assert calls[..j][..j - 1] == calls[..j - 1];
  }

  ghost predicate Grows(x: Replica, y: Replica) {
    x.results <= y.results && x.growths <= y.growths && (Failed(x) ==> Failed(y))
  }

  lemma {:induction false} PrefixGrows(isZero: bool, calls: seq<Call>, chunks: nat -> Option<nat>, i: nat, j: nat)
    requires i <= j <= |calls|
    ensures Grows(Run(isZero, Fresh, calls[..i], chunks), Run(isZero, Fresh, calls[..j], chunks))
    decreases j - i
  {
    if i < j {
      var x, y := Run(isZero, Fresh, calls[..i], chunks), Run(isZero, Fresh, calls[..j - 1], chunks);
      PrefixGrows(isZero, calls, chunks, i, j - 1);
      RunLast(isZero, calls, chunks, j);
      StepGrows(isZero, y, calls[j - 1], chunks);
      GrowsOn(x, y, Step(isZero, y, calls[j - 1], chunks));
    }
  }

  lemma GrowsOn(x: Replica, y: Replica, z: Replica)
    requires Grows(x, y) && Grows(y, z)
    ensures Grows(x, z)
  {
  }

  /** However the nodes interleave, two that have made the same calls have the same copy, if no call has failed. */
  lemma PacesAgree(nodes: nat, calls: seq<Call>, chunks: nat -> Option<nat>, order: seq<nat>, m: seq<Local>,
                   r: nat, q: nat)
    requires IsRun(Start(nodes), calls, chunks, order, m) && r < |m| && q < |m| && m[r].pos <= m[q].pos
    ensures !Failed(m[q].copy) ==> m[r].copy.results <= m[q].copy.results
    ensures !Failed(m[q].copy) && m[r].pos == m[q].pos ==> m[r].copy == m[q].copy
  {
    RunKeeps(Start(nodes), calls, chunks, order, m);
    ReplicasAgree(Fresh, calls[..m[r].pos], chunks);
    ReplicasAgree(Fresh, calls[..m[q].pos], chunks);
    PrefixGrows(q == 0, calls, chunks, m[r].pos, m[q].pos);
  }

  /** Nobody waits for ever: a node that must wait is not behind node 0, which never waits. */
  lemma NoDeadlock(nodes: nat, calls: seq<Call>, chunks: nat -> Option<nat>, order: seq<nat>, m: seq<Local>, r: nat)
    requires IsRun(Start(nodes), calls, chunks, order, m) && r < |m| && m[r].pos < |calls| && Waits(m, calls, r)
    requires !Failed(Run(true, Fresh, calls, chunks))
    ensures Enabled(m, calls, 0)
  {
    RunKeeps(Start(nodes), calls, chunks, order, m);
    var i, j := m[r].pos, m[0].pos;
    if i < j {
      PrefixGrows(true, calls, chunks, i, |calls|);
      assert calls[..|calls|] == calls;
      ReplicasAgree(Fresh, calls[..i], chunks);
      assert calls[..i + 1][..i] == calls[..i] && calls[..i + 1][i] == calls[i];
      PrefixGrows(true, calls, chunks, i + 1, j);
    }
  }

  lemma {:induction false} RunMore(m0: seq<Local>, calls: seq<Call>, chunks: nat -> Option<nat>, order: seq<nat>,
                                   m: seq<Local>, r: nat)
    requires IsRun(m0, calls, chunks, order, m) && Enabled(m, calls, r)
    ensures IsRun(m0, calls, chunks, order + [r], Advance(m, calls, chunks, r))
    decreases |order|
  {
    if order == [] {
      assert order + [r] == [r] && [r][1..] == [];
    } else {
      RunMore(Advance(m0, calls, chunks, order[0]), calls, chunks, order[1..], m, r);
      AppendTail(order, [r]);
    }
  }

  /** Node 0, or a node that finds node 0 done, makes all its calls. */
  lemma {:induction false} NodeFinishes(nodes: nat, calls: seq<Call>, chunks: nat -> Option<nat>, order: seq<nat>,
                                        m: seq<Local>, r: nat)
    returns (order': seq<nat>, m': seq<Local>)
    requires IsRun(Start(nodes), calls, chunks, order, m) && !Failed(Run(true, Fresh, calls, chunks))
    requires r < |m| && m[r].pos <= |calls| && (r == 0 || m[0].pos == |calls|)
    ensures IsRun(Start(nodes), calls, chunks, order', m') && order <= order' && |m'| == |m|
    ensures m'[r].pos == |calls| && forall q :: 0 <= q < |m| && q != r ==> m'[q] == m[q]
    decreases |calls| - m[r].pos
  {
    if m[r].pos == |calls| {
      order', m' := order, m;
    } else {
      if Waits(m, calls, r) {
        NoDeadlock(nodes, calls, chunks, order, m, r);
      }
      RunMore(Start(nodes), calls, chunks, order, m, r);
      order', m' := NodeFinishes(nodes, calls, chunks, order + [r], Advance(m, calls, chunks, r), r);
    }
  }

  lemma {:induction false} NodesFinish(nodes: nat, calls: seq<Call>, chunks: nat -> Option<nat>, order: seq<nat>,
                                       m: seq<Local>, n: nat)
    returns (order': seq<nat>, m': seq<Local>)
    requires IsRun(Start(nodes), calls, chunks, order, m) && !Failed(Run(true, Fresh, calls, chunks)) && n <= |m|
    requires forall r :: 0 <= r < |m| ==> m[r].pos <= |calls|
    requires forall r :: 0 <= r < n ==> m[r].pos == |calls|
    ensures IsRun(Start(nodes), calls, chunks, order', m') && order <= order' && |m'| == |m|
    ensures forall r :: 0 <= r < |m| ==> m'[r].pos == |calls|
    decreases |m| - n
  {
    if n == |m| {
      order', m' := order, m;
    } else {
      var o, u := NodeFinishes(nodes, calls, chunks, order, m, n);
      order', m' := NodesFinish(nodes, calls, chunks, o, u, n + 1);
    }
  }

  /** However far the nodes have come, they can all make all their calls, if none of these fails. */
  lemma AllFinish(nodes: nat, calls: seq<Call>, chunks: nat -> Option<nat>, order: seq<nat>, m: seq<Local>)
    returns (order': seq<nat>, m': seq<Local>)
    requires IsRun(Start(nodes), calls, chunks, order, m) && !Failed(Run(true, Fresh, calls, chunks))
    ensures IsRun(Start(nodes), calls, chunks, order', m') && order <= order' && |m'| == nodes
    ensures forall r :: 0 <= r < nodes ==> m'[r].pos == |calls| && m'[r].copy == Run(r == 0, Fresh, calls, chunks)
  {
    RunKeeps(Start(nodes), calls, chunks, order, m);
    order', m' := NodesFinish(nodes, calls, chunks, order, m, 0);
    RunKeeps(Start(nodes), calls, chunks, order', m');
    assert calls[..|calls|] == calls;
  }
}
