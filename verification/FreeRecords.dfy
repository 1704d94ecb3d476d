/**
 When free(), which goes by the size on record, does what deallocate() does; which blocks have a
 wrong size on record; and what comes of freeing one of those.
 */
module FreeRecords {
  import opened Options
  import opened Allocator
  import opened AllocatorPartition

  // ---- free() ----

  /** The state after free(p) on allocator k, whatever is on record there. */
  function AfterFree(s: State, k: nat, p: nat): (s': State)
    requires k < |s.allocs| && p in s.blocks
  {
    Put(s, k, p, Free(s.allocs[k], p))
  }

  /** The place that free(p) makes. */
  function FreedPlace(s: State, k: nat, p: nat): (place: Place)
    requires k < |s.allocs|
  {
    var n, free := Recorded(s.allocs[k], p), s.allocs[k].free;
    InList(k, n, if n in free then |free[n]| else 0)
  }

  lemma FreedPlaceIsIn(s: State, k: nat, p: nat, b: nat)
    requires k < |s.allocs| && p in s.blocks
    ensures IsIn(AfterFree(s, k, p), b, FreedPlace(s, k, p)) <==> p <= b < p + Recorded(s.allocs[k], p)
  {
  }

  /** The other places are what they were. */
  lemma OtherPlaces(s: State, k: nat, p: nat, b: nat, place: Place)
    requires k < |s.allocs| && p in s.blocks && s.blocks[p].kind == InUse && place != FreedPlace(s, k, p)
    ensures IsIn(AfterFree(s, k, p), b, place) <==> IsIn(s, b, place) && place != InLive(p)
  {
    var free, free' := s.allocs[k].free, AfterFree(s, k, p).allocs[k].free;
    if place.InList? && place.k == k && place.n in free' {
      var n := Recorded(s.allocs[k], p);
      assert forall i :: 0 <= i < |free'[n]| - 1 ==> free'[n][i] == free[n][i];
    }
  }

  lemma NotFreedPlace(s: State, k: nat, p: nat, b: nat)
    requires k < |s.allocs|
    ensures !IsIn(s, b, FreedPlace(s, k, p))
  {
  }

  /** A record that is too small loses the byte after it; one that is too large takes a byte of another place. */
  lemma WrongRecord(s: State, k: nat, p: nat) returns (b: nat)
    requires Inv(s) && k < |s.allocs| && p in s.blocks && s.blocks[p].kind == InUse
    requires Recorded(s.allocs[k], p) != s.blocks[p].size
    ensures var s' := AfterFree(s, k, p);
      if Recorded(s.allocs[k], p) < s.blocks[p].size then b < s'.global.taken && !Placed(s', b)
      else Placed(s', b) && (b < s'.global.taken ==> !PlacedOnce(s', b))
  {
    var s', n, size := AfterFree(s, k, p), Recorded(s.allocs[k], p), s.blocks[p].size;
    assert BlockFits(p, size, |s.bytes|) && Marked(p, size, s.bytes);
    if n < size {
      b := p + n;
      forall place
        ensures !IsIn(s', b, place)
      {
        FreedPlaceIsIn(s, k, p, b);
        if place != FreedPlace(s, k, p) {
          OtherPlaces(s, k, p, b, place);
          OnlyLive(s, p, b, place);
        }
      }
    } else {
      b := p + size;
      FreedPlaceIsIn(s, k, p, b);
      if b < s'.global.taken {
        var place := SomePlace(s, b);
        NotFreedPlace(s, k, p, b);
        OtherPlaces(s, k, p, b, place);
        assert IsIn(s', b, place) && IsIn(s', b, FreedPlace(s, k, p));
      }
    }
  }

  lemma OnlyLive(s: State, p: nat, b: nat, place: Place)
    requires Inv(s) && p in s.blocks && s.blocks[p].kind == InUse && p <= b < p + s.blocks[p].size
    ensures IsIn(s, b, place) ==> place == InLive(p)
  {
    if IsIn(s, b, place) {
      OnePlace(s, b, place, InLive(p));
    }
  }

  /** free() keeps the partition if and only if the size on record, which allocated_space() tells, is the block's. */
  lemma FreeExact(s: State, k: nat, p: nat)
    requires Inv(s) && k < |s.allocs| && p in s.blocks && s.blocks[p].kind == InUse
    ensures Partitioned(AfterFree(s, k, p)) <==> Recorded(s.allocs[k], p) == s.blocks[p].size
  {
    if Recorded(s.allocs[k], p) == s.blocks[p].size {
      PutKeeps(s, k, p, Free(s.allocs[k], p));
      InvPartitioned(AfterFree(s, k, p));
    } else {
      var b := WrongRecord(s, k, p);
    }
  }

  // ---- What is on record ----

  type Cuts = map<nat, Origin>

  /** On record are the blocks allocator k has cut: rests of pools with too large a size, the others with theirs. */
  ghost predicate Records(k: nat, sizes: map<nat, nat>, cuts: Cuts, blocks: Blocks) {
    && (forall p :: p in sizes <==> p in cuts && cuts[p].cutter == k)
    && (forall p :: p in sizes && p in cuts && p in blocks ==> RecordOk(sizes[p], cuts[p].rest, blocks[p].size))
  }

  predicate RecordOk(record: nat, rest: bool, size: nat) {
    if rest then record > size else record == size
  }

  ghost predicate RecordsOk(s: State) {
    && (forall p :: p in s.cuts <==> p in s.blocks)
    && (forall p :: p in s.cuts ==> s.cuts[p].cutter < |s.allocs|)
    && (forall k :: 0 <= k < |s.allocs| ==> Records(k, s.allocs[k].sizes, s.cuts, s.blocks))
  }

  /** A block that is cut goes on record with its allocator ... */
  lemma NewRecord(k: nat, sizes: map<nat, nat>, cuts: Cuts, blocks: Blocks, p: nat, block: Block, record: nat)
    requires Records(k, sizes, cuts, blocks) && p !in cuts && RecordOk(record, block.kind != InUse, block.size)
    ensures Insert(sizes, p, record) == sizes[p := record]
    ensures Records(k, sizes[p := record], cuts[p := Origin(k, block.kind != InUse)], blocks[p := block])
  {
  }

  /** ... and with no other. */
  lemma OtherRecords(j: nat, sizes: map<nat, nat>, cuts: Cuts, blocks: Blocks, p: nat, block: Block, origin: Origin)
    requires Records(j, sizes, cuts, blocks) && p !in cuts && origin.cutter != j
    ensures Records(j, sizes, cuts[p := origin], blocks[p := block])
  {
  }

  lemma CutRecords(s: State, k: nat, size: nat, kind: Kind, a: Alloc, record: nat)
    requires RecordsOk(s) && k < |s.allocs| && Base(s.allocs[k].pool) + s.allocs[k].pool.offset !in s.blocks
    requires a.sizes == Insert(s.allocs[k].sizes, Base(s.allocs[k].pool) + s.allocs[k].pool.offset, record)
    requires if kind == InUse then record == size else record > size
    ensures RecordsOk(Cut(s, k, size, kind, a))
  {
    var s', p := Cut(s, k, size, kind, a), Base(s.allocs[k].pool) + s.allocs[k].pool.offset;
    forall j | 0 <= j < |s'.allocs|
      ensures Records(j, s'.allocs[j].sizes, s'.cuts, s'.blocks)
    {
      if j == k {
        NewRecord(k, s.allocs[k].sizes, s.cuts, s.blocks, p, Block(size, kind), record);
      } else {
        OtherRecords(j, s.allocs[j].sizes, s.cuts, s.blocks, p, Block(size, kind), Origin(k, kind != InUse));
      }
    }
  }

  lemma PoolStartFree(s: State, k: nat)
    requires Inv(s) && k < |s.allocs| && s.allocs[k].pool.offset < s.allocs[k].pool.maxSize
    ensures s.allocs[k].pool.memory.Some? && Base(s.allocs[k].pool) + s.allocs[k].pool.offset !in s.blocks
  {
    var pool := s.allocs[k].pool;
    assert PoolOk(pool, k, s.bytes);
    CutTiles(pool, k, s.blocks, s.bytes, 1, InUse);
  }

  lemma ParkRecords(s: State, k: nat, size: nat)
    requires Inv(s) && RecordsOk(s) && k < |s.allocs| && !Fits(s.allocs[k].pool, size)
    ensures RecordsOk(Park(s, k, size))
  {
    var pool := s.allocs[k].pool;
    if pool.maxSize > pool.offset {
      ParkSomeRecords(s, k, size, pool.maxSize - pool.offset);
      assert Park(s, k, size) == Cut(s, k, pool.maxSize - pool.offset, OnList(k), Parked(s.allocs[k], size));
    } else {
      assert Park(s, k, size) == s;
    }
  }

  lemma ParkSomeRecords(s: State, k: nat, size: nat, avail: nat)
    requires Inv(s) && RecordsOk(s) && k < |s.allocs|
    requires 0 < avail == s.allocs[k].pool.maxSize - s.allocs[k].pool.offset < size
    ensures RecordsOk(Cut(s, k, avail, OnList(k), Parked(s.allocs[k], size)))
  {
    PoolStartFree(s, k);
    CutRecords(s, k, avail, OnList(k), Parked(s.allocs[k], size), size);
  }

  lemma ExtendRecords(s: State, k: nat, size: nat)
    requires RecordsOk(s) && k < |s.allocs|
    ensures RecordsOk(Extend(s, k, size))
  {
    SizesSame(s, Extend(s, k, size));
  }

  lemma NewRecords(s: State, k: nat, n: nat)
    requires Inv(s) && RecordsOk(s) && Enabled(s, New(k, n))
    ensures RecordsOk(Apply(s, New(k, n)))
  {
    var a, size := s.allocs[k], AlignUp(n, Alignment);
    AlignUpLeast(n, Alignment);
    if HasFree(a.free, size) {
      ReuseRecords(s, k, size);
    } else if Fits(a.pool, size) {
      CarveRecords(s, k, size);
    } else {
      GrowRecords(s, k, size);
    }
  }

  lemma ReuseRecords(s: State, k: nat, size: nat)
    requires Inv(s) && RecordsOk(s) && k < |s.allocs| && HasFree(s.allocs[k].free, size)
    ensures RecordsOk(Reuse(s, k, size))
  {
    var p := Top(s.allocs[k].free, size);
    assert p in s.blocks && s.blocks[p].size == size by {
      assert ListsOk(s.allocs[k].free, k, s.blocks);
      PopKeeps(s.allocs[k].free, k, s.blocks, size);
    }
    ReuseSame(s, k, size);
  }

  lemma ReuseSame(s: State, k: nat, size: nat)
    requires RecordsOk(s) && k < |s.allocs| && HasFree(s.allocs[k].free, size)
    requires Top(s.allocs[k].free, size) in s.blocks && s.blocks[Top(s.allocs[k].free, size)].size == size
    ensures RecordsOk(Reuse(s, k, size))
  {
    SizesSame(s, Reuse(s, k, size));
  }

  lemma GrowRecords(s: State, k: nat, size: nat)
    requires Inv(s) && RecordsOk(s) && k < |s.allocs| && size > 0 && !Fits(s.allocs[k].pool, size)
    requires s.global.taken + AlignUp(size, ChunkSize) <= s.global.limit
    ensures RecordsOk(Carve(Extend(Park(s, k, size), k, size), k, size))
  {
    assert PoolOk(s.allocs[k].pool, k, s.bytes);
    ParkKeeps(s, k, size);
    ParkRecords(s, k, size);
    var s1 := Park(s, k, size);
    ExtendKeeps(s1, k, size);
    ExtendRecords(s1, k, size);
    AlignUpLeast(size, ChunkSize);
    CarveRecords(Extend(s1, k, size), k, size);
  }

  lemma CarveRecords(s: State, k: nat, size: nat)
    requires Inv(s) && RecordsOk(s) && k < |s.allocs| && size > 0 && Fits(s.allocs[k].pool, size)
    ensures RecordsOk(Carve(s, k, size))
  {
    PoolStartFree(s, k);
    CutRecords(s, k, size, InUse, Reserved(s.allocs[k], size), size);
  }

  /** Steps that cut nothing and record nothing. */
  lemma SizesSame(s: State, s': State)
    requires RecordsOk(s) && s'.cuts == s.cuts && |s'.allocs| == |s.allocs|
    requires forall p :: p in s'.blocks <==> p in s.blocks
    requires forall p :: p in s.blocks ==> s'.blocks[p].size == s.blocks[p].size
    requires forall k :: 0 <= k < |s.allocs| ==> s'.allocs[k].sizes == s.allocs[k].sizes
    ensures RecordsOk(s')
  {
    forall k | 0 <= k < |s'.allocs|
      ensures Records(k, s'.allocs[k].sizes, s'.cuts, s'.blocks)
    {
      assert Records(k, s.allocs[k].sizes, s.cuts, s.blocks);
    }
  }

  lemma RecordsStep(s: State, l: Label)
    requires Inv(s) && RecordsOk(s) && Enabled(s, l)
    ensures RecordsOk(Apply(s, l))
  {
    match l
    case New(k, n) => NewRecords(s, k, n);
    case Deallocated(k, p, n) => PutRecords(s, k, p, Deallocate(s.allocs[k], p, n));
    case Freed(k, p) =>
      assert BlockFits(p, s.blocks[p].size, |s.bytes|);
      PutRecords(s, k, p, Free(s.allocs[k], p));
  }

  lemma PutRecords(s: State, k: nat, p: nat, a: Alloc)
    requires RecordsOk(s) && k < |s.allocs| && p in s.blocks && a.sizes == s.allocs[k].sizes
    ensures RecordsOk(Put(s, k, p, a))
  {
    SizesSame(s, Put(s, k, p, a));
  }

  lemma {:induction false} RecordsRun(s: State, labels: seq<Label>, s': State)
    requires Inv(s) && RecordsOk(s) && IsRun(s, labels, s')
    ensures Inv(s') && RecordsOk(s')
    decreases |labels|
  {
    if labels != [] {
      InvStep(s, labels[0]);
      RecordsStep(s, labels[0]);
      RecordsRun(Apply(s, labels[0]), labels[1..], s');
    }
  }

  /**
   In every run, free() of a live block keeps the partition if and only if it is called on the
   allocator that cut the block, and that cut it to answer a request, not as the rest of a pool.
   */
  lemma FreeOverRuns(limit: nat, allocators: nat, labels: seq<Label>, s: State, k: nat, p: nat)
    requires IsRun(Initial(limit, allocators), labels, s)
    requires k < |s.allocs| && p in s.blocks && s.blocks[p].kind == InUse
    ensures p in s.cuts && (Partitioned(AfterFree(s, k, p)) <==> s.cuts[p] == Origin(k, false))
  {
    RecordsRun(Initial(limit, allocators), labels, s);
    FreeExact(s, k, p);
    assert Records(k, s.allocs[k].sizes, s.cuts, s.blocks);
    assert BlockFits(p, s.blocks[p].size, |s.bytes|);
  }

  /** The rest of a pool goes on record with the size of the request that did not fit. */
  lemma RestOnRecord(a: Alloc, size: nat, avail: nat, p: nat, b: Alloc)
    requires Usable(a.pool) && a.pool.memory.Some? && p == a.pool.memory.value + a.pool.offset && p !in a.sizes
    requires avail == a.pool.maxSize - a.pool.offset && 0 < avail < size == AlignUp(size, Alignment)
    requires avail !in a.free && size !in a.free
    requires b == Reserved(Grown(Parked(a, size), size, p + avail), size)
    ensures Allocate(a, size, Some(p + avail)) == Given(p + avail, b)
    ensures size !in b.free && avail in b.free && b.free[avail] == [p] && Recorded(b, p) == size
  {
    assert Push(a.free, avail, p)[avail] == [p];
  }

  /** Given out for a request of its own size, and freed, it is then given out for that larger request. */
  lemma RestReused(b: Alloc, size: nat, avail: nat, p: nat, c: Alloc)
    requires Usable(b.pool) && 0 < avail == AlignUp(avail, Alignment) && 0 < size == AlignUp(size, Alignment)
    requires size !in b.free && avail in b.free && b.free[avail] == [p] && Recorded(b, p) == size
    requires c == b.(free := Pop(b.free, avail))
    ensures Allocate(b, avail, None) == Given(p, c)
    ensures Allocate(Free(c, p), size, None) == Given(p, Reused(Free(c, p), size))
  {
    assert Free(c, p).free[size] == [p];
  }

  /**
   When it is not: a rest of `avail` bytes at p, given out and freed, is given out again as `size`
   bytes, which reach into the block that was cut from the next chunk.
   */
  lemma FreedRestOverlaps(a: Alloc, size: nat, avail: nat, p: nat) returns (b: Alloc, c: Alloc, d: Alloc)
    requires Usable(a.pool) && a.pool.memory.Some? && p == a.pool.memory.value + a.pool.offset && p !in a.sizes
    requires avail == a.pool.maxSize - a.pool.offset && 0 < avail < size
    requires avail == AlignUp(avail, Alignment) && size == AlignUp(size, Alignment)
    requires avail !in a.free && size !in a.free
    ensures Allocate(a, size, Some(p + avail)) == Given(p + avail, b)
    ensures Usable(b.pool) && Allocate(b, avail, None) == Given(p, c)
    ensures Usable(c.pool) && Allocate(Free(c, p), size, None) == Given(p, d)
    ensures p < p + avail < p + size
  {
    b := Reserved(Grown(Parked(a, size), size, p + avail), size);
    RestOnRecord(a, size, avail, p, b);
    c := b.(free := Pop(b.free, avail));
    RestReused(b, size, avail, p, c);
    d := Reused(Free(c, p), size);
  }

  /** The first allocation of all: the pool gets its first chunk. */
  lemma FirstAllocation(n: nat, chunk: nat) returns (a: Alloc)
    requires 0 < n == AlignUp(n, Alignment)
    ensures Allocate(EmptyAlloc, n, Some(chunk)) == Given(chunk, a)
    ensures a.pool == Pool(Some(chunk), AlignUp(n, ChunkSize), n) && a.free == map[] && a.sizes.Keys == {chunk}
    ensures Usable(a.pool)
  {
    a := Allocate(EmptyAlloc, n, Some(chunk)).a;
  }

  /** Aligned requests, of which the first leaves a rest of its chunk that is too small for the second. */
  predicate LeavesRest(first: nat, second: nat, rest: nat) {
    && 0 < first == AlignUp(first, Alignment) && 0 < rest == AlignUp(rest, Alignment) < second
    && first + rest == AlignUp(first, ChunkSize) && second == AlignUp(second, Alignment)
  }

  /**
   It happens from the start: a first request that leaves `rest` bytes of its chunk, a second that
   does not fit there, one for the rest, and after free() of that the second again.
   */
  lemma FreedRestFromStart(first: nat, second: nat, rest: nat) returns (a: Alloc, b: Alloc, c: Alloc, d: Alloc)
    requires LeavesRest(first, second, rest)
    ensures Allocate(EmptyAlloc, first, Some(0)) == Given(0, a)
    ensures Usable(a.pool) && Allocate(a, second, Some(first + rest)) == Given(first + rest, b)
    ensures Usable(b.pool) && Allocate(b, rest, None) == Given(first, c)
    ensures Usable(c.pool) && Allocate(Free(c, first), second, None) == Given(first, d)
    ensures first < first + rest < first + second
  {
    a := FirstAllocation(first, 0);
    b, c, d := FreedRestOverlaps(a, second, rest, first);
  }

  /** With chunks of 4096 bytes: requests of 4080, 32 and 16 bytes, free() of the last, and 32 again. */
  lemma FreedRestExample(first: nat, second: nat, rest: nat) returns (a: Alloc, b: Alloc, c: Alloc, d: Alloc)
    requires first == 4080 && second == 32 && rest == 16
    ensures Allocate(EmptyAlloc, first, Some(0)) == Given(0, a)
    ensures Allocate(a, second, Some(4096)) == Given(4096, b)
    ensures Allocate(b, rest, None) == Given(first, c) && Allocate(Free(c, first), second, None) == Given(first, d)
    ensures first < 4096 < first + second
  {
    AlignUpExact(first, Alignment);
    AlignUpExact(second, Alignment);
    AlignUpExact(rest, Alignment);
    OneChunk(first);
    a, b, c, d := FreedRestFromStart(first, second, rest);
  }
}
