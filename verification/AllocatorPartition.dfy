/**
 All allocators that share the global pool: the dynamic allocator of each node, and the
 collective one, which acts as one allocator although every node has a copy of it (module
 `CollectiveReplicas`). In every run, up to the first growth that fails, each byte taken from the
 global pool is in exactly one place.

 `blocks`, `bytes` and `cuts` are not part of the program: the blocks that have been cut from the
 pools, for each byte the block or the pool it belongs to, and for each block which allocator cut
 it, and whether as the rest of a pool.
 */
module AllocatorPartition {
  import opened Options
  import opened Allocator

  datatype Kind = InUse | OnList(k: nat)

  datatype Block = Block(size: nat, kind: Kind)

  type Blocks = map<nat, Block>

  datatype Tag = InBlock(p: nat) | Spare(k: nat)

  datatype Origin = Origin(cutter: nat, rest: bool)

  datatype State = State(
    global: Global,
    allocs: seq<Alloc>,
    blocks: Blocks,
    bytes: seq<Tag>,
    cuts: map<nat, Origin>)

  datatype Label =
    | New(k: nat, n: nat)
    | Deallocated(k: nat, p: nat, n: nat)
    | Freed(k: nat, p: nat)

  function Mark(bytes: seq<Tag>, p: nat, size: nat): (r: seq<Tag>)
    ensures |r| == |bytes|
  {
    seq(|bytes|, b requires 0 <= b < |bytes| => if p <= b < p + size then InBlock(p) else bytes[b])
  }

  // ---- The steps of one allocate() ----

  function Reuse(s: State, k: nat, size: nat): (s': State)
    requires k < |s.allocs| && HasFree(s.allocs[k].free, size)
  {
    var a := s.allocs[k];
    s.(allocs := s.allocs[k := Reused(a, size)], blocks := s.blocks[Top(a.free, size) := Block(size, InUse)])
  }

  /** `size` bytes cut off allocator k's pool become a block; the allocator becomes a. */
  function Cut(s: State, k: nat, size: nat, kind: Kind, a: Alloc): (s': State)
    requires k < |s.allocs|
  {
    var p := Base(s.allocs[k].pool) + s.allocs[k].pool.offset;
    State(s.global, s.allocs[k := a], s.blocks[p := Block(size, kind)], Mark(s.bytes, p, size),
          s.cuts[p := Origin(k, kind != InUse)])
  }

  function Carve(s: State, k: nat, size: nat): (s': State)
    requires k < |s.allocs|
  {
    Cut(s, k, size, InUse, Reserved(s.allocs[k], size))
  }

  function Park(s: State, k: nat, size: nat): (s': State)
    requires k < |s.allocs|
  {
    var pool := s.allocs[k].pool;
    if pool.maxSize > pool.offset then
      Cut(s, k, pool.maxSize - pool.offset, OnList(k), Parked(s.allocs[k], size))
    else s
  }

  function Extend(s: State, k: nat, size: nat): (s': State)
    requires k < |s.allocs|
  {
    var chunk := AlignUp(size, ChunkSize);
    State(GlobalReserve(s.global, chunk).1, s.allocs[k := Grown(s.allocs[k], size, s.global.taken)],
          s.blocks, s.bytes + seq(chunk, _ => Spare(k)), s.cuts)
  }

  /** No growth fails, a deallocation names a block in use by its size, and free() knows the size. */
  predicate Enabled(s: State, l: Label) {
    match l
    case New(k, n) =>
      k < |s.allocs| && n > 0 && (NeedsChunk(s.allocs[k], n) ==> s.global.taken + ChunkFor(n) <= s.global.limit)
    case Deallocated(k, p, n) => k < |s.allocs| && p in s.blocks && s.blocks[p] == Block(AlignUp(n, Alignment), InUse)
    case Freed(k, p) => k < |s.allocs| && p in s.blocks && s.blocks[p] == Block(Recorded(s.allocs[k], p), InUse)
  }

  function Put(s: State, k: nat, p: nat, a: Alloc): (s': State)
    requires k < |s.allocs| && p in s.blocks
  {
    s.(allocs := s.allocs[k := a], blocks := s.blocks[p := s.blocks[p].(kind := OnList(k))])
  }

  function Apply(s: State, l: Label): (s': State)
    requires Enabled(s, l)
  {
    match l
    case New(k, n) =>
      var a, size := s.allocs[k], AlignUp(n, Alignment);
      if HasFree(a.free, size) then Reuse(s, k, size)
      else if Fits(a.pool, size) then Carve(s, k, size)
      else Carve(Extend(Park(s, k, size), k, size), k, size)
    case Deallocated(k, p, n) => Put(s, k, p, Deallocate(s.allocs[k], p, n))
    case Freed(k, p) => Put(s, k, p, Free(s.allocs[k], p))
  }

  /** Apply() is what the program does: allocate() with the chunk that the shared pool gives. */
  lemma NewIsAllocate(s: State, k: nat, n: nat)
    requires Enabled(s, New(k, n))
    ensures var grown := GlobalReserve(s.global, ChunkFor(n));
      var r := Allocate(s.allocs[k], n, grown.0);
      && r.Given? && Apply(s, New(k, n)).allocs == s.allocs[k := r.a]
      && Apply(s, New(k, n)).global == (if NeedsChunk(s.allocs[k], n) then grown.1 else s.global)
      && r.p in Apply(s, New(k, n)).blocks && Apply(s, New(k, n)).blocks[r.p] == Block(AlignUp(n, Alignment), InUse)
  {
    var s' := Apply(s, New(k, n));
    assert s'.allocs[k] == Allocate(s.allocs[k], n, GlobalReserve(s.global, ChunkFor(n)).0).a;
  }

  // ---- The invariant ----

  predicate BlockFits(p: nat, size: nat, taken: nat) {
    size > 0 && p + size <= taken
  }

  /** The blocks and the bytes marked with them are the same thing. */
  ghost predicate Tiled(blocks: Blocks, bytes: seq<Tag>) {
    && (forall p :: p in blocks ==> BlockFits(p, blocks[p].size, |bytes|))
    && (forall p :: p in blocks ==> Marked(p, blocks[p].size, bytes))
    && (forall b :: 0 <= b < |bytes| ==> Belongs(bytes[b], b, blocks))
  }

  ghost predicate Marked(p: nat, size: nat, bytes: seq<Tag>) {
    forall b :: p <= b < p + size && b < |bytes| ==> bytes[b] == InBlock(p)
  }

  predicate Belongs(tag: Tag, b: nat, blocks: Blocks) {
    tag.InBlock? ==> tag.p in blocks && tag.p <= b < tag.p + blocks[tag.p].size
  }

  /** The rest of allocator k's pool and the bytes marked with it are the same thing. */
  ghost predicate PoolOk(pool: Pool, k: nat, bytes: seq<Tag>) {
    && Usable(pool)
    && (pool.memory.Some? ==> pool.memory.value + pool.maxSize <= |bytes|)
    && (forall b :: 0 <= b < |bytes| ==> (InRest(pool, b) <==> bytes[b] == Spare(k)))
  }

  /** The free lists of allocator k and the blocks marked with them are the same thing. */
  ghost predicate ListsOk(free: FreeLists, k: nat, blocks: Blocks) {
    && (forall n, i :: n in free && 0 <= i < |free[n]| ==>
          free[n][i] in blocks && blocks[free[n][i]] == Block(n, OnList(k)))
    && (forall n, i, j :: n in free && 0 <= i < j < |free[n]| ==> free[n][i] != free[n][j])
    && (forall p :: p in blocks && blocks[p].kind == OnList(k) ==> blocks[p].size in free && p in free[blocks[p].size])
  }

  ghost predicate InRange(s: State) {
    && (forall b :: 0 <= b < |s.bytes| && s.bytes[b].Spare? ==> s.bytes[b].k < |s.allocs|)
    && (forall p :: p in s.blocks && s.blocks[p].kind.OnList? ==> s.blocks[p].kind.k < |s.allocs|)
    && |s.bytes| == s.global.taken <= s.global.limit
  }

  ghost predicate Inv(s: State) {
    && InRange(s)
    && Tiled(s.blocks, s.bytes)
    && AllPools(s.allocs, s.bytes)
    && AllLists(s.allocs, s.blocks)
  }

  ghost predicate AllPools(allocs: seq<Alloc>, bytes: seq<Tag>) {
    forall k :: 0 <= k < |allocs| ==> PoolOk(allocs[k].pool, k, bytes)
  }

  ghost predicate AllLists(allocs: seq<Alloc>, blocks: Blocks) {
    forall k :: 0 <= k < |allocs| ==> ListsOk(allocs[k].free, k, blocks)
  }

  // ---- What each step keeps ----

  /** A block of allocator k's list becomes used. */
  lemma PopKeeps(free: FreeLists, k: nat, blocks: Blocks, size: nat)
    requires ListsOk(free, k, blocks) && HasFree(free, size)
    ensures Top(free, size) in blocks && blocks[Top(free, size)] == Block(size, OnList(k))
    ensures ListsOk(Pop(free, size), k, blocks[Top(free, size) := Block(size, InUse)])
  {
    var p, free' := Top(free, size), Pop(free, size);
    var blocks' := blocks[p := Block(size, InUse)];
    forall q | q in blocks' && blocks'[q].kind == OnList(k)
      ensures blocks'[q].size in free' && q in free'[blocks'[q].size]
    {
      var n := blocks[q].size;
      var i :| 0 <= i < |free[n]| && free[n][i] == q;
      if n == size { assert free'[n][i] == q; }
    }
  }

  /** A block that is on no list of allocator k goes on one. */
  lemma PushKeeps(free: FreeLists, k: nat, blocks: Blocks, p: nat, size: nat)
    requires ListsOk(free, k, blocks) && (p in blocks ==> blocks[p].kind != OnList(k))
    ensures ListsOk(Push(free, size, p), k, blocks[p := Block(size, OnList(k))])
  {
    var free', blocks' := Push(free, size, p), blocks[p := Block(size, OnList(k))];
    var old_ := if size in free then free[size] else [];
    assert free'[size] == old_ + [p];
    assert forall i :: 0 <= i < |old_| ==> free'[size][i] == old_[i] && old_[i] != p;
    assert free'[size][|old_|] == p;
    forall q | q in blocks' && blocks'[q].kind == OnList(k)
      ensures blocks'[q].size in free' && q in free'[blocks'[q].size]
    {
      if q != p {
        var n := blocks[q].size;
        var i :| 0 <= i < |free[n]| && free[n][i] == q;
        assert free'[n][i] == q;
      }
    }
  }

  /** The lists of an allocator that has nothing to do with block p. */
  lemma OthersKeep(free: FreeLists, k: nat, blocks: Blocks, p: nat, block: Block)
    requires ListsOk(free, k, blocks) && (p in blocks ==> blocks[p].kind != OnList(k)) && block.kind != OnList(k)
    ensures ListsOk(free, k, blocks[p := block])
  {
  }

  lemma ReuseKeeps(s: State, k: nat, size: nat)
    requires Inv(s) && k < |s.allocs| && HasFree(s.allocs[k].free, size)
    ensures Inv(Reuse(s, k, size))
  {
    var s' := Reuse(s, k, size);
    var p := Top(s.allocs[k].free, size);
    PopKeeps(s.allocs[k].free, k, s.blocks, size);
    forall j | 0 <= j < |s.allocs|
      ensures PoolOk(s'.allocs[j].pool, j, s'.bytes) && ListsOk(s'.allocs[j].free, j, s'.blocks)
    {
      if j != k { OthersKeep(s.allocs[j].free, j, s.blocks, p, Block(size, InUse)); }
    }
  }

  lemma PutKeeps(s: State, k: nat, p: nat, a: Alloc)
    requires Inv(s) && k < |s.allocs| && p in s.blocks && s.blocks[p].kind == InUse
    requires a.pool == s.allocs[k].pool && a.free == Push(s.allocs[k].free, s.blocks[p].size, p)
    ensures Inv(Put(s, k, p, a))
  {
    var s' := Put(s, k, p, a);
    PushKeeps(s.allocs[k].free, k, s.blocks, p, s.blocks[p].size);
    forall j | 0 <= j < |s.allocs|
      ensures PoolOk(s'.allocs[j].pool, j, s'.bytes) && ListsOk(s'.allocs[j].free, j, s'.blocks)
    {
      if j != k { OthersKeep(s.allocs[j].free, j, s.blocks, p, s'.blocks[p]); }
    }
  }

  /** Cutting `size` bytes off the rest of a pool: the new block. */
  lemma CutTiles(pool: Pool, k: nat, blocks: Blocks, bytes: seq<Tag>, size: nat, kind: Kind)
    requires Tiled(blocks, bytes) && PoolOk(pool, k, bytes) && pool.memory.Some? && Fits(pool, size)
    requires size > 0
    ensures var p := pool.memory.value + pool.offset;
      p !in blocks && Tiled(blocks[p := Block(size, kind)], Mark(bytes, p, size))
  {
    var p := pool.memory.value + pool.offset;
    assert InRest(pool, p) && bytes[p] == Spare(k);
    var bytes', blocks' := Mark(bytes, p, size), blocks[p := Block(size, kind)];
    assert forall b :: p <= b < p + size ==> InRest(pool, b);
    forall q | q in blocks'
      ensures Marked(q, blocks'[q].size, bytes')
    {
      if q != p {
        assert Marked(q, blocks[q].size, bytes);
        forall b | q <= b < q + blocks'[q].size && b < |bytes'|
          ensures bytes'[b] == InBlock(q)
        {
          assert bytes[b] == InBlock(q) && !InRest(pool, b);
        }
      }
    }
    forall b | 0 <= b < |bytes'|
      ensures Belongs(bytes'[b], b, blocks')
    {
      assert Belongs(bytes[b], b, blocks);
    }
  }

  /** ... and the pools. */
  lemma CutPools(pool: Pool, k: nat, bytes: seq<Tag>, size: nat, pool2: Pool, j: nat)
    requires PoolOk(pool, k, bytes) && pool.memory.Some? && Fits(pool, size)
    requires PoolOk(pool2, j, bytes) && (j == k ==> pool2 == pool)
    ensures PoolOk(if j == k then pool.(offset := pool.offset + size) else pool2, j,
                   Mark(bytes, pool.memory.value + pool.offset, size))
  {
    var p := pool.memory.value + pool.offset;
    var bytes' := Mark(bytes, p, size);
    var pool' := if j == k then pool.(offset := pool.offset + size) else pool2;
    forall b | 0 <= b < |bytes'|
      ensures InRest(pool', b) <==> bytes'[b] == Spare(j)
    {
      assert InRest(pool2, b) <==> bytes[b] == Spare(j);
      assert InRest(pool, b) <==> bytes[b] == Spare(k);
    }
  }

  lemma CutAllPools(allocs: seq<Alloc>, bytes: seq<Tag>, k: nat, size: nat, a: Alloc)
    requires AllPools(allocs, bytes) && k < |allocs| && allocs[k].pool.memory.Some? && Fits(allocs[k].pool, size)
    requires a.pool == allocs[k].pool.(offset := allocs[k].pool.offset + size)
    ensures AllPools(allocs[k := a], Mark(bytes, allocs[k].pool.memory.value + allocs[k].pool.offset, size))
  {
    var allocs' := allocs[k := a];
    forall j | 0 <= j < |allocs|
      ensures PoolOk(allocs'[j].pool, j, Mark(bytes, allocs[k].pool.memory.value + allocs[k].pool.offset, size))
    {
      CutPools(allocs[k].pool, k, bytes, size, allocs[j].pool, j);
    }
  }

  lemma CutAllLists(allocs: seq<Alloc>, blocks: Blocks, k: nat, p: nat, block: Block, a: Alloc)
    requires AllLists(allocs, blocks) && k < |allocs| && p !in blocks
    requires block.kind == InUse || block.kind == OnList(k)
    requires ListsOk(a.free, k, blocks[p := block])
    ensures AllLists(allocs[k := a], blocks[p := block])
  {
    var allocs' := allocs[k := a];
    forall j | 0 <= j < |allocs|
      ensures ListsOk(allocs'[j].free, j, blocks[p := block])
    {
      if j != k { OthersKeep(allocs[j].free, j, blocks, p, block); }
    }
  }

  lemma CutRange(s: State, k: nat, size: nat, kind: Kind, a: Alloc)
    requires InRange(s) && k < |s.allocs| && s.allocs[k].pool.memory.Some? && (kind == InUse || kind == OnList(k))
    ensures InRange(Cut(s, k, size, kind, a))
  {
  }

  lemma CutKeeps(s: State, k: nat, size: nat, kind: Kind, a: Alloc)
    requires Inv(s) && k < |s.allocs| && s.allocs[k].pool.memory.Some? && Fits(s.allocs[k].pool, size)
    requires size > 0 && (kind == InUse || kind == OnList(k))
    requires a.pool == s.allocs[k].pool.(offset := s.allocs[k].pool.offset + size)
    requires var p := s.allocs[k].pool.memory.value + s.allocs[k].pool.offset;
      ListsOk(a.free, k, s.blocks[p := Block(size, kind)])
    ensures Inv(Cut(s, k, size, kind, a))
  {
    var pool := s.allocs[k].pool;
    var p := pool.memory.value + pool.offset;
    CutRange(s, k, size, kind, a);
    CutTiles(pool, k, s.blocks, s.bytes, size, kind);
    CutAllPools(s.allocs, s.bytes, k, size, a);
    CutAllLists(s.allocs, s.blocks, k, p, Block(size, kind), a);
    var s' := Cut(s, k, size, kind, a);
    assert s'.allocs == s.allocs[k := a] && s'.blocks == s.blocks[p := Block(size, kind)];
    assert s'.bytes == Mark(s.bytes, p, size);
  }

  lemma CarveKeeps(s: State, k: nat, size: nat)
    requires Inv(s) && k < |s.allocs| && Fits(s.allocs[k].pool, size) && size > 0
    ensures s.allocs[k].pool.memory.Some? && Inv(Carve(s, k, size))
  {
    var a := s.allocs[k];
    assert PoolOk(a.pool, k, s.bytes);
    var p := a.pool.memory.value + a.pool.offset;
    assert ListsOk(a.free, k, s.blocks[p := Block(size, InUse)]) by {
      CutTiles(a.pool, k, s.blocks, s.bytes, size, InUse);
      OthersKeep(a.free, k, s.blocks, p, Block(size, InUse));
    }
    CutKeeps(s, k, size, InUse, Reserved(a, size));
  }

  lemma ParkLists(pool: Pool, free: FreeLists, k: nat, blocks: Blocks, bytes: seq<Tag>, avail: nat)
    requires Tiled(blocks, bytes) && PoolOk(pool, k, bytes) && ListsOk(free, k, blocks)
    requires pool.memory.Some? && Fits(pool, avail) && avail > 0
    ensures var p := pool.memory.value + pool.offset;
      ListsOk(Push(free, avail, p), k, blocks[p := Block(avail, OnList(k))])
  {
    CutTiles(pool, k, blocks, bytes, avail, OnList(k));
    PushKeeps(free, k, blocks, pool.memory.value + pool.offset, avail);
  }

  lemma ParkSome(s: State, k: nat, size: nat, avail: nat)
    requires Inv(s) && k < |s.allocs| && Usable(s.allocs[k].pool) && s.allocs[k].pool.memory.Some?
    requires avail == s.allocs[k].pool.maxSize - s.allocs[k].pool.offset > 0
    ensures Inv(Cut(s, k, avail, OnList(k), Parked(s.allocs[k], size)))
  {
    var a := s.allocs[k];
    assert PoolOk(a.pool, k, s.bytes);
    ParkLists(a.pool, a.free, k, s.blocks, s.bytes, avail);
    CutKeeps(s, k, avail, OnList(k), Parked(a, size));
  }

  lemma ParkKeeps(s: State, k: nat, size: nat)
    requires Inv(s) && k < |s.allocs| && Usable(s.allocs[k].pool)
    ensures Inv(Park(s, k, size))
  {
    var s', pool := Park(s, k, size), s.allocs[k].pool;
    if pool.maxSize > pool.offset {
      ParkSome(s, k, size, pool.maxSize - pool.offset);
      assert s' == Cut(s, k, pool.maxSize - pool.offset, OnList(k), Parked(s.allocs[k], size));
    } else {
      assert s' == s;
    }
  }

  lemma LongerTiles(blocks: Blocks, bytes: seq<Tag>, k: nat, chunk: nat)
    requires Tiled(blocks, bytes)
    ensures Tiled(blocks, bytes + seq(chunk, _ => Spare(k)))
  {
    var bytes' := bytes + seq(chunk, _ => Spare(k));
    forall p | p in blocks
      ensures Marked(p, blocks[p].size, bytes')
    {
      assert BlockFits(p, blocks[p].size, |bytes|) && Marked(p, blocks[p].size, bytes);
    }
    forall b | 0 <= b < |bytes'|
      ensures Belongs(bytes'[b], b, blocks)
    {
      if b < |bytes| { assert Belongs(bytes[b], b, blocks); }
    }
  }

  lemma LongerPools(pool: Pool, j: nat, bytes: seq<Tag>, k: nat, chunk: nat)
    requires PoolOk(pool, j, bytes) && (j == k ==> pool.offset == pool.maxSize)
    ensures PoolOk(if j == k then Pool(Some(|bytes|), chunk, 0) else pool, j, bytes + seq(chunk, _ => Spare(k)))
  {
    var bytes' := bytes + seq(chunk, _ => Spare(k));
    var pool' := if j == k then Pool(Some(|bytes|), chunk, 0) else pool;
    forall b | 0 <= b < |bytes'|
      ensures InRest(pool', b) <==> bytes'[b] == Spare(j)
    {
      if b < |bytes| { assert InRest(pool, b) <==> bytes[b] == Spare(j); }
    }
  }

  lemma ExtendKeeps(s: State, k: nat, size: nat)
    requires Inv(s) && k < |s.allocs| && s.allocs[k].pool.offset == s.allocs[k].pool.maxSize
    requires s.global.taken + AlignUp(size, ChunkSize) <= s.global.limit
    ensures Inv(Extend(s, k, size))
  {
    var s', chunk := Extend(s, k, size), AlignUp(size, ChunkSize);
    LongerTiles(s.blocks, s.bytes, k, chunk);
    forall j | 0 <= j < |s.allocs|
      ensures PoolOk(s'.allocs[j].pool, j, s'.bytes)
    {
      LongerPools(s.allocs[j].pool, j, s.bytes, k, chunk);
    }
  }

  lemma NewKeeps(s: State, k: nat, n: nat)
    requires Inv(s) && Enabled(s, New(k, n))
    ensures Inv(Apply(s, New(k, n)))
  {
    var a, size := s.allocs[k], AlignUp(n, Alignment);
    AlignUpLeast(n, Alignment);
    if HasFree(a.free, size) {
      ReuseKeeps(s, k, size);
    } else if Fits(a.pool, size) {
      CarveKeeps(s, k, size);
    } else {
      ParkKeeps(s, k, size);
      var s1 := Park(s, k, size);
      ExtendKeeps(s1, k, size);
      AlignUpLeast(size, ChunkSize);
      CarveKeeps(Extend(s1, k, size), k, size);
    }
  }

  lemma InvStep(s: State, l: Label)
    requires Inv(s) && Enabled(s, l)
    ensures Inv(Apply(s, l))
  {
    match l
    case New(k, n) => NewKeeps(s, k, n);
    case Deallocated(k, p, n) => PutKeeps(s, k, p, Deallocate(s.allocs[k], p, n));
    case Freed(k, p) => PutKeeps(s, k, p, Free(s.allocs[k], p));
  }

  // ---- Alignment ----

  predicate PoolAligned(pool: Pool) {
    && pool.offset % Alignment == 0 && pool.maxSize % Alignment == 0
    && (pool.memory.Some? ==> pool.memory.value % Alignment == 0)
  }

  ghost predicate Aligned(s: State) {
    && (forall k :: 0 <= k < |s.allocs| ==> PoolAligned(s.allocs[k].pool))
    && (forall p :: p in s.blocks ==> p % Alignment == 0)
    && s.global.taken % ChunkSize == 0
  }

  lemma CutAligned(s: State, k: nat, size: nat, kind: Kind, a: Alloc)
    requires Aligned(s) && k < |s.allocs| && s.allocs[k].pool.memory.Some? && size % Alignment == 0
    requires a.pool == s.allocs[k].pool.(offset := s.allocs[k].pool.offset + size)
    ensures Aligned(Cut(s, k, size, kind, a))
  {
    assert PoolAligned(s.allocs[k].pool);
  }

  lemma ParkAligned(s: State, k: nat, size: nat)
    requires Aligned(s) && k < |s.allocs| && Usable(s.allocs[k].pool)
    ensures Aligned(Park(s, k, size))
  {
    var pool := s.allocs[k].pool;
    assert PoolAligned(pool);
    if pool.maxSize > pool.offset {
      CutAligned(s, k, pool.maxSize - pool.offset, OnList(k), Parked(s.allocs[k], size));
    }
  }

  lemma ExtendAligned(s: State, k: nat, size: nat)
    requires Aligned(s) && k < |s.allocs|
    requires s.global.taken + AlignUp(size, ChunkSize) <= s.global.limit
    ensures Aligned(Extend(s, k, size))
  {
    var chunk := AlignUp(size, ChunkSize);
    assert chunk % ChunkSize == 0 by { AlignUpLeast(size, ChunkSize); }
    ChunkAligned(s.global.taken, chunk);
    assert PoolAligned(Pool(Some(s.global.taken), chunk, 0));
  }

  lemma NewAligned(s: State, k: nat, n: nat)
    requires Inv(s) && Aligned(s) && Enabled(s, New(k, n))
    ensures Aligned(Apply(s, New(k, n)))
  {
    var a, size := s.allocs[k], AlignUp(n, Alignment);
    AlignUpLeast(n, Alignment);
    if HasFree(a.free, size) {
      PopKeeps(a.free, k, s.blocks, size);
    } else if Fits(a.pool, size) {
      CutAligned(s, k, size, InUse, Reserved(a, size));
    } else {
      var s1 := Park(s, k, size);
      ParkAligned(s, k, size);
      ExtendAligned(s1, k, size);
      var s2 := Extend(s1, k, size);
      CutAligned(s2, k, size, InUse, Reserved(s2.allocs[k], size));
    }
  }

  lemma AlignedStep(s: State, l: Label)
    requires Inv(s) && Aligned(s) && Enabled(s, l)
    ensures Aligned(Apply(s, l))
  {
    if l.New? {
      NewAligned(s, l.k, l.n);
    }
  }

  ghost predicate IsRun(s: State, labels: seq<Label>, s': State)
    decreases |labels|
  {
    if labels == [] then s' == s
    else Enabled(s, labels[0]) && IsRun(Apply(s, labels[0]), labels[1..], s')
  }

  function Initial(limit: nat, allocators: nat): (s: State) {
    State(Global(limit, 0), seq(allocators, _ => EmptyAlloc), map[], [], map[])
  }

  lemma {:induction false} InvRun(s: State, labels: seq<Label>, s': State)
    requires Inv(s) && IsRun(s, labels, s')
    ensures Inv(s')
    decreases |labels|
  {
    if labels != [] {
      InvStep(s, labels[0]);
      InvRun(Apply(s, labels[0]), labels[1..], s');
    }
  }

  // ---- The partition ----

  datatype Place = InLive(p: nat) | InList(k: nat, n: nat, i: nat) | InPool(k: nat)

  /** Byte b is in this live block, in this block of a free list, or in the rest of this pool. */
  predicate IsIn(s: State, b: nat, place: Place) {
    match place
    case InLive(p) => p in s.blocks && s.blocks[p].kind == InUse && p <= b < p + s.blocks[p].size
    case InList(k, n, i) =>
      && k < |s.allocs| && n in s.allocs[k].free && i < |s.allocs[k].free[n]|
      && s.allocs[k].free[n][i] <= b < s.allocs[k].free[n][i] + n
    case InPool(k) => k < |s.allocs| && InRest(s.allocs[k].pool, b)
  }

  lemma SomePlace(s: State, b: nat) returns (place: Place)
    requires Inv(s) && b < s.global.taken
    ensures IsIn(s, b, place)
  {
    match s.bytes[b] {
      case Spare(k) =>
        assert PoolOk(s.allocs[k].pool, k, s.bytes);
        place := InPool(k);
      case InBlock(p) =>
        if s.blocks[p].kind == InUse {
          place := InLive(p);
        } else {
          var k, n := s.blocks[p].kind.k, s.blocks[p].size;
          assert ListsOk(s.allocs[k].free, k, s.blocks);
          var i :| 0 <= i < |s.allocs[k].free[n]| && s.allocs[k].free[n][i] == p;
          place := InList(k, n, i);
        }
    }
  }

  /** A place is known by the mark of any of its bytes. */
  lemma PlaceIsMarked(s: State, b: nat, place: Place)
    requires Inv(s) && IsIn(s, b, place)
    ensures b < |s.bytes|
    ensures place.InLive? ==> s.bytes[b] == InBlock(place.p) && s.blocks[place.p].kind == InUse
    ensures place.InList? ==>
      && s.bytes[b] == InBlock(s.allocs[place.k].free[place.n][place.i])
      && s.bytes[b].p in s.blocks && s.blocks[s.bytes[b].p] == Block(place.n, OnList(place.k))
    ensures place.InPool? ==> s.bytes[b] == Spare(place.k)
  {
    match place
    case InLive(p) =>
      assert BlockFits(p, s.blocks[p].size, |s.bytes|);
    case InList(k, n, i) =>
      assert ListsOk(s.allocs[k].free, k, s.blocks);
      var p := s.allocs[k].free[n][i];
      assert s.blocks[p] == Block(n, OnList(k));
      assert BlockFits(p, s.blocks[p].size, |s.bytes|);
    case InPool(k) =>
      assert PoolOk(s.allocs[k].pool, k, s.bytes);
  }

  lemma OnePlace(s: State, b: nat, x: Place, y: Place)
    requires Inv(s) && IsIn(s, b, x) && IsIn(s, b, y)
    ensures x == y
  {
    PlaceIsMarked(s, b, x);
    PlaceIsMarked(s, b, y);
    if x.InList? && y.InList? {
      assert ListsOk(s.allocs[x.k].free, x.k, s.blocks);
    }
  }

  ghost predicate Placed(s: State, b: nat) {
    exists place :: IsIn(s, b, place)
  }

  ghost predicate PlacedOnce(s: State, b: nat) {
    forall x, y :: IsIn(s, b, x) && IsIn(s, b, y) ==> x == y
  }

  /**
   Each byte taken from the global pool is in exactly one live block, block of a free list or pool,
   and nothing else is in any.
   */
  ghost predicate Partitioned(s: State) {
    forall b: nat :: (Placed(s, b) <==> b < s.global.taken) && PlacedOnce(s, b)
  }

  lemma InvPartitioned(s: State)
    requires Inv(s)
    ensures Partitioned(s)
  {
    forall b: nat
      ensures (Placed(s, b) <==> b < s.global.taken) && PlacedOnce(s, b)
    {
      if b < s.global.taken {
        var place := SomePlace(s, b);
      }
      if place :| IsIn(s, b, place) {
        PlaceIsMarked(s, b, place);
      }
      forall x, y | IsIn(s, b, x) && IsIn(s, b, y)
        ensures x == y
      {
        OnePlace(s, b, x, y);
      }
    }
  }

  /** In every run. */
  lemma Partition(limit: nat, allocators: nat, labels: seq<Label>, s: State)
    requires IsRun(Initial(limit, allocators), labels, s)
    ensures Partitioned(s)
  {
    InvRun(Initial(limit, allocators), labels, s);
    InvPartitioned(s);
  }

  lemma {:induction false} AlignedRun(s: State, labels: seq<Label>, s': State)
    requires Inv(s) && Aligned(s) && IsRun(s, labels, s')
    ensures Aligned(s') && s'.global.limit == s.global.limit
    decreases |labels|
  {
    if labels != [] {
      InvStep(s, labels[0]);
      AlignedStep(s, labels[0]);
      AlignedRun(Apply(s, labels[0]), labels[1..], s');
    }
  }

  /** Blocks are aligned and within the memory, */
  lemma BlockAligned(limit: nat, allocators: nat, labels: seq<Label>, s: State, p: nat)
    requires IsRun(Initial(limit, allocators), labels, s) && p in s.blocks
    ensures p % Alignment == 0 && p + s.blocks[p].size <= s.global.taken <= limit
  {
    InvRun(Initial(limit, allocators), labels, s);
    AlignedRun(Initial(limit, allocators), labels, s);
    assert BlockFits(p, s.blocks[p].size, |s.bytes|);
  }

  /** and no two of them overlap. */
  lemma BlocksDisjoint(limit: nat, allocators: nat, labels: seq<Label>, s: State, p: nat, q: nat)
    requires IsRun(Initial(limit, allocators), labels, s) && p in s.blocks && q in s.blocks && p != q
    ensures p + s.blocks[p].size <= q || q + s.blocks[q].size <= p
  {
    InvRun(Initial(limit, allocators), labels, s);
    assert BlockFits(p, s.blocks[p].size, |s.bytes|) && BlockFits(q, s.blocks[q].size, |s.bytes|);
    var b := if p < q then q else p;
    assert Marked(p, s.blocks[p].size, s.bytes) && Marked(q, s.blocks[q].size, s.bytes);
    assert s.bytes[b] == InBlock(b);
  }
}
