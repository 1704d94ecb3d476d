/**
 The allocators of the global memory: per-size free lists over a pool that grows by whole
 chunks, which are taken from a bump pool that all nodes share. Addresses are numbers, with null
 at 0, which matters after a failed growth only. The element type is char, so that sizes are in
 bytes.

 These functions give what one call does to the values of an allocator; the classes of
 `AllocatorObjects` do it in place.
 */
module Allocator {
  import opened Arith
  import opened Options

  const Alignment: nat := 16
  const ChunkSize: nat := 4096

  /** align_up(). */
  function AlignUp(num: nat, alignment: nat): (r: nat)
    requires alignment > 0
  {
    (num + alignment - 1) / alignment * alignment
  }

  lemma AlignUpLeast(num: nat, alignment: nat)
    requires alignment > 0
    ensures AlignUp(num, alignment) % alignment == 0 && num <= AlignUp(num, alignment) < num + alignment
  {
    var q := (num + alignment - 1) / alignment;
    DivMod(num + alignment - 1, alignment);
    DivModUnique(q * alignment, alignment, q, 0);
  }

  lemma AlignUpExact(num: nat, alignment: nat)
    requires alignment > 0 && num % alignment == 0
    ensures AlignUp(num, alignment) == num
  {
    DivMod(num, alignment);
    DivModUnique(num + alignment - 1, alignment, num / alignment, alignment - 1);
  }

  lemma OneChunk(x: nat)
    requires 0 < x <= ChunkSize
    ensures AlignUp(x, ChunkSize) == ChunkSize
  {
    DivModUnique(x + ChunkSize - 1, ChunkSize, 1, x - 1);
  }

  /** Whole chunks are aligned. */
  lemma ChunkAligned(x: nat, y: nat)
    requires x % ChunkSize == 0 && y % ChunkSize == 0
    ensures (x + y) % ChunkSize == 0 && x % Alignment == 0 && y % Alignment == 0
  {
    var i, j := x / ChunkSize, y / ChunkSize;
    DivModUnique(x, Alignment, 256 * i, 0);
    DivModUnique(y, Alignment, 256 * j, 0);
    DivModUnique(x + y, ChunkSize, i + j, 0);
  }

  /** A dynamic_memory_pool. */
  datatype Pool = Pool(memory: Option<nat>, maxSize: nat, offset: nat)

  const EmptyPool := Pool(None, 0, 0)

  type FreeLists = map<nat, seq<nat>>

  datatype Alloc = Alloc(pool: Pool, free: FreeLists, sizes: map<nat, nat>)

  const EmptyAlloc := Alloc(EmptyPool, map[], map[])

  /** What has been handed out is within the pool. */
  predicate Sound(p: Pool) {
    p.offset <= p.maxSize
  }

  /** No growth of the pool has failed. */
  predicate Usable(p: Pool) {
    Sound(p) && (p.memory.None? ==> p.maxSize == 0)
  }

  predicate Fits(p: Pool, size: nat) {
    p.offset + size <= p.maxSize
  }

  /** The address of byte 0 of the pool; null counts as address 0. */
  function Base(p: Pool): (address: nat) {
    if p.memory.Some? then p.memory.value else 0
  }

  /** Address b is in the part of the pool that has not been handed out. */
  predicate InRest(p: Pool, b: int) {
    p.memory.Some? && p.memory.value + p.offset <= b < p.memory.value + p.maxSize
  }

  /** std::map::insert() leaves an entry that is there alone. */
  function Insert(sizes: map<nat, nat>, p: nat, size: nat): (r: map<nat, nat>) {
    if p in sizes then sizes else sizes[p := size]
  }

  predicate HasFree(free: FreeLists, size: nat) {
    size in free && free[size] != []
  }

  function Push(free: FreeLists, size: nat, p: nat): (r: FreeLists) {
    free[size := (if size in free then free[size] else []) + [p]]
  }

  function Top(free: FreeLists, size: nat): (p: nat)
    requires HasFree(free, size)
  {
    free[size][|free[size]| - 1]
  }

  function Pop(free: FreeLists, size: nat): (r: FreeLists)
    requires HasFree(free, size)
  {
    free[size := free[size][..|free[size]| - 1]]
  }

  // ---- The steps of allocate() ----

  function Reused(a: Alloc, size: nat): (a': Alloc)
    requires HasFree(a.free, size)
  {
    a.(free := Pop(a.free, size))
  }

  /** reserve(), and the size noted. */
  function Reserved(a: Alloc, size: nat): (a': Alloc) {
    a.(pool := a.pool.(offset := a.pool.offset + size), sizes := Insert(a.sizes, Base(a.pool) + a.pool.offset, size))
  }

  /** What is left of the pool goes to the free lists; the size noted for it is the one asked for. */
  function Parked(a: Alloc, size: nat): (a': Alloc) {
    if a.pool.maxSize > a.pool.offset then
      var avail := a.pool.maxSize - a.pool.offset;
      var p := Base(a.pool) + a.pool.offset;
      Alloc(a.pool.(offset := a.pool.offset + avail), Push(a.free, avail, p), Insert(a.sizes, p, size))
    else a
  }

  function Grown(a: Alloc, size: nat, chunk: nat): (a': Alloc) {
    a.(pool := Pool(Some(chunk), AlignUp(size, ChunkSize), 0))
  }

  /**
   grow(), as a pool: a caller that takes its chunk itself gets `chunk`, and the memory is null if
   there is none. The collective pool takes chunks on node 0 only; there the other nodes keep the
   memory they have and hear of the chunk of node 0, and keep it unless it is null.
   */
  function Grow(takes: bool, pool: Pool, size: nat, chunk: Option<nat>): (r: (bool, Pool)) {
    var memory := if takes then chunk else pool.memory;
    (chunk.Some?, Pool(if chunk.Some? then chunk else memory, AlignUp(size, ChunkSize), 0))
  }

  /** What a growth for a request of n bytes takes from the shared pool. */
  function ChunkFor(n: nat): (r: nat) {
    AlignUp(AlignUp(n, Alignment), ChunkSize)
  }

  /** The pointer that allocate() returns, or bad_alloc; and what becomes of the allocator. */
  datatype Outcome = Given(p: nat, a: Alloc) | BadAlloc(a: Alloc)

  predicate NeedsChunk(a: Alloc, n: nat) {
    var size := AlignUp(n, Alignment);
    !HasFree(a.free, size) && !Fits(a.pool, size)
  }

  /** allocate(n), if a growth of the pool would get `chunk`. */
  function AllocateOn(takes: bool, a: Alloc, n: nat, chunk: Option<nat>): (r: Outcome)
    ensures Sound(a.pool) ==> Sound(r.a.pool)
    ensures r.BadAlloc? <==> NeedsChunk(a, n) && chunk == None
  {
    var size := AlignUp(n, Alignment);
    AlignUpLeast(size, ChunkSize);
    if HasFree(a.free, size) then Given(Top(a.free, size), Reused(a, size))
    else if Fits(a.pool, size) then Given(Base(a.pool) + a.pool.offset, Reserved(a, size))
    else
      var parked := Parked(a, size);
      var (ok, pool) := Grow(takes, parked.pool, size, chunk);
      if !ok then BadAlloc(parked.(pool := pool))
      else Given(Base(pool), Reserved(parked.(pool := pool), size))
  }

  /** ... where every caller takes its chunk itself. */
  function Allocate(a: Alloc, n: nat, chunk: Option<nat>): (r: Outcome)
    ensures Sound(a.pool) ==> Sound(r.a.pool)
    ensures r.BadAlloc? <==> NeedsChunk(a, n) && chunk == None
  {
    AllocateOn(true, a, n, chunk)
  }

  /** The block of `size` bytes at p is in the rest of the pool before, and not in the rest after. */
  ghost predicate CutFrom(before: Pool, after: Pool, p: nat, size: nat) {
    forall b :: p <= b < p + size ==> InRest(before, b) && !InRest(after, b)
  }

  /**
   What is returned: a block of the free list of its size, the next bytes of the pool, or the first
   bytes of a new chunk, in which case the rest of the old chunk is on the free list of its size.
   */
  lemma AllocateGives(a: Alloc, n: nat, chunk: Option<nat>)
    requires Usable(a.pool) && n > 0 && !Allocate(a, n, chunk).BadAlloc?
    ensures var size, r := AlignUp(n, Alignment), Allocate(a, n, chunk);
      && n <= size < n + Alignment && Usable(r.a.pool)
      && (HasFree(a.free, size) ==> r.p in a.free[size] && r.a.pool == a.pool && r.a.sizes == a.sizes)
      && (!HasFree(a.free, size) && Fits(a.pool, size) ==> CutFrom(a.pool, r.a.pool, r.p, size) && r.a.free == a.free)
      && (NeedsChunk(a, n) ==>
            && chunk == Some(r.p) && CutFrom(Pool(chunk, ChunkFor(n), 0), r.a.pool, r.p, size)
            && (forall b :: InRest(a.pool, b) ==> InListed(r.a.free, a.pool.maxSize - a.pool.offset, b)))
  {
    var size := AlignUp(n, Alignment);
    AlignUpLeast(n, Alignment);
    AlignUpLeast(size, ChunkSize);
    if NeedsChunk(a, n) {
      var avail := a.pool.maxSize - a.pool.offset;
      forall b | InRest(a.pool, b)
        ensures InListed(Allocate(a, n, chunk).a.free, avail, b)
      {
        var list := Parked(a, size).free[avail];
        assert list[|list| - 1] == Base(a.pool) + a.pool.offset;
      }
    }
  }

  /** Byte b is in a block of the free list for `size`. */
  ghost predicate InListed(free: FreeLists, size: int, b: int) {
    size >= 0 && size in free && exists i :: 0 <= i < |free[size]| && free[size][i] <= b < free[size][i] + size
  }

  /** deallocate(p, n). */
  function Deallocate(a: Alloc, p: nat, n: nat): (a': Alloc) {
    a.(free := Push(a.free, AlignUp(n, Alignment), p))
  }

  /** allocation_size[p], which makes an entry when there is none. */
  function Recorded(a: Alloc, p: nat): (size: nat) {
    if p in a.sizes then a.sizes[p] else 0
  }

  /** free(p). */
  function Free(a: Alloc, p: nat): (a': Alloc) {
    a.(free := Push(a.free, Recorded(a, p), p), sizes := Insert(a.sizes, p, 0))
  }

  /** The list of each size, which may not have been made yet. */
  ghost predicate SameLists(a: FreeLists, b: FreeLists) {
    forall size :: size in a || size in b ==>
      (if size in a then a[size] else []) == (if size in b then b[size] else [])
  }

  lemma PushPop(free: FreeLists, size: nat, p: nat)
    ensures HasFree(Push(free, size, p), size) && Top(Push(free, size, p), size) == p
    ensures SameLists(Pop(Push(free, size, p), size), free)
  {
    var list := if size in free then free[size] else [];
    assert (list + [p])[..|list|] == list;
  }

  /** The block given back last comes back first, and then the allocator is as it was. */
  lemma LastBackFirst(takes: bool, a: Alloc, p: nat, n: nat, chunk: Option<nat>)
    ensures var r := AllocateOn(takes, Deallocate(a, p, n), n, chunk);
      r.Given? && r.p == p && r.a.pool == a.pool && r.a.sizes == a.sizes && SameLists(r.a.free, a.free)
  {
    PushPop(a.free, AlignUp(n, Alignment), p);
  }

  /** So does one given back by free(), if its size is on record. */
  lemma LastFreedFirst(takes: bool, a: Alloc, p: nat, n: nat, chunk: Option<nat>)
    requires p in a.sizes && a.sizes[p] == AlignUp(n, Alignment)
    ensures AllocateOn(takes, Free(a, p), n, chunk) == AllocateOn(takes, Deallocate(a, p, n), n, chunk)
  {
  }

  // ---- The shared pool ----

  datatype Global = Global(limit: nat, taken: nat)

  /** global_memory_pool::reserve(). */
  function GlobalReserve(g: Global, size: nat): (r: (Option<nat>, Global)) {
    if g.taken + size > g.limit then (None, g) else (Some(g.taken), g.(taken := g.taken + size))
  }

  /** The allocator between the pools: it hands out what is free, or takes from the shared pool, which never grows. */
  function GlobalAllocate(free: FreeLists, g: Global, n: nat): (r: (Option<nat>, FreeLists, Global)) {
    var size := AlignUp(n, Alignment);
    if HasFree(free, size) then (Some(Top(free, size)), Pop(free, size), g)
    else
      var (p, g') := GlobalReserve(g, size);
      if p.Some? then (p, free, g')
      else if g.limit > g.taken then (None, Push(free, g.limit - g.taken, g.taken), g.(taken := g.limit))
      else (None, free, g)
  }

  /** Until the shared pool runs out, the allocator between adds nothing: a whole chunk is what reserve() gives. */
  lemma GlobalAllocateIsReserve(g: Global, n: nat)
    requires n % ChunkSize == 0
    ensures g.taken + n <= g.limit ==>
      GlobalAllocate(map[], g, n) == (Some(g.taken), map[], Global(g.limit, g.taken + n))
    ensures g.taken + n > g.limit ==> GlobalAllocate(map[], g, n).0 == None
  {
    ChunkAligned(n, 0);
    AlignUpExact(n, Alignment);
  }
}
