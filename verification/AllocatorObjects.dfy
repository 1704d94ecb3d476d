/** The pools and allocators as objects: each method does what `Allocator` says, in place. */
module AllocatorObjects {
  import opened Options
  import opened Allocator

  class GlobalPool {
    const limit: nat
    var taken: nat

    constructor (limit: nat)
      ensures this.limit == limit && taken == 0
    {
      this.limit := limit;
      taken := 0;
    }

    function Value(): (g: Global)
      reads this
    {
      Global(limit, taken)
    }

    /** `None` is bad_alloc. */
    method Reserve(size: nat) returns (p: Option<nat>)
      modifies this
      ensures (p, Value()) == GlobalReserve(old(Value()), size)
    {
      if taken + size > limit {
        return None;
      }
      p := Some(taken);
      taken := taken + size;
    }

    method Available() returns (avail: int)
      ensures avail == limit - taken
    {
      avail := limit - taken;
    }
  }

  /** A node's allocator over the shared pool. */
  class GlobalAllocator {
    const pool: GlobalPool
    var freelist: FreeLists

    constructor (pool: GlobalPool)
      ensures this.pool == pool && freelist == map[]
    {
      this.pool := pool;
      freelist := map[];
    }

    method Allocate(n: nat) returns (p: Option<nat>)
      requires pool.taken <= pool.limit
      modifies this, pool
      ensures (p, freelist, pool.Value()) == GlobalAllocate(old(freelist), old(pool.Value()), n)
      ensures pool.taken <= pool.limit
    {
      var size := AlignUp(n, Alignment);
      if size in freelist && freelist[size] != [] {
        p := Some(Top(freelist, size));
        freelist := Pop(freelist, size);
        return;
      }
      p := pool.Reserve(size);
      if p == None {
        var avail := pool.Available();
        if avail > 0 {
          var rest := pool.Reserve(avail);
          freelist := Push(freelist, avail, rest.value);
        }
        // The pool's grow() always throws.
      }
    }
  }

  /** Whether every caller takes chunks from the global allocator, or node 0 does for all. */
  datatype GrowthMode = Always | NodeZeroOnly

  /** A generic_allocator together with the dynamic_memory_pool it owns. */
  class NodeAllocator {
    const global: GlobalAllocator
    const mode: GrowthMode
    const node: nat
    var memory: Option<nat>
    var maxSize: nat
    var offset: nat
    var freelist: FreeLists
    var allocationSize: map<nat, nat>

    constructor (global: GlobalAllocator, mode: GrowthMode, node: nat)
      ensures Value() == EmptyAlloc && this.global == global && this.mode == mode && this.node == node
    {
      this.global, this.mode, this.node := global, mode, node;
      memory, maxSize, offset := None, 0, 0;
      freelist, allocationSize := map[], map[];
    }

    function Value(): (a: Alloc)
      reads this
    {
      Alloc(Pool(memory, maxSize, offset), freelist, allocationSize)
    }

    /** do_grow(). */
    predicate Takes() {
      mode.Always? || node == 0
    }

    /** dynamic_memory_pool::reserve(); `None` is bad_alloc. */
    method Reserve(size: nat) returns (p: Option<nat>)
      requires Sound(Value().pool)
      modifies this
      ensures p == if Fits(old(Value().pool), size) then Some(Base(old(Value().pool)) + old(offset)) else None
      ensures Value() == old(Value()).(pool := Pool(memory, maxSize, old(offset) + if p.Some? then size else 0))
      ensures memory == old(memory) && maxSize == old(maxSize)
    {
      if offset + size > maxSize {
        return None;
      }
      p := Some(Base(Pool(memory, maxSize, offset)) + offset);
      offset := offset + size;
    }

    /**
     dynamic_memory_pool::grow(); `ok` is false for bad_alloc, and `heard` is what the broadcast of node
     0 brings to the other nodes.
     */
    method Grow(size: nat, heard: Option<nat>) returns (ok: bool)
      requires global.pool.taken <= global.pool.limit
      modifies this, global, global.pool
      ensures global.pool.taken <= global.pool.limit
      ensures freelist == old(freelist) && allocationSize == old(allocationSize)
      ensures
        var want := if size == 0 then 1 else size;
        var got := GlobalAllocate(old(global.freelist), old(global.pool.Value()), AlignUp(want, ChunkSize));
        && (ok, Value().pool) == Allocator.Grow(Takes(), old(Value().pool), want, if Takes() then got.0 else heard)
        && (global.freelist, global.pool.Value())
           == (if Takes() then (got.1, got.2) else old((global.freelist, global.pool.Value())))
    {
      var want := size;
      if want == 0 {
        want := 1;
      }
      var allocSize := AlignUp(want, ChunkSize);
      maxSize := allocSize;
      offset := 0;
      if mode.Always? || node == 0 {
        memory := global.Allocate(allocSize);
      }
      var value := if mode.Always? || node == 0 then memory else heard;
      ok := value.Some?;
      if ok {
        memory := value;
      }
    }

    /** The part of allocate() that puts what is left of the pool on the free lists. */
    method ParkRest(size: nat)
      requires Sound(Value().pool)
      modifies this
      ensures Value() == Parked(old(Value()), size)
    {
      var avail := maxSize - offset;
      if avail > 0 {
        var rest := Reserve(avail);
        freelist := Push(freelist, avail, rest.value);
        allocationSize := Insert(allocationSize, rest.value, size);
      }
    }

    /** What a growth after a failed reserve(size) makes of the allocator a. */
    function AfterGrowth(a: Alloc, size: nat, chunk: Option<nat>): (r: (bool, Alloc)) {
      var (ok, pool) := Allocator.Grow(Takes(), Parked(a, size).pool, size, chunk);
      (ok, Parked(a, size).(pool := pool))
    }

    /** The part of allocate() that gets a new chunk. */
    method Refill(size: nat, heard: Option<nat>) returns (ok: bool)
      requires Sound(Value().pool) && global.pool.taken <= global.pool.limit && !Fits(Value().pool, size)
      modifies this, global, global.pool
      ensures
        var got := GlobalAllocate(old(global.freelist), old(global.pool.Value()), AlignUp(size, ChunkSize));
        && (ok, Value()) == AfterGrowth(old(Value()), size, if Takes() then got.0 else heard)
        && (global.freelist, global.pool.Value())
           == (if Takes() then (got.1, got.2) else old((global.freelist, global.pool.Value())))
    {
      ParkRest(size);
      ok := Grow(size, heard);
    }

    /** ... and then reserves from it. */
    method AllocateFromChunk(size: nat, heard: Option<nat>) returns (p: Option<nat>)
      requires Sound(Value().pool) && global.pool.taken <= global.pool.limit && !Fits(Value().pool, size)
      modifies this, global, global.pool
      ensures
        var got := GlobalAllocate(old(global.freelist), old(global.pool.Value()), AlignUp(size, ChunkSize));
        var (ok, a) := AfterGrowth(old(Value()), size, if Takes() then got.0 else heard);
        && p == (if ok then Some(Base(a.pool)) else None) && Value() == (if ok then Reserved(a, size) else a)
        && (global.freelist, global.pool.Value())
           == (if Takes() then (got.1, got.2) else old((global.freelist, global.pool.Value())))
    {
      var ok := Refill(size, heard);
      if !ok {
        return None;
      }
      AlignUpLeast(size, ChunkSize);
      p := Reserve(size);
      allocationSize := Insert(allocationSize, p.value, size);
    }

    /** allocate(); `None` is bad_alloc. */
    method Allocate(n: nat, heard: Option<nat>) returns (p: Option<nat>)
      requires Sound(Value().pool) && global.pool.taken <= global.pool.limit
      modifies this, global, global.pool
      ensures
        var got := GlobalAllocate(old(global.freelist), old(global.pool.Value()), ChunkFor(n));
        var r := AllocateOn(Takes(), old(Value()), n, if Takes() then got.0 else heard);
        && (global.freelist, global.pool.Value())
           == (if Takes() && NeedsChunk(old(Value()), n) then (got.1, got.2)
               else old((global.freelist, global.pool.Value())))
        && p == (if r.Given? then Some(r.p) else None)
        && Value() == r.a
    {
      var size := AlignUp(n, Alignment);
      if size in freelist && freelist[size] != [] {
        p := Some(Top(freelist, size));
        freelist := Pop(freelist, size);
        return;
      }
      p := Reserve(size);
      if p == None {
        p := AllocateFromChunk(size, heard);
      } else {
        allocationSize := Insert(allocationSize, p.value, size);
      }
    }

    method Deallocate(p: nat, n: nat)
      modifies this
      ensures Value() == Allocator.Deallocate(old(Value()), p, n)
    {
      freelist := Push(freelist, AlignUp(n, Alignment), p);
    }

    method Free(p: nat)
      modifies this
      ensures Value() == Allocator.Free(old(Value()), p)
    {
      if p !in allocationSize {
        allocationSize := allocationSize[p := 0];
      }
      freelist := Push(freelist, allocationSize[p], p);
    }
  }
}
