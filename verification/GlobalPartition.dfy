/**
 The allocators between the nodes' pools and the shared pool, one per node, over whole runs, requests
 that fail included: each byte taken from the shared pool is in exactly one chunk that has been handed
 out or one block of a free list, and no byte is handed out twice.

 `blocks` is not part of the program: the blocks cut from the shared pool, and where each is.
 */
module GlobalPartition {
  import opened Options
  import opened Allocator

  datatype Place = Out(k: nat) | Listed(k: nat)

  datatype Block = Block(size: nat, place: Place)

  type Blocks = map<nat, Block>

  datatype State = State(global: Global, free: seq<FreeLists>, blocks: Blocks)

  /** Node k asks for n bytes. */
  datatype Request = Request(k: nat, n: nat)

  function Fresh(limit: nat, nodes: nat): (s: State) {
    State(Global(limit, 0), seq(nodes, _ => map[]), map[])
  }

  /** What the request returns, the lists of its node and the shared pool after it. */
  function Answer(s: State, r: Request): (a: (Option<nat>, FreeLists, Global))
    requires r.k < |s.free|
  {
    GlobalAllocate(s.free[r.k], s.global, r.n)
  }

  /** A chunk that is returned is out; what else has been taken from the shared pool is on a list. */
  function Apply(s: State, r: Request): (s': State)
    requires r.k < |s.free|
  {
    var (p, free, global) := Answer(s, r);
    var size := AlignUp(r.n, Alignment);
    var blocks :=
      if p.Some? then (if size > 0 then s.blocks[p.value := Block(size, Out(r.k))] else s.blocks)
      else if global.taken > s.global.taken then
        s.blocks[s.global.taken := Block(global.taken - s.global.taken, Listed(r.k))]
      else s.blocks;
    State(global, s.free[r.k := free], blocks)
  }

  // ----- the invariant -----

  ghost predicate InBlock(blocks: Blocks, p: nat, b: nat) {
    p in blocks && p <= b < p + blocks[p].size
  }

  ghost predicate Covered(blocks: Blocks, b: nat) {
    exists p :: InBlock(blocks, p, b)
  }

  ghost predicate Tiled(blocks: Blocks, taken: nat) {
    && (forall p :: p in blocks ==> blocks[p].size > 0 && p + blocks[p].size <= taken)
    && (forall p, q :: p in blocks && q in blocks && p < q ==> p + blocks[p].size <= q)
    && (forall b :: 0 <= b < taken ==> Covered(blocks, b))
  }

  ghost predicate Distinct(list: seq<nat>) {
    forall i, j :: 0 <= i < j < |list| ==> list[i] != list[j]
  }

  /** The list of node k for `size` has each block of that size and place once, and nothing else. */
  ghost predicate ListOk(list: seq<nat>, size: nat, k: nat, blocks: Blocks) {
    Distinct(list) && forall p :: p in list <==> p in blocks && blocks[p] == Block(size, Listed(k))
  }

  function ListOf(free: FreeLists, size: nat): (list: seq<nat>) {
    if size in free then free[size] else []
  }

  ghost predicate Inv(s: State) {
    && s.global.taken <= s.global.limit && Tiled(s.blocks, s.global.taken)
    && (forall p :: p in s.blocks && s.blocks[p].place.Listed? ==> s.blocks[p].place.k < |s.free|)
    && (forall k, size :: 0 <= k < |s.free| && 0 <= size ==> ListOk(ListOf(s.free[k], size), size, k, s.blocks))
  }

  lemma FreshInv(limit: nat, nodes: nat)
    ensures Inv(Fresh(limit, nodes))
  {
  }

  /** A block at the end of what has been taken. */
  lemma TiledMore(blocks: Blocks, taken: nat, block: Block)
    requires Tiled(blocks, taken) && block.size > 0
    ensures taken !in blocks && Tiled(blocks[taken := block], taken + block.size)
  {
    var more := blocks[taken := block];
    forall b | 0 <= b < taken + block.size
      ensures Covered(more, b)
    {
      if b < taken {
        assert Covered(blocks, b);
        var p :| InBlock(blocks, p, b);
        assert InBlock(more, p, b);
      } else {
        assert InBlock(more, taken, b);
      }
    }
  }

  lemma TiledSame(blocks: Blocks, taken: nat, p: nat, place: Place)
    requires Tiled(blocks, taken) && p in blocks
    ensures Tiled(blocks[p := Block(blocks[p].size, place)], taken)
  {
    var same := blocks[p := Block(blocks[p].size, place)];
    forall b | 0 <= b < taken
      ensures Covered(same, b)
    {
      assert Covered(blocks, b);
      var q :| InBlock(blocks, q, b);
      assert InBlock(same, q, b);
    }
  }

  lemma ListPush(list: seq<nat>, size: nat, k: nat, blocks: Blocks, p: nat)
    requires ListOk(list, size, k, blocks) && p !in blocks
    ensures ListOk(list + [p], size, k, blocks[p := Block(size, Listed(k))])
  {
  }

  lemma ListPop(list: seq<nat>, size: nat, k: nat, blocks: Blocks)
    requires ListOk(list, size, k, blocks) && list != []
    ensures ListOk(list[..|list| - 1], size, k, blocks[list[|list| - 1] := Block(size, Out(k))])
  {
    var n, p := |list| - 1, list[|list| - 1];
    assert list == list[..n] + [p];
    assert p !in list[..n];
  }

  /** A list that the new block does not concern. */
  lemma ListSame(list: seq<nat>, size: nat, k: nat, blocks: Blocks, p: nat, block: Block)
    requires ListOk(list, size, k, blocks) && block != Block(size, Listed(k))
    requires p !in blocks || blocks[p] != Block(size, Listed(k))
    ensures ListOk(list, size, k, blocks[p := block])
  {
  }

  /** The chunk comes from a free list. */
  lemma ReuseKeeps(s: State, r: Request)
    requires Inv(s) && r.k < |s.free| && HasFree(s.free[r.k], AlignUp(r.n, Alignment))
    ensures Inv(Apply(s, r))
  {
    var size, s' := AlignUp(r.n, Alignment), Apply(s, r);
    var p := Top(s.free[r.k], size);
    var list := ListOf(s.free[r.k], size);
    assert ListOk(list, size, r.k, s.blocks) && p in list;
    TiledSame(s.blocks, s.global.taken, p, Out(r.k));
    forall k, z | 0 <= k < |s'.free| && 0 <= z
      ensures ListOk(ListOf(s'.free[k], z), z, k, s'.blocks)
    {
      assert ListOk(ListOf(s.free[k], z), z, k, s.blocks);
      if k == r.k && z == size {
        ListPop(list, size, k, s.blocks);
      } else {
        ListSame(ListOf(s.free[k], z), z, k, s.blocks, p, Block(size, Out(r.k)));
      }
    }
  }

  /** The chunk is taken from the shared pool. */
  lemma TakeKeeps(s: State, r: Request)
    requires Inv(s) && r.k < |s.free| && !HasFree(s.free[r.k], AlignUp(r.n, Alignment))
    requires s.global.taken + AlignUp(r.n, Alignment) <= s.global.limit
    ensures Inv(Apply(s, r))
  {
    var size, s' := AlignUp(r.n, Alignment), Apply(s, r);
    if size > 0 {
      TiledMore(s.blocks, s.global.taken, Block(size, Out(r.k)));
    }
    forall k, z | 0 <= k < |s'.free| && 0 <= z
      ensures ListOk(ListOf(s'.free[k], z), z, k, s'.blocks)
    {
      assert ListOk(ListOf(s.free[k], z), z, k, s.blocks);
      if size > 0 {
        ListSame(ListOf(s.free[k], z), z, k, s.blocks, s.global.taken, Block(size, Out(r.k)));
      }
    }
  }

  /** The request fails, and what is left of the shared pool goes to a list. */
  lemma FailKeeps(s: State, r: Request)
    requires Inv(s) && r.k < |s.free| && !HasFree(s.free[r.k], AlignUp(r.n, Alignment))
    requires s.global.taken + AlignUp(r.n, Alignment) > s.global.limit
    ensures Inv(Apply(s, r))
  {
    var s' := Apply(s, r);
    var taken, rest := s.global.taken, s.global.limit - s.global.taken;
    if rest > 0 {
      TiledMore(s.blocks, taken, Block(rest, Listed(r.k)));
      forall k, z | 0 <= k < |s'.free| && 0 <= z
        ensures ListOk(ListOf(s'.free[k], z), z, k, s'.blocks)
      {
        assert ListOk(ListOf(s.free[k], z), z, k, s.blocks);
        if k == r.k && z == rest {
          ListPush(ListOf(s.free[k], z), z, k, s.blocks, taken);
        } else {
          ListSame(ListOf(s.free[k], z), z, k, s.blocks, taken, Block(rest, Listed(r.k)));
        }
      }
    } else {
      assert s'.free == s.free;
    }
  }

  lemma InvStep(s: State, r: Request)
    requires Inv(s) && r.k < |s.free|
    ensures Inv(Apply(s, r))
  {
    if HasFree(s.free[r.k], AlignUp(r.n, Alignment)) {
      ReuseKeeps(s, r);
    } else if s.global.taken + AlignUp(r.n, Alignment) <= s.global.limit {
      TakeKeeps(s, r);
    } else {
      FailKeeps(s, r);
    }
  }

  ghost predicate IsRun(s: State, run: seq<Request>, t: State)
    decreases |run|
  {
    if run == [] then t == s else run[0].k < |s.free| && IsRun(Apply(s, run[0]), run[1..], t)
  }

  lemma {:induction false} InvRun(s: State, run: seq<Request>, t: State)
    requires Inv(s) && IsRun(s, run, t)
    ensures Inv(t)
    decreases |run|
  {
    if run != [] {
      InvStep(s, run[0]);
      InvRun(Apply(s, run[0]), run[1..], t);
    }
  }

  // ----- what it means -----

  /** Byte b is in a chunk that has been handed out, or in a block of a list, which starts at p. */
  ghost predicate InPlace(s: State, p: nat, b: nat) {
    && InBlock(s.blocks, p, b)
    && match s.blocks[p].place
       case Out(_) => forall k, size :: 0 <= k < |s.free| && size in s.free[k] ==> p !in s.free[k][size]
       case Listed(k) => k < |s.free| && s.blocks[p].size in s.free[k] && p in s.free[k][s.blocks[p].size]
  }

  lemma PlaceOf(s: State, p: nat, b: nat)
    requires Inv(s) && InBlock(s.blocks, p, b)
    ensures InPlace(s, p, b)
  {
    var x := s.blocks[p];
    match x.place
    case Listed(k) => assert ListOk(ListOf(s.free[k], x.size), x.size, k, s.blocks);
    case Out(_) =>
      forall k, size | 0 <= k < |s.free| && size in s.free[k]
        ensures p !in s.free[k][size]
      {
        assert ListOk(ListOf(s.free[k], size), size, k, s.blocks);
      }
  }

  /**
   In every run, failures included: a byte has been taken from the shared pool if and only if it is in a
   chunk handed out or in a block of a free list, and it is in only one.
   */
  lemma Partition(limit: nat, nodes: nat, run: seq<Request>, s: State, b: nat)
    requires IsRun(Fresh(limit, nodes), run, s)
    ensures b < s.global.taken <==> exists p :: InPlace(s, p, b)
    ensures forall p, q :: InPlace(s, p, b) && InPlace(s, q, b) ==> p == q
  {
    FreshInv(limit, nodes);
    InvRun(Fresh(limit, nodes), run, s);
    if b < s.global.taken {
      assert Covered(s.blocks, b);
      var p :| InBlock(s.blocks, p, b);
      PlaceOf(s, p, b);
    }
  }

  /** A chunk that is out stays out. */
  lemma OutStays(s: State, r: Request, p: nat)
    requires Inv(s) && r.k < |s.free| && p in s.blocks && s.blocks[p].place.Out?
    ensures p in Apply(s, r).blocks && Apply(s, r).blocks[p] == s.blocks[p]
  {
    var size := AlignUp(r.n, Alignment);
    assert ListOk(ListOf(s.free[r.k], size), size, r.k, s.blocks);
  }

  lemma {:induction false} OutStaysRun(s: State, run: seq<Request>, t: State, p: nat)
    requires Inv(s) && IsRun(s, run, t) && p in s.blocks && s.blocks[p].place.Out?
    ensures p in t.blocks && t.blocks[p] == s.blocks[p]
    decreases |run|
  {
    if run != [] {
      InvStep(s, run[0]);
      OutStays(s, run[0], p);
      OutStaysRun(Apply(s, run[0]), run[1..], t, p);
    }
  }

  /** What is returned has been out at no time before. */
  lemma AnswerWasNotOut(s: State, r: Request)
    requires Inv(s) && r.k < |s.free| && Answer(s, r).0.Some? && AlignUp(r.n, Alignment) > 0
    ensures var p := Answer(s, r).0.value; p in s.blocks ==> !s.blocks[p].place.Out?
  {
    var size := AlignUp(r.n, Alignment);
    assert ListOk(ListOf(s.free[r.k], size), size, r.k, s.blocks);
    if HasFree(s.free[r.k], size) {
      assert Top(s.free[r.k], size) in ListOf(s.free[r.k], size);
    }
  }

  /** Two requests of a run, of the same node or of two, are never given a byte in common. */
  lemma NeverTwice(limit: nat, nodes: nat, run1: seq<Request>, s: State, r1: Request, run2: seq<Request>, t: State,
                   r2: Request)
    requires IsRun(Fresh(limit, nodes), run1, s) && r1.k < |s.free| && Answer(s, r1).0.Some?
    requires IsRun(Apply(s, r1), run2, t) && r2.k < |t.free| && Answer(t, r2).0.Some?
    ensures var p, q := Answer(s, r1).0.value, Answer(t, r2).0.value;
      p + AlignUp(r1.n, Alignment) <= q || q + AlignUp(r2.n, Alignment) <= p || r1.n == 0 || r2.n == 0
  {
    FreshInv(limit, nodes);
    InvRun(Fresh(limit, nodes), run1, s);
    InvStep(s, r1);
    InvRun(Apply(s, r1), run2, t);
    InvStep(t, r2);
    AlignUpLeast(r1.n, Alignment);
    AlignUpLeast(r2.n, Alignment);
    if r1.n > 0 && r2.n > 0 {
      var p, q := Answer(s, r1).0.value, Answer(t, r2).0.value;
      OutStaysRun(Apply(s, r1), run2, t, p);
      AnswerWasNotOut(t, r2);
      OutStays(t, r2, p);
      assert p in Apply(t, r2).blocks && q in Apply(t, r2).blocks && p != q;
    }
  }

  /** A request fails if and only if its node has no block of its size and the shared pool has not enough. */
  lemma FailsExactly(s: State, r: Request)
    requires r.k < |s.free|
    ensures Answer(s, r).0 == None <==>
      && ListOf(s.free[r.k], AlignUp(r.n, Alignment)) == []
      && s.global.taken + AlignUp(r.n, Alignment) > s.global.limit
  {
  }

  /** A failed request leaves the rest of the shared pool on a list. */
  lemma Parks(s: State, r: Request, rest: nat)
    requires r.k < |s.free| && Answer(s, r).0 == None && rest == s.global.limit - s.global.taken > 0
    requires ListOf(s.free[r.k], rest) == []
    ensures ListOf(Apply(s, r).free[r.k], rest) == [s.global.taken]
    ensures Apply(s, r).global == Global(s.global.limit, s.global.limit)
  {
  }

  /** The only block of its size comes from the list. */
  lemma TakesParked(s: State, r: Request, p: nat)
    requires r.k < |s.free| && AlignUp(r.n, Alignment) == r.n && ListOf(s.free[r.k], r.n) == [p]
    ensures Answer(s, r).0 == Some(p) && ListOf(Apply(s, r).free[r.k], r.n) == [] && Apply(s, r).global == s.global
  {
  }

  /** The rest of the shared pool that a failed request leaves on a list is handed out later, and only once. */
  lemma ParkedOnce(s: State, r: Request, rest: nat)
    requires Inv(s) && r.k < |s.free| && Answer(s, r).0 == None
    requires rest == s.global.limit - s.global.taken > 0 && rest % Alignment == 0 && ListOf(s.free[r.k], rest) == []
    ensures var again := Request(r.k, rest); var s1 := Apply(s, r); var s2 := Apply(s1, again);
      Answer(s1, again).0 == Some(s.global.taken) && Answer(s2, again).0 == None
  {
    var again := Request(r.k, rest);
    var s1 := Apply(s, r);
    var s2 := Apply(s1, again);
    AlignUpExact(rest, Alignment);
    Parks(s, r, rest);
    TakesParked(s1, again, s.global.taken);
    FailsExactly(s2, again);
  }
}
