/**
 How the size of the global memory is chosen at start-up, and why that makes the placement
 policies exact: no address is out of range, no two share a place, and no place is left over.
 */
module MemorySize {
  import opened Arith
  import opened Placement
  import Skew = SkewMapp
  import Prime = PrimeMapp
  import FirstTouch

  datatype Policy = Naive | Cyclic | SkewMapp | PrimeMapp | FirstTouchPolicy

  const PageSize: nat := 4096
  const CacheLine: nat := 1

  function AlignForwards(offset: nat, size: nat): (r: nat)
    requires size > 0
  {
    if offset == 0 then offset else (1 + (offset - 1) / size) * size
  }

  /** The least multiple of `size` that is not below `offset`. */
  lemma AlignForwardsLeast(offset: nat, size: nat, m: nat)
    requires size > 0
    ensures AlignForwards(offset, size) % size == 0
    ensures offset <= m * size <==> AlignForwards(offset, size) <= m * size
  {
    if offset == 0 {
      DivModUnique(0, size, 0, 0);
    } else {
      var q := 1 + (offset - 1) / size;
      DivModUnique(q * size, size, q, 0);
      InBlock(offset - 1, size, m);
      InBlock(offset - 1, size, q);
      if q <= m {
        MulMono(q, m, size);
      } else {
        MulMono(m + 1, q, size);
        MulAdd(m, 1, size);
      }
    }
  }

  lemma AlignForwardsFits(offset: nat, size: nat) returns (m: nat)
    requires size > 0
    ensures AlignForwards(offset, size) == m * size >= offset
  {
    m := AlignForwards(offset, size) / size;
    AlignForwardsLeast(offset, size, m);
    DivMod(AlignForwards(offset, size), size);
  }

  function PolicyPadding(policy: Policy, nodes: nat, block: nat): (r: nat) {
    var padding := if policy.Cyclic? || policy.SkewMapp? || policy.PrimeMapp? then block else 1;
    padding * if policy.PrimeMapp? then 3 * nodes / 2 else 1
  }

  lemma PaddingPositive(policy: Policy, nodes: nat, block: nat)
    requires nodes > 0 && block > 0
    ensures PolicyPadding(policy, nodes, block) > 0
  {
    Prime.PrimeFacts(nodes);
    MulMono(1, block, Prime.Prime(nodes));
  }

  /** The memory is a multiple of this. */
  function Unit(policy: Policy, nodes: nat, block: nat): (r: nat)
    requires nodes > 0 && block > 0
    ensures r > 0
  {
    PaddingPositive(policy, nodes, block);
    MulMono(1, PageSize * CacheLine * nodes, PolicyPadding(policy, nodes, block));
    PageSize * CacheLine * nodes * PolicyPadding(policy, nodes, block)
  }

  function ArgoSize(policy: Policy, nodes: nat, block: nat, requested: nat): (r: nat)
    requires nodes > 0 && block > 0
  {
    AlignForwards(if requested < PageSize * nodes then PageSize * nodes else requested, Unit(policy, nodes, block))
  }

  lemma ArgoSizeFits(policy: Policy, nodes: nat, block: nat, requested: nat) returns (m: nat)
    requires nodes > 0 && block > 0
    ensures ArgoSize(policy, nodes, block, requested) == m * Unit(policy, nodes, block)
    ensures ArgoSize(policy, nodes, block, requested) >= requested
  {
    m := AlignForwardsFits(if requested < PageSize * nodes then PageSize * nodes else requested,
                           Unit(policy, nodes, block));
  }

  /** No smaller multiple of the unit holds what is requested and a page for every node. */
  lemma ArgoSizeLeast(policy: Policy, nodes: nat, block: nat, requested: nat, m: nat)
    requires nodes > 0 && block > 0
    ensures m * Unit(policy, nodes, block) >= requested && m * Unit(policy, nodes, block) >= PageSize * nodes
      <==> m * Unit(policy, nodes, block) >= ArgoSize(policy, nodes, block, requested)
  {
    AlignForwardsLeast(if requested < PageSize * nodes then PageSize * nodes else requested,
                       Unit(policy, nodes, block), m);
  }

  /** The same product, as blocks of the memory and as blocks of one share. */
  lemma Regroup(m: nat, page: nat, nodes: nat, block: nat, prime: nat)
    requires nodes > 0
    ensures m * (page * nodes * (block * prime)) == (m * nodes * prime) * (block * page)
    ensures m * (page * nodes * (block * prime)) == (m * prime * (block * page)) * nodes
    ensures m * (page * nodes * (block * prime)) / nodes == m * prime * (block * page)
  {
    assert m * (page * nodes * (block * prime)) == (m * prime * (block * page)) * nodes;
    DivModUnique(m * (page * nodes * (block * prime)), nodes, m * prime * (block * page), 0);
  }

  /**
   Prime-mapp maps the memory one to one onto the shares of the nodes, whatever the number of
   nodes, the block size and the requested size; so its range checks never fail.
   */
  lemma PrimePlacement(nodes: nat, block: nat, requested: nat)
    requires nodes > 0 && block > 0
    ensures WholePages(PageSize, block * PageSize)
    ensures OneToOne((x: nat) => Prime.HomeNode(nodes, PageSize, block * PageSize, x),
                     (x: nat) => Prime.Offset(nodes, block * PageSize, x),
                     ArgoSize(PrimeMapp, nodes, block, requested), nodes,
                     ArgoSize(PrimeMapp, nodes, block, requested) / nodes)
    ensures forall x: nat :: x < ArgoSize(PrimeMapp, nodes, block, requested) ==>
      InShare(Prime.Offset(nodes, block * PageSize, x), ArgoSize(PrimeMapp, nodes, block, requested) / nodes).Some?
  {
    var pageblock, size := block * PageSize, ArgoSize(PrimeMapp, nodes, block, requested);
    DivModUnique(pageblock, PageSize, block, 0);
    var homeB := (x: nat) => Prime.HomeNode(nodes, PageSize, pageblock, x);
    var placeB := (x: nat) => Prime.Offset(nodes, pageblock, x);
    var home, rank := (b: nat) => Prime.Home(nodes, b), (b: nat) => Prime.Rank(nodes, b);
    var m := ArgoSizeFits(PrimeMapp, nodes, block, requested);
    Regroup(m, PageSize, nodes, block, Prime.Prime(nodes));
    Prime.BlocksOneToOne(nodes, m);
    assert ByBlocks(home, rank, homeB, placeB, pageblock);
    BlocksToBytes(home, rank, homeB, placeB, pageblock, m * nodes * Prime.Prime(nodes), nodes, m * Prime.Prime(nodes));
    forall x: nat | x < size
      ensures InShare(Prime.Offset(nodes, pageblock, x), size / nodes).Some?
    {
      assert placeB(x) < size / nodes;
    }
  }

  /** The same for skew-mapp. */
  lemma SkewPlacement(nodes: nat, block: nat, requested: nat)
    requires nodes > 0 && block > 0
    ensures WholePages(PageSize, block * PageSize)
    ensures OneToOne((x: nat) => Skew.HomeNode(nodes, PageSize, block * PageSize, x),
                     (x: nat) => Skew.Offset(nodes, block * PageSize, x),
                     ArgoSize(SkewMapp, nodes, block, requested), nodes,
                     ArgoSize(SkewMapp, nodes, block, requested) / nodes)
    ensures forall x: nat :: x < ArgoSize(SkewMapp, nodes, block, requested) ==>
      Skew.LocalOffset(nodes, PageSize, block * PageSize, ArgoSize(SkewMapp, nodes, block, requested) / nodes, x).Some?
  {
    var pageblock, size := block * PageSize, ArgoSize(SkewMapp, nodes, block, requested);
    DivModUnique(pageblock, PageSize, block, 0);
    var homeB := (x: nat) => Skew.HomeNode(nodes, PageSize, pageblock, x);
    var placeB := (x: nat) => Skew.Offset(nodes, pageblock, x);
    var home, round := (b: nat) => Skew.Home(nodes, b), (b: nat) => Skew.Round(nodes, b);
    var m := ArgoSizeFits(SkewMapp, nodes, block, requested);
    Regroup(m, PageSize, nodes, block, 1);
    Skew.BlocksOneToOne(nodes, m);
    assert ByBlocks(home, round, homeB, placeB, pageblock);
    BlocksToBytes(home, round, homeB, placeB, pageblock, m * nodes, nodes, m);
    forall x: nat | x < size
      ensures Skew.LocalOffset(nodes, PageSize, pageblock, size / nodes, x).Some?
    {
      assert placeB(x) < size / nodes;
    }
  }

  /** The sizes that first-touch placement starts from. */
  lemma FirstTouchSizes(nodes: nat, block: nat, requested: nat)
    requires nodes > 0 && block > 0
    ensures var size := ArgoSize(FirstTouchPolicy, nodes, block, requested);
      FirstTouch.ValidConfig(FirstTouch.Config(nodes, size / PageSize, size / nodes / PageSize))
  {
    var size := ArgoSize(FirstTouchPolicy, nodes, block, requested);
    var m := ArgoSizeFits(FirstTouchPolicy, nodes, block, requested);
    Regroup(m, PageSize, nodes, 1, 1);
    DivModUnique(m * PageSize, PageSize, m, 0);
    DivModUnique(m * nodes * PageSize, PageSize, m * nodes, 0);
  }
}
