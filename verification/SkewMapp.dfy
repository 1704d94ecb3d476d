/**
 The skew-mapp placement policy: blocks are dealt out cyclically, with one node skipped in
 every round.
 */
module SkewMapp {
  import opened Arith
  import opened Options
  import opened Placement

  function Home(nodes: nat, b: nat): (h: nat)
    requires nodes > 0
    ensures h < nodes
  {
    (b + b / nodes + 1) % nodes
  }

  function Round(nodes: nat, b: nat): (q: nat)
    requires nodes > 0
  {
    b / nodes
  }

  /** homenode() of the address x. */
  function HomeNode(nodes: nat, page: nat, pageblock: nat, x: nat): (h: nat)
    requires nodes > 0 && WholePages(page, pageblock)
    ensures h == Home(nodes, x / pageblock)
  {
    AddressParts(x, page, pageblock, x / page * page);
    Home(nodes, x / page * page / pageblock)
  }

  /** Where address x lies at its home: one block for every round before. */
  function Offset(nodes: nat, pageblock: nat, x: nat): (r: nat)
    requires nodes > 0 && pageblock > 0
  {
    Placed(Round(nodes, x / pageblock), pageblock, x % pageblock)
  }

  /** local_offset(); `None` is the exception of the range check. */
  function LocalOffset(nodes: nat, page: nat, pageblock: nat, sizePerNode: nat, x: nat): (r: Option<nat>)
    requires nodes > 0 && WholePages(page, pageblock)
    ensures r == InShare(Offset(nodes, pageblock, x), sizePerNode)
  {
    var drift := x % page;
    var addr := x / page * page;
    AddressParts(x, page, pageblock, addr);
    var block: nat := addr / pageblock;
    DivMod(block, nodes);
    var round: nat := Round(nodes, block);
    var offset := Placed(round, pageblock, addr % pageblock + drift);
    if offset >= sizePerNode then None else Some(offset)
  }

  /** The place in its round that gives a block of round q the home h. */
  function Column(nodes: nat, q: nat, h: nat): (r: nat)
    requires h < nodes
    ensures r < nodes
  {
    var skip := (q + 1) % nodes;
    if h >= skip then h - skip else h + nodes - skip
  }

  lemma ColumnHome(nodes: nat, q: nat, r: nat, h: nat)
    requires r < nodes && h < nodes
    ensures (q * nodes + r) / nodes == q
    ensures Home(nodes, q * nodes + r) == h <==> r == Column(nodes, q, h)
  {
    var skip := (q + 1) % nodes;
    DivModUnique(q * nodes + r, nodes, q, r);
    DivMod(q + 1, nodes);
    var rounds := q + (q + 1) / nodes;
    MulAdd(q, (q + 1) / nodes, nodes);
    assert q * nodes + r + q + 1 == rounds * nodes + (r + skip);
    if r + skip < nodes {
      DivModUnique(q * nodes + r + q + 1, nodes, rounds, r + skip);
    } else {
      MulAdd(rounds, 1, nodes);
      DivModUnique(q * nodes + r + q + 1, nodes, rounds + 1, r + skip - nodes);
    }
  }

  lemma ColumnOf(nodes: nat, i: nat)
    requires nodes > 0
    ensures i % nodes == Column(nodes, i / nodes, Home(nodes, i))
  {
    DivMod(i, nodes);
    ColumnHome(nodes, i / nodes, i % nodes, Home(nodes, i));
  }

  lemma HomeInjective(nodes: nat, i: nat, j: nat)
    requires nodes > 0 && Home(nodes, i) == Home(nodes, j) && i / nodes == j / nodes
    ensures i == j
  {
    assert i % nodes == j % nodes by { ColumnOf(nodes, i); ColumnOf(nodes, j); }
    DivMod(i, nodes);
    DivMod(j, nodes);
  }

  lemma BlockAt(nodes: nat, rounds: nat, h: nat, q: nat) returns (b: nat)
    requires h < nodes && q < rounds
    ensures b < rounds * nodes && Home(nodes, b) == h && b / nodes == q
  {
    b := q * nodes + Column(nodes, q, h);
    ColumnHome(nodes, q, Column(nodes, q, h), h);
    InBlock(b, nodes, rounds);
  }

  lemma BlocksOneToOne(nodes: nat, rounds: nat)
    requires nodes > 0
    ensures OneToOne((b: nat) => Home(nodes, b), (b: nat) => Round(nodes, b), rounds * nodes, nodes, rounds)
  {
    var home, round := (b: nat) => Home(nodes, b), (b: nat) => Round(nodes, b);
    forall b: nat | b < rounds * nodes
      ensures home(b) < nodes && round(b) < rounds
    {
      InBlock(b, nodes, rounds);
    }
    forall i: nat, j: nat |
      i < rounds * nodes && j < rounds * nodes && home(i) == home(j) && round(i) == round(j)
      ensures i == j
    {
      HomeInjective(nodes, i, j);
    }
    forall h: nat, q: nat | h < nodes && q < rounds
      ensures Hit(home, round, rounds * nodes, h, q)
    {
      var b := BlockAt(nodes, rounds, h, q);
      assert home(b) == h && round(b) == q;
    }
  }
}
