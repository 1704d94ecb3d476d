/**
 What every placement policy is for: to give each address of the global memory a home and an
 offset there so that the memories of the nodes are used exactly once.
 */
module Placement {
  import opened Arith
  import opened Options

  /** `pageblock` is a number of whole pages: allocation_block_size() * granularity. */
  predicate WholePages(page: nat, pageblock: nat) {
    page > 0 && pageblock > 0 && pageblock % page == 0
  }

  lemma AddressParts(x: nat, page: nat, pageblock: nat, addr: nat)
    requires WholePages(page, pageblock) && addr == x / page * page
    ensures addr / pageblock == x / pageblock
    ensures addr % pageblock + x % page == x % pageblock
    ensures addr == x / pageblock * pageblock + addr % pageblock
  {
    DivMod(pageblock, page);
    NestedDivision(x, page, pageblock / page);
    DivMod(addr, pageblock);
  }

  /** Byte `y` of the block that goes after `rank` others. */
  function Placed(rank: nat, pageblock: nat, y: nat): (offset: nat) {
    rank * pageblock + y
  }

  /** The range check that ends every local_offset(). */
  function InShare(offset: nat, sizePerNode: nat): (r: Option<nat>) {
    if offset >= sizePerNode then None else Some(offset)
  }

  /** [0, size) corresponds one to one with nodes * [0, share) by way of (home, place). */
  ghost predicate OneToOne(home: nat -> nat, place: nat -> nat, size: nat, nodes: nat, share: nat) {
    Within(home, place, size, nodes, share) && Apart(home, place, size) && Onto(home, place, size, nodes, share)
  }

  ghost predicate Within(home: nat -> nat, place: nat -> nat, size: nat, nodes: nat, share: nat) {
    forall x: nat :: x < size ==> home(x) < nodes && place(x) < share
  }

  ghost predicate Apart(home: nat -> nat, place: nat -> nat, size: nat) {
    forall x: nat, y: nat ::
      x < size && y < size && home(x) == home(y) && place(x) == place(y) ==> x == y
  }

  ghost predicate Onto(home: nat -> nat, place: nat -> nat, size: nat, nodes: nat, share: nat) {
    forall h: nat, k: nat :: h < nodes && k < share ==> Hit(home, place, size, h, k)
  }

  ghost predicate Hit(home: nat -> nat, place: nat -> nat, size: nat, h: nat, k: nat) {
    exists x: nat :: x < size && home(x) == h && place(x) == k
  }

  /** `homeB`, `placeB` place bytes the way `home`, `place` place blocks of `block` bytes. */
  ghost predicate ByBlocks(home: nat -> nat, place: nat -> nat, homeB: nat -> nat, placeB: nat -> nat, block: nat) {
    block > 0 && forall x: nat ::
      homeB(x) == home(x / block) && placeB(x) == place(x / block) * block + x % block
  }

  lemma InBlock(x: nat, block: nat, blocks: nat)
    requires block > 0
    ensures x < blocks * block <==> x / block < blocks
  {
    DivMod(x, block);
    if x / block < blocks {
      MulMono(x / block + 1, blocks, block);
      MulAdd(x / block, 1, block);
    } else {
      MulMono(blocks, x / block, block);
    }
  }

  /** A place is in the share exactly when its block is, and it is taken apart again by division. */
  lemma PlacedByte(rank: nat, block: nat, y: nat, share: nat)
    requires y < block
    ensures (rank * block + y) / block == rank && (rank * block + y) % block == y
    ensures rank * block + y < share * block <==> rank < share
  {
    DivModUnique(rank * block + y, block, rank, y);
    InBlock(rank * block + y, block, share);
  }

  lemma WithinByte(home: nat -> nat, place: nat -> nat, homeB: nat -> nat, placeB: nat -> nat,
                   block: nat, blocks: nat, nodes: nat, share: nat, x: nat)
    requires Within(home, place, blocks, nodes, share) && ByBlocks(home, place, homeB, placeB, block)
    requires x < blocks * block
    ensures homeB(x) < nodes && placeB(x) < share * block
  {
    assert x / block < blocks by { InBlock(x, block, blocks); }
    PlacedByte(place(x / block), block, x % block, share);
  }

  lemma SamePlace(a: nat, b: nat, block: nat, u: nat, v: nat)
    requires u < block && v < block && a * block + u == b * block + v
    ensures a == b && u == v
  {
    PlacedByte(a, block, u, 0);
    PlacedByte(b, block, v, 0);
  }

  /** Byte u of block i. */
  lemma ByteOf(home: nat -> nat, place: nat -> nat, homeB: nat -> nat, placeB: nat -> nat,
               block: nat, blocks: nat, x: nat)
    returns (i: nat, u: nat)
    requires ByBlocks(home, place, homeB, placeB, block) && x < blocks * block
    ensures x == i * block + u && u < block && i < blocks
    ensures homeB(x) == home(i) && placeB(x) == place(i) * block + u
  {
    i, u := x / block, x % block;
    DivMod(x, block);
    InBlock(x, block, blocks);
  }

  lemma ApartAt(home: nat -> nat, place: nat -> nat, block: nat, blocks: nat, i: nat, u: nat, j: nat, v: nat)
    requires Apart(home, place, blocks) && i < blocks && j < blocks && u < block && v < block
    requires home(i) == home(j) && place(i) * block + u == place(j) * block + v
    ensures i == j && u == v
  {
    SamePlace(place(i), place(j), block, u, v);
  }

  lemma HitByte(home: nat -> nat, place: nat -> nat, homeB: nat -> nat, placeB: nat -> nat,
                block: nat, blocks: nat, nodes: nat, share: nat, h: nat, k: nat)
    requires OneToOne(home, place, blocks, nodes, share) && ByBlocks(home, place, homeB, placeB, block)
    requires h < nodes && k < share * block
    ensures Hit(homeB, placeB, blocks * block, h, k)
  {
    InBlock(k, block, share);
    assert Hit(home, place, blocks, h, k / block);
    var b: nat :| b < blocks && home(b) == h && place(b) == k / block;
    var x := b * block + k % block;
    DivModUnique(x, block, b, k % block);
    InBlock(x, block, blocks);
    DivMod(k, block);
    assert homeB(x) == h && placeB(x) == k;
  }

  /** A correspondence of blocks is one of bytes. */
  lemma BlocksToBytes(home: nat -> nat, place: nat -> nat, homeB: nat -> nat, placeB: nat -> nat,
                      block: nat, blocks: nat, nodes: nat, share: nat)
    requires OneToOne(home, place, blocks, nodes, share) && ByBlocks(home, place, homeB, placeB, block)
    ensures OneToOne(homeB, placeB, blocks * block, nodes, share * block)
  {
    var bytes := blocks * block;
    forall x: nat | x < bytes
      ensures homeB(x) < nodes && placeB(x) < share * block
    {
      WithinByte(home, place, homeB, placeB, block, blocks, nodes, share, x);
    }
    forall x: nat, y: nat | x < bytes && y < bytes && homeB(x) == homeB(y) && placeB(x) == placeB(y)
      ensures x == y
    {
      var i, u := ByteOf(home, place, homeB, placeB, block, blocks, x);
      var j, v := ByteOf(home, place, homeB, placeB, block, blocks, y);
      ApartAt(home, place, block, blocks, i, u, j, v);
    }
    forall h: nat, k: nat | h < nodes && k < share * block
      ensures Hit(homeB, placeB, bytes, h, k)
    {
      HitByte(home, place, homeB, placeB, block, blocks, nodes, share, h, k);
    }
  }
}
