/**
 The prime-mapp placement policy. Blocks of pages are dealt out in rounds of `Prime(nodes)`:
 the first `nodes` blocks of a round go to the nodes in order, the rest to the nodes in turn,
 continuing from round to round. The offset of a block at its home is computed by walking
 backwards to a block whose offset is known outright; `LocalOffset` is that walk, and what
 it computes is the rank of the block: the number of earlier blocks with the same home.
 */
module PrimeMapp {
  import opened Arith
  import opened Options
  import opened Placement

  function Prime(nodes: nat): (r: nat) {
    3 * nodes / 2
  }

  lemma PrimeFacts(nodes: nat)
    requires nodes > 0
    ensures nodes <= Prime(nodes) && (nodes > 1 ==> nodes < Prime(nodes)) && (nodes == 1 ==> Prime(nodes) == 1)
  {
  }

  /** The home of block `b`, as the source computes it. */
  function Home(nodes: nat, b: nat): (h: nat)
    requires nodes > 0
    ensures h < nodes
  {
    PrimeFacts(nodes);
    var prime := Prime(nodes);
    if b % prime >= nodes then ((b / prime) * (prime - nodes) + (b % prime - nodes)) % nodes
    else b % prime
  }

  /** How many of the first `b` blocks have home `h`. */
  function Count(nodes: nat, h: nat, b: nat): (r: nat)
    requires nodes > 0
  {
    if b == 0 then 0 else Count(nodes, h, b - 1) + if Home(nodes, b - 1) == h then 1 else 0
  }

  /** How many of the first `v` numbers are h modulo n. */
  function Congruent(n: nat, h: nat, v: nat): (r: nat)
    requires n > 0
  {
    if v == 0 then 0 else Congruent(n, h, v - 1) + if (v - 1) % n == h then 1 else 0
  }

  lemma {:induction false} CongruentClosed(n: nat, h: nat, v: nat, a: nat, t: nat)
    requires h < n && t < n && v == a * n + t
    ensures Congruent(n, h, v) == a + if h < t then 1 else 0
    decreases v
  {
    if t > 0 {
      CongruentClosed(n, h, v - 1, a, t - 1);
      DivModUnique(v - 1, n, a, t - 1);
    } else if a > 0 {
      MulAdd(a - 1, 1, n);
      CongruentClosed(n, h, v - 1, a - 1, n - 1);
      DivModUnique(v - 1, n, a - 1, n - 1);
    }
  }

  /** Which of the extra blocks, counted over all rounds, comes next at place `r` of round `q`. */
  function Extra(nodes: nat, q: nat, r: nat): (v: nat)
    requires nodes > 0
  {
    PrimeFacts(nodes);
    q * (Prime(nodes) - nodes) + if r > nodes then r - nodes else 0
  }

  /** The home of the block at place `r` of round `q`. */
  lemma HomeAt(nodes: nat, q: nat, r: nat)
    requires nodes > 0 && r < Prime(nodes)
    ensures Home(nodes, q * Prime(nodes) + r) == if r >= nodes then Extra(nodes, q, r) % nodes else r
  {
    DivModUnique(q * Prime(nodes) + r, Prime(nodes), q, r);
  }

  lemma ExtraNext(nodes: nat, q: nat, r: nat)
    requires nodes > 0 && r < Prime(nodes)
    ensures r + 1 < Prime(nodes) ==>
      Extra(nodes, q, r + 1) == Extra(nodes, q, r) + if r >= nodes then 1 else 0
    ensures r + 1 == Prime(nodes) ==>
      Extra(nodes, q + 1, 0) == Extra(nodes, q, r) + if r >= nodes then 1 else 0
  {
    PrimeFacts(nodes);
    MulAdd(q, 1, Prime(nodes) - nodes);
  }

  /** One block more at place `r` of round `q`, where `e` extra ones have come before. */
  lemma CountNext(nodes: nat, h: nat, b: nat, q: nat, r: nat, e: nat)
    requires nodes > 0 && h < nodes && Home(nodes, b) == (if r >= nodes then e % nodes else r)
    requires Count(nodes, h, b) == q + (if h < r then 1 else 0) + Congruent(nodes, h, e)
    ensures Count(nodes, h, b + 1) ==
      q + (if h < r + 1 then 1 else 0) + Congruent(nodes, h, e + if r >= nodes then 1 else 0)
  {
  }

  /** The count before the block at place `r` of round `q`. */
  function Closed(nodes: nat, h: nat, q: nat, r: nat): (n: nat)
    requires nodes > 0
  {
    q + (if h < r then 1 else 0) + Congruent(nodes, h, Extra(nodes, q, r))
  }

  lemma CountAfter(nodes: nat, h: nat, b: nat, q: nat, r: nat)
    requires nodes > 0 && h < nodes && r + 1 < Prime(nodes) && b == q * Prime(nodes) + r
    requires Count(nodes, h, b) == Closed(nodes, h, q, r)
    ensures Count(nodes, h, b + 1) == Closed(nodes, h, q, r + 1)
  {
    HomeAt(nodes, q, r);
    ExtraNext(nodes, q, r);
    CountNext(nodes, h, b, q, r, Extra(nodes, q, r));
  }

  lemma CountAfterRound(nodes: nat, h: nat, b: nat, q: nat, r: nat)
    requires nodes > 0 && h < nodes && r + 1 == Prime(nodes) && b == q * Prime(nodes) + r
    requires Count(nodes, h, b) == Closed(nodes, h, q, r)
    ensures Count(nodes, h, b + 1) == Closed(nodes, h, q + 1, 0)
  {
    PrimeFacts(nodes);
    HomeAt(nodes, q, r);
    ExtraNext(nodes, q, r);
    CountNext(nodes, h, b, q, r, Extra(nodes, q, r));
  }

  /** The closed form of the count: one block per full round, one in this round, and the extra ones. */
  lemma {:induction false} CountClosed(nodes: nat, h: nat, b: nat, q: nat, r: nat)
    requires nodes > 0 && h < nodes && r < Prime(nodes) && b == q * Prime(nodes) + r
    ensures Count(nodes, h, b) == q + (if h < r then 1 else 0) + Congruent(nodes, h, Extra(nodes, q, r))
    decreases b
  {
    var prime := Prime(nodes);
    PrimeFacts(nodes);
    if r > 0 {
      CountClosed(nodes, h, b - 1, q, r - 1);
      CountAfter(nodes, h, b - 1, q, r - 1);
    } else if q > 0 {
      MulAdd(q - 1, 1, prime);
      CountClosed(nodes, h, b - 1, q - 1, prime - 1);
      CountAfterRound(nodes, h, b - 1, q - 1, prime - 1);
    }
  }

  /** The rank of a block: how many earlier blocks have its home. */
  function Rank(nodes: nat, b: nat): (r: nat)
    requires nodes > 0
  {
    Count(nodes, Home(nodes, b), b)
  }

  /** The blocks whose rank the source takes to be b / nodes. */
  predicate Direct(nodes: nat, b: nat)
    requires nodes > 0
  {
    PrimeFacts(nodes);
    b <= nodes || b % Prime(nodes) >= nodes
  }

  lemma SmallDirectRank(nodes: nat, b: nat)
    requires nodes > 0 && b < nodes
    ensures Home(nodes, b) == b && Rank(nodes, b) == 0 == b / nodes
  {
    PrimeFacts(nodes);
    assert 0 * Prime(nodes) == 0 && 0 * nodes == 0;
    HomeAt(nodes, 0, b);
    CountClosed(nodes, b, b, 0, b);
    DivModUnique(b, nodes, 0, b);
  }

  /** The sum and the quotient behind the shortcut of the source. */
  lemma ExtraQuotient(nodes: nat, q: nat, r: nat)
    requires nodes > 0 && nodes <= r < Prime(nodes)
    ensures (q * Prime(nodes) + r) / nodes == q + 1 + Extra(nodes, q, r) / nodes
  {
    PrimeFacts(nodes);
    var v := Extra(nodes, q, r);
    var e := Prime(nodes) - nodes;
    assert q * (nodes + e) == q * nodes + q * e;
    MulAdd(q, 1, nodes);
    DivMod(v, nodes);
    QuotientOfSum(q * Prime(nodes) + r, nodes, q + 1, v / nodes, v % nodes);
  }

  lemma QuotientOfSum(x: nat, n: nat, a: nat, b: nat, t: nat)
    requires x == a * n + (b * n + t) && t < n
    ensures x / n == a + b
  {
    MulAdd(a, b, n);
    DivModUnique(x, n, a + b, t);
  }

  lemma CongruentSelf(n: nat, v: nat)
    requires n > 0
    ensures Congruent(n, v % n, v) == v / n
  {
    DivMod(v, n);
    CongruentClosed(n, v % n, v, v / n, v % n);
  }

  lemma ExtraDirectRank(nodes: nat, b: nat, q: nat, r: nat)
    requires nodes > 0 && nodes <= r < Prime(nodes) && b == q * Prime(nodes) + r
    ensures Rank(nodes, b) == b / nodes
  {
    var h := Home(nodes, b);
    assert h == Extra(nodes, q, r) % nodes by { HomeAt(nodes, q, r); }
    assert Count(nodes, h, b) == q + 1 + Congruent(nodes, h, Extra(nodes, q, r)) by { CountClosed(nodes, h, b, q, r); }
    assert b / nodes == q + 1 + Extra(nodes, q, r) / nodes by { ExtraQuotient(nodes, q, r); }
    CongruentSelf(nodes, Extra(nodes, q, r));
  }

  /** ... and it is. */
  lemma DirectRank(nodes: nat, b: nat)
    requires nodes > 0 && Direct(nodes, b)
    ensures Rank(nodes, b) == b / nodes
  {
    PrimeFacts(nodes);
    var prime := Prime(nodes);
    if b < nodes {
      SmallDirectRank(nodes, b);
    } else if b == nodes == 1 {
      SmallDirectRank(nodes, 0);
      assert Home(1, 1) == 0;
    } else {
      if b == nodes {
        DivModUnique(b, prime, 0, b);
      }
      DivMod(b, prime);
      ExtraDirectRank(nodes, b, b / prime, b % prime);
    }
  }

  /** homenode() of the address x. */
  function HomeNode(nodes: nat, page: nat, pageblock: nat, x: nat): (h: nat)
    requires nodes > 0 && WholePages(page, pageblock)
    ensures h == Home(nodes, x / pageblock)
  {
    AddressParts(x, page, pageblock, x / page * page);
    Home(nodes, x / page * page / pageblock)
  }

  /** Where address x lies at its home: its block goes after the earlier blocks of that home. */
  function Offset(nodes: nat, pageblock: nat, x: nat): (r: nat)
    requires nodes > 0 && pageblock > 0
  {
    Placed(Rank(nodes, x / pageblock), pageblock, x % pageblock)
  }

  /** The block a home owns in the first `nodes`: where every backward walk ends at the latest. */
  lemma WalkStops(nodes: nat, b: nat)
    requires nodes > 0 && !(b < nodes) && !(b % Prime(nodes) >= nodes)
    ensures Home(nodes, b) < b && Home(nodes, Home(nodes, b)) == Home(nodes, b)
  {
    PrimeFacts(nodes);
    SmallDirectRank(nodes, Home(nodes, b));
  }

  /** Comparing an address inside block j with the end of the first `nodes` blocks. */
  lemma WithinFirst(nodes: nat, pageblock: nat, j: nat, y: nat)
    requires y < pageblock
    ensures j * pageblock + y <= nodes * pageblock <==> j < nodes || (j == nodes && y == 0)
  {
    if j < nodes {
      MulMono(j + 1, nodes, pageblock);
      MulAdd(j, 1, pageblock);
    } else {
      MulMono(nodes, j, pageblock);
      if j > nodes {
        MulMono(nodes + 1, j, pageblock);
        MulAdd(nodes, 1, pageblock);
      }
    }
  }

  /** Everything the walk reads off an address of block j. */
  lemma AtBlock(nodes: nat, page: nat, pageblock: nat, addr: nat, j: nat, y: nat)
    requires nodes > 0 && WholePages(page, pageblock) && y < pageblock && addr == j * pageblock + y
    ensures addr / pageblock == j && addr % pageblock == y
    ensures HomeNode(nodes, page, pageblock, addr) == Home(nodes, j)
    ensures addr <= nodes * pageblock <==> j < nodes || (j == nodes && y == 0)
  {
    DivModUnique(addr, pageblock, j, y);
    WithinFirst(nodes, pageblock, j, y);
  }

  /** The block where the walk stops gives the rank of the block where it began. */
  lemma WalkEnd(nodes: nat, b: nat, j: nat, homecounter: nat, pageblock: nat)
    requires nodes > 0 && Direct(nodes, j) && Rank(nodes, b) == Count(nodes, Home(nodes, j), j) + homecounter
    ensures j / nodes * pageblock + homecounter * pageblock == Rank(nodes, b) * pageblock
  {
    assert Rank(nodes, b) == j / nodes + homecounter by { DirectRank(nodes, j); }
    MulAdd(j / nodes, homecounter, pageblock);
  }

  lemma BlockBefore(j: nat, pageblock: nat, y: nat)
    requires j > 0
    ensures j * pageblock + y - pageblock == (j - 1) * pageblock + y >= 0
  {
    MulAdd(j - 1, 1, pageblock);
  }

  /**
   The loop of local_offset(), from block b backwards: the blocks of the same home are counted
   until one of them has a known place.
   */
  method WalkBack(nodes: nat, page: nat, pageblock: nat, start: nat, realhome: nat, ghost b: nat, ghost y: nat)
    returns (offset: int)
    requires nodes > 0 && WholePages(page, pageblock) && y < pageblock && start == b * pageblock + y
    requires realhome == Home(nodes, b) < b && Home(nodes, realhome) == realhome
    ensures offset == Rank(nodes, b) * pageblock + y
  {
    PrimeFacts(nodes);
    var prime := Prime(nodes);
    var homecounter := 0;
    ghost var j := b - 1;
    BlockBefore(b, pageblock, y);
    var addr := start - pageblock;
    while true
      invariant realhome <= j < b && addr == j * pageblock + y
      invariant Rank(nodes, b) == Count(nodes, realhome, j + 1) + homecounter
      decreases j
    {
      AtBlock(nodes, page, pageblock, addr, j, y);
      var pagenum := addr / pageblock;
      var currhome := HomeNode(nodes, page, pageblock, addr);
      homecounter := homecounter + if currhome == realhome then 1 else 0;
      if (addr <= nodes * pageblock && currhome == realhome) || (pagenum % prime >= nodes && currhome == realhome) {
        WalkEnd(nodes, b, j, homecounter, pageblock);
        offset := pagenum / nodes * pageblock + addr % pageblock;
        offset := offset + homecounter * pageblock;
        return;
      }
      BlockBefore(j, pageblock, y);
      addr := addr - pageblock;
      j := j - 1;
    }
  }

  /** local_offset(); `None` is the exception of the range check. */
  method LocalOffset(nodes: nat, page: nat, pageblock: nat, sizePerNode: nat, x: nat) returns (r: Option<nat>)
    requires nodes > 0 && WholePages(page, pageblock)
    ensures r == InShare(Offset(nodes, pageblock, x), sizePerNode)
  {
    PrimeFacts(nodes);
    var prime := Prime(nodes);
    var drift := x % page;
    var addr := x / page * page;
    var pagenum := addr / pageblock;
    AddressParts(x, page, pageblock, addr);
    ghost var b, y := pagenum, addr % pageblock;
    AtBlock(nodes, page, pageblock, addr, b, y);
    var offset: int;
    if addr <= nodes * pageblock || pagenum % prime >= nodes {
      DirectRank(nodes, b);
      offset := pagenum / nodes * pageblock + addr % pageblock + drift;
    } else {
      WalkStops(nodes, b);
      var realhome := HomeNode(nodes, page, pageblock, x);
      offset := WalkBack(nodes, page, pageblock, addr, realhome, b, y);
      offset := offset + drift;
    }
    assert offset == Offset(nodes, pageblock, x);
    if offset >= sizePerNode {
      r := None;
    } else {
      r := Some(offset);
    }
  }

  lemma {:induction false} CountGrows(nodes: nat, h: nat, a: nat, b: nat)
    requires nodes > 0 && a <= b
    ensures Count(nodes, h, a) <= Count(nodes, h, b)
    decreases b
  {
    if a < b {
      CountGrows(nodes, h, a, b - 1);
    }
  }

  /** The k-th block of a home, among the first b. */
  lemma {:induction false} Select(nodes: nat, h: nat, k: nat, b: nat) returns (j: nat)
    requires nodes > 0 && k < Count(nodes, h, b)
    ensures j < b && Home(nodes, j) == h && Rank(nodes, j) == k
    decreases b
  {
    if Count(nodes, h, b - 1) == k {
      j := b - 1;
    } else {
      j := Select(nodes, h, k, b - 1);
    }
  }

  lemma RankInjective(nodes: nat, i: nat, j: nat)
    requires nodes > 0 && Home(nodes, i) == Home(nodes, j) && Rank(nodes, i) == Rank(nodes, j)
    ensures i == j
  {
    if i < j {
      CountGrows(nodes, Home(nodes, i), i + 1, j);
    } else if j < i {
      CountGrows(nodes, Home(nodes, i), j + 1, i);
    }
  }

  /** After q whole rounds whose extra blocks come to `extra` for each node. */
  lemma RoundsCount(nodes: nat, h: nat, q: nat, extra: nat)
    requires nodes > 0 && h < nodes && Extra(nodes, q, 0) == extra * nodes
    ensures Count(nodes, h, q * Prime(nodes)) == q + extra
  {
    PrimeFacts(nodes);
    CountClosed(nodes, h, q * Prime(nodes), q, 0);
    CongruentClosed(nodes, h, extra * nodes, extra, 0);
  }

  /** Over `nodes` rounds, or a multiple of that, every node is given the same number of blocks. */
  lemma FullCount(nodes: nat, h: nat, m: nat)
    requires nodes > 0 && h < nodes
    ensures Count(nodes, h, m * nodes * Prime(nodes)) == m * Prime(nodes)
  {
    PrimeFacts(nodes);
    FullExtra(m, nodes, Prime(nodes) - nodes);
    RoundsCount(nodes, h, m * nodes, m * (Prime(nodes) - nodes));
  }

  lemma FullExtra(m: nat, nodes: nat, e: nat)
    ensures (m * nodes) * e == (m * e) * nodes
    ensures m * (nodes + e) == m * nodes + m * e
  {
  }

  lemma RankWithin(nodes: nat, m: nat, b: nat)
    requires nodes > 0 && b < m * nodes * Prime(nodes)
    ensures Rank(nodes, b) < m * Prime(nodes)
  {
    FullCount(nodes, Home(nodes, b), m);
    CountGrows(nodes, Home(nodes, b), b + 1, m * nodes * Prime(nodes));
  }

  /** The blocks of m * nodes rounds and the block places of the nodes correspond one to one. */
  lemma BlocksOneToOne(nodes: nat, m: nat)
    requires nodes > 0
    ensures OneToOne((b: nat) => Home(nodes, b), (b: nat) => Rank(nodes, b),
                     m * nodes * Prime(nodes), nodes, m * Prime(nodes))
  {
    var blocks, places := m * nodes * Prime(nodes), m * Prime(nodes);
    var home, rank := (b: nat) => Home(nodes, b), (b: nat) => Rank(nodes, b);
    forall b: nat | b < blocks
      ensures home(b) < nodes && rank(b) < places
    {
      RankWithin(nodes, m, b);
    }
    forall i: nat, j: nat | i < blocks && j < blocks && home(i) == home(j) && rank(i) == rank(j)
      ensures i == j
    {
      RankInjective(nodes, i, j);
    }
    forall h: nat, k: nat | h < nodes && k < places
      ensures Hit(home, rank, blocks, h, k)
    {
      FullCount(nodes, h, m);
      var b := Select(nodes, h, k, blocks);
      assert home(b) == h && rank(b) == k;
    }
  }
}
