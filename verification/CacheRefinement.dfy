/**
 The cache of a node carries out the page protocol: what each operation of `NodeCache` does
 to a page is the step the protocol takes for that page, and other pages do not move.
 */
module CacheRefinement {
  import opened PageProtocol
  import opened NodeCache

  /** Page `p` of the cache of node `k` is in the state `g` of the page protocol. */
  ghost predicate Shows(s: CacheState, p: nat, c: Config, g: State, k: Node) {
    && WellFormed(c, g) && Remote(c, k) && |s.slots| > 0 && p < |s.home| == |s.prot|
    && g.node[k].copy == CopyIn(s.slots, p) && g.node[k].prot == s.prot[p] && g.memory == s.home[p]
  }

  ghost predicate Rests(g: State, k: Node)
    requires k < |g.node|
  {
    g.node[k].mode.Running? && g.node[k].op.Idle?
  }

  /** Writing back the oldest dirty slot is the WriteBack step of the page in it, and no step of any other page. */
  lemma PopIsWriteBack(s: CacheState, p: nat, c: Config, g: State, k: Node)
    requires Agreed(s, c.size) && s.buffer != [] && Shows(s, p, c, g, k)
    ensures CopyIn(s.slots, p).Dirty? && p % |s.slots| == s.buffer[0] && Rests(g, k)
      ==> Enabled(c, g, WriteBack(k)) && Shows(Pop(s, c.size), p, c, Apply(c, g, WriteBack(k)), k)
    ensures !CopyIn(s.slots, p).Dirty? || p % |s.slots| != s.buffer[0] ==> Shows(Pop(s, c.size), p, c, g, k)
  {
    PopWrites(s, c.size);
    var t := Pop(s, c.size);
    assert s.prot[p] == ProtOf(CopyIn(s.slots, p)) && t.prot[p] == ProtOf(CopyIn(t.slots, p));
  }

  /** So is flushing the n oldest, which is what a full buffer does while a handler is in flight for another page. */
  lemma FlushIsWriteBacks(s: CacheState, n: nat, p: nat, c: Config, g: State, k: Node)
    requires Agreed(s, c.size) && n <= |s.buffer| && Shows(s, p, c, g, k)
    ensures CopyIn(s.slots, p).Dirty? && p % |s.slots| in s.buffer[..n] && Rests(g, k)
      ==> Enabled(c, g, WriteBack(k)) && Shows(FlushFront(s, n, c.size), p, c, Apply(c, g, WriteBack(k)), k)
    ensures !CopyIn(s.slots, p).Dirty? || p % |s.slots| !in s.buffer[..n]
      ==> Shows(FlushFront(s, n, c.size), p, c, g, k)
  {
    FlushFrontWrites(s, n, c.size);
    var t := FlushFront(s, n, c.size);
    assert s.prot[p] == ProtOf(CopyIn(s.slots, p)) && t.prot[p] == ProtOf(CopyIn(t.slots, p));
  }

  /** Joining the buffer at the end of a write miss is the WriteFinish step. */
  lemma MarkDirtyIsWriteFinish(s: CacheState, i: nat, p: nat, c: Config, g: State, k: Node)
    requires Agreed(s, c.size) && i < |s.slots| && s.slots[i].valid && !s.slots[i].dirty && Shows(s, p, c, g, k)
    requires s.slots[i].tag == Mapped(p) ==> g.node[k].op == WriteNotifying({})
    ensures s.slots[i].tag == Mapped(p)
      ==> Enabled(c, g, Write(k, WriteFinish)) && Shows(MarkDirty(s, i), p, c, Apply(c, g, Write(k, WriteFinish)), k)
    ensures s.slots[i].tag.Mapped? && (s.slots[i].tag != Mapped(p) ==> Shows(MarkDirty(s, i), p, c, g, k))
  {
    MarkDirtyKeeps(s, i, c.size);
    assert SlotOk(s.slots[i], i, |s.slots|, |s.home|, c.size);
    assert s.prot[p] == ProtOf(CopyIn(s.slots, p));
  }

  /** A page evicted to make its slot free for page q is written back if it is dirty, and then dropped. */
  lemma EvictIsEvict(s: CacheState, q: nat, p: nat, c: Config, g: State, k: Node)
    requires Agreed(s, c.size) && q < |s.home| && CopyIn(s.slots, q).Absent? && Shows(s, p, c, g, k)
    ensures p % |s.slots| != q % |s.slots| || CopyIn(s.slots, p).Absent? ==> Shows(EvictFor(s, q, c.size), p, c, g, k)
    ensures p % |s.slots| == q % |s.slots| && CopyIn(s.slots, p).Clean? && Rests(g, k)
      ==> Enabled(c, g, Evict(k)) && Shows(EvictFor(s, q, c.size), p, c, Apply(c, g, Evict(k)), k)
    ensures p % |s.slots| == q % |s.slots| && CopyIn(s.slots, p).Dirty? && Rests(g, k)
      ==> Enabled(c, g, WriteBack(k)) &&
          var g' := Apply(c, g, WriteBack(k));
          Enabled(c, g', Evict(k)) && Shows(EvictFor(s, q, c.size), p, c, Apply(c, g', Evict(k)), k)
  {
    EvictWrites(s, q, c.size);
    var t := EvictFor(s, q, c.size);
    assert s.prot[p] == ProtOf(CopyIn(s.slots, p)) && t.prot[p] == ProtOf(CopyIn(t.slots, p));
  }

  /** Installing the fetched page is the LoadInstall step. */
  lemma InstallIsLoadInstall(s: CacheState, q: nat, fetched: Page, p: nat, c: Config, g: State, k: Node)
    requires Agreed(s, c.size) && q < |s.home| && |fetched| == c.size && !s.slots[q % |s.slots|].valid
    requires Shows(s, p, c, g, k) && (p == q ==> g.node[k].op == LoadGot(fetched))
    ensures p == q
      ==> Enabled(c, g, Load(k, LoadInstall)) &&
          Shows(Install(s, q, fetched), p, c, Apply(c, g, Load(k, LoadInstall)), k)
    ensures p != q ==> Shows(Install(s, q, fetched), p, c, g, k)
  {
    InstallKeeps(s, q, fetched, c.size);
    assert s.prot[p] == ProtOf(CopyIn(s.slots, p));
  }

  /** Self-invalidation after the flush of a barrier is the Invalidate step of every page. */
  lemma SweepIsInvalidate(s: CacheState, keep: set<nat>, p: nat, c: Config, g: State, k: Node)
    requires Agreed(s, c.size) && s.buffer == [] && Shows(s, p, c, g, k) && g.node[k].mode.Draining?
    requires p in keep <==> Keeps(k, g.node[k])
    ensures Enabled(c, g, Invalidate(k))
    ensures Shows(SelfInvalidated(s, keep, c.size), p, c, Apply(c, g, Invalidate(k)), k)
  {
    SelfInvalidationWrites(s, keep, c.size);
    var t := SelfInvalidated(s, keep, c.size);
    AllClean(s, c.size);
    assert s.prot[p] == ProtOf(CopyIn(s.slots, p)) && t.prot[p] == ProtOf(CopyIn(t.slots, p));
  }
}
