/**
 Runs of the cache of a node against the whole memory. A load, a write miss, a flush and the sweep
 of a barrier are each a history of `SharedMemory`; so is a run of them, and a byte the cache then
 holds is the last one stored.
 */
module CacheRuns {
  import opened PageProtocol
  import opened DirectorySafety
  import opened BarrierCoherence
  import opened SharedMemory
  import opened NodeCache
  import opened CacheRefinement
  import opened CacheHistory
  import opened BufferBound

  /** The node is running and no handler of it is in flight, except for page p. */
  ghost predicate QuietBut(y: Layout, g: seq<State>, k: Node, p: nat)
    requires WellFormedAll(y, g) && k < y.nodes
  {
    forall q :: 0 <= q < |g| && q != p ==> Rests(g[q], k)
  }

  ghost predicate Quiet(y: Layout, g: seq<State>, k: Node)
    requires WellFormedAll(y, g) && k < y.nodes
  {
    forall q :: 0 <= q < |g| ==> Rests(g[q], k)
  }

  /** A handler in flight means that the node runs, so its last step leaves the node at rest. */
  lemma LastStepRests(c: Config, g: State, k: Node, l: Label)
    requires DirInv(c, g) && l in {Load(k, LoadInstall), Write(k, WriteFinish)} && Enabled(c, g, l)
    ensures Rests(Apply(c, g, l), k)
  {
    assert NodeOk(c, k, g.node[k], g.node[c.home].sharers, g.node[c.home].writers);
  }

  // ----- loading a page -----

  /** From the check of a load to its last step, in a slot that is free. */
  lemma LoadFree(y: Layout, s: CacheState, g: seq<State>, k: Node, q: nat, refresh: bool)
    returns (events: seq<Event>, g': seq<State>)
    requires ShowsAll(y, s, g, k) && Quiet(y, g, k) && q < |g| && y.home[q] != k && !s.slots[q % |s.slots|].valid
    ensures IsHistory(y, g, events, g') && Quiet(y, g', k)
    ensures ShowsAll(y, Install(s, q, s.home[q]), g', k)
  {
    var check, install := At(q, Load(k, LoadCheck)), At(q, Load(k, LoadInstall));
    LoadStarts(y, s, g, k, q);
    var g1 := Next(y, g, check);
    OneEvent(y, g, check);
    assert ShowsPage(y, s, g1, k, q);
    var run, t := LoadHandler(PageConfig(y, q), g1[q], k, refresh);
    HandlerHistory(y, s, g1, k, q, run, t);
    var g2 := g1[q := t];
    LoadEnds(y, s, g2, k, q);
    LastStepRests(PageConfig(y, q), g2[q], k, Load(k, LoadInstall));
    g' := Next(y, g2, install);
    OneEvent(y, g2, install);
    HistoriesConcatenate(y, g, [check], g1, Lift(q, run), g2);
    HistoriesConcatenate(y, g, [check] + Lift(q, run), g2, [install], g');
    events := [check] + Lift(q, run) + [install];
  }

  /** Loading a page is a history, whatever its slot held. */
  lemma LoadHistory(y: Layout, s: CacheState, g: seq<State>, k: Node, q: nat, refresh: bool)
    returns (events: seq<Event>, g': seq<State>)
    requires ShowsAll(y, s, g, k) && Quiet(y, g, k) && q < |g| && y.home[q] != k && CopyIn(s.slots, q).Absent?
    ensures IsHistory(y, g, events, g') && ShowsAll(y, LoadOne(s, q, y.size), g', k) && Quiet(y, g', k)
  {
    assert SlotRests(y, g, k, q);
    var evict, g1 := EvictHistory(y, s, g, k, q);
    EvictWrites(s, q, y.size);
    var load;
    load, g' := LoadFree(y, EvictFor(s, q, y.size), g1, k, q, refresh);
    HistoriesConcatenate(y, g, evict, g1, load, g');
    events := evict + load;
  }

  // ----- a write miss -----

  /** The check that begins a write miss. */
  lemma MissBegins(y: Layout, s: CacheState, g: seq<State>, k: Node, p: nat)
    requires ShowsAll(y, s, g, k) && Quiet(y, g, k) && p < |g| && CopyIn(s.slots, p).Clean?
    ensures y.home[p] != k && Possible(y, g, At(p, Write(k, WriteCheck)))
    ensures var g' := Next(y, g, At(p, Write(k, WriteCheck)));
      && ShowsAll(y, s, g', k) && QuietBut(y, g', k, p)
      && (g'[p].node[k].op == WriteChecked || g'[p].node[k].op.WriteNotifying?)
  {
    assert ShowsPage(y, s, g, k, p) && Rests(g[p], k);
    forall q | 0 <= q < |g| && q != p
      ensures g[q].node[k].op.Idle?
    {
      assert Rests(g[q], k);
    }
    ShowsNext(y, s, g, k, p, Write(k, WriteCheck), s);
  }

  /** The step that ends it. */
  lemma MissEnds(y: Layout, s: CacheState, g: seq<State>, k: Node, i: nat, p: nat)
    requires ShowsAll(y, s, g, k) && p < |g| && y.home[p] != k && QuietBut(y, g, k, p)
    requires i < |s.slots| && s.slots[i].valid && !s.slots[i].dirty && s.slots[i].tag == Mapped(p)
    requires g[p].node[k].op == WriteNotifying({})
    ensures Possible(y, g, At(p, Write(k, WriteFinish)))
    ensures var g' := Next(y, g, At(p, Write(k, WriteFinish)));
      ShowsAll(y, MarkDirty(s, i), g', k) && Quiet(y, g', k)
  {
    assert ShowsPage(y, s, g, k, p);
    MarkDirtyIsWriteFinish(s, i, p, PageConfig(y, p), g[p], k);
    MarkDirtyKeeps(s, i, y.size);
    forall q | 0 <= q < |g| && q != p
      ensures ShowsPage(y, MarkDirty(s, i), g, k, q)
    {
      assert ShowsPage(y, s, g, k, q);
      if y.home[q] != k {
        MarkDirtyIsWriteFinish(s, i, q, PageConfig(y, q), g[q], k);
      }
    }
    LastStepRests(PageConfig(y, p), g[p], k, Write(k, WriteFinish));
    ShowsNext(y, s, g, k, p, Write(k, WriteFinish), MarkDirty(s, i));
  }

  /** Making room in the buffer while the handler of page p is in flight. */
  lemma RoomHistory(y: Layout, l: Limits, s: CacheState, g: seq<State>, k: Node, p: nat)
    returns (events: seq<Event>, g': seq<State>)
    requires ShowsAll(y, s, g, k) && QuietBut(y, g, k, p) && l.writeBack <= l.max
    ensures IsHistory(y, g, events, g') && ShowsAll(y, MakeRoom(s, l.max, l.writeBack, y.size), g', k)
    ensures QuietBut(y, g', k, p) && (p < |g| ==> g'[p].node[k].op == g[p].node[k].op)
  {
    if |s.buffer| >= l.max {
      events, g' := FlushHistory(y, s, g, k, l.writeBack);
    } else {
      events, g' := [], g;
    }
  }

  /** From the check of a write miss to the point where room is made. */
  lemma MissHistory(y: Layout, s: CacheState, g: seq<State>, k: Node, p: nat)
    returns (events: seq<Event>, g': seq<State>)
    requires ShowsAll(y, s, g, k) && Quiet(y, g, k) && p < |g| && CopyIn(s.slots, p).Clean?
    ensures y.home[p] != k && IsHistory(y, g, events, g') && ShowsAll(y, s, g', k) && QuietBut(y, g', k, p)
    ensures g'[p].node[k].op == WriteNotifying({})
  {
    var check := At(p, Write(k, WriteCheck));
    MissBegins(y, s, g, k, p);
    var g1 := Next(y, g, check);
    OneEvent(y, g, check);
    assert ShowsPage(y, s, g1, k, p);
    var run, t := WriteHandler(PageConfig(y, p), g1[p], k);
    HandlerHistory(y, s, g1, k, p, run, t);
    g' := g1[p := t];
    HistoriesConcatenate(y, g, [check], g1, Lift(p, run), g');
    events := [check] + Lift(p, run);
  }

  /** A write miss on a clean slot is a history, whatever the buffer holds. */
  lemma WriteHistory(y: Layout, l: Limits, s: CacheState, g: seq<State>, k: Node, i: nat)
    returns (events: seq<Event>, g': seq<State>)
    requires ShowsAll(y, s, g, k) && Quiet(y, g, k) && l.size == y.size && CanDo(l, s, AddDirty(i))
    ensures IsHistory(y, g, events, g') && ShowsAll(y, Do(l, s, AddDirty(i)), g', k) && Quiet(y, g', k)
  {
    assert SlotOk(s.slots[i], i, |s.slots|, |s.home|, y.size);
    var p := s.slots[i].tag.page;
    var miss, g1 := MissHistory(y, s, g, k, p);
    var room, g2 := RoomHistory(y, l, s, g1, k, p);
    StaysClean(l, s, i);
    var s2 := MakeRoom(s, l.max, l.writeBack, y.size);
    assert s2.slots[i].(dirty := s.slots[i].dirty) == s.slots[i];
    var finish := At(p, Write(k, WriteFinish));
    MissEnds(y, s2, g2, k, i, p);
    g' := Next(y, g2, finish);
    OneEvent(y, g2, finish);
    HistoriesConcatenate(y, g, miss, g1, room, g2);
    HistoriesConcatenate(y, g, miss + room, g2, [finish], g');
    events := miss + room + [finish];
  }

  // ----- runs -----

  /** Operations between barriers; the pages of the node itself are not loaded. */
  ghost predicate Between(y: Layout, k: Node, o: BufferBound.Op) {
    match o
    case LoadPage(p) => p < |y.home| && y.home[p] != k
    case SelfInvalidate(_) => false
    case _ => true
  }

  lemma OpHistory(y: Layout, l: Limits, s: CacheState, g: seq<State>, k: Node, o: BufferBound.Op)
    returns (events: seq<Event>, g': seq<State>)
    requires ShowsAll(y, s, g, k) && Quiet(y, g, k) && l.size == y.size && CanDo(l, s, o) && Between(y, k, o)
    ensures IsHistory(y, g, events, g') && ShowsAll(y, Do(l, s, o), g', k) && Quiet(y, g', k)
  {
    match o
    case AddDirty(i) => events, g' := WriteHistory(y, l, s, g, k, i);
    case LoadPage(p) => events, g' := LoadHistory(y, s, g, k, p, false);
    case Flush => events, g' := FlushHistory(y, s, g, k, |s.buffer|);
  }

  /** Every run of operations of the cache is a history of the memory, after which it shows every page again. */
  lemma {:induction false} RunHistory(y: Layout, l: Limits, s: CacheState, g: seq<State>, k: Node,
                                      ops: seq<BufferBound.Op>, t: CacheState)
    returns (events: seq<Event>, g': seq<State>)
    requires ShowsAll(y, s, g, k) && Quiet(y, g, k) && l.size == y.size
    requires BufferBound.IsRun(l, s, ops, t) && forall i :: 0 <= i < |ops| ==> Between(y, k, ops[i])
    ensures IsHistory(y, g, events, g') && ShowsAll(y, t, g', k) && Quiet(y, g', k)
    decreases |ops|
  {
    if ops == [] {
      events, g' := [], g;
    } else {
      var first, g1 := OpHistory(y, l, s, g, k, ops[0]);
      var rest;
      rest, g' := RunHistory(y, l, Do(l, s, ops[0]), g1, k, ops[1..], t);
      HistoriesConcatenate(y, g, first, g1, rest, g');
      events := first + rest;
    }
  }

  // ----- stores, the other nodes and barriers -----

  /** The slots with one byte of page p stored. */
  ghost function Stored(s: CacheState, p: nat, at: nat, v: Byte): (t: CacheState)
    requires |s.slots| > 0
  {
    var i := p % |s.slots|;
    var x := s.slots[i];
    if at < |x.data| then s.(slots := s.slots[i := x.(data := x.data[at := v])]) else s
  }

  lemma StoredKeeps(s: CacheState, p: nat, at: nat, v: Byte, size: nat)
    requires Agreed(s, size) && p < |s.home| && at < size && CopyIn(s.slots, p).Dirty?
    ensures Agreed(Stored(s, p, at, v), size)
    ensures forall q :: 0 <= q < |s.home| ==>
      var c := CopyIn(s.slots, q);
      CopyIn(Stored(s, p, at, v).slots, q) == if q == p then Dirty(CopyIn(s.slots, p).data[at := v], c.twin) else c
  {
  }

  /** A store into a dirty copy, by a program without data races. */
  lemma StoreHistory(y: Layout, s: CacheState, g: seq<State>, k: Node, p: nat, at: nat, v: Byte)
    requires ShowsAll(y, s, g, k) && p < |g| && CopyIn(s.slots, p).Dirty? && at < y.size && g[p].writer[at] <= {k}
    ensures Possible(y, g, At(p, Store(k, at, v)))
    ensures ShowsAll(y, Stored(s, p, at, v), Next(y, g, At(p, Store(k, at, v))), k)
  {
    assert ShowsPage(y, s, g, k, p);
    DirtyRests(PageConfig(y, p), g[p], k);
    assert s.prot[p] == ProtOf(CopyIn(s.slots, p));
    StoredKeeps(s, p, at, v, y.size);
    forall q | 0 <= q < |g| && q != p
      ensures ShowsPage(y, Stored(s, p, at, v), g, k, q)
    {
      assert ShowsPage(y, s, g, k, q);
    }
    ShowsNext(y, s, g, k, p, Store(k, at, v), Stored(s, p, at, v));
  }

  /** The same cache over the memory the pages have in g. */
  ghost function Over(s: CacheState, g: seq<State>): (t: CacheState) {
    s.(home := seq(|g|, p requires 0 <= p < |g| => g[p].memory))
  }

  /** Steps of other nodes, of homes, and barrier steps that sweep no cache of node k. */
  ghost predicate LeavesCache(l: Label, k: Node) {
    match l
    case Load(j, _) => j != k
    case Write(j, _) => j != k
    case Store(j, _, _) => j != k
    case WriteBack(j) => j != k
    case Evict(j) => j != k
    case Invalidate(j) => j != k
    case UpgradeWriters => false
    case _ => true
  }

  lemma LeavesNode(c: Config, g: State, l: Label, k: Node)
    requires WellFormed(c, g) && Enabled(c, g, l) && LeavesCache(l, k) && Remote(c, k)
    ensures var n := Apply(c, g, l).node[k]; n.copy == g.node[k].copy && n.prot == g.node[k].prot
  {
  }

  lemma SoundEvent(y: Layout, g: seq<State>, e: Event)
    requires Sound(y, g) && Possible(y, g, e)
    ensures Sound(y, Next(y, g, e))
  {
    forall p | 0 <= p < |g|
      ensures DirInv(PageConfig(y, p), Next(y, g, e)[p])
    {
      if e.Everywhere? || e.p == p {
        DirInvStep(PageConfig(y, p), g[p], e.l);
      }
    }
  }

  /** The cache as it was, over the new memory. */
  lemma OverAgreed(s: CacheState, g: seq<State>, size: nat)
    requires Agreed(s, size) && |s.home| == |g| && forall p :: 0 <= p < |g| ==> |g[p].memory| == size
    ensures Agreed(Over(s, g), size)
  {
  }

  /** What the other nodes do only shows in the memory. */
  lemma OthersHistory(y: Layout, s: CacheState, g: seq<State>, k: Node, e: Event)
    requires ShowsAll(y, s, g, k) && Possible(y, g, e) && LeavesCache(e.l, k)
    ensures ShowsAll(y, Over(s, Next(y, g, e)), Next(y, g, e), k)
  {
    var g' := Next(y, g, e);
    SoundEvent(y, g, e);
    OverAgreed(s, g', y.size);
    forall p | 0 <= p < |g|
      ensures ShowsPage(y, Over(s, g'), g', k, p)
    {
      assert ShowsPage(y, s, g, k, p);
      if y.home[p] != k && (e.Everywhere? || e.p == p) {
        LeavesNode(PageConfig(y, p), g[p], e.l, k);
      }
    }
  }

  /** The sweep of node k after a barrier, alone or with the clearing of the writer words. */
  ghost predicate Sweeps(l: Label, k: Node) {
    l == Invalidate(k) || l == UpgradeWriters
  }

  /** The pages that node k keeps, by its own directory words. */
  ghost function Kept(y: Layout, g: seq<State>, k: Node): (keep: set<nat>)
    requires WellFormedAll(y, g) && k < y.nodes
    ensures forall p :: p in keep <==> 0 <= p < |g| && Keeps(k, g[p].node[k])
  {
    set p | 0 <= p < |g| && Keeps(k, g[p].node[k])
  }

  /** What a sweep does to a page that is not dirty. */
  lemma SweptNode(c: Config, g: State, l: Label, k: Node)
    requires WellFormed(c, g) && Enabled(c, g, l) && Sweeps(l, k) && Remote(c, k)
    requires g.node[k].copy.Absent? || g.node[k].copy.Clean?
    requires g.node[k].prot == ProtOf(g.node[k].copy)
    ensures var n, n' := g.node[k], Apply(c, g, l).node[k];
      && n'.copy == (if Keeps(k, n) then n.copy else Absent) && n'.prot == ProtOf(n'.copy)
      && Apply(c, g, l).memory == g.memory
  {
  }

  /** With an empty buffer the sweep is one event, after which the cache shows every page again. */
  lemma SweepHistory(y: Layout, s: CacheState, g: seq<State>, k: Node, l: Label)
    requires ShowsAll(y, s, g, k) && s.buffer == [] && Possible(y, g, Everywhere(l)) && Sweeps(l, k)
    ensures ShowsAll(y, SelfInvalidated(s, Kept(y, g, k), y.size), Next(y, g, Everywhere(l)), k)
  {
    var g' := Next(y, g, Everywhere(l));
    var t := SelfInvalidated(s, Kept(y, g, k), y.size);
    SoundEvent(y, g, Everywhere(l));
    SelfInvalidationWrites(s, Kept(y, g, k), y.size);
    AllClean(s, y.size);
    forall p | 0 <= p < |g|
      ensures ShowsPage(y, t, g', k, p)
    {
      SweepShows(y, s, g, k, l, p);
    }
  }

  lemma SweepShows(y: Layout, s: CacheState, g: seq<State>, k: Node, l: Label, p: nat)
    requires ShowsAll(y, s, g, k) && s.buffer == [] && Possible(y, g, Everywhere(l)) && Sweeps(l, k) && p < |g|
    ensures |SelfInvalidated(s, Kept(y, g, k), y.size).home| == |g|
    ensures ShowsPage(y, SelfInvalidated(s, Kept(y, g, k), y.size), Next(y, g, Everywhere(l)), k, p)
  {
    var t := SelfInvalidated(s, Kept(y, g, k), y.size);
    SelfInvalidationWrites(s, Kept(y, g, k), y.size);
    AllClean(s, y.size);
    assert ShowsPage(y, s, g, k, p);
    if y.home[p] != k {
      assert s.prot[p] == ProtOf(CopyIn(s.slots, p)) && t.prot[p] == ProtOf(CopyIn(t.slots, p));
      SweptNode(PageConfig(y, p), g[p], l, k);
    }
  }

  // ----- what the cache holds -----

  /** A fresh cache shows the memory after argo_initialize. */
  lemma FreshShows(y: Layout, m: seq<Page>, s: CacheState, k: Node)
    requires ValidLayout(y) && |m| == |y.home| && forall p :: 0 <= p < |m| ==> |m[p]| == y.size
    requires k < y.nodes && Agreed(s, y.size) && |s.slots| == y.slots && s.home == m
    requires forall i :: 0 <= i < |s.slots| ==> !s.slots[i].valid
    ensures ShowsAll(y, s, Start(y, m), k) && Quiet(y, Start(y, m), k)
  {
    var g := Start(y, m);
    forall p | 0 <= p < |g|
      ensures DirInv(PageConfig(y, p), g[p]) && ShowsPage(y, s, g, k, p)
    {
      InitialDirInv(PageConfig(y, p), m[p]);
      assert s.prot[p] == ProtOf(CopyIn(s.slots, p));
    }
  }

  /** Byte b of a copy is the one in `last`. */
  ghost predicate LastByte(last: Page, copy: Copy, b: nat) {
    copy != Absent && b < |copy.data| == |last| && copy.data[b] == last[b]
  }

  /** So is every cached byte that no other node has stored since the last barrier. */
  ghost predicate HoldsLast(last: seq<Page>, s: CacheState, g: seq<State>, k: Node)
    requires |s.slots| > 0 && |last| == |g|
  {
    forall p, b :: 0 <= p < |g| && 0 <= b < |g[p].writer| && CopyIn(s.slots, p) != Absent && Mine(g[p].writer[b], k)
      ==> LastByte(last[p], CopyIn(s.slots, p), b)
  }

  /**
   In every history that the cache of node k shows, a cached byte that no other node has stored
   since the last barrier is the last one stored.
   */
  lemma CacheReadsLastStore(y: Layout, m: seq<Page>, events: seq<Event>, g: seq<State>, s: CacheState, k: Node,
                            p: nat, b: nat)
    requires ValidLayout(y) && |m| == |y.home| && forall q :: 0 <= q < |m| ==> |m[q]| == y.size
    requires IsHistory(y, Start(y, m), events, g) && ShowsAll(y, s, g, k)
    requires p < |m| && b < y.size && CopyIn(s.slots, p) != Absent
    requires g[p].node[k].mode.Running? && Mine(g[p].writer[b], k)
    ensures LastByte(StoresAll(m, events)[p], CopyIn(s.slots, p), b)
  {
    MemoryIsCoherent(y, m, events, g, k, p, b);
    assert ShowsPage(y, s, g, k, p);
  }

  /** From a history that the cache shows, through any run of its operations. */
  lemma RunReadsLastStore(y: Layout, m: seq<Page>, past: seq<Event>, g: seq<State>, l: Limits, s: CacheState, k: Node,
                          ops: seq<BufferBound.Op>, t: CacheState)
    returns (events: seq<Event>, g': seq<State>)
    requires ValidLayout(y) && |m| == |y.home| && forall q :: 0 <= q < |m| ==> |m[q]| == y.size
    requires IsHistory(y, Start(y, m), past, g) && ShowsAll(y, s, g, k) && Quiet(y, g, k) && l.size == y.size
    requires BufferBound.IsRun(l, s, ops, t) && forall i :: 0 <= i < |ops| ==> Between(y, k, ops[i])
    ensures IsHistory(y, Start(y, m), past + events, g') && ShowsAll(y, t, g', k) && Quiet(y, g', k)
    ensures HoldsLast(StoresAll(m, past + events), t, g', k)
  {
    events, g' := RunHistory(y, l, s, g, k, ops, t);
    HistoriesConcatenate(y, Start(y, m), past, g, events, g');
    var last := StoresAll(m, past + events);
    forall p, b | 0 <= p < |m| && 0 <= b < y.size && CopyIn(t.slots, p) != Absent && Mine(g'[p].writer[b], k)
      ensures LastByte(last[p], CopyIn(t.slots, p), b)
    {
      assert Rests(g'[p], k);
      CacheReadsLastStore(y, m, past + events, g', t, k, p, b);
    }
  }
}
