/**
 The cache of a node and the whole memory: every operation of `NodeCache` on the cache of node k,
 with the directory work of its fault handlers, is a history of `SharedMemory`, after which the
 cache shows the state of every page again.
 */
module CacheHistory {
  import opened PageProtocol
  import opened DirectorySafety
  import opened SharedMemory
  import opened NodeCache
  import opened CacheRefinement
  import opened Sequences

  ghost predicate Sound(y: Layout, g: seq<State>) {
    WellFormedAll(y, g) && forall p :: 0 <= p < |g| ==> DirInv(PageConfig(y, p), g[p])
  }

  /** A page of another home is shown; one of this node's own is not cached. */
  ghost predicate ShowsPage(y: Layout, s: CacheState, g: seq<State>, k: Node, p: nat)
    requires WellFormedAll(y, g) && p < |g| == |s.home| && |s.slots| > 0
  {
    if y.home[p] == k then CopyIn(s.slots, p) == Absent && g[p].memory == s.home[p]
    else Shows(s, p, PageConfig(y, p), g[p], k)
  }

  ghost predicate ShowsAll(y: Layout, s: CacheState, g: seq<State>, k: Node) {
    && Sound(y, g) && k < y.nodes && Agreed(s, y.size) && |s.slots| == y.slots && |s.home| == |g|
    && forall p :: 0 <= p < |g| ==> ShowsPage(y, s, g, k, p)
  }

  lemma SoundNext(y: Layout, g: seq<State>, p: nat, l: Label)
    requires Sound(y, g) && Possible(y, g, At(p, l))
    ensures Sound(y, Next(y, g, At(p, l)))
  {
    DirInvStep(PageConfig(y, p), g[p], l);
  }

  /** Events on page p that lead to g' and turn s into t. */
  lemma ShowsAfter(y: Layout, s: CacheState, g: seq<State>, k: Node, p: nat, g': seq<State>, t: CacheState)
    requires ShowsAll(y, s, g, k) && p < |g| == |g'| && Sound(y, g')
    requires forall q :: 0 <= q < |g| && q != p ==> g'[q] == g[q]
    requires Agreed(t, y.size) && |t.slots| == |s.slots| && |t.home| == |s.home|
    requires ShowsPage(y, t, g', k, p) && forall q :: 0 <= q < |g| && q != p ==> ShowsPage(y, t, g, k, q)
    ensures ShowsAll(y, t, g', k)
  {
    forall q | 0 <= q < |g'|
      ensures ShowsPage(y, t, g', k, q)
    {
      if q != p { assert ShowsPage(y, t, g, k, q); }
    }
  }

  /** One event on page p that turns s into t. */
  lemma ShowsNext(y: Layout, s: CacheState, g: seq<State>, k: Node, p: nat, l: Label, t: CacheState)
    requires ShowsAll(y, s, g, k) && Possible(y, g, At(p, l))
    requires Agreed(t, y.size) && |t.slots| == |s.slots| && |t.home| == |s.home|
    requires ShowsPage(y, t, Next(y, g, At(p, l)), k, p)
    requires forall q :: 0 <= q < |g| && q != p ==> ShowsPage(y, t, g, k, q)
    ensures ShowsAll(y, t, Next(y, g, At(p, l)), k)
  {
    SoundNext(y, g, p, l);
    ShowsAfter(y, s, g, k, p, Next(y, g, At(p, l)), t);
  }

  /** An event and a history after it. */
  lemma HistoryCons(y: Layout, a: seq<State>, e: Event, rest: seq<Event>, d: seq<State>)
    requires WellFormedAll(y, a) && Possible(y, a, e) && IsHistory(y, Next(y, a, e), rest, d)
    ensures IsHistory(y, a, [e] + rest, d)
  {
    AppendTail([e], rest);
  }

  lemma {:induction false} HistoriesConcatenate(y: Layout, a: seq<State>, e: seq<Event>, b: seq<State>, f: seq<Event>,
                                                d: seq<State>)
    requires WellFormedAll(y, a) && IsHistory(y, a, e, b) && IsHistory(y, b, f, d)
    ensures IsHistory(y, a, e + f, d)
    decreases |e|
  {
    if e == [] {
      assert e + f == f;
    } else {
      HistoriesConcatenate(y, Next(y, a, e[0]), e[1..], b, f, d);
      AppendTail(e, f);
    }
  }

  lemma OneEvent(y: Layout, g: seq<State>, e: Event)
    requires WellFormedAll(y, g) && Possible(y, g, e)
    ensures IsHistory(y, g, [e], Next(y, g, e))
  {
    assert [e][1..] == [];
    assert IsHistory(y, Next(y, g, e), [], Next(y, g, e));
  }

  // ----- writing back -----

  /** A node with a dirty copy is running and has no handler in flight for the page. */
  lemma DirtyRests(c: Config, g: State, k: Node)
    requires DirInv(c, g) && Remote(c, k) && g.node[k].copy.Dirty?
    ensures Rests(g, k)
  {
    assert NodeOk(c, k, g.node[k], g.node[c.home].sharers, g.node[c.home].writers);
  }

  /** Writing back the oldest slot is one event. */
  lemma PopHistory(y: Layout, s: CacheState, g: seq<State>, k: Node) returns (p: nat)
    requires ShowsAll(y, s, g, k) && s.buffer != []
    ensures p < |g| && Possible(y, g, At(p, WriteBack(k)))
    ensures ShowsAll(y, Pop(s, y.size), Next(y, g, At(p, WriteBack(k))), k)
  {
    var i := s.buffer[0];
    assert i in s.buffer;
    assert SlotOk(s.slots[i], i, |s.slots|, |s.home|, y.size);
    p := s.slots[i].tag.page;
    assert CopyIn(s.slots, p).Dirty?;
    assert ShowsPage(y, s, g, k, p);
    DirtyRests(PageConfig(y, p), g[p], k);
    PopIsWriteBack(s, p, PageConfig(y, p), g[p], k);
    PopWrites(s, y.size);
    forall q | 0 <= q < |g| && q != p
      ensures ShowsPage(y, Pop(s, y.size), g, k, q)
    {
      PopElsewhere(y, s, g, k, p, q);
    }
    ShowsNext(y, s, g, k, p, WriteBack(k), Pop(s, y.size));
  }

  lemma PopElsewhere(y: Layout, s: CacheState, g: seq<State>, k: Node, p: nat, q: nat)
    requires ShowsAll(y, s, g, k) && s.buffer != [] && s.buffer[0] < |s.slots| && s.slots[s.buffer[0]].tag == Mapped(p)
    requires q < |g| && q != p
    ensures |Pop(s, y.size).home| == |g| && ShowsPage(y, Pop(s, y.size), g, k, q)
  {
    assert ShowsPage(y, s, g, k, q);
    PopWrites(s, y.size);
    if y.home[q] != k {
      PopIsWriteBack(s, q, PageConfig(y, q), g[q], k);
    }
  }

  /** What node k is doing has not changed, on any page. */
  ghost predicate SameOps(y: Layout, g: seq<State>, g': seq<State>, k: Node)
    requires WellFormedAll(y, g) && WellFormedAll(y, g') && k < y.nodes
  {
    forall p :: 0 <= p < |g| ==> g'[p].node[k].op == g[p].node[k].op && g'[p].node[k].mode == g[p].node[k].mode
  }

  /** Flushing the n oldest slots is a history of n events. */
  lemma {:induction false} FlushHistory(y: Layout, s: CacheState, g: seq<State>, k: Node, n: nat)
    returns (events: seq<Event>, g': seq<State>)
    requires ShowsAll(y, s, g, k) && n <= |s.buffer|
    ensures |events| == n && IsHistory(y, g, events, g') && ShowsAll(y, FlushFront(s, n, y.size), g', k)
    ensures SameOps(y, g, g', k)
    decreases n
  {
    if n == 0 {
      events, g' := [], g;
    } else {
      var p := PopHistory(y, s, g, k);
      var e := At(p, WriteBack(k));
      PopWrites(s, y.size);
      var rest;
      rest, g' := FlushHistory(y, Pop(s, y.size), Next(y, g, e), k, n - 1);
      events := [e] + rest;
      HistoryCons(y, g, e, rest, g');
    }
  }

  // ----- making a slot free -----

  /** The node is running and has no handler in flight for a page of this slot: it holds the slot's lock. */
  ghost predicate SlotRests(y: Layout, g: seq<State>, k: Node, q: nat)
    requires WellFormedAll(y, g) && k < y.nodes
  {
    forall p :: 0 <= p < |g| && p % y.slots == q % y.slots ==> Rests(g[p], k)
  }

  /** Pages that making the slot free for q does not move. */
  lemma EvictElsewhere(y: Layout, s: CacheState, g: seq<State>, k: Node, q: nat, p: nat)
    requires ShowsAll(y, s, g, k) && q < |g| && CopyIn(s.slots, q).Absent? && p < |g|
    requires p % |s.slots| != q % |s.slots| || CopyIn(s.slots, p).Absent?
    ensures |EvictFor(s, q, y.size).home| == |g| && ShowsPage(y, EvictFor(s, q, y.size), g, k, p)
  {
    assert ShowsPage(y, s, g, k, p);
    EvictWrites(s, q, y.size);
    if y.home[p] != k {
      EvictIsEvict(s, q, p, PageConfig(y, p), g[p], k);
    }
  }

  /** If the slot holds no page nothing happens. */
  lemma EvictNothing(y: Layout, s: CacheState, g: seq<State>, k: Node, q: nat)
    requires ShowsAll(y, s, g, k) && q < |g| && CopyIn(s.slots, q).Absent?
    requires !s.slots[q % |s.slots|].valid || s.slots[q % |s.slots|].tag == Mapped(q)
    ensures ShowsAll(y, EvictFor(s, q, y.size), g, k)
  {
    EvictWrites(s, q, y.size);
    forall p | 0 <= p < |g|
      ensures ShowsPage(y, EvictFor(s, q, y.size), g, k, p)
    {
      EvictElsewhere(y, s, g, k, q, p);
    }
  }

  /** A clean page in the slot is evicted. */
  lemma EvictClean(y: Layout, s: CacheState, g: seq<State>, k: Node, q: nat, p: nat)
    requires ShowsAll(y, s, g, k) && q < |g| && CopyIn(s.slots, q).Absent? && SlotRests(y, g, k, q)
    requires p < |g| && p % y.slots == q % y.slots && CopyIn(s.slots, p).Clean?
    ensures Possible(y, g, At(p, Evict(k)))
    ensures ShowsAll(y, EvictFor(s, q, y.size), Next(y, g, At(p, Evict(k))), k)
  {
    assert ShowsPage(y, s, g, k, p) && Rests(g[p], k);
    EvictIsEvict(s, q, p, PageConfig(y, p), g[p], k);
    EvictWrites(s, q, y.size);
    forall r | 0 <= r < |g| && r != p
      ensures ShowsPage(y, EvictFor(s, q, y.size), g, k, r)
    {
      EvictElsewhere(y, s, g, k, q, r);
    }
    ShowsNext(y, s, g, k, p, Evict(k), EvictFor(s, q, y.size));
  }

  /** A dirty one is written back and evicted. */
  lemma EvictDirty(y: Layout, s: CacheState, g: seq<State>, k: Node, q: nat, p: nat)
    requires ShowsAll(y, s, g, k) && q < |g| && CopyIn(s.slots, q).Absent?
    requires p < |g| && p % y.slots == q % y.slots && CopyIn(s.slots, p).Dirty?
    ensures Possible(y, g, At(p, WriteBack(k)))
    ensures var g1 := Next(y, g, At(p, WriteBack(k)));
      Possible(y, g1, At(p, Evict(k))) && ShowsAll(y, EvictFor(s, q, y.size), Next(y, g1, At(p, Evict(k))), k)
  {
    assert ShowsPage(y, s, g, k, p);
    DirtyRests(PageConfig(y, p), g[p], k);
    EvictIsEvict(s, q, p, PageConfig(y, p), g[p], k);
    EvictWrites(s, q, y.size);
    var g1 := Next(y, g, At(p, WriteBack(k)));
    SoundNext(y, g, p, WriteBack(k));
    SoundNext(y, g1, p, Evict(k));
    forall r | 0 <= r < |g| && r != p
      ensures ShowsPage(y, EvictFor(s, q, y.size), g, k, r)
    {
      EvictElsewhere(y, s, g, k, q, r);
    }
    ShowsAfter(y, s, g, k, p, Next(y, g1, At(p, Evict(k))), EvictFor(s, q, y.size));
  }

  /** Making the slot of page q free for it is a history of at most two events. */
  lemma EvictHistory(y: Layout, s: CacheState, g: seq<State>, k: Node, q: nat)
    returns (events: seq<Event>, g': seq<State>)
    requires ShowsAll(y, s, g, k) && q < |g| && CopyIn(s.slots, q).Absent? && SlotRests(y, g, k, q)
    ensures IsHistory(y, g, events, g') && ShowsAll(y, EvictFor(s, q, y.size), g', k) && SameOps(y, g, g', k)
  {
    var i := q % |s.slots|;
    var x := s.slots[i];
    assert SlotOk(x, i, |s.slots|, |s.home|, y.size);
    if !x.valid || x.tag == Mapped(q) {
      EvictNothing(y, s, g, k, q);
      events, g' := [], g;
    } else {
      var p := x.tag.page;
      if x.dirty {
        EvictDirty(y, s, g, k, q, p);
        var g1 := Next(y, g, At(p, WriteBack(k)));
        g' := Next(y, g1, At(p, Evict(k)));
        OneEvent(y, g, At(p, WriteBack(k)));
        OneEvent(y, g1, At(p, Evict(k)));
        events := [At(p, WriteBack(k))] + [At(p, Evict(k))];
        HistoriesConcatenate(y, g, [At(p, WriteBack(k))], g1, [At(p, Evict(k))], g');
      } else {
        EvictClean(y, s, g, k, q, p);
        g' := Next(y, g, At(p, Evict(k)));
        OneEvent(y, g, At(p, Evict(k)));
        events := [At(p, Evict(k))];
      }
    }
  }

  // ----- the handlers -----

  /** Labels that go on with a handler, or finish it: nothing in the slot has to be asked. */
  ghost predicate GoesOn(l: Label) {
    !BarrierLabel(l) && match l
      case Load(_, step) => !step.LoadCheck?
      case Write(_, step) => !step.WriteCheck?
      case Home(step) => !step.HomeFault?
      case _ => true
  }

  ghost function Lift(q: nat, run: seq<Label>): (events: seq<Event>) {
    if run == [] then [] else [At(q, run[0])] + Lift(q, run[1..])
  }

  /** A run of one page is a history of the memory. */
  lemma {:induction false} PageRunIsHistory(y: Layout, g: seq<State>, q: nat, run: seq<Label>, t: State)
    requires WellFormedAll(y, g) && q < |g| && IsRun(PageConfig(y, q), g[q], run, t)
    requires forall i :: 0 <= i < |run| ==> GoesOn(run[i])
    ensures IsHistory(y, g, Lift(q, run), g[q := t])
    decreases |run|
  {
    if run == [] {
      assert g[q := t] == g;
    } else {
      var g1 := Next(y, g, At(q, run[0]));
      assert GoesOn(run[0]) && Possible(y, g, At(q, run[0]));
      PageRunIsHistory(y, g1, q, run[1..], t);
      assert g1[q := t] == g[q := t];
      assert Lift(q, run)[1..] == Lift(q, run[1..]);
    }
  }

  /** Between its check and its last step a handler of node k leaves what the cache shows alone. */
  ghost predicate DirectoryOnly(c: Config, s: State, t: State, k: Node) {
    && WellFormed(c, s) && WellFormed(c, t) && k < c.nodes
    && t.memory == s.memory && t.node[k].copy == s.node[k].copy && t.node[k].prot == s.node[k].prot
  }

  lemma OnlyTrans(c: Config, s: State, t: State, u: State, k: Node)
    requires DirectoryOnly(c, s, t, k) && DirectoryOnly(c, t, u, k)
    ensures DirectoryOnly(c, s, u, k)
  {
  }

  /** A step of a handler of node k before its last. */
  lemma HandlerStep(c: Config, s: State, k: Node, l: Label)
    requires DirInv(c, s) && Remote(c, k) && Enabled(c, s, l)
    requires (l.Load? && l.k == k && !l.load.LoadInstall?) || (l.Write? && l.k == k && !l.write.WriteFinish?)
    ensures DirInv(c, Apply(c, s, l)) && DirectoryOnly(c, s, Apply(c, s, l), k)
  {
    DirInvStep(c, s, l);
  }

  /** Runs that go on with a handler of node k, from s to t. */
  ghost predicate Handles(c: Config, s: State, run: seq<Label>, t: State, k: Node) {
    && DirInv(c, s) && IsRun(c, s, run, t) && DirInv(c, t) && DirectoryOnly(c, s, t, k)
    && forall i :: 0 <= i < |run| ==> GoesOn(run[i])
  }

  lemma HandlesMore(c: Config, s: State, l: Label, run: seq<Label>, t: State, k: Node)
    requires DirInv(c, s) && Remote(c, k) && Enabled(c, s, l) && GoesOn(l)
    requires (l.Load? && l.k == k && !l.load.LoadInstall?) || (l.Write? && l.k == k && !l.write.WriteFinish?)
    requires Handles(c, Apply(c, s, l), run, t, k)
    ensures Handles(c, s, [l] + run, t, k)
  {
    HandlerStep(c, s, k, l);
    OnlyTrans(c, s, Apply(c, s, l), t, k);
    assert ([l] + run)[1..] == run;
  }

  lemma LoadSends(c: Config, s: State, k: Node, o: Node)
    requires DirInv(c, s) && Remote(c, k) && s.node[k].op.LoadMerged? && o in s.node[k].op.owner
    ensures var l := Load(k, LoadNotice(o));
      Enabled(c, s, l) && DirInv(c, Apply(c, s, l)) && Apply(c, s, l).node[k].op == LoadMerged(s.node[k].op.owner - {o})
  {
    assert NodeOk(c, k, s.node[k], s.node[c.home].sharers, s.node[c.home].writers);
    HandlerStep(c, s, k, Load(k, LoadNotice(o)));
  }

  /** The notices of a load are sent. */
  lemma {:induction false} LoadNotices(c: Config, s: State, k: Node) returns (run: seq<Label>, t: State)
    requires DirInv(c, s) && Remote(c, k) && s.node[k].op.LoadMerged?
    ensures Handles(c, s, run, t, k) && t.node[k].op == LoadMerged({})
    decreases |s.node[k].op.owner|
  {
    var owner := s.node[k].op.owner;
    if owner == {} {
      run, t := [], s;
    } else {
      var o :| o in owner;
      var l := Load(k, LoadNotice(o));
      LoadSends(c, s, k, o);
      assert |owner - {o}| < |owner|;
      var rest;
      rest, t := LoadNotices(c, Apply(c, s, l), k);
      run := [l] + rest;
      HandlesMore(c, s, l, rest, t, k);
    }
  }

  /** A load from its registration to the fetch. */
  lemma LoadHandler(c: Config, s: State, k: Node, refresh: bool) returns (run: seq<Label>, t: State)
    requires DirInv(c, s) && Remote(c, k) && s.node[k].op.LoadChecked?
    ensures Handles(c, s, run, t, k) && t.node[k].op == LoadGot(s.memory)
  {
    var l1, l2, l3 := Load(k, LoadRegister(refresh)), Load(k, LoadMerge), Load(k, LoadGet);
    var s1 := Apply(c, s, l1);
    HandlerStep(c, s, k, l1);
    var s2 := Apply(c, s1, l2);
    HandlerStep(c, s1, k, l2);
    var notices, s3 := LoadNotices(c, s2, k);
    run, t := LoadFetch(c, s2, notices, s3, k);
    HandlesMore(c, s1, l2, run, t, k);
    run := [l2] + run;
    HandlesMore(c, s, l1, run, t, k);
    run := [l1] + run;
  }

  lemma LoadFetch(c: Config, s: State, notices: seq<Label>, u: State, k: Node) returns (run: seq<Label>, t: State)
    requires Handles(c, s, notices, u, k) && Remote(c, k) && u.node[k].op == LoadMerged({})
    ensures Handles(c, s, run, t, k) && t.node[k].op == LoadGot(s.memory)
  {
    var l := Load(k, LoadGet);
    t := Apply(c, u, l);
    HandlerStep(c, u, k, l);
    run := notices + [l];
    RunThen(c, s, notices, u, l);
    OnlyTrans(c, s, u, t, k);
  }

  lemma {:induction false} RunThen(c: Config, s: State, run: seq<Label>, u: State, l: Label)
    requires WellFormed(c, s) && IsRun(c, s, run, u) && Enabled(c, u, l)
    ensures IsRun(c, s, run + [l], Apply(c, u, l))
    decreases |run|
  {
    if run == [] {
      assert run + [l] == [l] && [l][1..] == [];
      assert IsRun(c, Apply(c, u, l), [], Apply(c, u, l));
    } else {
      RunThen(c, Apply(c, s, run[0]), run[1..], u, l);
      assert (run + [l])[0] == run[0] && (run + [l])[1..] == run[1..] + [l];
    }
  }

  lemma WriteSends(c: Config, s: State, k: Node, o: Node)
    requires DirInv(c, s) && Remote(c, k) && s.node[k].op.WriteNotifying? && o in s.node[k].op.targets
    ensures var l := Write(k, WriteNotice(o));
      && Enabled(c, s, l) && DirInv(c, Apply(c, s, l))
      && Apply(c, s, l).node[k].op == WriteNotifying(s.node[k].op.targets - {o})
  {
    assert NodeOk(c, k, s.node[k], s.node[c.home].sharers, s.node[c.home].writers);
    HandlerStep(c, s, k, Write(k, WriteNotice(o)));
  }

  /** The notices of a write miss are sent. */
  lemma {:induction false} WriteNotices(c: Config, s: State, k: Node) returns (run: seq<Label>, t: State)
    requires DirInv(c, s) && Remote(c, k) && s.node[k].op.WriteNotifying?
    ensures Handles(c, s, run, t, k) && t.node[k].op == WriteNotifying({})
    decreases |s.node[k].op.targets|
  {
    var targets := s.node[k].op.targets;
    if targets == {} {
      run, t := [], s;
    } else {
      var o :| o in targets;
      var l := Write(k, WriteNotice(o));
      WriteSends(c, s, k, o);
      assert |targets - {o}| < |targets|;
      var rest;
      rest, t := WriteNotices(c, Apply(c, s, l), k);
      run := [l] + rest;
      HandlesMore(c, s, l, rest, t, k);
    }
  }

  /** A write miss from its merge, its read, its registration and its mark to its last step. */
  lemma FromMerge(c: Config, s: State, k: Node) returns (run: seq<Label>, t: State)
    requires DirInv(c, s) && Remote(c, k) && s.node[k].op.WriteRegistered?
    ensures Handles(c, s, run, t, k) && t.node[k].op == WriteNotifying({})
  {
    var l := Write(k, WriteMerge);
    HandlerStep(c, s, k, l);
    run, t := WriteNotices(c, Apply(c, s, l), k);
    HandlesMore(c, s, l, run, t, k);
    run := [l] + run;
  }

  lemma FromRead(c: Config, s: State, k: Node) returns (run: seq<Label>, t: State)
    requires DirInv(c, s) && Remote(c, k) && s.node[k].op.WriteAdded?
    ensures Handles(c, s, run, t, k) && t.node[k].op == WriteNotifying({})
  {
    var l := Write(k, WriteRead);
    HandlerStep(c, s, k, l);
    run, t := FromMerge(c, Apply(c, s, l), k);
    HandlesMore(c, s, l, run, t, k);
    run := [l] + run;
  }

  lemma FromRegister(c: Config, s: State, k: Node) returns (run: seq<Label>, t: State)
    requires DirInv(c, s) && Remote(c, k) && s.node[k].op.WriteMarked?
    ensures Handles(c, s, run, t, k) && t.node[k].op == WriteNotifying({})
  {
    var l := Write(k, WriteRegister);
    HandlerStep(c, s, k, l);
    run, t := FromRead(c, Apply(c, s, l), k);
    HandlesMore(c, s, l, run, t, k);
    run := [l] + run;
  }

  lemma FromMark(c: Config, s: State, k: Node) returns (run: seq<Label>, t: State)
    requires DirInv(c, s) && Remote(c, k) && s.node[k].op.WriteChecked?
    ensures Handles(c, s, run, t, k) && t.node[k].op == WriteNotifying({})
  {
    var l := Write(k, WriteMark);
    HandlerStep(c, s, k, l);
    run, t := FromRegister(c, Apply(c, s, l), k);
    HandlesMore(c, s, l, run, t, k);
    run := [l] + run;
  }

  /** A write miss from its check to its last step. */
  lemma WriteHandler(c: Config, s: State, k: Node) returns (run: seq<Label>, t: State)
    requires DirInv(c, s) && Remote(c, k) && (s.node[k].op == WriteChecked || s.node[k].op.WriteNotifying?)
    ensures Handles(c, s, run, t, k) && t.node[k].op == WriteNotifying({})
  {
    if s.node[k].op.WriteNotifying? {
      run, t := WriteNotices(c, s, k);
    } else {
      run, t := FromMark(c, s, k);
    }
  }

  // ----- the operations of the cache -----

  /** A handler of node k for page q, in the memory. */
  lemma HandlerHistory(y: Layout, s: CacheState, g: seq<State>, k: Node, q: nat, run: seq<Label>, t: State)
    requires ShowsAll(y, s, g, k) && q < |g| && y.home[q] != k && Handles(PageConfig(y, q), g[q], run, t, k)
    ensures IsHistory(y, g, Lift(q, run), g[q := t]) && ShowsAll(y, s, g[q := t], k)
  {
    PageRunIsHistory(y, g, q, run, t);
    assert ShowsPage(y, s, g, k, q);
    ShowsAfter(y, s, g, k, q, g[q := t], s);
  }

  /** No page of the slot is cached when it has been made free. */
  lemma SlotIsFree(y: Layout, s: CacheState, g: seq<State>, k: Node, q: nat)
    requires ShowsAll(y, s, g, k) && q < |g| && !s.slots[q % |s.slots|].valid && SlotRests(y, g, k, q)
    ensures !Busy(y, g, q, k) && !Occupied(y, g, q, k)
  {
    forall p | 0 <= p < |g| && p % y.slots == q % y.slots
      ensures g[p].node[k].copy.Absent? && g[p].node[k].op.Idle?
    {
      assert ShowsPage(y, s, g, k, p) && Rests(g[p], k);
      assert NodeOk(PageConfig(y, p), k, g[p].node[k], g[p].node[y.home[p]].sharers, g[p].node[y.home[p]].writers);
    }
  }

  /** The check that begins a load. */
  lemma LoadStarts(y: Layout, s: CacheState, g: seq<State>, k: Node, q: nat)
    requires ShowsAll(y, s, g, k) && q < |g| && y.home[q] != k
    requires !s.slots[q % |s.slots|].valid && SlotRests(y, g, k, q)
    ensures Possible(y, g, At(q, Load(k, LoadCheck)))
    ensures var g' := Next(y, g, At(q, Load(k, LoadCheck)));
      ShowsAll(y, s, g', k) && g'[q].node[k].op.LoadChecked?
  {
    SlotIsFree(y, s, g, k, q);
    assert ShowsPage(y, s, g, k, q) && Rests(g[q], k);
    ShowsNext(y, s, g, k, q, Load(k, LoadCheck), s);
  }

  /** The step that ends it. */
  lemma LoadEnds(y: Layout, s: CacheState, g: seq<State>, k: Node, q: nat)
    requires ShowsAll(y, s, g, k) && q < |g| && y.home[q] != k && !s.slots[q % |s.slots|].valid
    requires g[q].node[k].op == LoadGot(s.home[q])
    ensures Possible(y, g, At(q, Load(k, LoadInstall)))
    ensures ShowsAll(y, Install(s, q, s.home[q]), Next(y, g, At(q, Load(k, LoadInstall))), k)
  {
    assert ShowsPage(y, s, g, k, q);
    InstallIsLoadInstall(s, q, s.home[q], q, PageConfig(y, q), g[q], k);
    InstallKeeps(s, q, s.home[q], y.size);
    forall p | 0 <= p < |g| && p != q
      ensures ShowsPage(y, Install(s, q, s.home[q]), g, k, p)
    {
      assert ShowsPage(y, s, g, k, p);
      if y.home[p] != k {
        InstallIsLoadInstall(s, q, s.home[q], p, PageConfig(y, p), g[p], k);
      }
    }
    ShowsNext(y, s, g, k, q, Load(k, LoadInstall), Install(s, q, s.home[q]));
  }
}
