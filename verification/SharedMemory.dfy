/**
 The whole global memory: many pages behind one direct-mapped cache per node.

 Every page runs the protocol of `PageProtocol` with its own home. The pages of a node meet
 in three places: a page can only be loaded into a cache slot that no other page occupies,
 only one fault handler at a time holds the lock of a slot, and a node goes through a
 barrier with all its pages at once.
 */
module SharedMemory {
  import opened PageProtocol
  import opened BarrierCoherence

  /** `slots` is the number of cache slots per node; page p uses slot p % slots. */
  datatype Layout = Layout(nodes: nat, size: nat, slots: nat, home: seq<Node>)

  datatype Event =
    | At(p: nat, l: Label)   // a step of one page
    | Everywhere(l: Label)   // a barrier step, taken by all pages of the nodes concerned

  ghost predicate ValidLayout(y: Layout) {
    y.slots > 0 && forall p :: 0 <= p < |y.home| ==> y.home[p] < y.nodes
  }

  ghost function PageConfig(y: Layout, p: nat): (c: Config)
    requires ValidLayout(y) && p < |y.home|
    ensures ValidConfig(c)
  {
    Config(y.nodes, y.home[p], y.size)
  }

  ghost predicate WellFormedAll(y: Layout, s: seq<State>) {
    ValidLayout(y) && |s| == |y.home| && forall p :: 0 <= p < |s| ==> WellFormed(PageConfig(y, p), s[p])
  }

  ghost predicate BarrierLabel(l: Label) {
    l.Arrive? || l.Release? || l.Invalidate? || l.UpgradeWriters?
  }

  /** A page other than `p` in the same slot of node `k` is being handled, or cached. */
  ghost predicate Busy(y: Layout, s: seq<State>, p: nat, k: Node)
    requires WellFormedAll(y, s) && p < |s| && k < y.nodes
  {
    exists q :: 0 <= q < |s| && q != p && q % y.slots == p % y.slots && !s[q].node[k].op.Idle?
  }

  ghost predicate Occupied(y: Layout, s: seq<State>, p: nat, k: Node)
    requires WellFormedAll(y, s) && p < |s| && k < y.nodes
  {
    exists q :: 0 <= q < |s| && q != p && q % y.slots == p % y.slots && !s[q].node[k].copy.Absent?
  }

  /** The slot lock and the slot itself are free when a handler starts. */
  ghost predicate SlotFree(y: Layout, s: seq<State>, p: nat, l: Label)
    requires WellFormedAll(y, s) && p < |s| && Enabled(PageConfig(y, p), s[p], l)
  {
    match l
    case Load(k, LoadCheck) => !Busy(y, s, p, k) && !Occupied(y, s, p, k)
    case Write(k, WriteCheck) => !Busy(y, s, p, k)
    case Home(HomeFault(_)) => !Busy(y, s, p, y.home[p])
    case _ => true
  }

  ghost predicate Possible(y: Layout, s: seq<State>, e: Event)
    requires WellFormedAll(y, s)
  {
    match e
    case At(p, l) =>
      p < |s| && !BarrierLabel(l) && Enabled(PageConfig(y, p), s[p], l) && SlotFree(y, s, p, l)
    case Everywhere(l) =>
      BarrierLabel(l) && forall p :: 0 <= p < |s| ==> Enabled(PageConfig(y, p), s[p], l)
  }

  ghost function Next(y: Layout, s: seq<State>, e: Event): (t: seq<State>)
    requires WellFormedAll(y, s) && Possible(y, s, e)
    ensures WellFormedAll(y, t)
  {
    match e
    case At(p, l) => s[p := Apply(PageConfig(y, p), s[p], l)]
    case Everywhere(l) => seq(|s|, p requires 0 <= p < |s| => Apply(PageConfig(y, p), s[p], l))
  }

  ghost predicate IsHistory(y: Layout, s: seq<State>, events: seq<Event>, t: seq<State>): (r: bool)
    requires WellFormedAll(y, s)
    ensures r ==> WellFormedAll(y, t)
    decreases |events|
  {
    if events == [] then t == s
    else Possible(y, s, events[0]) && IsHistory(y, Next(y, s, events[0]), events[1..], t)
  }

  ghost function Start(y: Layout, m: seq<Page>): (s: seq<State>)
    requires ValidLayout(y) && |m| == |y.home| && forall p :: 0 <= p < |m| ==> |m[p]| == y.size
    ensures WellFormedAll(y, s)
  {
    seq(|m|, p requires 0 <= p < |m| => Initial(PageConfig(y, p), m[p]))
  }

  /** The steps of one page in a history. */
  ghost function Steps(events: seq<Event>, p: nat): (run: seq<Label>)
    decreases |events|
  {
    if events == [] then []
    else match events[0]
      case At(q, l) => if q == p then [l] + Steps(events[1..], p) else Steps(events[1..], p)
      case Everywhere(l) => [l] + Steps(events[1..], p)
  }

  /** A history of the whole memory is, page by page, a run of the page protocol. */
  lemma {:induction false} EveryPageRuns(y: Layout, s: seq<State>, events: seq<Event>, t: seq<State>, p: nat)
    requires WellFormedAll(y, s) && IsHistory(y, s, events, t) && p < |s|
    ensures IsRun(PageConfig(y, p), s[p], Steps(events, p), t[p])
    decreases |events|
  {
    if events != [] {
      EveryPageRuns(y, Next(y, s, events[0]), events[1..], t, p);
      var rest := Steps(events[1..], p);
      var run := Steps(events, p);
      if run != rest {
        assert run[1..] == rest;
      }
    }
  }

  ghost function Poke(m: seq<Page>, p: nat, at: nat, v: Byte): (r: seq<Page>)
    ensures |r| == |m|
  {
    if p < |m| && at < |m[p]| then
      var page: Page := m[p][at := v];
      m[p := page]
    else m
  }

  /** The memory of a sequential machine after the stores of a history. */
  ghost function StoresAll(m: seq<Page>, events: seq<Event>): (r: seq<Page>)
    ensures |r| == |m|
    decreases |events|
  {
    if events == [] then m
    else match events[0]
      case At(p, Store(_, at, v)) =>
        StoresAll(Poke(m, p, at, v), events[1..])
      case _ => StoresAll(m, events[1..])
  }

  lemma {:induction false} StoresByPage(m: seq<Page>, events: seq<Event>, p: nat)
    requires p < |m|
    requires forall e :: e in events && e.Everywhere? ==> BarrierLabel(e.l)
    ensures StoresAll(m, events)[p] == Stores(m[p], Steps(events, p))
    decreases |events|
  {
    if events != [] {
      var run := Steps(events, p);
      match events[0]
      case At(q, Store(k, at, v)) =>
        StoresByPage(Poke(m, q, at, v), events[1..], p);
        if q == p {
          assert run[1..] == Steps(events[1..], p);
        }
      case At(q, l) =>
        StoresByPage(m, events[1..], p);
        if q == p {
          assert run[1..] == Steps(events[1..], p);
        }
      case Everywhere(l) =>
        StoresByPage(m, events[1..], p);
        assert run[1..] == Steps(events[1..], p);
    }
  }

  lemma {:induction false} BarriersEverywhere(y: Layout, s: seq<State>, events: seq<Event>, t: seq<State>)
    requires WellFormedAll(y, s) && IsHistory(y, s, events, t)
    ensures forall e :: e in events && e.Everywhere? ==> BarrierLabel(e.l)
    decreases |events|
  {
    if events != [] {
      BarriersEverywhere(y, Next(y, s, events[0]), events[1..], t);
    }
  }

  /**
   Sequential consistency for programs free of data races between barriers: in every history
   of the whole memory, a running node that reads a byte no other node has stored since the
   last barrier gets the value of the last store to it.
   */
  lemma MemoryIsCoherent(y: Layout, m: seq<Page>, events: seq<Event>, t: seq<State>, k: Node, p: nat, b: nat)
    requires ValidLayout(y) && |m| == |y.home| && forall q :: 0 <= q < |m| ==> |m[q]| == y.size
    requires IsHistory(y, Start(y, m), events, t)
    requires k < y.nodes && p < |m| && b < y.size
    requires t[p].node[k].mode.Running? && Mine(t[p].writer[b], k)
    ensures |StoresAll(m, events)[p]| == y.size
    ensures View(PageConfig(y, p), t[p], k)[b] == StoresAll(m, events)[p][b]
  {
    EveryPageRuns(y, Start(y, m), events, t, p);
    ReadsSeeLastStore(PageConfig(y, p), m[p], Steps(events, p), t[p], k, b);
    BarriersEverywhere(y, Start(y, m), events, t);
    StoresByPage(m, events, p);
  }

  ghost predicate LoadOp(o: Op) {
    o.LoadChecked? || o.LoadFetched? || o.LoadMerged? || o.LoadGot?
  }

  /** Two pages of one slot: not both handled, not both cached, and none cached while the other loads. */
  ghost predicate Apart(n: NodeState, m: NodeState) {
    && (n.op.Idle? || m.op.Idle?)
    && (n.copy.Absent? || m.copy.Absent?)
    && (LoadOp(n.op) ==> m.copy.Absent?)
    && (LoadOp(m.op) ==> n.copy.Absent?)
  }

  /** In one slot of a node at most one page is cached or being handled. */
  ghost predicate SlotExclusive(y: Layout, s: seq<State>)
    requires WellFormedAll(y, s)
  {
    forall p, q, k :: 0 <= p < |s| && 0 <= q < |s| && p != q && p % y.slots == q % y.slots && 0 <= k < y.nodes ==>
      Apart(s[p].node[k], s[q].node[k])
  }

  /** The node whose slot lock a handler takes when it starts. */
  ghost predicate StartsAt(c: Config, l: Label, k: Node) {
    l == Load(k, LoadCheck) || l == Write(k, WriteCheck) || (l.Home? && l.step.HomeFault? && k == c.home)
  }

  /** A handler begins only with its first step, and a copy appears only by installing a load. */
  ghost predicate Begins(c: Config, l: Label, k: Node, n: NodeState, n': NodeState) {
    && (!n'.op.Idle? ==> !n.op.Idle? || StartsAt(c, l, k))
    && (LoadOp(n'.op) ==> LoadOp(n.op) || l == Load(k, LoadCheck))
    && (!n'.copy.Absent? ==> !n.copy.Absent? || n.op.LoadGot?)
  }

  lemma LoadBegins(c: Config, s: State, j: Node, step: LoadStep, k: Node)
    requires WellFormed(c, s) && CanLoad(c, s, j, step) && k < c.nodes
    ensures Begins(c, Load(j, step), k, s.node[k], LoadNext(c, s, j, step).node[k])
  {
  }

  lemma WriteBegins(c: Config, s: State, j: Node, step: WriteStep, k: Node)
    requires WellFormed(c, s) && CanWrite(c, s, j, step) && k < c.nodes
    ensures Begins(c, Write(j, step), k, s.node[k], WriteNext(c, s, j, step).node[k])
  {
  }

  lemma HomeBegins(c: Config, s: State, step: HomeStep, k: Node)
    requires WellFormed(c, s) && CanHome(c, s, step) && k < c.nodes
    ensures Begins(c, Home(step), k, s.node[k], HomeNext(c, s, step).node[k])
  {
  }

  lemma HandlersBegin(c: Config, s: State, l: Label, k: Node)
    requires WellFormed(c, s) && Enabled(c, s, l) && k < c.nodes
    ensures Begins(c, l, k, s.node[k], Apply(c, s, l).node[k])
  {
    match l
    case Load(j, step) => LoadBegins(c, s, j, step, k);
    case Write(j, step) => WriteBegins(c, s, j, step, k);
    case Home(step) => HomeBegins(c, s, step, k);
    case _ =>
  }

  lemma ApartStep(y: Layout, s: seq<State>, p: nat, q: nat, k: Node, l: Label)
    requires WellFormedAll(y, s) && p < |s| && q < |s| && p != q && p % y.slots == q % y.slots && k < y.nodes
    requires Possible(y, s, At(p, l)) && Apart(s[p].node[k], s[q].node[k])
    ensures Apart(Apply(PageConfig(y, p), s[p], l).node[k], s[q].node[k])
  {
    HandlersBegin(PageConfig(y, p), s[p], l, k);
    if StartsAt(PageConfig(y, p), l, k) {
      assert !Busy(y, s, p, k);
    }
  }

  lemma ApartEverywhere(y: Layout, s: seq<State>, l: Label, p: nat, q: nat, k: Node)
    requires WellFormedAll(y, s) && Possible(y, s, Everywhere(l))
    requires p < |s| && q < |s| && p != q && k < y.nodes && Apart(s[p].node[k], s[q].node[k])
    ensures Apart(Next(y, s, Everywhere(l))[p].node[k], Next(y, s, Everywhere(l))[q].node[k])
  {
    HandlersBegin(PageConfig(y, p), s[p], l, k);
    HandlersBegin(PageConfig(y, q), s[q], l, k);
  }

  lemma ApartNext(y: Layout, s: seq<State>, e: Event, p: nat, q: nat, k: Node)
    requires WellFormedAll(y, s) && SlotExclusive(y, s) && Possible(y, s, e)
    requires p < |s| && q < |s| && p != q && p % y.slots == q % y.slots && k < y.nodes
    ensures Apart(Next(y, s, e)[p].node[k], Next(y, s, e)[q].node[k])
  {
    assert Apart(s[p].node[k], s[q].node[k]);
    if e.At? {
      if e.p == p {
        ApartStep(y, s, p, q, k, e.l);
      } else if e.p == q {
        ApartStep(y, s, q, p, k, e.l);
      }
    } else {
      ApartEverywhere(y, s, e.l, p, q, k);
    }
  }

  lemma SlotExclusiveStep(y: Layout, s: seq<State>, e: Event)
    requires WellFormedAll(y, s) && SlotExclusive(y, s) && Possible(y, s, e)
    ensures SlotExclusive(y, Next(y, s, e))
  {
    forall p, q, k |
      0 <= p < |s| && 0 <= q < |s| && p != q && p % y.slots == q % y.slots && 0 <= k < y.nodes
      ensures Apart(Next(y, s, e)[p].node[k], Next(y, s, e)[q].node[k])
    {
      ApartNext(y, s, e, p, q, k);
    }
  }

  lemma {:induction false} SlotExclusiveRun(y: Layout, s: seq<State>, events: seq<Event>, t: seq<State>)
    requires WellFormedAll(y, s) && SlotExclusive(y, s) && IsHistory(y, s, events, t)
    ensures SlotExclusive(y, t)
    decreases |events|
  {
    if events != [] {
      SlotExclusiveStep(y, s, events[0]);
      SlotExclusiveRun(y, Next(y, s, events[0]), events[1..], t);
    }
  }

  /** Direct mapping is never violated: no two pages ever share a slot of a node. */
  lemma SlotsAreExclusive(y: Layout, m: seq<Page>, events: seq<Event>, t: seq<State>)
    requires ValidLayout(y) && |m| == |y.home| && forall q :: 0 <= q < |m| ==> |m[q]| == y.size
    requires IsHistory(y, Start(y, m), events, t)
    ensures SlotExclusive(y, t)
  {
    SlotExclusiveRun(y, Start(y, m), events, t);
  }
}
