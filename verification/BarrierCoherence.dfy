/**
 What the nodes read. For programs free of data races between barriers, every byte a node
 can read is the value of the shared memory all stores are meant to produce, although
 copies are kept across barriers on the strength of the directory alone, several nodes may
 write one page, and pages are evicted, flushed and stored to silently at any time.
 */
module BarrierCoherence {
  import opened PageProtocol
  import opened DirectorySafety

  /** The byte is not being written by another node in this phase. */
  ghost predicate Mine(writer: set<Node>, k: Node) {
    writer <= {k}
  }

  ghost predicate Agrees(k: Node, data: Page, truth: Page, writer: seq<set<Node>>)
    requires |data| == |truth| == |writer|
  {
    forall b :: 0 <= b < |data| && Mine(writer[b], k) ==> data[b] == truth[b]
  }

  /** What holds of the copy one node keeps, or has fetched and not installed yet. */
  ghost predicate CopyOk(c: Config, k: Node, n: NodeState, memory: Page, truth: Page, writer: seq<set<Node>>)
    requires NodeShape(c, n) && |memory| == |truth| == |writer| == c.size
  {
    && (n.op.LoadGot? ==> Agrees(k, n.op.fetched, truth, writer))
    && (n.copy.Clean? ==> Agrees(k, n.copy.data, truth, writer) || (n.mode.Draining? && Other(n.writers, k)))
    && (n.copy.Dirty? ==>
          && Agrees(k, n.copy.data, truth, writer)
          && (forall b :: 0 <= b < c.size && Mine(writer[b], k) ==> n.copy.twin[b] == memory[b])
          && (forall b :: 0 <= b < c.size && n.copy.data[b] != n.copy.twin[b] ==> writer[b] == {k}))
    && (k != c.home ==>
          && (n.copy.Absent? <==> n.prot.NoAccess?)
          && (n.copy.Clean? <==> n.prot.ReadOnly?)
          && (n.copy.Dirty? <==> n.prot.ReadWrite?))
  }

  ghost predicate DirtyAt(c: Config, s: State, writer: set<Node>) {
    exists k :: 0 <= k < |s.node| && k != c.home && writer == {k} && s.node[k].copy.Dirty?
  }

  /** The home is up to date on every byte except those whose writer still holds them dirty. */
  ghost predicate MemoryOk(c: Config, s: State)
    requires WellFormed(c, s)
  {
    && (forall b :: 0 <= b < c.size ==> s.memory[b] == s.truth[b] || DirtyAt(c, s, s.writer[b]))
    && (forall b, x :: 0 <= b < c.size && x in s.writer[b] ==> x in s.wrote && s.writer[b] == {x})
  }

  ghost predicate DataInv(c: Config, s: State)
    requires WellFormed(c, s)
  {
    && MemoryOk(c, s)
    && forall k :: 0 <= k < c.nodes ==> CopyOk(c, k, s.node[k], s.memory, s.truth, s.writer)
  }

  ghost predicate Inv(c: Config, s: State) {
    DirInv(c, s) && DataInv(c, s)
  }

  lemma InitialInv(c: Config, m: Page)
    requires ValidConfig(c) && |m| == c.size
    ensures Inv(c, Initial(c, m))
  {
  }

  /** A byte that is nobody else's is up to date at the home if the node holds no dirty copy. */
  lemma HomeUpToDate(c: Config, s: State, k: Node)
    requires WellFormed(c, s) && DataInv(c, s) && k < c.nodes && !s.node[k].copy.Dirty?
    ensures Agrees(k, s.memory, s.truth, s.writer)
  {
  }

  /** Steps that change only directory words and handlers, and load a copy or start to write one. */
  lemma FrameKeeps(c: Config, s: State, t: State, j: Node, m: Node)
    requires Inv(c, s) && DirInv(c, t) && Changed(c, s, t, j, m)
    requires t.memory == s.memory && t.truth == s.truth && t.writer == s.writer && t.wrote == s.wrote
    requires CopyOk(c, j, t.node[j], s.memory, s.truth, s.writer)
    requires m != j ==> t.node[m] == s.node[m].(sharers := t.node[m].sharers, writers := t.node[m].writers)
    requires m != j ==> s.node[m].writers <= t.node[m].writers
    requires s.node[j].copy.Dirty? ==> t.node[j].copy.Dirty?
    ensures Inv(c, t)
  {
    forall k | 0 <= k < c.nodes ensures CopyOk(c, k, t.node[k], t.memory, t.truth, t.writer) {
      assert CopyOk(c, k, s.node[k], s.memory, s.truth, s.writer);
    }
    DirtyStaysDirty(c, s, t);
  }

  lemma LoadKeeps(c: Config, s: State, j: Node, step: LoadStep)
    requires Inv(c, s) && CanLoad(c, s, j, step)
    ensures Inv(c, LoadNext(c, s, j, step))
  {
    DirInvStep(c, s, Load(j, step));
    assert NodeOk(c, j, s.node[j], s.node[c.home].sharers, s.node[c.home].writers);
    assert CopyOk(c, j, s.node[j], s.memory, s.truth, s.writer);
    HomeUpToDate(c, s, j);
    var m := match step case LoadRegister(_) => c.home case LoadNotice(o) => o case _ => j;
    FrameKeeps(c, s, LoadNext(c, s, j, step), j, m);
  }

  /** The other node whose words a step of the write handler changes. */
  function WriteOther(c: Config, j: Node, step: WriteStep): (m: Node) {
    match step case WriteRegister => c.home case WriteNotice(o) => o case _ => j
  }

  lemma WriteCopy(c: Config, s: State, j: Node, step: WriteStep)
    requires WellFormed(c, s) && CanWrite(c, s, j, step)
    requires CopyOk(c, j, s.node[j], s.memory, s.truth, s.writer)
    requires Agrees(j, s.memory, s.truth, s.writer)
    requires NodeOk(c, j, s.node[j], s.node[c.home].sharers, s.node[c.home].writers)
    ensures var t := WriteNext(c, s, j, step);
      && WellFormed(c, t) && CopyOk(c, j, t.node[j], s.memory, s.truth, s.writer)
      && (s.node[j].copy.Dirty? ==> t.node[j].copy.Dirty?)
  {
  }

  /** Nothing but the words and the handler of j, its copy, and the words of one other node changes. */
  lemma WriteFrame(c: Config, s: State, j: Node, step: WriteStep)
    requires WellFormed(c, s) && CanWrite(c, s, j, step)
    ensures var t, m := WriteNext(c, s, j, step), WriteOther(c, j, step);
      && Changed(c, s, t, j, m)
      && t.memory == s.memory && t.truth == s.truth && t.writer == s.writer && t.wrote == s.wrote
      && (m != j ==>
            && t.node[m] == s.node[m].(sharers := t.node[m].sharers, writers := t.node[m].writers)
            && s.node[m].writers <= t.node[m].writers)
  {
  }

  lemma WriteKeeps(c: Config, s: State, j: Node, step: WriteStep)
    requires Inv(c, s) && CanWrite(c, s, j, step)
    ensures Inv(c, WriteNext(c, s, j, step))
  {
    DirInvStep(c, s, Write(j, step));
    HomeUpToDate(c, s, j);
    WriteCopy(c, s, j, step);
    WriteFrame(c, s, j, step);
    FrameKeeps(c, s, WriteNext(c, s, j, step), j, WriteOther(c, j, step));
  }

  lemma HomeKeeps(c: Config, s: State, step: HomeStep)
    requires Inv(c, s) && CanHome(c, s, step)
    ensures Inv(c, HomeNext(c, s, step))
  {
    DirInvStep(c, s, Home(step));
    assert CopyOk(c, c.home, s.node[c.home], s.memory, s.truth, s.writer);
    var m := match step case HomeJoinNotice(o) => o case HomeNotice(o) => o case _ => c.home;
    FrameKeeps(c, s, HomeNext(c, s, step), c.home, m);
  }

  /** A store leaves every other node's obligations behind: the byte is not theirs any more. */
  lemma StoreElsewhere(c: Config, k: Node, n: NodeState, s: State, t: State, j: Node, at: nat, v: Byte)
    requires WellFormed(c, s) && WellFormed(c, t) && NodeShape(c, n) && k != j && at < c.size
    requires CopyOk(c, k, n, s.memory, s.truth, s.writer) && Mine(s.writer[at], j)
    requires t.truth == s.truth[at := v] && t.writer == s.writer[at := {j}]
    requires t.memory == s.memory || t.memory == s.memory[at := v]
    ensures CopyOk(c, k, n, t.memory, t.truth, t.writer)
  {
    assert !Mine(t.writer[at], k);
    assert s.writer[at] != {k};
  }

  lemma StoreCopy(c: Config, s: State, j: Node, at: nat, v: Byte, k: Node)
    requires Inv(c, s) && Enabled(c, s, Store(j, at, v)) && k < c.nodes
    ensures var t := StoreNext(c, s, j, at, v); CopyOk(c, k, t.node[k], t.memory, t.truth, t.writer)
  {
    var t := StoreNext(c, s, j, at, v);
    assert CopyOk(c, k, s.node[k], s.memory, s.truth, s.writer);
    if k != j {
      StoreElsewhere(c, k, s.node[k], s, t, j, at, v);
    } else {
      assert NodeOk(c, k, s.node[k], s.node[c.home].sharers, s.node[c.home].writers);
    }
  }

  lemma StoreKeeps(c: Config, s: State, j: Node, at: nat, v: Byte)
    requires Inv(c, s) && Enabled(c, s, Store(j, at, v))
    ensures Inv(c, StoreNext(c, s, j, at, v))
  {
    DirInvStep(c, s, Store(j, at, v));
    var t := StoreNext(c, s, j, at, v);
    forall k | 0 <= k < c.nodes ensures CopyOk(c, k, t.node[k], t.memory, t.truth, t.writer) {
      StoreCopy(c, s, j, at, v, k);
    }
    DirtyStaysDirty(c, s, t);
    assert j != c.home ==> t.node[j].copy.Dirty?;
  }

  lemma DirtyStaysDirty(c: Config, s: State, t: State)
    requires WellFormed(c, s) && WellFormed(c, t)
    requires forall k :: 0 <= k < c.nodes && s.node[k].copy.Dirty? ==> t.node[k].copy.Dirty?
    ensures forall w :: DirtyAt(c, s, w) ==> DirtyAt(c, t, w)
  {
    forall w | DirtyAt(c, s, w) ensures DirtyAt(c, t, w) {
      var k :| 0 <= k < |s.node| && k != c.home && w == {k} && s.node[k].copy.Dirty?;
      assert t.node[k].copy.Dirty?;
    }
  }

  /** Writing back one dirty copy changes the home only at bytes that node alone has written. */
  lemma WriteBackKeeps(c: Config, s: State, j: Node)
    requires Inv(c, s) && Enabled(c, s, WriteBack(j))
    ensures Inv(c, WriteBackNext(c, s, j))
  {
    DirInvStep(c, s, WriteBack(j));
    var t := WriteBackNext(c, s, j);
    assert CopyOk(c, j, s.node[j], s.memory, s.truth, s.writer);
    assert forall b :: 0 <= b < c.size && t.memory[b] != s.memory[b] ==> s.writer[b] == {j};
    forall k | 0 <= k < c.nodes ensures CopyOk(c, k, t.node[k], t.memory, t.truth, t.writer) {
      assert CopyOk(c, k, s.node[k], s.memory, s.truth, s.writer);
      if k != j {
        WriteBackElsewhere(c, k, s.node[k], s, t.memory, j);
      }
    }
    forall b | 0 <= b < c.size ensures t.memory[b] == t.truth[b] || DirtyAt(c, t, t.writer[b]) {
      if s.writer[b] == {j} {
        assert Mine(s.writer[b], j);
      } else if DirtyAt(c, s, s.writer[b]) {
        var k :| 0 <= k < |s.node| && k != c.home && s.writer[b] == {k} && s.node[k].copy.Dirty?;
        assert t.node[k].copy.Dirty?;
      }
    }
  }

  lemma WriteBackElsewhere(c: Config, k: Node, n: NodeState, s: State, memory: Page, j: Node)
    requires WellFormed(c, s) && NodeShape(c, n) && k != j && |memory| == c.size
    requires CopyOk(c, k, n, s.memory, s.truth, s.writer)
    requires forall b :: 0 <= b < c.size && memory[b] != s.memory[b] ==> s.writer[b] == {j}
    ensures CopyOk(c, k, n, memory, s.truth, s.writer)
  {
  }

  lemma LocalStepKeeps(c: Config, s: State, l: Label)
    requires Inv(c, s) && Enabled(c, s, l) && (l.Evict? || l.Arrive? || l.Invalidate?)
    ensures Inv(c, Apply(c, s, l))
  {
    DirInvStep(c, s, l);
    assert NodeOk(c, l.k, s.node[l.k], s.node[c.home].sharers, s.node[c.home].writers);
    assert CopyOk(c, l.k, s.node[l.k], s.memory, s.truth, s.writer);
    FrameKeeps(c, s, Apply(c, s, l), l.k, l.k);
  }

  /** When everybody has arrived at a barrier, the home holds all stores. */
  lemma ArrivedMemory(c: Config, s: State)
    requires Inv(c, s) && forall k :: 0 <= k < c.nodes ==> s.node[k].mode.Arrived?
    ensures s.memory == s.truth
    ensures Quiescent(s)
  {
    forall k | 0 <= k < c.nodes ensures !s.node[k].copy.Dirty? && s.node[k].op.Idle? {
      assert NodeOk(c, k, s.node[k], s.node[c.home].sharers, s.node[c.home].writers);
    }
  }

  /** ... and a copy the directory lets its node keep is the whole truth. */
  lemma ArrivedCopy(c: Config, s: State, k: Node)
    requires Inv(c, s) && forall i :: 0 <= i < c.nodes ==> s.node[i].mode.Arrived?
    requires k < c.nodes && s.node[k].copy.Clean?
    ensures Keeps(k, s.node[k]) || Other(s.node[k].writers, k)
    ensures Keeps(k, s.node[k]) ==> s.node[k].copy.data == s.truth
  {
    ArrivedMemory(c, s);
    KeepingIsExact(c, s, k);
    assert NodeOk(c, k, s.node[k], s.node[c.home].sharers, s.node[c.home].writers);
    assert CopyOk(c, k, s.node[k], s.memory, s.truth, s.writer);
    if Keeps(k, s.node[k]) {
      forall b | 0 <= b < c.size ensures s.node[k].copy.data[b] == s.truth[b] {
        assert Mine(s.writer[b], k);
      }
    }
  }

  lemma ReleaseCoherent(c: Config, s: State)
    requires Inv(c, s) && Enabled(c, s, Release)
    ensures Inv(c, ReleaseNext(c, s))
  {
    DirInvStep(c, s, Release);
    ArrivedMemory(c, s);
    var t := ReleaseNext(c, s);
    forall k | 0 <= k < c.nodes ensures CopyOk(c, k, t.node[k], t.memory, t.truth, t.writer) {
      assert NodeOk(c, k, s.node[k], s.node[c.home].sharers, s.node[c.home].writers);
      assert CopyOk(c, k, s.node[k], s.memory, s.truth, s.writer);
      if s.node[k].copy.Clean? {
        ArrivedCopy(c, s, k);
      }
    }
  }

  lemma UpgradeCoherent(c: Config, s: State)
    requires Inv(c, s) && Enabled(c, s, UpgradeWriters)
    ensures Inv(c, UpgradeNext(c, s))
  {
    DirInvStep(c, s, UpgradeWriters);
    ArrivedMemory(c, s);
    var t := UpgradeNext(c, s);
    forall k | 0 <= k < c.nodes ensures CopyOk(c, k, t.node[k], t.memory, t.truth, t.writer) {
      assert NodeOk(c, k, s.node[k], s.node[c.home].sharers, s.node[c.home].writers);
      assert CopyOk(c, k, s.node[k], s.memory, s.truth, s.writer);
      if s.node[k].copy.Clean? {
        ArrivedCopy(c, s, k);
      }
    }
  }

  lemma InvStep(c: Config, s: State, l: Label)
    requires Inv(c, s) && Enabled(c, s, l)
    ensures Inv(c, Apply(c, s, l))
  {
    match l
    case Load(k, step) => LoadKeeps(c, s, k, step);
    case Write(k, step) => WriteKeeps(c, s, k, step);
    case Home(step) => HomeKeeps(c, s, step);
    case Store(k, at, v) => StoreKeeps(c, s, k, at, v);
    case WriteBack(k) => WriteBackKeeps(c, s, k);
    case Release => ReleaseCoherent(c, s);
    case UpgradeWriters => UpgradeCoherent(c, s);
    case _ => LocalStepKeeps(c, s, l);
  }

  lemma {:induction false} InvRun(c: Config, s: State, run: seq<Label>, t: State)
    requires Inv(c, s) && IsRun(c, s, run, t)
    ensures Inv(c, t)
    decreases |run|
  {
    if run != [] {
      InvStep(c, s, run[0]);
      InvRun(c, Apply(c, s, run[0]), run[1..], t);
    }
  }

  /** The memory a sequential machine would hold after the stores of a run, in run order. */
  ghost function Stores(m: Page, run: seq<Label>): (r: Page)
    ensures |r| == |m|
    decreases |run|
  {
    if run == [] then m
    else match run[0]
      case Store(_, at, v) => Stores(if at < |m| then m[at := v] else m, run[1..])
      case _ => Stores(m, run[1..])
  }

  lemma {:induction false} TruthIsStores(c: Config, s: State, run: seq<Label>, t: State)
    requires WellFormed(c, s) && IsRun(c, s, run, t)
    ensures t.truth == Stores(s.truth, run)
    decreases |run|
  {
    if run != [] {
      var next := Apply(c, s, run[0]);
      TruthIsStores(c, next, run[1..], t);
      if !run[0].Store? {
        assert next.truth == s.truth;
      }
    }
  }

  /** The bytes a node sees: the home's memory at the home, its copy elsewhere. */
  ghost function View(c: Config, s: State, k: Node): (r: Page)
    requires WellFormed(c, s) && k < c.nodes
  {
    if k == c.home || s.node[k].copy.Absent? then s.memory else s.node[k].copy.data
  }

  /**
   In every run, whatever handlers are in flight, a running node that reads a byte no other
   node has stored since the last barrier gets the last value stored to it. A node that does
   not cache the page would load exactly those bytes.
   */
  lemma ReadsSeeLastStore(c: Config, m: Page, run: seq<Label>, s: State, k: Node, b: nat)
    requires ValidConfig(c) && |m| == c.size && IsRun(c, Initial(c, m), run, s)
    requires k < c.nodes && s.node[k].mode.Running? && b < c.size && Mine(s.writer[b], k)
    ensures View(c, s, k)[b] == Stores(m, run)[b]
  {
    InitialInv(c, m);
    InvRun(c, Initial(c, m), run, s);
    TruthIsStores(c, Initial(c, m), run, s);
    assert CopyOk(c, k, s.node[k], s.memory, s.truth, s.writer);
    assert NodeOk(c, k, s.node[k], s.node[c.home].sharers, s.node[c.home].writers);
    if s.node[k].copy.Absent? {
      HomeUpToDate(c, s, k);
    }
  }

  /**
   After a barrier and before the next store, the home's memory and the page every running
   node sees are the same: the initial memory with all stores of the run applied.
   */
  lemma CoherentAfterBarrier(c: Config, m: Page, run: seq<Label>, s: State, k: Node)
    requires ValidConfig(c) && |m| == c.size && IsRun(c, Initial(c, m), run, s)
    requires k < c.nodes && s.node[k].mode.Running? && forall b :: 0 <= b < c.size ==> s.writer[b] == {}
    ensures s.memory == View(c, s, k) == Stores(m, run)
  {
    InitialInv(c, m);
    InvRun(c, Initial(c, m), run, s);
    TruthIsStores(c, Initial(c, m), run, s);
    forall b | 0 <= b < c.size
      ensures s.memory[b] == View(c, s, k)[b] == Stores(m, run)[b]
    {
      ReadsSeeLastStore(c, m, run, s, k, b);
      assert !DirtyAt(c, s, s.writer[b]);
    }
  }

  /** What every node looks like after an upgrade-writers barrier. */
  lemma UpgradeIsClean(c: Config, s: State, k: Node)
    requires Inv(c, s) && Enabled(c, s, UpgradeWriters) && k < c.nodes
    ensures var t := UpgradeNext(c, s); var n := t.node[k];
      && Inv(c, t) && n.writers == {} && n.op.Idle? && n.mode.Running?
      && !n.prot.ReadWrite? && !n.copy.Dirty? && t.memory == t.truth == s.truth
      && (n.copy.Clean? ==> n.copy.data == t.memory && k in n.sharers && k in t.node[c.home].sharers)
      && n.sharers == s.node[k].sharers
  {
    UpgradeCoherent(c, s);
    ArrivedMemory(c, s);
    assert NodeOk(c, k, s.node[k], s.node[c.home].sharers, s.node[c.home].writers);
    assert CopyOk(c, k, s.node[k], s.memory, s.truth, s.writer);
    if s.node[k].copy.Clean? {
      ArrivedCopy(c, s, k);
    }
  }
}
