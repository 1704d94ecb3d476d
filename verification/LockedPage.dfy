/**
 One page under plain acquire and release, where no barrier stops the other nodes.

 Some of its bytes are guarded by a lock; the rest may be stored by anybody at any time. The
 steps are those of `PageProtocol`, so fault handlers of all nodes are in flight, and acquire
 decides what to keep by the directory words of its node alone. `Access` is what the lock
 gives each node: `Writing` to the node of the holder, `Trusted` to a node whose copy of the
 guarded bytes can be used without another acquire, `Stranger` to the rest.
 */
module LockedPage {
  import opened PageProtocol
  import opened DirectorySafety
  import opened BarrierCoherence

  datatype Access = Stranger | Trusted | Writing

  /** What node k has of a guarded byte: the right value, unless it is a stranger and others have stored. */
  ghost predicate ByteOk(k: Node, a: Access, wrote: set<Node>, v: Byte, truth: Byte) {
    v == truth || (a.Stranger? && Other(wrote, k))
  }

  ghost predicate NodeByte(c: Config, k: Node, n: NodeState, a: Access, wrote: set<Node>, b: nat, memory: Byte,
                           truth: Byte)
    requires NodeShape(c, n) && b < c.size
  {
    && (n.op.LoadGot? ==> ByteOk(k, a, wrote, n.op.fetched[b], truth))
    && (n.copy.Clean? ==> ByteOk(k, a, wrote, n.copy.data[b], truth))
    && (n.copy.Dirty? ==>
          && ByteOk(k, a, wrote, n.copy.data[b], truth)
          && n.copy.twin[b] == if a.Writing? then memory else n.copy.data[b])
  }

  /** The writing node has stored and not written back. */
  ghost predicate DirtyWriter(c: Config, s: State, acc: seq<Access>) {
    exists k ::
      0 <= k < |acc| && k < |s.node| && k != c.home && acc[k].Writing? && s.node[k].copy.Dirty? && k in s.wrote
  }

  ghost predicate MemoryData(c: Config, g: set<nat>, s: State, acc: seq<Access>)
    requires WellFormed(c, s)
  {
    forall b :: 0 <= b < c.size && b in g ==> s.memory[b] == s.truth[b] || DirtyWriter(c, s, acc)
  }

  ghost predicate NodeData(c: Config, g: set<nat>, k: Node, n: NodeState, a: Access, memory: Page, truth: Page,
                           wrote: set<Node>)
    requires NodeShape(c, n) && |memory| == |truth| == c.size
  {
    forall b :: 0 <= b < c.size && b in g ==> NodeByte(c, k, n, a, wrote, b, memory[b], truth[b])
  }

  /** While one node writes, all others are strangers. */
  ghost predicate OneWriter(acc: seq<Access>) {
    forall j, k :: 0 <= j < |acc| && 0 <= k < |acc| && j != k && acc[j].Writing? ==> acc[k].Stranger?
  }

  ghost predicate PageData(c: Config, g: set<nat>, s: State, acc: seq<Access>)
    requires WellFormed(c, s) && |acc| == c.nodes
  {
    && MemoryData(c, g, s, acc)
    && forall k :: 0 <= k < c.nodes ==> NodeData(c, g, k, s.node[k], acc[k], s.memory, s.truth, s.wrote)
  }

  ghost predicate AllRunning(s: State) {
    forall k :: 0 <= k < |s.node| ==> s.node[k].mode.Running?
  }

  ghost predicate PageInv(c: Config, g: set<nat>, s: State, acc: seq<Access>) {
    && DirInv(c, s) && AllRunning(s)
    && |acc| == c.nodes && OneWriter(acc) && PageData(c, g, s, acc)
  }

  // ----- the steps -----

  ghost predicate HandlerLabel(l: Label) {
    l.Load? || l.Write? || l.Home?
  }

  /** Who stored what since the last barrier does not matter here. */
  ghost function Unphased(c: Config, s: State): (t: State) {
    s.(writer := seq(c.size, _ => {}))
  }

  ghost predicate CanStore(c: Config, s: State, k: Node, at: nat)
    requires WellFormed(c, s)
  {
    && k < c.nodes && at < c.size && s.node[k].mode.Running? && s.node[k].prot.ReadWrite?
    && (k != c.home ==> s.node[k].copy.Dirty?)
  }

  ghost function Stored(c: Config, s: State, k: Node, at: nat, v: Byte): (t: State)
    requires WellFormed(c, s) && CanStore(c, s, k, at)
    ensures WellFormed(c, t)
  {
    StoreNext(c, Unphased(c, s), k, at, v)
  }

  /** No handler of the node is running: acquire and release hold its sync_lock. */
  ghost predicate AtRest(c: Config, s: State, k: Node)
    requires WellFormed(c, s)
  {
    k < c.nodes && s.node[k].mode.Running? && s.node[k].op.Idle? && (k == c.home ==> s.node[k].copy.Absent?)
  }

  /** argo_release on one page: the flush. */
  ghost function ReleasedPage(c: Config, s: State, k: Node): (t: State)
    requires WellFormed(c, s) && AtRest(c, s, k)
    ensures WellFormed(c, t) && AtRest(c, t, k) && !t.node[k].copy.Dirty?
  {
    if s.node[k].copy.Dirty? then WriteBackNext(c, s, k) else s
  }

  /** argo_acquire on one page: the flush, and the copy is dropped unless the node's own words let it be kept. */
  ghost function AcquiredPage(c: Config, s: State, k: Node): (t: State)
    requires WellFormed(c, s) && AtRest(c, s, k)
    ensures WellFormed(c, t) && AtRest(c, t, k) && !t.node[k].copy.Dirty?
  {
    var u := ReleasedPage(c, s, k);
    if u.node[k].copy.Clean? && !Keeps(k, u.node[k]) then Apply(c, u, Evict(k)) else u
  }

  // ----- what they keep -----

  lemma UnphasedKeeps(c: Config, g: set<nat>, s: State, acc: seq<Access>)
    requires PageInv(c, g, s, acc)
    ensures PageInv(c, g, Unphased(c, s), acc)
  {
    var t := Unphased(c, s);
    forall k | 0 <= k < c.nodes
      ensures Told(c, t, k)
    {
      assert Told(c, s, k);
    }
  }

  /** Steps that leave the data at the home and at all nodes but j alone. */
  lemma FrameData(c: Config, g: set<nat>, s: State, t: State, acc: seq<Access>, j: Node)
    requires PageInv(c, g, s, acc) && WellFormed(c, t) && j < c.nodes
    requires t.memory == s.memory && t.truth == s.truth && t.wrote == s.wrote
    requires forall k :: 0 <= k < c.nodes && k != j ==> t.node[k].copy == s.node[k].copy && t.node[k].op == s.node[k].op
    requires s.node[j].copy.Dirty? ==> t.node[j].copy.Dirty?
    requires NodeData(c, g, j, t.node[j], acc[j], t.memory, t.truth, t.wrote)
    ensures PageData(c, g, t, acc)
  {
    forall k | 0 <= k < c.nodes
      ensures NodeData(c, g, k, t.node[k], acc[k], t.memory, t.truth, t.wrote)
    {
      assert NodeData(c, g, k, s.node[k], acc[k], s.memory, s.truth, s.wrote);
    }
    if DirtyWriter(c, s, acc) {
      var k :|
        0 <= k < |acc| && k < |s.node| && k != c.home && acc[k].Writing? && s.node[k].copy.Dirty? && k in s.wrote;
      assert t.node[k].copy.Dirty?;
    }
  }

  /** The memory is as good as a copy, for every node but the one that has stored and not written back. */
  lemma MemoryLoads(c: Config, g: set<nat>, s: State, acc: seq<Access>, k: Node, b: nat)
    requires PageInv(c, g, s, acc) && k < c.nodes && b < c.size && b in g
    requires !(acc[k].Writing? && s.node[k].copy.Dirty?)
    ensures ByteOk(k, acc[k], s.wrote, s.memory[b], s.truth[b])
  {
    if s.memory[b] != s.truth[b] {
      var j :|
        0 <= j < |acc| && j < |s.node| && j != c.home && acc[j].Writing? && s.node[j].copy.Dirty? && j in s.wrote;
      assert acc[k].Stranger?;
    }
  }

  lemma LoadData(c: Config, g: set<nat>, s: State, acc: seq<Access>, k: Node, step: LoadStep)
    requires PageInv(c, g, s, acc) && CanLoad(c, s, k, step)
    ensures PageData(c, g, LoadNext(c, s, k, step), acc)
  {
    var t := LoadNext(c, s, k, step);
    assert NodeOk(c, k, s.node[k], s.node[c.home].sharers, s.node[c.home].writers);
    assert NodeData(c, g, k, s.node[k], acc[k], s.memory, s.truth, s.wrote);
    forall b | 0 <= b < c.size && b in g
      ensures NodeByte(c, k, t.node[k], acc[k], t.wrote, b, t.memory[b], t.truth[b])
    {
      assert NodeByte(c, k, s.node[k], acc[k], s.wrote, b, s.memory[b], s.truth[b]);
      if step.LoadGet? {
        MemoryLoads(c, g, s, acc, k, b);
      }
    }
    FrameData(c, g, s, t, acc, k);
  }

  lemma WriteData(c: Config, g: set<nat>, s: State, acc: seq<Access>, k: Node, step: WriteStep)
    requires PageInv(c, g, s, acc) && CanWrite(c, s, k, step)
    ensures PageData(c, g, WriteNext(c, s, k, step), acc)
  {
    var t := WriteNext(c, s, k, step);
    assert NodeOk(c, k, s.node[k], s.node[c.home].sharers, s.node[c.home].writers);
    assert NodeData(c, g, k, s.node[k], acc[k], s.memory, s.truth, s.wrote);
    forall b | 0 <= b < c.size && b in g
      ensures NodeByte(c, k, t.node[k], acc[k], t.wrote, b, t.memory[b], t.truth[b])
    {
      assert NodeByte(c, k, s.node[k], acc[k], s.wrote, b, s.memory[b], s.truth[b]);
      if step.WriteFinish? && acc[k].Writing? {
        MemoryLoads(c, g, s, acc, k, b);
      }
    }
    FrameData(c, g, s, t, acc, k);
  }

  lemma HomeData(c: Config, g: set<nat>, s: State, acc: seq<Access>, step: HomeStep)
    requires PageInv(c, g, s, acc) && CanHome(c, s, step)
    ensures PageData(c, g, HomeNext(c, s, step), acc)
  {
    var t := HomeNext(c, s, step);
    assert NodeData(c, g, c.home, s.node[c.home], acc[c.home], s.memory, s.truth, s.wrote);
    forall b | 0 <= b < c.size && b in g
      ensures NodeByte(c, c.home, t.node[c.home], acc[c.home], t.wrote, b, t.memory[b], t.truth[b])
    {
      assert NodeByte(c, c.home, s.node[c.home], acc[c.home], s.wrote, b, s.memory[b], s.truth[b]);
    }
    FrameData(c, g, s, t, acc, c.home);
  }

  lemma EvictData(c: Config, g: set<nat>, s: State, acc: seq<Access>, k: Node)
    requires PageInv(c, g, s, acc) && Enabled(c, s, Evict(k))
    ensures PageData(c, g, Apply(c, s, Evict(k)), acc)
  {
    FrameData(c, g, s, Apply(c, s, Evict(k)), acc, k);
  }

  lemma WriteBackByte(c: Config, g: set<nat>, s: State, acc: seq<Access>, k: Node, b: nat)
    requires PageInv(c, g, s, acc) && Enabled(c, s, WriteBack(k)) && b < c.size && b in g
    ensures var t := WriteBackNext(c, s, k);
      && t.memory[b] == (if acc[k].Writing? then s.truth[b] else s.memory[b])
      && (t.memory[b] == t.truth[b] || DirtyWriter(c, t, acc))
  {
    assert NodeData(c, g, k, s.node[k], acc[k], s.memory, s.truth, s.wrote);
    assert NodeByte(c, k, s.node[k], acc[k], s.wrote, b, s.memory[b], s.truth[b]);
    if !acc[k].Writing? && s.memory[b] != s.truth[b] {
      var j :|
        0 <= j < |acc| && j < |s.node| && j != c.home && acc[j].Writing? && s.node[j].copy.Dirty? && j in s.wrote;
      assert WriteBackNext(c, s, k).node[j].copy.Dirty?;
    }
  }

  lemma WriteBackData(c: Config, g: set<nat>, s: State, acc: seq<Access>, k: Node)
    requires PageInv(c, g, s, acc) && Enabled(c, s, WriteBack(k))
    ensures PageData(c, g, WriteBackNext(c, s, k), acc)
  {
    var t := WriteBackNext(c, s, k);
    forall j, b | 0 <= j < c.nodes && 0 <= b < c.size && b in g
      ensures NodeByte(c, j, t.node[j], acc[j], t.wrote, b, t.memory[b], t.truth[b])
    {
      assert NodeData(c, g, j, s.node[j], acc[j], s.memory, s.truth, s.wrote);
      assert NodeByte(c, j, s.node[j], acc[j], s.wrote, b, s.memory[b], s.truth[b]);
      WriteBackByte(c, g, s, acc, k, b);
    }
    forall b | 0 <= b < c.size && b in g
      ensures t.memory[b] == t.truth[b] || DirtyWriter(c, t, acc)
    {
      WriteBackByte(c, g, s, acc, k, b);
    }
  }

  /** The steps of the page protocol between barriers, except stores. */
  ghost predicate Unsynchronised(l: Label) {
    HandlerLabel(l) || l.WriteBack? || l.Evict?
  }

  lemma StaysRunning(c: Config, s: State, l: Label)
    requires WellFormed(c, s) && AllRunning(s) && Enabled(c, s, l) && Unsynchronised(l)
    ensures AllRunning(Apply(c, s, l))
  {
    match l
    case Load(k, step) => LoadRunning(c, s, k, step);
    case Write(k, step) => WriteRunning(c, s, k, step);
    case Home(step) => HomeRunning(c, s, step);
    case _ =>
  }

  lemma LoadRunning(c: Config, s: State, k: Node, step: LoadStep)
    requires WellFormed(c, s) && AllRunning(s) && CanLoad(c, s, k, step)
    ensures AllRunning(LoadNext(c, s, k, step))
  {
  }

  lemma WriteRunning(c: Config, s: State, k: Node, step: WriteStep)
    requires WellFormed(c, s) && AllRunning(s) && CanWrite(c, s, k, step)
    ensures AllRunning(WriteNext(c, s, k, step))
  {
  }

  lemma HomeRunning(c: Config, s: State, step: HomeStep)
    requires WellFormed(c, s) && AllRunning(s) && CanHome(c, s, step)
    ensures AllRunning(HomeNext(c, s, step))
  {
  }

  lemma StepKeeps(c: Config, g: set<nat>, s: State, acc: seq<Access>, l: Label)
    requires PageInv(c, g, s, acc) && Enabled(c, s, l) && Unsynchronised(l)
    ensures PageInv(c, g, Apply(c, s, l), acc)
  {
    DirInvStep(c, s, l);
    StaysRunning(c, s, l);
    StepData(c, g, s, acc, l);
  }

  lemma StepData(c: Config, g: set<nat>, s: State, acc: seq<Access>, l: Label)
    requires PageInv(c, g, s, acc) && Enabled(c, s, l) && Unsynchronised(l)
    ensures PageData(c, g, Apply(c, s, l), acc)
  {
    match l
    case Load(k, step) => LoadData(c, g, s, acc, k, step);
    case Write(k, step) => WriteData(c, g, s, acc, k, step);
    case Home(step) => HomeData(c, g, s, acc, step);
    case WriteBack(k) => WriteBackData(c, g, s, acc, k);
    case Evict(k) => EvictData(c, g, s, acc, k);
  }

  /** A store: guarded bytes by the writing node only, the others by anybody. */
  lemma StoreData(c: Config, g: set<nat>, s: State, acc: seq<Access>, k: Node, at: nat, v: Byte)
    requires PageInv(c, g, s, acc) && CanStore(c, s, k, at) && (at in g ==> acc[k].Writing?)
    ensures PageData(c, g, Stored(c, s, k, at, v), acc)
  {
    var t := Stored(c, s, k, at, v);
    assert NodeOk(c, k, s.node[k], s.node[c.home].sharers, s.node[c.home].writers);
    forall j, b | 0 <= j < c.nodes && 0 <= b < c.size && b in g
      ensures NodeByte(c, j, t.node[j], acc[j], t.wrote, b, t.memory[b], t.truth[b])
    {
      assert NodeOk(c, j, s.node[j], s.node[c.home].sharers, s.node[c.home].writers);
      assert NodeData(c, g, j, s.node[j], acc[j], s.memory, s.truth, s.wrote);
      assert NodeByte(c, j, s.node[j], acc[j], s.wrote, b, s.memory[b], s.truth[b]);
      assert k in t.wrote;
    }
    if DirtyWriter(c, s, acc) {
      var j :|
        0 <= j < |acc| && j < |s.node| && j != c.home && acc[j].Writing? && s.node[j].copy.Dirty? && j in s.wrote;
      assert t.node[j].copy.Dirty?;
    }
    if at in g && k != c.home {
      assert t.node[k].copy.Dirty? && k in t.wrote;
    }
  }

  lemma StoreKeepsPage(c: Config, g: set<nat>, s: State, acc: seq<Access>, k: Node, at: nat, v: Byte)
    requires PageInv(c, g, s, acc) && CanStore(c, s, k, at) && (at in g ==> acc[k].Writing?)
    ensures PageInv(c, g, Stored(c, s, k, at, v), acc)
  {
    UnphasedKeeps(c, g, s, acc);
    DirInvStep(c, Unphased(c, s), Store(k, at, v));
    StoreData(c, g, s, acc, k, at, v);
  }

  // ----- acquire and release -----

  /** How the access of a node may change while the page stays as it is. */
  ghost predicate Follows(a: Access, a': Access, n: NodeState) {
    || a' == a
    || (a'.Stranger? && !(a.Writing? && n.copy.Dirty?))
    || (a.Trusted? && a'.Writing?)
    || (a.Writing? && a'.Trusted? && !n.copy.Dirty?)
  }

  lemma AccessKeeps(c: Config, g: set<nat>, s: State, acc: seq<Access>, acc': seq<Access>)
    requires PageInv(c, g, s, acc) && |acc'| == c.nodes && OneWriter(acc')
    requires forall k :: 0 <= k < c.nodes ==> Follows(acc[k], acc'[k], s.node[k])
    ensures PageInv(c, g, s, acc')
  {
    forall k, b | 0 <= k < c.nodes && 0 <= b < c.size && b in g
      ensures NodeByte(c, k, s.node[k], acc'[k], s.wrote, b, s.memory[b], s.truth[b])
    {
      AccessByte(c, g, s, acc, acc', k, b);
    }
    if DirtyWriter(c, s, acc) {
      var k :|
        0 <= k < |acc| && k < |s.node| && k != c.home && acc[k].Writing? && s.node[k].copy.Dirty? && k in s.wrote;
      assert Follows(acc[k], acc'[k], s.node[k]);
    }
  }

  lemma AccessByte(c: Config, g: set<nat>, s: State, acc: seq<Access>, acc': seq<Access>, k: Node, b: nat)
    requires PageInv(c, g, s, acc) && |acc'| == c.nodes && k < c.nodes && b < c.size && b in g
    requires Follows(acc[k], acc'[k], s.node[k])
    ensures NodeByte(c, k, s.node[k], acc'[k], s.wrote, b, s.memory[b], s.truth[b])
  {
    assert NodeData(c, g, k, s.node[k], acc[k], s.memory, s.truth, s.wrote);
    assert NodeByte(c, k, s.node[k], acc[k], s.wrote, b, s.memory[b], s.truth[b]);
    if acc[k].Trusted? {
      MemoryLoads(c, g, s, acc, k, b);
    }
  }

  lemma ReleaseKeepsPage(c: Config, g: set<nat>, s: State, acc: seq<Access>, k: Node)
    requires PageInv(c, g, s, acc) && AtRest(c, s, k)
    ensures PageInv(c, g, ReleasedPage(c, s, k), acc)
  {
    assert NodeOk(c, k, s.node[k], s.node[c.home].sharers, s.node[c.home].writers);
    if s.node[k].copy.Dirty? {
      StepKeeps(c, g, s, acc, WriteBack(k));
    }
  }

  /**
   The acquire decides by the directory words of its node alone, and what it keeps is right,
   provided no handler still owes the node a notice.
   */
  lemma AcquireKeepsPage(c: Config, g: set<nat>, s: State, acc: seq<Access>, k: Node)
    requires PageInv(c, g, s, acc) && AtRest(c, s, k) && !Owed(c, s, k) && acc[k].Stranger?
    requires forall j :: 0 <= j < c.nodes ==> !acc[j].Writing?
    ensures PageInv(c, g, AcquiredPage(c, s, k), acc[k := Trusted])
  {
    var u, t := ReleasedPage(c, s, k), AcquiredPage(c, s, k);
    ReleaseKeepsPage(c, g, s, acc, k);
    if u.node[k].copy.Clean? && !Keeps(k, u.node[k]) {
      StepKeeps(c, g, u, acc, Evict(k));
    }
    forall b | 0 <= b < c.size && b in g
      ensures NodeByte(c, k, t.node[k], Trusted, t.wrote, b, t.memory[b], t.truth[b])
    {
      assert NodeData(c, g, k, t.node[k], acc[k], t.memory, t.truth, t.wrote);
      assert NodeByte(c, k, t.node[k], acc[k], t.wrote, b, t.memory[b], t.truth[b]);
      if t.node[k].copy.Clean? {
        KeptIsFresh(c, s, k);
      }
    }
    TrustKeeps(c, g, t, acc, k);
  }

  lemma KeptIsFresh(c: Config, s: State, k: Node)
    requires DirInv(c, s) && AtRest(c, s, k) && !Owed(c, s, k) && AcquiredPage(c, s, k).node[k].copy.Clean?
    ensures !Other(AcquiredPage(c, s, k).wrote, k)
  {
    MissesWriter(c, s, k);
  }

  lemma TrustKeeps(c: Config, g: set<nat>, t: State, acc: seq<Access>, k: Node)
    requires PageInv(c, g, t, acc) && k < c.nodes && forall j :: 0 <= j < c.nodes ==> !acc[j].Writing?
    requires NodeData(c, g, k, t.node[k], Trusted, t.memory, t.truth, t.wrote)
    ensures PageInv(c, g, t, acc[k := Trusted])
  {
    var acc' := acc[k := Trusted];
    forall j | 0 <= j < c.nodes
      ensures NodeData(c, g, j, t.node[j], acc'[j], t.memory, t.truth, t.wrote)
    {
      assert NodeData(c, g, j, t.node[j], acc[j], t.memory, t.truth, t.wrote);
    }
  }

  /** A node with access sees every guarded byte as it was last stored. */
  lemma AccessSees(c: Config, g: set<nat>, s: State, acc: seq<Access>, k: Node, b: nat)
    requires PageInv(c, g, s, acc) && k < c.nodes && !acc[k].Stranger? && b < c.size && b in g
    ensures View(c, s, k)[b] == s.truth[b]
  {
    assert NodeOk(c, k, s.node[k], s.node[c.home].sharers, s.node[c.home].writers);
    assert NodeData(c, g, k, s.node[k], acc[k], s.memory, s.truth, s.wrote);
    assert NodeByte(c, k, s.node[k], acc[k], s.wrote, b, s.memory[b], s.truth[b]);
    if s.node[k].copy.Absent? {
      MemoryLoads(c, g, s, acc, k, b);
    }
  }

  /** After a barrier, when nothing has been stored yet, every node has access. */
  lemma BarrierGivesAccess(c: Config, g: set<nat>, s: State)
    requires Inv(c, s) && AllRunning(s) && forall b :: 0 <= b < c.size ==> s.writer[b] == {}
    ensures PageInv(c, g, s, seq(c.nodes, _ => Trusted))
  {
    var acc := seq(c.nodes, _ => Trusted);
    forall b | 0 <= b < c.size
      ensures s.memory[b] == s.truth[b]
    {
      assert !DirtyAt(c, s, s.writer[b]);
    }
    forall k, b | 0 <= k < c.nodes && 0 <= b < c.size && b in g
      ensures NodeByte(c, k, s.node[k], acc[k], s.wrote, b, s.memory[b], s.truth[b])
    {
      assert CopyOk(c, k, s.node[k], s.memory, s.truth, s.writer);
      assert Mine(s.writer[b], k);
    }
  }
}
