/**
 The self-invalidation / self-downgrade protocol of the MPI backend, for one page.

 A page has a home node, which holds its memory and the authoritative sharer and writer
 words. Every other node holds its own copy of those words and, while the page is cached,
 a copy of the page. Nobody ever sends an invalidation: a node throws its copy away at a
 barrier unless its own directory words show that nobody else has written the page.

 The state below is advanced in atomic steps, one per RMA epoch of the source, so the
 fault handlers of different nodes interleave between any two of their epochs. A directory
 word is the set of the nodes whose bits are set (see module `NodeBits`).

 `truth`, `writer` and `wrote` are not part of the program: they record the memory all
 stores are meant to produce, who stored each byte since the last barrier, and who stored
 to the page at all since the writer words were last cleared.
 */
module PageProtocol {

  type Node = nat
  type Byte = b: int | 0 <= b < 256
  type Page = seq<Byte>

  datatype Config = Config(nodes: nat, home: Node, size: nat)

  datatype Prot = NoAccess | ReadOnly | ReadWrite

  /** What a node other than the home holds: nothing, a clean copy, or a dirty copy and its twin. */
  datatype Copy = Absent | Clean(data: Page) | Dirty(data: Page, twin: Page)

  /** Where a node stands with respect to the barrier. */
  datatype Mode =
    | Running
    | Arrived    // flushed, holding sync_lock, waiting in MPI_Barrier
    | Draining   // past MPI_Barrier, self-invalidation not done yet

  /** The fault handler a node has in flight for this page, and what it has read so far. */
  datatype Op =
    | Idle
    // load_cache_entry
    | LoadChecked(isNew: bool)
    | LoadFetched(isNew: bool, seenSharers: set<Node>, seenWriters: set<Node>)
    | LoadMerged(owner: set<Node>)
    | LoadGot(fetched: Page)
    // write miss on a cached page
    | WriteChecked
    | WriteMarked
    | WriteAdded(found: set<Node>)
    | WriteRegistered(foundSharers: set<Node>, targets: set<Node>)
    | WriteNotifying(targets: set<Node>)
    // faults of the home node
    | HomeJoining
    | HomeJoined(owner: set<Node>)
    | HomeClaiming
    | HomeNotifying(targets: set<Node>)

  datatype NodeState = NodeState(
    sharers: set<Node>,       // globalSharers[classidx]
    writers: set<Node>,       // globalSharers[classidx+1]
    op: Op,
    copy: Copy,
    prot: Prot,
    mode: Mode)

  datatype State = State(
    node: seq<NodeState>,
    memory: Page,             // the page in the home's globalData
    truth: Page,
    writer: seq<set<Node>>,   // per byte: who stored it since the last barrier
    wrote: set<Node>)

  datatype LoadStep =
    | LoadCheck
    | LoadRegister(refresh: bool)
    | LoadMerge
    | LoadNotice(n: Node)
    | LoadGet
    | LoadInstall

  datatype WriteStep =
    | WriteCheck
    | WriteMark
    | WriteRegister
    | WriteRead
    | WriteMerge
    | WriteNotice(n: Node)
    | WriteFinish

  datatype HomeStep =
    | HomeFault(isRead: bool)
    | HomeJoin
    | HomeJoinNotice(n: Node)
    | HomeMapRead
    | HomeClaim
    | HomeNotice(n: Node)
    | HomeMapWrite

  datatype Label =
    | Load(k: Node, load: LoadStep)
    | Write(k: Node, write: WriteStep)
    | Home(step: HomeStep)
    | Store(k: Node, at: nat, v: Byte)
    | WriteBack(k: Node)
    | Evict(k: Node)
    | Arrive(k: Node)
    | Release
    | Invalidate(k: Node)
    | UpgradeWriters

  ghost predicate ValidConfig(c: Config) {
    c.home < c.nodes
  }

  ghost predicate NodeShape(c: Config, n: NodeState) {
    && (n.copy.Clean? ==> |n.copy.data| == c.size)
    && (n.copy.Dirty? ==> |n.copy.data| == |n.copy.twin| == c.size)
    && (n.op.LoadGot? ==> |n.op.fetched| == c.size)
  }

  ghost predicate WellFormed(c: Config, s: State) {
    && ValidConfig(c) && |s.node| == c.nodes
    && |s.memory| == |s.truth| == |s.writer| == c.size
    && forall k :: 0 <= k < c.nodes ==> NodeShape(c, s.node[k])
  }

  /** The state after argo_initialize, whatever the memory holds. */
  ghost function Initial(c: Config, m: Page): (s: State)
    requires ValidConfig(c) && |m| == c.size
  {
    State(seq(c.nodes, _ => NodeState({}, {}, Idle, Absent, NoAccess, Running)), m, m, seq(c.size, _ => {}), {})
  }

  /** The bytes storepageDIFF leaves at the home: the copy's where it differs from its twin. */
  function Merge(memory: Page, data: Page, twin: Page): (r: Page)
    requires |memory| == |data| == |twin|
  {
    seq(|memory|, i requires 0 <= i < |memory| => if data[i] != twin[i] then data[i] else memory[i])
  }

  /** The test of self_invalidation for keeping a cached page, on the node's own directory words. */
  predicate KeepsPage(k: Node, sharers: set<Node>, writers: set<Node>) {
    writers == {k} || (writers == {} && k in sharers)
  }

  ghost predicate Keeps(k: Node, n: NodeState) {
    KeepsPage(k, n.sharers, n.writers)
  }

  /** Whom a node must tell that it has become a writer, given the writer word it found. */
  ghost function Targets(k: Node, found: set<Node>, sharers: set<Node>): (r: set<Node>) {
    if found != {k} && found != {} && |found - {k}| <= 1 then found - {k}
    else if found == {k} || found == {} then sharers - {k}
    else {}
  }

  /** Whom a node must tell that it has become a sharer: the only other one, if there is only one. */
  ghost function SoleOther(k: Node, found: set<Node>): (r: set<Node>) {
    if |found - {k}| == 1 then found - {k} else {}
  }

  ghost predicate Remote(c: Config, k: Node) {
    k < c.nodes && k != c.home
  }

  ghost predicate CanLoad(c: Config, s: State, k: Node, step: LoadStep)
    requires WellFormed(c, s)
  {
    Remote(c, k) &&
    var n := s.node[k];
    match step
    case LoadCheck => n.mode.Running? && n.op.Idle? && n.copy.Absent?
    case LoadRegister(_) => n.op.LoadChecked?
    case LoadMerge => n.op.LoadFetched?
    case LoadNotice(o) => o < c.nodes && n.op.LoadMerged? && o in n.op.owner
    case LoadGet => n.op.LoadMerged? && n.op.owner == {}
    case LoadInstall => n.op.LoadGot?
  }

  ghost predicate CanWrite(c: Config, s: State, k: Node, step: WriteStep)
    requires WellFormed(c, s)
  {
    Remote(c, k) &&
    var n := s.node[k];
    match step
    case WriteCheck => n.mode.Running? && n.op.Idle? && n.copy.Clean?
    case WriteMark => n.op.WriteChecked?
    case WriteRegister => n.op.WriteMarked?
    case WriteRead => n.op.WriteAdded?
    case WriteMerge => n.op.WriteRegistered?
    case WriteNotice(o) => o < c.nodes && n.op.WriteNotifying? && o in n.op.targets
    case WriteFinish => n.op.WriteNotifying? && n.op.targets == {} && n.copy.Clean?
  }

  ghost predicate CanHome(c: Config, s: State, step: HomeStep)
    requires WellFormed(c, s)
  {
    var n := s.node[c.home];
    match step
    case HomeFault(isRead) => n.mode.Running? && n.op.Idle? && (isRead ==> c.home !in n.sharers)
    case HomeJoin => n.op.HomeJoining?
    case HomeJoinNotice(o) => o < c.nodes && n.op.HomeJoined? && o in n.op.owner
    case HomeMapRead => n.op.HomeJoined? && n.op.owner == {}
    case HomeClaim => n.op.HomeClaiming?
    case HomeNotice(o) => o < c.nodes && n.op.HomeNotifying? && o in n.op.targets
    case HomeMapWrite => n.op.HomeNotifying? && n.op.targets == {}
  }

  ghost predicate Enabled(c: Config, s: State, l: Label)
    requires WellFormed(c, s)
  {
    match l
    case Load(k, step) => CanLoad(c, s, k, step)
    case Write(k, step) => CanWrite(c, s, k, step)
    case Home(step) => CanHome(c, s, step)
    case Store(k, at, _) =>
      && k < c.nodes && at < c.size && s.node[k].mode.Running? && s.node[k].prot.ReadWrite?
      && (k != c.home ==> s.node[k].copy.Dirty?)
      // the application is free of data races
      && s.writer[at] <= {k}
    case WriteBack(k) =>
      Remote(c, k) && s.node[k].mode.Running? && s.node[k].op.Idle? && s.node[k].copy.Dirty?
    case Evict(k) =>
      Remote(c, k) && s.node[k].mode.Running? && s.node[k].op.Idle? && s.node[k].copy.Clean?
    case Arrive(k) =>
      k < c.nodes && s.node[k].mode.Running? && s.node[k].op.Idle? && !s.node[k].copy.Dirty?
    case Release => forall k :: 0 <= k < c.nodes ==> s.node[k].mode.Arrived?
    case Invalidate(k) => k < c.nodes && s.node[k].mode.Draining?
    case UpgradeWriters => forall k :: 0 <= k < c.nodes ==> s.node[k].mode.Arrived?
  }

  ghost function Put(s: State, k: Node, n: NodeState): (t: State)
    requires k < |s.node|
  {
    s.(node := s.node[k := n])
  }

  ghost function AddSharer(s: State, n: Node, k: Node): (t: State)
    requires n < |s.node|
  {
    Put(s, n, s.node[n].(sharers := s.node[n].sharers + {k}))
  }

  ghost function AddWriter(s: State, n: Node, k: Node): (t: State)
    requires n < |s.node|
  {
    Put(s, n, s.node[n].(writers := s.node[n].writers + {k}))
  }

  ghost function SetOp(s: State, k: Node, o: Op): (t: State)
    requires k < |s.node|
  {
    Put(s, k, s.node[k].(op := o))
  }

  /** A node after self_invalidation; the home has no copy to throw away. */
  ghost function Swept(c: Config, k: Node, n: NodeState): (r: NodeState) {
    if k != c.home && !Keeps(k, n) then n.(mode := Running, copy := Absent, prot := NoAccess)
    else n.(mode := Running)
  }

  /**
   A node after self_invalidation and self_upgrade in writers mode: the writer word is
   cleared, and a page it was a writer of becomes read-only if it is local or still cached.
   */
  ghost function Upgraded(c: Config, k: Node, n: NodeState): (r: NodeState) {
    var kept := Swept(c, k, n);
    if k in n.writers && (k == c.home || !kept.copy.Absent?) then kept.(writers := {}, prot := ReadOnly)
    else kept.(writers := {})
  }

  ghost function LoadNext(c: Config, s: State, k: Node, step: LoadStep): (t: State)
    requires WellFormed(c, s) && CanLoad(c, s, k, step)
    ensures WellFormed(c, t)
  {
    var home := s.node[c.home];
    var n := s.node[k];
    match step
    case LoadCheck => SetOp(s, k, LoadChecked(k !in n.sharers))
    case LoadRegister(refresh) =>
      if n.op.isNew then AddSharer(SetOp(s, k, LoadFetched(true, home.sharers, home.writers)), c.home, k)
      else if refresh then SetOp(s, k, LoadFetched(false, home.sharers, home.writers))
      else SetOp(s, k, LoadFetched(false, {}, {}))
    case LoadMerge =>
      Put(s, k, n.(
          op := LoadMerged(if n.op.isNew then SoleOther(k, n.op.seenSharers) else {}),
          sharers := n.sharers + n.op.seenSharers + {k},
          writers := n.writers + n.op.seenWriters))
    case LoadNotice(o) => AddSharer(SetOp(s, k, LoadMerged(n.op.owner - {o})), o, k)
    case LoadGet => SetOp(s, k, LoadGot(s.memory))
    case LoadInstall => Put(s, k, n.(op := Idle, copy := Clean(n.op.fetched), prot := ReadOnly))
  }

  ghost function WriteNext(c: Config, s: State, k: Node, step: WriteStep): (t: State)
    requires WellFormed(c, s) && CanWrite(c, s, k, step)
    ensures WellFormed(c, t)
  {
    var home := s.node[c.home];
    var n := s.node[k];
    match step
    case WriteCheck =>
      if n.writers != {k} && |n.writers| <= 1 then SetOp(s, k, WriteChecked)
      else SetOp(s, k, WriteNotifying({}))
    case WriteMark => Put(s, k, n.(op := WriteMarked, writers := n.writers + {k}))
    case WriteRegister => AddWriter(SetOp(s, k, WriteAdded(home.writers + {k})), c.home, k)
    case WriteRead => SetOp(s, k, WriteRegistered(home.sharers, Targets(k, n.op.found, home.sharers)))
    case WriteMerge => Put(s, k, n.(op := WriteNotifying(n.op.targets), sharers := n.sharers + n.op.foundSharers))
    case WriteNotice(o) => AddWriter(SetOp(s, k, WriteNotifying(n.op.targets - {o})), o, k)
    case WriteFinish => Put(s, k, n.(op := Idle, copy := Dirty(n.copy.data, n.copy.data), prot := ReadWrite))
  }

  ghost function HomeNext(c: Config, s: State, step: HomeStep): (t: State)
    requires WellFormed(c, s) && CanHome(c, s, step)
    ensures WellFormed(c, t)
  {
    var h := c.home;
    var n := s.node[h];
    match step
    case HomeFault(_) => SetOp(s, h, if h !in n.sharers then HomeJoining else HomeClaiming)
    case HomeJoin =>
      Put(s, h, n.(op := HomeJoined(if |n.sharers| == 1 then n.sharers - {h} else {}), sharers := n.sharers + {h}))
    case HomeJoinNotice(o) => AddSharer(SetOp(s, h, HomeJoined(n.op.owner - {o})), o, h)
    case HomeMapRead => Put(s, h, n.(op := Idle, prot := ReadOnly))
    case HomeClaim =>
      Put(s, h, n.(op := HomeNotifying(Targets(h, n.writers, n.sharers)), writers := n.writers + {h}))
    case HomeNotice(o) => AddWriter(SetOp(s, h, HomeNotifying(n.op.targets - {o})), o, h)
    case HomeMapWrite => Put(s, h, n.(op := Idle, prot := ReadWrite))
  }

  ghost function StoreNext(c: Config, s: State, k: Node, at: nat, v: Byte): (t: State)
    requires WellFormed(c, s) && Enabled(c, s, Store(k, at, v))
    ensures WellFormed(c, t)
  {
    var marked := s.(truth := s.truth[at := v], writer := s.writer[at := {k}], wrote := s.wrote + {k});
    if k == c.home then marked.(memory := s.memory[at := v])
    else Put(marked, k, s.node[k].(copy := Dirty(s.node[k].copy.data[at := v], s.node[k].copy.twin)))
  }

  ghost function WriteBackNext(c: Config, s: State, k: Node): (t: State)
    requires WellFormed(c, s) && Enabled(c, s, WriteBack(k))
    ensures WellFormed(c, t)
  {
    var copy := s.node[k].copy;
    Put(s.(memory := Merge(s.memory, copy.data, copy.twin)), k, s.node[k].(copy := Clean(copy.data), prot := ReadOnly))
  }

  ghost function ReleaseNext(c: Config, s: State): (t: State)
    requires WellFormed(c, s)
    ensures WellFormed(c, t)
  {
    s.(node := seq(c.nodes, k requires 0 <= k < c.nodes => s.node[k].(mode := Draining)),
       writer := seq(c.size, _ => {}))
  }

  ghost function UpgradeNext(c: Config, s: State): (t: State)
    requires WellFormed(c, s)
    ensures WellFormed(c, t)
  {
    s.(node := seq(c.nodes, k requires 0 <= k < c.nodes => Upgraded(c, k, s.node[k])),
       writer := seq(c.size, _ => {}), wrote := {})
  }

  ghost function Apply(c: Config, s: State, l: Label): (t: State)
    requires WellFormed(c, s) && Enabled(c, s, l)
    ensures WellFormed(c, t)
  {
    match l
    case Load(k, step) => LoadNext(c, s, k, step)
    case Write(k, step) => WriteNext(c, s, k, step)
    case Home(step) => HomeNext(c, s, step)
    case Store(k, at, v) => StoreNext(c, s, k, at, v)
    case WriteBack(k) => WriteBackNext(c, s, k)
    case Evict(k) => Put(s, k, s.node[k].(copy := Absent, prot := NoAccess))
    case Arrive(k) => Put(s, k, s.node[k].(mode := Arrived))
    case Release => ReleaseNext(c, s)
    case Invalidate(k) => Put(s, k, Swept(c, k, s.node[k]))
    case UpgradeWriters => UpgradeNext(c, s)
  }

  /** `t` is the state after the steps of `run`, each of them enabled when its turn comes. */
  ghost predicate IsRun(c: Config, s: State, run: seq<Label>, t: State): (r: bool)
    requires WellFormed(c, s)
    ensures r ==> WellFormed(c, t)
    decreases |run|
  {
    if run == [] then t == s
    else
      && Enabled(c, s, run[0])
      && IsRun(c, Apply(c, s, run[0]), run[1..], t)
  }

  ghost predicate Reachable(c: Config, t: State) {
    ValidConfig(c) &&
    exists m: Page, run: seq<Label> :: |m| == c.size && IsRun(c, Initial(c, m), run, t)
  }
}
