/**
 The directory never hides a writer from a node that caches the page.

 `Told` is the property the protocol turns on: as soon as the home lists a node as a sharer
 and some other node as a writer, that node's own writer word names another writer, or a
 step still in flight is going to add one. It holds in every reachable state of the
 split-step machine, and with no handler in flight it says exactly that a node which keeps
 its copy at a barrier holds a page nobody else has written.
 */
module DirectorySafety {
  import opened PageProtocol

  ghost predicate Other(word: set<Node>, k: Node) {
    exists w :: w in word && w != k
  }

  /**
   The nodes that a handler of node j in flight is still going to notify of a new writer. A handler that
   has registered and not yet read the sharers is going to notify those it will find: at least the
   sharers there are now.
   */
  ghost function Pending(o: Op, j: Node, sharers: set<Node>): (r: set<Node>) {
    match o
    case WriteAdded(found) => Targets(j, found, sharers)
    case WriteRegistered(_, targets) => targets
    case WriteNotifying(targets) => targets
    case HomeNotifying(targets) => targets
    case _ => {}
  }

  /** Some handler still has to tell node k of a writer. */
  ghost predicate Owed(c: Config, s: State, k: Node)
    requires WellFormed(c, s)
  {
    exists j :: 0 <= j < |s.node| && j != k && k in Pending(s.node[j].op, j, s.node[c.home].sharers)
  }

  /** The node knows of another writer, or is about to learn of one. */
  ghost predicate Informed(c: Config, s: State, k: Node)
    requires WellFormed(c, s) && k < c.nodes
  {
    || Other(s.node[k].writers, k)
    || (s.node[k].op.LoadFetched? && Other(s.node[k].op.seenWriters, k))
    || Owed(c, s, k)
  }

  ghost predicate Told(c: Config, s: State, k: Node)
    requires WellFormed(c, s) && k < c.nodes
  {
    k != c.home && k in s.node[c.home].sharers && Other(s.node[c.home].writers, k) ==> Informed(c, s, k)
  }

  /** A node that writes is listed as a writer at the home, or two others already are. */
  ghost predicate Registered(k: Node, homeWriters: set<Node>) {
    k in homeWriters || |homeWriters| >= 2
  }

  ghost predicate OpOk(c: Config, k: Node, n: NodeState, hs: set<Node>, hw: set<Node>) {
    match n.op
    case Idle => true
    case LoadChecked(isNew) => k != c.home && n.copy.Absent? && (!isNew ==> k in n.sharers)
    case LoadFetched(_, seenSharers, seenWriters) =>
      k != c.home && n.copy.Absent? && k in hs && seenSharers <= hs && seenWriters <= hw
    case LoadMerged(owner) => k != c.home && n.copy.Absent? && k in n.sharers && owner <= hs
    case LoadGot(_) => k != c.home && n.copy.Absent? && k in n.sharers
    case WriteChecked => k != c.home && n.copy.Clean?
    case WriteMarked => k != c.home && n.copy.Clean?
    case WriteAdded(found) => k != c.home && n.copy.Clean? && k in hw && found <= hw
    case WriteRegistered(sharers, targets) =>
      k != c.home && n.copy.Clean? && k in hw && sharers <= hs && targets <= hs + hw && k !in targets
    case WriteNotifying(targets) =>
      && k != c.home && n.copy.Clean? && Registered(k, hw)
      && (targets != {} ==> k in hw) && targets <= hs + hw && k !in targets
    case HomeJoining => k == c.home
    case HomeJoined(owner) => k == c.home && k in hs && owner <= hs
    case HomeClaiming => k == c.home
    case HomeNotifying(targets) => k == c.home && k in hw && targets <= hs + hw && k !in targets
  }

  /** What holds of one node, given the home's sharer and writer words. */
  ghost predicate NodeOk(c: Config, k: Node, n: NodeState, hs: set<Node>, hw: set<Node>) {
    && n.writers <= hw + (if n.op.WriteMarked? then {k} else {})
    && n.sharers <= hs
    && OpOk(c, k, n, hs, hw)
    && (!n.op.Idle? ==> n.mode.Running?)
    && (!n.copy.Absent? ==> k != c.home && k in n.sharers)
    && (n.copy.Dirty? ==> Registered(k, hw) && n.mode.Running?)
    && (k == c.home && n.prot.ReadWrite? ==> k in hw)
  }

  ghost predicate NodesOk(c: Config, s: State)
    requires WellFormed(c, s)
  {
    var home := s.node[c.home];
    && (forall k :: 0 <= k < c.nodes ==> NodeOk(c, k, s.node[k], home.sharers, home.writers))
    && (forall w :: w in home.writers ==> w < c.nodes)
    && (forall w :: w in home.sharers ==> w < c.nodes)
    && (forall a :: a in s.wrote ==> Registered(a, home.writers))
  }

  ghost predicate DirInv(c: Config, s: State) {
    && WellFormed(c, s)
    && NodesOk(c, s)
    && forall k :: 0 <= k < c.nodes ==> Told(c, s, k)
  }

  lemma InitialDirInv(c: Config, m: Page)
    requires ValidConfig(c) && |m| == c.size
    ensures DirInv(c, Initial(c, m))
  {
  }

  lemma CardMono(a: set<Node>, b: set<Node>)
    requires a <= b
    ensures |a| <= |b|
  {
    assert b == a + (b - a);
  }

  /** A new writer tells exactly the one other writer there is, or, if there is none, exactly the other sharers. */
  lemma TargetsExact(k: Node, found: set<Node>, sharers: set<Node>, o: Node)
    ensures o in Targets(k, found, sharers) <==>
      o != k && (found - {k} == {o} || (found - {k} == {} && o in sharers))
  {
    var others := found - {k};
    if o in others && |others| <= 1 {
      CardMono({o}, others);
      assert others == {o} + (others - {o}) && |others - {o}| == 0;
    }
    assert others == {} <==> found == {} || found == {k};
  }

  /** A write miss registers its node exactly if the node's own word does not list it and lists at most one other. */
  lemma RegistersExactly(c: Config, s: State, k: Node)
    requires WellFormed(c, s) && CanWrite(c, s, k, WriteCheck)
    ensures var o := WriteNext(c, s, k, WriteCheck).node[k].op;
      (o == WriteChecked <==> k !in s.node[k].writers && |s.node[k].writers| <= 1)
      && (o != WriteChecked ==> o == WriteNotifying({}))
  {
    var w := s.node[k].writers;
    if k in w && |w| <= 1 {
      assert w == {k} + (w - {k}) && |w - {k}| == 0;
    }
  }

  /** A new sharer tells exactly the one other sharer there is. */
  lemma SoleOtherExact(k: Node, found: set<Node>, o: Node)
    ensures o in SoleOther(k, found) <==> found - {k} == {o}
  {
    var others := found - {k};
    if o in others && |others| == 1 {
      assert others == {o} + (others - {o}) && |others - {o}| == 0;
    }
  }

  /** What holds of a node keeps holding while the home's words grow. */
  lemma NodeOkMono(c: Config, k: Node, n: NodeState, hs: set<Node>, hw: set<Node>, hs': set<Node>, hw': set<Node>)
    requires NodeOk(c, k, n, hs, hw) && hs <= hs' && hw <= hw'
    ensures NodeOk(c, k, n, hs', hw')
  {
    CardMono(hw, hw');
  }

  /** `t` differs from `s` at two nodes at most, and the home's words only grew. */
  ghost predicate Changed(c: Config, s: State, t: State, j: Node, m: Node) {
    && WellFormed(c, s) && WellFormed(c, t) && j < c.nodes && m < c.nodes
    && (forall i :: 0 <= i < c.nodes && i != j && i != m ==> t.node[i] == s.node[i])
    && s.node[c.home].sharers <= t.node[c.home].sharers
    && s.node[c.home].writers <= t.node[c.home].writers
  }

  lemma NodesOkAfter(c: Config, s: State, t: State, j: Node, m: Node)
    requires DirInv(c, s) && Changed(c, s, t, j, m)
    requires NodeOk(c, j, t.node[j], t.node[c.home].sharers, t.node[c.home].writers)
    requires NodeOk(c, m, t.node[m], t.node[c.home].sharers, t.node[c.home].writers)
    requires forall w :: w in t.node[c.home].writers ==> w < c.nodes
    requires forall w :: w in t.node[c.home].sharers ==> w < c.nodes
    requires forall a :: a in t.wrote ==> a in s.wrote || Registered(a, t.node[c.home].writers)
    ensures NodesOk(c, t)
  {
    var home, home' := s.node[c.home], t.node[c.home];
    forall k | 0 <= k < c.nodes ensures NodeOk(c, k, t.node[k], home'.sharers, home'.writers) {
      if k != j && k != m {
        NodeOkMono(c, k, s.node[k], home.sharers, home.writers, home'.sharers, home'.writers);
      }
    }
    CardMono(home.writers, home'.writers);
  }

  /** No notice that `o` still owes is dropped by going from `s` to `t`: it stays owed or is delivered. */
  ghost predicate KeepsNotices(c: Config, s: State, t: State, j: Node)
    requires WellFormed(c, s) && WellFormed(c, t) && j < c.nodes
  {
    && (forall x :: x in Pending(s.node[j].op, j, s.node[c.home].sharers) && 0 <= x < c.nodes ==>
          x in Pending(t.node[j].op, j, t.node[c.home].sharers) || Other(t.node[x].writers, x))
    && s.node[j].writers <= t.node[j].writers
    && (s.node[j].op.LoadFetched? ==> s.node[j].op.seenWriters <= t.node[j].writers || t.node[j].op == s.node[j].op)
  }

  lemma InformedKept(c: Config, s: State, t: State, j: Node, m: Node, k: Node)
    requires Changed(c, s, t, j, m) && KeepsNotices(c, s, t, j) && KeepsNotices(c, s, t, m)
    requires k < c.nodes && Informed(c, s, k)
    ensures Informed(c, t, k)
  {
    if exists i :: 0 <= i < |s.node| && i != k && k in Pending(s.node[i].op, i, s.node[c.home].sharers) {
      var i :| 0 <= i < |s.node| && i != k && k in Pending(s.node[i].op, i, s.node[c.home].sharers);
      assert k in Pending(t.node[i].op, i, t.node[c.home].sharers) || Other(t.node[k].writers, k);
    }
  }

  /** Steps that register nobody anew at the home preserve everything. */
  lemma QuietStep(c: Config, s: State, t: State, j: Node, m: Node)
    requires DirInv(c, s) && Changed(c, s, t, j, m)
    requires t.node[c.home].writers == s.node[c.home].writers
    requires t.node[c.home].sharers <= s.node[c.home].sharers + {c.home}
    requires NodeOk(c, j, t.node[j], t.node[c.home].sharers, t.node[c.home].writers)
    requires NodeOk(c, m, t.node[m], t.node[c.home].sharers, t.node[c.home].writers)
    requires forall a :: a in t.wrote ==> a in s.wrote || Registered(a, t.node[c.home].writers)
    requires KeepsNotices(c, s, t, j) && KeepsNotices(c, s, t, m)
    ensures DirInv(c, t)
  {
    NodesOkAfter(c, s, t, j, m);
    forall k | 0 <= k < c.nodes ensures Told(c, t, k) {
      assert Told(c, s, k);
      if Informed(c, s, k) {
        InformedKept(c, s, t, j, m, k);
      }
    }
  }

  lemma LoadStepKeeps(c: Config, s: State, j: Node, step: LoadStep)
    requires DirInv(c, s) && CanLoad(c, s, j, step) && !step.LoadRegister?
    ensures DirInv(c, LoadNext(c, s, j, step))
  {
    var t := LoadNext(c, s, j, step);
    var m := if step.LoadNotice? then step.n else j;
    assert NodeOk(c, j, s.node[j], s.node[c.home].sharers, s.node[c.home].writers);
    assert NodeOk(c, m, s.node[m], s.node[c.home].sharers, s.node[c.home].writers);
    QuietStep(c, s, t, j, m);
  }

  lemma LoadRegisterKeeps(c: Config, s: State, j: Node, refresh: bool)
    requires DirInv(c, s) && CanLoad(c, s, j, LoadRegister(refresh))
    ensures DirInv(c, LoadNext(c, s, j, LoadRegister(refresh)))
  {
    var h := c.home;
    var t := LoadNext(c, s, j, LoadRegister(refresh));
    assert NodeOk(c, j, s.node[j], s.node[h].sharers, s.node[h].writers);
    assert NodeOk(c, h, s.node[h], s.node[h].sharers, s.node[h].writers);
    NodeOkMono(c, h, s.node[h], s.node[h].sharers, s.node[h].writers, t.node[h].sharers, t.node[h].writers);
    NodesOkAfter(c, s, t, j, h);
    forall k | 0 <= k < c.nodes ensures Told(c, t, k) {
      assert Told(c, s, k);
      if k != j && Informed(c, s, k) {
        InformedKept(c, s, t, j, h, k);
      }
    }
  }

  lemma WriteStepKeeps(c: Config, s: State, j: Node, step: WriteStep)
    requires DirInv(c, s) && CanWrite(c, s, j, step) && !step.WriteRegister?
    ensures DirInv(c, WriteNext(c, s, j, step))
  {
    var t := WriteNext(c, s, j, step);
    var m := if step.WriteNotice? then step.n else j;
    assert NodeOk(c, j, s.node[j], s.node[c.home].sharers, s.node[c.home].writers);
    assert NodeOk(c, m, s.node[m], s.node[c.home].sharers, s.node[c.home].writers);
    WriteStepNodes(c, s, j, step, m);
    WriteStepNotices(c, s, j, step, m);
    QuietStep(c, s, t, j, m);
  }

  /** The two nodes a step of the write handler can touch, ... */
  lemma WriteStepNodes(c: Config, s: State, j: Node, step: WriteStep, m: Node)
    requires WellFormed(c, s) && CanWrite(c, s, j, step) && !step.WriteRegister?
    requires m == if step.WriteNotice? then step.n else j
    requires NodeOk(c, j, s.node[j], s.node[c.home].sharers, s.node[c.home].writers)
    requires NodeOk(c, m, s.node[m], s.node[c.home].sharers, s.node[c.home].writers)
    ensures var t := WriteNext(c, s, j, step);
      && t.node[c.home].writers == s.node[c.home].writers
      && NodeOk(c, j, t.node[j], t.node[c.home].sharers, t.node[c.home].writers)
      && NodeOk(c, m, t.node[m], t.node[c.home].sharers, t.node[c.home].writers)
  {
    var t, n, hs, hw := WriteNext(c, s, j, step), s.node[j], s.node[c.home].sharers, s.node[c.home].writers;
    if step.WriteRead? {
      ReadNode(c, j, n, hs, hw);
      assert t.node[j] == n.(op := WriteRegistered(hs, Targets(j, n.op.found, hs)));
    } else if step.WriteNotice? {
      NoticeNode(c, j, n, hs, hw, m, s.node[m]);
      assert t.node[j] == n.(op := WriteNotifying(n.op.targets - {m}));
      assert t.node[m] == s.node[m].(writers := s.node[m].writers + {j});
    } else {
      WriterNode(c, s, j, step);
    }
  }

  /** A writer fixes whom it will tell. */
  lemma ReadNode(c: Config, j: Node, n: NodeState, hs: set<Node>, hw: set<Node>)
    requires NodeOk(c, j, n, hs, hw) && n.op.WriteAdded?
    ensures NodeOk(c, j, n.(op := WriteRegistered(hs, Targets(j, n.op.found, hs))), hs, hw)
  {
  }

  /** A writer tells node m. */
  lemma NoticeNode(c: Config, j: Node, n: NodeState, hs: set<Node>, hw: set<Node>, m: Node, o: NodeState)
    requires NodeOk(c, j, n, hs, hw) && n.op.WriteNotifying? && m in n.op.targets && NodeOk(c, m, o, hs, hw)
    ensures m != j
    ensures NodeOk(c, j, n.(op := WriteNotifying(n.op.targets - {m})), hs, hw)
    ensures NodeOk(c, m, o.(writers := o.writers + {j}), hs, hw)
  {
  }

  /** The steps of a writer that touch its own node only. */
  lemma WriterNode(c: Config, s: State, j: Node, step: WriteStep)
    requires WellFormed(c, s) && CanWrite(c, s, j, step)
    requires step.WriteCheck? || step.WriteMark? || step.WriteMerge? || step.WriteFinish?
    requires NodeOk(c, j, s.node[j], s.node[c.home].sharers, s.node[c.home].writers)
    ensures var t := WriteNext(c, s, j, step);
      && t.node[c.home] == s.node[c.home]
      && NodeOk(c, j, t.node[j], s.node[c.home].sharers, s.node[c.home].writers)
  {
    if step.WriteCheck? {
      CardMono(s.node[j].writers, s.node[c.home].writers);
    }
  }

  /** ... and the notices that it owes. */
  lemma WriteStepNotices(c: Config, s: State, j: Node, step: WriteStep, m: Node)
    requires WellFormed(c, s) && CanWrite(c, s, j, step) && !step.WriteRegister?
    requires m == if step.WriteNotice? then step.n else j
    requires NodeOk(c, j, s.node[j], s.node[c.home].sharers, s.node[c.home].writers)
    requires NodeOk(c, m, s.node[m], s.node[c.home].sharers, s.node[c.home].writers)
    ensures var t := WriteNext(c, s, j, step);
      Changed(c, s, t, j, m) && KeepsNotices(c, s, t, j) && KeepsNotices(c, s, t, m)
  {
  }

  lemma HomeStepKeeps(c: Config, s: State, step: HomeStep)
    requires DirInv(c, s) && CanHome(c, s, step) && !step.HomeClaim?
    ensures DirInv(c, HomeNext(c, s, step))
  {
    var h := c.home;
    var t := HomeNext(c, s, step);
    var m := if step.HomeNotice? || step.HomeJoinNotice? then step.n else h;
    assert NodeOk(c, h, s.node[h], s.node[h].sharers, s.node[h].writers);
    assert NodeOk(c, m, s.node[m], s.node[h].sharers, s.node[h].writers);
    QuietStep(c, s, t, h, m);
  }

  /** A node registers as a writer at the home and sets out to notify the `Targets`. */
  ghost predicate Registers(c: Config, s: State, t: State, j: Node, found: set<Node>) {
    && Changed(c, s, t, j, c.home) && t.wrote == s.wrote
    && (found == s.node[c.home].writers || found == s.node[c.home].writers + {j})
    && t.node[c.home].writers == s.node[c.home].writers + {j}
    && t.node[c.home].sharers == s.node[c.home].sharers
    && t.node[c.home].(op := s.node[c.home].op) == s.node[c.home].(writers := t.node[c.home].writers)
    && (c.home != j ==> t.node[c.home].op == s.node[c.home].op)
    && Pending(s.node[j].op, j, s.node[c.home].sharers) == {} && !s.node[j].op.LoadFetched?
    && s.node[j].writers <= t.node[j].writers
    && Pending(t.node[j].op, j, t.node[c.home].sharers) == Targets(j, found, s.node[c.home].sharers)
  }

  /**
   The heart of the protocol: the nodes a new writer notifies are enough for everybody. If
   it is the first writer it notifies every sharer, if it is the second it notifies the
   first, and if it is a later one everybody has been, or is being, told already.
   */
  lemma NewWriterTold(c: Config, s: State, t: State, j: Node, found: set<Node>, k: Node)
    requires WellFormed(c, s) && k < c.nodes && Told(c, s, k) && Registers(c, s, t, j, found)
    ensures Told(c, t, k)
  {
    var hw := s.node[c.home].writers;
    if k != c.home && k in s.node[c.home].sharers && Other(t.node[c.home].writers, k) {
      if Other(hw, k) {
        InformedKept(c, s, t, j, c.home, k);
      } else {
        assert k != j && hw <= {k};
        assert hw == {} || hw == {k};
        assert found - {j} == hw;
        assert k in Pending(t.node[j].op, j, t.node[c.home].sharers);
      }
    }
  }

  lemma NewWriterKeeps(c: Config, s: State, t: State, j: Node, found: set<Node>)
    requires DirInv(c, s) && Registers(c, s, t, j, found)
    requires NodeOk(c, j, t.node[j], t.node[c.home].sharers, t.node[c.home].writers)
    ensures DirInv(c, t)
  {
    var home, home' := s.node[c.home], t.node[c.home];
    if j != c.home {
      NodeOkMono(c, c.home, home, home.sharers, home.writers, home'.sharers, home'.writers);
      assert NodeOk(c, c.home, home', home'.sharers, home'.writers);
    }
    NodesOkAfter(c, s, t, j, c.home);
    forall k | 0 <= k < c.nodes ensures Told(c, t, k) {
      assert Told(c, s, k);
      NewWriterTold(c, s, t, j, found, k);
    }
  }

  lemma RegisterKeeps(c: Config, s: State, j: Node)
    requires DirInv(c, s) && CanWrite(c, s, j, WriteRegister)
    ensures DirInv(c, WriteNext(c, s, j, WriteRegister))
  {
    assert NodeOk(c, j, s.node[j], s.node[c.home].sharers, s.node[c.home].writers);
    NewWriterKeeps(c, s, WriteNext(c, s, j, WriteRegister), j, s.node[c.home].writers + {j});
  }

  lemma HomeClaimKeeps(c: Config, s: State)
    requires DirInv(c, s) && CanHome(c, s, HomeClaim)
    ensures DirInv(c, HomeNext(c, s, HomeClaim))
  {
    assert NodeOk(c, c.home, s.node[c.home], s.node[c.home].sharers, s.node[c.home].writers);
    var n := s.node[c.home];
    CardMono(n.writers, n.writers + {c.home});
    NewWriterKeeps(c, s, HomeNext(c, s, HomeClaim), c.home, n.writers);
  }

  lemma DataStepKeeps(c: Config, s: State, l: Label)
    requires DirInv(c, s) && Enabled(c, s, l)
    requires l.Store? || l.WriteBack? || l.Evict? || l.Arrive? || l.Invalidate?
    ensures DirInv(c, Apply(c, s, l))
  {
    assert NodeOk(c, l.k, s.node[l.k], s.node[c.home].sharers, s.node[c.home].writers);
    QuietStep(c, s, Apply(c, s, l), l.k, l.k);
  }

  lemma ReleaseKeeps(c: Config, s: State)
    requires DirInv(c, s) && Enabled(c, s, Release)
    ensures DirInv(c, ReleaseNext(c, s))
  {
    var t := ReleaseNext(c, s);
    forall k | 0 <= k < c.nodes
      ensures NodeOk(c, k, t.node[k], t.node[c.home].sharers, t.node[c.home].writers) && Told(c, t, k)
    {
      assert NodeOk(c, k, s.node[k], s.node[c.home].sharers, s.node[c.home].writers) && Told(c, s, k);
      if Informed(c, s, k) {
        assert forall j :: 0 <= j < c.nodes ==> t.node[j].op == s.node[j].op;
      }
    }
  }

  lemma UpgradeKeeps(c: Config, s: State)
    requires DirInv(c, s) && Enabled(c, s, UpgradeWriters)
    ensures DirInv(c, UpgradeNext(c, s))
  {
    var t := UpgradeNext(c, s);
    forall k | 0 <= k < c.nodes
      ensures NodeOk(c, k, t.node[k], t.node[c.home].sharers, t.node[c.home].writers)
    {
      assert NodeOk(c, k, s.node[k], s.node[c.home].sharers, s.node[c.home].writers);
    }
  }

  lemma DirInvStep(c: Config, s: State, l: Label)
    requires DirInv(c, s) && Enabled(c, s, l)
    ensures DirInv(c, Apply(c, s, l))
  {
    match l
    case Load(k, LoadRegister(refresh)) => LoadRegisterKeeps(c, s, k, refresh);
    case Load(k, step) => LoadStepKeeps(c, s, k, step);
    case Write(k, WriteRegister) => RegisterKeeps(c, s, k);
    case Write(k, step) => WriteStepKeeps(c, s, k, step);
    case Home(HomeClaim) => HomeClaimKeeps(c, s);
    case Home(step) => HomeStepKeeps(c, s, step);
    case Release => ReleaseKeeps(c, s);
    case UpgradeWriters => UpgradeKeeps(c, s);
    case _ => DataStepKeeps(c, s, l);
  }

  lemma {:induction false} DirInvRun(c: Config, s: State, run: seq<Label>, t: State)
    requires DirInv(c, s) && IsRun(c, s, run, t)
    ensures DirInv(c, t)
    decreases |run|
  {
    if run != [] {
      DirInvStep(c, s, run[0]);
      DirInvRun(c, Apply(c, s, run[0]), run[1..], t);
    }
  }

  /** Every reachable state tells every sharer of every other writer, at once or in flight. */
  lemma DirectorySafety(c: Config, s: State, k: Node)
    requires Reachable(c, s) && k < c.nodes
    ensures WellFormed(c, s)
    ensures k != c.home && k in s.node[c.home].sharers && Other(s.node[c.home].writers, k) ==> Informed(c, s, k)
  {
    ReachableDirInv(c, s);
    assert Told(c, s, k);
  }

  lemma ReachableDirInv(c: Config, s: State)
    requires Reachable(c, s)
    ensures DirInv(c, s)
  {
    var m: Page, run: seq<Label> :| |m| == c.size && IsRun(c, Initial(c, m), run, s);
    InitialDirInv(c, m);
    DirInvRun(c, Initial(c, m), run, s);
  }

  ghost predicate Quiescent(s: State) {
    forall k :: 0 <= k < |s.node| ==> s.node[k].op.Idle?
  }

  /**
   With no handler in flight, a node that caches the page passes the test for keeping it
   exactly when the home lists no other writer, and then no other node can have stored to
   the page since the writer words were last cleared.
   */
  lemma KeepingIsExact(c: Config, s: State, k: Node)
    requires DirInv(c, s) && Quiescent(s)
    requires k < c.nodes && !s.node[k].copy.Absent?
    ensures Keeps(k, s.node[k]) <==> s.node[c.home].writers <= {k}
    ensures Keeps(k, s.node[k]) ==> s.wrote <= {k}
  {
    var home := s.node[c.home];
    assert NodeOk(c, k, s.node[k], home.sharers, home.writers);
    assert Told(c, s, k);
    if Keeps(k, s.node[k]) {
      assert !Informed(c, s, k);
      assert home.writers <= {k};
      CardMono(home.writers, {k});
    }
  }

  /**
   Handlers in flight are the only reason why the test can be wrong: a node with a copy that
   passes it misses a writer exactly when a handler still owes it the notice.
   */
  lemma MissesWriter(c: Config, s: State, k: Node)
    requires DirInv(c, s) && k < c.nodes && !s.node[k].copy.Absent? && Keeps(k, s.node[k])
    ensures Other(s.node[c.home].writers, k) <==> Owed(c, s, k)
    ensures !Owed(c, s, k) ==> s.wrote <= {k}
  {
    var home := s.node[c.home];
    assert NodeOk(c, k, s.node[k], home.sharers, home.writers);
    assert Told(c, s, k);
    if Owed(c, s, k) {
      var j :| 0 <= j < |s.node| && j != k && k in Pending(s.node[j].op, j, s.node[c.home].sharers);
      assert NodeOk(c, j, s.node[j], home.sharers, home.writers);
      assert j in home.writers;
    } else {
      assert home.writers <= {k};
      CardMono(home.writers, {k});
    }
  }

  /** So in every reachable state. */
  lemma KeepTestExact(c: Config, s: State, k: Node)
    requires Reachable(c, s) && k < c.nodes
    ensures WellFormed(c, s)
    ensures !s.node[k].copy.Absent? && Keeps(k, s.node[k]) ==> (Other(s.node[c.home].writers, k) <==> Owed(c, s, k))
  {
    ReachableDirInv(c, s);
    if !s.node[k].copy.Absent? && Keeps(k, s.node[k]) {
      MissesWriter(c, s, k);
    }
  }
}
