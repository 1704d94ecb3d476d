/**
 Progress of the page protocol. A fault handler never waits for another one: whatever the other
 nodes do, each of its own steps brings it closer to its end, which gives the access it was
 called for. So from every reachable state every node can come to store to the page, and a
 barrier can be gone through.
 */
module PageProgress {
  import opened PageProtocol
  import opened DirectorySafety
  import opened Sequences

  /** What a handler in flight is to provide. */
  datatype Fault =
    | Loading    // a copy to read
    | Writing    // a copy to write
    | Joining    // read access at the home
    | Claiming   // write access at the home

  ghost function FaultOf(o: Op): (f: Fault)
    requires !o.Idle?
  {
    match o
    case LoadChecked(_) => Loading
    case LoadFetched(_, _, _) => Loading
    case LoadMerged(_) => Loading
    case LoadGot(_) => Loading
    case HomeJoining => Joining
    case HomeJoined(_) => Joining
    case HomeClaiming => Claiming
    case HomeNotifying(_) => Claiming
    case _ => Writing
  }

  /** What the node has when the handler is done. */
  ghost predicate Served(f: Fault, k: Node, n: NodeState) {
    && n.op.Idle?
    && match f
       case Loading => n.copy.Clean? && n.prot == ReadOnly
       case Writing => n.copy.Dirty? && n.prot == ReadWrite
       case Joining => n.prot == ReadOnly && k in n.sharers
       case Claiming => n.prot == ReadWrite
  }

  /** An upper bound for the steps a handler still takes. */
  ghost function Rank(c: Config, o: Op): (r: nat) {
    match o
    case Idle => 0
    case LoadChecked(_) => c.nodes + 4
    case LoadFetched(_, _, _) => c.nodes + 3
    case LoadMerged(owner) => 2 + |owner|
    case LoadGot(_) => 1
    case WriteChecked => c.nodes + 5
    case WriteMarked => c.nodes + 4
    case WriteAdded(_) => c.nodes + 3
    case WriteRegistered(_, _) => c.nodes + 2
    case WriteNotifying(targets) => 1 + |targets|
    case HomeJoining => c.nodes + 2
    case HomeJoined(owner) => 1 + |owner|
    case HomeClaiming => c.nodes + 2
    case HomeNotifying(targets) => 1 + |targets|
  }

  ghost predicate OwnLabel(c: Config, l: Label, k: Node) {
    match l
    case Load(j, _) => j == k
    case Write(j, _) => j == k
    case Home(_) => k == c.home
    case _ => false
  }

  /** A set of nodes has at most as many elements as there are nodes. */
  lemma {:induction false} AtMostNodes(a: set<Node>, n: nat)
    requires forall x :: x in a ==> x < n
    ensures |a| <= n
  {
    if n == 0 {
      assert a == {};
    } else {
      AtMostNodes(a - {n - 1}, n - 1);
      assert a <= (a - {n - 1}) + {n - 1};
      CardMono(a, (a - {n - 1}) + {n - 1});
    }
  }

  /** The handler is done, or it is still the same kind of handler and closer to its end. */
  ghost predicate Advances(c: Config, k: Node, n: NodeState, n': NodeState) {
    && !n.op.Idle? && n'.mode == n.mode
    && (Served(FaultOf(n.op), k, n') ||
        (!n'.op.Idle? && FaultOf(n'.op) == FaultOf(n.op) && Rank(c, n'.op) < Rank(c, n.op)))
  }

  /** A notice is sent. */
  lemma NoticeAdvances(c: Config, k: Node, n: NodeState, n': NodeState, o: Node)
    requires n'.mode == n.mode
    requires
      || (n.op.LoadMerged? && o in n.op.owner && n'.op == LoadMerged(n.op.owner - {o}))
      || (n.op.WriteNotifying? && o in n.op.targets && n'.op == WriteNotifying(n.op.targets - {o}))
      || (n.op.HomeJoined? && o in n.op.owner && n'.op == HomeJoined(n.op.owner - {o}))
      || (n.op.HomeNotifying? && o in n.op.targets && n'.op == HomeNotifying(n.op.targets - {o}))
    ensures Advances(c, k, n, n')
  {
  }

  lemma LoadAdvances(c: Config, s: State, k: Node, step: LoadStep)
    requires WellFormed(c, s) && CanLoad(c, s, k, step) && !s.node[k].op.Idle?
    ensures Advances(c, k, s.node[k], LoadNext(c, s, k, step).node[k])
  {
    if step.LoadNotice? {
      NoticeAdvances(c, k, s.node[k], LoadNext(c, s, k, step).node[k], step.n);
    }
  }

  lemma WriteAdvances(c: Config, s: State, k: Node, step: WriteStep)
    requires WellFormed(c, s) && CanWrite(c, s, k, step) && !s.node[k].op.Idle?
    requires s.node[k].op.WriteRegistered? ==> |s.node[k].op.targets| <= c.nodes
    ensures Advances(c, k, s.node[k], WriteNext(c, s, k, step).node[k])
  {
    if step.WriteNotice? {
      NoticeAdvances(c, k, s.node[k], WriteNext(c, s, k, step).node[k], step.n);
    }
  }

  lemma JoinAdvances(c: Config, s: State, step: HomeStep)
    requires WellFormed(c, s) && CanHome(c, s, step) && (step.HomeJoin? || step.HomeJoinNotice? || step.HomeMapRead?)
    requires s.node[c.home].op.HomeJoined? ==> c.home in s.node[c.home].sharers
    ensures Advances(c, c.home, s.node[c.home], HomeNext(c, s, step).node[c.home])
  {
    var n, n' := s.node[c.home], HomeNext(c, s, step).node[c.home];
    if step.HomeJoinNotice? {
      NoticeAdvances(c, c.home, n, n', step.n);
    } else if step.HomeJoin? {
      CardMono(n'.op.owner, if |n.sharers| == 1 then n.sharers else {});
    }
  }

  lemma ClaimAdvances(c: Config, s: State, step: HomeStep)
    requires WellFormed(c, s) && CanHome(c, s, step) && (step.HomeClaim? || step.HomeNotice? || step.HomeMapWrite?)
    requires |Targets(c.home, s.node[c.home].writers, s.node[c.home].sharers)| <= c.nodes
    ensures Advances(c, c.home, s.node[c.home], HomeNext(c, s, step).node[c.home])
  {
    if step.HomeNotice? {
      NoticeAdvances(c, c.home, s.node[c.home], HomeNext(c, s, step).node[c.home], step.n);
    }
  }

  lemma WriteTargetsBound(c: Config, s: State, k: Node)
    requires DirInv(c, s) && k < c.nodes && s.node[k].op.WriteRegistered?
    ensures |s.node[k].op.targets| <= c.nodes
  {
    assert NodeOk(c, k, s.node[k], s.node[c.home].sharers, s.node[c.home].writers);
    AtMostNodes(s.node[k].op.targets, c.nodes);
  }

  lemma TargetsBound(c: Config, s: State)
    requires DirInv(c, s)
    ensures |Targets(c.home, s.node[c.home].writers, s.node[c.home].sharers)| <= c.nodes
  {
    AtMostNodes(Targets(c.home, s.node[c.home].writers, s.node[c.home].sharers), c.nodes);
  }

  lemma HomeAdvances(c: Config, s: State, step: HomeStep)
    requires DirInv(c, s) && CanHome(c, s, step) && !s.node[c.home].op.Idle?
    ensures Advances(c, c.home, s.node[c.home], HomeNext(c, s, step).node[c.home])
  {
    TargetsBound(c, s);
    assert NodeOk(c, c.home, s.node[c.home], s.node[c.home].sharers, s.node[c.home].writers);
    match step
    case HomeClaim => ClaimAdvances(c, s, step);
    case HomeNotice(_) => ClaimAdvances(c, s, step);
    case HomeMapWrite => ClaimAdvances(c, s, step);
    case _ => JoinAdvances(c, s, step);
  }

  /** Every step of a handler brings it closer to its end, and the last one gives what it was called for. */
  lemma HandlerAdvances(c: Config, s: State, k: Node, l: Label)
    requires DirInv(c, s) && k < c.nodes && !s.node[k].op.Idle? && OwnLabel(c, l, k) && Enabled(c, s, l)
    ensures Advances(c, k, s.node[k], Apply(c, s, l).node[k])
  {
    match l
    case Load(_, step) => LoadAdvances(c, s, k, step);
    case Write(_, step) =>
      if s.node[k].op.WriteRegistered? { WriteTargetsBound(c, s, k); }
      WriteAdvances(c, s, k, step);
    case Home(step) => HomeAdvances(c, s, step);
  }

  /** Nobody else moves a handler. */
  lemma OthersLeaveHandler(c: Config, s: State, k: Node, l: Label)
    requires DirInv(c, s) && k < c.nodes && !s.node[k].op.Idle? && !OwnLabel(c, l, k) && Enabled(c, s, l)
    ensures Apply(c, s, l).node[k].op == s.node[k].op
  {
    assert NodeOk(c, k, s.node[k], s.node[c.home].sharers, s.node[c.home].writers);
  }

  /** A handler can always go on. */
  lemma HandlerCanStep(c: Config, s: State, k: Node) returns (l: Label)
    requires DirInv(c, s) && k < c.nodes && !s.node[k].op.Idle?
    ensures OwnLabel(c, l, k) && Enabled(c, s, l)
  {
    assert NodeOk(c, k, s.node[k], s.node[c.home].sharers, s.node[c.home].writers);
    match s.node[k].op
    case LoadChecked(_) => l := Load(k, LoadRegister(false));
    case LoadFetched(_, _, _) => l := Load(k, LoadMerge);
    case LoadMerged(owner) =>
      if owner == {} {
        l := Load(k, LoadGet);
      } else {
        var o :| o in owner;
        l := Load(k, LoadNotice(o));
      }
    case LoadGot(_) => l := Load(k, LoadInstall);
    case WriteChecked => l := Write(k, WriteMark);
    case WriteMarked => l := Write(k, WriteRegister);
    case WriteAdded(_) => l := Write(k, WriteRead);
    case WriteRegistered(_, _) => l := Write(k, WriteMerge);
    case WriteNotifying(targets) =>
      if targets == {} {
        l := Write(k, WriteFinish);
      } else {
        var o :| o in targets;
        l := Write(k, WriteNotice(o));
      }
    case HomeJoining => l := Home(HomeJoin);
    case HomeJoined(owner) =>
      if owner == {} {
        l := Home(HomeMapRead);
      } else {
        var o :| o in owner;
        l := Home(HomeJoinNotice(o));
      }
    case HomeClaiming => l := Home(HomeClaim);
    case HomeNotifying(targets) =>
      if targets == {} {
        l := Home(HomeMapWrite);
      } else {
        var o :| o in targets;
        l := Home(HomeNotice(o));
      }
  }

  // ----- whatever the interleaving -----

  /** A run during which node k's handler is in flight, up to the last state. */
  ghost predicate BusyRun(c: Config, s: State, run: seq<Label>, t: State, k: Node)
    requires WellFormed(c, s) && k < c.nodes
    decreases |run|
  {
    if run == [] then t == s
    else !s.node[k].op.Idle? && Enabled(c, s, run[0]) && BusyRun(c, Apply(c, s, run[0]), run[1..], t, k)
  }

  ghost function OwnSteps(c: Config, run: seq<Label>, k: Node): (n: nat) {
    if run == [] then 0 else OwnSteps(c, run[1..], k) + if OwnLabel(c, run[0], k) then 1 else 0
  }

  lemma RankBound(c: Config, s: State, k: Node)
    requires DirInv(c, s) && k < c.nodes
    ensures Rank(c, s.node[k].op) <= c.nodes + 5
  {
    var n := s.node[k];
    assert NodeOk(c, k, n, s.node[c.home].sharers, s.node[c.home].writers);
    match n.op
    case LoadMerged(owner) => AtMostNodes(owner, c.nodes);
    case WriteNotifying(targets) => AtMostNodes(targets, c.nodes);
    case HomeJoined(owner) => AtMostNodes(owner, c.nodes);
    case HomeNotifying(targets) => AtMostNodes(targets, c.nodes);
    case _ =>
  }

  lemma {:induction false} BusyRunRank(c: Config, s: State, run: seq<Label>, t: State, k: Node)
    requires DirInv(c, s) && k < c.nodes && BusyRun(c, s, run, t, k) && !s.node[k].op.Idle?
    ensures DirInv(c, t) && OwnSteps(c, run, k) + Rank(c, t.node[k].op) <= Rank(c, s.node[k].op)
    ensures t.node[k].op.Idle? || FaultOf(t.node[k].op) == FaultOf(s.node[k].op)
    ensures t.node[k].op.Idle? ==> Served(FaultOf(s.node[k].op), k, t.node[k])
    decreases |run|
  {
    if run != [] {
      var l := run[0];
      DirInvStep(c, s, l);
      if OwnLabel(c, l, k) {
        HandlerAdvances(c, s, k, l);
      } else {
        OthersLeaveHandler(c, s, k, l);
      }
      if !Apply(c, s, l).node[k].op.Idle? {
        BusyRunRank(c, Apply(c, s, l), run[1..], t, k);
      } else {
        assert run[1..] == [];
      }
    }
  }

  /**
   Whatever the other nodes do meanwhile, a handler takes at most nodes + 5 steps of its own, and when it
   ends its node has the access it was called for.
   */
  lemma HandlerServes(c: Config, s: State, run: seq<Label>, t: State, k: Node)
    requires Reachable(c, s) && k < c.nodes && BusyRun(c, s, run, t, k) && !s.node[k].op.Idle?
    ensures OwnSteps(c, run, k) <= c.nodes + 5
    ensures WellFormed(c, t) && (t.node[k].op.Idle? ==> Served(FaultOf(s.node[k].op), k, t.node[k]))
  {
    ReachableDirInv(c, s);
    BusyRunRank(c, s, run, t, k);
    RankBound(c, s, k);
  }

  // ----- what a handler leaves in the directory -----

  /** The nodes a handler has still to notify. */
  ghost function ToNotify(o: Op): (r: set<Node>) {
    match o
    case LoadMerged(owner) => owner
    case HomeJoined(owner) => owner
    case WriteRegistered(_, targets) => targets
    case WriteNotifying(targets) => targets
    case HomeNotifying(targets) => targets
    case _ => {}
  }

  /** Words a handler has fetched and not yet merged into those of its node. */
  ghost function ToMerge(o: Op): (r: (set<Node>, set<Node>)) {
    match o
    case LoadFetched(_, sharers, writers) => (sharers, writers)
    case WriteRegistered(sharers, _) => (sharers, {})
    case _ => ({}, {})
  }

  /** Whom a handler decides to notify: a load the one other sharer it has seen, if the node is new; */
  lemma LoadNotifies(c: Config, s: State, k: Node, o: Node)
    requires WellFormed(c, s) && CanLoad(c, s, k, LoadMerge)
    ensures o in ToNotify(LoadNext(c, s, k, LoadMerge).node[k].op) <==>
      s.node[k].op.isNew && s.node[k].op.seenSharers - {k} == {o}
  {
    SoleOtherExact(k, s.node[k].op.seenSharers, o);
  }

  /** a write miss the one other writer it has found, or the other sharers if there is none; */
  lemma WriteNotifies(c: Config, s: State, k: Node, o: Node)
    requires WellFormed(c, s) && CanWrite(c, s, k, WriteRead)
    ensures var found := s.node[k].op.found - {k};
      o in ToNotify(WriteNext(c, s, k, WriteRead).node[k].op) <==>
      o != k && (found == {o} || (found == {} && o in s.node[c.home].sharers))
  {
    TargetsExact(k, s.node[k].op.found, s.node[c.home].sharers, o);
  }

  /** the home that joins, the one sharer there is; */
  lemma JoinNotifies(c: Config, s: State, o: Node)
    requires WellFormed(c, s) && CanHome(c, s, HomeJoin)
    ensures o in ToNotify(HomeNext(c, s, HomeJoin).node[c.home].op) <==> s.node[c.home].sharers == {o} && o != c.home
  {
    OnlyElement(s.node[c.home].sharers, o);
  }

  /** the home that becomes a writer, like any other writer. */
  lemma ClaimNotifies(c: Config, s: State, o: Node)
    requires WellFormed(c, s) && CanHome(c, s, HomeClaim)
    ensures var others := s.node[c.home].writers - {c.home};
      o in ToNotify(HomeNext(c, s, HomeClaim).node[c.home].op) <==>
      o != c.home && (others == {o} || (others == {} && o in s.node[c.home].sharers))
  {
    TargetsExact(c.home, s.node[c.home].writers, s.node[c.home].sharers, o);
  }

  lemma OnlyElement(a: set<Node>, o: Node)
    ensures |a| == 1 && o in a <==> a == {o}
  {
    if |a| == 1 && o in a {
      assert a == {o} + (a - {o}) && |a - {o}| == 0;
    }
  }

  /** Node k is in the word of another node that its handler adds it to. */
  ghost predicate Knows(f: Fault, k: Node, n: NodeState) {
    if f == Loading || f == Joining then k in n.sharers else k in n.writers
  }

  /** Node j, in state nj, has been told by the handler of node k, or is going to be. */
  ghost predicate Reached(f: Fault, k: Node, o: Op, j: Node, nj: NodeState) {
    j in ToNotify(o) || Knows(f, k, nj)
  }

  /** The node has merged these words into its own, or is going to. */
  ghost predicate Merged(n: NodeState, sharers: set<Node>, writers: set<Node>) {
    && (sharers <= n.sharers || sharers <= ToMerge(n.op).0)
    && (writers <= n.writers || writers <= ToMerge(n.op).1)
  }

  /** No step but an upgrade takes a node out of a word. */
  ghost predicate Grown(n: NodeState, n': NodeState) {
    n.sharers <= n'.sharers && n.writers <= n'.writers
  }

  lemma LoadGrows(c: Config, s: State, k: Node, step: LoadStep, j: Node)
    requires WellFormed(c, s) && CanLoad(c, s, k, step) && j < c.nodes
    ensures Grown(s.node[j], LoadNext(c, s, k, step).node[j])
  {
  }

  lemma WriteGrows(c: Config, s: State, k: Node, step: WriteStep, j: Node)
    requires WellFormed(c, s) && CanWrite(c, s, k, step) && j < c.nodes
    ensures Grown(s.node[j], WriteNext(c, s, k, step).node[j])
  {
  }

  lemma HomeGrows(c: Config, s: State, step: HomeStep, j: Node)
    requires WellFormed(c, s) && CanHome(c, s, step) && j < c.nodes
    ensures Grown(s.node[j], HomeNext(c, s, step).node[j])
  {
  }

  lemma WordsGrow(c: Config, s: State, l: Label, j: Node)
    requires WellFormed(c, s) && Enabled(c, s, l) && j < c.nodes && !l.UpgradeWriters?
    ensures Grown(s.node[j], Apply(c, s, l).node[j])
  {
    match l
    case Load(k, step) => LoadGrows(c, s, k, step, j);
    case Write(k, step) => WriteGrows(c, s, k, step, j);
    case Home(step) => HomeGrows(c, s, step, j);
    case _ =>
  }

  lemma OwnReaches(c: Config, s: State, l: Label, k: Node, j: Node)
    requires WellFormed(c, s) && Enabled(c, s, l) && OwnLabel(c, l, k) && k < c.nodes && j < c.nodes
    requires !s.node[k].op.Idle? && j in ToNotify(s.node[k].op)
    ensures Reached(FaultOf(s.node[k].op), k, Apply(c, s, l).node[k].op, j, Apply(c, s, l).node[j])
  {
  }

  lemma OwnMerges(c: Config, s: State, l: Label, k: Node)
    requires WellFormed(c, s) && Enabled(c, s, l) && OwnLabel(c, l, k) && k < c.nodes && !s.node[k].op.Idle?
    ensures var n := Apply(c, s, l).node[k]; Merged(n, ToMerge(s.node[k].op).0, ToMerge(s.node[k].op).1)
  {
  }

  lemma DirectoryStep(c: Config, s: State, l: Label, k: Node, j: Node, sharers: set<Node>, writers: set<Node>)
    requires DirInv(c, s) && Enabled(c, s, l) && k < c.nodes && j < c.nodes && !s.node[k].op.Idle?
    ensures var t := Apply(c, s, l); var f := FaultOf(s.node[k].op);
      && (Reached(f, k, s.node[k].op, j, s.node[j]) ==> Reached(f, k, t.node[k].op, j, t.node[j]))
      && (Merged(s.node[k], sharers, writers) ==> Merged(t.node[k], sharers, writers))
  {
    assert NodeOk(c, k, s.node[k], s.node[c.home].sharers, s.node[c.home].writers);
    WordsGrow(c, s, l, j);
    WordsGrow(c, s, l, k);
    if OwnLabel(c, l, k) {
      if j in ToNotify(s.node[k].op) { OwnReaches(c, s, l, k, j); }
      OwnMerges(c, s, l, k);
    } else {
      OthersLeaveHandler(c, s, k, l);
    }
  }

  lemma {:induction false} ReachedRun(c: Config, s: State, run: seq<Label>, t: State, k: Node, j: Node)
    requires DirInv(c, s) && k < c.nodes && j < c.nodes && BusyRun(c, s, run, t, k) && !s.node[k].op.Idle?
    requires Reached(FaultOf(s.node[k].op), k, s.node[k].op, j, s.node[j])
    ensures WellFormed(c, t) && Reached(FaultOf(s.node[k].op), k, t.node[k].op, j, t.node[j])
    decreases |run|
  {
    if run != [] {
      var l := run[0];
      var u := Apply(c, s, l);
      DirInvStep(c, s, l);
      DirectoryStep(c, s, l, k, j, {}, {});
      if OwnLabel(c, l, k) {
        HandlerAdvances(c, s, k, l);
      } else {
        OthersLeaveHandler(c, s, k, l);
      }
      if u.node[k].op.Idle? {
        assert run[1..] == [];
      } else {
        ReachedRun(c, u, run[1..], t, k, j);
      }
    }
  }

  lemma {:induction false} MergedRun(c: Config, s: State, run: seq<Label>, t: State, k: Node, sharers: set<Node>,
                                     writers: set<Node>)
    requires DirInv(c, s) && k < c.nodes && BusyRun(c, s, run, t, k) && Merged(s.node[k], sharers, writers)
    ensures WellFormed(c, t) && Merged(t.node[k], sharers, writers)
    decreases |run|
  {
    if run != [] {
      DirInvStep(c, s, run[0]);
      DirectoryStep(c, s, run[0], k, k, sharers, writers);
      MergedRun(c, Apply(c, s, run[0]), run[1..], t, k, sharers, writers);
    }
  }

  /**
   Whatever the other nodes do meanwhile, when a handler ends, each node it had to notify has been notified,
   and the words it had fetched are in those of its node.
   */
  lemma HandlerDelivers(c: Config, s: State, run: seq<Label>, t: State, k: Node)
    requires Reachable(c, s) && k < c.nodes && BusyRun(c, s, run, t, k) && !s.node[k].op.Idle?
    ensures WellFormed(c, t)
    ensures t.node[k].op.Idle? ==>
      && (forall j :: j in ToNotify(s.node[k].op) ==> j < c.nodes && Knows(FaultOf(s.node[k].op), k, t.node[j]))
      && ToMerge(s.node[k].op).0 <= t.node[k].sharers && ToMerge(s.node[k].op).1 <= t.node[k].writers
  {
    ReachableDirInv(c, s);
    var n, f := s.node[k], FaultOf(s.node[k].op);
    assert NodeOk(c, k, n, s.node[c.home].sharers, s.node[c.home].writers);
    BusyRunRank(c, s, run, t, k);
    forall j | j in ToNotify(n.op)
      ensures j < c.nodes && (t.node[k].op.Idle? ==> Knows(f, k, t.node[j]))
    {
      ReachedRun(c, s, run, t, k, j);
    }
    MergedRun(c, s, run, t, k, ToMerge(n.op).0, ToMerge(n.op).1);
  }

  // ----- what a node may access -----

  /**
   A page is accessible as its copy allows; at the home it is once the home has joined its sharers. That
   the home has joined is all a read fault there looks at, so this is what makes it right to return.
   */
  ghost predicate AccessOk(c: Config, k: Node, n: NodeState) {
    if k == c.home then k in n.sharers && !n.op.HomeJoined? ==> n.prot != NoAccess
    else match n.copy
      case Absent => n.prot == NoAccess
      case Clean(_) => n.prot == ReadOnly
      case Dirty(_, _) => n.prot == ReadWrite
  }

  ghost predicate AccessInv(c: Config, s: State) {
    DirInv(c, s) && forall k :: 0 <= k < c.nodes ==> AccessOk(c, k, s.node[k])
  }

  lemma LoadAccess(c: Config, s: State, j: Node, step: LoadStep, k: Node)
    requires DirInv(c, s) && CanLoad(c, s, j, step) && k < c.nodes && AccessOk(c, k, s.node[k])
    ensures AccessOk(c, k, LoadNext(c, s, j, step).node[k])
  {
  }

  lemma WriteAccess(c: Config, s: State, j: Node, step: WriteStep, k: Node)
    requires DirInv(c, s) && CanWrite(c, s, j, step) && k < c.nodes && AccessOk(c, k, s.node[k])
    ensures AccessOk(c, k, WriteNext(c, s, j, step).node[k])
  {
    assert NodeOk(c, j, s.node[j], s.node[c.home].sharers, s.node[c.home].writers);
  }

  lemma HomeAccess(c: Config, s: State, step: HomeStep, k: Node)
    requires DirInv(c, s) && CanHome(c, s, step) && k < c.nodes && AccessOk(c, k, s.node[k])
    ensures AccessOk(c, k, HomeNext(c, s, step).node[k])
  {
    assert NodeOk(c, c.home, s.node[c.home], s.node[c.home].sharers, s.node[c.home].writers);
  }

  lemma OtherAccess(c: Config, s: State, l: Label, k: Node)
    requires DirInv(c, s) && Enabled(c, s, l) && k < c.nodes && AccessOk(c, k, s.node[k])
    requires !l.Load? && !l.Write? && !l.Home?
    ensures AccessOk(c, k, Apply(c, s, l).node[k])
  {
    assert NodeOk(c, k, s.node[k], s.node[c.home].sharers, s.node[c.home].writers);
  }

  lemma AccessStep(c: Config, s: State, l: Label)
    requires AccessInv(c, s) && Enabled(c, s, l)
    ensures AccessInv(c, Apply(c, s, l))
  {
    DirInvStep(c, s, l);
    forall k | 0 <= k < c.nodes
      ensures AccessOk(c, k, Apply(c, s, l).node[k])
    {
      match l
      case Load(j, step) => LoadAccess(c, s, j, step, k);
      case Write(j, step) => WriteAccess(c, s, j, step, k);
      case Home(step) => HomeAccess(c, s, step, k);
      case _ => OtherAccess(c, s, l, k);
    }
  }

  lemma {:induction false} AccessRun(c: Config, s: State, run: seq<Label>, t: State)
    requires AccessInv(c, s) && IsRun(c, s, run, t)
    ensures AccessInv(c, t)
    decreases |run|
  {
    if run != [] {
      AccessStep(c, s, run[0]);
      AccessRun(c, Apply(c, s, run[0]), run[1..], t);
    }
  }

  lemma ReachableAccess(c: Config, s: State)
    requires Reachable(c, s)
    ensures AccessInv(c, s)
  {
    var m: Page, run: seq<Label> :| |m| == c.size && IsRun(c, Initial(c, m), run, s);
    InitialDirInv(c, m);
    AccessRun(c, Initial(c, m), run, s);
  }

  // ----- runs that exist -----

  /** What the handlers of a node leave alone. */
  ghost predicate Undisturbed(c: Config, s: State, t: State) {
    && WellFormed(c, s) && WellFormed(c, t)
    && t.memory == s.memory && t.truth == s.truth && t.writer == s.writer
    && forall j :: 0 <= j < c.nodes ==> t.node[j].mode == s.node[j].mode
  }

  /** `run` leads from s to t by steps of node k's handlers. */
  ghost predicate OwnRun(c: Config, s: State, run: seq<Label>, t: State, k: Node) {
    && k < c.nodes && DirInv(c, s) && IsRun(c, s, run, t) && DirInv(c, t) && Undisturbed(c, s, t)
    && forall i :: 0 <= i < |run| ==> OwnLabel(c, run[i], k)
  }

  lemma LoadLeaves(c: Config, s: State, k: Node, step: LoadStep)
    requires WellFormed(c, s) && CanLoad(c, s, k, step)
    ensures Undisturbed(c, s, LoadNext(c, s, k, step))
  {
  }

  lemma WriteLeaves(c: Config, s: State, k: Node, step: WriteStep)
    requires WellFormed(c, s) && CanWrite(c, s, k, step)
    ensures Undisturbed(c, s, WriteNext(c, s, k, step))
  {
  }

  lemma HomeLeaves(c: Config, s: State, step: HomeStep)
    requires WellFormed(c, s) && CanHome(c, s, step)
    ensures Undisturbed(c, s, HomeNext(c, s, step))
  {
  }

  lemma OwnLabelLeaves(c: Config, s: State, l: Label, k: Node)
    requires WellFormed(c, s) && Enabled(c, s, l) && OwnLabel(c, l, k)
    ensures Undisturbed(c, s, Apply(c, s, l))
  {
    match l
    case Load(_, step) => LoadLeaves(c, s, k, step);
    case Write(_, step) => WriteLeaves(c, s, k, step);
    case Home(step) => HomeLeaves(c, s, step);
  }

  lemma OwnRunCons(c: Config, s: State, l: Label, run: seq<Label>, t: State, k: Node)
    requires DirInv(c, s) && Enabled(c, s, l) && OwnLabel(c, l, k) && OwnRun(c, Apply(c, s, l), run, t, k)
    ensures OwnRun(c, s, [l] + run, t, k)
  {
    OwnLabelLeaves(c, s, l, k);
    assert ([l] + run)[0] == l && ([l] + run)[1..] == run;
  }

  lemma {:induction false} RunsJoin(c: Config, s: State, a: seq<Label>, t: State, b: seq<Label>, u: State)
    requires WellFormed(c, s) && IsRun(c, s, a, t) && IsRun(c, t, b, u)
    ensures IsRun(c, s, a + b, u)
    decreases |a|
  {
    if a == [] {
      assert a + b == b;
    } else {
      RunsJoin(c, Apply(c, s, a[0]), a[1..], t, b, u);
      AppendTail(a, b);
    }
  }

  lemma OwnRunsJoin(c: Config, s: State, a: seq<Label>, t: State, b: seq<Label>, u: State, k: Node)
    requires OwnRun(c, s, a, t, k) && OwnRun(c, t, b, u, k)
    ensures OwnRun(c, s, a + b, u, k)
  {
    RunsJoin(c, s, a, t, b, u);
  }

  /** A handler in flight can be finished by its own steps. */
  lemma {:induction false} Finish(c: Config, s: State, k: Node) returns (run: seq<Label>, t: State)
    requires DirInv(c, s) && k < c.nodes
    ensures OwnRun(c, s, run, t, k) && t.node[k].op.Idle?
    ensures s.node[k].op.Idle? ==> t == s
    ensures !s.node[k].op.Idle? ==> Served(FaultOf(s.node[k].op), k, t.node[k])
    decreases Rank(c, s.node[k].op)
  {
    if s.node[k].op.Idle? {
      run, t := [], s;
    } else {
      var l := HandlerCanStep(c, s, k);
      HandlerAdvances(c, s, k, l);
      DirInvStep(c, s, l);
      var rest;
      rest, t := Finish(c, Apply(c, s, l), k);
      OwnRunCons(c, s, l, rest, t, k);
      run := [l] + rest;
    }
  }

  /** A fault and the whole of its handler. */
  lemma Handle(c: Config, s: State, k: Node, l: Label) returns (run: seq<Label>, t: State)
    requires DirInv(c, s) && k < c.nodes && Enabled(c, s, l) && OwnLabel(c, l, k)
    requires !Apply(c, s, l).node[k].op.Idle?
    ensures OwnRun(c, s, run, t, k) && Served(FaultOf(Apply(c, s, l).node[k].op), k, t.node[k])
  {
    DirInvStep(c, s, l);
    var rest;
    rest, t := Finish(c, Apply(c, s, l), k);
    OwnRunCons(c, s, l, rest, t, k);
    run := [l] + rest;
  }

  /** A node without access gets read access by a read fault. */
  lemma NodeCanRead(c: Config, s: State, k: Node) returns (run: seq<Label>, t: State)
    requires Reachable(c, s) && k < c.nodes && s.node[k].mode.Running? && s.node[k].op.Idle?
    ensures IsRun(c, s, run, t) && Undisturbed(c, s, t)
    ensures forall i :: 0 <= i < |run| ==> OwnLabel(c, run[i], k)
    ensures t.node[k].op.Idle? && t.node[k].prot != NoAccess && (k != c.home ==> !t.node[k].copy.Absent?)
    ensures s.node[k].prot == NoAccess ==> t.node[k].prot == ReadOnly
  {
    ReachableAccess(c, s);
    assert AccessOk(c, k, s.node[k]);
    if k == c.home && k !in s.node[k].sharers {
      run, t := Handle(c, s, k, Home(HomeFault(true)));
    } else if k != c.home && s.node[k].copy.Absent? {
      run, t := Handle(c, s, k, Load(k, LoadCheck));
    } else {
      run, t := [], s;
    }
  }

  /** The home has joined the sharers; a write fault makes it a writer. */
  lemma HomeClaims(c: Config, s: State) returns (run: seq<Label>, t: State)
    requires DirInv(c, s) && s.node[c.home].mode.Running? && s.node[c.home].op.Idle?
    ensures OwnRun(c, s, run, t, c.home) && Served(Claiming, c.home, t.node[c.home])
  {
    var fault := Home(HomeFault(false));
    if c.home in s.node[c.home].sharers {
      run, t := Handle(c, s, c.home, fault);
    } else {
      var join, u := Handle(c, s, c.home, fault);
      var claim;
      claim, t := Handle(c, u, c.home, fault);
      OwnRunsJoin(c, s, join, u, claim, t, c.home);
      run := join + claim;
    }
  }

  /** A write fault of another node, on a page that is cached or not. */
  lemma RemoteClaims(c: Config, s: State, k: Node) returns (run: seq<Label>, t: State)
    requires AccessInv(c, s) && Remote(c, k) && s.node[k].mode.Running? && s.node[k].op.Idle?
    ensures OwnRun(c, s, run, t, k) && t.node[k].copy.Dirty? && t.node[k].prot == ReadWrite && t.node[k].op.Idle?
  {
    assert AccessOk(c, k, s.node[k]);
    match s.node[k].copy
    case Dirty(_, _) => run, t := [], s;
    case Clean(_) => run, t := Handle(c, s, k, Write(k, WriteCheck));
    case Absent =>
      var load, u := Handle(c, s, k, Load(k, LoadCheck));
      var write;
      write, t := Handle(c, u, k, Write(k, WriteCheck));
      OwnRunsJoin(c, s, load, u, write, t, k);
      run := load + write;
  }

  lemma Claims(c: Config, s: State, k: Node) returns (run: seq<Label>, t: State)
    requires AccessInv(c, s) && k < c.nodes && s.node[k].mode.Running?
    ensures OwnRun(c, s, run, t, k) && t.node[k].prot == ReadWrite && t.node[k].op.Idle?
    ensures k != c.home ==> t.node[k].copy.Dirty?
  {
    var finish, u := Finish(c, s, k);
    AccessRun(c, s, finish, u);
    var claim;
    if k == c.home {
      claim, t := HomeClaims(c, u);
    } else {
      claim, t := RemoteClaims(c, u, k);
    }
    OwnRunsJoin(c, s, finish, u, claim, t, k);
    run := finish + claim;
  }

  /**
   From every reachable state, whatever handlers are in flight, a running node comes by its own steps
   to where it can store to every byte that no other node has stored since the last barrier.
   */
  lemma NodeCanStore(c: Config, s: State, k: Node) returns (run: seq<Label>, t: State)
    requires Reachable(c, s) && k < c.nodes && s.node[k].mode.Running?
    ensures IsRun(c, s, run, t) && Undisturbed(c, s, t)
    ensures forall i :: 0 <= i < |run| ==> OwnLabel(c, run[i], k)
    ensures forall at, v :: 0 <= at < c.size && s.writer[at] <= {k} ==> Enabled(c, t, Store(k, at, v))
  {
    ReachableAccess(c, s);
    run, t := Claims(c, s, k);
  }

  // ----- barriers -----

  /** Nodes other than k keep their modes. */
  ghost predicate ModesBut(c: Config, s: State, t: State, k: Node) {
    && WellFormed(c, s) && WellFormed(c, t)
    && forall j :: 0 <= j < c.nodes && j != k ==> t.node[j].mode == s.node[j].mode
  }

  lemma StepJoin(c: Config, s: State, run: seq<Label>, t: State, l: Label)
    requires AccessInv(c, s) && IsRun(c, s, run, t) && AccessInv(c, t) && Enabled(c, t, l)
    ensures IsRun(c, s, run + [l], Apply(c, t, l)) && AccessInv(c, Apply(c, t, l))
  {
    assert [l][1..] == [] && IsRun(c, Apply(c, t, l), [], Apply(c, t, l));
    RunsJoin(c, s, run, t, [l], Apply(c, t, l));
    AccessStep(c, t, l);
  }

  /** A running node finishes its handler, writes its copy back ... */
  lemma RunnerFlushes(c: Config, s: State, k: Node) returns (run: seq<Label>, t: State)
    requires AccessInv(c, s) && k < c.nodes && s.node[k].mode.Running?
    ensures IsRun(c, s, run, t) && AccessInv(c, t) && Undisturbed(c, s, t.(memory := s.memory))
    ensures t.node[k].op.Idle? && !t.node[k].copy.Dirty?
  {
    run, t := Finish(c, s, k);
    AccessRun(c, s, run, t);
    assert NodeOk(c, k, t.node[k], t.node[c.home].sharers, t.node[c.home].writers);
    if t.node[k].copy.Dirty? {
      StepJoin(c, s, run, t, WriteBack(k));
      run, t := run + [WriteBack(k)], Apply(c, t, WriteBack(k));
    }
  }

  /** ... and arrives. */
  lemma RunnerArrives(c: Config, s: State, k: Node) returns (run: seq<Label>, t: State)
    requires AccessInv(c, s) && k < c.nodes && s.node[k].mode.Running?
    ensures IsRun(c, s, run, t) && AccessInv(c, t) && ModesBut(c, s, t, k) && t.node[k].mode.Arrived?
  {
    run, t := RunnerFlushes(c, s, k);
    StepJoin(c, s, run, t, Arrive(k));
    run, t := run + [Arrive(k)], Apply(c, t, Arrive(k));
  }

  lemma NodeArrives(c: Config, s: State, k: Node) returns (run: seq<Label>, t: State)
    requires AccessInv(c, s) && k < c.nodes
    ensures IsRun(c, s, run, t) && AccessInv(c, t) && ModesBut(c, s, t, k) && t.node[k].mode.Arrived?
  {
    match s.node[k].mode
    case Arrived => run, t := [], s;
    case Running => run, t := RunnerArrives(c, s, k);
    case Draining =>
      assert IsRun(c, s, [], s);
      StepJoin(c, s, [], s, Invalidate(k));
      var u := Apply(c, s, Invalidate(k));
      var rest;
      rest, t := RunnerArrives(c, u, k);
      RunsJoin(c, s, [] + [Invalidate(k)], u, rest, t);
      run := [] + [Invalidate(k)] + rest;
  }

  lemma {:induction false} AllArrive(c: Config, s: State, n: nat) returns (run: seq<Label>, t: State)
    requires AccessInv(c, s) && n <= c.nodes && forall k :: n <= k < c.nodes ==> s.node[k].mode.Arrived?
    ensures IsRun(c, s, run, t) && AccessInv(c, t) && forall k :: 0 <= k < c.nodes ==> t.node[k].mode.Arrived?
    decreases n
  {
    if n == 0 {
      run, t := [], s;
    } else {
      var first, u := NodeArrives(c, s, n - 1);
      var rest;
      rest, t := AllArrive(c, u, n - 1);
      RunsJoin(c, s, first, u, rest, t);
      run := first + rest;
    }
  }

  lemma {:induction false} AllInvalidate(c: Config, s: State, n: nat) returns (run: seq<Label>, t: State)
    requires AccessInv(c, s) && n <= c.nodes && forall k :: 0 <= k < n ==> s.node[k].mode.Draining?
    requires forall k :: n <= k < c.nodes ==> s.node[k].mode.Running?
    ensures IsRun(c, s, run, t) && AccessInv(c, t) && forall k :: 0 <= k < c.nodes ==> t.node[k].mode.Running?
    ensures t.writer == s.writer
    decreases n
  {
    if n == 0 {
      run, t := [], s;
    } else {
      assert IsRun(c, s, [], s);
      StepJoin(c, s, [], s, Invalidate(n - 1));
      var u := Apply(c, s, Invalidate(n - 1));
      var rest;
      rest, t := AllInvalidate(c, u, n - 1);
      RunsJoin(c, s, [] + [Invalidate(n - 1)], u, rest, t);
      run := [] + [Invalidate(n - 1)] + rest;
    }
  }

  /**
   From every reachable state, whatever handlers are in flight, all nodes can go through a barrier, with
   or without the upgrade; then all run, and nobody has stored since it. What they see is in
   `BarrierCoherence.CoherentAfterBarrier`.
   */
  lemma BarrierCompletes(c: Config, s: State, upgrade: bool) returns (run: seq<Label>, t: State)
    requires Reachable(c, s)
    ensures IsRun(c, s, run, t) && (if upgrade then UpgradeWriters else Release) in run
    ensures forall k :: 0 <= k < c.nodes ==> t.node[k].mode.Running?
    ensures forall b :: 0 <= b < c.size ==> t.writer[b] == {}
  {
    ReachableAccess(c, s);
    var l := if upgrade then UpgradeWriters else Release;
    var arrive, u := AllArrive(c, s, c.nodes);
    StepJoin(c, s, arrive, u, l);
    run, t := arrive + [l], Apply(c, u, l);
    assert run[|arrive|] == l;
    if !upgrade {
      var rest, v := AllInvalidate(c, t, c.nodes);
      RunsJoin(c, s, run, t, rest, v);
      assert (run + rest)[|arrive|] == l;
      run, t := run + rest, v;
    }
  }
}
