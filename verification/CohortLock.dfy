/**
 The cohort lock: per node an MCS lock and a ticket lock, over one test-and-set word for all
 nodes. Each access to a shared word is one atomic step; the MCS locks take their own steps
 (module `McsLock`). numa_node() is 0, as in the source, so a node has one MCS lock.

 `active` and `served` are not part of the program: the thread that has come out of the MCS
 lock() and not yet called its unlock(), and how many critical sections the node has run since
 it last took the global lock.
 */
module CohortLock {
  import opened LockWord
  import Mcs = McsLock

  const MaxHandover: nat := 8192
  const MaxHandoverNodelock: nat := 128
  const NoOwner: int := -1

  datatype Pc =
    | Idle
    // lock()
    | WaitLocal
    | FetchTicket
    | WaitTicket(ticket: int)
    | SetOwner
    | CheckGlobal
    | TryGlobal
    | SetGlobal
    // lock() has returned
    | Critical
    // unlock()
    | CheckContended
    | CountHandover
    | ResetOwner
    | CheckNode
    | CountNuma
    | ClearGlobal
    | StoreGlobal
    | UnlockTicket
    | UnlockLocal
    | Leaving

  datatype NodeState = NodeState(
    mcs: Mcs.State,
    ticketsOut: int,       // in_counter
    serving: int,          // out_counter
    owner: int,            // nodelockowner
    hasGlobal: bool,
    handovers: nat,
    numaHandover: nat,
    pc: seq<Pc>,
    active: Mcs.Ref,
    served: nat)

  datatype State = State(word: Word, nodes: seq<NodeState>)

  function InitialNode(threads: nat): (s: NodeState) {
    NodeState(Mcs.Initial(threads), 0, 0, NoOwner, false, 0, 0, seq(threads, _ => Idle), Mcs.Null, 0)
  }

  predicate WellSized(s: NodeState) {
    Mcs.WellSized(s.mcs) && |s.pc| == |s.mcs.pc|
  }

  predicate CanStep(s: NodeState, t: nat)
    requires WellSized(s) && t < |s.pc|
  {
    match s.pc[t]
    case WaitLocal => s.mcs.pc[t] == Mcs.Critical || Mcs.CanStep(s.mcs, t)
    case Idle | UnlockLocal | Leaving => Mcs.CanStep(s.mcs, t)
    case WaitTicket(k) => s.serving == k
    case _ => true
  }

  function At(s: NodeState, t: nat, pc: Pc): (s': NodeState)
    requires t < |s.pc|
  {
    s.(pc := s.pc[t := pc])
  }

  function Enter(s: NodeState, t: nat): (s': NodeState)
    requires t < |s.pc|
  {
    At(s, t, Critical).(served := s.served + 1)
  }

  /** The steps that go through the MCS lock, which they take to mcs'. */
  function Continue(s: NodeState, t: nat, mcs': Mcs.State): (s': NodeState)
    requires t < |s.pc| && t < |mcs'.pc|
  {
    var s' := s.(mcs := mcs');
    match s.pc[t]
    case Idle => At(s', t, WaitLocal)
    case UnlockLocal => At(s', t, Leaving).(active := Mcs.Null)
    case Leaving => if mcs'.pc[t] == Mcs.Out then At(s', t, Idle) else s'
    case _ => s'
  }

  /** lock() once the MCS lock is held. */
  function LockStep(s: NodeState, t: nat): (s': NodeState)
    requires WellSized(s) && t < |s.pc|
  {
    match s.pc[t]
    case WaitLocal =>
      if s.owner == 0 then Enter(s, t).(active := Mcs.Node(t)) else At(s, t, FetchTicket).(active := Mcs.Node(t))
    case FetchTicket => At(s, t, WaitTicket(s.ticketsOut)).(ticketsOut := s.ticketsOut + 1)
    case WaitTicket(_) => At(s, t, SetOwner)
    case SetOwner => At(s, t, CheckGlobal).(owner := 0)
    case CheckGlobal => if s.hasGlobal then Enter(s, t) else At(s, t, TryGlobal)
    case SetGlobal => At(s, t, Critical).(hasGlobal := true, served := 1)
    case _ => s
  }

  /** unlock() up to the unlock of the MCS lock. */
  function UnlockStep(s: NodeState, t: nat): (s': NodeState)
    requires WellSized(s) && t < |s.pc|
  {
    match s.pc[t]
    case Critical => At(s, t, CheckContended)
    case CheckContended =>
      At(s, t, if Mcs.IsContended(s.mcs, t) && s.handovers < MaxHandover then CountHandover else ResetOwner)
    case CountHandover => At(s, t, UnlockLocal).(handovers := s.handovers + 1)
    case ResetOwner => At(s, t, CheckNode).(handovers := 0, owner := NoOwner)
    case CheckNode =>
      At(s, t, if s.ticketsOut - s.serving > 1 && s.numaHandover < MaxHandoverNodelock then CountNuma else ClearGlobal)
    case CountNuma => At(s, t, UnlockTicket).(numaHandover := s.numaHandover + 1)
    case ClearGlobal => At(s, t, StoreGlobal).(hasGlobal := false, numaHandover := 0)
    case UnlockTicket => At(s, t, UnlockLocal).(serving := s.serving + 1)
    case _ => s
  }

  predicate IsLocal(s: NodeState, t: nat)
    requires WellSized(s) && t < |s.pc|
  {
    match s.pc[t]
    case Idle | UnlockLocal | Leaving => true
    case WaitLocal => s.mcs.pc[t] != Mcs.Critical
    case _ => false
  }

  predicate InLock(pc: Pc) {
    match pc
    case WaitLocal | FetchTicket | WaitTicket(_) | SetOwner | CheckGlobal | SetGlobal => true
    case _ => false
  }

  /** One step of thread t of node n. */
  function NodeStep(n: nat, s: NodeState, t: nat, word: Word): (r: (NodeState, Word))
    requires WellSized(s) && t < |s.pc| && CanStep(s, t)
  {
    if IsLocal(s, t) then (Continue(s, t, Mcs.Step(s.mcs, t)), word)
    else if s.pc[t] == TryGlobal then (if word == Locked then s else At(s, t, SetGlobal), Locked)
    else if s.pc[t] == StoreGlobal then (At(s, t, UnlockTicket), User(n))
    else if InLock(s.pc[t]) then (LockStep(s, t), word)
    else (UnlockStep(s, t), word)
  }

  // ---- What every step keeps in one node ----

  /** How far a thread is in this lock, and how far in the MCS lock. */
  predicate Coupled(pc: Pc, mcs: Mcs.Pc, isActive: bool) {
    match pc
    case Idle => mcs == Mcs.Out && !isActive
    case WaitLocal => mcs != Mcs.Out && (mcs == Mcs.Critical || !Mcs.Holding(mcs)) && !isActive
    case Leaving => mcs != Mcs.Critical && Mcs.Holding(mcs) && !isActive
    case _ => mcs == Mcs.Critical && isActive
  }

  /** The node has nothing. */
  predicate Free(s: NodeState) {
    s.owner == NoOwner && !s.hasGlobal && s.ticketsOut == s.serving && s.handovers == 0
  }

  /** The node has the node lock, and the global one or not. */
  predicate Has(s: NodeState, owner: int, global: bool) {
    s.owner == owner && s.hasGlobal == global && s.ticketsOut == s.serving + 1 && s.handovers <= MaxHandover
  }

  /** The global lock stays with the node for the next local thread. */
  predicate Kept(s: NodeState) {
    Has(s, 0, true) && s.served == s.handovers
  }

  predicate Phase(s: NodeState)
    requires WellSized(s) && (s.active == Mcs.Null || s.active.t < |s.pc|)
  {
    if s.active == Mcs.Null then Free(s) || (Kept(s) && Mcs.Succession(s.mcs))
    else match s.pc[s.active.t]
      case FetchTicket => Free(s)
      case WaitTicket(k) => Has(s, NoOwner, false) && s.handovers == 0 && k == s.serving
      case SetOwner => Has(s, NoOwner, false) && s.handovers == 0
      case CheckGlobal | TryGlobal | SetGlobal => Has(s, 0, false) && s.handovers == 0
      case Critical | CheckContended | ResetOwner => Has(s, 0, true) && s.served == s.handovers + 1
      case CountHandover =>
        && Has(s, 0, true) && s.served == s.handovers + 1 && s.handovers < MaxHandover
        && Mcs.IsContended(s.mcs, s.active.t)
      case CheckNode | ClearGlobal => Has(s, NoOwner, true) && s.handovers == 0
      case StoreGlobal | UnlockTicket => Has(s, NoOwner, false) && s.handovers == 0
      case UnlockLocal => Free(s) || (Kept(s) && Mcs.IsContended(s.mcs, s.active.t))
      case _ => false
  }

  ghost predicate NodeOk(s: NodeState) {
    && WellSized(s)
    && s.numaHandover == 0
    && (s.active == Mcs.Null || s.active.t < |s.pc|)
    && (forall t :: 0 <= t < |s.pc| ==> Coupled(s.pc[t], s.mcs.pc[t], s.active == Mcs.Node(t)))
    && Phase(s)
  }

  ghost predicate NodeInv(s: NodeState) {
    NodeOk(s) && Mcs.Inv(s.mcs)
  }

  /** The node has taken the word and not given it back. */
  predicate Holds(s: NodeState) {
    || s.hasGlobal
    || (&& s.active != Mcs.Null && s.active.t < |s.pc|
        && (s.pc[s.active.t] == SetGlobal || s.pc[s.active.t] == StoreGlobal))
  }

  lemma CoupledContinue(s: NodeState, t: nat, mcs': Mcs.State, u: nat)
    requires NodeOk(s) && Mcs.Moved(s.mcs, mcs', t) && IsLocal(s, t) && u < |s.pc|
    ensures var s' := Continue(s, t, mcs'); Coupled(s'.pc[u], s'.mcs.pc[u], s'.active == Mcs.Node(u))
  {
    assert Coupled(s.pc[t], s.mcs.pc[t], s.active == Mcs.Node(t));
    assert Coupled(s.pc[u], s.mcs.pc[u], s.active == Mcs.Node(u));
  }

  lemma PhaseContinue(s: NodeState, t: nat, mcs': Mcs.State)
    requires NodeOk(s) && Mcs.Moved(s.mcs, mcs', t) && IsLocal(s, t)
    requires s.pc[t] == UnlockLocal ==> Mcs.Succession(s.mcs)
    ensures Phase(Continue(s, t, mcs')) && Holds(Continue(s, t, mcs')) == Holds(s)
  {
    assert Coupled(s.pc[t], s.mcs.pc[t], s.active == Mcs.Node(t));
    if s.active != Mcs.Null {
      assert Coupled(s.pc[s.active.t], s.mcs.pc[s.active.t], true);
    }
  }

  lemma LocalKeeps(s: NodeState, t: nat)
    requires NodeInv(s) && t < |s.pc| && Mcs.CanStep(s.mcs, t) && IsLocal(s, t)
    ensures NodeInv(Continue(s, t, Mcs.Step(s.mcs, t))) && Holds(Continue(s, t, Mcs.Step(s.mcs, t))) == Holds(s)
  {
    assert Coupled(s.pc[t], s.mcs.pc[t], s.active == Mcs.Node(t));
    if s.pc[t] == UnlockLocal {
      var i := Mcs.NotHead(s.mcs, t);
    }
    Mcs.StepMoves(s.mcs, t);
    Mcs.InvStep(s.mcs, t);
    ContinueKeeps(s, t, Mcs.Step(s.mcs, t));
  }

  lemma ContinueKeeps(s: NodeState, t: nat, mcs': Mcs.State)
    requires NodeOk(s) && Mcs.Moved(s.mcs, mcs', t) && IsLocal(s, t)
    requires s.pc[t] == UnlockLocal ==> Mcs.Succession(s.mcs)
    ensures NodeOk(Continue(s, t, mcs')) && Holds(Continue(s, t, mcs')) == Holds(s)
  {
    PhaseContinue(s, t, mcs');
    forall u | 0 <= u < |s.pc|
      ensures var s' := Continue(s, t, mcs'); Coupled(s'.pc[u], s'.mcs.pc[u], s'.active == Mcs.Node(u))
    {
      CoupledContinue(s, t, mcs', u);
    }
  }

  lemma LockKeeps(s: NodeState, t: nat)
    requires NodeOk(s) && t < |s.pc| && CanStep(s, t) && !IsLocal(s, t) && InLock(s.pc[t])
    requires s.pc[t] == WaitLocal ==> s.active == Mcs.Null
    ensures NodeOk(LockStep(s, t)) && Holds(LockStep(s, t)) == Holds(s)
  {
    assert Coupled(s.pc[t], s.mcs.pc[t], s.active == Mcs.Node(t));
  }

  /** A thread that comes out of the MCS lock finds no active thread. */
  lemma TakesOver(s: NodeState, t: nat)
    requires NodeInv(s) && t < |s.pc| && s.pc[t] == WaitLocal && s.mcs.pc[t] == Mcs.Critical
    ensures s.active == Mcs.Null
  {
    if s.active != Mcs.Null {
      var u := s.active.t;
      assert Coupled(s.pc[u], s.mcs.pc[u], true);
      assert u != t;
      var i := Mcs.NotHead(s.mcs, t);
      var j := Mcs.NotHead(s.mcs, u);
      assert false;
    }
  }

  lemma UnlockKeeps(s: NodeState, t: nat)
    requires NodeOk(s) && t < |s.pc| && CanStep(s, t) && !IsLocal(s, t)
    requires !InLock(s.pc[t]) && s.pc[t] != TryGlobal && s.pc[t] != StoreGlobal
    ensures NodeOk(UnlockStep(s, t)) && Holds(UnlockStep(s, t)) == Holds(s)
  {
    assert Coupled(s.pc[t], s.mcs.pc[t], s.active == Mcs.Node(t));
  }

  lemma GlobalKeeps(n: nat, s: NodeState, t: nat, word: Word)
    requires NodeOk(s) && t < |s.pc| && (s.pc[t] == TryGlobal || s.pc[t] == StoreGlobal)
    ensures var r := NodeStep(n, s, t, word);
      && NodeOk(r.0) && r.0.mcs == s.mcs
      && Holds(r.0) == (s.pc[t] == TryGlobal && word != Locked)
      && Holds(s) == (s.pc[t] == StoreGlobal)
      && (r.1 == Locked <==> s.pc[t] == TryGlobal)
  {
    assert Coupled(s.pc[t], s.mcs.pc[t], s.active == Mcs.Node(t));
  }

  // ---- The whole system ----

  ghost predicate Inv(s: State) {
    (forall n :: 0 <= n < |s.nodes| ==> NodeInv(s.nodes[n])) && HolderOk(s.nodes, s.word)
  }

  /** At most one node holds the word, and it is locked if and only if one does. */
  ghost predicate HolderOk(nodes: seq<NodeState>, word: Word) {
    && (forall n, m :: 0 <= n < |nodes| && 0 <= m < |nodes| && Holds(nodes[n]) && Holds(nodes[m]) ==> n == m)
    && (word == Locked <==> exists n :: 0 <= n < |nodes| && Holds(nodes[n]))
  }

  predicate Enabled(s: State, n: nat, t: nat) {
    n < |s.nodes| && WellSized(s.nodes[n]) && t < |s.nodes[n].pc| && CanStep(s.nodes[n], t)
  }

  function Step(s: State, n: nat, t: nat): (s': State)
    requires Enabled(s, n, t)
  {
    var r := NodeStep(n, s.nodes[n], t, s.word);
    State(r.1, s.nodes[n := r.0])
  }

  /** A node leaves the word alone, takes it while it is free, or gives back what it holds. */
  predicate WordMoves(word: Word, word': Word, holds: bool, holds': bool) {
    || (word' == word && holds' == holds)
    || (word != Locked && word' == Locked && holds')
    || (holds && word' != Locked && !holds')
  }

  lemma NodeKeeps(n: nat, s: NodeState, t: nat, word: Word)
    requires NodeInv(s) && t < |s.pc| && CanStep(s, t) && (Holds(s) ==> word == Locked)
    ensures var r := NodeStep(n, s, t, word);
      && NodeInv(r.0)
      && WordMoves(word, r.1, Holds(s), Holds(r.0))
  {
    if s.pc[t] == TryGlobal || s.pc[t] == StoreGlobal {
      GlobalKeeps(n, s, t, word);
    } else if IsLocal(s, t) {
      LocalKeeps(s, t);
    } else if InLock(s.pc[t]) {
      if s.pc[t] == WaitLocal { TakesOver(s, t); }
      LockKeeps(s, t);
    } else {
      UnlockKeeps(s, t);
    }
  }

  lemma InvStep(s: State, n: nat, t: nat)
    requires Inv(s) && Enabled(s, n, t)
    ensures Inv(Step(s, n, t))
  {
    NodeKeeps(n, s.nodes[n], t, s.word);
    HolderStep(s.nodes, s.word, n, NodeStep(n, s.nodes[n], t, s.word).0, NodeStep(n, s.nodes[n], t, s.word).1);
  }

  /** One node moves, and the word with it. */
  lemma HolderStep(nodes: seq<NodeState>, word: Word, n: nat, a: NodeState, word': Word)
    requires n < |nodes| && HolderOk(nodes, word) && WordMoves(word, word', Holds(nodes[n]), Holds(a))
    ensures HolderOk(nodes[n := a], word')
  {
    var nodes' := nodes[n := a];
    assert forall m :: 0 <= m < |nodes| && m != n ==> nodes'[m] == nodes[m];
    if word' == Locked {
      if word == Locked {
        var m :| 0 <= m < |nodes| && Holds(nodes[m]);
        assert Holds(nodes'[m]);
      } else {
        assert Holds(nodes'[n]);
      }
    }
  }

  datatype Move = Move(n: nat, t: nat)

  ghost predicate IsRun(s: State, moves: seq<Move>, s': State)
    decreases |moves|
  {
    if moves == [] then s' == s
    else Enabled(s, moves[0].n, moves[0].t) && IsRun(Step(s, moves[0].n, moves[0].t), moves[1..], s')
  }

  lemma {:induction false} InvRun(s: State, moves: seq<Move>, s': State)
    requires Inv(s) && IsRun(s, moves, s')
    ensures Inv(s')
    decreases |moves|
  {
    if moves != [] {
      InvStep(s, moves[0].n, moves[0].t);
      InvRun(Step(s, moves[0].n, moves[0].t), moves[1..], s');
    }
  }

  /** `threads[n]` threads on node n, nobody in the lock. */
  function Initial(threads: seq<nat>): (s: State) {
    State(Init, seq(|threads|, n requires 0 <= n < |threads| => InitialNode(threads[n])))
  }

  ghost predicate Reachable(threads: seq<nat>, s: State) {
    exists moves :: IsRun(Initial(threads), moves, s)
  }

  lemma InitialNodeInv(threads: nat)
    ensures NodeInv(InitialNode(threads)) && !Holds(InitialNode(threads))
  {
    assert Mcs.Inv(InitialNode(threads).mcs);
  }

  lemma ReachableInv(threads: seq<nat>, s: State)
    requires Reachable(threads, s)
    ensures Inv(s)
  {
    var moves :| IsRun(Initial(threads), moves, s);
    forall n | 0 <= n < |threads|
      ensures NodeInv(Initial(threads).nodes[n]) && !Holds(Initial(threads).nodes[n])
    {
      InitialNodeInv(threads[n]);
    }
    InvRun(Initial(threads), moves, s);
  }

  predicate InCritical(s: State, n: nat, t: nat) {
    n < |s.nodes| && t < |s.nodes[n].pc| && s.nodes[n].pc[t] == Critical
  }

  lemma CriticalIsActive(s: NodeState, t: nat)
    requires NodeOk(s) && t < |s.pc| && s.pc[t] == Critical
    ensures s.active == Mcs.Node(t) && Holds(s) && s.hasGlobal && 1 <= s.served <= MaxHandover + 1
  {
    assert Coupled(s.pc[t], s.mcs.pc[t], s.active == Mcs.Node(t));
  }

  /** Over all nodes, at most one thread is in the critical section. */
  lemma MutualExclusion(threads: seq<nat>, s: State, n: nat, t: nat, m: nat, u: nat)
    requires Reachable(threads, s) && InCritical(s, n, t) && InCritical(s, m, u)
    ensures n == m && t == u
  {
    ReachableInv(threads, s);
    CriticalIsActive(s.nodes[n], t);
    CriticalIsActive(s.nodes[m], u);
  }

  /** One tenure of the global lock serves at most MAX_HANDOVER + 1 critical sections. */
  lemma TenureBounded(threads: seq<nat>, s: State, n: nat, t: nat)
    requires Reachable(threads, s) && InCritical(s, n, t)
    ensures s.word == Locked && s.nodes[n].hasGlobal && 1 <= s.nodes[n].served <= MaxHandover + 1
  {
    ReachableInv(threads, s);
    CriticalIsActive(s.nodes[n], t);
  }

  lemma HeirWaits(s: NodeState) returns (t: nat)
    requires NodeInv(s) && s.hasGlobal && s.active == Mcs.Null
    ensures t in s.mcs.queue && t < |s.pc| && s.pc[t] == WaitLocal
  {
    t := Mcs.Heir(s.mcs);
    assert Coupled(s.pc[t], s.mcs.pc[t], false);
  }

  /** A global lock that is kept has someone to use it: a queued thread of the node that is inside lock(). */
  lemma NeverOrphaned(threads: seq<nat>, s: State, n: nat)
    requires Reachable(threads, s) && n < |s.nodes| && s.nodes[n].hasGlobal && s.nodes[n].active == Mcs.Null
    ensures exists t :: t in s.nodes[n].mcs.queue && t < |s.nodes[n].pc| && s.nodes[n].pc[t] == WaitLocal
  {
    ReachableInv(threads, s);
    var t := HeirWaits(s.nodes[n]);
  }

  lemma TicketOk(s: NodeState, t: nat)
    requires NodeOk(s) && t < |s.pc|
    ensures s.serving <= s.ticketsOut <= s.serving + 1
    ensures s.pc[t] != CountNuma && (s.pc[t].WaitTicket? ==> s.pc[t].ticket == s.serving)
  {
    assert Coupled(s.pc[t], s.mcs.pc[t], s.active == Mcs.Node(t));
  }

  /** With one NUMA node the ticket lock is never contended: nobody waits in it, and it is never handed over. */
  lemma TicketUncontended(threads: seq<nat>, s: State, n: nat, t: nat)
    requires Reachable(threads, s) && n < |s.nodes| && t < |s.nodes[n].pc|
    ensures s.nodes[n].serving <= s.nodes[n].ticketsOut <= s.nodes[n].serving + 1
    ensures s.nodes[n].pc[t] != CountNuma
    ensures s.nodes[n].pc[t].WaitTicket? ==> s.nodes[n].pc[t].ticket == s.nodes[n].serving
  {
    ReachableInv(threads, s);
    TicketOk(s.nodes[n], t);
  }

  lemma HolderCanStep(s: NodeState) returns (t: nat)
    requires NodeInv(s) && Holds(s)
    ensures t < |s.pc| && CanStep(s, t) && s.pc[t] != TryGlobal && s.pc[t] != Idle
  {
    if s.active != Mcs.Null {
      t := s.active.t;
    } else {
      var u := Mcs.Heir(s.mcs);
      t := s.mcs.queue[0];
    }
    assert Coupled(s.pc[t], s.mcs.pc[t], s.active == Mcs.Node(t));
  }

  /** While the global lock is taken, some thread of its node can step without waiting for it. */
  lemma LockedMakesProgress(threads: seq<nat>, s: State) returns (n: nat, t: nat)
    requires Reachable(threads, s) && s.word == Locked
    ensures Enabled(s, n, t) && Holds(s.nodes[n]) && s.nodes[n].pc[t] != TryGlobal && s.nodes[n].pc[t] != Idle
  {
    ReachableInv(threads, s);
    n :| 0 <= n < |s.nodes| && Holds(s.nodes[n]);
    t := HolderCanStep(s.nodes[n]);
  }
}
