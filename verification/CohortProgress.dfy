/** Progress of the cohort lock: from every reachable state every thread of every node can enter. */
module CohortProgress {
  import opened LockWord
  import opened CohortLock
  import opened Sequences
  import McsProgress

  /** The steps a thread that has come out of the MCS lock has before it calls its unlock(). */
  function ActiveRank(pc: Pc): (r: nat) {
    match pc
    case WaitLocal => 16
    case FetchTicket => 15
    case WaitTicket(_) => 14
    case SetOwner => 13
    case CheckGlobal => 12
    case TryGlobal => 11
    case SetGlobal => 10
    case Critical => 9
    case CheckContended => 8
    case CountHandover => 7
    case ResetOwner => 7
    case CheckNode => 6
    case CountNuma => 5
    case ClearGlobal => 5
    case StoreGlobal => 4
    case UnlockTicket => 3
    case UnlockLocal => 2
    case Leaving => 0
    case Idle => 0
  }

  ghost function McsRank(s: NodeState): (r: nat)
    requires NodeInv(s)
  {
    McsProgress.Rank(s.mcs.queue, s.mcs.pc)
  }

  ghost function HeadRank(s: NodeState): (r: nat)
    requires NodeInv(s)
  {
    if s.mcs.queue == [] then 0 else ActiveRank(s.pc[s.mcs.queue[0]])
  }

  /** How far a thread is from its critical section, before the queue matters. */
  function Stage(pc: Pc, mcs: Mcs.Pc): (n: nat) {
    match pc
    case Critical => 0
    case FetchTicket | WaitTicket(_) | SetOwner | CheckGlobal | TryGlobal | SetGlobal => 1
    case WaitLocal => if mcs == Mcs.ClearNext then 3 else if mcs == Mcs.Exchange then 2 else 1
    case Idle => 4
    case _ => 5
  }

  ghost function StageOf(s: NodeState, t: nat): (r: nat)
    requires WellSized(s) && t < |s.pc|
  {
    Stage(s.pc[t], s.mcs.pc[t])
  }

  /** The first thread of the queue leaves it, or the first two come closer to that. */
  ghost predicate Lower(s: NodeState, s': NodeState)
    requires NodeInv(s) && NodeInv(s') && s.mcs.queue != [] && |s'.pc| == |s.pc|
  {
    || (s'.mcs.queue == s.mcs.queue[1..] && StageOf(s', s.mcs.queue[0]) < StageOf(s, s.mcs.queue[0]))
    || (s'.mcs.queue == s.mcs.queue && McsRank(s') < McsRank(s))
    || (s'.mcs == s.mcs && HeadRank(s') < HeadRank(s))
  }

  /** No thread that has not entered comes to be further from its critical section. */
  predicate NoFurther(s: NodeState, s': NodeState)
    requires WellSized(s) && WellSized(s')
  {
    && |s'.pc| == |s.pc|
    && forall t :: 0 <= t < |s.pc| && s.pc[t] != Critical ==>
         Stage(s'.pc[t], s'.mcs.pc[t]) <= Stage(s.pc[t], s.mcs.pc[t])
  }

  /** The word is free, or it is this node that holds it. */
  predicate Available(s: NodeState, word: Word) {
    Holds(s) <==> word == Locked
  }

  lemma StaysAvailable(n: nat, s: NodeState, t: nat, word: Word)
    requires NodeInv(s) && t < |s.pc| && CanStep(s, t) && Available(s, word)
    ensures var r := NodeStep(n, s, t, word); NodeInv(r.0) && Available(r.0, r.1)
  {
    NodeKeeps(n, s, t, word);
  }

  /** Thread t, out of the MCS lock, has come closer to its end. */
  predicate OneOn(s: NodeState, s': NodeState, t: nat)
    requires t < |s.pc|
  {
    && s'.mcs == s.mcs && |s'.pc| == |s.pc| && s'.pc == s.pc[t := s'.pc[t]]
    && ActiveRank(s'.pc[t]) < ActiveRank(s.pc[t])
    && (s.pc[t] != Critical ==> Stage(s'.pc[t], Mcs.Critical) <= Stage(s.pc[t], Mcs.Critical))
  }

  lemma LockOneOn(s: NodeState, t: nat)
    requires NodeOk(s) && t < |s.pc| && s.mcs.pc[t] == Mcs.Critical && InLock(s.pc[t])
    ensures CanStep(s, t) && OneOn(s, LockStep(s, t), t)
  {
    assert Coupled(s.pc[t], s.mcs.pc[t], s.active == Mcs.Node(t));
  }

  lemma UnlockOneOn(s: NodeState, t: nat)
    requires NodeOk(s) && t < |s.pc| && s.mcs.pc[t] == Mcs.Critical && s.pc[t] != UnlockLocal
    requires !InLock(s.pc[t]) && s.pc[t] != TryGlobal && s.pc[t] != StoreGlobal
    ensures CanStep(s, t) && !IsLocal(s, t) && OneOn(s, UnlockStep(s, t), t)
  {
    assert Coupled(s.pc[t], s.mcs.pc[t], s.active == Mcs.Node(t));
  }

  lemma WordOneOn(n: nat, s: NodeState, t: nat, word: Word)
    requires NodeOk(s) && t < |s.pc| && (s.pc[t] == TryGlobal || s.pc[t] == StoreGlobal) && Available(s, word)
    ensures CanStep(s, t) && OneOn(s, NodeStep(n, s, t, word).0, t)
  {
    assert Coupled(s.pc[t], s.mcs.pc[t], s.active == Mcs.Node(t));
  }

  /** A thread that has come out of the MCS lock takes a step. */
  lemma ActiveStep(n: nat, s: NodeState, t: nat, word: Word)
    requires NodeOk(s) && t < |s.pc| && s.mcs.pc[t] == Mcs.Critical && Available(s, word) && s.pc[t] != UnlockLocal
    ensures CanStep(s, t) && OneOn(s, NodeStep(n, s, t, word).0, t)
  {
    if s.pc[t] == TryGlobal || s.pc[t] == StoreGlobal {
      WordOneOn(n, s, t, word);
    } else if InLock(s.pc[t]) {
      LockOneOn(s, t);
    } else {
      UnlockOneOn(s, t);
    }
  }

  /** A thread of the node takes a step of the MCS lock. */
  lemma LocalStep(n: nat, s: NodeState, u: nat, word: Word)
    requires NodeInv(s) && u < |s.pc| && Mcs.CanStep(s.mcs, u) && IsLocal(s, u)
    ensures CanStep(s, u)
    ensures var s' := NodeStep(n, s, u, word).0;
      && s'.mcs == Mcs.Step(s.mcs, u) && |s'.pc| == |s.pc| && |s'.mcs.pc| == |s.mcs.pc|
      && (forall t :: 0 <= t < |s.pc| && t != u ==> s'.pc[t] == s.pc[t] && s'.mcs.pc[t] == s.mcs.pc[t])
      && Stage(s'.pc[u], s'.mcs.pc[u]) <= Stage(s.pc[u], s.mcs.pc[u])
      && (Mcs.Unqueued(s.mcs.pc[u]) || s'.mcs.pc[u] == Mcs.Out ==>
            Stage(s'.pc[u], s'.mcs.pc[u]) < Stage(s.pc[u], s.mcs.pc[u]))
  {
    assert Coupled(s.pc[u], s.mcs.pc[u], s.active == Mcs.Node(u));
    Mcs.StepMovesPc(s.mcs, u);
  }

  /** All this is true of the node and the word after a step. */
  ghost predicate Forward(s: NodeState, r: (NodeState, Word))
    requires NodeInv(s) && s.mcs.queue != []
  {
    NodeInv(r.0) && Available(r.0, r.1) && NoFurther(s, r.0) && Lower(s, r.0)
  }

  lemma ActiveMove(n: nat, s: NodeState, word: Word)
    requires NodeInv(s) && s.mcs.queue != [] && Available(s, word)
    requires s.mcs.pc[s.mcs.queue[0]] == Mcs.Critical && s.pc[s.mcs.queue[0]] != UnlockLocal
    ensures CanStep(s, s.mcs.queue[0]) && Forward(s, NodeStep(n, s, s.mcs.queue[0], word))
  {
    ActiveStep(n, s, s.mcs.queue[0], word);
    StaysAvailable(n, s, s.mcs.queue[0], word);
  }

  lemma LocalMove(n: nat, s: NodeState, u: nat, word: Word)
    requires NodeInv(s) && s.mcs.queue != [] && Available(s, word)
    requires u < |s.pc| && Mcs.CanStep(s.mcs, u) && McsProgress.Front(s.mcs.queue, u) && IsLocal(s, u)
    ensures CanStep(s, u) && Forward(s, NodeStep(n, s, u, word))
  {
    LocalStep(n, s, u, word);
    StaysAvailable(n, s, u, word);
    LocalLower(s, NodeStep(n, s, u, word).0, u);
  }

  lemma LocalLower(s: NodeState, s': NodeState, u: nat)
    requires NodeInv(s) && NodeInv(s') && |s'.pc| == |s.pc|
    requires u < |s.pc| && Mcs.CanStep(s.mcs, u) && McsProgress.Front(s.mcs.queue, u)
    requires s'.mcs == Mcs.Step(s.mcs, u) && (s'.mcs.pc[u] == Mcs.Out ==> StageOf(s', u) < StageOf(s, u))
    ensures s.mcs.queue != [] && Lower(s, s')
  {
    if McsProgress.Leaves(s.mcs, u) {
      McsProgress.LeavesFirst(s.mcs, u);
    } else {
      McsProgress.FrontStep(s.mcs, u);
    }
  }

  lemma LocalFront(s: NodeState) returns (u: nat)
    requires NodeInv(s) && s.mcs.queue != []
    requires s.mcs.pc[s.mcs.queue[0]] == Mcs.Critical ==> s.pc[s.mcs.queue[0]] == UnlockLocal
    ensures u < |s.pc| && Mcs.CanStep(s.mcs, u) && McsProgress.Front(s.mcs.queue, u) && IsLocal(s, u)
  {
    assert Mcs.PlaceOk(s.mcs, 0);
    u := s.mcs.queue[0];
    if !Mcs.CanStep(s.mcs, u) {
      u := McsProgress.FrontCanStep(s.mcs);
      assert Mcs.PlaceOk(s.mcs, 1);
    }
    assert Coupled(s.pc[u], s.mcs.pc[u], s.active == Mcs.Node(u));
  }

  /** The first or the second thread of the queue can step, and that brings the first closer to its end. */
  lemma FrontMove(n: nat, s: NodeState, word: Word) returns (u: nat)
    requires NodeInv(s) && s.mcs.queue != [] && Available(s, word)
    ensures u < |s.pc| && CanStep(s, u) && Forward(s, NodeStep(n, s, u, word))
  {
    var h := s.mcs.queue[0];
    if s.mcs.pc[h] == Mcs.Critical && s.pc[h] != UnlockLocal {
      u := h;
      ActiveMove(n, s, word);
    } else {
      u := LocalFront(s);
      LocalMove(n, s, u, word);
    }
  }

  // ----- one node alone -----

  /** Nobody but node n holds the word. */
  ghost predicate Only(s: State, n: nat) {
    Inv(s) && n < |s.nodes| && forall m :: 0 <= m < |s.nodes| && m != n ==> !Holds(s.nodes[m])
  }

  lemma OnlyAvailable(s: State, n: nat)
    requires Only(s, n)
    ensures Available(s.nodes[n], s.word)
  {
  }

  /** A step of node n, with which others have nothing to do. */
  lemma OnlyStep(s: State, n: nat, t: nat)
    requires Only(s, n) && t < |s.nodes[n].pc| && CanStep(s.nodes[n], t)
    ensures Enabled(s, n, t) && Only(Step(s, n, t), n)
    ensures Step(s, n, t).nodes == s.nodes[n := NodeStep(n, s.nodes[n], t, s.word).0]
  {
    InvStep(s, n, t);
  }

  lemma RunCons(s: State, move: Move, rest: seq<Move>, s': State)
    requires Enabled(s, move.n, move.t) && IsRun(Step(s, move.n, move.t), rest, s')
    ensures IsRun(s, [move] + rest, s')
  {
    AppendTail([move], rest);
  }

  lemma {:induction false} RunsJoin(s: State, a: seq<Move>, t: State, b: seq<Move>, u: State)
    requires IsRun(s, a, t) && IsRun(t, b, u)
    ensures IsRun(s, a + b, u)
    decreases |a|
  {
    if a == [] {
      assert a + b == b;
    } else {
      RunsJoin(Step(s, a[0].n, a[0].t), a[1..], t, b, u);
      AppendTail(a, b);
    }
  }

  lemma EmptyQueue(s: NodeState)
    requires NodeInv(s) && s.mcs.queue == []
    ensures !Holds(s)
  {
    if s.active != Mcs.Null {
      assert Coupled(s.pc[s.active.t], s.mcs.pc[s.active.t], true);
      var i := Mcs.NotHead(s.mcs, s.active.t);
    }
  }

  /** All threads in the queue of a node go through it, and the node gives the global lock back. */
  lemma {:induction false} Drain(s: State, n: nat) returns (moves: seq<Move>, s': State)
    requires Only(s, n)
    ensures IsRun(s, moves, s') && Inv(s') && s'.word != Locked
    ensures |s'.nodes| == |s.nodes| && forall m :: 0 <= m < |s.nodes| && m != n ==> s'.nodes[m] == s.nodes[m]
    ensures |s'.nodes[n].pc| == |s.nodes[n].pc|
    decreases |s.nodes[n].mcs.queue|, McsRank(s.nodes[n]), HeadRank(s.nodes[n])
  {
    OnlyAvailable(s, n);
    if s.nodes[n].mcs.queue == [] {
      EmptyQueue(s.nodes[n]);
      moves, s' := [], s;
    } else {
      var u := FrontMove(n, s.nodes[n], s.word);
      OnlyStep(s, n, u);
      var rest;
      rest, s' := Drain(Step(s, n, u), n);
      RunCons(s, Move(n, u), rest, s');
      moves := [Move(n, u)] + rest;
    }
  }

  /** A step after which thread t is closer to its critical section. */
  lemma CloserStep(n: nat, s: NodeState, t: nat, word: Word) returns (u: nat)
    requires NodeInv(s) && t < |s.pc| && s.pc[t] != Critical && Available(s, word)
    ensures u < |s.pc| && CanStep(s, u)
    ensures var s' := NodeStep(n, s, u, word).0;
      && NodeInv(s') && |s'.pc| == |s.pc|
      && (|| StageOf(s', t) < StageOf(s, t)
          || (StageOf(s', t) == StageOf(s, t) && CloserInQueue(s, s', t)))
  {
    assert Coupled(s.pc[t], s.mcs.pc[t], s.active == Mcs.Node(t));
    if Mcs.Unqueued(s.mcs.pc[t]) {
      u := t;
      LocalStep(n, s, u, word);
      StaysAvailable(n, s, u, word);
    } else {
      var i := Mcs.NotHead(s.mcs, t);
      u := FrontMove(n, s, word);
      InQueueCloser(s, NodeStep(n, s, u, word).0, t);
    }
  }

  ghost predicate CloserInQueue(s: NodeState, s': NodeState, t: nat)
    requires NodeInv(s) && NodeInv(s')
  {
    var p, p' := McsProgress.Place(s.mcs.queue, t), McsProgress.Place(s'.mcs.queue, t);
    || p' < p
    || (p' == p && McsRank(s') < McsRank(s))
    || (p' == p && McsRank(s') == McsRank(s) && HeadRank(s') < HeadRank(s))
  }

  lemma InQueueCloser(s: NodeState, s': NodeState, t: nat)
    requires NodeInv(s) && NodeInv(s') && t in s.mcs.queue && NoFurther(s, s') && Lower(s, s') && t < |s.pc|
    requires s.pc[t] != Critical
    ensures StageOf(s', t) < StageOf(s, t) || (StageOf(s', t) == StageOf(s, t) && CloserInQueue(s, s', t))
  {
  }

  /** Node n alone: thread t comes to its critical section. */
  lemma {:induction false} Enters(s: State, n: nat, t: nat) returns (moves: seq<Move>, s': State)
    requires Only(s, n) && t < |s.nodes[n].pc|
    ensures IsRun(s, moves, s') && InCritical(s', n, t)
    decreases StageOf(s.nodes[n], t), McsProgress.Place(s.nodes[n].mcs.queue, t),
      McsRank(s.nodes[n]), HeadRank(s.nodes[n])
  {
    if s.nodes[n].pc[t] == Critical {
      moves, s' := [], s;
    } else {
      OnlyAvailable(s, n);
      var u := CloserStep(n, s.nodes[n], t, s.word);
      OnlyStep(s, n, u);
      var rest;
      rest, s' := Enters(Step(s, n, u), n, t);
      RunCons(s, Move(n, u), rest, s');
      moves := [Move(n, u)] + rest;
    }
  }

  /** From every reachable state every thread of every node can come to its critical section. */
  lemma EveryThreadEnters(threads: seq<nat>, s: State, n: nat, t: nat) returns (moves: seq<Move>, s': State)
    requires Reachable(threads, s) && n < |s.nodes| && t < |s.nodes[n].pc|
    ensures IsRun(s, moves, s') && InCritical(s', n, t)
  {
    ReachableInv(threads, s);
    if s.word != Locked || Holds(s.nodes[n]) {
      moves, s' := Enters(s, n, t);
    } else {
      var m :| 0 <= m < |s.nodes| && Holds(s.nodes[m]);
      var drain, u := Drain(s, m);
      var enter;
      enter, s' := Enters(u, n, t);
      RunsJoin(s, drain, u, enter, s');
      moves := drain + enter;
    }
  }
}
