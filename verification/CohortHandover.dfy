/** When unlock() of the cohort lock keeps the global lock for a thread of its own node. */
module CohortHandover {
  import opened LockWord
  import opened CohortLock

  /** The lock will stay with the node: a thread is linked behind the holder, and the tenure is not used up. */
  predicate Hands(s: NodeState, t: nat)
    requires WellSized(s) && t < |s.pc|
  {
    Mcs.IsContended(s.mcs, t) && s.served <= MaxHandover
  }

  /** What thread t of a node, having made the test, does about it. */
  predicate Decided(s: NodeState, t: nat, keep: bool)
    requires t < |s.pc|
  {
    match s.pc[t]
    case CountHandover => keep
    case ResetOwner | CheckNode | ClearGlobal | StoreGlobal | UnlockTicket => !keep
    case UnlockLocal => s.hasGlobal == keep
    case _ => false
  }

  /** The test. */
  lemma TestDecides(n: nat, s: NodeState, t: nat, word: Word)
    requires NodeOk(s) && t < |s.pc| && s.pc[t] == CheckContended
    ensures Decided(NodeStep(n, s, t, word).0, t, Hands(s, t))
  {
    assert Coupled(s.pc[t], s.mcs.pc[t], s.active == Mcs.Node(t));
  }

  lemma OwnStepDecided(n: nat, s: NodeState, t: nat, word: Word, keep: bool)
    requires NodeOk(s) && t < |s.pc| && CanStep(s, t) && Decided(s, t, keep) && s.pc[t] != UnlockLocal
    ensures var s' := NodeStep(n, s, t, word).0; |s'.pc| == |s.pc| && Decided(s', t, keep)
  {
    assert Coupled(s.pc[t], s.mcs.pc[t], s.active == Mcs.Node(t));
  }

  /** Other threads of the node only use the MCS lock meanwhile. */
  lemma OthersAreLocal(s: NodeState, t: nat, u: nat, keep: bool)
    requires NodeInv(s) && t < |s.pc| && u < |s.pc| && u != t && Decided(s, t, keep)
    ensures IsLocal(s, u) && s.pc[u] != UnlockLocal
  {
    assert Coupled(s.pc[t], s.mcs.pc[t], s.active == Mcs.Node(t));
    assert Coupled(s.pc[u], s.mcs.pc[u], s.active == Mcs.Node(u));
    if s.pc[u] == WaitLocal && s.mcs.pc[u] == Mcs.Critical {
      TakesOver(s, u);
    }
  }

  lemma OtherStepDecided(n: nat, s: NodeState, t: nat, u: nat, word: Word, keep: bool)
    requires NodeInv(s) && t < |s.pc| && u < |s.pc| && u != t && CanStep(s, u) && Decided(s, t, keep)
    ensures var s' := NodeStep(n, s, u, word).0; |s'.pc| == |s.pc| && Decided(s', t, keep)
  {
    OthersAreLocal(s, t, u, keep);
  }

  /** A run up to the step by which thread t of node n unlocks the MCS lock. */
  ghost predicate UnlockRun(s: State, moves: seq<Move>, s': State, n: nat, t: nat)
    decreases |moves|
  {
    if moves == [] then s' == s
    else
      && Enabled(s, moves[0].n, moves[0].t)
      && n < |s.nodes| && t < |s.nodes[n].pc|
      && (moves[0] == Move(n, t) ==> s.nodes[n].pc[t] != UnlockLocal)
      && UnlockRun(Step(s, moves[0].n, moves[0].t), moves[1..], s', n, t)
  }

  lemma StepDecided(s: State, move: Move, n: nat, t: nat, keep: bool)
    requires Inv(s) && Enabled(s, move.n, move.t) && n < |s.nodes| && t < |s.nodes[n].pc|
    requires Decided(s.nodes[n], t, keep) && (move == Move(n, t) ==> s.nodes[n].pc[t] != UnlockLocal)
    ensures var s' := Step(s, move.n, move.t);
      |s'.nodes| == |s.nodes| && |s'.nodes[n].pc| == |s.nodes[n].pc| && Decided(s'.nodes[n], t, keep)
  {
    if move == Move(n, t) {
      OwnStepDecided(n, s.nodes[n], t, s.word, keep);
    } else if move.n == n {
      OtherStepDecided(n, s.nodes[n], t, move.t, s.word, keep);
    }
  }

  lemma {:induction false} RunDecided(s: State, moves: seq<Move>, s': State, n: nat, t: nat, keep: bool)
    requires Inv(s) && UnlockRun(s, moves, s', n, t) && n < |s.nodes| && t < |s.nodes[n].pc|
    requires Decided(s.nodes[n], t, keep)
    ensures Inv(s') && n < |s'.nodes| && t < |s'.nodes[n].pc| && Decided(s'.nodes[n], t, keep)
    decreases |moves|
  {
    if moves != [] {
      InvStep(s, moves[0].n, moves[0].t);
      StepDecided(s, moves[0], n, t, keep);
      RunDecided(Step(s, moves[0].n, moves[0].t), moves[1..], s', n, t, keep);
    }
  }

  lemma DecidedOutcome(s: NodeState, t: nat, keep: bool)
    requires NodeOk(s) && t < |s.pc| && Decided(s, t, keep) && s.pc[t] == UnlockLocal
    ensures if keep then Kept(s) && Holds(s) else Free(s) && !Holds(s)
  {
    assert Coupled(s.pc[t], s.mcs.pc[t], s.active == Mcs.Node(t));
  }

  /**
   unlock() keeps the global lock for the next thread of its node if and only if, when it asks, a thread
   is linked behind the holder and fewer than MAX_HANDOVER sections have been handed over; otherwise the
   node has nothing left when the MCS lock is unlocked. This is so whatever all threads do meanwhile.
   */
  lemma KeptExactly(threads: seq<nat>, s: State, moves: seq<Move>, s': State, n: nat, t: nat)
    requires Reachable(threads, s) && n < |s.nodes| && t < |s.nodes[n].pc| && s.nodes[n].pc[t] == CheckContended
    requires moves != [] && moves[0] == Move(n, t) && UnlockRun(s, moves, s', n, t)
    requires n < |s'.nodes| && t < |s'.nodes[n].pc| && s'.nodes[n].pc[t] == UnlockLocal
    ensures WellSized(s.nodes[n])
    ensures Hands(s.nodes[n], t) ==> Kept(s'.nodes[n]) && s'.word == Locked
    ensures !Hands(s.nodes[n], t) ==> Free(s'.nodes[n]) && !Holds(s'.nodes[n])
  {
    ReachableInv(threads, s);
    TestDecides(n, s.nodes[n], t, s.word);
    InvStep(s, n, t);
    RunDecided(Step(s, n, t), moves[1..], s', n, t, Hands(s.nodes[n], t));
    DecidedOutcome(s'.nodes[n], t, Hands(s.nodes[n], t));
  }

  /** A lock that is kept is used at once: the next thread out of the MCS lock enters, and the word is not touched. */
  lemma KeptIsUsed(threads: seq<nat>, s: State, n: nat, t: nat)
    requires Reachable(threads, s) && Enabled(s, n, t) && s.nodes[n].pc[t] == WaitLocal
    requires s.nodes[n].mcs.pc[t] == Mcs.Critical && s.nodes[n].hasGlobal
    ensures var s' := Step(s, n, t);
      InCritical(s', n, t) && s'.word == s.word == Locked && s'.nodes[n].served == s.nodes[n].served + 1
  {
    ReachableInv(threads, s);
    TakesOver(s.nodes[n], t);
  }
}
