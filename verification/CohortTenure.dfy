/**
 Two threads of one node that keep asking for the lock pass it to each other until the tenure is used
 up: the bound of `CohortLock.TenureBounded` is attained, and every number of sections below it.
 */
module CohortTenure {
  import opened LockWord
  import opened CohortLock
  import opened CohortProgress

  /** One node with the threads a and b. */
  ghost predicate Pair(s: State, a: nat, b: nat) {
    Inv(s) && |s.nodes| == 1 && |s.nodes[0].pc| == 2 && a < 2 && b < 2 && a != b
  }

  lemma SameSize(n: nat, s: NodeState, t: nat, word: Word)
    requires NodeOk(s) && t < |s.pc| && CanStep(s, t)
    ensures |NodeStep(n, s, t, word).0.pc| == |s.pc|
  {
  }

  lemma PairStep(s: State, a: nat, b: nat, t: nat)
    requires Pair(s, a, b) && t < 2 && CanStep(s.nodes[0], t)
    ensures Enabled(s, 0, t) && Pair(Step(s, 0, t), a, b)
    ensures Step(s, 0, t).nodes[0] == NodeStep(0, s.nodes[0], t, s.word).0
  {
    InvStep(s, 0, t);
    SameSize(0, s.nodes[0], t, s.word);
  }

  /** Thread a passes the lock on to thread b, which is linked behind it. */
  ghost predicate Passing(n: NodeState, a: nat, b: nat)
    requires NodeInv(n) && a < |n.pc| && b < |n.pc|
  {
    && n.mcs.queue == [a, b] && n.mcs.pc[b] == Mcs.Spin && n.hasGlobal
    && n.pc[a] in {Critical, CheckContended, CountHandover, UnlockLocal, Leaving}
  }

  /** It has. */
  ghost predicate Passed(n: NodeState, a: nat, b: nat)
    requires NodeInv(n) && a < |n.pc| && b < |n.pc|
  {
    n.mcs.queue == [b] && n.mcs.pc[b] == Mcs.Spin && n.hasGlobal && n.mcs.pc[a] == Mcs.Out
  }

  /** Up to the unlock of the MCS lock. */
  lemma KeepingStep(n: NodeState, a: nat, b: nat, word: Word)
    requires NodeInv(n) && a < |n.pc| && b < |n.pc| && a != b && Passing(n, a, b) && n.served <= MaxHandover
    requires n.pc[a] != UnlockLocal && n.pc[a] != Leaving
    ensures CanStep(n, a) && var n' := NodeStep(0, n, a, word).0;
      n'.mcs == n.mcs && n'.hasGlobal && n'.served == n.served && |n'.pc| == |n.pc| &&
      n'.pc[a] in {CheckContended, CountHandover, UnlockLocal} && ActiveRank(n'.pc[a]) < ActiveRank(n.pc[a])
  {
    assert Coupled(n.pc[a], n.mcs.pc[a], n.active == Mcs.Node(a));
    assert Mcs.PlaceOk(n.mcs, 1);
  }

  /** In it. */
  lemma LettingGoStep(n: NodeState, a: nat, b: nat, word: Word)
    requires NodeInv(n) && a < |n.pc| && b < |n.pc| && a != b && Passing(n, a, b)
    requires n.pc[a] == UnlockLocal || n.pc[a] == Leaving
    ensures CanStep(n, a) && var n' := NodeStep(0, n, a, word).0;
      n'.hasGlobal && n'.served == n.served && |n'.pc| == |n.pc| && |n'.mcs.pc| == |n.mcs.pc| &&
      n'.mcs.pc[b] == Mcs.Spin &&
      if n'.mcs.pc[a] == Mcs.Out then n'.mcs.queue == [b]
      else n'.pc[a] == Leaving && n'.mcs.queue == [a, b] &&
           McsProgress.HeadRank(n'.mcs.pc[a]) < McsProgress.HeadRank(n.mcs.pc[a])
  {
    assert Coupled(n.pc[a], n.mcs.pc[a], n.active == Mcs.Node(a));
    assert Mcs.PlaceOk(n.mcs, 1);
    if n.mcs.pc[a].Notify? {
      McsProgress.Notifies(n.mcs, a);
      McsProgress.LeavesFirst(n.mcs, a);
    } else {
      McsProgress.StillLinked(n.mcs, a);
      McsProgress.FrontStep(n.mcs, a);
    }
  }

  lemma {:induction false} Passes(s: State, a: nat, b: nat) returns (moves: seq<Move>, s': State)
    requires Pair(s, a, b) && Passing(s.nodes[0], a, b) && s.nodes[0].served <= MaxHandover
    ensures IsRun(s, moves, s') && Pair(s', a, b) && Passed(s'.nodes[0], a, b)
    ensures s'.nodes[0].served == s.nodes[0].served
    decreases ActiveRank(s.nodes[0].pc[a]), McsProgress.HeadRank(s.nodes[0].mcs.pc[a])
  {
    var n := s.nodes[0];
    if n.pc[a] == UnlockLocal || n.pc[a] == Leaving {
      LettingGoStep(n, a, b, s.word);
    } else {
      KeepingStep(n, a, b, s.word);
    }
    PairStep(s, a, b, a);
    var u := Step(s, 0, a);
    var rest;
    if u.nodes[0].mcs.pc[a] == Mcs.Out {
      rest, s' := [], u;
    } else {
      rest, s' := Passes(u, a, b);
    }
    RunCons(s, Move(0, a), rest, s');
    moves := [Move(0, a)] + rest;
  }

  /** Thread b takes the lock that has been passed to it. */
  lemma Takes(s: State, a: nat, b: nat) returns (moves: seq<Move>, s': State)
    requires Pair(s, a, b) && Passed(s.nodes[0], a, b)
    ensures IsRun(s, moves, s') && Pair(s', a, b) && Queueing(s'.nodes[0], b, a)
    ensures s'.nodes[0].served == s.nodes[0].served + 1
  {
    PassedEnters(s.nodes[0], a, b, s.word);
    PairStep(s, a, b, b);
    var u := Step(s, 0, b);
    EnteredTakes(u.nodes[0], a, b, u.word);
    PairStep(u, a, b, b);
    s' := Step(u, 0, b);
    assert IsRun(s', [], s');
    RunCons(u, Move(0, b), [], s');
    RunCons(s, Move(0, b), [Move(0, b)] + [], s');
    moves := [Move(0, b)] + ([Move(0, b)] + []);
  }

  lemma PassedEnters(n: NodeState, a: nat, b: nat, word: Word)
    requires NodeInv(n) && a < |n.pc| && b < |n.pc| && a != b && Passed(n, a, b)
    ensures CanStep(n, b) && var n' := NodeStep(0, n, b, word).0;
      |n'.mcs.pc| == |n.mcs.pc| && n'.mcs.pc[b] == Mcs.Critical && n'.mcs.pc[a] == Mcs.Out && n'.mcs.queue == [b] &&
      n'.pc == n.pc && n.pc[b] == WaitLocal && n'.hasGlobal && n'.served == n.served
  {
    assert Coupled(n.pc[b], n.mcs.pc[b], n.active == Mcs.Node(b));
    assert Mcs.PlaceOk(n.mcs, 0);
  }

  lemma EnteredTakes(n: NodeState, a: nat, b: nat, word: Word)
    requires NodeInv(n) && a < |n.pc| && b < |n.pc|
    requires n.pc[b] == WaitLocal && n.mcs.pc[b] == Mcs.Critical && n.hasGlobal
    ensures CanStep(n, b) && var n' := NodeStep(0, n, b, word).0;
      n'.mcs == n.mcs && n'.pc == n.pc[b := Critical] && n'.hasGlobal && n'.served == n.served + 1
  {
    TakesOver(n, b);
  }

  /** Thread a is in its critical section, and thread b is on its way into the queue behind it. */
  ghost predicate Queueing(n: NodeState, a: nat, b: nat)
    requires NodeInv(n) && a < |n.pc| && b < |n.pc|
  {
    && n.pc[a] == Critical && n.hasGlobal
    && if Mcs.Unqueued(n.mcs.pc[b]) then n.mcs.queue == [a] else n.mcs.queue == [a, b]
  }

  function Steps(pc: Mcs.Pc): (r: nat) {
    match pc
    case Out => 5
    case ClearNext => 4
    case Exchange => 3
    case SetLocked(_) => 2
    case Link(_) => 1
    case _ => 0
  }

  lemma QueueingStep(n: NodeState, a: nat, b: nat, word: Word)
    requires NodeInv(n) && a < |n.pc| && b < |n.pc| && a != b && Queueing(n, a, b) && n.mcs.pc[b] != Mcs.Spin
    ensures CanStep(n, b) && IsLocal(n, b) && var n' := NodeStep(0, n, b, word).0;
      n'.pc == n.pc[b := WaitLocal] && n'.hasGlobal && n'.served == n.served && |n'.mcs.pc| == |n.mcs.pc| &&
      Steps(n'.mcs.pc[b]) < Steps(n.mcs.pc[b]) &&
      if Mcs.Unqueued(n'.mcs.pc[b]) then n'.mcs.queue == [a] else n'.mcs.queue == [a, b]
  {
    assert Coupled(n.pc[b], n.mcs.pc[b], n.active == Mcs.Node(b));
    assert Coupled(n.pc[a], n.mcs.pc[a], n.active == Mcs.Node(a));
    if !Mcs.Unqueued(n.mcs.pc[b]) { assert Mcs.PlaceOk(n.mcs, 1); }
  }

  lemma {:induction false} Queues(s: State, a: nat, b: nat) returns (moves: seq<Move>, s': State)
    requires Pair(s, a, b) && Queueing(s.nodes[0], a, b)
    ensures IsRun(s, moves, s') && Pair(s', a, b) && Passing(s'.nodes[0], a, b) && s'.nodes[0].pc[a] == Critical
    ensures s'.nodes[0].served == s.nodes[0].served
    decreases Steps(s.nodes[0].mcs.pc[b])
  {
    if s.nodes[0].mcs.pc[b] == Mcs.Spin {
      moves, s' := [], s;
    } else {
      QueueingStep(s.nodes[0], a, b, s.word);
      PairStep(s, a, b, b);
      var rest;
      rest, s' := Queues(Step(s, 0, b), a, b);
      RunCons(s, Move(0, b), rest, s');
      moves := [Move(0, b)] + rest;
    }
  }

  /** One handover: the threads have changed their roles, and one more section has been served. */
  lemma Handover(s: State, a: nat, b: nat) returns (moves: seq<Move>, s': State)
    requires Pair(s, a, b) && Passing(s.nodes[0], a, b) && s.nodes[0].served <= MaxHandover
    ensures IsRun(s, moves, s') && Pair(s', b, a) && Passing(s'.nodes[0], b, a) && s'.nodes[0].pc[b] == Critical
    ensures s'.nodes[0].served == s.nodes[0].served + 1
  {
    var pass, u := Passes(s, a, b);
    var take, v := Takes(u, a, b);
    var queue;
    queue, s' := Queues(v, b, a);
    RunsJoin(u, take, v, queue, s');
    RunsJoin(s, pass, u, take + queue, s');
    moves := pass + (take + queue);
  }

  /** Thread a is on its way to its first critical section, and thread b has done nothing. */
  ghost predicate Starting(n: NodeState, a: nat, b: nat)
    requires NodeInv(n) && a < |n.pc| && b < |n.pc|
  {
    && n.mcs.pc[b] == Mcs.Out && !n.hasGlobal
    && n.mcs.queue == (if Mcs.Unqueued(n.mcs.pc[a]) then [] else [a])
    && (n.mcs.pc[a] == Mcs.Critical || Mcs.Unqueued(n.mcs.pc[a]))
    && 0 < Stage(n.pc[a], n.mcs.pc[a]) < 5
  }

  lemma ArrivingStep(n: NodeState, a: nat, b: nat, word: Word)
    requires NodeInv(n) && a < |n.pc| && b < |n.pc| && a != b && Starting(n, a, b) && Mcs.Unqueued(n.mcs.pc[a])
    ensures CanStep(n, a) && IsLocal(n, a) && NodeInv(NodeStep(0, n, a, word).0)
    ensures var n' := NodeStep(0, n, a, word).0;
      |n'.pc| == |n.pc| && Starting(n', a, b) && Steps(n'.mcs.pc[a]) < Steps(n.mcs.pc[a])
  {
    assert Coupled(n.pc[a], n.mcs.pc[a], n.active == Mcs.Node(a));
    LocalKeeps(n, a);
  }

  /** Thread a, out of the MCS lock, has come one step closer to its first critical section. */
  predicate Nearer(n: NodeState, n': NodeState, a: nat)
    requires a < |n.pc|
  {
    && n'.mcs == n.mcs && |n'.pc| == |n.pc| && ActiveRank(n'.pc[a]) < ActiveRank(n.pc[a])
    && (if n'.pc[a] == Critical then n'.hasGlobal && n'.served == 1
        else !n'.hasGlobal && 0 < Stage(n'.pc[a], Mcs.Critical) < 5)
  }

  lemma LockingNearer(n: NodeState, a: nat)
    requires NodeOk(n) && a < |n.pc| && n.mcs.pc[a] == Mcs.Critical && InLock(n.pc[a]) && !n.hasGlobal
    requires n.pc[a] == WaitLocal ==> n.active == Mcs.Null
    ensures CanStep(n, a) && Nearer(n, LockStep(n, a), a)
  {
    assert Coupled(n.pc[a], n.mcs.pc[a], n.active == Mcs.Node(a));
  }

  lemma LockingStep(n: NodeState, a: nat, b: nat, word: Word)
    requires NodeInv(n) && a < |n.pc| && b < |n.pc| && a != b && Starting(n, a, b) && n.mcs.pc[a] == Mcs.Critical
    requires Available(n, word)
    ensures CanStep(n, a) && Nearer(n, NodeStep(0, n, a, word).0, a)
  {
    if n.pc[a] == TryGlobal {
      WordOneOn(0, n, a, word);
    } else {
      if n.pc[a] == WaitLocal { TakesOver(n, a); }
      assert Coupled(n.pc[a], n.mcs.pc[a], n.active == Mcs.Node(a));
      LockingNearer(n, a);
    }
  }

  lemma {:induction false} Starts(s: State, a: nat, b: nat) returns (moves: seq<Move>, s': State)
    requires Pair(s, a, b) && Starting(s.nodes[0], a, b)
    ensures IsRun(s, moves, s') && Pair(s', a, b) && Queueing(s'.nodes[0], a, b) && s'.nodes[0].served == 1
    decreases Steps(s.nodes[0].mcs.pc[a]), ActiveRank(s.nodes[0].pc[a])
  {
    var n := s.nodes[0];
    if Mcs.Unqueued(n.mcs.pc[a]) {
      ArrivingStep(n, a, b, s.word);
    } else {
      LockingStep(n, a, b, s.word);
    }
    PairStep(s, a, b, a);
    var u := Step(s, 0, a);
    var rest;
    if u.nodes[0].pc[a] == Critical {
      rest, s' := [], u;
    } else {
      rest, s' := Starts(u, a, b);
    }
    RunCons(s, Move(0, a), rest, s');
    moves := [Move(0, a)] + rest;
  }

  /** k handovers. */
  lemma {:induction false} Climb(k: nat) returns (moves: seq<Move>, s: State, a: nat, b: nat)
    requires k <= MaxHandover
    ensures IsRun(Initial([2]), moves, s) && Pair(s, a, b) && Passing(s.nodes[0], a, b)
    ensures s.nodes[0].pc[a] == Critical && s.nodes[0].served == k + 1
  {
    if k == 0 {
      var start := Initial([2]);
      assert IsRun(start, [], start);
      ReachableInv([2], start);
      a, b := 0, 1;
      var first, u := Starts(start, a, b);
      var second;
      second, s := Queues(u, a, b);
      RunsJoin(start, first, u, second, s);
      moves := first + second;
    } else {
      var before, u;
      before, u, b, a := Climb(k - 1);
      var next;
      next, s := Handover(u, b, a);
      RunsJoin(Initial([2]), before, u, next, s);
      moves := before + next;
    }
  }

  /** A reachable state in which a tenure has served MAX_HANDOVER + 1 critical sections, or any smaller number. */
  lemma BoundAttained(sections: nat) returns (s: State, t: nat)
    requires 1 <= sections <= MaxHandover + 1
    ensures Reachable([2], s) && InCritical(s, 0, t) && s.nodes[0].served == sections
  {
    var moves, u, a, b := Climb(sections - 1);
    s, t := u, a;
  }
}
