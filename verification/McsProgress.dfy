/**
 Progress of the MCS lock: in every schedule the lock is passed on after a bounded number of steps
 of the first two threads of the queue, and from every reachable state every thread can enter.
 */
module McsProgress {
  import opened McsLock
  import opened Sequences

  /** The steps the first thread of the queue has before it. */
  function HeadRank(pc: Pc): (r: nat) {
    match pc
    case Spin => 7
    case Critical => 6
    case CheckNext => 5
    case CasTail => 4
    case WaitNext => 3
    case LoadNext => 2
    case Notify(_) => 1
    case _ => 0
  }

  /** The steps the second thread has before it waits for the first. */
  function SecondRank(pc: Pc): (r: nat) {
    match pc
    case SetLocked(_) => 2
    case Link(_) => 1
    case _ => 0
  }

  function Rank(queue: seq<nat>, pc: seq<Pc>): (r: nat)
    requires forall i :: 0 <= i < |queue| ==> queue[i] < |pc|
  {
    if queue == [] then 0
    else HeadRank(pc[queue[0]]) + if |queue| == 1 then 3 else SecondRank(pc[queue[1]])
  }

  predicate Front(queue: seq<nat>, t: nat) {
    (|queue| > 0 && t == queue[0]) || (|queue| > 1 && t == queue[1])
  }

  /** Thread t is about to let go of the lock. */
  predicate Leaves(s: State, t: nat)
    requires t < |s.pc|
  {
    s.pc[t].Notify? || (s.pc[t] == CasTail && s.tail == Node(t))
  }

  /** One of the first two threads steps, and does not let go of the lock. */
  lemma FrontStep(s: State, t: nat)
    requires Inv(s) && t < |s.pc| && CanStep(s, t) && Front(s.queue, t) && !Leaves(s, t)
    ensures Inv(Step(s, t)) && Step(s, t).queue == s.queue && |Step(s, t).pc| == |s.pc|
    ensures Step(s, t).arrivals == s.arrivals && (Holding(s.pc[t]) ==> Step(s, t).entries == s.entries)
    ensures Rank(s.queue, Step(s, t).pc) < Rank(s.queue, s.pc)
  {
    InvStep(s, t);
    assert PlaceOk(s, 0);
    if |s.queue| > 1 { assert PlaceOk(s, 1); }
    assert Distinct(s.queue);
  }

  lemma LeavesFirst(s: State, t: nat)
    requires Inv(s) && t < |s.pc| && CanStep(s, t) && Leaves(s, t)
    ensures Inv(Step(s, t)) && |Step(s, t).pc| == |s.pc|
    ensures s.queue != [] && s.queue[0] == t && Step(s, t).queue == s.queue[1..]
    ensures Step(s, t).arrivals == s.arrivals && Step(s, t).entries == s.entries
  {
    InvStep(s, t);
    var i := NotHead(s, t);
  }

  /** A thread further back steps. */
  lemma BackStep(s: State, t: nat)
    requires Inv(s) && t < |s.pc| && CanStep(s, t) && !Front(s.queue, t) && !Unqueued(s.pc[t])
    ensures |Step(s, t).pc| == |s.pc| && Step(s, t).queue == s.queue && Step(s, t).arrivals == s.arrivals
    ensures Rank(s.queue, Step(s, t).pc) == Rank(s.queue, s.pc)
  {
    var i := NotHead(s, t);
    assert PlaceOk(s, i);
  }

  /** A thread that is not queued steps: it joins the queue at its end, or the queue stays as it is. */
  lemma OutsideStep(s: State, t: nat)
    requires Inv(s) && t < |s.pc| && CanStep(s, t) && Unqueued(s.pc[t])
    ensures |Step(s, t).pc| == |s.pc| && Step(s, t).pc == s.pc[t := Step(s, t).pc[t]]
    ensures if s.pc[t] == Exchange then Step(s, t).queue == s.queue + [t] && Step(s, t).arrivals == s.arrivals + [t]
      else Step(s, t).queue == s.queue && Step(s, t).arrivals == s.arrivals
    ensures s.pc[t] == Exchange && s.queue != [] ==> Step(s, t).pc[t].SetLocked?
    ensures t !in s.queue
  {
    NotQueued(s, t);
  }

  lemma OtherStep(s: State, t: nat)
    requires Inv(s) && t < |s.pc| && CanStep(s, t) && !Front(s.queue, t)
    ensures Inv(Step(s, t)) && |Step(s, t).pc| == |s.pc| && s.queue <= Step(s, t).queue
    ensures Gone(Step(s, t)) == Gone(s)
    ensures s.queue != [] ==> Rank(Step(s, t).queue, Step(s, t).pc) <= Rank(s.queue, s.pc)
  {
    InvStep(s, t);
    if Unqueued(s.pc[t]) {
      OutsideStep(s, t);
      JoinRank(s.queue, s.pc, t, Step(s, t).pc[t]);
    } else {
      BackStep(s, t);
    }
  }

  /** The second thread of a queue of one is the one that joins. */
  lemma JoinRank(queue: seq<nat>, pc: seq<Pc>, t: nat, pc': Pc)
    requires forall i :: 0 <= i < |queue| ==> queue[i] < |pc| && queue[i] != t
    requires t < |pc|
    ensures Rank(queue, pc[t := pc']) == Rank(queue, pc)
    ensures queue != [] ==> Rank(queue + [t], pc[t := pc']) <= Rank(queue, pc)
  {
  }

  /** How many threads have let go of the lock. */
  function Gone(s: State): (n: int) {
    |s.arrivals| - |s.queue|
  }

  /** More than `gone` have let go, or the first is still `head` and has, with the second, at most n steps to go. */
  predicate Within(s: State, gone: int, head: nat, n: int)
    requires forall i :: 0 <= i < |s.queue| ==> s.queue[i] < |s.pc|
  {
    Gone(s) > gone || (Gone(s) == gone && s.queue != [] && s.queue[0] == head && Rank(s.queue, s.pc) <= n)
  }

  lemma WithinStep(s: State, t: nat, gone: int, head: nat, n: int)
    requires Inv(s) && t < |s.pc| && CanStep(s, t) && Within(s, gone, head, n)
    ensures Inv(Step(s, t)) && Within(Step(s, t), gone, head, if Front(s.queue, t) then n - 1 else n)
  {
    if Leaves(s, t) {
      LeavesFirst(s, t);
    } else if Front(s.queue, t) {
      FrontStep(s, t);
    } else {
      OtherStep(s, t);
    }
  }

  /** The steps in a schedule of those who are first or second when they step. */
  ghost function FrontSteps(s: State, schedule: seq<nat>): (n: nat)
    decreases |schedule|
  {
    if schedule == [] || !WellSized(s) || schedule[0] >= |s.pc| || !CanStep(s, schedule[0]) then 0
    else FrontSteps(Step(s, schedule[0]), schedule[1..]) + if Front(s.queue, schedule[0]) then 1 else 0
  }

  lemma {:induction false} WithinRun(s: State, schedule: seq<nat>, s': State, gone: int, head: nat, n: int)
    requires Inv(s) && IsRun(s, schedule, s') && Within(s, gone, head, n)
    ensures Inv(s') && Within(s', gone, head, n - FrontSteps(s, schedule))
    decreases |schedule|
  {
    if schedule != [] {
      var front := Front(s.queue, schedule[0]);
      WithinStep(s, schedule[0], gone, head, n);
      WithinRun(Step(s, schedule[0]), schedule[1..], s', gone, head, if front then n - 1 else n);
    }
  }

  lemma RankBound(s: State)
    requires Inv(s) && s.queue != []
    ensures 1 <= Rank(s.queue, s.pc) <= 10
  {
    assert PlaceOk(s, 0);
  }

  /**
   In every schedule, ten steps of threads that are first or second in the queue let some thread go: the
   lock does not stay with its holder, whatever the others do.
   */
  lemma PassedOnSoon(threads: nat, s: State, schedule: seq<nat>, s': State)
    requires Reachable(threads, s) && s.queue != [] && IsRun(s, schedule, s') && FrontSteps(s, schedule) >= 10
    ensures Gone(s') > Gone(s)
  {
    ReachableInv(threads, s);
    RankBound(s);
    WithinRun(s, schedule, s', Gone(s), s.queue[0], 10);
    if Gone(s') == Gone(s) { RankBound(s'); }
  }

  // ----- unlock() -----

  ghost predicate OnlyBy(schedule: seq<nat>, t: nat) {
    forall i :: 0 <= i < |schedule| ==> schedule[i] == t
  }

  lemma RunCons(s: State, t: nat, rest: seq<nat>, s': State)
    requires WellSized(s) && t < |s.pc| && CanStep(s, t) && IsRun(Step(s, t), rest, s')
    ensures IsRun(s, [t] + rest, s')
  {
    assert ([t] + rest)[0] == t && ([t] + rest)[1..] == rest;
  }

  lemma Notifies(s: State, t: nat)
    requires Inv(s) && t < |s.pc| && s.pc[t].Notify?
    ensures CanStep(s, t) && |s.queue| > 1 && s.queue[0] == t && |Step(s, t).pc| == |s.pc| && WellSized(Step(s, t))
    ensures Step(s, t).pc[t] == Out && Step(s, t).pc[s.queue[1]] == Spin && !Step(s, t).locked[s.queue[1]]
  {
    var i := NotHead(s, t);
    assert PlaceOk(s, 0) && PlaceOk(s, 1);
  }

  lemma StillLinked(s: State, t: nat)
    requires Inv(s) && t < |s.pc| && Holding(s.pc[t]) && s.next[t] != Null && !s.pc[t].Notify?
    ensures CanStep(s, t) && !Leaves(s, t) && Front(s.queue, t) && WellSized(Step(s, t)) && |Step(s, t).pc| == |s.pc|
    ensures Holding(Step(s, t).pc[t]) && Step(s, t).next[t] != Null
    ensures HeadRank(Step(s, t).pc[t]) < HeadRank(s.pc[t])
  {
    ContendedMeansQueued(s, t);
  }

  /** unlock() of a thread with a linked successor hands the lock to it, by at most six steps of its own. */
  lemma {:induction false} HandsOver(s: State, t: nat) returns (schedule: seq<nat>, s': State)
    requires Inv(s) && t < |s.pc| && Holding(s.pc[t]) && s.next[t] != Null
    ensures |s.queue| > 1 && s.queue[0] == t && s.queue[1] < |s.pc|
    ensures IsRun(s, schedule, s') && OnlyBy(schedule, t) && |schedule| <= HeadRank(s.pc[t]) <= 6 && Inv(s')
    ensures |s'.pc| == |s.pc| && s'.queue == s.queue[1..] && s'.pc[t] == Out && s'.entries == s.entries
    ensures s'.pc[s.queue[1]] == Spin && !s'.locked[s.queue[1]]
    decreases HeadRank(s.pc[t])
  {
    ContendedMeansQueued(s, t);
    var rest;
    if s.pc[t].Notify? {
      Notifies(s, t);
      LeavesFirst(s, t);
      rest, s' := [], Step(s, t);
    } else {
      StillLinked(s, t);
      FrontStep(s, t);
      rest, s' := HandsOver(Step(s, t), t);
    }
    RunCons(s, t, rest, s');
    schedule := [t] + rest;
  }

  /** The next step of the successor makes it the holder. */
  lemma SuccessorEnters(s: State, t: nat) returns (schedule: seq<nat>, s': State)
    requires Inv(s) && t < |s.pc| && Holding(s.pc[t]) && s.next[t] != Null
    ensures |s.queue| > 1 && IsRun(s, schedule, s') && |schedule| <= 7
    ensures s.queue[1] < |s'.pc| && s'.pc[s.queue[1]] == Critical && s'.entries == s.entries + [s.queue[1]]
  {
    var handover, u := HandsOver(s, t);
    var v := s.queue[1];
    s' := Step(u, v);
    assert IsRun(s', [], s');
    RunCons(u, v, [], s');
    RunsJoin(s, handover, u, [v] + [], s');
    schedule := handover + ([v] + []);
  }

  lemma {:induction false} RunsJoin(s: State, a: seq<nat>, t: State, b: seq<nat>, u: State)
    requires IsRun(s, a, t) && IsRun(t, b, u)
    ensures IsRun(s, a + b, u)
    decreases |a|
  {
    if a == [] {
      assert a + b == b;
    } else {
      RunsJoin(Step(s, a[0]), a[1..], t, b, u);
      AppendTail(a, b);
    }
  }

  // ----- lock() -----

  /** How far thread t is from its critical section, before the queue matters. */
  function Stage(pc: Pc): (n: nat) {
    if pc == Critical then 0
    else if pc == Exchange then 2
    else if pc == ClearNext then 3
    else if pc == Out then 4
    else if Holding(pc) then 5
    else 1
  }

  function Place(queue: seq<nat>, t: nat): (i: nat) {
    if queue == [] || queue[0] == t then 0 else 1 + Place(queue[1..], t)
  }

  /** The first or the second thread can step. */
  lemma FrontCanStep(s: State) returns (u: nat)
    requires Inv(s) && s.queue != []
    ensures u < |s.pc| && CanStep(s, u) && Front(s.queue, u)
  {
    assert PlaceOk(s, 0);
    if |s.queue| > 1 { assert PlaceOk(s, 1); }
    u := if CanStep(s, s.queue[0]) then s.queue[0] else s.queue[1];
  }

  lemma {:induction false} CanEnter(s: State, t: nat) returns (schedule: seq<nat>, s': State)
    requires Inv(s) && t < |s.pc|
    ensures IsRun(s, schedule, s') && Inv(s') && |s'.pc| == |s.pc| && s'.pc[t] == Critical
    decreases Stage(s.pc[t]), Place(s.queue, t), Rank(s.queue, s.pc)
  {
    if s.pc[t] == Critical {
      schedule, s' := [], s;
    } else {
      var u := t;
      if !Unqueued(s.pc[t]) {
        var i := NotHead(s, t);
        u := FrontCanStep(s);
        QueuedStep(s, t, u);
      } else {
        UnqueuedStep(s, t);
        InvStep(s, t);
      }
      var rest;
      rest, s' := CanEnter(Step(s, u), t);
      RunCons(s, u, rest, s');
      schedule := [u] + rest;
    }
  }

  /** From every reachable state, every thread can come to its critical section. */
  lemma EveryThreadEnters(threads: nat, s: State, t: nat) returns (schedule: seq<nat>, s': State)
    requires Reachable(threads, s) && t < |s.pc|
    ensures IsRun(s, schedule, s') && t < |s'.pc| && s'.pc[t] == Critical
  {
    ReachableInv(threads, s);
    schedule, s' := CanEnter(s, t);
  }

  lemma UnqueuedStep(s: State, t: nat)
    requires WellSized(s) && t < |s.pc| && Unqueued(s.pc[t])
    ensures CanStep(s, t) && |Step(s, t).pc| == |s.pc| && Stage(Step(s, t).pc[t]) < Stage(s.pc[t])
  {
  }

  /** Thread t is closer to its critical section. */
  predicate Closer(s: State, s': State, t: nat)
    requires t < |s.pc| && t < |s'.pc|
    requires forall i :: 0 <= i < |s.queue| ==> s.queue[i] < |s.pc| && s.queue[i] < |s'.pc|
  {
    || Stage(s'.pc[t]) < Stage(s.pc[t])
    || (Stage(s'.pc[t]) == Stage(s.pc[t]) && Place(s'.queue, t) < Place(s.queue, t))
    || (Stage(s'.pc[t]) == Stage(s.pc[t]) && s'.queue == s.queue && Rank(s.queue, s'.pc) < Rank(s.queue, s.pc))
  }

  lemma LeavingIsCloser(s: State, t: nat, u: nat)
    requires Inv(s) && t < |s.pc| && s.pc[t] != Critical && !Unqueued(s.pc[t])
    requires u < |s.pc| && CanStep(s, u) && Leaves(s, u)
    ensures |Step(s, u).pc| == |s.pc| && Closer(s, Step(s, u), t)
  {
    LeavesFirst(s, u);
    assert Step(s, u).pc == s.pc[u := Out];
    assert Place(s.queue, t) == if t == u then 0 else 1 + Place(s.queue[1..], t);
  }

  lemma QueuedStep(s: State, t: nat, u: nat)
    requires Inv(s) && t < |s.pc| && s.pc[t] != Critical && !Unqueued(s.pc[t])
    requires u < |s.pc| && CanStep(s, u) && Front(s.queue, u)
    ensures Inv(Step(s, u)) && |Step(s, u).pc| == |s.pc| && Closer(s, Step(s, u), t)
  {
    InvStep(s, u);
    if Leaves(s, u) {
      LeavingIsCloser(s, t, u);
    } else {
      FrontStep(s, u);
      StepMovesPc(s, u);
      StageStays(s, t, u);
    }
  }

  lemma StageStays(s: State, t: nat, u: nat)
    requires Inv(s) && t < |s.pc| && s.pc[t] != Critical && !Unqueued(s.pc[t])
    requires u < |s.pc| && CanStep(s, u) && !Leaves(s, u)
    ensures |Step(s, u).pc| == |s.pc| && Stage(Step(s, u).pc[t]) <= Stage(s.pc[t])
  {
  }
}
