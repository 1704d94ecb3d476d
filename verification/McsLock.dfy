/**
 The MCS queue lock. Every access to `_tail`, `next` or `locked` is one atomic step of one
 thread; threads interleave in any order.

 `queue`, `arrivals` and `entries` are not part of the program: the threads that have exchanged
 `_tail` and not yet passed the lock on, the order of those exchanges, and the order in which
 threads came out of lock().
 */
module McsLock {

  datatype Ref = Null | Node(t: nat)

  datatype Pc =
    | Out
    // lock()
    | ClearNext
    | Exchange
    | SetLocked(pred: nat)
    | Link(pred: nat)
    | Spin
    // lock() has returned
    | Critical
    // unlock()
    | CheckNext
    | CasTail
    | WaitNext
    | LoadNext
    | Notify(succ: nat)

  datatype State = State(
    tail: Ref,
    next: seq<Ref>,
    locked: seq<bool>,
    pc: seq<Pc>,
    queue: seq<nat>,
    arrivals: seq<nat>,
    entries: seq<nat>)

  function Initial(threads: nat): (s: State) {
    State(Null, seq(threads, _ => Null), seq(threads, _ => false), seq(threads, _ => Out), [], [], [])
  }

  predicate WellSized(s: State) {
    |s.next| == |s.pc| && |s.locked| == |s.pc|
  }

  /** Can thread t take a step? The two spin loops wait; everything else can always go on. */
  predicate CanStep(s: State, t: nat)
    requires WellSized(s) && t < |s.pc|
  {
    match s.pc[t]
    case Spin => !s.locked[t]
    case WaitNext => s.next[t] != Null
    case LoadNext => s.next[t] != Null
    case SetLocked(p) => p < |s.pc|
    case Link(p) => p < |s.pc|
    case Notify(u) => u < |s.pc|
    case _ => true
  }

  function At(s: State, t: nat, pc: Pc): (s': State)
    requires t < |s.pc|
  {
    s.(pc := s.pc[t := pc])
  }

  /** The lock is thread t's: lock() returns. */
  function Enter(s: State, t: nat): (s': State)
    requires t < |s.pc|
  {
    At(s, t, Critical).(entries := s.entries + [t])
  }

  /** unlock() has let go of the lock. */
  function Leave(s: State, t: nat): (s': State)
    requires t < |s.pc|
  {
    At(s, t, Out).(queue := if |s.queue| > 0 then s.queue[1..] else [])
  }

  /** One step of thread t. At `Out` and at `Critical` the step is the call of lock() or unlock(). */
  function Step(s: State, t: nat): (s': State)
    requires WellSized(s) && t < |s.pc| && CanStep(s, t)
  {
    match s.pc[t]
    case Out => At(s, t, ClearNext)
    case ClearNext => At(s, t, Exchange).(next := s.next[t := Null])
    case Exchange =>
      var s' := s.(tail := Node(t), queue := s.queue + [t], arrivals := s.arrivals + [t]);
      if s.tail == Null then Enter(s', t) else At(s', t, SetLocked(s.tail.t))
    case SetLocked(p) => At(s, t, Link(p)).(locked := s.locked[t := true])
    case Link(p) => At(s, t, Spin).(next := s.next[p := Node(t)])
    case Spin => Enter(s, t)
    case Critical => At(s, t, CheckNext)
    case CheckNext => At(s, t, if s.next[t] == Null then CasTail else LoadNext)
    case CasTail => if s.tail == Node(t) then Leave(s, t).(tail := Null) else At(s, t, WaitNext)
    case WaitNext => At(s, t, LoadNext)
    case LoadNext => At(s, t, Notify(s.next[t].t))
    case Notify(u) => Leave(s, t).(locked := s.locked[u := false])
  }

  /** is_contended(). */
  predicate IsContended(s: State, t: nat)
    requires WellSized(s) && t < |s.pc|
  {
    s.next[t] != Null
  }

  /** From the return of lock() to the step of unlock() that lets go. */
  predicate Holding(pc: Pc) {
    match pc
    case Critical | CheckNext | CasTail | WaitNext | LoadNext | Notify(_) => true
    case _ => false
  }

  predicate Unqueued(pc: Pc) {
    pc == Out || pc == ClearNext || pc == Exchange
  }

  /** What is known of a queued thread t that is behind `pred`, from its own words and next[pred]. */
  predicate WaiterOk(t: nat, pc: Pc, locked: bool, pred: nat, nextOfPred: Ref) {
    match pc
    case SetLocked(p) => p == pred && nextOfPred == Null
    case Link(p) => p == pred && nextOfPred == Null && locked
    case Spin => nextOfPred == Node(t) && locked
    case _ => false
  }

  /** What is known of the first thread of the queue. */
  predicate HeadOk(pc: Pc, locked: bool, next: Ref, queue: seq<nat>) {
    match pc
    case Spin => !locked
    case Critical | CheckNext | CasTail => true
    case WaitNext => |queue| > 1
    case LoadNext => |queue| > 1 && next != Null
    case Notify(u) => |queue| > 1 && next != Null && u == queue[1]
    case _ => false
  }

  ghost predicate QueueInRange(queue: seq<nat>, threads: nat) {
    forall i :: 0 <= i < |queue| ==> queue[i] < threads
  }

  ghost predicate Distinct(queue: seq<nat>) {
    forall i, j :: 0 <= i < j < |queue| ==> queue[i] != queue[j]
  }

  /** Place i of the queue. */
  ghost predicate PlaceOk(s: State, i: nat)
    requires WellSized(s) && i < |s.queue| && QueueInRange(s.queue, |s.pc|)
  {
    var t := s.queue[i];
    if i == 0 then HeadOk(s.pc[t], s.locked[t], s.next[t], s.queue)
    else WaiterOk(t, s.pc[t], s.locked[t], s.queue[i - 1], s.next[s.queue[i - 1]])
  }

  /** The threads that are queued but have not come out of lock(). */
  function Waiting(queue: seq<nat>, pc: seq<Pc>): (w: seq<nat>) {
    if |queue| > 0 && queue[0] < |pc| && Holding(pc[queue[0]]) then queue[1..] else queue
  }

  function TailOf(queue: seq<nat>): (r: Ref) {
    if |queue| == 0 then Null else Node(queue[|queue| - 1])
  }

  ghost predicate Inv(s: State) {
    && WellSized(s)
    && QueueInRange(s.queue, |s.pc|)
    && Distinct(s.queue)
    && s.tail == TailOf(s.queue)
    && (|s.queue| > 0 ==> s.next[s.queue[|s.queue| - 1]] == Null)
    && (forall i :: 0 <= i < |s.queue| ==> PlaceOk(s, i))
    && (forall t :: 0 <= t < |s.pc| && t !in s.queue ==> Unqueued(s.pc[t]))
    && (forall t :: 0 <= t < |s.pc| && s.pc[t] == Exchange ==> s.next[t] == Null)
    && s.arrivals == s.entries + Waiting(s.queue, s.pc)
  }

  /** In a queue without repetitions, where the other places are. */
  lemma NotHead(s: State, t: nat) returns (i: nat)
    requires Inv(s) && t < |s.pc| && !Unqueued(s.pc[t])
    ensures i < |s.queue| && s.queue[i] == t
    ensures Holding(s.pc[t]) ==> i == 0
    ensures s.pc[t].SetLocked? || s.pc[t].Link? ==> i > 0
    ensures forall j :: 0 <= j < |s.queue| && j != i ==> s.queue[j] != t
  {
    i :| 0 <= i < |s.queue| && s.queue[i] == t;
    assert PlaceOk(s, i);
  }

  lemma NotQueued(s: State, t: nat)
    requires Inv(s) && t < |s.pc| && Unqueued(s.pc[t])
    ensures t !in s.queue
  {
    forall i | 0 <= i < |s.queue|
      ensures s.queue[i] != t
    {
      assert PlaceOk(s, i);
    }
  }

  /** A step that moves one thread of the queue without touching the queue or any `next`. */
  lemma MoveKeeps(s: State, t: nat, i: nat, pc: Pc, lk: bool)
    requires Inv(s) && t < |s.pc| && i < |s.queue| && s.queue[i] == t && pc != Exchange
    requires Holding(pc) == Holding(s.pc[t])
    requires if i == 0 then HeadOk(pc, lk, s.next[t], s.queue)
             else WaiterOk(t, pc, lk, s.queue[i - 1], s.next[s.queue[i - 1]])
    ensures Inv(At(s, t, pc).(locked := s.locked[t := lk]))
  {
    var s' := At(s, t, pc).(locked := s.locked[t := lk]);
    forall j | 0 <= j < |s'.queue|
      ensures PlaceOk(s', j)
    {
      MovePlaces(s, t, i, pc, lk, j);
    }
    WaitingSame(s.queue, s.pc, t, pc);
  }

  lemma MovePlaces(s: State, t: nat, i: nat, pc: Pc, lk: bool, j: nat)
    requires Inv(s) && t < |s.pc| && i < |s.queue| && s.queue[i] == t && j < |s.queue|
    requires if i == 0 then HeadOk(pc, lk, s.next[t], s.queue)
             else WaiterOk(t, pc, lk, s.queue[i - 1], s.next[s.queue[i - 1]])
    ensures PlaceOk(At(s, t, pc).(locked := s.locked[t := lk]), j)
  {
    assert PlaceOk(s, j);
    assert s.queue[j] == t <==> j == i;
  }

  /** Who waits does not change while the first thread goes on holding, or not holding, the lock. */
  lemma WaitingSame(queue: seq<nat>, pc: seq<Pc>, t: nat, pc': Pc)
    requires t < |pc| && Holding(pc[t]) == Holding(pc')
    ensures Waiting(queue, pc[t := pc']) == Waiting(queue, pc)
  {
  }

  lemma UnqueuedKeeps(s: State, t: nat, pc: Pc, next: Ref)
    requires Inv(s) && t < |s.pc| && Unqueued(s.pc[t]) && Unqueued(pc)
    requires pc == Exchange ==> next == Null
    ensures Inv(At(s, t, pc).(next := s.next[t := next]))
  {
    var s' := At(s, t, pc).(next := s.next[t := next]);
    NotQueued(s, t);
    forall j | 0 <= j < |s'.queue|
      ensures PlaceOk(s', j)
    {
      assert PlaceOk(s, j);
    }
  }

  lemma ExchangeFirst(s: State, t: nat)
    requires Inv(s) && t < |s.pc| && s.pc[t] == Exchange && s.queue == []
    ensures Inv(Step(s, t))
  {
    OnlyThread(s, t, Step(s, t));
  }

  /** A thread alone in the queue has the lock. */
  lemma OnlyThread(s: State, t: nat, s': State)
    requires Inv(s) && s.queue == [] && t < |s.pc| && s.next[t] == Null
    requires s'.tail == Node(t) && s'.next == s.next && s'.locked == s.locked && s'.pc == s.pc[t := Critical]
    requires s'.queue == [t] && s'.arrivals == s.arrivals + [t] && s'.entries == s.entries + [t]
    ensures Inv(s')
  {
    assert PlaceOk(s', 0);
    assert s.arrivals == s.entries + [] && Waiting(s'.queue, s'.pc) == [];
  }

  lemma ExchangePlaces(s: State, t: nat, j: nat)
    requires Inv(s) && t < |s.pc| && s.pc[t] == Exchange && s.queue != [] && j <= |s.queue|
    ensures WellSized(Step(s, t)) && QueueInRange(Step(s, t).queue, |s.pc|) && PlaceOk(Step(s, t), j)
  {
    NotQueued(s, t);
    if j < |s.queue| { assert PlaceOk(s, j); }
  }

  lemma ExchangeBehind(s: State, t: nat)
    requires Inv(s) && t < |s.pc| && s.pc[t] == Exchange && s.queue != []
    ensures Inv(Step(s, t))
  {
    var s' := Step(s, t);
    NotQueued(s, t);
    forall j | 0 <= j < |s'.queue|
      ensures PlaceOk(s', j)
    {
      ExchangePlaces(s, t, j);
    }
    WaitingBehind(s.queue, s.pc, t, s'.pc[t]);
    assert s'.queue == s.queue + [t];
    assert s.arrivals + [t] == s.entries + (Waiting(s.queue, s.pc) + [t]);
  }

  /** A thread that joins a queue waits behind the others. */
  lemma WaitingBehind(queue: seq<nat>, pc: seq<Pc>, t: nat, pc': Pc)
    requires queue != [] && t !in queue && t < |pc|
    ensures Waiting(queue + [t], pc[t := pc']) == Waiting(queue, pc) + [t]
  {
    assert (queue + [t])[0] == queue[0] && queue[0] in queue;
    assert (queue + [t])[1..] == queue[1..] + [t];
  }

  lemma LinkPlace(s: State, t: nat, i: nat, j: nat)
    requires Inv(s) && t < |s.pc| && s.pc[t].Link? && 0 < i < |s.queue| && s.queue[i] == t && j < |s.queue|
    ensures CanStep(s, t) && Step(s, t).queue == s.queue && WellSized(Step(s, t)) && PlaceOk(Step(s, t), j)
  {
    assert PlaceOk(s, i) && PlaceOk(s, j);
  }

  lemma LinkKeeps(s: State, t: nat)
    requires Inv(s) && t < |s.pc| && s.pc[t].Link?
    ensures CanStep(s, t) && Inv(Step(s, t))
  {
    var i := NotHead(s, t);
    assert PlaceOk(s, i);
    var s' := Step(s, t);
    var p := s.queue[i - 1];
    forall j | 0 <= j < |s'.queue|
      ensures PlaceOk(s', j)
    {
      LinkPlace(s, t, i, j);
    }
    assert s'.next[p] == Node(t);
    assert s.pc[p] != Exchange by { assert PlaceOk(s, i - 1); }
  }

  /** Only the first thread of the queue can see its `locked` cleared. */
  lemma ToldIsHead(s: State, t: nat)
    requires Inv(s) && t < |s.pc| && s.pc[t] == Spin && !s.locked[t]
    ensures s.queue != [] && s.queue[0] == t
  {
    var i := NotHead(s, t);
    assert PlaceOk(s, i);
  }

  lemma SpinKeeps(s: State, t: nat)
    requires Inv(s) && t < |s.pc| && s.pc[t] == Spin && CanStep(s, t)
    ensures Inv(Step(s, t))
  {
    ToldIsHead(s, t);
    var s' := Step(s, t);
    forall j | 0 <= j < |s'.queue|
      ensures PlaceOk(s', j)
    {
      assert PlaceOk(s, j);
    }
    assert Waiting(s.queue, s.pc) == [t] + Waiting(s'.queue, s'.pc);
  }

  /** A thread alone in the queue goes. */
  lemma LastKeeps(s: State, t: nat)
    requires Inv(s) && t < |s.pc| && CanStep(s, t) && s.pc[t] == CasTail && s.tail == Node(t)
    ensures Inv(Step(s, t))
  {
    var i := NotHead(s, t);
    assert s.queue[|s.queue| - 1] == t;
    assert s.queue == [t];
    assert Step(s, t).queue == [];
  }

  /** The head goes after it has told the next one. */
  lemma NotifyPlace(s: State, t: nat, j: nat)
    requires Inv(s) && t < |s.pc| && CanStep(s, t) && s.pc[t].Notify? && j + 1 < |s.queue|
    ensures Step(s, t).queue == s.queue[1..] && WellSized(Step(s, t)) && |Step(s, t).pc| == |s.pc|
    ensures PlaceOk(Step(s, t), j)
  {
    var i := NotHead(s, t);
    assert PlaceOk(s, 0) && PlaceOk(s, 1) && PlaceOk(s, j + 1);
  }

  lemma NotifyKeeps(s: State, t: nat)
    requires Inv(s) && t < |s.pc| && CanStep(s, t) && s.pc[t].Notify?
    ensures Inv(Step(s, t))
  {
    var i := NotHead(s, t);
    assert PlaceOk(s, 0) && PlaceOk(s, 1);
    var s' := Step(s, t);
    forall j | 0 <= j < |s'.queue|
      ensures PlaceOk(s', j)
    {
      NotifyPlace(s, t, j);
    }
    forall u | 0 <= u < |s'.pc| && u !in s'.queue
      ensures Unqueued(s'.pc[u])
    {
      if u != t { assert u !in s.queue; }
    }
  }

  lemma LeaveKeeps(s: State, t: nat)
    requires Inv(s) && t < |s.pc| && CanStep(s, t)
    requires s.pc[t].Notify? || (s.pc[t] == CasTail && s.tail == Node(t))
    ensures Inv(Step(s, t))
  {
    if s.pc[t] == CasTail {
      LastKeeps(s, t);
    } else {
      NotifyKeeps(s, t);
    }
  }

  /** The steps of unlock() that keep the lock. */
  lemma HolderKeeps(s: State, t: nat)
    requires Inv(s) && t < |s.pc| && CanStep(s, t) && Holding(s.pc[t])
    requires !s.pc[t].Notify? && !(s.pc[t] == CasTail && s.tail == Node(t))
    ensures Inv(Step(s, t))
  {
    var i := NotHead(s, t);
    assert PlaceOk(s, 0);
    if |s.queue| > 1 { assert PlaceOk(s, 1); }
    var pc := Step(s, t).pc[t];
    assert Step(s, t) == At(s, t, pc).(locked := s.locked[t := s.locked[t]]);
    MoveKeeps(s, t, 0, pc, s.locked[t]);
  }

  lemma SetLockedKeeps(s: State, t: nat)
    requires Inv(s) && t < |s.pc| && CanStep(s, t) && s.pc[t].SetLocked?
    ensures Inv(Step(s, t))
  {
    var i := NotHead(s, t);
    assert PlaceOk(s, i);
    MoveKeeps(s, t, i, Link(s.pc[t].pred), true);
  }

  lemma InvStep(s: State, t: nat)
    requires Inv(s) && t < |s.pc| && CanStep(s, t)
    ensures Inv(Step(s, t))
  {
    var leaves := s.pc[t].Notify? || (s.pc[t] == CasTail && s.tail == Node(t));
    match s.pc[t] {
      case Out =>
        assert Step(s, t) == At(s, t, ClearNext).(next := s.next[t := s.next[t]]);
        UnqueuedKeeps(s, t, ClearNext, s.next[t]);
      case ClearNext => UnqueuedKeeps(s, t, Exchange, Null);
      case Exchange => if s.queue == [] { ExchangeFirst(s, t); } else { ExchangeBehind(s, t); }
      case SetLocked(_) => SetLockedKeeps(s, t);
      case Link(_) => LinkKeeps(s, t);
      case Spin => SpinKeeps(s, t);
      case _ =>
        if leaves {
          LeaveKeeps(s, t);
        } else {
          HolderKeeps(s, t);
        }
    }
  }

  /** The states of a run in which the threads of `schedule` step in turn. */
  ghost predicate IsRun(s: State, schedule: seq<nat>, s': State)
    decreases |schedule|
  {
    if schedule == [] then s' == s
    else
      && WellSized(s) && schedule[0] < |s.pc| && CanStep(s, schedule[0])
      && IsRun(Step(s, schedule[0]), schedule[1..], s')
  }

  lemma {:induction false} InvRun(s: State, schedule: seq<nat>, s': State)
    requires Inv(s) && IsRun(s, schedule, s')
    ensures Inv(s')
    decreases |schedule|
  {
    if schedule != [] {
      InvStep(s, schedule[0]);
      InvRun(Step(s, schedule[0]), schedule[1..], s');
    }
  }

  ghost predicate Reachable(threads: nat, s: State) {
    exists schedule :: IsRun(Initial(threads), schedule, s)
  }

  lemma ReachableInv(threads: nat, s: State)
    requires Reachable(threads, s)
    ensures Inv(s)
  {
    var schedule :| IsRun(Initial(threads), schedule, s);
    InvRun(Initial(threads), schedule, s);
  }

  /** Mutual exclusion: one thread at a time is between the return of lock() and the end of unlock(). */
  lemma MutualExclusion(threads: nat, s: State, t: nat, u: nat)
    requires Reachable(threads, s) && t < |s.pc| && u < |s.pc| && Holding(s.pc[t]) && Holding(s.pc[u])
    ensures t == u && s.queue != [] && s.queue[0] == t
  {
    ReachableInv(threads, s);
    var i := NotHead(s, t);
    var j := NotHead(s, u);
  }

  /** First come, first served: threads come out of lock() in the order of their exchanges. */
  lemma FirstComeFirstServed(threads: nat, s: State)
    requires Reachable(threads, s)
    ensures s.entries <= s.arrivals
    ensures s.tail == TailOf(s.queue)
    ensures s.arrivals == s.entries + Waiting(s.queue, s.pc)
  {
    ReachableInv(threads, s);
  }

  /** unlock() waits for `next` only while its successor is between its exchange and its link store. */
  lemma WaitsOnlyForLink(threads: nat, s: State, t: nat)
    requires Reachable(threads, s) && t < |s.pc| && s.pc[t] == WaitNext && WellSized(s) && s.next[t] == Null
    ensures |s.queue| > 1 && s.queue[0] == t && s.queue[1] < |s.pc|
    ensures s.pc[s.queue[1]] == SetLocked(t) || s.pc[s.queue[1]] == Link(t)
  {
    ReachableInv(threads, s);
    var i := NotHead(s, t);
    assert PlaceOk(s, 0);
    assert PlaceOk(s, 1);
  }

  /** No deadlock: while any thread is queued, the first or the second can step. */
  lemma NeverStuck(threads: nat, s: State)
    requires Reachable(threads, s) && s.queue != []
    ensures WellSized(s) && QueueInRange(s.queue, |s.pc|)
    ensures CanStep(s, s.queue[0]) || (|s.queue| > 1 && CanStep(s, s.queue[1]))
  {
    ReachableInv(threads, s);
    assert PlaceOk(s, 0);
    if |s.queue| > 1 { assert PlaceOk(s, 1); }
  }

  /** is_contended() never lies to the holder: there is a second thread, linked and spinning. */
  lemma ContendedMeansQueued(s: State, t: nat)
    requires Inv(s) && t < |s.pc| && Holding(s.pc[t]) && IsContended(s, t)
    ensures |s.queue| > 1 && s.queue[0] == t && s.next[t] == Node(s.queue[1]) && s.pc[s.queue[1]] == Spin
  {
    var i := NotHead(s, t);
    assert PlaceOk(s, 0);
    if |s.queue| > 1 { assert PlaceOk(s, 1); }
  }

  /** The spin loops are the only places where a thread can be held up. */
  lemma OnlyLoopsWait(s: State, t: nat)
    requires Inv(s) && t < |s.pc| && !CanStep(s, t)
    ensures (s.pc[t] == Spin && s.locked[t]) || (s.pc[t] == WaitNext && s.next[t] == Null)
  {
    var i := NotHead(s, t);
    assert PlaceOk(s, i);
  }

  /** Where one step can take a thread. */
  predicate PcMoves(pc: Pc, pc': Pc) {
    if pc == Out then pc' == ClearNext
    else if pc == Critical then pc' == CheckNext
    else if Holding(pc) then pc' == Out || (Holding(pc') && pc' != Critical)
    else pc' == Critical || (!Holding(pc') && pc' != Out)
  }

  /** The lock is going to another thread of the queue: the first is taking it, or is passing it on. */
  predicate Succession(s: State)
    requires WellSized(s)
  {
    && s.queue != [] && s.queue[0] < |s.pc|
    && match s.pc[s.queue[0]]
       case Spin | Critical => true
       case CheckNext | LoadNext | Notify(_) => s.next[s.queue[0]] != Null
       case _ => false
  }

  /** What a step of thread t does as seen by the code around the lock. */
  ghost predicate Moved(s: State, s': State, t: nat) {
    && WellSized(s) && WellSized(s') && t < |s.pc| == |s'.pc|
    && s'.pc == s.pc[t := s'.pc[t]]
    && PcMoves(s.pc[t], s'.pc[t])
    && (Succession(s) && (s.pc[t] == Critical ==> s.next[t] != Null) ==> Succession(s'))
    && (forall u :: 0 <= u < |s.pc| && u != t && Holding(s.pc[u]) && s.next[u] != Null ==> s'.next[u] != Null)
  }

  lemma OthersKeepHead(s: State, t: nat)
    requires Inv(s) && t < |s.pc| && CanStep(s, t) && s.queue != [] && s.queue[0] != t
    ensures var s' := Step(s, t);
      && s'.queue != [] && s'.queue[0] == s.queue[0]
      && (s.next[s.queue[0]] != Null ==> s'.next[s.queue[0]] != Null)
  {
    if !Unqueued(s.pc[t]) {
      var i := NotHead(s, t);
      assert PlaceOk(s, i);
    }
  }

  lemma SuccessionStays(s: State, t: nat)
    requires Inv(s) && t < |s.pc| && CanStep(s, t)
    requires Succession(s) && (s.pc[t] == Critical ==> s.next[t] != Null)
    ensures WellSized(Step(s, t)) && Succession(Step(s, t))
  {
    if s.queue[0] != t {
      OthersKeepHead(s, t);
    } else {
      assert PlaceOk(s, 0);
      if |s.queue| > 1 { assert PlaceOk(s, 1); }
    }
  }

  lemma OthersKeepNext(s: State, t: nat, u: nat)
    requires Inv(s) && t < |s.pc| && CanStep(s, t) && u < |s.pc| && u != t && Holding(s.pc[u]) && s.next[u] != Null
    ensures |Step(s, t).next| == |s.pc| && Step(s, t).next[u] != Null
  {
    var i := NotHead(s, u);
    OthersKeepHead(s, t);
  }

  lemma StepMovesPc(s: State, t: nat)
    requires Inv(s) && t < |s.pc| && CanStep(s, t)
    ensures var s' := Step(s, t);
      WellSized(s') && |s'.pc| == |s.pc| && s'.pc == s.pc[t := s'.pc[t]] && PcMoves(s.pc[t], s'.pc[t])
  {
  }

  lemma StepMoves(s: State, t: nat)
    requires Inv(s) && t < |s.pc| && CanStep(s, t)
    ensures Moved(s, Step(s, t), t)
  {
    var s' := Step(s, t);
    StepMovesPc(s, t);
    if Succession(s) && (s.pc[t] == Critical ==> s.next[t] != Null) {
      SuccessionStays(s, t);
    }
    forall u | 0 <= u < |s.pc| && u != t && Holding(s.pc[u]) && s.next[u] != Null
      ensures s'.next[u] != Null
    {
      OthersKeepNext(s, t, u);
    }
  }

  /** A succession has an heir: a queued thread that has not come out of lock(), or has just done so. */
  lemma Heir(s: State) returns (u: nat)
    requires Inv(s) && Succession(s)
    ensures u in s.queue && u < |s.pc| && (s.pc[u] == Spin || s.pc[u] == Critical)
    ensures CanStep(s, s.queue[0])
  {
    assert PlaceOk(s, 0);
    u := s.queue[0];
    if s.pc[u] != Spin && s.pc[u] != Critical {
      ContendedMeansQueued(s, u);
      u := s.queue[1];
    }
  }
}
