/**
 The global test-and-set lock, and the memory whose bytes it guards.

 A thread that takes the lock invalidates its node's cache only if the last user was another
 node. The pages are those of `PageProtocol`, with the fault handlers of all nodes in flight,
 and an acquire keeps a page on the strength of its node's own directory words (`LockedPage`).
 Acquire and release go through the pages one by one; other nodes move in between. A guarded
 byte is stored by the thread that holds the lock only; all other bytes may be stored by any
 node at any time, on the same pages too.

 `owner` is not part of the program: the thread between its successful exchange and its store.
 */
module TasLock {
  import opened LockWord
  import opened PageProtocol
  import opened DirectorySafety
  import opened BarrierCoherence
  import opened LockedPage

  datatype Pc = Out | Acquiring | Holding | Releasing | Released

  datatype Owner = Nobody | Thread(t: nat)

  /** `guarded[p]` are the bytes of page p that the lock protects; thread t runs on node nodeOf[t]. */
  datatype Layout = Layout(nodes: nat, configs: seq<Config>, guarded: seq<set<nat>>, nodeOf: seq<Node>)

  /** `done` are the pages that the acquire or release under way has dealt with. */
  datatype System = System(word: Word, pc: seq<Pc>, owner: Owner, done: set<nat>, pages: seq<State>)

  datatype Event =
    | TryLock(t: nat)
    | AcquirePage(t: nat, p: nat)
    | AcquireDone(t: nat)
    | GuardedStore(t: nat, p: nat, at: nat, v: Byte)
    | ReleaseStart(t: nat)
    | ReleasePage(t: nat, p: nat)
    | ReleaseDone(t: nat)
    | StoreWord(t: nat)
    | PageStep(p: nat, l: Label)
    | OtherStore(p: nat, k: Node, at: nat, v: Byte)

  ghost predicate ValidLayout(y: Layout) {
    && |y.guarded| == |y.configs|
    && (forall p :: 0 <= p < |y.configs| ==> ValidConfig(y.configs[p]) && y.configs[p].nodes == y.nodes)
    && (forall t :: 0 <= t < |y.nodeOf| ==> y.nodeOf[t] < y.nodes)
  }

  ghost predicate WellSized(y: Layout, s: System) {
    && ValidLayout(y) && |s.pc| == |y.nodeOf| && |s.pages| == |y.configs|
    && (forall p :: 0 <= p < |s.pages| ==> WellFormed(y.configs[p], s.pages[p]))
  }

  ghost predicate At(s: System, t: nat, pc: Pc) {
    t < |s.pc| && s.pc[t] == pc
  }

  ghost predicate AllDone(s: System) {
    forall p :: 0 <= p < |s.pages| ==> p in s.done
  }

  ghost predicate Enabled(y: Layout, s: System, e: Event)
    requires WellSized(y, s)
  {
    match e
    case TryLock(t) => At(s, t, Out)
    case AcquirePage(t, p) =>
      At(s, t, Acquiring) && p < |s.pages| && p !in s.done && AtRest(y.configs[p], s.pages[p], y.nodeOf[t])
    case AcquireDone(t) => At(s, t, Acquiring) && AllDone(s)
    case GuardedStore(t, p, at, v) =>
      && At(s, t, Holding) && p < |s.pages| && at in y.guarded[p]
      && CanStore(y.configs[p], s.pages[p], y.nodeOf[t], at)
    case ReleaseStart(t) => At(s, t, Holding)
    case ReleasePage(t, p) =>
      At(s, t, Releasing) && p < |s.pages| && p !in s.done && AtRest(y.configs[p], s.pages[p], y.nodeOf[t])
    case ReleaseDone(t) => At(s, t, Releasing) && AllDone(s)
    case StoreWord(t) => At(s, t, Released)
    case PageStep(p, l) =>
      p < |s.pages| && Unsynchronised(l) && PageProtocol.Enabled(y.configs[p], s.pages[p], l)
    case OtherStore(p, k, at, v) =>
      p < |s.pages| && at !in y.guarded[p] && CanStore(y.configs[p], s.pages[p], k, at)
  }

  ghost function Move(s: System, t: nat, pc: Pc): (s': System)
    requires t < |s.pc|
  {
    s.(pc := s.pc[t := pc], done := {})
  }

  ghost function SetPage(s: System, p: nat, page: State): (s': System)
    requires p < |s.pages|
  {
    s.(pages := s.pages[p := page])
  }

  ghost function Apply(y: Layout, s: System, e: Event): (s': System)
    requires WellSized(y, s) && Enabled(y, s, e)
    ensures WellSized(y, s')
  {
    match e
    case TryLock(t) =>
      if s.word == Locked then s
      else
        var skip := s.word == User(y.nodeOf[t]) || s.word == Init;
        Move(s, t, if skip then Holding else Acquiring).(word := Locked, owner := Thread(t))
    case AcquirePage(t, p) =>
      SetPage(s, p, AcquiredPage(y.configs[p], s.pages[p], y.nodeOf[t])).(done := s.done + {p})
    case AcquireDone(t) => Move(s, t, Holding)
    case GuardedStore(t, p, at, v) => SetPage(s, p, Stored(y.configs[p], s.pages[p], y.nodeOf[t], at, v))
    case ReleaseStart(t) => Move(s, t, Releasing)
    case ReleasePage(t, p) =>
      SetPage(s, p, ReleasedPage(y.configs[p], s.pages[p], y.nodeOf[t])).(done := s.done + {p})
    case ReleaseDone(t) => Move(s, t, Released)
    case StoreWord(t) => Move(s, t, Out).(word := User(y.nodeOf[t]), owner := Nobody)
    case PageStep(p, l) => SetPage(s, p, PageProtocol.Apply(y.configs[p], s.pages[p], l))
    case OtherStore(p, k, at, v) => SetPage(s, p, Stored(y.configs[p], s.pages[p], k, at, v))
  }

  // ----- the invariant -----

  /** What the lock gives node k on a page that the acquire or release has, or has not, dealt with. */
  ghost function AccessOf(y: Layout, word: Word, owner: Owner, pc: seq<Pc>, done: bool, k: Node): (a: Access) {
    if owner != Nobody && owner.t < |pc| && owner.t < |y.nodeOf| && y.nodeOf[owner.t] == k then
      match pc[owner.t]
      case Out => Stranger
      case Acquiring => if done then Trusted else Stranger
      case Holding => Writing
      case Releasing => if done then Trusted else Writing
      case Released => Trusted
    else if word == Init || word == User(k) then Trusted
    else Stranger
  }

  ghost function Acc(y: Layout, s: System, p: nat): (acc: seq<Access>)
    ensures |acc| == y.nodes
  {
    seq(y.nodes, k requires 0 <= k < y.nodes => AccessOf(y, s.word, s.owner, s.pc, p in s.done, k))
  }

  ghost predicate OwnerOk(s: System) {
    && (s.word == Locked <==> s.owner != Nobody)
    && (s.owner != Nobody ==> s.owner.t < |s.pc|)
    && (forall t :: 0 <= t < |s.pc| ==> (s.pc[t] != Out <==> s.owner == Thread(t)))
  }

  ghost predicate PagesOk(y: Layout, s: System)
    requires WellSized(y, s)
  {
    forall p :: 0 <= p < |s.pages| ==> PageInv(y.configs[p], y.guarded[p], s.pages[p], Acc(y, s, p))
  }

  ghost predicate Inv(y: Layout, s: System) {
    WellSized(y, s) && OwnerOk(s) && PagesOk(y, s)
  }

  lemma OwnerStep(y: Layout, s: System, e: Event)
    requires WellSized(y, s) && OwnerOk(s) && Enabled(y, s, e)
    ensures OwnerOk(Apply(y, s, e))
  {
  }

  /** The holder is the only writer, and while the lock is taken everybody else is a stranger. */
  lemma AccUnique(y: Layout, s: System, p: nat)
    requires WellSized(y, s) && OwnerOk(s)
    ensures OneWriter(Acc(y, s, p))
    ensures s.owner != Nobody ==> forall k :: 0 <= k < y.nodes && k != y.nodeOf[s.owner.t] ==> Acc(y, s, p)[k].Stranger?
  {
  }

  /** Steps of the lock that touch no page. */
  lemma LockStepKeeps(y: Layout, s: System, e: Event, p: nat)
    requires Inv(y, s) && Enabled(y, s, e) && p < |s.pages|
    requires e.TryLock? || e.AcquireDone? || e.ReleaseStart? || e.ReleaseDone? || e.StoreWord?
    ensures PageInv(y.configs[p], y.guarded[p], s.pages[p], Acc(y, Apply(y, s, e), p))
  {
    var s' := Apply(y, s, e);
    OwnerStep(y, s, e);
    AccUnique(y, s, p);
    AccUnique(y, s', p);
    AccessKeeps(y.configs[p], y.guarded[p], s.pages[p], Acc(y, s, p), Acc(y, s', p));
  }

  /** Steps on one page that leave the lock alone. */
  lemma PageStepKeeps(y: Layout, s: System, e: Event)
    requires Inv(y, s) && Enabled(y, s, e) && (e.PageStep? || e.OtherStore? || e.GuardedStore?)
    ensures PagesOk(y, Apply(y, s, e))
  {
    OnePageMoves(y, s, e);
    assert Acc(y, Apply(y, s, e), e.p) == Acc(y, s, e.p);
    OnePageKeeps(y, s, Apply(y, s, e), e.p);
  }

  lemma OnePageMoves(y: Layout, s: System, e: Event)
    requires Inv(y, s) && Enabled(y, s, e) && (e.PageStep? || e.OtherStore? || e.GuardedStore?)
    ensures PageInv(y.configs[e.p], y.guarded[e.p], Apply(y, s, e).pages[e.p], Acc(y, s, e.p))
  {
    var c, g, acc := y.configs[e.p], y.guarded[e.p], Acc(y, s, e.p);
    match e
    case PageStep(p, l) => StepKeeps(c, g, s.pages[p], acc, l);
    case OtherStore(p, k, at, v) => StoreKeepsPage(c, g, s.pages[p], acc, k, at, v);
    case GuardedStore(t, p, at, v) => StoreKeepsPage(c, g, s.pages[p], acc, y.nodeOf[t], at, v);
  }

  /** The pages but p, and what the lock gives on them, have not changed. */
  lemma OnePageKeeps(y: Layout, s: System, s': System, p: nat)
    requires Inv(y, s) && WellSized(y, s') && p < |s.pages|
    requires s'.word == s.word && s'.owner == s.owner && s'.pc == s.pc
    requires s'.pages == s.pages[p := s'.pages[p]]
    requires forall q :: 0 <= q < |s.pages| && q != p ==> (q in s'.done <==> q in s.done)
    requires PageInv(y.configs[p], y.guarded[p], s'.pages[p], Acc(y, s', p))
    ensures PagesOk(y, s')
  {
    forall q | 0 <= q < |s'.pages|
      ensures PageInv(y.configs[q], y.guarded[q], s'.pages[q], Acc(y, s', q))
    {
      if q != p {
        assert Acc(y, s', q) == Acc(y, s, q);
      }
    }
  }

  /** The acquire of one page, if no handler owes the node a notice about it. */
  lemma AcquireStepKeeps(y: Layout, s: System, t: nat, p: nat)
    requires Inv(y, s) && Enabled(y, s, AcquirePage(t, p)) && !Owed(y.configs[p], s.pages[p], y.nodeOf[t])
    ensures PagesOk(y, Apply(y, s, AcquirePage(t, p)))
  {
    var s', k := Apply(y, s, AcquirePage(t, p)), y.nodeOf[t];
    AccUnique(y, s, p);
    AcquireKeepsPage(y.configs[p], y.guarded[p], s.pages[p], Acc(y, s, p), k);
    assert Acc(y, s', p) == Acc(y, s, p)[k := Trusted];
    OnePageKeeps(y, s, s', p);
  }

  lemma ReleaseStepKeeps(y: Layout, s: System, t: nat, p: nat)
    requires Inv(y, s) && Enabled(y, s, ReleasePage(t, p))
    ensures PagesOk(y, Apply(y, s, ReleasePage(t, p)))
  {
    var s', k := Apply(y, s, ReleasePage(t, p)), y.nodeOf[t];
    ReleaseKeepsPage(y.configs[p], y.guarded[p], s.pages[p], Acc(y, s, p), k);
    OwnerStep(y, s, ReleasePage(t, p));
    AccUnique(y, s', p);
    AccessKeeps(y.configs[p], y.guarded[p], s'.pages[p], Acc(y, s, p), Acc(y, s', p));
    OnePageKeeps(y, s, s', p);
  }

  // ----- runs -----

  /** What is known of the handlers in flight when a step is taken. */
  datatype Discipline = Anything | NothingOwed | AtomicHandlers

  /** The node whose handler takes the step. */
  ghost function HandlerOf(c: Config, l: Label): (k: int) {
    match l
    case Load(k, _) => k
    case Write(k, _) => k
    case Home(_) => c.home
    case _ => -1
  }

  ghost predicate Moves(y: Layout, e: Event, p: nat, k: Node) {
    e.PageStep? && e.p == p < |y.configs| && HandlerOf(y.configs[p], e.l) == k
  }

  /** Once a handler has started, nothing else happens until it has finished. */
  ghost predicate NoOtherHandler(y: Layout, s: System, e: Event)
    requires WellSized(y, s)
  {
    forall p, k :: 0 <= p < |s.pages| && 0 <= k < y.nodes && !s.pages[p].node[k].op.Idle? ==> Moves(y, e, p, k)
  }

  ghost predicate Disciplined(y: Layout, s: System, e: Event, how: Discipline)
    requires WellSized(y, s) && Enabled(y, s, e)
  {
    match how
    case Anything => true
    case NothingOwed => e.AcquirePage? ==> !Owed(y.configs[e.p], s.pages[e.p], y.nodeOf[e.t])
    case AtomicHandlers => NoOtherHandler(y, s, e)
  }

  ghost predicate IsRun(y: Layout, s: System, events: seq<Event>, s': System, how: Discipline)
    requires WellSized(y, s)
    decreases |events|
  {
    if events == [] then s' == s
    else
      && Enabled(y, s, events[0]) && Disciplined(y, s, events[0], how)
      && IsRun(y, Apply(y, s, events[0]), events[1..], s', how)
  }

  /** If handlers are atomic, no acquire finds a notice owed. */
  lemma {:induction false} AtomicOwesNothing(y: Layout, s: System, events: seq<Event>, s': System)
    requires WellSized(y, s) && IsRun(y, s, events, s', AtomicHandlers)
    ensures IsRun(y, s, events, s', NothingOwed)
    decreases |events|
  {
    if events != [] {
      var e := events[0];
      AtomicOwesNothing(y, Apply(y, s, e), events[1..], s');
      if e.AcquirePage? {
        assert Quiescent(s.pages[e.p]);
      }
    }
  }

  lemma InvStep(y: Layout, s: System, e: Event)
    requires Inv(y, s) && Enabled(y, s, e) && Disciplined(y, s, e, NothingOwed)
    ensures Inv(y, Apply(y, s, e))
  {
    OwnerStep(y, s, e);
    match e
    case AcquirePage(t, p) => AcquireStepKeeps(y, s, t, p);
    case ReleasePage(t, p) => ReleaseStepKeeps(y, s, t, p);
    case PageStep(_, _) => PageStepKeeps(y, s, e);
    case OtherStore(_, _, _, _) => PageStepKeeps(y, s, e);
    case GuardedStore(_, _, _, _) => PageStepKeeps(y, s, e);
    case _ =>
      forall p | 0 <= p < |s.pages|
        ensures PageInv(y.configs[p], y.guarded[p], Apply(y, s, e).pages[p], Acc(y, Apply(y, s, e), p))
      {
        LockStepKeeps(y, s, e, p);
      }
  }

  lemma {:induction false} InvRun(y: Layout, s: System, events: seq<Event>, s': System)
    requires Inv(y, s) && IsRun(y, s, events, s', NothingOwed)
    ensures Inv(y, s')
    decreases |events|
  {
    if events != [] {
      InvStep(y, s, events[0]);
      InvRun(y, Apply(y, s, events[0]), events[1..], s');
    }
  }

  /** The lock has never been taken, and the guarded bytes are coherent: see `LockedPage.BarrierGivesAccess`. */
  ghost predicate Initial(y: Layout, s: System) {
    && WellSized(y, s) && s.word == Init && s.owner == Nobody
    && (forall t :: 0 <= t < |s.pc| ==> s.pc[t] == Out)
    && (forall p :: 0 <= p < |s.pages| ==>
          PageInv(y.configs[p], y.guarded[p], s.pages[p], seq(y.nodes, _ => Trusted)))
  }

  lemma InitialInv(y: Layout, s: System)
    requires Initial(y, s)
    ensures Inv(y, s)
  {
    forall p | 0 <= p < |s.pages|
      ensures PageInv(y.configs[p], y.guarded[p], s.pages[p], Acc(y, s, p))
    {
      assert Acc(y, s, p) == seq(y.nodes, _ => Trusted);
    }
  }

  /** The value of byte b of page p after the guarded stores of a run, in order. */
  ghost function LastWrite(events: seq<Event>, p: nat, b: nat, v0: Byte): (v: Byte)
    decreases |events|
  {
    if events == [] then v0
    else
      var e := events[0];
      LastWrite(events[1..], p, b, if e.GuardedStore? && e.p == p && e.at == b then e.v else v0)
  }

  /** Only a guarded store changes what a guarded byte should be. */
  lemma TruthStep(y: Layout, s: System, e: Event, p: nat, b: nat)
    requires WellSized(y, s) && Enabled(y, s, e) && p < |s.pages| && b < y.configs[p].size && b in y.guarded[p]
    ensures Apply(y, s, e).pages[p].truth[b] == LastWrite([e], p, b, s.pages[p].truth[b])
  {
    if e.PageStep? && e.p == p {
      TruthStays(y.configs[p], s.pages[p], e.l);
    }
  }

  lemma TruthStays(c: Config, s: State, l: Label)
    requires WellFormed(c, s) && PageProtocol.Enabled(c, s, l) && Unsynchronised(l)
    ensures PageProtocol.Apply(c, s, l).truth == s.truth
  {
  }

  lemma {:induction false} TruthIsLastWrite(y: Layout, s: System, events: seq<Event>, s': System, how: Discipline,
                                            p: nat, b: nat)
    requires WellSized(y, s) && IsRun(y, s, events, s', how)
    requires p < |s.pages| && b < y.configs[p].size && b in y.guarded[p]
    ensures WellSized(y, s') && |s'.pages| == |s.pages|
    ensures s'.pages[p].truth[b] == LastWrite(events, p, b, s.pages[p].truth[b])
    decreases |events|
  {
    if events != [] {
      TruthStep(y, s, events[0], p, b);
      TruthIsLastWrite(y, Apply(y, s, events[0]), events[1..], s', how, p, b);
    }
  }

  /**
   The skipped acquire is safe, and so is the one that is made: in every run in which no acquire
   meets a page about which its node is still owed a notice, the thread that holds the lock sees
   every guarded byte as it was last stored under the lock.
   */
  lemma HolderReadsLastWrite(y: Layout, s: System, events: seq<Event>, s': System, t: nat, p: nat, b: nat)
    requires Initial(y, s) && IsRun(y, s, events, s', NothingOwed)
    requires At(s', t, Holding) && p < |s.pages| && b < y.configs[p].size && b in y.guarded[p]
    ensures WellSized(y, s')
    ensures View(y.configs[p], s'.pages[p], y.nodeOf[t])[b] == LastWrite(events, p, b, s.pages[p].memory[b])
  {
    InitialInv(y, s);
    InvRun(y, s, events, s');
    TruthIsLastWrite(y, s, events, s', NothingOwed, p, b);
    HolderSees(y, s', t, p, b);
    StartsCoherent(y, s, p, b);
  }

  lemma HolderSees(y: Layout, s: System, t: nat, p: nat, b: nat)
    requires Inv(y, s) && At(s, t, Holding) && p < |s.pages| && b < y.configs[p].size && b in y.guarded[p]
    ensures View(y.configs[p], s.pages[p], y.nodeOf[t])[b] == s.pages[p].truth[b]
  {
    assert s.owner == Thread(t);
    AccessSees(y.configs[p], y.guarded[p], s.pages[p], Acc(y, s, p), y.nodeOf[t], b);
  }

  lemma StartsCoherent(y: Layout, s: System, p: nat, b: nat)
    requires Initial(y, s) && p < |s.pages| && b < y.configs[p].size && b in y.guarded[p]
    ensures s.pages[p].memory[b] == s.pages[p].truth[b]
  {
    MemoryLoads(y.configs[p], y.guarded[p], s.pages[p], seq(y.nodes, _ => Trusted), y.configs[p].home, b);
  }

  /** In particular in every run in which each fault handler is one atomic step. */
  lemma AtomicReadsLastWrite(y: Layout, s: System, events: seq<Event>, s': System, t: nat, p: nat, b: nat)
    requires Initial(y, s) && IsRun(y, s, events, s', AtomicHandlers)
    requires At(s', t, Holding) && p < |s.pages| && b < y.configs[p].size && b in y.guarded[p]
    ensures WellSized(y, s')
    ensures View(y.configs[p], s'.pages[p], y.nodeOf[t])[b] == LastWrite(events, p, b, s.pages[p].memory[b])
  {
    AtomicOwesNothing(y, s, events, s');
    HolderReadsLastWrite(y, s, events, s', t, p, b);
  }

  lemma {:induction false} OwnerRun(y: Layout, s: System, events: seq<Event>, s': System)
    requires WellSized(y, s) && OwnerOk(s) && IsRun(y, s, events, s', Anything)
    ensures OwnerOk(s')
    decreases |events|
  {
    if events != [] {
      OwnerStep(y, s, events[0]);
      OwnerRun(y, Apply(y, s, events[0]), events[1..], s');
    }
  }

  /** Whatever the handlers do, at most one thread is between its successful exchange and its store. */
  lemma MutualExclusion(y: Layout, s: System, events: seq<Event>, s': System, t: nat, u: nat)
    requires Initial(y, s) && IsRun(y, s, events, s', Anything)
    requires t < |s'.pc| && u < |s'.pc| && s'.pc[t] != Out && s'.pc[u] != Out
    ensures t == u && s'.word == Locked
  {
    OwnerRun(y, s, events, s');
  }
}
