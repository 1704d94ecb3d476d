/**
 Progress of the global lock: from every state of a run, whatever handlers are in flight, every thread
 can come to hold the lock. And when its acquire is skipped.
 */
module TasProgress {
  import opened LockWord
  import opened PageProtocol
  import opened DirectorySafety
  import opened LockedPage
  import opened TasLock
  import opened Sequences
  import PageProgress

  /** The lock is consistent, and so is the directory of every page. */
  ghost predicate Good(y: Layout, s: System) {
    && WellSized(y, s) && OwnerOk(s)
    && forall p :: 0 <= p < |s.pages| ==> DirInv(y.configs[p], s.pages[p]) && AllRunning(s.pages[p])
  }

  lemma PageStepGood(c: Config, s: State, l: Label)
    requires DirInv(c, s) && AllRunning(s) && PageProtocol.Enabled(c, s, l) && Unsynchronised(l)
    ensures DirInv(c, PageProtocol.Apply(c, s, l)) && AllRunning(PageProtocol.Apply(c, s, l))
  {
    DirInvStep(c, s, l);
    StaysRunning(c, s, l);
  }

  lemma ReleasedGood(c: Config, s: State, k: Node)
    requires DirInv(c, s) && AllRunning(s) && AtRest(c, s, k)
    ensures DirInv(c, ReleasedPage(c, s, k)) && AllRunning(ReleasedPage(c, s, k))
  {
    if s.node[k].copy.Dirty? {
      PageStepGood(c, s, WriteBack(k));
    }
  }

  lemma AcquiredGood(c: Config, s: State, k: Node)
    requires DirInv(c, s) && AllRunning(s) && AtRest(c, s, k)
    ensures DirInv(c, AcquiredPage(c, s, k)) && AllRunning(AcquiredPage(c, s, k))
  {
    ReleasedGood(c, s, k);
    var u := ReleasedPage(c, s, k);
    if u.node[k].copy.Clean? && !Keeps(k, u.node[k]) {
      PageStepGood(c, u, Evict(k));
    }
  }

  lemma StoredGood(c: Config, s: State, k: Node, at: nat, v: Byte)
    requires DirInv(c, s) && AllRunning(s) && CanStore(c, s, k, at)
    ensures DirInv(c, Stored(c, s, k, at, v)) && AllRunning(Stored(c, s, k, at, v))
  {
    var u := Unphased(c, s);
    forall j | 0 <= j < c.nodes
      ensures Told(c, u, j)
    {
      assert Told(c, s, j);
    }
    DirInvStep(c, u, Store(k, at, v));
  }

  /** The pages after a step. */
  lemma PagesGood(y: Layout, s: System, e: Event, q: nat)
    requires Good(y, s) && TasLock.Enabled(y, s, e) && q < |s.pages|
    ensures var page := TasLock.Apply(y, s, e).pages[q]; DirInv(y.configs[q], page) && AllRunning(page)
  {
    match e
    case AcquirePage(t, p) => AcquiredGood(y.configs[p], s.pages[p], y.nodeOf[t]);
    case ReleasePage(t, p) => ReleasedGood(y.configs[p], s.pages[p], y.nodeOf[t]);
    case PageStep(p, l) => PageStepGood(y.configs[p], s.pages[p], l);
    case OtherStore(p, k, at, v) => StoredGood(y.configs[p], s.pages[p], k, at, v);
    case GuardedStore(t, p, at, v) => StoredGood(y.configs[p], s.pages[p], y.nodeOf[t], at, v);
    case _ =>
  }

  lemma GoodStep(y: Layout, s: System, e: Event)
    requires Good(y, s) && TasLock.Enabled(y, s, e)
    ensures Good(y, TasLock.Apply(y, s, e))
  {
    OwnerStep(y, s, e);
    forall q | 0 <= q < |s.pages|
      ensures var page := TasLock.Apply(y, s, e).pages[q]; DirInv(y.configs[q], page) && AllRunning(page)
    {
      PagesGood(y, s, e, q);
    }
  }

  lemma {:induction false} GoodRun(y: Layout, s: System, events: seq<Event>, s': System)
    requires Good(y, s) && TasLock.IsRun(y, s, events, s', Anything)
    ensures Good(y, s')
    decreases |events|
  {
    if events != [] {
      GoodStep(y, s, events[0]);
      GoodRun(y, TasLock.Apply(y, s, events[0]), events[1..], s');
    }
  }

  /** `events` lead from s to s'. */
  ghost predicate Leads(y: Layout, s: System, events: seq<Event>, s': System) {
    Good(y, s) && TasLock.IsRun(y, s, events, s', Anything) && Good(y, s')
  }

  lemma LeadsCons(y: Layout, s: System, e: Event, rest: seq<Event>, s': System)
    requires Good(y, s) && TasLock.Enabled(y, s, e) && Leads(y, TasLock.Apply(y, s, e), rest, s')
    ensures Leads(y, s, [e] + rest, s')
  {
    AppendTail([e], rest);
  }

  lemma {:induction false} RunsJoin(y: Layout, s: System, a: seq<Event>, t: System, b: seq<Event>, u: System)
    requires WellSized(y, s) && TasLock.IsRun(y, s, a, t, Anything)
    requires WellSized(y, t) && TasLock.IsRun(y, t, b, u, Anything)
    ensures TasLock.IsRun(y, s, a + b, u, Anything)
    decreases |a|
  {
    if a == [] {
      assert a + b == b;
    } else {
      RunsJoin(y, TasLock.Apply(y, s, a[0]), a[1..], t, b, u);
      AppendTail(a, b);
    }
  }

  lemma LeadsJoin(y: Layout, s: System, a: seq<Event>, t: System, b: seq<Event>, u: System)
    requires Leads(y, s, a, t) && Leads(y, t, b, u)
    ensures Leads(y, s, a + b, u)
  {
    RunsJoin(y, s, a, t, b, u);
  }

  lemma LeadsThen(y: Layout, s: System, a: seq<Event>, t: System, e: Event)
    requires Leads(y, s, a, t) && TasLock.Enabled(y, t, e)
    ensures Leads(y, s, a + [e], TasLock.Apply(y, t, e))
  {
    GoodStep(y, t, e);
    var u := TasLock.Apply(y, t, e);
    assert [e][1..] == [] && TasLock.IsRun(y, u, [], u, Anything);
    LeadsJoin(y, s, a, t, [e], u);
  }

  /** The steps of a page, as events. */
  lemma {:induction false} PageRun(y: Layout, s: System, p: nat, run: seq<Label>, page: State)
    returns (events: seq<Event>)
    requires Good(y, s) && p < |s.pages| && PageProtocol.IsRun(y.configs[p], s.pages[p], run, page)
    requires forall i :: 0 <= i < |run| ==> HandlerLabel(run[i])
    ensures Leads(y, s, events, SetPage(s, p, page))
    decreases |run|
  {
    if run == [] {
      events := [];
      assert SetPage(s, p, page) == s;
    } else {
      var e := PageStep(p, run[0]);
      GoodStep(y, s, e);
      var s1 := TasLock.Apply(y, s, e);
      var rest := PageRun(y, s1, p, run[1..], page);
      assert SetPage(s1, p, page) == SetPage(s, p, page);
      LeadsCons(y, s, e, rest, SetPage(s, p, page));
      events := [e] + rest;
    }
  }

  /** Node k finishes the handler it has in flight for page p. */
  lemma Tidy(y: Layout, s: System, p: nat, k: Node) returns (events: seq<Event>, s': System)
    requires Good(y, s) && p < |s.pages| && k < y.nodes
    ensures Leads(y, s, events, s') && s' == s.(pages := s'.pages) && AtRest(y.configs[p], s'.pages[p], k)
  {
    var c := y.configs[p];
    var run, page := PageProgress.Finish(c, s.pages[p], k);
    forall i | 0 <= i < |run|
      ensures HandlerLabel(run[i])
    {
      assert PageProgress.OwnLabel(c, run[i], k);
    }
    events := PageRun(y, s, p, run, page);
    s' := SetPage(s, p, page);
    assert NodeOk(c, k, page.node[k], page.node[c.home].sharers, page.node[c.home].writers);
  }

  /** Acquire and release, page by page. */
  lemma {:induction false} AllPages(y: Layout, s: System, t: nat, n: nat) returns (events: seq<Event>, s': System)
    requires Good(y, s) && (At(s, t, Acquiring) || At(s, t, Releasing)) && n <= |s.pages|
    requires forall p :: n <= p < |s.pages| ==> p in s.done
    ensures Leads(y, s, events, s') && s'.pc == s.pc && AllDone(s')
    decreases n
  {
    if n == 0 {
      events, s' := [], s;
    } else if n - 1 in s.done {
      events, s' := AllPages(y, s, t, n - 1);
    } else {
      var tidy, u := Tidy(y, s, n - 1, y.nodeOf[t]);
      var e := if At(s, t, Acquiring) then AcquirePage(t, n - 1) else ReleasePage(t, n - 1);
      LeadsThen(y, s, tidy, u, e);
      var rest;
      rest, s' := AllPages(y, TasLock.Apply(y, u, e), t, n - 1);
      LeadsJoin(y, s, tidy + [e], TasLock.Apply(y, u, e), rest, s');
      events := tidy + [e] + rest;
    }
  }

  /** A thread that has taken the lock comes to hold it. */
  lemma ComesToHold(y: Layout, s: System, t: nat) returns (events: seq<Event>, s': System)
    requires Good(y, s) && (At(s, t, Acquiring) || At(s, t, Holding))
    ensures Leads(y, s, events, s') && At(s', t, Holding)
  {
    if At(s, t, Holding) {
      events, s' := [], s;
    } else {
      events, s' := AllPages(y, s, t, |s.pages|);
      LeadsThen(y, s, events, s', AcquireDone(t));
      events, s' := events + [AcquireDone(t)], TasLock.Apply(y, s', AcquireDone(t));
    }
  }

  /** A thread that has begun to release the lock gives it back. */
  lemma Releases(y: Layout, s: System, t: nat) returns (events: seq<Event>, s': System)
    requires Good(y, s) && (At(s, t, Releasing) || At(s, t, Released))
    ensures Leads(y, s, events, s') && At(s', t, Out) && s'.word == User(y.nodeOf[t])
  {
    events, s' := [], s;
    if At(s, t, Releasing) {
      events, s' := AllPages(y, s, t, |s.pages|);
      LeadsThen(y, s, events, s', ReleaseDone(t));
      events, s' := events + [ReleaseDone(t)], TasLock.Apply(y, s', ReleaseDone(t));
    }
    LeadsThen(y, s, events, s', StoreWord(t));
    events, s' := events + [StoreWord(t)], TasLock.Apply(y, s', StoreWord(t));
  }

  /** Whoever has the lock gives it back. */
  lemma GivesBack(y: Layout, s: System, t: nat) returns (events: seq<Event>, s': System)
    requires Good(y, s) && t < |s.pc| && s.pc[t] != Out
    ensures Leads(y, s, events, s') && s'.word != Locked
  {
    events, s' := [], s;
    if At(s, t, Acquiring) || At(s, t, Holding) {
      events, s' := ComesToHold(y, s, t);
      LeadsThen(y, s, events, s', ReleaseStart(t));
      events, s' := events + [ReleaseStart(t)], TasLock.Apply(y, s', ReleaseStart(t));
    }
    var rest, u := Releases(y, s', t);
    LeadsJoin(y, s, events, s', rest, u);
    events, s' := events + rest, u;
  }

  /** From every state of a run every thread can come to hold the lock. */
  lemma EveryThreadHolds(y: Layout, s0: System, past: seq<Event>, s: System, t: nat)
    returns (events: seq<Event>, s': System)
    requires TasLock.Initial(y, s0) && TasLock.IsRun(y, s0, past, s, Anything) && t < |s.pc|
    ensures WellSized(y, s) && TasLock.IsRun(y, s, events, s', Anything) && At(s', t, Holding)
  {
    GoodRun(y, s0, past, s);
    if s.pc[t] == Holding {
      events, s' := [], s;
    } else {
      events, s' := [], s;
      if s.word == Locked {
        events, s' := GivesBack(y, s, s.owner.t);
      }
      LeadsThen(y, s, events, s', TryLock(t));
      events, s' := events + [TryLock(t)], TasLock.Apply(y, s', TryLock(t));
      var rest, u := ComesToHold(y, s', t);
      LeadsJoin(y, s, events, s', rest, u);
      events, s' := events + rest, u;
    }
  }

  // ----- the skipped acquire -----

  datatype LastUser = NoUser | Last(n: Node)

  /** The node of the thread that gave the lock back last. */
  ghost function LastOf(y: Layout, events: seq<Event>, before: LastUser): (u: LastUser)
    decreases |events|
  {
    if events == [] then before
    else
      var e := events[0];
      LastOf(y, events[1..], if e.StoreWord? && e.t < |y.nodeOf| then Last(y.nodeOf[e.t]) else before)
  }

  ghost predicate WordOf(word: Word, u: LastUser) {
    word == Locked || word == (if u.NoUser? then Init else User(u.n))
  }

  lemma {:induction false} WordIsLast(y: Layout, s: System, events: seq<Event>, s': System, u: LastUser)
    requires WellSized(y, s) && OwnerOk(s) && TasLock.IsRun(y, s, events, s', Anything) && WordOf(s.word, u)
    ensures WellSized(y, s') && OwnerOk(s') && WordOf(s'.word, LastOf(y, events, u))
    decreases |events|
  {
    if events != [] {
      var e := events[0];
      OwnerStep(y, s, e);
      var u' := if e.StoreWord? && e.t < |y.nodeOf| then Last(y.nodeOf[e.t]) else u;
      WordIsLast(y, TasLock.Apply(y, s, e), events[1..], s', u');
    }
  }

  /**
   A thread that gets the lock skips the acquire if and only if nobody has given the lock back before, or
   it was a thread of its own node that did so last.
   */
  lemma SkippedExactly(y: Layout, s0: System, past: seq<Event>, s: System, t: nat)
    requires TasLock.Initial(y, s0) && TasLock.IsRun(y, s0, past, s, Anything) && At(s, t, Out) && s.word != Locked
    ensures WellSized(y, s)
    ensures At(TasLock.Apply(y, s, TryLock(t)), t, Holding) <==>
      LastOf(y, past, NoUser) in {NoUser, Last(y.nodeOf[t])}
    ensures !At(TasLock.Apply(y, s, TryLock(t)), t, Holding) ==> At(TasLock.Apply(y, s, TryLock(t)), t, Acquiring)
  {
    WordIsLast(y, s0, past, s, NoUser);
  }
}
