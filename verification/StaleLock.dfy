/**
 What the acquire of the lock is for, and what it cannot do while handlers are in flight.

 `Missed` is a run on the page of `StaleKeep`: the thread of node 3 takes the lock while node 2
 still owes its notices, stores and lets go; then the thread of node 1 takes the lock, acquires,
 and reads the old byte. `Needed` is a run in which the acquire does its work: without it the
 thread would read an old byte.
 */
module StaleLock {
  import opened LockWord
  import opened PageProtocol
  import opened DirectorySafety
  import opened BarrierCoherence
  import opened LockedPage
  import opened TasLock
  import opened StaleKeep

  /** Thread 0 runs on node 3 and thread 1 on node 1; the lock guards the only byte. */
  const OnePage := Layout(4, [Four], [{0}], [3, 1])

  ghost function PageAfter(i: nat): (s: State) {
    StaleKeep.At(if i < 1 then 19 else if i < 9 then 18 + i else if i < 11 then 27 else 28)
  }

  ghost function Missed(i: nat): (s: System) {
    var pc0 :=
      if i < 1 then Out else if i < 10 then Holding else if i < 12 then Releasing else if i < 13 then Released else Out;
    var pc1 := if i < 14 then Out else if i < 16 then Acquiring else Holding;
    System(if i < 1 then Init else if i < 13 then Locked else if i < 14 then User(3) else Locked,
           [pc0, pc1],
           if i < 1 then Nobody else if i < 13 then Thread(0) else if i < 14 then Nobody else Thread(1),
           if i == 11 || i == 15 then {0} else {},
           [PageAfter(i)])
  }

  ghost function MissedEvent(i: nat): (e: Event) {
    if i == 0 then TryLock(0)
    else if i < 8 then PageStep(0, StaleKeep.Step(18 + i))
    else if i == 8 then GuardedStore(0, 0, 0, 8)
    else if i == 9 then ReleaseStart(0)
    else if i == 10 then ReleasePage(0, 0)
    else if i == 11 then ReleaseDone(0)
    else if i == 12 then StoreWord(0)
    else if i == 13 then TryLock(1)
    else if i == 14 then AcquirePage(1, 0)
    else AcquireDone(1)
  }

  ghost predicate MissedLeads(i: nat) {
    && WellSized(OnePage, Missed(i)) && TasLock.Enabled(OnePage, Missed(i), MissedEvent(i))
    && TasLock.Apply(OnePage, Missed(i), MissedEvent(i)) == Missed(i + 1)
  }

  lemma MissedTakes()
    ensures MissedLeads(0)
  {
    EveryStepLeads(19);
  }

  lemma MissedHandles(i: nat)
    requires 1 <= i < 8
    ensures MissedLeads(i)
  {
    EveryStepLeads(18 + i);
    PageMoves(Missed(i), 18 + i);
  }

  /** A step of the page is a step of the system. */
  lemma PageMoves(s: System, j: nat)
    requires 19 <= j < 26 && s.pages == [StaleKeep.At(j)] && |s.pc| == 2 && Leads(j)
    ensures WellSized(OnePage, s) && TasLock.Enabled(OnePage, s, PageStep(0, StaleKeep.Step(j)))
    ensures TasLock.Apply(OnePage, s, PageStep(0, StaleKeep.Step(j))) == s.(pages := [StaleKeep.At(j + 1)])
  {
  }

  lemma StoredPage(i: nat)
    requires i == 26
    ensures WellFormed(Four, StaleKeep.At(i)) && CanStore(Four, StaleKeep.At(i), 3, 0)
    ensures Stored(Four, StaleKeep.At(i), 3, 0, 8) == StaleKeep.At(i + 1)
  {
    EveryStepLeads(i);
    UnphasedPage(i);
    StoreIsLabel(StaleKeep.At(i));
  }

  lemma StoreIsLabel(s: State)
    requires WellFormed(Four, s) && Unphased(Four, s) == s && PageProtocol.Enabled(Four, s, Store(3, 0, 8))
    ensures CanStore(Four, s, 3, 0) && Stored(Four, s, 3, 0, 8) == PageProtocol.Apply(Four, s, Store(3, 0, 8))
  {
  }

  lemma UnphasedPage(i: nat)
    requires i == 26
    ensures Unphased(Four, StaleKeep.At(i)) == StaleKeep.At(i)
  {
  }

  lemma MissedStores()
    ensures MissedLeads(8)
  {
    StoredPage(26);
  }

  lemma FlushedPage(i: nat)
    requires i == 27
    ensures WellFormed(Four, StaleKeep.At(i)) && AtRest(Four, StaleKeep.At(i), 3)
    ensures ReleasedPage(Four, StaleKeep.At(i), 3) == StaleKeep.At(i + 1)
  {
    EveryStepLeads(i);
  }

  lemma MissedFlushes(i: nat)
    requires 9 <= i < 11
    ensures MissedLeads(i)
  {
    FlushedPage(27);
  }

  lemma MissedReleases(i: nat)
    requires 11 <= i < 13
    ensures MissedLeads(i)
  {
    RunFrom(Steps);
  }

  lemma MissedTakesAgain()
    ensures MissedLeads(13)
  {
    RunFrom(Steps);
  }

  lemma MissedAcquires(i: nat)
    requires i == 14
    ensures MissedLeads(i)
  {
    AcquireKeepsStale();
    PageStays(Missed(i), StaleKeep.At(Steps));
  }

  lemma MissedHolds(i: nat)
    requires i == 15
    ensures MissedLeads(i)
  {
    RunFrom(Steps);
  }

  /** An acquire that keeps the page as it is. */
  lemma PageStays(s: System, page: State)
    requires s.pages == [page] && s.pc == [Out, Acquiring] && s.done == {} && WellFormed(Four, page)
    requires AtRest(Four, page, 1) && AcquiredPage(Four, page, 1) == page
    ensures WellSized(OnePage, s) && TasLock.Enabled(OnePage, s, AcquirePage(1, 0))
    ensures TasLock.Apply(OnePage, s, AcquirePage(1, 0)) == s.(done := {0})
  {
    assert s.done + {0} == {0};
  }

  lemma MissedStep(i: nat)
    requires i < 16
    ensures MissedLeads(i)
  {
    if i == 0 {
      MissedTakes();
    } else if i < 8 {
      MissedHandles(i);
    } else if i == 8 {
      MissedStores();
    } else if i < 11 {
      MissedFlushes(i);
    } else if i < 13 {
      MissedReleases(i);
    } else if i == 13 {
      MissedTakesAgain();
    } else if i == 14 {
      MissedAcquires(i);
    } else {
      MissedHolds(i);
    }
  }

  ghost function MissedFrom(i: nat): (events: seq<Event>)
    decreases 16 - i
  {
    if i >= 16 then [] else [MissedEvent(i)] + MissedFrom(i + 1)
  }

  lemma {:induction false} MissedRun(i: nat)
    requires i <= 16
    ensures WellSized(OnePage, Missed(i)) && TasLock.IsRun(OnePage, Missed(i), MissedFrom(i), Missed(16), Anything)
    ensures LastWrite(MissedFrom(i), 0, 0, if i <= 8 then 7 else 8) == 8
    decreases 16 - i
  {
    if i < 16 {
      MissedStep(i);
      MissedRun(i + 1);
      assert MissedFrom(i)[1..] == MissedFrom(i + 1);
    } else {
      AcquireKeepsStale();
    }
  }

  /** The run begins coherently: only node 2's handler is in flight, and nobody has stored. */
  lemma MissedBegins()
    ensures TasLock.Initial(OnePage, Missed(0))
  {
    DirInvTo(19);
    CoherentPage(StaleKeep.At(19));
  }

  /** A page of which every copy is clean and the same as memory. */
  lemma CoherentPage(s: State)
    requires DirInv(Four, s) && AllRunning(s) && s.memory == s.truth == [7]
    requires forall k :: 0 <= k < 4 ==>
      !s.node[k].op.LoadGot? && (s.node[k].copy == Absent || s.node[k].copy == Clean([7]))
    ensures PageInv(Four, {0}, s, seq(4, _ => Trusted))
  {
    var acc := seq(4, _ => Trusted);
    forall k, b | 0 <= k < 4 && 0 <= b < 1 && b in {0}
      ensures NodeByte(Four, k, s.node[k], acc[k], s.wrote, b, s.memory[b], s.truth[b])
    {
    }
  }

  lemma {:induction false} DirInvTo(i: nat)
    requires i <= Steps
    ensures DirInv(Four, StaleKeep.At(i))
  {
    if i == 0 {
      InitialDirInv(Four, [7]);
      assert PageProtocol.Initial(Four, [7]) == StaleKeep.At(0);
    } else {
      DirInvTo(i - 1);
      EveryStepLeads(i - 1);
      DirInvStep(Four, StaleKeep.At(i - 1), StaleKeep.Step(i - 1));
    }
  }

  /**
   Without the discipline the theorem fails: a run from a coherent start after which the holder of
   the lock, having acquired, does not see the last store under the lock.
   */
  lemma HolderReadsStale()
    ensures TasLock.Initial(OnePage, Missed(0))
    ensures TasLock.IsRun(OnePage, Missed(0), MissedFrom(0), Missed(16), Anything)
    ensures TasLock.At(Missed(16), 1, Holding) && WellFormed(Four, Missed(16).pages[0])
    ensures LastWrite(MissedFrom(0), 0, 0, 7) == 8 && View(Four, Missed(16).pages[0], 1) == [7]
  {
    MissedBegins();
    MissedRun(0);
    AcquireKeepsStale();
  }

  // ----- the acquire that is needed -----

  const Two := Config(2, 0, 1)

  /** Thread t runs on node t; node 0 is the home of the page. */
  const TwoThreads := Layout(2, [Two], [{0}], [0, 1])

  /** The home may write the page, and node 1 has a copy and knows of that. */
  ghost function Shared(v: Byte, stored: bool): (s: State) {
    State([Rest({0, 1}, {0}, Absent, ReadWrite), Rest({1}, {0}, Clean([7]), ReadOnly)], [v], [v],
          [if stored then {0} else {}], if stored then {0} else {})
  }

  ghost function Needed(i: nat): (s: System) {
    var pc0 :=
      if i < 1 then Out else if i < 3 then Holding else if i < 5 then Releasing else if i < 6 then Released else Out;
    System(if i < 1 then Init else if i < 6 then Locked else if i < 7 then User(0) else Locked,
           [pc0, if i < 7 then Out else Acquiring],
           if i < 1 then Nobody else if i < 6 then Thread(0) else if i < 7 then Nobody else Thread(1),
           if i == 4 then {0} else {},
           [if i < 2 then Shared(7, false) else Shared(8, true)])
  }

  ghost function NeededEvent(i: nat): (e: Event) {
    if i == 0 then TryLock(0)
    else if i == 1 then GuardedStore(0, 0, 0, 8)
    else if i == 2 then ReleaseStart(0)
    else if i == 3 then ReleasePage(0, 0)
    else if i == 4 then ReleaseDone(0)
    else if i == 5 then StoreWord(0)
    else TryLock(1)
  }

  lemma NeededStep(i: nat)
    requires i < 7
    ensures WellSized(TwoThreads, Needed(i)) && TasLock.Enabled(TwoThreads, Needed(i), NeededEvent(i))
    ensures TasLock.Apply(TwoThreads, Needed(i), NeededEvent(i)) == Needed(i + 1)
    ensures NoOtherHandler(TwoThreads, Needed(i), NeededEvent(i))
  {
    if i == 1 {
      SharedStored();
    } else {
      NeededLockStep(i);
    }
  }

  lemma SharedStored()
    ensures WellFormed(Two, Shared(7, false)) && CanStore(Two, Shared(7, false), 0, 0)
    ensures Stored(Two, Shared(7, false), 0, 0, 8) == Shared(8, true)
  {
    var s := Shared(7, false);
    assert Unphased(Two, s) == s;
    assert s.wrote + {0} == {0} && s.memory[0 := 8] == [8];
  }

  lemma NeededLockStep(i: nat)
    requires i < 7 && i != 1
    ensures WellSized(TwoThreads, Needed(i)) && TasLock.Enabled(TwoThreads, Needed(i), NeededEvent(i))
    ensures TasLock.Apply(TwoThreads, Needed(i), NeededEvent(i)) == Needed(i + 1)
  {
    if i < 4 {
      NeededEarlyStep(i);
    } else {
      NeededLateStep(i);
    }
  }

  lemma NeededEarlyStep(i: nat)
    requires i < 4 && i != 1
    ensures WellSized(TwoThreads, Needed(i)) && TasLock.Enabled(TwoThreads, Needed(i), NeededEvent(i))
    ensures TasLock.Apply(TwoThreads, Needed(i), NeededEvent(i)) == Needed(i + 1)
  {
  }

  lemma NeededLateStep(i: nat)
    requires 4 <= i < 7
    ensures WellSized(TwoThreads, Needed(i)) && TasLock.Enabled(TwoThreads, Needed(i), NeededEvent(i))
    ensures TasLock.Apply(TwoThreads, Needed(i), NeededEvent(i)) == Needed(i + 1)
  {
  }

  ghost function NeededFrom(i: nat): (events: seq<Event>)
    decreases 7 - i
  {
    if i >= 7 then [] else [NeededEvent(i)] + NeededFrom(i + 1)
  }

  lemma {:induction false} NeededRun(i: nat)
    requires i <= 7
    ensures WellSized(TwoThreads, Needed(i))
    ensures TasLock.IsRun(TwoThreads, Needed(i), NeededFrom(i), Needed(7), AtomicHandlers)
    ensures LastWrite(NeededFrom(i), 0, 0, if i <= 1 then 7 else 8) == 8
    decreases 7 - i
  {
    if i < 7 {
      NeededStep(i);
      NeededRun(i + 1);
      assert NeededFrom(i)[1..] == NeededFrom(i + 1);
    }
  }

  lemma NeededBegins()
    ensures TasLock.Initial(TwoThreads, Needed(0))
  {
    var s := Shared(7, false);
    assert 0 in s.node[1].writers && 0 in s.node[0].writers;
    forall k | 0 <= k < 2
      ensures Told(Two, s, k) && NodeOk(Two, k, s.node[k], s.node[0].sharers, s.node[0].writers)
    {
    }
    var acc := seq(2, _ => Trusted);
    forall k, b | 0 <= k < 2 && 0 <= b < 1 && b in {0}
      ensures NodeByte(Two, k, s.node[k], acc[k], s.wrote, b, s.memory[b], s.truth[b])
    {
    }
  }

  lemma AcquireHelps()
    ensures WellFormed(Two, Shared(8, true)) && AtRest(Two, Shared(8, true), 1)
    ensures View(Two, Shared(8, true), 1) == [7] && View(Two, AcquiredPage(Two, Shared(8, true), 1), 1) == [8]
  {
    assert 0 in Shared(8, true).node[1].writers;
  }

  /** After another node, skipping the acquire would read the old byte; the acquire drops it. */
  lemma StaleWithoutAcquire()
    ensures TasLock.Initial(TwoThreads, Needed(0))
    ensures TasLock.IsRun(TwoThreads, Needed(0), NeededFrom(0), Needed(7), AtomicHandlers)
    ensures TasLock.At(Needed(7), 1, Acquiring) && LastWrite(NeededFrom(0), 0, 0, 7) == 8
    ensures WellFormed(Two, Shared(8, true)) && AtRest(Two, Shared(8, true), 1)
    ensures Needed(7).pages == [Shared(8, true)] && View(Two, Shared(8, true), 1) == [7]
    ensures View(Two, AcquiredPage(Two, Shared(8, true), 1), 1) == [8]
  {
    NeededBegins();
    NeededRun(0);
    AcquireHelps();
  }
}
