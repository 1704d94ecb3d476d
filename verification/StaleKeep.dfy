/**
 Why the keep test needs handlers to have finished. Four nodes, one page of one byte; node 0 is
 the home. Nodes 1, 2 and 3 load the page. Node 2 registers as the first writer, and is going to send
 notices to nodes 1 and 3. Node 3 becomes the second writer, tells node 2 only, stores and writes back.
 Now node 1 still believes that nobody has written the page, and an acquire there keeps its old
 copy. `At(i)` is the state after i steps.
 */
module StaleKeep {
  import opened PageProtocol
  import opened DirectorySafety
  import opened BarrierCoherence
  import opened LockedPage

  const Four := Config(4, 0, 1)
  const Steps: nat := 28

  ghost function Rest(sharers: set<Node>, writers: set<Node>, copy: Copy, prot: Prot): (n: NodeState) {
    NodeState(sharers, writers, Idle, copy, prot, Running)
  }

  ghost function Loading(sharers: set<Node>, op: Op): (n: NodeState) {
    NodeState(sharers, {}, op, Absent, NoAccess, Running)
  }

  ghost function Writes(sharers: set<Node>, writers: set<Node>, op: Op): (n: NodeState) {
    NodeState(sharers, writers, op, Clean([7]), ReadOnly, Running)
  }

  ghost function Node0(i: nat): (n: NodeState) {
    var sharers := if i < 2 then {} else if i < 7 then {1} else if i < 13 then {1, 2} else {1, 2, 3};
    var writers := if i < 19 then {} else if i < 22 then {2} else {2, 3};
    Rest(sharers, writers, Absent, NoAccess)
  }

  ghost function Node1(i: nat): (n: NodeState) {
    if i == 0 then Loading({}, Idle)
    else if i == 1 then Loading({}, LoadChecked(true))
    else if i == 2 then Loading({}, LoadFetched(true, {}, {}))
    else if i == 3 then Loading({1}, LoadMerged({}))
    else if i == 4 then Loading({1}, LoadGot([7]))
    else Rest(if i < 9 then {1} else {1, 2}, {}, Clean([7]), ReadOnly)
  }

  ghost function Node2(i: nat): (n: NodeState) {
    if i < 6 then Loading({}, Idle)
    else if i == 6 then Loading({}, LoadChecked(true))
    else if i == 7 then Loading({}, LoadFetched(true, {1}, {}))
    else if i == 8 then Loading({1, 2}, LoadMerged({1}))
    else if i == 9 then Loading({1, 2}, LoadMerged({}))
    else if i == 10 then Loading({1, 2}, LoadGot([7]))
    else if i < 17 then Rest({1, 2}, {}, Clean([7]), ReadOnly)
    else if i == 17 then Writes({1, 2}, {}, WriteChecked)
    else if i == 18 then Writes({1, 2}, {2}, WriteMarked)
    else Writes({1, 2}, if i < 25 then {2} else {2, 3}, WriteAdded({2}))
  }

  ghost function Node3(i: nat): (n: NodeState) {
    if i < 12 then Loading({}, Idle)
    else if i == 12 then Loading({}, LoadChecked(true))
    else if i == 13 then Loading({}, LoadFetched(true, {1, 2}, {}))
    else if i == 14 then Loading({1, 2, 3}, LoadMerged({}))
    else if i == 15 then Loading({1, 2, 3}, LoadGot([7]))
    else if i < 20 then Rest({1, 2, 3}, {}, Clean([7]), ReadOnly)
    else if i == 20 then Writes({1, 2, 3}, {}, WriteChecked)
    else if i == 21 then Writes({1, 2, 3}, {3}, WriteMarked)
    else if i == 22 then Writes({1, 2, 3}, {3}, WriteAdded({2, 3}))
    else if i == 23 then Writes({1, 2, 3}, {3}, WriteRegistered({1, 2, 3}, {2}))
    else if i == 24 then Writes({1, 2, 3}, {3}, WriteNotifying({2}))
    else if i == 25 then Writes({1, 2, 3}, {3}, WriteNotifying({}))
    else if i == 26 then Rest({1, 2, 3}, {3}, Dirty([7], [7]), ReadWrite)
    else if i == 27 then Rest({1, 2, 3}, {3}, Dirty([8], [7]), ReadWrite)
    else Rest({1, 2, 3}, {3}, Clean([8]), ReadOnly)
  }

  ghost function At(i: nat): (s: State) {
    State([Node0(i), Node1(i), Node2(i), Node3(i)], if i < 28 then [7] else [8], if i < 27 then [7] else [8],
          [if i < 27 then {} else {3}], if i < 27 then {} else {3})
  }

  /** The step that leads from At(i) to At(i + 1). */
  ghost function Step(i: nat): (l: Label) {
    if i == 0 then Load(1, LoadCheck)
    else if i == 1 then Load(1, LoadRegister(false))
    else if i == 2 then Load(1, LoadMerge)
    else if i == 3 then Load(1, LoadGet)
    else if i == 4 then Load(1, LoadInstall)
    else if i == 5 then Load(2, LoadCheck)
    else if i == 6 then Load(2, LoadRegister(false))
    else if i == 7 then Load(2, LoadMerge)
    else if i == 8 then Load(2, LoadNotice(1))
    else if i == 9 then Load(2, LoadGet)
    else if i == 10 then Load(2, LoadInstall)
    else if i == 11 then Load(3, LoadCheck)
    else if i == 12 then Load(3, LoadRegister(false))
    else if i == 13 then Load(3, LoadMerge)
    else if i == 14 then Load(3, LoadGet)
    else if i == 15 then Load(3, LoadInstall)
    else if i == 16 then Write(2, WriteCheck)
    else if i == 17 then Write(2, WriteMark)
    else if i == 18 then Write(2, WriteRegister)
    else if i == 19 then Write(3, WriteCheck)
    else if i == 20 then Write(3, WriteMark)
    else if i == 21 then Write(3, WriteRegister)
    else if i == 22 then Write(3, WriteRead)
    else if i == 23 then Write(3, WriteMerge)
    else if i == 24 then Write(3, WriteNotice(2))
    else if i == 25 then Write(3, WriteFinish)
    else if i == 26 then Store(3, 0, 8)
    else WriteBack(3)
  }

  ghost predicate Leads(i: nat) {
    WellFormed(Four, At(i)) && Enabled(Four, At(i), Step(i)) && Apply(Four, At(i), Step(i)) == At(i + 1)
  }

  lemma FirstLoads(i: nat)
    requires i < 5
    ensures Leads(i)
  {
    assert {} - {1} == {} && {} + {1} == {1};
  }

  lemma SecondRegistersAsSharer(i: nat)
    requires 5 <= i < 7
    ensures Leads(i)
  {
    assert {1} + {2} == {1, 2};
  }

  lemma SecondMerges(i: nat)
    requires i == 7
    ensures Leads(i)
  {
    SecondMergeStep(At(i));
  }

  /** Node 2 has found one sharer, whom it will tell. */
  lemma SecondMergeStep(s: State)
    requires WellFormed(Four, s) && s.node[2] == Loading({}, LoadFetched(true, {1}, {}))
    ensures CanLoad(Four, s, 2, LoadMerge)
    ensures LoadNext(Four, s, 2, LoadMerge) == s.(node := s.node[2 := Loading({1, 2}, LoadMerged({1}))])
  {
    assert {1} - {2} == {1};
    assert s.node[2].sharers + {1} + {2} == {1, 2};
  }

  lemma SecondLoads(i: nat)
    requires 8 <= i < 11
    ensures Leads(i)
  {
    assert {1} - {1} == {} && {1} + {2} == {1, 2};
  }

  lemma ThirdRegistersAsSharer(i: nat)
    requires 11 <= i < 13
    ensures Leads(i)
  {
    assert {1, 2} + {3} == {1, 2, 3};
  }

  lemma ThirdMerges(i: nat)
    requires i == 13
    ensures Leads(i)
  {
    ThirdMergeStep(At(i));
  }

  /** Node 3 has found two sharers, and tells nobody. */
  lemma ThirdMergeStep(s: State)
    requires WellFormed(Four, s) && s.node[3] == Loading({}, LoadFetched(true, {1, 2}, {}))
    ensures CanLoad(Four, s, 3, LoadMerge)
    ensures LoadNext(Four, s, 3, LoadMerge) == s.(node := s.node[3 := Loading({1, 2, 3}, LoadMerged({}))])
  {
    assert {1, 2} - {3} == {1, 2} && |{1, 2}| == 2;
    assert s.node[3].sharers + {1, 2} + {3} == {1, 2, 3};
  }

  lemma ThirdLoads(i: nat)
    requires 14 <= i < 16
    ensures Leads(i)
  {
  }

  lemma SecondRegisters(i: nat)
    requires 16 <= i < 19
    ensures Leads(i)
  {
    assert {} + {2} == {2};
  }

  lemma ThirdChecks(i: nat)
    requires 19 <= i < 21
    ensures Leads(i)
  {
    assert {} + {3} == {3};
  }

  lemma ThirdRegisters(i: nat)
    requires i == 21
    ensures Leads(i)
  {
    assert {2} + {3} == {2, 3};
  }

  lemma ThirdReads(i: nat)
    requires i == 22
    ensures Leads(i)
  {
    assert {2, 3} - {3} == {2} && |{2}| == 1;
    assert Targets(3, {2, 3}, {1, 2, 3}) == {2};
  }

  lemma ThirdNotifies(i: nat)
    requires 23 <= i < 26
    ensures Leads(i)
  {
    assert {1, 2, 3} + {1, 2, 3} == {1, 2, 3} && {2} + {3} == {2, 3} && {2} - {2} == {};
  }

  lemma ThirdStores(i: nat)
    requires i == 26
    ensures Leads(i)
  {
    assert [7][0 := 8] == [8] && [{}][0 := {3}] == [{3}] && {} + {3} == {3};
  }

  lemma ThirdWritesBack(i: nat)
    requires i == 27
    ensures Leads(i)
  {
    assert Merge([7], [8], [7]) == [8];
  }

  lemma EveryStepLeads(i: nat)
    requires i < Steps
    ensures Leads(i)
  {
    if i < 5 {
      FirstLoads(i);
    } else if i < 7 {
      SecondRegistersAsSharer(i);
    } else if i == 7 {
      SecondMerges(i);
    } else if i < 11 {
      SecondLoads(i);
    } else if i < 13 {
      ThirdRegistersAsSharer(i);
    } else if i == 13 {
      ThirdMerges(i);
    } else if i < 16 {
      ThirdLoads(i);
    } else if i < 19 {
      SecondRegisters(i);
    } else if i < 21 {
      ThirdChecks(i);
    } else if i == 21 {
      ThirdRegisters(i);
    } else if i == 22 {
      ThirdReads(i);
    } else if i < 26 {
      ThirdNotifies(i);
    } else if i == 26 {
      ThirdStores(i);
    } else {
      ThirdWritesBack(i);
    }
  }

  /** The steps from At(i) to the end. */
  ghost function StepsFrom(i: nat): (run: seq<Label>)
    decreases Steps - i
  {
    if i >= Steps then [] else [Step(i)] + StepsFrom(i + 1)
  }

  lemma {:induction false} RunFrom(i: nat)
    requires i <= Steps
    ensures WellFormed(Four, At(i)) && IsRun(Four, At(i), StepsFrom(i), At(Steps))
    decreases Steps - i
  {
    if i < Steps {
      EveryStepLeads(i);
      RunFrom(i + 1);
      assert StepsFrom(i)[1..] == StepsFrom(i + 1);
    }
  }

  /**
   The state is reachable. Node 1 is owed a notice, its words say that nobody has written the page,
   and an acquire that goes by them keeps the old byte.
   */
  lemma AcquireKeepsStale()
    ensures Reachable(Four, At(Steps)) && WellFormed(Four, At(Steps))
    ensures Owed(Four, At(Steps), 1) && Other(At(Steps).node[0].writers, 1)
    ensures AtRest(Four, At(Steps), 1) && Keeps(1, At(Steps).node[1])
    ensures AcquiredPage(Four, At(Steps), 1) == At(Steps)
    ensures View(Four, At(Steps), 1) == [7] && At(Steps).memory == At(Steps).truth == [8]
  {
    RunFrom(0);
    assert Initial(Four, [7]) == At(0);
    var s := At(Steps);
    assert 1 in Pending(s.node[2].op, 2, s.node[0].sharers);
    assert 2 in s.node[0].writers;
  }
}
