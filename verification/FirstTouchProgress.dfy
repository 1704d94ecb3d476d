/**
 Progress of first-touch placement. Whoever waits for a page waits for a node that can go on; every
 step of a call but such a wait brings it closer to its end; and every call can return.
 */
module FirstTouchProgress {
  import opened Arith
  import opened FirstTouch
  import opened Sequences

  /** A node that spins, reloads or publishes has an owner to wait for, or is the owner. */
  ghost predicate WaitOk(c: Config, s: State, r: nat)
    requires WellFormed(c, s) && r < c.nodes
  {
    match s.pc[r]
    case Spin(p) => !s.dir[r][p].owner.Null?
    case StorePublic(p, _, _) => !s.dir[r][p].owner.Null?
    case Reload(p) => !s.dir[CasNode(c, p)][p].owner.Null?
    case _ => true
  }

  ghost predicate WaitsOk(c: Config, s: State)
    requires WellFormed(c, s)
  {
    forall r :: 0 <= r < c.nodes ==> WaitOk(c, s, r)
  }

  /** An owner word that has been set stays set. */
  ghost predicate OwnersStay(c: Config, a: Dirs, b: Dirs)
    requires Sized(a, c.nodes, c.pages) && Sized(b, c.nodes, c.pages)
  {
    forall n, q :: 0 <= n < c.nodes && 0 <= q < c.pages && !a[n][q].owner.Null? ==> !b[n][q].owner.Null?
  }

  lemma PutOwnersStay(c: Config, dir: Dirs, n: nat, p: nat, e: Info)
    requires Sized(dir, c.nodes, c.pages) && n < c.nodes && p < c.pages && !e.owner.Null?
    ensures Sized(Put(dir, n, p, e), c.nodes, c.pages) && OwnersStay(c, dir, Put(dir, n, p, e))
    ensures !Put(dir, n, p, e)[n][p].owner.Null?
  {
  }

  lemma ReaderWaits(c: Config, s: State, r: nat)
    requires Inv(c, s) && r < c.nodes && Reading(s.pc[r]) && WaitOk(c, s, r)
    ensures var t := ReaderNext(c, s, r); OwnersStay(c, s.dir, t.dir) && WaitOk(c, t, r)
  {
    var p := s.pc[r].p;
    assert PcOk(c, r, s.pc[r], PcEntry(c, s, r), s.tbl, s.claim);
    assert EntryOk(c, CasNode(c, p), p, s.dir[CasNode(c, p)][p], s.claim);
    if s.pc[r].StoreCopy? {
      PutOwnersStay(c, s.dir, r, p, s.pc[r].info);
    }
  }

  lemma TouchWaits(c: Config, s: State, r: nat)
    requires Inv(c, s) && r < c.nodes && Touching(s.pc[r]) && WaitOk(c, s, r)
    ensures var t := TouchNext(c, s, r); OwnersStay(c, s.dir, t.dir) && WaitOk(c, t, r)
  {
    var p := s.pc[r].p;
    match s.pc[r]
    case Cas(_) => PutOwnersStay(c, s.dir, CasNode(c, p), p, s.dir[CasNode(c, p)][p].(owner := Val(r)));
    case StoreLocal(_, home, offset) => PutOwnersStay(c, s.dir, r, p, Info(Val(home), Val(offset), Val(r)));
    case StorePublic(_, home, offset) =>
      PutOwnersStay(c, s.dir, CasNode(c, p), p, Info(Val(home), Val(offset), Val(r)));
    case _ =>
  }

  lemma OneWaits(c: Config, s: State, l: Label)
    requires Inv(c, s) && WaitsOk(c, s) && Enabled(c, s, l)
    ensures var t := Next(c, s, l);
      && OwnersStay(c, s.dir, t.dir) && WaitOk(c, t, l.r)
      && forall q :: 0 <= q < c.nodes && q != l.r ==> t.pc[q] == s.pc[q]
  {
    assert WaitOk(c, s, l.r);
    if l.Step? {
      if Reading(s.pc[l.r]) {
        ReaderWaits(c, s, l.r);
      } else {
        TouchWaits(c, s, l.r);
      }
    }
  }

  lemma WaitsStep(c: Config, s: State, l: Label)
    requires Inv(c, s) && WaitsOk(c, s) && Enabled(c, s, l)
    ensures WaitsOk(c, Next(c, s, l))
  {
    var t := Next(c, s, l);
    OneWaits(c, s, l);
    forall q | 0 <= q < c.nodes
      ensures WaitOk(c, t, q)
    {
      if q != l.r { WaitOkStays(c, s, t, q); }
    }
  }

  lemma WaitOkStays(c: Config, s: State, t: State, q: nat)
    requires WellFormed(c, s) && WellFormed(c, t) && q < c.nodes && t.pc[q] == s.pc[q] && OwnersStay(c, s.dir, t.dir)
    requires WaitOk(c, s, q)
    ensures WaitOk(c, t, q)
  {
  }

  lemma {:induction false} WaitsRun(c: Config, s: State, run: seq<Label>, t: State)
    requires Inv(c, s) && WaitsOk(c, s) && IsRun(c, s, run, t)
    ensures Inv(c, t) && WaitsOk(c, t)
    decreases |run|
  {
    if run != [] {
      InvStep(c, s, run[0]);
      WaitsStep(c, s, run[0]);
      WaitsRun(c, Next(c, s, run[0]), run[1..], t);
    }
  }

  /** The node is in one of the two loops that wait for another node to publish page p. */
  ghost predicate WaitsFor(c: Config, s: State, r: nat, p: nat)
    requires WellFormed(c, s) && r < c.nodes && p < c.pages
  {
    || (s.pc[r] == Spin(p) && (s.dir[r][p].home.Null? || s.dir[r][p].offset.Null?))
    || (s.pc[r] == Reload(p) && SomeNull(s.dir[CasNode(c, p)][p]))
  }

  /** The winner of a page that somebody waits for. */
  lemma WinnerOf(c: Config, s: State, r: nat, p: nat) returns (w: nat)
    requires Inv(c, s) && WaitsOk(c, s) && r < c.nodes && p < c.pages && WaitsFor(c, s, r, p)
    ensures w < c.nodes && w != r && Winning(s.pc[w], p) && Enabled(c, s, Step(w))
    ensures s.pc[r].Spin? ==> r == CasNode(c, p)
  {
    assert WaitOk(c, s, r);
    var cas := CasNode(c, p);
    assert EntryOk(c, r, p, s.dir[r][p], s.claim) && EntryOk(c, cas, p, s.dir[cas][p], s.claim);
    assert OwnerOk(c, s.dir[cas][p], p, s.pc, s.claim);
    w := s.dir[cas][p].owner.v;
    SearchSucceeds(c, s, w);
  }

  /** In every run a node that waits for a page waits for another node that has won it and can step. */
  lemma WinnerCanStep(c: Config, run: seq<Label>, s: State, r: nat, p: nat) returns (w: nat)
    requires ValidConfig(c) && IsRun(c, Initial(c), run, s) && r < c.nodes && p < c.pages && WaitsFor(c, s, r, p)
    ensures w < c.nodes && w != r && Winning(s.pc[w], p) && Enabled(c, s, Step(w))
  {
    InitialInv(c);
    WaitsRun(c, Initial(c), run, s);
    w := WinnerOf(c, s, r, p);
  }

  /** And only those wait: any other node in a call can step. */
  lemma OnlyWaitersWait(c: Config, run: seq<Label>, s: State, r: nat)
    requires ValidConfig(c) && IsRun(c, Initial(c), run, s) && r < c.nodes && !s.pc[r].Idle?
    ensures Enabled(c, s, Step(r)) || (s.pc[r].Spin? && WaitsFor(c, s, r, s.pc[r].p))
  {
    NeverOutOfSpace(c, run, s, r);
  }

  // ----- every step counts -----

  /** An upper bound for the steps that a search takes for `left` nodes. */
  function Budget(c: Config, left: nat): (r: nat) {
    if left == 0 then 0 else Budget(c, left - 1) + c.quota + 3
  }

  lemma {:induction false} BudgetIs(c: Config, left: nat)
    ensures Budget(c, left) == left * (c.quota + 3)
  {
    if left > 0 {
      BudgetIs(c, left - 1);
      MulAdd(left - 1, 1, c.quota + 3);
    }
  }

  lemma {:induction false} BudgetMono(c: Config, a: nat, b: nat)
    requires a <= b
    ensures Budget(c, a) <= Budget(c, b)
    decreases b - a
  {
    if a < b { BudgetMono(c, a, b - 1); }
  }

  /** An upper bound for the steps that a call still takes from a point of the program, not counting waits. */
  function Rank(c: Config, pc: Pc): (r: nat) {
    match pc
    case Idle => 0
    case Spin(_) => 1
    case StoreCopy(_, _) => 2
    case StorePublic(_, _, _) => 2
    case Reload(_) => 3
    case StoreLocal(_, _, _) => 3
    case Scan(_, k) => (if k < c.nodes then Budget(c, c.nodes - k) else 0) + 4
    case CacheOffset(_, k, _, _) => (if k < c.nodes then Budget(c, c.nodes - k - 1) else 0) + 5
    case TryClaim(_, k, offset) =>
      (if k < c.nodes then Budget(c, c.nodes - k - 1) else 0) + (if offset < c.quota then c.quota - offset else 0) + 6
    case Cas(_) => Budget(c, c.nodes) + 5
    case LoadPublic(_) => Budget(c, c.nodes) + 6
    case Start(_) => Budget(c, c.nodes) + 7
    case OutOfSpace(_) => 0
  }

  lemma RankBound(c: Config, pc: Pc)
    requires PcInRange(c, pc)
    ensures Rank(c, pc) <= Budget(c, c.nodes) + 7
  {
    match pc
    case Scan(_, k) => BudgetMono(c, c.nodes - k, c.nodes);
    case CacheOffset(_, k, _, _) => BudgetMono(c, c.nodes - k - 1, c.nodes);
    case TryClaim(_, k, _) => BudgetMono(c, c.nodes - k, c.nodes);
    case _ =>
  }

  /** The node reloads an entry that is not complete yet. */
  ghost predicate Reloads(c: Config, s: State, r: nat)
    requires WellFormed(c, s) && r < c.nodes
  {
    s.pc[r].Reload? && SomeNull(s.dir[CasNode(c, s.pc[r].p)][s.pc[r].p])
  }

  lemma ReaderAdvances(c: Config, s: State, r: nat)
    requires WellFormed(c, s) && r < c.nodes && Reading(s.pc[r]) && !Reloads(c, s, r)
    ensures Rank(c, ReaderNext(c, s, r).pc[r]) < Rank(c, s.pc[r])
  {
  }

  /** A search goes on to the next node, or raises its guess, or has found a place. */
  lemma SearchAdvances(c: Config, s: State, r: nat)
    requires Inv(c, s) && r < c.nodes && s.pc[r].TryClaim?
    ensures Rank(c, TouchNext(c, s, r).pc[r]) < Rank(c, s.pc[r])
  {
    if TouchNext(c, s, r).pc[r].TryClaim? {
      SearchProgress(c, s, r);
    }
  }

  lemma TouchAdvances(c: Config, s: State, r: nat)
    requires WellFormed(c, s) && r < c.nodes && Touching(s.pc[r]) && !s.pc[r].TryClaim?
    ensures Rank(c, TouchNext(c, s, r).pc[r]) < Rank(c, s.pc[r])
  {
  }

  lemma CallAdvances(c: Config, s: State, r: nat)
    requires Inv(c, s) && Enabled(c, s, Step(r)) && !Reloads(c, s, r)
    ensures Rank(c, Next(c, s, Step(r)).pc[r]) < Rank(c, s.pc[r])
  {
    if Reading(s.pc[r]) {
      ReaderAdvances(c, s, r);
    } else if s.pc[r].TryClaim? {
      SearchAdvances(c, s, r);
    } else {
      TouchAdvances(c, s, r);
    }
  }

  /** A run during which node r is in a call, up to the last state. */
  ghost predicate CallRun(c: Config, s: State, run: seq<Label>, t: State, r: nat)
    requires WellFormed(c, s) && r < c.nodes
    decreases |run|
  {
    if run == [] then t == s
    else !s.pc[r].Idle? && Enabled(c, s, run[0]) && CallRun(c, Next(c, s, run[0]), run[1..], t, r)
  }

  /** The steps of node r in a run that are not waits. */
  ghost function Steps(c: Config, s: State, run: seq<Label>, t: State, r: nat): (n: nat)
    requires WellFormed(c, s) && r < c.nodes && CallRun(c, s, run, t, r)
    decreases |run|
  {
    if run == [] then 0
    else Steps(c, Next(c, s, run[0]), run[1..], t, r) + if run[0] == Step(r) && !Reloads(c, s, r) then 1 else 0
  }

  /** What another step, or a wait, leaves as it is. */
  lemma CallStays(c: Config, s: State, l: Label, r: nat)
    requires WellFormed(c, s) && r < c.nodes && !s.pc[r].Idle? && Enabled(c, s, l)
    requires l != Step(r) || Reloads(c, s, r)
    ensures Next(c, s, l).pc[r] == s.pc[r]
  {
  }

  lemma {:induction false} CallRank(c: Config, s: State, run: seq<Label>, t: State, r: nat)
    requires Inv(c, s) && r < c.nodes && CallRun(c, s, run, t, r)
    ensures Inv(c, t) && Steps(c, s, run, t, r) + Rank(c, t.pc[r]) <= Rank(c, s.pc[r])
    decreases |run|
  {
    if run != [] {
      var l := run[0];
      InvStep(c, s, l);
      if l == Step(r) && !Reloads(c, s, r) {
        CallAdvances(c, s, r);
      } else {
        CallStays(c, s, l, r);
      }
      CallRank(c, Next(c, s, l), run[1..], t, r);
    }
  }

  /** Whatever the other nodes do meanwhile, a call takes at most nodes * (quota + 3) + 7 steps that are not waits. */
  lemma CallBounded(c: Config, past: seq<Label>, s: State, run: seq<Label>, t: State, r: nat)
    requires ValidConfig(c) && IsRun(c, Initial(c), past, s) && r < c.nodes && CallRun(c, s, run, t, r)
    ensures Steps(c, s, run, t, r) <= c.nodes * (c.quota + 3) + 7
  {
    InitialInv(c);
    InvRun(c, Initial(c), past, s);
    CallRank(c, s, run, t, r);
    RankBound(c, s.pc[r]);
    BudgetIs(c, c.nodes);
  }

  // ----- publication -----

  /** The entry that everybody waits for is there. */
  ghost predicate Published(c: Config, s: State, p: nat)
    requires WellFormed(c, s) && p < c.pages
  {
    !SomeNull(s.dir[CasNode(c, p)][p])
  }

  /** A winner goes on winning until it publishes the page. */
  lemma WinnerStep(c: Config, s: State, w: nat, p: nat)
    requires Inv(c, s) && w < c.nodes && p < c.pages && Winning(s.pc[w], p)
    ensures Touching(s.pc[w]) && Enabled(c, s, Step(w))
    ensures var t := Next(c, s, Step(w)); Winning(t.pc[w], p) || Published(c, t, p)
  {
    SearchSucceeds(c, s, w);
  }

  lemma OthersStay(c: Config, s: State, w: nat)
    requires WellFormed(c, s) && Enabled(c, s, Step(w))
    ensures forall q :: 0 <= q < c.nodes && q != w ==> Next(c, s, Step(w)).pc[q] == s.pc[q]
  {
  }

  /** `run` leads from s to t by steps of node w. */
  ghost predicate Alone(c: Config, s: State, run: seq<Label>, t: State, w: nat) {
    && Inv(c, s) && WaitsOk(c, s) && IsRun(c, s, run, t) && Inv(c, t) && WaitsOk(c, t)
    && forall q :: 0 <= q < c.nodes && q != w ==> t.pc[q] == s.pc[q]
  }

  lemma AloneCons(c: Config, s: State, w: nat, rest: seq<Label>, t: State)
    requires Inv(c, s) && WaitsOk(c, s) && Enabled(c, s, Step(w)) && Alone(c, Next(c, s, Step(w)), rest, t, w)
    ensures Alone(c, s, [Step(w)] + rest, t, w)
  {
    OthersStay(c, s, w);
    assert ([Step(w)] + rest)[0] == Step(w) && ([Step(w)] + rest)[1..] == rest;
  }

  /** By steps of its own. */
  lemma {:induction false} WinnerPublishes(c: Config, s: State, w: nat, p: nat) returns (run: seq<Label>, t: State)
    requires Inv(c, s) && WaitsOk(c, s) && w < c.nodes && p < c.pages && Winning(s.pc[w], p)
    ensures Alone(c, s, run, t, w) && Published(c, t, p)
    decreases Rank(c, s.pc[w])
  {
    WinnerStep(c, s, w, p);
    CallAdvances(c, s, w);
    InvStep(c, s, Step(w));
    WaitsStep(c, s, Step(w));
    var u := Next(c, s, Step(w));
    var rest;
    if Published(c, u, p) {
      rest, t := [], u;
    } else {
      rest, t := WinnerPublishes(c, u, w, p);
    }
    AloneCons(c, s, w, rest, t);
    run := [Step(w)] + rest;
  }

  lemma PublishedStays(c: Config, s: State, l: Label, p: nat)
    requires Inv(c, s) && Enabled(c, s, l) && p < c.pages && Published(c, s, p)
    ensures Published(c, Next(c, s, l), p)
  {
    if l.Step? {
      assert PcOk(c, l.r, s.pc[l.r], PcEntry(c, s, l.r), s.tbl, s.claim);
      EntryStays(c, s, l.r, p);
    }
  }

  /** Entries are written as a whole, or completed. */
  lemma EntryStays(c: Config, s: State, r: nat, p: nat)
    requires WellFormed(c, s) && Enabled(c, s, Step(r)) && p < c.pages && Published(c, s, p)
    requires PcOk(c, r, s.pc[r], PcEntry(c, s, r), s.tbl, s.claim)
    ensures Published(c, Next(c, s, Step(r)), p)
  {
  }

  /** How often node w steps. */
  ghost function Times(run: seq<Label>, w: nat): (n: nat) {
    if run == [] then 0 else Times(run[1..], w) + if run[0] == Step(w) then 1 else 0
  }

  /** The page is published, or its winner has not more than `n` steps to go. */
  ghost predicate Within(c: Config, s: State, w: nat, p: nat, n: int)
    requires WellFormed(c, s) && w < c.nodes && p < c.pages
  {
    Published(c, s, p) || (Winning(s.pc[w], p) && Rank(c, s.pc[w]) <= n)
  }

  lemma WithinStep(c: Config, s: State, l: Label, w: nat, p: nat, n: int)
    requires Inv(c, s) && Enabled(c, s, l) && w < c.nodes && p < c.pages && Within(c, s, w, p, n)
    ensures Within(c, Next(c, s, l), w, p, if l == Step(w) then n - 1 else n)
  {
    if Published(c, s, p) {
      PublishedStays(c, s, l, p);
    } else {
      WinnerStep(c, s, w, p);
      if l == Step(w) {
        CallAdvances(c, s, w);
      } else {
        CallStays(c, s, l, w);
      }
    }
  }

  lemma {:induction false} WithinRun(c: Config, s: State, run: seq<Label>, t: State, w: nat, p: nat, n: int)
    requires Inv(c, s) && w < c.nodes && p < c.pages && IsRun(c, s, run, t) && Within(c, s, w, p, n)
    ensures Within(c, t, w, p, n - Times(run, w))
    decreases |run|
  {
    if run != [] {
      InvStep(c, s, run[0]);
      WithinStep(c, s, run[0], w, p, n);
      WithinRun(c, Next(c, s, run[0]), run[1..], t, w, p, if run[0] == Step(w) then n - 1 else n);
    }
  }

  /** Whatever the other nodes do, the winner of a page has published it after nodes * (quota + 3) + 8 of its steps. */
  lemma PublishesSoon(c: Config, past: seq<Label>, s: State, run: seq<Label>, t: State, w: nat, p: nat)
    requires ValidConfig(c) && IsRun(c, Initial(c), past, s) && IsRun(c, s, run, t)
    requires w < c.nodes && p < c.pages && Winning(s.pc[w], p) && Times(run, w) >= c.nodes * (c.quota + 3) + 8
    ensures Published(c, t, p)
  {
    InitialInv(c);
    InvRun(c, Initial(c), past, s);
    RankBound(c, s.pc[w]);
    BudgetIs(c, c.nodes);
    WithinRun(c, s, run, t, w, p, c.nodes * (c.quota + 3) + 7);
  }

  // ----- every call can return -----

  lemma {:induction false} RunsJoin(c: Config, s: State, a: seq<Label>, t: State, b: seq<Label>, u: State)
    requires WellFormed(c, s) && IsRun(c, s, a, t) && IsRun(c, t, b, u)
    ensures IsRun(c, s, a + b, u)
    decreases |a|
  {
    if a == [] {
      assert a + b == b;
    } else {
      RunsJoin(c, Next(c, s, a[0]), a[1..], t, b, u);
      AppendTail(a, b);
    }
  }

  /** A node that waits can go on once the winner has published the page. */
  lemma WaitEnds(c: Config, s: State, r: nat, p: nat) returns (run: seq<Label>, t: State)
    requires Inv(c, s) && WaitsOk(c, s) && r < c.nodes && p < c.pages && WaitsFor(c, s, r, p)
    ensures IsRun(c, s, run, t) && Inv(c, t) && WaitsOk(c, t) && t.pc[r] == s.pc[r]
    ensures Enabled(c, t, Step(r)) && !Reloads(c, t, r)
  {
    var w := WinnerOf(c, s, r, p);
    run, t := WinnerPublishes(c, s, w, p);
  }

  /** A node in a call can take a step that is not a wait, if need be after others. */
  lemma CallGoesOn(c: Config, s: State, r: nat) returns (run: seq<Label>, t: State)
    requires Inv(c, s) && WaitsOk(c, s) && r < c.nodes && !s.pc[r].Idle?
    ensures IsRun(c, s, run, t) && Inv(c, t) && WaitsOk(c, t) && t.pc[r] == s.pc[r]
    ensures Enabled(c, t, Step(r)) && !Reloads(c, t, r)
  {
    SearchSucceeds(c, s, r);
    if WaitsFor(c, s, r, s.pc[r].p) {
      run, t := WaitEnds(c, s, r, s.pc[r].p);
    } else {
      run, t := [], s;
    }
  }

  /** The page of a call stays the same; when it returns, the node's own entry is complete. */
  lemma SamePage(c: Config, s: State, r: nat)
    requires Inv(c, s) && Enabled(c, s, Step(r))
    ensures var t, p := Next(c, s, Step(r)), s.pc[r].p;
      if t.pc[r].Idle? then !SomeNull(t.dir[r][p]) else t.pc[r].p == p
  {
    assert EntryOk(c, r, s.pc[r].p, s.dir[r][s.pc[r].p], s.claim);
  }

  lemma {:induction false} CallReturns(c: Config, s: State, r: nat) returns (run: seq<Label>, t: State)
    requires Inv(c, s) && WaitsOk(c, s) && r < c.nodes && !s.pc[r].Idle?
    ensures IsRun(c, s, run, t) && Inv(c, t) && t.pc[r].Idle? && !SomeNull(t.dir[r][s.pc[r].p])
    decreases Rank(c, s.pc[r])
  {
    var wait, u := CallGoesOn(c, s, r);
    CallAdvances(c, u, r);
    SamePage(c, u, r);
    InvStep(c, u, Step(r));
    WaitsStep(c, u, Step(r));
    var v := Next(c, u, Step(r));
    var rest;
    if v.pc[r].Idle? {
      rest, t := [], v;
    } else {
      rest, t := CallReturns(c, v, r);
    }
    assert ([Step(r)] + rest)[0] == Step(r) && ([Step(r)] + rest)[1..] == rest;
    RunsJoin(c, s, wait, u, [Step(r)] + rest, t);
    run := wait + ([Step(r)] + rest);
  }

  /**
   From every reachable state every call can return, with the home and the offset of its page, which by
   `FirstTouch.Agreement` all other calls for it return too.
   */
  lemma EveryCallReturns(c: Config, past: seq<Label>, s: State, r: nat) returns (run: seq<Label>, t: State)
    requires ValidConfig(c) && IsRun(c, Initial(c), past, s) && r < c.nodes && !s.pc[r].Idle?
    ensures IsRun(c, s, run, t) && t.pc[r].Idle?
    ensures s.pc[r].p in t.claim && t.dir[r][s.pc[r].p] == InfoOf(t.claim[s.pc[r].p])
  {
    InitialInv(c);
    WaitsRun(c, Initial(c), past, s);
    run, t := CallReturns(c, s, r);
    assert EntryOk(c, r, s.pc[r].p, t.dir[r][s.pc[r].p], t.claim);
  }

  lemma KnownStep(c: Config, s: State, r: nat, p: nat)
    requires Inv(c, s) && r < c.nodes && p < c.pages && !s.dir[r][p].home.Null?
    requires s.pc[r] == Start(p) || s.pc[r] == Spin(p)
    ensures Enabled(c, s, Step(r))
    ensures Next(c, s, Step(r)) == s.(pc := s.pc[r := if s.pc[r].Start? then Spin(p) else Idle])
  {
    assert EntryOk(c, r, p, s.dir[r][p], s.claim);
  }

  /** A call for a page that the node knows returns by two steps of its own, and writes nothing. */
  lemma KnownReturns(c: Config, past: seq<Label>, s: State, r: nat, p: nat)
    requires ValidConfig(c) && IsRun(c, Initial(c), past, s) && r < c.nodes && p < c.pages
    requires s.pc[r] == Start(p) && !s.dir[r][p].home.Null?
    ensures IsRun(c, s, [Step(r)] + ([Step(r)] + []), s.(pc := s.pc[r := Idle]))
  {
    InitialInv(c);
    InvRun(c, Initial(c), past, s);
    KnownStep(c, s, r, p);
    InvStep(c, s, Step(r));
    var u := Next(c, s, Step(r));
    KnownStep(c, u, r, p);
    var t := Next(c, u, Step(r));
    assert t == s.(pc := s.pc[r := Idle]);
    AppendTail([Step(r)], []);
    assert IsRun(c, u, [Step(r)] + [], t);
    AppendTail([Step(r)], [Step(r)] + []);
  }

  // ----- what a node remembers -----

  /** The guess at a node that is not the searcher itself is not below what is cached for it. */
  ghost predicate GuessOk(c: Config, row: seq<nat>, r: nat, n: nat, offset: nat)
    requires n < |row|
  {
    n != r ==> row[n] <= offset
  }

  /** The searcher has found the nodes it has passed full, and has noted it. */
  ghost predicate Remembers(c: Config, row: seq<nat>, r: nat, k: nat)
    requires c.nodes > 0 && |row| == c.nodes
  {
    forall j :: 0 <= j < k ==> row[Candidate(c, r, j)] >= c.quota
  }

  ghost predicate MemoryOk(c: Config, row: seq<nat>, r: nat, pc: Pc)
    requires c.nodes > 0 && |row| == c.nodes
  {
    match pc
    case Scan(_, k) => Remembers(c, row, r, k)
    case TryClaim(_, k, offset) => Remembers(c, row, r, k) && GuessOk(c, row, r, Candidate(c, r, k), offset)
    case CacheOffset(_, k, offset, _) => Remembers(c, row, r, k) && GuessOk(c, row, r, Candidate(c, r, k), offset)
    case _ => true
  }

  ghost predicate MemoriesOk(c: Config, s: State)
    requires WellFormed(c, s)
  {
    forall r :: 0 <= r < c.nodes ==> MemoryOk(c, s.tbl[r], r, s.pc[r])
  }

  /** No cached offset is lowered. */
  ghost predicate RowGrows(a: seq<nat>, b: seq<nat>) {
    |b| == |a| && forall n :: 0 <= n < |a| ==> a[n] <= b[n]
  }

  /** The offset at which the search of a node has ended is noted. */
  lemma NotedRow(c: Config, s: State, r: nat)
    requires WellFormed(c, s) && r < c.nodes && s.pc[r].CacheOffset? && MemoryOk(c, s.tbl[r], r, s.pc[r])
    requires PcOk(c, r, s.pc[r], PcEntry(c, s, r), s.tbl, s.claim)
    ensures var t := TouchNext(c, s, r); RowGrows(s.tbl[r], t.tbl[r]) && MemoryOk(c, t.tbl[r], r, t.pc[r])
  {
  }

  lemma TriedRow(c: Config, s: State, r: nat)
    requires WellFormed(c, s) && r < c.nodes && s.pc[r].TryClaim? && MemoryOk(c, s.tbl[r], r, s.pc[r])
    requires PcOk(c, r, s.pc[r], PcEntry(c, s, r), s.tbl, s.claim)
    ensures var t := TouchNext(c, s, r); RowGrows(s.tbl[r], t.tbl[r]) && MemoryOk(c, t.tbl[r], r, t.pc[r])
  {
  }

  lemma OwnRow(c: Config, s: State, r: nat)
    requires WellFormed(c, s) && r < c.nodes && Touching(s.pc[r]) && MemoryOk(c, s.tbl[r], r, s.pc[r])
    requires PcOk(c, r, s.pc[r], PcEntry(c, s, r), s.tbl, s.claim)
    ensures var t := TouchNext(c, s, r); RowGrows(s.tbl[r], t.tbl[r]) && MemoryOk(c, t.tbl[r], r, t.pc[r])
  {
    if s.pc[r].CacheOffset? {
      NotedRow(c, s, r);
    } else if s.pc[r].TryClaim? {
      TriedRow(c, s, r);
    }
  }

  /** The row of another node changes only where that node is the one claimed from. */
  lemma OtherRow(c: Config, s: State, r: nat, q: nat)
    requires WellFormed(c, s) && r < c.nodes && q < c.nodes && q != r && Touching(s.pc[r])
    ensures var t := TouchNext(c, s, r);
      RowGrows(s.tbl[q], t.tbl[q]) && forall n :: 0 <= n < c.nodes && n != q ==> t.tbl[q][n] == s.tbl[q][n]
  {
  }

  lemma MemoryStays(c: Config, a: seq<nat>, b: seq<nat>, r: nat, pc: Pc)
    requires c.nodes > 0 && |a| == c.nodes && RowGrows(a, b) && MemoryOk(c, a, r, pc)
    requires forall n :: 0 <= n < c.nodes && n != r ==> b[n] == a[n]
    ensures MemoryOk(c, b, r, pc)
  {
  }

  lemma RowStep(c: Config, s: State, l: Label, q: nat)
    requires WellFormed(c, s) && Enabled(c, s, l) && q < c.nodes && MemoryOk(c, s.tbl[q], q, s.pc[q])
    requires PcOk(c, q, s.pc[q], PcEntry(c, s, q), s.tbl, s.claim)
    ensures var t := Next(c, s, l); RowGrows(s.tbl[q], t.tbl[q]) && MemoryOk(c, t.tbl[q], q, t.pc[q])
  {
    if l.Step? && Touching(s.pc[l.r]) {
      if q == l.r {
        OwnRow(c, s, q);
      } else {
        OtherRow(c, s, l.r, q);
        MemoryStays(c, s.tbl[q], Next(c, s, l).tbl[q], q, s.pc[q]);
      }
    }
  }

  lemma MemoryStep(c: Config, s: State, l: Label)
    requires Inv(c, s) && MemoriesOk(c, s) && Enabled(c, s, l)
    ensures MemoriesOk(c, Next(c, s, l))
    ensures forall q :: 0 <= q < c.nodes ==> RowGrows(s.tbl[q], Next(c, s, l).tbl[q])
  {
    forall q | 0 <= q < c.nodes
      ensures var t := Next(c, s, l); RowGrows(s.tbl[q], t.tbl[q]) && MemoryOk(c, t.tbl[q], q, t.pc[q])
    {
      assert PcOk(c, q, s.pc[q], PcEntry(c, s, q), s.tbl, s.claim);
      RowStep(c, s, l, q);
    }
  }

  lemma {:induction false} MemoryRun(c: Config, s: State, run: seq<Label>, t: State, r: nat)
    requires Inv(c, s) && MemoriesOk(c, s) && IsRun(c, s, run, t) && r < c.nodes
    ensures MemoriesOk(c, t) && RowGrows(s.tbl[r], t.tbl[r])
    decreases |run|
  {
    if run != [] {
      InvStep(c, s, run[0]);
      MemoryStep(c, s, run[0]);
      MemoryRun(c, Next(c, s, run[0]), run[1..], t, r);
    }
  }

  /**
   In every run no cached offset is ever lowered, and a search that has passed a node has noted that it is
   full; so a node asks no other twice whether it has room when it had none.
   */
  lemma RemembersFull(c: Config, past: seq<Label>, s: State, run: seq<Label>, t: State, r: nat, j: nat)
    requires ValidConfig(c) && IsRun(c, Initial(c), past, s) && IsRun(c, s, run, t) && r < c.nodes
    requires s.pc[r].Scan? && j < s.pc[r].searched
    ensures forall n :: 0 <= n < c.nodes ==> s.tbl[r][n] <= t.tbl[r][n]
    ensures s.tbl[r][Candidate(c, r, j)] >= c.quota && t.tbl[r][Candidate(c, r, j)] >= c.quota
  {
    InitialInv(c);
    InvRun(c, Initial(c), past, s);
    MemoryRun(c, Initial(c), past, s, r);
    assert MemoryOk(c, s.tbl[r], r, s.pc[r]);
    MemoryRun(c, s, run, t, r);
  }
}
