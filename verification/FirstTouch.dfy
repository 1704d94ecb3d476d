/**
 The first-touch placement policy: a decentralised protocol that hands every page a home and
 an offset there the first time some node touches it.

 Page p has a CAS node, p % nodes. The node whose compare-and-swap on the owner word there
 succeeds claims an offset, trying its own table entry first and then the next nodes in
 turn, and publishes the result; every other node waits for it. Each access to an MPI window
 is one atomic step, and on each node one call at a time holds `owners_mutex`. Offsets are
 counted in pages, so `quota` is size_per_node / granularity.

 `claim` is not part of the program: it records what each page has been given.
 */
module FirstTouch {

  datatype Config = Config(nodes: nat, pages: nat, quota: nat)

  /** A word of a window; `Null` is the value nobody stores. */
  datatype Word = Null | Val(v: nat)

  /** page_info: home, offset, owner. */
  datatype Info = Info(home: Word, offset: Word, owner: Word)

  datatype Claim = Claim(winner: nat, home: nat, offset: nat)

  datatype Pc =
    | Idle
    | Start(p: nat)
    | LoadPublic(p: nat)
    | Reload(p: nat)
    | StoreCopy(p: nat, info: Info)
    | Cas(p: nat)
    | Scan(p: nat, searched: nat)
    | TryClaim(p: nat, searched: nat, offset: nat)
    | CacheOffset(p: nat, searched: nat, offset: nat, won: bool)
    | OutOfSpace(p: nat)
    | StoreLocal(p: nat, home: nat, offset: nat)
    | StorePublic(p: nat, home: nat, offset: nat)
    | Spin(p: nat)

  type Dirs = seq<seq<Info>>
  type Tables = seq<seq<nat>>
  type Claims = map<nat, Claim>

  datatype State = State(
    dir: Dirs,         // global_owners_dir of each node
    tbl: Tables,       // global_offsets_tbl of each node
    pc: seq<Pc>,
    claim: Claims)

  datatype Label = Call(r: nat, p: nat) | Step(r: nat)

  ghost predicate ValidConfig(c: Config) {
    c.nodes > 0 && c.nodes * c.quota == c.pages
  }

  ghost predicate Sized<T>(rows: seq<seq<T>>, n: nat, width: nat) {
    |rows| == n && forall r :: 0 <= r < n ==> |rows[r]| == width
  }

  ghost predicate PcInRange(c: Config, pc: Pc) {
    && (!pc.Idle? ==> pc.p < c.pages)
    && (pc.Scan? || pc.TryClaim? || pc.CacheOffset? ==> pc.searched < c.nodes)
  }

  ghost predicate WellFormed(c: Config, s: State) {
    && ValidConfig(c) && Sized(s.dir, c.nodes, c.pages) && Sized(s.tbl, c.nodes, c.nodes) && |s.pc| == c.nodes
    && forall r :: 0 <= r < c.nodes ==> PcInRange(c, s.pc[r])
  }

  function CasNode(c: Config, p: nat): (n: nat)
    requires c.nodes > 0
    ensures n < c.nodes
  {
    p % c.nodes
  }

  /** The node a search of node `r` looks at after `searched` others, for r and searched below nodes. */
  function Candidate(c: Config, r: nat, searched: nat): (n: nat)
    requires c.nodes > 0
    ensures n < c.nodes
  {
    if r + searched < c.nodes then r + searched
    else if r + searched < 2 * c.nodes then r + searched - c.nodes
    else 0
  }

  /** Moving the search on is `n = (n + 1) % nodes`. */
  lemma CandidateMoves(c: Config, r: nat, searched: nat)
    requires r < c.nodes && searched + 1 < c.nodes
    ensures Candidate(c, r, searched + 1) == (Candidate(c, r, searched) + 1) % c.nodes
    ensures Candidate(c, r, 0) == r
  {
    if r + searched + 1 != c.nodes {
      SmallMod((Candidate(c, r, searched) + 1), c.nodes);
    }
  }

  lemma SmallMod(x: nat, n: nat)
    requires x < n
    ensures x % n == x
  {
  }

  ghost function Initial(c: Config): (s: State)
    requires ValidConfig(c)
  {
    State(seq(c.nodes, _ => seq(c.pages, _ => Info(Null, Null, Null))), seq(c.nodes, _ => seq(c.nodes, _ => 0)),
          seq(c.nodes, _ => Idle), map[])
  }

  ghost predicate AllNull(i: Info) {
    i.home.Null? && i.offset.Null? && i.owner.Null?
  }

  ghost predicate SomeNull(i: Info) {
    i.home.Null? || i.offset.Null? || i.owner.Null?
  }

  ghost predicate Enabled(c: Config, s: State, l: Label)
    requires WellFormed(c, s)
  {
    match l
    case Call(r, p) => r < c.nodes && p < c.pages && s.pc[r].Idle?
    case Step(r) =>
      && r < c.nodes && !s.pc[r].Idle? && !s.pc[r].OutOfSpace?
      // a spinning reader returns only once the words it waits for are there
      && (s.pc[r].Spin? ==> !s.dir[r][s.pc[r].p].home.Null? && !s.dir[r][s.pc[r].p].offset.Null?)
  }

  function Put<T>(rows: seq<seq<T>>, r: nat, i: nat, v: T): (t: seq<seq<T>>)
    requires r < |rows| && i < |rows[r]|
  {
    rows[r := rows[r][i := v]]
  }

  ghost predicate Reading(pc: Pc) {
    pc.Start? || pc.LoadPublic? || pc.Reload? || pc.StoreCopy? || pc.Spin?
  }

  /** update_dirs and the reader's spin loop. */
  ghost function ReaderNext(c: Config, s: State, r: nat): (t: State)
    requires WellFormed(c, s) && r < c.nodes && Reading(s.pc[r])
    ensures WellFormed(c, t)
  {
    var pc := s.pc[r];
    var cas := CasNode(c, pc.p);
    var public := s.dir[cas][pc.p];
    match pc
    case Start(p) => s.(pc := s.pc[r := if s.dir[r][p].owner.Null? then LoadPublic(p) else Spin(p)])
    case LoadPublic(p) =>
      s.(pc := s.pc[r := if AllNull(public) then Cas(p)
                         else if r == cas then Spin(p)
                         else if SomeNull(public) then Reload(p)
                         else StoreCopy(p, public)])
    case Reload(p) => s.(pc := s.pc[r := if SomeNull(public) then Reload(p) else StoreCopy(p, public)])
    case StoreCopy(p, info) => s.(dir := Put(s.dir, r, p, info), pc := s.pc[r := Spin(p)])
    case Spin(p) => s.(pc := s.pc[r := Idle])
  }

  /** One round of the loop that claims an offset on the current candidate. */
  ghost function ClaimNext(c: Config, s: State, r: nat, p: nat, k: nat, offset: nat): (t: State)
    requires WellFormed(c, s) && r < c.nodes && p < c.pages && k < c.nodes
    ensures WellFormed(c, t)
  {
    var n := Candidate(c, r, k);
    if offset >= c.quota then s.(pc := s.pc[r := CacheOffset(p, k, offset, false)])
    else if s.tbl[n][n] == offset then
      s.(tbl := Put(s.tbl, n, n, offset + 1), pc := s.pc[r := CacheOffset(p, k, offset, true)],
         claim := s.claim[p := Claim(r, n, offset)])
    else s.(pc := s.pc[r := TryClaim(p, k, s.tbl[n][n])])
  }

  /** What follows that loop: the offset is cached, and the search ends or moves on. */
  ghost function CacheNext(c: Config, s: State, r: nat, p: nat, k: nat, offset: nat, won: bool): (t: State)
    requires WellFormed(c, s) && r < c.nodes && p < c.pages && k < c.nodes
    ensures WellFormed(c, t)
  {
    var n := Candidate(c, r, k);
    s.(tbl := if n != r then Put(s.tbl, r, n, offset) else s.tbl,
       pc := s.pc[r := if won then StoreLocal(p, n, offset)
                       else if k + 1 < c.nodes then Scan(p, k + 1)
                       else OutOfSpace(p)])
  }

  ghost predicate Touching(pc: Pc) {
    pc.Cas? || pc.Scan? || pc.TryClaim? || pc.CacheOffset? || pc.StoreLocal? || pc.StorePublic?
  }

  /** first_touch. */
  ghost function TouchNext(c: Config, s: State, r: nat): (t: State)
    requires WellFormed(c, s) && r < c.nodes && Touching(s.pc[r])
    ensures WellFormed(c, t)
  {
    var pc := s.pc[r];
    var cas := CasNode(c, pc.p);
    match pc
    case Cas(p) =>
      var public := s.dir[cas][p];
      if public.owner.Null? then
        s.(dir := Put(s.dir, cas, p, public.(owner := Val(r))), pc := s.pc[r := Scan(p, 0)])
      else s.(pc := s.pc[r := if r == cas then Spin(p) else Reload(p)])
    case Scan(p, k) => s.(pc := s.pc[r := TryClaim(p, k, s.tbl[r][Candidate(c, r, k)])])
    case TryClaim(p, k, offset) => ClaimNext(c, s, r, p, k, offset)
    case CacheOffset(p, k, offset, won) => CacheNext(c, s, r, p, k, offset, won)
    case StoreLocal(p, home, offset) =>
      s.(dir := Put(s.dir, r, p, Info(Val(home), Val(offset), Val(r))),
         pc := s.pc[r := if r != cas then StorePublic(p, home, offset) else Spin(p)])
    case StorePublic(p, home, offset) =>
      s.(dir := Put(s.dir, cas, p, Info(Val(home), Val(offset), Val(r))), pc := s.pc[r := Spin(p)])
  }

  ghost function Next(c: Config, s: State, l: Label): (t: State)
    requires WellFormed(c, s) && Enabled(c, s, l)
    ensures WellFormed(c, t)
  {
    match l
    case Call(r, p) => s.(pc := s.pc[r := Start(p)])
    case Step(r) => if Reading(s.pc[r]) then ReaderNext(c, s, r) else TouchNext(c, s, r)
  }

  ghost predicate IsRun(c: Config, s: State, run: seq<Label>, t: State): (b: bool)
    requires WellFormed(c, s)
    ensures b ==> WellFormed(c, t)
    decreases |run|
  {
    if run == [] then t == s else Enabled(c, s, run[0]) && IsRun(c, Next(c, s, run[0]), run[1..], t)
  }

  // ----- the invariant -----

  function InfoOf(k: Claim): (i: Info) {
    Info(Val(k.home), Val(k.offset), Val(k.winner))
  }

  /** An entry of node `m` for page `p`: complete and right, or empty but for the owner at the CAS node. */
  ghost predicate EntryOk(c: Config, m: nat, p: nat, e: Info, claim: Claims)
    requires ValidConfig(c)
  {
    && (e.home.Null? <==> e.offset.Null?)
    && (!e.home.Null? ==> p in claim && e == InfoOf(claim[p]))
    && (e.home.Null? && m != CasNode(c, p) ==> e.owner.Null?)
  }

  /** The node has won page `p` and not finished publishing. */
  ghost predicate Winning(pc: Pc, p: nat) {
    (pc.Scan? || pc.TryClaim? || pc.CacheOffset? || pc.OutOfSpace? || pc.StoreLocal? || pc.StorePublic?) && pc.p == p
  }

  /** The node has claimed (home, offset) for page `p` and not finished publishing. */
  ghost predicate Holding(c: Config, r: nat, pc: Pc, p: nat, k: Claim)
    requires ValidConfig(c)
  {
    && k.winner == r && Winning(pc, p)
    && match pc
       case CacheOffset(_, searched, offset, won) => won && k.home == Candidate(c, r, searched) && k.offset == offset
       case StoreLocal(_, home, offset) => k.home == home && k.offset == offset
       case StorePublic(_, home, offset) => k.home == home && k.offset == offset
       case _ => false
  }

  /** The entry of a page at its CAS node, and what it says about who is at work. */
  ghost predicate OwnerOk(c: Config, e: Info, p: nat, pc: seq<Pc>, claim: Claims)
    requires ValidConfig(c) && |pc| == c.nodes
  {
    && (e.owner.Null? ==> p !in claim)
    && (p in claim ==> claim[p].winner < c.nodes && e.owner == Val(claim[p].winner))
    && (!e.owner.Null? && e.home.Null? ==> e.owner.v < c.nodes && Winning(pc[e.owner.v], p))
    && (p in claim && e.home.Null? ==> Holding(c, claim[p].winner, pc[claim[p].winner], p, claim[p]))
  }

  ghost predicate Full(c: Config, tbl: Tables, n: nat)
    requires n < |tbl| && n < |tbl[n]|
  {
    tbl[n][n] >= c.quota
  }

  /** The first `k` nodes a search of `r` looks at have nothing left. */
  ghost predicate FullUpTo(c: Config, tbl: Tables, r: nat, k: nat)
    requires ValidConfig(c) && Sized(tbl, c.nodes, c.nodes)
  {
    forall j :: 0 <= j < k ==> Full(c, tbl, Candidate(c, r, j))
  }

  /** What a node may rely on at a point of the program, given the entry at the CAS node of its page. */
  ghost predicate PcOk(c: Config, r: nat, pc: Pc, e: Info, tbl: Tables, claim: Claims)
    requires ValidConfig(c) && Sized(tbl, c.nodes, c.nodes)
  {
    && (!pc.Idle? && Winning(pc, pc.p) ==> e.owner == Val(r) && e.home.Null?)
    && match pc
       case Reload(p) => r != CasNode(c, p)
       case StoreCopy(p, info) => r != CasNode(c, p) && p in claim && info == InfoOf(claim[p])
       case Scan(p, k) => p !in claim && FullUpTo(c, tbl, r, k)
       case TryClaim(p, k, offset) =>
         p !in claim && FullUpTo(c, tbl, r, k) && offset <= tbl[Candidate(c, r, k)][Candidate(c, r, k)]
       case CacheOffset(p, k, offset, won) =>
         && FullUpTo(c, tbl, r, k) && offset <= tbl[Candidate(c, r, k)][Candidate(c, r, k)]
         && (if won then p in claim && Holding(c, r, pc, p, claim[p]) else p !in claim && offset >= c.quota)
       case OutOfSpace(p) => p !in claim && FullUpTo(c, tbl, r, c.nodes)
       case StoreLocal(p, _, _) => p in claim && Holding(c, r, pc, p, claim[p])
       case StorePublic(p, _, _) => p in claim && Holding(c, r, pc, p, claim[p])
       case _ => true
  }

  /** A page is homed away from its winner only if every node scanned before its home was full. */
  ghost predicate ClaimOk(c: Config, p: nat, k: Claim, tbl: Tables)
    requires ValidConfig(c) && Sized(tbl, c.nodes, c.nodes)
  {
    && p < c.pages && k.winner < c.nodes && k.home < c.nodes && k.offset < c.quota
    && k.offset < tbl[k.home][k.home]
    && exists searched: nat :: FoundAfter(c, tbl, k.winner, k.home, searched)
  }

  /** A search of `winner` that reaches `home` after finding the `searched` nodes before it full. */
  ghost predicate FoundAfter(c: Config, tbl: Tables, winner: nat, home: nat, searched: nat)
    requires ValidConfig(c) && Sized(tbl, c.nodes, c.nodes)
  {
    searched < c.nodes && home == Candidate(c, winner, searched) && FullUpTo(c, tbl, winner, searched)
  }

  ghost predicate SamePlace(a: Claim, b: Claim) {
    a.home == b.home && a.offset == b.offset
  }

  /** The sum of the authoritative offsets of the first `n` nodes. */
  ghost function Handed(tbl: Tables, n: nat): (sum: nat)
    requires Sized(tbl, |tbl|, |tbl|) && n <= |tbl|
  {
    if n == 0 then 0 else Handed(tbl, n - 1) + tbl[n - 1][n - 1]
  }

  ghost predicate EntriesOk(c: Config, dir: Dirs, claim: Claims)
    requires ValidConfig(c) && Sized(dir, c.nodes, c.pages)
  {
    forall m, p :: 0 <= m < c.nodes && 0 <= p < c.pages ==> EntryOk(c, m, p, dir[m][p], claim)
  }

  ghost predicate ClaimsOk(c: Config, claim: Claims, tbl: Tables)
    requires ValidConfig(c) && Sized(tbl, c.nodes, c.nodes)
  {
    && (forall p :: p in claim ==> ClaimOk(c, p, claim[p], tbl))
    && (forall p, q :: p in claim && q in claim && SamePlace(claim[p], claim[q]) ==> p == q)
    && Handed(tbl, c.nodes) == |claim|
  }

  /** No cached offset exceeds the authoritative one. */
  ghost predicate TablesOk(c: Config, tbl: Tables)
    requires Sized(tbl, c.nodes, c.nodes)
  {
    forall r, n :: 0 <= r < c.nodes && 0 <= n < c.nodes ==> tbl[r][n] <= tbl[n][n]
  }

  ghost predicate Inv(c: Config, s: State) {
    && WellFormed(c, s)
    && EntriesOk(c, s.dir, s.claim) && ClaimsOk(c, s.claim, s.tbl) && TablesOk(c, s.tbl)
    && (forall p :: 0 <= p < c.pages ==> OwnerOk(c, s.dir[CasNode(c, p)][p], p, s.pc, s.claim))
    && (forall r :: 0 <= r < c.nodes ==> PcOk(c, r, s.pc[r], PcEntry(c, s, r), s.tbl, s.claim))
  }

  /** The entry at the CAS node of the page a node is working on. */
  ghost function PcEntry(c: Config, s: State, r: nat): (e: Info)
    requires WellFormed(c, s) && r < c.nodes
  {
    if s.pc[r].Idle? then Info(Null, Null, Null) else s.dir[CasNode(c, s.pc[r].p)][s.pc[r].p]
  }

  lemma InitialInv(c: Config)
    requires ValidConfig(c)
    ensures Inv(c, Initial(c))
  {
    HandedZero(Initial(c).tbl, c.nodes);
  }

  lemma HandedZero(tbl: Tables, n: nat)
    requires Sized(tbl, |tbl|, |tbl|) && n <= |tbl| && forall r :: 0 <= r < |tbl| ==> tbl[r][r] == 0
    ensures Handed(tbl, n) == 0
  {
  }

  /** The sum only depends on the diagonal. */
  lemma {:induction false} HandedFrame(a: Tables, b: Tables, n: nat)
    requires |a| == |b| && Sized(a, |a|, |a|) && Sized(b, |a|, |a|) && n <= |a|
    requires forall r :: 0 <= r < n ==> a[r][r] == b[r][r]
    ensures Handed(a, n) == Handed(b, n)
  {
    if n > 0 {
      HandedFrame(a, b, n - 1);
    }
  }

  lemma {:induction false} HandedBump(a: Tables, b: Tables, n: nat, i: nat)
    requires |a| == |b| && Sized(a, |a|, |a|) && Sized(b, |a|, |a|) && i < n <= |a|
    requires forall r :: 0 <= r < n && r != i ==> a[r][r] == b[r][r]
    requires b[i][i] == a[i][i] + 1
    ensures Handed(b, n) == Handed(a, n) + 1
  {
    if n - 1 == i {
      HandedFrame(a, b, n - 1);
    } else {
      HandedBump(a, b, n - 1, i);
    }
  }

  /** Moving from `pc` to `pc'`, node `r` gives up no page it has won. */
  ghost predicate KeepsWin(c: Config, r: nat, pc: Pc, pc': Pc, claim: Claims)
    requires ValidConfig(c)
  {
    && (!pc.Idle? && Winning(pc, pc.p) ==> Winning(pc', pc.p))
    && (forall p :: p in claim && Holding(c, r, pc, p, claim[p]) ==> Holding(c, r, pc', p, claim[p]))
  }

  /** Steps that move only the program counter of `r`. */
  lemma MoveKeeps(c: Config, s: State, r: nat, pc: Pc)
    requires Inv(c, s) && r < c.nodes && PcInRange(c, pc) && KeepsWin(c, r, s.pc[r], pc, s.claim)
    requires WellFormed(c, s.(pc := s.pc[r := pc]))
    requires PcOk(c, r, pc, PcEntry(c, s.(pc := s.pc[r := pc]), r), s.tbl, s.claim)
    ensures Inv(c, s.(pc := s.pc[r := pc]))
  {
    var t := s.(pc := s.pc[r := pc]);
    forall p | 0 <= p < c.pages ensures OwnerOk(c, t.dir[CasNode(c, p)][p], p, t.pc, t.claim) {
      assert OwnerOk(c, s.dir[CasNode(c, p)][p], p, s.pc, s.claim);
    }
    forall m | 0 <= m < c.nodes ensures PcOk(c, m, t.pc[m], PcEntry(c, t, m), t.tbl, t.claim) {
      assert PcOk(c, m, s.pc[m], PcEntry(c, s, m), s.tbl, s.claim);
    }
  }

  /** Reader steps other than storing a copy. */
  lemma ReaderKeeps(c: Config, s: State, r: nat)
    requires Inv(c, s) && r < c.nodes && Reading(s.pc[r]) && !s.pc[r].StoreCopy?
    ensures Inv(c, ReaderNext(c, s, r))
  {
    var t := ReaderNext(c, s, r);
    var p := s.pc[r].p;
    assert PcOk(c, r, s.pc[r], PcEntry(c, s, r), s.tbl, s.claim);
    assert EntryOk(c, CasNode(c, p), p, s.dir[CasNode(c, p)][p], s.claim);
    MoveKeeps(c, s, r, t.pc[r]);
  }

  /** Storing the complete entry of a claimed page at a node other than its CAS node. */
  lemma StoreCopyKeeps(c: Config, s: State, m: nat, p: nat)
    requires Inv(c, s) && m < c.nodes && p < c.pages && p in s.claim && m != CasNode(c, p)
    ensures Inv(c, s.(dir := Put(s.dir, m, p, InfoOf(s.claim[p]))))
  {
    var t := s.(dir := Put(s.dir, m, p, InfoOf(s.claim[p])));
    assert forall q :: 0 <= q < c.pages ==> t.dir[CasNode(c, q)][q] == s.dir[CasNode(c, q)][q];
    forall n | 0 <= n < c.nodes ensures PcOk(c, n, t.pc[n], PcEntry(c, t, n), t.tbl, t.claim) {
      assert PcOk(c, n, s.pc[n], PcEntry(c, s, n), s.tbl, s.claim);
    }
  }

  /** Writing the entry of page p at its CAS node leaves the other entries alone. */
  lemma PutFrame(c: Config, dir: Dirs, p: nat, e: Info)
    requires ValidConfig(c) && Sized(dir, c.nodes, c.pages) && p < c.pages
    ensures Sized(Put(dir, CasNode(c, p), p, e), c.nodes, c.pages)
    ensures Put(dir, CasNode(c, p), p, e)[CasNode(c, p)][p] == e
    ensures forall n, q :: 0 <= n < c.nodes && 0 <= q < c.pages && (n != CasNode(c, p) || q != p) ==>
      Put(dir, CasNode(c, p), p, e)[n][q] == dir[n][q]
  {
  }

  lemma PublishEntries(c: Config, s: State, p: nat)
    requires Inv(c, s) && p < c.pages && p in s.claim
    ensures EntriesOk(c, Put(s.dir, CasNode(c, p), p, InfoOf(s.claim[p])), s.claim)
  {
    PutFrame(c, s.dir, p, InfoOf(s.claim[p]));
  }

  /** The winner storing the complete entry at the CAS node, after which it is done. */
  lemma PublishOwner(c: Config, s: State, r: nat, p: nat, q: nat)
    requires Inv(c, s) && r < c.nodes && p < c.pages && p in s.claim && Holding(c, r, s.pc[r], p, s.claim[p])
    requires q < c.pages
    ensures var dir := Put(s.dir, CasNode(c, p), p, InfoOf(s.claim[p]));
      CasNode(c, q) < |dir| && q < |dir[CasNode(c, q)]| &&
      OwnerOk(c, dir[CasNode(c, q)][q], q, s.pc[r := Spin(p)], s.claim)
  {
    assert OwnerOk(c, s.dir[CasNode(c, q)][q], q, s.pc, s.claim);
  }

  lemma PublishKeeps(c: Config, s: State, r: nat, p: nat)
    requires Inv(c, s) && r < c.nodes && p < c.pages && p in s.claim && Holding(c, r, s.pc[r], p, s.claim[p])
    ensures Inv(c, s.(dir := Put(s.dir, CasNode(c, p), p, InfoOf(s.claim[p])), pc := s.pc[r := Spin(p)]))
  {
    var cas := CasNode(c, p);
    var t := s.(dir := Put(s.dir, cas, p, InfoOf(s.claim[p])), pc := s.pc[r := Spin(p)]);
    PutFrame(c, s.dir, p, InfoOf(s.claim[p]));
    PublishEntries(c, s, p);
    assert OwnerOk(c, s.dir[cas][p], p, s.pc, s.claim);
    forall q | 0 <= q < c.pages ensures OwnerOk(c, t.dir[CasNode(c, q)][q], q, t.pc, t.claim) {
      PublishOwner(c, s, r, p, q);
    }
    forall n | 0 <= n < c.nodes ensures PcOk(c, n, t.pc[n], PcEntry(c, t, n), t.tbl, t.claim) {
      assert PcOk(c, n, s.pc[n], PcEntry(c, s, n), s.tbl, s.claim);
    }
  }

  lemma StoreKeeps(c: Config, s: State, r: nat)
    requires Inv(c, s) && r < c.nodes && (s.pc[r].StoreLocal? || s.pc[r].StorePublic?)
    ensures Inv(c, TouchNext(c, s, r))
  {
    var p := s.pc[r].p;
    assert PcOk(c, r, s.pc[r], PcEntry(c, s, r), s.tbl, s.claim);
    if s.pc[r].StoreLocal? && r != CasNode(c, p) {
      StoreCopyKeeps(c, s, r, p);
      MoveKeeps(c, s.(dir := Put(s.dir, r, p, InfoOf(s.claim[p]))), r, StorePublic(p, s.pc[r].home, s.pc[r].offset));
    } else {
      PublishKeeps(c, s, r, p);
    }
  }

  lemma CopyKeeps(c: Config, s: State, r: nat)
    requires Inv(c, s) && r < c.nodes && s.pc[r].StoreCopy?
    ensures Inv(c, ReaderNext(c, s, r))
  {
    var p := s.pc[r].p;
    assert PcOk(c, r, s.pc[r], PcEntry(c, s, r), s.tbl, s.claim);
    StoreCopyKeeps(c, s, r, p);
    MoveKeeps(c, s.(dir := Put(s.dir, r, p, InfoOf(s.claim[p]))), r, Spin(p));
  }

  /** The compare-and-swap that makes `r` the owner of a page. */
  lemma CasWins(c: Config, s: State, r: nat)
    requires Inv(c, s) && r < c.nodes && s.pc[r].Cas? && s.dir[CasNode(c, s.pc[r].p)][s.pc[r].p].owner.Null?
    ensures Inv(c, TouchNext(c, s, r))
  {
    var t := TouchNext(c, s, r);
    var p := s.pc[r].p;
    var cas := CasNode(c, p);
    assert OwnerOk(c, s.dir[cas][p], p, s.pc, s.claim);
    assert EntryOk(c, cas, p, s.dir[cas][p], s.claim);
    PutFrame(c, s.dir, p, t.dir[cas][p]);
    forall q | 0 <= q < c.pages ensures OwnerOk(c, t.dir[CasNode(c, q)][q], q, t.pc, t.claim) {
      assert OwnerOk(c, s.dir[CasNode(c, q)][q], q, s.pc, s.claim);
    }
    forall n | 0 <= n < c.nodes ensures PcOk(c, n, t.pc[n], PcEntry(c, t, n), t.tbl, t.claim) {
      assert PcOk(c, n, s.pc[n], PcEntry(c, s, n), s.tbl, s.claim);
    }
  }

  lemma CasKeeps(c: Config, s: State, r: nat)
    requires Inv(c, s) && r < c.nodes && s.pc[r].Cas?
    ensures Inv(c, TouchNext(c, s, r))
  {
    if s.dir[CasNode(c, s.pc[r].p)][s.pc[r].p].owner.Null? {
      CasWins(c, s, r);
    } else {
      MoveKeeps(c, s, r, TouchNext(c, s, r).pc[r]);
    }
  }

  /** More offsets handed out keeps everything that was said about the tables. */
  lemma FullMono(c: Config, a: Tables, b: Tables, r: nat, k: nat)
    requires ValidConfig(c) && Sized(a, c.nodes, c.nodes) && Sized(b, c.nodes, c.nodes) && FullUpTo(c, a, r, k)
    requires forall n :: 0 <= n < c.nodes ==> a[n][n] <= b[n][n]
    ensures FullUpTo(c, b, r, k)
  {
    forall j | 0 <= j < k ensures Full(c, b, Candidate(c, r, j)) {
      assert Full(c, a, Candidate(c, r, j));
    }
  }

  lemma PcOkMono(c: Config, r: nat, pc: Pc, e: Info, a: Tables, b: Tables, claim: Claims)
    requires ValidConfig(c) && Sized(a, c.nodes, c.nodes) && Sized(b, c.nodes, c.nodes) && PcOk(c, r, pc, e, a, claim)
    requires forall n :: 0 <= n < c.nodes ==> a[n][n] <= b[n][n]
    ensures PcOk(c, r, pc, e, b, claim)
  {
    match pc
    case Scan(_, k) => FullMono(c, a, b, r, k);
    case TryClaim(_, k, _) => FullMono(c, a, b, r, k);
    case CacheOffset(_, k, _, _) => FullMono(c, a, b, r, k);
    case OutOfSpace(_) => FullMono(c, a, b, r, c.nodes);
    case _ =>
  }

  lemma ClaimOkMono(c: Config, p: nat, k: Claim, a: Tables, b: Tables)
    requires ValidConfig(c) && Sized(a, c.nodes, c.nodes) && Sized(b, c.nodes, c.nodes) && ClaimOk(c, p, k, a)
    requires forall n :: 0 <= n < c.nodes ==> a[n][n] <= b[n][n]
    ensures ClaimOk(c, p, k, b)
  {
    var searched: nat :| FoundAfter(c, a, k.winner, k.home, searched);
    FullMono(c, a, b, k.winner, searched);
    assert FoundAfter(c, b, k.winner, k.home, searched);
  }

  /** Changing cached offsets only, below the authoritative ones. */
  lemma TableKeeps(c: Config, s: State, tbl: Tables)
    requires Inv(c, s) && Sized(tbl, c.nodes, c.nodes) && TablesOk(c, tbl)
    requires forall m :: 0 <= m < c.nodes ==> tbl[m][m] == s.tbl[m][m]
    ensures Inv(c, s.(tbl := tbl))
  {
    HandedFrame(s.tbl, tbl, c.nodes);
    forall p | p in s.claim ensures ClaimOk(c, p, s.claim[p], tbl) {
      ClaimOkMono(c, p, s.claim[p], s.tbl, tbl);
    }
    var u := s.(tbl := tbl);
    forall m | 0 <= m < c.nodes ensures PcOk(c, m, u.pc[m], PcEntry(c, u, m), u.tbl, u.claim) {
      PcOkMono(c, m, s.pc[m], PcEntry(c, s, m), s.tbl, tbl, s.claim);
    }
  }

  /** The search ends or moves on. */
  lemma SearchMovesKeeps(c: Config, s: State, r: nat, p: nat, k: nat, offset: nat, won: bool)
    requires Inv(c, s) && r < c.nodes && s.pc[r] == CacheOffset(p, k, offset, won)
    ensures PcInRange(c, s.pc[r]) && Inv(c, s.(pc := s.pc[r := CacheNext(c, s, r, p, k, offset, won).pc[r]]))
  {
    var pc := CacheNext(c, s, r, p, k, offset, won).pc[r];
    assert PcOk(c, r, s.pc[r], PcEntry(c, s, r), s.tbl, s.claim);
    MovedPcOk(c, r, p, k, offset, won, PcEntry(c, s, r), s.tbl, s.claim, pc);
    MoveKeeps(c, s, r, pc);
  }

  /** What a node relied on before the search ends or moves on gives what it relies on after. */
  lemma MovedPcOk(c: Config, r: nat, p: nat, k: nat, offset: nat, won: bool, e: Info, tbl: Tables, claim: Claims,
                  pc: Pc)
    requires ValidConfig(c) && Sized(tbl, c.nodes, c.nodes) && r < c.nodes && k < c.nodes
    requires PcOk(c, r, CacheOffset(p, k, offset, won), e, tbl, claim)
    requires pc ==
      if won then StoreLocal(p, Candidate(c, r, k), offset)
      else if k + 1 < c.nodes then Scan(p, k + 1)
      else OutOfSpace(p)
    ensures PcOk(c, r, pc, e, tbl, claim) && KeepsWin(c, r, CacheOffset(p, k, offset, won), pc, claim)
  {
  }

  lemma CacheOffsetKeeps(c: Config, s: State, r: nat, p: nat, k: nat, offset: nat, won: bool)
    requires Inv(c, s) && r < c.nodes && s.pc[r] == CacheOffset(p, k, offset, won)
    ensures PcInRange(c, s.pc[r]) && Inv(c, CacheNext(c, s, r, p, k, offset, won))
  {
    var tbl := CacheNext(c, s, r, p, k, offset, won).tbl;
    assert PcOk(c, r, s.pc[r], PcEntry(c, s, r), s.tbl, s.claim);
    TableKeeps(c, s, tbl);
    SearchMovesKeeps(c, s.(tbl := tbl), r, p, k, offset, won);
  }

  /** One more claim at the authoritative offset of its home. */
  lemma ClaimsGrow(c: Config, claim: Claims, tbl: Tables, p: nat, k: Claim, searched: nat, tbl': Tables)
    requires ValidConfig(c) && Sized(tbl, c.nodes, c.nodes) && ClaimsOk(c, claim, tbl)
    requires p < c.pages && p !in claim && k.winner < c.nodes && searched < c.nodes
    requires k.home == Candidate(c, k.winner, searched) && FullUpTo(c, tbl, k.winner, searched)
    requires k.offset == tbl[k.home][k.home] < c.quota && tbl' == Put(tbl, k.home, k.home, k.offset + 1)
    ensures Sized(tbl', c.nodes, c.nodes) && ClaimsOk(c, claim[p := k], tbl')
  {
    var claim' := claim[p := k];
    HandedBump(tbl, tbl', c.nodes, k.home);
    assert forall m :: 0 <= m < c.nodes ==> tbl[m][m] <= tbl'[m][m];
    FullMono(c, tbl, tbl', k.winner, searched);
    assert FoundAfter(c, tbl', k.winner, k.home, searched);
    forall q | q in claim ensures ClaimOk(c, q, claim[q], tbl') && !SamePlace(claim[q], k) {
      assert ClaimOk(c, q, claim[q], tbl);
      ClaimOkMono(c, q, claim[q], tbl, tbl');
    }
    assert |claim'| == |claim| + 1;
  }

  /** The compare-and-swap that claims an offset, when it succeeds ... */
  lemma ClaimWinKeeps(c: Config, s: State, r: nat, p: nat, k: nat, offset: nat)
    requires Inv(c, s) && r < c.nodes && s.pc[r] == TryClaim(p, k, offset)
    requires offset < c.quota && s.tbl[Candidate(c, r, k)][Candidate(c, r, k)] == offset
    ensures PcInRange(c, s.pc[r]) && Inv(c, ClaimNext(c, s, r, p, k, offset))
  {
    var t := ClaimNext(c, s, r, p, k, offset);
    assert PcOk(c, r, s.pc[r], PcEntry(c, s, r), s.tbl, s.claim);
    ClaimsGrow(c, s.claim, s.tbl, p, Claim(r, Candidate(c, r, k), offset), k, t.tbl);
    ClaimIsClaimed(c, s, r, p, k, offset);
    ClaimKeepsOwners(c, s, t, r, p);
    ClaimKeepsPcs(c, s, t, r, p);
  }

  /** What the successful compare-and-swap changes, and what the winner relies on from then on. */
  lemma ClaimIsClaimed(c: Config, s: State, r: nat, p: nat, k: nat, offset: nat)
    requires WellFormed(c, s) && r < c.nodes && s.pc[r] == TryClaim(p, k, offset) && TablesOk(c, s.tbl)
    requires offset < c.quota && s.tbl[Candidate(c, r, k)][Candidate(c, r, k)] == offset
    requires PcOk(c, r, s.pc[r], PcEntry(c, s, r), s.tbl, s.claim)
    ensures var t := ClaimNext(c, s, r, p, k, offset);
      && Claimed(c, s, t, r, p) && TablesOk(c, t.tbl)
      && PcOk(c, r, t.pc[r], PcEntry(c, t, r), t.tbl, t.claim)
  {
    FullMono(c, s.tbl, ClaimNext(c, s, r, p, k, offset).tbl, r, k);
  }

  /** ... and when it fails or is not tried. */
  lemma ClaimLossKeeps(c: Config, s: State, r: nat, p: nat, k: nat, offset: nat)
    requires Inv(c, s) && r < c.nodes && s.pc[r] == TryClaim(p, k, offset)
    requires offset >= c.quota || s.tbl[Candidate(c, r, k)][Candidate(c, r, k)] != offset
    ensures PcInRange(c, s.pc[r]) && Inv(c, ClaimNext(c, s, r, p, k, offset))
  {
    assert PcOk(c, r, s.pc[r], PcEntry(c, s, r), s.tbl, s.claim);
    MoveKeeps(c, s, r, ClaimNext(c, s, r, p, k, offset).pc[r]);
  }

  /** `t` is `s` after node `r` has claimed a place for page `p`. */
  ghost predicate Claimed(c: Config, s: State, t: State, r: nat, p: nat) {
    && WellFormed(c, s) && WellFormed(c, t) && r < c.nodes && s.pc[r].TryClaim? && s.pc[r].p == p
    && t.dir == s.dir && t.pc == s.pc[r := t.pc[r]] && p !in s.claim && p in t.claim
    && t.claim == s.claim[p := t.claim[p]] && t.claim[p].winner == r && Holding(c, r, t.pc[r], p, t.claim[p])
    && (forall m :: 0 <= m < c.nodes ==> s.tbl[m][m] <= t.tbl[m][m])
  }

  lemma ClaimKeepsOwners(c: Config, s: State, t: State, r: nat, p: nat)
    requires Inv(c, s) && Claimed(c, s, t, r, p)
    ensures EntriesOk(c, t.dir, t.claim)
    ensures forall q :: 0 <= q < c.pages ==> OwnerOk(c, t.dir[CasNode(c, q)][q], q, t.pc, t.claim)
  {
    assert PcOk(c, r, s.pc[r], PcEntry(c, s, r), s.tbl, s.claim);
    forall q | 0 <= q < c.pages ensures OwnerOk(c, t.dir[CasNode(c, q)][q], q, t.pc, t.claim) {
      var e := s.dir[CasNode(c, q)][q];
      assert OwnerOk(c, e, q, s.pc, s.claim);
      ClaimKeepsOwner(c, e, q, s.pc, s.claim, r, p, t.pc[r], t.claim[p]);
    }
  }

  /** The entry of a page when node r, which tries to claim a place for page p, has got one. */
  lemma ClaimKeepsOwner(c: Config, e: Info, q: nat, pc: seq<Pc>, claim: Claims, r: nat, p: nat, pc': Pc, k: Claim)
    requires ValidConfig(c) && |pc| == c.nodes && OwnerOk(c, e, q, pc, claim)
    requires r < c.nodes && pc[r].TryClaim? && pc[r].p == p && p !in claim && Holding(c, r, pc', p, k)
    requires q == p ==> e.owner == Val(r)
    ensures OwnerOk(c, e, q, pc[r := pc'], claim[p := k])
  {
  }

  lemma ClaimKeepsPcs(c: Config, s: State, t: State, r: nat, p: nat)
    requires Inv(c, s) && Claimed(c, s, t, r, p)
    requires PcOk(c, r, t.pc[r], PcEntry(c, t, r), t.tbl, t.claim)
    ensures forall m :: 0 <= m < c.nodes ==> PcOk(c, m, t.pc[m], PcEntry(c, t, m), t.tbl, t.claim)
  {
    assert PcOk(c, r, s.pc[r], PcEntry(c, s, r), s.tbl, s.claim);
    forall m | 0 <= m < c.nodes ensures PcOk(c, m, t.pc[m], PcEntry(c, t, m), t.tbl, t.claim) {
      if m != r {
        PcOkMono(c, m, s.pc[m], PcEntry(c, s, m), s.tbl, t.tbl, s.claim);
      }
    }
  }

  lemma ScanKeeps(c: Config, s: State, r: nat)
    requires Inv(c, s) && r < c.nodes && s.pc[r].Scan?
    ensures Inv(c, TouchNext(c, s, r))
  {
    assert PcOk(c, r, s.pc[r], PcEntry(c, s, r), s.tbl, s.claim);
    MoveKeeps(c, s, r, TouchNext(c, s, r).pc[r]);
  }

  lemma InvStep(c: Config, s: State, l: Label)
    requires Inv(c, s) && Enabled(c, s, l)
    ensures Inv(c, Next(c, s, l))
  {
    match l
    case Call(r, p) => MoveKeeps(c, s, r, Start(p));
    case Step(r) =>
      match s.pc[r]
      case Cas(_) => CasKeeps(c, s, r);
      case Scan(_, _) => ScanKeeps(c, s, r);
      case TryClaim(p, k, offset) =>
        if offset < c.quota && s.tbl[Candidate(c, r, k)][Candidate(c, r, k)] == offset {
          ClaimWinKeeps(c, s, r, p, k, offset);
        } else {
          ClaimLossKeeps(c, s, r, p, k, offset);
        }
      case CacheOffset(p, k, offset, won) => CacheOffsetKeeps(c, s, r, p, k, offset, won);
      case StoreLocal(_, _, _) => StoreKeeps(c, s, r);
      case StorePublic(_, _, _) => StoreKeeps(c, s, r);
      case StoreCopy(_, _) => CopyKeeps(c, s, r);
      case _ => ReaderKeeps(c, s, r);
  }

  lemma {:induction false} InvRun(c: Config, s: State, run: seq<Label>, t: State)
    requires Inv(c, s) && IsRun(c, s, run, t)
    ensures Inv(c, t)
    decreases |run|
  {
    if run != [] {
      InvStep(c, s, run[0]);
      InvRun(c, Next(c, s, run[0]), run[1..], t);
    }
  }

  // ----- what the policy promises -----

  /** What a call of node `r` for page `p` returns once it may return: home and offset words. */
  ghost predicate Returns(s: State, r: nat, p: nat, home: nat, offset: nat) {
    && r < |s.dir| && p < |s.dir[r]|
    && s.dir[r][p].home == Val(home) && s.dir[r][p].offset == Val(offset)
  }

  lemma {:induction false} ClaimsStay(c: Config, s: State, run: seq<Label>, t: State, p: nat)
    requires Inv(c, s) && IsRun(c, s, run, t) && p in s.claim
    ensures p in t.claim && t.claim[p] == s.claim[p]
    decreases |run|
  {
    if run != [] {
      InvStep(c, s, run[0]);
      var next := Next(c, s, run[0]);
      ClaimStays(c, s, run[0], p);
      ClaimsStay(c, next, run[1..], t, p);
    }
  }

  lemma ClaimStays(c: Config, s: State, l: Label, p: nat)
    requires Inv(c, s) && Enabled(c, s, l) && p in s.claim
    ensures p in Next(c, s, l).claim && Next(c, s, l).claim[p] == s.claim[p]
  {
    if l.Step? {
      assert PcOk(c, l.r, s.pc[l.r], PcEntry(c, s, l.r), s.tbl, s.claim);
    }
  }

  /**
   Agreement for ever: for every interleaving, all calls for a page return the same home and
   offset, whichever nodes make them and however far apart in time they return, and both are
   within the range the callers check.
   */
  lemma Agreement(c: Config, run1: seq<Label>, s: State, run2: seq<Label>, t: State, p: nat,
                  r: nat, home: nat, offset: nat, r': nat, home': nat, offset': nat)
    requires ValidConfig(c) && IsRun(c, Initial(c), run1, s) && IsRun(c, s, run2, t)
    requires Returns(s, r, p, home, offset) && Returns(t, r', p, home', offset')
    ensures home == home' < c.nodes && offset == offset' < c.quota
  {
    InitialInv(c);
    InvRun(c, Initial(c), run1, s);
    InvRun(c, s, run2, t);
    assert EntryOk(c, r, p, s.dir[r][p], s.claim);
    assert EntryOk(c, r', p, t.dir[r'][p], t.claim);
    ClaimsStay(c, s, run2, t, p);
    assert ClaimOk(c, p, t.claim[p], t.tbl);
  }

  /** Injectivity: two different pages never get the same place. */
  lemma Injectivity(c: Config, run: seq<Label>, s: State, p: nat, q: nat, r: nat, r': nat, home: nat, offset: nat)
    requires ValidConfig(c) && IsRun(c, Initial(c), run, s)
    requires Returns(s, r, p, home, offset) && Returns(s, r', q, home, offset)
    ensures p == q
  {
    InitialInv(c);
    InvRun(c, Initial(c), run, s);
    assert EntryOk(c, r, p, s.dir[r][p], s.claim);
    assert EntryOk(c, r', q, s.dir[r'][q], s.claim);
    assert SamePlace(s.claim[p], s.claim[q]);
  }

  lemma {:induction false} AllFull(c: Config, tbl: Tables, n: nat)
    requires Sized(tbl, c.nodes, c.nodes) && n <= c.nodes && forall m :: 0 <= m < c.nodes ==> tbl[m][m] >= c.quota
    ensures Handed(tbl, n) >= n * c.quota
  {
    if n > 0 {
      AllFull(c, tbl, n - 1);
    }
  }

  /** Every node is scanned by a search of `r`. */
  lemma CandidatesCover(c: Config, r: nat, m: nat) returns (j: nat)
    requires c.nodes > 0 && r < c.nodes && m < c.nodes
    ensures j < c.nodes && Candidate(c, r, j) == m
  {
    j := if m >= r then m - r else m + c.nodes - r;
  }

  lemma KeysBelow(keys: set<nat>, bound: nat)
    requires forall k :: k in keys ==> k < bound
    ensures |keys| <= bound
  {
    if bound == 0 {
      assert keys == {};
    } else {
      KeysBelow(keys - {bound - 1}, bound - 1);
    }
  }

  lemma SearchSucceeds(c: Config, s: State, r: nat)
    requires Inv(c, s) && r < c.nodes
    ensures !s.pc[r].OutOfSpace?
  {
    if s.pc[r].OutOfSpace? {
      var p := s.pc[r].p;
      assert PcOk(c, r, s.pc[r], PcEntry(c, s, r), s.tbl, s.claim);
      forall m | 0 <= m < c.nodes ensures s.tbl[m][m] >= c.quota {
        var j := CandidatesCover(c, r, m);
        assert Full(c, s.tbl, Candidate(c, r, j));
      }
      AllFull(c, s.tbl, c.nodes);
      assert forall q :: q in s.claim.Keys ==> ClaimOk(c, q, s.claim[q], s.tbl);
      KeysBelow(s.claim.Keys + {p}, c.pages);
      assert false;
    }
  }

  /** The memory never runs out: no search ends without an offset. */
  lemma NeverOutOfSpace(c: Config, run: seq<Label>, s: State, r: nat)
    requires ValidConfig(c) && IsRun(c, Initial(c), run, s) && r < c.nodes
    ensures !s.pc[r].OutOfSpace?
    ensures Handed(s.tbl, c.nodes) == |s.claim| <= c.pages
  {
    InitialInv(c);
    InvRun(c, Initial(c), run, s);
    SearchSucceeds(c, s, r);
    assert forall q :: q in s.claim.Keys ==> ClaimOk(c, q, s.claim[q], s.tbl);
    KeysBelow(s.claim.Keys, c.pages);
  }

  /** A failed compare-and-swap on the offset raises the guess, which stays below the authoritative offset. */
  lemma SearchProgress(c: Config, s: State, r: nat)
    requires Inv(c, s) && r < c.nodes && s.pc[r].TryClaim? && TouchNext(c, s, r).pc[r].TryClaim?
    ensures var offset' := TouchNext(c, s, r).pc[r].offset; var n := Candidate(c, r, s.pc[r].searched);
      s.pc[r].offset < c.quota && s.pc[r].offset < offset' == s.tbl[n][n]
  {
    assert PcOk(c, r, s.pc[r], PcEntry(c, s, r), s.tbl, s.claim);
  }

  /** Locality: a page leaves its first toucher only for lack of room on every node scanned before its home. */
  lemma Locality(c: Config, run: seq<Label>, s: State, p: nat, r: nat, home: nat, offset: nat)
    requires ValidConfig(c) && IsRun(c, Initial(c), run, s) && Returns(s, r, p, home, offset)
    ensures s.dir[CasNode(c, p)][p].owner.Val?
    ensures var w := s.dir[CasNode(c, p)][p].owner.v;
      && w < c.nodes && (exists searched: nat :: FoundAfter(c, s.tbl, w, home, searched))
      && (home != w ==> Full(c, s.tbl, w))
  {
    InitialInv(c);
    InvRun(c, Initial(c), run, s);
    assert EntryOk(c, r, p, s.dir[r][p], s.claim);
    assert OwnerOk(c, s.dir[CasNode(c, p)][p], p, s.pc, s.claim);
    assert ClaimOk(c, p, s.claim[p], s.tbl);
    if home != s.claim[p].winner {
      LeavesFull(c, s.tbl, s.claim[p].winner, home);
    }
  }

  lemma LeavesFull(c: Config, tbl: Tables, w: nat, home: nat)
    requires ValidConfig(c) && Sized(tbl, c.nodes, c.nodes) && w < c.nodes && home != w
    requires exists searched: nat :: FoundAfter(c, tbl, w, home, searched)
    ensures Full(c, tbl, w)
  {
    var searched: nat :| FoundAfter(c, tbl, w, home, searched);
    assert Candidate(c, w, 0) == w;
  }
}
