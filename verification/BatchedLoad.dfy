/**
 The directory work of load_cache_entry for a range of pages with one home.

 The loader registers itself as a sharer of all pages of the range with one accumulate,
 merges what it fetched into its own words, and sends each node that was the only other
 sharer of some of the pages one accumulate for all of them. `LoadRange` is that code;
 `RangeAfter` says page by page and node by node what must come out, and `RangeIsProtocol`
 that this is what the page protocol does when it loads the pages one by one.
 */
module BatchedLoad {
  import opened PageProtocol

  type Row = seq<set<Node>>   // one directory word per page of the range

  /** The sharer and writer words of every node for the pages of the range. */
  datatype Words = Words(sharers: seq<Row>, writers: seq<Row>)

  ghost predicate Fits(d: Words, nodes: nat, pages: nat) {
    && |d.sharers| == |d.writers| == nodes
    && (forall n :: 0 <= n < nodes ==> |d.sharers[n]| == pages)
    && (forall n :: 0 <= n < nodes ==> |d.writers[n]| == pages)
    && (forall n, i, x :: 0 <= n < nodes && 0 <= i < pages && x in d.sharers[n][i] ==> x < nodes)
  }

  /** The loader is not listed in its own sharer word yet. */
  predicate IsNew(d: Words, me: Node, load: seq<bool>, i: nat)
    requires me < |d.sharers| && i < |d.sharers[me]| && i < |load|
  {
    load[i] && me !in d.sharers[me][i]
  }

  ghost predicate AnyNew(d: Words, me: Node, load: seq<bool>)
    requires me < |d.sharers| && |d.sharers[me]| == |load|
  {
    exists i :: 0 <= i < |load| && IsNew(d, me, load, i)
  }

  /** The sharer word of node `n` for a page after it has been loaded by `me`. */
  ghost function SharersAfter(me: Node, home: Node, n: Node, own: set<Node>, atHome: set<Node>, word: set<Node>,
                              refresh: bool): (r: set<Node>)
  {
    var isNew := me !in own;
    var seen := if isNew || refresh then atHome else {};
    word
    + (if n == home && isNew then {me} else {})
    + (if n == me then seen + {me} else {})
    + (if isNew && n in SoleOther(me, seen) then {me} else {})
  }

  ghost function WritersAfter(me: Node, n: Node, own: set<Node>, atHome: set<Node>, word: set<Node>,
                              refresh: bool): (r: set<Node>)
  {
    if n == me && (me !in own || refresh) then word + atHome else word
  }

  /** Page by page and node by node, what loading the range does to the directory. */
  ghost predicate RangeAfter(me: Node, home: Node, load: seq<bool>, d: Words, r: Words, nodes: nat)
    requires me < nodes && home < nodes && Fits(d, nodes, |load|) && Fits(r, nodes, |load|)
  {
    && (forall n, i :: 0 <= n < nodes && 0 <= i < |load| ==>
          r.sharers[n][i] == SharersNext(me, home, load, d, n, i, AnyNew(d, me, load)))
    && (forall n, i :: 0 <= n < nodes && 0 <= i < |load| ==>
          r.writers[n][i] == WritersNext(me, home, load, d, n, i, AnyNew(d, me, load)))
  }

  ghost function SharersNext(me: Node, home: Node, load: seq<bool>, d: Words, n: Node, i: nat, refresh: bool)
    : (r: set<Node>)
    requires me < |d.sharers| && home < |d.sharers| && n < |d.sharers| && i < |load|
    requires i < |d.sharers[me]| && i < |d.sharers[home]| && i < |d.sharers[n]|
  {
    if load[i] then SharersAfter(me, home, n, d.sharers[me][i], d.sharers[home][i], d.sharers[n][i], refresh)
    else d.sharers[n][i]
  }

  ghost function WritersNext(me: Node, home: Node, load: seq<bool>, d: Words, n: Node, i: nat, refresh: bool)
    : (r: set<Node>)
    requires me < |d.sharers| && home < |d.writers| && n < |d.writers| && i < |load|
    requires i < |d.sharers[me]| && i < |d.writers[home]| && i < |d.writers[n]|
  {
    if load[i] then WritersAfter(me, n, d.sharers[me][i], d.writers[home][i], d.writers[n][i], refresh)
    else d.writers[n][i]
  }

  /** The rank whose bit is the only one set. */
  method RankOf(others: set<Node>, nodes: nat) returns (owner: Node)
    requires |others| == 1 && forall x :: x in others ==> x < nodes
    ensures others == {owner} && owner < nodes
  {
    ghost var o :| o in others;
    assert others - {o} == {} by { assert |others - {o}| == 0; }
    assert others == {o};
    owner := 0;
    while owner !in others
      invariant owner <= o
      decreases o - owner
    {
      owner := owner + 1;
    }
  }

  /** Adding a node to the masked words of a row with one accumulate. */
  function AddMasked(row: Row, mask: seq<bool>, me: Node): (r: Row)
    requires |row| == |mask|
    ensures |r| == |row|
    ensures forall i :: 0 <= i < |row| ==> r[i] == if mask[i] then row[i] + {me} else row[i]
  {
    seq(|row|, i requires 0 <= i < |row| => if mask[i] then row[i] + {me} else row[i])
  }

  /** The page needs a downgrade notice: newly shared, with exactly one other sharer. */
  predicate Needs(me: Node, load: bool, wasSharer: bool, seen: set<Node>) {
    load && !wasSharer && |seen - {me}| == 1
  }

  /** The marks of the pages from `i` on that need a notice to the same owner and have none yet. */
  method MarkSameOwner(me: Node, i: nat, load: seq<bool>, wasSharer: seq<bool>, seen: Row, handled: seq<bool>)
    returns (mask: seq<bool>, handled': seq<bool>)
    requires |load| == |wasSharer| == |seen| == |handled| && i < |load| && !handled[i]
    requires Needs(me, load[i], wasSharer[i], seen[i])
    ensures |mask| == |handled'| == |load|
    ensures forall j :: 0 <= j < |load| ==>
      (mask[j] <==>
         j >= i && !handled[j] && Needs(me, load[j], wasSharer[j], seen[j]) && seen[j] - {me} == seen[i] - {me})
    ensures forall j :: 0 <= j < |load| ==> (handled'[j] <==> handled[j] || (mask[j] && j > i))
  {
    mask := seq(|load|, j => j == i);
    handled' := handled;
    for j := i + 1 to |load|
      invariant |mask| == |handled'| == |load|
      invariant forall x :: 0 <= x < |load| ==>
        (mask[x] <==>
           && i <= x < j && !handled[x] && Needs(me, load[x], wasSharer[x], seen[x])
           && seen[x] - {me} == seen[i] - {me})
      invariant forall x :: 0 <= x < |load| ==> (handled'[x] <==> handled[x] || (mask[x] && x > i))
    {
      if load[j] && !handled'[j] {
        if seen[j] - {me} == seen[i] - {me} && !wasSharer[j] {
          mask := mask[j := true];
          handled' := handled'[j := true];
        }
      }
    }
  }

  ghost predicate Rows(rows: seq<Row>, nodes: nat, pages: nat) {
    |rows| == nodes && forall n :: 0 <= n < nodes ==> |rows[n]| == pages
  }

  /** The owners of the pages in `done`, and nobody else, have been sent one notice each. */
  ghost predicate Delivered(me: Node, before: seq<Row>, after: seq<Row>, seen: Row, notices: seq<nat>, done: set<nat>) {
    && Rows(before, |before|, |seen|) && Rows(after, |before|, |seen|) && |notices| == |seen|
    && (forall n, j :: 0 <= n < |before| && 0 <= j < |seen| ==>
          after[n][j] == if j in done && n in seen[j] - {me} then before[n][j] + {me} else before[n][j])
    && (forall j :: 0 <= j < |seen| ==> notices[j] == if j in done then 1 else 0)
  }

  lemma DeliverMore(me: Node, before: seq<Row>, after: seq<Row>, seen: Row, notices: seq<nat>, done: set<nat>,
                    owner: Node, mask: seq<bool>, after': seq<Row>, notices': seq<nat>, done': set<nat>)
    requires Delivered(me, before, after, seen, notices, done)
    requires owner < |before| && |mask| == |seen| && after' == after[owner := AddMasked(after[owner], mask, me)]
    requires |notices'| == |seen|
    requires forall j :: 0 <= j < |seen| ==> notices'[j] == notices[j] + if mask[j] then 1 else 0
    requires forall j :: 0 <= j < |seen| && mask[j] ==> j !in done && seen[j] - {me} == {owner}
    requires forall j :: 0 <= j < |seen| ==> (j in done' <==> j in done || mask[j])
    ensures Delivered(me, before, after', seen, notices', done')
  {
    forall n, j | 0 <= n < |before| && 0 <= j < |seen|
      ensures after'[n][j] == if j in done' && n in seen[j] - {me} then before[n][j] + {me} else before[n][j]
    {
      assert after[n][j] == if j in done && n in seen[j] - {me} then before[n][j] + {me} else before[n][j];
    }
  }

  ghost function DonePages(me: Node, i: nat, load: seq<bool>, wasSharer: seq<bool>, seen: Row, handled: seq<bool>)
    : (r: set<nat>)
    requires |load| == |wasSharer| == |seen| == |handled|
  {
    set j: nat | j < |load| && (j < i || handled[j]) && Needs(me, load[j], wasSharer[j], seen[j])
  }

  /** Every page that needs one gets exactly one notice, and it reaches the only other sharer. */
  method NotifyOwners(me: Node, nodes: nat, load: seq<bool>, wasSharer: seq<bool>, seen: Row, sharers: seq<Row>)
    returns (r: seq<Row>, notices: seq<nat>)
    requires |load| == |wasSharer| == |seen| && Rows(sharers, nodes, |load|)
    requires forall j, x :: 0 <= j < |seen| && x in seen[j] ==> x < nodes
    ensures Delivered(me, sharers, r, seen, notices,
                      set j: nat | j < |load| && Needs(me, load[j], wasSharer[j], seen[j]))
  {
    var handled := seq(|load|, _ => false);
    r := sharers;
    notices := seq(|load|, _ => 0);
    for i := 0 to |load|
      invariant |handled| == |load|
      invariant forall j :: 0 <= j < |load| && handled[j] ==> Needs(me, load[j], wasSharer[j], seen[j])
      invariant Delivered(me, sharers, r, seen, notices, DonePages(me, i, load, wasSharer, seen, handled))
    {
      ghost var done := DonePages(me, i, load, wasSharer, seen, handled);
      if !handled[i] && Needs(me, load[i], wasSharer[i], seen[i]) {
        var owner := RankOf(seen[i] - {me}, nodes);
        var mask, handled' := MarkSameOwner(me, i, load, wasSharer, seen, handled);
        var r' := r[owner := AddMasked(r[owner], mask, me)];
        var notices' := seq(|load|, j requires 0 <= j < |load| => notices[j] + if mask[j] then 1 else 0);
        DeliverMore(me, sharers, r, seen, notices, done, owner, mask, r', notices',
                    DonePages(me, i + 1, load, wasSharer, seen, handled'));
        r, notices, handled := r', notices', handled';
      } else {
        assert done == DonePages(me, i + 1, load, wasSharer, seen, handled);
      }
    }
    assert DonePages(me, |load|, load, wasSharer, seen, handled) ==
      set j: nat | j < |load| && Needs(me, load[j], wasSharer[j], seen[j]);
  }

  /** The own words of the loader after merging what it fetched. */
  method MergeFetched(me: Node, load: seq<bool>, own: Row, seen: Row, addSelf: bool) returns (r: Row)
    requires |load| == |own| == |seen|
    ensures |r| == |own|
    ensures forall i :: 0 <= i < |own| ==>
      r[i] == if load[i] then own[i] + seen[i] + (if addSelf then {me} else {}) else own[i]
  {
    r := own;
    for i := 0 to |load|
      invariant |r| == |own|
      invariant forall j :: 0 <= j < |own| ==>
        r[j] == if load[j] && j < i then own[j] + seen[j] + (if addSelf then {me} else {}) else own[j]
    {
      if load[i] {
        r := r[i := own[i] + seen[i] + if addSelf then {me} else {}];
      }
    }
  }

  method CheckOwn(me: Node, load: seq<bool>, own: Row) returns (wasSharer: seq<bool>, mask: seq<bool>, newSharer: bool)
    requires |load| == |own|
    ensures |wasSharer| == |mask| == |load|
    ensures forall i :: 0 <= i < |load| ==> wasSharer[i] == (load[i] && me in own[i])
    ensures forall i :: 0 <= i < |load| ==> mask[i] == (load[i] && me !in own[i])
    ensures newSharer <==> exists i :: 0 <= i < |load| && mask[i]
  {
    wasSharer, mask, newSharer := seq(|load|, _ => false), seq(|load|, _ => false), false;
    for i := 0 to |load|
      invariant |wasSharer| == |mask| == |load|
      invariant forall j :: 0 <= j < |load| ==> wasSharer[j] == (j < i && load[j] && me in own[j])
      invariant forall j :: 0 <= j < |load| ==> mask[j] == (j < i && load[j] && me !in own[j])
      invariant newSharer <==> exists j :: 0 <= j < i && mask[j]
    {
      if load[i] {
        if me in own[i] {
          wasSharer := wasSharer[i := true];
        } else {
          mask := mask[i := true];
          newSharer := true;
        }
      }
    }
  }

  /** The words of one node for one page between the merge and the notices. */
  ghost function SharersMidway(me: Node, home: Node, n: Node, own: set<Node>, atHome: set<Node>, word: set<Node>,
                               refresh: bool): (r: set<Node>)
  {
    word
    + (if n == home && me !in own then {me} else {})
    + (if n == me then (if refresh then atHome else {}) + {me} else {})
  }

  /** The fields of the directory before and after the notices, for a range with or without new pages. */
  ghost predicate Midway(me: Node, home: Node, load: seq<bool>, d: Words, mid: seq<Row>, nodes: nat, refresh: bool)
    requires me < nodes && home < nodes && Fits(d, nodes, |load|) && Rows(mid, nodes, |load|)
  {
    forall n, i :: 0 <= n < nodes && 0 <= i < |load| ==>
      mid[n][i] ==
        if load[i] then SharersMidway(me, home, n, d.sharers[me][i], d.sharers[home][i], d.sharers[n][i], refresh)
        else d.sharers[n][i]
  }

  /** One word: adding the notice to what the merge left gives what loading the page must give. */
  lemma WordFinish(me: Node, home: Node, n: Node, own: set<Node>, atHome: set<Node>, word: set<Node>, refresh: bool)
    requires me !in own ==> refresh
    ensures var seen := if refresh then atHome else {};
      var mid := SharersMidway(me, home, n, own, atHome, word, refresh);
      SharersAfter(me, home, n, own, atHome, word, refresh) ==
      if Needs(me, true, me in own, seen) && n in seen - {me} then mid + {me} else mid
  {
  }

  /** What holds between the merge and the notices. */
  ghost predicate Merged(me: Node, home: Node, nodes: nat, load: seq<bool>, d: Words, mid: seq<Row>,
                         wasSharer: seq<bool>, seen: Row)
  {
    && me < nodes && home < nodes && me != home && Fits(d, nodes, |load|) && Rows(mid, nodes, |load|)
    && Midway(me, home, load, d, mid, nodes, AnyNew(d, me, load))
    && |wasSharer| == |seen| == |load|
    && (forall i :: 0 <= i < |load| ==> wasSharer[i] == (load[i] && me in d.sharers[me][i]))
    && (forall i :: 0 <= i < |load| ==> seen[i] == if AnyNew(d, me, load) then d.sharers[home][i] else {})
  }

  lemma SharersFinish(me: Node, home: Node, nodes: nat, load: seq<bool>, d: Words, mid: seq<Row>,
                      wasSharer: seq<bool>, seen: Row, n: Node, i: nat, after: set<Node>)
    requires Merged(me, home, nodes, load, d, mid, wasSharer, seen) && n < nodes && i < |load|
    requires after ==
      if Needs(me, load[i], wasSharer[i], seen[i]) && n in seen[i] - {me} then mid[n][i] + {me} else mid[n][i]
    ensures after == SharersNext(me, home, load, d, n, i, AnyNew(d, me, load))
    ensures forall x :: x in after ==> x < nodes
  {
    var refresh := AnyNew(d, me, load);
    assert IsNew(d, me, load, i) ==> refresh;
    var own, atHome, word := d.sharers[me][i], d.sharers[home][i], d.sharers[n][i];
    if load[i] {
      assert mid[n][i] == SharersMidway(me, home, n, own, atHome, word, refresh);
      WordFinish(me, home, n, own, atHome, word, refresh);
    } else {
      assert mid[n][i] == word;
    }
    SharersBounded(me, home, nodes, load, d, n, i, refresh);
  }

  lemma SharersBounded(me: Node, home: Node, nodes: nat, load: seq<bool>, d: Words, n: Node, i: nat, refresh: bool)
    requires me < nodes && home < nodes && n < nodes && i < |load| && Fits(d, nodes, |load|)
    ensures forall x :: x in SharersNext(me, home, load, d, n, i, refresh) ==> x < nodes
  {
  }

  /** The registration and the merge: everything before the notices. */
  method RegisterRange(me: Node, home: Node, nodes: nat, load: seq<bool>, d: Words)
    returns (mid: Words, wasSharer: seq<bool>, seen: Row)
    requires me < nodes && home < nodes && me != home && Fits(d, nodes, |load|)
    ensures Rows(mid.writers, nodes, |load|)
    ensures Merged(me, home, nodes, load, d, mid.sharers, wasSharer, seen)
    ensures forall n, i :: 0 <= n < nodes && 0 <= i < |load| ==>
      mid.writers[n][i] == WritersNext(me, home, load, d, n, i, AnyNew(d, me, load))
  {
    var mask, newSharer;
    wasSharer, mask, newSharer := CheckOwn(me, load, d.sharers[me]);
    assert newSharer <==> AnyNew(d, me, load) by {
      assert forall i :: 0 <= i < |load| ==> (mask[i] <==> IsNew(d, me, load, i));
    }
    seen := seq(|load|, _ => {});
    var seenWriters: Row := seq(|load|, _ => {});
    var sharers, writers := d.sharers, d.writers;
    if newSharer {
      seen, seenWriters := sharers[home], writers[home];
      sharers := sharers[home := AddMasked(sharers[home], mask, me)];
    }
    var ownSharers := MergeFetched(me, load, sharers[me], seen, true);
    var ownWriters := MergeFetched(me, load, writers[me], seenWriters, false);
    mid := Words(sharers[me := ownSharers], writers[me := ownWriters]);
  }

  /** The directory once all notices have been delivered is what `RangeAfter` prescribes. */
  lemma NoticesFinish(me: Node, home: Node, nodes: nat, load: seq<bool>, d: Words, mid: Words, after: seq<Row>,
                      wasSharer: seq<bool>, seen: Row, notices: seq<nat>, done: set<nat>)
    requires Merged(me, home, nodes, load, d, mid.sharers, wasSharer, seen) && Rows(mid.writers, nodes, |load|)
    requires forall n, i :: 0 <= n < nodes && 0 <= i < |load| ==>
      mid.writers[n][i] == WritersNext(me, home, load, d, n, i, AnyNew(d, me, load))
    requires forall i: nat :: i in done <==> i < |load| && Needs(me, load[i], wasSharer[i], seen[i])
    requires Delivered(me, mid.sharers, after, seen, notices, done)
    ensures Fits(Words(after, mid.writers), nodes, |load|)
    ensures RangeAfter(me, home, load, d, Words(after, mid.writers), nodes)
  {
    forall n, i | 0 <= n < nodes && 0 <= i < |load|
      ensures after[n][i] == SharersNext(me, home, load, d, n, i, AnyNew(d, me, load))
      ensures forall x :: x in after[n][i] ==> x < nodes
    {
      assert i in done <==> Needs(me, load[i], wasSharer[i], seen[i]);
      SharersFinish(me, home, nodes, load, d, mid.sharers, wasSharer, seen, n, i, after[n][i]);
    }
  }

  lemma NoticesCount(me: Node, home: Node, nodes: nat, load: seq<bool>, d: Words, mid: seq<Row>,
                     wasSharer: seq<bool>, seen: Row, i: nat)
    requires Merged(me, home, nodes, load, d, mid, wasSharer, seen) && i < |load|
    ensures Needs(me, load[i], wasSharer[i], seen[i]) <==> IsNew(d, me, load, i) && |d.sharers[home][i] - {me}| == 1
  {
    assert IsNew(d, me, load, i) ==> AnyNew(d, me, load);
  }

  method LoadRange(me: Node, home: Node, nodes: nat, load: seq<bool>, d: Words) returns (r: Words, notices: seq<nat>)
    requires me < nodes && home < nodes && me != home && Fits(d, nodes, |load|)
    ensures Fits(r, nodes, |load|) && RangeAfter(me, home, load, d, r, nodes)
    ensures r == RangeNext(me, home, load, d, nodes)
    ensures |notices| == |load| && forall i :: 0 <= i < |load| ==>
      notices[i] == if IsNew(d, me, load, i) && |d.sharers[home][i] - {me}| == 1 then 1 else 0
  {
    var mid, wasSharer, seen := RegisterRange(me, home, nodes, load, d);
    var after;
    after, notices := NotifyOwners(me, nodes, load, wasSharer, seen, mid.sharers);
    r := Words(after, mid.writers);
    ghost var done := set j: nat | j < |load| && Needs(me, load[j], wasSharer[j], seen[j]);
    NoticesFinish(me, home, nodes, load, d, mid, after, wasSharer, seen, notices, done);
    RangeIsUnique(me, home, load, d, r, RangeNext(me, home, load, d, nodes), nodes);
    forall i | 0 <= i < |load|
      ensures notices[i] == if IsNew(d, me, load, i) && |d.sharers[home][i] - {me}| == 1 then 1 else 0
    {
      NoticesCount(me, home, nodes, load, d, mid.sharers, wasSharer, seen, i);
    }
  }

  // ----- the page protocol does the same -----

  /** The state a load is in when it has registered at the home, if nothing disturbs it. */
  ghost function RunFetch(c: Config, s: State, k: Node, refresh: bool): (t: State)
    requires WellFormed(c, s) && CanLoad(c, s, k, LoadCheck)
    ensures WellFormed(c, t) && Remote(c, k) && t.node[k].op.LoadFetched?
  {
    LoadNext(c, LoadNext(c, s, k, LoadCheck), k, LoadRegister(refresh))
  }

  /** ... and when its notices are due. */
  ghost function RunLoad(c: Config, s: State, k: Node, refresh: bool): (t: State)
    requires WellFormed(c, s) && CanLoad(c, s, k, LoadCheck)
    ensures WellFormed(c, t) && Remote(c, k) && t.node[k].op.LoadMerged?
  {
    LoadNext(c, RunFetch(c, s, k, refresh), k, LoadMerge)
  }

  lemma FetchWords(c: Config, s: State, k: Node, refresh: bool, n: Node)
    requires WellFormed(c, s) && CanLoad(c, s, k, LoadCheck) && n < c.nodes
    ensures var t, h, isNew := RunFetch(c, s, k, refresh), s.node[c.home], k !in s.node[k].sharers;
      && t.node[n].sharers == s.node[n].sharers + (if n == c.home && isNew then {k} else {})
      && t.node[n].writers == s.node[n].writers
      && t.node[k].op == LoadFetched(isNew, if isNew || refresh then h.sharers else {},
                                     if isNew || refresh then h.writers else {})
  {
    var s1 := LoadNext(c, s, k, LoadCheck);
    assert s1.node[n].sharers == s.node[n].sharers && s1.node[n].writers == s.node[n].writers;
  }

  lemma MergeWords(c: Config, s: State, k: Node, n: Node)
    requires WellFormed(c, s) && CanLoad(c, s, k, LoadMerge) && n < c.nodes
    ensures var t, o := LoadNext(c, s, k, LoadMerge), s.node[k].op;
      && t.node[n].sharers == s.node[n].sharers + (if n == k then o.seenSharers + {k} else {})
      && t.node[n].writers == s.node[n].writers + (if n == k then o.seenWriters else {})
      && t.node[k].op == LoadMerged(if o.isNew then SoleOther(k, o.seenSharers) else {})
  {
    var t, o := LoadNext(c, s, k, LoadMerge), s.node[k].op;
    assert s.node[k].sharers + o.seenSharers + {k} == s.node[k].sharers + (o.seenSharers + {k});
  }

  lemma SharersAreProtocol(c: Config, s: State, k: Node, refresh: bool, n: Node)
    requires WellFormed(c, s) && CanLoad(c, s, k, LoadCheck) && n < c.nodes
    ensures var t, h := RunLoad(c, s, k, refresh), s.node[c.home];
      t.node[n].sharers + (if n in t.node[k].op.owner then {k} else {})
      == SharersAfter(k, c.home, n, s.node[k].sharers, h.sharers, s.node[n].sharers, refresh)
  {
    FetchWords(c, s, k, refresh, n);
    MergeWords(c, RunFetch(c, s, k, refresh), k, n);
  }

  lemma WritersAreProtocol(c: Config, s: State, k: Node, refresh: bool, n: Node)
    requires WellFormed(c, s) && CanLoad(c, s, k, LoadCheck) && n < c.nodes
    ensures RunLoad(c, s, k, refresh).node[n].writers
         == WritersAfter(k, n, s.node[k].sharers, s.node[c.home].writers, s.node[n].writers, refresh)
  {
    FetchWords(c, s, k, refresh, n);
    MergeWords(c, RunFetch(c, s, k, refresh), k, n);
  }

  /**
   Loading a page with the split steps of the protocol, undisturbed, leaves the words that
   `RangeAfter` prescribes for it once the notices it owes are delivered; `refresh` is
   whether another page of the range was new.
   */
  lemma RangeIsProtocol(c: Config, s: State, k: Node, refresh: bool, n: Node)
    requires WellFormed(c, s) && CanLoad(c, s, k, LoadCheck) && n < c.nodes
    ensures var t, h := RunLoad(c, s, k, refresh), s.node[c.home];
      && t.node[n].sharers + (if n in t.node[k].op.owner then {k} else {})
         == SharersAfter(k, c.home, n, s.node[k].sharers, h.sharers, s.node[n].sharers, refresh)
      && t.node[n].writers == WritersAfter(k, n, s.node[k].sharers, h.writers, s.node[n].writers, refresh)
  {
    SharersAreProtocol(c, s, k, refresh, n);
    WritersAreProtocol(c, s, k, refresh, n);
  }

  lemma NoticeDelivers(c: Config, s: State, k: Node, o: Node, n: Node)
    requires WellFormed(c, s) && CanLoad(c, s, k, LoadNotice(o)) && n < c.nodes
    ensures var t := LoadNext(c, s, k, LoadNotice(o));
      t.node[n].sharers + (if n in t.node[k].op.owner then {k} else {})
      == s.node[n].sharers + (if n in s.node[k].op.owner then {k} else {})
  {
  }

  // ----- a range against its pages one by one -----

  /** The words after a range has been loaded: what `LoadRange` computes. */
  ghost function RangeNext(me: Node, home: Node, load: seq<bool>, d: Words, nodes: nat): (r: Words)
    requires me < nodes && home < nodes && Fits(d, nodes, |load|)
    ensures Fits(r, nodes, |load|) && RangeAfter(me, home, load, d, r, nodes)
  {
    var refresh := AnyNew(d, me, load);
    var r := Words(
               seq(nodes, n requires 0 <= n < nodes =>
                 seq(|load|, i requires 0 <= i < |load| => SharersNext(me, home, load, d, n, i, refresh))),
               seq(nodes, n requires 0 <= n < nodes =>
                 seq(|load|, i requires 0 <= i < |load| => WritersNext(me, home, load, d, n, i, refresh))));
    AllBounded(me, home, nodes, load, d, refresh);
    r
  }

  lemma AllBounded(me: Node, home: Node, nodes: nat, load: seq<bool>, d: Words, refresh: bool)
    requires me < nodes && home < nodes && Fits(d, nodes, |load|)
    ensures forall n, i, x ::
      0 <= n < nodes && 0 <= i < |load| && x in SharersNext(me, home, load, d, n, i, refresh) ==> x < nodes
  {
  }

  /** `RangeAfter` leaves no choice. */
  lemma RangeIsUnique(me: Node, home: Node, load: seq<bool>, d: Words, a: Words, b: Words, nodes: nat)
    requires me < nodes && home < nodes && Fits(d, nodes, |load|) && Fits(a, nodes, |load|) && Fits(b, nodes, |load|)
    requires RangeAfter(me, home, load, d, a, nodes) && RangeAfter(me, home, load, d, b, nodes)
    ensures a == b
  {
    SameWords(a, b, nodes, |load|);
  }

  lemma SameWords(a: Words, b: Words, nodes: nat, pages: nat)
    requires Fits(a, nodes, pages) && Fits(b, nodes, pages)
    requires forall n, i :: 0 <= n < nodes && 0 <= i < pages ==> a.sharers[n][i] == b.sharers[n][i]
    requires forall n, i :: 0 <= n < nodes && 0 <= i < pages ==> a.writers[n][i] == b.writers[n][i]
    ensures a == b
  {
    forall n | 0 <= n < nodes
      ensures a.sharers[n] == b.sharers[n] && a.writers[n] == b.writers[n]
    {
    }
  }

  /** The range that consists of page i. */
  ghost function Only(i: nat, pages: nat): (load: seq<bool>)
    ensures |load| == pages
  {
    seq(pages, j => j == i)
  }

  /** The words after the chosen pages below k have been loaded, each alone. */
  ghost function OneByOne(me: Node, home: Node, load: seq<bool>, d: Words, nodes: nat, k: nat): (r: Words)
    requires me < nodes && home < nodes && Fits(d, nodes, |load|) && k <= |load|
    ensures Fits(r, nodes, |load|)
  {
    if k == 0 then d
    else
      var x := OneByOne(me, home, load, d, nodes, k - 1);
      if load[k - 1] then RangeNext(me, home, Only(k - 1, |load|), x, nodes) else x
  }

  /** Without another new page there is no refresh. */
  ghost predicate Single(me: Node, home: Node, load: seq<bool>, d: Words, r: Words, nodes: nat, k: nat)
    requires me < nodes && home < nodes && Fits(d, nodes, |load|) && Fits(r, nodes, |load|) && k <= |load|
  {
    && (forall n, i :: 0 <= n < nodes && 0 <= i < |load| ==>
          r.sharers[n][i] == if i < k then SharersNext(me, home, load, d, n, i, false) else d.sharers[n][i])
    && (forall n, i :: 0 <= n < nodes && 0 <= i < |load| ==>
          r.writers[n][i] == if i < k then WritersNext(me, home, load, d, n, i, false) else d.writers[n][i])
  }

  lemma OnlyNew(d: Words, me: Node, k: nat, pages: nat)
    requires me < |d.sharers| && |d.sharers[me]| == pages && k < pages
    ensures AnyNew(d, me, Only(k, pages)) <==> me !in d.sharers[me][k]
  {
    if me !in d.sharers[me][k] {
      assert IsNew(d, me, Only(k, pages), k);
    }
  }

  lemma {:induction false} OneByOneWords(me: Node, home: Node, load: seq<bool>, d: Words, nodes: nat, k: nat)
    requires me < nodes && home < nodes && Fits(d, nodes, |load|) && k <= |load|
    ensures Single(me, home, load, d, OneByOne(me, home, load, d, nodes, k), nodes, k)
  {
    if k > 0 {
      OneByOneWords(me, home, load, d, nodes, k - 1);
      var x := OneByOne(me, home, load, d, nodes, k - 1);
      if load[k - 1] {
        SingleMore(me, home, load, d, x, RangeNext(me, home, Only(k - 1, |load|), x, nodes), nodes, k - 1);
      } else {
        SingleSkip(me, home, load, d, x, nodes, k - 1);
      }
    }
  }

  lemma SingleSkip(me: Node, home: Node, load: seq<bool>, d: Words, x: Words, nodes: nat, k: nat)
    requires me < nodes && home < nodes && Fits(d, nodes, |load|) && Fits(x, nodes, |load|)
    requires k < |load| && !load[k] && Single(me, home, load, d, x, nodes, k)
    ensures Single(me, home, load, d, x, nodes, k + 1)
  {
    forall n | 0 <= n < nodes
      ensures SharersNext(me, home, load, d, n, k, false) == d.sharers[n][k]
      ensures WritersNext(me, home, load, d, n, k, false) == d.writers[n][k]
    {
    }
  }

  /** One page more. */
  lemma SingleMore(me: Node, home: Node, load: seq<bool>, d: Words, x: Words, y: Words, nodes: nat, k: nat)
    requires me < nodes && home < nodes && Fits(d, nodes, |load|) && Fits(x, nodes, |load|) && Fits(y, nodes, |load|)
    requires k < |load| && load[k] && Single(me, home, load, d, x, nodes, k)
    requires RangeAfter(me, home, Only(k, |load|), x, y, nodes)
    ensures Single(me, home, load, d, y, nodes, k + 1)
  {
    forall n, i | 0 <= n < nodes && 0 <= i < |load|
      ensures y.sharers[n][i] == if i < k + 1 then SharersNext(me, home, load, d, n, i, false) else d.sharers[n][i]
      ensures y.writers[n][i] == if i < k + 1 then WritersNext(me, home, load, d, n, i, false) else d.writers[n][i]
    {
      assert y.sharers[n][i] == SharersNext(me, home, Only(k, |load|), x, n, i, AnyNew(x, me, Only(k, |load|)));
      assert y.writers[n][i] == WritersNext(me, home, Only(k, |load|), x, n, i, AnyNew(x, me, Only(k, |load|)));
      if i == k {
        OnlyNew(x, me, k, |load|);
        assert x.sharers[n][k] == d.sharers[n][k] && x.writers[n][k] == d.writers[n][k];
        assert x.sharers[me][k] == d.sharers[me][k] && x.sharers[home][k] == d.sharers[home][k];
        assert x.writers[home][k] == d.writers[home][k];
      }
    }
  }

  /** Loading the page refreshes nothing that its loader does not know already. */
  ghost predicate NothingNews(me: Node, home: Node, load: seq<bool>, d: Words, i: nat)
    requires me < |d.sharers| && home < |d.sharers| && me < |d.writers| && home < |d.writers| && i < |load|
    requires i < |d.sharers[me]| && i < |d.sharers[home]| && i < |d.writers[me]| && i < |d.writers[home]|
  {
    load[i] && me in d.sharers[me][i] ==>
      d.sharers[home][i] <= d.sharers[me][i] && d.writers[home][i] <= d.writers[me][i]
  }

  /** One word with a refresh and without. */
  lemma WordRefreshed(me: Node, home: Node, load: seq<bool>, d: Words, nodes: nat, n: Node, i: nat)
    requires me < nodes && home < nodes && Fits(d, nodes, |load|) && n < nodes && i < |load|
    ensures NothingNews(me, home, load, d, i) || n != me <==>
      && SharersNext(me, home, load, d, n, i, true) == SharersNext(me, home, load, d, n, i, false)
      && WritersNext(me, home, load, d, n, i, true) == WritersNext(me, home, load, d, n, i, false)
  {
    if n == me && load[i] && me in d.sharers[me][i] {
      var own, atHome := d.sharers[me][i], d.sharers[home][i];
      assert SharersNext(me, home, load, d, n, i, true) == own + atHome;
      assert SharersNext(me, home, load, d, n, i, false) == own;
      assert atHome <= own <==> own + atHome == own;
      var w, h := d.writers[me][i], d.writers[home][i];
      assert h <= w <==> w + h == w;
    }
  }

  /**
   A range leaves the directory as its pages loaded one by one do, if and only if no page of it is
   new or its loader knows all the home does about the pages that it shares already.
   */
  lemma BatchVersusSingle(me: Node, home: Node, load: seq<bool>, d: Words, nodes: nat)
    requires me < nodes && home < nodes && Fits(d, nodes, |load|)
    ensures RangeNext(me, home, load, d, nodes) == OneByOne(me, home, load, d, nodes, |load|) <==>
      !AnyNew(d, me, load) || forall i :: 0 <= i < |load| ==> NothingNews(me, home, load, d, i)
  {
    var a, b := RangeNext(me, home, load, d, nodes), OneByOne(me, home, load, d, nodes, |load|);
    OneByOneWords(me, home, load, d, nodes, |load|);
    if !AnyNew(d, me, load) {
      SameWords(a, b, nodes, |load|);
    } else if forall i :: 0 <= i < |load| ==> NothingNews(me, home, load, d, i) {
      forall n, i | 0 <= n < nodes && 0 <= i < |load|
        ensures a.sharers[n][i] == b.sharers[n][i] && a.writers[n][i] == b.writers[n][i]
      {
        WordRefreshed(me, home, load, d, nodes, n, i);
      }
      SameWords(a, b, nodes, |load|);
    } else {
      var i :| 0 <= i < |load| && !NothingNews(me, home, load, d, i);
      WordRefreshed(me, home, load, d, nodes, me, i);
      assert a.sharers[me][i] != b.sharers[me][i] || a.writers[me][i] != b.writers[me][i];
    }
  }

  // ----- a case in which they differ -----

  /** Four nodes and two pages of home 0, nobody a sharer. */
  ghost function Unshared(): (d: Words)
    ensures Fits(d, 4, 2)
  {
    Words(seq(4, _ => [{}, {}]), seq(4, _ => [{}, {}]))
  }

  /** Nodes 1, 2 and 3 load the first page in turn. */
  ghost function AfterFirst(): (d: Words)
    ensures Fits(d, 4, 2)
  {
    RangeNext(1, 0, [true, false], Unshared(), 4)
  }

  ghost function AfterSecond(): (d: Words)
    ensures Fits(d, 4, 2)
  {
    RangeNext(2, 0, [true, false], AfterFirst(), 4)
  }

  ghost function AfterThird(): (d: Words)
    ensures Fits(d, 4, 2)
  {
    RangeNext(3, 0, [true, false], AfterSecond(), 4)
  }

  /** The words of the first page when node `me`, which is new to it, has loaded it. */
  lemma JoinedWords(me: Node, d: Words, n: Node)
    requires me < 4 && n < 4 && Fits(d, 4, 2) && me !in d.sharers[me][0]
    ensures var r := RangeNext(me, 0, [true, false], d, 4);
      && r.sharers[n][0] == SharersAfter(me, 0, n, d.sharers[me][0], d.sharers[0][0], d.sharers[n][0], true)
      && r.sharers[n][1] == d.sharers[n][1]
  {
    assert IsNew(d, me, [true, false], 0);
  }

  lemma FirstWords()
    ensures AfterFirst().sharers[0][0] == {1} && AfterFirst().sharers[1][0] == {1}
    ensures AfterFirst().sharers[2][0] == {} && AfterFirst().sharers[3][0] == {} && AfterFirst().sharers[1][1] == {}
  {
    var d := Unshared();
    JoinedWords(1, d, 0);
    JoinedWords(1, d, 1);
    JoinedWords(1, d, 2);
    JoinedWords(1, d, 3);
    assert {} - {1} == {};
  }

  lemma SecondWords()
    ensures AfterSecond().sharers[0][0] == {1, 2} && AfterSecond().sharers[1][0] == {1, 2}
    ensures AfterSecond().sharers[3][0] == {} && AfterSecond().sharers[1][1] == {}
  {
    FirstWords();
    JoinedWords(2, AfterFirst(), 0);
    JoinedWords(2, AfterFirst(), 1);
    JoinedWords(2, AfterFirst(), 3);
    SecondJoins();
  }

  lemma SecondJoins()
    ensures SharersAfter(2, 0, 0, {}, {1}, {1}, true) == {1, 2}
    ensures SharersAfter(2, 0, 1, {}, {1}, {1}, true) == {1, 2}
    ensures SharersAfter(2, 0, 3, {}, {1}, {}, true) == {}
  {
    assert {1} - {2} == {1};
    assert SoleOther(2, {1}) == {1};
  }

  lemma ThirdWords()
    ensures AfterThird().sharers[0][0] == {1, 2, 3} && AfterThird().sharers[1][0] == {1, 2}
    ensures AfterThird().sharers[1][1] == {}
  {
    SecondWords();
    JoinedWords(3, AfterSecond(), 0);
    JoinedWords(3, AfterSecond(), 1);
    ThirdJoins();
  }

  lemma ThirdJoins()
    ensures SharersAfter(3, 0, 0, {}, {1, 2}, {1, 2}, true) == {1, 2, 3}
    ensures SharersAfter(3, 0, 1, {}, {1, 2}, {1, 2}, true) == {1, 2}
  {
    assert {1, 2} - {3} == {1, 2} && |{1, 2}| == 2;
    assert SoleOther(3, {1, 2}) == {};
  }

  lemma DifferAt(d: Words)
    requires Fits(d, 4, 2) && d.sharers[0][0] == {1, 2, 3} && d.sharers[1][0] == {1, 2} && d.sharers[1][1] == {}
    ensures RangeNext(1, 0, [true, true], d, 4) != OneByOne(1, 0, [true, true], d, 4, 2)
  {
    assert IsNew(d, 1, [true, true], 1);
    assert 3 in d.sharers[0][0] && 3 !in d.sharers[1][0];
    assert !NothingNews(1, 0, [true, true], d, 0);
    BatchVersusSingle(1, 0, [true, true], d, 4);
  }

  /**
   Node 3 has joined two sharers, so nobody told node 1. If node 1 now loads the page again together
   with the second one, which is new to it, it learns of node 3; loading them one by one it does not.
   */
  lemma BatchDiffers()
    ensures RangeNext(1, 0, [true, true], AfterThird(), 4) != OneByOne(1, 0, [true, true], AfterThird(), 4, 2)
  {
    ThirdWords();
    DifferAt(AfterThird());
  }
}
