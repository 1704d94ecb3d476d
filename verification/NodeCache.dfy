/**
 The page cache and the write buffer of one node.

 The cache is direct-mapped: page p can only be in slot p % |slots|. The write buffer lists
 the dirty slots in the order they became dirty. `CacheState` is the value of the two
 together with the memory at the homes and the protection of the pages. The effect of each
 operation on every page is stated in the terms of `PageProtocol`, and class
 `PageCache.Cache` performs the operations in place.
 */
module NodeCache {
  import opened Arith
  import opened PageProtocol

  datatype Tag = Unmapped | Mapped(page: nat)

  datatype Slot = Slot(tag: Tag, valid: bool, dirty: bool, touched: bool, data: Page, twin: Page)

  datatype CacheState = CacheState(
    slots: seq<Slot>,
    buffer: seq<nat>,
    home: seq<Page>,
    prot: seq<Prot>)

  /** `i` is the index of slot `x` in a cache of `n` slots, for `pages` pages of `size` bytes. */
  ghost predicate SlotOk(x: Slot, i: nat, n: nat, pages: nat, size: nat)
    requires n > 0
  {
    && (x.dirty ==> x.valid)
    && (x.valid ==> x.touched)
    && (x.touched ==> x.tag.Mapped?)
    && (x.tag.Mapped? ==> x.tag.page < pages && x.tag.page % n == i)
    && |x.data| == |x.twin| == size
  }

  /** What the cache holds of a page, in the terms of the page protocol. */
  function CopyIn(slots: seq<Slot>, p: nat): (c: Copy)
    requires |slots| > 0
  {
    var x := slots[p % |slots|];
    if !x.valid || x.tag != Mapped(p) then Absent
    else if x.dirty then Dirty(x.data, x.twin)
    else Clean(x.data)
  }

  function ProtOf(c: Copy): (r: Prot) {
    match c
    case Absent => NoAccess
    case Clean(_) => ReadOnly
    case Dirty(_, _) => ReadWrite
  }

  ghost predicate NoDuplicates(b: seq<nat>) {
    forall i, j :: 0 <= i < j < |b| ==> b[i] != b[j]
  }

  /** Each dirty slot is listed once, and nothing else is. */
  ghost predicate ListsDirty(buffer: seq<nat>, slots: seq<Slot>) {
    && NoDuplicates(buffer)
    && (forall i :: 0 <= i < |slots| ==> (slots[i].dirty <==> i in buffer))
    && (forall i :: i in buffer ==> i < |slots|)
  }

  /**
   The invariant between operations: the buffer lists the dirty slots, dirty implies valid,
   valid implies touched, and a page is accessible exactly as its copy allows.
   */
  ghost predicate Agreed(s: CacheState, size: nat) {
    && |s.slots| > 0 && |s.home| == |s.prot|
    && (forall p :: 0 <= p < |s.home| ==> |s.home[p]| == size)
    && (forall i :: 0 <= i < |s.slots| ==> SlotOk(s.slots[i], i, |s.slots|, |s.home|, size))
    && ListsDirty(s.buffer, s.slots)
    && (forall p :: 0 <= p < |s.home| ==> s.prot[p] == ProtOf(CopyIn(s.slots, p)))
  }

  /** A dirty copy after it has been written back. */
  function Cleaned(c: Copy): (r: Copy) {
    if c.Dirty? then Clean(c.data) else c
  }

  /** The home's bytes after a copy has been written back if it was dirty. */
  ghost predicate WrittenTo(memory: Page, c: Copy, memory': Page) {
    if c.Dirty? then |c.data| == |c.twin| == |memory| && memory' == Merge(memory, c.data, c.twin)
    else memory' == memory
  }

  /** The pages in the slots of `done` have been written back and are clean; nothing else changed. */
  ghost predicate WroteBack(s: CacheState, t: CacheState, done: seq<nat>)
    requires |s.slots| > 0 && |t.slots| > 0
  {
    && |t.slots| == |s.slots| && |t.home| == |s.home| && |t.prot| == |s.prot|
    && forall p :: 0 <= p < |s.home| && p < |t.home| ==>
        if p % |s.slots| in done
        then CopyIn(t.slots, p) == Cleaned(CopyIn(s.slots, p)) && WrittenTo(s.home[p], CopyIn(s.slots, p), t.home[p])
        else CopyIn(t.slots, p) == CopyIn(s.slots, p) && t.home[p] == s.home[p]
  }

  /** Nothing about the slots changed except which are dirty. */
  ghost predicate OnlyDirtyBits(s: CacheState, t: CacheState) {
    && |t.slots| == |s.slots| && |t.home| == |s.home| && |t.prot| == |s.prot|
    && forall i :: 0 <= i < |s.slots| && i < |t.slots| ==> t.slots[i].(dirty := s.slots[i].dirty) == s.slots[i]
  }

  /** Popping the oldest slot and writing it back: dirty bit, protection, and the changes put home. */
  function Pop(s: CacheState, size: nat): (t: CacheState)
    requires Agreed(s, size) && s.buffer != []
    ensures OnlyDirtyBits(s, t) && t.buffer == s.buffer[1..]
  {
    var i := s.buffer[0];
    assert i in s.buffer;
    assert SlotOk(s.slots[i], i, |s.slots|, |s.home|, size);
    var x := s.slots[i];
    var p := x.tag.page;
    CacheState(s.slots[i := x.(dirty := false)], s.buffer[1..],
               s.home[p := Merge(s.home[p], x.data, x.twin)], s.prot[p := ReadOnly])
  }

  lemma TailDistinct(b: seq<nat>)
    requires NoDuplicates(b) && b != []
    ensures NoDuplicates(b[1..]) && b[0] !in b[1..]
    ensures forall j :: j in b <==> j == b[0] || j in b[1..]
  {
    assert b == [b[0]] + b[1..];
    assert forall k :: 0 <= k < |b[1..]| ==> b[1..][k] == b[k + 1];
  }

  lemma ListsDirtyPop(buffer: seq<nat>, slots: seq<Slot>, i: nat)
    requires ListsDirty(buffer, slots) && buffer != [] && i == buffer[0] < |slots|
    ensures ListsDirty(buffer[1..], slots[i := slots[i].(dirty := false)])
  {
    TailDistinct(buffer);
  }

  lemma PopWrites(s: CacheState, size: nat)
    requires Agreed(s, size) && s.buffer != []
    ensures Agreed(Pop(s, size), size)
    ensures WroteBack(s, Pop(s, size), [s.buffer[0]])
  {
    var i := s.buffer[0];
    var t := Pop(s, size);
    assert i in s.buffer;
    assert SlotOk(s.slots[i], i, |s.slots|, |s.home|, size);
    ListsDirtyPop(s.buffer, s.slots, i);
    forall j | 0 <= j < |t.slots| ensures SlotOk(t.slots[j], j, |t.slots|, |t.home|, size) {
      assert SlotOk(s.slots[j], j, |s.slots|, |s.home|, size);
    }
    forall p | 0 <= p < |s.home| ensures t.prot[p] == ProtOf(CopyIn(t.slots, p)) {
      assert s.prot[p] == ProtOf(CopyIn(s.slots, p));
    }
  }

  lemma WroteBackTrans(s: CacheState, t: CacheState, u: CacheState, i: nat, rest: seq<nat>)
    requires |s.slots| > 0 && |t.slots| > 0 && |u.slots| > 0 && i !in rest
    requires WroteBack(s, t, [i]) && WroteBack(t, u, rest)
    ensures WroteBack(s, u, [i] + rest)
  {
    forall p | 0 <= p < |s.home|
      ensures if p % |s.slots| in [i] + rest
        then CopyIn(u.slots, p) == Cleaned(CopyIn(s.slots, p)) && WrittenTo(s.home[p], CopyIn(s.slots, p), u.home[p])
        else CopyIn(u.slots, p) == CopyIn(s.slots, p) && u.home[p] == s.home[p]
    {
      var x := p % |s.slots|;
      assert x in [i] <==> x == i;
    }
  }

  /** Writing back the first `n` slots of the buffer, oldest first. */
  function FlushFront(s: CacheState, n: nat, size: nat): (t: CacheState)
    requires Agreed(s, size) && n <= |s.buffer|
    ensures Agreed(t, size) && OnlyDirtyBits(s, t) && t.buffer == s.buffer[n..]
    decreases n
  {
    if n == 0 then s
    else
      PopWrites(s, size);
      FlushFront(Pop(s, size), n - 1, size)
  }

  lemma {:induction false} FlushFrontWrites(s: CacheState, n: nat, size: nat)
    requires Agreed(s, size) && n <= |s.buffer|
    ensures WroteBack(s, FlushFront(s, n, size), s.buffer[..n])
    decreases n
  {
    if n > 0 {
      var t := Pop(s, size);
      PopWrites(s, size);
      FlushFrontWrites(t, n - 1, size);
      assert s.buffer[..n] == [s.buffer[0]] + t.buffer[..n - 1];
      WroteBackTrans(s, t, FlushFront(s, n, size), s.buffer[0], t.buffer[..n - 1]);
    }
  }

  // ----- adding and erasing -----

  /** A full buffer first writes back its oldest `writeBack` slots. */
  function MakeRoom(s: CacheState, max: nat, writeBack: nat, size: nat): (t: CacheState)
    requires Agreed(s, size) && writeBack <= max
    ensures Agreed(t, size) && OnlyDirtyBits(s, t)
  {
    if |s.buffer| >= max then FlushFront(s, writeBack, size) else s
  }

  /** A write miss on a clean slot: the twin is taken and the slot becomes dirty and writable. */
  function MarkDirty(s: CacheState, i: nat): (t: CacheState)
    requires |s.slots| > 0 && i < |s.slots| && s.slots[i].tag.Mapped? && s.slots[i].tag.page < |s.prot|
  {
    var x := s.slots[i];
    CacheState(s.slots[i := x.(dirty := true, twin := x.data, touched := true)], s.buffer + [i],
               s.home, s.prot[x.tag.page := ReadWrite])
  }

  lemma MakeRoomWrites(s: CacheState, max: nat, writeBack: nat, size: nat)
    requires Agreed(s, size) && writeBack <= max
    ensures var n := if |s.buffer| >= max then writeBack else 0; var t := MakeRoom(s, max, writeBack, size);
      t.buffer == s.buffer[n..] && WroteBack(s, t, s.buffer[..n])
  {
    if |s.buffer| >= max {
      FlushFrontWrites(s, writeBack, size);
    }
  }

  lemma MarkDirtyKeeps(s: CacheState, i: nat, size: nat)
    requires Agreed(s, size) && i < |s.slots| && s.slots[i].valid && !s.slots[i].dirty
    ensures s.slots[i].tag.Mapped? && s.slots[i].tag.page < |s.prot|
    ensures Agreed(MarkDirty(s, i), size)
    ensures forall p :: 0 <= p < |s.home| ==>
      var c := CopyIn(s.slots, p);
      CopyIn(MarkDirty(s, i).slots, p) == if p == s.slots[i].tag.page then Dirty(c.data, c.data) else c
  {
    assert SlotOk(s.slots[i], i, |s.slots|, |s.home|, size);
    var t := MarkDirty(s, i);
    forall j | 0 <= j < |t.slots| ensures SlotOk(t.slots[j], j, |t.slots|, |t.home|, size) {
      assert SlotOk(s.slots[j], j, |s.slots|, |s.home|, size);
    }
    assert forall j :: j in t.buffer <==> j in s.buffer || j == i;
    forall p | 0 <= p < |s.home| ensures t.prot[p] == ProtOf(CopyIn(t.slots, p)) {
      assert s.prot[p] == ProtOf(CopyIn(s.slots, p));
    }
  }

  /** The buffer without the one occurrence of `i` it can have. */
  function Erase(b: seq<nat>, i: nat): (r: seq<nat>)
    ensures |r| <= |b|
  {
    if b == [] then [] else if b[0] == i then b[1..] else [b[0]] + Erase(b[1..], i)
  }

  lemma {:induction false} EraseRemoves(b: seq<nat>, i: nat)
    requires NoDuplicates(b)
    ensures NoDuplicates(Erase(b, i))
    ensures forall j :: j in Erase(b, i) <==> j in b && j != i
  {
    if b != [] {
      TailDistinct(b);
      EraseRemoves(b[1..], i);
      var rest := Erase(b[1..], i);
      assert b[0] !in rest;
      assert forall k :: 1 <= k < |[b[0]] + rest| ==> ([b[0]] + rest)[k] == rest[k - 1];
    }
  }

  // ----- loading a page into its slot -----

  /**
   Making the slot of page p free for it: another page in it is evicted, and written back and
   taken off the buffer if it is dirty. The slot is tagged for page p but not valid yet.
   */
  function EvictFor(s: CacheState, p: nat, size: nat): (t: CacheState)
    requires Agreed(s, size) && p < |s.home|
    ensures |t.slots| == |s.slots| && |t.home| == |s.home|
  {
    var i := p % |s.slots|;
    var x := s.slots[i];
    assert SlotOk(x, i, |s.slots|, |s.home|, size);
    if x.tag.Unmapped? || x.tag.page == p then s
    else
      var q := x.tag.page;
      CacheState(s.slots[i := x.(valid := false, dirty := false, tag := Mapped(p))],
                 if x.dirty then Erase(s.buffer, i) else s.buffer,
                 if x.dirty then s.home[q := Merge(s.home[q], x.data, x.twin)] else s.home,
                 s.prot[q := NoAccess])
  }

  lemma EvictWrites(s: CacheState, p: nat, size: nat)
    requires Agreed(s, size) && p < |s.home| && CopyIn(s.slots, p).Absent?
    ensures var t, i := EvictFor(s, p, size), p % |s.slots|;
      && Agreed(t, size) && !t.slots[i].valid
      && forall q :: 0 <= q < |s.home| ==>
        if q % |s.slots| == i
        then CopyIn(t.slots, q) == Absent && WrittenTo(s.home[q], CopyIn(s.slots, q), t.home[q])
        else CopyIn(t.slots, q) == CopyIn(s.slots, q) && t.home[q] == s.home[q]
  {
    var t, i := EvictFor(s, p, size), p % |s.slots|;
    assert SlotOk(s.slots[i], i, |s.slots|, |s.home|, size);
    EraseRemoves(s.buffer, i);
    forall j | 0 <= j < |t.slots| ensures SlotOk(t.slots[j], j, |t.slots|, |t.home|, size) {
      assert SlotOk(s.slots[j], j, |s.slots|, |s.home|, size);
    }
    forall q | 0 <= q < |s.home| ensures t.prot[q] == ProtOf(CopyIn(t.slots, q)) {
      assert s.prot[q] == ProtOf(CopyIn(s.slots, q));
    }
  }

  /** Installing a fetched page in a free slot. */
  function Install(s: CacheState, p: nat, fetched: Page): (t: CacheState)
    requires |s.slots| > 0 && p < |s.prot|
  {
    var i := p % |s.slots|;
    var x := s.slots[i];
    s.(slots := s.slots[i := x.(tag := Mapped(p), valid := true, dirty := false, touched := true, data := fetched)],
       prot := s.prot[p := ReadOnly])
  }

  lemma InstallKeeps(s: CacheState, p: nat, fetched: Page, size: nat)
    requires Agreed(s, size) && p < |s.home| && |fetched| == size && !s.slots[p % |s.slots|].valid
    ensures Agreed(Install(s, p, fetched), size)
    ensures forall q :: 0 <= q < |s.home| ==>
      CopyIn(Install(s, p, fetched).slots, q) == if q == p then Clean(fetched) else CopyIn(s.slots, q)
  {
    var t := Install(s, p, fetched);
    var i := p % |s.slots|;
    assert SlotOk(s.slots[i], i, |s.slots|, |s.home|, size);
    forall j | 0 <= j < |t.slots| ensures SlotOk(t.slots[j], j, |t.slots|, |t.home|, size) {
      assert SlotOk(s.slots[j], j, |s.slots|, |s.home|, size);
    }
    forall q | 0 <= q < |s.home| ensures t.prot[q] == ProtOf(CopyIn(t.slots, q)) {
      assert s.prot[q] == ProtOf(CopyIn(s.slots, q));
    }
  }

  // ----- loading a range -----

  /** Page q does not share a slot with any page of `ps`. */
  ghost predicate Apart(q: nat, ps: seq<nat>, n: nat)
    requires n > 0
  {
    forall i :: 0 <= i < |ps| ==> ps[i] % n != q % n
  }

  /** Pages that are not in the cache and go to different slots. */
  ghost predicate Loadable(s: CacheState, ps: seq<nat>)
    requires |s.slots| > 0
  {
    && (forall i :: 0 <= i < |ps| ==> ps[i] < |s.home| && CopyIn(s.slots, ps[i]).Absent?)
    && (forall i, j :: 0 <= i < j < |ps| ==> ps[i] % |s.slots| != ps[j] % |s.slots|)
  }

  /** Nothing has happened to the pages apart from `ps`. */
  ghost predicate OnlyFor(s: CacheState, t: CacheState, ps: seq<nat>) {
    && |t.slots| == |s.slots| > 0 && |t.home| == |s.home|
    && forall q :: 0 <= q < |s.home| && Apart(q, ps, |s.slots|) ==>
         CopyIn(t.slots, q) == CopyIn(s.slots, q) && t.home[q] == s.home[q]
  }

  /** Making the slot of a page free, and installing the page. */
  lemma EvictOnlyFor(s: CacheState, p: nat, size: nat)
    requires Agreed(s, size) && p < |s.home| && CopyIn(s.slots, p).Absent?
    ensures Agreed(EvictFor(s, p, size), size) && OnlyFor(s, EvictFor(s, p, size), [p])
    ensures !EvictFor(s, p, size).slots[p % |s.slots|].valid
  {
    EvictWrites(s, p, size);
    forall q | 0 <= q < |s.home| && Apart(q, [p], |s.slots|)
      ensures q % |s.slots| != p % |s.slots|
    {
      assert [p][0] == p;
    }
  }

  lemma InstallOnlyFor(s: CacheState, p: nat, fetched: Page, size: nat)
    requires Agreed(s, size) && p < |s.home| && |fetched| == size && !s.slots[p % |s.slots|].valid
    ensures Agreed(Install(s, p, fetched), size) && OnlyFor(s, Install(s, p, fetched), [p])
  {
    InstallKeeps(s, p, fetched, size);
    forall q | 0 <= q < |s.home| && Apart(q, [p], |s.slots|)
      ensures q != p
    {
      assert [p][0] == p;
    }
  }

  /** Loading one page: its slot is made free, and the page is fetched and installed. */
  ghost function LoadOne(s: CacheState, p: nat, size: nat): (t: CacheState)
    requires Agreed(s, size) && p < |s.home| && CopyIn(s.slots, p).Absent?
  {
    var e := EvictFor(s, p, size);
    Install(e, p, e.home[p])
  }

  lemma LoadOneOnlyFor(s: CacheState, p: nat, size: nat)
    requires Agreed(s, size) && p < |s.home| && CopyIn(s.slots, p).Absent?
    ensures Agreed(LoadOne(s, p, size), size) && OnlyFor(s, LoadOne(s, p, size), [p])
  {
    EvictOnlyFor(s, p, size);
    var e := EvictFor(s, p, size);
    InstallOnlyFor(e, p, e.home[p], size);
  }

  lemma OnlyForTrans(s: CacheState, t: CacheState, u: CacheState, ps: seq<nat>, p: nat)
    requires OnlyFor(s, t, ps) && OnlyFor(t, u, [p])
    ensures OnlyFor(s, u, ps + [p])
  {
    forall q | 0 <= q < |s.home| && Apart(q, ps + [p], |s.slots|)
      ensures CopyIn(u.slots, q) == CopyIn(s.slots, q) && u.home[q] == s.home[q]
    {
      assert forall i :: 0 <= i < |ps| ==> (ps + [p])[i] == ps[i];
      assert (ps + [p])[|ps|] == p;
      assert Apart(q, ps, |s.slots|) && Apart(q, [p], |s.slots|);
    }
  }

  /** The pages but the last can be loaded, and that does not touch the last. */
  lemma LoadableButLast(s: CacheState, ps: seq<nat>)
    requires |s.slots| > 0 && Loadable(s, ps) && ps != []
    ensures Loadable(s, ps[..|ps| - 1]) && Apart(ps[|ps| - 1], ps[..|ps| - 1], |s.slots|)
    ensures ps == ps[..|ps| - 1] + [ps[|ps| - 1]]
  {
  }

  /** The pages loaded one after the other, each fetched when its turn comes. */
  ghost function LoadEach(s: CacheState, ps: seq<nat>, size: nat): (t: CacheState)
    requires Agreed(s, size) && Loadable(s, ps)
    ensures Agreed(t, size) && OnlyFor(s, t, ps)
  {
    if ps == [] then s
    else
      var rest, p := ps[..|ps| - 1], ps[|ps| - 1];
      LoadableButLast(s, ps);
      var t := LoadEach(s, rest, size);
      LoadOneOnlyFor(t, p, size);
      OnlyForTrans(s, t, LoadOne(t, p, size), rest, p);
      LoadOne(t, p, size)
  }

  /** The slots of all the pages made free. */
  ghost function EvictAll(s: CacheState, ps: seq<nat>, size: nat): (t: CacheState)
    requires Agreed(s, size) && Loadable(s, ps)
    ensures Agreed(t, size) && OnlyFor(s, t, ps)
  {
    if ps == [] then s
    else
      var rest, p := ps[..|ps| - 1], ps[|ps| - 1];
      LoadableButLast(s, ps);
      var t := EvictAll(s, rest, size);
      EvictOnlyFor(t, p, size);
      OnlyForTrans(s, t, EvictFor(t, p, size), rest, p);
      EvictFor(t, p, size)
  }

  /** The pages installed as fetched in one go. */
  ghost function InstallAll(s: CacheState, ps: seq<nat>, fetched: seq<Page>): (t: CacheState)
    requires |s.slots| > 0 && |fetched| == |s.prot| && forall i :: 0 <= i < |ps| ==> ps[i] < |s.prot|
    ensures |t.slots| == |s.slots| && |t.prot| == |s.prot| && t.home == s.home && t.buffer == s.buffer
  {
    if ps == [] then s
    else
      var p := ps[|ps| - 1];
      Install(InstallAll(s, ps[..|ps| - 1], fetched), p, fetched[p])
  }

  /** load_cache_entry on the cache: all slots first, then one fetch, then all pages. */
  ghost function RangeLoaded(s: CacheState, ps: seq<nat>, size: nat): (t: CacheState)
    requires Agreed(s, size) && Loadable(s, ps)
  {
    var e := EvictAll(s, ps, size);
    InstallAll(e, ps, e.home)
  }

  /** Making a slot free and installing a page in another one do not interfere. */
  lemma EvictPastInstall(s: CacheState, p: nat, fetched: Page, q: nat, size: nat)
    requires Agreed(s, size) && p < |s.home| && q < |s.home| && p % |s.slots| != q % |s.slots|
    requires Agreed(Install(s, p, fetched), size)
    ensures EvictFor(Install(s, p, fetched), q, size) == Install(EvictFor(s, q, size), p, fetched)
  {
    var i, j := p % |s.slots|, q % |s.slots|;
    assert SlotOk(s.slots[j], j, |s.slots|, |s.home|, size);
    var x, y := EvictFor(Install(s, p, fetched), q, size), Install(EvictFor(s, q, size), p, fetched);
    assert x.slots == y.slots;
    assert x.prot == y.prot;
  }

  /** Free slots, one for each page. */
  ghost predicate Ready(s: CacheState, ps: seq<nat>)
    requires |s.slots| > 0
  {
    && (forall i :: 0 <= i < |ps| ==> ps[i] < |s.home| && !s.slots[ps[i] % |s.slots|].valid)
    && (forall i, j :: 0 <= i < j < |ps| ==> ps[i] % |s.slots| != ps[j] % |s.slots|)
  }

  lemma {:induction false} EvictAllReady(s: CacheState, ps: seq<nat>, size: nat)
    requires Agreed(s, size) && Loadable(s, ps)
    ensures Ready(EvictAll(s, ps, size), ps)
  {
    if ps != [] {
      var rest, p := ps[..|ps| - 1], ps[|ps| - 1];
      LoadableButLast(s, ps);
      var t := EvictAll(s, rest, size);
      EvictAllReady(s, rest, size);
      EvictOnlyFor(t, p, size);
      forall i | 0 <= i < |rest|
        ensures !EvictFor(t, p, size).slots[rest[i] % |s.slots|].valid
      {
        assert rest[i] == ps[i];
      }
    }
  }

  /** Installing pages in free slots fills those and no others. */
  lemma {:induction false} InstallAllKeeps(s: CacheState, ps: seq<nat>, size: nat)
    requires Agreed(s, size) && Ready(s, ps)
    ensures Agreed(InstallAll(s, ps, s.home), size)
    ensures forall q: nat :: Apart(q, ps, |s.slots|) ==>
      InstallAll(s, ps, s.home).slots[q % |s.slots|] == s.slots[q % |s.slots|]
  {
    if ps != [] {
      var rest, p := ps[..|ps| - 1], ps[|ps| - 1];
      InstallAllKeeps(s, rest, size);
      assert Apart(p, rest, |s.slots|);
      var t := InstallAll(s, rest, s.home);
      InstallKeeps(t, p, s.home[p], size);
      forall q: nat | Apart(q, ps, |s.slots|)
        ensures Install(t, p, s.home[p]).slots[q % |s.slots|] == s.slots[q % |s.slots|]
      {
        assert ps[|ps| - 1] % |s.slots| != q % |s.slots|;
        assert Apart(q, rest, |s.slots|) by {
          forall i | 0 <= i < |rest| ensures rest[i] % |s.slots| != q % |s.slots| { assert rest[i] == ps[i]; }
        }
      }
    }
  }

  lemma InstallAllAgreed(s: CacheState, ps: seq<nat>, size: nat)
    requires Agreed(s, size) && Ready(s, ps)
    ensures Agreed(InstallAll(s, ps, s.home), size)
  {
    InstallAllKeeps(s, ps, size);
  }

  /** Installing depends on the fetched bytes of those pages only. */
  lemma {:induction false} InstallAllSame(s: CacheState, ps: seq<nat>, f: seq<Page>, g: seq<Page>)
    requires |s.slots| > 0 && |f| == |g| == |s.prot|
    requires forall i :: 0 <= i < |ps| ==> ps[i] < |s.prot| && f[ps[i]] == g[ps[i]]
    ensures InstallAll(s, ps, f) == InstallAll(s, ps, g)
  {
    if ps != [] {
      InstallAllSame(s, ps[..|ps| - 1], f, g);
    }
  }

  /** One more slot can be made free before or after the pages are installed. */
  lemma {:induction false} EvictPastAll(s: CacheState, ps: seq<nat>, p: nat, size: nat)
    requires Agreed(s, size) && Ready(s, ps) && p < |s.home| && Apart(p, ps, |s.slots|)
    ensures Agreed(InstallAll(s, ps, s.home), size)
    ensures EvictFor(InstallAll(s, ps, s.home), p, size) == InstallAll(EvictFor(s, p, size), ps, s.home)
  {
    InstallAllAgreed(s, ps, size);
    if ps != [] {
      var rest, q := ps[..|ps| - 1], ps[|ps| - 1];
      EvictPastAll(s, rest, p, size);
      EvictPastInstall(InstallAll(s, rest, s.home), q, s.home[q], p, size);
    }
  }

  /**
   Freeing all slots, fetching once and installing all pages leaves the cache, the buffer, the
   protection and the homes exactly as loading the pages one by one does.
   */
  lemma {:induction false} RangeIsOneByOne(s: CacheState, ps: seq<nat>, size: nat)
    requires Agreed(s, size) && Loadable(s, ps)
    ensures RangeLoaded(s, ps, size) == LoadEach(s, ps, size)
  {
    if ps != [] {
      var rest, p := ps[..|ps| - 1], ps[|ps| - 1];
      LoadableButLast(s, ps);
      RangeIsOneByOne(s, rest, size);
      var e := EvictAll(s, rest, size);
      EvictAllReady(s, rest, size);
      EvictPastAll(e, rest, p, size);
      var e' := EvictFor(e, p, size);
      EvictOnlyFor(e, p, size);
      FetchedSame(e, e', rest, p);
      InstallAllSame(e', rest, e.home, e'.home);
    }
  }

  lemma FetchedSame(e: CacheState, e': CacheState, ps: seq<nat>, p: nat)
    requires OnlyFor(e, e', [p]) && Apart(p, ps, |e.slots|) && forall i :: 0 <= i < |ps| ==> ps[i] < |e.home|
    ensures forall i :: 0 <= i < |ps| ==> e.home[ps[i]] == e'.home[ps[i]]
  {
    forall i | 0 <= i < |ps|
      ensures e.home[ps[i]] == e'.home[ps[i]]
    {
      assert Apart(ps[i], [p], |e.slots|);
    }
  }

  /** The pages of a range that are to be loaded. */
  function Chosen(first: nat, load: seq<bool>): (ps: seq<nat>) {
    if load == [] then []
    else
      var n := |load| - 1;
      Chosen(first, load[..n]) + if load[n] then [first + n] else []
  }

  lemma {:induction false} ChosenInRange(first: nat, load: seq<bool>)
    ensures forall i :: 0 <= i < |Chosen(first, load)| ==> first <= Chosen(first, load)[i] < first + |load|
  {
    if load != [] {
      ChosenInRange(first, load[..|load| - 1]);
    }
  }

  lemma NeighboursApart(a: nat, b: nat, n: nat)
    requires n > 0 && a < b < a + n
    ensures a % n != b % n
  {
    assert a == a / n * n + a % n && a % n < n by { DivMod(a, n); }
    assert b == b / n * n + b % n && b % n < n by { DivMod(b, n); }
    RemaindersApart(a / n, a % n, b / n, b % n, n);
  }

  lemma RemaindersApart(i: nat, u: nat, j: nat, v: nat, n: nat)
    requires u < n && v < n && i * n + u < j * n + v < i * n + u + n
    ensures u != v
  {
    if i < j {
      MulMono(i + 1, j, n);
      MulAdd(i, 1, n);
    } else {
      MulMono(j, i, n);
    }
  }

  /** A range that fits the cache: the next page goes to a slot of its own. */
  lemma NextIsApart(first: nat, load: seq<bool>, n: nat)
    requires |load| < n
    ensures Apart(first + |load|, Chosen(first, load), n)
  {
    ChosenInRange(first, load);
    forall i | 0 <= i < |Chosen(first, load)|
      ensures Chosen(first, load)[i] % n != (first + |load|) % n
    {
      NeighboursApart(Chosen(first, load)[i], first + |load|, n);
    }
  }

  lemma ChosenMore(first: nat, load: seq<bool>, more: bool)
    ensures Chosen(first, load + [more]) == Chosen(first, load) + if more then [first + |load|] else []
  {
    assert (load + [more])[..|load|] == load;
  }

  /** Page by page, `load` says whether the page is not cached and its slot not locked; so far. */
  ghost predicate ChosenRight(s: CacheState, first: nat, busy: seq<bool>, load: seq<bool>)
    requires |s.slots| > 0
  {
    && |load| <= |busy|
    && (forall i :: 0 <= i < |load| ==> (load[i] <==> !busy[i] && CopyIn(s.slots, first + i).Absent?))
    && Loadable(s, Chosen(first, load))
  }

  lemma ChosenRightMore(s: CacheState, first: nat, busy: seq<bool>, load: seq<bool>, more: bool)
    requires |s.slots| > 0 && ChosenRight(s, first, busy, load) && |load| < |busy|
    requires more <==> !busy[|load|] && CopyIn(s.slots, first + |load|).Absent?
    requires Loadable(s, Chosen(first, load) + if more then [first + |load|] else [])
    ensures ChosenRight(s, first, busy, load + [more])
  {
    ChosenMore(first, load, more);
  }

  lemma {:induction false} ChosenPrefix(first: nat, load: seq<bool>, i: nat)
    requires i <= |load|
    ensures Chosen(first, load[..i]) <= Chosen(first, load)
    decreases |load| - i
  {
    if i == |load| {
      assert load[..i] == load;
    } else {
      assert load[..i + 1] == load[..i] + [load[i]];
      ChosenMore(first, load[..i], load[i]);
      ChosenPrefix(first, load, i + 1);
    }
  }

  lemma ReadyPrefix(s: CacheState, first: nat, load: seq<bool>, i: nat)
    requires |s.slots| > 0 && Ready(s, Chosen(first, load)) && i <= |load|
    ensures Ready(s, Chosen(first, load[..i]))
  {
    ChosenPrefix(first, load, i);
  }

  lemma SlotStillFree(s: CacheState, ps: seq<nat>, p: nat, size: nat)
    requires Agreed(s, size) && Ready(s, ps + [p])
    ensures Ready(s, ps) && p < |s.home| && !InstallAll(s, ps, s.home).slots[p % |s.slots|].valid
  {
    var all := ps + [p];
    assert forall i :: 0 <= i < |ps| ==> all[i] == ps[i];
    assert all[|ps|] == p;
    InstallAllKeeps(s, ps, size);
  }

  lemma LoadableMore(s: CacheState, ps: seq<nat>, p: nat)
    requires |s.slots| > 0 && Loadable(s, ps) && p < |s.home| && CopyIn(s.slots, p).Absent? && Apart(p, ps, |s.slots|)
    ensures Loadable(s, ps + [p])
  {
  }

  lemma EvictMore(s: CacheState, ps: seq<nat>, p: nat, size: nat)
    requires Agreed(s, size) && Loadable(s, ps) && Loadable(s, ps + [p])
    ensures p < |s.home| && CopyIn(EvictAll(s, ps, size).slots, p).Absent?
    ensures EvictAll(s, ps + [p], size) == EvictFor(EvictAll(s, ps, size), p, size)
  {
    assert (ps + [p])[..|ps|] == ps && (ps + [p])[|ps|] == p;
    LoadableButLast(s, ps + [p]);
  }

  lemma InstallMore(s: CacheState, ps: seq<nat>, p: nat)
    requires |s.slots| > 0 && |s.home| == |s.prot| && Ready(s, ps) && p < |s.home|
    ensures forall i :: 0 <= i < |ps + [p]| ==> (ps + [p])[i] < |s.prot|
    ensures InstallAll(s, ps + [p], s.home) == Install(InstallAll(s, ps, s.home), p, s.home[p])
  {
    assert (ps + [p])[..|ps|] == ps;
  }

  // ----- self-invalidation -----

  function SweptSlot(x: Slot, keep: set<nat>): (r: Slot) {
    if x.touched && x.tag.Mapped? && x.tag.page !in keep then x.(valid := false, dirty := false, touched := false)
    else x
  }

  /** Self-invalidation of the slots below `n`: pages outside `keep` are dropped and protected. */
  ghost function SweepUpTo(s: CacheState, n: nat, keep: set<nat>): (t: CacheState)
    requires |s.slots| > 0 && |s.prot| == |s.home|
  {
    s.(slots := seq(|s.slots|, j requires 0 <= j < |s.slots| =>
         if j < n then SweptSlot(s.slots[j], keep) else s.slots[j]),
       prot := seq(|s.prot|, p requires 0 <= p < |s.prot| =>
         if p % |s.slots| < n && p !in keep && CopyIn(s.slots, p) != Absent then NoAccess else s.prot[p]))
  }

  lemma SweepKeepsAgreed(s: CacheState, n: nat, keep: set<nat>, size: nat)
    requires Agreed(s, size) && forall j :: 0 <= j < |s.slots| && j < n ==> !s.slots[j].dirty
    ensures var t := SweepUpTo(s, n, keep);
      && Agreed(t, size)
      && forall p :: 0 <= p < |s.home| ==>
        CopyIn(t.slots, p) == (if p % |s.slots| < n && p !in keep then Absent else CopyIn(s.slots, p))
  {
    var t := SweepUpTo(s, n, keep);
    forall j | 0 <= j < |t.slots| ensures SlotOk(t.slots[j], j, |t.slots|, |t.home|, size) {
      assert SlotOk(s.slots[j], j, |s.slots|, |s.home|, size);
    }
    forall p | 0 <= p < |s.home|
      ensures CopyIn(t.slots, p) == (if p % |s.slots| < n && p !in keep then Absent else CopyIn(s.slots, p))
      ensures t.prot[p] == ProtOf(CopyIn(t.slots, p))
    {
      var j := p % |s.slots|;
      assert SlotOk(s.slots[j], j, |s.slots|, |s.home|, size);
      assert s.prot[p] == ProtOf(CopyIn(s.slots, p));
    }
  }

  lemma SweepNone(s: CacheState, keep: set<nat>)
    requires |s.slots| > 0 && |s.prot| == |s.home|
    ensures SweepUpTo(s, 0, keep) == s
  {
    var t := SweepUpTo(s, 0, keep);
    assert t.slots == s.slots && t.prot == s.prot;
  }

  lemma SweepNext(s: CacheState, i: nat, keep: set<nat>, size: nat)
    requires Agreed(s, size) && i < |s.slots|
    ensures var t, u, x := SweepUpTo(s, i, keep), SweepUpTo(s, i + 1, keep), s.slots[i];
      && t.slots[i] == x
      && (if x.touched && x.tag.Mapped? && x.tag.page !in keep && x.tag.page < |t.prot|
          then u == t.(slots := t.slots[i := SweptSlot(x, keep)], prot := t.prot[x.tag.page := NoAccess])
          else u == t)
  {
    var t, u, x := SweepUpTo(s, i, keep), SweepUpTo(s, i + 1, keep), s.slots[i];
    assert SlotOk(x, i, |s.slots|, |s.home|, size);
    if x.touched && x.tag.page !in keep {
      assert u.slots == t.slots[i := SweptSlot(x, keep)];
      assert u.prot == t.prot[x.tag.page := NoAccess];
    } else {
      assert u.slots == t.slots;
      assert u.prot == t.prot;
    }
  }

  /** Sweeping clean slots and writing back the oldest dirty one can be done in either order. */
  lemma SweepPop(s: CacheState, n: nat, keep: set<nat>, size: nat)
    requires Agreed(s, size) && s.buffer != []
    requires forall j :: 0 <= j < |s.slots| && j < n ==> !s.slots[j].dirty
    ensures Agreed(SweepUpTo(s, n, keep), size)
    ensures Pop(SweepUpTo(s, n, keep), size) == SweepUpTo(Pop(s, size), n, keep)
  {
    SweepKeepsAgreed(s, n, keep, size);
    var i := s.buffer[0];
    assert i in s.buffer;
    assert SlotOk(s.slots[i], i, |s.slots|, |s.home|, size);
    var x, y := Pop(SweepUpTo(s, n, keep), size), SweepUpTo(Pop(s, size), n, keep);
    assert x.slots == y.slots;
    forall p | 0 <= p < |s.home| ensures x.prot[p] == y.prot[p] {
      assert CopyIn(s.slots, p).Absent? <==> CopyIn(Pop(s, size).slots, p).Absent?;
    }
    assert x.prot == y.prot;
  }

  lemma {:induction false} SweepFlush(s: CacheState, n: nat, keep: set<nat>, size: nat)
    requires Agreed(s, size) && forall j :: 0 <= j < |s.slots| && j < n ==> !s.slots[j].dirty
    ensures Agreed(SweepUpTo(s, n, keep), size)
    ensures FlushFront(SweepUpTo(s, n, keep), |s.buffer|, size) == SweepUpTo(FlushFront(s, |s.buffer|, size), n, keep)
    decreases |s.buffer|
  {
    SweepKeepsAgreed(s, n, keep, size);
    if s.buffer != [] {
      SweepPop(s, n, keep, size);
      PopWrites(s, size);
      SweepFlush(Pop(s, size), n, keep, size);
    }
  }

  /** The whole of self_invalidation: the buffer is flushed and every page not kept is dropped. */
  ghost function SelfInvalidated(s: CacheState, keep: set<nat>, size: nat): (t: CacheState)
    requires Agreed(s, size)
  {
    SweepUpTo(FlushFront(s, |s.buffer|, size), |s.slots|, keep)
  }

  lemma AllClean(s: CacheState, size: nat)
    requires Agreed(s, size)
    ensures s.buffer == [] <==> forall i :: 0 <= i < |s.slots| ==> !s.slots[i].dirty
  {
    if s.buffer != [] {
      assert s.buffer[0] in s.buffer;
    }
  }

  /** A sweep that has met no dirty slot needed no flush. */
  lemma SweepIsAll(s: CacheState, flushed: bool, keep: set<nat>, size: nat)
    requires Agreed(s, size) && (flushed || forall i :: 0 <= i < |s.slots| ==> !s.slots[i].dirty)
    ensures SelfInvalidated(s, keep, size) ==
      SweepUpTo(if flushed then FlushFront(s, |s.buffer|, size) else s, |s.slots|, keep)
  {
    AllClean(s, size);
  }

  /** No unflushed write is ever discarded, whichever pages are dropped. */
  lemma SelfInvalidationWrites(s: CacheState, keep: set<nat>, size: nat)
    requires Agreed(s, size)
    ensures var t := SelfInvalidated(s, keep, size);
      && Agreed(t, size) && t.buffer == [] && |t.slots| == |s.slots| && |t.home| == |s.home|
      && forall p :: 0 <= p < |s.home| ==>
        && WrittenTo(s.home[p], CopyIn(s.slots, p), t.home[p])
        && CopyIn(t.slots, p) == (if p in keep then Cleaned(CopyIn(s.slots, p)) else Absent)
    ensures var t := SelfInvalidated(s, keep, size);
      forall i :: 0 <= i < |t.slots| && t.slots[i].touched ==> t.slots[i].tag.Mapped? && t.slots[i].tag.page in keep
  {
    FlushFrontWrites(s, |s.buffer|, size);
    var f := FlushFront(s, |s.buffer|, size);
    AllClean(f, size);
    SweepKeepsAgreed(f, |s.slots|, keep, size);
    assert s.buffer[..|s.buffer|] == s.buffer;
    forall p | 0 <= p < |s.home|
      ensures WrittenTo(s.home[p], CopyIn(s.slots, p), f.home[p]) && CopyIn(f.slots, p) == Cleaned(CopyIn(s.slots, p))
    {
      var i := p % |s.slots|;
      assert CopyIn(s.slots, p).Dirty? ==> i in s.buffer;
    }
  }
}
