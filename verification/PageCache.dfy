/** The cache of a node as an object: every method does what `NodeCache` says, in place. */
module PageCache {
  import opened PageProtocol
  import opened NodeCache

  /** A page cache and its write buffer, updated in place. */
  class Cache {
    const me: Node
    const size: nat
    const max: nat          // _max_size
    const writeBack: nat    // _write_back_size, at most _max_size
    const slots: array<Slot>
    var buffer: seq<nat>
    var home: seq<Page>
    var prot: seq<Prot>
    var sharers: seq<set<Node>>
    var writers: seq<set<Node>>

    ghost function Model(): (s: CacheState)
      reads this, slots
    {
      CacheState(slots[..], buffer, home, prot)
    }

    ghost predicate Valid()
      reads this, slots
    {
      Agreed(Model(), size) && Sized()
    }

    /** Among other things the buffer is within its maximum, if anything is written back when it is full. */
    ghost predicate Sized()
      reads this
    {
      writeBack <= max && |sharers| == |writers| == |home| && (writeBack > 0 ==> |buffer| <= max)
    }

    ghost function Kept(): (r: set<nat>)
      requires |sharers| == |writers|
      reads this
    {
      set p | 0 <= p < |sharers| && KeepsPage(me, sharers[p], writers[p])
    }

    constructor (me: Node, size: nat, slotCount: nat, memory: seq<Page>, max: nat, writeBack: nat)
      requires slotCount > 0 && writeBack <= max && forall p :: 0 <= p < |memory| ==> |memory[p]| == size
      ensures Valid() && fresh(slots) && buffer == [] && home == memory
      ensures forall p :: 0 <= p < |home| ==> CopyIn(Model().slots, p) == Absent && prot[p] == NoAccess
      ensures this.me == me && this.size == size && this.max == max && this.writeBack == writeBack
    {
      var blank: Page := seq(size, _ => 0);
      this.me, this.size, this.max, this.writeBack := me, size, max, writeBack;
      slots := new Slot[slotCount](_ => Slot(Unmapped, false, false, false, blank, blank));
      buffer, home := [], memory;
      prot := seq(|memory|, _ => NoAccess);
      sharers, writers := seq(|memory|, _ => {}), seq(|memory|, _ => {});
    }

    /** write_back_index(pop()) */
    method WriteBackOldest()
      requires Valid() && buffer != []
      modifies this`buffer, this`home, this`prot, slots
      ensures Valid() && Model() == Pop(old(Model()), size)
    {
      ghost var s := Model();
      PopWrites(s, size);
      var i := buffer[0];
      assert i in buffer;
      assert SlotOk(s.slots[i], i, |s.slots|, |s.home|, size);
      buffer := buffer[1..];
      var x := slots[i];
      var p := x.tag.page;
      prot := prot[p := ReadOnly];
      slots[i] := x.(dirty := false);
      home := home[p := Merge(home[p], x.data, x.twin)];
      assert Model() == Pop(s, size);
    }

    method FlushPartial()
      requires Valid() && writeBack <= |buffer|
      modifies this`buffer, this`home, this`prot, slots
      ensures Valid() && Model() == FlushFront(old(Model()), writeBack, size)
    {
      ghost var s := Model();
      for i := 0 to writeBack
        invariant Valid() && i <= |s.buffer| && writeBack - i <= |buffer|
        invariant FlushFront(Model(), writeBack - i, size) == FlushFront(s, writeBack, size)
      {
        PopWrites(Model(), size);
        WriteBackOldest();
      }
    }

    method Flush()
      requires Valid()
      modifies this`buffer, this`home, this`prot, slots
      ensures Valid() && Model() == FlushFront(old(Model()), |old(buffer)|, size) && buffer == []
    {
      ghost var s := Model();
      while buffer != []
        invariant Valid()
        invariant FlushFront(Model(), |buffer|, size) == FlushFront(s, |s.buffer|, size)
        decreases |buffer|
      {
        PopWrites(Model(), size);
        WriteBackOldest();
      }
    }

    /** The end of a write miss: twin, protection, and the slot joins the buffer. */
    method AddDirty(i: nat)
      requires Valid() && i < slots.Length && slots[i].valid && !slots[i].dirty
      modifies this`buffer, this`home, this`prot, slots
      ensures Valid()
      ensures Model() == MarkDirty(MakeRoom(old(Model()), max, writeBack, size), i)
    {
      ghost var s := Model();
      assert SlotOk(s.slots[i], i, |s.slots|, |s.home|, size);
      ghost var p := s.slots[i].tag.page;
      MakeRoomWrites(s, max, writeBack, size);
      assert CopyIn(s.slots, p).Clean?;
      if |buffer| >= max {
        FlushPartial();
      }
      ghost var t := Model();
      assert CopyIn(t.slots, p) == CopyIn(s.slots, p);
      assert SlotOk(t.slots[i], i, |t.slots|, |t.home|, size);
      MarkDirtyKeeps(t, i, size);
      var x := slots[i];
      slots[i] := x.(dirty := true, twin := x.data, touched := true);
      prot := prot[x.tag.page := ReadWrite];
      buffer := buffer + [i];
      assert Model() == MarkDirty(t, i);
    }

    /** The decision of self_invalidation on one slot. */
    method DropUnlessKept(i: nat, ghost base: CacheState)
      requires Valid() && i < slots.Length && Agreed(base, size) && |base.slots| == slots.Length
      requires forall j :: 0 <= j <= i ==> !base.slots[j].dirty
      requires Model() == SweepUpTo(base, i, Kept())
      modifies this`prot, slots
      ensures Valid() && Kept() == old(Kept()) && Model() == SweepUpTo(base, i + 1, Kept())
    {
      ghost var keep := Kept();
      SweepNext(base, i, keep, size);
      SweepKeepsAgreed(base, i + 1, keep, size);
      assert SlotOk(base.slots[i], i, |base.slots|, |base.home|, size);
      if slots[i].touched {
        var p := slots[i].tag.page;
        if !KeepsPage(me, sharers[p], writers[p]) {
          slots[i] := slots[i].(dirty := false, valid := false, touched := false);
          prot := prot[p := NoAccess];
        }
      }
      assert Model() == SweepUpTo(base, i + 1, keep);
    }

    /** Flushing in the middle of self_invalidation is as good as flushing before it. */
    method FlushMidway(i: nat, ghost base: CacheState)
      requires Valid() && Agreed(base, size) && |base.slots| == slots.Length
      requires forall j :: 0 <= j < i && j < |base.slots| ==> !base.slots[j].dirty
      requires Model() == SweepUpTo(base, i, Kept())
      modifies this`buffer, this`home, this`prot, slots
      ensures Valid() && Kept() == old(Kept())
      ensures Model() == SweepUpTo(FlushFront(base, |base.buffer|, size), i, Kept())
    {
      SweepFlush(base, i, Kept(), size);
      Flush();
    }

    /** The slots below `i` have been dealt with, starting from `s`. */
    ghost predicate SweptTo(s: CacheState, flushed: bool, i: nat)
      requires Agreed(s, size)
      reads this, slots
    {
      var base := if flushed then FlushFront(s, |s.buffer|, size) else s;
      && Valid() && |s.slots| == slots.Length
      && Model() == SweepUpTo(base, i, Kept())
      && (forall j :: 0 <= j < i && j < |base.slots| ==> !base.slots[j].dirty)
    }

    /** One round of the loop of self_invalidation. */
    method SweepSlot(i: nat, flushed: bool, ghost s: CacheState) returns (flushed': bool)
      requires Agreed(s, size) && SweptTo(s, flushed, i) && i < slots.Length
      modifies this`buffer, this`home, this`prot, slots
      ensures Kept() == old(Kept()) && SweptTo(s, flushed', i + 1)
    {
      flushed' := flushed;
      ghost var base := if flushed then FlushFront(s, |s.buffer|, size) else s;
      assert Model().slots[i] == base.slots[i];
      if slots[i].touched && slots[i].dirty && !flushed {
        FlushMidway(i, base);
        base := FlushFront(s, |s.buffer|, size);
        flushed' := true;
      }
      if flushed' {
        AllClean(base, size);
      }
      assert SlotOk(base.slots[i], i, |base.slots|, |base.home|, size);
      DropUnlessKept(i, base);
    }

    method SelfInvalidation()
      requires Valid()
      modifies this`buffer, this`home, this`prot, slots
      ensures Valid() && Kept() == old(Kept()) && Model() == SelfInvalidated(old(Model()), Kept(), size)
    {
      ghost var s := Model();
      SweepNone(s, Kept());
      var flushed := false;
      for i := 0 to slots.Length
        invariant Kept() == old(Kept()) && SweptTo(s, flushed, i)
      {
        flushed := SweepSlot(i, flushed, s);
      }
      SweepIsAll(s, flushed, Kept(), size);
    }

    /** The slot of page p is made free for it. */
    method FreeSlot(p: nat)
      requires Valid() && p < |home| && CopyIn(Model().slots, p).Absent?
      modifies this`buffer, this`home, this`prot, slots
      ensures Valid() && Model() == EvictFor(old(Model()), p, size)
    {
      ghost var s := Model();
      var i := p % slots.Length;
      assert SlotOk(s.slots[i], i, |s.slots|, |s.home|, size);
      EvictWrites(s, p, size);
      var x := slots[i];
      if x.tag.Mapped? && x.tag.page != p {
        if x.dirty {
          home := home[x.tag.page := Merge(home[x.tag.page], x.data, x.twin)];
          buffer := Erase(buffer, i);
        }
        prot := prot[x.tag.page := NoAccess];
        slots[i] := x.(valid := false, dirty := false, tag := Mapped(p));
      }
      assert Model() == EvictFor(s, p, size);
    }

    /** A fetched page goes into its free slot. */
    method InstallPage(p: nat, fetched: Page)
      requires Valid() && p < |home| && |fetched| == size && !slots[p % slots.Length].valid
      modifies this`prot, slots
      ensures Valid() && Model() == Install(old(Model()), p, fetched)
    {
      ghost var s := Model();
      InstallKeeps(s, p, fetched, size);
      var i := p % slots.Length;
      slots[i] := slots[i].(tag := Mapped(p), valid := true, dirty := false, touched := true, data := fetched);
      prot := prot[p := ReadOnly];
      assert Model() == Install(s, p, fetched);
    }

    /** Loading one page: whatever occupies its slot is evicted, then the page is installed clean. */
    method LoadPage(p: nat)
      requires Valid() && p < |home| && CopyIn(Model().slots, p).Absent?
      modifies this`buffer, this`home, this`prot, slots
      ensures Valid() && Model() == LoadOne(old(Model()), p, size)
    {
      EvictOnlyFor(Model(), p, size);
      FreeSlot(p);
      InstallPage(p, home[p]);
    }

    /** One page of the range; the slots of `ps` have been made free before. */
    method FreeIfAbsent(p: nat, busy: bool, ghost s: CacheState, ghost ps: seq<nat>)
      returns (chosen: bool, ghost ps': seq<nat>)
      requires Sized() && Agreed(s, size) && Loadable(s, ps) && Model() == EvictAll(s, ps, size)
      requires p < |home| && Apart(p, ps, |s.slots|)
      modifies this`buffer, this`home, this`prot, slots
      ensures Sized() && |home| == old(|home|) && (chosen <==> !busy && CopyIn(s.slots, p).Absent?)
      ensures ps' == (ps + if chosen then [p] else []) && Loadable(s, ps') && Model() == EvictAll(s, ps', size)
    {
      var x := slots[p % slots.Length];
      chosen := !busy && !(x.tag == Mapped(p) && x.valid);
      assert CopyIn(Model().slots, p) == CopyIn(s.slots, p);
      ps' := ps;
      if chosen {
        LoadableMore(s, ps, p);
        EvictMore(s, ps, p, size);
        FreeSlot(p);
        ps' := ps + [p];
      }
    }

    /** The next page of the range is chosen or not. */
    method FreeNext(first: nat, busy: seq<bool>, load: seq<bool>, ghost s: CacheState) returns (load': seq<bool>)
      requires Sized() && Agreed(s, size) && ChosenRight(s, first, busy, load) && |load| < |busy| <= |s.slots|
      requires first + |busy| <= |home| && Model() == EvictAll(s, Chosen(first, load), size)
      modifies this`buffer, this`home, this`prot, slots
      ensures Sized() && |home| == old(|home|) && |load'| == |load| + 1 && ChosenRight(s, first, busy, load')
      ensures Model() == EvictAll(s, Chosen(first, load'), size)
    {
      ghost var ps := Chosen(first, load);
      NextIsApart(first, load, |s.slots|);
      var chosen, ps' := FreeIfAbsent(first + |load|, busy[|load|], s, ps);
      load' := load + [chosen];
      ChosenMore(first, load, chosen);
      ChosenRightMore(s, first, busy, load, chosen);
    }

    /** The first loop of a range load: the pages not cached are chosen, and their slots made free. */
    method FreeSlots(first: nat, busy: seq<bool>) returns (load: seq<bool>)
      requires Valid() && |busy| <= slots.Length && first + |busy| <= |home|
      modifies this`buffer, this`home, this`prot, slots
      ensures Valid() && |load| == |busy|
      ensures ChosenRight(old(Model()), first, busy, load)
      ensures Model() == EvictAll(old(Model()), Chosen(first, load), size)
    {
      ghost var s := Model();
      load := [];
      for i := 0 to |busy|
        invariant Sized() && |load| == i && |home| == |s.home|
        invariant ChosenRight(s, first, busy, load)
        invariant Model() == EvictAll(s, Chosen(first, load), size)
      {
        load := FreeNext(first, busy, load, s);
      }
    }

    /**
     load_cache_entry on the cache, for the range that begins at page `first`; `busy` tells for which
     pages another handler holds the lock of the slot. It is the same as loading the pages one by one.
     */
    method LoadRange(first: nat, busy: seq<bool>) returns (load: seq<bool>)
      requires Valid() && |busy| <= slots.Length && first + |busy| <= |home|
      modifies this`buffer, this`home, this`prot, slots
      ensures Valid() && |load| == |busy|
      ensures ChosenRight(old(Model()), first, busy, load)
      ensures Model() == LoadEach(old(Model()), Chosen(first, load), size)
    {
      ghost var s := Model();
      load := FreeSlots(first, busy);
      ghost var e := Model();
      EvictAllReady(s, Chosen(first, load), size);
      var fetched := home;
      InstallPages(first, load, fetched);
      RangeIsOneByOne(s, Chosen(first, load), size);
    }

    /** One page of the range; the pages of `ps` have been installed before. */
    method InstallNext(p: nat, chosen: bool, fetched: seq<Page>, ghost e: CacheState, ghost ps: seq<nat>)
      requires Sized() && Agreed(e, size) && home == e.home == fetched && p < |home| && Ready(e, ps)
      requires Model() == InstallAll(e, ps, e.home) && Ready(e, ps + if chosen then [p] else [])
      modifies this`prot, slots
      ensures Sized() && Model() == InstallAll(e, ps + if chosen then [p] else [], e.home)
    {
      InstallAllKeeps(e, ps, size);
      if chosen {
        SlotStillFree(e, ps, p, size);
        InstallMore(e, ps, p);
        InstallPage(p, fetched[p]);
      } else {
        assert ps + [] == ps;
      }
    }

    /** The last loop of a range load. */
    method InstallPages(first: nat, load: seq<bool>, fetched: seq<Page>)
      requires Valid() && fetched == home && first + |load| <= |home| && |load| <= slots.Length
      requires Ready(Model(), Chosen(first, load))
      modifies this`prot, slots
      ensures Valid() && Model() == InstallAll(old(Model()), Chosen(first, load), fetched)
    {
      ghost var e := Model();
      for i := 0 to |load|
        invariant Sized() && home == fetched && Ready(e, Chosen(first, load[..i]))
        invariant Model() == InstallAll(e, Chosen(first, load[..i]), fetched)
      {
        assert load[..i + 1] == load[..i] + [load[i]];
        ChosenMore(first, load[..i], load[i]);
        ReadyPrefix(e, first, load, i + 1);
        InstallNext(first + i, load[i], fetched, e, Chosen(first, load[..i]));
      }
      assert load[..|load|] == load;
      InstallAllKeeps(e, Chosen(first, load), size);
    }
  }
}
