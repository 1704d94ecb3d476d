/**
 Writing a dirty page back. The page is compared with its twin byte by byte, runs of changed
 bytes are put to the home with one RMA call each, and nothing else is touched, so nodes
 that have changed different bytes of one page can write back in any order.
 */
module PageDiff {
  import opened PageProtocol

  /** One MPI_Put: `count` bytes of the page, at the same offset in the home's window. */
  method PutRun(page: array<Byte>, from: nat, count: nat, home: array<Byte>)
    requires page != home && page.Length == home.Length && from + count <= page.Length
    modifies home
    ensures forall b :: 0 <= b < home.Length ==>
      home[b] == if from <= b < from + count then page[b] else old(home[b])
  {
    var i := 0;
    while i < count
      invariant 0 <= i <= count
      invariant forall b :: 0 <= b < home.Length ==>
        home[b] == if from <= b < from + i then page[b] else old(home[b])
    {
      home[from + i] := page[from + i];
      i := i + 1;
    }
  }

  /** What the runs put so far leave behind: merged up to `i`, except for the open run before it. */
  ghost predicate MergedUpTo(home: seq<Byte>, was: Page, page: Page, twin: Page, i: nat, open: nat)
    requires |home| == |was| == |page| == |twin| && open <= i <= |home|
  {
    && (forall b :: i - open <= b < i ==> page[b] != twin[b] && home[b] == was[b])
    && (forall b :: 0 <= b < i - open ==> home[b] == if page[b] != twin[b] then page[b] else was[b])
    && (forall b :: i <= b < |home| ==> home[b] == was[b])
  }

  method StorePageDiff(page: array<Byte>, twin: array<Byte>, home: array<Byte>) returns (puts: nat)
    requires page != home && twin != home && page.Length == twin.Length == home.Length
    modifies home
    ensures home[..] == Merge(old(home[..]), page[..], twin[..])
    ensures puts == 0 ==> page[..] == twin[..]
    ensures page[..] == twin[..] ==> puts == 0
  {
    ghost var was, p, t := home[..], page[..], twin[..];
    puts := 0;
    var count := 0;
    var i := 0;
    while i < page.Length
      invariant 0 <= count <= i <= page.Length
      invariant MergedUpTo(home[..], was, p, t, i, count)
      invariant puts == 0 && count == 0 ==> forall b :: 0 <= b < i ==> p[b] == t[b]
      invariant puts > 0 || count > 0 ==> p != t
    {
      if page[i] != twin[i] {
        assert p[i] != t[i];
        count := count + 1;
      } else if count > 0 {
        PutRun(page, i - count, count, home);
        puts := puts + 1;
        count := 0;
      }
      i := i + 1;
    }
    if count > 0 {
      PutRun(page, i - count, count, home);
      puts := puts + 1;
    }
    assert MergedUpTo(home[..], was, p, t, i, 0);
  }

  /** The bytes a node has changed. */
  ghost predicate Changes(data: Page, twin: Page, b: nat) {
    b < |data| == |twin| && data[b] != twin[b]
  }

  /** Wherever both nodes have changed a byte, they have changed it to the same value. */
  ghost predicate Compatible(data1: Page, twin1: Page, data2: Page, twin2: Page) {
    forall b: nat :: Changes(data1, twin1, b) && Changes(data2, twin2, b) ==> data1[b] == data2[b]
  }

  ghost predicate Commute(m: Page, data1: Page, twin1: Page, data2: Page, twin2: Page)
    requires |m| == |data1| == |twin1| == |data2| == |twin2|
  {
    Merge(Merge(m, data1, twin1), data2, twin2) == Merge(Merge(m, data2, twin2), data1, twin1)
  }

  lemma CompatibleCommute(m: Page, data1: Page, twin1: Page, data2: Page, twin2: Page)
    requires |m| == |data1| == |twin1| == |data2| == |twin2| && Compatible(data1, twin1, data2, twin2)
    ensures Commute(m, data1, twin1, data2, twin2)
  {
    var x := Merge(Merge(m, data1, twin1), data2, twin2);
    var y := Merge(Merge(m, data2, twin2), data1, twin1);
    forall b | 0 <= b < |m| ensures x[b] == y[b] {
      assert Changes(data1, twin1, b) && Changes(data2, twin2, b) ==> data1[b] == data2[b];
    }
  }

  lemma CommuteCompatible(data1: Page, twin1: Page, data2: Page, twin2: Page)
    requires |data1| == |twin1| == |data2| == |twin2| && Commute(data1, data1, twin1, data2, twin2)
    ensures Compatible(data1, twin1, data2, twin2)
  {
    forall b: nat | Changes(data1, twin1, b) && Changes(data2, twin2, b) ensures data1[b] == data2[b] {
      assert Merge(Merge(data1, data1, twin1), data2, twin2)[b] == data2[b];
      assert Merge(Merge(data1, data2, twin2), data1, twin1)[b] == data1[b];
    }
  }

  /**
   Two write-backs commute, whatever the home holds, exactly when they are compatible; in
   particular they do when no byte was changed by both nodes.
   */
  lemma WriteBacksCommute(data1: Page, twin1: Page, data2: Page, twin2: Page)
    requires |data1| == |twin1| == |data2| == |twin2|
    ensures (forall m: Page :: |m| == |data1| ==> Commute(m, data1, twin1, data2, twin2)) <==>
      Compatible(data1, twin1, data2, twin2)
  {
    if Compatible(data1, twin1, data2, twin2) {
      forall m: Page | |m| == |data1| ensures Commute(m, data1, twin1, data2, twin2) {
        CompatibleCommute(m, data1, twin1, data2, twin2);
      }
    } else if Commute(data1, data1, twin1, data2, twin2) {
      CommuteCompatible(data1, twin1, data2, twin2);
    }
  }

  /** A silent store sends nothing, and writing back twice is writing back once. */
  lemma MergeIdempotent(memory: Page, data: Page, twin: Page)
    requires |memory| == |data| == |twin|
    ensures Merge(Merge(memory, data, twin), data, twin) == Merge(memory, data, twin)
    ensures Merge(memory, data, data) == memory
  {
  }
}
