/** kmalloc, kfree and the routines under them, as they run on the bytes of the heap. */
module HeapAllocator {
  import opened PhysicalMemory
  import opened ByteMemory
  import opened KernelHeap

  const PAGE: nat := 0x1000

  /** The heap between any two stores that belong together: chunks tile [HEAP_START, max),
      headers agree with them, and whole pages are mapped just past max. */
  ghost predicate IsHeap(m: Bytes, heap: nat, max: nat, brk: nat, cs: seq<Chunk>) {
    && Tiles(cs, max) && Linked(m, cs)
    && heap == (if cs == [] then 0 else HEAP_START)
    && Mapped(m, max, brk)
  }

  ghost predicate Mapped(m: Bytes, max: nat, brk: nat) {
    && max <= brk < max + PAGE && brk % PAGE == 0 && HEAP_START <= brk < HEAP_LIMIT
    && (forall b: nat :: HEAP_START <= b < brk ==> b in m)
  }

  // ---- What each group of stores does to a heap ----

  lemma HeapEnd(m: Bytes, heap: nat, max: nat, brk: nat, cs: seq<Chunk>)
    requires IsHeap(m, heap, max, brk, cs) && cs != []
    ensures cs[|cs| - 1].End() == max < HEAP_LIMIT
  {
  }

  lemma HeapTiles(m: Bytes, heap: nat, max: nat, brk: nat, cs: seq<Chunk>)
    requires IsHeap(m, heap, max, brk, cs)
    ensures Tiles(cs, max)
  {
  }

  lemma JoinHeap(m: Bytes, heap: nat, max: nat, brk: nat, cs: seq<Chunk>, i: nat)
    requires IsHeap(m, heap, max, brk, cs) && i + 1 < |cs|
    ensures cs[|cs| - 1].End() == max < HEAP_LIMIT && Tiles(cs, max)
    ensures IsHeap(JoinStores(m, cs, i), heap, max, brk, Joined(cs, i))
    ensures Kept(m, JoinStores(m, cs, i), cs)
  {
    hide Tiles, Linked, JoinStores, Joined, Kept, HeaderAt, OnlyHeader, NoFreePair;
    HeapEnd(m, heap, max, brk, cs);
    JoinedAt(cs, i, 0);
    JoinedTiles(cs, i, max);
    JoinLinks(m, cs, i);
    JoinKeeps(m, cs, i);
  }

  /** The payload of every chunk, free or not, is as it was. */
  ghost predicate PayloadsKept(m: Bytes, r: Bytes, cs: seq<Chunk>) {
    forall k: nat :: k < |cs| ==> SameRange(m, r, cs[k].Payload(), cs[k].End())
  }

  lemma JoinHeapPayloads(m: Bytes, heap: nat, max: nat, brk: nat, cs: seq<Chunk>, i: nat)
    requires IsHeap(m, heap, max, brk, cs) && i + 1 < |cs|
    ensures cs[|cs| - 1].End() == max < HEAP_LIMIT && Tiles(cs, max)
    ensures PayloadsKept(m, JoinStores(m, cs, i), cs)
  {
    HeapEnd(m, heap, max, brk, cs);
    HeapTiles(m, heap, max, brk, cs);
    hide IsHeap, JoinStores, SameRange, Tiles;
    forall k: nat | k < |cs|
      ensures SameRange(m, JoinStores(m, cs, i), cs[k].Payload(), cs[k].End())
    {
      JoinKeepsPayload(m, cs, i, k);
    }
  }

  /** What the stores of Absorb read on their way, and what they amount to. */
  lemma AbsorbFacts(m: Bytes, heap: nat, max: nat, brk: nat, cs: seq<Chunk>, i: nat, c: nat, s: nat, n: nat)
    requires IsHeap(m, heap, max, brk, cs) && i + 1 < |cs|
    requires c == cs[i].addr && s == cs[i].size + cs[i + 1].size + HEADER && n == Next(cs, i + 1)
    ensures s < 0x1_0000_0000_0000_0000 && c < 0x1_0000_0000_0000_0000 && n < 0x1_0000_0000_0000_0000
    ensures HeaderAt(m, c).size + HeaderAt(m, cs[i + 1].addr).size + HEADER == s
    ensures HeaderAt(SetSize(m, c, s), cs[i + 1].addr).n == n
    ensures IsHeap(PatchPrev(SetN(SetSize(m, c, s), c, n), n, c), heap, max, brk, Joined(cs, i))
    ensures Kept(m, PatchPrev(SetN(SetSize(m, c, s), c, n), n, c), cs)
    ensures PayloadsKept(m, PatchPrev(SetN(SetSize(m, c, s), c, n), n, c), cs)
  {
    hide HeaderAt, SetP, SetN, SetSize, Tiles, Joined, Kept, OnlyHeader, IsHeap, SameRange;
    JoinHeapPayloads(m, heap, max, brk, cs, i);
    HeapEnd(m, heap, max, brk, cs);
    JoinHeap(m, heap, max, brk, cs, i);
    HeaderFacts(m, heap, max, brk, cs, i);
    HeaderFacts(m, heap, max, brk, cs, i + 1);
    AddrFits(cs, i);
    AddrFits(cs, i + 1);
    NextFits(cs, i + 1);
    Unrelated(m, SetSize(m, c, s), cs, i, i + 1);
  }

  lemma SplitHeap(m: Bytes, heap: nat, max: nat, brk: nat, cs: seq<Chunk>, i: nat, size: nat)
    requires IsHeap(m, heap, max, brk, cs) && i < |cs| && cs[i].free && size + HEADER < cs[i].size
    ensures cs[|cs| - 1].End() == max < HEAP_LIMIT && Tiles(cs, max)
    ensures IsHeap(SplitStores(m, cs, i, size), heap, max, brk, Split(cs, i, size))
    ensures Kept(m, SplitStores(m, cs, i, size), cs)
  {
    hide Tiles, Linked, SplitStores, Split, Kept, HeaderAt, OnlyHeader, NoFreePair;
    HeapEnd(m, heap, max, brk, cs);
    SplitAt(cs, i, size, 0);
    SplitTiles(cs, i, size, max);
    SplitLinks(m, cs, i, size);
    SplitKeeps(m, cs, i, size);
  }

  lemma MarkHeap(m: Bytes, heap: nat, max: nat, brk: nat, cs: seq<Chunk>, i: nat, free: bool)
    requires IsHeap(m, heap, max, brk, cs) && i < |cs|
    ensures IsHeap(SetFlags(m, cs[i].addr, if free then 1 else 0), heap, max, brk, Marked(cs, i, free))
    ensures Kept(m, SetFlags(m, cs[i].addr, if free then 1 else 0), cs)
  {
    hide HeaderAt, SetFlags;
    var c, r := cs[i].addr, Marked(cs, i, free);
    var m1 := SetFlags(m, c, if free then 1 else 0);
    MarkTiles(cs, i, free, max);
    forall k | 0 <= k < |r|
      ensures HeaderOk(m1, r, k)
    {
      assert HeaderOk(m, cs, k);
      Unrelated(m, m1, cs, i, k);
    }
    WriteKeeps(m, m1, cs, i, c);
  }

  lemma MarkTiles(cs: seq<Chunk>, i: nat, free: bool, max: nat)
    requires Tiles(cs, max) && i < |cs|
    ensures Tiles(Marked(cs, i, free), max)
  {
    var r := Marked(cs, i, free);
    forall k | 0 <= k < |r| - 1
      ensures Adjoins(r, k)
    {
      assert Adjoins(cs, k);
    }
  }

  /** What a walk over the list reads in the header of chunk i. */
  lemma HeaderFacts(m: Bytes, heap: nat, max: nat, brk: nat, cs: seq<Chunk>, i: nat)
    requires IsHeap(m, heap, max, brk, cs) && i < |cs|
    ensures HeaderAt(m, cs[i].addr) == WantedHeader(cs, i)
    ensures (Next(cs, i) != 0 <==> i + 1 < |cs|) && (Prev(cs, i) != 0 <==> i > 0)
    ensures HEAP_START <= cs[i].addr && cs[i].End() <= max < HEAP_LIMIT
  {
    assert HeaderOk(m, cs, i);
    NextFits(cs, i);
    AddrFits(cs, i);
    if i > 0 {
      AddrFits(cs, i - 1);
    }
  }

  lemma SplitWords(m: Bytes, heap: nat, max: nat, brk: nat, cs: seq<Chunk>, i: nat, size: nat)
    requires IsHeap(m, heap, max, brk, cs) && i < |cs| && size + HEADER < cs[i].size
    ensures cs[i].End() < 0x1_0000_0000_0000_0000 && Next(cs, i) < 0x1_0000_0000_0000_0000
  {
    HeapEnd(m, heap, max, brk, cs);
    AddrFits(cs, i);
    NextFits(cs, i);
  }

  /** What the stores of SplitChunk read on their way, and what they amount to. */
  lemma SplitFacts(m: Bytes, heap: nat, max: nat, brk: nat, cs: seq<Chunk>, i: nat,
                   size: Word, c: Word, c2: Word, rest: Word, n: Word)
    requires IsHeap(m, heap, max, brk, cs) && i < |cs| && cs[i].free && size + HEADER < cs[i].size
    requires c == cs[i].addr && c2 == c + HEADER + size && rest == cs[i].size - size - HEADER && n == Next(cs, i)
    ensures HeaderAt(SetFlags(SetSize(m, c2, rest), c2, 1), c).n == n
    ensures IsHeap(SplitWrites(m, c, c2, size, rest, n), heap, max, brk, Split(cs, i, size))
    ensures Kept(m, SplitWrites(m, c, c2, size, rest, n), cs)
  {
    hide HeaderAt, SetP, SetN, SetSize, SetFlags, SplitWrites, Split, Kept, IsHeap, Tiles, Linked;
    HeapEnd(m, heap, max, brk, cs);
    HeaderFacts(m, heap, max, brk, cs, i);
    SplitHeap(m, heap, max, brk, cs, i, size);
  }

  // ---- Growing ----

  function MapPage(m: Bytes, page: nat, fill: nat -> Byte): Bytes {
    m + map b: nat | page <= b < page + 0x1000 :: fill(b)
  }

  /** Mapping pages past the heap changes nothing in it. */
  lemma SbrkHeap(m: Bytes, r: Bytes, max: nat, brk: nat, cs: seq<Chunk>)
    requires Tiles(cs, max) && Linked(m, cs) && max <= brk && Agree(m, r, 0, brk)
    ensures Linked(r, cs) && Kept(m, r, cs)
  {
    forall k | 0 <= k < |cs|
      ensures HeaderOk(r, cs, k)
    {
      assert HeaderOk(m, cs, k);
      AddrFits(cs, k);
      HeaderSame(m, r, cs[k].addr);
    }
    forall a: nat | InUse(cs, a)
      ensures At(r, a) == At(m, a)
    {
      var k :| 0 <= k < |cs| && !cs[k].free && cs[k].Payload() <= a < cs[k].End();
      AddrFits(cs, k);
    }
  }

  lemma OnlyHeaderTwice(m: Bytes, r: Bytes, q: Bytes, c: nat)
    requires OnlyHeader(m, r, c) && OnlyHeader(r, q, c)
    ensures OnlyHeader(m, q, c)
  {
  }

  /** The stores of kmalloc that fill in the header of the chunk it adds. */
  function NewLast(m: Bytes, c: Word, p: Word, size: Word): Bytes {
    SetP(SetN(SetP(SetFlags(SetSize(m, c, size), c, 1), c, 0), c, 0), c, p)
  }

  lemma NewLastHeader(m: Bytes, c: Word, p: Word, size: Word)
    ensures HeaderAt(NewLast(m, c, p, size), c) == Header(p, 0, 1, size) && OnlyHeader(m, NewLast(m, c, p, size), c)
  {
    hide HeaderAt, OnlyHeader, SetP, SetN, SetSize, SetFlags;
    var m1 := SetSize(m, c, size);
    var m2 := SetFlags(m1, c, 1);
    OnlyHeaderTwice(m, m1, m2, c);
    var m3 := SetP(m2, c, 0);
    OnlyHeaderTwice(m, m2, m3, c);
    var m4 := SetN(m3, c, 0);
    OnlyHeaderTwice(m, m3, m4, c);
    OnlyHeaderTwice(m, m4, SetP(m4, c, p), c);
  }

  /** ... and those that link it behind p when there is one. */
  function AppendWrites(m: Bytes, c: Word, p: Word, size: Word): Bytes {
    if p == 0 then NewLast(m, c, p, size) else SetN(SetN(NewLast(m, c, p, size), c, 0), p, c)
  }

  function LastAddr(cs: seq<Chunk>): nat {
    if cs == [] then 0 else cs[|cs| - 1].addr
  }

  function Appended(cs: seq<Chunk>, c: nat, size: nat): seq<Chunk> {
    cs + [Chunk(c, size, true)]
  }

  lemma AppendHeap(m: Bytes, max: nat, cs: seq<Chunk>, c: Word, p: Word, size: Word)
    requires Tiles(cs, max) && Linked(m, cs) && c == max && p == LastAddr(cs) && max + HEADER + size < HEAP_LIMIT
    ensures Linked(AppendWrites(m, c, p, size), Appended(cs, c, size))
  {
    hide HeaderAt, SetN, NewLast, Tiles;
    var r, q := Appended(cs, c, size), AppendWrites(m, c, p, size);
    AppendTiles(cs, max, c, size);
    NewLastHeader(m, c, p, size);
    forall k | 0 <= k < |r|
      ensures HeaderOk(q, r, k)
    {
      Apart(r, k, |cs|);
      if k < |cs| {
        assert HeaderOk(m, cs, k);
      }
      if cs != [] {
        AddrFits(r, |cs| - 1);
        Apart(r, |cs| - 1, |cs|);
        Apart(r, k, |cs| - 1);
      }
    }
  }

  lemma AppendKeeps(m: Bytes, max: nat, cs: seq<Chunk>, c: Word, p: Word, size: Word)
    requires Tiles(cs, max) && c == max && p == LastAddr(cs) && max + HEADER + size < HEAP_LIMIT
    ensures Kept(m, AppendWrites(m, c, p, size), cs)
    ensures forall b: nat :: b in m ==> b in AppendWrites(m, c, p, size)
  {
    hide HeaderAt, SetN, NewLast;
    AppendTiles(cs, max, c, size);
    NewLastHeader(m, c, p, size);
    var r := Appended(cs, c, size);
    var m1 := NewLast(m, c, p, size);
    WriteKeeps(m, m1, r, |cs|, c);
    if p != 0 {
      var m2 := SetN(m1, c, 0);
      WriteKeeps(m1, m2, r, |cs|, c);
      WriteKeeps(m2, SetN(m2, p, c), r, |cs| - 1, p);
    }
  }

  lemma AppendTiles(cs: seq<Chunk>, max: nat, c: nat, size: nat)
    requires Tiles(cs, max) && c == max
    ensures Tiles(Appended(cs, c, size), max + HEADER + size)
  {
    var r := Appended(cs, c, size);
    forall i, j | 0 <= i < j < |r|
      ensures r[i].End() <= r[j].addr
    {
      AddrFits(cs, i);
    }
    forall i | 0 <= i < |r| - 1
      ensures Adjoins(r, i)
    {
      AddrFits(cs, i);
    }
  }

  // ---- Which bytes clients own ----

  lemma UseDependsOnUsed(cs: seq<Chunk>, r: seq<Chunk>, a: nat)
    requires Used(cs) <= Used(r) && InUse(cs, a)
    ensures InUse(r, a)
  {
    var i :| 0 <= i < |cs| && !cs[i].free && cs[i].Payload() <= a < cs[i].End();
    assert cs[i] in Used(r);
    var k :| 0 <= k < |r| && r[k] == cs[i];
  }

  /** A step that keeps what r uses, after one that keeps what cs uses. */
  lemma KeptOn(m: Bytes, m1: Bytes, m2: Bytes, cs: seq<Chunk>, r: seq<Chunk>)
    requires Kept(m, m1, cs) && Kept(m1, m2, r) && Used(cs) <= Used(r)
    ensures Kept(m, m2, cs)
  {
    forall a: nat | InUse(cs, a)
      ensures At(m2, a) == At(m, a)
    {
      UseDependsOnUsed(cs, r, a);
    }
  }

  /** Two chunks of a heap share no byte, headers included, and lie inside the mapped heap. */
  lemma ChunksAreDisjoint(cs: seq<Chunk>, max: nat, c: Chunk, d: Chunk)
    requires Tiles(cs, max) && c in cs && d in cs
    ensures HEAP_START <= c.addr && c.End() <= max
    ensures c != d ==> c.End() <= d.addr || d.End() <= c.addr
  {
    var i :| 0 <= i < |cs| && cs[i] == c;
    var j :| 0 <= j < |cs| && cs[j] == d;
    AddrFits(cs, i);
  }

  lemma UsedAt(cs: seq<Chunk>, c: Chunk) returns (i: nat)
    requires c in Used(cs)
    ensures i < |cs| && cs[i] == c && !c.free && c.Payload() == c.addr + HEADER
  {
    i :| 0 <= i < |cs| && cs[i] == c;
  }

  /** Freeing chunk i, before any merging. */
  lemma FreedFacts(cs: seq<Chunk>, max: nat, i: nat)
    requires Tiles(cs, max) && i < |cs| && !cs[i].free
    ensures Used(Marked(cs, i, true)) == Used(cs) - {cs[i]}
    ensures Marked(Marked(cs, i, true), i, false) == cs
  {
    var r := Marked(cs, i, true);
    forall c | c in cs && !c.free && c != cs[i]
      ensures c in r
    {
      var k :| 0 <= k < |cs| && cs[k] == c;
      assert r[k] == c;
    }
    forall c | c in r && !c.free
      ensures c in cs && c != cs[i]
    {
      var k :| 0 <= k < |r| && r[k] == c;
      assert cs[k] == c;
      Apart(cs, i, k);
    }
  }

  lemma OnePayload(m: Bytes, r: Bytes, cs: seq<Chunk>, i: nat)
    requires PayloadsKept(m, r, cs) && i < |cs|
    ensures SameRange(m, r, cs[i].Payload(), cs[i].End())
  {
  }

  lemma SameIfEqual(m: Bytes, r: Bytes, c: Chunk)
    requires m == r || SameRange(m, r, c.Payload(), c.End())
    ensures SameRange(m, r, c.Payload(), c.End())
  {
  }

  lemma RangeTwice(m: Bytes, m1: Bytes, m2: Bytes, c: Chunk, d: Chunk)
    requires SameRange(m, m1, c.Payload(), c.End()) && SameRange(m1, m2, d.Payload(), d.End())
    requires d.addr == c.addr && d.size >= c.size
    ensures SameRange(m, m2, c.Payload(), c.End())
  {
  }

  lemma MarkKeepsPayload(m: Bytes, heap: nat, max: nat, brk: nat, cs: seq<Chunk>, i: nat, r: Bytes)
    requires IsHeap(m, heap, max, brk, cs) && i < |cs| && r == SetFlags(m, cs[i].addr, 1)
    ensures SameRange(m, r, cs[i].Payload(), cs[i].End())
  {
    HeapEnd(m, heap, max, brk, cs);
    HeaderKeepsPayload(m, r, cs, i, i);
  }

  /** A word inside a range that stayed reads the same. */
  lemma WordStays(m: Bytes, r: Bytes, c: Chunk, a: nat)
    requires SameRange(m, r, c.Payload(), c.End()) && c.Payload() <= a && a + 8 <= c.End()
    ensures GetWord(r, a) == GetWord(m, a)
  {
    WordAgrees(m, r, c.Payload(), c.End(), a);
  }

  lemma KeptLess(m: Bytes, r: Bytes, cs: seq<Chunk>, less: seq<Chunk>)
    requires Kept(m, r, cs) && Used(less) <= Used(cs)
    ensures Kept(m, r, less)
  {
    forall a: nat | InUse(less, a)
      ensures At(r, a) == At(m, a)
    {
      UseDependsOnUsed(less, cs, a);
    }
  }

  lemma ChunkEnd(c: Chunk)
    ensures c.End() == c.addr + HEADER + c.size
  {
  }

  lemma LastFacts(m: Bytes, heap: nat, max: nat, brk: nat, cs: seq<Chunk>)
    requires IsHeap(m, heap, max, brk, cs)
    ensures LastAddr(cs) == 0 ==> max == HEAP_START
    ensures LastAddr(cs) != 0 ==> max == LastAddr(cs) + HeaderAt(m, LastAddr(cs)).size + HEADER
    ensures LastAddr(cs) <= max < 0x1_0000_0000_0000_0000 && Mapped(m, max, brk) && HEAP_START <= max
  {
    if cs != [] {
      HeaderFacts(m, heap, max, brk, cs, |cs| - 1);
    }
  }

  lemma LastHeader(m: Bytes, cs: seq<Chunk>)
    requires Linked(m, cs) && cs != []
    ensures HeaderAt(m, cs[|cs| - 1].addr).n == 0
  {
    assert HeaderOk(m, cs, |cs| - 1);
  }

  /** What the stores of AddChunk read on their way, and what they amount to. */
  lemma AppendFacts(m0: Bytes, m: Bytes, heap: nat, max: nat, brk0: nat, brk: nat, cs: seq<Chunk>,
                    c: Word, p: Word, size: Word)
    requires IsHeap(m0, heap, max, brk0, cs) && Agree(m0, m, 0, brk0) && Mapped(m, max + HEADER + size, brk)
    requires c == max && p == LastAddr(cs)
    ensures p != 0 ==> HeaderAt(NewLast(m, c, p, size), p).n == 0
    ensures IsHeap(AppendWrites(m, c, p, size), if p == 0 then c else heap, max + HEADER + size, brk,
                   Appended(cs, c, size))
    ensures Kept(m0, AppendWrites(m, c, p, size), cs)
  {
    hide HeaderAt, AppendWrites, SetN, NewLast, Tiles, Linked, Kept;
    SbrkHeap(m0, m, max, brk0, cs);
    AppendTiles(cs, max, c, size);
    AppendHeap(m, max, cs, c, p, size);
    AppendKeeps(m, max, cs, c, p, size);
    NewLastHeader(m, c, p, size);
    KeptTwice(m0, m, AppendWrites(m, c, p, size), cs);
    LastFacts(m0, heap, max, brk0, cs);
    if p != 0 {
      HeaderFacts(m0, heap, max, brk0, cs, |cs| - 1);
      LastHeader(m, cs);
    }
  }

  /** The list just after growing for a request: its last chunk fits exactly, no other does,
      and that chunk may have a free neighbour. */
  ghost predicate Grown(cs: seq<Chunk>, size: nat) {
    && cs != [] && cs[|cs| - 1] == Chunk(cs[|cs| - 1].addr, size, true)
    && NoneFits(cs, |cs| - 1, size) && NoFreePair(Marked(cs, |cs| - 1, false))
  }

  /** Handing out the first chunk that fits. */
  lemma TakenFacts(cs: seq<Chunk>, max: nat, i: nat, size: nat)
    requires Tiles(cs, max) && (NoFreePair(cs) || Grown(cs, size))
    requires i < |cs| && Fit(cs[i], size) && NoneFits(cs, i, size)
    ensures NoFreePair(Taken(cs, i, size)) && SomeFits(cs, size)
    ensures Used(Taken(cs, i, size)) == Used(cs) + {Taken(cs, i, size)[i]}
    ensures Taken(cs, i, size)[i] !in Used(cs) && Taken(cs, i, size)[i] in Taken(cs, i, size)
    ensures TakenFor(Taken(cs, i, size)[i], cs[i].addr, size)
  {
    var was := Marked(cs, i, false);
    if NoFreePair(cs) {
      forall k | 0 <= k < |cs| - 1
        ensures !FreePair(was, k)
      {
        assert !FreePair(cs, k);
      }
    }
    TakenHasNoPair(cs, i, size);
    TakenUses(cs, i, size);
    forall k: nat | k < |cs| && k != i
      ensures cs[k].addr != cs[i].addr
    {
      Apart(cs, i, k);
    }
  }

  /** A chunk handed out at address a for a request of size bytes. */
  ghost predicate TakenFor(c: Chunk, a: nat, size: nat) {
    !c.free && c.addr == a && c.Payload() == a + HEADER && size <= c.size <= size + HEADER
  }

  lemma GrownFacts(cs: seq<Chunk>, c: nat, size: nat)
    requires NoFreePair(cs) && NoneFits(cs, |cs|, size)
    ensures Grown(Appended(cs, c, size), size) && SomeFits(Appended(cs, c, size), size)
    ensures Used(Appended(cs, c, size)) == Used(cs)
  {
    var r := Appended(cs, c, size);
    var was := Marked(r, |cs|, false);
    forall k | 0 <= k < |cs|
      ensures !FreePair(was, k)
    {
      if k + 1 < |cs| {
        assert !FreePair(cs, k);
      }
    }
    assert Fit(r[|cs|], size);
  }

  /** The address kmalloc must choose: the first chunk that fits, or a new one at the end. */
  ghost function Place(cs: seq<Chunk>, max: nat, size: nat): nat
    decreases |cs|
  {
    if cs == [] then max else if Fit(cs[0], size) then cs[0].addr else Place(cs[1..], max, size)
  }

  lemma {:induction false} PlaceIs(cs: seq<Chunk>, max: nat, size: nat, i: nat)
    requires i <= |cs| && NoneFits(cs, i, size) && (i < |cs| ==> Fit(cs[i], size))
    ensures Place(cs, max, size) == if i < |cs| then cs[i].addr else max
    decreases |cs|
  {
    if i > 0 {
      assert !Fit(cs[0], size);
      PlaceIs(cs[1..], max, size, i - 1);
    }
  }

  /** In the grown list the chunk just added is the one to take. */
  lemma GrownPlace(cs: seq<Chunk>, c: nat, max: nat, size: nat)
    requires NoneFits(cs, |cs|, size)
    ensures Place(Appended(cs, c, size), max, size) == c
  {
    PlaceIs(Appended(cs, c, size), max, size, |cs|);
  }

  lemma WalkFacts(m: Bytes, heap: nat, max: nat, brk: nat, cs: seq<Chunk>)
    requires IsHeap(m, heap, max, brk, cs)
    ensures heap == (if cs == [] then 0 else cs[0].addr) && (heap == 0 <==> cs == [])
  {
  }

  lemma ShrunkUses(cs: seq<Chunk>, i: nat, size: nat)
    requires i < |cs| && cs[i].free
    ensures Used(Shrunk(cs, i, size)) == Used(cs)
    ensures Shrunk(cs, i, size)[i].addr == cs[i].addr
  {
    var r := Shrunk(cs, i, size);
    forall c | c in cs && !c.free
      ensures c in r
    {
      var k :| 0 <= k < |cs| && cs[k] == c;
      assert r[if k < i || cs[i].size <= size + HEADER then k else k + 1] == c;
    }
  }

  /** Once every chunk has been given back, one free chunk is left. */
  lemma AllFreedIsOneChunk(cs: seq<Chunk>, max: nat)
    requires Tiles(cs, max) && NoFreePair(cs) && Used(cs) == {}
    ensures cs == if max == HEAP_START then [] else [Chunk(HEAP_START, max - HEAP_START - HEADER, true)]
  {
    if |cs| > 1 {
      SomeChunkIsUsed(cs);
    } else if |cs| == 1 {
      assert cs[0] !in Used(cs);
    }
  }

  lemma SomeChunkIsUsed(cs: seq<Chunk>)
    requires NoFreePair(cs) && |cs| > 1
    ensures Used(cs) != {}
  {
    assert !FreePair(cs, 0);
    assert (if cs[0].free then cs[1] else cs[0]) in Used(cs);
  }

  lemma MergedIs(cs: seq<Chunk>, i: nat)
    requires i < |cs|
    ensures Merged(cs, i) ==
      var s := if i + 1 < |cs| && cs[i + 1].free then Joined(cs, i) else cs;
      if i > 0 && s[i - 1].free then Joined(s, i - 1) else s
  {
  }

  lemma TakenIs(cs: seq<Chunk>, i: nat, size: nat)
    requires i < |cs|
    ensures Taken(cs, i, size) == Marked(Shrunk(cs, i, size), i, false)
  {
  }

  lemma TakenPayload(c: Chunk, a: nat, size: nat)
    requires TakenFor(c, a, size)
    ensures c.Payload() == a + HEADER
  {
  }

  /** Taking chunk i, the first that fits, in plain terms. */
  lemma FirstFit(cs: seq<Chunk>, max: nat, i: nat, size: nat)
    requires Tiles(cs, max) && i < |cs| && Fit(cs[i], size) && NoneFits(cs, i, size)
    ensures cs[i] in cs && cs[i].free && size <= cs[i].size
    ensures forall c :: c in cs && c.free && size <= c.size ==> cs[i].addr <= c.addr
    ensures Taken(cs, i, size)[i].addr == cs[i].addr
    ensures Taken(cs, i, size)[i].size == if cs[i].size <= size + 32 then cs[i].size else size
  {
    forall c | c in cs && c.free && size <= c.size
      ensures cs[i].addr <= c.addr
    {
      var k :| 0 <= k < |cs| && cs[k] == c;
      assert Fit(cs[k], size);
      assert i < k ==> cs[i].End() <= cs[k].addr;
    }
  }

  lemma NoneIsLarge(cs: seq<Chunk>, size: nat)
    requires NoneFits(cs, |cs|, size)
    ensures forall c :: c in cs && c.free ==> c.size < size
  {
    forall c | c in cs && c.free
      ensures c.size < size
    {
      var k :| 0 <= k < |cs| && cs[k] == c;
      assert !Fit(cs[k], size);
    }
  }

  /** After growing only the new chunk is large enough. */
  lemma GrownOnly(cs: seq<Chunk>, a: nat, size: nat)
    requires NoneFits(cs, |cs|, size)
    ensures forall c :: c in Appended(cs, a, size) && c.free && size <= c.size ==> c == Chunk(a, size, true)
  {
    NoneIsLarge(cs, size);
  }

  lemma NoneIsNotSome(cs: seq<Chunk>, size: nat)
    requires NoneFits(cs, |cs|, size)
    ensures !SomeFits(cs, size)
  {
  }

  /** A list in which nothing fits has not just been grown. */
  lemma GrownNeedsRoom(cs: seq<Chunk>, size: nat)
    requires NoneFits(cs, |cs|, size)
    ensures !Grown(cs, size)
  {
    if cs != [] {
      assert !Fit(cs[|cs| - 1], size);
    }
  }

  class Heap {
    var mem: Bytes
    var heap: nat
    var heapMax: nat
    var brk: nat
    ghost var cs: seq<Chunk>
    const fill: nat -> Byte // what the frames mapped by ksbrk happen to hold

    ghost predicate Shape()
      reads this
    {
      IsHeap(mem, heap, heapMax, brk, cs)
    }

    /** Between any two calls. */
    ghost predicate Valid()
      reads this
    {
      Shape() && NoFreePair(cs)
    }

    constructor (fill: nat -> Byte)
      ensures Valid() && cs == []
    {
      this.fill := fill;
      mem, heap, heapMax, brk := map[], 0, HEAP_START, HEAP_START;
      cs := [];
    }

    /** Chunk c takes over its successor d. */
    method Absorb(c: nat, d: nat, ghost i: nat)
      requires Shape() && i + 1 < |cs| && cs[i].addr == c && cs[i + 1].addr == d
      modifies `mem, `cs
      ensures Shape() && cs == Joined(old(cs), i) && Kept(old(mem), mem, old(cs))
      ensures PayloadsKept(old(mem), mem, old(cs))
    {
      hide HeaderAt, SetP, SetN, SetSize, IsHeap, Kept, PayloadsKept, Joined;
      AbsorbFacts(mem, heap, heapMax, brk, cs, i, c, cs[i].size + cs[i + 1].size + HEADER, Next(cs, i + 1));
      mem := SetSize(mem, c, HeaderAt(mem, c).size + HeaderAt(mem, d).size + HEADER);
      mem := SetN(mem, c, HeaderAt(mem, d).n);
      var n := HeaderAt(mem, c).n;
      if n != 0 {
        mem := SetP(mem, n, c);
      }
      cs := Joined(cs, i);
    }

    method MergeChunk(c: nat, ghost i: nat)
      requires Shape() && i < |cs| && cs[i].addr == c && cs[i].free
      modifies `mem, `cs
      ensures Shape() && cs == Merged(old(cs), i) && Used(cs) == Used(old(cs)) && Kept(old(mem), mem, old(cs))
      ensures SameRange(old(mem), mem, old(cs)[i].Payload(), old(cs)[i].End())
    {
      hide HeaderAt, IsHeap, Joined, Used, InUse, Merged, At, PayloadsKept, SameRange;
      ghost var cs0, m0 := cs, mem;
      HeaderFacts(mem, heap, heapMax, brk, cs, i);
      MergedUses(cs, i);
      var n := HeaderAt(mem, c).n;
      if n != 0 {
        HeaderFacts(mem, heap, heapMax, brk, cs, i + 1);
        if HeaderAt(mem, n).flags % 2 == 1 {
          JoinedUses(cs, i);
          Absorb(c, n, i);
          OnePayload(m0, mem, cs0, i);
          JoinedAt(cs0, i, i);
          if i > 0 { JoinedAt(cs0, i, i - 1); }
        }
      }
      ghost var cs1, m1 := cs, mem;
      SameIfEqual(m0, m1, cs0[i]);
      HeaderFacts(mem, heap, heapMax, brk, cs, i);
      var p := HeaderAt(mem, c).p;
      if p != 0 {
        HeaderFacts(mem, heap, heapMax, brk, cs, i - 1);
        if HeaderAt(mem, p).flags % 2 == 1 {
          Absorb(p, c, i - 1);
          KeptOn(m0, m1, mem, cs0, cs1);
          OnePayload(m1, mem, cs1, i);
          RangeTwice(m0, m1, mem, cs0[i], cs1[i]);
        }
      }
      MergedIs(cs0, i);
    }

    /** kfree; returns whether it stopped the machine instead. The caller passes the payload of
        a chunk in use, unless the address is outside the heap. */
    method Kfree(a: nat, ghost c: Chunk) returns (panicked: bool)
      requires Valid()
      requires HEAP_START <= a <= heapMax ==> c in Used(cs) && c.Payload() == a
      modifies `mem, `cs
      ensures Valid() && (panicked <==> !(HEAP_START <= a <= heapMax))
      ensures panicked ==> mem == old(mem) && cs == old(cs)
      ensures !panicked ==> Used(cs) == Used(old(cs)) - {c} && Kept(old(mem), mem, cs)
      // only headers are written: what the block held stays until the memory is handed out again
      ensures !panicked ==> SameRange(old(mem), mem, c.Payload(), c.End())
    {
      hide HeaderAt, SetFlags, IsHeap, Used, NoFreePair, Kept, Merged, SameRange;
      if a < HEAP_START || a > heapMax {
        return true;
      }
      ghost var i := UsedAt(cs, c);
      ghost var cs0, m0 := cs, mem;
      HeapTiles(mem, heap, heapMax, brk, cs);
      FreedFacts(cs, heapMax, i);
      MarkHeap(mem, heap, heapMax, brk, cs, i, true);
      mem := SetFlags(mem, a - HEADER, 1);
      cs := Marked(cs, i, true);
      ghost var cs1, m1 := cs, mem;
      MarkKeepsPayload(m0, heap, heapMax, brk, cs0, i, m1);
      MergeChunk(a - HEADER, i);
      RangeTwice(m0, m1, mem, c, cs1[i]);
      MergedHasNoPair(cs1, i);
      KeptLess(m0, m1, cs0, cs);
      KeptOn(m0, m1, mem, cs, cs1);
      return false;
    }

    method SplitChunk(c: nat, size: Word, ghost i: nat)
      requires Shape() && i < |cs| && cs[i].addr == c && cs[i].free
      modifies `mem, `cs
      ensures Shape() && cs == Shrunk(old(cs), i, size) && Kept(old(mem), mem, old(cs))
    {
      hide HeaderAt, SetP, SetN, SetSize, SetFlags, IsHeap, Split, InUse, At;
      HeaderFacts(mem, heap, heapMax, brk, cs, i);
      if HeaderAt(mem, c).size <= size + HEADER {
        return;
      }
      SplitWords(mem, heap, heapMax, brk, cs, i, size);
      var c2 := c + HEADER + size;
      var rest := HeaderAt(mem, c).size - size - HEADER;
      ChunkEnd(cs[i]);
      SplitFacts(mem, heap, heapMax, brk, cs, i, size, c, c2, rest, Next(cs, i));
      mem := SetSize(mem, c2, rest);
      mem := SetFlags(mem, c2, 1);
      mem := SetN(mem, c2, HeaderAt(mem, c).n);
      var n := HeaderAt(mem, c2).n;
      if n != 0 {
        mem := SetP(mem, n, c2);
      }
      mem := SetN(mem, c, c2);
      mem := SetP(mem, c2, c);
      mem := SetSize(mem, c, size);
      cs := Split(cs, i, size);
    }

    /** Moves the end of the heap up by size bytes, mapping the pages that takes. */
    method Ksbrk(size: nat) returns (end: nat)
      requires Mapped(mem, heapMax, brk) && HEAP_START <= heapMax && heapMax + size + PAGE <= HEAP_LIMIT
      modifies `mem, `brk, `heapMax
      ensures end == heapMax == old(heapMax) + size && Mapped(mem, heapMax, brk) && brk >= old(brk)
      ensures Agree(old(mem), mem, 0, old(brk))
    {
      while brk < heapMax + size
        invariant old(brk) <= brk && brk % PAGE == 0 && brk < heapMax + size + PAGE && heapMax == old(heapMax)
        invariant forall b: nat :: HEAP_START <= b < brk ==> b in mem
        invariant Agree(old(mem), mem, 0, old(brk))
      {
        mem := MapPage(mem, brk, fill);
        brk := brk + PAGE;
      }
      heapMax := heapMax + size;
      end := heapMax;
    }

    /** No chunk fits: adds a free one of exactly size bytes behind the last, p. */
    method AddChunk(p: nat, size: Word)
      requires Shape() && p == LastAddr(cs) && heapMax + HEADER + size + PAGE <= HEAP_LIMIT
      modifies this
      ensures Shape() && cs == Appended(old(cs), old(heapMax), size) && Kept(old(mem), mem, old(cs))
      ensures heapMax == old(heapMax) + HEADER + size
    {
      hide HeaderAt, SetP, SetN, SetSize, SetFlags, OnlyHeader, IsHeap, Kept, Mapped, Agree, Appended, LastAddr;
      LastFacts(mem, heap, heapMax, brk, cs);
      ghost var m0, b0, h0 := mem, brk, heap;
      var c := heapMax;
      if p != 0 {
        c := p + HeaderAt(mem, p).size + HEADER;
      } else {
        heap := c;
      }
      var end := Ksbrk(HEADER + size);
      AppendFacts(m0, mem, h0, c, b0, brk, cs, c, p, size);
      mem := SetSize(mem, c, end - (c + HEADER));
      mem := SetFlags(mem, c, 1);
      mem := SetP(mem, c, 0);
      mem := SetN(mem, c, 0);
      mem := SetP(mem, c, p);
      if p != 0 {
        mem := SetN(mem, c, HeaderAt(mem, p).n);
        mem := SetN(mem, p, c);
      }
      cs := Appended(cs, c, size);
    }

    method Kmalloc(size: Word) returns (r: nat, ghost got: Chunk)
      requires Shape() && (NoFreePair(cs) || Grown(cs, size))
      requires SomeFits(cs, size) || heapMax + HEADER + size + PAGE <= HEAP_LIMIT
      modifies this
      ensures Valid() && got in cs && r == got.Payload()
      ensures TakenFor(got, Place(old(cs), old(heapMax), size), size)
      ensures got !in Used(old(cs)) && Used(cs) == Used(old(cs)) + {got} && Kept(old(mem), mem, old(cs))
      ensures heapMax == old(heapMax) + if SomeFits(old(cs), size) then 0 else HEADER + size
      ensures r == got.addr + 32
      // the heap grows only when no free chunk is large enough
      ensures heapMax == old(heapMax) <==> exists c :: c in old(cs) && c.free && size <= c.size
      ensures heapMax != old(heapMax) ==> got.addr == old(heapMax) && got.size == size
      // otherwise the lowest large enough one is taken, whole unless the rest is worth a header
      ensures heapMax == old(heapMax) ==>
        exists c :: c in old(cs) && c.free && size <= c.size && got.addr == c.addr
          && got.size == if c.size <= size + 32 then c.size else size
      ensures heapMax == old(heapMax) ==> forall c :: c in old(cs) && c.free && size <= c.size ==> got.addr <= c.addr
      decreases if SomeFits(cs, size) then 0 else 1
    {
      hide HeaderAt, SetFlags, OnlyHeader, Tiles, IsHeap, Kept, Used, NoFreePair, Shrunk, Taken, SomeFits, Grown,
           Place, TakenFor, Appended;
      ghost var cs0, m0 := cs, mem;
      WalkFacts(mem, heap, heapMax, brk, cs);
      var c, p := heap, 0;
      ghost var i: nat := 0;
      while c != 0
        invariant Shape() && mem == m0 && cs == cs0 && heapMax == old(heapMax)
        invariant i <= |cs| && c == (if i < |cs| then cs[i].addr else 0) && p == LastAddr(cs[..i])
        invariant NoneFits(cs, i, size) && (c != 0 <==> i < |cs|)
        decreases |cs| - i
      {
        HeaderFacts(mem, heap, heapMax, brk, cs, i);
        if HeaderAt(mem, c).flags % 2 == 1 && HeaderAt(mem, c).size >= size {
          HeapTiles(mem, heap, heapMax, brk, cs);
          TakenFacts(cs, heapMax, i, size);
          PlaceIs(cs, heapMax, size, i);
          SplitChunk(c, size, i);
          ShrunkUses(cs0, i, size);
          MarkHeap(mem, heap, heapMax, brk, cs, i, false);
          KeptOn(m0, mem, SetFlags(mem, c, 0), cs0, cs);
          mem := SetFlags(mem, c, 0);
          cs := Marked(cs, i, false);
          TakenIs(cs0, i, size);
          TakenPayload(cs[i], c, size);
          FirstFit(cs0, heapMax, i, size);
          return c + HEADER, cs[i];
        }
        p := c;
        c := HeaderAt(mem, c).n;
        i := i + 1;
      }
      assert cs[..i] == cs;
      NoneIsNotSome(cs, size);
      NoneIsLarge(cs, size);
      PlaceIs(cs, heapMax, size, i);
      GrownNeedsRoom(cs, size);
      GrownFacts(cs, heapMax, size);
      AddChunk(p, size);
      ghost var m1 := mem;
      GrownPlace(cs0, old(heapMax), heapMax, size);
      r, got := Kmalloc(size);
      GrownOnly(cs0, old(heapMax), size);
      KeptOn(m0, m1, mem, cs0, Appended(cs0, old(heapMax), size));
    }
  }
}
