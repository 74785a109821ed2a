/** The kernel heap of kernel/mem/heap.c: first fit over chunks whose headers live in the
    heap itself, at any byte address. */
module KernelHeap {
  import opened PhysicalMemory
  import opened ByteMemory

  const HEAP_START: nat := 0xFFFF_FFC0_0000_0000
  const HEAP_LIMIT: nat := 0x1_0000_0000_0000_0000
  const HEADER: nat := 32 // sizeof(chunk_t): two pointers, the flags and padding, the size

  // ---- Headers in memory ----

  datatype Header = Header(p: nat, n: nat, flags: Byte, size: nat)

  function HeaderAt(m: Bytes, c: nat): Header {
    Header(GetWord(m, c), GetWord(m, c + 8), At(m, c + 16), GetWord(m, c + 24))
  }

  /** r differs from m inside the header at c only. */
  ghost predicate OnlyHeader(m: Bytes, r: Bytes, c: nat) {
    && (forall b: nat :: b < c || c + HEADER <= b ==> At(r, b) == At(m, b))
    && (forall b: nat :: b in m ==> b in r)
    && (forall d: nat :: d + HEADER <= c || c + HEADER <= d ==> HeaderAt(r, d) == HeaderAt(m, d))
  }

  lemma HeaderElsewhere(m: Bytes, r: Bytes, c: nat)
    requires forall b: nat :: b < c || c + HEADER <= b ==> At(r, b) == At(m, b)
    requires forall b: nat :: b in m ==> b in r
    ensures OnlyHeader(m, r, c)
  {
    forall d: nat | d + HEADER <= c || c + HEADER <= d
      ensures HeaderAt(r, d) == HeaderAt(m, d)
    {
      HeaderSame(m, r, d);
    }
  }

  lemma HeaderSame(m: Bytes, r: Bytes, d: nat)
    requires forall b: nat :: d <= b < d + HEADER ==> At(r, b) == At(m, b)
    ensures HeaderAt(r, d) == HeaderAt(m, d)
  {
    WordAgrees(m, r, d, d + HEADER, d);
    WordAgrees(m, r, d, d + HEADER, d + 8);
    WordAgrees(m, r, d, d + HEADER, d + 24);
  }

  function SetP(m: Bytes, c: nat, w: Word): (r: Bytes)
    ensures HeaderAt(r, c) == HeaderAt(m, c).(p := w) && OnlyHeader(m, r, c)
  {
    GetPut(m, c, w);
    GetOther(m, c, w, c + 8);
    GetOther(m, c, w, c + 24);
    HeaderElsewhere(m, PutWord(m, c, w), c);
    PutWord(m, c, w)
  }

  function SetN(m: Bytes, c: nat, w: Word): (r: Bytes)
    ensures HeaderAt(r, c) == HeaderAt(m, c).(n := w) && OnlyHeader(m, r, c)
  {
    GetPut(m, c + 8, w);
    GetOther(m, c + 8, w, c);
    GetOther(m, c + 8, w, c + 24);
    HeaderElsewhere(m, PutWord(m, c + 8, w), c);
    PutWord(m, c + 8, w)
  }

  function SetSize(m: Bytes, c: nat, w: Word): (r: Bytes)
    ensures HeaderAt(r, c) == HeaderAt(m, c).(size := w) && OnlyHeader(m, r, c)
  {
    GetPut(m, c + 24, w);
    GetOther(m, c + 24, w, c);
    GetOther(m, c + 24, w, c + 8);
    HeaderElsewhere(m, PutWord(m, c + 24, w), c);
    PutWord(m, c + 24, w)
  }

  function SetFlags(m: Bytes, c: nat, f: Byte): (r: Bytes)
    ensures HeaderAt(r, c) == HeaderAt(m, c).(flags := f) && OnlyHeader(m, r, c)
  {
    FlagStore(m, c, f);
    m[c + 16 := f]
  }

  lemma FlagStore(m: Bytes, c: nat, f: Byte)
    ensures HeaderAt(m[c + 16 := f], c) == HeaderAt(m, c).(flags := f) && OnlyHeader(m, m[c + 16 := f], c)
  {
    hide GetWord, OnlyHeader;
    var r := m[c + 16 := f];
    WordAgrees(m, r, c, c + 16, c);
    WordAgrees(m, r, c, c + 16, c + 8);
    WordAgrees(m, r, c + 24, c + HEADER, c + 24);
    HeaderElsewhere(m, r, c);
  }

  // ---- The chunk list ----

  /** A chunk as the allocator means it: header at addr, then size bytes of payload. */
  datatype Chunk = Chunk(addr: nat, size: nat, free: bool) {
    function Payload(): nat { addr + HEADER }
    function End(): nat { addr + HEADER + size }
  }

  /** The chunks cover [HEAP_START, max) exactly, in address order. */
  ghost predicate Tiles(cs: seq<Chunk>, max: nat) {
    && (if cs == [] then max == HEAP_START else cs[0].addr == HEAP_START && cs[|cs| - 1].End() == max)
    && (forall i {:trigger Adjoins(cs, i)} :: 0 <= i < |cs| - 1 ==> Adjoins(cs, i))
    && (forall i, j :: 0 <= i < j < |cs| ==> cs[i].End() <= cs[j].addr)
  }

  ghost predicate Adjoins(cs: seq<Chunk>, i: nat)
    requires i + 1 < |cs|
  {
    cs[i].End() == cs[i + 1].addr
  }

  function Prev(cs: seq<Chunk>, i: nat): nat
    requires i < |cs|
  {
    if i == 0 then 0 else cs[i - 1].addr
  }

  function Next(cs: seq<Chunk>, i: nat): nat
    requires i < |cs|
  {
    if i + 1 < |cs| then cs[i + 1].addr else 0
  }

  function WantedHeader(cs: seq<Chunk>, i: nat): Header
    requires i < |cs|
  {
    Header(Prev(cs, i), Next(cs, i), if cs[i].free then 1 else 0, cs[i].size)
  }

  /** Every header in memory says what the chunk list says; in particular the p and n links
      are inverse to each other. */
  ghost predicate Linked(m: Bytes, cs: seq<Chunk>) {
    forall i {:trigger HeaderOk(m, cs, i)} :: 0 <= i < |cs| ==> HeaderOk(m, cs, i)
  }

  ghost predicate HeaderOk(m: Bytes, cs: seq<Chunk>, i: nat)
    requires i < |cs|
  {
    HeaderAt(m, cs[i].addr) == WantedHeader(cs, i)
  }

  ghost predicate NoFreePair(cs: seq<Chunk>) {
    forall i {:trigger FreePair(cs, i)} :: 0 <= i < |cs| - 1 ==> !FreePair(cs, i)
  }

  ghost predicate FreePair(cs: seq<Chunk>, i: nat)
    requires i + 1 < |cs|
  {
    cs[i].free && cs[i + 1].free
  }

  /** Byte a belongs to the payload of a chunk in use. */
  ghost predicate InUse(cs: seq<Chunk>, a: nat) {
    exists i :: 0 <= i < |cs| && !cs[i].free && cs[i].Payload() <= a < cs[i].End()
  }

  ghost predicate Kept(m: Bytes, m': Bytes, cs: seq<Chunk>) {
    forall a: nat :: InUse(cs, a) ==> At(m', a) == At(m, a)
  }

  /** The chunks in use, as their clients know them. */
  function Used(cs: seq<Chunk>): set<Chunk> {
    set c | c in cs && !c.free
  }

  // ---- Joining and splitting ----

  /** Chunk i swallows chunk i + 1. */
  function Joined(cs: seq<Chunk>, i: nat): seq<Chunk>
    requires i + 1 < |cs|
  {
    cs[..i] + [Chunk(cs[i].addr, cs[i].size + cs[i + 1].size + HEADER, cs[i].free)] + cs[i + 2..]
  }

  /** Chunk i keeps size bytes; the rest becomes a free chunk. */
  function Split(cs: seq<Chunk>, i: nat, size: nat): seq<Chunk>
    requires i < |cs| && size + HEADER < cs[i].size
  {
    cs[..i] + [Chunk(cs[i].addr, size, cs[i].free),
               Chunk(cs[i].addr + HEADER + size, cs[i].size - size - HEADER, true)] + cs[i + 1..]
  }

  /** Where chunk k of a joined list comes from. */
  lemma JoinedAt(cs: seq<Chunk>, i: nat, k: nat)
    requires i + 1 < |cs| && k < |cs| - 1
    ensures |Joined(cs, i)| == |cs| - 1
    ensures k < i ==> Joined(cs, i)[k] == cs[k]
    ensures k == i ==> Joined(cs, i)[k] == Chunk(cs[i].addr, cs[i].size + cs[i + 1].size + HEADER, cs[i].free)
    ensures k > i ==> Joined(cs, i)[k] == cs[k + 1]
  {
  }

  lemma JoinedTiles(cs: seq<Chunk>, i: nat, max: nat)
    requires Tiles(cs, max) && i + 1 < |cs|
    ensures Tiles(Joined(cs, i), max)
  {
    var r := Joined(cs, i);
    assert Adjoins(cs, i) && |r| == |cs| - 1;
    forall j, k | 0 <= j < k < |r|
      ensures r[j].End() <= r[k].addr
    {
      JoinedAt(cs, i, j);
      JoinedAt(cs, i, k);
    }
    forall k | 0 <= k < |r| - 1
      ensures Adjoins(r, k)
    {
      JoinedAt(cs, i, k);
      JoinedAt(cs, i, k + 1);
      assert Adjoins(cs, if k < i then k else k + 1);
    }
    JoinedAt(cs, i, 0);
    JoinedAt(cs, i, |r| - 1);
  }

  /** Where chunk k of a split list comes from. */
  lemma SplitAt(cs: seq<Chunk>, i: nat, size: nat, k: nat)
    requires i < |cs| && size + HEADER < cs[i].size && k <= |cs|
    ensures |Split(cs, i, size)| == |cs| + 1
    ensures k < i ==> Split(cs, i, size)[k] == cs[k]
    ensures k == i ==> Split(cs, i, size)[k] == Chunk(cs[i].addr, size, cs[i].free)
    ensures k == i + 1 ==> Split(cs, i, size)[k] == Chunk(cs[i].addr + HEADER + size, cs[i].size - size - HEADER, true)
    ensures k > i + 1 ==> Split(cs, i, size)[k] == cs[k - 1]
  {
  }

  lemma SplitTiles(cs: seq<Chunk>, i: nat, size: nat, max: nat)
    requires Tiles(cs, max) && i < |cs| && size + HEADER < cs[i].size
    ensures Tiles(Split(cs, i, size), max)
  {
    var r := Split(cs, i, size);
    forall j, k | 0 <= j < k < |r|
      ensures r[j].End() <= r[k].addr
    {
      SplitAt(cs, i, size, j);
      SplitAt(cs, i, size, k);
    }
    forall k | 0 <= k < |r| - 1
      ensures Adjoins(r, k)
    {
      SplitAt(cs, i, size, k);
      SplitAt(cs, i, size, k + 1);
      if k < i {
        assert Adjoins(cs, k);
      } else if k > i {
        assert Adjoins(cs, k - 1);
      }
    }
    SplitAt(cs, i, size, 0);
    SplitAt(cs, i, size, |r| - 1);
  }

  // ---- The stores that join and split ----

  function SetSizeN(m: Bytes, c: nat, size: Word, n: Word): (r: Bytes)
    ensures HeaderAt(r, c) == HeaderAt(m, c).(size := size, n := n) && OnlyHeader(m, r, c)
  {
    SetN(SetSize(m, c, size), c, n)
  }

  /** if (n) n->p = c */
  function PatchPrev(m: Bytes, n: nat, c: Word): Bytes {
    if n != 0 then SetP(m, n, c) else m
  }

  ghost function JoinStores(m: Bytes, cs: seq<Chunk>, i: nat): Bytes
    requires i + 1 < |cs| && cs[|cs| - 1].End() < HEAP_LIMIT && Tiles(cs, cs[|cs| - 1].End())
  {
    var c, n := cs[i].addr, Next(cs, i + 1);
    AddrFits(cs, i);
    AddrFits(cs, i + 1);
    NextFits(cs, i + 1);
    PatchPrev(SetSizeN(m, c, cs[i].size + cs[i + 1].size + HEADER, n), n, c)
  }

  lemma NextFits(cs: seq<Chunk>, i: nat)
    requires i < |cs| && Tiles(cs, cs[|cs| - 1].End())
    ensures Next(cs, i) <= cs[|cs| - 1].End() && (Next(cs, i) != 0 <==> i + 1 < |cs|)
  {
    if i + 1 < |cs| {
      AddrFits(cs, i + 1);
    }
  }

  lemma AddrFits(cs: seq<Chunk>, i: nat)
    requires i < |cs| && Tiles(cs, cs[|cs| - 1].End())
    ensures HEAP_START <= cs[i].addr && cs[i].End() <= cs[|cs| - 1].End()
    ensures i + 1 < |cs| ==> cs[i].End() == cs[i + 1].addr
  {
    if i + 1 < |cs| {
      assert Adjoins(cs, i);
    }
  }

  /** What joining leaves in the header of chunk j, the swallowed one aside. */
  lemma JoinedHeader(m: Bytes, cs: seq<Chunk>, i: nat, j: nat)
    requires i + 1 < |cs| && cs[|cs| - 1].End() < HEAP_LIMIT && Tiles(cs, cs[|cs| - 1].End())
    requires j < |cs| && j != i + 1 && Linked(m, cs)
    ensures HeaderAt(JoinStores(m, cs, i), cs[j].addr) ==
      if j == i then
        Header(Prev(cs, i), Next(cs, i + 1), if cs[i].free then 1 else 0, cs[i].size + cs[i + 1].size + HEADER)
      else if j == i + 2 then WantedHeader(cs, j).(p := cs[i].addr)
      else WantedHeader(cs, j)
  {
    hide HeaderAt, SetP, SetSizeN, OnlyHeader, Tiles;
    var c, n := cs[i].addr, Next(cs, i + 1);
    AddrFits(cs, i);
    AddrFits(cs, i + 1);
    NextFits(cs, i + 1);
    assert HeaderOk(m, cs, j);
    var m1 := SetSizeN(m, c, cs[i].size + cs[i + 1].size + HEADER, n);
    Unrelated(m, m1, cs, i, j);
    if n != 0 {
      Unrelated(m1, SetP(m1, n, c), cs, i + 2, j);
    }
  }

  /** Writing the header of one chunk leaves the others' headers. */
  lemma Unrelated(m: Bytes, r: Bytes, cs: seq<Chunk>, i: nat, j: nat)
    requires i < |cs| && j < |cs| && Tiles(cs, cs[|cs| - 1].End()) && OnlyHeader(m, r, cs[i].addr)
    ensures i != j ==> HeaderAt(r, cs[j].addr) == HeaderAt(m, cs[j].addr)
  {
    assert i < j ==> cs[i].End() <= cs[j].addr;
    assert j < i ==> cs[j].End() <= cs[i].addr;
  }

  lemma JoinLinks(m: Bytes, cs: seq<Chunk>, i: nat)
    requires i + 1 < |cs| && cs[|cs| - 1].End() < HEAP_LIMIT && Tiles(cs, cs[|cs| - 1].End())
    requires Linked(m, cs)
    ensures Linked(JoinStores(m, cs, i), Joined(cs, i))
  {
    hide HeaderAt, SetP, SetN, SetSize, JoinStores, Tiles;
    var r := Joined(cs, i);
    forall k | 0 <= k < |r|
      ensures HeaderOk(JoinStores(m, cs, i), r, k)
    {
      JoinedAt(cs, i, k);
      if k > 0 { JoinedAt(cs, i, k - 1); }
      if k + 1 < |r| { JoinedAt(cs, i, k + 1); }
      JoinedHeader(m, cs, i, if k <= i then k else k + 1);
    }
  }

  lemma WriteKeeps(m: Bytes, r: Bytes, cs: seq<Chunk>, i: nat, c: nat)
    requires i < |cs| && Tiles(cs, cs[|cs| - 1].End()) && OnlyHeader(m, r, c)
    requires cs[i].addr <= c && c + HEADER <= cs[i].End() && (cs[i].free || c == cs[i].addr)
    ensures Kept(m, r, cs) && forall b: nat :: b in m ==> b in r
  {
    forall a: nat | InUse(cs, a)
      ensures At(r, a) == At(m, a)
    {
      var k :| 0 <= k < |cs| && !cs[k].free && cs[k].Payload() <= a < cs[k].End();
    }
  }

  lemma KeptTwice(m: Bytes, m1: Bytes, m2: Bytes, cs: seq<Chunk>)
    requires Kept(m, m1, cs) && Kept(m1, m2, cs)
    ensures Kept(m, m2, cs)
  {
  }

  lemma JoinKeeps(m: Bytes, cs: seq<Chunk>, i: nat)
    requires i + 1 < |cs| && cs[|cs| - 1].End() < HEAP_LIMIT && Tiles(cs, cs[|cs| - 1].End())
    ensures Kept(m, JoinStores(m, cs, i), cs)
    ensures forall b: nat :: b in m ==> b in JoinStores(m, cs, i)
  {
    hide HeaderAt, SetP, SetSizeN, OnlyHeader;
    var c, n := cs[i].addr, Next(cs, i + 1);
    AddrFits(cs, i);
    AddrFits(cs, i + 1);
    NextFits(cs, i + 1);
    var m1 := SetSizeN(m, c, cs[i].size + cs[i + 1].size + HEADER, n);
    WriteKeeps(m, m1, cs, i, c);
    if n != 0 {
      WriteKeeps(m1, SetP(m1, n, c), cs, i + 2, n);
      KeptTwice(m, m1, SetP(m1, n, c), cs);
    }
  }

  /** The bytes from lo to hi are those they were. */
  ghost predicate SameRange(m: Bytes, r: Bytes, lo: nat, hi: nat) {
    forall a: nat :: lo <= a < hi ==> At(r, a) == At(m, a)
  }

  /** Writing the header of one chunk leaves every chunk's payload, free or not. */
  lemma HeaderKeepsPayload(m: Bytes, r: Bytes, cs: seq<Chunk>, i: nat, k: nat)
    requires i < |cs| && k < |cs| && Tiles(cs, cs[|cs| - 1].End()) && OnlyHeader(m, r, cs[i].addr)
    ensures SameRange(m, r, cs[k].Payload(), cs[k].End())
  {
    assert i < k ==> cs[i].End() <= cs[k].addr;
    assert k < i ==> cs[k].End() <= cs[i].addr;
  }

  /** So does a merge: the stores of joining stay inside headers. */
  lemma JoinKeepsPayload(m: Bytes, cs: seq<Chunk>, i: nat, k: nat)
    requires i + 1 < |cs| && cs[|cs| - 1].End() < HEAP_LIMIT && Tiles(cs, cs[|cs| - 1].End()) && k < |cs|
    ensures SameRange(m, JoinStores(m, cs, i), cs[k].Payload(), cs[k].End())
  {
    hide HeaderAt, SetP, SetSizeN, OnlyHeader, Tiles;
    var c, n := cs[i].addr, Next(cs, i + 1);
    AddrFits(cs, i);
    AddrFits(cs, i + 1);
    NextFits(cs, i + 1);
    var m1 := SetSizeN(m, c, cs[i].size + cs[i + 1].size + HEADER, n);
    HeaderKeepsPayload(m, m1, cs, i, k);
    if n != 0 {
      HeaderKeepsPayload(m1, SetP(m1, n, c), cs, i + 2, k);
    }
  }

  /** The three stores that make a free chunk at c: its size, its flags, its successor. */
  function NewFree(m: Bytes, c: nat, size: Word, n: Word): (r: Bytes)
    ensures HeaderAt(r, c) == HeaderAt(m, c).(size := size, flags := 1, n := n) && OnlyHeader(m, r, c)
  {
    SetN(SetFlags(SetSize(m, c, size), c, 1), c, n)
  }

  ghost function SplitStores(m: Bytes, cs: seq<Chunk>, i: nat, size: nat): Bytes
    requires i < |cs| && size + HEADER < cs[i].size
    requires cs[|cs| - 1].End() < HEAP_LIMIT && Tiles(cs, cs[|cs| - 1].End())
  {
    SplitFits(cs, i, size);
    SplitWrites(m, cs[i].addr, cs[i].addr + HEADER + size, size, cs[i].size - size - HEADER, Next(cs, i))
  }

  /** The stores of a split, in order: chunk c2 made behind c and linked in, c shortened. */
  function SplitWrites(m: Bytes, c: Word, c2: Word, size: Word, rest: Word, n: Word): Bytes {
    SetSize(SetP(SetN(PatchPrev(NewFree(m, c2, rest, n), n, c2), c, c2), c2, c), c, size)
  }

  lemma SplitFits(cs: seq<Chunk>, i: nat, size: nat)
    requires i < |cs| && size + HEADER < cs[i].size
    requires cs[|cs| - 1].End() < HEAP_LIMIT && Tiles(cs, cs[|cs| - 1].End())
    ensures cs[i].End() < HEAP_LIMIT && Next(cs, i) < HEAP_LIMIT && size < HEAP_LIMIT
  {
    AddrFits(cs, i);
    NextFits(cs, i);
  }

  /** What splitting leaves in the header of an old chunk, and in the new one. */
  lemma SplitHeader(m: Bytes, cs: seq<Chunk>, i: nat, size: nat, j: nat)
    requires i < |cs| && size + HEADER < cs[i].size && j < |cs|
    requires cs[|cs| - 1].End() < HEAP_LIMIT && Tiles(cs, cs[|cs| - 1].End()) && Linked(m, cs)
    ensures HeaderAt(SplitStores(m, cs, i, size), cs[j].addr) ==
      if j == i then WantedHeader(cs, j).(n := cs[i].addr + HEADER + size, size := size)
      else if j == i + 1 then WantedHeader(cs, j).(p := cs[i].addr + HEADER + size)
      else WantedHeader(cs, j)
    ensures HeaderAt(SplitStores(m, cs, i, size), cs[i].addr + HEADER + size)
      == Header(cs[i].addr, Next(cs, i), 1, cs[i].size - size - HEADER)
  {
    hide HeaderAt, SetP, SetN, SetSize, NewFree, Tiles;
    var c, n := cs[i].addr, Next(cs, i);
    AddrFits(cs, i);
    NextFits(cs, i);
    var c2, d := c + HEADER + size, cs[j].addr;
    assert HeaderOk(m, cs, j);
    Apart(cs, i, j);
    if i + 1 < |cs| { Apart(cs, i + 1, j); Apart(cs, i, i + 1); }
    var m1 := NewFree(m, c2, cs[i].size - size - HEADER, n);
    assert HeaderAt(m1, d) == HeaderAt(m, d);
    var m2 := PatchPrev(m1, n, c2);
    assert HeaderAt(m2, c2) == HeaderAt(m1, c2);
  }

  lemma Apart(cs: seq<Chunk>, i: nat, j: nat)
    requires i < |cs| && j < |cs| && Tiles(cs, cs[|cs| - 1].End())
    ensures i < j ==> cs[i].End() <= cs[j].addr
    ensures j < i ==> cs[j].End() <= cs[i].addr
  {
  }

  lemma SplitLinks(m: Bytes, cs: seq<Chunk>, i: nat, size: nat)
    requires i < |cs| && size + HEADER < cs[i].size
    requires cs[|cs| - 1].End() < HEAP_LIMIT && Tiles(cs, cs[|cs| - 1].End()) && Linked(m, cs)
    ensures Linked(SplitStores(m, cs, i, size), Split(cs, i, size))
  {
    hide HeaderAt, SetP, SetN, SetSize, SplitStores, Tiles;
    var r := Split(cs, i, size);
    forall k | 0 <= k < |r|
      ensures HeaderOk(SplitStores(m, cs, i, size), r, k)
    {
      SplitAt(cs, i, size, k);
      if k > 0 { SplitAt(cs, i, size, k - 1); }
      if k + 1 < |r| { SplitAt(cs, i, size, k + 1); }
      SplitHeader(m, cs, i, size, if k <= i then k else k - 1);
    }
  }

  lemma SplitKeeps(m: Bytes, cs: seq<Chunk>, i: nat, size: nat)
    requires i < |cs| && size + HEADER < cs[i].size && cs[i].free
    requires cs[|cs| - 1].End() < HEAP_LIMIT && Tiles(cs, cs[|cs| - 1].End())
    ensures Kept(m, SplitStores(m, cs, i, size), cs)
    ensures forall b: nat :: b in m ==> b in SplitStores(m, cs, i, size)
  {
    hide HeaderAt, SetP, SetN, SetSize, NewFree, OnlyHeader, Tiles;
    var c, n := cs[i].addr, Next(cs, i);
    AddrFits(cs, i);
    NextFits(cs, i);
    var c2 := c + HEADER + size;
    var m1 := NewFree(m, c2, cs[i].size - size - HEADER, n);
    WriteKeeps(m, m1, cs, i, c2);
    var m2 := PatchPrev(m1, n, c2);
    if n != 0 {
      AddrFits(cs, i + 1);
      WriteKeeps(m1, m2, cs, i + 1, n);
    }
    var m3 := SetN(m2, c, c2);
    WriteKeeps(m2, m3, cs, i, c);
    var m4 := SetP(m3, c2, c);
    WriteKeeps(m3, m4, cs, i, c2);
    WriteKeeps(m4, SetSize(m4, c, size), cs, i, c);
  }

  // ---- What the heap's operations do to the chunk list ----

  /** The chunk is free and large enough. */
  predicate Fit(c: Chunk, size: nat) { c.free && c.size >= size }

  /** No chunk among the first k fits. */
  ghost predicate NoneFits(cs: seq<Chunk>, k: nat, size: nat) {
    forall i :: 0 <= i < |cs| && i < k ==> !Fit(cs[i], size)
  }

  ghost predicate SomeFits(cs: seq<Chunk>, size: nat) { !NoneFits(cs, |cs|, size) }

  /** Handing out chunk i, split where the rest is worth a header. */
  function Taken(cs: seq<Chunk>, i: nat, size: nat): (r: seq<Chunk>)
    requires i < |cs|
    ensures i < |r|
  {
    Marked(Shrunk(cs, i, size), i, false)
  }

  function Shrunk(cs: seq<Chunk>, i: nat, size: nat): (s: seq<Chunk>)
    requires i < |cs|
    ensures i < |s|
  {
    if cs[i].size <= size + HEADER then cs else Split(cs, i, size)
  }

  /** Marking chunk i, nothing else. */
  function Marked(cs: seq<Chunk>, i: nat, free: bool): seq<Chunk>
    requires i < |cs|
  {
    cs[i := cs[i].(free := free)]
  }

  /** Joining chunk i with a free successor, then with a free predecessor. */
  function Merged(cs: seq<Chunk>, i: nat): seq<Chunk>
    requires i < |cs|
  {
    var s := if i + 1 < |cs| && cs[i + 1].free then Joined(cs, i) else cs;
    if i > 0 && s[i - 1].free then Joined(s, i - 1) else s
  }

  /** After merging the only chunk that may have had a free neighbour, none has. */
  lemma MergedHasNoPair(cs: seq<Chunk>, i: nat)
    requires i < |cs| && cs[i].free
    requires NoFreePair(Marked(cs, i, false))
    ensures NoFreePair(Merged(cs, i))
  {
    var was, r := Marked(cs, i, false), Merged(cs, i);
    var s := if i + 1 < |cs| && cs[i + 1].free then Joined(cs, i) else cs;
    forall k | 0 <= k < |was| - 1 && k != i && k + 1 != i
      ensures !(cs[k].free && cs[k + 1].free)
    {
      assert !FreePair(was, k);
    }
    forall k | 0 <= k < |r| - 1
      ensures !FreePair(r, k)
    {
    }
  }

  lemma MergedUses(cs: seq<Chunk>, i: nat)
    requires i < |cs| && cs[i].free
    ensures Used(Merged(cs, i)) == Used(cs)
  {
    var s := if i + 1 < |cs| && cs[i + 1].free then Joined(cs, i) else cs;
    if i + 1 < |cs| && cs[i + 1].free {
      JoinedUses(cs, i);
    }
    if i > 0 && s[i - 1].free {
      JoinedUses(s, i - 1);
    }
  }

  lemma JoinedUses(cs: seq<Chunk>, i: nat)
    requires i + 1 < |cs| && cs[i].free && cs[i + 1].free
    ensures Used(Joined(cs, i)) == Used(cs)
  {
    var r := Joined(cs, i);
    forall c | c in cs && !c.free
      ensures c in r
    {
      var k :| 0 <= k < |cs| && cs[k] == c;
      assert r[if k < i then k else k - 1] == c;
    }
  }

  lemma TakenHasNoPair(cs: seq<Chunk>, i: nat, size: nat)
    requires i < |cs| && cs[i].free && NoFreePair(Marked(cs, i, false))
    requires NoFreePair(cs) || cs[i].size <= size + HEADER
    ensures NoFreePair(Taken(cs, i, size))
  {
    var was, r := Marked(cs, i, false), Taken(cs, i, size);
    forall k | 0 <= k < |r| - 1
      ensures !FreePair(r, k)
    {
      if k < i {
        assert !FreePair(was, k);
      } else if cs[i].size <= size + HEADER {
        assert !FreePair(was, k);
      } else if k > i {
        assert !FreePair(cs, k - 1);
      }
    }
  }

  lemma TakenUses(cs: seq<Chunk>, i: nat, size: nat)
    requires i < |cs| && cs[i].free
    ensures Used(Taken(cs, i, size)) == Used(cs) + {Taken(cs, i, size)[i]}
  {
    var r := Taken(cs, i, size);
    forall c | c in cs && !c.free
      ensures c in r
    {
      var k :| 0 <= k < |cs| && cs[k] == c;
      assert r[if k < i || cs[i].size <= size + HEADER then k else k + 1] == c;
    }
  }
}
