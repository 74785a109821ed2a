/** Whole histories of the kernel heap: clients take blocks, write into them and give them
    back, in any order, knowing only the addresses and the sizes they asked for. */
module HeapClients {
  import opened ByteMemory
  import opened HeapAllocator
  import opened KernelHeap
  import opened PhysicalMemory

  /** What a client does. */
  datatype Op = Malloc(size: Word) | Free(a: nat) | Store(a: nat, k: nat, b: Byte)

  /** What happened: a new block comes with whatever bytes are in it. */
  datatype Event = Got(a: nat, bytes: seq<Byte>) | Freed(a: nat) | Stored(a: nat, k: nat, b: Byte)

  type Blocks = map<nat, seq<Byte>>

  function Put(bytes: seq<Byte>, k: nat, b: Byte): seq<Byte> {
    if k < |bytes| then bytes[..k] + [b] + bytes[k + 1..] else bytes
  }

  /** What the clients believe their blocks to hold. */
  function Replay(es: seq<Event>): Blocks
    decreases |es|
  {
    if es == [] then map[] else After(Replay(es[..|es| - 1]), es[|es| - 1])
  }

  function After(r: Blocks, e: Event): Blocks {
    match e
    case Got(a, bytes) => r[a := bytes]
    case Freed(a) => r - {a}
    case Stored(a, k, b) => if a in r then r[a := Put(r[a], k, b)] else r
  }

  /** Chunk c is in use and holds bytes at address a. */
  ghost predicate Contains(m: Bytes, cs: seq<Chunk>, c: Chunk, a: nat, bytes: seq<Byte>) {
    && c in Used(cs) && c.Payload() == a && |bytes| <= c.size
    && forall k: nat :: k < |bytes| ==> At(m, a + k) == bytes[k]
  }

  ghost predicate Block(m: Bytes, cs: seq<Chunk>, a: nat, bytes: seq<Byte>) {
    exists c :: Contains(m, cs, c, a, bytes)
  }

  /** The blocks in use are those, and hold those bytes. */
  ghost predicate Holds(m: Bytes, cs: seq<Chunk>, r: Blocks) {
    && (forall a :: a in r ==> Block(m, cs, a, r[a]))
    && (forall c :: c in Used(cs) ==> c.Payload() in r)
  }

  ghost function Read(m: Bytes, a: nat, n: nat): (r: seq<Byte>)
    ensures |r| == n && forall k: nat :: k < n ==> r[k] == At(m, a + k)
  {
    seq<Byte>(n, k requires 0 <= k => At(m, a + k))
  }

  lemma UsedIsInUse(cs: seq<Chunk>, c: Chunk, k: nat)
    requires c in Used(cs) && k < c.size
    ensures InUse(cs, c.Payload() + k)
  {
    var i :| 0 <= i < |cs| && cs[i] == c;
  }

  lemma StillBlock(m: Bytes, m': Bytes, cs: seq<Chunk>, cs': seq<Chunk>, kept: seq<Chunk>, c: Chunk, a: nat,
                   bytes: seq<Byte>)
    requires Kept(m, m', kept) && c in Used(kept) && c in Used(cs') && Contains(m, cs, c, a, bytes)
    ensures Block(m', cs', a, bytes)
  {
    forall k: nat | k < |bytes|
      ensures At(m', a + k) == bytes[k]
    {
      UsedIsInUse(kept, c, k);
    }
    assert Contains(m', cs', c, a, bytes);
  }

  /** Two blocks in use have different addresses. */
  lemma SameAddress(cs: seq<Chunk>, max: nat, c: Chunk, d: Chunk)
    requires Tiles(cs, max) && c in Used(cs) && d in Used(cs) && c.Payload() == d.Payload()
    ensures c == d
  {
    ChunksAreDisjoint(cs, max, c, d);
  }

  lemma MallocFacts(m: Bytes, cs: seq<Chunk>, r: Blocks, m': Bytes, cs': seq<Chunk>, max: nat, got: Chunk, size: nat)
    requires Holds(m, cs, r) && Kept(m, m', cs) && Used(cs') == Used(cs) + {got} && Tiles(cs', max)
    requires got !in Used(cs) && size <= got.size
    ensures got.Payload() !in r
    ensures Holds(m', cs', r[got.Payload() := Read(m', got.Payload(), size)])
  {
    var p := got.Payload();
    var bytes := Read(m', p, size);
    forall a | a in r
      ensures a != p && Block(m', cs', a, r[a])
    {
      var c :| Contains(m, cs, c, a, r[a]);
      StillBlock(m, m', cs, cs', cs, c, a, r[a]);
      if a == p {
        SameAddress(cs', max, c, got);
      }
    }
    assert Contains(m', cs', got, p, bytes);
  }

  lemma FreeFacts(m: Bytes, cs: seq<Chunk>, r: Blocks, m': Bytes, cs': seq<Chunk>, max: nat, c: Chunk)
    requires Holds(m, cs, r) && Kept(m, m', cs') && Used(cs') == Used(cs) - {c} && Tiles(cs, max) && c in Used(cs)
    ensures Holds(m', cs', r - {c.Payload()})
  {
    forall a | a in r && a != c.Payload()
      ensures Block(m', cs', a, r[a])
    {
      var d :| Contains(m, cs, d, a, r[a]);
      StillBlock(m, m', cs, cs', cs', d, a, r[a]);
    }
    forall d | d in Used(cs')
      ensures d.Payload() in r - {c.Payload()}
    {
      if d.Payload() == c.Payload() {
        SameAddress(cs, max, d, c);
      }
    }
  }

  /** A client writing into its own block changes no header ... */
  lemma StoreKeepsHeap(m: Bytes, heap: nat, max: nat, brk: nat, cs: seq<Chunk>, c: Chunk, a: nat, b: Byte)
    requires IsHeap(m, heap, max, brk, cs) && c in Used(cs) && c.Payload() <= a < c.End()
    ensures IsHeap(m[a := b], heap, max, brk, cs)
  {
    var m' := m[a := b];
    forall i | 0 <= i < |cs|
      ensures HeaderOk(m', cs, i)
    {
      assert HeaderOk(m, cs, i);
      ChunksAreDisjoint(cs, max, cs[i], c);
      HeaderSame(m, m', cs[i].addr);
    }
  }

  /** ... and no other block. */
  lemma StoreFacts(m: Bytes, heap: nat, max: nat, brk: nat, cs: seq<Chunk>, a: nat, k: nat, b: Byte, r: Blocks)
    requires IsHeap(m, heap, max, brk, cs) && Holds(m, cs, r) && a in r && k < |r[a]|
    ensures IsHeap(m[a + k := b], heap, max, brk, cs)
    ensures Holds(m[a + k := b], cs, r[a := Put(r[a], k, b)])
  {
    hide IsHeap, Tiles, Used;
    HeapTiles(m, heap, max, brk, cs);
    var m', r' := m[a + k := b], r[a := Put(r[a], k, b)];
    var c :| Contains(m, cs, c, a, r[a]);
    StoreKeepsHeap(m, heap, max, brk, cs, c, a + k, b);
    assert Contains(m', cs, c, a, r'[a]);
    forall x | x in r && x != a
      ensures Block(m', cs, x, r[x])
    {
      var d :| Contains(m, cs, d, x, r[x]);
      UsedIsThere(cs, c);
      UsedIsThere(cs, d);
      ChunksAreDisjoint(cs, max, d, c);
      assert Contains(m', cs, d, x, r[x]);
    }
  }

  lemma UsedIsThere(cs: seq<Chunk>, c: Chunk)
    requires c in Used(cs)
    ensures c in cs
  {
  }

  ghost predicate Sizes(sizes: map<nat, nat>, r: Blocks) {
    sizes.Keys == r.Keys && forall a :: a in r ==> |r[a]| == sizes[a]
  }

  lemma ReplayNext(es: seq<Event>, e: Event)
    ensures Replay(es + [e]) == After(Replay(es), e)
  {
    assert (es + [e])[..|es|] == es;
  }

  /** What a request adds to the history, given the blocks there are. A request for memory is
      answered with a new block, and may be refused only when there is no room. */
  ghost predicate Answers(op: Op, r: Blocks, room: bool, more: seq<Event>) {
    match op
    case Malloc(size) =>
      if more == [] then !room else |more| == 1 && more[0].Got? && more[0].a !in r && |more[0].bytes| == size
    case Free(a) => more == if a in r then [Freed(a)] else []
    case Store(a, k, b) => more == if a in r && k < |r[a]| then [Stored(a, k, b)] else []
  }

  /** All the memory ever asked for, headers included. */
  function Demand(ops: seq<Op>): nat
    decreases |ops|
  {
    if ops == [] then 0 else
      Demand(ops[..|ops| - 1]) + if ops[|ops| - 1].Malloc? then HEADER + ops[|ops| - 1].size else 0
  }

  /** That much fits between the start of the heap and the end of the address space. */
  predicate Room(ops: seq<Op>) { HEAP_START + Demand(ops) + PAGE <= HEAP_LIMIT }

  /** es is a history of the requests ops. */
  ghost predicate History(ops: seq<Op>, es: seq<Event>)
    decreases |ops|
  {
    if ops == [] then es == [] else exists n: nat {:trigger es[..n]} ::
      && n <= |es| && History(ops[..|ops| - 1], es[..n])
      && Answers(ops[|ops| - 1], Replay(es[..n]), Room(ops), es[n..])
  }

  lemma HistoryNext(ops: seq<Op>, i: nat, es: seq<Event>, es': seq<Event>)
    requires i < |ops| && History(ops[..i], es) && es <= es'
    requires Answers(ops[i], Replay(es), Room(ops[..i + 1]), es'[|es|..])
    ensures History(ops[..i + 1], es')
  {
    assert ops[..i + 1][..i] == ops[..i];
    assert es'[..|es|] == es;
  }

  /** As long as all the memory asked for fits, every request for some was answered: the
      history has as many new blocks as there were requests. */
  lemma {:induction false} NothingRefused(ops: seq<Op>, es: seq<Event>)
    requires History(ops, es) && Room(ops)
    ensures Gots(es) == Mallocs(ops)
    decreases |ops|
  {
    hide History, Replay;
    if ops == [] {
      NoHistory(es);
    } else {
      var last := |ops| - 1;
      var n := HistoryLast(ops, es);
      NothingRefused(ops[..last], es[..n]);
      if n < |es| {
        assert |es[n..]| == 1 && es[n..][0] == es[n] && es[..|es| - 1] == es[..n];
      } else {
        assert es[..n] == es;
      }
    }
  }

  lemma NoHistory(es: seq<Event>)
    requires History([], es)
    ensures es == []
  {
  }

  lemma HistoryLast(ops: seq<Op>, es: seq<Event>) returns (n: nat)
    requires History(ops, es) && ops != []
    ensures n <= |es| && History(ops[..|ops| - 1], es[..n])
    ensures Answers(ops[|ops| - 1], Replay(es[..n]), Room(ops), es[n..])
  {
    n :| n <= |es| && History(ops[..|ops| - 1], es[..n])
         && Answers(ops[|ops| - 1], Replay(es[..n]), Room(ops), es[n..]);
  }

  function Gots(es: seq<Event>): nat
    decreases |es|
  {
    if es == [] then 0 else Gots(es[..|es| - 1]) + if es[|es| - 1].Got? then 1 else 0
  }

  function Mallocs(ops: seq<Op>): nat
    decreases |ops|
  {
    if ops == [] then 0 else Mallocs(ops[..|ops| - 1]) + if ops[|ops| - 1].Malloc? then 1 else 0
  }

  /** One request. A client asks only for what fits below the end of memory, and frees and
      writes only what it owns; anything else is ignored. */
  method Serve(h: Heap, op: Op, sizes: map<nat, nat>, ghost es: seq<Event>)
      returns (sizes': map<nat, nat>, ghost es': seq<Event>)
    requires h.Valid() && Holds(h.mem, h.cs, Replay(es)) && Sizes(sizes, Replay(es))
    modifies h
    ensures h.Valid() && Holds(h.mem, h.cs, Replay(es')) && Sizes(sizes', Replay(es'))
    ensures es <= es'
    ensures Answers(op, Replay(es), op.Malloc? && old(h.heapMax) + HEADER + op.size + PAGE <= HEAP_LIMIT, es'[|es|..])
    ensures h.heapMax <= old(h.heapMax) + if op.Malloc? then HEADER + op.size else 0
  {
    hide IsHeap, Tiles, NoFreePair, Kept, Used, Replay, Holds;
    sizes', es' := sizes, es;
    ghost var m0, cs0, r := h.mem, h.cs, Replay(es);
    HeapTiles(h.mem, h.heap, h.heapMax, h.brk, h.cs);
    match op
    case Malloc(size) =>
      if h.heapMax + HEADER + size + PAGE <= HEAP_LIMIT {
        var p;
        ghost var got;
        p, got := h.Kmalloc(size);
        HeapTiles(h.mem, h.heap, h.heapMax, h.brk, h.cs);
        MallocFacts(m0, cs0, r, h.mem, h.cs, h.heapMax, got, size);
        es' := es + [Got(p, Read(h.mem, p, size))];
        ReplayNext(es, Got(p, Read(h.mem, p, size)));
        sizes' := sizes[p := size];
      }
    case Free(a) =>
      if a in sizes {
        ghost var c := Owner(h.mem, h.cs, h.heapMax, r, a);
        var panicked := h.Kfree(a, c);
        FreeFacts(m0, cs0, r, h.mem, h.cs, h.heapMax, c);
        es' := es + [Freed(a)];
        ReplayNext(es, Freed(a));
        sizes' := sizes - {a};
      }
    case Store(a, k, b) =>
      if a in sizes && k < sizes[a] {
        StoreFacts(h.mem, h.heap, h.heapMax, h.brk, h.cs, a, k, b, r);
        h.mem := h.mem[a + k := b];
        es' := es + [Stored(a, k, b)];
        ReplayNext(es, Stored(a, k, b));
      }
  }

  lemma Owner(m: Bytes, cs: seq<Chunk>, max: nat, r: Blocks, a: nat) returns (c: Chunk)
    requires Holds(m, cs, r) && a in r && Tiles(cs, max)
    ensures c in Used(cs) && c.Payload() == a && HEAP_START <= a <= max
  {
    c :| Contains(m, cs, c, a, r[a]);
    ChunksAreDisjoint(cs, max, c, c);
  }

  /** From an empty heap through any requests: every block handed out and not yet freed holds
      exactly what its owner last stored in it. */
  method Run(h: Heap, ops: seq<Op>) returns (ghost es: seq<Event>)
    requires h.Valid() && h.cs == []
    modifies h
    ensures h.Valid() && Holds(h.mem, h.cs, Replay(es)) && History(ops, es)
    ensures Room(ops) ==> Gots(es) == Mallocs(ops)
  {
    hide Holds, IsHeap, NoFreePair, Replay, History, Answers;
    HoldsNothing(h.mem);
    StartsEmpty(h);
    var sizes: map<nat, nat> := map[];
    es := [];
    var i := 0;
    while i < |ops|
      invariant i <= |ops| && h.Valid() && Holds(h.mem, h.cs, Replay(es)) && Sizes(sizes, Replay(es))
      invariant History(ops[..i], es) && h.heapMax <= HEAP_START + Demand(ops[..i])
    {
      ghost var was, max := es, h.heapMax;
      sizes, es := Serve(h, ops[i], sizes, es);
      assert ops[..i + 1][..i] == ops[..i];
      AnswersWithLess(ops[i], Replay(was), max, ops[..i + 1], es[|was|..]);
      HistoryNext(ops, i, was, es);
      i := i + 1;
    }
    assert ops[..|ops|] == ops;
    if Room(ops) {
      NothingRefused(ops, es);
    }
  }

  lemma AnswersWithLess(op: Op, r: Blocks, max: nat, ops: seq<Op>, more: seq<Event>)
    requires ops != [] && ops[|ops| - 1] == op && max <= HEAP_START + Demand(ops[..|ops| - 1])
    requires Answers(op, r, op.Malloc? && max + HEADER + op.size + PAGE <= HEAP_LIMIT, more)
    ensures Answers(op, r, Room(ops), more)
  {
  }

  lemma StartsEmpty(h: Heap)
    requires h.Valid() && h.cs == []
    ensures h.heapMax == HEAP_START && Replay([]) == map[] && History([], [])
  {
  }

  lemma HoldsNothing(m: Bytes)
    ensures Holds(m, [], map[])
  {
  }
}
