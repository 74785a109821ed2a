/** vmm_p4_memcpy and vmm_p4_memset (kernel/mem/vmm.c) over memcpy and memset
    (kernel/mem/string.c): page-splitting loops that amount to flat byte operations. */
module PageCopy {
  import opened PhysicalMemory
  import opened FrameAllocator
  import opened PageTables
  import opened TableTeardown

  // ---- memcpy and memset inside a page ----

  function CopyBytes(d: Page, doff: nat, s: Page, soff: nat, n: nat): (r: Page)
    requires doff + n <= PAGE_SIZE && soff + n <= PAGE_SIZE
    ensures forall o :: 0 <= o < PAGE_SIZE ==>
      ByteAt(r, o) == if doff <= o < doff + n then ByteAt(s, soff + (o - doff)) else ByteAt(d, o)
  {
    if n == 0 then d
    else SetByte(CopyBytes(d, doff, s, soff, n - 1), doff + n - 1, ByteAt(s, soff + n - 1))
  }

  function FillBytes(d: Page, off: nat, c: Byte, n: nat): (r: Page)
    requires off + n <= PAGE_SIZE
    ensures forall o :: 0 <= o < PAGE_SIZE ==> ByteAt(r, o) == if off <= o < off + n then c else ByteAt(d, o)
  {
    if n == 0 then d else SetByte(FillBytes(d, off, c, n - 1), off + n - 1, c)
  }

  lemma CopyOne(d: Page, doff: nat, s: Page, soff: nat, k: nat, i: nat, j: nat)
    requires i == doff + k < PAGE_SIZE && j == soff + k < PAGE_SIZE
    ensures CopyBytes(d, doff, s, soff, k + 1) == SetByte(CopyBytes(d, doff, s, soff, k), i, ByteAt(s, j))
  {
  }

  method Memcpy(mc: Machine, df: Frame, doff: nat, sf: Frame, soff: nat, n: nat)
    requires df < |mc.mem| && sf < |mc.mem| && df != sf
    requires doff + n <= PAGE_SIZE && soff + n <= PAGE_SIZE
    modifies mc`mem
    ensures mc.mem == old(mc.mem)[df := CopyBytes(old(mc.mem)[df], doff, old(mc.mem)[sf], soff, n)]
  {
    ghost var m0, d, s := mc.mem, mc.mem[df], mc.mem[sf];
    var k := 0;
    while k < n
      invariant k <= n && mc.mem == m0[df := CopyBytes(d, doff, s, soff, k)]
    {
      hide CopyBytes, SetByte, ByteAt;
      var i, j := doff + k, soff + k;
      CopyOne(d, doff, s, soff, k, i, j);
      var b := ByteAt(mc.mem[sf], j);
      mc.mem := mc.mem[df := SetByte(mc.mem[df], i, b)];
      k := k + 1;
    }
  }

  method Memset(mc: Machine, f: Frame, off: nat, c: Byte, n: nat)
    requires f < |mc.mem| && off + n <= PAGE_SIZE
    modifies mc`mem
    ensures mc.mem == old(mc.mem)[f := FillBytes(old(mc.mem)[f], off, c, n)]
  {
    var k := 0;
    while k < n
      invariant k <= n
      invariant mc.mem == old(mc.mem)[f := FillBytes(old(mc.mem)[f], off, c, k)]
    {
      mc.mem := mc.mem[f := SetByte(mc.mem[f], off + k, c)];
      k := k + 1;
    }
  }

  // ---- Bytes seen through a translation ----

  /** Pages with the frames they translate to. */
  type View = map<nat, Frame>

  ghost predicate ViewOk(m: Mem, d: View) {
    forall v :: v in d ==> 0 < d[v] < |m|
  }

  ghost predicate Injective(d: View) {
    forall v, w :: v in d && w in d && d[v] == d[w] ==> v == w
  }

  /** The byte at address a, 0 where nothing is mapped. */
  ghost function VByte(m: Mem, d: View, a: nat): Byte {
    if PageOf(a) in d && d[PageOf(a)] < |m| then ByteAt(m[d[PageOf(a)]], OffsetOf(a)) else 0
  }

  ghost predicate Covers(d: View, a: nat, n: nat) {
    forall x: nat :: a <= x < a + n ==> PageOf(x) in d
  }

  ghost function ReadBytes(m: Mem, d: View, a: nat, n: nat): (r: seq<Byte>)
    ensures |r| == n
    ensures forall k: nat :: k < n ==> r[k] == VByte(m, d, a + k)
  {
    if n == 0 then [] else ReadBytes(m, d, a, n - 1) + [VByte(m, d, a + (n - 1))]
  }

  /** m' differs from m in pages of d only. */
  ghost predicate DataOnly(m: Mem, m': Mem, d: View) {
    && |m'| == |m|
    && (forall f: Frame :: f < |m| && f !in d.Values ==> m'[f] == m[f])
  }

  /** Through d, m' shows `bytes` from address a on, and elsewhere what m shows. */
  ghost predicate Overlaid(m: Mem, m': Mem, d: View, a: nat, bytes: seq<Byte>) {
    forall x: nat :: PageOf(x) in d ==>
      VByte(m', d, x) == if a <= x < a + |bytes| then bytes[x - a] else VByte(m, d, x)
  }

  /** Page d, patched to hold `bytes` at offset off. */
  ghost predicate Patched(d: Page, r: Page, off: nat, bytes: seq<Byte>) {
    && off + |bytes| <= PAGE_SIZE
    && (forall o :: 0 <= o < PAGE_SIZE ==>
          ByteAt(r, o) == if off <= o < off + |bytes| then bytes[o - off] else ByteAt(d, o))
  }

  lemma PatchedByte(d: Page, r: Page, a: nat, bytes: seq<Byte>, x: nat)
    requires Patched(d, r, OffsetOf(a), bytes)
    ensures a <= x < a + |bytes| ==> PageOf(x) == PageOf(a) && ByteAt(r, OffsetOf(x)) == bytes[x - a]
    ensures PageOf(x) == PageOf(a) && !(a <= x < a + |bytes|) ==> ByteAt(r, OffsetOf(x)) == ByteAt(d, OffsetOf(x))
  {
    if a <= x < a + |bytes| {
      SamePage(a, x - a);
    }
  }

  lemma PatchPage(m: Mem, d: View, a: nat, r: Page, bytes: seq<Byte>)
    requires ViewOk(m, d) && Injective(d) && PageOf(a) in d
    requires Patched(m[d[PageOf(a)]], r, OffsetOf(a), bytes)
    ensures DataOnly(m, m[d[PageOf(a)] := r], d)
    ensures Overlaid(m, m[d[PageOf(a)] := r], d, a, bytes)
  {
    var m' := m[d[PageOf(a)] := r];
    assert d[PageOf(a)] in d.Values;
    forall x: nat | PageOf(x) in d
      ensures VByte(m', d, x) == if a <= x < a + |bytes| then bytes[x - a] else VByte(m, d, x)
    {
      PatchedByte(m[d[PageOf(a)]], r, a, bytes, x);
    }
  }

  lemma OverlaidMore(m0: Mem, m: Mem, m': Mem, d: View, a: nat, bytes: seq<Byte>, b: nat, more: seq<Byte>)
    requires b == a + |bytes|
    requires Overlaid(m0, m, d, a, bytes) && Overlaid(m, m', d, b, more)
    ensures Overlaid(m0, m', d, a, bytes + more)
  {
    forall x: nat | PageOf(x) in d
      ensures VByte(m', d, x) == if a <= x < a + |bytes + more| then (bytes + more)[x - a] else VByte(m0, d, x)
    {
    }
  }

  lemma ReadBytesSplit(m: Mem, d: View, a: nat, n: nat, b: nat, k: nat, j: nat)
    requires b == a + n && j == n + k
    ensures ReadBytes(m, d, a, n) + ReadBytes(m, d, b, k) == ReadBytes(m, d, a, j)
  {
    var whole := ReadBytes(m, d, a, j);
    var parts := ReadBytes(m, d, a, n) + ReadBytes(m, d, b, k);
    forall i: nat | i < j
      ensures parts[i] == whole[i]
    {
      if i >= n {
        assert b + (i - n) == a + i;
      }
    }
  }

  lemma PageRange(m: Mem, d: View, a: nat, n: nat)
    requires ViewOk(m, d) && PageOf(a) in d && OffsetOf(a) + n <= PAGE_SIZE
    ensures Covers(d, a, n)
    ensures forall k: nat :: k < n ==> ReadBytes(m, d, a, n)[k] == ByteAt(m[d[PageOf(a)]], OffsetOf(a) + k)
  {
    forall x: nat | a <= x < a + n
      ensures PageOf(x) in d
    {
      SamePage(a, x - a);
    }
    forall k: nat | k < n
      ensures ReadBytes(m, d, a, n)[k] == ByteAt(m[d[PageOf(a)]], OffsetOf(a) + k)
    {
      SamePage(a, k);
    }
  }

  lemma CopyIsPatch(d: Page, doff: nat, s: Page, soff: nat, bytes: seq<Byte>)
    requires doff + |bytes| <= PAGE_SIZE && soff + |bytes| <= PAGE_SIZE
    requires forall k: nat :: k < |bytes| ==> bytes[k] == ByteAt(s, soff + k)
    ensures Patched(d, CopyBytes(d, doff, s, soff, |bytes|), doff, bytes)
  {
  }

  /** One pass of the copy loop lays one piece of the source over the destination. */
  lemma {:induction false} CopyPiece(m: Mem, d: View, a: nat, s: View, b: nat, n: nat)
    requires ViewOk(m, d) && Injective(d) && ViewOk(m, s)
    requires PageOf(a) in d && PageOf(b) in s && OffsetOf(a) + n <= PAGE_SIZE && OffsetOf(b) + n <= PAGE_SIZE
    ensures Covers(s, b, n) && DataOnly(m, Copied(m, d, a, s, b, n), d)
    ensures Overlaid(m, Copied(m, d, a, s, b, n), d, a, ReadBytes(m, s, b, n))
  {
    PageRange(m, s, b, n);
    CopyIsPatch(m[d[PageOf(a)]], OffsetOf(a), m[s[PageOf(b)]], OffsetOf(b), ReadBytes(m, s, b, n));
    PatchPage(m, d, a, CopyBytes(m[d[PageOf(a)]], OffsetOf(a), m[s[PageOf(b)]], OffsetOf(b), n), ReadBytes(m, s, b, n));
  }

  lemma {:induction false} ReadUntouched(m0: Mem, m: Mem, d: View, s: View, b: nat, n: nat)
    requires DataOnly(m0, m, d) && d.Values !! s.Values
    ensures ReadBytes(m, s, b, n) == ReadBytes(m0, s, b, n)
  {
    forall k: nat | k < n
      ensures ReadBytes(m, s, b, n)[k] == ReadBytes(m0, s, b, n)[k]
    {
      assert PageOf(b + k) in s ==> s[PageOf(b + k)] in s.Values;
    }
  }

  /** The source bytes of two passes are those of one longer pass. */
  lemma ReadOn(m0: Mem, m: Mem, d: View, s: View, src: nat, i: nat, b: nat, n: nat, j: nat)
    requires d.Values !! s.Values && DataOnly(m0, m, d) && b == src + i && j == i + n
    ensures ReadBytes(m0, s, src, i) + ReadBytes(m, s, b, n) == ReadBytes(m0, s, src, j)
  {
    ReadUntouched(m0, m, d, s, b, n);
    ReadBytesSplit(m0, s, src, i, b, n, j);
  }

  ghost function Copied(m: Mem, d: View, a: nat, s: View, b: nat, n: nat): Mem
    requires ViewOk(m, d) && ViewOk(m, s) && PageOf(a) in d && PageOf(b) in s
    requires OffsetOf(a) + n <= PAGE_SIZE && OffsetOf(b) + n <= PAGE_SIZE
  {
    m[d[PageOf(a)] := CopyBytes(m[d[PageOf(a)]], OffsetOf(a), m[s[PageOf(b)]], OffsetOf(b), n)]
  }

  // ---- The views of a table tree ----

  const USER_END: nat := 511 * 0x80_0000_0000 // USER_PAGES pages

  /** The user pages of a tree, but for any that sits in frame 0: the kernel takes a zero
      frame for "unmapped". */
  ghost function UserView(t: Tree): View {
    map v: nat | Node(0, v) in t && t[Node(0, v)] != 0 && v < USER_PAGES :: t[Node(0, v)]
  }

  ghost predicate Translates(m: Mem, p4: Frame, d: View, v: nat) {
    && WalkOk(m, p4, 4, v)
    && Walk(m, p4, 4, v) / PAGE_SIZE == if v in d then d[v] else 0
  }

  /** The user view is what the processor's walk gives. */
  lemma TreeTranslates(m: Mem, p4: Frame, t: Tree, v: nat)
    requires IsTree(m, p4, t) && v < USER_PAGES
    ensures Translates(m, p4, UserView(t), v)
  {
    WalkIsEntry(m, p4, t, v);
    MappedIffEntry(m, p4, t, v);
    KeyInRange(v, 4);
    TreeWalkOk(m, p4, t, 4, v);
  }

  lemma UserViewOk(m: Mem, t: Tree)
    requires Owned(m, t)
    ensures ViewOk(m, UserView(t)) && Injective(UserView(t)) && UserView(t).Values <= t.Values
  {
    var d := UserView(t);
    forall v, w | v in d && w in d && d[v] == d[w]
      ensures v == w
    {
      assert Node(0, v) == Node(0, w);
    }
  }

  /** Writing data pages leaves the tables, and so every translation, alone. */
  lemma {:induction false} DataWriteKeepsTree(m: Mem, m': Mem, p4: Frame, t: Tree)
    requires IsTree(m, p4, t) && Owned(m, t) && DataOnly(m, m', UserView(t))
    ensures IsTree(m', p4, t) && Owned(m', t)
  {
    forall n | n in t && n.level > 0
      ensures m'[t[n]] == m[t[n]]
    {
      TableIsNotData(m, t, n);
    }
    TreeFrame(m, m', p4, t);
  }

  /** ... and so leaves what user code may do with the pages, and the way to the kernel. */
  lemma DataWriteKeepsUse(m: Mem, m': Mem, p4: Frame, t: Tree)
    requires IsTree(m, p4, t) && Owned(m, t) && DataOnly(m, m', UserView(t)) && UserPages(m, p4, t)
    ensures UserPages(m', p4, t) && forall e :: KernelIn(m, p4, e) ==> KernelIn(m', p4, e)
  {
    forall n | n in t && n.level > 0
      ensures m'[t[n]] == m[t[n]]
    {
      TableIsNotData(m, t, n);
    }
    UserPagesStay(m, m', p4, t);
  }

  lemma TableIsNotData(m: Mem, t: Tree, n: Node)
    requires Owned(m, t) && n in t && n.level > 0
    ensures t[n] !in UserView(t).Values
  {
  }

  lemma DataWriteKeepsStack(m: Mem, m': Mem, t: Tree, head: Word, free: seq<Frame>)
    requires IsStack(m, head, free) && DataOnly(m, m', UserView(t)) && forall n :: n in t ==> t[n] !in free
    ensures IsStack(m', head, free)
  {
    forall k | 0 <= k < |free|
      ensures m'[free[k]] == m[free[k]]
    {
      assert free[k] in free;
    }
    StackFrame(m, m', head, free);
  }

  /** The walk of page v meets no frame of `avoid`. */
  ghost predicate Foreign(m: Mem, table: Frame, level: nat, v: nat, avoid: set<Frame>)
    requires level >= 1
    decreases level
  {
    table < |m| && table !in avoid &&
    (level == 1 || var e := m[table][Key(v, level - 1) % 512];
      e == 0 || Foreign(m, e / PAGE_SIZE, level - 1, v, avoid))
  }

  ghost predicate SameOutside(m: Mem, m': Mem, frames: set<Frame>) {
    |m'| == |m| && forall f: Frame :: f < |m| && f !in frames ==> m'[f] == m[f]
  }

  lemma {:induction false} ForeignKept(m: Mem, m': Mem, table: Frame, level: nat, v: nat, avoid: set<Frame>)
    requires level >= 1 && Foreign(m, table, level, v, avoid) && SameOutside(m, m', avoid)
    ensures Foreign(m', table, level, v, avoid)
    ensures WalkOk(m', table, level, v) && Walk(m', table, level, v) == Walk(m, table, level, v)
    decreases level
  {
    if level > 1 && m[table][Key(v, level - 1) % 512] != 0 {
      ForeignKept(m, m', m[table][Key(v, level - 1) % 512] / PAGE_SIZE, level - 1, v, avoid);
    }
  }

  lemma {:induction false} ForeignFewer(m: Mem, table: Frame, level: nat, v: nat, avoid: set<Frame>, fewer: set<Frame>)
    requires level >= 1 && Foreign(m, table, level, v, avoid) && fewer <= avoid
    ensures Foreign(m, table, level, v, fewer)
    decreases level
  {
    if level > 1 && m[table][Key(v, level - 1) % 512] != 0 {
      ForeignFewer(m, m[table][Key(v, level - 1) % 512] / PAGE_SIZE, level - 1, v, avoid, fewer);
    }
  }

  /** The source of a copy: along [a, a+n) table walks translate by s, and neither the walks
      nor the pages meet a frame of `avoid`. */
  ghost predicate Source(m: Mem, p4: Frame, s: View, avoid: set<Frame>, a: nat, n: nat) {
    && ViewOk(m, s) && avoid !! s.Values
    && (forall x: nat :: a <= x < a + n ==> SourcePage(m, p4, s, avoid, PageOf(x)))
  }

  ghost predicate SourcePage(m: Mem, p4: Frame, s: View, avoid: set<Frame>, v: nat) {
    Foreign(m, p4, 4, v, avoid) && Translates(m, p4, s, v)
  }

  lemma SourceKept(m: Mem, m': Mem, p4: Frame, s: View, avoid: set<Frame>, v: nat)
    requires SourcePage(m, p4, s, avoid, v) && SameOutside(m, m', avoid)
    ensures SourcePage(m', p4, s, avoid, v)
  {
    ForeignKept(m, m', p4, 4, v, avoid);
  }

  /** A source stays one while only avoided frames are written, and avoiding fewer. */
  lemma SourceStays(m: Mem, m': Mem, p4: Frame, s: View, avoid: set<Frame>, fewer: set<Frame>, a: nat, n: nat)
    requires Source(m, p4, s, avoid, a, n) && SameOutside(m, m', avoid) && fewer <= avoid
    ensures Source(m', p4, s, fewer, a, n)
  {
    forall x: nat | a <= x < a + n
      ensures SourcePage(m', p4, s, fewer, PageOf(x))
    {
      SourceKept(m, m', p4, s, avoid, PageOf(x));
      ForeignFewer(m', p4, 4, PageOf(x), avoid, fewer);
    }
  }

  /** STRIP_FLAGS(vmm_get_page(p4, addr)), as a frame number. */
  method FrameAt(mc: Machine, p4: Frame, addr: nat, ghost d: View) returns (f: Frame)
    requires Translates(mc.mem, p4, d, PageOf(addr))
    ensures f == if PageOf(addr) in d then d[PageOf(addr)] else 0
  {
    var e := GetPage(mc, p4, addr);
    f := e / PAGE_SIZE;
  }

  function ChunkLength(a: nat, b: nat, n: nat): (r: nat)
    ensures n > 0 ==> 0 < r <= n
    ensures OffsetOf(a) + r <= PAGE_SIZE && OffsetOf(b) + r <= PAGE_SIZE
  {
    Min(Min(PAGE_SIZE - OffsetOf(a), PAGE_SIZE - OffsetOf(b)), n)
  }

  /** memcpy into a frame that the tree maps for the user. */
  method CopyFrame(mc: Machine, df: Frame, doff: nat, sf: Frame, soff: nat, n: nat, ghost p4: Frame, ghost t: Tree)
    requires Holds(mc, p4, t) && df in UserView(t).Values && df < |mc.mem| && sf < |mc.mem| && df != sf
    requires doff + n <= PAGE_SIZE && soff + n <= PAGE_SIZE
    modifies mc`mem
    ensures Holds(mc, p4, t) && DataOnly(old(mc.mem), mc.mem, UserView(t))
    ensures mc.mem == old(mc.mem)[df := CopyBytes(old(mc.mem)[df], doff, old(mc.mem)[sf], soff, n)]
  {
    ghost var m0 := mc.mem;
    Memcpy(mc, df, doff, sf, soff, n);
    DataWriteKeepsTree(m0, mc.mem, p4, t);
    DataWriteKeepsStack(m0, mc.mem, t, mc.stack, mc.free);
  }

  /** One pass of the loop of vmm_p4_memcpy; 0 when either page is missing. */
  method CopyPass(mc: Machine, dp4: Frame, dst: nat, sp4: Frame, src: nat, n: nat, ghost t: Tree, ghost s: View)
    returns (bytes: nat)
    requires Holds(mc, dp4, t) && dst < USER_END && n > 0
    requires ViewOk(mc.mem, s) && UserView(t).Values !! s.Values && Translates(mc.mem, sp4, s, PageOf(src))
    modifies mc`mem
    ensures Holds(mc, dp4, t) && DataOnly(old(mc.mem), mc.mem, UserView(t)) && bytes <= n
    ensures bytes > 0 <==> PageOf(dst) in UserView(t) && PageOf(src) in s
    ensures bytes == 0 ==> mc.mem == old(mc.mem)
    ensures Covers(UserView(t), dst, bytes) && Covers(s, src, bytes)
    ensures Overlaid(old(mc.mem), mc.mem, UserView(t), dst, ReadBytes(old(mc.mem), s, src, bytes))
  {
    ghost var d := UserView(t);
    UserViewOk(mc.mem, t);
    TreeTranslates(mc.mem, dp4, t, PageOf(dst));
    bytes := ChunkLength(dst, src, n);
    var df := FrameAt(mc, dp4, dst, d);
    var sf := FrameAt(mc, sp4, src, s);
    if df == 0 || sf == 0 {
      return 0;
    }
    CopyPiece(mc.mem, d, dst, s, src, bytes);
    PageRange(mc.mem, d, dst, bytes);
    assert df in d.Values && sf in s.Values;
    CopyFrame(mc, df, OffsetOf(dst), sf, OffsetOf(src), bytes, dp4, t);
    hide Holds, UserView;
  }

  /** vmm_p4_memcpy is one flat copy of `done` bytes: all n, which it returns, when every
      page on both sides is mapped, and otherwise those before the first missing page,
      which it reports as 0. */
  method P4Memcpy(mc: Machine, dp4: Frame, dst: nat, sp4: Frame, src: nat, n: nat, ghost t: Tree, ghost s: View)
    returns (copied: nat, ghost done: nat)
    requires Holds(mc, dp4, t) && dst + n <= USER_END && Source(mc.mem, sp4, s, UserView(t).Values, src, n)
    modifies mc`mem
    ensures Holds(mc, dp4, t) && done <= n && CopiedSoFar(old(mc.mem), mc.mem, UserView(t), dst, s, src, done)
    ensures done < n ==> GapAt(UserView(t), dst, s, src, done)
    ensures done == n <==> Covers(UserView(t), dst, n) && Covers(s, src, n)
    ensures copied == if done == n then n else 0
  {
    CopiedNothing(mc.mem, UserView(t), dst, s, src);
    hide Holds, Overlaid, ReadBytes, UserView, CopiedSoFar, Covers, GapAt;
    ghost var m0 := mc.mem;
    copied := 0;
    while copied < n
      invariant copied <= n && Holds(mc, dp4, t) && CopiedSoFar(m0, mc.mem, UserView(t), dst, s, src, copied)
    {
      ghost var m1 := mc.mem;
      SourceStill(m0, m1, sp4, s, UserView(t), src, n, copied);
      var a, b := dst + copied, src + copied;
      var bytes := CopyPass(mc, dp4, a, sp4, b, n - copied, t, s);
      if bytes == 0 {
        GapHere(UserView(t), dst, a, s, src, b, copied, n);
        SameAsNothing(m0, m1, mc.mem, UserView(t), dst, s, src, copied);
        return 0, copied;
      }
      var next := copied + bytes;
      CopyOn(m0, m1, mc.mem, UserView(t), dst, a, s, src, b, copied, bytes, next);
      copied := next;
    }
    done := n;
    AllCovered(m0, mc.mem, UserView(t), dst, s, src, n);
  }

  /** Copying stopped here: one of the two pages is not mapped. */
  ghost predicate GapAt(d: View, dst: nat, s: View, src: nat, i: nat) {
    PageOf(dst + i) !in d || PageOf(src + i) !in s
  }

  lemma GapHere(d: View, dst: nat, a: nat, s: View, src: nat, b: nat, i: nat, n: nat)
    requires a == dst + i && b == src + i && i < n && !(PageOf(a) in d && PageOf(b) in s)
    ensures GapAt(d, dst, s, src, i) && !(Covers(d, dst, n) && Covers(s, src, n))
  {
  }

  lemma SameAsNothing(m0: Mem, m: Mem, m': Mem, d: View, dst: nat, s: View, src: nat, i: nat)
    requires CopiedSoFar(m0, m, d, dst, s, src, i) && m' == m
    ensures CopiedSoFar(m0, m', d, dst, s, src, i)
  {
  }

  lemma AllCovered(m0: Mem, m: Mem, d: View, dst: nat, s: View, src: nat, n: nat)
    requires CopiedSoFar(m0, m, d, dst, s, src, n)
    ensures Covers(d, dst, n) && Covers(s, src, n)
  {
  }

  ghost predicate CopiedSoFar(m0: Mem, m: Mem, d: View, dst: nat, s: View, src: nat, i: nat) {
    && DataOnly(m0, m, d)
    && Covers(d, dst, i) && Covers(s, src, i)
    && Overlaid(m0, m, d, dst, ReadBytes(m0, s, src, i))
  }

  lemma CopiedNothing(m: Mem, d: View, dst: nat, s: View, src: nat)
    ensures CopiedSoFar(m, m, d, dst, s, src, 0)
  {
  }

  lemma SourceStill(m0: Mem, m: Mem, p4: Frame, s: View, d: View, src: nat, n: nat, i: nat)
    requires Source(m0, p4, s, d.Values, src, n) && DataOnly(m0, m, d) && i < n
    ensures ViewOk(m, s) && d.Values !! s.Values && Translates(m, p4, s, PageOf(src + i))
  {
    assert SourcePage(m0, p4, s, d.Values, PageOf(src + i));
    SourceKept(m0, m, p4, s, d.Values, PageOf(src + i));
  }

  lemma CopyOn(m0: Mem, m: Mem, m': Mem, d: View, dst: nat, a: nat, s: View, src: nat, b: nat, i: nat, n: nat, j: nat)
    requires a == dst + i && b == src + i && j == i + n
    requires CopiedSoFar(m0, m, d, dst, s, src, i) && d.Values !! s.Values && DataOnly(m, m', d)
    requires Covers(d, a, n) && Covers(s, b, n) && Overlaid(m, m', d, a, ReadBytes(m, s, b, n))
    ensures CopiedSoFar(m0, m', d, dst, s, src, j)
  {
    OverlaidMore(m0, m, m', d, dst, ReadBytes(m0, s, src, i), a, ReadBytes(m, s, b, n));
    ReadOn(m0, m, d, s, src, i, b, n, j);
  }

  ghost function Repeat(c: Byte, n: nat): (r: seq<Byte>)
    ensures |r| == n && forall k :: 0 <= k < n ==> r[k] == c
  {
    if n == 0 then [] else Repeat(c, n - 1) + [c]
  }

  lemma FillIsPatch(d: Page, off: nat, c: Byte, n: nat)
    requires off + n <= PAGE_SIZE
    ensures Patched(d, FillBytes(d, off, c, n), off, Repeat(c, n))
  {
  }

  /** One pass of the loop of vmm_p4_memset; 0 when the page is missing. */
  method FillPass(mc: Machine, p4: Frame, a: nat, c: Byte, n: nat, ghost t: Tree) returns (bytes: nat)
    requires Holds(mc, p4, t) && a < USER_END && n > 0
    modifies mc`mem
    ensures Holds(mc, p4, t) && DataOnly(old(mc.mem), mc.mem, UserView(t)) && bytes <= n
    ensures bytes > 0 <==> PageOf(a) in UserView(t)
    ensures Covers(UserView(t), a, bytes)
    ensures Overlaid(old(mc.mem), mc.mem, UserView(t), a, Repeat(c, bytes))
  {
    ghost var d, m0 := UserView(t), mc.mem;
    UserViewOk(m0, t);
    TreeTranslates(m0, p4, t, PageOf(a));
    bytes := ChunkLength(a, 0, n);
    var f := FrameAt(mc, p4, a, d);
    if f == 0 {
      return 0;
    }
    FillIsPatch(m0[f], OffsetOf(a), c, bytes);
    PatchPage(m0, d, a, FillBytes(m0[f], OffsetOf(a), c, bytes), Repeat(c, bytes));
    PageRange(m0, d, a, bytes);
    Memset(mc, f, OffsetOf(a), c, bytes);
    DataWriteKeepsTree(m0, mc.mem, p4, t);
    DataWriteKeepsStack(m0, mc.mem, t, mc.stack, mc.free);
  }

  ghost predicate FilledSoFar(m0: Mem, m: Mem, d: View, a: nat, c: Byte, i: nat) {
    DataOnly(m0, m, d) && Covers(d, a, i) && Overlaid(m0, m, d, a, Repeat(c, i))
  }

  lemma FillOn(m0: Mem, m: Mem, m': Mem, d: View, a: nat, c: Byte, b: nat, i: nat, n: nat, j: nat)
    requires b == a + i && j == i + n && FilledSoFar(m0, m, d, a, c, i)
    requires DataOnly(m, m', d) && Covers(d, b, n) && Overlaid(m, m', d, b, Repeat(c, n))
    ensures FilledSoFar(m0, m', d, a, c, j)
  {
    OverlaidMore(m0, m, m', d, a, Repeat(c, i), b, Repeat(c, n));
    assert Repeat(c, i) + Repeat(c, n) == Repeat(c, j);
  }

  /** vmm_p4_memset is one flat fill up to the first page that is not mapped; it returns n if
      there is none and 0 otherwise. */
  method P4Memset(mc: Machine, p4: Frame, a: nat, c: Byte, n: nat, ghost t: Tree) returns (filled: nat, ghost done: nat)
    requires Holds(mc, p4, t) && a + n <= USER_END
    modifies mc`mem
    ensures Holds(mc, p4, t) && done <= n && FilledSoFar(old(mc.mem), mc.mem, UserView(t), a, c, done)
    ensures done < n ==> PageOf(a + done) !in UserView(t)
    ensures done == n <==> Covers(UserView(t), a, n)
    ensures filled == if done == n then n else 0
  {
    ghost var m0 := mc.mem;
    filled := 0;
    while filled < n
      invariant filled <= n && Holds(mc, p4, t) && FilledSoFar(m0, mc.mem, UserView(t), a, c, filled)
    {
      ghost var m1 := mc.mem;
      var b := a + filled;
      var bytes := FillPass(mc, p4, b, c, n - filled, t);
      var next := filled + bytes;
      FillOn(m0, m1, mc.mem, UserView(t), a, c, b, filled, bytes, next);
      if bytes == 0 {
        return 0, filled;
      }
      filled := next;
    }
    done := n;
  }
}
