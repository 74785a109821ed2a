/** Copying an address space for fork: procmm_new_map with a source (kernel/proc/procmm.c). */
module Forking {
  import opened Common
  import opened PhysicalMemory
  import opened FrameAllocator
  import opened PageTables
  import opened TableTeardown
  import opened PageCopy
  import opened PageMapping
  import opened AddressSpaces
  import opened SpaceViews

  // ---- Which areas the copy keeps ----

  predicate Accepts(k: seq<Area>, a: Area) {
    forall i :: 0 <= i < |k| ==> k[i].end < a.start
  }

  /** What procmm_map lets through of the first n areas, offered in order. */
  function Kept(s: seq<Area>, n: nat): (k: seq<Area>)
    requires n <= |s|
    ensures |k| <= n
    ensures forall a :: a in k ==> a in s[..n]
  {
    if n == 0 then [] else
    var k := Kept(s, n - 1);
    assert forall a :: a in s[..n - 1] ==> a in s[..n];
    assert s[n - 1] in s[..n];
    if Accepts(k, s[n - 1]) then k + [s[n - 1]] else k
  }

  /** No area touches the next. */
  predicate Separated(s: seq<Area>) {
    forall i, j :: 0 <= i < j < |s| ==> s[i].end < s[j].start
  }

  lemma {:induction false} SeparatedKept(s: seq<Area>, n: nat)
    requires Separated(s) && n <= |s|
    ensures Kept(s, n) == s[..n]
  {
    if n > 0 {
      SeparatedKept(s, n - 1);
      assert s[..n] == s[..n - 1] + [s[n - 1]];
    }
  }

  lemma {:induction false} FullKept(s: seq<Area>, n: nat)
    requires n <= |s| && |Kept(s, n)| == n
    ensures Kept(s, n) == s[..n] && Separated(s[..n])
  {
    if n > 0 {
      FullKept(s, n - 1);
      assert s[..n] == s[..n - 1] + [s[n - 1]];
    }
  }

  /** A forked child gets every area if and only if no two areas of the parent touch. */
  lemma ForkIsComplete(s: seq<Area>)
    ensures Kept(s, |s|) == s <==> Separated(s)
  {
    assert s[..|s|] == s;
    if Separated(s) {
      SeparatedKept(s, |s|);
    }
    if Kept(s, |s|) == s {
      FullKept(s, |s|);
    }
  }

  /** It does happen: once the heap has grown right up to the stack, the child has no stack. */
  lemma TouchingIsDropped()
    ensures var s := [Area(0x1000, 0x3000, 0), Area(0x3000, 0x4000, 0)];
      AreasOk(s) && Kept(s, 2) == [s[0]]
  {
    var s := [Area(0x1000, 0x3000, 0), Area(0x3000, 0x4000, 0)];
    assert Kept(s, 1) == [s[0]];
  }

  /** Frames that copying the areas from n on takes, given the child's nodes k. */
  ghost function ForkNeed(k: set<Node>, s: seq<Area>, n: nat): nat
    requires n <= |s|
    decreases |s| - n
  {
    if n == |s| then 0
    else if Accepts(Kept(s, n), s[n]) then
      var v, w := PageOf(s[n].start), PagesEnd(s[n].end);
      Need(k, v, w) + ForkNeed(KeysWith(k, v, w), s, n + 1)
    else ForkNeed(k, s, n + 1)
  }

  // ---- Views of two spaces ----

  lemma {:induction false} TreeForeign(m: Mem, p4: Frame, t: Tree, d: set<Frame>, level: nat, v: nat)
    requires IsTree(m, p4, t) && v < USER_PAGES && 1 <= level <= 4 && t.Values !! d
    requires Node(level, Key(v, level)) in t
    ensures Foreign(m, t[Node(level, Key(v, level))], level, v, d)
    decreases level
  {
    assert t[Node(level, Key(v, level))] in t.Values;
    if level > 1 {
      var n, i := Node(level, Key(v, level)), Key(v, level - 1) % 512;
      PathStep(v, level - 1);
      assert SlotOk(m, t, n, i);
      if Down(n, i) in t {
        TreeForeign(m, p4, t, d, level - 1, v);
      }
    }
  }

  /** One address space can be the source of a copy into another. */
  lemma SpaceIsSource(m: Mem, p4: Frame, t: Tree, d: set<Frame>, a: nat, n: nat)
    requires IsTree(m, p4, t) && Owned(m, t) && t.Values !! d && a + n <= USER_END
    ensures Source(m, p4, UserView(t), d, a, n)
  {
    UserViewOk(m, t);
    forall x: nat | a <= x < a + n
      ensures SourcePage(m, p4, UserView(t), d, PageOf(x))
    {
      var v := PageOf(x);
      KeyInRange(v, 4);
      TreeForeign(m, p4, t, d, 4, v);
      TreeTranslates(m, p4, t, v);
    }
  }

  // ---- The copy ----

  ghost predicate Beside(src: Space, child: Space)
    reads src, child, src.mc, child.mc
  {
    && src != child && src.mc == child.mc
    && src.Valid() && child.Valid()
    && src.t.Values !! child.t.Values
  }

  lemma NeighbourKept(m: Mem, m': Mem, p4: Frame, t: Tree)
    requires IsTree(m, p4, t) && Owned(m, t) && FramesKept(m, m', t)
    ensures IsTree(m', p4, t) && Owned(m', t)
    ensures UserPages(m, p4, t) ==> UserPages(m', p4, t)
    ensures forall e :: KernelIn(m, p4, e) ==> KernelIn(m', p4, e)
  {
    assert t[ROOT] in t.Values;
    forall n | n in t && n.level > 0
      ensures m'[t[n]] == m[t[n]]
    {
      assert t[n] in t.Values;
    }
    TreeFrame(m, m', p4, t);
    if UserPages(m, p4, t) {
      UserPagesStay(m, m', p4, t);
    }
  }

  /** A space that evolves among its own and free frames leaves its neighbour alone. */
  lemma EvolvesBeside(p4: Frame, m: Mem, t: Tree, free: seq<Frame>, m': Mem, t': Tree, free': seq<Frame>, other: Tree)
    requires Evolved(p4, m, t, free, m', t', free')
    requires t.Values !! other.Values && forall n :: n in other ==> other[n] !in free
    ensures FramesKept(m, m', other)
    ensures t'.Values !! other.Values && forall n :: n in other ==> other[n] !in free'
  {
    forall n | n in other
      ensures other[n] !in free' && other[n] !in t'.Values
    {
      assert other[n] in other.Values;
      assert other[n] !in FrameSet(free) + t.Values;
      assert other[n] !in FrameSet(free') + t'.Values;
    }
    forall f: Frame | f < |m| && f in other.Values
      ensures m'[f] == m[f]
    {
      var n :| n in other && other[n] == f;
    }
  }

  /** One pass of the loop of procmm_new_map: area i of the source, mapped and copied. */
  method CopyArea(src: Space, child: Space, i: nat, ghost v: nat, ghost w: nat)
    requires Beside(src, child) && i < |src.areas| && child.areas == Kept(src.areas, i)
    requires v == PageOf(src.areas[i].start) && w == PagesEnd(src.areas[i].end)
    requires Accepts(child.areas, src.areas[i]) ==> |src.mc.free| >= Need(child.t.Keys, v, w)
    modifies child`areas, child`t, src.mc`pos, src.mc`stack, src.mc`free, src.mc`mem
    ensures Beside(src, child) && child.areas == Kept(src.areas, i + 1)
    ensures FramesKept(old(src.mc.mem), src.mc.mem, src.t)
    ensures Conserved(old(src.mc.free), old(child.t), src.mc.free, child.t)
    ensures Counted(Accepts(old(child.areas), src.areas[i]), old(child.t), old(src.mc.free), child.t, src.mc.free, v, w)
    ensures Shows(old(src.mc.mem), UserView(old(child.t)), src.mc.mem, UserView(child.t), src.areas[i])
    ensures Accepts(old(child.areas), src.areas[i]) ==>
      SameBytes(old(src.mc.mem), UserView(src.t), src.mc.mem, UserView(child.t), src.areas[i])
  {
    hide *;
    var a := src.areas[i];
    ghost var m0, t0 := src.mc.mem, child.t;
    var ok := MapBeside(src, child, i, v, w);
    ghost var m1 := src.mc.mem;
    CopyBeside(src, child, i, a);
    ViewInside(src.t);
    FramesKeptTwice(m0, m1, src.mc.mem, src.t);
    ShowsTwice(m0, UserView(t0), m1, UserView(child.t), src.mc.mem, a);
    SameBytesVia(m0, UserView(src.t), m1, src.mc.mem, UserView(child.t), a, src.t);
    KeptStep(src.areas, i, i + 1);
  }

  lemma KeptStep(s: seq<Area>, i: nat, j: nat)
    requires i < |s| && j == i + 1
    ensures Kept(s, j) == if Accepts(Kept(s, i), s[i]) then Kept(s, i) + [s[i]] else Kept(s, i)
  {
  }

  /** Mapping an accepted area pops exactly the frames it needs; a refused one, none. */
  ghost predicate Counted(ok: bool, t: Tree, free: seq<Frame>, t': Tree, free': seq<Frame>, v: nat, w: nat) {
    if ok then t'.Keys == KeysWith(t.Keys, v, w) && |free'| == |free| - Need(t.Keys, v, w)
    else t' == t && free' == free
  }

  lemma FramesKeptTwice(m: Mem, m1: Mem, m2: Mem, t: Tree)
    requires FramesKept(m, m1, t) && FramesKept(m1, m2, t)
    ensures FramesKept(m, m2, t)
  {
  }

  lemma CopyShows(m: Mem, m': Mem, d: View, s: View, a: Area, n: nat, done: nat)
    requires CopiedSoFar(m, m', d, a.start, s, a.start, done) && a.start + n == a.end && done <= n
    ensures Shows(m, d, m', d, a)
    ensures done == n ==> SameBytes(m, s, m', d, a)
  {
    var bytes := ReadBytes(m, s, a.start, done);
    forall x: nat | a.start <= x < a.end && done == n
      ensures VByte(m', d, x) == VByte(m, s, x)
    {
      assert PageOf(x) in d && bytes[x - a.start] == VByte(m, s, a.start + (x - a.start));
    }
  }

  /** procmm_map in the child, seen from the source. */
  method MapBeside(src: Space, child: Space, i: nat, ghost v: nat, ghost w: nat) returns (ok: bool)
    requires Beside(src, child) && i < |src.areas| && child.areas == Kept(src.areas, i)
    requires v == PageOf(src.areas[i].start) && w == PagesEnd(src.areas[i].end)
    requires Accepts(child.areas, src.areas[i]) ==> |src.mc.free| >= Need(child.t.Keys, v, w)
    modifies child`areas, child`t, src.mc`pos, src.mc`stack, src.mc`free, src.mc`mem
    ensures Beside(src, child) && ok == Accepts(old(child.areas), src.areas[i])
    ensures child.areas == if ok then old(child.areas) + [src.areas[i]] else old(child.areas)
    ensures FramesKept(old(src.mc.mem), src.mc.mem, src.t)
    ensures Conserved(old(src.mc.free), old(child.t), src.mc.free, child.t)
    ensures Counted(ok, old(child.t), old(src.mc.free), child.t, src.mc.free, v, w)
    ensures forall u: nat :: u in UserView(old(child.t)) ==> u in UserView(child.t)
    ensures Shows(old(src.mc.mem), UserView(old(child.t)), src.mc.mem, UserView(child.t), src.areas[i])
  {
    hide Holds, IsTree, Owned, Space.Ordered, Evolved, AreasOk, FramesKept, Shows, UserView, UserPages, KernelIn;
    BesideParts(src, child);
    var a := src.areas[i];
    KeptBelow(src.areas, i);
    ok := child.Map(a.start, a.end, a.flags);
    SpaceParts(child);
    KeysGrow(old(child.t).Keys, v, w);
    MapBesideFacts(child.p4, old(src.mc.mem), old(child.t), old(src.mc.free), src.mc.mem, child.t, src.mc.free,
                   src.p4, src.t, a);
    HoldsBeside(src.mc, child.p4, child.t, src.p4, src.t);
  }

  lemma MapBesideFacts(p4: Frame, m: Mem, t: Tree, free: seq<Frame>, m': Mem, t': Tree, free': seq<Frame>,
                       sp4: Frame, st: Tree, a: Area)
    requires Evolved(p4, m, t, free, m', t', free') && t.Keys <= t'.Keys
    requires IsTree(m, p4, t) && Owned(m, t) && 0 !in t.Values && IsTree(m', p4, t') && 0 !in t'.Values
    requires IsTree(m, sp4, st) && Owned(m, st) && t.Values !! st.Values && forall n :: n in st ==> st[n] !in free
    ensures IsTree(m', sp4, st) && Owned(m', st) && FramesKept(m, m', st)
    ensures UserPages(m, sp4, st) ==> UserPages(m', sp4, st)
    ensures forall e :: KernelIn(m, sp4, e) ==> KernelIn(m', sp4, e)
    ensures t'.Values !! st.Values && forall n :: n in st ==> st[n] !in free'
    ensures Conserved(free, t, free', t')
    ensures forall u: nat :: u in UserView(t) ==> u in UserView(t')
    ensures Shows(m, UserView(t), m', UserView(t'), a)
  {
    EvolvesBeside(p4, m, t, free, m', t', free', st);
    NeighbourKept(m, m', sp4, st);
    assert forall u: nat :: u in UserView(t) ==> u in UserView(t') by {
      ViewIsLeaves(m, p4, t);
      ViewIsLeaves(m', p4, t');
    }
    MapShows(p4, m, t, free, m', t', free', a);
  }

  /** vmm_p4_memcpy of area i of the source, seen from the source. */
  method CopyBeside(src: Space, child: Space, i: nat, a: Area)
    requires Beside(src, child) && i < |src.areas| && a == src.areas[i]
    modifies src.mc`mem
    ensures Beside(src, child) && FramesKept(old(src.mc.mem), src.mc.mem, src.t)
    ensures Shows(old(src.mc.mem), UserView(child.t), src.mc.mem, UserView(child.t), a)
    ensures a in child.areas ==> SameBytes(old(src.mc.mem), UserView(src.t), src.mc.mem, UserView(child.t), a)
  {
    hide Holds, IsTree, Owned, Space.Bounds, Space.Ordered, Covers, Source, ViewOk, CopiedSoFar, Shows, SameBytes,
         FramesKept, UserPages, KernelIn;
    BesideParts(src, child);
    ghost var m1 := src.mc.mem;
    var n := a.end - a.start;
    UserViewOk(m1, child.t);
    ViewInside(child.t);
    SpaceIsSource(m1, src.p4, src.t, UserView(child.t).Values, a.start, n);
    ViewOfArea(src, i, a, n);
    if a in child.areas {
      var k :| 0 <= k < |child.areas| && child.areas[k] == a;
      ViewOfArea(child, k, a, n);
    }
    var copied;
    ghost var done;
    copied, done := P4Memcpy(src.mc, child.p4, a.start, src.p4, a.start, n, child.t, UserView(src.t));
    CopyShows(m1, src.mc.mem, UserView(child.t), UserView(src.t), a, n, done);
    CopyKeepsUse(m1, src.mc.mem, UserView(src.t), a.start, done, child.p4, child.t);
    CopyKeeps(m1, src.mc.mem, UserView(child.t), a.start, UserView(src.t), done, child.t, src.p4, src.t);
    HoldsBeside(src.mc, child.p4, child.t, src.p4, src.t);
  }

  lemma BesideParts(src: Space, child: Space)
    requires Beside(src, child)
    ensures IsTree(src.mc.mem, src.p4, src.t) && Owned(src.mc.mem, src.t) && Owned(src.mc.mem, child.t)
    ensures IsTree(src.mc.mem, child.p4, child.t) && AreasOk(src.areas)
    ensures UserPages(src.mc.mem, src.p4, src.t) && UserPages(src.mc.mem, child.p4, child.t)
    ensures KernelIn(src.mc.mem, src.p4, src.kernel) && KernelIn(src.mc.mem, child.p4, child.kernel)
    ensures forall n :: n in src.t ==> src.t[n] !in src.mc.free
    ensures forall i :: 0 <= i < |src.areas| ==> src.areas[i].start <= src.areas[i].end <= USER_END
  {
    forall i | 0 <= i < |src.areas|
      ensures src.areas[i].start <= src.areas[i].end <= USER_END
    {
      assert AreaOk(src.areas[i]);
    }
  }

  lemma HoldsBeside(mc: Machine, p4: Frame, t: Tree, sp4: Frame, st: Tree)
    requires Holds(mc, p4, t) && IsTree(mc.mem, sp4, st) && Owned(mc.mem, st)
    requires forall n :: n in st ==> st[n] !in mc.free
    ensures Holds(mc, sp4, st)
  {
  }

  lemma CopyKeeps(m: Mem, m': Mem, d: View, x: nat, s: View, done: nat, t: Tree, sp4: Frame, st: Tree)
    requires CopiedSoFar(m, m', d, x, s, x, done) && d.Values <= t.Values && t.Values !! st.Values
    requires IsTree(m, sp4, st) && Owned(m, st)
    ensures IsTree(m', sp4, st) && Owned(m', st) && FramesKept(m, m', st)
    ensures UserPages(m, sp4, st) ==> UserPages(m', sp4, st)
    ensures forall e :: KernelIn(m, sp4, e) ==> KernelIn(m', sp4, e)
  {
    NeighbourKept(m, m', sp4, st);
  }

  lemma CopyKeepsUse(m: Mem, m': Mem, s: View, x: nat, done: nat, p4: Frame, t: Tree)
    requires CopiedSoFar(m, m', UserView(t), x, s, x, done) && IsTree(m, p4, t) && Owned(m, t) && UserPages(m, p4, t)
    ensures UserPages(m', p4, t) && forall e :: KernelIn(m, p4, e) ==> KernelIn(m', p4, e)
  {
    DataWriteKeepsUse(m, m', p4, t);
  }

  /** The areas kept so far lie below the next one. */
  lemma KeptBelow(s: seq<Area>, i: nat)
    requires AreasOk(s) && i < |s|
    ensures forall k :: 0 <= k < |Kept(s, i)| ==> Kept(s, i)[k].start <= Kept(s, i)[k].end <= s[i].start <= s[i].end
    ensures AreaOk(s[i])
  {
    forall k | 0 <= k < |Kept(s, i)|
      ensures Kept(s, i)[k].start <= Kept(s, i)[k].end <= s[i].start <= s[i].end
    {
      assert Kept(s, i)[k] in Kept(s, i);
      assert Kept(s, i)[k] in s[..i];
      var j :| 0 <= j < i && s[j] == Kept(s, i)[k];
      assert AreaOk(s[j]) && AreaOk(s[i]);
    }
  }

  /** Every area of the list shows through d' what it shows through d. */
  ghost predicate AllSame(m: Mem, d: View, m': Mem, d': View, areas: seq<Area>) {
    forall k :: 0 <= k < |areas| ==> SameBytes(m, d, m', d', areas[k])
  }

  /** Copying one more area disturbs none of those copied before. */
  lemma StillSame(m0: Mem, m1: Mem, m2: Mem, s: View, d1: View, d2: View, areas: seq<Area>, a: Area, st: Tree)
    requires AllSame(m0, s, m1, d1, areas) && Shows(m1, d1, m2, d2, a)
    requires forall k :: 0 <= k < |areas| ==> areas[k].end <= a.start && CoversArea(d1, areas[k])
    ensures AllSame(m0, s, m2, d2, areas)
  {
    forall k, x: nat | 0 <= k < |areas| && areas[k].start <= x < areas[k].end
      ensures VByte(m2, d2, x) == VByte(m0, s, x)
    {
      assert SameBytes(m0, s, m1, d1, areas[k]) && CoversArea(d1, areas[k]);
    }
  }

  /** procmm_new_map with a source, as fork uses it. The child gets the areas that
      procmm_map accepts, each showing byte for byte what it shows in the parent; parent and
      child share no frame, and no frame of the parent is written. */
  method Fork(src: Space, boot: Frame) returns (child: Space)
    requires src.Valid() && boot < |src.mc.mem| && boot !in src.mc.free
    requires |src.mc.free| >= 1 + ForkNeed({ROOT}, src.areas, 0)
    modifies src.mc`pos, src.mc`stack, src.mc`free, src.mc`mem
    ensures fresh(child) && Beside(src, child) && child.kernel == old(src.mc.mem[boot][511])
    ensures child.areas == Kept(src.areas, |src.areas|)
    // brk and stack are not copied: the child's stack can never grow
    ensures child.brk == child.stack == None && forall addr: nat :: !child.Grows(addr)
    ensures FramesKept(old(src.mc.mem), src.mc.mem, src.t)
    ensures FrameSet(src.mc.free) + child.t.Values == FrameSet(old(src.mc.free))
    ensures AllSame(old(src.mc.mem), UserView(src.t), src.mc.mem, UserView(child.t), child.areas)
  {
    hide Forked, Space.Valid;
    ghost var m0, all := src.mc.mem, FrameSet(src.mc.free);
    child := NewBeside(src, boot);
    ForkStart(src, child, m0, all);
    var i := 0;
    while i < |src.areas|
      invariant i <= |src.areas| && fresh(child) && src.mc == child.mc && src != child
      invariant Forked(src, child, m0, all, i)
    {
      ForkPass(src, child, i, m0, all);
      i := i + 1;
    }
    ForkDone(src, child, m0, all);
  }

  /** The state of a fork once the first i areas have been gone through. */
  ghost predicate Forked(src: Space, child: Space, m0: Mem, all: set<Frame>, i: nat)
    reads src, child, src.mc, child.mc
  {
    && i <= |src.areas| && Beside(src, child) && child.areas == Kept(src.areas, i)
    && child.brk == child.stack == None
    && FramesKept(m0, src.mc.mem, src.t)
    && FrameSet(src.mc.free) + child.t.Values == all
    && |src.mc.free| >= ForkNeed(child.t.Keys, src.areas, i)
    && AllSame(m0, UserView(src.t), src.mc.mem, UserView(child.t), child.areas)
  }

  lemma ForkStart(src: Space, child: Space, m0: Mem, all: set<Frame>)
    requires Beside(src, child) && child.areas == [] && child.brk == child.stack == None
    requires FramesKept(m0, src.mc.mem, src.t) && FrameSet(src.mc.free) + child.t.Values == all
    requires child.t.Keys == {ROOT} && |src.mc.free| >= ForkNeed({ROOT}, src.areas, 0)
    ensures Forked(src, child, m0, all, 0)
  {
    hide Space.Valid, FramesKept, FrameSet, ForkNeed;
  }

  lemma ForkDone(src: Space, child: Space, m0: Mem, all: set<Frame>)
    requires Forked(src, child, m0, all, |src.areas|)
    ensures Beside(src, child) && child.areas == Kept(src.areas, |src.areas|)
    ensures child.brk == child.stack == None && forall addr: nat :: !child.Grows(addr)
    ensures FramesKept(m0, src.mc.mem, src.t) && FrameSet(src.mc.free) + child.t.Values == all
    ensures AllSame(m0, UserView(src.t), src.mc.mem, UserView(child.t), child.areas)
  {
  }

  method NewBeside(src: Space, boot: Frame) returns (child: Space)
    requires src.Valid() && boot < |src.mc.mem| && boot !in src.mc.free
    requires |src.mc.free| >= 1
    modifies src.mc`pos, src.mc`stack, src.mc`free, src.mc`mem
    ensures fresh(child) && Beside(src, child) && child.areas == [] && child.t.Keys == {ROOT}
    ensures child.brk == child.stack == None && child.kernel == old(src.mc.mem[boot][511])
    ensures FramesKept(old(src.mc.mem), src.mc.mem, src.t) && |src.mc.free| == |old(src.mc.free)| - 1
    ensures FrameSet(src.mc.free) + child.t.Values == FrameSet(old(src.mc.free))
  {
    hide IsTree, Space.Ordered, UserPages, KernelIn;
    SpaceParts(src);
    ghost var m0, free0 := src.mc.mem, src.mc.free;
    child := new Space(src.mc, boot);
    NewFacts(m0, src.mc.mem, src.p4, src.t, free0, child.p4, src.mc.free);
    HoldsBeside(src.mc, child.p4, child.t, src.p4, src.t);
  }

  lemma NewFacts(m: Mem, m': Mem, p4: Frame, t: Tree, free: seq<Frame>, f: Frame, free': seq<Frame>)
    requires IsTree(m, p4, t) && Owned(m, t) && |m'| == |m| && free == [f] + free'
    requires forall n :: n in t ==> t[n] !in free
    requires forall g: Frame :: g < |m'| && g !in free ==> m'[g] == m[g]
    ensures IsTree(m', p4, t) && Owned(m', t) && FramesKept(m, m', t)
    ensures UserPages(m, p4, t) ==> UserPages(m', p4, t)
    ensures forall e :: KernelIn(m, p4, e) ==> KernelIn(m', p4, e)
    ensures t.Values !! {f} && forall n :: n in t ==> t[n] !in free'
    ensures map[ROOT := f].Values == {f}
    ensures FrameSet(free') + {f} == FrameSet(free)
  {
    assert f in free && forall g :: g in free' ==> g in free;
    assert map[ROOT := f][ROOT] == f;
    NeighbourKept(m, m', p4, t);
  }

  /** One pass of the fork loop, with everything the loop keeps. */
  method ForkPass(src: Space, child: Space, i: nat, ghost m0: Mem, ghost all: set<Frame>)
    requires Forked(src, child, m0, all, i) && i < |src.areas|
    modifies child`areas, child`t, src.mc`pos, src.mc`stack, src.mc`free, src.mc`mem
    ensures Forked(src, child, m0, all, i + 1)
  {
    hide Holds, Space.Bounds, Space.Ordered, FramesKept, Shows, SameBytes, UserView, Kept, AllSame;
    ghost var m1, d1, k, s := src.mc.mem, UserView(child.t), child.areas, UserView(src.t);
    ghost var v, w := PageOf(src.areas[i].start), PagesEnd(src.areas[i].end);
    BesideParts(src, child);
    KeptBelow(src.areas, i);
    CoversAll(child);
    CopyArea(src, child, i, v, w);
    ForkPassSame(m0, m1, src.mc.mem, s, d1, UserView(child.t), k, src.areas, i, src.t);
    FramesKeptTwice(m0, m1, src.mc.mem, src.t);
  }

  lemma ForkPassSame(m0: Mem, m1: Mem, m2: Mem, s: View, d1: View, d2: View, k: seq<Area>, areas: seq<Area>, i: nat,
                     st: Tree)
    requires i < |areas| && AreasOk(areas) && k == Kept(areas, i) && FramesKept(m0, m1, st) && s == UserView(st)
    requires AllSame(m0, s, m1, d1, k) && Shows(m1, d1, m2, d2, areas[i])
    requires forall j :: 0 <= j < |k| ==> CoversArea(d1, k[j])
    requires Accepts(k, areas[i]) ==> SameBytes(m1, s, m2, d2, areas[i])
    ensures AllSame(m0, s, m2, d2, Kept(areas, i + 1))
  {
    KeptBelow(areas, i);
    StillSame(m0, m1, m2, s, d1, d2, k, areas[i], st);
    ViewInside(st);
    SameBytesVia(m0, s, m1, m2, d2, areas[i], st);
  }
}
