/** Mapping and unmapping one user page: the bodies of the page loops of
    kernel/proc/procmm.c, with frame ownership. */
module PageMapping {
  import opened PhysicalMemory
  import opened FrameAllocator
  import opened PageTables
  import opened TableTeardown

  ghost function FullPath(v: nat): set<Node> { TablePath(v) + {Node(0, v)} }

  /** What mapping and unmapping keep: frames are conserved, and frames of neither the tree
      nor the free stack, pages that stay mapped, and the kernel slot are left alone. */
  ghost predicate Evolved(p4: Frame, m: Mem, t: Tree, free: seq<Frame>, m': Mem, t': Tree, free': seq<Frame>) {
    && |m'| == |m|
    && Conserved(free, t, free', t')
    && (forall f: Frame :: f < |m| && f !in t.Values && f !in free ==> m'[f] == m[f])
    && (forall u: nat :: Node(0, u) in t && Node(0, u) in t' ==> PageKept(m, t, m', t', u))
    && p4 < |m| && m'[p4][KERNEL_SLOT] == m[p4][KERNEL_SLOT]
  }

  ghost predicate PageKept(m: Mem, t: Tree, m': Mem, t': Tree, u: nat)
    requires Node(0, u) in t && Node(0, u) in t'
  {
    && t'[Node(0, u)] == t[Node(0, u)]
    && (t[Node(0, u)] < |m| && |m'| == |m| ==> m'[t[Node(0, u)]] == m[t[Node(0, u)]])
  }

  lemma EvolvedTwice(p4: Frame, m: Mem, t: Tree, free: seq<Frame>, m1: Mem, t1: Tree, free1: seq<Frame>,
                     m2: Mem, t2: Tree, free2: seq<Frame>)
    requires Evolved(p4, m, t, free, m1, t1, free1) && Evolved(p4, m1, t1, free1, m2, t2, free2)
    requires forall u: nat :: Node(0, u) in t && Node(0, u) in t2 ==> Node(0, u) in t1
    ensures Evolved(p4, m, t, free, m2, t2, free2)
  {
    forall f: Frame | f < |m| && f !in t.Values && f !in free
      ensures m2[f] == m[f]
    {
      assert f !in FrameSet(free1) + t1.Values;
    }
    forall u: nat | Node(0, u) in t && Node(0, u) in t2
      ensures PageKept(m, t, m2, t2, u)
    {
      assert PageKept(m, t, m1, t1, u) && PageKept(m1, t1, m2, t2, u);
    }
  }

  lemma KernelStays(p4: Frame, m: Mem, t: Tree, free: seq<Frame>, m': Mem, t': Tree, free': seq<Frame>, v: nat,
                    e: Word)
    requires KernelIn(m, p4, e)
    requires Evolved(p4, m, t, free, m', t', free') || Replaced(p4, m, t, free, m', t', free', v)
    ensures KernelIn(m', p4, e)
  {
  }

  lemma EvolvedNot(p4: Frame, m: Mem, t: Tree, free: seq<Frame>)
    requires p4 < |m|
    ensures Evolved(p4, m, t, free, m, t, free)
  {
  }

  /** Frame f has dropped out of both the tree and the free stack. */
  ghost predicate Lost(f: Frame, t': Tree, free': seq<Frame>) {
    f !in t'.Values && f !in free'
  }

  /** Mapping over a page that was mapped: its old frame, unwritten, is the one frame that
      drops out; every other page and every frame of neither side is left alone. */
  ghost predicate Replaced(p4: Frame, m: Mem, t: Tree, free: seq<Frame>, m': Mem, t': Tree, free': seq<Frame>, v: nat) {
    && |m'| == |m| && Node(0, v) in t && t[Node(0, v)] < |m|
    && Lost(t[Node(0, v)], t', free')
    && FrameSet(free') + t'.Values + {t[Node(0, v)]} == FrameSet(free) + t.Values
    && m'[t[Node(0, v)]] == m[t[Node(0, v)]]
    && (forall f: Frame :: f < |m| && f !in t.Values && f !in free ==> m'[f] == m[f])
    && (forall u: nat :: Node(0, u) in t && Node(0, u) in t' && u != v ==> PageKept(m, t, m', t', u))
    && p4 < |m| && m'[p4][KERNEL_SLOT] == m[p4][KERNEL_SLOT]
  }

  /** No frame appears from nowhere. */
  ghost predicate NoneNew(free: seq<Frame>, t: Tree, free': seq<Frame>, t': Tree) {
    FrameSet(free') + t'.Values <= FrameSet(free) + t.Values
  }

  /** vmm_set_page(P4, addr, pmm_alloc(), flags). On an unmapped page every frame stays
      accounted for; on a mapped one the frame it had is lost. */
  method MapPage(mc: Machine, p4: Frame, addr: nat, ghost v: nat, ghost t: Tree) returns (ghost t': Tree)
    requires Holds(mc, p4, t) && v == PageOf(addr) < USER_PAGES
    requires |mc.free| >= 1 + TablesMissing(t.Keys, v)
    modifies mc`pos, mc`stack, mc`free, mc`mem
    ensures Holds(mc, p4, t') && t'.Keys == t.Keys + FullPath(v)
    ensures |mc.free| == |old(mc.free)| - 1 - TablesMissing(t.Keys, v)
    ensures Node(0, v) !in t ==> Evolved(p4, old(mc.mem), t, old(mc.free), mc.mem, t', mc.free)
    ensures Node(0, v) in t ==> Replaced(p4, old(mc.mem), t, old(mc.free), mc.mem, t', mc.free, v)
    ensures NoneNew(old(mc.free), t, mc.free, t')
    // present, write and user, in the new entry and all the way down to it
    ensures Walk(mc.mem, p4, 4, v) % 0x1000 == 7 && SameWalks(old(mc.mem), mc.mem, p4, v, v + 1)
    ensures MayUse(mc.mem, p4, 4, v)
  {
    ghost var m0, free0, head0 := mc.mem, mc.free, mc.stack;
    var f := mc.Alloc();
    ghost var free1 := mc.free;
    assert forall g :: g in free1 ==> g in [f] + free1;
    var e;
    ghost var b, got;
    e, t', b, got := SetPage(mc, p4, addr, Address(f), TABLE_FLAGS, v, t);
    if Node(0, v) !in t {
      MapPageFacts(p4, m0, t, head0, free0, f, free1, mc.mem, b, t', mc.free, got, v, e);
    } else {
      RemapFacts(p4, m0, t, head0, free0, f, free1, mc.mem, b, t', mc.free, got, v, e);
    }
    PageMayUse(mc.mem, p4, t', v);
  }

  lemma {:induction false} RemapFacts(
    p4: Frame, m: Mem, t: Tree, head: Word, free0: seq<Frame>, f: Frame, free1: seq<Frame>,
    m': Mem, b: Tree, t': Tree, free2: seq<Frame>, got: seq<Frame>, v: nat, e: Word)
    requires IsTree(m, p4, t) && Owned(m, t) && (forall n :: n in t ==> t[n] !in free0) && Node(0, v) in t
    requires IsStack(m, head, free0) && free0 == [f] + free1
    requires |got| == TablesMissing(t.Keys, v) && Remapped(p4, m, t, free1, m', b, free2, got, v, e)
    requires b.Keys == t.Keys + TablePath(v) && e / PAGE_SIZE == f && e % PAGE_SIZE == 7 && t' == Stored(b, v, e)
    ensures Owned(m', t') && (forall n :: n in t' ==> t'[n] !in free2)
    ensures t'.Keys == t.Keys + FullPath(v) && Replaced(p4, m, t, free0, m', t', free2, v)
    ensures NoneNew(free0, t, free2, t')
  {
    hide IsTree, IsStack, Walk, TablesMissing, TablePath, Owned, Untouched;
    Popped(m, head, free0, f, free1, got, free2);
    PathIsThere(m, p4, t, v);
    SameTree(t, b, v, got);
    assert got == [] && t' == t[Node(0, v) := f];
    RemapKeeps(m, m', t, free0, v, f, free2);
  }

  lemma SameTree(t: Tree, b: Tree, v: nat, got: seq<Frame>)
    requires Grown(t, b, got) && b.Keys == t.Keys + TablePath(v) && t.Keys + TablePath(v) == t.Keys
    ensures b == t
  {
  }

  lemma RemapKeeps(m: Mem, m': Mem, t: Tree, free0: seq<Frame>, v: nat, f: Frame, free2: seq<Frame>)
    requires Owned(m, t) && (forall n :: n in t ==> t[n] !in free0) && Node(0, v) in t
    requires FrameSet(free0) == {f} + FrameSet(free2) && f in free0 && f < |m| && f !in free2
    requires Untouched(m, m', t, [])
    ensures Owned(m', t[Node(0, v) := f]) && forall n :: n in t ==> t[n] !in free2
    ensures Lost(t[Node(0, v)], t[Node(0, v) := f], free2)
    ensures FrameSet(free2) + t[Node(0, v) := f].Values + {t[Node(0, v)]} == FrameSet(free0) + t.Values
    ensures |m'| == |m| && t[Node(0, v)] < |m|
    ensures forall g: Frame :: g < |m| && g !in t.Values && g !in free0 ==> m'[g] == m[g]
    ensures forall u: nat :: Node(0, u) in t ==> t[Node(0, u)] < |m| && m'[t[Node(0, u)]] == m[t[Node(0, u)]]
  {
    ReplacedValues(t, v, f);
    assert forall g :: g in free2 ==> g in FrameSet(free0);
    forall g: Frame | g < |m| && g !in t.Values && g !in free0
      ensures m'[g] == m[g]
    {
      assert NoTableIn(t, g);
    }
    forall u: nat | Node(0, u) in t
      ensures m'[t[Node(0, u)]] == m[t[Node(0, u)]]
    {
      assert NoTableIn(t, t[Node(0, u)]);
    }
  }

  lemma ReplacedValues(t: Tree, v: nat, f: Frame)
    requires Node(0, v) in t && f !in t.Values && forall n, k :: n in t && k in t && t[n] == t[k] ==> n == k
    ensures t[Node(0, v) := f].Values + {t[Node(0, v)]} == t.Values + {f}
    ensures t[Node(0, v)] !in t[Node(0, v) := f].Values
  {
    var c, r := Node(0, v), t[Node(0, v) := f];
    forall x | x in t.Values
      ensures x in r.Values + {t[c]}
    {
      var n :| n in t && t[n] == x;
      assert n != c ==> r[n] == x;
    }
    assert r[c] == f;
  }

  lemma {:induction false} MapPageFacts(
    p4: Frame, m: Mem, t: Tree, head: Word, free0: seq<Frame>, f: Frame, free1: seq<Frame>,
    m': Mem, b: Tree, t': Tree, free2: seq<Frame>, got: seq<Frame>, v: nat, e: Word)
    requires Owned(m, t) && (forall n :: n in t ==> t[n] !in free0) && Node(0, v) !in t
    requires IsStack(m, head, free0) && free0 == [f] + free1
    requires IsTree(m', p4, t') && (forall n :: n in t' && n.level > 0 ==> t'[n] !in free2)
    requires Remapped(p4, m, t, free1, m', b, free2, got, v, e)
    requires b.Keys == t.Keys + TablePath(v) && e / PAGE_SIZE == f && e % PAGE_SIZE == 7 && t' == Stored(b, v, e)
    ensures Owned(m', t') && (forall n :: n in t' ==> t'[n] !in free2)
    ensures t'.Keys == t.Keys + FullPath(v)
    ensures Evolved(p4, m, t, free0, m', t', free2)
  {
    hide IsTree, IsStack, Walk, Stored, TablePath, FullPath, Conserved, Grown, Owned, Untouched, PageKept;
    Popped(m, head, free0, f, free1, got, free2);
    LeafAdded(t, b, t', got, v, f, e);
    TablesOnce(m', p4, b, t', v, f);
    MapConserves(t, free0, f, b, t', got, free2, v);
    MapKeeps(m, m', t, free0, b, t', got, v, f);
    OwnedStill(m, m', t, got);
    MapOwned(m', t, free0, f, b, t', got, v);
    NotFree(t, b, t', got, free0, free2, v, f);
  }

  lemma OwnedStill(m: Mem, m': Mem, t: Tree, got: seq<Frame>)
    requires Owned(m, t) && Untouched(m, m', t, got)
    ensures Owned(m', t) && |m'| == |m|
  {
  }

  lemma LeafAdded(t: Tree, b: Tree, t': Tree, got: seq<Frame>, v: nat, f: Frame, e: Word)
    requires Grown(t, b, got) && Node(0, v) !in t && b.Keys == t.Keys + TablePath(v)
    requires e / PAGE_SIZE == f && e % PAGE_SIZE == 7 && t' == Stored(b, v, e)
    ensures Node(0, v) !in b && t' == b[Node(0, v) := f] && t'.Keys == t.Keys + FullPath(v)
  {
  }

  lemma NotFree(t: Tree, b: Tree, t': Tree, got: seq<Frame>, free0: seq<Frame>, free2: seq<Frame>, v: nat, f: Frame)
    requires Grown(t, b, got) && t' == b[Node(0, v) := f] && forall n :: n in t ==> t[n] !in free0
    requires (forall g :: g in got ==> g !in free2) && (forall g :: g in free2 ==> g in free0) && f !in free2
    ensures forall n :: n in t' ==> t'[n] !in free2
  {
  }

  lemma TablesOnce(m: Mem, p4: Frame, b: Tree, t': Tree, v: nat, f: Frame)
    requires IsTree(m, p4, t') && Node(0, v) !in b && t' == b[Node(0, v) := f]
    ensures forall n, k :: n in b && k in b && n.level > 0 && k.level > 0 && b[n] == b[k] ==> n == k
  {
    forall n, k | n in b && k in b && n.level > 0 && k.level > 0 && b[n] == b[k]
      ensures n == k
    {
      assert n in t' && k in t';
    }
  }

  /** The popped frames: the page's own, then those of new tables, all different. */
  lemma Popped(m: Mem, head: Word, free0: seq<Frame>, f: Frame, free1: seq<Frame>, got: seq<Frame>, free2: seq<Frame>)
    requires IsStack(m, head, free0) && free0 == [f] + free1 && free1 == got + free2
    ensures (forall g :: g in got ==> g < |m| && g in free0 && g !in free2)
    ensures forall g :: g in free2 ==> g in free0
    ensures f in free0 && f < |m| && f !in got && f !in free2
    ensures FrameSet(free0) == {f} + FrameSet(got) + FrameSet(free2)
  {
    StackIsAcyclic(m, head, free0);
    assert free0 == ([f] + got) + free2;
    SplitNoDup(free0, [f] + got, free2);
    SplitNoDup(free0, [f], got + free2);
    assert free0[0] == f;
    forall g | g in got
      ensures g < |m|
    {
      var k :| 0 <= k < |got| && got[k] == g;
      assert free0[k + 1] == g;
    }
  }

  lemma MapOwned(m: Mem, t: Tree, free0: seq<Frame>, f: Frame, b: Tree, t': Tree, got: seq<Frame>, v: nat)
    requires Owned(m, t) && (forall n :: n in t ==> t[n] !in free0)
    requires Grown(t, b, got) && Node(0, v) !in b && t' == b[Node(0, v) := f]
    requires forall n, k :: n in b && k in b && n.level > 0 && k.level > 0 && b[n] == b[k] ==> n == k
    requires f in free0 && f < |m| && f !in got && forall g :: g in got ==> g < |m| && g in free0
    ensures Owned(m, t')
  {
    forall n | n in b
      ensures b[n] < |m| && b[n] != f
    {
    }
    forall n, k | n in b && k in b && b[n] == b[k]
      ensures n == k
    {
    }
  }

  lemma MapConserves(t: Tree, free0: seq<Frame>, f: Frame, b: Tree, t': Tree, got: seq<Frame>, free2: seq<Frame>,
                     v: nat)
    requires Grown(t, b, got) && Node(0, v) !in b && t' == b[Node(0, v) := f]
    requires FrameSet(free0) == {f} + FrameSet(got) + FrameSet(free2)
    ensures Conserved(free0, t, free2, t')
  {
    AddedValue(b, Node(0, v), f);
  }

  lemma MapKeeps(m: Mem, m': Mem, t: Tree, free0: seq<Frame>, b: Tree, t': Tree, got: seq<Frame>, v: nat, f: Frame)
    requires Owned(m, t) && (forall n :: n in t ==> t[n] !in free0) && (forall g :: g in got ==> g in free0)
    requires Untouched(m, m', t, got) && Grown(t, b, got) && Node(0, v) !in b && t' == b[Node(0, v) := f]
    ensures forall g: Frame :: g < |m| && g !in t.Values && g !in free0 ==> m'[g] == m[g]
    ensures forall u: nat :: Node(0, u) in t && Node(0, u) in t' ==> PageKept(m, t, m', t', u)
  {
    forall g: Frame | g < |m| && g !in t.Values && g !in free0
      ensures m'[g] == m[g]
    {
      assert NoTableIn(t, g);
    }
    forall u: nat | Node(0, u) in t && Node(0, u) in t'
      ensures PageKept(m, t, m', t', u)
    {
      assert NoTableIn(t, t[Node(0, u)]);
    }
  }

  /** pmm_free(vmm_get_page(P4, addr)) and vmm_set_page(P4, addr, 0, 0) on a mapped page. */
  method UnmapPage(mc: Machine, p4: Frame, addr: nat, ghost v: nat, ghost t: Tree) returns (ghost t': Tree)
    requires Holds(mc, p4, t) && v == PageOf(addr) < USER_PAGES && Node(0, v) in t
    modifies mc
    ensures Holds(mc, p4, t') && t' == t - {Node(0, v)}
    ensures mc.free == [t[Node(0, v)]] + old(mc.free)
    ensures Evolved(p4, old(mc.mem), t, old(mc.free), mc.mem, t', mc.free)
    ensures SameWalks(old(mc.mem), mc.mem, p4, v, v + 1)
  {
    ghost var m0, free0 := mc.mem, mc.free;
    ReleasePage(mc, p4, addr, v, t);
    ghost var m1 := mc.mem;
    PathIsThere(m1, p4, t, v);
    ClearPage(mc, p4, addr, v, t);
    t' := t - {Node(0, v)};
    UnmapKeeps(p4, m0, free0, m1, mc.mem, t, v);
  }

  method ReleasePage(mc: Machine, p4: Frame, addr: nat, ghost v: nat, ghost t: Tree)
    requires Holds(mc, p4, t) && v == PageOf(addr) < USER_PAGES && Node(0, v) in t
    modifies mc`mem, mc`stack, mc`running, mc`free
    ensures Live(mc, p4, t) && mc.free == [t[Node(0, v)]] + old(mc.free) && |mc.mem| == |old(mc.mem)|
    ensures forall g: Frame :: g < |mc.mem| && g != t[Node(0, v)] ==> mc.mem[g] == old(mc.mem[g])
    ensures SameWalks(old(mc.mem), mc.mem, p4, 0, 0)
  {
    ghost var m0 := mc.mem;
    Reachable(m0, p4, t, v);
    var ph := GetPage(mc, p4, addr);
    mc.Free(ph);
    TreeFrame(m0, mc.mem, p4, t);
    WalksStay(m0, mc.mem, p4, t);
  }

  /** vmm_set_page(P4, addr, 0, 0) where all the tables exist already. */
  method ClearPage(mc: Machine, p4: Frame, addr: nat, ghost v: nat, ghost t: Tree)
    requires Live(mc, p4, t) && v == PageOf(addr) < USER_PAGES
    requires TablesMissing(t.Keys, v) == 0 && t.Keys + TablePath(v) == t.Keys
    modifies mc`pos, mc`stack, mc`free, mc`mem
    ensures Live(mc, p4, t - {Node(0, v)}) && mc.free == old(mc.free)
    ensures Untouched(old(mc.mem), mc.mem, t, [])
    ensures p4 < |mc.mem| && mc.mem[p4][KERNEL_SLOT] == old(mc.mem[p4][KERNEL_SLOT])
    ensures SameWalks(old(mc.mem), mc.mem, p4, v, v + 1)
  {
    hide AddFlags, Or12, Or, Walk;
    AddNothing();
    var e;
    ghost var t', b, got;
    e, t', b, got := SetPage(mc, p4, addr, 0, 0, v, t);
    assert b == t && got == [] && e == 0;
  }

  lemma Reachable(m: Mem, p4: Frame, t: Tree, v: nat)
    requires IsTree(m, p4, t) && v < USER_PAGES && Node(0, v) in t
    ensures WalkOk(m, p4, 4, v) && Walk(m, p4, 4, v) / PAGE_SIZE == t[Node(0, v)]
  {
    KeyInRange(v, 4);
    TreeWalkOk(m, p4, t, 4, v);
    WalkIsEntry(m, p4, t, v);
    MappedIffEntry(m, p4, t, v);
  }

  /** A mapped page has all its tables. */
  lemma PathIsThere(m: Mem, p4: Frame, t: Tree, v: nat)
    requires IsTree(m, p4, t) && Node(0, v) in t
    ensures TablesMissing(t.Keys, v) == 0 && t.Keys + TablePath(v) == t.Keys
  {
    assert HasParent(t, Node(0, v));
    assert Up(Node(0, v)) == Node(1, Key(v, 1));
    assert HasParent(t, Node(1, Key(v, 1)));
    assert Up(Node(1, Key(v, 1))) == Node(2, Key(v, 2));
    assert HasParent(t, Node(2, Key(v, 2)));
    assert Up(Node(2, Key(v, 2))) == Node(3, Key(v, 3));
  }

  lemma UnmapKeeps(p4: Frame, m: Mem, free: seq<Frame>, m1: Mem, m2: Mem, t: Tree, v: nat)
    requires Owned(m, t) && Node(0, v) in t && p4 < |m| && |m1| == |m|
    requires ROOT in t && t[ROOT] == p4
    requires forall g: Frame :: g < |m| && g != t[Node(0, v)] ==> m1[g] == m[g]
    requires Untouched(m1, m2, t, []) && m2[p4][KERNEL_SLOT] == m1[p4][KERNEL_SLOT]
    ensures Evolved(p4, m, t, free, m2, t - {Node(0, v)}, [t[Node(0, v)]] + free)
  {
    var t', f := t - {Node(0, v)}, t[Node(0, v)];
    FreedConserves(free, t, Node(0, v));
    assert f in t.Values;
    forall g: Frame | g < |m| && g !in t.Values && g !in free
      ensures m2[g] == m[g]
    {
      assert NoTableIn(t, g);
    }
    forall u: nat | Node(0, u) in t && Node(0, u) in t'
      ensures PageKept(m, t, m2, t', u)
    {
      assert NoTableIn(t, t[Node(0, u)]);
    }
  }

  // ---- Ranges of pages ----

  /** The first page at or after byte `end`. */
  function PagesEnd(end: nat): (w: nat)
    ensures end <= w * 0x1000 && (w > 0 ==> (w - 1) * 0x1000 < end)
  {
    (end + 0xFFF) / 0x1000
  }

  /** How many frames mapping the pages v..w-1 pops, given the nodes k that exist. */
  ghost function Need(k: set<Node>, v: nat, w: nat): nat
    decreases w - v
  {
    if v >= w then 0 else 1 + TablesMissing(k, v) + Need(k + FullPath(v), v + 1, w)
  }

  lemma {:induction false} NeedAtMost(k: set<Node>, v: nat, w: nat)
    ensures Need(k, v, w) <= if v < w then 4 * (w - v) else 0
    decreases w - v
  {
    if v < w {
      NeedAtMost(k + FullPath(v), v + 1, w);
    }
  }

  ghost function KeysWith(k: set<Node>, v: nat, w: nat): set<Node>
    decreases w - v
  {
    if v >= w then k else KeysWith(k + FullPath(v), v + 1, w)
  }

  lemma {:induction false} KeysGrow(k: set<Node>, v: nat, w: nat)
    ensures k <= KeysWith(k, v, w)
    decreases w - v
  {
    if v < w {
      KeysGrow(k + FullPath(v), v + 1, w);
    }
  }

  ghost predicate LeavesPlus(t: Tree, t': Tree, v: nat, w: nat) {
    forall u: nat :: Node(0, u) in t' <==> Node(0, u) in t || v <= u < w
  }

  ghost predicate LeavesMinus(t: Tree, t': Tree, v: nat, w: nat) {
    forall u: nat :: Node(0, u) in t' <==> Node(0, u) in t && !(v <= u < w)
  }

  lemma OneMoreLeaf(t0: Tree, t: Tree, t': Tree, v0: nat, v: nat, j: nat)
    requires LeavesPlus(t0, t, v0, v) && v0 <= v && j == v + 1 && t'.Keys == t.Keys + FullPath(v)
    ensures LeavesPlus(t0, t', v0, j)
    ensures forall u: nat :: Node(0, u) in t' <==> Node(0, u) in t || u == v
  {
    forall u: nat
      ensures Node(0, u) in t' <==> Node(0, u) in t || u == v
    {
      assert Node(0, u) in t'.Keys <==> Node(0, u) in t.Keys || Node(0, u) in FullPath(v);
    }
  }

  lemma OneLessLeaf(t0: Tree, t: Tree, t': Tree, v0: nat, v: nat, j: nat)
    requires LeavesMinus(t0, t, v0, v) && v0 <= v && j == v + 1 && t' == t - {Node(0, v)}
    ensures LeavesMinus(t0, t', v0, j)
  {
    forall u: nat
      ensures Node(0, u) in t' <==> Node(0, u) in t && u != v
    {
    }
  }

  /** Pages v..w-1 are present, and user code may write them. */
  ghost predicate NewPages(m: Mem, p4: Frame, v: nat, w: nat) {
    forall u: nat :: v <= u < w ==> Walk(m, p4, 4, u) % 0x1000 == 7
  }

  lemma OneMorePage(m0: Mem, m1: Mem, m: Mem, p4: Frame, v: nat, k: nat, j: nat)
    requires v <= k < USER_PAGES && j == k + 1 && NewPages(m1, p4, v, k) && SameWalks(m0, m1, p4, v, k)
    requires Walk(m, p4, 4, k) % 0x1000 == 7 && SameWalks(m1, m, p4, k, j)
    ensures NewPages(m, p4, v, j) && SameWalks(m0, m, p4, v, j)
  {
    hide Walk;
  }

  lemma MorePages(m: Mem, m': Mem, p4: Frame, t: Tree, t': Tree, v: nat, w: nat)
    requires UserPages(m, p4, t) && NewPages(m', p4, v, w) && SameWalks(m, m', p4, v, w) && LeavesPlus(t, t', v, w)
    ensures UserPages(m', p4, t')
  {
    hide Walk;
  }

  lemma FewerPages(m: Mem, m': Mem, p4: Frame, t: Tree, t': Tree, v: nat, w: nat)
    requires UserPages(m, p4, t) && SameWalks(m, m', p4, v, w) && LeavesMinus(t, t', v, w)
    ensures UserPages(m', p4, t')
  {
    hide Walk;
  }

  /** The state of the mapping loop before page k. */
  ghost predicate MappedTo(p4: Frame, m0: Mem, t0: Tree, free0: seq<Frame>, m: Mem, t: Tree, free: seq<Frame>,
                           v: nat, k: nat, w: nat) {
    && LeavesPlus(t0, t, v, k)
    && KeysWith(t.Keys, k, w) == KeysWith(t0.Keys, v, w)
    && |free| - Need(t.Keys, k, w) == |free0| - Need(t0.Keys, v, w)
    && Evolved(p4, m0, t0, free0, m, t, free)
  }

  lemma MappedOneMore(p4: Frame, m0: Mem, t0: Tree, free0: seq<Frame>, m1: Mem, t1: Tree, free1: seq<Frame>,
                      m: Mem, t: Tree, free: seq<Frame>, v: nat, k: nat, w: nat, j: nat)
    requires MappedTo(p4, m0, t0, free0, m1, t1, free1, v, k, w) && v <= k < w && j == k + 1
    requires t.Keys == t1.Keys + FullPath(k) && |free| == |free1| - 1 - TablesMissing(t1.Keys, k)
    requires Evolved(p4, m1, t1, free1, m, t, free)
    ensures MappedTo(p4, m0, t0, free0, m, t, free, v, j, w)
  {
    OneMoreLeaf(t0, t1, t, v, k, j);
    EvolvedTwice(p4, m0, t0, free0, m1, t1, free1, m, t, free);
  }

  /** The mapping loop of procmm_map and procmm_resize, over unmapped pages v..w-1. It pops
      exactly Need frames. */
  method MapPages(mc: Machine, p4: Frame, start: nat, end: nat, ghost v: nat, ghost w: nat, ghost t: Tree)
    returns (ghost t': Tree)
    requires Holds(mc, p4, t) && start == v * 0x1000 && w == PagesEnd(end) <= USER_PAGES
    requires forall u: nat :: v <= u < w ==> Node(0, u) !in t
    requires |mc.free| >= Need(t.Keys, v, w)
    modifies mc`pos, mc`stack, mc`free, mc`mem
    ensures Holds(mc, p4, t') && LeavesPlus(t, t', v, w) && t'.Keys == KeysWith(t.Keys, v, w)
    ensures |mc.free| == |old(mc.free)| - Need(t.Keys, v, w)
    ensures Evolved(p4, old(mc.mem), t, old(mc.free), mc.mem, t', mc.free)
    ensures NewPages(mc.mem, p4, v, w) && SameWalks(old(mc.mem), mc.mem, p4, v, w)
  {
    hide Walk, MayUse;
    t' := t;
    ghost var m0, free0, k := mc.mem, mc.free, v;
    EvolvedNot(p4, m0, t, free0);
    var p := start;
    while p < end
      invariant p == k * 0x1000 && v <= k && (k <= w || k == v)
      invariant Holds(mc, p4, t') && MappedTo(p4, m0, t, free0, mc.mem, t', mc.free, v, k, w)
      invariant NewPages(mc.mem, p4, v, k) && SameWalks(m0, mc.mem, p4, v, k)
    {
      ghost var m1, free1, t1, j := mc.mem, mc.free, t', k + 1;
      assert PageOf(p) == k && k < w;
      t' := MapPage(mc, p4, p, k, t1);
      MappedOneMore(p4, m0, t, free0, m1, t1, free1, mc.mem, t', mc.free, v, k, w, j);
      OneMorePage(m0, m1, mc.mem, p4, v, k, j);
      p := p + PAGE_SIZE;
      k := j;
    }
  }

  /** The loop of procmm_unmap over mapped pages v..w-1. */
  method UnmapPages(mc: Machine, p4: Frame, start: nat, end: nat, ghost v: nat, ghost w: nat, ghost t: Tree)
    returns (ghost t': Tree)
    requires Holds(mc, p4, t) && start == v * 0x1000 && w == PagesEnd(end) <= USER_PAGES
    requires forall u: nat :: v <= u < w ==> Node(0, u) in t
    modifies mc
    ensures Holds(mc, p4, t') && LeavesMinus(t, t', v, w) && |mc.free| >= |old(mc.free)|
    ensures Evolved(p4, old(mc.mem), t, old(mc.free), mc.mem, t', mc.free)
    ensures SameWalks(old(mc.mem), mc.mem, p4, v, w)
  {
    hide Walk;
    t' := t;
    ghost var m0, free0, k := mc.mem, mc.free, v;
    EvolvedNot(p4, m0, t, free0);
    var p := start;
    while p < end
      invariant p == k * 0x1000 && v <= k && (k <= w || k == v)
      invariant Holds(mc, p4, t') && LeavesMinus(t, t', v, k) && |mc.free| >= |free0|
      invariant SameWalks(m0, mc.mem, p4, v, k)
      invariant Evolved(p4, m0, t, free0, mc.mem, t', mc.free)
    {
      ghost var m1, free1, t1, j := mc.mem, mc.free, t', k + 1;
      assert PageOf(p) == k && k < w;
      t' := UnmapPage(mc, p4, p, k, t1);
      OneLessLeaf(t, t1, t', v, k, j);
      EvolvedTwice(p4, m0, t, free0, m1, t1, free1, mc.mem, t', mc.free);
      p := p + PAGE_SIZE;
      k := j;
    }
  }
}
