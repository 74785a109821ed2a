/** Process address spaces: the areas of kernel/proc/procmm.c and the pages behind them. */
module AddressSpaces {
  import opened Common
  import opened PhysicalMemory
  import opened FrameAllocator
  import opened PageTables
  import opened TableTeardown
  import opened PageCopy
  import opened PageMapping

  const USERSPACE_TOP: nat := 0x8000_0000_0000

  datatype Area = Area(start: nat, end: nat, flags: nat) {
    ghost predicate Has(v: nat) { start <= v * 0x1000 < end }
  }

  ghost predicate AreaOk(a: Area) { a.start % 0x1000 == 0 && a.start <= a.end <= USER_END }

  /** Page-aligned starts, ascending and disjoint. */
  ghost predicate AreasOk(s: seq<Area>) {
    && (forall i :: 0 <= i < |s| ==> AreaOk(s[i]))
    && (forall i, j :: 0 <= i < j < |s| ==> s[i].end <= s[j].start)
  }

  ghost predicate Covered(s: seq<Area>, v: nat) {
    exists i :: 0 <= i < |s| && s[i].Has(v)
  }

  /** The mapped user pages are exactly those the areas cover. */
  ghost predicate MapsAreas(t: Tree, s: seq<Area>) {
    forall v: nat :: Node(0, v) in t <==> Covered(s, v)
  }

  lemma AreaPages(a: Area, v: nat, w: nat)
    requires AreaOk(a) && v == PageOf(a.start) && w == PagesEnd(a.end)
    ensures a.start == v * 0x1000 && w <= USER_PAGES
    ensures forall u: nat :: a.Has(u) <==> v <= u < w
  {
  }

  lemma CoveredAppend(s: seq<Area>, a: Area)
    ensures forall v: nat :: Covered(s + [a], v) <==> Covered(s, v) || a.Has(v)
  {
    forall v: nat
      ensures Covered(s + [a], v) <==> Covered(s, v) || a.Has(v)
    {
      if Covered(s, v) {
        var i :| 0 <= i < |s| && s[i].Has(v);
        assert (s + [a])[i].Has(v);
      }
      if a.Has(v) {
        assert (s + [a])[|s|].Has(v);
      }
      if Covered(s + [a], v) {
        var i :| 0 <= i < |s + [a]| && (s + [a])[i].Has(v);
        assert i < |s| ==> s[i].Has(v);
      }
    }
  }

  function Without(s: seq<Area>, i: nat): seq<Area>
    requires i < |s|
  {
    s[..i] + s[i + 1..]
  }

  /** Where the area at a position ends up when area i is taken out. */
  function Shifted(o: Option<nat>, i: nat): Option<nat> {
    match o
    case None => None
    case Some(k) => if k < i then o else if k == i then None else Some(k - 1)
  }

  lemma WithoutOk(s: seq<Area>, i: nat)
    requires AreasOk(s) && i < |s|
    ensures AreasOk(Without(s, i))
  {
    var r := Without(s, i);
    assert forall k :: 0 <= k < |r| ==> r[k] == s[if k < i then k else k + 1];
  }

  lemma CoveredWithout(s: seq<Area>, i: nat)
    requires AreasOk(s) && i < |s|
    ensures forall v: nat :: Covered(Without(s, i), v) <==> Covered(s, v) && !s[i].Has(v)
  {
    forall v: nat
      ensures Covered(Without(s, i), v) <==> Covered(s, v) && !s[i].Has(v)
    {
      if Covered(Without(s, i), v) {
        LeftFrom(s, i, v);
      }
      if Covered(s, v) && !s[i].Has(v) {
        LeftTo(s, i, v);
      }
    }
  }

  lemma LeftFrom(s: seq<Area>, i: nat, v: nat)
    requires AreasOk(s) && i < |s| && Covered(Without(s, i), v)
    ensures Covered(s, v) && !s[i].Has(v)
  {
    var r := Without(s, i);
    var k :| 0 <= k < |r| && r[k].Has(v);
    var j := if k < i then k else k + 1;
    assert s[j] == r[k];
  }

  lemma LeftTo(s: seq<Area>, i: nat, v: nat)
    requires i < |s| && Covered(s, v) && !s[i].Has(v)
    ensures Covered(Without(s, i), v)
  {
    var j :| 0 <= j < |s| && s[j].Has(v);
    assert Without(s, i)[if j < i then j else j - 1] == s[j];
  }

  /** The length procmm_resize settles for, given where the next area starts. */
  function ClampedLen(start: nat, len: nat, next: nat): (n: nat)
    ensures start <= next ==> start + n == Min(start + len, next)
  {
    var max := if next < start then KERNEL_OFFSET else next;
    if start + len > max then if max < start then 0 else max - start else len
  }

  /** Where procmm_resize lets area i end. */
  function NewEnd(s: seq<Area>, i: nat, len: nat): nat
    requires i + 1 < |s|
  {
    Min(s[i].start + len, s[i + 1].start)
  }

  lemma EndsBefore(s: seq<Area>, i: nat, len: nat, end: nat)
    requires AreasOk(s) && i + 1 < |s| && s[i].end < s[i].start + len
    requires end == s[i].start + ClampedLen(s[i].start, len, s[i + 1].start)
    ensures end == NewEnd(s, i, len) && s[i].end <= end <= s[i + 1].start
    ensures end - s[i].start <= len && (end - s[i].start == len || end == s[i + 1].start)
  {
    assert AreaOk(s[i]);
  }

  function HeapStart(s: seq<Area>): nat
    requires s != []
  {
    (s[|s| - 1].end + 0x1000) / 0x1000 * 0x1000
  }

  class Space {
    const mc: Machine
    const p4: Frame
    var areas: seq<Area>
    /** Positions of the areas that map->brk and map->stack point to. */
    var brk: Option<nat>
    var stack: Option<nat>
    ghost var t: Tree
    /** The entry through which every space reaches the kernel's tables. */
    ghost const kernel: Word

    /** Frame 0, which the kernel reads as "unmapped", is not in play. */
    ghost predicate Bounds()
      reads this, mc`free
    {
      && 0 !in mc.free && 0 !in t.Values
      && (brk.Some? ==> brk.value < |areas|)
      && (stack.Some? ==> stack.value < |areas|)
    }

    /** The areas are in order and the mapped pages are exactly theirs. */
    ghost predicate Ordered()
      reads `areas, `t
    {
      AreasOk(areas) && MapsAreas(t, areas)
    }

    /** Every frame has one owner, user code may use every mapped page, and the kernel is where
        it is in every space. */
    ghost predicate Sound()
      reads this, mc
    {
      Holds(mc, p4, t) && Bounds() && UserPages(mc.mem, p4, t) && KernelIn(mc.mem, p4, kernel)
    }

    ghost predicate Valid()
      reads this, mc
    {
      Sound() && Ordered()
    }

    /** procmm_new_map without a source. */
    constructor (mc: Machine, boot: Frame)
      requires mc.Valid() && mc.running && mc.free != [] && 0 !in mc.free
      requires boot < |mc.mem| && boot !in mc.free
      modifies mc`pos, mc`stack, mc`free, mc`mem
      ensures this.mc == mc && Valid() && areas == [] && brk == stack == None && t == map[ROOT := p4]
      ensures old(mc.free) == [p4] + mc.free && |mc.mem| == |old(mc.mem)|
      ensures kernel == old(mc.mem[boot][511])
      ensures forall f: Frame :: f < |mc.mem| && f !in old(mc.free) ==> mc.mem[f] == old(mc.mem[f])
    {
      kernel := mc.mem[boot][KERNEL_SLOT];
      var p := NewP4(mc, boot);
      this.mc, p4, areas, brk, stack := mc, p, [], None, None;
      t := map[ROOT := p];
      new;
      assert old(mc.free)[0] == p4;
      assert p4 in old(mc.free) && forall g :: g in mc.free ==> g in old(mc.free);
      StackIsAcyclicHere();
    }

    lemma StackIsAcyclicHere()
      requires mc.Valid()
      ensures NoDup(mc.free)
    {
      StackIsAcyclic(mc.mem, mc.stack, mc.free);
    }

    /** procmm_map for an area at or above all others. The check refuses an area that so
        much as touches an existing one. */
    method Map(start: nat, end: nat, flags: nat) returns (ok: bool)
      requires Valid() && start % 0x1000 == 0 && start <= end <= USER_END
      requires forall i :: 0 <= i < |areas| ==> areas[i].start <= end
      requires (forall i :: 0 <= i < |areas| ==> areas[i].end < start) ==>
        |mc.free| >= Need(t.Keys, PageOf(start), PagesEnd(end))
      modifies this`areas, this`t, mc`pos, mc`stack, mc`free, mc`mem
      ensures Valid()
      ensures ok <==> forall i :: 0 <= i < |old(areas)| ==> old(areas)[i].end < start
      ensures ok ==> areas == old(areas) + [Area(start, end, flags)]
      ensures ok ==> |mc.free| == |old(mc.free)| - Need(old(t).Keys, PageOf(start), PagesEnd(end))
      ensures ok ==> t.Keys == KeysWith(old(t).Keys, PageOf(start), PagesEnd(end))
      ensures Evolved(p4, old(mc.mem), old(t), old(mc.free), mc.mem, t, mc.free)
      ensures !ok ==> areas == old(areas) && t == old(t) && mc.mem == old(mc.mem) && mc.free == old(mc.free)
    {
      EvolvedNot(p4, mc.mem, t, mc.free);
      hide Holds, Evolved;
      var hit := Overlaps(start, end);
      if hit {
        return false;
      }
      AddArea(Area(start, end, flags), PageOf(start), PagesEnd(end));
      ok := true;
    }

    /** The second half of procmm_map: the new area, then the page loop. */
    method AddArea(a: Area, ghost v: nat, ghost w: nat)
      requires Valid() && AreaOk(a) && v == PageOf(a.start) && w == PagesEnd(a.end)
      requires forall i :: 0 <= i < |areas| ==> areas[i].end < a.start
      requires |mc.free| >= Need(t.Keys, v, w)
      modifies this`areas, this`t, mc`pos, mc`stack, mc`free, mc`mem
      ensures Valid() && areas == old(areas) + [a]
      ensures |mc.free| == |old(mc.free)| - Need(old(t).Keys, v, w) && t.Keys == KeysWith(old(t).Keys, v, w)
      ensures Evolved(p4, old(mc.mem), old(t), old(mc.free), mc.mem, t, mc.free)
    {
      hide Holds, Evolved;
      ghost var t1, free1 := t, mc.free;
      AreaPages(a, v, w);
      AboveIsUnmapped(t, areas, a, v, w);
      t := MapPages(mc, p4, a.start, a.end, v, w, t);
      ZeroStaysOut(p4, old(mc.mem), t1, free1, mc.mem, t, mc.free);
      MorePages(old(mc.mem), mc.mem, p4, t1, t, v, w);
      KernelStays(p4, old(mc.mem), t1, free1, mc.mem, t, mc.free, v, kernel);
      MapsMore(t1, t, areas, a, v, w);
      areas := areas + [a];
    }

    /** The overlap test of procmm_map, whose comparisons count touching as overlapping. */
    method Overlaps(start: nat, end: nat) returns (hit: bool)
      ensures hit <==> exists i :: 0 <= i < |areas| && start <= areas[i].end && areas[i].start <= end
    {
      var i := 0;
      while i < |areas|
        invariant i <= |areas| && forall k :: 0 <= k < i ==> areas[k].end < start || end < areas[k].start
      {
        if !(areas[i].end < start || areas[i].start > end) {
          return true;
        }
        i := i + 1;
      }
      hit := false;
    }

    /** procmm_unmap: the pages of area i go back to the free stack. */
    method Unmap(i: nat)
      requires Valid() && i < |areas|
      modifies this, mc
      ensures Valid() && areas == Without(old(areas), i)
      ensures brk == Shifted(old(brk), i) && stack == Shifted(old(stack), i)
      ensures |mc.free| >= |old(mc.free)|
      ensures Evolved(p4, old(mc.mem), old(t), old(mc.free), mc.mem, t, mc.free)
    {
      hide Holds, Evolved;
      var a := areas[i];
      ghost var v, w, free0, t1 := PageOf(a.start), PagesEnd(a.end), mc.free, t;
      AreaPages(a, v, w);
      AreaIsMapped(t, areas, i, v, w);
      t := UnmapPages(mc, p4, a.start, a.end, v, w, t);
      ZeroStaysOut(p4, old(mc.mem), t1, free0, mc.mem, t, mc.free);
      FewerPages(old(mc.mem), mc.mem, p4, t1, t, v, w);
      KernelStays(p4, old(mc.mem), t1, free0, mc.mem, t, mc.free, v, kernel);
      WithoutOk(areas, i);
      CoveredWithout(areas, i);
      areas := areas[..i] + areas[i + 1..];
      brk, stack := Shifted(brk, i), Shifted(stack, i);
    }

    lemma InOrder()
      requires Valid()
      ensures AreasOk(areas)
    {
    }

    /** procmm_setup: the heap area on the first page past the last area's end, then an empty
        stack area at the top of user space, unless the heap reaches it. */
    method Setup(size: nat) returns (start: nat)
      requires Valid() && areas != []
      requires HeapStart(areas) <= USERSPACE_TOP && HeapStart(areas) + size <= USER_END
      requires |mc.free| >= Need(t.Keys, PageOf(HeapStart(areas)), PagesEnd(HeapStart(areas) + size))
      modifies this`areas, this`t, this`brk, this`stack, mc`pos, mc`stack, mc`free, mc`mem
      ensures Valid() && start == HeapStart(old(areas))
      // the first page boundary past the last area's end
      ensures start % 0x1000 == 0 && start - 0x1000 <= old(areas)[|old(areas)| - 1].end < start
      ensures brk == Some(|old(areas)|)
      ensures var heap := old(areas) + [Area(start, start + size, 0)];
        if start + size < 0x8000_0000_0000
        then areas == heap + [Area(0x8000_0000_0000, 0x8000_0000_0000, 0)] && stack == Some(|old(areas)| + 1)
        else areas == heap && stack == None
      ensures Conserved(old(mc.free), old(t), mc.free, t)
      ensures |mc.free| == |old(mc.free)| - Need(old(t).Keys, PageOf(start), PagesEnd(start + size))
      ensures |mc.mem| == |old(mc.mem)|
      ensures forall f: Frame :: f < |mc.mem| && f !in old(t).Values && f !in old(mc.free) ==>
        mc.mem[f] == old(mc.mem[f])
    {
      hide Holds, Need, KeysWith, Space.Ordered, MapsAreas;
      ghost var m0, t0, free0 := mc.mem, t, mc.free;
      InOrder();
      LastIsHighest(areas);
      start := (areas[|areas| - 1].end + 0x1000) / 0x1000 * 0x1000;
      var heap := |areas|;
      var ok := Map(start, start + size, 0);
      brk, stack := Some(heap), None;
      ghost var m1, t1, free1 := mc.mem, t, mc.free;
      NoPages(t.Keys);
      assert areas[heap] == Area(start, start + size, 0);
      ok := Map(USERSPACE_TOP, USERSPACE_TOP, 0);
      OutsideTwice(p4, m0, t0, free0, m1, t1, free1, mc.mem, t, mc.free);
      if ok {
        stack := Some(heap + 1);
      }
    }

    /** procmm_resize, growing area i towards the next one. The page loop starts one page
        past an old end that is a page multiple, so the result is right exactly when it is
        not, or when nothing was added. None: the call that never returns. */
    method Resize(i: nat, len: nat, ghost v: nat, ghost w: nat) returns (r: Option<nat>)
      requires Valid() && i + 1 < |areas| && v == PageOf(areas[i].end + 0x1000) && w == PagesEnd(NewEnd(areas, i, len))
      requires len > areas[i].end - areas[i].start ==> |mc.free| >= Need(t.Keys, v, w)
      modifies this`areas, this`t, mc`pos, mc`stack, mc`free, mc`mem
      ensures r.None? <==> len <= old(areas)[i].end - old(areas)[i].start
      ensures |mc.free| == |old(mc.free)| - if r.Some? then Need(old(t).Keys, v, w) else 0
      ensures r.None? ==> areas == old(areas) && t == old(t) && mc.mem == old(mc.mem) && mc.free == old(mc.free)
      ensures r.Some? ==> r.value == NewEnd(old(areas), i, len) - old(areas)[i].start
      ensures r.Some? ==> areas == old(areas)[i := old(areas)[i].(end := NewEnd(old(areas), i, len))]
      // as much as was asked for, or up to the next area
      ensures r.Some? ==> r.value <= len && areas[i].end <= old(areas)[i + 1].start
      ensures r.Some? ==> r.value == len || areas[i].end == old(areas)[i + 1].start
      ensures r.Some? ==> Sound() && AreasOk(areas)
      ensures r.Some? ==>
        (MapsAreas(t, areas) <==> old(areas)[i].end % 0x1000 != 0 || areas[i].end == old(areas)[i].end)
      ensures Evolved(p4, old(mc.mem), old(t), old(mc.free), mc.mem, t, mc.free)
    {
      EvolvedNot(p4, mc.mem, t, mc.free);
      hide *;
      var a := areas[i];
      if len <= a.end - a.start {
        return None;
      }
      var n := ClampedLen(a.start, len, areas[i + 1].start);
      var end := a.start + n;
      EndsBefore(areas, i, len, end);
      Extend(i, end, v, w);
      r := Some(n);
    }

    /** The second half of procmm_resize: the new end, then the page loop. */
    method Extend(i: nat, end: nat, ghost v: nat, ghost w: nat)
      requires Valid() && i + 1 < |areas| && areas[i].end <= end <= areas[i + 1].start
      requires v == PageOf(areas[i].end + 0x1000) && w == PagesEnd(end) && |mc.free| >= Need(t.Keys, v, w)
      modifies this`areas, this`t, mc`pos, mc`stack, mc`free, mc`mem
      ensures Sound() && AreasOk(areas) && areas == old(areas)[i := old(areas)[i].(end := end)]
      ensures |mc.free| == |old(mc.free)| - Need(old(t).Keys, v, w)
      ensures MapsAreas(t, areas) <==> old(areas)[i].end % 0x1000 != 0 || end == old(areas)[i].end
      ensures Evolved(p4, old(mc.mem), old(t), old(mc.free), mc.mem, t, mc.free)
    {
      hide Holds, Evolved;
      var a := areas[i];
      var page := (a.end + 0x1000) / 0x1000 * 0x1000;
      ghost var t1, free1 := t, mc.free;
      GapIsUnmapped(t, areas, i, end, v, w);
      t := MapPages(mc, p4, page, end, v, w, t);
      ZeroStaysOut(p4, old(mc.mem), t1, free1, mc.mem, t, mc.free);
      MorePages(old(mc.mem), mc.mem, p4, t1, t, v, w);
      KernelStays(p4, old(mc.mem), t1, free1, mc.mem, t, mc.free, v, kernel);
      ResizeExact(t1, t, areas, i, end, v, w);
      ResizedOk(areas, i, end);
      areas := areas[i := a.(end := end)];
    }

    /** The page the stack grows into when a fault below it is taken. */
    ghost function Below(k: nat): nat
      reads this
      requires k < |areas| && areas[k].start >= 0x1000
    {
      PageOf(areas[k].start - 0x1000)
    }

    ghost predicate Grows(addr: nat)
      reads this
    {
      && addr < KERNEL_OFFSET && stack.Some? && stack.value < |areas|
      && areas[stack.value].start <= addr + 0x1000
    }

    /** The growing branch of procmm_page_fault. The stack takes one more page without asking
        whether another area has it: the address space stays valid exactly when all lower
        areas end below that page, and a frame is lost exactly when one of them covers it. */
    method GrowStack(k: nat, ghost v: nat)
      requires Valid() && k < |areas| && areas[k].start >= 0x1000 && v == Below(k)
      requires |mc.free| >= 1 + TablesMissing(t.Keys, v)
      modifies this`areas, this`t, mc`pos, mc`stack, mc`free, mc`mem
      ensures Sound() && areas == old(areas)[k := old(areas)[k].(start := old(areas)[k].start - 0x1000)]
      ensures |mc.free| == |old(mc.free)| - 1 - TablesMissing(old(t).Keys, v)
      ensures MayUse(mc.mem, p4, 4, v)
      ensures Valid() <==> forall j :: 0 <= j < k ==> old(areas)[j].end <= old(areas)[k].start - 0x1000
      ensures !Covered(old(areas), v) ==> Evolved(p4, old(mc.mem), old(t), old(mc.free), mc.mem, t, mc.free)
      ensures Covered(old(areas), v) ==> Replaced(p4, old(mc.mem), old(t), old(mc.free), mc.mem, t, mc.free, v)
    {
      hide Holds, Evolved, Replaced, TablesMissing, FullPath, NoneNew, UserPages, SameWalks, Walk, MayUse;
      var start := areas[k].start - 0x1000;
      ghost var t1, free1 := t, mc.free;
      StackPage(areas, k, v);
      t := MapPage(mc, p4, start, v, t);
      ZeroNotTaken(free1, t1, mc.free, t);
      OnePage(old(mc.mem), mc.mem, p4, t1, t, v);
      KernelStays(p4, old(mc.mem), t1, free1, mc.mem, t, mc.free, v, kernel);
      GrownExact(t1, t, areas, k, v);
      areas := areas[k := areas[k].(start := start)];
    }

    /** procmm_page_fault. */
    method PageFault(addr: nat) returns (handled: bool)
      requires Valid()
      requires Grows(addr) ==> areas[stack.value].start >= 0x1000
      requires Grows(addr) ==> |mc.free| >= 1 + TablesMissing(t.Keys, Below(stack.value))
      modifies this`areas, this`t, mc`pos, mc`stack, mc`free, mc`mem
      ensures handled == old(Grows(addr))
      // a fault in user space, no more than a page below the stack
      ensures old(stack).Some? ==> old(stack).value < |old(areas)|
      ensures handled <==>
        old(stack).Some? && addr < 0xFFFF_FF80_0000_0000 && old(areas)[old(stack).value].start - 0x1000 <= addr
      // afterwards the page of a fault below the stack can be used
      ensures handled && addr < old(areas)[old(stack).value].start ==> MayUse(mc.mem, p4, 4, PageOf(addr))
      ensures |mc.free| >= |old(mc.free)| - 4
      ensures !handled ==>
        Valid() && areas == old(areas) && t == old(t) && mc.mem == old(mc.mem) && mc.free == old(mc.free)
      ensures handled ==> Sound()
      ensures handled ==> var k, s := stack.value, old(areas);
        && areas == s[k := s[k].(start := s[k].start - 0x1000)]
        && (Valid() <==> forall j :: 0 <= j < k ==> s[j].end <= s[k].start - 0x1000)
      ensures handled ==> var v := old(Below(stack.value));
        && (!Covered(old(areas), v) ==> Evolved(p4, old(mc.mem), old(t), old(mc.free), mc.mem, t, mc.free))
        && (Covered(old(areas), v) ==> Replaced(p4, old(mc.mem), old(t), old(mc.free), mc.mem, t, mc.free, v))
    {
      hide Holds, Evolved, Replaced, MapsAreas, AreasOk, Covered, MayUse, UserPages;
      if addr >= KERNEL_OFFSET {
        return false;
      }
      if stack.Some? {
        if areas[stack.value].start <= addr + 0x1000 {
          ghost var v, start := Below(stack.value), areas[stack.value].start;
          InOrder();
          StackPage(areas, stack.value, v);
          GrowStack(stack.value, v);
          if addr < start {
            FaultPage(start, addr, v);
          }
          return true;
        }
      }
      handled := false;
    }

    /** procmm_free_map: afterwards the free stack holds, once each, exactly the frames that
        were free and the frames of this address space. */
    method FreeMap()
      requires Valid()
      modifies this, mc
      ensures mc.Valid() && mc.running && NoDup(mc.free) && areas == []
      ensures FrameSet(mc.free) == FrameSet(old(mc.free)) + old(t).Values
      ensures |mc.mem| == |old(mc.mem)|
      ensures forall f: Frame :: f < |mc.mem| && f !in old(t).Values && f !in old(mc.free) ==>
        mc.mem[f] == old(mc.mem[f])
    {
      EvolvedNot(p4, mc.mem, t, mc.free);
      while |areas| > 0
        invariant Valid()
        invariant |mc.mem| == |old(mc.mem)| && Conserved(old(mc.free), old(t), mc.free, t)
        invariant forall f: Frame :: f < |mc.mem| && f !in old(t).Values && f !in old(mc.free) ==>
          mc.mem[f] == old(mc.mem[f])
        decreases |areas|
      {
        ghost var m1, t1, free1 := mc.mem, t, mc.free;
        Unmap(0);
        OutsideTwice(p4, old(mc.mem), old(t), old(mc.free), m1, t1, free1, mc.mem, t, mc.free);
      }
      forall f: Frame | f !in FrameSet(old(mc.free)) + old(t).Values
        ensures f !in t.Values
      {
      }
      FreeP4(mc, p4, t);
    }
  }

  lemma LastIsHighest(s: seq<Area>)
    requires AreasOk(s) && s != []
    ensures forall i :: 0 <= i < |s| ==> s[i].start <= s[i].end < HeapStart(s)
  {
    forall i | 0 <= i < |s|
      ensures s[i].start <= s[i].end <= s[|s| - 1].end
    {
      assert AreaOk(s[i]) && AreaOk(s[|s| - 1]);
    }
  }

  lemma NoPages(k: set<Node>)
    ensures Need(k, PageOf(USERSPACE_TOP), PagesEnd(USERSPACE_TOP)) == 0
  {
  }

  lemma OutsideTwice(p4: Frame, m: Mem, t: Tree, free: seq<Frame>, m1: Mem, t1: Tree, free1: seq<Frame>,
                     m2: Mem, t2: Tree, free2: seq<Frame>)
    requires |m1| == |m| && Conserved(free, t, free1, t1)
    requires forall f: Frame :: f < |m| && f !in t.Values && f !in free ==> m1[f] == m[f]
    requires Evolved(p4, m1, t1, free1, m2, t2, free2)
    ensures |m2| == |m| && Conserved(free, t, free2, t2)
    ensures forall f: Frame :: f < |m| && f !in t.Values && f !in free ==> m2[f] == m[f]
  {
    forall f: Frame | f < |m| && f !in t.Values && f !in free
      ensures m2[f] == m[f]
    {
      assert f !in FrameSet(free1) + t1.Values;
    }
  }

  lemma AreaIsMapped(t: Tree, s: seq<Area>, i: nat, v: nat, w: nat)
    requires MapsAreas(t, s) && AreasOk(s) && i < |s| && v == PageOf(s[i].start) && w == PagesEnd(s[i].end)
    ensures forall u: nat :: v <= u < w ==> Node(0, u) in t
  {
    AreaPages(s[i], v, w);
    forall u: nat | v <= u < w
      ensures Node(0, u) in t
    {
      assert s[i].Has(u);
    }
  }

  lemma AboveIsUnmapped(t: Tree, s: seq<Area>, a: Area, v: nat, w: nat)
    requires MapsAreas(t, s) && (forall i :: 0 <= i < |s| ==> s[i].end < a.start)
    requires AreaOk(a) && v == PageOf(a.start) && w == PagesEnd(a.end)
    ensures forall u: nat :: v <= u < w ==> Node(0, u) !in t
  {
    AreaPages(a, v, w);
    forall u: nat | v <= u < w
      ensures Node(0, u) !in t
    {
      assert a.Has(u);
    }
  }

  lemma MapsMore(t: Tree, t': Tree, s: seq<Area>, a: Area, v: nat, w: nat)
    requires AreaOk(a) && v == PageOf(a.start) && w == PagesEnd(a.end)
    requires MapsAreas(t, s) && LeavesPlus(t, t', v, w)
    ensures MapsAreas(t', s + [a])
  {
    AreaPages(a, v, w);
    CoveredAppend(s, a);
  }

  lemma OnePage(m: Mem, m': Mem, p4: Frame, t: Tree, t': Tree, v: nat)
    requires UserPages(m, p4, t) && t'.Keys == t.Keys + FullPath(v)
    requires Walk(m', p4, 4, v) % 0x1000 == 7 && SameWalks(m, m', p4, v, v + 1)
    ensures UserPages(m', p4, t')
  {
    hide Walk;
    forall u: nat | u < USER_PAGES && Node(0, u) in t'
      ensures Walk(m', p4, 4, u) % 0x1000 == 7
    {
      assert Node(0, u) in t'.Keys <==> Node(0, u) in t.Keys || Node(0, u) in FullPath(v);
    }
  }

  /** The user pages that user code may read and write are exactly those the areas cover. */
  lemma CoveredMayUse(sp: Space, v: nat)
    requires sp.Valid() && v < USER_PAGES
    ensures MayUse(sp.mc.mem, sp.p4, 4, v) <==> Covered(sp.areas, v)
  {
    UnmappedIsFrameZero(sp.mc.mem, sp.p4, sp.t, v);
    if Covered(sp.areas, v) {
      PageMayUse(sp.mc.mem, sp.p4, sp.t, v);
    } else if MayUse(sp.mc.mem, sp.p4, 4, v) {
      UsedIsPresent(sp.mc.mem, sp.p4, 4, v);
      assert false;
    }
  }

  lemma ZeroStaysOut(p4: Frame, m: Mem, t: Tree, free: seq<Frame>, m': Mem, t': Tree, free': seq<Frame>)
    requires Evolved(p4, m, t, free, m', t', free') && 0 !in free && 0 !in t.Values
    ensures 0 !in free' && 0 !in t'.Values
  {
    assert 0 !in FrameSet(free') + t'.Values;
  }

  lemma ZeroNotTaken(free: seq<Frame>, t: Tree, free': seq<Frame>, t': Tree)
    requires NoneNew(free, t, free', t') && 0 !in free && 0 !in t.Values
    ensures 0 !in free' && 0 !in t'.Values
  {
    assert 0 !in FrameSet(free') + t'.Values;
  }

  // ---- Growing an area upwards ----

  /** No page between the end of area i and the start of the next is covered. */
  lemma GapUncovered(s: seq<Area>, i: nat, u: nat)
    requires AreasOk(s) && i + 1 < |s| && s[i].end <= u * 0x1000 < s[i + 1].start
    ensures !Covered(s, u)
  {
  }

  lemma GapIsUnmapped(t: Tree, s: seq<Area>, i: nat, end: nat, v: nat, w: nat)
    requires MapsAreas(t, s) && AreasOk(s) && i + 1 < |s| && end <= s[i + 1].start
    requires v == PageOf(s[i].end + 0x1000) && w == PagesEnd(end)
    ensures w <= USER_PAGES && (s[i].end + 0x1000) / 0x1000 * 0x1000 == v * 0x1000
    ensures forall u: nat :: v <= u < w ==> Node(0, u) !in t
  {
    assert AreaOk(s[i + 1]);
    forall u: nat | v <= u < w
      ensures Node(0, u) !in t
    {
      GapUncovered(s, i, u);
    }
  }

  lemma ResizedOk(s: seq<Area>, i: nat, end: nat)
    requires AreasOk(s) && i + 1 < |s| && s[i].end <= end <= s[i + 1].start
    ensures AreasOk(s[i := s[i].(end := end)])
  {
    assert AreaOk(s[i + 1]);
  }

  lemma ResizedCovers(s: seq<Area>, i: nat, end: nat, u: nat)
    requires AreasOk(s) && i < |s| && s[i].end <= end
    ensures Covered(s[i := s[i].(end := end)], u) <==> Covered(s, u) || s[i].end <= u * 0x1000 < end
  {
    var r := s[i := s[i].(end := end)];
    if Covered(r, u) {
      var j :| 0 <= j < |r| && r[j].Has(u);
      assert j == i || s[j].Has(u);
      assert s[i].Has(u) || s[j].Has(u) || s[i].end <= u * 0x1000 < end;
    }
    if Covered(s, u) {
      var j :| 0 <= j < |s| && s[j].Has(u);
      assert r[j].Has(u);
    }
    if s[i].end <= u * 0x1000 < end {
      assert AreaOk(s[i]) && r[i].Has(u);
    }
  }

  /** The page loop of procmm_resize, from v to w, adds exactly the newly covered pages if
      and only if the old end was not a page multiple, or the end did not move. */
  lemma ResizeExact(t: Tree, t': Tree, s: seq<Area>, i: nat, end: nat, v: nat, w: nat)
    requires MapsAreas(t, s) && AreasOk(s) && i + 1 < |s| && s[i].end <= end <= s[i + 1].start
    requires v == PageOf(s[i].end + 0x1000) && w == PagesEnd(end) && LeavesPlus(t, t', v, w)
    ensures MapsAreas(t', s[i := s[i].(end := end)]) <==> s[i].end % 0x1000 != 0 || end == s[i].end
  {
    var r := s[i := s[i].(end := end)];
    if s[i].end % 0x1000 != 0 || end == s[i].end {
      forall u: nat
        ensures Node(0, u) in t' <==> Covered(r, u)
      {
        ResizedCovers(s, i, end, u);
        assert v <= u < w <==> s[i].end <= u * 0x1000 < end;
      }
    } else {
      var u := PageOf(s[i].end);
      assert u * 0x1000 == s[i].end && u < v;
      ResizedCovers(s, i, end, u);
      GapUncovered(s, i, u);
      assert Covered(r, u) && Node(0, u) !in t';
    }
  }

  // ---- Growing the stack downwards ----

  lemma StackPage(s: seq<Area>, k: nat, v: nat)
    requires AreasOk(s) && k < |s| && s[k].start >= 0x1000 && v == PageOf(s[k].start - 0x1000)
    ensures v * 0x1000 == s[k].start - 0x1000 && v < USER_PAGES
  {
    assert AreaOk(s[k]);
  }

  lemma FaultPage(start: nat, addr: nat, v: nat)
    requires v * 0x1000 == start - 0x1000 <= addr < start
    ensures PageOf(addr) == v
  {
  }

  lemma GrownCovers(s: seq<Area>, k: nat, v: nat, u: nat)
    requires AreasOk(s) && k < |s| && s[k].start >= 0x1000 && v * 0x1000 == s[k].start - 0x1000
    ensures Covered(s[k := s[k].(start := v * 0x1000)], u) <==> Covered(s, u) || u == v
  {
    var r := s[k := s[k].(start := v * 0x1000)];
    if Covered(r, u) {
      var j :| 0 <= j < |r| && r[j].Has(u);
      assert j == k || s[j].Has(u);
      assert j == k ==> u == v || s[k].Has(u);
    }
    if Covered(s, u) {
      var j :| 0 <= j < |s| && s[j].Has(u);
      assert r[j].Has(u);
    }
    if u == v {
      assert AreaOk(s[k]) && r[k].Has(u);
    }
  }

  /** Taking one more page below the stack keeps pages and areas in step; the areas stay in
      order exactly when every lower one ends at or below the new start. */
  lemma GrownExact(t: Tree, t': Tree, s: seq<Area>, k: nat, v: nat)
    requires MapsAreas(t, s) && AreasOk(s) && k < |s| && s[k].start >= 0x1000 && v == PageOf(s[k].start - 0x1000)
    requires t'.Keys == t.Keys + FullPath(v)
    ensures MapsAreas(t', s[k := s[k].(start := s[k].start - 0x1000)])
    ensures AreasOk(s[k := s[k].(start := s[k].start - 0x1000)]) <==>
      forall j :: 0 <= j < k ==> s[j].end <= s[k].start - 0x1000
  {
    StackPage(s, k, v);
    var r := s[k := s[k].(start := v * 0x1000)];
    forall u: nat
      ensures Node(0, u) in t' <==> Covered(r, u)
    {
      GrownCovers(s, k, v, u);
      assert Node(0, u) in t'.Keys <==> Node(0, u) in t.Keys || Node(0, u) in FullPath(v);
    }
    if AreasOk(r) {
      forall j | 0 <= j < k
        ensures s[j].end <= v * 0x1000
      {
        assert r[j].end <= r[k].start;
      }
    }
    assert AreaOk(r[k]);
  }

  // ---- Where the two conditions fail ----

  /** An area that ends on a page boundary and is grown by three pages, as the brk system call
      can ask: the page at its old end is covered by the area and stays unmapped. */
  lemma ResizeSkipsAPage(t: Tree, t': Tree, s: seq<Area>)
    requires s == [Area(0x1000, 0x2000, 0), Area(0x1_0000, 0x1_1000, 0)]
    requires MapsAreas(t, s) && LeavesPlus(t, t', PageOf(s[0].end + 0x1000), PagesEnd(NewEnd(s, 0, 0x4000)))
    ensures AreasOk(s) && NewEnd(s, 0, 0x4000) == 0x5000
    ensures Covered(s[0 := s[0].(end := 0x5000)], 2) && Node(0, 2) !in t'
    ensures !MapsAreas(t', s[0 := s[0].(end := 0x5000)])
  {
    var r := s[0 := s[0].(end := 0x5000)];
    assert r[0].Has(2);
    assert !Covered(s, 2) by {
      assert !s[0].Has(2) && !s[1].Has(2);
    }
  }

  /** A heap that reaches up to the stack: growing the stack by a page maps over the heap's
      last page, whose frame is lost, and leaves the areas overlapping. */
  lemma StackGrowsIntoHeap(t: Tree, s: seq<Area>)
    requires s == [Area(0x1000, 0x5000, 0), Area(0x5000, 0x7000, 0)] && MapsAreas(t, s)
    ensures AreasOk(s) && PageOf(s[1].start - 0x1000) == 4 && Covered(s, 4) && Node(0, 4) in t
    ensures !AreasOk(s[1 := s[1].(start := 0x4000)])
  {
    assert s[0].Has(4);
    var r := s[1 := s[1].(start := 0x4000)];
    assert r[0].end > r[1].start;
  }
}
