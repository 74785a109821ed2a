/** Whole lives of an address space: created, mapped, grown, unmapped in any order, freed. */
module Lifetimes {
  import opened Common
  import opened PhysicalMemory
  import opened FrameAllocator
  import opened PageTables
  import opened TableTeardown
  import opened PageCopy
  import opened PageMapping
  import opened AddressSpaces

  datatype Op =
    | MapOp(start: nat, end: nat, flags: nat)
    | UnmapOp(i: nat)
    | ResizeOp(i: nat, len: nat)
    | FaultOp(addr: nat)
    | SetupOp(size: nat)
    | KernelOp(n: nat) // the kernel heap grows, by n frames of the same free stack

  /** What an address space looks like to its callers. */
  datatype Shape = Shape(areas: seq<Area>, brk: Option<nat>, stack: Option<nat>)

  ghost function ShapeOf(sp: Space): Shape
    reads sp
  {
    Shape(sp.areas, sp.brk, sp.stack)
  }

  /** A fault at addr makes the stack grow. */
  predicate GrowsAt(s: Shape, addr: nat) {
    && addr < KERNEL_OFFSET && s.stack.Some? && s.stack.value < |s.areas|
    && s.areas[s.stack.value].start <= addr + 0x1000
  }

  /** No area reaches into the page below area k. */
  predicate HasRoom(areas: seq<Area>, k: nat)
    requires k < |areas|
  {
    areas[k].start >= 0x1000 && forall j :: 0 <= j < k ==> areas[j].end <= areas[k].start - 0x1000
  }

  /** When an operation keeps pages and areas in step: the conditions found for procmm_resize
      and for stack growth, and areas mapped in ascending order. */
  predicate Allowed(s: Shape, op: Op) {
    match op
    case MapOp(start, end, _) =>
      start % 0x1000 == 0 && start <= end <= USER_END && forall i :: 0 <= i < |s.areas| ==> s.areas[i].start <= end
    case UnmapOp(i) => i < |s.areas|
    case ResizeOp(i, len) =>
      && i + 1 < |s.areas| && s.areas[i].end < s.areas[i].start + len
      && (s.areas[i].end % 0x1000 != 0 || NewEnd(s.areas, i, len) == s.areas[i].end)
    case FaultOp(addr) =>
      GrowsAt(s, addr) ==> HasRoom(s.areas, s.stack.value)
    case SetupOp(size) =>
      s.areas != [] && HeapStart(s.areas) <= USERSPACE_TOP && HeapStart(s.areas) + size <= USER_END
    case KernelOp(_) => true
  }

  /** What an operation makes of the areas, without a word about pages or frames. */
  function After(s: Shape, op: Op): Shape
    requires Allowed(s, op)
  {
    match op
    case MapOp(start, end, flags) =>
      if forall i :: 0 <= i < |s.areas| ==> s.areas[i].end < start
      then s.(areas := s.areas + [Area(start, end, flags)]) else s
    case UnmapOp(i) => Shape(Without(s.areas, i), Shifted(s.brk, i), Shifted(s.stack, i))
    case ResizeOp(i, len) => s.(areas := s.areas[i := s.areas[i].(end := NewEnd(s.areas, i, len))])
    case FaultOp(addr) => if GrowsAt(s, addr) then GrownBy(s, s.stack.value) else s
    case SetupOp(size) =>
      var start := HeapStart(s.areas);
      var heap := s.areas + [Area(start, start + size, 0)];
      if start + size < USERSPACE_TOP
      then Shape(heap + [Area(USERSPACE_TOP, USERSPACE_TOP, 0)], Some(|s.areas|), Some(|s.areas| + 1))
      else Shape(heap, Some(|s.areas|), None)
    case KernelOp(_) => s
  }

  function GrownBy(s: Shape, k: nat): Shape
    requires k < |s.areas| && s.areas[k].start >= 0x1000
  {
    s.(areas := s.areas[k := s.areas[k].(start := s.areas[k].start - 0x1000)])
  }

  predicate AllowedRun(s: Shape, ops: seq<Op>)
    decreases |ops|
  {
    ops == [] || (Allowed(s, ops[0]) && AllowedRun(After(s, ops[0]), ops[1..]))
  }

  function AfterAll(s: Shape, ops: seq<Op>): Shape
    requires AllowedRun(s, ops)
    decreases |ops|
  {
    if ops == [] then s else AfterAll(After(s, ops[0]), ops[1..])
  }

  /** Enough frames for an operation, tables included. */
  function Cost(op: Op): nat {
    match op
    case MapOp(start, end, _) => if start <= end then Pages(end - start) else 0
    case UnmapOp(_) => 0
    case ResizeOp(_, len) => Pages(len)
    case FaultOp(_) => 4
    case SetupOp(size) => Pages(size)
    case KernelOp(n) => n
  }

  function Pages(bytes: nat): nat { 4 * (bytes / 0x1000 + 2) }

  function Costs(ops: seq<Op>): nat {
    if ops == [] then 0 else Cost(ops[0]) + Costs(ops[1..])
  }

  /** How many frames the kernel heap takes. */
  function KernelFrames(ops: seq<Op>): nat {
    if ops == [] then 0 else (if ops[0].KernelOp? then ops[0].n else 0) + KernelFrames(ops[1..])
  }

  lemma CostEnough(k: set<Node>, start: nat, end: nat, v: nat, w: nat, bytes: nat)
    requires start <= end <= start + bytes && v == PageOf(start) && w == PagesEnd(end)
    ensures Need(k, v, w) <= Pages(bytes)
  {
    NeedAtMost(k, v, w);
  }

  /** Frames only move between the space, the free stack and the kernel heap, which got taken;
      no other frame is written. */
  ghost predicate Accounted(m: Mem, t: Tree, free: seq<Frame>, m': Mem, t': Tree, free': seq<Frame>,
                            taken: set<Frame>)
  {
    && |m'| == |m|
    && FrameSet(free') + t'.Values + taken == FrameSet(free) + t.Values
    && taken !! t'.Values && taken !! FrameSet(free')
    && forall f: Frame :: f < |m| && f !in t.Values && f !in free ==> m'[f] == m[f]
  }

  lemma AccountedTwice(m: Mem, t: Tree, free: seq<Frame>, m1: Mem, t1: Tree, free1: seq<Frame>, k1: set<Frame>,
                       m2: Mem, t2: Tree, free2: seq<Frame>, k2: set<Frame>)
    requires Accounted(m, t, free, m1, t1, free1, k1) && Accounted(m1, t1, free1, m2, t2, free2, k2)
    ensures Accounted(m, t, free, m2, t2, free2, k1 + k2) && |k1 + k2| == |k1| + |k2|
  {
    forall f: Frame | f < |m| && f !in t.Values && f !in free
      ensures m2[f] == m[f]
    {
      assert f !in FrameSet(free1) + t1.Values;
    }
    assert k1 !! k2 && k1 !! FrameSet(free2) + t2.Values by {
      assert forall f :: f in FrameSet(free2) + t2.Values + k2 ==> f in FrameSet(free1) + t1.Values;
    }
    DisjointSum(k1, k2);
  }

  lemma DisjointSum(a: set<Frame>, b: set<Frame>)
    requires a !! b
    ensures |a + b| == |a| + |b|
  {
  }

  lemma EvolvedAccounted(p4: Frame, m: Mem, t: Tree, free: seq<Frame>, m': Mem, t': Tree, free': seq<Frame>)
    requires Evolved(p4, m, t, free, m', t', free')
    ensures Accounted(m, t, free, m', t', free', {})
  {
  }

  lemma UnchangedAccounted(m: Mem, t: Tree, free: seq<Frame>)
    ensures Accounted(m, t, free, m, t, free, {})
  {
  }

  /** Every allowed operation does to the areas what After says, keeps the mapped pages those
      the areas cover, and accounts for every frame. */
  method Perform(sp: Space, op: Op) returns (ghost taken: set<Frame>)
    requires sp.Valid() && Allowed(ShapeOf(sp), op) && |sp.mc.free| >= Cost(op)
    modifies sp, sp.mc
    ensures sp.Valid() && ShapeOf(sp) == After(old(ShapeOf(sp)), op)
    ensures |sp.mc.free| >= |old(sp.mc.free)| - Cost(op)
    ensures Accounted(old(sp.mc.mem), old(sp.t), old(sp.mc.free), sp.mc.mem, sp.t, sp.mc.free, taken)
    ensures |taken| == if op.KernelOp? then op.n else 0
  {
    taken := {};
    match op
    case MapOp(_, _, _) => PerformMap(sp, op);
    case UnmapOp(i) =>
      hide Space.Valid, Accounted, Evolved;
      sp.Unmap(i);
      EvolvedAccounted(sp.p4, old(sp.mc.mem), old(sp.t), old(sp.mc.free), sp.mc.mem, sp.t, sp.mc.free);
    case ResizeOp(_, _) => PerformResize(sp, op);
    case FaultOp(_) => PerformFault(sp, op);
    case SetupOp(_) => PerformSetup(sp, op);
    case KernelOp(n) => taken := TakeForKernel(sp, n);
  }

  method PerformMap(sp: Space, op: Op)
    requires sp.Valid() && Allowed(ShapeOf(sp), op) && |sp.mc.free| >= Cost(op) && op.MapOp?
    modifies sp, sp.mc
    ensures sp.Valid() && ShapeOf(sp) == After(old(ShapeOf(sp)), op) && |sp.mc.free| >= |old(sp.mc.free)| - Cost(op)
    ensures Accounted(old(sp.mc.mem), old(sp.t), old(sp.mc.free), sp.mc.mem, sp.t, sp.mc.free, {})
  {
    hide Space.Valid, Evolved, Accounted, Need, KeysWith;
    CostEnough(sp.t.Keys, op.start, op.end, PageOf(op.start), PagesEnd(op.end), op.end - op.start);
    var ok := sp.Map(op.start, op.end, op.flags);
    EvolvedAccounted(sp.p4, old(sp.mc.mem), old(sp.t), old(sp.mc.free), sp.mc.mem, sp.t, sp.mc.free);
  }

  method PerformResize(sp: Space, op: Op)
    requires sp.Valid() && Allowed(ShapeOf(sp), op) && |sp.mc.free| >= Cost(op) && op.ResizeOp?
    modifies sp, sp.mc
    ensures sp.Valid() && ShapeOf(sp) == After(old(ShapeOf(sp)), op) && |sp.mc.free| >= |old(sp.mc.free)| - Cost(op)
    ensures Accounted(old(sp.mc.mem), old(sp.t), old(sp.mc.free), sp.mc.mem, sp.t, sp.mc.free, {})
  {
    hide Holds, Evolved, Accounted, Need, MapsAreas;
    ghost var a, end := sp.areas[op.i], NewEnd(sp.areas, op.i, op.len);
    ghost var v, w := PageOf(a.end + 0x1000), PagesEnd(end);
    assert AreaOk(a);
    ResizeCost(sp.t.Keys, a, end, v, w, op.len);
    var r := sp.Resize(op.i, op.len, v, w);
    EvolvedAccounted(sp.p4, old(sp.mc.mem), old(sp.t), old(sp.mc.free), sp.mc.mem, sp.t, sp.mc.free);
  }

  lemma ResizeCost(k: set<Node>, a: Area, end: nat, v: nat, w: nat, len: nat)
    requires a.start <= a.end && end <= a.start + len && v == PageOf(a.end + 0x1000) && w == PagesEnd(end)
    ensures Need(k, v, w) <= Pages(len)
  {
    NeedAtMost(k, v, w);
    assert w <= PageOf(a.end) + len / 0x1000 + 2;
  }

  method PerformFault(sp: Space, op: Op)
    requires sp.Valid() && Allowed(ShapeOf(sp), op) && |sp.mc.free| >= Cost(op) && op.FaultOp?
    modifies sp, sp.mc
    ensures sp.Valid() && ShapeOf(sp) == After(old(ShapeOf(sp)), op) && |sp.mc.free| >= |old(sp.mc.free)| - Cost(op)
    ensures Accounted(old(sp.mc.mem), old(sp.t), old(sp.mc.free), sp.mc.mem, sp.t, sp.mc.free, {})
  {
    hide Holds, Evolved, Replaced, Accounted, MapsAreas, AreasOk;
    if GrowsAt(Shape(sp.areas, sp.brk, sp.stack), op.addr) {
      ghost var k := sp.stack.value;
      PageBelowIsClear(sp.areas, k, sp.Below(k));
    }
    UnchangedAccounted(sp.mc.mem, sp.t, sp.mc.free);
    var handled := sp.PageFault(op.addr);
    if handled {
      EvolvedAccounted(sp.p4, old(sp.mc.mem), old(sp.t), old(sp.mc.free), sp.mc.mem, sp.t, sp.mc.free);
    }
  }

  lemma PageBelowIsClear(s: seq<Area>, k: nat, v: nat)
    requires AreasOk(s) && k < |s| && s[k].start >= 0x1000 && v == PageOf(s[k].start - 0x1000)
    requires forall j :: 0 <= j < k ==> s[j].end <= s[k].start - 0x1000
    ensures !Covered(s, v)
  {
    StackPage(s, k, v);
  }

  method PerformSetup(sp: Space, op: Op)
    requires sp.Valid() && Allowed(ShapeOf(sp), op) && |sp.mc.free| >= Cost(op) && op.SetupOp?
    modifies sp, sp.mc
    ensures sp.Valid() && ShapeOf(sp) == After(old(ShapeOf(sp)), op) && |sp.mc.free| >= |old(sp.mc.free)| - Cost(op)
    ensures Accounted(old(sp.mc.mem), old(sp.t), old(sp.mc.free), sp.mc.mem, sp.t, sp.mc.free, {})
  {
    hide Space.Valid, Need;
    ghost var start := HeapStart(sp.areas);
    CostEnough(sp.t.Keys, start, start + op.size, PageOf(start), PagesEnd(start + op.size), op.size);
    var s := sp.Setup(op.size);
  }

  /** ksbrk pops frames for the kernel heap and never gives them back. */
  method TakeForKernel(sp: Space, n: nat) returns (ghost taken: set<Frame>)
    requires sp.Valid() && |sp.mc.free| >= n
    modifies sp.mc
    ensures sp.Valid() && |sp.mc.free| == |old(sp.mc.free)| - n && |taken| == n
    ensures Accounted(old(sp.mc.mem), sp.t, old(sp.mc.free), sp.mc.mem, sp.t, sp.mc.free, taken)
  {
    StackIsAcyclic(sp.mc.mem, sp.mc.stack, sp.mc.free);
    var ok;
    ghost var got;
    ok, got := sp.mc.AllocMany(n);
    TakenApart(old(sp.mc.free), got, sp.mc.free);
    taken := FrameSet(got);
    assert forall f :: f in sp.mc.free ==> f in old(sp.mc.free);
  }

  lemma TakenApart(free: seq<Frame>, got: seq<Frame>, rest: seq<Frame>)
    requires NoDup(free) && got + rest == free
    ensures FrameSet(free) == FrameSet(got) + FrameSet(rest) && FrameSet(got) !! FrameSet(rest)
    ensures |FrameSet(got)| == |got|
  {
    SplitNoDup(free, got, rest);
    forall i, j | 0 <= i < j < |got|
      ensures got[i] != got[j]
    {
      assert free[i] == got[i] && free[j] == got[j];
    }
    SetSize(got);
  }

  lemma {:induction false} SetSize(s: seq<Frame>)
    requires NoDup(s)
    ensures |FrameSet(s)| == |s|
    decreases |s|
  {
    if s != [] {
      var n := |s| - 1;
      SetSize(s[..n]);
      assert FrameSet(s) == FrameSet(s[..n]) + {s[n]};
      assert s[n] !in FrameSet(s[..n]);
    }
  }

  /** Any run of operations: the areas are what the operations make of them one by one, the
      mapped pages are exactly those the areas cover, and the frames that were free or the
      space's still are, but for those the kernel heap took. */
  method Run(sp: Space, ops: seq<Op>) returns (ghost taken: set<Frame>)
    requires sp.Valid() && AllowedRun(ShapeOf(sp), ops) && |sp.mc.free| >= Costs(ops)
    modifies sp, sp.mc
    ensures sp.Valid() && ShapeOf(sp) == AfterAll(old(ShapeOf(sp)), ops) && MapsAreas(sp.t, sp.areas)
    ensures Accounted(old(sp.mc.mem), old(sp.t), old(sp.mc.free), sp.mc.mem, sp.t, sp.mc.free, taken)
    ensures |taken| == KernelFrames(ops)
  {
    UnchangedAccounted(sp.mc.mem, sp.t, sp.mc.free);
    hide Space.Sound, AreasOk, Accounted, Allowed, After, Cost;
    ghost var m0, t0, free0 := sp.mc.mem, sp.t, sp.mc.free;
    taken := {};
    var i := 0;
    while i < |ops|
      invariant i <= |ops| && sp.Valid()
      invariant AllowedRun(ShapeOf(sp), ops[i..]) && AfterAll(ShapeOf(sp), ops[i..]) == AfterAll(old(ShapeOf(sp)), ops)
      invariant |sp.mc.free| >= Costs(ops[i..]) && |taken| + KernelFrames(ops[i..]) == KernelFrames(ops)
      invariant Accounted(m0, t0, free0, sp.mc.mem, sp.t, sp.mc.free, taken)
    {
      assert ops[i..][0] == ops[i] && ops[i..][1..] == ops[i + 1..];
      ghost var m1, t1, free1 := sp.mc.mem, sp.t, sp.mc.free;
      ghost var more := Perform(sp, ops[i]);
      AccountedTwice(m0, t0, free0, m1, t1, free1, taken, sp.mc.mem, sp.t, sp.mc.free, more);
      taken := taken + more;
      i := i + 1;
    }
  }

  /** A whole life. Whatever allowed operations it went through, freeing the address space
      puts back exactly the frames that were free before it was made, less those the kernel
      heap took meanwhile, none twice, and no frame that was in use then was written. */
  method Live(mc: Machine, boot: Frame, ops: seq<Op>) returns (ghost taken: set<Frame>)
    requires mc.Valid() && mc.running && 0 !in mc.free && boot < |mc.mem| && boot !in mc.free
    requires AllowedRun(Shape([], None, None), ops) && |mc.free| >= 1 + Costs(ops)
    modifies mc
    ensures mc.Valid() && mc.running && NoDup(mc.free)
    ensures FrameSet(mc.free) + taken == FrameSet(old(mc.free)) && taken !! FrameSet(mc.free)
    ensures |taken| == KernelFrames(ops)
    ensures |mc.mem| == |old(mc.mem)|
    ensures forall f: Frame :: f < |mc.mem| && f !in old(mc.free) ==> mc.mem[f] == old(mc.mem[f])
  {
    hide Space.Valid, Accounted, FrameSet, NoDup, Allowed, Cost, IsStack, MapsAreas;
    ghost var m0, free0 := mc.mem, mc.free;
    var sp := new Space(mc, boot);
    ghost var m1, t1, free1 := mc.mem, sp.t, mc.free;
    Born(m0, free0, mc.mem, sp.t, sp.p4, mc.free);
    taken := Run(sp, ops);
    AccountedTwice(m0, map[], free0, m1, t1, free1, {}, mc.mem, sp.t, mc.free, taken);
    assert {} + taken == taken;
    ghost var m2, t2, free2 := mc.mem, sp.t, mc.free;
    sp.FreeMap();
    Gone(m0, free0, m2, t2, free2, mc.mem, mc.free, taken);
  }

  lemma Born(m: Mem, free: seq<Frame>, m': Mem, t: Tree, p4: Frame, free': seq<Frame>)
    requires t == map[ROOT := p4] && free == [p4] + free' && |m'| == |m|
    requires forall f: Frame :: f < |m'| && f !in free ==> m'[f] == m[f]
    ensures Accounted(m, map[], free, m', t, free', {})
  {
    assert t[ROOT] == p4 && t.Values == {p4};
    assert FrameSet(free) == {p4} + FrameSet(free');
  }

  lemma Gone(m: Mem, free: seq<Frame>, m1: Mem, t1: Tree, free1: seq<Frame>, m2: Mem, free2: seq<Frame>,
             taken: set<Frame>)
    requires Accounted(m, map[], free, m1, t1, free1, taken) && |m2| == |m1|
    requires FrameSet(free2) == FrameSet(free1) + t1.Values
    requires forall f: Frame :: f < |m2| && f !in t1.Values && f !in free1 ==> m2[f] == m1[f]
    ensures FrameSet(free2) + taken == FrameSet(free) && taken !! FrameSet(free2) && |m2| == |m|
    ensures forall f: Frame :: f < |m2| && f !in free ==> m2[f] == m[f]
  {
    forall f: Frame | f < |m2| && f !in free
      ensures m2[f] == m[f]
    {
      assert f !in FrameSet(free1) + t1.Values;
    }
  }
}
