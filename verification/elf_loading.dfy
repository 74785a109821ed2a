/** Loading the segments of an ELF executable (kernel/proc/elf.c). */
module ElfLoading {
  import opened PhysicalMemory
  import opened FrameAllocator
  import opened PageTables
  import opened TableTeardown
  import opened PageCopy
  import opened PageMapping
  import opened AddressSpaces
  import opened SpaceViews

  /** The fields of a program header that the loader reads; `load` is type == PT_LOAD. */
  datatype Segment = Segment(load: bool, offset: nat, vaddr: nat, fileSize: nat, memSize: nat) {
    function Range(): Area { Area(vaddr, vaddr + memSize, 0) }
  }

  ghost predicate SegmentOk(g: Segment) {
    g.vaddr % 0x1000 == 0 && g.fileSize <= g.memSize && g.vaddr + g.memSize <= USER_END
  }

  /** Through d, memory m shows segment g as a program expects it: the file's bytes as m0
      shows them through s, from address `image` on, and then zeros. */
  ghost predicate Loaded(m0: Mem, s: View, image: nat, m: Mem, d: View, g: Segment) {
    forall x: nat :: g.vaddr <= x < g.vaddr + g.memSize ==>
      VByte(m, d, x) ==
        if x < g.vaddr + g.fileSize then VByte(m0, s, image + g.offset + (x - g.vaddr)) else 0
  }

  /** The frames an address space may come to use. */
  ghost function Reach(sp: Space): set<Frame>
    reads sp, sp.mc
  {
    sp.t.Values + FrameSet(sp.mc.free)
  }

  /** The segment's file bytes are mapped, apart from anything the address space may use. */
  ghost predicate ImageReady(m: Mem, kp4: Frame, s: View, avoid: set<Frame>, image: nat, g: Segment) {
    && Source(m, kp4, s, avoid, image + g.offset, g.fileSize)
    && Covers(s, image + g.offset, g.fileSize)
  }

  /** The two byte operations of load_elf_segment, on a segment just mapped. */
  method FillSegment(sp: Space, kp4: Frame, image: nat, g: Segment, ghost s: View)
    requires sp.Valid() && SegmentOk(g) && Covers(UserView(sp.t), g.vaddr, g.memSize)
    requires ImageReady(sp.mc.mem, kp4, s, UserView(sp.t).Values, image, g)
    modifies sp.mc`mem
    ensures sp.Valid() && DataOnly(old(sp.mc.mem), sp.mc.mem, UserView(sp.t))
    ensures Loaded(old(sp.mc.mem), s, image, sp.mc.mem, UserView(sp.t), g)
    ensures Shows(old(sp.mc.mem), UserView(sp.t), sp.mc.mem, UserView(sp.t), g.Range())
  {
    hide Holds, Space.Ordered, Space.Bounds, UserView;
    ghost var m1 := sp.mc.mem;
    SpaceParts(sp);
    var src, n := image + g.offset, g.fileSize;
    assert Covers(UserView(sp.t), g.vaddr, n);
    var copied;
    ghost var done;
    copied, done := P4Memcpy(sp.mc, sp.p4, g.vaddr, kp4, src, n, sp.t, s);
    ghost var m2 := sp.mc.mem;
    var a, rest := g.vaddr + n, g.memSize - n;
    assert Covers(UserView(sp.t), a, rest);
    var filled;
    filled, done := P4Memset(sp.mc, sp.p4, a, 0, rest, sp.t);
    SegmentShows(m1, m2, sp.mc.mem, UserView(sp.t), s, image, g, src, a, rest);
    DataWriteKeepsUse(m1, sp.mc.mem, sp.p4, sp.t);
  }

  lemma SegmentShows(m1: Mem, m2: Mem, m3: Mem, d: View, s: View, image: nat, g: Segment, src: nat, a: nat, rest: nat)
    requires CopiedSoFar(m1, m2, d, g.vaddr, s, src, g.fileSize) && src == image + g.offset
    requires a == g.vaddr + g.fileSize && g.fileSize <= g.memSize && rest == g.memSize - g.fileSize
    requires Covers(d, g.vaddr, g.memSize) && FilledSoFar(m2, m3, d, a, 0, rest)
    ensures DataOnly(m1, m3, d) && Loaded(m1, s, image, m3, d, g) && Shows(m1, d, m3, d, g.Range())
  {
    hide VByte, ReadBytes, Repeat, DataOnly;
    forall x: nat | g.vaddr <= x < g.vaddr + g.memSize
      ensures VByte(m3, d, x) == if x < a then VByte(m1, s, src + (x - g.vaddr)) else 0
    {
      SegmentByte(m1, m2, m3, d, s, g, src, a, rest, x);
    }
    forall x: nat | PageOf(x) in d && !(g.vaddr <= x < g.vaddr + g.memSize)
      ensures VByte(m3, d, x) == VByte(m1, d, x)
    {
      OutsideByte(m1, m2, m3, d, s, g, src, a, rest, x);
    }
    DataOnlyTwice(m1, m2, m3, d);
  }

  lemma SegmentByte(m1: Mem, m2: Mem, m3: Mem, d: View, s: View, g: Segment, src: nat, a: nat, rest: nat, x: nat)
    requires Overlaid(m1, m2, d, g.vaddr, ReadBytes(m1, s, src, g.fileSize)) && Overlaid(m2, m3, d, a, Repeat(0, rest))
    requires a == g.vaddr + g.fileSize && rest == g.memSize - g.fileSize && Covers(d, g.vaddr, g.memSize)
    requires g.vaddr <= x < g.vaddr + g.memSize
    ensures VByte(m3, d, x) == if x < a then VByte(m1, s, src + (x - g.vaddr)) else 0
  {
    hide VByte;
    assert PageOf(x) in d;
    if x < a {
      assert ReadBytes(m1, s, src, g.fileSize)[x - g.vaddr] == VByte(m1, s, src + (x - g.vaddr));
    }
  }

  lemma OutsideByte(m1: Mem, m2: Mem, m3: Mem, d: View, s: View, g: Segment, src: nat, a: nat, rest: nat, x: nat)
    requires Overlaid(m1, m2, d, g.vaddr, ReadBytes(m1, s, src, g.fileSize)) && Overlaid(m2, m3, d, a, Repeat(0, rest))
    requires a == g.vaddr + g.fileSize && rest == g.memSize - g.fileSize
    requires PageOf(x) in d && !(g.vaddr <= x < g.vaddr + g.memSize)
    ensures VByte(m3, d, x) == VByte(m1, d, x)
  {
    hide VByte;
  }

  lemma DataOnlyTwice(m1: Mem, m2: Mem, m3: Mem, d: View)
    requires DataOnly(m1, m2, d) && DataOnly(m2, m3, d)
    ensures DataOnly(m1, m3, d)
  {
  }

  /** load_elf_segment: the segment's bytes from the file, zeros up to its memory size, and
      every address mapped before shows what it showed. */
  method LoadSegment(sp: Space, kp4: Frame, image: nat, g: Segment, ghost v: nat, ghost w: nat, ghost s: View)
    requires sp.Valid() && SegmentOk(g)
    requires forall i :: 0 <= i < |sp.areas| ==> sp.areas[i].start <= sp.areas[i].end < g.vaddr
    requires v == PageOf(g.vaddr) && w == PagesEnd(g.vaddr + g.memSize) && |sp.mc.free| >= Need(sp.t.Keys, v, w)
    requires ImageReady(sp.mc.mem, kp4, s, Reach(sp), image, g)
    modifies sp`areas, sp`t, sp.mc`pos, sp.mc`stack, sp.mc`free, sp.mc`mem
    ensures sp.Valid() && sp.areas == old(sp.areas) + [g.Range()]
    ensures |sp.mc.free| == |old(sp.mc.free)| - Need(old(sp.t).Keys, v, w)
    ensures sp.t.Keys == KeysWith(old(sp.t).Keys, v, w)
    ensures Reach(sp) == old(Reach(sp)) && SameOutside(old(sp.mc.mem), sp.mc.mem, Reach(sp))
    ensures Loaded(old(sp.mc.mem), s, image, sp.mc.mem, UserView(sp.t), g)
    ensures Shows(old(sp.mc.mem), UserView(old(sp.t)), sp.mc.mem, UserView(sp.t), g.Range())
    ensures forall u: nat :: u in UserView(old(sp.t)) ==> u in UserView(sp.t)
  {
    hide Holds, Space.Ordered, Evolved, UserView, Loaded, Shows, Source, Need, KeysWith;
    SpaceParts(sp);
    ghost var m0, t0, free0, reach := sp.mc.mem, sp.t, sp.mc.free, Reach(sp);
    var ok := sp.Map(g.vaddr, g.vaddr + g.memSize, 0);
    ghost var m1 := sp.mc.mem;
    SpaceParts(sp);
    KeysGrow(t0.Keys, v, w);
    MappedFacts(sp.p4, m0, t0, free0, m1, sp.t, sp.mc.free, g.Range());
    ViewOfArea(sp, |sp.areas| - 1, g.Range(), g.memSize);
    ImageStays(m0, m1, kp4, s, reach, sp.t, image, g);
    FillSegment(sp, kp4, image, g, s);
    ShowsTwice(m0, UserView(t0), m1, UserView(sp.t), sp.mc.mem, g.Range());
    LoadedVia(m0, m1, s, reach, image, sp.mc.mem, UserView(sp.t), g);
    ViewInside(sp.t);
  }

  lemma MappedFacts(p4: Frame, m: Mem, t: Tree, free: seq<Frame>, m': Mem, t': Tree, free': seq<Frame>, a: Area)
    requires Evolved(p4, m, t, free, m', t', free') && t.Keys <= t'.Keys
    requires IsTree(m, p4, t) && Owned(m, t) && 0 !in t.Values && IsTree(m', p4, t') && 0 !in t'.Values
    ensures t'.Values + FrameSet(free') == t.Values + FrameSet(free)
    ensures SameOutside(m, m', t.Values + FrameSet(free))
    ensures forall u: nat :: u in UserView(t) ==> u in UserView(t')
    ensures Shows(m, UserView(t), m', UserView(t'), a)
  {
    ViewIsLeaves(m, p4, t);
    ViewIsLeaves(m', p4, t');
    MapShows(p4, m, t, free, m', t', free', a);
  }

  lemma ImageStays(m: Mem, m': Mem, kp4: Frame, s: View, reach: set<Frame>, t: Tree, image: nat, g: Segment)
    requires ImageReady(m, kp4, s, reach, image, g) && SameOutside(m, m', reach) && t.Values <= reach
    ensures ImageReady(m', kp4, s, UserView(t).Values, image, g)
    ensures reach !! s.Values
  {
    ViewInside(t);
    SourceStays(m, m', kp4, s, reach, UserView(t).Values, image + g.offset, g.fileSize);
  }

  lemma LoadedVia(m0: Mem, m1: Mem, s: View, reach: set<Frame>, image: nat, m: Mem, d: View, g: Segment)
    requires SameOutside(m0, m1, reach) && reach !! s.Values && Loaded(m1, s, image, m, d, g)
    ensures Loaded(m0, s, image, m, d, g)
  {
    forall x: nat
      ensures VByte(m1, s, x) == VByte(m0, s, x)
    {
      assert PageOf(x) in s ==> s[PageOf(x)] in s.Values;
    }
  }

  // ---- The whole file ----

  /** The areas of the first n segments that are to be loaded. */
  function Ranges(segs: seq<Segment>, n: nat): seq<Area>
    requires n <= |segs|
  {
    if n == 0 then [] else Ranges(segs, n - 1) + if segs[n - 1].load then [segs[n - 1].Range()] else []
  }

  /** Loadable segments are page aligned, in ascending order, and do not touch. */
  ghost predicate SegmentsOk(segs: seq<Segment>) {
    && (forall i :: 0 <= i < |segs| && segs[i].load ==> SegmentOk(segs[i]))
    && (forall i, j :: 0 <= i < j < |segs| && segs[i].load && segs[j].load ==>
          segs[i].vaddr + segs[i].memSize < segs[j].vaddr)
  }

  ghost function SegmentsNeed(k: set<Node>, segs: seq<Segment>, n: nat): nat
    requires n <= |segs|
    decreases |segs| - n
  {
    if n == |segs| then 0
    else if !segs[n].load then SegmentsNeed(k, segs, n + 1)
    else
      var v, w := PageOf(segs[n].vaddr), PagesEnd(segs[n].vaddr + segs[n].memSize);
      Need(k, v, w) + SegmentsNeed(KeysWith(k, v, w), segs, n + 1)
  }

  lemma {:induction false} RangesBelow(segs: seq<Segment>, n: nat, i: nat)
    requires SegmentsOk(segs) && n <= i < |segs| && segs[i].load
    ensures forall k :: 0 <= k < |Ranges(segs, n)| ==>
      Ranges(segs, n)[k].start <= Ranges(segs, n)[k].end < segs[i].vaddr
  {
    if n > 0 {
      RangesBelow(segs, n - 1, i);
    }
  }

  lemma {:induction false} RangeListed(segs: seq<Segment>, n: nat, j: nat)
    requires j < n <= |segs| && segs[j].load
    ensures segs[j].Range() in Ranges(segs, n)
  {
    if j < n - 1 {
      RangeListed(segs, n - 1, j);
    }
  }

  ghost predicate AllLoaded(m0: Mem, s: View, image: nat, m: Mem, d: View, segs: seq<Segment>, n: nat)
    requires n <= |segs|
  {
    forall j :: 0 <= j < n && segs[j].load ==> Loaded(m0, s, image, m, d, segs[j])
  }

  /** Loading segment i disturbs none of those before it. */
  lemma StillLoaded(m0: Mem, s: View, image: nat, m1: Mem, d1: View, m2: Mem, d2: View, segs: seq<Segment>, i: nat)
    requires SegmentsOk(segs) && i < |segs| && segs[i].load
    requires AllLoaded(m0, s, image, m1, d1, segs, i) && Shows(m1, d1, m2, d2, segs[i].Range())
    requires forall k :: 0 <= k < |Ranges(segs, i)| ==> CoversArea(d1, Ranges(segs, i)[k])
    requires Loaded(m0, s, image, m2, d2, segs[i])
    ensures AllLoaded(m0, s, image, m2, d2, segs, i + 1)
  {
    forall j | 0 <= j < i && segs[j].load
      ensures Loaded(m0, s, image, m2, d2, segs[j])
    {
      RangeListed(segs, i, j);
      var k :| 0 <= k < |Ranges(segs, i)| && Ranges(segs, i)[k] == segs[j].Range();
      assert CoversArea(d1, segs[j].Range()) && Loaded(m0, s, image, m1, d1, segs[j]);
    }
  }

  lemma ImageStill(m: Mem, m': Mem, kp4: Frame, s: View, reach: set<Frame>, image: nat, g: Segment)
    requires ImageReady(m, kp4, s, reach, image, g) && SameOutside(m, m', reach)
    ensures ImageReady(m', kp4, s, reach, image, g)
  {
    SourceStays(m, m', kp4, s, reach, reach, image + g.offset, g.fileSize);
  }

  /** The loop of load_elf: in the end every loadable segment, the first as much as the
      last, shows its file bytes followed by zeros. */
  method LoadElf(sp: Space, kp4: Frame, image: nat, segs: seq<Segment>, ghost s: View)
    requires sp.Valid() && sp.areas == [] && SegmentsOk(segs)
    requires forall i :: 0 <= i < |segs| && segs[i].load ==> ImageReady(sp.mc.mem, kp4, s, Reach(sp), image, segs[i])
    requires |sp.mc.free| >= SegmentsNeed(sp.t.Keys, segs, 0)
    modifies sp`areas, sp`t, sp.mc`pos, sp.mc`stack, sp.mc`free, sp.mc`mem
    ensures sp.Valid() && sp.areas == Ranges(segs, |segs|) && Reach(sp) == old(Reach(sp))
    ensures AllLoaded(old(sp.mc.mem), s, image, sp.mc.mem, UserView(sp.t), segs, |segs|)
    ensures SameOutside(old(sp.mc.mem), sp.mc.mem, Reach(sp))
  {
    hide Space.Valid, Loaded, Shows, Source, Need, KeysWith, ImageReady, UserView;
    ghost var m0, reach := sp.mc.mem, Reach(sp);
    var i := 0;
    while i < |segs|
      invariant i <= |segs| && sp.Valid() && sp.areas == Ranges(segs, i)
      invariant Reach(sp) == reach && SameOutside(m0, sp.mc.mem, reach)
      invariant |sp.mc.free| >= SegmentsNeed(sp.t.Keys, segs, i)
      invariant AllLoaded(m0, s, image, sp.mc.mem, UserView(sp.t), segs, i)
    {
      if segs[i].load {
        LoadNext(sp, kp4, image, segs, i, m0, reach, s);
      }
      i := i + 1;
    }
  }

  method LoadNext(sp: Space, kp4: Frame, image: nat, segs: seq<Segment>, i: nat,
                  ghost m0: Mem, ghost reach: set<Frame>, ghost s: View)
    requires i < |segs| && segs[i].load && sp.Valid() && sp.areas == Ranges(segs, i) && SegmentsOk(segs)
    requires Reach(sp) == reach && SameOutside(m0, sp.mc.mem, reach)
    requires ImageReady(m0, kp4, s, reach, image, segs[i])
    requires |sp.mc.free| >= SegmentsNeed(sp.t.Keys, segs, i)
    requires AllLoaded(m0, s, image, sp.mc.mem, UserView(sp.t), segs, i)
    modifies sp`areas, sp`t, sp.mc`pos, sp.mc`stack, sp.mc`free, sp.mc`mem
    ensures sp.Valid() && sp.areas == Ranges(segs, i + 1)
    ensures Reach(sp) == reach && SameOutside(m0, sp.mc.mem, reach)
    ensures |sp.mc.free| >= SegmentsNeed(sp.t.Keys, segs, i + 1)
    ensures AllLoaded(m0, s, image, sp.mc.mem, UserView(sp.t), segs, i + 1)
  {
    hide Space.Valid, Loaded, Shows, Source, Need, KeysWith, UserView, AllLoaded;
    ghost var m1, d1, g := sp.mc.mem, UserView(sp.t), segs[i];
    RangesBelow(segs, i, i);
    CoversAll(sp);
    ImageStill(m0, m1, kp4, s, reach, image, g);
    LoadSegment(sp, kp4, image, segs[i], PageOf(g.vaddr), PagesEnd(g.vaddr + g.memSize), s);
    SourceMisses(m0, kp4, s, reach, image, g);
    LoadedVia(m0, m1, s, reach, image, sp.mc.mem, UserView(sp.t), g);
    StillLoaded(m0, s, image, m1, d1, sp.mc.mem, UserView(sp.t), segs, i);
  }

  lemma SourceMisses(m: Mem, kp4: Frame, s: View, reach: set<Frame>, image: nat, g: Segment)
    requires ImageReady(m, kp4, s, reach, image, g)
    ensures reach !! s.Values
  {
  }
}
