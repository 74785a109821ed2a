/** Two address spaces side by side: whatever one of them goes through, the other neither
    loses a page nor reads a different byte. */
module Isolation {
  import opened Common
  import opened PhysicalMemory
  import opened FrameAllocator
  import opened PageTables
  import opened TableTeardown
  import opened PageCopy
  import opened PageMapping
  import opened AddressSpaces
  import opened SpaceViews
  import opened Forking
  import opened Lifetimes

  /** Frames that one space moves or writes are never the other's. */
  lemma OthersFrames(m: Mem, t: Tree, free: seq<Frame>, m': Mem, t': Tree, free': seq<Frame>, taken: set<Frame>,
                     p4: Frame, other: Tree)
    requires Accounted(m, t, free, m', t', free', taken) && IsTree(m, p4, other) && Owned(m, other)
    requires t.Values !! other.Values && forall n :: n in other ==> other[n] !in free
    ensures IsTree(m', p4, other) && Owned(m', other) && FramesKept(m, m', other)
    ensures UserPages(m, p4, other) ==> UserPages(m', p4, other)
    ensures forall e :: KernelIn(m, p4, e) ==> KernelIn(m', p4, e)
    ensures t'.Values !! other.Values && forall n :: n in other ==> other[n] !in free'
  {
    hide IsTree;
    assert forall f :: f in t'.Values || f in free' ==> f in FrameSet(free) + t.Values by {
      assert forall f :: f in t'.Values || f in free' ==> f in FrameSet(free') + t'.Values + taken;
    }
    forall n | n in other
      ensures other[n] in other.Values && other[n] !in t'.Values && other[n] !in free'
    {
    }
    forall f: Frame | f < |m| && f in other.Values
      ensures m'[f] == m[f]
    {
      var n :| n in other && other[n] == f;
    }
    NeighbourKept(m, m', p4, other);
  }

  lemma SameView(m: Mem, m': Mem, t: Tree)
    requires FramesKept(m, m', t)
    ensures forall x: nat :: VByte(m', UserView(t), x) == VByte(m, UserView(t), x)
  {
    ViewInside(t);
    forall x: nat
      ensures VByte(m', UserView(t), x) == VByte(m, UserView(t), x)
    {
      assert PageOf(x) in UserView(t) ==> UserView(t)[PageOf(x)] in UserView(t).Values;
    }
  }

  /** Any run of operations in one space, a child's after a fork say, while another exists:
      the other stays valid, the two still share no frame, and every byte of it reads as
      before. */
  method RunBeside(sp: Space, other: Space, ops: seq<Op>) returns (ghost taken: set<Frame>)
    requires Beside(other, sp) && AllowedRun(ShapeOf(sp), ops) && |sp.mc.free| >= Costs(ops)
    modifies sp, sp.mc
    ensures Beside(other, sp) && ShapeOf(sp) == AfterAll(old(ShapeOf(sp)), ops)
    ensures other.areas == old(other.areas) && other.t == old(other.t)
    ensures forall x: nat :: VByte(sp.mc.mem, UserView(other.t), x) == VByte(old(sp.mc.mem), UserView(other.t), x)
    ensures FramesKept(old(sp.mc.mem), sp.mc.mem, other.t)
  {
    hide Holds, IsTree, Owned, Accounted, AllowedRun, AfterAll, MapsAreas, AreasOk, FramesKept, IsStack, UserPages,
         KernelIn;
    ghost var m0, t0, free0 := sp.mc.mem, sp.t, sp.mc.free;
    SpaceParts(other);
    OthersFree(other);
    taken := Run(sp, ops);
    OthersFrames(m0, t0, free0, sp.mc.mem, sp.t, sp.mc.free, taken, other.p4, other.t);
    SameView(m0, sp.mc.mem, other.t);
    SpaceParts(sp);
    HoldsBeside(sp.mc, sp.p4, sp.t, other.p4, other.t);
  }

  lemma OthersFree(sp: Space)
    requires sp.Valid()
    ensures forall n :: n in sp.t ==> sp.t[n] !in sp.mc.free
  {
  }
}
