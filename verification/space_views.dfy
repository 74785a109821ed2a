/** What programs see: the bytes that the pages of an address space show. */
module SpaceViews {
  import opened PhysicalMemory
  import opened FrameAllocator
  import opened PageTables
  import opened TableTeardown
  import opened PageCopy
  import opened PageMapping
  import opened AddressSpaces

  lemma ViewIsLeaves(m: Mem, p4: Frame, t: Tree)
    requires IsTree(m, p4, t) && 0 !in t.Values
    ensures forall v: nat :: v in UserView(t) <==> Node(0, v) in t
    ensures UserView(t).Values <= t.Values
  {
    forall v: nat | Node(0, v) in t
      ensures v in UserView(t)
    {
      assert InRange(Node(0, v)) && t[Node(0, v)] in t.Values;
    }
  }

  lemma ViewInside(t: Tree)
    ensures UserView(t).Values <= t.Values
  {
  }

  /** Writes to one space's pages cannot be seen through the other's. */
  lemma Isolated(m: Mem, m': Mem, t: Tree, other: Tree)
    requires DataOnly(m, m', UserView(t)) && t.Values !! other.Values
    ensures forall x: nat :: VByte(m', UserView(other), x) == VByte(m, UserView(other), x)
  {
    forall x: nat
      ensures VByte(m', UserView(other), x) == VByte(m, UserView(other), x)
    {
      ViewInside(t);
      ViewInside(other);
      if PageOf(x) in UserView(other) {
        assert UserView(other)[PageOf(x)] in UserView(other).Values;
      }
    }
  }

  /** Pages that stay mapped while a space evolves show what they showed. */
  lemma EvolvedShows(p4: Frame, m: Mem, t: Tree, free: seq<Frame>, m': Mem, t': Tree, free': seq<Frame>, x: nat)
    requires Evolved(p4, m, t, free, m', t', free') && Owned(m, t)
    requires PageOf(x) in UserView(t) && PageOf(x) in UserView(t')
    ensures VByte(m', UserView(t'), x) == VByte(m, UserView(t), x)
  {
    var u := PageOf(x);
    assert PageKept(m, t, m', t', u);
  }

  /** What the child's view was before still shows, except under the area being copied. */
  ghost predicate Shows(m: Mem, d: View, m': Mem, d': View, a: Area) {
    forall x: nat :: PageOf(x) in d && !(a.start <= x < a.end) ==> VByte(m', d', x) == VByte(m, d, x)
  }

  lemma ShowsTwice(m: Mem, d: View, m1: Mem, d1: View, m2: Mem, a: Area)
    requires Shows(m, d, m1, d1, a) && Shows(m1, d1, m2, d1, a) && forall v: nat :: v in d ==> v in d1
    ensures Shows(m, d, m2, d1, a)
  {
  }

  lemma MapShows(p4: Frame, m: Mem, t: Tree, free: seq<Frame>, m': Mem, t': Tree, free': seq<Frame>, a: Area)
    requires Evolved(p4, m, t, free, m', t', free') && Owned(m, t)
    requires forall v: nat :: v in UserView(t) ==> v in UserView(t')
    ensures Shows(m, UserView(t), m', UserView(t'), a)
  {
    forall x: nat | PageOf(x) in UserView(t)
      ensures VByte(m', UserView(t'), x) == VByte(m, UserView(t), x)
    {
      EvolvedShows(p4, m, t, free, m', t', free', x);
    }
  }

  ghost predicate CoversArea(d: View, a: Area) {
    forall x: nat :: a.start <= x < a.end ==> PageOf(x) in d
  }

  lemma SpaceParts(sp: Space)
    requires sp.Valid()
    ensures IsTree(sp.mc.mem, sp.p4, sp.t) && Owned(sp.mc.mem, sp.t) && sp.mc.Valid() && Holds(sp.mc, sp.p4, sp.t)
    ensures UserPages(sp.mc.mem, sp.p4, sp.t) && KernelIn(sp.mc.mem, sp.p4, sp.kernel)
  {
  }

  /** An area's bytes are in the view of a space that has the area. */
  lemma ViewOfArea(sp: Space, i: nat, a: Area, n: nat)
    requires sp.Valid() && i < |sp.areas| && a == sp.areas[i] && a.start + n == a.end
    ensures Covers(UserView(sp.t), a.start, n)
  {
    ViewIsLeaves(sp.mc.mem, sp.p4, sp.t);
    forall x: nat | a.start <= x < a.end
      ensures PageOf(x) in UserView(sp.t)
    {
      assert AreaOk(a) && sp.areas[i].Has(PageOf(x));
    }
  }

  lemma CoversAll(sp: Space)
    requires sp.Valid()
    ensures forall k :: 0 <= k < |sp.areas| ==> CoversArea(UserView(sp.t), sp.areas[k])
  {
    forall k | 0 <= k < |sp.areas|
      ensures CoversArea(UserView(sp.t), sp.areas[k])
    {
      assert AreaOk(sp.areas[k]);
      ViewOfArea(sp, k, sp.areas[k], sp.areas[k].end - sp.areas[k].start);
    }
  }

  ghost predicate FramesKept(m: Mem, m': Mem, t: Tree) {
    |m'| == |m| && forall f: Frame :: f < |m| && f in t.Values ==> m'[f] == m[f]
  }

  ghost predicate SameBytes(m: Mem, d: View, m': Mem, d': View, a: Area) {
    forall x: nat :: a.start <= x < a.end ==> VByte(m', d', x) == VByte(m, d, x)
  }

  lemma SameBytesVia(m: Mem, s: View, m1: Mem, m2: Mem, d: View, a: Area, t: Tree)
    requires FramesKept(m, m1, t) && s.Values <= t.Values
    ensures SameBytes(m1, s, m2, d, a) ==> SameBytes(m, s, m2, d, a)
  {
    forall x: nat
      ensures VByte(m1, s, x) == VByte(m, s, x)
    {
      assert PageOf(x) in s ==> s[PageOf(x)] in s.Values;
    }
  }
}
