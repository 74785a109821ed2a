/** The frame allocator of kernel/mem/pmm.c: a bump pointer until the first free, then a
    stack of free frames whose links are stored in the free frames themselves. */
module FrameAllocator {
  import opened Common
  import opened PhysicalMemory

  /** The link that leads to position i of the free stack. */
  function Link(s: seq<Frame>, i: nat): Word
    requires forall k :: 0 <= k < |s| ==> s[k] < MAX_FRAMES
  {
    if i < |s| then P2V(s[i]) else 0
  }

  /** Following the links from `head` visits exactly the frames of s, in order. */
  ghost predicate IsStack(m: Mem, head: Word, s: seq<Frame>) {
    && |m| <= MAX_FRAMES
    && (forall k :: 0 <= k < |s| ==> s[k] < |m|)
    && head == Link(s, 0)
    && (forall i :: 0 <= i < |s| ==> Linked(m, s, i))
  }

  ghost predicate Linked(m: Mem, s: seq<Frame>, i: nat)
    requires i < |s|
    requires |m| <= MAX_FRAMES && forall k :: 0 <= k < |s| ==> s[k] < |m|
  {
    m[s[i]][0] == Link(s, i + 1)
  }

  /** The links alone determine the stack: two readings of the same memory agree. */
  lemma {:induction false} StackIsUnique(m: Mem, head: Word, s: seq<Frame>, t: seq<Frame>)
    requires IsStack(m, head, s) && IsStack(m, head, t)
    ensures s == t
    decreases |s|
  {
    if s != [] && t != [] {
      assert P2V(s[0]) == P2V(t[0]);
      StackTail(m, head, s);
      StackTail(m, head, t);
      StackIsUnique(m, m[s[0]][0], s[1..], t[1..]);
      assert s == [s[0]] + s[1..] && t == [t[0]] + t[1..];
    }
  }

  lemma StackTail(m: Mem, head: Word, s: seq<Frame>)
    requires IsStack(m, head, s) && s != []
    ensures IsStack(m, m[s[0]][0], s[1..])
  {
    forall i | 0 <= i < |s[1..]|
      ensures Linked(m, s[1..], i)
    {
      assert Linked(m, s, i + 1);
    }
    assert Linked(m, s, 0);
  }

  /** A null-terminated chain of links cannot revisit a frame: the stack is acyclic. */
  lemma StackIsAcyclic(m: Mem, head: Word, s: seq<Frame>)
    requires IsStack(m, head, s)
    ensures NoDup(s)
  {
    forall i, j | 0 <= i < j < |s|
      ensures s[i] != s[j]
    {
      if s[i] == s[j] {
        RepeatNeverEnds(m, head, s, i, j, |s| - 1 - j);
      }
    }
  }

  lemma {:induction false} RepeatNeverEnds(m: Mem, head: Word, s: seq<Frame>, i: nat, j: nat, k: nat)
    requires IsStack(m, head, s) && i < j && j + k < |s| && s[i] == s[j]
    ensures s[i + k] == s[j + k]
    ensures j + k + 1 < |s|
    decreases k
  {
    if k > 0 {
      RepeatNeverEnds(m, head, s, i, j, k - 1);
      assert Linked(m, s, i + (k - 1)) && Linked(m, s, j + (k - 1));
    }
    assert Linked(m, s, i + k) && Linked(m, s, j + k);
  }

  /** Writes outside the free frames leave the stack alone. */
  lemma StackFrame(m: Mem, m': Mem, head: Word, s: seq<Frame>)
    requires IsStack(m, head, s) && |m'| == |m|
    requires forall k :: 0 <= k < |s| ==> m'[s[k]] == m[s[k]]
    ensures IsStack(m', head, s)
  {
    forall i | 0 <= i < |s|
      ensures Linked(m', s, i)
    {
      assert Linked(m, s, i);
    }
  }

  lemma StackSkips(m: Mem, head: Word, s: seq<Frame>, f: Frame, i: nat, w: Word)
    requires IsStack(m, head, s) && f < |m| && f !in s && i < ENTRIES
    ensures IsStack(SetWord(m, f, i, w), head, s)
  {
    forall k | 0 <= k < |s|
      ensures SetWord(m, f, i, w)[s[k]] == m[s[k]]
    {
      assert s[k] in s;
    }
    StackFrame(m, SetWord(m, f, i, w), head, s);
  }

  /** Threading one more frame onto the stack. */
  lemma StackPush(m: Mem, head: Word, s: seq<Frame>, f: Frame)
    requires IsStack(m, head, s) && f < |m| && f !in s
    ensures IsStack(SetWord(m, f, 0, head), P2V(f), [f] + s)
  {
    var m', s' := SetWord(m, f, 0, head), [f] + s;
    forall i | 0 <= i < |s'|
      ensures Linked(m', s', i)
    {
      if i > 0 {
        assert Linked(m, s, i - 1);
        assert s[i - 1] in s;
      }
    }
  }

  /** A frame freed while it is on the stack at position i: what the links then lead to. */
  lemma {:induction false} BackToStart(m: Mem, head: Word, s: seq<Frame>, i: nat, r: seq<Frame>, k: nat)
    requires IsStack(m, head, s) && k <= i < |s|
    requires IsStack(SetWord(m, s[i], 0, head), P2V(s[i]), r)
    ensures k + 1 < |r| && r[k + 1] == s[k]
    decreases k
  {
    StackIsAcyclic(m, head, s);
    var m' := SetWord(m, s[i], 0, head);
    if k == 0 {
      assert Linked(m', r, 0);
    } else {
      BackToStart(m, head, s, i, r, k - 1);
      assert Linked(m, s, k - 1) && Linked(m', r, k);
    }
  }

  /** Freeing a frame leaves a stack that ends if and only if the frame was not on it. */
  lemma FreeEndsIff(m: Mem, head: Word, s: seq<Frame>, f: Frame)
    requires IsStack(m, head, s) && f < |m|
    ensures (exists r :: IsStack(SetWord(m, f, 0, head), P2V(f), r)) <==> f !in s
  {
    if f !in s {
      StackPush(m, head, s, f);
    } else {
      var i :| 0 <= i < |s| && s[i] == f;
      forall r | IsStack(SetWord(m, f, 0, head), P2V(f), r)
        ensures false
      {
        BackToStart(m, head, s, i, r, i);
        StackIsAcyclic(SetWord(m, f, 0, head), P2V(f), r);
      }
    }
  }

  /** A frame freed twice in a row is linked to itself, so that taking it leaves it on top. */
  lemma FreedTwice(m: Mem, head: Word, s: seq<Frame>, f: Frame)
    requires IsStack(m, head, s) && f < |m| && f !in s
    ensures var m2 := SetWord(SetWord(m, f, 0, head), f, 0, P2V(f));
      m2[f][0] == P2V(f) && forall r :: !IsStack(m2, P2V(f), r)
  {
    StackPush(m, head, s, f);
    FreeEndsIff(SetWord(m, f, 0, head), P2V(f), [f] + s, f);
  }

  /** A memory area as the boot loader reports it; addresses in bytes. */
  datatype BootArea = BootArea(start: nat, end: nat, free: bool) {
    /** The frames visited by the loop of pmm_init over this area. */
    ghost predicate Visits(f: Frame) {
      start <= f * PAGE_SIZE && f * PAGE_SIZE + PAGE_SIZE < end
    }
    ghost predicate Offers(f: Frame) {
      free && Visits(f)
    }
  }

  ghost predicate Disjoint(a: BootArea, b: BootArea) {
    a.end <= b.start || b.end <= a.start
  }

  class Machine {
    var mem: Mem
    /** Frame number of pmm_pos. */
    var pos: Frame
    var stack: Word
    var running: bool
    ghost var free: seq<Frame>

    ghost predicate Valid()
      reads this
    {
      && IsStack(mem, stack, free)
      && (!running ==> free == [])
    }

    constructor (mem: Mem, kernelEnd: Frame)
      requires |mem| <= MAX_FRAMES
      ensures Valid() && !running && free == [] && this.mem == mem && pos == kernelEnd
    {
      this.mem, pos, stack, running, free := mem, kernelEnd, 0, false, [];
    }

    method Alloc() returns (f: Frame)
      requires Valid()
      requires running ==> free != []
      modifies `pos, `stack, `free
      ensures Valid()
      ensures running ==> [f] + free == old(free) && pos == old(pos) && f !in free
      ensures !running ==> f == old(pos) && pos == f + 1 && free == old(free)
    {
      if !running {
        f := pos;
        pos := pos + 1;
      } else {
        StackIsAcyclic(mem, stack, free);
        StackTail(mem, stack, free);
        f := (stack - KERNEL_OFFSET) / PAGE_SIZE;
        stack := mem[f][0];
        free := free[1..];
      }
    }

    method Free(page: Word)
      requires Valid()
      requires page / PAGE_SIZE < |mem| && page / PAGE_SIZE !in free
      modifies `mem, `stack, `running, `free
      ensures Valid() && running
      ensures free == [page / PAGE_SIZE] + old(free)
      ensures mem == SetWord(old(mem), page / PAGE_SIZE, 0, old(stack))
    {
      var f := page / PAGE_SIZE;
      StackPush(mem, stack, free, f);
      mem := SetWord(mem, f, 0, stack);
      stack := P2V(f);
      running := true;
      free := [f] + free;
    }

    /** Takes the frames that one vmm_set_page call needs for new tables; false when the
        free stack runs empty, where the kernel would follow a null pointer. */
    method AllocMany(n: nat) returns (ok: bool, ghost got: seq<Frame>)
      requires Valid()
      modifies `pos, `stack, `free
      ensures Valid()
      ensures running ==> got + free == old(free) && pos == old(pos) && (ok ==> |got| == n)
      ensures !running ==> ok && free == [] && pos == old(pos) + n
      ensures ok <==> !running || n <= |old(free)|
    {
      got := [];
      ghost var all := free;
      var i := 0;
      while i < n
        invariant i <= n && Valid()
        invariant running ==> |got| == i && pos == old(pos)
        invariant running ==> all == got + free
        invariant !running ==> free == [] && pos == old(pos) + i
      {
        if running && stack == 0 {
          return false, got;
        }
        ghost var rest := free;
        var f := Alloc();
        if running {
          assert got + rest == (got + [f]) + free;
          got := got + [f];
        }
        i := i + 1;
      }
      ok := true;
    }

    /** pmm_init. `used` stands for multiboot_page_used and `demand` for the number of
        tables that mapping a frame needs. The frames on the stack afterwards, with those
        already popped for tables, are exactly the free, unused, non-kernel ones. */
    method Init(areas: seq<BootArea>, used: set<Frame>, demand: Frame -> nat, kernelStart: Frame)
      returns (ok: bool, ghost taken: set<Frame>)
      requires Valid() && !running && kernelStart <= pos
      requires forall i :: 0 <= i < |areas| ==> areas[i].start % PAGE_SIZE == 0
      requires forall i, j :: 0 <= i < j < |areas| ==> Disjoint(areas[i], areas[j])
      requires forall i :: 0 <= i < |areas| ==> areas[i].end <= |mem| * PAGE_SIZE
      modifies this
      ensures Valid() && NoDup(free) && |mem| == |old(mem)| && old(pos) <= pos
      ensures forall f: Frame :: f in free ==> f !in taken
      ensures forall f: Frame :: f in free || f in taken ==>
        Offered(areas, f) && f !in used && !(kernelStart <= f < pos)
      ensures ok ==> forall f: Frame :: Offered(areas, f) && f !in used && !(kernelStart <= f < pos) ==>
        f in free || f in taken
      // offered: all of the frame, and a byte behind it, lies in a free area
      ensures forall f: Frame :: Offered(areas, f) <==>
        exists a :: a in areas && a.free && a.start <= f * 0x1000 && f * 0x1000 + 0x1000 < a.end
    {
      OfferedIs(areas);
      taken := {};
      var i := 0;
      while i < |areas|
        invariant i <= |areas| && Valid() && |mem| == |old(mem)| && old(pos) <= pos
        invariant !running ==> taken == {}
        invariant forall f: Frame :: f in free ==> f !in taken
        invariant Collected(free, taken, areas, used, kernelStart, pos, i, 0)
      {
        ok, taken := InitArea(areas, used, demand, kernelStart, i, taken);
        if !ok {
          StackIsAcyclic(mem, stack, free);
          return;
        }
        i := i + 1;
      }
      ok := true;
      StackIsAcyclic(mem, stack, free);
      assert forall f: Frame :: Offered(areas, f) <==> SeenOffered(areas, i, 0, f);
    }

    /** One pass of the inner loop of pmm_init: map frame f, then free it if it may be. */
    method InitFrame(areas: seq<BootArea>, used: set<Frame>, demand: Frame -> nat, kernelStart: Frame,
                     i: nat, f: Frame, ghost taken0: set<Frame>)
      returns (ok: bool, ghost taken: set<Frame>)
      requires Valid() && i < |areas| && areas[i].Visits(f) && f < |mem|
      requires !running ==> taken0 == {}
      requires forall j, k :: 0 <= j < k < |areas| ==> Disjoint(areas[j], areas[k])
      requires forall g: Frame :: g in free ==> g !in taken0
      requires Collected(free, taken0, areas, used, kernelStart, pos, i, f)
      modifies this
      ensures Valid() && |mem| == |old(mem)| && old(pos) <= pos
      ensures !running ==> taken == {}
      ensures forall g: Frame :: g in free ==> g !in taken
      ensures Collected(free, taken, areas, used, kernelStart, pos, i, if ok then f + 1 else f)
    {
      StackIsAcyclic(mem, stack, free);
      ghost var got;
      taken := taken0;
      ok, got := AllocMany(demand(f));
      if running {
        taken := taken + (set g | g in got);
        SplitNoDup(old(free), got, free);
      }
      assert Collected(free, taken, areas, used, kernelStart, pos, i, f);
      if !ok {
        return;
      }
      VisitedOnce(areas, i, f);
      if !(kernelStart <= f < pos) && f !in used && areas[i].free {
        Free(f * PAGE_SIZE);
      }
    }

    method InitArea(areas: seq<BootArea>, used: set<Frame>, demand: Frame -> nat, kernelStart: Frame,
                    i: nat, ghost taken0: set<Frame>)
      returns (ok: bool, ghost taken: set<Frame>)
      requires Valid() && kernelStart <= pos && i < |areas|
      requires !running ==> taken0 == {}
      requires forall k :: 0 <= k < |areas| ==> areas[k].start % PAGE_SIZE == 0
      requires forall j, k :: 0 <= j < k < |areas| ==> Disjoint(areas[j], areas[k])
      requires forall k :: 0 <= k < |areas| ==> areas[k].end <= |mem| * PAGE_SIZE
      requires forall f: Frame :: f in free ==> f !in taken0
      requires Collected(free, taken0, areas, used, kernelStart, pos, i, 0)
      modifies this
      ensures Valid() && |mem| == |old(mem)| && old(pos) <= pos
      ensures !running ==> taken == {}
      ensures forall f: Frame :: f in free ==> f !in taken
      ensures ok ==> Collected(free, taken, areas, used, kernelStart, pos, i + 1, 0)
      ensures forall f: Frame :: f in free || f in taken ==>
        Offered(areas, f) && f !in used && !(kernelStart <= f < pos)
    {
      taken := taken0;
      var area := areas[i];
      var p := area.start;
      while p + PAGE_SIZE < area.end
        invariant area.start <= p && p % PAGE_SIZE == 0
        invariant Valid() && |mem| == |old(mem)| && old(pos) <= pos
        invariant !running ==> taken == {}
        invariant forall f: Frame :: f in free ==> f !in taken
        invariant Collected(free, taken, areas, used, kernelStart, pos, i, p / PAGE_SIZE)
      {
        ok, taken := InitFrame(areas, used, demand, kernelStart, i, p / PAGE_SIZE, taken);
        if !ok {
          return;
        }
        p := p + PAGE_SIZE;
      }
      AreaDone(areas, i, p / PAGE_SIZE);
      ok := true;
    }
  }

  ghost predicate Offered(areas: seq<BootArea>, f: Frame) {
    exists i :: 0 <= i < |areas| && areas[i].Offers(f)
  }

  lemma OfferedIs(areas: seq<BootArea>)
    ensures forall f: Frame :: Offered(areas, f) <==>
      exists a :: a in areas && a.free && a.start <= f * 0x1000 && f * 0x1000 + 0x1000 < a.end
  {
    forall f: Frame
      ensures Offered(areas, f) <==>
        exists a :: a in areas && a.free && a.start <= f * 0x1000 && f * 0x1000 + 0x1000 < a.end
    {
      if Offered(areas, f) {
        var i :| 0 <= i < |areas| && areas[i].Offers(f);
        assert areas[i] in areas;
      }
      if a :| a in areas && a.free && a.start <= f * 0x1000 && f * 0x1000 + 0x1000 < a.end {
        var i :| 0 <= i < |areas| && areas[i] == a;
        assert areas[i].Offers(f);
      }
    }
  }

  /** Frames offered by the areas before i, and by area i below frame p. */
  ghost predicate SeenOffered(areas: seq<BootArea>, i: nat, p: Frame, f: Frame) {
    exists k :: 0 <= k < |areas| && areas[k].Offers(f) && (k < i || (k == i && f < p))
  }

  /** Disjoint areas: the loop meets each frame once. */
  lemma VisitedOnce(areas: seq<BootArea>, i: nat, f: Frame)
    requires forall j, k :: 0 <= j < k < |areas| ==> Disjoint(areas[j], areas[k])
    requires i < |areas| && areas[i].Visits(f)
    ensures !SeenOffered(areas, i, f, f)
    ensures forall g: Frame :: SeenOffered(areas, i, f + 1, g) <==>
      SeenOffered(areas, i, f, g) || (g == f && areas[i].free)
  {
    forall g: Frame | SeenOffered(areas, i, f, g)
      ensures SeenOffered(areas, i, f + 1, g)
    {
      var k :| 0 <= k < |areas| && areas[k].Offers(g) && (k < i || (k == i && g < f));
    }
    if areas[i].free {
      assert areas[i].Offers(f);
    }
  }

  /** The next area starts where the previous one's loop ended. */
  lemma AreaDone(areas: seq<BootArea>, i: nat, p: Frame)
    requires i < |areas| && areas[i].end <= p * PAGE_SIZE + PAGE_SIZE
    ensures forall g: Frame :: SeenOffered(areas, i, p, g) <==> SeenOffered(areas, i + 1, 0, g)
  {
    forall g: Frame
      ensures SeenOffered(areas, i, p, g) <==> SeenOffered(areas, i + 1, 0, g)
    {
      if SeenOffered(areas, i + 1, 0, g) {
        var k :| 0 <= k < |areas| && areas[k].Offers(g) && k < i + 1;
        assert k < i || g < p;
      }
      if SeenOffered(areas, i, p, g) {
        var k :| 0 <= k < |areas| && areas[k].Offers(g) && (k < i || (k == i && g < p));
      }
    }
  }

  lemma SplitNoDup(s: seq<Frame>, a: seq<Frame>, b: seq<Frame>)
    requires NoDup(s) && a + b == s
    ensures forall f: Frame :: f in a ==> f !in b
    ensures forall f: Frame :: f in s <==> f in a || f in b
  {
    forall i, j | 0 <= i < |a| && 0 <= j < |b|
      ensures a[i] != b[j]
    {
      assert s[i] == a[i] && s[|a| + j] == b[j];
    }
  }

  ghost predicate Collected(free: seq<Frame>, taken: set<Frame>, areas: seq<BootArea>, used: set<Frame>,
                            kernelStart: Frame, pos: Frame, i: nat, p: Frame) {
    forall f: Frame :: (f in free || f in taken) <==>
      SeenOffered(areas, i, p, f) && f !in used && !(kernelStart <= f < pos)
  }
}
