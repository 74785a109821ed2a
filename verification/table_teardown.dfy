/** vmm_free_P4 (kernel/mem/vmm.c): returning a whole table tree to the free stack. */
module TableTeardown {
  import opened Common
  import opened PhysicalMemory
  import opened FrameAllocator
  import opened PageTables

  /** A tree whose frames are all owned once and none of which is free. */
  ghost predicate Holds(mc: Machine, p4: Frame, t: Tree)
    reads mc
  {
    && mc.Valid() && mc.running
    && IsTree(mc.mem, p4, t) && Owned(mc.mem, t)
    && (forall n :: n in t ==> t[n] !in mc.free)
  }

  /** The ancestor of k at the given level. */
  function Anc(k: Node, level: nat): (a: Node)
    requires k.level <= level
    ensures a.level == level
    decreases level - k.level
  {
    if k.level == level then k else Anc(Up(k), level)
  }

  predicate Under(k: Node, n: Node) {
    k.level < n.level && Anc(k, n.level) == n
  }

  /** k hangs below one of the first i slots of n. */
  predicate UnderBefore(k: Node, n: Node, i: nat) {
    Under(k, n) && Anc(k, n.level - 1).key % 512 < i
  }

  lemma {:induction false} AncUp(k: Node, level: nat)
    requires k.level < level
    ensures Anc(k, level) == Up(Anc(k, level - 1))
    decreases level - k.level
  {
    if k.level + 1 < level {
      AncUp(Up(k), level);
    }
  }

  lemma NextSlot(k: Node, n: Node, i: nat)
    requires n.level > 0 && i < ENTRIES
    ensures UnderBefore(k, n, i + 1) <==> UnderBefore(k, n, i) || k == Down(n, i) || Under(k, Down(n, i))
  {
    if k.level < n.level {
      AncUp(k, n.level);
      var a := Anc(k, n.level - 1);
      assert a == Down(n, i) <==> Up(a) == n && a.key % 512 == i;
    }
  }

  /** Only nodes in range have something below them: slot 511 of the top table has not. */
  lemma {:induction false} UnderInRange(m: Mem, p4: Frame, t: Tree, k: Node, level: nat)
    requires IsTree(m, p4, t) && k in t && k.level <= level <= 4
    ensures Anc(k, level) in t
    decreases level - k.level
  {
    if k.level < level {
      assert HasParent(t, k);
      UnderInRange(m, p4, t, Up(k), level);
    }
  }

  /** t' is what is left of t when the nodes below the first i slots of n are gone. */
  ghost predicate Pruned(t: Tree, t': Tree, n: Node, i: nat) {
    && (forall k :: k in t' <==> k in t && !UnderBefore(k, n, i))
    && (forall k :: k in t' ==> t'[k] == t[k])
  }

  /** Memory outside the freed frames: only the cleared slots of table n changed. */
  ghost predicate Kept(m: Mem, m': Mem, t: Tree, t': Tree, n: Node)
    requires n in t
  {
    && |m'| == |m|
    && (forall k :: k in t' && k in t && k != n && t[k] < |m| ==> m'[t[k]] == m[t[k]])
    && (forall f: Frame :: f < |m| && f !in t.Values ==> m'[f] == m[f])
    && (t[n] < |m| && n == ROOT ==> m'[t[n]][KERNEL_SLOT] == m[t[n]][KERNEL_SLOT])
  }

  lemma RemovedValue(t: Tree, c: Node)
    requires c in t && forall n, k :: n in t && k in t && t[n] == t[k] ==> n == k
    ensures (t - {c}).Values + {t[c]} == t.Values
    ensures t[c] !in (t - {c}).Values
  {
    forall g | g in t.Values
      ensures g in (t - {c}).Values + {t[c]}
    {
      var n :| n in t && t[n] == g;
      if n != c {
        assert (t - {c})[n] == g;
      }
    }
  }

  /** pmm_free of a childless node's frame, then the store that clears its slot. */
  method FreeNode(mc: Machine, table: Frame, i: nat, e: Word, ghost p4: Frame, ghost t: Tree, ghost n: Node)
    returns (ghost t': Tree)
    requires Holds(mc, p4, t) && n in t && n.level > 0 && i < ENTRIES
    requires t[n] == table && Down(n, i) in t && Childless(t, Down(n, i)) && e == mc.mem[table][i]
    modifies mc`mem, mc`stack, mc`running, mc`free
    ensures Holds(mc, p4, t') && t' == t - {Down(n, i)}
    ensures mc.free == [t[Down(n, i)]] + old(mc.free)
    ensures Kept(old(mc.mem), mc.mem, t, t', n)
  {
    FreeNodeFacts(mc.mem, p4, t, n, i, mc.stack, mc.free);
    mc.Free(e);
    mc.mem := SetWord(mc.mem, table, i, 0);
    t' := t - {Down(n, i)};
  }

  ghost function Released(m: Mem, f: Frame, head: Word, table: Frame, i: nat): Mem
    requires f < |m| && table < |m| && i < ENTRIES
  {
    SetWord(SetWord(m, f, 0, head), table, i, 0)
  }

  lemma {:induction false} FreeNodeFacts(m: Mem, p4: Frame, t: Tree, n: Node, i: nat, head: Word, free: seq<Frame>)
    requires IsTree(m, p4, t) && Owned(m, t) && IsStack(m, head, free)
    requires forall k :: k in t ==> t[k] !in free
    requires n in t && n.level > 0 && i < ENTRIES && Down(n, i) in t && Childless(t, Down(n, i))
    ensures m[t[n]][i] / PAGE_SIZE == t[Down(n, i)]
    ensures IsTree(Released(m, t[Down(n, i)], head, t[n], i), p4, t - {Down(n, i)})
    ensures IsStack(Released(m, t[Down(n, i)], head, t[n], i), P2V(t[Down(n, i)]), [t[Down(n, i)]] + free)
    ensures forall k :: k in t - {Down(n, i)} ==> t[k] !in [t[Down(n, i)]] + free
    ensures Kept(m, Released(m, t[Down(n, i)], head, t[n], i), t, t - {Down(n, i)}, n)
  {
    var f := t[Down(n, i)];
    FreeNodeTree(m, p4, t, n, i, head);
    StackPush(m, head, free, f);
    StackSkips(SetWord(m, f, 0, head), P2V(f), [f] + free, t[n], i, 0);
  }

  lemma {:induction false} FreeNodeTree(m: Mem, p4: Frame, t: Tree, n: Node, i: nat, head: Word)
    requires IsTree(m, p4, t) && Owned(m, t) && n in t && n.level > 0 && i < ENTRIES
    requires Down(n, i) in t && Childless(t, Down(n, i))
    ensures m[t[n]][i] / PAGE_SIZE == t[Down(n, i)]
    ensures IsTree(Released(m, t[Down(n, i)], head, t[n], i), p4, t - {Down(n, i)})
    ensures Kept(m, Released(m, t[Down(n, i)], head, t[n], i), t, t - {Down(n, i)}, n)
  {
    var c := Down(n, i);
    var m' := Released(m, t[c], head, t[n], i);
    UpDown(n, i);
    assert SlotOk(m, t, n, i);
    ReleasedFrames(m, t[c], head, t[n], i);
    assert forall k :: k in t && k != n && k != c ==> m'[t[k]] == m[t[k]];
    Unlink(m, m', p4, t, c);
    assert t[c] in t.Values && t[n] in t.Values;
    if n == ROOT {
      KernelSlotIsOutside(i);
    }
  }

  lemma ReleasedFrames(m: Mem, f: Frame, head: Word, table: Frame, i: nat)
    requires f < |m| && table < |m| && i < ENTRIES && f != table
    ensures |Released(m, f, head, table, i)| == |m|
    ensures Released(m, f, head, table, i)[table] == m[table][i := 0]
    ensures forall g: Frame :: g < |m| && g != f && g != table ==> Released(m, f, head, table, i)[g] == m[g]
  {
    assert SetWord(m, f, 0, head)[table] == m[table];
  }

  /** Frames only move between the tree and the free stack. */
  ghost predicate Conserved(free: seq<Frame>, t: Tree, free': seq<Frame>, t': Tree) {
    FrameSet(free') + t'.Values == FrameSet(free) + t.Values
  }

  lemma FreedConserves(free: seq<Frame>, t: Tree, c: Node)
    requires c in t && forall n, k :: n in t && k in t && t[n] == t[k] ==> n == k
    ensures Conserved(free, t, [t[c]] + free, t - {c})
  {
    RemovedValue(t, c);
    assert FrameSet([t[c]] + free) == {t[c]} + FrameSet(free);
  }

  lemma KeptTwice(m: Mem, m1: Mem, m2: Mem, t: Tree, t1: Tree, t2: Tree, c: Node, n: Node)
    requires n in t && n in t1 && c in t && Kept(m, m1, t, t1, c) && Kept(m1, m2, t1, t2, n)
    requires forall k :: k in t1 ==> k in t && t1[k] == t[k]
    requires forall k :: k in t2 ==> k in t1
    requires c != n ==> c !in t2
    ensures Kept(m, m2, t, t2, n)
  {
    forall f: Frame | f < |m| && f !in t.Values
      ensures m2[f] == m[f]
    {
      assert f !in t1.Values;
    }
  }

  /** t' is t without node c and everything under it. */
  ghost predicate Cut(t: Tree, t': Tree, c: Node) {
    && (forall k :: k in t' <==> k in t && k != c && !Under(k, c))
    && (forall k :: k in t' ==> t'[k] == t[k])
  }

  /** One pass of a loop of vmm_free_P4: everything below slot i of table n, then the slot. */
  method FreeSlot(mc: Machine, table: Frame, level: nat, i: nat, ghost p4: Frame, ghost t: Tree, ghost n: Node)
    returns (ghost t': Tree)
    requires Holds(mc, p4, t) && n in t && t[n] == table
    requires level == n.level > 0 && i < ENTRIES && InRange(Down(n, i))
    modifies mc`mem, mc`stack, mc`running, mc`free
    ensures Holds(mc, p4, t') && Cut(t, t', Down(n, i))
    ensures Conserved(old(mc.free), t, mc.free, t') && Kept(old(mc.mem), mc.mem, t, t', n)
    decreases level, 1
  {
    t' := t;
    assert SlotOk(mc.mem, t, n, i);
    if mc.mem[table][i] == 0 {
      NothingUnder(mc.mem, p4, t, Down(n, i));
    } else {
      t' := FreeEntry(mc, table, level, i, p4, t, n);
    }
  }

  lemma CutFrom(t: Tree, t1: Tree, c: Node)
    requires forall k :: k in t1 <==> k in t && !Under(k, c)
    requires forall k :: k in t1 ==> t1[k] == t[k]
    ensures Cut(t, t1 - {c}, c)
  {
  }

  method FreeEntry(mc: Machine, table: Frame, level: nat, i: nat, ghost p4: Frame, ghost t: Tree, ghost n: Node)
    returns (ghost t': Tree)
    requires Holds(mc, p4, t) && n in t && t[n] == table
    requires level == n.level > 0 && i < ENTRIES && Down(n, i) in t
    modifies mc`mem, mc`stack, mc`running, mc`free
    ensures Holds(mc, p4, t') && Cut(t, t', Down(n, i))
    ensures Conserved(old(mc.free), t, mc.free, t') && Kept(old(mc.mem), mc.mem, t, t', n)
    decreases level, 0
  {
    ghost var c := Down(n, i);
    UpDown(n, i);
    assert SlotOk(mc.mem, t, n, i);
    var e := mc.mem[table][i];
    t' := t;
    if level > 1 {
      t' := FreeBelow(mc, e / PAGE_SIZE, level - 1, p4, t, c);
    }
    NothingLeft(t', c);
    ghost var m1, t1 := mc.mem, t';
    CutFrom(t, t1, c);
    FreedConserves(mc.free, t', c);
    t' := FreeNode(mc, table, i, e, p4, t', n);
    if level > 1 {
      KeptTwice(old(mc.mem), m1, mc.mem, t, t1, t', c, n);
    }
  }

  lemma NothingLeft(t: Tree, c: Node)
    requires forall k :: k in t ==> !Under(k, c)
    ensures Childless(t, c)
  {
    forall j: nat | c.level > 0 && j < ENTRIES
      ensures Down(c, j) !in t
    {
      UpDown(c, j);
      assert Anc(Down(c, j), c.level) == Anc(Up(Down(c, j)), c.level);
    }
  }

  lemma {:induction false} NothingUnder(m: Mem, p4: Frame, t: Tree, c: Node)
    requires IsTree(m, p4, t) && c !in t && c.level <= 4
    ensures forall k :: k in t ==> !Under(k, c)
  {
    forall k | k in t
      ensures !Under(k, c)
    {
      if k.level < c.level {
        UnderInRange(m, p4, t, k, c.level);
      }
    }
  }

  /** The loop of vmm_free_P4 over the slots of one table; the top table stops short of the
      kernel slot. Everything below the table goes to the free stack. */
  method FreeBelow(mc: Machine, table: Frame, level: nat, ghost p4: Frame, ghost t: Tree, ghost n: Node)
    returns (ghost t': Tree)
    requires Holds(mc, p4, t) && n in t && t[n] == table && level == n.level > 0
    modifies mc`mem, mc`stack, mc`running, mc`free
    ensures Holds(mc, p4, t')
    ensures forall k :: k in t' <==> k in t && !Under(k, n)
    ensures forall k :: k in t' ==> t'[k] == t[k]
    ensures Conserved(old(mc.free), t, mc.free, t') && Kept(old(mc.mem), mc.mem, t, t', n)
    decreases level, 2
  {
    t' := t;
    var limit := if level == 4 then KERNEL_SLOT else ENTRIES;
    var i := 0;
    while i < limit
      invariant i <= limit && Holds(mc, p4, t') && Pruned(t, t', n, i) && n in t'
      invariant Conserved(old(mc.free), t, mc.free, t') && Kept(old(mc.mem), mc.mem, t, t', n)
    {
      ghost var m1, t1 := mc.mem, t';
      SlotInRange(n, i);
      t' := FreeSlot(mc, table, level, i, p4, t', n);
      KeptTwice(old(mc.mem), m1, mc.mem, t, t1, t', n, n);
      forall k
        ensures k in t' <==> k in t && !UnderBefore(k, n, i + 1)
      {
        NextSlot(k, n, i);
      }
      i := i + 1;
    }
    forall k | k in t && Under(k, n)
      ensures UnderBefore(k, n, limit)
    {
      UnderInRange(old(mc.mem), p4, t, k, n.level - 1);
      AncUp(k, n.level);
    }
  }

  lemma SlotInRange(n: Node, i: nat)
    requires InRange(n) && 0 < n.level && i < if n.level == 4 then KERNEL_SLOT else ENTRIES
    ensures InRange(Down(n, i))
  {
    assert n.level <= 4;
  }

  lemma OnlyRootLeft(m: Mem, p4: Frame, t: Tree)
    requires IsTree(m, p4, t) && forall k :: k in t ==> !Under(k, ROOT)
    ensures t == map[ROOT := p4] && t.Values == {p4}
  {
    forall k | k in t
      ensures k == ROOT
    {
      assert InRange(k) && k.level <= 4;
      UnderInRange(m, p4, t, k, 4);
      assert InRange(Anc(k, 4)) && Anc(k, 4) == ROOT;
    }
    assert t[ROOT] == p4;
  }

  /** vmm_free_P4: every frame of the tree, pages, tables and top table alike, ends up on
      the free stack exactly once, and no frame outside the tree is written. */
  method FreeP4(mc: Machine, p4: Frame, ghost t: Tree)
    requires Holds(mc, p4, t)
    modifies mc`mem, mc`stack, mc`running, mc`free
    ensures mc.Valid() && mc.running && NoDup(mc.free)
    ensures FrameSet(mc.free) == FrameSet(old(mc.free)) + t.Values
    ensures forall n :: n in t ==> t[n] !in old(mc.free)
    ensures |mc.mem| == |old(mc.mem)|
    ensures forall f: Frame :: f < |mc.mem| && f !in t.Values ==> mc.mem[f] == old(mc.mem[f])
  {
    ghost var t' := FreeBelow(mc, p4, 4, p4, t, ROOT);
    OnlyRootLeft(mc.mem, p4, t');
    assert t[ROOT] in t.Values;
    ghost var free1 := mc.free;
    mc.Free(Address(p4));
    assert FrameSet([p4] + free1) == {p4} + FrameSet(free1);
    StackIsAcyclic(mc.mem, mc.stack, mc.free);
  }
}
