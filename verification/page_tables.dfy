/** The four-level page tables of kernel/mem/vmm.c. */
module PageTables {
  import opened PhysicalMemory
  import opened FrameAllocator

  const TABLE_FLAGS: nat := 7   // PAGE_PRESENT | PAGE_WRITE | PAGE_USER
  const KERNEL_SLOT: nat := 511 // P4_OFFSET(KERNEL_OFFSET)
  /** Pages below the kernel slot of the top table. */
  const USER_PAGES: nat := 511 * 512 * 512 * 512

  // ---- Addresses ----

  function P1Offset(addr: nat): nat { addr / 0x1000 % 512 }
  function P2Offset(addr: nat): nat { addr / 0x20_0000 % 512 }
  function P3Offset(addr: nat): nat { addr / 0x4000_0000 % 512 }
  function P4Offset(addr: nat): nat { addr / 0x80_0000_0000 % 512 }

  /** Number, among the tables of a level, of the one that covers page v. */
  function Key(v: nat, level: nat): nat {
    if level == 0 then v else Key(v, level - 1) / 512
  }

  lemma OffsetsAreKeys(addr: nat)
    ensures var v := PageOf(addr);
      && P1Offset(addr) == Key(v, 0) % 512 && P2Offset(addr) == Key(v, 1) % 512
      && P3Offset(addr) == Key(v, 2) % 512 && P4Offset(addr) == Key(v, 3) % 512
  {
    var v := PageOf(addr);
    assert Key(v, 1) == v / 512 == addr / 0x20_0000;
    assert Key(v, 2) == v / 512 / 512 == addr / 0x4000_0000;
    assert Key(v, 3) == v / 512 / 512 / 512 == addr / 0x80_0000_0000;
  }

  /** Slot 511 of the top table is the kernel's; the pages below are the user's. */
  lemma KernelSlotIs(v: nat)
    requires v < 512 * 512 * 512 * 512
    ensures KERNEL_SLOT == P4Offset(0xFFFF_FF80_0000_0000) == 511
    ensures v < USER_PAGES <==> P4Offset(v * 0x1000) != KERNEL_SLOT
  {
    assert v * 0x1000 / 0x80_0000_0000 == v / 0x800_0000;
  }

  function Pow2(n: nat): nat { if n == 0 then 1 else 2 * Pow2(n - 1) }

  /** The bitwise or of two numbers of n bits. */
  function Or(a: nat, b: nat, n: nat): (r: nat)
    requires a < Pow2(n) && b < Pow2(n)
    ensures r < Pow2(n) && (a == 0 ==> r == b)
    decreases n
  {
    if n == 0 then 0 else (if a % 2 == 1 || b % 2 == 1 then 1 else 0) + 2 * Or(a / 2, b / 2, n - 1)
  }

  predicate Bit(a: nat, k: nat) { if k == 0 then a % 2 == 1 else Bit(a / 2, k - 1) }

  lemma {:induction false} OrBits(a: nat, b: nat, n: nat, k: nat)
    requires a < Pow2(n) && b < Pow2(n) && k < n
    ensures Bit(Or(a, b, n), k) <==> Bit(a, k) || Bit(b, k)
    decreases n
  {
    if k > 0 {
      OrBits(a / 2, b / 2, n - 1, k - 1);
      assert Or(a, b, n) / 2 == Or(a / 2, b / 2, n - 1);
    }
  }

  function Or12(a: nat, b: nat): (r: nat)
    requires a < 0x1000 && b < 0x1000
    ensures r < 0x1000 && (a == 0 ==> r == b)
  {
    assert Pow2(12) == 0x1000;
    Or(a, b, 12)
  }

  /** ADD_FLAGS: the frame of the address, and its low twelve bits or'ed with the flags'; an
      aligned address and its flags can be told apart again. */
  function AddFlags(phys: Word, flags: nat): (e: Word)
    ensures e / PAGE_SIZE == phys / PAGE_SIZE && e % PAGE_SIZE == Or12(phys % PAGE_SIZE, flags % PAGE_SIZE)
    ensures phys % PAGE_SIZE == 0 ==> e % PAGE_SIZE == flags % PAGE_SIZE
  {
    WithLow(phys / 0x1000, Or12(phys % 0x1000, flags % 0x1000));
    phys / 0x1000 * 0x1000 + Or12(phys % 0x1000, flags % 0x1000)
  }

  lemma AddNothing()
    ensures AddFlags(0, 0) == 0
  {
    assert AddFlags(0, 0) / 0x1000 == 0 && AddFlags(0, 0) % 0x1000 == 0;
  }

  lemma WithLow(f: nat, low: nat)
    requires f < 0x10_0000_0000_0000 && low < 0x1000
    ensures (f * 0x1000 + low) / 0x1000 == f && (f * 0x1000 + low) % 0x1000 == low
    ensures f * 0x1000 + low < 0x1_0000_0000_0000_0000
  {
  }

  // ---- What the processor does with a table tree ----

  /** The translation walk: descend from a table of the given level to the entry of page v. */
  function Walk(m: Mem, table: Frame, level: nat, v: nat): Word
    requires level >= 1
    decreases level
  {
    if table >= |m| then 0 else
    var e := m[table][Key(v, level - 1) % 512];
    if level == 1 then e
    else if e == 0 then 0
    else Walk(m, e / PAGE_SIZE, level - 1, v)
  }

  // ---- Ghost trees ----

  /** Level 4 is the top table, level 1 a last-level table, level 0 a mapped page. */
  datatype Node = Node(level: nat, key: nat)
  type Tree = map<Node, Frame>

  const ROOT: Node := Node(4, 0)

  function Up(n: Node): Node { Node(n.level + 1, n.key / 512) }
  function Down(n: Node, i: nat): Node
    requires n.level > 0
  {
    Node(n.level - 1, n.key * 512 + i)
  }

  function Span(level: nat): nat {
    match level
    case 0 => USER_PAGES
    case 1 => 511 * 512 * 512
    case 2 => 511 * 512
    case 3 => 511
    case 4 => 1
    case _ => 0
  }

  predicate InRange(n: Node) { n.key < Span(n.level) }

  ghost predicate HasParent(t: Tree, n: Node) { n in t ==> n.level == 4 || Up(n) in t }

  /** Slot i of table n holds the entry of the child below it, or 0 when there is none. */
  ghost predicate SlotOk(m: Mem, t: Tree, n: Node, i: nat)
    requires n in t && t[n] < |m| && n.level > 0 && i < ENTRIES
  {
    var e, c := m[t[n]][i], Down(n, i);
    && (e != 0 <==> c in t)
    && (c in t ==> e / PAGE_SIZE == t[c])
    && (c in t && n.level > 1 ==> e % PAGE_SIZE == TABLE_FLAGS)
  }

  /** t describes the user half of the tables rooted at p4, and no table has two parents. */
  ghost predicate IsTree(m: Mem, p4: Frame, t: Tree) {
    && ROOT in t && t[ROOT] == p4
    && (forall n :: n in t ==> InRange(n) && (n.level > 0 ==> t[n] < |m|))
    && (forall n :: HasParent(t, n))
    && (forall n, i: nat {:trigger SlotOk(m, t, n, i)} ::
          n in t && n.level > 0 && i < ENTRIES && InRange(Down(n, i)) ==> SlotOk(m, t, n, i))
    && (forall n, k :: n in t && k in t && n.level > 0 && k.level > 0 && t[n] == t[k] ==> n == k)
  }

  /** Every frame of the tree, mapped pages included, has exactly one owner. */
  ghost predicate Owned(m: Mem, t: Tree) {
    && (forall n :: n in t ==> t[n] < |m|)
    && (forall n, k :: n in t && k in t && t[n] == t[k] ==> n == k)
  }

  function TableOf(v: nat): Node { Node(1, v / 512) }

  /** The flat view: the entry of page v. */
  ghost function Entry(m: Mem, t: Tree, v: nat): Word {
    if TableOf(v) in t && t[TableOf(v)] < |m| then m[t[TableOf(v)]][v % 512] else 0
  }

  lemma MappedIffEntry(m: Mem, p4: Frame, t: Tree, v: nat)
    requires IsTree(m, p4, t) && v < USER_PAGES
    ensures Node(0, v) in t <==> Entry(m, t, v) != 0
    ensures Node(0, v) in t ==> TableOf(v) in t && t[Node(0, v)] == Entry(m, t, v) / PAGE_SIZE
  {
    assert HasParent(t, Node(0, v));
    if TableOf(v) in t {
      assert Down(TableOf(v), v % 512) == Node(0, v);
      assert SlotOk(m, t, TableOf(v), v % 512);
    }
  }

  lemma {:induction false} WalkFollows(m: Mem, p4: Frame, t: Tree, level: nat, v: nat)
    requires IsTree(m, p4, t) && v < USER_PAGES && 1 <= level <= 4
    requires Node(level, Key(v, level)) in t
    ensures Walk(m, t[Node(level, Key(v, level))], level, v) == Entry(m, t, v)
    decreases level
  {
    var n, i := Node(level, Key(v, level)), Key(v, level - 1) % 512;
    assert Key(v, 1) == v / 512;
    if level > 1 {
      KeyInRange(v, level - 1);
      assert Down(n, i) == Node(level - 1, Key(v, level - 1));
      assert SlotOk(m, t, n, i);
      if Down(n, i) in t {
        WalkFollows(m, p4, t, level - 1, v);
      } else {
        NoTableBelow(m, p4, t, level - 1, v);
      }
    }
  }

  lemma KeyInRange(v: nat, level: nat)
    requires v < USER_PAGES && level <= 4
    ensures Key(v, level) < Span(level)
  {
    assert Key(v, 1) == v / 512;
    assert Key(v, 2) == v / 512 / 512;
    assert Key(v, 3) == v / 512 / 512 / 512;
    assert Key(v, 4) == v / 512 / 512 / 512 / 512;
  }

  lemma {:induction false} NoTableBelow(m: Mem, p4: Frame, t: Tree, level: nat, v: nat)
    requires IsTree(m, p4, t) && v < USER_PAGES && 1 <= level <= 4
    requires Node(level, Key(v, level)) !in t
    ensures TableOf(v) !in t
    decreases level
  {
    assert Key(v, 1) == v / 512;
    if level > 1 {
      assert HasParent(t, Node(level - 1, Key(v, level - 1)));
      NoTableBelow(m, p4, t, level - 1, v);
    }
  }

  /** The tree refines a flat map: the processor's walk from the top table finds, for every
      user page, the entry of the flat view. */
  lemma WalkIsEntry(m: Mem, p4: Frame, t: Tree, v: nat)
    requires IsTree(m, p4, t) && v < USER_PAGES
    ensures Walk(m, p4, 4, v) == Entry(m, t, v)
  {
    KeyInRange(v, 4);
    assert Node(4, Key(v, 4)) == ROOT;
    WalkFollows(m, p4, t, 4, v);
  }

  /** Looking up a page that is not mapped gives 0, so that what is freed for it is frame 0. */
  lemma UnmappedIsFrameZero(m: Mem, p4: Frame, t: Tree, v: nat)
    requires IsTree(m, p4, t) && v < USER_PAGES
    ensures Node(0, v) !in t <==> Walk(m, p4, 4, v) == 0
    ensures Node(0, v) !in t ==> Walk(m, p4, 4, v) / PAGE_SIZE == 0
  {
    WalkIsEntry(m, p4, t, v);
    MappedIffEntry(m, p4, t, v);
  }

  /** What the processor asks of a walk before user code may read and write page v: present,
      write and user, and no other flag, in every entry on the way. */
  ghost predicate MayUse(m: Mem, table: Frame, level: nat, v: nat)
    requires level >= 1
    decreases level
  {
    && table < |m|
    && var e := m[table][Key(v, level - 1) % 512];
    e % 0x1000 == 7 && (level == 1 || MayUse(m, e / 0x1000, level - 1, v))
  }

  lemma {:induction false} PathMayUse(m: Mem, p4: Frame, t: Tree, level: nat, v: nat)
    requires IsTree(m, p4, t) && v < USER_PAGES && 1 <= level <= 4
    requires Node(level, Key(v, level)) in t && TableOf(v) in t && Entry(m, t, v) % 0x1000 == 7
    ensures MayUse(m, t[Node(level, Key(v, level))], level, v)
    decreases level
  {
    var n, i := Node(level, Key(v, level)), Key(v, level - 1) % 512;
    assert Key(v, 1) == v / 512;
    if level > 1 {
      KeyInRange(v, level - 1);
      assert Down(n, i) == Node(level - 1, Key(v, level - 1));
      assert SlotOk(m, t, n, i);
      if Down(n, i) in t {
        PathMayUse(m, p4, t, level - 1, v);
      } else {
        NoTableBelow(m, p4, t, level - 1, v);
      }
    }
  }

  /** A page whose last entry has the three flags has them all the way. */
  lemma PageMayUse(m: Mem, p4: Frame, t: Tree, v: nat)
    requires IsTree(m, p4, t) && v < USER_PAGES && Walk(m, p4, 4, v) % 0x1000 == 7
    ensures MayUse(m, p4, 4, v)
  {
    KeyInRange(v, 4);
    assert Node(4, Key(v, 4)) == ROOT;
    WalkIsEntry(m, p4, t, v);
    PathMayUse(m, p4, t, 4, v);
  }

  lemma {:induction false} UsedIsPresent(m: Mem, table: Frame, level: nat, v: nat)
    requires level >= 1 && MayUse(m, table, level, v)
    ensures Walk(m, table, level, v) % 0x1000 == 7
    decreases level
  {
    if level > 1 {
      UsedIsPresent(m, m[table][Key(v, level - 1) % 512] / 0x1000, level - 1, v);
    }
  }

  /** The walks of all user pages but v..w-1 are as they were. */
  ghost predicate SameWalks(m: Mem, m': Mem, p4: Frame, v: nat, w: nat) {
    forall u: nat :: u < USER_PAGES && !(v <= u < w) ==> Walk(m', p4, 4, u) == Walk(m, p4, 4, u)
  }

  /** Translations are read from the tables alone. */
  lemma WalksStay(m: Mem, m': Mem, p4: Frame, t: Tree)
    requires IsTree(m, p4, t) && |m'| == |m|
    requires forall n :: n in t && n.level > 0 ==> m'[t[n]] == m[t[n]]
    ensures SameWalks(m, m', p4, 0, 0)
  {
    TreeFrame(m, m', p4, t);
    forall u: nat | u < USER_PAGES
      ensures Walk(m', p4, 4, u) == Walk(m, p4, 4, u)
    {
      WalkIsEntry(m, p4, t, u);
      WalkIsEntry(m', p4, t, u);
    }
  }

  /** Every mapped page of t is one that user code may read and write. */
  ghost predicate UserPages(m: Mem, p4: Frame, t: Tree) {
    forall u: nat :: u < USER_PAGES && Node(0, u) in t ==> Walk(m, p4, 4, u) % 0x1000 == 7
  }

  lemma UserPagesStay(m: Mem, m': Mem, p4: Frame, t: Tree)
    requires IsTree(m, p4, t) && UserPages(m, p4, t) && |m'| == |m|
    requires forall n :: n in t && n.level > 0 ==> m'[t[n]] == m[t[n]]
    ensures UserPages(m', p4, t)
  {
    WalksStay(m, m', p4, t);
    hide IsTree, Walk;
  }

  /** The top table's slot for the kernel holds e. */
  predicate KernelIn(m: Mem, p4: Frame, e: Word) { p4 < |m| && m[p4][KERNEL_SLOT] == e }

  /** Spaces that hold the same entry there see the same kernel: every page of the kernel's
      half translates alike. */
  lemma SameKernel(m: Mem, p4: Frame, other: Frame, e: Word, v: nat)
    requires KernelIn(m, p4, e) && KernelIn(m, other, e) && Key(v, 3) % 512 == KERNEL_SLOT
    ensures Walk(m, p4, 4, v) == Walk(m, other, 4, v)
  {
  }

  // ---- How single stores change a tree ----

  /** A tree is read from its tables alone. */
  lemma {:induction false} TreeFrame(m: Mem, m': Mem, p4: Frame, t: Tree)
    requires IsTree(m, p4, t) && |m'| == |m|
    requires forall n :: n in t && n.level > 0 ==> m'[t[n]] == m[t[n]]
    ensures IsTree(m', p4, t)
  {
    forall n, i: nat | n in t && n.level > 0 && i < ENTRIES && InRange(Down(n, i))
      ensures SlotOk(m', t, n, i)
    {
      assert SlotOk(m, t, n, i);
    }
  }

  lemma UpDown(n: Node, i: nat)
    requires n.level > 0 && i < ENTRIES
    ensures Up(Down(n, i)) == n && Down(n, i).key % 512 == i
  {
  }

  lemma KernelSlotIsOutside(i: nat)
    requires InRange(Down(ROOT, i))
    ensures i < KERNEL_SLOT
  {
  }

  ghost predicate NoTableIn(t: Tree, f: Frame) {
    forall n :: n in t && n.level > 0 ==> t[n] != f
  }

  /** memset of the new frame, then the store into the parent's slot. */
  function Linked(m: Mem, table: Frame, i: nat, f: Frame): Mem
    requires table < |m| && f < |m| <= MAX_FRAMES && i < ENTRIES
  {
    SetWord(m[f := ZeroPage()], table, i, f * PAGE_SIZE + TABLE_FLAGS)
  }

  /** Hanging a zeroed frame into an empty slot adds one table and maps nothing. */
  lemma {:induction false} LinkTable(m: Mem, p4: Frame, t: Tree, n: Node, i: nat, f: Frame)
    requires IsTree(m, p4, t) && n in t && n.level > 1 && i < ENTRIES
    requires InRange(Down(n, i)) && Down(n, i) !in t
    requires f < |m| <= MAX_FRAMES && NoTableIn(t, f)
    ensures IsTree(Linked(m, t[n], i, f), p4, t[Down(n, i) := f])
    ensures forall v :: 0 <= v < USER_PAGES ==>
      Entry(Linked(m, t[n], i, f), t[Down(n, i) := f], v) == Entry(m, t, v)
  {
    var c := Down(n, i);
    var m', t' := Linked(m, t[n], i, f), t[c := f];
    UpDown(n, i);
    forall k
      ensures HasParent(t', k)
    {
      assert HasParent(t, k);
    }
    forall k, j: nat | k in t' && k.level > 0 && j < ENTRIES && InRange(Down(k, j))
      ensures SlotOk(m', t', k, j)
    {
      UpDown(k, j);
      if k == c {
        assert HasParent(t, Down(c, j));
      } else {
        assert SlotOk(m, t, k, j);
      }
    }
    forall v | 0 <= v < USER_PAGES
      ensures Entry(m', t', v) == Entry(m, t, v)
    {
      assert TableOf(v) in t' ==> TableOf(v) == c || TableOf(v) in t;
    }
  }

  ghost function Stored(t: Tree, v: nat, e: Word): Tree {
    if e == 0 then t - {Node(0, v)} else t[Node(0, v) := e / PAGE_SIZE]
  }

  /** Storing a last-level entry changes the flat view at that page only. */
  lemma {:induction false} StoreEntry(m: Mem, p4: Frame, t: Tree, v: nat, e: Word)
    requires IsTree(m, p4, t) && v < USER_PAGES && TableOf(v) in t
    ensures IsTree(SetWord(m, t[TableOf(v)], v % 512, e), p4, Stored(t, v, e))
    ensures forall u :: 0 <= u < USER_PAGES ==>
      Entry(SetWord(m, t[TableOf(v)], v % 512, e), Stored(t, v, e), u) ==
        if u == v then e else Entry(m, t, u)
  {
    var m', t' := SetWord(m, t[TableOf(v)], v % 512, e), Stored(t, v, e);
    forall k
      ensures HasParent(t', k)
    {
      assert HasParent(t, k);
    }
    forall k, j: nat | k in t' && k.level > 0 && j < ENTRIES && InRange(Down(k, j))
      ensures SlotOk(m', t', k, j)
    {
      UpDown(k, j);
      assert SlotOk(m, t, k, j);
    }
    forall u | 0 <= u < USER_PAGES
      ensures Entry(m', t', u) == if u == v then e else Entry(m, t, u)
    {
      assert TableOf(u) in t' <==> TableOf(u) in t;
    }
  }

  /** Node c has no children left. */
  ghost predicate Childless(t: Tree, c: Node) {
    forall j: nat :: c.level > 0 && j < ENTRIES ==> Down(c, j) !in t
  }

  /** Clearing the slot of a childless node removes it, whatever its own frame now holds. */
  lemma {:induction false} Unlink(m: Mem, m': Mem, p4: Frame, t: Tree, c: Node)
    requires IsTree(m, p4, t) && c in t && c.level < 4 && Childless(t, c)
    requires Up(c) in t && |m'| == |m|
    requires m'[t[Up(c)]] == m[t[Up(c)]][c.key % 512 := 0]
    requires forall n :: n in t && n.level > 0 && n != c && n != Up(c) ==> m'[t[n]] == m[t[n]]
    ensures IsTree(m', p4, t - {c})
  {
    var t' := t - {c};
    forall k
      ensures HasParent(t', k)
    {
      assert HasParent(t, k);
      if k in t && k.level < 4 {
        assert Down(Up(k), k.key % 512) == k;
      }
    }
    forall k, j: nat | k in t' && k.level > 0 && j < ENTRIES && InRange(Down(k, j))
      ensures SlotOk(m', t', k, j)
    {
      UpDown(k, j);
      assert SlotOk(m, t, k, j);
    }
  }

  // ---- The operations of vmm.c ----

  ghost function FrameSet(s: seq<Frame>): set<Frame> { set f | f in s }

  /** t' is t with new tables, built in exactly the frames of got. */
  ghost predicate Grown(t: Tree, t': Tree, got: seq<Frame>) {
    && (forall n :: n in t ==> n in t' && t'[n] == t[n])
    && (forall n :: n in t' && n !in t ==> 1 <= n.level <= 3 && t'[n] in got)
    && t'.Values == t.Values + FrameSet(got)
  }

  /** Frames that are neither tables of t nor in got hold what they held. */
  ghost predicate Untouched(m: Mem, m': Mem, t: Tree, got: seq<Frame>) {
    && |m'| == |m|
    && (forall f: Frame :: f < |m| && NoTableIn(t, f) && f !in got ==> m'[f] == m[f])
  }

  ghost predicate SameView(m: Mem, t: Tree, m': Mem, t': Tree) {
    forall v :: 0 <= v < USER_PAGES ==> Entry(m', t', v) == Entry(m, t, v)
  }

  /** Building tables: t grew to t' by popping exactly `got`, and neither a translation nor
      the kernel slot nor a frame outside the tables changed. */
  ghost predicate Built(p4: Frame, m: Mem, t: Tree, free: seq<Frame>,
                        m': Mem, t': Tree, free': seq<Frame>, got: seq<Frame>)
  {
    && free == got + free'
    && Grown(t, t', got)
    && SameView(m, t, m', t')
    && Untouched(m, m', t, got)
    && p4 < |m| && m'[p4][KERNEL_SLOT] == m[p4][KERNEL_SLOT]
  }

  /** The whole effect of vmm_set_page on page v: its walk gives e, every other user page
      translates as before, and t grew to b on the way, by tables in the frames of got. */
  ghost predicate Remapped(p4: Frame, m: Mem, t: Tree, free: seq<Frame>,
                           m': Mem, b: Tree, free': seq<Frame>, got: seq<Frame>, v: nat, e: Word)
  {
    && free == got + free'
    && Grown(t, b, got)
    && Untouched(m, m', t, got)
    && p4 < |m| && m'[p4][KERNEL_SLOT] == m[p4][KERNEL_SLOT]
    && forall u :: 0 <= u < USER_PAGES ==> Walk(m', p4, 4, u) == if u == v then e else Walk(m, p4, 4, u)
  }

  lemma BuiltTwice(p4: Frame, m: Mem, t: Tree, free: seq<Frame>, m1: Mem, t1: Tree, free1: seq<Frame>, g1: seq<Frame>,
                   m2: Mem, t2: Tree, free2: seq<Frame>, g2: seq<Frame>)
    requires Built(p4, m, t, free, m1, t1, free1, g1) && Built(p4, m1, t1, free1, m2, t2, free2, g2)
    ensures Built(p4, m, t, free, m2, t2, free2, g1 + g2)
  {
    assert FrameSet(g1 + g2) == FrameSet(g1) + FrameSet(g2);
    forall f: Frame | f < |m| && NoTableIn(t, f) && f !in g1 + g2
      ensures m2[f] == m[f]
    {
      assert f !in g1 && f !in g2;
      assert NoTableIn(t1, f);
    }
  }

  lemma NothingBuilt(p4: Frame, m: Mem, t: Tree, free: seq<Frame>)
    requires p4 < |m|
    ensures Built(p4, m, t, free, m, t, free, [])
  {
    assert FrameSet([]) == {};
  }

  /** A live tree: none of its tables is on the free stack. */
  ghost predicate Live(mc: Machine, p4: Frame, t: Tree)
    reads mc
  {
    && mc.Valid() && mc.running
    && IsTree(mc.mem, p4, t)
    && (forall n :: n in t && n.level > 0 ==> t[n] !in mc.free)
  }

  lemma AddedValue(t: Tree, c: Node, f: Frame)
    requires c !in t
    ensures t[c := f].Values == t.Values + {f}
  {
    assert t[c := f][c] == f;
    forall g | g in t.Values
      ensures g in t[c := f].Values
    {
      var n :| n in t && t[n] == g;
      assert t[c := f][n] == g;
    }
  }

  /** vmm_new_P4: an empty user half and the kernel's own slot. */
  method NewP4(mc: Machine, boot: Frame) returns (p4: Frame)
    requires mc.Valid() && mc.running && mc.free != []
    requires boot < |mc.mem| && boot !in mc.free
    modifies mc`pos, mc`stack, mc`free, mc`mem
    ensures Live(mc, p4, map[ROOT := p4])
    ensures old(mc.free) == [p4] + mc.free
    ensures |mc.mem| == |old(mc.mem)|
    ensures mc.mem[p4][KERNEL_SLOT] == mc.mem[boot][KERNEL_SLOT]
    ensures forall f :: 0 <= f < |mc.mem| && f != p4 ==> mc.mem[f] == old(mc.mem[f])
    ensures forall v :: 0 <= v < USER_PAGES ==> Walk(mc.mem, p4, 4, v) == 0
  {
    ghost var m0 := mc.mem;
    p4 := mc.Alloc();
    mc.mem := mc.mem[p4 := ZeroPage()];
    mc.mem := SetWord(mc.mem, p4, KERNEL_SLOT, mc.mem[boot][KERNEL_SLOT]);
    StackFrame(m0, mc.mem, mc.stack, mc.free);
    ghost var t: Tree := map[ROOT := p4];
    forall v | 0 <= v < USER_PAGES
      ensures Walk(mc.mem, p4, 4, v) == 0
    {
      WalkIsEntry(mc.mem, p4, t, v);
    }
  }

  /** The tables below the top one that translate page v. */
  ghost function TablePath(v: nat): set<Node> {
    {Node(3, Key(v, 3)), Node(2, Key(v, 2)), Node(1, Key(v, 1))}
  }

  function One(missing: bool): nat { if missing then 1 else 0 }

  /** How many of them are not among the nodes k. */
  ghost function TablesMissing(k: set<Node>, v: nat): nat {
    One(Node(3, Key(v, 3)) !in k) + One(Node(2, Key(v, 2)) !in k) + One(Node(1, Key(v, 1)) !in k)
  }

  /** One touching level of vmm_find_page: the table below slot i, made on demand. */
  method TouchChild(mc: Machine, table: Frame, i: nat, ghost p4: Frame, ghost t: Tree, ghost n: Node, ghost c: Node)
    returns (child: Frame, ghost t': Tree, ghost got: seq<Frame>)
    requires Live(mc, p4, t) && (c !in t ==> mc.free != [])
    requires n in t && t[n] == table && n.level > 1 && i < ENTRIES && InRange(c) && c == Down(n, i)
    modifies mc`pos, mc`stack, mc`free, mc`mem
    ensures Live(mc, p4, t') && |got| == One(c !in t) && t'.Keys == t.Keys + {c}
    ensures Built(p4, old(mc.mem), t, old(mc.free), mc.mem, t', mc.free, got)
    ensures child == t'[c]
  {
    t', got := t, [];
    NothingBuilt(p4, mc.mem, t, mc.free);
    assert SlotOk(mc.mem, t, n, i);
    var e := mc.mem[table][i];
    if e == 0 {
      e, t', got := NewTable(mc, table, i, p4, t, n);
    }
    child := e / PAGE_SIZE;
  }

  /** The touch branch of vmm_find_page. */
  method NewTable(mc: Machine, table: Frame, i: nat, ghost p4: Frame, ghost t: Tree, ghost n: Node)
    returns (e: Word, ghost t': Tree, ghost got: seq<Frame>)
    requires Live(mc, p4, t) && mc.free != []
    requires n in t && t[n] == table && n.level > 1 && i < ENTRIES && InRange(Down(n, i)) && Down(n, i) !in t
    modifies mc`pos, mc`stack, mc`free, mc`mem
    ensures Live(mc, p4, t') && |got| == 1 && t'.Keys == t.Keys + {Down(n, i)}
    ensures Built(p4, old(mc.mem), t, old(mc.free), mc.mem, t', mc.free, got)
    ensures Down(n, i) in t' && t'[Down(n, i)] == e / PAGE_SIZE
  {
    ghost var m0, free0 := mc.mem, mc.free;
    var f := mc.Alloc();
    assert free0[0] == f;
    NewTableFacts(m0, p4, t, n, i, f, free0, mc.stack, mc.free);
    e := f * PAGE_SIZE + TABLE_FLAGS;
    mc.mem := Linked(mc.mem, table, i, f);
    t', got := t[Down(n, i) := f], [f];
  }

  lemma {:induction false} NewTableFacts(m: Mem, p4: Frame, t: Tree, n: Node, i: nat, f: Frame,
                                         free0: seq<Frame>, head: Word, free: seq<Frame>)
    requires IsTree(m, p4, t) && n in t && n.level > 1 && i < ENTRIES
    requires InRange(Down(n, i)) && Down(n, i) !in t
    requires forall k :: k in t && k.level > 0 ==> t[k] !in free0
    requires free0 == [f] + free && f !in free && IsStack(m, head, free) && f < |m|
    ensures IsTree(Linked(m, t[n], i, f), p4, t[Down(n, i) := f])
    ensures IsStack(Linked(m, t[n], i, f), head, free)
    ensures forall k :: k in t[Down(n, i) := f] && k.level > 0 ==> t[Down(n, i) := f][k] !in free
    ensures Built(p4, m, t, free0, Linked(m, t[n], i, f), t[Down(n, i) := f], free, [f])
  {
    assert f in free0 && forall g :: g in free ==> g in free0;
    LinkTable(m, p4, t, n, i, f);
    AddedValue(t, Down(n, i), f);
    assert FrameSet([f]) == {f};
    LinkedFrames(m, p4, t, n, i, f);
    LinkedStack(m, t[n], i, f, head, free);
    hide IsTree, IsStack, Linked, Entry;
  }

  /** The stores that hang in a table touch the table above it and its own frame, and not the
      kernel slot of the top table. */
  lemma LinkedFrames(m: Mem, p4: Frame, t: Tree, n: Node, i: nat, f: Frame)
    requires IsTree(m, p4, t) && n in t && n.level > 1 && i < ENTRIES && InRange(Down(n, i))
    requires f < |m| <= MAX_FRAMES && NoTableIn(t, f)
    ensures Untouched(m, Linked(m, t[n], i, f), t, [f])
    ensures p4 < |m| && Linked(m, t[n], i, f)[p4][KERNEL_SLOT] == m[p4][KERNEL_SLOT]
  {
    if n == ROOT {
      KernelSlotIsOutside(i);
    }
  }

  lemma LinkedStack(m: Mem, table: Frame, i: nat, f: Frame, head: Word, free: seq<Frame>)
    requires IsStack(m, head, free) && table < |m| && f < |m| && i < ENTRIES && f !in free && table !in free
    ensures IsStack(Linked(m, table, i, f), head, free)
  {
    var m' := Linked(m, table, i, f);
    forall k | 0 <= k < |free|
      ensures m'[free[k]] == m[free[k]]
    {
      assert free[k] in free;
    }
    StackFrame(m, m', head, free);
  }

  lemma PathNodes(addr: nat)
    requires PageOf(addr) < USER_PAGES
    ensures var v := PageOf(addr);
      && Down(ROOT, P4Offset(addr)) == Node(3, Key(v, 3)) && InRange(Node(3, Key(v, 3)))
      && Down(Node(3, Key(v, 3)), P3Offset(addr)) == Node(2, Key(v, 2)) && InRange(Node(2, Key(v, 2)))
      && Down(Node(2, Key(v, 2)), P2Offset(addr)) == Node(1, Key(v, 1)) && InRange(Node(1, Key(v, 1)))
      && Node(1, Key(v, 1)) == TableOf(v) && P1Offset(addr) == v % 512
  {
    var v := PageOf(addr);
    OffsetsAreKeys(addr);
    PathStep(v, 3);
    PathStep(v, 2);
    PathStep(v, 1);
    KeyInRange(v, 4);
    assert Key(v, 1) == Key(v, 0) / 512;
  }

  lemma PathStep(v: nat, level: nat)
    requires v < USER_PAGES && level <= 3
    ensures Down(Node(level + 1, Key(v, level + 1)), Key(v, level) % 512) == Node(level, Key(v, level))
    ensures InRange(Node(level, Key(v, level)))
  {
    KeyInRange(v, level);
  }

  /** Visiting the path top down meets exactly the missing tables. */
  lemma MissingOnTheWay(k: set<Node>, v: nat, n3: Node, n2: Node, n1: Node)
    requires n3 == Node(3, Key(v, 3)) && n2 == Node(2, Key(v, 2)) && n1 == Node(1, Key(v, 1))
    ensures TablesMissing(k, v) == One(n3 !in k) + One(n2 !in k + {n3}) + One(n1 !in k + {n3} + {n2})
    ensures k + {n3} + {n2} + {n1} == k + TablePath(v)
  {
  }

  /** vmm_find_page with touch set: the last-level table for addr, in page v. It makes
      exactly the missing tables and changes no translation. */
  method TouchPage(mc: Machine, p4: Frame, addr: nat, ghost v: nat, ghost t: Tree)
    returns (table: Frame, ghost t': Tree, ghost got: seq<Frame>)
    requires Live(mc, p4, t) && v == PageOf(addr) < USER_PAGES && |mc.free| >= TablesMissing(t.Keys, v)
    modifies mc`pos, mc`stack, mc`free, mc`mem
    ensures Live(mc, p4, t') && |got| == TablesMissing(t.Keys, v) && t'.Keys == t.Keys + TablePath(v)
    ensures Built(p4, old(mc.mem), t, old(mc.free), mc.mem, t', mc.free, got)
    ensures TableOf(v) in t' && table == t'[TableOf(v)]
  {
    PathNodes(addr);
    ghost var n3, n2, n1 := Node(3, Key(v, 3)), Node(2, Key(v, 2)), Node(1, Key(v, 1));
    MissingOnTheWay(t.Keys, v, n3, n2, n1);
    var p2;
    p2, t', got := TouchUpper(mc, p4, addr, t, n3, n2);
    ghost var m2, f2, t2, g2 := mc.mem, mc.free, t', got;
    table, t', got := TouchChild(mc, p2, P2Offset(addr), p4, t2, n2, n1);
    BuiltTwice(p4, old(mc.mem), t, old(mc.free), m2, t2, f2, g2, mc.mem, t', mc.free, got);
    got := g2 + got;
  }

  /** The first two levels of TouchPage. */
  method TouchUpper(mc: Machine, p4: Frame, addr: nat, ghost t: Tree, ghost n3: Node, ghost n2: Node)
    returns (p2: Frame, ghost t': Tree, ghost got: seq<Frame>)
    requires Live(mc, p4, t)
    requires n3 == Down(ROOT, P4Offset(addr)) && InRange(n3) && n2 == Down(n3, P3Offset(addr)) && InRange(n2)
    requires |mc.free| >= One(n3 !in t.Keys) + One(n2 !in t.Keys + {n3})
    modifies mc`pos, mc`stack, mc`free, mc`mem
    ensures Live(mc, p4, t') && |got| == One(n3 !in t.Keys) + One(n2 !in t.Keys + {n3})
    ensures t'.Keys == t.Keys + {n3} + {n2} && p2 == t'[n2]
    ensures Built(p4, old(mc.mem), t, old(mc.free), mc.mem, t', mc.free, got)
  {
    var p3;
    p3, t', got := TouchChild(mc, p4, P4Offset(addr), p4, t, ROOT, n3);
    ghost var m1, f1, t1, g1 := mc.mem, mc.free, t', got;
    p2, t', got := TouchChild(mc, p3, P3Offset(addr), p4, t1, n3, n2);
    BuiltTwice(p4, old(mc.mem), t, old(mc.free), m1, t1, f1, g1, mc.mem, t', mc.free, got);
    got := g1 + got;
  }

  /** The walk of page v stays inside physical memory. */
  predicate WalkOk(m: Mem, table: Frame, level: nat, v: nat)
    requires level >= 1
    decreases level
  {
    table < |m| &&
    (level == 1 || var e := m[table][Key(v, level - 1) % 512]; e == 0 || WalkOk(m, e / PAGE_SIZE, level - 1, v))
  }

  lemma {:induction false} TreeWalkOk(m: Mem, p4: Frame, t: Tree, level: nat, v: nat)
    requires IsTree(m, p4, t) && v < USER_PAGES && 1 <= level <= 4
    requires Node(level, Key(v, level)) in t
    ensures WalkOk(m, t[Node(level, Key(v, level))], level, v)
    decreases level
  {
    if level > 1 {
      var n, i := Node(level, Key(v, level)), Key(v, level - 1) % 512;
      KeyInRange(v, level - 1);
      assert Down(n, i) == Node(level - 1, Key(v, level - 1));
      assert SlotOk(m, t, n, i);
      if Down(n, i) in t {
        TreeWalkOk(m, p4, t, level - 1, v);
      }
    }
  }

  /** vmm_get_page: vmm_find_page without touch, then the last-level entry. It agrees with
      the processor's walk on any tables. */
  method GetPage(mc: Machine, p4: Frame, addr: nat) returns (e: Word)
    requires WalkOk(mc.mem, p4, 4, PageOf(addr))
    ensures e == Walk(mc.mem, p4, 4, PageOf(addr))
  {
    OffsetsAreKeys(addr);
    e := mc.mem[p4][P4Offset(addr)];
    if e == 0 {
      return;
    }
    var p3 := e / PAGE_SIZE;
    e := mc.mem[p3][P3Offset(addr)];
    if e == 0 {
      return;
    }
    var p2 := e / PAGE_SIZE;
    e := mc.mem[p2][P2Offset(addr)];
    if e == 0 {
      return;
    }
    var p1 := e / PAGE_SIZE;
    e := mc.mem[p1][P1Offset(addr)];
  }

  /** vmm_set_page. Afterwards the walk of addr's page v gives phys|flags, every other user
      page translates as before, and the only frames used are popped for missing tables. */
  method SetPage(mc: Machine, p4: Frame, addr: nat, phys: Word, flags: nat, ghost v: nat, ghost t: Tree)
    returns (e: Word, ghost t': Tree, ghost b: Tree, ghost got: seq<Frame>)
    requires Live(mc, p4, t) && v == PageOf(addr) < USER_PAGES && |mc.free| >= TablesMissing(t.Keys, v)
    modifies mc`pos, mc`stack, mc`free, mc`mem
    ensures Live(mc, p4, t') && e == AddFlags(phys, flags)
    ensures |got| == TablesMissing(t.Keys, v) && b.Keys == t.Keys + TablePath(v) && t' == Stored(b, v, e)
    ensures Remapped(p4, old(mc.mem), t, old(mc.free), mc.mem, b, mc.free, got, v, e)
  {
    hide AddFlags, Live, Built, Remapped, TablesMissing, TablePath, Stored, P1Offset, PageOf, TableOf;
    ghost var m0, free0 := mc.mem, mc.free;
    TreeOf(mc, p4, t);
    var table;
    table, b, got := TouchPage(mc, p4, addr, v, t);
    e := AddFlags(phys, flags);
    LastOffset(addr, v);
    t' := StoreIn(mc, p4, table, P1Offset(addr), e, m0, t, free0, b, got, v);
  }

  /** The store of vmm_set_page, once the tables are there. */
  method StoreIn(mc: Machine, ghost p4: Frame, table: Frame, i: nat, e: Word,
                 ghost m0: Mem, ghost t: Tree, ghost free0: seq<Frame>, ghost b: Tree, ghost got: seq<Frame>,
                 ghost v: nat)
    returns (ghost t': Tree)
    requires Live(mc, p4, b) && IsTree(m0, p4, t) && Built(p4, m0, t, free0, mc.mem, b, mc.free, got)
    requires v < USER_PAGES && i == v % 512 && TableOf(v) in b && table == b[TableOf(v)]
    modifies mc`mem
    ensures Live(mc, p4, t') && t' == Stored(b, v, e)
    ensures Remapped(p4, m0, t, free0, mc.mem, b, mc.free, got, v, e)
  {
    hide IsTree, IsStack, Built, Remapped, Stored;
    TreeOf(mc, p4, b);
    var m' := SetWord(mc.mem, table, i, e);
    SetPageFacts(m0, t, mc.mem, b, v, i, e, p4, mc.stack, free0, mc.free, got, m');
    mc.mem := m';
    t' := Stored(b, v, e);
  }

  lemma LastOffset(addr: nat, v: nat)
    requires v == PageOf(addr)
    ensures P1Offset(addr) == v % 512 < ENTRIES
  {
  }

  lemma TreeOf(mc: Machine, p4: Frame, t: Tree)
    requires Live(mc, p4, t)
    ensures IsTree(mc.mem, p4, t) && IsStack(mc.mem, mc.stack, mc.free)
    ensures forall n :: n in t && n.level > 0 ==> t[n] !in mc.free && t[n] < |mc.mem|
  {
  }

  lemma {:induction false} SetPageFacts(m: Mem, t: Tree, m1: Mem, b: Tree, v: nat, i: nat, e: Word, p4: Frame,
                                        head: Word, free0: seq<Frame>, free: seq<Frame>, got: seq<Frame>, m': Mem)
    requires IsTree(m, p4, t) && IsTree(m1, p4, b) && v < USER_PAGES && TableOf(v) in b
    requires IsStack(m1, head, free) && forall n :: n in b && n.level > 0 ==> b[n] !in free
    requires Built(p4, m, t, free0, m1, b, free, got)
    requires i == v % 512 && m' == SetWord(m1, b[TableOf(v)], i, e)
    ensures IsTree(m', p4, Stored(b, v, e)) && IsStack(m', head, free)
    ensures forall n :: n in Stored(b, v, e) && n.level > 0 ==> Stored(b, v, e)[n] !in free
    ensures Remapped(p4, m, t, free0, m', b, free, got, v, e)
  {
    StoreEntry(m1, p4, b, v, e);
    StackSkips(m1, head, free, b[TableOf(v)], v % 512, e);
    forall f: Frame | f < |m| && NoTableIn(t, f) && f !in got
      ensures m'[f] == m[f]
    {
      assert b[TableOf(v)] != f;
    }
    forall u | 0 <= u < USER_PAGES
      ensures Walk(m', p4, 4, u) == if u == v then e else Walk(m, p4, 4, u)
    {
      WalkIsEntry(m', p4, Stored(b, v, e), u);
      WalkIsEntry(m, p4, t, u);
    }
    assert b[TableOf(v)] != p4;
  }
}
