/** The list of children of the init process, store by store. process_exit appends to it
    (kernel/proc/process.c:87) and process_free unlinks from it (kernel/proc/process.c:113)
    under no common lock, so their stores can interleave. When they do not, the list is a
    sequence and nothing freed is touched; when they do, it can be. */
module FamilyLists {
  import opened Common

  type Pid = nat // 0 is the null pointer

  datatype Links = Links(prev: Pid, next: Pid)

  /** The head of the list, the sibling links of every process, and the processes freed. */
  datatype Family = Family(head: Links, links: map<Pid, Links>, freed: set<Pid>)

  /** LIST_APPEND of a process, or LIST_REMOVE of one followed by its kfree. */
  datatype Op = Append(p: Pid) | Reap(p: Pid)

  function Of(f: Family, p: Pid): Links {
    if p in f.links then f.links[p] else Links(0, 0)
  }

  function SetPrev(f: Family, p: Pid, q: Pid): Family {
    f.(links := f.links[p := Of(f, p).(prev := q)])
  }

  function SetNext(f: Family, p: Pid, q: Pid): Family {
    f.(links := f.links[p := Of(f, p).(next := q)])
  }

  function Stores(op: Op): nat { if op.Append? then 5 else 6 }

  /** Store number k of an operation. */
  function Store(f: Family, op: Op, k: nat): Family {
    var p := op.p;
    if op.Append? then
      if k == 0 then SetPrev(f, p, f.head.prev)
      else if k == 1 then SetNext(f, p, 0)
      else if k == 2 then if Of(f, p).prev != 0 then SetNext(f, Of(f, p).prev, p) else f
      else if k == 3 then f.(head := f.head.(prev := p))
      else if f.head.next == 0 then f.(head := f.head.(next := f.head.prev)) else f
    else
      if k == 0 then if f.head.next == p then f.(head := f.head.(next := Of(f, p).next)) else f
      else if k == 1 then if f.head.prev == p then f.(head := f.head.(prev := Of(f, p).prev)) else f
      else if k == 2 then if Of(f, p).next != 0 then SetPrev(f, Of(f, p).next, Of(f, p).prev) else f
      else if k == 3 then if Of(f, p).prev != 0 then SetNext(f, Of(f, p).prev, Of(f, p).next) else f
      else if k == 4 then f.(links := f.links[p := Links(0, 0)])
      else f.(freed := f.freed + {p})
  }

  /** The processes whose structure store k reads or writes. */
  function Touched(f: Family, op: Op, k: nat): set<Pid> {
    var p := op.p;
    if op.Append? then
      if k == 2 then {p} + One(Of(f, p).prev) else if k < 2 then {p} else {}
    else
      if k == 0 then if f.head.next == p then {p} else {}
      else if k == 1 then if f.head.prev == p then {p} else {}
      else if k == 2 then {p} + One(Of(f, p).next)
      else if k == 3 then {p} + One(Of(f, p).prev)
      else {p}
  }

  function One(p: Pid): set<Pid> { if p == 0 then {} else {p} }

  /** A store writes no process that it does not touch ... */
  lemma WritesAreTouched(f: Family, op: Op, k: nat, q: Pid)
    requires q !in Touched(f, op, k)
    ensures Of(Store(f, op, k), q) == Of(f, q) && (q in Store(f, op, k).freed <==> q in f.freed)
  {
  }

  /** ... and reads none: what it does depends on the head and on the processes it touches. */
  lemma ReadsAreTouched(f: Family, g: Family, op: Op, k: nat)
    requires f.head == g.head && forall q :: q in Touched(f, op, k) ==> Of(f, q) == Of(g, q)
    ensures Touched(g, op, k) == Touched(f, op, k) && Store(f, op, k).head == Store(g, op, k).head
    ensures forall q :: q in Touched(f, op, k) ==> Of(Store(f, op, k), q) == Of(Store(g, op, k), q)
  {
  }

  /** After the first k stores of an operation. */
  function After(f: Family, op: Op, k: nat): Family {
    if k == 0 then f else Store(After(f, op, k - 1), op, k - 1)
  }

  // ---- The list as a sequence ----

  function PrevIn(s: seq<Pid>, i: nat): Pid { if 0 < i <= |s| then s[i - 1] else 0 }

  function NextIn(s: seq<Pid>, i: nat): Pid { if i + 1 < |s| then s[i + 1] else 0 }

  ghost predicate LinkOk(f: Family, s: seq<Pid>, i: nat)
    requires i < |s|
  {
    Of(f, s[i]) == Links(PrevIn(s, i), NextIn(s, i)) && s[i] != 0 && s[i] !in f.freed
  }

  /** The links spell the sequence s of processes, none of them freed. */
  ghost predicate Spells(f: Family, s: seq<Pid>) {
    && NoDup(s)
    && f.head == (if s == [] then Links(0, 0) else Links(s[|s| - 1], s[0]))
    && forall i: nat {:trigger LinkOk(f, s, i)} :: i < |s| ==> LinkOk(f, s, i)
  }

  ghost predicate Legal(f: Family, s: seq<Pid>, op: Op) {
    match op
    case Append(p) => p != 0 && p !in s && p !in f.freed
    case Reap(p) => p in s
  }

  function Result(s: seq<Pid>, op: Op): seq<Pid> {
    match op
    case Append(p) => s + [p]
    case Reap(p) => Dropped(s, p)
  }

  function Dropped(s: seq<Pid>, p: Pid): seq<Pid> {
    if s == [] then [] else if s[0] == p then s[1..] else [s[0]] + Dropped(s[1..], p)
  }

  lemma WithoutTail(s: seq<Pid>, i: nat)
    requires 0 < i < |s|
    ensures [s[0]] + Without(s[1..], i - 1) == Without(s, i)
  {
  }

  lemma {:induction false} DroppedIs(s: seq<Pid>, i: nat)
    requires NoDup(s) && i < |s|
    ensures Dropped(s, s[i]) == Without(s, i)
    decreases |s|
  {
    if i > 0 {
      assert NoDup(s[1..]) && s[0] != s[i] && s[1..][i - 1] == s[i];
      hide NoDup, Without;
      DroppedIs(s[1..], i - 1);
      WithoutTail(s, i);
    } else {
      assert s[..0] + s[1..] == s[1..];
    }
  }

  // ---- One operation, undisturbed ----

  lemma Next(f: Family, op: Op, k: nat)
    ensures After(f, op, 0) == f && After(f, op, k + 1) == Store(After(f, op, k), op, k)
  {
  }

  /** What the stores of an append leave, process by process. */
  lemma AppendLeaves(f: Family, p: Pid)
    requires p != 0 && f.head.prev != p
    ensures var g, t := After(f, Append(p), 5), f.head.prev;
      && g.head == Links(p, if f.head.next == 0 then p else f.head.next) && g.freed == f.freed
      && Of(g, p) == Links(t, 0)
      && (t != 0 ==> Of(g, t) == Of(f, t).(next := p))
      && forall q :: q != p && q != t ==> Of(g, q) == Of(f, q)
  {
    var op := Append(p);
    Next(f, op, 0);
    Next(f, op, 1);
    Next(f, op, 2);
    Next(f, op, 3);
    Next(f, op, 4);
  }

  lemma AppendSpells(f: Family, s: seq<Pid>, p: Pid)
    requires Spells(f, s) && Legal(f, s, Append(p))
    ensures Spells(After(f, Append(p), 5), s + [p])
  {
    if s != [] {
      assert LinkOk(f, s, |s| - 1) && LinkOk(f, s, 0);
    }
    AppendLeaves(f, p);
    hide After;
    var g, r := After(f, Append(p), 5), s + [p];
    forall i: nat | i < |r|
      ensures LinkOk(g, r, i)
    {
      if i < |s| {
        assert LinkOk(f, s, i);
      }
    }
  }

  /** What the stores of a removal leave before the process itself is cleared. */
  lemma ReapUnlinks(f: Family, p: Pid, a: Pid, b: Pid)
    requires p != 0 && Of(f, p) == Links(a, b) && a != p && b != p && (a == b ==> a == 0)
    ensures var g := After(f, Reap(p), 4);
      && g.head.next == (if f.head.next == p then b else f.head.next)
      && g.head.prev == (if f.head.prev == p then a else f.head.prev)
      && g.freed == f.freed
      && (a != 0 ==> Of(g, a) == Of(f, a).(next := b))
      && (b != 0 ==> Of(g, b) == Of(f, b).(prev := a))
      && forall q :: q != p && q != a && q != b ==> Of(g, q) == Of(f, q)
  {
    var op := Reap(p);
    Next(f, op, 0);
    Next(f, op, 1);
    Next(f, op, 2);
    Next(f, op, 3);
    hide After;
    var f2 := After(f, op, 2);
    assert f2.links == f.links && f2.freed == f.freed;
  }

  /** What the stores of a removal leave. */
  lemma ReapLeaves(f: Family, p: Pid, a: Pid, b: Pid)
    requires p != 0 && Of(f, p) == Links(a, b) && a != p && b != p && (a == b ==> a == 0)
    ensures var g := After(f, Reap(p), 6);
      && g.head.next == (if f.head.next == p then b else f.head.next)
      && g.head.prev == (if f.head.prev == p then a else f.head.prev)
      && g.freed == f.freed + {p}
      && (a != 0 ==> Of(g, a) == Of(f, a).(next := b))
      && (b != 0 ==> Of(g, b) == Of(f, b).(prev := a))
      && forall q :: q != p && q != a && q != b ==> Of(g, q) == Of(f, q)
  {
    ReapUnlinks(f, p, a, b);
    Next(f, Reap(p), 4);
    Next(f, Reap(p), 5);
    hide After;
  }

  lemma Neighbours(f: Family, s: seq<Pid>, i: nat)
    requires Spells(f, s) && i < |s|
    ensures s[i] != 0 && Of(f, s[i]) == Links(PrevIn(s, i), NextIn(s, i))
    ensures PrevIn(s, i) != s[i] && s[i] != NextIn(s, i) && (PrevIn(s, i) == NextIn(s, i) ==> PrevIn(s, i) == 0)
    ensures (f.head.next == s[i] <==> i == 0) && (f.head.prev == s[i] <==> i == |s| - 1)
    ensures PrevIn(s, i) !in f.freed || PrevIn(s, i) == 0
    ensures NextIn(s, i) !in f.freed || NextIn(s, i) == 0
    ensures s[i] !in f.freed
  {
    assert LinkOk(f, s, i);
    if i > 0 {
      assert LinkOk(f, s, i - 1);
    }
    if i + 1 < |s| {
      assert LinkOk(f, s, i + 1);
    }
  }

  function Without(s: seq<Pid>, i: nat): seq<Pid>
    requires i < |s|
  {
    s[..i] + s[i + 1..]
  }

  /** Where element k of a shortened list comes from, and who its neighbours are. */
  lemma WithoutAt(s: seq<Pid>, i: nat, k: nat, j: nat)
    requires NoDup(s) && i < |s| && k < |s| - 1 && j == if k < i then k else k + 1
    ensures |Without(s, i)| == |s| - 1 && Without(s, i)[k] == s[j] && s[j] != s[i]
    ensures i > 0 ==> (s[j] == s[i - 1] <==> k + 1 == i)
    ensures i + 1 < |s| ==> (s[j] == s[i + 1] <==> k == i)
    ensures PrevIn(Without(s, i), k) == if k == i then PrevIn(s, i) else PrevIn(s, j)
    ensures NextIn(Without(s, i), k) == if k + 1 == i then NextIn(s, i) else NextIn(s, j)
  {
  }

  lemma WithoutEnds(s: seq<Pid>, i: nat)
    requires NoDup(s) && i < |s|
    ensures NoDup(Without(s, i)) && |Without(s, i)| == |s| - 1
    ensures |s| > 1 ==> Without(s, i)[0] == s[if i == 0 then 1 else 0]
    ensures |s| > 1 ==> Without(s, i)[|s| - 2] == s[if i == |s| - 1 then |s| - 2 else |s| - 1]
  {
  }

  lemma ReapSpells(f: Family, s: seq<Pid>, i: nat)
    requires Spells(f, s) && i < |s|
    ensures Spells(After(f, Reap(s[i]), 6), Without(s, i))
  {
    Neighbours(f, s, i);
    var p, a, b := s[i], PrevIn(s, i), NextIn(s, i);
    ReapLeaves(f, p, a, b);
    WithoutEnds(s, i);
    var g, r := After(f, Reap(p), 6), Without(s, i);
    forall k: nat | k < |r|
      ensures LinkOk(g, r, k)
    {
      var j := if k < i then k else k + 1;
      assert LinkOk(f, s, j);
      WithoutAt(s, i, k, j);
      hide After, NoDup, Without;
    }
    hide After, NoDup, Without;
    assert |r| == |s| - 1;
  }

  /** An operation that nothing disturbs does to the sequence what it should, and none of its
      stores touches a freed process. */
  lemma OperationWorks(f: Family, s: seq<Pid>, op: Op)
    requires Spells(f, s) && Legal(f, s, op)
    ensures Spells(After(f, op, Stores(op)), Result(s, op))
    ensures After(f, op, Stores(op)).freed == f.freed + if op.Reap? then {op.p} else {}
  {
    match op
    case Append(p) =>
      if s != [] {
        assert LinkOk(f, s, |s| - 1);
      }
      AppendSpells(f, s, p);
      AppendLeaves(f, p);
    case Reap(p) =>
      var i :| 0 <= i < |s| && s[i] == p;
      ReapSpells(f, s, i);
      DroppedIs(s, i);
      Neighbours(f, s, i);
      ReapLeaves(f, p, PrevIn(s, i), NextIn(s, i));
  }

  /** Until its last stores an operation leaves its own process's links, and who is freed. */
  lemma Midway(f: Family, s: seq<Pid>, op: Op, k: nat)
    requires Spells(f, s) && Legal(f, s, op) && k < Stores(op)
    ensures After(f, op, k).freed == f.freed
    ensures op.Append? && k == 2 ==> Of(After(f, op, k), op.p).prev == f.head.prev
    ensures op.Reap? && k <= 3 ==> Of(After(f, op, k), op.p) == Of(f, op.p)
  {
    if op.Reap? {
      var i :| 0 <= i < |s| && s[i] == op.p;
      Neighbours(f, s, i);
    }
    Next(f, op, 0);
    Next(f, op, 1);
    Next(f, op, 2);
    Next(f, op, 3);
    Next(f, op, 4);
  }

  /** None of its stores touches a freed process. */
  lemma UndisturbedTouches(f: Family, s: seq<Pid>, op: Op, k: nat)
    requires Spells(f, s) && Legal(f, s, op) && k < Stores(op)
    ensures Touched(After(f, op, k), op, k) !! After(f, op, k).freed
  {
    Midway(f, s, op, k);
    hide After;
    if op.Reap? {
      var i :| 0 <= i < |s| && s[i] == op.p;
      Neighbours(f, s, i);
    } else if s != [] {
      assert LinkOk(f, s, |s| - 1);
    }
  }

  // ---- Several CPUs ----

  datatype Agent = Idle | Busy(op: Op, k: nat)

  datatype State = State(f: Family, agents: seq<Agent>)

  datatype Step = Start(i: nat, op: Op) | Advance(i: nat)

  predicate AllIdle(s: State) {
    forall i :: 0 <= i < |s.agents| ==> s.agents[i] == Idle
  }

  predicate Enabled(s: State, e: Step) {
    && e.i < |s.agents|
    && if e.Start? then s.agents[e.i] == Idle
       else s.agents[e.i].Busy? && s.agents[e.i].k < Stores(s.agents[e.i].op)
  }

  function Apply(s: State, e: Step): State
    requires Enabled(s, e)
  {
    if e.Start? then s.(agents := s.agents[e.i := Busy(e.op, 0)])
    else
      var op, k := s.agents[e.i].op, s.agents[e.i].k;
      State(Store(s.f, op, k), s.agents[e.i := if k + 1 < Stores(op) then Busy(op, k + 1) else Idle])
  }

  /** The processes a step touches. */
  function TouchedBy(s: State, e: Step): set<Pid>
    requires Enabled(s, e)
  {
    if e.Start? then {} else Touched(s.f, s.agents[e.i].op, s.agents[e.i].k)
  }

  /** A run in which an operation starts only when no other is under way, as one lock for the
      list would have it, and starts on a process it may be done to; items is what the list
      should hold, and from is the memory the operation under way started from. */
  ghost predicate Exclusive(s: State, from: Family, items: seq<Pid>, run: seq<Step>)
    decreases |run|
  {
    run == [] ||
    (&& Enabled(s, run[0])
     && (run[0].Start? ==> AllIdle(s) && Legal(s.f, items, run[0].op))
     && Exclusive(Apply(s, run[0]), if run[0].Start? then s.f else from, ItemsAfter(s, items, run[0]), run[1..]))
  }

  ghost function ItemsAfter(s: State, items: seq<Pid>, e: Step): seq<Pid>
    requires Enabled(s, e)
  {
    if e.Advance? && s.agents[e.i].k + 1 >= Stores(s.agents[e.i].op) then Result(items, s.agents[e.i].op) else items
  }

  /** Nobody is at work and the links spell items; or one agent is, k stores into a legal
      operation that started on such a list. */
  ghost predicate Orderly(s: State, from: Family, items: seq<Pid>) {
    if AllIdle(s) then Spells(s.f, items)
    else exists i: nat :: AtWork(s, from, items, i)
  }

  ghost predicate AtWork(s: State, from: Family, items: seq<Pid>, i: nat) {
    && i < |s.agents| && s.agents[i].Busy?
    && (forall j :: 0 <= j < |s.agents| && j != i ==> s.agents[j] == Idle)
    && Spells(from, items) && Legal(from, items, s.agents[i].op)
    && s.agents[i].k < Stores(s.agents[i].op) && s.f == After(from, s.agents[i].op, s.agents[i].k)
  }

  lemma OrderlyStep(s: State, from: Family, items: seq<Pid>, e: Step)
    requires Orderly(s, from, items) && Enabled(s, e)
    requires e.Start? ==> AllIdle(s) && Legal(s.f, items, e.op)
    ensures TouchedBy(s, e) !! s.f.freed
    ensures Orderly(Apply(s, e), if e.Start? then s.f else from, ItemsAfter(s, items, e))
  {
    hide Store, Touched, Spells, Legal, Result;
    var r := Apply(s, e);
    if e.Start? {
      Next(s.f, e.op, 0);
      assert AtWork(r, s.f, items, e.i);
      assert !AllIdle(r) by { assert r.agents[e.i].Busy?; }
    } else {
      assert s.agents[e.i].Busy?;
      var i: nat :| AtWork(s, from, items, i);
      assert i == e.i;
      var op, k := s.agents[i].op, s.agents[i].k;
      UndisturbedTouches(from, items, op, k);
      Next(from, op, k);
      if k + 1 < Stores(op) {
        assert AtWork(r, from, items, i);
        assert !AllIdle(r) by { assert r.agents[i].Busy?; }
      } else {
        OperationWorks(from, items, op);
        assert AllIdle(r);
      }
    }
  }

  /** Every step of an exclusive run touches live processes only, at every moment. */
  lemma {:induction false} ExclusiveRunsAreSafe(s: State, from: Family, items: seq<Pid>, run: seq<Step>, n: nat)
    requires Orderly(s, from, items) && Exclusive(s, from, items, run) && n < |run|
    ensures Enabled(Reached(s, run[..n]), run[n])
    ensures TouchedBy(Reached(s, run[..n]), run[n]) !! Reached(s, run[..n]).f.freed
    decreases n
  {
    hide Orderly, Enabled, Apply, TouchedBy, ItemsAfter, Legal;
    OrderlyStep(s, from, items, run[0]);
    if n == 0 {
      assert run[..0] == [];
    } else {
      var e := run[0];
      ExclusiveRunsAreSafe(Apply(s, e), if e.Start? then s.f else from, ItemsAfter(s, items, e), run[1..], n - 1);
      assert run[..n][0] == e && run[..n][1..] == run[1..][..n - 1];
    }
  }

  /** ... and whenever nobody is at work, the links spell what the operations done make of the
      list: an operation may then be taken as one step. */
  lemma {:induction false} ExclusiveRunsSpell(s: State, from: Family, items: seq<Pid>, run: seq<Step>)
    requires Orderly(s, from, items) && Exclusive(s, from, items, run) && AllIdle(Reached(s, run))
    ensures Spells(Reached(s, run).f, ItemsOf(s, from, items, run))
    decreases |run|
  {
    hide Enabled, Apply, ItemsAfter, Legal, Spells, AtWork;
    if run != [] {
      var e := run[0];
      OrderlyStep(s, from, items, e);
      ExclusiveRunsSpell(Apply(s, e), if e.Start? then s.f else from, ItemsAfter(s, items, e), run[1..]);
    }
  }

  /** The operations that a run finishes, done to the sequence. */
  ghost function ItemsOf(s: State, from: Family, items: seq<Pid>, run: seq<Step>): seq<Pid>
    requires Exclusive(s, from, items, run)
    decreases |run|
  {
    if run == [] then items else
      ItemsOf(Apply(s, run[0]), if run[0].Start? then s.f else from, ItemsAfter(s, items, run[0]), run[1..])
  }

  ghost function Reached(s: State, run: seq<Step>): State
    decreases |run|
  {
    if run == [] || !Enabled(s, run[0]) then s else Reached(Apply(s, run[0]), run[1..])
  }

  // ---- Whole operations in the middle of an append ----

  /** Whole operations, one after the other. */
  function AllDone(f: Family, ops: seq<Op>): Family
    decreases |ops|
  {
    if ops == [] then f else AllDone(After(f, ops[0], Stores(ops[0])), ops[1..])
  }

  ghost predicate LegalAll(f: Family, s: seq<Pid>, ops: seq<Op>, p: Pid)
    decreases |ops|
  {
    ops == [] ||
    (&& Legal(f, s, ops[0]) && ops[0].p != p
     && LegalAll(After(f, ops[0], Stores(ops[0])), Result(s, ops[0]), ops[1..], p))
  }

  /** An operation on other processes leaves the links of one that is not on the list. */
  lemma OthersLinks(f: Family, s: seq<Pid>, op: Op, p: Pid)
    requires Spells(f, s) && Legal(f, s, op) && p != 0 && p !in s && p != op.p
    ensures Of(After(f, op, Stores(op)), p) == Of(f, p) && p !in Result(s, op)
  {
    match op
    case Append(q) =>
      if s != [] {
        assert LinkOk(f, s, |s| - 1);
      }
      AppendLeaves(f, q);
    case Reap(q) =>
      var i :| 0 <= i < |s| && s[i] == q;
      Neighbours(f, s, i);
      ReapLeaves(f, q, PrevIn(s, i), NextIn(s, i));
      DroppedIs(s, i);
  }

  lemma {:induction false} OvertakenKeeps(f: Family, s: seq<Pid>, ops: seq<Op>, p: Pid)
    requires Spells(f, s) && LegalAll(f, s, ops, p) && p != 0 && p !in s
    ensures Of(AllDone(f, ops), p) == Of(f, p)
    ensures forall q :: q in AllDone(f, ops).freed <==> q in f.freed || Reap(q) in ops
    decreases |ops|
  {
    hide After, Spells, Legal, Result, Of;
    if ops != [] {
      var op := ops[0];
      var g := After(f, op, Stores(op));
      OthersLinks(f, s, op, p);
      OperationWorks(f, s, op);
      OvertakenKeeps(g, Result(s, op), ops[1..], p);
      assert forall q :: Reap(q) in ops <==> op == Reap(q) || Reap(q) in ops[1..];
    }
  }

  /** An adoption that other CPUs overtake between its read of the tail and its store through
      it, by any whole operations, touches a freed process if and only if the process that was
      last on the list when it read has been reaped meanwhile. */
  lemma OvertakenAppend(f: Family, s: seq<Pid>, p: Pid, ops: seq<Op>)
    requires Spells(f, s) && Legal(f, s, Append(p)) && LegalAll(Store(f, Append(p), 0), s, ops, p)
    ensures var g := Store(AllDone(Store(f, Append(p), 0), ops), Append(p), 1);
      Touched(g, Append(p), 2) * g.freed != {} <==> s != [] && Reap(s[|s| - 1]) in ops
  {
    var f1 := Store(f, Append(p), 0);
    assert Spells(f1, s) by {
      forall i: nat | i < |s|
        ensures LinkOk(f1, s, i)
      {
        assert LinkOk(f, s, i);
      }
    }
    OvertakenKeeps(f1, s, ops, p);
    NotReaped(f1, s, ops, p);
    hide AllDone, LegalAll;
    var g := Store(AllDone(f1, ops), Append(p), 1);
    assert g.freed == AllDone(f1, ops).freed && Of(g, p).prev == f.head.prev;
    if s != [] {
      assert LinkOk(f, s, |s| - 1);
      assert f.head.prev in Touched(g, Append(p), 2);
    }
    assert forall q :: q in Touched(g, Append(p), 2) * g.freed ==> q == f.head.prev && q != 0;
    if s != [] && f.head.prev in g.freed {
      assert f.head.prev in Touched(g, Append(p), 2) * g.freed;
    }
  }

  lemma {:induction false} NotReaped(f: Family, s: seq<Pid>, ops: seq<Op>, p: Pid)
    requires LegalAll(f, s, ops, p)
    ensures Reap(p) !in ops
    decreases |ops|
  {
    if ops != [] {
      NotReaped(After(f, ops[0], Stores(ops[0])), Result(s, ops[0]), ops[1..], p);
    }
  }
}
