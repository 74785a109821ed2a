/** The intrusive list of kernel/include/list.h, as the ready queue of kernel/proc/scheduler.c
    uses it: the links of the list live in the threads themselves. */
module ReadyQueue {
  import opened Common

  class Thread {
    var prev: Thread?
    var next: Thread?
    var state: ThreadState

    constructor ()
      ensures prev == next == null && state == Ready
    {
      prev, next, state := null, null, Ready;
    }

    ghost predicate Detached()
      reads this
    {
      prev == next == null
    }
  }

  /** The list without its element number i. */
  function Without<T>(s: seq<T>, i: nat): seq<T>
    requires i < |s|
  {
    s[..i] + s[i + 1..]
  }

  /** What a run of inserts and takes hands out, and what it leaves queued. */
  datatype Op<T> = Insert(th: T) | Next

  function Served<T>(q: seq<T>, ops: seq<Op<T>>): (r: (seq<T>, seq<T>))
    decreases |ops|
  {
    if ops == [] then ([], q)
    else match ops[0]
      case Insert(th) => Served(q + [th], ops[1..])
      case Next => if q == [] then Served(q, ops[1..]) else
        var r := Served(q[1..], ops[1..]);
        ([q[0]] + r.0, r.1)
  }

  function Inserted<T>(ops: seq<Op<T>>): seq<T>
    decreases |ops|
  {
    if ops == [] then [] else
      (match ops[0] case Insert(th) => [th] case Next => []) + Inserted(ops[1..])
  }

  /** Whatever the run, what came out and what is left are what was there and what went in,
      in order. */
  lemma {:induction false} QueueIsFifo<T>(q: seq<T>, ops: seq<Op<T>>)
    ensures Served(q, ops).0 + Served(q, ops).1 == q + Inserted(ops)
    decreases |ops|
  {
    if ops != [] {
      match ops[0]
      case Insert(th) =>
        QueueIsFifo(q + [th], ops[1..]);
        assert q + [th] + Inserted(ops[1..]) == q + ([th] + Inserted(ops[1..]));
      case Next =>
        if q == [] {
          QueueIsFifo(q, ops[1..]);
        } else {
          QueueIsFifo(q[1..], ops[1..]);
          assert q == [q[0]] + q[1..];
          var r := Served(q[1..], ops[1..]);
          assert [q[0]] + r.0 + r.1 == [q[0]] + (r.0 + r.1);
        }
    }
  }

  /** A thread inserted behind k others is the one the (k + 1)-th successful take returns,
      whatever is inserted meanwhile. */
  lemma InsertedComesOutInTurn<T>(q: seq<T>, th: T, ops: seq<Op<T>>)
    requires |Served(q + [th], ops).0| > |q|
    ensures Served(q + [th], ops).0[|q|] == th
    ensures Served(q + [th], ops).0[..|q|] == q
  {
    QueueIsFifo(q + [th], ops);
    var outs, left, all := Served(q + [th], ops).0, Served(q + [th], ops).1, q + [th] + Inserted(ops);
    assert outs + left == all;
    assert all[..|q|] == q && all[|q|] == th;
    assert outs[..|q|] == (outs + left)[..|q|];
  }

  function PrevOf(s: seq<Thread>, i: nat): Thread? {
    if 0 < i <= |s| then s[i - 1] else null
  }

  function NextOf(s: seq<Thread>, i: nat): Thread? {
    if i + 1 < |s| then s[i + 1] else null
  }

  ghost predicate LinksOk(s: seq<Thread>, i: nat)
    requires i < |s|
    reads s
  {
    s[i].prev == PrevOf(s, i) && s[i].next == NextOf(s, i)
  }

  /** Where element k of a shortened list comes from, and who its neighbours are. */
  lemma WithoutAt(s: seq<Thread>, i: nat, k: nat)
    requires NoDup(s) && i < |s| && k < |s| - 1
    ensures |Without(s, i)| == |s| - 1 && Without(s, i)[k] == s[if k < i then k else k + 1] != s[i]
    ensures i > 0 ==> (Without(s, i)[k] == s[i - 1] <==> k + 1 == i)
    ensures i + 1 < |s| ==> (Without(s, i)[k] == s[i + 1] <==> k == i)
    ensures PrevOf(Without(s, i), k) == if k == i then PrevOf(s, i) else PrevOf(s, if k < i then k else k + 1)
    ensures NextOf(Without(s, i), k) == if k + 1 == i then NextOf(s, i) else NextOf(s, if k < i then k else k + 1)
  {
  }

  lemma WithoutHasNoDup(s: seq<Thread>, i: nat)
    requires NoDup(s) && i < |s|
    ensures NoDup(Without(s, i)) && |Without(s, i)| == |s| - 1
    ensures Without(s, i) == [] <==> |s| == 1
    ensures |s| > 1 ==> Without(s, i)[0] == s[if i == 0 then 1 else 0]
    ensures |s| > 1 ==> Without(s, i)[|s| - 2] == s[if i == |s| - 1 then |s| - 2 else |s| - 1]
    ensures (i == 0 <==> s[0] == s[i]) && (i == |s| - 1 <==> s[|s| - 1] == s[i])
  {
  }

  class Queue {
    var prev: Thread? // the last thread
    var next: Thread? // the first one
    ghost var items: seq<Thread>

    ghost predicate Valid()
      reads this, items
    {
      && NoDup(items)
      && next == (if items == [] then null else items[0])
      && prev == (if items == [] then null else items[|items| - 1])
      && (forall i {:trigger LinksOk(items, i)} :: 0 <= i < |items| ==> LinksOk(items, i))
    }

    constructor ()
      ensures Valid() && items == []
    {
      prev, next, items := null, null, [];
    }

    /** LIST_APPEND */
    method Append(self: Thread)
      requires Valid() && self !in items
      modifies this, self`prev, self`next, (if prev == null then {} else {prev})`next
      ensures Valid() && items == old(items) + [self]
    {
      self.prev := prev;
      self.next := null;
      if self.prev != null {
        self.prev.next := self;
      }
      prev := self;
      if next == null {
        next := prev;
      }
      items := items + [self];
      forall k | 0 <= k < |items|
        ensures LinksOk(items, k)
      {
        if k < |items| - 1 {
          assert old(LinksOk(items, k));
        }
      }
    }

    /** LIST_REMOVE; a thread that is on no list is left alone. */
    method Remove(self: Thread, ghost i: nat)
      requires Valid()
      requires i < |items| && items[i] == self
      modifies this, items
      ensures Valid() && items == Without(old(items), i) && self.Detached()
      ensures forall th :: th in old(items) ==> th.state == old(th.state)
    {
      hide NoDup, Without;
      assert LinksOk(items, i);
      if next == self {
        next := self.next;
      }
      if prev == self {
        prev := self.prev;
      }
      if self.next != null {
        self.next.prev := self.prev;
      }
      if self.prev != null {
        self.prev.next := self.next;
      }
      self.prev, self.next := null, null;
      WithoutHasNoDup(items, i);
      items := Without(items, i);
      forall k | 0 <= k < |items|
        ensures LinksOk(items, k)
      {
        WithoutAt(old(items), i, k);
        assert old(LinksOk(items, if k < i then k else k + 1));
      }
    }

    /** LIST_EMPTY */
    predicate Empty()
      requires Valid()
      reads this, items
      ensures Empty() <==> items == []
    {
      next == null
    }

    /** scheduler_insert */
    method SchedulerInsert(th: Thread)
      requires Valid() && th !in items
      modifies this, th, items
      ensures Valid() && items == old(items) + [th] && th.state == Ready
      ensures forall t :: t in old(items) ==> t.state == old(t.state)
    {
      Append(th);
      label Linked:
      th.state := Ready;
      forall k | 0 <= k < |items|
        ensures LinksOk(items, k)
      {
        assert old@Linked(LinksOk(items, k));
      }
    }

    /** scheduler_next */
    method SchedulerNext() returns (th: Thread?)
      requires Valid()
      modifies this, items
      ensures Valid()
      ensures old(items) == [] ==> th == null && items == []
      ensures old(items) != [] ==> th == old(items[0]) && items == old(items)[1..] && th.Detached()
      ensures forall t :: t in old(items) ==> t.state == old(t.state)
    {
      if !Empty() {
        th := next;
        Remove(th, 0);
        return;
      }
      return null;
    }
  }

  /** Nobody inserts a thread that is in the queue at the time. */
  predicate Insertable<T(==)>(q: seq<T>, ops: seq<Op<T>>)
    decreases |ops|
  {
    ops == [] || match ops[0]
      case Insert(th) => th !in q && Insertable(q + [th], ops[1..])
      case Next => Insertable(if q == [] then q else q[1..], ops[1..])
  }

  ghost function Threads(ops: seq<Op<Thread>>): set<Thread> {
    set o | o in ops && o.Insert? :: o.th
  }

  /** What one call hands out, and what it leaves. */
  function Answer<T>(q: seq<T>, op: Op<T>): (seq<T>, seq<T>) {
    match op
    case Insert(th) => ([], q + [th])
    case Next => if q == [] then ([], q) else ([q[0]], q[1..])
  }

  method Step(q: Queue, op: Op<Thread>) returns (out: seq<Thread>)
    requires q.Valid() && (op.Insert? ==> op.th !in q.items)
    modifies q, q.items, if op.Insert? then {op.th} else {}
    ensures q.Valid() && (out, q.items) == Answer(old(q.items), op)
  {
    out := [];
    match op
    case Insert(th) => q.SchedulerInsert(th);
    case Next =>
      var th := q.SchedulerNext();
      if th != null {
        out := [th];
      }
  }

  lemma ServedNext<T>(all: (seq<T>, seq<T>), outs: seq<T>, q: seq<T>, ops: seq<Op<T>>)
    requires ops != [] && Insertable(q, ops)
    requires outs + Served(q, ops).0 == all.0 && Served(q, ops).1 == all.1
    ensures var a := Answer(q, ops[0]);
      && (ops[0].Insert? ==> ops[0].th !in q) && Insertable(a.1, ops[1..])
      && (outs + a.0) + Served(a.1, ops[1..]).0 == all.0 && Served(a.1, ops[1..]).1 == all.1
  {
    var a := Answer(q, ops[0]);
    assert a.0 + Served(a.1, ops[1..]).0 == Served(q, ops).0;
    assert (outs + a.0) + Served(a.1, ops[1..]).0 == outs + (a.0 + Served(a.1, ops[1..]).0);
  }

  /** Any sequence of scheduler_insert and scheduler_next on the linked queue hands out, and
      leaves linked, exactly what the sequence of threads would; so what came out followed by
      what is linked is what was linked followed by what went in. */
  method Run(q: Queue, ops: seq<Op<Thread>>) returns (outs: seq<Thread>)
    requires q.Valid() && Insertable(q.items, ops)
    modifies q, q.items, Threads(ops)
    ensures q.Valid() && (outs, q.items) == Served(old(q.items), ops)
    ensures outs + q.items == old(q.items) + Inserted(ops)
  {
    ghost var items0, all := q.items, Served(q.items, ops);
    assert ops[0..] == ops && [] + all.0 == all.0;
    outs := [];
    var i := 0;
    while i < |ops|
      invariant i <= |ops| && q.Valid() && Insertable(q.items, ops[i..])
      invariant forall th :: th in q.items ==> th in items0 || th in Threads(ops)
      invariant outs + Served(q.items, ops[i..]).0 == all.0 && Served(q.items, ops[i..]).1 == all.1
    {
      hide Served, Insertable;
      ghost var was := q.items;
      assert ops[i..][0] == ops[i] && ops[i..][1..] == ops[i + 1..] && ops[i] in ops;
      ServedNext(all, outs, q.items, ops[i..]);
      assert ops[i].Insert? ==> ops[i].th in Threads(ops);
      var out := Step(q, ops[i]);
      outs := outs + out;
      i := i + 1;
    }
    assert ops[i..] == [] && outs + [] == outs;
    QueueIsFifo(items0, ops);
  }
}
