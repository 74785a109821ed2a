/** Readers and writers of one pipe in any order (kernel/fs/pipe.c): a step is a stretch that
    runs under the pipe's lock. What a pass does to the bytes in flight is what
    Pipe.PipeData.ReadPass and WritePass are proved to do. */
module PipeRuns {
  import opened Common
  import opened PhysicalMemory
  import opened Pipe

  /** A call of pipe_write: its buffer, how much of it has been appended, and whether the call
      has returned. */
  datatype Write = Write(data: seq<Byte>, written: nat, returned: bool)

  /** appended and consumed are the history: every byte ever written, with the call it belongs
      to, and every byte ever read. full holds the values of write_pos at which some writer
      found the pipe full. */
  datatype State = State(size: nat, contents: seq<Byte>, lock: Option<nat>, writes: map<nat, Write>,
                         appended: seq<(nat, Byte)>, consumed: seq<Byte>, full: set<nat>)

  datatype Step =
    | Begin(w: nat, data: seq<Byte>) // a call starts
    | Acquire(w: nat)                // takes the lock, at first or after waiting
    | Append(w: nat)                 // one iteration of the loop of pipe_write
    | Wait(w: nat)                   // finds the pipe full and gives the lock up
    | Return(w: nat)                 // has written everything, gives the lock up
    | Read(nbyte: nat)               // pipe_read, from taking the lock to giving it up

  predicate Enabled(s: State, step: Step) {
    match step
    case Begin(w, data) => w !in s.writes
    case Acquire(w) => w in s.writes && s.lock == None && !s.writes[w].returned
    case Append(w) => Holding(s, w) && s.writes[w].written < |s.writes[w].data| && |s.contents| < s.size
    case Wait(w) => Holding(s, w) && s.writes[w].written < |s.writes[w].data| && |s.contents| >= s.size
    case Return(w) => Holding(s, w) && s.writes[w].written == |s.writes[w].data|
    case Read(n) => s.lock == None && s.contents != []
  }

  predicate Holding(s: State, w: nat) {
    w in s.writes && s.lock == Some(w) && s.writes[w].written <= |s.writes[w].data|
  }

  /** ds as appended by call w. */
  function Tagged(w: nat, ds: seq<Byte>): (r: seq<(nat, Byte)>)
    ensures |r| == |ds| && forall i :: 0 <= i < |ds| ==> r[i] == (w, ds[i])
  {
    seq(|ds|, i requires 0 <= i < |ds| => (w, ds[i]))
  }

  /** The bytes an iteration of pipe_write takes from its buffer. */
  function Chunk(s: State, w: nat): seq<Byte>
    requires Holding(s, w) && |s.contents| <= s.size
  {
    var k := s.writes[w];
    k.data[k.written..k.written + Min(s.size - |s.contents|, |k.data| - k.written)]
  }

  function Apply(s: State, step: Step): State
    requires Enabled(s, step)
  {
    match step
    case Begin(w, data) => s.(writes := s.writes[w := Write(data, 0, false)])
    case Acquire(w) => s.(lock := Some(w))
    case Append(w) =>
      var ds := Chunk(s, w);
      s.(contents := s.contents + ds, appended := s.appended + Tagged(w, ds),
         writes := s.writes[w := s.writes[w].(written := s.writes[w].written + |ds|)])
    case Wait(w) => s.(lock := None, full := s.full + {|s.appended|})
    case Return(w) => s.(lock := None, writes := s.writes[w := s.writes[w].(returned := true)])
    case Read(n) =>
      var bytes := Min(|s.contents|, n);
      s.(contents := s.contents[bytes..], consumed := s.consumed + s.contents[..bytes])
  }

  ghost predicate Leads(s: State, run: seq<Step>, r: State)
    decreases |run|
  {
    if run == [] then s == r else Enabled(s, run[0]) && Leads(Apply(s, run[0]), run[1..], r)
  }

  predicate Initial(s: State) {
    s.size > 0 && s == State(s.size, [], None, map[], [], [], {})
  }

  // ---- What the history says ----

  function Bytes(a: seq<(nat, Byte)>): (r: seq<Byte>)
    ensures |r| == |a|
  {
    seq(|a|, i requires 0 <= i < |a| => a[i].1)
  }

  /** The bytes of call w, in the order they were appended. */
  function BytesOf(a: seq<(nat, Byte)>, w: nat): seq<Byte>
    decreases |a|
  {
    if a == [] then [] else BytesOf(a[..|a| - 1], w) + if a[|a| - 1].0 == w then [a[|a| - 1].1] else []
  }

  lemma {:induction false} BytesOfTagged(a: seq<(nat, Byte)>, v: nat, ds: seq<Byte>, w: nat)
    ensures BytesOf(a + Tagged(v, ds), w) == if v == w then BytesOf(a, w) + ds else BytesOf(a, w)
    decreases |ds|
  {
    if ds == [] {
      assert a + Tagged(v, ds) == a;
    } else {
      var n := |ds| - 1;
      var most, d := ds[..n], ds[n];
      TaggedLast(a, v, ds, most, d);
      hide Tagged, BytesOf;
      BytesOfLast(a + Tagged(v, most), (v, d), w);
      BytesOfTagged(a, v, most, w);
      assert BytesOf(a, w) + ds == (BytesOf(a, w) + most) + [d];
    }
  }

  lemma TaggedLast(a: seq<(nat, Byte)>, v: nat, ds: seq<Byte>, most: seq<Byte>, d: Byte)
    requires ds == most + [d]
    ensures a + Tagged(v, ds) == (a + Tagged(v, most)) + [(v, d)]
  {
  }

  lemma BytesOfLast(a: seq<(nat, Byte)>, e: (nat, Byte), w: nat)
    ensures BytesOf(a + [e], w) == BytesOf(a, w) + if e.0 == w then [e.1] else []
  {
    assert (a + [e])[..|a|] == a;
  }

  /** Call w has entries i and k, and entry j between them belongs to another call. */
  predicate Interrupted(a: seq<(nat, Byte)>, i: nat, j: nat, k: nat) {
    i < j < k < |a| && a[i].0 == a[k].0 != a[j].0
  }

  /** The pipe was found full between entries i and j. */
  predicate FullBetween(full: set<nat>, i: nat, j: nat) {
    exists m :: m in full && i < m <= j
  }

  predicate WriteOk(a: seq<(nat, Byte)>, w: nat, k: Write) {
    k.written <= |k.data| && BytesOf(a, w) == k.data[..k.written] && (k.returned ==> k.written == |k.data|)
  }

  /** What every history must satisfy. */
  ghost predicate Good(s: State) {
    // What was read and what is in the ring are what was written, in order; the ring never
    // overflows.
    && Bytes(s.appended) == s.consumed + s.contents && |s.contents| <= s.size
    // Each call has appended a prefix of its buffer, in order, and all of it once it returns.
    && (forall w :: w in s.writes ==> WriteOk(s.appended, w, s.writes[w]))
    // Another call's bytes come between a call's own only where the pipe was full.
    && (forall i: nat, j: nat, k: nat :: Interrupted(s.appended, i, j, k) ==> FullBetween(s.full, i, j))
  }

  /** i is the last entry of call w. */
  predicate LastOf(a: seq<(nat, Byte)>, w: nat, i: nat) {
    i < |a| && a[i].0 == w && forall j :: i < j < |a| ==> a[j].0 != w
  }

  /** A call that is not done stopped at a full pipe, or holds the lock and was the last to
      append. */
  ghost predicate Paused(s: State, w: nat)
    requires w in s.writes
  {
    forall i: nat :: LastOf(s.appended, w, i) && s.writes[w].written < |s.writes[w].data| ==>
      i + 1 in s.full || (s.lock == Some(w) && i + 1 == |s.appended|)
  }

  ghost predicate Inv(s: State) {
    && s.size > 0 && Good(s)
    && (s.lock.Some? ==> s.lock.value in s.writes && !s.writes[s.lock.value].returned)
    && (forall e :: e in s.appended ==> e.0 in s.writes)
    && (forall w :: w in s.writes ==> Paused(s, w))
  }

  lemma {:induction false} NoBytesOf(a: seq<(nat, Byte)>, w: nat)
    requires forall e :: e in a ==> e.0 != w
    ensures BytesOf(a, w) == []
    decreases |a|
  {
    if a != [] {
      NoBytesOf(a[..|a| - 1], w);
    }
  }

  lemma {:induction false} LastExists(a: seq<(nat, Byte)>, w: nat, i: nat) returns (last: nat)
    requires i < |a| && a[i].0 == w
    ensures LastOf(a, w, last) && i <= last
    decreases |a| - i
  {
    if j :| i < j < |a| && a[j].0 == w {
      last := LastExists(a, w, j);
    } else {
      last := i;
    }
  }

  lemma BeginKeeps(s: State, w: nat, data: seq<Byte>)
    requires Inv(s) && Enabled(s, Begin(w, data))
    ensures Inv(Apply(s, Begin(w, data)))
  {
    NoBytesOf(s.appended, w);
    var r := Apply(s, Begin(w, data));
    forall v | v in r.writes
      ensures Paused(r, v)
    {
      if v in s.writes {
        assert Paused(s, v);
      }
    }
  }

  /** Where an append can make a call's bytes interrupted, it had stopped at a full pipe. */
  lemma AppendInterrupted(s: State, w: nat, ds: seq<Byte>, i: nat, j: nat, k: nat)
    requires Inv(s) && Enabled(s, Append(w)) && Interrupted(s.appended + Tagged(w, ds), i, j, k)
    ensures FullBetween(s.full, i, j)
  {
    var a := s.appended;
    if k < |a| {
      assert Interrupted(a, i, j, k);
    } else {
      var last := LastExists(a, w, i);
      assert Paused(s, w);
      if j < last {
        assert Interrupted(a, i, j, last);
      } else {
        assert last + 1 in s.full;
      }
    }
  }

  lemma AppendPaused(s: State, w: nat, v: nat)
    requires Inv(s) && Enabled(s, Append(w)) && v in s.writes
    ensures Paused(Apply(s, Append(w)), v)
  {
    var a, r := s.appended, Apply(s, Append(w));
    forall i: nat | LastOf(r.appended, v, i) && r.writes[v].written < |r.writes[v].data|
      ensures i + 1 in r.full || (r.lock == Some(v) && i + 1 == |r.appended|)
    {
      assert r.appended[|r.appended| - 1].0 == w;
      if v != w {
        assert i < |a|;
        assert forall j :: i < j < |a| ==> r.appended[j] == a[j];
        assert LastOf(a, v, i) && Paused(s, v);
      }
    }
  }

  lemma ChunkFollows(s: State, w: nat)
    requires Holding(s, w) && |s.contents| <= s.size
    ensures var k, ds := s.writes[w], Chunk(s, w);
      k.written + |ds| <= |k.data| && k.data[..k.written] + ds == k.data[..k.written + |ds|]
  {
  }

  lemma AppendWriteOk(s: State, w: nat, v: nat)
    requires Inv(s) && Enabled(s, Append(w)) && v in s.writes
    ensures var r := Apply(s, Append(w)); v in r.writes && WriteOk(r.appended, v, r.writes[v])
  {
    hide BytesOf, Paused, Interrupted, FullBetween, Chunk, Bytes;
    assert WriteOk(s.appended, v, s.writes[v]);
    ChunkFollows(s, w);
    BytesOfTagged(s.appended, w, Chunk(s, w), v);
  }

  lemma AppendKeeps(s: State, w: nat)
    requires Inv(s) && Enabled(s, Append(w))
    ensures Inv(Apply(s, Append(w)))
  {
    hide BytesOf, Paused, Interrupted, FullBetween, WriteOk;
    var ds, r := Chunk(s, w), Apply(s, Append(w));
    forall v | v in r.writes
      ensures Paused(r, v) && WriteOk(r.appended, v, r.writes[v])
    {
      AppendPaused(s, w, v);
      AppendWriteOk(s, w, v);
    }
    forall i: nat, j: nat, k: nat | Interrupted(r.appended, i, j, k)
      ensures FullBetween(r.full, i, j)
    {
      AppendInterrupted(s, w, ds, i, j, k);
    }
    assert Bytes(r.appended) == Bytes(s.appended) + ds;
  }

  lemma WaitKeeps(s: State, w: nat)
    requires Inv(s) && Enabled(s, Wait(w))
    ensures Inv(Apply(s, Wait(w)))
  {
    var r := Apply(s, Wait(w));
    forall i: nat, j: nat, k: nat | Interrupted(r.appended, i, j, k)
      ensures FullBetween(r.full, i, j)
    {
      assert FullBetween(s.full, i, j);
    }
    forall v | v in r.writes
      ensures Paused(r, v)
    {
      assert Paused(s, v);
    }
  }

  lemma LockKeeps(s: State, step: Step)
    requires Inv(s) && Enabled(s, step) && (step.Acquire? || step.Return?)
    ensures Inv(Apply(s, step))
  {
    var r := Apply(s, step);
    forall v | v in r.writes
      ensures Paused(r, v)
    {
      assert Paused(s, v);
    }
  }

  lemma ReadKeeps(s: State, n: nat)
    requires Inv(s) && Enabled(s, Read(n))
    ensures Inv(Apply(s, Read(n)))
  {
    hide BytesOf, Interrupted, FullBetween;
    var r, bytes := Apply(s, Read(n)), Min(|s.contents|, n);
    assert s.contents == s.contents[..bytes] + s.contents[bytes..];
    forall v | v in r.writes
      ensures Paused(r, v)
    {
      assert Paused(s, v);
    }
  }

  lemma StepKeeps(s: State, step: Step)
    requires Inv(s) && Enabled(s, step)
    ensures Inv(Apply(s, step))
  {
    hide Inv, Apply;
    match step
    case Begin(w, data) => BeginKeeps(s, w, data);
    case Append(w) => AppendKeeps(s, w);
    case Wait(w) => WaitKeeps(s, w);
    case Read(n) => ReadKeeps(s, n);
    case _ => LockKeeps(s, step);
  }

  lemma {:induction false} RunKeeps(s: State, run: seq<Step>, r: State)
    requires Inv(s) && Leads(s, run, r)
    ensures Inv(r)
    decreases |run|
  {
    hide Inv, Enabled, Apply;
    if run != [] {
      StepKeeps(s, run[0]);
      RunKeeps(Apply(s, run[0]), run[1..], r);
    }
  }

  /** Every history of the pipe is good, whatever its readers and writers do. */
  lemma EveryRunIsGood(s: State, run: seq<Step>, r: State)
    requires Initial(s) && Leads(s, run, r)
    ensures Good(r)
  {
    hide Leads;
    RunKeeps(s, run, r);
  }

  // ---- What a call passed is what it wrote ----

  lemma {:induction false} CallStays(s: State, run: seq<Step>, r: State, w: nat)
    requires Leads(s, run, r) && w in s.writes
    ensures w in r.writes && r.writes[w].data == s.writes[w].data
    ensures s.writes[w].returned || Return(w) in run ==> r.writes[w].returned
    decreases |run|
  {
    if run != [] {
      CallStays(Apply(s, run[0]), run[1..], r, w);
      assert Return(w) in run <==> run[0] == Return(w) || Return(w) in run[1..];
    }
  }

  lemma {:induction false} BeginStays(s: State, run: seq<Step>, r: State, w: nat, data: seq<Byte>)
    requires Leads(s, run, r) && Begin(w, data) in run
    ensures w in r.writes && r.writes[w].data == data
    ensures Return(w) in run && w !in s.writes ==> r.writes[w].returned
    decreases |run|
  {
    assert forall e :: e in run <==> e == run[0] || e in run[1..];
    if run[0] == Begin(w, data) {
      CallStays(Apply(s, run[0]), run[1..], r, w);
    } else {
      BeginStays(Apply(s, run[0]), run[1..], r, w, data);
      if run[0].Begin? && run[0].w == w {
        CallStays(Apply(s, run[0]), run[1..], r, w);
      }
    }
  }

  /** The buffer recorded for a call is the one its caller passed, and once the call has
      returned the pipe has been given exactly its bytes, in order. */
  lemma WholeBuffer(s: State, run: seq<Step>, r: State, w: nat, data: seq<Byte>)
    requires Initial(s) && Leads(s, run, r) && Begin(w, data) in run
    ensures w in r.writes && r.writes[w].data == data
    ensures Return(w) in run ==> BytesOf(r.appended, w) == data
  {
    hide BytesOf, Interrupted, FullBetween;
    BeginStays(s, run, r, w, data);
    EveryRunIsGood(s, run, r);
    assert WriteOk(r.appended, w, r.writes[w]);
    hide Leads, Good;
  }

  // ---- Nobody holds the others up ----

  /** In any state a pipe can be in: the lock is with a call that has not returned and that can
      go on in exactly one way, or with nobody; then a reader can go on unless the pipe is
      empty, and so can every call that has not returned. */
  lemma SomeoneCanGoOn(s: State, run: seq<Step>, r: State)
    requires Initial(s) && Leads(s, run, r)
    ensures r.lock.Some? ==> var w := r.lock.value;
      && w in r.writes && !r.writes[w].returned
      && (Enabled(r, Append(w)) <==> !Enabled(r, Wait(w)) && !Enabled(r, Return(w)))
      && !(Enabled(r, Wait(w)) && Enabled(r, Return(w)))
    ensures r.lock == None ==> forall n :: Enabled(r, Read(n)) <==> r.contents != []
    ensures r.lock == None ==> forall w :: w in r.writes && !r.writes[w].returned ==> Enabled(r, Acquire(w))
  {
    InitialIsGood(s);
    RunKeeps(s, run, r);
    if r.lock.Some? {
      assert WriteOk(r.appended, r.lock.value, r.writes[r.lock.value]);
    }
    hide Leads, BytesOf;
  }

  /** A call that finds the pipe full, or is done, lets the others in: a reader can then make
      room, and after that the call can go on. */
  lemma LockIsGivenUp(s: State, w: nat, n: nat)
    requires Inv(s)
    ensures Enabled(s, Wait(w)) ==> var r := Apply(s, Wait(w)); Enabled(r, Read(n)) && Enabled(r, Acquire(w))
    ensures Enabled(s, Wait(w)) && n > 0 ==>
      var r := Apply(Apply(s, Wait(w)), Read(n)); Enabled(r, Acquire(w)) && Enabled(Apply(r, Acquire(w)), Append(w))
    ensures Enabled(s, Return(w)) ==> Apply(s, Return(w)).lock == None
  {
    hide Paused, Interrupted, FullBetween, Bytes, BytesOf;
    if Enabled(s, Wait(w)) {
      assert WriteOk(s.appended, w, s.writes[w]);
    }
  }

  // ---- A write that fits ----

  predicate ByOthers(run: seq<Step>, w: nat) {
    forall e :: e in run ==> match e case Begin(v, _) => v != w case Acquire(v) => v != w case Append(v) => v != w
                               case Wait(v) => v != w case Return(v) => v != w case Read(_) => true
  }

  /** While a call holds the lock nobody else moves a byte. */
  lemma {:induction false} OthersMoveNothing(s: State, run: seq<Step>, r: State, w: nat)
    requires Leads(s, run, r) && s.lock == Some(w) && w in s.writes && ByOthers(run, w)
    ensures r.lock == Some(w) && w in r.writes && r.writes[w] == s.writes[w]
    ensures r.contents == s.contents && r.appended == s.appended && r.size == s.size
    decreases |run|
  {
    if run != [] {
      assert run[0] in run;
      assert forall e :: e in run[1..] ==> e in run;
      OthersMoveNothing(Apply(s, run[0]), run[1..], r, w);
    }
  }

  /** A call that finds room for all of its bytes when it takes the lock appends them in one
      piece, and has then nothing left to write. */
  lemma FittingWriteIsContiguous(s: State, w: nat, run: seq<Step>, t: State)
    requires Inv(s) && Enabled(s, Acquire(w)) && s.writes[w].written == 0
    requires 0 < |s.writes[w].data| <= s.size - |s.contents|
    requires Leads(Apply(s, Acquire(w)), run, t) && ByOthers(run, w)
    ensures Enabled(t, Append(w))
    ensures Apply(t, Append(w)).appended == s.appended + Tagged(w, s.writes[w].data)
    ensures Enabled(Apply(t, Append(w)), Return(w))
  {
    OthersMoveNothing(Apply(s, Acquire(w)), run, t, w);
    hide Leads, Inv;
    var k := t.writes[w];
    assert k.data[0..|k.data|] == k.data;
  }

  // ---- The same runs on the ring itself ----

  /** The ring holds the bytes in flight, and its positions count the bytes ever moved. */
  ghost predicate Tied(p: PipeData, s: State)
    reads p, p.buffer
  {
    && p.Valid() && p.Contents() == s.contents && p.buffer.Length == s.size
    && p.writePos == |s.appended| && p.readPos == |s.consumed|
  }

  /** The tests that pipe_read and pipe_write make on their positions are those of the steps. */
  lemma TestsAgree(p: PipeData, s: State)
    requires Tied(p, s)
    ensures p.writePos >= p.readPos + p.buffer.Length <==> |s.contents| >= s.size
    ensures p.readPos >= p.writePos <==> s.contents == []
  {
  }

  ghost predicate Runnable(s: State, run: seq<Step>)
    decreases |run|
  {
    run == [] || (Enabled(s, run[0]) && Runnable(Apply(s, run[0]), run[1..]))
  }

  /** One step on the ring: a pass of pipe_write or pipe_read where the step moves bytes. The
      bytes a reader gets are the ones the step consumes. */
  method Perform(p: PipeData, s: State, step: Step) returns (r: State, out: seq<Byte>)
    requires Tied(p, s) && Inv(s) && Enabled(s, step)
    modifies p, p.buffer
    ensures r == Apply(s, step) && Tied(p, r) && r.consumed == s.consumed + out
    // a read gets as many bytes as it asks for and there are
    ensures step.Read? ==> |out| <= step.nbyte && (|out| == step.nbyte || r.contents == [])
    // an iteration of a write appends as many bytes as it has left and there is room for
    ensures step.Append? ==> step.w in r.writes
    ensures step.Append? ==> r.writes[step.w].written == |r.writes[step.w].data| || |r.contents| == r.size
  {
    hide Good, Paused, Ring;
    r, out := Apply(s, step), [];
    match step
    case Append(w) => AppendOn(p, s, w);
    case Read(n) => out := ReadOff(p, s, n);
    case _ =>
  }

  method AppendOn(p: PipeData, s: State, w: nat)
    requires Tied(p, s) && Inv(s) && Enabled(s, Append(w))
    modifies p, p.buffer
    ensures Tied(p, Apply(s, Append(w)))
  {
    hide Good, Paused, Ring;
    TestsAgree(p, s);
    var k := s.writes[w];
    var buf := new Byte[|k.data|](i requires 0 <= i < |k.data| => k.data[i]);
    var bytes := p.WritePass(buf, k.written, |k.data| - k.written);
    assert buf[..] == k.data;
    assert buf[k.written..k.written + bytes] == Chunk(s, w);
  }

  method ReadOff(p: PipeData, s: State, n: nat) returns (out: seq<Byte>)
    requires Tied(p, s) && Inv(s) && Enabled(s, Read(n))
    modifies p, p.buffer
    ensures var r := Apply(s, Read(n)); Tied(p, r) && r.consumed == s.consumed + out && |out| == Min(|s.contents|, n)
  {
    TestsAgree(p, s);
    var bytes := Min(|s.contents|, n);
    ReadIs(s, n, bytes);
    hide Inv, Ring, Apply;
    var buf := new Byte[n](_ => 0);
    var took := p.ReadPass(buf, n);
    out := buf[..took];
    assert took == bytes && out == s.contents[..bytes];
  }

  lemma ReadIs(s: State, n: nat, bytes: nat)
    requires Enabled(s, Read(n)) && bytes == Min(|s.contents|, n)
    ensures Apply(s, Read(n)) == s.(contents := s.contents[bytes..], consumed := s.consumed + s.contents[..bytes])
  {
  }

  /** Any run of readers and writers on a new pipe: what came out, followed by what the ring
      holds, is what went in, in order, and the history is good. */
  method Run(p: PipeData, s: State, run: seq<Step>) returns (r: State, out: seq<Byte>)
    requires Tied(p, s) && Initial(s) && Runnable(s, run)
    modifies p, p.buffer
    ensures Leads(s, run, r) && Tied(p, r) && Good(r)
    ensures out + p.Contents() == Bytes(r.appended)
    // every call wrote the buffer it was passed, all of it once it has returned
    ensures forall w, data :: Begin(w, data) in run ==> w in r.writes && r.writes[w].data == data
    ensures forall w, data :: Begin(w, data) in run && Return(w) in run ==> BytesOf(r.appended, w) == data
  {
    hide Good, Paused, Ring, Tied, Apply, Enabled;
    InitialIsGood(s);
    r, out := s, [];
    var i := 0;
    while i < |run|
      invariant i <= |run| && Tied(p, r) && Inv(r) && Runnable(r, run[i..]) && Leads(s, run[..i], r)
      invariant r.consumed == out
    {
      assert run[i..][0] == run[i] && run[i..][1..] == run[i + 1..];
      StepKeeps(r, run[i]);
      LeadsOn(s, run[..i], r, run[i]);
      assert run[..i] + [run[i]] == run[..i + 1];
      var more;
      r, more := Perform(p, r, run[i]);
      out := out + more;
      i := i + 1;
    }
    assert run[..|run|] == run;
    GoodIsWhole(p, r);
    forall w, data | Begin(w, data) in run
      ensures w in r.writes && r.writes[w].data == data
      ensures Return(w) in run ==> BytesOf(r.appended, w) == data
    {
      WholeBuffer(s, run, r, w, data);
    }
  }

  lemma InitialIsGood(s: State)
    requires Initial(s)
    ensures Inv(s) && s.consumed == []
  {
  }

  lemma GoodIsWhole(p: PipeData, s: State)
    requires Tied(p, s) && Good(s)
    ensures s.consumed + p.Contents() == Bytes(s.appended)
  {
  }

  lemma {:induction false} LeadsOn(s: State, run: seq<Step>, r: State, step: Step)
    requires Leads(s, run, r) && Enabled(r, step)
    ensures Leads(s, run + [step], Apply(r, step))
    decreases |run|
  {
    hide Enabled, Apply;
    if run == [] {
      assert ([step])[1..] == [];
    } else {
      LeadsOn(Apply(s, run[0]), run[1..], r, step);
      assert (run + [step])[1..] == run[1..] + [step];
    }
  }
}
