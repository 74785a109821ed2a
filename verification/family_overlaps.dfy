/** Operations on the list of children of the init process that overlap. One adoption
    (kernel/proc/process.c:87) and one reaping (kernel/proc/process.c:113) are woven store by
    store in every way, and when that goes wrong is said exactly. */
module FamilyOverlaps {
  import opened Common
  import opened FamilyLists

  /** run, every step of it enabled, leads from s to r. */
  ghost predicate Leads(s: State, run: seq<Step>, r: State)
    decreases |run|
  {
    if run == [] then s == r else Enabled(s, run[0]) && Leads(Apply(s, run[0]), run[1..], r)
  }

  /** CPU 0 is to append p, CPU 1 to reap x. */
  function Both(f: Family, p: Pid, x: Pid): State {
    State(f, [Busy(Append(p), 0), Busy(Reap(x), 0)])
  }

  predicate AdvancesOnly(run: seq<Step>) { forall k :: 0 <= k < |run| ==> run[k].Advance? }

  /** How many stores of the reaping come before store number k of the adoption. */
  function Before(run: seq<Step>, k: nat): nat {
    if run == [] then 0
    else if run[0] != Advance(0) then 1 + Before(run[1..], k)
    else if k == 0 then 0 else Before(run[1..], k - 1)
  }

  /** The tail that the adoption reads after lead stores of the reaping of s[i]. */
  function TailRead(s: seq<Pid>, i: nat, lead: nat): Pid
    requires i < |s|
  {
    if i == |s| - 1 && lead >= 2 then PrevIn(s, i) else s[|s| - 1]
  }

  /** The adoption has linked p behind s[i] itself. */
  predicate Behind(s: seq<Pid>, i: nat, a: nat, lead: nat) { a >= 3 && i == |s| - 1 && lead < 2 }

  /** How far two woven operations are: a stores of the append of p and b of the reaping of
      s[i], lead of the latter before the first of the former and mid before its third. */
  datatype Weave = Weave(s: seq<Pid>, i: nat, p: Pid, a: nat, b: nat, lead: nat, mid: nat) {
    ghost predicate Ok() {
      && i < |s| && NoDup(s) && p !in s && p != 0 && 0 !in s && a <= 5 && lead <= mid <= b <= 6
      && (a == 0 ==> lead == b) && (a <= 2 ==> mid == b)
    }

    predicate Last() { i + 1 == |s| }

    /** The append has linked p behind s[i] itself. */
    predicate Behind() { a >= 3 && Last() && lead < 2 }

    ghost function Appended(): Weave { this.(a := a + 1) }

    ghost function Reaped(): Weave {
      this.(b := b + 1, lead := if a == 0 then b + 1 else lead, mid := if a <= 2 then b + 1 else mid)
    }

    ghost function HeadPrev(): Pid
      requires Ok()
    {
      if a >= 4 then p else TailRead(s, i, b)
    }

    ghost predicate HeadNext(q: Pid)
      requires Ok()
    {
      if i > 0 || b == 0 then q == s[0]
      else if |s| > 1 then q == s[1]
      else q == p || (q == 0 && a <= 4)
    }

    /** The links of the process being reaped, until they are cleared. */
    ghost function Own(): Links
      requires Ok()
    {
      Links(PrevIn(s, i), if Behind() then p else NextIn(s, i))
    }

    ghost function AddedPrev(): Pid
      requires Ok()
    {
      if Behind() && mid <= 2 < b then PrevIn(s, i) else TailRead(s, i, lead)
    }

    /** The links of s[j], another process on the list. */
    ghost function Other(j: nat): Links
      requires Ok() && j < |s|
    {
      Links(if j == i + 1 && b >= 3 then PrevIn(s, i) else PrevIn(s, j), OtherNext(j))
    }

    ghost function OtherNext(j: nat): Pid
      requires Ok() && j < |s|
    {
      if j == |s| - 1 then if a >= 3 then p else 0
      else if j + 1 != i then s[j + 1]
      else if !Last() then if b >= 4 then s[i + 1] else s[i]
      else if lead < 2 then if b < 4 then s[i] else if a >= 3 && mid <= 3 then p else 0
      else if a < 3 then if b >= 4 then 0 else s[i]
      else if b >= 4 && mid <= 3 then 0 else p
    }
  }

  /** The memory that the two operations have made, however their stores were woven. */
  ghost predicate Woven(g: Family, w: Weave)
    requires w.Ok()
  {
    && g.head.prev == w.HeadPrev() && w.HeadNext(g.head.next)
    && (w.b <= 4 ==> Of(g, w.s[w.i]) == w.Own())
    && (w.a >= 1 ==> Of(g, w.p).prev == w.AddedPrev())
    && (w.a >= 2 ==> Of(g, w.p).next == 0)
    && forall j: nat {:trigger OtherOk(g, w, j)} :: j < |w.s| && j != w.i ==> OtherOk(g, w, j)
  }

  ghost predicate OtherOk(g: Family, w: Weave, j: nat)
    requires w.Ok() && j < |w.s|
  {
    Of(g, w.s[j]) == w.Other(j)
  }

  lemma WovenAppendOther(g: Family, w: Weave, j: nat)
    requires w.Ok() && w.a < 5 && Woven(g, w) && j < |w.s| && j != w.i
    ensures OtherOk(Store(g, Append(w.p), w.a), w.Appended(), j)
  {
    assert OtherOk(g, w, j);
  }

  lemma WovenAppend(g: Family, w: Weave)
    requires w.Ok() && w.a < 5 && Woven(g, w)
    ensures w.Appended().Ok() && Woven(Store(g, Append(w.p), w.a), w.Appended())
  {
    forall j: nat | j < |w.s| && j != w.i
      ensures OtherOk(Store(g, Append(w.p), w.a), w.Appended(), j)
    {
      WovenAppendOther(g, w, j);
    }
    hide OtherOk;
  }

  lemma WovenReapOther(g: Family, w: Weave, j: nat)
    requires w.Ok() && w.b < 6 && Woven(g, w) && j < |w.s| && j != w.i
    ensures w.Reaped().Ok() && OtherOk(Store(g, Reap(w.s[w.i]), w.b), w.Reaped(), j)
  {
    assert OtherOk(g, w, j);
  }

  lemma WovenReap(g: Family, w: Weave)
    requires w.Ok() && w.b < 6 && Woven(g, w)
    ensures w.Reaped().Ok() && Woven(Store(g, Reap(w.s[w.i]), w.b), w.Reaped())
  {
    forall j: nat | j < |w.s| && j != w.i
      ensures OtherOk(Store(g, Reap(w.s[w.i]), w.b), w.Reaped(), j)
    {
      WovenReapOther(g, w, j);
    }
    hide OtherOk;
  }

  /** Nobody else has freed the processes at hand. */
  ghost predicate FreedOk(g: Family, w: Weave, base: set<Pid>)
    requires w.Ok()
  {
    && g.freed == base + (if w.b == 6 then {w.s[w.i]} else {})
    && w.p !in base && forall q :: q in w.s ==> q !in base
  }

  /** The adoption touches a freed process exactly when it has read the process being reaped
      as the tail, and all of the reaping came before the store through it. */
  lemma WovenTouches(g: Family, w: Weave, base: set<Pid>)
    requires w.Ok() && Woven(g, w) && FreedOk(g, w, base)
    ensures w.a < 5 ==>
      (Touched(g, Append(w.p), w.a) * g.freed != {} <==> w.a == 2 && w.b == 6 && w.Last() && w.lead < 2)
    ensures w.b < 6 ==> Touched(g, Reap(w.s[w.i]), w.b) !! g.freed
  {
    var t := TailRead(w.s, w.i, w.lead);
    if w.a == 2 && t != 0 {
      assert t in Touched(g, Append(w.p), 2);
    }
  }

  /** When the list is right at the end. */
  ghost predicate Clean(w: Weave)
    requires w.Ok()
  {
    !w.Last() || if w.lead < 2 then w.mid <= 2 else |w.s| == 1 || w.mid >= 4
  }

  /** The links of a process that stays, where the list is right. */
  lemma EndLink(g: Family, w: Weave, k: nat, j: nat)
    requires w.Ok() && Woven(g, w) && w.a == 5 && w.b == 6 && Clean(w)
    requires k < |w.s| - 1 && j == if k < w.i then k else k + 1
    ensures var r := Without(w.s, w.i) + [w.p];
      |r| == |w.s| && r[k] == w.s[j] && Of(g, r[k]) == Links(PrevIn(r, k), NextIn(r, k))
  {
    WithoutEnds(w.s, w.i);
    WithoutAt(w.s, w.i, k, j);
    assert OtherOk(g, w, j);
    EndNeighbours(w, k);
    hide Woven, OtherOk, NoDup, Without, Of;
  }

  lemma EndNeighbours(w: Weave, k: nat)
    requires w.Ok() && k < |w.s| - 1
    ensures var r, q := Without(w.s, w.i) + [w.p], Without(w.s, w.i);
      && |r| == |w.s| && r[k] == q[k] && PrevIn(r, k) == PrevIn(q, k)
      && NextIn(r, k) == if k == |w.s| - 2 then w.p else NextIn(q, k)
  {
  }

  lemma EndAdded(g: Family, w: Weave)
    requires w.Ok() && Woven(g, w) && w.a == 5 && w.b == 6 && Clean(w)
    ensures var r := Without(w.s, w.i) + [w.p];
      |r| == |w.s| && r[|r| - 1] == w.p && Of(g, w.p) == Links(PrevIn(r, |r| - 1), 0)
  {
    WithoutEnds(w.s, w.i);
  }

  lemma EndLinkOk(g: Family, w: Weave, base: set<Pid>, k: nat, j: nat)
    requires w.Ok() && Woven(g, w) && FreedOk(g, w, base) && w.a == 5 && w.b == 6 && Clean(w) && k < |w.s|
    requires j == if k < w.i then k else k + 1
    ensures var r := Without(w.s, w.i) + [w.p]; |r| == |w.s| && LinkOk(g, r, k)
  {
    EndAdded(g, w);
    if k < |w.s| - 1 {
      EndLink(g, w, k, j);
      WithoutAt(w.s, w.i, k, j);
    }
    hide Of, Without, Woven, Clean, NoDup;
  }

  lemma EndHead(g: Family, w: Weave)
    requires w.Ok() && Woven(g, w) && w.a == 5 && w.b == 6 && Clean(w)
    ensures var r := Without(w.s, w.i) + [w.p]; NoDup(r) && |r| == |w.s| && g.head == Links(w.p, r[0])
  {
    WithoutEnds(w.s, w.i);
    hide OtherOk;
  }

  lemma EndsClean(g: Family, w: Weave, base: set<Pid>)
    requires w.Ok() && Woven(g, w) && FreedOk(g, w, base) && w.a == 5 && w.b == 6 && Clean(w)
    ensures Spells(g, Without(w.s, w.i) + [w.p])
  {
    var r := Without(w.s, w.i) + [w.p];
    EndHead(g, w);
    forall k: nat | k < |r|
      ensures LinkOk(g, r, k)
    {
      EndLinkOk(g, w, base, k, if k < w.i then k else k + 1);
    }
    hide LinkOk, OtherOk, Without, Clean, Woven, NoDup, Of;
  }

  lemma EndsBroken(g: Family, w: Weave)
    requires w.Ok() && Woven(g, w) && w.a == 5 && w.b == 6 && !Clean(w)
    ensures !Spells(g, Without(w.s, w.i) + [w.p])
  {
    var r := Without(w.s, w.i) + [w.p];
    if w.lead < 2 {
      assert !LinkOk(g, r, |r| - 1);
    } else {
      assert OtherOk(g, w, w.i - 1);
      assert !LinkOk(g, r, |r| - 2);
    }
  }

  function AgentAt(op: Op, k: nat): Agent { if k < Stores(op) then Busy(op, k) else Idle }

  /** A state that the two operations, so far woven, have made. */
  ghost predicate Matches(s: State, w: Weave, base: set<Pid>) {
    && w.Ok() && Woven(s.f, w) && FreedOk(s.f, w, base)
    && s.agents == [AgentAt(Append(w.p), w.a), AgentAt(Reap(w.s[w.i]), w.b)]
  }

  lemma BothMatch(f: Family, s: seq<Pid>, i: nat, p: Pid)
    requires Spells(f, s) && i < |s| && Legal(f, s, Append(p))
    ensures Matches(Both(f, p, s[i]), Weave(s, i, p, 0, 0, 0, 0), f.freed)
  {
    var w := Weave(s, i, p, 0, 0, 0, 0);
    forall q | q in s
      ensures q != 0 && q !in f.freed
    {
      var j :| 0 <= j < |s| && s[j] == q;
      assert LinkOk(f, s, j);
    }
    forall j: nat | j < |s| && j != i
      ensures OtherOk(f, w, j)
    {
      assert LinkOk(f, s, j);
    }
    assert LinkOk(f, s, i);
  }

  lemma MatchStep(s: State, w: Weave, base: set<Pid>, e: Step)
    requires Matches(s, w, base) && Enabled(s, e) && e.Advance?
    ensures Matches(Apply(s, e), if e.i == 0 then w.Appended() else w.Reaped(), base)
  {
    if e.i == 0 {
      WovenAppend(s.f, w);
    } else {
      WovenReap(s.f, w);
    }
    hide Woven;
  }

  lemma {:induction false} MatchRun(s: State, w: Weave, base: set<Pid>, run: seq<Step>, r: State) returns (v: Weave)
    requires Matches(s, w, base) && Leads(s, run, r) && AdvancesOnly(run)
    ensures Matches(r, v, base) && v.s == w.s && v.i == w.i && v.p == w.p
    ensures v.lead == if w.a == 0 then w.b + Before(run, 0) else w.lead
    ensures v.mid == if w.a <= 2 then w.b + Before(run, 2 - w.a) else w.mid
    decreases |run|
  {
    hide Woven, FreedOk, Apply;
    if run == [] {
      v := w;
    } else {
      MatchStep(s, w, base, run[0]);
      v := MatchRun(Apply(s, run[0]), if run[0].i == 0 then w.Appended() else w.Reaped(), base, run[1..], r);
    }
  }

  /** One adoption and one reaping by two CPUs, their stores woven in any way. A store touches
      a freed process if and only if it is the adoption's third, the process reaped was last,
      the adoption read it as the tail before the reaping moved the tail, and the reaping is
      over. */
  lemma OverlapTouches(f: Family, s: seq<Pid>, i: nat, p: Pid, run: seq<Step>, r: State, e: Step)
    requires Spells(f, s) && i < |s| && Legal(f, s, Append(p))
    requires Leads(Both(f, p, s[i]), run, r) && AdvancesOnly(run) && Enabled(r, e) && e.Advance?
    ensures TouchedBy(r, e) * r.f.freed != {} <==>
      e == Advance(0) && r.agents == [Busy(Append(p), 2), Idle] && i == |s| - 1 && Before(run, 0) < 2
  {
    BothMatch(f, s, i, p);
    var w := MatchRun(Both(f, p, s[i]), Weave(s, i, p, 0, 0, 0, 0), f.freed, run, r);
    WovenTouches(r.f, w, f.freed);
    hide Woven, FreedOk, Touched, Leads, Spells;
  }

  /** When both are over, the list is right if and only if the process reaped was not last, or
      the adoption read it as the tail and stored through it before the reaping passed the tail
      on, or read the tail after the reaping had moved it and stored through it, if there was
      one, after the reaping was done with it. */
  lemma OverlapSpells(f: Family, s: seq<Pid>, i: nat, p: Pid, run: seq<Step>, r: State)
    requires Spells(f, s) && i < |s| && Legal(f, s, Append(p))
    requires Leads(Both(f, p, s[i]), run, r) && AdvancesOnly(run) && r.agents == [Idle, Idle]
    ensures Spells(r.f, Without(s, i) + [p]) <==>
      i < |s| - 1 || if Before(run, 0) < 2 then Before(run, 2) <= 2 else |s| == 1 || Before(run, 2) >= 4
  {
    BothMatch(f, s, i, p);
    var w := MatchRun(Both(f, p, s[i]), Weave(s, i, p, 0, 0, 0, 0), f.freed, run, r);
    if Clean(w) {
      EndsClean(r.f, w, f.freed);
    } else {
      EndsBroken(r.f, w);
    }
    hide Woven, FreedOk, Leads, Spells;
  }

  // ---- A run that meets the condition ----

  predicate Goes(s: State, e: Step, r: State) { Enabled(s, e) && Apply(s, e) == r }

  lemma LeadsFrom(s: State, e: Step, rest: seq<Step>, r: State)
    requires Enabled(s, e) && Leads(Apply(s, e), rest, r)
    ensures Leads(s, [e] + rest, r)
  {
    assert ([e] + rest)[1..] == rest;
  }

  /** A run from its states. */
  lemma {:induction false} Path(states: seq<State>, run: seq<Step>)
    requires |states| == |run| + 1
    requires forall k {:trigger run[k]} :: 0 <= k < |run| ==> Goes(states[k], run[k], states[k + 1])
    ensures Leads(states[0], run, states[|run|])
    decreases |run|
  {
    hide Enabled, Apply;
    if run != [] {
      var rest := run[1..];
      assert forall k {:trigger rest[k]} :: 0 <= k < |rest| ==> rest[k] == run[k + 1];
      Path(states[1..], rest);
      assert Goes(states[0], run[0], states[1]);
      LeadsFrom(states[0], run[0], rest, states[|run|]);
      assert run == [run[0]] + rest;
    }
  }

  lemma {:induction false} LeadsOn(s: State, run: seq<Step>, m: State, rest: seq<Step>, r: State)
    requires Leads(s, run, m) && Leads(m, rest, r)
    ensures Leads(s, run + rest, r)
    decreases |run|
  {
    hide Enabled, Apply;
    if run == [] {
      assert run + rest == rest;
    } else {
      LeadsOn(Apply(s, run[0]), run[1..], m, rest, r);
      assert run + rest == [run[0]] + (run[1..] + rest);
    }
  }

  function OneChild(x: Pid): Family { Family(Links(x, x), map[x := Links(0, 0)], {}) }

  lemma OneChildSpells(x: Pid)
    requires x != 0
    ensures Spells(OneChild(x), [x])
  {
    assert LinkOk(OneChild(x), [x], 0);
  }

  /** CPU 0 reads the tail, CPU 1 unlinks and frees it, and CPU 0 goes on. */
  function Race(): seq<Step> {
    [Advance(0), Advance(1), Advance(1), Advance(1), Advance(1), Advance(1), Advance(1), Advance(0)]
  }

  /** CPU 0 adopts c while CPU 1 reaps x, the only child. */
  lemma RaceTouchesFreed(x: Pid, c: Pid) returns (r: State)
    requires x != 0 && c != 0 && x != c
    ensures Spells(OneChild(x), [x]) && Leads(Both(OneChild(x), c, x), Race(), r)
    ensures Enabled(r, Advance(0)) && TouchedBy(r, Advance(0)) * r.f.freed != {}
  {
    hide Store, Touched, Spells;
    var s := Both(OneChild(x), c, x);
    var s1 := Apply(s, Advance(0));
    var s2 := Apply(s1, Advance(1));
    var s3 := Apply(s2, Advance(1));
    var s4 := Apply(s3, Advance(1));
    var s5 := Apply(s4, Advance(1));
    var s6 := Apply(s5, Advance(1));
    var s7 := Apply(s6, Advance(1));
    assert s7.agents == [Busy(Append(c), 1), Idle];
    r := Apply(s7, Advance(0));
    assert Goes(s, Advance(0), s1) && Goes(s1, Advance(1), s2) && Goes(s2, Advance(1), s3);
    assert Goes(s3, Advance(1), s4) && Goes(s4, Advance(1), s5) && Goes(s5, Advance(1), s6);
    assert Goes(s6, Advance(1), s7) && Goes(s7, Advance(0), r);
    hide Goes;
    Path([s, s1, s2, s3, s4, s5, s6, s7, r], Race());
    OneChildSpells(x);
    OverlapTouches(OneChild(x), [x], 0, c, Race(), r, Advance(0));
  }

  // ---- Two adoptions and the reapings after them ----

  /** CPU 2 reaps p with nobody in between. */
  function ReapWhole(p: Pid): seq<Step> {
    [Start(2, Reap(p)), Advance(2), Advance(2), Advance(2), Advance(2), Advance(2), Advance(2)]
  }

  lemma ReapsWhole(s: State, p: Pid)
    requires |s.agents| == 3 && s.agents[2] == Idle
    ensures Leads(s, ReapWhole(p), s.(f := After(s.f, Reap(p), 6)))
  {
    var op := Reap(p);
    var at := (k: nat) => State(After(s.f, op, k), s.agents[2 := Busy(op, k)]);
    var r := s.(f := After(s.f, op, 6));
    assert Goes(s, Start(2, op), at(0));
    forall k: nat | k < 5
      ensures Goes(at(k), Advance(2), at(k + 1))
    {
      Next(s.f, op, k);
    }
    Next(s.f, op, 5);
    assert Goes(at(5), Advance(2), r) by {
      assert s.agents[2 := Idle] == s.agents;
    }
    hide Goes, After;
    var states := [s, at(0), at(1), at(2), at(3), at(4), at(5), r];
    Path(states, ReapWhole(p));
  }

  predicate Distinct(x: Pid, y: Pid, z: Pid) { x != 0 && x != y && y != z && z != x && 0 != y && 0 != z }

  /** CPUs 0 and 1 adopt y and z, and both read x as the tail and store through it. */
  function Adoptions(y: Pid, z: Pid): seq<Step> {
    [Start(0, Append(y)), Advance(0), Start(1, Append(z)), Advance(1), Advance(1), Advance(1)]
  }

  lemma BothReadTheTail(s: State, x: Pid, y: Pid, z: Pid) returns (r: State)
    requires s == State(OneChild(x), [Idle, Idle, Idle]) && Distinct(x, y, z)
    ensures Leads(s, Adoptions(y, z), r) && r.agents == [Busy(Append(y), 1), Busy(Append(z), 3), Idle]
    ensures r.f.head == Links(x, x) && r.f.freed == {} && Of(r.f, x) == Links(0, z)
    ensures Of(r.f, y).prev == x && Of(r.f, z) == Links(x, 0)
  {
    var a, b := Append(y), Append(z);
    var s1 := Apply(s, Start(0, a));
    var s2 := Apply(s1, Advance(0));
    var s3 := Apply(s2, Start(1, b));
    assert s3.agents == [Busy(a, 1), Busy(b, 0), Idle] && Of(s3.f, y).prev == x && Of(s3.f, x) == Links(0, 0);
    var s4 := Apply(s3, Advance(1));
    var s5 := Apply(s4, Advance(1));
    r := Apply(s5, Advance(1));
    assert Goes(s, Start(0, a), s1) && Goes(s1, Advance(0), s2) && Goes(s2, Start(1, b), s3);
    assert Goes(s3, Advance(1), s4) && Goes(s4, Advance(1), s5) && Goes(s5, Advance(1), r);
    hide Goes;
    Path([s, s1, s2, s3, s4, s5, r], Adoptions(y, z));
  }

  const OTHERS_STORES := [Advance(0), Advance(0), Advance(0), Advance(0), Advance(1)]

  /** CPU 0 then finishes its append, and CPU 1 all of its own but the last store. */
  lemma OneIsLost(s: State, x: Pid, y: Pid, z: Pid) returns (r: State)
    requires s.agents == [Busy(Append(y), 1), Busy(Append(z), 3), Idle] && Distinct(x, y, z)
    requires s.f.head == Links(x, x) && s.f.freed == {} && Of(s.f, x) == Links(0, z)
    requires Of(s.f, y).prev == x && Of(s.f, z) == Links(x, 0)
    ensures Leads(s, OTHERS_STORES, r)
    ensures r.agents == [Idle, Busy(Append(z), 4), Idle] && r.f.head == Links(z, x) && r.f.freed == {}
    ensures Of(r.f, x) == Links(0, y) && Of(r.f, y) == Links(x, 0) && Of(r.f, z) == Links(x, 0)
  {
    var s1 := Apply(s, Advance(0));
    var s2 := Apply(s1, Advance(0));
    var s3 := Apply(s2, Advance(0));
    var s4 := Apply(s3, Advance(0));
    assert s4.agents == [Idle, Busy(Append(z), 3), Idle];
    r := Apply(s4, Advance(1));
    assert Goes(s, Advance(0), s1) && Goes(s1, Advance(0), s2) && Goes(s2, Advance(0), s3);
    assert Goes(s3, Advance(0), s4) && Goes(s4, Advance(1), r);
    hide Goes;
    Path([s, s1, s2, s3, s4, r], OTHERS_STORES);
  }

  /** CPU 2 reaps the first process of the list, x. */
  lemma FirstIsReaped(s: State, x: Pid, y: Pid, z: Pid) returns (r: State)
    requires s.agents == [Idle, Busy(Append(z), 4), Idle] && Distinct(x, y, z)
    requires s.f.head == Links(z, x) && s.f.freed == {}
    requires Of(s.f, x) == Links(0, y) && Of(s.f, y) == Links(x, 0) && Of(s.f, z) == Links(x, 0)
    ensures Leads(s, ReapWhole(x), r) && r.agents == s.agents && r.f.head == Links(z, y) && r.f.freed == {x}
    ensures Of(r.f, y) == Links(0, 0) && Of(r.f, z) == Links(x, 0)
  {
    ReapsWhole(s, x);
    ReapLeaves(s.f, x, 0, y);
    r := s.(f := After(s.f, Reap(x), 6));
    hide After, Leads;
  }

  /** ... and the next, y. */
  lemma SecondIsReaped(s: State, x: Pid, y: Pid, z: Pid) returns (r: State)
    requires s.agents == [Idle, Busy(Append(z), 4), Idle] && Distinct(x, y, z)
    requires s.f.head == Links(z, y) && s.f.freed == {x} && Of(s.f, y) == Links(0, 0) && Of(s.f, z) == Links(x, 0)
    ensures Leads(s, ReapWhole(y), r) && r.agents == s.agents && r.f.head == Links(z, 0) && r.f.freed == {x, y}
    ensures Of(r.f, z) == Links(x, 0)
  {
    ReapsWhole(s, y);
    ReapLeaves(s.f, y, 0, 0);
    r := s.(f := After(s.f, Reap(y), 6));
    hide After, Leads;
  }

  /** CPU 1 makes its last store: z is the only process on the list. */
  lemma LastStore(s: State, x: Pid, y: Pid, z: Pid) returns (r: State)
    requires s.agents == [Idle, Busy(Append(z), 4), Idle]
    requires s.f.head == Links(z, 0) && s.f.freed == {x, y} && Of(s.f, z) == Links(x, 0)
    ensures Leads(s, [Advance(1)], r) && r.agents == [Idle, Idle, Idle]
    ensures r.f.head == Links(z, z) && r.f.freed == {x, y} && Of(r.f, z) == Links(x, 0)
  {
    r := Apply(s, Advance(1));
    Path([s, r], [Advance(1)]);
  }

  function ReapStarts(p: Pid): seq<Step> { [Start(2, Reap(p)), Advance(2), Advance(2), Advance(2)] }

  /** CPU 2 reaps z up to its store through the link to x. */
  lemma LastReaping(s: State, x: Pid, y: Pid, z: Pid) returns (r: State)
    requires s.agents == [Idle, Idle, Idle] && Distinct(x, y, z)
    requires s.f.head == Links(z, z) && s.f.freed == {x, y} && Of(s.f, z) == Links(x, 0)
    ensures Leads(s, ReapStarts(z), r)
    ensures Enabled(r, Advance(2)) && x in TouchedBy(r, Advance(2)) && x in r.f.freed
  {
    var s1 := Apply(s, Start(2, Reap(z)));
    var s2 := Apply(s1, Advance(2));
    var s3 := Apply(s2, Advance(2));
    r := Apply(s3, Advance(2));
    assert Goes(s, Start(2, Reap(z)), s1) && Goes(s1, Advance(2), s2) && Goes(s2, Advance(2), s3);
    assert Goes(s3, Advance(2), r);
    hide Goes;
    Path([s, s1, s2, s3, r], ReapStarts(z));
  }

  /** The states in which the three reapings start, and in which the last one fails. */
  datatype Failure = Failure(first: State, second: State, third: State, end: State)

  /** Two adoptions that overlap are enough. Both read x as the tail and store through it while
      it is live, and no two reapings overlap, each taking the first process of the list; but
      the last of them stores through a link to x, which has been freed. */
  lemma AdoptionsRace(x: Pid, y: Pid, z: Pid) returns (t: Failure)
    requires Distinct(x, y, z)
    ensures Spells(OneChild(x), [x])
    ensures Leads(State(OneChild(x), [Idle, Idle, Idle]), Adoptions(y, z) + OTHERS_STORES, t.first)
    ensures t.first.f.freed == {} && t.first.f.head.next == x && Leads(t.first, ReapWhole(x), t.second)
    ensures t.second.f.head.next == y && Leads(t.second, ReapWhole(y) + [Advance(1)], t.third)
    ensures t.third.f.head.next == z && Leads(t.third, ReapStarts(z), t.end)
    ensures Enabled(t.end, Advance(2)) && x in TouchedBy(t.end, Advance(2)) && x in t.end.f.freed
  {
    var s := State(OneChild(x), [Idle, Idle, Idle]);
    OneChildSpells(x);
    hide Leads, Spells, Enabled, TouchedBy, OneChild, Of;
    var s1 := BothReadTheTail(s, x, y, z);
    var m := OneIsLost(s1, x, y, z);
    LeadsOn(s, Adoptions(y, z), s1, OTHERS_STORES, m);
    var n := FirstIsReaped(m, x, y, z);
    var s2 := SecondIsReaped(n, x, y, z);
    var k := LastStore(s2, x, y, z);
    LeadsOn(n, ReapWhole(y), s2, [Advance(1)], k);
    var r := LastReaping(k, x, y, z);
    t := Failure(m, n, k, r);
  }
}
