/** A run of the scheduler in which the loop of process_free (kernel/proc/process.c:108) reads
    the link of the thread it has just freed: one CPU, one fork, exit and wait. */
module FreedThread {
  import opened Common
  import opened Scheduling

  /** Steps of CPU 0. */
  function One(steps: seq<Step>): (run: seq<(nat, Step)>)
    ensures |run| == |steps| && forall k :: 0 <= k < |run| ==> run[k] == (0, steps[k])
  {
    seq(|steps|, k requires 0 <= k < |steps| => (0, steps[k]))
  }

  predicate Goes(s: State, step: Step, r: State) { Enabled(s, 0, step) && Apply(s, 0, step) == r }

  /** A run of CPU 0 from its states. */
  lemma {:induction false} Path(states: seq<State>, steps: seq<Step>)
    requires |states| == |steps| + 1
    requires forall k {:trigger steps[k]} :: 0 <= k < |steps| ==> Goes(states[k], steps[k], states[k + 1])
    ensures Leads(states[0], One(steps), states[|steps|])
    decreases |steps|
  {
    hide Enabled, Apply;
    if steps != [] {
      var rest := steps[1..];
      assert forall k {:trigger rest[k]} :: 0 <= k < |rest| ==> rest[k] == steps[k + 1];
      Path(states[1..], rest);
      assert Goes(states[0], steps[0], states[1]);
      LeadsFrom(states[0], 0, steps[0], One(rest), states[|steps|]);
      assert One(steps) == [(0, steps[0])] + One(rest);
    }
  }

  lemma OneOn(s: State, a: seq<Step>, m: State, b: seq<Step>, r: State)
    requires Leads(s, One(a), m) && Leads(m, One(b), r)
    ensures Leads(s, One(a + b), r)
  {
    hide Enabled, Apply;
    LeadsOn(s, One(a), m, One(b), r);
    assert One(a + b) == One(a) + One(b);
  }

  const TURN := [Pick, Check, Load, Dispatch] // the first thread of the queue gets the CPU
  const GIVE_BACK := [Switch, HandBack, InsertOld] // the last one is queued again

  predicate CanTurn(s: State, t: Tid) {
    && |s.cpus| == 1 && s.cpus[0].pc == Picking && s.cpus[0].current == None
    && s.queue != [] && s.queue[0] == t && t in s.tasks && s.tasks[t].process == Idle
  }

  function Turned(s: State, t: Tid): State
    requires CanTurn(s, t)
  {
    State(s.tasks[t := s.tasks[t].(thread := Running, process := Active)], s.queue[1..],
          [Cpu(OnThread(t), Some(t), Some(t))], s.init)
  }

  lemma LoadsAndRuns(s: State, t: Tid)
    requires |s.cpus| == 1 && s.cpus[0] == Cpu(Chosen(t), None, Some(t)) && t in s.tasks
    ensures var m := State(s.tasks[t := s.tasks[t].(process := Active)], s.queue,
                           [Cpu(Loaded(t), Some(t), Some(t))], s.init);
      Goes(s, Load, m) && Goes(m, Dispatch, m.(cpus := [Cpu(OnThread(t), Some(t), Some(t))]))
  {
    hide HandedBack, Checked, Exits, Reaps, Schedule, Runs, RunsSome, SetAt;
  }

  lemma Turn(s: State, t: Tid)
    requires CanTurn(s, t)
    ensures Leads(s, One(TURN), Turned(s, t))
  {
    hide Leads, HandedBack, Exits, Reaps, Schedule, Runs, RunsSome, SetAt, SwitchProcess;
    var q, k := s.queue[1..], s.tasks[t].(thread := Running);
    var s1 := State(s.tasks, q, [s.cpus[0].(pc := Picked(t))], s.init);
    var s2 := State(s.tasks[t := k], q, [Cpu(Chosen(t), None, Some(t))], s.init);
    var s3 := Turned(s, t).(cpus := [Cpu(Loaded(t), Some(t), Some(t))]);
    assert Goes(s, Pick, s1);
    assert Goes(s1, Check, s2);
    LoadsAndRuns(s2, t);
    hide Goes;
    assert s2.tasks[t := s2.tasks[t].(process := Active)] == s3.tasks;
    Path([s, s1, s2, s3, Turned(s, t)], TURN);
  }

  predicate CanGiveBack(s: State, t: Tid) {
    && |s.cpus| == 1 && s.cpus[0] == Cpu(Leaving(t), None, Some(t)) && t in s.tasks
    && s.tasks[t].thread == Running && s.tasks[t].process == Idle
  }

  function GivenBack(s: State, t: Tid): State
    requires CanGiveBack(s, t)
  {
    State(s.tasks[t := s.tasks[t].(thread := Ready)], s.queue + [t], [Cpu(Picking, None, Some(t))], s.init)
  }

  lemma GiveBack(s: State, t: Tid)
    requires CanGiveBack(s, t)
    ensures Leads(s, One(GIVE_BACK), GivenBack(s, t))
  {
    hide Leads, Checked, Exits, Reaps, Schedule, Runs, RunsSome, SetAt, SwitchProcess;
    var s1 := s.(cpus := [Cpu(Top, None, Some(t))]);
    var s2 := GivenBack(s, t).(queue := s.queue, cpus := [Cpu(Requeue(t), None, Some(t))]);
    assert Goes(s, Switch, s1);
    assert Goes(s1, HandBack, s2);
    assert Goes(s2, InsertOld, GivenBack(s, t));
    hide Goes, Turned, GivenBack;
    Path([s, s1, s2, GivenBack(s, t)], GIVE_BACK);
  }

  // One CPU, x as init and its child y.

  function Alone(x: Tid, k: Task, q: seq<Tid>, c: Cpu): State { State(map[x := k], q, [c], x) }

  function Pair(x: Tid, y: Tid, a: Task, b: Task, q: seq<Tid>, c: Cpu): State {
    State(map[x := a, y := b], q, [c], x)
  }

  lemma PairSets(x: Tid, y: Tid, a: Task, b: Task, q: seq<Tid>, c: Cpu, k: Task)
    requires x != y
    ensures SetTask(Pair(x, y, a, b, q, c), x, k) == Pair(x, y, k, b, q, c)
    ensures SetTask(Pair(x, y, a, b, q, c), y, k) == Pair(x, y, a, k, q, c)
  {
  }

  const FRESH := Task(Ready, Idle, User, None, false, false)

  /** A child of x that has exited and whose thread is finished. */
  function Dead(x: Tid): Task { Task(Finished, Zombie, Gone, Some(x), false, false) }

  /** The CPU comes to its first pick. */
  lemma Boots(x: Tid)
    ensures Leads(Alone(x, FRESH, [x], Cpu(Boot, None, None)), One([Enter, HandBack]),
                  Alone(x, FRESH, [x], Cpu(Picking, None, None)))
  {
    hide Leads, Checked, Exits, Reaps, Schedule, Runs, RunsSome, SetAt;
    var s := Alone(x, FRESH, [x], Cpu(Boot, None, None));
    var s1 := s.(cpus := [Cpu(Top, None, None)]);
    var r := s.(cpus := [Cpu(Picking, None, None)]);
    assert Goes(s, Enter, s1);
    assert Goes(s1, HandBack, r);
    hide Goes, Turned, GivenBack;
    Path([s, s1, r], [Enter, HandBack]);
  }

  /** Init forks, waits, finds no dead child and calls schedule. */
  lemma ForksAndWaits(x: Tid, y: Tid, a: Task)
    requires x != y && a == FRESH.(thread := Running, process := Active)
    ensures Leads(Alone(x, a, [], Cpu(OnThread(x), Some(x), Some(x))), One([Fork(y), Insert, Wait, NoneFound]),
                  Pair(x, y, a.(at := Scanning, process := Idle), FRESH.(parent := Some(x)), [y],
                       Cpu(Leaving(x), None, Some(x))))
  {
    hide Leads, Checked, HandedBack, Exits, Reaps;
    var b, c := FRESH.(parent := Some(x)), Cpu(OnThread(x), Some(x), Some(x));
    var s := Alone(x, a, [], c);
    var s1 := Pair(x, y, a.(at := Forking(y)), b, [], c);
    var s2 := Pair(x, y, a, b, [y], c);
    var s3 := Pair(x, y, a.(at := Scanning), b, [y], c);
    var r := Pair(x, y, a.(at := Scanning, process := Idle), b, [y], Cpu(Leaving(x), None, Some(x)));
    assert Goes(s, Fork(y), s1);
    assert Goes(s1, Insert, s2);
    assert Goes(s2, Wait, s3);
    assert Goes(s3, NoneFound, r);
    hide Goes, Turned, GivenBack;
    Path([s, s1, s2, s3, r], [Fork(y), Insert, Wait, NoneFound]);
  }

  lemma LeavesForGood(x: Tid, y: Tid, a: Task, b: Task)
    requires x != y && b == Task(Running, Zombie, Exited, Some(x), false, false)
    ensures Goes(Pair(x, y, a, b, [x], Cpu(OnThread(y), Some(y), Some(y))), Leave,
                 Pair(x, y, a, b.(at := Gone), [x], Cpu(Leaving(y), None, Some(y))))
  {
    hide HandedBack, Checked, Exits, Reaps;
    PairSets(x, y, a, b, [x], Cpu(OnThread(y), Some(y), Some(y)), b.(at := Gone));
  }

  /** The child exits and is finished. */
  lemma ChildExits(x: Tid, y: Tid, a: Task, b: Task)
    requires x != y && b == Task(Running, Active, User, Some(x), false, false)
    ensures Leads(Pair(x, y, a, b, [x], Cpu(OnThread(y), Some(y), Some(y))), One([Exit(None), Leave, Switch, HandBack]),
                  Pair(x, y, a, Dead(x), [x], Cpu(Picking, None, Some(y))))
  {
    hide Leads, Checked, Reaps, Schedule, SwitchProcess;
    var b1 := b.(process := Zombie, at := Exited);
    var s := Pair(x, y, a, b, [x], Cpu(OnThread(y), Some(y), Some(y)));
    var s1 := Pair(x, y, a, b1, [x], Cpu(OnThread(y), Some(y), Some(y)));
    var s2 := Pair(x, y, a, b1.(at := Gone), [x], Cpu(Leaving(y), None, Some(y)));
    var s3 := Pair(x, y, a, b1.(at := Gone), [x], Cpu(Top, None, Some(y)));
    var r := Pair(x, y, a, Dead(x), [x], Cpu(Picking, None, Some(y)));
    assert Goes(s, Exit(None), s1);
    LeavesForGood(x, y, a, b1);
    assert Goes(s2, Switch, s3);
    assert Goes(s3, HandBack, r);
    hide Goes;
    Path([s, s1, s2, s3, r], [Exit(None), Leave, Switch, HandBack]);
  }

  /** Init finds the dead child and frees its thread. */
  lemma FindsAndFrees(x: Tid, y: Tid, a: Task, b: Task, c: Cpu)
    requires x != y && a.at == Scanning && b == Dead(x)
    requires c.pc == OnThread(x)
    ensures Leads(Pair(x, y, a, b, [], c), One([Find(y), Reap]),
                  Pair(x, y, a.(at := Advancing(y)), b.(threadFreed := true), [], c))
  {
    hide Leads, Checked, HandedBack, Exits, Schedule;
    var s := Pair(x, y, a, b, [], c);
    var s1 := Pair(x, y, a.(at := Reaping(y)), b, [], c);
    var r := Pair(x, y, a.(at := Advancing(y)), b.(threadFreed := true), [], c);
    PairSets(x, y, a, b, [], c, s1.tasks[x]);
    PairSets(x, y, s1.tasks[x], b, [], c, r.tasks[y]);
    PairSets(x, y, s1.tasks[x], r.tasks[y], [], c, r.tasks[x]);
    assert Goes(s, Find(y), s1);
    assert Goes(s1, Reap, r);
    hide Goes, Turned, GivenBack;
    Path([s, s1, r], [Find(y), Reap]);
  }

  /** Either of the two takes a turn. */
  lemma PairTurns(x: Tid, y: Tid, a: Task, b: Task, q: seq<Tid>, c: Cpu, t: Tid)
    requires x != y && c.pc == Picking && c.current == None && (t == x || t == y)
    requires (if t == x then a else b).process == Idle
    ensures var go := (k: Task) => k.(thread := Running, process := Active);
      var s := Pair(x, y, a, b, [t] + q, c);
      Leads(s, One(TURN), Pair(x, y, if t == x then go(a) else a, if t == x then b else go(b), q,
                               Cpu(OnThread(t), Some(t), Some(t))))
  {
    var s := Pair(x, y, a, b, [t] + q, c);
    Turn(s, t);
    PairSets(x, y, a, b, q, c, Turned(s, t).tasks[t]);
    assert ([t] + q)[1..] == q;
    hide Leads;
  }

  /** Init forks and waits; the child exits; init finds it and frees its thread. */
  function ForkExitWait(y: Tid): seq<Step> {
    [Enter, HandBack] + TURN + [Fork(y), Insert, Wait, NoneFound] + GIVE_BACK
    + TURN + [Exit(None), Leave, Switch, HandBack] + TURN + [Find(y), Reap]
  }

  lemma ForkAndWaitLeads(x: Tid, y: Tid)
    requires x != y
    ensures Leads(Alone(x, FRESH, [x], Cpu(Boot, None, None)),
                  One([Enter, HandBack] + TURN + [Fork(y), Insert, Wait, NoneFound] + GIVE_BACK),
                  Pair(x, y, FRESH.(at := Scanning), FRESH.(parent := Some(x)), [y, x], Cpu(Picking, None, Some(x))))
  {
    hide Leads, One;
    var s0, s1 := Alone(x, FRESH, [x], Cpu(Boot, None, None)), Alone(x, FRESH, [x], Cpu(Picking, None, None));
    Boots(x);
    Turn(s1, x);
    var a, b := FRESH.(thread := Running, process := Active), FRESH.(parent := Some(x));
    var s2 := Alone(x, a, [], Cpu(OnThread(x), Some(x), Some(x)));
    assert Turned(s1, x) == s2;
    OneOn(s0, [Enter, HandBack], s1, TURN, s2);
    ForksAndWaits(x, y, a);
    var s3 := Pair(x, y, a.(at := Scanning, process := Idle), b, [y], Cpu(Leaving(x), None, Some(x)));
    OneOn(s0, [Enter, HandBack] + TURN, s2, [Fork(y), Insert, Wait, NoneFound], s3);
    GiveBack(s3, x);
    var r := Pair(x, y, FRESH.(at := Scanning), b, [y, x], Cpu(Picking, None, Some(x)));
    assert GivenBack(s3, x) == r by {
      PairSets(x, y, s3.tasks[x], b, [y], s3.cpus[0], r.tasks[x]);
    }
    OneOn(s0, [Enter, HandBack] + TURN + [Fork(y), Insert, Wait, NoneFound], s3, GIVE_BACK, r);
  }

  /** The read of a freed thread is reached, on one CPU, by one fork, exit and wait. */
  lemma FreedThreadIsRead(x: Tid, y: Tid)
    requires x != y
    ensures var s, c := Alone(x, FRESH, [x], Cpu(Boot, None, None)), Cpu(OnThread(x), Some(x), Some(x));
      var k := Task(Running, Active, Advancing(y), None, false, false);
      var r := Pair(x, y, k, Dead(x).(threadFreed := true), [], c);
      && Initial(s) && Leads(s, One(ForkExitWait(y)), r)
      && Enabled(r, 0, Advance) && y in ThreadsTouched(r, 0, Advance) && r.tasks[y].threadFreed
  {
    hide Leads, One;
    var s0 := Alone(x, FRESH, [x], Cpu(Boot, None, None));
    var a, b, go := FRESH.(at := Scanning), FRESH.(parent := Some(x)), FRESH.(thread := Running, process := Active);
    var c := Cpu(OnThread(x), Some(x), Some(x));
    ForkAndWaitLeads(x, y);
    var run := [Enter, HandBack] + TURN + [Fork(y), Insert, Wait, NoneFound] + GIVE_BACK;
    var s1 := Pair(x, y, a, b, [y, x], Cpu(Picking, None, Some(x)));
    PairTurns(x, y, a, b, [x], s1.cpus[0], y);
    var s2 := Pair(x, y, a, go.(parent := Some(x)), [x], Cpu(OnThread(y), Some(y), Some(y)));
    assert [y] + [x] == [y, x];
    OneOn(s0, run, s1, TURN, s2);
    ChildExits(x, y, a, go.(parent := Some(x)));
    var s3 := Pair(x, y, a, Dead(x), [x], Cpu(Picking, None, Some(y)));
    OneOn(s0, run + TURN, s2, [Exit(None), Leave, Switch, HandBack], s3);
    PairTurns(x, y, a, Dead(x), [], s3.cpus[0], x);
    var s4 := Pair(x, y, go.(at := Scanning), Dead(x), [], c);
    assert [x] + [] == [x];
    OneOn(s0, run + TURN + [Exit(None), Leave, Switch, HandBack], s3, TURN, s4);
    FindsAndFrees(x, y, go.(at := Scanning), Dead(x), c);
    var r := Pair(x, y, go.(at := Advancing(y)), Dead(x).(threadFreed := true), [], c);
    OneOn(s0, run + TURN + [Exit(None), Leave, Switch, HandBack] + TURN, s4, [Find(y), Reap], r);
  }
}
