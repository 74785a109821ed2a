/** What runs of the scheduler remember: whose child a process is, in which order threads are
    taken, and what a wait that returns has done. */
module ScheduleHistory {
  import opened Common
  import opened Scheduling

  type Run = seq<(nat, Step)>

  // ---- What a step leaves as it is ----

  /** Changing address spaces leaves a task as it is, but for whether its process runs. */
  lemma SwitchSame(s: State, i: nat, to: Option<Tid>, n: Tid)
    requires i < |s.cpus| && n in s.tasks
    ensures var r := SwitchProcess(s, i, to);
      && r.init == s.init && n in r.tasks && r.tasks[n] == s.tasks[n].(process := r.tasks[n].process)
      && (s.cpus[i].current != Some(n) && to != Some(n) ==> r.tasks[n] == s.tasks[n])
  {
  }

  lemma ScheduleSame(s: State, i: nat, at: Point, n: Tid)
    requires RunsSome(s, i) && n in s.tasks
    ensures var r := Schedule(s, i, at);
      && r.init == s.init && n in r.tasks
      && r.tasks[n] == s.tasks[n].(process := r.tasks[n].process,
                                   at := if n == s.cpus[i].pc.t then at else s.tasks[n].at)
      && (s.cpus[i].current != Some(n) ==> r.tasks[n].process == s.tasks[n].process)
  {
    SwitchSame(SetAt(s, i, at), i, None, n);
    hide SwitchProcess;
  }

  /** The footprints of Scheduling leave out nothing that a step writes: what it changes of a
      thread, or of a process, belongs to one it touches. */
  lemma WritesAreTouched(s: State, i: nat, step: Step, u: Tid)
    requires Enabled(s, i, step) && u in s.tasks
    ensures u in Apply(s, i, step).tasks
    ensures var k, r := s.tasks[u], Apply(s, i, step).tasks[u];
      && (u !in ThreadsTouched(s, i, step) ==>
            r.thread == k.thread && r.at == k.at && r.threadFreed == k.threadFreed)
      && (u !in ProcessesTouched(s, i, step) ==>
            r.process == k.process && r.parent == k.parent && r.processFreed == k.processFreed)
  {
    hide Schedule, SwitchProcess;
    match step
    case Enter => SwitchSame(s, i, None, u);
    case Load => SwitchSame(s, i, Some(s.cpus[i].pc.t), u);
    case Yield => ScheduleSame(s, i, User, u);
    case Leave => ScheduleSame(s, i, if Doing(s, i).Exited? then Gone else User, u);
    case NoneFound => ScheduleSame(s, i, Scanning, u);
    case Reap => ScheduleSame(s, i, Doing(s, i), u);
    case _ =>
  }

  /** Only the CPU that runs a thread moves it on. */
  lemma AtStays(s: State, i: nat, step: Step, t: Tid)
    requires Enabled(s, i, step) && t in s.tasks && s.cpus[i].pc != OnThread(t)
    ensures t in Apply(s, i, step).tasks && Apply(s, i, step).tasks[t].at == s.tasks[t].at
  {
    hide Schedule, SwitchProcess;
    match step
    case Enter => SwitchSame(s, i, None, t);
    case Load => SwitchSame(s, i, Some(s.cpus[i].pc.t), t);
    case Yield => ScheduleSame(s, i, User, t);
    case Leave => ScheduleSame(s, i, if Doing(s, i).Exited? then Gone else User, t);
    case NoneFound => ScheduleSame(s, i, Scanning, t);
    case Reap => ScheduleSame(s, i, Doing(s, i), t);
    case _ =>
  }

  // ---- Whose child a process is ----

  /** Some process exits in run and hands n on. */
  predicate HandsOn(run: Run, n: Tid) {
    exists k :: 0 <= k < |run| && run[k].1 == Exit(Some(n))
  }

  lemma ParentStep(s: State, i: nat, step: Step, n: Tid)
    requires Enabled(s, i, step) && n in s.tasks
    ensures var r := Apply(s, i, step);
      && r.init == s.init && n in r.tasks
      && r.tasks[n].parent == if step == Exit(Some(n)) then Some(s.init) else s.tasks[n].parent
  {
    hide Schedule, SwitchProcess;
    match step
    case Enter => SwitchSame(s, i, None, n);
    case Load => SwitchSame(s, i, Some(s.cpus[i].pc.t), n);
    case Yield => ScheduleSame(s, i, User, n);
    case Leave => ScheduleSame(s, i, if Doing(s, i).Exited? then Gone else User, n);
    case NoneFound => ScheduleSame(s, i, Scanning, n);
    case Reap => ScheduleSame(s, i, Doing(s, i), n);
    case _ =>
  }

  lemma {:induction false} ParentStays(s: State, run: Run, r: State, n: Tid)
    requires Leads(s, run, r) && n in s.tasks
    ensures r.init == s.init && n in r.tasks
    ensures r.tasks[n].parent == if HandsOn(run, n) then Some(s.init) else s.tasks[n].parent
    decreases |run|
  {
    hide Enabled, Apply;
    if run != [] {
      ParentStep(s, run[0].0, run[0].1, n);
      ParentStays(Apply(s, run[0].0, run[0].1), run[1..], r, n);
      HandsOnNext(run, n);
    }
  }

  lemma HandsOnNext(run: Run, n: Tid)
    requires run != []
    ensures HandsOn(run, n) <==> run[0].1 == Exit(Some(n)) || HandsOn(run[1..], n)
  {
    if HandsOn(run, n) {
      var k :| 0 <= k < |run| && run[k].1 == Exit(Some(n));
      assert k > 0 ==> run[1..][k - 1] == run[k];
    }
    if HandsOn(run[1..], n) {
      var k :| 0 <= k < |run[1..]| && run[1..][k].1 == Exit(Some(n));
      assert run[k + 1] == run[1..][k];
    }
  }

  /** A forked process is the child of the process that forked it until that one exits and
      hands it on, and then of init; and it is that parent's wait, on whichever CPU j, that
      can find it, from the moment it has exited until it has been freed. */
  lemma ChildOfItsForker(s: State, i: nat, n: Tid, run: Run, r: State, j: nat)
    requires Enabled(s, i, Fork(n)) && Leads(Apply(s, i, Fork(n)), run, r)
    ensures n in r.tasks && r.init == s.init
    ensures r.tasks[n].parent == Some(if HandsOn(run, n) then s.init else s.cpus[i].pc.t)
    ensures Runs(r, j, Scanning) ==>
      (Enabled(r, j, Find(n)) <==>
        r.cpus[j].pc.t == (if HandsOn(run, n) then s.init else s.cpus[i].pc.t)
        && r.tasks[n].process == Zombie && !r.tasks[n].processFreed)
  {
    ForkedBy(s, i, n);
    ParentStays(Apply(s, i, Fork(n)), run, r, n);
    hide Leads, Apply, HandsOn;
  }

  lemma ForkedBy(s: State, i: nat, n: Tid)
    requires Enabled(s, i, Fork(n))
    ensures var r := Apply(s, i, Fork(n));
      n in r.tasks && r.tasks[n].parent == Some(s.cpus[i].pc.t) && r.init == s.init
  {
  }

  /** No CPU runs n before any step of run. */
  ghost predicate NeverRun(s: State, run: Run, n: Tid)
    decreases |run|
  {
    run == [] ||
    (&& Enabled(s, run[0].0, run[0].1) && s.cpus[run[0].0].pc != OnThread(n)
     && NeverRun(Apply(s, run[0].0, run[0].1), run[1..], n))
  }

  lemma {:induction false} NotRunStays(s: State, run: Run, r: State, n: Tid)
    requires Leads(s, run, r) && NeverRun(s, run, n) && n in s.tasks
    ensures n in r.tasks && r.tasks[n].at == s.tasks[n].at
    decreases |run|
  {
    hide Apply;
    if run != [] {
      AtStays(s, run[0].0, run[0].1, n);
      NotRunStays(Apply(s, run[0].0, run[0].1), run[1..], r, n);
    }
  }

  /** When a forked thread first runs, it is in user mode: the system call of its parent is not
      its own. */
  lemma ForkedStartsInUserMode(s: State, i: nat, n: Tid, run: Run, r: State)
    requires Enabled(s, i, Fork(n)) && Leads(Apply(s, i, Fork(n)), run, r) && NeverRun(Apply(s, i, Fork(n)), run, n)
    ensures n in r.tasks && r.tasks[n].at == User
  {
    NotRunStays(Apply(s, i, Fork(n)), run, r, n);
    hide Leads, NeverRun;
  }

  // ---- In which order threads are taken ----

  /** The thread that a step puts into the ready queue. */
  function Put(s: State, i: nat, step: Step): seq<Tid>
    requires Enabled(s, i, step)
  {
    match step
    case InsertOld => [s.cpus[i].pc.t]
    case Insert => [Doing(s, i).child]
    case _ => []
  }

  /** The thread that a step takes out: the one the CPU has in hand then. */
  function Took(s: State, i: nat, step: Step): seq<Tid>
    requires Enabled(s, i, step)
  {
    var r := Apply(s, i, step);
    if step.Pick? && i < |r.cpus| && r.cpus[i].pc.Picked? then [r.cpus[i].pc.t] else []
  }

  ghost function AllPut(s: State, run: Run, r: State): seq<Tid>
    requires Leads(s, run, r)
    decreases |run|
  {
    if run == [] then [] else
      Put(s, run[0].0, run[0].1) + AllPut(Apply(s, run[0].0, run[0].1), run[1..], r)
  }

  ghost function AllTook(s: State, run: Run, r: State): seq<Tid>
    requires Leads(s, run, r)
    decreases |run|
  {
    if run == [] then [] else
      Took(s, run[0].0, run[0].1) + AllTook(Apply(s, run[0].0, run[0].1), run[1..], r)
  }

  lemma QueueSame(s: State, i: nat, to: Option<Tid>)
    requires i < |s.cpus|
    ensures SwitchProcess(s, i, to).queue == s.queue
  {
  }

  lemma ScheduleQueue(s: State, i: nat, at: Point)
    requires RunsSome(s, i)
    ensures Schedule(s, i, at).queue == s.queue
  {
    QueueSame(SetAt(s, i, at), i, None);
    hide SwitchProcess;
  }

  lemma QueueStep(s: State, i: nat, step: Step)
    requires Enabled(s, i, step)
    ensures s.queue + Put(s, i, step) == Took(s, i, step) + Apply(s, i, step).queue
  {
    hide SwitchProcess, Schedule;
    match step
    case Enter => QueueSame(s, i, None);
    case Load => QueueSame(s, i, Some(s.cpus[i].pc.t));
    case Yield => ScheduleQueue(s, i, User);
    case Leave => ScheduleQueue(s, i, if Doing(s, i).Exited? then Gone else User);
    case NoneFound => ScheduleQueue(s, i, Scanning);
    case Reap => ScheduleQueue(s, i, Doing(s, i));
    case Pick => assert [s.queue[0]] + s.queue[1..] == s.queue;
    case _ =>
  }

  /** Over any run of any CPUs, the threads taken followed by those still queued are those
      queued at first followed by those put in: threads leave in the order they came. */
  lemma {:induction false} ThreadsLeaveInOrder(s: State, run: Run, r: State)
    requires Leads(s, run, r)
    ensures s.queue + AllPut(s, run, r) == AllTook(s, run, r) + r.queue
    decreases |run|
  {
    hide Enabled, Apply, Put, Took;
    if run != [] {
      var (i, step) := run[0];
      QueueStep(s, i, step);
      var m := Apply(s, i, step);
      ThreadsLeaveInOrder(m, run[1..], r);
      var put, took, later := Put(s, i, step), Took(s, i, step), AllPut(m, run[1..], r);
      assert s.queue + (put + later) == (s.queue + put) + later;
      assert (took + m.queue) + later == took + (m.queue + later);
    }
  }

  // ---- What a wait has done when it returns ----

  predicate InWait(p: Point) { p.Scanning? || p.Reaping? || p.Advancing? || p.Freeing? }

  /** n, a child of t, has been freed since s. */
  predicate ReapedSince(s: State, r: State, t: Tid, n: Tid) {
    && n in r.tasks && r.tasks[n].parent == Some(t) && r.tasks[n].threadFreed && r.tasks[n].processFreed
    && !(n in s.tasks && s.tasks[n].processFreed)
  }

  lemma FreedStep(s: State, i: nat, step: Step, n: Tid)
    requires Enabled(s, i, step) && n in s.tasks
    ensures var r := Apply(s, i, step);
      n in r.tasks && (s.tasks[n].processFreed ==> r.tasks[n].processFreed)
      && (s.tasks[n].threadFreed ==> r.tasks[n].threadFreed)
  {
    hide Schedule, SwitchProcess;
    match step
    case Enter => SwitchSame(s, i, None, n);
    case Load => SwitchSame(s, i, Some(s.cpus[i].pc.t), n);
    case Yield => ScheduleSame(s, i, User, n);
    case Leave => ScheduleSame(s, i, if Doing(s, i).Exited? then Gone else User, n);
    case NoneFound => ScheduleSame(s, i, Scanning, n);
    case Reap => ScheduleSame(s, i, Doing(s, i), n);
    case _ =>
  }

  /** The last step of process_free. */
  lemma FreeStep(s: State, w: Places, i: nat, t: Tid)
    requires Placed(s, w) && Enabled(s, i, FreeProcess) && s.cpus[i].pc == OnThread(t)
    ensures ReapedSince(s, Apply(s, i, FreeProcess), t, Doing(s, i).child)
  {
    assert TaskOk(s, w, t);
    assert TaskOk(s, w, Doing(s, i).child);
    hide Placed;
  }

  /** Where a step of its own CPU leaves a thread that is in wait. */
  lemma WaitStep(s: State, i: nat, step: Step, t: Tid)
    requires Enabled(s, i, step) && t in s.tasks && InWait(s.tasks[t].at) && s.cpus[i].pc == OnThread(t)
    ensures step == FreeProcess || (t in Apply(s, i, step).tasks && InWait(Apply(s, i, step).tasks[t].at))
  {
    hide Schedule, SwitchProcess;
    match step
    case NoneFound => ScheduleSame(s, i, Scanning, t);
    case Reap => ScheduleSame(s, i, Doing(s, i), t);
    case _ =>
  }

  /** A child once reaped stays so. */
  lemma ReapedStays(s0: State, s: State, i: nat, step: Step, t: Tid, n: Tid)
    requires ReapedSince(s0, s, t, n) && Enabled(s, i, step)
    ensures ReapedSince(s0, Apply(s, i, step), t, n)
  {
    FreedStep(s, i, step, n);
    ParentStep(s, i, step, n);
    assert step != Exit(Some(n));
    hide Apply;
  }

  /** A wait returns only when it has reaped a child: between any state in which t is in wait
      and a later one in which it is not, some child of t has been freed, thread and process. */
  lemma {:induction false} WaitReapsAChild(s: State, w: Places, run: Run, r: State, t: Tid) returns (n: Tid)
    requires Placed(s, w) && Leads(s, run, r) && t in s.tasks && InWait(s.tasks[t].at)
    requires t in r.tasks && !InWait(r.tasks[t].at)
    ensures ReapedSince(s, r, t, n)
    decreases |run|
  {
    hide Placed, Apply, ReapedSince;
    var (i, step) := run[0];
    var m := Apply(s, i, step);
    StepKeeps(s, w, i, step);
    if s.cpus[i].pc == OnThread(t) && step == FreeProcess {
      n := Doing(s, i).child;
      FreeStep(s, w, i, t);
      ReapedOn(s, m, run[1..], r, t, n);
    } else {
      if s.cpus[i].pc == OnThread(t) {
        WaitStep(s, i, step, t);
      } else {
        AtStays(s, i, step, t);
      }
      n := WaitReapsAChild(m, Moved(s, w, i, step), run[1..], r, t);
      ReapedEarlier(s, i, step, r, t, n);
    }
  }

  lemma {:induction false} ReapedOn(s0: State, s: State, run: Run, r: State, t: Tid, n: Tid)
    requires ReapedSince(s0, s, t, n) && Leads(s, run, r)
    ensures ReapedSince(s0, r, t, n)
    decreases |run|
  {
    hide Enabled, Apply, ReapedSince;
    if run != [] {
      ReapedStays(s0, s, run[0].0, run[0].1, t, n);
      ReapedOn(s0, Apply(s, run[0].0, run[0].1), run[1..], r, t, n);
    }
  }

  lemma ReapedEarlier(s: State, i: nat, step: Step, r: State, t: Tid, n: Tid)
    requires Enabled(s, i, step) && ReapedSince(Apply(s, i, step), r, t, n)
    ensures ReapedSince(s, r, t, n)
  {
    if n in s.tasks {
      FreedStep(s, i, step, n);
    }
    hide Apply;
  }

  // ---- What the loops of the scheduler and of wait come to ----

  /** s, with CPU i, task t and the queue replaced. */
  function On(s: State, i: nat, c: Cpu, t: Tid, k: Task, q: seq<Tid>): State
    requires i < |s.cpus|
  {
    s.(tasks := s.tasks[t := k], cpus := s.cpus[i := c], queue := q)
  }

  lemma OnIs(s: State, i: nat, c: Cpu, t: Tid, k: Task, q: seq<Tid>)
    requires i < |s.cpus| && t in s.tasks
    ensures var r := On(s, i, c, t, k, q);
      && (forall d :: SetCpu(r, i, d) == On(s, i, d, t, k, q))
      && (forall l :: SetTask(r, t, l) == On(s, i, c, t, l, q))
    ensures On(s, i, s.cpus[i], t, s.tasks[t], s.queue) == s
  {
    assert s.tasks[t := s.tasks[t]] == s.tasks && s.cpus[i := s.cpus[i]] == s.cpus;
  }

  predicate Goes(s: State, i: nat, step: Step, r: State) { Enabled(s, i, step) && Apply(s, i, step) == r }

  lemma FourSteps(i: nat, s: State, a: Step, s1: State, b: Step, s2: State, c: Step, s3: State, d: Step, r: State)
    requires Goes(s, i, a, s1) && Goes(s1, i, b, s2) && Goes(s2, i, c, s3) && Goes(s3, i, d, r)
    ensures Leads(s, [(i, a), (i, b), (i, c), (i, d)], r)
  {
    hide Enabled, Apply;
    assert Leads(r, [], r);
    LeadsFrom(s3, i, d, [], r);
    LeadsFrom(s2, i, c, [(i, d)], r);
    LeadsFrom(s1, i, b, [(i, c), (i, d)], r);
    LeadsFrom(s, i, a, [(i, b), (i, c), (i, d)], r);
    assert [(i, a)] + ([(i, b)] + ([(i, c)] + [(i, d)])) == [(i, a), (i, b), (i, c), (i, d)];
  }

  lemma ChecksAlive(s: State, i: nat, c: Cpu, t: Tid, k: Task, q: seq<Tid>)
    requires i < |s.cpus| && t in s.tasks && c.pc == Picked(t) && Alive(k)
    ensures Goes(On(s, i, c, t, k, q), i, Check,
                 On(s, i, Cpu(Chosen(t), c.current, Some(t)), t, k.(thread := Running), q))
  {
    OnIs(s, i, c, t, k, q);
    OnIs(s, i, c, t, k.(thread := Running), q);
    hide On;
  }

  lemma LoadsSpace(s: State, i: nat, t: Tid, k: Task, q: seq<Tid>)
    requires i < |s.cpus| && t in s.tasks
    ensures var c := Cpu(Chosen(t), None, Some(t));
      Goes(On(s, i, c, t, k, q), i, Load,
           On(s, i, Cpu(Loaded(t), Some(t), Some(t)), t, k.(process := Active), q))
  {
    var c := Cpu(Chosen(t), None, Some(t));
    OnIs(s, i, c, t, k, q);
    OnIs(s, i, c.(current := Some(t)), t, k, q);
    OnIs(s, i, c.(current := Some(t)), t, k.(process := Active), q);
  }

  lemma PicksHead(s: State, w: Places, i: nat)
    requires Placed(s, w) && Enabled(s, i, Pick)
    ensures s.queue[0] in s.tasks && s.tasks[s.queue[0]].process == Idle && s.cpus[i].current == None
    ensures var t := s.queue[0];
      Goes(s, i, Pick, On(s, i, s.cpus[i].(pc := Picked(t)), t, s.tasks[t], s.queue[1..]))
  {
    var t := s.queue[0];
    assert CpuOk(s, w, i) && TaskOk(s, w, t);
    assert s.tasks[t := s.tasks[t]] == s.tasks;
    hide Placed;
  }

  lemma Dispatches(s: State, i: nat, t: Tid, k: Task, q: seq<Tid>)
    requires i < |s.cpus| && t in s.tasks
    ensures Goes(On(s, i, Cpu(Loaded(t), Some(t), Some(t)), t, k, q), i, Dispatch,
                 On(s, i, Cpu(OnThread(t), Some(t), Some(t)), t, k, q))
  {
    OnIs(s, i, Cpu(Loaded(t), Some(t), Some(t)), t, k, q);
  }

  /** A CPU that asks for a thread when some are queued comes to run the first, in the address
      space of its process; no other thread or CPU is changed. */
  lemma TakesATurn(s: State, w: Places, i: nat)
    requires Placed(s, w) && Enabled(s, i, Pick)
    ensures s.queue[0] in s.tasks
    ensures var t := s.queue[0];
      Leads(s, [(i, Pick), (i, Check), (i, Load), (i, Dispatch)],
            On(s, i, Cpu(OnThread(t), Some(t), Some(t)), t, s.tasks[t].(thread := Running, process := Active),
               s.queue[1..]))
  {
    PicksHead(s, w, i);
    var t, q := s.queue[0], s.queue[1..];
    var c, k := s.cpus[i].(pc := Picked(t)), s.tasks[t];
    var l := k.(thread := Running);
    ChecksAlive(s, i, c, t, k, q);
    LoadsSpace(s, i, t, l, q);
    Dispatches(s, i, t, l.(process := Active), q);
    hide Placed, Goes, On, Apply;
    FourSteps(i, s, Pick, On(s, i, c, t, k, q), Check, On(s, i, Cpu(Chosen(t), None, Some(t)), t, l, q), Load,
              On(s, i, Cpu(Loaded(t), Some(t), Some(t)), t, l.(process := Active), q), Dispatch,
              On(s, i, Cpu(OnThread(t), Some(t), Some(t)), t, l.(process := Active), q));
  }

  // Giving the CPU up, and what becomes of the thread.

  lemma Yields(s: State, w: Places, i: nat, t: Tid)
    requires Placed(s, w) && Runs(s, i, User) && s.cpus[i].pc == OnThread(t)
    ensures t in s.tasks && s.tasks[t].process == Active && s.tasks[t].thread == Running
    ensures Goes(s, i, Yield, On(s, i, Cpu(Leaving(t), None, Some(t)), t, s.tasks[t].(process := Idle), s.queue))
  {
    assert CpuOk(s, w, i) && TaskOk(s, w, t);
    ScheduleIs(s, w, i, User);
    hide Placed, Schedule;
  }

  lemma GivesBack(s: State, i: nat, t: Tid, k: Task, q: seq<Tid>)
    requires i < |s.cpus| && t in s.tasks && k.thread == Running && k.process == Idle
    ensures Goes(On(s, i, Cpu(Leaving(t), None, Some(t)), t, k, q), i, Switch,
                 On(s, i, Cpu(Top, None, Some(t)), t, k, q))
    ensures Goes(On(s, i, Cpu(Top, None, Some(t)), t, k, q), i, HandBack,
                 On(s, i, Cpu(Requeue(t), None, Some(t)), t, k.(thread := Ready), q))
    ensures Goes(On(s, i, Cpu(Requeue(t), None, Some(t)), t, k.(thread := Ready), q), i, InsertOld,
                 On(s, i, Cpu(Picking, None, Some(t)), t, k.(thread := Ready), q + [t]))
  {
    OnIs(s, i, Cpu(Leaving(t), None, Some(t)), t, k, q);
    OnIs(s, i, Cpu(Top, None, Some(t)), t, k, q);
    OnIs(s, i, Cpu(Requeue(t), None, Some(t)), t, k.(thread := Ready), q);
  }

  /** A thread that gives its CPU up in user mode is queued last, ready to go on where it was,
      and the CPU asks for another. */
  lemma YieldQueuesAgain(s: State, w: Places, i: nat, t: Tid)
    requires Placed(s, w) && Runs(s, i, User) && s.cpus[i].pc == OnThread(t)
    ensures t in s.tasks
    ensures Leads(s, [(i, Yield), (i, Switch), (i, HandBack), (i, InsertOld)],
                  On(s, i, Cpu(Picking, None, Some(t)), t, s.tasks[t].(thread := Ready, process := Idle),
                     s.queue + [t]))
  {
    Yields(s, w, i, t);
    var k, q := s.tasks[t].(process := Idle), s.queue;
    GivesBack(s, i, t, k, q);
    hide Placed, Goes, On, Apply;
    FourSteps(i, s, Yield, On(s, i, Cpu(Leaving(t), None, Some(t)), t, k, q), Switch,
              On(s, i, Cpu(Top, None, Some(t)), t, k, q), HandBack,
              On(s, i, Cpu(Requeue(t), None, Some(t)), t, k.(thread := Ready), q), InsertOld,
              On(s, i, Cpu(Picking, None, Some(t)), t, k.(thread := Ready), q + [t]));
  }

  // A wait that has picked a dead child.

  /** Once wait has picked a child, its CPU can do nothing but go through with it. */
  lemma ReapingIsForced(s: State, i: nat, step: Step)
    requires Enabled(s, i, step) && RunsSome(s, i)
    requires Doing(s, i).Reaping? || Doing(s, i).Advancing? || Doing(s, i).Freeing? || Doing(s, i).Reaped?
    ensures step == SomeStep(s, i)
  {
  }

  ghost predicate CanReap(s: State, w: Places, i: nat, t: Tid, n: Tid) {
    && Placed(s, w) && RunsSome(s, i) && s.cpus[i].pc == OnThread(t) && s.tasks[t].at == Reaping(n)
    && n in s.tasks && s.tasks[n].thread == Finished
  }

  lemma ReaperFacts(s: State, w: Places, i: nat, t: Tid, n: Tid)
    requires CanReap(s, w, i, t, n)
    ensures n != t && s.cpus[i] == Cpu(OnThread(t), Some(t), Some(t)) && s.tasks[t].process == Active
    ensures s.tasks[t].thread == Running
  {
    assert CpuOk(s, w, i) && TaskOk(s, w, t) && TaskOk(s, w, n);
  }

  lemma Reaper(s: State, i: nat, t: Tid, n: Tid, a: Task, k: Task)
    requires i < |s.cpus| && t in s.tasks && n in s.tasks && n != t && a.at == Reaping(n) && k.thread == Finished
    requires s.cpus[i] == Cpu(OnThread(t), Some(t), Some(t)) && s.tasks[t] == a && s.tasks[n] == k
    ensures Goes(s, i, Reap,
                 On(SetTask(s, n, k.(threadFreed := true)), i, s.cpus[i], t, a.(at := Advancing(n)), s.queue))
  {
    assert s.cpus[i := s.cpus[i]] == s.cpus;
  }

  lemma Freer(s: State, i: nat, t: Tid, n: Tid, a: Task, k: Task)
    requires i < |s.cpus| && t in s.tasks && n in s.tasks && n != t
    requires s.cpus[i] == Cpu(OnThread(t), Some(t), Some(t)) && a.process == Active
    ensures var m, c := SetTask(s, n, k), s.cpus[i];
      && Goes(On(m, i, c, t, a.(at := Advancing(n)), s.queue), i, Advance,
              On(m, i, c, t, a.(at := Freeing(n)), s.queue))
      && Goes(On(m, i, c, t, a.(at := Freeing(n)), s.queue), i, FreeProcess,
              On(SetTask(s, n, k.(processFreed := true)), i, c, t, a.(at := Reaped), s.queue))
  {
    var m, c := SetTask(s, n, k), s.cpus[i];
    OnIs(m, i, c, t, a.(at := Advancing(n)), s.queue);
    OnIs(m, i, c, t, a.(at := Freeing(n)), s.queue);
    assert SetTask(On(m, i, c, t, a.(at := Freeing(n)), s.queue), n, k.(processFreed := true)).tasks
        == On(SetTask(s, n, k.(processFreed := true)), i, c, t, a.(at := Freeing(n)), s.queue).tasks;
  }

  lemma Returner(s: State, i: nat, t: Tid, a: Task)
    requires i < |s.cpus| && t in s.tasks && a.process == Active && a.at == Reaped
    ensures Goes(On(s, i, Cpu(OnThread(t), Some(t), Some(t)), t, a, s.queue), i, Leave,
                 On(s, i, Cpu(Leaving(t), None, Some(t)), t, a.(at := User, process := Idle), s.queue))
  {
    OnIs(s, i, Cpu(OnThread(t), Some(t), Some(t)), t, a, s.queue);
    OnIs(s, i, Cpu(OnThread(t), Some(t), Some(t)), t, a.(at := User), s.queue);
    OnIs(s, i, Cpu(OnThread(t), None, Some(t)), t, a.(at := User, process := Idle), s.queue);
  }

  /** A wait that has picked a child whose thread is finished frees the child, thread and
      process, and returns to user mode; no other task or CPU is changed. */
  lemma ReapReturns(s: State, w: Places, i: nat, t: Tid, n: Tid)
    requires CanReap(s, w, i, t, n)
    ensures Leads(s, [(i, Reap), (i, Advance), (i, FreeProcess), (i, Leave)],
                  On(SetTask(s, n, s.tasks[n].(threadFreed := true, processFreed := true)), i,
                     Cpu(Leaving(t), None, Some(t)), t, s.tasks[t].(at := User, process := Idle), s.queue))
  {
    ReaperFacts(s, w, i, t, n);
    var a, k, c := s.tasks[t], s.tasks[n], s.cpus[i];
    var m1, m2 := SetTask(s, n, k.(threadFreed := true)), SetTask(s, n, k.(threadFreed := true, processFreed := true));
    Reaper(s, i, t, n, a, k);
    Freer(s, i, t, n, a, k.(threadFreed := true));
    Returner(m2, i, t, a.(at := Reaped));
    hide Placed, Goes, On, Apply;
    FourSteps(i, s, Reap, On(m1, i, c, t, a.(at := Advancing(n)), s.queue), Advance,
              On(m1, i, c, t, a.(at := Freeing(n)), s.queue), FreeProcess,
              On(m2, i, c, t, a.(at := Reaped), s.queue), Leave,
              On(m2, i, Cpu(Leaving(t), None, Some(t)), t, a.(at := User, process := Idle), s.queue));
  }

  // A process that exits.

  lemma ExiterFacts(s: State, w: Places, i: nat, t: Tid)
    requires Placed(s, w) && Runs(s, i, User) && s.cpus[i].pc == OnThread(t)
    ensures t in s.tasks && s.init in s.tasks && s.cpus[i] == Cpu(OnThread(t), Some(t), Some(t))
    ensures s.tasks[t].process == Active && s.tasks[t].thread == Running
  {
    assert CpuOk(s, w, i) && TaskOk(s, w, t);
  }

  lemma Exiter(s: State, i: nat, t: Tid)
    requires Runs(s, i, User) && s.cpus[i].pc == OnThread(t) && s.init in s.tasks
    ensures Goes(s, i, Exit(None), On(s, i, s.cpus[i], t, s.tasks[t].(process := Zombie, at := Exited), s.queue))
  {
    assert s.cpus[i := s.cpus[i]] == s.cpus;
  }

  lemma Ends(s: State, i: nat, t: Tid, a: Task)
    requires i < |s.cpus| && t in s.tasks && a.process == Zombie && a.thread == Running && a.at == Exited
    ensures var g := a.(at := Gone);
      && Goes(On(s, i, Cpu(OnThread(t), Some(t), Some(t)), t, a, s.queue), i, Leave,
              On(s, i, Cpu(Leaving(t), None, Some(t)), t, g, s.queue))
      && Goes(On(s, i, Cpu(Leaving(t), None, Some(t)), t, g, s.queue), i, Switch,
              On(s, i, Cpu(Top, None, Some(t)), t, g, s.queue))
      && Goes(On(s, i, Cpu(Top, None, Some(t)), t, g, s.queue), i, HandBack,
              On(s, i, Cpu(Picking, None, Some(t)), t, g.(thread := Finished), s.queue))
  {
    var g := a.(at := Gone);
    OnIs(s, i, Cpu(OnThread(t), Some(t), Some(t)), t, a, s.queue);
    OnIs(s, i, Cpu(OnThread(t), Some(t), Some(t)), t, g, s.queue);
    OnIs(s, i, Cpu(OnThread(t), None, Some(t)), t, g, s.queue);
    OnIs(s, i, Cpu(Leaving(t), None, Some(t)), t, g, s.queue);
    OnIs(s, i, Cpu(Top, None, Some(t)), t, g, s.queue);
    OnIs(s, i, Cpu(Top, None, Some(t)), t, g.(thread := Finished), s.queue);
  }

  /** A process that exits and hands nobody on is dead, its thread finished, and its CPU asks
      for another thread. */
  lemma ExitEnds(s: State, w: Places, i: nat, t: Tid)
    requires Placed(s, w) && Runs(s, i, User) && s.cpus[i].pc == OnThread(t)
    ensures t in s.tasks
    ensures Leads(s, [(i, Exit(None)), (i, Leave), (i, Switch), (i, HandBack)],
                  On(s, i, Cpu(Picking, None, Some(t)), t,
                     s.tasks[t].(process := Zombie, at := Gone, thread := Finished), s.queue))
  {
    ExiterFacts(s, w, i, t);
    Exiter(s, i, t);
    var a := s.tasks[t].(process := Zombie, at := Exited);
    Ends(s, i, t, a);
    hide Placed, Goes, On, Apply;
    var g := a.(at := Gone);
    FourSteps(i, s, Exit(None), On(s, i, s.cpus[i], t, a, s.queue), Leave,
              On(s, i, Cpu(Leaving(t), None, Some(t)), t, g, s.queue), Switch,
              On(s, i, Cpu(Top, None, Some(t)), t, g, s.queue), HandBack,
              On(s, i, Cpu(Picking, None, Some(t)), t, g.(thread := Finished), s.queue));
  }
}
