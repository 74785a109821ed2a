/** The scheduler of kernel/proc/scheduler.c on any number of CPUs, with the fork, exit and
    wait of kernel/syscall/sys_proc.c, as a transition system. A process has one thread, and a
    task is the two together. Kernel code is not preempted, so a step ends where another CPU
    can tell the difference, except that an operation on a list of children is one step, as it
    would be under a lock for that list. The kernel has no such lock for the list of init;
    FamilyLists and FamilyOverlaps say what can happen then. The read of a freed thread that
    advances the loop of process_free is a step of its own; it is taken to give the null link
    that was there before. */
module Scheduling {
  import opened Common

  type Tid = nat

  datatype ProcessState = Idle | Active | Zombie // READY, RUNNING and ZOMBIE of process.h

  /** Where a thread's own code stands, or will continue when it is next switched to. */
  datatype Point =
    | User               // in user mode, or in a system call that only waits
    | Forking(child: Tid) // child made and attached, not yet given to the scheduler
    | Exited             // process_exit is done, schedule is about to be called
    | Gone               // inside that call of schedule
    | Scanning            // at the top of the loop of wait
    | Reaping(child: Tid) // in process_free, at the test of the child's thread state
    | Advancing(child: Tid) // free_thread is done, the loop reads the next thread from the freed one
    | Freeing(child: Tid) // that loop is done, the rest of process_free is not
    | Reaped             // process_free is done, the loop of wait is about to call schedule

  datatype Task = Task(thread: ThreadState, process: ProcessState, at: Point, parent: Option<Tid>,
                       threadFreed: bool, processFreed: bool)

  /** Where a CPU stands. */
  datatype Pc =
    | Boot               // has not called schedule yet
    | OnThread(t: Tid)   // runs t
    | Leaving(t: Tid)    // switch_process(0) is done, still on the stack of t
    | Top                // at the top of the loop of scheduler
    | Requeue(t: Tid)    // has made its last thread ready, not queued it yet
    | Picking            // asks for the next thread
    | Picked(t: Tid)     // took t from the ready queue
    | Chosen(t: Tid)     // made t running and its last thread
    | Loaded(t: Tid)     // switched to the address space of t

  datatype Cpu = Cpu(pc: Pc, current: Option<Tid>, last: Option<Tid>)

  datatype State = State(tasks: map<Tid, Task>, queue: seq<Tid>, cpus: seq<Cpu>, init: Tid)

  datatype Step =
    | Enter | Yield | Fork(child: Tid) | Insert | Exit(adopted: Option<Tid>) | Leave
    | Wait | Find(child: Tid) | NoneFound | Reap | Advance | FreeProcess
    | Switch | HandBack | InsertOld | Pick | Check | Load | Dispatch

  predicate Alive(k: Task) { k.process == Idle || k.process == Active }

  // ---- The transitions ----

  function SetTask(s: State, t: Tid, k: Task): State { s.(tasks := s.tasks[t := k]) }

  function SetCpu(s: State, i: nat, c: Cpu): State
    requires i < |s.cpus|
  {
    s.(cpus := s.cpus[i := c])
  }

  /** What CPU i runs, and what that thread is doing. */
  predicate Runs(s: State, i: nat, p: Point) {
    i < |s.cpus| && s.cpus[i].pc.OnThread? && s.cpus[i].pc.t in s.tasks && s.tasks[s.cpus[i].pc.t].at == p
  }

  predicate RunsSome(s: State, i: nat) {
    i < |s.cpus| && s.cpus[i].pc.OnThread? && s.cpus[i].pc.t in s.tasks
  }

  function Doing(s: State, i: nat): Point
    requires RunsSome(s, i)
  {
    s.tasks[s.cpus[i].pc.t].at
  }

  predicate Enabled(s: State, i: nat, step: Step) {
    && i < |s.cpus|
    && var c := s.cpus[i];
    match step
      case Enter => c.pc.Boot?
      case Switch => c.pc.Leaving?
      case HandBack => c.pc.Top? && (c.last.Some? ==> c.last.value in s.tasks)
      case InsertOld => c.pc.Requeue? && c.pc.t in s.tasks
      case Pick => c.pc.Picking? && s.queue != []
      case Check => c.pc.Picked? && c.pc.t in s.tasks
      case Load => c.pc.Chosen? && c.pc.t in s.tasks
      case Dispatch => c.pc.Loaded?
      case Yield => Runs(s, i, User)
      case Fork(n) => Runs(s, i, User) && n !in s.tasks
      case Insert => RunsSome(s, i) && Doing(s, i).Forking? && Doing(s, i).child in s.tasks
      case Exit(a) => Runs(s, i, User) && s.init in s.tasks && ExitAdopts(s, c.pc.t, a)
      case Leave => Runs(s, i, Exited) || Runs(s, i, Reaped)
      case Wait => Runs(s, i, User)
      case Find(n) => Runs(s, i, Scanning) && n in s.tasks && IsChild(s, n, c.pc.t) && s.tasks[n].process == Zombie
      case NoneFound => Runs(s, i, Scanning)
      case Reap => RunsSome(s, i) && Doing(s, i).Reaping? && Doing(s, i).child in s.tasks
      case Advance => RunsSome(s, i) && Doing(s, i).Advancing? && Doing(s, i).child in s.tasks
      case FreeProcess => RunsSome(s, i) && Doing(s, i).Freeing? && Doing(s, i).child in s.tasks
  }

  /** n is on the list of children of t. */
  predicate IsChild(s: State, n: Tid, t: Tid) {
    n in s.tasks && s.tasks[n].parent == Some(t) && !s.tasks[n].processFreed
  }

  /** process_exit hands at most one child to init. */
  predicate ExitAdopts(s: State, t: Tid, a: Option<Tid>) {
    a.Some? ==> IsChild(s, a.value, t)
  }

  function SwitchProcess(s: State, i: nat, to: Option<Tid>): (r: State)
    requires i < |s.cpus|
    ensures |r.cpus| == |s.cpus|
  {
    var was := s.cpus[i].current;
    if was.Some? && was == to then s else
      var s1 := if was.Some? && was.value in s.tasks && s.tasks[was.value].process == Active
        then SetTask(s, was.value, s.tasks[was.value].(process := Idle)) else s;
      var s2 := SetCpu(s1, i, s1.cpus[i].(current := to));
      if to.Some? && to.value in s2.tasks
      then SetTask(s2, to.value, s2.tasks[to.value].(process := Active)) else s2
  }

  function SetPc(s: State, i: nat, pc: Pc): State
    requires i < |s.cpus|
  {
    SetCpu(s, i, s.cpus[i].(pc := pc))
  }

  /** schedule, up to the switch to the scheduler's stack; the thread will resume at at. */
  function Schedule(s: State, i: nat, at: Point): State
    requires RunsSome(s, i)
  {
    SetPc(SwitchProcess(SetAt(s, i, at), i, None), i, Leaving(s.cpus[i].pc.t))
  }

  function SetAt(s: State, i: nat, at: Point): State
    requires RunsSome(s, i)
  {
    SetTask(s, s.cpus[i].pc.t, s.tasks[s.cpus[i].pc.t].(at := at))
  }

  /** The top of the loop: the last thread is made ready or declared finished. */
  function HandedBack(s: State, i: nat): State
    requires Enabled(s, i, HandBack)
  {
    var c := s.cpus[i];
    if c.last == None then SetCpu(s, i, c.(pc := Picking))
    else
      var k := s.tasks[c.last.value];
      if k.thread != Finished && Alive(k) then
        SetCpu(SetTask(s, c.last.value, k.(thread := Ready)), i, c.(pc := Requeue(c.last.value)))
      else
        SetCpu(SetTask(s, c.last.value, k.(thread := Finished)), i, c.(pc := Picking))
  }

  function Checked(s: State, i: nat): State
    requires Enabled(s, i, Check)
  {
    var c := s.cpus[i];
    var k := s.tasks[c.pc.t];
    if !Alive(k) then
      SetCpu(SetTask(s, c.pc.t, k.(thread := Finished)), i, c.(pc := Top))
    else
      SetCpu(SetTask(s, c.pc.t, k.(thread := Running)), i, c.(pc := Chosen(c.pc.t), last := Some(c.pc.t)))
  }

  function Exits(s: State, i: nat, a: Option<Tid>): State
    requires Enabled(s, i, Exit(a))
  {
    var s1 := if a == None then s else SetTask(s, a.value, s.tasks[a.value].(parent := Some(s.init)));
    var t := s.cpus[i].pc.t;
    SetTask(s1, t, s1.tasks[t].(process := Zombie, at := Exited))
  }

  function Reaps(s: State, i: nat): State
    requires Enabled(s, i, Reap)
  {
    var n := Doing(s, i).child;
    var k := s.tasks[n];
    if k.thread == Running || k.thread == Ready then Schedule(s, i, Reaping(n))
    else
      var s1 := SetTask(s, n, k.(threadFreed := true));
      SetTask(s1, s.cpus[i].pc.t, s1.tasks[s.cpus[i].pc.t].(at := Advancing(n)))
  }

  function Apply(s: State, i: nat, step: Step): State
    requires Enabled(s, i, step)
  {
    var c := s.cpus[i];
    match step
      case Enter => SetPc(SwitchProcess(s, i, None), i, Top)
      case Switch => SetCpu(s, i, c.(pc := Top))
      case HandBack => HandedBack(s, i)
      case InsertOld =>
        var s1 := SetTask(s, c.pc.t, s.tasks[c.pc.t].(thread := Ready));
        SetCpu(s1.(queue := s.queue + [c.pc.t]), i, c.(pc := Picking))
      case Pick => SetCpu(s.(queue := s.queue[1..]), i, c.(pc := Picked(s.queue[0])))
      case Check => Checked(s, i)
      case Load => SetPc(SwitchProcess(s, i, Some(c.pc.t)), i, Loaded(c.pc.t))
      case Dispatch => SetCpu(s, i, c.(pc := OnThread(c.pc.t)))
      case Yield => Schedule(s, i, User)
      case Fork(n) =>
        SetAt(s.(tasks := s.tasks[n := Task(Ready, Idle, User, Some(c.pc.t), false, false)]), i, Forking(n))
      case Insert =>
        var n := Doing(s, i).child;
        SetAt(SetTask(s, n, s.tasks[n].(thread := Ready)).(queue := s.queue + [n]), i, User)
      case Exit(a) => Exits(s, i, a)
      case Leave => Schedule(s, i, if Doing(s, i).Exited? then Gone else User)
      case Wait => SetAt(s, i, Scanning)
      case Find(n) => SetAt(s, i, Reaping(n))
      case NoneFound => Schedule(s, i, Scanning)
      case Reap => Reaps(s, i)
      case Advance => SetAt(s, i, Freeing(Doing(s, i).child))
      case FreeProcess =>
        var n := Doing(s, i).child;
        SetAt(SetTask(s, n, s.tasks[n].(processFreed := true)), i, Reaped)
  }

  // ---- The invariant ----

  /** The one place a task has: with the thread that makes it, in the ready queue, with one
      CPU, or none any more. */
  datatype Place = Unborn(maker: Tid) | Queued | With(cpu: nat) | Done

  /** The thread a CPU has in hand. */
  function Holds(c: Cpu): Option<Tid> {
    match c.pc
    case OnThread(t) => Some(t)
    case Leaving(t) => Some(t)
    case Requeue(t) => Some(t)
    case Picked(t) => Some(t)
    case Chosen(t) => Some(t)
    case Loaded(t) => Some(t)
    case Top => c.last
    case Boot => None
    case Picking => None
  }

  /** What the scheduler knows of a thread it has in hand. */
  predicate HeldOk(c: Cpu, k: Task) {
    match c.pc
    case OnThread(t) => k.thread == Running && k.process != Idle && c.last == Some(t) && k.at != Gone
    case Leaving(t) => k.thread == Running && k.process != Active && c.last == Some(t) && k.at != Exited
    case Top => k.thread == Running && k.process != Active && k.at != Exited
    case Requeue(t) => k.thread == Ready && k.process == Idle
    case Picked(t) => k.thread == Ready && k.process == Idle
    case Chosen(t) => k.thread == Running && k.process == Idle && c.last == Some(t)
    case Loaded(t) => k.thread == Running && k.process == Active && c.last == Some(t)
    case Boot => true
    case Picking => true
  }

  type Places = map<Tid, Place>

  ghost predicate CpuOk(s: State, w: Places, i: nat)
    requires i < |s.cpus|
  {
    var c := s.cpus[i];
    && (Holds(c).Some? ==> Holds(c).value in w && w[Holds(c).value] == With(i))
    && c.current == (match c.pc case OnThread(t) => Some(t) case Loaded(t) => Some(t) case _ => None)
    && (c.pc.Boot? ==> c.last == None)
  }

  ghost predicate PlaceOk(s: State, w: Places, t: Tid)
    requires t in s.tasks && t in w
  {
    var k := s.tasks[t];
    && (t in s.queue <==> w[t] == Queued)
    && match w[t]
       case Unborn(p) => k.thread == Ready && k.process == Idle && p in s.tasks && s.tasks[p].at == Forking(t)
       case Queued => k.thread == Ready && k.process == Idle
       case With(i) => i < |s.cpus| && Holds(s.cpus[i]) == Some(t) && HeldOk(s.cpus[i], k)
       case Done => k.thread == Finished && k.process == Zombie && k.at == Gone
  }

  ghost predicate FamilyOk(s: State, w: Places, t: Tid)
    requires t in s.tasks && t in w
  {
    var k := s.tasks[t];
    && (k.process == Zombie <==> k.at == Exited || k.at == Gone)
    && (k.parent.Some? ==> k.parent.value in s.tasks && k.parent.value != t)
    && (k.processFreed ==> k.threadFreed)
    && (k.threadFreed ==> w[t] == Done && k.parent.Some?)
    && (k.threadFreed && !k.processFreed ==> FreesNow(s.tasks[k.parent.value].at, t))
    && (k.at.Forking? ==> k.at.child in w && w[k.at.child] == Unborn(t))
    && (k.at.Reaping? ==> BeingReaped(s, t, k.at.child, false))
    && (k.at.Advancing? || k.at.Freeing? ==> BeingReaped(s, t, k.at.child, true))
  }

  /** Between the two calls of kfree for the child t. */
  predicate FreesNow(at: Point, t: Tid) { at == Advancing(t) || at == Freeing(t) }

  ghost predicate BeingReaped(s: State, t: Tid, n: Tid, freed: bool) {
    n in s.tasks && s.tasks[n].parent == Some(t) && s.tasks[n].process == Zombie
    && s.tasks[n].threadFreed == freed && !s.tasks[n].processFreed
  }

  ghost predicate TaskOk(s: State, w: Places, t: Tid)
    requires t in s.tasks && t in w
  {
    PlaceOk(s, w, t) && FamilyOk(s, w, t)
  }

  ghost predicate Placed(s: State, w: Places) {
    && w.Keys == s.tasks.Keys && NoDup(s.queue)
    && (forall t :: t in s.queue ==> t in s.tasks)
    && s.init in s.tasks && s.tasks[s.init].parent == None
    && (forall i: nat {:trigger CpuOk(s, w, i)} :: i < |s.cpus| ==> CpuOk(s, w, i))
    && (forall t {:trigger TaskOk(s, w, t)} :: t in s.tasks ==> TaskOk(s, w, t))
  }

  /** The system before its first step: one task, queued, and every CPU still booting. */
  predicate Initial(s: State) {
    && s.tasks == map[s.init := Task(Ready, Idle, User, None, false, false)] && s.queue == [s.init]
    && forall c :: c in s.cpus ==> c == Cpu(Boot, None, None)
  }

  lemma InitialPlaced(s: State)
    requires Initial(s)
    ensures Placed(s, map[s.init := Queued])
  {
    forall i: nat | i < |s.cpus|
      ensures CpuOk(s, map[s.init := Queued], i)
    {
      assert s.cpus[i] in s.cpus;
    }
  }

  // ---- Where each step moves a task ----

  function Moved(s: State, w: Places, i: nat, step: Step): Places
    requires Enabled(s, i, step)
  {
    var c := s.cpus[i];
    match step
      case HandBack =>
        if c.last.Some? && !(s.tasks[c.last.value].thread != Finished && Alive(s.tasks[c.last.value]))
        then w[c.last.value := Done] else w
      case InsertOld => w[c.pc.t := Queued]
      case Pick => w[s.queue[0] := With(i)]
      case Fork(n) => w[n := Unborn(c.pc.t)]
      case Insert => w[Doing(s, i).child := Queued]
      case _ => w
  }

  predicate Simple(p: Point) { !p.Forking? && !p.Reaping? && !p.Advancing? && !p.Freeing? }

  /** CPU i and what it holds change, and it goes on holding it. */
  function Own(s: State, i: nat, c: Cpu, t: Tid, k: Task): State
    requires i < |s.cpus|
  {
    SetCpu(SetTask(s, t, k), i, c)
  }

  ghost predicate MayBecome(s: State, i: nat, c: Cpu, t: Tid, k: Task) {
    && i < |s.cpus| && t in s.tasks && Holds(s.cpus[i]) == Some(t) == Holds(c) && HeldOk(c, k)
    && c.current == (match c.pc case OnThread(u) => Some(u) case Loaded(u) => Some(u) case _ => None)
    && k == s.tasks[t].(thread := k.thread, process := k.process, at := k.at)
    && (k.process == Zombie <==> k.at == Exited || k.at == Gone)
    && (s.tasks[t].process == Zombie ==> k.process == Zombie)
    && (k.at == s.tasks[t].at || Simple(s.tasks[t].at))
    && (k.at != s.tasks[t].at ==> Simple(k.at) || (k.at.Reaping? && BeingReaped(s, t, k.at.child, false)))
  }

  lemma OwnPlace(s: State, w: Places, i: nat, c: Cpu, t: Tid, k: Task, u: Tid)
    requires Placed(s, w) && MayBecome(s, i, c, t, k) && u in s.tasks
    ensures PlaceOk(Own(s, i, c, t, k), w, u)
  {
    assert CpuOk(s, w, i) && TaskOk(s, w, t) && TaskOk(s, w, u);
  }

  lemma OwnFamily(s: State, w: Places, i: nat, c: Cpu, t: Tid, k: Task, u: Tid)
    requires Placed(s, w) && MayBecome(s, i, c, t, k) && u in s.tasks
    ensures FamilyOk(Own(s, i, c, t, k), w, u)
  {
    assert CpuOk(s, w, i) && TaskOk(s, w, t) && TaskOk(s, w, u);
  }

  lemma OwnKeeps(s: State, w: Places, i: nat, c: Cpu, t: Tid, k: Task)
    requires Placed(s, w) && MayBecome(s, i, c, t, k)
    ensures Placed(Own(s, i, c, t, k), w)
  {
    hide PlaceOk, FamilyOk;
    var r := Own(s, i, c, t, k);
    assert CpuOk(s, w, i);
    forall j: nat | j < |r.cpus|
      ensures CpuOk(r, w, j)
    {
      assert CpuOk(s, w, j);
    }
    forall u | u in r.tasks
      ensures TaskOk(r, w, u)
    {
      OwnPlace(s, w, i, c, t, k, u);
      OwnFamily(s, w, i, c, t, k, u);
    }
  }

  /** CPU i holds no task, before or after. */
  lemma EmptyHandsKeep(s: State, w: Places, i: nat, c: Cpu)
    requires Placed(s, w) && i < |s.cpus| && Holds(s.cpus[i]) == None == Holds(c)
    requires c.current == None && (c.pc.Boot? ==> c.last == None)
    requires !c.pc.OnThread? && !c.pc.Loaded?
    ensures Placed(SetCpu(s, i, c), w)
  {
    var r := SetCpu(s, i, c);
    forall j: nat | j < |r.cpus|
      ensures CpuOk(r, w, j)
    {
      assert CpuOk(s, w, j);
    }
    forall u | u in r.tasks
      ensures TaskOk(r, w, u)
    {
      assert TaskOk(s, w, u);
    }
  }

  /** CPU i puts down what it holds: into the queue, or for good. */
  function PutDown(s: State, i: nat, t: Tid, k: Task, queued: bool): State
    requires i < |s.cpus|
  {
    var q := if queued then s.queue + [t] else s.queue;
    SetPc(SetTask(s, t, k).(queue := q), i, Picking)
  }

  ghost predicate MayPutDown(s: State, i: nat, t: Tid, k: Task, queued: bool) {
    && i < |s.cpus| && Holds(s.cpus[i]) == Some(t) && s.cpus[i].current == None && t in s.tasks
    && k == s.tasks[t].(thread := k.thread)
    && if queued then k.thread == Ready && k.process == Idle else k.thread == Finished && k.at == Gone
  }

  lemma PutDownTask(s: State, w: Places, i: nat, t: Tid, k: Task, queued: bool, u: Tid)
    requires Placed(s, w) && MayPutDown(s, i, t, k, queued) && u in s.tasks
    ensures TaskOk(PutDown(s, i, t, k, queued), w[t := if queued then Queued else Done], u)
  {
    assert CpuOk(s, w, i) && TaskOk(s, w, t) && TaskOk(s, w, u);
  }

  lemma PutDownKeeps(s: State, w: Places, i: nat, t: Tid, k: Task, queued: bool)
    requires Placed(s, w) && MayPutDown(s, i, t, k, queued)
    ensures Placed(PutDown(s, i, t, k, queued), w[t := if queued then Queued else Done])
  {
    hide FamilyOk, TaskOk;
    var r, v := PutDown(s, i, t, k, queued), w[t := if queued then Queued else Done];
    HeldIsNotQueued(s, w, i, t);
    forall j: nat | j < |r.cpus|
      ensures CpuOk(r, v, j)
    {
      assert CpuOk(s, w, i) && CpuOk(s, w, j);
    }
    forall u | u in r.tasks
      ensures TaskOk(r, v, u)
    {
      PutDownTask(s, w, i, t, k, queued, u);
    }
  }

  lemma HeldIsNotQueued(s: State, w: Places, i: nat, t: Tid)
    requires Placed(s, w) && i < |s.cpus| && Holds(s.cpus[i]) == Some(t)
    ensures t in s.tasks && t !in s.queue
  {
    assert CpuOk(s, w, i) && TaskOk(s, w, t);
  }

  lemma PickKeeps(s: State, w: Places, i: nat)
    requires Placed(s, w) && Enabled(s, i, Pick)
    ensures Placed(Apply(s, i, Pick), Moved(s, w, i, Pick))
  {
    var r, v := Apply(s, i, Pick), Moved(s, w, i, Pick);
    assert CpuOk(s, w, i) && TaskOk(s, w, s.queue[0]);
    forall j: nat | j < |r.cpus|
      ensures CpuOk(r, v, j)
    {
      assert CpuOk(s, w, j);
    }
    forall u | u in r.tasks
      ensures TaskOk(r, v, u)
    {
      assert TaskOk(s, w, u);
      assert u in s.queue <==> u == s.queue[0] || u in r.queue;
    }
  }

  lemma ForkKeeps(s: State, w: Places, i: nat, n: Tid)
    requires Placed(s, w) && Enabled(s, i, Fork(n))
    ensures Placed(Apply(s, i, Fork(n)), Moved(s, w, i, Fork(n)))
  {
    var r, v := Apply(s, i, Fork(n)), Moved(s, w, i, Fork(n));
    assert CpuOk(s, w, i) && TaskOk(s, w, s.cpus[i].pc.t);
    forall j: nat | j < |r.cpus|
      ensures CpuOk(r, v, j)
    {
      assert CpuOk(s, w, j);
    }
    forall u | u in r.tasks
      ensures TaskOk(r, v, u)
    {
      if u in s.tasks {
        assert TaskOk(s, w, u);
      }
    }
  }

  lemma InsertKeeps(s: State, w: Places, i: nat)
    requires Placed(s, w) && Enabled(s, i, Insert)
    ensures Placed(Apply(s, i, Insert), Moved(s, w, i, Insert))
  {
    var r, v := Apply(s, i, Insert), Moved(s, w, i, Insert);
    var t, n := s.cpus[i].pc.t, Doing(s, i).child;
    assert CpuOk(s, w, i) && TaskOk(s, w, t) && TaskOk(s, w, n);
    forall j: nat | j < |r.cpus|
      ensures CpuOk(r, v, j)
    {
      assert CpuOk(s, w, j);
    }
    forall u | u in r.tasks
      ensures TaskOk(r, v, u)
    {
      assert TaskOk(s, w, u);
    }
  }

  /** A child changes parents while neither parent is reaping it. */
  lemma AdoptKeeps(s: State, w: Places, t: Tid, n: Tid)
    requires Placed(s, w) && t in s.tasks && s.tasks[t].at == User && IsChild(s, n, t)
    ensures Placed(SetTask(s, n, s.tasks[n].(parent := Some(s.init))), w)
  {
    var r := SetTask(s, n, s.tasks[n].(parent := Some(s.init)));
    assert TaskOk(s, w, n);
    forall j: nat | j < |r.cpus|
      ensures CpuOk(r, w, j)
    {
      assert CpuOk(s, w, j);
    }
    forall u | u in r.tasks
      ensures TaskOk(r, w, u)
    {
      assert TaskOk(s, w, u);
    }
  }

  /** The steps of process_free, once the child's thread is finished. */
  function Freed(s: State, t: Tid, n: Tid, k: Task, at: Point): State
    requires t in s.tasks
  {
    var s1 := SetTask(s, n, k);
    SetTask(s1, t, s1.tasks[t].(at := at))
  }

  ghost predicate MayFree(s: State, i: nat, t: Tid, n: Tid, k: Task, at: Point) {
    && i < |s.cpus| && s.cpus[i].pc == OnThread(t) && t in s.tasks && n in s.tasks
    && (|| (s.tasks[t].at == Reaping(n) && s.tasks[n].thread == Finished
            && k == s.tasks[n].(threadFreed := true) && at == Advancing(n))
        || (s.tasks[t].at == Advancing(n) && k == s.tasks[n] && at == Freeing(n))
        || (s.tasks[t].at == Freeing(n) && k == s.tasks[n].(processFreed := true) && at == Reaped))
  }

  lemma FreedPlace(s: State, w: Places, i: nat, t: Tid, n: Tid, k: Task, at: Point, u: Tid)
    requires Placed(s, w) && MayFree(s, i, t, n, k, at) && u in s.tasks
    ensures PlaceOk(Freed(s, t, n, k, at), w, u)
  {
    assert CpuOk(s, w, i) && TaskOk(s, w, t) && TaskOk(s, w, n) && TaskOk(s, w, u);
  }

  lemma FreedFamilyOfTwo(s: State, w: Places, i: nat, t: Tid, n: Tid, k: Task, at: Point, u: Tid)
    requires Placed(s, w) && MayFree(s, i, t, n, k, at) && (u == t || u == n)
    ensures FamilyOk(Freed(s, t, n, k, at), w, u)
  {
    assert CpuOk(s, w, i) && TaskOk(s, w, t) && TaskOk(s, w, n);
  }

  lemma FreedFamilyOfOther(s: State, w: Places, i: nat, t: Tid, n: Tid, k: Task, at: Point, u: Tid)
    requires Placed(s, w) && MayFree(s, i, t, n, k, at) && u in s.tasks && u != t && u != n
    ensures FamilyOk(Freed(s, t, n, k, at), w, u)
  {
    assert TaskOk(s, w, t) && TaskOk(s, w, n) && TaskOk(s, w, u);
  }

  lemma FreedFamily(s: State, w: Places, i: nat, t: Tid, n: Tid, k: Task, at: Point, u: Tid)
    requires Placed(s, w) && MayFree(s, i, t, n, k, at) && u in s.tasks
    ensures FamilyOk(Freed(s, t, n, k, at), w, u)
  {
    hide FamilyOk, Placed, MayFree, Freed;
    if u == t || u == n {
      FreedFamilyOfTwo(s, w, i, t, n, k, at, u);
    } else {
      FreedFamilyOfOther(s, w, i, t, n, k, at, u);
    }
  }

  lemma FreedKeeps(s: State, w: Places, i: nat, t: Tid, n: Tid, k: Task, at: Point)
    requires Placed(s, w) && MayFree(s, i, t, n, k, at)
    ensures Placed(Freed(s, t, n, k, at), w)
  {
    hide PlaceOk, FamilyOk;
    var r := Freed(s, t, n, k, at);
    ReapedIsNotInit(s, w, t, n);
    forall j: nat | j < |r.cpus|
      ensures CpuOk(r, w, j)
    {
      assert CpuOk(s, w, j);
    }
    forall u | u in r.tasks
      ensures TaskOk(r, w, u)
    {
      FreedPlace(s, w, i, t, n, k, at, u);
      FreedFamily(s, w, i, t, n, k, at, u);
    }
  }

  lemma ReapedIsNotInit(s: State, w: Places, t: Tid, n: Tid)
    requires Placed(s, w) && t in s.tasks && (s.tasks[t].at == Reaping(n) || FreesNow(s.tasks[t].at, n))
    ensures n != s.init && n != t
  {
    assert TaskOk(s, w, t);
  }

  lemma NobodyWaits(s: State, w: Places, t: Tid)
    requires Placed(s, w) && t in s.tasks
    ensures s.tasks[t].thread != Waiting
  {
    assert TaskOk(s, w, t);
  }

  function Unloaded(k: Task, at: Point): Task {
    k.(at := at, process := if k.process == Active then Idle else k.process)
  }

  /** What schedule does to a running thread and its CPU. */
  lemma ScheduleIs(s: State, w: Places, i: nat, at: Point)
    requires Placed(s, w) && RunsSome(s, i)
    ensures Schedule(s, i, at) == Own(s, i, Cpu(Leaving(s.cpus[i].pc.t), None, s.cpus[i].last), s.cpus[i].pc.t,
                                      Unloaded(s.tasks[s.cpus[i].pc.t], at))
  {
    assert CpuOk(s, w, i);
  }

  lemma ScheduleKeeps(s: State, w: Places, i: nat, at: Point)
    requires Placed(s, w) && RunsSome(s, i) && Doing(s, i) != Exited && at != Exited && at != Gone
    requires at == Doing(s, i) || (Simple(at) && Simple(Doing(s, i)))
    ensures Placed(Schedule(s, i, at), w)
  {
    ScheduleIs(s, w, i, at);
    var t := s.cpus[i].pc.t;
    assert CpuOk(s, w, i) && TaskOk(s, w, t);
    OwnKeeps(s, w, i, Cpu(Leaving(t), None, s.cpus[i].last), t, Unloaded(s.tasks[t], at));
  }

  lemma LastScheduleKeeps(s: State, w: Places, i: nat)
    requires Placed(s, w) && Runs(s, i, Exited)
    ensures Placed(Schedule(s, i, Gone), w)
  {
    ScheduleIs(s, w, i, Gone);
    var t := s.cpus[i].pc.t;
    assert CpuOk(s, w, i) && TaskOk(s, w, t);
    OwnKeeps(s, w, i, Cpu(Leaving(t), None, s.cpus[i].last), t, s.tasks[t].(at := Gone));
  }

  lemma SetAtKeeps(s: State, w: Places, i: nat, at: Point)
    requires Placed(s, w) && RunsSome(s, i) && Simple(Doing(s, i)) && Doing(s, i) != Exited
    requires at != Exited && at != Gone
    requires Simple(at) || (at.Reaping? && BeingReaped(s, s.cpus[i].pc.t, at.child, false))
    ensures Placed(SetAt(s, i, at), w)
  {
    var t, c := s.cpus[i].pc.t, s.cpus[i];
    assert CpuOk(s, w, i) && TaskOk(s, w, t);
    OwnKeeps(s, w, i, c, t, s.tasks[t].(at := at));
    assert SetAt(s, i, at) == Own(s, i, c, t, s.tasks[t].(at := at));
  }

  lemma ExitKeeps(s: State, w: Places, i: nat, a: Option<Tid>)
    requires Placed(s, w) && Enabled(s, i, Exit(a))
    ensures Placed(Exits(s, i, a), w)
  {
    var t, c := s.cpus[i].pc.t, s.cpus[i];
    var s1 := if a == None then s else SetTask(s, a.value, s.tasks[a.value].(parent := Some(s.init)));
    if a.Some? {
      AdoptKeeps(s, w, t, a.value);
    }
    assert CpuOk(s1, w, i) && TaskOk(s1, w, t);
    var k := s1.tasks[t].(process := Zombie, at := Exited);
    OwnKeeps(s1, w, i, c, t, k);
    assert Exits(s, i, a) == Own(s1, i, c, t, k);
  }

  lemma HandBackKeeps(s: State, w: Places, i: nat)
    requires Placed(s, w) && Enabled(s, i, HandBack)
    ensures Placed(HandedBack(s, i), Moved(s, w, i, HandBack))
  {
    var c := s.cpus[i];
    assert CpuOk(s, w, i);
    if c.last == None {
      EmptyHandsKeep(s, w, i, c.(pc := Picking));
    } else {
      var t := c.last.value;
      var k := s.tasks[t];
      assert TaskOk(s, w, t);
      if Alive(k) {
        OwnKeeps(s, w, i, c.(pc := Requeue(t)), t, k.(thread := Ready));
      } else {
        PutDownKeeps(s, w, i, t, k.(thread := Finished), false);
        assert HandedBack(s, i) == PutDown(s, i, t, k.(thread := Finished), false);
      }
    }
  }

  lemma CheckKeeps(s: State, w: Places, i: nat)
    requires Placed(s, w) && Enabled(s, i, Check)
    ensures Placed(Checked(s, i), w)
  {
    var c := s.cpus[i];
    var t := c.pc.t;
    assert CpuOk(s, w, i) && TaskOk(s, w, t);
    OwnKeeps(s, w, i, c.(pc := Chosen(t), last := Some(t)), t, s.tasks[t].(thread := Running));
  }

  lemma LoadKeeps(s: State, w: Places, i: nat)
    requires Placed(s, w) && i < |s.cpus| && s.cpus[i].pc.Chosen? && s.cpus[i].pc.t in s.tasks
    ensures Placed(SetPc(SwitchProcess(s, i, Some(s.cpus[i].pc.t)), i, Loaded(s.cpus[i].pc.t)), w)
  {
    var c := s.cpus[i];
    var t := c.pc.t;
    assert CpuOk(s, w, i) && TaskOk(s, w, t);
    var d, k := c.(pc := Loaded(t), current := Some(t)), s.tasks[t].(process := Active);
    OwnKeeps(s, w, i, d, t, k);
    assert SetPc(SwitchProcess(s, i, Some(t)), i, Loaded(t)) == Own(s, i, d, t, k);
  }

  lemma EnterKeeps(s: State, w: Places, i: nat)
    requires Placed(s, w) && i < |s.cpus| && s.cpus[i].pc.Boot?
    ensures Placed(SetPc(SwitchProcess(s, i, None), i, Top), w)
  {
    assert CpuOk(s, w, i);
    EmptyHandsKeep(s, w, i, s.cpus[i].(pc := Top));
    assert SetPc(SwitchProcess(s, i, None), i, Top) == SetCpu(s, i, s.cpus[i].(pc := Top));
  }

  /** The two changes of stack, off a thread's and onto one. */
  lemma MoveKeeps(s: State, w: Places, i: nat, pc: Pc)
    requires Placed(s, w) && i < |s.cpus|
    requires (s.cpus[i].pc.Leaving? && pc == Top) || (s.cpus[i].pc.Loaded? && pc == OnThread(s.cpus[i].pc.t))
    ensures Placed(SetPc(s, i, pc), w)
  {
    var c := s.cpus[i];
    var t := c.pc.t;
    assert CpuOk(s, w, i) && TaskOk(s, w, t);
    OwnKeeps(s, w, i, c.(pc := pc), t, s.tasks[t]);
    assert SetPc(s, i, pc) == Own(s, i, c.(pc := pc), t, s.tasks[t]);
  }

  lemma ThreadStepKeeps(s: State, w: Places, i: nat, step: Step)
    requires Placed(s, w) && Enabled(s, i, step) && RunsSome(s, i) && !step.Enter? && !step.Dispatch?
    ensures Placed(Apply(s, i, step), Moved(s, w, i, step))
  {
    hide Schedule, SetAt, Placed, Exits;
    var t := s.cpus[i].pc.t;
    match step
    case Yield => ScheduleKeeps(s, w, i, User);
    case Leave =>
      if Doing(s, i) == Exited {
        LastScheduleKeeps(s, w, i);
      } else {
        ScheduleKeeps(s, w, i, User);
      }
    case NoneFound => ScheduleKeeps(s, w, i, Scanning);
    case Wait => SetAtKeeps(s, w, i, Scanning);
    case Find(n) => FindKeeps(s, w, i, n);
    case Fork(n) => ForkKeeps(s, w, i, n);
    case Insert => InsertKeeps(s, w, i);
    case Exit(a) => ExitKeeps(s, w, i, a);
    case Reap => ReapKeeps(s, w, i);
    case Advance => AdvanceKeeps(s, w, i);
    case FreeProcess => FreeProcessKeeps(s, w, i);
  }

  lemma FindKeeps(s: State, w: Places, i: nat, n: Tid)
    requires Placed(s, w) && Enabled(s, i, Find(n))
    ensures Placed(SetAt(s, i, Reaping(n)), w)
  {
    assert TaskOk(s, w, n) && TaskOk(s, w, s.cpus[i].pc.t);
    SetAtKeeps(s, w, i, Reaping(n));
  }

  lemma ReapKeeps(s: State, w: Places, i: nat)
    requires Placed(s, w) && Enabled(s, i, Reap)
    ensures Placed(Reaps(s, i), w)
  {
    hide Schedule, Placed;
    var t, n := s.cpus[i].pc.t, Doing(s, i).child;
    NobodyWaits(s, w, n);
    if s.tasks[n].thread == Finished {
      FreedKeeps(s, w, i, t, n, s.tasks[n].(threadFreed := true), Advancing(n));
    } else {
      ScheduleKeeps(s, w, i, Reaping(n));
    }
  }

  lemma AdvanceKeeps(s: State, w: Places, i: nat)
    requires Placed(s, w) && Enabled(s, i, Advance)
    ensures Placed(Apply(s, i, Advance), w)
  {
    hide Placed;
    var t, n := s.cpus[i].pc.t, Doing(s, i).child;
    ReapedIsNotInit(s, w, t, n);
    FreedKeeps(s, w, i, t, n, s.tasks[n], Freeing(n));
    assert Freed(s, t, n, s.tasks[n], Freeing(n)) == SetAt(s, i, Freeing(n)) by {
      assert s.tasks[n := s.tasks[n]] == s.tasks;
    }
  }

  lemma FreeProcessKeeps(s: State, w: Places, i: nat)
    requires Placed(s, w) && Enabled(s, i, FreeProcess)
    ensures Placed(Apply(s, i, FreeProcess), w)
  {
    hide Placed;
    var n := Doing(s, i).child;
    FreedKeeps(s, w, i, s.cpus[i].pc.t, n, s.tasks[n].(processFreed := true), Reaped);
  }

  lemma InsertOldKeeps(s: State, w: Places, i: nat)
    requires Placed(s, w) && Enabled(s, i, InsertOld)
    ensures Placed(Apply(s, i, InsertOld), Moved(s, w, i, InsertOld))
  {
    var t := s.cpus[i].pc.t;
    assert CpuOk(s, w, i) && TaskOk(s, w, t);
    PutDownKeeps(s, w, i, t, s.tasks[t].(thread := Ready), true);
  }

  /** Every step of every CPU keeps every task in one place. */
  lemma StepKeeps(s: State, w: Places, i: nat, step: Step)
    requires Placed(s, w) && Enabled(s, i, step)
    ensures Placed(Apply(s, i, step), Moved(s, w, i, step))
  {
    hide Placed, SwitchProcess;
    match step
    case Enter => EnterKeeps(s, w, i);
    case Switch => MoveKeeps(s, w, i, Top);
    case Dispatch => MoveKeeps(s, w, i, OnThread(s.cpus[i].pc.t));
    case HandBack => HandBackKeeps(s, w, i);
    case InsertOld => InsertOldKeeps(s, w, i);
    case Pick => PickKeeps(s, w, i);
    case Check => CheckKeeps(s, w, i);
    case Load => LoadKeeps(s, w, i);
    case _ => ThreadStepKeeps(s, w, i, step);
  }

  // ---- What holds in every reachable state ----

  /** run, a sequence of (CPU, step), leads from s to r. */
  ghost predicate Leads(s: State, run: seq<(nat, Step)>, r: State)
    decreases |run|
  {
    if run == [] then s == r
    else Enabled(s, run[0].0, run[0].1) && Leads(Apply(s, run[0].0, run[0].1), run[1..], r)
  }

  lemma LeadsFrom(s: State, i: nat, step: Step, rest: seq<(nat, Step)>, r: State)
    requires Enabled(s, i, step) && Leads(Apply(s, i, step), rest, r)
    ensures Leads(s, [(i, step)] + rest, r)
  {
    assert ([(i, step)] + rest)[1..] == rest;
  }

  lemma {:induction false} LeadsOn(s: State, run: seq<(nat, Step)>, m: State, rest: seq<(nat, Step)>, r: State)
    requires Leads(s, run, m) && Leads(m, rest, r)
    ensures Leads(s, run + rest, r)
    decreases |run|
  {
    hide Enabled, Apply;
    if run == [] {
      assert run + rest == rest;
    } else {
      LeadsOn(Apply(s, run[0].0, run[0].1), run[1..], m, rest, r);
      assert run + rest == [run[0]] + (run[1..] + rest);
    }
  }

  lemma {:induction false} RunKeeps(s: State, w: Places, run: seq<(nat, Step)>, r: State) returns (v: Places)
    requires Placed(s, w) && Leads(s, run, r)
    ensures Placed(r, v)
    decreases |run|
  {
    hide Placed, Enabled, Apply;
    if run == [] {
      v := w;
    } else {
      StepKeeps(s, w, run[0].0, run[0].1);
      v := RunKeeps(Apply(s, run[0].0, run[0].1), Moved(s, w, run[0].0, run[0].1), run[1..], r);
    }
  }

  /** The CPUs that have t in hand. */
  function Holders(s: State, t: Tid): set<nat> {
    set i: nat | i < |s.cpus| && Holds(s.cpus[i]) == Some(t)
  }

  predicate BeingMade(s: State, t: Tid) {
    exists p :: p in s.tasks && s.tasks[p].at == Forking(t)
  }

  /** In how many places t is: with the thread that forks it, in the ready queue, with a CPU,
      finished. */
  function PlaceCount(s: State, t: Tid): nat
    requires t in s.tasks
  {
    (if BeingMade(s, t) then 1 else 0) + multiset(s.queue)[t] + |Holders(s, t)|
    + (if s.tasks[t].thread == Finished then 1 else 0)
  }

  lemma {:induction false} CountOnce(q: seq<Tid>, t: Tid)
    requires NoDup(q)
    ensures multiset(q)[t] == if t in q then 1 else 0
  {
    if q != [] {
      assert q == [q[0]] + q[1..];
      CountOnce(q[1..], t);
    }
  }

  lemma OnePlace(s: State, w: Places, t: Tid)
    requires Placed(s, w) && t in s.tasks
    ensures PlaceCount(s, t) == 1
  {
    assert TaskOk(s, w, t);
    CountOnce(s.queue, t);
    forall i: nat | i < |s.cpus| && Holds(s.cpus[i]) == Some(t)
      ensures w[t] == With(i)
    {
      assert CpuOk(s, w, i);
    }
    assert Holders(s, t) == if w[t].With? then {w[t].cpu} else {};
    assert BeingMade(s, t) <==> w[t].Unborn? by {
      forall p | p in s.tasks && s.tasks[p].at == Forking(t)
        ensures w[t] == Unborn(p)
      {
        assert TaskOk(s, w, p);
      }
    }
    if w[t].With? {
      assert CpuOk(s, w, w[t].cpu);
    }
  }

  /** The thread objects (and stacks) a step reads or writes. */
  function ThreadsTouched(s: State, i: nat, step: Step): set<Tid>
    requires Enabled(s, i, step)
  {
    var c := s.cpus[i];
    match step
      case Enter => {}
      case HandBack => if c.last.Some? then {c.last.value} else {}
      case InsertOld => {c.pc.t} + set t | t in s.queue
      case Pick => set t | t in s.queue
      case Insert => {c.pc.t, Doing(s, i).child} + set t | t in s.queue
      case Reap => {c.pc.t, Doing(s, i).child}
      case Advance => {c.pc.t, Doing(s, i).child}
      case _ => {c.pc.t}
  }

  /** The process objects (and address spaces) a step gets at through a thread, as the child
      it deals with or as init, and the address space in which the CPU runs. Siblings that
      only the links of a list of children lead to are not among them. */
  function ProcessesTouched(s: State, i: nat, step: Step): set<Tid>
    requires Enabled(s, i, step)
  {
    var c := s.cpus[i];
    (if c.current.Some? then {c.current.value} else {})
    + match step
      case HandBack => if c.last.Some? then {c.last.value} else {}
      case Check => {c.pc.t}
      case Load => {c.pc.t}
      case Exit(a) => {c.pc.t, s.init} + if a.Some? then {a.value} else {}
      case Find(n) => {c.pc.t, n}
      case Reap => {c.pc.t, Doing(s, i).child}
      case FreeProcess => {c.pc.t, Doing(s, i).child}
      case _ => {}
  }

  /** The one step that reads from freed memory: the loop over the threads of a dead process
      goes on through the link of the thread it has just freed. */
  predicate ReadsFreed(s: State, i: nat, step: Step, t: Tid)
    requires Enabled(s, i, step)
  {
    step.Advance? && t == Doing(s, i).child
  }

  /** A step gets at t although t has been freed if and only if it is that read. */
  ghost predicate ThreadUseOk(s: State, i: nat, step: Step, t: Tid)
    requires Enabled(s, i, step)
  {
    && (t in ThreadsTouched(s, i, step) ==> t in s.tasks)
    && (t in ThreadsTouched(s, i, step) && s.tasks[t].threadFreed <==> ReadsFreed(s, i, step, t))
  }

  lemma HeldIsLive(s: State, w: Places, i: nat)
    requires Placed(s, w) && i < |s.cpus| && Holds(s.cpus[i]).Some?
    ensures var t := Holds(s.cpus[i]).value;
      && t in s.tasks && !s.tasks[t].threadFreed && !s.tasks[t].processFreed
      && t !in s.queue && HeldOk(s.cpus[i], s.tasks[t])
  {
    assert CpuOk(s, w, i) && TaskOk(s, w, Holds(s.cpus[i]).value);
  }

  /** A step uses a freed thread if and only if it is the advance of the loop in process_free
      and the thread is the child's; no step uses a freed process that it gets at otherwise
      than through sibling links. */
  lemma NothingFreedIsTouched(s: State, w: Places, i: nat, step: Step)
    requires Placed(s, w) && Enabled(s, i, step)
    ensures forall t :: ThreadUseOk(s, i, step, t)
    ensures forall t :: t in ProcessesTouched(s, i, step) ==> t in s.tasks && !s.tasks[t].processFreed
  {
    var c := s.cpus[i];
    assert CpuOk(s, w, i) && TaskOk(s, w, s.init);
    if Holds(c).Some? {
      HeldIsLive(s, w, i);
      assert TaskOk(s, w, Holds(c).value);
    }
    forall t | t in s.queue
      ensures t in s.tasks && !s.tasks[t].threadFreed
    {
      assert TaskOk(s, w, t);
    }
    if step.Insert? {
      assert TaskOk(s, w, Doing(s, i).child);
    }
  }

  /** A step CPU i can take, when it is not just waiting for a thread. */
  function SomeStep(s: State, i: nat): Step
    requires i < |s.cpus|
  {
    match s.cpus[i].pc
    case Boot => Enter
    case Leaving(_) => Switch
    case Top => HandBack
    case Requeue(_) => InsertOld
    case Picking => Pick
    case Picked(_) => Check
    case Chosen(_) => Load
    case Loaded(_) => Dispatch
    case OnThread(t) =>
      if t !in s.tasks then Yield else
      match s.tasks[t].at
      case Forking(_) => Insert
      case Exited => Leave
      case Reaped => Leave
      case Scanning => NoneFound
      case Reaping(_) => Reap
      case Advancing(_) => Advance
      case Freeing(_) => FreeProcess
      case _ => Yield
  }

  lemma NobodyIsStuck(s: State, w: Places, i: nat)
    requires Placed(s, w) && i < |s.cpus| && !(s.cpus[i].pc.Picking? && s.queue == [])
    ensures Enabled(s, i, SomeStep(s, i))
  {
    assert CpuOk(s, w, i);
    if Holds(s.cpus[i]).Some? {
      assert TaskOk(s, w, Holds(s.cpus[i]).value);
    }
  }

  /** CPU i is in the address space it should be in. */
  predicate AtHome(s: State, i: nat)
    requires i < |s.cpus|
  {
    match s.cpus[i].pc
    case OnThread(t) => t in s.tasks && s.tasks[t].thread == Running && s.cpus[i].current == Some(t)
    case Loaded(t) => s.cpus[i].current == Some(t)
    case _ => s.cpus[i].current == None
  }

  /** What a state must satisfy, in the scheduler's own terms. */
  ghost predicate Safe(s: State) {
    // Every thread is in exactly one place. A queued one is ready, its process alive and not
    // counted as running.
    && (forall t :: t in s.tasks ==> PlaceCount(s, t) == 1)
    && (forall t :: t in s.queue ==> t in s.tasks && s.tasks[t].thread == Ready && s.tasks[t].process == Idle)
    // A thread is finished only when its process has exited.
    && (forall t :: t in s.tasks && s.tasks[t].thread == Finished ==> s.tasks[t].process == Zombie)
    // A CPU runs a thread in the address space of its process, and the scheduler in none.
    && (forall i: nat {:trigger AtHome(s, i)} :: i < |s.cpus| ==> AtHome(s, i))
    // A stack is given back only once every CPU has left it, an address space likewise.
    && (forall i: nat, t | i < |s.cpus| && t in s.tasks && s.tasks[t].threadFreed ::
          Holds(s.cpus[i]) != Some(t) && s.cpus[i].current != Some(t))
    // A step uses a freed thread exactly when it is the advance of the loop in process_free
    // and the thread is the child's. No step uses a freed address space, or a freed process
    // other than through sibling links.
    && (forall i: nat, step {:trigger Enabled(s, i, step)} :: Enabled(s, i, step) ==>
          && (forall t :: ThreadUseOk(s, i, step, t))
          && (forall t :: t in ProcessesTouched(s, i, step) ==> t in s.tasks && !s.tasks[t].processFreed))
    // A CPU never takes a thread of a dead process, and exit never returns.
    && (forall i: nat :: i < |s.cpus| && s.cpus[i].pc.Picked? ==>
          s.cpus[i].pc.t in s.tasks && Alive(s.tasks[s.cpus[i].pc.t]))
    && (forall i: nat :: i < |s.cpus| && s.cpus[i].pc.OnThread? ==>
          s.cpus[i].pc.t in s.tasks && s.tasks[s.cpus[i].pc.t].at != Gone)
    // No CPU is stuck: it can step, or waits for the ready queue to fill.
    && (forall i: nat :: i < |s.cpus| ==>
          Enabled(s, i, SomeStep(s, i)) || (s.cpus[i].pc.Picking? && s.queue == []))
  }

  lemma PlacedIsSafe(s: State, w: Places)
    requires Placed(s, w)
    ensures Safe(s)
  {
    hide PlaceCount, ThreadsTouched, ProcessesTouched, ThreadUseOk, Enabled, FamilyOk, SomeStep;
    forall t | t in s.tasks
      ensures PlaceCount(s, t) == 1
    {
      OnePlace(s, w, t);
    }
    forall t | t in s.tasks && s.tasks[t].thread == Finished
      ensures s.tasks[t].process == Zombie
    {
      assert TaskOk(s, w, t);
    }
    forall t | t in s.queue
      ensures t in s.tasks && s.tasks[t].thread == Ready && s.tasks[t].process == Idle
    {
      assert TaskOk(s, w, t);
    }
    forall i: nat | i < |s.cpus|
      ensures AtHome(s, i)
    {
      assert CpuOk(s, w, i);
      if Holds(s.cpus[i]).Some? {
        HeldIsLive(s, w, i);
      }
    }
    forall i: nat, t | i < |s.cpus| && t in s.tasks && s.tasks[t].threadFreed
      ensures Holds(s.cpus[i]) != Some(t) && s.cpus[i].current != Some(t)
    {
      assert CpuOk(s, w, i);
      if Holds(s.cpus[i]).Some? {
        HeldIsLive(s, w, i);
      }
    }
    forall i: nat, step | Enabled(s, i, step)
      ensures forall t :: ThreadUseOk(s, i, step, t)
      ensures forall t :: t in ProcessesTouched(s, i, step) ==> t in s.tasks && !s.tasks[t].processFreed
    {
      NothingFreedIsTouched(s, w, i, step);
    }
    forall i: nat | i < |s.cpus| && Holds(s.cpus[i]).Some?
      ensures Holds(s.cpus[i]).value in s.tasks && HeldOk(s.cpus[i], s.tasks[Holds(s.cpus[i]).value])
    {
      HeldIsLive(s, w, i);
    }
    forall i: nat | i < |s.cpus| && !(s.cpus[i].pc.Picking? && s.queue == [])
      ensures Enabled(s, i, SomeStep(s, i))
    {
      NobodyIsStuck(s, w, i);
    }
  }

  /** Whatever the CPUs do, in whatever order, every state they reach is safe. */
  lemma EveryReachableStateIsSafe(s: State, run: seq<(nat, Step)>, r: State)
    requires Initial(s) && Leads(s, run, r)
    ensures Safe(r)
  {
    hide Placed, Safe, Leads;
    InitialPlaced(s);
    var v := RunKeeps(s, map[s.init := Queued], run, r);
    PlacedIsSafe(r, v);
  }
}
