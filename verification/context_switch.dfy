/** The context switch of kernel/proc/swtch.S, the frame that new_thread of kernel/proc/thread.c
    lays out for it, and what any sequence of switches gives back to a thread. */
module ContextSwitch {
  import opened PhysicalMemory
  import opened ByteMemory

  datatype Regs = Regs(rsp: nat, rbp: Word, rbx: Word, r12: Word, r13: Word, r14: Word, r15: Word,
                       rdi: Word, rsi: Word, rip: Word)

  /** What a function may count on finding again after a call, and where it returns to. */
  datatype Context = Context(rsp: nat, rbp: Word, rbx: Word, r12: Word, r13: Word, r14: Word, r15: Word,
                             rdi: Word, rip: Word)

  /** The registers are as the context says. */
  predicate Has(r: Regs, x: Context) {
    && r.rsp == x.rsp && r.rbp == x.rbp && r.rbx == x.rbx && r.r12 == x.r12 && r.r13 == x.r13
    && r.r14 == x.r14 && r.r15 == x.r15 && r.rdi == x.rdi && r.rip == x.rip
  }

  function ContextOf(r: Regs): (x: Context)
    ensures Has(r, x)
  {
    Context(r.rsp, r.rbp, r.rbx, r.r12, r.r13, r.r14, r.r15, r.rdi, r.rip)
  }

  /** The context of a thread that has just called swtch: as it will be after the return. */
  function Caller(m: Bytes, r: Regs): Context {
    GetWordFits(m, r.rsp);
    Context(r.rsp + 8, r.rbp, r.rbx, r.r12, r.r13, r.r14, r.r15, r.rdi, GetWord(m, r.rsp))
  }

  lemma {:induction false} LoadFits(m: Bytes, a: nat, n: nat)
    ensures Load(m, a, n) < Pow256(n)
    decreases n
  {
    if n > 0 {
      LoadFits(m, a + 1, n - 1);
    }
  }

  lemma GetWordFits(m: Bytes, a: nat)
    ensures GetWord(m, a) < 0x1_0000_0000_0000_0000
  {
    LoadFits(m, a, 8);
    WordRange();
  }

  // ---- Pushing ----

  /** The memory after pushing ws, first word first, with the stack pointer at sp. */
  function Pushed(m: Bytes, sp: nat, ws: seq<Word>): Bytes
    requires 8 * |ws| <= sp
    decreases |ws|
  {
    if ws == [] then m else Pushed(PutWord(m, sp - 8, ws[0]), sp - 8, ws[1..])
  }

  lemma {:induction false} PushedElsewhere(m: Bytes, sp: nat, ws: seq<Word>, a: nat)
    requires 8 * |ws| <= sp && (sp <= a || a < sp - 8 * |ws|)
    ensures At(Pushed(m, sp, ws), a) == At(m, a)
    decreases |ws|
  {
    if ws != [] {
      PushedElsewhere(PutWord(m, sp - 8, ws[0]), sp - 8, ws[1..], a);
    }
  }

  lemma PushedAgree(m: Bytes, sp: nat, ws: seq<Word>, lo: nat, hi: nat)
    requires 8 * |ws| <= sp && (sp <= lo || hi <= sp - 8 * |ws|)
    ensures Agree(m, Pushed(m, sp, ws), lo, hi)
  {
    forall a: nat | lo <= a < hi
      ensures At(Pushed(m, sp, ws), a) == At(m, a)
    {
      PushedElsewhere(m, sp, ws, a);
    }
  }

  lemma {:induction false} PushedWord(m: Bytes, sp: nat, ws: seq<Word>, k: nat)
    requires 8 * |ws| <= sp && k < |ws|
    ensures GetWord(Pushed(m, sp, ws), sp - 8 * (k + 1)) == ws[k]
    decreases |ws|
  {
    hide GetWord, PutWord;
    var m1 := PutWord(m, sp - 8, ws[0]);
    if k == 0 {
      GetPut(m, sp - 8, ws[0]);
      PushedAgree(m1, sp - 8, ws[1..], sp - 8, sp);
      WordAgrees(m1, Pushed(m1, sp - 8, ws[1..]), sp - 8, sp, sp - 8);
    } else {
      PushedWord(m1, sp - 8, ws[1..], k - 1);
    }
  }

  lemma {:induction false} PushedThen(m: Bytes, sp: nat, ws: seq<Word>, w: Word)
    requires 8 * |ws| + 8 <= sp
    ensures PutWord(Pushed(m, sp, ws), sp - 8 * |ws| - 8, w) == Pushed(m, sp, ws + [w])
    decreases |ws|
  {
    hide PutWord;
    if ws != [] {
      PushedThen(PutWord(m, sp - 8, ws[0]), sp - 8, ws[1..], w);
      assert (ws + [w])[1..] == ws[1..] + [w];
    }
  }

  lemma PushedNone(m: Bytes, sp: nat)
    ensures Pushed(m, sp, []) == m
  {
  }

  // ---- Frames ----

  /** The frame at sp that swtch unwinds into x; it ends where x's stack begins. */
  ghost predicate Frame(m: Bytes, sp: nat, x: Context) {
    && GetWord(m, sp) == sp + 56 && GetWord(m, sp + 8) == x.rbx && GetWord(m, sp + 16) == x.r12
    && GetWord(m, sp + 24) == x.r13 && GetWord(m, sp + 32) == x.r14 && GetWord(m, sp + 40) == x.r15
    && GetWord(m, sp + 48) == x.rdi && GetWord(m, sp + 56) == x.rbp && GetWord(m, sp + 64) == x.rip
    && x.rsp == sp + 72
  }

  /** The words swtch pushes. */
  function Words(r: Regs): seq<Word>
    requires 64 <= r.rsp < 0x1_0000_0000_0000_0000
  {
    [r.rbp, r.rdi, r.r15, r.r14, r.r13, r.r12, r.rbx, r.rsp - 8]
  }

  /** Memory once swtch has saved its caller. */
  function Saved(m: Bytes, r: Regs): Bytes
    requires 64 <= r.rsp < 0x1_0000_0000_0000_0000
  {
    var m1 := Pushed(m, r.rsp, Words(r));
    if r.rdi == 0 then m1 else PutWord(m1, r.rdi, r.rsp - 64)
  }

  /** The registers swtch loads from the frame at sp. */
  function Loaded(m: Bytes, sp: nat, rsi: Word): Regs {
    var f := GetWord(m, sp);
    GetWordFits(m, f);
    GetWordFits(m, f + 8);
    GetWordFits(m, sp + 8);
    GetWordFits(m, sp + 16);
    GetWordFits(m, sp + 24);
    GetWordFits(m, sp + 32);
    GetWordFits(m, sp + 40);
    GetWordFits(m, sp + 48);
    Regs(f + 16, GetWord(m, f), GetWord(m, sp + 8), GetWord(m, sp + 16), GetWord(m, sp + 24), GetWord(m, sp + 32),
         GetWord(m, sp + 40), GetWord(m, sp + 48), rsi, GetWord(m, f + 8))
  }

  lemma LoadedFrame(m: Bytes, sp: nat, rsi: Word, x: Context)
    requires Frame(m, sp, x)
    ensures ContextOf(Loaded(m, sp, rsi)) == x
  {
  }

  lemma PushedFrame(m: Bytes, r: Regs)
    requires 64 <= r.rsp < 0x1_0000_0000_0000_0000
    ensures Frame(Pushed(m, r.rsp, Words(r)), r.rsp - 64, Caller(m, r))
  {
    hide GetWord, Pushed;
    var ws := Words(r);
    PushedWord(m, r.rsp, ws, 0);
    PushedWord(m, r.rsp, ws, 1);
    PushedWord(m, r.rsp, ws, 2);
    PushedWord(m, r.rsp, ws, 3);
    PushedWord(m, r.rsp, ws, 4);
    PushedWord(m, r.rsp, ws, 5);
    PushedWord(m, r.rsp, ws, 6);
    PushedWord(m, r.rsp, ws, 7);
    PushedAgree(m, r.rsp, ws, r.rsp, r.rsp + 8);
    WordAgrees(m, Pushed(m, r.rsp, ws), r.rsp, r.rsp + 8, r.rsp);
  }

  lemma FrameAgrees(m: Bytes, m': Bytes, sp: nat, x: Context)
    requires Frame(m, sp, x) && Agree(m, m', sp, sp + 72)
    ensures Frame(m', sp, x)
  {
    hide GetWord, Agree;
    var hi := sp + 72;
    WordAgrees(m, m', sp, hi, sp);
    WordAgrees(m, m', sp, hi, sp + 8);
    WordAgrees(m, m', sp, hi, sp + 16);
    WordAgrees(m, m', sp, hi, sp + 24);
    WordAgrees(m, m', sp, hi, sp + 32);
    WordAgrees(m, m', sp, hi, sp + 40);
    WordAgrees(m, m', sp, hi, sp + 48);
    WordAgrees(m, m', sp, hi, sp + 56);
    WordAgrees(m, m', sp, hi, sp + 64);
  }

  // ---- The instructions ----

  class Core {
    var mem: Bytes
    var r: Regs
    // fields of the CPU structure: the current thread, and where an interrupt or a system call
    // from user mode starts its stack
    var current: Word
    var rsp0: Word
    var kernelStack: Word

    method Push(w: Word)
      requires 8 <= r.rsp
      modifies `mem, `r
      ensures mem == PutWord(old(mem), old(r.rsp) - 8, w) && r == old(r).(rsp := old(r.rsp) - 8)
    {
      r := r.(rsp := r.rsp - 8);
      mem := PutWord(mem, r.rsp, w);
    }

    method Pop() returns (w: Word)
      modifies `r
      ensures w == GetWord(mem, old(r.rsp)) && r == old(r).(rsp := old(r.rsp) + 8)
    {
      GetWordFits(mem, r.rsp);
      w := GetWord(mem, r.rsp);
      r := r.(rsp := r.rsp + 8);
    }

    /** swtch(old, new): rdi and rsi hold the arguments, the word at rsp the return address. */
    method Swtch()
      requires 64 <= r.rsp < 0x1_0000_0000_0000_0000
      modifies `mem, `r
      ensures mem == Saved(old(mem), old(r))
      ensures r == Loaded(mem, GetWord(mem, old(r.rsi)), old(r.rsi))
    {
      hide GetWord, PutWord, Pushed, Loaded;
      ghost var m0, r0 := mem, r;
      SaveFrame();
      if r.rdi != 0 {
        mem := PutWord(mem, r.rdi, r.rsp);
      }
      GetWordFits(mem, r.rsi);
      r := r.(rsp := GetWord(mem, r.rsi));
      LoadFrame();
    }

    /** switch_thread, from the thread structure at from (0 at boot) to the one at onto. */
    method SwitchThread(from: Word, onto: Word,
                        ghost s: System, ghost c: Contexts, ghost l: Layout, ghost i: nat, ghost to: nat)
      requires LayoutOk(l) && Legal(s, c, l, Switch(i, to)) && Resumable(s, c, l)
      requires mem == s.mem && r == s.cpus[i].r && (from == 0 <==> s.cpus[i].cur >= |l.stacks|)
      requires (from != 0 ==> from + 176 == l.stacks[s.cpus[i].cur].cell) && onto + 176 == l.stacks[to].cell
      modifies this
      ensures System(mem, s.cpus[i := Cpu(r, to)]) == After(s, c, l, Switch(i, to)) && Has(r, c[to])
      ensures current == onto && rsp0 == kernelStack == l.stacks[to].cell
    {
      hide Saved, Loaded, GetWord;
      current := onto;
      rsp0 := onto + 176;
      kernelStack := onto + 176;
      SwitchResumes(s, c, l, i, to);
      r := r.(rdi := if from != 0 then from + 176 else 0, rsi := onto + 176);
      Swtch();
    }

    /** The pushes of swtch. */
    method SaveFrame()
      requires 64 <= r.rsp < 0x1_0000_0000_0000_0000
      modifies `mem, `r
      ensures mem == Pushed(old(mem), old(r.rsp), Words(old(r)))
      ensures r == old(r).(rsp := old(r.rsp) - 64, rbp := old(r.rsp) - 8)
    {
      hide PutWord, Pushed;
      ghost var m0, sp, ws := mem, r.rsp, Words(r);
      PushedNone(m0, sp);
      PushNext(r.rbp, m0, sp, [], ws[..1]);
      r := r.(rbp := r.rsp);
      PushNext(r.rdi, m0, sp, ws[..1], ws[..2]);
      PushNext(r.r15, m0, sp, ws[..2], ws[..3]);
      PushNext(r.r14, m0, sp, ws[..3], ws[..4]);
      PushNext(r.r13, m0, sp, ws[..4], ws[..5]);
      PushNext(r.r12, m0, sp, ws[..5], ws[..6]);
      PushNext(r.rbx, m0, sp, ws[..6], ws[..7]);
      PushNext(r.rbp, m0, sp, ws[..7], ws);
    }

    /** A push on top of those of ws. */
    method PushNext(w: Word, ghost m0: Bytes, ghost sp: nat, ghost ws: seq<Word>, ghost more: seq<Word>)
      requires more == ws + [w] && 8 * |more| <= sp && r.rsp == sp - 8 * |ws| && mem == Pushed(m0, sp, ws)
      modifies `mem, `r
      ensures mem == Pushed(m0, sp, more) && r == old(r).(rsp := old(r.rsp) - 8)
    {
      hide PutWord, Pushed;
      PushedThen(m0, sp, ws, w);
      Push(w);
    }

    /** The pops of swtch, leaveq and ret. */
    method LoadFrame()
      modifies `r
      ensures r == Loaded(mem, old(r.rsp), old(r.rsi))
    {
      hide GetWord;
      var w := Pop();
      r := r.(rbp := w);
      LoadSaved();
      r := r.(rsp := r.rbp); // leaveq
      w := Pop();
      r := r.(rbp := w);
      w := Pop(); // ret
      r := r.(rip := w);
    }

    /** The pops of rbx, r12 to r15 and rdi. */
    method LoadSaved()
      modifies `r
      ensures r.rbx == GetWord(mem, old(r.rsp)) && r.r12 == GetWord(mem, old(r.rsp) + 8)
      ensures r.r13 == GetWord(mem, old(r.rsp) + 16) && r.r14 == GetWord(mem, old(r.rsp) + 24)
      ensures r.r15 == GetWord(mem, old(r.rsp) + 32) && r.rdi == GetWord(mem, old(r.rsp) + 40)
      ensures r.rsp == old(r.rsp) + 48 && r.rbp == old(r.rbp) && r.rsi == old(r.rsi) && r.rip == old(r.rip)
    {
      hide GetWord;
      var w := Pop();
      r := r.(rbx := w);
      w := Pop();
      r := r.(r12 := w);
      w := Pop();
      r := r.(r13 := w);
      w := Pop();
      r := r.(r14 := w);
      w := Pop();
      r := r.(r15 := w);
      w := Pop();
      r := r.(rdi := w);
    }

    /** The part of new_thread that readies a return to user mode. */
    method UserTrap(th: Word, func: Word)
      modifies `mem
      ensures TrapFrame(mem, th) == (func, 0x23, 0x3200, 0x8000_0000_0000, 0x1B)
      ensures forall b: nat :: b < th + 136 || th + 176 <= b ==> At(mem, b) == At(old(mem), b)
    {
      hide GetWord, PutWord;
      ghost var m0 := mem;
      mem := PutWord(mem, th + 136, func);
      ghost var m1 := mem;
      mem := PutWord(mem, th + 144, 0x23);
      ghost var m2 := mem;
      mem := PutWord(mem, th + 168, 0x1B);
      ghost var m3 := mem;
      mem := PutWord(mem, th + 152, 0x3200); // the interrupt flag set before, and I/O privilege 3
      ghost var m4 := mem;
      mem := PutWord(mem, th + 160, 0x8000_0000_0000);
      GetPut(m0, th + 136, func);
      WordAgrees(m1, mem, th + 136, th + 144, th + 136);
      GetPut(m1, th + 144, 0x23);
      WordAgrees(m2, mem, th + 144, th + 152, th + 144);
      GetPut(m2, th + 168, 0x1B);
      WordAgrees(m3, mem, th + 168, th + 176, th + 168);
      GetPut(m3, th + 152, 0x3200);
      WordAgrees(m4, mem, th + 152, th + 160, th + 152);
      GetPut(m4, th + 160, 0x8000_0000_0000);
    }

    /** The same for a thread of the kernel. */
    method KernelTrap(th: Word)
      requires th + 176 < 0x1_0000_0000_0000_0000
      modifies `mem
      ensures TrapFrame(mem, th) == (GetWord(old(mem), th + 136), 0x08, GetWord(old(mem), th + 152), th + 176, 0x10)
      ensures forall b: nat :: b < th + 136 || th + 176 <= b ==> At(mem, b) == At(old(mem), b)
    {
      hide GetWord, PutWord;
      ghost var m0 := mem;
      mem := PutWord(mem, th + 144, 0x08);
      ghost var m1 := mem;
      mem := PutWord(mem, th + 168, 0x10);
      ghost var m2 := mem;
      mem := PutWord(mem, th + 160, th + 176);
      GetPut(m0, th + 144, 0x08);
      WordAgrees(m1, mem, th + 144, th + 152, th + 144);
      GetPut(m1, th + 168, 0x10);
      WordAgrees(m2, mem, th + 168, th + 176, th + 168);
      GetPut(m2, th + 160, th + 176);
      WordAgrees(m0, mem, th + 136, th + 144, th + 136);
      WordAgrees(m0, mem, th + 152, th + 160, th + 152);
    }

    /** The number and state of a new thread. */
    method Label(th: Word, tid: Word)
      modifies `mem
      ensures GetWord(mem, th + 184) == tid && GetWord(mem, th + 192) == THREAD_READY
      ensures forall b: nat :: b < th + 184 || th + 200 <= b ==> At(mem, b) == At(old(mem), b)
    {
      hide GetWord, PutWord;
      GetPut(mem, th + 184, tid);
      mem := PutWord(mem, th + 184, tid);
      ghost var m1 := mem;
      mem := PutWord(mem, th + 192, THREAD_READY);
      GetPut(m1, th + 192, THREAD_READY);
      WordAgrees(m1, mem, th + 184, th + 192, th + 184);
    }

    /** LIST_INIT for both lists a thread can be on. */
    method InitLinks(th: Word)
      modifies `mem
      ensures Unlinked(mem, th)
      ensures forall b: nat :: b < th + 720 || th + 752 <= b ==> At(mem, b) == At(old(mem), b)
    {
      hide GetWord, PutWord;
      mem := PutWord(mem, th + 744, 0);
      ghost var m1 := mem;
      GetPut(old(mem), th + 744, 0);
      mem := PutWord(mem, th + 736, 0);
      ghost var m2 := mem;
      GetPut(m1, th + 736, 0);
      mem := PutWord(mem, th + 728, 0);
      ghost var m3 := mem;
      GetPut(m2, th + 728, 0);
      mem := PutWord(mem, th + 720, 0);
      GetPut(m3, th + 720, 0);
      WordAgrees(m1, mem, th + 744, th + 752, th + 744);
      WordAgrees(m2, mem, th + 736, th + 744, th + 736);
      WordAgrees(m3, mem, th + 728, th + 736, th + 728);
    }

    /** new_thread: lays out the zeroed thread_stack_t at base so that the first switch to the
        thread starts entry. */
    method NewThread(base: nat, func: Word, isrReturn: Word, user: bool, tid: Word) returns (th: Word)
      requires base + THREAD_STACK < 0x1_0000_0000_0000_0000
      requires forall b: nat :: base <= b < base + THREAD_STACK ==> At(mem, b) == 0
      modifies `mem
      ensures th == base + 3352 && Suspended(mem, StackAt(base), Entry(base, if user then isrReturn else func))
      // the first switch to the thread gives it its own structure as argument and stack
      ensures exists x: Context ::
        && Suspended(mem, Stack(base, th + 176), x)
        && x.rsp == x.rdi == th && x.rbp == 0 && x.rip == if user then isrReturn else func
      // what a return to user mode takes from it: rip, cs, rflags, rsp and ss
      ensures GetWord(mem, th + 136) == (if user then func else 0)
      ensures GetWord(mem, th + 144) == (if user then 0x23 else 0x08)
      ensures GetWord(mem, th + 152) == (if user then 0x3200 else 0x200)
      ensures GetWord(mem, th + 160) == (if user then 0x8000_0000_0000 else base + 3528)
      ensures GetWord(mem, th + 168) == (if user then 0x1B else 0x10)
      ensures GetWord(mem, th + 184) == tid && GetWord(mem, th + 192) == THREAD_READY && Unlinked(mem, th)
      ensures forall b: nat :: b < base || base + THREAD_STACK <= b ==> At(mem, b) == At(old(mem), b)
    {
      hide GetWord, PutWord;
      ghost var m0 := mem;
      var sp := base + 3280;
      th := base + 3352;
      mem := PutWord(mem, sp + 48, th);
      ghost var m1 := mem;
      mem := PutWord(mem, sp, sp + 56);
      ghost var m2 := mem;
      mem := PutWord(mem, th + 152, 0x200);
      ghost var m3;
      GetPut(m2, th + 152, 0x200);
      GetPut(mem, sp + 64, if user then isrReturn else func);
      if user {
        mem := PutWord(mem, sp + 64, isrReturn);
        m3 := mem;
        UserTrap(th, func);
      } else {
        ghost var k := mem;
        mem := PutWord(mem, sp + 64, func);
        m3 := mem;
        ZeroWord(mem, th + 136);
        WordAgrees(k, mem, th + 152, th + 160, th + 152);
        KernelTrap(th);
      }
      ghost var m4 := mem;
      Label(th, tid);
      ghost var m5 := mem;
      mem := PutWord(mem, th + 176, sp);
      GetPut(m5, th + 176, sp);
      ghost var m6 := mem;
      InitLinks(th);
      TrapAgrees(m4, mem, th);
      WordAgrees(m6, mem, th + 176, th + 184, th + 176);
      WordAgrees(m5, mem, th + 184, th + 200, th + 184);
      WordAgrees(m5, mem, th + 184, th + 200, th + 192);
      NewFrame(m0, m1, m2, m3, mem, sp, th, if user then isrReturn else func);
    }
  }

  // ---- Threads ----

  const THREAD_STACK: nat := 4104 // sizeof(thread_stack_t)
  const THREAD_READY: nat := 2 // THREAD_STATE_READY

  /** A kernel stack: the bytes from lo up to the word at cell, where its stack pointer is
      kept while it does not run. */
  datatype Stack = Stack(lo: nat, cell: nat)

  function StackAt(base: nat): Stack { Stack(base, base + 3528) }

  /** How a new thread starts: at entry, with its own structure in rdi and on top of its stack,
      and a zero frame pointer. */
  function Entry(base: nat, entry: Word): Context
    requires base + THREAD_STACK < 0x1_0000_0000_0000_0000
  {
    Context(base + 3352, 0, 0, 0, 0, 0, 0, base + 3352, entry)
  }

  lemma EntryIs(base: nat, entry: Word)
    requires base + THREAD_STACK < 0x1_0000_0000_0000_0000
    ensures var x := Entry(base, entry); x.rsp == x.rdi == base + 3352 && x.rbp == 0 && x.rip == entry
  {
  }

  /** The stack holds a frame for x, and its cell points to that frame. */
  ghost predicate Suspended(m: Bytes, st: Stack, x: Context) {
    && st.lo <= GetWord(m, st.cell) && GetWord(m, st.cell) + 72 <= st.cell
    && Frame(m, GetWord(m, st.cell), x)
  }

  /** The rip, cs, rflags, rsp and ss that a return from interrupt takes from the thread. */
  function TrapFrame(m: Bytes, th: nat): (nat, nat, nat, nat, nat) {
    (GetWord(m, th + 136), GetWord(m, th + 144), GetWord(m, th + 152), GetWord(m, th + 160), GetWord(m, th + 168))
  }

  /** The thread is on no list. */
  predicate Unlinked(m: Bytes, th: nat) {
    GetWord(m, th + 720) == 0 && GetWord(m, th + 728) == 0 && GetWord(m, th + 736) == 0 && GetWord(m, th + 744) == 0
  }

  lemma TrapAgrees(m: Bytes, m': Bytes, th: nat)
    requires Agree(m, m', th + 136, th + 176)
    ensures TrapFrame(m', th) == TrapFrame(m, th)
  {
    WordAgrees(m, m', th + 136, th + 176, th + 136);
    WordAgrees(m, m', th + 136, th + 176, th + 144);
    WordAgrees(m, m', th + 136, th + 176, th + 152);
    WordAgrees(m, m', th + 136, th + 176, th + 160);
    WordAgrees(m, m', th + 136, th + 176, th + 168);
  }

  lemma {:induction false} ZeroLoad(m: Bytes, a: nat, n: nat)
    requires forall b: nat :: a <= b < a + n ==> At(m, b) == 0
    ensures Load(m, a, n) == 0
    decreases n
  {
    if n > 0 {
      ZeroLoad(m, a + 1, n - 1);
    }
  }

  lemma ZeroWord(m: Bytes, a: nat)
    requires forall b: nat :: a <= b < a + 8 ==> At(m, b) == 0
    ensures GetWord(m, a) == 0
  {
    ZeroLoad(m, a, 8);
  }

  lemma NewFrame(m0: Bytes, m1: Bytes, m2: Bytes, m3: Bytes, m: Bytes, sp: nat, th: Word, entry: Word)
    requires th == sp + 72 && forall b: nat :: sp <= b < sp + 72 ==> At(m0, b) == 0
    requires m1 == PutWord(m0, sp + 48, th) && sp + 56 < 0x1_0000_0000_0000_0000 && m2 == PutWord(m1, sp, sp + 56)
    requires GetWord(m3, sp + 64) == entry && Agree(m2, m3, sp, sp + 64) && Agree(m3, m, sp, sp + 72)
    ensures Frame(m, sp, Context(sp + 72, 0, 0, 0, 0, 0, 0, th, entry))
  {
    hide PutWord, GetWord;
    GetPut(m0, sp + 48, th);
    GetPut(m1, sp, sp + 56);
    WordAgrees(m1, m, sp + 48, sp + 56, sp + 48);
    WordAgrees(m2, m, sp, sp + 8, sp);
    WordAgrees(m3, m, sp + 64, sp + 72, sp + 64);
    ZeroWord(m, sp + 8);
    ZeroWord(m, sp + 16);
    ZeroWord(m, sp + 24);
    ZeroWord(m, sp + 32);
    ZeroWord(m, sp + 40);
    ZeroWord(m, sp + 56);
  }

  // ---- Any sequence of switches ----

  /** A CPU: its registers and the number of the thread it runs; a number past the last stack
      stands for the code that boots the CPU, which is no thread. */
  datatype Cpu = Cpu(r: Regs, cur: nat)

  /** Memory and the CPUs that share it. */
  datatype System = System(mem: Bytes, cpus: seq<Cpu>)

  /** What happens between two states: the code that CPU i runs computes, it lays out a new
      thread that will start at entry, or it calls switch_thread. A switch is one event: it
      touches only two stacks, neither of which another CPU uses. */
  datatype Event =
    | Compute(i: nat, mem: Bytes, r: Regs)
    | Create(i: nat, t: nat, mem: Bytes, entry: Word)
    | Switch(i: nat, to: nat)

  type Contexts = map<nat, Context>

  /** All kernel stacks: those the CPUs boot on, and the threads'. */
  datatype Layout = Layout(boots: seq<Stack>, stacks: seq<Stack>)

  function Home(l: Layout, i: nat, t: nat): Stack
    requires i < |l.boots|
  {
    if t < |l.stacks| then l.stacks[t] else l.boots[i]
  }

  ghost predicate Apart(a: Stack, b: Stack) {
    a.cell + 8 <= b.lo || b.cell + 8 <= a.lo
  }

  predicate InMemory(st: Stack) { st.lo <= st.cell < 0x1_0000_0000_0000_0000 }

  ghost predicate LayoutOk(l: Layout) {
    && (forall i: nat :: i < |l.boots| ==> InMemory(l.boots[i]))
    && (forall t: nat :: t < |l.stacks| ==> 0 < l.stacks[t].lo && InMemory(l.stacks[t]))
    && (forall i: nat, t: nat :: i < |l.boots| && t < |l.stacks| ==> Apart(l.boots[i], l.stacks[t]))
    && (forall t: nat, u: nat :: t < u < |l.stacks| ==> Apart(l.stacks[t], l.stacks[u]))
  }

  ghost predicate Running(s: System, t: nat) {
    exists i: nat :: i < |s.cpus| && s.cpus[i].cur == t
  }

  /** Thread t has been laid out or has run, and no CPU runs it. */
  ghost predicate Waits(s: System, c: Contexts, l: Layout, t: nat) {
    t in c && t < |l.stacks| && !Running(s, t)
  }

  /** No thread runs on two CPUs, and every thread that waits can be resumed, on whichever,
      with its context. */
  ghost predicate Resumable(s: System, c: Contexts, l: Layout) {
    && (forall i: nat, j: nat :: i < j < |s.cpus| && s.cpus[i].cur == s.cpus[j].cur ==> s.cpus[i].cur >= |l.stacks|)
    && forall t: nat :: Waits(s, c, l, t) ==> Suspended(s.mem, l.stacks[t], c[t])
  }

  /** The registers of CPU i at the call of swtch. */
  function Args(s: System, l: Layout, i: nat, to: nat): Regs
    requires LayoutOk(l) && i < |s.cpus| && to < |l.stacks|
  {
    var x := s.cpus[i];
    x.r.(rdi := if x.cur < |l.stacks| then l.stacks[x.cur].cell else 0, rsi := l.stacks[to].cell)
  }

  ghost predicate WaitersAgree(s: System, c: Contexts, l: Layout, m: Bytes) {
    forall t: nat :: Waits(s, c, l, t) ==> Agree(s.mem, m, l.stacks[t].lo, l.stacks[t].cell + 8)
  }

  predicate IsThreadStack(st: Stack) {
    st == StackAt(st.lo) && st.lo + THREAD_STACK < 0x1_0000_0000_0000_0000
  }

  ghost predicate Legal(s: System, c: Contexts, l: Layout, e: Event)
    requires LayoutOk(l)
  {
    && e.i < |s.cpus| == |l.boots|
    && match e
       case Compute(_, m, r) =>
         // running code keeps off the stacks of threads that do not run
         WaitersAgree(s, c, l, m)
       case Create(_, t, m, entry) =>
         && t < |l.stacks| && !Running(s, t) && t !in c && WaitersAgree(s, c, l, m)
         && IsThreadStack(l.stacks[t]) && Suspended(m, l.stacks[t], Entry(l.stacks[t].lo, entry))
       case Switch(i, to) =>
         // no CPU runs to, and there is room for the frame below the return address
         && Waits(s, c, l, to) && var x, home := s.cpus[i], Home(l, i, s.cpus[i].cur);
         home.lo + 64 <= x.r.rsp && x.r.rsp + 8 <= home.cell
  }

  ghost function After(s: System, c: Contexts, l: Layout, e: Event): System
    requires LayoutOk(l) && Legal(s, c, l, e)
  {
    match e
    case Compute(i, m, r) => System(m, s.cpus[i := s.cpus[i].(r := r)])
    case Create(_, _, m, _) => s.(mem := m)
    case Switch(i, to) =>
      var r := Args(s, l, i, to);
      var m := Saved(s.mem, r);
      System(m, s.cpus[i := Cpu(Loaded(m, GetWord(m, r.rsi), r.rsi), to)])
  }

  /** What each thread must be given back: a new thread's first context, and at a switch the
      context of the thread that the CPU leaves. */
  ghost function Recorded(s: System, c: Contexts, l: Layout, e: Event): Contexts
    requires LayoutOk(l) && Legal(s, c, l, e)
  {
    match e
    case Compute(_, _, _) => c
    case Create(_, t, _, entry) => c[t := Entry(l.stacks[t].lo, entry)]
    case Switch(i, to) =>
      if s.cpus[i].cur < |l.stacks| then c[s.cpus[i].cur := Caller(s.mem, Args(s, l, i, to))] else c
  }

  lemma SuspendedAgrees(m: Bytes, m': Bytes, st: Stack, x: Context)
    requires Suspended(m, st, x) && Agree(m, m', st.lo, st.cell + 8)
    ensures Suspended(m', st, x)
  {
    hide GetWord, Frame;
    WordAgrees(m, m', st.lo, st.cell + 8, st.cell);
    FrameAgrees(m, m', GetWord(m, st.cell), x);
  }

  /** Saving the running thread disturbs no other stack. */
  lemma SavedElsewhere(m: Bytes, r: Regs, mine: Stack, st: Stack)
    requires mine.lo + 64 <= r.rsp && r.rsp + 8 <= mine.cell < 0x1_0000_0000_0000_0000
    requires (r.rdi == 0 || r.rdi == mine.cell) && Apart(mine, st) && st.lo <= st.cell
    ensures Agree(m, Saved(m, r), st.lo, st.cell + 8)
  {
    hide PutWord;
    PushedAgree(m, r.rsp, Words(r), st.lo, st.cell + 8);
  }

  /** ... and leaves its own stack ready to be resumed. */
  lemma SavedSelf(m: Bytes, r: Regs, mine: Stack)
    requires mine.lo + 64 <= r.rsp && r.rsp + 8 <= mine.cell < 0x1_0000_0000_0000_0000 && 0 < r.rdi == mine.cell
    ensures Suspended(Saved(m, r), mine, Caller(m, r))
  {
    hide GetWord, PutWord;
    var m1, sp := Pushed(m, r.rsp, Words(r)), r.rsp - 64;
    PushedFrame(m, r);
    GetPut(m1, mine.cell, sp);
    FrameAgrees(m1, Saved(m, r), sp, Caller(m, r));
  }

  lemma HomesApart(l: Layout, i: nat, u: nat, t: nat)
    requires LayoutOk(l) && i < |l.boots| && t < |l.stacks| && t != u
    ensures Apart(Home(l, i, u), l.stacks[t])
  {
  }

  /** Which threads run after a switch. */
  lemma WhoRuns(s: System, i: nat, x: Cpu, t: nat)
    requires i < |s.cpus|
    ensures Running(s.(cpus := s.cpus[i := x]), t) ==> t == x.cur || Running(s, t)
    ensures Running(s, t) ==> t == s.cpus[i].cur || Running(s.(cpus := s.cpus[i := x]), t)
    ensures Running(s.(cpus := s.cpus[i := x]), x.cur) && Running(s, s.cpus[i].cur)
  {
    var r := s.(cpus := s.cpus[i := x]);
    assert r.cpus[i].cur == x.cur;
    if Running(s, t) {
      var j: nat :| j < |s.cpus| && s.cpus[j].cur == t;
      assert j != i ==> r.cpus[j].cur == t;
    }
  }

  /** The memory after a switch: what waits stays as it was. */
  lemma SwitchSaves(s: System, c: Contexts, l: Layout, i: nat, to: nat, t: nat)
    requires LayoutOk(l) && Legal(s, c, l, Switch(i, to)) && Resumable(s, c, l)
    ensures Waits(s, c, l, t) ==> Suspended(Saved(s.mem, Args(s, l, i, to)), l.stacks[t], c[t])
    ensures t == s.cpus[i].cur < |l.stacks| ==>
      Suspended(Saved(s.mem, Args(s, l, i, to)), l.stacks[t], Caller(s.mem, Args(s, l, i, to)))
  {
    hide GetWord, Saved, Loaded, Frame, Caller, Apart, Suspended;
    var r, mine := Args(s, l, i, to), Home(l, i, s.cpus[i].cur);
    if Waits(s, c, l, t) {
      WhoRuns(s, i, s.cpus[i], t);
      HomesApart(l, i, s.cpus[i].cur, t);
      SavedElsewhere(s.mem, r, mine, l.stacks[t]);
      SuspendedAgrees(s.mem, Saved(s.mem, r), l.stacks[t], c[t]);
    }
    if s.cpus[i].cur < |l.stacks| {
      SavedSelf(s.mem, r, mine);
    }
  }

  /** One switch, on any CPU: the thread switched to gets back its context, and everything
      stays resumable, the thread just left with the context it had. */
  lemma SwitchResumes(s: System, c: Contexts, l: Layout, i: nat, to: nat)
    requires LayoutOk(l) && Legal(s, c, l, Switch(i, to)) && Resumable(s, c, l)
    ensures i < |After(s, c, l, Switch(i, to)).cpus|
    ensures ContextOf(After(s, c, l, Switch(i, to)).cpus[i].r) == c[to]
    ensures Has(After(s, c, l, Switch(i, to)).cpus[i].r, c[to])
    ensures Resumable(After(s, c, l, Switch(i, to)), Recorded(s, c, l, Switch(i, to)), l)
  {
    hide GetWord, Saved, Loaded, Frame, Caller, Apart;
    var r := Args(s, l, i, to);
    var m, q, c2 := Saved(s.mem, r), After(s, c, l, Switch(i, to)), Recorded(s, c, l, Switch(i, to));
    forall t: nat | Waits(q, c2, l, t)
      ensures Suspended(m, l.stacks[t], c2[t])
    {
      WhoRuns(s, i, q.cpus[i], t);
      SwitchSaves(s, c, l, i, to, t);
    }
    assert !Running(s, to);
    SwitchSaves(s, c, l, i, to, to);
    LoadedFrame(m, GetWord(m, r.rsi), r.rsi, c[to]);
  }

  lemma EventKeeps(s: System, c: Contexts, l: Layout, e: Event)
    requires LayoutOk(l) && Legal(s, c, l, e) && Resumable(s, c, l)
    ensures Resumable(After(s, c, l, e), Recorded(s, c, l, e), l)
  {
    hide Suspended;
    match e
    case Compute(i, m, r) =>
      var q := After(s, c, l, e);
      forall t: nat | Waits(q, c, l, t)
        ensures Suspended(m, l.stacks[t], c[t])
      {
        WhoRuns(s, i, q.cpus[i], t);
        SuspendedAgrees(s.mem, m, l.stacks[t], c[t]);
      }
    case Create(_, n, m, _) =>
      forall t: nat | Waits(s, c, l, t)
        ensures Suspended(m, l.stacks[t], c[t])
      {
        SuspendedAgrees(s.mem, m, l.stacks[t], c[t]);
      }
    case Switch(i, to) => SwitchResumes(s, c, l, i, to);
  }

  ghost predicate LegalRun(s: System, c: Contexts, l: Layout, es: seq<Event>)
    requires LayoutOk(l)
    decreases |es|
  {
    es == [] || (Legal(s, c, l, es[0]) && LegalRun(After(s, c, l, es[0]), Recorded(s, c, l, es[0]), l, es[1..]))
  }

  /** The state, and the contexts recorded, before event k. */
  ghost function Before(s: System, c: Contexts, l: Layout, es: seq<Event>, k: nat): (System, Contexts)
    requires LayoutOk(l) && k <= |es| && LegalRun(s, c, l, es)
    decreases k
  {
    if k == 0 then (s, c) else Before(After(s, c, l, es[0]), Recorded(s, c, l, es[0]), l, es[1..], k - 1)
  }

  lemma {:induction false} BeforeNext(s: System, c: Contexts, l: Layout, es: seq<Event>, k: nat)
    requires LayoutOk(l) && k < |es| && LegalRun(s, c, l, es)
    ensures var (sk, ck) := Before(s, c, l, es, k);
      Legal(sk, ck, l, es[k]) && Before(s, c, l, es, k + 1) == (After(sk, ck, l, es[k]), Recorded(sk, ck, l, es[k]))
    decreases k
  {
    hide Legal, After, Recorded, LayoutOk;
    if k == 0 {
      assert Before(s, c, l, es, 1) == Before(After(s, c, l, es[0]), Recorded(s, c, l, es[0]), l, es[1..], 0);
    } else {
      BeforeNext(After(s, c, l, es[0]), Recorded(s, c, l, es[0]), l, es[1..], k - 1);
    }
  }

  lemma {:induction false} RunKeeps(s: System, c: Contexts, l: Layout, es: seq<Event>, k: nat)
    requires LayoutOk(l) && k <= |es| && LegalRun(s, c, l, es) && Resumable(s, c, l)
    ensures Resumable(Before(s, c, l, es, k).0, Before(s, c, l, es, k).1, l)
    decreases k
  {
    hide Legal, After, Recorded, LayoutOk, Resumable;
    if k > 0 {
      RunKeeps(s, c, l, es, k - 1);
      BeforeNext(s, c, l, es, k - 1);
      EventKeeps(Before(s, c, l, es, k - 1).0, Before(s, c, l, es, k - 1).1, l, es[k - 1]);
    }
  }

  /** Event j switches away from thread t. */
  ghost predicate LeftAt(s: System, c: Contexts, l: Layout, es: seq<Event>, j: nat, t: nat)
    requires LayoutOk(l) && j < |es| && LegalRun(s, c, l, es)
  {
    && var q := Before(s, c, l, es, j).0;
    es[j].Switch? && es[j].i < |q.cpus| && q.cpus[es[j].i].cur == t
  }

  /** The context recorded for t before event k is the one it had when it was last left. */
  lemma {:induction false} RecordedIsLast(s: System, c: Contexts, l: Layout, es: seq<Event>, j: nat, k: nat, t: nat)
    requires LayoutOk(l) && j < k <= |es| && LegalRun(s, c, l, es) && t < |l.stacks| && LeftAt(s, c, l, es, j, t)
    requires forall i :: j < i < k ==> !LeftAt(s, c, l, es, i, t)
    ensures t in Before(s, c, l, es, k).1
    ensures var (sj, cj) := Before(s, c, l, es, j);
      es[j].to < |l.stacks| && Before(s, c, l, es, k).1[t] == Caller(sj.mem, Args(sj, l, es[j].i, es[j].to))
    decreases k
  {
    hide Before, LegalRun, After, Resumable, LayoutOk, Caller, Args, Agree, Home;
    BeforeNext(s, c, l, es, j);
    if k > j + 1 {
      RecordedIsLast(s, c, l, es, j, k - 1, t);
      BeforeNext(s, c, l, es, k - 1);
      assert !LeftAt(s, c, l, es, k - 1, t);
    }
  }

  /** The context recorded for t before event k is the first one if t was never left. */
  lemma {:induction false} RecordedIsFirst(s: System, c: Contexts, l: Layout, es: seq<Event>, k: nat, t: nat)
    requires LayoutOk(l) && k <= |es| && LegalRun(s, c, l, es) && t in c
    requires forall i: nat :: i < k ==> !LeftAt(s, c, l, es, i, t)
    ensures t in Before(s, c, l, es, k).1 && Before(s, c, l, es, k).1[t] == c[t]
    decreases k
  {
    hide Before, LegalRun, After, Resumable, LayoutOk, Caller, Args, WaitersAgree, Suspended, Home;
    NothingBefore(s, c, l, es);
    if k > 0 {
      RecordedIsFirst(s, c, l, es, k - 1, t);
      BeforeNext(s, c, l, es, k - 1);
      assert !LeftAt(s, c, l, es, k - 1, t);
    }
  }

  lemma CallerIs(m: Bytes, s: System, l: Layout, i: nat, to: nat, t: nat, y: Regs)
    requires LayoutOk(l) && i < |s.cpus| && to < |l.stacks| && s.cpus[i].cur == t < |l.stacks|
    requires ContextOf(y) == Caller(m, Args(s, l, i, to))
    ensures var x := s.cpus[i].r;
      && y.rsp == x.rsp + 8 && y.rip == GetWord(m, x.rsp) && y.rdi == l.stacks[t].cell
      && y.rbp == x.rbp && y.rbx == x.rbx && y.r12 == x.r12 && y.r13 == x.r13 && y.r14 == x.r14 && y.r15 == x.r15
  {
  }

  /** Whatever ran in between, a thread that is switched to goes on with the context it had
      at its last switch-out. */
  lemma ResumedAsLeft(s: System, c: Contexts, l: Layout, es: seq<Event>, j: nat, k: nat, t: nat)
    requires LayoutOk(l) && j < k < |es| && LegalRun(s, c, l, es) && Resumable(s, c, l)
    requires t < |l.stacks| && LeftAt(s, c, l, es, j, t) && es[k].Switch? && es[k].to == t
    requires forall i :: j < i < k ==> !LeftAt(s, c, l, es, i, t)
    ensures var (sj, cj) := Before(s, c, l, es, j);
      && es[j].to < |l.stacks|
      && es[k].i < |Before(s, c, l, es, k + 1).0.cpus|
      && ContextOf(Before(s, c, l, es, k + 1).0.cpus[es[k].i].r) == Caller(sj.mem, Args(sj, l, es[j].i, es[j].to))
    // register by register: x called switch_thread, and y goes on behind that call
    ensures var (sj, cj) := Before(s, c, l, es, j);
      var x, y := sj.cpus[es[j].i].r, Before(s, c, l, es, k + 1).0.cpus[es[k].i].r;
      && y.rsp == x.rsp + 8 && y.rip == GetWord(sj.mem, x.rsp) && y.rdi == l.stacks[t].cell
      && y.rbp == x.rbp && y.rbx == x.rbx && y.r12 == x.r12 && y.r13 == x.r13 && y.r14 == x.r14 && y.r15 == x.r15
  {
    hide After, Recorded, Resumable, LayoutOk, Caller, Args, LegalRun, ContextOf;
    RunKeeps(s, c, l, es, k);
    BeforeNext(s, c, l, es, k);
    RecordedIsLast(s, c, l, es, j, k, t);
    SwitchResumes(Before(s, c, l, es, k).0, Before(s, c, l, es, k).1, l, es[k].i, t);
    var q := Before(s, c, l, es, j).0;
    CallerIs(q.mem, q, l, es[j].i, es[j].to, t, Before(s, c, l, es, k + 1).0.cpus[es[k].i].r);
  }

  /** A thread that is switched to for the first time starts as it was laid out. */
  lemma StartedAsLaidOut(s: System, c: Contexts, l: Layout, es: seq<Event>, k: nat, t: nat)
    requires LayoutOk(l) && k < |es| && LegalRun(s, c, l, es) && Resumable(s, c, l)
    requires t in c && es[k].Switch? && es[k].to == t && forall i: nat :: i < k ==> !LeftAt(s, c, l, es, i, t)
    ensures es[k].i < |Before(s, c, l, es, k + 1).0.cpus|
    ensures Has(Before(s, c, l, es, k + 1).0.cpus[es[k].i].r, c[t])
  {
    hide After, Recorded, Resumable, LayoutOk, Caller, Args, LegalRun, ContextOf;
    RunKeeps(s, c, l, es, k);
    BeforeNext(s, c, l, es, k);
    RecordedIsFirst(s, c, l, es, k, t);
    SwitchResumes(Before(s, c, l, es, k).0, Before(s, c, l, es, k).1, l, es[k].i, t);
  }

  lemma NothingBefore(s: System, c: Contexts, l: Layout, es: seq<Event>)
    requires LayoutOk(l) && LegalRun(s, c, l, es)
    ensures Before(s, c, l, es, 0) == (s, c)
  {
  }

  /** The context recorded for a thread laid out at event j stays its first one until it has
      run and been left. */
  lemma {:induction false} RecordedIsEntry(s: System, c: Contexts, l: Layout, es: seq<Event>, j: nat, k: nat, t: nat)
    requires LayoutOk(l) && j < k <= |es| && LegalRun(s, c, l, es) && es[j].Create? && es[j].t == t
    requires forall i :: j < i < k ==> !LeftAt(s, c, l, es, i, t)
    ensures t < |l.stacks| && IsThreadStack(l.stacks[t]) && t in Before(s, c, l, es, k).1
    ensures Before(s, c, l, es, k).1[t] == Entry(l.stacks[t].lo, es[j].entry)
    decreases k
  {
    hide Before, LegalRun, After, Resumable, LayoutOk, Caller, Args, WaitersAgree, Suspended, Home, Entry;
    BeforeNext(s, c, l, es, j);
    if k > j + 1 {
      RecordedIsEntry(s, c, l, es, j, k - 1, t);
      BeforeNext(s, c, l, es, k - 1);
      assert !LeftAt(s, c, l, es, k - 1, t);
    }
  }

  /** A thread laid out during the run starts, when it is first switched to, at its entry with
      rdi its own structure and rbp 0. */
  lemma CreatedStartsAtEntry(s: System, c: Contexts, l: Layout, es: seq<Event>, j: nat, k: nat, t: nat)
    requires LayoutOk(l) && j < k < |es| && LegalRun(s, c, l, es) && Resumable(s, c, l)
    requires es[j].Create? && es[j].t == t && es[k].Switch? && es[k].to == t
    requires forall i :: j < i < k ==> !LeftAt(s, c, l, es, i, t)
    ensures t < |l.stacks| && IsThreadStack(l.stacks[t])
    ensures es[k].i < |Before(s, c, l, es, k + 1).0.cpus|
    ensures var y := Before(s, c, l, es, k + 1).0.cpus[es[k].i].r;
      y.rsp == y.rdi == l.stacks[t].lo + 3352 && y.rbp == 0 && y.rip == es[j].entry
  {
    hide After, Recorded, Resumable, LayoutOk, Caller, Args, LegalRun, ContextOf, Entry;
    RunKeeps(s, c, l, es, k);
    BeforeNext(s, c, l, es, k);
    RecordedIsEntry(s, c, l, es, j, k, t);
    SwitchResumes(Before(s, c, l, es, k).0, Before(s, c, l, es, k).1, l, es[k].i, t);
    EntryIs(l.stacks[t].lo, es[j].entry);
  }

  /** What new_thread does to memory is such an event, given memory no other thread uses. */
  lemma NewThreadIsCreate(s: System, c: Contexts, l: Layout, i: nat, t: nat, m: Bytes, entry: Word)
    requires LayoutOk(l) && i < |s.cpus| == |l.boots|
    requires t < |l.stacks| && !Running(s, t) && t !in c && IsThreadStack(l.stacks[t])
    requires forall u: nat :: Waits(s, c, l, u) ==>
      l.stacks[u].cell + 8 <= l.stacks[t].lo || l.stacks[t].lo + THREAD_STACK <= l.stacks[u].lo
    requires Suspended(m, l.stacks[t], Entry(l.stacks[t].lo, entry))
    requires forall b: nat :: b < l.stacks[t].lo || l.stacks[t].lo + THREAD_STACK <= b ==> At(m, b) == At(s.mem, b)
    ensures Legal(s, c, l, Create(i, t, m, entry))
  {
    hide Suspended, Entry;
  }
}
