/** Saving and restoring processes: the words that the processor, irq0 (sys/isr.s) and generate_timer
    put on a process's kernel stack, and a machine that switches stacks at scheduling ticks. */
module Context {
  import opened Words
  import opened Mmu
  import opened Scheduler

  /** The general registers, in the order in which irq0 pushes them. */
  datatype Regs = Regs(rdi: Word, rax: Word, rbx: Word, rcx: Word, rdx: Word, rbp: Word, rsi: Word, r8: Word,
                       r9: Word, r10: Word, r11: Word, r12: Word, r13: Word, r14: Word, r15: Word)

  /** What the processor pushes when it takes an interrupt and iretq pops (SDM Vol. 3A, section 6.14). */
  datatype Frame = Frame(rip: Word, cs: Word, rflags: Word, rsp: Word, ss: Word)

  /** All that a process can see of the processor. */
  datatype Cpu = Cpu(regs: Regs, frame: Frame)

  /** The words of memory that hold kernel stacks, by address; words never written read as zero. */
  type Stack = map<int, Word>

  function At(m: Stack, a: int): Word {
    if a in m then m[a] else 0
  }

  /** Bytes of a kernel stack: kstack[512]. */
  const KSTACK: nat := 4096
  /** Bytes between rsp and the top of a preempted process's frame: 22 words. */
  const SAVED: nat := 176

  // Where generate_timer returns to: behind the call in irq0, or, for the first dispatch of the idle
  // process, to the call itself. Offsets of the code of irq0.
  const IRQ0: Word := 0xffff_ffff_8020_0000
  const RESUME: Word := IRQ0 + 0x20
  const CALL_AGAIN: Word := IRQ0 + 0x1b

  const USER_CS: Word := 0x2b
  const USER_SS: Word := 0x23
  const KERNEL_CS: Word := 0x08
  const KERNEL_SS: Word := 0x10
  const RFLAGS: Word := 0x20_0202

  // ---- Pushing and popping ----

  /** The five words that the processor pushes below `top`. */
  function PushFrame(m: Stack, top: int, f: Frame): Stack {
    m[top - 8 := f.ss][top - 16 := f.rsp][top - 24 := f.rflags][top - 32 := f.cs][top - 40 := f.rip]
  }

  /** The fifteen pushes of irq0 below sp. */
  function PushRegs(m: Stack, sp: int, r: Regs): Stack {
    m[sp - 8 := r.rdi][sp - 16 := r.rax][sp - 24 := r.rbx][sp - 32 := r.rcx][sp - 40 := r.rdx]
     [sp - 48 := r.rbp][sp - 56 := r.rsi][sp - 64 := r.r8][sp - 72 := r.r9][sp - 80 := r.r10]
     [sp - 88 := r.r11][sp - 96 := r.r12][sp - 104 := r.r13][sp - 112 := r.r14][sp - 120 := r.r15]
  }

  /** The call of generate_timer, and the word that generate_timer keeps on the stack. */
  function PushCall(m: Stack, sp: int, w: Word): Stack {
    m[sp - 8 := RESUME][sp - 16 := w]
  }

  /** The fifteen pops of irq0. */
  function PopRegs(m: Stack, sp: int): Regs {
    Regs(r15 := At(m, sp), r14 := At(m, sp + 8), r13 := At(m, sp + 16), r12 := At(m, sp + 24),
         r11 := At(m, sp + 32), r10 := At(m, sp + 40), r9 := At(m, sp + 48), r8 := At(m, sp + 56),
         rsi := At(m, sp + 64), rbp := At(m, sp + 72), rdx := At(m, sp + 80), rcx := At(m, sp + 88),
         rbx := At(m, sp + 96), rax := At(m, sp + 104), rdi := At(m, sp + 112))
  }

  /** iretq. */
  function PopFrame(m: Stack, sp: int): Frame {
    Frame(At(m, sp), At(m, sp + 8), At(m, sp + 16), At(m, sp + 24), At(m, sp + 32))
  }

  /** What irq0 restores when generate_timer returns with its own word at sp. */
  function Restored(m: Stack, sp: int): Cpu {
    Cpu(PopRegs(m, sp + 16), PopFrame(m, sp + 136))
  }

  /** The stack of a process interrupted below `top`. */
  function Entered(m: Stack, top: int, c: Cpu): Stack {
    PushCall(PushRegs(PushFrame(m, top, c.frame), top - 40, c.regs), top - 160, c.regs.rbp)
  }

  lemma PushFrameKeeps(m: Stack, top: int, f: Frame)
    ensures PopFrame(PushFrame(m, top, f), top - 40) == f
    ensures forall a :: !(top - 40 <= a < top) ==> At(PushFrame(m, top, f), a) == At(m, a)
  {
  }

  lemma PushCallKeeps(m: Stack, sp: int, w: Word)
    ensures At(PushCall(m, sp, w), sp - 8) == RESUME
    ensures forall a :: !(sp - 16 <= a < sp) ==> At(PushCall(m, sp, w), a) == At(m, a)
  {
  }

  lemma SameRegs(m: Stack, m': Stack, sp: int)
    requires forall a :: sp <= a < sp + 120 ==> At(m', a) == At(m, a)
    ensures PopRegs(m', sp) == PopRegs(m, sp)
  {
  }

  lemma SameFrame(m: Stack, m': Stack, sp: int)
    requires forall a :: sp <= a < sp + 40 ==> At(m', a) == At(m, a)
    ensures PopFrame(m', sp) == PopFrame(m, sp)
  {
  }

  /** irq0 gives back what it saved: the pops mirror the pushes. */
  lemma EnteredRestores(m: Stack, top: int, c: Cpu)
    ensures Restored(Entered(m, top, c), top - SAVED) == c
    ensures At(Entered(m, top, c), top - SAVED + 8) == RESUME
    ensures forall a :: !(top - SAVED <= a < top) ==> At(Entered(m, top, c), a) == At(m, a)
  {
    hide PushFrame, PushRegs, PushCall, PopRegs, PopFrame, At;
    var m1 := PushFrame(m, top, c.frame);
    var m2 := PushRegs(m1, top - 40, c.regs);
    var m3 := PushCall(m2, top - 160, c.regs.rbp);
    PushFrameKeeps(m, top, c.frame);
    PushRegsKeeps(m1, top - 40, c.regs);
    PushCallKeeps(m2, top - 160, c.regs.rbp);
    SameFrame(m1, m2, top - 40);
    SameFrame(m2, m3, top - 40);
    SameRegs(m2, m3, top - 160);
  }

  lemma PushRegsKeeps(m: Stack, sp: int, r: Regs)
    ensures PopRegs(PushRegs(m, sp, r), sp - 120) == r
    ensures forall a :: !(sp - 120 <= a < sp) ==> At(PushRegs(m, sp, r), a) == At(m, a)
  {
    hide PushRegs, PopRegs, At;
    PushRegsRead(m, sp, r);
    PushRegsOutside(m, sp, r);
    RegsAre(PushRegs(m, sp, r), sp - 120, r);
  }

  /** Each of the fifteen words, at its place. */
  lemma PushRegsRead(m: Stack, sp: int, r: Regs)
    ensures RegsAt(PushRegs(m, sp, r), sp - 120, r)
  {
    hide At;
    FirstPushes(m, sp, r);
    LastPushes(FirstEight(m, sp, r), sp, r);
  }

  /** The first eight pushes; the other seven follow below. */
  function FirstEight(m: Stack, sp: int, r: Regs): Stack {
    m[sp - 8 := r.rdi][sp - 16 := r.rax][sp - 24 := r.rbx][sp - 32 := r.rcx][sp - 40 := r.rdx]
     [sp - 48 := r.rbp][sp - 56 := r.rsi][sp - 64 := r.r8]
  }

  function LastSeven(m: Stack, sp: int, r: Regs): Stack {
    m[sp - 72 := r.r9][sp - 80 := r.r10][sp - 88 := r.r11][sp - 96 := r.r12][sp - 104 := r.r13]
     [sp - 112 := r.r14][sp - 120 := r.r15]
  }

  lemma FirstPushes(m: Stack, sp: int, r: Regs)
    ensures var m' := FirstEight(m, sp, r);
            && At(m', sp - 8) == r.rdi && At(m', sp - 16) == r.rax && At(m', sp - 24) == r.rbx
            && At(m', sp - 32) == r.rcx && At(m', sp - 40) == r.rdx && At(m', sp - 48) == r.rbp
            && At(m', sp - 56) == r.rsi && At(m', sp - 64) == r.r8
  {
  }

  lemma LastPushes(m: Stack, sp: int, r: Regs)
    ensures var m' := LastSeven(m, sp, r);
            && At(m', sp - 72) == r.r9 && At(m', sp - 80) == r.r10 && At(m', sp - 88) == r.r11
            && At(m', sp - 96) == r.r12 && At(m', sp - 104) == r.r13 && At(m', sp - 112) == r.r14
            && At(m', sp - 120) == r.r15
            && forall a :: sp - 64 <= a ==> At(m', a) == At(m, a)
  {
  }

  predicate RegsAt(m: Stack, sp: int, r: Regs) {
    && At(m, sp) == r.r15 && At(m, sp + 8) == r.r14 && At(m, sp + 16) == r.r13 && At(m, sp + 24) == r.r12
    && At(m, sp + 32) == r.r11 && At(m, sp + 40) == r.r10 && At(m, sp + 48) == r.r9 && At(m, sp + 56) == r.r8
    && At(m, sp + 64) == r.rsi && At(m, sp + 72) == r.rbp && At(m, sp + 80) == r.rdx && At(m, sp + 88) == r.rcx
    && At(m, sp + 96) == r.rbx && At(m, sp + 104) == r.rax && At(m, sp + 112) == r.rdi
  }

  lemma RegsAre(m: Stack, sp: int, r: Regs)
    requires RegsAt(m, sp, r)
    ensures PopRegs(m, sp) == r
  {
    hide At;
  }

  lemma PushRegsOutside(m: Stack, sp: int, r: Regs)
    ensures forall a :: !(sp - 120 <= a < sp) ==> At(PushRegs(m, sp, r), a) == At(m, a)
  {
  }

  // ---- The machine ----

  /** The scheduler's state, the processor as the running process sees it, the stacks, the saved stack
      pointers, the address of each kernel stack, the processes that run in user mode, the stack
      pointer in the TSS, and the stack that was in use while booting. */
  datatype Machine<P> = Machine(sched: Sched<P>, cpu: Cpu, stack: Stack, rsp: map<P, int>,
                                kstack: map<P, Word>, users: set<P>, tss: int, boot: Word)

  /** In long mode the processor aligns the stack before it pushes. */
  function Align16(a: int): (b: int)
    ensures b <= a < b + 16 && b % 16 == 0
  {
    a - a % 16
  }

  function EntryTop<P>(s: Machine<P>): int {
    Align16(if s.cpu.frame.cs % 4 == 3 then s.tss else s.cpu.frame.rsp)
  }

  /** Whether this interrupt schedules. */
  predicate Schedules<P>(s: Sched<P>) {
    s.ticks + 1 == INTERVAL
  }

  /** A timer interrupt: the frame is pushed, generate_timer runs and may change stacks, the frame it
      returns to is popped. A process whose frame says so calls generate_timer once more. */
  function Irq<P>(s: Machine<P>): Machine<P> {
    var top := EntryTop(s);
    var m := Entered(s.stack, top, s.cpu);
    if !Schedules(s.sched) then s.(sched := Interrupt(s.sched), stack := m, cpu := Restored(m, top - SAVED))
    else Resume(Switched(s, m, top - SAVED))
  }

  /** The running process's stack pointer is saved, and the scheduler's choice gets the processor. */
  function HandOver<P>(s: Machine<P>, sched: Sched<P>, sp: int): Machine<P> {
    var next := if sched.current.Some? then sched.current.value else s.sched.idle;
    s.(sched := sched, rsp := if s.sched.current.Some? then s.rsp[s.sched.current.value := sp] else s.rsp,
       tss := if next in s.users && next in s.kstack then s.kstack[next] + 4088 else s.tss)
  }

  lemma HandOverApart<P>(s: Machine<P>, c: nat, sched: Sched<P>, sp: int)
    ensures HandOver(s.(sched := s.sched.(ticks := c)), sched, sp) == HandOver(s, sched, sp)
  {
  }

  /** generate_timer at a scheduling tick, called with the stack pointer at sp. */
  function Switched<P>(s: Machine<P>, m: Stack, sp: int): Machine<P> {
    HandOver(s.(stack := m), Interrupt(s.sched), sp)
  }

  function SavedAt<P>(s: Machine<P>, p: P): int {
    if p in s.rsp then s.rsp[p] else 0
  }

  function Running<P>(s: Machine<P>): P {
    if s.sched.current.Some? then s.sched.current.value else s.sched.idle
  }

  /** Returning from generate_timer on the stack of the process that now runs. */
  function Resume<P>(s: Machine<P>): Machine<P> {
    var sp := SavedAt(s, Running(s));
    if At(s.stack, sp + 8) == CALL_AGAIN then
      var m := PushCall(s.stack, sp + 16, At(s.stack, sp));
      s.(sched := Interrupt(s.sched), stack := m, cpu := Restored(m, sp))
    else s.(cpu := Restored(s.stack, sp))
  }

  /** schedule_user_process, for a process whose kernel stack is at k. */
  function Prepared<P>(s: Machine<P>, p: P, k: Word, entry: Word, pstack: Word, quantum: nat): Machine<P>
    requires k + KSTACK < WORD_LIMIT
  {
    s.(stack := s.stack[k + 4088 := USER_SS][k + 4080 := pstack][k + 4072 := RFLAGS][k + 4064 := USER_CS]
                       [k + 4056 := entry][k + 3928 := RESUME],
       rsp := s.rsp[p := k + 3920], kstack := s.kstack[p := k], users := s.users + {p},
       sched := Step(s.sched, Event.Arrive(p, quantum)))
  }

  // ---- What the machine is for ----

  /** The same machine with a processor for each process: nothing has to be saved or restored. */
  datatype Ideal<P> = Ideal(sched: Sched<P>, cpu: Cpu, contexts: map<P, Cpu>)

  datatype Action<P> =
    | Timer
    | Run(cpu: Cpu, stack: Stack)                  // the running process computes
    | Arrive(process: P, kstack: Word, entry: Word, pstack: Word, quantum: nat)

  function IdealTimer<P>(i: Ideal<P>): Ideal<P> {
    var sched := Interrupt(i.sched);
    if !Schedules(i.sched) || sched.current.None? then i.(sched := sched)
    else
      var contexts := if i.sched.current.Some? then i.contexts[i.sched.current.value := i.cpu] else i.contexts;
      var next := sched.current.value;
      Ideal(if i.sched.current.None? then Interrupt(sched) else sched,
            if next in contexts then contexts[next] else i.cpu, contexts)
  }

  function IdealStep<P>(i: Ideal<P>, e: Action<P>): Ideal<P> {
    match e
    case Timer => IdealTimer(i)
    case Run(cpu, _) => i.(cpu := cpu)
    case Arrive(p, k, entry, pstack, q) =>
      i.(sched := Step(i.sched, Event.Arrive(p, q)), contexts := i.contexts[p := FirstContext(entry, pstack)])
  }

  /** What a new process starts with: its entry point and its stack; registers zero. */
  function FirstContext(entry: Word, pstack: Word): Cpu {
    Cpu(Regs(0, 0, 0, 0, 0, 0, 0, 0, 0, 0, 0, 0, 0, 0, 0), Frame(entry, USER_CS, RFLAGS, pstack, USER_SS))
  }

  function MachineStep<P>(s: Machine<P>, e: Action<P>): Machine<P>
    requires e.Arrive? ==> e.kstack + KSTACK < WORD_LIMIT
  {
    match e
    case Timer => Irq(s)
    case Run(cpu, stack) => s.(cpu := cpu, stack := stack)
    case Arrive(p, k, entry, pstack, q) => Prepared(s, p, k, entry, pstack, q)
  }

  // ---- The invariant ----

  /** Whether a preempted process's frame lies in its kernel stack and holds c. */
  predicate FrameSaved(m: Stack, k: int, sp: int, c: Cpu, back: Word) {
    k <= sp && sp + SAVED <= k + KSTACK && Restored(m, sp) == c && At(m, sp + 8) == back
  }

  /** The lowest address of the stack in use. */
  function Own<P>(s: Machine<P>): int {
    if s.sched.current.Some? then KStackOf(s, s.sched.current.value) else s.boot
  }

  function KStackOf<P>(s: Machine<P>, p: P): int {
    if p in s.kstack then s.kstack[p] else 0
  }

  /** A user process runs in ring 3; a kernel process has room on its kernel stack. */
  predicate CpuFits(c: Cpu, user: bool, k: int) {
    if user then c.frame.cs % 4 == 3
    else c.frame.cs % 4 == 0 && k + SAVED + 16 <= c.frame.rsp <= k + KSTACK
  }

  predicate Suspended<P(==)>(s: Machine<P>, i: Ideal<P>, p: P) {
    && p in s.rsp && p in i.contexts && p in s.kstack
    && CpuFits(i.contexts[p], p in s.users, s.kstack[p])
    && FrameSaved(s.stack, s.kstack[p], s.rsp[p], i.contexts[p],
                  if p == s.sched.idle && s.sched.current.None? then CALL_AGAIN else RESUME)
  }

  predicate Apart(k: int, l: int) {
    k + KSTACK <= l || l + KSTACK <= k
  }

  predicate StackOk<P(==)>(s: Machine<P>, p: P)
    requires p in s.kstack
  {
    s.kstack[p] % 16 == 0 && s.kstack[p] + KSTACK < WORD_LIMIT && Apart(s.kstack[p], s.boot)
  }

  /** The kernel stacks are disjoint, and every process that is scheduled has one. */
  ghost predicate Layout<P>(s: Machine<P>) {
    && (forall p :: p in s.kstack ==> StackOk(s, p))
    && (forall p, q :: p in s.kstack && q in s.kstack && p != q ==> Apart(s.kstack[p], s.kstack[q]))
    && s.sched.idle in s.kstack && s.sched.ticks < INTERVAL
    && (forall p :: p in All(s.sched) ==> p in s.kstack)
    && (forall p :: p in s.users ==> p in s.kstack)
    && s.sched.idle !in s.users
  }

  predicate RunningFits<P(==)>(s: Machine<P>) {
    && CpuFits(s.cpu, s.sched.current.Some? && s.sched.current.value in s.users, Own(s))
    && (s.sched.current.Some? && s.sched.current.value in s.users
       ==> s.tss == KStackOf(s, s.sched.current.value) + 4088)
  }

  /** The machine and its ideal agree: on what runs, and on what each suspended process will find. */
  ghost predicate Refines<P>(s: Machine<P>, i: Ideal<P>) {
    && i.sched == s.sched && i.cpu == s.cpu
    && Layout(s) && RunningFits(s)
    && forall p :: p in s.kstack && s.sched.current != Some(p) ==> Suspended(s, i, p)
  }

  /** Frames do not depend on memory outside their stack. */
  lemma FrameKept(m: Stack, m': Stack, k: int, sp: int, c: Cpu, back: Word)
    requires FrameSaved(m, k, sp, c, back)
    requires forall a :: k <= a < k + KSTACK ==> At(m', a) == At(m, a)
    ensures FrameSaved(m', k, sp, c, back)
  {
    hide At, PopRegs, PopFrame;
    SameRegs(m, m', sp + 16);
    SameFrame(m, m', sp + 136);
  }

  /** An interrupt's frame lies in the stack in use. */
  lemma TopFits<P>(s: Machine<P>)
    requires Layout(s) && RunningFits(s)
    ensures Own(s) + SAVED <= EntryTop(s) <= Own(s) + KSTACK
  {
    if s.sched.current.Some? {
      var c := s.sched.current.value;
      assert All(s.sched)[0] == c;
      assert StackOk(s, c);
    }
  }

  /** Pushing a frame keeps the frames of all suspended processes, and can be undone. */
  lemma EnteredKeeps<P>(s: Machine<P>, i: Ideal<P>, m: Stack)
    requires Refines(s, i) && m == Entered(s.stack, EntryTop(s), s.cpu)
    ensures FrameSaved(m, Own(s), EntryTop(s) - SAVED, s.cpu, RESUME)
    ensures forall p :: p in s.kstack && s.sched.current != Some(p) ==> Suspended(s.(stack := m), i, p)
  {
    hide Entered, Restored, At, EntryTop, FrameSaved;
    TopFits(s);
    EnteredRestores(s.stack, EntryTop(s), s.cpu);
    MakeFrame(m, Own(s), EntryTop(s) - SAVED, s.cpu, RESUME);
    forall p | p in s.kstack && s.sched.current != Some(p)
      ensures Suspended(s.(stack := m), i, p)
    {
      StacksApart(s, p);
      assert Suspended(s, i, p);
      FrameKept(s.stack, m, s.kstack[p], s.rsp[p], i.contexts[p],
                if p == s.sched.idle && s.sched.current.None? then CALL_AGAIN else RESUME);
    }
  }

  lemma MakeFrame(m: Stack, k: int, sp: int, c: Cpu, back: Word)
    requires k <= sp && sp + SAVED <= k + KSTACK && Restored(m, sp) == c && At(m, sp + 8) == back
    ensures FrameSaved(m, k, sp, c, back)
  {
  }

  lemma StacksApart<P>(s: Machine<P>, p: P)
    requires Layout(s) && p in s.kstack && s.sched.current != Some(p)
    ensures Apart(s.kstack[p], Own(s))
  {
    if s.sched.current.Some? {
      assert All(s.sched)[0] == s.sched.current.value;
    } else {
      assert StackOk(s, p);
    }
  }

  /** Between scheduling ticks an interrupt leaves the process as it was. */
  lemma QuietIrq<P>(s: Machine<P>, i: Ideal<P>)
    requires Refines(s, i) && !Schedules(s.sched)
    ensures Refines(Irq(s), IdealTimer(i))
  {
    hide Entered, EntryTop, Restored;
    var m := Entered(s.stack, EntryTop(s), s.cpu);
    EnteredKeeps(s, i, m);
    var t, j := Irq(s), IdealTimer(i);
    assert t == s.(sched := s.sched.(ticks := s.sched.ticks + 1), stack := m);
    assert All(t.sched) == All(s.sched);
    forall p | p in t.kstack && t.sched.current != Some(p)
      ensures Suspended(t, j, p)
    {
      assert Suspended(s.(stack := m), i, p);
    }
    forall p | p in t.kstack
      ensures StackOk(t, p)
    {
      assert StackOk(s, p);
    }
  }

  /** The scheduler at a scheduling tick: whoever runs then was ready, running or idle. */
  lemma NextKnown<P>(s: Sched<P>)
    requires Schedules(s)
    ensures var t := Interrupt(s);
            && t.current.Some? && t.idle == s.idle && t.ticks == 0
            && (s.current.None? ==> t.current == Some(s.idle))
            && (forall p :: p in All(t) ==> p in All(s) || p == s.idle)
  {
    var t := Interrupt(s);
    forall p | p in All(t)
      ensures p in All(s) || p == s.idle
    {
      if s.current.Some? { assert All(s)[0] == s.current.value; }
      if s.ready != [] { assert s.ready == [s.ready[0]] + s.ready[1..]; }
      assert forall x :: x in s.ready ==> x in All(s);
    }
  }

  /** A scheduling tick: the running process's frame becomes its saved one, and the next process's
      frame is found as it was left. */
  lemma SwitchSaves<P>(s: Machine<P>, i: Ideal<P>, m: Stack)
    requires Refines(s, i) && Schedules(s.sched) && m == Entered(s.stack, EntryTop(s), s.cpu)
    ensures var t := Switched(s, m, EntryTop(s) - SAVED);
            var contexts := if i.sched.current.Some? then i.contexts[i.sched.current.value := i.cpu] else i.contexts;
            var j := Ideal(t.sched, i.cpu, contexts);
            && Layout(t) && t.sched == Interrupt(s.sched) && t.sched.current.Some?
            && t.kstack == s.kstack && t.users == s.users && t.stack == m
            && (t.sched.current.value in t.users ==> t.tss == KStackOf(t, t.sched.current.value) + 4088)
            && forall p :: p in t.kstack ==>
                 SuspendedWith(t, j, p, if p == s.sched.idle && s.sched.current.None? then CALL_AGAIN else RESUME)
  {
    hide Entered, EntryTop, Restored, FrameSaved, Interrupt;
    EnteredKeeps(s, i, m);
    TopFits(s);
    NextKnown(s.sched);
    var t := Switched(s, m, EntryTop(s) - SAVED);
    var contexts := if i.sched.current.Some? then i.contexts[i.sched.current.value := i.cpu] else i.contexts;
    var j := Ideal(t.sched, i.cpu, contexts);
    if s.sched.current.Some? {
      assert All(s.sched)[0] == s.sched.current.value;
      assert StackOk(s, s.sched.current.value);
    }
    forall p | p in t.kstack
      ensures SuspendedWith(t, j, p, if p == s.sched.idle && s.sched.current.None? then CALL_AGAIN else RESUME)
      ensures StackOk(t, p)
    {
      assert StackOk(s, p);
      if s.sched.current != Some(p) { assert Suspended(s.(stack := m), i, p); }
    }
    assert forall p :: p in All(t.sched) ==> p in t.kstack;
    assert t.sched.current.value == All(t.sched)[0];
  }

  predicate SuspendedWith<P(==)>(s: Machine<P>, i: Ideal<P>, p: P, back: Word) {
    && p in s.rsp && p in i.contexts && p in s.kstack
    && CpuFits(i.contexts[p], p in s.users, s.kstack[p])
    && FrameSaved(s.stack, s.kstack[p], s.rsp[p], i.contexts[p], back)
  }

  /** Returning through the frame of a process gives it its registers back; a frame that calls
      generate_timer once more stays intact. */
  lemma CallAgainKeeps(m: Stack, k: int, sp: int, c: Cpu)
    requires FrameSaved(m, k, sp, c, CALL_AGAIN)
    ensures var m' := PushCall(m, sp + 16, At(m, sp));
            Restored(m', sp) == c && forall a :: !(k <= a < k + KSTACK) ==> At(m', a) == At(m, a)
  {
    hide PopRegs, PopFrame, PushCall, At;
    var m' := PushCall(m, sp + 16, At(m, sp));
    PushCallKeeps(m, sp + 16, At(m, sp));
    SameRegs(m, m', sp + 16);
    SameFrame(m, m', sp + 136);
  }

  lemma QuietSched<P>(s: Sched<P>)
    requires s.ticks == 0
    ensures Interrupt(s) == s.(ticks := 1) && All(Interrupt(s)) == All(s)
  {
  }

  /** The idle process's first dispatch: it calls generate_timer again, which only counts, and
      then starts with the context that was prepared for it. */
  lemma FirstResume<P>(t: Machine<P>, j: Ideal<P>)
    requires Layout(t) && t.sched == j.sched && t.sched.current == Some(t.sched.idle) && t.sched.ticks == 0
    requires forall p :: p in t.kstack ==> SuspendedWith(t, j, p, if p == t.sched.idle then CALL_AGAIN else RESUME)
    ensures t.sched.idle in j.contexts
    ensures Refines(Resume(t), j.(sched := Interrupt(t.sched), cpu := j.contexts[t.sched.idle]))
  {
    hide Restored, PushCall, Interrupt, At;
    var n := t.sched.idle;
    QuietSched(t.sched);
    assert SuspendedWith(t, j, n, CALL_AGAIN);
    var k, sp := t.kstack[n], t.rsp[n];
    assert At(t.stack, sp + 8) == CALL_AGAIN;
    CallAgainKeeps(t.stack, k, sp, j.contexts[n]);
    var u, j' := Resume(t), j.(sched := Interrupt(t.sched), cpu := j.contexts[n]);
    forall p | p in u.kstack
      ensures StackOk(u, p)
      ensures p != n ==> Suspended(u, j', p)
    {
      assert StackOk(t, p);
      if p != n {
        assert SuspendedWith(t, j, p, RESUME);
        FrameKept(t.stack, u.stack, t.kstack[p], t.rsp[p], j.contexts[p], RESUME);
      }
    }
  }

  lemma LaterResume<P>(t: Machine<P>, j: Ideal<P>)
    requires Layout(t) && t.sched == j.sched && t.sched.current.Some?
    requires t.sched.current.value in t.kstack
    requires t.sched.current.value in t.users ==> t.tss == KStackOf(t, t.sched.current.value) + 4088
    requires forall p :: p in t.kstack ==> SuspendedWith(t, j, p, RESUME)
    ensures t.sched.current.value in j.contexts
    ensures Refines(Resume(t), j.(cpu := j.contexts[t.sched.current.value]))
  {
    hide Restored, PushCall, At;
    var n := t.sched.current.value;
    assert SuspendedWith(t, j, n, RESUME);
    assert At(t.stack, t.rsp[n] + 8) == RESUME;
    var u, j' := Resume(t), j.(cpu := j.contexts[n]);
    forall p | p in u.kstack
      ensures StackOk(u, p)
      ensures p != n ==> Suspended(u, j', p)
    {
      assert StackOk(t, p);
      assert SuspendedWith(t, j, p, RESUME);
    }
  }

  lemma TimerRefines<P>(s: Machine<P>, i: Ideal<P>)
    requires Refines(s, i)
    ensures Refines(Irq(s), IdealTimer(i))
  {
    hide Entered, EntryTop, Restored, FrameSaved, Interrupt, Resume, SuspendedWith;
    if !Schedules(s.sched) {
      QuietIrq(s, i);
    } else {
      var m := Entered(s.stack, EntryTop(s), s.cpu);
      var t := Switched(s, m, EntryTop(s) - SAVED);
      var contexts := if i.sched.current.Some? then i.contexts[i.sched.current.value := i.cpu] else i.contexts;
      var j := Ideal(t.sched, i.cpu, contexts);
      SwitchSaves(s, i, m);
      NextKnown(s.sched);
      assert t.sched.current.value == All(t.sched)[0];
      var n := t.sched.current.value;
      SuspendedKnown(t, j, n, if n == s.sched.idle && s.sched.current.None? then CALL_AGAIN else RESUME);
      if s.sched.current.None? {
        FirstResume(t, j);
      } else {
        LaterResume(t, j);
      }
    }
  }

  lemma SuspendedKnown<P>(s: Machine<P>, i: Ideal<P>, p: P, back: Word)
    requires SuspendedWith(s, i, p, back)
    ensures p in i.contexts
  {
  }

  // ---- Runs ----

  /** What may happen: the running process keeps to its ring and to its own kernel stack, and a new
      process comes with a zeroed stack of its own. */
  ghost predicate Allowed<P>(s: Machine<P>, e: Action<P>) {
    match e
    case Timer => true
    case Run(cpu, stack) =>
      RunningFits(s.(cpu := cpu)) && forall a :: !(Own(s) <= a < Own(s) + KSTACK) ==> At(stack, a) == At(s.stack, a)
    case Arrive(p, k, entry, pstack, q) =>
      && p !in s.kstack && k % 16 == 0 && k + KSTACK < WORD_LIMIT && Apart(k, s.boot)
      && (forall r :: r in s.kstack ==> Apart(k, s.kstack[r]))
      && (forall a :: k <= a < k + KSTACK ==> At(s.stack, a) == 0)
  }

  lemma RunRefines<P>(s: Machine<P>, i: Ideal<P>, cpu: Cpu, stack: Stack)
    requires Refines(s, i) && Allowed(s, Run(cpu, stack))
    ensures Refines(MachineStep(s, Run(cpu, stack)), IdealStep(i, Run(cpu, stack)))
  {
    hide FrameSaved, At;
    var t, j := MachineStep(s, Run(cpu, stack)), IdealStep(i, Run(cpu, stack));
    forall p | p in t.kstack
      ensures StackOk(t, p)
      ensures t.sched.current != Some(p) ==> Suspended(t, j, p)
    {
      assert StackOk(s, p);
      if t.sched.current != Some(p) {
        assert Suspended(s, i, p);
        StacksApart(s, p);
        FrameKept(s.stack, t.stack, s.kstack[p], s.rsp[p], i.contexts[p],
                  if p == s.sched.idle && s.sched.current.None? then CALL_AGAIN else RESUME);
      }
    }
  }

  /** The six words that prepare a stack. */
  function Prepare(m: Stack, k: Word, f: Frame, back: Word): Stack {
    m[k + 4088 := f.ss][k + 4080 := f.rsp][k + 4072 := f.rflags][k + 4064 := f.cs][k + 4056 := f.rip][k + 3928 := back]
  }

  lemma PrepareWords(m: Stack, k: Word, f: Frame, back: Word)
    ensures var m' := Prepare(m, k, f, back);
            && At(m', k + 3928) == back && PopFrame(m', k + 4056) == f
            && (forall a :: a != k + 3928 && !(k + 4056 <= a < k + KSTACK) ==> At(m', a) == At(m, a))
  {
  }

  /** The same by the indices of kstack. */
  predicate KStackWords(m: Stack, k: Word, rip: Word, cs: Word, rsp: Word, ss: Word, back: Word) {
    && At(m, k + 8 * 511) == ss && At(m, k + 8 * 510) == rsp && At(m, k + 8 * 509) == 0x20_0202
    && At(m, k + 8 * 508) == cs && At(m, k + 8 * 507) == rip && At(m, k + 8 * 491) == back
  }

  lemma PrepareIndices(m: Stack, k: Word, f: Frame, back: Word)
    requires f.rflags == 0x20_0202
    ensures KStackWords(Prepare(m, k, f, back), k, f.rip, f.cs, f.rsp, f.ss, back)
  {
  }

  lemma ZeroRegs(m: Stack, sp: int)
    requires forall a :: sp <= a < sp + 120 ==> At(m, a) == 0
    ensures PopRegs(m, sp) == FirstContext(0, 0).regs
  {
  }

  lemma PreparedFrame(m: Stack, k: Word, f: Frame, back: Word)
    requires forall a :: k <= a < k + KSTACK ==> At(m, a) == 0
    ensures FrameSaved(Prepare(m, k, f, back), k, k + 3920, Cpu(FirstContext(0, 0).regs, f), back)
    ensures forall a :: !(k <= a < k + KSTACK) ==> At(Prepare(m, k, f, back), a) == At(m, a)
  {
    hide Prepare, At, PopRegs, PopFrame, FirstContext;
    PrepareWords(m, k, f, back);
    ZeroRegs(Prepare(m, k, f, back), k + 3936);
  }

  lemma FirstFits(entry: Word, pstack: Word, k: int)
    ensures CpuFits(FirstContext(entry, pstack), true, k)
    ensures FirstContext(entry, pstack) == Cpu(FirstContext(0, 0).regs, FirstContext(entry, pstack).frame)
  {
  }

  /** A new process's stack lies apart from the others. */
  lemma ArriveLayout<P>(s: Machine<P>, p: P, k: Word, entry: Word, pstack: Word, q: nat)
    requires Layout(s) && Allowed(s, Action.Arrive(p, k, entry, pstack, q))
    ensures Layout(Prepared(s, p, k, entry, pstack, q))
  {
    hide At;
    var t := Prepared(s, p, k, entry, pstack, q);
    assert All(t.sched) == All(s.sched) + [p];
    forall r | r in t.kstack
      ensures StackOk(t, r)
    {
      assert r != p ==> StackOk(s, r);
    }
  }

  lemma ArriveRunning<P>(s: Machine<P>, p: P, k: Word, entry: Word, pstack: Word, q: nat)
    requires Layout(s) && RunningFits(s) && Allowed(s, Action.Arrive(p, k, entry, pstack, q))
    ensures RunningFits(Prepared(s, p, k, entry, pstack, q))
  {
    hide At, CpuFits;
    assert s.sched.current.Some? ==> All(s.sched)[0] == s.sched.current.value;
    assert Own(Prepared(s, p, k, entry, pstack, q)) == Own(s);
  }

  /** The others' saved frames stay, and the new process finds its first one. */
  lemma ArriveSuspends<P>(s: Machine<P>, i: Ideal<P>, p: P, k: Word, entry: Word, pstack: Word, q: nat, r: P)
    requires Refines(s, i) && Allowed(s, Action.Arrive(p, k, entry, pstack, q))
    requires s.sched.current != Some(r) && (r == p || r in s.kstack)
    ensures Suspended(Prepared(s, p, k, entry, pstack, q), IdealStep(i, Action.Arrive(p, k, entry, pstack, q)), r)
  {
    hide FrameSaved, At, Prepare, CpuFits, FirstContext, RunningFits;
    var c := FirstContext(entry, pstack);
    FirstFits(entry, pstack, k);
    PreparedFrame(s.stack, k, c.frame, RESUME);
    PreparedIs(s, p, k, entry, pstack, q);
    if r != p {
      assert Suspended(s, i, r);
      FrameKept(s.stack, Prepare(s.stack, k, c.frame, RESUME), s.kstack[r], s.rsp[r], i.contexts[r],
                if r == s.sched.idle && s.sched.current.None? then CALL_AGAIN else RESUME);
    }
  }

  lemma ArriveRefines<P>(s: Machine<P>, i: Ideal<P>, p: P, k: Word, entry: Word, pstack: Word, q: nat)
    requires Refines(s, i) && Allowed(s, Action.Arrive(p, k, entry, pstack, q))
    ensures var e := Action.Arrive(p, k, entry, pstack, q); Refines(MachineStep(s, e), IdealStep(i, e))
  {
    hide Layout, RunningFits, Suspended;
    var e := Action.Arrive(p, k, entry, pstack, q);
    var t, j := MachineStep(s, e), IdealStep(i, e);
    ArriveLayout(s, p, k, entry, pstack, q);
    ArriveRunning(s, p, k, entry, pstack, q);
    forall r | r in t.kstack && t.sched.current != Some(r)
      ensures Suspended(t, j, r)
    {
      ArriveSuspends(s, i, p, k, entry, pstack, q, r);
    }
  }

  lemma PreparedIs<P>(s: Machine<P>, p: P, k: Word, entry: Word, pstack: Word, q: nat)
    requires k + KSTACK < WORD_LIMIT
    ensures Prepared(s, p, k, entry, pstack, q).stack == Prepare(s.stack, k, FirstContext(entry, pstack).frame, RESUME)
  {
  }

  lemma StepRefines<P>(s: Machine<P>, i: Ideal<P>, e: Action<P>)
    requires Refines(s, i) && Allowed(s, e)
    ensures Refines(MachineStep(s, e), IdealStep(i, e))
  {
    match e
    case Timer => TimerRefines(s, i);
    case Run(cpu, stack) => RunRefines(s, i, cpu, stack);
    case Arrive(p, k, entry, pstack, q) => ArriveRefines(s, i, p, k, entry, pstack, q);
  }

  ghost predicate AllAllowed<P>(s: Machine<P>, es: seq<Action<P>>)
    decreases |es|
  {
    es == [] || (Allowed(s, es[0]) && AllAllowed(MachineStep(s, es[0]), es[1..]))
  }

  ghost function MachineRun<P>(s: Machine<P>, es: seq<Action<P>>): Machine<P>
    requires AllAllowed(s, es)
    decreases |es|
  {
    if es == [] then s else MachineRun(MachineStep(s, es[0]), es[1..])
  }

  function IdealRun<P>(i: Ideal<P>, es: seq<Action<P>>): Ideal<P>
    decreases |es|
  {
    if es == [] then i else IdealRun(IdealStep(i, es[0]), es[1..])
  }

  /** Over any interleaving of interrupts, computing and arrivals, one processor that saves and
      restores behaves like one processor for each process. */
  lemma {:induction false} RunsRefine<P>(s: Machine<P>, i: Ideal<P>, es: seq<Action<P>>)
    requires Refines(s, i) && AllAllowed(s, es)
    ensures Refines(MachineRun(s, es), IdealRun(i, es))
    decreases |es|
  {
    hide Refines, MachineStep, IdealStep;
    if es != [] {
      StepRefines(s, i, es[0]);
      RunsRefine(MachineStep(s, es[0]), IdealStep(i, es[0]), es[1..]);
    }
  }

  /** Whether p stays off the processor in all states of the run. */
  ghost predicate Away<P>(s: Machine<P>, es: seq<Action<P>>, p: P)
    requires AllAllowed(s, es)
    decreases |es|
  {
    s.sched.current != Some(p) && (es == [] || Away(MachineStep(s, es[0]), es[1..], p))
  }

  /** While p is away, its context waits. */
  lemma {:induction false} ContextWaits<P>(s: Machine<P>, i: Ideal<P>, es: seq<Action<P>>, p: P)
    requires Refines(s, i) && AllAllowed(s, es) && Away(s, es, p) && p in s.kstack
    ensures p in i.contexts && p in MachineRun(s, es).kstack
    ensures p in IdealRun(i, es).contexts && IdealRun(i, es).contexts[p] == i.contexts[p]
    decreases |es|
  {
    hide MachineStep, Layout, FrameSaved, RunningFits, Interrupt;
    assert Suspended(s, i, p);
    if es != [] {
      StepRefines(s, i, es[0]);
      StacksStay(s, es[0]);
      ContextWaits(MachineStep(s, es[0]), IdealStep(i, es[0]), es[1..], p);
    }
  }

  lemma StacksStay<P>(s: Machine<P>, e: Action<P>)
    requires Allowed(s, e)
    ensures forall p :: p in s.kstack ==> p in MachineStep(s, e).kstack && (e.Arrive? ==> p != e.process)
  {
    hide Entered, Restored, Interrupt, PushCall;
  }

  /** The context in which p is dispatched is the one that waits for it. */
  lemma DispatchResumes<P>(s: Machine<P>, i: Ideal<P>, p: P)
    requires Refines(s, i) && s.sched.current != Some(p) && p in s.kstack && Irq(s).sched.current == Some(p)
    ensures p in i.contexts && Irq(s).cpu == i.contexts[p]
  {
    hide Irq, Layout, FrameSaved, RunningFits, Tick;
    assert Suspended(s, i, p);
    TimerRefines(s, i);
    if Schedules(s.sched) {
      NextKnown(s.sched);
      var t := Interrupt(s.sched);
      assert IdealTimer(i).sched.current == t.current;
    }
  }

  /** Context round trip: a process that is preempted by the timer, stays off the processor over any
      run, and is then dispatched again finds all fifteen registers and its instruction pointer,
      flags, stack pointer and segments as they were. */
  lemma RoundTrip<P>(s: Machine<P>, i: Ideal<P>, es: seq<Action<P>>, p: P)
    requires Refines(s, i) && s.sched.current == Some(p)
    requires AllAllowed(Irq(s), es) && Away(Irq(s), es, p)
    requires Irq(MachineRun(Irq(s), es)).sched.current == Some(p)
    ensures Irq(MachineRun(Irq(s), es)).cpu == s.cpu
  {
    hide Irq, MachineRun, IdealRun, Suspended, RunningFits, Interrupt;
    var s1, i1 := Irq(s), IdealTimer(i);
    TimerRefines(s, i);
    PreemptedIs(s, i, p);
    ContextWaits(s1, i1, es, p);
    RunsRefine(s1, i1, es);
    NotRunning(s1, es, p);
    DispatchResumes(MachineRun(s1, es), IdealRun(i1, es), p);
  }

  lemma PreemptedIs<P>(s: Machine<P>, i: Ideal<P>, p: P)
    requires Refines(s, i) && s.sched.current == Some(p) && Irq(s).sched.current != Some(p)
    ensures p in Irq(s).kstack && p in IdealTimer(i).contexts && IdealTimer(i).contexts[p] == s.cpu
  {
    hide Tick, Entered, Restored, PushCall;
    assert All(s.sched)[0] == p;
    if Schedules(s.sched) {
      NextKnown(s.sched);
    }
  }

  lemma {:induction false} NotRunning<P>(s: Machine<P>, es: seq<Action<P>>, p: P)
    requires AllAllowed(s, es) && Away(s, es, p)
    ensures MachineRun(s, es).sched.current != Some(p)
    decreases |es|
  {
    hide MachineStep;
    if es != [] {
      NotRunning(MachineStep(s, es[0]), es[1..], p);
    }
  }

  /** First dispatch: a process prepared by schedule_user_process starts in ring 3 at its entry point
      with its own stack, whatever has happened since. */
  lemma FirstDispatch<P>(s: Machine<P>, i: Ideal<P>, e: Action<P>, es: seq<Action<P>>)
    requires Refines(s, i) && e.Arrive? && Allowed(s, e)
    requires AllAllowed(MachineStep(s, e), es) && Away(MachineStep(s, e), es, e.process)
    requires Irq(MachineRun(MachineStep(s, e), es)).sched.current == Some(e.process)
    ensures var c := Irq(MachineRun(MachineStep(s, e), es)).cpu;
            && c.frame.rip == e.entry && c.frame.rsp == e.pstack && c.frame.rflags == 0x20_0202
            && c.frame.cs == 0x2b && c.frame.ss == 0x23
            && c.regs == Regs(0, 0, 0, 0, 0, 0, 0, 0, 0, 0, 0, 0, 0, 0, 0)
  {
    hide Irq, MachineRun, IdealRun, Suspended, RunningFits, Layout;
    var s1, i1, p := MachineStep(s, e), IdealStep(i, e), e.process;
    StepRefines(s, i, e);
    ContextWaits(s1, i1, es, p);
    RunsRefine(s1, i1, es);
    NotRunning(s1, es, p);
    DispatchResumes(MachineRun(s1, es), IdealRun(i1, es), p);
  }

  // ---- The start ----

  /** The machine after scheduler_init and schedule_idle_process, still running the boot code. */
  function Begin<P>(idle: P, k: Word, functionPointer: Word, cpu: Cpu, stack: Stack, boot: Word): Machine<P>
    requires k + KSTACK < WORD_LIMIT
  {
    Machine(Sched(idle, None, [], map[idle := QUANTUM], 0), cpu,
            Prepare(stack, k, IdleFrame(k, functionPointer), CALL_AGAIN),
            map[idle := k + 3920], map[idle := k], {}, 0, boot)
  }

  function IdleFrame(k: Word, functionPointer: Word): Frame
    requires k + KSTACK < WORD_LIMIT
  {
    Frame(functionPointer, KERNEL_CS, RFLAGS, k + 4088, KERNEL_SS)
  }

  /** What the idle process will start with. */
  function IdleContext(k: Word, functionPointer: Word): Cpu
    requires k + KSTACK < WORD_LIMIT
  {
    Cpu(FirstContext(0, 0).regs, IdleFrame(k, functionPointer))
  }

  /** The machine starts out like its ideal. */
  lemma BeginRefines<P>(idle: P, k: Word, functionPointer: Word, cpu: Cpu, stack: Stack, boot: Word)
    requires k + KSTACK < WORD_LIMIT && k % 16 == 0 && Apart(k, boot) && CpuFits(cpu, false, boot)
    requires forall a :: k <= a < k + KSTACK ==> At(stack, a) == 0
    ensures var s := Begin(idle, k, functionPointer, cpu, stack, boot);
            Refines(s, Ideal(s.sched, cpu, map[idle := IdleContext(k, functionPointer)]))
  {
    hide FrameSaved, Prepare;
    PreparedFrame(stack, k, IdleFrame(k, functionPointer), CALL_AGAIN);
  }

  /** Idle's first dispatch: after the second call of generate_timer it starts in ring 0 at the function
      that schedule_idle_process was given, with rsp at the top word of its kernel stack. */
  lemma IdleDispatch<P>(idle: P, k: Word, functionPointer: Word, cpu: Cpu, stack: Stack, boot: Word, es: seq<Action<P>>)
    requires k + KSTACK < WORD_LIMIT && k % 16 == 0 && Apart(k, boot) && CpuFits(cpu, false, boot)
    requires forall a :: k <= a < k + KSTACK ==> At(stack, a) == 0
    requires var s := Begin(idle, k, functionPointer, cpu, stack, boot);
             && AllAllowed(s, es) && Away(s, es, idle) && Irq(MachineRun(s, es)).sched.current == Some(idle)
    ensures var c := Irq(MachineRun(Begin(idle, k, functionPointer, cpu, stack, boot), es)).cpu;
            && c.frame.rip == functionPointer && c.frame.rsp == k + 8 * 511 && c.frame.rflags == 0x20_0202
            && c.frame.cs == 0x08 && c.frame.ss == 0x10
            && c.regs == Regs(0, 0, 0, 0, 0, 0, 0, 0, 0, 0, 0, 0, 0, 0, 0)
  {
    hide Irq, MachineRun, IdealRun, Suspended, RunningFits, Layout, Prepare, CpuFits, Interrupt;
    var s := Begin(idle, k, functionPointer, cpu, stack, boot);
    var i := Ideal(s.sched, cpu, map[idle := IdleContext(k, functionPointer)]);
    BeginRefines(idle, k, functionPointer, cpu, stack, boot);
    ContextWaits(s, i, es, idle);
    RunsRefine(s, i, es);
    NotRunning(s, es, idle);
    DispatchResumes(MachineRun(s, es), IdealRun(i, es), idle);
  }
}
