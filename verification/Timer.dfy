/** sys/isr.c, sys/schedule.c and irq0 of sys/isr.s as they change memory: process control blocks
    linked through their `next` fields, the ready queue, the timer handler and its switch of stacks. */
module Timer {
  import opened Words
  import opened Mmu
  import opened Scheduler
  import opened Context

  class Pcb {
    /** Address of kstack[0]. */
    const kstack: Word
    var next: Pcb?
    var timeRemaining: nat
    var rsp: int
    var user: bool
    var pid: nat
    const eEntry: Word
    const pstack: Word
    const cr3: Word

    /** What create_process and create_dummy_process leave: no process type, no saved stack yet. */
    constructor (kstack: Word, eEntry: Word, pstack: Word, cr3: Word, timeRemaining: nat)
      ensures this.kstack == kstack && this.eEntry == eEntry && this.pstack == pstack && this.cr3 == cr3
      ensures this.timeRemaining == timeRemaining && next == null && !user
    {
      this.kstack, this.eEntry, this.pstack, this.cr3, this.timeRemaining := kstack, eEntry, pstack, cr3, timeRemaining;
      next, rsp, user, pid := null, 0, false, 0;
    }
  }

  class Computer {
    var readyProcesses: Pcb?
    var idleProcess: Pcb?
    var currentlyRunningProcess: Pcb?
    var pidCount: nat
    var timerTicks: nat
    var firstSchedule: bool

    /** The registers and the frame of the code that was interrupted; the stack pointer of irq0. */
    var regs: Regs
    var frame: Frame
    var sp: int
    var tssRsp: int
    var cr3: Word
    /** The selector in ds, es, fs and gs. */
    var dataSelector: Word
    var stack: Stack
    const boot: Word

    ghost var queue: seq<Pcb>
    ghost var known: set<Pcb>

    /** Queue members are linked in order, and the last one ends the list. */
    ghost predicate Linked()
      reads `readyProcesses, `queue, `known, known`next
    {
      && readyProcesses == (if queue == [] then null else queue[0])
      && (forall i {:trigger queue[i]} :: 0 <= i < |queue| ==> queue[i] in known)
      && (forall i {:trigger queue[i].next} :: 0 <= i < |queue| - 1 ==> queue[i].next == queue[i + 1])
      && (queue != [] ==> queue[|queue| - 1].next == null)
      && (forall i, j :: 0 <= i < j < |queue| ==> queue[i] != queue[j])
    }

    ghost predicate Valid()
      reads this, known
    {
      && idleProcess != null && idleProcess in known && !idleProcess.user
      && (currentlyRunningProcess != null ==> currentlyRunningProcess in known)
      && Linked()
      && (firstSchedule <==> currentlyRunningProcess == null)
      && timerTicks < INTERVAL
    }

    ghost function Quanta(): map<Pcb, nat>
      reads `known, known`timeRemaining
    {
      map p | p in known :: p.timeRemaining
    }

    ghost function Rsps(): map<Pcb, int>
      reads `known, known`rsp
    {
      map p | p in known :: p.rsp
    }

    ghost function KStacks(): map<Pcb, Word>
      reads `known
    {
      map p | p in known :: p.kstack
    }

    ghost function Users(): set<Pcb>
      reads `known, known`user
    {
      set p | p in known && p.user
    }

    /** The scheduler's state. */
    ghost function Policy(): Sched<Pcb>
      reads this, known`timeRemaining
      requires idleProcess != null
    {
      var idle: Pcb := idleProcess;
      var current: Option<Pcb> := if currentlyRunningProcess == null then None else Some(currentlyRunningProcess);
      Sched(idle, current, queue, Quanta(), timerTicks)
    }

    /** The whole state. */
    ghost function View(): Machine<Pcb>
      reads this, known
      requires idleProcess != null
    {
      Machine(Policy(), Cpu(regs, frame), stack, Rsps(), KStacks(), Users(), tssRsp, boot)
    }

    /** scheduler_init, and the timer's counters. */
    constructor (regs: Regs, frame: Frame, stack: Stack, boot: Word)
      ensures known == {} && queue == [] && readyProcesses == null && idleProcess == null
              && currentlyRunningProcess == null
      ensures timerTicks == 0 && firstSchedule && tssRsp == 0
      ensures this.regs == regs && this.frame == frame && this.stack == stack && this.boot == boot
    {
      readyProcesses, idleProcess, currentlyRunningProcess, pidCount := null, null, null, 0;
      timerTicks, firstSchedule := 0, true;
      this.regs, this.frame, this.stack, this.boot := regs, frame, stack, boot;
      sp, tssRsp, cr3, dataSelector := 0, 0, 0, 0;
      queue, known := [], {};
    }

    /** get_next_ready_process. */
    method GetNextReadyProcess() returns (process: Pcb?)
      requires Valid()
      modifies this`readyProcesses, this`queue
      ensures Valid()
      ensures old(queue) == [] ==> process == null && queue == []
      ensures old(queue) != [] ==>
                process == old(queue[0]) && queue == old(queue[1..]) && process in known && process !in queue
      ensures View() == old(View()).(sched := old(Policy()).(ready := queue))
    {
      var temp := readyProcesses;
      if temp != null {
        readyProcesses := readyProcesses.next;
        queue := queue[1..];
        return temp;
      } else {
        return null;
      }
    }

    /** The last member of the queue, by walking it. */
    method Last() returns (temp: Pcb?)
      requires Valid()
      ensures if queue == [] then temp == null else temp == queue[|queue| - 1]
    {
      temp := readyProcesses;
      ghost var j: nat := 0;
      while temp != null && temp.next != null
        invariant queue == [] ==> temp == null
        invariant queue != [] ==> j < |queue| && temp == queue[j]
        decreases |queue| - j
      {
        assert queue != [] && j < |queue| - 1 && queue[j].next == queue[j + 1];
        temp := temp.next;
        j := j + 1;
      }
    }

    /** Linking a process behind the last one. */
    method LinkLast(process: Pcb)
      requires Valid() && process in known && process !in queue && process.next == null
      modifies this`readyProcesses, this`queue, known`next
      ensures Valid() && queue == old(queue) + [process]
    {
      var temp := Last();
      if temp == null {
        readyProcesses := process;
      } else {
        temp.next := process;
      }
      queue := queue + [process];
    }

    /** Linking a process before the first one. */
    method LinkFirst(process: Pcb)
      requires Valid() && process in known && process !in queue
      modifies this`readyProcesses, this`queue, process`next
      ensures Valid() && queue == [process] + old(queue)
    {
      process.next := readyProcesses;
      readyProcesses := process;
      queue := [process] + queue;
    }

    /** schedule_old_process. */
    method ScheduleOldProcess(process: Pcb)
      requires Valid() && process in known && process !in queue
      modifies this`readyProcesses, this`queue, known`next, known`timeRemaining
      ensures Valid() && Policy() == Requeue(old(Policy()), process)
    {
      hide Linked;
      ghost var s := Policy();
      assert s.quantum[process] == process.timeRemaining;
      if process.timeRemaining != 0 {
        process.timeRemaining := process.timeRemaining - 1;
      }
      Detach(process);
      if process.timeRemaining == 0 {
        process.timeRemaining := 3;
        LinkLast(process);
        assert Policy().quantum == s.quantum[process := QUANTUM];
      } else {
        LinkFirst(process);
        assert Policy().quantum == s.quantum[process := Left(s, process)];
      }
    }

    /** process->next = NULL, for a process that is not on the queue. */
    method Detach(process: Pcb)
      requires Valid() && process in known && process !in queue
      modifies process`next
      ensures Valid() && process.next == null
    {
      process.next := null;
    }

    /** A process that the scheduler has not seen before. */
    method Enlist(process: Pcb)
      requires Valid() && process !in known
      modifies this`known, process`next
      ensures Valid() && known == old(known) + {process} && process.next == null && process !in queue
      ensures Quanta() == old(Quanta())[process := process.timeRemaining]
              && Rsps() == old(Rsps())[process := process.rsp]
      ensures KStacks() == old(KStacks())[process := process.kstack]
      ensures Users() == if process.user then old(Users()) + {process} else old(Users())
    {
      process.next := null;
      known := known + {process};
    }

    /** add_ready_process. */
    method AddReadyProcess(process: Pcb)
      requires Valid() && process !in known
      modifies this`readyProcesses, this`queue, this`known, known`next, process`next
      ensures Valid() && known == old(known) + {process}
      ensures var v := old(View());
              View() == v.(sched := Step(v.sched, Event.Arrive(process, process.timeRemaining)),
                           rsp := v.rsp[process := process.rsp], kstack := v.kstack[process := process.kstack],
                           users := if process.user then v.users + {process} else v.users)
    {
      hide Linked, Quanta, Rsps, KStacks, Users;
      Enlist(process);
      LinkLast(process);
    }

    /** The running process's address space is in use, and a user process has its data segments. */
    ghost predicate SpaceLoaded()
      reads this, known
    {
      && currentlyRunningProcess != null && currentlyRunningProcess in known
      && cr3 == currentlyRunningProcess.cr3 && (currentlyRunningProcess.user ==> dataSelector == 0x23)
    }

    /** The stack pointer is saved and the running process goes back to the queue. */
    method Preempt()
      requires Valid() && currentlyRunningProcess != null && currentlyRunningProcess !in queue
      modifies this`readyProcesses, this`queue, known`next, known`timeRemaining, known`rsp
      ensures Valid()
      ensures var v := old(View());
              View() == v.(sched := Requeue(v.sched, currentlyRunningProcess),
                           rsp := v.rsp[currentlyRunningProcess := sp])
    {
      hide Linked, Requeue;
      ghost var v := View();
      currentlyRunningProcess.rsp := sp;
      assert Policy() == v.sched;
      assert View().rsp == v.rsp[currentlyRunningProcess := sp];
      ScheduleOldProcess(currentlyRunningProcess);
      assert View().rsp == v.rsp[currentlyRunningProcess := sp];
      assert View().kstack == v.kstack && View().users == v.users;
    }

    /** The statements of generate_timer that give the processor to a process of the queue. */
    method RunReady(process: Pcb)
      requires Valid() && currentlyRunningProcess != null && process in known
      modifies this`currentlyRunningProcess, this`sp, this`tssRsp, this`cr3, this`dataSelector
      ensures Valid() && sp == process.rsp
      ensures var v := old(View());
              View() == v.(sched := v.sched.(current := Some(process)),
                           tss := if process.user then process.kstack + 4088 else v.tss)
      ensures SpaceLoaded()
    {
      hide Linked, Requeue, Quanta, Rsps, KStacks, Users;
      ghost var v := View();
      currentlyRunningProcess := process;
      cr3 := process.cr3;
      sp := process.rsp;
      assert View() == v.(sched := v.sched.(current := Some(process)));
      if process.user {
        tssRsp := process.kstack + 8 * 511;
        dataSelector := 0x23;
      }
    }

    /** Those that give it to the idle process when nobody is ready. */
    method RunIdle()
      requires Valid() && currentlyRunningProcess != null
      modifies this`currentlyRunningProcess, this`sp, this`cr3, known`timeRemaining
      ensures Valid() && sp == idleProcess.rsp
      ensures var v := old(View());
              View() == v.(sched := v.sched.(current := Some(v.sched.idle),
                                             quantum := v.sched.quantum[v.sched.idle := QUANTUM]))
      ensures SpaceLoaded()
    {
      hide Linked, Requeue;
      ghost var v := View();
      idleProcess.timeRemaining := 3;
      cr3 := idleProcess.cr3;
      sp := idleProcess.rsp;
      currentlyRunningProcess := idleProcess;
      assert Policy().quantum == v.sched.quantum[v.sched.idle := QUANTUM];
      assert View().rsp == v.rsp && View().kstack == v.kstack && View().users == v.users;
    }

    /** The idle process is the first to run. */
    method RunFirst()
      requires Valid() && currentlyRunningProcess == null && timerTicks == 0
      modifies this`currentlyRunningProcess, this`sp, this`cr3, this`firstSchedule
      ensures Valid() && sp == idleProcess.rsp
      ensures var v := old(View()); View() == v.(sched := v.sched.(current := Some(v.sched.idle)))
      ensures SpaceLoaded()
    {
      hide Linked, Requeue, Quanta, Rsps, KStacks, Users;
      firstSchedule := false;
      cr3 := idleProcess.cr3;
      sp := idleProcess.rsp;
      currentlyRunningProcess := idleProcess;
    }

    lemma Fields(p: Pcb)
      requires p in known
      ensures p in Rsps() && Rsps()[p] == p.rsp && p in KStacks() && KStacks()[p] == p.kstack
      ensures p in Users() <==> p.user
    {
    }

    /** What generate_timer does at a scheduling tick. */
    method Schedule()
      requires Valid() && MayTick(Policy()) && timerTicks == 0
      modifies this`firstSchedule, this`readyProcesses, this`queue, this`currentlyRunningProcess
      modifies this`sp, this`tssRsp, this`cr3, this`dataSelector
      modifies known`next, known`timeRemaining, known`rsp
      ensures Valid() && View() == HandOver(old(View()), Tick(old(Policy())), old(sp))
      ensures sp == SavedAt(View(), Running(View()))
      ensures SpaceLoaded()
    {
      hide Linked, Requeue, Tick, HandOver, Quanta, Rsps, KStacks, Users;
      ghost var v := View();
      Fields(idleProcess);
      if firstSchedule {
        RunFirst();
        IdleStarts(v, old(sp));
      } else {
        var process := GetNextReadyProcess();
        Preempt();
        if process != null {
          RunReady(process);
          ReadyTick(v, old(sp));
          Fields(process);
        } else {
          RunIdle();
          IdleTick(v, old(sp));
        }
      }
      Fields(currentlyRunningProcess);
    }

    /** generate_timer, from its prologue to its epilogue: sp points to the word that it keeps. */
    method GenerateTimer()
      requires Valid() && (Schedules(Policy()) ==> MayTick(Policy()))
      modifies this`timerTicks, this`firstSchedule, this`readyProcesses, this`queue, this`currentlyRunningProcess
      modifies this`sp, this`tssRsp, this`cr3, this`dataSelector
      modifies known`next, known`timeRemaining, known`rsp
      ensures Valid()
      ensures !Schedules(old(Policy())) ==>
                View() == old(View()).(sched := Interrupt(old(Policy()))) && sp == old(sp)
      ensures Schedules(old(Policy())) ==>
                View() == Switched(old(View()), stack, old(sp)) && sp == SavedAt(View(), Running(View()))
      ensures if Schedules(old(Policy())) then SpaceLoaded() else cr3 == old(cr3) && dataSelector == old(dataSelector)
    {
      hide Linked, Tick, HandOver, SavedAt, Running, Quanta, Rsps, KStacks, Users;
      ghost var v := View();
      timerTicks := timerTicks + 1;
      if timerTicks == 180 {
        timerTicks := 0;
        assert View() == v.(sched := v.sched.(ticks := 0));
        HandOverApart(v, 0, Tick(v.sched.(ticks := 0)), sp);
        Schedule();
      }
    }

    // ---- Preparing kernel stacks ----

    /** process->kstack[i] = w. */
    method StoreKStack(process: Pcb, i: nat, w: Word)
      modifies this`stack
      ensures stack == old(stack)[process.kstack + 8 * i := w]
    {
      stack := stack[process.kstack + 8 * i := w];
    }

    /** The frame with which a process starts, and the place in irq0 that it returns to. */
    method PrepareStack(process: Pcb, f: Frame, back: Word)
      requires process.kstack + KSTACK < WORD_LIMIT
      modifies this`stack, process`rsp
      ensures stack == Prepare(old(stack), process.kstack, f, back) && process.rsp == process.kstack + 3920
    {
      StoreKStack(process, 511, f.ss);
      StoreKStack(process, 510, f.rsp);
      StoreKStack(process, 509, f.rflags);
      StoreKStack(process, 508, f.cs);
      StoreKStack(process, 507, f.rip);
      StoreKStack(process, 507 - 16, back);
      process.rsp := process.kstack + 8 * (507 - 17);
    }

    /** The statements of schedule_user_process before the process is enlisted. */
    method PrepareUser(process: Pcb)
      requires Valid() && process !in known && process.kstack + KSTACK < WORD_LIMIT
      modifies this`stack, this`pidCount, process`rsp, process`user, process`pid
      ensures Valid() && process.user && process.rsp == process.kstack + 8 * 490
      ensures process.pid == old(pidCount) && pidCount == old(pidCount) + 1
      ensures View() == old(View()).(stack := stack)
      ensures stack == Prepare(old(stack), process.kstack,
                               Frame(process.eEntry, USER_CS, RFLAGS, process.pstack, USER_SS), RESUME)
      ensures KStackWords(stack, process.kstack, process.eEntry, 0x2b, process.pstack, 0x23, IRQ0 + 0x20)
    {
      hide Linked, Prepare, Quanta, Rsps, KStacks, Users;
      PrepareStack(process, Frame(process.eEntry, USER_CS, RFLAGS, process.pstack, USER_SS), RESUME);
      PrepareIndices(old(stack), process.kstack, Frame(process.eEntry, USER_CS, RFLAGS, process.pstack, USER_SS),
                     RESUME);
      process.user := true;
      process.pid := pidCount;
      pidCount := pidCount + 1;
    }

    /** schedule_user_process. */
    method ScheduleUserProcess(process: Pcb)
      requires Valid() && process !in known && process.kstack + KSTACK < WORD_LIMIT
      modifies this`readyProcesses, this`queue, this`known, this`stack, this`pidCount, known`next, process
      ensures Valid() && known == old(known) + {process}
      ensures process.pid == old(pidCount) && pidCount == old(pidCount) + 1
      ensures View() == Prepared(old(View()), process, process.kstack, process.eEntry, process.pstack,
                                 old(process.timeRemaining))
      ensures KStackWords(stack, process.kstack, process.eEntry, 0x2b, process.pstack, 0x23, IRQ0 + 0x20)
      ensures process.user && process.rsp == process.kstack + 8 * 490
    {
      hide Linked, Prepare, Quanta, Rsps, KStacks, Users, KStackWords;
      PrepareUser(process);
      AddReadyProcess(process);
      PreparedIs(old(View()), process, process.kstack, process.eEntry, process.pstack, process.timeRemaining);
    }

    /** schedule_idle_process, on a process from create_dummy_process. */
    method ScheduleIdleProcess(dummyProcess: Pcb, functionPointer: Word)
      requires known == {} && queue == [] && readyProcesses == null && currentlyRunningProcess == null
      requires timerTicks == 0 && firstSchedule && tssRsp == 0
      requires dummyProcess.kstack + KSTACK < WORD_LIMIT && dummyProcess.timeRemaining == QUANTUM
      modifies this`idleProcess, this`known, this`stack, this`pidCount, dummyProcess
      ensures Valid() && InOrder(Policy()) && known == {dummyProcess}
      ensures View() == Begin(dummyProcess, dummyProcess.kstack, functionPointer, Cpu(regs, frame), old(stack), boot)
      ensures var k := dummyProcess.kstack;
              KStackWords(stack, k, functionPointer, 0x08, k + 8 * 511, 0x10, IRQ0 + 0x1b)
      ensures !dummyProcess.user && dummyProcess.rsp == dummyProcess.kstack + 8 * 490
    {
      hide Prepare;
      PrepareStack(dummyProcess, Frame(functionPointer, KERNEL_CS, RFLAGS, dummyProcess.kstack + 8 * 511, KERNEL_SS),
                   CALL_AGAIN);
      dummyProcess.user := false;
      dummyProcess.pid := pidCount;
      pidCount := pidCount + 1;
      idleProcess := dummyProcess;
      known := {dummyProcess};
      ghost var k := dummyProcess.kstack;
      PrepareIndices(old(stack), k, Frame(functionPointer, KERNEL_CS, RFLAGS, k + 8 * 511, KERNEL_SS), CALL_AGAIN);
      assert Quanta() == map[dummyProcess := QUANTUM];
      assert Rsps() == map[dummyProcess := k + 3920];
      assert KStacks() == map[dummyProcess := k];
    }

    // ---- irq0 ----

    method Push(w: Word)
      modifies this`sp, this`stack
      ensures sp == old(sp) - 8 && stack == old(stack)[sp := w]
    {
      sp := sp - 8;
      stack := stack[sp := w];
    }

    method Pop() returns (w: Word)
      modifies this`sp
      ensures sp == old(sp) + 8 && w == At(stack, old(sp))
    {
      w := if sp in stack then stack[sp] else 0;
      sp := sp + 8;
    }

    /** The processor enters the handler: on the stack of the TSS when it comes from ring 3. */
    method EnterHandler()
      modifies this`sp, this`stack
      ensures var top := Align16(if frame.cs % 4 == 3 then tssRsp else frame.rsp);
              sp == top - 40 && stack == PushFrame(old(stack), top, frame)
    {
      sp := if frame.cs % 4 == 3 then tssRsp - tssRsp % 16 else frame.rsp - frame.rsp % 16;
      Push(frame.ss);
      Push(frame.rsp);
      Push(frame.rflags);
      Push(frame.cs);
      Push(frame.rip);
    }

    method PushAll()
      modifies this`sp, this`stack
      ensures sp == old(sp) - 120 && stack == PushRegs(old(stack), old(sp), regs)
    {
      Push(regs.rdi);
      Push(regs.rax);
      Push(regs.rbx);
      Push(regs.rcx);
      Push(regs.rdx);
      Push(regs.rbp);
      Push(regs.rsi);
      Push(regs.r8);
      Push(regs.r9);
      Push(regs.r10);
      Push(regs.r11);
      Push(regs.r12);
      Push(regs.r13);
      Push(regs.r14);
      Push(regs.r15);
    }

    method PopAll()
      modifies this`sp, this`regs
      ensures sp == old(sp) + 120 && regs == PopRegs(stack, old(sp))
    {
      hide At;
      var r15 := Pop();
      var r14 := Pop();
      var r13 := Pop();
      var r12 := Pop();
      var r11 := Pop();
      var r10 := Pop();
      var r9 := Pop();
      var r8 := Pop();
      var rsi := Pop();
      var rbp := Pop();
      var rdx := Pop();
      var rcx := Pop();
      var rbx := Pop();
      var rax := Pop();
      var rdi := Pop();
      regs := Regs(rdi, rax, rbx, rcx, rdx, rbp, rsi, r8, r9, r10, r11, r12, r13, r14, r15);
    }

    method Iretq()
      modifies this`sp, this`frame
      ensures frame == PopFrame(stack, old(sp))
    {
      hide At;
      var rip := Pop();
      var cs := Pop();
      var rflags := Pop();
      var rsp := Pop();
      var ss := Pop();
      frame := Frame(rip, cs, rflags, rsp, ss);
    }

    /** The call, and the prologue of generate_timer. */
    method EnterGenerateTimer(w: Word)
      modifies this`sp, this`stack
      ensures sp == old(sp) - 16 && stack == PushCall(old(stack), old(sp), w)
    {
      Push(RESUME);
      Push(w);
    }

    /** The call of generate_timer in irq0, with the prologue and the epilogue of generate_timer; the
        address it returns to is on the stack that it has switched to. */
    method CallGenerateTimer(w: Word) returns (word: Word, back: Word)
      requires Valid() && (Schedules(Policy()) ==> MayTick(Policy()))
      modifies this`timerTicks, this`firstSchedule, this`readyProcesses, this`queue, this`currentlyRunningProcess
      modifies this`sp, this`tssRsp, this`cr3, this`dataSelector, this`stack
      modifies known`next, known`timeRemaining, known`rsp
      ensures Valid() && stack == PushCall(old(stack), old(sp), w)
      ensures !Schedules(old(Policy())) ==>
                View() == old(View()).(sched := Interrupt(old(Policy())), stack := stack) && sp == old(sp)
      ensures Schedules(old(Policy())) ==>
                View() == Switched(old(View()), stack, old(sp) - 16) && sp == SavedAt(View(), Running(View())) + 16
      ensures word == At(stack, sp - 16) && back == At(stack, sp - 8)
      ensures if Schedules(old(Policy())) then SpaceLoaded() else cr3 == old(cr3) && dataSelector == old(dataSelector)
    {
      hide Linked, Tick, At, Quanta, Rsps, KStacks, Users, SavedAt, Running, HandOver, PushCall;
      ghost var v := View();
      EnterGenerateTimer(w);
      assert View() == v.(stack := stack);
      GenerateTimer();
      word := Pop();
      back := Pop();
    }

    /** Pushing the interrupted code's context. */
    method SaveContext()
      modifies this`sp, this`stack
      ensures var top := Align16(if frame.cs % 4 == 3 then tssRsp else frame.rsp);
              sp == top - 160 && stack == PushRegs(PushFrame(old(stack), top, frame), top - 40, regs)
    {
      EnterHandler();
      PushAll();
    }

    /** Popping the context above sp. */
    method RestoreContext()
      modifies this`sp, this`regs, this`frame
      ensures Cpu(regs, frame) == Restored(stack, old(sp) - 16)
    {
      hide At, PopRegs, PopFrame;
      PopAll();
      Iretq();
    }

    /** irq0 up to the return from generate_timer. */
    method Handle() returns (word: Word, back: Word)
      requires Valid() && (Schedules(Policy()) ==> MayTick(Policy()))
      modifies this`timerTicks, this`firstSchedule, this`readyProcesses, this`queue, this`currentlyRunningProcess
      modifies this`sp, this`tssRsp, this`cr3, this`dataSelector
      modifies this`stack, known`next, known`timeRemaining, known`rsp
      ensures var v := old(View()); var top := EntryTop(v); var m := Entered(v.stack, top, v.cpu);
              && Valid() && stack == m
              && (!Schedules(v.sched) ==>
                    View() == v.(sched := Interrupt(v.sched), stack := m) && sp == top - SAVED + 16 && back == RESUME)
              && (Schedules(v.sched) ==>
                    && View() == Switched(v, m, top - SAVED) && sp == SavedAt(View(), Running(View())) + 16
                    && timerTicks == 0)
      ensures word == At(stack, sp - 16) && back == At(stack, sp - 8)
      ensures if Schedules(old(Policy())) then SpaceLoaded() else cr3 == old(cr3) && dataSelector == old(dataSelector)
    {
      hide Linked, Tick, At, Quanta, Rsps, KStacks, Users, Restored, PushFrame, PushRegs, PushCall, HandOver;
      ghost var v, top := View(), EntryTop(View());
      TickStarts(v.sched);
      SaveContext();
      ghost var m := Entered(v.stack, top, v.cpu);
      assert View() == v.(stack := stack) && sp == top - 160;
      EnteredRestores(v.stack, top, v.cpu);
      word, back := CallGenerateTimer(regs.rbp);
      assert stack == m;
      SwitchedFrom(v, m, top - SAVED);
    }

    /** The rest of irq0, with the code that calls generate_timer once more. */
    method Return(word: Word, back: Word)
      requires Valid()
      requires word == At(stack, sp - 16) && back == At(stack, sp - 8)
      requires back == CALL_AGAIN ==> timerTicks == 0
      modifies this`timerTicks, this`firstSchedule, this`readyProcesses, this`queue, this`currentlyRunningProcess
      modifies this`sp, this`tssRsp, this`cr3, this`dataSelector
      modifies this`stack, this`regs, this`frame, known`next, known`timeRemaining, known`rsp
      ensures Valid()
      ensures old(sp) == SavedAt(old(View()), Running(old(View()))) + 16 ==> View() == Resume(old(View()))
      ensures back != CALL_AGAIN ==> View() == old(View()).(cpu := Restored(old(stack), old(sp) - 16))
      ensures cr3 == old(cr3) && dataSelector == old(dataSelector)
    {
      hide Linked, Tick, At, Quanta, Rsps, KStacks, Users, Restored, PushCall;
      if back == CALL_AGAIN {
        var word', back' := CallGenerateTimer(word);
      }
      ghost var t := View();
      RestoreContext();
      assert View() == t.(cpu := Restored(t.stack, old(sp) - 16));
    }

    lemma QueueDistinct()
      requires Valid()
      ensures Distinct(queue)
    {
    }

    /** irq0: a timer interrupt, from the interrupted code to the code that runs next. The list stays a
        list: the running process is not behind the head of the queue, and comes to be there exactly by
        turning behind others that wait with it. */
    method Irq0()
      requires Valid() && (Schedules(Policy()) ==> MayTick(Policy()))
      modifies this`timerTicks, this`firstSchedule, this`readyProcesses, this`queue, this`currentlyRunningProcess
      modifies this`sp, this`tssRsp, this`cr3, this`dataSelector
      modifies this`stack, this`regs, this`frame, known`next, known`timeRemaining, known`rsp
      ensures Valid() && View() == Irq(old(View()))
      ensures old(InOrder(Policy())) ==> (InOrder(Policy()) <==> !TurnsBehind(old(Policy())))
      ensures old(Busy(Policy())) ==> Busy(Policy())
      ensures if Schedules(old(Policy())) then SpaceLoaded() else cr3 == old(cr3) && dataSelector == old(dataSelector)
    {
      hide Busy, InOrder, TurnsBehind, MayTick, Irq;
      hide Linked, Interrupt, At, Quanta, Rsps, KStacks, Users, Restored, Entered, Switched, Resume;
      ghost var v := View();
      QueueDistinct();
      IrqOrder(v);
      var word, back := Handle();
      ghost var t := View();
      Return(word, back);
      IrqIs(v);
      if Schedules(v.sched) { SameRunning(v, t); }
    }
  }

  /** Where the stack and the ticks of the state that generate_timer hands over come from. */
  lemma SwitchedFrom<P>(s: Machine<P>, m: Stack, sp: int)
    ensures Switched(s.(stack := m), m, sp) == Switched(s, m, sp)
    ensures Switched(s, m, sp).stack == m && Switched(s, m, sp).sched == Interrupt(s.sched)
  {
  }

  /** What an interrupt is, by its two halves. */
  lemma IrqIs<P>(s: Machine<P>)
    ensures var top := EntryTop(s); var m := Entered(s.stack, top, s.cpu);
            Irq(s) == if !Schedules(s.sched)
                      then s.(sched := Interrupt(s.sched), stack := m, cpu := Restored(m, top - SAVED))
                      else Resume(Switched(s, m, top - SAVED))
  {
    hide Entered, Restored, Interrupt, EntryTop, Switched, Resume, Schedules;
  }

  /** Returning from generate_timer does not change who runs. */
  lemma SameRunning<P>(v: Machine<P>, t: Machine<P>)
    requires t.sched.current.Some? && t.sched.ticks == 0
    ensures Resume(t).sched.current == t.sched.current
  {
    hide Restored, PushCall, At;
  }

  // ---- The tick by its branches ----

  lemma IdleStarts<P>(v: Machine<P>, sp: int)
    requires v.sched.current.None? && v.sched.idle !in v.users
    ensures HandOver(v, Tick(v.sched), sp) == v.(sched := v.sched.(current := Some(v.sched.idle)))
  {
  }

  lemma ReadyTick<P>(v: Machine<P>, sp: int)
    requires v.sched.current.Some? && v.sched.ready != []
    ensures var next, p := v.sched.ready[0], v.sched.current.value;
            HandOver(v, Tick(v.sched), sp) ==
            v.(sched := Requeue(v.sched.(ready := v.sched.ready[1..]), p).(current := Some(next)),
               rsp := v.rsp[p := sp],
               tss := if next in v.users && next in v.kstack then v.kstack[next] + 4088 else v.tss)
  {
    hide Requeue;
  }

  lemma IdleTick<P>(v: Machine<P>, sp: int)
    requires v.sched.current.Some? && v.sched.ready == [] && v.sched.idle !in v.users
    ensures var p := v.sched.current.value; var s := Requeue(v.sched, p);
            HandOver(v, Tick(v.sched), sp) ==
            v.(sched := s.(current := Some(v.sched.idle), quantum := s.quantum[v.sched.idle := QUANTUM]),
               rsp := v.rsp[p := sp])
  {
    hide Requeue;
  }

  // ---- The queue is a list ----

  /** Everybody behind the head of the queue. */
  function Behind<P>(s: Sched<P>): seq<P> {
    if s.ready == [] then [] else s.ready[1..]
  }

  /** A tick takes the head off the queue and then puts the running process back on it, which must not
      be there. */
  predicate MayTick<P(==)>(s: Sched<P>) {
    s.current.Some? ==> s.current.value !in Behind(s)
  }

  ghost predicate InOrder<P>(s: Sched<P>) {
    Distinct(s.ready) && MayTick(s) && (s.current.None? ==> s.idle !in Behind(s))
  }

  /** Somebody is ready, and the running process is not on the queue. */
  predicate Busy<P(==)>(s: Sched<P>) {
    s.ready != [] && (if s.current.Some? then s.current.value else s.idle) !in s.ready
  }

  /** The running process is the head of the queue, has used up its ticks and goes behind others. */
  predicate TurnsBehind<P(==)>(s: Sched<P>) {
    Schedules(s) && |s.ready| > 1 && s.current == Some(s.ready[0]) && Left(s, s.ready[0]) == 0
  }

  lemma TickStarts<P>(s: Sched<P>)
    ensures Schedules(s) ==> Interrupt(s).ticks == 0 && Interrupt(s).current.Some?
  {
  }

  /** A queue in order stays in order exactly if the running process does not turn behind others. */
  lemma TickOrder<P>(s: Sched<P>)
    requires InOrder(s)
    ensures InOrder(Interrupt(s)) <==> !TurnsBehind(s)
  {
    if Schedules(s) && s.current.Some? && s.ready != [] {
      var t, c, next, rest := Interrupt(s), s.current.value, s.ready[0], s.ready[1..];
      assert next !in rest && c !in rest;
      if Left(s, c) == 0 {
        assert t.ready == rest + [c];
        if rest != [] { assert Behind(t) == rest[1..] + [c]; }
      } else {
        assert t.ready == [c] + rest && Behind(t) == rest;
      }
    }
  }

  lemma TickBusy<P>(s: Sched<P>)
    requires Busy(s) && Distinct(s.ready)
    ensures Busy(Interrupt(s))
  {
    assert s.ready[0] !in s.ready[1..];
  }

  /** The same of an interrupt of the whole machine, where idle may call generate_timer once more. */
  lemma IrqOrder<P>(s: Machine<P>)
    requires Distinct(s.sched.ready)
    ensures InOrder(s.sched) ==> (InOrder(Irq(s).sched) <==> !TurnsBehind(s.sched))
    ensures Busy(s.sched) ==> Busy(Irq(s).sched)
  {
    hide Entered, Restored, PushCall, At, Tick, Distinct;
    var t := Interrupt(s.sched);
    if InOrder(s.sched) { TickOrder(s.sched); }
    if Busy(s.sched) { TickBusy(s.sched); }
    if Schedules(s.sched) {
      TickStarts(s.sched);
      assert Irq(s).sched == t || Irq(s).sched == Interrupt(t);
      assert Interrupt(t) == t.(ticks := 1);
    }
  }

  /** Behind the head, the running process would be on the queue twice after the tick: no list whose
      members are different can be that queue. */
  lemma WouldRepeat<P>(s: Sched<P>)
    requires Distinct(s.ready)
    ensures Distinct(Tick(s).ready) <==> MayTick(s)
  {
    if s.current.Some? {
      var t, c, rest := Tick(s), s.current.value, Behind(s);
      assert forall i, j :: 0 <= i < j < |rest| ==> rest[i] != rest[j];
      if c in rest {
        var k :| 0 <= k < |rest| && rest[k] == c;
        if Left(s, c) == 0 {
          assert t.ready == rest + [c] && t.ready[k] == t.ready[|rest|];
        } else {
          assert t.ready == [c] + rest && t.ready[0] == t.ready[k + 1];
        }
      } else if s.ready != [] {
        assert t.ready == rest + [c] || t.ready == [c] + rest;
      } else {
        assert t.ready == [c];
      }
    }
  }

  /** It comes to that: idle runs with nobody ready, a tick puts it on the queue while it goes on, a
      process arrives, and three ticks later idle has turned behind it. */
  lemma IdleTurnsBehind<P>(s: Sched<P>, p: P, q: nat)
    requires s.current == Some(s.idle) && s.ready == [] && p != s.idle
    ensures var t := Ticks(Step(Tick(s), Event.Arrive(p, q)), 3);
            t.current == Some(s.idle) && t.ready == [p, s.idle] && !MayTick(t)
  {
    var t0 := Step(Tick(s), Event.Arrive(p, q));
    assert t0.ready == [s.idle, p];
    var t1 := Tick(t0);
    assert t1.ready == [s.idle, p] && t1.quantum[s.idle] == 2;
    var t2 := Tick(t1);
    assert t2.ready == [s.idle, p] && t2.quantum[s.idle] == 1;
    var t3 := Tick(t2);
    assert t3.ready == [p] + [s.idle];
    assert Ticks(t0, 1) == Tick(Ticks(t0, 0));
    assert Ticks(t0, 2) == Tick(Ticks(t0, 1));
    assert Ticks(t0, 3) == Tick(Ticks(t0, 2));
  }

  // ---- Runs in which the queue stays a list ----

  /** At every scheduling tick of the run the running process is not behind the head of the queue. */
  ghost predicate AlwaysMayTick<P>(s: Machine<P>, es: seq<Action<P>>)
    requires AllAllowed(s, es)
    decreases |es|
  {
    es == [] || ((es[0].Timer? && Schedules(s.sched) ==> MayTick(s.sched))
                 && AlwaysMayTick(MachineStep(s, es[0]), es[1..]))
  }

  lemma BusyIsInOrder<P>(s: Sched<P>)
    requires Busy(s) && Distinct(s.ready)
    ensures InOrder(s) && MayTick(s) && !TurnsBehind(s)
  {
  }

  lemma ArriveBusy<P>(s: Sched<P>, p: P, q: nat)
    requires Busy(s) && Distinct(s.ready) && p !in All(s) && p != s.idle
    ensures Busy(Step(s, Event.Arrive(p, q))) && Distinct(Step(s, Event.Arrive(p, q)).ready)
  {
    assert forall x :: x in s.ready ==> x in All(s);
    assert s.current.Some? ==> All(s)[0] == s.current.value;
  }

  lemma NewInLayout<P>(s: Machine<P>, p: P)
    requires Layout(s) && p !in s.kstack
    ensures p !in All(s.sched) && p != s.sched.idle
  {
  }

  lemma StepBusy<P>(s: Machine<P>, i: Ideal<P>, e: Action<P>)
    requires Refines(s, i) && Allowed(s, e) && Busy(s.sched) && Distinct(s.sched.ready)
    ensures Busy(MachineStep(s, e).sched) && Distinct(MachineStep(s, e).sched.ready)
  {
    hide Busy, Distinct, Irq, Step, RunningFits, Layout, TurnsBehind;
    match e
    case Timer =>
      BusyIsInOrder(s.sched);
      IrqOrder(s);
    case Run(_, _) =>
    case Arrive(p, k, entry, pstack, q) =>
      NewInLayout(s, p);
      ArriveBusy(s.sched, p, q);
  }

  /** Once somebody is ready and the running process is not on the queue, it stays so over any run, and
      every tick finds a list. */
  lemma {:induction false} ListLasts<P>(s: Machine<P>, i: Ideal<P>, es: seq<Action<P>>)
    requires Refines(s, i) && AllAllowed(s, es) && Busy(s.sched) && Distinct(s.sched.ready)
    ensures AlwaysMayTick(s, es)
    ensures Busy(MachineRun(s, es).sched) && Distinct(MachineRun(s, es).sched.ready)
    decreases |es|
  {
    hide Refines, MachineStep, IdealStep, Busy, Distinct;
    if es != [] {
      BusyIsInOrder(s.sched);
      StepBusy(s, i, es[0]);
      StepRefines(s, i, es[0]);
      ListLasts(MachineStep(s, es[0]), IdealStep(i, es[0]), es[1..]);
    }
  }
}
