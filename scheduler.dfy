/**
 The scheduling engine as a state machine over values: the PCB table, the
 ready and blocked queues, the CPU context, the running id, the process count
 and the logical clock, with one transition function per handler of the
 process manager and the lemmas that relate them.
 */
module Scheduler {
  import P = Program

  /** The PCB table has a fixed number of slots. */
  const Capacity := 10

  /** The running id when no process runs. */
  const Idle := -1

  /** A slot still in its zero-initialized state holds none of the four states of a process. */
  datatype ProcState = Unused | Ready | Running | Blocked | Finished

  /** A process control block; while the process runs, its saved context is stale. */
  datatype Pcb = Pcb(
    processId: int,
    parentProcessId: int,
    program: seq<P.Instruction>,
    programCounter: nat,
    value: P.int32,
    state: ProcState,
    startTime: nat,
    finishTime: nat)

  /** A slot of the table that no process has ever used: every field zero. */
  const EmptyPcb := Pcb(0, 0, [], 0, 0, Unused, 0, 0)

  /** The live execution context: the running program, its counter and the accumulator. */
  datatype Cpu = Cpu(program: seq<P.Instruction>, programCounter: nat, value: P.int32)

  /** The whole simulation state. */
  datatype Machine = Machine(
    table: seq<Pcb>,
    ready: seq<int>,
    blocked: seq<int>,
    cpu: Cpu,
    running: int,
    numProcesses: nat,
    timestamp: nat)

  predicate InTable(id: int) { 0 <= id < Capacity }

  /** What the handlers need to index the table: every id they read is a slot. */
  predicate WellFormed(m: Machine) {
    && |m.table| == Capacity
    && (m.running == Idle || InTable(m.running))
    && (forall k :: 0 <= k < |m.ready| ==> InTable(m.ready[k]))
    && (forall k :: 0 <= k < |m.blocked| ==> InTable(m.blocked[k]))
  }

  predicate NoDup(q: seq<int>) {
    forall a, b :: 0 <= a < b < |q| ==> q[a] != q[b]
  }

  /**
   The invariant of a reachable state: each slot's state matches where its id
   sits (running slot, ready queue, blocked queue), the queues hold no id twice,
   every used slot knows its own id, and the slots past the process count are
   untouched.
   */
  predicate Inv(m: Machine) {
    && WellFormed(m)
    && 1 <= m.numProcesses
    && NoDup(m.ready)
    && NoDup(m.blocked)
    && (forall i :: 0 <= i < Capacity ==> (m.table[i].state == Running <==> i == m.running))
    && (forall i :: 0 <= i < Capacity ==> (m.table[i].state == Ready <==> i in m.ready))
    && (forall i :: 0 <= i < Capacity ==> (m.table[i].state == Blocked <==> i in m.blocked))
    && (forall i :: 0 <= i < Capacity && m.table[i].state != Unused ==>
          m.table[i].processId == i && i < m.numProcesses)
    && (forall i :: m.numProcesses <= i < Capacity ==> m.table[i] == EmptyPcb)
  }

  // ---------------------------------------------------------------------------
  // Start-up

  /** The state right after the init program has been loaded into slot 0. */
  function Init(program: seq<P.Instruction>): (r: Machine)
    ensures Timed(r)
    ensures |r.table| == Capacity && r.running == 0
    ensures r.table[0].state == Running && r.table[0].program == program
    ensures forall i :: 0 < i < Capacity ==> r.table[i].state == Unused
    ensures r.timestamp == 0 && r.numProcesses == 1 && r.ready == [] && r.blocked == []
    ensures r.table[0].startTime == 0 && r.table[0].finishTime == 0
    ensures r.table[0].programCounter == 0 && r.table[0].value == 0
  {
    Machine(
      table := seq(Capacity, i => if i == 0 then Pcb(0, -1, program, 0, 0, Running, 0, 0) else EmptyPcb),
      ready := [],
      blocked := [],
      cpu := Cpu(program, 0, 0),
      running := 0,
      numProcesses := 1,
      timestamp := 0)
  }

  /** The root process starts alone, running its own program from the top with value 0. */
  lemma InitInv(program: seq<P.Instruction>)
    ensures Inv(Init(program))
    ensures Init(program).table[0].parentProcessId == -1
    ensures Init(program).cpu == Cpu(program, 0, 0)
  {
  }

  // ---------------------------------------------------------------------------
  // The accumulator instructions

  /** S: the accumulator takes the argument. */
  function Set(m: Machine, v: P.int32): (r: Machine)
    ensures r.cpu.value == v
    ensures r.(cpu := m.cpu) == m && r.cpu.(value := m.cpu.value) == m.cpu
  {
    m.(cpu := m.cpu.(value := v))
  }

  /** A: the argument is added, wrapping around at 32 bits. */
  function Add(m: Machine, v: P.int32): (r: Machine)
    ensures (r.cpu.value as int - (m.cpu.value as int + v as int)) % 0x1_0000_0000 == 0
    ensures -0x8000_0000 <= m.cpu.value as int + v as int < 0x8000_0000 ==>
      r.cpu.value as int == m.cpu.value as int + v as int
    ensures r.(cpu := m.cpu) == m && r.cpu.(value := m.cpu.value) == m.cpu
  {
    m.(cpu := m.cpu.(value := P.Wrap32(m.cpu.value as int + v as int)))
  }

  /** D: the argument is subtracted, wrapping around at 32 bits. */
  function Decrement(m: Machine, v: P.int32): (r: Machine)
    ensures (r.cpu.value as int - (m.cpu.value as int - v as int)) % 0x1_0000_0000 == 0
    ensures -0x8000_0000 <= m.cpu.value as int - v as int < 0x8000_0000 ==>
      r.cpu.value as int == m.cpu.value as int - v as int
    ensures r.(cpu := m.cpu) == m && r.cpu.(value := m.cpu.value) == m.cpu
  {
    m.(cpu := m.cpu.(value := P.Wrap32(m.cpu.value as int - v as int)))
  }

  /** Two int32 values congruent modulo 2^32 are equal. */
  lemma Int32Congruent(a: P.int32, b: P.int32)
    requires (a as int - b as int) % 0x1_0000_0000 == 0
    ensures a == b
  {
  }

  /** Decrementing by what was just added restores the accumulator, wrap-around included. */
  lemma DecrementUndoesAdd(m: Machine, v: P.int32)
    ensures Decrement(Add(m, v), v) == m
  {
    var a := Add(m, v);
    var d := Decrement(a, v);
    var x, y, z := m.cpu.value as int, a.cpu.value as int, d.cpu.value as int;
    assert (y - (x + v as int)) % 0x1_0000_0000 == 0;
    assert (z - (y - v as int)) % 0x1_0000_0000 == 0;
    assert (z - x) == (z - (y - v as int)) + (y - (x + v as int));
    ModSum(z - (y - v as int), y - (x + v as int));
    Int32Congruent(d.cpu.value, m.cpu.value);
  }

  lemma ModSum(p: int, q: int)
    requires p % 0x1_0000_0000 == 0 && q % 0x1_0000_0000 == 0
    ensures (p + q) % 0x1_0000_0000 == 0
  {
    var k, l := p / 0x1_0000_0000, q / 0x1_0000_0000;
    assert p == 0x1_0000_0000 * k && q == 0x1_0000_0000 * l;
    assert p + q == 0x1_0000_0000 * (k + l);
  }

  // ---------------------------------------------------------------------------
  // Scheduling

  /**
   schedule(): with the CPU idle and a ready process waiting, the id at the
   BACK of the ready queue (the most recently readied one) becomes the running
   process and its saved context is loaded into the CPU; otherwise nothing
   changes.
   */
  function Schedule(m: Machine): (r: Machine)
    requires WellFormed(m)
    ensures WellFormed(r)
    ensures m.running != Idle || m.ready == [] ==> r == m
    ensures m.running == Idle && m.ready != [] ==>
      && r.ready + [r.running] == m.ready
      && r.table == m.table[r.running := m.table[r.running].(state := Running)]
      && r.cpu == Cpu(m.table[r.running].program, m.table[r.running].programCounter, m.table[r.running].value)
      && r.blocked == m.blocked && r.numProcesses == m.numProcesses && r.timestamp == m.timestamp
  {
    if m.running != Idle || m.ready == [] then m
    else
      var target := m.ready[|m.ready| - 1];
      m.(ready := m.ready[..|m.ready| - 1],
         table := m.table[target := m.table[target].(state := Running)],
         cpu := Cpu(m.table[target].program, m.table[target].programCounter, m.table[target].value),
         running := target)
  }

  /** Scheduling twice is scheduling once: after the first call a process runs or none is ready. */
  lemma ScheduleIdempotent(m: Machine)
    requires WellFormed(m)
    ensures Schedule(Schedule(m)) == Schedule(m)
  {
  }

  lemma NoDupPrefix(q: seq<int>)
    requires NoDup(q) && q != []
    ensures NoDup(q[..|q| - 1]) && q[|q| - 1] !in q[..|q| - 1]
  {
  }

  lemma ScheduleInv(m: Machine)
    requires Inv(m)
    ensures Inv(Schedule(m))
  {
    if m.running == Idle && m.ready != [] {
      NoDupPrefix(m.ready);
      var r := Schedule(m);
      forall i | 0 <= i < Capacity
        ensures r.table[i].state == Ready <==> i in r.ready
      {
        assert i in m.ready <==> i in r.ready || i == r.running;
      }
    }
  }

  // ---------------------------------------------------------------------------
  // The instructions that stop or fork the running process

  /**
   B: the running id goes to the back of the blocked queue, its PCB saves the
   CPU's counter and value and becomes Blocked, and the CPU is left idle.
   */
  function Block(m: Machine): (r: Machine)
    requires WellFormed(m) && m.running != Idle
    ensures WellFormed(r)
    ensures r.blocked == m.blocked + [m.running] && r.running == Idle
    ensures r.table[m.running] == m.table[m.running].(state := Blocked,
      programCounter := m.cpu.programCounter, value := m.cpu.value)
    ensures forall i :: 0 <= i < Capacity && i != m.running ==> r.table[i] == m.table[i]
    ensures r.ready == m.ready && r.cpu == m.cpu && r.numProcesses == m.numProcesses
    ensures r.timestamp == m.timestamp && |r.table| == |m.table|
  {
    var p := m.running;
    m.(blocked := m.blocked + [p],
       table := m.table[p := m.table[p].(state := Blocked, programCounter := m.cpu.programCounter,
                                          value := m.cpu.value)],
       running := Idle)
  }

  lemma BlockInv(m: Machine)
    requires Inv(m) && m.running != Idle
    ensures Inv(Block(m))
  {
    var r := Block(m);
    assert m.running !in m.blocked;
    forall i | 0 <= i < Capacity
      ensures r.table[i].state == Blocked <==> i in r.blocked
    {
      assert i in r.blocked <==> i in m.blocked || i == m.running;
    }
  }

  /**
   E: the running PCB becomes Finished and the CPU is left idle; its saved
   context is not written back.
   */
  function End(m: Machine): (r: Machine)
    requires WellFormed(m) && m.running != Idle
    ensures WellFormed(r)
    ensures r.running == Idle && r.table[m.running] == m.table[m.running].(state := Finished)
    ensures forall i :: 0 <= i < Capacity && i != m.running ==> r.table[i] == m.table[i]
    ensures r.ready == m.ready && r.blocked == m.blocked && r.cpu == m.cpu
    ensures r.numProcesses == m.numProcesses && r.timestamp == m.timestamp && |r.table| == |m.table|
  {
    var p := m.running;
    m.(table := m.table[p := m.table[p].(state := Finished)], running := Idle)
  }

  lemma EndInv(m: Machine)
    requires Inv(m) && m.running != Idle
    ensures Inv(End(m))
  {
  }

  /** The precondition of Fork: a positive argument writes slot numProcesses, which must exist. */
  predicate ForkFits(m: Machine, v: P.int32) {
    v > 0 ==> m.numProcesses < Capacity
  }

  /**
   F v: the process count always grows by one. With v > 0 the slot at the old
   count becomes the child: it gets its own id, the running process's id as
   parent, the CPU's counter and value, state Running and the clock as start
   time, and keeps whatever program its slot held. The parent becomes Ready
   with saved counter one past the CPU's (its saved value is not updated) and
   goes to the back of the ready queue; the child is now the running process
   and the CPU context is left as it is. With v <= 0 nothing else happens.
   */
  function Fork(m: Machine, v: P.int32): (r: Machine)
    requires WellFormed(m) && m.running != Idle && ForkFits(m, v)
    ensures WellFormed(r)
    ensures r.numProcesses == m.numProcesses + 1
    ensures v <= 0 ==> r == m.(numProcesses := m.numProcesses + 1)
    ensures v > 0 ==>
      && r.running == m.numProcesses
      && r.ready == m.ready + [m.running] && r.blocked == m.blocked
      && r.cpu == m.cpu && r.timestamp == m.timestamp
    ensures v > 0 && m.running != m.numProcesses ==>
      && r.table[m.numProcesses] == m.table[m.numProcesses].(processId := m.numProcesses,
           parentProcessId := m.table[m.running].processId, programCounter := m.cpu.programCounter,
           value := m.cpu.value, state := Running, startTime := m.timestamp)
      && r.table[m.running] == m.table[m.running].(state := Ready,
           programCounter := m.cpu.programCounter + 1)
    ensures v > 0 ==> forall i :: 0 <= i < Capacity && i != m.running && i != m.numProcesses ==>
      r.table[i] == m.table[i]
  {
    var child := m.numProcesses;
    var counted := m.(numProcesses := m.numProcesses + 1);
    if v <= 0 then counted
    else
      var parent := m.running;
      var t1 := m.table[child := m.table[child].(processId := child,
        parentProcessId := m.table[parent].processId, programCounter := m.cpu.programCounter,
        value := m.cpu.value, state := Running, startTime := m.timestamp)];
      var t2 := t1[parent := t1[parent].(state := Ready, programCounter := m.cpu.programCounter + 1)];
      counted.(table := t2, ready := m.ready + [parent], running := child)
  }

  /**
   In a reachable state a positive fork creates a child whose parent is the
   forking process and whose own program is empty: the CPU keeps running the
   parent's program, but were the child ever descheduled and resumed it would
   find no instructions.
   */
  lemma ForkInv(m: Machine, v: P.int32)
    requires Inv(m) && m.running != Idle && ForkFits(m, v)
    ensures Inv(Fork(m, v))
    ensures v > 0 ==> Fork(m, v).table[m.numProcesses].parentProcessId == m.running
    ensures v > 0 ==> Fork(m, v).table[m.numProcesses].program == []
    ensures v > 0 ==> Fork(m, v).table[m.running].value == m.table[m.running].value
  {
    var r := Fork(m, v);
    if v > 0 {
      var child, parent := m.numProcesses, m.running;
      assert m.table[child] == EmptyPcb;
      assert parent !in m.ready && child !in m.ready;
      forall i | 0 <= i < Capacity
        ensures r.table[i].state == Ready <==> i in r.ready
      {
        assert i in r.ready <==> i in m.ready || i == parent;
      }
    }
  }

  /**
   R name: the CPU program is replaced by whatever the loader pushed for
   `name` (nothing if the file could not be opened, the lines before the bad
   one if a line was malformed) and the counter goes back to 0, whether or not
   loading succeeded. The PCB's own program is left alone.
   */
  function Replace(m: Machine, loaded: P.Loaded): (r: Machine)
    ensures r.cpu == Cpu(loaded.program, 0, m.cpu.value)
    ensures r.(cpu := m.cpu) == m
  {
    m.(cpu := Cpu(loaded.program, 0, m.cpu.value))
  }

  // ---------------------------------------------------------------------------
  // The Q and U commands

  /** The instruction at the CPU's counter, or an implicit E past the end of the program. */
  function Fetch(c: Cpu): (instr: P.Instruction)
    ensures instr in c.program || instr == P.End
    ensures |c.program| <= c.programCounter ==> instr == P.End
    ensures c.programCounter < |c.program| ==> instr == c.program[c.programCounter]
  {
    if c.programCounter < |c.program| then c.program[c.programCounter] else P.End
  }

  /** What a quantum needs: a fork it is about to execute has a slot to write. */
  predicate QuantumFits(m: Machine) {
    m.running != Idle && Fetch(m.cpu).Fork? ==> ForkFits(m, Fetch(m.cpu).arg)
  }

  /** The fetch step: the counter moves past the instruction it reads, and stays past the end. */
  function Advance(m: Machine): (r: Machine)
    ensures r.(cpu := m.cpu) == m && r.cpu.program == m.cpu.program && r.cpu.value == m.cpu.value
    ensures m.cpu.programCounter < |m.cpu.program| ==> r.cpu.programCounter == m.cpu.programCounter + 1
    ensures m.cpu.programCounter >= |m.cpu.program| ==> r.cpu == m.cpu
  {
    if m.cpu.programCounter < |m.cpu.program|
    then m.(cpu := m.cpu.(programCounter := m.cpu.programCounter + 1)) else m
  }

  /** One tick of the logical clock. */
  function Tick(m: Machine): (r: Machine)
    ensures r.timestamp == m.timestamp + 1 && r.(timestamp := m.timestamp) == m
  {
    m.(timestamp := m.timestamp + 1)
  }

  /** Before an E, the running PCB records the clock as its finish time. */
  function StampFinish(m: Machine): (r: Machine)
    requires WellFormed(m) && m.running != Idle
    ensures WellFormed(r)
    ensures r.table[m.running] == m.table[m.running].(finishTime := m.timestamp)
    ensures forall i :: 0 <= i < Capacity && i != m.running ==> r.table[i] == m.table[i]
    ensures r.(table := m.table) == m
  {
    m.(table := m.table[m.running := m.table[m.running].(finishTime := m.timestamp)])
  }

  /** The invariant is about the table, the queues and the counters, not the CPU context. */
  lemma InvIgnoresCpu(m: Machine, c: Cpu)
    requires Inv(m)
    ensures Inv(m.(cpu := c))
  {
  }

  lemma AdvanceInv(m: Machine)
    requires Inv(m)
    ensures Inv(Advance(m))
  {
  }

  lemma TickInv(m: Machine)
    requires Inv(m)
    ensures Inv(Tick(m))
  {
  }

  lemma StampFinishInv(m: Machine)
    requires Inv(m) && m.running != Idle
    ensures Inv(StampFinish(m))
  {
  }

  /** The switch of quantum() on the fetched instruction (E also stamps the finish time). */
  function Execute(m: Machine, instr: P.Instruction, fs: P.FileSystem): (r: Machine)
    requires WellFormed(m) && m.running != Idle
    requires instr.Fork? ==> ForkFits(m, instr.arg)
    ensures WellFormed(r)
    ensures r.timestamp == m.timestamp
    ensures r.numProcesses == m.numProcesses + (if instr.Fork? then 1 else 0)
    ensures !instr.Fork? ==> r.ready == m.ready
    ensures instr.Block? || instr.End? <==> r.running == Idle
    ensures instr.Block? <==> r.blocked != m.blocked
    ensures instr.End? ==> r.table[m.running].state == Finished && r.table[m.running].finishTime == m.timestamp
    ensures instr.Set? ==> r.cpu.value == instr.arg
    ensures instr.Replace? ==> r.cpu == Cpu(P.LoadProgram(fs, instr.name).program, 0, m.cpu.value)
  {
    match instr
    case Set(v) => Set(m, v)
    case Add(v) => Add(m, v)
    case Decrement(v) => Decrement(m, v)
    case Block => Block(m)
    case End => End(StampFinish(m))
    case Fork(v) => Fork(m, v)
    case Replace(name) => Replace(m, P.LoadProgram(fs, name))
  }

  /**
   quantum(): on an idle CPU only the clock moves. Otherwise the instruction
   at the counter is fetched and the counter advanced (past the end an E is
   synthesized and the counter stays), the instruction is executed, the clock
   moves by one and the scheduler runs.
   */
  function Quantum(m: Machine, fs: P.FileSystem): (r: Machine)
    requires WellFormed(m) && QuantumFits(m)
    ensures WellFormed(r)
    ensures r.timestamp == m.timestamp + 1
    ensures m.running == Idle ==> r == Tick(m)
  {
    if m.running == Idle then Tick(m)
    else Schedule(Tick(Execute(Advance(m), Fetch(m.cpu), fs)))
  }

  /**
   unblock(): with a blocked process, the id at the FRONT of the blocked queue
   moves to the back of the ready queue and becomes Ready, then the scheduler
   runs; with none, nothing changes.
   */
  function Unblock(m: Machine): (r: Machine)
    requires WellFormed(m)
    ensures WellFormed(r)
    ensures m.blocked == [] ==> r == m
    ensures m.blocked != [] ==> r.blocked == m.blocked[1..]
    ensures r.timestamp == m.timestamp && r.numProcesses == m.numProcesses
  {
    if m.blocked == [] then m else Schedule(Release(m))
  }

  /** The first half of unblock(): the front blocked id becomes Ready at the back of the ready queue. */
  function Release(m: Machine): (r: Machine)
    requires WellFormed(m) && m.blocked != []
    ensures WellFormed(r)
    ensures r.blocked == m.blocked[1..] && r.ready == m.ready + [m.blocked[0]]
    ensures r.table[m.blocked[0]] == m.table[m.blocked[0]].(state := Ready)
    ensures forall i :: 0 <= i < Capacity && i != m.blocked[0] ==> r.table[i] == m.table[i]
    ensures r.(table := m.table, ready := m.ready, blocked := m.blocked) == m
  {
    var target := m.blocked[0];
    m.(blocked := m.blocked[1..], ready := m.ready + [target],
       table := m.table[target := m.table[target].(state := Ready)])
  }

  /** One command character of the process manager's loop; P and T only report. */
  function Command(m: Machine, ch: char, fs: P.FileSystem): (r: Machine)
    requires WellFormed(m) && ((ch == 'Q' || ch == 'q') ==> QuantumFits(m))
    ensures WellFormed(r)
    ensures !(ch in "QqUu") ==> r == m
  {
    if ch == 'Q' || ch == 'q' then Quantum(m, fs)
    else if ch == 'U' || ch == 'u' then Unblock(m)
    else m
  }

  /** The loop ends after an upper-case T only: a lower-case t reports but goes on. */
  predicate Terminates(ch: char) { ch == 'T' }

  // ---------------------------------------------------------------------------
  // The invariant across commands

  lemma ExecuteInv(m: Machine, instr: P.Instruction, fs: P.FileSystem)
    requires Inv(m) && m.running != Idle
    requires instr.Fork? ==> ForkFits(m, instr.arg)
    ensures Inv(Execute(m, instr, fs))
  {
    match instr {
      case Set(v) =>
      case Add(v) =>
      case Decrement(v) =>
      case Block => BlockInv(m);
      case End =>
        StampFinishInv(m);
        EndInv(StampFinish(m));
      case Fork(v) => ForkInv(m, v);
      case Replace(name) =>
    }
  }

  /** Every quantum keeps the invariant. */
  lemma QuantumInv(m: Machine, fs: P.FileSystem)
    requires Inv(m) && QuantumFits(m)
    ensures Inv(Quantum(m, fs))
  {
    if m.running != Idle {
      AdvanceInv(m);
      var executed := Execute(Advance(m), Fetch(m.cpu), fs);
      ExecuteInv(Advance(m), Fetch(m.cpu), fs);
      TickInv(executed);
      ScheduleInv(Tick(executed));
    }
  }

  /** Every unblock keeps the invariant. */
  lemma UnblockInv(m: Machine)
    requires Inv(m)
    ensures Inv(Unblock(m))
  {
    if m.blocked != [] {
      ReleaseInv(m);
      ScheduleInv(Release(m));
    }
  }

  lemma ReleaseInv(m: Machine)
    requires Inv(m) && m.blocked != []
    ensures Inv(Release(m))
  {
    var target := m.blocked[0];
    var moved := Release(m);
    assert target !in m.ready;
    assert target !in m.blocked[1..];
    forall i | 0 <= i < Capacity
      ensures (moved.table[i].state == Ready <==> i in moved.ready)
           && (moved.table[i].state == Blocked <==> i in moved.blocked)
    {
      assert i in moved.ready <==> i in m.ready || i == target;
      assert i in m.blocked <==> i in moved.blocked || i == target;
    }
  }

  function Count(b: bool): nat { if b then 1 else 0 }

  /**
   In a reachable state every process ever created sits in exactly one place:
   the running slot, the ready queue, the blocked queue, or among the finished.
   */
  lemma Partition(m: Machine, i: int)
    requires Inv(m) && InTable(i) && m.table[i].state != Unused
    ensures i < m.numProcesses
    ensures Count(i == m.running) + Count(i in m.ready) + Count(i in m.blocked)
            + Count(m.table[i].state == Finished) == 1
  {
  }

  /**
   The life cycle a slot may follow in one step: a used slot never becomes
   unused, and a finished process stays finished.
   */
  predicate Advances(a: ProcState, b: ProcState) {
    || a == b
    || (a == Unused && b == Running)
    || (a == Running && b != Unused)
    || (a == Ready && b == Running)
    || (a == Blocked && (b == Ready || b == Running))
  }

  lemma ScheduleAdvances(m: Machine, i: int)
    requires Inv(m) && InTable(i)
    ensures Advances(m.table[i].state, Schedule(m).table[i].state)
  {
  }

  lemma ExecuteAdvances(m: Machine, instr: P.Instruction, fs: P.FileSystem, i: int)
    requires Inv(m) && m.running != Idle && InTable(i)
    requires instr.Fork? ==> ForkFits(m, instr.arg)
    ensures Advances(m.table[i].state, Execute(m, instr, fs).table[i].state)
  {
    if instr.Fork? && instr.arg > 0 {
      assert m.table[m.numProcesses] == EmptyPcb;
    }
  }

  /** A quantum moves every slot along its life cycle; Finished is never left. */
  lemma QuantumAdvances(m: Machine, fs: P.FileSystem, i: int)
    requires Inv(m) && QuantumFits(m) && InTable(i)
    ensures Advances(m.table[i].state, Quantum(m, fs).table[i].state)
    ensures m.table[i].state == Finished ==> Quantum(m, fs).table[i].state == Finished
  {
    if m.running != Idle {
      AdvanceInv(m);
      var executed := Execute(Advance(m), Fetch(m.cpu), fs);
      ExecuteAdvances(Advance(m), Fetch(m.cpu), fs, i);
      ExecuteInv(Advance(m), Fetch(m.cpu), fs);
      TickInv(executed);
      ScheduleAdvances(Tick(executed), i);
    }
  }

  /** An unblock moves every slot along its life cycle; Finished is never left. */
  lemma UnblockAdvances(m: Machine, i: int)
    requires Inv(m) && InTable(i)
    ensures Advances(m.table[i].state, Unblock(m).table[i].state)
    ensures m.table[i].state == Finished ==> Unblock(m).table[i].state == Finished
  {
  }

  // ---------------------------------------------------------------------------
  // Consequences of the queue disciplines

  /**
   The ready queue is a stack: a process unblocked while the CPU is idle runs
   at once, ahead of every process that was already waiting in the ready queue.
   */
  lemma UnblockIdleRunsFront(m: Machine)
    requires Inv(m) && m.running == Idle && m.blocked != []
    ensures Unblock(m).running == m.blocked[0]
    ensures Unblock(m).ready == m.ready
    ensures Unblock(m).table[m.blocked[0]].state == Running
  {
    var moved := Release(m);
    assert moved.ready[..|moved.ready| - 1] == m.ready;
  }

  /** While a process runs, an unblocked process waits at the back of the ready queue. */
  lemma UnblockBusyQueues(m: Machine)
    requires WellFormed(m) && m.running != Idle && m.blocked != []
    ensures Unblock(m).ready == m.ready + [m.blocked[0]]
    ensures Unblock(m).running == m.running
    ensures Unblock(m).table[m.blocked[0]].state == Ready
  {
  }

  /** A process that blocks is the last in the line of blocked processes. */
  lemma QuantumBlock(m: Machine, fs: P.FileSystem)
    requires Inv(m) && m.running != Idle && Fetch(m.cpu) == P.Block
    ensures Quantum(m, fs).blocked == m.blocked + [m.running]
    ensures Quantum(m, fs).table[m.running].state == Blocked
    ensures Quantum(m, fs).table[m.running].programCounter == m.cpu.programCounter + 1
    ensures Quantum(m, fs).table[m.running].value == m.cpu.value
  {
    AdvanceInv(m);
    BlockInv(Advance(m));
    TickInv(Block(Advance(m)));
  }

  /**
   An E, written or synthesized past the end of the program, ends the running
   process: it is Finished, its finish time is the clock before the quantum,
   and it no longer runs.
   */
  lemma QuantumEnd(m: Machine, fs: P.FileSystem)
    requires Inv(m) && m.running != Idle && Fetch(m.cpu) == P.End
    ensures Quantum(m, fs).table[m.running].state == Finished
    ensures Quantum(m, fs).table[m.running].finishTime == m.timestamp
    ensures Quantum(m, fs).running != m.running
  {
    AdvanceInv(m);
    StampFinishInv(Advance(m));
    EndInv(StampFinish(Advance(m)));
    TickInv(End(StampFinish(Advance(m))));
  }

  /**
   S, A, D and R keep the same process on the CPU: the table, the queues and
   the process count are untouched, and the counter moves one past the
   instruction (back to 0 after R, which installs a new program).
   */
  lemma QuantumStaysRunning(m: Machine, fs: P.FileSystem)
    requires Inv(m) && m.running != Idle
    requires Fetch(m.cpu).Set? || Fetch(m.cpu).Add? || Fetch(m.cpu).Decrement? || Fetch(m.cpu).Replace?
    ensures Quantum(m, fs).running == m.running
    ensures Quantum(m, fs).table == m.table
    ensures Quantum(m, fs).ready == m.ready && Quantum(m, fs).blocked == m.blocked
    ensures Quantum(m, fs).numProcesses == m.numProcesses
    ensures Quantum(m, fs).cpu.programCounter ==
      (if Fetch(m.cpu).Replace? then 0 else m.cpu.programCounter + 1)
  {
  }

  /**
   A positive fork hands the CPU to the child, which inherits the counter past
   the F and the accumulator; the parent waits at the back of the ready queue
   and will resume one instruction further on.
   */
  lemma QuantumFork(m: Machine, fs: P.FileSystem)
    requires Inv(m) && m.running != Idle && QuantumFits(m)
    requires Fetch(m.cpu).Fork? && Fetch(m.cpu).arg > 0
    ensures Quantum(m, fs).running == m.numProcesses
    ensures Quantum(m, fs).numProcesses == m.numProcesses + 1
    ensures Quantum(m, fs).cpu == m.cpu.(programCounter := m.cpu.programCounter + 1)
    ensures Quantum(m, fs).ready == m.ready + [m.running]
    ensures Quantum(m, fs).table[m.running].state == Ready
    ensures Quantum(m, fs).table[m.running].programCounter == m.cpu.programCounter + 2
    ensures Quantum(m, fs).table[m.numProcesses].parentProcessId == m.running
    ensures Quantum(m, fs).table[m.numProcesses].startTime == m.timestamp
  {
    AdvanceInv(m);
    ForkInv(Advance(m), Fetch(m.cpu).arg);
  }

  // ---------------------------------------------------------------------------
  // The command loop

  /** What a run of commands needs: every Q it reaches, up to the first T, has room for its fork. */
  predicate Runs(m: Machine, fs: P.FileSystem, commands: seq<char>)
    decreases |commands|
  {
    && WellFormed(m)
    && (commands != [] ==>
         && ((commands[0] == 'Q' || commands[0] == 'q') ==> QuantumFits(m))
         && (!Terminates(commands[0]) ==> Runs(Command(m, commands[0], fs), fs, commands[1..])))
  }

  /**
   The do-while loop of runProcessManager: commands are applied in order,
   the one that is T is the last applied, and running out of input ends the
   loop as a broken pipe does.
   */
  function Run(m: Machine, fs: P.FileSystem, commands: seq<char>): (r: Machine)
    requires Runs(m, fs, commands)
    ensures WellFormed(r)
    ensures r.timestamp == m.timestamp + Quanta(commands)
    decreases |commands|
  {
    if commands == [] then m
    else
      var next := Command(m, commands[0], fs);
      if Terminates(commands[0]) then next else Run(next, fs, commands[1..])
  }

  /** The commands the loop reads: all of them, or those up to and including the first T. */
  function Consumed(commands: seq<char>): (n: nat)
    ensures n <= |commands|
    ensures forall k :: 0 <= k < n - 1 ==> !Terminates(commands[k])
    ensures n < |commands| ==> n > 0 && Terminates(commands[n - 1])
  {
    if commands == [] then 0
    else if Terminates(commands[0]) then 1
    else 1 + Consumed(commands[1..])
  }

  /** The loop's outcome depends only on the commands it reads. */
  lemma {:induction false} RunConsumed(m: Machine, fs: P.FileSystem, commands: seq<char>)
    requires Runs(m, fs, commands)
    ensures Runs(m, fs, commands[..Consumed(commands)])
    ensures Run(m, fs, commands[..Consumed(commands)]) == Run(m, fs, commands)
    decreases |commands|
  {
    if commands != [] {
      var read := commands[..Consumed(commands)];
      assert read[0] == commands[0];
      if Terminates(commands[0]) {
        assert read == [commands[0]];
      } else {
        assert read[1..] == commands[1..][..Consumed(commands[1..])];
        RunConsumed(Command(m, commands[0], fs), fs, commands[1..]);
      }
    }
  }

  /** The number of Q commands among the ones the loop reads. */
  function Quanta(commands: seq<char>): nat
  {
    if commands == [] then 0
    else if Terminates(commands[0]) then 0
    else (if commands[0] == 'Q' || commands[0] == 'q' then 1 else 0) + Quanta(commands[1..])
  }

  /** The invariant holds after any run of commands. */
  lemma {:induction false} RunInv(m: Machine, fs: P.FileSystem, commands: seq<char>)
    requires Inv(m) && Runs(m, fs, commands)
    ensures Inv(Run(m, fs, commands))
    decreases |commands|
  {
    if commands != [] {
      var ch := commands[0];
      if ch == 'Q' || ch == 'q' {
        QuantumInv(m, fs);
      } else if ch == 'U' || ch == 'u' {
        UnblockInv(m);
      }
      if !Terminates(ch) {
        RunInv(Command(m, ch, fs), fs, commands[1..]);
      }
    }
  }

  /** Nothing after the first upper-case T is read: a run ends there. */
  lemma {:induction false} RunStopsAtT(m: Machine, fs: P.FileSystem, before: seq<char>, after: seq<char>)
    requires 'T' !in before
    requires Runs(m, fs, before + ['T'])
    ensures Runs(m, fs, before + ['T'] + after)
    ensures Run(m, fs, before + ['T'] + after) == Run(m, fs, before + ['T'])
    decreases |before|
  {
    if before == [] {
      assert (before + ['T'] + after)[0] == 'T';
    } else {
      assert (before + ['T'] + after)[0] == before[0];
      assert (before + ['T'] + after)[1..] == before[1..] + ['T'] + after;
      assert (before + ['T'])[1..] == before[1..] + ['T'];
      RunStopsAtT(Command(m, before[0], fs), fs, before[1..], after);
    }
  }

  // ---------------------------------------------------------------------------
  // Turnaround time

  /** The sum of finish time minus start time over the first n slots. */
  function TurnaroundSum(table: seq<Pcb>, n: nat): int
    requires n <= |table|
  {
    if n == 0 then 0
    else TurnaroundSum(table, n - 1) + (table[n - 1].finishTime as int - table[n - 1].startTime as int)
  }

  /**
   The integer total of averageTurnaroundTime: the differences are unsigned
   and the accumulator an int, so the sum is taken modulo 2^32 and read back
   as a signed 32-bit value.
   */
  function TurnaroundTotal(m: Machine): (total: P.int32)
    requires m.numProcesses <= |m.table|
    ensures -0x8000_0000 <= TurnaroundSum(m.table, m.numProcesses) < 0x8000_0000 ==>
      total as int == TurnaroundSum(m.table, m.numProcesses)
  {
    P.Wrap32(TurnaroundSum(m.table, m.numProcesses))
  }

  /** Wrapping the partial sums at each step is wrapping the total once. */
  lemma WrapAdd(a: int, b: int)
    ensures P.Wrap32(P.Wrap32(a) as int + b) == P.Wrap32(a + b)
  {
    var x := P.Wrap32(a);
    var l, r := P.Wrap32(x as int + b), P.Wrap32(a + b);
    assert (l as int - (x as int + b)) % 0x1_0000_0000 == 0;
    assert (x as int - a) % 0x1_0000_0000 == 0;
    ModSum(l as int - (x as int + b), x as int - a);
    assert (l as int - (a + b)) % 0x1_0000_0000 == 0;
    assert (r as int - (a + b)) % 0x1_0000_0000 == 0;
    ModDiff(l as int - (a + b), r as int - (a + b));
    Int32Congruent(l, r);
  }

  lemma ModDiff(p: int, q: int)
    requires p % 0x1_0000_0000 == 0 && q % 0x1_0000_0000 == 0
    ensures (p - q) % 0x1_0000_0000 == 0
  {
    var k, l := p / 0x1_0000_0000, q / 0x1_0000_0000;
    assert p == 0x1_0000_0000 * k && q == 0x1_0000_0000 * l;
    assert p - q == 0x1_0000_0000 * (k - l);
  }

  /**
   The clock fields of a slot in a reachable state: an unused slot still
   holds zeros; a live process started no later than now and has finish time
   0 (only E writes it); a finished one finished between its start and now.
   */
  predicate SlotTimed(p: Pcb, now: nat) {
    match p.state
    case Unused => p.startTime == 0 && p.finishTime == 0
    case Finished => p.startTime <= p.finishTime <= now
    case _ => p.startTime <= now && p.finishTime == 0
  }

  predicate Timed(m: Machine) {
    forall i :: 0 <= i < |m.table| ==> SlotTimed(m.table[i], m.timestamp)
  }

  lemma ScheduleTimed(m: Machine)
    requires Inv(m) && Timed(m)
    ensures Timed(Schedule(m))
  {
    if m.running == Idle && m.ready != [] {
      assert m.table[m.ready[|m.ready| - 1]].state == Ready;
    }
  }

  lemma ExecuteTimed(m: Machine, instr: P.Instruction, fs: P.FileSystem)
    requires Inv(m) && Timed(m) && m.running != Idle
    requires instr.Fork? ==> ForkFits(m, instr.arg)
    ensures Timed(Execute(m, instr, fs))
  {
    match instr {
      case Set(v) =>
      case Add(v) =>
      case Decrement(v) =>
      case Block =>
      case End =>
        assert SlotTimed(m.table[m.running], m.timestamp);
      case Fork(v) =>
        if v > 0 {
          assert m.table[m.numProcesses] == EmptyPcb;
        }
      case Replace(name) =>
    }
  }

  /** Every quantum keeps the clock fields consistent. */
  lemma QuantumTimed(m: Machine, fs: P.FileSystem)
    requires Inv(m) && Timed(m) && QuantumFits(m)
    ensures Timed(Quantum(m, fs))
  {
    if m.running != Idle {
      AdvanceInv(m);
      var executed := Execute(Advance(m), Fetch(m.cpu), fs);
      ExecuteInv(Advance(m), Fetch(m.cpu), fs);
      ExecuteTimed(Advance(m), Fetch(m.cpu), fs);
      TickInv(executed);
      ScheduleTimed(Tick(executed));
    }
  }

  /** Every unblock keeps the clock fields consistent. */
  lemma UnblockTimed(m: Machine)
    requires Inv(m) && Timed(m)
    ensures Timed(Unblock(m))
  {
    if m.blocked != [] {
      ReleaseInv(m);
      ScheduleTimed(Release(m));
    }
  }

  /** Any run of commands keeps the clock fields consistent. */
  lemma {:induction false} RunTimed(m: Machine, fs: P.FileSystem, commands: seq<char>)
    requires Inv(m) && Timed(m) && Runs(m, fs, commands)
    ensures Timed(Run(m, fs, commands))
    decreases |commands|
  {
    if commands != [] {
      var ch := commands[0];
      if ch == 'Q' || ch == 'q' {
        QuantumInv(m, fs);
        QuantumTimed(m, fs);
      } else if ch == 'U' || ch == 'u' {
        UnblockInv(m);
        UnblockTimed(m);
      }
      if !Terminates(ch) {
        RunTimed(Command(m, ch, fs), fs, commands[1..]);
      }
    }
  }

  /** Every state the command loop reaches from the start satisfies both invariants. */
  lemma Reachable(program: seq<P.Instruction>, fs: P.FileSystem, commands: seq<char>)
    requires Runs(Init(program), fs, commands)
    ensures Inv(Run(Init(program), fs, commands)) && Timed(Run(Init(program), fs, commands))
  {
    InitInv(program);
    RunInv(Init(program), fs, commands);
    RunTimed(Init(program), fs, commands);
  }

  /**
   One slot's share of the turnaround total in a reachable state: nothing for
   an unused slot, the time it ran for a finished process, and minus its start
   time for a process still alive (its finish time is still 0).
   */
  lemma TurnaroundTerm(m: Machine, i: nat)
    requires Timed(m) && i < |m.table|
    ensures var p := m.table[i]; var d := p.finishTime as int - p.startTime as int;
      && (p.state == Unused ==> d == 0)
      && (p.state == Finished ==> 0 <= d <= m.timestamp)
      && (p.state in {Ready, Running, Blocked} ==> d == -(p.startTime as int) && p.startTime <= m.timestamp)
  {
    assert SlotTimed(m.table[i], m.timestamp);
  }

  /** Once every counted slot is finished or unused, the turnaround sum is not negative. */
  lemma {:induction false} TurnaroundSumNonNegative(m: Machine, n: nat)
    requires Timed(m) && n <= |m.table|
    requires forall i :: 0 <= i < n ==> m.table[i].state in {Finished, Unused}
    ensures TurnaroundSum(m.table, n) >= 0
  {
    if n > 0 {
      TurnaroundTerm(m, n - 1);
      TurnaroundSumNonNegative(m, n - 1);
    }
  }

  // ---------------------------------------------------------------------------
  // Worked examples

  /** S 5, A 3, D 1: the accumulator reads 5, then 8, then 7, and the counter follows. */
  lemma ArithmeticScenario(fs: P.FileSystem)
    ensures var m1 := Quantum(Init([P.Set(5), P.Add(3), P.Decrement(1)]), fs);
      var m2 := Quantum(m1, fs); var m3 := Quantum(m2, fs);
      && m1.cpu.value == 5 && m2.cpu.value == 8 && m3.cpu.value == 7
      && m3.cpu.programCounter == 3 && m3.running == 0 && m3.timestamp == 3
  {
  }

  /**
   S 5 with no E: the second quantum ends the process at time 1, and a third
   quantum on the idle CPU only moves the clock.
   */
  lemma ImplicitEndScenario(fs: P.FileSystem)
    ensures var m1 := Quantum(Init([P.Set(5)]), fs); var m2 := Quantum(m1, fs);
      var m3 := Quantum(m2, fs);
      && m1.cpu.value == 5 && m1.running == 0
      && m2.running == Idle && m2.ready == [] && m2.blocked == []
      && m2.table[0].state == Finished && m2.table[0].finishTime == 1
      && m3 == m2.(timestamp := 3) && TurnaroundTotal(m3) == 1
  {
    var m3 := Quantum(Quantum(Quantum(Init([P.Set(5)]), fs), fs), fs);
    assert TurnaroundSum(m3.table, 0) == 0;
  }

  /** B then U: the process blocks, and the unblock puts it straight back on the CPU. */
  lemma BlockScenario(fs: P.FileSystem)
    ensures var m1 := Quantum(Init([P.Block]), fs); var m2 := Unblock(m1);
      && m1.running == Idle && m1.blocked == [0] && m1.table[0].state == Blocked
      && m2.running == 0 && m2.blocked == [] && m2.ready == [] && m2.table[0].state == Running
  {
  }

  /**
   R changes only the CPU's program, not the PCB's: a process that replaces
   its program with one holding a B, blocks and is unblocked resumes its
   original program at the saved counter.
   */
  lemma ReplaceForgottenScenario(fs: P.FileSystem)
    requires "p" in fs && fs["p"] == ["B"]
    ensures var original := [P.Replace("p"), P.Block, P.Set(7)];
      var m1 := Quantum(Init(original), fs); var m2 := Quantum(m1, fs); var m3 := Unblock(m2);
      && m1.cpu == Cpu([P.Block], 0, 0)
      && m2.running == Idle && m2.table[0].programCounter == 1
      && m3.running == 0 && m3.cpu == Cpu(original, 1, 0)
  {
    var original := [P.Replace("p"), P.Block, P.Set(7)];
    BlockFileLoads(fs);
    InitInv(original);
    var m1 := Quantum(Init(original), fs);
    QuantumStaysRunning(Init(original), fs);
    QuantumInv(Init(original), fs);
    assert m1.cpu == Cpu([P.Block], 0, 0);
    QuantumBlock(m1, fs);
  }

  lemma BlockFileLoads(fs: P.FileSystem)
    requires "p" in fs && fs["p"] == ["B"]
    ensures P.LoadProgram(fs, "p") == P.Loaded(true, [P.Block])
  {
    P.LoadOneLine("B");
  }

  /**
   S 1, F 1: the child forked at time 1 is still running when the total is
   taken, so its finish time 0 counts against its start time and the total is
   negative.
   */
  lemma ForkedTurnaroundScenario(fs: P.FileSystem)
    ensures var m2 := Quantum(Quantum(Init([P.Set(1), P.Fork(1)]), fs), fs);
      && m2.running == 1 && m2.numProcesses == 2
      && m2.table[1].startTime == 1 && m2.table[1].finishTime == 0
      && TurnaroundTotal(m2) == -1
  {
    var m2 := Quantum(Quantum(Init([P.Set(1), P.Fork(1)]), fs), fs);
    assert TurnaroundSum(m2.table, 1) == 0;
  }

  /**
   S 7, F 1, E: fork does not save the parent's accumulator, so once the child
   has ended, the parent resumes with its slot's initial value 0, not 7, at
   counter 3.
   */
  lemma ForkForgetsValueScenario(fs: P.FileSystem)
    ensures var m3 := Quantum(Quantum(Quantum(Init([P.Set(7), P.Fork(1), P.End]), fs), fs), fs);
      && m3.running == 0 && m3.cpu.value == 0 && m3.cpu.programCounter == 3
      && m3.table[1].state == Finished
  {
    var m2 := Quantum(Quantum(Init([P.Set(7), P.Fork(1), P.End]), fs), fs);
    ForkForgetsValueFork(fs);
    ForkForgetsValueEnd(m2, fs);
  }

  /** The third quantum: the child's E ends it and the parent is scheduled from its slot. */
  lemma ForkForgetsValueEnd(m: Machine, fs: P.FileSystem)
    requires Inv(m) && m.running == 1 && m.ready == [0]
    requires m.table[0] == Pcb(0, -1, [P.Set(7), P.Fork(1), P.End], 3, 0, Ready, 0, 0)
    requires m.cpu == Cpu([P.Set(7), P.Fork(1), P.End], 2, 7)
    ensures Quantum(m, fs).running == 0 && Quantum(m, fs).cpu.value == 0
    ensures Quantum(m, fs).cpu.programCounter == 3 && Quantum(m, fs).table[1].state == Finished
  {
    QuantumEnd(m, fs);
  }

  /** The first two quanta of ForkForgetsValueScenario: the child runs on with 7, the parent waits. */
  lemma ForkForgetsValueFork(fs: P.FileSystem)
    ensures var program := [P.Set(7), P.Fork(1), P.End];
      var m2 := Quantum(Quantum(Init(program), fs), fs);
      && Inv(m2) && m2.running == 1 && m2.ready == [0]
      && m2.table[0] == Pcb(0, -1, program, 3, 0, Ready, 0, 0)
      && m2.cpu == Cpu(program, 2, 7)
  {
    var program := [P.Set(7), P.Fork(1), P.End];
    InitInv(program);
    QuantumStaysRunning(Init(program), fs);
    QuantumInv(Init(program), fs);
    ForkForgetsValueForkStep(Quantum(Init(program), fs), fs);
  }

  /** The second quantum: F 1 with process 0 alone at counter 1 and value 7. */
  lemma ForkForgetsValueForkStep(m: Machine, fs: P.FileSystem)
    requires Inv(m) && m.running == 0 && m.ready == [] && m.numProcesses == 1
    requires m.table[0] == Pcb(0, -1, [P.Set(7), P.Fork(1), P.End], 0, 0, Running, 0, 0)
    requires m.cpu == Cpu([P.Set(7), P.Fork(1), P.End], 1, 7)
    ensures var m2 := Quantum(m, fs);
      && Inv(m2) && m2.running == 1 && m2.ready == [0]
      && m2.table[0] == Pcb(0, -1, [P.Set(7), P.Fork(1), P.End], 3, 0, Ready, 0, 0)
      && m2.cpu == Cpu([P.Set(7), P.Fork(1), P.End], 2, 7)
  {
    QuantumFork(m, fs);
    QuantumInv(m, fs);
  }

  /** F 1, S 9, E: after the fork the child 1 runs with the parent's value; the parent waits to resume at 2. */
  lemma ForkScenario(fs: P.FileSystem)
    ensures var m1 := Quantum(Init([P.Fork(1), P.Set(9), P.End]), fs);
      && m1.running == 1 && m1.numProcesses == 2 && m1.cpu.value == 0 && m1.cpu.programCounter == 1
      && m1.ready == [0] && m1.table[0].state == Ready && m1.table[0].programCounter == 2
      && m1.table[1].parentProcessId == 0 && m1.table[1].state == Running
  {
  }
}
