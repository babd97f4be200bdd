/**
 The process manager as the source runs it: one object holding the PCB table
 (a fixed array of ten entries), the ready and blocked queues, the CPU, the
 running id, the process count and the clock, with one method per handler.
 Each method updates the fields in place and is proved to leave the object
 in exactly the state the matching transition of the Scheduler module gives.
 */
module ProcessManager {
  import P = Program
  import S = Scheduler

  class Manager {
    const table: array<S.Pcb>
    var ready: seq<int>
    var blocked: seq<int>
    var cpu: S.Cpu
    var running: int
    var numProcesses: nat
    var timestamp: nat

    /** The object's fields as a value of the state machine. */
    function State(): S.Machine
      reads this, table
    {
      S.Machine(table[..], ready, blocked, cpu, running, numProcesses, timestamp)
    }

    ghost predicate Valid()
      reads this, table
    {
      table.Length == S.Capacity && S.Inv(State())
    }

    /** The start of runProcessManager once the init program is loaded into slot 0. */
    constructor (program: seq<P.Instruction>)
      ensures Valid() && State() == S.Init(program) && fresh(table)
    {
      table := new S.Pcb[S.Capacity](i =>
        if i == 0 then S.Pcb(0, -1, program, 0, 0, S.Running, 0, 0) else S.EmptyPcb);
      ready := [];
      blocked := [];
      cpu := S.Cpu(program, 0, 0);
      running := 0;
      numProcesses := 1;
      timestamp := 0;
      new;
      assert table[..] == S.Init(program).table;
      S.InitInv(program);
    }

    method Set(v: P.int32)
      requires Valid()
      modifies this
      ensures Valid() && State() == S.Set(old(State()), v)
    {
      cpu := cpu.(value := v);
    }

    method Add(v: P.int32)
      requires Valid()
      modifies this
      ensures Valid() && State() == S.Add(old(State()), v)
    {
      cpu := cpu.(value := P.Wrap32(cpu.value as int + v as int));
    }

    method Decrement(v: P.int32)
      requires Valid()
      modifies this
      ensures Valid() && State() == S.Decrement(old(State()), v)
    {
      cpu := cpu.(value := P.Wrap32(cpu.value as int - v as int));
    }

    method Schedule()
      requires Valid()
      modifies this, table
      ensures Valid() && State() == S.Schedule(old(State()))
    {
      S.ScheduleInv(State());
      if running != S.Idle || ready == [] {
        return;
      }
      var target := ready[|ready| - 1];
      ready := ready[..|ready| - 1];
      table[target] := table[target].(state := S.Running);
      cpu := S.Cpu(table[target].program, table[target].programCounter, table[target].value);
      running := target;
    }

    method Block()
      requires Valid() && running != S.Idle
      modifies this, table
      ensures Valid() && State() == S.Block(old(State()))
    {
      S.BlockInv(State());
      blocked := blocked + [running];
      table[running] := table[running].(state := S.Blocked, programCounter := cpu.programCounter,
                                        value := cpu.value);
      running := S.Idle;
    }

    method End()
      requires Valid() && running != S.Idle
      modifies this, table
      ensures Valid() && State() == S.End(old(State()))
    {
      S.EndInv(State());
      table[running] := table[running].(state := S.Finished);
      running := S.Idle;
    }

    method Fork(v: P.int32)
      requires Valid() && running != S.Idle && (v > 0 ==> numProcesses < S.Capacity)
      modifies this, table
      ensures Valid() && State() == S.Fork(old(State()), v)
    {
      S.ForkInv(State(), v);
      var child := numProcesses;
      numProcesses := numProcesses + 1;
      if v > 0 {
        table[child] := table[child].(processId := child,
          parentProcessId := table[running].processId, programCounter := cpu.programCounter,
          value := cpu.value, state := S.Running, startTime := timestamp);
        table[running] := table[running].(state := S.Ready,
          programCounter := cpu.programCounter + 1);
        ready := ready + [running];
        running := child;
      }
    }

    /** The loader's success flag is only reported by the source, never acted on. */
    method Replace(name: string, fs: P.FileSystem)
      requires Valid()
      modifies this
      ensures Valid() && State() == S.Replace(old(State()), P.LoadProgram(fs, name))
    {
      ghost var before := State();
      var ok, program := P.CreateProgram(fs, name);
      ghost var loaded := P.Loaded(ok, program);
      assert loaded == P.LoadProgram(fs, name);
      S.InvIgnoresCpu(before, S.Cpu(program, 0, cpu.value));
      cpu := S.Cpu(program, 0, cpu.value);
      assert State() == S.Replace(before, loaded);
    }

    method Quantum(fs: P.FileSystem)
      requires Valid() && S.QuantumFits(State())
      modifies this, table
      ensures Valid() && State() == S.Quantum(old(State()), fs)
    {
      if running == S.Idle {
        timestamp := timestamp + 1;
        return;
      }
      ghost var start := State();
      var instr := Fetch();
      ghost var fetched := State();
      assert instr.Fork? ==> S.ForkFits(fetched, instr.arg);
      Execute(instr, fs);
      ghost var executed := State();
      S.TickInv(executed);
      timestamp := timestamp + 1;
      assert State() == S.Tick(executed);
      Schedule();
      assert State() == S.Schedule(S.Tick(S.Execute(S.Advance(start), S.Fetch(start.cpu), fs)));
    }

    /** The fetch step of quantum(): past the end of the program an E is synthesized. */
    method Fetch() returns (instr: P.Instruction)
      requires Valid()
      modifies this
      ensures Valid() && State() == S.Advance(old(State())) && instr == S.Fetch(old(State()).cpu)
    {
      S.AdvanceInv(State());
      if cpu.programCounter < |cpu.program| {
        instr := cpu.program[cpu.programCounter];
        cpu := cpu.(programCounter := cpu.programCounter + 1);
      } else {
        instr := P.End;
      }
    }

    /** The switch of quantum() on the fetched instruction. */
    method Execute(instr: P.Instruction, fs: P.FileSystem)
      requires Valid() && running != S.Idle
      requires instr.Fork? ==> S.ForkFits(State(), instr.arg)
      modifies this, table
      ensures Valid() && State() == S.Execute(old(State()), instr, fs)
    {
      match instr {
        case Set(v) => Set(v);
        case Add(v) => Add(v);
        case Decrement(v) => Decrement(v);
        case Block => Block();
        case End =>
          S.StampFinishInv(State());
          table[running] := table[running].(finishTime := timestamp);
          assert State() == S.StampFinish(old(State()));
          End();
        case Fork(v) => Fork(v);
        case Replace(name) => Replace(name, fs);
      }
    }

    method Unblock()
      requires Valid()
      modifies this, table
      ensures Valid() && State() == S.Unblock(old(State()))
    {
      if blocked == [] {
        return;
      }
      S.ReleaseInv(State());
      var target := blocked[0];
      blocked := blocked[1..];
      ready := ready + [target];
      table[target] := table[target].(state := S.Ready);
      Schedule();
    }

    /** One command character; the result says whether the loop stops after it. */
    method Command(ch: char, fs: P.FileSystem) returns (stop: bool)
      requires Valid() && ((ch == 'Q' || ch == 'q') ==> S.QuantumFits(State()))
      modifies this, table
      ensures Valid() && State() == S.Command(old(State()), ch, fs)
      ensures stop == S.Terminates(ch)
    {
      if ch == 'Q' || ch == 'q' {
        Quantum(fs);
      } else if ch == 'U' || ch == 'u' {
        Unblock();
      }
      stop := ch == 'T';
    }

    /** The command loop over the characters read from the pipe, in order. */
    method Run(fs: P.FileSystem, commands: seq<char>)
      requires Valid() && S.Runs(State(), fs, commands)
      modifies this, table
      ensures Valid() && State() == S.Run(old(State()), fs, commands)
    {
      var i := 0;
      while i < |commands|
        invariant 0 <= i <= |commands|
        invariant Valid() && S.Runs(State(), fs, commands[i..])
        invariant S.Run(old(State()), fs, commands) == S.Run(State(), fs, commands[i..])
        decreases |commands| - i
      {
        assert commands[i..][0] == commands[i] && commands[i..][1..] == commands[i + 1..];
        var stop := Command(commands[i], fs);
        i := i + 1;
        if stop {
          return;
        }
      }
    }

    /**
     The integer total of averageTurnaroundTime, accumulated over the first
     numProcesses slots with 32-bit wrap-around.
     */
    method TotalTurnaroundTime() returns (total: P.int32)
      requires Valid() && numProcesses <= S.Capacity
      ensures total == S.TurnaroundTotal(State())
    {
      total := 0;
      var i := 0;
      while i < numProcesses
        invariant 0 <= i <= numProcesses
        invariant total == P.Wrap32(S.TurnaroundSum(table[..], i))
      {
        S.WrapAdd(S.TurnaroundSum(table[..], i),
                  table[i].finishTime as int - table[i].startTime as int);
        total := P.Wrap32(total as int + (table[i].finishTime as int - table[i].startTime as int));
        i := i + 1;
      }
    }
  }

  /**
   runProcessManager: load "init"; if that fails the status is 1 and nothing
   runs; otherwise the manager starts with the loaded program, reads the
   commands and the status is 0.
   */
  method RunProcessManager(fs: P.FileSystem, commands: seq<char>) returns (status: int, pm: Manager?)
    requires P.LoadProgram(fs, "init").ok ==> S.Runs(S.Init(P.LoadProgram(fs, "init").program), fs, commands)
    ensures status == (if P.LoadProgram(fs, "init").ok then 0 else 1)
    ensures pm == null <==> status == 1
    ensures pm != null ==>
      pm.Valid() && pm.State() == S.Run(S.Init(P.LoadProgram(fs, "init").program), fs, commands)
  {
    var ok, program := P.CreateProgram(fs, "init");
    if !ok {
      return 1, null;
    }
    pm := new Manager(program);
    pm.Run(fs, commands);
    status := 0;
  }
}
