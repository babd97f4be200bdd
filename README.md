# Process-manager simulator in Dafny

A model of `skeleton.cc`, a single-CPU, cooperative process-manager simulator.
A root process runs a program of one-letter instructions:

- S, A and D set, add to and subtract from an accumulator;
- B blocks the process;
- E ends it;
- F forks;
- R replaces the running program with one loaded from a file.

The operator drives the simulation one command at a time: Q runs one
instruction (a quantum) and U unblocks the oldest blocked process.

The project has three modules:

- `program.dfy` (module `Program`): the instruction type and the program
  loader. This covers `trim`, the integer reading of `argStream >> intArg`, the
  per-line decoding of `createProgram` and the `createProgram` loop itself (a
  method over the lines of a file, proved equal to its specification
  `LoadProgram`). It also gives a rendering of instructions as text, so the
  loader's round trip can be stated.
- `scheduler.dfy` (module `Scheduler`): the engine as a state machine over
  values. The state holds the PCB table, the ready and blocked queues, the CPU
  context, the running id, the process count and the clock. There is one
  transition function per handler (`schedule`, `block`, `end`, `fork`,
  `replace`, `set`, `add`, `decrement`, `quantum`, `unblock`, the command
  switch and the command loop). The module also holds the state invariant
  `Inv` with its preservation lemmas, the life-cycle and queue-discipline
  lemmas, and worked examples.
- `process_manager.dfy` (module `ProcessManager`): the engine as the source
  runs it. The class `Manager` holds a fixed array of ten PCBs and the other
  globals as fields, with one method per handler. Each method updates fields in
  place and ensures that the new state `State()` is the matching `Scheduler`
  transition applied to the old one, and that `Valid()` (the invariant) is
  kept. `RunProcessManager` loads `init`, starts the manager and runs the
  commands.

Integers:

- `cpu.value` and the parsed arguments are 32-bit: `int32`.
- Addition and subtraction wrap in two's complement (`Wrap32`).
- Counters, program counters and timestamps are unbounded naturals.

The file system is a parameter: a map from file name to the lines of the file.

In these places the code does something a reader might not expect, and the
model follows the code:

- The ready queue is a stack. A process is pushed at the back (skeleton.cc:349,
  skeleton.cc:443) and the one at the back is scheduled (skeleton.cc:269-270).
  The blocked queue is FIFO.
- `fork` always increments the process count, even for an argument of at most
  0 (skeleton.cc:334). It sets the parent's saved counter to the CPU counter
  plus 1, not plus the argument (skeleton.cc:347). It does not save the
  parent's accumulator. It leaves the child's own program as whatever its slot
  held, which is empty in a reachable state (skeleton.cc:338-343).
- `replace` installs whatever the loader pushed and resets the counter to 0,
  whether or not loading succeeded (skeleton.cc:363-368). The loader pushes
  nothing when the file is missing and the lines before the bad one when a line
  is malformed.
- `replace` changes only the CPU's program (skeleton.cc:363-364), never the
  PCB's. Once a replaced process is descheduled, `schedule` reloads its
  original program at the saved counter (skeleton.cc:276-278).
- `trim` leaves a string made only of white space unchanged
  (skeleton.cc:130-135). A line holding only white space is therefore not
  skipped: its opcode is a white-space character, and the load fails with an
  invalid operation.
  Only truly empty lines are skipped.
- The loop stops only on an upper-case `T` (skeleton.cc:516). A lower-case `t`
  prints the report and the loop goes on.
- The turnaround total is summed over the first `numProcesses` slots, finished
  or not (skeleton.cc:460-462). A process that is still alive has finish time
  0, so it counts as minus its start time. Once a forked child is alive, the
  total can therefore be negative: after S 1 and F 1 it is -1
  (`ForkedTurnaroundScenario`).

## Model

| member | source | states |
|---|---|---|
| Program.Wrap32 | skeleton.cc:244-253 | the 32-bit result equals the exact one when that fits, and is always congruent to it modulo 2^32 |
| Program.LeadingSpaces | skeleton.cc:130 | the length of the leading white-space run (`IsSpace` is the six characters of `" \t\n\r\f\v"`): everything before it is white space and the character after it is not |
| Program.TrailingSpaces | skeleton.cc:134 | the length of the trailing white-space run: everything after its start is white space and the character before it is not |
| Program.Trim | skeleton.cc:128-138 | a string of white space only (including the empty one) is returned unchanged; otherwise the result is non-empty and neither starts nor ends with white space |
| Program.TrimPadded | skeleton.cc:128-138 | trimming text with non-space ends, padded by any white space on either side, gives back exactly that text |
| Program.TrimIdempotent | skeleton.cc:128-138 | trimming twice is trimming once |
| Program.ParseIntToString | skeleton.cc:166-172 | reading an integer back from its decimal rendering gives that integer, whatever non-digit text follows it |
| Program.ToUpper | skeleton.cc:164 | each of the 26 lower-case letters maps to the upper-case letter at the same place in the alphabet, and every other character is unchanged |
| Program.ParseInt | skeleton.cc:166-172 | after the leading white space, text that does not start with a digit, or with a sign followed by a digit, gives no integer (a lone sign included); an empty or blank argument gives none either |
| Program.ParseIntTooLarge | skeleton.cc:166-172 | digits whose value is at least 2^31 give no integer, whatever non-digit text follows |
| Program.ParseIntTooSmall | skeleton.cc:166-172 | a minus sign and digits whose value exceeds 2^31 give no integer, whatever non-digit text follows |
| Program.ParseLine | skeleton.cc:158-165 | a line is skipped exactly when it is empty; otherwise its first non-blank character, upper-cased, is the opcode of the instruction it yields |
| Program.ParseLineBlank | skeleton.cc:161-162 | a line is skipped exactly when it is empty; a non-empty line of white space only fails as an invalid operation |
| Program.Decode | skeleton.cc:164-193 | decoding never skips. An opcode other than S, A, D, F, B, E and R fails as an invalid operation; S, A, D and F fail as an invalid integer exactly when no integer can be read, and otherwise carry that integer; R fails as a missing string exactly when its argument is empty, and otherwise carries it; B and E are accepted whatever follows. A decoded instruction's letter is the opcode |
| Program.ParseRender | skeleton.cc:161-194 | writing an instruction as opcode (either case), a space and its argument, padded by any white space, decodes back to that instruction, for every instruction whose R name (if any) is non-empty with no white space at either end |
| Program.Collect | skeleton.cc:158-199 | the load succeeds exactly when no decoded line is malformed, and pushes at most one instruction per line |
| Program.LoadLines | skeleton.cc:158-199 | the load of a file's lines succeeds exactly when no line is malformed, and pushes at most one instruction per line |
| Program.LoadProgram | skeleton.cc:150-157 | a file that cannot be opened loads nothing and reports failure |
| Program.LoadRenderAll | skeleton.cc:161-199 | a program written one instruction per line loads back as the same program, successfully, when every R name in it is non-empty with no white space at either end |
| Program.LoadSkipsEmptyLine | skeleton.cc:162 | inserting an empty line anywhere in a file does not change what is loaded |
| Program.LoadStopsAtFirstBadLine | skeleton.cc:172-192 | at the first malformed line loading fails, keeping exactly the instructions of the lines before it |
| Program.LoadLinesConcat | skeleton.cc:158-197 | lines load in order: a file's instructions are those of its first part followed by those of the rest, unless the first part already failed |
| Program.LoadOneLine | skeleton.cc:161-195 | one line loads as nothing (skipped), as its own instruction, or as a failure with nothing pushed |
| Program.CreateProgram | skeleton.cc:150-200 | the loop over the file's lines returns exactly the success flag and the instructions of `LoadProgram` |
| Scheduler.Init | skeleton.cc:472-484 | the start state has ten slots with process 0 running the init program, saved counter and value 0, start and finish time 0, and every other slot unused; the clock is 0, the process count 1, both queues are empty, and the clock fields are consistent |
| Scheduler.InitInv | skeleton.cc:472-484 | the start state has process 0 running alone with parent -1 and the CPU at the top of its program with value 0, and it satisfies the invariant |
| Scheduler.Set | skeleton.cc:238-241 | the accumulator takes the argument and nothing else in the state changes |
| Scheduler.Add | skeleton.cc:244-247 | the accumulator grows by the argument modulo 2^32 (exactly, when no overflow) and nothing else changes |
| Scheduler.Decrement | skeleton.cc:250-253 | the accumulator shrinks by the argument modulo 2^32 (exactly, when no overflow) and nothing else changes |
| Scheduler.DecrementUndoesAdd | skeleton.cc:244-253 | decrementing by the value just added restores the state, overflow included |
| Scheduler.Schedule | skeleton.cc:256-286 | with a process running or no process ready nothing changes; otherwise the id at the back of the ready queue is removed, marked Running, becomes the running id, and the CPU takes its saved program, counter and value |
| Scheduler.ScheduleIdempotent | skeleton.cc:263-284 | scheduling a second time changes nothing |
| Scheduler.ScheduleInv | skeleton.cc:256-286 | scheduling keeps the invariant |
| Scheduler.Block | skeleton.cc:289-305 | the running id is appended to the blocked queue, its PCB saves the CPU counter and value and becomes Blocked, no process runs, and no other PCB, the ready queue or the CPU changes |
| Scheduler.BlockInv | skeleton.cc:289-305 | blocking keeps the invariant |
| Scheduler.End | skeleton.cc:308-316 | the running PCB becomes Finished, no process runs, and nothing else changes |
| Scheduler.EndInv | skeleton.cc:308-316 | ending keeps the invariant |
| Scheduler.Fork | skeleton.cc:319-355 | the process count grows by one. With a positive argument the child slot gets its own id, the parent's id, the CPU counter and value, state Running and the clock as start time; the parent becomes Ready with saved counter CPU counter + 1 and goes to the back of the ready queue; the child runs. With an argument of at most 0 nothing else changes |
| Scheduler.ForkInv | skeleton.cc:333-354 | forking keeps the invariant; the child's parent is the forking process, its own program is empty, and the parent's saved value is left as it was |
| Scheduler.Replace | skeleton.cc:358-369 | the CPU runs what the loader pushed (nothing if the file cannot be opened, the instructions before the bad line if one is malformed) from counter 0 with the same value, and nothing else changes |
| Scheduler.Fetch | skeleton.cc:380-386 | the fetched instruction is the one at the CPU's counter or, past the end of the program, the synthesized E |
| Scheduler.Advance | skeleton.cc:380-386 | the fetch moves the counter past an existing instruction and leaves the CPU alone past the end; nothing else changes |
| Scheduler.Tick | skeleton.cc:422 | the clock grows by one and nothing else changes |
| Scheduler.StampFinish | skeleton.cc:405-406 | only the running PCB's finish time changes, to the clock |
| Scheduler.InvIgnoresCpu | skeleton.cc:363-368 | the invariant does not depend on the CPU context, so changing the program, counter or value keeps it |
| Scheduler.Quantum | skeleton.cc:372-424 | the clock grows by exactly one per quantum, and on an idle CPU nothing else changes |
| Scheduler.Execute | skeleton.cc:387-421 | no instruction moves the clock; only F adds a process and changes the ready queue; exactly B and E leave the CPU idle; exactly B changes the blocked queue; E finishes the process with the current clock as finish time; S sets the value; R installs the loaded program at counter 0 |
| Scheduler.ExecuteInv | skeleton.cc:387-421 | executing any instruction of a running process, with room for a fork, keeps the invariant |
| Scheduler.QuantumInv | skeleton.cc:372-424 | every quantum that has a slot for its fork keeps the invariant |
| Scheduler.QuantumBlock | skeleton.cc:400-404 | a B appends the running id to the blocked queue and saves the already advanced counter and the value |
| Scheduler.QuantumEnd | skeleton.cc:383-386 | an E, written or synthesized past the end of the program, finishes the running process with the pre-quantum clock as finish time, and another (or no) process runs |
| Scheduler.QuantumStaysRunning | skeleton.cc:380-399 | a quantum on S, A, D or R keeps the same process running with the table, both queues and the process count unchanged; the counter moves one past the instruction, or to 0 after R |
| Scheduler.QuantumFork | skeleton.cc:410-415 | a positive F gives the CPU to the child with the counter past the F and the same value; the parent is at the back of the ready queue and resumes two past the F |
| Scheduler.Unblock | skeleton.cc:427-452 | with no blocked process nothing changes; otherwise the front of the blocked queue is removed; the clock and process count never change |
| Scheduler.Release | skeleton.cc:439-446 | the front blocked id leaves the blocked queue, is appended to the ready queue and becomes Ready, and no other PCB changes |
| Scheduler.ReleaseInv | skeleton.cc:439-446 | moving the front blocked process to the ready queue keeps the invariant |
| Scheduler.UnblockInv | skeleton.cc:427-452 | every unblock keeps the invariant |
| Scheduler.UnblockIdleRunsFront | skeleton.cc:439-449 | on an idle CPU the unblocked process runs at once, ahead of every process already waiting, and the ready queue is as before |
| Scheduler.UnblockBusyQueues | skeleton.cc:439-449 | while a process runs the unblocked process waits Ready at the back of the ready queue |
| Scheduler.Partition | skeleton.cc:116-122 | in a reachable state every process ever created is in exactly one of the running slot, the ready queue, the blocked queue and the finished processes |
| Scheduler.ScheduleAdvances | skeleton.cc:267-281 | scheduling moves every slot only along the process life cycle |
| Scheduler.ExecuteAdvances | skeleton.cc:387-421 | executing an instruction moves every slot only along the process life cycle |
| Scheduler.QuantumAdvances | skeleton.cc:372-424 | a quantum moves every slot along the life cycle, and a finished process stays finished |
| Scheduler.UnblockAdvances | skeleton.cc:427-452 | an unblock moves every slot along the life cycle, and a finished process stays finished |
| Scheduler.Command | skeleton.cc:494-515 | commands other than Q, q, U and u leave the state unchanged |
| Scheduler.Run | skeleton.cc:486-516 | after a run the clock has grown by the number of Q commands read before the first upper-case T (`Terminates` holds of `T` alone) |
| Scheduler.Consumed | skeleton.cc:516 | the commands read are all of them, or those up to and including the first upper-case T, and none before that point is a T |
| Scheduler.RunConsumed | skeleton.cc:486-516 | the loop's outcome is the same when it is given only the commands it reads |
| Scheduler.RunInv | skeleton.cc:488-516 | any run of commands keeps the invariant |
| Scheduler.RunStopsAtT | skeleton.cc:516 | nothing after the first upper-case T affects the outcome |
| Scheduler.TurnaroundTotal | skeleton.cc:458-463 | the integer total equals `TurnaroundSum`, the sum of finish minus start over the first `numProcesses` slots, whenever that sum fits in 32 bits |
| Scheduler.WrapAdd | skeleton.cc:460-462 | accumulating with wrap-around at every step gives the total wrapped once |
| Scheduler.ScheduleTimed | skeleton.cc:256-286 | scheduling keeps the clock fields consistent: unused slots hold 0, a live process started no later than now and has finish time 0, a finished one finished between its start and now |
| Scheduler.ExecuteTimed | skeleton.cc:387-421 | executing an instruction keeps the clock fields consistent; E stamps a finish time no earlier than the start, and a forked child's start time is at most the current clock |
| Scheduler.QuantumTimed | skeleton.cc:372-424 | every quantum keeps the clock fields consistent |
| Scheduler.UnblockTimed | skeleton.cc:427-452 | every unblock keeps the clock fields consistent |
| Scheduler.RunTimed | skeleton.cc:486-516 | any run of commands keeps the clock fields consistent |
| Scheduler.Reachable | skeleton.cc:472-516 | every state the loop reaches from the start state satisfies the invariant and has consistent clock fields |
| Scheduler.TurnaroundTerm | skeleton.cc:460-462 | in such a state a slot adds 0 if unused, its running time (between 0 and the clock) if finished, and minus its start time if still alive |
| Scheduler.TurnaroundSumNonNegative | skeleton.cc:460-462 | in such a state, when every counted slot is finished or unused, the sum is not negative |
| Scheduler.ForkedTurnaroundScenario | skeleton.cc:458-463 | after S 1 and F 1 the child started at time 1 still runs with finish time 0, and the turnaround total is -1 |
| Scheduler.ArithmeticScenario | skeleton.cc:387-399 | S 5, A 3, D 1 give accumulator values 5, 8 and 7 on three quanta |
| Scheduler.ImplicitEndScenario | skeleton.cc:375-386 | a program without E ends on the quantum after its last instruction, at that quantum's clock, and a later quantum on the idle CPU only moves the clock; the turnaround total is then 1 |
| Scheduler.BlockScenario | skeleton.cc:400-449 | B blocks the only process, and U puts it straight back on the CPU |
| Scheduler.BlockFileLoads | skeleton.cc:161-199 | a file holding the single line `B` loads successfully as that one instruction |
| Scheduler.ReplaceForgottenScenario | skeleton.cc:358-369 | after R loads a program holding B, the process blocks, and an unblock resumes it on its original program at the counter after the R |
| Scheduler.ForkForgetsValueScenario | skeleton.cc:346-347 | after S 7, F 1 and the child's E, the parent runs again with value 0 (its slot's initial value, since fork never saves the accumulator) at counter 3 |
| Scheduler.ForkScenario | skeleton.cc:410-415 | F 1 makes process 1 run with value 0 and the parent Ready with saved counter 2 |
| ProcessManager.Manager.constructor | skeleton.cc:472-484 | a fresh table of ten PCBs with process 0 running the loaded program; the state is the start state and satisfies the invariant |
| ProcessManager.Manager.Set | skeleton.cc:238-241 | the fields change as `Scheduler.Set` says and the invariant is kept |
| ProcessManager.Manager.Add | skeleton.cc:244-247 | the fields change as `Scheduler.Add` says and the invariant is kept |
| ProcessManager.Manager.Decrement | skeleton.cc:250-253 | the fields change as `Scheduler.Decrement` says and the invariant is kept |
| ProcessManager.Manager.Schedule | skeleton.cc:256-286 | the fields and the table change as `Scheduler.Schedule` says and the invariant is kept |
| ProcessManager.Manager.Block | skeleton.cc:289-305 | the fields and the table change as `Scheduler.Block` says and the invariant is kept |
| ProcessManager.Manager.End | skeleton.cc:308-316 | the fields and the table change as `Scheduler.End` says and the invariant is kept |
| ProcessManager.Manager.Fork | skeleton.cc:319-355 | the fields and the table change as `Scheduler.Fork` says, given a free slot for a positive argument, and the invariant is kept |
| ProcessManager.Manager.Replace | skeleton.cc:358-369 | the CPU takes the program `createProgram` loads, as `Scheduler.Replace` says, and the invariant is kept |
| ProcessManager.Manager.Fetch | skeleton.cc:380-386 | returns the instruction at the counter (E past the end) and advances the counter as `Scheduler.Advance` says |
| ProcessManager.Manager.Execute | skeleton.cc:387-421 | the instruction switch changes the state as `Scheduler.Execute` says, including the finish time before an E |
| ProcessManager.Manager.Quantum | skeleton.cc:372-424 | the fields and the table change as `Scheduler.Quantum` says and the invariant is kept |
| ProcessManager.Manager.Unblock | skeleton.cc:427-452 | the fields and the table change as `Scheduler.Unblock` says and the invariant is kept |
| ProcessManager.Manager.Command | skeleton.cc:494-515 | one command changes the state as `Scheduler.Command` says; the result is true exactly for an upper-case T |
| ProcessManager.Manager.Run | skeleton.cc:486-516 | the loop over the commands leaves the state `Scheduler.Run` gives |
| ProcessManager.Manager.TotalTurnaroundTime | skeleton.cc:458-463 | the loop's 32-bit total is `Scheduler.TurnaroundTotal` of the state |
| ProcessManager.RunProcessManager | skeleton.cc:469-517 | exit status 1 with no manager when `init` fails to load; otherwise status 0 and a manager in the state the commands lead to from the start state |

## Left out

- `main` (skeleton.cc:520-562) is not part of this model. The pipe, the second OS process and the commander loop are operating-system plumbing. `RunProcessManager` takes the command characters as a sequence instead.
- The `read()` of each command from the pipe is not modelled. A short read ends the loop, which the model expresses as reaching the end of the command sequence.
- `reporterProcess` and `print` (the P command, and the report on T) only write output, as do all `cout` and `printf` diagnostics. The model keeps only their effect on the state, which is none.
- `averageTurnaroundTime` returns a `double`. Only its integer total is modelled (`TotalTurnaroundTime`), not the floating-point division.
- Scheduler.TurnaroundTotal: no lower bound is promised for a state with live processes, because the source counts each of them as minus its start time (`TurnaroundTerm`); the total is non-negative only once every counted slot is finished or unused (`TurnaroundSumNonNegative`).
- Opening and reading files is not modelled. The file system is a map from names to already-split lines, and an absent name is a file that cannot be opened.
- `getline` splitting and a possible final empty line are not modelled. That empty line is skipped anyway.
- Scheduler.Quantum: the clock and the program counters are unbounded naturals. The unsigned 32-bit wrap-around of `timestamp` and of the saved counters is not modelled, because it would take 2^32 quanta to reach.
- Scheduler.Add and Scheduler.Decrement: signed overflow of `cpu.value` is undefined behaviour in C++. It is modelled as two's-complement wrap-around, which is what the usual compilers produce.
- Program.ParseInt models `stringstream >> int` as follows: optional leading white space, an optional sign, then the longest run of decimal digits; a value outside `int`, or no digits, is a failure; any text after the digits is accepted and ignored. Locale-dependent behaviour and other number bases are not modelled.
- Program.IsSpace covers exactly the six characters of `" \t\n\r\f\v"`. No other Unicode white space is treated as white space.
- ProcessManager.Manager.Fork: a positive argument needs a free slot, that is, a process count below 10. The source writes past the end of `pcbEntry` otherwise, which is undefined behaviour, so the model takes this as a precondition. The precondition carries over to `Quantum`, `Command` and `Run` as `QuantumFits` and `Runs`.
- ProcessManager.Manager.TotalTurnaroundTime: the process count must be at most 10. The source reads past the end of `pcbEntry` otherwise.
- The leaked `new vector` in `replace` is not modelled, and `cpu.pProgram` is not modelled as a reference. Nothing writes to a program vector once the CPU refers to it, so the CPU holds the program as a value.
