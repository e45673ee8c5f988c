# A verified model of a naive Brainfuck interpreter

The modelled program is a small interpreter for Brainfuck, the
eight-instruction tape language. One instance holds:

- a tape of 65536 byte cells that wrap around;
- a data pointer;
- an instruction buffer that only grows, and an instruction pointer into it;
- a stack of jump positions, one for each `[` that was entered with a nonzero cell;
- a seek depth, used to skip the body of a loop whose cell was zero;
- an output accumulator.

The interpreter finds the matching `]` as it goes: it counts bracket depth
while skipping. It never builds a bracket table, so a program can be fed a
piece at a time.

## Structure

- `tape.dfy`, module `Tape`: the cell type `Byte` (0..255); `Inc` and `Dec`
  with the wrap-around; `MEMSIZE`.
- `processor.dfy`, module `Processor`: the whole instance as one value
  (`Machine`), the faults, and `Process`. `Process` is one call of
  `processInstruction` as a function from a machine and a character to the
  next machine and a status. Next to it are the lemmas for each instruction.
- `driver.dfy`, module `Driver`:
  - `Next` fetches and dispatches one instruction;
  - `Drive` is the stepping loop of `run`, with fuel, and `Continue` its
    reaction to the status of one step;
  - `RunAndFlush` is `run` including the flush;
  - `Append`, `Initial` and `Observe` are `addInstructions`, reset and the snapshot;
  - the invariant `Consistent`: every state reached without a pointer fault keeps it;
  - `Resume`: incremental feeding.
- `laws.dfy`, module `Laws`: laws about whole runs.
  - A run of `+`/`-` adds its net count modulo 256.
  - A run does not depend on output already produced.
  - Running, appending and running again prints what one run of the whole text prints.
- `loops.dfy`, module `Loops`: bracket depth and the `Balanced` invariant.
  A well-bracketed program run to its end leaves the jump stack empty and
  seek depth 0, and never meets an unmatched `]`.
- `interpreter.dfy`, module `Brainfuck`: class `Interpreter`. Its fields
  are the source's shared variables, and the tape is an `array<Byte>`.
  Every method's postcondition ties `Current()`, the fields seen as one
  `Machine`, to the function above: `ProcessInstruction` to `Process`,
  `DoNextInstruction` to `Next`, `Run` to `RunAndFlush`, `AddInstructions`
  to `Append`, and `Reset` and the constructor to `Initial`.
- `scenarios.dfy`, module `Scenarios`: client methods. Each runs a short
  program on a fresh instance and states the result. The `Step` methods
  fetch one instruction of a known kind and state the new fields directly.

Decisions about the code's less obvious behaviour:

- A failing `>` or `<` has already moved the data pointer: on failure it is
  `MEMSIZE` or `-1` (brainfuck.js:53-54, 58-59). The failed move is not
  undone, and the model keeps the moved pointer. After such a fault,
  stepping needs the pointer back on the tape. `Reset`, `AddInstructions`
  and `EmitState` remain callable.
- The code throws two different strings for the two pointer failures. The
  model keeps them apart as `ExceededMemSize` and `NegativeDataPtr`.
- `]` outside seek mode, with an empty jump stack:
  - If the cell is zero, popping the empty stack is a no-op and execution
    moves on, as in the code.
  - If the cell is nonzero, the code sets the instruction pointer to `NaN`,
    and the next fetch finds no instruction, so `run` stops as if the
    buffer were exhausted. The model reports `Error(UnmatchedJump)` and
    changes nothing.
- A fault inside `run` escapes before the flush: the output is not cleared
  (brainfuck.js:132-139). `RunAndFlush` does the same.

## Model

| member | source | states |
|---|---|---|
| Tape.Inc | brainfuck.js:62-64 | `+` on a byte cell: below 255 adds one, 255 wraps to 0 |
| Tape.Dec | brainfuck.js:66-68 | `-` on a byte cell: above 0 subtracts one, 0 wraps to 255 |
| Tape.IncDecInverse | brainfuck.js:62-68 | incrementing and decrementing a cell undo each other |
| Tape.Blank | brainfuck.js:26-30 | the initial tape: MEMSIZE cells, all zero |
| Processor.Process | brainfuck.js:50-117 | one step never reports NoMore; an executed step keeps the pointer on the tape; the instruction buffer is never changed; a failed step changes at most the data pointer |
| Processor.AdvanceOrJump | brainfuck.js:81-85 | an executed step moves the instruction pointer by exactly one, except a taken `]`, which pops the jump stack and lands on the popped position |
| Processor.CellArithmetic | brainfuck.js:62-68 | `+`/`-` outside seek mode change only the guard cell, by one with wrap-around, and advance |
| Processor.PointerBounds | brainfuck.js:52-60 | `>` fails exactly at cell MEMSIZE-1 and `<` exactly at cell 0; the failed move has set the pointer to MEMSIZE or -1; a successful move shifts the pointer by one and advances |
| Processor.SeekIsolation | brainfuck.js:52-105 | while seeking nothing fails and tape, data pointer, jumps and output stay unchanged; `[` raises and `]` lowers the seek depth; everything else, `,` included, is skipped |
| Processor.LoopEntry | brainfuck.js:71-78 | `[` outside seek mode: a zero guard sets seek depth 1 with jumps unchanged; a nonzero guard pushes the current instruction pointer |
| Processor.LoopExit | brainfuck.js:81-88 | `]` outside seek mode: a nonzero guard jumps to the top of the jump stack and pops it (fails when the stack is empty); a zero guard pops, if anything is there, and moves on |
| Processor.OutputAndInput | brainfuck.js:89-100 | `.` appends exactly the character whose code is the guard cell and changes nothing else; `,` fails with nothing changed |
| Processor.NonCommandSkipped | brainfuck.js:101-105 | any other character only advances the instruction pointer |
| Processor.NestingKept | brainfuck.js:52-100 | a step on anything but a bracket leaves the jump stack and seek depth alone and, when it executes, advances by one |
| Driver.Initial | brainfuck.js:18-44 | the initial state can be stepped |
| Driver.Next | brainfuck.js:120-124 | NoMore exactly when the instruction pointer is at the end of the buffer, and then nothing changes |
| Driver.InitialConsistent | brainfuck.js:18-44 | the initial state satisfies the invariant |
| Driver.AppendConsistent | brainfuck.js:127-129 | appending instructions keeps the invariant |
| Driver.NextConsistent | brainfuck.js:71-88 | a fetched step keeps the invariant: instruction pointer within the buffer, jump-stack entries increasing, behind the pointer and each at a `[`; after a jump the next instruction fetched is that `[` |
| Driver.Drive | brainfuck.js:132-136 | the stepping loop never changes the buffer; it stops at the end of the buffer (with the pointer there; the check uses no fuel), at a fault, or when the fuel runs out (with the pointer still inside the buffer) |
| Driver.Continue | brainfuck.js:132-136 | the rest of the loop after one executed or failed step uses at least one unit of fuel, never changes the buffer, and stops at the end of the buffer only with the pointer there, or for lack of fuel only with none left and the pointer inside the buffer |
| Driver.DriveConsistent | brainfuck.js:132-136 | a run keeps the invariant and, when the buffer is exhausted, stops with the instruction pointer exactly at its end |
| Driver.ProcessAppend | brainfuck.js:50-117 | a step never reads the instruction buffer: processing with more text appended gives the same step with the same text appended |
| Driver.NextAppend | brainfuck.js:120-129 | a step is unaffected by text appended after it |
| Driver.Resume | brainfuck.js:127-136 | running with text already appended equals running to exhaustion, appending there, and running on with the remaining fuel |
| Driver.RunOnlyDrainsOutput | brainfuck.js:132-140 | a finished `run` returns the accumulated output and clears it, leaving tape, pointers, jumps and seek depth where the stepping stopped |
| Laws.PlusMinusRun | brainfuck.js:62-68 | a text of `+` and `-` leaves the guard cell at its old value plus the net count modulo 256, and changes nothing but the instruction pointer |
| Laws.PlusMinusProgram | brainfuck.js:62-139 | a program of `+` and `-` alone, run from a fresh instance with one unit of fuel per instruction, finishes without printing and leaves cell 0 at its net count modulo 256 |
| Laws.ProcessIgnoresOutput | brainfuck.js:89-94 | a step only appends to the output, whatever was accumulated before |
| Laws.DriveIgnoresOutput | brainfuck.js:132-136 | a whole run is independent of output accumulated before it |
| Laws.IncrementalRun | brainfuck.js:127-140 | `run`, `addInstructions`, `run` prints across its two flushes exactly what one `run` of the whole text prints, and ends in the same state |
| Loops.LoadBalanced | brainfuck.js:146-156 | a freshly loaded program satisfies the balance invariant |
| Loops.AppendBalanced | brainfuck.js:127-129 | appending keeps the balance invariant |
| Loops.NextBalanced | brainfuck.js:71-88 | with no stray `]`, a step never fails for an unmatched `]` and keeps jumps plus seek depth equal to the bracket depth at the pointer |
| Loops.DriveBalanced | brainfuck.js:132-136 | the same for whole runs |
| Loops.LoopBalance | brainfuck.js:71-88 | a well-bracketed program run to the end of its text leaves the jump stack empty and seek depth 0 |
| Brainfuck.Interpreter.constructor | brainfuck.js:18-44 | a new instance has a zeroed tape of MEMSIZE cells and every other variable zero or empty |
| Brainfuck.Interpreter.ProcessInstruction | brainfuck.js:50-117 | updates the fields in place exactly as `Process` describes |
| Brainfuck.Interpreter.DoNextInstruction | brainfuck.js:120-124 | updates the fields exactly as `Next` describes, and keeps the invariant |
| Brainfuck.Interpreter.AddInstructions | brainfuck.js:127-129 | appends to the buffer, changes nothing else, and keeps the invariant |
| Brainfuck.Interpreter.Run | brainfuck.js:132-140 | loops `DoNextInstruction` and ends as `RunAndFlush` describes |
| Brainfuck.Interpreter.EmitState | brainfuck.js:142-144 | returns the snapshot of data pointer, buffer, instruction pointer, jumps, seek depth and output |
| Brainfuck.Interpreter.Reset | brainfuck.js:146-156 | from any state, even after a fault, returns to the initial state with a zeroed tape |
| Scenarios.PrintThree | brainfuck.js:62-64 | `+++.` prints the single character with code 3 |
| Scenarios.MoveLoop | brainfuck.js:71-88 | `++[>+<-]` from a reset ends with cell 0 = 0, cell 1 = 2, no jumps and seek depth 0 |
| Scenarios.SkipLoop | brainfuck.js:71-88 | `[-]` on a zero cell seeks past the body: seek depth 1 after `[`, 0 after `]`, cell still 0 |
| Scenarios.InputFails | brainfuck.js:97-100 | `,` fails with cells and both pointers as they were |
| Scenarios.JumpBackToOpen | brainfuck.js:81-85 | after `+[` has run, an appended `]` sends execution back to the `[` itself |
| Scenarios.ResetThenEmit | brainfuck.js:142-156 | after any run, reset then emitState gives the all-zero, all-empty snapshot |
| Scenarios.LeftEdge | brainfuck.js:57-60 | `<` on cell 0 fails with the data pointer already at -1 and the instruction pointer unchanged |
| Scenarios.StepCell | brainfuck.js:62-68 | one fetched `+` or `-` outside seek mode changes only the guard cell, with wrap-around, and the instruction pointer |
| Scenarios.StepMove | brainfuck.js:52-60 | one fetched `>` or `<` that stays on the tape moves only the data pointer and the instruction pointer |
| Scenarios.StepPrint | brainfuck.js:89-94 | one fetched `.` appends the guard cell's character and advances |
| Scenarios.StepOpen | brainfuck.js:71-78 | one fetched `[`: a zero guard sets seek depth 1, a nonzero one pushes the position of the `[` |
| Scenarios.StepClose | brainfuck.js:81-88 | one fetched `]` with a recorded `[`: pops it, then lands on it when the guard is nonzero and moves on otherwise |

## Left out

- The module wrapper for AMD, CommonJS and browser globals (brainfuck.js:5-16, 158-166). It is packaging and affects no behaviour.
- `debug`, `setDebug` and the `console.log` calls (brainfuck.js:46-48, 93, 113, 137) are diagnostic output. `Run` returns the output it flushes instead of printing it.
- `emitState` calls a caller-supplied callback with the snapshot (brainfuck.js:142-144). `EmitState` returns the snapshot instead.
- Reading input for `,` is not implemented in the source (brainfuck.js:99 is commented out). Only the failure is modelled.
- Processor.Process: after `]` with a nonzero cell and an empty jump stack, the source's instruction pointer becomes `NaN` and later steps halt silently. The model reports `UnmatchedJump` and leaves the state unchanged, so it does not imitate `NaN`. In consequence, for such a program (`.+.]`, say) the source's `run` stops normally and flushes the output, while the model's `Run` returns `Failed(UnmatchedJump)` and keeps the output.
- Brainfuck.Interpreter.Run: bounded by `fuel` executed instructions, because the source's `while (true)` loop need not terminate. Only executed or failed steps use fuel; reaching the end of the buffer is free, so `fuel` units suffice for `fuel` instructions. A run that still has instructions to fetch when the fuel is spent returns `OutOfFuel` and leaves the output unflushed, where the source would keep going.
- Brainfuck.Interpreter.ProcessInstruction, Brainfuck.Interpreter.DoNextInstruction and Brainfuck.Interpreter.Run: require the data pointer on the tape, so none of them can be called after a pointer fault until `Reset`. In the source, another call would execute the same `>` or `<` again and throw again, and the other instructions would touch the typed array out of bounds; that JavaScript behaviour is not modelled. The invariant `Consistent` is proved for instructions fetched by `DoNextInstruction`, not for arbitrary characters passed directly to `processInstruction`.
- Characters: the model's instruction buffer is a sequence of Dafny characters, which are Unicode scalar values, while the source indexes a JavaScript string by UTF-16 code units (brainfuck.js:121). For text outside the Basic Multilingual Plane, a character takes two steps in the source and one in the model. The instruction pointer, the jump-stack entries and the step counts that `emitState` shows then differ. A lone surrogate cannot be represented at all. For text inside the Basic Multilingual Plane, which includes all eight commands, the two agree.
- The tape size is fixed at 65536, as in the source; it is not a construction parameter.
