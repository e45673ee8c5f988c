/**
 * Client programs of the interpreter: each drives an instance through a
 * short program and states the resulting state in its postcondition.
 */
module Scenarios {
  import opened Tape
  import opened Processor
  import opened Driver
  import opened Brainfuck

  /** `+++.` prints the single character with code 3. */
  method PrintThree() returns (printed: seq<char>)
    ensures printed == [3 as char]
  {
    var bf := new Interpreter();
    bf.AddInstructions("+++.");
    var st := StepCell(bf);
    st := StepCell(bf);
    st := StepCell(bf);
    st := StepPrint(bf);
    var r := bf.Run(1);
    printed := r.printed;
  }

  /** `++[>+<-]` from a reset moves the 2 from cell 0 to cell 1. */
  method MoveLoop() returns (cell0: Byte, cell1: Byte, jumps: seq<int>, seekMode: nat)
    ensures cell0 == 0 && cell1 == 2 && jumps == [] && seekMode == 0
  {
    var bf := MoveStart();
    MovePass(bf, 2, 0, 2);             // > + < - ]  jumps back to 2
    var st := StepOpen(bf);            // [  taken again
    MovePass(bf, 1, 1, 8);             // > + < - ]  falls through and pops
    var r := bf.Run(1);
    assert r == Finished([]);
    cell0, cell1, jumps, seekMode := bf.data[0], bf.data[1], bf.jumps, bf.seekMode;
  }

  /** A reset instance that has read `++[` of the move loop: the loop is entered. */
  method MoveStart() returns (bf: Interpreter)
    ensures fresh(bf) && fresh(bf.data) && bf.data.Length == MEMSIZE
    ensures bf.instructions == MoveProgram && bf.output == []
    ensures bf.dataPtr == 0 && bf.instructionPtr == 3 && bf.jumps == [2] && bf.seekMode == 0
    ensures bf.data[0] == 2 && bf.data[1] == 0
  {
    bf := new Interpreter();
    bf.Reset();
    bf.AddInstructions(MoveProgram);
    var st := StepCell(bf);  // +
    st := StepCell(bf);      // +
    st := StepOpen(bf);      // [  taken: jumps = [2]
  }

  const MoveProgram: seq<char> := "++[>+<-]"

  /**
   * One pass of `>+<-]` with the loop entered at 2: cell 0 goes from `a`
   * to `a - 1` and cell 1 from `b` to `b + 1`; the `]` then lands on `next`.
   */
  method MovePass(bf: Interpreter, a: Byte, b: Byte, next: int)
    requires bf.data.Length == MEMSIZE && bf.instructions == MoveProgram
    requires bf.dataPtr == 0 && bf.instructionPtr == 3 && bf.jumps == [2] && bf.seekMode == 0
    requires bf.data[0] == a && bf.data[1] == b && 0 < a && b < 255
    requires next == if a == 1 then 8 else 2
    modifies bf, bf.data
    ensures bf.instructions == MoveProgram && bf.output == old(bf.output)
    ensures bf.dataPtr == 0 && bf.instructionPtr == next && bf.jumps == [] && bf.seekMode == 0
    ensures bf.data[0] == a - 1 && bf.data[1] == b + 1
  {
    var st := StepMove(bf);  // >
    st := StepCell(bf);      // +
    st := StepMove(bf);      // <
    st := StepCell(bf);      // -
    st := StepClose(bf);     // ]
  }

  /** The unchanged parts of two states of one instance. */
  ghost predicate Keeps(bf: Interpreter, dataPtr: int, instructions: seq<char>, seekMode: nat, output: seq<char>)
    reads bf
  {
    bf.dataPtr == dataPtr && bf.instructions == instructions &&
    bf.seekMode == seekMode && bf.output == output
  }

  /** One `+` or `-` outside seek mode: the guard cell changes with wrap-around. */
  method StepCell(bf: Interpreter) returns (st: Status)
    requires Ready(bf.Current()) && bf.seekMode == 0
    requires bf.instructionPtr < |bf.instructions|
    requires bf.instructions[bf.instructionPtr] == '+' || bf.instructions[bf.instructionPtr] == '-'
    modifies bf, bf.data
    ensures st == Executed
    ensures bf.data[..] == old(bf.data[..][bf.dataPtr :=
      if bf.instructions[bf.instructionPtr] == '+' then Inc(bf.data[bf.dataPtr]) else Dec(bf.data[bf.dataPtr])])
    ensures bf.instructionPtr == old(bf.instructionPtr) + 1 && bf.jumps == old(bf.jumps)
    ensures Keeps(bf, old(bf.dataPtr), old(bf.instructions), old(bf.seekMode), old(bf.output))
  {
    ghost var m := bf.Current();
    CellArithmetic(m, m.instructions[m.instructionPtr]);
    assert Process(m, m.instructions[m.instructionPtr]).after.tape ==
      m.tape[m.dataPtr := Process(m, m.instructions[m.instructionPtr]).after.tape[m.dataPtr]];
    st := bf.DoNextInstruction();
  }

  /** One `>` or `<` outside seek mode that stays on the tape. */
  method StepMove(bf: Interpreter) returns (st: Status)
    requires Ready(bf.Current()) && bf.seekMode == 0
    requires bf.instructionPtr < |bf.instructions|
    requires bf.instructions[bf.instructionPtr] == '>' ==> bf.dataPtr < MEMSIZE - 1
    requires bf.instructions[bf.instructionPtr] == '<' ==> bf.dataPtr > 0
    requires bf.instructions[bf.instructionPtr] == '>' || bf.instructions[bf.instructionPtr] == '<'
    modifies bf, bf.data
    ensures st == Executed && bf.data[..] == old(bf.data[..])
    ensures bf.dataPtr == old(bf.dataPtr + if bf.instructions[bf.instructionPtr] == '>' then 1 else -1)
    ensures bf.instructionPtr == old(bf.instructionPtr) + 1 && bf.jumps == old(bf.jumps)
    ensures Keeps(bf, bf.dataPtr, old(bf.instructions), old(bf.seekMode), old(bf.output))
  {
    PointerBounds(bf.Current());
    st := bf.DoNextInstruction();
  }

  /** One `.` outside seek mode: the guard cell's character is appended to the output. */
  method StepPrint(bf: Interpreter) returns (st: Status)
    requires Ready(bf.Current()) && bf.seekMode == 0
    requires bf.instructionPtr < |bf.instructions| && bf.instructions[bf.instructionPtr] == '.'
    modifies bf, bf.data
    ensures st == Executed && bf.data[..] == old(bf.data[..])
    ensures bf.instructionPtr == old(bf.instructionPtr) + 1 && bf.jumps == old(bf.jumps)
    ensures Keeps(bf, old(bf.dataPtr), old(bf.instructions), 0, old(bf.output + [bf.data[bf.dataPtr] as char]))
  {
    OutputAndInput(bf.Current());
    st := bf.DoNextInstruction();
  }

  /** One `[` outside seek mode: a zero cell starts seeking, any other enters the loop. */
  method StepOpen(bf: Interpreter) returns (st: Status)
    requires Ready(bf.Current()) && bf.seekMode == 0
    requires bf.instructionPtr < |bf.instructions| && bf.instructions[bf.instructionPtr] == '['
    modifies bf, bf.data
    ensures st == Executed && bf.data[..] == old(bf.data[..])
    ensures bf.instructionPtr == old(bf.instructionPtr) + 1
    ensures old(bf.data[bf.dataPtr]) == 0 ==>
      bf.jumps == old(bf.jumps) && Keeps(bf, old(bf.dataPtr), old(bf.instructions), 1, old(bf.output))
    ensures old(bf.data[bf.dataPtr]) != 0 ==>
      bf.jumps == old(bf.jumps + [bf.instructionPtr]) &&
      Keeps(bf, old(bf.dataPtr), old(bf.instructions), 0, old(bf.output))
  {
    LoopEntry(bf.Current());
    st := bf.DoNextInstruction();
  }

  /**
   * One `]` outside seek mode with a recorded `[`: a nonzero cell lands on
   * that `[`, a zero cell falls through; both pop it.
   */
  method StepClose(bf: Interpreter) returns (st: Status)
    requires Ready(bf.Current()) && bf.seekMode == 0 && bf.jumps != []
    requires bf.instructionPtr < |bf.instructions| && bf.instructions[bf.instructionPtr] == ']'
    modifies bf, bf.data
    ensures st == Executed && bf.data[..] == old(bf.data[..])
    ensures bf.jumps == old(bf.jumps[..|bf.jumps| - 1])
    ensures bf.instructionPtr == old(
      if bf.data[bf.dataPtr] != 0 then bf.jumps[|bf.jumps| - 1] else bf.instructionPtr + 1)
    ensures Keeps(bf, old(bf.dataPtr), old(bf.instructions), 0, old(bf.output))
  {
    LoopExit(bf.Current());
    st := bf.DoNextInstruction();
  }

  /** `[-]` on a zero cell skips the body by seeking: the cell stays 0. */
  method SkipLoop() returns (cell0: Byte, seekAfterOpen: nat, seekAfterClose: nat)
    ensures cell0 == 0 && seekAfterOpen == 1 && seekAfterClose == 0
  {
    var bf := new Interpreter();
    bf.AddInstructions("[-]");
    var st := bf.DoNextInstruction();
    seekAfterOpen := bf.seekMode;
    st := bf.DoNextInstruction();
    st := bf.DoNextInstruction();
    seekAfterClose := bf.seekMode;
    cell0 := bf.data[0];
  }

  /** `,` fails and leaves the cells and both pointers as they were. */
  method InputFails() returns (st: Status, dataPtr: int, instructionPtr: int, cell0: Byte)
    ensures st == Error(InputNotImplemented)
    ensures dataPtr == 1 && instructionPtr == 2 && cell0 == 1
  {
    var bf := new Interpreter();
    bf.AddInstructions("+>,");
    st := StepCell(bf);
    st := StepMove(bf);
    OutputAndInput(bf.Current());
    st := bf.DoNextInstruction();
    dataPtr, instructionPtr, cell0 := bf.dataPtr, bf.instructionPtr, bf.data[0];
  }

  /**
   * Streaming: with a nonzero cell, `+[` is run, and only then `]` is
   * appended; the `]` sends execution back to the `[` itself.
   */
  method JumpBackToOpen() returns (ipAfterClose: int, fetched: char)
    ensures ipAfterClose == 1 && fetched == '['
  {
    var bf := new Interpreter();
    bf.AddInstructions("+[");
    var st := StepCell(bf);
    st := StepOpen(bf);
    var r := bf.Run(1);
    bf.AddInstructions("]");
    st := StepClose(bf);
    ipAfterClose := bf.instructionPtr;
    fetched := bf.instructions[bf.instructionPtr];
  }

  /** After any run, `reset` then `emitState` shows the initial snapshot. */
  method ResetThenEmit(program: seq<char>, fuel: nat) returns (snap: Snapshot)
    ensures snap == Snapshot(0, [], 0, [], 0, [])
  {
    var bf := new Interpreter();
    bf.AddInstructions(program);
    var r := bf.Run(fuel);
    bf.Reset();
    snap := bf.EmitState();
  }

  /** `<` on cell 0 fails, with the pointer already moved to -1. */
  method LeftEdge() returns (st: Status, dataPtr: int, instructionPtr: int)
    ensures st == Error(NegativeDataPtr) && dataPtr == -1 && instructionPtr == 0
  {
    var bf := new Interpreter();
    bf.AddInstructions("<");
    st := bf.DoNextInstruction();
    dataPtr, instructionPtr := bf.dataPtr, bf.instructionPtr;
  }
}
