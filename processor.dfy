/**
 * The execution state and the instruction processor: one call of
 * `processInstruction` as a transition on a machine value.
 */
module Processor {
  import opened Tape

  /** The thrown error strings, as tagged values. */
  datatype Fault =
    | ExceededMemSize      // `>` moved the data pointer to MEMSIZE
    | NegativeDataPtr      // `<` moved the data pointer to -1
    | InputNotImplemented  // `,` outside seek mode
    | UnmatchedJump        // `]` with a nonzero cell and no recorded `[`

  /** What one step reports to its caller. */
  datatype Status = Executed | NoMore | Error(fault: Fault)

  /** Every variable the interpreter instance keeps, as one value. */
  datatype Machine = Machine(
    tape: seq<Byte>,
    dataPtr: int,
    instructions: seq<char>,
    instructionPtr: int,
    jumps: seq<int>,
    seekMode: nat,
    output: seq<char>)

  /** The state after a step, and what the step reported. */
  datatype Outcome = Outcome(after: Machine, status: Status)

  /**
   * What a step needs of the state: a full tape, a data pointer on it, and
   * non-negative instruction positions.
   */
  predicate Ready(m: Machine)
  {
    |m.tape| == MEMSIZE && 0 <= m.dataPtr < MEMSIZE && 0 <= m.instructionPtr &&
    forall k :: 0 <= k < |m.jumps| ==> 0 <= m.jumps[k]
  }

  /** The guard cell: the cell under the data pointer. */
  function Cell(m: Machine): Byte
    requires Ready(m)
  {
    m.tape[m.dataPtr]
  }

  /** The common tail of every executed instruction: move to the next one. */
  function Advance(m: Machine): (o: Outcome)
  {
    Outcome(m.(instructionPtr := m.instructionPtr + 1), Executed)
  }

  /**
   * `processInstruction(instruction)`: the branches in the order the source
   * tests them. Only `[` and `]` act while seeking; everything else is then
   * skipped like a non-command character.
   */
  function Process(m: Machine, instruction: char): (o: Outcome)
    requires Ready(m)
    ensures o.status != NoMore
    ensures o.status == Executed ==> Ready(o.after)
    ensures o.after.instructions == m.instructions
    ensures o.status.Error? ==> o.after == m.(dataPtr := o.after.dataPtr)
  {
    var seeking := m.seekMode > 0;
    if instruction == '>' && !seeking then
      var p := m.dataPtr + 1;
      if p >= MEMSIZE then Outcome(m.(dataPtr := p), Error(ExceededMemSize))
      else Advance(m.(dataPtr := p))
    else if instruction == '<' && !seeking then
      var p := m.dataPtr - 1;
      if p < 0 then Outcome(m.(dataPtr := p), Error(NegativeDataPtr))
      else Advance(m.(dataPtr := p))
    else if instruction == '+' && !seeking then
      Advance(m.(tape := m.tape[m.dataPtr := Inc(Cell(m))]))
    else if instruction == '-' && !seeking then
      Advance(m.(tape := m.tape[m.dataPtr := Dec(Cell(m))]))
    else if instruction == '[' then
      if seeking then Advance(m.(seekMode := m.seekMode + 1))
      else if Cell(m) == 0 then Advance(m.(seekMode := m.seekMode + 1))
      else Advance(m.(jumps := m.jumps + [m.instructionPtr]))
    else if instruction == ']' then
      if seeking then Advance(m.(seekMode := m.seekMode - 1))
      else if Cell(m) != 0 then
        if m.jumps == [] then Outcome(m, Error(UnmatchedJump))
        else
          // jump to one before the recorded `[`; the common advance lands on it
          Advance(m.(instructionPtr := m.jumps[|m.jumps| - 1] - 1, jumps := m.jumps[..|m.jumps| - 1]))
      else
        // popping an empty stack changes nothing
        Advance(m.(jumps := if m.jumps == [] then [] else m.jumps[..|m.jumps| - 1]))
    else if instruction == '.' && !seeking then
      Advance(m.(output := m.output + [Cell(m) as char]))
    else if instruction == ',' && !seeking then
      Outcome(m, Error(InputNotImplemented))
    else
      Advance(m)
  }

  /** The one instruction that does not fall through to the next position. */
  predicate TakesJump(m: Machine, instruction: char)
    requires Ready(m)
  {
    instruction == ']' && m.seekMode == 0 && Cell(m) != 0
  }

  /**
   * A step that executes either moves to the next instruction, or, for a
   * taken `]`, pops the jump stack and lands on the popped position.
   */
  lemma AdvanceOrJump(m: Machine, instruction: char)
    requires Ready(m)
    ensures var o := Process(m, instruction);
      o.status == Executed ==>
        if TakesJump(m, instruction) then
          |m.jumps| > 0 && o.after.instructionPtr == m.jumps[|m.jumps| - 1] &&
          o.after.jumps == m.jumps[..|m.jumps| - 1]
        else
          o.after.instructionPtr == m.instructionPtr + 1
  {
  }

  /**
   * `+` and `-` outside seek mode change only the guard cell, by one with
   * wrap-around, and advance.
   */
  lemma CellArithmetic(m: Machine, instruction: char)
    requires Ready(m) && m.seekMode == 0
    requires instruction == '+' || instruction == '-'
    ensures var o := Process(m, instruction);
      o.status == Executed &&
      o.after.tape[m.dataPtr] == (if instruction == '+' then Inc(Cell(m)) else Dec(Cell(m))) &&
      (forall k :: 0 <= k < MEMSIZE && k != m.dataPtr ==> o.after.tape[k] == m.tape[k]) &&
      o.after == m.(tape := o.after.tape, instructionPtr := m.instructionPtr + 1)
  {
  }

  /**
   * A pointer move outside seek mode fails exactly at the tape's ends, and
   * the failed move has already changed the pointer.
   */
  lemma PointerBounds(m: Machine)
    requires Ready(m) && m.seekMode == 0
    ensures Process(m, '>').status.Error? <==> m.dataPtr == MEMSIZE - 1
    ensures Process(m, '<').status.Error? <==> m.dataPtr == 0
    ensures m.dataPtr == MEMSIZE - 1 ==>
      Process(m, '>') == Outcome(m.(dataPtr := MEMSIZE), Error(ExceededMemSize))
    ensures m.dataPtr == 0 ==>
      Process(m, '<') == Outcome(m.(dataPtr := -1), Error(NegativeDataPtr))
    ensures m.dataPtr < MEMSIZE - 1 ==>
      Process(m, '>') == Outcome(m.(dataPtr := m.dataPtr + 1, instructionPtr := m.instructionPtr + 1), Executed)
    ensures m.dataPtr > 0 ==>
      Process(m, '<') == Outcome(m.(dataPtr := m.dataPtr - 1, instructionPtr := m.instructionPtr + 1), Executed)
  {
  }

  /**
   * While seeking, every character is skipped: only the seek depth (for
   * brackets) and the instruction pointer change, and nothing fails.
   */
  lemma SeekIsolation(m: Machine, instruction: char)
    requires Ready(m) && m.seekMode > 0
    ensures var o := Process(m, instruction);
      o.status == Executed &&
      o.after.tape == m.tape && o.after.dataPtr == m.dataPtr &&
      o.after.jumps == m.jumps && o.after.output == m.output &&
      o.after.instructionPtr == m.instructionPtr + 1 &&
      o.after.seekMode ==
        if instruction == '[' then m.seekMode + 1
        else if instruction == ']' then m.seekMode - 1
        else m.seekMode
  {
  }

  /**
   * `[` outside seek mode: a zero guard starts seeking and leaves the jump
   * stack alone; a nonzero guard records the position of this `[`.
   */
  lemma LoopEntry(m: Machine)
    requires Ready(m) && m.seekMode == 0
    ensures var o := Process(m, '[');
      o.status == Executed &&
      if Cell(m) == 0 then
        o.after == m.(seekMode := 1, instructionPtr := m.instructionPtr + 1)
      else
        o.after == m.(jumps := m.jumps + [m.instructionPtr], instructionPtr := m.instructionPtr + 1)
  {
  }

  /**
   * `]` outside seek mode: a nonzero guard jumps back to the recorded `[`
   * (or fails if none is recorded); a zero guard drops the record, if any,
   * and moves on.
   */
  lemma LoopExit(m: Machine)
    requires Ready(m) && m.seekMode == 0
    ensures var o := Process(m, ']');
      (Cell(m) != 0 && m.jumps == [] ==> o == Outcome(m, Error(UnmatchedJump))) &&
      (Cell(m) != 0 && m.jumps != [] ==>
        o == Outcome(m.(instructionPtr := m.jumps[|m.jumps| - 1], jumps := m.jumps[..|m.jumps| - 1]), Executed)) &&
      (Cell(m) == 0 ==>
        o.status == Executed && o.after.instructionPtr == m.instructionPtr + 1 &&
        o.after.jumps == (if m.jumps == [] then [] else m.jumps[..|m.jumps| - 1]) &&
        o.after == m.(jumps := o.after.jumps, instructionPtr := o.after.instructionPtr))
  {
  }

  /**
   * `.` appends exactly the guard cell's character and changes nothing
   * else; `,` fails and changes nothing at all.
   */
  lemma OutputAndInput(m: Machine)
    requires Ready(m) && m.seekMode == 0
    ensures Process(m, '.') ==
      Outcome(m.(output := m.output + [Cell(m) as char], instructionPtr := m.instructionPtr + 1), Executed)
    ensures Process(m, ',') == Outcome(m, Error(InputNotImplemented))
  {
  }

  /** A step on anything but a bracket leaves the loop bookkeeping alone. */
  lemma NestingKept(m: Machine, instruction: char)
    requires Ready(m) && instruction != '[' && instruction != ']'
    ensures var o := Process(m, instruction);
      o.status == Executed ==>
        o.after.jumps == m.jumps && o.after.seekMode == m.seekMode &&
        o.after.instructionPtr == m.instructionPtr + 1
  {
  }

  /** A character that is not one of the eight commands only advances. */
  lemma NonCommandSkipped(m: Machine, c: char)
    requires Ready(m)
    requires c !in {'>', '<', '+', '-', '[', ']', '.', ','}
    ensures Process(m, c) == Outcome(m.(instructionPtr := m.instructionPtr + 1), Executed)
  {
  }
}
