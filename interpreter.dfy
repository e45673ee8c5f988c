/**
 * One interpreter instance: the tape, pointers, instruction buffer, jump
 * stack, seek depth and output that the source keeps as shared variables,
 * as fields updated in place.
 */
module Brainfuck {
  import opened Tape
  import opened Processor
  import opened Driver

  class Interpreter {
    const data: array<Byte>
    var dataPtr: int
    var instructionPtr: int
    var instructions: seq<char>
    var jumps: seq<int>
    var seekMode: nat
    var output: seq<char>

    /** The fields as one machine value. */
    ghost function Current(): Machine
      reads this, data
    {
      Machine(data[..], dataPtr, instructions, instructionPtr, jumps, seekMode, output)
    }

    /** A new instance: a zeroed tape and everything else empty or zero. */
    constructor ()
      ensures fresh(data)
      ensures Current() == Initial() && Consistent(Current())
    {
      var d := new Byte[MEMSIZE];
      for i := 0 to d.Length
        invariant forall k :: 0 <= k < i ==> d[k] == 0
      {
        d[i] := 0;
      }
      data := d;
      dataPtr, instructionPtr := 0, 0;
      instructions, jumps := [], [];
      seekMode, output := 0, [];
      new;
      assert data[..] == Blank();
      InitialConsistent();
    }

    /** `processInstruction(instruction)`, on the fields. */
    method ProcessInstruction(instruction: char) returns (st: Status)
      requires Ready(Current())
      modifies this, data
      ensures Outcome(Current(), st) == Process(old(Current()), instruction)
    {
      st := Executed;
      if instruction == '>' && seekMode == 0 {
        dataPtr := dataPtr + 1;
        if dataPtr >= MEMSIZE { return Error(ExceededMemSize); }
      } else if instruction == '<' && seekMode == 0 {
        dataPtr := dataPtr - 1;
        if dataPtr < 0 { return Error(NegativeDataPtr); }
      } else if instruction == '+' && seekMode == 0 {
        data[dataPtr] := Inc(data[dataPtr]);
      } else if instruction == '-' && seekMode == 0 {
        data[dataPtr] := Dec(data[dataPtr]);
      } else if instruction == '[' {
        if seekMode > 0 {
          seekMode := seekMode + 1;
        } else if data[dataPtr] == 0 {
          seekMode := seekMode + 1;
        } else {
          jumps := jumps + [instructionPtr];
        }
      } else if instruction == ']' {
        if seekMode > 0 {
          seekMode := seekMode - 1;
        } else if data[dataPtr] != 0 {
          if jumps == [] { return Error(UnmatchedJump); }
          instructionPtr := jumps[|jumps| - 1] - 1;
          jumps := jumps[..|jumps| - 1];
        } else if jumps != [] {
          jumps := jumps[..|jumps| - 1];
        }
      } else if instruction == '.' && seekMode == 0 {
        output := output + [data[dataPtr] as char];
      } else if instruction == ',' && seekMode == 0 {
        return Error(InputNotImplemented);
      } else {
        instructionPtr := instructionPtr + 1;
        return;
      }
      instructionPtr := instructionPtr + 1;
    }

    /**
     * `doNextInstruction`: NoMore, with nothing changed, at the end of the
     * buffer; otherwise exactly one processed instruction.
     */
    method DoNextInstruction() returns (st: Status)
      requires Ready(Current())
      modifies this, data
      ensures Outcome(Current(), st) == Next(old(Current()))
      ensures old(Consistent(Current())) && st == Executed ==> Consistent(Current())
    {
      if instructionPtr >= |instructions| {
        return NoMore;
      }
      ghost var before := Current();
      st := ProcessInstruction(instructions[instructionPtr]);
      if Consistent(before) && st == Executed {
        NextConsistent(before);
      }
    }

    /** `addInstructions(text)`: append to the buffer, nothing else. */
    method AddInstructions(text: seq<char>)
      modifies this
      ensures Current() == Append(old(Current()), text)
      ensures old(Consistent(Current())) ==> Consistent(Current())
    {
      ghost var before := Current();
      instructions := instructions + text;
      if Consistent(before) {
        AppendConsistent(before, text);
      }
    }

    /**
     * `run`, with at most `fuel` executed steps: step until the buffer is
     * exhausted, then return the output and clear it.
     */
    method Run(fuel: nat) returns (r: RunResult)
      requires Ready(Current())
      modifies this, data
      ensures RunOutcome(Current(), r) == RunAndFlush(old(Current()), fuel)
    {
      var left := fuel;
      while true
        invariant Ready(Current())
        invariant Drive(Current(), left) == Drive(old(Current()), fuel)
        decreases left
      {
        if left == 0 && instructionPtr < |instructions| {
          return OutOfFuel;
        }
        var st := DoNextInstruction();
        if st == NoMore {
          r := Finished(output);
          output := [];
          return;
        }
        if st.Error? {
          return Failed(st.fault);
        }
        left := left - 1;
      }
    }

    /** `emitState`: the snapshot an observer would receive. */
    method EmitState() returns (snap: Snapshot)
      ensures snap == Observe(Current())
    {
      snap := Snapshot(dataPtr, instructions, instructionPtr, jumps, seekMode, output);
    }

    /**
     * `reset`: zero the tape and return every other variable to its initial
     * value, whatever state (even a faulted one) the instance was in.
     */
    method Reset()
      requires data.Length == MEMSIZE
      modifies this, data
      ensures Current() == Initial() && Consistent(Current())
    {
      for i := 0 to data.Length
        invariant forall k :: 0 <= k < i ==> data[k] == 0
      {
        data[i] := 0;
      }
      dataPtr := 0;
      instructions := [];
      instructionPtr := 0;
      jumps := [];
      seekMode := 0;
      output := [];
      assert data[..] == Blank();
      InitialConsistent();
    }
  }
}
