/**
 * Loop balance. Without a bracket-match table the interpreter keeps the
 * nesting of the text read so far in two places: the jump stack (taken
 * loops) and the seek depth (skipped loops). For a text in which no `]`
 * closes more than was opened, their sizes always add up to the bracket
 * depth at the instruction pointer.
 */
module Loops {
  import opened Tape
  import opened Processor
  import opened Driver

  /** How a character changes the bracket depth. */
  function Delta(c: char): int
  {
    if c == '[' then 1 else if c == ']' then -1 else 0
  }

  /** Bracket depth after reading `w`: opened minus closed. */
  function Depth(w: seq<char>): int
  {
    if w == [] then 0 else Depth(w[..|w| - 1]) + Delta(w[|w| - 1])
  }

  lemma DepthSnoc(w: seq<char>, i: nat)
    requires i < |w|
    ensures Depth(w[..i + 1]) == Depth(w[..i]) + Delta(w[i])
  {
    assert w[..i + 1][..i] == w[..i];
  }

  /** No prefix of `w` closes more brackets than it opens. */
  ghost predicate NoStrayClose(w: seq<char>)
  {
    forall i :: 0 <= i <= |w| ==> Depth(w[..i]) >= 0
  }

  /** Every `]` closes an earlier `[` and every `[` is closed. */
  ghost predicate WellBracketed(w: seq<char>)
  {
    NoStrayClose(w) && Depth(w) == 0
  }

  /**
   * The depth at the instruction pointer is split between the jump stack
   * and the seek depth, and the k-th jump-stack entry is a `[` at depth k.
   */
  ghost predicate Balanced(m: Machine)
  {
    Consistent(m) &&
    Depth(m.instructions[..m.instructionPtr]) == |m.jumps| + m.seekMode &&
    forall k :: 0 <= k < |m.jumps| ==> Depth(m.instructions[..m.jumps[k]]) == k
  }

  /** A freshly loaded program is balanced: nothing has been read yet. */
  lemma LoadBalanced(text: seq<char>)
    ensures Balanced(Append(Initial(), text))
  {
    var m := Append(Initial(), text);
    assert m.instructions[..0] == [];
  }

  /** Appending text does not change anything already read. */
  lemma AppendBalanced(m: Machine, text: seq<char>)
    requires Balanced(m)
    ensures Balanced(Append(m, text))
  {
    var m' := Append(m, text);
    AppendConsistent(m, text);
    assert m'.instructions[..m.instructionPtr] == m.instructions[..m.instructionPtr];
    forall k | 0 <= k < |m.jumps|
      ensures Depth(m'.instructions[..m.jumps[k]]) == k
    {
      assert m'.instructions[..m.jumps[k]] == m.instructions[..m.jumps[k]];
    }
  }

  /**
   * A step that moves to the next instruction and changes the loop
   * bookkeeping by the depth change of the instruction it read (keeping the
   * older jump-stack entries, or pushing its own position) stays balanced.
   */
  lemma StepBalanced(m: Machine, m': Machine)
    requires Balanced(m) && Consistent(m')
    requires m'.instructions == m.instructions
    requires m.instructionPtr < |m.instructions|
    requires m'.instructionPtr == m.instructionPtr + 1
    requires |m'.jumps| + m'.seekMode ==
      |m.jumps| + m.seekMode + Delta(m.instructions[m.instructionPtr])
    requires m'.jumps <= m.jumps || (m.seekMode == 0 && m'.jumps == m.jumps + [m.instructionPtr])
    ensures Balanced(m')
  {
    DepthSnoc(m.instructions, m.instructionPtr);
    forall k | 0 <= k < |m'.jumps|
      ensures Depth(m'.instructions[..m'.jumps[k]]) == k
    {
      if k < |m.jumps| { assert m'.jumps[k] == m.jumps[k]; }
    }
  }

  /** A taken `]` lands on the popped `[` and stays balanced. */
  lemma JumpBalanced(m: Machine, m': Machine)
    requires Balanced(m) && Consistent(m') && m.seekMode == 0 && m.jumps != []
    requires m' == m.(instructionPtr := m.jumps[|m.jumps| - 1], jumps := m.jumps[..|m.jumps| - 1])
    ensures Balanced(m')
  {
    forall k | 0 <= k < |m'.jumps|
      ensures Depth(m'.instructions[..m'.jumps[k]]) == k
    {
      assert m'.jumps[k] == m.jumps[k];
    }
  }

  /**
   * In a text without stray `]`, a balanced step never meets an unmatched
   * `]`, and an executed step stays balanced.
   */
  lemma NextBalanced(m: Machine)
    requires Balanced(m) && NoStrayClose(m.instructions)
    ensures Next(m).status != Error(UnmatchedJump)
    ensures Next(m).status == Executed ==> Balanced(Next(m).after)
  {
    if m.instructionPtr < |m.instructions| {
      var i := m.instructionPtr;
      var c := m.instructions[i];
      var o := Process(m, c);
      DepthSnoc(m.instructions, i);
      assert Depth(m.instructions[..i + 1]) >= 0;
      if m.seekMode > 0 {
        SeekIsolation(m, c);
        NextConsistent(m);
        StepBalanced(m, o.after);
      } else if c == '[' {
        LoopEntry(m);
        NextConsistent(m);
        StepBalanced(m, o.after);
      } else if c == ']' {
        LoopExit(m);
        assert m.jumps != [];
        NextConsistent(m);
        if Cell(m) != 0 {
          JumpBalanced(m, o.after);
        } else {
          StepBalanced(m, o.after);
        }
      } else {
        NestingKept(m, c);
        if o.status == Executed {
          NextConsistent(m);
          StepBalanced(m, o.after);
        }
      }
    }
  }

  /**
   * A run over a text without stray `]` never fails with an unmatched `]`,
   * and while it does not fault it stays balanced.
   */
  lemma {:induction false} DriveBalanced(m: Machine, fuel: nat)
    requires Balanced(m) && NoStrayClose(m.instructions)
    ensures Drive(m, fuel).halt != Faulted(UnmatchedJump)
    ensures !Drive(m, fuel).halt.Faulted? ==> Balanced(Drive(m, fuel).state)
    decreases fuel
  {
    if fuel > 0 {
      NextBalanced(m);
      if Next(m).status == Executed {
        DriveBalanced(Next(m).after, fuel - 1);
      }
    }
  }

  /**
   * Loop balance: running a well-bracketed program from a fresh instance
   * to the end of its text leaves no recorded loop and no skipping pending,
   * and never meets an unmatched `]`.
   */
  lemma LoopBalance(program: seq<char>, fuel: nat)
    requires WellBracketed(program)
    ensures var d := Drive(Append(Initial(), program), fuel);
      d.halt != Faulted(UnmatchedJump) &&
      (d.halt == Exhausted ==> d.state.jumps == [] && d.state.seekMode == 0)
  {
    var m := Append(Initial(), program);
    LoadBalanced(program);
    DriveBalanced(m, fuel);
    DriveConsistent(m, fuel);
    var d := Drive(m, fuel);
    if d.halt == Exhausted {
      assert d.state.instructions[..d.state.instructionPtr] == program;
    }
  }
}
