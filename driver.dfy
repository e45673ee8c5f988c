/**
 * The driver: fetching the next instruction, running to the end of the
 * buffer, appending instructions, reset and the state snapshot.
 */
module Driver {
  import opened Tape
  import opened Processor

  /** The state of a fresh or reset instance. */
  function Initial(): (m: Machine)
    ensures Ready(m)
  {
    Machine(Blank(), 0, [], 0, [], 0, [])
  }

  /** `addInstructions(text)`: the buffer only ever grows at its end. */
  function Append(m: Machine, text: seq<char>): Machine
  {
    m.(instructions := m.instructions + text)
  }

  /**
   * `doNextInstruction`: at the end of the buffer report NoMore and change
   * nothing, otherwise process the instruction under the pointer.
   */
  function Next(m: Machine): (o: Outcome)
    requires Ready(m)
    ensures o.status == NoMore <==> m.instructionPtr >= |m.instructions|
    ensures o.status == NoMore ==> o.after == m
  {
    if m.instructionPtr < |m.instructions| then Process(m, m.instructions[m.instructionPtr])
    else Outcome(m, NoMore)
  }

  /**
   * The invariant of every state reached through `reset`, `addInstructions`
   * and `doNextInstruction` without a pointer fault (a failed `>` or `<`
   * leaves the data pointer off the tape): the instruction pointer is inside the buffer (or
   * just past it), and the jump stack holds strictly increasing positions,
   * behind the instruction pointer, each of a `[`.
   */
  ghost predicate Consistent(m: Machine)
  {
    Ready(m) && m.instructionPtr <= |m.instructions| &&
    (forall k :: 0 <= k < |m.jumps| ==>
      m.jumps[k] < m.instructionPtr && m.instructions[m.jumps[k]] == '[') &&
    (forall i, j :: 0 <= i < j < |m.jumps| ==> m.jumps[i] < m.jumps[j])
  }

  lemma InitialConsistent()
    ensures Consistent(Initial())
  {
  }

  /** Appending never breaks the invariant: nothing already recorded moves. */
  lemma AppendConsistent(m: Machine, text: seq<char>)
    requires Consistent(m)
    ensures Consistent(Append(m, text))
  {
    var m' := Append(m, text);
    forall k | 0 <= k < |m.jumps|
      ensures m'.instructions[m.jumps[k]] == '['
    {
      assert m'.instructions[m.jumps[k]] == m.instructions[m.jumps[k]];
    }
  }

  /**
   * A fetched step keeps the invariant; when it jumps back, the next
   * instruction to fetch is the recorded `[`.
   */
  lemma NextConsistent(m: Machine)
    requires Consistent(m)
    requires Next(m).status == Executed
    ensures Consistent(Next(m).after)
    ensures var o := Next(m);
      o.after.instructionPtr != m.instructionPtr + 1 ==>
        o.after.instructionPtr < |o.after.instructions| &&
        o.after.instructions[o.after.instructionPtr] == '['
  {
    var c := m.instructions[m.instructionPtr];
    var o := Process(m, c);
    AdvanceOrJump(m, c);
    if c == '[' && m.seekMode == 0 && Cell(m) != 0 {
      assert o.after.jumps == m.jumps + [m.instructionPtr];
    }
  }

  /** Why a run stopped. */
  datatype Halt = Exhausted | Faulted(fault: Fault) | FuelOut

  /** Where a run stopped, why, and how much of its fuel is left. */
  datatype Stop = Stop(state: Machine, halt: Halt, fuelLeft: nat)

  /**
   * The stepping loop of `run`, bounded by `fuel` steps: it stops at the
   * end of the buffer, at the first fault, or when the fuel is spent.
   * Reaching the end of the buffer uses no fuel, so `fuel` steps suffice
   * for a text of `fuel` instructions.
   */
  function Drive(m: Machine, fuel: nat): (d: Stop)
    requires Ready(m)
    ensures d.fuelLeft <= fuel
    ensures d.state.instructions == m.instructions
    ensures d.halt == Exhausted ==>
      Ready(d.state) && d.state.instructionPtr >= |d.state.instructions|
    ensures d.halt == FuelOut ==>
      Ready(d.state) && d.fuelLeft == 0 && d.state.instructionPtr < |d.state.instructions|
    decreases fuel, 1
  {
    if m.instructionPtr >= |m.instructions| then Stop(m, Exhausted, fuel)
    else if fuel == 0 then Stop(m, FuelOut, 0)
    else Continue(Next(m), fuel)
  }

  /**
   * The loop's reaction to the status of one executed or failed
   * `doNextInstruction` call: let an error escape, or go on with one unit
   * of fuel less.
   */
  function Continue(o: Outcome, fuel: nat): (d: Stop)
    requires fuel > 0 && o.status != NoMore
    requires o.status == Executed ==> Ready(o.after)
    ensures d.fuelLeft < fuel
    ensures d.state.instructions == o.after.instructions
    ensures d.halt == Exhausted ==>
      Ready(d.state) && d.state.instructionPtr >= |d.state.instructions|
    ensures d.halt == FuelOut ==>
      Ready(d.state) && d.fuelLeft == 0 && d.state.instructionPtr < |d.state.instructions|
    decreases fuel, 0
  {
    match o.status
    case Error(f) => Stop(o.after, Faulted(f), fuel - 1)
    case Executed => Drive(o.after, fuel - 1)
  }

  /**
   * A run that keeps the invariant ends with the instruction pointer exactly
   * at the end of the buffer, so appending resumes with the first appended
   * character.
   */
  lemma {:induction false} DriveConsistent(m: Machine, fuel: nat)
    requires Consistent(m)
    ensures var d := Drive(m, fuel);
      (d.halt == Exhausted || d.halt == FuelOut) ==> Consistent(d.state)
    ensures var d := Drive(m, fuel);
      d.halt == Exhausted ==> d.state.instructionPtr == |d.state.instructions|
    decreases fuel
  {
    if m.instructionPtr < |m.instructions| && fuel > 0 && Next(m).status == Executed {
      NextConsistent(m);
      DriveConsistent(Next(m).after, fuel - 1);
    }
  }

  /** Processing does not look at the instruction buffer. */
  lemma ProcessAppend(m: Machine, c: char, text: seq<char>)
    requires Ready(m)
    ensures Process(Append(m, text), c) == Outcome(Append(Process(m, c).after, text), Process(m, c).status)
  {
    if m.seekMode > 0 {
      SeekIsolation(m, c);
      SeekIsolation(Append(m, text), c);
    } else if c == '+' || c == '-' {
      CellArithmetic(m, c);
      CellArithmetic(Append(m, text), c);
    } else if c == '>' || c == '<' {
      PointerBounds(m);
      PointerBounds(Append(m, text));
    }
  }

  /** A fetched step does not depend on text after the instruction pointer. */
  lemma NextAppend(m: Machine, text: seq<char>)
    requires Ready(m) && m.instructionPtr < |m.instructions|
    ensures Next(Append(m, text)) == Outcome(Append(Next(m).after, text), Next(m).status)
  {
    var c := m.instructions[m.instructionPtr];
    assert Append(m, text).instructions[m.instructionPtr] == c;
    ProcessAppend(m, c, text);
  }

  /**
   * Incremental feeding: running `m` with more text already appended is the
   * same as running `m` until the buffer is exhausted, appending the text
   * there, and running on with the fuel that is left.
   */
  lemma {:induction false} Resume(m: Machine, text: seq<char>, fuel: nat)
    requires Ready(m)
    requires Drive(m, fuel).halt == Exhausted
    ensures Drive(Append(m, text), fuel) ==
      Drive(Append(Drive(m, fuel).state, text), Drive(m, fuel).fuelLeft)
    decreases fuel
  {
    if m.instructionPtr < |m.instructions| {
      NextAppend(m, text);
      if Next(m).status == Executed {
        Resume(Next(m).after, text, fuel - 1);
      }
    }
  }

  /** What `run` returns to its caller. */
  datatype RunResult =
    | Finished(printed: seq<char>)  // buffer exhausted; the flushed output
    | Failed(fault: Fault)          // the error propagated out of the loop
    | OutOfFuel                     // the bound on steps was reached

  /** The state after `run`, and its result. */
  datatype RunOutcome = RunOutcome(after: Machine, result: RunResult)

  /**
   * `run`: step until the buffer is exhausted, then hand out the output and
   * clear it. A fault escapes before the flush, so the output stays.
   */
  function RunAndFlush(m: Machine, fuel: nat): (r: RunOutcome)
    requires Ready(m)
  {
    var d := Drive(m, fuel);
    match d.halt
    case Exhausted => RunOutcome(d.state.(output := []), Finished(d.state.output))
    case Faulted(f) => RunOutcome(d.state, Failed(f))
    case FuelOut => RunOutcome(d.state, OutOfFuel)
  }

  /**
   * A finished run leaves tape, pointers, jump stack and seek depth as the
   * stepping loop left them; only the output is drained.
   */
  lemma RunOnlyDrainsOutput(m: Machine, fuel: nat)
    requires Ready(m)
    requires RunAndFlush(m, fuel).result.Finished?
    ensures var r := RunAndFlush(m, fuel);
      var d := Drive(m, fuel);
      r.after.output == [] && r.result.printed == d.state.output &&
      r.after == d.state.(output := [])
  {
  }

  /** The read-only view that `emitState` hands to its observer. */
  datatype Snapshot = Snapshot(
    dataPtr: int,
    instructions: seq<char>,
    instructionPtr: int,
    jumps: seq<int>,
    seekMode: nat,
    output: seq<char>)

  function Observe(m: Machine): Snapshot
  {
    Snapshot(m.dataPtr, m.instructions, m.instructionPtr, m.jumps, m.seekMode, m.output)
  }
}
