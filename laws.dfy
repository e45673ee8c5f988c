/**
 * Laws of whole runs of the stepping loop: runs of `+`/`-` on one cell,
 * the independence of a run from output already produced, and the
 * incremental use of `addInstructions` and `run`.
 */
module Laws {
  import opened Tape
  import opened Processor
  import opened Driver

  /** Number of `+` minus number of `-` in a text. */
  function Net(w: seq<char>): int
  {
    if w == [] then 0
    else (if w[0] == '+' then 1 else if w[0] == '-' then -1 else 0) + Net(w[1..])
  }

  /** One wrapped step followed by `n` more is `n + 1` steps, wrapped once. */
  lemma WrapShift(b: Byte, c: char, n: int)
    requires c == '+' || c == '-'
    ensures ((if c == '+' then Inc(b) else Dec(b)) + n) % 256 ==
      (b + ((if c == '+' then 1 else -1) + n)) % 256
  {
  }

  /**
   * The state a text of `+` and `-` promises: the guard cell at its old
   * value plus the net count, modulo 256, and the instruction pointer past
   * the text.
   */
  function CellsAfter(m: Machine, w: seq<char>): Machine
    requires Ready(m)
  {
    m.(tape := m.tape[m.dataPtr := (Cell(m) + Net(w)) % 256],
       instructionPtr := m.instructionPtr + |w|)
  }

  /**
   * Executing a text of `+` and `-` leaves the guard cell at its old value
   * plus the net count, modulo 256, and changes nothing else but the
   * instruction pointer.
   */
  lemma {:induction false} PlusMinusRun(m: Machine, w: seq<char>)
    requires Ready(m) && m.seekMode == 0
    requires forall k :: 0 <= k < |w| ==> w[k] == '+' || w[k] == '-'
    requires m.instructionPtr + |w| <= |m.instructions|
    requires forall k :: 0 <= k < |w| ==> m.instructions[m.instructionPtr + k] == w[k]
    ensures Drive(m, |w|) == Drive(CellsAfter(m, w), 0)
    ensures Drive(m, |w|).state == CellsAfter(m, w) && Drive(m, |w|).fuelLeft == 0
    ensures !Drive(m, |w|).halt.Faulted?
    decreases |w|
  {
    if w == [] {
      assert m.tape[m.dataPtr := Cell(m) % 256] == m.tape;
    } else {
      var c := w[0];
      var v := if c == '+' then Inc(Cell(m)) else Dec(Cell(m));
      var m1 := m.(tape := m.tape[m.dataPtr := v], instructionPtr := m.instructionPtr + 1);
      assert m.instructions[m.instructionPtr + 0] == c;
      assert forall k :: 0 <= k < |w[1..]| ==> m1.instructions[m1.instructionPtr + k] == w[1..][k];
      PlusMinusRun(m1, w[1..]);
      PlusMinusCons(m, w, m1);
    }
  }

  /**
   * A program of `+` and `-` alone, run from a fresh instance with one unit
   * of fuel per instruction, finishes: the buffer is exhausted, nothing is
   * printed, and cell 0 holds the net count modulo 256.
   */
  lemma PlusMinusProgram(w: seq<char>)
    requires forall k :: 0 <= k < |w| ==> w[k] == '+' || w[k] == '-'
    ensures var r := RunAndFlush(Append(Initial(), w), |w|);
      r.result == Finished([]) && r.after.tape[0] == Net(w) % 256 &&
      r.after.instructionPtr == |w|
  {
    var m := Append(Initial(), w);
    assert m.instructions == w && m.instructionPtr == 0 && m.dataPtr == 0 && m.output == [];
    assert Cell(m) == 0;
    assert forall k :: 0 <= k < |w| ==> m.instructions[m.instructionPtr + k] == w[k];
    PlusMinusRun(m, w);
    var c := CellsAfter(m, w);
    assert c.instructionPtr == |c.instructions| && c.output == [] && c.tape[0] == Net(w) % 256;
    assert Drive(m, |w|) == Stop(c, Exhausted, 0);
  }

  /** The first `+`/`-` of the text followed by a run of the rest. */
  lemma PlusMinusCons(m: Machine, w: seq<char>, m1: Machine)
    requires Ready(m) && m.seekMode == 0 && w != [] && (w[0] == '+' || w[0] == '-')
    requires m.instructionPtr < |m.instructions| && m.instructions[m.instructionPtr] == w[0]
    requires m1 == m.(tape := m.tape[m.dataPtr := if w[0] == '+' then Inc(Cell(m)) else Dec(Cell(m))],
                      instructionPtr := m.instructionPtr + 1)
    requires Drive(m1, |w[1..]|) == Drive(CellsAfter(m1, w[1..]), 0)
    ensures Drive(m, |w|) == Drive(CellsAfter(m, w), 0)
  {
    CellStep(m, m1, |w|);
    NetStep(m, w, m1);
  }

  /**
   * The state reached by the first `+`/`-` and then the rest of the text is
   * the state the whole text promises.
   */
  lemma NetStep(m: Machine, w: seq<char>, m1: Machine)
    requires Ready(m) && w != [] && (w[0] == '+' || w[0] == '-')
    requires m1 == m.(tape := m.tape[m.dataPtr := if w[0] == '+' then Inc(Cell(m)) else Dec(Cell(m))],
                      instructionPtr := m.instructionPtr + 1)
    ensures CellsAfter(m1, w[1..]) == CellsAfter(m, w)
  {
    var c := w[0];
    var v := if c == '+' then Inc(Cell(m)) else Dec(Cell(m));
    assert Net(w) == (if c == '+' then 1 else -1) + Net(w[1..]);
    WrapShift(Cell(m), c, Net(w[1..]));
    var target := (Cell(m) + Net(w)) % 256;
    assert (v + Net(w[1..])) % 256 == target;
    assert m.tape[m.dataPtr := v][m.dataPtr := target] == m.tape[m.dataPtr := target];
  }

  /** One `+` or `-` at the instruction pointer, as the first step of a run. */
  lemma CellStep(m: Machine, m1: Machine, fuel: nat)
    requires fuel > 0
    requires Ready(m) && m.seekMode == 0 && m.instructionPtr < |m.instructions|
    requires m.instructions[m.instructionPtr] == '+' || m.instructions[m.instructionPtr] == '-'
    requires m1 == m.(tape := m.tape[m.dataPtr :=
      if m.instructions[m.instructionPtr] == '+' then Inc(Cell(m)) else Dec(Cell(m))],
      instructionPtr := m.instructionPtr + 1)
    ensures Drive(m, fuel) == Drive(m1, fuel - 1)
  {
    CellArithmetic(m, m.instructions[m.instructionPtr]);
  }

  /** `m` with `p` put in front of the output it has accumulated. */
  function PrefixOutput(m: Machine, p: seq<char>): Machine
  {
    m.(output := p + m.output)
  }

  /** A step only appends to the output; it never reads it. */
  lemma ProcessIgnoresOutput(m: Machine, c: char, p: seq<char>)
    requires Ready(m)
    ensures Process(PrefixOutput(m, p), c) ==
      Outcome(PrefixOutput(Process(m, c).after, p), Process(m, c).status)
  {
    if m.seekMode > 0 {
      SeekIsolation(m, c);
      SeekIsolation(PrefixOutput(m, p), c);
    } else if c == '.' {
      assert p + (m.output + [Cell(m) as char]) == (p + m.output) + [Cell(m) as char];
    } else if c == '+' || c == '-' {
      CellArithmetic(m, c);
      CellArithmetic(PrefixOutput(m, p), c);
    } else if c == '>' || c == '<' {
      PointerBounds(m);
      PointerBounds(PrefixOutput(m, p));
    }
  }

  /** A whole run does not depend on the output produced before it. */
  lemma {:induction false} DriveIgnoresOutput(m: Machine, fuel: nat, p: seq<char>)
    requires Ready(m)
    ensures var d := Drive(m, fuel);
      Drive(PrefixOutput(m, p), fuel) == Stop(PrefixOutput(d.state, p), d.halt, d.fuelLeft)
    decreases fuel
  {
    if fuel > 0 && m.instructionPtr < |m.instructions| {
      ProcessIgnoresOutput(m, m.instructions[m.instructionPtr], p);
      if Next(m).status == Executed {
        DriveIgnoresOutput(Next(m).after, fuel - 1, p);
      }
    }
  }

  /**
   * Streaming: `run`, then `addInstructions(text)`, then `run` with the fuel
   * left prints, in its two flushes, exactly what one `run` of the whole
   * text prints, and ends in the same state.
   */
  lemma IncrementalRun(m: Machine, text: seq<char>, fuel: nat)
    requires Ready(m)
    requires RunAndFlush(m, fuel).result.Finished?
    ensures var r1 := RunAndFlush(m, fuel);
      var r2 := RunAndFlush(Append(r1.after, text), Drive(m, fuel).fuelLeft);
      var whole := RunAndFlush(Append(m, text), fuel);
      (r2.result.Finished? ==>
        whole == RunOutcome(r2.after, Finished(r1.result.printed + r2.result.printed))) &&
      (!r2.result.Finished? ==>
        whole == RunOutcome(PrefixOutput(r2.after, r1.result.printed), r2.result))
  {
    var d1 := Drive(m, fuel);
    var t := d1.state;
    Resume(m, text, fuel);
    var x := Append(t.(output := []), text);
    assert Append(t, text) == PrefixOutput(x, t.output);
    DriveIgnoresOutput(x, d1.fuelLeft, t.output);
  }
}
