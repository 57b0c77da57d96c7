/** Where a program goes next: the flags remember the last result, and pc follows flags, registers and the trace. */
module ControlFlow {
  import opened Options
  import opened Isa
  import opened State
  import opened Loader
  import opened Semantics
  import opened Effects
  import opened Handles
  import opened Histories
  import opened CallReturn

  // ----- The flags. -----

  /** The instructions that set the flags: all that write register a, except the two allocations, and Cmp. */
  predicate SetsFlags(op: Opcode) {
    match FamilyOf(op)
    case Memory => op.Load? || op.Pop?
    case Axion => op.AxRead? || op.AxVerify?
    case Control | Frames | Illegal => false
    case _ => true
  }

  /** The result of a trap-free step that sets the flags: what is left in register a, or the difference of a Cmp. */
  function ResultOf(p: Image, c: Config): Option<int> {
    if !Executing(p, c) || !Step(p, c).status.Done? || !SetsFlags(Current(p, c).opcode) then None
    else
      var i := Current(p, c);
      if !InFile(i.a) then None
      else if !i.opcode.Cmp? then Some(Step(p, c).c.m.regs[i.a])
      else if InFile(i.b) then Some(c.m.regs[i.a] - c.m.regs[i.b])
      else None
  }

  /** The last result along a history, if there was one. */
  function LastResult(p: Image, stale: Write, acts: seq<Action>): Option<int>
    decreases |acts|
  {
    if acts == [] then None
    else
      var front := acts[..|acts| - 1];
      var result := if acts[|acts| - 1].DoStep? then ResultOf(p, Reached(p, stale, front)) else None;
      if result.Some? then result else LastResult(p, stale, front)
  }

  /** The flags show the sign of a result; before the first one none is set. */
  predicate Shows(f: Flags, result: Option<int>) {
    match result
    case None => !f.zero && !f.negative && !f.positive
    case Some(v) => (f.zero <==> v == 0) && (f.negative <==> v < 0) && (f.positive <==> v > 0)
  }

  /** What a committed instruction does to the flags. */
  predicate FlagMove(i: Insn, m: Machine, n: Machine) {
    if !SetsFlags(i.opcode) then n.flags == m.flags
    else if i.opcode.Cmp? then InFile(i.a) && InFile(i.b) && Shows(n.flags, Some(m.regs[i.a] - m.regs[i.b]))
    else InFile(i.a) && Shows(n.flags, Some(n.regs[i.a]))
  }

  predicate FlagsMove(i: Insn, m: Machine, o: Outcome) { o.Commit? ==> FlagMove(i, m, o.m) }

  lemma ScalarFlags(p: Image, m: Machine, i: Insn)
    requires FamilyOf(i.opcode) in {Arithmetic, Comparison, TritLogic, Move, Adjust}
    ensures FlagsMove(i, m, Exec(p, m, i))
  {
    hide Calculate, Overflows;
  }

  lemma AccessFlags(p: Image, m: Machine, i: Insn)
    requires FamilyOf(i.opcode) in {Memory, Axion, Control, Illegal}
    ensures FlagsMove(i, m, Exec(p, m, i))
  {
  }

  lemma FrameFlags(p: Image, m: Machine, i: Insn)
    requires FamilyOf(i.opcode) == Frames
    ensures FlagsMove(i, m, Exec(p, m, i))
  {
  }

  lemma TensorFlags(p: Image, m: Machine, i: Insn)
    requires FamilyOf(i.opcode) in {BinaryTensor, UnaryTensor, ShapeCheck}
    ensures FlagsMove(i, m, Exec(p, m, i))
  {
    hide BinaryTensorValue;
  }

  lemma InspectFlags(m: Machine, i: Insn)
    requires FamilyOf(i.opcode) == Inspect
    ensures FlagsMove(i, m, ExecInspect(m, i))
  {
    hide Inspected;
  }

  lemma MakeFlags(m: Machine, i: Insn)
    requires FamilyOf(i.opcode) == Make
    ensures FlagsMove(i, m, ExecMake(m, i))
  {
  }

  lemma ExecFlags(p: Image, m: Machine, i: Insn)
    ensures FlagsMove(i, m, Exec(p, m, i))
  {
    hide Exec, FlagsMove;
    match FamilyOf(i.opcode) {
      case Arithmetic | Comparison | TritLogic | Move | Adjust => ScalarFlags(p, m, i);
      case Memory | Axion | Control | Illegal => AccessFlags(p, m, i);
      case Frames => FrameFlags(p, m, i);
      case BinaryTensor | UnaryTensor | ShapeCheck => TensorFlags(p, m, i);
      case Make =>
        MakeCommit(p, m, i);
        MakeFlags(m, i);
      case Inspect =>
        InspectCommit(p, m, i);
        InspectFlags(m, i);
    }
  }

  lemma StepFlags(p: Image, c: Config)
    ensures var f := Step(p, c).c.m.flags;
      if ResultOf(p, c).Some? then Shows(f, ResultOf(p, c)) else f == c.m.flags
  {
    hide Exec, Orderly, SetsFlags;
    StepMachine(p, c);
    if Executing(p, c) && Step(p, c).status.Done? { ExecFlags(p, c.m, Current(p, c)); }
  }

  /** In every reachable configuration the flags show the sign of the last result. */
  lemma {:induction false} FlagsRemember(p: Image, stale: Write, acts: seq<Action>)
    ensures Shows(Reached(p, stale, acts).m.flags, LastResult(p, stale, acts))
  {
    hide Step, ResultOf;
    if acts == [] {
    } else {
      FlagsRemember(p, stale, acts[..|acts| - 1]);
      StepFlags(p, Reached(p, stale, acts[..|acts| - 1]));
    }
  }

  // ----- pc. -----

  /** A jump whose condition the last result meets. Before the first result only the test for not zero is met. */
  predicate Wanted(op: Opcode, last: Option<int>) {
    match op
    case Jump => true
    case JumpIfZero => last == Some(0)
    case JumpIfNotZero => last != Some(0)
    case JumpIfNegative => last.Some? && last.value < 0
    case JumpIfPositive => last.Some? && last.value > 0
    case _ => false
  }

  lemma JumpGoes(p: Image, m: Machine, i: Insn, last: Option<int>)
    requires IsJump(i.opcode) && Shows(m.flags, last)
    ensures var o := Exec(p, m, i);
      if !Wanted(i.opcode, last) then o.Commit? && o.m.pc == m.pc + 1
      else if 0 <= i.a < |p.insns| then o.Commit? && o.m.pc == i.a
      else o.Fault? && o.trap == DecodeFault
  {
  }

  /** A jump goes to operand a exactly when the last result meets its condition, and traps if nothing is there. */
  lemma JumpsOnLastResult(p: Image, stale: Write, acts: seq<Action>)
    ensures var c := Reached(p, stale, acts);
      Executing(p, c) && IsJump(Current(p, c).opcode) ==>
        var r := Step(p, c); var a := Current(p, c).a;
        if !Wanted(Current(p, c).opcode, LastResult(p, stale, acts)) then r.status.Done? && r.c.m.pc == c.m.pc + 1
        else if 0 <= a < |p.insns| then r.status.Done? && r.c.m.pc == a
        else r.status == Trapped(DecodeFault)
  {
    hide Exec, Orderly, Reached, LastResult, Shows, Wanted;
    var c := Reached(p, stale, acts);
    FlagsRemember(p, stale, acts);
    if Executing(p, c) && IsJump(Current(p, c).opcode) {
      JumpGoes(p, c.m, Current(p, c), LastResult(p, stale, acts));
      StepMachine(p, c);
      StepStatus(p, c);
    }
  }

  lemma CallGoes(p: Image, m: Machine, i: Insn)
    requires i.opcode.Call? && InFile(i.a)
    ensures var o := Exec(p, m, i);
      if 0 <= m.regs[i.a] < |p.insns| then o.Commit? && o.m.pc == m.regs[i.a] && o.m.calls == m.calls + [m.pc + 1]
      else o.Fault? && o.trap == DecodeFault
  {
  }

  /** A call goes to the instruction whose number register a holds, and traps if there is none. */
  lemma CallGoesToRegister(p: Image, c: Config)
    requires Executing(p, c) && Current(p, c).opcode.Call? && InFile(Current(p, c).a)
    ensures var r := Step(p, c); var target := c.m.regs[Current(p, c).a];
      if 0 <= target < |p.insns| then
        r.status.Done? && r.c.m.pc == target && r.c.m.calls == c.m.calls + [c.m.pc + 1]
      else r.status == Trapped(DecodeFault)
  {
    hide Exec, Orderly;
    CallGoes(p, c.m, Current(p, c));
    StepMachine(p, c);
    StepStatus(p, c);
  }

  lemma RetGoes(p: Image, m: Machine, i: Insn)
    requires i.opcode.Ret?
    ensures var o := Exec(p, m, i);
      if m.calls == [] then o.Fault? && o.trap == StackFault
      else o.Commit? && o.m.pc == m.calls[|m.calls| - 1] && o.m.calls == m.calls[..|m.calls| - 1]
  {
  }

  /** A return goes to the newest return address that the trace has not used, and traps if there is none. */
  lemma RetGoesToTrace(p: Image, stale: Write, acts: seq<Action>)
    ensures var c := Reached(p, stale, acts); var calls := CallsOf(c.trace);
      Executing(p, c) && Current(p, c).opcode.Ret? ==>
        if calls == [] then Step(p, c).status == Trapped(StackFault)
        else Step(p, c).status.Done? && Step(p, c).c.m.pc == calls[|calls| - 1]
  {
    hide Exec, Orderly, Reached, CallsOf;
    var c := Reached(p, stale, acts);
    CallStackFollowsTrace(p, stale, acts);
    if Executing(p, c) && Current(p, c).opcode.Ret? {
      RetGoes(p, c.m, Current(p, c));
      StepMachine(p, c);
      StepStatus(p, c);
    }
  }

  lemma OthersGoOn(p: Image, m: Machine, i: Insn)
    requires !IsJump(i.opcode) && !i.opcode.Call? && !i.opcode.Ret? && Exec(p, m, i).Commit?
    ensures Exec(p, m, i).m.pc == m.pc + 1
  {
    if FamilyOf(i.opcode) != Control {
      hide Exec;
      EveryInsnOrderly(p, m, i);
    }
  }

  /** Every other trap-free instruction goes on to the next one; Nop and Halt change nothing but that and `halted`. */
  lemma OtherInsnsGoOn(p: Image, c: Config)
    requires Executing(p, c) && Step(p, c).status.Done?
    requires !IsJump(Current(p, c).opcode) && !Current(p, c).opcode.Call? && !Current(p, c).opcode.Ret?
    ensures Step(p, c).c.m.pc == c.m.pc + 1
    ensures FamilyOf(Current(p, c).opcode) == Control ==>
      Step(p, c).c.m == c.m.(pc := c.m.pc + 1, halted := Current(p, c).opcode.Halt?)
  {
    hide Exec, Orderly;
    StepMachine(p, c);
    OthersGoOn(p, c.m, Current(p, c));
    if FamilyOf(Current(p, c).opcode) == Control {
      ControlOnly(p, c.m, Current(p, c));
      CallsCommit(p, c.m, Current(p, c));
    }
  }
}
