/** What validation guarantees about every run, and exactly where it falls short. */
module Safety {
  import opened Options
  import opened Isa
  import opened State
  import opened Loader
  import opened Semantics
  import opened Effects
  import opened StackDiscipline
  import opened HeapTiling
  import opened Histories

  /** The opcodes that read register b although validation only checks operand a. */
  predicate ReadsUncheckedB(op: Opcode) { op.Neg? || op.I2F? || op.F2I? || op.I2Frac? || op.Frac2I? }

  // ----- Register indices. -----

  lemma ScalarRegisters(p: Image, m: Machine, i: Insn)
    requires InsnOk(p, i) && FamilyOf(i.opcode) in {Arithmetic, Comparison, TritLogic, Move, Adjust}
    ensures Exec(p, m, i) == Undefined(RegisterIndex) <==> ReadsUncheckedB(i.opcode) && !InFile(i.b)
  {
  }

  lemma AccessRegisters(p: Image, m: Machine, i: Insn)
    requires InsnOk(p, i) && FamilyOf(i.opcode) in {Memory, Axion, Control}
    ensures Exec(p, m, i) != Undefined(RegisterIndex)
  {
  }

  lemma FrameRegisters(p: Image, m: Machine, i: Insn)
    requires InsnOk(p, i) && FamilyOf(i.opcode) in {Frames, Make}
    ensures Exec(p, m, i) != Undefined(RegisterIndex)
  {
  }

  lemma PoolRegisters(p: Image, m: Machine, i: Insn)
    requires InsnOk(p, i) && FamilyOf(i.opcode) in {BinaryTensor, UnaryTensor, ShapeCheck, Inspect}
    ensures Exec(p, m, i) != Undefined(RegisterIndex)
  {
  }

  lemma ValidatedInsn(p: Image, k: nat)
    requires Validate(p).None? && k < |p.insns|
    ensures InsnOk(p, p.insns[k]) && FamilyOf(p.insns[k].opcode) != Illegal
  {
  }

  /**
   Register safety, exactly: an executing step of a validated program indexes the register file out of
   range if and only if it is one of the five instructions whose operand b is not checked, with b out of range.
   */
  lemma RegisterFaultIff(p: Image, c: Config)
    requires Validate(p).None? && Executing(p, c)
    ensures Step(p, c).status == UndefinedBehaviour(RegisterIndex) <==>
      ReadsUncheckedB(Current(p, c).opcode) && !InFile(Current(p, c).b)
  {
    hide Exec, InsnOk, Validate;
    var i := Current(p, c);
    ValidatedInsn(p, c.m.pc);
    match FamilyOf(i.opcode) {
      case Arithmetic | Comparison | TritLogic | Move | Adjust => ScalarRegisters(p, c.m, i);
      case Memory | Axion | Control => AccessRegisters(p, c.m, i);
      case Frames | Make => FrameRegisters(p, c.m, i);
      case BinaryTensor | UnaryTensor | ShapeCheck | Inspect => PoolRegisters(p, c.m, i);
    }
  }

  /** Validation accepts an instruction that reads register 300. */
  lemma ValidationMissesOperandB(p: Image)
    requires p.insns == [Insn(Neg, 0, 300, 0)]
    ensures Validate(p).None? && Step(p, Fresh(p)).status == UndefinedBehaviour(RegisterIndex)
  {
    hide Exec;
    RegisterFaultIff(p, Fresh(p));
  }

  /** The hypothesis that closes the gap. */
  ghost predicate BInRange(p: Image) {
    forall k :: 0 <= k < |p.insns| && ReadsUncheckedB(p.insns[k].opcode) ==> InFile(p.insns[k].b)
  }

  /** An instruction all of whose register operands, as the interpreter uses them, are in range. */
  predicate OperandsOk(i: Insn) {
    match FamilyOf(i.opcode)
    case Arithmetic | Comparison | TritLogic | BinaryTensor | ShapeCheck => InFile(i.a) && InFile(i.b) && InFile(i.c)
    case Move => InFile(i.a) && (i.opcode.LoadImm? || i.opcode.WeightsLoad? || InFile(i.b))
    case Adjust => InFile(i.a) && (i.opcode.Cmp? ==> InFile(i.b))
    case Memory => if i.opcode.Store? then InFile(i.b) else InFile(i.a)
    case Control => i.opcode.Call? ==> InFile(i.a)
    case Axion => InFile(i.a) && (i.opcode.AxSet? ==> InFile(i.b))
    case UnaryTensor | Inspect => InFile(i.a) && InFile(i.b)
    case Make => InFile(i.a) && (i.opcode.MakeOptionNone? || i.opcode.MakeEnumVariant? || InFile(i.b))
    case Frames => InFile(i.a)
    case Illegal => true
  }

  lemma InsnOkOperands(p: Image, i: Insn)
    requires InsnOk(p, i)
    ensures OperandsOk(i) <==> (ReadsUncheckedB(i.opcode) ==> InFile(i.b))
  {
  }

  /** What validation asks of one instruction: its register operands in the file, except the five unchecked ones. */
  predicate Acceptable(p: Image, i: Insn) {
    && FamilyOf(i.opcode) != Illegal
    && (IsJump(i.opcode) ==> 0 <= i.a < |p.insns|)
    && (if ReadsUncheckedB(i.opcode) then InFile(i.a) else OperandsOk(i))
  }

  /** The operand table of the validator asks for what the interpreter uses, no more, and for five opcodes less. */
  lemma InsnOkIff(p: Image, i: Insn)
    ensures InsnOk(p, i) <==> Acceptable(p, i)
  {
  }

  /**
   Validation, exactly: a program is accepted if and only if every opcode is listed, every jump goes to an instruction
   and every register operand but operand b of five opcodes is in the file. It is rejected with a DecodeFault.
   */
  lemma ValidatesIff(p: Image)
    ensures Validate(p).None? <==> forall k :: 0 <= k < |p.insns| ==> Acceptable(p, p.insns[k])
    ensures Validate(p).Some? ==> Validate(p).value == DecodeFault
  {
    hide InsnOk, Acceptable;
    forall k | 0 <= k < |p.insns|
      ensures InsnOk(p, p.insns[k]) <==> Acceptable(p, p.insns[k])
    {
      InsnOkIff(p, p.insns[k]);
    }
  }

  /** A validated program has all its register operands in range if and only if the unchecked ones are. */
  lemma ValidatedOperandsIff(p: Image)
    requires Validate(p).None?
    ensures BInRange(p) <==> forall k :: 0 <= k < |p.insns| ==> OperandsOk(p.insns[k])
  {
    hide OperandsOk, Validate, InsnOk;
    forall k | 0 <= k < |p.insns|
      ensures OperandsOk(p.insns[k]) <==> (ReadsUncheckedB(p.insns[k].opcode) ==> InFile(p.insns[k].b))
    {
      ValidatedInsn(p, k);
      InsnOkOperands(p, p.insns[k]);
    }
  }

  // ----- Control. -----

  lemma JumpCommits(p: Image, m: Machine, i: Insn)
    requires InsnOk(p, i) && IsJump(i.opcode)
    ensures Exec(p, m, i).Commit?
  {
  }

  /** No jump of a validated program ever traps. */
  lemma JumpsNeverTrap(p: Image, c: Config)
    requires Validate(p).None? && Executing(p, c) && IsJump(Current(p, c).opcode)
    ensures Step(p, c).status.Done?
  {
    hide Exec, InsnOk, Validate;
    ValidatedInsn(p, c.m.pc);
    JumpCommits(p, c.m, Current(p, c));
  }

  /** pc and every return address lie in the program or just behind it. */
  ghost predicate PcInRange(p: Image, m: Machine) {
    m.pc <= |p.insns| && forall k :: 0 <= k < |m.calls| ==> 1 <= m.calls[k] <= |p.insns|
  }

  lemma ControlInRange(p: Image, m: Machine, i: Insn)
    requires PcInRange(p, m) && m.pc < |p.insns| && Exec(p, m, i).Commit? && FamilyOf(i.opcode) == Control
    ensures PcInRange(p, Exec(p, m, i).m)
  {
  }

  lemma StepInRange(p: Image, c: Config)
    requires PcInRange(p, c.m)
    ensures PcInRange(p, Step(p, c).c.m)
  {
    hide Exec, Orderly;
    StepMachine(p, c);
    if Executing(p, c) && Step(p, c).status.Done? {
      EveryInsnOrderly(p, c.m, Current(p, c));
      if FamilyOf(Current(p, c).opcode) == Control { ControlInRange(p, c.m, Current(p, c)); }
      else { FrameInRange(p, c.m, Current(p, c), Exec(p, c.m, Current(p, c))); }
    }
  }

  lemma FrameInRange(p: Image, m: Machine, i: Insn, o: Outcome)
    requires PcInRange(p, m) && m.pc < |p.insns| && o.Commit? && Orderly(i, m, o) && FamilyOf(i.opcode) != Control
    ensures PcInRange(p, o.m)
  {
  }

  lemma {:induction false} PcStaysInRange(p: Image, stale: Write, acts: seq<Action>)
    ensures PcInRange(p, Reached(p, stale, acts).m)
  {
    hide Step;
    if acts == [] {
    } else {
      PcStaysInRange(p, stale, acts[..|acts| - 1]);
      StepInRange(p, Reached(p, stale, acts[..|acts| - 1]));
    }
  }

  // ----- Reachable configurations. -----

  /**
   Validator soundness: in no reachable configuration of a validated program with operand b in range does a step
   index the register file out of range, meet an unlisted opcode, or trap in a jump; and pc never leaves the
   program's end.
   */
  lemma ValidatedProgramsAreSafe(p: Image, stale: Write, acts: seq<Action>)
    requires Validate(p).None? && BInRange(p)
    ensures var c := Reached(p, stale, acts);
      && Step(p, c).status != UndefinedBehaviour(RegisterIndex)
      && 0 <= c.m.pc <= |p.insns|
      && (Executing(p, c) ==> FamilyOf(Current(p, c).opcode) != Illegal)
      && (Executing(p, c) && IsJump(Current(p, c).opcode) ==> Step(p, c).status.Done?)
  {
    hide Exec, Reached, InsnOk, Validate;
    PcStaysInRange(p, stale, acts);
    var c := Reached(p, stale, acts);
    if Executing(p, c) {
      RegisterFaultIff(p, c);
      ValidatedInsn(p, c.m.pc);
      if IsJump(Current(p, c).opcode) { JumpsNeverTrap(p, c); }
    }
  }

  /** A push is about to be executed with the stack pointer beyond the memory. */
  predicate OverrunsAt(p: Image, c: Config) {
    Executing(p, c) && Current(p, c).opcode.Push? && c.m.sp > |c.m.mem|
  }

  /** One of the five instructions whose operand b is not checked is about to be executed with b out of range. */
  predicate UncheckedAt(p: Image, c: Config) {
    Executing(p, c) && ReadsUncheckedB(Current(p, c).opcode) && !InFile(Current(p, c).b)
  }

  lemma PushOperandOk(p: Image, i: Insn)
    requires InsnOk(p, i) && i.opcode.Push?
    ensures InFile(i.a)
  {
  }

  /**
   Memory safety, exactly: in a reachable configuration of a validated program the step indexes the memory out of
   range if and only if it is a push with the stack pointer beyond the memory.
   */
  lemma MemoryFaultIff(p: Image, stale: Write, acts: seq<Action>)
    requires Validate(p).None?
    ensures var c := Reached(p, stale, acts);
      Step(p, c).status == UndefinedBehaviour(MemoryIndex) <==> OverrunsAt(p, c)
  {
    hide Exec, Reached, InsnOk, Validate;
    var c := Reached(p, stale, acts);
    MemoryStaysMapped(p, stale, acts);
    if Executing(p, c) {
      MemoryIndexIff(p, c.m, Current(p, c));
      ValidatedInsn(p, c.m.pc);
      if Current(p, c).opcode.Push? { PushOperandOk(p, Current(p, c)); }
    }
  }

  // ----- Rejected programs. -----

  /**
   A program that validation rejects traps in its first step, which changes nothing on the machine and uses the
   preload trap up: the second step executes an instruction.
   */
  lemma RejectedProgramsExecute(p: Image, stale: Write)
    requires Validate(p).Some?
    ensures var c := LoadWith(p, stale); var d := Run(p, c, 1);
      Step(p, c).status == Trapped(DecodeFault) && d.m == c.m && Executing(p, d)
  {
    hide Exec, InsnOk;
    var c := LoadWith(p, stale);
    assert Run(p, c, 0) == c;
    assert Run(p, c, 1) == Step(p, Run(p, c, 0)).c;
  }

  /** The first trap need not be repeated: this rejected program halts in its second step. */
  lemma RejectedProgramHalts(p: Image)
    requires p.insns == [Insn(Halt, 0, 0, 0), Insn(Unlisted(200), 0, 0, 0)]
    ensures Validate(p).Some? && Run(p, Fresh(p), 2).m.halted
  {
    hide Step;
    assert !InsnOk(p, p.insns[1]);
    RejectedProgramsExecute(p, NO_WRITE);
    HaltHalts(p, Run(p, Fresh(p), 1));
  }

  lemma HaltHalts(p: Image, c: Config)
    requires Executing(p, c) && Current(p, c).opcode.Halt?
    ensures Step(p, c).c.m.halted
  {
  }
}
