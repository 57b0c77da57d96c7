/** 64-bit values: when arithmetic leaves their range, and every way in which a step can be undefined. */
module Overflow {
  import opened Options
  import opened Isa
  import opened State
  import opened Loader
  import opened Semantics
  import opened Effects
  import opened Handles
  import opened HeapTiling
  import opened Histories
  import opened Safety
  import opened ScalarLaws
  import opened StackDiscipline

  // ----- The guard. -----

  /**
   The signed arithmetic of an instruction does not fit 64 bits on the registers as they are. For division and
   remainder that is the least number divided by minus one.
   */
  predicate OverflowsOn(m: Machine, i: Insn) {
    match i.opcode
    case Add | FAdd | FracAdd => InFile(i.b) && InFile(i.c) && !Signed64(m.regs[i.b] + m.regs[i.c])
    case Sub | FSub | FracSub => InFile(i.b) && InFile(i.c) && !Signed64(m.regs[i.b] - m.regs[i.c])
    case Mul | FMul | FracMul => InFile(i.b) && InFile(i.c) && !Signed64(m.regs[i.b] * m.regs[i.c])
    case Div | FDiv | FracDiv | Mod => InFile(i.b) && InFile(i.c) && m.regs[i.b] == INT64_MIN && m.regs[i.c] == -1
    case Neg => InFile(i.b) && m.regs[i.b] == INT64_MIN
    case Inc => InFile(i.a) && m.regs[i.a] == INT64_MAX
    case Dec => InFile(i.a) && m.regs[i.a] == INT64_MIN
    case Cmp => InFile(i.a) && InFile(i.b) && !Signed64(m.regs[i.a] - m.regs[i.b])
    case _ => false
  }

  /** An instruction whose arithmetic overflows is about to be executed. */
  predicate OverflowsAt(p: Image, c: Config) { Executing(p, c) && OverflowsOn(c.m, Current(p, c)) }

  predicate RegsInRange(m: Machine) { forall r :: 0 <= r < REGISTER_COUNT ==> Signed64(m.regs[r]) }

  lemma ProductAtLeast(q: nat, d: nat)
    requires d > 0
    ensures q <= q * d && (d >= 2 ==> 2 * q <= q * d)
  {
  }

  lemma QuotientBound(n: nat, d: nat)
    requires d > 0
    ensures 0 <= n / d <= n && 0 <= n % d < d && n % d <= n && (d >= 2 ==> 2 * (n / d) <= n)
  {
    EuclideanDivision(n, d);
    ProductAtLeast(n / d, d);
  }

  /** A 64-bit quotient leaves the range only when the least number is divided by minus one. */
  lemma QuotientOverflow(x: int, y: int)
    requires Signed64(x) && Signed64(y) && y != 0
    ensures !Signed64(TruncDiv(x, y)) <==> x == INT64_MIN && y == -1
    ensures Signed64(TruncMod(x, y))
  {
    var n, d := if x >= 0 then x else -x, if y > 0 then y else -y;
    QuotientBound(n, d);
  }

  lemma ArithmeticOverflow(m: Machine, i: Insn)
    requires FamilyOf(i.opcode) == Arithmetic && RegsInRange(m)
    ensures ExecArithmetic(m, i) == Undefined(SignedOverflow) <==> OverflowsOn(m, i)
  {
    hide TruncDiv, TruncMod;
    if InFile(i.b) && InFile(i.c) && IsDivision(i.opcode) && m.regs[i.c] != 0 {
      QuotientOverflow(m.regs[i.b], m.regs[i.c]);
    }
  }

  lemma MoveOverflow(m: Machine, i: Insn)
    requires FamilyOf(i.opcode) == Move && RegsInRange(m)
    ensures ExecMove(m, i) == Undefined(SignedOverflow) <==> OverflowsOn(m, i)
  {
  }

  lemma AdjustOverflow(m: Machine, i: Insn)
    requires FamilyOf(i.opcode) == Adjust && RegsInRange(m)
    ensures ExecAdjust(m, i) == Undefined(SignedOverflow) <==> OverflowsOn(m, i)
  {
  }

  lemma OthersNeverOverflow(p: Image, m: Machine, i: Insn)
    requires FamilyOf(i.opcode) !in {Arithmetic, Move, Adjust}
    ensures Exec(p, m, i) != Undefined(SignedOverflow) && !OverflowsOn(m, i)
  {
  }

  /** Overflow, exactly: what the guard says of the operands decides it. */
  lemma OverflowIff(p: Image, m: Machine, i: Insn)
    requires RegsInRange(m)
    ensures Exec(p, m, i) == Undefined(SignedOverflow) <==> OverflowsOn(m, i)
  {
    hide OverflowsOn;
    match FamilyOf(i.opcode) {
      case Arithmetic => ArithmeticOverflow(m, i);
      case Move => MoveOverflow(m, i);
      case Adjust => AdjustOverflow(m, i);
      case _ =>
        hide Exec;
        OthersNeverOverflow(p, m, i);
    }
  }

  // ----- Values stay in range. -----

  predicate AllSigned64(s: seq<int>) { forall k :: 0 <= k < |s| ==> Signed64(s[k]) }

  predicate PoolsInRange(m: Machine) {
    && (forall k :: 0 <= k < |m.options| ==> Signed64(m.options[k].payload))
    && (forall k :: 0 <= k < |m.results| ==> Signed64(m.results[k].payload))
    && (forall k :: 0 <= k < |m.enums| ==> Signed64(m.enums[k].payload) && Signed64(m.enums[k].variantId))
  }

  /** Every value a program can compute with fits 64 bits. */
  predicate MachineInRange(m: Machine) { RegsInRange(m) && AllSigned64(m.mem) && PoolsInRange(m) }

  const HALF_RANGE: nat := 0x4000_0000_0000_0000

  /** Sizes and addresses that an instruction may put into a register are far from the end of the range. */
  predicate Small(m: Machine) {
    && m.pc < HALF_RANGE && m.sp < HALF_RANGE && m.heapPtr < HALF_RANGE
    && |m.options| < HALF_RANGE && |m.results| < HALF_RANGE && |m.enums| < HALF_RANGE
  }

  predicate InsnTyped(i: Insn) { OpcodeByte(i.opcode) && Signed64(i.a) && Signed64(i.b) && Signed64(i.c) }

  /** An image whose fields hold values of their C++ types. */
  predicate Typed(p: Image) {
    && (forall k :: 0 <= k < |p.insns| ==> InsnTyped(p.insns[k]))
    && (p.tier.Some? ==> Signed64(p.tier.value))
  }

  predicate ActTyped(a: Action) { a.HostWrite? ==> Signed64(a.value) }

  predicate ActsTyped(acts: seq<Action>) { forall k :: 0 <= k < |acts| ==> ActTyped(acts[k]) }

  /** What instruction `i` leaves in register a is in range. */
  predicate ResultInRange(i: Insn, o: Outcome) { o.Commit? && InFile(i.a) ==> Signed64(o.m.regs[i.a]) }

  lemma ScalarResults(p: Image, m: Machine, i: Insn)
    requires MachineInRange(m) && Small(m) && InsnTyped(i)
    requires FamilyOf(i.opcode) in {Comparison, TritLogic, Move, Adjust}
    ensures ResultInRange(i, Exec(p, m, i))
  {
  }

  lemma ArithmeticResults(m: Machine, i: Insn)
    requires MachineInRange(m) && FamilyOf(i.opcode) == Arithmetic
    ensures ResultInRange(i, ExecArithmetic(m, i))
  {
    hide Calculate;
  }

  lemma AccessResults(p: Image, m: Machine, i: Insn)
    requires MachineInRange(m) && InsnTyped(i) && FamilyOf(i.opcode) in {Memory, Axion}
    ensures ResultInRange(i, Exec(p, m, i))
    ensures Exec(p, m, i).Commit? ==> AllSigned64(Exec(p, m, i).m.mem)
  {
  }

  lemma FrameResults(p: Image, m: Machine, i: Insn)
    requires MachineInRange(m) && Small(m) && FamilyOf(i.opcode) == Frames
    ensures ResultInRange(i, Exec(p, m, i))
  {
  }

  lemma InspectResults(m: Machine, i: Insn)
    requires MachineInRange(m) && FamilyOf(i.opcode) == Inspect
    ensures ResultInRange(i, ExecInspect(m, i))
  {
  }

  lemma OptionResults(m: Machine, i: Insn)
    requires MachineInRange(m) && Small(m) && (i.opcode.MakeOptionSome? || i.opcode.MakeOptionNone?)
    ensures ResultInRange(i, ExecMake(m, i)) && (ExecMake(m, i).Commit? ==> PoolsInRange(ExecMake(m, i).m))
  {
  }

  lemma ResultResults(m: Machine, i: Insn)
    requires MachineInRange(m) && Small(m) && (i.opcode.MakeResultOk? || i.opcode.MakeResultErr?)
    ensures ResultInRange(i, ExecMake(m, i)) && (ExecMake(m, i).Commit? ==> PoolsInRange(ExecMake(m, i).m))
  {
  }

  lemma EnumResults(m: Machine, i: Insn)
    requires MachineInRange(m) && Small(m) && InsnTyped(i)
    requires i.opcode.MakeEnumVariant? || i.opcode.MakeEnumVariantPayload?
    ensures ResultInRange(i, ExecMake(m, i)) && (ExecMake(m, i).Commit? ==> PoolsInRange(ExecMake(m, i).m))
  {
  }

  lemma MakeResults(m: Machine, i: Insn)
    requires MachineInRange(m) && Small(m) && InsnTyped(i) && FamilyOf(i.opcode) == Make
    ensures ResultInRange(i, ExecMake(m, i)) && (ExecMake(m, i).Commit? ==> PoolsInRange(ExecMake(m, i).m))
  {
    hide ExecMake, MachineInRange, Small, InsnTyped, ResultInRange, PoolsInRange;
    if i.opcode.MakeOptionSome? || i.opcode.MakeOptionNone? { OptionResults(m, i); }
    else if i.opcode.MakeResultOk? || i.opcode.MakeResultErr? { ResultResults(m, i); }
    else { EnumResults(m, i); }
  }

  lemma ArithmeticCommit(p: Image, m: Machine, i: Insn)
    requires FamilyOf(i.opcode) == Arithmetic
    ensures Exec(p, m, i) == ExecArithmetic(m, i)
  {
  }

  lemma InsnResults(p: Image, m: Machine, i: Insn)
    requires MachineInRange(m) && Small(m) && InsnTyped(i) && NoTensors(m) && Exec(p, m, i).Commit?
    ensures ResultInRange(i, Exec(p, m, i))
    ensures FamilyOf(i.opcode) == Memory ==> AllSigned64(Exec(p, m, i).m.mem)
    ensures FamilyOf(i.opcode) == Make ==> PoolsInRange(Exec(p, m, i).m)
  {
    hide Exec, MachineInRange, AllSigned64, PoolsInRange, Small, InsnTyped, NoTensors;
    match FamilyOf(i.opcode) {
      case Arithmetic =>
        ArithmeticCommit(p, m, i);
        ArithmeticResults(m, i);
      case Comparison | TritLogic | Move | Adjust => ScalarResults(p, m, i);
      case Memory | Axion => AccessResults(p, m, i);
      case Frames => FrameResults(p, m, i);
      case Inspect =>
        InspectCommit(p, m, i);
        InspectResults(m, i);
      case Make =>
        MakeCommit(p, m, i);
        MakeResults(m, i);
      case Control =>
        ControlOnly(p, m, i);
        ControlResults(m, i, Exec(p, m, i));
      case BinaryTensor | UnaryTensor | ShapeCheck => NoEntryNoCommit(p, m, i);
      case Illegal => IllegalFaults(p, m, i);
    }
  }

  lemma ControlResults(m: Machine, i: Insn, o: Outcome)
    requires MachineInRange(m) && o.Commit? && o.m.regs == m.regs
    ensures ResultInRange(i, o)
  {
  }

  lemma IllegalFaults(p: Image, m: Machine, i: Insn)
    requires FamilyOf(i.opcode) == Illegal
    ensures !Exec(p, m, i).Commit?
  {
  }

  /** A step from values in range leads to values in range. */
  lemma StepKeepsRange(p: Image, c: Config)
    requires MachineInRange(c.m) && Small(c.m) && Typed(p) && NoTensors(c.m)
    ensures MachineInRange(Step(p, c).c.m)
  {
    hide Exec, Small, InsnTyped, NoTensors, AllSigned64, PoolsInRange;
    StepMachine(p, c);
    if Executing(p, c) && Step(p, c).status.Done? {
      var i := Current(p, c);
      InsnResults(p, c.m, i);
      PoolsFrame(c.m, Step(p, c).c.m);
    }
  }

  lemma PoolsFrame(m: Machine, n: Machine)
    ensures m.options == n.options && m.results == n.results && m.enums == n.enums && PoolsInRange(m)
      ==> PoolsInRange(n)
  {
  }

  // ----- Reachable configurations. -----

  lemma {:induction false} PopsInTrace(trace: seq<TraceEntry>)
    ensures Pops(trace) <= |trace|
  {
    if trace == [] {
    } else {
      PopsInTrace(trace[..|trace| - 1]);
    }
  }

  lemma StepCounts(p: Image, c: Config)
    ensures var d := Step(p, c).c;
      |d.trace| <= |c.trace| + 1 && PoolTotal(d.m) <= PoolTotal(c.m) + 1 && d.steps <= c.steps + 1
  {
    hide Exec, Orderly, PoolTotal;
    StepMachine(p, c);
    StepTraced(p, c);
    if Executing(p, c) && Step(p, c).status.Done? { CommitCounts(p, c.m, Current(p, c)); }
  }

  lemma CommitCounts(p: Image, m: Machine, i: Insn)
    requires Exec(p, m, i).Commit?
    ensures PoolTotal(Exec(p, m, i).m) <= PoolTotal(m) + 1
  {
    hide Exec;
    EveryInsnOrderly(p, m, i);
    if FamilyOf(i.opcode) == Make {
      MakeCommit(p, m, i);
      MakeAdds(m, i);
      var n := Exec(p, m, i).m;
      assert PoolSize(m, OptionHandle) == |m.options| && PoolSize(n, OptionHandle) == |n.options|;
      assert PoolSize(m, ResultHandle) == |m.results| && PoolSize(n, ResultHandle) == |n.results|;
      assert PoolSize(m, EnumHandle) == |m.enums| && PoolSize(n, EnumHandle) == |n.enums|;
    }
  }

  /** A history is at least as long as what it leaves behind. */
  lemma {:induction false} HistoryCounts(p: Image, stale: Write, acts: seq<Action>)
    ensures var c := Reached(p, stale, acts);
      |c.trace| <= |acts| && PoolTotal(c.m) <= |acts| && c.steps <= |acts|
  {
    hide Step;
    if acts == [] {
    } else {
      HistoryCounts(p, stale, acts[..|acts| - 1]);
      StepCounts(p, Reached(p, stale, acts[..|acts| - 1]));
    }
  }

  /** Fewer instructions and actions than any address space holds. */
  predicate Feasible(p: Image, acts: seq<Action>) { |p.insns| + |acts| + 2000 < HALF_RANGE }

  lemma ReachedSmall(p: Image, stale: Write, acts: seq<Action>)
    requires Feasible(p, acts)
    ensures Small(Reached(p, stale, acts).m)
  {
    hide Step, Reached, Pops, Pushes, FrameTotal;
    var c := Reached(p, stale, acts);
    PcStaysInRange(p, stale, acts);
    StackIsConserved(p, stale, acts);
    PopsInTrace(c.trace);
    HeapStaysTiled(p, stale, acts);
    HistoryCounts(p, stale, acts);
  }

  /**
   The integers of the model never leave 64 bits: in every reachable configuration of a typed program with typed
   host writes, registers, memory and pool payloads hold values of their C++ types.
   */
  lemma {:induction false} ValuesStayInRange(p: Image, stale: Write, acts: seq<Action>)
    requires Typed(p) && ActsTyped(acts) && Feasible(p, acts)
    ensures MachineInRange(Reached(p, stale, acts).m)
  {
    hide Step, Typed, ActTyped;
    if acts == [] {
      InitialInRange(p);
    } else {
      var front, a := acts[..|acts| - 1], acts[|acts| - 1];
      var before := Reached(p, stale, front);
      ValuesStayInRange(p, stale, front);
      match a {
        case DoStep =>
          ReachedSmall(p, stale, front);
          TensorInsnsNeverCommit(p, stale, front);
          StepKeepsRange(p, before);
        case HostWrite(idx, value, tag) =>
          HostWriteKeepsRange(before, a);
      }
    }
  }

  lemma InitialInRange(p: Image)
    ensures MachineInRange(InitialMachine(p))
  {
  }

  lemma HostWriteKeepsRange(c: Config, a: Action)
    requires MachineInRange(c.m) && a.HostWrite? && ActTyped(a)
    ensures MachineInRange(HostWritten(c, a.idx, a.value, a.tag).m)
  {
  }

  // ----- Undefined behaviour. -----

  /**
   Undefined behaviour, exactly: a step of a validated program is undefined in one of three ways, each of which can
   be read off the configuration before the step.
   */
  lemma UndefinedIff(p: Image, stale: Write, acts: seq<Action>)
    requires Validate(p).None? && Typed(p) && ActsTyped(acts) && Feasible(p, acts)
    ensures var c := Reached(p, stale, acts);
      && (Step(p, c).status == UndefinedBehaviour(MemoryIndex) <==> OverrunsAt(p, c))
      && (Step(p, c).status == UndefinedBehaviour(RegisterIndex) <==> UncheckedAt(p, c))
      && (Step(p, c).status == UndefinedBehaviour(SignedOverflow) <==> OverflowsAt(p, c))
  {
    hide Exec, Reached, Validate, Typed, ActsTyped, Feasible, OverflowsOn;
    var c := Reached(p, stale, acts);
    MemoryFaultIff(p, stale, acts);
    ValuesStayInRange(p, stale, acts);
    if Executing(p, c) {
      RegisterFaultIff(p, c);
      OverflowIff(p, c.m, Current(p, c));
    }
  }

  /**
   With disciplined pops and operand b in range, arithmetic is all that can leave a step of a validated program
   undefined.
   */
  lemma DisciplinedProgramsAreDefined(p: Image, stale: Write, acts: seq<Action>)
    requires Validate(p).None? && Typed(p) && ActsTyped(acts) && Feasible(p, acts)
    requires BInRange(p) && Disciplined(p, LoadWith(p, stale), acts)
    ensures var c := Reached(p, stale, acts);
      Step(p, c).status.UndefinedBehaviour? <==> OverflowsAt(p, c)
  {
    hide Step, Validate, Disciplined, Typed, ActsTyped, Feasible;
    UndefinedIff(p, stale, acts);
    DisciplinedProgramsStayTidy(p, stale, acts);
    MemoryStaysMapped(p, stale, acts);
    var c := Reached(p, stale, acts);
    if Step(p, c).status.UndefinedBehaviour? {
      match Step(p, c).status.hazard { case RegisterIndex => case MemoryIndex => case SignedOverflow => }
    }
  }

  /** A validated program whose operands are all in range divides the least number by minus one. */
  const LEAST_BY_MINUS_ONE: seq<Insn> :=
    [Insn(LoadImm, 0, INT64_MIN, 0), Insn(LoadImm, 1, -1, 0), Insn(Div, 2, 0, 1), Insn(Halt, 0, 0, 0)]

  lemma LoadLeast(p: Image)
    requires p.insns == LEAST_BY_MINUS_ONE
    ensures var c := Step(p, Fresh(p)).c;
      Validate(p).None? && Executing(p, c) && c.m.pc == 1 && c.m.regs[0] == INT64_MIN
  {
    assert Exec(p, InitialMachine(p), p.insns[0]) == ExecMove(InitialMachine(p), p.insns[0]);
  }

  lemma LoadMinusOne(p: Image, c: Config)
    requires p.insns == LEAST_BY_MINUS_ONE && Executing(p, c) && c.m.pc == 1 && c.m.regs[0] == INT64_MIN
    ensures var d := Step(p, c).c; Executing(p, d) && d.m.pc == 2 && d.m.regs[0] == INT64_MIN && d.m.regs[1] == -1
  {
    assert Exec(p, c.m, p.insns[1]) == ExecMove(c.m, p.insns[1]);
  }

  lemma ValidatedProgramOverflows(p: Image)
    requires p.insns == LEAST_BY_MINUS_ONE
    ensures Validate(p).None? && BInRange(p)
    ensures var c := Run(p, Fresh(p), 2);
      OverflowsAt(p, c) && Step(p, c).status == UndefinedBehaviour(SignedOverflow)
  {
    hide Step;
    LoadLeast(p);
    assert Run(p, Fresh(p), 1) == Step(p, Run(p, Fresh(p), 0)).c;
    var c := Run(p, Fresh(p), 2);
    LoadMinusOne(p, Run(p, Fresh(p), 1));
    DivisionOverflows(p, c);
  }

  lemma DivisionOverflows(p: Image, c: Config)
    requires p.insns == LEAST_BY_MINUS_ONE && Executing(p, c) && c.m.pc == 2
    requires c.m.regs[0] == INT64_MIN && c.m.regs[1] == -1
    ensures Step(p, c).status == UndefinedBehaviour(SignedOverflow)
  {
    assert Exec(p, c.m, p.insns[2]) == ExecArithmetic(c.m, p.insns[2]);
  }
}
