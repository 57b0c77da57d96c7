/** What a committed instruction may touch, family by family: the frame facts behind the run theorems. */
module Effects {
  import opened Options
  import opened Isa
  import opened State
  import opened Semantics

  predicate IsTensorFamily(f: Family) { f == BinaryTensor || f == UnaryTensor }

  /** Inc, Dec and Pop write a register without recording it. */
  predicate IsQuiet(op: Opcode) { op.Inc? || op.Dec? || op.Pop? }

  /** The parts of the machine that an instruction of family `f` leaves alone. */
  predicate Framed(f: Family, m: Machine, n: Machine) {
    && n.layout == m.layout && n.policy == m.policy && n.shapes == m.shapes && |n.mem| == |m.mem|
    && (f != Memory ==> n.mem == m.mem)
    && (f != Memory && f != Frames ==> n.sp == m.sp)
    && (f != Frames ==> n.stackFrames == m.stackFrames && n.heapFrames == m.heapFrames && n.heapPtr == m.heapPtr)
    && (f != Control ==> n.calls == m.calls && n.halted == m.halted && n.pc == m.pc + 1)
    && (f != Make ==> n.options == m.options && n.results == m.results && n.enums == m.enums)
    && (!IsTensorFamily(f) ==> n.tensors == m.tensors)
  }

  /** A register changes only by the recorded write, or quietly under Inc, Dec and Pop. */
  predicate WritesTraced(i: Insn, m: Machine, n: Machine, w: Write) {
    if w == NO_WRITE then
      if IsQuiet(i.opcode) then
        InFile(i.a) && n.regs == m.regs[i.a := n.regs[i.a]] && n.tags == m.tags[i.a := IntTag]
      else n.regs == m.regs && n.tags == m.tags
    else
      && InFile(i.a) && !IsQuiet(i.opcode) && w == Recorded(i.a, n.regs[i.a], n.tags[i.a])
      && n.regs == m.regs[i.a := n.regs[i.a]] && n.tags == m.tags[i.a := n.tags[i.a]]
  }

  predicate Orderly(i: Insn, m: Machine, o: Outcome) {
    o.Commit? ==> Framed(FamilyOf(i.opcode), m, o.m) && WritesTraced(i, m, o.m, o.write)
  }

  lemma OrderlyArithmetic(m: Machine, i: Insn)
    requires FamilyOf(i.opcode) == Arithmetic
    ensures Orderly(i, m, ExecArithmetic(m, i))
  {
  }

  lemma OrderlyComparison(m: Machine, i: Insn)
    requires FamilyOf(i.opcode) == Comparison
    ensures Orderly(i, m, ExecComparison(m, i))
  {
  }

  lemma OrderlyTritLogic(m: Machine, i: Insn)
    requires FamilyOf(i.opcode) == TritLogic
    ensures Orderly(i, m, ExecTritLogic(m, i))
  {
  }

  lemma OrderlyMove(m: Machine, i: Insn)
    requires FamilyOf(i.opcode) == Move
    ensures Orderly(i, m, ExecMove(m, i))
  {
  }

  lemma OrderlyAdjust(m: Machine, i: Insn)
    requires FamilyOf(i.opcode) == Adjust
    ensures Orderly(i, m, ExecAdjust(m, i))
  {
  }

  lemma OrderlyMemory(m: Machine, i: Insn)
    requires FamilyOf(i.opcode) == Memory
    ensures Orderly(i, m, ExecMemory(m, i))
  {
  }

  lemma OrderlyControl(p: Image, m: Machine, i: Insn)
    requires FamilyOf(i.opcode) == Control
    ensures Orderly(i, m, ExecControl(p, m, i))
  {
  }

  lemma OrderlyAxion(m: Machine, i: Insn)
    requires FamilyOf(i.opcode) == Axion
    ensures Orderly(i, m, ExecAxion(m, i))
  {
  }

  lemma OrderlyBinaryTensor(m: Machine, i: Insn)
    requires FamilyOf(i.opcode) == BinaryTensor
    ensures Orderly(i, m, ExecBinaryTensor(m, i))
  {
  }

  lemma OrderlyUnaryTensor(p: Image, m: Machine, i: Insn)
    requires FamilyOf(i.opcode) == UnaryTensor
    ensures Orderly(i, m, ExecUnaryTensor(p, m, i))
  {
  }

  lemma OrderlyShapeCheck(m: Machine, i: Insn)
    requires FamilyOf(i.opcode) == ShapeCheck
    ensures Orderly(i, m, ExecShapeCheck(m, i))
  {
  }

  lemma OrderlyInspect(m: Machine, i: Insn)
    requires FamilyOf(i.opcode) == Inspect
    ensures Orderly(i, m, ExecInspect(m, i))
  {
  }

  /** Writing back on top of a machine whose pools have grown. */
  lemma OrderlyWriteBack(i: Insn, m: Machine, n: Machine, v: int, tag: Tag, event: Option<EventKind>)
    requires Framed(FamilyOf(i.opcode), m, n.(pc := m.pc + 1)) && !IsQuiet(i.opcode)
    requires n.regs == m.regs && n.tags == m.tags && n.pc == m.pc
    ensures Orderly(i, m, WriteBack(n, i.a, v, tag, event))
  {
  }

  lemma NoCommitOrderly(i: Insn, m: Machine, o: Outcome)
    requires !o.Commit?
    ensures Orderly(i, m, o)
  {
  }

  lemma OrderlyMake(m: Machine, i: Insn)
    requires FamilyOf(i.opcode) == Make
    ensures Orderly(i, m, ExecMake(m, i))
  {
    hide WriteBack, Orderly;
    if i.opcode.MakeOptionNone? {
      OrderlyWriteBack(i, m, m.(options := m.options + [OptionValue(false, IntTag, 0)]),
                       |m.options| + 1, OptionHandle, None);
    } else if i.opcode.MakeEnumVariant? {
      OrderlyWriteBack(i, m, m.(enums := m.enums + [EnumValue(i.b, false, IntTag, 0)]),
                       |m.enums| + 1, EnumHandle, None);
    } else if (i.opcode.MakeEnumVariantPayload? && i.c < 0) || !InFile(i.b) {
      NoCommitOrderly(i, m, ExecMake(m, i));
    } else {
      var tag, v := m.tags[i.b], m.regs[i.b];
      match i.opcode {
        case MakeOptionSome =>
          OrderlyWriteBack(i, m, m.(options := m.options + [OptionValue(true, tag, v)]),
                           |m.options| + 1, OptionHandle, None);
        case MakeResultOk | MakeResultErr =>
          OrderlyWriteBack(i, m, m.(results := m.results + [ResultValue(i.opcode.MakeResultOk?, tag, v)]),
                           |m.results| + 1, ResultHandle, None);
        case MakeEnumVariantPayload =>
          OrderlyWriteBack(i, m, m.(enums := m.enums + [EnumValue(i.c, true, tag, v)]),
                           |m.enums| + 1, EnumHandle, None);
      }
    }
  }

  lemma OrderlyStackAlloc(m: Machine, i: Insn)
    requires i.opcode.StackAlloc?
    ensures Orderly(i, m, ExecStackAlloc(m, i))
  {
  }

  lemma OrderlyStackFree(m: Machine, i: Insn)
    requires i.opcode.StackFree?
    ensures Orderly(i, m, ExecStackFree(m, i))
  {
  }

  lemma OrderlyHeapAlloc(m: Machine, i: Insn)
    requires i.opcode.HeapAlloc?
    ensures Orderly(i, m, ExecHeapAlloc(m, i))
  {
  }

  lemma OrderlyHeapFree(m: Machine, i: Insn)
    requires i.opcode.HeapFree?
    ensures Orderly(i, m, ExecHeapFree(m, i))
  {
  }

  /** Every instruction keeps to its family's frame and traces its register writes. */
  lemma EveryInsnOrderly(p: Image, m: Machine, i: Insn)
    ensures Orderly(i, m, Exec(p, m, i))
  {
    hide Orderly;
    match FamilyOf(i.opcode) {
      case Arithmetic => OrderlyArithmetic(m, i);
      case Comparison => OrderlyComparison(m, i);
      case TritLogic => OrderlyTritLogic(m, i);
      case Move => OrderlyMove(m, i);
      case Adjust => OrderlyAdjust(m, i);
      case Memory => OrderlyMemory(m, i);
      case Control => OrderlyControl(p, m, i);
      case Axion => OrderlyAxion(m, i);
      case BinaryTensor => OrderlyBinaryTensor(m, i);
      case UnaryTensor => OrderlyUnaryTensor(p, m, i);
      case ShapeCheck => OrderlyShapeCheck(m, i);
      case Make => OrderlyMake(m, i);
      case Inspect => OrderlyInspect(m, i);
      case Frames =>
        match i.opcode {
          case StackAlloc => OrderlyStackAlloc(m, i);
          case StackFree => OrderlyStackFree(m, i);
          case HeapAlloc => OrderlyHeapAlloc(m, i);
          case HeapFree => OrderlyHeapFree(m, i);
        }
      case Illegal =>
        NoCommitOrderly(i, m, PlainFault(DecodeFault));
    }
  }

  /** Control instructions only move pc, grow or shrink the call stack, or halt. */
  lemma ControlOnly(p: Image, m: Machine, i: Insn)
    requires FamilyOf(i.opcode) == Control && Exec(p, m, i).Commit?
    ensures var o := Exec(p, m, i);
      && o.m == m.(pc := o.m.pc, calls := o.m.calls, halted := o.m.halted)
      && o.write == NO_WRITE && o.event.None?
      && (o.m.halted <==> m.halted || i.opcode.Halt?)
  {
  }

  /** A step changes the machine only by committing an instruction, and then the step is the finished one. */
  lemma StepMachine(p: Image, c: Config)
    ensures var r := Step(p, c);
      if Executing(p, c) && r.status.Done? then
        var o := Exec(p, c.m, Current(p, c));
        o.Commit? && r == Finish(p, Fetched(c), Current(p, c), o) && Orderly(Current(p, c), c.m, o)
      else r.c.m == c.m
  {
    hide Exec, Orderly;
    if Executing(p, c) { EveryInsnOrderly(p, c.m, Current(p, c)); }
  }

  /** A step that does anything adds one entry to the trace. */
  lemma StepTraced(p: Image, c: Config)
    ensures var r := Step(p, c);
      if c.m.halted || r.status.UndefinedBehaviour? then r.c == c
      else
        && |r.c.trace| == |c.trace| + 1 && r.c.trace[..|c.trace|] == c.trace
        && r.c.trace[|c.trace|] == TraceEntry(c.m.pc, CurrentOpcode(p, c.m.pc), r.c.write,
                                              if r.status.Trapped? then Some(r.status.trap) else None)
        && (r.status.Done? ==> Executing(p, c))
  {
    hide Exec;
  }
}
