/**
 The interpreter's specification: what one `step` does to a configuration, and runs of steps.

 `Undefined` marks where the behaviour of the source is undefined: the two containers it indexes without a
 check, the register file by an instruction operand and the memory vector by the stack pointer, and the
 signed arithmetic of scalar instructions when the result does not fit 64 bits.
 */
module Semantics {
  import opened Options
  import opened Isa
  import opened State
  import opened Tensors

  datatype Hazard = RegisterIndex | MemoryIndex | SignedOverflow

  /** The effect of one instruction on the machine, before the step is traced. */
  datatype Outcome =
    | Commit(m: Machine, write: Write, event: Option<EventKind>)
    | Fault(trap: Trap, segment: Segment, detail: string, event: Option<EventKind>)
    | Undefined(hazard: Hazard)

  datatype Status = Done | Trapped(trap: Trap) | UndefinedBehaviour(hazard: Hazard)

  datatype StepResult = StepResult(c: Config, status: Status)

  function FlagsOf(v: int): Flags { Flags(v == 0, v < 0, v > 0) }

  function SetReg(m: Machine, a: int, v: int, tag: Tag): Machine
    requires InFile(a)
  {
    m.(regs := m.regs[a := v], tags := m.tags[a := tag])
  }

  function Recorded(a: nat, v: int, tag: Tag): Write { Write(Some(a), Some(v), Some(tag)) }

  /** Write register `a`, record the write, set the flags and go to the next instruction. */
  function WriteBack(m: Machine, a: int, v: int, tag: Tag, event: Option<EventKind>): Outcome {
    if !InFile(a) then Undefined(RegisterIndex)
    else Commit(SetReg(m, a, v, tag).(flags := FlagsOf(v), pc := m.pc + 1), Recorded(a, v, tag), event)
  }

  function PlainFault(trap: Trap): Outcome { Fault(trap, Unknown, "", None) }

  // ----- Scalar instructions. -----

  /** Division and remainder truncate toward zero. */
  function TruncDiv(x: int, y: int): int
    requires y != 0
  {
    if x >= 0 then (if y > 0 then x / y else -(x / -y))
    else (if y > 0 then -(-x / y) else -x / -y)
  }

  function TruncMod(x: int, y: int): int
    requires y != 0
  {
    var d := if y > 0 then y else -y;
    if x >= 0 then x % d else -(-x % d)
  }

  function ClampTrit(v: int): int { if v > 1 then 1 else if v < -1 then -1 else v }

  predicate IsDivision(op: Opcode) { op.Div? || op.Mod? || op.FDiv? || op.FracDiv? }

  function Calculate(op: Opcode, x: int, y: int): int
    requires FamilyOf(op) == Arithmetic && (IsDivision(op) ==> y != 0)
  {
    match op
    case Add | FAdd | FracAdd => x + y
    case Sub | FSub | FracSub => x - y
    case Mul | FMul | FracMul => x * y
    case Div | FDiv | FracDiv => TruncDiv(x, y)
    case Mod => TruncMod(x, y)
  }

  predicate Compare(op: Opcode, x: int, y: int)
    requires FamilyOf(op) == Comparison
  {
    match op
    case Less => x < y
    case LessEqual => x <= y
    case Greater => x > y
    case GreaterEqual => x >= y
    case Equal => x == y
    case NotEqual => x != y
  }

  function Trit(op: Opcode, x: int, y: int): int
    requires FamilyOf(op) == TritLogic
  {
    match op
    case TAnd => if x < y then x else y
    case TOr => if x > y then x else y
    case TXor => if x - y > 1 then -1 else if x - y < -1 then 1 else x - y
  }

  /** The result does not fit; for the remainder it is the quotient that does not. */
  predicate Overflows(op: Opcode, x: int, y: int)
    requires FamilyOf(op) == Arithmetic && (IsDivision(op) ==> y != 0)
  {
    !Signed64(Calculate(op, x, y)) || (op.Mod? && !Signed64(TruncDiv(x, y)))
  }

  function ExecArithmetic(m: Machine, i: Insn): Outcome
    requires FamilyOf(i.opcode) == Arithmetic
  {
    if !InFile(i.b) || !InFile(i.c) then Undefined(RegisterIndex)
    else if IsDivision(i.opcode) && m.regs[i.c] == 0 then Fault(DivisionFault, Unknown, "division by zero", None)
    else if Overflows(i.opcode, m.regs[i.b], m.regs[i.c]) then Undefined(SignedOverflow)
    else WriteBack(m, i.a, Calculate(i.opcode, m.regs[i.b], m.regs[i.c]), IntTag, None)
  }

  function ExecComparison(m: Machine, i: Insn): Outcome
    requires FamilyOf(i.opcode) == Comparison
  {
    if !InFile(i.b) || !InFile(i.c) then Undefined(RegisterIndex)
    else WriteBack(m, i.a, if Compare(i.opcode, m.regs[i.b], m.regs[i.c]) then 1 else 0, IntTag, None)
  }

  function ExecTritLogic(m: Machine, i: Insn): Outcome
    requires FamilyOf(i.opcode) == TritLogic
  {
    if !InFile(i.b) || !InFile(i.c) then Undefined(RegisterIndex)
    else WriteBack(m, i.a, Trit(i.opcode, ClampTrit(m.regs[i.b]), ClampTrit(m.regs[i.c])), IntTag, None)
  }

  /** The value a Move instruction that reads register b puts into register a. */
  function Moved(op: Opcode, v: int): int {
    if op.Neg? then -v else if op.TNot? then -ClampTrit(v) else v
  }

  /** Mov and the four conversions keep the tag of register b. */
  predicate KeepsTag(op: Opcode) { op.Mov? || op.I2F? || op.F2I? || op.I2Frac? || op.Frac2I? }

  function ExecMove(m: Machine, i: Insn): Outcome
    requires FamilyOf(i.opcode) == Move
  {
    if i.opcode.LoadImm? then WriteBack(m, i.a, i.b, IntTag, None)
    else if i.opcode.WeightsLoad? then
      WriteBack(m, i.a, if i.b > 0 then i.b else 1000 + m.pc, WeightsTensorHandle, Some(WeightsLoaded))
    else if !InFile(i.b) then Undefined(RegisterIndex)
    else if i.opcode.Neg? && !Signed64(-m.regs[i.b]) then Undefined(SignedOverflow)
    else WriteBack(m, i.a, Moved(i.opcode, m.regs[i.b]), if KeepsTag(i.opcode) then m.tags[i.b] else IntTag, None)
  }

  /** Inc and Dec write register a without recording the write; Cmp only sets the flags. */
  function ExecAdjust(m: Machine, i: Insn): Outcome
    requires FamilyOf(i.opcode) == Adjust
  {
    if !InFile(i.a) then Undefined(RegisterIndex)
    else if i.opcode.Cmp? then
      if !InFile(i.b) then Undefined(RegisterIndex)
      else if !Signed64(m.regs[i.a] - m.regs[i.b]) then Undefined(SignedOverflow)
      else Commit(m.(flags := FlagsOf(m.regs[i.a] - m.regs[i.b]), pc := m.pc + 1), NO_WRITE, None)
    else
      var v := if i.opcode.Inc? then m.regs[i.a] + 1 else m.regs[i.a] - 1;
      if !Signed64(v) then Undefined(SignedOverflow)
      else Commit(SetReg(m, i.a, v, IntTag).(flags := FlagsOf(v), pc := m.pc + 1), NO_WRITE, None)
  }

  // ----- Memory and stack words. -----

  function ExecLoad(m: Machine, i: Insn): Outcome {
    if !ValidMem(m, i.b) then Fault(BoundsFault, Unknown, "memory load", Some(BoundsReport(Unknown, i.b)))
    else WriteBack(m, i.a, m.mem[i.b], IntTag, None)
  }

  function ExecStore(m: Machine, i: Insn): Outcome {
    if !ValidMem(m, i.a) then Fault(BoundsFault, Unknown, "memory store", Some(BoundsReport(Unknown, i.a)))
    else if !InFile(i.b) then Undefined(RegisterIndex)
    else
      var segment := SegmentOf(m.layout, i.a);
      Commit(m.(mem := m.mem[i.a := m.regs[i.b]], pc := m.pc + 1), NO_WRITE,
             if segment == Unknown then None else Some(SegmentAccess(segment)))
  }

  function ExecPush(m: Machine, i: Insn): Outcome {
    if m.sp == 0 || m.sp - 1 < m.layout.stack.start then
      Fault(StackFault, Stack, "stack push", Some(BoundsReport(Stack, m.sp)))
    else if !InFile(i.a) then Undefined(RegisterIndex)
    else if m.sp - 1 >= |m.mem| then Undefined(MemoryIndex)
    else Commit(m.(sp := m.sp - 1, mem := m.mem[m.sp - 1 := m.regs[i.a]], pc := m.pc + 1), NO_WRITE, None)
  }

  function ExecPop(m: Machine, i: Insn): Outcome {
    if m.sp >= m.layout.stack.limit then
      Fault(StackFault, Stack, "stack pop", Some(BoundsReport(Stack, m.sp)))
    else if !InFile(i.a) then Undefined(RegisterIndex)
    else if m.sp >= |m.mem| then Undefined(MemoryIndex)
    else
      var v := m.mem[m.sp];
      Commit(SetReg(m, i.a, v, IntTag).(sp := m.sp + 1, flags := FlagsOf(v), pc := m.pc + 1), NO_WRITE, None)
  }

  function ExecMemory(m: Machine, i: Insn): Outcome
    requires FamilyOf(i.opcode) == Memory
  {
    match i.opcode
    case Load => ExecLoad(m, i)
    case Store => ExecStore(m, i)
    case Push => ExecPush(m, i)
    case Pop => ExecPop(m, i)
  }

  // ----- Control transfer. -----

  function Transfer(p: Image, m: Machine, target: int): Outcome {
    if target < 0 || target >= |p.insns| then PlainFault(DecodeFault)
    else Commit(m.(pc := target), NO_WRITE, None)
  }

  function Next(m: Machine): Outcome { Commit(m.(pc := m.pc + 1), NO_WRITE, None) }

  /** Whether a jump is taken. */
  predicate Taken(op: Opcode, f: Flags) {
    match op
    case JumpIfZero => f.zero
    case JumpIfNotZero => !f.zero
    case JumpIfNegative => f.negative
    case JumpIfPositive => f.positive
    case _ => true
  }

  function ExecJump(p: Image, m: Machine, i: Insn): Outcome {
    if Taken(i.opcode, m.flags) then Transfer(p, m, i.a) else Next(m)
  }

  function ExecCall(p: Image, m: Machine, i: Insn): Outcome {
    if !InFile(i.a) then Undefined(RegisterIndex)
    else Transfer(p, m.(calls := m.calls + [m.pc + 1]), m.regs[i.a])
  }

  function ExecRet(m: Machine): Outcome {
    if m.calls == [] then PlainFault(StackFault)
    else Commit(m.(pc := m.calls[|m.calls| - 1], calls := m.calls[..|m.calls| - 1]), NO_WRITE, None)
  }

  predicate IsJump(op: Opcode) {
    op.Jump? || op.JumpIfZero? || op.JumpIfNotZero? || op.JumpIfNegative? || op.JumpIfPositive?
  }

  function ExecControl(p: Image, m: Machine, i: Insn): Outcome
    requires FamilyOf(i.opcode) == Control
  {
    if IsJump(i.opcode) then ExecJump(p, m, i)
    else
      match i.opcode
      case Nop => Next(m)
      case Halt => Next(m.(halted := true))
      case Call => ExecCall(p, m, i)
      case Ret => ExecRet(m)
      case TrapOp => PlainFault(TrapInstruction)
  }

  // ----- Axion guards. -----

  predicate Denied(m: Machine) { m.policy.Some? && m.policy.value == 0 }

  function GuardSegment(m: Machine, addr: int): Segment {
    if addr >= 0 then SegmentOf(m.layout, addr) else Unknown
  }

  function ExecAxRead(m: Machine, i: Insn): Outcome {
    var segment := GuardSegment(m, i.b);
    var event := Some(Guard(segment, i.b, Denied(m), None));
    if Denied(m) then Fault(SecurityFault, segment, "axion deny read", event)
    else WriteBack(m, i.a, i.b, IntTag, event)
  }

  function ExecAxSet(m: Machine, i: Insn): Outcome {
    if !InFile(i.a) || !InFile(i.b) then Undefined(RegisterIndex)
    else
      var segment := GuardSegment(m, m.regs[i.a]);
      var event := Some(Guard(segment, m.regs[i.a], Denied(m), Some(m.regs[i.b])));
      if Denied(m) then Fault(SecurityFault, segment, "axion deny set", event)
      else Commit(m.(pc := m.pc + 1), NO_WRITE, event)
  }

  function ExecAxVerify(m: Machine, i: Insn): Outcome {
    var event := Some(Guard(Meta, m.pc, Denied(m), None));
    if Denied(m) then Fault(SecurityFault, Meta, "axion deny verify", event)
    else WriteBack(m, i.a, 0, IntTag, event)
  }

  function ExecAxion(m: Machine, i: Insn): Outcome
    requires FamilyOf(i.opcode) == Axion
  {
    match i.opcode
    case AxRead => ExecAxRead(m, i)
    case AxSet => ExecAxSet(m, i)
    case AxVerify => ExecAxVerify(m, i)
  }

  // ----- Tensors. -----

  /** The pool entry a one-based handle names: `tensor_ptr` and its four siblings. */
  function Entry<T>(pool: seq<T>, handle: int): Option<T> {
    if handle <= 0 || handle > |pool| then None else Some(pool[handle - 1])
  }

  function InternTensor(m: Machine, a: int, t: Option<TensorValue>): Outcome {
    match t
    case None => PlainFault(ShapeFault)
    case Some(v) => WriteBack(m.(tensors := m.tensors + [v]), a, |m.tensors| + 1, TensorHandle, None)
  }

  function BinaryTensorValue(op: Opcode, l: TensorValue, r: TensorValue): Option<TensorValue>
    requires FamilyOf(op) == BinaryTensor
  {
    match op
    case TVecAdd => VecOp(false, l, r)
    case TVecMul => VecOp(true, l, r)
    case TMatMul => MatMulOp(l, r)
    case TTenDot => DotOp(l, r)
  }

  function ExecBinaryTensor(m: Machine, i: Insn): Outcome
    requires FamilyOf(i.opcode) == BinaryTensor
  {
    if !InFile(i.b) then Undefined(RegisterIndex)
    else if m.tags[i.b] != TensorHandle then PlainFault(TypeFault)
    else if !InFile(i.c) then Undefined(RegisterIndex)
    else if m.tags[i.c] != TensorHandle then PlainFault(TypeFault)
    else
      match (Entry(m.tensors, m.regs[i.b]), Entry(m.tensors, m.regs[i.c]))
      case (Some(l), Some(r)) => InternTensor(m, i.a, BinaryTensorValue(i.opcode, l, r))
      case _ => PlainFault(DecodeFault)
  }

  function ExecUnaryTensor(p: Image, m: Machine, i: Insn): Outcome
    requires FamilyOf(i.opcode) == UnaryTensor
  {
    if !InFile(i.b) then Undefined(RegisterIndex)
    else if m.tags[i.b] != TensorHandle then PlainFault(TypeFault)
    else
      match Entry(m.tensors, m.regs[i.b])
      case None => PlainFault(DecodeFault)
      case Some(t) =>
        InternTensor(m, i.a, if i.opcode.TTranspose? then TransposeOp(t) else UnaryOp(i.opcode, p.fp, t))
  }

  function ExecShapeCheck(m: Machine, i: Insn): Outcome {
    if !InFile(i.b) then Undefined(RegisterIndex)
    else if m.tags[i.b] != TensorHandle then PlainFault(TypeFault)
    else if !InFile(i.c) then Undefined(RegisterIndex)
    else if m.tags[i.c] != ShapeHandle then PlainFault(TypeFault)
    else
      match (Entry(m.tensors, m.regs[i.b]), Entry(m.shapes, m.regs[i.c]))
      case (Some(t), Some(s)) => WriteBack(m, i.a, if t.shape == s then 1 else 0, IntTag, None)
      case _ => PlainFault(DecodeFault)
  }

  // ----- Option, result and enum values. -----

  function ExecMake(m: Machine, i: Insn): Outcome
    requires FamilyOf(i.opcode) == Make
  {
    if i.opcode.MakeOptionNone? then
      WriteBack(m.(options := m.options + [OptionValue(false, IntTag, 0)]), i.a, |m.options| + 1, OptionHandle, None)
    else if i.opcode.MakeEnumVariant? then
      WriteBack(m.(enums := m.enums + [EnumValue(i.b, false, IntTag, 0)]), i.a, |m.enums| + 1, EnumHandle, None)
    else if i.opcode.MakeEnumVariantPayload? && i.c < 0 then PlainFault(DecodeFault)
    else if !InFile(i.b) then Undefined(RegisterIndex)
    else
      var tag, payload := m.tags[i.b], m.regs[i.b];
      match i.opcode
      case MakeOptionSome =>
        WriteBack(m.(options := m.options + [OptionValue(true, tag, payload)]),
                  i.a, |m.options| + 1, OptionHandle, None)
      case MakeResultOk | MakeResultErr =>
        WriteBack(m.(results := m.results + [ResultValue(i.opcode.MakeResultOk?, tag, payload)]),
                  i.a, |m.results| + 1, ResultHandle, None)
      case MakeEnumVariantPayload =>
        WriteBack(m.(enums := m.enums + [EnumValue(i.c, true, tag, payload)]), i.a, |m.enums| + 1, EnumHandle, None)
  }

  /** The handle tag that a test or unwrap instruction demands of register b. */
  function HandleTag(op: Opcode): Tag {
    match op
    case OptionIsSome | OptionUnwrap => OptionHandle
    case ResultIsOk | ResultUnwrapOk | ResultUnwrapErr => ResultHandle
    case _ => EnumHandle
  }

  /** What a test or unwrap instruction finds under handle `h`: a value and its tag, or nothing. */
  function Inspected(m: Machine, i: Insn, h: int): Option<(int, Tag)>
    requires FamilyOf(i.opcode) == Inspect
  {
    match i.opcode
    case OptionIsSome =>
      (match Entry(m.options, h) case None => None case Some(o) => Some((if o.hasValue then 1 else 0, IntTag)))
    case OptionUnwrap =>
      (match Entry(m.options, h)
       case None => None
       case Some(o) => if !o.hasValue then None else Some((o.payload, o.payloadTag)))
    case ResultIsOk =>
      (match Entry(m.results, h) case None => None case Some(r) => Some((if r.isOk then 1 else 0, IntTag)))
    case ResultUnwrapOk =>
      (match Entry(m.results, h)
       case None => None
       case Some(r) => if !r.isOk then None else Some((r.payload, r.payloadTag)))
    case ResultUnwrapErr =>
      (match Entry(m.results, h)
       case None => None
       case Some(r) => if r.isOk then None else Some((r.payload, r.payloadTag)))
    case EnumIsVariant =>
      (match Entry(m.enums, h) case None => None case Some(e) => Some((if e.variantId == i.c then 1 else 0, IntTag)))
    case EnumUnwrapPayload =>
      (match Entry(m.enums, h)
       case None => None
       case Some(e) => if !e.hasPayload then None else Some((e.payload, e.payloadTag)))
  }

  function ExecInspect(m: Machine, i: Insn): Outcome
    requires FamilyOf(i.opcode) == Inspect
  {
    if !InFile(i.b) then Undefined(RegisterIndex)
    else if m.tags[i.b] != HandleTag(i.opcode) then PlainFault(TypeFault)
    else
      match Inspected(m, i, m.regs[i.b])
      case None => PlainFault(DecodeFault)
      case Some((v, tag)) => WriteBack(m, i.a, v, tag, None)
  }

  // ----- Stack frames and heap blocks. -----

  function Requested(i: Insn): nat { if i.b > 0 then i.b else 0 }

  function ExecStackAlloc(m: Machine, i: Insn): Outcome {
    if i.b <= 0 then Fault(StackFault, Stack, "invalid stack alloc size", None)
    else if i.b > m.sp || m.sp - i.b < m.layout.stack.start then
      Fault(StackFault, Stack, "stack frame allocate", Some(BoundsReport(Stack, i.b)))
    else if !InFile(i.a) then Undefined(RegisterIndex)
    else
      var sp := m.sp - i.b;
      Commit(SetReg(m, i.a, sp, IntTag).(sp := sp, stackFrames := m.stackFrames + [Block(sp, i.b)], pc := m.pc + 1),
             Recorded(i.a, sp, IntTag), Some(FrameChange))
  }

  function FreeFrame(m: Machine): Outcome
    requires m.stackFrames != []
  {
    var last := |m.stackFrames| - 1;
    Commit(m.(sp := m.sp + m.stackFrames[last].size, stackFrames := m.stackFrames[..last], pc := m.pc + 1),
           NO_WRITE, Some(FrameChange))
  }

  function ExecStackFree(m: Machine, i: Insn): Outcome {
    if m.stackFrames == [] then Fault(StackFault, Stack, "stack frame free empty", None)
    else if !InFile(i.a) then Undefined(RegisterIndex)
    else
      var top := m.stackFrames[|m.stackFrames| - 1];
      if ToSize(m.regs[i.a]) != top.base || Requested(i) != top.size then
        Fault(StackFault, Stack, "stack frame free mismatch", None)
      else FreeFrame(m)
  }

  function ExecHeapAlloc(m: Machine, i: Insn): Outcome {
    if i.b <= 0 then Fault(DecodeFault, Heap, "invalid heap alloc size", None)
    else if m.heapPtr + i.b > m.layout.heap.limit then
      Fault(BoundsFault, Heap, "heap block allocate", Some(BoundsReport(Heap, i.b)))
    else if !InFile(i.a) then Undefined(RegisterIndex)
    else
      var addr := m.heapPtr;
      Commit(SetReg(m, i.a, addr, IntTag).(heapPtr := addr + i.b, heapFrames := m.heapFrames + [Block(addr, i.b)],
                                           pc := m.pc + 1),
             Recorded(i.a, addr, IntTag), Some(FrameChange))
  }

  function FreeBlock(m: Machine): Outcome
    requires m.heapFrames != []
  {
    var last := |m.heapFrames| - 1;
    Commit(m.(heapPtr := m.heapFrames[last].base, heapFrames := m.heapFrames[..last], pc := m.pc + 1),
           NO_WRITE, Some(FrameChange))
  }

  function ExecHeapFree(m: Machine, i: Insn): Outcome {
    if m.heapFrames == [] then Fault(DecodeFault, Heap, "heap block free empty", None)
    else if !InFile(i.a) then Undefined(RegisterIndex)
    else
      var top := m.heapFrames[|m.heapFrames| - 1];
      if ToSize(m.regs[i.a]) != top.base || Requested(i) != top.size then
        Fault(DecodeFault, Heap, "heap block free mismatch", None)
      else FreeBlock(m)
  }

  function ExecFrames(m: Machine, i: Insn): Outcome
    requires FamilyOf(i.opcode) == Frames
  {
    match i.opcode
    case StackAlloc => ExecStackAlloc(m, i)
    case StackFree => ExecStackFree(m, i)
    case HeapAlloc => ExecHeapAlloc(m, i)
    case HeapFree => ExecHeapFree(m, i)
  }

  // ----- One step. -----

  function Exec(p: Image, m: Machine, i: Insn): Outcome {
    match FamilyOf(i.opcode)
    case Arithmetic => ExecArithmetic(m, i)
    case Comparison => ExecComparison(m, i)
    case TritLogic => ExecTritLogic(m, i)
    case Move => ExecMove(m, i)
    case Adjust => ExecAdjust(m, i)
    case Memory => ExecMemory(m, i)
    case Control => ExecControl(p, m, i)
    case Axion => ExecAxion(m, i)
    case BinaryTensor => ExecBinaryTensor(m, i)
    case UnaryTensor => ExecUnaryTensor(p, m, i)
    case ShapeCheck => ExecShapeCheck(m, i)
    case Make => ExecMake(m, i)
    case Inspect => ExecInspect(m, i)
    case Frames => ExecFrames(m, i)
    case Illegal => PlainFault(DecodeFault)
  }

  const GC_INTERVAL: nat := 64

  /** What happens before the switch: the write record is cleared and the step is counted. */
  function Fetched(c: Config): Config {
    c.(write := NO_WRITE, steps := c.steps + 1,
       gcCycles := if (c.steps + 1) % GC_INTERVAL == 0 then c.gcCycles + 1 else c.gcCycles)
  }

  function Logged(log: seq<AxionEvent>, op: Opcode, event: Option<EventKind>): seq<AxionEvent> {
    if event.None? then log else log + [AxionEvent(op, event.value)]
  }

  /** The payload of a trap: the operands are those of the instruction at `pc` when it is the faulting one. */
  function PayloadOf(p: Image, trap: Trap, op: Opcode, pc: nat, segment: Segment, detail: string): TrapPayload {
    if pc < |p.insns| && p.insns[pc].opcode == op then
      TrapPayload(trap, pc, op, p.insns[pc].a, p.insns[pc].b, p.insns[pc].c, segment, detail)
    else TrapPayload(trap, pc, op, 0, 0, 0, segment, detail)
  }

  /** `trap`: record the payload and a trace entry, and forget a pending preload trap. */
  function Raise(p: Image, c: Config, trap: Trap, op: Opcode, pc: nat, segment: Segment, detail: string): Config {
    c.(payload := Some(PayloadOf(p, trap, op, pc, segment, detail)),
       trace := c.trace + [TraceEntry(pc, op, c.write, Some(trap))],
       preload := None)
  }

  function CurrentOpcode(p: Image, pc: nat): Opcode {
    if pc < |p.insns| then p.insns[pc].opcode else Nop
  }

  /** The rest of a step once the switch has decided the outcome of instruction `i`; `c` is fetched. */
  function Finish(p: Image, c: Config, i: Insn, o: Outcome): StepResult
    requires !o.Undefined?
  {
    match o
    case Commit(m, w, e) =>
      StepResult(c.(m := m, write := w, log := Logged(c.log, i.opcode, e),
                    trace := c.trace + [TraceEntry(c.m.pc, i.opcode, w, None)],
                    payload := if m.halted then None else c.payload),
                 Done)
    case Fault(t, s, d, e) =>
      StepResult(Raise(p, c.(log := Logged(c.log, i.opcode, e)), t, i.opcode, c.m.pc, s, d), Trapped(t))
  }

  /** `step`. Where the source's behaviour is undefined the configuration is left as it is. */
  function Step(p: Image, c: Config): StepResult {
    if c.m.halted then StepResult(c, Done)
    else if c.preload.Some? then
      StepResult(Raise(p, c, c.preload.value, CurrentOpcode(p, c.m.pc), c.m.pc, Unknown, ""), Trapped(c.preload.value))
    else if c.m.pc >= |p.insns| then
      StepResult(Raise(p, c, DecodeFault, Nop, c.m.pc, Unknown, ""), Trapped(DecodeFault))
    else
      var i := p.insns[c.m.pc];
      var o := Exec(p, c.m, i);
      if o.Undefined? then StepResult(c, UndefinedBehaviour(o.hazard))
      else Finish(p, Fetched(c), i, o)
  }

  // ----- Runs. -----

  /** The configuration after `n` calls of `step`, whatever they return. */
  function Run(p: Image, c: Config, n: nat): Config {
    if n == 0 then c else Step(p, Run(p, c, n - 1)).c
  }

  /** What `run_to_halt` reports; the source returns `TrapInstruction` for `OutOfBudget`. */
  datatype RunStatus = Halted | Stopped(trap: Trap) | OutOfBudget | RanUndefined(hazard: Hazard)

  datatype RunResult = RunResult(c: Config, status: RunStatus)

  function RunToHalt(p: Image, c: Config, maxSteps: nat): RunResult
    decreases maxSteps
  {
    if maxSteps == 0 then RunResult(c, OutOfBudget)
    else
      var r := Step(p, c);
      match r.status
      case Trapped(t) => RunResult(r.c, Stopped(t))
      case UndefinedBehaviour(h) => RunResult(r.c, RanUndefined(h))
      case Done => if r.c.m.halted then RunResult(r.c, Halted) else RunToHalt(p, r.c, maxSteps - 1)
  }

  /** `RunToHalt` in terms of its first step. */
  lemma RunToHaltUnfolds(p: Image, c: Config, n: nat, r: StepResult)
    requires n > 0 && r == Step(p, c)
    ensures RunToHalt(p, c, n) == match r.status
      case Trapped(t) => RunResult(r.c, Stopped(t))
      case UndefinedBehaviour(h) => RunResult(r.c, RanUndefined(h))
      case Done => if r.c.m.halted then RunResult(r.c, Halted) else RunToHalt(p, r.c, n - 1)
  {
  }

  /** An instruction is about to be executed. */
  predicate Executing(p: Image, c: Config) {
    !c.m.halted && c.preload.None? && c.m.pc < |p.insns|
  }

  function Current(p: Image, c: Config): Insn
    requires Executing(p, c)
  {
    p.insns[c.m.pc]
  }
}
