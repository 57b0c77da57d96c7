/** What trap-free scalar instructions leave in register a, in plain arithmetic on the registers before the step. */
module Results {
  import opened Options
  import opened Isa
  import opened State
  import opened Semantics
  import opened Effects
  import opened ScalarLaws

  function Distance(x: int, y: int): nat { if x < y then y - x else x - y }

  /** `t` is the trit nearest to `v`. */
  predicate Nearest(v: int, t: int) {
    IsTrit(t) && Distance(v, t) <= Distance(v, -1) && Distance(v, t) <= Distance(v, 0)
    && Distance(v, t) <= Distance(v, 1)
  }

  /** `t` is the trit that the trits nearest to `x` and `y` differ by, up to a multiple of three. */
  ghost predicate IsDifference(x: int, y: int, t: int) {
    IsTrit(t) && forall s, u :: Nearest(x, s) && Nearest(y, u) ==> (s - u - t) % 3 == 0
  }

  /** What the arithmetic, comparison and trit instructions make of the registers b and c. */
  ghost predicate Computes(op: Opcode, x: int, y: int, v: int) {
    match op
    case Add | FAdd | FracAdd => v == x + y
    case Sub | FSub | FracSub => v == x - y
    case Mul | FMul | FracMul => v == x * y
    case Div | FDiv | FracDiv => exists r :: Fits(x, y, v, r)
    case Mod => exists q :: Fits(x, y, q, v)
    case Less => v == if x < y then 1 else 0
    case LessEqual => v == if x <= y then 1 else 0
    case Greater => v == if x > y then 1 else 0
    case GreaterEqual => v == if x >= y then 1 else 0
    case Equal => v == if x == y then 1 else 0
    case NotEqual => v == if x != y then 1 else 0
    case TAnd => Nearest(if x < y then x else y, v)
    case TOr => Nearest(if x < y then y else x, v)
    case TXor => IsDifference(x, y, v)
    case _ => false
  }

  /** What the moving instructions make of register b under its tag. */
  predicate Moves(op: Opcode, x: int, t: Tag, v: int, tag: Tag) {
    match op
    case Mov | I2F | F2I | I2Frac | Frac2I => v == x && tag == t
    case SetF => v == x && tag == IntTag
    case Neg => v + x == 0 && tag == IntTag
    case TNot => Nearest(x, -v) && tag == IntTag
    case _ => false
  }

  /** What the instructions without a source register write. */
  predicate Loads(i: Insn, pc: nat, v: int, tag: Tag) {
    match i.opcode
    case LoadImm | AxRead => v == i.b && tag == IntTag
    case AxVerify => v == 0 && tag == IntTag
    case WeightsLoad => v == (if i.b > 0 then i.b else 1000 + pc) && tag == WeightsTensorHandle
    case _ => false
  }

  predicate IsBinary(op: Opcode) { FamilyOf(op) in {Arithmetic, Comparison, TritLogic} }

  /** The four shapes of a scalar instruction, and what each leaves in register a. */
  ghost predicate Leaves(i: Insn, m: Machine, v: int, tag: Tag) {
    if IsBinary(i.opcode) then
      InFile(i.b) && InFile(i.c) && tag == IntTag && Computes(i.opcode, m.regs[i.b], m.regs[i.c], v)
    else if i.opcode.Inc? || i.opcode.Dec? then
      InFile(i.a) && tag == IntTag && v == if i.opcode.Inc? then m.regs[i.a] + 1 else m.regs[i.a] - 1
    else if i.opcode.LoadImm? || i.opcode.WeightsLoad? || FamilyOf(i.opcode) == Axion then Loads(i, m.pc, v, tag)
    else InFile(i.b) && Moves(i.opcode, m.regs[i.b], m.tags[i.b], v, tag)
  }

  /** Scalar instructions that write a register. */
  predicate IsScalar(op: Opcode) {
    IsBinary(op) || FamilyOf(op) == Move || op.Inc? || op.Dec? || op.AxRead? || op.AxVerify?
  }

  lemma ArithmeticLeaves(m: Machine, i: Insn)
    requires FamilyOf(i.opcode) == Arithmetic && ExecArithmetic(m, i).Commit?
    ensures InFile(i.a) && Leaves(i, m, ExecArithmetic(m, i).m.regs[i.a], ExecArithmetic(m, i).m.tags[i.a])
  {
    hide TruncDiv, TruncMod, Fits;
    var x, y := m.regs[i.b], m.regs[i.c];
    if IsDivision(i.opcode) { TruncationFits(x, y); }
  }

  lemma ComparisonLeaves(m: Machine, i: Insn)
    requires FamilyOf(i.opcode) == Comparison && ExecComparison(m, i).Commit?
    ensures InFile(i.a) && Leaves(i, m, ExecComparison(m, i).m.regs[i.a], ExecComparison(m, i).m.tags[i.a])
  {
  }

  lemma NearestIs(v: int, t: int)
    ensures Nearest(v, t) <==> t == ClampTrit(v)
  {
  }

  lemma TritLeaves(m: Machine, i: Insn)
    requires FamilyOf(i.opcode) == TritLogic && ExecTritLogic(m, i).Commit?
    ensures InFile(i.a) && Leaves(i, m, ExecTritLogic(m, i).m.regs[i.a], ExecTritLogic(m, i).m.tags[i.a])
  {
    hide Nearest;
    var x, y, v := m.regs[i.b], m.regs[i.c], ExecTritLogic(m, i).m.regs[i.a];
    NearestIs(if x < y then x else y, v);
    NearestIs(if x < y then y else x, v);
    forall s, u | Nearest(x, s) && Nearest(y, u)
      ensures i.opcode.TXor? ==> (s - u - v) % 3 == 0
    {
      NearestIs(x, s);
      NearestIs(y, u);
    }
  }

  lemma MoveLeaves(m: Machine, i: Insn)
    requires FamilyOf(i.opcode) == Move && ExecMove(m, i).Commit?
    ensures InFile(i.a) && Leaves(i, m, ExecMove(m, i).m.regs[i.a], ExecMove(m, i).m.tags[i.a])
  {
    hide Nearest;
    if InFile(i.b) { NearestIs(m.regs[i.b], ClampTrit(m.regs[i.b])); }
  }

  lemma AdjustLeaves(m: Machine, i: Insn)
    requires (i.opcode.Inc? || i.opcode.Dec?) && ExecAdjust(m, i).Commit?
    ensures InFile(i.a) && Leaves(i, m, ExecAdjust(m, i).m.regs[i.a], ExecAdjust(m, i).m.tags[i.a])
  {
  }

  lemma AxReadLeaves(m: Machine, i: Insn)
    requires ExecAxRead(m, i).Commit?
    ensures InFile(i.a) && ExecAxRead(m, i).m.regs[i.a] == i.b && ExecAxRead(m, i).m.tags[i.a] == IntTag
  {
  }

  lemma AxVerifyLeaves(m: Machine, i: Insn)
    requires ExecAxVerify(m, i).Commit?
    ensures InFile(i.a) && ExecAxVerify(m, i).m.regs[i.a] == 0 && ExecAxVerify(m, i).m.tags[i.a] == IntTag
  {
  }

  lemma AxionLeaves(m: Machine, i: Insn)
    requires (i.opcode.AxRead? || i.opcode.AxVerify?) && ExecAxion(m, i).Commit?
    ensures InFile(i.a) && Leaves(i, m, ExecAxion(m, i).m.regs[i.a], ExecAxion(m, i).m.tags[i.a])
  {
    hide ExecAxRead, ExecAxVerify, ExecAxSet, Computes, Moves;
    if i.opcode.AxRead? { AxReadLeaves(m, i); } else { AxVerifyLeaves(m, i); }
  }

  lemma ScalarExec(p: Image, m: Machine, i: Insn)
    ensures Exec(p, m, i) == match FamilyOf(i.opcode)
      case Arithmetic => ExecArithmetic(m, i)
      case Comparison => ExecComparison(m, i)
      case TritLogic => ExecTritLogic(m, i)
      case Move => ExecMove(m, i)
      case Adjust => ExecAdjust(m, i)
      case Axion => ExecAxion(m, i)
      case _ => Exec(p, m, i)
  {
  }

  /** Every trap-free scalar instruction leaves in register a what its name promises, under the tag it promises. */
  lemma ScalarResult(p: Image, c: Config)
    requires Executing(p, c) && Step(p, c).status.Done? && IsScalar(Current(p, c).opcode)
    ensures InFile(Current(p, c).a)
    ensures var n := Step(p, c).c.m; var a := Current(p, c).a;
      Leaves(Current(p, c), c.m, n.regs[a], n.tags[a])
  {
    hide Exec, Orderly, Leaves, ExecArithmetic, ExecComparison, ExecTritLogic, ExecMove, ExecAdjust, ExecAxion;
    StepMachine(p, c);
    var i := Current(p, c);
    ScalarExec(p, c.m, i);
    match FamilyOf(i.opcode) {
      case Arithmetic => ArithmeticLeaves(c.m, i);
      case Comparison => ComparisonLeaves(c.m, i);
      case TritLogic => TritLeaves(c.m, i);
      case Move => MoveLeaves(c.m, i);
      case Adjust => AdjustLeaves(c.m, i);
      case Axion => AxionLeaves(c.m, i);
    }
  }
}
