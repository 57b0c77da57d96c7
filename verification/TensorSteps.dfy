/** The tensor instructions as steps: what each adds to the pool, and when it is a shape fault. */
module TensorSteps {
  import opened Options
  import opened Isa
  import opened State
  import opened Semantics
  import opened Tensors
  import opened Effects
  import opened Handles
  import opened TensorAlgebra

  /** The tensor behind register `r`, if it holds a handle of one. */
  function TensorIn(m: Machine, r: int): Option<TensorValue> {
    if InFile(r) && m.tags[r] == TensorHandle && 1 <= m.regs[r] <= |m.tensors| then Some(m.tensors[m.regs[r] - 1])
    else None
  }

  predicate SameVectors(l: TensorValue, r: TensorValue) {
    |l.shape| == 1 && r.shape == l.shape && |r.data| == |l.data|
  }

  /** The shapes fit the operation. */
  predicate Conform(op: Opcode, l: TensorValue, r: TensorValue) {
    match op
    case TVecAdd | TVecMul => SameVectors(l, r)
    case TTenDot => |l.data| == |r.data|
    case TMatMul => MatMulOp(l, r).Some?
    case _ => false
  }

  /** Entry by entry what a binary operation makes of two tensors. */
  predicate Combines(op: Opcode, l: TensorValue, r: TensorValue, t: TensorValue)
    requires Conform(op, l, r)
  {
    match op
    case TVecAdd => SameVectors(l, t) && forall k :: 0 <= k < |l.data| ==> t.data[k] == l.data[k] + r.data[k]
    case TVecMul => SameVectors(l, t) && forall k :: 0 <= k < |l.data| ==> t.data[k] == l.data[k] * r.data[k]
    case TTenDot => DotOp(l, r) == Some(t)
    case TMatMul => MatMulOp(l, r) == Some(t)
  }

  /** A trap-free step that adds `t` to the pool and leaves its handle in register a. */
  predicate Interns(i: Insn, m: Machine, n: Machine, t: TensorValue) {
    n.tensors == m.tensors + [t]
    && InFile(i.a) && n.regs[i.a] == |n.tensors| && n.tags[i.a] == TensorHandle
  }

  lemma BinaryOutcome(m: Machine, i: Insn, l: TensorValue, r: TensorValue)
    requires FamilyOf(i.opcode) == BinaryTensor && InFile(i.a)
    requires TensorIn(m, i.b) == Some(l) && TensorIn(m, i.c) == Some(r)
    ensures var o := ExecBinaryTensor(m, i);
      if Conform(i.opcode, l, r) then
        && o.Commit? && |o.m.tensors| > 0
        && var t := o.m.tensors[|o.m.tensors| - 1];
           Interns(i, m, o.m, t) && Combines(i.opcode, l, r, t)
      else o == PlainFault(ShapeFault)
  {
    hide MatMulOp;
  }

  /** A tensor instruction with two sources adds their combination to the pool, or finds that the shapes do not fit. */
  lemma BinaryTensorStep(p: Image, c: Config, l: TensorValue, r: TensorValue)
    requires Executing(p, c) && FamilyOf(Current(p, c).opcode) == BinaryTensor && InFile(Current(p, c).a)
    requires TensorIn(c.m, Current(p, c).b) == Some(l) && TensorIn(c.m, Current(p, c).c) == Some(r)
    ensures var i := Current(p, c); var s := Step(p, c);
      if Conform(i.opcode, l, r) then
        && s.status.Done? && |s.c.m.tensors| > 0
        && var t := s.c.m.tensors[|s.c.m.tensors| - 1];
           Interns(i, c.m, s.c.m, t) && Combines(i.opcode, l, r, t)
      else s.status == Trapped(ShapeFault)
  {
    hide Exec, Orderly, Conform, Combines, ExecBinaryTensor, TensorIn;
    TensorExec(p, c.m, Current(p, c));
    BinaryOutcome(c.m, Current(p, c), l, r);
    StepStatus(p, c);
    StepMachine(p, c);
  }

  /** The shape fits the operation on one tensor. */
  predicate Suits(op: Opcode, t: TensorValue) {
    match op
    case TTranspose => TransposeOp(t).Some?
    case TRoPE => |t.data| % 2 == 0
    case TSoftmax | TRMSNorm => t.data != []
    case TExp | TSqrt | TSiLU => true
    case _ => false
  }

  /** What an operation makes of one tensor; TRoPE turns each pair (x, y) into (y, -x). */
  ghost predicate Transforms(op: Opcode, fp: (Opcode, seq<int>) -> seq<int>, s: TensorValue, t: TensorValue)
    requires Suits(op, s)
  {
    match op
    case TTranspose => TransposeOp(s) == Some(t)
    case TRoPE =>
      && t.shape == s.shape && |t.data| == |s.data|
      && forall k: nat :: 2 * k + 1 < |s.data| ==>
           t.data[2 * k] == s.data[2 * k + 1] && t.data[2 * k + 1] == -s.data[2 * k]
    case _ => t == TensorValue(s.shape, fp(op, s.data))
  }

  lemma RotatedPairs(d: seq<int>, k: nat)
    requires |d| % 2 == 0 && 2 * k + 1 < |d|
    ensures |RotateData(d)| == |d|
    ensures RotateData(d)[2 * k] == d[2 * k + 1] && RotateData(d)[2 * k + 1] == -d[2 * k]
  {
  }

  lemma UnaryOutcome(p: Image, m: Machine, i: Insn, s: TensorValue)
    requires FamilyOf(i.opcode) == UnaryTensor && InFile(i.a) && TensorIn(m, i.b) == Some(s)
    ensures var o := ExecUnaryTensor(p, m, i);
      if Suits(i.opcode, s) then
        && o.Commit? && |o.m.tensors| > 0
        && var t := o.m.tensors[|o.m.tensors| - 1];
           Interns(i, m, o.m, t) && Transforms(i.opcode, p.fp, s, t)
      else o == PlainFault(ShapeFault)
  {
    hide TransposeOp, RotateData;
    forall k: nat | 2 * k + 1 < |s.data| && |s.data| % 2 == 0
      ensures |RotateData(s.data)| == |s.data|
      ensures RotateData(s.data)[2 * k] == s.data[2 * k + 1] && RotateData(s.data)[2 * k + 1] == -s.data[2 * k]
    {
      RotatedPairs(s.data, k);
    }
    RotatedLength(s.data);
  }

  lemma RotatedLength(d: seq<int>)
    ensures |RotateData(d)| == |d|
  {
  }

  /** A tensor instruction with one source adds its transform to the pool, or finds that the shape does not suit it. */
  lemma UnaryTensorStep(p: Image, c: Config, s: TensorValue)
    requires Executing(p, c) && FamilyOf(Current(p, c).opcode) == UnaryTensor && InFile(Current(p, c).a)
    requires TensorIn(c.m, Current(p, c).b) == Some(s)
    ensures var i := Current(p, c); var r := Step(p, c);
      if Suits(i.opcode, s) then
        && r.status.Done? && |r.c.m.tensors| > 0
        && var t := r.c.m.tensors[|r.c.m.tensors| - 1];
           Interns(i, c.m, r.c.m, t) && Transforms(i.opcode, p.fp, s, t)
      else r.status == Trapped(ShapeFault)
  {
    hide Exec, Orderly, Suits, Transforms, ExecUnaryTensor, TensorIn;
    TensorExec(p, c.m, Current(p, c));
    UnaryOutcome(p, c.m, Current(p, c), s);
    StepStatus(p, c);
    StepMachine(p, c);
  }

  lemma ShapeCheckExec(p: Image, m: Machine, i: Insn)
    requires FamilyOf(i.opcode) == ShapeCheck
    ensures Exec(p, m, i) == ExecShapeCheck(m, i)
  {
  }

  lemma ShapeCheckOutcome(m: Machine, i: Insn, t: TensorValue)
    requires InFile(i.a) && InFile(i.c) && TensorIn(m, i.b) == Some(t)
    requires m.tags[i.c] == ShapeHandle && 1 <= m.regs[i.c] <= |m.shapes|
    ensures var o := ExecShapeCheck(m, i);
      o.Commit? && o.m.regs[i.a] == (if t.shape == m.shapes[m.regs[i.c] - 1] then 1 else 0)
  {
  }

  /** ChkShape says whether the tensor has the shape. */
  lemma ShapeCheckStep(p: Image, c: Config, t: TensorValue)
    requires Executing(p, c) && Current(p, c).opcode.ChkShape? && InFile(Current(p, c).a) && InFile(Current(p, c).c)
    requires TensorIn(c.m, Current(p, c).b) == Some(t)
    requires c.m.tags[Current(p, c).c] == ShapeHandle && 1 <= c.m.regs[Current(p, c).c] <= |c.m.shapes|
    ensures var i := Current(p, c); var r := Step(p, c);
      r.status.Done? && r.c.m.regs[i.a] == (if t.shape == c.m.shapes[c.m.regs[i.c] - 1] then 1 else 0)
  {
    hide Exec, Orderly, TensorIn, ExecShapeCheck;
    ShapeCheckExec(p, c.m, Current(p, c));
    ShapeCheckOutcome(c.m, Current(p, c), t);
    StepStatus(p, c);
    StepMachine(p, c);
  }
}
