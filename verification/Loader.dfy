/** The static validator and the program loader. */
module Loader {
  import opened Options
  import opened Isa
  import opened State

  predicate TargetOk(p: Image, a: int) { 0 <= a < |p.insns| }

  /** The operand test that validation makes for one instruction. */
  predicate InsnOk(p: Image, i: Insn) {
    match i.opcode
    case Unlisted(_) => false
    case LoadImm | Load => InFile(i.a)
    case Store => InFile(i.b)
    case Div | Mod | Add | Sub | Mul | FAdd | FSub | FMul | FDiv | FracAdd | FracSub | FracMul | FracDiv
       | Less | LessEqual | Greater | GreaterEqual | Equal | NotEqual | TAnd | TOr | TXor
       | TVecAdd | TMatMul | TTenDot | TVecMul | ChkShape => InFile(i.a) && InFile(i.b) && InFile(i.c)
    case MakeOptionSome | MakeResultOk | MakeResultErr | OptionIsSome | OptionUnwrap
       | ResultIsOk | ResultUnwrapOk | ResultUnwrapErr
       | MakeEnumVariantPayload | EnumIsVariant | EnumUnwrapPayload
       | TTranspose | TExp | TSqrt | TSiLU | TSoftmax | TRMSNorm | TRoPE | TNot
       | Cmp | Mov | AxSet | SetF => InFile(i.a) && InFile(i.b)
    case Inc | Dec | Push | Pop | Neg | Call | I2F | F2I | I2Frac | Frac2I
       | StackAlloc | StackFree | HeapAlloc | HeapFree
       | MakeOptionNone | MakeEnumVariant | AxRead | AxVerify | WeightsLoad => InFile(i.a)
    case Jump | JumpIfZero | JumpIfNotZero | JumpIfNegative | JumpIfPositive => TargetOk(p, i.a)
    case Nop | Halt | Ret | TrapOp => true
  }

  /** The scan of `validate_program` from instruction `from` on, stopping at the first bad one. */
  function ValidateFrom(p: Image, from: nat): (r: Option<Trap>)
    requires from <= |p.insns|
    ensures r.None? <==> forall k :: from <= k < |p.insns| ==> InsnOk(p, p.insns[k])
    ensures r.Some? ==> r.value == DecodeFault
    decreases |p.insns| - from
  {
    if from == |p.insns| then None
    else if !InsnOk(p, p.insns[from]) then Some(DecodeFault)
    else ValidateFrom(p, from + 1)
  }

  function Validate(p: Image): Option<Trap> { ValidateFrom(p, 0) }

  const STACK_SIZE: nat := 256
  const HEAP_SIZE: nat := 768
  const TENSOR_SIZE: nat := 256
  const META_SIZE: nat := 256

  /** The five segments laid end to end, the code segment first. */
  function LayoutFor(codeSize: nat): Layout {
    var code := Extent(0, codeSize);
    var stack := Extent(code.limit, code.limit + STACK_SIZE);
    var heap := Extent(stack.limit, stack.limit + HEAP_SIZE);
    var tensor := Extent(heap.limit, heap.limit + TENSOR_SIZE);
    Layout(code, stack, heap, tensor, Extent(tensor.limit, tensor.limit + META_SIZE))
  }

  function InitialMachine(p: Image): Machine {
    var l := LayoutFor(|p.insns|);
    Machine(0, false, ZERO_REGS, INT_TAGS, Flags(false, false, false),
            seq(l.TotalSize(), i => 0), l,
            l.stack.limit, l.heap.start, [], [],
            [], [], [], [], [], p.tier, [])
  }

  /** The image of an interpreter that no program has been loaded into. */
  function NoProgram(fp: (Opcode, seq<int>) -> seq<int>): Image { Image([], None, fp) }

  /** The configuration of such an interpreter: no memory, empty segments. */
  function Unloaded(p: Image): Config {
    var none := Extent(0, 0);
    Config(InitialMachine(p).(mem := [], layout := Layout(none, none, none, none, none), sp := 0, heapPtr := 0),
           [], [], None, 0, 0, None, NO_WRITE)
  }

  /** `load_program` on an interpreter whose last recorded register write is `stale`. */
  function LoadWith(p: Image, stale: Write): Config {
    Config(InitialMachine(p), [], [], None, 0, 0, Validate(p), stale)
  }

  /** `load_program` on a new interpreter. */
  function Fresh(p: Image): Config { LoadWith(p, NO_WRITE) }
}
