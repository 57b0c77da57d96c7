/** Optional values, as `std::optional`. */
module Options {
  datatype Option<+T> = None | Some(value: T)
}

/** The instruction set: opcodes, instructions, programs and trap codes. */
module Isa {
  import opened Options

  /** `Unlisted` stands for an opcode byte outside the enumeration (81..255). */
  datatype Opcode =
    | Nop | Halt | LoadImm | Load | Store
    | Add | Sub | Mul | Div | Mod
    | Jump | JumpIfZero
    | Mov | Inc | Dec | Cmp | Push | Pop
    | JumpIfNotZero | Call | Ret | TrapOp | Neg | JumpIfNegative | JumpIfPositive
    | I2F | F2I | I2Frac | Frac2I
    | FAdd | FSub | FMul | FDiv | FracAdd | FracSub | FracMul | FracDiv
    | Less | LessEqual | Greater | GreaterEqual | Equal | NotEqual
    | StackAlloc | StackFree | HeapAlloc | HeapFree
    | TNot | TAnd | TOr | TXor
    | AxRead | AxSet | AxVerify
    | TVecAdd | TMatMul | TTenDot | TVecMul | TTranspose
    | TExp | TSqrt | TSiLU | TSoftmax | TRMSNorm | TRoPE
    | ChkShape | WeightsLoad | SetF
    | MakeOptionSome | MakeOptionNone | MakeResultOk | MakeResultErr
    | OptionIsSome | OptionUnwrap | ResultIsOk | ResultUnwrapOk | ResultUnwrapErr
    | MakeEnumVariant | MakeEnumVariantPayload | EnumIsVariant | EnumUnwrapPayload
    | Unlisted(code: nat)

  /** An opcode that fits its byte. */
  predicate OpcodeByte(op: Opcode) { op.Unlisted? ==> 81 <= op.code < 256 }

  datatype Insn = Insn(opcode: Opcode, a: int, b: int, c: int)

  /** Trap codes; `NoTrap` is the enumerator `None`, which no execution raises. */
  datatype Trap =
    | NoTrap | DecodeFault | TypeFault | BoundsFault | StackFault
    | DivisionFault | SecurityFault | ShapeFault | TrapInstruction

  /**
   What the interpreter is loaded with: the instructions, the policy tier found in the policy text
   (if any), and the host's floating-point unit, which the five `double` tensor kernels call.
   */
  datatype Image = Image(insns: seq<Insn>, tier: Option<int>, fp: (Opcode, seq<int>) -> seq<int>)

  const REGISTER_COUNT: nat := 243

  /** An operand that names a register of the file. */
  predicate InFile(i: int) { 0 <= i < REGISTER_COUNT }

  const INT64_MAX: int := 0x7FFF_FFFF_FFFF_FFFF
  const INT64_MIN: int := -0x8000_0000_0000_0000

  /** A value of a signed 64-bit variable. */
  predicate Signed64(v: int) { INT64_MIN <= v <= INT64_MAX }

  /** Conversion of a signed 64-bit value to `std::size_t`. */
  function ToSize(x: int): nat { x % 0x1_0000_0000_0000_0000 }

  /** Conversion of a `std::size_t` back to a signed 64-bit value. */
  function ToSigned(x: nat): int {
    if x < 0x8000_0000_0000_0000 then x else x - 0x1_0000_0000_0000_0000
  }

  /** The instruction families into which the interpreter's switch falls. */
  datatype Family =
    | Arithmetic | Comparison | TritLogic | Move | Adjust
    | Memory | Control | Axion | BinaryTensor | UnaryTensor | ShapeCheck | Make | Inspect | Frames | Illegal

  function FamilyOf(op: Opcode): Family {
    match op
    case Add | Sub | Mul | Div | Mod
       | FAdd | FSub | FMul | FDiv | FracAdd | FracSub | FracMul | FracDiv => Arithmetic
    case Less | LessEqual | Greater | GreaterEqual | Equal | NotEqual => Comparison
    case TAnd | TOr | TXor => TritLogic
    case LoadImm | Mov | Neg | TNot | I2F | F2I | I2Frac | Frac2I | SetF | WeightsLoad => Move
    case Inc | Dec | Cmp => Adjust
    case Load | Store | Push | Pop => Memory
    case Nop | Halt | Jump | JumpIfZero | JumpIfNotZero | JumpIfNegative | JumpIfPositive
       | Call | Ret | TrapOp => Control
    case AxRead | AxSet | AxVerify => Axion
    case TVecAdd | TVecMul | TMatMul | TTenDot => BinaryTensor
    case TTranspose | TExp | TSqrt | TSiLU | TSoftmax | TRMSNorm | TRoPE => UnaryTensor
    case ChkShape => ShapeCheck
    case MakeOptionSome | MakeOptionNone | MakeResultOk | MakeResultErr
       | MakeEnumVariant | MakeEnumVariantPayload => Make
    case OptionIsSome | OptionUnwrap | ResultIsOk | ResultUnwrapOk | ResultUnwrapErr
       | EnumIsVariant | EnumUnwrapPayload => Inspect
    case StackAlloc | StackFree | HeapAlloc | HeapFree => Frames
    case Unlisted(_) => Illegal
  }
}
