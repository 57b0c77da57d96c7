/** The virtual machine's state records. */
module State {
  import opened Options
  import opened Isa

  datatype Tag =
    | IntTag | TensorHandle | ShapeHandle | WeightsTensorHandle
    | OptionHandle | ResultHandle | EnumHandle

  datatype Flags = Flags(zero: bool, negative: bool, positive: bool)

  datatype Segment = Unknown | Code | Stack | Heap | TensorArea | Meta

  /** A half-open address range. */
  datatype Extent = Extent(start: nat, limit: nat) {
    predicate IsValid() { limit > start }
    predicate Contains(addr: nat) { IsValid() && start <= addr < limit }
  }

  datatype Layout = Layout(code: Extent, stack: Extent, heap: Extent, tensor: Extent, meta: Extent) {
    function TotalSize(): nat { meta.limit }
  }

  /** A stack frame or heap block: first address and size. */
  datatype Block = Block(base: nat, size: nat)

  datatype OptionValue = OptionValue(hasValue: bool, payloadTag: Tag, payload: int)
  datatype ResultValue = ResultValue(isOk: bool, payloadTag: Tag, payload: int)
  datatype EnumValue = EnumValue(variantId: int, hasPayload: bool, payloadTag: Tag, payload: int)
  datatype TensorValue = TensorValue(shape: seq<int>, data: seq<int>)

  type RegFile = s: seq<int> | |s| == REGISTER_COUNT witness seq(REGISTER_COUNT, i => 0)
  type TagFile = s: seq<Tag> | |s| == REGISTER_COUNT witness seq(REGISTER_COUNT, i => IntTag)

  const ZERO_REGS: RegFile := seq(REGISTER_COUNT, i => 0)
  const INT_TAGS: TagFile := seq(REGISTER_COUNT, i => IntTag)

  /** What an instruction computes on: the part of the state a trap leaves alone. */
  datatype Machine = Machine(
    pc: nat, halted: bool,
    regs: RegFile, tags: TagFile, flags: Flags,
    mem: seq<int>, layout: Layout,
    sp: nat, heapPtr: nat, stackFrames: seq<Block>, heapFrames: seq<Block>,
    options: seq<OptionValue>, results: seq<ResultValue>, enums: seq<EnumValue>,
    tensors: seq<TensorValue>, shapes: seq<seq<int>>,
    policy: Option<int>, calls: seq<nat>)

  /** The register write of the instruction in progress: three optionals in the source. */
  datatype Write = Write(reg: Option<nat>, value: Option<int>, tag: Option<Tag>)

  const NO_WRITE := Write(None, None, None)

  datatype TraceEntry = TraceEntry(pc: nat, opcode: Opcode, write: Write, trap: Option<Trap>)

  /** What an event of the Axion log reports; the wording of its reason string is not kept. */
  datatype EventKind =
    | SegmentAccess(segment: Segment)
    | BoundsReport(segment: Segment, addr: int)
    | Guard(segment: Segment, addr: int, denied: bool, value: Option<int>)
    | FrameChange
    | WeightsLoaded

  datatype AxionEvent = AxionEvent(opcode: Opcode, kind: EventKind)

  datatype TrapPayload = TrapPayload(
    trap: Trap, pc: nat, opcode: Opcode, a: int, b: int, c: int, segment: Segment, detail: string)

  /** The whole interpreter state: the machine, what it reports, and its private bookkeeping. */
  datatype Config = Config(
    m: Machine,
    trace: seq<TraceEntry>, log: seq<AxionEvent>, payload: Option<TrapPayload>, gcCycles: nat,
    steps: nat, preload: Option<Trap>, write: Write)

  function SegmentOf(l: Layout, addr: nat): Segment {
    if l.code.Contains(addr) then Code
    else if l.stack.Contains(addr) then Stack
    else if l.heap.Contains(addr) then Heap
    else if l.tensor.Contains(addr) then TensorArea
    else if l.meta.Contains(addr) then Meta
    else Unknown
  }

  predicate ValidMem(m: Machine, idx: int) {
    0 <= idx < |m.mem| && SegmentOf(m.layout, idx) != Unknown
  }
}
