/** The state hash as an encoding: the words fed to it determine the state they come from. */
module StateHashing {
  import opened Options
  import opened Isa
  import opened State
  import opened Loader
  import opened Semantics
  import opened Effects
  import opened Histories
  import opened Overflow
  import opened Runs
  import opened Safety
  import opened TraceReplay
  import opened HashLoop

  // ----- The words of a state. -----

  function OpcodeNumber(op: Opcode): nat {
    match op
    case Nop => 0 case Halt => 1 case LoadImm => 2 case Load => 3 case Store => 4 case Add => 5 case Sub => 6
    case Mul => 7 case Div => 8 case Mod => 9 case Jump => 10 case JumpIfZero => 11 case Mov => 12
    case Inc => 13 case Dec => 14 case Cmp => 15 case Push => 16 case Pop => 17 case JumpIfNotZero => 18
    case Call => 19 case Ret => 20 case TrapOp => 21 case Neg => 22 case JumpIfNegative => 23
    case JumpIfPositive => 24 case I2F => 25 case F2I => 26 case I2Frac => 27 case Frac2I => 28 case FAdd => 29
    case FSub => 30 case FMul => 31 case FDiv => 32 case FracAdd => 33 case FracSub => 34 case FracMul => 35
    case FracDiv => 36 case Less => 37 case LessEqual => 38 case Greater => 39 case GreaterEqual => 40
    case Equal => 41 case NotEqual => 42 case StackAlloc => 43 case StackFree => 44 case HeapAlloc => 45
    case HeapFree => 46 case TNot => 47 case TAnd => 48 case TOr => 49 case TXor => 50 case AxRead => 51
    case AxSet => 52 case AxVerify => 53 case TVecAdd => 54 case TMatMul => 55 case TTenDot => 56
    case TVecMul => 57 case TTranspose => 58 case TExp => 59 case TSqrt => 60 case TSiLU => 61
    case TSoftmax => 62 case TRMSNorm => 63 case TRoPE => 64 case ChkShape => 65 case WeightsLoad => 66
    case SetF => 67 case MakeOptionSome => 68 case MakeOptionNone => 69 case MakeResultOk => 70
    case MakeResultErr => 71 case OptionIsSome => 72 case OptionUnwrap => 73 case ResultIsOk => 74
    case ResultUnwrapOk => 75 case ResultUnwrapErr => 76 case MakeEnumVariant => 77
    case MakeEnumVariantPayload => 78 case EnumIsVariant => 79 case EnumUnwrapPayload => 80
    case Unlisted(code) => code
  }

  function TrapNumber(t: Trap): nat {
    match t
    case NoTrap => 0 case DecodeFault => 1 case TypeFault => 2 case BoundsFault => 3 case StackFault => 4
    case DivisionFault => 5 case SecurityFault => 6 case ShapeFault => 7 case TrapInstruction => 8
  }

  function TagNumber(t: Tag): nat {
    match t
    case IntTag => 0 case TensorHandle => 1 case ShapeHandle => 2 case WeightsTensorHandle => 3
    case OptionHandle => 4 case ResultHandle => 5 case EnumHandle => 6
  }

  function SegmentNumber(s: Segment): nat {
    match s
    case Unknown => 0 case Code => 1 case Stack => 2 case Heap => 3 case TensorArea => 4 case Meta => 5
  }

  function Flag(b: bool): nat { if b then 1 else 0 }

  /** Signed values, converted to unsigned words. */
  function SizesOf(vs: seq<int>): seq<nat> { seq(|vs|, k requires 0 <= k < |vs| => ToSize(vs[k])) }

  /** Six words per trace entry; zero stands for an absent register, tag or trap. */
  function EntryWords(e: TraceEntry): seq<nat> {
    [ToSize(e.pc), OpcodeNumber(e.opcode),
     if e.write.reg.Some? then ToSize(e.write.reg.value + 1) else 0,
     if e.write.value.Some? then ToSize(e.write.value.value) else 0,
     if e.write.tag.Some? then TagNumber(e.write.tag.value) + 1 else 0,
     if e.trap.Some? then TrapNumber(e.trap.value) else 0]
  }

  function TraceWords(trace: seq<TraceEntry>): seq<nat> {
    if trace == [] then [] else TraceWords(trace[..|trace| - 1]) + EntryWords(trace[|trace| - 1])
  }

  function CharWords(s: string): seq<nat> { seq(|s|, k requires 0 <= k < |s| => s[k] as nat) }

  function FieldWords(p: TrapPayload): seq<nat> {
    [1, TrapNumber(p.trap), ToSize(p.pc), OpcodeNumber(p.opcode), ToSize(p.a), ToSize(p.b), ToSize(p.c),
     SegmentNumber(p.segment), ToSize(|p.detail|)]
  }

  function PayloadWords(o: Option<TrapPayload>): seq<nat> {
    if o.Some? then FieldWords(o.value) + CharWords(o.value.detail) else [0]
  }

  function PolicyWords(tier: Option<int>): seq<nat> {
    if tier.Some? then [1, ToSize(tier.value)] else [0]
  }

  /** Everything `state_hash` feeds to the hash, in order. */
  function Words(c: Config): seq<nat> {
    [ToSize(c.m.pc), Flag(c.m.halted), ToSize(c.gcCycles)] + SizesOf(c.m.regs) + SizesOf(c.m.mem)
    + [ToSize(|c.trace|)] + TraceWords(c.trace) + PayloadWords(c.payload) + PolicyWords(c.m.policy)
  }

  /** The word-by-word hash. */
  function HashWords(h: nat, ws: seq<nat>): nat {
    if ws == [] then h else MixWord(HashWords(h, ws[..|ws| - 1]), ws[|ws| - 1])
  }

  // ----- The loops of `state_hash`. -----

  lemma {:induction false} HashWordsAppends(h: nat, xs: seq<nat>, ys: seq<nat>)
    ensures HashWords(h, xs + ys) == HashWords(HashWords(h, xs), ys)
  {
    hide MixWord;
    if ys == [] {
      assert xs + ys == xs;
    } else {
      HashWordsAppends(h, xs, ys[..|ys| - 1]);
      assert (xs + ys)[..|xs + ys| - 1] == xs + ys[..|ys| - 1];
    }
  }

  lemma HashOneWord(h: nat, ws: seq<nat>, w: nat)
    ensures HashWords(h, ws + [w]) == MixWord(HashWords(h, ws), w)
  {
    hide MixWord;
    assert (ws + [w])[..|ws|] == ws;
  }

  method MixList(ws: seq<nat>, h: nat) returns (r: nat)
    ensures r == HashWords(h, ws)
  {
    hide MixWord;
    r := h;
    for k := 0 to |ws|
      invariant r == HashWords(h, ws[..k])
    {
      r := MixU64(ws[k], r);
      assert ws[..k + 1][..k] == ws[..k];
    }
    assert ws[..|ws|] == ws;
  }

  method MixValues(vs: seq<int>, h: nat) returns (r: nat)
    ensures r == HashWords(h, SizesOf(vs))
  {
    hide MixWord, ToSize;
    r := h;
    for k := 0 to |vs|
      invariant r == HashWords(h, SizesOf(vs[..k]))
    {
      r := MixU64(ToSize(vs[k]), r);
      HashOneWord(h, SizesOf(vs[..k]), ToSize(vs[k]));
      assert SizesOf(vs[..k + 1]) == SizesOf(vs[..k]) + [ToSize(vs[k])];
    }
    assert vs[..|vs|] == vs;
  }

  method MixTrace(trace: seq<TraceEntry>, h: nat) returns (r: nat)
    ensures r == HashWords(h, TraceWords(trace))
  {
    hide MixWord, EntryWords;
    r := h;
    for k := 0 to |trace|
      invariant r == HashWords(h, TraceWords(trace[..k]))
    {
      r := MixList(EntryWords(trace[k]), r);
      HashWordsAppends(h, TraceWords(trace[..k]), EntryWords(trace[k]));
      assert trace[..k + 1][..k] == trace[..k];
    }
    assert trace[..|trace|] == trace;
  }

  function HeadWords(c: Config): seq<nat> { [ToSize(c.m.pc), Flag(c.m.halted), ToSize(c.gcCycles)] }

  /** `state_hash`: the words of the state, fed to the hash one after the other. */
  method StateHash(c: Config) returns (h: nat)
    ensures h == HashWords(OFFSET_BASIS, Words(c))
  {
    hide MixWord, ToSize, TraceWords, PayloadWords, PolicyWords, SizesOf, HashWords;
    ghost var fed := HeadWords(c);
    h := MixList([ToSize(c.m.pc), Flag(c.m.halted), ToSize(c.gcCycles)], OFFSET_BASIS);
    h := MixValues(c.m.regs, h);
    HashWordsAppends(OFFSET_BASIS, fed, SizesOf(c.m.regs));
    fed := fed + SizesOf(c.m.regs);
    h := MixValues(c.m.mem, h);
    HashWordsAppends(OFFSET_BASIS, fed, SizesOf(c.m.mem));
    fed := fed + SizesOf(c.m.mem);
    h := MixU64(ToSize(|c.trace|), h);
    HashOneWord(OFFSET_BASIS, fed, ToSize(|c.trace|));
    fed := fed + [ToSize(|c.trace|)];
    h := MixTrace(c.trace, h);
    HashWordsAppends(OFFSET_BASIS, fed, TraceWords(c.trace));
    fed := fed + TraceWords(c.trace);
    h := MixList(PayloadWords(c.payload), h);
    HashWordsAppends(OFFSET_BASIS, fed, PayloadWords(c.payload));
    fed := fed + PayloadWords(c.payload);
    h := MixList(PolicyWords(c.m.policy), h);
    HashWordsAppends(OFFSET_BASIS, fed, PolicyWords(c.m.policy));
  }

  // ----- The words determine the state. -----

  /** The part of the state that the hash sees. */
  datatype Observed = Observed(
    pc: nat, halted: bool, gcCycles: nat, regs: RegFile, mem: seq<int>,
    trace: seq<TraceEntry>, payload: Option<TrapPayload>, policy: Option<int>)

  function Observe(c: Config): Observed {
    Observed(c.m.pc, c.m.halted, c.gcCycles, c.m.regs, c.m.mem, c.trace, c.payload, c.m.policy)
  }

  predicate EntryInRange(e: TraceEntry) {
    && e.pc < WORD && OpcodeByte(e.opcode)
    && (e.write.value.Some? ==> Signed64(e.write.value.value))
  }

  predicate PayloadInRange(p: TrapPayload) {
    && p.pc < WORD && OpcodeByte(p.opcode) && Signed64(p.a) && Signed64(p.b) && Signed64(p.c)
    && |p.detail| < WORD && forall k :: 0 <= k < |p.detail| ==> p.detail[k] as nat < 256
  }

  /** Every field holds a value of its C++ type. */
  predicate InRange(c: Config) {
    && c.m.pc < WORD && c.gcCycles < WORD && |c.trace| < WORD
    && (forall k :: 0 <= k < REGISTER_COUNT ==> Signed64(c.m.regs[k]))
    && (forall k :: 0 <= k < |c.m.mem| ==> Signed64(c.m.mem[k]))
    && (forall k :: 0 <= k < |c.trace| ==> EntryInRange(c.trace[k]))
    && (c.payload.Some? ==> PayloadInRange(c.payload.value))
    && (c.m.policy.Some? ==> Signed64(c.m.policy.value))
  }

  /** An entry as the interpreter makes them: its write is whole or absent, its trap is a real one. */
  predicate EntryMade(e: TraceEntry) { Coupled(e.write) && e.trap != Some(NoTrap) }

  predicate TraceMade(trace: seq<TraceEntry>) { forall k :: 0 <= k < |trace| ==> EntryMade(trace[k]) }

  /** The opcode with a given number. */
  function OpcodeAt(n: nat): Opcode {
    match n
    case 0 => Nop case 1 => Halt case 2 => LoadImm case 3 => Load case 4 => Store case 5 => Add case 6 => Sub
    case 7 => Mul case 8 => Div case 9 => Mod case 10 => Jump case 11 => JumpIfZero case 12 => Mov
    case 13 => Inc case 14 => Dec case 15 => Cmp case 16 => Push case 17 => Pop case 18 => JumpIfNotZero
    case 19 => Call case 20 => Ret case 21 => TrapOp case 22 => Neg case 23 => JumpIfNegative
    case 24 => JumpIfPositive case 25 => I2F case 26 => F2I case 27 => I2Frac case 28 => Frac2I case 29 => FAdd
    case 30 => FSub case 31 => FMul case 32 => FDiv case 33 => FracAdd case 34 => FracSub case 35 => FracMul
    case 36 => FracDiv case 37 => Less case 38 => LessEqual case 39 => Greater case 40 => GreaterEqual
    case 41 => Equal case 42 => NotEqual case 43 => StackAlloc case 44 => StackFree case 45 => HeapAlloc
    case 46 => HeapFree case 47 => TNot case 48 => TAnd case 49 => TOr case 50 => TXor case 51 => AxRead
    case 52 => AxSet case 53 => AxVerify case 54 => TVecAdd case 55 => TMatMul case 56 => TTenDot
    case 57 => TVecMul case 58 => TTranspose case 59 => TExp case 60 => TSqrt case 61 => TSiLU
    case 62 => TSoftmax case 63 => TRMSNorm case 64 => TRoPE case 65 => ChkShape case 66 => WeightsLoad
    case 67 => SetF case 68 => MakeOptionSome case 69 => MakeOptionNone case 70 => MakeResultOk
    case 71 => MakeResultErr case 72 => OptionIsSome case 73 => OptionUnwrap case 74 => ResultIsOk
    case 75 => ResultUnwrapOk case 76 => ResultUnwrapErr case 77 => MakeEnumVariant
    case 78 => MakeEnumVariantPayload case 79 => EnumIsVariant case 80 => EnumUnwrapPayload
    case _ => Unlisted(n)
  }

  predicate Decodes(op: Opcode) { OpcodeAt(OpcodeNumber(op)) == op }

  lemma FirstNumbersDecode(op: Opcode)
    requires OpcodeByte(op) && OpcodeNumber(op) < 14
    ensures Decodes(op)
  {
  }

  lemma SecondNumbersDecode(op: Opcode)
    requires OpcodeByte(op) && 14 <= OpcodeNumber(op) < 28
    ensures Decodes(op)
  {
  }

  lemma ThirdNumbersDecode(op: Opcode)
    requires OpcodeByte(op) && 28 <= OpcodeNumber(op) < 42
    ensures Decodes(op)
  {
  }

  lemma FourthNumbersDecode(op: Opcode)
    requires OpcodeByte(op) && 42 <= OpcodeNumber(op) < 56
    ensures Decodes(op)
  {
  }

  lemma FifthNumbersDecode(op: Opcode)
    requires OpcodeByte(op) && 56 <= OpcodeNumber(op) < 70
    ensures Decodes(op)
  {
  }

  lemma LastNumbersDecode(op: Opcode)
    requires OpcodeByte(op) && 70 <= OpcodeNumber(op)
    ensures Decodes(op)
  {
  }

  lemma NumberDecodes(op: Opcode)
    requires OpcodeByte(op)
    ensures Decodes(op)
  {
    hide OpcodeNumber, Decodes;
    var n := OpcodeNumber(op);
    if n < 14 { FirstNumbersDecode(op); }
    else if n < 28 { SecondNumbersDecode(op); }
    else if n < 42 { ThirdNumbersDecode(op); }
    else if n < 56 { FourthNumbersDecode(op); }
    else if n < 70 { FifthNumbersDecode(op); }
    else { LastNumbersDecode(op); }
  }

  lemma OpcodeFromNumber(x: Opcode, y: Opcode)
    requires OpcodeByte(x) && OpcodeByte(y) && OpcodeNumber(x) == OpcodeNumber(y)
    ensures x == y
  {
    hide OpcodeNumber, OpcodeAt;
    NumberDecodes(x);
    NumberDecodes(y);
  }

  lemma SignedFromWord(x: int, y: int)
    requires Signed64(x) && Signed64(y) && ToSize(x) == ToSize(y)
    ensures x == y
  {
  }

  lemma {:induction false} ValuesFromWords(xs: seq<int>, ys: seq<int>)
    requires |xs| == |ys| && SizesOf(xs) == SizesOf(ys)
    requires forall k :: 0 <= k < |xs| ==> Signed64(xs[k]) && Signed64(ys[k])
    ensures xs == ys
  {
    hide ToSize, Signed64;
    forall k | 0 <= k < |xs|
      ensures xs[k] == ys[k]
    {
      assert SizesOf(xs)[k] == SizesOf(ys)[k];
      SignedFromWord(xs[k], ys[k]);
    }
  }

  lemma EntryFromWords(x: TraceEntry, y: TraceEntry)
    requires EntryInRange(x) && EntryInRange(y) && EntryMade(x) && EntryMade(y) && EntryWords(x) == EntryWords(y)
    ensures x == y
  {
    hide OpcodeNumber;
    var u, v := EntryWords(x), EntryWords(y);
    assert u[0] == v[0] && u[1] == v[1] && u[2] == v[2] && u[3] == v[3] && u[4] == v[4] && u[5] == v[5];
    OpcodeFromNumber(x.opcode, y.opcode);
    assert x.write.reg == y.write.reg;
    assert x.write.value == y.write.value;
    assert x.write.tag == y.write.tag;
    assert x.trap == y.trap;
  }

  lemma {:induction false} TraceWordsLength(trace: seq<TraceEntry>)
    ensures |TraceWords(trace)| == 6 * |trace|
  {
    if trace == [] {
    } else {
      TraceWordsLength(trace[..|trace| - 1]);
    }
  }

  /** Two ways of cutting a list at the same place give the same parts. */
  lemma CutAt(a: seq<nat>, b: seq<nat>, c: seq<nat>, d: seq<nat>)
    requires a + b == c + d && |a| == |c|
    ensures a == c && b == d
  {
    assert a == (a + b)[..|a|] && b == (a + b)[|a|..];
    assert c == (c + d)[..|c|] && d == (c + d)[|c|..];
  }

  lemma {:induction false} TraceFromWords(x: seq<TraceEntry>, y: seq<TraceEntry>)
    requires |x| == |y| && TraceWords(x) == TraceWords(y) && TraceMade(x) && TraceMade(y)
    requires forall k :: 0 <= k < |x| ==> EntryInRange(x[k]) && EntryInRange(y[k])
    ensures x == y
  {
    hide EntryInRange, EntryWords, EntryMade;
    if x == [] {
    } else {
      var n := |x| - 1;
      TraceWordsLength(x[..n]);
      TraceWordsLength(y[..n]);
      CutAt(TraceWords(x[..n]), EntryWords(x[n]), TraceWords(y[..n]), EntryWords(y[n]));
      TraceFromWords(x[..n], y[..n]);
      EntryFromWords(x[n], y[n]);
      assert x == x[..n] + [x[n]] && y == y[..n] + [y[n]];
    }
  }

  lemma FieldsFromWords(p: TrapPayload, q: TrapPayload)
    requires PayloadInRange(p) && PayloadInRange(q) && FieldWords(p) == FieldWords(q)
    ensures p == q.(detail := p.detail) && |p.detail| == |q.detail|
  {
    hide OpcodeNumber;
    var u, v := FieldWords(p), FieldWords(q);
    assert u[1] == v[1] && u[2] == v[2] && u[3] == v[3] && u[4] == v[4];
    assert u[5] == v[5] && u[6] == v[6] && u[7] == v[7] && u[8] == v[8];
    OpcodeFromNumber(p.opcode, q.opcode);
  }

  lemma DetailFromWords(x: string, y: string)
    requires CharWords(x) == CharWords(y)
    ensures x == y
  {
    assert |x| == |CharWords(x)| == |CharWords(y)| == |y|;
    forall k | 0 <= k < |x|
      ensures x[k] == y[k]
    {
      assert CharWords(x)[k] == CharWords(y)[k];
    }
  }

  lemma CharWordsLength(s: string)
    ensures |CharWords(s)| == |s|
  {
  }

  /** The payload's words end at a place that the words themselves fix. */
  lemma PayloadFromWords(x: Option<TrapPayload>, y: Option<TrapPayload>, r: seq<nat>, s: seq<nat>)
    requires PayloadWords(x) + r == PayloadWords(y) + s
    requires (x.Some? ==> PayloadInRange(x.value)) && (y.Some? ==> PayloadInRange(y.value))
    ensures x == y && r == s
  {
    hide OpcodeNumber, CharWords, PayloadInRange, ToSize;
    var u, v := PayloadWords(x), PayloadWords(y);
    assert u[0] == (u + r)[0] == (v + s)[0] == v[0];
    if x.Some? {
      var p, q := x.value, y.value;
      assert u + r == FieldWords(p) + (CharWords(p.detail) + r);
      assert v + s == FieldWords(q) + (CharWords(q.detail) + s);
      CutAt(FieldWords(p), CharWords(p.detail) + r, FieldWords(q), CharWords(q.detail) + s);
      FieldsFromWords(p, q);
      CharWordsLength(p.detail);
      CharWordsLength(q.detail);
      CutAt(CharWords(p.detail), r, CharWords(q.detail), s);
      DetailFromWords(p.detail, q.detail);
    } else {
      CutAt(u, r, v, s);
    }
  }

  lemma PolicyFromWords(x: Option<int>, y: Option<int>)
    requires PolicyWords(x) == PolicyWords(y)
    requires (x.Some? ==> Signed64(x.value)) && (y.Some? ==> Signed64(y.value))
    ensures x == y
  {
    var u, v := PolicyWords(x), PolicyWords(y);
    assert u[0] == v[0];
    if x.Some? {
      assert u[1] == v[1];
      SignedFromWord(x.value, y.value);
    }
  }

  function TailWords(c: Config): seq<nat> { PayloadWords(c.payload) + PolicyWords(c.m.policy) }

  /** The words again, bracketed for cutting from the front. */
  lemma WordsFromTheFront(c: Config)
    ensures Words(c) == HeadWords(c) + (SizesOf(c.m.regs) + (SizesOf(c.m.mem)
                        + ([ToSize(|c.trace|)] + (TraceWords(c.trace) + TailWords(c)))))
  {
    hide TraceWords, PayloadWords, PolicyWords, SizesOf, ToSize;
  }

  /** Equal words cut into equal parts. */
  lemma CutWords(c: Config, d: Config)
    requires |c.m.mem| == |d.m.mem| && Words(c) == Words(d)
    ensures HeadWords(c) == HeadWords(d)
    ensures SizesOf(c.m.regs) == SizesOf(d.m.regs) && SizesOf(c.m.mem) == SizesOf(d.m.mem)
    ensures ToSize(|c.trace|) == ToSize(|d.trace|)
    ensures TraceWords(c.trace) + TailWords(c) == TraceWords(d.trace) + TailWords(d)
  {
    hide TraceWords, TailWords, Words, ToSize;
    WordsFromTheFront(c);
    WordsFromTheFront(d);
    var trace0, trace1 := TraceWords(c.trace) + TailWords(c), TraceWords(d.trace) + TailWords(d);
    var size0, size1 := [ToSize(|c.trace|)] + trace0, [ToSize(|d.trace|)] + trace1;
    var mem0, mem1 := SizesOf(c.m.mem) + size0, SizesOf(d.m.mem) + size1;
    CutAt(HeadWords(c), SizesOf(c.m.regs) + mem0, HeadWords(d), SizesOf(d.m.regs) + mem1);
    CutAt(SizesOf(c.m.regs), mem0, SizesOf(d.m.regs), mem1);
    CutAt(SizesOf(c.m.mem), size0, SizesOf(d.m.mem), size1);
    CutAt([ToSize(|c.trace|)], trace0, [ToSize(|d.trace|)], trace1);
    assert [ToSize(|c.trace|)][0] == [ToSize(|d.trace|)][0];
  }

  /** The encoding is injective: states in range with equal words look the same to the hash. */
  lemma WordsDetermineState(c: Config, d: Config)
    requires InRange(c) && InRange(d) && TraceMade(c.trace) && TraceMade(d.trace)
    requires |c.m.mem| == |d.m.mem| && Words(c) == Words(d)
    ensures Observe(c) == Observe(d)
  {
    hide TraceWords, PayloadWords, PolicyWords, EntryInRange, PayloadInRange, Words, Signed64, EntryMade, SizesOf;
    CutWords(c, d);
    assert HeadWords(c)[0] == HeadWords(d)[0] && HeadWords(c)[1] == HeadWords(d)[1];
    assert HeadWords(c)[2] == HeadWords(d)[2];
    ValuesFromWords(c.m.regs, d.m.regs);
    ValuesFromWords(c.m.mem, d.m.mem);
    TraceWordsLength(c.trace);
    TraceWordsLength(d.trace);
    CutAt(TraceWords(c.trace), TailWords(c), TraceWords(d.trace), TailWords(d));
    TraceFromWords(c.trace, d.trace);
    PayloadFromWords(c.payload, d.payload, PolicyWords(c.m.policy), PolicyWords(d.m.policy));
    PolicyFromWords(c.m.policy, d.m.policy);
  }

  // ----- Where each field stands among the words. -----

  lemma {:induction false} EntryWordAt(trace: seq<TraceEntry>, k: nat, j: nat)
    requires k < |trace| && j < 6
    ensures |TraceWords(trace)| == 6 * |trace| && TraceWords(trace)[6 * k + j] == EntryWords(trace[k])[j]
  {
    hide EntryWords, OpcodeNumber;
    var n := |trace| - 1;
    TraceWordsLength(trace[..n]);
    EntryHasSixWords(trace[n]);
    if k < n { EntryWordAt(trace[..n], k, j); }
  }

  lemma EntryHasSixWords(e: TraceEntry)
    ensures |EntryWords(e)| == 6
  {
  }

  /** The words before those of the trace, and the number of all up to its end. */
  function BeforeTrace(c: Config): nat { 4 + REGISTER_COUNT + |c.m.mem| }

  function AfterTrace(c: Config): nat { BeforeTrace(c) + 6 * |c.trace| }

  /** The words of the machine: pc, the halted flag, the collections, the registers, the memory, the trace length. */
  lemma MachineWords(c: Config, r: nat, k: nat)
    requires r < REGISTER_COUNT
    ensures AfterTrace(c) <= |Words(c)|
    ensures Words(c)[0] == c.m.pc % WORD && Words(c)[1] == (if c.m.halted then 1 else 0)
    ensures Words(c)[2] == c.gcCycles % WORD && Words(c)[3 + r] == c.m.regs[r] % WORD
    ensures k < |c.m.mem| ==> Words(c)[3 + REGISTER_COUNT + k] == c.m.mem[k] % WORD
    ensures Words(c)[3 + REGISTER_COUNT + |c.m.mem|] == |c.trace| % WORD
  {
    hide Words, TraceWords, TailWords;
    WordsFromTheFront(c);
    TraceWordsLength(c.trace);
    assert SizesOf(c.m.regs)[r] == c.m.regs[r] % WORD;
    assert k < |c.m.mem| ==> SizesOf(c.m.mem)[k] == c.m.mem[k] % WORD;
  }

  lemma TraceAndTailAt(c: Config)
    ensures |Words(c)| >= BeforeTrace(c) && Words(c)[BeforeTrace(c)..] == TraceWords(c.trace) + TailWords(c)
  {
    hide Words, TraceWords, TailWords;
    WordsFromTheFront(c);
    var front := HeadWords(c) + SizesOf(c.m.regs) + SizesOf(c.m.mem) + [ToSize(|c.trace|)];
    var rest := TraceWords(c.trace) + TailWords(c);
    assert |front| == BeforeTrace(c);
    assert Words(c) == front + rest;
  }

  /** The six words of each trace entry: pc, opcode, register plus one, value, tag plus one, trap. */
  lemma EntryWordsAt(c: Config, k: nat)
    requires k < |c.trace|
    ensures AfterTrace(c) <= |Words(c)|
    ensures var at, e := BeforeTrace(c) + 6 * k, c.trace[k];
      && Words(c)[at] == e.pc % WORD && Words(c)[at + 1] == OpcodeNumber(e.opcode)
      && Words(c)[at + 2] == (if e.write.reg.Some? then (e.write.reg.value + 1) % WORD else 0)
      && Words(c)[at + 3] == (if e.write.value.Some? then e.write.value.value % WORD else 0)
      && Words(c)[at + 4] == (if e.write.tag.Some? then TagNumber(e.write.tag.value) + 1 else 0)
      && Words(c)[at + 5] == (if e.trap.Some? then TrapNumber(e.trap.value) else 0)
  {
    hide Words, TraceWords, TailWords, OpcodeNumber, TagNumber, TrapNumber;
    TraceAndTailAt(c);
    TraceWordsLength(c.trace);
    var rest := TraceWords(c.trace) + TailWords(c);
    forall j | 0 <= j < 6
      ensures Words(c)[BeforeTrace(c) + 6 * k + j] == EntryWords(c.trace[k])[j]
    {
      EntryWordAt(c.trace, k, j);
      assert rest[6 * k + j] == Words(c)[BeforeTrace(c) + (6 * k + j)];
    }
    var w := EntryWords(c.trace[k]);
    var at := BeforeTrace(c) + 6 * k;
    assert w[0] == Words(c)[at + 0] && w[1] == Words(c)[at + 1] && w[2] == Words(c)[at + 2];
    assert w[3] == Words(c)[at + 3] && w[4] == Words(c)[at + 4] && w[5] == Words(c)[at + 5];
  }

  lemma TailAt(c: Config)
    ensures |Words(c)| >= AfterTrace(c) && Words(c)[AfterTrace(c)..] == TailWords(c)
  {
    hide Words, TraceWords, TailWords;
    TraceAndTailAt(c);
    TraceWordsLength(c.trace);
    assert Words(c)[AfterTrace(c)..] == Words(c)[BeforeTrace(c)..][6 * |c.trace|..];
  }

  lemma PolicyHasWords(tier: Option<int>)
    ensures |PolicyWords(tier)| == if tier.Some? then 2 else 1
    ensures PolicyWords(tier)[0] == if tier.Some? then 1 else 0
    ensures tier.Some? ==> PolicyWords(tier)[1] == tier.value % WORD
  {
  }

  /** The nine words of the payload before its detail, or the one that stands for its absence. */
  lemma PayloadFieldsAt(c: Config)
    ensures AfterTrace(c) + (if c.payload.Some? then 9 else 1) < |Words(c)|
    ensures Words(c)[AfterTrace(c)] == if c.payload.Some? then 1 else 0
    ensures c.payload.Some? ==>
      var at, q := AfterTrace(c), c.payload.value;
      && Words(c)[at + 1] == TrapNumber(q.trap) && Words(c)[at + 2] == q.pc % WORD
      && Words(c)[at + 3] == OpcodeNumber(q.opcode)
      && Words(c)[at + 4] == q.a % WORD && Words(c)[at + 5] == q.b % WORD && Words(c)[at + 6] == q.c % WORD
      && Words(c)[at + 7] == SegmentNumber(q.segment) && Words(c)[at + 8] == |q.detail| % WORD
  {
    hide Words, TraceWords, PolicyWords, CharWords, OpcodeNumber, TrapNumber, SegmentNumber;
    TailAt(c);
    PolicyHasWords(c.m.policy);
    var n := if c.payload.Some? then 9 else 1;
    var fields := if c.payload.Some? then FieldWords(c.payload.value) else [0];
    forall j | 0 <= j < n
      ensures AfterTrace(c) + j < |Words(c)| && Words(c)[AfterTrace(c) + j] == fields[j]
    {
      assert TailWords(c)[j] == fields[j];
      assert TailWords(c)[j] == Words(c)[AfterTrace(c) + j];
    }
    assert fields[0] == Words(c)[AfterTrace(c) + 0];
  }

  /** The first word after those of the payload. */
  function AfterPayload(c: Config): nat {
    AfterTrace(c) + if c.payload.Some? then 9 + |c.payload.value.detail| else 1
  }

  /** The characters of the detail, then the policy, and nothing else. */
  lemma LastWordsAt(c: Config, j: nat)
    ensures |Words(c)| == AfterPayload(c) + if c.m.policy.Some? then 2 else 1
    ensures c.payload.Some? && j < |c.payload.value.detail| ==>
      Words(c)[AfterTrace(c) + 9 + j] == c.payload.value.detail[j] as nat
    ensures Words(c)[AfterPayload(c)] == if c.m.policy.Some? then 1 else 0
    ensures c.m.policy.Some? ==> Words(c)[AfterPayload(c) + 1] == c.m.policy.value % WORD
  {
    hide Words, TraceWords, PolicyWords;
    TailAt(c);
    PolicyHasWords(c.m.policy);
    var n := AfterPayload(c) - AfterTrace(c);
    assert TailWords(c)[n..] == PolicyWords(c.m.policy);
    assert Words(c)[AfterPayload(c)..] == PolicyWords(c.m.policy);
    if c.payload.Some? && j < |c.payload.value.detail| {
      assert TailWords(c)[9 + j] == CharWords(c.payload.value.detail)[j];
      assert TailWords(c)[9 + j] == Words(c)[AfterTrace(c) + (9 + j)];
    }
  }

  // ----- Every run makes encodable traces. -----

  lemma NoSilentFault(p: Image, m: Machine, i: Insn)
    ensures var o := Exec(p, m, i); o.Fault? ==> o.trap != NoTrap
  {
  }

  lemma StepMakesTrace(p: Image, c: Config)
    requires Coupled(c.write) && TraceMade(c.trace) && c.preload != Some(NoTrap)
    ensures var d := Step(p, c).c; Coupled(d.write) && TraceMade(d.trace) && d.preload != Some(NoTrap)
  {
    hide Exec;
    StepMachine(p, c);
    StepTraced(p, c);
    if Executing(p, c) { NoSilentFault(p, c.m, Current(p, c)); }
  }

  lemma NothingTraced()
    ensures TraceMade([])
  {
  }

  lemma HostWriteCoupled(c: Config, idx: int, value: int, tag: Tag)
    requires Coupled(c.write)
    ensures Coupled(HostWritten(c, idx, value, tag).write)
  {
  }

  lemma {:induction false} HistoriesMakeTraces(p: Image, stale: Write, acts: seq<Action>)
    requires Coupled(stale)
    ensures var c := Reached(p, stale, acts); Coupled(c.write) && TraceMade(c.trace) && c.preload != Some(NoTrap)
  {
    hide Step, TraceMade, Coupled;
    if acts == [] {
      NothingTraced();
    } else {
      var before := Reached(p, stale, acts[..|acts| - 1]);
      HistoriesMakeTraces(p, stale, acts[..|acts| - 1]);
      match acts[|acts| - 1] {
        case DoStep => StepMakesTrace(p, before);
        case HostWrite(idx, value, tag) => HostWriteCoupled(before, idx, value, tag);
      }
    }
  }

  // ----- Every history stays in range. -----

  predicate DetailOk(s: string) { |s| < 64 && forall k :: 0 <= k < |s| ==> s[k] as nat < 256 }

  predicate FaultOk(o: Outcome) { o.Fault? ==> DetailOk(o.detail) }

  lemma ScalarDetails(p: Image, m: Machine, i: Insn)
    requires FamilyOf(i.opcode) in {Arithmetic, Comparison, TritLogic, Move, Adjust, Control, Illegal}
    ensures FaultOk(Exec(p, m, i))
  {
  }

  lemma MemoryDetails(m: Machine, i: Insn)
    requires FamilyOf(i.opcode) == Memory
    ensures FaultOk(ExecMemory(m, i))
  {
  }

  lemma AxionDetails(m: Machine, i: Insn)
    requires FamilyOf(i.opcode) == Axion
    ensures FaultOk(ExecAxion(m, i))
  {
  }

  lemma StackAllocDetails(m: Machine, i: Insn)
    requires i.opcode.StackAlloc?
    ensures FaultOk(ExecStackAlloc(m, i))
  {
  }

  lemma StackFreeDetails(m: Machine, i: Insn)
    requires i.opcode.StackFree?
    ensures FaultOk(ExecStackFree(m, i))
  {
  }

  lemma HeapAllocDetails(m: Machine, i: Insn)
    requires i.opcode.HeapAlloc?
    ensures FaultOk(ExecHeapAlloc(m, i))
  {
  }

  lemma HeapFreeDetails(m: Machine, i: Insn)
    requires i.opcode.HeapFree?
    ensures FaultOk(ExecHeapFree(m, i))
  {
  }

  lemma PoolDetails(p: Image, m: Machine, i: Insn)
    requires FamilyOf(i.opcode) in {BinaryTensor, UnaryTensor, ShapeCheck, Make, Inspect}
    ensures FaultOk(Exec(p, m, i))
  {
  }

  /** The detail text of a trap is short and plain. */
  lemma Details(p: Image, m: Machine, i: Insn)
    ensures FaultOk(Exec(p, m, i))
  {
    hide FaultOk, ExecMemory, ExecAxion;
    match FamilyOf(i.opcode) {
      case Arithmetic | Comparison | TritLogic | Move | Adjust | Control | Illegal => ScalarDetails(p, m, i);
      case Memory => MemoryDetails(m, i);
      case Axion => AxionDetails(m, i);
      case Frames =>
        match i.opcode {
          case StackAlloc => StackAllocDetails(m, i);
          case StackFree => StackFreeDetails(m, i);
          case HeapAlloc => HeapAllocDetails(m, i);
          case HeapFree => HeapFreeDetails(m, i);
        }
      case BinaryTensor | UnaryTensor | ShapeCheck | Make | Inspect => PoolDetails(p, m, i);
    }
  }

  predicate WriteInRange(w: Write) { w.value.Some? ==> Signed64(w.value.value) }

  /** What a configuration reports holds values of their C++ types. */
  predicate ReportInRange(c: Config) {
    && WriteInRange(c.write) && (forall k :: 0 <= k < |c.trace| ==> EntryInRange(c.trace[k]))
    && (c.payload.Some? ==> PayloadInRange(c.payload.value))
    && (c.m.policy.Some? ==> Signed64(c.m.policy.value))
  }

  lemma WrittenInRange(i: Insn, m: Machine, o: Outcome)
    requires o.Commit? && Orderly(i, m, o) && RegsInRange(o.m)
    ensures WriteInRange(o.write) && o.m.policy == m.policy
  {
  }

  lemma FieldsInRange(q: TrapPayload)
    requires q.pc < WORD && OpcodeByte(q.opcode) && DetailOk(q.detail)
    requires Signed64(q.a) && Signed64(q.b) && Signed64(q.c)
    ensures PayloadInRange(q)
  {
    hide OpcodeByte, Signed64;
  }

  lemma ZeroInRange()
    ensures Signed64(0)
  {
  }

  lemma PayloadFields(p: Image, trap: Trap, op: Opcode, pc: nat, segment: Segment, detail: string)
    ensures var q := PayloadOf(p, trap, op, pc, segment, detail);
      && q.pc == pc && q.opcode == op && q.detail == detail
      && ((pc < |p.insns| && q.a == p.insns[pc].a && q.b == p.insns[pc].b && q.c == p.insns[pc].c)
          || (q.a == q.b == q.c == 0))
  {
    if pc < |p.insns| {
      var i := p.insns[pc];
      if i.opcode == op {
        assert PayloadOf(p, trap, op, pc, segment, detail) ==
               TrapPayload(trap, pc, op, i.a, i.b, i.c, segment, detail);
      } else {
        assert PayloadOf(p, trap, op, pc, segment, detail) == TrapPayload(trap, pc, op, 0, 0, 0, segment, detail);
      }
    }
  }

  lemma PayloadOfInRange(p: Image, trap: Trap, op: Opcode, pc: nat, segment: Segment, detail: string)
    requires (pc < |p.insns| ==> InsnTyped(p.insns[pc])) && OpcodeByte(op) && pc < WORD && DetailOk(detail)
    ensures PayloadInRange(PayloadOf(p, trap, op, pc, segment, detail))
  {
    hide PayloadOf, OpcodeByte, Signed64, DetailOk, PayloadInRange;
    ZeroInRange();
    PayloadFields(p, trap, op, pc, segment, detail);
    FieldsInRange(PayloadOf(p, trap, op, pc, segment, detail));
  }

  lemma EntryFromWrite(pc: nat, op: Opcode, w: Write, trap: Option<Trap>)
    requires pc < WORD && OpcodeByte(op) && WriteInRange(w)
    ensures EntryInRange(TraceEntry(pc, op, w, trap))
  {
  }

  lemma NextInsnTyped(p: Image, pc: nat)
    requires Typed(p)
    ensures (pc < |p.insns| ==> InsnTyped(p.insns[pc])) && OpcodeByte(CurrentOpcode(p, pc))
  {
    if pc < |p.insns| { assert InsnTyped(p.insns[pc]); }
  }

  lemma PlainDetail()
    ensures DetailOk("")
  {
  }

  lemma NoWriteInRange()
    ensures WriteInRange(NO_WRITE)
  {
  }

  lemma NopIsByte()
    ensures OpcodeByte(Nop)
  {
  }

  lemma StepKeepsReport(p: Image, c: Config)
    requires ReportInRange(c) && Typed(p) && c.m.pc <= |p.insns| < WORD && RegsInRange(Step(p, c).c.m)
    ensures ReportInRange(Step(p, c).c)
  {
    hide Exec, Orderly, PayloadOf, PayloadInRange, RegsInRange, WriteInRange, DetailOk, EntryInRange, Typed, InsnTyped;
    hide OpcodeByte;
    StepMachine(p, c);
    StepTraced(p, c);
    NextInsnTyped(p, c.m.pc);
    var op, d := CurrentOpcode(p, c.m.pc), Step(p, c).c;
    if Executing(p, c) {
      var o := Exec(p, c.m, Current(p, c));
      Details(p, c.m, Current(p, c));
      NoWriteInRange();
      if o.Commit? { WrittenInRange(Current(p, c), c.m, o); }
      if o.Fault? { PayloadOfInRange(p, o.trap, op, c.m.pc, o.segment, o.detail); }
    } else {
      PlainDetail();
      NopIsByte();
      PayloadOfInRange(p, DecodeFault, Nop, c.m.pc, Unknown, "");
      if c.preload.Some? { PayloadOfInRange(p, c.preload.value, op, c.m.pc, Unknown, ""); }
    }
    if |d.trace| == |c.trace| + 1 {
      EntryFromWrite(c.m.pc, op, d.write, d.trace[|c.trace|].trap);
      assert forall k :: 0 <= k < |c.trace| ==> d.trace[k] == c.trace[k];
    }
  }

  lemma {:induction false} ReportsStayInRange(p: Image, stale: Write, acts: seq<Action>)
    requires Typed(p) && ActsTyped(acts) && Feasible(p, acts) && WriteInRange(stale)
    ensures ReportInRange(Reached(p, stale, acts))
  {
    hide Step, Typed, ActTyped, RegsInRange, EntryInRange, PayloadInRange;
    if acts == [] {
      assert p.tier.Some? ==> Signed64(p.tier.value) by { TierTyped(p); }
    } else {
      var front, a := acts[..|acts| - 1], acts[|acts| - 1];
      var before := Reached(p, stale, front);
      ReportsStayInRange(p, stale, front);
      match a {
        case DoStep =>
          PcStaysInRange(p, stale, front);
          ValuesStayInRange(p, stale, acts);
          StepKeepsReport(p, before);
        case HostWrite(idx, value, tag) =>
          HostWriteReport(before, a);
      }
    }
  }

  lemma TierTyped(p: Image)
    requires Typed(p)
    ensures p.tier.Some? ==> Signed64(p.tier.value)
  {
  }

  lemma HostWriteReport(c: Config, a: Action)
    requires ReportInRange(c) && a.HostWrite? && ActTyped(a)
    ensures ReportInRange(HostWritten(c, a.idx, a.value, a.tag))
  {
    hide EntryInRange, PayloadInRange;
  }

  /** In every reachable configuration of a typed program all that the hash covers is in range. */
  lemma ReachedInRange(p: Image, stale: Write, acts: seq<Action>)
    requires Typed(p) && ActsTyped(acts) && Feasible(p, acts) && WriteInRange(stale)
    ensures InRange(Reached(p, stale, acts))
  {
    hide Reached, Typed, ActsTyped, EntryInRange, PayloadInRange, WriteInRange;
    ReportsStayInRange(p, stale, acts);
    ValuesStayInRange(p, stale, acts);
    PcStaysInRange(p, stale, acts);
    HistoryCounts(p, stale, acts);
    AccountsHold(p, stale, acts);
  }

  /** A record that a register write may have left: whole or absent, with a value in range. */
  predicate Leftover(w: Write) { Coupled(w) && WriteInRange(w) }

  /** A program and a history as C++ can hold them. */
  predicate Holdable(p: Image, acts: seq<Action>) { Typed(p) && ActsTyped(acts) && Feasible(p, acts) }

  /**
   The hash input separates the states that programs reach: two histories whose states, with memories of one length,
   feed the hash the same words agree on everything it covers.
   */
  lemma ReachedStatesHaveDistinctWords(
      p: Image, q: Image, stale: Write, stale': Write, acts: seq<Action>, acts': seq<Action>)
    requires Leftover(stale) && Leftover(stale') && Holdable(p, acts) && Holdable(q, acts')
    ensures var c, d := Reached(p, stale, acts), Reached(q, stale', acts');
      |c.m.mem| == |d.m.mem| ==> (Words(c) == Words(d) <==> Observe(c) == Observe(d))
  {
    hide Reached, InRange, TraceMade, Coupled, TraceWords, PayloadWords, PolicyWords, SizesOf;
    hide Typed, ActsTyped, WriteInRange, Feasible;
    var c, d := Reached(p, stale, acts), Reached(q, stale', acts');
    HistoriesMakeTraces(p, stale, acts);
    HistoriesMakeTraces(q, stale', acts');
    ReachedInRange(p, stale, acts);
    ReachedInRange(q, stale', acts');
    if |c.m.mem| == |d.m.mem| && Words(c) == Words(d) { WordsDetermineState(c, d); }
  }

  // ----- One changed byte always shows. -----

  function AllBytes(ws: seq<nat>): seq<nat> {
    if ws == [] then [] else AllBytes(ws[..|ws| - 1]) + BytesOf(ws[|ws| - 1])
  }

  lemma {:induction false} AllBytesAt(ws: seq<nat>, k: nat, j: nat)
    requires k < |ws| && j < 8
    ensures |AllBytes(ws)| == 8 * |ws| && AllBytes(ws)[8 * k + j] == Byte(ws[k], j)
  {
    hide Byte;
    var n := |ws| - 1;
    if k < n {
      AllBytesAt(ws[..n], k, j);
    } else if n > 0 {
      AllBytesAt(ws[..n], 0, 0);
    }
  }

  lemma HashOfNothing(h: nat)
    ensures HashBytes(h, []) == h
  {
  }

  lemma EightBytes(v: nat)
    ensures |BytesOf(v)| == 8
  {
  }

  /** The bytes that reach the hash determine the words they come from. */
  lemma {:induction false} BytesDetermineWords(us: seq<nat>, vs: seq<nat>)
    requires AllBytes(us) == AllBytes(vs)
    requires (forall k :: 0 <= k < |us| ==> us[k] < WORD) && (forall k :: 0 <= k < |vs| ==> vs[k] < WORD)
    ensures us == vs
  {
    hide BytesOf;
    if us != [] && vs != [] {
      var m, n := |us| - 1, |vs| - 1;
      EightBytes(us[m]);
      EightBytes(vs[n]);
      var xs, ys := AllBytes(us[..m]), AllBytes(vs[..n]);
      assert |xs| == |ys|;
      CutAt(xs, BytesOf(us[m]), ys, BytesOf(vs[n]));
      BytesDetermineWord(us[m], vs[n]);
      BytesDetermineWords(us[..m], vs[..n]);
      assert us == us[..m] + [us[m]] && vs == vs[..n] + [vs[n]];
    } else if us != [] {
      EightBytes(us[|us| - 1]);
    } else if vs != [] {
      EightBytes(vs[|vs| - 1]);
    }
  }

  /** Hashing words is hashing their bytes. */
  lemma {:induction false} HashOfBytes(h: nat, ws: seq<nat>)
    ensures HashWords(h, ws) == HashBytes(h, AllBytes(ws))
  {
    hide BytesOf, HashBytes;
    if ws == [] {
      HashOfNothing(h);
    } else {
      var n := |ws| - 1;
      HashOfBytes(h, ws[..n]);
      HashBytesAppends(h, AllBytes(ws[..n]), BytesOf(ws[n]));
    }
  }

  /** Word lists of one length that differ in a single byte of a single word hash differently. */
  lemma OneByteOfOneWord(h: nat, us: seq<nat>, vs: seq<nat>, k: nat, j: nat)
    requires h < WORD && |us| == |vs| && k < |us| && j < 8
    requires forall i :: 0 <= i < |us| && i != k ==> us[i] == vs[i]
    requires Byte(us[k], j) != Byte(vs[k], j)
    requires forall i :: 0 <= i < 8 && i != j ==> Byte(us[k], i) == Byte(vs[k], i)
    ensures HashWords(h, us) != HashWords(h, vs)
  {
    hide HashBytes, Shifted, HashWords, AllBytes;
    HashOfBytes(h, us);
    HashOfBytes(h, vs);
    AllBytesAt(us, k, j);
    AllBytesAt(vs, k, j);
    var xs, ys := AllBytes(us), AllBytes(vs);
    forall n | 0 <= n < |xs|
      ensures xs[n] < 256 && ys[n] < 256 && (n != 8 * k + j ==> xs[n] == ys[n])
    {
      AllBytesAt(us, n / 8, n % 8);
      AllBytesAt(vs, n / 8, n % 8);
    }
    OneByteSeparates(h, xs, ys, 8 * k + j);
  }

  lemma {:induction false} SmallWord(v: nat, j: nat)
    requires v < 256 && j >= 1
    ensures Shifted(v, j) == 0
  {
    if j == 1 {
    } else {
      SmallWord(v, j - 1);
    }
  }

  /** Setting the halted flag always changes the hash. */
  lemma HaltingChangesHash(c: Config)
    requires !c.m.halted
    ensures HashWords(OFFSET_BASIS, Words(c)) != HashWords(OFFSET_BASIS, Words(c.(m := c.m.(halted := true))))
  {
    hide HashWords, SizesOf, TraceWords, PayloadWords, PolicyWords, ToSize;
    var d := c.(m := c.m.(halted := true));
    forall j | 1 <= j < 8
      ensures Byte(0, j) == Byte(1, j) == 0
    {
      SmallWord(0, j);
      SmallWord(1, j);
    }
    OneByteOfOneWord(OFFSET_BASIS, Words(c), Words(d), 1, 0);
  }
}
