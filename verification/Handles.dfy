/** Option, result and enum handles: soundness, permanence and well-founded nesting. */
module Handles {
  import opened Options
  import opened Isa
  import opened State
  import opened Loader
  import opened Semantics
  import opened Effects
  import opened Histories

  datatype Handle = Handle(tag: Tag, index: int)

  predicate IsPooled(tag: Tag) { tag.OptionHandle? || tag.ResultHandle? || tag.EnumHandle? }

  /** A tagged value that is safe to hold: a handle names an existing entry; tensor and shape handles never occur. */
  predicate Sound(m: Machine, tag: Tag, v: int) {
    match tag
    case OptionHandle => 1 <= v <= |m.options|
    case ResultHandle => 1 <= v <= |m.results|
    case EnumHandle => 1 <= v <= |m.enums|
    case TensorHandle | ShapeHandle => false
    case IntTag | WeightsTensorHandle => true
  }

  /** The tagged value stored under a handle. */
  function PayloadUnder(m: Machine, h: Handle): (int, Tag)
    requires IsPooled(h.tag) && Sound(m, h.tag, h.index)
  {
    match h.tag
    case OptionHandle => (m.options[h.index - 1].payload, m.options[h.index - 1].payloadTag)
    case ResultHandle => (m.results[h.index - 1].payload, m.results[h.index - 1].payloadTag)
    case EnumHandle => (m.enums[h.index - 1].payload, m.enums[h.index - 1].payloadTag)
  }

  /** The handle a trace entry created, if it did. */
  function Born(e: TraceEntry): seq<Handle> {
    if e.trap.None? && FamilyOf(e.opcode) == Make && e.write.value.Some? && e.write.tag.Some?
    then [Handle(e.write.tag.value, e.write.value.value)]
    else []
  }

  /** The handles created so far, oldest first. */
  function Births(trace: seq<TraceEntry>): seq<Handle> {
    if trace == [] then []
    else Births(trace[..|trace| - 1]) + Born(trace[|trace| - 1])
  }

  /** A tagged value refers to nothing younger than the first `age` births. */
  predicate Older(births: seq<Handle>, age: nat, tag: Tag, v: int)
    requires age <= |births|
  {
    IsPooled(tag) ==> Handle(tag, v) in births[..age]
  }

  /** The pools only grow. */
  predicate PoolsExtend(m: Machine, n: Machine) {
    m.options <= n.options && m.results <= n.results && m.enums <= n.enums
  }

  /** Every birth names an entry whose payload is sound and refers only to earlier births. */
  predicate BirthOk(m: Machine, births: seq<Handle>, k: nat)
    requires k < |births|
  {
    && IsPooled(births[k].tag) && Sound(m, births[k].tag, births[k].index)
    && var (v, tag) := PayloadUnder(m, births[k]);
       Sound(m, tag, v) && Older(births, k, tag, v)
  }

  /** How many entries the three pools hold. */
  function PoolTotal(m: Machine): nat { |m.options| + |m.results| + |m.enums| }

  ghost predicate BirthsOk(m: Machine, births: seq<Handle>) {
    && |births| == PoolTotal(m)
    && (forall k :: 0 <= k < |births| ==> BirthOk(m, births, k))
    && (forall j, k :: 0 <= j < k < |births| ==> births[j] != births[k])
    && (forall v :: 1 <= v <= |m.options| ==> Handle(OptionHandle, v) in births)
    && (forall v :: 1 <= v <= |m.results| ==> Handle(ResultHandle, v) in births)
    && (forall v :: 1 <= v <= |m.enums| ==> Handle(EnumHandle, v) in births)
  }

  ghost predicate RegistersSound(m: Machine) {
    forall r :: 0 <= r < REGISTER_COUNT ==> Sound(m, m.tags[r], m.regs[r])
  }

  ghost predicate HandlesOk(c: Config) {
    RegistersSound(c.m) && BirthsOk(c.m, Births(c.trace))
  }

  // ----- One step. -----

  /** A register holds a plain value, or what register a or b held before. */
  predicate Sourced(i: Insn, m: Machine, n: Machine)
    requires InFile(i.a)
  {
    || n.tags[i.a].IntTag? || n.tags[i.a].WeightsTensorHandle?
    || (n.tags[i.a] == m.tags[i.a] && n.regs[i.a] == m.regs[i.a])
    || (InFile(i.b) && n.tags[i.a] == m.tags[i.b] && n.regs[i.a] == m.regs[i.b])
  }

  lemma ScalarsSourced(p: Image, m: Machine, i: Insn)
    requires Exec(p, m, i).Commit? && InFile(i.a)
    requires FamilyOf(i.opcode) in {Arithmetic, Comparison, TritLogic, Move, Adjust}
    ensures Sourced(i, m, Exec(p, m, i).m)
  {
  }

  lemma AccessesSourced(p: Image, m: Machine, i: Insn)
    requires Exec(p, m, i).Commit? && InFile(i.a)
    requires FamilyOf(i.opcode) in {Memory, Axion}
    ensures Sourced(i, m, Exec(p, m, i).m)
  {
  }

  lemma FramesSourced(p: Image, m: Machine, i: Insn)
    requires Exec(p, m, i).Commit? && InFile(i.a) && FamilyOf(i.opcode) == Frames
    ensures Sourced(i, m, Exec(p, m, i).m)
  {
  }

  /** Without a tensor handle in register b no tensor instruction commits. */
  lemma TensorsNeedHandles(p: Image, m: Machine, i: Insn)
    requires FamilyOf(i.opcode) in {BinaryTensor, UnaryTensor, ShapeCheck}
    requires InFile(i.b) && m.tags[i.b] != TensorHandle
    ensures Exec(p, m, i) == PlainFault(TypeFault)
  {
  }

  /** An inspection writes a plain value or the payload under the handle it reads. */
  lemma InspectedTag(m: Machine, i: Insn)
    requires FamilyOf(i.opcode) == Inspect && ExecInspect(m, i).Commit?
    requires InFile(i.b) ==> Sound(m, m.tags[i.b], m.regs[i.b])
    ensures InFile(i.a) && InFile(i.b) && IsPooled(m.tags[i.b])
    ensures var n := ExecInspect(m, i).m;
      || n.tags[i.a].IntTag?
      || (n.regs[i.a], n.tags[i.a]) == PayloadUnder(m, Handle(m.tags[i.b], m.regs[i.b]))
  {
  }

  /** Growing the pools keeps what a birth says. */
  lemma BirthKept(m: Machine, n: Machine, births: seq<Handle>, more: seq<Handle>, k: nat)
    requires k < |births| && PoolsExtend(m, n) && BirthOk(m, births, k)
    ensures BirthOk(n, births + more, k)
  {
    assert (births + more)[..k] == births[..k];
  }

  /** An instruction that creates nothing keeps every register sound. */
  lemma RegistersStaySound(p: Image, m: Machine, births: seq<Handle>, i: Insn)
    requires RegistersSound(m) && BirthsOk(m, births) && FamilyOf(i.opcode) != Make && Exec(p, m, i).Commit?
    ensures var n := Exec(p, m, i).m;
      n.options == m.options && n.results == m.results && n.enums == m.enums && RegistersSound(n)
  {
    hide Exec;
    EveryInsnOrderly(p, m, i);
    var n := Exec(p, m, i).m;
    if InFile(i.a) {
      WrittenSound(p, m, births, i);
    }
    forall r | 0 <= r < REGISTER_COUNT ensures Sound(n, n.tags[r], n.regs[r]) {
      assert Sound(m, m.tags[r], m.regs[r]);
    }
  }

  lemma WrittenSound(p: Image, m: Machine, births: seq<Handle>, i: Insn)
    requires RegistersSound(m) && BirthsOk(m, births) && FamilyOf(i.opcode) != Make && Exec(p, m, i).Commit?
    requires InFile(i.a)
    ensures var n := Exec(p, m, i).m; Sound(m, n.tags[i.a], n.regs[i.a])
  {
    hide Exec;
    var n := Exec(p, m, i).m;
    assert Sound(m, m.tags[i.a], m.regs[i.a]);
    assert InFile(i.b) ==> Sound(m, m.tags[i.b], m.regs[i.b]);
    match FamilyOf(i.opcode) {
      case Arithmetic | Comparison | TritLogic | Move | Adjust => ScalarsSourced(p, m, i);
      case Memory | Axion => AccessesSourced(p, m, i);
      case Frames => FramesSourced(p, m, i);
      case Control => ControlOnly(p, m, i);
      case BinaryTensor | UnaryTensor | ShapeCheck | Illegal => NoTensorCommit(p, m, i);
      case Inspect =>
        InspectCommit(p, m, i);
        InspectedTag(m, i);
        PayloadSound(m, births, m.tags[i.b], m.regs[i.b]);
    }
  }

  lemma InspectCommit(p: Image, m: Machine, i: Insn)
    requires FamilyOf(i.opcode) == Inspect
    ensures Exec(p, m, i) == ExecInspect(m, i)
  {
  }

  lemma NoTensorCommit(p: Image, m: Machine, i: Insn)
    requires FamilyOf(i.opcode) in {BinaryTensor, UnaryTensor, ShapeCheck, Illegal}
    requires InFile(i.b) ==> m.tags[i.b] != TensorHandle
    ensures !Exec(p, m, i).Commit?
  {
    if InFile(i.b) && FamilyOf(i.opcode) != Illegal { hide Exec; TensorsNeedHandles(p, m, i); }
  }

  lemma PayloadSound(m: Machine, births: seq<Handle>, tag: Tag, v: int)
    requires BirthsOk(m, births) && IsPooled(tag) && Sound(m, tag, v)
    ensures var (w, t) := PayloadUnder(m, Handle(tag, v)); Sound(m, t, w)
  {
    assert Handle(tag, v) in births;
    var k :| 0 <= k < |births| && births[k] == Handle(tag, v);
    assert BirthOk(m, births, k);
  }

  /** The size of the pool that a tag points into. */
  function PoolSize(m: Machine, tag: Tag): nat {
    match tag
    case OptionHandle => |m.options|
    case ResultHandle => |m.results|
    case EnumHandle => |m.enums|
    case _ => 0
  }

  /** One new entry, whose payload is plain or a copy of register b, and its handle in register a. */
  predicate Adds(i: Insn, m: Machine, o: Outcome)
    requires o.Commit?
  {
    && InFile(i.a)
    && var n := o.m; var h := Handle(n.tags[i.a], n.regs[i.a]);
       && IsPooled(h.tag) && o.write == Recorded(i.a, h.index, h.tag) && PoolsExtend(m, n)
       && h.index == PoolSize(m, h.tag) + 1 == PoolSize(n, h.tag)
       && (forall t | IsPooled(t) && t != h.tag :: PoolSize(n, t) == PoolSize(m, t))
       && n.regs == m.regs[i.a := h.index] && n.tags == m.tags[i.a := h.tag]
       && var (v, tag) := PayloadUnder(n, h);
          tag.IntTag? || (InFile(i.b) && v == m.regs[i.b] && tag == m.tags[i.b])
  }

  lemma MakeAdds(m: Machine, i: Insn)
    requires FamilyOf(i.opcode) == Make && ExecMake(m, i).Commit?
    ensures Adds(i, m, ExecMake(m, i))
  {
    hide Adds, ExecMake;
    if i.opcode.MakeOptionSome? || i.opcode.MakeOptionNone? { MakeOptionAdds(m, i); }
    else if i.opcode.MakeResultOk? || i.opcode.MakeResultErr? { MakeResultAdds(m, i); }
    else { MakeEnumAdds(m, i); }
  }

  lemma MakeOptionAdds(m: Machine, i: Insn)
    requires (i.opcode.MakeOptionSome? || i.opcode.MakeOptionNone?) && ExecMake(m, i).Commit?
    ensures Adds(i, m, ExecMake(m, i))
  {
  }

  lemma MakeResultAdds(m: Machine, i: Insn)
    requires (i.opcode.MakeResultOk? || i.opcode.MakeResultErr?) && ExecMake(m, i).Commit?
    ensures Adds(i, m, ExecMake(m, i))
  {
  }

  lemma MakeEnumAdds(m: Machine, i: Insn)
    requires (i.opcode.MakeEnumVariant? || i.opcode.MakeEnumVariantPayload?) && ExecMake(m, i).Commit?
    ensures Adds(i, m, ExecMake(m, i))
  {
  }

  /** Every sound pooled handle has been born. */
  lemma SoundIsBorn(m: Machine, births: seq<Handle>, tag: Tag, v: int)
    requires BirthsOk(m, births) && Sound(m, tag, v)
    ensures IsPooled(tag) ==> Handle(tag, v) in births
  {
  }

  lemma MakeKeepsHandles(m: Machine, births: seq<Handle>, i: Insn)
    requires RegistersSound(m) && BirthsOk(m, births)
    requires FamilyOf(i.opcode) == Make && ExecMake(m, i).Commit?
    ensures InFile(i.a)
    ensures var n := ExecMake(m, i).m;
      RegistersSound(n) && PoolsExtend(m, n) && BirthsOk(n, births + [Handle(n.tags[i.a], n.regs[i.a])])
  {
    hide ExecMake;
    MakeAdds(m, i);
    var n := ExecMake(m, i).m;
    var h := Handle(n.tags[i.a], n.regs[i.a]);
    var all := births + [h];
    forall r | 0 <= r < REGISTER_COUNT ensures Sound(n, n.tags[r], n.regs[r]) {
      assert Sound(m, m.tags[r], m.regs[r]);
    }
    forall k | 0 <= k < |all| ensures BirthOk(n, all, k) {
      if k < |births| {
        BirthKept(m, n, births, [h], k);
      } else {
        assert all[..k] == births;
        if InFile(i.b) {
          assert Sound(m, m.tags[i.b], m.regs[i.b]);
          SoundIsBorn(m, births, m.tags[i.b], m.regs[i.b]);
        }
      }
    }
    forall j, k | 0 <= j < k < |all| ensures all[j] != all[k] {
      assert BirthOk(m, births, j);
    }
    BirthsCover(m, n, births, h);
  }

  lemma BirthsCover(m: Machine, n: Machine, births: seq<Handle>, h: Handle)
    requires BirthsOk(m, births) && IsPooled(h.tag)
    requires h.index == PoolSize(m, h.tag) + 1 == PoolSize(n, h.tag)
    requires forall t | IsPooled(t) && t != h.tag :: PoolSize(n, t) == PoolSize(m, t)
    ensures PoolTotal(n) == PoolTotal(m) + 1
    ensures forall v :: 1 <= v <= |n.options| ==> Handle(OptionHandle, v) in births + [h]
    ensures forall v :: 1 <= v <= |n.results| ==> Handle(ResultHandle, v) in births + [h]
    ensures forall v :: 1 <= v <= |n.enums| ==> Handle(EnumHandle, v) in births + [h]
  {
    assert (births + [h])[|births|] == h;
    forall tag, v | IsPooled(tag) && 1 <= v <= PoolSize(n, tag) ensures Handle(tag, v) in births + [h] {
      if tag != h.tag || v <= PoolSize(m, tag) {
        assert v <= PoolSize(m, tag);
        SoundIsBorn(m, births, tag, v);
      } else {
        assert Handle(tag, v) == h;
      }
    }
    assert PoolSize(n, OptionHandle) == |n.options| && PoolSize(m, OptionHandle) == |m.options|;
    assert PoolSize(n, ResultHandle) == |n.results| && PoolSize(m, ResultHandle) == |m.results|;
    assert PoolSize(n, EnumHandle) == |n.enums| && PoolSize(m, EnumHandle) == |m.enums|;
  }

  // ----- Runs. -----

  lemma StepKeepsHandles(p: Image, c: Config)
    requires HandlesOk(c)
    ensures HandlesOk(Step(p, c).c) && PoolsExtend(c.m, Step(p, c).c.m)
  {
    hide Exec, Orderly, BirthsOk, RegistersSound;
    StepMachine(p, c);
    StepTraced(p, c);
    var s := Step(p, c).c;
    if Executing(p, c) && Step(p, c).status.Done? {
      var i := Current(p, c);
      if FamilyOf(i.opcode) == Make {
        MakeCommit(p, c.m, i);
        MakeAdds(c.m, i);
        MakeKeepsHandles(c.m, Births(c.trace), i);
      } else {
        RegistersStaySound(p, c.m, Births(c.trace), i);
        BirthsDependOnPools(c.m, s.m, Births(c.trace));
        assert Births(s.trace) == Births(c.trace);
      }
    } else if s.trace != c.trace {
      assert Births(s.trace) == Births(c.trace);
    }
  }

  lemma MakeCommit(p: Image, m: Machine, i: Insn)
    requires FamilyOf(i.opcode) == Make
    ensures Exec(p, m, i) == ExecMake(m, i)
  {
  }

  lemma BirthsDependOnPools(m: Machine, n: Machine, births: seq<Handle>)
    requires n.options == m.options && n.results == m.results && n.enums == m.enums && BirthsOk(m, births)
    ensures BirthsOk(n, births)
  {
    forall k | 0 <= k < |births| ensures BirthOk(n, births, k) {
      assert BirthOk(m, births, k);
    }
  }

  /** In any configuration whatever, a step keeps all entries of the pools. */
  lemma StepExtendsPools(p: Image, c: Config)
    ensures PoolsExtend(c.m, Step(p, c).c.m)
  {
    hide Exec, Orderly;
    StepMachine(p, c);
    if Executing(p, c) && Step(p, c).status.Done? {
      if FamilyOf(Current(p, c).opcode) == Make {
        MakeCommit(p, c.m, Current(p, c));
        MakeAdds(c.m, Current(p, c));
      } else {
        OthersKeepPools(c.m, Current(p, c), Exec(p, c.m, Current(p, c)));
      }
    }
  }

  lemma OthersKeepPools(m: Machine, i: Insn, o: Outcome)
    requires Orderly(i, m, o) && o.Commit? && FamilyOf(i.opcode) != Make
    ensures PoolsExtend(m, o.m)
  {
  }

  /** Once made, an option, result or enum never changes, whatever follows. */
  lemma {:induction false} PoolEntriesArePermanent(p: Image, c: Config, acts: seq<Action>)
    ensures PoolsExtend(c.m, Play(p, c, acts).m)
  {
    hide Step;
    if acts == [] {
    } else {
      PoolEntriesArePermanent(p, c, acts[..|acts| - 1]);
      StepExtendsPools(p, Play(p, c, acts[..|acts| - 1]));
    }
  }

  // ----- Host writes. -----

  /** A host write of a value that is safe to hold, or of no register at all. */
  predicate SoundWrite(c: Config, a: Action) {
    match a
    case DoStep => true
    case HostWrite(idx, value, tag) => InFile(idx) ==> Sound(c.m, tag, value)
  }

  /** An action keeps handles sound if and only if it is a step or a sound host write. */
  lemma ActHandlesIff(p: Image, c: Config, a: Action)
    requires HandlesOk(c)
    ensures HandlesOk(Act(p, c, a)) <==> SoundWrite(c, a)
  {
    hide Step;
    match a {
      case DoStep => StepKeepsHandles(p, c);
      case HostWrite(idx, value, tag) => HostWriteHandlesIff(c, idx, value, tag);
    }
  }

  lemma HostWriteHandlesIff(c: Config, idx: int, value: int, tag: Tag)
    requires HandlesOk(c)
    ensures HandlesOk(HostWritten(c, idx, value, tag)) <==> SoundWrite(c, HostWrite(idx, value, tag))
  {
    hide BirthsOk;
    var d := HostWritten(c, idx, value, tag);
    BirthsDependOnPools(c.m, d.m, Births(c.trace));
    if InFile(idx) {
      assert d.m.tags[idx] == tag && d.m.regs[idx] == value;
      forall r | 0 <= r < REGISTER_COUNT && r != idx
        ensures Sound(d.m, d.m.tags[r], d.m.regs[r])
      {
        assert Sound(c.m, c.m.tags[r], c.m.regs[r]);
      }
    }
  }

  ghost predicate HandlesOkThrough(p: Image, c: Config, acts: seq<Action>) {
    forall k :: 0 <= k <= |acts| ==> HandlesOk(Play(p, c, acts[..k]))
  }

  ghost predicate SoundWrites(p: Image, c: Config, acts: seq<Action>) {
    forall k :: 0 <= k < |acts| ==> SoundWrite(Play(p, c, acts[..k]), acts[k])
  }

  lemma LoadedHandlesOk(p: Image, stale: Write)
    ensures HandlesOk(LoadWith(p, stale))
  {
  }

  /** Handles are sound all along a history of a loaded program if and only if every host write of it is sound. */
  lemma HandlesHistoryIff(p: Image, stale: Write, acts: seq<Action>)
    ensures HandlesOkThrough(p, LoadWith(p, stale), acts) <==> SoundWrites(p, LoadWith(p, stale), acts)
  {
    hide Act, Play, HandlesOk, SoundWrite;
    var c := LoadWith(p, stale);
    LoadedHandlesOk(p, stale);
    var good := (d: Config) => HandlesOk(d);
    var ok := (d: Config, a: Action) => SoundWrite(d, a);
    forall d: Config, a: Action | good(d)
      ensures good(Act(p, d, a)) <==> ok(d, a)
    {
      ActHandlesIff(p, d, a);
    }
    ThroughoutIff(p, c, acts, good, ok);
    assert HandlesOkThrough(p, c, acts) <==> Throughout(p, c, acts, good);
    assert SoundWrites(p, c, acts) <==> AtEach(p, c, acts, ok);
  }

  /** Handle soundness: after every history of a loaded program whose host writes are sound, a run for one. */
  lemma HandlesStaySound(p: Image, stale: Write, acts: seq<Action>)
    requires SoundWrites(p, LoadWith(p, stale), acts)
    ensures HandlesOk(Reached(p, stale, acts))
  {
    hide Act, Play, HandlesOk;
    HandlesHistoryIff(p, stale, acts);
    assert acts[..|acts|] == acts;
  }

  lemma RunsWriteNothing(p: Image, stale: Write, n: nat)
    ensures SoundWrites(p, LoadWith(p, stale), Steps(n))
  {
  }

  /** A handle forged by the host names no entry. */
  lemma ForgedHandleUnsound(p: Image, stale: Write)
    ensures !HandlesOkThrough(p, LoadWith(p, stale), [HostWrite(0, 1, OptionHandle)])
  {
    hide Step, HandlesOk;
    var acts := [HostWrite(0, 1, OptionHandle)];
    HandlesHistoryIff(p, stale, acts);
    assert acts[..0] == [];
    assert Play(p, LoadWith(p, stale), acts[..0]) == LoadWith(p, stale);
  }

  /** A sequence of handles, each the payload of the one before. */
  ghost predicate UnwrapChain(m: Machine, hs: seq<Handle>) {
    && (forall k :: 0 <= k < |hs| ==> IsPooled(hs[k].tag) && Sound(m, hs[k].tag, hs[k].index))
    && (forall k :: 0 <= k < |hs| - 1 ==> PayloadUnder(m, hs[k]) == (hs[k + 1].index, hs[k + 1].tag))
  }

  lemma {:induction false} ChainBound(m: Machine, births: seq<Handle>, hs: seq<Handle>, k: nat)
    requires BirthsOk(m, births) && UnwrapChain(m, hs) && hs != [] && k < |births| && hs[0] == births[k]
    ensures |hs| <= k + 1
    decreases k
  {
    if |hs| == 1 {
    } else {
      assert BirthOk(m, births, k);
      assert PayloadUnder(m, hs[0]) == (hs[1].index, hs[1].tag);
      assert hs[1] == Handle(hs[1].tag, hs[1].index);
      assert hs[1] in births[..k];
      var j :| 0 <= j < k && births[j] == hs[1];
      ChainBound(m, births, hs[1..], j);
    }
  }

  /** Unwrapping terminates: no chain of unwraps is longer than the number of values ever made. */
  lemma UnwrapChainsEnd(p: Image, stale: Write, acts: seq<Action>, hs: seq<Handle>)
    requires SoundWrites(p, LoadWith(p, stale), acts) && UnwrapChain(Reached(p, stale, acts).m, hs)
    ensures |hs| <= PoolTotal(Reached(p, stale, acts).m)
  {
    hide Step, Reached;
    HandlesStaySound(p, stale, acts);
    var c := Reached(p, stale, acts);
    if hs != [] {
      SoundIsBorn(c.m, Births(c.trace), hs[0].tag, hs[0].index);
      var k :| 0 <= k < |Births(c.trace)| && Births(c.trace)[k] == hs[0];
      ChainBound(c.m, Births(c.trace), hs, k);
    }
  }

  /** The value an Inspect instruction demands to be present: an unwrap wants its own variant. */
  predicate HasWanted(m: Machine, i: Insn, h: int)
    requires FamilyOf(i.opcode) == Inspect && Sound(m, HandleTag(i.opcode), h)
  {
    match i.opcode
    case OptionUnwrap => m.options[h - 1].hasValue
    case ResultUnwrapOk => m.results[h - 1].isOk
    case ResultUnwrapErr => !m.results[h - 1].isOk
    case EnumUnwrapPayload => m.enums[h - 1].hasPayload
    case _ => true
  }

  lemma InspectedWhenSound(m: Machine, i: Insn, h: int)
    requires FamilyOf(i.opcode) == Inspect && Sound(m, HandleTag(i.opcode), h)
    ensures Inspected(m, i, h).Some? <==> HasWanted(m, i, h)
  {
  }

  /** A test or unwrap of a register that carries the right tag is executed in configuration `c`. */
  predicate Inspecting(p: Image, c: Config) {
    && Executing(p, c) && FamilyOf(Current(p, c).opcode) == Inspect
    && InFile(Current(p, c).a) && InFile(Current(p, c).b)
    && c.m.tags[Current(p, c).b] == HandleTag(Current(p, c).opcode)
  }

  /**
   The null-handle branches are unreachable: an inspection of a register with the right tag finds its entry,
   so it traps exactly when an unwrap meets the other variant.
   */
  lemma NullHandlesUnreachable(p: Image, stale: Write, acts: seq<Action>)
    requires SoundWrites(p, LoadWith(p, stale), acts)
    ensures var c := Reached(p, stale, acts);
      Inspecting(p, c) ==>
        && Sound(c.m, HandleTag(Current(p, c).opcode), c.m.regs[Current(p, c).b])
        && Step(p, c).status ==
             if HasWanted(c.m, Current(p, c), c.m.regs[Current(p, c).b]) then Done else Trapped(DecodeFault)
  {
    hide Step, Reached, Exec, Inspected, HasWanted;
    HandlesStaySound(p, stale, acts);
    var c := Reached(p, stale, acts);
    if Inspecting(p, c) {
      var i := Current(p, c);
      assert Sound(c.m, c.m.tags[i.b], c.m.regs[i.b]);
      InspectedWhenSound(c.m, i, c.m.regs[i.b]);
      InspectCommit(p, c.m, i);
      StepStatus(p, c);
    }
  }

  lemma StepStatus(p: Image, c: Config)
    requires Executing(p, c)
    ensures Step(p, c).status ==
      match Exec(p, c.m, Current(p, c))
      case Commit(_, _, _) => Done
      case Fault(t, _, _, _) => Trapped(t)
      case Undefined(h) => UndefinedBehaviour(h)
  {
    hide Exec;
  }

  /** No tensor or shape handle ever appears, so without host writes every tensor instruction is a type fault. */
  lemma TensorInsnsAlwaysFault(p: Image, stale: Write, acts: seq<Action>)
    requires SoundWrites(p, LoadWith(p, stale), acts) && Executing(p, Reached(p, stale, acts))
    requires var i := Current(p, Reached(p, stale, acts));
      FamilyOf(i.opcode) in {BinaryTensor, UnaryTensor, ShapeCheck} && InFile(i.b)
    ensures Step(p, Reached(p, stale, acts)).status == Trapped(TypeFault)
  {
    hide Step, Reached, Exec;
    HandlesStaySound(p, stale, acts);
    var c := Reached(p, stale, acts);
    var i := Current(p, c);
    assert Sound(c.m, c.m.tags[i.b], c.m.regs[i.b]);
    TensorsNeedHandles(p, c.m, i);
    StepStatus(p, c);
  }

  // ----- Tensors, whatever the host writes. -----

  predicate NoTensors(m: Machine) { m.tensors == [] && m.shapes == [] }

  lemma NoEntryNoCommit(p: Image, m: Machine, i: Insn)
    requires NoTensors(m) && FamilyOf(i.opcode) in {BinaryTensor, UnaryTensor, ShapeCheck}
    ensures !Exec(p, m, i).Commit?
  {
  }

  lemma StepMakesNoTensor(p: Image, c: Config)
    requires NoTensors(c.m)
    ensures NoTensors(Step(p, c).c.m)
  {
    hide Exec;
    StepMachine(p, c);
    if Executing(p, c) && IsTensorFamily(FamilyOf(Current(p, c).opcode)) { NoEntryNoCommit(p, c.m, Current(p, c)); }
  }

  /**
   No history makes a tensor or a shape, even when the host forges handles to them; so no tensor instruction is
   ever trap-free.
   */
  lemma {:induction false} TensorInsnsNeverCommit(p: Image, stale: Write, acts: seq<Action>)
    ensures var c := Reached(p, stale, acts);
      && NoTensors(c.m)
      && (Executing(p, c) && FamilyOf(Current(p, c).opcode) in {BinaryTensor, UnaryTensor, ShapeCheck} ==>
            !Step(p, c).status.Done?)
  {
    hide Step, Exec;
    var c := Reached(p, stale, acts);
    if acts == [] {
    } else {
      TensorInsnsNeverCommit(p, stale, acts[..|acts| - 1]);
      StepMakesNoTensor(p, Reached(p, stale, acts[..|acts| - 1]));
    }
    if Executing(p, c) && FamilyOf(Current(p, c).opcode) in {BinaryTensor, UnaryTensor, ShapeCheck} {
      NoEntryNoCommit(p, c.m, Current(p, c));
      StepStatus(p, c);
    }
  }
}
