/** The Axion event log is determined by the trace; tier 0 denies every guarded instruction. */
module EventLog {
  import opened Options
  import opened Isa
  import opened State
  import opened Loader
  import opened Semantics
  import opened Effects
  import opened Histories

  /** Whether instruction `i`, ending with the given trap or without one, is reported to Axion. */
  predicate Reports(i: Insn, trap: Option<Trap>) {
    match i.opcode
    case Store | HeapAlloc => trap == None || trap == Some(BoundsFault)
    case Load => trap == Some(BoundsFault)
    case Push | Pop => trap == Some(StackFault)
    case AxRead | AxSet | AxVerify => trap == None || trap == Some(SecurityFault)
    case StackAlloc => trap == None || (trap == Some(StackFault) && i.b > 0)
    case StackFree | HeapFree | WeightsLoad => trap == None
    case _ => false
  }

  predicate EntryReports(p: Image, e: TraceEntry) {
    e.pc < |p.insns| && Reports(p.insns[e.pc], e.trap)
  }

  /** The opcodes of the reported entries of a trace, in order. */
  function Reported(p: Image, trace: seq<TraceEntry>): seq<Opcode> {
    if trace == [] then []
    else
      Reported(p, trace[..|trace| - 1])
      + if EntryReports(p, trace[|trace| - 1]) then [trace[|trace| - 1].opcode] else []
  }

  /** The opcodes of the event log, in order. */
  function LogOpcodes(log: seq<AxionEvent>): seq<Opcode> {
    if log == [] then [] else LogOpcodes(log[..|log| - 1]) + [log[|log| - 1].opcode]
  }

  function TrapOf(o: Outcome): Option<Trap> { if o.Fault? then Some(o.trap) else None }

  /** The outcome of `i` carries an event exactly when the entry it leaves in the trace is a reported one. */
  predicate EventMatches(i: Insn, o: Outcome) {
    !o.Undefined? ==> (o.event.Some? <==> Reports(i, TrapOf(o)))
  }

  lemma ScalarEvents(p: Image, m: Machine, i: Insn)
    requires FamilyOf(i.opcode) in {Arithmetic, Comparison, TritLogic, Move, Adjust}
    ensures EventMatches(i, Exec(p, m, i))
  {
  }

  lemma MemoryEvents(p: Image, m: Machine, i: Insn)
    requires FamilyOf(i.opcode) in {Memory, Frames}
    ensures EventMatches(i, Exec(p, m, i))
  {
  }

  lemma ControlEvents(p: Image, m: Machine, i: Insn)
    requires FamilyOf(i.opcode) in {Control, Axion, Illegal}
    ensures EventMatches(i, Exec(p, m, i))
  {
  }

  lemma PoolEvents(p: Image, m: Machine, i: Insn)
    requires FamilyOf(i.opcode) in {BinaryTensor, UnaryTensor, ShapeCheck, Make, Inspect}
    ensures EventMatches(i, Exec(p, m, i))
  {
  }

  lemma ExecEvents(p: Image, m: Machine, i: Insn)
    ensures EventMatches(i, Exec(p, m, i))
  {
    hide Exec, EventMatches;
    match FamilyOf(i.opcode) {
      case Arithmetic | Comparison | TritLogic | Move | Adjust => ScalarEvents(p, m, i);
      case Memory | Frames => MemoryEvents(p, m, i);
      case Control | Axion | Illegal => ControlEvents(p, m, i);
      case BinaryTensor | UnaryTensor | ShapeCheck | Make | Inspect => PoolEvents(p, m, i);
    }
  }

  /** The log holds one event for each reported trace entry; a pending preload trap is a DecodeFault. */
  predicate LogOk(p: Image, c: Config) {
    LogOpcodes(c.log) == Reported(p, c.trace) && (c.preload.None? || c.preload == Some(DecodeFault))
  }

  /** A step appends at most one event. */
  lemma StepLogs(p: Image, c: Config)
    ensures var s := Step(p, c).c;
      s.log == c.log || (|s.log| == |c.log| + 1 && s.log[..|c.log|] == c.log)
  {
    hide Exec;
  }

  lemma StepKeepsLog(p: Image, c: Config)
    requires LogOk(p, c)
    ensures LogOk(p, Step(p, c).c)
  {
    hide Exec, Reports;
    StepTraced(p, c);
    if Executing(p, c) {
      ExecEvents(p, c.m, Current(p, c));
    } else if c.m.pc < |p.insns| {
      DecodeFaultUnreported(p.insns[c.m.pc]);
    }
  }

  lemma DecodeFaultUnreported(i: Insn)
    ensures !Reports(i, Some(DecodeFault))
  {
  }

  /** In every reachable configuration the log's opcodes are those of the reported trace entries, in order. */
  lemma {:induction false} LogFollowsTrace(p: Image, stale: Write, acts: seq<Action>)
    ensures LogOk(p, Reached(p, stale, acts))
  {
    hide Step;
    if acts == [] {
    } else {
      LogFollowsTrace(p, stale, acts[..|acts| - 1]);
      StepKeepsLog(p, Reached(p, stale, acts[..|acts| - 1]));
    }
  }

  // ----- What an event says. -----

  /** The segment of an address that may be negative. */
  function SegmentAt(m: Machine, addr: int): Segment { if addr >= 0 then SegmentOf(m.layout, addr) else Unknown }

  /** What the event about instruction `i` reports, on the machine before it, when the step ends trap-free or not. */
  function Report(m: Machine, i: Insn, denied: bool, trapped: bool): EventKind {
    match i.opcode
    case Load => BoundsReport(Unknown, i.b)
    case Store => if trapped then BoundsReport(Unknown, i.a) else SegmentAccess(SegmentAt(m, i.a))
    case Push | Pop => BoundsReport(Stack, m.sp)
    case StackAlloc => if trapped then BoundsReport(Stack, i.b) else FrameChange
    case HeapAlloc => if trapped then BoundsReport(Heap, i.b) else FrameChange
    case AxRead => Guard(SegmentAt(m, i.b), i.b, denied, None)
    case AxSet =>
      if InFile(i.a) && InFile(i.b) then
        Guard(SegmentAt(m, m.regs[i.a]), m.regs[i.a], denied, Some(m.regs[i.b]))
      else FrameChange
    case AxVerify => Guard(Meta, m.pc, denied, None)
    case WeightsLoad => WeightsLoaded
    case _ => FrameChange
  }

  predicate EventSays(m: Machine, i: Insn, o: Outcome) {
    !o.Undefined? && o.event.Some? ==> o.event.value == Report(m, i, m.policy == Some(0), o.Fault?)
  }

  lemma MemoryEventSays(m: Machine, i: Insn)
    requires FamilyOf(i.opcode) == Memory
    ensures EventSays(m, i, ExecMemory(m, i))
  {
  }

  lemma FrameEventSays(m: Machine, i: Insn)
    requires FamilyOf(i.opcode) == Frames
    ensures EventSays(m, i, ExecFrames(m, i))
  {
  }

  lemma AxionEventSays(m: Machine, i: Insn)
    requires FamilyOf(i.opcode) == Axion
    ensures EventSays(m, i, ExecAxion(m, i))
  {
  }

  lemma MoveEventSays(m: Machine, i: Insn)
    requires FamilyOf(i.opcode) == Move
    ensures EventSays(m, i, ExecMove(m, i))
  {
  }

  lemma OthersSayNothing(p: Image, m: Machine, i: Insn)
    requires FamilyOf(i.opcode) !in {Memory, Frames, Axion, Move}
    ensures EventSays(m, i, Exec(p, m, i))
  {
    hide Exec;
    ExecEvents(p, m, i);
  }

  lemma ExecEventSays(p: Image, m: Machine, i: Insn)
    ensures EventSays(m, i, Exec(p, m, i))
  {
    hide EventSays, ExecMemory, ExecFrames, ExecAxion, ExecMove;
    match FamilyOf(i.opcode) {
      case Memory => MemoryEventSays(m, i);
      case Frames => FrameEventSays(m, i);
      case Axion => AxionEventSays(m, i);
      case Move => MoveEventSays(m, i);
      case _ => OthersSayNothing(p, m, i);
    }
  }

  /** The event of a step names its opcode, the segment and address concerned, the verdict and the value guarded. */
  lemma NewEventSays(p: Image, c: Config)
    ensures var r := Step(p, c);
      r.c.log == c.log
      || (Executing(p, c)
          && var i := Current(p, c);
             r.c.log == c.log + [AxionEvent(i.opcode, Report(c.m, i, c.m.policy == Some(0), r.status.Trapped?))])
  {
    hide Exec, Report;
    if Executing(p, c) { ExecEventSays(p, c.m, Current(p, c)); }
  }

  // ----- Tier 0. -----

  predicate IsGuarded(op: Opcode) { op.AxRead? || op.AxSet? || op.AxVerify? }

  lemma DeniedFaults(p: Image, m: Machine, i: Insn)
    requires IsGuarded(i.opcode) && Denied(m)
    ensures !Exec(p, m, i).Commit?
  {
  }

  ghost predicate GuardsDenied(p: Image, c: Config) {
    && c.m.policy == Some(0)
    && forall k :: 0 <= k < |c.trace| && IsGuarded(c.trace[k].opcode) ==> c.trace[k].trap.Some?
  }

  lemma StepKeepsDenying(p: Image, c: Config)
    requires GuardsDenied(p, c)
    ensures GuardsDenied(p, Step(p, c).c)
  {
    hide Exec;
    StepMachine(p, c);
    StepTraced(p, c);
    if Executing(p, c) && IsGuarded(Current(p, c).opcode) { DeniedFaults(p, c.m, Current(p, c)); }
    var s := Step(p, c).c;
    forall k | 0 <= k < |s.trace| && IsGuarded(s.trace[k].opcode) ensures s.trace[k].trap.Some? {
      if k < |c.trace| { assert s.trace[k] == c.trace[k]; }
    }
  }

  /** Under a tier 0 policy no guarded instruction is ever trap-free. */
  lemma {:induction false} TierZeroDeniesGuards(p: Image, stale: Write, acts: seq<Action>)
    requires p.tier == Some(0)
    ensures GuardsDenied(p, Reached(p, stale, acts))
  {
    hide Step;
    if acts == [] {
    } else {
      TierZeroDeniesGuards(p, stale, acts[..|acts| - 1]);
      StepKeepsDenying(p, Reached(p, stale, acts[..|acts| - 1]));
    }
  }
}
