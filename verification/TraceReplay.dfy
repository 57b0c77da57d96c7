/** The trace's register writes reproduce the register file. */
module TraceReplay {
  import opened Options
  import opened Isa
  import opened State
  import opened Loader
  import opened Semantics
  import opened Effects
  import opened Histories

  datatype Registers = Registers(regs: RegFile, tags: TagFile)

  /** A write record has all three parts or none. */
  predicate Coupled(w: Write) {
    && (w.reg.Some? <==> w.value.Some?) && (w.reg.Some? <==> w.tag.Some?)
    && (w.reg.Some? ==> InFile(w.reg.value))
  }

  /** Redo the write of one trace entry. */
  function Redo(s: Registers, w: Write): Registers {
    if w.reg.Some? && w.value.Some? && w.tag.Some? && InFile(w.reg.value)
    then Registers(s.regs[w.reg.value := w.value.value], s.tags[w.reg.value := w.tag.value])
    else s
  }

  /** What becomes of register file `from` when the writes of a trace are redone on it. */
  function Replay(from: Registers, trace: seq<TraceEntry>): Registers {
    if trace == [] then from
    else Redo(Replay(from, trace[..|trace| - 1]), trace[|trace| - 1].write)
  }

  /** The replay of a trace from the zeroed registers of a loaded program. */
  function ReplayFromZero(p: Image, trace: seq<TraceEntry>): Registers {
    Replay(Registers(InitialMachine(p).regs, InitialMachine(p).tags), trace)
  }

  /** The entry reports an Inc, Dec or Pop of register r, which writes it behind the back of the trace. */
  predicate Disturbs(p: Image, e: TraceEntry, r: nat) {
    e.trap.None? && IsQuiet(e.opcode) && e.pc < |p.insns| && p.insns[e.pc].a == r
  }

  predicate Disturbed(p: Image, trace: seq<TraceEntry>, r: nat) {
    if trace == [] then false
    else Disturbed(p, trace[..|trace| - 1], r) || Disturbs(p, trace[|trace| - 1], r)
  }

  /** The trace agrees with the registers on `r`. */
  predicate Faithful(p: Image, c: Config, r: nat)
    requires InFile(r)
  {
    ReplayFromZero(p, c.trace).regs[r] == c.m.regs[r] && ReplayFromZero(p, c.trace).tags[r] == c.m.tags[r]
  }

  /** The pending write record describes the register it names. */
  predicate RecordOk(c: Config) {
    && Coupled(c.write)
    && (c.write.reg.Some? ==>
          c.m.regs[c.write.reg.value] == c.write.value.value && c.m.tags[c.write.reg.value] == c.write.tag.value)
  }

  lemma StepKeepsRecord(p: Image, c: Config)
    requires RecordOk(c)
    ensures RecordOk(Step(p, c).c)
  {
    hide Exec;
    StepMachine(p, c);
  }

  lemma StepStaysFaithful(p: Image, c: Config, r: nat)
    requires RecordOk(c) && InFile(r) && Faithful(p, c, r)
    requires !Disturbed(p, Step(p, c).c.trace, r)
    ensures Faithful(p, Step(p, c).c, r)
  {
    hide Exec;
    StepMachine(p, c);
    StepTraced(p, c);
    StepKeepsRecord(p, c);
  }

  lemma StepUndisturbed(p: Image, c: Config, r: nat)
    requires !Disturbed(p, Step(p, c).c.trace, r)
    ensures !Disturbed(p, c.trace, r)
  {
    hide Exec;
    StepTraced(p, c);
  }

  /**
   Trace replay: on every run of a fresh interpreter, a register that no Inc, Dec or Pop of the trace names
   has the value and the tag that replaying the trace gives it, however the run goes on or ends.
   */
  lemma {:induction false} ReplayIsFaithful(p: Image, n: nat, r: nat)
    requires InFile(r) && !Disturbed(p, Run(p, Fresh(p), n).trace, r)
    ensures RecordOk(Run(p, Fresh(p), n)) && Faithful(p, Run(p, Fresh(p), n), r)
  {
    hide Step;
    if n == 0 {
    } else {
      var before := Run(p, Fresh(p), n - 1);
      StepUndisturbed(p, before, r);
      ReplayIsFaithful(p, n - 1, r);
      StepStaysFaithful(p, before, r);
      StepKeepsRecord(p, before);
    }
  }

  // ----- The exact condition. -----

  /**
   The step about to be taken will change register r, or its tag, without recording it. Inc and Dec change the
   value unless they overflow; a Pop changes nothing when it finds the value that is there already, under an Int tag.
   */
  predicate ChangesQuietly(p: Image, c: Config, r: nat)
    requires InFile(r)
  {
    Executing(p, c) && QuietlyChanged(c.m, Current(p, c), r)
  }

  predicate QuietlyChanged(m: Machine, i: Insn, r: nat)
    requires InFile(r)
  {
    && i.a == r
    && match i.opcode
       case Inc => Signed64(m.regs[r] + 1)
       case Dec => Signed64(m.regs[r] - 1)
       case Pop =>
         m.sp < m.layout.stack.limit && m.sp < |m.mem| && (m.mem[m.sp] != m.regs[r] || m.tags[r] != IntTag)
       case _ => false
  }

  lemma QuietChangeIff(p: Image, m: Machine, i: Insn, r: nat)
    requires InFile(r) && i.a == r && IsQuiet(i.opcode)
    ensures var o := Exec(p, m, i);
      (o.Commit? && (o.m.regs[r] != m.regs[r] || o.m.tags[r] != m.tags[r])) <==> QuietlyChanged(m, i, r)
  {
  }

  /** One step keeps the trace faithful about r if and only if it does not change r quietly. */
  lemma StepFaithfulIff(p: Image, c: Config, r: nat)
    requires RecordOk(c) && InFile(r) && Faithful(p, c, r)
    ensures Faithful(p, Step(p, c).c, r) <==> !ChangesQuietly(p, c, r)
  {
    hide Exec;
    StepMachine(p, c);
    StepTraced(p, c);
    StepKeepsRecord(p, c);
    if Executing(p, c) && Current(p, c).a == r && IsQuiet(Current(p, c).opcode) {
      QuietChangeIff(p, c.m, Current(p, c), r);
    }
  }

  /** The action about to happen leaves the trace right about r: no quiet step, no host write of anything new. */
  predicate KeepsFaith(p: Image, c: Config, a: Action, r: nat)
    requires InFile(r)
  {
    match a
    case DoStep => !ChangesQuietly(p, c, r)
    case HostWrite(idx, value, tag) => idx == r ==> value == c.m.regs[r] && tag == c.m.tags[r]
  }

  lemma ActFaithfulIff(p: Image, c: Config, a: Action, r: nat)
    requires RecordOk(c) && InFile(r) && Faithful(p, c, r)
    ensures RecordOk(Act(p, c, a))
    ensures Faithful(p, Act(p, c, a), r) <==> KeepsFaith(p, c, a, r)
  {
    hide Step, ChangesQuietly;
    match a {
      case DoStep =>
        StepKeepsRecord(p, c);
        StepFaithfulIff(p, c, r);
      case HostWrite(idx, value, tag) =>
    }
  }

  /** The trace is right about r all along a history. */
  ghost predicate FaithfulThrough(p: Image, acts: seq<Action>, r: nat)
    requires InFile(r)
  {
    forall k :: 0 <= k <= |acts| ==> Faithful(p, Play(p, Fresh(p), acts[..k]), r)
  }

  ghost predicate KeepsFaithAtEach(p: Image, acts: seq<Action>, r: nat)
    requires InFile(r)
  {
    forall k :: 0 <= k < |acts| ==> KeepsFaith(p, Play(p, Fresh(p), acts[..k]), acts[k], r)
  }

  /**
   Trace replay, exactly: along a history of a fresh interpreter the trace gives register r its value and tag at
   every moment if and only if no step changes r quietly and no host write puts anything new into it.
   */
  lemma FaithfulHistoryIff(p: Image, acts: seq<Action>, r: nat)
    requires InFile(r)
    ensures FaithfulThrough(p, acts, r) <==> KeepsFaithAtEach(p, acts, r)
  {
    hide Act, Play, KeepsFaith, Faithful, RecordOk;
    FreshIsFaithful(p, r);
    var good := (d: Config) => RecordOk(d) && Faithful(p, d, r);
    var ok := (d: Config, a: Action) => KeepsFaith(p, d, a, r);
    forall d: Config, a: Action | good(d)
      ensures good(Act(p, d, a)) <==> ok(d, a)
    {
      ActFaithfulIff(p, d, a, r);
    }
    ThroughoutIff(p, Fresh(p), acts, good, ok);
    RecordsStayOk(p, acts);
    assert FaithfulThrough(p, acts, r) <==> Throughout(p, Fresh(p), acts, good);
    assert KeepsFaithAtEach(p, acts, r) <==> AtEach(p, Fresh(p), acts, ok);
  }

  lemma RecordsStayOk(p: Image, acts: seq<Action>)
    ensures forall k :: 0 <= k <= |acts| ==> RecordOk(Play(p, Fresh(p), acts[..k]))
  {
    hide Act, Play, RecordOk;
    var good := (d: Config) => RecordOk(d);
    var ok := (d: Config, a: Action) => true;
    FreshIsFaithful(p, 0);
    forall d: Config, a: Action | good(d)
      ensures good(Act(p, d, a)) <==> ok(d, a)
    {
      ActKeepsRecord(p, d, a);
    }
    ThroughoutIff(p, Fresh(p), acts, good, ok);
  }

  lemma ActKeepsRecord(p: Image, c: Config, a: Action)
    requires RecordOk(c)
    ensures RecordOk(Act(p, c, a))
  {
    hide Step;
    if a.DoStep? { StepKeepsRecord(p, c); }
  }

  /** A host write of something new escapes the trace. */
  lemma HostWriteEscapesReplay(p: Image)
    ensures !FaithfulThrough(p, [HostWrite(0, 7, IntTag)], 0)
  {
    hide Step;
    var acts := [HostWrite(0, 7, IntTag)];
    FaithfulHistoryIff(p, acts, 0);
    assert acts[..0] == [];
    assert Play(p, Fresh(p), acts[..0]) == Fresh(p);
  }

  lemma FreshIsFaithful(p: Image, r: nat)
    requires InFile(r)
    ensures RecordOk(Fresh(p)) && Faithful(p, Fresh(p), r)
  {
  }

  /** No trap-free Inc, Dec or Pop occurs in the trace. */
  ghost predicate QuietFree(trace: seq<TraceEntry>) {
    forall k :: 0 <= k < |trace| && trace[k].trap.None? ==> !IsQuiet(trace[k].opcode)
  }

  lemma {:induction false} QuietFreeUndisturbed(p: Image, trace: seq<TraceEntry>, r: nat)
    requires QuietFree(trace)
    ensures !Disturbed(p, trace, r)
  {
    if trace == [] {
    } else {
      QuietFreeUndisturbed(p, trace[..|trace| - 1], r);
    }
  }

  /** Without Inc, Dec and Pop the whole register file, values and tags, is the replay of the trace. */
  lemma ReplayGivesRegisterFile(p: Image, n: nat)
    requires QuietFree(Run(p, Fresh(p), n).trace)
    ensures var c := Run(p, Fresh(p), n); ReplayFromZero(p, c.trace) == Registers(c.m.regs, c.m.tags)
  {
    hide Step, Run, ReplayFromZero;
    var c := Run(p, Fresh(p), n);
    forall r | 0 <= r < REGISTER_COUNT
      ensures ReplayFromZero(p, c.trace).regs[r] == c.m.regs[r] && ReplayFromZero(p, c.trace).tags[r] == c.m.tags[r]
    {
      QuietFreeUndisturbed(p, c.trace, r);
      ReplayIsFaithful(p, n, r);
    }
    assert ReplayFromZero(p, c.trace).regs == c.m.regs;
    assert ReplayFromZero(p, c.trace).tags == c.m.tags;
  }

  lemma IncStep(p: Image)
    requires p.insns == [Insn(Inc, 0, 0, 0)]
    ensures var d := Step(p, Fresh(p)).c; d.m.regs[0] == 1 && d.trace == [TraceEntry(0, Inc, NO_WRITE, None)]
  {
    assert Exec(p, InitialMachine(p), p.insns[0]) == ExecAdjust(InitialMachine(p), p.insns[0]);
  }

  /** The hypothesis is needed: after one Inc the replay misses the new value. */
  lemma IncEscapesReplay(p: Image)
    requires p.insns == [Insn(Inc, 0, 0, 0)]
    ensures var c := Run(p, Fresh(p), 1); c.m.regs[0] == 1 && ReplayFromZero(p, c.trace).regs[0] == 0
  {
    hide Step;
    IncStep(p);
    var d := Run(p, Fresh(p), 1);
    assert d == Step(p, Run(p, Fresh(p), 0)).c;
    var zero := Registers(InitialMachine(p).regs, InitialMachine(p).tags);
    assert zero.regs[0] == 0;
    assert d.trace[..0] == [];
    assert Replay(zero, d.trace) == Redo(Replay(zero, []), NO_WRITE);
  }
}
