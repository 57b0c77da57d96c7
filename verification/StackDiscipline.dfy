/** The stack segment over whole runs: conservation, and what disciplined programs are guaranteed. */
module StackDiscipline {
  import opened Options
  import opened Isa
  import opened State
  import opened Loader
  import opened Semantics
  import opened Effects
  import opened Histories

  function FrameTotal(frames: seq<Block>): nat {
    if frames == [] then 0 else FrameTotal(frames[..|frames| - 1]) + frames[|frames| - 1].size
  }

  /** How many pushes a trace reports. */
  function Pushes(trace: seq<TraceEntry>): nat {
    if trace == [] then 0
    else
      var e := trace[|trace| - 1];
      Pushes(trace[..|trace| - 1]) + if e.trap.None? && e.opcode.Push? then 1 else 0
  }

  /** How many pops a trace reports. */
  function Pops(trace: seq<TraceEntry>): nat {
    if trace == [] then 0
    else
      var e := trace[|trace| - 1];
      Pops(trace[..|trace| - 1]) + if e.trap.None? && e.opcode.Pop? then 1 else 0
  }

  /** How a committed instruction moves the stack pointer and the frames. */
  predicate StackMove(i: Insn, m: Machine, n: Machine) {
    match i.opcode
    case Push =>
      && m.sp > m.layout.stack.start && n.sp == m.sp - 1 && n.sp < |m.mem| && n.stackFrames == m.stackFrames
      && InFile(i.a) && n.mem == m.mem[n.sp := m.regs[i.a]]
    case Pop => m.sp < m.layout.stack.limit && n.sp == m.sp + 1 && n.stackFrames == m.stackFrames
    case StackAlloc =>
      && 0 < i.b <= m.sp && n.sp == m.sp - i.b && n.sp >= m.layout.stack.start
      && n.stackFrames == m.stackFrames + [Block(n.sp, i.b)]
    case StackFree =>
      && m.stackFrames != [] && n.sp == m.sp + m.stackFrames[|m.stackFrames| - 1].size
      && n.stackFrames == m.stackFrames[..|m.stackFrames| - 1]
    case _ => n.sp == m.sp && n.stackFrames == m.stackFrames
  }

  lemma MemoryMoves(m: Machine, i: Insn)
    requires FamilyOf(i.opcode) == Memory && ExecMemory(m, i).Commit?
    ensures StackMove(i, m, ExecMemory(m, i).m)
  {
  }

  lemma FramesMove(m: Machine, i: Insn)
    requires FamilyOf(i.opcode) == Frames && ExecFrames(m, i).Commit?
    ensures StackMove(i, m, ExecFrames(m, i).m)
  {
  }

  lemma ExecMoves(p: Image, m: Machine, i: Insn)
    requires Exec(p, m, i).Commit?
    ensures StackMove(i, m, Exec(p, m, i).m) && Exec(p, m, i).m.layout == m.layout
  {
    hide StackMove, ExecMemory, ExecFrames;
    EveryInsnOrderly(p, m, i);
    match FamilyOf(i.opcode) {
      case Memory => MemoryMoves(m, i);
      case Frames => FramesMove(m, i);
      case _ => OtherMoves(i, m, Exec(p, m, i).m);
    }
  }

  lemma OtherMoves(i: Insn, m: Machine, n: Machine)
    requires FamilyOf(i.opcode) != Memory && FamilyOf(i.opcode) != Frames && Framed(FamilyOf(i.opcode), m, n)
    ensures StackMove(i, m, n)
  {
  }

  // ----- Conservation. -----

  /** What leaves the stack pointer is in frames, or has been pushed and not popped. */
  predicate Conserved(c: Config) {
    && c.m.sp + FrameTotal(c.m.stackFrames) + Pushes(c.trace) == c.m.layout.stack.limit + Pops(c.trace)
    && c.m.layout.stack.start <= c.m.sp
  }

  lemma TraceSnoc(t: seq<TraceEntry>, u: seq<TraceEntry>)
    requires |u| == |t| + 1 && u[..|t|] == t
    ensures Pushes(u) == Pushes(t) + if u[|t|].trap.None? && u[|t|].opcode.Push? then 1 else 0
    ensures Pops(u) == Pops(t) + if u[|t|].trap.None? && u[|t|].opcode.Pop? then 1 else 0
  {
  }

  lemma FrameSnoc(frames: seq<Block>, b: Block)
    ensures FrameTotal(frames + [b]) == FrameTotal(frames) + b.size
  {
    assert (frames + [b])[..|frames|] == frames;
  }

  /** A committed instruction conserves the stack pointer plus the frames, up to the word pushed or popped. */
  lemma MoveConserves(i: Insn, m: Machine, n: Machine)
    requires StackMove(i, m, n) && m.layout.stack.start <= m.sp
    ensures n.sp + FrameTotal(n.stackFrames) + (if i.opcode.Push? then 1 else 0)
         == m.sp + FrameTotal(m.stackFrames) + if i.opcode.Pop? then 1 else 0
    ensures m.layout.stack.start <= n.sp
  {
    if i.opcode.StackAlloc? { FrameSnoc(m.stackFrames, Block(n.sp, i.b)); }
  }

  lemma StepConserves(p: Image, c: Config)
    requires Conserved(c)
    ensures Conserved(Step(p, c).c) && Step(p, c).c.m.layout == c.m.layout
  {
    hide Exec, Orderly, StackMove, FrameTotal, Pushes, Pops;
    var d := Step(p, c).c;
    StepMachine(p, c);
    StepTraced(p, c);
    if |d.trace| == |c.trace| + 1 { TraceSnoc(c.trace, d.trace); }
    if Executing(p, c) && Step(p, c).status.Done? {
      ExecMoves(p, c.m, Current(p, c));
      MoveConserves(Current(p, c), c.m, d.m);
    }
  }

  /** Stack conservation and the lower bound of `sp`, in every reachable configuration. */
  lemma {:induction false} StackIsConserved(p: Image, stale: Write, acts: seq<Action>)
    ensures var c := Reached(p, stale, acts);
      Conserved(c) && c.m.layout == LayoutFor(|p.insns|)
  {
    hide Step;
    if acts == [] {
    } else {
      StackIsConserved(p, stale, acts[..|acts| - 1]);
      StepConserves(p, Reached(p, stale, acts[..|acts| - 1]));
    }
  }

  /** The stack pointer is inside its segment exactly when pops have not outrun pushes and live frames. */
  lemma SpInsideIff(p: Image, stale: Write, acts: seq<Action>)
    ensures var c := Reached(p, stale, acts);
      c.m.sp <= c.m.layout.stack.limit <==> Pops(c.trace) <= Pushes(c.trace) + FrameTotal(c.m.stackFrames)
  {
    hide Step, Reached;
    StackIsConserved(p, stale, acts);
  }

  /** A StackFree about to succeed that moves the stack pointer above the segment. */
  predicate OvershootsAt(p: Image, c: Config) {
    && Executing(p, c) && Current(p, c).opcode.StackFree? && InFile(Current(p, c).a) && c.m.stackFrames != []
    && var top := c.m.stackFrames[|c.m.stackFrames| - 1];
       && ToSize(c.m.regs[Current(p, c).a]) == top.base && Requested(Current(p, c)) == top.size
       && c.m.sp + top.size > c.m.layout.stack.limit
  }

  lemma FreeMovesUp(p: Image, m: Machine, i: Insn)
    requires i.opcode.StackFree? && Exec(p, m, i).Commit?
    ensures InFile(i.a) && m.stackFrames != []
    ensures var top := m.stackFrames[|m.stackFrames| - 1];
      ToSize(m.regs[i.a]) == top.base && Requested(i) == top.size && Exec(p, m, i).m.sp == m.sp + top.size
  {
  }

  lemma MatchingFree(p: Image, m: Machine, i: Insn)
    requires i.opcode.StackFree? && InFile(i.a) && m.stackFrames != []
    requires var top := m.stackFrames[|m.stackFrames| - 1];
      ToSize(m.regs[i.a]) == top.base && Requested(i) == top.size
    ensures Exec(p, m, i).Commit?
  {
  }

  /** From a stack pointer inside the segment, a step moves it above exactly by such a StackFree. */
  lemma StepOvershootsIff(p: Image, c: Config)
    requires c.m.sp <= c.m.layout.stack.limit
    ensures var d := Step(p, c).c;
      d.m.layout == c.m.layout && (d.m.sp > d.m.layout.stack.limit <==> OvershootsAt(p, c))
  {
    hide Exec, Orderly;
    StepMachine(p, c);
    if Executing(p, c) {
      var i := Current(p, c);
      if Step(p, c).status.Done? {
        ExecMoves(p, c.m, i);
        if i.opcode.StackFree? { FreeMovesUp(p, c.m, i); }
      }
      if OvershootsAt(p, c) { MatchingFree(p, c.m, i); }
    }
  }

  // ----- Discipline. -----

  /** Live frames lie below one another inside the stack segment, and the stack pointer below the last of them. */
  ghost predicate Tidy(m: Machine) {
    var stack := m.layout.stack;
    && stack.start <= m.sp <= stack.limit
    && (forall k :: 0 <= k < |m.stackFrames| ==>
          && stack.start <= m.stackFrames[k].base && 0 < m.stackFrames[k].size
          && m.stackFrames[k].base + m.stackFrames[k].size <= stack.limit
          && m.stackFrames[k].base + m.stackFrames[k].size <= if k == 0 then stack.limit else m.stackFrames[k - 1].base)
    && (m.stackFrames != [] ==> m.sp <= m.stackFrames[|m.stackFrames| - 1].base)
  }

  /** A pop about to succeed while a frame is live takes a word that was pushed after the frame was allocated. */
  predicate DisciplinedAt(p: Image, c: Config) {
    Executing(p, c) && Current(p, c).opcode.Pop? && InFile(Current(p, c).a)
    && c.m.sp < c.m.layout.stack.limit && c.m.sp < |c.m.mem| && c.m.stackFrames != [] ==>
      c.m.sp < c.m.stackFrames[|c.m.stackFrames| - 1].base
  }

  ghost predicate Disciplined(p: Image, c: Config, acts: seq<Action>) {
    forall k :: 0 <= k < |acts| && acts[k].DoStep? ==> DisciplinedAt(p, Play(p, c, acts[..k]))
  }

  lemma PopSucceeds(p: Image, m: Machine, i: Insn)
    requires i.opcode.Pop?
    ensures Exec(p, m, i).Commit? <==> InFile(i.a) && m.sp < m.layout.stack.limit && m.sp < |m.mem|
  {
  }

  /** One step keeps the stack tidy if and only if it is not an undisciplined pop. */
  lemma StepTidyIff(p: Image, c: Config)
    requires Tidy(c.m)
    ensures Tidy(Step(p, c).c.m) <==> DisciplinedAt(p, c)
  {
    hide Exec, Orderly;
    StepMachine(p, c);
    if Executing(p, c) && Current(p, c).opcode.Pop? { PopSucceeds(p, c.m, Current(p, c)); }
    if Executing(p, c) && Step(p, c).status.Done? {
      ExecMoves(p, c.m, Current(p, c));
      MoveTidyIff(Current(p, c), c.m, Step(p, c).c.m);
    }
  }

  lemma MoveTidyIff(i: Insn, m: Machine, n: Machine)
    requires Tidy(m) && StackMove(i, m, n) && n.layout == m.layout
    ensures Tidy(n) <==>
      (i.opcode.Pop? && m.stackFrames != [] ==> m.sp < m.stackFrames[|m.stackFrames| - 1].base)
  {
    var last := |m.stackFrames| - 1;
    match i.opcode {
      case StackAlloc =>
        forall k | 0 <= k < |n.stackFrames| ensures 0 < n.stackFrames[k].size {
          assert k <= last ==> n.stackFrames[k] == m.stackFrames[k];
        }
      case StackFree =>
        assert m.sp + m.stackFrames[last].size
            <= if last == 0 then m.layout.stack.limit else m.stackFrames[last - 1].base;
      case _ =>
    }
  }

  ghost predicate TidyThrough(p: Image, c: Config, acts: seq<Action>) {
    forall k :: 0 <= k <= |acts| ==> Tidy(Play(p, c, acts[..k]).m)
  }

  lemma ActTidyIff(p: Image, c: Config, a: Action)
    requires Tidy(c.m)
    ensures Tidy(Act(p, c, a).m) <==> (a.DoStep? ==> DisciplinedAt(p, c))
  {
    hide Step, DisciplinedAt;
    if a.DoStep? { StepTidyIff(p, c); }
  }

  /** The stack stays tidy along a whole history if and only if every pop of the history is disciplined. */
  lemma TidyHistoryIffDisciplined(p: Image, c: Config, acts: seq<Action>)
    requires Tidy(c.m)
    ensures TidyThrough(p, c, acts) <==> Disciplined(p, c, acts)
  {
    hide Act, Play, Tidy, DisciplinedAt;
    var good := (d: Config) => Tidy(d.m);
    var ok := (d: Config, a: Action) => a.DoStep? ==> DisciplinedAt(p, d);
    forall d: Config, a: Action | good(d)
      ensures good(Act(p, d, a)) <==> ok(d, a)
    {
      ActTidyIff(p, d, a);
    }
    ThroughoutIff(p, c, acts, good, ok);
    assert TidyThrough(p, c, acts) <==> Throughout(p, c, acts, good);
    assert Disciplined(p, c, acts) <==> AtEach(p, c, acts, ok);
  }

  /** A disciplined history of a loaded program keeps its stack tidy; in particular `sp` never leaves the segment. */
  lemma DisciplinedProgramsStayTidy(p: Image, stale: Write, acts: seq<Action>)
    requires Disciplined(p, LoadWith(p, stale), acts)
    ensures Tidy(Reached(p, stale, acts).m)
  {
    hide Step, Disciplined;
    TidyHistoryIffDisciplined(p, LoadWith(p, stale), acts);
    assert acts[..|acts|] == acts;
  }

  /** Live frames of a tidy stack are pairwise disjoint. */
  lemma {:induction false} TidyFramesDisjoint(m: Machine, j: nat, k: nat)
    requires Tidy(m) && j < k < |m.stackFrames|
    ensures m.stackFrames[k].base + m.stackFrames[k].size <= m.stackFrames[j].base
    decreases k
  {
    if j == k - 1 {
    } else {
      TidyFramesDisjoint(m, j, k - 1);
    }
  }

  /** A push on a tidy stack changes one word, inside the stack segment and outside every live frame. */
  lemma PushStaysClear(p: Image, c: Config)
    requires Tidy(c.m) && Executing(p, c) && Current(p, c).opcode.Push? && Step(p, c).status.Done?
    ensures var n := Step(p, c).c.m;
      && InFile(Current(p, c).a) && n.sp < |c.m.mem|
      && n.mem == c.m.mem[n.sp := c.m.regs[Current(p, c).a]]
      && c.m.layout.stack.Contains(n.sp)
      && forall k :: 0 <= k < |c.m.stackFrames| ==> n.sp < c.m.stackFrames[k].base
  {
    hide Exec, Orderly;
    StepMachine(p, c);
    ExecMoves(p, c.m, Current(p, c));
    forall k | 0 <= k < |c.m.stackFrames|
      ensures Step(p, c).c.m.sp < c.m.stackFrames[k].base
    {
      if k < |c.m.stackFrames| - 1 { TidyFramesDisjoint(c.m, k, |c.m.stackFrames| - 1); }
    }
  }

  lemma MemoryCommit(p: Image, m: Machine, i: Insn)
    requires FamilyOf(i.opcode) == Memory
    ensures Exec(p, m, i) == ExecMemory(m, i)
  {
  }

  /** Exactly one kind of instruction indexes the memory out of range: a push with `sp` beyond the memory. */
  lemma MemoryIndexIff(p: Image, m: Machine, i: Insn)
    requires m.layout.stack.start <= m.layout.stack.limit <= |m.mem|
    ensures Exec(p, m, i) == Undefined(MemoryIndex) <==> i.opcode.Push? && InFile(i.a) && m.sp > |m.mem|
  {
    if FamilyOf(i.opcode) == Memory {
      hide Exec;
      MemoryCommit(p, m, i);
    }
  }

  /** With a tidy stack inside the memory, no instruction indexes the memory out of range. */
  lemma TidyStackAccessesDefined(p: Image, m: Machine, i: Insn)
    requires Tidy(m) && m.layout.stack.limit <= |m.mem|
    ensures Exec(p, m, i) != Undefined(MemoryIndex)
  {
    hide Exec;
    MemoryIndexIff(p, m, i);
  }

  // ----- Without discipline. -----

  /** A program that pops the word of its own frame before freeing the frame. */
  const POPS_ITS_FRAME: seq<Insn> :=
    [Insn(StackAlloc, 0, 1, 0), Insn(Pop, 1, 0, 0), Insn(StackFree, 0, 1, 0)]

  /** Running `POPS_ITS_FRAME`: before its Pop the frame is live and empty of pushes, after it `sp` is at the limit. */
  predicate AtPop(p: Image, c: Config) {
    && Executing(p, c) && c.m.pc == 1 && c.m.layout == LayoutFor(3) && |c.m.mem| == c.m.layout.TotalSize()
    && c.m.sp == c.m.regs[0] == 258 && c.m.stackFrames == [Block(258, 1)]
  }

  predicate AtFree(p: Image, c: Config) {
    && Executing(p, c) && c.m.pc == 2 && c.m.layout == LayoutFor(3)
    && c.m.sp == 259 && c.m.regs[0] == 258 && c.m.stackFrames == [Block(258, 1)]
  }

  lemma AllocReachesPop(p: Image)
    requires p.insns == POPS_ITS_FRAME
    ensures Validate(p).None? && AtPop(p, Step(p, Fresh(p)).c)
  {
    assert Exec(p, InitialMachine(p), p.insns[0]) == ExecStackAlloc(InitialMachine(p), p.insns[0]);
  }

  lemma PopReachesFree(p: Image, c: Config)
    requires p.insns == POPS_ITS_FRAME && AtPop(p, c)
    ensures AtFree(p, Step(p, c).c) && !DisciplinedAt(p, c)
  {
    assert Exec(p, c.m, p.insns[1]) == ExecPop(c.m, p.insns[1]);
  }

  lemma FreeOvershoots(p: Image, c: Config)
    requires p.insns == POPS_ITS_FRAME && AtFree(p, c)
    ensures Step(p, c).c.m.sp == c.m.layout.stack.limit + 1
  {
    assert Exec(p, c.m, p.insns[2]) == ExecStackFree(c.m, p.insns[2]);
  }

  /** It validates, and after three steps its stack pointer is above the stack segment. */
  lemma UndisciplinedPopOvershoots(p: Image)
    requires p.insns == POPS_ITS_FRAME
    ensures Validate(p).None? && !Disciplined(p, Fresh(p), Steps(3))
    ensures Run(p, Fresh(p), 3).m.sp == LayoutFor(3).stack.limit + 1
  {
    hide Step, DisciplinedAt;
    AllocReachesPop(p);
    assert Run(p, Fresh(p), 1) == Step(p, Run(p, Fresh(p), 0)).c;
    PopReachesFree(p, Run(p, Fresh(p), 1));
    RunIsHistory(p, Fresh(p), 1);
    assert Steps(3)[1].DoStep? && Steps(3)[..1] == Steps(1);
    FreeOvershoots(p, Run(p, Fresh(p), 2));
  }
}
