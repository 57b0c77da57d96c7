/** A validated program, all of whose operands are in range, that writes outside the memory. */
module StackOverrun {
  import opened Options
  import opened Isa
  import opened State
  import opened Loader
  import opened Semantics
  import opened Histories
  import opened Safety

  const ROUNDS: nat := 1281

  /**
   The first loop reserves one-word frames and pops the word of each, so that the frames pile up in one place; the
   second frees them all, which moves the stack pointer up a word each time, past the memory; then it pushes.
   */
  const OVERRUN: seq<Insn> :=
    [Insn(LoadImm, 2, ROUNDS, 0),
     Insn(StackAlloc, 1, 1, 0), Insn(Pop, 3, 0, 0), Insn(Dec, 2, 0, 0), Insn(JumpIfNotZero, 1, 0, 0),
     Insn(LoadImm, 2, ROUNDS, 0),
     Insn(StackFree, 1, 1, 0), Insn(Dec, 2, 0, 0), Insn(JumpIfNotZero, 6, 0, 0),
     Insn(Push, 3, 0, 0)]

  const STACK_LIMIT: nat := 266

  function Frames(k: nat): seq<Block> { seq(k, j => Block(STACK_LIMIT - 1, 1)) }

  /** The program is running at `pc` with the given stack pointer and frames. */
  predicate At(p: Image, c: Config, pc: nat, sp: nat, frames: seq<Block>) {
    && p.insns == OVERRUN && !c.m.halted && c.preload.None? && c.m.layout == LayoutFor(10) && |c.m.mem| == 1546
    && c.m.pc == pc && c.m.sp == sp && c.m.stackFrames == frames
  }

  lemma CodeOf(p: Image)
    requires p.insns == OVERRUN
    ensures |p.insns| == 10 && p.insns[1] == Insn(StackAlloc, 1, 1, 0) && p.insns[2] == Insn(Pop, 3, 0, 0)
    ensures p.insns[3] == p.insns[7] == Insn(Dec, 2, 0, 0)
    ensures p.insns[4] == Insn(JumpIfNotZero, 1, 0, 0) && p.insns[8] == Insn(JumpIfNotZero, 6, 0, 0)
    ensures p.insns[6] == Insn(StackFree, 1, 1, 0)
    ensures p.insns[0] == p.insns[5] == Insn(LoadImm, 2, ROUNDS, 0)
  {
  }

  lemma ExecByFamily(p: Image, m: Machine, i: Insn)
    ensures FamilyOf(i.opcode) == Family.Frames ==> Exec(p, m, i) == ExecFrames(m, i)
    ensures FamilyOf(i.opcode) == Family.Adjust ==> Exec(p, m, i) == ExecAdjust(m, i)
    ensures FamilyOf(i.opcode) == Family.Control ==> Exec(p, m, i) == ExecControl(p, m, i)
  {
  }

  lemma LoadImmStep(p: Image, c: Config, pc: nat, sp: nat, frames: seq<Block>)
    requires At(p, c, pc, sp, frames) && pc in {0, 5}
    ensures var d := Step(p, c).c; At(p, d, pc + 1, sp, frames) && d.m.regs == c.m.regs[2 := ROUNDS]
  {
  }

  lemma AllocOutcome(m: Machine)
    requires m.sp == STACK_LIMIT && m.layout.stack.start < STACK_LIMIT
    ensures var sp := STACK_LIMIT - 1;
      ExecFrames(m, Insn(StackAlloc, 1, 1, 0)) ==
        Commit(m.(regs := m.regs[1 := sp], tags := m.tags[1 := IntTag], sp := sp,
                  stackFrames := m.stackFrames + [Block(sp, 1)], pc := m.pc + 1),
               Recorded(1, sp, IntTag), Some(FrameChange))
  {
  }

  lemma Commits(p: Image, c: Config)
    requires Executing(p, c) && Exec(p, c.m, Current(p, c)).Commit?
    ensures Step(p, c).c.m == Exec(p, c.m, Current(p, c)).m && Step(p, c).c.preload == c.preload
  {
    hide Exec;
  }

  lemma StackStart(m: Machine)
    requires m.layout == LayoutFor(10)
    ensures m.layout.stack.start < STACK_LIMIT
  {
  }

  lemma AllocStep(p: Image, c: Config, frames: seq<Block>)
    requires At(p, c, 1, STACK_LIMIT, frames)
    ensures var d := Step(p, c).c;
      && At(p, d, 2, STACK_LIMIT - 1, frames + [Block(STACK_LIMIT - 1, 1)])
      && d.m.regs == c.m.regs[1 := STACK_LIMIT - 1]
  {
    hide Exec, ExecFrames, LayoutFor, OVERRUN, Step;
    CodeOf(p);
    StackStart(c.m);
    ExecByFamily(p, c.m, p.insns[1]);
    AllocOutcome(c.m);
    Commits(p, c);
  }

  lemma PopStep(p: Image, c: Config, frames: seq<Block>)
    requires At(p, c, 2, STACK_LIMIT - 1, frames)
    ensures var d := Step(p, c).c; At(p, d, 3, STACK_LIMIT, frames) && d.m.regs == c.m.regs[3 := d.m.regs[3]]
  {
    assert Exec(p, c.m, p.insns[2]) == ExecPop(c.m, p.insns[2]);
  }

  lemma DecStep(p: Image, c: Config, pc: nat, sp: nat, frames: seq<Block>)
    requires At(p, c, pc, sp, frames) && pc in {3, 7} && 1 <= c.m.regs[2] <= ROUNDS
    ensures var d := Step(p, c).c;
      && At(p, d, pc + 1, sp, frames) && d.m.regs == c.m.regs[2 := c.m.regs[2] - 1]
      && (d.m.flags.zero <==> d.m.regs[2] == 0)
  {
    hide Exec, LayoutFor, OVERRUN;
    CodeOf(p);
    ExecByFamily(p, c.m, p.insns[pc]);
  }

  lemma JumpStep(p: Image, c: Config, pc: nat, sp: nat, frames: seq<Block>)
    requires At(p, c, pc, sp, frames) && pc in {4, 8}
    ensures var d := Step(p, c).c;
      At(p, d, if c.m.flags.zero then pc + 1 else p.insns[pc].a, sp, frames) && d.m.regs == c.m.regs
  {
    hide Exec, LayoutFor, OVERRUN;
    CodeOf(p);
    ExecByFamily(p, c.m, p.insns[pc]);
  }

  lemma FreeStep(p: Image, c: Config, sp: nat, frames: seq<Block>)
    requires At(p, c, 6, sp, frames + [Block(STACK_LIMIT - 1, 1)]) && c.m.regs[1] == STACK_LIMIT - 1
    ensures var d := Step(p, c).c; At(p, d, 7, sp + 1, frames) && d.m.regs == c.m.regs
  {
    hide Exec, LayoutFor, OVERRUN;
    CodeOf(p);
    ExecByFamily(p, c.m, p.insns[6]);
  }

  /** `j` frames have been reserved and their words popped. */
  predicate Reserved(p: Image, c: Config, j: nat) {
    && At(p, c, if j < ROUNDS then 1 else 5, STACK_LIMIT, Frames(j))
    && c.m.regs[2] == ROUNDS - j && (j > 0 ==> c.m.regs[1] == STACK_LIMIT - 1)
  }

  lemma ReserveOneMore(p: Image, n: nat, j: nat)
    requires j < ROUNDS && Reserved(p, Run(p, Fresh(p), n), j)
    ensures Reserved(p, Run(p, Fresh(p), n + 4), j + 1)
  {
    hide Step, At;
    var c := Run(p, Fresh(p), n);
    AllocStep(p, c, Frames(j));
    assert Frames(j) + [Block(STACK_LIMIT - 1, 1)] == Frames(j + 1);
    PopStep(p, Run(p, Fresh(p), n + 1), Frames(j + 1));
    DecStep(p, Run(p, Fresh(p), n + 2), 3, STACK_LIMIT, Frames(j + 1));
    JumpStep(p, Run(p, Fresh(p), n + 3), 4, STACK_LIMIT, Frames(j + 1));
    AtProgram(p, c, 1, STACK_LIMIT, Frames(j));
  }

  lemma AtProgram(p: Image, c: Config, pc: nat, sp: nat, frames: seq<Block>)
    requires At(p, c, pc, sp, frames)
    ensures p.insns == OVERRUN
  {
  }

  lemma {:induction false} FirstLoop(p: Image, j: nat)
    requires p.insns == OVERRUN && j <= ROUNDS
    ensures Reserved(p, Run(p, Fresh(p), 1 + 4 * j), j)
  {
    hide Step;
    if j == 0 {
      assert Validate(p).None?;
      LoadImmStep(p, Fresh(p), 0, STACK_LIMIT, []);
      assert Run(p, Fresh(p), 1) == Step(p, Run(p, Fresh(p), 0)).c;
    } else {
      FirstLoop(p, j - 1);
      ReserveOneMore(p, 1 + 4 * (j - 1), j - 1);
    }
  }

  /** `j` frames have been freed. */
  predicate Freed(p: Image, c: Config, j: nat)
    requires j <= ROUNDS
  {
    && At(p, c, if j < ROUNDS then 6 else 9, STACK_LIMIT + j, Frames(ROUNDS - j))
    && c.m.regs[2] == ROUNDS - j && c.m.regs[1] == STACK_LIMIT - 1
  }

  lemma FreeOneMore(p: Image, n: nat, j: nat)
    requires j < ROUNDS && Freed(p, Run(p, Fresh(p), n), j)
    ensures Freed(p, Run(p, Fresh(p), n + 3), j + 1)
  {
    hide Step, At;
    var c := Run(p, Fresh(p), n);
    var rest := Frames(ROUNDS - j - 1);
    assert Frames(ROUNDS - j) == rest + [Block(STACK_LIMIT - 1, 1)];
    FreeStep(p, c, STACK_LIMIT + j, rest);
    DecStep(p, Run(p, Fresh(p), n + 1), 7, STACK_LIMIT + j + 1, rest);
    JumpStep(p, Run(p, Fresh(p), n + 2), 8, STACK_LIMIT + j + 1, rest);
    AtProgram(p, c, 6, STACK_LIMIT + j, Frames(ROUNDS - j));
  }

  lemma {:induction false} SecondLoop(p: Image, j: nat)
    requires p.insns == OVERRUN && j <= ROUNDS
    ensures Freed(p, Run(p, Fresh(p), 2 + 4 * ROUNDS + 3 * j), j)
  {
    hide Step, At;
    if j == 0 {
      FirstLoop(p, ROUNDS);
      LoadImmStep(p, Run(p, Fresh(p), 1 + 4 * ROUNDS), 5, STACK_LIMIT, Frames(ROUNDS));
    } else {
      SecondLoop(p, j - 1);
      FreeOneMore(p, 2 + 4 * ROUNDS + 3 * (j - 1), j - 1);
    }
  }

  /**
   The program validates and its operands are in range, yet after 8969 steps of a fresh interpreter it pushes one
   word past the end of the memory.
   */
  lemma ValidatedProgramOverruns(p: Image)
    requires p.insns == OVERRUN
    ensures Validate(p).None? && BInRange(p)
    ensures var c := Run(p, Fresh(p), 8969);
      OverrunsAt(p, c) && c.m.sp == |c.m.mem| + 1 && Step(p, c).status == UndefinedBehaviour(MemoryIndex)
  {
    hide Step;
    assert Validate(p).None?;
    SecondLoop(p, ROUNDS);
    RunIsHistory(p, Fresh(p), 8969);
    MemoryFaultIff(p, NO_WRITE, Steps(8969));
  }
}
