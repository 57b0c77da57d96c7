/** The exact cost of the counting loop that the performance check runs. */
module Benchmark {
  import opened Options
  import opened Isa
  import opened State
  import opened Loader
  import opened Semantics
  import opened Histories
  import opened Runs
  import opened Lexical
  import opened OpcodeNames
  import opened TextReader

  function Loop(n: int): seq<Insn> {
    [Insn(LoadImm, 0, n, 0), Insn(LoadImm, 1, 1, 0), Insn(Add, 2, 2, 1), Insn(Dec, 0, 0, 0),
     Insn(JumpIfNotZero, 2, 0, 0), Insn(Halt, 0, 0, 0)]
  }

  /** The program counter and the three registers. */
  predicate Holds(c: Config, pc: nat, r0: int, r1: int, r2: int) {
    && !c.m.halted && c.preload.None? && c.m.pc == pc
    && c.m.regs[0] == r0 && c.m.regs[1] == r1 && c.m.regs[2] == r2
  }

  /** The configuration after `j` steps of the loop with `n` iterations. */
  predicate At(n: int, j: nat, c: Config) {
    c.steps == j && if j == 0 then Holds(c, 0, 0, 0, 0)
    else if j == 1 then Holds(c, 1, n, 0, 0)
    else if j >= 3 * n + 2 then Holds(c, 5, 0, 1, n)
    else
      var k := (j - 2) / 3;
      if (j - 2) % 3 == 0 then Holds(c, 2, n - k, 1, k)
      else if (j - 2) % 3 == 1 then Holds(c, 3, n - k, 1, k + 1)
      else Holds(c, 4, n - k - 1, 1, k + 1) && (c.m.flags.zero <==> n - k - 1 == 0)
  }

  lemma LoadImmStep(p: Image, c: Config, n: int)
    requires p.insns == Loop(n) && !c.m.halted && c.preload.None? && c.m.pc < 2
    ensures var r, i := Step(p, c), p.insns[c.m.pc];
      && r.status.Done? && r.c.steps == c.steps + 1 && !r.c.m.halted && r.c.preload.None?
      && r.c.m.pc == c.m.pc + 1 && r.c.m.regs == c.m.regs[i.a := i.b]
  {
    assert Exec(p, c.m, p.insns[c.m.pc]) == ExecMove(c.m, p.insns[c.m.pc]);
  }

  lemma AddStep(p: Image, c: Config, n: int)
    requires p.insns == Loop(n) && !c.m.halted && c.preload.None? && c.m.pc == 2
    requires Signed64(c.m.regs[2] + c.m.regs[1])
    ensures var r := Step(p, c);
      && r.status.Done? && r.c.steps == c.steps + 1 && !r.c.m.halted && r.c.preload.None?
      && r.c.m.pc == 3 && r.c.m.regs == c.m.regs[2 := c.m.regs[2] + c.m.regs[1]]
  {
    assert Exec(p, c.m, p.insns[2]) == ExecArithmetic(c.m, p.insns[2]);
  }

  lemma DecStep(p: Image, c: Config, n: int)
    requires p.insns == Loop(n) && !c.m.halted && c.preload.None? && c.m.pc == 3
    requires Signed64(c.m.regs[0] - 1)
    ensures var r := Step(p, c);
      && r.status.Done? && r.c.steps == c.steps + 1 && !r.c.m.halted && r.c.preload.None?
      && r.c.m.pc == 4 && r.c.m.regs == c.m.regs[0 := c.m.regs[0] - 1]
      && (r.c.m.flags.zero <==> c.m.regs[0] - 1 == 0)
  {
    assert Exec(p, c.m, p.insns[3]) == ExecAdjust(c.m, p.insns[3]);
  }

  lemma JumpStep(p: Image, c: Config, n: int)
    requires p.insns == Loop(n) && !c.m.halted && c.preload.None? && c.m.pc == 4
    ensures var r := Step(p, c);
      && r.status.Done? && r.c.steps == c.steps + 1 && !r.c.m.halted && r.c.preload.None?
      && r.c.m.pc == (if c.m.flags.zero then 5 else 2) && r.c.m.regs == c.m.regs
  {
    assert Exec(p, c.m, p.insns[4]) == ExecJump(p, c.m, p.insns[4]);
  }

  lemma HaltStep(p: Image, c: Config, n: int)
    requires p.insns == Loop(n) && !c.m.halted && c.preload.None? && c.m.pc == 5
    ensures var r := Step(p, c);
      r.status.Done? && r.c.steps == c.steps + 1 && r.c.m.halted && r.c.m.regs == c.m.regs
  {
    assert Exec(p, c.m, p.insns[5]) == Next(c.m.(halted := true));
  }

  lemma Advances(p: Image, c: Config, n: int, j: nat)
    requires p.insns == Loop(n) && 1 <= n <= INT64_MAX && j < 3 * n + 2 && At(n, j, c)
    ensures Step(p, c).status.Done? && At(n, j + 1, Step(p, c).c)
  {
    hide Step;
    if j < 2 { LoadImmStep(p, c, n); }
    else if (j - 2) % 3 == 0 { AddStep(p, c, n); }
    else if (j - 2) % 3 == 1 { DecStep(p, c, n); }
    else { JumpStep(p, c, n); }
  }

  lemma {:induction false} Reaches(p: Image, n: int, j: nat)
    requires p.insns == Loop(n) && 1 <= n <= INT64_MAX && j <= 3 * n + 2
    ensures At(n, j, Run(p, Fresh(p), j))
  {
    hide Step;
    if j == 0 {
    } else {
      Reaches(p, n, j - 1);
      Advances(p, Run(p, Fresh(p), j - 1), n, j - 1);
    }
  }

  /**
   The loop with `n` iterations halts after exactly 3n + 3 steps, having counted to `n`; `run_to_halt` succeeds
   if and only if its budget is at least that.
   */
  lemma LoopCost(p: Image, n: int, budget: nat)
    requires p.insns == Loop(n) && 1 <= n <= INT64_MAX
    ensures var k := 3 * n + 3; var c := Run(p, Fresh(p), k);
      && c.m.halted && c.m.regs[0] == 0 && c.m.regs[1] == 1 && c.m.regs[2] == n && c.gcCycles == k / 64
      && RunToHalt(p, Fresh(p), budget) ==
           if budget >= k then RunResult(c, Halted) else RunResult(Run(p, Fresh(p), budget), OutOfBudget)
  {
    hide Step;
    var k: nat := 3 * n + 3;
    Reaches(p, n, k - 1);
    var last := Run(p, Fresh(p), k - 1);
    HaltStep(p, last, n);
    forall j | 0 <= j < k
      ensures Step(p, Run(p, Fresh(p), j)).status.Done? && !Run(p, Fresh(p), j).m.halted
    {
      Reaches(p, n, j);
      if j < k - 1 { Advances(p, Run(p, Fresh(p), j), n, j); }
    }
    RunIsHistory(p, Fresh(p), k);
    AccountsHold(p, NO_WRITE, Steps(k));
    RunToHaltExactly(p, Fresh(p), k, budget);
  }

  // ----- The loop as the performance check writes it. -----

  function Written(spelling: string, insn: Insn): Line { InsnLine("", spelling, insn, (" ", " ", " "), "") }

  function LoopLines(n: int): seq<Line> {
    [Written("LoadImm", Insn(LoadImm, 0, n, 0)), Written("LoadImm", Insn(LoadImm, 1, 1, 0)),
     Written("Add", Insn(Add, 2, 2, 1)), Written("Dec", Insn(Dec, 0, 0, 0)),
     Written("JumpIfNotZero", Insn(JumpIfNotZero, 2, 0, 0)), Written("Halt", Insn(Halt, 0, 0, 0))]
  }

  /** Spelling and name differ only in case. */
  predicate Recased(spelling: string, name: string) {
    |spelling| == |name| && forall k :: 0 <= k < |spelling| ==> Upper(spelling[k]) == Upper(name[k])
  }

  lemma Spellings()
    ensures Recased("LoadImm", "LOADIMM") && Recased("JumpIfNotZero", "JUMPIFNOTZERO")
    ensures Recased("Add", "ADD") && Recased("Dec", "DEC") && Recased("Halt", "HALT")
  {
  }

  lemma WrittenValid(spelling: string, name: string, insn: Insn)
    requires Recased(spelling, name) && Names(name, insn.opcode)
    requires Signed64(insn.a) && Signed64(insn.b) && Signed64(insn.c)
    ensures ValidLine(Written(spelling, insn))
  {
    hide Lookup, Normalised;
    CaseIgnored(spelling, name);
    NamesAreNormal(name);
  }

  lemma LoopLinesValid(n: int)
    requires Signed64(n)
    ensures forall k :: 0 <= k < 6 ==> ValidLine(LoopLines(n)[k])
  {
    hide ValidLine, Recased, Names;
    Spellings();
    ThreeToJNames();
    FourToLNames();
    SevenToLNames();
    ThirteenNames();
    WrittenValid("LoadImm", "LOADIMM", Insn(LoadImm, 0, n, 0));
    WrittenValid("LoadImm", "LOADIMM", Insn(LoadImm, 1, 1, 0));
    WrittenValid("Add", "ADD", Insn(Add, 2, 2, 1));
    WrittenValid("Dec", "DEC", Insn(Dec, 0, 0, 0));
    WrittenValid("JumpIfNotZero", "JUMPIFNOTZERO", Insn(JumpIfNotZero, 2, 0, 0));
    WrittenValid("Halt", "HALT", Insn(Halt, 0, 0, 0));
  }

  /** The text of the performance check reads as the loop. */
  lemma LoopTextReads(n: int)
    requires Signed64(n)
    ensures ReadLines(NOTHING_READ, LinesOf(DocumentText(LoopLines(n)))) == Loaded(TextProgram("", Loop(n)))
  {
    hide ValidLine, DocumentText, LinesOf, ReadLines;
    LoopLinesValid(n);
    DocumentReads(NOTHING_READ, LoopLines(n));
    MeaningOfInsns(NOTHING_READ, LoopLines(n), Loop(n));
    assert [] + Loop(n) == Loop(n);
  }
}
