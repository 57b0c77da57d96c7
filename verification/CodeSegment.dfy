/** The words of the code segment: what can change them. */
module CodeSegment {
  import opened Isa
  import opened State
  import opened Loader
  import opened Semantics
  import opened Effects
  import opened HeapTiling
  import opened Histories
  import opened StackDiscipline

  /** A Store of a new value into address `addr` is about to be executed. */
  predicate StoresInto(p: Image, c: Config, addr: nat) {
    && Executing(p, c) && Current(p, c).opcode.Store? && Current(p, c).a == addr && InFile(Current(p, c).b)
    && addr < |c.m.mem| && c.m.regs[Current(p, c).b] != c.m.mem[addr]
  }

  lemma StoreEffect(p: Image, m: Machine, i: Insn, addr: nat)
    requires i.opcode.Store? && addr < |m.mem| && (i.a == addr ==> ValidMem(m, addr))
    ensures var o := Exec(p, m, i);
      && (o.Commit? ==> |o.m.mem| == |m.mem|)
      && (o.Commit? && o.m.mem[addr] != m.mem[addr] <==>
            i.a == addr && InFile(i.b) && m.regs[i.b] != m.mem[addr])
  {
    assert Exec(p, m, i) == ExecStore(m, i);
  }

  lemma ReadsLeaveMemory(p: Image, m: Machine, i: Insn)
    requires i.opcode.Load? || i.opcode.Pop?
    ensures Exec(p, m, i).Commit? ==> Exec(p, m, i).m.mem == m.mem
  {
  }

  /** No instruction but Store writes below the stack segment. */
  lemma OthersLeaveCode(p: Image, m: Machine, i: Insn, addr: nat)
    requires !i.opcode.Store? && Exec(p, m, i).Commit? && addr < m.layout.stack.start && addr < |m.mem|
    ensures |Exec(p, m, i).m.mem| == |m.mem| && Exec(p, m, i).m.mem[addr] == m.mem[addr]
  {
    hide Exec;
    EveryInsnOrderly(p, m, i);
    ExecMoves(p, m, i);
    if i.opcode.Load? || i.opcode.Pop? { ReadsLeaveMemory(p, m, i); }
  }

  /**
   The code segment is not read-only, exactly: in a reachable configuration a step changes a word of the code
   segment if and only if it executes a Store of another value into it.
   */
  lemma CodeWordsChangeIff(p: Image, stale: Write, acts: seq<Action>, addr: nat)
    requires addr < |p.insns|
    ensures var c := Reached(p, stale, acts); var d := Step(p, c).c;
      && addr < |c.m.mem| == |d.m.mem| && SegmentOf(c.m.layout, addr) == Code
      && (d.m.mem[addr] != c.m.mem[addr] <==> StoresInto(p, c, addr))
  {
    hide Exec, Reached, Orderly, SegmentOf, ValidMem;
    var c := Reached(p, stale, acts);
    MemoryStaysMapped(p, stale, acts);
    SegmentsPartitionMemory(|p.insns|, addr);
    ValidMemIff(p, stale, acts, addr);
    StepKeepsMap(p, c);
    StepMachine(p, c);
    if Executing(p, c) {
      var i := Current(p, c);
      if i.opcode.Store? {
        StoreEffect(p, c.m, i, addr);
      } else if Step(p, c).status.Done? {
        OthersLeaveCode(p, c.m, i, addr);
      }
    }
  }

  /** A program that overwrites its own first word. */
  const OVERWRITES_ITSELF: seq<Insn> := [Insn(LoadImm, 0, 7, 0), Insn(Store, 0, 0, 0)]

  lemma LoadSeven(p: Image)
    requires p.insns == OVERWRITES_ITSELF
    ensures var c := Step(p, Fresh(p)).c;
      Validate(p).None? && Executing(p, c) && c.m.pc == 1 && c.m.regs[0] == 7 && c.m.mem == InitialMachine(p).mem
  {
    assert Exec(p, InitialMachine(p), p.insns[0]) == ExecMove(InitialMachine(p), p.insns[0]);
  }

  lemma StoreChangesCode(p: Image)
    requires p.insns == OVERWRITES_ITSELF
    ensures var c := Run(p, Fresh(p), 1);
      && Validate(p).None? && StoresInto(p, c, 0)
      && |Step(p, c).c.m.mem| > 0 && Step(p, c).c.m.mem[0] != c.m.mem[0]
  {
    hide Step;
    LoadSeven(p);
    assert Run(p, Fresh(p), 1) == Step(p, Run(p, Fresh(p), 0)).c;
    RunIsHistory(p, Fresh(p), 1);
    CodeWordsChangeIff(p, NO_WRITE, Steps(1), 0);
  }
}
