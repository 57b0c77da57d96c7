/** Memory remembers: what a load or a pop finds is what was last stored or pushed there. */
module MemoryWords {
  import opened Options
  import opened Isa
  import opened State
  import opened CodeSegment
  import opened Loader
  import opened Semantics
  import opened Effects
  import opened HeapTiling
  import opened Histories
  import opened StackDiscipline

  /** The word that a trap-free Store or Push in `c` puts at address `k`, if it writes there. */
  function WordWritten(p: Image, c: Config, k: nat): Option<int> {
    if !Executing(p, c) || !Step(p, c).status.Done? then None
    else
      var i := Current(p, c);
      if i.opcode.Store? && i.a == k && InFile(i.b) then Some(c.m.regs[i.b])
      else if i.opcode.Push? && c.m.sp == k + 1 && InFile(i.a) then Some(c.m.regs[i.a])
      else None
  }

  /** The word last written to address `k` along a history; zero when there was none. */
  function LastWord(p: Image, stale: Write, acts: seq<Action>, k: nat): int
    decreases |acts|
  {
    if acts == [] then 0
    else
      var front := acts[..|acts| - 1];
      var written := if acts[|acts| - 1].DoStep? then WordWritten(p, Reached(p, stale, front), k) else None;
      if written.Some? then written.value else LastWord(p, stale, front, k)
  }

  lemma StoreWrites(m: Machine, i: Insn)
    requires i.opcode.Store? && ExecStore(m, i).Commit?
    ensures InFile(i.b) && 0 <= i.a < |m.mem| && ExecStore(m, i).m.mem == m.mem[i.a := m.regs[i.b]]
  {
  }

  lemma StoreCommit(p: Image, m: Machine, i: Insn)
    requires i.opcode.Store?
    ensures Exec(p, m, i) == ExecStore(m, i)
  {
  }

  /** One step changes the word at `k` as it says. */
  lemma StepWrites(p: Image, c: Config, k: nat)
    requires k < |c.m.mem|
    ensures k < |Step(p, c).c.m.mem|
    ensures Step(p, c).c.m.mem[k] ==
      match WordWritten(p, c, k)
      case Some(v) => v
      case None => c.m.mem[k]
  {
    hide Exec, Orderly;
    StepMachine(p, c);
    if Executing(p, c) && Step(p, c).status.Done? {
      var i := Current(p, c);
      if i.opcode.Store? {
        StoreCommit(p, c.m, i);
        StoreWrites(c.m, i);
      } else if i.opcode.Push? {
        ExecMoves(p, c.m, i);
      } else {
        OthersKeepMemory(p, c.m, i);
      }
    }
  }

  lemma OthersKeepMemory(p: Image, m: Machine, i: Insn)
    requires !i.opcode.Store? && !i.opcode.Push? && Exec(p, m, i).Commit?
    ensures Exec(p, m, i).m.mem == m.mem
  {
    hide Exec;
    EveryInsnOrderly(p, m, i);
    if i.opcode.Load? || i.opcode.Pop? { ReadsLeaveMemory(p, m, i); }
  }

  lemma ZeroedMemory(p: Image, k: nat)
    ensures k < |InitialMachine(p).mem| ==> InitialMachine(p).mem[k] == 0
  {
  }

  /** In every reachable configuration each word of the memory is the one last written to it. */
  lemma {:induction false} MemoryRemembers(p: Image, stale: Write, acts: seq<Action>, k: nat)
    ensures var m := Reached(p, stale, acts).m;
      k < |m.mem| ==> m.mem[k] == LastWord(p, stale, acts, k)
  {
    hide Step;
    if acts == [] {
      ZeroedMemory(p, k);
    } else {
      var front := acts[..|acts| - 1];
      MemoryRemembers(p, stale, front, k);
      MemoryStaysMapped(p, stale, front);
      MemoryStaysMapped(p, stale, acts);
      if k < |Reached(p, stale, front).m.mem| { StepWrites(p, Reached(p, stale, front), k); }
    }
  }

  // ----- Reading back. -----

  /** A trap-free step that leaves `v` in register a under an Int tag and sets the flags from it. */
  predicate Reads(p: Image, c: Config, v: int) {
    && Executing(p, c) && InFile(Current(p, c).a)
    && var n := Step(p, c).c.m;
       && n.regs[Current(p, c).a] == v && n.tags[Current(p, c).a] == IntTag
       && n.flags == Flags(v == 0, v < 0, v > 0)
  }

  lemma LoadFinds(p: Image, m: Machine, i: Insn)
    requires i.opcode.Load? && Exec(p, m, i).Commit?
    ensures InFile(i.a) && 0 <= i.b < |m.mem|
    ensures var n := Exec(p, m, i).m;
      && n.regs[i.a] == m.mem[i.b] && n.tags[i.a] == IntTag
      && n.flags == Flags(m.mem[i.b] == 0, m.mem[i.b] < 0, m.mem[i.b] > 0)
  {
  }

  lemma PopFinds(p: Image, m: Machine, i: Insn)
    requires i.opcode.Pop? && Exec(p, m, i).Commit?
    ensures InFile(i.a) && m.sp < |m.mem|
    ensures var n := Exec(p, m, i).m;
      && n.regs[i.a] == m.mem[m.sp] && n.tags[i.a] == IntTag && n.sp == m.sp + 1
      && n.flags == Flags(m.mem[m.sp] == 0, m.mem[m.sp] < 0, m.mem[m.sp] > 0)
  {
  }

  /** A trap-free Load gives the word last written to the address. */
  lemma LoadReadsLastWord(p: Image, stale: Write, acts: seq<Action>)
    ensures var c := Reached(p, stale, acts);
      Executing(p, c) && Current(p, c).opcode.Load? && Step(p, c).status.Done? ==>
        0 <= Current(p, c).b < |c.m.mem| && Reads(p, c, LastWord(p, stale, acts, Current(p, c).b))
  {
    hide Exec, Orderly, Reached, LastWord;
    var c := Reached(p, stale, acts);
    if Executing(p, c) && Current(p, c).opcode.Load? && Step(p, c).status.Done? {
      StepMachine(p, c);
      LoadFinds(p, c.m, Current(p, c));
      MemoryRemembers(p, stale, acts, Current(p, c).b);
    }
  }

  /** A trap-free Pop gives the word last written where `sp` points. */
  lemma PopReadsLastWord(p: Image, stale: Write, acts: seq<Action>)
    ensures var c := Reached(p, stale, acts);
      Executing(p, c) && Current(p, c).opcode.Pop? && Step(p, c).status.Done? ==>
        && Reads(p, c, LastWord(p, stale, acts, c.m.sp)) && Step(p, c).c.m.sp == c.m.sp + 1
  {
    hide Exec, Orderly, Reached, LastWord;
    var c := Reached(p, stale, acts);
    if Executing(p, c) && Current(p, c).opcode.Pop? && Step(p, c).status.Done? {
      StepMachine(p, c);
      PopFinds(p, c.m, Current(p, c));
      MemoryRemembers(p, stale, acts, c.m.sp);
    }
  }
}
