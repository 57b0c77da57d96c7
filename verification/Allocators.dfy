/** The two allocators as seen by a program: the addresses it is given, and which frees are accepted. */
module Allocators {
  import opened Options
  import opened Isa
  import opened State
  import opened Loader
  import opened Semantics
  import opened Effects
  import opened Handles
  import opened HeapTiling
  import opened Histories
  import opened Overflow
  import opened StackDiscipline

  /** The last of the live blocks or frames. */
  function Newest(blocks: seq<Block>): Option<Block> {
    if blocks == [] then None else Some(blocks[|blocks| - 1])
  }

  /** Register a, taken as an unsigned word, and operand b, at least zero, name the given block. */
  predicate Names(m: Machine, i: Insn, block: Block)
    requires InFile(i.a)
  {
    m.regs[i.a] % 0x1_0000_0000_0000_0000 == block.base && (if i.b > 0 then i.b else 0) == block.size
  }

  // ----- Which frees are accepted. -----

  lemma HeapFreeOutcome(p: Image, m: Machine, i: Insn)
    requires i.opcode.HeapFree? && InFile(i.a)
    ensures var o := Exec(p, m, i);
      if m.heapFrames != [] && Names(m, i, m.heapFrames[|m.heapFrames| - 1]) then o.Commit?
      else o.Fault? && o.trap == DecodeFault
  {
  }

  lemma StackFreeOutcome(p: Image, m: Machine, i: Insn)
    requires i.opcode.StackFree? && InFile(i.a)
    ensures var o := Exec(p, m, i);
      if m.stackFrames != [] && Names(m, i, m.stackFrames[|m.stackFrames| - 1]) then o.Commit?
      else o.Fault? && o.trap == StackFault
  {
  }

  /** A HeapFree is accepted if and only if it names the newest block; otherwise it is a DecodeFault. */
  lemma HeapFreeIff(p: Image, c: Config)
    requires Executing(p, c) && Current(p, c).opcode.HeapFree? && InFile(Current(p, c).a)
    ensures Step(p, c).status ==
      match Newest(c.m.heapFrames)
      case None => Trapped(DecodeFault)
      case Some(block) => if Names(c.m, Current(p, c), block) then Done else Trapped(DecodeFault)
  {
    hide Exec;
    HeapFreeOutcome(p, c.m, Current(p, c));
    StepStatus(p, c);
  }

  /** A StackFree is accepted if and only if it names the newest frame; otherwise it is a StackFault. */
  lemma StackFreeIff(p: Image, c: Config)
    requires Executing(p, c) && Current(p, c).opcode.StackFree? && InFile(Current(p, c).a)
    ensures Step(p, c).status ==
      match Newest(c.m.stackFrames)
      case None => Trapped(StackFault)
      case Some(frame) => if Names(c.m, Current(p, c), frame) then Done else Trapped(StackFault)
  {
    hide Exec;
    StackFreeOutcome(p, c.m, Current(p, c));
    StepStatus(p, c);
  }

  // ----- The addresses given out. -----

  lemma HeapAllocLeaves(p: Image, m: Machine, i: Insn)
    requires i.opcode.HeapAlloc? && Exec(p, m, i).Commit?
    ensures InFile(i.a)
    ensures var n := Exec(p, m, i).m;
      && n.regs[i.a] == m.heapPtr && n.tags[i.a] == IntTag
      && i.b > 0 && m.heapPtr + i.b <= m.layout.heap.limit && n.heapFrames == m.heapFrames + [Block(m.heapPtr, i.b)]
  {
  }

  lemma StackAllocLeaves(p: Image, m: Machine, i: Insn)
    requires i.opcode.StackAlloc? && Exec(p, m, i).Commit?
    ensures InFile(i.a)
    ensures var n := Exec(p, m, i).m;
      && i.b > 0 && m.sp - i.b >= m.layout.stack.start && n.regs[i.a] == m.sp - i.b && n.tags[i.a] == IntTag
      && n.sp == m.sp - i.b && n.stackFrames == m.stackFrames + [Block(m.sp - i.b, i.b)]
  {
  }

  /** A trap-free HeapAlloc is about to be executed. */
  predicate HeapAllocates(p: Image, c: Config) {
    Executing(p, c) && Current(p, c).opcode.HeapAlloc? && Step(p, c).status.Done?
  }

  predicate StackAllocates(p: Image, c: Config) {
    Executing(p, c) && Current(p, c).opcode.StackAlloc? && Step(p, c).status.Done?
  }

  /** A trap-free HeapAlloc leaves the address of the newest block in register a; the block has the size asked for. */
  lemma HeapAllocGives(p: Image, c: Config)
    requires HeapAllocates(p, c)
    ensures InFile(Current(p, c).a)
    ensures var n := Step(p, c).c.m; var i := Current(p, c);
      && i.b > 0 && n.tags[i.a] == IntTag && n.regs[i.a] == c.m.heapPtr
      && Newest(n.heapFrames) == Some(Block(c.m.heapPtr, i.b)) && c.m.heapPtr + i.b <= c.m.layout.heap.limit
  {
    hide Exec, Orderly;
    StepMachine(p, c);
    HeapAllocLeaves(p, c.m, Current(p, c));
  }

  /** A trap-free StackAlloc leaves the address of the newest frame in register a, which is where `sp` now points. */
  lemma StackAllocGives(p: Image, c: Config)
    requires StackAllocates(p, c)
    ensures InFile(Current(p, c).a)
    ensures var n := Step(p, c).c.m; var i := Current(p, c);
      && i.b > 0 && n.tags[i.a] == IntTag && n.regs[i.a] == n.sp == c.m.sp - i.b >= c.m.layout.stack.start
      && Newest(n.stackFrames) == Some(Block(n.sp, i.b))
  {
    hide Exec, Orderly;
    StepMachine(p, c);
    StackAllocLeaves(p, c.m, Current(p, c));
  }

  // ----- An allocation and a free that names what it gave. -----

  /** The instruction in `d` repeats the size asked for in `c`, and its register a holds the address given in `c`. */
  predicate Repeats(p: Image, c: Config, d: Config) {
    && Executing(p, c) && Executing(p, d) && InFile(Current(p, c).a) && InFile(Current(p, d).a)
    && Current(p, d).b == Current(p, c).b
    && d.m.regs[Current(p, d).a] == Step(p, c).c.m.regs[Current(p, c).a]
  }

  /** A HeapFree is about to name the block that a HeapAlloc gave, and that block is the newest. */
  predicate HeapGoesBack(p: Image, c: Config, d: Config) {
    && HeapAllocates(p, c) && Repeats(p, c, d) && Current(p, d).opcode.HeapFree?
    && Newest(d.m.heapFrames) == Newest(Step(p, c).c.m.heapFrames)
  }

  predicate StackGoesBack(p: Image, c: Config, d: Config) {
    && StackAllocates(p, c) && Repeats(p, c, d) && Current(p, d).opcode.StackFree?
    && Newest(d.m.stackFrames) == Newest(Step(p, c).c.m.stackFrames)
  }

  /**
   What HeapAlloc gives, HeapFree takes back: whatever lies between, as long as the block is the newest, a HeapFree of
   the address given and the size asked for is accepted and sets the heap pointer back to that address.
   */
  lemma HeapBlockIsTakenBack(p: Image, stale: Write, acts: seq<Action>, d: Config)
    requires Feasible(p, acts) && HeapGoesBack(p, Reached(p, stale, acts), d)
    ensures var r := Step(p, d);
      && r.status.Done? && r.c.m.heapPtr == Reached(p, stale, acts).m.heapPtr
      && d.m.heapFrames != [] && r.c.m.heapFrames == d.m.heapFrames[..|d.m.heapFrames| - 1]
  {
    hide Step, Reached, Feasible;
    var c := Reached(p, stale, acts);
    ReachedSmall(p, stale, acts);
    HeapAllocGives(p, c);
    AddressIsWord(c.m.heapPtr);
    HeapFreeIff(p, d);
    StepMovesHeap(p, d);
  }

  lemma AddressIsWord(addr: nat)
    requires addr < HALF_RANGE
    ensures addr % 0x1_0000_0000_0000_0000 == addr
  {
  }

  /**
   What StackAlloc gives, StackFree takes back: it is accepted, releases the frame and moves `sp` up by its size; if
   `sp` is where the allocation put it, back to where it was before.
   */
  lemma StackFrameIsTakenBack(p: Image, stale: Write, acts: seq<Action>, d: Config)
    requires Feasible(p, acts) && StackGoesBack(p, Reached(p, stale, acts), d)
    ensures var c := Reached(p, stale, acts); var r := Step(p, d);
      && r.status.Done? && r.c.m.sp == d.m.sp + Current(p, c).b
      && (d.m.sp == Step(p, c).c.m.sp ==> r.c.m.sp == c.m.sp)
      && d.m.stackFrames != [] && r.c.m.stackFrames == d.m.stackFrames[..|d.m.stackFrames| - 1]
  {
    hide Step, Reached, Feasible, Exec, Orderly;
    var c := Reached(p, stale, acts);
    ReachedSmall(p, stale, acts);
    StackAllocGives(p, c);
    AddressIsWord(Step(p, c).c.m.sp);
    StackFreeIff(p, d);
    StepMovesStack(p, d);
  }

  lemma StepMovesStack(p: Image, d: Config)
    requires Executing(p, d) && Step(p, d).status.Done?
    ensures StackMove(Current(p, d), d.m, Step(p, d).c.m)
  {
    hide Exec, Orderly, StackMove;
    StepMachine(p, d);
    ExecMoves(p, d.m, Current(p, d));
  }
}
