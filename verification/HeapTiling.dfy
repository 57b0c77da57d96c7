/** The partitioned memory and the heap allocator over whole runs. */
module HeapTiling {
  import opened Options
  import opened Isa
  import opened State
  import opened Loader
  import opened Semantics
  import opened Effects
  import opened Histories

  // ----- The segments. -----

  /** How many of the five segments contain an address. */
  function Owners(l: Layout, addr: nat): nat {
    (if l.code.Contains(addr) then 1 else 0) + (if l.stack.Contains(addr) then 1 else 0)
    + (if l.heap.Contains(addr) then 1 else 0) + (if l.tensor.Contains(addr) then 1 else 0)
    + (if l.meta.Contains(addr) then 1 else 0)
  }

  /** For every program length the five segments partition the memory. */
  lemma SegmentsPartitionMemory(codeSize: nat, addr: nat)
    ensures var l := LayoutFor(codeSize);
      && Owners(l, addr) == (if addr < l.TotalSize() then 1 else 0)
      && (SegmentOf(l, addr) == Unknown <==> addr >= l.TotalSize())
      && (SegmentOf(l, addr) == Code <==> addr < codeSize)
  {
  }

  /** The segments in order: the code, 256 words of stack, 768 of heap, 256 for tensors and 256 of meta data. */
  lemma SegmentsInOrder(codeSize: nat, addr: nat)
    ensures SegmentOf(LayoutFor(codeSize), addr) ==
      if addr < codeSize then Code
      else if addr < codeSize + 256 then Stack
      else if addr < codeSize + 1024 then Heap
      else if addr < codeSize + 1280 then TensorArea
      else if addr < codeSize + 1536 then Meta
      else Unknown
  {
  }

  /** The memory of a running program is the one its layout describes. */
  predicate Mapped(p: Image, m: Machine) {
    m.layout == LayoutFor(|p.insns|) && |m.mem| == m.layout.TotalSize()
  }

  lemma StepKeepsMap(p: Image, c: Config)
    requires Mapped(p, c.m)
    ensures Mapped(p, Step(p, c).c.m)
  {
    hide Exec;
    StepMachine(p, c);
  }

  /** Layout and memory size never change, whatever the program and the host do. */
  lemma {:induction false} MemoryStaysMapped(p: Image, stale: Write, acts: seq<Action>)
    ensures Mapped(p, Reached(p, stale, acts).m)
  {
    hide Step;
    if acts == [] {
    } else {
      MemoryStaysMapped(p, stale, acts[..|acts| - 1]);
      StepKeepsMap(p, Reached(p, stale, acts[..|acts| - 1]));
    }
  }

  /** In every reachable configuration an address is valid if and only if it indexes the memory. */
  lemma ValidMemIff(p: Image, stale: Write, acts: seq<Action>, addr: int)
    ensures var m := Reached(p, stale, acts).m; ValidMem(m, addr) <==> 0 <= addr < |m.mem|
  {
    hide Step, Reached;
    MemoryStaysMapped(p, stale, acts);
    if addr >= 0 { SegmentsPartitionMemory(|p.insns|, addr); }
  }

  // ----- The allocator. -----

  /** The blocks are non-empty, lie end to end from `from`, and end at `to`. */
  predicate Tiles(blocks: seq<Block>, from: nat, to: nat) {
    if blocks == [] then from == to
    else
      var last := blocks[|blocks| - 1];
      last.size > 0 && last.base + last.size == to && Tiles(blocks[..|blocks| - 1], from, last.base)
  }

  predicate HeapOk(m: Machine) {
    Tiles(m.heapFrames, m.layout.heap.start, m.heapPtr) && m.heapPtr <= m.layout.heap.limit
  }

  function HeapTotal(blocks: seq<Block>): nat {
    if blocks == [] then 0 else HeapTotal(blocks[..|blocks| - 1]) + blocks[|blocks| - 1].size
  }

  /** Tiling blocks account for exactly the addresses between the two ends. */
  lemma {:induction false} TilesTotal(blocks: seq<Block>, from: nat, to: nat)
    requires Tiles(blocks, from, to)
    ensures from + HeapTotal(blocks) == to
  {
    if blocks == [] {
    } else {
      TilesTotal(blocks[..|blocks| - 1], from, blocks[|blocks| - 1].base);
    }
  }

  /** Tiling blocks are in range, and each begins where the one before ends. */
  lemma {:induction false} TilesContiguous(blocks: seq<Block>, from: nat, to: nat, k: nat)
    requires Tiles(blocks, from, to) && k < |blocks|
    ensures 0 < blocks[k].size && from <= blocks[k].base && blocks[k].base + blocks[k].size <= to
    ensures blocks[k].base == if k == 0 then from else blocks[k - 1].base + blocks[k - 1].size
  {
    var rest := blocks[..|blocks| - 1];
    if k < |rest| {
      TilesContiguous(rest, from, blocks[|blocks| - 1].base, k);
    } else if k > 0 {
      TilesContiguous(rest, from, blocks[|blocks| - 1].base, k - 1);
    }
  }

  /** How a committed instruction moves the heap allocator. */
  predicate HeapMove(i: Insn, m: Machine, n: Machine) {
    match i.opcode
    case HeapAlloc =>
      && 0 < i.b && n.heapPtr == m.heapPtr + i.b <= m.layout.heap.limit
      && n.heapFrames == m.heapFrames + [Block(m.heapPtr, i.b)]
    case HeapFree =>
      && m.heapFrames != [] && n.heapPtr == m.heapFrames[|m.heapFrames| - 1].base
      && n.heapFrames == m.heapFrames[..|m.heapFrames| - 1]
    case _ => n.heapPtr == m.heapPtr && n.heapFrames == m.heapFrames
  }

  lemma FramesMoveHeap(m: Machine, i: Insn)
    requires FamilyOf(i.opcode) == Frames && ExecFrames(m, i).Commit?
    ensures HeapMove(i, m, ExecFrames(m, i).m)
  {
  }

  lemma ExecMovesHeap(p: Image, m: Machine, i: Insn)
    requires Exec(p, m, i).Commit?
    ensures HeapMove(i, m, Exec(p, m, i).m) && Exec(p, m, i).m.layout == m.layout
  {
    hide ExecFrames;
    EveryInsnOrderly(p, m, i);
    if FamilyOf(i.opcode) == Frames { FramesMoveHeap(m, i); }
    else { hide Exec; }
  }

  /** One step moves the allocator, or leaves it alone. */
  lemma StepMovesHeap(p: Image, c: Config)
    ensures var n := Step(p, c).c.m;
      if Executing(p, c) && Step(p, c).status.Done? then HeapMove(Current(p, c), c.m, n)
      else n.heapPtr == c.m.heapPtr && n.heapFrames == c.m.heapFrames
    ensures Step(p, c).c.m.layout == c.m.layout
  {
    hide Exec, Orderly, HeapMove;
    StepMachine(p, c);
    if Executing(p, c) && Step(p, c).status.Done? { ExecMovesHeap(p, c.m, Current(p, c)); }
  }

  lemma MoveKeepsHeap(i: Insn, m: Machine, n: Machine)
    requires HeapOk(m) && HeapMove(i, m, n) && n.layout == m.layout
    ensures HeapOk(n)
  {
    if i.opcode.HeapAlloc? {
      assert n.heapFrames[..|m.heapFrames|] == m.heapFrames;
    } else if i.opcode.HeapFree? {
      TilesTotal(m.heapFrames, m.layout.heap.start, m.heapPtr);
    }
  }

  lemma StepKeepsHeap(p: Image, c: Config)
    requires HeapOk(c.m)
    ensures HeapOk(Step(p, c).c.m)
  {
    hide Step, HeapMove, Tiles;
    StepMovesHeap(p, c);
    if Executing(p, c) && Step(p, c).status.Done? { MoveKeepsHeap(Current(p, c), c.m, Step(p, c).c.m); }
  }

  /** In every reachable configuration the live heap blocks tile the heap from its start to the heap pointer. */
  lemma {:induction false} HeapStaysTiled(p: Image, stale: Write, acts: seq<Action>)
    ensures var m := Reached(p, stale, acts).m;
      HeapOk(m) && m.layout.heap.start + HeapTotal(m.heapFrames) == m.heapPtr
  {
    hide Step;
    if acts == [] {
    } else {
      HeapStaysTiled(p, stale, acts[..|acts| - 1]);
      StepKeepsHeap(p, Reached(p, stale, acts[..|acts| - 1]));
    }
    var m := Reached(p, stale, acts).m;
    assert HeapOk(m);
    TilesTotal(m.heapFrames, m.layout.heap.start, m.heapPtr);
  }

  // ----- Matching allocations and frees. -----

  predicate Allocating(p: Image, c: Config) {
    Executing(p, c) && Current(p, c).opcode.HeapAlloc? && Step(p, c).status.Done?
  }

  predicate Freeing(p: Image, c: Config) {
    Executing(p, c) && Current(p, c).opcode.HeapFree? && Step(p, c).status.Done?
  }

  lemma ActMovesHeap(p: Image, c: Config, a: Action)
    ensures var n := Act(p, c, a).m;
      if a.DoStep? && Executing(p, c) && Step(p, c).status.Done? then HeapMove(Current(p, c), c.m, n)
      else n.heapPtr == c.m.heapPtr && n.heapFrames == c.m.heapFrames
  {
    hide Step, HeapMove;
    if a.DoStep? { StepMovesHeap(p, c); }
  }

  /** Until the block count first falls back, the block of the allocation stays in place. */
  lemma {:induction false} BlockStays(p: Image, c: Config, acts: seq<Action>)
    requires Allocating(p, c) && acts != [] && acts[0].DoStep?
    requires forall k :: 1 <= k <= |acts| ==> |Play(p, c, acts[..k]).m.heapFrames| > |c.m.heapFrames|
    ensures c.m.heapFrames + [Block(c.m.heapPtr, Requested(Current(p, c)))] <= Play(p, c, acts).m.heapFrames
    decreases |acts|
  {
    hide Act, Step;
    var n := |acts| - 1;
    var front := acts[..n];
    assert acts[..n + 1] == acts;
    ActMovesHeap(p, Play(p, c, front), acts[n]);
    if n == 0 {
    } else {
      assert forall k :: 1 <= k <= n ==> front[..k] == acts[..k];
      BlockStays(p, c, front);
      assert |Play(p, c, acts[..n + 1]).m.heapFrames| > |c.m.heapFrames|;
    }
  }

  /** The number of live blocks first falls back to what it was before the allocation at the end of the history. */
  ghost predicate BlockEnds(p: Image, c: Config, acts: seq<Action>) {
    && Allocating(p, c) && acts != [] && acts[0].DoStep?
    && (forall k :: 1 <= k < |acts| ==> |Play(p, c, acts[..k]).m.heapFrames| > |c.m.heapFrames|)
    && |Play(p, c, acts).m.heapFrames| == |c.m.heapFrames|
  }

  /**
   An allocation and its free: whatever the host writes meanwhile, the action at which the number of live blocks
   first falls back to what it was before the allocation is a free, and it restores the allocator exactly.
   */
  lemma FreeRestoresAllocator(p: Image, c: Config, acts: seq<Action>)
    ensures BlockEnds(p, c, acts) ==>
      && acts[|acts| - 1].DoStep? && Freeing(p, Play(p, c, acts[..|acts| - 1]))
      && Play(p, c, acts).m.heapFrames == c.m.heapFrames && Play(p, c, acts).m.heapPtr == c.m.heapPtr
  {
    hide Act, Step;
    if BlockEnds(p, c, acts) {
      var n := |acts| - 1;
      var front := acts[..n];
      ActMovesHeap(p, Play(p, c, front), acts[n]);
      if n > 0 {
        assert forall k :: 1 <= k <= n ==> front[..k] == acts[..k];
        BlockStays(p, c, front);
        assert |Play(p, c, acts[..n]).m.heapFrames| > |c.m.heapFrames|;
      }
    }
  }
}
