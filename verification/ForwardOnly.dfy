/** Programs without calls and backward jumps end within one step per instruction. */
module ForwardOnly {
  import opened Options
  import opened Isa
  import opened State
  import opened Loader
  import opened Semantics
  import opened Effects
  import opened Histories
  import opened Overflow
  import opened Safety
  import Runs

  /** No call, and every jump goes forward. */
  ghost predicate LoopFree(p: Image) {
    forall k :: 0 <= k < |p.insns| ==>
      !p.insns[k].opcode.Call? && (IsJump(p.insns[k].opcode) ==> p.insns[k].a > k)
  }

  /** With an empty call stack, an instruction of a loop-free program moves pc forward. */
  lemma ControlGoesForward(p: Image, m: Machine)
    requires LoopFree(p) && m.pc < |p.insns| && m.calls == []
    requires FamilyOf(p.insns[m.pc].opcode) == Control && Exec(p, m, p.insns[m.pc]).Commit?
    ensures var n := Exec(p, m, p.insns[m.pc]).m; n.pc > m.pc && n.calls == []
  {
  }

  lemma StepGoesForward(p: Image, c: Config)
    requires LoopFree(p) && c.m.calls == [] && !c.m.halted && Step(p, c).status.Done?
    ensures var s := Step(p, c).c; s.m.pc > c.m.pc && s.m.calls == [] && c.m.pc < |p.insns|
  {
    hide Exec;
    StepTraced(p, c);
    StepMachine(p, c);
    if FamilyOf(Current(p, c).opcode) == Control { ControlGoesForward(p, c.m); }
  }

  /** The distance to the end of the program bounds the number of trap-free steps. */
  lemma {:induction false} BudgetSuffices(p: Image, c: Config, budget: nat)
    requires LoopFree(p) && c.m.calls == [] && !c.m.halted && budget > |p.insns| - c.m.pc && budget > 0
    ensures !RunToHalt(p, c, budget).status.OutOfBudget?
    decreases budget
  {
    hide Step;
    var r := Step(p, c);
    if r.status.Done? {
      StepGoesForward(p, c);
      if !r.c.m.halted { BudgetSuffices(p, r.c, budget - 1); }
    }
  }

  /** A run that stops in a trap, a halt or undefined behaviour shows it. */
  lemma {:induction false} RunEnds(p: Image, c: Config, budget: nat) returns (k: nat)
    requires !RunToHalt(p, c, budget).status.OutOfBudget?
    ensures k < budget
    ensures var r := RunToHalt(p, c, budget); var last := Step(p, Run(p, c, k));
      match r.status
      case Halted => r.c.m.halted
      case Stopped(t) => r.c == last.c && last.status == Trapped(t)
        && r.c.trace != [] && r.c.trace[|r.c.trace| - 1].trap == Some(t)
      case RanUndefined(h) => last.status == UndefinedBehaviour(h)
      case OutOfBudget => false
    decreases budget
  {
    hide Step;
    var s := Step(p, c);
    StepTraced(p, c);
    assert Run(p, c, 0) == c;
    if s.status.Done? && !s.c.m.halted {
      var j := RunEnds(p, s.c, budget - 1);
      assert Run(p, c, 1) == s.c;
      Runs.RunComposes(p, c, 1, j);
      k := j + 1;
    } else {
      k := 0;
      HaltedNeverTraps(p, c);
    }
  }

  lemma HaltedNeverTraps(p: Image, c: Config)
    ensures c.m.halted ==> Step(p, c).status.Done?
  {
  }

  /** A step of the run with number at most `n` pushes beyond the memory, or overflows. */
  ghost predicate UndefinedBy(p: Image, c: Config, n: nat) {
    exists k :: 0 <= k <= n && (OverrunsAt(p, Run(p, c, k)) || OverflowsAt(p, Run(p, c, k)))
  }

  /** With operand b in range there are two ways for a step of a validated program to be undefined. */
  lemma TwoWays(p: Image, stale: Write, k: nat)
    requires Validate(p).None? && BInRange(p) && Typed(p) && Feasible(p, Steps(k))
    ensures var d := Run(p, LoadWith(p, stale), k); var s := Step(p, d).status;
      && (s.UndefinedBehaviour? <==> OverrunsAt(p, d) || OverflowsAt(p, d))
      && (s == UndefinedBehaviour(MemoryIndex) <==> OverrunsAt(p, d))
      && s != UndefinedBehaviour(RegisterIndex)
  {
    hide Step, Validate, Typed, Feasible;
    RunIsHistory(p, LoadWith(p, stale), k);
    UndefinedIff(p, stale, Steps(k));
    ValidatedProgramsAreSafe(p, stale, Steps(k));
    var s := Step(p, Run(p, LoadWith(p, stale), k)).status;
    if s.UndefinedBehaviour? {
      match s.hazard { case RegisterIndex => case MemoryIndex => case SignedOverflow => }
    }
  }

  /**
   Loop-free termination: a validated loop-free program with operand b in range ends within one step more than it
   has instructions, halted or with its trap as the last trace entry, unless a step pushes beyond the memory or
   overflows, which is then where the run stops.
   */
  lemma LoopFreeProgramsEnd(p: Image, stale: Write)
    requires Validate(p).None? && LoopFree(p) && BInRange(p) && Typed(p) && 2 * |p.insns| + 3000 < HALF_RANGE
    ensures var r := RunToHalt(p, LoadWith(p, stale), |p.insns| + 1);
      match r.status
      case Halted => r.c.m.halted
      case Stopped(t) => r.c.trace != [] && r.c.trace[|r.c.trace| - 1].trap == Some(t)
      case RanUndefined(h) => h != RegisterIndex && UndefinedBy(p, LoadWith(p, stale), |p.insns|)
      case OutOfBudget => false
    ensures RunToHalt(p, LoadWith(p, stale), |p.insns| + 1).status.RanUndefined? <==>
      UndefinedBy(p, LoadWith(p, stale), |p.insns|)
  {
    hide Step, Validate, BInRange, LoopFree, OverrunsAt, OverflowsAt, Typed;
    var c := LoadWith(p, stale);
    BudgetSuffices(p, c, |p.insns| + 1);
    var k := RunEnds(p, c, |p.insns| + 1);
    TwoWays(p, stale, k);
    assert Step(p, Run(p, c, k)).status != UndefinedBehaviour(RegisterIndex);
    forall j | 0 <= j <= |p.insns|
      ensures Step(p, Run(p, c, j)).status.UndefinedBehaviour? <==>
        OverrunsAt(p, Run(p, c, j)) || OverflowsAt(p, Run(p, c, j))
    {
      TwoWays(p, stale, j);
    }
    Runs.RunToHaltUndefinedIff(p, c, |p.insns| + 1);
  }
}
