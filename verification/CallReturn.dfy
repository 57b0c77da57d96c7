/** Calls and returns match over whole runs. */
module CallReturn {
  import opened Options
  import opened Isa
  import opened State
  import opened Loader
  import opened Semantics
  import opened Effects
  import opened Histories

  /** What one trace entry does to a call stack. */
  function NextCalls(calls: seq<nat>, e: TraceEntry): seq<nat> {
    if e.trap.Some? then calls
    else if e.opcode.Call? then calls + [e.pc + 1]
    else if e.opcode.Ret? && calls != [] then calls[..|calls| - 1]
    else calls
  }

  /** The call stack that a trace describes. */
  function CallsOf(trace: seq<TraceEntry>): seq<nat> {
    if trace == [] then []
    else NextCalls(CallsOf(trace[..|trace| - 1]), trace[|trace| - 1])
  }

  lemma CallsStep(p: Image, c: Config)
    ensures var s := Step(p, c).c;
      if c.m.halted || Step(p, c).status.UndefinedBehaviour? then s == c
      else
        && |s.trace| == |c.trace| + 1 && s.trace[..|c.trace|] == c.trace
        && s.m.calls == NextCalls(c.m.calls, s.trace[|c.trace|])
        && (Executing(p, c) && Current(p, c).opcode.Ret? && Step(p, c).status.Done? ==>
              c.m.calls != [] && s.m.pc == c.m.calls[|c.m.calls| - 1])
  {
    hide Exec, Orderly;
    StepMachine(p, c);
    StepTraced(p, c);
    if Executing(p, c) && Step(p, c).status.Done? {
      var i := Current(p, c);
      CallsCommit(p, c.m, i);
    }
  }

  lemma CallsCommit(p: Image, m: Machine, i: Insn)
    requires Exec(p, m, i).Commit?
    ensures var n := Exec(p, m, i).m;
      && (i.opcode.Call? ==> n.calls == m.calls + [m.pc + 1])
      && (i.opcode.Ret? ==> m.calls != [] && n.calls == m.calls[..|m.calls| - 1] && n.pc == m.calls[|m.calls| - 1])
      && (!i.opcode.Call? && !i.opcode.Ret? ==> n.calls == m.calls)
  {
    if FamilyOf(i.opcode) != Control {
      hide Exec;
      EveryInsnOrderly(p, m, i);
    }
  }

  /** In every reachable configuration the call stack is the fold of the trace. */
  lemma {:induction false} CallStackFollowsTrace(p: Image, stale: Write, acts: seq<Action>)
    ensures var c := Reached(p, stale, acts); c.m.calls == CallsOf(c.trace)
  {
    hide Exec;
    if acts == [] {
    } else {
      CallStackFollowsTrace(p, stale, acts[..|acts| - 1]);
      CallsStep(p, Reached(p, stale, acts[..|acts| - 1]));
    }
  }

  /** A call is executed in configuration `c`. */
  predicate Calling(p: Image, c: Config) {
    Executing(p, c) && Current(p, c).opcode.Call? && Step(p, c).status.Done?
  }

  /** A return is executed in configuration `c`. */
  predicate Returning(p: Image, c: Config) {
    Executing(p, c) && Current(p, c).opcode.Ret? && Step(p, c).status.Done?
  }

  /** What an action can do to the call stack. */
  lemma ActCalls(p: Image, c: Config, a: Action)
    ensures var d := Act(p, c, a);
      || d.m.calls == c.m.calls
      || d.m.calls == c.m.calls + [c.m.pc + 1]
      || (&& a.DoStep? && Returning(p, c) && c.m.calls != []
          && d.m.calls == c.m.calls[..|c.m.calls| - 1] && d.m.pc == c.m.calls[|c.m.calls| - 1])
    ensures a.DoStep? && Calling(p, c) ==> Act(p, c, a).m.calls == c.m.calls + [c.m.pc + 1]
  {
    hide Exec;
    if a.DoStep? {
      CallsStep(p, c);
      StepTraced(p, c);
    }
  }

  /** From the call until the depth first falls back, the return address stays where the call put it. */
  lemma {:induction false} CallStackKeepsReturnAddress(p: Image, c: Config, acts: seq<Action>)
    requires Calling(p, c) && acts != [] && acts[0].DoStep?
    requires forall k :: 1 <= k <= |acts| ==> |Play(p, c, acts[..k]).m.calls| > |c.m.calls|
    ensures c.m.calls + [c.m.pc + 1] <= Play(p, c, acts).m.calls
    decreases |acts|
  {
    hide Step;
    var n := |acts| - 1;
    var front := acts[..n];
    assert acts[..n + 1] == acts;
    ActCalls(p, Play(p, c, front), acts[n]);
    if n == 0 {
    } else {
      assert forall k :: 1 <= k <= n ==> front[..k] == acts[..k];
      CallStackKeepsReturnAddress(p, c, front);
      assert |Play(p, c, acts[..n + 1]).m.calls| > |c.m.calls|;
    }
  }

  /** The depth first falls back to what it was before the call in `c` at the end of the history. */
  ghost predicate CallEnds(p: Image, c: Config, acts: seq<Action>) {
    && Calling(p, c) && acts != [] && acts[0].DoStep?
    && (forall k :: 1 <= k < |acts| ==> |Play(p, c, acts[..k]).m.calls| > |c.m.calls|)
    && |Play(p, c, acts).m.calls| == |c.m.calls|
  }

  /**
   A call and its return: whatever the host writes meanwhile, the action at which the depth first falls back to what
   it was before the call is a return to the instruction after the call, and the call stack is the one before the
   call.
   */
  lemma CallReturnsToNextInsn(p: Image, c: Config, acts: seq<Action>)
    ensures CallEnds(p, c, acts) ==>
      && acts[|acts| - 1].DoStep? && Returning(p, Play(p, c, acts[..|acts| - 1]))
      && Play(p, c, acts).m.calls == c.m.calls && Play(p, c, acts).m.pc == c.m.pc + 1
  {
    hide Step;
    if CallEnds(p, c, acts) {
      var n := |acts| - 1;
      var front := acts[..n];
      ActCalls(p, Play(p, c, front), acts[n]);
      if n > 0 {
        assert forall k :: 1 <= k <= n ==> front[..k] == acts[..k];
        CallStackKeepsReturnAddress(p, c, front);
        assert |Play(p, c, acts[..n]).m.calls| > |c.m.calls|;
      }
    }
  }
}
