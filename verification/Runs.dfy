/** Composition of runs, accounting, permanence of traps, and reloading. */
module Runs {
  import opened Options
  import opened Isa
  import opened State
  import opened Loader
  import opened Semantics
  import opened Effects
  import opened Histories

  // ----- Composition. -----

  lemma {:induction false} RunComposes(p: Image, c: Config, m: nat, n: nat)
    ensures Run(p, c, m + n) == Run(p, Run(p, c, m), n)
  {
    hide Step;
    if n == 0 {
    } else {
      RunComposes(p, c, m, n - 1);
    }
  }

  /** A run that exhausts its budget can be continued as if it had been given the larger budget at once. */
  lemma {:induction false} RunToHaltComposes(p: Image, c: Config, m: nat, n: nat)
    requires RunToHalt(p, c, m).status.OutOfBudget?
    ensures RunToHalt(p, c, m + n) == RunToHalt(p, RunToHalt(p, c, m).c, n)
    decreases m
  {
    hide Step;
    if m == 0 {
    } else {
      RunToHaltComposes(p, Step(p, c).c, m - 1, n);
    }
  }

  /** `run_to_halt` stops after some number of steps, in the configuration those steps lead to. */
  lemma {:induction false} RunToHaltIsRun(p: Image, c: Config, m: nat) returns (k: nat)
    ensures k <= m && RunToHalt(p, c, m).c == Run(p, c, k)
    ensures RunToHalt(p, c, m).status.OutOfBudget? ==> k == m
    decreases m
  {
    hide Step;
    var s := Step(p, c);
    if m == 0 {
      k := 0;
    } else if s.status.Done? && !s.c.m.halted {
      var j := RunToHaltIsRun(p, s.c, m - 1);
      assert Run(p, c, 1) == Step(p, Run(p, c, 0)).c;
      RunComposes(p, c, 1, j);
      k := j + 1;
    } else {
      assert Run(p, c, 1) == Step(p, Run(p, c, 0)).c;
      k := 1;
    }
  }

  /**
   When the first `k` steps are trap-free and only the last of them halts, `run_to_halt` succeeds with any
   budget of at least `k`, and exhausts every smaller one.
   */
  lemma {:induction false} RunToHaltExactly(p: Image, c: Config, k: nat, m: nat)
    requires k > 0 && !c.m.halted && Run(p, c, k).m.halted
    requires forall j :: 0 <= j < k ==> Step(p, Run(p, c, j)).status.Done? && !Run(p, c, j).m.halted
    ensures RunToHalt(p, c, m) ==
      if m >= k then RunResult(Run(p, c, k), Halted) else RunResult(Run(p, c, m), OutOfBudget)
    decreases m
  {
    hide Step;
    assert Run(p, c, 0) == c;
    var d := Step(p, c).c;
    assert Run(p, c, 1) == d;
    if m > 0 && k > 1 {
      assert !Run(p, c, 1).m.halted;
      RunComposes(p, c, 1, k - 1);
      forall j | 0 <= j < k - 1 ensures Step(p, Run(p, d, j)).status.Done? && !Run(p, d, j).m.halted {
        RunComposes(p, c, 1, j);
      }
      RunToHaltExactly(p, d, k - 1, m - 1);
      if m < k { RunComposes(p, c, 1, m - 1); }
    }
  }

  // ----- Accounting. -----

  /** The trapping entries of a trace are what the last payload is about. */
  function LastTrap(trace: seq<TraceEntry>): Option<TraceEntry> {
    if trace == [] then None
    else if trace[|trace| - 1].trap.Some? then Some(trace[|trace| - 1])
    else LastTrap(trace[..|trace| - 1])
  }

  /** The payload describes the given trapping entry. */
  predicate Describes(p: Image, payload: TrapPayload, e: TraceEntry) {
    e.trap.Some? && payload == PayloadOf(p, e.trap.value, e.opcode, e.pc, payload.segment, payload.detail)
  }

  predicate Accounted(p: Image, c: Config) {
    && c.gcCycles == c.steps / 64
    && if c.m.halted then c.payload.None?
       else if LastTrap(c.trace).None? then c.payload.None?
       else c.payload.Some? && Describes(p, c.payload.value, LastTrap(c.trace).value)
  }

  lemma StepKeepsAccounts(p: Image, c: Config)
    requires Accounted(p, c)
    ensures Accounted(p, Step(p, c).c)
  {
    hide Exec;
    StepTraced(p, c);
    if Executing(p, c) { OnlyHaltHalts(p, c.m, Current(p, c)); }
  }

  lemma OnlyHaltHalts(p: Image, m: Machine, i: Insn)
    requires !m.halted
    ensures Exec(p, m, i).Commit? ==> (Exec(p, m, i).m.halted <==> i.opcode.Halt?)
  {
    hide Exec;
    EveryInsnOrderly(p, m, i);
    if FamilyOf(i.opcode) == Control && Exec(p, m, i).Commit? { ControlOnly(p, m, i); }
  }

  /**
   In every reachable configuration the collection count is a 64th of the step count, and the payload is
   that of the last trapping trace entry, or absent once the machine has halted.
   */
  lemma {:induction false} AccountsHold(p: Image, stale: Write, acts: seq<Action>)
    ensures Accounted(p, Reached(p, stale, acts))
  {
    hide Step;
    if acts == [] {
    } else {
      AccountsHold(p, stale, acts[..|acts| - 1]);
      StepKeepsAccounts(p, Reached(p, stale, acts[..|acts| - 1]));
    }
  }

  /** Every step of a machine that has not halted adds exactly one trace entry, unless it is undefined. */
  lemma {:induction false} TraceCountsSteps(p: Image, c: Config, n: nat)
    requires forall k :: 0 <= k < n ==>
      !Run(p, c, k).m.halted && !Step(p, Run(p, c, k)).status.UndefinedBehaviour?
    ensures |Run(p, c, n).trace| == |c.trace| + n && c.trace <= Run(p, c, n).trace
  {
    hide Step;
    if n == 0 {
    } else {
      TraceCountsSteps(p, c, n - 1);
      StepTraced(p, Run(p, c, n - 1));
    }
  }

  // ----- Traps are atomic and permanent; halting is final. -----

  /** A trapping step leaves the whole machine as it was. */
  lemma TrapsAreAtomic(p: Image, c: Config)
    requires Step(p, c).status.Trapped?
    ensures Step(p, c).c.m == c.m && Step(p, c).c.preload.None?
  {
    hide Exec;
  }

  /** A trap depends only on the machine and, off the end of the program, on the pending write record. */
  lemma TrapRepeats(p: Image, c: Config, d: Config)
    requires c.preload.None? && Step(p, c).status.Trapped?
    requires d.m == c.m && d.preload.None? && (c.m.pc >= |p.insns| ==> d.write == c.write)
    ensures var r, s := Step(p, c), Step(p, d);
      && s.status == r.status && s.c.m == c.m && s.c.preload.None? && s.c.write == r.c.write
      && s.c.payload == r.c.payload && |s.c.trace| == |d.trace| + 1 && s.c.trace[..|d.trace|] == d.trace
      && |r.c.trace| == |c.trace| + 1 && s.c.trace[|d.trace|] == r.c.trace[|c.trace|]
  {
    hide Exec;
  }

  /**
   Once a step traps with no preload trap pending, every later step raises the same trap, with the same
   payload and the same trace entry, on the same machine.
   */
  lemma {:induction false} TrapsArePermanent(p: Image, c: Config, n: nat)
    requires c.preload.None? && Step(p, c).status.Trapped? && n > 0
    ensures var r, d := Step(p, c), Run(p, c, n);
      && d.m == c.m && d.preload.None? && d.payload == r.c.payload && d.write == r.c.write
      && |r.c.trace| == |c.trace| + 1 && |d.trace| == |c.trace| + n && d.trace[..|c.trace|] == c.trace
      && (forall k :: |c.trace| <= k < |d.trace| ==> d.trace[k] == r.c.trace[|c.trace|])
      && Step(p, d).status == r.status
  {
    hide Step;
    var r, d := Step(p, c), Run(p, c, n);
    if n == 1 {
      assert Run(p, c, 0) == c;
      TrapRepeats(p, c, c);
    } else {
      TrapsArePermanent(p, c, n - 1);
      StaleWriteOffTheEnd(p, c);
      TrapRepeats(p, c, Run(p, c, n - 1));
    }
    StaleWriteOffTheEnd(p, c);
    TrapRepeats(p, c, d);
  }

  /** Off the end of the program a step does not touch the write record. */
  lemma StaleWriteOffTheEnd(p: Image, c: Config)
    ensures c.m.pc >= |p.insns| ==> Step(p, c).c.write == c.write
  {
    hide Exec;
  }

  /** A halted machine never changes again. */
  lemma {:induction false} HaltIsFinal(p: Image, c: Config, n: nat)
    requires c.m.halted
    ensures Run(p, c, n) == c && (n > 0 ==> RunToHalt(p, c, n) == RunResult(c, Halted))
  {
    hide Exec;
    if n == 0 {
    } else {
      HaltIsFinal(p, c, n - 1);
    }
  }

  /** Before the first load every step is a DecodeFault off the end of the empty program. */
  lemma UnloadedAlwaysTraps(fp: (Opcode, seq<int>) -> seq<int>, n: nat)
    ensures var p := NoProgram(fp);
      Step(p, Run(p, Unloaded(p), n)).status == Trapped(DecodeFault) && Run(p, Unloaded(p), n).m == Unloaded(p).m
  {
    hide Exec, Run;
    var p := NoProgram(fp);
    assert Step(p, Unloaded(p)).status == Trapped(DecodeFault);
    if n == 0 {
      RunOfNothing(p, Unloaded(p));
    } else {
      TrapsArePermanent(p, Unloaded(p), n);
    }
  }

  lemma RunOfNothing(p: Image, c: Config)
    ensures Run(p, c, 0) == c
  {
  }

  lemma DoneKeepsPreload(p: Image, c: Config)
    ensures Step(p, c).status.Done? ==> Step(p, c).c.preload == c.preload
  {
    hide Exec;
  }

  lemma HaltedIsDefined(p: Image, c: Config)
    requires c.m.halted
    ensures !Step(p, c).status.UndefinedBehaviour?
  {
  }

  /** One of the first `n` steps is undefined. */
  ghost predicate UndefinedWithin(p: Image, c: Config, n: nat) {
    exists k :: 0 <= k < n && Step(p, Run(p, c, k)).status.UndefinedBehaviour?
  }

  /** After a defined first step, it is a matter of the rest of the run. */
  lemma UndefinedLater(p: Image, c: Config, n: nat)
    requires n > 0 && !Step(p, c).status.UndefinedBehaviour?
    ensures UndefinedWithin(p, c, n) <==> UndefinedWithin(p, Step(p, c).c, n - 1)
  {
    hide Step;
    var d := Step(p, c).c;
    assert Run(p, c, 0) == c && Run(p, c, 1) == Step(p, Run(p, c, 0)).c;
    if UndefinedWithin(p, c, n) {
      var k :| 0 <= k < n && Step(p, Run(p, c, k)).status.UndefinedBehaviour?;
      RunComposes(p, c, 1, k - 1);
      assert Run(p, c, k) == Run(p, d, k - 1);
    }
    if UndefinedWithin(p, d, n - 1) {
      var k :| 0 <= k < n - 1 && Step(p, Run(p, d, k)).status.UndefinedBehaviour?;
      RunComposes(p, c, 1, k);
      assert Run(p, c, k + 1) == Run(p, d, k);
    }
  }

  /** A pending preload trap stops `run_to_halt` at once, if it gets to take a step at all. */
  lemma PreloadStopsRun(p: Image, c: Config, budget: nat)
    requires c.preload.Some?
    ensures !RunToHalt(p, c, budget).status.RanUndefined?
  {
    hide Exec;
    if budget > 0 { RunToHaltUnfolds(p, c, budget, Step(p, c)); }
  }

  /**
   `run_to_halt` meets undefined behaviour if and only if no preload trap is pending and one of the steps its
   budget allows is undefined.
   */
  lemma {:induction false} RunToHaltUndefinedIff(p: Image, c: Config, budget: nat)
    ensures RunToHalt(p, c, budget).status.RanUndefined? <==> c.preload.None? && UndefinedWithin(p, c, budget)
    decreases budget
  {
    hide Step;
    var r := Step(p, c);
    assert Run(p, c, 0) == c;
    if budget == 0 {
    } else if c.preload.Some? {
      PreloadStopsRun(p, c, budget);
    } else if r.status.UndefinedBehaviour? {
    } else if r.status.Trapped? {
      forall k | 0 < k < budget
        ensures !Step(p, Run(p, c, k)).status.UndefinedBehaviour?
      {
        TrapsArePermanent(p, c, k);
      }
    } else if r.c.m.halted {
      UndefinedLater(p, c, budget);
      forall k | 0 <= k < budget - 1
        ensures !Step(p, Run(p, r.c, k)).status.UndefinedBehaviour?
      {
        HaltIsFinal(p, r.c, k);
        HaltedIsDefined(p, r.c);
      }
    } else {
      UndefinedLater(p, c, budget);
      DoneKeepsPreload(p, c);
      RunToHaltUndefinedIff(p, r.c, budget - 1);
    }
  }

  // ----- Reloading. -----

  /** What `state()` shows of a configuration. */
  datatype View = View(m: Machine, trace: seq<TraceEntry>, log: seq<AxionEvent>, payload: Option<TrapPayload>, gc: nat)

  /** The observable state; the call stack is private. */
  function Visible(c: Config): View { View(c.m.(calls := []), c.trace, c.log, c.payload, c.gcCycles) }

  function Unwritten(trace: seq<TraceEntry>): seq<TraceEntry> {
    seq(|trace|, k requires 0 <= k < |trace| => trace[k].(write := NO_WRITE))
  }

  /** The two configurations differ at most in write records. */
  predicate SameButWrites(c: Config, d: Config) {
    d.(trace := Unwritten(d.trace), write := NO_WRITE) == c.(trace := Unwritten(c.trace), write := NO_WRITE)
  }

  lemma StepSameButWrites(p: Image, c: Config, d: Config)
    requires SameButWrites(c, d)
    ensures SameButWrites(Step(p, c).c, Step(p, d).c) && Step(p, c).status == Step(p, d).status
  {
    hide Exec;
    StepTraced(p, c);
    StepTraced(p, d);
    UnwrittenSnoc(c.trace, Step(p, c).c.trace);
    UnwrittenSnoc(d.trace, Step(p, d).c.trace);
  }

  lemma UnwrittenSnoc(t: seq<TraceEntry>, u: seq<TraceEntry>)
    requires u == t || (|u| == |t| + 1 && u[..|t|] == t)
    ensures u != t ==> Unwritten(u) == Unwritten(t) + [u[|t|].(write := NO_WRITE)]
  {
  }

  /** After any history, reloading runs like a fresh interpreter, up to the write fields of trace entries. */
  lemma {:induction false} ReloadEqualsFreshButWrites(p: Image, stale: Write, n: nat)
    ensures SameButWrites(Run(p, Fresh(p), n), Run(p, LoadWith(p, stale), n))
  {
    hide Step;
    if n == 0 {
    } else {
      ReloadEqualsFreshButWrites(p, stale, n - 1);
      StepSameButWrites(p, Run(p, Fresh(p), n - 1), Run(p, LoadWith(p, stale), n - 1));
    }
  }

  /** An executing step forgets the stale record. */
  lemma StepForgetsWrite(p: Image, c: Config, d: Config)
    requires Executing(p, c) && d == c.(write := d.write)
    ensures var r, s := Step(p, c), Step(p, d);
      if r.status.UndefinedBehaviour? then r.c == c && s.c == d else s == r
  {
    hide Exec;
  }

  lemma {:induction false} UndefinedIsStuck(p: Image, c: Config, n: nat)
    requires Step(p, c).status.UndefinedBehaviour?
    ensures Run(p, c, n) == c
  {
    hide Exec;
    if n == 0 {
    } else {
      UndefinedIsStuck(p, c, n - 1);
    }
  }

  /** For a validated non-empty program a reloaded interpreter shows exactly what a fresh one shows, at every step. */
  lemma ReloadEqualsFresh(p: Image, stale: Write, n: nat)
    requires Validate(p).None? && p.insns != []
    ensures Visible(Run(p, LoadWith(p, stale), n)) == Visible(Run(p, Fresh(p), n))
  {
    hide Step, Validate;
    var c, d := Fresh(p), LoadWith(p, stale);
    StepForgetsWrite(p, c, d);
    if Step(p, c).status.UndefinedBehaviour? {
      UndefinedSame(p, c, d);
      UndefinedIsStuck(p, c, n);
      UndefinedIsStuck(p, d, n);
    } else if n > 0 {
      assert Run(p, c, 1) == Step(p, Run(p, c, 0)).c;
      assert Run(p, d, 1) == Step(p, Run(p, d, 0)).c;
      RunComposes(p, c, 1, n - 1);
      RunComposes(p, d, 1, n - 1);
    }
  }

  lemma UndefinedSame(p: Image, c: Config, d: Config)
    requires Executing(p, c) && d == c.(write := d.write) && Step(p, c).status.UndefinedBehaviour?
    ensures Step(p, d).status.UndefinedBehaviour?
  {
    hide Exec;
  }

  /** A rejected or empty program traps in its first step and traces the write record left over from before. */
  lemma FirstEntryStale(p: Image, stale: Write)
    requires Validate(p).Some? || p.insns == []
    ensures var c := Run(p, LoadWith(p, stale), 1); |c.trace| == 1 && c.trace[0].write == stale
  {
    hide Exec, Validate;
    assert Run(p, LoadWith(p, stale), 1) == Step(p, Run(p, LoadWith(p, stale), 0)).c;
  }

  /**
   Reload equals fresh, exactly: a reloaded interpreter shows what a fresh one shows, after every number of steps,
   if and only if the program is validated and not empty or no write record was left over.
   */
  lemma ReloadEqualsFreshIff(p: Image, stale: Write)
    ensures (forall n: nat :: Visible(Run(p, LoadWith(p, stale), n)) == Visible(Run(p, Fresh(p), n))) <==>
      (Validate(p).None? && p.insns != []) || stale == NO_WRITE
  {
    hide Run, Visible, Validate;
    if Validate(p).None? && p.insns != [] {
      forall n: nat ensures Visible(Run(p, LoadWith(p, stale), n)) == Visible(Run(p, Fresh(p), n)) {
        ReloadEqualsFresh(p, stale, n);
      }
    } else if stale != NO_WRITE {
      FirstEntryStale(p, stale);
      FirstEntryStale(p, NO_WRITE);
      DifferentTraces(Run(p, LoadWith(p, stale), 1), Run(p, Fresh(p), 1));
    }
  }

  lemma DifferentTraces(c: Config, d: Config)
    requires c.trace != d.trace
    ensures Visible(c) != Visible(d)
  {
  }

  /** After a program that wrote a register, an empty program is traced differently than on a new interpreter. */
  lemma LeftoverRecordShows(p: Image)
    requires p.insns == []
    ensures Visible(Run(p, LoadWith(p, Recorded(0, 1, IntTag)), 1)) != Visible(Run(p, Fresh(p), 1))
  {
    hide Run, Visible, Validate;
    FirstEntryStale(p, Recorded(0, 1, IntTag));
    FirstEntryStale(p, NO_WRITE);
    DifferentTraces(Run(p, LoadWith(p, Recorded(0, 1, IntTag)), 1), Run(p, Fresh(p), 1));
  }
}
