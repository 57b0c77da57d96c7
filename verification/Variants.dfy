/** Options, results and enums as values: what was wrapped answers every later test and unwrap. */
module Variants {
  import opened Options
  import opened Isa
  import opened State
  import opened Semantics
  import opened Effects
  import opened Handles
  import opened Histories

  /** An instruction with the given opcode is executed in `c` without a trap. */
  predicate Executes(p: Image, c: Config, op: Opcode) {
    Executing(p, c) && Current(p, c).opcode == op && Step(p, c).status.Done?
  }

  /** The configuration after the step in `c` and the history that follows it. */
  function After(p: Image, c: Config, acts: seq<Action>): Config { Play(p, Step(p, c).c, acts) }

  /** An instruction is about to inspect register b, which holds the handle `h` under the tag `tag`. */
  predicate Asks(p: Image, d: Config, h: int, tag: Tag) {
    && Executing(p, d) && InFile(Current(p, d).a) && InFile(Current(p, d).b)
    && d.m.regs[Current(p, d).b] == h && d.m.tags[Current(p, d).b] == tag
  }

  /** The step ends without a trap and leaves `v` under the tag `tag` in register a. */
  predicate Answers(p: Image, d: Config, v: int, tag: Tag) {
    && Executing(p, d) && InFile(Current(p, d).a) && Step(p, d).status.Done?
    && Step(p, d).c.m.regs[Current(p, d).a] == v && Step(p, d).c.m.tags[Current(p, d).a] == tag
  }

  predicate Refuses(p: Image, d: Config) { Step(p, d).status == Trapped(DecodeFault) }

  /** The handle that the making step in `c` leaves in register a. */
  predicate Yields(p: Image, c: Config, h: int, tag: Tag) {
    && Executing(p, c) && InFile(Current(p, c).a)
    && Step(p, c).c.m.regs[Current(p, c).a] == h && Step(p, c).c.m.tags[Current(p, c).a] == tag
  }

  // ----- One instruction. -----

  lemma OptionMade(m: Machine, i: Insn)
    requires (i.opcode.MakeOptionSome? || i.opcode.MakeOptionNone?) && ExecMake(m, i).Commit?
    ensures InFile(i.a) && (i.opcode.MakeOptionSome? ==> InFile(i.b))
    ensures var n, h := ExecMake(m, i).m, |m.options| + 1;
      && n.regs[i.a] == h && n.tags[i.a] == OptionHandle && |n.options| == h
      && (i.opcode.MakeOptionSome? ==> n.options[h - 1] == OptionValue(true, m.tags[i.b], m.regs[i.b]))
      && (i.opcode.MakeOptionNone? ==> n.options[h - 1] == OptionValue(false, IntTag, 0))
  {
  }

  lemma ResultMade(m: Machine, i: Insn)
    requires (i.opcode.MakeResultOk? || i.opcode.MakeResultErr?) && ExecMake(m, i).Commit?
    ensures InFile(i.a) && InFile(i.b)
    ensures var n, h := ExecMake(m, i).m, |m.results| + 1;
      && n.regs[i.a] == h && n.tags[i.a] == ResultHandle && |n.results| == h
      && n.results[h - 1] == ResultValue(i.opcode.MakeResultOk?, m.tags[i.b], m.regs[i.b])
  {
  }

  lemma EnumMade(m: Machine, i: Insn)
    requires (i.opcode.MakeEnumVariant? || i.opcode.MakeEnumVariantPayload?) && ExecMake(m, i).Commit?
    ensures InFile(i.a) && (i.opcode.MakeEnumVariantPayload? ==> InFile(i.b))
    ensures var n, h := ExecMake(m, i).m, |m.enums| + 1;
      && n.regs[i.a] == h && n.tags[i.a] == EnumHandle && |n.enums| == h
      && (i.opcode.MakeEnumVariant? ==> n.enums[h - 1] == EnumValue(i.b, false, IntTag, 0))
      && (i.opcode.MakeEnumVariantPayload? ==> n.enums[h - 1] == EnumValue(i.c, true, m.tags[i.b], m.regs[i.b]))
  {
  }

  /** What an inspection finds in the pools decides how it ends. */
  lemma AskedStep(p: Image, d: Config, h: int)
    requires Executing(p, d) && FamilyOf(Current(p, d).opcode) == Inspect
    requires Asks(p, d, h, HandleTag(Current(p, d).opcode))
    ensures match Inspected(d.m, Current(p, d), h)
      case None => Refuses(p, d)
      case Some((v, tag)) => Answers(p, d, v, tag)
  {
    hide Exec, Inspected;
    InspectCommit(p, d.m, Current(p, d));
    StepStatus(p, d);
    StepMachine(p, d);
  }

  /** An option in the pool after the step answers every later inspection of its handle. */
  lemma OptionAsked(p: Image, c: Config, acts: seq<Action>, h: int)
    requires 1 <= h <= |Step(p, c).c.m.options|
    ensures var o, d := Step(p, c).c.m.options[h - 1], After(p, c, acts);
      Asks(p, d, h, OptionHandle) ==>
        && (Current(p, d).opcode.OptionIsSome? ==> Answers(p, d, if o.hasValue then 1 else 0, IntTag))
        && (Current(p, d).opcode.OptionUnwrap? ==>
              if o.hasValue then Answers(p, d, o.payload, o.payloadTag) else Refuses(p, d))
  {
    hide Step, Answers, Refuses;
    PoolEntriesArePermanent(p, Step(p, c).c, acts);
    var d := After(p, c, acts);
    if Asks(p, d, h, OptionHandle) && (Current(p, d).opcode.OptionIsSome? || Current(p, d).opcode.OptionUnwrap?) {
      AskedStep(p, d, h);
    }
  }

  lemma ResultAsked(p: Image, c: Config, acts: seq<Action>, h: int)
    requires 1 <= h <= |Step(p, c).c.m.results|
    ensures var r, d := Step(p, c).c.m.results[h - 1], After(p, c, acts);
      Asks(p, d, h, ResultHandle) ==>
        && (Current(p, d).opcode.ResultIsOk? ==> Answers(p, d, if r.isOk then 1 else 0, IntTag))
        && (Current(p, d).opcode.ResultUnwrapOk? ==>
              if r.isOk then Answers(p, d, r.payload, r.payloadTag) else Refuses(p, d))
        && (Current(p, d).opcode.ResultUnwrapErr? ==>
              if r.isOk then Refuses(p, d) else Answers(p, d, r.payload, r.payloadTag))
  {
    hide Step, Answers, Refuses;
    PoolEntriesArePermanent(p, Step(p, c).c, acts);
    var d := After(p, c, acts);
    if Asks(p, d, h, ResultHandle)
      && (Current(p, d).opcode.ResultIsOk? || Current(p, d).opcode.ResultUnwrapOk?
          || Current(p, d).opcode.ResultUnwrapErr?) {
      AskedStep(p, d, h);
    }
  }

  lemma EnumAsked(p: Image, c: Config, acts: seq<Action>, h: int)
    requires 1 <= h <= |Step(p, c).c.m.enums|
    ensures var e, d := Step(p, c).c.m.enums[h - 1], After(p, c, acts);
      Asks(p, d, h, EnumHandle) ==>
        && (Current(p, d).opcode.EnumIsVariant? ==>
              Answers(p, d, if e.variantId == Current(p, d).c then 1 else 0, IntTag))
        && (Current(p, d).opcode.EnumUnwrapPayload? ==>
              if e.hasPayload then Answers(p, d, e.payload, e.payloadTag) else Refuses(p, d))
  {
    hide Step, Answers, Refuses;
    PoolEntriesArePermanent(p, Step(p, c).c, acts);
    var d := After(p, c, acts);
    if Asks(p, d, h, EnumHandle) && (Current(p, d).opcode.EnumIsVariant? || Current(p, d).opcode.EnumUnwrapPayload?) {
      AskedStep(p, d, h);
    }
  }

  lemma MakingStep(p: Image, c: Config)
    requires Executing(p, c) && FamilyOf(Current(p, c).opcode) == Make && Step(p, c).status.Done?
    ensures var o := ExecMake(c.m, Current(p, c)); o.Commit? && Step(p, c).c.m == o.m
  {
    hide Exec, Orderly;
    StepMachine(p, c);
    MakeCommit(p, c.m, Current(p, c));
  }

  // ----- What was wrapped, later. -----

  /** A value wrapped by MakeOptionSome is there, and unwrapping gives it back with its tag. */
  lemma SomeAnswers(p: Image, c: Config, acts: seq<Action>)
    requires Executes(p, c, MakeOptionSome)
    ensures InFile(Current(p, c).b) && Yields(p, c, |c.m.options| + 1, OptionHandle)
    ensures var d := After(p, c, acts);
      Asks(p, d, |c.m.options| + 1, OptionHandle) ==>
        && (Current(p, d).opcode.OptionIsSome? ==> Answers(p, d, 1, IntTag))
        && (Current(p, d).opcode.OptionUnwrap? ==>
              Answers(p, d, c.m.regs[Current(p, c).b], c.m.tags[Current(p, c).b]))
  {
    hide Step, ExecMake, After, Answers, Refuses;
    MakingStep(p, c);
    OptionMade(c.m, Current(p, c));
    OptionAsked(p, c, acts, |c.m.options| + 1);
  }

  /** Nothing wrapped by MakeOptionNone is nothing: the test says so and unwrapping traps. */
  lemma NoneAnswers(p: Image, c: Config, acts: seq<Action>)
    requires Executes(p, c, MakeOptionNone)
    ensures Yields(p, c, |c.m.options| + 1, OptionHandle)
    ensures var d := After(p, c, acts);
      Asks(p, d, |c.m.options| + 1, OptionHandle) ==>
        && (Current(p, d).opcode.OptionIsSome? ==> Answers(p, d, 0, IntTag))
        && (Current(p, d).opcode.OptionUnwrap? ==> Refuses(p, d))
  {
    hide Step, ExecMake, After, Answers, Refuses;
    MakingStep(p, c);
    OptionMade(c.m, Current(p, c));
    OptionAsked(p, c, acts, |c.m.options| + 1);
  }

  /** A success is a success: it gives its value back with its tag, and refuses to be unwrapped as a failure. */
  lemma OkAnswers(p: Image, c: Config, acts: seq<Action>)
    requires Executes(p, c, MakeResultOk)
    ensures InFile(Current(p, c).b) && Yields(p, c, |c.m.results| + 1, ResultHandle)
    ensures var d := After(p, c, acts);
      Asks(p, d, |c.m.results| + 1, ResultHandle) ==>
        && (Current(p, d).opcode.ResultIsOk? ==> Answers(p, d, 1, IntTag))
        && (Current(p, d).opcode.ResultUnwrapOk? ==>
              Answers(p, d, c.m.regs[Current(p, c).b], c.m.tags[Current(p, c).b]))
        && (Current(p, d).opcode.ResultUnwrapErr? ==> Refuses(p, d))
  {
    hide Step, ExecMake, After, Answers, Refuses;
    MakingStep(p, c);
    ResultMade(c.m, Current(p, c));
    ResultAsked(p, c, acts, |c.m.results| + 1);
  }

  /** A failure is a failure: it gives its value back with its tag, and refuses to be unwrapped as a success. */
  lemma ErrAnswers(p: Image, c: Config, acts: seq<Action>)
    requires Executes(p, c, MakeResultErr)
    ensures InFile(Current(p, c).b) && Yields(p, c, |c.m.results| + 1, ResultHandle)
    ensures var d := After(p, c, acts);
      Asks(p, d, |c.m.results| + 1, ResultHandle) ==>
        && (Current(p, d).opcode.ResultIsOk? ==> Answers(p, d, 0, IntTag))
        && (Current(p, d).opcode.ResultUnwrapOk? ==> Refuses(p, d))
        && (Current(p, d).opcode.ResultUnwrapErr? ==>
              Answers(p, d, c.m.regs[Current(p, c).b], c.m.tags[Current(p, c).b]))
  {
    hide Step, ExecMake, After, Answers, Refuses;
    MakingStep(p, c);
    ResultMade(c.m, Current(p, c));
    ResultAsked(p, c, acts, |c.m.results| + 1);
  }

  /** A variant without payload is recognised by its identifier alone, and there is nothing to unwrap. */
  lemma BareVariantAnswers(p: Image, c: Config, acts: seq<Action>)
    requires Executes(p, c, MakeEnumVariant)
    ensures Yields(p, c, |c.m.enums| + 1, EnumHandle)
    ensures var d := After(p, c, acts);
      Asks(p, d, |c.m.enums| + 1, EnumHandle) ==>
        && (Current(p, d).opcode.EnumIsVariant? ==>
              Answers(p, d, if Current(p, d).c == Current(p, c).b then 1 else 0, IntTag))
        && (Current(p, d).opcode.EnumUnwrapPayload? ==> Refuses(p, d))
  {
    hide Step, ExecMake, After, Answers, Refuses;
    MakingStep(p, c);
    EnumMade(c.m, Current(p, c));
    EnumAsked(p, c, acts, |c.m.enums| + 1);
  }

  /** A variant with payload is recognised by its identifier alone, and gives its payload back with its tag. */
  lemma VariantAnswers(p: Image, c: Config, acts: seq<Action>)
    requires Executes(p, c, MakeEnumVariantPayload)
    ensures InFile(Current(p, c).b) && Yields(p, c, |c.m.enums| + 1, EnumHandle)
    ensures var d := After(p, c, acts);
      Asks(p, d, |c.m.enums| + 1, EnumHandle) ==>
        && (Current(p, d).opcode.EnumIsVariant? ==>
              Answers(p, d, if Current(p, d).c == Current(p, c).c then 1 else 0, IntTag))
        && (Current(p, d).opcode.EnumUnwrapPayload? ==>
              Answers(p, d, c.m.regs[Current(p, c).b], c.m.tags[Current(p, c).b]))
  {
    hide Step, ExecMake, After, Answers, Refuses;
    MakingStep(p, c);
    EnumMade(c.m, Current(p, c));
    EnumAsked(p, c, acts, |c.m.enums| + 1);
  }
}
