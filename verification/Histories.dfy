/** What can happen to an interpreter between two loads: steps, and register writes by the host. */
module Histories {
  import opened Isa
  import opened State
  import opened Loader
  import opened Semantics

  datatype Action = DoStep | HostWrite(idx: int, value: int, tag: Tag)

  /** `set_register`: a write to a register of the file, recorded; any other index is ignored. */
  function HostWritten(c: Config, idx: int, value: int, tag: Tag): Config {
    if InFile(idx) then c.(m := SetReg(c.m, idx, value, tag), write := Recorded(idx, value, tag)) else c
  }

  function Act(p: Image, c: Config, a: Action): Config {
    match a
    case DoStep => Step(p, c).c
    case HostWrite(idx, value, tag) => HostWritten(c, idx, value, tag)
  }

  /** The configuration after a history. */
  function Play(p: Image, c: Config, acts: seq<Action>): Config {
    if acts == [] then c else Act(p, Play(p, c, acts[..|acts| - 1]), acts[|acts| - 1])
  }

  /** A reachable configuration: a program is loaded, whatever came before, and a history follows. */
  function Reached(p: Image, stale: Write, acts: seq<Action>): Config { Play(p, LoadWith(p, stale), acts) }

  function Steps(n: nat): seq<Action> { seq(n, k => DoStep) }

  /** Whether a property holds before, between and after the actions of a history. */
  ghost predicate Throughout(p: Image, c: Config, acts: seq<Action>, good: Config -> bool) {
    forall k :: 0 <= k <= |acts| ==> good(Play(p, c, acts[..k]))
  }

  /** Whether each action of a history passes a test on the configuration it meets. */
  ghost predicate AtEach(p: Image, c: Config, acts: seq<Action>, ok: (Config, Action) -> bool) {
    forall k :: 0 <= k < |acts| ==> ok(Play(p, c, acts[..k]), acts[k])
  }

  lemma PlaySnoc(p: Image, c: Config, front: seq<Action>, a: Action)
    ensures Play(p, c, front + [a]) == Act(p, Play(p, c, front), a)
  {
    hide Act;
    assert (front + [a])[..|front|] == front;
  }

  lemma ThroughoutSnoc(p: Image, c: Config, front: seq<Action>, a: Action, good: Config -> bool)
    ensures Throughout(p, c, front + [a], good) <==>
      Throughout(p, c, front, good) && good(Act(p, Play(p, c, front), a))
  {
    hide Act, Play;
    var acts := front + [a];
    PlaySnoc(p, c, front, a);
    assert acts[..|acts|] == acts;
    assert forall k :: 0 <= k <= |front| ==> acts[..k] == front[..k];
  }

  lemma AtEachSnoc(p: Image, c: Config, front: seq<Action>, a: Action, ok: (Config, Action) -> bool)
    ensures AtEach(p, c, front + [a], ok) <==> AtEach(p, c, front, ok) && ok(Play(p, c, front), a)
  {
    hide Act, Play;
    var acts := front + [a];
    assert acts[..|front|] == front;
    assert forall k :: 0 <= k <= |front| ==> acts[..k] == front[..k];
  }

  lemma ThroughoutEnd(p: Image, c: Config, acts: seq<Action>, good: Config -> bool)
    ensures Throughout(p, c, acts, good) ==> good(Play(p, c, acts))
  {
    hide Play;
    assert acts[..|acts|] == acts;
  }

  /** A property that single actions keep exactly when they pass a test holds throughout exactly when all pass it. */
  lemma {:induction false} ThroughoutIff(
      p: Image, c: Config, acts: seq<Action>, good: Config -> bool, ok: (Config, Action) -> bool)
    requires good(c) && forall d: Config, a: Action :: good(d) ==> (good(Act(p, d, a)) <==> ok(d, a))
    ensures Throughout(p, c, acts, good) <==> AtEach(p, c, acts, ok)
    decreases |acts|
  {
    hide Act;
    if acts == [] {
    } else {
      hide Throughout, AtEach, Play;
      var front, a := acts[..|acts| - 1], acts[|acts| - 1];
      ThroughoutIff(p, c, front, good, ok);
      assert acts == front + [a];
      ThroughoutSnoc(p, c, front, a, good);
      AtEachSnoc(p, c, front, a, ok);
      ThroughoutEnd(p, c, front, good);
    }
  }

  /** A run is a history of steps alone. */
  lemma {:induction false} RunIsHistory(p: Image, c: Config, n: nat)
    ensures Run(p, c, n) == Play(p, c, Steps(n))
  {
    hide Step;
    if n == 0 {
    } else {
      RunIsHistory(p, c, n - 1);
      assert Steps(n)[..n - 1] == Steps(n - 1);
    }
  }
}
