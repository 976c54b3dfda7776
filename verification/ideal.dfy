/** The sweep as the program's prompts describe it, stated on the valid
    answers alone: every frequency climbs the ladder until its first "y",
    which becomes its threshold, and a frequency that hears nothing keeps
    the sentinel 0. It shares no code with the search it is compared to. */
module Ideal {
  import opened Responses
  import opened Grid
  import opened Search

  /** Where the sweep stands after the valid answers `v`, starting from `s`:
      a state past the end of the test order when they were enough, otherwise
      the tone still waiting for an answer. */
  function Sweep(ladder: seq<real>, order: seq<nat>, s: State, v: seq<bool>): (r: State)
    requires OrderFits(order, |s.curve|)
    ensures |r.curve| == |s.curve|
    decreases |v|, |order| - s.pos, |ladder| - s.k
  {
    if s.pos >= |order| then s
    else if s.k >= |ladder| then Sweep(ladder, order, State(s.pos + 1, 0, s.curve), v)
    else if |v| == 0 then s
    else if v[0] then Sweep(ladder, order, State(s.pos + 1, 0, s.curve[order[s.pos] := ladder[s.k]]), v[1..])
    else Sweep(ladder, order, State(s.pos, s.k + 1, s.curve), v[1..])
  }

  /** No frequency still to be scanned has a threshold yet. */
  predicate Unscanned(order: seq<nat>, s: State)
    requires OrderFits(order, |s.curve|)
  {
    forall q :: s.pos <= q < |order| ==> s.curve[order[q]] == 0.0
  }

  /** Skipping past a used-up ladder is already part of the reference sweep. */
  lemma {:induction false} SweepOfSettle(ladder: seq<real>, order: seq<nat>, s: State, v: seq<bool>)
    requires OrderFits(order, |s.curve|) && s.pos <= |order|
    ensures Sweep(ladder, order, Settle(ladder, order, s), v) == Sweep(ladder, order, s, v)
    decreases |order| - s.pos
  {
    if s.pos < |order| && s.k >= |ladder| {
      SweepOfSettle(ladder, order, State(s.pos + 1, 0, s.curve), v);
    }
  }

  /** The "n" step of the search while the entry is still 0 is the reference
      sweep's "n" step. */
  lemma NoMatchesSweep(ladder: seq<real>, order: seq<nat>, s: State, v: seq<bool>)
    requires Settled(ladder, order, s) && Testing(order, s)
    requires s.curve[order[s.pos]] == 0.0
    ensures Sweep(ladder, order, Step(ladder, order, s, No), v)
            == Sweep(ladder, order, s, [false] + v)
  {
    SweepOfSettle(ladder, order, State(s.pos, s.k + 1, s.curve), v);
    assert ([false] + v)[1..] == v;
  }

  /** The "y" step of the search at a positive amplitude is the reference
      sweep's "y" step. */
  lemma YesMatchesSweep(ladder: seq<real>, order: seq<nat>, s: State, v: seq<bool>)
    requires Settled(ladder, order, s) && Testing(order, s)
    requires ladder[s.k] > 0.0
    ensures Sweep(ladder, order, Step(ladder, order, s, Yes), v)
            == Sweep(ladder, order, s, [true] + v)
  {
    SweepOfSettle(ladder, order, State(s.pos + 1, 0, s.curve[order[s.pos] := ladder[s.k]]), v);
    assert ([true] + v)[1..] == v;
  }

  /** Recording a threshold for the frequency under test leaves every later
      frequency of a repetition-free order unscanned. */
  lemma YesKeepsUnscanned(order: seq<nat>, s: State, a: real)
    requires OrderFits(order, |s.curve|) && s.pos < |order|
    requires Distinct(order) && Unscanned(order, s)
    ensures Unscanned(order, State(s.pos + 1, 0, s.curve[order[s.pos] := a]))
  {
    var t := State(s.pos + 1, 0, s.curve[order[s.pos] := a]);
    forall q | t.pos <= q < |order|
      ensures t.curve[order[q]] == 0.0
    {
      assert order[s.pos] != order[q];
    }
  }

  /** With a repetition-free test order and a positive ladder, the literal
      search (re-prompts, the `amp_curve[f_idx] > 0` check, the `for` loop
      running out) ends exactly where the reference sweep over its valid
      answers ends. */
  lemma {:induction false} RunMatchesSweep(ladder: seq<real>, order: seq<nat>, s: State, script: seq<Answer>)
    requires AllPositive(ladder) && Distinct(order)
    requires Settled(ladder, order, s) && Unscanned(order, s)
    ensures Run(ladder, order, s, script, |order|).final == Sweep(ladder, order, s, ValidAnswers(script))
    decreases |script|
  {
    if !Testing(order, s) || |script| == 0 {
    } else {
      var t := Step(ladder, order, s, script[0]);
      RunFirstLine(ladder, order, s, script, |order|);
      match script[0]
      case Invalid =>
        RunMatchesSweep(ladder, order, s, script[1..]);
      case No =>
        NoMatchesSweep(ladder, order, s, ValidAnswers(script[1..]));
        RunMatchesSweep(ladder, order, t, script[1..]);
      case Yes =>
        YesKeepsUnscanned(order, s, ladder[s.k]);
        YesMatchesSweep(ladder, order, s, ValidAnswers(script[1..]));
        RunMatchesSweep(ladder, order, t, script[1..]);
    }
  }
}
