/** The threshold search as a state machine: one step per classified
    response line, over an immutable (test-order position, ladder index,
    threshold curve) state. */
module Search {
  import opened Responses
  import opened Grid

  /** `pos` is the position in the test order, `k` the ladder index of the
      tone being played, `curve` the thresholds indexed by frequency. */
  datatype State = State(pos: nat, k: nat, curve: seq<real>)

  /** Where a run of the search ended, how many lines of the script it read,
      and the ladder index of every tone that received a valid answer, in
      the order they played. */
  datatype Trace = Trace(final: State, used: nat, rungs: seq<nat>)

  /** A state the search can be in: inside the test order and, while a
      frequency is under test, on a rung of the ladder. */
  predicate Settled(ladder: seq<real>, order: seq<nat>, s: State) {
    && OrderFits(order, |s.curve|)
    && s.pos <= |order|
    && (s.pos < |order| ==> s.k < |ladder|)
  }

  /** A frequency is under test (a tone is playing and awaits an answer). */
  predicate Testing(order: seq<nat>, s: State) {
    s.pos < |order|
  }

  /** The `for a in amplitude` loop running out: a frequency whose ladder is
      used up is left with its entry as it is, and the next one begins at
      the lowest amplitude. */
  function Settle(ladder: seq<real>, order: seq<nat>, s: State): (r: State)
    requires OrderFits(order, |s.curve|) && s.pos <= |order|
    ensures Settled(ladder, order, r)
    ensures r.curve == s.curve && s.pos <= r.pos
    ensures s.pos == |order| || s.k < |ladder| ==> r == s
    ensures |ladder| > 0 && s.pos < |order| && s.k >= |ladder| ==> r == State(s.pos + 1, 0, s.curve)
    ensures |ladder| == 0 ==> r.pos == |order|
    decreases |order| - s.pos
  {
    if s.pos < |order| && s.k >= |ladder| then Settle(ladder, order, State(s.pos + 1, 0, s.curve))
    else s
  }

  /** After a valid answer, the check `amp_curve[f_idx] > 0`: a positive
      entry ends this frequency's scan, otherwise the next amplitude plays. */
  function AfterAnswer(ladder: seq<real>, order: seq<nat>, s: State, curve: seq<real>): State
    requires Settled(ladder, order, s) && Testing(order, s) && |curve| == |s.curve|
  {
    if curve[order[s.pos]] > 0.0 then Settle(ladder, order, State(s.pos + 1, 0, curve))
    else Settle(ladder, order, State(s.pos, s.k + 1, curve))
  }

  /** One classified response line read while the tone at `ladder[s.k]`
      plays for frequency `order[s.pos]`. */
  function Step(ladder: seq<real>, order: seq<nat>, s: State, a: Answer): (t: State)
    requires Settled(ladder, order, s) && Testing(order, s)
    ensures Settled(ladder, order, t)
    ensures |t.curve| == |s.curve|
    // only the entry of the frequency under test can change, and only on "y"
    ensures a == Yes ==> t.curve == s.curve[order[s.pos] := ladder[s.k]]
    ensures a != Yes ==> t.curve == s.curve
    // an invalid line changes nothing, and every valid line changes something
    ensures t == s <==> a == Invalid
    // a valid line moves to the next amplitude or on to a later frequency
    ensures a != Invalid ==> t.pos > s.pos || (t.pos == s.pos && t.k == s.k + 1)
    ensures |ladder| > 0 ==> t.pos <= s.pos + 1
  {
    var f := order[s.pos];
    match a
    case Invalid => s
    case Yes => AfterAnswer(ladder, order, s, s.curve[f := ladder[s.k]])
    case No => AfterAnswer(ladder, order, s, s.curve)
  }

  /** The search driven by a script of classified response lines until the frequency at
      position `stop` of the test order would begin, the whole order is done,
      or the script runs out. */
  function Run(ladder: seq<real>, order: seq<nat>, s: State, script: seq<Answer>, stop: nat): (r: Trace)
    requires Settled(ladder, order, s)
    ensures Settled(ladder, order, r.final)
    ensures |r.final.curve| == |s.curve|
    ensures r.used <= |script|
    ensures s.pos <= r.final.pos
    // it stops early only when the script runs out
    ensures r.final.pos < stop && Testing(order, r.final) ==> r.used == |script|
    ensures |ladder| > 0 && s.pos <= stop ==> r.final.pos <= stop
    decreases |script|
  {
    if s.pos >= stop || !Testing(order, s) || |script| == 0 then Trace(s, 0, [])
    else
      var t := Step(ladder, order, s, script[0]);
      var rest := Run(ladder, order, t, script[1..], stop);
      var rungs := if script[0] == Invalid then rest.rungs else [s.k] + rest.rungs;
      Trace(rest.final, rest.used + 1, rungs)
  }

  /** "n" while the entry is still 0: the next amplitude plays, or, past the
      top of the ladder, the frequency is left with its entry unchanged. */
  lemma StepOnNo(ladder: seq<real>, order: seq<nat>, s: State, a: Answer)
    requires Settled(ladder, order, s) && Testing(order, s)
    requires a == No && s.curve[order[s.pos]] == 0.0
    ensures Step(ladder, order, s, a) == Settle(ladder, order, State(s.pos, s.k + 1, s.curve))
    ensures s.k + 1 < |ladder| ==> Step(ladder, order, s, a) == State(s.pos, s.k + 1, s.curve)
    ensures s.k + 1 == |ladder| ==> Step(ladder, order, s, a) == State(s.pos + 1, 0, s.curve)
  {
  }

  /** "y" at a positive amplitude: the amplitude is recorded for the
      frequency under test and the next frequency begins at the bottom rung. */
  lemma StepOnYes(ladder: seq<real>, order: seq<nat>, s: State, a: Answer)
    requires Settled(ladder, order, s) && Testing(order, s)
    requires a == Yes && ladder[s.k] > 0.0
    ensures Step(ladder, order, s, a) == State(s.pos + 1, 0, s.curve[order[s.pos] := ladder[s.k]])
  {
  }

  /** One unfolding of `Run` while a frequency before `stop` is under test. */
  lemma RunFirstLine(ladder: seq<real>, order: seq<nat>, s: State, script: seq<Answer>, stop: nat)
    requires Settled(ladder, order, s) && Testing(order, s) && s.pos < stop && |script| > 0
    ensures var rest := Run(ladder, order, Step(ladder, order, s, script[0]), script[1..], stop);
            Run(ladder, order, s, script, stop)
            == Trace(rest.final, rest.used + 1, if script[0] == Invalid then rest.rungs else [s.k] + rest.rungs)
  {
  }

  /** A run that reads "n" below the top rung while the entry is still 0
      continues from the next rung, having answered the current one. */
  lemma RunAfterNo(ladder: seq<real>, order: seq<nat>, s: State, script: seq<Answer>, stop: nat)
    requires Settled(ladder, order, s) && Testing(order, s) && s.pos < stop
    requires |script| > 0 && script[0] == No
    requires s.curve[order[s.pos]] == 0.0 && s.k + 1 < |ladder|
    ensures var r := Run(ladder, order, State(s.pos, s.k + 1, s.curve), script[1..], stop);
            Run(ladder, order, s, script, stop) == Trace(r.final, r.used + 1, [s.k] + r.rungs)
  {
    StepOnNo(ladder, order, s, script[0]);
    RunFirstLine(ladder, order, s, script, stop);
  }

  /** A scan that reads "n" at the top rung while the entry is still 0 ends
      there, leaving the entry 0. */
  lemma RunAfterLastNo(ladder: seq<real>, order: seq<nat>, s: State, script: seq<Answer>)
    requires Settled(ladder, order, s) && Testing(order, s)
    requires |script| > 0 && script[0] == No
    requires s.curve[order[s.pos]] == 0.0 && s.k + 1 == |ladder|
    ensures Run(ladder, order, s, script, s.pos + 1) == Trace(State(s.pos + 1, 0, s.curve), 1, [s.k])
  {
    StepOnNo(ladder, order, s, script[0]);
    RunFirstLine(ladder, order, s, script, s.pos + 1);
  }

  /** A scan that reads "y" at a positive amplitude ends there, recording it. */
  lemma RunAfterYes(ladder: seq<real>, order: seq<nat>, s: State, script: seq<Answer>)
    requires Settled(ladder, order, s) && Testing(order, s)
    requires |script| > 0 && script[0] == Yes && ladder[s.k] > 0.0
    ensures Run(ladder, order, s, script, s.pos + 1)
            == Trace(State(s.pos + 1, 0, s.curve[order[s.pos] := ladder[s.k]]), 1, [s.k])
  {
    StepOnYes(ladder, order, s, script[0]);
    RunFirstLine(ladder, order, s, script, s.pos + 1);
  }

  /** The valid answers in `script`, in order: `true` for "y", `false` for "n". */
  function ValidAnswers(script: seq<Answer>): (v: seq<bool>)
    ensures |v| <= |script|
  {
    if |script| == 0 then []
    else
      match script[0]
      case Invalid => ValidAnswers(script[1..])
      case Yes => [true] + ValidAnswers(script[1..])
      case No => [false] + ValidAnswers(script[1..])
  }

  /** A valid first line contributes the first valid answer. */
  lemma ValidAnswerHead(script: seq<Answer>)
    requires |script| > 0 && script[0] != Invalid
    ensures ValidAnswers(script) == [script[0] == Yes] + ValidAnswers(script[1..])
  {
  }

  /** Reading an invalid line changes nothing: the run continues from the same
      state as if the line had never been typed. */
  lemma InvalidLineIsSkipped(ladder: seq<real>, order: seq<nat>, s: State, script: seq<Answer>, stop: nat)
    requires Settled(ladder, order, s) && Testing(order, s) && s.pos < stop
    requires |script| > 0 && script[0] == Invalid
    ensures var r := Run(ladder, order, s, script[1..], stop);
            Run(ladder, order, s, script, stop) == Trace(r.final, r.used + 1, r.rungs)
  {
  }

  /** Re-prompting is invisible: two scripts with the same valid answers in
      the same order leave the search in the same state. */
  lemma {:induction false} RunSeesOnlyValidAnswers(ladder: seq<real>, order: seq<nat>, s: State, a: seq<Answer>, b: seq<Answer>, stop: nat)
    requires Settled(ladder, order, s)
    requires ValidAnswers(a) == ValidAnswers(b)
    ensures Run(ladder, order, s, a, stop).final == Run(ladder, order, s, b, stop).final
    decreases |a| + |b|
  {
    if s.pos >= stop || !Testing(order, s) {
    } else if |a| > 0 && a[0] == Invalid {
      InvalidLineIsSkipped(ladder, order, s, a, stop);
      RunSeesOnlyValidAnswers(ladder, order, s, a[1..], b, stop);
    } else if |b| > 0 && b[0] == Invalid {
      InvalidLineIsSkipped(ladder, order, s, b, stop);
      RunSeesOnlyValidAnswers(ladder, order, s, a, b[1..], stop);
    } else if |a| == 0 || |b| == 0 {
      assert |a| == 0 && |b| == 0;
    } else {
      ValidAnswerHead(a);
      ValidAnswerHead(b);
      assert ValidAnswers(a)[0] == ValidAnswers(b)[0];
      assert ValidAnswers(a)[1..] == ValidAnswers(b)[1..];
      RunFirstLine(ladder, order, s, a, stop);
      RunFirstLine(ladder, order, s, b, stop);
      RunSeesOnlyValidAnswers(ladder, order, Step(ladder, order, s, a[0]), a[1..], b[1..], stop);
    }
  }

  /** The outer loop is strictly sequential: running up to `stop1` and then
      on to `stop2` from where the first run ended is the same as running to
      `stop2` at once. */
  lemma {:induction false} RunSplits(ladder: seq<real>, order: seq<nat>, s: State, script: seq<Answer>, stop1: nat, stop2: nat)
    requires Settled(ladder, order, s) && stop1 <= stop2
    ensures var a := Run(ladder, order, s, script, stop1);
            var b := Run(ladder, order, a.final, script[a.used..], stop2);
            Run(ladder, order, s, script, stop2) == Trace(b.final, a.used + b.used, a.rungs + b.rungs)
    decreases |script|
  {
    var a := Run(ladder, order, s, script, stop1);
    if s.pos >= stop1 || !Testing(order, s) || |script| == 0 {
      assert script[a.used..] == script;
    } else {
      var t := Step(ladder, order, s, script[0]);
      var head: seq<nat> := if script[0] == Invalid then [] else [s.k];
      var a' := Run(ladder, order, t, script[1..], stop1);
      var b := Run(ladder, order, a'.final, script[1..][a'.used..], stop2);
      RunSplits(ladder, order, t, script[1..], stop1, stop2);
      assert a == Trace(a'.final, a'.used + 1, head + a'.rungs);
      assert script[1..][a'.used..] == script[a.used..];
      var whole := Run(ladder, order, t, script[1..], stop2);
      assert whole == Trace(b.final, a'.used + b.used, a'.rungs + b.rungs);
      assert Run(ladder, order, s, script, stop2) == Trace(whole.final, whole.used + 1, head + whole.rungs);
      ConcatIsAssociative(head, a'.rungs, b.rungs);
    }
  }

  lemma ConcatIsAssociative<T>(a: seq<T>, b: seq<T>, c: seq<T>)
    ensures a + (b + c) == (a + b) + c
  {
  }

  /** Every threshold the run writes is an amplitude on the ladder, so a
      curve of ladder amplitudes and sentinels stays one. */
  lemma {:induction false} RunKeepsLadderValues(ladder: seq<real>, order: seq<nat>, s: State, script: seq<Answer>, stop: nat)
    requires Settled(ladder, order, s) && InLadderOrZero(ladder, s.curve)
    ensures InLadderOrZero(ladder, Run(ladder, order, s, script, stop).final.curve)
    decreases |script|
  {
    if s.pos >= stop || !Testing(order, s) || |script| == 0 {
    } else {
      var t := Step(ladder, order, s, script[0]);
      forall x | 0 <= x < |t.curve|
        ensures t.curve[x] == 0.0 || t.curve[x] in ladder
      {
        if script[0] == Yes && x == order[s.pos] {
          assert t.curve[x] == ladder[s.k];
        } else {
          assert t.curve[x] == s.curve[x];
        }
      }
      RunKeepsLadderValues(ladder, order, t, script[1..], stop);
    }
  }

  /** The run writes only the entries of frequencies it finished scanning:
      every frequency index that does not occur in `order[s.pos..r.pos]`
      keeps its entry. */
  lemma {:induction false} RunWritesOnlyScanned(ladder: seq<real>, order: seq<nat>, s: State, script: seq<Answer>, stop: nat)
    requires Settled(ladder, order, s) && AllPositive(ladder)
    ensures var r := Run(ladder, order, s, script, stop);
            forall x :: 0 <= x < |s.curve| && NotScanned(order, s.pos, r.final.pos, x) ==> r.final.curve[x] == s.curve[x]
    decreases |script|
  {
    if s.pos >= stop || !Testing(order, s) || |script| == 0 {
    } else {
      var t := Step(ladder, order, s, script[0]);
      RunWritesOnlyScanned(ladder, order, t, script[1..], stop);
      var r := Run(ladder, order, s, script, stop);
      forall x | 0 <= x < |s.curve| && NotScanned(order, s.pos, r.final.pos, x)
        ensures r.final.curve[x] == s.curve[x]
      {
        if t.pos == s.pos {
          assert t.curve == s.curve;
        } else {
          assert order[s.pos] != x;
        }
        assert NotScanned(order, t.pos, r.final.pos, x);
      }
    }
  }

  /** With a repetition-free test order, an entry whose frequency was
      scanned before the run began is never written again. */
  lemma ScannedEntriesStay(ladder: seq<real>, order: seq<nat>, s: State, script: seq<Answer>, stop: nat, p: nat)
    requires Settled(ladder, order, s) && AllPositive(ladder) && Distinct(order)
    requires p < s.pos
    ensures Run(ladder, order, s, script, stop).final.curve[order[p]] == s.curve[order[p]]
  {
    var r := Run(ladder, order, s, script, stop);
    RunWritesOnlyScanned(ladder, order, s, script, stop);
    assert NotScanned(order, s.pos, r.final.pos, order[p]);
  }
}
