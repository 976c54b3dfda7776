/** A whole measurement session: the randomised sweep over every frequency
    driven by the lines the listener types, and the power curve computed
    from the thresholds it records. */
module Session {
  import opened Responses
  import opened Grid
  import opened Reduce
  import opened Search
  import opened Ideal

  /** How a session ends: every frequency scanned, with the threshold curve,
      its power curve and the number of lines read; or the lines ran out
      while the tone in `waiting` was playing. */
  datatype Result =
    | Completed(thresholds: seq<real>, power: seq<real>, used: nat)
    | OutOfResponses(waiting: State)

  /** `amp_curve = np.zeros_like(frequency)` and the first tone of the first
      frequency, skipping any frequency whose ladder is empty. */
  function Start(ladder: seq<real>, order: seq<nat>): (s: State)
    requires OrderFits(order, |order|)
    ensures Settled(ladder, order, s)
    ensures s.curve == Zeros(|order|)
    ensures |ladder| > 0 ==> s == State(0, 0, Zeros(|order|))
    ensures |ladder| == 0 ==> s.pos == |order|
  {
    Settle(ladder, order, State(0, 0, Zeros(|order|)))
  }

  /** The session over the typed `lines`: the search run over the whole test
      order, then `power_curve = amp_curve ** 2`. */
  function Outcome(ladder: seq<real>, order: seq<nat>, lines: seq<string>): (o: Result)
    requires OrderFits(order, |order|)
    ensures o.Completed? ==> |o.thresholds| == |order| && o.used <= |lines|
    ensures o.Completed? ==> InLadderOrZero(ladder, o.thresholds)
    ensures o.Completed? ==> |o.power| == |order| && forall i :: 0 <= i < |order| ==> o.power[i] == Square(o.thresholds[i])
    ensures o.OutOfResponses? ==> Settled(ladder, order, o.waiting) && Testing(order, o.waiting)
  {
    var s := Start(ladder, order);
    var r := Run(ladder, order, s, ClassifyAll(lines), |order|);
    if Testing(order, r.final) then OutOfResponses(r.final)
    else
      RunKeepsLadderValues(ladder, order, s, ClassifyAll(lines), |order|);
      Completed(r.final.curve, Power(r.final.curve), r.used)
  }

  /** The rest of the session from the method's loop variables (`idx`, the
      ladder index, `amp_curve`, lines read) ends where the whole session
      does, having read the rest of its lines. */
  ghost predicate Tracks(ladder: seq<real>, order: seq<nat>, s: State, script: seq<Answer>, i: nat, goal: Trace) {
    && OrderFits(order, |s.curve|)
    && s.pos <= |order|
    && i <= |script|
    && var r := Run(ladder, order, Settle(ladder, order, s), script[i..], |order|);
       r.final == goal.final && i + r.used == goal.used
  }

  /** An invalid line is read and the same tone keeps playing. */
  lemma TracksInvalidLine(ladder: seq<real>, order: seq<nat>, s: State, script: seq<Answer>, i: nat, goal: Trace)
    requires Settled(ladder, order, s) && Testing(order, s)
    requires Tracks(ladder, order, s, script, i, goal)
    requires i < |script| && script[i] == Invalid
    ensures Tracks(ladder, order, s, script, i + 1, goal)
  {
    InvalidLineIsSkipped(ladder, order, s, script[i..], |order|);
    assert script[i..][1..] == script[i + 1..];
  }

  /** A valid line is read: on "y" the amplitude is stored, and then the
      `amp_curve[f_idx] > 0` check either ends the frequency or moves on to
      the next amplitude. */
  lemma TracksValidLine(ladder: seq<real>, order: seq<nat>, idx: nat, k: nat, before: seq<real>, script: seq<Answer>, i: nat, goal: Trace, curve: seq<real>)
    requires Settled(ladder, order, State(idx, k, before)) && Testing(order, State(idx, k, before))
    requires 0 < i <= |script| && Tracks(ladder, order, State(idx, k, before), script, i - 1, goal)
    requires script[i - 1] != Invalid
    requires curve == if script[i - 1] == Yes then before[order[idx] := ladder[k]] else before
    ensures curve[order[idx]] > 0.0 ==> Tracks(ladder, order, State(idx + 1, 0, curve), script, i, goal)
    ensures curve[order[idx]] <= 0.0 ==> Tracks(ladder, order, State(idx, k + 1, curve), script, i, goal)
  {
    var s := State(idx, k, before);
    var next := if curve[order[idx]] > 0.0 then State(idx + 1, 0, curve) else State(idx, k + 1, curve);
    assert Step(ladder, order, s, script[i - 1]) == Settle(ladder, order, next);
    RunFirstLine(ladder, order, s, script[i - 1..], |order|);
    assert script[i - 1..][1..] == script[i..];
  }

  /** The `for a in amplitude` loop running out moves on to the next
      frequency. */
  lemma TracksLadderEnd(ladder: seq<real>, order: seq<nat>, s: State, script: seq<Answer>, i: nat, goal: Trace)
    requires Tracks(ladder, order, s, script, i, goal)
    requires s.pos < |order| && s.k >= |ladder|
    ensures Tracks(ladder, order, State(s.pos + 1, 0, s.curve), script, i, goal)
  {
  }

  /** With no line left, the session ends where the method stands. */
  lemma TracksExhausted(ladder: seq<real>, order: seq<nat>, s: State, script: seq<Answer>, goal: Trace)
    requires Settled(ladder, order, s)
    requires Tracks(ladder, order, s, script, |script|, goal)
    ensures goal.final == s && goal.used == |script|
  {
    assert script[|script|..] == [];
  }

  /** Past the last frequency, the session ends where the method stands. */
  lemma TracksDone(ladder: seq<real>, order: seq<nat>, curve: seq<real>, script: seq<Answer>, i: nat, goal: Trace)
    requires Tracks(ladder, order, State(|order|, 0, curve), script, i, goal)
    ensures goal.final == State(|order|, 0, curve) && goal.used == i
  {
  }

  /** Every line in `lines[i..j]` is neither "n" nor "y". */
  predicate Skipped(lines: seq<string>, i: nat, j: nat)
    requires i <= j <= |lines|
  {
    forall m :: i <= m < j ==> Classify(lines[m]) == Invalid
  }

  /** One more invalid line extends a run of invalid lines. */
  lemma SkippedExtends(lines: seq<string>, i: nat, j: nat)
    requires i <= j < |lines| && Skipped(lines, i, j) && Classify(lines[j]) == Invalid
    ensures Skipped(lines, i, j + 1)
  {
  }

  /** A run of invalid lines is read and the same tone keeps playing. */
  lemma {:induction false} TracksSkipped(ladder: seq<real>, order: seq<nat>, s: State, lines: seq<string>, i: nat, j: nat, goal: Trace)
    requires Settled(ladder, order, s) && Testing(order, s)
    requires i <= j <= |lines| && Skipped(lines, i, j)
    requires Tracks(ladder, order, s, ClassifyAll(lines), i, goal)
    ensures Tracks(ladder, order, s, ClassifyAll(lines), j, goal)
    decreases j - i
  {
    if i < j {
      TracksInvalidLine(ladder, order, s, ClassifyAll(lines), i, goal);
      TracksSkipped(ladder, order, s, lines, i + 1, j, goal);
    }
  }

  /** The `while True` prompt loop: read lines from `i` until one
      normalises to "n" or "y"; the answer is `Invalid` only when the lines
      run out first. */
  method ReadAnswer(lines: seq<string>, i: nat) returns (answer: Answer, next: nat)
    requires i <= |lines|
    ensures i <= next <= |lines|
    ensures answer == Invalid ==> next == |lines| && Skipped(lines, i, next)
    ensures answer != Invalid ==> i < next && Skipped(lines, i, next - 1) && Classify(lines[next - 1]) == answer
  {
    next := i;
    while next < |lines|
      invariant i <= next <= |lines| && Skipped(lines, i, next)
    {
      answer := Classify(lines[next]);
      if answer != Invalid {
        return answer, next + 1;
      }
      SkippedExtends(lines, i, next);
      next := next + 1;
    }
    answer := Invalid;
  }

  /** One prompt at the tone `ladder[k]` for the frequency at position `idx`:
      the lines skipped on the way are invalid, and the session either ran
      out of lines with this tone waiting or continues from the valid line
      just read. */
  method Listen(ladder: seq<real>, order: seq<nat>, lines: seq<string>, idx: nat, k: nat, curve: seq<real>, i: nat, ghost goal: Trace)
    returns (answer: Answer, next: nat)
    requires Settled(ladder, order, State(idx, k, curve)) && Testing(order, State(idx, k, curve))
    requires i <= |lines| && Tracks(ladder, order, State(idx, k, curve), ClassifyAll(lines), i, goal)
    ensures i <= next <= |lines|
    ensures answer == Invalid ==> goal.final == State(idx, k, curve) && goal.used == |lines|
    ensures answer != Invalid ==>
      && i < next && Classify(lines[next - 1]) == answer
      && Tracks(ladder, order, State(idx, k, curve), ClassifyAll(lines), next - 1, goal)
  {
    answer, next := ReadAnswer(lines, i);
    if answer == Invalid {
      TracksSkipped(ladder, order, State(idx, k, curve), lines, i, next, goal);
      TracksExhausted(ladder, order, State(idx, k, curve), ClassifyAll(lines), goal);
    } else {
      TracksSkipped(ladder, order, State(idx, k, curve), lines, i, next - 1, goal);
    }
  }

  /** One amplitude of the `for a in amplitude` loop: prompt at `ladder[k]`,
      store it on "y", then apply the `amp_curve[f_idx] > 0` check. Unless
      the lines run out (`stuck`), `heard` says whether the frequency now has
      a threshold, and the session continues from the next frequency or the
      next amplitude accordingly. */
  method TryRung(ladder: seq<real>, order: seq<nat>, lines: seq<string>, idx: nat, k: nat, curve: seq<real>, i: nat, ghost goal: Trace)
    returns (curve': seq<real>, i': nat, heard: bool, stuck: bool)
    requires Settled(ladder, order, State(idx, k, curve)) && Testing(order, State(idx, k, curve))
    requires i <= |lines| && Tracks(ladder, order, State(idx, k, curve), ClassifyAll(lines), i, goal)
    ensures |curve'| == |curve| && i <= i' <= |lines|
    ensures curve' == curve || curve' == curve[order[idx] := ladder[k]]
    ensures stuck ==> curve' == curve && goal.final == State(idx, k, curve) && goal.used == |lines|
    ensures !stuck ==> (heard <==> curve'[order[idx]] > 0.0)
    ensures !stuck && heard ==> Tracks(ladder, order, State(idx + 1, 0, curve'), ClassifyAll(lines), i', goal)
    ensures !stuck && !heard ==> Tracks(ladder, order, State(idx, k + 1, curve'), ClassifyAll(lines), i', goal)
  {
    var answer, next := Listen(ladder, order, lines, idx, k, curve, i, goal);
    if answer == Invalid {
      return curve, next, false, true;
    }
    curve' := if answer == Yes then curve[order[idx] := ladder[k]] else curve;
    i' := next;
    TracksValidLine(ladder, order, idx, k, curve, ClassifyAll(lines), i', goal, curve');
    heard, stuck := curve'[order[idx]] > 0.0, false;
  }

  /** The `for a in amplitude` loop for the frequency at position `idx` of
      the test order, starting from `curve` with `i` lines read. Unless the
      lines run out (`stuck`, with the tone at rung `k` waiting), the rest of
      the session continues from the next frequency. */
  method ScanFrequency(ladder: seq<real>, order: seq<nat>, lines: seq<string>, idx: nat, curve: seq<real>, i: nat, ghost goal: Trace)
    returns (curve': seq<real>, i': nat, k: nat, stuck: bool)
    requires OrderFits(order, |curve|) && idx < |order| && i <= |lines|
    requires Tracks(ladder, order, State(idx, 0, curve), ClassifyAll(lines), i, goal)
    ensures |curve'| == |curve| && i <= i' <= |lines|
    ensures !stuck ==> Tracks(ladder, order, State(idx + 1, 0, curve'), ClassifyAll(lines), i', goal)
    ensures stuck ==> k < |ladder| && goal.final == State(idx, k, curve') && goal.used == |lines|
  {
    curve', i', k, stuck := curve, i, 0, false;
    while k < |ladder|
      invariant k <= |ladder| && |curve'| == |curve| && i <= i' <= |lines|
      invariant Tracks(ladder, order, State(idx, k, curve'), ClassifyAll(lines), i', goal)
    {
      var c, n, heard, out := TryRung(ladder, order, lines, idx, k, curve', i', goal);
      if out {
        return curve', n, k, true;
      }
      curve', i' := c, n;
      if heard {
        return;
      }
      k := k + 1;
    }
    TracksLadderEnd(ladder, order, State(idx, k, curve'), ClassifyAll(lines), i', goal);
  }

  /** The outer `for idx, f_idx in enumerate(freq_order)` loop and the power
      reduction: the whole session, run line by line. */
  method Measure(ladder: seq<real>, order: seq<nat>, lines: seq<string>) returns (o: Result)
    requires OrderFits(order, |order|)
    ensures o == Outcome(ladder, order, lines)
  {
    ghost var script := ClassifyAll(lines);
    ghost var goal := Run(ladder, order, Start(ladder, order), script, |order|);
    var curve := Zeros(|order|);
    var i := 0;
    var idx := 0;
    assert script[0..] == script;
    while idx < |order|
      invariant idx <= |order| && |curve| == |order| && i <= |lines|
      invariant Tracks(ladder, order, State(idx, 0, curve), script, i, goal)
    {
      var curve', i', k, stuck := ScanFrequency(ladder, order, lines, idx, curve, i, goal);
      if stuck {
        return OutOfResponses(State(idx, k, curve'));
      }
      curve, i, idx := curve', i', idx + 1;
    }
    TracksDone(ladder, order, curve, script, i, goal);
    return Completed(curve, Power(curve), i);
  }

  /** With a repetition-free test order and a positive ladder, the session is
      the reference sweep over the valid answers: it completes exactly when
      the reference does, with the same thresholds, and otherwise stops at
      the same waiting tone. */
  lemma OutcomeMatchesSweep(ladder: seq<real>, order: seq<nat>, lines: seq<string>)
    requires IsPermutation(order, |order|) && AllPositive(ladder)
    ensures var o := Outcome(ladder, order, lines);
            var w := Sweep(ladder, order, State(0, 0, Zeros(|order|)), ValidAnswers(ClassifyAll(lines)));
            && (o.Completed? <==> w.pos >= |order|)
            && (o.Completed? ==> o.thresholds == w.curve)
            && (o.OutOfResponses? ==> o.waiting == w)
  {
    var s := Start(ladder, order);
    var v := ValidAnswers(ClassifyAll(lines));
    assert Unscanned(order, s);
    RunMatchesSweep(ladder, order, s, ClassifyAll(lines));
    SweepOfSettle(ladder, order, State(0, 0, Zeros(|order|)), v);
  }

  /** Whatever invalid lines the listener types, and wherever, the session
      ends the same way as long as the "n"s and "y"s come in the same order. */
  lemma OnlyValidAnswersMatter(ladder: seq<real>, order: seq<nat>, a: seq<string>, b: seq<string>)
    requires OrderFits(order, |order|)
    requires ValidAnswers(ClassifyAll(a)) == ValidAnswers(ClassifyAll(b))
    ensures Outcome(ladder, order, a).Completed? == Outcome(ladder, order, b).Completed?
    ensures Outcome(ladder, order, a).Completed? ==> Outcome(ladder, order, a).thresholds == Outcome(ladder, order, b).thresholds
    ensures Outcome(ladder, order, a).Completed? ==> Outcome(ladder, order, a).power == Outcome(ladder, order, b).power
    ensures Outcome(ladder, order, a).OutOfResponses? ==> Outcome(ladder, order, a) == Outcome(ladder, order, b)
  {
    RunSeesOnlyValidAnswers(ladder, order, Start(ladder, order), ClassifyAll(a), ClassifyAll(b), |order|);
  }

  /** The lines of the re-prompting example classify as two invalid lines
      and a "y". */
  lemma RepromptLinesClassify()
    ensures var c := ClassifyAll(["", "maybe", " Y "]);
            |c| == 3 && c[0] == Invalid && c[1] == Invalid && c[2] == Yes
  {
    var a: seq<string> := ["", "maybe", " Y "];
    EmptyLineIsInvalid();
    WordIsInvalid();
    PaddedCapitalIsYes();
    assert a[0] == "" && a[1] == "maybe" && a[2] == " Y ";
  }

  /** Those lines carry the single valid answer "y". */
  lemma RepromptLinesAnswer()
    ensures ValidAnswers(ClassifyAll(["", "maybe", " Y "])) == [true]
  {
    var c := ClassifyAll(["", "maybe", " Y "]);
    RepromptLinesClassify();
    assert |c[2..][1..]| == 0;
    assert ValidAnswers(c[2..]) == [true];
    assert c[1..][0] == c[1] && c[1..][1..] == c[2..];
    assert ValidAnswers(c[1..]) == [true];
  }

  /** A bare "y" is the single valid answer "y". */
  lemma BareLineAnswer()
    ensures ValidAnswers(ClassifyAll(["y"])) == [true]
  {
    var b: seq<string> := ["y"];
    BareLetterIsYes();
    assert b[0] == "y";
    assert |ClassifyAll(b)[1..]| == 0;
  }

  /** Re-prompting in practice: an empty line and a stray word before a
      padded capital "Y" end the session as a single "y" would, with the
      same thresholds and power curve. */
  lemma RepromptExample(ladder: seq<real>, order: seq<nat>)
    requires OrderFits(order, |order|)
    ensures var a := Outcome(ladder, order, ["", "maybe", " Y "]);
            var b := Outcome(ladder, order, ["y"]);
            && a.Completed? == b.Completed?
            && (a.Completed? ==> a.thresholds == b.thresholds && a.power == b.power)
            && (a.OutOfResponses? ==> a == b)
  {
    RepromptLinesAnswer();
    BareLineAnswer();
    OnlyValidAnswersMatter(ladder, order, ["", "maybe", " Y "], ["y"]);
  }
}
