/** One frequency's scan up the amplitude ladder, stated against the valid
    answers alone: the first "y" fixes the threshold, a ladder of "n"
    leaves the sentinel, and too few answers leave the scan unfinished. */
module Scan {
  import opened Responses
  import opened Grid
  import opened Search

  /** The first `i` valid answers are all "n". */
  predicate AllNo(v: seq<bool>, i: nat) {
    forall j :: 0 <= j < i && j < |v| ==> !v[j]
  }

  /** Dropping an invalid first line leaves the valid answers unchanged;
      dropping an "n" removes one leading "n"; and a "y" first can lead no
      nonempty run of "n"s. */
  lemma AllNoOfTail(script: seq<Answer>, i: nat)
    requires |script| > 0 && AllNo(ValidAnswers(script), i)
    ensures script[0] == Invalid ==> ValidAnswers(script[1..]) == ValidAnswers(script)
    ensures script[0] == No ==>
      && |ValidAnswers(script)| == |ValidAnswers(script[1..])| + 1
      && (0 < i ==> AllNo(ValidAnswers(script[1..]), i - 1))
      && (0 < i < |ValidAnswers(script)| ==> ValidAnswers(script[1..])[i - 1] == ValidAnswers(script)[i])
    ensures script[0] == Yes ==> i == 0
  {
    var v, w := ValidAnswers(script), ValidAnswers(script[1..]);
    if script[0] == No {
      assert v == [false] + w;
      if 0 < i {
        forall j | 0 <= j < i - 1 && j < |w|
          ensures !w[j]
        {
          assert w[j] == v[j + 1];
        }
      }
    } else if script[0] == Yes {
      assert v == [true] + w;
      assert v[0];
    }
  }

  /** The step of `ScanStopsAtFirstYes` across an "n": if the scan from the
      next rung stops at `ladder[s.k + i]`, so does the scan from this one,
      which also answered rung `s.k`. */
  lemma NoBeforeFirstYes(ladder: seq<real>, order: seq<nat>, s: State, script: seq<Answer>, i: nat)
    requires Settled(ladder, order, s) && Testing(order, s)
    requires s.curve[order[s.pos]] == 0.0
    requires |script| > 0 && script[0] == No && 0 < i && s.k + i < |ladder|
    requires var t := State(s.pos, s.k + 1, s.curve);
             var r := Run(ladder, order, t, script[1..], t.pos + 1);
             && r.final.pos == t.pos + 1
             && r.final.curve == t.curve[order[t.pos] := ladder[t.k + (i - 1)]]
             && r.rungs == Rungs(t.k, t.k + (i - 1) + 1)
    ensures var r := Run(ladder, order, s, script, s.pos + 1);
            && r.final.pos == s.pos + 1
            && r.final.curve == s.curve[order[s.pos] := ladder[s.k + i]]
            && r.rungs == Rungs(s.k, s.k + i + 1)
  {
    RunAfterNo(ladder, order, s, script, s.pos + 1);
    assert s.k + 1 + (i - 1) == s.k + i;
  }

  /** If the `i`-th valid answer is the first "y" and the ladder still has
      that rung, the scan records `ladder[s.k + i]` for this frequency and
      moves on, after valid answers to exactly the rungs from `s.k` up to
      and including that one. */
  lemma {:induction false} ScanStopsAtFirstYes(ladder: seq<real>, order: seq<nat>, s: State, script: seq<Answer>, i: nat)
    requires AllPositive(ladder)
    requires Settled(ladder, order, s) && Testing(order, s)
    requires s.curve[order[s.pos]] == 0.0
    requires i < |ValidAnswers(script)| && s.k + i < |ladder|
    requires ValidAnswers(script)[i] && AllNo(ValidAnswers(script), i)
    ensures var r := Run(ladder, order, s, script, s.pos + 1);
            && r.final.pos == s.pos + 1
            && r.final.curve == s.curve[order[s.pos] := ladder[s.k + i]]
            && r.rungs == Rungs(s.k, s.k + i + 1)
    decreases |script|
  {
    AllNoOfTail(script, i);
    match script[0]
    case Invalid =>
      ScanStopsAtFirstYes(ladder, order, s, script[1..], i);
      InvalidLineIsSkipped(ladder, order, s, script, s.pos + 1);
    case No =>
      ScanStopsAtFirstYes(ladder, order, State(s.pos, s.k + 1, s.curve), script[1..], i - 1);
      NoBeforeFirstYes(ladder, order, s, script, i);
    case Yes =>
      RunAfterYes(ladder, order, s, script);
  }

  /** The step of `ScanTriesWholeLadder` across an "n" below the top rung. */
  lemma NoBelowTopRung(ladder: seq<real>, order: seq<nat>, s: State, script: seq<Answer>)
    requires Settled(ladder, order, s) && Testing(order, s)
    requires s.curve[order[s.pos]] == 0.0
    requires |script| > 0 && script[0] == No && s.k + 1 < |ladder|
    requires var r := Run(ladder, order, State(s.pos, s.k + 1, s.curve), script[1..], s.pos + 1);
             && r.final.pos == s.pos + 1
             && r.final.curve == s.curve
             && r.rungs == Rungs(s.k + 1, |ladder|)
    ensures var r := Run(ladder, order, s, script, s.pos + 1);
            && r.final.pos == s.pos + 1
            && r.final.curve == s.curve
            && r.rungs == Rungs(s.k, |ladder|)
  {
    assert Rungs(s.k, |ladder|) == [s.k] + Rungs(s.k + 1, |ladder|);
    RunAfterNo(ladder, order, s, script, s.pos + 1);
  }

  /** If the valid answers say "n" to every remaining rung, the whole rest of
      the ladder is tried, the entry keeps its 0, and the scan moves on. */
  lemma {:induction false} ScanTriesWholeLadder(ladder: seq<real>, order: seq<nat>, s: State, script: seq<Answer>)
    requires Settled(ladder, order, s) && Testing(order, s)
    requires s.curve[order[s.pos]] == 0.0
    requires |ladder| - s.k <= |ValidAnswers(script)| && AllNo(ValidAnswers(script), |ladder| - s.k)
    ensures var r := Run(ladder, order, s, script, s.pos + 1);
            && r.final.pos == s.pos + 1
            && r.final.curve == s.curve
            && r.rungs == Rungs(s.k, |ladder|)
    decreases |script|
  {
    AllNoOfTail(script, |ladder| - s.k);
    match script[0]
    case Invalid =>
      ScanTriesWholeLadder(ladder, order, s, script[1..]);
      InvalidLineIsSkipped(ladder, order, s, script, s.pos + 1);
    case No =>
      if s.k + 1 < |ladder| {
        ScanTriesWholeLadder(ladder, order, State(s.pos, s.k + 1, s.curve), script[1..]);
        NoBelowTopRung(ladder, order, s, script);
      } else {
        RunAfterLastNo(ladder, order, s, script);
      }
    case Yes =>
      assert false;
  }

  /** The step of `ScanRunsOutOfLines` across an "n": if the rest of the
      script climbs `m` rungs from the next rung, the whole script climbs
      `n == m + 1` rungs from this one. */
  lemma NoBeforeRunningOut(ladder: seq<real>, order: seq<nat>, s: State, script: seq<Answer>, n: nat, m: nat)
    requires Settled(ladder, order, s) && Testing(order, s)
    requires s.curve[order[s.pos]] == 0.0
    requires |script| > 0 && script[0] == No && n == m + 1 && s.k + n < |ladder|
    requires var t := State(s.pos, s.k + 1, s.curve);
             Run(ladder, order, t, script[1..], t.pos + 1)
             == Trace(State(t.pos, t.k + m, t.curve), |script[1..]|, Rungs(t.k, t.k + m))
    ensures Run(ladder, order, s, script, s.pos + 1)
            == Trace(State(s.pos, s.k + n, s.curve), |script|, Rungs(s.k, s.k + n))
  {
    var r := Run(ladder, order, State(s.pos, s.k + 1, s.curve), script[1..], s.pos + 1);
    assert s.k + 1 + m == s.k + n;
    assert r.final == State(s.pos, s.k + n, s.curve);
    assert r.rungs == Rungs(s.k + 1, s.k + n);
    assert Rungs(s.k, s.k + n) == [s.k] + r.rungs;
    RunAfterNo(ladder, order, s, script, s.pos + 1);
  }

  /** If no line of the script says "y" and it holds fewer valid answers than
      rungs left, it runs out mid-scan: every line is read, the entry is
      unchanged, and the tone at the rung after the last "n" is still
      waiting for an answer. */
  lemma {:induction false} ScanRunsOutOfLines(ladder: seq<real>, order: seq<nat>, s: State, script: seq<Answer>)
    requires Settled(ladder, order, s) && Testing(order, s)
    requires s.curve[order[s.pos]] == 0.0
    requires |ValidAnswers(script)| < |ladder| - s.k && forall j :: 0 <= j < |script| ==> script[j] != Yes
    ensures var n := |ValidAnswers(script)|;
            Run(ladder, order, s, script, s.pos + 1) == Trace(State(s.pos, s.k + n, s.curve), |script|, Rungs(s.k, s.k + n))
    decreases |script|
  {
    var n := |ValidAnswers(script)|;
    if |script| == 0 {
      assert s == State(s.pos, s.k + n, s.curve);
    } else {
      match script[0]
      case Invalid =>
        ScanRunsOutOfLines(ladder, order, s, script[1..]);
        InvalidLineIsSkipped(ladder, order, s, script, s.pos + 1);
      case No =>
        ValidAnswerHead(script);
        ScanRunsOutOfLines(ladder, order, State(s.pos, s.k + 1, s.curve), script[1..]);
        NoBeforeRunningOut(ladder, order, s, script, n, |ValidAnswers(script[1..])|);
    }
  }
}
