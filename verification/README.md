# Edge of silence: the adaptive hearing-threshold search

`edge_of_silence.py` estimates a listener's hearing threshold per frequency.
It visits the frequencies in a random order. For each one it plays tones
up an amplitude ladder, from quiet to loud, and reads typed answers:

- `n` (not heard) moves to the next amplitude;
- `y` (heard) records the current amplitude as that frequency's threshold
  and ends its scan;
- anything else re-prompts while the same tone keeps playing.

A frequency that is never heard keeps the initial threshold 0. At the end
the threshold curve is squared element-wise into a power curve.

This project models that search in Dafny, with the audio and the keyboard
taken out:

- the amplitude ladder is a parameter `seq<real>`;
- the test order is a parameter `seq<nat>`;
- the typed answers are a finite script of lines, `seq<string>`.

Modules:

- `Responses`: `.strip().lower()` on ASCII and the three-way
  classification of a line.
- `Grid`: predicates on the ladder, the test order and the curve, the
  initial zeros and rung ranges.
- `Search`: the search as a pure state machine.
  - The state is the position in the test order, the ladder index of the
    playing tone, and the threshold curve.
  - `Step` reads one classified line; `Run` drives a script.
  - `Trace` also records the ladder index of every tone that got a valid
    answer.
- `Scan`: what one frequency's scan does, stated against the valid
  answers:
  - the first `y` fixes the threshold;
  - a ladder of `n`s leaves 0;
  - too few answers leave the scan waiting.
- `Ideal`: an independent reference sweep over the valid answers alone,
  and the proof that the literal search agrees with it.
- `Reduce`: the power curve.
- `Session`: the whole session.
  - `Outcome` is the functional definition.
  - `Measure` mirrors the program's nested loops, one method per loop
    level: `ReadAnswer` for `while True`, `ScanFrequency` and `TryRung` for
    `for a in amplitude`, and `Measure` for `for idx, f_idx in
    enumerate(freq_order)`. It is proved equal to `Outcome`.

Both the search and the method model the check `if amp_curve[f_idx] > 0:
break` (line 54) literally. They do not assume "the answer was y". That
the two agree is proved in `Ideal.RunMatchesSweep`, for a ladder of
positive amplitudes and a repetition-free order; the program's ladder
`10 ** decades_a` is positive.

A session whose lines run out ends as
`OutOfResponses(waiting)`, naming the tone still waiting for an answer. In
the program, `input()` would block there or raise at end of input.

## Model

| member | source | states |
|---|---|---|
| Responses.Strip | edge_of_silence.py:43 | `.strip()` on ASCII whitespace: the result sits inside the line with only whitespace (tab, LF, VT, FF, CR, 0x1C–0x1F, space) around it, and is empty or starts and ends with a non-space |
| Responses.Lower | edge_of_silence.py:43 | `.lower()` on ASCII: same length, each character folded from `A`–`Z` to `a`–`z`, others kept |
| Responses.StripIsUnique | edge_of_silence.py:43 | any non-empty core surrounded only by whitespace is what `.strip()` returns |
| Responses.ClassifyMeaning | edge_of_silence.py:43-52 | a line is "y" exactly when it is `y` or `Y` padded by whitespace, "n" exactly when it is `n` or `N` padded by whitespace, and invalid in every other case |
| Responses.PaddedCapitalIsYes | edge_of_silence.py:43-50 | the line `" Y "` is read as a "y" |
| Responses.WordIsInvalid | edge_of_silence.py:43-52 | the line `"maybe"` is neither answer, although it contains a `y` |
| Grid.RungAmplitudesIncrease | edge_of_silence.py:23-24 | on an increasing ladder, the rungs a scan climbs in `for a in amplitude` (line 38) are played in strictly increasing amplitude |
| Search.Settle | edge_of_silence.py:34-38 | when the `for a in amplitude` loop is used up, the frequency keeps its entry and the next frequency starts at the bottom rung; an empty ladder skips every frequency |
| Search.Step | edge_of_silence.py:42-55 | one line: only "y" changes the curve, and only the entry of the frequency under test, to the playing amplitude; an invalid line changes nothing, and every valid line changes something; a valid line moves to the next amplitude or to a later frequency |
| Search.StepOnNo | edge_of_silence.py:44-46 | "n" while the entry is 0 plays the next amplitude, or after the top rung moves to the next frequency with the entry unchanged |
| Search.StepOnYes | edge_of_silence.py:47-50 | "y" at a positive amplitude records it and moves to the next frequency at the bottom rung |
| Search.Run | edge_of_silence.py:34-55 | a run keeps the curve's length and never moves back in the order; before the end of the order it stops only when the script runs out |
| Search.InvalidLineIsSkipped | edge_of_silence.py:51-52 | an invalid line is consumed and the run continues from the same state, as if it had not been typed |
| Search.RunSeesOnlyValidAnswers | edge_of_silence.py:42-52 | two scripts with the same "n"/"y" answers in the same order end in the same state, wherever the invalid lines fall |
| Search.RunSplits | edge_of_silence.py:34 | the outer loop is sequential: running to one frequency, then on to a later one from where the first run ended, equals one run, with the lines read and the rungs answered concatenated |
| Search.RunKeepsLadderValues | edge_of_silence.py:26-49 | every threshold stays either 0 or an amplitude on the ladder |
| Search.RunWritesOnlyScanned | edge_of_silence.py:49 | with a ladder of positive amplitudes, a run writes only the entries of frequencies it scanned; every other entry keeps its value |
| Search.ScannedEntriesStay | edge_of_silence.py:32-49 | with a ladder of positive amplitudes and a repetition-free order, an entry whose frequency was scanned earlier is never written again |
| Scan.ScanStopsAtFirstYes | edge_of_silence.py:38-55 | if the first "y" is the `i`-th valid answer, the frequency's threshold becomes `ladder[k + i]`, the scan moves on, and exactly the rungs `k .. k + i` were answered, in increasing order |
| Scan.ScanTriesWholeLadder | edge_of_silence.py:26-46 | if every remaining valid answer on the ladder is "n", every remaining rung is tried in order, the entry stays 0, and the next frequency begins |
| Scan.ScanRunsOutOfLines | edge_of_silence.py:42-46 | with no "y" and fewer valid answers than rungs left, every line is read, the entry is unchanged, and the scan waits one rung higher per "n" |
| Ideal.SweepOfSettle | edge_of_silence.py:38 | skipping past a used-up ladder is already part of the reference sweep |
| Ideal.YesKeepsUnscanned | edge_of_silence.py:32-49 | with a repetition-free order, recording a threshold leaves every later frequency at 0 |
| Ideal.RunMatchesSweep | edge_of_silence.py:34-55 | with a positive ladder and a repetition-free order, the literal search ends where the reference sweep over its valid answers ends: each frequency takes the amplitude of its first "y", or keeps 0 |
| Session.Start | edge_of_silence.py:26-38 | the session starts on an all-zero curve (line 26); with a non-empty ladder it starts at the first frequency of the order and the lowest amplitude, and with an empty ladder every frequency is skipped |
| Session.Outcome | edge_of_silence.py:26-57 | a completed session has one threshold per frequency, each 0 or a ladder amplitude, and a power curve whose entries are their squares; an incomplete one names the tone still waiting for an answer |
| Session.ReadAnswer | edge_of_silence.py:42-52 | the prompt loop reads up to the first line that normalises to `n` or `y`; every line before it is invalid, and it returns invalid only when the lines run out |
| Session.Listen | edge_of_silence.py:42-52 | prompting at one tone either ends the session with that tone waiting after every line is read, or returns the valid answer, and the rest of the session continues from that line |
| Session.TryRung | edge_of_silence.py:38-55 | one amplitude stores it on "y" and leaves every other entry alone; `heard` is exactly the `amp_curve[f_idx] > 0` check; the session continues from the next frequency when heard and from the next amplitude when not |
| Session.ScanFrequency | edge_of_silence.py:38-55 | one frequency's amplitude loop ends with the session continuing from the next frequency, or with the lines run out at a rung of the ladder |
| Session.Measure | edge_of_silence.py:26-57 | the nested loops, run line by line, give exactly `Outcome` |
| Session.OutcomeMatchesSweep | edge_of_silence.py:32-57 | with a permutation for the order and a positive ladder, the session completes exactly when the reference sweep finishes, with the same thresholds, and otherwise waits at the same tone |
| Session.OnlyValidAnswersMatter | edge_of_silence.py:42-52 | sessions whose lines carry the same "n"/"y" answers in the same order end the same way, with the same thresholds and power curve |
| Session.RepromptExample | edge_of_silence.py:42-57 | the lines `""`, `"maybe"`, `" Y "` end the session with the same thresholds and power curve as the single line `"y"` |
| Reduce.Power | edge_of_silence.py:57 | the power curve has the threshold curve's length, and each entry is the square of the threshold entry |
| Reduce.PowerOfLadderCurve | edge_of_silence.py:26-57 | a threshold of 0 has power 0, and every other threshold's power is the square of an amplitude on the ladder |

## Left out

- Audio output (lines 27–29, 39–40, 45 and 48) is not modelled. The sine
  vector, `sd.play` and `sd.stop` are device side effects and do not affect
  the search state.
- The printed messages (lines 36 and 52) are not modelled.
- Grid construction (lines 14–24) is not modelled. Building the frequencies
  and `10 ** np.arange(..., 0.333)` is floating-point work.
  - The ladder is a parameter.
  - Properties that need it positive or increasing say so with
    `AllPositive` or `ValidLadder`.
  - The frequencies appear only as indices into the curve.
- The random `np.random.permutation` (line 32) is not modelled. The order
  is a parameter; `IsPermutation` states the property the program
  guarantees for it.
- Plotting, timestamp formatting and CSV writing (lines 59–78) are left out
  as presentation and file output.
- Python's Unicode-wide `strip()` and `lower()` are not modelled. Only ASCII
  whitespace and ASCII `A`–`Z` folding are.
- Blocking on `input()` is not modelled. The typed lines are a finite
  script. Running out is the explicit outcome `OutOfResponses` instead of a
  wait or an end-of-input exception.
- Floating-point arithmetic is modelled by `real`, so `amp_curve ** 2` is an
  exact square.
- Reduce.PowerOfLadderCurve: does not prove that a nonzero threshold has a
  nonzero power. The solver does not reliably prove positivity of real
  squares; the lemma relates each power to a ladder amplitude by equality
  only.
