/** The fixed inputs of a session: the amplitude ladder, the test order, and
    the shape of the threshold curve they fill. */
module Grid {

  /** The amplitude ladder: positive amplitudes in strictly increasing order. */
  predicate ValidLadder(ladder: seq<real>) {
    && AllPositive(ladder)
    && (forall i, j :: 0 <= i < j < |ladder| ==> ladder[i] < ladder[j])
  }

  /** Every amplitude on the ladder is positive, so any "y" is recorded as a
      nonzero threshold. */
  predicate AllPositive(ladder: seq<real>) {
    forall i :: 0 <= i < |ladder| ==> ladder[i] > 0.0
  }

  /** Every entry of the test order is an index into a curve of length `n`. */
  predicate OrderFits(order: seq<nat>, n: nat) {
    forall j :: 0 <= j < |order| ==> order[j] < n
  }

  /** The test order lists no frequency twice. */
  predicate Distinct(order: seq<nat>) {
    forall i, j :: 0 <= i < j < |order| ==> order[i] != order[j]
  }

  /** The test order lists each of `0..n-1` exactly once. */
  predicate IsPermutation(order: seq<nat>, n: nat) {
    |order| == n && OrderFits(order, n) && Distinct(order)
  }

  /** `x` does not occur among `order[lo..hi]`. */
  predicate NotScanned(order: seq<nat>, lo: nat, hi: nat, x: nat) {
    forall j :: lo <= j < hi && j < |order| ==> order[j] != x
  }

  /** Every threshold is either the sentinel 0 or an amplitude on the ladder. */
  predicate InLadderOrZero(ladder: seq<real>, curve: seq<real>) {
    forall i :: 0 <= i < |curve| ==> curve[i] == 0.0 || curve[i] in ladder
  }

  /** `np.zeros_like(frequency)`: the curve before any frequency is scanned. */
  function Zeros(n: nat): (z: seq<real>)
    ensures |z| == n
    ensures forall i :: 0 <= i < n ==> z[i] == 0.0
  {
    seq(n, i => 0.0)
  }

  /** The ladder indices `lo, lo + 1, ..., hi - 1`: the rungs a scan climbs,
      bottom to top. */
  function Rungs(lo: nat, hi: nat): (r: seq<nat>)
    ensures |r| == if lo < hi then hi - lo else 0
    decreases hi - lo
  {
    if lo < hi then [lo] + Rungs(lo + 1, hi) else []
  }

  /** The `j`-th rung of `Rungs(lo, hi)` is ladder index `lo + j`. */
  lemma {:induction false} RungsAreConsecutive(lo: nat, hi: nat)
    ensures forall j :: 0 <= j < |Rungs(lo, hi)| ==> Rungs(lo, hi)[j] == lo + j
    decreases hi - lo
  {
    if lo < hi {
      RungsAreConsecutive(lo + 1, hi);
      assert Rungs(lo, hi) == [lo] + Rungs(lo + 1, hi);
    }
  }

  /** On an increasing ladder, the amplitudes of the rungs a scan climbs are
      played from quiet to loud: each one strictly louder than the one before. */
  lemma RungAmplitudesIncrease(ladder: seq<real>, lo: nat, hi: nat)
    requires ValidLadder(ladder) && hi <= |ladder|
    ensures var r := Rungs(lo, hi);
            forall a, b :: 0 <= a < b < |r| ==> r[a] < r[b] < |ladder| && ladder[r[a]] < ladder[r[b]]
  {
    RungsAreConsecutive(lo, hi);
  }
}
