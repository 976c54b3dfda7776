/** The result reduction `power_curve = amp_curve ** 2`. */
module Reduce {
  import opened Grid

  /** `x ** 2` on one amplitude. */
  function Square(x: real): real {
    x * x
  }

  /** Element-wise square of the threshold curve: same length, and entry `i`
      of the power curve is the square of entry `i` of the threshold curve. */
  function Power(curve: seq<real>): (p: seq<real>)
    ensures |p| == |curve|
    ensures forall i :: 0 <= i < |curve| ==> p[i] == Square(curve[i])
  {
    if |curve| == 0 then [] else [Square(curve[0])] + Power(curve[1..])
  }

  /** On a curve of ladder amplitudes and sentinels, the "no threshold"
      sentinel 0 maps to power 0, and every other entry maps to the square of
      an amplitude on the ladder. */
  lemma PowerOfLadderCurve(ladder: seq<real>, curve: seq<real>)
    requires InLadderOrZero(ladder, curve)
    ensures forall i :: 0 <= i < |curve| && curve[i] == 0.0 ==> Power(curve)[i] == 0.0
    ensures forall i :: 0 <= i < |curve| && curve[i] != 0.0 ==>
      exists j :: 0 <= j < |ladder| && Power(curve)[i] == Square(ladder[j])
  {
    var p := Power(curve);
    forall i | 0 <= i < |curve| && curve[i] == 0.0
      ensures p[i] == 0.0
    {
      assert p[i] == Square(0.0);
    }
    forall i | 0 <= i < |curve| && curve[i] != 0.0
      ensures exists j :: 0 <= j < |ladder| && p[i] == Square(ladder[j])
    {
      var j :| 0 <= j < |ladder| && ladder[j] == curve[i];
    }
  }
}
