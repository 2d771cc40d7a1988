/**
 * The plotting demo's sampling of the ease curve: starting at 0 it steps
 * by 0.01 while the parameter is at most 1, recording each parameter and
 * the curve's value there.
 */
module BlendSampling {
  import opened Interpolation

  /** The step between samples. */
  const Dt: real := 0.01

  /** The program's `simulation`: parameters in `xs`, the curve's values at
      them in `ys`. The parameters start at 0, go up by `Dt`, stay within
      [0, 1] and stop at the first step past 1; the values lie in [0, 1],
      start at 0 and never decrease. */
  method Simulation() returns (xs: seq<real>, ys: seq<real>)
    ensures |xs| == |ys| && |xs| > 0
    ensures xs[0] == 0.0 && ys[0] == 0.0
    ensures forall i :: 0 < i < |xs| ==> xs[i] == xs[i - 1] + Dt
    ensures forall i :: 0 <= i < |xs| ==> 0.0 <= xs[i] <= 1.0
    ensures xs[|xs| - 1] + Dt > 1.0
    ensures forall i :: 0 <= i < |ys| ==> ys[i] == Blend(xs[i]) && 0.0 <= ys[i] <= 1.0
    ensures forall i, j :: 0 <= i <= j < |ys| ==> ys[i] <= ys[j]
  {
    xs := [];
    ys := [];
    var t := 0.0;
    while t <= 1.0
      invariant |xs| == |ys|
      invariant t == |xs| as real * Dt
      invariant forall i :: 0 <= i < |xs| ==> xs[i] == i as real * Dt && xs[i] <= 1.0
      invariant forall i :: 0 <= i < |ys| ==> ys[i] == Blend(xs[i])
      decreases 101 - |xs|
    {
      xs := xs + [t];
      ys := ys + [Blend(t)];
      t := t + Dt;
    }
    forall i | 0 <= i < |ys|
      ensures 0.0 <= ys[i] <= 1.0
    {
      BlendRange(xs[i]);
    }
    forall i, j | 0 <= i <= j < |ys|
      ensures ys[i] <= ys[j]
    {
      BlendMonotone(xs[i], xs[j]);
    }
  }
}
