/**
 * The activation kernels of `ActivationFunction`. Only `RELU` is modelled:
 * an element-wise `max(0, x)` written into a caller-supplied output array,
 * first in chunks of the lane width and then one element at a time for the
 * tail. The kernel may be called in place, with the same array as input and
 * output.
 */
module ActivationFunction {
  import Lanes

  /**
   * The activation a layer applies after its affine map. A layer built with
   * a null activation function applies none.
   */
  datatype Activation = NoActivation | ReluActivation

  /** `Math.max(0, x)`. */
  function Relu(x: real): real
  {
    if x < 0.0 then 0.0 else x
  }

  /** The per-index reference: RELU applied to every element of `s`. */
  function ReluAll(s: seq<real>): (r: seq<real>)
  {
    seq(|s|, k requires 0 <= k < |s| => Relu(s[k]))
  }

  /** What a layer's activation does to the affine result. */
  function Activate(act: Activation, y: seq<real>): (r: seq<real>)
  {
    match act
    case NoActivation => y
    case ReluActivation => ReluAll(y)
  }

  /** RELU keeps the length, never produces a negative value and leaves non-negative values as they are. */
  lemma ReluAllShape(s: seq<real>)
    ensures |ReluAll(s)| == |s|
    ensures forall k :: 0 <= k < |s| ==> ReluAll(s)[k] >= 0.0
    ensures forall k :: 0 <= k < |s| ==> (ReluAll(s)[k] == s[k] <==> s[k] >= 0.0)
  {
  }

  /** Applying RELU a second time changes nothing. */
  lemma ReluIdempotent(s: seq<real>)
    ensures ReluAll(ReluAll(s)) == ReluAll(s)
  {
    assert forall k :: 0 <= k < |s| ==> ReluAll(ReluAll(s))[k] == ReluAll(s)[k];
  }

  /**
   * `ActivationFunction.RELU.apply(input, output)`. The lane loop handles
   * `[0, LoopBound(n))` one chunk at a time, loading the chunk before storing
   * it, and the scalar tail handles the rest; the result does not depend on
   * the lane width. `input` and `output` may be the same array.
   */
  method ApplyRelu(input: array<real>, output: array<real>, lanes: nat)
    requires lanes >= 1
    requires input.Length <= output.Length
    modifies output
    ensures forall k :: 0 <= k < input.Length ==> output[k] == Relu(old(input[k]))
    ensures forall k :: input.Length <= k < output.Length ==> output[k] == old(output[k])
  {
    var i := 0;
    var upperBound := Lanes.LoopBound(input.Length, lanes);
    var zeros := Lanes.Zero(lanes);
    while i < upperBound
      invariant i <= upperBound && Lanes.MultipleOf(i, lanes)
      invariant forall k :: 0 <= k < i ==> output[k] == Relu(old(input[k]))
      invariant forall k :: i <= k < input.Length ==> input[k] == old(input[k])
      invariant forall k :: input.Length <= k < output.Length ==> output[k] == old(output[k])
    {
      Lanes.NextChunk(i, upperBound, lanes);
      var va := input[i..i + lanes];
      var vr := Lanes.Max(va, zeros);
      Lanes.IntoArray(vr, output, i);
      i := i + lanes;
    }
    while i < input.Length
      invariant upperBound <= i <= input.Length
      invariant forall k :: 0 <= k < i ==> output[k] == Relu(old(input[k]))
      invariant forall k :: i <= k < input.Length ==> input[k] == old(input[k])
      invariant forall k :: input.Length <= k < output.Length ==> output[k] == old(output[k])
    {
      output[i] := Relu(input[i]);
      i := i + 1;
    }
  }
}
