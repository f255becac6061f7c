/**
 * `LinearLayer`: a dense layer `y = activation(W x + b)`. `W` is an
 * `outputDim x inputDim` matrix stored row-major in one flat block and `b`
 * has `outputDim` entries; both are filled once, at construction, and only
 * read afterwards. `Forward` computes each `y[j]` as a dot product split
 * into lane-width chunks accumulated with fused multiply-add, reduced, and
 * finished by a scalar tail.
 */
module LinearLayer {
  import opened Wrappers
  import Lanes
  import opened ActivationFunction
  import opened RandomDraws

  /** `forward` refuses an input whose length is not `inputDim`, naming both lengths. */
  datatype LayerError = InputDimensionMismatch(expected: nat, actual: nat)

  /** Row `j` of the flat block lies at `[j * inputDim, (j + 1) * inputDim)`, inside the block. */
  lemma {:induction false} RowInBlock(inputDim: nat, outputDim: nat, j: nat)
    requires j < outputDim
    ensures j * inputDim + inputDim == (j + 1) * inputDim <= inputDim * outputDim
    decreases outputDim - j
  {
    if j + 1 < outputDim {
      RowInBlock(inputDim, outputDim, j + 1);
    }
  }

  /** Row `j` of a row-major block whose rows have `inputDim` entries. */
  function Row(weights: seq<real>, inputDim: nat, j: nat): (row: seq<real>)
    requires j * inputDim + inputDim <= |weights|
    ensures |row| == inputDim
    ensures forall i :: 0 <= i < inputDim ==> row[i] == weights[j * inputDim + i]
  {
    weights[j * inputDim .. j * inputDim + inputDim]
  }

  /**
   * The affine part of the layer, computed as the scalar reference loop
   * does: `y[j] = (sum over i of x[i] * W[j * inputDim + i]) + b[j]`.
   */
  function Affine(weights: seq<real>, bias: seq<real>, x: seq<real>, outputDim: nat): (y: seq<real>)
    requires |weights| == |x| * outputDim && |bias| == outputDim
  {
    seq(outputDim, j requires 0 <= j < outputDim =>
      RowInBlock(|x|, outputDim, j); Lanes.Dot(x, Row(weights, |x|, j)) + bias[j])
  }

  /**
   * The lanes of `sumVector` once the lane loop has reached index `i`: lane
   * `k` holds the sum of `x[m + k] * w[m + k]` over the chunk starts `m < i`.
   */
  function LaneAccumulate(x: seq<real>, w: seq<real>, lanes: nat, i: nat): (acc: seq<real>)
    requires |x| == |w| && lanes >= 1 && Lanes.MultipleOf(i, lanes) && i <= |x|
    ensures |acc| == lanes
    decreases i
  {
    if i == 0 then Lanes.Zero(lanes)
    else Lanes.Fma(x[i - lanes .. i], w[i - lanes .. i], LaneAccumulate(x, w, lanes, i - lanes))
  }

  /**
   * One row of `forward`: the lane loop up to `LoopBound`, the reduction of
   * the lanes, then the scalar tail.
   */
  function ChunkedDot(x: seq<real>, w: seq<real>, lanes: nat): real
    requires |x| == |w| && lanes >= 1
  {
    var b := Lanes.LoopBound(|x|, lanes);
    Lanes.Sum(LaneAccumulate(x, w, lanes, b)) + Lanes.Dot(x[b..], w[b..])
  }

  /** Reducing the lanes at index `i` gives the sequential dot product of `[0, i)`. */
  lemma {:induction false} LaneAccumulateSum(x: seq<real>, w: seq<real>, lanes: nat, i: nat)
    requires |x| == |w| && lanes >= 1 && Lanes.MultipleOf(i, lanes) && i <= |x|
    ensures Lanes.Sum(LaneAccumulate(x, w, lanes, i)) == Lanes.Dot(x[..i], w[..i])
    decreases i
  {
    if i == 0 {
      Lanes.SumZero(lanes);
    } else {
      var lo := i - lanes;
      LaneAccumulateSum(x, w, lanes, lo);
      Lanes.SumFma(x[lo..i], w[lo..i], LaneAccumulate(x, w, lanes, lo));
      Lanes.DotSplit(x[..i], w[..i], lo);
      assert x[..i][..lo] == x[..lo] && w[..i][..lo] == w[..lo];
      assert x[..i][lo..] == x[lo..i] && w[..i][lo..] == w[lo..i];
    }
  }

  /**
   * The lane-chunked dot product equals the plain sequential one for every
   * lane width: the lane width is a platform property and does not change
   * what `forward` computes (in exact arithmetic).
   */
  lemma ChunkedDotIsDot(x: seq<real>, w: seq<real>, lanes: nat)
    requires |x| == |w| && lanes >= 1
    ensures ChunkedDot(x, w, lanes) == Lanes.Dot(x, w)
  {
    var b := Lanes.LoopBound(|x|, lanes);
    LaneAccumulateSum(x, w, lanes, b);
    Lanes.DotSplit(x, w, b);
  }

  class LinearLayer {
    const inputDim: nat
    const outputDim: nat
    /** The flat row-major `outputDim x inputDim` block. */
    const weights: array<real>
    const bias: array<real>
    const activation: Activation

    ghost predicate Valid()
      reads this
    {
      weights.Length == inputDim * outputDim && bias.Length == outputDim && weights != bias
    }

    /**
     * Allocates the two blocks and fills them from `draws`, the successive
     * results of the random generator: the weights take the first
     * `inputDim * outputDim` draws, the bias the next `outputDim`.
     */
    constructor (inputDim: nat, outputDim: nat, activation: Activation, draws: seq<real>)
      requires |draws| == inputDim * outputDim + outputDim
      ensures Valid() && fresh(weights) && fresh(bias)
      ensures this.inputDim == inputDim && this.outputDim == outputDim && this.activation == activation
      ensures weights[..] == Centered(draws[..inputDim * outputDim])
      ensures bias[..] == Centered(draws[inputDim * outputDim..])
    {
      this.inputDim := inputDim;
      this.outputDim := outputDim;
      this.activation := activation;
      weights := new real[inputDim * outputDim];
      bias := new real[outputDim];
      new;
      InitializeWeights(draws);
    }

    /** `initializeWeights`: every weight, then every bias entry, from successive draws. */
    method InitializeWeights(draws: seq<real>)
      requires Valid() && |draws| == weights.Length + bias.Length
      modifies weights, bias
      ensures weights[..] == Centered(draws[..weights.Length])
      ensures bias[..] == Centered(draws[weights.Length..])
    {
      var i := 0;
      while i < weights.Length
        invariant 0 <= i <= weights.Length
        invariant forall k :: 0 <= k < i ==> weights[k] == draws[k] - 0.5
      {
        weights[i] := draws[i] - 0.5;
        i := i + 1;
      }
      i := 0;
      while i < bias.Length
        invariant 0 <= i <= bias.Length
        invariant forall k :: 0 <= k < weights.Length ==> weights[k] == draws[k] - 0.5
        invariant forall k :: 0 <= k < i ==> bias[k] == draws[weights.Length + k] - 0.5
      {
        bias[i] := draws[weights.Length + i] - 0.5;
        i := i + 1;
      }
      assert weights[..] == Centered(draws[..weights.Length]);
      assert bias[..] == Centered(draws[weights.Length..]);
    }

    /**
     * One step of the lane loop of the row starting at `rowOffset`: load the
     * chunk at `i` of the input and of the row, then
     * `sumVector = vInput.fma(vWeight, sumVector)`.
     */
    method FmaChunk(input: array<real>, rowOffset: nat, i: nat, lanes: nat, sumVector: seq<real>) returns (next: seq<real>)
      requires input.Length == inputDim && i + lanes <= inputDim && |sumVector| == lanes
      requires rowOffset + inputDim <= weights.Length
      ensures next == Lanes.Fma(input[..][i..i + lanes], weights[rowOffset .. rowOffset + inputDim][i..i + lanes], sumVector)
    {
      var vInput := input[i..i + lanes];
      var vWeight := weights[rowOffset + i .. rowOffset + i + lanes];
      assert vInput == input[..][i..i + lanes];
      assert vWeight == weights[rowOffset .. rowOffset + inputDim][i..i + lanes] by {
        forall k | 0 <= k < lanes
          ensures vWeight[k] == weights[rowOffset .. rowOffset + inputDim][i..i + lanes][k]
        {
          assert vWeight[k] == weights[rowOffset + i + k];
        }
      }
      next := Lanes.Fma(vInput, vWeight, sumVector);
    }

    /**
     * The lane loop of one row of `forward`, the row starting at `rowOffset`:
     * chunk by chunk up to `LoopBound(inputDim)`.
     */
    method LaneLoop(input: array<real>, rowOffset: nat, lanes: nat) returns (sumVector: seq<real>, i: nat)
      requires lanes >= 1 && input.Length == inputDim
      requires rowOffset + inputDim <= weights.Length
      ensures i == Lanes.LoopBound(inputDim, lanes)
      ensures sumVector == LaneAccumulate(input[..], weights[rowOffset .. rowOffset + inputDim], lanes, i)
    {
      ghost var x, row := input[..], weights[rowOffset .. rowOffset + inputDim];
      i := 0;
      var upperBound := Lanes.LoopBound(inputDim, lanes);
      sumVector := Lanes.Zero(lanes);
      while i < upperBound
        invariant i <= upperBound && Lanes.MultipleOf(i, lanes)
        invariant sumVector == LaneAccumulate(x, row, lanes, i)
      {
        Lanes.NextChunk(i, upperBound, lanes);
        sumVector := FmaChunk(input, rowOffset, i, lanes, sumVector);
        i := i + lanes;
      }
    }

    /**
     * The scalar tail of the row starting at `rowOffset`:
     * `sum += input[i] * w` for `i` from `from` to `inputDim`, starting from `start`.
     */
    method TailLoop(input: array<real>, rowOffset: nat, from: nat, start: real) returns (sum: real)
      requires input.Length == inputDim && from <= inputDim
      requires rowOffset + inputDim <= weights.Length
      ensures sum == start + Lanes.Dot(input[from..], weights[rowOffset + from .. rowOffset + inputDim])
    {
      ghost var x, row := input[from..], weights[rowOffset + from .. rowOffset + inputDim];
      sum := start;
      var i := from;
      while i < inputDim
        invariant from <= i <= inputDim
        invariant sum == start + Lanes.Dot(x[..i - from], row[..i - from])
      {
        var xi, wi := input[i], weights[rowOffset + i];
        assert xi == x[i - from] && wi == row[i - from];
        Lanes.DotExtend(x, row, 0, i - from, xi, wi);
        assert x[0..i - from] == x[..i - from] && row[0..i - from] == row[..i - from];
        assert x[0..i + 1 - from] == x[..i + 1 - from] && row[0..i + 1 - from] == row[..i + 1 - from];
        sum := sum + xi * wi;
        i := i + 1;
      }
      assert x[..i - from] == x && row[..i - from] == row;
    }

    /**
     * The body of `forward`'s row loop for row `j`: the lane loop, the
     * reduction of the lanes, the scalar tail, then the bias. In exact
     * arithmetic this is the scalar reference: the sum over `i` of
     * `input[i] * W[j * inputDim + i]`, plus `b[j]`.
     */
    method RowSum(input: array<real>, j: nat, lanes: nat) returns (sum: real)
      requires lanes >= 1 && input.Length == inputDim && j < bias.Length
      requires j * inputDim + inputDim <= weights.Length
      ensures sum == Lanes.Dot(input[..], Row(weights[..], inputDim, j)) + bias[j]
    {
      var rowOffset := j * inputDim;
      ghost var x, row := input[..], weights[rowOffset .. rowOffset + inputDim];
      assert row == Row(weights[..], inputDim, j);
      var sumVector, i := LaneLoop(input, rowOffset, lanes);
      sum := TailLoop(input, rowOffset, i, Lanes.Sum(sumVector));
      assert input[i..] == x[i..] && weights[rowOffset + i .. rowOffset + inputDim] == row[i..];
      ChunkedDotIsDot(x, row, lanes);
      sum := sum + bias[j];
    }

    /**
     * `forward(input)`: refuses an input of the wrong length before
     * computing anything; otherwise returns a fresh array holding the
     * activation of `W x + b`. Nothing else is written: not the weights,
     * not the bias, not the input.
     */
    method Forward(input: array<real>, lanes: nat) returns (result: Result<array<real>, LayerError>)
      requires Valid() && lanes >= 1
      ensures result.Failure? <==> input.Length != inputDim
      ensures result.Failure? ==> result.error == InputDimensionMismatch(inputDim, input.Length)
      ensures result.Success? ==> fresh(result.value) && result.value.Length == outputDim
      ensures result.Success? && activation == ReluActivation ==> forall k :: 0 <= k < outputDim ==> result.value[k] >= 0.0
      ensures result.Success? ==>
                result.value[..] == Activate(activation, Affine(weights[..], bias[..], input[..], outputDim))
    {
      if input.Length != inputDim {
        return Failure(InputDimensionMismatch(inputDim, input.Length));
      }
      var output := new real[outputDim](_ => 0.0);
      ghost var y := Affine(weights[..], bias[..], input[..], outputDim);
      var j := 0;
      while j < outputDim
        invariant 0 <= j <= outputDim
        invariant forall k :: 0 <= k < j ==> output[k] == y[k]
      {
        RowInBlock(inputDim, outputDim, j);
        var sum := RowSum(input, j, lanes);
        output[j] := sum;
        j := j + 1;
      }
      assert output[..] == y;
      if activation == ReluActivation {
        ApplyRelu(output, output, lanes);
        assert output[..] == ReluAll(y);
      }
      return Success(output);
    }
  }
}
