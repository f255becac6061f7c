/**
 * `InferenceVerticle`: decodes a request body into an input vector of
 * `inputDim` values, runs the RELU `LinearLayer` on it and replies with
 * the output, refusing work with 503 while `MaxInflight` requests are
 * pending. The counter of pending requests is modelled twice: as the
 * verticle's field, updated by its methods, and as a pure run over any
 * interleaving of arrivals and completions, where its bounds are proved.
 */
module Inference {
  import opened Wrappers
  import Lanes
  import opened ActivationFunction
  import opened LinearLayer
  import EmbeddingTable
  import opened RandomDraws

  /** The most requests one instance accepts before refusing. */
  const MaxInflight: nat := 100

  // ---------------------------------------------------------------------
  // Decoding and the computed reply

  /**
   * The input vector read from a body of `|body|` complete floats: the first
   * `min(inputDim, |body|)` floats, then zeros up to `inputDim`.
   */
  function Decoded(body: seq<real>, inputDim: nat): (input: seq<real>)
    ensures |input| == inputDim
    ensures forall i :: 0 <= i < inputDim ==> input[i] == if i < |body| then body[i] else 0.0
  {
    if inputDim <= |body| then body[..inputDim] else body + Lanes.Zero(inputDim - |body|)
  }

  /** A body of exactly `inputDim` floats, as the preprocessing stage sends, is read back unchanged. */
  lemma DecodedRoundTrip(body: seq<real>, inputDim: nat)
    requires |body| == inputDim
    ensures Decoded(body, inputDim) == body
  {
  }

  /** Floats past `inputDim` are ignored. */
  lemma DecodedIgnoresExtra(body: seq<real>, extra: seq<real>, inputDim: nat)
    requires |body| == inputDim
    ensures Decoded(body + extra, inputDim) == body
  {
    assert (body + extra)[..inputDim] == body;
  }

  /** What a served request replies: RELU of the affine map of the decoded input. */
  function Infer(weights: seq<real>, bias: seq<real>, body: seq<real>, inputDim: nat, outputDim: nat): (y: seq<real>)
    requires |weights| == inputDim * outputDim && |bias| == outputDim
  {
    ReluAll(Affine(weights, bias, Decoded(body, inputDim), outputDim))
  }

  /** Every reply has `outputDim` values, none negative. */
  lemma InferShape(weights: seq<real>, bias: seq<real>, body: seq<real>, inputDim: nat, outputDim: nat)
    requires |weights| == inputDim * outputDim && |bias| == outputDim
    ensures |Infer(weights, bias, body, inputDim, outputDim)| == outputDim
    ensures forall j :: 0 <= j < outputDim ==> Infer(weights, bias, body, inputDim, outputDim)[j] >= 0.0
  {
    ReluAllShape(Affine(weights, bias, Decoded(body, inputDim), outputDim));
  }

  /**
   * Text featurised by the preprocessing stage with `embeddingDim ==
   * inputDim` reaches the layer unchanged.
   */
  lemma PipelineInput(t: EmbeddingTable.Table, dim: nat, text: string)
    requires EmbeddingTable.WellShaped(t, dim)
    ensures Decoded(EmbeddingTable.TextToDense(t, dim, text), dim) == EmbeddingTable.TextToDense(t, dim, text)
  {
    DecodedRoundTrip(EmbeddingTable.TextToDense(t, dim, text), dim);
  }

  /** A two-input, one-output RELU layer with weights `[1, 1]` and bias 0 maps `[3, -5]` to `[0]`. */
  lemma ForwardExample()
    ensures ReluAll(Affine([1.0, 1.0], [0.0], [3.0, -5.0], 1)) == [0.0]
  {
    var y := Affine([1.0, 1.0], [0.0], [3.0, -5.0], 1);
    assert Row([1.0, 1.0], 2, 0) == [1.0, 1.0];
    assert Lanes.Dot([3.0], [1.0]) == 3.0 by {
      assert [3.0][..0] == [];
    }
    assert Lanes.Dot([3.0, -5.0], [1.0, 1.0]) == -2.0 by {
      assert [3.0, -5.0][..1] == [3.0] && [1.0, 1.0][..1] == [1.0];
    }
    assert y[0] == -2.0;
  }

  // ---------------------------------------------------------------------
  // The pending-request counter over any interleaving

  /** A request reaching the handler, or an admitted request's computation completing. */
  datatype Event = Arrive | Finish

  /** The counter with the tallies that explain it. */
  datatype Tally = Tally(inflight: int, admitted: nat, rejected: nat, finished: nat)

  /**
   * One event: an arrival is refused when `inflight >= MaxInflight` and
   * otherwise counted; a completion decrements the counter.
   */
  function Step(t: Tally, e: Event): (r: Tally)
  {
    match e
    case Arrive =>
      if t.inflight >= MaxInflight then t.(rejected := t.rejected + 1)
      else t.(inflight := t.inflight + 1, admitted := t.admitted + 1)
    case Finish => t.(inflight := t.inflight - 1, finished := t.finished + 1)
  }

  /** The tally after `events`, from a fresh instance. */
  function Run(events: seq<Event>): (t: Tally)
    decreases |events|
  {
    if events == [] then Tally(0, 0, 0, 0) else Step(Run(events[..|events| - 1]), events[|events| - 1])
  }

  /** Every completion belongs to an admitted request that has not completed yet. */
  predicate Feasible(events: seq<Event>)
    decreases |events|
  {
    events == []
    || (Feasible(events[..|events| - 1])
        && (events[|events| - 1] == Finish ==> Run(events[..|events| - 1]).finished < Run(events[..|events| - 1]).admitted))
  }

  function Count(events: seq<Event>, e: Event): (n: nat)
    ensures n <= |events|
    decreases |events|
  {
    if events == [] then 0
    else Count(events[..|events| - 1], e) + if events[|events| - 1] == e then 1 else 0
  }

  /**
   * In every feasible run the counter stays within `[0, MaxInflight]`, equals
   * the admitted requests not yet completed, and every arrival is either
   * admitted or refused.
   */
  lemma {:induction false} RunInvariant(events: seq<Event>)
    requires Feasible(events)
    ensures 0 <= Run(events).inflight <= MaxInflight
    ensures Run(events).inflight == Run(events).admitted - Run(events).finished
    ensures Run(events).admitted + Run(events).rejected == Count(events, Arrive)
    ensures Run(events).finished == Count(events, Finish)
    decreases |events|
  {
    if events != [] {
      RunInvariant(events[..|events| - 1]);
    }
  }

  /** An arrival is refused exactly when the counter is at the limit. */
  lemma RefusedOnlyWhenFull(events: seq<Event>)
    requires Feasible(events)
    ensures Run(events + [Arrive]).rejected == Run(events).rejected + 1 <==> Run(events).inflight == MaxInflight
    ensures Run(events).inflight < MaxInflight ==> Run(events + [Arrive]).inflight == Run(events).inflight + 1
  {
    assert (events + [Arrive])[..|events|] == events;
    RunInvariant(events);
  }

  /** `n` arrivals and nothing else. */
  function Arrivals(n: nat): (events: seq<Event>)
    ensures |events| == n
  {
    seq(n, _ => Arrive)
  }

  /**
   * A burst of `n` requests with none completing: the first `MaxInflight`
   * are admitted and every one after them is refused with 503.
   */
  lemma {:induction false} Burst(n: nat)
    ensures Run(Arrivals(n)).admitted == if n <= MaxInflight then n else MaxInflight
    ensures Run(Arrivals(n)).rejected == if n <= MaxInflight then 0 else n - MaxInflight
    ensures Run(Arrivals(n)).inflight == Run(Arrivals(n)).admitted
    ensures Run(Arrivals(n)).finished == 0
  {
    if n > 0 {
      assert Arrivals(n)[..n - 1] == Arrivals(n - 1);
      Burst(n - 1);
    }
  }

  /** Once every admitted request has completed the counter is back at 0. */
  lemma Drained(events: seq<Event>)
    requires Feasible(events) && Count(events, Finish) == Run(events).admitted
    ensures Run(events).inflight == 0
  {
    RunInvariant(events);
  }

  // ---------------------------------------------------------------------
  // The verticle

  datatype InferenceError = Overloaded | InferenceFailed

  datatype InferenceReply = Output(values: seq<real>) | Failed(code: nat, error: InferenceError)

  class InferenceVerticle {
    const inputDim: nat
    const outputDim: nat
    /** Created by `Start`; null before. */
    var linearLayer: LinearLayer?
    var inflight: int

    /** A started verticle holds a RELU layer of its own dimensions. */
    ghost predicate Valid()
      reads this, linearLayer
    {
      linearLayer != null ==>
        linearLayer.Valid() && linearLayer.inputDim == inputDim && linearLayer.outputDim == outputDim
        && linearLayer.activation == ReluActivation
    }

    constructor (inputDim: nat, outputDim: nat)
      ensures Valid() && this.inputDim == inputDim && this.outputDim == outputDim
      ensures linearLayer == null && inflight == 0
    {
      this.inputDim := inputDim;
      this.outputDim := outputDim;
      linearLayer := null;
      inflight := 0;
    }

    /** The layer creation of `start`, with the generator's successive draws. */
    method Start(draws: seq<real>)
      requires |draws| == inputDim * outputDim + outputDim
      modifies this
      ensures Valid() && linearLayer != null && fresh(linearLayer) && inflight == old(inflight)
      ensures linearLayer.weights[..] == Centered(draws[..inputDim * outputDim])
      ensures linearLayer.bias[..] == Centered(draws[inputDim * outputDim..])
    {
      linearLayer := new LinearLayer(inputDim, outputDim, ReluActivation, draws);
    }

    /** The back-pressure check and the increment: admitted exactly when below the limit. */
    method TryAdmit() returns (admitted: bool)
      modifies this
      ensures admitted <==> old(inflight) < MaxInflight
      ensures inflight == Step(Tally(old(inflight), 0, 0, 0), Arrive).inflight
      ensures linearLayer == old(linearLayer)
    {
      if inflight >= MaxInflight {
        return false;
      }
      inflight := inflight + 1;
      admitted := true;
    }

    /** The decrement when a computation completes, successfully or not. */
    method Complete()
      modifies this
      ensures inflight == Step(Tally(old(inflight), 0, 0, 0), Finish).inflight && linearLayer == old(linearLayer)
    {
      inflight := inflight - 1;
    }

    /** Reads the body into a fresh zero-filled input of `inputDim` values. */
    method DecodeInput(body: seq<real>) returns (input: array<real>)
      ensures fresh(input)
      ensures input[..] == Decoded(body, inputDim)
    {
      input := new real[inputDim](_ => 0.0);
      var len := if inputDim <= |body| then inputDim else |body|;
      var i := 0;
      while i < len
        invariant 0 <= i <= len
        invariant forall k :: 0 <= k < inputDim ==> input[k] == if k < i then body[k] else 0.0
      {
        input[i] := body[i];
        i := i + 1;
      }
    }

    /** The blocking part: decode, then `forward`, which cannot refuse an input of `inputDim` values. */
    method Compute(body: seq<real>, lanes: nat) returns (result: Result<array<real>, LayerError>)
      requires Valid() && linearLayer != null && lanes >= 1
      ensures result.Success?
      ensures fresh(result.value)
      ensures result.value[..]
              == Infer(linearLayer.weights[..], linearLayer.bias[..], body, inputDim, outputDim)
    {
      var input := DecodeInput(body);
      result := linearLayer.Forward(input, lanes);
    }

    /**
     * The request handler: 503 when `MaxInflight` requests are pending;
     * otherwise admits the request, computes, completes it and replies with
     * the output. The failure reply is unreachable, and the counter is back
     * where it was once the reply is sent.
     */
    method Handle(body: seq<real>, lanes: nat) returns (reply: InferenceReply)
      requires Valid() && linearLayer != null && lanes >= 1
      modifies this
      ensures Valid() && linearLayer == old(linearLayer) && inflight == old(inflight)
      ensures old(inflight) >= MaxInflight ==> reply == Failed(503, Overloaded)
      ensures old(inflight) < MaxInflight ==>
                reply == Output(Infer(linearLayer.weights[..], linearLayer.bias[..], body, inputDim, outputDim))
    {
      var admitted := TryAdmit();
      if !admitted {
        return Failed(503, Overloaded);
      }
      var result := Compute(body, lanes);
      Complete();
      if result.Success? {
        reply := Output(result.value[..]);
      } else {
        assert false;
      }
    }
  }
}
