/**
 * The slice of the Java Vector API (`FloatVector` of the preferred species)
 * that the kernels use. A vector register of the platform's lane width is a
 * `seq<real>` of that length; each function below is one lane-wise
 * instruction, `LoopBound` is the species' `loopBound` and `IntoArray` is
 * `intoArray`. Values are exact reals, so rounding (and fused versus
 * separate multiply-add) plays no part.
 */
module Lanes {

  /** `i` is a whole number of chunks of the lane width. */
  predicate MultipleOf(i: nat, lanes: nat)
    requires lanes >= 1
    decreases i
  {
    i == 0 || (i >= lanes && MultipleOf(i - lanes, lanes))
  }

  /**
   * The end of the lane loop: the largest multiple of the lane width that is
   * at most `n`; the chunks before it cover `[0, b)` and the scalar tail
   * covers `[b, n)`, which is shorter than one chunk.
   */
  function LoopBound(n: nat, lanes: nat): (b: nat)
    requires lanes >= 1
    ensures MultipleOf(b, lanes) && b <= n < b + lanes
    decreases n
  {
    if n < lanes then 0 else LoopBound(n - lanes, lanes) + lanes
  }

  /** While the lane loop's index is below the bound, a whole chunk fits and the next index is again a multiple. */
  lemma {:induction false} NextChunk(i: nat, b: nat, lanes: nat)
    requires lanes >= 1 && MultipleOf(i, lanes) && MultipleOf(b, lanes) && i < b
    ensures i + lanes <= b && MultipleOf(i + lanes, lanes)
    decreases i
  {
    if i == 0 {
      assert MultipleOf(lanes - lanes, lanes);
    } else {
      NextChunk(i - lanes, b - lanes, lanes);
    }
  }

  /** `FloatVector.zero`. */
  function Zero(lanes: nat): (v: seq<real>)
  {
    seq(lanes, _ => 0.0)
  }

  /** `a.add(b)`. */
  function Add(a: seq<real>, b: seq<real>): (v: seq<real>)
    requires |a| == |b|
  {
    seq(|a|, k requires 0 <= k < |a| => a[k] + b[k])
  }

  /** `a.sub(b)`. */
  function Sub(a: seq<real>, b: seq<real>): (v: seq<real>)
    requires |a| == |b|
  {
    seq(|a|, k requires 0 <= k < |a| => a[k] - b[k])
  }

  /** `a.mul(r)`, the scalar broadcast to every lane. */
  function Mul(a: seq<real>, r: real): (v: seq<real>)
  {
    seq(|a|, k requires 0 <= k < |a| => a[k] * r)
  }

  /** `a.max(b)`. */
  function Max(a: seq<real>, b: seq<real>): (v: seq<real>)
    requires |a| == |b|
  {
    seq(|a|, k requires 0 <= k < |a| => if a[k] < b[k] then b[k] else a[k])
  }

  /** `a.fma(b, c)`: lane-wise `a * b + c`. */
  function Fma(a: seq<real>, b: seq<real>, c: seq<real>): (v: seq<real>)
    requires |a| == |b| == |c|
  {
    seq(|a|, k requires 0 <= k < |a| => a[k] * b[k] + c[k])
  }

  /** `reduceLanes(ADD)`, and in general the sum of a sequence taken left to right. */
  function Sum(v: seq<real>): real
    decreases |v|
  {
    if |v| == 0 then 0.0 else Sum(v[..|v| - 1]) + v[|v| - 1]
  }

  /**
   * The plain sequential dot product: `sum += x[i] * w[i]` for `i` from 0
   * upwards, the scalar reference loop of the benchmark.
   */
  function Dot(x: seq<real>, w: seq<real>): real
    requires |x| == |w|
    decreases |x|
  {
    if |x| == 0 then 0.0 else Dot(x[..|x| - 1], w[..|x| - 1]) + x[|x| - 1] * w[|x| - 1]
  }

  lemma {:induction false} SumZero(lanes: nat)
    ensures Sum(Zero(lanes)) == 0.0
  {
    if lanes > 0 {
      assert Zero(lanes)[..lanes - 1] == Zero(lanes - 1);
      SumZero(lanes - 1);
    }
  }

  /** Adding the zero vector changes nothing. */
  lemma AddZero(a: seq<real>)
    ensures Add(a, Zero(|a|)) == a && Add(Zero(|a|), a) == a
  {
  }

  /** Lane-wise addition is associative. */
  lemma AddAssoc(a: seq<real>, b: seq<real>, c: seq<real>)
    requires |a| == |b| == |c|
    ensures Add(Add(a, b), c) == Add(a, Add(b, c))
  {
  }

  /** Reducing the lanes after one fused multiply-add adds the chunk's dot product. */
  lemma {:induction false} SumFma(a: seq<real>, b: seq<real>, c: seq<real>)
    requires |a| == |b| == |c|
    ensures Sum(Fma(a, b, c)) == Dot(a, b) + Sum(c)
  {
    if |a| > 0 {
      var n := |a| - 1;
      assert forall k :: 0 <= k < n ==> Fma(a, b, c)[..n][k] == Fma(a[..n], b[..n], c[..n])[k];
      assert Fma(a, b, c)[..n] == Fma(a[..n], b[..n], c[..n]);
      SumFma(a[..n], b[..n], c[..n]);
    }
  }

  /** A dot product splits at any index into the dot products of the two parts. */
  lemma {:induction false} DotSplit(x: seq<real>, w: seq<real>, k: nat)
    requires |x| == |w| && k <= |x|
    ensures Dot(x, w) == Dot(x[..k], w[..k]) + Dot(x[k..], w[k..])
    decreases |x|
  {
    if k < |x| {
      var n := |x| - 1;
      DotSplit(x[..n], w[..n], k);
      assert x[..n][..k] == x[..k] && w[..n][..k] == w[..k];
      assert x[..n][k..] == x[k..][..n - k] && w[..n][k..] == w[k..][..n - k];
    } else {
      assert x[..k] == x && w[..k] == w;
    }
  }

  /** One step of a scalar tail loop `sum += xi * wi` extends the dot product over `[lo, i)` to `[lo, i + 1)`. */
  lemma DotExtend(x: seq<real>, w: seq<real>, lo: nat, i: nat, xi: real, wi: real)
    requires |x| == |w| && lo <= i < |x| && xi == x[i] && wi == w[i]
    ensures Dot(x[lo..i + 1], w[lo..i + 1]) == Dot(x[lo..i], w[lo..i]) + xi * wi
  {
    assert x[lo..i + 1][..i - lo] == x[lo..i] && w[lo..i + 1][..i - lo] == w[lo..i];
  }

  /** `intoArray(a, i)`: the register is stored at `a[i..i + |v|]`; nothing else changes. */
  method IntoArray(v: seq<real>, a: array<real>, i: nat)
    requires i + |v| <= a.Length
    modifies a
    ensures forall k :: 0 <= k < a.Length ==> a[k] == if i <= k < i + |v| then v[k - i] else old(a[k])
  {
    forall k | i <= k < i + |v| {
      a[k] := v[k - i];
    }
  }
}
