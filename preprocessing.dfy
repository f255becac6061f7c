/**
 * `PreProcessingVerticle`: owns the embedding table, a map from word to a
 * mutable vector of `embeddingDim` values. `Start` seeds it, `HandleControl`
 * serves the `update` and `pull` commands, and `TextToDenseVector` turns
 * text into the sum of its known words' vectors. Each method is proved
 * against the table functions of `EmbeddingTable` through `Contents()`,
 * the values currently stored in the arrays.
 */
module PreProcessing {
  import opened Wrappers
  import Lanes
  import opened RandomDraws
  import opened EmbeddingTable

  /** A fresh array holding `values`: the copy `update` makes of the JSON array. */
  method CopyVector(values: seq<real>) returns (v: array<real>)
    ensures fresh(v) && v[..] == values
  {
    v := new real[|values|];
    var i := 0;
    while i < |values|
      invariant 0 <= i <= |values|
      invariant forall k :: 0 <= k < i ==> v[k] == values[k]
    {
      v[i] := values[i];
      i := i + 1;
    }
  }

  /** A fresh array filled from successive draws: `vector[i] = nextFloat() - 0.5`. */
  method RandomVector(draws: seq<real>) returns (v: array<real>)
    ensures fresh(v) && v[..] == Centered(draws)
  {
    v := new real[|draws|];
    var i := 0;
    while i < |draws|
      invariant 0 <= i <= |draws|
      invariant forall k :: 0 <= k < i ==> v[k] == draws[k] - 0.5
    {
      v[i] := draws[i] - 0.5;
      i := i + 1;
    }
  }

  /** Putting an entry after a union is putting it into the right-hand map. */
  lemma UnionThenPut(a: Table, b: Table, w: string, v: seq<real>)
    ensures (a + b)[w := v] == a + b[w := v]
  {
  }

  class PreProcessingVerticle {
    const embeddingDim: nat
    var embeddings: map<string, array<real>>

    /** Every vector has `embeddingDim` values, and no two words share an array. */
    ghost predicate Valid()
      reads this
    {
      (forall w :: w in embeddings ==> embeddings[w].Length == embeddingDim)
      && (forall w1, w2 :: w1 in embeddings && w2 in embeddings && w1 != w2 ==> embeddings[w1] != embeddings[w2])
    }

    /** The table as values: what each word's array holds now. */
    ghost function Contents(): (t: Table)
      reads this, embeddings.Values
      ensures t.Keys == embeddings.Keys
    {
      map w | w in embeddings :: embeddings[w][..]
    }

    lemma ContentsShape()
      requires Valid()
      ensures WellShaped(Contents(), embeddingDim)
    {
    }

    constructor (embeddingDim: nat)
      ensures Valid() && this.embeddingDim == embeddingDim && embeddings == map[]
    {
      this.embeddingDim := embeddingDim;
      embeddings := map[];
    }

    /**
     * `embeddings.put(word, vector)` for an array no word holds yet: the entry
     * for `word` now reads `vector`, every other entry is as it was.
     */
    method Store(word: string, vector: array<real>)
      requires Valid() && vector.Length == embeddingDim && vector !in embeddings.Values
      modifies this
      ensures Valid() && embeddings == old(embeddings)[word := vector]
      ensures Contents() == old(Contents())[word := vector[..]]
    {
      embeddings := embeddings[word := vector];
    }

    /**
     * The seeding part of `start`: each seed word in turn gets a fresh array
     * made from its own `embeddingDim` draws, replacing any earlier entry.
     */
    method Start(draws: seq<seq<real>>)
      requires Valid()
      requires |draws| == |SeedWords|
      requires forall k :: 0 <= k < |draws| ==> |draws[k]| == embeddingDim
      modifies this
      ensures Valid()
      ensures Contents() == old(Contents()) + SeedTable(draws, |SeedWords|)
    {
      ghost var initial := Contents();
      var n := 0;
      while n < |SeedWords|
        invariant 0 <= n <= |SeedWords|
        invariant Valid()
        invariant Contents() == initial + SeedTable(draws, n)
      {
        ghost var before := Contents();
        var vector := RandomVector(draws[n]);
        assert Contents() == before;
        Store(SeedWords[n], vector);
        UnionThenPut(initial, SeedTable(draws, n), SeedWords[n], Centered(draws[n]));
        n := n + 1;
      }
    }

    /** The `update` branch of the control handler. */
    method Update(word: Option<string>, vector: VectorField) returns (reply: Reply)
      requires Valid()
      modifies this
      ensures Valid()
      ensures Outcome(reply, Contents()) == UpdateCommand(old(Contents()), embeddingDim, word, vector)
    {
      if word.Some? && !vector.NoVector? {
        if vector.NullVector? {
          return Failed(500, InternalError);
        }
        var values := vector.values;
        if |values| == embeddingDim {
          ghost var before := Contents();
          var newVec := CopyVector(values);
          assert Contents() == before;
          Store(word.value, newVec);
          reply := Updated(word.value);
        } else {
          reply := Failed(400, DimensionMismatch(embeddingDim, |values|));
        }
      } else {
        reply := Failed(400, MissingWordOrVector);
      }
    }

    /**
     * `pullVectors(v1, v2, rate)`: both arrays move toward each other, every
     * new value computed from the values before the call. `v1` and `v2` may
     * be the same array, which then keeps its values.
     */
    method PullVectors(v1: array<real>, v2: array<real>, rate: real, lanes: nat)
      requires lanes >= 1 && v1.Length == embeddingDim && v2.Length == embeddingDim
      modifies v1, v2
      ensures v1[..] == MoveToward(old(v1[..]), old(v2[..]), rate)
      ensures v2[..] == MoveToward(old(v2[..]), old(v1[..]), rate)
    {
      ghost var o1, o2 := v1[..], v2[..];
      var i := 0;
      var upperBound := Lanes.LoopBound(embeddingDim, lanes);
      while i < upperBound
        invariant i <= upperBound && Lanes.MultipleOf(i, lanes)
        invariant forall k :: 0 <= k < i ==> v1[k] == Toward(o1[k], o2[k], rate)
        invariant forall k :: 0 <= k < i ==> v2[k] == Toward(o2[k], o1[k], rate)
        invariant forall k :: i <= k < embeddingDim ==> v1[k] == o1[k] && v2[k] == o2[k]
      {
        Lanes.NextChunk(i, upperBound, lanes);
        PullChunk(v1, v2, rate, i, lanes);
        i := i + lanes;
      }
      while i < embeddingDim
        invariant upperBound <= i <= embeddingDim
        invariant forall k :: 0 <= k < i ==> v1[k] == Toward(o1[k], o2[k], rate)
        invariant forall k :: 0 <= k < i ==> v2[k] == Toward(o2[k], o1[k], rate)
        invariant forall k :: i <= k < embeddingDim ==> v1[k] == o1[k] && v2[k] == o2[k]
      {
        PullElement(v1, v2, rate, i);
        i := i + 1;
      }
      assert forall k :: 0 <= k < embeddingDim ==> v1[..][k] == MoveToward(o1, o2, rate)[k];
      assert forall k :: 0 <= k < embeddingDim ==> v2[..][k] == MoveToward(o2, o1, rate)[k];
    }

    /**
     * One iteration of `pullVectors`' lane loop: both chunks are loaded
     * before either is stored, so the new values depend only on the old ones
     * even when `v1` and `v2` are the same array.
     */
    method PullChunk(v1: array<real>, v2: array<real>, rate: real, i: nat, lanes: nat)
      requires v1.Length == v2.Length && i + lanes <= v1.Length
      modifies v1, v2
      ensures forall k :: 0 <= k < v1.Length ==>
                v1[k] == if i <= k < i + lanes then Toward(old(v1[k]), old(v2[k]), rate) else old(v1[k])
      ensures forall k :: 0 <= k < v2.Length ==>
                v2[k] == if i <= k < i + lanes then Toward(old(v2[k]), old(v1[k]), rate) else old(v2[k])
    {
      var vv1 := v1[i..i + lanes];
      var vv2 := v2[i..i + lanes];
      var diff1 := Lanes.Mul(Lanes.Sub(vv2, vv1), rate);
      var diff2 := Lanes.Mul(Lanes.Sub(vv1, vv2), rate);
      var new1, new2 := Lanes.Add(vv1, diff1), Lanes.Add(vv2, diff2);
      assert forall k :: 0 <= k < lanes ==> new1[k] == Toward(vv1[k], vv2[k], rate) && new2[k] == Toward(vv2[k], vv1[k], rate);
      assert v1 == v2 ==> vv1 == vv2;
      Lanes.IntoArray(new1, v1, i);
      Lanes.IntoArray(new2, v2, i);
    }

    /**
     * One iteration of `pullVectors`' scalar tail: both differences are
     * computed before either element is written.
     */
    method PullElement(v1: array<real>, v2: array<real>, rate: real, i: nat)
      requires v1.Length == v2.Length && i < v1.Length
      modifies v1, v2
      ensures forall k :: 0 <= k < v1.Length ==>
                v1[k] == if k == i then Toward(old(v1[k]), old(v2[k]), rate) else old(v1[k])
      ensures forall k :: 0 <= k < v2.Length ==>
                v2[k] == if k == i then Toward(old(v2[k]), old(v1[k]), rate) else old(v2[k])
    {
      var d1 := (v2[i] - v1[i]) * rate;
      var d2 := (v1[i] - v2[i]) * rate;
      ghost var x1, x2 := v1[i], v2[i];
      assert v1[i] + d1 == Toward(x1, x2, rate) && x2 + d2 == Toward(x2, x1, rate);
      v1[i] := v1[i] + d1;
      v2[i] := v2[i] + d2;
    }

    /** The `pull` branch of the control handler; a missing rate is 0.1. */
    method Pull(word1: Option<string>, word2: Option<string>, rate: Option<real>, lanes: nat) returns (reply: Reply)
      requires Valid() && lanes >= 1
      modifies embeddings.Values
      ensures Valid()
      ensures WellShaped(old(Contents()), embeddingDim)
      ensures Outcome(reply, Contents()) == PullCommand(old(Contents()), embeddingDim, word1, word2, rate)
    {
      ghost var before := Contents();
      var r := if rate.Some? then rate.value else 0.1;
      if word1.Some? && word1.value in embeddings && word2.Some? && word2.value in embeddings {
        var w1, w2 := word1.value, word2.value;
        var v1, v2 := embeddings[w1], embeddings[w2];
        PullVectors(v1, v2, r, lanes);
        if w1 == w2 {
          assert MoveToward(before[w1], before[w1], r) == before[w1];
        }
        assert Contents() == PullTable(before, w1, w2, r);
        reply := Pulled(w1, w2);
      } else {
        reply := Failed(404, WordsNotFound(word1, word2));
      }
    }

    /**
     * The control handler: dispatches on the command type, ignoring case,
     * and answers 400 for any other type.
     */
    method HandleControl(cmd: Command, lanes: nat) returns (reply: Reply)
      requires Valid() && lanes >= 1
      modifies this, embeddings.Values
      ensures Valid()
      ensures WellShaped(old(Contents()), embeddingDim)
      ensures Outcome(reply, Contents()) == Control(old(Contents()), embeddingDim, cmd)
    {
      if EqualsIgnoreCase("update", cmd.kind) {
        reply := Update(cmd.word, cmd.vector);
      } else if EqualsIgnoreCase("pull", cmd.kind) {
        reply := Pull(cmd.word1, cmd.word2, cmd.rate, lanes);
      } else {
        reply := Failed(400, UnknownCommand(cmd.kind));
      }
    }

    /** `sumVector += vec`, lane chunks first and then the scalar tail. */
    method AddInto(sumVector: array<real>, vec: array<real>, lanes: nat)
      requires lanes >= 1 && sumVector.Length == embeddingDim && vec.Length == embeddingDim
      requires sumVector != vec
      modifies sumVector
      ensures sumVector[..] == Lanes.Add(old(sumVector[..]), vec[..])
    {
      ghost var acc := sumVector[..];
      var i := 0;
      var upperBound := Lanes.LoopBound(embeddingDim, lanes);
      while i < upperBound
        invariant i <= upperBound && Lanes.MultipleOf(i, lanes)
        invariant forall k :: 0 <= k < i ==> sumVector[k] == acc[k] + vec[k]
        invariant forall k :: i <= k < embeddingDim ==> sumVector[k] == acc[k]
      {
        Lanes.NextChunk(i, upperBound, lanes);
        var vSum := sumVector[i..i + lanes];
        var vWord := vec[i..i + lanes];
        assert forall k :: i <= k < i + lanes ==> Lanes.Add(vSum, vWord)[k - i] == acc[k] + vec[k];
        Lanes.IntoArray(Lanes.Add(vSum, vWord), sumVector, i);
        i := i + lanes;
      }
      while i < embeddingDim
        invariant upperBound <= i <= embeddingDim
        invariant forall k :: 0 <= k < i ==> sumVector[k] == acc[k] + vec[k]
        invariant forall k :: i <= k < embeddingDim ==> sumVector[k] == acc[k]
      {
        sumVector[i] := sumVector[i] + vec[i];
        i := i + 1;
      }
      assert sumVector[..] == Lanes.Add(acc, vec[..]);
    }

    /**
     * `textToDenseVector(text)`: a fresh zero vector to which the vector of
     * every token found in the table is added, in token order. The table is
     * only read.
     */
    method TextToDenseVector(text: string, lanes: nat) returns (sumVector: array<real>)
      requires Valid() && lanes >= 1
      ensures fresh(sumVector)
      ensures WellShaped(Contents(), embeddingDim)
      ensures sumVector[..] == TextToDense(Contents(), embeddingDim, text)
    {
      ContentsShape();
      sumVector := new real[embeddingDim](_ => 0.0);
      assert sumVector[..] == Lanes.Zero(embeddingDim);
      if text == [] {
        return;
      }
      var tokens := Tokens(text);
      ghost var table := Contents();
      var n := 0;
      while n < |tokens|
        invariant 0 <= n <= |tokens|
        invariant Contents() == table
        invariant sumVector[..] == Featurize(table, embeddingDim, tokens[..n])
      {
        var word := tokens[n];
        assert tokens[..n + 1][..n] == tokens[..n];
        if word in embeddings {
          var vec := embeddings[word];
          AddInto(sumVector, vec, lanes);
        }
        n := n + 1;
      }
      assert tokens[..n] == tokens;
    }
  }
}
