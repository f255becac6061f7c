# mini-ai-inference in Dafny

This project models the core of a small dense-layer inference service written
in Java with Vert.x and the incubating Vector API. It has four parts:

- **`ActivationFunction.RELU`** writes `max(0, x)` element by element into a
  caller-supplied output array. It processes lane-width chunks up to the
  species' `loopBound`, then finishes with a scalar tail. `forward` calls it
  in place, with `output == input`.
- **`LinearLayer`** holds a flat row-major `outputDim x inputDim` weight block
  and a bias vector, both filled once from a random generator. `forward`
  checks the input length, then computes every `y[j]` as a lane-chunked
  fused multiply-add accumulation. It reduces the lanes, runs a scalar tail,
  adds the bias and finally applies the activation.
- **`PreProcessingVerticle`** owns the embedding table, a map from word to a
  mutable vector of `embeddingDim` values:
  - `start` seeds twelve words.
  - `textToDenseVector` lower-cases the text, splits it on whitespace and sums
    the vectors of the known tokens.
  - The control handler serves `update` (replace one entry, after a
    dimension check) and `pull` (move two vectors toward each other, in place).
    It answers 400, 404 or 500 on failure.
- **`InferenceVerticle`** keeps a counter of pending requests with a ceiling
  of 100 and refuses work with 503 at the ceiling. It decodes the request
  body into an input of exactly `inputDim` values, runs the RELU layer, and
  decrements the counter when the computation completes.

Every value is an exact `real`, so rounding plays no part. The platform's
lane width is a parameter `lanes >= 1` of every kernel, and each kernel is
proved to compute the same result for every lane width. The kernels, the
layer and both verticles are imperative Dafny: classes with array fields and
methods with loops. Each method is proved against a pure specification
function: `Lanes.Dot`, `LinearLayer.Affine`, `EmbeddingTable.Control`,
`EmbeddingTable.TextToDense`, `Inference.Decoded`. The properties the service
promises are lemmas about those functions.

Modules and files:

| file | module | contents |
|---|---|---|
| `wrappers.dfy` | `Wrappers` | `Option`, `Result` |
| `random.dfy` | `RandomDraws` | values of the form `nextFloat() - 0.5` |
| `lanes.dfy` | `Lanes` | `loopBound`, the lane-wise operations, `intoArray`, the sequential dot product |
| `activation.dfy` | `ActivationFunction` | `Relu`, `ApplyRelu` |
| `linear_layer.dfy` | `LinearLayer` | the affine map, the chunked dot product, class `LinearLayer` |
| `embedding_table.dfy` | `EmbeddingTable` | the table as a value: seeding, tokens, featurisation, pull, control commands |
| `preprocessing.dfy` | `PreProcessing` | class `PreProcessingVerticle` |
| `inference.dfy` | `Inference` | decoding, the pending-request counter, class `InferenceVerticle` |

Behaviours of the code worth knowing:

- **Pull at rate 1 swaps the two vectors.** Both new vectors are computed
  from the old values, so at rate 1 each takes the other's old value
  (`EmbeddingTable.PullRateOneSwaps`). At rate 0.5 they become equal
  (`EmbeddingTable.PullHalfMeets`).
- **`update` stores the word exactly as given.** Featurisation looks up
  lower-cased tokens, so an entry stored under a word holding an upper-case
  letter, such as `"Hello"`, is never reached by any text
  (`EmbeddingTable.UpdateKeyIsNotLowerCased`).
- **A missing pull word produces a 404 that names both words.** This happens
  even when only one of them is missing.
- **The command kind is read from the JSON field `type`.**
- **`split("\\s+")` keeps a leading empty token** when the text starts with
  whitespace, and that empty token is looked up in the table like any other
  (`EmbeddingTable.LeadingWhitespaceToken`). The empty text itself never
  reaches `split`.

## Model

| member | source | states |
|---|---|---|
| Lanes.Zero | src/main/java/com/example/ai/LinearLayer.java:97 | `FloatVector.zero`: a register of `lanes` zeros |
| Lanes.Add | src/main/java/com/example/ai/verticles/PreProcessingVerticle.java:128 | `a.add(b)`: lane by lane `a + b` |
| Lanes.Sub | src/main/java/com/example/ai/verticles/PreProcessingVerticle.java:150-151 | `a.sub(b)`: lane by lane `a - b` |
| Lanes.Mul | src/main/java/com/example/ai/verticles/PreProcessingVerticle.java:150-151 | `a.mul(r)`: every lane times the broadcast scalar `r` |
| Lanes.Fma | src/main/java/com/example/ai/LinearLayer.java:105 | `a.fma(b, c)`: lane by lane `a * b + c` |
| Lanes.Max | src/main/java/com/example/ai/ActivationFunction.java:22 | `a.max(b)`: lane by lane the larger of the two |
| Lanes.Sum | src/main/java/com/example/ai/LinearLayer.java:108 | `reduceLanes(ADD)`: the sum of the lanes, left to right |
| Lanes.Dot | src/test/java/com/example/ai/benchmark/VectorBenchmark.java:59-61 | the scalar reference loop `sum += input[i] * w[i]` from index 0 upwards |
| Lanes.LoopBound | src/main/java/com/example/ai/ActivationFunction.java:15 | the lane loop ends at a multiple of the lane width `b` with `b <= n < b + lanes`, so the scalar tail is shorter than one chunk |
| Lanes.NextChunk | src/main/java/com/example/ai/ActivationFunction.java:19 | while the index is below the bound a whole chunk fits, and stepping by the lane width keeps the index a multiple of it |
| Lanes.IntoArray | src/main/java/com/example/ai/ActivationFunction.java:23 | `intoArray(a, i)` writes the register at `a[i..i + L]` and leaves every other element of `a` as it was |
| Lanes.SumFma | src/main/java/com/example/ai/LinearLayer.java:105-108 | reducing the lanes after one fused multiply-add adds that chunk's dot product to the previous reduction |
| Lanes.DotSplit | src/test/java/com/example/ai/benchmark/VectorBenchmark.java:59-61 | the sequential dot product splits at any index into the dot products of the two parts |
| Lanes.DotExtend | src/main/java/com/example/ai/LinearLayer.java:111-114 | one step `sum += input[i] * w` of the tail loop extends the dot product by one index |
| Lanes.SumZero | src/main/java/com/example/ai/LinearLayer.java:97 | the zero register reduces to 0 |
| Lanes.AddZero | src/main/java/com/example/ai/verticles/PreProcessingVerticle.java:113 | adding the zero vector on either side changes nothing |
| Lanes.AddAssoc | src/main/java/com/example/ai/verticles/PreProcessingVerticle.java:128 | lane-wise addition is associative |
| RandomDraws.CenteredRange | src/main/java/com/example/ai/LinearLayer.java:63-72 | draws in `[0, 1)` minus 0.5 give values in `[-0.5, 0.5)`, one per draw |
| ActivationFunction.Relu | src/main/java/com/example/ai/ActivationFunction.java:28 | `Math.max(0, x)` |
| ActivationFunction.ReluAll | src/main/java/com/example/ai/ActivationFunction.java:22-28 | RELU applied to every element |
| ActivationFunction.Activate | src/main/java/com/example/ai/LinearLayer.java:123-128 | RELU for a layer built with RELU, the affine result unchanged for a layer without an activation function |
| ActivationFunction.ReluAllShape | src/main/java/com/example/ai/ActivationFunction.java:19-29 | RELU keeps the length, never yields a negative value, and keeps an element exactly when it is non-negative |
| ActivationFunction.ReluIdempotent | src/main/java/com/example/ai/ActivationFunction.java:22-28 | applying RELU twice gives the same result as applying it once |
| ActivationFunction.ApplyRelu | src/main/java/com/example/ai/ActivationFunction.java:13-30 | for every lane width and also in place, `output[k] = max(0, input[k])` for `k < input.length`, and later elements of `output` are unchanged |
| LinearLayer.Affine | src/main/java/com/example/ai/LinearLayer.java:85-119 | `y[j]` is the dot product of the input with row `j` of the block, plus `b[j]`, as the scalar loop of src/test/java/com/example/ai/benchmark/VectorBenchmark.java computes it |
| LinearLayer.LaneAccumulate | src/main/java/com/example/ai/LinearLayer.java:97-106 | the lanes after the lane loop has reached index `i`: lane `k` sums the products at `m + k` over the chunk starts `m < i` |
| LinearLayer.ChunkedDot | src/main/java/com/example/ai/LinearLayer.java:95-114 | one row of `forward`: the lane loop up to `loopBound`, the reduction, then the scalar tail |
| LinearLayer.RowInBlock | src/main/java/com/example/ai/LinearLayer.java:92 | row `j < outputDim` starts at `j * inputDim` and ends at `(j + 1) * inputDim`, inside the `inputDim * outputDim` block |
| LinearLayer.Row | src/main/java/com/example/ai/LinearLayer.java:103-112 | row `j` has `inputDim` entries and entry `i` is weight `j * inputDim + i` |
| LinearLayer.LaneAccumulateSum | src/main/java/com/example/ai/LinearLayer.java:97-108 | after the lane loop has reached index `i`, reducing the lanes gives the sequential dot product over `[0, i)` |
| LinearLayer.ChunkedDotIsDot | src/main/java/com/example/ai/LinearLayer.java:95-114 | for every lane width, lane loop, reduction and scalar tail together give the plain sequential dot product of the scalar reference loop |
| LinearLayer.LinearLayer.constructor | src/main/java/com/example/ai/LinearLayer.java:50-61 | the weight block has `inputDim * outputDim` entries and the bias `outputDim`, filled from the first and the remaining draws, each draw minus 0.5 |
| LinearLayer.LinearLayer.InitializeWeights | src/main/java/com/example/ai/LinearLayer.java:63-72 | every weight, then every bias entry, is the next draw minus 0.5 |
| LinearLayer.LinearLayer.FmaChunk | src/main/java/com/example/ai/LinearLayer.java:100-105 | one step of the lane loop loads the chunk at `i` of the input and of the row and fuses `vInput * vWeight + sumVector` lane by lane |
| LinearLayer.LinearLayer.LaneLoop | src/main/java/com/example/ai/LinearLayer.java:95-106 | the lane loop over the row starting at `rowOffset` stops at `loopBound(inputDim)` with each lane holding its share of the row's products |
| LinearLayer.LinearLayer.TailLoop | src/main/java/com/example/ai/LinearLayer.java:111-114 | the scalar tail adds the dot product of the remaining inputs and row weights to the reduced sum |
| LinearLayer.LinearLayer.RowSum | src/main/java/com/example/ai/LinearLayer.java:86-117 | one row of `forward` yields the sum over `i` of `input[i] * W[j * inputDim + i]`, plus `b[j]` |
| LinearLayer.LinearLayer.Forward | src/main/java/com/example/ai/LinearLayer.java:74-131 | fails, naming both lengths, exactly when `input.length != inputDim`; otherwise returns a fresh array of `outputDim` values equal to the activation of `W x + b` (all non-negative under RELU), and writes nothing else |
| EmbeddingTable.SeedTable | src/main/java/com/example/ai/verticles/PreProcessingVerticle.java:31-40 | the table after the first `n` seed words have been stored, each with its own draws minus 0.5 |
| EmbeddingTable.SeedWordsDistinct | src/main/java/com/example/ai/verticles/PreProcessingVerticle.java:31 | the twelve seed words are pairwise different |
| EmbeddingTable.SeedTableEntries | src/main/java/com/example/ai/verticles/PreProcessingVerticle.java:34-40 | after the first `n` seed words are stored the keys are exactly those words, each holding its own draws minus 0.5 |
| EmbeddingTable.SeedTableShape | src/main/java/com/example/ai/verticles/PreProcessingVerticle.java:31-40 | after seeding, the table holds exactly the twelve seed words, each with `embeddingDim` values in `[-0.5, 0.5)` |
| EmbeddingTable.IsWhitespace | src/main/java/com/example/ai/verticles/PreProcessingVerticle.java:118 | the `\s` character class of the split pattern: space, tab, newline, vertical tab, form feed, carriage return |
| EmbeddingTable.LowerChar | src/main/java/com/example/ai/verticles/PreProcessingVerticle.java:118 | `toLowerCase` of one character: an ASCII upper-case letter becomes its lower-case letter, any other character is kept |
| EmbeddingTable.Lower | src/main/java/com/example/ai/verticles/PreProcessingVerticle.java:118 | `toLowerCase`, character by character |
| EmbeddingTable.SplitPieces | src/main/java/com/example/ai/verticles/PreProcessingVerticle.java:118 | the pieces of the text between maximal whitespace runs, with an empty first piece after a leading run and an empty last piece after a trailing run |
| EmbeddingTable.Tokens | src/main/java/com/example/ai/verticles/PreProcessingVerticle.java:118 | `text.toLowerCase().split("\\s+")`: the pieces of the lower-cased text without the trailing empty ones; `[""]` for the empty text |
| EmbeddingTable.WordEnd | src/main/java/com/example/ai/verticles/PreProcessingVerticle.java:118 | the end of a token is the first whitespace character after its start, or the end of the text |
| EmbeddingTable.RunEnd | src/main/java/com/example/ai/verticles/PreProcessingVerticle.java:118 | a separator is a maximal run of whitespace |
| EmbeddingTable.DropTrailingEmpty | src/main/java/com/example/ai/verticles/PreProcessingVerticle.java:118 | `split` keeps a prefix of the pieces that does not end in an empty string, and every piece it drops is empty |
| EmbeddingTable.WordTokens | src/main/java/com/example/ai/verticles/PreProcessingVerticle.java:118 | a non-empty text without whitespace has exactly one token, the text lower-cased |
| EmbeddingTable.TwoWordTokens | src/main/java/com/example/ai/verticles/PreProcessingVerticle.java:118 | a single word gives one lower-cased token, and "a b" gives the tokens of "a" followed by those of "b" |
| EmbeddingTable.LeadingWhitespaceToken | src/main/java/com/example/ai/verticles/PreProcessingVerticle.java:118-121 | any text that starts with whitespace and is not all whitespace has an empty first token and at least one more; it featurises as the entry for the empty word plus the remaining tokens |
| EmbeddingTable.LowerKeepsWhitespace | src/main/java/com/example/ai/verticles/PreProcessingVerticle.java:118 | lower-casing keeps the length and keeps whitespace and non-whitespace characters where they are |
| EmbeddingTable.LeadingPiecesOf | src/main/java/com/example/ai/verticles/PreProcessingVerticle.java:118 | a string that starts with whitespace and holds a non-whitespace character splits into an empty piece followed by a non-empty one |
| EmbeddingTable.LeadingEmptyPiece | src/main/java/com/example/ai/verticles/PreProcessingVerticle.java:118 | such a text has at least two tokens, the first of them empty |
| EmbeddingTable.LeadingSpaceExample | src/main/java/com/example/ai/verticles/PreProcessingVerticle.java:118 | " ai" has the tokens "" and "ai" |
| EmbeddingTable.LowerIsLowerCase | src/main/java/com/example/ai/verticles/PreProcessingVerticle.java:118 | a lower-cased string has no upper-case letter, and a string has none exactly when lower-casing keeps it |
| EmbeddingTable.SplitPiecesLowerCase | src/main/java/com/example/ai/verticles/PreProcessingVerticle.java:118 | every piece of a string without upper-case letters is without them too |
| EmbeddingTable.TokensLowerCase | src/main/java/com/example/ai/verticles/PreProcessingVerticle.java:118 | for every text, no token holds an upper-case letter |
| EmbeddingTable.FeaturizeIgnoresOtherKeys | src/main/java/com/example/ai/verticles/PreProcessingVerticle.java:119-121 | changing the entry of a word that is not among the tokens does not change their featurisation |
| EmbeddingTable.Featurize | src/main/java/com/example/ai/verticles/PreProcessingVerticle.java:119-133 | the sum of the known tokens' vectors always has `embeddingDim` values |
| EmbeddingTable.TextToDense | src/main/java/com/example/ai/verticles/PreProcessingVerticle.java:112-114 | the featurisation of any text has `embeddingDim` values |
| EmbeddingTable.EmptyTextIsZero | src/main/java/com/example/ai/verticles/PreProcessingVerticle.java:113-114 | empty text gives the zero vector even though `split` would yield one empty token |
| EmbeddingTable.FeaturizeOne | src/main/java/com/example/ai/verticles/PreProcessingVerticle.java:120-132 | one token gives its vector when the table knows it and the zero vector otherwise |
| EmbeddingTable.FeaturizeAdditive | src/main/java/com/example/ai/verticles/PreProcessingVerticle.java:119-133 | featurising `a + b` is the element-wise sum of featurising `a` and featurising `b` |
| EmbeddingTable.UnknownTokenSkipped | src/main/java/com/example/ai/verticles/PreProcessingVerticle.java:120-121 | removing an unknown token from anywhere in the list leaves the result unchanged |
| EmbeddingTable.TwoWordFeaturize | src/main/java/com/example/ai/verticles/PreProcessingVerticle.java:118-133 | featurising "a b" is the element-wise sum of featurising "a" and featurising "b" |
| EmbeddingTable.Toward | src/main/java/com/example/ai/verticles/PreProcessingVerticle.java:150-159 | one component of a pull: `a + (b - a) * rate` |
| EmbeddingTable.MoveToward | src/main/java/com/example/ai/verticles/PreProcessingVerticle.java:150-159 | the moved vector keeps the length of the original |
| EmbeddingTable.PullTable | src/main/java/com/example/ai/verticles/PreProcessingVerticle.java:92-95 | both entries move toward each other, each computed from the values before the pull |
| EmbeddingTable.PullFrame | src/main/java/com/example/ai/verticles/PreProcessingVerticle.java:92-95 | a pull keeps the keys and every vector length, and changes no entry besides the two words |
| EmbeddingTable.PullPreservesSum | src/main/java/com/example/ai/verticles/PreProcessingVerticle.java:146-161 | for two different words, `v1[i] + v2[i]` is the same before and after a pull |
| EmbeddingTable.PullRateZero | src/main/java/com/example/ai/verticles/PreProcessingVerticle.java:146-161 | a pull at rate 0 changes nothing |
| EmbeddingTable.PullHalfMeets | src/main/java/com/example/ai/verticles/PreProcessingVerticle.java:146-161 | a pull at rate 0.5 makes both vectors the midpoint of the two |
| EmbeddingTable.PullRateOneSwaps | src/main/java/com/example/ai/verticles/PreProcessingVerticle.java:146-161 | a pull at rate 1 swaps the two vectors |
| EmbeddingTable.PullSelf | src/main/java/com/example/ai/verticles/PreProcessingVerticle.java:146-161 | pulling a word toward itself changes nothing |
| EmbeddingTable.LoveLikeExample | src/main/java/com/example/ai/verticles/PreProcessingVerticle.java:146-161 | "love" at 0 and "like" at 1 pulled at rate 0.5 both end at 0.5 in every component |
| EmbeddingTable.EqualsIgnoreCase | src/main/java/com/example/ai/verticles/PreProcessingVerticle.java:66 | `equalsIgnoreCase`: the type is present and equal to the name once both are lower-cased |
| EmbeddingTable.UpdateCommand | src/main/java/com/example/ai/verticles/PreProcessingVerticle.java:66-84 | the update branch: 400 for a missing word or vector, 500 for a null vector, 400 naming both lengths for a wrong length, otherwise the entry replaced |
| EmbeddingTable.PullCommand | src/main/java/com/example/ai/verticles/PreProcessingVerticle.java:85-99 | the pull branch: both words present pulls at the given rate or 0.1; otherwise 404 naming both words |
| EmbeddingTable.Control | src/main/java/com/example/ai/verticles/PreProcessingVerticle.java:61-107 | the control handler: update, pull or 400 for any other type |
| EmbeddingTable.ControlInvariant | src/main/java/com/example/ai/verticles/PreProcessingVerticle.java:61-107 | every command keeps every vector at `embeddingDim` values and removes no word; a failed command leaves the table as it was |
| EmbeddingTable.UpdateOutcome | src/main/java/com/example/ai/verticles/PreProcessingVerticle.java:66-84 | an update succeeds exactly when the word and a vector of `embeddingDim` values are present, and then replaces that entry; otherwise 400 naming both lengths, or 400 for a missing field |
| EmbeddingTable.PullOutcome | src/main/java/com/example/ai/verticles/PreProcessingVerticle.java:85-99 | a pull succeeds exactly when both words are present, and then pulls at the given rate or at 0.1; otherwise 404 naming both words |
| EmbeddingTable.UnknownCommandFails | src/main/java/com/example/ai/verticles/PreProcessingVerticle.java:100-101 | any other command type fails with 400 naming the type, and the table is unchanged |
| EmbeddingTable.KindIgnoresCase | src/main/java/com/example/ai/verticles/PreProcessingVerticle.java:66-101 | every type that lower-cases to "update" runs the update branch, every type that lower-cases to "pull" the pull branch, and any other type, or none, fails with 400 naming it |
| EmbeddingTable.MixedCaseUpdate | src/main/java/com/example/ai/verticles/PreProcessingVerticle.java:66 | the type "UpDaTe" runs the update branch |
| EmbeddingTable.UpdateKeyIsNotLowerCased | src/main/java/com/example/ai/verticles/PreProcessingVerticle.java:68-77 | an update under any word holding an upper-case letter stores that key verbatim and changes the featurisation of no text |
| EmbeddingTable.HelloExample | src/main/java/com/example/ai/verticles/PreProcessingVerticle.java:68-77 | after a vector is stored under "Hello", the text "Hello" still featurises through the entry for "hello" |
| PreProcessing.CopyVector | src/main/java/com/example/ai/verticles/PreProcessingVerticle.java:73-76 | the stored vector is a fresh array holding the given values |
| PreProcessing.RandomVector | src/main/java/com/example/ai/verticles/PreProcessingVerticle.java:35-38 | a seed vector is a fresh array holding each draw minus 0.5 |
| PreProcessing.PreProcessingVerticle.constructor | src/main/java/com/example/ai/verticles/PreProcessingVerticle.java:21-26 | a new verticle has an empty table |
| PreProcessing.PreProcessingVerticle.Store | src/main/java/com/example/ai/verticles/PreProcessingVerticle.java:77 | `put` makes the word read the new array and keeps every other entry |
| PreProcessing.PreProcessingVerticle.Start | src/main/java/com/example/ai/verticles/PreProcessingVerticle.java:29-40 | after seeding, the table is the earlier table overridden by the twelve seed entries |
| PreProcessing.PreProcessingVerticle.Update | src/main/java/com/example/ai/verticles/PreProcessingVerticle.java:66-84 | the reply and the new table are those of the update command |
| PreProcessing.PreProcessingVerticle.PullChunk | src/main/java/com/example/ai/verticles/PreProcessingVerticle.java:146-155 | one chunk of both vectors moves toward the other from the values before the step, even when both are the same array |
| PreProcessing.PreProcessingVerticle.PullElement | src/main/java/com/example/ai/verticles/PreProcessingVerticle.java:156-161 | one tail element of both vectors moves toward the other from the values before the step, even when both are the same array |
| PreProcessing.PreProcessingVerticle.PullVectors | src/main/java/com/example/ai/verticles/PreProcessingVerticle.java:138-162 | every element of both arrays moves toward the other's value, both computed from the values before the call |
| PreProcessing.PreProcessingVerticle.Pull | src/main/java/com/example/ai/verticles/PreProcessingVerticle.java:85-99 | the reply and the new table are those of the pull command |
| PreProcessing.PreProcessingVerticle.HandleControl | src/main/java/com/example/ai/verticles/PreProcessingVerticle.java:61-107 | the reply and the new table are those of `Control` applied to the table before the command |
| PreProcessing.PreProcessingVerticle.AddInto | src/main/java/com/example/ai/verticles/PreProcessingVerticle.java:123-132 | `sumVector` becomes its old value plus the word's vector, element by element, for every lane width |
| PreProcessing.PreProcessingVerticle.TextToDenseVector | src/main/java/com/example/ai/verticles/PreProcessingVerticle.java:112-136 | returns a fresh array equal to the featurisation of the text under the current table, and changes nothing |
| Inference.Decoded | src/main/java/com/example/ai/verticles/InferenceVerticle.java:46-51 | the input always has `inputDim` values: the body's values where it has them, 0 after |
| Inference.DecodedRoundTrip | src/main/java/com/example/ai/verticles/InferenceVerticle.java:48-51 | a body of exactly `inputDim` values is read back unchanged |
| Inference.DecodedIgnoresExtra | src/main/java/com/example/ai/verticles/InferenceVerticle.java:48 | values past `inputDim` are ignored |
| Inference.Infer | src/main/java/com/example/ai/verticles/InferenceVerticle.java:44-65 | the reply of a served request: RELU of the affine map of the decoded body |
| Inference.InferShape | src/main/java/com/example/ai/verticles/InferenceVerticle.java:54-65 | every reply has `outputDim` values, none negative |
| Inference.PipelineInput | src/main/java/com/example/ai/verticles/PreProcessingVerticle.java:47-55 | the featurised text, sent as `embeddingDim` floats, reaches a layer with `inputDim == embeddingDim` unchanged |
| Inference.ForwardExample | src/main/java/com/example/ai/LinearLayer.java:85-128 | a RELU layer with weights `[1, 1]` and bias 0 maps `[3, -5]` to `[0]` |
| Inference.Step | src/main/java/com/example/ai/verticles/InferenceVerticle.java:35-56 | one event: an arrival is refused at 100 or more and otherwise counted; a completion decrements the counter |
| Inference.Run | src/main/java/com/example/ai/verticles/InferenceVerticle.java:35-56 | the counter and tallies after a sequence of events from a fresh instance |
| Inference.Feasible | src/main/java/com/example/ai/verticles/InferenceVerticle.java:41-56 | the assumption about the environment that the counter lemmas rest on: every completion belongs to an admitted request that has not completed yet, so each admitted request completes at most once |
| Inference.RunInvariant | src/main/java/com/example/ai/verticles/InferenceVerticle.java:35-56 | in every feasible interleaving the counter stays in `[0, 100]` and equals admitted minus completed, and every arrival is either admitted or refused |
| Inference.RefusedOnlyWhenFull | src/main/java/com/example/ai/verticles/InferenceVerticle.java:35-41 | an arrival is refused exactly when the counter is at 100, and is otherwise counted |
| Inference.Burst | src/main/java/com/example/ai/verticles/InferenceVerticle.java:19-41 | of `n` requests with none completing, the first 100 are admitted and the remaining `n - 100` are refused |
| Inference.Drained | src/main/java/com/example/ai/verticles/InferenceVerticle.java:41-56 | once every admitted request has completed, the counter is 0 |
| Inference.InferenceVerticle.constructor | src/main/java/com/example/ai/verticles/InferenceVerticle.java:18-24 | a new verticle has no layer and a counter at 0 |
| Inference.InferenceVerticle.Start | src/main/java/com/example/ai/verticles/InferenceVerticle.java:31 | starting creates a fresh RELU layer of the verticle's dimensions, whose weights and bias are the successive draws minus 0.5 |
| Inference.InferenceVerticle.TryAdmit | src/main/java/com/example/ai/verticles/InferenceVerticle.java:35-41 | a request is admitted exactly when the counter is below 100, and only then is the counter incremented |
| Inference.InferenceVerticle.Complete | src/main/java/com/example/ai/verticles/InferenceVerticle.java:55-56 | completion decrements the counter by one |
| Inference.InferenceVerticle.DecodeInput | src/main/java/com/example/ai/verticles/InferenceVerticle.java:46-51 | the decode loop fills a fresh zero array with `Decoded(body, inputDim)` |
| Inference.InferenceVerticle.Compute | src/main/java/com/example/ai/verticles/InferenceVerticle.java:44-54 | `forward` never refuses the decoded input, and returns RELU of `W x + b` on it |
| Inference.InferenceVerticle.Handle | src/main/java/com/example/ai/verticles/InferenceVerticle.java:33-69 | 503 with the counter unchanged at 100 or more; otherwise the reply is the layer's output for the decoded body, the failure reply is unreachable, and the counter is restored |

## Left out

- `SIGMOID` (`Math.exp`) and all IEEE-754 behaviour: rounding, fused versus separate multiply-add, NaN in `max`. Values are exact reals, and `0.1f` is taken as exactly 0.1.
- `java.util.Random`: the successive `nextFloat()` results are a parameter, a sequence of draws, and every lemma about ranges assumes they lie in `[0, 1)`.
- `MemorySegment`, `Arena`, byte alignment and `ByteOrder`: the weight and bias blocks are Dafny arrays of values.
- The Vert.x event bus, `executeBlocking`, the 5000 ms send timeout of the preprocessing stage and the thread atomicity of `AtomicInteger`. The counter is modelled as a sequential field plus a pure run over any interleaving of arrivals and completions.
- `Buffer.appendFloat`/`getFloat` byte encoding. A body is the sequence of its complete floats, so `body.length() / 4` is the sequence's length.
- `MainVerticle` (HTTP routing, clustering, status-code mapping from error text) and the load, training-demo and JMH harnesses; the benchmark's scalar loop is used only as the reference dot product `Lanes.Dot`.
- The preprocess message handler's forwarding to the inference stage and its reply relaying. It is represented only by `Inference.PipelineInput`, which joins the two stages' specifications.
- A null message body becomes the empty text before featurisation; `TextToDenseVector` takes the text after that mapping.
- Error replies are structured values (the code and the names or lengths involved), not the formatted message strings.
- String fields (`type`, `word`, `word1`, `word2`) are read as the value's string form, so a command is taken to hold them already as strings: a number in `type` is an unknown command `Some("5")`, which `Control` answers with 400. A non-array `vector`, a non-number element or `rate`, and a message body that is not a JSON object each throw and are answered with 500; of these only the null `vector` case is modelled (`InternalError`).
- EmbeddingTable.Lower: case folding covers ASCII letters only, not the full Unicode rules of `toLowerCase` and `equalsIgnoreCase`.
- Inference.InferenceVerticle.Start: creates the layer but does not register a handler; `Handle` requires a started verticle, as the handler only exists after `start`.
- Inference.InferenceVerticle.Handle: admits, computes and completes within one call; interleavings of several requests are covered by `Inference.RunInvariant` over event sequences, not by the class.
