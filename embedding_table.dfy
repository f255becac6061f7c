/**
 * The embedding table of `PreProcessingVerticle` as a value: a map from
 * word to dense vector, and what featurisation and the control commands
 * (`update`, `pull`, anything else) do to and with it. The verticle's
 * methods are proved against these functions.
 */
module EmbeddingTable {
  import opened Wrappers
  import Lanes
  import opened RandomDraws

  /** Word to vector. */
  type Table = map<string, seq<real>>

  /** Every stored vector has exactly `dim` components. */
  predicate WellShaped(t: Table, dim: nat)
  {
    forall w :: w in t ==> |t[w]| == dim
  }

  // ---------------------------------------------------------------------
  // Seed vocabulary

  /** The words `start` puts in the table, in the order it puts them. */
  const SeedWords: seq<string> :=
    ["hello", "world", "ai", "java", "vertx", "vector", "api", "inference", "high", "performance", "love", "like"]

  /** No seed word occurs twice. */
  lemma SeedWordsDistinct()
    ensures forall i, j :: 0 <= i < j < |SeedWords| ==> SeedWords[i] != SeedWords[j]
  {
    assert forall i :: 0 <= i < |SeedWords| ==> |SeedWords[i]| >= 2;
    var pairs := seq(|SeedWords|, i requires 0 <= i < |SeedWords| => (SeedWords[i][0], SeedWords[i][1]));
    assert pairs == [('h', 'e'), ('w', 'o'), ('a', 'i'), ('j', 'a'), ('v', 'e'), ('v', 'e'), ('a', 'p'), ('i', 'n'), ('h', 'i'), ('p', 'e'), ('l', 'o'), ('l', 'i')];
  }

  /**
   * The table after `start` has stored the first `n` seed words; `draws[k]`
   * holds the `embeddingDim` successive draws made for word `k`.
   */
  function SeedTable(draws: seq<seq<real>>, n: nat): (t: Table)
    requires n <= |SeedWords| && n <= |draws|
  {
    if n == 0 then map[] else SeedTable(draws, n - 1)[SeedWords[n - 1] := Centered(draws[n - 1])]
  }

  /** The seeded words are exactly the first `n` seed words, each vector made of that word's draws. */
  lemma {:induction false} SeedTableEntries(draws: seq<seq<real>>, n: nat)
    requires n <= |SeedWords| && n <= |draws|
    ensures SeedTable(draws, n).Keys == set k | 0 <= k < n :: SeedWords[k]
    ensures forall k :: 0 <= k < n ==> SeedTable(draws, n)[SeedWords[k]] == Centered(draws[k])
  {
    if n > 0 {
      SeedTableEntries(draws, n - 1);
      SeedWordsDistinct();
    }
  }

  /**
   * After `start`, the table holds exactly the twelve seed words, each with
   * a vector of `embeddingDim` values in `[-0.5, 0.5)`.
   */
  lemma SeedTableShape(draws: seq<seq<real>>, dim: nat)
    requires |draws| == |SeedWords|
    requires forall k :: 0 <= k < |draws| ==> |draws[k]| == dim && UnitDraws(draws[k])
    ensures forall w :: w in SeedTable(draws, |SeedWords|) <==> w in SeedWords
    ensures WellShaped(SeedTable(draws, |SeedWords|), dim)
    ensures forall w, i :: w in SeedTable(draws, |SeedWords|) && 0 <= i < dim ==>
              -0.5 <= SeedTable(draws, |SeedWords|)[w][i] < 0.5
  {
    var t := SeedTable(draws, |SeedWords|);
    SeedTableEntries(draws, |SeedWords|);
    forall w | w in t
      ensures w in SeedWords && |t[w]| == dim && forall i :: 0 <= i < dim ==> -0.5 <= t[w][i] < 0.5
    {
      var k :| 0 <= k < |SeedWords| && SeedWords[k] == w;
      CenteredRange(draws[k]);
    }
    forall w | w in SeedWords
      ensures w in t
    {
      var k :| 0 <= k < |SeedWords| && SeedWords[k] == w;
    }
  }

  // ---------------------------------------------------------------------
  // Featurisation

  /** `\s` of a Java regular expression: space, tab, newline, vertical tab, form feed, carriage return. */
  predicate IsWhitespace(c: char)
  {
    c == ' ' || c == '\t' || c == '\n' || c == '\U{000B}' || c == '\U{000C}' || c == '\r'
  }

  /** `Character.toLowerCase` on the ASCII range. */
  function LowerChar(c: char): (d: char)
  {
    if 'A' <= c <= 'Z' then (c as int + 32) as char else c
  }

  /** `String.toLowerCase` on the ASCII range. */
  function Lower(s: string): (r: string)
  {
    seq(|s|, i requires 0 <= i < |s| => LowerChar(s[i]))
  }

  /** The first index at or after `from` that holds whitespace, or `|s|`. */
  function WordEnd(s: string, from: nat): (k: nat)
    requires from <= |s|
    ensures from <= k <= |s|
    ensures forall i :: from <= i < k ==> !IsWhitespace(s[i])
    ensures k < |s| ==> IsWhitespace(s[k])
    decreases |s| - from
  {
    if from == |s| || IsWhitespace(s[from]) then from else WordEnd(s, from + 1)
  }

  /** The first index at or after `from` that does not hold whitespace, or `|s|`. */
  function RunEnd(s: string, from: nat): (k: nat)
    requires from <= |s|
    ensures from <= k <= |s|
    ensures forall i :: from <= i < k ==> IsWhitespace(s[i])
    ensures k < |s| ==> !IsWhitespace(s[k])
    decreases |s| - from
  {
    if from == |s| || !IsWhitespace(s[from]) then from else RunEnd(s, from + 1)
  }

  /**
   * The pieces of `s` between maximal runs of whitespace. A leading run
   * yields an empty first piece and a trailing run an empty last piece.
   */
  function SplitPieces(s: string): (pieces: seq<string>)
    decreases |s|
  {
    var k := WordEnd(s, 0);
    if k == |s| then [s] else [s[..k]] + SplitPieces(s[RunEnd(s, k)..])
  }

  /** `split` with limit 0 drops the empty strings at the end of the result. */
  function DropTrailingEmpty(pieces: seq<string>): (r: seq<string>)
    ensures |r| <= |pieces| && r == pieces[..|r|]
    ensures r != [] ==> r[|r| - 1] != ""
    ensures forall k :: |r| <= k < |pieces| ==> pieces[k] == ""
  {
    if pieces != [] && pieces[|pieces| - 1] == "" then DropTrailingEmpty(pieces[..|pieces| - 1]) else pieces
  }

  /**
   * `text.toLowerCase().split("\\s+")`. Java returns the input itself when
   * the pattern never matches, which for the empty string is `[""]`.
   */
  function Tokens(text: string): (tokens: seq<string>)
  {
    if text == [] then [""] else DropTrailingEmpty(SplitPieces(Lower(text)))
  }

  /** A word: non-empty and without whitespace. */
  predicate IsWord(s: string)
  {
    s != [] && forall i :: 0 <= i < |s| ==> !IsWhitespace(s[i])
  }

  /** Lower-casing a word gives a word. */
  lemma LowerWord(s: string)
    requires IsWord(s)
    ensures IsWord(Lower(s))
  {
    assert forall i :: 0 <= i < |s| ==> Lower(s)[i] == LowerChar(s[i]);
  }

  /** Lower-casing distributes over concatenation. */
  lemma LowerConcat(a: string, b: string)
    ensures Lower(a + b) == Lower(a) + Lower(b)
  {
    assert forall i :: 0 <= i < |a + b| ==> Lower(a + b)[i] == (Lower(a) + Lower(b))[i];
  }

  /** A word is a single piece. */
  lemma WordPieces(w: string)
    requires IsWord(w)
    ensures SplitPieces(w) == [w]
  {
    assert WordEnd(w, 0) == |w|;
  }

  /** Two words with one space between them are two pieces. */
  lemma SpacedPieces(a: string, b: string)
    requires IsWord(a) && IsWord(b)
    ensures SplitPieces(a + " " + b) == [a, b]
  {
    var s := a + " " + b;
    assert forall i :: 0 <= i < |a| ==> s[i] == a[i];
    assert s[|a|] == ' ' && s[|a| + 1] == b[0];
    var k := WordEnd(s, 0);
    assert k == |a|;
    assert RunEnd(s, k) == |a| + 1;
    assert s[..k] == a && s[|a| + 1..] == b;
    WordPieces(b);
  }

  /** A space followed by a word is an empty piece and the word. */
  lemma LeadingPieces(a: string)
    requires IsWord(a)
    ensures SplitPieces(" " + a) == ["", a]
  {
    var s := " " + a;
    assert s[1] == a[0];
    assert WordEnd(s, 0) == 0;
    assert RunEnd(s, 0) == 1;
    assert s[..0] == "" && s[1..] == a;
    WordPieces(a);
  }

  /** A word has one token, itself lower-cased. */
  lemma WordTokens(w: string)
    requires IsWord(w)
    ensures Tokens(w) == [Lower(w)]
  {
    LowerWord(w);
    WordPieces(Lower(w));
  }

  /** No character of `s` is an ASCII upper-case letter, so lower-casing leaves it as it is. */
  predicate IsLowerCase(s: string)
  {
    forall i :: 0 <= i < |s| ==> LowerChar(s[i]) == s[i]
  }

  /** A lower-cased string is lower case, and a string is lower case exactly when lower-casing keeps it. */
  lemma LowerIsLowerCase(s: string)
    ensures IsLowerCase(Lower(s))
    ensures IsLowerCase(s) <==> Lower(s) == s
  {
    if Lower(s) == s {
      assert forall i :: 0 <= i < |s| ==> LowerChar(s[i]) == Lower(s)[i];
    }
  }

  /** Every piece of a lower-case string is lower case. */
  lemma {:induction false} SplitPiecesLowerCase(s: string)
    requires IsLowerCase(s)
    ensures forall p :: p in SplitPieces(s) ==> IsLowerCase(p)
    decreases |s|
  {
    var k := WordEnd(s, 0);
    if k < |s| {
      var rest := s[RunEnd(s, k)..];
      assert IsLowerCase(rest) by {
        assert forall i :: 0 <= i < |rest| ==> rest[i] == s[RunEnd(s, k) + i];
      }
      SplitPiecesLowerCase(rest);
    }
  }

  /** Every token of every text is lower case: no token holds an ASCII upper-case letter. */
  lemma TokensLowerCase(text: string)
    ensures forall tok :: tok in Tokens(text) ==> IsLowerCase(tok)
  {
    if text != [] {
      LowerIsLowerCase(text);
      SplitPiecesLowerCase(Lower(text));
      var pieces := SplitPieces(Lower(text));
      var r := DropTrailingEmpty(pieces);
      forall tok | tok in r
        ensures IsLowerCase(tok)
      {
        var k :| 0 <= k < |r| && r[k] == tok;
        assert pieces[k] == tok;
      }
    }
  }

  /** Lower-casing keeps whitespace and non-whitespace where they are. */
  lemma LowerKeepsWhitespace(text: string)
    ensures |Lower(text)| == |text|
    ensures forall i :: 0 <= i < |text| ==> (IsWhitespace(Lower(text)[i]) <==> IsWhitespace(text[i]))
  {
  }

  /**
   * A string that starts with whitespace and holds a non-whitespace
   * character at `i` splits into an empty piece followed by a non-empty one.
   */
  lemma LeadingPiecesOf(s: string, i: nat)
    requires 0 < |s| && IsWhitespace(s[0]) && i < |s| && !IsWhitespace(s[i])
    ensures |SplitPieces(s)| >= 2 && SplitPieces(s)[0] == "" && SplitPieces(s)[1] != ""
  {
    assert WordEnd(s, 0) == 0;
    var rest := s[RunEnd(s, 0)..];
    assert SplitPieces(s) == [""] + SplitPieces(rest);
    assert rest[0] == s[RunEnd(s, 0)];
    assert WordEnd(rest, 0) > 0;
  }

  /**
   * A text whose first character is whitespace and which holds a
   * non-whitespace character at `i` has an empty first token followed by
   * at least one more.
   */
  lemma LeadingEmptyPiece(text: string, i: nat)
    requires 0 < |text| && IsWhitespace(text[0]) && i < |text| && !IsWhitespace(text[i])
    ensures |Tokens(text)| >= 2 && Tokens(text)[0] == ""
  {
    LowerKeepsWhitespace(text);
    LeadingPiecesOf(Lower(text), i);
  }

  /**
   * The sum of the vectors of the known tokens, accumulated left to right
   * from the zero vector; unknown tokens contribute nothing.
   */
  function Featurize(t: Table, dim: nat, tokens: seq<string>): (v: seq<real>)
    requires WellShaped(t, dim)
    ensures |v| == dim
    decreases |tokens|
  {
    if tokens == [] then Lanes.Zero(dim)
    else
      var acc := Featurize(t, dim, tokens[..|tokens| - 1]);
      var word := tokens[|tokens| - 1];
      if word in t then Lanes.Add(acc, t[word]) else acc
  }

  /**
   * `textToDenseVector`: empty text gives the zero vector without being
   * split; any other text gives the featurisation of its tokens.
   */
  function TextToDense(t: Table, dim: nat, text: string): (v: seq<real>)
    requires WellShaped(t, dim)
    ensures |v| == dim
  {
    if text == [] then Lanes.Zero(dim) else Featurize(t, dim, Tokens(text))
  }

  /**
   * Empty text is the zero vector even when the table has an entry for the
   * empty word, which `update` can store.
   */
  lemma EmptyTextIsZero(t: Table, dim: nat)
    requires WellShaped(t, dim)
    ensures Tokens("") == [""]
    ensures TextToDense(t, dim, "") == Lanes.Zero(dim)
  {
  }

  /**
   * Text that starts with whitespace and is not all whitespace has an
   * empty first token, which is looked up like any other: the text
   * featurises through the entry for the empty word plus the remaining
   * tokens.
   */
  lemma LeadingWhitespaceToken(t: Table, dim: nat, text: string, i: nat)
    requires WellShaped(t, dim)
    requires 0 < |text| && IsWhitespace(text[0]) && i < |text| && !IsWhitespace(text[i])
    ensures |Tokens(text)| >= 2 && Tokens(text)[0] == ""
    ensures TextToDense(t, dim, text) == Lanes.Add(Featurize(t, dim, [""]), Featurize(t, dim, Tokens(text)[1..]))
  {
    LeadingEmptyPiece(text, i);
    var tokens := Tokens(text);
    assert tokens == [""] + tokens[1..];
    FeaturizeAdditive(t, dim, [""], tokens[1..]);
  }

  /** " ai" has the tokens "" and "ai". */
  lemma LeadingSpaceExample()
    ensures Tokens(" ai") == ["", "ai"]
  {
    assert IsWord("ai");
    LeadingPieces("ai");
    assert Lower(" ai") == " ai";
    assert DropTrailingEmpty(["", "ai"]) == ["", "ai"];
  }

  /** A single token featurises to its vector if the table knows it, and to zero otherwise. */
  lemma FeaturizeOne(t: Table, dim: nat, word: string)
    requires WellShaped(t, dim)
    ensures Featurize(t, dim, [word]) == if word in t then t[word] else Lanes.Zero(dim)
  {
    assert [word][..0] == [];
    if word in t {
      Lanes.AddZero(t[word]);
    }
  }

  /** Featurisation is additive over token lists. */
  lemma {:induction false} FeaturizeAdditive(t: Table, dim: nat, a: seq<string>, b: seq<string>)
    requires WellShaped(t, dim)
    ensures Featurize(t, dim, a + b) == Lanes.Add(Featurize(t, dim, a), Featurize(t, dim, b))
    decreases |b|
  {
    if b == [] {
      assert a + b == a;
      Lanes.AddZero(Featurize(t, dim, a));
    } else {
      var n := |b| - 1;
      assert (a + b)[..|a + b| - 1] == a + b[..n];
      FeaturizeAdditive(t, dim, a, b[..n]);
      var word := b[n];
      if word in t {
        Lanes.AddAssoc(Featurize(t, dim, a), Featurize(t, dim, b[..n]), t[word]);
      }
    }
  }

  /** An unknown token is skipped: removing it does not change the result. */
  lemma UnknownTokenSkipped(t: Table, dim: nat, a: seq<string>, word: string, b: seq<string>)
    requires WellShaped(t, dim) && word !in t
    ensures Featurize(t, dim, a + [word] + b) == Featurize(t, dim, a + b)
  {
    FeaturizeAdditive(t, dim, a + [word], b);
    FeaturizeAdditive(t, dim, a, [word]);
    FeaturizeAdditive(t, dim, a, b);
    FeaturizeOne(t, dim, word);
    Lanes.AddZero(Featurize(t, dim, a));
  }

  /** Two words separated by one space have the two lower-cased words as tokens. */
  lemma TwoWordTokens(a: string, b: string)
    requires IsWord(a) && IsWord(b)
    ensures Tokens(a) == [Lower(a)] && Tokens(b) == [Lower(b)]
    ensures Tokens(a + " " + b) == Tokens(a) + Tokens(b)
  {
    WordTokens(a);
    WordTokens(b);
    LowerConcat(a + " ", b);
    LowerConcat(a, " ");
    assert Lower(" ") == " ";
    LowerWord(a);
    LowerWord(b);
    SpacedPieces(Lower(a), Lower(b));
    assert DropTrailingEmpty([Lower(a), Lower(b)]) == [Lower(a), Lower(b)];
  }

  /** Featurising "a b" gives the sum of featurising "a" and featurising "b". */
  lemma TwoWordFeaturize(t: Table, dim: nat, a: string, b: string)
    requires WellShaped(t, dim) && IsWord(a) && IsWord(b)
    ensures Featurize(t, dim, Tokens(a + " " + b))
            == Lanes.Add(Featurize(t, dim, Tokens(a)), Featurize(t, dim, Tokens(b)))
  {
    TwoWordTokens(a, b);
    FeaturizeAdditive(t, dim, Tokens(a), Tokens(b));
  }

  // ---------------------------------------------------------------------
  // Pull

  /** One component of a pull: `a + rate * (b - a)`, computed as the code does, `a + (b - a) * rate`. */
  function Toward(a: real, b: real, rate: real): real
  {
    a + (b - a) * rate
  }

  /** Every component of `v` moved toward the same component of `other`. */
  function MoveToward(v: seq<real>, other: seq<real>, rate: real): (r: seq<real>)
    requires |v| == |other|
    ensures |r| == |v|
  {
    seq(|v|, i requires 0 <= i < |v| => Toward(v[i], other[i], rate))
  }

  /** Both vectors move toward each other, each computed from the values before the pull. */
  function PullTable(t: Table, w1: string, w2: string, rate: real): (r: Table)
    requires w1 in t && w2 in t && |t[w1]| == |t[w2]|
  {
    t[w1 := MoveToward(t[w1], t[w2], rate)][w2 := MoveToward(t[w2], t[w1], rate)]
  }

  /** A pull changes only the two entries and keeps every shape. */
  lemma PullFrame(t: Table, dim: nat, w1: string, w2: string, rate: real)
    requires WellShaped(t, dim) && w1 in t && w2 in t
    ensures PullTable(t, w1, w2, rate).Keys == t.Keys
    ensures WellShaped(PullTable(t, w1, w2, rate), dim)
    ensures forall w :: w in t && w != w1 && w != w2 ==> PullTable(t, w1, w2, rate)[w] == t[w]
  {
  }

  /** The sum of the two vectors is preserved, element by element. */
  lemma PullPreservesSum(t: Table, w1: string, w2: string, rate: real)
    requires w1 in t && w2 in t && |t[w1]| == |t[w2]| && w1 != w2
    ensures forall i :: 0 <= i < |t[w1]| ==>
              PullTable(t, w1, w2, rate)[w1][i] + PullTable(t, w1, w2, rate)[w2][i] == t[w1][i] + t[w2][i]
  {
  }

  /** Rate 0 changes nothing. */
  lemma PullRateZero(t: Table, w1: string, w2: string)
    requires w1 in t && w2 in t && |t[w1]| == |t[w2]|
    ensures PullTable(t, w1, w2, 0.0) == t
  {
    assert MoveToward(t[w1], t[w2], 0.0) == t[w1];
    assert MoveToward(t[w2], t[w1], 0.0) == t[w2];
  }

  /** Rate 0.5 makes both vectors the midpoint of the two. */
  lemma PullHalfMeets(t: Table, w1: string, w2: string)
    requires w1 in t && w2 in t && |t[w1]| == |t[w2]|
    ensures PullTable(t, w1, w2, 0.5)[w1] == PullTable(t, w1, w2, 0.5)[w2]
    ensures forall i :: 0 <= i < |t[w1]| ==> PullTable(t, w1, w2, 0.5)[w1][i] == (t[w1][i] + t[w2][i]) / 2.0
  {
  }

  /** With the snapshot semantics, rate 1 swaps the two vectors. */
  lemma PullRateOneSwaps(t: Table, w1: string, w2: string)
    requires w1 in t && w2 in t && |t[w1]| == |t[w2]|
    ensures PullTable(t, w1, w2, 1.0)[w1] == t[w2]
    ensures PullTable(t, w1, w2, 1.0)[w2] == t[w1]
  {
    assert MoveToward(t[w1], t[w2], 1.0) == t[w2];
    assert MoveToward(t[w2], t[w1], 1.0) == t[w1];
  }

  /** Pulling a word toward itself changes nothing. */
  lemma PullSelf(t: Table, w: string, rate: real)
    requires w in t
    ensures PullTable(t, w, w, rate) == t
  {
    assert MoveToward(t[w], t[w], rate) == t[w];
  }

  /** "love" at zero and "like" at one, pulled at rate 0.5, both end at 0.5 everywhere. */
  lemma LoveLikeExample()
    ensures var t := map["love" := [0.0, 0.0, 0.0, 0.0], "like" := [1.0, 1.0, 1.0, 1.0]];
            PullTable(t, "love", "like", 0.5) == map["love" := [0.5, 0.5, 0.5, 0.5], "like" := [0.5, 0.5, 0.5, 0.5]]
  {
    var zeros, ones, halves := [0.0, 0.0, 0.0, 0.0], [1.0, 1.0, 1.0, 1.0], [0.5, 0.5, 0.5, 0.5];
    assert MoveToward(zeros, ones, 0.5) == halves;
    assert MoveToward(ones, zeros, 0.5) == halves;
  }

  // ---------------------------------------------------------------------
  // Control commands

  /** The `vector` field of an update command: absent, JSON null, or an array of numbers. */
  datatype VectorField = NoVector | NullVector | Vector(values: seq<real>)

  /** A decoded control message; `None` stands for a field that is absent or null. */
  datatype Command = Command(
    kind: Option<string>,
    word: Option<string>,
    vector: VectorField,
    word1: Option<string>,
    word2: Option<string>,
    rate: Option<real>)

  datatype ControlError =
    | DimensionMismatch(expected: nat, actual: nat)
    | MissingWordOrVector
    | WordsNotFound(word1: Option<string>, word2: Option<string>)
    | UnknownCommand(kind: Option<string>)
      /** `vector` present but null: reading its size throws, which the handler reports as 500. */
    | InternalError

  datatype Reply = Updated(word: string) | Pulled(word1: string, word2: string) | Failed(code: nat, error: ControlError)

  datatype Outcome = Outcome(reply: Reply, table: Table)

  /** The rate of a pull whose command has none. */
  const DefaultRate: real := 0.1

  /** `"…".equalsIgnoreCase(kind)`, with ASCII case folding; false for a missing kind. */
  predicate EqualsIgnoreCase(name: string, kind: Option<string>)
  {
    kind.Some? && Lower(name) == Lower(kind.value)
  }

  /** The `update` branch: replace the entry for `word`, as given, without lower-casing it. */
  function UpdateCommand(t: Table, dim: nat, word: Option<string>, vector: VectorField): (o: Outcome)
  {
    if word.None? || vector.NoVector? then Outcome(Failed(400, MissingWordOrVector), t)
    else if vector.NullVector? then Outcome(Failed(500, InternalError), t)
    else if |vector.values| != dim then Outcome(Failed(400, DimensionMismatch(dim, |vector.values|)), t)
    else Outcome(Updated(word.value), t[word.value := vector.values])
  }

  /** The `pull` branch: both words must be in the table; a missing rate is 0.1. */
  function PullCommand(t: Table, dim: nat, word1: Option<string>, word2: Option<string>, rate: Option<real>): (o: Outcome)
    requires WellShaped(t, dim)
  {
    var r := if rate.Some? then rate.value else DefaultRate;
    if word1.Some? && word1.value in t && word2.Some? && word2.value in t then
      Outcome(Pulled(word1.value, word2.value), PullTable(t, word1.value, word2.value, r))
    else Outcome(Failed(404, WordsNotFound(word1, word2)), t)
  }

  /** The control handler: the command type is matched case-insensitively. */
  function Control(t: Table, dim: nat, cmd: Command): (o: Outcome)
    requires WellShaped(t, dim)
  {
    if EqualsIgnoreCase("update", cmd.kind) then UpdateCommand(t, dim, cmd.word, cmd.vector)
    else if EqualsIgnoreCase("pull", cmd.kind) then PullCommand(t, dim, cmd.word1, cmd.word2, cmd.rate)
    else Outcome(Failed(400, UnknownCommand(cmd.kind)), t)
  }

  /**
   * Every command keeps every vector at `dim` components and removes no
   * word; a failed command leaves the table exactly as it was.
   */
  lemma ControlInvariant(t: Table, dim: nat, cmd: Command)
    requires WellShaped(t, dim)
    ensures WellShaped(Control(t, dim, cmd).table, dim)
    ensures t.Keys <= Control(t, dim, cmd).table.Keys
    ensures Control(t, dim, cmd).reply.Failed? ==> Control(t, dim, cmd).table == t
  {
    if !EqualsIgnoreCase("update", cmd.kind) && EqualsIgnoreCase("pull", cmd.kind)
       && cmd.word1.Some? && cmd.word1.value in t && cmd.word2.Some? && cmd.word2.value in t {
      var r := if cmd.rate.Some? then cmd.rate.value else DefaultRate;
      PullFrame(t, dim, cmd.word1.value, cmd.word2.value, r);
    }
  }

  /**
   * An update succeeds exactly when the word and a vector of `dim` values
   * are present, and then replaces that one entry; the other failures are
   * 400 for a missing field, 400 naming both lengths for a wrong length,
   * and 500 for a null vector.
   */
  lemma UpdateOutcome(t: Table, dim: nat, cmd: Command)
    requires WellShaped(t, dim) && EqualsIgnoreCase("update", cmd.kind)
    ensures Control(t, dim, cmd).reply.Updated?
            <==> cmd.word.Some? && cmd.vector.Vector? && |cmd.vector.values| == dim
    ensures Control(t, dim, cmd).reply.Updated? ==>
              Control(t, dim, cmd).table == t[cmd.word.value := cmd.vector.values]
              && Control(t, dim, cmd).reply.word == cmd.word.value
    ensures cmd.word.Some? && cmd.vector.Vector? && |cmd.vector.values| != dim ==>
              Control(t, dim, cmd).reply == Failed(400, DimensionMismatch(dim, |cmd.vector.values|))
    ensures cmd.word.None? || cmd.vector.NoVector? ==>
              Control(t, dim, cmd).reply == Failed(400, MissingWordOrVector)
  {
  }

  /**
   * A pull succeeds exactly when both words are in the table, and then
   * moves the two entries toward each other at the given rate, or 0.1 when
   * none is given; otherwise it fails with 404 naming both words.
   */
  lemma PullOutcome(t: Table, dim: nat, cmd: Command)
    requires WellShaped(t, dim) && EqualsIgnoreCase("pull", cmd.kind)
    ensures Control(t, dim, cmd).reply.Pulled?
            <==> cmd.word1.Some? && cmd.word1.value in t && cmd.word2.Some? && cmd.word2.value in t
    ensures Control(t, dim, cmd).reply.Pulled? ==>
              Control(t, dim, cmd).table
              == PullTable(t, cmd.word1.value, cmd.word2.value, if cmd.rate.Some? then cmd.rate.value else 0.1)
    ensures !Control(t, dim, cmd).reply.Pulled? ==>
              Control(t, dim, cmd).reply == Failed(404, WordsNotFound(cmd.word1, cmd.word2))
  {
    assert |Lower("update")| == 6 && |Lower("pull")| == 4;
  }

  /** A command whose type is neither update nor pull, in any case, fails with 400 naming the type. */
  lemma UnknownCommandFails(t: Table, dim: nat, cmd: Command)
    requires WellShaped(t, dim)
    requires !EqualsIgnoreCase("update", cmd.kind) && !EqualsIgnoreCase("pull", cmd.kind)
    ensures Control(t, dim, cmd) == Outcome(Failed(400, UnknownCommand(cmd.kind)), t)
  {
  }

  /**
   * The command type is matched without regard to case: any spelling of
   * "update" is an update, any spelling of "pull" a pull, and anything
   * else, or no type at all, an unknown command.
   */
  lemma KindIgnoresCase(t: Table, dim: nat, cmd: Command)
    requires WellShaped(t, dim)
    ensures cmd.kind.Some? && Lower(cmd.kind.value) == "update" ==>
              Control(t, dim, cmd) == UpdateCommand(t, dim, cmd.word, cmd.vector)
    ensures cmd.kind.Some? && Lower(cmd.kind.value) == "pull" ==>
              Control(t, dim, cmd) == PullCommand(t, dim, cmd.word1, cmd.word2, cmd.rate)
    ensures (cmd.kind.None? || (Lower(cmd.kind.value) != "update" && Lower(cmd.kind.value) != "pull")) ==>
              Control(t, dim, cmd) == Outcome(Failed(400, UnknownCommand(cmd.kind)), t)
  {
    assert Lower("update") == "update";
    assert Lower("pull") == "pull";
  }

  /** "UpDaTe" is an update. */
  lemma MixedCaseUpdate(t: Table, dim: nat, cmd: Command)
    requires WellShaped(t, dim) && cmd.kind == Some("UpDaTe")
    ensures Control(t, dim, cmd) == UpdateCommand(t, dim, cmd.word, cmd.vector)
  {
    assert Lower("UpDaTe") == "update";
    KindIgnoresCase(t, dim, cmd);
  }

  /** Featurisation never looks up a word that is not among the tokens. */
  lemma {:induction false} FeaturizeIgnoresOtherKeys(t: Table, dim: nat, tokens: seq<string>, w: string, v: seq<real>)
    requires WellShaped(t, dim) && |v| == dim && w !in tokens
    ensures Featurize(t[w := v], dim, tokens) == Featurize(t, dim, tokens)
    decreases |tokens|
  {
    if tokens != [] {
      FeaturizeIgnoresOtherKeys(t, dim, tokens[..|tokens| - 1], w, v);
    }
  }

  /**
   * `update` stores the word exactly as given while featurisation looks up
   * lower-cased tokens: an update under a word holding an upper-case
   * letter stores it verbatim and changes the featurisation of no text.
   */
  lemma UpdateKeyIsNotLowerCased(t: Table, dim: nat, w: string, v: seq<real>, text: string)
    requires WellShaped(t, dim) && |v| == dim && Lower(w) != w
    ensures UpdateCommand(t, dim, Some(w), Vector(v)).table == t[w := v]
    ensures TextToDense(t[w := v], dim, text) == TextToDense(t, dim, text)
  {
    if text != [] {
      TokensLowerCase(text);
      LowerIsLowerCase(w);
      FeaturizeIgnoresOtherKeys(t, dim, Tokens(text), w, v);
    }
  }

  /** After storing a vector under "Hello", the text "Hello" featurises through the entry for "hello". */
  lemma HelloExample(t: Table, dim: nat, v: seq<real>)
    requires WellShaped(t, dim) && |v| == dim
    ensures Tokens("Hello") == ["hello"]
    ensures TextToDense(t["Hello" := v], dim, "Hello") == if "hello" in t then t["hello"] else Lanes.Zero(dim)
  {
    assert IsWord("Hello");
    WordTokens("Hello");
    assert Lower("Hello") == "hello";
    FeaturizeOne(t["Hello" := v], dim, "hello");
  }
}
