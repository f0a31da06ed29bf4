/**
 * `Corpus.pmi` and `Corpus.totalpmi`: pointwise mutual information of
 * adjacent word pairs. The model stops at the argument of the logarithm,
 * a ratio of two integer counts.
 */
module Association {
  import opened Results
  import opened Text
  import opened Counting
  import opened CorpusModel

  /** The minimum frequency `totalpmi` compares against. */
  const MinFrequency: nat := 10

  /** `num / den`, kept unreduced as Python computes it. */
  datatype Ratio = Ratio(num: nat, den: nat)

  /** The exceptions `pmi` and `totalpmi` can raise. */
  datatype PmiError = MissingPair(pair: Bigram) | MissingWord(word: Token) | ZeroDivision

  /** A bigram with its PMI ratio: one element of `totalpmi`'s list. */
  type Scored = (Bigram, Ratio)

  /**
   * The argument of `numpy.log` in `pmi`:
   * `tuples[(w1, w2)] * len(tokens) / (frequency[w1] * frequency[w2])`,
   * each lookup a `KeyError` when the key is absent, in Python's order.
   */
  function Pmi(c: Corpus, w1: Token, w2: Token): Result<Ratio, PmiError>
  {
    if (w1, w2) !in c.tuples.count then Err(MissingPair((w1, w2)))
    else if w1 !in c.frequency.count then Err(MissingWord(w1))
    else if w2 !in c.frequency.count then Err(MissingWord(w2))
    else
      var den := c.frequency.count[w1] * c.frequency.count[w2];
      if den == 0 then Err(ZeroDivision)
      else Ok(Ratio(c.tuples.count[(w1, w2)] * |c.tokens|, den))
  }

  /** What a built corpus guarantees about one of its bigram keys. */
  predicate Observed(c: Corpus, p: Bigram)
  {
    && p in c.tuples.count && c.tuples.count[p] >= 1 && |c.tokens| >= 1
    && p.0 in c.frequency.count && c.frequency.count[p.0] >= 1
    && p.1 in c.frequency.count && c.frequency.count[p.1] >= 1
  }

  lemma ValidObserved(c: Corpus, p: Bigram)
    requires Valid(c) && p in c.tuples.count
    ensures Observed(c, p)
  {
    BigramWordsCounted(c, p.0, p.1);
  }

  lemma PositiveProduct(a: nat, b: nat)
    requires a >= 1 && b >= 1
    ensures a * b >= 1
  {
    assert a * b >= b;
  }

  lemma ObservedPmi(c: Corpus, p: Bigram)
    requires Observed(c, p)
    ensures Pmi(c, p.0, p.1).Ok?
  {
    PositiveProduct(c.frequency.count[p.0], c.frequency.count[p.1]);
  }

  /**
   * The guard `(frequency[w1] or frequency[w2]) < 10` of `totalpmi`:
   * whether pair `p` is skipped. Python's `a or b` on counts is `a` unless
   * `a` is zero, so `frequency[w2]` is only looked up, and only compared,
   * when `frequency[w1]` is zero.
   */
  function SkipTest(c: Corpus, p: Bigram): Result<bool, PmiError>
  {
    if p.0 !in c.frequency.count then Err(MissingWord(p.0))
    else if c.frequency.count[p.0] != 0 then Ok(c.frequency.count[p.0] < MinFrequency)
    else if p.1 !in c.frequency.count then Err(MissingWord(p.1))
    else Ok(c.frequency.count[p.1] < MinFrequency)
  }

  /** What the loop of `totalpmi` has built after visiting `keys`. */
  function Ranked(c: Corpus, keys: seq<Bigram>): Result<seq<Scored>, PmiError>
  {
    if |keys| == 0 then Ok([])
    else
      match Ranked(c, keys[..|keys| - 1])
      case Err(e) => Err(e)
      case Ok(done) =>
        var p := keys[|keys| - 1];
        match SkipTest(c, p)
        case Err(e) => Err(e)
        case Ok(skip) =>
          if skip then Ok(done)
          else
            match Pmi(c, p.0, p.1)
            case Err(e) => Err(e)
            case Ok(v) => Ok(done + [(p, v)])
  }

  /** Once `totalpmi` has raised, visiting further keys does not change the outcome. */
  lemma {:induction false} RankedErrorSticks(c: Corpus, keys: seq<Bigram>, n: nat)
    requires n <= |keys| && Ranked(c, keys[..n]).Err?
    ensures Ranked(c, keys) == Ranked(c, keys[..n])
    decreases |keys| - n
  {
    if n < |keys| {
      assert keys[..n + 1][..n] == keys[..n];
      RankedErrorSticks(c, keys, n + 1);
    } else {
      assert keys[..n] == keys;
    }
  }

  /** `Corpus.totalpmi`: the PMI of every bigram that passes the frequency guard. */
  method TotalPmi(c: Corpus) returns (r: Result<seq<Scored>, PmiError>)
    ensures r == Ranked(c, c.tuples.keys)
  {
    var keys := c.tuples.keys;
    var pmiValues: seq<Scored> := [];
    for i := 0 to |keys|
      invariant Ranked(c, keys[..i]) == Ok(pmiValues)
    {
      assert keys[..i + 1][..i] == keys[..i];
      var (w1, w2) := keys[i];
      var skip := SkipTest(c, (w1, w2));
      if skip.Err? {
        RankedErrorSticks(c, keys, i + 1);
        return Err(skip.error);
      }
      if skip.value {
        continue;
      }
      var independenceValue := Pmi(c, w1, w2);
      if independenceValue.Err? {
        RankedErrorSticks(c, keys, i + 1);
        return Err(independenceValue.error);
      }
      pmiValues := pmiValues + [((w1, w2), independenceValue.value)];
    }
    assert keys[..|keys|] == keys;
    r := Ok(pmiValues);
  }

  /** The bigrams of a result list, in order. */
  function PairsOf(r: seq<Scored>): (ps: seq<Bigram>)
    ensures |ps| == |r|
  {
    seq(|r|, i requires 0 <= i < |r| => r[i].0)
  }

  /** `p`'s first word is counted at least `MinFrequency` times. */
  predicate FirstWordFrequent(c: Corpus, p: Bigram)
  {
    p.0 in c.frequency.count && c.frequency.count[p.0] >= MinFrequency
  }

  /** Both words of `p` are counted at least `MinFrequency` times. */
  predicate BothWordsFrequent(c: Corpus, p: Bigram)
  {
    FirstWordFrequent(c, p) && p.1 in c.frequency.count && c.frequency.count[p.1] >= MinFrequency
  }

  /** The keys whose first word is frequent, in their order. */
  function Frequent(c: Corpus, keys: seq<Bigram>): seq<Bigram>
  {
    if |keys| == 0 then []
    else
      var p := keys[|keys| - 1];
      Frequent(c, keys[..|keys| - 1]) + if FirstWordFrequent(c, p) then [p] else []
  }

  lemma {:induction false} FrequentIsSubsequence(c: Corpus, keys: seq<Bigram>)
    ensures |Frequent(c, keys)| <= |keys|
    ensures forall p :: p in Frequent(c, keys) <==> p in keys && FirstWordFrequent(c, p)
  {
    if |keys| > 0 {
      FrequentIsSubsequence(c, keys[..|keys| - 1]);
      assert keys == keys[..|keys| - 1] + [keys[|keys| - 1]];
    }
  }

  /**
   * For an observed pair, `pmi` succeeds, and its ratio is the pair's
   * count times the corpus size over the product of the two word counts,
   * all positive; for any other pair it is a `KeyError` on the pair.
   */
  lemma PmiDefinedIffObserved(c: Corpus, w1: Token, w2: Token)
    requires Valid(c)
    ensures Pmi(c, w1, w2).Ok? <==> (w1, w2) in c.tuples.count
    ensures (w1, w2) !in c.tuples.count ==> Pmi(c, w1, w2) == Err(MissingPair((w1, w2)))
    ensures (w1, w2) in c.tuples.count ==>
      && Pmi(c, w1, w2).Ok?
      && Pmi(c, w1, w2).value.num == |Positions(Pairs(c.tokens), (w1, w2))| * |c.tokens|
      && Pmi(c, w1, w2).value.den == multiset(c.tokens)[w1] * multiset(c.tokens)[w2]
      && Pmi(c, w1, w2).value.num > 0 && Pmi(c, w1, w2).value.den > 0
  {
    if (w1, w2) in c.tuples.count {
      BigramWordsCounted(c, w1, w2);
      var f1, f2 := c.frequency.count[w1], c.frequency.count[w2];
      var n := c.tuples.count[(w1, w2)];
      assert |c.tokens| >= 1 by {
        assert w1 in multiset(c.tokens);
      }
      PositiveProduct(f1, f2);
      PositiveProduct(n, |c.tokens|);
      assert Pmi(c, w1, w2) == Ok(Ratio(n * |c.tokens|, f1 * f2));
    }
  }

  /**
   * The guard of `totalpmi` on an observed pair reduces to
   * `frequency[w1] < 10`: `frequency[w2]` plays no part.
   */
  lemma SkipTestIgnoresSecondWord(c: Corpus, p: Bigram)
    requires Valid(c) && p in c.tuples.count
    ensures SkipTest(c, p) == Ok(c.frequency.count[p.0] < MinFrequency)
  {
    BigramWordsCounted(c, p.0, p.1);
  }

  /**
   * `totalpmi` on a prefix of the keys succeeds; its pairs are the keys
   * whose first word is frequent, in key order, each with its `pmi` ratio.
   */
  lemma {:induction false} RankedIsFrequentFilter(c: Corpus, keys: seq<Bigram>)
    requires forall p :: p in keys ==> Observed(c, p)
    ensures Ranked(c, keys).Ok?
    ensures PairsOf(Ranked(c, keys).value) == Frequent(c, keys)
    ensures forall i :: 0 <= i < |Ranked(c, keys).value| ==>
      Pmi(c, Ranked(c, keys).value[i].0.0, Ranked(c, keys).value[i].0.1) == Ok(Ranked(c, keys).value[i].1)
  {
    if |keys| > 0 {
      var init := keys[..|keys| - 1];
      var p := keys[|keys| - 1];
      assert forall q :: q in init ==> q in keys;
      RankedIsFrequentFilter(c, init);
      ObservedPmi(c, p);
      var done := Ranked(c, init).value;
      if FirstWordFrequent(c, p) {
        assert PairsOf(done + [(p, Pmi(c, p.0, p.1).value)]) == PairsOf(done) + [p];
      }
    }
  }

  /**
   * `totalpmi` never raises on a built corpus. It returns at most one entry
   * per bigram key, in `tuples.keys()` order, and skips an observed pair
   * exactly when the first word's count is below `MinFrequency`.
   */
  lemma TotalPmiKeepsFrequentFirstWords(c: Corpus)
    requires Valid(c)
    ensures Ranked(c, c.tuples.keys).Ok?
    ensures PairsOf(Ranked(c, c.tuples.keys).value) == Frequent(c, c.tuples.keys)
    ensures |Ranked(c, c.tuples.keys).value| <= |c.tuples.keys|
    ensures forall p :: p in c.tuples.count ==>
      (p in PairsOf(Ranked(c, c.tuples.keys).value) <==> c.frequency.count[p.0] >= MinFrequency)
  {
    var keys := c.tuples.keys;
    assert forall p :: p in keys <==> p in c.tuples.count;
    forall p | p in keys ensures Observed(c, p) {
      ValidObserved(c, p);
    }
    RankedIsFrequentFilter(c, keys);
    FrequentIsSubsequence(c, keys);
    forall p | p in c.tuples.count
      ensures p in PairsOf(Ranked(c, keys).value) <==> c.frequency.count[p.0] >= MinFrequency
    {
      BigramWordsCounted(c, p.0, p.1);
    }
  }

  /** Ten `a`s followed by one `b`. */
  function RareSecondWordTokens(): seq<Token>
  {
    ["a", "a", "a", "a", "a", "a", "a", "a", "a", "a", "b"]
  }

  /**
   * As written, `totalpmi` keeps the pair `(a, b)` of this corpus although
   * `b` occurs only once.
   */
  lemma RareSecondWordKept()
    ensures var c := Corpus(RareSecondWordTokens(), Table(RareSecondWordTokens()),
                            Table(Pairs(RareSecondWordTokens())));
      && Valid(c)
      && c.frequency.count["b"] == 1 < MinFrequency
      && Ranked(c, c.tuples.keys).Ok?
      && ("a", "b") in PairsOf(Ranked(c, c.tuples.keys).value)
  {
    var t := RareSecondWordTokens();
    var c := Corpus(t, Table(t), Table(Pairs(t)));
    assert AdjacentAt(t, 9, "a", "b");
    PairIsAdjacent(t, "a", "b");
    assert multiset(t)["a"] == 10;
    assert multiset(t)["b"] == 1;
    TotalPmiKeepsFrequentFirstWords(c);
  }

  /** The guard the threshold evidently intends: either word below `MinFrequency`. */
  function SkipTestIntended(c: Corpus, p: Bigram): Result<bool, PmiError>
  {
    if p.0 !in c.frequency.count then Err(MissingWord(p.0))
    else if p.1 !in c.frequency.count then Err(MissingWord(p.1))
    else Ok(c.frequency.count[p.0] < MinFrequency || c.frequency.count[p.1] < MinFrequency)
  }

  /** `totalpmi` over `keys` with the intended guard. */
  function RankedIntended(c: Corpus, keys: seq<Bigram>): Result<seq<Scored>, PmiError>
  {
    if |keys| == 0 then Ok([])
    else
      match RankedIntended(c, keys[..|keys| - 1])
      case Err(e) => Err(e)
      case Ok(done) =>
        var p := keys[|keys| - 1];
        match SkipTestIntended(c, p)
        case Err(e) => Err(e)
        case Ok(skip) =>
          if skip then Ok(done)
          else
            match Pmi(c, p.0, p.1)
            case Err(e) => Err(e)
            case Ok(v) => Ok(done + [(p, v)])
  }

  /**
   * With the intended guard, the result holds exactly the listed pairs
   * whose two words both reach `MinFrequency`.
   */
  lemma {:induction false} RankedIntendedKeepsFrequentPairs(c: Corpus, keys: seq<Bigram>)
    requires forall p :: p in keys ==> Observed(c, p)
    ensures RankedIntended(c, keys).Ok?
    ensures forall p :: p in PairsOf(RankedIntended(c, keys).value) <==>
      p in keys && BothWordsFrequent(c, p)
  {
    if |keys| > 0 {
      var init := keys[..|keys| - 1];
      var p := keys[|keys| - 1];
      assert keys == init + [p];
      assert forall q :: q in init ==> q in keys;
      RankedIntendedKeepsFrequentPairs(c, init);
      ObservedPmi(c, p);
      var done := RankedIntended(c, init).value;
      if BothWordsFrequent(c, p) {
        assert PairsOf(done + [(p, Pmi(c, p.0, p.1).value)]) == PairsOf(done) + [p];
      }
    }
  }

  /**
   * On a built corpus the intended `totalpmi` keeps exactly the bigram keys
   * whose two words are both counted at least `MinFrequency` times.
   */
  lemma TotalPmiIntendedKeepsFrequentPairs(c: Corpus)
    requires Valid(c)
    ensures RankedIntended(c, c.tuples.keys).Ok?
    ensures forall p :: p in PairsOf(RankedIntended(c, c.tuples.keys).value) <==>
      && p in c.tuples.count
      && c.frequency.count[p.0] >= MinFrequency && c.frequency.count[p.1] >= MinFrequency
  {
    var keys := c.tuples.keys;
    assert forall p :: p in keys <==> p in c.tuples.count;
    forall p | p in keys ensures Observed(c, p) {
      ValidObserved(c, p);
    }
    RankedIntendedKeepsFrequentPairs(c, keys);
  }
}
