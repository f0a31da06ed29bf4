/**
 * The `Corpus` object once `__init__` has run: its tokens and the two
 * frequency tables built from them. Nothing changes them afterwards.
 */
module CorpusModel {
  import opened Text
  import opened Counting

  datatype Corpus = Corpus(tokens: seq<Token>, frequency: CountDict<Token>, tuples: CountDict<Bigram>)

  /** The tables are the ones `freq` and `freqtuples` build from the tokens. */
  predicate Valid(c: Corpus)
  {
    c.frequency == Table(c.tokens) && c.tuples == Table(Pairs(c.tokens))
  }

  /** `Corpus.__init__` from the tokenized text on. */
  method NewCorpus(tokens: seq<Token>) returns (c: Corpus)
    ensures c.tokens == tokens && Valid(c)
    ensures Total(c.frequency.keys, c.frequency.count) == |tokens|
    ensures Total(c.tuples.keys, c.tuples.count) == if |tokens| <= 1 then 0 else |tokens| - 1
  {
    var frequency := Freq(tokens);
    var tuples := FreqTuples(tokens);
    c := Corpus(tokens, frequency, tuples);
  }

  /** Both words of an observed bigram are counted, at least once each. */
  lemma BigramWordsCounted(c: Corpus, a: Token, b: Token)
    requires Valid(c) && (a, b) in c.tuples.count
    ensures a in c.frequency.count && c.frequency.count[a] == multiset(c.tokens)[a] >= 1
    ensures b in c.frequency.count && c.frequency.count[b] == multiset(c.tokens)[b] >= 1
    ensures c.tuples.count[(a, b)] == |Positions(Pairs(c.tokens), (a, b))| >= 1
  {
    PairIsAdjacent(c.tokens, a, b);
    var i :| AdjacentAt(c.tokens, i, a, b);
    assert a in c.tokens && b in c.tokens;
    CountIsIndexCount(Pairs(c.tokens), (a, b));
  }
}
