/**
 * The n-gram model the sentence generators drive (`BasicNgram`, whose
 * code is not part of this model), taken as a parameter, and the
 * sliding context window shared by both generators.
 */
module Ngrams {
  import opened Results
  import opened Text
  import Counting

  type Context = seq<Token>

  /** The continuations observed after a context, one entry per observation. */
  type Candidates = s: seq<Token> | |s| > 0 witness [""]

  /**
   * An order-`n` model: for each known context the list of observed next
   * words, and the list `contexts()` a random start is drawn from.
   */
  datatype Ngram = Ngram(n: nat, table: map<Context, Candidates>, contexts: seq<Context>)

  /** The failures of sentence generation. */
  datatype GenError =
    | UnknownContext(context: Context)  // `ngram[context]` on an unseen context
    | NoContexts                        // `random.choice` on an empty `contexts()`
    | OutOfFuel                         // the iteration cap of the unbounded loop

  /** `' '.join(sent)` applied to a successful generation; a failure passes through. */
  function Joined(r: Result<seq<Token>, GenError>): Result<string, GenError>
  {
    match r
    case Err(e) => Err(e)
    case Ok(sent) => Ok(Join(sent))
  }

  /** The contexts of `BasicNgram` hold `n - 1` tokens and the start list is drawn from them. */
  predicate WellFormed(model: Ngram)
  {
    && model.n >= 1
    && (forall c :: c in model.table ==> |c| == model.n - 1)
    && (forall i :: 0 <= i < |model.contexts| ==> model.contexts[i] in model.table)
  }

  /**
   * `ngram[context].generate()`, with the random number `r` choosing among
   * the observed continuations: a uniformly drawn `r` picks each word with
   * probability proportional to its number of observations.
   */
  function Generate(model: Ngram, context: Context, r: nat): Result<Token, GenError>
  {
    if context in model.table then Ok(model.table[context][r % |model.table[context]|])
    else Err(UnknownContext(context))
  }

  /** `tuple([x for x in context[1:]] + [nextword])`. */
  function Slide(context: Context, word: Token): Context
  {
    (if |context| == 0 then [] else context[1..]) + [word]
  }

  /**
   * The initial `sent` (and context) of `sentgen`: the seed split at
   * spaces when it is non-empty, else the context the random number
   * `pick` selects from `contexts()`.
   */
  function Start(model: Ngram, seed: string, pick: nat): Result<seq<Token>, GenError>
  {
    if |seed| > 0 then Ok(Split(seed))
    else if |model.contexts| == 0 then Err(NoContexts)
    else Ok(model.contexts[pick % |model.contexts|])
  }

  /** The context after sliding from `init` over each word of `done` in turn. */
  function Window(init: Context, done: seq<Token>): Context
  {
    if |done| == 0 then init
    else Slide(Window(init, done[..|done| - 1]), done[|done| - 1])
  }

  /**
   * `words` is what the generator samples from `init` on: each word is
   * what `generate()` returns, with the random number of its position, for
   * the context reached after the words before it.
   */
  predicate IsRun(model: Ngram, init: Context, words: seq<Token>, draw: nat -> nat)
    decreases |words|
  {
    || |words| == 0
    || (var before := words[..|words| - 1];
        && IsRun(model, init, before, draw)
        && Generate(model, Window(init, before), draw(|before|)) == Ok(words[|words| - 1]))
  }

  lemma WindowSnoc(init: Context, done: seq<Token>, word: Token)
    ensures Window(init, done + [word]) == Slide(Window(init, done), word)
  {
    assert (done + [word])[..|done|] == done;
  }

  /**
   * A non-empty context keeps its length and is the last `|init|` tokens
   * of everything produced so far; an empty one becomes the last word.
   */
  lemma {:induction false} WindowIsSuffix(init: Context, done: seq<Token>)
    ensures |init| >= 1 ==> Window(init, done) == (init + done)[|done|..]
    ensures |init| >= 1 ==> |Window(init, done)| == |init|
    ensures |init| == 0 && |done| >= 1 ==> Window(init, done) == [done[|done| - 1]]
  {
    if |done| > 0 {
      var prev := done[..|done| - 1];
      WindowIsSuffix(init, prev);
      if |init| >= 1 {
        assert init + done == (init + prev) + [done[|done| - 1]];
      } else if |prev| >= 1 {
        assert Window(init, prev) == [prev[|prev| - 1]];
      }
    }
  }

  /** A generated word is one of the observed continuations of a known context. */
  lemma GenerateCandidate(model: Ngram, context: Context, r: nat)
    ensures Generate(model, context, r).Ok? <==> context in model.table
    ensures Generate(model, context, r).Ok? ==> Generate(model, context, r).value in model.table[context]
    ensures Generate(model, context, r).Err? ==> Generate(model, context, r) == Err(UnknownContext(context))
  {
  }

  lemma GenerateBelow(model: Ngram, context: Context, r: nat)
    requires context in model.table && r < |model.table[context]|
    ensures Generate(model, context, r) == Ok(model.table[context][r])
  {
    assert r % |model.table[context]| == r;
  }

  /**
   * Over one full period of random numbers, `generate()` returns each word
   * exactly as often as it was observed after the context.
   */
  lemma GenerateIsProportional(model: Ngram, context: Context, t: Token)
    requires context in model.table
    ensures |set r: nat | r < |model.table[context]| && Generate(model, context, r) == Ok(t)|
         == multiset(model.table[context])[t]
  {
    var cands := model.table[context];
    var drawn := set r: nat | r < |cands| && Generate(model, context, r) == Ok(t);
    var at := Counting.Positions(cands, t);
    forall r: nat ensures r in drawn <==> r in at {
      if r < |cands| {
        GenerateBelow(model, context, r);
      }
    }
    assert drawn == at;
    Counting.CountIsIndexCount(cands, t);
  }

  /** A run extends by one word exactly when `generate()` returns that word. */
  lemma IsRunSnoc(model: Ngram, init: Context, words: seq<Token>, x: Token, draw: nat -> nat)
    ensures IsRun(model, init, words + [x], draw) <==>
      IsRun(model, init, words, draw) && Generate(model, Window(init, words), draw(|words|)) == Ok(x)
  {
    assert (words + [x])[..|words|] == words;
  }

  /** In a run, the `i`-th word is what `generate()` returns for the context reached before it. */
  lemma {:induction false} IsRunAt(model: Ngram, init: Context, words: seq<Token>, draw: nat -> nat, i: nat)
    requires IsRun(model, init, words, draw) && i < |words|
    ensures Generate(model, Window(init, words[..i]), draw(i)) == Ok(words[i])
    decreases |words|
  {
    var before := words[..|words| - 1];
    if i < |before| {
      IsRunAt(model, init, before, draw, i);
      assert before[..i] == words[..i];
    }
  }

  /** A word list each of whose words `generate()` returned in turn is a run. */
  lemma {:induction false} IsRunFromSamples(model: Ngram, init: Context, words: seq<Token>, draw: nat -> nat)
    requires forall i :: 0 <= i < |words| ==> Generate(model, Window(init, words[..i]), draw(i)) == Ok(words[i])
    ensures IsRun(model, init, words, draw)
    decreases |words|
  {
    if |words| > 0 {
      var before := words[..|words| - 1];
      forall i | 0 <= i < |before| ensures Generate(model, Window(init, before[..i]), draw(i)) == Ok(before[i]) {
        assert before[..i] == words[..i];
      }
      IsRunFromSamples(model, init, before, draw);
    }
  }

  /** A run is exactly a word list each of whose words `generate()` returned in turn. */
  lemma IsRunIffEveryWordSampled(model: Ngram, init: Context, words: seq<Token>, draw: nat -> nat)
    ensures IsRun(model, init, words, draw) <==>
      forall i :: 0 <= i < |words| ==> Generate(model, Window(init, words[..i]), draw(i)) == Ok(words[i])
  {
    if IsRun(model, init, words, draw) {
      forall i | 0 <= i < |words| ensures Generate(model, Window(init, words[..i]), draw(i)) == Ok(words[i]) {
        IsRunAt(model, init, words, draw, i);
      }
    } else if forall i :: 0 <= i < |words| ==> Generate(model, Window(init, words[..i]), draw(i)) == Ok(words[i]) {
      IsRunFromSamples(model, init, words, draw);
    }
  }
}
