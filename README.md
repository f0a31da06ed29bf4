# chomskybot `Corpus` in Dafny

This project models the `Corpus` class of chomskybot, a small bot that
generates Chomsky-style sentences from an n-gram model of a text corpus.
The class exists in two variants, `corpus.py` and `corpus_test.py`. Both
build the same two count tables from a token list and score word pairs
by pointwise mutual information (PMI). They differ in how `sentgen` ends
a sentence: `corpus.py` samples a fixed number of words, and
`corpus_test.py` samples until a period. `corpus_test.py` also strips
digits from tokens and deletes the space in front of commas and periods
when it formats a sentence.

Modules, one per concern:

- `Results`: the `Result` type that stands for Python's exceptions.
- `Text`: `str.split(' ')` and `' '.join(...)`, with their round trips.
- `Counting`: a Python dict with insertion order is a `CountDict`. It
  holds the key sequence in first-insertion order and a map from key to
  count. `Freq` and `FreqTuples` are the two counting loops. They are
  proved against `Table`, the dict that counting a sequence produces,
  and the counting facts are proved about `Table`.
- `CorpusModel`: a built corpus is a value `Corpus(tokens, frequency,
  tuples)`. `Valid` says that both tables were counted from `tokens`.
- `Association`: `pmi` as the integer ratio passed to the logarithm,
  and the `totalpmi` loop.
- `Ngrams`: the n-gram model is a parameter. It is a map from each known
  context to its observed next words, with repeats, plus the order `n`
  and the list of start contexts. `generate()` takes the k-th random
  number through a `draw` oracle. `random.choice` takes a `pick` number.
- `FixedLength`: the `sentgen` of `corpus.py`.
- `UntilPeriod`: the `sentgen` of `corpus_test.py`.
  Both keep the source's defaults (`seed=''`, and `w=0` in `corpus_test.py`)
  as Dafny default parameters; the random-number formals after them are
  passed by name.
- `Formatting`: the digit strip of `corpus_test.py` and the last
  substitution of `quotify`.

A Python exception is an `Err` value:

- A `KeyError` on a missing bigram or word is `MissingPair` or
  `MissingWord`.
- A `ZeroDivisionError` is `ZeroDivision`.
- A lookup of an unseen context in the n-gram model is `UnknownContext`.
  `chomskybot1.py` catches that one as an `IndexError`.
- `random.choice` on an empty context list is `NoContexts`.

Where the code and its documentation disagree, the model follows
the code:

- `sentgen` uses the whole seed as its context, not only the last
  `n - 1` seed words. A seed with a different number of words therefore
  fails on the first lookup (`FixedLength.WholeSeedIsContext`).
- The guard of `totalpmi` only ever tests the first word's frequency
  (see Findings).

## Model

| member | source | states |
|---|---|---|
| `Counting.Freq` | corpus.py:52-62 | The result is the count table of `tokens`. Its keys are distinct and are exactly the tokens. Each value equals that token's number of occurrences, which is at least 1. The values sum to `len(tokens)`. |
| `Counting.FreqTuples` | corpus.py:64-75 | The result is the count table of adjacent pairs. `(a, b)` is a key iff some `i` has `tokens[i] == a` and `tokens[i+1] == b`. Its value is the number of such `i`. The values sum to `len(tokens) - 1`, or to 0 when there are at most one token. |
| `Counting.TableSnoc` | corpus_test.py:58-63 | Counting one more item appends a new key with count 1. A known key has its count raised by one and keeps its place in the key order. |
| `Counting.TableTotal` | corpus_test.py:54-64 | The counts of any count table sum to the number of items counted. |
| `Counting.Dedup` | corpus_test.py:59-63 | The dict's key order contains each counted item exactly once, and nothing else. |
| `Counting.CountIsIndexCount` | corpus_test.py:72-76 | The count of an item equals the number of positions holding it. |
| `Counting.PairIsAdjacent` | corpus_test.py:72-76 | A pair is among the adjacent pairs iff it occurs at some index `i` and `i + 1`. |
| `Counting.PairTableFacts` | corpus_test.py:66-77 | The bigram table keys the same pairs as its map. A pair is counted iff adjacent somewhere, with its number of positions as value. The sum is `len(tokens) - 1`, or 0 when there are at most one token. |
| `CorpusModel.NewCorpus` | corpus.py:24-31 | The constructor keeps the token list. Both tables are counted from it, and their totals are `len(tokens)` and `max(0, len(tokens) - 1)`. |
| `CorpusModel.BigramWordsCounted` | corpus.py:125-126 | Both words of a bigram key are unigram keys, counted at least once. The bigram's count is its number of positions, at least 1. |
| `Association.PmiDefinedIffObserved` | corpus.py:125-126 | `pmi` succeeds iff the pair is a bigram key, and otherwise raises `KeyError` on the pair. When it succeeds, the ratio is the pair count times the corpus size over the product of the word counts, with both parts positive. |
| `Association.ValidObserved` | corpus_test.py:130-131 | Every bigram key of a built corpus has positive counts for the pair and for both of its words. |
| `Association.ObservedPmi` | corpus_test.py:130-131 | `pmi` on such a pair succeeds and never divides by zero. |
| `Association.TotalPmi` | corpus.py:136-142 | The loop returns what the key-by-key filter `Ranked` builds over `tuples.keys()`. An exception raised for one key ends the loop with that exception. |
| `Association.RankedErrorSticks` | corpus_test.py:142-146 | Once the loop has raised on a prefix of the keys, the whole result is that error. |
| `Association.SkipTestIgnoresSecondWord` | corpus.py:138-139 | On a bigram key the guard evaluates to `frequency[w1] < 10`. `frequency[w2]` plays no part. |
| `Association.FrequentIsSubsequence` | corpus_test.py:142-146 | The kept keys number at most the keys. A pair is kept iff it is a key with a frequent first word. |
| `Association.RankedIsFrequentFilter` | corpus_test.py:141-147 | On observed keys the loop succeeds. It keeps exactly the keys with a frequent first word, in key order, each paired with its `pmi` ratio. |
| `Association.TotalPmiKeepsFrequentFirstWords` | corpus.py:137-142 | On a built corpus `totalpmi` succeeds and follows key order. Its length is at most the number of keys. A bigram is kept iff `frequency[w1] >= 10`. |
| `Association.RareSecondWordKept` | corpus_test.py:143-144 | In a corpus of ten `a`s and one `b`, the pair `(a, b)` is kept although `b` occurs once. |
| `Association.RankedIntendedKeepsFrequentPairs` | corpus.py:138-141 | With the intended guard, the result holds exactly the keys whose two words both reach the minimum frequency. |
| `Association.TotalPmiIntendedKeepsFrequentPairs` | corpus_test.py:142-147 | On a built corpus the intended `totalpmi` keeps exactly the bigrams with `frequency[w1] >= 10` and `frequency[w2] >= 10`. |
| `Text.Split` | corpus.py:102 | `seed.split(' ')` always yields at least one piece. |
| `Text.SplitPiecesHaveNoSpace` | corpus_test.py:93 | No piece of a split contains a space. |
| `Text.JoinSplit` | corpus.py:102-113 | Joining the pieces of a split restores the string. |
| `Text.SplitJoin` | corpus_test.py:93-110 | Splitting a join of at least one space-free token restores the tokens. |
| `Text.JoinAppend` | corpus.py:113 | Joining two non-empty token lists puts exactly one space between their joins. |
| `Ngrams.GenerateCandidate` | corpus.py:109 | `generate()` succeeds iff the context is known. It then returns one of that context's observed next words, and otherwise raises on that context. |
| `Ngrams.GenerateIsProportional` | corpus_test.py:103 | Over one period of random numbers, `generate()` returns each word exactly as often as it was observed after the context. |
| `Ngrams.IsRunIffEveryWordSampled` | corpus.py:108-112 | A run, defined one word at a time, is exactly a word list whose every word is what `generate()` returned, with the random number of its position, for the context reached after the words before it. |
| `Ngrams.IsRunAt` | corpus_test.py:103-108 | The `i`-th word of a run is `generate()` applied to the context reached after the first `i` words. |
| `Ngrams.WindowIsSuffix` | corpus.py:110-112 | After any number of slides, a non-empty context keeps its length and equals the last that-many tokens of `sent`. An empty start context becomes the last word. |
| `FixedLength.Loop` | corpus.py:108-113 | Running `steps` iterations adds exactly `steps` words to `sent` and keeps what was there. It fails only on an unseen context. |
| `FixedLength.Generated` | corpus.py:101-113 | A result has `len(start) + max(0, w - n + 1)` tokens and begins with the start context. |
| `FixedLength.SentGen` | corpus.py:91-113 | The method returns the joined result of `Generated` for the same seed and random numbers. |
| `FixedLength.LoopOk` | corpus.py:108-112 | Every word added by a successful run is `generate()` applied to the context reached just before it. |
| `FixedLength.LoopErr` | chomskybot1.py:67-71 | A failing run has a stuck prefix after which the context is unseen. The error names that context and reaches the caller. |
| `FixedLength.GeneratedShape` | corpus.py:101-113 | A result is a sampled run. A failure is either an empty context list without a seed, or a stuck run shorter than the iteration count. |
| `FixedLength.SeededOutputStartsWithSeed` | corpus.py:101-103 | With a seed, the output starts with `seed.split(' ')` verbatim. The joined sentence has the seed as a prefix. |
| `FixedLength.UnseededLength` | corpus.py:104-108 | Without a seed, in a well-formed model, the output has `w` tokens when `w >= n - 1` and `n - 1` tokens otherwise. |
| `FixedLength.WholeSeedIsContext` | corpus.py:102-103 | A seed whose word count differs from `n - 1` is looked up whole and fails on the first iteration. |
| `FixedLength.ContextIsSuffixOfSent` | corpus.py:110-112 | The `i`-th generated word is drawn for the context formed by the `len(start)` tokens just before it. |
| `UntilPeriod.Loop` | corpus_test.py:104-109 | A finishing loop extends `sent`, ends in `'.'` and has more than `w + 1` tokens. It fails only on lack of fuel or an unseen context. |
| `UntilPeriod.Generated` | corpus_test.py:92-98 | A result begins with the seed tokens or the chosen context, and is longer than it. |
| `UntilPeriod.SentGen` | corpus_test.py:81-110 | The `while` loop returns the joined result of `Generated` for the same inputs and fuel. |
| `UntilPeriod.LoopRuns` | corpus_test.py:103-108 | Every word after the start is `generate()` applied to the context reached just before it. |
| `UntilPeriod.LoopKeepsGoing` | corpus_test.py:104 | Every word appended inside the loop either is not `'.'` or came while `len(sent) <= w`. |
| `UntilPeriod.GeneratedShape` | corpus_test.py:103-110 | The output's last token is `'.'`. Its length is above `w + 1` and at least `len(start) + 1`. It is a sampled run, and every earlier word satisfied the loop condition. |
| `UntilPeriod.FirstPeriodEndsLongSentence` | corpus_test.py:104 | When the start alone is longer than `w`, no `'.'` occurs among the generated words before the last. |
| `UntilPeriod.LoopingModelNeverStops` | corpus_test.py:104-108 | In a model whose only continuation is `a`, the loop runs out of any fuel. |
| `UntilPeriod.NeverEndingSentence` | corpus_test.py:96-108 | `sentgen` need not terminate: for that model every fuel bound is exhausted. |
| `UntilPeriod.EarlyPeriodsDoNotStop` | corpus_test.py:104-108 | Periods sampled while `len(sent) <= w` are kept inside the output. With `w = 3` the output is `a . . . .`. |
| `Formatting.StripDigits` | corpus_test.py:51 | A stripped token has no digit and is no longer than the original. |
| `Formatting.StripAll` | corpus_test.py:51 | The digit strip keeps the number of tokens, and no output token has a digit. |
| `Formatting.StripDigitsKeepsTheRest` | corpus_test.py:51 | The output is a subsequence of the token. It keeps each non-digit character as often as it occurs and removes every digit. |
| `Formatting.StripDigitsFixesDigitFree` | corpus_test.py:51 | A token is unchanged iff it has no digit. |
| `Formatting.StripDigitsIdempotent` | corpus_test.py:51 | Stripping twice is stripping once. |
| `Formatting.AttachDeletesOnlySpaces` | corpus_test.py:117 | The substitution deletes only spaces. All other characters are kept in order, and the result is a subsequence of the input. |
| `Formatting.AttachDeletesEachSpaceBefore` | corpus_test.py:117 | The number of deleted characters equals the number of spaces directly followed by `,` or `.`. |
| `Formatting.AttachFixesAttached` | corpus_test.py:117 | The text is unchanged iff it has no space directly before `,` or `.`. |
| `Formatting.AttachedWithoutDoubleSpaces` | corpus_test.py:117 | On text without two adjacent spaces, the result has no `" ,"` or `" ."`. |
| `Formatting.DigitTokenLeavesSpaceBeforePeriod` | corpus_test.py:116-117 | The tokens `in 1990 .` strip and join to `in  .`, which the substitution turns into `in .`. |
| `Formatting.IntendedAttachesPunctuation` | corpus_test.py:117 | The intended substitution leaves no `" ,"` or `" ."` on any input, and keeps every non-space character in order. |
| `Formatting.IntendedAgreesWithoutDoubleSpaces` | corpus_test.py:117 | On text without double spaces, the intended and the written substitution agree. |

## Left out

- File reading (`_read`) and the `main` functions are I/O.
- `getplots` is plotting through matplotlib.
- `chomskybot1.py` is left out: the chat client, its event loop and
  language detection are network glue. Only the `IndexError` it catches is
  modelled, as `UnknownContext`.
- The rest of `_tokenize` is not modelled. That is `str.lower`, the
  newline substitution, the Unicode `\w` keep-set filter and
  `nltk.word_tokenize`. These depend on Unicode tables and a foreign
  tokenizer. The model starts from the token list.
- The first steps of `quotify` are not modelled. That is the punkt
  sentence tokenizer, `str.capitalize` and the join of its sentences. The
  model starts from the joined string.
- `numpy.log` and the floating-point PMI value are not modelled. `pmi`
  yields the unreduced integer ratio it would take the logarithm of.
- `BasicNgram` internals and Python's random number generator are not part
  of this model. The model is a parameter, and each random choice is a
  supplied number (`draw` for `generate()`, `pick` for `random.choice`).
  The model therefore says nothing about probability beyond the
  proportional-choice lemma.
- `UntilPeriod.SentGen`: the source loop is unbounded. The model runs it
  on a `fuel` bound and returns `OutOfFuel` when the bound is used up.
  Behaviour past any finite bound is not modelled.
- The model treats `dict` keys and values as an insertion-ordered key
  sequence plus a map. Python's hashing and resizing are not modelled.

## Findings

| source | as written | input that shows it | evidently intended | confidence | as-written member | corrected member |
|---|---|---|---|---|---|---|
| corpus.py:138 | `(frequency[w1] or frequency[w2]) < 10` evaluates to `frequency[w1] < 10` for every bigram key, because `frequency[w1]` is at least 1 and so truthy | tokens `a` ×10 then `b`: the pair `(a, b)` is kept although `b` occurs once | skip a pair when either word occurs fewer than 10 times | not executed | `Association.RareSecondWordKept` | `Association.TotalPmiIntendedKeepsFrequentPairs` |
| corpus_test.py:143 | the same guard as in `corpus.py` | the same corpus | the same | not executed | `Association.TotalPmiKeepsFrequentFirstWords` | `Association.RankedIntendedKeepsFrequentPairs` |
| corpus_test.py:117 | the substitution deletes only the one space directly before `,` or `.`. A token reduced to nothing by the digit strip at line 51 leaves a double space behind. | tokens `in 1990 .` become `in  .` and then `in .` | no space before a comma or a period | not executed | `Formatting.DigitTokenLeavesSpaceBeforePeriod` | `Formatting.IntendedAttachesPunctuation` |
