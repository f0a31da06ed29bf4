/**
 * `Corpus.sentgen` of corpus.py: start from the seed or a random context,
 * then sample `w - n + 1` words, sliding the context after each one.
 */
module FixedLength {
  import opened Results
  import opened Text
  import opened Ngrams

  /** The number of iterations of `for k in range(w - n + 1)`. */
  function Iterations(w: int, n: nat): nat
  {
    if w - n + 1 > 0 then w - n + 1 else 0
  }

  /** The loop of `sentgen` from a state (`context`, `sent`) with `steps` iterations left. */
  function Loop(model: Ngram, context: Context, sent: seq<Token>, steps: nat, k: nat, draw: nat -> nat)
    : (r: Result<seq<Token>, GenError>)
    ensures r.Ok? ==> |r.value| == |sent| + steps && r.value[..|sent|] == sent
    ensures r.Err? ==> r.error.UnknownContext? && r.error.context !in model.table
    decreases steps
  {
    if steps == 0 then Ok(sent)
    else
      match Generate(model, context, draw(k))
      case Err(e) => Err(e)
      case Ok(next) => Loop(model, Slide(context, next), sent + [next], steps - 1, k + 1, draw)
  }

  /** The token list `sentgen` builds before joining it. */
  function Generated(model: Ngram, w: int, seed: string, pick: nat, draw: nat -> nat)
    : (r: Result<seq<Token>, GenError>)
    ensures r.Ok? ==> Start(model, seed, pick).Ok?
    ensures r.Ok? ==> |r.value| == |Start(model, seed, pick).value| + Iterations(w, model.n)
    ensures r.Ok? ==> r.value[..|Start(model, seed, pick).value|] == Start(model, seed, pick).value
  {
    match Start(model, seed, pick)
    case Err(e) => Err(e)
    case Ok(init) => Loop(model, init, init, Iterations(w, model.n), 0, draw)
  }

  /**
   * `Corpus.sentgen(w, ngram, seed='')`; `pick` is the random number behind
   * `random.choice`, `draw(k)` the one behind the `k`-th `generate()`.
   * These follow the defaulted `seed` and are passed by name.
   */
  method SentGen(w: int, model: Ngram, seed: string := "", pick: nat, draw: nat -> nat)
    returns (r: Result<string, GenError>)
    ensures r == Joined(Generated(model, w, seed, pick, draw))
  {
    var sent: seq<Token>;
    var context: Context;
    if |seed| > 0 {
      sent := Split(seed);
      context := sent;
    } else {
      if |model.contexts| == 0 {
        return Err(NoContexts);
      }
      context := model.contexts[pick % |model.contexts|];
      sent := context;
    }
    var steps := Iterations(w, model.n);
    for k := 0 to steps
      invariant Loop(model, context, sent, steps - k, k, draw) == Generated(model, w, seed, pick, draw)
    {
      var nextword := Generate(model, context, draw(k));
      if nextword.Err? {
        return Err(nextword.error);
      }
      sent := sent + [nextword.value];
      context := Slide(context, nextword.value);
    }
    r := Ok(Join(sent));
  }

  /** The loop got stuck after sampling `done`: the context reached is unknown. */
  predicate StuckAfter(model: Ngram, init: Context, done: seq<Token>, draw: nat -> nat)
  {
    IsRun(model, init, done, draw) && Window(init, done) !in model.table
  }

  /** Continuing a run appends sampled words only. */
  lemma {:induction false} LoopOk(model: Ngram, init: Context, done: seq<Token>, steps: nat, draw: nat -> nat)
    requires IsRun(model, init, done, draw)
    requires Loop(model, Window(init, done), init + done, steps, |done|, draw).Ok?
    ensures IsRun(model, init, Loop(model, Window(init, done), init + done, steps, |done|, draw).value[|init|..], draw)
    decreases steps
  {
    if steps == 0 {
      assert (init + done)[|init|..] == done;
    } else {
      var x := Generate(model, Window(init, done), draw(|done|)).value;
      assert IsRun(model, init, done + [x], draw) by {
        IsRunSnoc(model, init, done, x, draw);
      }
      WindowSnoc(init, done, x);
      assert (init + done) + [x] == init + (done + [x]);
      LoopOk(model, init, done + [x], steps - 1, draw);
    }
  }

  /** A failing loop failed at the first unknown context its run reached. */
  lemma {:induction false} LoopErr(model: Ngram, init: Context, done: seq<Token>, steps: nat, draw: nat -> nat)
    requires IsRun(model, init, done, draw)
    requires Loop(model, Window(init, done), init + done, steps, |done|, draw).Err?
    ensures exists stuck ::
      && |done| <= |stuck| < |done| + steps
      && StuckAfter(model, init, stuck, draw)
      && Loop(model, Window(init, done), init + done, steps, |done|, draw).error == UnknownContext(Window(init, stuck))
    decreases steps
  {
    var g := Generate(model, Window(init, done), draw(|done|));
    if g.Err? {
      assert StuckAfter(model, init, done, draw);
    } else {
      var x := g.value;
      assert IsRun(model, init, done + [x], draw) by {
        IsRunSnoc(model, init, done, x, draw);
      }
      WindowSnoc(init, done, x);
      assert (init + done) + [x] == init + (done + [x]);
      assert Loop(model, Window(init, done), init + done, steps, |done|, draw)
          == Loop(model, Window(init, done + [x]), init + (done + [x]), steps - 1, |done + [x]|, draw);
      LoopErr(model, init, done + [x], steps - 1, draw);
    }
  }

  /**
   * A successful `sentgen` returns its initial context followed by
   * `max(0, w - n + 1)` words sampled along the sliding context; a failed
   * one had no context to start from or reached a context the model has
   * not seen, after a run of fewer than `max(0, w - n + 1)` samples.
   */
  lemma GeneratedShape(model: Ngram, w: int, seed: string, pick: nat, draw: nat -> nat)
    ensures var g := Generated(model, w, seed, pick, draw);
      g.Ok? ==> IsRun(model, Start(model, seed, pick).value, g.value[|Start(model, seed, pick).value|..], draw)
    ensures var g := Generated(model, w, seed, pick, draw);
      g.Err? ==>
        || (g.error == NoContexts && |seed| == 0 && |model.contexts| == 0)
        || (&& Start(model, seed, pick).Ok?
            && exists stuck :: |stuck| < Iterations(w, model.n)
                 && StuckAfter(model, Start(model, seed, pick).value, stuck, draw)
                 && g.error == UnknownContext(Window(Start(model, seed, pick).value, stuck)))
  {
    var s := Start(model, seed, pick);
    if s.Ok? {
      var init := s.value;
      assert init + [] == init;
      var g := Generated(model, w, seed, pick, draw);
      if g.Ok? {
        LoopOk(model, init, [], Iterations(w, model.n), draw);
      } else {
        LoopErr(model, init, [], Iterations(w, model.n), draw);
      }
    }
  }

  /**
   * With a seed, the output starts with the seed's tokens, and the joined
   * string starts with the seed itself.
   */
  lemma SeededOutputStartsWithSeed(model: Ngram, w: int, seed: string, pick: nat, draw: nat -> nat)
    requires |seed| > 0
    requires Generated(model, w, seed, pick, draw).Ok?
    ensures Generated(model, w, seed, pick, draw).value[..|Split(seed)|] == Split(seed)
    ensures seed <= Join(Generated(model, w, seed, pick, draw).value)
  {
    GeneratedShape(model, w, seed, pick, draw);
    var out := Generated(model, w, seed, pick, draw).value;
    var init := Split(seed);
    JoinSplit(seed);
    if |out| == |init| {
      assert out == init;
    } else {
      assert out == init + out[|init|..];
      JoinAppend(init, out[|init|..]);
    }
  }

  /**
   * Without a seed and with a well-formed model, the output has exactly
   * `w` tokens when `w >= n - 1`, and `n - 1` tokens otherwise.
   */
  lemma UnseededLength(model: Ngram, w: int, pick: nat, draw: nat -> nat)
    requires WellFormed(model)
    requires Generated(model, w, "", pick, draw).Ok?
    ensures |Generated(model, w, "", pick, draw).value| == if w >= model.n - 1 then w else model.n - 1
  {
    GeneratedShape(model, w, "", pick, draw);
  }

  /**
   * The whole seed becomes the context: with a well-formed model, a seed
   * whose token count differs from `n - 1` fails at the first lookup
   * whenever at least one word is to be generated.
   */
  lemma WholeSeedIsContext(model: Ngram, w: int, seed: string, pick: nat, draw: nat -> nat)
    requires WellFormed(model) && |seed| > 0
    requires |Split(seed)| != model.n - 1 && Iterations(w, model.n) >= 1
    ensures Generated(model, w, seed, pick, draw) == Err(UnknownContext(Split(seed)))
  {
  }

  /**
   * After `i` iterations the context is the last `|init|` tokens of
   * `sent`, and the next word is sampled for that context.
   */
  lemma ContextIsSuffixOfSent(model: Ngram, w: int, seed: string, pick: nat, draw: nat -> nat, i: nat)
    requires Generated(model, w, seed, pick, draw).Ok?
    requires i < Iterations(w, model.n)
    requires |Start(model, seed, pick).value| >= 1
    ensures var out := Generated(model, w, seed, pick, draw).value;
      var m := |Start(model, seed, pick).value|;
      Generate(model, out[i..i + m], draw(i)) == Ok(out[m + i])
  {
    GeneratedShape(model, w, seed, pick, draw);
    var out := Generated(model, w, seed, pick, draw).value;
    var init := Start(model, seed, pick).value;
    var m := |init|;
    var words := out[m..];
    IsRunAt(model, init, words, draw, i);
    WindowIsSuffix(init, words[..i]);
    assert out == init + words;
    assert init + words[..i] == out[..m + i];
    assert (init + words[..i])[i..] == out[i..i + m];
  }
}
