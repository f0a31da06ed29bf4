/**
 * `Corpus.sentgen` of corpus_test.py: sample words until a period is
 * sampled while the sentence already has more than `w` tokens.
 * The loop need not terminate, so the model runs it on `fuel` iterations.
 */
module UntilPeriod {
  import opened Results
  import opened Text
  import opened Ngrams

  const Period: Token := "."

  /** The loop condition `(nextword != '.') or (len(sent) <= w)`. */
  predicate Continues(nextword: Token, sent: seq<Token>, w: int)
  {
    nextword != Period || |sent| <= w
  }

  /**
   * The `while` loop of `sentgen` from state (`context`, `sent`,
   * `nextword`), with `fuel` iterations allowed.
   */
  function Loop(model: Ngram, context: Context, sent: seq<Token>, nextword: Token, w: int,
                k: nat, draw: nat -> nat, fuel: nat): (r: Result<seq<Token>, GenError>)
    ensures r.Ok? ==> |r.value| > |sent| && r.value[..|sent|] == sent
    ensures r.Ok? ==> r.value[|r.value| - 1] == Period && |r.value| > w + 1
    ensures r.Err? ==> r.error == OutOfFuel || (r.error.UnknownContext? && r.error.context !in model.table)
    decreases fuel
  {
    if !Continues(nextword, sent, w) then Ok(sent + [nextword])
    else if fuel == 0 then Err(OutOfFuel)
    else
      var context' := Slide(context, nextword);
      match Generate(model, context', draw(k))
      case Err(e) => Err(e)
      case Ok(x) => Loop(model, context', sent + [nextword], x, w, k + 1, draw, fuel - 1)
  }

  /** The token list `sentgen` builds before joining it. */
  function Generated(model: Ngram, w: int, seed: string, pick: nat, draw: nat -> nat, fuel: nat)
    : (r: Result<seq<Token>, GenError>)
    ensures r.Ok? ==> Start(model, seed, pick).Ok?
    ensures r.Ok? ==> |r.value| > |Start(model, seed, pick).value|
    ensures r.Ok? ==> r.value[..|Start(model, seed, pick).value|] == Start(model, seed, pick).value
  {
    match Start(model, seed, pick)
    case Err(e) => Err(e)
    case Ok(init) =>
      match Generate(model, init, draw(0))
      case Err(e) => Err(e)
      case Ok(first) => Loop(model, init, init, first, w, 1, draw, fuel)
  }

  /**
   * `Corpus.sentgen(ngram, w=0, seed='')`; `pick` is the random number
   * behind `random.choice`, `draw(k)` the one behind the `k`-th
   * `generate()`, and `fuel` caps the number of loop iterations; these
   * follow the defaulted formals and are passed by name.
   */
  method SentGen(model: Ngram, w: int := 0, seed: string := "", pick: nat, draw: nat -> nat, fuel: nat)
    returns (r: Result<string, GenError>)
    ensures r == Joined(Generated(model, w, seed, pick, draw, fuel))
  {
    var sent: seq<Token>;
    var context: Context;
    if |seed| > 0 {
      sent := Split(seed);
      context := sent;
    } else {
      if |model.contexts| == 0 {
        return Err(NoContexts);
      }
      context := model.contexts[pick % |model.contexts|];
      sent := context;
    }
    var first := Generate(model, context, draw(0));
    if first.Err? {
      return Err(first.error);
    }
    var nextword := first.value;
    var k := 1;
    var left := fuel;
    while nextword != Period || |sent| <= w
      invariant Loop(model, context, sent, nextword, w, k, draw, left) == Generated(model, w, seed, pick, draw, fuel)
      decreases left
    {
      if left == 0 {
        return Err(OutOfFuel);
      }
      sent := sent + [nextword];
      context := Slide(context, nextword);
      var g := Generate(model, context, draw(k));
      if g.Err? {
        return Err(g.error);
      }
      nextword := g.value;
      k := k + 1;
      left := left - 1;
    }
    sent := sent + [nextword];
    r := Ok(Join(sent));
  }

  /**
   * No word before the last stopped the loop: the loop condition saw the `i`-th word
   * when `sent` had `start + i` tokens.
   */
  predicate KeptGoing(start: nat, words: seq<Token>, w: int)
  {
    forall i :: 0 <= i < |words| ==> words[i] != Period || start + i <= w
  }

  /** Continuing the loop appends sampled words only. */
  lemma {:induction false} LoopRuns(model: Ngram, init: Context, done: seq<Token>, nextword: Token, w: int,
                                    draw: nat -> nat, fuel: nat)
    requires IsRun(model, init, done + [nextword], draw)
    requires Loop(model, Window(init, done), init + done, nextword, w, |done| + 1, draw, fuel).Ok?
    ensures IsRun(model, init, Loop(model, Window(init, done), init + done, nextword, w, |done| + 1, draw, fuel).value[|init|..], draw)
    decreases fuel
  {
    if !Continues(nextword, init + done, w) {
      assert (init + done) + [nextword] == init + (done + [nextword]);
    } else {
      WindowSnoc(init, done, nextword);
      var x := Generate(model, Window(init, done + [nextword]), draw(|done| + 1)).value;
      assert IsRun(model, init, done + [nextword] + [x], draw) by {
        IsRunSnoc(model, init, done + [nextword], x, draw);
      }
      assert (init + done) + [nextword] == init + (done + [nextword]);
      LoopRuns(model, init, done + [nextword], x, w, draw, fuel - 1);
    }
  }

  /** The loop stops at the first word that fails the loop condition. */
  lemma {:induction false} LoopKeepsGoing(model: Ngram, context: Context, init: Context, done: seq<Token>,
                                          nextword: Token, w: int, k: nat, draw: nat -> nat, fuel: nat)
    requires KeptGoing(|init|, done, w)
    requires Loop(model, context, init + done, nextword, w, k, draw, fuel).Ok?
    ensures var out := Loop(model, context, init + done, nextword, w, k, draw, fuel).value;
      KeptGoing(|init|, out[|init|..|out| - 1], w)
    decreases fuel
  {
    var out := Loop(model, context, init + done, nextword, w, k, draw, fuel).value;
    if !Continues(nextword, init + done, w) {
      assert out[|init|..|out| - 1] == done;
    } else {
      var context' := Slide(context, nextword);
      var x := Generate(model, context', draw(k)).value;
      assert (init + done) + [nextword] == init + (done + [nextword]);
      LoopKeepsGoing(model, context', init, done + [nextword], x, w, k + 1, draw, fuel - 1);
    }
  }

  /**
   * A returned sentence is the initial context followed by sampled words
   * along the sliding context; it ends with the first period sampled once
   * `sent` had more than `w` tokens, so it is longer than `w + 1` tokens;
   * an earlier period did not stop it.
   */
  lemma GeneratedShape(model: Ngram, w: int, seed: string, pick: nat, draw: nat -> nat, fuel: nat)
    requires Generated(model, w, seed, pick, draw, fuel).Ok?
    ensures var out := Generated(model, w, seed, pick, draw, fuel).value;
      var init := Start(model, seed, pick).value;
      && |out| >= |init| + 1 && |out| > w + 1
      && out[|out| - 1] == Period
      && IsRun(model, init, out[|init|..], draw)
      && KeptGoing(|init|, out[|init|..|out| - 1], w)
  {
    var init := Start(model, seed, pick).value;
    var first := Generate(model, init, draw(0)).value;
    var none: seq<Token> := [];
    assert init + none == init && Window(init, none) == init;
    assert Generated(model, w, seed, pick, draw, fuel)
        == Loop(model, Window(init, none), init + none, first, w, |none| + 1, draw, fuel);
    assert IsRun(model, init, none + [first], draw) by {
      IsRunSnoc(model, init, none, first, draw);
    }
    LoopRuns(model, init, none, first, w, draw, fuel);
    LoopKeepsGoing(model, init, init, none, first, w, 1, draw, fuel);
  }

  /**
   * When the initial context already has more than `w` tokens (as with
   * the default `w = 0`), the first period sampled ends the sentence.
   */
  lemma FirstPeriodEndsLongSentence(model: Ngram, w: int, seed: string, pick: nat, draw: nat -> nat, fuel: nat)
    requires Generated(model, w, seed, pick, draw, fuel).Ok?
    requires |Start(model, seed, pick).value| > w
    ensures var out := Generated(model, w, seed, pick, draw, fuel).value;
      var m := |Start(model, seed, pick).value|;
      forall i :: m <= i < |out| - 1 ==> out[i] != Period
  {
    GeneratedShape(model, w, seed, pick, draw, fuel);
    var out := Generated(model, w, seed, pick, draw, fuel).value;
    var m := |Start(model, seed, pick).value|;
    forall i | m <= i < |out| - 1 ensures out[i] != Period {
      assert out[m..|out| - 1][i - m] == out[i];
    }
  }

  /** A model that only ever continues with `a` after `a`. */
  function LoopingModel(): Ngram
  {
    Ngram(2, map[["a"] := ["a"]], [["a"]])
  }

  lemma {:induction false} LoopingModelNeverStops(sent: seq<Token>, w: int, k: nat, draw: nat -> nat, fuel: nat)
    ensures Loop(LoopingModel(), ["a"], sent, "a", w, k, draw, fuel) == Err(OutOfFuel)
    decreases fuel
  {
    if fuel > 0 {
      assert Slide(["a"], "a") == ["a"];
      LoopingModelNeverStops(sent + ["a"], w, k + 1, draw, fuel - 1);
    }
  }

  /** Termination is not guaranteed: with no period reachable, every iteration cap is exhausted. */
  lemma NeverEndingSentence(w: int, pick: nat, draw: nat -> nat, fuel: nat)
    ensures Generated(LoopingModel(), w, "", pick, draw, fuel) == Err(OutOfFuel)
  {
    assert Start(LoopingModel(), "", pick) == Ok(["a"]);
    LoopingModelNeverStops(["a"], w, 1, draw, fuel);
  }

  /** A model where `a` is followed by a period and a period by a period. */
  function PeriodModel(): Ngram
  {
    Ngram(2, map[["a"] := ["."], ["."] := ["."]], [["a"]])
  }

  /**
   * The disjunctive condition in action: with `w = 3` the periods sampled
   * while `sent` is short do not end the sentence.
   */
  lemma EarlyPeriodsDoNotStop(pick: nat, draw: nat -> nat, fuel: nat)
    requires fuel >= 3
    ensures Generated(PeriodModel(), 3, "", pick, draw, fuel) == Ok(["a", ".", ".", ".", "."])
  {
    var m := PeriodModel();
    assert Start(m, "", pick) == Ok(["a"]);
    forall r: nat ensures Generate(m, ["a"], r) == Ok(".") && Generate(m, ["."], r) == Ok(".") {
      assert r % 1 == 0;
    }
    assert Slide(["a"], ".") == ["."];
    assert Slide(["."], ".") == ["."];
    assert ["a"] + ["."] == ["a", "."];
    assert ["a", "."] + ["."] == ["a", ".", "."];
    assert ["a", ".", "."] + ["."] == ["a", ".", ".", "."];
    assert ["a", ".", ".", "."] + ["."] == ["a", ".", ".", ".", "."];
    calc {
      Generated(m, 3, "", pick, draw, fuel);
      Loop(m, ["a"], ["a"], ".", 3, 1, draw, fuel);
      Loop(m, ["."], ["a", "."], ".", 3, 2, draw, fuel - 1);
      Loop(m, ["."], ["a", ".", "."], ".", 3, 3, draw, fuel - 2);
      Loop(m, ["."], ["a", ".", ".", "."], ".", 3, 4, draw, fuel - 3);
      Ok(["a", ".", ".", ".", "."]);
    }
  }
}
