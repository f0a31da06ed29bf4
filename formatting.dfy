/**
 * The two string transforms of corpus_test.py that do not depend on
 * foreign tokenizers: the digit strip at the end of `_tokenize` and the
 * final punctuation-attaching substitution of `quotify`.
 */
module Formatting {
  import opened Text

  predicate IsDigit(ch: char)
  {
    '0' <= ch <= '9'
  }

  predicate HasNoDigit(t: string)
  {
    forall i :: 0 <= i < |t| ==> !IsDigit(t[i])
  }

  /** `a` is `b` with some characters deleted, the rest kept in order. */
  predicate IsSubsequence(a: string, b: string)
    decreases |b|
  {
    if |a| == 0 then true
    else if |b| == 0 then false
    else if a[0] == b[0] then IsSubsequence(a[1..], b[1..])
    else IsSubsequence(a, b[1..])
  }

  /** `re.sub('[0-9]', '', token)`. */
  function StripDigits(t: string): (r: string)
    ensures HasNoDigit(r)
    ensures |r| <= |t|
  {
    if |t| == 0 then ""
    else (if IsDigit(t[0]) then "" else [t[0]]) + StripDigits(t[1..])
  }

  /** `[re.sub('[0-9]', '', token) for token in tokens]`. */
  function StripAll(tokens: seq<Token>): (r: seq<Token>)
    ensures |r| == |tokens|
    ensures forall i :: 0 <= i < |r| ==> HasNoDigit(r[i]) && |r[i]| <= |tokens[i]|
  {
    seq(|tokens|, i requires 0 <= i < |tokens| => StripDigits(tokens[i]))
  }

  lemma SubsequenceCons(ch: char, a: string, b: string)
    requires IsSubsequence(a, b)
    ensures IsSubsequence([ch] + a, [ch] + b)
  {
    assert ([ch] + a)[1..] == a && ([ch] + b)[1..] == b;
  }

  lemma {:induction false} SubsequenceSkip(ch: char, a: string, b: string)
    requires IsSubsequence(a, b)
    ensures IsSubsequence(a, [ch] + b)
    decreases |b|, 1
  {
    var cb := [ch] + b;
    assert cb[1..] == b;
    if |a| > 0 && a[0] == ch {
      // matching `ch` first: the rest of `a` must be a subsequence of `b`
      SubsequenceTail(a, b);
    }
  }

  lemma {:induction false} SubsequenceTail(a: string, b: string)
    requires |a| > 0 && IsSubsequence(a, b)
    ensures IsSubsequence(a[1..], b)
    decreases |b|, 0
  {
    if a[0] == b[0] {
      SubsequenceSkip(b[0], a[1..], b[1..]);
      assert b == [b[0]] + b[1..];
    } else {
      SubsequenceTail(a, b[1..]);
      SubsequenceSkip(b[0], a[1..], b[1..]);
      assert b == [b[0]] + b[1..];
    }
  }

  lemma {:induction false} SubsequenceRefl(a: string)
    ensures IsSubsequence(a, a)
  {
    if |a| > 0 {
      SubsequenceRefl(a[1..]);
    }
  }

  /**
   * Stripping keeps every non-digit character, in order and as often as
   * it occurs, and deletes every digit.
   */
  lemma {:induction false} StripDigitsKeepsTheRest(t: string)
    ensures IsSubsequence(StripDigits(t), t)
    ensures forall ch :: !IsDigit(ch) ==> multiset(StripDigits(t))[ch] == multiset(t)[ch]
    ensures forall ch :: IsDigit(ch) ==> multiset(StripDigits(t))[ch] == 0
  {
    if |t| > 0 {
      var rest := StripDigits(t[1..]);
      StripDigitsKeepsTheRest(t[1..]);
      assert t == [t[0]] + t[1..];
      assert multiset(t) == multiset{t[0]} + multiset(t[1..]);
      if IsDigit(t[0]) {
        assert StripDigits(t) == rest;
        SubsequenceSkip(t[0], rest, t[1..]);
      } else {
        assert StripDigits(t) == [t[0]] + rest;
        assert multiset(StripDigits(t)) == multiset{t[0]} + multiset(rest);
        SubsequenceCons(t[0], rest, t[1..]);
      }
    }
  }

  /** A token is left alone exactly when it has no digit. */
  lemma {:induction false} StripDigitsFixesDigitFree(t: string)
    ensures HasNoDigit(t) <==> StripDigits(t) == t
  {
    if |t| > 0 {
      StripDigitsFixesDigitFree(t[1..]);
      assert t == [t[0]] + t[1..];
      if IsDigit(t[0]) {
        assert |StripDigits(t)| < |t| by {
          assert |StripDigits(t)| == |StripDigits(t[1..])|;
        }
      } else {
        assert HasNoDigit(t) <==> HasNoDigit(t[1..]) by {
          forall i | 0 < i < |t| ensures t[i] == t[1..][i - 1] {}
        }
      }
    }
  }

  /** Stripping twice is stripping once. */
  lemma StripDigitsIdempotent(t: string)
    ensures StripDigits(StripDigits(t)) == StripDigits(t)
  {
    StripDigitsFixesDigitFree(StripDigits(t));
  }

  predicate IsAttachable(ch: char)
  {
    ch == ',' || ch == '.'
  }

  /** `s` has a space directly before a comma or a period at index `i`. */
  predicate SpaceBeforePunctuationAt(s: string, i: int)
  {
    0 <= i < |s| - 1 && s[i] == Space && IsAttachable(s[i + 1])
  }

  predicate AttachesPunctuation(s: string)
  {
    forall i :: 0 <= i < |s| ==> !SpaceBeforePunctuationAt(s, i)
  }

  predicate NoDoubleSpace(s: string)
  {
    forall i :: 0 <= i < |s| - 1 ==> !(s[i] == Space && s[i + 1] == Space)
  }

  /** `s` with every space deleted. */
  function NonSpace(s: string): string
  {
    if |s| == 0 then ""
    else (if s[0] == Space then "" else [s[0]]) + NonSpace(s[1..])
  }

  /**
   * `re.sub(r'\ (?=,|\.)', '', new)`: delete each space whose next
   * character in `s` is a comma or a period.
   */
  function AttachPunctuation(s: string): string
  {
    if |s| == 0 then ""
    else (if SpaceBeforePunctuationAt(s, 0) then "" else [s[0]]) + AttachPunctuation(s[1..])
  }

  lemma ShiftSpaceBefore(s: string, i: int)
    requires |s| > 0 && 0 <= i
    ensures SpaceBeforePunctuationAt(s[1..], i) <==> SpaceBeforePunctuationAt(s, i + 1)
  {
  }

  lemma NonSpaceCons(ch: char, t: string)
    ensures NonSpace([ch] + t) == (if ch == Space then "" else [ch]) + NonSpace(t)
  {
    assert ([ch] + t)[0] == ch && ([ch] + t)[1..] == t;
  }

  /** Only spaces are deleted: all other characters stay, in order. */
  lemma {:induction false} AttachDeletesOnlySpaces(s: string)
    ensures NonSpace(AttachPunctuation(s)) == NonSpace(s)
    ensures IsSubsequence(AttachPunctuation(s), s)
  {
    if |s| > 0 {
      var rest := AttachPunctuation(s[1..]);
      assert s == [s[0]] + s[1..];
      AttachDeletesOnlySpaces(s[1..]);
      NonSpaceCons(s[0], s[1..]);
      if SpaceBeforePunctuationAt(s, 0) {
        assert AttachPunctuation(s) == rest;
        assert NonSpace(s) == NonSpace(s[1..]);
        SubsequenceSkip(s[0], rest, s[1..]);
      } else {
        NonSpaceCons(s[0], rest);
        SubsequenceCons(s[0], rest, s[1..]);
      }
    }
  }

  /** The substitution changes `s` exactly when `s` has a space before a comma or period. */
  lemma {:induction false} AttachFixesAttached(s: string)
    ensures AttachPunctuation(s) == s <==> AttachesPunctuation(s)
  {
    if |s| > 0 {
      AttachFixesAttached(s[1..]);
      forall i | 0 <= i < |s[1..]| ensures SpaceBeforePunctuationAt(s[1..], i) <==> SpaceBeforePunctuationAt(s, i + 1) {
        ShiftSpaceBefore(s, i);
      }
      if SpaceBeforePunctuationAt(s, 0) {
        AttachShorter(s[1..]);
      } else {
        assert AttachesPunctuation(s) <==> AttachesPunctuation(s[1..]) by {
          if AttachesPunctuation(s[1..]) {
            forall i | 0 <= i < |s| ensures !SpaceBeforePunctuationAt(s, i) {
              if i >= 1 {
                ShiftSpaceBefore(s, i - 1);
              }
            }
          }
        }
        assert s == [s[0]] + s[1..];
      }
    }
  }

  lemma {:induction false} AttachShorter(s: string)
    ensures |AttachPunctuation(s)| <= |s|
  {
    if |s| > 0 {
      AttachShorter(s[1..]);
    }
  }

  /** How many indices from `j` on hold a space directly before a comma or period. */
  function SpacesBeforePunctuationFrom(s: string, j: nat): nat
    decreases |s| - j
  {
    if j >= |s| then 0
    else (if SpaceBeforePunctuationAt(s, j) then 1 else 0) + SpacesBeforePunctuationFrom(s, j + 1)
  }

  lemma {:induction false} SpacesBeforePunctuationShift(s: string, j: nat)
    requires |s| > 0
    ensures SpacesBeforePunctuationFrom(s, j + 1) == SpacesBeforePunctuationFrom(s[1..], j)
    decreases |s| - j
  {
    if j + 1 < |s| {
      ShiftSpaceBefore(s, j);
      SpacesBeforePunctuationShift(s, j + 1);
    }
  }

  /** The substitution deletes one character per space that stands before a comma or period. */
  lemma {:induction false} AttachDeletesEachSpaceBefore(s: string)
    ensures |s| - |AttachPunctuation(s)| == SpacesBeforePunctuationFrom(s, 0)
  {
    if |s| > 0 {
      AttachDeletesEachSpaceBefore(s[1..]);
      SpacesBeforePunctuationShift(s, 0);
    }
  }

  lemma AttachKeepsHead(s: string)
    requires |s| > 0 && !SpaceBeforePunctuationAt(s, 0)
    ensures |AttachPunctuation(s)| > 0 && AttachPunctuation(s)[0] == s[0]
  {
  }

  /**
   * On text without double spaces, the result has no space left before a
   * comma or a period.
   */
  lemma {:induction false} AttachedWithoutDoubleSpaces(s: string)
    requires NoDoubleSpace(s)
    ensures AttachesPunctuation(AttachPunctuation(s))
  {
    if |s| > 0 {
      var rest := AttachPunctuation(s[1..]);
      assert NoDoubleSpace(s[1..]) by {
        forall i | 0 <= i < |s[1..]| - 1 ensures !(s[1..][i] == Space && s[1..][i + 1] == Space) {
          assert s[1..][i] == s[i + 1] && s[1..][i + 1] == s[i + 2];
        }
      }
      AttachedWithoutDoubleSpaces(s[1..]);
      if !SpaceBeforePunctuationAt(s, 0) {
        var r := [s[0]] + rest;
        assert AttachPunctuation(s) == r;
        forall i | 0 <= i < |r| ensures !SpaceBeforePunctuationAt(r, i) {
          if i == 0 && |r| > 1 && s[0] == Space {
            assert |s| > 1 && !IsAttachable(s[1]) && s[1] != Space;
            assert s[1..][0] == s[1];
            AttachKeepsHead(s[1..]);
            assert r[1] == s[1];
          } else if i >= 1 {
            assert r[i] == rest[i - 1];
            assert i + 1 < |r| ==> r[i + 1] == rest[i];
            assert !SpaceBeforePunctuationAt(rest, i - 1);
          }
        }
      } else {
        assert AttachPunctuation(s) == rest;
      }
    }
  }

  /**
   * A digit-only token leaves a double space behind, and the substitution
   * then keeps one space before the period.
   */
  lemma DigitTokenLeavesSpaceBeforePeriod()
    ensures Join(StripAll(["in", "1990", "."])) == "in  ."
    ensures AttachPunctuation("in  .") == "in ."
    ensures !AttachesPunctuation(AttachPunctuation("in  ."))
  {
    assert StripDigits("1990") == "";
    assert StripDigits("in") == "in";
    assert StripDigits(".") == ".";
    assert StripAll(["in", "1990", "."]) == ["in", "", "."];
    assert AttachPunctuation(".") == ".";
    assert AttachPunctuation(" .") == ".";
    assert AttachPunctuation("  .") == " .";
    assert AttachPunctuation("n  .") == "n .";
    assert SpaceBeforePunctuationAt("in .", 2);
  }

  /** The first character of `t` after its leading spaces is a comma or a period. */
  predicate SpacesThenPunctuation(t: string)
  {
    if |t| == 0 then false
    else if t[0] == Space then SpacesThenPunctuation(t[1..])
    else IsAttachable(t[0])
  }

  /** The evidently intended substitution: delete every run of spaces before a comma or period. */
  function AttachPunctuationIntended(s: string): string
  {
    if |s| == 0 then ""
    else (if s[0] == Space && SpacesThenPunctuation(s[1..]) then "" else [s[0]])
         + AttachPunctuationIntended(s[1..])
  }

  lemma {:induction false} IntendedHeadAttachable(t: string)
    requires |AttachPunctuationIntended(t)| > 0 && IsAttachable(AttachPunctuationIntended(t)[0])
    ensures SpacesThenPunctuation(t)
  {
    if t[0] == Space && SpacesThenPunctuation(t[1..]) {
      IntendedHeadAttachable(t[1..]);
    }
  }

  /** The intended substitution leaves no space before a comma or period, from any text. */
  lemma {:induction false} IntendedAttachesPunctuation(s: string)
    ensures AttachesPunctuation(AttachPunctuationIntended(s))
    ensures NonSpace(AttachPunctuationIntended(s)) == NonSpace(s)
  {
    if |s| > 0 {
      var rest := AttachPunctuationIntended(s[1..]);
      assert s == [s[0]] + s[1..];
      IntendedAttachesPunctuation(s[1..]);
      NonSpaceCons(s[0], s[1..]);
      if s[0] == Space && SpacesThenPunctuation(s[1..]) {
        assert AttachPunctuationIntended(s) == rest;
      } else {
        var r := [s[0]] + rest;
        assert AttachPunctuationIntended(s) == r;
        NonSpaceCons(s[0], rest);
        assert r[1..] == rest;
        forall i | 0 <= i < |r| ensures !SpaceBeforePunctuationAt(r, i) {
          if i == 0 && |r| > 1 && s[0] == Space && IsAttachable(rest[0]) {
            IntendedHeadAttachable(s[1..]);
          } else if i >= 1 {
            assert !SpaceBeforePunctuationAt(rest, i - 1);
          }
        }
      }
      assert s == [s[0]] + s[1..];
    }
  }

  /** Without double spaces the intended and the written substitution agree. */
  lemma {:induction false} IntendedAgreesWithoutDoubleSpaces(s: string)
    requires NoDoubleSpace(s)
    ensures AttachPunctuationIntended(s) == AttachPunctuation(s)
  {
    if |s| > 0 {
      assert NoDoubleSpace(s[1..]) by {
        forall i | 0 <= i < |s[1..]| - 1 ensures !(s[1..][i] == Space && s[1..][i + 1] == Space) {
          assert s[1..][i] == s[i + 1] && s[1..][i + 1] == s[i + 2];
        }
      }
      IntendedAgreesWithoutDoubleSpaces(s[1..]);
      if s[0] == Space && |s| > 1 {
        assert s[1] != Space;
        assert s[1..][0] == s[1];
      }
    }
  }
}
