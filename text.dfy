/**
 * `str.split(' ')` and `' '.join(...)` on token lists, the two string
 * operations the sentence generators use to turn a seed into tokens and
 * their output back into a string.
 */
module Text {

  type Token = string

  const Space: char := ' '

  /** `' '.join(ts)`: the tokens separated by single spaces. */
  function Join(ts: seq<Token>): string
  {
    if |ts| == 0 then ""
    else if |ts| == 1 then ts[0]
    else ts[0] + [Space] + Join(ts[1..])
  }

  /** `s.split(' ')`: the maximal space-free pieces, empty ones included. */
  function Split(s: string): (r: seq<Token>)
    ensures |r| >= 1
  {
    if |s| == 0 then [""]
    else if s[0] == Space then [""] + Split(s[1..])
    else
      var rest := Split(s[1..]);
      [[s[0]] + rest[0]] + rest[1..]
  }

  predicate NoSpace(t: Token)
  {
    Space !in t
  }

  lemma JoinCons(t: Token, ts: seq<Token>)
    requires |ts| >= 1
    ensures Join([t] + ts) == t + [Space] + Join(ts)
  {
    assert ([t] + ts)[1..] == ts;
  }

  /** Joining a concatenation puts exactly one space between the halves. */
  lemma {:induction false} JoinAppend(a: seq<Token>, b: seq<Token>)
    requires |a| >= 1 && |b| >= 1
    ensures Join(a + b) == Join(a) + [Space] + Join(b)
  {
    if |a| == 1 {
      JoinCons(a[0], b);
      assert a + b == [a[0]] + b;
    } else {
      JoinAppend(a[1..], b);
      assert a + b == [a[0]] + (a[1..] + b);
      JoinCons(a[0], a[1..] + b);
      JoinCons(a[0], a[1..]);
      assert a == [a[0]] + a[1..];
    }
  }

  /** Every piece of a split is free of spaces. */
  lemma {:induction false} SplitPiecesHaveNoSpace(s: string)
    ensures forall i :: 0 <= i < |Split(s)| ==> NoSpace(Split(s)[i])
  {
    if |s| > 0 {
      SplitPiecesHaveNoSpace(s[1..]);
    }
  }

  /** Joining the pieces of a split gives back the string. */
  lemma {:induction false} JoinSplit(s: string)
    ensures Join(Split(s)) == s
  {
    if |s| > 0 {
      JoinSplit(s[1..]);
      if s[0] == Space {
        JoinSplitSpace(s);
      } else {
        JoinSplitLetter(s);
      }
    }
  }

  lemma JoinSplitSpace(s: string)
    requires |s| > 0 && s[0] == Space && Join(Split(s[1..])) == s[1..]
    ensures Join(Split(s)) == s
  {
    JoinCons("", Split(s[1..]));
    assert s == [s[0]] + s[1..];
  }

  lemma JoinSplitLetter(s: string)
    requires |s| > 0 && s[0] != Space && Join(Split(s[1..])) == s[1..]
    ensures Join(Split(s)) == s
  {
    var rest := Split(s[1..]);
    JoinExtendFirst(s[0], rest);
    assert s == [s[0]] + s[1..];
  }

  lemma ConcatAssoc<T>(a: seq<T>, b: seq<T>, c: seq<T>)
    ensures (a + b) + c == a + (b + c)
  {
  }

  /** Putting a character in front of the first token puts it in front of the join. */
  lemma JoinExtendFirst(c: char, ts: seq<Token>)
    requires |ts| >= 1
    ensures Join([[c] + ts[0]] + ts[1..]) == [c] + Join(ts)
  {
    var ext := [[c] + ts[0]] + ts[1..];
    assert ext[0] == [c] + ts[0] && ext[1..] == ts[1..];
    if |ts| > 1 {
      ConcatAssoc([c], ts[0], [Space]);
      ConcatAssoc([c], ts[0] + [Space], Join(ts[1..]));
    }
  }

  /** Splitting a join of space-free tokens gives back the tokens. */
  lemma {:induction false} SplitJoin(ts: seq<Token>)
    requires |ts| >= 1
    requires forall i :: 0 <= i < |ts| ==> NoSpace(ts[i])
    ensures Split(Join(ts)) == ts
  {
    if |ts| == 1 {
      SplitNoSpace(ts[0]);
    } else {
      SplitJoin(ts[1..]);
      JoinCons(ts[0], ts[1..]);
      SplitSpaceFreePrefix(ts[0], Join(ts[1..]));
      assert ts == [ts[0]] + ts[1..];
    }
  }

  lemma {:induction false} SplitNoSpace(t: Token)
    requires NoSpace(t)
    ensures Split(t) == [t]
  {
    if |t| > 0 {
      SplitNoSpace(t[1..]);
      assert t == [t[0]] + t[1..];
    }
  }

  lemma {:induction false} SplitSpaceFreePrefix(t: Token, rest: string)
    requires NoSpace(t)
    ensures Split(t + [Space] + rest) == [t] + Split(rest)
  {
    if |t| == 0 {
      assert t + [Space] + rest == [Space] + rest;
      assert ([Space] + rest)[1..] == rest;
    } else {
      var s := t + [Space] + rest;
      assert s[0] == t[0];
      assert s[1..] == t[1..] + [Space] + rest;
      SplitSpaceFreePrefix(t[1..], rest);
      assert t == [t[0]] + t[1..];
    }
  }
}
