/**
 * The frequency tables of `Corpus.freq` and `Corpus.freqtuples`: Python
 * dictionaries from a token (or an adjacent token pair) to its count.
 */
module Counting {
  import opened Text

  /** An ordered pair of adjacent tokens, the key type of `Corpus.tuples`. */
  type Bigram = (Token, Token)

  /**
   * A Python dict of counts: its entries, and its keys in insertion order
   * (the order in which `dict.keys()` yields them).
   */
  datatype CountDict<K> = CountDict(keys: seq<K>, count: map<K, nat>)

  predicate Distinct<K(==)>(s: seq<K>)
  {
    forall i, j :: 0 <= i < j < |s| ==> s[i] != s[j]
  }

  /** The elements of `s` once each, in the order of their first occurrence. */
  function Dedup<K(==,!new)>(s: seq<K>): (r: seq<K>)
    ensures forall x :: x in r <==> x in s
    ensures Distinct(r)
  {
    if |s| == 0 then []
    else
      var d := Dedup(s[..|s| - 1]);
      if s[|s| - 1] in d then d else d + [s[|s| - 1]]
  }

  /** Each distinct element of `items` mapped to its number of occurrences. */
  function Counts<K(==)>(items: seq<K>): map<K, nat>
  {
    map x | x in items :: multiset(items)[x]
  }

  /** The dict that counting `items` one by one produces. */
  function Table<K(==,!new)>(items: seq<K>): CountDict<K>
  {
    CountDict(Dedup(items), Counts(items))
  }

  /** The sum of the values of `m` at the listed keys. */
  function Total<K(==)>(keys: seq<K>, m: map<K, nat>): nat
    requires forall k :: k in keys ==> k in m
  {
    if |keys| == 0 then 0
    else Total(keys[..|keys| - 1], m) + m[keys[|keys| - 1]]
  }

  /** The indices at which `x` stands in `s`. */
  function Positions<K(==)>(s: seq<K>, x: K): set<nat>
  {
    set i: nat | i < |s| && s[i] == x
  }

  /** The adjacent pairs `(tokens[i], tokens[i+1])`, in order. */
  function Pairs(tokens: seq<Token>): seq<Bigram>
  {
    if |tokens| <= 1 then []
    else seq(|tokens| - 1, i requires 0 <= i < |tokens| - 1 => (tokens[i], tokens[i + 1]))
  }

  /** `a` stands at index `i` of `tokens` and `b` right after it. */
  predicate AdjacentAt(tokens: seq<Token>, i: int, a: Token, b: Token)
  {
    0 <= i < |tokens| - 1 && tokens[i] == a && tokens[i + 1] == b
  }

  lemma PairsShape(tokens: seq<Token>)
    ensures |Pairs(tokens)| == if |tokens| <= 1 then 0 else |tokens| - 1
    ensures forall i :: 0 <= i < |Pairs(tokens)| ==> Pairs(tokens)[i] == (tokens[i], tokens[i + 1])
  {
  }

  /** A pair is adjacent in `tokens` exactly when it is one of `Pairs(tokens)`. */
  lemma PairIsAdjacent(tokens: seq<Token>, a: Token, b: Token)
    ensures (a, b) in Pairs(tokens) <==> exists i :: AdjacentAt(tokens, i, a, b)
  {
    if (a, b) in Pairs(tokens) {
      var i :| 0 <= i < |Pairs(tokens)| && Pairs(tokens)[i] == (a, b);
      assert AdjacentAt(tokens, i, a, b);
    }
    if exists i :: AdjacentAt(tokens, i, a, b) {
      var i :| AdjacentAt(tokens, i, a, b);
      assert Pairs(tokens)[i] == (a, b);
    }
  }

  lemma {:induction false} TotalFrame<K>(keys: seq<K>, m1: map<K, nat>, m2: map<K, nat>)
    requires forall k :: k in keys ==> k in m1 && k in m2 && m1[k] == m2[k]
    ensures Total(keys, m1) == Total(keys, m2)
  {
    if |keys| > 0 {
      TotalFrame(keys[..|keys| - 1], m1, m2);
    }
  }

  /** Incrementing the count of one listed key increments the sum by one. */
  lemma {:induction false} TotalBump<K>(keys: seq<K>, m: map<K, nat>, k: K)
    requires Distinct(keys) && k in keys
    requires forall x :: x in keys ==> x in m
    ensures Total(keys, m[k := m[k] + 1]) == Total(keys, m) + 1
  {
    var init := keys[..|keys| - 1];
    var last := keys[|keys| - 1];
    if last == k {
      assert k !in init by {
        forall j | 0 <= j < |init| ensures init[j] != k {
          assert init[j] == keys[j];
        }
      }
      TotalFrame(init, m, m[k := m[k] + 1]);
    } else {
      assert k in init by {
        var j :| 0 <= j < |keys| && keys[j] == k;
        assert j < |keys| - 1 && init[j] == k;
      }
      TotalBump(init, m, k);
    }
  }

  lemma CountsSnoc<K>(items: seq<K>, x: K)
    ensures Counts(items + [x]) == Counts(items)[x := multiset(items)[x] + 1]
  {
    assert multiset(items + [x]) == multiset(items) + multiset{x};
  }

  lemma DedupSnoc<K(!new)>(items: seq<K>, x: K)
    ensures Dedup(items + [x]) == if x in items then Dedup(items) else Dedup(items) + [x]
  {
    assert (items + [x])[..|items|] == items;
  }

  /** The values of a counting table sum to the number of items counted. */
  lemma {:induction false} TableTotal<K(!new)>(items: seq<K>)
    ensures Total(Table(items).keys, Table(items).count) == |items|
  {
    if |items| > 0 {
      var p := items[..|items| - 1];
      var x := items[|items| - 1];
      assert items == p + [x];
      TableTotal(p);
      CountsSnoc(p, x);
      DedupSnoc(p, x);
      if x in p {
        TotalBump(Dedup(p), Counts(p), x);
      } else {
        TotalFrame(Dedup(p), Counts(p), Counts(items));
      }
    }
  }

  /** The count of `x` is the number of indices at which `x` stands. */
  lemma {:induction false} CountIsIndexCount<K>(items: seq<K>, x: K)
    ensures multiset(items)[x] == |Positions(items, x)|
  {
    if |items| > 0 {
      var p := items[..|items| - 1];
      var y := items[|items| - 1];
      assert items == p + [y];
      assert multiset(items) == multiset(p) + multiset{y};
      CountIsIndexCount(p, x);
      if y == x {
        assert Positions(items, x) == Positions(p, x) + {|p|};
      } else {
        assert Positions(items, x) == Positions(p, x);
      }
    }
  }

  /**
   * Counting one more item: a new key is appended with count 1, a known
   * key has its count raised by one and keeps its place.
   */
  lemma TableSnoc<K(!new)>(items: seq<K>, x: K)
    ensures var t := Table(items);
      Table(items + [x]) ==
        if x in t.count then CountDict(t.keys, t.count[x := t.count[x] + 1])
        else CountDict(t.keys + [x], t.count[x := 1])
  {
    CountsSnoc(items, x);
    DedupSnoc(items, x);
    assert x !in items ==> multiset(items)[x] == 0;
  }

  /** What the table of a token list's adjacent pairs holds. */
  lemma PairTableFacts(tokens: seq<Token>)
    ensures var t := Table(Pairs(tokens));
      && (forall p :: p in t.keys <==> p in t.count)
      && (forall a, b :: (a, b) in t.count <==> exists i :: AdjacentAt(tokens, i, a, b))
      && (forall p :: p in t.count ==> t.count[p] == |Positions(Pairs(tokens), p)|)
      && Total(t.keys, t.count) == if |tokens| <= 1 then 0 else |tokens| - 1
  {
    var pairs := Pairs(tokens);
    PairsShape(tokens);
    TableTotal(pairs);
    forall a, b ensures (a, b) in Table(pairs).count <==> exists i :: AdjacentAt(tokens, i, a, b) {
      PairIsAdjacent(tokens, a, b);
    }
    forall p | p in Table(pairs).count ensures Table(pairs).count[p] == |Positions(pairs, p)| {
      CountIsIndexCount(pairs, p);
    }
  }

  /** `Corpus.freq`: count each token of `tokens`. */
  method Freq(tokens: seq<Token>) returns (frequency: CountDict<Token>)
    ensures frequency == Table(tokens)
    ensures Distinct(frequency.keys)
    ensures forall t :: t in frequency.keys <==> t in frequency.count
    ensures forall t :: t in frequency.count <==> t in tokens
    ensures forall t :: t in frequency.count ==> 1 <= frequency.count[t] == multiset(tokens)[t]
    ensures Total(frequency.keys, frequency.count) == |tokens|
  {
    var keys: seq<Token> := [];
    var count: map<Token, nat> := map[];
    for i := 0 to |tokens|
      invariant CountDict(keys, count) == Table(tokens[..i])
    {
      var word := tokens[i];
      assert tokens[..i + 1] == tokens[..i] + [word];
      TableSnoc(tokens[..i], word);
      if word in count {
        count := count[word := count[word] + 1];
      } else {
        keys := keys + [word];
        count := count[word := 1];
      }
    }
    assert tokens[..|tokens|] == tokens;
    frequency := CountDict(keys, count);
    TableTotal(tokens);
  }

  /** `Corpus.freqtuples`: count each adjacent pair of `tokens`. */
  method FreqTuples(tokens: seq<Token>) returns (tuples: CountDict<Bigram>)
    ensures tuples == Table(Pairs(tokens))
    ensures Distinct(tuples.keys)
    ensures forall p :: p in tuples.keys <==> p in tuples.count
    ensures forall a, b :: (a, b) in tuples.count <==>
      exists i :: AdjacentAt(tokens, i, a, b)
    ensures forall p :: p in tuples.count ==> tuples.count[p] == |Positions(Pairs(tokens), p)|
    ensures Total(tuples.keys, tuples.count) == if |tokens| <= 1 then 0 else |tokens| - 1
  {
    var pairs := Pairs(tokens);
    PairsShape(tokens);
    var keys: seq<Bigram> := [];
    var count: map<Bigram, nat> := map[];
    var last := if |tokens| == 0 then 0 else |tokens| - 1;
    for i := 0 to last
      invariant CountDict(keys, count) == Table(pairs[..i])
    {
      var pair := (tokens[i], tokens[i + 1]);
      assert pairs[..i + 1] == pairs[..i] + [pair];
      TableSnoc(pairs[..i], pair);
      if pair in count {
        count := count[pair := count[pair] + 1];
      } else {
        keys := keys + [pair];
        count := count[pair := 1];
      }
    }
    assert pairs[..last] == pairs;
    tuples := CountDict(keys, count);
    PairTableFacts(tokens);
  }
}
