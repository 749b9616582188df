/** Term and document frequency tables (include/wookie/tfidf.hpp), with the arithmetic of
    size_t (64 bits) and int (32 bits). */
module Tfidf {
  import opened Ordered

  const SIZE: int := 0x1_0000_0000_0000_0000
  const INT_RANGE: int := 0x1_0000_0000
  const INT_LIMIT: int := 0x8000_0000

  /** size_t. */
  type Size = n: int | 0 <= n < SIZE

  /** Conversion to size_t. */
  function Wrap(n: int): Size { n % SIZE }

  /** Conversion from size_t to int. */
  function ToInt(n: int): int {
    var low := n % INT_RANGE;
    if low < INT_LIMIT then low else low - INT_RANGE
  }

  /** Both conversions keep the number modulo their range. */
  lemma ConversionsExact(n: int)
    ensures 0 <= Wrap(n) < 0x1_0000_0000_0000_0000 && (n - Wrap(n)) % 0x1_0000_0000_0000_0000 == 0
    ensures -0x8000_0000 <= ToInt(n) < 0x8000_0000 && (n - ToInt(n)) % 0x1_0000_0000 == 0
  {
  }

  datatype Table = Table(words: map<string, Size>, total: Size)

  function Count(t: Table, word: string): Size {
    if word in t.words then t.words[word] else 0
  }

  function Fed(t: Table, word: string, num: int): Table {
    Table(t.words[word := Wrap(Count(t, word) + num)], Wrap(t.total + num))
  }

  lemma WrapAdds(a: int, b: int)
    ensures Wrap(Wrap(a) + b) == Wrap(a + b)
  {
  }

  ghost function SumOver(m: map<string, Size>, keys: set<string>): nat
    requires keys <= m.Keys
  {
    if keys == {} then 0 else
    var k := Chosen(keys);
    m[k] + SumOver(m, keys - {k})
  }

  ghost function Chosen<T>(s: set<T>): (x: T)
    requires s != {}
    ensures x in s
  {
    var x :| x in s;
    x
  }

  lemma {:induction false} SumWithout(m: map<string, Size>, keys: set<string>, k: string)
    requires keys <= m.Keys && k in keys
    ensures SumOver(m, keys) == m[k] + SumOver(m, keys - {k})
    decreases |keys|
  {
    var c := Chosen(keys);
    if c != k {
      SumWithout(m, keys - {c}, k);
      SumWithout(m, keys - {k}, c);
      assert keys - {c} - {k} == keys - {k} - {c};
    }
  }

  lemma {:induction false} SumSame(m: map<string, Size>, m': map<string, Size>, keys: set<string>)
    requires keys <= m.Keys && keys <= m'.Keys && forall k :: k in keys ==> m[k] == m'[k]
    ensures SumOver(m, keys) == SumOver(m', keys)
    decreases |keys|
  {
    if keys != {} { SumSame(m, m', keys - {Chosen(keys)}); }
  }

  /** The total is the sum of all counts, in the arithmetic of size_t. */
  ghost predicate TotalIsSum(t: Table) {
    t.total == Wrap(SumOver(t.words, t.words.Keys))
  }

  lemma {:induction false} FeedKeepsTotal(t: Table, word: string, num: int)
    requires TotalIsSum(t)
    ensures TotalIsSum(Fed(t, word, num))
  {
    hide Wrap;
    var t' := Fed(t, word, num);
    var others := t.words.Keys - {word};
    assert t'.words.Keys == others + {word};
    SumWithout(t'.words, t'.words.Keys, word);
    assert t'.words.Keys - {word} == others;
    SumSame(t.words, t'.words, others);
    if word in t.words {
      SumWithout(t.words, t.words.Keys, word);
    } else {
      assert t.words.Keys == others;
    }
    var rest := SumOver(t.words, others);
    WrapAdds(Count(t, word) + num, rest);
    WrapAdds(Count(t, word) + rest, num);
  }

  class Tf {
    var words: map<string, Size>
    var totalWords: Size

    ghost function View(): Table
      reads this
    {
      Table(words, totalWords)
    }

    constructor ()
      ensures View() == Table(map[], 0)
    {
      words, totalWords := map[], 0;
    }

    method FeedWord(word: string, num: int)
      requires -INT_LIMIT <= num < INT_LIMIT
      modifies this
      ensures View() == Fed(old(View()), word, num)
    {
      if word !in words {
        words := words[word := Wrap(num)];
      } else {
        words := words[word := Wrap(words[word] + num)];
      }
      totalWords := Wrap(totalWords + num);
    }
  }

  /** Every word of the set counted `num` more times. */
  ghost predicate Raised(before: Table, after: Table, words: set<string>, num: int) {
    && after.words.Keys == before.words.Keys + words
    && forall w :: Count(after, w) == if w in words then Wrap(Count(before, w) + num) else Count(before, w)
  }

  ghost predicate CountedOnce(before: Table, after: Table, words: set<string>) {
    Raised(before, after, words, 1) && after.total == Wrap(before.total + |words|)
  }

  /** Every count of the other table added, after its conversion to int. */
  ghost predicate Added(before: Table, other: Table, after: Table, words: set<string>) {
    && after.words.Keys == before.words.Keys + words
    && (forall w :: Count(after, w) == if w in words then Wrap(Count(before, w) + ToInt(Count(other, w)))
      else Count(before, w))
  }

  /** Each count raised by the number of occurrences in the text. */
  ghost predicate CountedEach(before: Table, after: Table, words: seq<string>) {
    forall w :: Count(after, w) == Wrap(Count(before, w) + multiset(words)[w])
  }

  lemma CountedNothing(t: Table)
    ensures CountedOnce(t, t, {})
  {
  }

  lemma CountedEachNothing(t: Table)
    ensures CountedEach(t, t, [])
  {
  }

  lemma AddedNothing(t: Table, other: Table)
    ensures Added(t, other, t, {})
  {
  }

  lemma {:induction false} TotalStep(total: int, n: nat)
    ensures Wrap(Wrap(total + n) + 1) == Wrap(total + (n + 1))
  {
    WrapAdds(total + n, 1);
  }

  lemma {:induction false} RaisedStep(before: Table, mid: Table, words: set<string>, word: string, num: int)
    requires Raised(before, mid, words, num) && word !in words
    ensures Raised(before, Fed(mid, word, num), words + {word}, num)
  {
    hide Wrap;
  }

  lemma {:induction false} CountedOnceStep(before: Table, mid: Table, words: set<string>, word: string)
    requires CountedOnce(before, mid, words) && word !in words
    ensures CountedOnce(before, Fed(mid, word, 1), words + {word})
  {
    hide Wrap;
    hide Raised;
    RaisedStep(before, mid, words, word, 1);
    TotalStep(before.total, |words|);
    assert |words + {word}| == |words| + 1;
  }

  lemma {:induction false} AddedStep(before: Table, other: Table, mid: Table, words: set<string>, word: string)
    requires Added(before, other, mid, words) && word !in words
    ensures Added(before, other, Fed(mid, word, ToInt(Count(other, word))), words + {word})
  {
    hide ToInt;
    hide Wrap;
  }

  lemma UnvisitedIsUnchanged(before: Table, other: Table, mid: Table, words: set<string>, word: string)
    requires Added(before, other, mid, words) && word !in words
    ensures Count(mid, word) == Count(before, word)
  {
  }

  lemma {:induction false} CountedEachStep(before: Table, mid: Table, words: seq<string>, word: string)
    requires CountedEach(before, mid, words)
    ensures CountedEach(before, Fed(mid, word, 1), words + [word])
  {
    hide Wrap;
    var after := Fed(mid, word, 1);
    forall w ensures Count(after, w) == Wrap(Count(before, w) + multiset(words + [word])[w]) {
      WrapAdds(Count(before, w) + multiset(words)[w], 1);
    }
  }

  class TfIdf {
    const df: Tf
    var unique: set<string>

    constructor ()
      ensures fresh(df) && df.View() == Table(map[], 0) && unique == {}
    {
      df := new Tf();
      unique := {};
    }

    /** `other` may be this table itself: each count is read before it is raised. */
    method Merge(other: TfIdf)
      modifies df
      ensures Added(old(df.View()), old(other.df.View()), df.View(), old(other.df.words).Keys)
      ensures other.df != df ==> other.df.View() == old(other.df.View())
      ensures old(TotalIsSum(df.View())) ==> TotalIsSum(df.View())
    {
      hide TotalIsSum;
      hide Fed;
      ghost var mine, theirs := df.View(), other.df.View();
      AddedNothing(mine, theirs);
      var rest := other.df.words.Keys;
      assert theirs.words.Keys - rest == {};
      while rest != {}
        invariant rest <= theirs.words.Keys
        invariant other.df.View() == if other.df == df then df.View() else theirs
        invariant Added(mine, theirs, df.View(), theirs.words.Keys - rest)
        invariant TotalIsSum(mine) ==> TotalIsSum(df.View())
      {
        var word := Pick(rest);
        UnvisitedIsUnchanged(mine, theirs, df.View(), theirs.words.Keys - rest, word);
        if TotalIsSum(df.View()) { FeedKeepsTotal(df.View(), word, ToInt(other.df.words[word])); }
        AddedStep(mine, theirs, df.View(), theirs.words.Keys - rest, word);
        assert theirs.words.Keys - (rest - {word}) == (theirs.words.Keys - rest) + {word};
        df.FeedWord(word, ToInt(other.df.words[word]));
        rest := rest - {word};
      }
      assert theirs.words.Keys - rest == theirs.words.Keys;
    }

    method FeedWordForOneFile(word: string)
      modifies this`unique
      ensures unique == old(unique) + {word}
    {
      unique := unique + {word};
    }

    method UpdateCollectedDf()
      modifies this`unique, df
      ensures unique == {}
      ensures CountedOnce(old(df.View()), df.View(), old(unique))
      ensures old(TotalIsSum(df.View())) ==> TotalIsSum(df.View())
    {
      hide CountedOnce;
      hide TotalIsSum;
      hide Fed;
      CountedNothing(df.View());
      var rest := unique;
      assert unique - rest == {};
      while rest != {}
        invariant rest <= unique == old(unique)
        invariant CountedOnce(old(df.View()), df.View(), unique - rest)
        invariant old(TotalIsSum(df.View())) ==> TotalIsSum(df.View())
      {
        var word := Pick(rest);
        if TotalIsSum(df.View()) { FeedKeepsTotal(df.View(), word, 1); }
        CountedOnceStep(old(df.View()), df.View(), unique - rest, word);
        assert unique - (rest - {word}) == (unique - rest) + {word};
        df.FeedWord(word, 1);
        rest := rest - {word};
      }
      assert unique - rest == unique;
      unique := {};
    }

    /** parser::update_tfidf for the words of one document, also counted in `tf`. */
    method UpdateTfidf(words: seq<string>, tf: Tf)
      requires unique == {} && tf != df
      modifies this`unique, df, tf
      ensures unique == {}
      ensures CountedOnce(old(df.View()), df.View(), set w | w in words)
      ensures CountedEach(old(tf.View()), tf.View(), words)
      ensures old(TotalIsSum(df.View())) ==> TotalIsSum(df.View())
    {
      hide TotalIsSum;
      hide CountedOnce;
      hide CountedEach;
      hide Fed;
      CountedEachNothing(tf.View());
      for i := 0 to |words|
        invariant unique == set w | w in words[..i]
        invariant df.View() == old(df.View())
        invariant CountedEach(old(tf.View()), tf.View(), words[..i])
      {
        assert words[..i + 1] == words[..i] + [words[i]];
        CountedEachStep(old(tf.View()), tf.View(), words[..i], words[i]);
        FeedWordForOneFile(words[i]);
        tf.FeedWord(words[i], 1);
      }
      assert words[..|words|] == words;
      UpdateCollectedDf();
    }
  }
}
