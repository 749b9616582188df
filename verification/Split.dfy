/** The positional index builder of include/wookie/split.hpp. Word segmentation and
    lower-casing are a parameter: the input is the sequence of lower-cased words. */
module Split {

  /** Token to the positions where it stands, in increasing order (mpos_t). */
  type PositionMap = map<string, seq<int>>

  ghost predicate Distinct<T>(s: seq<T>) {
    forall i, j :: 0 <= i < j < |s| ==> s[i] != s[j]
  }

  function Positions<T(==)>(words: seq<T>, token: T): (r: seq<int>) {
    if words == [] then [] else
    var n := |words| - 1;
    Positions(words[..n], token) + if words[n] == token then [n] else []
  }

  /** The words in order of first occurrence, each once. */
  function Vocabulary(words: seq<string>): (r: seq<string>) {
    if words == [] then [] else
    var n := |words| - 1;
    Vocabulary(words[..n]) + if words[n] in words[..n] then [] else [words[n]]
  }

  ghost function Index(words: seq<string>): PositionMap {
    map token | token in words :: Positions(words, token)
  }

  /** split::feed. `tokens` is the caller's vector, to which new tokens are appended. */
  method Feed(words: seq<string>, tokens: seq<string>) returns (mpos: PositionMap, all: seq<string>)
    ensures mpos == Index(words)
    ensures all == tokens + Vocabulary(words)
  {
    mpos, all := map[], tokens;
    var pos := 0;
    while pos < |words|
      invariant 0 <= pos <= |words|
      invariant mpos == Index(words[..pos])
      invariant all == tokens + Vocabulary(words[..pos])
    {
      ghost var before := words[..pos];
      ghost var after := words[..pos + 1];
      assert after[..pos] == before && after == before + [words[pos]];
      var token := words[pos];
      if token in mpos {
        mpos := mpos[token := mpos[token] + [pos]];
      } else {
        mpos := mpos[token := [pos]];
        all := all + [token];
      }
      IndexGrows(before, token);
      pos := pos + 1;
    }
    assert words[..pos] == words;
  }

  lemma IndexGrows(words: seq<string>, token: string)
    ensures Index(words + [token]) ==
            Index(words)[token := if token in words then Index(words)[token] + [|words|] else [|words|]]
  {
    var longer := words + [token];
    assert longer[..|words|] == words;
    if token !in words { AbsentHasNoPositions(words, token); }
    var expected := Index(words)[token := if token in words then Index(words)[token] + [|words|] else [|words|]];
    assert longer[|words|] == token;
    assert Index(longer).Keys == expected.Keys;
    forall t | t in expected ensures Index(longer)[t] == expected[t] {
      assert Positions(longer, t) == Positions(words, t) + if t == token then [|words|] else [];
    }
  }

  lemma {:induction false} AbsentHasNoPositions<T>(words: seq<T>, token: T)
    requires token !in words
    ensures Positions(words, token) == []
  {
    if words != [] { AbsentHasNoPositions(words[..|words| - 1], token); }
  }

  /** A position list holds exactly the token's positions, in increasing order. */
  lemma {:induction false} PositionsExact<T>(words: seq<T>, token: T)
    ensures forall p :: p in Positions(words, token) <==> 0 <= p < |words| && words[p] == token
    ensures forall i, j :: 0 <= i < j < |Positions(words, token)| ==>
            Positions(words, token)[i] < Positions(words, token)[j]
  {
    if words != [] {
      var n := |words| - 1;
      PositionsExact(words[..n], token);
      var init := Positions(words[..n], token);
      forall i | 0 <= i < |init| ensures init[i] < n { assert init[i] in init; }
    }
  }

  ghost predicate FirstAt(words: seq<string>, token: string, p: int) {
    0 <= p < |words| && words[p] == token && token !in words[..p]
  }

  /** The token list never repeats a token, lists exactly the words of the text, and
      orders them by first occurrence. */
  lemma {:induction false} VocabularyExact(words: seq<string>)
    ensures Distinct(Vocabulary(words))
    ensures forall t :: t in Vocabulary(words) <==> t in words
    ensures forall i, j, p, q ::
              && 0 <= i < j < |Vocabulary(words)|
              && FirstAt(words, Vocabulary(words)[i], p) && FirstAt(words, Vocabulary(words)[j], q)
              ==> p < q
  {
    if words != [] {
      var n := |words| - 1;
      var init := words[..n];
      VocabularyExact(init);
      assert words == init + [words[n]];
      var v, v0 := Vocabulary(words), Vocabulary(init);
      forall i, j, p, q | 0 <= i < j < |v| && FirstAt(words, v[i], p) && FirstAt(words, v[j], q)
        ensures p < q
      {
        assert v[i] in v0;
        assert v[i] in words[..n];
        assert p < n;
        assert init[..p] == words[..p];
        assert FirstAt(init, v[i], p);
        if q < n {
          assert init[..q] == words[..q];
          assert FirstAt(init, v[j], q);
          assert v[j] in init;
          assert j < |v0|;
        }
      }
    }
  }

  /** Without a repeated word, the token list is the text itself. */
  lemma {:induction false} DistinctTextIsItsVocabulary(words: seq<string>)
    requires Distinct(words)
    ensures Vocabulary(words) == words
  {
    if words != [] {
      var n := |words| - 1;
      DistinctTextIsItsVocabulary(words[..n]);
      assert words[n] !in words[..n];
    }
  }

  /** Every position belongs to the list of exactly one token. */
  lemma IndexPartitionsPositions(words: seq<string>, p: int)
    ensures 0 <= p < |words| ==> words[p] in Index(words) && p in Index(words)[words[p]]
    ensures forall t :: t in Index(words) && p in Index(words)[t] ==> 0 <= p < |words| && words[p] == t
  {
    forall t { PositionsExact(words, t); }
  }

  /** The index is lossless: two texts with the same index are the same text. */
  lemma IndexIsLossless(a: seq<string>, b: seq<string>)
    requires Index(a) == Index(b)
    ensures a == b
  {
    IndexPartitionsPositions(a, |a|);
    IndexPartitionsPositions(b, |a|);
    IndexPartitionsPositions(a, |b|);
    IndexPartitionsPositions(b, |b|);
    assert |a| == |b|;
    forall p | 0 <= p < |a| ensures a[p] == b[p] {
      IndexPartitionsPositions(a, p);
      IndexPartitionsPositions(b, p);
    }
  }
}
