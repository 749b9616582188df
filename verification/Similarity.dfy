/** The features of a pair of documents (test/similarity/similarity.hpp): intersections of
    sorted n-gram vectors. */
module Similarity {
  import opened Ordered
  import opened NGrams
  import Tfidf

  ghost predicate Sorted(s: seq<int>) { forall i, j :: 0 <= i < j < |s| ==> s[i] <= s[j] }

  /** Every value kept so far is at most every value still to come. */
  ghost predicate Below(kept: seq<int>, rest: seq<int>) {
    forall i, j :: 0 <= i < |kept| && 0 <= j < |rest| ==> kept[i] <= rest[j]
  }

  /** What is kept and what the rests still have in common make up the whole intersection. */
  ghost predicate Partial(kept: seq<int>, f: seq<int>, s: seq<int>, all: multiset<int>) {
    && Sorted(kept) && Sorted(f) && Sorted(s) && Below(kept, f) && Below(kept, s)
    && multiset(kept) + multiset(f) * multiset(s) == all
  }

  /** The same with both inputs read up to an index. */
  ghost predicate Reached(kept: seq<int>, f: seq<int>, i: nat, s: seq<int>, j: nat) {
    i <= |f| && j <= |s| && Partial(kept, f[i..], s[j..], Shared(f, s))
  }

  lemma Start(f: seq<int>, s: seq<int>)
    requires Sorted(f) && Sorted(s)
    ensures Reached([], f, 0, s, 0)
  {
    assert f[0..] == f && s[0..] == s;
  }

  lemma Step(kept: seq<int>, f: seq<int>, i: nat, s: seq<int>, j: nat)
    requires Reached(kept, f, i, s, j) && i < |f| && j < |s|
    ensures f[i] < s[j] ==> Reached(kept, f, i + 1, s, j)
    ensures s[j] < f[i] ==> Reached(kept, f, i, s, j + 1)
    ensures f[i] == s[j] ==> Reached(kept + [f[i]], f, i + 1, s, j + 1)
  {
    var f', s', all := f[i..], s[j..], Shared(f, s);
    assert f'[1..] == f[i + 1..] && s'[1..] == s[j + 1..];
    hide Partial;
    if f[i] < s[j] {
      SkipFirst(kept, f', s', all);
    } else if s[j] < f[i] {
      SkipSecond(kept, f', s', all);
    } else {
      KeepBoth(kept, f', s', all);
    }
  }

  lemma Finish(kept: seq<int>, f: seq<int>, i: nat, s: seq<int>, j: nat)
    requires Reached(kept, f, i, s, j) && (i == |f| || j == |s|)
    ensures Sorted(kept) && multiset(kept) == Shared(f, s)
  {
    assert multiset(f[i..]) * multiset(s[j..]) == multiset{};
  }

  lemma SkipFirst(kept: seq<int>, f: seq<int>, s: seq<int>, all: multiset<int>)
    requires Partial(kept, f, s, all) && f != [] && s != [] && f[0] < s[0]
    ensures Partial(kept, f[1..], s, all)
  {
    SkipHead(f, s);
  }

  lemma SkipSecond(kept: seq<int>, f: seq<int>, s: seq<int>, all: multiset<int>)
    requires Partial(kept, f, s, all) && f != [] && s != [] && s[0] < f[0]
    ensures Partial(kept, f, s[1..], all)
  {
    SkipHead(s, f);
    assert multiset(f) * multiset(s) == multiset(s) * multiset(f);
    assert multiset(f) * multiset(s[1..]) == multiset(s[1..]) * multiset(f);
  }

  lemma SkipHead(low: seq<int>, high: seq<int>)
    requires low != [] && high != [] && Sorted(high) && low[0] < high[0]
    ensures multiset(low) * multiset(high) == multiset(low[1..]) * multiset(high)
  {
    assert low == [low[0]] + low[1..];
    assert low[0] !in high;
  }

  lemma KeepBoth(kept: seq<int>, f: seq<int>, s: seq<int>, all: multiset<int>)
    requires Partial(kept, f, s, all) && f != [] && s != [] && f[0] == s[0]
    ensures Partial(kept + [f[0]], f[1..], s[1..], all)
  {
    KeptStaysBelow(kept, f, s);
    hide Sorted;
    hide Below;
    assert f == [f[0]] + f[1..] && s == [s[0]] + s[1..];
    TakeOut(f[0], multiset(f[1..]), multiset(s[1..]));
    assert multiset(kept + [f[0]]) == multiset(kept) + multiset{f[0]};
  }

  lemma KeptStaysBelow(kept: seq<int>, f: seq<int>, s: seq<int>)
    requires Sorted(kept) && Sorted(f) && Sorted(s) && Below(kept, f) && Below(kept, s)
    requires f != [] && s != [] && f[0] == s[0]
    ensures Sorted(kept + [f[0]]) && Sorted(f[1..]) && Sorted(s[1..])
    ensures Below(kept + [f[0]], f[1..]) && Below(kept + [f[0]], s[1..])
  {
  }

  lemma TakeOut(x: int, f: multiset<int>, s: multiset<int>)
    ensures (multiset{x} + f) * (multiset{x} + s) == multiset{x} + f * s
  {
  }

  /** Of every value as many copies as both have. */
  ghost function Shared(f: seq<int>, s: seq<int>): multiset<int> { multiset(f) * multiset(s) }

  /** std::set_intersection into a buffer of the smaller size, which never overflows. */
  method Intersect(f: seq<int>, s: seq<int>) returns (r: seq<int>)
    requires Sorted(f) && Sorted(s)
    ensures Sorted(r) && multiset(r) == Shared(f, s)
  {
    hide *;
    Start(f, s);
    if |f| == 0 || |s| == 0 {
      Finish([], f, 0, s, 0);
      return [];
    }
    var tmp := new int[if |f| < |s| then |f| else |s|](_ => 0);
    var i, j, inter := 0, 0, 0;
    assert tmp[..inter] == [];
    while i != |f| && j != |s|
      invariant 0 <= inter <= i <= |f| && inter <= j <= |s|
      invariant Reached(tmp[..inter], f, i, s, j)
      decreases |f| - i + |s| - j
    {
      ghost var kept := tmp[..inter];
      Step(kept, f, i, s, j);
      if f[i] < s[j] {
        i := i + 1;
      } else if s[j] < f[i] {
        j := j + 1;
      } else {
        tmp[inter] := f[i];
        assert tmp[..inter + 1] == kept + [f[i]];
        inter, i, j := inter + 1, i + 1, j + 1;
      }
    }
    Finish(tmp[..inter], f, i, s, j);
    r := tmp[..inter];
  }

  /** Of two strictly sorted vectors the result is the sorted vector of their common
      elements, so it can be intersected again. */
  lemma IntersectionOfSets(a: set<int>, b: set<int>, r: seq<int>)
    requires Sorted(r) && multiset(r) == Shared(Ascending(a), Ascending(b))
    ensures r == Ascending(a * b)
  {
    AscendingHolds(a);
    AscendingHolds(b);
    hide Ascending;
    assert multiset(r) == multiset(a * b);
    hide Shared;
    SetLike(r, a * b);
  }

  lemma SetLike(r: seq<int>, c: set<int>)
    requires Sorted(r) && multiset(r) == multiset(c)
    ensures r == Ascending(c)
  {
    hide Ascending;
    forall i, j | 0 <= i < j < |r| ensures r[i] < r[j] {
      if r[i] == r[j] { TwoCopies(r, i, j); }
    }
    assert forall x :: x in r <==> x in multiset(r);
    SortedIsUnique(r, Ascending(c));
  }

  lemma TwoCopies(r: seq<int>, i: nat, j: nat)
    requires i < j < |r| && r[i] == r[j]
    ensures multiset(r)[r[i]] >= 2
  {
    assert r == r[..j] + r[j..];
    assert r[i] in r[..j] && r[j] in r[j..];
  }

  lemma PutBack(s: set<int>, m: int)
    requires m in s
    ensures multiset(s) == multiset{m} + multiset(s - {m})
  {
  }

  lemma {:induction false} AscendingHolds(s: set<int>)
    ensures multiset(Ascending(s)) == multiset(s)
  {
    if s != {} {
      var m := Minimum(s);
      var rest := s - {m};
      AscendingHolds(rest);
      assert Ascending(s) == [m] + Ascending(rest);
      hide *;
      PutBack(s, m);
    }
  }

  datatype Simdoc = Simdoc(id: int, name: string, text: string, ngrams: seq<int>)

  class LearnElement {
    var docIds: seq<int>
    var request: string
    var reqNgrams: seq<int>
    var docLabel: int
    var valid: bool
    var features: seq<int>

    constructor ()
      ensures docLabel == -1 && !valid && features == [] && reqNgrams == []
      ensures docIds == [] && request == ""
    {
      docIds, request := [], "";
      docLabel, valid, features, reqNgrams := -1, false, [], [];
    }

    /** Sizes are narrowed to int. A document without n-grams leaves everything as it was. */
    method GenerateFeatures(d1: Simdoc, d2: Simdoc) returns (ok: bool)
      requires Sorted(d1.ngrams) && Sorted(d2.ngrams) && Sorted(reqNgrams)
      modifies this`features, this`valid
      ensures ok == (d1.ngrams != [] && d2.ngrams != [])
      ensures valid == (ok || old(valid))
      ensures features == old(features) + if ok then FeaturesOf(d1.ngrams, d2.ngrams, reqNgrams) else []
    {
      var f, s := d1.ngrams, d2.ngrams;
      if |f| == 0 || |s| == 0 {
        return false;
      }
      features := features + [Tfidf.ToInt(|f|)];
      features := features + [Tfidf.ToInt(|s|)];
      var inter := Intersect(f, s);
      features := features + [Tfidf.ToInt(|inter|)];
      features := features + [Tfidf.ToInt(|reqNgrams|)];
      var both := Intersect(inter, reqNgrams);
      features := features + [Tfidf.ToInt(|both|)];
      SameSize(inter, multiset(f) * multiset(s));
      SameSize(both, multiset(f) * multiset(s) * multiset(reqNgrams));
      valid := true;
      return true;
    }
  }

  ghost function FeaturesOf(f: seq<int>, s: seq<int>, r: seq<int>): seq<int> {
    [Tfidf.ToInt(|f|), Tfidf.ToInt(|s|), Tfidf.ToInt(|multiset(f) * multiset(s)|),
     Tfidf.ToInt(|r|), Tfidf.ToInt(|multiset(f) * multiset(s) * multiset(r)|)]
  }

  lemma SameSize(r: seq<int>, m: multiset<int>)
    requires multiset(r) == m
    ensures |r| == |m|
  {
  }

  /** End to end: for two texts and a request whose windows are packed faithfully, and
      with fewer n-grams than an int counts, the five features are the numbers of
      different four-character windows of each and in common. */
  lemma FeaturesCountWindows(a: seq<Bytes>, b: seq<Bytes>, q: seq<Bytes>)
    requires AllFaithful(Windows(a)) && AllFaithful(Windows(b)) && AllFaithful(Windows(q))
    requires |Windows(a)| < Tfidf.INT_LIMIT && |Windows(b)| < Tfidf.INT_LIMIT && |Windows(q)| < Tfidf.INT_LIMIT
    ensures FeaturesOf(Ascending(Packs(Windows(a))), Ascending(Packs(Windows(b))), Ascending(Packs(Windows(q)))) ==
            [|Windows(a)|, |Windows(b)|, |Windows(a) * Windows(b)|, |Windows(q)|,
              |Windows(a) * Windows(b) * Windows(q)|]
  {
    hide Windows;
    FeaturesCountSets(Windows(a), Windows(b), Windows(q));
  }

  lemma FeaturesCountSets(v: set<Bytes>, w: set<Bytes>, u: set<Bytes>)
    requires AllFaithful(v) && AllFaithful(w) && AllFaithful(u)
    requires |v| < Tfidf.INT_LIMIT && |w| < Tfidf.INT_LIMIT && |u| < Tfidf.INT_LIMIT
    ensures FeaturesOf(Ascending(Packs(v)), Ascending(Packs(w)), Ascending(Packs(u))) ==
            [|v|, |w|, |v * w|, |u|, |v * w * u|]
  {
    hide Packs;
    hide Ascending;
    PacksCount(v);
    PacksCount(w);
    PacksCount(u);
    Common(v, w);
    Common(v * w, u);
    AscendingHolds(Packs(u));
    AscendingHolds(Packs(v));
    AscendingHolds(Packs(w));
    hide AllFaithful;
  }

  lemma Common(v: set<Bytes>, w: set<Bytes>)
    requires AllFaithful(v) && AllFaithful(w)
    ensures AllFaithful(v * w) && |v * w| <= |v|
    ensures multiset(Packs(v)) * multiset(Packs(w)) == multiset(Packs(v * w))
    ensures |multiset(Packs(v * w))| == |v * w|
  {
    PacksMeet(v, w);
    hide Packs;
    PacksCount(v * w);
    assert multiset(Packs(v)) * multiset(Packs(w)) == multiset(Packs(v) * Packs(w));
    assert v == v * w + (v - w);
    assert |v| == |v * w| + |v - w|;
  }
}
