/** Counting document frequencies with several threads, each taking every cpunum-th
    document, and merging the tables (test/similarity/elliptics_parse_docs.cpp). */
module Sharding {
  import opened Tfidf

  /** A document file: its words, which are counted whatever happens to it afterwards, or
      the exception that reading it throws. */
  datatype Doc = Loaded(words: seq<string>) | Failed

  predicate Mentions(doc: Doc, word: string) {
    doc.Loaded? && word in doc.words
  }

  /** Number of documents that contain the word. */
  function DocFreq(docs: seq<Doc>, word: string): nat {
    if docs == [] then 0 else
    var n := |docs| - 1;
    DocFreq(docs[..n], word) + if Mentions(docs[n], word) then 1 else 0
  }

  lemma {:induction false} DocFreqCounts(docs: seq<Doc>, word: string)
    ensures DocFreq(docs, word) == |set i | 0 <= i < |docs| && docs[i].Loaded? && word in docs[i].words|
  {
    if docs != [] {
      var n := |docs| - 1;
      var init := docs[..n];
      DocFreqCounts(init, word);
      var before := set i | 0 <= i < n && init[i].Loaded? && word in init[i].words;
      var after := set i | 0 <= i < |docs| && docs[i].Loaded? && word in docs[i].words;
      assert after == if Mentions(docs[n], word) then before + {n} else before;
    }
  }

  /** The same for the documents number id, id + step, id + 2 * step, ... */
  function ShardFreq(docs: seq<Doc>, id: nat, step: nat, word: string): nat
    requires step > 0
  {
    if docs == [] then 0 else
    var n := |docs| - 1;
    ShardFreq(docs[..n], id, step, word) + if n % step == id && Mentions(docs[n], word) then 1 else 0
  }

  lemma {:induction false} ShardFreqCounts(docs: seq<Doc>, id: nat, step: nat, word: string)
    requires step > 0
    ensures ShardFreq(docs, id, step, word) ==
            |set i | 0 <= i < |docs| && i % step == id && docs[i].Loaded? && word in docs[i].words|
  {
    if docs != [] {
      var n := |docs| - 1;
      var init := docs[..n];
      ShardFreqCounts(init, id, step, word);
      var before := set i | 0 <= i < n && i % step == id && init[i].Loaded? && word in init[i].words;
      var after := set i | 0 <= i < |docs| && i % step == id && docs[i].Loaded? && word in docs[i].words;
      assert after == if n % step == id && Mentions(docs[n], word) then before + {n} else before;
    }
  }

  function SumOfShards(docs: seq<Doc>, ids: nat, step: nat, word: string): nat
    requires step > 0
  {
    if ids == 0 then 0 else SumOfShards(docs, ids - 1, step, word) + ShardFreq(docs, ids - 1, step, word)
  }

  lemma {:induction false} ShardsGrow(docs: seq<Doc>, ids: nat, step: nat, word: string)
    requires docs != [] && step > 0
    ensures var n := |docs| - 1;
            SumOfShards(docs, ids, step, word) ==
            SumOfShards(docs[..n], ids, step, word) + if n % step < ids && Mentions(docs[n], word) then 1 else 0
    decreases ids
  {
    if ids > 0 { ShardsGrow(docs, ids - 1, step, word); }
  }

  lemma {:induction false} NoDocuments(ids: nat, step: nat, word: string)
    requires step > 0
    ensures SumOfShards([], ids, step, word) == 0
    decreases ids
  {
    if ids > 0 { NoDocuments(ids - 1, step, word); }
  }

  /** The strided loops together visit every document exactly once. */
  lemma {:induction false} ShardsPartition(docs: seq<Doc>, step: nat, word: string)
    requires step > 0
    ensures SumOfShards(docs, step, step, word) == DocFreq(docs, word)
    decreases |docs|
  {
    if docs == [] {
      NoDocuments(step, step, word);
    } else {
      ShardsPartition(docs[..|docs| - 1], step, word);
      ShardsGrow(docs, step, step, word);
    }
  }

  lemma {:induction false} ShardFreqBound(docs: seq<Doc>, id: nat, step: nat, word: string)
    requires step > 0
    ensures ShardFreq(docs, id, step, word) <= |docs|
    decreases |docs|
  {
    if docs != [] { ShardFreqBound(docs[..|docs| - 1], id, step, word); }
  }

  /** Documents in front of the next stride do not change the frequency of the shard. */
  lemma {:induction false} StrideSkips(docs: seq<Doc>, id: nat, step: nat, word: string, from: nat, end: nat)
    requires step > 0 && from <= end <= |docs|
    requires forall i :: from <= i < end ==> i % step != id
    ensures ShardFreq(docs[..from], id, step, word) == ShardFreq(docs[..end], id, step, word)
    decreases end
  {
    if from < end {
      StrideSkips(docs, id, step, word, from, end - 1);
      assert docs[..end][..end - 1] == docs[..end - 1];
    }
  }

  lemma StrideStep(i: nat, id: nat, step: nat, j: nat)
    requires id < step && i % step == id
    requires i < j < i + step
    ensures j % step != id
  {
    assert i == step * (i / step) + id;
    var d := j - i;
    if id + d < step {
      assert j == step * (i / step) + (id + d);
      Remainder(step, i / step, id + d);
    } else {
      assert step * (i / step + 1) == step * (i / step) + step;
      Remainder(step, i / step + 1, id + d - step);
    }
  }

  lemma Remainder(step: nat, q: int, r: nat)
    requires r < step && q >= 0
    ensures (step * q + r) % step == r
  {
    var n := step * q + r;
    assert n == step * (n / step) + n % step;
    var k := n / step - q;
    assert step * k == step * (n / step) - step * q;
    assert step * k == r - n % step;
  }

  ghost predicate CountsShard(t: Table, docs: seq<Doc>, id: nat, step: nat)
    requires step > 0
  {
    TotalIsSum(t) && forall w :: Count(t, w) == ShardFreq(docs, id, step, w)
  }

  lemma WrapKeeps(n: nat)
    ensures n < SIZE ==> Wrap(n) == n
  {
  }

  /** One document more in the table of its shard. */
  lemma {:induction false} ShardCounted(before: Table, after: Table, docs: seq<Doc>, i: nat, id: nat, step: nat)
    requires step > 0 && i < |docs| < SIZE && i % step == id
    requires CountsShard(before, docs[..i], id, step) && TotalIsSum(after)
    requires if docs[i].Loaded? then CountedOnce(before, after, set w | w in docs[i].words) else after == before
    ensures CountsShard(after, docs[..i + 1], id, step)
  {
    hide TotalIsSum;
    hide Wrap;
    assert docs[..i + 1][..i] == docs[..i];
    forall w ensures Count(after, w) == ShardFreq(docs[..i + 1], id, step, w) {
      ShardFreqBound(docs[..i], id, step, w);
      WrapKeeps(Count(before, w) + 1);
    }
  }

  /** The number of documents in front of position i. */
  function Seen(docs: seq<Doc>, i: nat): (n: nat)
    ensures n <= |docs|
  {
    if i <= |docs| then i else |docs|
  }

  /** Nothing of the shard lies between two strides. */
  lemma {:induction false} NextStride(t: Table, docs: seq<Doc>, i: nat, id: nat, step: nat)
    requires id < step && i < |docs| && i % step == id
    requires CountsShard(t, docs[..i + 1], id, step)
    ensures (i + step) % step == id && CountsShard(t, docs[..Seen(docs, i + step)], id, step)
  {
    hide CountsShard;
    StrideWraps(i, id, step);
    forall j | i + 1 <= j < Seen(docs, i + step) ensures j % step != id { StrideStep(i, id, step, j); }
    ShardUnchanged(t, docs, id, step, i + 1, Seen(docs, i + step));
  }

  method LoadDocument(table: TfIdf, doc: Doc)
    requires table.unique == {}
    modifies table`unique, table.df
    ensures table.unique == {} && (old(TotalIsSum(table.df.View())) ==> TotalIsSum(table.df.View()))
    ensures if doc.Loaded? then CountedOnce(old(table.df.View()), table.df.View(), set w | w in doc.words)
            else table.df.View() == old(table.df.View())
  {
    hide TotalIsSum;
    hide CountedOnce;
    if doc.Loaded? {
      var tf := new Tf();
      table.UpdateTfidf(doc.words, tf);
    }
  }

  /** loader::load_documents: the loop of one thread over its documents. */
  method LoadDocuments(docs: seq<Doc>, id: nat, step: nat) returns (table: TfIdf)
    requires id < step && |docs| < SIZE
    ensures fresh(table) && fresh(table.df)
    ensures CountsShard(table.df.View(), docs, id, step)
  {
    hide TotalIsSum;
    hide CountedOnce;
    hide CountsShard;
    table := new TfIdf();
    NothingCounted(docs, id, step);
    var i := id;
    while i < |docs|
      invariant fresh(table) && fresh(table.df) && table.unique == {}
      invariant i % step == id && CountsShard(table.df.View(), docs[..Seen(docs, i)], id, step)
    {
      ghost var before := table.df.View();
      CountsShardTotal(before, docs[..i], id, step);
      LoadDocument(table, docs[i]);
      ShardCounted(before, table.df.View(), docs, i, id, step);
      NextStride(table.df.View(), docs, i, id, step);
      i := i + step;
    }
    assert docs[..|docs|] == docs;
  }

  lemma StrideWraps(i: nat, id: nat, step: nat)
    requires id < step && i % step == id
    ensures (i + step) % step == id
  {
    assert i == step * (i / step) + id;
    assert step * (i / step + 1) == step * (i / step) + step;
    Remainder(step, i / step + 1, id);
  }

  lemma CountsShardTotal(t: Table, docs: seq<Doc>, id: nat, step: nat)
    requires step > 0 && CountsShard(t, docs, id, step)
    ensures TotalIsSum(t)
  {
  }

  lemma {:induction false} ShardUnchanged(t: Table, docs: seq<Doc>, id: nat, step: nat, from: nat, end: nat)
    requires step > 0 && from <= end <= |docs| && CountsShard(t, docs[..from], id, step)
    requires forall i :: from <= i < end ==> i % step != id
    ensures CountsShard(t, docs[..end], id, step)
  {
    forall w ensures Count(t, w) == ShardFreq(docs[..end], id, step, w) {
      StrideSkips(docs, id, step, w, from, end);
    }
  }

  lemma {:induction false} NothingCounted(docs: seq<Doc>, id: nat, step: nat)
    requires id < step
    ensures TotalIsSum(Table(map[], 0))
    ensures CountsShard(Table(map[], 0), docs[..Seen(docs, id)], id, step)
  {
    var n := Seen(docs, id);
    var t := Table(map[], 0);
    assert t.words.Keys == {};
    assert docs[..0] == [];
    forall w ensures ShardFreq(docs[..n], id, step, w) == 0 {
      forall i | 0 <= i < n ensures i % step != id {}
      StrideSkips(docs, id, step, w, 0, n);
    }
  }

  /** What merging tables one after another gives: each count passes through an int. */
  function MergedCount(docs: seq<Doc>, ids: nat, step: nat, word: string): int
    requires step > 0
  {
    if ids == 0 then 0 else MergedCount(docs, ids - 1, step, word) + ToInt(ShardFreq(docs, ids - 1, step, word))
  }

  ghost predicate CountsMerged(t: Table, docs: seq<Doc>, ids: nat, step: nat)
    requires step > 0
  {
    TotalIsSum(t) && forall w :: Count(t, w) == Wrap(MergedCount(docs, ids, step, w))
  }

  lemma {:induction false} ShardMerged(before: Table, shard: Table, after: Table, docs: seq<Doc>, ids: nat, step: nat)
    requires step > 0 && CountsMerged(before, docs, ids, step) && CountsShard(shard, docs, ids, step)
    requires Added(before, shard, after, shard.words.Keys) && TotalIsSum(after)
    ensures CountsMerged(after, docs, ids + 1, step)
  {
    hide TotalIsSum;
    hide Wrap;
    forall w ensures Count(after, w) == Wrap(MergedCount(docs, ids + 1, step, w)) {
      WrapAdds(MergedCount(docs, ids, step, w), ToInt(Count(shard, w)));
    }
  }

  /** loader::add_documents: one table per thread, joined and merged in order. */
  method AddDocuments(docs: seq<Doc>, cpunum: nat) returns (df: TfIdf)
    requires 0 < cpunum && |docs| < SIZE
    ensures CountsMerged(df.df.View(), docs, cpunum, cpunum)
  {
    hide TotalIsSum;
    hide Added;
    hide CountsShard;
    df := new TfIdf();
    assert CountsMerged(df.df.View(), docs, 0, cpunum) by {
      NothingCounted(docs, 0, cpunum);
    }
    hide CountsMerged;
    var i := 0;
    while i < cpunum
      invariant 0 <= i <= cpunum && fresh(df) && fresh(df.df)
      invariant CountsMerged(df.df.View(), docs, i, cpunum)
    {
      var shard := LoadDocuments(docs, i, cpunum);
      ghost var before := df.df.View();
      CountsMergedTotal(before, docs, i, cpunum);
      df.Merge(shard);
      ShardMerged(before, shard.df.View(), df.df.View(), docs, i, cpunum);
      i := i + 1;
    }
  }

  lemma CountsMergedTotal(t: Table, docs: seq<Doc>, ids: nat, step: nat)
    requires step > 0 && CountsMerged(t, docs, ids, step)
    ensures TotalIsSum(t)
  {
  }

  lemma {:induction false} MergedBelow(docs: seq<Doc>, ids: nat, step: nat, word: string)
    requires step > 0
    ensures MergedCount(docs, ids, step, word) <= SumOfShards(docs, ids, step, word)
    ensures 0 <= MergedCount(docs, ids, step, word) + ids * INT_LIMIT
    decreases ids
  {
    if ids > 0 {
      MergedBelow(docs, ids - 1, step, word);
      ToIntExact(ShardFreq(docs, ids - 1, step, word));
      assert ids * INT_LIMIT == (ids - 1) * INT_LIMIT + INT_LIMIT;
    }
  }

  ghost predicate CountsFit(docs: seq<Doc>, ids: nat, step: nat, word: string)
    requires step > 0
  {
    forall id: nat :: id < ids ==> ShardFreq(docs, id, step, word) < INT_LIMIT
  }

  lemma {:induction false} MergedExactIff(docs: seq<Doc>, ids: nat, step: nat, word: string)
    requires step > 0
    ensures MergedCount(docs, ids, step, word) == SumOfShards(docs, ids, step, word) <==>
            CountsFit(docs, ids, step, word)
    decreases ids
  {
    if ids > 0 {
      MergedExactIff(docs, ids - 1, step, word);
      MergedBelow(docs, ids - 1, step, word);
      var f := ShardFreq(docs, ids - 1, step, word);
      ToIntExact(f);
      hide ToInt;
      hide ShardFreq;
      assert CountsFit(docs, ids, step, word) <==> CountsFit(docs, ids - 1, step, word) && f < INT_LIMIT by {
        if CountsFit(docs, ids - 1, step, word) && f < INT_LIMIT {
          forall id: nat | id < ids ensures ShardFreq(docs, id, step, word) < INT_LIMIT {
            assert id == ids - 1 || id < ids - 1;
          }
        }
      }
    }
  }

  lemma ToIntExact(n: nat)
    ensures ToInt(n) <= n && -INT_LIMIT <= ToInt(n) && (ToInt(n) == n <==> n < INT_LIMIT)
  {
  }

  lemma {:induction false} DocFreqBound(docs: seq<Doc>, word: string)
    ensures DocFreq(docs, word) <= |docs|
  {
    if docs != [] { DocFreqBound(docs[..|docs| - 1], word); }
  }

  lemma WrapIsExactIff(merged: int, sum: nat)
    requires merged <= sum && sum - merged < SIZE && sum < SIZE
    ensures Wrap(merged) == sum <==> merged == sum
  {
  }

  /** The merged table agrees with counting all documents one after another exactly for the
      words that no single thread has counted 2^31 times: merging narrows counts to int. */
  lemma {:induction false} ShardedIsSequentialIff(t: Table, docs: seq<Doc>, cpunum: nat, word: string)
    requires 0 < cpunum < INT_LIMIT && |docs| < SIZE / 2
    requires CountsMerged(t, docs, cpunum, cpunum)
    ensures Count(t, word) == DocFreq(docs, word) <==>
            CountsFit(docs, cpunum, cpunum, word)
  {
    ShardsPartition(docs, cpunum, word);
    DocFreqBound(docs, word);
    MergedBelow(docs, cpunum, cpunum, word);
    MergedExactIff(docs, cpunum, cpunum, word);
    assert cpunum * INT_LIMIT < INT_LIMIT * INT_LIMIT;
    WrapIsExactIff(MergedCount(docs, cpunum, cpunum, word), DocFreq(docs, word));
  }

  /** In particular it agrees whenever there are fewer than 2^31 documents. */
  lemma {:induction false} ShardedIsSequential(t: Table, docs: seq<Doc>, cpunum: nat, word: string)
    requires 0 < cpunum < INT_LIMIT && |docs| < INT_LIMIT
    requires CountsMerged(t, docs, cpunum, cpunum)
    ensures Count(t, word) == DocFreq(docs, word)
  {
    forall id: nat | id < cpunum ensures ShardFreq(docs, id, cpunum, word) < INT_LIMIT {
      ShardFreqBound(docs, id, cpunum, word);
    }
    ShardedIsSequentialIff(t, docs, cpunum, word);
  }
}
