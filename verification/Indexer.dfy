/** basic_elliptics_splitter::prepare_indexes (lib/basic_elliptics_splitter.cpp): which
    index names a document is filed under, and what is stored under each. */
module Indexer {
  import opened Documents
  import opened Ordered
  import opened Split

  /** One object per name: the token's position list in the document. */
  ghost function TokenObjects(ts: int, names: seq<string>, words: seq<string>): (r: seq<Packed>)
    requires forall x :: x in names ==> x in words
    ensures |r| == |names|
    ensures forall i :: 0 <= i < |r| ==> r[i] == PackedIndex(IndexData(ts, names[i], Positions(words, names[i])))
  {
    seq(|names|, (i: int) requires 0 <= i < |names| => PackedIndex(IndexData(ts, names[i], Positions(words, names[i]))))
  }

  /** The vectors `ids` and `objs` stay parallel: behind what they held come all tokens in
      alphabetical order, each with its positions, then the base index, if there is one,
      with the document. */
  method PrepareIndexes(doc: Document, segment: string -> seq<string>, baseIndex: string, ids: seq<string>,
        objs: seq<Packed>)
    returns (ids': seq<string>, objs': seq<Packed>)
    ensures var words := if doc.data == "" then [] else segment(doc.data);
            && ids' == ids + SortUnique(words) + (if baseIndex == "" then [] else [baseIndex])
            && objs' == objs + TokenObjects(doc.ts, SortUnique(words), words)
                             + (if baseIndex == "" then [] else [PackedDocument(Document(doc.ts, doc.key, doc.key))])
  {
    hide Index;
    ids', objs' := ids, objs;
    if |doc.data| != 0 {
      var words := segment(doc.data);
      var mpos, tokens := Feed(words, []);
      ids', objs' := AppendTokens(doc.ts, mpos, words, ids, objs);
    }
    if |baseIndex| != 0 {
      ids' := ids' + [baseIndex];
      objs' := objs' + [PackedDocument(Document(doc.ts, doc.key, doc.key))];
    }
  }

  /** The loop over the position map, in the order of its keys. */
  method AppendTokens(ts: int, mpos: PositionMap, ghost words: seq<string>, ids: seq<string>, objs: seq<Packed>)
    returns (ids': seq<string>, objs': seq<Packed>)
    requires mpos == Index(words)
    ensures ids' == ids + SortUnique(words)
    ensures objs' == objs + TokenObjects(ts, SortUnique(words), words)
  {
    ids', objs' := ids, objs;
    ghost var names := [];
    var rest := mpos.Keys;
    while rest != {}
      invariant rest <= mpos.Keys && Alphabetical(names) && forall x :: x in names <==> x in mpos.Keys - rest
      invariant forall i, x :: 0 <= i < |names| && x in rest ==> Less(names[i], x)
      invariant ids' == ids + names && objs' == objs + TokenObjects(ts, names, words)
    {
      var token := Least(rest);
      ids' := ids' + [token];
      objs' := objs' + [PackedIndex(IndexData(ts, token, mpos[token]))];
      assert TokenObjects(ts, names + [token], words) ==
             TokenObjects(ts, names, words) + [PackedIndex(IndexData(ts, token, mpos[token]))];
      names := names + [token];
      rest := rest - {token};
    }
    SortUniqueIsAlphabetical(words);
    AlphabeticalIsUnique(names, SortUnique(words));
  }
}
