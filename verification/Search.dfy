/** find_result (include/wookie/operators.hpp): from a query text to the identifiers of
    the documents that contain its words and its quoted phrases. Word segmentation and the
    token hash are parameters. */
module Search {
  import opened Documents
  import Ordered
  import opened PhraseScan
  import opened QueryText
  import opened Split

  /** One index of a found document: the token identifier and its unpacked data. */
  datatype Posting = Posting(index: RawId, data: IndexData)

  datatype FindEntry = FindEntry(id: RawId, indexes: seq<Posting>)

  datatype Quote = Quote(text: string, tokens: seq<string>, indexes: seq<RawId>)

  datatype FindRequest = FindRequest(quotes: seq<Quote>, text: string, textTokens: seq<string>)

  /** std::map::insert of every position: a position already present keeps its token. */
  function InsertAll(pos: map<int, RawId>, list: seq<int>, id: RawId): map<int, RawId> {
    (map p | p in list :: id) + pos
  }

  function KnownPositions(indexes: seq<Posting>): map<int, RawId> {
    if indexes == [] then map[] else
    var n := |indexes| - 1;
    InsertAll(KnownPositions(indexes[..n]), indexes[n].data.pos, indexes[n].index)
  }

  method BuildPositions(indexes: seq<Posting>) returns (pos: map<int, RawId>)
    ensures pos == KnownPositions(indexes)
  {
    pos := map[];
    for i := 0 to |indexes|
      invariant pos == KnownPositions(indexes[..i])
    {
      pos := InsertPositions(pos, indexes[i].data.pos, indexes[i].index);
      assert indexes[..i + 1][..i] == indexes[..i];
    }
    assert indexes[..|indexes|] == indexes;
  }

  lemma InsertAllGrows(before: map<int, RawId>, list: seq<int>, p: int, id: RawId)
    ensures var pos := InsertAll(before, list, id);
            InsertAll(before, list + [p], id) == if p in pos then pos else pos[p := id]
  {
  }

  method InsertPositions(before: map<int, RawId>, list: seq<int>, id: RawId) returns (pos: map<int, RawId>)
    ensures pos == InsertAll(before, list, id)
  {
    assert InsertAll(before, list[..0], id) == before;
    hide InsertAll;
    pos := before;
    for k := 0 to |list|
      invariant pos == InsertAll(before, list[..k], id)
    {
      assert list[..k + 1] == list[..k] + [list[k]];
      InsertAllGrows(before, list[..k], list[k], id);
      if list[k] !in pos {
        pos := pos[list[k] := id];
      }
    }
    assert list[..|list|] == list;
  }

  function QuoteOk(quote: Quote, entry: FindEntry): bool {
    Accepts(quote.indexes, Hits(KnownPositions(entry.indexes)), START)
  }

  /** Whether an entry contains every quoted phrase. */
  method CheckQuotes(quotes: seq<Quote>, entry: FindEntry) returns (allQuotesOk: bool)
    ensures allQuotesOk <==> forall q :: q in quotes ==> QuoteOk(q, entry)
  {
    hide Accepts;
    hide Hits;
    hide KnownPositions;
    var pos := BuildPositions(entry.indexes);
    allQuotesOk := true;
    for k := 0 to |quotes|
      invariant allQuotesOk <==> forall j :: 0 <= j < k ==> QuoteOk(quotes[j], entry)
    {
      var quoteOk := ScanQuote(quotes[k].indexes, Hits(pos));
      assert quoteOk == QuoteOk(quotes[k], entry);
      allQuotesOk := allQuotesOk && quoteOk;
    }
  }

  function Select(quotes: seq<Quote>, result: seq<FindEntry>): (ids: seq<RawId>) {
    if result == [] then [] else
    var n := |result| - 1;
    Select(quotes, result[..n]) +
    if forall q :: q in quotes ==> QuoteOk(q, result[n]) then [result[n].id] else []
  }

  lemma SelectNone(quotes: seq<Quote>)
    ensures Select(quotes, []) == []
  {
  }

  lemma {:induction false} SelectGrows(quotes: seq<Quote>, result: seq<FindEntry>, i: int)
    requires 0 <= i < |result|
    ensures Select(quotes, result[..i + 1]) ==
            if forall q :: q in quotes ==> QuoteOk(q, result[i]) then Select(quotes, result[..i]) + [result[i].id]
            else Select(quotes, result[..i])
  {
    hide QuoteOk;
    assert result[..i + 1][..i] == result[..i];
  }

  function Ids(tokens: seq<string>, transform: string -> RawId): (r: seq<RawId>)
    ensures |r| == |tokens|
    ensures forall i :: 0 <= i < |r| ==> r[i] == transform(tokens[i])
  {
    seq(|tokens|, (i: int) requires 0 <= i < |tokens| => transform(tokens[i]))
  }

  ghost function MakeQuote(phrase: string, segment: string -> seq<string>, transform: string -> RawId): Quote {
    var tokens := Vocabulary(segment(phrase));
    Quote(phrase, tokens, Ids(tokens, transform))
  }

  ghost function MakeQuotes(phrases: seq<string>, segment: string -> seq<string>,
        transform: string -> RawId): (r: seq<Quote>)
    ensures |r| == |phrases|
    ensures forall i :: 0 <= i < |r| ==> r[i] == MakeQuote(phrases[i], segment, transform)
  {
    seq(|phrases|, (i: int) requires 0 <= i < |phrases| => MakeQuote(phrases[i], segment, transform))
  }

  /** The request built from a query text whose phrases could be removed. */
  ghost function RequestFor(text: string, segment: string -> seq<string>, transform: string -> RawId): FindRequest
    requires Excised(text).Ok?
  {
    var rest := Excised(text).value;
    FindRequest(MakeQuotes(QuotedPhrases(text), segment, transform), rest, Vocabulary(segment(rest)))
  }

  /** The request, phrase by phrase, and what is left of the text. */
  lemma RequestExact(text: string, segment: string -> seq<string>, transform: string -> RawId)
    requires Excised(text).Ok?
    ensures var request, phrases := RequestFor(text, segment, transform), QuotedPhrases(text);
            && |request.quotes| == |phrases|
            && (forall i :: 0 <= i < |phrases| ==>
                  && request.quotes[i].text == phrases[i]
                  && request.quotes[i].tokens == Vocabulary(segment(phrases[i]))
                  && |request.quotes[i].indexes| == |request.quotes[i].tokens|
                  && forall j :: 0 <= j < |request.quotes[i].tokens| ==>
                       request.quotes[i].indexes[j] == transform(request.quotes[i].tokens[j]))
            && request.text == Excised(text).value
            && request.textTokens == Vocabulary(segment(Excised(text).value))
  {
    hide Excised;
    hide QuotedPhrases;
  }

  /** All tokens that a document must contain: those of the phrases and of the rest. */
  ghost function QueryTokens(request: FindRequest): set<string> {
    (set q, t | q in request.quotes && t in q.tokens :: t) + (set t | t in request.textTokens)
  }

  function TokensOfQuotes(quotes: seq<Quote>): seq<string> {
    if quotes == [] then [] else
    var n := |quotes| - 1;
    TokensOfQuotes(quotes[..n]) + quotes[n].tokens
  }

  /** The sorted vector of all tokens without duplicates. */
  function StrIndexes(request: FindRequest): seq<string> {
    Ordered.SortUnique(TokensOfQuotes(request.quotes) + request.textTokens)
  }

  lemma {:induction false} TokensOfQuotesExact(quotes: seq<Quote>, t: string)
    ensures t in TokensOfQuotes(quotes) <==> exists q :: q in quotes && t in q.tokens
  {
    if quotes != [] {
      var n := |quotes| - 1;
      TokensOfQuotesExact(quotes[..n], t);
      assert forall q :: q in quotes <==> q in quotes[..n] || q == quotes[n];
    }
  }

  /** The search is asked for every token of the query once, in alphabetical order. */
  lemma StrIndexesExact(request: FindRequest)
    ensures Ordered.Alphabetical(StrIndexes(request))
    ensures forall t :: t in StrIndexes(request) <==> t in QueryTokens(request)
  {
    Ordered.SortUniqueIsAlphabetical(TokensOfQuotes(request.quotes) + request.textTokens);
    forall t ensures t in StrIndexes(request) <==> t in QueryTokens(request) {
      TokensOfQuotesExact(request.quotes, t);
    }
  }

  /** Inserting the name of every token under its identifier, one after another. */
  function NamesById(tokens: seq<string>, transform: string -> RawId): map<RawId, string> {
    if tokens == [] then map[] else
    var n := |tokens| - 1;
    NamesById(tokens[..n], transform)[transform(tokens[n]) := tokens[n]]
  }

  function IdsByName(tokens: seq<string>, transform: string -> RawId): map<string, RawId> {
    map t | t in tokens :: transform(t)
  }

  lemma {:induction false} NamesByIdExact(tokens: seq<string>, transform: string -> RawId)
    ensures forall t :: t in tokens ==> transform(t) in NamesById(tokens, transform)
    ensures forall id :: id in NamesById(tokens, transform) ==>
              NamesById(tokens, transform)[id] in tokens && transform(NamesById(tokens, transform)[id]) == id
  {
    if tokens != [] {
      var n := |tokens| - 1;
      NamesByIdExact(tokens[..n], transform);
      assert forall t :: t in tokens <==> t in tokens[..n] || t == tokens[n];
    }
  }

  /** The two tables are inverse to each other when the token hash is injective. */
  lemma TablesAreInverse(tokens: seq<string>, transform: string -> RawId)
    requires InjectiveOn(transform, set t | t in tokens)
    ensures var (ids, names) := (IdsByName(tokens, transform), NamesById(tokens, transform));
            && (forall t :: t in ids ==> ids[t] in names && names[ids[t]] == t)
            && (forall id :: id in names ==> names[id] in ids && ids[names[id]] == id)
  {
    NamesByIdExact(tokens, transform);
    hide NamesById;
    assert forall t :: t in (set t | t in tokens) <==> t in tokens;
  }

  lemma NoTables(before: map<RawId, string>, transform: string -> RawId)
    ensures IdsByName([], transform) == map[] && before + NamesById([], transform) == before
  {
  }

  lemma TablesGrow(before: map<RawId, string>, tokens: seq<string>, token: string, transform: string -> RawId)
    ensures IdsByName(tokens + [token], transform) == IdsByName(tokens, transform)[token := transform(token)]
    ensures before + NamesById(tokens + [token], transform) ==
            (before + NamesById(tokens, transform))[transform(token) := token]
  {
    assert (tokens + [token])[..|tokens|] == tokens;
  }

  class FindResult {
    var request: FindRequest
    /** The tables from token names to identifiers, of the request, and back. */
    var mapper: map<string, RawId>
    var indexMap: map<RawId, string>
    var findResult: seq<FindEntry>
    var resultIds: seq<RawId>
    var completions: nat

    constructor ()
      ensures resultIds == [] && completions == 0 && mapper == map[] && indexMap == map[]
    {
      request := FindRequest([], "", []);
      mapper, indexMap := map[], map[];
      findResult, resultIds, completions := [], [], 0;
    }

    /** find(): builds the request and hands the tokens to the index search. */
    method Find(text: string, segment: string -> seq<string>, transform: string -> RawId)
      returns (r: Result<seq<string>>)
      modifies this`request, this`mapper, this`indexMap
      ensures Excised(text).OutOfRange? ==>
                r.OutOfRange? && request == old(request) && mapper == old(mapper) && indexMap == old(indexMap)
      ensures Excised(text).Ok? ==> request == RequestFor(text, segment, transform) && r == Ok(StrIndexes(request))
      ensures Excised(text).Ok? ==>
                && mapper == IdsByName(StrIndexes(request), transform)
                && indexMap == old(indexMap) + NamesById(StrIndexes(request), transform)
    {
      hide IdsByName;
      hide NamesById;
      hide Ordered.SortUnique;
      hide MakeQuotes;
      hide TokensOfQuotes;
      var prepared := Prepare(text);
      if prepared.OutOfRange? {
        return OutOfRange;
      }
      var quotes, strIndexes := PrepareQuotes(prepared.value.quotes, segment, transform);
      var mpos, list := Feed(segment(prepared.value.text), []);
      request := FindRequest(quotes, prepared.value.text, list);
      strIndexes := Ordered.SortUnique(strIndexes + list);
      FillTables(strIndexes, transform);
      return Ok(strIndexes);
    }

    /** The loop over the quoted phrases. */
    method PrepareQuotes(phrases: seq<string>, segment: string -> seq<string>, transform: string -> RawId)
      returns (quotes: seq<Quote>, strIndexes: seq<string>)
      ensures quotes == MakeQuotes(phrases, segment, transform) && strIndexes == TokensOfQuotes(quotes)
    {
      quotes, strIndexes := [], [];
      for i := 0 to |phrases|
        invariant quotes == MakeQuotes(phrases[..i], segment, transform)
        invariant strIndexes == TokensOfQuotes(quotes)
      {
        var mpos, list := Feed(segment(phrases[i]), []);
        var quote := Quote(phrases[i], list, Ids(list, transform));
        assert quote == MakeQuote(phrases[i], segment, transform);
        assert (quotes + [quote])[..|quotes|] == quotes;
        quotes := quotes + [quote];
        strIndexes := strIndexes + list;
      }
      assert phrases[..|phrases|] == phrases;
    }

    /** The loop over the tokens; the request is new, so its table starts empty. */
    method FillTables(strIndexes: seq<string>, transform: string -> RawId)
      modifies this`mapper, this`indexMap
      ensures mapper == IdsByName(strIndexes, transform)
      ensures indexMap == old(indexMap) + NamesById(strIndexes, transform)
    {
      NoTables(old(indexMap), transform);
      hide IdsByName;
      hide NamesById;
      mapper := map[];
      var i := 0;
      assert strIndexes[..i] == [];
      while i < |strIndexes|
        invariant 0 <= i <= |strIndexes|
        invariant mapper == IdsByName(strIndexes[..i], transform)
        invariant indexMap == old(indexMap) + NamesById(strIndexes[..i], transform)
      {
        var token := strIndexes[i];
        assert strIndexes[..i + 1] == strIndexes[..i] + [token];
        TablesGrow(old(indexMap), strIndexes[..i], token, transform);
        mapper := mapper[token := transform(token)];
        indexMap := indexMap[transform(token) := token];
        i := i + 1;
      }
      assert strIndexes[..i] == strIndexes;
    }

    /** on_result_ready(): keeps the found documents that contain every phrase. */
    method OnResultReady(result: seq<FindEntry>, err: bool)
      modifies this`findResult, this`resultIds, this`completions
      ensures completions == old(completions) + 1
      ensures err || result == [] ==> resultIds == old(resultIds) && findResult == old(findResult)
      ensures !err && result != [] ==>
              findResult == result && resultIds == old(resultIds) + Select(request.quotes, result)
    {
      if err || result == [] {
        completions := completions + 1;
        return;
      }
      hide *;
      findResult := result;
      ghost var before := resultIds;
      SelectNone(request.quotes);
      for i := 0 to |result|
        invariant completions == old(completions) && findResult == result
        invariant resultIds == before + Select(request.quotes, result[..i])
      {
        var entry := result[i];
        SelectGrows(request.quotes, result, i);
        var allQuotesOk := CheckQuotes(request.quotes, entry);
        if allQuotesOk {
          resultIds := resultIds + [entry.id];
        }
      }
      assert result[..|result|] == result;
      completions := completions + 1;
    }
  }

  /** What the index search promises of an entry: the document contains every token asked
      for, and comes with exactly the postings of these tokens, in any order. */
  ghost predicate Answers(entry: FindEntry, query: set<string>, transform: string -> RawId,
        docs: map<RawId, seq<string>>) {
    && entry.id in docs
    && (forall t :: t in query ==> t in docs[entry.id])
    && exists tokens :: ListsPostings(entry.indexes, tokens, query, transform, docs[entry.id])
  }

  ghost predicate ListsPostings(indexes: seq<Posting>, tokens: seq<string>, query: set<string>,
        transform: string -> RawId, words: seq<string>) {
    && |tokens| == |indexes|
    && (forall t :: t in tokens <==> t in query)
    && (forall i :: 0 <= i < |tokens| ==> IsPostingOf(indexes[i], tokens[i], words, transform))
  }

  ghost predicate IsPostingOf(x: Posting, token: string, words: seq<string>, transform: string -> RawId) {
    x.index == transform(token) && x.data.pos == Positions(words, token)
  }

  ghost predicate InjectiveOn(transform: string -> RawId, tokens: set<string>) {
    forall a, b :: a in tokens && b in tokens && transform(a) == transform(b) ==> a == b
  }

  /** The phrase stands somewhere in the text, word after word. */
  ghost predicate ContainsPhrase(words: seq<string>, phrase: seq<string>) {
    exists s :: StandsAt(words, phrase, s)
  }

  ghost predicate StandsAt(words: seq<string>, phrase: seq<string>, s: int) {
    0 <= s && s + |phrase| <= |words| && words[s..s + |phrase|] == phrase
  }

  ghost predicate Holds(x: Posting, p: int) {
    p in x.data.pos
  }

  lemma {:induction false} KnownPositionsSound(indexes: seq<Posting>, p: int)
    ensures p in KnownPositions(indexes) ==>
              exists i :: 0 <= i < |indexes| && Holds(indexes[i], p) && KnownPositions(indexes)[p] == indexes[i].index
    ensures forall i :: 0 <= i < |indexes| && Holds(indexes[i], p) ==> p in KnownPositions(indexes)
  {
    if indexes != [] {
      var n := |indexes| - 1;
      var init := indexes[..n];
      KnownPositionsSound(init, p);
      if p in KnownPositions(init) {
        var i :| 0 <= i < |init| && Holds(init[i], p) && KnownPositions(init)[p] == init[i].index;
        assert indexes[i] == init[i];
      } else {
        assert forall i :: 0 <= i < n ==> indexes[i] == init[i];
      }
    }
  }

  /** Of several postings with the same position the first one keeps it. */
  lemma {:induction false} FirstPostingWins(indexes: seq<Posting>, p: int, i: nat)
    requires i < |indexes| && p in indexes[i].data.pos && forall j :: 0 <= j < i ==> p !in indexes[j].data.pos
    ensures p in KnownPositions(indexes) && KnownPositions(indexes)[p] == indexes[i].index
  {
    var n := |indexes| - 1;
    if i < n {
      FirstPostingWins(indexes[..n], p, i);
    } else {
      KnownPositionsSound(indexes[..n], p);
    }
  }

  /** The rebuilt position map holds the query tokens of the document, and nothing else. */
  lemma KnownPositionsExact(entry: FindEntry, query: set<string>, transform: string -> RawId,
        docs: map<RawId, seq<string>>, p: int)
    requires Answers(entry, query, transform, docs)
    ensures var words, pos := docs[entry.id], KnownPositions(entry.indexes);
            && (p in pos <==> 0 <= p < |words| && words[p] in query)
            && (p in pos ==> pos[p] == transform(words[p]))
  {
    var words, indexes := docs[entry.id], entry.indexes;
    var pos := KnownPositions(indexes);
    KnownPositionsSound(indexes, p);
    var tokens :| ListsPostings(indexes, tokens, query, transform, words);
    if p in pos {
      var i :| 0 <= i < |indexes| && Holds(indexes[i], p) && pos[p] == indexes[i].index;
      assert IsPostingOf(indexes[i], tokens[i], words, transform) && tokens[i] in tokens;
      PositionsExact(words, tokens[i]);
    }
    if 0 <= p < |words| && words[p] in query {
      var i :| 0 <= i < |tokens| && tokens[i] == words[p];
      assert IsPostingOf(indexes[i], tokens[i], words, transform);
      PositionsExact(words, words[p]);
      assert Holds(indexes[i], p);
    }
  }

  ghost predicate KnowsExactly(pos: map<int, RawId>, words: seq<string>, query: set<string>,
        transform: string -> RawId) {
    && (forall p :: p in pos <==> 0 <= p < |words| && words[p] in query)
    && (forall p :: p in pos ==> pos[p] == transform(words[p]))
  }

  /** Token identifiers at consecutive positions are the phrase itself in the document. */
  lemma {:induction false} OccursInDocument(tokens: seq<string>, pos: map<int, RawId>, words: seq<string>,
        query: set<string>, transform: string -> RawId, start: int)
    requires KnowsExactly(pos, words, query, transform) && InjectiveOn(transform, query)
    requires forall j :: 0 <= j < |tokens| ==> tokens[j] in query
    requires tokens != [] && OccursAt(Ids(tokens, transform), pos, start)
    ensures StandsAt(words, tokens, start)
  {
    var ids := Ids(tokens, transform);
    assert start in pos && start + |tokens| - 1 in pos;
    forall j | 0 <= j < |tokens| ensures words[start + j] == tokens[j] {
      var p := start + j;
      assert p in pos && pos[p] == ids[p - start];
    }
    assert words[start..start + |tokens|] == tokens;
  }

  lemma {:induction false} PhraseOccurs(tokens: seq<string>, pos: map<int, RawId>, words: seq<string>,
        query: set<string>, transform: string -> RawId, s: int)
    requires KnowsExactly(pos, words, query, transform) && StandsAt(words, tokens, s)
    requires forall j :: 0 <= j < |tokens| ==> tokens[j] in query
    ensures OccursAt(Ids(tokens, transform), pos, s)
  {
    forall p | s <= p < s + |tokens| ensures p in pos && pos[p] == Ids(tokens, transform)[p - s] {
      assert words[p] == words[s..s + |tokens|][p - s];
    }
  }

  lemma {:induction false} OccursIsContains(tokens: seq<string>, pos: map<int, RawId>, words: seq<string>,
        query: set<string>, transform: string -> RawId)
    requires KnowsExactly(pos, words, query, transform) && InjectiveOn(transform, query)
    requires forall j :: 0 <= j < |tokens| ==> tokens[j] in query
    ensures Occurs(Ids(tokens, transform), pos) <==> ContainsPhrase(words, tokens)
  {
    var ids := Ids(tokens, transform);
    if tokens == [] {
      assert OccursAt(ids, pos, 0) && StandsAt(words, tokens, 0);
    } else {
      if Occurs(ids, pos) {
        var start :| OccursAt(ids, pos, start);
        OccursInDocument(tokens, pos, words, query, transform, start);
      }
      if ContainsPhrase(words, tokens) {
        var s :| StandsAt(words, tokens, s);
        PhraseOccurs(tokens, pos, words, query, transform, s);
      }
    }
  }

  /** A phrase is accepted exactly when its token list stands in the document. */
  lemma QuoteOkExact(quote: Quote, entry: FindEntry, query: set<string>, transform: string -> RawId,
        docs: map<RawId, seq<string>>)
    requires Answers(entry, query, transform, docs) && InjectiveOn(transform, query)
    requires Distinct(quote.tokens) && (forall j :: 0 <= j < |quote.tokens| ==> quote.tokens[j] in query)
    requires quote.indexes == Ids(quote.tokens, transform)
    ensures QuoteOk(quote, entry) <==> query != {} && ContainsPhrase(docs[entry.id], quote.tokens)
  {
    var words, pos := docs[entry.id], KnownPositions(entry.indexes);
    forall p ensures (p in pos <==> 0 <= p < |words| && words[p] in query)
      && (p in pos ==> pos[p] == transform(words[p])) {
      KnownPositionsExact(entry, query, transform, docs, p);
    }
    ScanIsExact(quote.indexes, pos);
    OccursIsContains(quote.tokens, pos, words, query, transform);
    if t :| t in query {
      var p :| 0 <= p < |words| && words[p] == t;
      assert p in pos;
    }
  }

  /** What split::feed stored of a document under the given tokens, as the index search
      hands it out. */
  ghost function Postings(ts: int, names: seq<string>, words: seq<string>,
        transform: string -> RawId): (r: seq<Posting>)
    requires forall t :: t in names ==> t in Index(words)
    ensures |r| == |names|
    ensures forall i :: 0 <= i < |r| ==>
            r[i] == Posting(transform(names[i]), IndexData(ts, names[i], Index(words)[names[i]]))
  {
    seq(|names|, (i: int) requires 0 <= i < |names| =>
      Posting(transform(names[i]), IndexData(ts, names[i], Index(words)[names[i]])))
  }

  /** From end to end: index a document, keep only the postings of the query tokens,
      rebuild the position map and scan it. A phrase is accepted exactly when its token
      list stands in the document. */
  lemma IndexThenScan(words: seq<string>, phrase: seq<string>, names: seq<string>, id: RawId, ts: int,
        transform: string -> RawId)
    requires forall t :: t in names ==> t in Index(words)
    requires phrase != [] && forall t :: t in phrase ==> t in names
    requires InjectiveOn(transform, set t | t in names)
    ensures var tokens := Vocabulary(phrase);
            QuoteOk(Quote("", tokens, Ids(tokens, transform)), FindEntry(id, Postings(ts, names, words, transform)))
            <==> ContainsPhrase(words, tokens)
  {
    var tokens, entry, query, docs :=
      Vocabulary(phrase), FindEntry(id, Postings(ts, names, words, transform)), (set t | t in names), map[id := words];
    assert ListsPostings(entry.indexes, names, query, transform, words);
    VocabularyExact(phrase);
    assert phrase[0] in query;
    forall j | 0 <= j < |tokens| ensures tokens[j] in query { assert tokens[j] in tokens; }
    QuoteOkExact(Quote("", tokens, Ids(tokens, transform)), entry, query, transform, docs);
  }

  /** The document contains the token list of every phrase. A query without any token
      accepts a document only if it has no phrases at all. */
  ghost predicate Wanted(entry: FindEntry, text: string, segment: string -> seq<string>, query: set<string>,
        docs: map<RawId, seq<string>>)
  {
    entry.id in docs &&
    forall phrase :: phrase in QuotedPhrases(text) ==>
      query != {} && ContainsPhrase(docs[entry.id], Vocabulary(segment(phrase)))
  }

  ghost function WantedIds(result: seq<FindEntry>, text: string, segment: string -> seq<string>, query: set<string>,
        docs: map<RawId, seq<string>>): seq<RawId>
  {
    if result == [] then [] else
    var n := |result| - 1;
    WantedIds(result[..n], text, segment, query, docs) +
    if Wanted(result[n], text, segment, query, docs) then [result[n].id] else []
  }

  lemma {:induction false} SelectIsWanted(result: seq<FindEntry>, text: string, segment: string -> seq<string>,
        transform: string -> RawId, docs: map<RawId, seq<string>>)
    requires Excised(text).Ok?
    requires InjectiveOn(transform, QueryTokens(RequestFor(text, segment, transform)))
    requires forall e :: e in result ==> Answers(e, QueryTokens(RequestFor(text, segment, transform)), transform, docs)
    ensures Select(RequestFor(text, segment, transform).quotes, result) ==
            WantedIds(result, text, segment, QueryTokens(RequestFor(text, segment, transform)), docs)
  {
    if result != [] {
      var n := |result| - 1;
      SelectIsWanted(result[..n], text, segment, transform, docs);
      EntryIsWanted(result[n], text, segment, transform, docs);
    }
  }

  lemma EntryIsWanted(entry: FindEntry, text: string, segment: string -> seq<string>, transform: string -> RawId,
        docs: map<RawId, seq<string>>)
    requires Excised(text).Ok?
    requires var query := QueryTokens(RequestFor(text, segment, transform));
             InjectiveOn(transform, query) && Answers(entry, query, transform, docs)
    ensures (forall q :: q in RequestFor(text, segment, transform).quotes ==> QuoteOk(q, entry)) <==>
            Wanted(entry, text, segment, QueryTokens(RequestFor(text, segment, transform)), docs)
  {
    var request := RequestFor(text, segment, transform);
    var query, phrases := QueryTokens(request), QuotedPhrases(text);
    forall i | 0 <= i < |phrases|
      ensures QuoteOk(request.quotes[i], entry) <==>
              query != {} && ContainsPhrase(docs[entry.id], Vocabulary(segment(phrases[i])))
    {
      VocabularyExact(segment(phrases[i]));
      var q := request.quotes[i];
      assert q in request.quotes;
      forall j | 0 <= j < |q.tokens| ensures q.tokens[j] in query { assert q.tokens[j] in q.tokens; }
      QuoteOkExact(request.quotes[i], entry, query, transform, docs);
    }
    forall phrase | phrase in phrases && forall q :: q in request.quotes ==> QuoteOk(q, entry)
      ensures query != {} && ContainsPhrase(docs[entry.id], Vocabulary(segment(phrase)))
    {
      var i :| 0 <= i < |phrases| && phrases[i] == phrase;
      assert request.quotes[i] in request.quotes;
    }
    forall q | q in request.quotes && Wanted(entry, text, segment, query, docs)
      ensures QuoteOk(q, entry)
    {
      var i :| 0 <= i < |phrases| && request.quotes[i] == q;
      assert phrases[i] in phrases;
    }
  }

  /** The search is asked for the words of the quoted phrases and of the text left, and
      for nothing else. */
  lemma AskedForEveryWord(text: string, segment: string -> seq<string>, transform: string -> RawId, t: string)
    requires Excised(text).Ok?
    ensures t in StrIndexes(RequestFor(text, segment, transform)) <==>
            || (exists i :: 0 <= i < |QuotedPhrases(text)| && t in segment(QuotedPhrases(text)[i]))
            || t in segment(Excised(text).value)
  {
    hide Excised;
    hide QuotedPhrases;
    var request, phrases := RequestFor(text, segment, transform), QuotedPhrases(text);
    StrIndexesExact(request);
    VocabularyExact(segment(Excised(text).value));
    forall i | 0 <= i < |phrases| ensures t in request.quotes[i].tokens <==> t in segment(phrases[i]) {
      VocabularyExact(segment(phrases[i]));
    }
    hide StrIndexes;
    if i :| 0 <= i < |phrases| && t in segment(phrases[i]) {
      assert request.quotes[i] in request.quotes;
    }
    if q :| q in request.quotes && t in q.tokens {
      var i :| 0 <= i < |request.quotes| && request.quotes[i] == q;
    }
  }

  /** The delivered identifiers are those of the entries at increasing places of the answer. */
  ghost predicate PicksInOrder(ids: seq<RawId>, result: seq<FindEntry>, picks: seq<nat>) {
    && |picks| == |ids| && (forall k :: 0 <= k < |picks| ==> picks[k] < |result| && ids[k] == result[picks[k]].id)
    && (forall k, l :: 0 <= k < l < |picks| ==> picks[k] < picks[l])
  }

  lemma PicksGrow(ids: seq<RawId>, result: seq<FindEntry>, n: nat, picks: seq<nat>)
    requires |result| == n + 1 && PicksInOrder(ids, result[..n], picks)
    ensures PicksInOrder(ids, result, picks) && PicksInOrder(ids + [result[n].id], result, picks + [n])
  {
  }

  lemma {:induction false} WantedIdsExact(result: seq<FindEntry>, text: string, segment: string -> seq<string>,
        query: set<string>, docs: map<RawId, seq<string>>) returns (picks: seq<nat>)
    ensures PicksInOrder(WantedIds(result, text, segment, query, docs), result, picks)
    ensures forall i: nat :: i in picks <==> i < |result| && Wanted(result[i], text, segment, query, docs)
  {
    hide Wanted;
    picks := [];
    if result != [] {
      var n: nat := |result| - 1;
      picks := WantedIdsExact(result[..n], text, segment, query, docs);
      var ids := WantedIds(result[..n], text, segment, query, docs);
      assert WantedIds(result, text, segment, query, docs) ==
             ids + if Wanted(result[n], text, segment, query, docs) then [result[n].id] else [];
      hide WantedIds;
      PicksGrow(ids, result, n, picks);
      hide PicksInOrder;
      assert forall i: nat :: i < n ==> result[..n][i] == result[i];
      if Wanted(result[n], text, segment, query, docs) {
        picks := picks + [n];
      } else {
        assert ids + [] == ids;
      }
    }
  }

  /** Every document delivered contains every word of the text left and of each phrase. */
  lemma {:induction false} DeliveredContainWords(result: seq<FindEntry>, text: string, segment: string -> seq<string>,
        transform: string -> RawId, docs: map<RawId, seq<string>>, id: RawId, w: string)
    requires Excised(text).Ok?
    requires forall e :: e in result ==> Answers(e, QueryTokens(RequestFor(text, segment, transform)), transform, docs)
    requires id in WantedIds(result, text, segment, QueryTokens(RequestFor(text, segment, transform)), docs)
    requires w in segment(Excised(text).value) ||
             exists i :: 0 <= i < |QuotedPhrases(text)| && w in segment(QuotedPhrases(text)[i])
    ensures id in docs && w in docs[id]
  {
    var request := RequestFor(text, segment, transform);
    var picks := WantedIdsExact(result, text, segment, QueryTokens(request), docs);
    var ids := WantedIds(result, text, segment, QueryTokens(request), docs);
    var k :| 0 <= k < |ids| && ids[k] == id;
    AskedForEveryWord(text, segment, transform, w);
    StrIndexesExact(request);
    assert w in QueryTokens(request);
    assert Answers(result[picks[k]], QueryTokens(request), transform, docs);
  }

  /** What the constructor of a search ends with: the identifiers, or the exception of the
      query text or of the index search. */
  datatype Outcome = Found(ids: seq<RawId>) | BadQuery | SearchFailed

  /** A whole search: the identifiers delivered are, in order, those of the found documents
      that contain the token list of every phrase. */
  method RunSearch(text: string, segment: string -> seq<string>, transform: string -> RawId,
        answer: seq<string> -> (seq<FindEntry>, bool), ghost docs: map<RawId, seq<string>>)
    returns (r: Outcome)
    requires Excised(text).Ok? ==>
               var request := RequestFor(text, segment, transform);
               && InjectiveOn(transform, QueryTokens(request))
               && forall e :: e in answer(StrIndexes(request)).0 ==> Answers(e, QueryTokens(request), transform, docs)
    ensures r.BadQuery? <==> StartsPastEnd(Quotes(text), |text|)
    ensures !r.BadQuery? ==>
              && Excised(text).Ok?
              && var request := RequestFor(text, segment, transform);
              && var (result, error) := answer(StrIndexes(request));
              r == if error then SearchFailed
                   else Found(WantedIds(result, text, segment, QueryTokens(request), docs))
    ensures r.Found? ==>
              && Excised(text).Ok?
              && forall id, w :: id in r.ids && w in segment(Excised(text).value) ==> id in docs && w in docs[id]
  {
    PrepareThrowsIff(text);
    hide StartsPastEnd;
    hide Excised;
    hide Select;
    hide WantedIds;
    hide StrIndexes;
    hide QueryTokens;
    hide RequestFor;
    hide Answers;
    hide InjectiveOn;
    hide IdsByName;
    hide NamesById;
    var find := new FindResult();
    var query := find.Find(text, segment, transform);
    if query.OutOfRange? {
      return BadQuery;
    }
    var (result, error) := answer(query.value);
    find.OnResultReady(result, error);
    if error {
      return SearchFailed;
    }
    SelectIsWanted(result, text, segment, transform, docs);
    SelectNone(find.request.quotes);
    assert find.resultIds == Select(find.request.quotes, result);
    forall id, w | id in find.resultIds && w in segment(Excised(text).value) ensures id in docs && w in docs[id] {
      DeliveredContainWords(result, text, segment, transform, docs, id, w);
    }
    return Found(find.resultIds);
  }

  /** The token list stands for the phrase itself on all documents if and only if the
      phrase repeats no word. */
  lemma LiteralPhraseIffDistinct(phrase: seq<string>)
    ensures (forall words :: ContainsPhrase(words, Vocabulary(phrase)) <==> ContainsPhrase(words, phrase)) <==>
            Distinct(phrase)
  {
    if Distinct(phrase) {
      DistinctTextIsItsVocabulary(phrase);
    } else {
      RepetitionShortensVocabulary(phrase);
      assert StandsAt(Vocabulary(phrase), Vocabulary(phrase), 0);
      assert ContainsPhrase(Vocabulary(phrase), Vocabulary(phrase)) && !ContainsPhrase(Vocabulary(phrase), phrase);
    }
  }

  lemma {:induction false} RepetitionShortensVocabulary(words: seq<string>)
    ensures |Vocabulary(words)| <= |words|
    ensures !Distinct(words) ==> |Vocabulary(words)| < |words|
  {
    if words != [] {
      var n := |words| - 1;
      RepetitionShortensVocabulary(words[..n]);
      if !Distinct(words) && words[n] !in words[..n] {
        assert !Distinct(words[..n]);
      }
    }
  }
}
