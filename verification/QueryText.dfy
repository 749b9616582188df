/** The query scanner and the removal of quoted phrases from the query text
    (operators_found and find_result::prepare in include/wookie/operators.hpp). */
module QueryText {
  import Ordered
  import opened Split

  /** OutOfRange is the std::out_of_range that std::string::replace throws. */
  datatype Result<T> = Ok(value: T) | OutOfRange

  /** Half-open range of text positions between two quote characters. */
  datatype Range = Range(first: int, second: int) {
    predicate Empty() { first == second }
    function Length(): int { second - first }
  }

  const QUOTE: char := '\"'

  /** The i-th quoted range lies between the quote characters number 2i and 2i+1. */
  ghost function Quotes(text: string): (r: seq<Range>)
    ensures |r| == |Positions(text, QUOTE)| / 2
  {
    var q := Positions(text, QUOTE);
    seq(|q| / 2, (i: int) requires 0 <= i < |q| / 2 => Range(q[2 * i] + 1, q[2 * i + 1]))
  }

  class OperatorsFound {
    var q1: int
    var q2: int
    var pos: int
    var quotes: seq<Range>
    var negative: seq<int>

    /** What the scanner holds after the characters of `text`. */
    ghost predicate Scanned(text: string)
      reads this
    {
      var q := Positions(text, QUOTE);
      && pos == |text| - 1
      && q2 == -1
      && q1 == (if |q| % 2 == 1 then q[|q| - 1] + 1 else -1)
      && quotes == Quotes(text)
      && negative == Positions(text, '-')
    }

    constructor ()
      ensures Scanned("")
    {
      q1, q2, pos := -1, -1, -1;
      quotes, negative := [], [];
    }

    /** The move constructor: takes over the vectors, but not the place of the scan. */
    constructor Moved(other: OperatorsFound)
      modifies other
      ensures q1 == q2 == pos == -1
      ensures quotes == old(other.quotes) && negative == old(other.negative)
      ensures other.quotes == [] && other.negative == []
    {
      q1, q2, pos := -1, -1, -1;
      quotes, negative := other.quotes, other.negative;
      new;
      other.quotes, other.negative := [], [];
    }

    method Call(ch: char, ghost text: string)
      requires Scanned(text)
      modifies this
      ensures Scanned(text + [ch])
    {
      ghost var longer := text + [ch];
      ghost var q := Positions(text, QUOTE);
      assert longer[..|text|] == text && longer[|text|] == ch;
      PositionsExact(text, QUOTE);
      assert |q| > 0 ==> q[|q| - 1] in q;
      pos := pos + 1;
      if ch == QUOTE {
        if q1 == -1 {
          q1 := pos + 1;
          return;
        }
        q2 := pos;
        quotes := quotes + [Range(q1, q2)];
        q1, q2 := -1, -1;
        return;
      }
      if ch == '-' {
        negative := negative + [pos];
      }
    }
  }

  /** The scan of a whole query text. std::for_each hands the scanner back by moving it. */
  method Scan(text: string) returns (scope: OperatorsFound)
    ensures fresh(scope)
    ensures scope.quotes == Quotes(text) && scope.negative == Positions(text, '-')
    ensures scope.q1 == scope.q2 == scope.pos == -1
  {
    var f := new OperatorsFound();
    var i := 0;
    while i < |text|
      invariant 0 <= i <= |text|
      invariant fresh(f) && f.Scanned(text[..i])
    {
      assert text[..i + 1] == text[..i] + [text[i]];
      f.Call(text[i], text[..i]);
      i := i + 1;
    }
    assert text[..i] == text;
    scope := new OperatorsFound.Moved(f);
  }

  ghost predicate InBoundsAndDelimited(text: string, r: Range) {
    && 1 <= r.first <= r.second < |text|
    && text[r.first - 1] == QUOTE && text[r.second] == QUOTE
    && QUOTE !in text[r.first..r.second]
  }

  /** Ranges in order, the first one's opening quote at `from` or later, each behind the
      closing quote of the one before it. */
  ghost predicate Delimited(text: string, ranges: seq<Range>, from: int) {
    ranges == [] || (
      && InBoundsAndDelimited(text, ranges[0])
      && from < ranges[0].first
      && Delimited(text, ranges[1..], ranges[0].second + 1))
  }

  /** Quote characters number k and k + 1 have no quote character between them. */
  lemma NextQuote(text: string, k: int)
    requires 0 <= k < |Positions(text, QUOTE)|
    ensures var q := Positions(text, QUOTE);
            && 0 <= q[k] < |text| && text[q[k]] == QUOTE
            && (k + 1 < |q| ==> q[k] < q[k + 1] < |text| && QUOTE !in text[q[k] + 1..q[k + 1]])
            && (k + 1 == |q| ==> QUOTE !in text[q[k] + 1..])
  {
    var q := Positions(text, QUOTE);
    PositionsExact(text, QUOTE);
    assert q[k] in q;
    assert k + 1 < |q| ==> q[k + 1] in q;
    var end := if k + 1 < |q| then q[k + 1] else |text|;
    forall p | q[k] < p < end ensures text[p] != QUOTE {
      forall k' | 0 <= k' < |q| ensures q[k'] != p {
        assert k' <= k || k + 1 <= k';
      }
    }
  }

  lemma {:induction false} QuotesDelimited(text: string, i: int, from: int)
    requires 0 <= i <= |Quotes(text)|
    requires i < |Quotes(text)| ==> from <= Positions(text, QUOTE)[2 * i]
    ensures Delimited(text, Quotes(text)[i..], from)
    decreases |Quotes(text)| - i
  {
    var ranges, q := Quotes(text), Positions(text, QUOTE);
    if i < |ranges| {
      NextQuote(text, 2 * i);
      NextQuote(text, 2 * i + 1);
      assert ranges[i..][1..] == ranges[i + 1..];
      QuotesDelimited(text, i + 1, q[2 * i + 1] + 1);
    }
  }

  ghost predicate Delimits(r: Range, p: int) {
    p == r.first - 1 || p == r.second
  }

  /** Every quote character delimits a range, except an unpaired last one. */
  lemma {:induction false} QuotesCover(text: string, p: int)
    requires 0 <= p < |text| && text[p] == QUOTE
    ensures || (exists i :: 0 <= i < |Quotes(text)| && Delimits(Quotes(text)[i], p))
            || (|Positions(text, QUOTE)| % 2 == 1 && QUOTE !in text[p + 1..])
  {
    var q, ranges := Positions(text, QUOTE), Quotes(text);
    PositionsExact(text, QUOTE);
    var k :| 0 <= k < |q| && q[k] == p;
    NextQuote(text, k);
    if k / 2 < |ranges| {
      assert k == 2 * (k / 2) || k == 2 * (k / 2) + 1;
      assert Delimits(ranges[k / 2], p);
    }
  }

  /** The recorded ranges are in bounds, ordered, disjoint, free of quote characters and
      delimited by them. */
  lemma {:induction false} QuotesExact(text: string)
    ensures Delimited(text, Quotes(text), 0)
  {
    if Quotes(text) != [] { NextQuote(text, 0); }
    QuotesDelimited(text, 0, 0);
    assert Quotes(text)[0..] == Quotes(text);
  }

  /** std::string::replace(first, length, ""), its arguments converted to size_t. */
  function Erase(s: string, first: int, length: int): Result<string> {
    if first < 0 || first > |s| then OutOfRange
    else if 0 <= length && first + length <= |s| then Ok(s[..first] + s[first + length..])
    else Ok(s[..first])
  }

  /** Erasing the ranges one after another, each at its offset in the original text. */
  function Excise(s: string, ranges: seq<Range>): Result<string>
    decreases |ranges|
  {
    if ranges == [] then Ok(s) else
    match Erase(s, ranges[0].first, ranges[0].Length())
    case OutOfRange => OutOfRange
    case Ok(s') => Excise(s', ranges[1..])
  }

  lemma {:induction false} DelimitedRange(text: string, ranges: seq<Range>, from: int, r: Range)
    requires Delimited(text, ranges, from) && r in ranges
    ensures InBoundsAndDelimited(text, r) && from < r.first
    decreases |ranges|
  {
    if r != ranges[0] { DelimitedRange(text, ranges[1..], ranges[0].second + 1, r); }
  }

  lemma DelimitedRanges(text: string, ranges: seq<Range>, from: int)
    requires Delimited(text, ranges, from)
    ensures forall r :: r in ranges ==> InBoundsAndDelimited(text, r) && from < r.first
  {
    forall r | r in ranges ensures InBoundsAndDelimited(text, r) && from < r.first {
      DelimitedRange(text, ranges, from, r);
    }
  }

  /** An erasure that reaches behind the end of the text, or whose length wraps around,
      leaves exactly the text in front of its offset. */
  lemma EraseCutShort(s: string, first: int, length: int)
    requires 0 <= first <= |s| && (length < 0 || first + length > |s|)
    ensures Erase(s, first, length) == Ok(s[..first])
  {
  }

  lemma EraseBehindEnd(s: string, first: int, length: int)
    ensures Erase(s, first, length).OutOfRange? <==> first < 0 || first > |s|
  {
  }

  /** Excise on the ranges of the text itself. */
  ghost function Excised(text: string): Result<string> {
    Excise(text, Quotes(text))
  }

  ghost function Phrases(text: string, ranges: seq<Range>, from: int): (r: seq<string>)
    requires Delimited(text, ranges, from)
    ensures |r| == |ranges|
    decreases |ranges|
  {
    if ranges == [] then [] else
    [text[ranges[0].first..ranges[0].second]] + Phrases(text, ranges[1..], ranges[0].second + 1)
  }

  /** The phrases between the quote characters, in order. */
  ghost function QuotedPhrases(text: string): seq<string> {
    QuotesExact(text);
    Phrases(text, Quotes(text), 0)
  }

  lemma {:induction false} PhrasesExact(text: string, ranges: seq<Range>, from: int, i: nat)
    requires Delimited(text, ranges, from) && i < |ranges|
    ensures InBoundsAndDelimited(text, ranges[i])
    ensures Phrases(text, ranges, from)[i] == text[ranges[i].first..ranges[i].second]
    decreases |ranges|
  {
    if i > 0 { PhrasesExact(text, ranges[1..], ranges[0].second + 1, i - 1); }
  }

  /** Phrase i is what stands between quote characters number 2i and 2i + 1. */
  lemma QuotedPhrasesExact(text: string)
    ensures var q := Positions(text, QUOTE);
            && |QuotedPhrases(text)| == |q| / 2
            && forall i: nat :: i < |q| / 2 ==>
                 0 <= q[2 * i] < q[2 * i + 1] < |text| && QuotedPhrases(text)[i] == text[q[2 * i] + 1..q[2 * i + 1]]
  {
    QuotesExact(text);
    var q := Positions(text, QUOTE);
    forall i: nat | i < |q| / 2
      ensures 0 <= q[2 * i] < q[2 * i + 1] < |text| && QuotedPhrases(text)[i] == text[q[2 * i] + 1..q[2 * i + 1]]
    {
      PhrasesExact(text, Quotes(text), 0, i);
    }
  }

  datatype Prepared = Prepared(quotes: seq<string>, text: string)

  /** find_result::prepare: the quoted phrases and the text left for unquoted search. */
  method Prepare(text: string) returns (res: Result<Prepared>)
    ensures res == match Excised(text)
                   case OutOfRange => OutOfRange
                   case Ok(rest) => Ok(Prepared(QuotedPhrases(text), rest))
  {
    var scope := Scan(text);
    var ops := scope.quotes;
    QuotesExact(text);
    var quotes, rest := [], text;
    ghost var from := 0;
    ghost var phrases, excised := Phrases(text, ops, 0), Excise(text, ops);
    while ops != []
      invariant Delimited(text, ops, from)
      invariant phrases == quotes + Phrases(text, ops, from)
      invariant excised == Excise(rest, ops)
      decreases |ops|
    {
      var op := ops[0];
      ConcatAssociates(quotes, [text[op.first..op.second]], Phrases(text, ops[1..], op.second + 1));
      quotes := quotes + [text[op.first..op.second]];
      var erased := Erase(rest, op.first, op.second - op.first);
      if erased.OutOfRange? {
        return OutOfRange;
      }
      rest := erased.value;
      ops := ops[1..];
      from := op.second + 1;
    }
    assert phrases == quotes;
    return Ok(Prepared(quotes, rest));
  }

  lemma DelimitedWeaken(text: string, ranges: seq<Range>, from: int, from': int)
    requires Delimited(text, ranges, from) && from' <= from
    ensures Delimited(text, ranges, from')
  {
  }

  /** The text from `from` on with all ranges left out: the pieces between them. */
  ghost function Between(text: string, ranges: seq<Range>, from: int): string
    requires 0 <= from <= |text|
    requires Delimited(text, ranges, from - 1)
    decreases |ranges|
  {
    if ranges == [] then text[from..] else
    DelimitedWeaken(text, ranges[1..], ranges[0].second + 1, ranges[0].second - 1);
    text[from..ranges[0].first] + Between(text, ranges[1..], ranges[0].second)
  }

  /** The query text without its quoted phrases. */
  ghost function Unquoted(text: string): string {
    QuotesExact(text);
    Between(text, Quotes(text), 0)
  }

  predicate EmptyWithin(ranges: seq<Range>, limit: int) {
    forall r :: r in ranges ==> r.Empty() && r.first <= limit
  }

  /** Behind the first range that is not empty there are only empty ones, and these still
      start inside the shortened text. */
  predicate OffsetsStayGood(ranges: seq<Range>, length: int) {
    ranges == [] ||
    if ranges[0].Empty() then OffsetsStayGood(ranges[1..], length)
    else EmptyWithin(ranges[1..], length - ranges[0].Length())
  }

  lemma ConcatAssociates<T>(a: seq<T>, b: seq<T>, c: seq<T>)
    ensures (a + b) + c == a + (b + c)
  {
  }

  lemma {:induction false} BetweenSplits(text: string, ranges: seq<Range>, from: int, mid: int)
    requires 0 <= from <= mid <= |text|
    requires Delimited(text, ranges, from - 1) && Delimited(text, ranges, mid - 1)
    ensures Between(text, ranges, from) == text[from..mid] + Between(text, ranges, mid)
  {
    if ranges == [] {
      assert text[from..] == text[from..mid] + text[mid..];
    } else {
      var f := ranges[0].first;
      assert text[from..f] == text[from..mid] + text[mid..f];
      var tail := Between(text, ranges[1..], ranges[0].second);
      ConcatAssociates(text[from..mid], text[mid..f], tail);
    }
  }

  lemma {:induction false} ExciseKeepsPrefix(s: string, ranges: seq<Range>, n: int)
    requires 0 <= n <= |s|
    requires forall r :: r in ranges ==> n <= r.first <= r.second
    requires Excise(s, ranges).Ok?
    ensures n <= |Excise(s, ranges).value| && Excise(s, ranges).value[..n] == s[..n]
    decreases |ranges|
  {
    if ranges != [] {
      var s' := Erase(s, ranges[0].first, ranges[0].Length()).value;
      assert n <= |s'| && s'[..n] == s[..n];
      ExciseKeepsPrefix(s', ranges[1..], n);
    }
  }

  /** After `d` characters are gone in front of `from`, every later erasure is off by `d`. */
  lemma {:induction false} ExciseWhenShifted(text: string, ranges: seq<Range>, head: string, from: int, d: int)
    requires 0 <= from <= |text| && Delimited(text, ranges, from - 1)
    requires forall r :: r in ranges ==> InBoundsAndDelimited(text, r)
    requires d > 0 && |head| == from - d
    ensures Excise(head + text[from..], ranges) == Ok(head + Between(text, ranges, from)) <==>
            EmptyWithin(ranges, |text| - d)
    decreases |ranges|
  {
    var s := head + text[from..];
    if ranges != [] {
      var r, rest := ranges[0], ranges[1..];
      assert r in ranges && forall x :: x in ranges <==> x == r || x in rest;
      if r.first > |s| {
        assert Excise(s, ranges) == OutOfRange;
      } else if r.Empty() {
        assert Erase(s, r.first, 0) == Ok(s) by { assert s[..r.first] + s[r.first..] == s; }
        DelimitedWeaken(text, rest, r.second + 1, r.second - 1);
        DelimitedWeaken(text, rest, r.second + 1, from - 1);
        ExciseWhenShifted(text, rest, head, from, d);
        BetweenSplits(text, rest, from, r.first);
      } else {
        NonemptyShiftedRangeIsWrong(text, ranges, head, from, d);
      }
    }
  }

  /** Where the first range should begin, its closing quote should stand ... */
  lemma QuoteShouldFollow(text: string, ranges: seq<Range>, head: string, from: int, d: int)
    requires 0 <= from <= |text| && Delimited(text, ranges, from - 1)
    requires ranges != [] && |head| == from - d && d > 0
    ensures var x := ranges[0].first - d;
            0 <= x && x < |head + Between(text, ranges, from)| && (head + Between(text, ranges, from))[x] == QUOTE
  {
    var r, rest := ranges[0], ranges[1..];
    DelimitedWeaken(text, rest, r.second + 1, r.second - 1);
    BetweenSplits(text, rest, r.second, r.second + 1);
    var tail := Between(text, rest, r.second);
    assert tail[0] == text[r.second];
    assert |head + text[from..r.first]| == r.first - d;
    ConcatAssociates(head, text[from..r.first], tail);
  }

  /** ... but the erasures leave a character of the phrase there. */
  lemma PhraseIsKept(text: string, ranges: seq<Range>, head: string, from: int, d: int)
    requires 0 <= from <= |text| && Delimited(text, ranges, from - 1)
    requires forall r :: r in ranges ==> InBoundsAndDelimited(text, r)
    requires ranges != [] && !ranges[0].Empty()
    requires d > 0 && |head| == from - d && Excise(head + text[from..], ranges).Ok?
    ensures var x, rest := ranges[0].first - d, Excise(head + text[from..], ranges).value;
            0 <= x < |rest| && rest[x] != QUOTE
  {
    var s, r, x := head + text[from..], ranges[0], ranges[0].first - d;
    assert r in ranges && s[x] == text[r.first] && text[r.first] in text[r.first..r.second];
    DelimitedRanges(text, ranges[1..], r.second + 1);
    forall y | y in ranges ensures x + 1 <= y.first <= y.second {
      assert y == r || y in ranges[1..];
    }
    hide Excise;
    hide Delimited;
    ExciseKeepsPrefix(s, ranges, x + 1);
    assert Excise(s, ranges).value[..x + 1][x] == s[..x + 1][x];
  }

  lemma NonemptyShiftedRangeIsWrong(text: string, ranges: seq<Range>, head: string, from: int, d: int)
    requires 0 <= from <= |text| && Delimited(text, ranges, from - 1)
    requires forall r :: r in ranges ==> InBoundsAndDelimited(text, r)
    requires ranges != [] && !ranges[0].Empty()
    requires d > 0 && |head| == from - d
    ensures Excise(head + text[from..], ranges) != Ok(head + Between(text, ranges, from))
  {
    hide Excise;
    hide Between;
    hide Delimited;
    QuoteShouldFollow(text, ranges, head, from, d);
    if Excise(head + text[from..], ranges).Ok? { PhraseIsKept(text, ranges, head, from, d); }
  }

  /** Removing an empty range changes nothing. */
  lemma ExciseEmptyHead(text: string, ranges: seq<Range>)
    requires ranges != [] && InBoundsAndDelimited(text, ranges[0]) && ranges[0].Empty()
    requires Delimited(text, ranges, -1) && Delimited(text, ranges[1..], -1)
    ensures Excise(text, ranges) == Excise(text, ranges[1..])
    ensures Between(text, ranges, 0) == Between(text, ranges[1..], 0)
  {
    var r, rest := ranges[0], ranges[1..];
    assert Erase(text, r.first, 0) == Ok(text) by { assert text[..r.first] + text[r.first..] == text; }
    DelimitedWeaken(text, rest, r.second + 1, r.second - 1);
    BetweenSplits(text, rest, 0, r.first);
  }

  lemma EraseRange(text: string, r: Range)
    requires 0 <= r.first <= r.second <= |text|
    ensures Erase(text, r.first, r.Length()) == Ok(text[..r.first] + text[r.second..])
  {
  }

  lemma ExciseHead(text: string, ranges: seq<Range>)
    requires ranges != [] && 0 <= ranges[0].first <= ranges[0].second <= |text|
    ensures Excise(text, ranges) == Excise(text[..ranges[0].first] + text[ranges[0].second..], ranges[1..])
  {
    hide Erase;
    EraseRange(text, ranges[0]);
  }

  lemma ExciseNonemptyHead(text: string, ranges: seq<Range>)
    requires ranges != [] && !ranges[0].Empty() && Delimited(text, ranges, -1)
    requires forall r :: r in ranges ==> InBoundsAndDelimited(text, r)
    ensures Excise(text, ranges) == Ok(Between(text, ranges, 0)) <==>
            EmptyWithin(ranges[1..], |text| - ranges[0].Length())
  {
    var r, rest := ranges[0], ranges[1..];
    var head := text[..r.first];
    assert text[0..r.first] == head;
    assert Delimited(text, rest, r.second - 1) by { DelimitedWeaken(text, rest, r.second + 1, r.second - 1); }
    assert InBoundsAndDelimited(text, r) by { assert r in ranges; }
    assert Between(text, ranges, 0) == head + Between(text, rest, r.second);
    hide Excise;
    hide Between;
    hide Delimited;
    hide EmptyWithin;
    ExciseHead(text, ranges);
    assert forall x :: x in rest ==> x in ranges;
    hide InBoundsAndDelimited;
    ExciseWhenShifted(text, rest, head, r.second, r.Length());
  }

  lemma {:induction false} ExciseDelimited(text: string, ranges: seq<Range>, from: int)
    requires Delimited(text, ranges, from) && from >= 0
    requires forall r :: r in ranges ==> InBoundsAndDelimited(text, r)
    ensures Delimited(text, ranges, -1)
    ensures Excise(text, ranges) == Ok(Between(text, ranges, 0)) <==> OffsetsStayGood(ranges, |text|)
    decreases |ranges|
  {
    DelimitedWeaken(text, ranges, from, -1);
    if ranges != [] {
      var r, rest := ranges[0], ranges[1..];
      assert r in ranges && forall x :: x in rest ==> x in ranges;
      if r.Empty() {
        ExciseDelimited(text, rest, r.second + 1);
        ExciseEmptyHead(text, ranges);
      } else {
        ExciseNonemptyHead(text, ranges);
      }
    }
  }

  /** prepare() leaves the text without its quoted phrases exactly when the offsets of
      the later erasures are not stale. */
  lemma PrepareRemovesPhrases(text: string)
    ensures Excised(text) == Ok(Unquoted(text)) <==> OffsetsStayGood(Quotes(text), |text|)
  {
    QuotesExact(text);
    DelimitedRanges(text, Quotes(text), 0);
    ExciseDelimited(text, Quotes(text), 0);
  }

  /** How many characters the first k ranges take up. */
  function Removed(ranges: seq<Range>, k: nat): int
    requires k <= |ranges|
  {
    if k == 0 then 0 else ranges[0].Length() + Removed(ranges[1..], k - 1)
  }

  /** The k-th range starts behind the end of what the ranges before it have left. */
  predicate PastEnd(ranges: seq<Range>, length: int, k: nat) {
    k < |ranges| && length - Removed(ranges, k) < ranges[k].first
  }

  ghost predicate StartsPastEnd(ranges: seq<Range>, length: int) {
    exists k: nat :: PastEnd(ranges, length, k)
  }

  lemma StartsPastEndUnfold(ranges: seq<Range>, length: int)
    ensures StartsPastEnd(ranges, length) <==>
            ranges != [] && (length < ranges[0].first || StartsPastEnd(ranges[1..], length - ranges[0].Length()))
  {
    if StartsPastEnd(ranges, length) {
      var k: nat :| PastEnd(ranges, length, k);
      if k > 0 { assert PastEnd(ranges[1..], length - ranges[0].Length(), k - 1); }
    }
    if ranges != [] && length < ranges[0].first { assert PastEnd(ranges, length, 0); }
    if ranges != [] && StartsPastEnd(ranges[1..], length - ranges[0].Length()) {
      var k: nat :| PastEnd(ranges[1..], length - ranges[0].Length(), k);
      assert PastEnd(ranges, length, k + 1);
    }
  }

  /** Ordered and disjoint, with a place between one range and the next. */
  predicate Apart(ranges: seq<Range>, from: int) {
    ranges == [] || (from <= ranges[0].first <= ranges[0].second && Apart(ranges[1..], ranges[0].second + 1))
  }

  lemma {:induction false} DelimitedIsApart(text: string, ranges: seq<Range>, from: int)
    requires Delimited(text, ranges, from)
    ensures Apart(ranges, from)
    decreases |ranges|
  {
    if ranges != [] { DelimitedIsApart(text, ranges[1..], ranges[0].second + 1); }
  }

  /** Also when an erasure is cut short by the end of the text, the next range lies behind. */
  lemma {:induction false} ExciseThrowsIff(s: string, ranges: seq<Range>, from: nat)
    requires Apart(ranges, from)
    ensures Excise(s, ranges).OutOfRange? <==> StartsPastEnd(ranges, |s|)
    decreases |ranges|
  {
    StartsPastEndUnfold(ranges, |s|);
    if ranges != [] && ranges[0].first <= |s| {
      var r, rest := ranges[0], ranges[1..];
      var s' := Erase(s, r.first, r.Length()).value;
      ExciseThrowsIff(s', rest, r.second + 1);
      StartsPastEndUnfold(rest, |s'|);
      StartsPastEndUnfold(rest, |s| - r.Length());
      hide StartsPastEnd;
      if r.second <= |s| {
        assert |s'| == |s| - r.Length();
      }
    }
  }

  /** prepare() throws if and only if some phrase starts behind the length of the text less
      the lengths of the phrases before it. A query that neither throws nor meets
      OffsetsStayGood is mangled silently. */
  lemma PrepareThrowsIff(text: string)
    ensures Excised(text).OutOfRange? <==> StartsPastEnd(Quotes(text), |text|)
  {
    QuotesExact(text);
    DelimitedIsApart(text, Quotes(text), 0);
    ExciseThrowsIff(text, Quotes(text), 0);
  }

  /** In particular, it does so whenever every phrase but the last is empty. */
  lemma {:induction false} OnlyLastPhraseNonempty(ranges: seq<Range>, length: int)
    requires forall i :: 0 <= i < |ranges| - 1 ==> ranges[i].Empty()
    ensures OffsetsStayGood(ranges, length)
    decreases |ranges|
  {
    if |ranges| > 1 { OnlyLastPhraseNonempty(ranges[1..], length); }
  }

  /** Two phrases: the second erasure starts past the end of the shortened text. */
  lemma StaleOffsetThrows()
    ensures Excised("\"aaaa\" \"b\"") == OutOfRange
  {
    var text := "\"aaaa\" \"b\"";
    PositionsExact(text, QUOTE);
    assert forall p :: p in Positions(text, QUOTE) <==> p in [0, 5, 7, 9];
    Ordered.SortedIsUnique(Positions(text, QUOTE), [0, 5, 7, 9]);
    assert Quotes(text) == [Range(1, 5), Range(8, 9)];
    assert Erase(text, 1, 4) == Ok(text[..1] + text[5..]);
    assert [Range(1, 5), Range(8, 9)][1..] == [Range(8, 9)];
    assert Erase(text[..1] + text[5..], 8, 1) == OutOfRange;
  }
}
