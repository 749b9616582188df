/** The phrase automaton of find_result::on_result_ready (include/wookie/operators.hpp):
    it walks the known token positions of a document in ascending order and looks for the
    tokens of a quoted phrase at consecutive positions. */
module PhraseScan {
  import opened Ordered
  import opened Split

  /** dnet_raw_id, the identifier of a token or of a document. */
  datatype RawId = RawId(bytes: seq<bv8>)

  /** One element of the position map: which token stands at which position. */
  datatype Hit = Hit(pos: int, index: RawId)

  datatype ScanState = ScanState(state: nat, prevPos: int)

  const START := ScanState(0, -1)

  function Advance(indexes: seq<RawId>, s: ScanState, hit: Hit): (s': ScanState)
    requires s.state < |indexes|
    ensures s'.state <= |indexes|
  {
    if hit.index == indexes[s.state] then
      if s.prevPos == -1 then ScanState(s.state + 1, hit.pos)
      else if hit.pos == s.prevPos + 1 then ScanState(s.state + 1, s.prevPos + 1)
      else START
    else if hit.index == indexes[0] then ScanState(1, hit.pos)
    else START
  }

  /** Whether the automaton, in state `s`, accepts somewhere in `hits`. */
  function Accepts(indexes: seq<RawId>, hits: seq<Hit>, s: ScanState): bool
    requires s.state <= |indexes|
  {
    hits != [] &&
    var s' := if s.state < |indexes| then Advance(indexes, s, hits[0]) else s;
    s'.state == |indexes| || Accepts(indexes, hits[1..], s')
  }

  /** The elements of a std::map<int, RawId> in iteration order. */
  function Hits(pos: map<int, RawId>): seq<Hit> {
    var keys := Ascending(pos.Keys);
    assert forall i :: 0 <= i < |keys| ==> keys[i] in keys;
    seq(|keys|, (i: int) requires 0 <= i < |keys| => Hit(keys[i], pos[keys[i]]))
  }

  /** The scanning loop for one quoted phrase over the elements of the position map. */
  method ScanQuote(indexes: seq<RawId>, hits: seq<Hit>) returns (quoteOk: bool)
    ensures quoteOk == Accepts(indexes, hits, START)
  {
    var state, prevPos := 0, -1;
    quoteOk := false;
    var i := 0;
    while i < |hits|
      invariant 0 <= i <= |hits| && 0 <= state <= |indexes|
      invariant !quoteOk && Accepts(indexes, hits, START) == Accepts(indexes, hits[i..], ScanState(state, prevPos))
    {
      var p := hits[i];
      assert hits[i..][0] == p && hits[i..][1..] == hits[i + 1..];
      if state < |indexes| {
        if p.index == indexes[state] {
          if prevPos == -1 {
            prevPos := p.pos;
            state := state + 1;
          } else if p.pos == prevPos + 1 {
            state := state + 1;
            prevPos := prevPos + 1;
          } else {
            prevPos := -1;
            state := 0;
          }
        } else {
          prevPos := -1;
          state := 0;
          if p.index == indexes[state] {
            prevPos := p.pos;
            state := state + 1;
          }
        }
      }
      if state == |indexes| {
        quoteOk := true;
        break;
      }
      i := i + 1;
    }
  }

  /** Positions are non-negative and ascend. */
  ghost predicate InOrder(hits: seq<Hit>) {
    && (forall i :: 0 <= i < |hits| ==> 0 <= hits[i].pos)
    && (forall i, j :: 0 <= i < j < |hits| ==> hits[i].pos < hits[j].pos)
  }

  /** The whole phrase at consecutive positions, from the k-th hit on. */
  ghost predicate MatchAt(indexes: seq<RawId>, hits: seq<Hit>, k: int) {
    0 <= k && k + |indexes| <= |hits| &&
    forall i :: k <= i < k + |indexes| ==> hits[i] == Hit(hits[k].pos + i - k, indexes[i - k])
  }

  /** In state n > 0 the last n hits are the first n tokens of the phrase, consecutive. */
  ghost predicate Window(indexes: seq<RawId>, hits: seq<Hit>, i: int, s: ScanState) {
    && 0 <= s.state < |indexes| && s.state <= i <= |hits|
    && (s.state == 0 ==> s.prevPos == -1)
    && (s.state > 0 ==> s.prevPos == hits[i - 1].pos)
    && forall h :: i - s.state <= h < i ==>
      hits[h] == Hit(hits[i - s.state].pos + h - (i - s.state), indexes[h - (i - s.state)])
  }

  lemma AdvanceKeepsWindow(indexes: seq<RawId>, hits: seq<Hit>, i: int, s: ScanState)
    requires InOrder(hits) && Window(indexes, hits, i, s) && i < |hits|
    ensures var s' := Advance(indexes, s, hits[i]);
            if s'.state == |indexes| then MatchAt(indexes, hits, i + 1 - |indexes|) && i + 1 - |indexes| >= i - s.state
            else Window(indexes, hits, i + 1, s') && i + 1 - s'.state >= i - s.state
  {
    var s' := Advance(indexes, s, hits[i]);
    var n := s'.state;
    if s.state > 0 {
      assert hits[i - 1].pos == hits[i - s.state].pos + s.state - 1;
    }
  }

  /** Acceptance is sound for every phrase, also one with repeated tokens. */
  lemma {:induction false} AcceptsOnlyMatches(indexes: seq<RawId>, hits: seq<Hit>, i: int, s: ScanState)
    requires InOrder(hits) && Window(indexes, hits, i, s)
    requires Accepts(indexes, hits[i..], s)
    ensures exists k :: i - s.state <= k && MatchAt(indexes, hits, k)
    decreases |hits| - i
  {
    AdvanceKeepsWindow(indexes, hits, i, s);
    var s' := Advance(indexes, s, hits[i]);
    if s'.state == |indexes| {
      assert i - s.state <= i + 1 - |indexes| && MatchAt(indexes, hits, i + 1 - |indexes|);
    } else {
      assert hits[i..][1..] == hits[i + 1..];
      AcceptsOnlyMatches(indexes, hits, i + 1, s');
    }
  }

  /** The first token of the phrase is not repeated in it. */
  ghost predicate FirstOnce(indexes: seq<RawId>) {
    forall j :: 0 < j < |indexes| ==> indexes[j] != indexes[0]
  }

  /** The automaton has no failure function, so a match is found for certain only when no
      match can begin inside a partial one. */
  lemma {:induction false} AcceptsEveryMatch(indexes: seq<RawId>, hits: seq<Hit>, i: int, s: ScanState, k: int)
    requires InOrder(hits) && Window(indexes, hits, i, s) && FirstOnce(indexes)
    requires MatchAt(indexes, hits, k) && (k >= i || (s.state > 0 && k == i - s.state))
    ensures Accepts(indexes, hits[i..], s)
    decreases |hits| - i
  {
    AdvanceKeepsWindow(indexes, hits, i, s);
    var s' := Advance(indexes, s, hits[i]);
    assert hits[i..][1..] == hits[i + 1..] && hits[i..][0] == hits[i];
    if k == i {
      assert hits[i].index == indexes[0];
      assert s'.state == 1;
    } else if k < i {
      assert hits[i] == Hit(hits[k].pos + s.state, indexes[s.state]);
      assert hits[i - 1].pos == hits[k].pos + s.state - 1;
      assert s'.state == s.state + 1;
    }
    if s'.state < |indexes| {
      AcceptsEveryMatch(indexes, hits, i + 1, s', k);
    }
  }

  ghost predicate Matches(indexes: seq<RawId>, hits: seq<Hit>) {
    exists k :: MatchAt(indexes, hits, k)
  }

  lemma AcceptsExactly(indexes: seq<RawId>, hits: seq<Hit>)
    requires InOrder(hits) && FirstOnce(indexes)
    ensures Accepts(indexes, hits, START) <==> hits != [] && Matches(indexes, hits)
  {
    assert hits[0..] == hits;
    if indexes == [] {
      assert MatchAt(indexes, hits, 0);
    } else {
      assert Window(indexes, hits, 0, START);
      if Accepts(indexes, hits, START) { AcceptsOnlyMatches(indexes, hits, 0, START); }
      if Matches(indexes, hits) {
        var k :| MatchAt(indexes, hits, k);
        AcceptsEveryMatch(indexes, hits, 0, START, k);
      }
    }
  }

  /** A document made to miss a phrase whose j-th token repeats the first: the first j
      tokens, a gap, and then the whole phrase. */
  ghost function Decoy(indexes: seq<RawId>, j: int): (hits: seq<Hit>)
    requires 0 < j < |indexes|
    ensures InOrder(hits)
  {
    seq(j + |indexes|, (i: int) requires 0 <= i < j + |indexes| =>
      if i < j then Hit(i, indexes[i]) else Hit(i + 1, indexes[i - j]))
  }

  lemma {:induction false} DecoyPrefix(indexes: seq<RawId>, j: int, i: int)
    requires 0 < j < |indexes| && 0 <= i <= j
    ensures Accepts(indexes, Decoy(indexes, j), START) ==
            Accepts(indexes, Decoy(indexes, j)[i..], if i == 0 then START else ScanState(i, i - 1))
  {
    var hits := Decoy(indexes, j);
    if i == 0 {
      assert hits[0..] == hits;
    } else {
      DecoyPrefix(indexes, j, i - 1);
      assert hits[i - 1..][1..] == hits[i..];
    }
  }

  lemma {:induction false} RepeatedFirstTokenIsMissed(indexes: seq<RawId>, j: int)
    requires 0 < j < |indexes| && indexes[j] == indexes[0]
    ensures !Accepts(indexes, Decoy(indexes, j), START) && MatchAt(indexes, Decoy(indexes, j), j)
  {
    var hits := Decoy(indexes, j);
    DecoyPrefix(indexes, j, j);
    assert hits[j..][0] == Hit(j + 1, indexes[0]);
    assert Advance(indexes, ScanState(j, j - 1), hits[j]) == START;
    assert hits[j..][1..] == hits[j + 1..];
    if Accepts(indexes, hits[j + 1..], START) {
      AcceptsOnlyMatches(indexes, hits, j + 1, START);
    }
  }

  /** The automaton is exact on all documents if and only if the phrase does not repeat
      its first token. */
  lemma ExactIffFirstTokenOnce(indexes: seq<RawId>)
    ensures (forall hits :: InOrder(hits) ==> (Accepts(indexes, hits, START) <==> hits != [] && Matches(indexes, hits)))
            <==> FirstOnce(indexes)
  {
    if FirstOnce(indexes) {
      forall hits | InOrder(hits) ensures Accepts(indexes, hits, START) <==> hits != [] && Matches(indexes, hits) {
        AcceptsExactly(indexes, hits);
      }
    } else {
      var j :| 0 < j < |indexes| && indexes[j] == indexes[0];
      RepeatedFirstTokenIsMissed(indexes, j);
      assert InOrder(Decoy(indexes, j));
    }
  }

  /** The phrase at positions start, start + 1, ... of the position map. */
  ghost predicate OccursAt(indexes: seq<RawId>, pos: map<int, RawId>, start: int) {
    forall p :: start <= p < start + |indexes| ==> p in pos && pos[p] == indexes[p - start]
  }

  ghost predicate Occurs(indexes: seq<RawId>, pos: map<int, RawId>) {
    exists start :: OccursAt(indexes, pos, start)
  }

  ghost predicate HasPosition(hits: seq<Hit>, p: int) {
    exists i :: 0 <= i < |hits| && hits[i].pos == p
  }

  /** Consecutive positions are neighbours in the iteration order. */
  lemma {:induction false} NeighboursInOrder(hits: seq<Hit>, k: int, n: int)
    requires InOrder(hits) && 0 <= k < |hits| && 0 <= n
    requires forall p :: hits[k].pos <= p <= hits[k].pos + n ==> HasPosition(hits, p)
    ensures k + n < |hits|
    ensures forall i :: k <= i <= k + n ==> hits[i].pos == hits[k].pos + i - k
  {
    if n > 0 {
      NeighboursInOrder(hits, k, n - 1);
      assert HasPosition(hits, hits[k].pos + n);
      var i :| 0 <= i < |hits| && hits[i].pos == hits[k].pos + n;
      assert hits[k + n - 1].pos < hits[i].pos;
      assert k + n - 1 < i;
      assert k + n < i ==> hits[k + n - 1].pos < hits[k + n].pos < hits[i].pos;
    }
  }

  /** `hits` lists the elements of `pos` in order. */
  ghost predicate Lists(hits: seq<Hit>, pos: map<int, RawId>) {
    && InOrder(hits)
    && (forall i :: 0 <= i < |hits| ==> hits[i].pos in pos && pos[hits[i].pos] == hits[i].index)
    && (forall p :: p in pos ==> HasPosition(hits, p))
  }

  lemma HitsExact(pos: map<int, RawId>)
    requires forall p :: p in pos ==> 0 <= p
    ensures Lists(Hits(pos), pos)
    ensures Hits(pos) == [] <==> pos == map[]
  {
    var hits, keys := Hits(pos), Ascending(pos.Keys);
    forall i | 0 <= i < |hits| ensures hits[i].pos in pos && pos[hits[i].pos] == hits[i].index {
      assert keys[i] in keys;
    }
    forall p | p in pos ensures HasPosition(hits, p) {
      assert p in keys;
      var i :| 0 <= i < |keys| && keys[i] == p;
      assert hits[i].pos == p;
    }
    assert |hits| == |pos.Keys|;
  }

  lemma {:induction false} MatchesOccurs(indexes: seq<RawId>, hits: seq<Hit>, pos: map<int, RawId>)
    requires Lists(hits, pos) && Matches(indexes, hits)
    ensures Occurs(indexes, pos)
  {
    var k :| MatchAt(indexes, hits, k);
    var start := if k < |hits| then hits[k].pos else 0;
    forall p | start <= p < start + |indexes| ensures p in pos && pos[p] == indexes[p - start] {
      assert hits[k + p - start] == Hit(p, indexes[p - start]);
    }
    assert OccursAt(indexes, pos, start);
  }

  lemma {:induction false} OccursMatches(indexes: seq<RawId>, hits: seq<Hit>, pos: map<int, RawId>)
    requires Lists(hits, pos) && Occurs(indexes, pos)
    ensures Matches(indexes, hits)
  {
    if indexes == [] {
      assert MatchAt(indexes, hits, 0);
    } else {
      var start :| OccursAt(indexes, pos, start);
      assert HasPosition(hits, start);
      var k :| 0 <= k < |hits| && hits[k].pos == start;
      NeighboursInOrder(hits, k, |indexes| - 1);
      assert MatchAt(indexes, hits, k);
    }
  }

  /** What the scan decides for a phrase without repeated tokens. An empty phrase is
      accepted by every document of which some token position is known. */
  lemma ScanIsExact(indexes: seq<RawId>, pos: map<int, RawId>)
    requires Distinct(indexes) && forall p :: p in pos ==> 0 <= p
    ensures Accepts(indexes, Hits(pos), START) <==> pos != map[] && Occurs(indexes, pos)
  {
    HitsExact(pos);
    AcceptsExactly(indexes, Hits(pos));
    if Matches(indexes, Hits(pos)) { MatchesOccurs(indexes, Hits(pos), pos); }
    if Occurs(indexes, pos) { OccursMatches(indexes, Hits(pos), pos); }
  }
}
