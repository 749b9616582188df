/** meta_info_t, the record that travels through the pipeline (include/wookie/application.hpp),
    and what the processors add to it. Packing is left open: fields hold values. */
module MetaInfo {
  import opened Ordered

  datatype Value = Text(text: string) | Words(words: seq<string>) | Frequencies(pairs: seq<(string, nat)>)

  type Fields = map<string, Value>

  const URL := "url"
  const BODY := "body"
  const TEXT := "text"
  const STUB := "stub"
  const TERMS := "terms_frequencies"

  /** std::map::insert. */
  function Put(fields: Fields, name: string, value: Value): Fields {
    if name in fields then fields else fields[name := value]
  }

  /** The first record's fields are all in the second, unchanged. */
  ghost predicate Extends(after: Fields, before: Fields) {
    forall name :: name in before ==> name in after && after[name] == before[name]
  }

  /** A value, or the exception of unpacking or parsing it. */
  datatype Outcome<T> = Got(value: T) | Thrown

  function TextOf(fields: Fields, name: string): Outcome<string> {
    if name !in fields then Got("") else if fields[name].Text? then Got(fields[name].text) else Thrown
  }

  function WordsOf(fields: Fields, name: string): Outcome<seq<string>> {
    if name !in fields then Got([]) else if fields[name].Words? then Got(fields[name].words) else Thrown
  }

  class Record {
    var data: Fields

    constructor ()
      ensures data == map[]
    {
      data := map[];
    }

    method SetValue(name: string, value: Value)
      modifies this
      ensures data == Put(old(data), name, value) && Extends(data, old(data))
    {
      if name !in data {
        data := data[name := value];
      }
    }
  }

  /** The record that the first processor admits for a request. */
  method Admit(url: string, body: string) returns (info: Record)
    ensures fresh(info) && info.data == map[URL := Text(url), BODY := Text(body)]
  {
    info := new Record();
    info.SetValue(URL, Text(url));
    info.SetValue(BODY, Text(body));
  }

  function Sum(pairs: seq<(string, nat)>): nat {
    if pairs == [] then 0 else
    var n := |pairs| - 1;
    Sum(pairs[..n]) + pairs[n].1
  }

  ghost predicate HasName(pairs: seq<(string, nat)>, w: string) {
    exists i :: 0 <= i < |pairs| && pairs[i].0 == w
  }

  /** Each word of the text once, with the number of its occurrences. */
  ghost predicate CountsWords(pairs: seq<(string, nat)>, text: seq<string>) {
    && (forall i, j :: 0 <= i < j < |pairs| ==> pairs[i].0 != pairs[j].0)
    && (forall i :: 0 <= i < |pairs| ==> pairs[i].0 in text && pairs[i].1 == multiset(text)[pairs[i].0])
    && (forall w :: w in text ==> HasName(pairs, w))
  }

  /** The counting loop of the feature extractor. */
  method CountTerms(text: seq<string>) returns (counts: map<string, nat>)
    ensures forall w :: w in counts <==> w in text
    ensures forall w :: w in counts ==> counts[w] == multiset(text)[w]
  {
    counts := map[];
    for i := 0 to |text|
      invariant forall w :: w in counts <==> w in text[..i]
      invariant forall w :: w in counts ==> counts[w] == multiset(text[..i])[w]
    {
      assert text[..i + 1] == text[..i] + [text[i]];
      counts := counts[text[i] := if text[i] in counts then counts[text[i]] + 1 else 1];
    }
    assert text[..|text|] == text;
  }

  /** The conversion of the hash map into a vector of pairs, in the map's own order. */
  method ToPairs(counts: map<string, nat>) returns (pairs: seq<(string, nat)>)
    ensures forall i, j :: 0 <= i < j < |pairs| ==> pairs[i].0 != pairs[j].0
    ensures forall i :: 0 <= i < |pairs| ==> pairs[i].0 in counts && pairs[i].1 == counts[pairs[i].0]
    ensures forall w :: w in counts ==> HasName(pairs, w)
  {
    pairs := [];
    var rest := counts.Keys;
    while rest != {}
      invariant rest <= counts.Keys
      invariant forall i, j :: 0 <= i < j < |pairs| ==> pairs[i].0 != pairs[j].0
      invariant forall i :: 0 <= i < |pairs| ==> pairs[i].0 in counts.Keys - rest && pairs[i].1 == counts[pairs[i].0]
      invariant forall w :: w in counts && w !in rest ==> HasName(pairs, w)
    {
      var w := Pick(rest);
      assert w in counts;
      ghost var before := pairs;
      pairs := pairs + [(w, counts[w])];
      rest := rest - {w};
      assert pairs[|before|].0 == w;
      forall v | v in counts && v !in rest && v != w ensures HasName(pairs, v) {
        assert HasName(before, v);
        var i :| 0 <= i < |before| && before[i].0 == v;
        assert pairs[i].0 == v;
      }
    }
  }

  lemma {:induction false} CountsSumUp(pairs: seq<(string, nat)>, counts: multiset<string>)
    requires forall i, j :: 0 <= i < j < |pairs| ==> pairs[i].0 != pairs[j].0
    requires forall i :: 0 <= i < |pairs| ==> pairs[i].1 == counts[pairs[i].0]
    requires forall w :: w in counts ==> HasName(pairs, w)
    ensures Sum(pairs) == |counts|
    decreases |pairs|
  {
    if pairs == [] {
      assert counts == multiset{};
    } else {
      var n := |pairs| - 1;
      var rest := counts[pairs[n].0 := 0];
      forall w | w in rest ensures HasName(pairs[..n], w) {
        assert HasName(pairs, w);
        var i :| 0 <= i < |pairs| && pairs[i].0 == w;
        assert i < n && pairs[..n][i].0 == w;
      }
      CountsSumUp(pairs[..n], rest);
      assert |counts| == |rest| + pairs[n].1;
    }
  }

  /** feature_extractor: the frequencies are exact and sum up to the length of the text,
      unless the record had the field before; nothing else changes. */
  method ExtractFeatures(info: Record) returns (ok: bool)
    modifies info
    ensures ok <==> WordsOf(old(info.data), TEXT).Got?
    ensures Extends(info.data, old(info.data))
    ensures !ok ==> info.data == old(info.data)
    ensures ok ==> info.data.Keys == old(info.data).Keys + {TERMS}
    ensures ok && TERMS !in old(info.data) ==>
              && info.data[TERMS].Frequencies?
              && CountsWords(info.data[TERMS].pairs, WordsOf(old(info.data), TEXT).value)
              && Sum(info.data[TERMS].pairs) == |WordsOf(old(info.data), TEXT).value|
    ensures "text" in old(info.data) && old(info.data)["text"].Words? && "terms_frequencies" !in old(info.data) ==>
              && "terms_frequencies" in info.data && info.data["terms_frequencies"].Frequencies?
              && CountsWords(info.data["terms_frequencies"].pairs, old(info.data)["text"].words)
  {
    var text := WordsOf(info.data, TEXT);
    if text.Thrown? {
      return false;
    }
    var counts := CountTerms(text.value);
    var pairs := ToPairs(counts);
    CountsSumUp(pairs, multiset(text.value));
    info.SetValue(TERMS, Frequencies(pairs));
    return true;
  }

  /** html_processor: `parse` stands for the page parser, which throws on a page that it
      cannot parse. */
  method ExtractText(info: Record, parse: string -> Outcome<seq<string>>) returns (ok: bool)
    modifies info
    ensures ok <==> TextOf(old(info.data), BODY).Got? && parse(TextOf(old(info.data), BODY).value).Got?
    ensures info.data == if ok then Put(old(info.data), TEXT, Words(parse(TextOf(old(info.data), BODY).value).value))
            else old(info.data)
    ensures Extends(info.data, old(info.data))
    ensures "body" in old(info.data) && old(info.data)["body"].Text? && "text" !in old(info.data) ==>
              var text := parse(old(info.data)["body"].text);
              text.Got? ==> info.data == old(info.data)["text" := Words(text.value)]
  {
    var body := TextOf(info.data, BODY);
    if body.Thrown? {
      return false;
    }
    var text := parse(body.value);
    if text.Thrown? {
      return false;
    }
    info.SetValue(TEXT, Words(text.value));
    return true;
  }

  /** stub_processor. */
  method AddStub(info: Record)
    modifies info
    ensures info.data == Put(old(info.data), STUB, Text("stub-info")) && Extends(info.data, old(info.data))
  {
    info.SetValue(STUB, Text("stub-info"));
  }

  /** Applying the stages one after another. */
  ghost function Through(stages: seq<Fields -> Fields>, fields: Fields): Fields {
    if stages == [] then fields else
    var n := |stages| - 1;
    stages[n](Through(stages[..n], fields))
  }

  ghost predicate OnlyAdds(stage: Fields -> Fields) {
    forall fields :: Extends(stage(fields), fields)
  }

  /** Along any sequence of stages that only add fields the record only grows: URL and body
      stay as admitted. */
  lemma {:induction false} RecordOnlyGrows(stages: seq<Fields -> Fields>, fields: Fields)
    requires forall i :: 0 <= i < |stages| ==> OnlyAdds(stages[i])
    ensures Extends(Through(stages, fields), fields)
    decreases |stages|
  {
    if stages != [] {
      var n := |stages| - 1;
      RecordOnlyGrows(stages[..n], fields);
      assert OnlyAdds(stages[n]);
      var before := Through(stages[..n], fields);
      assert Extends(stages[n](before), before);
    }
  }
}
