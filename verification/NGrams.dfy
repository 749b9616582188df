/** parser::generate_ngrams (include/wookie/parser.hpp): sets of character windows, each
    packed into one `long`. Splitting the text into characters is a parameter: a character
    is the string of its bytes. */
module NGrams {
  import opened Ordered

  type Byte = x: int | 0 <= x < 256
  type Bytes = seq<Byte>

  const NGRAM_NUM := 4

  /** The value of a little-endian byte string. */
  function Little(b: Bytes): nat {
    if b == [] then 0 else b[0] + 256 * Little(b[1..])
  }

  function Pow256(n: nat): nat { if n == 0 then 1 else 256 * Pow256(n - 1) }

  lemma {:induction false} LittleFits(b: Bytes)
    ensures Little(b) < Pow256(|b|)
  {
    if b != [] { LittleFits(b[1..]); }
  }

  /** memcpy of at most eight bytes over a zeroed `long`. */
  function Pack(txt: Bytes): (r: int)
    ensures -0x8000_0000_0000_0000 <= r < 0x8000_0000_0000_0000
  {
    var prefix := Prefix(txt);
    LittleFits(prefix);
    Pow256Grows(|prefix|);
    var v := Little(prefix);
    if v < 0x8000_0000_0000_0000 then v else v - 0x1_0000_0000_0000_0000
  }

  lemma Pow256Grows(n: nat)
    requires n <= 8
    ensures Pow256(n) <= 0x1_0000_0000_0000_0000
  {
    assert Pow256(1) == 0x100 && Pow256(2) == 0x1_0000 && Pow256(3) == 0x100_0000;
    assert Pow256(4) == 0x1_0000_0000 && Pow256(5) == 0x100_0000_0000 && Pow256(6) == 0x1_0000_0000_0000;
    assert Pow256(7) == 0x100_0000_0000_0000 && Pow256(8) == 0x1_0000_0000_0000_0000;
    assert n == 0 || n == 1 || n == 2 || n == 3 || n == 4 || n == 5 || n == 6 || n == 7 || n == 8;
  }

  function Prefix(txt: Bytes): Bytes { if |txt| <= 8 then txt else txt[..8] }

  /** The byte at a place, zero behind the end. */
  function At(b: Bytes, i: nat): Byte { if i < |b| then b[i] else 0 }

  lemma {:induction false} LittleExact(a: Bytes, b: Bytes)
    ensures Little(a) == Little(b) <==> forall i: nat :: At(a, i) == At(b, i)
    decreases |a| + |b|
  {
    if |a| + |b| > 0 {
      var a', b' := (if a == [] then [] else a[1..]), (if b == [] then [] else b[1..]);
      assert Little(a) == At(a, 0) + 256 * Little(a') && Little(b) == At(b, 0) + 256 * Little(b');
      LittleExact(a', b');
      assert forall i: nat :: At(a', i) == At(a, i + 1) && At(b', i) == At(b, i + 1);
      if forall i: nat :: At(a, i) == At(b, i) {
        assert At(a, 0) == At(b, 0);
        forall i: nat ensures At(a', i) == At(b', i) {
          assert At(a, i + 1) == At(b, i + 1);
        }
      }
      if Little(a) == Little(b) {
        forall i: nat ensures At(a, i) == At(b, i) {
          if i > 0 { assert At(a', i - 1) == At(b', i - 1); }
        }
      }
    }
  }

  /** Exactly when two windows are packed into the same `long`: their first eight bytes
      agree up to trailing zero bytes. */
  lemma PackExact(a: Bytes, b: Bytes)
    ensures Pack(a) == Pack(b) <==> forall i: nat :: i < 8 ==> At(a, i) == At(b, i)
  {
    LittleExact(Prefix(a), Prefix(b));
    assert forall i: nat :: i < 8 ==> At(Prefix(a), i) == At(a, i) && At(Prefix(b), i) == At(b, i);
    assert forall i: nat :: i >= 8 ==> At(Prefix(a), i) == 0 == At(Prefix(b), i);
    LittleFits(Prefix(a));
    LittleFits(Prefix(b));
    Pow256Grows(|Prefix(a)|);
    Pow256Grows(|Prefix(b)|);
  }

  function Rest(b: Bytes): Bytes { if b == [] then [] else b[1..] }

  lemma LittleStep(b: Bytes)
    ensures Little(b) == At(b, 0) + 0x100 * Little(Rest(b))
    ensures forall i: nat :: At(Rest(b), i) == At(b, i + 1)
  {
  }

  lemma LittleIsSum(b: Bytes)
    requires |b| <= 8
    ensures Little(b) == At(b, 0) + 0x100 * At(b, 1) + 0x1_0000 * At(b, 2) + 0x100_0000 * At(b, 3)
                         + 0x1_0000_0000 * At(b, 4) + 0x100_0000_0000 * At(b, 5)
                         + 0x1_0000_0000_0000 * At(b, 6) + 0x100_0000_0000_0000 * At(b, 7)
  {
    var b1 := Rest(b);
    var b2 := Rest(b1);
    var b3 := Rest(b2);
    var b4 := Rest(b3);
    var b5 := Rest(b4);
    var b6 := Rest(b5);
    var b7 := Rest(b6);
    assert Rest(b7) == [];
    LittleStep(b);
    LittleStep(b1);
    LittleStep(b2);
    LittleStep(b3);
    LittleStep(b4);
    LittleStep(b5);
    LittleStep(b6);
    LittleStep(b7);
    hide Rest;
    hide At;
    hide Little;
    assert At(b1, 0) == At(b, 1);
    assert At(b2, 0) == At(b1, 1) == At(b, 2);
    assert At(b3, 0) == At(b2, 1) == At(b1, 2) == At(b, 3);
    assert At(b4, 0) == At(b3, 1) == At(b2, 2) == At(b1, 3) == At(b, 4);
    assert At(b5, 0) == At(b4, 1) == At(b3, 2) == At(b2, 3) == At(b1, 4) == At(b, 5);
    assert At(b6, 0) == At(b5, 1) == At(b4, 2) == At(b3, 3) == At(b2, 4) == At(b1, 5) == At(b, 6);
    assert At(b7, 0) == At(b6, 1) == At(b5, 2) == At(b4, 3) == At(b3, 4) == At(b2, 5) == At(b1, 6) == At(b, 7);
  }

  /** The packed number: the first eight bytes, little-endian, as a signed 64-bit number. */
  lemma PackIsLittleEndian(txt: Bytes)
    ensures var u := At(txt, 0) + 0x100 * At(txt, 1) + 0x1_0000 * At(txt, 2) + 0x100_0000 * At(txt, 3)
                     + 0x1_0000_0000 * At(txt, 4) + 0x100_0000_0000 * At(txt, 5)
                     + 0x1_0000_0000_0000 * At(txt, 6) + 0x100_0000_0000_0000 * At(txt, 7);
            Pack(txt) == if u < 0x8000_0000_0000_0000 then u else u - 0x1_0000_0000_0000_0000
  {
    LittleIsSum(Prefix(txt));
    assert forall i: nat :: i < 8 ==> At(Prefix(txt), i) == At(txt, i);
    hide At;
    hide Little;
  }

  predicate Faithful(w: Bytes) { |w| <= 8 && 0 !in w }

  /** Packing windows of at most eight bytes without a zero byte loses nothing. */
  lemma PackIsFaithful(a: Bytes, b: Bytes)
    requires Faithful(a) && Faithful(b)
    ensures Pack(a) == Pack(b) <==> a == b
  {
    PackExact(a, b);
    if a != b {
      if |a| < |b| {
        assert At(a, |a|) != At(b, |a|);
      } else if |b| < |a| {
        assert At(a, |b|) != At(b, |b|);
      } else {
        var i :| 0 <= i < |a| && a[i] != b[i];
        assert At(a, i) != At(b, i);
      }
    }
  }

  function Join(ng: seq<Bytes>): Bytes { if ng == [] then [] else ng[0] + Join(ng[1..]) }

  ghost function Window(chars: seq<Bytes>, i: nat): Bytes
    requires i + NGRAM_NUM <= |chars|
  {
    Join(chars[i..i + NGRAM_NUM])
  }

  /** Every run of four characters of the text, as its byte string. */
  ghost function Windows(chars: seq<Bytes>): set<Bytes> {
    set i: nat | i + NGRAM_NUM <= |chars| :: Window(chars, i)
  }

  ghost function Packs(windows: set<Bytes>): set<int> { set w | w in windows :: Pack(w) }

  /** Four characters of the text in a row, packed. */
  ghost predicate IsNgram(chars: seq<Bytes>, i: nat, x: int) {
    i + 4 <= |chars| && x == Pack(chars[i] + chars[i + 1] + chars[i + 2] + chars[i + 3])
  }

  /** A window is its four characters joined. */
  lemma WindowIs(chars: seq<Bytes>, i: nat)
    requires i + 4 <= |chars|
    ensures NGRAM_NUM == 4 && Window(chars, i) == chars[i] + chars[i + 1] + chars[i + 2] + chars[i + 3]
  {
    var ng := chars[i..i + 4];
    JoinOne(ng[3..]);
    assert ng[2..][1..] == ng[3..] && ng[1..][1..] == ng[2..];
    assert Join(ng[2..]) == chars[i + 2] + chars[i + 3];
    assert Join(ng[1..]) == chars[i + 1] + (chars[i + 2] + chars[i + 3]);
    assert Join(ng) == chars[i] + (chars[i + 1] + (chars[i + 2] + chars[i + 3]));
  }

  lemma JoinOne(ng: seq<Bytes>)
    requires |ng| == 1
    ensures Join(ng) == ng[0]
  {
    assert ng[1..] == [];
  }

  lemma {:induction false} NgramsAre(chars: seq<Bytes>)
    ensures forall x :: x in Packs(Windows(chars)) <==> exists i: nat :: IsNgram(chars, i, x)
  {
    hide Pack;
    hide Window;
    forall x ensures x in Packs(Windows(chars)) <==> exists i: nat :: IsNgram(chars, i, x) {
      if x in Packs(Windows(chars)) {
        var w :| w in Windows(chars) && Pack(w) == x;
        var i: nat :| i + NGRAM_NUM <= |chars| && Window(chars, i) == w;
        WindowIs(chars, i);
        assert IsNgram(chars, i, x);
      }
      if i: nat :| IsNgram(chars, i, x) {
        WindowIs(chars, i);
        assert Window(chars, i) in Windows(chars);
      }
    }
  }

  ghost function Elements(s: seq<int>): set<int> { set x | x in s }

  /** The loop slides a list of four characters; the vector is sorted and deduplicated
      through a set, with whatever it held before the call. */
  method GenerateNgrams(chars: seq<Bytes>, ngrams0: seq<int>) returns (ngrams: seq<int>)
    ensures ngrams == Ascending(Elements(ngrams0) + Packs(Windows(chars)))
    ensures forall x :: x in ngrams <==> x in ngrams0 || exists i: nat :: IsNgram(chars, i, x)
  {
    hide IsNgram;
    hide Windows;
    hide Packs;
    hide Pack;
    hide Join;
    hide Elements;
    ngrams := ngrams0;
    var ng: seq<Bytes> := [];
    var it := 0;
    NoWindows(chars[..0]);
    while it != |chars|
      invariant 0 <= it <= |chars|
      invariant ng == chars[ListStart(it)..it]
      invariant Elements(ngrams) == Elements(ngrams0) + Packs(Windows(chars[..it]))
    {
      ng := ng + [chars[it]];
      assert ng == chars[ListStart(it)..it + 1];
      WindowsGrow(chars, it);
      if |ng| == NGRAM_NUM {
        var txt := Join(ng);
        PacksGrow(Windows(chars[..it]), txt);
        ElementsGrow(ngrams, Pack(txt));
        ngrams := ngrams + [Pack(txt)];
        ng := ng[1..];
      }
      it := it + 1;
    }
    assert chars[..it] == chars;
    var tmp := set x | x in ngrams;
    ElementsAre(ngrams, tmp);
    NgramsAre(chars);
    ElementsMember(ngrams0);
    ngrams := Ascending(tmp);
  }

  /** Where the list of at most three last characters starts. */
  function ListStart(it: nat): (r: nat)
    ensures r <= it
  {
    if it < NGRAM_NUM - 1 then 0 else it - (NGRAM_NUM - 1)
  }

  lemma NoWindows(chars: seq<Bytes>)
    requires chars == []
    ensures Packs(Windows(chars)) == {}
  {
  }

  lemma ElementsMember(s: seq<int>)
    ensures forall x :: x in Elements(s) <==> x in s
  {
  }

  lemma ElementsAre(s: seq<int>, elements: set<int>)
    requires forall x :: x in elements <==> x in s
    ensures elements == Elements(s)
  {
    assert forall x :: x in elements <==> x in Elements(s);
  }

  lemma ElementsGrow(s: seq<int>, x: int)
    ensures Elements(s + [x]) == Elements(s) + {x}
  {
    assert forall y :: y in s + [x] <==> y in s || y == x;
  }

  lemma PacksGrow(windows: set<Bytes>, w: Bytes)
    ensures Packs(windows + {w}) == Packs(windows) + {Pack(w)}
  {
  }

  lemma WindowsGrow(chars: seq<Bytes>, n: nat)
    requires n < |chars|
    ensures Windows(chars[..n + 1]) == if n + 1 < NGRAM_NUM then Windows(chars[..n]) else
                                       Windows(chars[..n]) + {Join(chars[n + 1 - NGRAM_NUM..n + 1])}
  {
    var longer, shorter := chars[..n + 1], chars[..n];
    forall i: nat | i + NGRAM_NUM <= n ensures Window(longer, i) == Window(shorter, i) {
      assert longer[i..i + NGRAM_NUM] == shorter[i..i + NGRAM_NUM];
    }
    if NGRAM_NUM <= n + 1 {
      assert longer[n + 1 - NGRAM_NUM..n + 1] == chars[n + 1 - NGRAM_NUM..n + 1];
      assert Window(longer, n + 1 - NGRAM_NUM) == Join(chars[n + 1 - NGRAM_NUM..n + 1]);
    }
  }

  ghost predicate AllFaithful(windows: set<Bytes>) { forall w :: w in windows ==> Faithful(w) }

  predicate TwoByteCharacter(c: Bytes) { |c| <= 2 && 0 !in c }

  lemma {:induction false} JoinIsFaithful(ng: seq<Bytes>)
    requires forall c :: c in ng ==> TwoByteCharacter(c)
    ensures |Join(ng)| <= 2 * |ng| && 0 !in Join(ng)
  {
    if ng != [] {
      assert ng[0] in ng && forall c :: c in ng[1..] ==> c in ng;
      JoinIsFaithful(ng[1..]);
    }
  }

  /** The size check on NGRAM_NUM is enough for a charset of two-byte characters. */
  lemma TwoByteTextIsFaithful(chars: seq<Bytes>)
    requires forall c :: c in chars ==> TwoByteCharacter(c)
    ensures AllFaithful(Windows(chars))
  {
    forall i: nat | i + NGRAM_NUM <= |chars| ensures Faithful(Window(chars, i)) {
      var ng := chars[i..i + NGRAM_NUM];
      assert forall c :: c in ng ==> c in chars;
      JoinIsFaithful(ng);
    }
  }

  /** On faithful windows packing keeps intersections and sizes. */
  lemma PacksMeet(a: set<Bytes>, b: set<Bytes>)
    requires AllFaithful(a) && AllFaithful(b)
    ensures Packs(a) * Packs(b) == Packs(a * b)
  {
    forall x | x in Packs(a) * Packs(b) ensures x in Packs(a * b) {
      var v :| v in a && Pack(v) == x;
      var w :| w in b && Pack(w) == x;
      PackIsFaithful(v, w);
      assert v in a * b;
    }
    forall x | x in Packs(a * b) ensures x in Packs(a) * Packs(b) {
      var v :| v in a * b && Pack(v) == x;
      assert v in a && v in b;
    }
  }

  lemma {:induction false} PacksCount(a: set<Bytes>)
    requires AllFaithful(a)
    ensures |Packs(a)| == |a|
  {
    if a == {} {
      assert Packs(a) == {};
    } else {
      var w := Member(a);
      var rest := a - {w};
      PacksCount(rest);
      if Pack(w) in Packs(rest) {
        var v :| v in rest && Pack(v) == Pack(w);
        PackIsFaithful(v, w);
      }
      assert a == rest + {w};
      assert Packs(a) == Packs(rest) + {Pack(w)};
    }
  }

  lemma SamePacks(v: set<Bytes>, w: set<Bytes>)
    requires AllFaithful(v) && AllFaithful(w) && Packs(v) == Packs(w)
    ensures v == w
  {
    PacksMeet(v, w);
    hide Packs;
    assert AllFaithful(v * w);
    assert Packs(v) * Packs(w) == Packs(v);
    PacksCount(v);
    PacksCount(w);
    PacksCount(v * w);
    SubsetOfSameSize(v * w, v);
    SubsetOfSameSize(v * w, w);
  }

  /** Two texts have the same n-gram vector exactly when they have the same windows. */
  lemma SameNgramsSameWindows(a: seq<Bytes>, b: seq<Bytes>)
    requires AllFaithful(Windows(a)) && AllFaithful(Windows(b))
    ensures Ascending(Packs(Windows(a))) == Ascending(Packs(Windows(b))) <==> Windows(a) == Windows(b)
  {
    var v, w := Windows(a), Windows(b);
    hide Windows;
    hide Packs;
    hide AllFaithful;
    hide Ascending;
    if Ascending(Packs(v)) == Ascending(Packs(w)) {
      assert Packs(v) == Packs(w) by {
        assert forall x :: x in Packs(v) <==> x in Packs(w);
      }
      SamePacks(v, w);
    }
  }

  lemma SubsetOfSameSize<T>(a: set<T>, b: set<T>)
    requires a <= b && |a| == |b|
    ensures a == b
  {
    assert b == a + (b - a);
    assert |b| == |a| + |b - a|;
  }

  /** Beyond eight bytes, or with a zero byte, different windows collide. */
  lemma LongOrZeroWindowsCollide()
    ensures exists a, b :: a != b && |a| == |b| == 12 && 0 !in a && 0 !in b && Pack(a) == Pack(b)
    ensures exists a, b :: a != b && |a| <= 8 && |b| <= 8 && Pack(a) == Pack(b)
  {
    var p: Bytes := [1, 1, 1, 1, 1, 1, 1, 1];
    assert |p| == 8 && 0 !in p;
    SameStart(p, [1, 1, 1, 1], [1, 1, 1, 2]);
    assert [1, 1, 1, 1][3] != [1, 1, 1, 2][3];
    var c: Bytes, d: Bytes := [1, 0], [1];
    PackExact(c, d);
    hide Pack;
    assert |c| != |d|;
  }

  lemma SameStart(p: Bytes, v: Bytes, w: Bytes)
    requires |p| == 8 && v != w
    ensures Pack(p + v) == Pack(p + w) && p + v != p + w
  {
    PackExact(p + v, p + w);
    hide Pack;
    assert (p + v)[8..] == v && (p + w)[8..] == w;
  }
}
