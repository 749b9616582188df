/** Ascending enumeration of finite sets of integers: the iteration order of
    std::map<int, T> and std::set<long>. */
module Ordered {

  ghost predicate StrictlyIncreasing(s: seq<int>) {
    forall i, j :: 0 <= i < j < |s| ==> s[i] < s[j]
  }

  lemma Member<T>(s: set<T>) returns (x: T)
    requires s != {}
    ensures x in s
  {
    x :| x in s;
  }

  /** Any member, for loops whose order of visits is left open. */
  method Pick<T>(s: set<T>) returns (x: T)
    requires s != {}
    ensures x in s
  {
    x :| x in s;
  }

  lemma {:induction false} MinimumExists(s: set<int>)
    requires s != {}
    ensures exists m :: m in s && forall x :: x in s ==> m <= x
  {
    var a := Member(s);
    var rest := s - {a};
    if rest == {} {
      assert s == {a};
    } else {
      MinimumExists(rest);
      var m :| m in rest && forall x :: x in rest ==> m <= x;
      var least := if a < m then a else m;
      assert least in s && forall x :: x in s ==> x == a || x in rest;
    }
  }

  function Minimum(s: set<int>): (m: int)
    requires s != {}
    ensures m in s && forall x :: x in s ==> m <= x
  {
    MinimumExists(s);
    var m :| m in s && forall x :: x in s ==> m <= x;
    m
  }

  function Ascending(s: set<int>): (r: seq<int>)
    ensures StrictlyIncreasing(r)
    ensures forall x :: x in r <==> x in s
    ensures |r| == |s|
  {
    if s == {} then [] else
    var m := Minimum(s);
    var rest := Ascending(s - {m});
    assert forall i :: 0 <= i < |rest| ==> rest[i] in s - {m};
    [m] + rest
  }

  lemma EmptyTogether<T>(a: seq<T>, b: seq<T>)
    requires forall x :: x in a <==> x in b
    ensures a == [] <==> b == []
  {
    if a != [] { assert a[0] in a; }
    if b != [] { assert b[0] in b; }
  }

  /** A strictly increasing sequence is determined by its elements. */
  lemma {:induction false} SortedIsUnique(a: seq<int>, b: seq<int>)
    requires StrictlyIncreasing(a) && StrictlyIncreasing(b)
    requires forall x :: x in a <==> x in b
    ensures a == b
  {
    EmptyTogether(a, b);
    if a != [] {
      assert a[0] in a && b[0] in b;
      assert a[0] == b[0];
      forall x ensures x in a[1..] <==> x in b[1..] {
        if x in a[1..] { assert x in a && x != a[0]; assert x in b; }
        if x in b[1..] { assert x in b && x != b[0]; assert x in a; }
      }
      SortedIsUnique(a[1..], b[1..]);
    }
  }

  /** Lexicographic order on strings. */
  predicate Less(a: string, b: string) {
    b != [] && (a == [] || a[0] < b[0] || (a[0] == b[0] && Less(a[1..], b[1..])))
  }

  lemma {:induction false} LessIsTotal(a: string, b: string)
    ensures a == b || Less(a, b) || Less(b, a)
    ensures !Less(a, a) && !(Less(a, b) && Less(b, a))
    decreases |a|
  {
    if a != [] {
      LessIsTotal(a[1..], if b == [] then [] else b[1..]);
      if b != [] && a[0] == b[0] && a[1..] == b[1..] {
        assert a == [a[0]] + a[1..] && b == [b[0]] + b[1..];
      }
    }
  }

  lemma {:induction false} LessIsTransitive(a: string, b: string, c: string)
    requires Less(a, b) && Less(b, c)
    ensures Less(a, c)
    decreases |a|
  {
    if a != [] && a[0] == b[0] == c[0] { LessIsTransitive(a[1..], b[1..], c[1..]); }
  }

  ghost predicate Alphabetical(s: seq<string>) {
    forall i, j :: 0 <= i < j < |s| ==> Less(s[i], s[j])
  }

  lemma {:induction false} LeastExists(s: set<string>)
    requires s != {}
    ensures exists m :: m in s && forall x :: x in s ==> x == m || Less(m, x)
  {
    var a := Member(s);
    var rest := s - {a};
    if rest == {} {
      assert s == {a};
    } else {
      LeastExists(rest);
      var m :| m in rest && forall x :: x in rest ==> x == m || Less(m, x);
      LessIsTotal(a, m);
      var least := if Less(a, m) then a else m;
      forall x | x in s ensures x == least || Less(least, x) {
        if x in rest && x != m && Less(a, m) { LessIsTransitive(a, m, x); }
      }
    }
  }

  /** The first key of a std::map<std::string, T> in its iteration order. */
  method Least(s: set<string>) returns (m: string)
    requires s != {}
    ensures m in s && forall x :: x in s ==> x == m || Less(m, x)
  {
    LeastExists(s);
    m :| m in s && forall x :: x in s ==> x == m || Less(m, x);
  }

  function InsertSorted(s: seq<string>, x: string): (r: seq<string>)
    ensures forall y :: y in r <==> y == x || y in s
  {
    if s == [] then [x]
    else if x == s[0] then s
    else if Less(x, s[0]) then [x] + s
    else [s[0]] + InsertSorted(s[1..], x)
  }

  /** std::sort followed by std::unique and erase. */
  function SortUnique(s: seq<string>): (r: seq<string>)
    ensures forall y :: y in r <==> y in s
  {
    if s == [] then [] else InsertSorted(SortUnique(s[1..]), s[0])
  }

  lemma {:induction false} InsertKeepsOrder(s: seq<string>, x: string)
    requires Alphabetical(s)
    ensures Alphabetical(InsertSorted(s, x))
  {
    if s != [] && x != s[0] {
      if Less(x, s[0]) {
        forall i | 0 < i < |s| ensures Less(x, s[i]) { LessIsTransitive(x, s[0], s[i]); }
      } else {
        LessIsTotal(x, s[0]);
        InsertKeepsOrder(s[1..], x);
        var rest := InsertSorted(s[1..], x);
        forall i | 0 <= i < |rest| ensures Less(s[0], rest[i]) { assert rest[i] in rest; }
      }
    }
  }

  /** Sorting and removing duplicates gives strict alphabetical order. */
  lemma {:induction false} SortUniqueIsAlphabetical(s: seq<string>)
    ensures Alphabetical(SortUnique(s))
  {
    if s != [] {
      SortUniqueIsAlphabetical(s[1..]);
      InsertKeepsOrder(SortUnique(s[1..]), s[0]);
    }
  }

  /** Strict alphabetical order is determined by the elements. */
  lemma {:induction false} AlphabeticalIsUnique(a: seq<string>, b: seq<string>)
    requires Alphabetical(a) && Alphabetical(b)
    requires forall x :: x in a <==> x in b
    ensures a == b
  {
    EmptyTogether(a, b);
    if a != [] {
      assert a[0] in b && b[0] in a;
      assert a[0] == b[0] by { LessIsTotal(a[0], b[0]); }
      forall x ensures x in a[1..] <==> x in b[1..] {
        if x in a[1..] { LessIsTotal(a[0], x); assert x in a; }
        if x in b[1..] { LessIsTotal(b[0], x); assert x in b; }
      }
      AlphabeticalIsUnique(a[1..], b[1..]);
    }
  }
}
