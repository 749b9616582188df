/** The hash of include/wookie/hash.hpp, on 64-bit words: `long` and uint64_t hold the same
    bits, and only the shift of the finaliser sees the sign. The multiplier is
    0xc6a4a7935bd1e995; its inverse modulo 2^64 is 0x5f7a0ea7e59b19bd. */
module Murmur {

  type Bytes = seq<bv8>

  function Times(x: bv64): bv64 { x * 0xc6a4a7935bd1e995 }

  function UnTimes(x: bv64): bv64 { x * 0x5f7a0ea7e59b19bd }

  lemma UnTimesTimes(x: bv64)
    ensures UnTimes(x * 0xc6a4a7935bd1e995) == x
  {
  }

  lemma TimesInjective(x: bv64, y: bv64)
    ensures Times(x) == Times(y) <==> x == y
  {
    UnTimesTimes(x);
    UnTimesTimes(y);
    hide UnTimes;
  }

  function XorShift(x: bv64): bv64 { x ^ (x >> 47) }

  lemma XorShiftUndone(x: bv64)
    ensures XorShift(x ^ (x >> 47)) == x
  {
  }

  lemma XorShiftTwice(x: bv64, y: bv64)
    requires y == x ^ (x >> 47)
    ensures XorShift(y) == x
  {
    XorShiftUndone(x);
    hide XorShift;
  }

  lemma XorShiftIs(x: bv64)
    ensures XorShift(x) == x ^ (x >> 47)
  {
  }

  /** The unsigned xor-shift by 47 is its own inverse. */
  lemma XorShiftIsItsOwnInverse(x: bv64)
    ensures XorShift(XorShift(x)) == x
  {
    hide XorShift;
    XorShiftIs(x);
    XorShiftTwice(x, XorShift(x));
  }

  /** The mixing of one 8-byte block. */
  function Mix(k: bv64): bv64 { Times(XorShift(Times(k))) }

  lemma MixInjective(x: bv64, y: bv64)
    ensures Mix(x) == Mix(y) <==> x == y
  {
    hide Times;
    hide XorShift;
    TimesInjective(XorShift(Times(x)), XorShift(Times(y)));
    XorShiftIsItsOwnInverse(Times(x));
    XorShiftIsItsOwnInverse(Times(y));
    TimesInjective(x, y);
  }

  function Xor(h: bv64, k: bv64): bv64 { h ^ k }

  lemma XorUndone(h: bv64, k: bv64)
    ensures Xor(Xor(h, k), k) == h && Xor(Xor(h, k), h) == k
  {
  }

  lemma XorInjectiveLeft(h: bv64, h': bv64, k: bv64)
    ensures Xor(h, k) == Xor(h', k) <==> h == h'
  {
    hide Xor;
    XorUndone(h, k);
    XorUndone(h', k);
  }

  lemma XorInjectiveRight(h: bv64, k: bv64, k': bv64)
    ensures Xor(h, k) == Xor(h, k') <==> k == k'
  {
    hide Xor;
    XorUndone(h, k);
    XorUndone(h, k');
  }

  /** Eight bytes read as a little-endian word. */
  function Joined(b0: bv8, b1: bv8, b2: bv8, b3: bv8, b4: bv8, b5: bv8, b6: bv8, b7: bv8): bv64 {
    (b0 as bv64) | ((b1 as bv64) << 8) | ((b2 as bv64) << 16) | ((b3 as bv64) << 24)
    | ((b4 as bv64) << 32) | ((b5 as bv64) << 40) | ((b6 as bv64) << 48) | ((b7 as bv64) << 56)
  }

  function Word(b: Bytes): bv64
    requires |b| == 8
  {
    Joined(b[0], b[1], b[2], b[3], b[4], b[5], b[6], b[7])
  }

  function Unword(w: bv64): Bytes {
    [(w & 0xff) as bv8, ((w >> 8) & 0xff) as bv8, ((w >> 16) & 0xff) as bv8, ((w >> 24) & 0xff) as bv8,
     ((w >> 32) & 0xff) as bv8, ((w >> 40) & 0xff) as bv8, ((w >> 48) & 0xff) as bv8, ((w >> 56) & 0xff) as bv8]
  }

  lemma UnwordBytes(b0: bv8, b1: bv8, b2: bv8, b3: bv8, b4: bv8, b5: bv8, b6: bv8, b7: bv8)
    ensures Unword((b0 as bv64) | ((b1 as bv64) << 8) | ((b2 as bv64) << 16) | ((b3 as bv64) << 24)
                   | ((b4 as bv64) << 32) | ((b5 as bv64) << 40) | ((b6 as bv64) << 48) | ((b7 as bv64) << 56))
            == [b0, b1, b2, b3, b4, b5, b6, b7]
  {
  }

  lemma JoinedIs(b0: bv8, b1: bv8, b2: bv8, b3: bv8, b4: bv8, b5: bv8, b6: bv8, b7: bv8)
    ensures Joined(b0, b1, b2, b3, b4, b5, b6, b7) ==
            (b0 as bv64) | ((b1 as bv64) << 8) | ((b2 as bv64) << 16) | ((b3 as bv64) << 24)
            | ((b4 as bv64) << 32) | ((b5 as bv64) << 40) | ((b6 as bv64) << 48) | ((b7 as bv64) << 56)
  {
  }

  lemma UnwordJoined(b0: bv8, b1: bv8, b2: bv8, b3: bv8, b4: bv8, b5: bv8, b6: bv8, b7: bv8)
    ensures Unword(Joined(b0, b1, b2, b3, b4, b5, b6, b7)) == [b0, b1, b2, b3, b4, b5, b6, b7]
  {
    hide *;
    UnwordBytes(b0, b1, b2, b3, b4, b5, b6, b7);
    JoinedIs(b0, b1, b2, b3, b4, b5, b6, b7);
  }

  lemma UnwordWord(b: Bytes)
    requires |b| == 8
    ensures Unword(Word(b)) == b
  {
    hide Unword;
    hide Joined;
    UnwordJoined(b[0], b[1], b[2], b[3], b[4], b[5], b[6], b[7]);
    assert b == [b[0], b[1], b[2], b[3], b[4], b[5], b[6], b[7]];
  }

  lemma WordInjective(a: Bytes, b: Bytes)
    requires |a| == |b| == 8
    ensures Word(a) == Word(b) <==> a == b
  {
    hide Word;
    hide Unword;
    UnwordWord(a);
    UnwordWord(b);
  }

  /** The body of the loop over whole blocks. */
  function Absorb(h: bv64, k: bv64): bv64 { Times(Xor(h, Mix(k))) }

  lemma AbsorbInjective(h: bv64, h': bv64, k: bv64, k': bv64)
    ensures Absorb(h, k) == Absorb(h', k) <==> h == h'
    ensures Absorb(h, k) == Absorb(h, k') <==> k == k'
  {
    hide Times;
    hide Xor;
    hide Mix;
    TimesInjective(Xor(h, Mix(k)), Xor(h', Mix(k)));
    XorInjectiveLeft(h, h', Mix(k));
    TimesInjective(Xor(h, Mix(k)), Xor(h, Mix(k')));
    XorInjectiveRight(h, Mix(k), Mix(k'));
    MixInjective(k, k');
  }

  function Block(str: Bytes, i: nat): (b: Bytes)
    requires 8 * i + 8 <= |str|
    ensures |b| == 8
  {
    str[8 * i..8 * i + 8]
  }

  /** The length as an unsigned 64-bit number. */
  function SizeWord(n: nat): bv64 { (n % 0x1_0000_0000_0000_0000) as bv64 }

  function Init(seed: bv64, n: nat): bv64 { Xor(seed, Times(SizeWord(n))) }

  /** The state after the first i blocks. */
  function State(str: Bytes, seed: bv64, i: nat): bv64
    requires 8 * i <= |str|
  {
    if i == 0 then Init(seed, |str|) else Absorb(State(str, seed, i - 1), Word(Block(str, i - 1)))
  }

  function Tail(str: Bytes): (t: Bytes)
    ensures |t| < 8
  {
    str[8 * (|str| / 8)..]
  }

  /** The tail with zero bytes up to a whole block. */
  function Padded(t: Bytes): (p: Bytes)
    requires |t| < 8
    ensures |p| == 8 && p[..|t|] == t
  {
    t + seq(8 - |t|, (i: nat) => 0)
  }

  /** The state before the finaliser. */
  function PreFinal(str: Bytes, seed: bv64): bv64 {
    var h := State(str, seed, |str| / 8);
    if |Tail(str)| == 0 then h else Times(Xor(h, Word(Padded(Tail(str)))))
  }

  /** Shift right by 47 with copies of the sign, as on a signed long. */
  function SignedXorShift(x: bv64): bv64 {
    if Negative(x) then NegativeShift(x) else XorShift(x)
  }

  predicate Negative(x: bv64) { x & 0x8000_0000_0000_0000 != 0 }

  function Finalise(h: bv64): bv64 { SignedXorShift(Times(SignedXorShift(h))) }

  /** One step of the switch for the remaining bytes. */
  function XorByte0(h: bv64, b: bv8): bv64 { h ^ (b as bv64) }
  function XorByte1(h: bv64, b: bv8): bv64 { h ^ ((b as bv64) << 8) }
  function XorByte2(h: bv64, b: bv8): bv64 { h ^ ((b as bv64) << 16) }
  function XorByte3(h: bv64, b: bv8): bv64 { h ^ ((b as bv64) << 24) }
  function XorByte4(h: bv64, b: bv8): bv64 { h ^ ((b as bv64) << 32) }
  function XorByte5(h: bv64, b: bv8): bv64 { h ^ ((b as bv64) << 40) }
  function XorByte6(h: bv64, b: bv8): bv64 { h ^ ((b as bv64) << 48) }
  function XorByte7(h: bv64, b: bv8): bv64 { h ^ ((b as bv64) << 56) }

  lemma ZeroBytes(h: bv64)
    ensures XorByte0(h, 0) == h && XorByte1(h, 0) == h && XorByte2(h, 0) == h && XorByte3(h, 0) == h
    ensures XorByte4(h, 0) == h && XorByte5(h, 0) == h && XorByte6(h, 0) == h && XorByte7(h, 0) == h
  {
  }

  /** All steps of the switch, from the last byte to the first. */
  function XorBytes(h: bv64, p: Bytes): bv64
    requires |p| == 8
  {
    XorByte0(XorByte1(XorByte2(XorByte3(XorByte4(XorByte5(XorByte6(XorByte7(h, p[7]), p[6]), p[5]), p[4]), p[3]),
      p[2]), p[1]), p[0])
  }

  lemma XorEightBytes(h: bv64, b0: bv8, b1: bv8, b2: bv8, b3: bv8, b4: bv8, b5: bv8, b6: bv8, b7: bv8)
    ensures XorByte0(XorByte1(XorByte2(XorByte3(XorByte4(XorByte5(XorByte6(XorByte7(h, b7), b6), b5), b4), b3), b2),
            b1), b0) ==
            h ^ ((b0 as bv64) | ((b1 as bv64) << 8) | ((b2 as bv64) << 16) | ((b3 as bv64) << 24)
                 | ((b4 as bv64) << 32) | ((b5 as bv64) << 40) | ((b6 as bv64) << 48) | ((b7 as bv64) << 56))
  {
  }

  lemma XorIs(h: bv64, k: bv64)
    ensures Xor(h, k) == h ^ k
  {
  }

  lemma XorJoined(h: bv64, b0: bv8, b1: bv8, b2: bv8, b3: bv8, b4: bv8, b5: bv8, b6: bv8, b7: bv8)
    ensures XorByte0(XorByte1(XorByte2(XorByte3(XorByte4(XorByte5(XorByte6(XorByte7(h, b7), b6), b5), b4), b3), b2),
            b1), b0)
            == Xor(h, Joined(b0, b1, b2, b3, b4, b5, b6, b7))
  {
    hide *;
    XorEightBytes(h, b0, b1, b2, b3, b4, b5, b6, b7);
    JoinedIs(b0, b1, b2, b3, b4, b5, b6, b7);
    XorIs(h, (b0 as bv64) | ((b1 as bv64) << 8) | ((b2 as bv64) << 16) | ((b3 as bv64) << 24)
             | ((b4 as bv64) << 32) | ((b5 as bv64) << 40) | ((b6 as bv64) << 48) | ((b7 as bv64) << 56));
  }

  lemma XorBytesIsXorWord(h: bv64, p: Bytes)
    requires |p| == 8
    ensures XorBytes(h, p) == Xor(h, Word(p))
  {
    hide XorByte0;
    hide XorByte1;
    hide XorByte2;
    hide XorByte3;
    hide XorByte4;
    hide XorByte5;
    hide XorByte6;
    hide XorByte7;
    hide Xor;
    hide Joined;
    XorJoined(h, p[0], p[1], p[2], p[3], p[4], p[5], p[6], p[7]);
  }

  /** murmur(): the hash of a byte string. */
  method Murmur(str: Bytes, seed: bv64) returns (h: bv64)
    ensures h == Finalise(PreFinal(str, seed))
  {
    hide Times;
    hide Xor;
    hide Word;
    hide XorShift;
    hide SizeWord;
    hide Finalise;
    h := Xor(seed, Times(SizeWord(|str|)));
    var data := 0;
    while data != |str| / 8
      invariant 0 <= data <= |str| / 8
      invariant h == State(str, seed, data)
    {
      var k := Word(Block(str, data));
      data := data + 1;
      k := Times(k);
      k := XorShift(k);
      k := Times(k);
      h := Xor(h, k);
      h := Times(h);
    }
    var rest := Tail(str);
    if |rest| != 0 {
      h := Switch(h, rest);
    }
    h := FinishHash(h);
  }

  /** The switch on the number of remaining bytes, each case falling through. */
  method Switch(h0: bv64, rest: Bytes) returns (h: bv64)
    requires 1 <= |rest| <= 7
    ensures h == Times(Xor(h0, Word(Padded(rest))))
  {
    hide Times;
    hide Xor;
    hide Word;
    hide XorByte0;
    hide XorByte1;
    hide XorByte2;
    hide XorByte3;
    hide XorByte4;
    hide XorByte5;
    hide XorByte6;
    hide XorByte7;
    ghost var p := Padded(rest);
    h := h0;
    ZeroBytes(h);
    assert h == XorByte7(h0, p[7]);
    if |rest| >= 7 { h := XorByte6(h, rest[6]); }
    assert h == XorByte6(h0, p[6]) == XorByte6(XorByte7(h0, p[7]), p[6]);
    ghost var h6 := h;
    ZeroBytes(h);
    if |rest| >= 6 { h := XorByte5(h, rest[5]); }
    assert h == XorByte5(h6, p[5]);
    ghost var h5 := h;
    ZeroBytes(h);
    if |rest| >= 5 { h := XorByte4(h, rest[4]); }
    assert h == XorByte4(h5, p[4]);
    ghost var h4 := h;
    ZeroBytes(h);
    if |rest| >= 4 { h := XorByte3(h, rest[3]); }
    assert h == XorByte3(h4, p[3]);
    ghost var h3 := h;
    ZeroBytes(h);
    if |rest| >= 3 { h := XorByte2(h, rest[2]); }
    assert h == XorByte2(h3, p[2]);
    ghost var h2 := h;
    ZeroBytes(h);
    if |rest| >= 2 { h := XorByte1(h, rest[1]); }
    assert h == XorByte1(h2, p[1]);
    h := XorByte0(h, rest[0]);
    assert h == XorBytes(h0, p);
    XorBytesIsXorWord(h0, p);
    h := Times(h);
  }

  method FinishHash(h0: bv64) returns (h: bv64)
    ensures h == Finalise(h0)
  {
    h := SignedXorShift(h0);
    h := Times(h);
    h := SignedXorShift(h);
  }

  lemma {:induction false} StateFollows(a: Bytes, b: Bytes, seed: bv64, from: nat, i: nat)
    requires |a| == |b| && from <= i && 8 * i <= |a|
    requires forall k :: from <= k < i ==> Block(a, k) == Block(b, k)
    ensures State(a, seed, i) == State(b, seed, i) <==> State(a, seed, from) == State(b, seed, from)
    decreases i
  {
    hide Absorb;
    hide Word;
    hide Init;
    hide Block;
    if from < i {
      StateFollows(a, b, seed, from, i - 1);
      AbsorbInjective(State(a, seed, i - 1), State(b, seed, i - 1), Word(Block(a, i - 1)), 0);
    }
  }

  /** Two inputs of equal length that differ in exactly one aligned 8-byte block reach
      different states in front of the finaliser. */
  lemma {:induction false} OneBlockIsNeverLost(a: Bytes, b: Bytes, seed: bv64, j: nat)
    requires |a| == |b| && 8 * j + 8 <= |a|
    requires Block(a, j) != Block(b, j) && a[..8 * j] == b[..8 * j] && a[8 * j + 8..] == b[8 * j + 8..]
    ensures PreFinal(a, seed) != PreFinal(b, seed)
  {
    hide Absorb;
    hide Word;
    hide Times;
    hide Xor;
    hide Block;
    hide Tail;
    hide Padded;
    hide Init;
    var n := |a| / 8;
    SameElsewhere(a, b, j);
    StateFollows(a, b, seed, 0, j);
    WordInjective(Block(a, j), Block(b, j));
    AbsorbInjective(State(a, seed, j), 0, Word(Block(a, j)), Word(Block(b, j)));
    StateFollows(a, b, seed, j + 1, n);
    TailInjective(State(a, seed, n), State(b, seed, n), Tail(a));
  }

  lemma {:induction false} SameElsewhere(a: Bytes, b: Bytes, j: nat)
    requires |a| == |b| && 8 * j + 8 <= |a|
    requires a[..8 * j] == b[..8 * j] && a[8 * j + 8..] == b[8 * j + 8..]
    ensures forall k: nat :: k < |a| / 8 && k != j ==> Block(a, k) == Block(b, k)
    ensures Tail(a) == Tail(b)
  {
    var n := |a| / 8;
    forall k: nat | k < n && k != j ensures Block(a, k) == Block(b, k) {
      SameBlock(a, b, j, k);
    }
    assert Tail(a) == a[8 * j + 8..][8 * (n - j - 1)..];
    assert Tail(b) == b[8 * j + 8..][8 * (n - j - 1)..];
  }

  lemma SameBlock(a: Bytes, b: Bytes, j: nat, k: nat)
    requires |a| == |b| && 8 * j + 8 <= |a| && 8 * k + 8 <= |a| && k != j
    requires a[..8 * j] == b[..8 * j] && a[8 * j + 8..] == b[8 * j + 8..]
    ensures Block(a, k) == Block(b, k)
  {
    if k < j {
      assert Block(a, k) == a[..8 * j][8 * k..8 * k + 8];
      assert Block(b, k) == b[..8 * j][8 * k..8 * k + 8];
    } else {
      assert Block(a, k) == a[8 * j + 8..][8 * (k - j - 1)..8 * (k - j - 1) + 8];
      assert Block(b, k) == b[8 * j + 8..][8 * (k - j - 1)..8 * (k - j - 1) + 8];
    }
  }

  lemma TailInjective(h: bv64, h': bv64, t: Bytes)
    requires |t| < 8
    ensures Times(Xor(h, Word(Padded(t)))) == Times(Xor(h', Word(Padded(t)))) <==> h == h'
  {
    hide Times;
    hide Xor;
    hide Word;
    var w := Word(Padded(t));
    TimesInjective(Xor(h, w), Xor(h', w));
    XorInjectiveLeft(h, h', w);
  }

  /** The same for two inputs that differ only behind the last whole block. */
  lemma {:induction false} TailIsNeverLost(a: Bytes, b: Bytes, seed: bv64)
    requires |a| == |b| && a != b && a[..8 * (|a| / 8)] == b[..8 * (|a| / 8)]
    ensures PreFinal(a, seed) != PreFinal(b, seed)
  {
    hide Times;
    hide Xor;
    hide Word;
    hide Absorb;
    var n := |a| / 8;
    forall k: nat | k < n ensures Block(a, k) == Block(b, k) {
      assert Block(a, k) == a[..8 * n][8 * k..8 * k + 8];
      assert Block(b, k) == b[..8 * n][8 * k..8 * k + 8];
    }
    StateFollows(a, b, seed, 0, n);
    assert State(a, seed, 0) == State(b, seed, 0);
    var h, p, q := State(a, seed, n), Padded(Tail(a)), Padded(Tail(b));
    assert Tail(a) != Tail(b) by {
      assert a == a[..8 * n] + Tail(a) && b == b[..8 * n] + Tail(b);
    }
    assert p != q by {
      assert p[..|Tail(a)|] == Tail(a) && q[..|Tail(a)|] == Tail(b);
    }
    WordInjective(p, q);
    TimesInjective(Xor(h, Word(p)), Xor(h, Word(q)));
    XorInjectiveRight(h, Word(p), Word(q));
  }

  function Not(x: bv64): bv64 { !x }

  lemma NotNot(x: bv64)
    ensures Not(Not(x)) == x && (Negative(Not(x)) <==> !Negative(x))
  {
  }

  /** The shift of a negative word, which fills with ones. */
  function NegativeShift(x: bv64): bv64 { x ^ ((x >> 47) | 0xffff_ffff_fffe_0000) }

  lemma FillIsNotShift(x: bv64)
    ensures (x >> 47) | 0xffff_ffff_fffe_0000 == !((!x) >> 47)
  {
  }

  lemma XorNot(x: bv64, y: bv64)
    ensures x ^ !y == (!x) ^ y
  {
  }

  lemma NegativeShiftIs(x: bv64)
    ensures NegativeShift(x) == XorShift(!x)
  {
    FillIsNotShift(x);
    XorNot(x, (!x) >> 47);
  }

  lemma NotIs(x: bv64)
    ensures Not(x) == !x
  {
  }

  function Magnitude(x: bv64): bv64 { if Negative(x) then Not(x) else x }

  lemma SignedIsUnsignedOfMagnitude(x: bv64)
    ensures SignedXorShift(x) == XorShift(Magnitude(x))
  {
    hide NegativeShift;
    hide XorShift;
    hide Not;
    if Negative(x) {
      NegativeShiftIs(x);
      NotIs(x);
    }
    hide Negative;
  }

  lemma MagnitudeTwoToOne(x: bv64, y: bv64)
    ensures Magnitude(x) == Magnitude(y) <==> x == y || x == Not(y)
  {
    hide Negative;
    hide Not;
    NotNot(x);
    NotNot(y);
  }

  /** The arithmetic shift makes the xor-shift two-to-one: a word and its complement
      collide, and nothing else does. */
  lemma SignedXorShiftTwoToOne(x: bv64, y: bv64)
    ensures SignedXorShift(x) == SignedXorShift(y) <==> x == y || x == Not(y)
  {
    hide Not;
    hide XorShift;
    hide SignedXorShift;
    hide Magnitude;
    SignedIsUnsignedOfMagnitude(x);
    SignedIsUnsignedOfMagnitude(y);
    XorShiftIsItsOwnInverse(Magnitude(x));
    XorShiftIsItsOwnInverse(Magnitude(y));
    MagnitudeTwoToOne(x, y);
  }

  /** Which states the finaliser maps to the same hash: in particular every state and its
      complement. */
  lemma FinaliserCollisions(x: bv64, y: bv64)
    ensures Finalise(x) == Finalise(y) <==>
            x == y || x == Not(y) || Times(SignedXorShift(x)) == Not(Times(SignedXorShift(y)))
  {
    hide Not;
    hide Times;
    hide SignedXorShift;
    SignedXorShiftTwoToOne(x, y);
    SignedXorShiftTwoToOne(Times(SignedXorShift(x)), Times(SignedXorShift(y)));
    TimesInjective(SignedXorShift(x), SignedXorShift(y));
  }

  lemma KnownProducts()
    ensures Times(9) == 0xfbc9e42e3a61363d && Times(0x6867666564636261) == 0x0a39ef30ae938b75
    ensures Times(0x0a39ef30ae939f06) == 0x5291c0b7ed8e047e && Times(0xa9582499d7ef3241) == 0xdabee68b850668d5
    ensures Times(0xdabee68b850668bc) == 0xf292d4b1978a116c && Times(0x0d6d2b4e6875f449) == 0x49f4acc38a969f7d
  {
  }

  lemma KnownXors()
    ensures XorShift(0x0a39ef30ae938b75) == 0x0a39ef30ae939f06
    ensures Xor(2, 0xfbc9e42e3a61363d) == 0xfbc9e42e3a61363f
    ensures Xor(0xfbc9e42e3a61363f, 0x5291c0b7ed8e047e) == 0xa9582499d7ef3241
    ensures Xor(0xdabee68b850668d5, 0x69) == 0xdabee68b850668bc
  {
  }

  lemma KnownSigned()
    ensures SignedXorShift(0xf292d4b1978a116c) == 0x0d6d2b4e6875f449
    ensures SignedXorShift(0x49f4acc38a969f7d) == 0x49f4acc38a960c94
  {
  }

  lemma KnownWords()
    ensures Joined(0x61, 0x62, 0x63, 0x64, 0x65, 0x66, 0x67, 0x68) == 0x6867666564636261
    ensures Joined(0x69, 0, 0, 0, 0, 0, 0, 0) == 0x69
  {
  }

  lemma KnownSize()
    ensures SizeWord(9) == 9
  {
    assert 9 % 0x1_0000_0000_0000_0000 == 9;
    assert (9 as int) as bv64 == 9;
  }

  /** One hash worked out to the end: "abcdefghi" with the seed 2, a block, a tail, and a
      negative and a positive word in the finaliser. */
  lemma KnownHash()
    ensures var str: Bytes := [0x61, 0x62, 0x63, 0x64, 0x65, 0x66, 0x67, 0x68, 0x69];
            Finalise(PreFinal(str, 2)) == 0x49f4acc38a960c94
  {
    KnownProducts();
    KnownXors();
    KnownSigned();
    KnownWords();
    KnownSize();
    hide Times;
    hide XorShift;
    hide Xor;
    hide SignedXorShift;
    hide Joined;
    hide SizeWord;
    var str: Bytes := [0x61, 0x62, 0x63, 0x64, 0x65, 0x66, 0x67, 0x68, 0x69];
    assert Block(str, 0) == [0x61, 0x62, 0x63, 0x64, 0x65, 0x66, 0x67, 0x68];
    assert Tail(str) == [0x69];
    assert Padded(Tail(str)) == [0x69, 0, 0, 0, 0, 0, 0, 0];
    assert State(str, 2, 0) == 0xfbc9e42e3a61363f;
    assert State(str, 2, 1) == 0xdabee68b850668d5;
    assert PreFinal(str, 2) == 0xf292d4b1978a116c;
  }
}
