/** Bit strings, most significant bit first, and the number they denote. */
module Bits {

  type byte = x: int | 0 <= x < 256

  function Min(a: int, b: int): int {
    if a <= b then a else b
  }

  function Pow2(n: nat): (p: nat)
    ensures p >= 1
  {
    if n == 0 then 1 else 2 * Pow2(n - 1)
  }

  /** The number a bit string denotes. */
  function Value(b: seq<bool>): (v: nat)
    ensures v < Pow2(|b|)
  {
    if b == [] then 0 else 2 * Value(b[..|b| - 1]) + (if b[|b| - 1] then 1 else 0)
  }

  /** The low n bits of v. */
  function ToBits(v: nat, n: nat): (b: seq<bool>)
    ensures |b| == n
  {
    if n == 0 then [] else ToBits(v / 2, n - 1) + [v % 2 == 1]
  }

  /** Shift left by n. */
  function Shl(v: nat, n: nat): nat {
    if n == 0 then v else 2 * Shl(v, n - 1)
  }

  /** Logical shift right by n. */
  function Shr(v: nat, n: nat): nat {
    if n == 0 then v else Shr(v / 2, n - 1)
  }

  /** The low n bits of v as a number: v masked with 2^n - 1. */
  function Low(v: nat, n: nat): (w: nat)
    ensures w < Pow2(n)
  {
    if n == 0 then 0 else 2 * Low(v / 2, n - 1) + v % 2
  }

  lemma {:induction false} ShrLow(v: nat, n: nat)
    ensures v == Shl(Shr(v, n), n) + Low(v, n)
  {
    if n > 0 {
      ShrLow(v / 2, n - 1);
    }
  }

  lemma {:induction false} ShrBound(v: nat, m: nat, n: nat)
    requires v < Pow2(m + n)
    ensures Shr(v, n) < Pow2(m)
  {
    if n > 0 {
      ShrBound(v / 2, m, n - 1);
    }
  }

  /** Bitwise or of two unsigned numbers. */
  function Or(a: nat, b: nat): nat
    decreases a + b
  {
    if a == 0 && b == 0 then 0
    else 2 * Or(a / 2, b / 2) + (if a % 2 == 1 || b % 2 == 1 then 1 else 0)
  }

  /** Number of binary digits of v; 0 has none. */
  function BitLength(v: nat): nat {
    if v == 0 then 0 else 1 + BitLength(v / 2)
  }

  lemma {:induction false} Pow2Mono(m: nat, n: nat)
    requires m <= n
    ensures Pow2(m) <= Pow2(n)
  {
    if m < n {
      Pow2Mono(m, n - 1);
    }
  }

  /** Splitting v * 2^n + w into its high and low part. */
  lemma {:induction false} ShrLowUnique(v: nat, w: nat, n: nat)
    requires w < Pow2(n)
    ensures Shr(Shl(v, n) + w, n) == v
    ensures Low(Shl(v, n) + w, n) == w
  {
    if n > 0 {
      var x := Shl(v, n) + w;
      assert x / 2 == Shl(v, n - 1) + w / 2 && x % 2 == w % 2;
      ShrLowUnique(v, w / 2, n - 1);
    }
  }

  lemma ShlNone(v: nat)
    ensures Shl(v, 0) == v
  {
  }

  lemma {:induction false} ShlZero(n: nat)
    ensures Shl(0, n) == 0
  {
    if n > 0 {
      ShlZero(n - 1);
    }
  }

  lemma {:induction false} ShlShl(v: nat, m: nat, n: nat)
    ensures Shl(Shl(v, m), n) == Shl(v, m + n)
  {
    if n > 0 {
      ShlShl(v, m, n - 1);
    }
  }

  lemma {:induction false} ShlAdd(v: nat, w: nat, n: nat)
    ensures Shl(v + w, n) == Shl(v, n) + Shl(w, n)
  {
    if n > 0 {
      ShlAdd(v, w, n - 1);
    }
  }

  /** A number of m digits has m + n digits after shifting left by n. */
  lemma {:induction false} ShlBound(w: nat, m: nat, n: nat)
    requires w < Pow2(m)
    ensures Shl(w, n) + Pow2(n) <= Pow2(m + n)
  {
    if n > 0 {
      ShlBound(w, m, n - 1);
    }
  }

  lemma ToBitsNone(v: nat)
    ensures ToBits(v, 0) == []
  {
  }

  lemma {:induction false} ValueOfToBits(v: nat, n: nat)
    ensures Value(ToBits(v, n)) == Low(v, n)
  {
    if n > 0 {
      ValueOfToBits(v / 2, n - 1);
      assert ToBits(v, n)[..n - 1] == ToBits(v / 2, n - 1);
    }
  }

  lemma {:induction false} ToBitsMod(v: nat, m: nat, n: nat)
    requires n <= m
    ensures ToBits(Low(v, m), n) == ToBits(v, n)
  {
    if n > 0 {
      ToBitsMod(v / 2, m - 1, n - 1);
    }
  }

  /** Shifting a number left by n and adding n fresh low bits appends them. */
  lemma {:induction false} ToBitsAppend(v: nat, w: nat, m: nat, n: nat)
    requires w < Pow2(n)
    ensures ToBits(Shl(v, n) + w, m + n) == ToBits(v, m) + ToBits(w, n)
  {
    if n == 0 {
      assert ToBits(v, m) + ToBits(w, 0) == ToBits(v, m);
    } else {
      var x := Shl(v, n) + w;
      assert x / 2 == Shl(v, n - 1) + w / 2 && x % 2 == w % 2;
      ToBitsAppend(v, w / 2, m, n - 1);
      calc {
        ToBits(x, m + n);
        ToBits(x / 2, m + (n - 1)) + [w % 2 == 1];
        ToBits(v, m) + ToBits(w / 2, n - 1) + [w % 2 == 1];
        ToBits(v, m) + (ToBits(w / 2, n - 1) + [w % 2 == 1]);
      }
    }
  }

  /** Writing the high and the low part of a number one after the other. */
  lemma ToBitsSplit(v: nat, m: nat, n: nat)
    ensures ToBits(v, m + n) == ToBits(Shr(v, n), m) + ToBits(v, n)
  {
    ShrLow(v, n);
    ToBitsAppend(Shr(v, n), Low(v, n), m, n);
    ToBitsMod(v, n, n);
  }

  lemma {:induction false} ValueConcat(a: seq<bool>, b: seq<bool>)
    ensures Value(a + b) == Shl(Value(a), |b|) + Value(b)
  {
    if b == [] {
      assert a + b == a;
    } else {
      var b' := b[..|b| - 1];
      ValueConcat(a, b');
      var low := if b[|b| - 1] then 1 else 0;
      assert (a + b)[..|a + b| - 1] == a + b';
      assert Value(a + b) == 2 * Value(a + b') + low;
    }
  }

  lemma {:induction false} ValueLeadingZeros(n: nat, b: seq<bool>)
    ensures Value(Repeat(false, n) + b) == Value(b)
  {
    if n == 0 {
      assert Repeat(false, n) + b == b;
    } else {
      ValueLeadingZeros(n - 1, [false] + b);
      assert Repeat(false, n) + b == Repeat(false, n - 1) + ([false] + b);
      ValueConcat([false], b);
      ShlZero(|b|);
    }
  }

  function Repeat<T>(x: T, n: nat): (s: seq<T>)
    ensures |s| == n
    ensures forall k :: 0 <= k < n ==> s[k] == x
  {
    seq(n, _ => x)
  }

  /** Or of numbers that share no set bit is their sum. */
  lemma {:induction false} OrDisjoint(v: nat, w: nat, n: nat)
    requires w < Pow2(n)
    ensures Or(Shl(v, n), w) == Shl(v, n) + w
  {
    if n == 0 {
      OrZero(v);
    } else {
      var x := Shl(v, n);
      assert x == 2 * (Shl(v, n - 1));
      OrDisjoint(v, w / 2, n - 1);
    }
  }

  lemma {:induction false} OrZero(v: nat)
    ensures Or(v, 0) == v && Or(0, v) == v
  {
    if v > 0 {
      OrZero(v / 2);
    }
  }

  lemma {:induction false} BitLengthBounds(v: nat)
    requires v > 0
    ensures BitLength(v) >= 1
    ensures Pow2(BitLength(v) - 1) <= v < Pow2(BitLength(v))
  {
    if v > 1 {
      BitLengthBounds(v / 2);
    }
  }

  /** Shifting right by n removes n digits. */
  lemma {:induction false} BitLengthShift(v: nat, n: nat)
    requires Pow2(n) <= v
    ensures BitLength(Shr(v, n)) == BitLength(v) - n
    ensures Shr(v, n) > 0
  {
    if n > 0 {
      BitLengthShift(v / 2, n - 1);
    }
  }

  lemma Assoc<T>(a: seq<T>, b: seq<T>, c: seq<T>)
    ensures (a + b) + c == a + (b + c)
    ensures a + [] == a
  {
  }

  lemma RepeatSnoc<T>(x: T, k: nat)
    ensures Repeat(x, k + 1) == Repeat(x, k) + [x]
  {
  }

  lemma {:induction false} ToBitsZero(k: nat)
    ensures ToBits(0, k) == Repeat(false, k)
  {
    if k > 0 {
      ToBitsZero(k - 1);
      hide Repeat;
      RepeatSnoc(false, k - 1);
    }
  }

  lemma {:induction false} ToBitsOnes(k: nat)
    ensures ToBits(Pow2(k) - 1, k) == Repeat(true, k)
  {
    if k > 0 {
      ToBitsOnes(k - 1);
      hide Pow2, Repeat;
      RepeatSnoc(true, k - 1);
      Pow2Halves(k);
    }
  }

  lemma Pow2Halves(k: nat)
    requires k > 0
    ensures (Pow2(k) - 1) / 2 == Pow2(k - 1) - 1 && (Pow2(k) - 1) % 2 == 1
  {
  }

  // ----- bytes -------------------------------------------------------------

  /** The bits of a run of bytes. */
  function Flatten(s: seq<byte>): (b: seq<bool>)
    ensures |b| == 8 * |s|
  {
    if s == [] then [] else ToBits(s[0], 8) + Flatten(s[1..])
  }

  lemma {:induction false} FlattenConcat(s: seq<byte>, t: seq<byte>)
    ensures Flatten(s + t) == Flatten(s) + Flatten(t)
  {
    if s == [] {
      assert s + t == t;
    } else {
      FlattenConcat(s[1..], t);
      assert (s + t)[1..] == s[1..] + t;
    }
  }

  lemma FlattenSnoc(s: seq<byte>, b: byte)
    ensures Flatten(s + [b]) == Flatten(s) + ToBits(b, 8)
  {
    FlattenConcat(s, [b]);
    assert Flatten([b]) == ToBits(b, 8) + Flatten([]);
  }

  lemma {:induction false} FlattenDrop(s: seq<byte>, k: nat)
    requires k <= |s|
    ensures Flatten(s)[8 * k..] == Flatten(s[k..])
  {
    assert s == s[..k] + s[k..];
    FlattenConcat(s[..k], s[k..]);
  }

  /** The leading bits of a number are the number shifted right. */
  lemma ValuePrefix(b: seq<bool>, n: nat)
    requires n <= |b|
    ensures Value(b[..n]) == Shr(Value(b), |b| - n)
  {
    hide Value, Shl, Shr, Low, Pow2;
    assert b == b[..n] + b[n..];
    ValueConcat(b[..n], b[n..]);
    ShrLowUnique(Value(b[..n]), Value(b[n..]), |b| - n);
  }

  /** The trailing bits of a number are the number masked. */
  lemma ValueSuffix(b: seq<bool>, n: nat)
    requires n <= |b|
    ensures Value(b[|b| - n..]) == Low(Value(b), n)
  {
    hide Value, Shl, Shr, Low, Pow2;
    var k := |b| - n;
    assert b == b[..k] + b[k..];
    ValueConcat(b[..k], b[k..]);
    ShrLowUnique(Value(b[..k]), Value(b[k..]), n);
  }

  lemma {:induction false} ValueTrailingZeros(b: seq<bool>, n: nat)
    ensures Value(b + Repeat(false, n)) == Shl(Value(b), n)
  {
    ValueConcat(b, Repeat(false, n));
    ValueLeadingZeros(n, []);
    assert Repeat(false, n) + [] == Repeat(false, n);
  }
}
