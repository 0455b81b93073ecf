/** Bits, bytes and 32-bit words.

    A word is the sequence of its 32 bits, most significant first, so the
    left-justified caches of the decoder are prefixes of it. The lemmas at the
    end tie shifting, or-ing and extracting to unsigned integer arithmetic. */
module Bits {

  type Byte = b: int | 0 <= b < 256

  type Word = w: seq<bool> | |w| == 32 witness seq(32, _ => false)

  function Pow2(n: nat): (r: nat)
    ensures r >= 1
  {
    if n == 0 then 1 else 2 * Pow2(n - 1)
  }

  /** The unsigned number whose binary digits are s, most significant first. */
  function Value(s: seq<bool>): (v: nat)
    ensures v < Pow2(|s|)
  {
    if s == [] then 0 else 2 * Value(s[..|s| - 1]) + (if s[|s| - 1] then 1 else 0)
  }

  function Zeros(n: nat): seq<bool> {
    seq(n, _ => false)
  }

  /** The n low binary digits of v, most significant first. */
  function Digits(v: nat, n: nat): (s: seq<bool>)
    ensures |s| == n
  {
    if n == 0 then [] else Digits(v / 2, n - 1) + [v % 2 == 1]
  }

  function ByteBits(b: Byte): (s: seq<bool>)
    ensures |s| == 8
  {
    Digits(b, 8)
  }

  /** Bit i of a byte buffer read most significant bit first. */
  predicate BitAt(buf: seq<Byte>, i: nat)
    requires i < 8 * |buf|
  {
    ByteBits(buf[i / 8])[i % 8]
  }

  /** The n bits of buf that start at bit offset off. */
  function BitsOf(buf: seq<Byte>, off: nat, n: nat): (s: seq<bool>)
    requires off + n <= 8 * |buf|
    ensures |s| == n
    ensures forall i :: 0 <= i < n ==> s[i] == BitAt(buf, off + i)
  {
    seq(n, i requires 0 <= i < n => BitAt(buf, off + i))
  }

  /** Bit i of b, with zeros after its end. */
  predicate ZBit(b: seq<bool>, i: nat) {
    i < |b| && b[i]
  }

  /** The m bits of b from position p on, with zeros after its end. */
  function Window(b: seq<bool>, p: nat, m: nat): (w: seq<bool>)
    ensures |w| == m
    ensures forall i :: 0 <= i < m ==> w[i] == ZBit(b, p + i)
  {
    seq(m, i requires 0 <= i < m => ZBit(b, p + i))
  }

  // ----- the word operations of the C code

  function Shl(w: Word, n: nat): Word {
    if n >= 32 then Zeros(32) else w[n..] + Zeros(n)
  }

  function Or(a: Word, b: Word): Word {
    seq(32, i requires 0 <= i < 32 => a[i] || b[i])
  }

  function ByteShl(b: Byte, n: nat): Word {
    Shl(Zeros(24) + ByteBits(b), n)
  }

  /** w >> (32 - n): the number in the n most significant bits. */
  function Top(w: Word, n: nat): nat
    requires n <= 32
  {
    Value(w[..n])
  }

  /** w & ((signed int)0x80000000 >> (n - 1)): keep the n most significant bits. */
  function KeepTop(w: Word, n: nat): Word
    requires n <= 32
  {
    w[..n] + Zeros(32 - n)
  }

  // ----- ties to integer arithmetic

  lemma Pow2Add(a: nat, b: nat)
    ensures Pow2(a + b) == Pow2(a) * Pow2(b)
  {
    if a > 0 {
      Pow2Add(a - 1, b);
      assert Pow2(a + b) == 2 * Pow2(a - 1 + b);
      assert Pow2(a) * Pow2(b) == 2 * (Pow2(a - 1) * Pow2(b));
    }
  }

  lemma ConcatStep(va: nat, p: nat, vc: nat, bit: nat)
    ensures 2 * (va * p + vc) + bit == va * (2 * p) + (2 * vc + bit)
  {
  }

  lemma {:induction false} ValueConcat(a: seq<bool>, b: seq<bool>)
    ensures Value(a + b) == Value(a) * Pow2(|b|) + Value(b)
  {
    if b == [] {
      assert a + b == a;
      assert Pow2(0) == 1;
    } else {
      var c, last := b[..|b| - 1], b[|b| - 1];
      var s := a + b;
      assert s[..|s| - 1] == a + c && s[|s| - 1] == last;
      ValueConcat(a, c);
      ConcatStep(Value(a), Pow2(|c|), Value(c), if last then 1 else 0);
    }
  }

  lemma {:induction false} ValueZeros(n: nat)
    ensures Value(Zeros(n)) == 0
  {
    if n > 0 {
      assert Zeros(n)[..n - 1] == Zeros(n - 1);
      ValueZeros(n - 1);
    }
  }

  lemma MulAssoc(a: nat, b: nat, c: nat)
    ensures a * (b * c) == a * b * c
  {
  }

  lemma MulAtLeast(d: nat, p: nat)
    requires d >= 1
    ensures d * p >= p
  {
  }

  lemma MulSub(a: int, b: int, p: nat)
    ensures (a - b) * p == a * p - b * p
  {
  }

  /** Quotient and remainder are unique. */
  lemma DivUnique(n: nat, q: nat, p: nat, r: nat)
    requires n == q * p + r && r < p
    ensures n / p == q && n % p == r
  {
    var k := n / p;
    assert n == k * p + n % p;
    MulSub(k, q, p);
    MulSub(q, k, p);
    if k > q {
      MulAtLeast(k - q, p);
    } else if k < q {
      MulAtLeast(q - k, p);
    }
  }

  /** The number in the first k of m bits is the whole number shifted right. */
  lemma ValuePrefix(w: seq<bool>, k: nat)
    requires k <= |w|
    ensures Value(w[..k]) == Value(w) / Pow2(|w| - k)
  {
    assert w == w[..k] + w[k..];
    ValueConcat(w[..k], w[k..]);
    DivUnique(Value(w), Value(w[..k]), Pow2(|w| - k), Value(w[k..]));
  }

  /** Extracting the top n bits is an unsigned right shift. */
  lemma TopIsShiftRight(w: Word, n: nat)
    requires n <= 32
    ensures Top(w, n) == Value(w) / Pow2(32 - n)
  {
    ValuePrefix(w, n);
  }

  lemma ShlStep(hi: nat, lo: nat, p: nat, q: nat, m: nat)
    requires p * q == m && lo * q < m
    ensures ((hi * p + lo) * q) % m == lo * q
  {
    MulAssoc(hi, p, q);
    DivUnique((hi * p + lo) * q, hi, m, lo * q);
  }

  lemma ShlByAllBits(w: Word, n: nat)
    requires n >= 32
    ensures Value(Shl(w, n)) == (Value(w) * Pow2(n)) % Pow2(32)
  {
    hide Value, Pow2;
    ValueZeros(32);
    Pow2Add(n - 32, 32);
    var v, p, m := Value(w), Pow2(n - 32), Pow2(32);
    MulAssoc(v, p, m);
    DivUnique(v * Pow2(n), v * p, m, 0);
  }

  lemma ShlParts(w: Word, n: nat)
    requires n < 32
    ensures Value(w) == Value(w[..n]) * Pow2(32 - n) + Value(w[n..])
    ensures Value(Shl(w, n)) == Value(w[n..]) * Pow2(n)
  {
    assert w == w[..n] + w[n..];
    ValueConcat(w[..n], w[n..]);
    ValueConcat(w[n..], Zeros(n));
    ValueZeros(n);
  }

  /** Shl is multiplication by a power of two modulo 2^32. */
  lemma ShlIsMultiply(w: Word, n: nat)
    ensures Value(Shl(w, n)) == (Value(w) * Pow2(n)) % Pow2(32)
  {
    if n >= 32 {
      ShlByAllBits(w, n);
    } else {
      ShlParts(w, n);
      Pow2Add(32 - n, n);
      var out := Value(Shl(w, n));
      assert out < Pow2(32);
      ShlStep(Value(w[..n]), Value(w[n..]), Pow2(32 - n), Pow2(n), Pow2(32));
    }
  }

  /** Or-ing words with no common one bit adds them. */
  lemma {:induction false} OrIsAdd(a: seq<bool>, b: seq<bool>, c: seq<bool>)
    requires |a| == |b| == |c|
    requires forall i :: 0 <= i < |a| ==> !(a[i] && b[i]) && c[i] == (a[i] || b[i])
    ensures Value(c) == Value(a) + Value(b)
  {
    if |a| > 0 {
      OrIsAdd(a[..|a| - 1], b[..|a| - 1], c[..|a| - 1]);
    }
  }

  lemma {:induction false} ValueDigits(v: nat, n: nat)
    requires v < Pow2(n)
    ensures Value(Digits(v, n)) == v
  {
    if n > 0 {
      ValueDigits(v / 2, n - 1);
      assert Digits(v, n)[..n - 1] == Digits(v / 2, n - 1);
    }
  }

  /** Word w holds the k bits of buf from position p on, left-justified, and then zeros. */
  ghost predicate HoldsBytes(w: Word, buf: seq<Byte>, p: nat, k: int) {
    && p + k <= 8 * |buf|
    && forall i {:trigger w[i]} | 0 <= i < 32 :: w[i] == (i < k && BitAt(buf, p + i))
  }

  lemma ByteShlBit(b: Byte, s: nat, i: nat)
    requires s <= 24 && i < 32
    ensures ByteShl(b, s)[i] == (24 - s <= i < 32 - s && ByteBits(b)[i - (24 - s)])
  {
    hide Digits;
  }

  /** Every byte is the number its eight bits spell. */
  lemma ByteBitsValue(b: Byte)
    ensures Value(ByteBits(b)) == b
  {
    assert Pow2(8) == 256;
    ValueDigits(b, 8);
  }
}
