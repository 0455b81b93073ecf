/** The general bit reader: SetBitstreamPointer, RefillBitstreamCache, GetBits, CalcBitsUsed. */
module BitStream {
  import opened Bits

  function Shr(w: Word, n: nat): Word {
    if n >= 32 then Zeros(32) else Zeros(n) + w[..32 - n]
  }

  /** The number that the next n bits of b spell; zeros follow the end of b. */
  function Field(b: seq<bool>, p: nat, n: nat): nat {
    Value(Window(b, p, n))
  }

  /** Word w shows c bits of b from position p on, left-justified, and then zeros. */
  ghost predicate Shows(w: Word, b: seq<bool>, p: nat, c: int) {
    forall i {:trigger w[i]} | 0 <= i < 32 :: w[i] == (i < c && ZBit(b, p + i))
  }

  class BitStreamInfo {
    var buf: seq<Byte>      // what bytePtr points into
    var bytePtr: nat
    var iCache: Word
    var cachedBits: int
    var nBytes: nat

    /** The bits this reader was set up to deliver. */
    ghost function Stream(): seq<bool>
      reads this
    {
      if bytePtr + nBytes <= |buf| then BitsOf(buf, 0, 8 * (bytePtr + nBytes)) else []
    }

    /** How many bits have been requested so far. */
    function Pos(): int
      reads this
    {
      8 * bytePtr - cachedBits
    }

    /** The cache holds the next cachedBits bits, left-justified, and zeros. Once more bits have
        been requested than there are, it is empty and cachedBits counts the excess. */
    ghost predicate Valid()
      reads this
    {
      && bytePtr + nBytes <= |buf|
      && cachedBits <= 32 && cachedBits <= 8 * bytePtr
      && (cachedBits < 0 ==> nBytes == 0)
      && Shows(iCache, Stream(), Pos(), cachedBits)
    }

    /** Read nBytes bytes of data from byte `start` on. */
    constructor SetBitstreamPointer(nBytes: nat, data: seq<Byte>, start: nat)
      requires start + nBytes <= |data|
      ensures Valid() && Pos() == 0 && Stream() == BitsOf(data[start..], 0, 8 * nBytes)
      ensures buf == data[start..] && bytePtr + this.nBytes == nBytes
    {
      buf := data[start..];
      bytePtr := 0;
      iCache := Zeros(32);
      cachedBits := 0;
      this.nBytes := nBytes;
    }

    /** Load up to four bytes, big-endian, into the drained cache. */
    method RefillBitstreamCache()
      requires bytePtr + nBytes <= |buf|
      modifies this`bytePtr, this`iCache, this`cachedBits, this`nBytes
      ensures var k := if old(nBytes) >= 4 then 4 else old(nBytes);
              && bytePtr == old(bytePtr) + k && nBytes == old(nBytes) - k && cachedBits == 8 * k
              && HoldsBytes(iCache, buf, 8 * old(bytePtr), 8 * k)
    {
      hide ByteShl, Or, Shl, HoldsBytes, HoldsLow, BitAt;
      var n := nBytes;
      if n >= 4 {
        iCache := ByteShl(buf[bytePtr], 24);
        iCache := Or(iCache, ByteShl(buf[bytePtr + 1], 16));
        iCache := Or(iCache, ByteShl(buf[bytePtr + 2], 8));
        iCache := Or(iCache, ByteShl(buf[bytePtr + 3], 0));
        FourBytes(buf, bytePtr);
        bytePtr := bytePtr + 4;
        cachedBits := 32;
        nBytes := nBytes - 4;
      } else {
        iCache := Zeros(32);
        ghost var start := bytePtr;
        NothingLow(buf, 8 * start);
        while n > 0
          invariant 0 <= n <= nBytes == old(nBytes) && bytePtr == start + nBytes - n
          invariant HoldsLow(iCache, buf, 8 * start, nBytes - n)
        {
          OrLow(iCache, buf, 8 * start, nBytes - n, bytePtr);
          iCache := Or(iCache, ByteShl(buf[bytePtr], 0));
          bytePtr := bytePtr + 1;
          iCache := Shl(iCache, 8);
          n := n - 1;
        }
        LowToHigh(iCache, buf, 8 * start, nBytes);
        iCache := Shl(iCache, (3 - nBytes) * 8);
        cachedBits := 8 * nBytes;
        nBytes := 0;
      }
    }

    /** Refill, and take the low-order bits that the old cache (c bits of it) could not deliver. */
    method TakeLowBits(word: Word, n: nat, ghost cache: Word, ghost c: int, ghost p: nat)
      returns (r: Word)
      requires n < 32 && c < n && cachedBits == c - n && p == 8 * bytePtr - c && 0 <= p + c
      requires bytePtr + nBytes <= |buf| && Shows(cache, Stream(), p, c) && (c < 0 ==> nBytes == 0)
      requires word == Zeros(32 - n) + cache[..n]
      modifies this`bytePtr, this`iCache, this`cachedBits, this`nBytes
      ensures Valid() && bytePtr + nBytes == old(bytePtr + nBytes) && Pos() == p + n
      ensures Value(r) == Field(old(Stream()), p, n)
    {
      hide Shl, Shr, Or, Value, BitsOf, ByteShl, HoldsBytes, Field, Shows, Zeros, Pow2, BitAt, Window;
      ghost var b := Stream();
      var lowBits := -cachedBits;
      RefillBitstreamCache();
      assert Stream() == b;
      r := Or(word, Shr(iCache, if lowBits <= 32 then 32 - lowBits else 32));
      JoinsFresh(cache, iCache, buf, bytePtr + nBytes, bytePtr - cachedBits / 8, cachedBits, b, p, c, n);
      cachedBits := cachedBits - lowBits;
      iCache := Shl(iCache, lowBits);
    }

    /** The next nBits bits of the stream as a number; nBits is taken modulo 32. */
    method GetBits(nBits: nat) returns (data: nat)
      requires Valid()
      modifies this`bytePtr, this`iCache, this`cachedBits, this`nBytes
      ensures Valid() && Stream() == old(Stream()) && bytePtr + nBytes == old(bytePtr + nBytes)
      ensures Pos() == old(Pos()) + nBits % 32
      ensures data == Field(old(Stream()), old(Pos()), nBits % 32)
    {
      hide Shl, Shr, Or, Value, BitsOf, Field, Shows;
      var n := nBits % 32;
      ghost var cache, c := iCache, cachedBits;
      var word := Shr(iCache, 31 - n);
      word := Shr(word, 1);
      ShrTop(cache, n);
      iCache := Shl(iCache, n);
      cachedBits := cachedBits - n;
      if cachedBits < 0 {
        word := TakeLowBits(word, n, cache, c, old(Pos()));
      } else {
        TakesWithin(cache, old(Stream()), old(Pos()), c, n);
      }
      data := Value(word);
    }

    /** Bits delivered since bit startOffset of the first byte. */
    function CalcBitsUsed(startOffset: nat): (r: int)
      reads this
      ensures r == Pos() - startOffset
    {
      bytePtr * 8 - cachedBits - startOffset
    }
  }

  // ----- what the words hold

  /** k bytes in the low three bytes, the last one in bits 8 to 15. */
  ghost predicate HoldsLow(w: Word, buf: seq<Byte>, p: nat, k: nat) {
    && k <= 3 && p + 8 * k <= 8 * |buf|
    && forall i {:trigger w[i]} | 0 <= i < 32 ::
         w[i] == (24 - 8 * k <= i < 24 && BitAt(buf, p + (i - (24 - 8 * k))))
  }

  lemma BitAtByte(buf: seq<Byte>, k: nat, j: nat)
    requires k < |buf| && j < 8
    ensures BitAt(buf, 8 * k + j) == ByteBits(buf[k])[j]
  {
    hide ByteBits;
    assert (8 * k + j) / 8 == k && (8 * k + j) % 8 == j;
  }

  lemma FourBytes(buf: seq<Byte>, at: nat)
    requires at + 4 <= |buf|
    ensures HoldsBytes(Or(Or(Or(ByteShl(buf[at], 24), ByteShl(buf[at + 1], 16)), ByteShl(buf[at + 2], 8)),
        ByteShl(buf[at + 3], 0)),
                       buf, 8 * at, 32)
  {
    hide ByteBits, ByteShl, BitAt;
    var w := Or(Or(Or(ByteShl(buf[at], 24), ByteShl(buf[at + 1], 16)), ByteShl(buf[at + 2], 8)), ByteShl(buf[at + 3], 0));
    forall i | 0 <= i < 32 ensures w[i] == BitAt(buf, 8 * at + i) {
      ByteShlBit(buf[at], 24, i);
      ByteShlBit(buf[at + 1], 16, i);
      ByteShlBit(buf[at + 2], 8, i);
      ByteShlBit(buf[at + 3], 0, i);
      BitAtByte(buf, at + i / 8, i % 8);
    }
  }

  lemma NothingLow(buf: seq<Byte>, p: nat)
    requires p <= 8 * |buf|
    ensures HoldsLow(Zeros(32), buf, p, 0)
  {
  }

  lemma OrLow(w: Word, buf: seq<Byte>, p: nat, k: nat, at: nat)
    requires HoldsLow(w, buf, p, k) && k < 3 && p + 8 * k == 8 * at && at < |buf|
    ensures HoldsLow(Shl(Or(w, ByteShl(buf[at], 0)), 8), buf, p, k + 1)
  {
    hide ByteBits, ByteShl, BitAt;
    var x := Or(w, ByteShl(buf[at], 0));
    var r := Shl(x, 8);
    forall i | 0 <= i < 32
      ensures r[i] == (16 - 8 * k <= i < 24 && BitAt(buf, p + (i - (16 - 8 * k))))
    {
      if i < 24 {
        assert r[i] == x[i + 8];
        ByteShlBit(buf[at], 0, i + 8);
        if i >= 16 {
          BitAtByte(buf, at, i - 16);
        }
      }
    }
  }

  lemma LowToHigh(w: Word, buf: seq<Byte>, p: nat, k: nat)
    requires HoldsLow(w, buf, p, k)
    ensures HoldsBytes(Shl(w, (3 - k) * 8), buf, p, 8 * k)
  {
    hide BitAt;
    var r := Shl(w, (3 - k) * 8);
    forall i | 0 <= i < 32 ensures r[i] == (i < 8 * k && BitAt(buf, p + i)) {
      if i < 8 + 8 * k {
        assert r[i] == w[i + (24 - 8 * k)];
      }
    }
  }

  // ----- the number that is returned

  lemma ShrTop(w: Word, n: nat)
    requires n < 32
    ensures Shr(Shr(w, 31 - n), 1) == Zeros(32 - n) + w[..n]
  {
  }

  lemma ValuePadded(k: nat, s: seq<bool>)
    ensures Value(Zeros(k) + s) == Value(s)
  {
    ValueConcat(Zeros(k), s);
    ValueZeros(k);
  }

  /** All n bits were cached. */
  lemma TakesWithin(cache: Word, b: seq<bool>, p: nat, c: int, n: nat)
    requires n < 32 && n <= c <= 32 && Shows(cache, b, p, c)
    ensures Value(Zeros(32 - n) + cache[..n]) == Field(b, p, n)
    ensures Shows(Shl(cache, n), b, p + n, c - n)
  {
    hide Value;
    ValuePadded(32 - n, cache[..n]);
    assert cache[..n] == Window(b, p, n);
    var r := Shl(cache, n);
    forall i | 0 <= i < 32 ensures r[i] == (i < c - n && ZBit(b, p + n + i)) {
      if i < 32 - n {
        assert r[i] == cache[i + n];
      }
    }
  }

  /** A refilled cache shows the stream from its byte on, with zeros after its end. */
  lemma FreshBits(w: Word, buf: seq<Byte>, total: nat, at: nat, f: nat, b: seq<bool>)
    requires total <= |buf| && b == BitsOf(buf, 0, 8 * total) && f <= 32 && 8 * at + f <= 8 * total
    requires f < 32 ==> 8 * at + f == 8 * total
    requires HoldsBytes(w, buf, 8 * at, f)
    ensures Shows(w, b, 8 * at, f) && (f < 32 ==> |b| == 8 * at + f)
  {
    hide BitAt;
  }

  lemma AcrossBit(cache: Word, w: Word, b: seq<bool>, p: nat, c: int, n: nat, f: nat, i: nat)
    requires n < 32 && c < n && p + c >= 0 && f <= 32 && i < 32
    requires Shows(cache, b, p, c) && Shows(w, b, p + c, f)
    requires (f < 32 ==> |b| <= p + c + f) && (c < 0 ==> |b| <= p + c)
    ensures var low := n - c;
            Or(Zeros(32 - n) + cache[..n], Shr(w, if low <= 32 then 32 - low else 32))[i]
            == (i >= 32 - n && ZBit(b, p + i - (32 - n)))
  {
    var low := n - c;
    var x, y := Zeros(32 - n) + cache[..n], Shr(w, if low <= 32 then 32 - low else 32);
    assert x[i] == (i >= 32 - n && cache[i - (32 - n)]);
    assert y[i] == (low <= 32 && i >= 32 - low && w[i - (32 - low)]);
  }

  /** The request crosses the end of the c cached bits and takes the rest from the fresh ones. */
  lemma TakesAcross(cache: Word, w: Word, b: seq<bool>, p: nat, c: int, n: nat, f: nat)
    requires n < 32 && c < n && p + c >= 0 && f <= 32
    requires Shows(cache, b, p, c) && Shows(w, b, p + c, f)
    requires (f < 32 ==> |b| <= p + c + f) && (c < 0 ==> |b| <= p + c)
    ensures var low := n - c;
            Value(Or(Zeros(32 - n) + cache[..n], Shr(w, if low <= 32 then 32 - low else 32))) == Field(b, p, n)
  {
    hide Value, Or, Shr, Shows;
    var low := n - c;
    var x, y := Zeros(32 - n) + cache[..n], Shr(w, if low <= 32 then 32 - low else 32);
    var z, t := Or(x, y), Zeros(32 - n) + Window(b, p, n);
    ValuePadded(32 - n, Window(b, p, n));
    forall i | 0 <= i < 32 ensures z[i] == t[i] {
      AcrossBit(cache, w, b, p, c, n, f, i);
    }
    assert z == t;
  }

  /** Both effects of a refill with f bits from byte `at` on. */
  lemma JoinsFresh(cache: Word, w: Word, buf: seq<Byte>, total: nat, at: nat, f: nat, b: seq<bool>, p: nat, c: int,
                   n: nat)
    requires n < 32 && c < n && p + c == 8 * at && f <= 32 && 8 * at + f <= 8 * total && total <= |buf|
    requires b == BitsOf(buf, 0, 8 * total) && (f < 32 ==> 8 * at + f == 8 * total) && (c < 0 ==> at == total)
    requires Shows(cache, b, p, c) && HoldsBytes(w, buf, 8 * at, f)
    ensures var low := n - c;
            && Value(Or(Zeros(32 - n) + cache[..n], Shr(w, if low <= 32 then 32 - low else 32))) == Field(b, p, n)
            && Shows(Shl(w, low), b, p + n, f - low)
  {
    hide Shl, Shr, Or, Value, BitsOf, HoldsBytes, Field, Shows;
    FreshBits(w, buf, total, at, f, b);
    TakesAcross(cache, w, b, p, c, n, f);
    DropsAcross(w, b, p, c, n, f);
  }

  lemma DropsAcross(w: Word, b: seq<bool>, p: nat, c: int, n: nat, f: nat)
    requires n < 32 && c < n && p + c >= 0 && f <= 32
    requires Shows(w, b, p + c, f)
    ensures Shows(Shl(w, n - c), b, p + n, f - (n - c))
  {
    var low, r := n - c, Shl(w, n - c);
    forall i | 0 <= i < 32 ensures r[i] == (i < f - low && ZBit(b, p + n + i)) {
      if low < 32 && i < 32 - low {
        assert r[i] == w[i + low];
      }
    }
  }
}
