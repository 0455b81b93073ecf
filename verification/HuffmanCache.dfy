/** The decoder's 32-bit left-justified cache and what it holds of the stream. */
module HuffmanCache {
  import opened Bits
  import opened HuffmanSpec

  /** The decoder's variables cache, cachedBits, bitsLeft, buf and padBits. */
  datatype BitCache = BitCache(word: Word, cached: int, left: int, next: nat, pad: nat)

  /** Fill the cache with the rest of a partial byte. */
  function StartCache(buf: seq<Byte>, off: nat, bits: int): BitCache
    requires off < 8 && (off > 0 ==> |buf| > 0)
  {
    var n := (8 - off) % 8;
    BitCache(if n > 0 then ByteShl(buf[0], 32 - n) else Zeros(32), n, bits - n, if n > 0 then 1 else 0, 0)
  }

  /** Add the next byte behind the cached bits. */
  function OrByte(c: BitCache, buf: seq<Byte>, shift: nat): BitCache
    requires c.next < |buf|
  {
    c.(word := Or(c.word, ByteShl(buf[c.next], shift)), next := c.next + 1)
  }

  function Drop(c: BitCache, n: nat): BitCache {
    c.(word := Shl(c.word, n), cached := c.cached - n)
  }

  // ----- representation

  /** Cursor cur over the n bits of buf from offset off is what cache c stands for. */
  ghost predicate Represents(c: BitCache, buf: seq<Byte>, off: nat, n: nat, cur: Cursor, pad: nat)
    requires off + n <= 8 * |buf|
  {
    match cur.mode
    case Live(k) =>
      && c.pad == 0 && c.cached == k && 0 <= k <= 32
      && c.left == n - cur.pos - k
      && (off + cur.pos + k == 8 * c.next || c.left == 0) && c.next <= |buf|
      && cur.pos <= n && (k <= n - cur.pos || k < 8)
      && HoldsBytes(c.word, buf, off + cur.pos, k)
    case Padded(end) =>
      && c.pad == pad && c.cached == end - cur.pos + pad && c.left == 0
      && n - cur.pos <= 32 && c.next <= |buf|
      && HoldsPadded(c.word, BitsOf(buf, off, n), cur.pos)
  }

  ghost predicate HoldsPadded(w: Word, b: seq<bool>, p: nat) {
    forall i {:trigger w[i]} | 0 <= i < 32 :: w[i] == ZBit(b, p + i)
  }

  lemma ByteShlHighBit(b: Byte, n: nat, i: nat)
    requires 0 < n < 8 && i < 32
    ensures ByteShl(b, 32 - n)[i] == (i < n && ByteBits(b)[8 - n + i])
  {
  }

  /** A byte or-ed in at position k of the cache extends what the cache holds. */
  lemma OrByteHolds(w: Word, buf: seq<Byte>, p: nat, k: nat, next: nat)
    requires k <= 24 && next < |buf| && p + k == 8 * next && HoldsBytes(w, buf, p, k)
    ensures HoldsBytes(Or(w, ByteShl(buf[next], 24 - k)), buf, p, k + 8)
  {
    var r := Or(w, ByteShl(buf[next], 24 - k));
    forall i | 0 <= i < 32 ensures r[i] == (i < k + 8 && BitAt(buf, p + i)) {
      ByteShlBit(buf[next], 24 - k, i);
      if k <= i < k + 8 {
        assert p + i == 8 * next + (i - k);
        assert (p + i) / 8 == next && (p + i) % 8 == i - k;
      }
    }
  }

  lemma PartialByteHolds(buf: seq<Byte>, off: nat)
    requires 0 < off < 8 && |buf| > 0
    ensures HoldsBytes(ByteShl(buf[0], 24 + off), buf, off, 8 - off)
  {
    hide ByteBits, ByteShl;
    var w := ByteShl(buf[0], 24 + off);
    forall i | 0 <= i < 32 ensures w[i] == (i < 8 - off && BitAt(buf, off + i)) {
      ByteShlHighBit(buf[0], 8 - off, i);
    }
  }

  lemma StartRepresents(buf: seq<Byte>, off: nat, n: nat, pad: nat)
    requires off < 8 && off + n <= 8 * |buf|
    ensures off > 0 ==> |buf| > 0
    ensures Represents(StartCache(buf, off, n), buf, off, n, StartCursor(off), pad)
  {
    hide HoldsBytes, ByteShl, BitsOf;
    if off > 0 {
      PartialByteHolds(buf, off);
    } else {
      NothingHeld(buf, off);
    }
  }

  lemma NothingHeld(buf: seq<Byte>, p: nat)
    requires p <= 8 * |buf|
    ensures HoldsBytes(Zeros(32), buf, p, 0)
  {
  }

  lemma DropHeld(w: Word, buf: seq<Byte>, p: nat, k: nat, m: nat)
    requires HoldsBytes(w, buf, p, k) && m <= k <= 32
    ensures HoldsBytes(Shl(w, m), buf, p + m, k - m)
  {
    hide BitAt;
    var r := Shl(w, m);
    forall i | 0 <= i < 32 ensures r[i] == (i < k - m && BitAt(buf, p + m + i)) {
      if i < 32 - m {
        assert r[i] == w[i + m];
        assert p + m + i == p + (i + m);
      }
    }
  }

  lemma DropPadded(w: Word, b: seq<bool>, p: nat, m: nat)
    requires HoldsPadded(w, b, p) && m <= 32 && |b| - p <= 32
    ensures HoldsPadded(Shl(w, m), b, p + m)
  {
    var r := Shl(w, m);
    forall i | 0 <= i < 32 ensures r[i] == ZBit(b, p + m + i) {
      if i < 32 - m {
        assert r[i] == w[i + m];
        assert p + m + i == p + (i + m);
      }
    }
  }

  lemma DropRepresents(c: BitCache, buf: seq<Byte>, off: nat, n: nat, cur: Cursor, pad: nat, m: nat)
    requires off + n <= 8 * |buf| && Represents(c, buf, off, n, cur, pad) && m <= 32
    requires cur.mode.Live? ==> m <= cur.mode.cached <= n - cur.pos
    ensures Represents(Drop(c, m), buf, off, n, Skip(cur, m), pad)
  {
    hide HoldsBytes, HoldsPadded, Shl, BitsOf;
    match cur.mode
    case Live(k) => DropHeld(c.word, buf, off + cur.pos, k, m);
    case Padded(end) => DropPadded(c.word, BitsOf(buf, off, n), cur.pos, m);
  }

  /** The cached bits are the next bits of the stream. */
  lemma PeekRepresents(c: BitCache, buf: seq<Byte>, off: nat, n: nat, cur: Cursor, pad: nat, m: nat)
    requires off + n <= 8 * |buf| && Represents(c, buf, off, n, cur, pad) && m <= 32
    requires cur.mode.Live? ==> m <= cur.mode.cached <= n - cur.pos
    ensures c.word[..m] == Window(BitsOf(buf, off, n), cur.pos, m)
  {
    hide BitAt;
    var b := BitsOf(buf, off, n);
    forall i | 0 <= i < m ensures c.word[i] == ZBit(b, cur.pos + i) {
      assert off + (cur.pos + i) == off + cur.pos + i;
    }
  }

  // ----- the refills

  /** Load two bytes. */
  lemma LoadTwoRepresents(c: BitCache, buf: seq<Byte>, off: nat, n: nat, cur: Cursor, pad: nat)
    requires off + n <= 8 * |buf| && Represents(c, buf, off, n, cur, pad)
    requires cur.mode.Live? && c.cached <= 10 && c.left >= 16
    ensures c.next + 2 <= |buf|
    ensures var c1 := OrByte(OrByte(c, buf, 24 - c.cached), buf, 16 - c.cached);
            Represents(c1.(cached := c.cached + 16, left := c.left - 16), buf, off, n, Cursor(cur.pos,
                Live(c.cached + 16)), pad)
  {
    hide HoldsBytes, Or, ByteShl;
    OrByteHolds(c.word, buf, off + cur.pos, c.cached, c.next);
    var w1 := Or(c.word, ByteShl(buf[c.next], 24 - c.cached));
    OrByteHolds(w1, buf, off + cur.pos, c.cached + 8, c.next + 1);
  }

  /** Load what is left, clear what lies behind it and call the next pad bits zero. */
  function Drain(c: BitCache, buf: seq<Byte>, pad: nat): BitCache
    requires 0 <= c.cached <= 10 && c.left < 16 && 0 < c.cached + c.left
    requires 8 * c.next + c.left <= 8 * |buf|
  {
    var c1 := if c.left > 0 then OrByte(c, buf, 24 - c.cached) else c;
    var c2 := if c.left > 8 then OrByte(c1, buf, 16 - c.cached) else c1;
    BitCache(KeepTop(c2.word, c.cached + c.left), c.cached + c.left + pad, 0, c2.next, pad)
  }

  /** Keeping exactly the bits of the stream. */
  lemma KeepTopHolds(w: Word, buf: seq<Byte>, off: nat, n: nat, p: nat, k: nat)
    requires off + n <= 8 * |buf| && HoldsBytes(w, buf, off + p, k) && p <= n && n - p <= 32 && n - p <= k
    ensures HoldsPadded(KeepTop(w, n - p), BitsOf(buf, off, n), p)
  {
    hide BitAt;
    var b, r := BitsOf(buf, off, n), KeepTop(w, n - p);
    forall i | 0 <= i < 32 ensures r[i] == ZBit(b, p + i) {
      if i < n - p {
        assert r[i] == w[i];
        assert off + (p + i) == off + p + i;
      }
    }
  }

  lemma TrimHolds(w: Word, buf: seq<Byte>, p: nat, k: nat, m: nat)
    requires HoldsBytes(w, buf, p, k) && m <= k && m <= 32
    ensures HoldsBytes(KeepTop(w, m), buf, p, m)
  {
    hide BitAt;
    var r := KeepTop(w, m);
    forall i | 0 <= i < 32 ensures r[i] == (i < m && BitAt(buf, p + i)) {
      if i < m {
        assert r[i] == w[i];
      }
    }
  }

  lemma DrainRepresents(c: BitCache, buf: seq<Byte>, off: nat, n: nat, cur: Cursor, pad: nat)
    requires off + n <= 8 * |buf| && Represents(c, buf, off, n, cur, pad)
    requires cur.mode.Live? && c.cached <= 10 && c.left < 16 && 0 < c.cached + c.left
    ensures 8 * c.next + c.left <= 8 * |buf|
    ensures Represents(Drain(c, buf, pad), buf, off, n, Cursor(cur.pos, Padded(n)), pad)
  {
    hide HoldsBytes, HoldsPadded, Or, ByteShl, KeepTop, BitsOf;
    var p, k := off + cur.pos, c.cached;
    var w := c.word;
    if c.left > 0 {
      OrByteHolds(w, buf, p, k, c.next);
      w := Or(w, ByteShl(buf[c.next], 24 - k));
      k := k + 8;
      if c.left > 8 {
        OrByteHolds(w, buf, p, k, c.next + 1);
        w := Or(w, ByteShl(buf[c.next + 1], 24 - k));
        k := k + 8;
      }
    }
    KeepTopHolds(w, buf, off, n, cur.pos, k);
  }

  lemma RedrainRepresents(c: BitCache, buf: seq<Byte>, off: nat, n: nat, cur: Cursor, pad: nat)
    requires off + n <= 8 * |buf| && Represents(c, buf, off, n, cur, pad)
    requires cur.mode.Padded? && 0 < c.cached <= 10 && n <= cur.mode.end
    ensures c.next <= |buf|
    ensures Represents(Drain(c, buf, pad), buf, off, n, Cursor(cur.pos, Padded(cur.mode.end + pad)), pad)
  {
    var b, r := BitsOf(buf, off, n), KeepTop(c.word, c.cached);
    forall i | 0 <= i < 32 ensures r[i] == ZBit(b, cur.pos + i) {
    }
  }
}
