/** DecodeHuffmanQuads: the "count1" region, four values of magnitude 0 or 1 per codeword. */
module HuffmanQuads {
  import opened Bits
  import opened HuffmanSpec
  import opened HuffmanCache
  import opened HuffmanTheory
  import opened Huffman

  /** entries[i] is 0xAB: A the codeword length, B the four flags. */
  datatype QuadTable = QuadTable(entries: seq<Byte>, maxBits: nat)

  function HLenQ(x: int): nat { (x / 0x10) % 16 }

  /** The same code tree in the layout of the pair tables: a header word, then the entries
      with their length in the top nibble. */
  function AsTable(qt: QuadTable): Table {
    Table([qt.maxBits] + seq(|qt.entries|,
        i requires 0 <= i < |qt.entries| => HLenQ(qt.entries[i]) * 0x1000 + qt.entries[i] % 16),
          {0}, 0, 0, OneShot)
  }

  ghost predicate WFQuads(qt: QuadTable) {
    1 <= qt.maxBits <= 6 && |qt.entries| == Pow2(qt.maxBits) && WFTable(AsTable(qt))
  }

  // ----- specification

  /** Flag k, most significant first, of the low four bits of an entry. */
  function Flag(x: int, k: nat): (f: nat)
    requires k < 4
    ensures f <= 1
  {
    if Digits(x % 16, 4)[k] then 1 else 0
  }

  function FlagV(x: int): (f: nat) ensures f <= 1 { Flag(x, 0) }
  function FlagW(x: int): (f: nat) ensures f <= 1 { Flag(x, 1) }
  function FlagX(x: int): (f: nat) ensures f <= 1 { Flag(x, 2) }
  function FlagY(x: int): (f: nat) ensures f <= 1 { Flag(x, 3) }

  function SignBits(e: int): nat {
    FlagV(e) + FlagW(e) + FlagX(e) + FlagY(e)
  }

  /** A set flag is the magnitude 1 and is followed by its sign bit. */
  function Signed(b: seq<bool>, p: nat, flag: nat): int {
    if flag == 0 then 0 else SignWord(flag, ZBit(b, p))
  }

  /** The four values of entry e, whose codeword ends at p. */
  function QuadValues(b: seq<bool>, p: nat, e: int): (s: seq<int>)
    ensures |s| == 4
  {
    var p1 := p + FlagV(e);
    var p2 := p1 + FlagW(e);
    var p3 := p2 + FlagX(e);
    [Signed(b, p, FlagV(e)), Signed(b, p1, FlagW(e)), Signed(b, p2, FlagX(e)), Signed(b, p3, FlagY(e))]
  }

  /** One complete quad at position p, if the stream still holds one. */
  function ReadQuad(qt: QuadTable, b: seq<bool>, p: nat): Option<(seq<int>, nat)> {
    match Walk(AsTable(qt).words, 0, [], b, p)
    case None => None
    case Some((e, p1)) =>
      var p2 := p1 + SignBits(e);
      if p2 <= |b| then Some((QuadValues(b, p1, e), p2)) else None
  }

  /** The longest run of complete quads that fits both the stream and `space` values. */
  function QuadRun(qt: QuadTable, b: seq<bool>, p: nat, space: int): (s: seq<int>)
    ensures |s| % 4 == 0 && (|s| <= space || s == [])
    decreases space
  {
    if space < 4 then [] else
    match ReadQuad(qt, b, p)
    case None => []
    case Some((vals, p1)) =>
      assert |vals| == 4;
      vals + QuadRun(qt, b, p1, space - 4)
  }

  // ----- one quad from the cache

  /** What one lookup says about the next quad: the entry and where its codeword ends. */
  lemma QuadByLookup(qt: QuadTable, b: seq<bool>, p: nat, w: seq<bool>)
    requires WFQuads(qt) && p <= |b| && w == Window(b, p, qt.maxBits)
    ensures Value(w) < |qt.entries|
    ensures var e := qt.entries[Value(w)];
            var p1 := p + HLenQ(e);
            var p2 := p1 + SignBits(e);
            && 1 <= HLenQ(e) <= qt.maxBits
            && ReadQuad(qt, b, p) == if p2 <= |b| then Some((QuadValues(b, p1, e), p2)) else None
  {
    hide Value, Walk, Digits, HLen, HLenQ, ZBit, SignWord, SignBits, QuadValues, Flag, Pow2;
    var tab := AsTable(qt);
    assert NodeOk(tab, 0);
    WalkIsLookup(tab, 0, b, p);
    EntryOfFull(tab.words, 0, w);
    var cw, e := tab.words[1 + Value(w)], qt.entries[Value(w)];
    assert EntryOk(tab, 0, w);
    WordOfEntry(e);
    SameFlags(cw, e);
  }

  lemma SameFlags(cw: int, e: Byte)
    requires cw % 16 == e % 16
    ensures SignBits(cw) == SignBits(e) && forall b: seq<bool>, p: nat :: QuadValues(b, p, cw) == QuadValues(b, p, e)
  {
    hide Digits;
    assert FlagV(cw) == FlagV(e) && FlagW(cw) == FlagW(e) && FlagX(cw) == FlagX(e) && FlagY(cw) == FlagY(e);
  }

  lemma WordOfEntry(e: Byte)
    ensures var cw := HLenQ(e) * 0x1000 + e % 16; HLen(cw) == HLenQ(e) && cw % 16 == e % 16
  {
  }

  /** The flags are the low bits of the entry, as the macros extract them. */
  lemma FlagsAreBits(e: Byte)
    ensures 8 * FlagV(e) + 4 * FlagW(e) + 2 * FlagX(e) + FlagY(e) == e % 16
  {
    var d := Digits(e % 16, 4);
    assert Pow2(4) == 16;
    ValueDigits(e % 16, 4);
    assert d == [d[0], d[1], d[2], d[3]];
    assert [d[0], d[1], d[2], d[3]][..3] == [d[0], d[1], d[2]] && [d[0], d[1], d[2]][..2] == [d[0], d[1]]
        && [d[0], d[1]][..1] == [d[0]];
  }

  predicate QuadReady(b: seq<bool>, cur: Cursor) {
    match cur.mode
    case Live(c) => 0 <= c && cur.pos <= |b| && (c <= |b| - cur.pos || c < 8)
    case Padded(end) => end == |b| && cur.pos <= |b|
  }

  /** The four values of leaf e, whose codeword has just been dropped. */
  method TakeQuad(c: BitCache, e: int, buf: seq<Byte>, ghost off: nat, ghost n: nat, ghost cur: Cursor)
    returns (v: int, w: int, x: int, y: int, r: BitCache)
    requires off + n <= 8 * |buf| && Represents(c, buf, off, n, cur, 10)
    requires cur.mode.Live? ==> 4 <= cur.mode.cached <= n - cur.pos
    ensures [v, w, x, y] == QuadValues(BitsOf(buf, off, n), cur.pos, e)
    ensures Represents(r, buf, off, n, Skip(cur, SignBits(e)), 10)
  {
    hide Represents, BitsOf, FlagV, FlagW, FlagX, FlagY, ZBit;
    ghost var at := cur;
    v, r := TakeSign(c, FlagV(e), buf, off, n, at, 10);
    at := Skip(at, FlagV(e));
    w, r := TakeSign(r, FlagW(e), buf, off, n, at, 10);
    at := Skip(at, FlagW(e));
    x, r := TakeSign(r, FlagX(e), buf, off, n, at, 10);
    at := Skip(at, FlagX(e));
    y, r := TakeSign(r, FlagY(e), buf, off, n, at, 10);
    assert Skip(at, FlagY(e)) == Skip(cur, SignBits(e));
  }

  /** One table lookup and its sign bits; not ok when it ends in the padding. */
  method QuadLookUp(c: BitCache, qt: QuadTable, buf: seq<Byte>, ghost off: nat, ghost n: nat, ghost cur: Cursor)
    returns (ok: bool, v: int, w: int, x: int, y: int, r: BitCache)
    requires WFQuads(qt) && off + n <= 8 * |buf|
    requires Represents(c, buf, off, n, cur, 10) && QuadReady(BitsOf(buf, off, n), cur) && c.cached >= 10
    ensures var q := ReadQuad(qt, BitsOf(buf, off, n), cur.pos);
            && ok == q.Some?
            && (ok ==>
                  && q.value.0 == [v, w, x, y] && q.value.1 >= cur.pos
                  && Represents(r, buf, off, n, Skip(cur, q.value.1 - cur.pos), 10)
                  && QuadReady(BitsOf(buf, off, n), Skip(cur, q.value.1 - cur.pos)))
  {
    hide Represents, BitsOf, ReadQuad, QuadValues, Value, Drop, FlagV, FlagW, FlagX, FlagY, WFTable;
    CachedIs(c, buf, off, n, cur);
    PeekRepresents(c, buf, off, n, cur, 10, qt.maxBits);
    QuadByLookup(qt, BitsOf(buf, off, n), cur.pos, c.word[..qt.maxBits]);
    var cw := qt.entries[Top(c.word, qt.maxBits)];
    var len := HLenQ(cw);
    DropRepresents(c, buf, off, n, cur, 10, len);
    r := Drop(c, len);
    v, w, x, y, r := TakeQuad(r, cw, buf, off, n, Skip(cur, len));
    assert Skip(Skip(cur, len), SignBits(cw)) == Skip(cur, len + SignBits(cw));
    CachedIs(r, buf, off, n, Skip(cur, len + SignBits(cw)));
    // the quad is cut off: it does not count
    ok := r.cached >= r.pad;
  }

  method StoreQuad(vwxy: array<int>, at: nat, v: int, w: int, x: int, y: int)
    requires at + 4 <= vwxy.Length
    modifies vwxy
    ensures vwxy[at..at + 4] == [v, w, x, y]
    ensures vwxy[..at] == old(vwxy[..at]) && vwxy[at + 4..] == old(vwxy[at + 4..])
  {
    vwxy[at], vwxy[at + 1], vwxy[at + 2], vwxy[at + 3] := v, w, x, y;
  }

  /** The quads so far are `out`, and cursor cur stands before the next one. */
  ghost predicate BetweenQuads(c: BitCache, qt: QuadTable, buf: seq<Byte>, off: nat, n: nat, cur: Cursor,
                               out: seq<int>, space: int, total: int)
    requires off + n <= 8 * |buf|
  {
    var b := BitsOf(buf, off, n);
    && Represents(c, buf, off, n, cur, 10) && QuadReady(b, cur)
    && QuadRun(qt, b, 0, total) == out + QuadRun(qt, b, cur.pos, space)
  }

  method RefillBetweenQuads(c: BitCache, qt: QuadTable, buf: seq<Byte>, ghost off: nat, ghost n: nat, ghost cur: Cursor,
                            ghost out: seq<int>, ghost space: int, ghost total: int)
    returns (ok: bool, r: BitCache, ghost next: Cursor)
    requires WFQuads(qt) && off + n <= 8 * |buf| && c.cached < 10
    requires BetweenQuads(c, qt, buf, off, n, cur, out, space, total)
    ensures ok ==> BetweenQuads(r, qt, buf, off, n, next, out, space, total) && r.cached >= 10
    ensures !ok ==> QuadRun(qt, BitsOf(buf, off, n), 0, total) == out
  {
    hide Represents, BitsOf, WFQuads, QuadRun, ReadQuad, Refill, QuadReady;
    ghost var b := BitsOf(buf, off, n);
    next := cur;
    RefillForQuad(b, cur);
    ReadyEnd(b, cur);
    ok, r := RefillCache(c, buf, 10, off, n, cur);
    if ok {
      next := Refill(b, cur, 10).value;
      RefilledEnough(r, buf, off, n, next);
    } else {
      QuadRunEnds(qt, b, cur, space);
    }
  }

  method NextQuad(c: BitCache, qt: QuadTable, buf: seq<Byte>, ghost off: nat, ghost n: nat, ghost cur: Cursor,
                  ghost out: seq<int>, ghost space: int, ghost total: int)
    returns (ok: bool, v: int, w: int, x: int, y: int, r: BitCache, ghost next: Cursor)
    requires WFQuads(qt) && off + n <= 8 * |buf| && c.cached >= 10 && space >= 4
    requires BetweenQuads(c, qt, buf, off, n, cur, out, space, total)
    ensures ok ==> BetweenQuads(r, qt, buf, off, n, next, out + [v, w, x, y], space - 4, total)
    ensures !ok ==> QuadRun(qt, BitsOf(buf, off, n), 0, total) == out
  {
    hide Represents, BitsOf, WFQuads, QuadRun, ReadQuad, QuadReady;
    ghost var b := BitsOf(buf, off, n);
    next := cur;
    QuadRunStep(qt, b, cur.pos, space);
    ok, v, w, x, y, r := QuadLookUp(c, qt, buf, off, n, cur);
    if ok {
      next := Skip(cur, ReadQuad(qt, b, cur.pos).value.1 - cur.pos);
      assert out + ([v, w, x, y] + QuadRun(qt, b, next.pos, space - 4)) ==
             out + [v, w, x, y] + QuadRun(qt, b, next.pos, space - 4);
    } else {
      assert out + [] == out;
    }
  }

  /** Store the quad behind the i values from start on. */
  method StoreNext(vwxy: array<int>, start: nat, i: nat, v: int, w: int, x: int, y: int)
    requires start + i + 4 <= vwxy.Length
    modifies vwxy
    ensures vwxy[start..start + i + 4] == old(vwxy[start..start + i]) + [v, w, x, y]
    ensures vwxy[..start] == old(vwxy[..start]) && vwxy[start + i + 4..] == old(vwxy[start + i..])[4..]
  {
    ghost var was := vwxy[..];
    StoreQuad(vwxy, start + i, v, w, x, y);
    StoredQuad(was, vwxy[..], start, i, [v, w, x, y]);
  }

  /** Decode quads into vwxy[start..]; the result is how many values were written. */
  method DecodeHuffmanQuads(vwxy: array<int>, start: nat, nVals: int, qt: QuadTable, bitsLeft: int, buf: seq<Byte>,
                            off: nat)
    returns (i: int)
    requires WFQuads(qt) && off < 8 && nVals >= 0 && start + nVals <= vwxy.Length
    requires bitsLeft >= 0 ==> off + bitsLeft <= 8 * |buf|
    modifies vwxy
    ensures 0 <= i <= nVals
    ensures bitsLeft <= 0 ==> i == 0
    ensures bitsLeft > 0 ==> vwxy[start..start + i] == QuadRun(qt, BitsOf(buf, off, bitsLeft), 0, nVals)
    ensures vwxy[..start] == old(vwxy[..start]) && vwxy[start + i..] == old(vwxy[start + i..])
  {
    hide BetweenQuads, BitsOf, WFQuads, QuadRun, StartCache;
    if bitsLeft <= 0 {
      return 0;
    }
    ghost var cur := StartCursor(off);
    QuadsStart(qt, buf, off, bitsLeft, nVals);
    var c := StartCache(buf, off, bitsLeft);
    var ok, v, w, x, y;
    i := 0;
    assert vwxy[start..start + i] == [];
    while i < nVals - 3
      invariant 0 <= i <= nVals && i % 4 == 0
      invariant BetweenQuads(c, qt, buf, off, bitsLeft, cur, vwxy[start..start + i], nVals - i, nVals)
      invariant i < nVals - 3 ==> c.cached < 10
      invariant vwxy[..start] == old(vwxy[..start]) && vwxy[start + i..] == old(vwxy[start + i..])
    {
      ok, c, cur := RefillBetweenQuads(c, qt, buf, off, bitsLeft, cur, vwxy[start..start + i], nVals - i, nVals);
      if !ok {
        return;
      }
      ghost var i0 := i;
      while i < nVals - 3 && c.cached >= 10
        invariant i0 <= i <= nVals && i % 4 == 0
        invariant i == i0 ==> c.cached >= 10
        invariant BetweenQuads(c, qt, buf, off, bitsLeft, cur, vwxy[start..start + i], nVals - i, nVals)
        invariant vwxy[..start] == old(vwxy[..start]) && vwxy[start + i..] == old(vwxy[start + i..])
      {
        ok, v, w, x, y, c, cur := NextQuad(c, qt, buf, off, bitsLeft, cur, vwxy[start..start + i], nVals - i, nVals);
        if !ok {
          return;
        }
        StoreNext(vwxy, start, i, v, w, x, y);
        i := i + 4;
      }
    }
    QuadsEnd(c, qt, buf, off, bitsLeft, cur, vwxy[start..start + i], nVals - i, nVals);
  }

  lemma QuadsStart(qt: QuadTable, buf: seq<Byte>, off: nat, n: nat, total: int)
    requires off < 8 && off + n <= 8 * |buf|
    ensures off > 0 ==> |buf| > 0
    ensures BetweenQuads(StartCache(buf, off, n), qt, buf, off, n, StartCursor(off), [], total, total)
    ensures StartCache(buf, off, n).cached < 8
  {
    hide Represents, BitsOf, QuadRun;
    StartRepresents(buf, off, n, 10);
    StartsReady(buf, off, n);
    assert [] + QuadRun(qt, BitsOf(buf, off, n), 0, total) == QuadRun(qt, BitsOf(buf, off, n), 0, total);
  }

  lemma QuadsEnd(c: BitCache, qt: QuadTable, buf: seq<Byte>, off: nat, n: nat, cur: Cursor, out: seq<int>,
                 space: int, total: int)
    requires WFQuads(qt) && off + n <= 8 * |buf| && space < 4
    requires BetweenQuads(c, qt, buf, off, n, cur, out, space, total)
    ensures QuadRun(qt, BitsOf(buf, off, n), 0, total) == out
  {
    hide Represents, BitsOf, WFQuads;
    QuadRunEnds(qt, BitsOf(buf, off, n), cur, space);
    assert out + [] == out;
  }

  lemma StoredQuad(was: seq<int>, now: seq<int>, start: nat, i: nat, quad: seq<int>)
    requires |was| == |now| && start + i + 4 <= |was| && |quad| == 4
    requires now[start + i..start + i + 4] == quad
    requires now[..start + i] == was[..start + i] && now[start + i + 4..] == was[start + i + 4..]
    ensures now[start..start + i + 4] == was[start..start + i] + quad
    ensures now[..start] == was[..start]
    ensures now[start + i + 4..] == was[start + i..][4..]
  {
    assert now[..start] == now[..start + i][..start];
    assert was[..start] == was[..start + i][..start];
    assert now[start..start + i] == now[..start + i][start..];
    assert was[start..start + i] == was[..start + i][start..];
  }

  lemma ReadyEnd(b: seq<bool>, cur: Cursor)
    requires QuadReady(b, cur)
    ensures cur.mode.Padded? ==> cur.mode.end == |b|
  {
  }

  lemma StartsReady(buf: seq<Byte>, off: nat, n: nat)
    requires off < 8 && off + n <= 8 * |buf| && (off > 0 ==> |buf| > 0)
    ensures QuadReady(BitsOf(buf, off, n), StartCursor(off)) && StartCache(buf, off, n).cached < 8
  {
  }

  lemma QuadRunStep(qt: QuadTable, b: seq<bool>, p: nat, space: int)
    requires space >= 4
    ensures match ReadQuad(qt, b, p)
            case None => QuadRun(qt, b, p, space) == []
            case Some((vals, p1)) => QuadRun(qt, b, p, space) == vals + QuadRun(qt, b, p1, space - 4)
  {
    hide ReadQuad;
  }

  lemma QuadRunEnds(qt: QuadTable, b: seq<bool>, cur: Cursor, space: int)
    requires WFQuads(qt) && QuadReady(b, cur) && (space < 4 || Refill(b, cur, 10).None?)
    ensures QuadRun(qt, b, cur.pos, space) == []
  {
    hide Value, WFTable, Walk, FlagV, FlagW, FlagX, FlagY;
    if space >= 4 {
      QuadByLookup(qt, b, cur.pos, Window(b, cur.pos, qt.maxBits));
    }
  }

  lemma RefillForQuad(b: seq<bool>, cur: Cursor)
    requires QuadReady(b, cur)
    ensures match Refill(b, cur, 10)
            case None => true
            case Some(c) => QuadReady(b, c) && c.pos == cur.pos && Refill(b, c, 10) == Some(c)
  {
  }

  lemma RefilledEnough(c: BitCache, buf: seq<Byte>, off: nat, n: nat, cur: Cursor)
    requires off + n <= 8 * |buf| && Represents(c, buf, off, n, cur, 10)
    requires QuadReady(BitsOf(buf, off, n), cur) && Refill(BitsOf(buf, off, n), cur, 10) == Some(cur)
    ensures c.cached >= 10
  {
    hide HoldsBytes, HoldsPadded, BitsOf;
  }

  lemma CachedIs(c: BitCache, buf: seq<Byte>, off: nat, n: nat, cur: Cursor)
    requires off + n <= 8 * |buf| && Represents(c, buf, off, n, cur, 10)
    ensures match cur.mode
            case Live(k) => c.cached == k >= 0 && c.pad == 0
            case Padded(end) => c.cached == end - cur.pos + 10 && c.pad == 10
  {
    hide HoldsBytes, HoldsPadded, BitsOf;
  }
}
