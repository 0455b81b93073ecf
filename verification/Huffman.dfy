/** DecodeHuffmanPairs on the word-level cache. */
module Huffman {
  import opened Bits
  import opened HuffmanSpec
  import opened HuffmanCache
  import opened HuffmanTheory

  /** The refill at the head of the decoding loops. */
  method RefillCache(c: BitCache, buf: seq<Byte>, pad: nat, ghost off: nat, ghost n: nat, ghost cur: Cursor)
    returns (ok: bool, r: BitCache)
    requires off + n <= 8 * |buf| && Represents(c, buf, off, n, cur, pad)
    requires c.cached < pad <= 11
    requires cur.mode.Padded? ==> n <= cur.mode.end
    ensures match Refill(BitsOf(buf, off, n), cur, pad)
            case None => !ok
            case Some(cur1) => ok && Represents(r, buf, off, n, cur1, pad)
  {
    hide HoldsBytes, HoldsPadded, Or, ByteShl, KeepTop, BitsOf;
    r := c;
    if c.left >= 16 {
      LoadTwoRepresents(c, buf, off, n, cur, pad);
      r := OrByte(OrByte(c, buf, 24 - c.cached), buf, 16 - c.cached);
      r := r.(cached := c.cached + 16, left := c.left - 16);
    } else {
      if c.cached + c.left <= 0 {
        return false, r;
      }
      if cur.mode.Live? {
        DrainRepresents(c, buf, off, n, cur, pad);
      } else {
        RedrainRepresents(c, buf, off, n, cur, pad);
      }
      r := Drain(c, buf, pad);
    }
    ok := true;
  }

  /** Make need bits available for an escape, a byte at a time. */
  method FillForEscape(c: BitCache, buf: seq<Byte>, need: nat, ghost off: nat, ghost n: nat, ghost cur: Cursor)
    returns (ok: bool, r: BitCache)
    requires off + n <= 8 * |buf| && Represents(c, buf, off, n, cur, 11)
    requires need <= 15
    requires cur.mode.Live? ==> cur.mode.cached <= n - cur.pos
    ensures match NeedBits(BitsOf(buf, off, n), cur, need)
            case None => !ok
            case Some(cur1) => ok && Represents(r, buf, off, n, cur1, 11)
  {
    hide HoldsBytes, HoldsPadded, Or, ByteShl, KeepTop, BitsOf;
    r := c;
    if c.cached + c.left < need {
      return false, r;
    }
    while r.cached < need
      invariant c.cached <= r.cached && FillUp(r.cached, need) == FillUp(c.cached, need)
      invariant r.cached + r.left == c.cached + c.left && r.pad == c.pad
      invariant cur.mode.Padded? ==> r == c
      invariant r == c || (off + cur.pos + r.cached == 8 * r.next && r.cached < need + 8)
      invariant cur.mode.Live? ==>
                  r.next <= |buf| && r.cached >= 0 && HoldsBytes(r.word, buf, off + cur.pos, r.cached)
      decreases need - r.cached
    {
      OrByteHolds(r.word, buf, off + cur.pos, r.cached, r.next);
      r := OrByte(r, buf, 24 - r.cached).(cached := r.cached + 8, left := r.left - 8);
    }
    if r.left < 0 {
      TrimHolds(r.word, buf, off + cur.pos, r.cached, r.cached + r.left);
      r := r.(word := KeepTop(r.word, r.cached + r.left), cached := r.cached + r.left, left := 0);
    }
    ok := true;
  }

  lemma NeedBitsFacts(b: seq<bool>, cur: Cursor, need: nat)
    ensures match NeedBits(b, cur, need)
            case None => true
            case Some(c) =>
              && c.pos == cur.pos && c.mode.Live? == cur.mode.Live?
              && (c.mode.Live? ==> need <= c.mode.cached <= |b| - c.pos)
  {
  }

  /** The sign bit of a nonzero magnitude. */
  method TakeSign(c: BitCache, v: nat, buf: seq<Byte>, ghost off: nat, ghost n: nat, ghost cur: Cursor, ghost pad: nat)
    returns (x: int, r: BitCache)
    requires off + n <= 8 * |buf| && Represents(c, buf, off, n, cur, pad)
    requires v != 0 && cur.mode.Live? ==> 1 <= cur.mode.cached <= n - cur.pos
    ensures x == if v == 0 then 0 else SignWord(v, ZBit(BitsOf(buf, off, n), cur.pos))
    ensures Represents(r, buf, off, n, Skip(cur, if v == 0 then 0 else 1), pad)
  {
    hide HoldsBytes, HoldsPadded, BitsOf, Shl;
    x, r := 0, c;
    if v != 0 {
      PeekRepresents(r, buf, off, n, cur, pad, 1);
      assert r.word[0] == r.word[..1][0];
      x := SignWord(v, r.word[0]);
      DropRepresents(r, buf, off, n, cur, pad, 1);
      r := Drop(r, 1);
    }
  }

  /** One magnitude: its escape if it has one, then its sign bit if it is not zero. */
  method TakeValue(c: BitCache, buf: seq<Byte>, tab: Table, v: nat, extra: nat,
                   ghost off: nat, ghost n: nat, ghost cur: Cursor)
    returns (ok: bool, x: int, r: BitCache)
    requires off + n <= 8 * |buf| && Represents(c, buf, off, n, cur, 11)
    requires v < 16 && extra <= 1 && tab.linBits <= 13
    requires cur.mode.Live? ==> extra + (if v == 0 then 0 else 1) <= cur.mode.cached <= n - cur.pos
    ensures match ScheduledValue(tab, BitsOf(buf, off, n), cur, v, extra)
            case None => !ok
            case Some((x1, cur1)) => ok && x == x1 && Represents(r, buf, off, n, cur1, 11)
  {
    hide Represents, Drop, NeedBits, BitsOf, Value;
    ghost var b := BitsOf(buf, off, n);
    ghost var at := cur;
    x, r, ok := v, c, true;
    if tab.kind == LoopLinbits && v == 15 {
      ok, r := FillForEscape(r, buf, tab.linBits + 1 + extra, off, n, at);
      if !ok {
        return;
      }
      NeedBitsFacts(b, at, tab.linBits + 1 + extra);
      at := NeedBits(b, at, tab.linBits + 1 + extra).value;
      PeekRepresents(r, buf, off, n, at, 11, tab.linBits);
      x := x + Top(r.word, tab.linBits);
      DropRepresents(r, buf, off, n, at, 11, tab.linBits);
      r := Drop(r, tab.linBits);
      at := Skip(at, tab.linBits);
    }
    x, r := TakeSign(r, x, buf, off, n, at, 11);
  }

  /** The two values of leaf word cw, whose codeword has just been dropped. */
  method TakeLeaf(c: BitCache, buf: seq<Byte>, tab: Table, cw: int, ghost off: nat, ghost n: nat, ghost cur: Cursor)
    returns (ok: bool, x: int, y: int, r: BitCache)
    requires off + n <= 8 * |buf| && Represents(c, buf, off, n, cur, 11) && tab.linBits <= 13
    requires cur.mode.Live? ==> 2 <= cur.mode.cached <= n - cur.pos
    ensures match ScheduledLeaf(tab, BitsOf(buf, off, n), cur, cw)
            case None => !ok
            case Some((x1, y1, cur1)) => ok && x == x1 && y == y1 && Represents(r, buf, off, n, cur1, 11)
  {
    hide HoldsBytes, HoldsPadded, BitsOf, ScheduledValue;
    ghost var b := BitsOf(buf, off, n);
    var extra := if CWY(cw) == 0 then 0 else 1;
    y := 0;
    ok, x, r := TakeValue(c, buf, tab, CWX(cw), extra, off, n, cur);
    if !ok {
      return;
    }
    ghost var at := ScheduledValue(tab, b, cur, CWX(cw), extra).value.1;
    if cur.mode.Live? {
      ScheduledValueStaysReady(tab, b, cur, CWX(cw), extra);
      ScheduledValueStaysReady(tab, b, at, CWY(cw), 0);
    } else {
      ScheduledValueMoves(tab, b, cur, CWX(cw), extra);
      ScheduledValueMoves(tab, b, at, CWY(cw), 0);
    }
    ok, y, r := TakeValue(r, buf, tab, CWY(cw), 0, off, n, at);
    if !ok {
      return;
    }
    // the pair would end behind the last bit
    if r.cached < r.pad {
      ok := false;
    }
  }

  lemma EntryOfFull(T: seq<int>, t: nat, w: seq<bool>)
    requires NodeInRange(T, t) && |w| == MaxBits(T[t])
    ensures Entry(T, t, w) == T[t + 1 + Value(w)]
  {
    hide Value;
    assert w + Zeros(0) == w;
  }

  /** One table lookup: a jump to another node, or a leaf and its two values. */
  method LookUp(c: BitCache, buf: seq<Byte>, tab: Table, t: nat, ghost off: nat, ghost n: nat, ghost cur: Cursor)
    returns (ok: bool, found: bool, node: nat, x: int, y: int, r: BitCache)
    requires off + n <= 8 * |buf| && Represents(c, buf, off, n, cur, 11) && c.cached >= 11
    requires WFNodes(tab) && t in tab.nodes && tab.linBits <= 13
    ensures match Lookup(tab, t, BitsOf(buf, off, n), cur)
            case Fails => !ok
            case Jumps(nd, cur1) =>
              ok && !found && node == nd && nd in tab.nodes && Represents(r, buf, off, n, cur1, 11)
            case Yields(x1, y1, cur1) =>
              ok && found && x == x1 && y == y1 && Represents(r, buf, off, n, cur1, 11)
  {
    hide HoldsBytes, HoldsPadded, BitsOf, ScheduledLeaf, Value, Entry, Shl;
    assert NodeOk(tab, t);
    var maxBits := MaxBits(tab.words[t]);
    PeekRepresents(c, buf, off, n, cur, 11, maxBits);
    EntryOfFull(tab.words, t, c.word[..maxBits]);
    assert EntryOk(tab, t, c.word[..maxBits]);
    var cw := tab.words[t + 1 + Top(c.word, maxBits)];
    var len := HLen(cw);
    ok, found, node, x, y := true, false, 0, 0, 0;
    if len == 0 {
      DropRepresents(c, buf, off, n, cur, 11, maxBits);
      r := Drop(c, maxBits);
      node := t + cw;
    } else {
      DropRepresents(c, buf, off, n, cur, 11, len);
      r := Drop(c, len);
      found := true;
      ok, x, y, r := TakeLeaf(r, buf, tab, cw, off, n, Skip(cur, len));
    }
  }

  // ----- the schedule, one refill or one lookup at a time

  lemma ScheduleStep(tab: Table, t: nat, b: seq<bool>, cur: Cursor, count: nat)
    requires count > 0 && Refill(b, cur, 11) == Some(cur)
    ensures Schedule(tab, t, b, cur, count) ==
            match Lookup(tab, t, b, cur)
            case Fails => OutOfBits
            case Jumps(node, c1) => Schedule(tab, node, b, c1, count)
            case Yields(x, y, c1) => Prepend([x, y], Schedule(tab, tab.base, b, c1, count - 1))
  {
    hide Lookup, Prepend;
  }

  lemma RefillTwice(b: seq<bool>, cur: Cursor)
    requires Refill(b, cur, 11).Some?
    requires match cur.mode case Live(k) => k >= 0 case Padded(_) => true
    ensures Refill(b, Refill(b, cur, 11).value, 11) == Refill(b, cur, 11)
  {
  }

  lemma ScheduleRefilled(tab: Table, t: nat, b: seq<bool>, cur: Cursor, count: nat)
    requires count > 0 && (cur.mode.Live? ==> cur.mode.cached >= 0)
    ensures match Refill(b, cur, 11)
            case None => Schedule(tab, t, b, cur, count).OutOfBits?
            case Some(c) => Schedule(tab, t, b, cur, count) == Schedule(tab, t, b, c, count)
  {
    hide Lookup, Prepend, Refill;
    if Refill(b, cur, 11).Some? {
      RefillTwice(b, cur);
    }
  }

  lemma LookupKeepsEnd(tab: Table, t: nat, b: seq<bool>, cur: Cursor)
    ensures match Lookup(tab, t, b, cur)
            case Fails => true
            case Jumps(_, c) => c.mode.Padded? ==> c.mode == cur.mode
            case Yields(_, _, c) => c.mode.Padded? ==> c.mode == cur.mode
  {
    hide Value, Entry;
  }

  lemma PrependNothing(d: Decoded)
    ensures Prepend([], d) == d
  {
    if d.Decoded? {
      assert [] + d.vals == d.vals;
    }
  }

  lemma PrependTwice(a: seq<int>, b: seq<int>, d: Decoded)
    ensures Prepend(a + b, d) == Prepend(a, Prepend(b, d))
  {
    if d.Decoded? {
      assert a + b + d.vals == a + (b + d.vals);
    }
  }

  /** The decoding loops have written `out` and stand at cursor cur in node t. */
  ghost predicate Midway(c: BitCache, tab: Table, t: nat, buf: seq<Byte>, off: nat, n: nat, cur: Cursor,
                         out: seq<int>, left: nat, total: nat)
    requires off + n <= 8 * |buf|
  {
    && t in tab.nodes
    && Represents(c, buf, off, n, cur, 11)
    && (cur.mode.Padded? ==> n <= cur.mode.end)
    && Schedule(tab, tab.base, BitsOf(buf, off, n), StartCursor(off), total)
       == Prepend(out, Schedule(tab, t, BitsOf(buf, off, n), cur, left))
  }

  lemma MidwayRefills(c: BitCache, r: BitCache, tab: Table, t: nat, buf: seq<Byte>, off: nat, n: nat, cur: Cursor,
                      out: seq<int>, left: nat, total: nat)
    requires off + n <= 8 * |buf| && left > 0 && Midway(c, tab, t, buf, off, n, cur, out, left, total)
    ensures match Refill(BitsOf(buf, off, n), cur, 11)
            case None => Schedule(tab, tab.base, BitsOf(buf, off, n), StartCursor(off), total).OutOfBits?
            case Some(cur1) =>
              Represents(r, buf, off, n, cur1, 11) ==>
                Midway(r, tab, t, buf, off, n, cur1, out, left, total) && (c.cached < 11 ==> r.cached >= 11)
  {
    hide HoldsBytes, HoldsPadded, BitsOf, Schedule;
    ScheduleRefilled(tab, t, BitsOf(buf, off, n), cur, left);
  }

  lemma MidwayLooksUp(c: BitCache, r: BitCache, tab: Table, t: nat, buf: seq<Byte>, off: nat, n: nat, cur: Cursor,
                      out: seq<int>, left: nat, total: nat)
    requires off + n <= 8 * |buf| && left > 0 && Midway(c, tab, t, buf, off, n, cur, out, left, total)
    requires c.cached >= 11
    ensures var step := Lookup(tab, t, BitsOf(buf, off, n), cur);
            && (step.Fails? ==> Schedule(tab, tab.base, BitsOf(buf, off, n), StartCursor(off), total).OutOfBits?)
            && (step.Jumps? && step.node in tab.nodes && Represents(r, buf, off, n, step.cur, 11) ==>
                  Midway(r, tab, step.node, buf, off, n, step.cur, out, left, total))
            && (step.Yields? && tab.base in tab.nodes && Represents(r, buf, off, n, step.cur, 11) ==>
                  Midway(r, tab, tab.base, buf, off, n, step.cur, out + [step.x, step.y], left - 1, total))
  {
    hide HoldsBytes, HoldsPadded, BitsOf, Schedule, Lookup;
    var b := BitsOf(buf, off, n);
    ScheduleStep(tab, t, b, cur, left);
    LookupKeepsEnd(tab, t, b, cur);
    match Lookup(tab, t, b, cur)
    case Fails =>
    case Jumps(node, cur1) =>
    case Yields(x, y, cur1) => PrependTwice(out, [x, y], Schedule(tab, tab.base, b, cur1, left - 1));
  }

  lemma MidwayEnds(c: BitCache, tab: Table, t: nat, buf: seq<Byte>, off: nat, n: nat, cur: Cursor,
                   out: seq<int>, total: nat)
    requires off + n <= 8 * |buf| && Midway(c, tab, t, buf, off, n, cur, out, 0, total)
    ensures Schedule(tab, tab.base, BitsOf(buf, off, n), StartCursor(off), total) == Decoded(out, cur)
    ensures n - (c.left + (c.cached - c.pad)) == UsedBits(BitsOf(buf, off, n), cur)
  {
    hide HoldsBytes, HoldsPadded, Schedule;
    NoPairs(tab, t, BitsOf(buf, off, n), cur, n);
    assert out + [] == out;
  }

  lemma MidwayStarts(tab: Table, buf: seq<Byte>, off: nat, n: nat, total: nat)
    requires off < 8 && off + n <= 8 * |buf| && tab.base in tab.nodes
    ensures off > 0 ==> |buf| > 0
    ensures Midway(StartCache(buf, off, n), tab, tab.base, buf, off, n, StartCursor(off), [], total, total)
  {
    hide HoldsBytes, HoldsPadded, Schedule, BitsOf;
    StartRepresents(buf, off, n, 11);
    PrependNothing(Schedule(tab, tab.base, BitsOf(buf, off, n), StartCursor(off), total));
  }

  /** Refill on the way. */
  method RefillMidway(c: BitCache, tab: Table, t: nat, buf: seq<Byte>, ghost off: nat, ghost n: nat, ghost cur: Cursor,
                      ghost out: seq<int>, ghost left: nat, ghost total: nat)
    returns (ok: bool, r: BitCache, ghost cur1: Cursor)
    requires off + n <= 8 * |buf| && left > 0 && c.cached < 11
    requires Midway(c, tab, t, buf, off, n, cur, out, left, total)
    ensures !ok ==> Schedule(tab, tab.base, BitsOf(buf, off, n), StartCursor(off), total).OutOfBits?
    ensures ok ==> Midway(r, tab, t, buf, off, n, cur1, out, left, total) && r.cached >= 11
  {
    hide Represents, BitsOf, Schedule, Refill;
    ok, r := RefillCache(c, buf, 11, off, n, cur);
    MidwayRefills(c, r, tab, t, buf, off, n, cur, out, left, total);
    cur1 := if ok then Refill(BitsOf(buf, off, n), cur, 11).value else cur;
  }

  /** Look up on the way: the next node of the same pair, or a pair and the root for the next one. */
  method LookUpMidway(c: BitCache, tab: Table, t: nat, buf: seq<Byte>, ghost off: nat, ghost n: nat, ghost cur: Cursor,
                      ghost out: seq<int>, ghost left: nat, ghost total: nat)
    returns (ok: bool, found: bool, node: nat, x: int, y: int, r: BitCache, ghost cur1: Cursor)
    requires off + n <= 8 * |buf| && left > 0 && c.cached >= 11 && WFNodes(tab) && tab.linBits <= 13
    requires Midway(c, tab, t, buf, off, n, cur, out, left, total)
    ensures !ok ==> Schedule(tab, tab.base, BitsOf(buf, off, n), StartCursor(off), total).OutOfBits?
    ensures ok && !found ==> t < node < |tab.words| && Midway(r, tab, node, buf, off, n, cur1, out, left, total)
    ensures ok && found ==> Midway(r, tab, tab.base, buf, off, n, cur1, out + [x, y], left - 1, total)
  {
    hide Represents, BitsOf, Schedule, Lookup, NodeOk;
    ghost var step := Lookup(tab, t, BitsOf(buf, off, n), cur);
    ok, found, node, x, y, r := LookUp(c, buf, tab, t, off, n, cur);
    MidwayLooksUp(c, r, tab, t, buf, off, n, cur, out, left, total);
    cur1 := if ok then step.cur else cur;
    if ok && !found {
      NodesInRange(tab, node);
    }
  }

  /** Decode nVals / 2 pairs with a one-shot or a jump table. */
  method DecodeCoded(xy: array<int>, start: nat, nVals: nat, tab: Table, bitsLeft: nat, buf: seq<Byte>, off: nat)
    returns (r: int)
    requires WFTable(tab) && Coded(tab) && off < 8 && nVals % 2 == 0 && start + nVals <= xy.Length
    requires off + bitsLeft <= 8 * |buf|
    modifies xy
    ensures forall i | 0 <= i < xy.Length && !(start <= i < start + nVals) :: xy[i] == old(xy[i])
    ensures match Schedule(tab, tab.base, BitsOf(buf, off, bitsLeft), StartCursor(off), nVals / 2)
            case OutOfBits => r == -1
            case Decoded(vals, cur) =>
              |vals| == nVals && xy[start..start + nVals] == vals && r == UsedBits(BitsOf(buf, off, bitsLeft), cur)
  {
    hide Midway, BitsOf, Schedule, StartCache, WFNodes, UsedBits, NoJumps;
    ghost var cur, pairs: nat := StartCursor(off), nVals / 2;
    TableReady(tab);
    MidwayStarts(tab, buf, off, bitsLeft, nVals / 2);
    var c := StartCache(buf, off, bitsLeft);
    StartsLow(buf, off, bitsLeft);
    var tCurr: nat, left, k := tab.base, nVals, start;
    var ok, found, node, x, y;
    assert xy[start..k] == [];
    while left > 0
      invariant left == 2 * pairs && k + left == start + nVals && tCurr < |tab.words|
      invariant Midway(c, tab, tCurr, buf, off, bitsLeft, cur, xy[start..k], pairs, nVals / 2)
      invariant left > 0 ==> c.cached < 11
      invariant forall i | 0 <= i < xy.Length && !(start <= i < start + nVals) :: xy[i] == old(xy[i])
      decreases left, |tab.words| - tCurr
    {
      ok, c, cur := RefillMidway(c, tab, tCurr, buf, off, bitsLeft, cur, xy[start..k], pairs, nVals / 2);
      if !ok {
        return -1;
      }
      ghost var left0, t0 := left, tCurr;
      while left > 0 && c.cached >= 11
        invariant left == 2 * pairs && k + left == start + nVals && tCurr < |tab.words|
        invariant Midway(c, tab, tCurr, buf, off, bitsLeft, cur, xy[start..k], pairs, nVals / 2)
        invariant forall i | 0 <= i < xy.Length && !(start <= i < start + nVals) :: xy[i] == old(xy[i])
        invariant left < left0 || (left == left0 && (t0 < tCurr || (t0 == tCurr && c.cached >= 11)))
        decreases left, |tab.words| - tCurr
      {
        ghost var out := xy[start..k];
        ok, found, node, x, y, c, cur := LookUpMidway(c, tab, tCurr, buf, off, bitsLeft, cur, out, pairs, nVals / 2);
        if !ok {
          return -1;
        }
        if !found {
          tCurr := node;
          continue;
        }
        xy[k], xy[k + 1] := x, y;
        k := k + 2;
        left, pairs := left - 2, pairs - 1;
        assert xy[start..k] == out + [x, y];
        tCurr := tab.base;
      }
    }
    MidwayEnds(c, tab, tCurr, buf, off, bitsLeft, cur, xy[start..k], nVals / 2);
    r := bitsLeft - (c.left + (c.cached - c.pad));
  }

  lemma TableReady(tab: Table)
    requires WFTable(tab) && Coded(tab)
    ensures WFNodes(tab) && tab.linBits <= 13 && tab.base in tab.nodes && tab.base < |tab.words|
  {
    hide NoJumps;
    NodesInRange(tab, tab.base);
  }

  lemma StartsLow(buf: seq<Byte>, off: nat, n: nat)
    requires off < 8 && (off > 0 ==> |buf| > 0)
    ensures StartCache(buf, off, n).cached < 8
  {
  }

  lemma NodesInRange(tab: Table, t: nat)
    requires WFNodes(tab) && t in tab.nodes
    ensures t < |tab.words|
  {
    assert NodeOk(tab, t);
  }

  /** Decode nVals / 2 pairs into xy[start..start + nVals]. */
  method DecodeHuffmanPairs(xy: array<int>, start: nat, nVals: int, tab: Table, bitsLeft: int, buf: seq<Byte>, off: nat)
    returns (r: int)
    requires WFTable(tab) && off < 8 && nVals % 2 == 0
    requires start + nVals <= xy.Length && start <= xy.Length
    requires bitsLeft >= 0 ==> off + bitsLeft <= 8 * |buf|
    modifies xy
    ensures forall i | 0 <= i < xy.Length && !(start <= i < start + nVals) :: xy[i] == old(xy[i])
    ensures nVals <= 0 ==> r == 0
    ensures nVals > 0 && bitsLeft < 0 ==> r == -1
    ensures nVals >= 0 && bitsLeft >= 0 ==>
              match DecodedRegion(tab, BitsOf(buf, off, bitsLeft), off, nVals)
              case Regions(vals, p) => |vals| == nVals && xy[start..start + nVals] == vals && r == p <= bitsLeft
              case Short => r < 0
    ensures nVals >= 0 && bitsLeft >= 0 ==>
              match ReadRegion(tab, BitsOf(buf, off, bitsLeft), nVals)
              case Regions(vals, p) => |vals| == nVals && xy[start..start + nVals] == vals && r == p <= bitsLeft
              case Short => !Loops(tab) ==> r == -1
  {
    hide BitsOf, Schedule, PaddedPairs, RunsDry, ReadPairs, WFTable, UsedBits;
    if nVals <= 0 {
      return 0;
    }
    if bitsLeft < 0 {
      return -1;
    }
    if tab.kind == NoBits {
      var i := 0;
      while i < nVals
        invariant i % 2 == 0 && 0 <= i <= nVals
        invariant forall k | start <= k < start + i :: xy[k] == 0
        invariant forall k | 0 <= k < xy.Length && !(start <= k < start + nVals) :: xy[k] == old(xy[k])
      {
        xy[start + i + 0] := 0;
        xy[start + i + 1] := 0;
        i := i + 2;
      }
      return 0;
    } else if Coded(tab) {
      DecodesExactly(tab, BitsOf(buf, off, bitsLeft), off, nVals / 2);
      RegionFits(tab, BitsOf(buf, off, bitsLeft), off, nVals);
      r := DecodeCoded(xy, start, nVals, tab, bitsLeft, buf, off);
      return;
    }
    // the table is not in use
    r := -1;
  }
}
