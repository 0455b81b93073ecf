/** The ring buffer with one caller: rb_read, rb_write and the control functions on a byte queue. */
module RingBuffer {
  type Byte = bv8

  const RB_OK := 0
  const RB_FAIL := -1
  const RB_DONE := -2
  const RB_ABORT := -3
  const RB_TIMEOUT := -4

  /** The bytes that one locked section of rb_read takes out of fill bytes when n > 0 are asked for:
      all n, else a multiple of four, else, after the end of the stream, the rest. */
  function ReadSize(fill: nat, n: nat, done: bool): (r: nat)
    ensures r <= fill && r <= n
  {
    if n <= fill then n
    else
      var r := fill - fill % 4;
      if r == 0 && done then fill else r
  }

  /** The bytes that one locked section of rb_write puts behind fill bytes. */
  function WriteSize(size: nat, fill: nat, n: nat): (r: nat)
    requires fill <= size
    ensures r <= n && fill + r <= size
  {
    if n < size - fill then n else size - fill
  }

  /** A full buffer lets the reader go on, unless it is smaller than a word and the reader asks for
      more than it holds. */
  lemma FullBufferReads(size: nat, n: nat, done: bool)
    requires size > 0 && n > 0
    ensures ReadSize(size, n, done) > 0 <==> size >= 4 || n <= size || done
  {
  }

  /** All the bytes that rb_read takes when nobody else runs. */
  function ReadTotal(fill: nat, n: nat, done: bool): nat {
    if done || n <= fill then (if n <= fill then n else fill) else fill - fill % 4
  }

  /** What a call that moved `moved` of n bytes returns; a call that could not move all of them ended for
      the first of these reasons. */
  function Returned(moved: nat, n: nat, done: bool, abort: bool): int
    requires moved <= n
  {
    if moved == n then n
    else if !done && abort then RB_ABORT
    else if moved > 0 then moved
    else if done then RB_DONE
    else RB_TIMEOUT
  }

  lemma NoBytesNoSections(fill: nat, done: bool)
    ensures !TwoSections(fill, 0, done)
  {
  }

  lemma ReadBounds(fill: nat, n: nat, done: bool)
    ensures ReadTotal(fill, n, done) <= fill && ReadTotal(fill, n, done) <= n
    ensures ReadTotal(fill, 0, done) == 0
  {
  }

  /** rb_read takes its bytes in two sections: whole words first, then the rest at the end of the stream. */
  predicate TwoSections(fill: nat, n: nat, done: bool) {
    n > fill >= 4 && fill % 4 != 0 && done
  }

  /** One caller's read is over after its first section, unless words and a rest are left at the end. */
  lemma TwoSectionsExactly(fill: nat, n: nat, done: bool)
    requires n > 0
    ensures ReadTotal(fill, n, done) == ReadSize(fill, n, done) <==> !TwoSections(fill, n, done)
    ensures ReadSize(fill, n, done) == 0 ==> ReadTotal(fill, n, done) == 0
  {
  }

  /** A call that moved bytes posts the other side's semaphore once at its end. */
  function Posts(moved: nat): nat {
    if moved > 0 then 1 else 0
  }

  // ----- the queue in a ring

  /** fill bytes from p on, where one past the end is the start again. */
  function Held(s: seq<Byte>, p: nat, fill: nat): (q: seq<Byte>)
    requires p <= |s| && fill <= |s|
    ensures |q| == fill
  {
    if p + fill <= |s| then s[p..p + fill] else s[p..] + s[..p + fill - |s|]
  }

  /** The pointer moved by n; it may stop one past the end. */
  function Advance(size: nat, p: nat, n: nat): (r: nat)
    requires p <= size && n <= size
    ensures r <= size
  {
    if p + n > size then p + n - size else p + n
  }

  lemma HeldDrops(s: seq<Byte>, p: nat, fill: nat, r: nat)
    requires p <= |s| && r <= fill <= |s|
    ensures Held(s, Advance(|s|, p, r), fill - r) == Held(s, p, fill)[r..]
    ensures Held(s, p, r) == Held(s, p, fill)[..r]
  {
    hide Held;
    var t, u, v := Held(s, p, fill), Held(s, Advance(|s|, p, r), fill - r), Held(s, p, r);
    forall i | 0 <= i < fill - r ensures u[i] == t[r..][i] {
      HeldAt(s, p, fill, r + i);
      HeldAt(s, Advance(|s|, p, r), fill - r, i);
    }
    forall i | 0 <= i < r ensures v[i] == t[..r][i] {
      HeldAt(s, p, fill, i);
      HeldAt(s, p, r, i);
    }
  }

  lemma HeldAt(s: seq<Byte>, p: nat, fill: nat, i: nat)
    requires p <= |s| && fill <= |s| && i < fill
    ensures Held(s, p, fill)[i] == if p + i < |s| then s[p + i] else s[p + i - |s|]
  {
  }

  /** s with data copied over the bytes from `at` on. */
  function Patched(s: seq<Byte>, at: nat, data: seq<Byte>): (t: seq<Byte>)
    requires at + |data| <= |s|
    ensures |t| == |s|
  {
    s[..at] + data + s[at + |data|..]
  }

  lemma PatchedTwice(s: seq<Byte>, at: nat, a: seq<Byte>, b: seq<Byte>)
    requires at + |a| + |b| <= |s|
    ensures Patched(Patched(s, at, a), at + |a|, b) == Patched(s, at, a + b)
  {
  }

  lemma PatchedNothing(s: seq<Byte>, at: nat)
    requires at <= |s|
    ensures Patched(s, at, []) == s
  {
  }

  /** s with data written from w on, wrapping around. */
  function Written(s: seq<Byte>, w: nat, data: seq<Byte>): (t: seq<Byte>)
    requires w <= |s| && |data| <= |s|
    ensures |t| == |s|
  {
    if w + |data| <= |s| then Patched(s, w, data)
    else Patched(Patched(s, w, data[..|s| - w]), 0, data[|s| - w..])
  }

  lemma PatchedAt(s: seq<Byte>, at: nat, data: seq<Byte>, j: nat)
    requires at + |data| <= |s| && j < |s|
    ensures Patched(s, at, data)[j] == if at <= j < at + |data| then data[j - at] else s[j]
  {
  }

  lemma WrittenAt(s: seq<Byte>, w: nat, data: seq<Byte>, j: nat)
    requires w <= |s| && |data| <= |s| && j < |s|
    ensures Written(s, w, data)[j] ==
            if w <= j < w + |data| then data[j - w] else if j + |s| < w + |data| then data[j + |s| - w] else s[j]
  {
    hide Patched;
    if w + |data| <= |s| {
      PatchedAt(s, w, data, j);
    } else {
      var k := |s| - w;
      PatchedAt(Patched(s, w, data[..k]), 0, data[k..], j);
      PatchedAt(s, w, data[..k], j);
    }
  }

  /** Writing behind the held bytes appends to them. */
  lemma HeldGrows(s: seq<Byte>, p: nat, fill: nat, data: seq<Byte>)
    requires p <= |s| && fill + |data| <= |s|
    ensures Held(Written(s, Advance(|s|, p, fill), data), p, fill + |data|) == Held(s, p, fill) + data
  {
    hide Held, Written;
    var w := Advance(|s|, p, fill);
    var t := Written(s, w, data);
    var u, v := Held(t, p, fill + |data|), Held(s, p, fill) + data;
    forall i | 0 <= i < fill + |data| ensures u[i] == v[i] {
      HeldAt(t, p, fill + |data|, i);
      WrittenAt(s, w, data, if p + i < |s| then p + i else p + i - |s|);
      if i < fill {
        HeldAt(s, p, fill, i);
      }
    }
  }

  lemma HeldIs(s: seq<Byte>, p: nat, n: nat)
    requires p <= |s| && n <= |s|
    ensures Held(s, p, n) == if p + n <= |s| then s[p..p + n] else s[p..] + s[..p + n - |s|]
  {
  }

  lemma AtLeastTwo(a: nat, b: nat)
    requires a >= 2 && b >= 1
    ensures a * b >= 2
  {
  }

  method Memcpy(dst: array<Byte>, at: nat, src: array<Byte>, from: nat, n: nat)
    requires dst != src && at + n <= dst.Length && from + n <= src.Length
    modifies dst
    ensures dst[..] == Patched(old(dst[..]), at, src[from..from + n])
  {
    forall i | 0 <= i < n {
      dst[at + i] := src[from + i];
    }
  }

  lemma SplitSlice(s: seq<Byte>, from: nat, k: nat, n: nat)
    requires k <= n && from + n <= |s|
    ensures s[from..from + n][..k] == s[from..from + k] && s[from..from + n][k..] == s[from + k..from + n]
  {
  }

  lemma ReadSteps(fill: nat, n: nat, done: bool)
    requires n > 0
    ensures var r := ReadSize(fill, n, done);
            ReadTotal(fill, n, done) == if r == 0 then 0 else r + ReadTotal(fill - r, n - r, done)
    ensures ReadSize(fill, n, done) == 0 ==> ReadTotal(fill, n, done) < n
  {
  }

  class RingBuf {
    const p_o: array<Byte>
    var p_r: nat
    var p_w: nat
    var fill_cnt: nat
    var is_done_write: bool
    var unblock_reader_flag: bool
    var abort_read: bool
    var abort_write: bool
    var can_read: nat    // semaphores
    var can_write: nat

    /** p_w is fill_cnt bytes ahead of p_r around the ring; either may stand one past the end. */
    ghost predicate Valid()
      reads this
    {
      && p_o.Length >= 2 && p_r <= p_o.Length && fill_cnt <= p_o.Length
      && p_w == Advance(p_o.Length, p_r, fill_cnt)
    }

    /** The bytes in the buffer, oldest first. */
    ghost function Contents(): (q: seq<Byte>)
      requires Valid()
      reads this, p_o
      ensures |q| == fill_cnt
    {
      Held(p_o[..], p_r, fill_cnt)
    }

    /** rb_create; memory is always available. */
    constructor (block_size: nat, n_blocks: nat)
      requires block_size >= 2 && n_blocks >= 1
      ensures Valid() && Contents() == [] && p_o.Length == block_size * n_blocks && fresh(p_o)
      ensures !is_done_write && !unblock_reader_flag && !abort_read && !abort_write && can_read == 0 && can_write == 0
    {
      AtLeastTwo(block_size, n_blocks);
      p_o := new Byte[block_size * n_blocks](_ => 0);
      p_r, p_w, fill_cnt := 0, 0, 0;
      is_done_write, unblock_reader_flag, abort_read, abort_write := false, false, false, false;
      can_read, can_write := 0, 0;
    }

    /** Drop the bytes and the flags. The semaphores keep their counts. */
    method rb_reset() returns (err: int)
      requires Valid()
      modifies this`p_r, this`p_w, this`fill_cnt, this`is_done_write, this`unblock_reader_flag, this`abort_read,
          this`abort_write
      ensures Valid() && Contents() == [] && err == RB_OK
      ensures !is_done_write && !unblock_reader_flag && !abort_read && !abort_write
    {
      p_r, p_w, fill_cnt := 0, 0, 0;
      is_done_write, unblock_reader_flag, abort_read, abort_write := false, false, false, false;
      err := RB_OK;
    }

    function rb_bytes_available(): (n: nat)
      requires Valid()
      reads this
      ensures n + |Contents()| == p_o.Length
    {
      p_o.Length - fill_cnt
    }

    method rb_abort() returns (err: int)
      modifies this`abort_read, this`abort_write, this`can_read, this`can_write
      ensures abort_read && abort_write && can_read == old(can_read) + 1 && can_write == old(can_write) + 1
          && err == RB_OK
    {
      abort_read := true;
      can_read := can_read + 1;
      abort_write := true;
      can_write := can_write + 1;
      err := RB_OK;
    }

    /** Only the reader is woken up. */
    method rb_done_write() returns (err: int)
      modifies this`is_done_write, this`can_read
      ensures is_done_write && can_read == old(can_read) + 1 && err == RB_OK
    {
      is_done_write := true;
      can_read := can_read + 1;
      err := RB_OK;
    }

    method rb_unblock_reader() returns (err: int)
      modifies this`unblock_reader_flag, this`can_read
      ensures unblock_reader_flag && can_read == old(can_read) + 1 && err == RB_OK
    {
      unblock_reader_flag := true;
      can_read := can_read + 1;
      err := RB_OK;
    }

    /** Take n bytes off the front into dst[at..], if there is a dst. */
    method TakeOut(dst: array?<Byte>, at: nat, n: nat)
      requires Valid() && n <= fill_cnt && (dst != null ==> dst != p_o && at + n <= dst.Length)
      modifies this`p_r, this`fill_cnt, if dst == null then {} else {dst}
      ensures Valid() && Contents() == old(Contents())[n..]
      ensures p_r == Advance(p_o.Length, old(p_r), n)
      ensures dst != null ==> dst[..] == Patched(old(dst[..]), at, old(Contents())[..n])
    {
      hide Held, Patched;
      HeldDrops(p_o[..], p_r, fill_cnt, n);
      HeldIs(p_o[..], p_r, n);
      ghost var ring := p_o[..];
      if p_r + n > p_o.Length {
        var rlen1 := p_o.Length - p_r;
        var rlen2 := n - rlen1;
        if dst != null {
          PatchedTwice(dst[..], at, ring[p_r..], ring[..rlen2]);
          Memcpy(dst, at, p_o, p_r, rlen1);
          assert ring[p_r..] == ring[p_r..p_r + rlen1];
          Memcpy(dst, at + rlen1, p_o, 0, rlen2);
          assert ring[..rlen2] == ring[0..0 + rlen2];
        }
        p_r := rlen2;
      } else {
        if dst != null {
          Memcpy(dst, at, p_o, p_r, n);
        }
        p_r := p_r + n;
      }
      fill_cnt := fill_cnt - n;
    }

    /** The same behind `total` bytes that the call has taken before. */
    method TakeNext(dst: array?<Byte>, at: nat, total: nat, n: nat, ghost was: seq<Byte>, ghost q: seq<Byte>)
      requires Valid() && total + n <= |q| && Contents() == q[total..]
      requires dst != null ==>
                dst != p_o && at + total + n <= dst.Length == |was| && dst[..] == Patched(was, at, q[..total])
      modifies this`p_r, this`fill_cnt, if dst == null then {} else {dst}
      ensures Valid() && Contents() == q[total + n..]
      ensures dst != null ==> dst[..] == Patched(was, at, q[..total + n])
    {
      hide Held, Advance, Patched;
      assert q[total..][n..] == q[total + n..];
      assert q[..total + n] == q[..total] + q[total..][..n];
      if dst != null {
        PatchedTwice(was, at, q[..total], q[total..][..n]);
      }
      TakeOut(dst, at + total, n);
    }

    /** Put n bytes of src[from..] behind the last one. */
    method PutIn(src: array<Byte>, from: nat, n: nat)
      requires Valid() && fill_cnt + n <= p_o.Length && src != p_o && from + n <= src.Length
      modifies this`p_w, this`fill_cnt, p_o
      ensures Valid() && Contents() == old(Contents()) + src[from..from + n]
      ensures p_w == Advance(p_o.Length, old(p_w), n) && p_o[..] == Written(old(p_o[..]), old(p_w), src[from..from + n])
    {
      hide Held, Patched;
      ghost var data := src[from..from + n];
      HeldGrows(p_o[..], p_r, fill_cnt, data);
      if p_w + n > p_o.Length {
        var wlen1 := p_o.Length - p_w;
        var wlen2 := n - wlen1;
        SplitSlice(src[..], from, wlen1, n);
        Memcpy(p_o, p_w, src, from, wlen1);
        Memcpy(p_o, 0, src, from + wlen1, wlen2);
        p_w := wlen2;
      } else {
        Memcpy(p_o, p_w, src, from, n);
        p_w := p_w + n;
      }
      fill_cnt := fill_cnt + n;
    }

    /** The same behind `total` bytes that the call has put before. */
    method PutNext(src: array<Byte>, from: nat, total: nat, n: nat, ghost q: seq<Byte>)
      requires Valid() && fill_cnt + n <= p_o.Length && src != p_o && from + total + n <= src.Length
      requires Contents() == q + src[from..from + total]
      modifies this`p_w, this`fill_cnt, p_o
      ensures Valid() && Contents() == q + src[from..from + total + n] && fill_cnt == old(fill_cnt) + n
    {
      hide Held, Advance, Patched;
      assert src[from..from + total] + src[from + total..from + total + n] == src[from..from + total + n];
      PutIn(src, from + total, n);
    }

    /** Let the other side go on, and wait for it. With nobody else there only a token left over from
        before ends the wait; it times out otherwise. */
    method PostAndWait(reading: bool) returns (woken: bool)
      requires Valid()
      modifies this`can_read, this`can_write
      ensures Valid() && Contents() == old(Contents())
      ensures woken == (if reading then old(can_read) > 0 else old(can_write) > 0)
      ensures can_read == if !reading then old(can_read) + 1 else if woken then old(can_read) - 1 else 0
      ensures can_write == if reading then old(can_write) + 1 else if woken then old(can_write) - 1 else 0
    {
      if reading {
        can_write := can_write + 1;
        woken := can_read > 0;
        if woken {
          can_read := can_read - 1;
        }
      } else {
        can_read := can_read + 1;
        woken := can_write > 0;
        if woken {
          can_write := can_write - 1;
        }
      }
    }

    /** The end of a call that moved total bytes. */
    method Finish(reading: bool, total: nat, retVal: int) returns (r: int)
      requires Valid()
      modifies this`can_read, this`can_write, this`unblock_reader_flag
      ensures Valid() && Contents() == old(Contents())
      ensures r == if retVal == RB_FAIL || retVal == RB_ABORT then retVal else if total > 0 then total else retVal
      ensures can_write == old(can_write) + (if reading then Posts(total) else 0)
      ensures can_read == old(can_read) + (if reading then 0 else Posts(total))
      ensures unblock_reader_flag == (!reading && old(unblock_reader_flag))
    {
      if total > 0 {
        if reading {
          can_write := can_write + 1;
        } else {
          can_read := can_read + 1;
        }
      }
      r := if retVal == RB_FAIL || retVal == RB_ABORT then retVal else if total > 0 then total else retVal;
      if reading {
        unblock_reader_flag := false;   // the reader leaves anyway
      }
    }

    /** Read up to buf_len bytes into dst[at..]; waiting is in vain, since nobody else posts. Without a dst the
        bytes are to be dropped. But the code moves the null pointer along with every section, and takes it
        for a buffer in the second one: `wild` says that it is about to write there, which is where the
        model stops. */
    method rb_read(dst: array?<Byte>, at: nat, buf_len: nat) returns (r: int, wild: bool)
      requires Valid() && (dst != null ==> dst != p_o && at + buf_len <= dst.Length)
      modifies this`p_r, this`fill_cnt, this`unblock_reader_flag, this`can_read, this`can_write,
          if dst == null then {} else {dst}
      ensures Valid()
      ensures wild <==> dst == null && TwoSections(old(fill_cnt), buf_len, is_done_write)
      ensures !wild ==> !unblock_reader_flag
      ensures !wild ==>
              var q := old(Contents());
              var n := ReadTotal(|q|, buf_len, is_done_write);
              && n <= |q| && n <= buf_len
              && Contents() == q[n..] && (dst != null ==> dst[..] == Patched(old(dst[..]), at, q[..n]))
              && r == Returned(n, buf_len, is_done_write, abort_read)
              && if n == buf_len || is_done_write || abort_read || old(unblock_reader_flag) then
                   can_read == old(can_read) && can_write == old(can_write) + Posts(n)
                 else
                   can_read == 0 && can_write == old(can_write) + old(can_read) + 1 + Posts(n)
    {
      hide Held, Advance, Patched, ReadTotal, ReadSize, TwoSections, RingBuf.Contents, RingBuf.Valid;
      wild := false;
      var left: nat, total: nat, retVal := buf_len, 0, 0;
      ghost var q, n := Contents(), ReadTotal(fill_cnt, buf_len, is_done_write);
      ReadBounds(fill_cnt, buf_len, is_done_write);
      ghost var first := ReadSize(fill_cnt, buf_len, is_done_write);
      NoBytesNoSections(fill_cnt, is_done_write);
      if buf_len > 0 {
        TwoSectionsExactly(fill_cnt, buf_len, is_done_write);
      }
      if dst != null {
        PatchedNothing(dst[..], at);
      }
      while left > 0
        invariant left + total == buf_len && total <= n && retVal == 0
        invariant total + ReadTotal(fill_cnt, left, is_done_write) == n
        invariant total == 0 ==> fill_cnt == old(fill_cnt)
        invariant total > 0 && dst == null ==> total == first
        invariant Valid() && Contents() == q[total..]
        invariant dst != null ==> dst[..] == Patched(old(dst[..]), at, q[..total])
        invariant unblock_reader_flag == old(unblock_reader_flag)
        invariant can_read <= old(can_read) && can_write + can_read == old(can_write + can_read)
        invariant can_read < old(can_read) ==>
                  total == n < buf_len && !is_done_write && !abort_read && !unblock_reader_flag
        decreases left, can_read
      {
        ReadSteps(fill_cnt, left, is_done_write);
        ReadBounds(fill_cnt, left, is_done_write);
        var readSize := ReadSize(fill_cnt, left, is_done_write);
        if readSize == 0 {
          if is_done_write {
            retVal := RB_DONE;
            break;
          }
          if abort_read {
            retVal := RB_ABORT;
            break;
          }
          if unblock_reader_flag {
            retVal := RB_TIMEOUT;
            break;
          }
          var woken := PostAndWait(true);
          if !woken {
            retVal := RB_TIMEOUT;
            break;
          }
          continue;
        }
        if dst == null && total > 0 {
          return total, true;
        }
        TakeNext(dst, at, total, readSize, if dst == null then [] else old(dst[..]), q);
        left := left - readSize;
        total := total + readSize;
        if left == 0 {
          break;
        }
      }
      r := Finish(true, total, retVal);
    }

    /** Write up to buf_len bytes of src[from..]. */
    method rb_write(src: array?<Byte>, from: nat, buf_len: nat) returns (r: int)
      requires Valid() && (src != null ==> src != p_o && from + buf_len <= src.Length)
      modifies this`p_w, this`fill_cnt, this`can_read, this`can_write, this`unblock_reader_flag, p_o
      ensures unblock_reader_flag == old(unblock_reader_flag)
      ensures Valid()
      ensures src == null ==>
                r == RB_FAIL && Contents() == old(Contents()) && can_read == old(can_read) && can_write == old(can_write)
      ensures src != null ==>
                var n := WriteSize(p_o.Length, old(fill_cnt), buf_len);
                && Contents() == old(Contents()) + src[from..from + n]
                && r == Returned(n, buf_len, is_done_write, abort_write)
                && if n == buf_len || is_done_write || abort_write then
                     can_write == old(can_write) && can_read == old(can_read) + Posts(n)
                   else
                     can_write == 0 && can_read == old(can_read) + old(can_write) + 1 + Posts(n)
    {
      hide Held, Advance, Patched, RingBuf.Contents;
      if src == null {
        return RB_FAIL;
      }
      var left: nat, total: nat, retVal := buf_len, 0, 0;
      ghost var n := WriteSize(p_o.Length, fill_cnt, buf_len);
      while left > 0
        invariant left + total == buf_len && retVal == 0
        invariant Valid() && src[..] == old(src[..])
        invariant Contents() == old(Contents()) + src[from..from + total]
        invariant total + WriteSize(p_o.Length, fill_cnt, left) == n
        invariant unblock_reader_flag == old(unblock_reader_flag)
        invariant can_write <= old(can_write) && can_write + can_read == old(can_write + can_read)
        invariant can_write < old(can_write) ==> total == n < buf_len && !is_done_write && !abort_write
        decreases left, can_write
      {
        var writeSize := WriteSize(p_o.Length, fill_cnt, left);
        if writeSize == 0 {
          if is_done_write {
            retVal := RB_DONE;
            break;
          }
          if abort_write {
            retVal := RB_ABORT;
            break;
          }
          var woken := PostAndWait(false);
          if !woken {
            retVal := RB_TIMEOUT;
            break;
          }
          continue;
        }
        PutNext(src, from, total, writeSize, old(Contents()));
        left := left - writeSize;
        total := total + writeSize;
        if left == 0 {
          break;
        }
      }
      r := Finish(false, total, retVal);
    }
  }

  /** After the end of the stream, reading chunk after chunk delivers every byte, whatever the abort and
      unblock flags say and although only words are read before the end, and then reports the end. */
  method Drain(rb: RingBuf, dst: array<Byte>, chunk: nat) returns (total: nat, r: int)
    requires rb.Valid() && rb.is_done_write && chunk > 0
    requires dst != rb.p_o && rb.fill_cnt + chunk <= dst.Length
    modifies rb, dst
    ensures rb.Valid() && rb.Contents() == [] && r == RB_DONE
    ensures total == |old(rb.Contents())| && dst[..total] == old(rb.Contents())
    ensures rb.can_read == old(rb.can_read)
  {
    hide Held, Advance, Patched;
    ghost var q := rb.Contents();
    total, r := 0, 1;
    while r > 0
      invariant rb.Valid() && rb.is_done_write && total <= |q|
      invariant rb.Contents() == q[total..] && dst[..total] == q[..total]
      invariant rb.can_read == old(rb.can_read)
      invariant r <= 0 ==> r == RB_DONE && total == |q|
      decreases rb.fill_cnt + (if r > 0 then 1 else 0)
    {
      ghost var was := dst[..];
      assert was[..total] == q[..total];
      PatchedNothing(was, total);
      var wild;
      r, wild := rb.rb_read(dst, total, chunk);
      if r > 0 {
        PatchedFront(was, total, q[total..][..r]);
        assert dst[..] == Patched(was, total, q[total..][..r]);
        assert dst[..total + r] == dst[..][..total + r];
        assert q[..total + r] == q[..total] + q[total..][..r];
        total := total + r;
      }
    }
  }

  /** Five bytes, the end of the stream, and a read of eight that are to be dropped. */
  method PseudoReadGoesWild() returns (wild: bool)
    ensures wild
  {
    hide Held, Patched, RingBuf.Contents;
    var rb := new RingBuf(8, 1);
    var src := new Byte[5](_ => 0);
    var n := rb.rb_write(src, 0, 5);
    var err := rb.rb_done_write();
    n, wild := rb.rb_read(null, 0, 8);
  }

  /** Whole words have left the buffer for dst when an aborted read runs out of them, and yet it reports the abort
      alone. */
  method AbortHidesBytes(rb: RingBuf, dst: array<Byte>, n: nat) returns (r: int)
    requires rb.Valid() && rb.abort_read && !rb.is_done_write && 4 <= rb.fill_cnt < n <= dst.Length && dst != rb.p_o
    modifies rb, dst
    ensures rb.Valid() && r == RB_ABORT
    ensures var q := old(rb.Contents());
            var k := |q| - |q| % 4;
            rb.Contents() == q[k..] && dst[..k] == q[..k]
  {
    hide Held, Advance, Patched;
    ghost var q, was := rb.Contents(), dst[..];
    ghost var k := |q| - |q| % 4;
    var wild;
    r, wild := rb.rb_read(dst, 0, n);
    PatchedFront(was, 0, q[..k]);
    assert dst[..k] == dst[..][..k];
  }

  lemma PatchedFront(s: seq<Byte>, at: nat, data: seq<Byte>)
    requires at + |data| <= |s|
    ensures Patched(s, at, data)[..at + |data|] == s[..at] + data
  {
  }
}
