/** Linking registered elements by ring buffers, and unlinking them. */
module Pipeline {

  /** A ring buffer as the pipeline sees it: something to create and to destroy once. */
  class Rb {
    var destroyed: bool

    constructor ()
      ensures !destroyed
    {
      destroyed := false;
    }

    method rb_destroy()
      requires !destroyed
      modifies this
      ensures destroyed
    {
      destroyed := true;
    }
  }

  /** One end of an element: a callback, or a ring buffer if it has one. */
  datatype Io = Callback | Ring(rb: Rb?)

  /** A null buffer does not replace a callback. */
  function SetRb(io: Io, rb: Rb?): Io {
    if rb != null then Ring(rb) else if io.Ring? then Ring(null) else io
  }

  /** No ring buffer at this end. */
  predicate Off(io: Io) {
    io.Ring? ==> io.rb == null
  }

  lemma OffStays(io: Io)
    ensures Off(SetRb(io, null))
  {
  }

  class AudioElement {
    const tag: string
    var input: Io
    var output: Io

    constructor (tag: string, input: Io, output: Io)
      ensures this.tag == tag && this.input == input && this.output == output
    {
      this.tag, this.input, this.output := tag, input, output;
    }

    method audio_element_set_input_ringbuf(rb: Rb?)
      modifies this`input
      ensures input == SetRb(old(input), rb)
    {
      if rb != null {
        input := Ring(rb);
      } else if input.Ring? {
        input := Ring(rb);
      }
    }

    method audio_element_set_output_ringbuf(rb: Rb?)
      modifies this`output
      ensures output == SetRb(old(output), rb)
    {
      if rb != null {
        output := Ring(rb);
      } else if output.Ring? {
        output := Ring(rb);
      }
    }
  }

  datatype ElItem = ElItem(el: AudioElement, linked: bool)

  datatype RbItem = RbItem(rb: Rb, host: AudioElement)

  // ----- tags

  function Lower(s: string): string {
    seq(|s|, i requires 0 <= i < |s| => if 'A' <= s[i] <= 'Z' then (s[i] as int + 32) as char else s[i])
  }

  predicate SameLetter(a: char, b: char) {
    || a == b
    || ('A' <= a <= 'Z' && b as int == a as int + 32)
    || ('A' <= b <= 'Z' && a as int == b as int + 32)
  }

  /** Two tags are the same if they only differ in the case of letters. */
  lemma SameTag(s: string, t: string)
    ensures Lower(s) == Lower(t) <==> |s| == |t| && forall i | 0 <= i < |s| :: SameLetter(s[i], t[i])
  {
    if Lower(s) == Lower(t) {
      assert |s| == |Lower(s)| == |Lower(t)| == |t|;
      forall i | 0 <= i < |s| ensures SameLetter(s[i], t[i]) {
        assert Lower(s)[i] == Lower(t)[i];
      }
    }
  }

  /** The position of the first element with the tag, in any case, or the length of the list. */
  function Find(list: seq<ElItem>, tag: string): (i: nat)
    ensures i <= |list| && (i < |list| ==> Lower(list[i].el.tag) == Lower(tag))
    ensures forall k | 0 <= k < i :: Lower(list[k].el.tag) != Lower(tag)
  {
    if list == [] then 0 else if Lower(list[0].el.tag) == Lower(tag) then 0 else 1 + Find(list[1..], tag)
  }

  /** The list with item i marked. */
  function Marked(list: seq<ElItem>, i: nat): (r: seq<ElItem>)
    requires i < |list|
    ensures |r| == |list|
    ensures forall k | 0 <= k < |list| :: r[k].el == list[k].el && r[k].linked == (list[k].linked || k == i)
  {
    list[i := list[i].(linked := true)]
  }

  lemma FindSame(a: seq<ElItem>, b: seq<ElItem>, tag: string)
    requires |a| == |b| && forall k | 0 <= k < |a| :: a[k].el == b[k].el
    ensures Find(a, tag) == Find(b, tag)
  {
  }

  /** The positions of the elements that the first tags name, up to a tag that names none. */
  function Places(list: seq<ElItem>, tags: seq<string>): (ks: seq<nat>)
    ensures |ks| <= |tags| && forall j | 0 <= j < |ks| :: ks[j] < |list|
  {
    if tags == [] || Find(list, tags[0]) == |list| then []
    else [Find(list, tags[0])] + Places(list, tags[1..])
  }

  lemma {:induction false} PlaceAt(list: seq<ElItem>, tags: seq<string>, i: nat)
    requires i < |tags| && i <= |Places(list, tags)|
    ensures Find(list, tags[i]) == |list| ==> |Places(list, tags)| == i
    ensures Find(list, tags[i]) < |list| ==>
              i < |Places(list, tags)| && Places(list, tags)[i] == Find(list, tags[i])
  {
    if i > 0 {
      PlaceAt(list, tags[1..], i - 1);
    }
  }

  function ElementsOf(list: seq<ElItem>): set<AudioElement> {
    set k | 0 <= k < |list| :: list[k].el
  }

  /** The same elements in the same places; marks may differ. */
  ghost predicate SameElements(a: seq<ElItem>, b: seq<ElItem>) {
    |a| == |b| && forall k | 0 <= k < |a| :: a[k].el == b[k].el
  }

  lemma {:induction false} PlacesSame(a: seq<ElItem>, b: seq<ElItem>, tags: seq<string>)
    requires SameElements(a, b)
    ensures Places(a, tags) == Places(b, tags)
  {
    if tags != [] {
      FindSame(a, b, tags[0]);
      PlacesSame(a, b, tags[1..]);
    }
  }

  // ----- buffers, and the ends ins and outs of the elements of a list

  function BuffersOf(rbs: seq<RbItem>): set<Rb> {
    set k | 0 <= k < |rbs| :: rbs[k].rb
  }

  /** The buffer at an end, if any. */
  function RefOf(io: Io): set<Rb> {
    if io.Ring? && io.rb != null then {io.rb} else {}
  }

  function RefsOf(ios: seq<Io>): set<Rb> {
    set k | 0 <= k < |ios| && ios[k].Ring? && ios[k].rb != null :: ios[k].rb
  }

  lemma OneRefLess(ios: seq<Io>, k: nat, io: Io)
    requires k < |ios|
    ensures RefsOf(ios[k := io]) <= RefsOf(ios) + RefOf(io)
    ensures RefOf(io) <= RefsOf(ios[k := io])
    ensures RefOf(ios[k]) <= RefsOf(ios)
  {
    var now := ios[k := io];
    assert now[k] == io;
    forall j | 0 <= j < |ios| && j != k ensures now[j] == ios[j] {
    }
  }

  lemma OneBufferMore(rbs: seq<RbItem>, x: RbItem)
    ensures BuffersOf(rbs + [x]) == BuffersOf(rbs) + {x.rb}
  {
    var more := rbs + [x];
    assert more[|rbs|] == x;
    forall b | b in BuffersOf(rbs) ensures b in BuffersOf(more) {
      var k :| 0 <= k < |rbs| && rbs[k].rb == b;
      assert more[k].rb == b;
    }
  }

  lemma NoBuffers()
    ensures BuffersOf([]) == {}
  {
  }

  lemma FewerBuffers(rbs: seq<RbItem>)
    requires rbs != []
    ensures BuffersOf(rbs) == BuffersOf(rbs[1..]) + {rbs[0].rb}
  {
    forall b | b in BuffersOf(rbs) ensures b == rbs[0].rb || b in BuffersOf(rbs[1..]) {
      var k :| 0 <= k < |rbs| && rbs[k].rb == b;
      assert k > 0 ==> rbs[1..][k - 1].rb == b;
    }
  }

  lemma BuffersSplit(rbs: seq<RbItem>, base: nat)
    requires base <= |rbs|
    ensures BuffersOf(rbs) == BuffersOf(rbs[..base]) + BuffersOf(rbs[base..])
  {
    forall b | b in BuffersOf(rbs) ensures b in BuffersOf(rbs[..base]) + BuffersOf(rbs[base..]) {
      var k :| 0 <= k < |rbs| && rbs[k].rb == b;
      assert if k < base then rbs[..base][k].rb == b else rbs[base..][k - base].rb == b;
    }
  }

  /** No element is registered twice, no buffer is listed twice, and hosts are registered. */
  ghost predicate Listed(list: seq<ElItem>, rbs: seq<RbItem>) {
    && (forall i, j | 0 <= i < j < |list| :: list[i].el != list[j].el)
    && (forall i, j | 0 <= i < j < |rbs| :: rbs[i].rb != rbs[j].rb)
    && (forall i | 0 <= i < |rbs| :: rbs[i].host in ElementsOf(list))
  }

  /** Elements that are not marked as linked do not use these buffers. */
  ghost predicate Apart(list: seq<ElItem>, ins: seq<Io>, outs: seq<Io>, buffers: set<Rb>)
    requires |ins| == |outs| == |list|
  {
    forall k | 0 <= k < |list| && !list[k].linked :: RefOf(ins[k]) !! buffers && RefOf(outs[k]) !! buffers
  }

  ghost predicate Alive(buffers: set<Rb>)
    reads buffers
  {
    forall b | b in buffers :: !b.destroyed
  }

  lemma FewerAlive(a: set<Rb>, b: set<Rb>)
    requires a <= b && Alive(b)
    ensures Alive(a)
  {
  }

  /** A buffer is at no end when no element is linked. */
  lemma NotUsed(list: seq<ElItem>, ins: seq<Io>, outs: seq<Io>, rb: Rb, buffers: set<Rb>)
    requires |ins| == |outs| == |list| && Apart(list, ins, outs, buffers) && rb in buffers
    requires forall k | 0 <= k < |list| :: !list[k].linked
    ensures rb !in RefsOf(ins) && rb !in RefsOf(outs)
  {
    assert forall k | 0 <= k < |list| :: rb !in RefOf(ins[k]) && rb !in RefOf(outs[k]);
  }

  lemma ListedRest(list: seq<ElItem>, rbs: seq<RbItem>)
    requires Listed(list, rbs) && rbs != []
    ensures Listed(list, rbs[1..]) && rbs[0].rb !in BuffersOf(rbs[1..])
  {
  }

  lemma ListedMore(list: seq<ElItem>, rbs: seq<RbItem>, k: nat, rb: Rb)
    requires Listed(list, rbs) && k < |list| && rb !in BuffersOf(rbs)
    ensures Listed(list, rbs + [RbItem(rb, list[k].el)])
  {
    var more := rbs + [RbItem(rb, list[k].el)];
    assert list[k].el in ElementsOf(list);
    forall i, j | 0 <= i < j < |more| ensures more[i].rb != more[j].rb {
      assert rbs[i].rb in BuffersOf(rbs);
    }
  }

  lemma SameOnes(a: seq<ElItem>, b: seq<ElItem>)
    requires SameElements(a, b)
    ensures ElementsOf(a) == ElementsOf(b)
  {
    assert forall k | 0 <= k < |a| :: a[k].el in ElementsOf(b) && b[k].el in ElementsOf(a);
  }

  /** What the loop over the tags finds. */
  lemma SameFound(list: seq<ElItem>, now: seq<ElItem>, tags: seq<string>, i: nat)
    requires SameElements(list, now) && i < |tags| && i <= |Places(list, tags)|
    ensures |list| == |now|
    ensures Find(now, tags[i]) == |now| ==> |Places(list, tags)| == i
    ensures Find(now, tags[i]) < |now| ==>
              i < |Places(list, tags)| && Places(list, tags)[i] == Find(now, tags[i])
              && now[Find(now, tags[i])].el in ElementsOf(list)
  {
    FindSame(list, now, tags[i]);
    PlaceAt(list, tags, i);
    SameOnes(list, now);
  }

  lemma Itself(list: seq<ElItem>)
    ensures SameElements(list, list)
  {
  }

  lemma MarkedSame(list: seq<ElItem>, now: seq<ElItem>, k: nat)
    requires SameElements(list, now) && k < |now|
    ensures SameElements(list, Marked(now, k))
  {
  }

  lemma ListedSame(a: seq<ElItem>, b: seq<ElItem>, rbs: seq<RbItem>)
    requires Listed(a, rbs) && SameElements(a, b)
    ensures ElementsOf(a) == ElementsOf(b) && Listed(b, rbs)
  {
    SameOnes(a, b);
  }

  lemma OneElementMore(list: seq<ElItem>, rbs: seq<RbItem>, ins: seq<Io>, outs: seq<Io>, el: AudioElement, a: Io, b: Io)
    requires |ins| == |outs| == |list| && el !in ElementsOf(list) && BuffersOf(rbs) !! RefOf(a) + RefOf(b)
    requires Listed(list, rbs) && Apart(list, ins, outs, BuffersOf(rbs))
    ensures var more := list + [ElItem(el, false)];
            Listed(more, rbs) && Apart(more, ins + [a], outs + [b], BuffersOf(rbs))
  {
    var more := list + [ElItem(el, false)];
    forall e | e in ElementsOf(list) ensures e in ElementsOf(more) {
      var k :| 0 <= k < |list| && list[k].el == e;
      assert more[k].el == e;
    }
    forall i, j | 0 <= i < j < |more| ensures more[i].el != more[j].el {
      assert more[i].el in ElementsOf(list);
    }
  }

  lemma OneRefMore(ios: seq<Io>, io: Io)
    ensures RefsOf(ios + [io]) <= RefsOf(ios) + RefOf(io)
  {
    var more := ios + [io];
    forall k | 0 <= k < |ios| ensures more[k] == ios[k] {
    }
  }

  /** A linked item may have any ends, and a new buffer is nobody's. */
  lemma ApartLinked(list: seq<ElItem>, ins: seq<Io>, outs: seq<Io>, k: nat, a: Io, b: Io, buffers: set<Rb>,
                    more: set<Rb>)
    requires |ins| == |outs| == |list| && k < |list| && Apart(list, ins, outs, buffers)
    requires more !! RefsOf(ins) && more !! RefsOf(outs)
    ensures Apart(Marked(list, k), ins[k := a], outs[k := b], buffers + more)
  {
    forall j | 0 <= j < |list| && !Marked(list, k)[j].linked
      ensures RefOf(ins[j]) !! buffers + more && RefOf(outs[j]) !! buffers + more
    {
      OneRefLess(ins, j, ins[j]);
      OneRefLess(outs, j, outs[j]);
    }
  }

  lemma ApartLess(list: seq<ElItem>, ins: seq<Io>, outs: seq<Io>, k: nat, buffers: set<Rb>, fewer: set<Rb>)
    requires |ins| == |outs| == |list| && k < |list| && Apart(list, ins, outs, buffers) && fewer <= buffers
    ensures Apart(list, ins[k := SetRb(ins[k], null)], outs[k := SetRb(outs[k], null)], fewer)
  {
  }

  // ----- the chain

  /** Place j is not used again before m. */
  ghost predicate LastAt(ks: seq<nat>, j: nat, m: nat)
    requires j < |ks| && m <= |ks|
  {
    forall k | j < k < m :: ks[k] != ks[j]
  }

  /** Place j of the first m writes into its buffer, unless it is used again. */
  ghost predicate Writes(rbs: seq<RbItem>, ks: seq<nat>, outs: seq<Io>, m: nat, j: nat)
    requires j < m <= |ks| && m <= |rbs| && ks[j] < |outs|
  {
    LastAt(ks, j, m) ==> outs[ks[j]] == Ring(rbs[j].rb)
  }

  /** And it reads from the buffer before. */
  ghost predicate Reads(rbs: seq<RbItem>, ks: seq<nat>, ins: seq<Io>, m: nat, j: nat)
    requires 0 < j < m <= |ks| && j <= |rbs| && ks[j] < |ins|
  {
    LastAt(ks, j, m) ==> ins[ks[j]] == Ring(rbs[j - 1].rb)
  }

  /** The first i of n places are linked up, each to the next by a buffer of its own. An element that is named
      again keeps the ends it is given last. */
  ghost predicate Chain(list: seq<ElItem>, rbs: seq<RbItem>, ks: seq<nat>, ins: seq<Io>, outs: seq<Io>, n: nat, i: nat)
    requires |ins| == |outs| == |list| && forall j | 0 <= j < |ks| :: ks[j] < |list|
  {
    && i <= |ks| && i <= n
    && |rbs| == (if i == n && n > 0 then n - 1 else i)
    && (forall j | 0 <= j < |rbs| :: rbs[j].host == list[ks[j]].el)
    && (forall j | 0 <= j < |rbs| :: Writes(rbs, ks, outs, |rbs|, j))
    && (forall j | 1 <= j < i :: Reads(rbs, ks, ins, i, j))
  }

  lemma WritesOn(rbs: seq<RbItem>, ks: seq<nat>, outs: seq<Io>, x: RbItem, j: nat)
    requires j <= |rbs| < |ks| && forall k | 0 <= k < |ks| :: ks[k] < |outs|
    requires j < |rbs| ==> Writes(rbs, ks, outs, |rbs|, j)
    ensures Writes(rbs + [x], ks, outs[ks[|rbs|] := Ring(x.rb)], |rbs| + 1, j)
  {
  }

  lemma ReadsOn(rbs: seq<RbItem>, more: seq<RbItem>, ks: seq<nat>, ins: seq<Io>, i: nat, a: Io, j: nat)
    requires 1 <= j <= i == |rbs| < |ks| && rbs <= more && forall k | 0 <= k < |ks| :: ks[k] < |ins|
    requires j < i ==> Reads(rbs, ks, ins, i, j)
    requires a == Ring(rbs[i - 1].rb)
    ensures Reads(more, ks, ins[ks[i] := a], i + 1, j)
  {
  }

  lemma ChainGrows(list: seq<ElItem>, rbs: seq<RbItem>, ks: seq<nat>, ins: seq<Io>, outs: seq<Io>, n: nat, i: nat,
                   a: Io, rb: Rb)
    requires |ins| == |outs| == |list| && (forall j | 0 <= j < |ks| :: ks[j] < |list|)
    requires Chain(list, rbs, ks, ins, outs, n, i) && i + 1 < n && i < |ks| && (i > 0 ==> a == Ring(rbs[i - 1].rb))
    ensures Chain(list, rbs + [RbItem(rb, list[ks[i]].el)], ks, ins[ks[i] := a], outs[ks[i] := Ring(rb)], n, i + 1)
  {
    hide Writes, Reads;
    var x := RbItem(rb, list[ks[i]].el);
    var i1, more, ins1, outs1 := i + 1, rbs + [x], ins[ks[i] := a], outs[ks[i] := Ring(rb)];
    forall j | 0 <= j < i1 ensures Writes(more, ks, outs1, i1, j) {
      WritesOn(rbs, ks, outs, x, j);
    }
    forall j | 1 <= j < i1 ensures Reads(more, ks, ins1, i1, j) {
      ReadsOn(rbs, more, ks, ins, i, a, j);
    }
  }

  lemma ChainEnds(list: seq<ElItem>, rbs: seq<RbItem>, ks: seq<nat>, ins: seq<Io>, outs: seq<Io>, n: nat, i: nat, a: Io)
    requires |ins| == |outs| == |list| && (forall j | 0 <= j < |ks| :: ks[j] < |list|)
    requires Chain(list, rbs, ks, ins, outs, n, i) && i + 1 == n && i < |ks| && (i > 0 ==> a == Ring(rbs[i - 1].rb))
    ensures Chain(list, rbs, ks, ins[ks[i] := a], outs, n, i + 1)
  {
    hide Writes, Reads;
    var i1, ins1 := i + 1, ins[ks[i] := a];
    forall j | 1 <= j < i1 ensures Reads(rbs, ks, ins1, i1, j) {
      ReadsOn(rbs, rbs, ks, ins, i, a, j);
    }
  }

  lemma ChainLength(list: seq<ElItem>, rbs: seq<RbItem>, ks: seq<nat>, ins: seq<Io>, outs: seq<Io>, n: nat, i: nat)
    requires |ins| == |outs| == |list| && (forall j | 0 <= j < |ks| :: ks[j] < |list|)
    requires Chain(list, rbs, ks, ins, outs, n, i) && i < n
    ensures |rbs| == i
  {
  }

  lemma ChainSame(a: seq<ElItem>, b: seq<ElItem>, rbs: seq<RbItem>, ks: seq<nat>, ins: seq<Io>, outs: seq<Io>, n: nat,
                  i: nat)
    requires |ins| == |outs| == |a| && (forall j | 0 <= j < |ks| :: ks[j] < |a|)
    requires SameElements(a, b) && Chain(a, rbs, ks, ins, outs, n, i)
    ensures Chain(b, rbs, ks, ins, outs, n, i)
  {
  }

  /** The variable rb that pipeline_rb_linked keeps from call to call. */
  class Static {
    var rb: Rb?
    constructor ()
      ensures rb == null
    {
      rb := null;
    }
  }

  class AudioPipeline {
    var el_list: seq<ElItem>
    var rb_list: seq<RbItem>
    var linked: bool

    ghost function Elements(): set<AudioElement>
      reads this
    {
      ElementsOf(el_list)
    }

    ghost function Buffers(): set<Rb>
      reads this
    {
      BuffersOf(rb_list)
    }

    /** What the registered elements read from and write to. */
    ghost function Ins(): (ios: seq<Io>)
      reads this, Elements()
      ensures |ios| == |el_list| && forall k | 0 <= k < |el_list| :: ios[k] == el_list[k].el.input
    {
      seq(|el_list|, k requires 0 <= k < |el_list| && el_list[k].el in Elements() reads this, Elements() =>
        el_list[k].el.input)
    }

    ghost function Outs(): (ios: seq<Io>)
      reads this, Elements()
      ensures |ios| == |el_list| && forall k | 0 <= k < |el_list| :: ios[k] == el_list[k].el.output
    {
      seq(|el_list|, k requires 0 <= k < |el_list| && el_list[k].el in Elements() reads this, Elements() =>
        el_list[k].el.output)
    }

    ghost function Refs(): set<Rb>
      reads this, Elements()
    {
      Buffers() + RefsOf(Ins()) + RefsOf(Outs())
    }

    /** No element is registered twice, the pipeline's buffers are different and alive, their hosts are
        registered, and elements that are not marked as linked do not use them. No registered element
        refers to a destroyed buffer. */
    ghost predicate Valid()
      reads this, Elements(), Refs()
    {
      Listed(el_list, rb_list) && Apart(el_list, Ins(), Outs(), Buffers()) && Alive(Refs())
    }

    constructor ()
      ensures Valid() && el_list == [] && rb_list == [] && !linked
    {
      el_list, rb_list, linked := [], [], false;
    }

    /** Register an element that has no end in a buffer of this pipeline. */
    method audio_pipeline_register(el: AudioElement)
      requires Valid() && el !in Elements()
      requires Alive(RefOf(el.input) + RefOf(el.output)) && Buffers() !! RefOf(el.input) + RefOf(el.output)
      modifies this`el_list
      ensures Valid() && el_list == old(el_list) + [ElItem(el, false)]
    {
      hide Listed, Apart, BuffersOf, RefsOf;
      ghost var list, ins, outs := el_list, Ins(), Outs();
      OneElementMore(list, rb_list, ins, outs, el, el.input, el.output);
      OneRefMore(ins, el.input);
      OneRefMore(outs, el.output);
      el_list := el_list + [ElItem(el, false)];
      assert Ins() == ins + [el.input];
      assert Outs() == outs + [el.output];
    }

    /** Give the element its ends: all but the first read from the buffer made last, and all but the last
        write into a new one. */
    method pipeline_rb_linked(st: Static, el: AudioElement, first: bool, last: bool)
      modifies this`rb_list, st, el
      ensures el.input == if last || !first then SetRb(old(el.input), old(st.rb)) else old(el.input)
      ensures last ==> st.rb == old(st.rb) && rb_list == old(rb_list) && el.output == old(el.output)
      ensures !last ==> st.rb != null && fresh(st.rb) && !st.rb.destroyed
                        && rb_list == old(rb_list) + [RbItem(st.rb, el)] && el.output == Ring(st.rb)
    {
      if last {
        el.audio_element_set_input_ringbuf(st.rb);
      } else {
        if !first {
          el.audio_element_set_input_ringbuf(st.rb);
        }
        var rb := new Rb();
        st.rb := rb;
        rb_list := rb_list + [RbItem(rb, el)];
        el.audio_element_set_output_ringbuf(rb);
      }
    }

    /** Link the element of one list item. */
    method LinkEnds(st: Static, k: nat, first: bool, last: bool)
      requires Listed(el_list, rb_list) && k < |el_list|
      modifies this`rb_list, this`el_list, st, el_list[k].el
      ensures el_list == Marked(old(el_list), k)
      ensures Ins() == old(Ins())[k := if last || !first then SetRb(old(Ins())[k], old(st.rb)) else old(Ins())[k]]
      ensures last ==> st.rb == old(st.rb) && rb_list == old(rb_list) && Outs() == old(Outs())
      ensures !last ==> st.rb != null && fresh(st.rb) && !st.rb.destroyed
                        && rb_list == old(rb_list) + [RbItem(st.rb, el_list[k].el)]
                        && Outs() == old(Outs())[k := Ring(st.rb)]
    {
      hide SetRb, BuffersOf;
      var el := el_list[k].el;
      el_list := Marked(el_list, k);
      pipeline_rb_linked(st, el, first, last);
      assert forall j | 0 <= j < |el_list| && j != k :: el_list[j].el != el;
    }

    /** With a buffer made, all stays valid exactly if the new input is alive. */
    lemma ValidMade(list: seq<ElItem>, rbs: seq<RbItem>, ins: seq<Io>, outs: seq<Io>, k: nat, a: Io, rb: Rb)
      requires |ins| == |outs| == |list| && k < |list| && Listed(list, rbs) && Apart(list, ins, outs, BuffersOf(rbs))
      requires Alive(BuffersOf(rbs) + RefsOf(ins) + RefsOf(outs))
      requires rb !in BuffersOf(rbs) + RefsOf(ins) + RefsOf(outs) && !rb.destroyed
      requires el_list == Marked(list, k) && rb_list == rbs + [RbItem(rb, list[k].el)]
      requires Ins() == ins[k := a] && Outs() == outs[k := Ring(rb)]
      ensures Valid() <==> Alive(RefOf(a))
    {
      hide Listed, Apart, BuffersOf, RefsOf, AudioPipeline.Ins, AudioPipeline.Outs;
      ListedMore(list, rbs, k, rb);
      ListedSame(list, el_list, rb_list);
      ApartLinked(list, ins, outs, k, a, Ring(rb), BuffersOf(rbs), {rb});
      OneBufferMore(rbs, RbItem(rb, list[k].el));
      OneRefLess(ins, k, a);
      OneRefLess(outs, k, Ring(rb));
    }

    lemma ValidEnded(list: seq<ElItem>, ins: seq<Io>, outs: seq<Io>, k: nat, a: Io)
      requires |ins| == |outs| == |list| && k < |list| && Listed(list, rb_list)
      requires Apart(list, ins, outs, BuffersOf(rb_list)) && Alive(BuffersOf(rb_list) + RefsOf(ins) + RefsOf(outs))
      requires el_list == Marked(list, k) && Ins() == ins[k := a] && Outs() == outs
      ensures Valid() <==> Alive(RefOf(a))
    {
      hide Listed, Apart, BuffersOf, RefsOf, AudioPipeline.Ins, AudioPipeline.Outs;
      ListedSame(list, el_list, rb_list);
      ApartLinked(list, ins, outs, k, a, outs[k], BuffersOf(rb_list), {});
      assert outs[k := outs[k]] == outs && BuffersOf(rb_list) + {} == BuffersOf(rb_list);
      OneRefLess(ins, k, a);
    }

    lemma RefsAllocated()
      ensures forall b | b in Refs() :: allocated(b)
    {
    }

    /** Link element i of n, which is item k of the list. All stays well exactly if the buffer that is passed on
        is alive. */
    method LinkItem(st: Static, k: nat, first: bool, last: bool)
      requires Valid() && k < |el_list|
      modifies this`rb_list, this`el_list, st, el_list[k].el
      ensures el_list == Marked(old(el_list), k)
      ensures Ins() == old(Ins())[k := if last || !first then SetRb(old(Ins())[k], old(st.rb)) else old(Ins())[k]]
      ensures last ==> st.rb == old(st.rb) && rb_list == old(rb_list) && Outs() == old(Outs())
      ensures !last ==> st.rb != null && fresh(st.rb)
                        && rb_list == old(rb_list) + [RbItem(st.rb, el_list[k].el)]
                        && Outs() == old(Outs())[k := Ring(st.rb)]
      ensures Valid() <==> (first && !last) || old(st.rb) == null || !old(st.rb).destroyed
    {
      hide Listed, Apart, BuffersOf, RefsOf, AudioPipeline.Ins, AudioPipeline.Outs, Marked;
      ghost var list, rbs, ins, outs, rb0 := el_list, rb_list, Ins(), Outs(), st.rb;
      ghost var a := if last || !first then SetRb(ins[k], st.rb) else ins[k];
      ghost var refs := Refs();
      RefsAllocated();
      OneRefLess(ins, k, a);
      LinkEnds(st, k, first, last);
      assert refs == BuffersOf(rbs) + RefsOf(ins) + RefsOf(outs) && Alive(refs);
      if last {
        ValidEnded(list, ins, outs, k, a);
      } else {
        ValidMade(list, rbs, ins, outs, k, a, st.rb);
      }
    }

    /** The buffers from item `base` on are those of the chain. */
    ghost predicate Chained(ks: seq<nat>, n: nat, i: nat, base: nat)
      reads this, Elements()
    {
      && base <= |rb_list| && (forall j | 0 <= j < |ks| :: ks[j] < |el_list|)
      && Chain(el_list, rb_list[base..], ks, Ins(), Outs(), n, i)
    }

    /** Link place i of the chain. */
    method LinkNext(st: Static, ks: seq<nat>, n: nat, i: nat, ghost base: nat)
      requires Valid() && Chained(ks, n, i, base) && i < n && i < |ks| && ks[i] < |el_list|
      requires i > 0 ==> |rb_list| == base + i && st.rb == rb_list[base + i - 1].rb
      modifies this`rb_list, this`el_list, st, el_list[ks[i]].el
      ensures el_list == Marked(old(el_list), ks[i]) && Chained(ks, n, i + 1, base)
      ensures i + 1 < n ==> |rb_list| == base + i + 1 && st.rb == rb_list[base + i].rb && fresh(st.rb)
                            && rb_list == old(rb_list) + [RbItem(st.rb, el_list[ks[i]].el)]
      ensures i + 1 == n ==> st.rb == old(st.rb) && rb_list == old(rb_list)
      ensures n > 1 ==> Valid()
      ensures n == 1 ==> (Valid() <==> st.rb == null || !st.rb.destroyed)
      ensures n == 1 && st.rb != null ==> Ins()[ks[0]] == Ring(st.rb)
    {
      hide AudioPipeline.Ins, AudioPipeline.Outs, Chain, Listed, Apart, BuffersOf, RefsOf;
      ghost var list, rbs, ins, outs, k := el_list, rb_list[base..], Ins(), Outs(), ks[i];
      ghost var a := if i > 0 || n == 1 then SetRb(ins[k], st.rb) else ins[k];
      ChainLength(list, rbs, ks, ins, outs, n, i);
      if i > 0 {
        LastIsBuffer();
      }
      LinkItem(st, ks[i], i == 0, i == n - 1);
      if i + 1 < n {
        assert rb_list[base..] == rbs + [RbItem(st.rb, list[k].el)];
        ChainGrows(list, rbs, ks, ins, outs, n, i, a, st.rb);
      } else {
        ChainEnds(list, rbs, ks, ins, outs, n, i, a);
      }
      ChainSame(list, el_list, rb_list[base..], ks, Ins(), Outs(), n, i + 1);
    }

    lemma LastIsBuffer()
      requires Valid() && rb_list != []
      ensures rb_list[|rb_list| - 1].rb in Buffers() && !rb_list[|rb_list| - 1].rb.destroyed
    {
    }

    lemma NothingChained(ks: seq<nat>, n: nat)
      requires forall j | 0 <= j < |ks| :: ks[j] < |el_list|
      ensures Chained(ks, n, 0, |rb_list|) && BuffersOf(rb_list[|rb_list|..]) == {}
    {
    }

    /** Link the named elements in this order. Each but the last owns a buffer of its own that the next one reads
        from; one that is named again keeps its last ends. A tag that names no element stops the linking and
        leaves the pipeline unlinked, but with the buffers made before. Buffers left by such a call stay in front
        of the new ones. A single element is given the buffer that was made last, for whatever pipeline: all is
        well exactly if that one is alive. */
    method audio_pipeline_link(st: Static, tags: seq<string>) returns (ok: bool)
      requires Valid()
      modifies this, st, Elements(), Buffers()
      ensures SameElements(old(el_list), el_list)
      ensures var ks, base := old(Places(el_list, tags)), if old(linked) then 0 else |old(rb_list)|;
              && (ok <==> |ks| == |tags|) && linked == ok
              && Chained(ks, |tags|, |ks|, base)
              && rb_list[..base] == old(rb_list)[..base] && fresh(BuffersOf(rb_list[base..]))
              && (ok && |tags| > 1 ==> |rb_list| == base + |tags| - 1 && st.rb == rb_list[base + |tags| - 2].rb)
              && (ok && |tags| == 1 ==>
                    && st.rb == old(st.rb) && (Valid() <==> st.rb == null || !st.rb.destroyed)
                    && (st.rb != null ==> Ins()[ks[0]] == Ring(st.rb)))
      ensures |tags| != 1 || !ok ==> Valid()
      ensures fresh(Buffers() - old(Buffers()))
    {
      hide AudioPipeline.Valid, Chain, Places, BuffersOf, AudioPipeline.Ins, AudioPipeline.Outs, RefsOf;
      ghost var list := el_list;
      if linked {
        audio_pipeline_unlink();
      }
      PlacesSame(list, el_list, tags);
      ghost var base := |rb_list|;
      ok := LinkAll(st, tags);
      BuffersSplit(rb_list, base);
      BuffersSplit(old(rb_list), base);
      SetLinked(ok);
    }

    method LinkAll(st: Static, tags: seq<string>) returns (ok: bool)
      requires Valid() && !linked
      modifies this`rb_list, this`el_list, st, Elements()
      ensures SameElements(old(el_list), el_list)
      ensures var ks, base := old(Places(el_list, tags)), |old(rb_list)|;
              && (ok <==> |ks| == |tags|)
              && Chained(ks, |tags|, |ks|, base)
              && rb_list[..base] == old(rb_list)[..base] && fresh(BuffersOf(rb_list[base..]))
              && (ok && |tags| > 1 ==> |rb_list| == base + |tags| - 1 && st.rb == rb_list[base + |tags| - 2].rb)
              && (ok && |tags| == 1 ==>
                    && st.rb == old(st.rb) && (Valid() <==> st.rb == null || !st.rb.destroyed)
                    && (st.rb != null ==> Ins()[ks[0]] == Ring(st.rb)))
      ensures |tags| != 1 || !ok ==> Valid()
    {
      hide AudioPipeline.Valid, AudioPipeline.Chained, Places, Find, BuffersOf, AudioPipeline.Ins, AudioPipeline.Outs,
          RefsOf, SameElements, Marked;
      ghost var list, base := el_list, |rb_list|;
      var n, ks := |tags|, Places(el_list, tags);
      ok := false;
      NothingChained(ks, n);
      Itself(list);
      var i := 0;
      while i < n
        invariant 0 <= i <= n && i <= |ks| && SameElements(list, el_list) && |el_list| == |list|
        invariant base <= |rb_list| && Chained(ks, n, i, base) && rb_list[..base] == old(rb_list)[..base]
        invariant fresh(BuffersOf(rb_list[base..]))
        invariant 0 < i < n ==> |rb_list| == base + i && st.rb == rb_list[base + i - 1].rb
        invariant 1 < i == n ==> |rb_list| == base + i - 1 && st.rb == rb_list[base + i - 2].rb
        invariant n > 1 || i == 0 ==> Valid()
        invariant n == i == 1 ==> (Valid() <==> st.rb == null || !st.rb.destroyed)
                                  && (st.rb != null ==> Ins()[ks[0]] == Ring(st.rb))
        invariant i == 0 || n == 1 ==> st.rb == old(st.rb)
      {
        var k := Find(el_list, tags[i]);
        SameFound(list, el_list, tags, i);
        if k == |el_list| {
          return;
        }
        ghost var now, rbs := el_list, rb_list[base..];
        LinkNext(st, ks, n, i, base);
        if i + 1 < n {
          assert rb_list[base..] == rbs + [RbItem(st.rb, el_list[k].el)];
          OneBufferMore(rbs, RbItem(st.rb, el_list[k].el));
        } else {
          assert rb_list[base..] == rbs;
        }
        MarkedSame(list, now, k);
        i := i + 1;
      }
      ok := true;
    }

    method SetLinked(ok: bool)
      modifies this`linked
      ensures linked == ok
      ensures Valid() <==> old(Valid())
      ensures Ins() == old(Ins()) && Outs() == old(Outs())
      ensures forall k | 0 <= k < |el_list| :: OffAt(k) <==> old(OffAt(k))
    {
      hide BuffersOf, RefsOf, Listed, Apart;
      linked := ok;
      assert Ins() == old(Ins()) && Outs() == old(Outs());
      assert Buffers() == old(Buffers()) && Refs() == old(Refs());
      assert Alive(Refs()) == old(Alive(Refs()));
    }

    /** Taking ends off keeps all in order; refs are the buffers in use before. */
    lemma ValidLess(list: seq<ElItem>, ins: seq<Io>, outs: seq<Io>, k: nat)
      requires |ins| == |outs| == |list| && k < |list| && Listed(list, rb_list)
      requires Apart(list, ins, outs, BuffersOf(rb_list)) && Alive(BuffersOf(rb_list) + RefsOf(ins) + RefsOf(outs))
      requires el_list == list[k := list[k].(linked := false)]
      requires Ins() == ins[k := SetRb(ins[k], null)] && Outs() == outs[k := SetRb(outs[k], null)]
      ensures Valid()
    {
      hide Listed, BuffersOf, RefsOf, AudioPipeline.Ins, AudioPipeline.Outs;
      ListedSame(list, el_list, rb_list);
      OneRefLess(ins, k, SetRb(ins[k], null));
      OneRefLess(outs, k, SetRb(outs[k], null));
    }

    /** Take both ends off a list item that is marked. */
    method UnlinkItem(k: nat)
      requires Valid() && k < |el_list|
      modifies this`el_list, el_list[k].el
      ensures Valid() && el_list == old(el_list)[k := old(el_list)[k].(linked := false)]
      ensures !old(el_list)[k].linked ==> Ins() == old(Ins()) && Outs() == old(Outs())
      ensures old(el_list)[k].linked ==>
                && Ins() == old(Ins())[k := SetRb(old(Ins())[k], null)]
                && Outs() == old(Outs())[k := SetRb(old(Outs())[k], null)]
    {
      hide Apart, BuffersOf, RefsOf, SetRb;
      ghost var list, ins, outs, refs := el_list, Ins(), Outs(), Refs();
      RefsAllocated();
      var item := el_list[k];
      if item.linked {
        el_list := el_list[k := item.(linked := false)];
        assert el_list[k].el == item.el && forall j | 0 <= j < |list| && j != k :: el_list[j].el != item.el;
        item.el.audio_element_set_output_ringbuf(null);
        item.el.audio_element_set_input_ringbuf(null);
        assert refs == BuffersOf(rb_list) + RefsOf(ins) + RefsOf(outs) && Alive(refs);
        ValidLess(list, ins, outs, k);
      }
    }

    lemma FirstHost() returns (h: nat)
      requires Valid() && rb_list != []
      ensures h < |el_list| && el_list[h].el == rb_list[0].host && rb_list[0].rb in Buffers()
    {
      h :| 0 <= h < |el_list| && el_list[h].el == rb_list[0].host;
    }

    /** Without the first buffer and its host's ends all stays in order, if no element is linked. */
    lemma ValidWithout(rbs: seq<RbItem>, ins: seq<Io>, outs: seq<Io>, h: nat)
      requires |ins| == |outs| == |el_list| && h < |el_list| && rbs != [] && rb_list == rbs[1..]
      requires Listed(el_list, rbs) && Apart(el_list, ins, outs, BuffersOf(rbs))
      requires Alive(BuffersOf(rbs) + RefsOf(ins) + RefsOf(outs) - {rbs[0].rb})
      requires Ins() == ins[h := SetRb(ins[h], null)] && Outs() == outs[h := SetRb(outs[h], null)]
      requires forall k | 0 <= k < |el_list| :: !el_list[k].linked
      ensures Valid()
    {
      hide Alive, AudioPipeline.Ins, AudioPipeline.Outs, BuffersOf, RefsOf, SetRb, Apart, Listed;
      ListedRest(el_list, rbs);
      FewerBuffers(rbs);
      OneRefLess(ins, h, SetRb(ins[h], null));
      OneRefLess(outs, h, SetRb(outs[h], null));
      OffStays(ins[h]);
      OffStays(outs[h]);
      NotUsed(el_list, ins, outs, rbs[0].rb, BuffersOf(rbs));
      ApartLess(el_list, ins, outs, h, BuffersOf(rbs), BuffersOf(rb_list));
      FewerAlive(Refs(), BuffersOf(rbs) + RefsOf(ins) + RefsOf(outs) - {rbs[0].rb});
    }

    /** Destroy the first buffer and take the ends off its host, item h of the list. */
    method DropBuffer(ghost h: nat)
      requires Valid() && rb_list != [] && forall k | 0 <= k < |el_list| :: !el_list[k].linked
      requires h < |el_list| && el_list[h].el == rb_list[0].host
      modifies this`rb_list, rb_list[0].host, rb_list[0].rb
      ensures Valid() && rb_list == old(rb_list)[1..] && old(rb_list)[0].rb.destroyed
      ensures Ins() == old(Ins())[h := SetRb(old(Ins())[h], null)]
      ensures Outs() == old(Outs())[h := SetRb(old(Outs())[h], null)]
      ensures forall k | 0 <= k < |el_list| :: old(OffAt(k)) || el_list[k].el == old(rb_list)[0].host ==> OffAt(k)
    {
      hide Apart, BuffersOf, RefsOf, SetRb;
      var item := rb_list[0];
      ghost var rbs, ins, outs, refs := rb_list, Ins(), Outs(), Refs();
      RefsAllocated();
      FewerBuffers(rbs);
      OffStays(ins[h]);
      OffStays(outs[h]);
      rb_list := rb_list[1..];
      assert forall j | 0 <= j < |el_list| && j != h :: el_list[j].el != item.host;
      item.host.audio_element_set_output_ringbuf(null);
      item.host.audio_element_set_input_ringbuf(null);
      item.rb.rb_destroy();
      assert refs == BuffersOf(rbs) + RefsOf(ins) + RefsOf(outs) && Alive(refs - {item.rb});
      ValidWithout(rbs, ins, outs, h);
    }

    /** Take the ends off all marked elements. */
    method UnlinkItems()
      requires Valid()
      modifies this`el_list, Elements()
      ensures Valid() && SameElements(old(el_list), el_list)
      ensures forall k | 0 <= k < |el_list| :: !el_list[k].linked && (old(el_list)[k].linked ==> OffAt(k))
    {
      hide AudioPipeline.Valid, AudioPipeline.Ins, AudioPipeline.Outs;
      ghost var list := el_list;
      var k := 0;
      while k < |el_list|
        invariant 0 <= k <= |el_list| && Valid() && SameElements(list, el_list)
        invariant forall j | 0 <= j < k :: !el_list[j].linked && (list[j].linked ==> OffAt(j))
        invariant forall j | k <= j < |el_list| :: el_list[j] == list[j]
      {
        assert el_list[k].el in Elements();
        UnlinkItem(k);
        k := k + 1;
      }
    }

    /** Take all ends off the elements and destroy every buffer, each once. */
    method audio_pipeline_unlink()
      requires Valid()
      modifies this, Elements(), Buffers()
      ensures Valid() && !linked
      ensures !old(linked) ==>
                rb_list == old(rb_list) && el_list == old(el_list) && Ins() == old(Ins()) && Outs() == old(Outs())
      ensures old(linked) ==> rb_list == [] && SameElements(old(el_list), el_list)
      ensures old(linked) ==>
                && (forall i | 0 <= i < |old(rb_list)| :: old(rb_list)[i].rb.destroyed)
                && (forall i, k | 0 <= i < |old(rb_list)| && 0 <= k < |el_list| ::
                      el_list[k].el == old(rb_list)[i].host ==> OffAt(k))
      ensures old(linked) ==>
                forall k | 0 <= k < |el_list| ::
                  !el_list[k].linked && (old(el_list)[k].linked ==> OffAt(k))
    {
      if !linked {
        return;
      }
      hide AudioPipeline.Valid, AudioPipeline.OffAt, AudioPipeline.Ins, AudioPipeline.Outs, BuffersOf, RefsOf;
      ghost var list, rbs := el_list, rb_list;
      UnlinkItems();
      SameOnes(list, el_list);
      DropBuffers();
      SetLinked(false);
    }

    /** Drop all buffers. */
    method DropBuffers()
      requires Valid() && forall k | 0 <= k < |el_list| :: !el_list[k].linked
      modifies this`rb_list, Elements(), Buffers()
      ensures Valid() && rb_list == []
      ensures forall i | 0 <= i < |old(rb_list)| :: old(rb_list)[i].rb.destroyed
      ensures forall i, k | 0 <= i < |old(rb_list)| && 0 <= k < |el_list| ::
                el_list[k].el == old(rb_list)[i].host ==> OffAt(k)
      ensures forall k | 0 <= k < |el_list| :: old(OffAt(k)) ==> OffAt(k)
    {
      hide AudioPipeline.Valid, AudioPipeline.OffAt;
      ghost var rbs, n := rb_list, 0;
      while rb_list != []
        invariant n <= |rbs| && rb_list == rbs[n..] && Valid()
        invariant forall i | 0 <= i < n :: rbs[i].rb.destroyed
        invariant forall i, k | 0 <= i < n && 0 <= k < |el_list| :: el_list[k].el == rbs[i].host ==> OffAt(k)
        invariant forall k | 0 <= k < |el_list| :: old(OffAt(k)) ==> OffAt(k)
        decreases |rb_list|
      {
        ghost var h := FirstHost();
        assert el_list[h].el in Elements();
        DropBuffer(h);
        n := n + 1;
      }
    }

    /** Item k has no ring buffer. */
    ghost predicate OffAt(k: nat)
      requires k < |el_list|
      reads this, Elements()
    {
      Off(Ins()[k]) && Off(Outs()[k])
    }
  }

  /** So a single element that is linked after any link and unlink refers to a destroyed buffer. */
  method SingleDangles(p: AudioPipeline, st: Static, tags: seq<string>, tag: string) returns (linked: bool)
    requires p.Valid() && |tags| >= 2 && Find(p.el_list, tag) < |p.el_list|
    modifies p, st, p.Elements(), p.Buffers()
    ensures linked <==> |old(Places(p.el_list, tags))| == |tags|
    ensures SameElements(old(p.el_list), p.el_list)
    ensures linked ==>
              var io := p.Ins()[Find(p.el_list, tag)];
              io.Ring? && io.rb != null && io.rb.destroyed && !p.Valid()
  {
    hide AudioPipeline.Valid, Places, AudioPipeline.Ins, AudioPipeline.Outs, BuffersOf, Chain, RefsOf;
    ghost var list := p.el_list;
    ghost var base := if p.linked then 0 else |p.rb_list|;
    linked := p.audio_pipeline_link(st, tags);
    if linked {
      SameOnes(list, p.el_list);
      ghost var rbs := p.rb_list;
      assert rbs[base + |tags| - 2].rb == st.rb;
      p.audio_pipeline_unlink();
      assert st.rb == rbs[base + |tags| - 2].rb && rbs[base + |tags| - 2].rb.destroyed;
      FindSame(list, p.el_list, tag);
      PlaceAt(p.el_list, [tag], 0);
      SameOnes(list, p.el_list);
      NoBuffers();
      var ok := p.audio_pipeline_link(st, [tag]);
      FindSame(list, p.el_list, tag);
    }
  }
}
