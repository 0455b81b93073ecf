/** Log levels by tag: a list of tags, and in front of it a cache of 31 tag pointers kept as a heap. */
module LogCache {
  type Text = string

  /** Levels fit the three bits they have in the cache. */
  type Level = l: nat | l < 8

  /** A tag is compared by address in the cache and by text in the list. */
  type Ptr = nat

  const TAG_CACHE_SIZE: nat := 31

  /** generation is a bit field of 29 bits. */
  const GENERATIONS: nat := 0x2000_0000

  datatype CachedTag = CachedTag(tag: Ptr, level: Level, generation: nat)

  datatype TagEntry = TagEntry(text: Text, level: Level)

  // ----- the plain list

  function Lookup(list: seq<TagEntry>, default_: Level, text: Text): Level {
    if list == [] then default_ else if list[0].text == text then list[0].level else Lookup(list[1..], default_, text)
  }

  function IndexOf(list: seq<TagEntry>, text: Text): (i: nat)
    ensures i <= |list| && (i < |list| ==> list[i].text == text)
    ensures forall k | 0 <= k < i :: list[k].text != text
  {
    if list == [] then 0 else if list[0].text == text then 0 else 1 + IndexOf(list[1..], text)
  }

  /** The list after a level was set; a tag that needs a new entry stays out when there is no memory. */
  function SetIn(list: seq<TagEntry>, text: Text, level: Level, memory: bool): seq<TagEntry> {
    var i := IndexOf(list, text);
    if i < |list| then list[i := TagEntry(text, level)]
    else if memory then [TagEntry(text, level)] + list
    else list
  }

  lemma {:induction false} LookupAt(list: seq<TagEntry>, default_: Level, text: Text)
    ensures var i := IndexOf(list, text);
            Lookup(list, default_, text) == if i < |list| then list[i].level else default_
  {
    if list != [] && list[0].text != text {
      LookupAt(list[1..], default_, text);
    }
  }

  lemma {:induction false} LookupElsewhere(list: seq<TagEntry>, i: nat, e: TagEntry, default_: Level, text: Text)
    requires i < |list| && list[i].text == e.text != text
    ensures Lookup(list[i := e], default_, text) == Lookup(list, default_, text)
  {
    if i > 0 {
      assert list[i := e][1..] == list[1..][i - 1 := e];
      LookupElsewhere(list[1..], i - 1, e, default_, text);
    } else {
      assert list[i := e][1..] == list[1..];
    }
  }

  lemma {:induction false} IndexKept(list: seq<TagEntry>, i: nat, e: TagEntry)
    requires i == IndexOf(list, e.text) && i < |list|
    ensures IndexOf(list[i := e], e.text) == i
  {
    if i > 0 {
      assert list[i := e][1..] == list[1..][i - 1 := e];
      IndexKept(list[1..], i - 1, e);
    }
  }

  /** Setting a level changes what the list says about that text and about no other. */
  lemma SetThenLookup(list: seq<TagEntry>, text: Text, level: Level, memory: bool, default_: Level, other: Text)
    ensures var after := SetIn(list, text, level, memory);
            Lookup(after, default_, other) ==
            if other == text && (memory || IndexOf(list, text) < |list|) then level else Lookup(list, default_, other)
  {
    var i, e, after := IndexOf(list, text), TagEntry(text, level), SetIn(list, text, level, memory);
    if i < |list| {
      if other == text {
        IndexKept(list, i, e);
        LookupAt(after, default_, text);
      } else {
        LookupElsewhere(list, i, e, default_, other);
      }
    } else if memory {
      assert after[1..] == list;
    }
  }

  // ----- the heap

  function Parent(k: nat): nat
    requires k > 0
  {
    (k - 1) / 2
  }

  ghost predicate Distinct(s: seq<CachedTag>) {
    forall i, j | 0 <= i < j < |s| :: s[i].tag != s[j].tag
  }

  ghost predicate DistinctStamps(s: seq<CachedTag>) {
    forall i, j | 0 <= i < j < |s| :: s[i].generation != s[j].generation
  }

  /** Every entry is older than those below it. */
  ghost predicate Heap(s: seq<CachedTag>) {
    forall k {:trigger Parent(k)} | 1 <= k < |s| :: s[Parent(k)].generation < s[k].generation
  }

  /** Only the entry at index i may be newer than those below it. */
  ghost predicate HeapBut(s: seq<CachedTag>, i: nat)
    requires i < |s|
  {
    && (forall k {:trigger Parent(k)} | 1 <= k < |s| && Parent(k) != i :: s[Parent(k)].generation < s[k].generation)
    && (forall k {:trigger Parent(k)} | 1 <= k < |s| && Parent(k) == i
        && i > 0 :: s[Parent(i)].generation < s[k].generation)
  }

  /** The oldest entry is at the top. */
  lemma {:induction false} TopIsOldest(s: seq<CachedTag>, k: nat)
    requires Heap(s) && k < |s|
    ensures s[0].generation <= s[k].generation
    decreases k
  {
    if k > 0 {
      TopIsOldest(s, Parent(k));
    }
  }

  ghost function Members(s: seq<CachedTag>): set<CachedTag> {
    set k | 0 <= k < |s| :: s[k]
  }

  function Swapped(s: seq<CachedTag>, i: nat, j: nat): (t: seq<CachedTag>)
    requires i < |s| && j < |s|
    ensures |t| == |s| && t[i] == s[j] && t[j] == s[i]
    ensures forall k | 0 <= k < |s| && k != i && k != j :: t[k] == s[k]
  {
    s[i := s[j]][j := s[i]]
  }

  lemma SwapKeeps(s: seq<CachedTag>, i: nat, j: nat)
    requires i < |s| && j < |s|
    ensures var t := Swapped(s, i, j);
            Members(t) == Members(s) && (Distinct(s) ==> Distinct(t)) && (DistinctStamps(s) ==> DistinctStamps(t))
  {
    var t := Swapped(s, i, j);
    forall x | x in Members(s) ensures x in Members(t) {
      var k :| 0 <= k < |s| && s[k] == x;
      assert t[if k == i then j else if k == j then i else k] == x;
    }
    forall x | x in Members(t) ensures x in Members(s) {
      var k :| 0 <= k < |t| && t[k] == x;
      assert s[if k == i then j else if k == j then i else k] == x;
    }
  }

  /** The child that the newest entry at index i is swapped with. */
  function Child(s: seq<CachedTag>, i: nat): (c: nat)
    requires 2 * i + 2 < |s|
    ensures c == 2 * i + 1 || c == 2 * i + 2
  {
    if s[2 * i + 1].generation < s[2 * i + 2].generation then 2 * i + 1 else 2 * i + 2
  }

  ghost predicate NewestAt(s: seq<CachedTag>, i: nat) {
    i < |s| && forall k | 0 <= k < |s| && k != i :: s[k].generation < s[i].generation
  }

  lemma SinkAt(s: seq<CachedTag>, i: nat, k: nat)
    requires 2 * i + 2 < |s| && HeapBut(s, i) && DistinctStamps(s) && NewestAt(s, i) && 1 <= k < |s|
    ensures var c := Child(s, i); var t := Swapped(s, i, c);
            t[if Parent(k) == c then i else Parent(k)].generation < t[k].generation
  {
    hide Swapped;
    var c, p := Child(s, i), Parent(k);
    assert s[2 * i + 1].generation != s[2 * i + 2].generation by { hide HeapBut; }
    if p == i {
      assert k == 2 * i + 1 || k == 2 * i + 2;
    } else if k == i {
      assert Parent(c) == i;
    }
  }

  /** The newest entry sinks by one place. */
  lemma SinkStep(s: seq<CachedTag>, i: nat)
    requires 2 * i + 2 < |s| && HeapBut(s, i) && DistinctStamps(s) && NewestAt(s, i)
    ensures HeapBut(Swapped(s, i, Child(s, i)), Child(s, i)) && NewestAt(Swapped(s, i, Child(s, i)), Child(s, i))
  {
    hide Swapped, Child;
    var c := Child(s, i);
    var t := Swapped(s, i, c);
    assert Parent(c) == i;
    forall k | 1 <= k < |t|
      ensures Parent(k) != c ==> t[Parent(k)].generation < t[k].generation
      ensures Parent(k) == c ==> t[i].generation < t[k].generation
    {
      SinkAt(s, i, k);
    }
  }

  lemma SunkToLeaf(s: seq<CachedTag>, i: nat)
    requires i < |s| && 2 * i + 1 >= |s| && HeapBut(s, i)
    ensures Heap(s)
  {
  }

  /** An entry stamped with the newest generation may go anywhere. */
  lemma StampAt(s: seq<CachedTag>, i: nat, e: CachedTag, now: nat)
    requires i < |s| && Heap(s) && e.generation == now && forall k | 0 <= k < |s| :: s[k].generation < now
    ensures HeapBut(s[i := e], i)
    ensures DistinctStamps(s) ==> DistinctStamps(s[i := e])
    ensures NewestAt(s[i := e], i)
  {
    var t := s[i := e];
    forall k | 1 <= k < |t| && Parent(k) == i && i > 0 ensures t[Parent(i)].generation < t[k].generation {
      assert s[Parent(i)].generation < s[i].generation < s[k].generation;
    }
  }

  // ----- what the operations do to the set of cached entries

  /** The first slot that holds the pointer, or |s|. */
  function Slot(s: seq<CachedTag>, tag: Ptr): (i: nat)
    ensures i <= |s| && (i < |s| ==> s[i].tag == tag)
    ensures forall k | 0 <= k < i :: s[k].tag != tag
  {
    if s == [] then 0 else if s[0].tag == tag then 0 else 1 + Slot(s[1..], tag)
  }

  lemma ReplaceMember(s: seq<CachedTag>, i: nat, e: CachedTag)
    requires i < |s| && Distinct(s)
    requires forall k | 0 <= k < |s| && k != i :: s[k].tag != e.tag
    ensures Distinct(s[i := e]) && Members(s[i := e]) == Members(s) - {s[i]} + {e}
  {
    var t := s[i := e];
    assert t[i] == e;
    forall x | x in Members(s) && x != s[i] ensures x in Members(t) {
      var k :| 0 <= k < |s| && s[k] == x;
      assert t[k] == x;
    }
    forall x | x in Members(t) && x != e ensures x in Members(s) && x != s[i] {
      var k :| 0 <= k < |t| && t[k] == x;
      assert k != i && s[k] == x;
    }
  }

  /** All cached levels are what the list says. */
  ghost predicate Fresh(s: set<CachedTag>, text: Ptr -> Text, list: seq<TagEntry>, default_: Level) {
    forall e | e in s :: e.level == Lookup(list, default_, text(e.tag))
  }

  /** The level of the first slot whose text matches is updated. */
  function UpdateFirst(s: seq<CachedTag>, text: Ptr -> Text, t: Text, level: Level): (r: seq<CachedTag>)
    ensures |r| == |s|
  {
    if s == [] then []
    else if text(s[0].tag) == t then [s[0].(level := level)] + s[1..]
    else [s[0]] + UpdateFirst(s[1..], text, t, level)
  }

  /** Whether slot k is the first one with the text t. */
  ghost predicate FirstWith(s: seq<CachedTag>, text: Ptr -> Text, t: Text, k: nat)
    requires k < |s|
  {
    text(s[k].tag) == t && forall j | 0 <= j < k :: text(s[j].tag) != t
  }

  lemma {:induction false} UpdateFirstAt(s: seq<CachedTag>, text: Ptr -> Text, t: Text, level: Level, k: nat)
    requires k < |s|
    ensures UpdateFirst(s, text, t, level)[k] == if FirstWith(s, text, t, k) then s[k].(level := level) else s[k]
  {
    if text(s[0].tag) == t {
    } else if k > 0 {
      UpdateFirstAt(s[1..], text, t, level, k - 1);
      FirstWithTail(s, text, t, k);
    }
  }

  lemma FirstWithTail(s: seq<CachedTag>, text: Ptr -> Text, t: Text, k: nat)
    requires 0 < k < |s| && text(s[0].tag) != t
    ensures FirstWith(s, text, t, k) <==> FirstWith(s[1..], text, t, k - 1)
  {
    var r := s[1..];
    assert forall j | 0 <= j < |r| :: r[j] == s[j + 1];
    assert FirstWith(s, text, t, k) ==> forall j | 0 <= j < k - 1 :: text(r[j].tag) != t;
    assert FirstWith(r, text, t, k - 1) ==> forall j | 1 <= j < k :: text(s[j].tag) != t by {
      assert forall j | 1 <= j < k :: s[j] == r[j - 1];
    }
  }

  /** Setting a level leaves the cache right exactly when no second cached pointer with the same text
      holds another level. */
  lemma SetKeepsFresh(s: seq<CachedTag>, text: Ptr -> Text, list: seq<TagEntry>, default_: Level, t: Text, level: Level)
    requires Fresh(Members(s), text, list, default_)
    ensures Fresh(Members(UpdateFirst(s, text, t, level)), text, SetIn(list, t, level, true), default_) <==>
            forall k | 0 <= k < |s| && text(s[k].tag) == t && !FirstWith(s, text, t, k) :: s[k].level == level
  {
    hide SetIn, UpdateFirst, Lookup;
    var r, after := UpdateFirst(s, text, t, level), SetIn(list, t, level, true);
    forall k | 0 <= k < |s|
      ensures r[k] in Members(r) && s[k] in Members(s)
      ensures r[k] == if FirstWith(s, text, t, k) then s[k].(level := level) else s[k]
      ensures Lookup(after, default_, text(s[k].tag)) == if text(s[k].tag) == t then level else s[k].level
    {
      UpdateFirstAt(s, text, t, level, k);
      SetThenLookup(list, t, level, true, default_, text(s[k].tag));
    }
  }

  /** Different pointers of the set point to different texts. */
  ghost predicate OnePointerPerText(text: Ptr -> Text, ps: set<Ptr>) {
    forall p, q | p in ps && q in ps :: text(p) == text(q) ==> p == q
  }

  /** The cached pointers. */
  function Pointers(s: seq<CachedTag>): set<Ptr> {
    set k | 0 <= k < |s| :: s[k].tag
  }

  lemma PointersGrow(s: seq<CachedTag>, t: seq<CachedTag>, x: CachedTag, e: CachedTag)
    requires Members(t) == Members(s) - {x} + {e} || t == s + [e]
    ensures Pointers(t) <= Pointers(s) + {e.tag}
  {
    forall k | 0 <= k < |t| ensures t[k].tag in Pointers(s) + {e.tag} {
      assert t[k] in Members(t);
      if t[k] != e {
        var j :| 0 <= j < |s| && s[j] == t[k];
      }
    }
  }

  lemma UpdateKeepsPointers(s: seq<CachedTag>, text: Ptr -> Text, t: Text, level: Level)
    ensures Pointers(UpdateFirst(s, text, t, level)) == Pointers(s)
  {
    hide UpdateFirst;
    var r := UpdateFirst(s, text, t, level);
    forall k | 0 <= k < |s| ensures r[k].tag == s[k].tag && r[k].tag in Pointers(r) {
      UpdateFirstAt(s, text, t, level, k);
    }
  }

  class Log {
    const text: Ptr -> Text
    var esp_log_default_level: Level
    var s_log_tags: seq<TagEntry>
    const s_log_cache: array<CachedTag>
    var entry_count: nat
    var max_generation: nat      // 32 bits
    ghost var stamps: nat        // generations given out since the cache was cleared

    ghost function Entries(): seq<CachedTag>
      reads this, s_log_cache
    {
      if entry_count <= s_log_cache.Length then s_log_cache[..entry_count] else []
    }

    ghost predicate Valid()
      reads this, s_log_cache
    {
      Slots() && max_generation == stamps % 0x1_0000_0000
    }

    /** No pointer is cached twice; and until the generations wrap around, the cache is a heap of
        different generations, all given out before. */
    ghost predicate Slots()
      reads this, s_log_cache
    {
      && s_log_cache.Length == TAG_CACHE_SIZE && entry_count <= TAG_CACHE_SIZE
      && Distinct(Entries())
      && (stamps <= GENERATIONS ==> OrderedBy(Entries(), stamps))
    }

    ghost function Cached(): set<Ptr>
      reads this, s_log_cache
    {
      Pointers(Entries())
    }

    /** The cache says the same as the list. */
    ghost predicate Agrees()
      reads this, s_log_cache
    {
      Fresh(Members(Entries()), text, s_log_tags, esp_log_default_level)
    }

    constructor (text: Ptr -> Text, level: Level)
      ensures Valid() && Agrees() && s_log_tags == [] && Entries() == [] && stamps == 0 && esp_log_default_level == level
          && this.text == text && fresh(s_log_cache)
    {
      this.text := text;
      esp_log_default_level := level;
      s_log_tags := [];
      s_log_cache := new CachedTag[TAG_CACHE_SIZE](_ => CachedTag(0, 0, 0));
      entry_count, max_generation, stamps := 0, 0, 0;
    }

    method heap_swap(i: nat, j: nat)
      requires i < s_log_cache.Length && j < s_log_cache.Length
      modifies s_log_cache
      ensures s_log_cache[..] == Swapped(old(s_log_cache[..]), i, j)
    {
      var tmp := s_log_cache[i];
      s_log_cache[i] := s_log_cache[j];
      s_log_cache[j] := tmp;
    }

    /** Sink the entry at `index` to a leaf. When it is the newest and only it is out of order, this
        restores the heap. */
    method heap_bubble_down(index: nat)
      requires s_log_cache.Length == TAG_CACHE_SIZE && index < TAG_CACHE_SIZE
      modifies s_log_cache
      ensures Members(s_log_cache[..]) == Members(old(s_log_cache[..]))
      ensures Distinct(old(s_log_cache[..])) ==> Distinct(s_log_cache[..])
      ensures Sinkable(old(s_log_cache[..]), index) ==> Heap(s_log_cache[..]) && DistinctStamps(s_log_cache[..])
    {
      hide Swapped, Members, Distinct, DistinctStamps, HeapBut, NewestAt, Heap;
      var i := index;
      while i < TAG_CACHE_SIZE / 2
        invariant i < TAG_CACHE_SIZE
        invariant Members(s_log_cache[..]) == Members(old(s_log_cache[..]))
        invariant Distinct(old(s_log_cache[..])) ==> Distinct(s_log_cache[..])
        invariant Sinkable(old(s_log_cache[..]), index) ==> Sinkable(s_log_cache[..], i)
        decreases TAG_CACHE_SIZE - i
      {
        var left := i * 2 + 1;
        var right := left + 1;
        var next := if s_log_cache[left].generation < s_log_cache[right].generation then left else right;
        ghost var s := s_log_cache[..];
        SwapKeeps(s, i, next);
        if Sinkable(s, i) {
          SinkStep(s, i);
        }
        heap_swap(i, next);
        i := next;
      }
      if Sinkable(s_log_cache[..], i) {
        SunkToLeaf(s_log_cache[..], i);
      }
    }

    /** Put e into slot i of the full cache and sink it. */
    method Restamp(i: nat, e: CachedTag)
      requires Slots() && entry_count == TAG_CACHE_SIZE && i < TAG_CACHE_SIZE
      requires e.generation == Stamp(stamps) && forall k | 0 <= k < TAG_CACHE_SIZE
          && k != i :: s_log_cache[k].tag != e.tag
      modifies s_log_cache
      ensures Members(Entries()) == Members(old(Entries())) - {old(Entries())[i]} + {e}
      ensures Distinct(Entries())
      ensures stamps < GENERATIONS ==> OrderedBy(Entries(), stamps + 1)
    {
      hide Members, Distinct, DistinctStamps, HeapBut, NewestAt, Heap;
      ghost var s := s_log_cache[..];
      assert s == Entries();
      s_log_cache[i] := e;
      assert s_log_cache[..] == s[i := e];
      ReplaceMember(s, i, e);
      if stamps < GENERATIONS {
        StampAt(s, i, e, stamps);
      }
      heap_bubble_down(i);
      assert s_log_cache[..] == Entries();
      if stamps < GENERATIONS {
        NoneNewer(s, i, e, Entries(), stamps);
      }
    }

    /** Whether the pointer is cached, and its level. A hit in the full cache makes it the newest entry. */
    method get_cached_log_level(tag: Ptr) returns (found: bool, level: Level)
      requires Valid()
      modifies s_log_cache, this`max_generation, this`stamps
      ensures Valid()
      ensures var s := old(Entries()); var i := Slot(s, tag);
              && found == (i < |s|) && (found ==> level == s[i].level)
              && if found && |s| == TAG_CACHE_SIZE then
                   && Members(Entries()) == Members(s) - {s[i]} + {s[i].(generation := Stamp(old(stamps)))}
                   && stamps == old(stamps) + 1
                 else Entries() == s && stamps == old(stamps)
    {
      hide Members, DistinctStamps, Heap, OrderedBy;
      ghost var s := Entries();
      var i := 0;
      while i < entry_count
        invariant i <= entry_count && forall k | 0 <= k < i :: s_log_cache[k].tag != tag
      {
        if s_log_cache[i].tag == tag {
          break;
        }
        i := i + 1;
      }
      SlotIs(s, tag, i);
      if i == entry_count {
        return false, 0;
      }
      found, level := true, s_log_cache[i].level;
      if entry_count == TAG_CACHE_SIZE {
        NextStamp(stamps);
        Restamp(i, s_log_cache[i].(generation := max_generation % GENERATIONS));
        max_generation := (max_generation + 1) % 0x1_0000_0000;
        stamps := stamps + 1;
      }
    }

    /** Cache a pointer that is not cached. In the full cache it replaces the entry at the top. */
    method add_to_cache(tag: Ptr, level: Level)
      requires Valid() && Slot(Entries(), tag) == |Entries()|
      modifies s_log_cache, this`max_generation, this`stamps, this`entry_count
      ensures Valid() && stamps == old(stamps) + 1
      ensures var s, e := old(Entries()), CachedTag(tag, level, Stamp(old(stamps)));
              if |s| < TAG_CACHE_SIZE then Entries() == s + [e]
              else Members(Entries()) == Members(s) - {s[0]} + {e} && |Entries()| == TAG_CACHE_SIZE
    {
      hide Members, DistinctStamps, Heap;
      ghost var s := Entries();
      NextStamp(stamps);
      var e := CachedTag(tag, level, max_generation % GENERATIONS);
      max_generation := (max_generation + 1) % 0x1_0000_0000;
      if entry_count < TAG_CACHE_SIZE {
        s_log_cache[entry_count] := e;
        entry_count := entry_count + 1;
        assert Entries() == s + [e];
        if stamps < GENERATIONS {
          NewAtEnd(s, e, stamps);
        }
        stamps := stamps + 1;
        return;
      }
      Restamp(0, e);
      stamps := stamps + 1;
    }

    /** First match in the list, by text. */
    method get_uncached_log_level(tag: Ptr) returns (found: bool, level: Level)
      ensures var i := IndexOf(s_log_tags, text(tag));
              found == (i < |s_log_tags|) && (found ==> level == s_log_tags[i].level)
    {
      var i := 0;
      while i < |s_log_tags|
        invariant i <= |s_log_tags| && forall k | 0 <= k < i :: s_log_tags[k].text != text(tag)
      {
        if s_log_tags[i].text == text(tag) {
          return true, s_log_tags[i].level;
        }
        i := i + 1;
      }
      return false, 0;
    }

    /** The level of a tag. What the cache says is what the list says; a hit in the full cache renews
        the entry, and a miss replaces the one that was renewed longest ago. */
    method esp_log_level_get(tag: Ptr) returns (level: Level)
      requires Valid()
      modifies s_log_cache, this`max_generation, this`stamps, this`entry_count
      ensures Valid()
      ensures old(Agrees()) ==> Agrees() && level == Lookup(s_log_tags, esp_log_default_level, text(tag))
      ensures var s := old(Entries()); var i := Slot(s, tag);
              && level == (if i < |s| then s[i].level else Lookup(s_log_tags, esp_log_default_level, text(tag)))
              && stamps == old(stamps) + (if i < |s| && |s| != TAG_CACHE_SIZE then 0 else 1)
              && (i < |s| && |s| == TAG_CACHE_SIZE ==>
                    Members(Entries()) == Members(s) - {s[i]} + {s[i].(generation := Stamp(old(stamps)))})
              && (i < |s| < TAG_CACHE_SIZE ==> Entries() == s)
              && (i == |s| < TAG_CACHE_SIZE ==> Entries() == s + [CachedTag(tag, level, Stamp(old(stamps)))])
              && (i == |s| == TAG_CACHE_SIZE ==>
                    Members(Entries()) == Members(s) - {s[0]} + {CachedTag(tag, level, Stamp(old(stamps)))}
                    && (old(stamps) <= GENERATIONS ==> forall k | 0 <= k < |s| :: s[0].generation <= s[k].generation))
      ensures Cached() <= old(Cached()) + {tag}
    {
      hide Log.Slots, Members, Stamp, Lookup, IndexOf, Fresh, Heap, Pointers;
      ghost var s := Entries();
      SlotFresh(s, tag, text, s_log_tags, esp_log_default_level);
      if stamps <= GENERATIONS {
        SlotsOldest();
      }
      var found;
      found, level := get_cached_log_level(tag);
      if found {
        if |s| == TAG_CACHE_SIZE {
          PointersGrow(s, Entries(), s[Slot(s, tag)], s[Slot(s, tag)].(generation := Stamp(old(stamps))));
        }
        ReplaceFresh(s, s[Slot(s, tag)], s[Slot(s, tag)].(generation := Stamp(old(stamps))), text, s_log_tags,
            esp_log_default_level);
      } else {
        found, level := get_uncached_log_level(tag);
        if !found {
          level := esp_log_default_level;
        }
        LookupAt(s_log_tags, esp_log_default_level, text(tag));
        add_to_cache(tag, level);
        ghost var e := CachedTag(tag, level, Stamp(old(stamps)));
        PointersGrow(s, Entries(), if s == [] then e else s[0], e);
        AppendFresh(s, e, text, s_log_tags, esp_log_default_level);
        if |s| > 0 {
          ReplaceFresh(s, s[0], e, text, s_log_tags, esp_log_default_level);
        }
      }
    }

    lemma SlotsOldest()
      requires Valid() && stamps <= GENERATIONS
      ensures forall k | 0 <= k < entry_count :: Entries()[0].generation <= Entries()[k].generation
    {
      forall k | 0 <= k < entry_count ensures Entries()[0].generation <= Entries()[k].generation {
        TopIsOldest(Entries(), k);
      }
    }

    method clear_log_level_list()
      requires Valid()
      modifies this`s_log_tags, this`entry_count, this`max_generation, this`stamps
      ensures Valid() && s_log_tags == [] && Entries() == []
    {
      s_log_tags, entry_count, max_generation, stamps := [], 0, 0, 0;
    }

    /** Set the level of a tag, or of all tags when its text is "*". memory says whether a list entry
        can be allocated. */
    method esp_log_level_set(tag: Ptr, level: Level, memory: bool)
      requires Valid()
      modifies this`esp_log_default_level, this`s_log_tags, this`entry_count, this`max_generation, this`stamps,
          s_log_cache
      ensures Valid()
      ensures text(tag) == "*" ==> esp_log_default_level == level && s_log_tags == [] && Entries() == [] && Agrees()
      ensures text(tag) != "*" ==>
                && esp_log_default_level == old(esp_log_default_level)
                && s_log_tags == SetIn(old(s_log_tags), text(tag), level, memory)
                && Entries() == (if memory || IndexOf(old(s_log_tags), text(tag)) < |old(s_log_tags)|
                                 then UpdateFirst(old(Entries()), text, text(tag), level) else old(Entries()))
      ensures old(Agrees()) && OnePointerPerText(text, old(Cached())) ==> Agrees()
      ensures Cached() <= old(Cached())
    {
      hide Pointers, Members, Lookup, IndexOf, UpdateFirst, Heap, DistinctStamps, Fresh, OnePointerPerText;
      // the wildcard empties both the list and the cache
      if text(tag) == "*" {
        esp_log_default_level := level;
        clear_log_level_list();
        NothingFresh(text, s_log_tags, level);
        NoPointers();
        return;
      }
      var it := 0;
      while it < |s_log_tags|
        invariant it <= |s_log_tags| && forall k | 0 <= k < it :: s_log_tags[k].text != text(tag)
      {
        if s_log_tags[it].text == text(tag) {
          break;
        }
        it := it + 1;
      }
      IndexIs(s_log_tags, text(tag), it);
      ghost var list, s := s_log_tags, Entries();
      if it < |s_log_tags| {
        s_log_tags := s_log_tags[it := TagEntry(text(tag), level)];
      } else {
        // the tag is new
        if !memory {
          return;
        }
        s_log_tags := [TagEntry(text(tag), level)] + s_log_tags;
      }
      assert s_log_tags == SetIn(list, text(tag), level, true);
      UpdateCached(text(tag), level);
      SetKeepsAgreement(s, text, list, esp_log_default_level, text(tag), level);
      UpdateKeepsPointers(s, text, text(tag), level);
    }

    /** Give the first cached entry with this text the level. */
    method UpdateCached(t: Text, level: Level)
      requires Valid()
      modifies s_log_cache
      ensures Valid() && Entries() == UpdateFirst(old(Entries()), text, t, level)
    {
      hide Distinct, OrderedBy, UpdateFirst;
      ghost var s := Entries();
      var i := 0;
      while i < entry_count
        invariant i <= entry_count && forall k | 0 <= k < i :: text(s_log_cache[k].tag) != t
      {
        if text(s_log_cache[i].tag) == t {
          break;
        }
        i := i + 1;
      }
      UpdateFirstIs(s, text, t, level, i);
      UpdateOrdered(s, text, t, level, stamps);
      if i < entry_count {
        s_log_cache[i] := s_log_cache[i].(level := level);
        assert Entries() == s[i := s[i].(level := level)];
      }
    }
  }

  ghost predicate Sinkable(s: seq<CachedTag>, i: nat) {
    i < |s| && HeapBut(s, i) && NewestAt(s, i) && DistinctStamps(s)
  }

  ghost predicate OrderedBy(s: seq<CachedTag>, stamps: nat) {
    Heap(s) && DistinctStamps(s) && forall k | 0 <= k < |s| :: s[k].generation < stamps
  }

  /** The generation of the n-th stamp: bits 0 to 28. */
  function Stamp(n: nat): nat {
    n % GENERATIONS
  }

  lemma NextStamp(n: nat)
    ensures n % 0x1_0000_0000 % GENERATIONS == Stamp(n)
    ensures (n % 0x1_0000_0000 + 1) % 0x1_0000_0000 == (n + 1) % 0x1_0000_0000
    ensures n < GENERATIONS ==> Stamp(n) == n
  {
  }

  lemma SlotIs(s: seq<CachedTag>, tag: Ptr, i: nat)
    requires i <= |s| && (i < |s| ==> s[i].tag == tag) && forall k | 0 <= k < i :: s[k].tag != tag
    ensures Slot(s, tag) == i
  {
  }

  lemma NewAtEnd(s: seq<CachedTag>, e: CachedTag, stamps: nat)
    requires OrderedBy(s, stamps) && e.generation == stamps
    ensures OrderedBy(s + [e], stamps + 1)
  {
    var t := s + [e];
    forall k {:trigger Parent(k)} | 1 <= k < |t| ensures t[Parent(k)].generation < t[k].generation {
      assert t[Parent(k)] == s[Parent(k)];
    }
  }

  lemma NoneNewer(s: seq<CachedTag>, i: nat, e: CachedTag, t: seq<CachedTag>, stamps: nat)
    requires i < |s| && OrderedBy(s, stamps) && e.generation == stamps && Members(t) == Members(s[i := e])
    ensures forall k | 0 <= k < |t| :: t[k].generation < stamps + 1
  {
    forall k | 0 <= k < |t| ensures t[k].generation < stamps + 1 {
      assert t[k] in Members(t);
      assert t[k] in Members(s[i := e]);
    }
  }

  lemma NoPointers()
    ensures Pointers([]) == {}
  {
  }

  lemma NothingFresh(text: Ptr -> Text, list: seq<TagEntry>, default_: Level)
    ensures Fresh(Members([]), text, list, default_)
  {
  }

  lemma IndexIs(list: seq<TagEntry>, t: Text, i: nat)
    requires i <= |list| && (i < |list| ==> list[i].text == t) && forall k | 0 <= k < i :: list[k].text != t
    ensures IndexOf(list, t) == i
  {
  }

  lemma SlotFresh(s: seq<CachedTag>, tag: Ptr, text: Ptr -> Text, list: seq<TagEntry>, default_: Level)
    ensures var i := Slot(s, tag);
            i < |s| && Fresh(Members(s), text, list, default_) ==> s[i].level == Lookup(list, default_, text(tag))
  {
    hide Lookup;
    if Slot(s, tag) < |s| {
      assert s[Slot(s, tag)] in Members(s);
    }
  }

  lemma ReplaceFresh(s: seq<CachedTag>, x: CachedTag, e: CachedTag, text: Ptr -> Text, list: seq<TagEntry>,
                     default_: Level)
    ensures Fresh(Members(s), text, list, default_) && e.level == Lookup(list, default_, text(e.tag)) ==>
              Fresh(Members(s) - {x} + {e}, text, list, default_)
  {
    hide Lookup, Members;
  }

  lemma AppendFresh(s: seq<CachedTag>, e: CachedTag, text: Ptr -> Text, list: seq<TagEntry>, default_: Level)
    ensures Fresh(Members(s), text, list, default_) && e.level == Lookup(list, default_, text(e.tag)) ==>
              Fresh(Members(s + [e]), text, list, default_)
  {
    hide Lookup;
    assert Members(s + [e]) == Members(s) + {e} by {
      forall x | x in Members(s) ensures x in Members(s + [e]) {
        var k :| 0 <= k < |s| && s[k] == x;
        assert (s + [e])[k] == x;
      }
      assert (s + [e])[|s|] == e;
    }
  }

  lemma {:induction false} UpdateFirstIs(s: seq<CachedTag>, text: Ptr -> Text, t: Text, level: Level, i: nat)
    requires i <= |s| && (i < |s| ==> text(s[i].tag) == t) && forall k | 0 <= k < i :: text(s[k].tag) != t
    ensures UpdateFirst(s, text, t, level) == if i < |s| then s[i := s[i].(level := level)] else s
  {
    var r := UpdateFirst(s, text, t, level);
    if i > 0 {
      var rest := s[1..];
      forall k | 0 <= k < i - 1 ensures text(rest[k].tag) != t {
        assert rest[k] == s[k + 1];
      }
      UpdateFirstIs(rest, text, t, level, i - 1);
      assert r == [s[0]] + UpdateFirst(rest, text, t, level);
      assert i < |s| ==> [s[0]] + rest[i - 1 := rest[i - 1].(level := level)] == s[i := s[i].(level := level)];
    } else if s != [] {
      assert r == [s[0].(level := level)] + s[1..];
    }
  }

  /** Levels do not matter for the order. */
  lemma UpdateOrdered(s: seq<CachedTag>, text: Ptr -> Text, t: Text, level: Level, stamps: nat)
    ensures Distinct(s) ==> Distinct(UpdateFirst(s, text, t, level))
    ensures OrderedBy(s, stamps) ==> OrderedBy(UpdateFirst(s, text, t, level), stamps)
  {
    hide UpdateFirst;
    var r := UpdateFirst(s, text, t, level);
    forall k | 0 <= k < |s| ensures r[k].tag == s[k].tag && r[k].generation == s[k].generation {
      UpdateFirstAt(s, text, t, level, k);
    }
  }

  /** With one cached pointer for each text, setting a level always leaves the cache right. */
  lemma SetKeepsAgreement(s: seq<CachedTag>, text: Ptr -> Text, list: seq<TagEntry>, default_: Level, t: Text,
                          level: Level)
    requires Distinct(s)
    ensures Fresh(Members(s), text, list, default_) && OnePointerPerText(text, Pointers(s)) ==>
              Fresh(Members(UpdateFirst(s, text, t, level)), text, SetIn(list, t, level, true), default_)
  {
    hide Members, Lookup, UpdateFirst, SetIn;
    if Fresh(Members(s), text, list, default_) && OnePointerPerText(text, Pointers(s)) {
      SetKeepsFresh(s, text, list, default_, t, level);
      assert forall k | 0 <= k < |s| :: s[k].tag in Pointers(s);
      assert forall j, k | 0 <= j < k < |s| :: text(s[j].tag) != text(s[k].tag);
    }
  }

  // ----- any sequence of calls

  datatype Op = Set(tag: Ptr, level: Level, memory: bool) | Get(tag: Ptr)

  /** What the calls of esp_log_level_get in a sequence of calls return when there is only the list. */
  function Plain(ops: seq<Op>, text: Ptr -> Text, list: seq<TagEntry>, default_: Level): seq<Level> {
    if ops == [] then []
    else
      match ops[0]
      case Get(tag) => [Lookup(list, default_, text(tag))] + Plain(ops[1..], text, list, default_)
      case Set(tag, level, memory) =>
        if text(tag) == "*" then Plain(ops[1..], text, [], level)
        else Plain(ops[1..], text, SetIn(list, text(tag), level, memory), default_)
  }

  /** The pointers that a sequence of calls can put into the cache. */
  function Got(ops: seq<Op>): set<Ptr> {
    set i | 0 <= i < |ops| && ops[i].Get? :: ops[i].tag
  }

  /** The cache cannot be seen: any sequence of calls gives the levels of the plain list, when no two cached or
      looked up pointers have the same text. */
  method Transparent(log: Log, ops: seq<Op>) returns (levels: seq<Level>)
    requires log.Valid() && log.Agrees() && OnePointerPerText(log.text, log.Cached() + Got(ops))
    modifies log, log.s_log_cache
    ensures log.Valid() && log.Agrees()
    ensures levels == Plain(ops, log.text, old(log.s_log_tags), old(log.esp_log_default_level))
  {
    hide OnePointerPerText, Log.Valid, Log.Agrees, Log.Cached, Lookup, SetIn, Plain;
    levels := [];
    var i := 0;
    assert ops[0..] == ops;
    while i < |ops|
      invariant i <= |ops| && log.Valid() && log.Agrees() && log.Cached() <= old(log.Cached()) + Got(ops)
      invariant levels + Plain(ops[i..], log.text, log.s_log_tags, log.esp_log_default_level) ==
                Plain(ops, log.text, old(log.s_log_tags), old(log.esp_log_default_level))
    {
      PlainStep(ops, i, log.text, log.s_log_tags, log.esp_log_default_level);
      ghost var rest := Plain(ops[i + 1..], log.text, log.s_log_tags, log.esp_log_default_level);
      match ops[i] {
        case Get(tag) =>
          var level := log.esp_log_level_get(tag);
          assert levels + ([level] + rest) == levels + [level] + rest;
          levels := levels + [level];
        case Set(tag, level, memory) =>
          FewerPointers(log.text, log.Cached(), old(log.Cached()) + Got(ops));
          log.esp_log_level_set(tag, level, memory);
      }
      i := i + 1;
    }
    PlainNothing(ops[i..], log.text, log.s_log_tags, log.esp_log_default_level);
  }

  lemma PlainNothing(ops: seq<Op>, text: Ptr -> Text, list: seq<TagEntry>, default_: Level)
    requires ops == []
    ensures Plain(ops, text, list, default_) == []
  {
  }

  lemma PlainStep(ops: seq<Op>, i: nat, text: Ptr -> Text, list: seq<TagEntry>, default_: Level)
    requires i < |ops|
    ensures Plain(ops[i..], text, list, default_) ==
            if ops[i].Get? then
              [Lookup(list, default_, text(ops[i].tag))] + Plain(ops[i + 1..], text, list, default_)
            else if text(ops[i].tag) == "*" then Plain(ops[i + 1..], text, [], ops[i].level)
            else Plain(ops[i + 1..], text, SetIn(list, text(ops[i].tag), ops[i].level, ops[i].memory), default_)
  {
    hide Lookup, SetIn;
    assert ops[i..][0] == ops[i] && ops[i..][1..] == ops[i + 1..];
  }

  lemma FewerPointers(text: Ptr -> Text, ps: set<Ptr>, qs: set<Ptr>)
    requires ps <= qs && OnePointerPerText(text, qs)
    ensures OnePointerPerText(text, ps)
  {
  }

  // ----- two pointers with one text

  /** Two constants p and q hold one text, and both are looked up: after a set through p only p sees the new
      level, and q the old one. */
  method StaleLevel(text: Ptr -> Text, p: Ptr, q: Ptr, default_: Level, level: Level) returns (log: Log, got: Level)
    requires p != q && text(p) == text(q) != "*" && level != default_
    ensures fresh(log) && log.text == text && got == default_
    ensures Lookup(log.s_log_tags, log.esp_log_default_level, text(q)) == level
  {
    hide Log.Valid, Log.Agrees, Log.Cached, OnePointerPerText, Lookup, Members, SetIn, UpdateFirst, Slot, IndexOf, Stamp;
    log := new Log(text, default_);
    LookupNothing(default_, text(p));
    got := log.esp_log_level_get(p);
    SlotIs([], p, 0);
    var a := CachedTag(p, default_, Stamp(0));
    assert log.Entries() == [a];
    SlotIs([a], q, 1);
    got := log.esp_log_level_get(q);
    var b := CachedTag(q, default_, Stamp(1));
    assert log.Entries() == [a, b];
    log.esp_log_level_set(p, level, true);
    UpdateFirstIs([a, b], text, text(p), level, 0);
    SetThenLookup([], text(p), level, true, default_, text(q));
    SlotIs(log.Entries(), q, 1);
    got := log.esp_log_level_get(q);
  }

  lemma LookupNothing(default_: Level, t: Text)
    ensures Lookup([], default_, t) == default_
  {
  }
}
