/** The partial linker-script outputer of bento (bento/outputs/ld.py):
    memory modes, the MEMORY block in address order, and the SECTIONS
    block with one group per memory followed by the leftover sections. */
module LdOutput {
  import opened Common
  import opened Sorting

  /** A memory region: its (prefixed) name, mode letters, origin, length. */
  datatype Memory = Memory(name: string, mode: string, addr: int, size: int, doc: Option<string>)

  /** An output section and the memory it is placed in, if any. */
  datatype Section = Section(memory: Option<string>, text: string, doc: Option<string>)

  /** A free-standing declaration written before the blocks. */
  datatype Decl = Decl(text: string, doc: Option<string>)

  /** What `build` writes, piece by piece; the textual layout of each piece
      (padding, hex, doc wrapping) is not modelled. */
  datatype Chunk =
    | Banner
    | DeclEntry(decl: Decl)
    | MemoryOpen
    | MemoryEntry(memory: Memory, mode: string)
    | SectionsOpen
    | GroupHeader(memoryName: string)
    | MiscHeader
    | SectionEntry(section: Section)
    | BlockClose

  //// generic filtering ////

  /** The elements of `xs` satisfying `p`, in their order (a Python list
      comprehension with a condition). */
  function Filter<T>(xs: seq<T>, p: T -> bool): (r: seq<T>)
    ensures |r| <= |xs|
  {
    if xs == [] then []
    else Filter(xs[..|xs| - 1], p) + (if p(xs[|xs| - 1]) then [xs[|xs| - 1]] else [])
  }

  /** Filtering keeps each satisfying element as often as it occurs and
      drops the others. */
  lemma {:induction false} FilterCount<T>(xs: seq<T>, p: T -> bool, x: T)
    ensures multiset(Filter(xs, p))[x] == if p(x) then multiset(xs)[x] else 0
    decreases |xs|
  {
    if xs != [] {
      var init := xs[..|xs| - 1];
      FilterCount(init, p, x);
      assert xs == init + [xs[|xs| - 1]];
    }
  }

  lemma FilterMember<T>(xs: seq<T>, p: T -> bool, x: T)
    ensures x in Filter(xs, p) <==> x in xs && p(x)
  {
    FilterCount(xs, p, x);
    assert x in Filter(xs, p) <==> multiset(Filter(xs, p))[x] > 0;
    assert x in xs <==> multiset(xs)[x] > 0;
  }

  /** Filtering distributes over concatenation: elements keep their
      relative order. */
  lemma {:induction false} FilterAppend<T>(a: seq<T>, b: seq<T>, p: T -> bool)
    ensures Filter(a + b, p) == Filter(a, p) + Filter(b, p)
    decreases |b|
  {
    if b != [] {
      var init := b[..|b| - 1];
      FilterAppend(a, init, p);
      assert (a + b)[..|a + b| - 1] == a + init;
    } else {
      assert a + b == a;
    }
  }

  /** Filtering an ordered sequence leaves it ordered. */
  lemma {:induction false} FilterSorted<T>(xs: seq<T>, p: T -> bool, key: T -> int)
    requires SortedBy(xs, key)
    ensures SortedBy(Filter(xs, p), key)
    decreases |xs|
  {
    if xs != [] {
      var init := xs[..|xs| - 1];
      var last := xs[|xs| - 1];
      FilterSorted(init, p, key);
      forall y | y in Filter(init, p) ensures key(y) <= key(last) {
        FilterMember(init, p, y);
      }
    }
  }

  /** Two predicates filter the same elements when they agree. */
  lemma {:induction false} FilterFilter<T>(xs: seq<T>, p: T -> bool, q: T -> bool, r: T -> bool)
    requires forall x :: r(x) == (p(x) && q(x))
    ensures Filter(Filter(xs, p), q) == Filter(xs, r)
    decreases |xs|
  {
    if xs != [] {
      var init := xs[..|xs| - 1];
      var last := xs[|xs| - 1];
      FilterFilter(init, p, q, r);
      FilterAppend(Filter(init, p), if p(last) then [last] else [], q);
      assert Filter([last], q) == Filter([], q) + (if q(last) then [last] else []);
    }
  }

  /** A filter is empty exactly when nothing satisfies the predicate. */
  lemma FilterEmpty<T>(xs: seq<T>, p: T -> bool)
    ensures Filter(xs, p) == [] <==> forall i :: 0 <= i < |xs| ==> !p(xs[i])
  {
    if Filter(xs, p) == [] {
      forall i | 0 <= i < |xs| ensures !p(xs[i]) {
        FilterMember(xs, p, xs[i]);
      }
    } else {
      var y := Filter(xs, p)[0];
      FilterMember(xs, p, y);
    }
  }

  /** A filter and its complement split a sequence without loss. */
  lemma {:induction false} FilterSplit<T>(xs: seq<T>, p: T -> bool, q: T -> bool)
    requires forall x :: q(x) == !p(x)
    ensures multiset(Filter(xs, p)) + multiset(Filter(xs, q)) == multiset(xs)
    decreases |xs|
  {
    if xs != [] {
      var init := xs[..|xs| - 1];
      FilterSplit(init, p, q);
      assert xs == init + [xs[|xs| - 1]];
    }
  }

  //// buildmemory: mode normalisation ////

  function CharKey(c: char): int {
    c as int
  }

  /** `''.join(sorted(memory.mode))` */
  function NormalizeMode(mode: string): string {
    SortBy(mode, CharKey)
  }

  /** The emitted mode holds the same letters, in ascending order. */
  lemma NormalizeModeCorrect(mode: string)
    ensures SortedBy(NormalizeMode(mode), CharKey)
    ensures multiset(NormalizeMode(mode)) == multiset(mode)
    ensures NormalizeMode(mode) == "" <==> mode == ""
  {
    SortByCorrect(mode, CharKey);
    if NormalizeMode(mode) == "" {
      assert |mode| == |multiset(mode)| == 0;
    }
  }

  /** The emitted mode depends only on which letters the mode has, so
      "xrw" and "rwx" are both written "rwx"; in particular normalising is
      idempotent. */
  lemma ModeOrderIrrelevant(a: string, b: string)
    requires multiset(a) == multiset(b)
    ensures NormalizeMode(a) == NormalizeMode(b)
    ensures NormalizeMode(NormalizeMode(a)) == NormalizeMode(a)
  {
    NormalizeModeCorrect(a);
    NormalizeModeCorrect(b);
    NormalizeModeCorrect(NormalizeMode(a));
    SortedUnique(NormalizeMode(a), NormalizeMode(b), CharKey);
    SortedUnique(NormalizeMode(NormalizeMode(a)), NormalizeMode(a), CharKey);
  }

  //// MEMORY block ////

  function AddrKey(m: Memory): int {
    m.addr
  }

  /** `sorted(self.memories, key=lambda m: m['addr'])` */
  function ByAddr(ms: seq<Memory>): seq<Memory> {
    SortBy(ms, AddrKey)
  }

  function HasMode(m: Memory): bool {
    m.mode != ""
  }

  /** The memories the MEMORY block lists: those with a mode, by address. */
  function Listed(ms: seq<Memory>): seq<Memory> {
    Filter(ByAddr(ms), HasMode)
  }

  function MemoryEntries(ms: seq<Memory>): (cs: seq<Chunk>)
    ensures |cs| == |ms|
  {
    if ms == [] then []
    else MemoryEntries(ms[..|ms| - 1]) + [MemoryEntry(ms[|ms| - 1], NormalizeMode(ms[|ms| - 1].mode))]
  }

  /** The MEMORY block, absent when there are no memories. */
  function MemoryBlock(ms: seq<Memory>): seq<Chunk> {
    if ms == [] then [] else [MemoryOpen] + MemoryEntries(Listed(ms)) + [BlockClose]
  }

  /** The MEMORY block lists the memories in ascending address order,
      each memory with a non-empty mode exactly as often as it was added,
      and none with an empty mode. */
  lemma ListedCorrect(ms: seq<Memory>, m: Memory)
    ensures SortedBy(Listed(ms), AddrKey)
    ensures multiset(Listed(ms))[m] == if m.mode != "" then multiset(ms)[m] else 0
  {
    SortByCorrect(ms, AddrKey);
    FilterSorted(ByAddr(ms), HasMode, AddrKey);
    FilterCount(ByAddr(ms), HasMode, m);
  }

  /** Filtering and picking out one key commute. */
  lemma {:induction false} KeepFilter<T>(xs: seq<T>, p: T -> bool, key: T -> int, k: int)
    ensures Keep(Filter(xs, p), key, k) == Filter(Keep(xs, key, k), p)
    decreases |xs|
  {
    if xs != [] {
      var x, rest := xs[0], xs[1..];
      var xk: seq<T> := if key(x) == k then [x] else [];
      assert xs == [x] + rest;
      assert Filter([x], p) == if p(x) then [x] else [] by {
        assert [x][..0] == [];
      }
      assert Filter(xk, p) == if p(x) && key(x) == k then [x] else [] by {
        if xk != [] { assert xk[..0] == []; }
      }
      FilterAppend([x], rest, p);
      KeepAppend(Filter([x], p), Filter(rest, p), key, k);
      KeepCons(x, [], key, k);
      KeepFilter(rest, p, key, k);
      KeepCons(x, rest, key, k);
      FilterAppend(xk, Keep(rest, key, k), p);
    }
  }

  /** Memories at the same address keep the order they were added in:
      the MEMORY block lists those of them that have a mode, as `sorted`
      is stable. */
  lemma ListedKeepsTies(ms: seq<Memory>, a: int)
    ensures Keep(Listed(ms), AddrKey, a) == Filter(Keep(ms, AddrKey, a), HasMode)
  {
    KeepFilter(ByAddr(ms), HasMode, AddrKey, a);
    SortByStable(ms, AddrKey, a);
  }

  //// SECTIONS block ////

  /** The sections placed in memory `n`. */
  function Targets(n: string): Section -> bool {
    (s: Section) => s.memory == Some(n)
  }

  /** The sections not placed in memory `n`. */
  function Elsewhere(n: string): Section -> bool {
    (s: Section) => s.memory != Some(n)
  }

  /** The sections placed in none of `names`. */
  function NoneOf(names: set<string>): Section -> bool {
    (s: Section) => s.memory.None? || s.memory.value !in names
  }

  function Names(ms: seq<Memory>): set<string> {
    if ms == [] then {} else Names(ms[..|ms| - 1]) + {ms[|ms| - 1].name}
  }

  function SectionEntries(ss: seq<Section>): (cs: seq<Chunk>)
    ensures |cs| == |ss|
  {
    if ss == [] then [] else SectionEntries(ss[..|ss| - 1]) + [SectionEntry(ss[|ss| - 1])]
  }

  /** The group of memory `m` among the sections still left: its header
      when one of them targets `m`, then those sections. */
  function Group(m: Memory, left: seq<Section>): seq<Chunk> {
    var mine := Filter(left, Targets(m.name));
    (if mine != [] then [GroupHeader(m.name)] else []) + SectionEntries(mine)
  }

  /** The sections left once the groups of `ms` are written. */
  function Remaining(ms: seq<Memory>, ss: seq<Section>): seq<Section> {
    if ms == [] then ss else Filter(Remaining(ms[..|ms| - 1], ss), Elsewhere(ms[|ms| - 1].name))
  }

  /** The groups of `ms`, in that order. */
  function Groups(ms: seq<Memory>, ss: seq<Section>): seq<Chunk> {
    if ms == [] then []
    else Groups(ms[..|ms| - 1], ss) + Group(ms[|ms| - 1], Remaining(ms[..|ms| - 1], ss))
  }

  /** The misc group: its header and the sections that matched no memory,
      or nothing when there are none. */
  function Misc(left: seq<Section>): seq<Chunk> {
    if left == [] then [] else [MiscHeader] + SectionEntries(left)
  }

  /** The SECTIONS block, absent when there are no sections. */
  function SectionsBlock(ms: seq<Memory>, ss: seq<Section>): seq<Chunk> {
    if ss == [] then []
    else [SectionsOpen] + Groups(ByAddr(ms), ss) + Misc(Remaining(ByAddr(ms), ss)) + [BlockClose]
  }

  function DeclEntries(ds: seq<Decl>): (cs: seq<Chunk>)
    ensures |cs| == |ds|
  {
    if ds == [] then [] else DeclEntries(ds[..|ds| - 1]) + [DeclEntry(ds[|ds| - 1])]
  }

  /** Everything `PartialLDOutput.build` writes. */
  function BuildSpec(ds: seq<Decl>, ms: seq<Memory>, ss: seq<Section>): seq<Chunk> {
    [Banner] + DeclEntries(ds) + MemoryBlock(ms) + SectionsBlock(ms, ss)
  }

  /** The sections left after some groups are those placed in none of
      their memories, in their original order. */
  lemma {:induction false} RemainingIsFilter(ms: seq<Memory>, ss: seq<Section>)
    ensures Remaining(ms, ss) == Filter(ss, NoneOf(Names(ms)))
    decreases |ms|
  {
    if ms == [] {
      FilterAll(ss, NoneOf({}));
    } else {
      var init := ms[..|ms| - 1];
      RemainingIsFilter(init, ss);
      FilterFilter(ss, NoneOf(Names(init)), Elsewhere(ms[|ms| - 1].name), NoneOf(Names(ms)));
    }
  }

  lemma {:induction false} FilterAll<T>(xs: seq<T>, p: T -> bool)
    requires forall x :: p(x)
    ensures Filter(xs, p) == xs
    decreases |xs|
  {
    if xs != [] {
      FilterAll(xs[..|xs| - 1], p);
    }
  }

  lemma {:induction false} FilterNone<T>(xs: seq<T>, p: T -> bool)
    requires forall x :: !p(x)
    ensures Filter(xs, p) == []
    decreases |xs|
  {
    if xs != [] {
      FilterNone(xs[..|xs| - 1], p);
    }
  }

  /** The group of a memory holds every section placed in it, in their
      original order, unless a memory of the same name came earlier, in
      which case that one took them and the group is empty. */
  lemma GroupContents(ms: seq<Memory>, ss: seq<Section>, k: nat)
    requires k < |ms|
    ensures Filter(Remaining(ms[..k], ss), Targets(ms[k].name))
         == if ms[k].name in Names(ms[..k]) then [] else Filter(ss, Targets(ms[k].name))
  {
    var n := ms[k].name;
    RemainingIsFilter(ms[..k], ss);
    if n in Names(ms[..k]) {
      var r: Section -> bool := s => false;
      FilterFilter(ss, NoneOf(Names(ms[..k])), Targets(n), r);
      FilterNone(ss, r);
    } else {
      FilterFilter(ss, NoneOf(Names(ms[..k])), Targets(n), Targets(n));
    }
  }

  lemma TargetedIffGroup(left: seq<Section>, n: string)
    ensures Filter(left, Targets(n)) != [] <==> exists j :: 0 <= j < |left| && left[j].memory == Some(n)
  {
    FilterEmpty(left, Targets(n));
    if Filter(left, Targets(n)) == [] {
      forall j | 0 <= j < |left| ensures left[j].memory != Some(n) {
        assert !Targets(n)(left[j]);
      }
    }
  }

  /** A group header is written exactly when some section still left
      targets the memory. */
  lemma GroupHeaderWhenTargeted(m: Memory, left: seq<Section>)
    ensures (|Group(m, left)| > 0 && Group(m, left)[0] == GroupHeader(m.name))
        <==> exists i :: 0 <= i < |left| && left[i].memory == Some(m.name)
  {
    FilterEmpty(left, Targets(m.name));
    var mine := Filter(left, Targets(m.name));
    if mine == [] {
      assert Group(m, left) == [];
    }
  }

  /** The sections written in a run of chunks, in order. */
  function SectionsOf(cs: seq<Chunk>): seq<Section> {
    if cs == [] then []
    else SectionsOf(cs[..|cs| - 1]) + (if cs[|cs| - 1].SectionEntry? then [cs[|cs| - 1].section] else [])
  }

  lemma {:induction false} SectionsOfAppend(a: seq<Chunk>, b: seq<Chunk>)
    ensures SectionsOf(a + b) == SectionsOf(a) + SectionsOf(b)
    decreases |b|
  {
    if b != [] {
      SectionsOfAppend(a, b[..|b| - 1]);
      assert (a + b)[..|a + b| - 1] == a + b[..|b| - 1];
    } else {
      assert a + b == a;
    }
  }

  lemma {:induction false} SectionsOfEntries(ss: seq<Section>)
    ensures SectionsOf(SectionEntries(ss)) == ss
    decreases |ss|
  {
    if ss != [] {
      SectionsOfEntries(ss[..|ss| - 1]);
    }
  }

  lemma SectionsOfMarker(c: Chunk)
    requires !c.SectionEntry?
    ensures SectionsOf([c]) == []
  {
    assert [c][..0] == [];
  }

  /** A group writes exactly the sections left that target its memory. */
  lemma GroupSections(m: Memory, left: seq<Section>)
    ensures SectionsOf(Group(m, left)) == Filter(left, Targets(m.name))
  {
    var mine := Filter(left, Targets(m.name));
    SectionsOfEntries(mine);
    if mine != [] {
      SectionsOfAppend([GroupHeader(m.name)], SectionEntries(mine));
      SectionsOfMarker(GroupHeader(m.name));
    } else {
      assert Group(m, left) == SectionEntries(mine);
    }
  }

  /** The groups and what they leave over together hold every section
      exactly once. */
  lemma {:induction false} GroupsPartition(ms: seq<Memory>, ss: seq<Section>)
    ensures multiset(SectionsOf(Groups(ms, ss))) + multiset(Remaining(ms, ss)) == multiset(ss)
    decreases |ms|
  {
    if ms != [] {
      var init := ms[..|ms| - 1];
      var m := ms[|ms| - 1];
      var left := Remaining(init, ss);
      GroupsPartition(init, ss);
      SectionsOfAppend(Groups(init, ss), Group(m, left));
      GroupSections(m, left);
      FilterSplit(left, Targets(m.name), Elsewhere(m.name));
    }
  }

  lemma SectionsOfMisc(left: seq<Section>)
    ensures SectionsOf(Misc(left)) == left
  {
    SectionsOfEntries(left);
    if left != [] {
      SectionsOfAppend([MiscHeader], SectionEntries(left));
      SectionsOfMarker(MiscHeader);
    }
  }

  /** The SECTIONS block writes every section exactly once. */
  lemma SectionsBlockComplete(ms: seq<Memory>, ss: seq<Section>)
    ensures multiset(SectionsOf(SectionsBlock(ms, ss))) == multiset(ss)
  {
    if ss != [] {
      var sorted := ByAddr(ms);
      var left := Remaining(sorted, ss);
      var g := Groups(sorted, ss);
      var misc := Misc(left);
      GroupsPartition(sorted, ss);
      SectionsOfMisc(left);
      SectionsOfMarker(SectionsOpen);
      SectionsOfMarker(BlockClose);
      SectionsOfAppend([SectionsOpen], g);
      SectionsOfAppend([SectionsOpen] + g, misc);
      SectionsOfAppend([SectionsOpen] + g + misc, [BlockClose]);
    }
  }

  /** The sections in the misc group are exactly those whose memory is
      none of the listed memories, in their original order. */
  lemma MiscIsUnplaced(ms: seq<Memory>, ss: seq<Section>)
    ensures Remaining(ByAddr(ms), ss) == Filter(ss, NoneOf(Names(ms)))
  {
    RemainingIsFilter(ByAddr(ms), ss);
    SortByCorrect(ms, AddrKey);
    NamesOfPermutation(ByAddr(ms), ms);
  }

  lemma {:induction false} NamesMember(ms: seq<Memory>, n: string)
    ensures n in Names(ms) <==> exists m :: m in multiset(ms) && m.name == n
    decreases |ms|
  {
    if ms != [] {
      var init := ms[..|ms| - 1];
      NamesMember(init, n);
      assert ms == init + [ms[|ms| - 1]];
      assert multiset(ms) == multiset(init) + multiset{ms[|ms| - 1]};
    }
  }

  lemma NamesOfPermutation(a: seq<Memory>, b: seq<Memory>)
    requires multiset(a) == multiset(b)
    ensures Names(a) == Names(b)
  {
    forall n ensures n in Names(a) <==> n in Names(b) {
      NamesMember(a, n);
      NamesMember(b, n);
    }
  }

  lemma Assoc<T>(a: seq<T>, b: seq<T>, c: seq<T>)
    ensures a + b + c == a + (b + c)
  {
  }

  lemma FilterSnoc<T>(xs: seq<T>, x: T, p: T -> bool)
    ensures p(x) ==> Filter(xs + [x], p) == Filter(xs, p) + [x]
    ensures !p(x) ==> Filter(xs + [x], p) == Filter(xs, p)
  {
    assert (xs + [x])[..|xs|] == xs;
    assert Filter(xs, p) + [] == Filter(xs, p);
  }

  lemma SectionEntriesSnoc(ss: seq<Section>, s: Section)
    ensures SectionEntries(ss + [s]) == SectionEntries(ss) + [SectionEntry(s)]
  {
    assert (ss + [s])[..|ss|] == ss;
  }

  lemma MemoryEntriesSnoc(ms: seq<Memory>, m: Memory)
    ensures MemoryEntries(ms + [m]) == MemoryEntries(ms) + [MemoryEntry(m, NormalizeMode(m.mode))]
  {
    assert (ms + [m])[..|ms|] == ms;
  }

  /** One more memory in address order adds its entry to the MEMORY
      block when it has a mode, and nothing otherwise. */
  lemma MemoryStep(out: seq<Chunk>, ms: seq<Memory>, k: nat)
    requires k < |ms|
    ensures HasMode(ms[k]) ==>
      out + MemoryEntries(Filter(ms[..k + 1], HasMode))
      == out + MemoryEntries(Filter(ms[..k], HasMode)) + [MemoryEntry(ms[k], NormalizeMode(ms[k].mode))]
    ensures !HasMode(ms[k]) ==> MemoryEntries(Filter(ms[..k + 1], HasMode)) == MemoryEntries(Filter(ms[..k], HasMode))
  {
    assert ms[..k + 1] == ms[..k] + [ms[k]];
    FilterSnoc(ms[..k], ms[k], HasMode);
    if HasMode(ms[k]) {
      MemoryEntriesSnoc(Filter(ms[..k], HasMode), ms[k]);
      Assoc(out, MemoryEntries(Filter(ms[..k], HasMode)), [MemoryEntry(ms[k], NormalizeMode(ms[k].mode))]);
    }
  }

  lemma DeclEntriesSnoc(ds: seq<Decl>, d: Decl)
    ensures DeclEntries(ds + [d]) == DeclEntries(ds) + [DeclEntry(d)]
  {
    assert (ds + [d])[..|ds|] == ds;
  }

  lemma GroupsSnoc(ms: seq<Memory>, m: Memory, ss: seq<Section>)
    ensures Groups(ms + [m], ss) == Groups(ms, ss) + Group(m, Remaining(ms, ss))
    ensures Remaining(ms + [m], ss) == Filter(Remaining(ms, ss), Elsewhere(m.name))
  {
    assert (ms + [m])[..|ms|] == ms;
  }

  /** The partial linker-script outputer with the fields `build` reads. */
  class PartialLD {
    var decls: seq<Decl>
    var memories: seq<Memory>
    var sections: seq<Section>
    /** What has been written so far. */
    var out: seq<Chunk>

    constructor (decls: seq<Decl>, memories: seq<Memory>, sections: seq<Section>)
      ensures this.decls == decls && this.memories == memories && this.sections == sections
      ensures out == []
    {
      this.decls := decls;
      this.memories := memories;
      this.sections := sections;
      out := [];
    }

    /** `PartialLDOutput.build` */
    method Build()
      modifies this`out
      ensures out == old(out) + BuildSpec(decls, memories, sections)
    {
      out := out + [Banner];
      ghost var o1 := out;
      WriteDecls();
      ghost var o2 := out;
      WriteMemoryBlock();
      ghost var o3 := out;
      WriteSectionsBlock();
      Assoc(old(out), [Banner], DeclEntries(decls));
      Assoc(old(out), [Banner] + DeclEntries(decls), MemoryBlock(memories));
      Assoc(old(out), [Banner] + DeclEntries(decls) + MemoryBlock(memories), SectionsBlock(memories, sections));
    }

    /** The declarations, in order. */
    method WriteDecls()
      modifies this`out
      ensures out == old(out) + DeclEntries(decls)
    {
      var i := 0;
      while i < |decls|
        invariant 0 <= i <= |decls|
        invariant out == old(out) + DeclEntries(decls[..i])
      {
        assert decls[..i + 1] == decls[..i] + [decls[i]];
        DeclEntriesSnoc(decls[..i], decls[i]);
        out := out + [DeclEntry(decls[i])];
        i := i + 1;
      }
      assert decls[..i] == decls;
    }

    /** The MEMORY block, written only when there are memories. */
    method WriteMemoryBlock()
      modifies this`out
      ensures out == old(out) + MemoryBlock(memories)
    {
      if memories != [] {
        out := out + [MemoryOpen];
        ghost var o1 := out;
        WriteMemories();
        out := out + [BlockClose];
        Assoc(old(out), [MemoryOpen], MemoryEntries(Listed(memories)));
        Assoc(old(out), [MemoryOpen] + MemoryEntries(Listed(memories)), [BlockClose]);
      }
    }

    /** The memory entries of the MEMORY block. */
    method WriteMemories()
      modifies this`out
      ensures out == old(out) + MemoryEntries(Listed(memories))
    {
      var sorted := ByAddr(memories);
      var k := 0;
      while k < |sorted|
        invariant 0 <= k <= |sorted|
        invariant out == old(out) + MemoryEntries(Filter(sorted[..k], HasMode))
      {
        MemoryStep(old(out), sorted, k);
        if sorted[k].mode != "" {
          out := out + [MemoryEntry(sorted[k], NormalizeMode(sorted[k].mode))];
        }
        k := k + 1;
      }
      assert sorted[..k] == sorted;
    }

    /** The SECTIONS block, written only when there are sections. */
    method WriteSectionsBlock()
      modifies this`out
      ensures out == old(out) + SectionsBlock(memories, sections)
    {
      if sections != [] {
        out := out + [SectionsOpen];
        var left := WriteGroups();
        WriteMisc(left);
        out := out + [BlockClose];
        var g := Groups(ByAddr(memories), sections);
        Assoc(old(out), [SectionsOpen], g);
        Assoc(old(out), [SectionsOpen] + g, Misc(left));
        Assoc(old(out), [SectionsOpen] + g + Misc(left), [BlockClose]);
      }
    }

    /** The group of every memory in address order, each pass keeping the
        sections it did not write; returns the sections left. */
    method WriteGroups() returns (left: seq<Section>)
      modifies this`out
      ensures out == old(out) + Groups(ByAddr(memories), sections)
      ensures left == Remaining(ByAddr(memories), sections)
    {
      var sorted := ByAddr(memories);
      left := sections;
      var k := 0;
      while k < |sorted|
        invariant 0 <= k <= |sorted|
        invariant out == old(out) + Groups(sorted[..k], sections)
        invariant left == Remaining(sorted[..k], sections)
      {
        var m := sorted[k];
        assert sorted[..k + 1] == sorted[..k] + [m];
        GroupsSnoc(sorted[..k], m, sections);
        ghost var before := out;
        left := WriteGroup(m, left);
        Assoc(old(out), Groups(sorted[..k], sections), Group(m, Remaining(sorted[..k], sections)));
        k := k + 1;
      }
      assert sorted[..k] == sorted;
    }

    /** One pass: the header of memory `m` if a section left targets it,
        those sections, and the list of the others. */
    method WriteGroup(m: Memory, left: seq<Section>) returns (next: seq<Section>)
      modifies this`out
      ensures out == old(out) + Group(m, left)
      ensures next == Filter(left, Elsewhere(m.name))
    {
      ghost var mine := Filter(left, Targets(m.name));
      TargetedIffGroup(left, m.name);
      var targeted := exists j :: 0 <= j < |left| && left[j].memory == Some(m.name);
      if targeted {
        out := out + [GroupHeader(m.name)];
      }
      next := WriteTargeted(m.name, left);
      Assoc(old(out), if mine != [] then [GroupHeader(m.name)] else [], SectionEntries(mine));
    }

    /** The inner loop of a pass: the sections placed in `n` are written,
        the others kept in order. */
    method WriteTargeted(n: string, left: seq<Section>) returns (next: seq<Section>)
      modifies this`out
      ensures out == old(out) + SectionEntries(Filter(left, Targets(n)))
      ensures next == Filter(left, Elsewhere(n))
    {
      next := [];
      var j := 0;
      while j < |left|
        invariant 0 <= j <= |left|
        invariant out == old(out) + SectionEntries(Filter(left[..j], Targets(n)))
        invariant next == Filter(left[..j], Elsewhere(n))
      {
        var s := left[j];
        assert left[..j + 1] == left[..j] + [s];
        FilterSnoc(left[..j], s, Targets(n));
        FilterSnoc(left[..j], s, Elsewhere(n));
        if s.memory == Some(n) {
          SectionEntriesSnoc(Filter(left[..j], Targets(n)), s);
          Assoc(old(out), SectionEntries(Filter(left[..j], Targets(n))), [SectionEntry(s)]);
          out := out + [SectionEntry(s)];
        } else {
          next := next + [s];
        }
        j := j + 1;
      }
      assert left[..j] == left;
    }

    /** The misc group. */
    method WriteMisc(left: seq<Section>)
      modifies this`out
      ensures out == old(out) + Misc(left)
    {
      if left != [] {
        out := out + [MiscHeader];
        ghost var headed := out;
        var j := 0;
        while j < |left|
          invariant 0 <= j <= |left|
          invariant out == headed + SectionEntries(left[..j])
        {
          assert left[..j + 1] == left[..j] + [left[j]];
          SectionEntriesSnoc(left[..j], left[j]);
          out := out + [SectionEntry(left[j])];
          j := j + 1;
        }
        assert left[..j] == left;
        Assoc(old(out), [MiscHeader], SectionEntries(left));
      }
    }
  }
}
