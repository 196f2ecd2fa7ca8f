/** `_sbrk` of the jumptable-hello superbox: a bump allocator over the
    linker-provided region [__heap_start, __heap_end]. */
module Heap {
  import opened Common

  /** What `_sbrk` returns: the old break, or `(void*)-1` when the region
      would be overrun. */
  datatype SbrkResult = Break(at: int) | NoMemory

  class BumpHeap {
    const heapStart: int
    const heapEnd: int
    /** `__heap_brk`: NULL until the first call. */
    var brk: Option<int>

    /** The break never passes the end of the region. */
    ghost predicate Valid()
      reads this
    {
      heapStart <= heapEnd && (brk.Some? ==> brk.value <= heapEnd)
    }

    constructor (heapStart: int, heapEnd: int)
      requires heapStart <= heapEnd
      ensures Valid() && this.heapStart == heapStart && this.heapEnd == heapEnd
      ensures brk == None
    {
      this.heapStart := heapStart;
      this.heapEnd := heapEnd;
      brk := None;
    }

    /** The break as `_sbrk` sees it after its lazy initialisation. */
    ghost function Current(): int
      reads this
    {
      if brk.Some? then brk.value else heapStart
    }

    /** `_sbrk(diff)`: move the break by `diff` unless that passes the end
        of the region; either way the break is initialised afterwards. */
    method Sbrk(diff: int) returns (r: SbrkResult)
      requires Valid()
      modifies this`brk
      ensures Valid()
      ensures old(Current()) + diff > heapEnd ==> r == NoMemory && brk == Some(old(Current()))
      ensures old(Current()) + diff <= heapEnd ==>
        r == Break(old(Current())) && brk == Some(old(Current()) + diff)
    {
      if brk.None? {
        brk := Some(heapStart);
      }
      var pbrk := brk.value;
      if pbrk + diff > heapEnd {
        return NoMemory;
      }
      brk := Some(pbrk + diff);
      r := Break(pbrk);
    }
  }

  /** Two successful growths from a fresh heap hand out adjacent, disjoint
      blocks that both lie inside the region. */
  method TwoAllocations(h: BumpHeap, n: nat, m: nat) returns (p: SbrkResult, q: SbrkResult)
    requires h.Valid() && h.brk == None && h.heapStart + n + m <= h.heapEnd
    modifies h`brk
    ensures p == Break(h.heapStart) && q == Break(h.heapStart + n)
    ensures h.brk == Some(h.heapStart + n + m)
  {
    p := h.Sbrk(n);
    q := h.Sbrk(m);
  }
}
