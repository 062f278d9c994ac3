/**
 * The process address space as the compartment code sees it: anonymous
 * mappings made by mmap, removed by munmap and re-protected by mprotect,
 * and capability-sized memory granules that loads and stores go through.
 *
 * The operating system is not modelled: what mmap returns is an input
 * (None for MAP_FAILED), and the address range it hands out is required to
 * be fresh, as the kernel guarantees.
 */
module Memory {
  import opened Cheri
  import opened Wrappers

  datatype ProtFlag = PROT_READ | PROT_WRITE | PROT_EXEC | PROT_CAP_INVOKE

  /** One mapping: its size, its current protection and the most it may be raised to. */
  datatype Mapping = Mapping(size: u64, prot: set<ProtFlag>, maxProt: set<ProtFlag>)

  /** [start, start + size) is non-empty, does not wrap and overlaps no mapping. */
  predicate FreshIn(mappings: map<u64, Mapping>, start: u64, size: u64) {
    0 < size && start + size <= WORD && start !in mappings
    && forall s :: s in mappings ==> s + mappings[s].size <= start || start + size <= s
  }

  /** Two address ranges do not overlap. */
  predicate Disjoint(a: u64, m: u64, b: u64, n: u64) {
    a + m <= b || b + n <= a
  }

  /** No store in `writes` falls in [lo, lo + n). */
  predicate Avoids(writes: map<u64, Capability>, lo: u64, n: nat) {
    forall a :: a in writes ==> !(lo <= a < lo + n)
  }

  /** Stores that avoid an address leave what it reads as it was. */
  lemma LoadAvoided(cells: map<u64, Capability>, writes: map<u64, Capability>, lo: u64, n: nat, a: u64)
    requires Avoids(writes, lo, n) && lo <= a < lo + n
    ensures LoadFrom(cells + writes, a) == LoadFrom(cells, a)
  {
  }

  /** A range that was fresh stays fresh after a disjoint range is mapped. */
  lemma FreshAfterMap(mappings: map<u64, Mapping>, s: u64, m: Mapping, t: u64, k: u64)
    requires FreshIn(mappings, t, k) && 0 < m.size && Disjoint(s, m.size, t, k)
    ensures FreshIn(mappings[s := m], t, k)
  {
  }

  /** What a granule holds: the stored capability, or NULL for memory never stored to. */
  function LoadFrom(cells: map<u64, Capability>, a: u64): (c: Capability)
    ensures a !in cells ==> c == NULL
  {
    if a in cells then cells[a] else NULL
  }

  /** The cells after [start, start + size) is replaced by fresh zero pages. */
  function Zeroed(cells: map<u64, Capability>, start: u64, size: u64): map<u64, Capability> {
    map a | a in cells && !(start <= a < start + size) :: cells[a]
  }

  /** Fresh pages read as NULL; the rest of memory reads as before. */
  lemma LoadZeroed(cells: map<u64, Capability>, start: u64, size: u64, a: u64)
    ensures start <= a < start + size ==> LoadFrom(Zeroed(cells, start, size), a) == NULL
    ensures !(start <= a < start + size) ==> LoadFrom(Zeroed(cells, start, size), a) == LoadFrom(cells, a)
  {
  }

  class AddressSpace {
    /** Mappings in place, by start address. */
    var mappings: map<u64, Mapping>
    /** Stored capabilities, by address; an address not present holds zeros (NULL). */
    var cells: map<u64, Capability>

    constructor()
      ensures mappings == map[] && cells == map[]
    {
      mappings := map[];
      cells := map[];
    }

    /** [start, start + size) is free for a new mapping. */
    predicate FreshRange(start: u64, size: u64)
      reads this
    {
      FreshIn(mappings, start, size)
    }

    /** A load of a capability-sized granule. */
    function Load(a: u64): (c: Capability)
      reads this
      ensures a in cells ==> c == cells[a]
      ensures a !in cells ==> c == NULL
    {
      LoadFrom(cells, a)
    }

    /** A store of a capability-sized granule. */
    method Store(a: u64, v: Capability)
      modifies this
      ensures cells == old(cells)[a := v]
      ensures mappings == old(mappings)
      ensures Load(a) == v
    {
      cells := cells[a := v];
    }

    /**
     * mmap(NULL, size, prot, MAP_PRIVATE | MAP_ANONYMOUS, -1, 0): `outcome`
     * is what the kernel returns. A new mapping reads as zeros.
     */
    method Map(outcome: Option<Capability>, size: u64, prot: set<ProtFlag>, maxProt: set<ProtFlag>)
      returns (r: Option<Capability>)
      requires outcome.Some? ==> FreshRange(outcome.value.address, size)
      modifies this
      ensures r == outcome
      ensures outcome.None? ==> mappings == old(mappings) && cells == old(cells)
      ensures outcome.Some? ==>
        var start := outcome.value.address;
        && start !in old(mappings)
        && mappings == old(mappings)[start := Mapping(size, prot, maxProt)]
        && cells == Zeroed(old(cells), start, size)
    {
      r := outcome;
      if outcome.Some? {
        var start := outcome.value.address;
        mappings := mappings[start := Mapping(size, prot, maxProt)];
        cells := Zeroed(cells, start, size);
      }
    }

    /** munmap(start, len) of a whole mapping; anything else is left alone. */
    method Unmap(start: u64, len: u64)
      modifies this
      ensures start in old(mappings) && old(mappings)[start].size == len ==> mappings == old(mappings) - {start}
      ensures !(start in old(mappings) && old(mappings)[start].size == len) ==> mappings == old(mappings)
      ensures cells == old(cells)
    {
      if start in mappings && mappings[start].size == len {
        mappings := mappings - {start};
      }
    }

    /**
     * mprotect of the mapping that starts at `start`: the protection changes
     * when it stays within the mapping's maximum; otherwise the call fails
     * and nothing changes.
     */
    method Protect(start: u64, prot: set<ProtFlag>)
      modifies this
      ensures start in old(mappings) && prot <= old(mappings)[start].maxProt ==>
        mappings == old(mappings)[start := old(mappings)[start].(prot := prot)]
      ensures !(start in old(mappings) && prot <= old(mappings)[start].maxProt) ==> mappings == old(mappings)
      ensures cells == old(cells)
    {
      if start in mappings && prot <= mappings[start].maxProt {
        mappings := mappings[start := mappings[start].(prot := prot)];
      }
    }
  }

  /** A later change to a mapping replaces the earlier one. */
  lemma MapTwice(before: map<u64, Mapping>, start: u64, m: Mapping, n: Mapping)
    ensures before[start := m][start := n] == before[start := n]
  {
  }

  /** Mapping a fresh range and unmapping it again leaves the mappings as they were. */
  lemma MapThenUnmap(before: map<u64, Mapping>, start: u64, m: Mapping)
    requires start !in before
    ensures before[start := m] - {start} == before
  {
  }
}
