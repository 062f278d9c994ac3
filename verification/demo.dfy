/**
 * The demonstration program main.c: its own create_cmpt in two variants,
 * an LB-sealed descriptor and an LPB-sealed capability pair, both read by
 * assembly routines outside this model, and the compartment body `fun`,
 * which adds two integers in a caller-supplied buffer.
 */
module Demo {
  import opened Cheri
  import opened Wrappers
  import Morello
  import Memory
  import Manager

  /** STACK_PERMS: global, read and write, capabilities included. */
  const STACK_PERMS: Perms := PERM_GLOBAL | READ_CAP_PERMS | WRITE_CAP_PERMS

  /** What the returned handles keep: global and read only. */
  const HANDLE_PERMS: Perms := PERM_GLOBAL | READ_CAP_PERMS

  /** mmap's MAP_FAILED, `(void *)-1`: an untagged capability at the top address. */
  const MAP_FAILED: Capability := NULL.(address := WORD - 1)

  /** PROT_READ | PROT_WRITE, for both mappings. */
  const RW_PROT: set<Memory.ProtFlag> := {Memory.PROT_READ, Memory.PROT_WRITE}

  // LB variant, cmpt_desc_t: entry, exit, stack, target
  const LB_ENTRY: nat := 0
  const LB_EXIT: nat := 16
  const LB_STACK: nat := 32
  const LB_TARGET: nat := 48
  const LB_DESC_SIZE: nat := 64

  // LPB variant, cmpt_desc_t: stack, target; cmpt_t: data[2]
  const LPB_STACK: nat := 0
  const LPB_TARGET: nat := 16
  const LPB_DESC_SIZE: nat := 32
  const PAIR_DATA: nat := 0
  const PAIR_CODE: nat := 16
  const PAIR_SIZE: nat := 32

  // ---------------------------------------------------------------------
  // Values the two variants compute

  /**
   * The stack both variants build from what mmap returned: bounded to the
   * mapping, offset set to its size, permissions cut to STACK_PERMS.
   */
  function DemoStack(m: Capability, sz: u64): (s: Capability)
    ensures s.base == m.address && s.length == sz && s.address == Wrap(m.address + sz)
    ensures s.perms == m.perms & STACK_PERMS && s.otype == m.otype
    ensures s.tag == (m.tag && !IsSealed(m) && Covers(m, m.address, sz))
  {
    PermsAnd(SetOffset(SetBounds(m, sz), sz), STACK_PERMS)
  }

  /** main.c builds the same stack as _stack_allocate, in another order of steps. */
  lemma DemoStackIsManagerStack(m: Capability, sz: u64)
    ensures DemoStack(m, sz) == Manager.StackCap(m, sz)
  {
  }

  /** With the mapping below the top of memory, the stack's address is its limit. */
  lemma DemoStackAtLimit(m: Capability, sz: u64)
    requires m.address + sz < WORD
    ensures Offset(DemoStack(m, sz)) == sz
    ensures DemoStack(m, sz).address == DemoStack(m, sz).base + DemoStack(m, sz).length
    ensures !Morello.InBounds(DemoStack(m, sz))
  {
  }

  /** What mmap hands back: the new mapping's capability, or MAP_FAILED. */
  function MmapResult(outcome: Option<Capability>): (c: Capability)
    ensures outcome.None? ==> !c.tag
  {
    if outcome.Some? then outcome.value else MAP_FAILED
  }

  /** `if (!cheri_is_sealed(target)) target = cheri_sentry_create(target)`. */
  function SealedTarget(t: Capability): (r: Capability)
    ensures IsSealed(r)
    ensures IsSealed(t) ==> r == t
    ensures !IsSealed(t) ==> r.otype == OTYPE_RB && r.(otype := t.otype, tag := t.tag) == t
    ensures r.tag == t.tag
  {
    if !IsSealed(t) then SentryCreate(t) else t
  }

  /** The LB handle: the descriptor, read-only, LB-sealed. */
  function LbHandle(data: Capability): (h: Capability)
    ensures h.otype == OTYPE_LB
    ensures h.address == data.address && h.base == data.address && h.length == LB_DESC_SIZE
    ensures h.perms & WRITE_CAP_PERMS == 0 && h.perms & EXEC_CAP_PERMS == 0
    ensures h.tag == (data.tag && !IsSealed(data) && Covers(data, data.address, LB_DESC_SIZE))
  {
    Morello.LbSentryCreate(PermsAnd(SetBounds(data, LB_DESC_SIZE), HANDLE_PERMS))
  }

  /** The LPB handle: the pair just past the descriptor, read-only, LPB-sealed. */
  function LpbHandle(data: Capability): (h: Capability)
    requires data.address + LPB_DESC_SIZE + PAIR_SIZE <= WORD
    ensures h.otype == OTYPE_LPB
    ensures h.address == data.address + LPB_DESC_SIZE && h.base == h.address && h.length == PAIR_SIZE
    ensures h.perms & WRITE_CAP_PERMS == 0 && h.perms & EXEC_CAP_PERMS == 0
    ensures h.tag == (data.tag && !IsSealed(data) && Covers(data, data.address + LPB_DESC_SIZE, PAIR_SIZE))
  {
    Morello.LpbSentryCreate(PermsAnd(SetBounds(Add(data, LPB_DESC_SIZE), PAIR_SIZE), HANDLE_PERMS))
  }

  /** The read-only descriptor the LPB pair carries in data[0]. */
  function LpbDescriptor(data: Capability): (c: Capability)
    ensures !IsSealed(c) ==> !IsSealed(data)
    ensures c.address == data.address && c.base == data.address && c.length == LPB_DESC_SIZE
    ensures c.perms & WRITE_CAP_PERMS == 0 && c.perms & EXEC_CAP_PERMS == 0
    ensures c.tag == (data.tag && !IsSealed(data) && Covers(data, data.address, LPB_DESC_SIZE))
  {
    PermsAnd(SetBounds(data, LPB_DESC_SIZE), HANDLE_PERMS)
  }

  /**
   * Both handles are sealed and grant no store; a load the LB handle
   * grants, the data page granted too.
   */
  lemma HandlesAreReadOnly(data: Capability)
    requires data.address + LPB_DESC_SIZE + PAIR_SIZE <= WORD
    ensures Morello.CheckPerms(LbHandle(data), PERM_LOAD) ==> Morello.CheckPerms(data, PERM_LOAD)
    ensures !Morello.CheckPerms(LbHandle(data), PERM_STORE) && !Morello.CheckPerms(LpbHandle(data), PERM_STORE)
    ensures IsSealed(LbHandle(data)) && IsSealed(LpbHandle(data))
  {
    var lb, lpb := LbHandle(data), LpbHandle(data);
    Morello.CheckPermsMeaning(lb, PERM_LOAD);
    Morello.CheckPermsMeaning(data, PERM_LOAD);
    Morello.CheckPermsMeaning(lb, PERM_STORE);
    Morello.CheckPermsMeaning(lpb, PERM_STORE);
    StoreBitAbsent(lb.perms);
    StoreBitAbsent(lpb.perms);
    LoadBitKept(data.perms);
  }

  lemma StoreBitAbsent(p: Perms)
    requires p & WRITE_CAP_PERMS == 0
    ensures p & PERM_STORE != PERM_STORE
  {
  }

  lemma LoadBitKept(p: Perms)
    ensures (p & HANDLE_PERMS) & PERM_LOAD == PERM_LOAD ==> p & PERM_LOAD == PERM_LOAD
  {
  }

  // ---------------------------------------------------------------------
  // Memory after the two mmap calls

  /** The mappings after an mmap with this outcome. */
  function Mapped(ms: map<u64, Memory.Mapping>, outcome: Option<Capability>, size: u64): map<u64, Memory.Mapping> {
    if outcome.Some? then ms[outcome.value.address := Memory.Mapping(size, RW_PROT, RW_PROT)] else ms
  }

  /** The cells after an mmap with this outcome. */
  function Cleared(cells: map<u64, Capability>, outcome: Option<Capability>, size: u64): map<u64, Capability> {
    if outcome.Some? then Memory.Zeroed(cells, outcome.value.address, size) else cells
  }

  /** The two mmap outcomes are usable: fresh ranges, apart from each other. */
  predicate MmapsFresh(ms: map<u64, Memory.Mapping>, stackOutcome: Option<Capability>, sz: u64,
                       dataOutcome: Option<Capability>, pgsz: u64) {
    && (stackOutcome.Some? ==> Memory.FreshIn(ms, stackOutcome.value.address, sz))
    && (dataOutcome.Some? ==> Memory.FreshIn(ms, dataOutcome.value.address, pgsz))
    && (stackOutcome.Some? && dataOutcome.Some? ==>
          Memory.Disjoint(stackOutcome.value.address, sz, dataOutcome.value.address, pgsz))
  }

  /**
   * The shared first half of both variants: map the stack pages and build
   * the stack capability, then map one page for the descriptor.
   */
  method MapStackAndData(mem: Memory.AddressSpace, stackPages: nat, pgsz: u64,
                         stackOutcome: Option<Capability>, dataOutcome: Option<Capability>)
    returns (stack: Capability, data: Capability)
    requires MmapsFresh(mem.mappings, stackOutcome, Manager.StackSize(pgsz, stackPages), dataOutcome, pgsz)
    modifies mem
    ensures var sz := Manager.StackSize(pgsz, stackPages);
      && stack == DemoStack(MmapResult(stackOutcome), sz)
      && data == MmapResult(dataOutcome)
      && mem.mappings == Mapped(Mapped(old(mem.mappings), stackOutcome, sz), dataOutcome, pgsz)
      && mem.cells == Cleared(Cleared(old(mem.cells), stackOutcome, sz), dataOutcome, pgsz)
  {
    var sz := Manager.StackSize(pgsz, stackPages);
    ghost var ms := mem.mappings;
    var s := mem.Map(stackOutcome, sz, RW_PROT, RW_PROT);
    stack := DemoStack(MmapResult(s), sz);
    if stackOutcome.Some? && dataOutcome.Some? {
      Memory.FreshAfterMap(ms, stackOutcome.value.address, Memory.Mapping(sz, RW_PROT, RW_PROT),
        dataOutcome.value.address, pgsz);
    }
    var d := mem.Map(dataOutcome, pgsz, RW_PROT, RW_PROT);
    data := MmapResult(d);
  }

  // ---------------------------------------------------------------------
  // The LB-sealed descriptor

  /**
   * create_cmpt, LB variant: the descriptor holds the entry and exit
   * routines, the stack and the target as a sentry, and the handle is the
   * descriptor LB-sealed and read-only. When the data mmap fails the first
   * store through MAP_FAILED faults: None.
   */
  method CreateCmptLb(mem: Memory.AddressSpace, target: Capability, stackPages: nat, pgsz: u64,
                      stackOutcome: Option<Capability>, dataOutcome: Option<Capability>,
                      cmptEntry: Capability, cmptReturn: Capability)
    returns (handle: Option<Capability>)
    requires LB_DESC_SIZE <= pgsz
    requires MmapsFresh(mem.mappings, stackOutcome, Manager.StackSize(pgsz, stackPages), dataOutcome, pgsz)
    modifies mem
    ensures handle.Some? <==> dataOutcome.Some?
    ensures var sz := Manager.StackSize(pgsz, stackPages);
      mem.mappings == Mapped(Mapped(old(mem.mappings), stackOutcome, sz), dataOutcome, pgsz)
    ensures handle.Some? ==>
      var sz := Manager.StackSize(pgsz, stackPages);
      var d := dataOutcome.value.address;
      && handle.value == LbHandle(dataOutcome.value)
      && mem.cells == Cleared(Cleared(old(mem.cells), stackOutcome, sz), dataOutcome, pgsz)
           [d + LB_ENTRY := cmptEntry][d + LB_EXIT := cmptReturn]
           [d + LB_STACK := DemoStack(MmapResult(stackOutcome), sz)][d + LB_TARGET := SealedTarget(target)]
  {
    var stack, data := MapStackAndData(mem, stackPages, pgsz, stackOutcome, dataOutcome);
    if dataOutcome.None? {
      return None;
    }
    var h := WriteDescriptor(mem, data, cmptEntry, cmptReturn, stack, target);
    handle := Some(h);
  }

  /**
   * Fills the LB descriptor: entry, exit, stack and the target made a
   * sentry when it is not sealed; returns the descriptor LB-sealed and
   * read-only.
   */
  method WriteDescriptor(mem: Memory.AddressSpace, data: Capability, cmptEntry: Capability,
                         cmptReturn: Capability, stack: Capability, target: Capability) returns (handle: Capability)
    requires data.address + LB_DESC_SIZE <= WORD
    modifies mem
    ensures handle == LbHandle(data)
    ensures var d := data.address;
      && mem.cells == old(mem.cells)[d + LB_ENTRY := cmptEntry][d + LB_EXIT := cmptReturn]
           [d + LB_STACK := stack][d + LB_TARGET := SealedTarget(target)]
      && mem.mappings == old(mem.mappings)
  {
    var desc := SetBounds(data, LB_DESC_SIZE);
    mem.Store(desc.address + LB_ENTRY, cmptEntry);
    mem.Store(desc.address + LB_EXIT, cmptReturn);
    mem.Store(desc.address + LB_STACK, stack);
    var t := target;
    if !IsSealed(t) {
      t := SentryCreate(t);
    }
    mem.Store(desc.address + LB_TARGET, t);
    handle := Morello.LbSentryCreate(PermsAnd(desc, HANDLE_PERMS));
  }

  /** Each slot of the LB descriptor reads back as what was written to it. */
  lemma DescriptorSlots(cells: map<u64, Capability>, d: u64, entry: Capability, exit: Capability,
                        stack: Capability, t: Capability)
    requires d + LB_DESC_SIZE <= WORD
    ensures var c := cells[d + LB_ENTRY := entry][d + LB_EXIT := exit][d + LB_STACK := stack][d + LB_TARGET := t];
      && Memory.LoadFrom(c, d + LB_ENTRY) == entry && Memory.LoadFrom(c, d + LB_EXIT) == exit
      && Memory.LoadFrom(c, d + LB_STACK) == stack && Memory.LoadFrom(c, d + LB_TARGET) == t
  {
  }

  // ---------------------------------------------------------------------
  // The LPB-sealed pair

  /**
   * Writes the descriptor (stack, target) and, right after it in the same
   * page, the pair (read-only descriptor, cmpt_switch); returns the pair
   * LPB-sealed and read-only.
   */
  method WritePair(mem: Memory.AddressSpace, data: Capability, stack: Capability, storedTarget: Capability,
                   cmptSwitch: Capability) returns (handle: Capability)
    requires data.address + LPB_DESC_SIZE + PAIR_SIZE <= WORD
    modifies mem
    ensures handle == LpbHandle(data)
    ensures var d := data.address;
      && mem.cells == old(mem.cells)[d + LPB_STACK := stack][d + LPB_TARGET := storedTarget]
           [d + LPB_DESC_SIZE + PAIR_DATA := LpbDescriptor(data)][d + LPB_DESC_SIZE + PAIR_CODE := cmptSwitch]
      && mem.mappings == old(mem.mappings)
      && Memory.LoadFrom(mem.cells, d + LPB_TARGET) == storedTarget
  {
    var desc := SetBounds(data, LPB_DESC_SIZE);
    mem.Store(desc.address + LPB_STACK, stack);
    mem.Store(desc.address + LPB_TARGET, storedTarget);
    var cmpt := SetBounds(Add(data, LPB_DESC_SIZE), PAIR_SIZE);
    mem.Store(cmpt.address + PAIR_DATA, PermsAnd(desc, HANDLE_PERMS));
    mem.Store(cmpt.address + PAIR_CODE, cmptSwitch);
    PairSlots(old(mem.cells), data.address, stack, storedTarget, LpbDescriptor(data), cmptSwitch);
    handle := Morello.LpbSentryCreate(PermsAnd(cmpt, HANDLE_PERMS));
  }

  /** Each slot of the descriptor and the pair reads back as what was written to it. */
  lemma PairSlots(cells: map<u64, Capability>, d: u64, stack: Capability, t: Capability, desc: Capability,
                  code: Capability)
    requires d + LPB_DESC_SIZE + PAIR_SIZE <= WORD
    ensures var c := cells[d + LPB_STACK := stack][d + LPB_TARGET := t]
                          [d + LPB_DESC_SIZE + PAIR_DATA := desc][d + LPB_DESC_SIZE + PAIR_CODE := code];
      && Memory.LoadFrom(c, d + LPB_STACK) == stack && Memory.LoadFrom(c, d + LPB_TARGET) == t
      && Memory.LoadFrom(c, d + LPB_DESC_SIZE + PAIR_DATA) == desc
      && Memory.LoadFrom(c, d + LPB_DESC_SIZE + PAIR_CODE) == code
  {
  }

  /**
   * create_cmpt, LPB variant, as written: the target is stored before it
   * is sentry-sealed, so the descriptor keeps the target as passed and the
   * sealed value is never used.
   */
  method CreateCmptLpb(mem: Memory.AddressSpace, target: Capability, stackPages: nat, pgsz: u64,
                       stackOutcome: Option<Capability>, dataOutcome: Option<Capability>, cmptSwitch: Capability)
    returns (handle: Option<Capability>)
    requires LPB_DESC_SIZE + PAIR_SIZE <= pgsz
    requires MmapsFresh(mem.mappings, stackOutcome, Manager.StackSize(pgsz, stackPages), dataOutcome, pgsz)
    modifies mem
    ensures handle.Some? <==> dataOutcome.Some?
    ensures var sz := Manager.StackSize(pgsz, stackPages);
      mem.mappings == Mapped(Mapped(old(mem.mappings), stackOutcome, sz), dataOutcome, pgsz)
    ensures handle.Some? ==>
      var sz := Manager.StackSize(pgsz, stackPages);
      var d := dataOutcome.value.address;
      && handle.value == LpbHandle(dataOutcome.value)
      && mem.cells == Cleared(Cleared(old(mem.cells), stackOutcome, sz), dataOutcome, pgsz)
           [d + LPB_STACK := DemoStack(MmapResult(stackOutcome), sz)][d + LPB_TARGET := target]
           [d + LPB_DESC_SIZE + PAIR_DATA := LpbDescriptor(dataOutcome.value)]
           [d + LPB_DESC_SIZE + PAIR_CODE := cmptSwitch]
      && Memory.LoadFrom(mem.cells, d + LPB_TARGET) == target
      && (!IsSealed(target) ==> !IsSealed(Memory.LoadFrom(mem.cells, d + LPB_TARGET)))
  {
    var stack, data := MapStackAndData(mem, stackPages, pgsz, stackOutcome, dataOutcome);
    if dataOutcome.None? {
      return None;
    }
    var t := target;
    var storedTarget := t;
    if !IsSealed(t) {
      t := SentryCreate(t);
    }
    var h := WritePair(mem, data, stack, storedTarget, cmptSwitch);
    handle := Some(h);
  }

  /**
   * create_cmpt, LPB variant, with the sentry-sealing moved before the
   * store, as the LB variant does it: the descriptor holds a sealed target.
   */
  method CreateCmptLpbSealed(mem: Memory.AddressSpace, target: Capability, stackPages: nat, pgsz: u64,
                             stackOutcome: Option<Capability>, dataOutcome: Option<Capability>,
                             cmptSwitch: Capability)
    returns (handle: Option<Capability>)
    requires LPB_DESC_SIZE + PAIR_SIZE <= pgsz
    requires MmapsFresh(mem.mappings, stackOutcome, Manager.StackSize(pgsz, stackPages), dataOutcome, pgsz)
    modifies mem
    ensures handle.Some? <==> dataOutcome.Some?
    ensures var sz := Manager.StackSize(pgsz, stackPages);
      mem.mappings == Mapped(Mapped(old(mem.mappings), stackOutcome, sz), dataOutcome, pgsz)
    ensures handle.Some? ==>
      var sz := Manager.StackSize(pgsz, stackPages);
      var d := dataOutcome.value.address;
      && handle.value == LpbHandle(dataOutcome.value)
      && mem.cells == Cleared(Cleared(old(mem.cells), stackOutcome, sz), dataOutcome, pgsz)
           [d + LPB_STACK := DemoStack(MmapResult(stackOutcome), sz)][d + LPB_TARGET := SealedTarget(target)]
           [d + LPB_DESC_SIZE + PAIR_DATA := LpbDescriptor(dataOutcome.value)]
           [d + LPB_DESC_SIZE + PAIR_CODE := cmptSwitch]
      && Memory.LoadFrom(mem.cells, d + LPB_TARGET) == SealedTarget(target)
      && IsSealed(Memory.LoadFrom(mem.cells, d + LPB_TARGET))
  {
    var stack, data := MapStackAndData(mem, stackPages, pgsz, stackOutcome, dataOutcome);
    if dataOutcome.None? {
      return None;
    }
    var t := SealedTarget(target);
    var h := WritePair(mem, data, stack, t, cmptSwitch);
    handle := Some(h);
  }

  /** A tagged, unsealed function pointer. */
  const PLAIN_FUN: Capability := Capability(true, 0x40_0000, 0x40_0000, 0x100, PERM_GLOBAL | EXEC_CAP_PERMS, OTYPE_UNSEALED)

  /**
   * For an unsealed target the LPB variant as written stores a value that
   * differs from the sentry the LB variant stores: the sealing is lost.
   */
  lemma LpbStoresTargetUnsealed()
    ensures !IsSealed(PLAIN_FUN) && PLAIN_FUN.tag
    ensures SealedTarget(PLAIN_FUN) != PLAIN_FUN
    ensures IsSealed(SealedTarget(PLAIN_FUN)) && SealedTarget(PLAIN_FUN).tag
  {
  }

  // ---------------------------------------------------------------------
  // The compartment body

  /** C's int. */
  type i32 = x: int | -0x8000_0000 <= x < 0x8000_0000

  /**
   * fun: data[2] = data[0] + data[1], returning its argument. The sum must
   * fit an int: signed overflow is undefined in C.
   */
  method Fun(buffer: array<i32>) returns (r: array<i32>)
    requires buffer.Length >= 3
    requires -0x8000_0000 <= buffer[0] as int + buffer[1] as int < 0x8000_0000
    modifies buffer
    ensures r == buffer
    ensures buffer[2] as int == old(buffer[0]) as int + old(buffer[1]) as int
    ensures buffer[..2] == old(buffer[..2]) && buffer[3..] == old(buffer[3..])
  {
    var x := buffer[0];
    var y := buffer[1];
    var z := x + y;
    buffer[2] := z;
    r := buffer;
  }

  /** main's call: the buffer {2, 3, 0} comes back as {2, 3, 5}. */
  method RunDemo() returns (result: seq<i32>)
    ensures result == [2, 3, 5]
  {
    var buffer := new i32[3] [2, 3, 0];
    var res := Fun(buffer);
    result := res[..];
  }
}
