/**
 * The compartment-switch trampoline of src/manager.c as a sequential
 * machine over a register file c0..c30, the stack pointer csp, the
 * compartment-identity register CID_EL0 and memory.
 *
 * Enter runs from the handle up to the call of the target: it saves the
 * caller's callee-saved registers in a 6 x 32-byte frame below csp,
 * branches through the BSP-sealed (entry, data) pair, parks the caller's
 * CID and stack in the runtime record, installs the compartment's CID and
 * stack and zeroes every register but c0 (the argument) and c30 (the
 * target). Exit runs after the target returns: it zeroes c1..c18, branches
 * through the (exit, data) pair, puts the caller's CID and stack back and
 * reloads c19..c30 from the frame.
 *
 * Instructions are steps of these methods; a `brs` whose pair the
 * architecture refuses is a fault, reported as `ok == false`.
 */
module Trampoline {
  import opened Cheri
  import opened CmptLayout
  import Memory
  import Morello
  import Manager

  /** c0..c30. */
  const REG_COUNT: nat := 31

  /** Register pairs in the save frame. */
  const FRAME_PAIRS: nat := 6

  // ---------------------------------------------------------------------
  // The save frame

  /**
   * Memory after the first k `stp` pairs of the prologue: pair k stores
   * c(29 - 2k) at base + 32k and c(30 - 2k) sixteen bytes above it.
   */
  function Saved(cells: map<u64, Capability>, base: u64, r: seq<Capability>, k: nat): map<u64, Capability>
    requires |r| == REG_COUNT && k <= 6 && base + FRAME_SIZE <= WORD
  {
    if k == 0 then cells
    else
      var p: u64 := base + 32 * (k - 1);
      Saved(cells, base, r, k - 1)[p := r[29 - 2 * (k - 1)]][p + 16 := r[30 - 2 * (k - 1)]]
  }

  /** Once its pair has been stored, register i can be read back from its frame slot. */
  lemma {:induction false} SavedHolds(cells: map<u64, Capability>, base: u64, r: seq<Capability>, k: nat, i: nat)
    requires |r| == REG_COUNT && k <= 6 && base + FRAME_SIZE <= WORD
    requires 19 <= i <= 30 && FrameSlot(i) < 32 * k
    ensures Memory.LoadFrom(Saved(cells, base, r, k), base + FrameSlot(i)) == r[i]
  {
    var j := k - 1;
    FramePairs(j);
    if i == 29 - 2 * j || i == 30 - 2 * j {
    } else {
      FrameSlotsDistinct(i, 29 - 2 * j);
      FrameSlotsDistinct(i, 30 - 2 * j);
      assert FrameSlot(i) < 32 * j by {
        if FrameSlot(i) >= 32 * j {
          FrameSlotIsPair(i, j);
        }
      }
      SavedHolds(cells, base, r, j, i);
    }
  }

  /** The only slots in [32j, 32j + 32) are those of pair j. */
  lemma FrameSlotIsPair(i: nat, j: nat)
    requires 19 <= i <= 30 && j < 6 && 32 * j <= FrameSlot(i) < 32 * j + 32
    ensures i == 29 - 2 * j || i == 30 - 2 * j
  {
  }

  /** The prologue writes nothing outside the frame. */
  lemma {:induction false} SavedElsewhere(cells: map<u64, Capability>, base: u64, r: seq<Capability>, k: nat, a: u64)
    requires |r| == REG_COUNT && k <= 6 && base + FRAME_SIZE <= WORD
    requires !(base <= a < base + FRAME_SIZE)
    ensures Memory.LoadFrom(Saved(cells, base, r, k), a) == Memory.LoadFrom(cells, a)
  {
    if k > 0 {
      SavedElsewhere(cells, base, r, k - 1, a);
    }
  }

  /** The frame at base holds the callee-saved registers of r. */
  ghost predicate FrameHolds(cells: map<u64, Capability>, base: u64, r: seq<Capability>)
    requires |r| == REG_COUNT && base + FRAME_SIZE <= WORD
  {
    forall i :: 19 <= i <= 30 ==> Memory.LoadFrom(cells, base + FrameSlot(i)) == r[i]
  }

  /** After all six pairs the frame holds c19..c30. */
  lemma SavedFrame(cells: map<u64, Capability>, base: u64, r: seq<Capability>)
    requires |r| == REG_COUNT && base + FRAME_SIZE <= WORD
    ensures FrameHolds(Saved(cells, base, r, FRAME_PAIRS), base, r)
  {
    forall i | 19 <= i <= 30
      ensures Memory.LoadFrom(Saved(cells, base, r, FRAME_PAIRS), base + FrameSlot(i)) == r[i]
    {
      SavedHolds(cells, base, r, FRAME_PAIRS, i);
    }
  }

  /** Stores outside the frame leave it intact. */
  lemma FrameSurvives(cells: map<u64, Capability>, base: u64, r: seq<Capability>, writes: map<u64, Capability>)
    requires |r| == REG_COUNT && base + FRAME_SIZE <= WORD
    requires FrameHolds(cells, base, r) && Memory.Avoids(writes, base, FRAME_SIZE)
    ensures FrameHolds(cells + writes, base, r)
  {
    forall i | 19 <= i <= 30
      ensures Memory.LoadFrom(cells + writes, base + FrameSlot(i)) == r[i]
    {
      assert base + FrameSlot(i) !in writes;
    }
  }

  /**
   * What the prologue leaves behind, seen through loads: the frame at base
   * holds r's callee-saved registers and every other address reads as before.
   */
  ghost predicate Pushed(before: map<u64, Capability>, after: map<u64, Capability>, base: u64, r: seq<Capability>)
    requires |r| == REG_COUNT && base + FRAME_SIZE <= WORD
  {
    && FrameHolds(after, base, r)
    && forall a: u64 :: !(base <= a < base + FRAME_SIZE) ==> Memory.LoadFrom(after, a) == Memory.LoadFrom(before, a)
  }

  /** The six pairs of stores leave the frame filled and the rest of memory alone. */
  lemma SavedPushed(cells: map<u64, Capability>, base: u64, r: seq<Capability>)
    requires |r| == REG_COUNT && base + FRAME_SIZE <= WORD
    ensures Pushed(cells, Saved(cells, base, r, FRAME_PAIRS), base, r)
  {
    SavedFrame(cells, base, r);
    forall a: u64 | !(base <= a < base + FRAME_SIZE)
      ensures Memory.LoadFrom(Saved(cells, base, r, FRAME_PAIRS), a) == Memory.LoadFrom(cells, a)
    {
      SavedElsewhere(cells, base, r, FRAME_PAIRS, a);
    }
  }

  /** The two stores of _cmpt_start, into a data record clear of the frame, keep the frame. */
  lemma ParkKeepsFrame(cells: map<u64, Capability>, base: u64, r: seq<Capability>, d: u64, cid: Capability, sp: Capability)
    requires |r| == REG_COUNT && base + FRAME_SIZE <= WORD && d + DATA_SIZE <= WORD
    requires FrameHolds(cells, base, r) && Memory.Disjoint(base, FRAME_SIZE, d, DATA_SIZE)
    ensures FrameHolds(cells[d + DATA_CID := cid][d + DATA_STACK := sp], base, r)
  {
    forall i | 19 <= i <= 30
      ensures Memory.LoadFrom(cells[d + DATA_CID := cid][d + DATA_STACK := sp], base + FrameSlot(i)) == r[i]
    {
    }
  }

  /**
   * After the prologue and the two stores of _cmpt_start into a data record
   * clear of the frame and of the handle's record, the record and the frame
   * read as the caller left them and the data record holds what was parked.
   */
  lemma ParkedState(cells: map<u64, Capability>, pushed: map<u64, Capability>, base: u64, r: seq<Capability>,
                    impl: u64, d: u64, cid: Capability, sp: Capability, parked: map<u64, Capability>)
    requires |r| == REG_COUNT && base + FRAME_SIZE <= WORD && impl + IMPL_SIZE <= WORD && d + DATA_SIZE <= WORD
    requires Memory.Disjoint(base, FRAME_SIZE, impl, IMPL_SIZE) && Memory.Disjoint(base, FRAME_SIZE, d, DATA_SIZE)
    requires Memory.Disjoint(impl, IMPL_SIZE, d, DATA_SIZE)
    requires Pushed(cells, pushed, base, r)
    requires parked == pushed[d + DATA_CID := cid][d + DATA_STACK := sp]
    ensures
      && Memory.LoadFrom(parked, impl + IMPL_EXIT) == Memory.LoadFrom(cells, impl + IMPL_EXIT)
      && Memory.LoadFrom(parked, impl + IMPL_DATA) == Memory.LoadFrom(cells, impl + IMPL_DATA)
      && Memory.LoadFrom(parked, d + DATA_CID) == cid
      && Memory.LoadFrom(parked, d + DATA_STACK) == sp
      && FrameHolds(parked, base, r)
  {
    ParkKeepsFrame(pushed, base, r, d, cid, sp);
  }

  // ---------------------------------------------------------------------
  // Branching through a sealed pair

  /**
   * What `brs c29, cn, cm` demands: both capabilities valid, sealed with
   * the same object type and carrying CAP_INVOKE; the code one executable,
   * the data one not.
   */
  predicate PairInvokable(code: Capability, data: Capability) {
    && code.tag && data.tag
    && IsSealed(code) && code.otype == data.otype
    && HasPerms(code, PERM_CAP_INVOKE) && HasPerms(data, PERM_CAP_INVOKE)
    && HasPerms(code, PERM_EXECUTE) && !HasPerms(data, PERM_EXECUTE)
  }

  /** RWI_PERMS leaves no execute permission. */
  lemma DataRecordNotExecutable(data: Capability)
    ensures !HasPerms(Manager.DataRecordCap(data), PERM_EXECUTE)
  {
    assert Manager.RWI_PERMS & PERM_EXECUTE == 0;
  }

  /** The label capabilities keep the code page's execute permission. */
  lemma LabelExecutable(code: Capability, offset: nat)
    requires HasPerms(code, PERM_EXECUTE)
    ensures HasPerms(Manager.LabelCap(code, offset), PERM_EXECUTE)
  {
    assert Manager.RXI_PERMS & PERM_EXECUTE == PERM_EXECUTE;
  }

  /** A code capability create_cmpt sealed successfully can branch with the data record it sealed alongside. */
  lemma SealedPairInvokable(code: Capability, offset: nat, data: Capability, cid: Capability,
                            sealer: Capability, glibc: bool)
    requires HasPerms(code, PERM_EXECUTE) && cid.address < 0x8000
    requires Manager.BspSealCap(Manager.LabelCap(code, offset), cid, sealer, glibc).tag
    requires Manager.BspSealCap(Manager.DataRecordCap(data), cid, sealer, glibc).tag
    ensures PairInvokable(Manager.BspSealCap(Manager.LabelCap(code, offset), cid, sealer, glibc),
                          Manager.BspSealCap(Manager.DataRecordCap(data), cid, sealer, glibc))
  {
    var entry := Manager.LabelCap(code, offset);
    var rec := Manager.DataRecordCap(data);
    Manager.BspTaggedIsSealedWithIdentity(entry, cid, sealer, glibc);
    Manager.BspTaggedIsSealedWithIdentity(rec, cid, sealer, glibc);
    Morello.CheckedPermsPresent(entry, PERM_CAP_INVOKE);
    Morello.CheckedPermsPresent(rec, PERM_CAP_INVOKE);
    LabelExecutable(code, offset);
    DataRecordNotExecutable(data);
  }

  /**
   * The record a successful create_cmpt builds lets the trampoline through
   * both of its branches, provided the switch capabilities came out valid
   * and the identity is below 2^15.
   */
  lemma BuiltRecordInvokable(cells: map<u64, Capability>, code: Capability, data: Capability, stack: Capability,
                             cid: Capability, target: Capability, sealer: Capability, glibc: bool)
    requires code.address + HANDLE_SIZE <= WORD && data.address + DATA_SIZE <= WORD
    requires Manager.Built(cells, code, data, stack, cid, target, sealer, glibc)
    requires HasPerms(code, PERM_EXECUTE) && cid.address < 0x8000
    requires var impl := code.address + IMPL_OFFSET;
      && Memory.LoadFrom(cells, impl + IMPL_ENTRY).tag
      && Memory.LoadFrom(cells, impl + IMPL_DATA).tag
      && Memory.LoadFrom(cells, impl + IMPL_EXIT).tag
    ensures var impl := code.address + IMPL_OFFSET;
      && PairInvokable(Memory.LoadFrom(cells, impl + IMPL_ENTRY), Memory.LoadFrom(cells, impl + IMPL_DATA))
      && PairInvokable(Memory.LoadFrom(cells, impl + IMPL_EXIT), Memory.LoadFrom(cells, impl + IMPL_DATA))
  {
    SealedPairInvokable(code, CMPT_START, data, cid, sealer, glibc);
    SealedPairInvokable(code, CMPT_END, data, cid, sealer, glibc);
  }

  /** Lowering an unsealed stack pointer by the frame and raising it again gives it back. */
  lemma PopAfterPush(sp: Capability)
    requires FRAME_SIZE <= sp.address && !IsSealed(sp)
    ensures Add(Add(sp, -(FRAME_SIZE as int)), FRAME_SIZE) == sp
  {
  }

  // ---------------------------------------------------------------------
  // The processor

  class Cpu {
    /** c0..c30 */
    var regs: seq<Capability>
    var csp: Capability
    /** CID_EL0 */
    var cidEl0: Capability
    /** The capability the processor executes through. */
    var pcc: Capability

    ghost predicate Valid()
      reads this
    {
      |regs| == REG_COUNT
    }

    constructor(r: seq<Capability>, sp: Capability, cid: Capability, pc: Capability)
      requires |r| == REG_COUNT
      ensures Valid() && regs == r
      ensures csp == sp && cidEl0 == cid && pcc == pc
    {
      regs := r;
      csp := sp;
      cidEl0 := cid;
      pcc := pc;
    }

    /** `mov wN, #0` for N in lo..hi (the `.irp` blocks). */
    method Zero(lo: nat, hi: nat)
      requires Valid() && 1 <= lo <= hi < REG_COUNT
      modifies this
      ensures Valid()
      ensures forall n :: lo <= n <= hi ==> regs[n] == NULL
      ensures forall n :: 0 <= n < REG_COUNT && !(lo <= n <= hi) ==> regs[n] == old(regs[n])
      ensures csp == old(csp) && cidEl0 == old(cidEl0) && pcc == old(pcc)
    {
      for n := lo to hi + 1
        invariant Valid()
        invariant forall m :: lo <= m < n ==> regs[m] == NULL
        invariant forall m :: 0 <= m < REG_COUNT && !(lo <= m < n) ==> regs[m] == old(regs[m])
        invariant csp == old(csp) && cidEl0 == old(cidEl0) && pcc == old(pcc)
      {
        regs := regs[n := NULL];
      }
    }

    /** The six `stp` of the prologue, into the frame at base. */
    method PushPairs(mem: Memory.AddressSpace, base: u64)
      requires Valid() && base + FRAME_SIZE <= WORD
      modifies mem
      ensures mem.cells == Saved(old(mem.cells), base, regs, FRAME_PAIRS)
      ensures mem.mappings == old(mem.mappings)
    {
      for k := 0 to FRAME_PAIRS
        invariant mem.cells == Saved(old(mem.cells), base, regs, k)
        invariant mem.mappings == old(mem.mappings)
      {
        mem.Store(base + 32 * k, regs[29 - 2 * k]);
        mem.Store(base + 32 * k + 16, regs[30 - 2 * k]);
      }
    }

    /** `ldp c(29 - 2j), c(30 - 2j), [csp, #(j*32)]`. */
    method PopPair(mem: Memory.AddressSpace, base: u64, j: nat)
      requires Valid() && base + FRAME_SIZE <= WORD && j < FRAME_PAIRS
      modifies this
      ensures Valid()
      ensures regs[29 - 2 * j] == mem.Load(base + FrameSlot(29 - 2 * j))
      ensures regs[30 - 2 * j] == mem.Load(base + FrameSlot(30 - 2 * j))
      ensures forall n :: 0 <= n < REG_COUNT && n != 29 - 2 * j && n != 30 - 2 * j ==> regs[n] == old(regs[n])
      ensures csp == old(csp) && cidEl0 == old(cidEl0) && pcc == old(pcc)
    {
      FramePairs(j);
      regs := regs[29 - 2 * j := mem.Load(base + 32 * j)];
      regs := regs[30 - 2 * j := mem.Load(base + 32 * j + 16)];
    }

    /** The six `ldp` of the epilogue, from the frame at base, (c19, c20) first. */
    method PopPairs(mem: Memory.AddressSpace, base: u64)
      requires Valid() && base + FRAME_SIZE <= WORD
      modifies this
      ensures Valid()
      ensures forall i :: 19 <= i <= 30 ==> regs[i] == mem.Load(base + FrameSlot(i))
      ensures forall i :: 0 <= i < 19 ==> regs[i] == old(regs[i])
      ensures csp == old(csp) && cidEl0 == old(cidEl0) && pcc == old(pcc)
    {
      for k := 0 to FRAME_PAIRS
        invariant Valid()
        invariant forall i :: 19 <= i < 19 + 2 * k ==> regs[i] == mem.Load(base + FrameSlot(i))
        invariant forall i :: 0 <= i < 19 ==> regs[i] == old(regs[i])
        invariant csp == old(csp) && cidEl0 == old(cidEl0) && pcc == old(pcc)
      {
        PopPair(mem, base, 5 - k);
      }
    }

    /** `sub csp, csp, #(6*32)` and the six `stp`. */
    method Push(mem: Memory.AddressSpace)
      requires Valid() && FRAME_SIZE <= csp.address
      modifies this, mem
      ensures regs == old(regs) && cidEl0 == old(cidEl0) && pcc == old(pcc)
      ensures csp == Add(old(csp), -(FRAME_SIZE as int)) && csp.address == old(csp.address) - FRAME_SIZE
      ensures Pushed(old(mem.cells), mem.cells, old(csp.address) - FRAME_SIZE, old(regs))
      ensures mem.mappings == old(mem.mappings)
    {
      csp := Add(csp, -(FRAME_SIZE as int));
      PushPairs(mem, csp.address);
      SavedPushed(old(mem.cells), csp.address, regs);
    }

    /**
     * `adr`/`alignu` find the record after the code; `ldp c26, c30` loads
     * cid and target, `ldp c27, c28` entry and data; `brs c29, c27, c28`
     * branches to entry with the unsealed data record in c29.
     */
    method BranchIn(mem: Memory.AddressSpace, code: u64) returns (ok: bool)
      requires Valid() && code % 16 == 0 && code + HANDLE_SIZE <= WORD
      modifies this
      ensures Valid()
      ensures var impl: u64 := code + IMPL_OFFSET;
        && ok == PairInvokable(mem.Load(impl + IMPL_ENTRY), mem.Load(impl + IMPL_DATA))
        && regs[26] == mem.Load(impl + IMPL_CID)
        && regs[30] == mem.Load(impl + IMPL_TARGET)
        && (ok ==> pcc == Unseal(mem.Load(impl + IMPL_ENTRY)) && regs[29] == Unseal(mem.Load(impl + IMPL_DATA)))
      ensures !ok ==> pcc == old(pcc)
      ensures forall n :: 0 <= n < 26 ==> regs[n] == old(regs[n])
      ensures csp == old(csp) && cidEl0 == old(cidEl0)
    {
      AdrFindsImpl(code);
      var impl := AlignUp16(Wrap(code + TRAMPOLINE_END));
      regs := regs[26 := mem.Load(impl + IMPL_CID)][30 := mem.Load(impl + IMPL_TARGET)];
      regs := regs[27 := mem.Load(impl + IMPL_ENTRY)][28 := mem.Load(impl + IMPL_DATA)];
      ok := PairInvokable(regs[27], regs[28]);
      if ok {
        pcc := Unseal(regs[27]);
        regs := regs[29 := Unseal(regs[28])];
      }
    }

    /**
     * The swaps at _cmpt_start: the caller's CID goes to data->cid and the
     * compartment's is installed; csp goes to data->stack and the
     * compartment's stack becomes c29 and csp.
     */
    method SwapIn(mem: Memory.AddressSpace)
      requires Valid() && regs[29].address + DATA_SIZE <= WORD
      modifies this, mem
      ensures Valid()
      ensures var d: u64 := old(regs[29].address);
        && cidEl0 == old(regs[26])
        && csp == old(mem.Load(d + DATA_STACK)) && regs[29] == csp
        && mem.cells == old(mem.cells)[d + DATA_CID := old(cidEl0)][d + DATA_STACK := old(csp)]
      ensures mem.mappings == old(mem.mappings) && pcc == old(pcc)
      ensures forall n :: 0 <= n < REG_COUNT && n != 27 && n != 28 && n != 29 ==> regs[n] == old(regs[n])
    {
      var d := regs[29].address;
      regs := regs[28 := cidEl0];
      mem.Store(d + DATA_CID, regs[28]);
      cidEl0 := regs[26];
      regs := regs[28 := csp];
      regs := regs[27 := mem.Load(d + DATA_STACK)];
      mem.Store(d + DATA_STACK, regs[28]);
      regs := regs[29 := regs[27]];
      csp := regs[29];
    }

    /**
     * _cmpt_start up to the call: the swaps, then c1..c28 are zeroed; only
     * the argument (c0), the target (c30) and the stack (c29) remain.
     */
    method CmptStart(mem: Memory.AddressSpace)
      requires Valid() && regs[29].address + DATA_SIZE <= WORD
      modifies this, mem
      ensures Valid()
      ensures var d: u64 := old(regs[29].address);
        && cidEl0 == old(regs[26])
        && csp == old(mem.Load(d + DATA_STACK)) && regs[29] == csp
        && mem.cells == old(mem.cells)[d + DATA_CID := old(cidEl0)][d + DATA_STACK := old(csp)]
      ensures mem.mappings == old(mem.mappings) && pcc == old(pcc)
      ensures regs[0] == old(regs[0]) && regs[30] == old(regs[30])
      ensures forall n :: 1 <= n <= 28 ==> regs[n] == NULL
    {
      SwapIn(mem);
      Zero(1, 28);
    }

    /**
     * From `adr` after the prologue up to the call: the branch through
     * (entry, data) and, when it is taken, _cmpt_start.
     */
    method Switch(mem: Memory.AddressSpace, code: u64, ghost id: Capability, ghost target: Capability,
                  ghost entry: Capability, ghost data: Capability, ghost stack: Capability) returns (ok: bool)
      requires Valid() && code % 16 == 0 && code + HANDLE_SIZE <= WORD
      requires var impl: u64 := code + IMPL_OFFSET;
        && mem.Load(impl + IMPL_CID) == id && mem.Load(impl + IMPL_TARGET) == target
        && mem.Load(impl + IMPL_ENTRY) == entry && mem.Load(impl + IMPL_DATA) == data
        && data.address + DATA_SIZE <= WORD && mem.Load(data.address + DATA_STACK) == stack
      modifies this, mem
      ensures Valid() && mem.mappings == old(mem.mappings)
      ensures ok == PairInvokable(entry, data)
      ensures ok ==>
        && cidEl0 == id && csp == stack && regs[29] == csp
        && regs[0] == old(regs[0]) && regs[30] == target
        && (forall n :: 1 <= n <= 28 ==> regs[n] == NULL)
        && pcc == Unseal(entry)
        && mem.cells == old(mem.cells)[data.address + DATA_CID := old(cidEl0)][data.address + DATA_STACK := old(csp)]
      ensures !ok ==> cidEl0 == old(cidEl0) && csp == old(csp) && mem.cells == old(mem.cells)
    {
      ok := BranchIn(mem, code);
      if ok {
        CmptStart(mem);
      }
    }

    /**
     * Enter: the handle's code up to `blr c30`. On success the target runs
     * with the compartment's CID and stack, its argument in c0, its own
     * sentry in c30 and nothing else of the caller's.
     */
    method Enter(mem: Memory.AddressSpace, code: u64) returns (ok: bool, ghost pushed: map<u64, Capability>)
      requires Valid() && code % 16 == 0 && code + HANDLE_SIZE <= WORD
      requires FRAME_SIZE <= csp.address
      requires var impl: u64 := code + IMPL_OFFSET;
        var d := mem.Load(impl + IMPL_DATA).address;
        && d + DATA_SIZE <= WORD
        && Memory.Disjoint(csp.address - FRAME_SIZE, FRAME_SIZE, impl, IMPL_SIZE)
        && Memory.Disjoint(csp.address - FRAME_SIZE, FRAME_SIZE, d, DATA_SIZE)
      modifies this, mem
      ensures Valid() && mem.mappings == old(mem.mappings)
      ensures var impl: u64 := code + IMPL_OFFSET;
        ok == PairInvokable(old(mem.Load(impl + IMPL_ENTRY)), old(mem.Load(impl + IMPL_DATA)))
      ensures var impl: u64 := code + IMPL_OFFSET;
        var d: u64 := old(mem.Load(impl + IMPL_DATA)).address;
        var base: u64 := old(csp.address) - FRAME_SIZE;
        ok ==>
          && cidEl0 == old(mem.Load(impl + IMPL_CID))
          && csp == old(mem.Load(d + DATA_STACK)) && regs[29] == csp
          && regs[0] == old(regs[0]) && regs[30] == old(mem.Load(impl + IMPL_TARGET))
          && (forall n :: 1 <= n <= 28 ==> regs[n] == NULL)
          && pcc == Unseal(old(mem.Load(impl + IMPL_ENTRY)))
          && mem.cells == pushed[d + DATA_CID := old(cidEl0)][d + DATA_STACK := Add(old(csp), -(FRAME_SIZE as int))]
      ensures !ok ==> cidEl0 == old(cidEl0) && csp == Add(old(csp), -(FRAME_SIZE as int)) && mem.cells == pushed
      ensures Pushed(old(mem.cells), pushed, old(csp.address) - FRAME_SIZE, old(regs))
    {
      ghost var impl: u64 := code + IMPL_OFFSET;
      ghost var id := mem.Load(impl + IMPL_CID);
      ghost var target := mem.Load(impl + IMPL_TARGET);
      ghost var entry := mem.Load(impl + IMPL_ENTRY);
      ghost var data := mem.Load(impl + IMPL_DATA);
      ghost var stack := mem.Load(data.address + DATA_STACK);
      Push(mem);
      pushed := mem.cells;
      ok := Switch(mem, code, id, target, entry, data, stack);
    }

    /**
     * The target itself, `blr c30` to its `ret`: whatever registers, stack
     * pointer and CID it leaves, and the stores it makes.
     */
    method Call(mem: Memory.AddressSpace, outRegs: seq<Capability>, outCsp: Capability, outCid: Capability,
                writes: map<u64, Capability>)
      requires |outRegs| == REG_COUNT
      modifies this, mem
      ensures Valid()
      ensures regs == outRegs && csp == outCsp && cidEl0 == outCid && pcc == old(pcc)
      ensures mem.cells == old(mem.cells) + writes && mem.mappings == old(mem.mappings)
    {
      regs := outRegs;
      csp := outCsp;
      cidEl0 := outCid;
      mem.cells := mem.cells + writes;
    }

    /**
     * The swaps at _cmpt_end: the caller's CID comes back from data->cid;
     * the compartment's csp goes back to data->stack and the caller's
     * stack, parked there by Enter, becomes csp.
     */
    method SwapOut(mem: Memory.AddressSpace)
      requires Valid() && regs[29].address + DATA_SIZE <= WORD
      modifies this, mem
      ensures Valid()
      ensures var d: u64 := old(regs[29].address);
        && cidEl0 == old(mem.Load(d + DATA_CID))
        && csp == old(mem.Load(d + DATA_STACK))
        && mem.cells == old(mem.cells)[d + DATA_STACK := old(csp)]
      ensures mem.mappings == old(mem.mappings) && pcc == old(pcc)
      ensures forall n :: 0 <= n < REG_COUNT && n != 27 && n != 28 ==> regs[n] == old(regs[n])
    {
      var d := regs[29].address;
      regs := regs[28 := mem.Load(d + DATA_CID)];
      cidEl0 := regs[28];
      regs := regs[28 := csp];
      regs := regs[27 := mem.Load(d + DATA_STACK)];
      mem.Store(d + DATA_STACK, regs[28]);
      csp := regs[27];
    }

    /** The six `ldp` and `add csp, csp, #(6*32)`. */
    method Pop(mem: Memory.AddressSpace)
      requires Valid() && csp.address + FRAME_SIZE <= WORD
      modifies this
      ensures Valid()
      ensures csp == Add(old(csp), FRAME_SIZE)
      ensures forall i :: 19 <= i <= 30 ==> regs[i] == mem.Load(old(csp.address) + FrameSlot(i))
      ensures forall i :: 0 <= i < 19 ==> regs[i] == old(regs[i])
      ensures cidEl0 == old(cidEl0) && pcc == old(pcc)
    {
      PopPairs(mem, csp.address);
      csp := Add(csp, FRAME_SIZE);
    }

    /**
     * `adr`/`alignu` find the record again; `ldp c28, c27` loads data and
     * exit; `brs c29, c27, c28` branches to exit with the unsealed data
     * record in c29.
     */
    method BranchOut(mem: Memory.AddressSpace, code: u64) returns (ok: bool)
      requires Valid() && code % 16 == 0 && code + HANDLE_SIZE <= WORD
      modifies this
      ensures Valid()
      ensures var impl: u64 := code + IMPL_OFFSET;
        && ok == PairInvokable(mem.Load(impl + IMPL_EXIT), mem.Load(impl + IMPL_DATA))
        && (ok ==> regs[29] == Unseal(mem.Load(impl + IMPL_DATA)))
      ensures forall n :: 0 <= n < 27 ==> regs[n] == old(regs[n])
      ensures csp == old(csp) && cidEl0 == old(cidEl0)
    {
      AdrFindsImpl(code);
      var impl := AlignUp16(Wrap(code + TRAMPOLINE_END));
      regs := regs[28 := mem.Load(impl + IMPL_DATA)][27 := mem.Load(impl + IMPL_EXIT)];
      ok := PairInvokable(regs[27], regs[28]);
      if ok {
        pcc := Unseal(regs[27]);
        regs := regs[29 := Unseal(regs[28])];
      }
    }

    /**
     * _cmpt_end after the branch: the swaps put the caller's CID and stack
     * back, the six `ldp` reload c19..c30 from the frame, `add` drops it
     * and `ret c30` returns to the caller.
     */
    method Return(mem: Memory.AddressSpace)
      requires Valid() && regs[29].address + DATA_SIZE <= WORD
      requires var d: u64 := regs[29].address;
        var saved := mem.Load(d + DATA_STACK);
        && saved.address + FRAME_SIZE <= WORD
        && Memory.Disjoint(saved.address, FRAME_SIZE, d, DATA_SIZE)
      modifies this, mem
      ensures Valid() && mem.mappings == old(mem.mappings)
      ensures var d: u64 := old(regs[29].address);
        var saved := old(mem.Load(d + DATA_STACK));
        && cidEl0 == old(mem.Load(d + DATA_CID))
        && csp == Add(saved, FRAME_SIZE)
        && (forall i :: 19 <= i <= 30 ==> regs[i] == Memory.LoadFrom(old(mem.cells), saved.address + FrameSlot(i)))
        && pcc == regs[30]
        && mem.cells == old(mem.cells)[d + DATA_STACK := old(csp)]
      ensures forall n :: 0 <= n < 19 ==> regs[n] == old(regs[n])
    {
      ghost var d: u64 := regs[29].address;
      ghost var saved := mem.Load(d + DATA_STACK);
      SwapOut(mem);
      assert forall i :: 19 <= i <= 30 ==>
        mem.Load(saved.address + FrameSlot(i)) == Memory.LoadFrom(old(mem.cells), saved.address + FrameSlot(i));
      Pop(mem);
      pcc := regs[30];
    }

    /**
     * Exit: from the target's return to `ret c30`. c1..c18 are zeroed
     * before the branch through (exit, data); on success the caller's
     * CID, stack and c19..c30 come back and control returns through c30.
     */
    method Exit(mem: Memory.AddressSpace, code: u64, ghost exit: Capability, ghost data: Capability,
                ghost cid: Capability, ghost saved: Capability, ghost r: seq<Capability>) returns (ok: bool)
      requires Valid() && code % 16 == 0 && code + HANDLE_SIZE <= WORD
      requires var impl: u64 := code + IMPL_OFFSET;
        && mem.Load(impl + IMPL_EXIT) == exit && mem.Load(impl + IMPL_DATA) == data
        && data.address + DATA_SIZE <= WORD
        && mem.Load(data.address + DATA_CID) == cid && mem.Load(data.address + DATA_STACK) == saved
      requires saved.address + FRAME_SIZE <= WORD && Memory.Disjoint(saved.address, FRAME_SIZE, data.address, DATA_SIZE)
      requires |r| == REG_COUNT && FrameHolds(mem.cells, saved.address, r)
      modifies this, mem
      ensures Valid() && mem.mappings == old(mem.mappings) && regs[0] == old(regs[0])
      ensures forall n :: 1 <= n <= 18 ==> regs[n] == NULL
      ensures ok == PairInvokable(exit, data)
      ensures ok ==>
        && cidEl0 == cid && csp == Add(saved, FRAME_SIZE)
        && (forall i :: 19 <= i <= 30 ==> regs[i] == r[i])
        && pcc == r[30]
        && mem.cells == old(mem.cells)[data.address + DATA_STACK := old(csp)]
        && mem.Load(data.address + DATA_STACK) == old(csp) && mem.Load(data.address + DATA_CID) == cid
      ensures !ok ==> cidEl0 == old(cidEl0) && csp == old(csp) && mem.cells == old(mem.cells)
    {
      Zero(1, 18);
      ok := BranchOut(mem, code);
      if ok {
        Return(mem);
      }
    }

    /**
     * From `blr c30` to `ret c30`: the target runs, then Exit. The target's
     * stores avoid the caller's frame, the handle's record and the data
     * record.
     */
    method Resume(mem: Memory.AddressSpace, code: u64, outRegs: seq<Capability>, outCsp: Capability,
                  outCid: Capability, writes: map<u64, Capability>, ghost exit: Capability, ghost data: Capability,
                  ghost cid: Capability, ghost saved: Capability, ghost r: seq<Capability>) returns (ok: bool)
      requires code % 16 == 0 && code + HANDLE_SIZE <= WORD && |outRegs| == REG_COUNT
      requires var impl: u64 := code + IMPL_OFFSET;
        && mem.Load(impl + IMPL_EXIT) == exit && mem.Load(impl + IMPL_DATA) == data
        && data.address + DATA_SIZE <= WORD
        && mem.Load(data.address + DATA_CID) == cid && mem.Load(data.address + DATA_STACK) == saved
        && Memory.Avoids(writes, impl, IMPL_SIZE)
      requires saved.address + FRAME_SIZE <= WORD && Memory.Disjoint(saved.address, FRAME_SIZE, data.address, DATA_SIZE)
      requires |r| == REG_COUNT && FrameHolds(mem.cells, saved.address, r)
      requires Memory.Avoids(writes, saved.address, FRAME_SIZE) && Memory.Avoids(writes, data.address, DATA_SIZE)
      modifies this, mem
      ensures ok == PairInvokable(exit, data)
      ensures ok ==>
        && Valid() && cidEl0 == cid && csp == Add(saved, FRAME_SIZE)
        && regs[0] == outRegs[0]
        && (forall n :: 1 <= n <= 18 ==> regs[n] == NULL)
        && (forall i :: 19 <= i <= 30 ==> regs[i] == r[i])
        && pcc == r[30]
        && mem.Load(data.address + DATA_STACK) == outCsp && mem.Load(data.address + DATA_CID) == cid
    {
      ghost var impl: u64 := code + IMPL_OFFSET;
      ghost var cells: map<u64, Capability> := mem.cells;
      Call(mem, outRegs, outCsp, outCid, writes);
      FrameSurvives(cells, saved.address, r, writes);
      Memory.LoadAvoided(cells, writes, impl, IMPL_SIZE, impl + IMPL_EXIT);
      Memory.LoadAvoided(cells, writes, impl, IMPL_SIZE, impl + IMPL_DATA);
      Memory.LoadAvoided(cells, writes, data.address, DATA_SIZE, data.address + DATA_CID);
      Memory.LoadAvoided(cells, writes, data.address, DATA_SIZE, data.address + DATA_STACK);
      ok := Exit(mem, code, exit, data, cid, saved, r);
    }

    /**
     * The rest of a call once _cmpt_start is reached: the callee runs and the
     * exit path restores the caller from the frame and the parked stack.
     */
    method Continue(mem: Memory.AddressSpace, code: u64, outRegs: seq<Capability>, outCsp: Capability,
                    outCid: Capability, writes: map<u64, Capability>, ghost cells: map<u64, Capability>,
                    ghost pushed: map<u64, Capability>, ghost r: seq<Capability>, ghost exit: Capability,
                    ghost data: Capability, ghost cid: Capability, ghost sp: Capability) returns (ok: bool)
      requires code % 16 == 0 && code + HANDLE_SIZE <= WORD && |outRegs| == REG_COUNT && |r| == REG_COUNT
      requires var impl: u64 := code + IMPL_OFFSET;
        && Memory.LoadFrom(cells, impl + IMPL_EXIT) == exit && Memory.LoadFrom(cells, impl + IMPL_DATA) == data
        && data.address + DATA_SIZE <= WORD && sp.address + FRAME_SIZE <= WORD
        && Memory.Disjoint(sp.address, FRAME_SIZE, impl, IMPL_SIZE)
        && Memory.Disjoint(sp.address, FRAME_SIZE, data.address, DATA_SIZE)
        && Memory.Disjoint(impl, IMPL_SIZE, data.address, DATA_SIZE)
        && Memory.Avoids(writes, sp.address, FRAME_SIZE)
        && Memory.Avoids(writes, impl, IMPL_SIZE)
        && Memory.Avoids(writes, data.address, DATA_SIZE)
      requires Pushed(cells, pushed, sp.address, r)
      requires mem.cells == pushed[data.address + DATA_CID := cid][data.address + DATA_STACK := sp]
      modifies this, mem
      ensures ok == PairInvokable(exit, data)
      ensures ok ==>
        && Valid() && cidEl0 == cid && csp == Add(sp, FRAME_SIZE)
        && regs[0] == outRegs[0]
        && (forall n :: 1 <= n <= 18 ==> regs[n] == NULL)
        && (forall i :: 19 <= i <= 30 ==> regs[i] == r[i])
        && pcc == r[30]
        && mem.Load(data.address + DATA_STACK) == outCsp && mem.Load(data.address + DATA_CID) == cid
    {
      ParkedState(cells, pushed, sp.address, r, code + IMPL_OFFSET, data.address, cid, sp, mem.cells);
      ok := Resume(mem, code, outRegs, outCsp, outCid, writes, exit, data, cid, sp, r);
    }

    /**
     * One call through the handle: Enter, the target, Exit. The target is
     * given by what it leaves behind, and it stores nowhere in the caller's
     * frame, the handle's record or the data record. When both branches go
     * through, the caller gets the target's c0, its own CID, stack and
     * c19..c30 back, c1..c18 cleared, and control at its own c30; the data
     * record keeps the compartment's stack for the next call.
     */
    method Invoke(mem: Memory.AddressSpace, code: u64, outRegs: seq<Capability>, outCsp: Capability,
                  outCid: Capability, writes: map<u64, Capability>) returns (ok: bool)
      requires Valid() && code % 16 == 0 && code + HANDLE_SIZE <= WORD
      requires FRAME_SIZE <= csp.address && |outRegs| == REG_COUNT
      requires var impl: u64 := code + IMPL_OFFSET;
        var d := mem.Load(impl + IMPL_DATA).address;
        var base: u64 := csp.address - FRAME_SIZE;
        && d + DATA_SIZE <= WORD
        && Memory.Disjoint(base, FRAME_SIZE, impl, IMPL_SIZE)
        && Memory.Disjoint(base, FRAME_SIZE, d, DATA_SIZE)
        && Memory.Disjoint(impl, IMPL_SIZE, d, DATA_SIZE)
        && Memory.Avoids(writes, base, FRAME_SIZE)
        && Memory.Avoids(writes, impl, IMPL_SIZE)
        && Memory.Avoids(writes, d, DATA_SIZE)
      modifies this, mem
      ensures var impl: u64 := code + IMPL_OFFSET;
        ok == (&& PairInvokable(old(mem.Load(impl + IMPL_ENTRY)), old(mem.Load(impl + IMPL_DATA)))
               && PairInvokable(old(mem.Load(impl + IMPL_EXIT)), old(mem.Load(impl + IMPL_DATA))))
      ensures var impl: u64 := code + IMPL_OFFSET;
        var d: u64 := old(mem.Load(impl + IMPL_DATA)).address;
        ok ==>
          && Valid()
          && cidEl0 == old(cidEl0)
          && csp == Add(Add(old(csp), -(FRAME_SIZE as int)), FRAME_SIZE)
          && regs[0] == outRegs[0]
          && (forall n :: 1 <= n <= 18 ==> regs[n] == NULL)
          && (forall i :: 19 <= i <= 30 ==> regs[i] == old(regs[i]))
          && pcc == old(regs[30])
          && mem.Load(d + DATA_STACK) == outCsp
          && mem.Load(d + DATA_CID) == old(cidEl0)
      ensures ok && !IsSealed(old(csp)) ==> csp == old(csp)
    {
      ghost var impl: u64 := code + IMPL_OFFSET;
      ghost var data := mem.Load(impl + IMPL_DATA);
      ghost var base: u64 := csp.address - FRAME_SIZE;
      ghost var sp := Add(csp, -(FRAME_SIZE as int));
      assert sp.address == base;
      ghost var r: seq<Capability> := regs;
      ghost var cid := cidEl0;
      ghost var exit := mem.Load(impl + IMPL_EXIT);
      ghost var cells: map<u64, Capability> := mem.cells;
      var entered, pushed := Enter(mem, code);
      if !entered {
        return false;
      }
      ok := Continue(mem, code, outRegs, outCsp, outCid, writes, cells, pushed, r, exit, data, cid, sp);
      if !IsSealed(old(csp)) {
        PopAfterPush(old(csp));
      }
    }
  }
}
