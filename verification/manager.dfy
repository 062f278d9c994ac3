/**
 * The compartment manager of src/manager.c: the global sealer and
 * identity capabilities, BSP-sealing, resealing a target without some
 * permissions, the stack allocator and create_cmpt, which builds the
 * relocated trampoline, its record and the runtime data record, and
 * returns a sentry for the whole.
 */
module Manager {
  import opened Cheri
  import opened Wrappers
  import opened CmptLayout
  import Morello
  import Memory

  const EFAULT: int := 14

  const RW_PERMS: Perms := PERM_GLOBAL | READ_CAP_PERMS | WRITE_CAP_PERMS
  const RX_PERMS: Perms := PERM_GLOBAL | READ_CAP_PERMS | EXEC_CAP_PERMS
  const RWI_PERMS: Perms := RW_PERMS | PERM_CAP_INVOKE
  const RXI_PERMS: Perms := RX_PERMS | PERM_CAP_INVOKE

  /** cmpt_flags_t: what the compartment keeps; a NULL flags pointer is None. */
  datatype CmptFlags = CmptFlags(pccSystemReg: bool, stackStoreLocal: bool, stackMutableLoad: bool)

  // ---------------------------------------------------------------------
  // BSP-sealing

  /** The object type _bsp_seal_cap derives from an identity address: at least 4, then masked. */
  function BspOtype(a: u64): (t: ObjectType)
    ensures 4 <= a < 0x8000 ==> t == a
    ensures a < 4 ==> t == 4
    ensures t == 4 || t == a % 0x8000
  {
    (if a < 4 then 4 else a) % 0x8000
  }

  /** Whether _bsp_seal_cap seals (otherwise it clears the tag). */
  predicate BspSealAllowed(cap: Capability, cid: Capability, glibc: bool) {
    Morello.CheckPerms(cap, PERM_CAP_INVOKE)
    && (glibc || (cid.tag && Morello.CheckPerms(cid, PERM_CMPT_ID)))
  }

  /** The sealing key: __sealer moved to the object type. */
  function BspKey(cid: Capability, sealer: Capability): (k: Capability)
    ensures k.address == BspOtype(cid.address) && k.address < 0x8000
    ensures k.base == sealer.base && k.length == sealer.length && k.perms == sealer.perms
  {
    SetAddress(sealer, BspOtype(cid.address))
  }

  /**
   * _bsp_seal_cap: seal cap with the object type taken from the identity,
   * or, when the permissions are missing, return cap with its tag cleared.
   */
  function BspSealCap(cap: Capability, cid: Capability, sealer: Capability, glibc: bool): (r: Capability)
    ensures r.address == cap.address && r.base == cap.base && r.length == cap.length && r.perms == cap.perms
    ensures BspSealAllowed(cap, cid, glibc) ==>
      r.otype == BspOtype(cid.address)
      && r.tag == (cap.tag && !IsSealed(cap) && SealingKeyValid(BspKey(cid, sealer)))
    ensures !BspSealAllowed(cap, cid, glibc) ==> !r.tag && r.(tag := cap.tag) == cap
  {
    if BspSealAllowed(cap, cid, glibc) then Seal(cap, BspKey(cid, sealer)) else TagClear(cap)
  }

  /** A tagged result is never weaker than the rule: it carries the identity's sealing type. */
  lemma BspTaggedIsSealedWithIdentity(cap: Capability, cid: Capability, sealer: Capability, glibc: bool)
    requires BspSealCap(cap, cid, sealer, glibc).tag
    ensures BspSealAllowed(cap, cid, glibc)
    ensures cap.tag && !IsSealed(cap)
    ensures BspSealCap(cap, cid, sealer, glibc).otype == BspOtype(cid.address)
    ensures sealer.tag && HasPerms(sealer, PERM_SEAL)
  {
  }

  /** Identity addresses below 0x8000 never yield a reserved type (0 to 3). */
  lemma BspOtypeAvoidsReserved(a: u64)
    requires a < 0x8000
    ensures BspOtype(a) >= 4
  {
  }

  /**
   * The clamp comes before the mask, so larger identities wrap around:
   * they can reach the reserved types and repeat earlier ones.
   */
  lemma BspOtypeWraps()
    ensures BspOtype(0x8000) == OTYPE_UNSEALED
    ensures BspOtype(0x8001) == OTYPE_RB
    ensures BspOtype(0x8003) == OTYPE_LB
    ensures BspOtype(0x8004) == BspOtype(4) == BspOtype(0)
  {
  }

  // ---------------------------------------------------------------------
  // Resealing the target

  /** The key cheri_cap_build needs: PCC for a sealed sentry, the capability itself otherwise. */
  function ResealKey(sentry: Capability, pcc: Capability): Capability {
    if IsSealed(sentry) then pcc else sentry
  }

  /** reseal_and_remove_perms: rebuild the capability without `perms` and make it a sentry. */
  function ResealAndRemovePerms(sentry: Capability, perms: Perms, pcc: Capability): (r: Capability)
    ensures r.perms == sentry.perms & !perms
    ensures r.otype == OTYPE_RB
    ensures r.address == sentry.address && r.base == sentry.base && r.length == sentry.length
    ensures r.tag == Derivable(ResealKey(sentry, pcc), PermsClear(sentry, perms))
  {
    var key := ResealKey(sentry, pcc);
    SentryCreate(Build(key, PermsClear(sentry, perms)))
  }

  lemma ClearedWithin(p: Perms, m: Perms)
    ensures (p & !m) & !p == 0
  {
  }

  lemma ClearedAbsent(p: Perms, m: Perms)
    ensures (p & !m) & m == 0
  {
  }

  /** Resealing never adds a permission, and the removed ones are gone. */
  lemma ResealNeverWidens(sentry: Capability, perms: Perms, pcc: Capability)
    ensures ResealAndRemovePerms(sentry, perms, pcc).perms & !sentry.perms == 0
    ensures ResealAndRemovePerms(sentry, perms, pcc).perms & perms == 0
  {
    ClearedWithin(sentry.perms, perms);
    ClearedAbsent(sentry.perms, perms);
  }

  /** An unsealed valid capability is its own key, so the result stays valid. */
  lemma ResealUnsealedStaysValid(sentry: Capability, perms: Perms, pcc: Capability)
    requires sentry.tag && !IsSealed(sentry)
    ensures ResealAndRemovePerms(sentry, perms, pcc).tag
  {
    ClearedWithin(sentry.perms, perms);
  }

  /** A sealed sentry is rebuilt from PCC, so it stays valid only within PCC. */
  lemma ResealSealedNeedsPcc(sentry: Capability, perms: Perms, pcc: Capability)
    requires IsSealed(sentry)
    requires ResealAndRemovePerms(sentry, perms, pcc).tag
    ensures pcc.tag && !IsSealed(pcc) && Covers(pcc, sentry.base, sentry.length)
  {
  }

  /** Whether create_cmpt strips PERM_SYS_REG from the target. */
  predicate StripsSysReg(flags: Option<CmptFlags>) {
    flags.Some? && !flags.value.pccSystemReg
  }

  /** impl->target as create_cmpt leaves it: possibly resealed without SYS_REG, always a sentry. */
  function TargetCap(target: Capability, flags: Option<CmptFlags>, pcc: Capability): (t: Capability)
    ensures IsSealed(t)
    ensures t.perms == if StripsSysReg(flags) then target.perms & !PERM_SYS_REG else target.perms
    ensures t.otype == if StripsSysReg(flags) || !IsSealed(target) then OTYPE_RB else target.otype
    ensures t.address == target.address && t.base == target.base && t.length == target.length
    ensures !StripsSysReg(flags) ==> t.tag == target.tag
  {
    var t1 := if StripsSysReg(flags) then ResealAndRemovePerms(target, PERM_SYS_REG, pcc) else target;
    if !IsSealed(t1) then SentryCreate(t1) else t1
  }

  // ---------------------------------------------------------------------
  // Stack

  /** The stack capability: bounded to the mapping, read-write, address at its limit. */
  function StackCap(m: Capability, sz: u64): (s: Capability)
    ensures s.base == m.address && s.length == sz && s.address == Wrap(m.address + sz)
    ensures s.perms == m.perms & RW_PERMS && s.otype == m.otype
    ensures s.tag == (m.tag && !IsSealed(m) && Covers(m, m.address, sz))
  {
    Add(PermsAnd(SetBounds(m, sz), RW_PERMS), sz)
  }

  /** The stack's address is its limit, so its offset is its length and its tail is empty. */
  lemma StackAtLimit(m: Capability, sz: u64)
    requires m.address + sz < WORD
    ensures Offset(StackCap(m, sz)) == sz
    ensures StackCap(m, sz).address == StackCap(m, sz).base + StackCap(m, sz).length
    ensures !Morello.InBounds(StackCap(m, sz)) && Morello.GetTail(StackCap(m, sz)) == 0
  {
  }

  /** The stack size: pgsz * pages as a size_t. */
  function StackSize(pgsz: u64, pages: nat): (sz: u64)
    ensures pgsz * pages < WORD ==> sz == pgsz * pages
    ensures sz <= pgsz * pages
  {
    Wrap(pgsz * pages)
  }

  /** _stack_allocate: map the pages and return the stack capability, or None. */
  method StackAllocate(pages: nat, pgsz: u64, outcome: Option<Capability>, mem: Memory.AddressSpace)
    returns (r: Option<Capability>)
    requires pages < 0x1_0000_0000
    requires outcome.Some? ==> mem.FreshRange(outcome.value.address, StackSize(pgsz, pages))
    modifies mem
    ensures r.None? <==> outcome.None?
    ensures r.Some? ==> r.value == StackCap(outcome.value, StackSize(pgsz, pages))
    ensures outcome.None? ==> mem.mappings == old(mem.mappings) && mem.cells == old(mem.cells)
    ensures outcome.Some? ==>
      && mem.mappings == old(mem.mappings)[outcome.value.address := Memory.Mapping(StackSize(pgsz, pages), StackProt, StackProt)]
      && mem.cells == Memory.Zeroed(old(mem.cells), outcome.value.address, StackSize(pgsz, pages))
  {
    var sz := StackSize(pgsz, pages);
    var m := mem.Map(outcome, sz, StackProt, StackProt);
    if m.None? {
      return None;
    }
    return Some(Add(PermsAnd(SetBounds(m.value, sz), RW_PERMS), sz));
  }

  const StackProt: set<Memory.ProtFlag> := {Memory.PROT_READ, Memory.PROT_WRITE}
  const DataProt: set<Memory.ProtFlag> := {Memory.PROT_READ, Memory.PROT_WRITE, Memory.PROT_CAP_INVOKE}
  const ExecProt: set<Memory.ProtFlag> := {Memory.PROT_READ, Memory.PROT_WRITE, Memory.PROT_CAP_INVOKE}
  const ExecMaxProt: set<Memory.ProtFlag> := {Memory.PROT_READ, Memory.PROT_WRITE, Memory.PROT_EXEC}
  const CodeProt: set<Memory.ProtFlag> := {Memory.PROT_READ, Memory.PROT_EXEC}

  /** The code page may be made executable: PROT_MAX of its mapping allows it. */
  lemma CodeMayExecute()
    ensures CodeProt <= ExecMaxProt
    ensures Memory.PROT_EXEC in CodeProt && Memory.PROT_WRITE !in CodeProt
  {
  }

  /** flags say the stack must not store local capabilities. */
  predicate ClearsStoreLocal(flags: Option<CmptFlags>) {
    flags.Some? && !flags.value.stackStoreLocal
  }

  /** flags say the stack must not load mutable capabilities. */
  predicate ClearsMutableLoad(flags: Option<CmptFlags>) {
    flags.Some? && !flags.value.stackMutableLoad
  }

  /** The permissions create_cmpt clears from the stack. */
  function StripMask(storeLocal: bool, mutableLoad: bool): Perms {
    (if storeLocal then PERM_STORE_LOCAL_CAP else 0) | (if mutableLoad then PERM_MUTABLE_LOAD else 0)
  }

  lemma ClearTwice(p: Perms, a: Perms, b: Perms)
    ensures (p & !a) & !b == p & !(a | b)
  {
  }

  lemma StripBoth(p: Perms)
    ensures (p & !PERM_STORE_LOCAL_CAP) & !PERM_MUTABLE_LOAD == p & !StripMask(true, true)
  {
    ClearTwice(p, PERM_STORE_LOCAL_CAP, PERM_MUTABLE_LOAD);
  }

  lemma StripStoreLocal(p: Perms)
    ensures p & !PERM_STORE_LOCAL_CAP == p & !StripMask(true, false)
  {
  }

  lemma StripMutableLoad(p: Perms)
    ensures p & !PERM_MUTABLE_LOAD == p & !StripMask(false, true)
  {
  }

  lemma StripNothing(p: Perms)
    ensures p == p & !StripMask(false, false)
  {
  }

  /** The stack stored in the record: the two optional permission clears of create_cmpt, in order. */
  function StripStack(stack: Capability, flags: Option<CmptFlags>): (s: Capability)
    ensures s.address == stack.address && s.base == stack.base && s.length == stack.length
    ensures s.otype == stack.otype
    ensures s.tag == (stack.tag && (!(ClearsStoreLocal(flags) || ClearsMutableLoad(flags)) || !IsSealed(stack)))
  {
    var s1 := if ClearsStoreLocal(flags) then PermsClear(stack, PERM_STORE_LOCAL_CAP) else stack;
    if ClearsMutableLoad(flags) then PermsClear(s1, PERM_MUTABLE_LOAD) else s1
  }

  lemma StripStackPermsBoth(stack: Capability, flags: Option<CmptFlags>)
    requires ClearsStoreLocal(flags) && ClearsMutableLoad(flags)
    ensures StripStack(stack, flags).perms == stack.perms & !StripMask(ClearsStoreLocal(flags), ClearsMutableLoad(flags))
  {
    var p := stack.perms;
    assert StripStack(stack, flags).perms == (p & !PERM_STORE_LOCAL_CAP) & !PERM_MUTABLE_LOAD;
    StripBoth(p);
    assert StripMask(ClearsStoreLocal(flags), ClearsMutableLoad(flags)) == StripMask(true, true);
  }

  lemma StripStackPermsStoreLocal(stack: Capability, flags: Option<CmptFlags>)
    requires ClearsStoreLocal(flags) && !ClearsMutableLoad(flags)
    ensures StripStack(stack, flags).perms == stack.perms & !StripMask(ClearsStoreLocal(flags), ClearsMutableLoad(flags))
  {
    var p := stack.perms;
    assert StripStack(stack, flags).perms == p & !PERM_STORE_LOCAL_CAP;
    StripStoreLocal(p);
    assert StripMask(ClearsStoreLocal(flags), ClearsMutableLoad(flags)) == StripMask(true, false);
  }

  lemma StripStackPermsMutableLoad(stack: Capability, flags: Option<CmptFlags>)
    requires !ClearsStoreLocal(flags) && ClearsMutableLoad(flags)
    ensures StripStack(stack, flags).perms == stack.perms & !StripMask(ClearsStoreLocal(flags), ClearsMutableLoad(flags))
  {
    var p := stack.perms;
    assert StripStack(stack, flags).perms == p & !PERM_MUTABLE_LOAD;
    StripMutableLoad(p);
    assert StripMask(ClearsStoreLocal(flags), ClearsMutableLoad(flags)) == StripMask(false, true);
  }

  lemma StripStackPermsNothing(stack: Capability, flags: Option<CmptFlags>)
    requires !ClearsStoreLocal(flags) && !ClearsMutableLoad(flags)
    ensures StripStack(stack, flags).perms == stack.perms & !StripMask(ClearsStoreLocal(flags), ClearsMutableLoad(flags))
  {
    var p := stack.perms;
    assert StripStack(stack, flags).perms == p;
    StripNothing(p);
    assert StripMask(ClearsStoreLocal(flags), ClearsMutableLoad(flags)) == StripMask(false, false);
  }

  /** The stack keeps exactly the permissions that are not cleared by the flags. */
  lemma StripStackPerms(stack: Capability, flags: Option<CmptFlags>)
    ensures StripStack(stack, flags).perms == stack.perms & !StripMask(ClearsStoreLocal(flags), ClearsMutableLoad(flags))
  {
    if ClearsStoreLocal(flags) && ClearsMutableLoad(flags) {
      StripStackPermsBoth(stack, flags);
    } else if ClearsStoreLocal(flags) {
      StripStackPermsStoreLocal(stack, flags);
    } else if ClearsMutableLoad(flags) {
      StripStackPermsMutableLoad(stack, flags);
    } else {
      StripStackPermsNothing(stack, flags);
    }
  }

  // ---------------------------------------------------------------------
  // The capabilities create_cmpt derives from the code and data pages

  /** impl: the record after the code, bounded to sizeof(cmpt_impl_t), read-write. */
  function ImplCap(code: Capability): (impl: Capability)
    ensures impl.address == Wrap(code.address + IMPL_OFFSET) && impl.base == impl.address
    ensures impl.length == IMPL_SIZE && impl.perms == code.perms & RW_PERMS
  {
    PermsAnd(SetBounds(Add(code, IMPL_OFFSET), IMPL_SIZE), RW_PERMS)
  }

  /** impl->data before sealing: the data page bounded to sizeof(cmpt_data_t), RW and CAP_INVOKE. */
  function DataRecordCap(data: Capability): (d: Capability)
    ensures d.address == data.address && d.base == data.address && d.length == DATA_SIZE
    ensures d.perms == data.perms & RWI_PERMS && d.otype == data.otype
    ensures d.tag == (data.tag && !IsSealed(data) && Covers(data, data.address, DATA_SIZE))
  {
    PermsAnd(SetBounds(data, DATA_SIZE), RWI_PERMS)
  }

  /** The code pointer for a trampoline label: C64 bit set, RX and CAP_INVOKE. */
  function LabelCap(code: Capability, labelOffset: nat): (c: Capability)
    ensures c.address == Wrap(code.address + labelOffset + 1)
    ensures c.base == code.base && c.length == code.length
    ensures c.perms == code.perms & RXI_PERMS && c.otype == code.otype
  {
    PermsAnd(Add(code, labelOffset + 1), RXI_PERMS)
  }

  /** The handle create_cmpt returns: code, record and one more slot, C64 bit set, RX, a sentry. */
  function Handle(code: Capability): (h: Capability)
    ensures h.otype == OTYPE_RB
    ensures h.base == code.address && h.length == HANDLE_SIZE && h.address == Wrap(code.address + 1)
    ensures h.perms == code.perms & RX_PERMS
    ensures h.tag == (code.tag && !IsSealed(code) && Covers(code, code.address, HANDLE_SIZE))
  {
    SentryCreate(PermsAnd(Add(SetBounds(code, HANDLE_SIZE), 1), RX_PERMS))
  }

  /** The handle covers the relocated trampoline and its record, and nothing past them. */
  lemma HandleCoversRecord(code: Capability)
    requires code.address + HANDLE_SIZE <= WORD
    ensures Handle(code).base + TRAMPOLINE_END <= Handle(code).base + IMPL_OFFSET
    ensures Covers(Handle(code), Wrap(code.address + IMPL_OFFSET), IMPL_SIZE)
    ensures Handle(code).base + Handle(code).length == code.address + IMPL_OFFSET + IMPL_SIZE + CAP_SIZE
  {
  }

  // ---------------------------------------------------------------------
  // The manager's globals

  /** Identity i handed out by a manager seeded with `seed`. */
  function IdentityAt(seed: u64, i: nat): u64 {
    Wrap(seed + i)
  }

  class CmptManager {
    /** __sealer */
    var sealer: Capability
    /** __cid: the next identity */
    var cid: Capability
    var errno: int
    /** The seed init_cmpt_manager was given, and the identities handed out since. */
    ghost var seed: u64
    ghost var issued: seq<u64>

    ghost predicate Valid()
      reads this
    {
      && cid.address == IdentityAt(seed, |issued|)
      && forall i :: 0 <= i < |issued| ==> issued[i] == IdentityAt(seed, i)
    }

    /** The static initialisers: both globals NULL. */
    constructor()
      ensures sealer == NULL && cid == NULL && errno == 0
      ensures seed == 0 && issued == []
      ensures Valid()
    {
      sealer := NULL;
      cid := NULL;
      errno := 0;
      seed := 0;
      issued := [];
    }

    /**
     * init_cmpt_manager: the sealer is the auxiliary sealing capability
     * cut down to PERM_SEAL; the identity capability starts at `seed`.
     */
    method Init(seed0: u64, sealRoot: Capability, cidRoot: Capability)
      modifies this
      ensures sealer == PermsAnd(sealRoot, PERM_SEAL)
      ensures cid == SetAddress(cidRoot, seed0) && cid.address == seed0
      ensures errno == old(errno)
      ensures seed == seed0 && issued == []
      ensures Valid()
    {
      sealer := PermsAnd(sealRoot, PERM_SEAL);
      cid := SetAddress(cidRoot, seed0);
      seed := seed0;
      issued := [];
    }

    /** The guard of create_cmpt: the sealer, and off glibc the identity, are valid. */
    predicate Initialised(glibc: bool)
      reads this
    {
      sealer.tag && (glibc || cid.tag)
    }

    /** `cheri_sentry_create(__cid++)`: the current identity as a sentry; the counter moves on. */
    method TakeIdentity() returns (id: Capability)
      requires Valid()
      modifies this
      ensures id == SentryCreate(old(cid))
      ensures cid == Add(old(cid), 1) && issued == old(issued) + [old(cid).address]
      ensures sealer == old(sealer) && seed == old(seed) && errno == old(errno)
      ensures Valid()
    {
      id := SentryCreate(cid);
      WrapSucc(seed + |issued|);
      issued := issued + [cid.address];
      cid := Add(cid, 1);
    }

    /**
     * The three BSP-sealed switch capabilities: impl->data, impl->entry and
     * impl->exit, each sealed with the identity held in impl->cid.
     */
    method SealSwitch(mem: Memory.AddressSpace, impl: u64, code: Capability, glibc: bool,
                      ghost id: Capability, ghost rec: Capability)
      requires impl + IMPL_SIZE <= WORD
      requires mem.Load(impl + IMPL_CID) == id && mem.Load(impl + IMPL_DATA) == rec
      modifies mem
      ensures mem.mappings == old(mem.mappings)
      ensures mem.cells == old(mem.cells)
        [impl + IMPL_DATA := BspSealCap(rec, id, sealer, glibc)]
        [impl + IMPL_ENTRY := BspSealCap(LabelCap(code, CMPT_START), id, sealer, glibc)]
        [impl + IMPL_EXIT := BspSealCap(LabelCap(code, CMPT_END), id, sealer, glibc)]
    {
      var data := mem.Load(impl + IMPL_DATA);
      var ident := mem.Load(impl + IMPL_CID);
      mem.Store(impl + IMPL_DATA, BspSealCap(data, ident, sealer, glibc));
      ident := mem.Load(impl + IMPL_CID);
      mem.Store(impl + IMPL_ENTRY, BspSealCap(LabelCap(code, CMPT_START), ident, sealer, glibc));
      ident := mem.Load(impl + IMPL_CID);
      mem.Store(impl + IMPL_EXIT, BspSealCap(LabelCap(code, CMPT_END), ident, sealer, glibc));
    }

    /**
     * create_cmpt. codeMap, dataMap and stackMap are what the three mmap
     * calls return (each is consulted only if the call is reached); the
     * kernel hands out fresh, pairwise disjoint ranges.
     */
    method CreateCmpt(target: Capability, stackPages: nat, flags: Option<CmptFlags>, glibc: bool,
                      pgsz: u64, pcc: Capability,
                      codeMap: Option<Capability>, dataMap: Option<Capability>, stackMap: Option<Capability>,
                      mem: Memory.AddressSpace)
      returns (handle: Option<Capability>)
      requires Valid()
      requires stackPages < 0x1_0000_0000
      requires HANDLE_SIZE <= pgsz
      requires codeMap.Some? ==> mem.FreshRange(codeMap.value.address, pgsz)
      requires dataMap.Some? ==> mem.FreshRange(dataMap.value.address, pgsz)
      requires stackMap.Some? ==> mem.FreshRange(stackMap.value.address, StackSize(pgsz, stackPages))
      requires codeMap.Some? && dataMap.Some? ==> Memory.Disjoint(codeMap.value.address, pgsz, dataMap.value.address, pgsz)
      requires codeMap.Some? && stackMap.Some? ==>
        Memory.Disjoint(codeMap.value.address, pgsz, stackMap.value.address, StackSize(pgsz, stackPages))
      requires dataMap.Some? && stackMap.Some? ==>
        Memory.Disjoint(dataMap.value.address, pgsz, stackMap.value.address, StackSize(pgsz, stackPages))
      modifies this, mem
      ensures Valid() && seed == old(seed) && sealer == old(sealer)
      // the guard
      ensures errno == if old(Initialised(glibc)) then old(errno) else EFAULT
      ensures !old(Initialised(glibc)) ==>
        handle.None? && cid == old(cid) && issued == old(issued)
        && mem.mappings == old(mem.mappings) && mem.cells == old(mem.cells)
      // the identity counter advances exactly when the code page was obtained
      ensures old(Initialised(glibc)) && codeMap.None? ==>
        handle.None? && cid == old(cid) && issued == old(issued) && mem.mappings == old(mem.mappings)
      ensures old(Initialised(glibc)) && codeMap.Some? ==>
        cid == Add(old(cid), 1) && issued == old(issued) + [old(cid).address]
      // nothing leaks when a later allocation fails
      ensures handle.None? ==> mem.mappings == old(mem.mappings)
      ensures handle.Some? <==> old(Initialised(glibc)) && codeMap.Some? && dataMap.Some? && stackMap.Some?
      // what a successful call leaves behind
      ensures handle.Some? ==>
        var code := SetBounds(codeMap.value, pgsz);
        var data := SetBounds(dataMap.value, pgsz);
        var sz := StackSize(pgsz, stackPages);
        && handle.value == Handle(code)
        && Built(mem.cells, code, data, StripStack(StackCap(stackMap.value, sz), flags),
                 SentryCreate(old(cid)), TargetCap(target, flags, pcc), sealer, glibc)
        && mem.mappings == old(mem.mappings)
             [code.address := Memory.Mapping(pgsz, CodeProt, ExecMaxProt)]
             [data.address := Memory.Mapping(pgsz, DataProt, DataProt)]
             [stackMap.value.address := Memory.Mapping(sz, StackProt, StackProt)]
    {
      if !sealer.tag || (!glibc && !cid.tag) {
        errno := EFAULT;
        return None;
      }
      ghost var m0: map<u64, Memory.Mapping> := mem.mappings;

      // _exec_allocate
      var codeMem := mem.Map(codeMap, pgsz, ExecProt, ExecMaxProt);
      if codeMem.None? {
        return None;
      }
      var code := SetBounds(codeMem.value, pgsz);
      ghost var sz := StackSize(pgsz, stackPages);
      ghost var codeMapping := Memory.Mapping(pgsz, ExecProt, ExecMaxProt);
      if dataMap.Some? {
        Memory.FreshAfterMap(m0, code.address, codeMapping, dataMap.value.address, pgsz);
      }
      if stackMap.Some? {
        Memory.FreshAfterMap(m0, code.address, codeMapping, stackMap.value.address, sz);
      }

      var cidSentry := TakeIdentity();
      handle := Populate(mem, code, cidSentry, target, flags, glibc, pgsz, pcc, dataMap, stackMap, stackPages);
      if handle.None? {
        Memory.MapThenUnmap(m0, code.address, codeMapping);
      } else {
        Memory.MapTwice(m0, code.address, codeMapping, codeMapping.(prot := CodeProt));
      }
    }

    /**
     * Everything create_cmpt does once it holds the code page and the
     * identity: the record, the data page, the stack, the runtime record,
     * the sealed switch capabilities, the final protection and the handle.
     * When the data page or the stack cannot be mapped, what was mapped is
     * unmapped again.
     */
    method Populate(mem: Memory.AddressSpace, code: Capability, cidSentry: Capability, target: Capability,
                    flags: Option<CmptFlags>, glibc: bool, pgsz: u64, pcc: Capability,
                    dataMap: Option<Capability>, stackMap: Option<Capability>, stackPages: nat)
      returns (handle: Option<Capability>)
      requires stackPages < 0x1_0000_0000
      requires HANDLE_SIZE <= pgsz && code.length == pgsz && code.address + pgsz <= WORD
      requires code.address in mem.mappings && mem.mappings[code.address] == Memory.Mapping(pgsz, ExecProt, ExecMaxProt)
      requires dataMap.Some? ==> mem.FreshRange(dataMap.value.address, pgsz)
      requires stackMap.Some? ==> mem.FreshRange(stackMap.value.address, StackSize(pgsz, stackPages))
      requires dataMap.Some? ==> Memory.Disjoint(code.address, pgsz, dataMap.value.address, pgsz)
      requires stackMap.Some? ==> Memory.Disjoint(code.address, pgsz, stackMap.value.address, StackSize(pgsz, stackPages))
      requires dataMap.Some? && stackMap.Some? ==>
        Memory.Disjoint(dataMap.value.address, pgsz, stackMap.value.address, StackSize(pgsz, stackPages))
      modifies mem
      ensures handle.Some? <==> dataMap.Some? && stackMap.Some?
      ensures handle.None? ==> mem.mappings == old(mem.mappings) - {code.address}
      ensures handle.Some? ==>
        var data := SetBounds(dataMap.value, pgsz);
        var sz := StackSize(pgsz, stackPages);
        && handle.value == Handle(code)
        && Built(mem.cells, code, data, StripStack(StackCap(stackMap.value, sz), flags),
                 cidSentry, TargetCap(target, flags, pcc), sealer, glibc)
        && mem.mappings == old(mem.mappings)
             [code.address := old(mem.mappings)[code.address].(prot := CodeProt)]
             [data.address := Memory.Mapping(pgsz, DataProt, DataProt)]
             [stackMap.value.address := Memory.Mapping(sz, StackProt, StackProt)]
    {
      // the record after the relocated code
      var impl := ImplCap(code);
      var i := impl.address;
      WriteHeader(mem, i, cidSentry, target, flags, pcc);
      ghost var g2: map<u64, Capability> := mem.cells;

      var data, stack := AllocateRecord(mem, code, i, pgsz, dataMap, stackMap, stackPages);
      if stack.None? {
        return None;
      }
      ghost var sz: u64 := StackSize(pgsz, stackPages);
      HeaderSurvives(g2, i, code.address, pgsz, data.value.address, stackMap.value.address, sz,
                     DataRecordCap(data.value), mem.cells);
      var h := Finish(mem, code, i, data.value, stack.value, flags, glibc, cidSentry, TargetCap(target, flags, pcc));
      ProtectFirst(old(mem.mappings), code.address, CodeProt, data.value.address, Memory.Mapping(pgsz, DataProt, DataProt),
                   stackMap.value.address, Memory.Mapping(sz, StackProt, StackProt));
      return Some(h);
    }

    /**
     * The end of create_cmpt: the runtime record written through
     * impl->data, the switch capabilities sealed with the identity, the code
     * made executable, and the handle.
     */
    method Finish(mem: Memory.AddressSpace, code: Capability, impl: u64, data: Capability, stack: Capability,
                  flags: Option<CmptFlags>, glibc: bool, ghost cidSentry: Capability, ghost target: Capability)
      returns (handle: Capability)
      requires code.address + HANDLE_SIZE <= WORD && impl == code.address + IMPL_OFFSET
      requires data.address + DATA_SIZE <= WORD && Memory.Disjoint(impl, IMPL_SIZE, data.address, DATA_SIZE)
      requires code.address in mem.mappings && mem.mappings[code.address].maxProt == ExecMaxProt
      requires mem.Load(impl + IMPL_CID) == cidSentry && mem.Load(impl + IMPL_TARGET) == target
      requires mem.Load(impl + IMPL_DATA) == DataRecordCap(data)
      modifies mem
      ensures handle == Handle(code)
      ensures Built(mem.cells, code, data, StripStack(stack, flags), cidSentry, target, sealer, glibc)
      ensures mem.mappings == old(mem.mappings)[code.address := old(mem.mappings)[code.address].(prot := CodeProt)]
    {
      // the runtime record, written through impl->data
      ghost var g5: map<u64, Capability> := mem.cells;
      var rec := mem.Load(impl + IMPL_DATA);
      WriteDataRecord(mem, rec.address, stack, flags);
      RecordLeavesHeader(g5, mem.cells, impl, data, StripStack(stack, flags));
      handle := SealAndProtect(mem, code, impl, data, glibc, cidSentry, target, StripStack(stack, flags));
    }

    /**
     * Seals entry, data and exit with the identity, then turns the code
     * page from read-write into read-execute.
     */
    method SealAndProtect(mem: Memory.AddressSpace, code: Capability, impl: u64, data: Capability, glibc: bool,
                          ghost cidSentry: Capability, ghost target: Capability, ghost stack: Capability)
      returns (handle: Capability)
      requires code.address + HANDLE_SIZE <= WORD && impl == code.address + IMPL_OFFSET
      requires data.address + DATA_SIZE <= WORD && Memory.Disjoint(impl, IMPL_SIZE, data.address, DATA_SIZE)
      requires code.address in mem.mappings && mem.mappings[code.address].maxProt == ExecMaxProt
      requires mem.Load(impl + IMPL_CID) == cidSentry && mem.Load(impl + IMPL_TARGET) == target
      requires mem.Load(impl + IMPL_DATA) == DataRecordCap(data)
      requires DataBuilt(mem.cells, data, stack)
      modifies mem
      ensures handle == Handle(code)
      ensures Built(mem.cells, code, data, stack, cidSentry, target, sealer, glibc)
      ensures mem.mappings == old(mem.mappings)[code.address := old(mem.mappings)[code.address].(prot := CodeProt)]
    {
      ghost var g6: map<u64, Capability> := mem.cells;
      SealSwitch(mem, impl, code, glibc, cidSentry, DataRecordCap(data));
      RecordAfterSealing(g6, mem.cells, code, data, cidSentry, target, sealer, glibc);
      DataAfterSealing(g6, mem.cells, impl, data, stack,
                       BspSealCap(DataRecordCap(data), cidSentry, sealer, glibc),
                       BspSealCap(LabelCap(code, CMPT_START), cidSentry, sealer, glibc),
                       BspSealCap(LabelCap(code, CMPT_END), cidSentry, sealer, glibc));

      // RW -> RX
      CodeMayExecute();
      mem.Protect(code.address, CodeProt);

      return SentryCreate(PermsAnd(Add(SetBounds(code, HANDLE_SIZE), 1), RX_PERMS));
    }
  }

  /** Re-protecting the code page after mapping the data page and stack is the same as doing it first. */
  lemma ProtectFirst(m: map<u64, Memory.Mapping>, c: u64, prot: set<Memory.ProtFlag>,
                     d: u64, dm: Memory.Mapping, s: u64, sm: Memory.Mapping)
    requires c in m && c != d && c != s
    ensures m[d := dm][s := sm][c := m[c].(prot := prot)] == m[c := m[c].(prot := prot)][d := dm][s := sm]
  {
  }

  /**
   * The data page and the stack, with impl->data stored in between; on a
   * failed mapping, what was mapped, the code page included, is unmapped.
   */
  method AllocateRecord(mem: Memory.AddressSpace, code: Capability, impl: u64, pgsz: u64,
                        dataMap: Option<Capability>, stackMap: Option<Capability>, stackPages: nat)
    returns (data: Option<Capability>, stack: Option<Capability>)
    requires stackPages < 0x1_0000_0000
    requires impl + IMPL_SIZE <= WORD && code.length == pgsz
    requires code.address in mem.mappings && mem.mappings[code.address].size == pgsz
    requires dataMap.Some? ==> mem.FreshRange(dataMap.value.address, pgsz)
    requires stackMap.Some? ==> mem.FreshRange(stackMap.value.address, StackSize(pgsz, stackPages))
    requires dataMap.Some? && stackMap.Some? ==>
      Memory.Disjoint(dataMap.value.address, pgsz, stackMap.value.address, StackSize(pgsz, stackPages))
    modifies mem
    ensures stack.Some? <==> dataMap.Some? && stackMap.Some?
    ensures stack.None? ==> mem.mappings == old(mem.mappings) - {code.address}
    ensures stack.Some? ==>
      var sz := StackSize(pgsz, stackPages);
      && data == Some(SetBounds(dataMap.value, pgsz))
      && stack.value == StackCap(stackMap.value, sz)
      && mem.mappings == old(mem.mappings)
           [dataMap.value.address := Memory.Mapping(pgsz, DataProt, DataProt)]
           [stackMap.value.address := Memory.Mapping(sz, StackProt, StackProt)]
      && var i: u64 := impl + IMPL_DATA;
         mem.cells == Memory.Zeroed(Memory.Zeroed(old(mem.cells), dataMap.value.address, pgsz)
                        [i := DataRecordCap(data.value)], stackMap.value.address, sz)
  {
    ghost var m1: map<u64, Memory.Mapping> := mem.mappings;
    ghost var c: u64 := code.address;

    // _data_allocate
    var dataMem := mem.Map(dataMap, pgsz, DataProt, DataProt);
    if dataMem.None? {
      mem.Unmap(code.address, code.length);
      return None, None;
    }
    data := Some(SetBounds(dataMem.value, pgsz));
    ghost var d: u64 := data.value.address;
    mem.Store(impl + IMPL_DATA, DataRecordCap(data.value));
    ghost var m2: map<u64, Memory.Mapping> := mem.mappings;

    ghost var sz: u64 := StackSize(pgsz, stackPages);
    if stackMap.Some? {
      Memory.FreshAfterMap(m1, d, Memory.Mapping(pgsz, DataProt, DataProt), stackMap.value.address, sz);
    }
    stack := StackAllocate(stackPages, pgsz, stackMap, mem);
    if stack.None? {
      mem.Unmap(code.address, code.length);
      mem.Unmap(data.value.address, data.value.length);
      assert m2 - {c} - {d} == m1 - {c};
      return;
    }
  }

  /** Writing the runtime record in the data page leaves the record in the code page alone. */
  lemma RecordLeavesHeader(g5: map<u64, Capability>, g6: map<u64, Capability>, i: u64, data: Capability, st: Capability)
    requires i + IMPL_SIZE <= WORD && data.address + DATA_SIZE <= WORD
    requires Memory.Disjoint(i, IMPL_SIZE, data.address, DATA_SIZE)
    requires g6 == g5[data.address + DATA_STACK := st][data.address + DATA_CID := NULL]
    ensures Memory.LoadFrom(g6, i + IMPL_CID) == Memory.LoadFrom(g5, i + IMPL_CID)
    ensures Memory.LoadFrom(g6, i + IMPL_TARGET) == Memory.LoadFrom(g5, i + IMPL_TARGET)
    ensures Memory.LoadFrom(g6, i + IMPL_DATA) == Memory.LoadFrom(g5, i + IMPL_DATA)
    ensures DataBuilt(g6, data, st)
  {
  }

  /** Sealing the switch capabilities completes the record create_cmpt promises. */
  lemma RecordAfterSealing(g6: map<u64, Capability>, g7: map<u64, Capability>, code: Capability, data: Capability,
                           cidSentry: Capability, target: Capability, sealer: Capability, glibc: bool)
    requires code.address + HANDLE_SIZE <= WORD
    requires var i: u64 := code.address + IMPL_OFFSET;
      && Memory.LoadFrom(g6, i + IMPL_CID) == cidSentry
      && Memory.LoadFrom(g6, i + IMPL_TARGET) == target
    requires var i: u64 := code.address + IMPL_OFFSET;
      g7 == g6[i + IMPL_DATA := BspSealCap(DataRecordCap(data), cidSentry, sealer, glibc)]
              [i + IMPL_ENTRY := BspSealCap(LabelCap(code, CMPT_START), cidSentry, sealer, glibc)]
              [i + IMPL_EXIT := BspSealCap(LabelCap(code, CMPT_END), cidSentry, sealer, glibc)]
    ensures RecordBuilt(g7, code, data, cidSentry, target, sealer, glibc)
  {
  }

  /** Sealing the switch capabilities leaves the runtime record alone. */
  lemma DataAfterSealing(g6: map<u64, Capability>, g7: map<u64, Capability>, i: u64, data: Capability,
                         stack: Capability, dr: Capability, e: Capability, x: Capability)
    requires i + IMPL_SIZE <= WORD && data.address + DATA_SIZE <= WORD
    requires Memory.Disjoint(i, IMPL_SIZE, data.address, DATA_SIZE)
    requires DataBuilt(g6, data, stack)
    requires g7 == g6[i + IMPL_DATA := dr][i + IMPL_ENTRY := e][i + IMPL_EXIT := x]
    ensures DataBuilt(g7, data, stack)
  {
  }

  /**
   * The memory a successful create_cmpt leaves behind: the record after
   * the code holds the identity sentry, the target sentry and the three
   * BSP-sealed switch capabilities; the runtime record holds the stack and
   * an empty slot for the caller's identity.
   */
  ghost predicate Built(cells: map<u64, Capability>, code: Capability, data: Capability, stack: Capability,
                        cidSentry: Capability, target: Capability, sealer: Capability, glibc: bool)
    requires code.address + HANDLE_SIZE <= WORD && data.address + DATA_SIZE <= WORD
  {
    RecordBuilt(cells, code, data, cidSentry, target, sealer, glibc) && DataBuilt(cells, data, stack)
  }

  /** The record after the relocated code, as create_cmpt leaves it. */
  ghost predicate RecordBuilt(cells: map<u64, Capability>, code: Capability, data: Capability,
                              cidSentry: Capability, target: Capability, sealer: Capability, glibc: bool)
    requires code.address + HANDLE_SIZE <= WORD
  {
    var impl := code.address + IMPL_OFFSET;
    && Memory.LoadFrom(cells, impl + IMPL_CID) == cidSentry
    && Memory.LoadFrom(cells, impl + IMPL_TARGET) == target
    && Memory.LoadFrom(cells, impl + IMPL_ENTRY) == BspSealCap(LabelCap(code, CMPT_START), cidSentry, sealer, glibc)
    && Memory.LoadFrom(cells, impl + IMPL_DATA) == BspSealCap(DataRecordCap(data), cidSentry, sealer, glibc)
    && Memory.LoadFrom(cells, impl + IMPL_EXIT) == BspSealCap(LabelCap(code, CMPT_END), cidSentry, sealer, glibc)
  }

  /** The runtime record in the data page: the stack, and no caller identity yet. */
  ghost predicate DataBuilt(cells: map<u64, Capability>, data: Capability, stack: Capability)
    requires data.address + DATA_SIZE <= WORD
  {
    && Memory.LoadFrom(cells, data.address + DATA_STACK) == stack
    && Memory.LoadFrom(cells, data.address + DATA_CID) == NULL
  }

  /**
   * The record in the code page survives the data and stack mappings,
   * which do not overlap it.
   */
  lemma HeaderSurvives(g2: map<u64, Capability>, i: u64, c: u64, pgsz: u64, d: u64, s: u64, sz: u64,
                       dr: Capability, g5: map<u64, Capability>)
    requires HANDLE_SIZE <= pgsz && c + pgsz <= WORD && i == c + IMPL_OFFSET
    requires Memory.Disjoint(c, pgsz, d, pgsz) && Memory.Disjoint(c, pgsz, s, sz)
    requires g5 == Memory.Zeroed(Memory.Zeroed(g2, d, pgsz)[i + IMPL_DATA := dr], s, sz)
    ensures Memory.LoadFrom(g5, i + IMPL_CID) == Memory.LoadFrom(g2, i + IMPL_CID)
    ensures Memory.LoadFrom(g5, i + IMPL_TARGET) == Memory.LoadFrom(g2, i + IMPL_TARGET)
    ensures Memory.LoadFrom(g5, i + IMPL_DATA) == dr
  {
    var g4 := Memory.Zeroed(g2, d, pgsz)[i + IMPL_DATA := dr];
    Memory.LoadZeroed(g2, d, pgsz, i + IMPL_CID);
    Memory.LoadZeroed(g2, d, pgsz, i + IMPL_TARGET);
    Memory.LoadZeroed(g4, s, sz, i + IMPL_CID);
    Memory.LoadZeroed(g4, s, sz, i + IMPL_TARGET);
    Memory.LoadZeroed(g4, s, sz, i + IMPL_DATA);
  }

  /** The record's identity and target slots: `impl->cid`, then `impl->target` with its two rewrites. */
  method WriteHeader(mem: Memory.AddressSpace, impl: u64, id: Capability, target: Capability,
                     flags: Option<CmptFlags>, pcc: Capability)
    requires impl + IMPL_SIZE <= WORD
    modifies mem
    ensures mem.mappings == old(mem.mappings)
    ensures mem.cells == old(mem.cells)[impl + IMPL_CID := id][impl + IMPL_TARGET := TargetCap(target, flags, pcc)]
  {
    mem.Store(impl + IMPL_CID, id);
    mem.Store(impl + IMPL_TARGET, target);
    if StripsSysReg(flags) {
      var t := mem.Load(impl + IMPL_TARGET);
      mem.Store(impl + IMPL_TARGET, ResealAndRemovePerms(t, PERM_SYS_REG, pcc));
    }
    var t := mem.Load(impl + IMPL_TARGET);
    if !IsSealed(t) {
      mem.Store(impl + IMPL_TARGET, SentryCreate(t));
    }
  }

  /** The runtime record: `data->stack` and `data->cid`, then the two optional clears of the stack. */
  method WriteDataRecord(mem: Memory.AddressSpace, rec: u64, stack: Capability, flags: Option<CmptFlags>)
    requires rec + DATA_SIZE <= WORD
    modifies mem
    ensures mem.mappings == old(mem.mappings)
    ensures var st: u64, id: u64 := rec + DATA_STACK, rec + DATA_CID;
      mem.cells == old(mem.cells)[st := StripStack(stack, flags)][id := NULL]
  {
    ghost var g: map<u64, Capability> := mem.cells;
    var st: u64, id: u64 := rec + DATA_STACK, rec + DATA_CID;
    mem.Store(st, stack);
    mem.Store(id, NULL);
    ghost var s1 := stack;
    if ClearsStoreLocal(flags) {
      s1 := PermsClear(stack, PERM_STORE_LOCAL_CAP);
      ClearStackPerm(mem, st, PERM_STORE_LOCAL_CAP);
      Overwrite(g, st, id, stack, NULL, s1);
    }
    ghost var s2 := s1;
    if ClearsMutableLoad(flags) {
      s2 := PermsClear(s1, PERM_MUTABLE_LOAD);
      ClearStackPerm(mem, st, PERM_MUTABLE_LOAD);
      Overwrite(g, st, id, s1, NULL, s2);
    }
  }

  /** Storing to a slot again replaces the earlier store. */
  lemma Overwrite(g: map<u64, Capability>, a: u64, b: u64, x: Capability, y: Capability, z: Capability)
    requires a != b
    ensures g[a := x][b := y][a := z] == g[a := z][b := y]
  {
  }

  /** `data->stack = cheri_perms_clear(data->stack, m)`. */
  method ClearStackPerm(mem: Memory.AddressSpace, st: u64, m: Perms)
    modifies mem
    ensures mem.mappings == old(mem.mappings)
    ensures mem.cells == old(mem.cells)[st := PermsClear(old(mem.Load(st)), m)]
  {
    var cleared := PermsClear(mem.Load(st), m);
    mem.Store(st, cleared);
  }

  /** Incrementing a wrapped counter is the same as wrapping the incremented one. */
  lemma WrapSucc(x: int)
    requires 0 <= x
    ensures Wrap(Wrap(x) + 1) == Wrap(x + 1)
  {
    var q, r := x / WORD, x % WORD;
    assert x == q * WORD + r;
    if r + 1 < WORD {
      assert x + 1 == q * WORD + (r + 1);
    } else {
      assert x + 1 == (q + 1) * WORD;
    }
  }

  // ---------------------------------------------------------------------
  // Identities

  lemma WrapDistinct(x: int, d: int)
    requires 0 < d < WORD
    ensures Wrap(x) != Wrap(x + d)
  {
  }

  /** Fewer than 2^64 compartments never share an identity. */
  lemma IdentitiesDistinct(seed: u64, i: nat, j: nat)
    requires i < j < WORD
    ensures IdentityAt(seed, i) != IdentityAt(seed, j)
  {
    WrapDistinct(seed + i, j - i);
  }

  /** Until the counter passes 2^64 - 1, identities increase strictly. */
  lemma IdentitiesIncrease(seed: u64, i: nat, j: nat)
    requires i < j && seed + j < WORD
    ensures IdentityAt(seed, i) < IdentityAt(seed, j)
  {
  }

  /** Every identity a valid manager has handed out is distinct from every other, and from the next one. */
  lemma IssuedDistinct(m: CmptManager)
    requires m.Valid() && |m.issued| < WORD
    ensures forall i, j :: 0 <= i < j < |m.issued| ==> m.issued[i] != m.issued[j]
    ensures forall i :: 0 <= i < |m.issued| ==> m.issued[i] != m.cid.address
  {
    forall i, j | 0 <= i < j < |m.issued|
      ensures m.issued[i] != m.issued[j]
    {
      IdentitiesDistinct(m.seed, i, j);
    }
    forall i | 0 <= i < |m.issued|
      ensures m.issued[i] != m.cid.address
    {
      IdentitiesDistinct(m.seed, i, |m.issued|);
    }
  }
}
