/**
 * An abstract Morello capability and the cheriintrin.h primitives the
 * compartment manager uses. A capability is a value: tag, 64-bit address,
 * bounds, a permission word and an object type (0 = unsealed).
 *
 * Every primitive that changes a sealed capability clears its tag, as the
 * architecture does; representability rounding of bounds is not modelled.
 */
module Cheri {

  /** 2^64: addresses and sizes are size_t values. */
  const WORD: int := 0x1_0000_0000_0000_0000

  type u64 = x: int | 0 <= x < 0x1_0000_0000_0000_0000

  /** size_t arithmetic: wrap modulo 2^64. */
  function Wrap(x: int): (r: u64)
    ensures 0 <= x < WORD ==> r == x
  {
    x % WORD
  }

  /** The 15-bit object type field; 0 means unsealed. */
  type ObjectType = x: int | 0 <= x < 0x8000

  const OTYPE_UNSEALED: ObjectType := 0
  const OTYPE_RB: ObjectType := 1    // sentry ("return branch")
  const OTYPE_LPB: ObjectType := 2   // load pair and branch
  const OTYPE_LB: ObjectType := 3    // load and branch

  /** A permission word; each permission is one distinct bit. */
  type Perms = bv64

  const PERM_GLOBAL: Perms := 1 << 0
  const PERM_EXECUTIVE: Perms := 1 << 1
  const PERM_VMEM: Perms := 1 << 2
  const PERM_USER_1: Perms := 1 << 3
  const PERM_USER_2: Perms := 1 << 4
  const PERM_USER_3: Perms := 1 << 5
  const PERM_MUTABLE_LOAD: Perms := 1 << 6
  const PERM_CMPT_ID: Perms := 1 << 7
  const PERM_CAP_INVOKE: Perms := 1 << 8
  const PERM_SYS_REG: Perms := 1 << 9
  const PERM_UNSEAL: Perms := 1 << 10
  const PERM_SEAL: Perms := 1 << 11
  const PERM_STORE_LOCAL_CAP: Perms := 1 << 12
  const PERM_STORE_CAP: Perms := 1 << 13
  const PERM_LOAD_CAP: Perms := 1 << 14
  const PERM_EXECUTE: Perms := 1 << 15
  const PERM_STORE: Perms := 1 << 16
  const PERM_LOAD: Perms := 1 << 17

  /** Permission groups (perms.h is not part of this model; these are its assumed definitions). */
  const READ_CAP_PERMS: Perms := PERM_LOAD | PERM_LOAD_CAP | PERM_MUTABLE_LOAD
  const WRITE_CAP_PERMS: Perms := PERM_STORE | PERM_STORE_CAP | PERM_STORE_LOCAL_CAP
  const EXEC_CAP_PERMS: Perms := PERM_EXECUTE | PERM_EXECUTIVE

  /**
   * length is the value cheri_length_get reports (saturated to a size_t),
   * so the NULL capability, whose bounds cover the whole address space,
   * reports 2^64 - 1.
   */
  datatype Capability = Capability(
    tag: bool,
    address: u64,
    base: u64,
    length: u64,
    perms: Perms,
    otype: ObjectType)

  /** NULL, and what `mov wN, #0` leaves in a capability register. */
  const NULL: Capability := Capability(false, 0, 0, WORD - 1, 0, OTYPE_UNSEALED)

  predicate IsSealed(c: Capability) {
    c.otype != OTYPE_UNSEALED
  }

  /** The permission bits of mask m are all present in c. */
  predicate HasPerms(c: Capability, m: Perms) {
    c.perms & m == m
  }

  /** cheri_address_set. */
  function SetAddress(c: Capability, a: u64): (r: Capability)
    ensures r.address == a && r.base == c.base && r.length == c.length
    ensures r.perms == c.perms && r.otype == c.otype
    ensures r.tag == (c.tag && !IsSealed(c))
  {
    c.(address := a, tag := c.tag && !IsSealed(c))
  }

  /** Pointer arithmetic `c + n` on a capability. */
  function Add(c: Capability, n: int): (r: Capability)
    ensures r.address == Wrap(c.address + n) && r.base == c.base && r.length == c.length
    ensures r.perms == c.perms && r.otype == c.otype
    ensures r.tag == (c.tag && !IsSealed(c))
  {
    SetAddress(c, Wrap(c.address + n))
  }

  /** cheri_offset_get: address - base as a size_t. */
  function Offset(c: Capability): (r: u64)
    ensures c.base <= c.address ==> r == c.address - c.base
    ensures c.address < c.base ==> r == WORD - (c.base - c.address)
  {
    Wrap(c.address - c.base)
  }

  /** cheri_offset_set. */
  function SetOffset(c: Capability, off: u64): (r: Capability)
    ensures r.address == Wrap(c.base + off) && r.base == c.base && r.length == c.length
    ensures r.perms == c.perms && r.otype == c.otype
  {
    SetAddress(c, Wrap(c.base + off))
  }

  /** cheri_perms_and. */
  function PermsAnd(c: Capability, m: Perms): (r: Capability)
    ensures r.perms == c.perms & m
    ensures r.address == c.address && r.base == c.base && r.length == c.length && r.otype == c.otype
    ensures r.tag == (c.tag && !IsSealed(c))
  {
    c.(perms := c.perms & m, tag := c.tag && !IsSealed(c))
  }

  /** cheri_perms_clear. */
  function PermsClear(c: Capability, m: Perms): (r: Capability)
    ensures r.perms == c.perms & !m
    ensures r.address == c.address && r.base == c.base && r.length == c.length && r.otype == c.otype
    ensures r.tag == (c.tag && !IsSealed(c))
  {
    PermsAnd(c, !m)
  }

  /** The range [b, b + n) lies within c's bounds. */
  predicate Covers(c: Capability, b: u64, n: u64) {
    c.base <= b && b + n <= c.base + c.length
  }

  /**
   * cheri_bounds_set and cheri_bounds_set_exact: the new bounds start at
   * the address and span n bytes; the tag survives only for an unsealed
   * capability whose old bounds cover the new ones.
   */
  function SetBounds(c: Capability, n: u64): (r: Capability)
    ensures r.base == c.address && r.length == n && r.address == c.address
    ensures r.perms == c.perms && r.otype == c.otype
    ensures r.tag == (c.tag && !IsSealed(c) && Covers(c, c.address, n))
  {
    c.(base := c.address, length := n, tag := c.tag && !IsSealed(c) && Covers(c, c.address, n))
  }

  /** The key may seal with the object type held in its address. */
  predicate SealingKeyValid(key: Capability) {
    key.tag && !IsSealed(key) && HasPerms(key, PERM_SEAL)
    && key.base <= key.address < key.base + key.length
    && key.address < 0x8000
  }

  /** cheri_seal: the object type becomes the key's address. */
  function Seal(c: Capability, key: Capability): (r: Capability)
    ensures r.otype == key.address % 0x8000
    ensures r.address == c.address && r.base == c.base && r.length == c.length && r.perms == c.perms
    ensures r.tag == (c.tag && !IsSealed(c) && SealingKeyValid(key))
  {
    c.(otype := key.address % 0x8000, tag := c.tag && !IsSealed(c) && SealingKeyValid(key))
  }

  /** Sealing with one of the reserved types (`seal cd, cn, rb|lpb|lb`). */
  function SealReserved(c: Capability, t: ObjectType): (r: Capability)
    requires t == OTYPE_RB || t == OTYPE_LPB || t == OTYPE_LB
    ensures r.otype == t && IsSealed(r)
    ensures r.address == c.address && r.base == c.base && r.length == c.length && r.perms == c.perms
    ensures r.tag == (c.tag && !IsSealed(c))
  {
    c.(otype := t, tag := c.tag && !IsSealed(c))
  }

  /** cheri_sentry_create. */
  function SentryCreate(c: Capability): (r: Capability)
    ensures r.otype == OTYPE_RB && r.tag == (c.tag && !IsSealed(c))
    ensures r.address == c.address && r.base == c.base && r.length == c.length && r.perms == c.perms
  {
    SealReserved(c, OTYPE_RB)
  }

  /** The unsealing half of a branch through a sealed capability. */
  function Unseal(c: Capability): (r: Capability)
    ensures !IsSealed(r) && r.tag == c.tag
    ensures r.address == c.address && r.base == c.base && r.length == c.length && r.perms == c.perms
  {
    c.(otype := OTYPE_UNSEALED)
  }

  /** cheri_tag_clear. */
  function TagClear(c: Capability): (r: Capability)
    ensures !r.tag && r.(tag := c.tag) == c
  {
    c.(tag := false)
  }

  /**
   * cheri_cap_build: the bits of `bits`, unsealed, tagged again when they
   * are derivable from the unsealed tagged key.
   */
  function Build(key: Capability, bits: Capability): (r: Capability)
    ensures !IsSealed(r)
    ensures r.address == bits.address && r.base == bits.base && r.length == bits.length && r.perms == bits.perms
    ensures r.tag == Derivable(key, bits)
  {
    bits.(otype := OTYPE_UNSEALED, tag := Derivable(key, bits))
  }

  /** bits lie within the bounds and permissions of the valid, unsealed key. */
  predicate Derivable(key: Capability, bits: Capability) {
    key.tag && !IsSealed(key) && Covers(key, bits.base, bits.length) && bits.perms & !key.perms == 0
  }

  /** cheri_align_up(x, 16) and `alignu ..., #4`: round up to a multiple of 16. */
  function AlignUp16(x: u64): (r: u64)
    ensures x + 15 < WORD ==> r % 16 == 0 && x <= r < x + 16
  {
    Wrap((x + 15) / 16 * 16)
  }
}
