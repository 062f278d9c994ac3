/**
 * The capability predicates of util/morello.c and the inline helpers of
 * util/morello.h.
 */
module Morello {
  import opened Cheri

  /**
   * `cap == NULL && cheri_tag_get(cap) == 0`: CHERI C compares pointers
   * by address, so this is an untagged capability with address 0.
   */
  predicate IsNullPointer(c: Capability) {
    c.address == 0 && !c.tag
  }

  /** cheri_length_get_zero: the length, reported as 0 for NULL. */
  function LengthGetZero(c: Capability): (n: u64)
    ensures n <= c.length
    ensures n == 0 <==> IsNullPointer(c) || c.length == 0
    ensures n != 0 ==> n == c.length
  {
    if IsNullPointer(c) then 0 else c.length
  }

  /** The limit as cheri_get_tail computes it: length_get_zero(cap) + base, as a size_t. */
  function TailLimit(c: Capability): u64 {
    Wrap(LengthGetZero(c) + c.base)
  }

  /** cheri_get_limit: the capability moved to base + length_get_zero(cap). */
  function GetLimit(c: Capability): (r: Capability)
    ensures r.address == Wrap(c.base + LengthGetZero(c))
    ensures r.base == c.base && r.length == c.length && r.perms == c.perms && r.otype == c.otype
    ensures r.tag == (c.tag && !IsSealed(c))
  {
    Add(SetAddress(c, c.base), LengthGetZero(c))
  }

  /** cheri_get_tail: bytes from the address to the limit, 0 when out of bounds. */
  function GetTail(c: Capability): (t: u64)
    ensures t <= LengthGetZero(c)
    ensures t != 0 <==> c.base <= c.address < TailLimit(c)
    ensures t != 0 ==> c.address + t == TailLimit(c)
  {
    var address := c.address;
    var base := c.base;
    var limit := TailLimit(c);
    if base <= address && address < limit then limit - address else 0
  }

  /** cheri_in_bounds: base <= address < base + length, the sum taken as a size_t. */
  function InBounds(c: Capability): (b: bool)
    ensures c.base + c.length < WORD ==> (b <==> c.base <= c.address < c.base + c.length)
    ensures c.length == 0 ==> !b
    ensures b ==> c.address < c.base + c.length
  {
    c.base <= c.address && c.address < Wrap(c.base + c.length)
  }

  /** cheri_is_deref: tagged, in bounds and unsealed. */
  function IsDeref(c: Capability): (d: bool)
    ensures d ==> InBounds(c) && c.tag && !IsSealed(c)
    ensures !c.tag || IsSealed(c) || !InBounds(c) ==> !d
  {
    c.tag && InBounds(c) && !IsSealed(c)
  }

  /** cheri_check_perms: `(perms | ~p) == ~0`. */
  function CheckPerms(c: Capability, p: Perms): (b: bool)
    ensures b <==> HasPerms(c, p)
  {
    var ok := (c.perms | !p) == !0;
    CheckAgrees(c.perms, p, ok);
    ok
  }

  /** cheri_is_local: the GLOBAL permission is absent. */
  function IsLocal(c: Capability): (b: bool)
    ensures b <==> !HasPerms(c, PERM_GLOBAL)
  {
    !CheckPerms(c, PERM_GLOBAL)
  }

  /** morello_lpb_sentry_create: `seal cd, cn, lpb`. */
  function LpbSentryCreate(c: Capability): (r: Capability)
    ensures r.otype == OTYPE_LPB && r.tag == (c.tag && !IsSealed(c))
    ensures r.address == c.address && r.base == c.base && r.length == c.length && r.perms == c.perms
  {
    SealReserved(c, OTYPE_LPB)
  }

  /** morello_lb_sentry_create: `seal cd, cn, lb`. */
  function LbSentryCreate(c: Capability): (r: Capability)
    ensures r.otype == OTYPE_LB && r.tag == (c.tag && !IsSealed(c))
    ensures r.address == c.address && r.base == c.base && r.length == c.length && r.perms == c.perms
  {
    SealReserved(c, OTYPE_LB)
  }

  // ---------------------------------------------------------------------
  // Properties

  /** NULL reports the saturated length, yet length_get_zero gives 0 for it. */
  lemma NullLengthIsZero()
    ensures NULL.length == WORD - 1
    ensures LengthGetZero(NULL) == 0
  {
  }

  /** The tail is the distance from the address to cheri_get_limit's address. */
  lemma TailIsDistanceToLimit(c: Capability)
    requires c.base <= c.address < c.base + LengthGetZero(c) < WORD
    ensures GetTail(c) == GetLimit(c).address - c.address
    ensures 0 < GetTail(c) <= LengthGetZero(c)
  {
  }

  /** A dereferenceable capability is in bounds, and an empty one never is. */
  lemma DerefImpliesInBounds(c: Capability)
    ensures IsDeref(c) ==> c.base <= c.address < c.base + c.length
    ensures c.length == 0 ==> !IsDeref(c)
  {
  }

  /** The complement test and the mask test agree on every pair of masks. */
  lemma CheckAgrees(x: Perms, p: Perms, ok: bool)
    requires ok == ((x | !p) == !0)
    ensures ok <==> x & p == p
  {
    if ok {
      BitsOfCheck(x, p);
    } else if x & p == p {
      CheckOfBits(x, p);
    }
  }

  lemma BitsOfCheck(x: Perms, p: Perms)
    requires (x | !p) == !0
    ensures x & p == p
  {
  }

  lemma CheckOfBits(x: Perms, p: Perms)
    requires x & p == p
    ensures (x | !p) == !0
  {
  }

  lemma CheckedPermsPresent(c: Capability, p: Perms)
    requires CheckPerms(c, p)
    ensures HasPerms(c, p)
  {
    BitsOfCheck(c.perms, p);
  }

  lemma PresentPermsChecked(c: Capability, p: Perms)
    requires HasPerms(c, p)
    ensures CheckPerms(c, p)
  {
    CheckOfBits(c.perms, p);
  }

  /** The check holds iff every bit of p is set in the capability's permissions. */
  lemma CheckPermsMeaning(c: Capability, p: Perms)
    ensures CheckPerms(c, p) <==> HasPerms(c, p)
  {
    if CheckPerms(c, p) {
      CheckedPermsPresent(c, p);
    } else if HasPerms(c, p) {
      PresentPermsChecked(c, p);
    }
  }

  /** Checking the empty mask always succeeds. */
  lemma CheckPermsEmpty(c: Capability)
    ensures CheckPerms(c, 0)
  {
    CheckPermsMeaning(c, 0);
  }

  lemma SubmaskPresent(c: Capability, p: Perms, q: Perms)
    requires q & !p == 0
    requires HasPerms(c, p)
    ensures HasPerms(c, q)
  {
  }

  lemma UnionPresent(c: Capability, p: Perms, q: Perms)
    requires HasPerms(c, p) && HasPerms(c, q)
    ensures HasPerms(c, p | q)
  {
  }

  /** A check that holds for a mask holds for every sub-mask. */
  lemma CheckPermsSubmask(c: Capability, p: Perms, q: Perms)
    requires q & !p == 0
    requires CheckPerms(c, p)
    ensures CheckPerms(c, q)
  {
    CheckedPermsPresent(c, p);
    SubmaskPresent(c, p, q);
    PresentPermsChecked(c, q);
  }

  lemma UnionOfChecks(c: Capability, p: Perms, q: Perms)
    requires CheckPerms(c, p) && CheckPerms(c, q)
    ensures CheckPerms(c, p | q)
  {
    CheckedPermsPresent(c, p);
    CheckedPermsPresent(c, q);
    UnionPresent(c, p, q);
    PresentPermsChecked(c, p | q);
  }

  /** Checking p | q is checking p and checking q. */
  lemma CheckPermsUnion(c: Capability, p: Perms, q: Perms)
    ensures CheckPerms(c, p | q) <==> CheckPerms(c, p) && CheckPerms(c, q)
  {
    if CheckPerms(c, p | q) {
      CheckPermsSubmask(c, p | q, p);
      CheckPermsSubmask(c, p | q, q);
    } else if CheckPerms(c, p) && CheckPerms(c, q) {
      UnionOfChecks(c, p, q);
    }
  }

  /** Locality is exactly the failure of the GLOBAL check. */
  lemma LocalIffNotGlobal(c: Capability)
    ensures IsLocal(c) <==> !HasPerms(c, PERM_GLOBAL)
  {
    CheckPermsMeaning(c, PERM_GLOBAL);
  }
}
