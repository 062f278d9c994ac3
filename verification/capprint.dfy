/**
 * The capability printer of util/capprint.c: a permission string filled
 * into a character buffer, the name of the seal, and the one-line
 * rendering of a whole capability.
 */
module CapPrint {
  import opened Cheri
  import opened Numerals
  import Morello

  /** Letters for the permission table, NUL-terminated. */
  const PERM_NAMES: seq<char> := [
    'G',
    'r', 'R', 'M',
    'w', 'W', 'L',
    'x', 'E', 'S',
    's', 'u',
    'I',
    'C',
    'V',
    '1', '2', '3',
    '\0']

  /** The permission bit of each letter, 0-terminated. */
  const PERM_BITS: seq<Perms> := [
    PERM_GLOBAL,
    PERM_LOAD, PERM_LOAD_CAP, PERM_MUTABLE_LOAD,
    PERM_STORE, PERM_STORE_CAP, PERM_STORE_LOCAL_CAP,
    PERM_EXECUTE, PERM_EXECUTIVE, PERM_SYS_REG,
    PERM_SEAL, PERM_UNSEAL,
    PERM_CAP_INVOKE,
    PERM_CMPT_ID,
    PERM_VMEM,
    PERM_USER_1, PERM_USER_2, PERM_USER_3,
    0]

  /** Number of entries before the sentinel. */
  const PERM_COUNT: nat := 18

  /** TEST(x, f): every bit of f is set in x. */
  predicate Test(x: Perms, f: Perms) {
    x & f == f
  }

  /** The character cap_perms_to_str writes for table entry i. */
  function PermChar(perms: Perms, i: nat): char
    requires i < PERM_COUNT
  {
    if Test(perms, PERM_BITS[i]) then PERM_NAMES[i] else '-'
  }

  /** The text cap_perms_to_str writes before its NUL: one character per table entry. */
  function PermString(perms: Perms): (s: seq<char>)
    ensures |s| == PERM_COUNT
    ensures '\0' !in s
  {
    seq(PERM_COUNT, i requires 0 <= i < PERM_COUNT => PermChar(perms, i))
  }

  /** Both tables end at their sentinel, entry PERM_COUNT, and nowhere before. */
  lemma SentinelAt(i: nat)
    requires i <= PERM_COUNT
    ensures (PERM_BITS[i] != 0 && PERM_NAMES[i] != '\0') <==> i < PERM_COUNT
  {
  }

  /**
   * cap_perms_to_str: writes the permission string and a NUL into dst,
   * or into the shared buffer when dst is NULL, and returns the buffer
   * written. The loop walks both tables until a sentinel.
   */
  method CapPermsToStr(dst: array?<char>, buf: array<char>, cap: Capability) returns (res: array<char>)
    requires dst != null ==> dst.Length >= PERM_COUNT + 1
    requires dst == null ==> buf.Length >= PERM_COUNT + 1
    modifies if dst == null then buf else dst
    ensures res == (if dst == null then buf else dst)
    ensures res[..PERM_COUNT + 1] == PermString(cap.perms) + ['\0']
    ensures res[PERM_COUNT + 1..] == old(res[PERM_COUNT + 1..])
  {
    res := if dst == null then buf else dst;
    var perms := cap.perms;
    var i := 0;
    SentinelAt(i);
    while PERM_BITS[i] != 0 && PERM_NAMES[i] != '\0'
      invariant 0 <= i <= PERM_COUNT
      invariant (PERM_BITS[i] != 0 && PERM_NAMES[i] != '\0') <==> i < PERM_COUNT
      invariant forall j :: 0 <= j < i ==> res[j] == PermChar(perms, j)
      invariant res[PERM_COUNT + 1..] == old(res[PERM_COUNT + 1..])
      decreases PERM_COUNT - i
    {
      res[i] := if Test(perms, PERM_BITS[i]) then PERM_NAMES[i] else '-';
      i := i + 1;
      SentinelAt(i);
    }
    res[i] := '\0';
    assert res[..PERM_COUNT + 1] == PermString(cap.perms) + ['\0'];
  }

  // ---------------------------------------------------------------------
  // Reading the permission string back

  /** The bit that character i of a permission string stands for, if any. */
  function NamedBit(s: seq<char>, i: nat): Perms
    requires i < |s| && i < PERM_COUNT
  {
    if s[i] != '-' then PERM_BITS[i] else 0
  }

  /** Reading a permission string back: the bits of the entries not shown as '-'. */
  function ParsePerms(s: seq<char>): Perms
    requires |s| == PERM_COUNT
  {
    NamedBit(s, 0) | NamedBit(s, 1) | NamedBit(s, 2) | NamedBit(s, 3) | NamedBit(s, 4) | NamedBit(s, 5)
    | NamedBit(s, 6) | NamedBit(s, 7) | NamedBit(s, 8) | NamedBit(s, 9) | NamedBit(s, 10) | NamedBit(s, 11)
    | NamedBit(s, 12) | NamedBit(s, 13) | NamedBit(s, 14) | NamedBit(s, 15) | NamedBit(s, 16) | NamedBit(s, 17)
  }

  /** The permissions the table names: architectural bits 0 to 17. */
  const TABLE_MASK: Perms := 0x3_ffff

  /** b is a single bit. */
  predicate SingleBit(b: Perms) {
    b != 0 && b & (b - 1) == 0
  }

  lemma TableBitIsSingle(i: nat)
    requires i < PERM_COUNT
    ensures SingleBit(PERM_BITS[i])
  {
    if i == 0 { assert SingleBit(PERM_GLOBAL); }
    else if i == 1 { assert SingleBit(PERM_LOAD); }
    else if i == 2 { assert SingleBit(PERM_LOAD_CAP); }
    else if i == 3 { assert SingleBit(PERM_MUTABLE_LOAD); }
    else if i == 4 { assert SingleBit(PERM_STORE); }
    else if i == 5 { assert SingleBit(PERM_STORE_CAP); }
    else if i == 6 { assert SingleBit(PERM_STORE_LOCAL_CAP); }
    else if i == 7 { assert SingleBit(PERM_EXECUTE); }
    else if i == 8 { assert SingleBit(PERM_EXECUTIVE); }
    else if i == 9 { assert SingleBit(PERM_SYS_REG); }
    else if i == 10 { assert SingleBit(PERM_SEAL); }
    else if i == 11 { assert SingleBit(PERM_UNSEAL); }
    else if i == 12 { assert SingleBit(PERM_CAP_INVOKE); }
    else if i == 13 { assert SingleBit(PERM_CMPT_ID); }
    else if i == 14 { assert SingleBit(PERM_VMEM); }
    else if i == 15 { assert SingleBit(PERM_USER_1); }
    else if i == 16 { assert SingleBit(PERM_USER_2); }
    else { assert SingleBit(PERM_USER_3); }
  }

  lemma AbsentSingleBit(p: Perms, b: Perms)
    requires SingleBit(b)
    requires p & b != b
    ensures p & b == 0
  {
  }

  lemma NameIsLetter(i: nat)
    requires i < PERM_COUNT
    ensures PERM_NAMES[i] != '-'
  {
  }

  /** Character i of the permission string stands for exactly the bit p holds of entry i. */
  lemma NamedBitOf(p: Perms, i: nat)
    requires i < PERM_COUNT
    ensures NamedBit(PermString(p), i) == p & PERM_BITS[i]
  {
    var b := PERM_BITS[i];
    TableBitIsSingle(i);
    NameIsLetter(i);
    assert PermString(p)[i] == PermChar(p, i);
    if !Test(p, b) {
      AbsentSingleBit(p, b);
    }
  }

  /** The table covers bits 0 to 17, one entry each. */
  lemma TableCoversMask(p: Perms)
    ensures (p & PERM_GLOBAL) | (p & PERM_LOAD) | (p & PERM_LOAD_CAP) | (p & PERM_MUTABLE_LOAD)
      | (p & PERM_STORE) | (p & PERM_STORE_CAP) | (p & PERM_STORE_LOCAL_CAP)
      | (p & PERM_EXECUTE) | (p & PERM_EXECUTIVE) | (p & PERM_SYS_REG)
      | (p & PERM_SEAL) | (p & PERM_UNSEAL) | (p & PERM_CAP_INVOKE) | (p & PERM_CMPT_ID)
      | (p & PERM_VMEM) | (p & PERM_USER_1) | (p & PERM_USER_2) | (p & PERM_USER_3) == p & TABLE_MASK
  {
  }

  /**
   * Reading the permission string back recovers exactly the permissions
   * the table names: nothing is lost or invented among bits 0 to 17.
   */
  lemma PermStringRoundTrip(p: Perms)
    ensures ParsePerms(PermString(p)) == p & TABLE_MASK
  {
    NamedBitOf(p, 0); NamedBitOf(p, 1); NamedBitOf(p, 2); NamedBitOf(p, 3); NamedBitOf(p, 4); NamedBitOf(p, 5);
    NamedBitOf(p, 6); NamedBitOf(p, 7); NamedBitOf(p, 8); NamedBitOf(p, 9); NamedBitOf(p, 10); NamedBitOf(p, 11);
    NamedBitOf(p, 12); NamedBitOf(p, 13); NamedBitOf(p, 14); NamedBitOf(p, 15); NamedBitOf(p, 16); NamedBitOf(p, 17);
    TableCoversMask(p);
  }

  lemma TestIsCheck(cap: Capability, b: Perms)
    ensures Test(cap.perms, b) == Morello.CheckPerms(cap, b)
  {
    Morello.CheckPermsMeaning(cap, b);
    if Test(cap.perms, b) {
      assert HasPerms(cap, b);
    } else {
      assert !HasPerms(cap, b);
    }
  }

  /** Character i names its permission exactly when cheri_check_perms holds for that bit. */
  lemma PermCharIsCheck(cap: Capability, i: nat)
    requires i < PERM_COUNT
    ensures PermString(cap.perms)[i] == (if Morello.CheckPerms(cap, PERM_BITS[i]) then PERM_NAMES[i] else '-')
  {
    assert PermString(cap.perms)[i] == PermChar(cap.perms, i);
    TestIsCheck(cap, PERM_BITS[i]);
  }

  // ---------------------------------------------------------------------
  // Seal names

  /** cap_seal_to_str: the name of the object type `otype & 0x7fff`. */
  function SealName(otype: ObjectType): (s: seq<char>)
    ensures 1 <= |s| <= 4
  {
    var t := otype % 0x8000;
    if t == 0 then "none"
    else if t == 1 then "rb"
    else if t == 2 then "lpb"
    else if t == 3 then "lb"
    else
      NumeralLength(t, 16, 4);
      Hex(t, 4)
  }

  /** Reading a seal name back. */
  function SealValue(s: seq<char>): nat {
    if s == "none" then 0
    else if s == "rb" then 1
    else if s == "lpb" then 2
    else if s == "lb" then 3
    else Value(s, 16)
  }

  /** A string of hexadecimal digits is none of the reserved names. */
  lemma HexIsNotWord(s: seq<char>)
    requires |s| >= 1 && AllDigits(s, 16)
    ensures s != "none" && s != "rb" && s != "lpb" && s != "lb"
  {
    assert DigitValue(s[0]) < 16;
  }

  /** Distinct object types get distinct names: the name determines the type. */
  lemma SealNameRoundTrip(otype: ObjectType)
    ensures SealValue(SealName(otype)) == otype
  {
    if otype >= 4 {
      var s := Hex(otype, 4);
      assert SealName(otype) == s;
      NumeralRoundTrip(otype, 16, 4);
      NumeralDigits(otype, 16, 4);
      HexIsNotWord(s);
    }
  }

  /** The reserved sentry types print as "rb", "lpb" and "lb". */
  lemma ReservedSealNames()
    ensures SealName(OTYPE_RB) == "rb"
    ensures SealName(OTYPE_LPB) == "lpb"
    ensures SealName(OTYPE_LB) == "lb"
    ensures SealName(OTYPE_UNSEALED) == "none"
  {
  }

  /** The sentries morello.h creates are named "lpb" and "lb". */
  lemma SentryNames(c: Capability)
    ensures SealName(Morello.LpbSentryCreate(c).otype) == "lpb"
    ensures SealName(Morello.LbSentryCreate(c).otype) == "lb"
  {
  }

  // ---------------------------------------------------------------------
  // The whole capability

  /** `%-4s`: left-justified, padded with spaces to at least w characters. */
  function PadRight(s: seq<char>, w: nat): (r: seq<char>)
    ensures |r| == if |s| >= w then |s| else w
    ensures r[..|s|] == s
  {
    if |s| >= w then s else s + seq(w - |s|, _ => ' ')
  }

  /** `(ssize_t)x`. */
  function ToSigned(x: u64): int {
    if x < 0x8000_0000_0000_0000 then x else x - WORD
  }

  /** The layout of cap_to_str's format string, "%s %c [%s:%s) %s %s %s", filled in. */
  function Line(a: seq<char>, t: char, b: seq<char>, l: seq<char>, p: seq<char>, n: seq<char>, rest: seq<char>): string {
    a + " " + [t] + " [" + b + ":" + l + ") " + p + " " + n + " " + rest
  }

  /**
   * cap_to_str: "%016lx %c [%016lx:%016lx) %s %-4s %ld of %lu" applied to
   * the address, the tag, base, base + length, the permission string, the
   * seal name, the signed offset and the length.
   */
  function CapToStr(c: Capability): (s: string)
    ensures |s| > 79
    ensures Value(s[0..16], 16) == c.address
    ensures s[17] == (if c.tag then '1' else '0')
  {
    var a, t, b, l := Hex(c.address, 16), if c.tag then '1' else '0', Hex(c.base, 16), Hex(Wrap(c.base + c.length), 16);
    var p, n := PermString(c.perms), PadRight(SealName(c.otype), 4);
    var rest := SignedDecimal(ToSigned(Offset(c))) + " of " + Decimal(c.length);
    Hex16(c.address);
    Hex16(c.base);
    Hex16(Wrap(c.base + c.length));
    FieldPositions(a, t, b, l, p, n, rest);
    Line(a, t, b, l, p, n, rest)
  }

  lemma WordIsPow16()
    ensures Pow(16, 16) == WORD
  {
    assert Pow(16, 4) == 0x1_0000;
    assert Pow(16, 8) == 0x1_0000_0000 by {
      assert Pow(16, 5) == 0x10_0000;
      assert Pow(16, 6) == 0x100_0000;
      assert Pow(16, 7) == 0x1000_0000;
    }
    assert Pow(16, 12) == 0x1_0000_0000_0000 by {
      assert Pow(16, 9) == 0x10_0000_0000;
      assert Pow(16, 10) == 0x100_0000_0000;
      assert Pow(16, 11) == 0x1000_0000_0000;
    }
    assert Pow(16, 13) == 0x10_0000_0000_0000;
    assert Pow(16, 14) == 0x100_0000_0000_0000;
    assert Pow(16, 15) == 0x1000_0000_0000_0000;
  }

  /** `%016lx` of a 64-bit value is 16 digits long and reads back as that value. */
  lemma Hex16(n: u64)
    ensures |Hex(n, 16)| == 16
    ensures Value(Hex(n, 16), 16) == n
  {
    WordIsPow16();
    NumeralLength(n, 16, 16);
    NumeralRoundTrip(n, 16, 16);
  }

  /** Where the fixed-width fields of the line land. */
  lemma FieldPositions(a: seq<char>, t: char, b: seq<char>, l: seq<char>, p: seq<char>, n: seq<char>, rest: seq<char>)
    requires |a| == 16 && |b| == 16 && |l| == 16 && |p| == PERM_COUNT && |n| == 4
    ensures var s := Line(a, t, b, l, p, n, rest);
      && |s| == 79 + |rest|
      && s[0..16] == a && s[17] == t
      && s[19] == '[' && s[20..36] == b && s[36] == ':' && s[37..53] == l && s[53] == ')'
      && s[55..73] == p && s[74..78] == n && s[79..] == rest
  {
    var s0 := a + " " + [t] + " [";
    var s1 := s0 + b + ":";
    var s2 := s1 + l + ") ";
    var s3 := s2 + p + " ";
    var s4 := s3 + n + " ";
    assert |s0| == 20 && s0[..16] == a && s0[17] == t && s0[19] == '[';
    assert |s1| == 37 && s1[..20] == s0 && s1[20..36] == b && s1[36] == ':';
    assert |s2| == 55 && s2[..37] == s1 && s2[37..53] == l && s2[53] == ')';
    assert |s3| == 74 && s3[..55] == s2 && s3[55..73] == p;
    assert |s4| == 79 && s4[..74] == s3 && s4[74..78] == n;
    var s := s4 + rest;
    assert s[..79] == s4 && s[79..] == rest;
  }

  /** Where each field sits in cap_to_str's output, and that each reads back as the field. */
  lemma CapToStrLayout(c: Capability)
    ensures var s := CapToStr(c);
      && |s| > 79
      && Value(s[0..16], 16) == c.address
      && s[17] == (if c.tag then '1' else '0')
      && s[19] == '[' && s[36] == ':' && s[53] == ')'
      && Value(s[20..36], 16) == c.base
      && Value(s[37..53], 16) == Wrap(c.base + c.length)
      && s[55..73] == PermString(c.perms)
      && s[74..78] == PadRight(SealName(c.otype), 4)
      && s[79..] == SignedDecimal(ToSigned(Offset(c))) + " of " + Decimal(c.length)
  {
    var lim := Wrap(c.base + c.length);
    var a, b, l := Hex(c.address, 16), Hex(c.base, 16), Hex(lim, 16);
    var t := if c.tag then '1' else '0';
    var p, n := PermString(c.perms), PadRight(SealName(c.otype), 4);
    var rest := SignedDecimal(ToSigned(Offset(c))) + " of " + Decimal(c.length);
    assert CapToStr(c) == Line(a, t, b, l, p, n, rest);
    Hex16(c.address);
    Hex16(c.base);
    Hex16(lim);
    FieldPositions(a, t, b, l, p, n, rest);
  }
}
