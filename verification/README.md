# Compartments on Morello: a Dafny model

This project models the compartmentalisation "hello world" for Arm Morello
(CHERI capabilities on AArch64). The program wraps a function in a
compartment. The compartment has its own stack and its own compartment
identity (CID), and it is entered through a sealed handle.

Three parts are modelled:

- **The compartment manager**, `src/manager.c`:
  - `init_cmpt_manager` sets up the global sealer and identity capabilities.
  - `_bsp_seal_cap` seals a capability with an object type taken from a compartment identity ("BSP-sealing", for branch-to-sealed-pair).
  - `reseal_and_remove_perms` rebuilds a target sentry without some permissions.
  - The allocators hand out the code page, the data page and the stack.
  - `create_cmpt` relocates the trampoline and writes its record (`cmpt_impl_t`) and the runtime record (`cmpt_data_t`). It seals the switch capabilities, makes the code page executable and returns a sentry (a sealed code capability that can only be branched to).
  - The trampoline itself is modelled as a register machine:
    - it saves the caller's registers;
    - it branches through the (entry, data) pair;
    - it swaps CID and stack;
    - it zeroes registers;
    - it calls the target;
    - it branches back through the (exit, data) pair and restores everything.
- **The capability utilities**, `util/morello.c` and `util/morello.h`: limits, tails, bounds tests, the permission check and the LPB/LB sentry constructors. They are modelled together with the printer `util/capprint.c`: the permission string, the seal name and the one-line rendering of a capability. Each printer output is proved to read back.
- **The demonstration program**, `main.c`: both of its own `create_cmpt` variants and the compartment body `fun`.
  - In the LB variant, the handle is an LB-sealed descriptor.
  - In the LPB variant, the handle is an LPB-sealed pair of capabilities.

Capabilities are values (`Cheri.Capability`): a tag, a 64-bit address, bounds, a permission word and an object type. Memory is a class (`Memory.AddressSpace`):
- a map of mappings, changed by `mmap`, `munmap` and `mprotect`;
- a map of 16-byte capability granules, changed by stores.

The manager's globals form a class (`Manager.CmptManager`). It tracks the identities it has handed out as ghost state. The processor is a class (`Trampoline.Cpu`) with c0..c30, `csp`, `CID_EL0` and `PCC`. Each block of trampoline instructions is a method. A `brs` whose pair the architecture refuses becomes a result `ok == false`.

Files:
- cheri.dfy: the capability value and the cheriintrin.h primitives.
- morello.dfy: `util/morello.c` and `util/morello.h`.
- numerals.dfy: the printf conversions and their parsers.
- capprint.dfy: `util/capprint.c`.
- memory.dfy: the address space.
- layout.dfy: the struct offsets and the trampoline's label offsets.
- manager.dfy: `src/manager.c` except the trampoline.
- trampoline.dfy: the trampoline.
- demo.dfy: `main.c`.
- wrappers.dfy: `Option`.

## Model

| member | source | states |
|---|---|---|
| Cheri.Wrap | src/manager.c:286 | size_t arithmetic is taken modulo 2^64 and leaves every value below 2^64 as it is |
| Cheri.SetAddress | src/manager.c:48 | cheri_address_set changes the address only; a sealed capability loses its tag |
| Cheri.Add | src/manager.c:293 | pointer arithmetic moves the address modulo 2^64, keeps bounds, permissions and type, and untags a sealed capability |
| Cheri.SetOffset | main.c:52 | cheri_offset_set puts the address at base + offset and keeps bounds, permissions and type |
| Cheri.PermsAnd | src/manager.c:47 | the permissions become perms & mask and nothing else changes, except that a sealed capability loses its tag |
| Cheri.PermsClear | src/manager.c:184 | the permissions become perms & ~mask and nothing else changes, except the tag of a sealed capability |
| Cheri.SetBounds | src/manager.c:257 | the bounds become [address, address + n); the tag survives only on an unsealed capability whose old bounds cover the new ones |
| Cheri.Seal | src/manager.c:236 | cheri_seal gives the object type held in the key's address and keeps the tag only for an unsealed input and a valid, unsealed, in-bounds key with PERM_SEAL below 2^15 |
| Cheri.SealReserved | util/morello.h:88-103 | sealing with RB, LPB or LB sets exactly that type, the result is sealed, and only an unsealed tagged input stays tagged |
| Cheri.SentryCreate | src/manager.c:160 | a sentry has type RB, the same address, bounds and permissions, and is tagged iff the input was tagged and unsealed |
| Cheri.Unseal | src/manager.c:75 | the branch half of `brs` clears the type and keeps tag, address, bounds and permissions |
| Cheri.TagClear | src/manager.c:238 | only the tag changes, and it becomes clear |
| Cheri.Build | src/manager.c:219 | cheri_cap_build yields the unsealed bits, tagged exactly when they are derivable from the key |
| Cheri.AlignUp16 | src/manager.c:155 | the result is the least multiple of 16 at or above x |
| Cheri.Offset | util/capprint.c:102 | the offset is address - base when the address is not below the base, and wraps to 2^64 - (base - address) when it is |
| Morello.LengthGetZero | util/morello.c:15-19 | 0 exactly for the NULL pointer (untagged, address 0) or an empty capability, and the length otherwise |
| Morello.GetLimit | util/morello.c:21-24 | the capability moved to base + length_get_zero (mod 2^64), with bounds, permissions and type kept |
| Morello.GetTail | util/morello.c:26-36 | nonzero exactly when base <= address < limit, and then address + tail is the limit |
| Morello.InBounds | util/morello.c:38-43 | without wrap-around, true iff base <= address < base + length; never for an empty capability |
| Morello.IsDeref | util/morello.c:45-48 | true exactly for a tagged, unsealed, in-bounds capability |
| Morello.LpbSentryCreate | util/morello.h:88-93 | the capability sealed with type LPB, with the fields kept |
| Morello.LbSentryCreate | util/morello.h:98-103 | the capability sealed with type LB, with the fields kept |
| Morello.NullLengthIsZero | util/morello.c:15-19 | NULL reports the saturated length 2^64 - 1, but length_get_zero reports 0 for it |
| Morello.TailIsDistanceToLimit | util/morello.c:21-36 | in bounds, the tail is the distance from the address to cheri_get_limit, between 1 and the length |
| Morello.DerefImpliesInBounds | util/morello.c:38-48 | a dereferenceable capability has base <= address < base + length; an empty one is never dereferenceable |
| Morello.CheckPerms | util/morello.h:108-111 | the check holds iff every bit of p is present in the capability's permissions |
| Morello.CheckPermsMeaning | util/morello.h:108-111 | `(perms \| ~p) == ~0` holds iff every bit of p is present |
| Morello.CheckPermsEmpty | util/morello.h:108-111 | checking the empty mask always succeeds |
| Morello.CheckPermsSubmask | util/morello.h:108-111 | a check that succeeds for a mask succeeds for each of its sub-masks |
| Morello.CheckPermsUnion | util/morello.h:108-111 | checking p \| q succeeds iff checking p and checking q both succeed |
| Morello.IsLocal | util/morello.c:50-53 | a capability is local iff it lacks PERM_GLOBAL |
| Morello.LocalIffNotGlobal | util/morello.c:50-53 | a capability is local exactly when it lacks PERM_GLOBAL |
| Numerals.NumeralRoundTrip | util/capprint.c:106-108 | reading a `%0Nlx`, `%04x` or `%lu` numeral back in its radix gives the number printed |
| Numerals.NumeralDigits | util/capprint.c:106-108 | a numeral is made of digits of its radix only |
| Numerals.NumeralLength | util/capprint.c:106 | a number below radix^width is printed with exactly width digits |
| Numerals.SignedDecimal | util/capprint.c:106-108 | `%ld` output is non-empty and starts with '-' exactly for a negative value |
| Numerals.SignedDecimalRoundTrip | util/capprint.c:102-108 | reading `%ld` output back gives the signed value printed |
| CapPrint.PermString | util/capprint.c:56-58 | the permission text has one character per table entry (18) and no NUL |
| CapPrint.SentinelAt | util/capprint.c:19-43 | both tables reach their 0 sentinel at entry 18 and nowhere before, so the loop runs 18 times |
| CapPrint.CapPermsToStr | util/capprint.c:47-61 | writes the permission string and a NUL into dst, or into the shared buffer when dst is NULL, returns that buffer, and leaves the rest of it alone |
| CapPrint.TableBitIsSingle | util/capprint.c:32-43 | every entry of the bit table is a single permission bit |
| CapPrint.NamedBitOf | util/capprint.c:57 | character i stands for a bit exactly when the permission word holds bit i of the table |
| CapPrint.PermStringRoundTrip | util/capprint.c:19-58 | reading the permission string back recovers exactly the architectural permissions 0 to 17, with nothing lost or invented |
| CapPrint.TestIsCheck | util/capprint.c:17 | TEST(perms, f) agrees with cheri_check_perms for the same bits |
| CapPrint.PermCharIsCheck | util/capprint.c:57 | each character is the entry's letter exactly when cheri_check_perms holds for its bit, and '-' otherwise |
| CapPrint.SealName | util/capprint.c:63-87 | a seal name is 1 to 4 characters long |
| CapPrint.HexIsNotWord | util/capprint.c:83-84 | a `%04x` rendering never equals one of the names "none", "rb", "lpb" or "lb" |
| CapPrint.SealNameRoundTrip | util/capprint.c:69-85 | the name determines the object type: reading it back gives the type |
| CapPrint.ReservedSealNames | util/capprint.c:70-82 | types 0, 1, 2 and 3 print as "none", "rb", "lpb" and "lb" |
| CapPrint.SentryNames | util/morello.h:88-103 | the sentries morello.h creates print as "lpb" and "lb" |
| CapPrint.PadRight | util/capprint.c:106 | `%-4s` keeps the string as a prefix and pads to at least the width |
| CapPrint.Hex16 | util/capprint.c:106 | `%016lx` of a 64-bit value is 16 digits that read back as the value |
| CapPrint.FieldPositions | util/capprint.c:106 | where each fixed-width field of the format lands in the line |
| CapPrint.CapToStr | util/capprint.c:92-110 | the line is longer than 79 characters, its first 16 digits read back as the address and column 17 is the tag |
| CapPrint.CapToStrLayout | util/capprint.c:92-110 | each field of cap_to_str's line sits at a fixed column and reads back as the capability's address, base, limit, permissions and seal |
| Memory.LoadZeroed | src/manager.c:269 | an anonymous mapping reads as NULL, and memory outside it reads as before |
| Memory.AddressSpace.Load | src/manager.c:81 | a load returns the last capability stored, or NULL |
| Memory.AddressSpace.Store | src/manager.c:181 | a store replaces exactly one granule and leaves the mappings alone |
| Memory.AddressSpace.Map | src/manager.c:251-254 | mmap returns what the kernel gives; on success the fresh range becomes one new mapping of zeros, on MAP_FAILED nothing changes |
| Memory.AddressSpace.Unmap | src/manager.c:171 | munmap of a whole mapping removes it; memory contents are not touched |
| Memory.AddressSpace.Protect | src/manager.c:196 | mprotect changes a mapping's protection when the maximum allows it and otherwise changes nothing |
| Memory.MapThenUnmap | src/manager.c:169-172 | mapping a fresh range and unmapping it again leaves the mappings as they were |
| CmptLayout.FrameSlot | src/manager.c:64-70 | each callee-saved register's slot is a 16-byte-aligned offset inside the 192-byte frame |
| CmptLayout.FrameSlotsDistinct | src/manager.c:65-70 | no two callee-saved registers share a slot |
| CmptLayout.FramePairs | src/manager.c:65-70 | pair k, (c(29-2k), c(30-2k)), is stored at 32k and 32k + 16 |
| CmptLayout.TrampolineOffsetsMatchStructs | src/manager.c:73-100 | the immediates of the trampoline's loads and stores name the intended fields of cmpt_impl_t and cmpt_data_t |
| CmptLayout.ImplOffsetIsAlignedCodeSize | src/manager.c:143-155 | the record sits at the code size rounded up to 16 (352), past the code, and the handle spans 448 bytes |
| CmptLayout.AdrFindsImpl | src/manager.c:71-72 | in a 16-byte-aligned copy, `adr _trampoline_end; alignu #4` yields the record's address |
| Manager.BspOtype | src/manager.c:232-236 | identities below 4 give type 4; others give their address masked to 15 bits |
| Manager.BspKey | src/manager.c:236 | the key is __sealer moved to that object type, bounds and permissions kept |
| Manager.BspSealCap | src/manager.c:225-240 | with CAP_INVOKE (and, off glibc, a tagged identity holding CMPT_ID) the capability is sealed with the identity's type; otherwise only its tag is cleared |
| Manager.BspTaggedIsSealedWithIdentity | src/manager.c:225-240 | a tagged result implies the permissions held, the input was tagged and unsealed, the sealer was valid with PERM_SEAL, and the type is the identity's |
| Manager.BspOtypeAvoidsReserved | src/manager.c:233-235 | identities below 2^15 never produce a reserved type 0 to 3 |
| Manager.BspOtypeWraps | src/manager.c:232-236 | the mask is applied after the clamp: identities 0x8000, 0x8001 and 0x8003 give types 0, RB and LB, and 0x8004 repeats identity 4 |
| Manager.ResealAndRemovePerms | src/manager.c:208-220 | the result is a sentry with the same address and bounds and perms & ~removed, tagged iff derivable from PCC (sealed input) or from itself (unsealed input) |
| Manager.ResealNeverWidens | src/manager.c:218-219 | resealing adds no permission and drops all the removed ones |
| Manager.ResealUnsealedStaysValid | src/manager.c:213-219 | a valid unsealed capability is its own key and stays valid |
| Manager.ResealSealedNeedsPcc | src/manager.c:210-215 | a sealed input comes out valid only if PCC is valid, unsealed and covers it |
| Manager.TargetCap | src/manager.c:161-168 | impl->target is always sealed; with the flag cleared it lacks SYS_REG and is an RB sentry; otherwise it keeps its permissions and tag |
| Manager.StackSize | src/manager.c:286 | the stack size is pgsz * pages when that fits in a size_t, and never more |
| Manager.StackCap | src/manager.c:293 | the stack spans the mapping, read-write at most, with its address at the limit |
| Manager.StackAtLimit | src/manager.c:278-293 | the stack's offset is its size, its address is base + length, and it is not in bounds |
| Manager.StackAllocate | src/manager.c:283-294 | on success, one new read-write mapping of pgsz * pages (mod 2^64) bytes and the stack capability; on MAP_FAILED, NULL and no change |
| Manager.CodeMayExecute | src/manager.c:250 | the code page's PROT_MAX admits the final PROT_READ \| PROT_EXEC, and that protection is not writable |
| Manager.StripStack | src/manager.c:181-188 | the stored stack keeps address, bounds and type, and stays tagged unless it was sealed and a clear applied |
| Manager.StripStackPerms | src/manager.c:183-188 | the stored stack keeps exactly the permissions the flags do not clear |
| Manager.ImplCap | src/manager.c:155-156 | impl is bounded to the 80-byte record right after the code, with read-write permissions at most |
| Manager.DataRecordCap | src/manager.c:174 | impl->data is bounded to the 32-byte runtime record, with RW and CAP_INVOKE at most |
| Manager.LabelCap | src/manager.c:190-191 | a label pointer is code + offset + 1 (the C64 bit), with RX and CAP_INVOKE at most |
| Manager.Handle | src/manager.c:203-205 | the handle is an RB sentry over code, record and one slot (448 bytes), at code + 1, with RX at most |
| Manager.HandleCoversRecord | src/manager.c:203 | the handle covers the trampoline and the whole record and ends one capability past it |
| Manager.CmptManager.constructor | src/manager.c:29-30 | both globals start NULL and no identity has been issued |
| Manager.CmptManager.Init | src/manager.c:45-49 | the sealer is the auxiliary seal capability cut to PERM_SEAL, and the identity counter starts at the seed |
| Manager.CmptManager.TakeIdentity | src/manager.c:160 | `cheri_sentry_create(__cid++)` returns the current identity as a sentry and moves the counter on by one, recording the identity issued |
| Manager.CmptManager.SealSwitch | src/manager.c:189-191 | impl->data, impl->entry and impl->exit are replaced by their BSP-sealed forms under impl->cid, and nothing else changes |
| Manager.CmptManager.CreateCmpt | src/manager.c:122-206 | sets EFAULT and returns NULL when uninitialised. The counter advances exactly when the code page was mapped. On any later failure every mapping is undone. On success, returns the handle, leaves the full record and runtime record in memory, and leaves three new mappings with the code page read-execute |
| Manager.CmptManager.Populate | src/manager.c:155-205 | after the code page: a handle exactly when the data page and the stack are mapped, with the records built; otherwise the code page unmapped as well |
| Manager.CmptManager.Finish | src/manager.c:181-205 | writes the runtime record, seals the switch capabilities, makes the code read-execute and returns the handle |
| Manager.CmptManager.SealAndProtect | src/manager.c:189-205 | after sealing and mprotect, the record is complete, the code page is read-execute and the handle is returned |
| Manager.ProtectFirst | src/manager.c:196 | changing the code page's protection commutes with the later data and stack mappings |
| Manager.AllocateRecord | src/manager.c:169-180 | maps the data page and stores impl->data, then maps the stack; on either failure, what was mapped, the code page included, is unmapped |
| Manager.RecordLeavesHeader | src/manager.c:181-182 | writing the runtime record leaves impl->cid, impl->target and impl->data as they were |
| Manager.RecordAfterSealing | src/manager.c:189-191 | after the three seals the record holds the identity, the target and the sealed entry, data and exit |
| Manager.DataAfterSealing | src/manager.c:189-191 | the seals leave the runtime record alone |
| Manager.HeaderSurvives | src/manager.c:169-175 | mapping the data page and the stack leaves impl->cid and impl->target as they were, and impl->data as stored |
| Manager.WriteHeader | src/manager.c:160-168 | impl->cid holds the identity sentry and impl->target the target after its optional reseal and sentry-sealing |
| Manager.WriteDataRecord | src/manager.c:181-188 | data->stack holds the stack with the flagged permissions cleared, and data->cid holds NULL |
| Manager.ClearStackPerm | src/manager.c:184 | only data->stack changes, to itself with the mask cleared |
| Manager.IdentitiesDistinct | src/manager.c:160 | fewer than 2^64 compartments never share an identity |
| Manager.IdentitiesIncrease | src/manager.c:160 | identities increase strictly until the counter wraps |
| Manager.IssuedDistinct | src/manager.c:160 | every identity a manager has issued differs from every other one and from the next one |
| Trampoline.SavedHolds | src/manager.c:65-70 | once its pair is stored, each callee-saved register reads back from its frame slot |
| Trampoline.SavedElsewhere | src/manager.c:64-70 | the prologue stores nothing outside the frame |
| Trampoline.SavedFrame | src/manager.c:64-70 | after the six `stp`, the frame holds c19..c30 |
| Trampoline.SavedPushed | src/manager.c:64-70 | the prologue fills the frame and leaves the rest of memory reading as before |
| Trampoline.FrameSurvives | src/manager.c:88 | stores by the callee that avoid the frame leave the saved registers intact |
| Trampoline.ParkKeepsFrame | src/manager.c:78-82 | parking the caller's CID and stack in a data record clear of the frame keeps the frame |
| Trampoline.ParkedState | src/manager.c:76-84 | after the prologue and the parking stores, impl->exit and impl->data read as before, the data record holds the parked CID and stack, and the frame is intact |
| Trampoline.DataRecordNotExecutable | src/manager.c:174 | the data record capability carries no execute permission |
| Trampoline.LabelExecutable | src/manager.c:190-191 | a label capability keeps the code page's execute permission |
| Trampoline.SealedPairInvokable | src/manager.c:189-191 | a validly sealed label and data record form a pair `brs` accepts |
| Trampoline.BuiltRecordInvokable | src/manager.c:73-95 | with valid switch capabilities and an identity below 2^15, both the (entry, data) and the (exit, data) pairs of a built record pass `brs` |
| Trampoline.PopAfterPush | src/manager.c:64-109 | lowering an unsealed csp by the frame and raising it again restores it |
| Trampoline.Cpu.Zero | src/manager.c:85-87 | `mov wN, #0` over a range leaves those registers NULL and the rest unchanged |
| Trampoline.Cpu.PushPairs | src/manager.c:65-70 | the six `stp` store the register pairs into the frame and nothing else |
| Trampoline.Cpu.PopPair | src/manager.c:103 | one `ldp` loads its two registers from their slots and changes nothing else |
| Trampoline.Cpu.PopPairs | src/manager.c:103-108 | the six `ldp` reload c19..c30 from their slots and leave c0..c18 alone |
| Trampoline.Cpu.Push | src/manager.c:64-70 | csp drops by 192 and the frame below it holds the caller's c19..c30, the rest of memory unchanged |
| Trampoline.Cpu.BranchIn | src/manager.c:71-75 | loads cid and target, then branches only if (entry, data) pass `brs`, leaving PCC and c29 as the unsealed pair |
| Trampoline.Cpu.SwapIn | src/manager.c:77-84 | parks the caller's CID and stack in the data record and installs the compartment's CID and stack |
| Trampoline.Cpu.CmptStart | src/manager.c:77-87 | the swap, then c1..c28 cleared with c0 (argument) and c30 (target) kept |
| Trampoline.Cpu.Switch | src/manager.c:71-87 | from the record to the first instruction of the target: fault iff the pair is refused; otherwise the compartment's CID and stack are in place, the caller's are parked, and c1..c28 are NULL |
| Trampoline.Cpu.Enter | src/manager.c:64-87 | the whole entry sequence: the caller's frame saved, and the compartment entered exactly when (entry, data) pass `brs` |
| Trampoline.Cpu.Call | src/manager.c:88 | `blr c30`: the callee returns some registers, csp, CID and stores |
| Trampoline.Cpu.SwapOut | src/manager.c:97-102 | restores the parked CID and caller stack and parks the callee's stack |
| Trampoline.Cpu.Pop | src/manager.c:103-109 | reloads c19..c30 from the frame and raises csp by 192 |
| Trampoline.Cpu.BranchOut | src/manager.c:92-95 | branches back only if (exit, data) pass `brs` |
| Trampoline.Cpu.Return | src/manager.c:97-110 | after `_cmpt_end`: the caller's CID, csp and c19..c30 are back, and `ret` goes to the saved c30 |
| Trampoline.Cpu.Exit | src/manager.c:89-110 | c1..c18 cleared; fault iff (exit, data) is refused; otherwise the caller's frame, CID and stack restored |
| Trampoline.Cpu.Resume | src/manager.c:88-110 | from the call on, for callee stores that avoid the frame and both records: back in the caller with its CID, csp and callee-saved registers |
| Trampoline.Cpu.Continue | src/manager.c:76-110 | from the parked state on: the call, the exit and the restore give the caller back its CID, csp and callee-saved registers |
| Trampoline.Cpu.Invoke | src/manager.c:62-113 | a call through the handle succeeds iff both pairs pass `brs`. Then the caller's CID, callee-saved registers and (for an unsealed csp) stack pointer are restored, c0 is the callee's result, c1..c18 are NULL, and the data record holds the callee's stack and the caller's CID |
| Demo.DemoStack | main.c:48-53 | the stack is bounded to its mapping, offset to its size and cut to STACK_PERMS |
| Demo.DemoStackIsManagerStack | main.c:51-53 | main.c builds exactly the stack _stack_allocate builds |
| Demo.DemoStackAtLimit | main.c:51-53 | the stack's offset is its size and its address is its limit |
| Demo.MmapResult | main.c:48 | a failed mmap yields an untagged capability |
| Demo.SealedTarget | main.c:60-62 | the target made a sentry when unsealed: always sealed, unchanged when already sealed, tag kept |
| Demo.LbHandle | main.c:66 | the LB handle is LB-sealed, spans the 64-byte descriptor and carries no write or execute permission |
| Demo.LpbHandle | main.c:117 | the LPB handle is LPB-sealed, spans the 32-byte pair after the descriptor and carries no write or execute permission |
| Demo.LpbDescriptor | main.c:114 | data[0] is the 32-byte descriptor, read-only |
| Demo.HandlesAreReadOnly | main.c:65-66 | both handles are sealed and grant no store, and a load the LB handle grants, the data page granted |
| Demo.MapStackAndData | main.c:45-56 | maps the stack and one data page and returns the stack capability and the page (MAP_FAILED on failure) |
| Demo.CreateCmptLb | main.c:43-67 | a handle exactly when the data page was mapped: then the descriptor holds entry, exit, stack and the sealed target, and the handle is its LB sentry |
| Demo.WriteDescriptor | main.c:56-66 | the four descriptor stores, the target made a sentry when unsealed, and the LB handle |
| Demo.DescriptorSlots | main.c:57-63 | each LB descriptor slot reads back as what was stored |
| Demo.WritePair | main.c:105-117 | the descriptor and the pair after it are stored, and the LPB handle is returned |
| Demo.PairSlots | main.c:107-115 | each slot of the LPB descriptor and pair reads back as what was stored |
| Demo.CreateCmptLpb | main.c:92-118 | as written: the descriptor keeps the target as passed, so an unsealed target is stored unsealed |
| Demo.CreateCmptLpbSealed | main.c:92-118 | corrected: the descriptor holds the target made a sentry, which is always sealed |
| Demo.LpbStoresTargetUnsealed | main.c:108-113 | for a tagged unsealed function pointer, the stored value differs from the sentry the LB variant stores |
| Demo.Fun | main.c:122-132 | data[2] becomes data[0] + data[1], the other elements are unchanged, and the buffer is returned |
| Demo.RunDemo | main.c:143-149 | main's buffer {2, 3, 0} comes back as {2, 3, 5} |

## Left out

- The operating system is not modelled. What `mmap` returns is a parameter (None for MAP_FAILED) and is required to be a fresh range. `getpagesize()` and `getauxptr()` are parameters. `errno` is modelled only for EFAULT.
- The `memcpy` of the trampoline into the code page is not modelled, and neither is `__builtin___clear_cache`. The relocated code is assumed to behave as the trampoline does.
- Capability bounds representability (rounding by `cheri_bounds_set`) is not modelled. `cheri_bounds_set` and `cheri_bounds_set_exact` are the same function.
- The permission bit positions and the READ/WRITE/EXEC groups of perms.h are assumed. perms.h is not part of this model.
- mprotect on the code address changes the protection of the whole code mapping, which is what the page-granular call does. PROT_MAX is modelled as the mapping's maximum protection.
- Concurrency is not modelled. The `__cid` counter, the shared printer buffer `buf` and the stacks are seen by one thread only.
- The printers' output goes to strings. `sprintf` and `strcpy` into the shared buffer are the functions `CapToStr` and `SealName`, and the choice between `dst` and `buf` is modelled only for `cap_perms_to_str`. `printf` in `fun` and `main`, and `cheri_csp_get`, are left out.
- Loads and stores through untagged or out-of-bounds capabilities do not fault in the model. The exception is the demo's data page, where a failed `mmap` gives None.
- Trampoline.Cpu.Call: the callee is described by its outputs (registers, csp, CID and a map of stores), not run. Its stores are required to avoid the caller's save frame and both records.
- Trampoline.Cpu.Invoke: requires the save frame to fit below csp (`FRAME_SIZE <= csp.address`) and not to overlap either record. The stack-pointer round trip is stated for an unsealed csp.
- Trampoline.Cpu.Enter: the memory after the prologue is stated through the `Pushed` predicate (frame contents plus "every other address reads as before"), not as an explicit map.
- The `brs` check is the pair test of `Trampoline.PairInvokable`. The architecture's test that the object type is not reserved is not modelled.
- `cmpt_call`, `cmpt_entry`, `cmpt_return` and `cmpt_switch` are assembly in lb.S and lpb.S. lb.S and lpb.S are not part of this model; they are the parameters of the demo's `create_cmpt`.
- Demo.CreateCmptLb and `Demo.CreateCmptLpb` require the page size to hold the descriptor (and the pair), as any real page does.
- Demo.CreateCmptLb: its ensures gives the memory as a map. Reading each slot back is stated by `Demo.DescriptorSlots`.
- Manager.CmptManager.CreateCmpt takes a stack size below 2^32 pages, matching the `unsigned` parameter.
- Manager.CmptManager.CreateCmpt requires the page size to hold the handle (HANDLE_SIZE, 448 bytes: the code, the record and the extra slot), as any real page does.
- Demo.Fun requires the sum to fit in an `int`, because signed overflow is undefined in C.
- src/main.c is not modelled: it is a second copy of the demo that declares its own static create_cmpt without defining it, and calls only that and cmpt_call.

## Findings

| source | as written | input that shows it | evidently intended | confidence | as-written member | corrected member |
|---|---|---|---|---|---|---|
| main.c:108-113 | the LPB variant stores `desc->target = target` before it turns an unsealed target into a sentry, so the sealed value is never used and the descriptor keeps the unsealed pointer | a tagged, unsealed function pointer (`Demo.PLAIN_FUN`), for which `Demo.LpbStoresTargetUnsealed` shows the stored value differs from the sentry | seal first and store the sentry, as the LB variant does at main.c:60-63 | medium, not executed | Demo.CreateCmptLpb | Demo.CreateCmptLpbSealed |
