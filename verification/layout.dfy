/**
 * Layout constants of the compartment manager: the records of
 * src/manager.c with 16-byte capability slots, and the offsets of the
 * trampoline's labels in the relocated code copy.
 */
module CmptLayout {
  import opened Cheri

  /** sizeof(void *) for a capability. */
  const CAP_SIZE: nat := 16

  // cmpt_impl_t: cid, target, entry, data, exit
  const IMPL_CID: nat := 0 * CAP_SIZE
  const IMPL_TARGET: nat := 1 * CAP_SIZE
  const IMPL_ENTRY: nat := 2 * CAP_SIZE
  const IMPL_DATA: nat := 3 * CAP_SIZE
  const IMPL_EXIT: nat := 4 * CAP_SIZE
  const IMPL_SIZE: nat := 5 * CAP_SIZE

  // cmpt_data_t: stack, cid
  const DATA_STACK: nat := 0 * CAP_SIZE
  const DATA_CID: nat := 1 * CAP_SIZE
  const DATA_SIZE: nat := 2 * CAP_SIZE

  /** Every instruction is 4 bytes. */
  const INSN: nat := 4

  /**
   * Instruction counts of the trampoline as clang emits it for a naked
   * function: 12 before _cmpt_start (sub, six stp, adr, alignu, two ldp,
   * brs), 59 up to _cmpt_end (eight swap instructions, 28 register
   * clears, blr, 18 register clears, adr, alignu, ldp, brs) and 15 up to
   * _trampoline_end (six swap instructions, six ldp, add, ret, udf).
   */
  const ENTER_INSNS: nat := 12
  const BODY_INSNS: nat := 8 + 28 + 1 + 18 + 4
  const EXIT_INSNS: nat := 6 + 6 + 3

  /** Label offsets from _trampoline. */
  const CMPT_START: nat := INSN * ENTER_INSNS
  const CMPT_END: nat := CMPT_START + INSN * BODY_INSNS
  const TRAMPOLINE_END: nat := CMPT_END + INSN * EXIT_INSNS

  /** Size of the caller's save frame: six pairs of capability registers. */
  const FRAME_SIZE: nat := 6 * 32

  /** Immediate offsets the trampoline's loads and stores use on the records. */
  const LDP_ENTER_CID_TARGET: nat := 0
  const LDP_ENTER_ENTRY_DATA: nat := 32
  const LDP_EXIT_DATA_EXIT: nat := 48
  const STR_SAVED_CID: nat := 16
  const LDR_STACK: nat := 0

  /** Where in the save frame `stp`/`ldp` keep callee-saved register r (19 to 30). */
  function FrameSlot(r: nat): (off: nat)
    requires 19 <= r <= 30
    ensures off < FRAME_SIZE && off % CAP_SIZE == 0
  {
    if r % 2 == 1 then 16 * (29 - r) else 16 * (30 - r) + 16
  }

  /** Each callee-saved register has a slot of its own. */
  lemma FrameSlotsDistinct(r: nat, s: nat)
    requires 19 <= r <= 30 && 19 <= s <= 30 && r != s
    ensures FrameSlot(r) != FrameSlot(s)
  {
  }

  /** The pairs the trampoline stores and loads: (c29, c30) at 0, ..., (c19, c20) at 160. */
  lemma FramePairs(k: nat)
    requires k < 6
    ensures FrameSlot(29 - 2 * k) == 32 * k
    ensures FrameSlot(30 - 2 * k) == 32 * k + 16
  {
  }

  /**
   * The trampoline's immediate offsets name the struct fields they are
   * meant to: `ldp c26, c30, [c27, #0]` reads cid and target, `ldp c27,
   * c28, [c27, #32]` entry and data, `ldp c28, c27, [c27, #48]` data and
   * exit; `[c29, #16]` is the saved CID and `[c29]` the stack.
   */
  lemma TrampolineOffsetsMatchStructs()
    ensures LDP_ENTER_CID_TARGET == IMPL_CID && LDP_ENTER_CID_TARGET + CAP_SIZE == IMPL_TARGET
    ensures LDP_ENTER_ENTRY_DATA == IMPL_ENTRY && LDP_ENTER_ENTRY_DATA + CAP_SIZE == IMPL_DATA
    ensures LDP_EXIT_DATA_EXIT == IMPL_DATA && LDP_EXIT_DATA_EXIT + CAP_SIZE == IMPL_EXIT
    ensures STR_SAVED_CID == DATA_CID && LDR_STACK == DATA_STACK
  {
  }

  /** `code_sz` after cheri_align_up: where create_cmpt puts the record. */
  const IMPL_OFFSET: nat := 352

  /** Bytes the final handle spans: code, record and one more capability. */
  const HANDLE_SIZE: nat := IMPL_OFFSET + IMPL_SIZE + CAP_SIZE

  /** The record follows the code rounded up to a capability boundary. */
  lemma ImplOffsetIsAlignedCodeSize()
    ensures AlignUp16(TRAMPOLINE_END) == IMPL_OFFSET
    ensures TRAMPOLINE_END <= IMPL_OFFSET
    ensures HANDLE_SIZE == 448
  {
  }

  /**
   * In a 16-byte-aligned code copy, `adr _trampoline_end; alignu #4` lands
   * on the record create_cmpt wrote at code + code_sz.
   */
  lemma AdrFindsImpl(code: u64)
    requires code % 16 == 0 && code + HANDLE_SIZE <= WORD
    ensures AlignUp16(Wrap(code + TRAMPOLINE_END)) == Wrap(code + IMPL_OFFSET)
  {
    var x := code + TRAMPOLINE_END;
    assert x == code + 344;
    assert (x + 15) / 16 * 16 == code + 352 by {
      assert x + 15 == (code / 16 + 22) * 16 + 7;
    }
  }
}
