/** The parts of the seL4 system-call layer (the `sel4_sys` crate) that the
    core consumes: machine words, the IPC-buffer layout, the message-info and
    cap-data bit fields (as abstract records), the kernel's error and
    lookup-failure label codes, and the kernel itself as an oracle that
    answers each call nondeterministically and records it in a ghost log. */
module Sel4Sys {

  /** seL4_Word. The send path copies `&[u32]` into the word-typed message
      registers, so the core only compiles where seL4_Word is 32 bits wide
      (and usize is too). */
  const WORD_BITS: nat := 32
  const WORD_LIMIT: int := 0x1_0000_0000
  type Word = x: int | 0 <= x < WORD_LIMIT
  type U8 = x: int | 0 <= x < 256
  type U32 = x: int | 0 <= x < 0x1_0000_0000

  /** Wrapping usize addition (Rust release-mode `+=`). */
  function WrapAdd(a: Word, b: Word): (r: Word)
    ensures a + b < WORD_LIMIT ==> r == a + b
    ensures a + b >= WORD_LIMIT ==> r == a + b - WORD_LIMIT
  {
    (a + b) % WORD_LIMIT
  }

  /** seL4_MsgMaxLength and seL4_MsgMaxExtraCaps. */
  const MSG_MAX_LENGTH: nat := 120
  const MSG_MAX_EXTRA_CAPS: nat := 3

  /** seL4_Error, in declaration order. */
  const NO_ERROR: Word := 0
  const INVALID_ARGUMENT: Word := 1
  const INVALID_CAPABILITY: Word := 2
  const ILLEGAL_OPERATION: Word := 3
  const RANGE_ERROR: Word := 4
  const ALIGNMENT_ERROR: Word := 5
  const FAILED_LOOKUP: Word := 6
  const TRUNCATED_MESSAGE: Word := 7
  const DELETE_FIRST: Word := 8
  const REVOKE_FIRST: Word := 9
  const NOT_ENOUGH_MEMORY: Word := 10

  /** seL4_LookupFailureType, in declaration order. */
  const NO_FAILURE: Word := 0
  const INVALID_ROOT: Word := 1
  const MISSING_CAPABILITY: Word := 2
  const DEPTH_MISMATCH: Word := 3
  const GUARD_MISMATCH: Word := 4

  /** seL4_MessageInfo: its four bit fields, seen through their accessors. */
  datatype MessageInfo = MessageInfo(msgLabel: Word, capsUnwrapped: Word, extraCaps: Word, length: Word)

  /** seL4_CapData: the badge field and, abstractly, every other bit. */
  datatype CapData = CapData(badgeField: U32, otherBits: Word)

  /** `core::mem::zeroed()` at type seL4_CapData. */
  function ZeroedCapData(): (d: CapData)
    ensures d.badgeField == 0 && d.otherBits == 0
  {
    CapData(0, 0)
  }

  /** seL4_CapData::set_Badge: writes the badge field and no other bit. */
  function SetBadge(d: CapData, v: U32): (r: CapData)
    ensures GetBadge(r) == v && r.otherBits == d.otherBits
  {
    d.(badgeField := v)
  }

  /** seL4_CapData::get_Badge. */
  function GetBadge(d: CapData): U32
  {
    d.badgeField
  }

  /** seL4_CapRights, passed through unchanged by the core. */
  type CapRights = Word

  /** seL4_IPCBuffer: the per-thread buffer shared with the kernel. */
  class IPCBuffer {
    var tag: MessageInfo
    const msg: array<Word>
    var userData: Word
    const capsOrBadges: array<Word>
    var receiveCNode: Word
    var receiveIndex: Word
    var receiveDepth: Word

    ghost predicate Valid()
      reads this
    {
      msg.Length == MSG_MAX_LENGTH && capsOrBadges.Length == MSG_MAX_EXTRA_CAPS
    }

    constructor ()
      ensures Valid() && fresh(msg) && fresh(capsOrBadges)
    {
      tag := MessageInfo(0, 0, 0, 0);
      msg := new Word[MSG_MAX_LENGTH](_ => 0);
      userData := 0;
      capsOrBadges := new Word[MSG_MAX_EXTRA_CAPS](_ => 0);
      receiveCNode, receiveIndex, receiveDepth := 0, 0, 0;
    }
  }

  /** One seL4_Untyped_Retype call, its eight arguments in order. */
  datatype RetypeCall = RetypeCall(
    untyped: Word, objType: Word, sizeBits: Word,
    root: Word, index: Word, depth: Word,
    offset: Word, count: Word)

  /** What the kernel saw, in the order it saw it. */
  datatype Event =
    | Retyped(call: RetypeCall, status: Word)
    | Sent(endpoint: Word, info: MessageInfo, blocking: bool, regs: seq<Word>, capRegs: seq<Word>)
    | Received(source: Word, blocking: bool, sender: Word, received: MessageInfo)

  function Min(a: int, b: int): int
  {
    if a <= b then a else b
  }

  /** The data words a send transfers: the first `length` message registers,
      the length clamped to seL4_MsgMaxLength. */
  function DeliveredWords(e: Event): seq<Word>
    requires e.Sent?
  {
    e.regs[..Min(Min(e.info.length, MSG_MAX_LENGTH), |e.regs|)]
  }

  /** The capability pointers a send transfers: the first `extraCaps` cap
      registers, at most seL4_MsgMaxExtraCaps of them. */
  function DeliveredCaps(e: Event): seq<Word>
    requires e.Sent?
  {
    e.capRegs[..Min(Min(e.info.extraCaps, MSG_MAX_EXTRA_CAPS), |e.capRegs|)]
  }

  /** The kernel as an oracle: every answer is arbitrary, every call is logged. */
  class Kernel {
    ghost var log: seq<Event>

    constructor ()
      ensures log == []
    {
      log := [];
    }

    /** seL4_Untyped_Retype: returns a status word (0 is success). A failing
        call leaves its error report in the calling thread's IPC buffer,
        in the tag and the message registers; what it writes there is
        arbitrary here. */
    method UntypedRetype(call: RetypeCall, buf: IPCBuffer) returns (status: Word)
      modifies this, buf`tag, buf.msg
      ensures log == old(log) + [Retyped(call, status)]
    {
      status :| true;
      log := log + [Retyped(call, status)];
      var t: MessageInfo :| true;
      buf.tag := t;
    }

    /** seL4_Send (blocking) or seL4_NBSend. The event records the message
        and cap registers as they were at the call, which is where the kernel
        reads the words and capabilities it transfers. The kernel may answer
        in the tag and the message registers (an error report); it does not
        write the caps-or-badges registers on a send. */
    method Send(endpoint: Word, info: MessageInfo, blocking: bool, buf: IPCBuffer)
      modifies this, buf`tag, buf.msg
      ensures log == old(log) + [Sent(endpoint, info, blocking, old(buf.msg[..]), old(buf.capsOrBadges[..]))]
    {
      log := log + [Sent(endpoint, info, blocking, buf.msg[..], buf.capsOrBadges[..])];
      var t: MessageInfo :| true;
      buf.tag := t;
    }

    /** seL4_Recv (blocking) or seL4_NBRecv: delivers into the buffer's
        registers and returns the sender word and the message info. The
        length is assumed to be at most seL4_MsgMaxLength, as the seL4
        kernel clamps it; `capsUnwrapped` is left unconstrained. */
    method Recv(source: Word, blocking: bool, buf: IPCBuffer) returns (sender: Word, info: MessageInfo)
      modifies this, buf.msg, buf.capsOrBadges
      ensures info.length <= MSG_MAX_LENGTH
      ensures log == old(log) + [Received(source, blocking, sender, info)]
    {
      sender :| true;
      assert MessageInfo(0, 0, 0, 0).length <= MSG_MAX_LENGTH;
      info :| info.length <= MSG_MAX_LENGTH;
      log := log + [Received(source, blocking, sender, info)];
    }
  }
}
