/** Decoding the kernel's structured error report. After a failed call the
    kernel leaves a label in the buffer's tag and label-specific words in the
    message registers; `Error::details` turns them into an ErrorDetails,
    reading a nested lookup-failure report for FailedLookup. Labels outside
    the kernel's enumerations are a contract violation and abort. */
module ErrorDecode {
  import opened Sel4Sys
  import opened Lib
  import opened Wrappers

  /** Ways capability lookup can fail. */
  datatype LookupFailureKind =
    | InvalidRoot
    | MissingCapability(bitsRemaining: Word)
    | DepthMismatch(bitsRemaining: Word, bitsResolved: Word)
    | GuardMismatch(bitsRemaining: Word, guard: Word, guardSize: Word)

  /** Detailed information about an error. */
  datatype ErrorDetails =
    | InvalidArgument(which: Word)
    | InvalidCapability(which: Word)
    | IllegalOperation
    | RangeError(min: Word, max: Word)
    | AlignmentError
    | FailedLookup(failedForSource: bool, lookupKind: LookupFailureKind)
    | TruncatedMessage
    | DeleteFirst
    | RevokeFirst
    | NotEnoughMemory(bytesAvailable: Word)
    | TooMuchData
    | TooManyCaps

  /** A decode either aborts (a failed `assert!`) or returns a value. */
  datatype Decoded<+T> = Panic(message: string) | Value(value: T)

  predicate KnownErrorLabel(lbl: Word)
  {
    lbl <= NOT_ENOUGH_MEMORY
  }

  predicate KnownLookupKind(kind: Word)
  {
    kind <= GUARD_MISMATCH
  }

  // ---- The kernel's side: how it lays an error out in the buffer ---------

  function LookupLabel(k: LookupFailureKind): Word
  {
    match k
    case InvalidRoot => INVALID_ROOT
    case MissingCapability(_) => MISSING_CAPABILITY
    case DepthMismatch(_, _) => DEPTH_MISMATCH
    case GuardMismatch(_, _, _) => GUARD_MISMATCH
  }

  /** The detail words of a lookup failure, in register order. */
  function LookupFields(k: LookupFailureKind): seq<Word>
  {
    match k
    case InvalidRoot => []
    case MissingCapability(b) => [b]
    case DepthMismatch(b, r) => [b, r]
    case GuardMismatch(b, g, s) => [b, g, s]
  }

  /** How many detail words follow a lookup-failure kind word. */
  function LookupWordCount(kind: Word): nat
  {
    if kind == MISSING_CAPABILITY then 1
    else if kind == DEPTH_MISMATCH then 2
    else if kind == GUARD_MISMATCH then 3
    else 0
  }

  /** The errors the kernel reports through the buffer (the other two are
      detected locally). */
  predicate KernelReported(d: ErrorDetails)
  {
    !d.TooMuchData? && !d.TooManyCaps?
  }

  function ErrorLabel(d: ErrorDetails): Word
    requires KernelReported(d)
  {
    match d
    case InvalidArgument(_) => INVALID_ARGUMENT
    case InvalidCapability(_) => INVALID_CAPABILITY
    case IllegalOperation => ILLEGAL_OPERATION
    case RangeError(_, _) => RANGE_ERROR
    case AlignmentError => ALIGNMENT_ERROR
    case FailedLookup(_, _) => FAILED_LOOKUP
    case TruncatedMessage => TRUNCATED_MESSAGE
    case DeleteFirst => DELETE_FIRST
    case RevokeFirst => REVOKE_FIRST
    case NotEnoughMemory(_) => NOT_ENOUGH_MEMORY
  }

  /** The message registers the kernel writes for `d`, from register 0. */
  function Layout(d: ErrorDetails): seq<Word>
    requires KernelReported(d)
  {
    match d
    case InvalidArgument(w) => [w]
    case InvalidCapability(w) => [w]
    case RangeError(lo, hi) => [lo, hi]
    case FailedLookup(src, k) => [if src then 1 else 0, LookupLabel(k)] + LookupFields(k)
    case NotEnoughMemory(n) => [n]
    case _ => []
  }

  /** The buffer holds `d`'s layout, reading the source flag as "is 1". */
  predicate Agrees(d: ErrorDetails, msg: seq<Word>)
    requires KernelReported(d)
  {
    && |Layout(d)| <= |msg|
    && if d.FailedLookup? then
         (msg[0] == 1 <==> d.failedForSource) && msg[1..|Layout(d)|] == Layout(d)[1..]
       else
         msg[..|Layout(d)|] == Layout(d)
  }

  // ---- The decoder -------------------------------------------------------

  /** `LookupFailureKind::from_ipcbuf`: the kind word at `typeIdx`, its
      detail words from `detailsIdx` on. */
  function LookupFromIpcBuf(msg: seq<Word>, typeIdx: nat, detailsIdx: nat): (r: Decoded<Option<LookupFailureKind>>)
    requires typeIdx < |msg| && detailsIdx + LookupWordCount(msg[typeIdx]) <= |msg|
    ensures r.Panic? <==> !KnownLookupKind(msg[typeIdx])
    ensures r == Value(None) <==> msg[typeIdx] == NO_FAILURE
    ensures r.Value? && r.value.Some? ==>
              && LookupLabel(r.value.value) == msg[typeIdx]
              && LookupFields(r.value.value) == msg[detailsIdx..detailsIdx + LookupWordCount(msg[typeIdx])]
  {
    var kind := msg[typeIdx];
    if !KnownLookupKind(kind) then Panic("Unknown lookup failure type")
    else if kind == NO_FAILURE then Value(None)
    else if kind == INVALID_ROOT then Value(Some(InvalidRoot))
    else if kind == MISSING_CAPABILITY then
      Value(Some(MissingCapability(msg[detailsIdx])))
    else if kind == DEPTH_MISMATCH then
      Value(Some(DepthMismatch(msg[detailsIdx], msg[detailsIdx + 1])))
    else
      Value(Some(GuardMismatch(msg[detailsIdx], msg[detailsIdx + 1], msg[detailsIdx + 2])))
  }

  /** `Error::details`. The two locally detected errors decode without
      looking at the buffer; CheckIPCBuf decodes the buffer's label and
      message registers. `None` means the buffer reports no error. */
  function Details(e: Error, lbl: Word, msg: seq<Word>): (r: Decoded<Option<ErrorDetails>>)
    requires |msg| == MSG_MAX_LENGTH
    ensures e.goOn.TooMuchData? ==> r == Value(Some(ErrorDetails.TooMuchData))
    ensures e.goOn.TooManyCaps? ==> r == Value(Some(ErrorDetails.TooManyCaps))
    ensures e.goOn == CheckIPCBuf ==>
              (r.Panic? <==> !KnownErrorLabel(lbl) || (lbl == FAILED_LOOKUP && !KnownLookupKind(msg[1])))
    ensures e.goOn == CheckIPCBuf ==>
              (r == Value(None) <==> lbl == NO_ERROR || (lbl == FAILED_LOOKUP && msg[1] == NO_FAILURE))
    ensures e.goOn == CheckIPCBuf && r.Value? && r.value.Some? ==>
              KernelReported(r.value.value) && ErrorLabel(r.value.value) == lbl && Agrees(r.value.value, msg)
  {
    match e.goOn
    case TooMuchData => Value(Some(ErrorDetails.TooMuchData))
    case TooManyCaps => Value(Some(ErrorDetails.TooManyCaps))
    case CheckIPCBuf =>
      if !KnownErrorLabel(lbl) then Panic("Unknown error type")
      else if lbl == NO_ERROR then Value(None)
      else if lbl == INVALID_ARGUMENT then Value(Some(InvalidArgument(msg[0])))
      else if lbl == INVALID_CAPABILITY then Value(Some(InvalidCapability(msg[0])))
      else if lbl == ILLEGAL_OPERATION then Value(Some(IllegalOperation))
      else if lbl == RANGE_ERROR then Value(Some(RangeError(msg[0], msg[1])))
      else if lbl == ALIGNMENT_ERROR then Value(Some(AlignmentError))
      else if lbl == FAILED_LOOKUP then
        match LookupFromIpcBuf(msg, 1, 2)
        case Panic(m) => Panic(m)
        case Value(None) => Value(None)
        case Value(Some(k)) => Value(Some(FailedLookup(msg[0] == 1, k)))
      else if lbl == TRUNCATED_MESSAGE then Value(Some(TruncatedMessage))
      else if lbl == DELETE_FIRST then Value(Some(DeleteFirst))
      else if lbl == REVOKE_FIRST then Value(Some(RevokeFirst))
      else Value(Some(NotEnoughMemory(msg[0])))
  }

  // ---- Decoding inverts the kernel's layout ------------------------------

  /** Every lookup failure the kernel writes decodes back to itself. */
  lemma LookupRoundTrip(k: LookupFailureKind, msg: seq<Word>, typeIdx: nat, detailsIdx: nat)
    requires typeIdx < |msg| && detailsIdx + |LookupFields(k)| <= |msg|
    requires msg[typeIdx] == LookupLabel(k)
    requires msg[detailsIdx..detailsIdx + |LookupFields(k)|] == LookupFields(k)
    ensures LookupFromIpcBuf(msg, typeIdx, detailsIdx) == Value(Some(k))
  {
  }

  /** Every error the kernel writes decodes back to itself; with the
      postcondition of Details this makes decoding exactly the inverse of
      the layout. */
  lemma DetailsComplete(d: ErrorDetails, msg: seq<Word>)
    requires KernelReported(d) && |msg| == MSG_MAX_LENGTH && Agrees(d, msg)
    ensures Details(Error(CheckIPCBuf), ErrorLabel(d), msg) == Value(Some(d))
  {
  }

  /** Nested decoding reads the kind word and its LookupWordCount detail
      words and nothing else. */
  lemma LookupReadsOnly(msg: seq<Word>, other: seq<Word>, typeIdx: nat, detailsIdx: nat)
    requires typeIdx < |msg| && detailsIdx + LookupWordCount(msg[typeIdx]) <= |msg|
    requires typeIdx < |other| && detailsIdx + LookupWordCount(msg[typeIdx]) <= |other|
    requires other[typeIdx] == msg[typeIdx]
    requires other[detailsIdx..detailsIdx + LookupWordCount(msg[typeIdx])]
             == msg[detailsIdx..detailsIdx + LookupWordCount(msg[typeIdx])]
    ensures LookupFromIpcBuf(other, typeIdx, detailsIdx) == LookupFromIpcBuf(msg, typeIdx, detailsIdx)
  {
  }

  // ---- The range checks as written ---------------------------------------

  /** The label check as written in the source: it passes only for labels
      ABOVE NotEnoughMemory, i.e. only for labels outside seL4_Error. */
  predicate ErrorLabelAssertAsWritten(lbl: Word)
  {
    lbl > NOT_ENOUGH_MEMORY
  }

  /** The lookup-kind check as written: passes only above GuardMismatch. */
  predicate LookupKindAssertAsWritten(kind: Word)
  {
    kind > GUARD_MISMATCH
  }

  /** As written, the label check rejects every label the kernel can send
      and lets every unknown one through to the transmute. */
  lemma ErrorLabelAssertInverted(lbl: Word)
    ensures ErrorLabelAssertAsWritten(lbl) <==> !KnownErrorLabel(lbl)
  {
  }

  lemma LookupKindAssertInverted(kind: Word)
    ensures LookupKindAssertAsWritten(kind) <==> !KnownLookupKind(kind)
  {
  }

  /** A RangeError report (min 5, max 10): the written check aborts on it,
      while the intended decoder returns RangeError { min: 5, max: 10 }. */
  lemma RangeErrorExample(msg: seq<Word>)
    requires |msg| == MSG_MAX_LENGTH && msg[0] == 5 && msg[1] == 10
    ensures !ErrorLabelAssertAsWritten(RANGE_ERROR)
    ensures Details(Error(CheckIPCBuf), RANGE_ERROR, msg) == Value(Some(RangeError(5, 10)))
  {
  }

  /** A failed source lookup with a guard mismatch (3 bits left, guard 0xF
      of 4 bits): the written nested check aborts on it, while the intended
      decoder returns the full report. */
  lemma GuardMismatchExample(msg: seq<Word>)
    requires |msg| == MSG_MAX_LENGTH && msg[0] == 1 && msg[1] == GUARD_MISMATCH
    requires msg[2] == 3 && msg[3] == 0xF && msg[4] == 4
    ensures !LookupKindAssertAsWritten(GUARD_MISMATCH)
    ensures LookupFromIpcBuf(msg, 1, 2) == Value(Some(GuardMismatch(3, 0xF, 4)))
    ensures Details(Error(CheckIPCBuf), FAILED_LOOKUP, msg)
            == Value(Some(FailedLookup(true, GuardMismatch(3, 0xF, 4))))
  {
  }
}
