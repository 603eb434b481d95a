/** Message passing over endpoints. Sending copies the data words and the
    capability pointers into the IPC buffer and makes one send call with a
    message info describing exactly them; receiving returns a token from
    which the delivered words and unwrapped capabilities are copied out of
    the buffer into caller-provided slices. */
module Endpoint {
  import opened Sel4Sys
  import opened Lib
  import opened Macros
  import opened Wrappers

  /** The result of a successful receive: the sender's badge and the decoded
      message info. */
  datatype RecvToken = RecvToken(badge: Word, msgLabel: Word, capsUnwrapped: Word, len: Word)

  /** `RecvToken::from_raw`. */
  function FromRaw(sender: Word, info: MessageInfo): (t: RecvToken)
    ensures t.badge == sender && t.msgLabel == info.msgLabel
    ensures CapsUnwrapped(t) == info.capsUnwrapped && WordsTransferred(t) == info.length
  {
    RecvToken(sender, info.msgLabel, info.capsUnwrapped, info.length)
  }

  function CapsUnwrapped(t: RecvToken): Word
  {
    t.capsUnwrapped
  }

  function WordsTransferred(t: RecvToken): Word
  {
    t.len
  }

  /** The token's length is within the message registers. The kernel clamps
      the length it delivers to seL4_MsgMaxLength; `get_data` relies on it. */
  predicate FitsBuffer(t: RecvToken)
  {
    t.len <= MSG_MAX_LENGTH
  }

  /** The local checks `send_message` makes before touching the buffer: too
      much data is reported first, then too many capabilities. */
  function CheckLimits(dataLen: nat, capsLen: nat): (r: Option<Error>)
    ensures r == None <==> dataLen <= MSG_MAX_LENGTH && capsLen <= MSG_MAX_EXTRA_CAPS
    ensures r == Some(Error(TooMuchData)) <==> dataLen > MSG_MAX_LENGTH
    ensures r == Some(Error(TooManyCaps)) <==> dataLen <= MSG_MAX_LENGTH && capsLen > MSG_MAX_EXTRA_CAPS
  {
    if dataLen > MSG_MAX_LENGTH then Some(Error(TooMuchData))
    else if capsLen > MSG_MAX_EXTRA_CAPS then Some(Error(TooManyCaps))
    else None
  }

  /** The message info a send of `data` and `caps` carries: label 0, no
      unwrapped capabilities, and the two lengths. */
  function SendInfo(dataLen: Word, capsLen: Word): (info: MessageInfo)
    ensures info.msgLabel == 0 && info.capsUnwrapped == 0
    ensures info.extraCaps == capsLen && info.length == dataLen
  {
    MessageInfo(0, 0, capsLen, dataLen)
  }

  /** What the kernel is handed by a send that passed the local checks: the
      registers as the copies left them transfer exactly `data` and `caps`. */
  lemma SendDelivers(ep: Word, blocking: bool, data: seq<Word>, caps: seq<Word>,
                     msgBefore: seq<Word>, capsBefore: seq<Word>)
    requires CheckLimits(|data|, |caps|).None?
    requires |msgBefore| == MSG_MAX_LENGTH && |capsBefore| == MSG_MAX_EXTRA_CAPS
    ensures DeliveredWords(Sent(ep, SendInfo(|data|, |caps|), blocking,
                                data + msgBefore[|data|..], caps + capsBefore[|caps|..])) == data
    ensures DeliveredCaps(Sent(ep, SendInfo(|data|, |caps|), blocking,
                               data + msgBefore[|data|..], caps + capsBefore[|caps|..])) == caps
  {
  }

  /** The body shared by `send_message` (blocking) and `try_send_message`
      (non-blocking): check the limits, copy into the buffer, send, and then
      report an error exactly when the kernel left a nonzero label in the
      tag. A failed local check leaves the buffer and the kernel alone. The
      logged send records the registers as the copies left them, so the
      kernel receives exactly `data` and `caps`; afterwards the message
      registers hold whatever the kernel answered. */
  method SendMessageOn(k: Kernel, ep: Endpoint, buf: IPCBuffer, data: seq<Word>, caps: seq<Word>,
                       blocking: bool) returns (r: SysResult)
    requires buf.Valid()
    modifies k, buf`tag, buf.msg, buf.capsOrBadges
    ensures CheckLimits(|data|, |caps|).Some? ==>
              && r == Err(CheckLimits(|data|, |caps|).value)
              && unchanged(k) && unchanged(buf) && unchanged(buf.msg) && unchanged(buf.capsOrBadges)
    ensures CheckLimits(|data|, |caps|).None? ==>
              && k.log == old(k.log) + [Sent(ep.cptr, SendInfo(|data|, |caps|), blocking,
                                             data + old(buf.msg[|data|..]),
                                             caps + old(buf.capsOrBadges[|caps|..]))]
              && DeliveredWords(k.log[|k.log| - 1]) == data
              && DeliveredCaps(k.log[|k.log| - 1]) == caps
              && buf.capsOrBadges[..] == caps + old(buf.capsOrBadges[|caps|..])
              && (r.Ok? <==> buf.tag.msgLabel == 0)
              && (r.Err? ==> r.error == Error(CheckIPCBuf))
  {
    if |data| > MSG_MAX_LENGTH {
      return Err(Error(TooMuchData));
    }
    if |caps| > MSG_MAX_EXTRA_CAPS {
      return Err(Error(TooManyCaps));
    }
    forall i | 0 <= i < |data| {
      buf.msg[i] := data[i];
    }
    forall i | 0 <= i < |caps| {
      buf.capsOrBadges[i] := caps[i];
    }
    assert buf.msg[..] == data + old(buf.msg[|data|..]);
    assert buf.capsOrBadges[..] == caps + old(buf.capsOrBadges[|caps|..]);
    SendDelivers(ep.cptr, blocking, data, caps, old(buf.msg[..]), old(buf.capsOrBadges[..]));
    assert old(buf.msg[..])[|data|..] == old(buf.msg[|data|..]);
    assert old(buf.capsOrBadges[..])[|caps|..] == old(buf.capsOrBadges[|caps|..]);
    k.Send(ep.cptr, SendInfo(|data|, |caps|), blocking, buf);
    if buf.tag.msgLabel != 0 {
      return Err(Error(CheckIPCBuf));
    }
    return Ok;
  }

  /** `send_message`: seL4_Send in its full generality. */
  method SendMessage(k: Kernel, ep: Endpoint, buf: IPCBuffer, data: seq<Word>, caps: seq<Word>)
    returns (r: SysResult)
    requires buf.Valid()
    modifies k, buf`tag, buf.msg, buf.capsOrBadges
    ensures CheckLimits(|data|, |caps|).Some? ==>
              && r == Err(CheckLimits(|data|, |caps|).value)
              && unchanged(k) && unchanged(buf) && unchanged(buf.msg) && unchanged(buf.capsOrBadges)
    ensures CheckLimits(|data|, |caps|).None? ==>
              && k.log == old(k.log) + [Sent(ep.cptr, SendInfo(|data|, |caps|), true,
                                             data + old(buf.msg[|data|..]),
                                             caps + old(buf.capsOrBadges[|caps|..]))]
              && DeliveredWords(k.log[|k.log| - 1]) == data
              && DeliveredCaps(k.log[|k.log| - 1]) == caps
              && buf.capsOrBadges[..] == caps + old(buf.capsOrBadges[|caps|..])
              && (r.Ok? <==> buf.tag.msgLabel == 0)
              && (r.Err? ==> r.error == Error(CheckIPCBuf))
  {
    r := SendMessageOn(k, ep, buf, data, caps, true);
  }

  /** `try_send_message`: the same with seL4_NBSend, which drops the message
      when no receiver is waiting. */
  method TrySendMessage(k: Kernel, ep: Endpoint, buf: IPCBuffer, data: seq<Word>, caps: seq<Word>)
    returns (r: SysResult)
    requires buf.Valid()
    modifies k, buf`tag, buf.msg, buf.capsOrBadges
    ensures CheckLimits(|data|, |caps|).Some? ==>
              && r == Err(CheckLimits(|data|, |caps|).value)
              && unchanged(k) && unchanged(buf) && unchanged(buf.msg) && unchanged(buf.capsOrBadges)
    ensures CheckLimits(|data|, |caps|).None? ==>
              && k.log == old(k.log) + [Sent(ep.cptr, SendInfo(|data|, |caps|), false,
                                             data + old(buf.msg[|data|..]),
                                             caps + old(buf.capsOrBadges[|caps|..]))]
              && DeliveredWords(k.log[|k.log| - 1]) == data
              && DeliveredCaps(k.log[|k.log| - 1]) == caps
              && buf.capsOrBadges[..] == caps + old(buf.capsOrBadges[|caps|..])
              && (r.Ok? <==> buf.tag.msgLabel == 0)
              && (r.Err? ==> r.error == Error(CheckIPCBuf))
  {
    r := SendMessageOn(k, ep, buf, data, caps, false);
  }

  /** `send_data`: data only; the capability registers are left as they were. */
  method SendData(k: Kernel, ep: Endpoint, buf: IPCBuffer, data: seq<Word>) returns (r: SysResult)
    requires buf.Valid()
    modifies k, buf`tag, buf.msg, buf.capsOrBadges
    ensures |data| > MSG_MAX_LENGTH ==>
              && r == Err(Error(TooMuchData))
              && unchanged(k) && unchanged(buf) && unchanged(buf.msg) && unchanged(buf.capsOrBadges)
    ensures |data| <= MSG_MAX_LENGTH ==>
              && k.log == old(k.log) + [Sent(ep.cptr, SendInfo(|data|, 0), true,
                                             data + old(buf.msg[|data|..]), old(buf.capsOrBadges[..]))]
              && DeliveredWords(k.log[|k.log| - 1]) == data
              && DeliveredCaps(k.log[|k.log| - 1]) == []
              && buf.capsOrBadges[..] == old(buf.capsOrBadges[..])
              && (r.Ok? <==> buf.tag.msgLabel == 0)
              && (r.Err? ==> r.error == Error(CheckIPCBuf))
  {
    r := SendMessage(k, ep, buf, data, []);
    assert [] + old(buf.capsOrBadges[0..]) == old(buf.capsOrBadges[..]);
  }

  /** `send_cap`: one capability and no data; it can never fail locally. */
  method SendCap(k: Kernel, ep: Endpoint, buf: IPCBuffer, cap: Cap) returns (r: SysResult)
    requires buf.Valid()
    modifies k, buf`tag, buf.msg, buf.capsOrBadges
    ensures k.log == old(k.log) + [Sent(ep.cptr, SendInfo(0, 1), true,
                                        old(buf.msg[..]), [ToCap(cap)] + old(buf.capsOrBadges[1..]))]
    ensures DeliveredWords(k.log[|k.log| - 1]) == []
    ensures DeliveredCaps(k.log[|k.log| - 1]) == [ToCap(cap)]
    ensures buf.capsOrBadges[..] == [ToCap(cap)] + old(buf.capsOrBadges[1..])
    ensures r.Ok? <==> buf.tag.msgLabel == 0
    ensures r.Err? ==> r.error == Error(CheckIPCBuf)
  {
    r := SendMessage(k, ep, buf, [], [ToCap(cap)]);
    assert [] + old(buf.msg[0..]) == old(buf.msg[..]);
  }

  /** `RecvToken::get_data`: fails, copying nothing, exactly when `data` is
      shorter than the words transferred; otherwise copies exactly those
      words to the front of `data`. */
  method GetData(t: RecvToken, buf: IPCBuffer, data: array<Word>) returns (r: Result<()>)
    requires buf.Valid() && FitsBuffer(t) && data != buf.msg
    modifies data
    ensures r.Err? <==> data.Length < WordsTransferred(t)
    ensures r.Err? ==> data[..] == old(data[..])
    ensures r.Ok? ==> data[..t.len] == buf.msg[..t.len] && data[t.len..] == old(data[t.len..])
  {
    if data.Length < MSG_MAX_LENGTH && data.Length < t.len {
      return Err(());
    }
    forall i | 0 <= i < t.len {
      data[i] := buf.msg[i];
    }
    return Ok;
  }

  /** The guard of `get_unwrapped_caps` as written: it lets the copy of
      `caps_unwrapped` words through whenever the slice is at least
      seL4_MsgMaxExtraCaps long, whatever `caps_unwrapped` is. */
  predicate UnwrappedCapsGuardPassesAsWritten(capsLen: nat, capsUnwrapped: Word)
  {
    !(capsLen < MSG_MAX_EXTRA_CAPS && capsLen < capsUnwrapped)
  }

  /** A token with `caps_unwrapped` = 4 (in seL4 a bit mask: only the third
      extra cap unwrapped) and a 3-word slice: the written guard passes, and
      the copy then reads 4 words out of the 3 caps-or-badges registers. */
  lemma UnwrappedCapsOverRead(buf: IPCBuffer)
    requires buf.Valid()
    ensures UnwrappedCapsGuardPassesAsWritten(3, 4)
    ensures 4 > buf.capsOrBadges.Length
  {
  }

  /** `RecvToken::get_unwrapped_caps`, with the copy kept inside the
      caps-or-badges registers: fails, copying nothing, exactly when the
      slice is shorter than `caps_unwrapped` or `caps_unwrapped` exceeds the
      registers; otherwise copies exactly those words to the front of
      `caps`. For `caps_unwrapped` up to seL4_MsgMaxExtraCaps this is the
      source's guard. */
  method GetUnwrappedCaps(t: RecvToken, buf: IPCBuffer, caps: array<Word>) returns (r: Result<()>)
    requires buf.Valid() && caps != buf.capsOrBadges
    modifies caps
    ensures r.Err? <==> caps.Length < CapsUnwrapped(t) || CapsUnwrapped(t) > MSG_MAX_EXTRA_CAPS
    ensures CapsUnwrapped(t) <= MSG_MAX_EXTRA_CAPS ==>
              (r.Err? <==> !UnwrappedCapsGuardPassesAsWritten(caps.Length, CapsUnwrapped(t)))
    ensures r.Err? ==> caps[..] == old(caps[..])
    ensures r.Ok? ==> caps[..t.capsUnwrapped] == buf.capsOrBadges[..t.capsUnwrapped]
                      && caps[t.capsUnwrapped..] == old(caps[t.capsUnwrapped..])
  {
    if t.capsUnwrapped > MSG_MAX_EXTRA_CAPS
       || (caps.Length < MSG_MAX_EXTRA_CAPS && caps.Length < t.capsUnwrapped) {
      return Err(());
    }
    forall i | 0 <= i < t.capsUnwrapped {
      caps[i] := buf.capsOrBadges[i];
    }
    return Ok;
  }

  /** The receive on `ep` that the kernel's last log entry records, and the
      token it yields. */
  ghost predicate ReceivedBy(log: seq<Event>, before: seq<Event>, ep: Endpoint, blocking: bool, t: RecvToken)
  {
    && |log| == |before| + 1
    && log[..|before|] == before
    && log[|before|].Received?
    && log[|before|].source == ep.cptr
    && log[|before|].blocking == blocking
    && t == FromRaw(log[|before|].sender, log[|before|].received)
  }

  /** `recv`: block until a message arrives. */
  method Recv(k: Kernel, ep: Endpoint, buf: IPCBuffer) returns (t: RecvToken)
    modifies k, buf.msg, buf.capsOrBadges
    ensures FitsBuffer(t)
    ensures ReceivedBy(k.log, old(k.log), ep, true, t)
  {
    var sender, info := k.Recv(ep.cptr, true, buf);
    t := FromRaw(sender, info);
  }

  /** `try_recv`: the same without blocking; the kernel reports "nothing
      there" through badge 0. */
  method TryRecv(k: Kernel, ep: Endpoint, buf: IPCBuffer) returns (t: RecvToken)
    modifies k, buf.msg, buf.capsOrBadges
    ensures FitsBuffer(t)
    ensures ReceivedBy(k.log, old(k.log), ep, false, t)
  {
    var sender, info := k.Recv(ep.cptr, false, buf);
    t := FromRaw(sender, info);
  }
}
