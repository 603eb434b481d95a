/** The (thread-local) destination slot for capabilities received over IPC:
    three fields of the IPC buffer, written and read back as a SlotRef. The
    buffer is passed explicitly instead of being looked up per thread. */
module CapDestination {
  import opened Sel4Sys
  import opened Macros
  import opened CSpace

  /** `receiveDepth as u8`: keeps the low eight bits. */
  function NarrowToU8(w: Word): (r: U8)
    ensures w < 256 ==> r == w
    ensures (w - r) % 256 == 0
  {
    w % 256
  }

  /** `get_cap_destination`: the slot named by receiveCNode, receiveIndex
      and receiveDepth. */
  function GetCapDestination(buf: IPCBuffer): (s: SlotRef)
    reads buf
    ensures ToCap(s.root) == buf.receiveCNode && s.index == buf.receiveIndex
    ensures s.depth == buf.receiveDepth % 256
  {
    NewSlotRef(FromCap(buf.receiveCNode), buf.receiveIndex, NarrowToU8(buf.receiveDepth))
  }

  /** `set_cap_destination`: writes the three receive fields of the buffer
      and no other; reading them back yields `slot`, since a u8 depth
      widened to a word narrows back unchanged. */
  method SetCapDestination(buf: IPCBuffer, slot: SlotRef)
    modifies buf`receiveCNode, buf`receiveIndex, buf`receiveDepth
    ensures buf.receiveCNode == ToCap(slot.root)
    ensures buf.receiveIndex == slot.index
    ensures buf.receiveDepth == slot.depth
    ensures GetCapDestination(buf) == slot
  {
    buf.receiveCNode := ToCap(slot.root);
    buf.receiveIndex := slot.index;
    buf.receiveDepth := slot.depth;
  }
}
