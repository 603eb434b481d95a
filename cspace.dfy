/** Capability-space values: a fully qualified slot reference, a window of
    consecutive slots, a badge, and the argument lists that the slot
    operations copy/mint/move/mutate/rotate hand to the kernel. */
module CSpace {
  import opened Sel4Sys
  import opened Wrappers
  import opened Macros

  /** A slot, addressed by a root CNode, an index resolved relative to it,
      and the number of bits of the index to resolve. */
  datatype SlotRef = SlotRef(root: CNode, index: Word, depth: U8)

  /** A range of slots in one CNode. Nothing here checks that the range fits
      the CNode; the kernel rejects a call that does not. */
  datatype Window = Window(cnode: SlotRef, firstSlotIdx: Word, numSlots: Word)

  /** An unforgeable marker on a capability, held in cap data. */
  datatype Badge = Badge(bits: CapData)

  /** `SlotRef::new`. */
  function NewSlotRef(root: CNode, index: Word, depth: U8): (s: SlotRef)
    ensures s.root == root && s.index == index && s.depth == depth
  {
    SlotRef(root, index, depth)
  }

  /** `Badge::new`: zeroed cap data with only the badge field set. */
  function NewBadge(v: U32): (b: Badge)
    ensures GetValue(b) == v
    ensures b.bits.otherBits == ZeroedCapData().otherBits
  {
    Badge(SetBadge(ZeroedCapData(), v))
  }

  /** `Badge::get_value`. */
  function GetValue(b: Badge): U32
  {
    GetBadge(b.bits)
  }

  /** The CNode operations whose argument order the core fixes. */
  datatype CNodeOp = CopyOp | MintOp | MoveOp | MutateOp | RotateOp

  /** One argument of a CNode system call. */
  datatype Arg = WordArg(w: Word) | RightsArg(rights: CapRights) | DataArg(data: CapData)

  /** A CNode system call and its arguments, in order. */
  datatype Invocation = Invocation(op: CNodeOp, args: seq<Arg>)

  /** A slot passed as (root capability, index, depth). */
  function SlotArgs(s: SlotRef): seq<Arg>
  {
    [WordArg(ToCap(s.root)), WordArg(s.index), WordArg(s.depth)]
  }

  // ---- The kernel's reading of an argument list ------------------------
  // The positions below are the parameter positions of the seL4 CNode
  // system calls: seL4_CNode_Copy(dest root, index, depth, src root, index,
  // depth, rights), seL4_CNode_Mint(... , rights, badge), seL4_CNode_Move
  // (dest triple, src triple), seL4_CNode_Mutate(dest triple, src triple,
  // badge) and seL4_CNode_Rotate(dest triple, dest badge, pivot triple,
  // pivot badge, src triple).

  function SlotAt(args: seq<Arg>, i: nat): Option<SlotRef>
  {
    if i + 3 <= |args| && args[i].WordArg? && args[i + 1].WordArg? && args[i + 2].WordArg?
       && args[i + 2].w < 256
    then Some(SlotRef(FromCap(args[i].w), args[i + 1].w, args[i + 2].w))
    else None
  }

  function DataAt(args: seq<Arg>, i: nat): Option<CapData>
  {
    if i < |args| && args[i].DataArg? then Some(args[i].data) else None
  }

  function RightsAt(args: seq<Arg>, i: nat): Option<CapRights>
  {
    if i < |args| && args[i].RightsArg? then Some(args[i].rights) else None
  }

  function Arity(op: CNodeOp): nat
  {
    match op
    case CopyOp => 7
    case MintOp => 8
    case MoveOp => 6
    case MutateOp => 7
    case RotateOp => 11
  }

  function DestinationOf(c: Invocation): Option<SlotRef>
  {
    SlotAt(c.args, 0)
  }

  function SourceOf(c: Invocation): Option<SlotRef>
  {
    if c.op == RotateOp then SlotAt(c.args, 8) else SlotAt(c.args, 3)
  }

  function PivotOf(c: Invocation): Option<SlotRef>
  {
    if c.op == RotateOp then SlotAt(c.args, 4) else None
  }

  function RightsOf(c: Invocation): Option<CapRights>
  {
    if c.op == CopyOp || c.op == MintOp then RightsAt(c.args, 6) else None
  }

  /** The badge applied to the destination. */
  function BadgeOf(c: Invocation): Option<CapData>
  {
    match c.op
    case MintOp => DataAt(c.args, 7)
    case MutateOp => DataAt(c.args, 6)
    case RotateOp => DataAt(c.args, 3)
    case _ => None
  }

  function PivotBadgeOf(c: Invocation): Option<CapData>
  {
    if c.op == RotateOp then DataAt(c.args, 7) else None
  }

  // ---- The operations --------------------------------------------------

  /** `copy`: copy the capability in `self` into `dest` with `rights`. */
  function Copy(self: SlotRef, dest: SlotRef, rights: CapRights): (c: Invocation)
    ensures c.op == CopyOp && |c.args| == Arity(CopyOp)
    ensures DestinationOf(c) == Some(dest) && SourceOf(c) == Some(self)
    ensures RightsOf(c) == Some(rights) && BadgeOf(c) == None
  {
    Invocation(CopyOp, SlotArgs(dest) + SlotArgs(self) + [RightsArg(rights)])
  }

  /** `mint`: copy into `dest` with `rights`, applying `badge`. */
  function Mint(self: SlotRef, dest: SlotRef, rights: CapRights, badge: Badge): (c: Invocation)
    ensures c.op == MintOp && |c.args| == Arity(MintOp)
    ensures DestinationOf(c) == Some(dest) && SourceOf(c) == Some(self)
    ensures RightsOf(c) == Some(rights) && BadgeOf(c) == Some(badge.bits)
  {
    Invocation(MintOp, SlotArgs(dest) + SlotArgs(self) + [RightsArg(rights), DataArg(badge.bits)])
  }

  /** `move_`: move the capability in `self` into `dest`. */
  function Move(self: SlotRef, dest: SlotRef): (c: Invocation)
    ensures c.op == MoveOp && |c.args| == Arity(MoveOp)
    ensures DestinationOf(c) == Some(dest) && SourceOf(c) == Some(self)
    ensures RightsOf(c) == None && BadgeOf(c) == None
  {
    Invocation(MoveOp, SlotArgs(dest) + SlotArgs(self))
  }

  /** `mutate`: move into `dest`, applying `badge`. */
  function Mutate(self: SlotRef, dest: SlotRef, badge: Badge): (c: Invocation)
    ensures c.op == MutateOp && |c.args| == Arity(MutateOp)
    ensures DestinationOf(c) == Some(dest) && SourceOf(c) == Some(self)
    ensures RightsOf(c) == None && BadgeOf(c) == Some(badge.bits)
  {
    Invocation(MutateOp, SlotArgs(dest) + SlotArgs(self) + [DataArg(badge.bits)])
  }

  /** `rotate`: `pivot` into `destination` with `destinationBadge`, and
      `src` into `pivot` with `pivotBadge`, atomically. */
  function Rotate(destination: SlotRef, destinationBadge: Badge, pivot: SlotRef,
                  pivotBadge: Badge, src: SlotRef): (c: Invocation)
    ensures c.op == RotateOp && |c.args| == Arity(RotateOp)
    ensures DestinationOf(c) == Some(destination) && BadgeOf(c) == Some(destinationBadge.bits)
    ensures PivotOf(c) == Some(pivot) && PivotBadgeOf(c) == Some(pivotBadge.bits)
    ensures SourceOf(c) == Some(src)
  {
    Invocation(RotateOp, SlotArgs(destination) + [DataArg(destinationBadge.bits)]
                         + SlotArgs(pivot) + [DataArg(pivotBadge.bits)] + SlotArgs(src))
  }
}
