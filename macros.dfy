/** What the crate's macros generate, apart from the batched `create`
    (module Allocatable): the status-to-result mapping of `unsafe_as_result!`,
    and, for every capability kind that `cap_wrapper!` declares, a wrapper
    around one capability pointer with `from_cap`/`to_cap`, plus `object_size`
    for the kinds declared with an object tag and a size function. */
module Macros {
  import opened Sel4Sys
  import opened Lib
  import opened Wrappers

  /** `unsafe_as_result!`: status 0 is success; any other status means the
      details are in the IPC buffer. */
  function UnsafeAsResult(status: Word): (r: SysResult)
    ensures r.Ok? <==> status == 0
    ensures r.Err? ==> r.error == Error(CheckIPCBuf)
  {
    if status == 0 then Ok else Err(Error(CheckIPCBuf))
  }

  /** A generated wrapper struct `{ cptr }`; the kind (CNode, Endpoint, ...)
      is only a name in the source and carries no data. */
  datatype Cap = Cap(cptr: Word)

  type CNode = Cap
  type Endpoint = Cap

  /** `to_cap`: the raw pointer's `to_cap`, so the stored pointer itself. */
  function ToCap(c: Cap): (r: Word)
    ensures r == c.cptr
  {
    RawToCap(c.cptr)
  }

  /** `from_cap`: wraps a raw pointer. */
  function FromCap(cptr: Word): (c: Cap)
    ensures ToCap(c) == cptr
  {
    Cap(cptr)
  }

  /** The other direction: a wrapper is determined by its pointer. */
  lemma FromCapToCap(c: Cap)
    ensures FromCap(ToCap(c)) == c
  {
  }

  /** The `= objtag size` part of a `cap_wrapper!` entry: the kernel object
      tag passed to retype and the size function applied to `size_bits`. */
  datatype ObjectKind = ObjectKind(objTag: Word, size: Word -> Word)

  /** One `cap_wrapper!` entry; only entries with an object kind get an
      `Allocatable` implementation. */
  datatype WrapperDecl = WrapperDecl(kind: Option<ObjectKind>)

  predicate IsAllocatable(d: WrapperDecl)
  {
    d.kind.Some?
  }

  const ISIZE_LIMIT: int := WORD_LIMIT / 2

  /** `x as isize` on a usize: the same bits read as two's complement. */
  function AsIsize(x: Word): (r: int)
    ensures -ISIZE_LIMIT <= r < ISIZE_LIMIT
    ensures r % WORD_LIMIT == x
  {
    if x < ISIZE_LIMIT then x else x - WORD_LIMIT
  }

  /** `object_size`, generated only for allocatable entries:
      `$size(size_bits) as isize`. */
  function ObjectSize(d: WrapperDecl, sizeBits: Word): (r: Option<int>)
    ensures r.Some? <==> IsAllocatable(d)
    ensures r.Some? ==> -ISIZE_LIMIT <= r.value < ISIZE_LIMIT
                        && r.value % WORD_LIMIT == d.kind.value.size(sizeBits)
  {
    match d.kind
    case None => None
    case Some(k) => Some(AsIsize(k.size(sizeBits)))
  }
}
