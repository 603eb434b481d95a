# A verified model of the core of the robigalia `sel4` crate

The `sel4` crate is a thin, safe-ish Rust layer over the seL4 microkernel's
system calls. This project models five pieces of it and proves their
properties. The kernel appears only as an oracle (`Sel4Sys.Kernel`): it
answers each call with an arbitrary status or reply and records the call in
a ghost log. The properties of `create` and of the endpoint operations are
stated against that log and the IPC buffer. The error decoding, the CSpace
argument lists and the capability-transfer destination are properties of
values and buffer fields.

- **Batched retype** (`Allocatable.Create`): `Allocatable::create`, as
  `cap_wrapper!` generates it. One request for `num_slots` objects becomes a
  sequence of `seL4_Untyped_Retype` calls.
  - Each call creates at most 256 objects (`CONFIG_RETYPE_FAN_OUT_LIMIT`).
  - The calls go to consecutive slot ranges of one window.
  - The first failing call ends the request, and nothing already created is
    undone.
  - `Create` is a `while` loop proved against the function `Plan`, which
    lists the calls a fully successful run issues. Lemmas about `Plan` state
    the batching:
    - the number of calls is ceil(n/256);
    - every batch holds 256 except a nonempty last one;
    - the counts sum to n;
    - the offsets tile the window from its first slot;
    - every call has the same target.
  - A lemma about `FailStop` counts what a run that stopped early created.
- **Error decoding** (`ErrorDecode`): `Error::details` and
  `LookupFailureKind::from_ipcbuf`. These are pure functions of the local
  error tag, the label in the buffer's tag and the message registers.
  - The partner is the kernel's side of the protocol: `ErrorLabel` and
    `Layout` give the message words the kernel writes for each error.
  - Decoding is proved to be exactly the inverse of that layout, in both
    directions.
  - The nested lookup decode is proved to read only its own words.
  - Unknown labels abort (`Panic`).
- **Endpoint message passing** (`Endpoint`):
  - the local size checks and their order;
  - the copies into the IPC buffer's `msg` and `caps_or_badges` arrays, with
    everything else left unchanged;
  - the message info sent, and the words and capability pointers the kernel
    receives: the logged send records the registers as the copies left them;
  - the copies back out in `get_data` / `get_unwrapped_caps` into
    caller-provided arrays, which fail exactly when the array is too short
    (and, for the capabilities, also when the kernel's unwrapped-caps value
    exceeds the three capability registers).
- **Capability-transfer destination** (`CapDestination`): writing the three
  receive fields of the IPC buffer and reading them back as a `SlotRef`, with
  the set-then-get round trip.
- **Slot and badge values and CNode argument order** (`CSpace`): `SlotRef`,
  `Window` and `Badge`, and the argument lists that `copy`, `mint`, `move_`,
  `mutate` and `rotate` pass to the kernel.
  - `CSpace.Copy` and its siblings build the argument list.
  - Their contracts state it in terms of a reading of the list by seL4
    parameter position (`DestinationOf`, `SourceOf`, `BadgeOf`, …).
  - A `Window` is a plain record: nothing checks locally that it fits its
    CNode.

Modelling choices:

- `seL4_Word` and `usize` are 32 bits wide. `send_message` copies a `&[u32]`
  into the word-typed message registers, which type-checks only when
  `seL4_Word` is `u32`.
  - `first_slot_idx += 256` wraps modulo 2^32, as in a release build.
  - `AsIsize` models the `as isize` cast explicitly.
- `seL4_MsgMaxLength` = 120 and `seL4_MsgMaxExtraCaps` = 3.
- The error and lookup-failure label codes follow the declaration order of
  `seL4_Error` and `seL4_LookupFailureType`: NoError = 0 … NotEnoughMemory =
  10, and NoFailure = 0 … GuardMismatch = 4.
- The IPC buffer is passed explicitly (`Sel4Sys.IPCBuffer`) instead of being
  found per thread. Its message registers are an `array`.
- The bit-field accessors of `seL4_MessageInfo` and `seL4_CapData` are
  modelled as plain record fields.

Where the code and its documentation differ, the model follows the code:

- The error label is taken from the buffer's tag, not from message register
  0. Register 0 holds the first detail word: `which`, `min`, the source flag
  or `bytes_available`.
- `set_cap_destination` reads `slot.cptr`, a field `SlotRef` does not have.
  It is modelled as the slot's `index`, the only word-sized field, which is
  also what `get_cap_destination` reads back. `create` reads
  `dest.cnode.cptr` in the same way, and it is modelled as
  `dest.cnode.index`.
- The capability-address codec and per-slot window addressing are described
  for the crate, but their code (`CNodeInfo`) is not part of this model. See
  "Left out".

## Model

| member | source | states |
|---|---|---|
| Sel4Sys.WrapAdd | src/macros.rs:82 | the wrapping usize `+=`: the exact sum below 2^32, the sum minus 2^32 above |
| Sel4Sys.SetBadge | src/cspace.rs:53 | writing the badge field makes `get_Badge` return the value and leaves every other bit alone |
| Lib.RawToCap | src/lib.rs:72-77 | `to_cap` on a raw `seL4_CPtr` is the identity |
| Macros.UnsafeAsResult | src/macros.rs:18-34 | `Ok` exactly for status 0; every nonzero status is `Err(Error(CheckIPCBuf))` |
| Macros.ToCap | src/macros.rs:48-53 | the generated `to_cap` returns the wrapper's stored pointer |
| Macros.FromCap | src/macros.rs:48-60 | `to_cap(from_cap(c)) == c` |
| Macros.FromCapToCap | src/macros.rs:48-60 | a generated wrapper is determined by its pointer: `from_cap(w.to_cap()) == w` |
| Macros.AsIsize | src/macros.rs:103 | `as isize` keeps the bits: the result is in isize range and congruent to the input mod 2^32 |
| Macros.ObjectSize | src/macros.rs:102-104 | `object_size` exists exactly for kinds declared with an object tag and a size function, and is the size function's value read as an isize |
| Allocatable.Advance | src/macros.rs:82-83 | after a full batch the window keeps its CNode, starts 256 later (mod 2^32) and holds 256 fewer slots |
| Allocatable.Create | src/macros.rs:63-100 | the calls issued are a prefix of `Plan`; all but the last succeeded; `Ok` exactly when the whole plan was issued and succeeded, otherwise `Err(CheckIPCBuf)` right after the first failing call, with nothing undone; only the IPC buffer's tag and message registers, where the kernel reports the failure, may change besides the log |
| Allocatable.PlanLength | src/macros.rs:71-97 | a request for n objects takes ceil(n/256) calls |
| Allocatable.PlanCounts | src/macros.rs:71-95 | every call but the last creates exactly 256 objects, and the last creates between 1 and 256 |
| Allocatable.PlanTotal | src/macros.rs:71-97 | the counts of the calls add up to `num_slots` |
| Allocatable.PlanContiguous | src/macros.rs:79-94 | the first call starts at `first_slot_idx`, and each further call starts where the previous one ended, so there are no gaps and no overlaps |
| Allocatable.PlanOffsets | src/macros.rs:79-82 | call i starts at `first_slot_idx + 256*i` (mod 2^32) |
| Allocatable.PlanSameTarget | src/macros.rs:72-93 | every call passes the same untyped, object tag, size_bits, root, index and depth |
| Allocatable.PlanSmall | src/macros.rs:71-99 | an empty window issues no call; 1 to 256 slots (256 included, since the loop test is strict) issue exactly one call for the whole window |
| Allocatable.PlanExamples | src/macros.rs:71-97 | concrete batch counts for 1, 255, 256, 257, 512 and 600 slots |
| Allocatable.CreatedByRun | src/macros.rs:71-99 | a successful run creates `num_slots` objects; a run that fails at call k has created exactly the 256*(k-1) objects of the full batches before it |
| CSpace.NewSlotRef | src/cspace.rs:67-73 | stores root, index and depth unchanged |
| CSpace.NewBadge | src/cspace.rs:51-61 | `get_value(new(v)) == v`, and every non-badge bit is that of zeroed cap data |
| CSpace.Copy | src/cspace.rs:77-85 | seven arguments: the destination triple, then the source triple, then the rights |
| CSpace.Mint | src/cspace.rs:95-104 | eight arguments: destination, source, rights, and then the badge bits unchanged |
| CSpace.Move | src/cspace.rs:110-117 | six arguments: the destination triple, then the source triple |
| CSpace.Mutate | src/cspace.rs:121-129 | seven arguments: destination, source, and then the badge bits unchanged |
| CSpace.Rotate | src/cspace.rs:160-179 | eleven arguments: the destination with its badge, the pivot with its badge, then the source |
| CapDestination.NarrowToU8 | src/lib.rs:127 | `as u8` keeps the low eight bits and is the identity below 256 |
| CapDestination.GetCapDestination | src/lib.rs:121-130 | the slot's root and index are receiveCNode and receiveIndex, and its depth is receiveDepth narrowed to u8 (receiveDepth mod 256) |
| CapDestination.SetCapDestination | src/lib.rs:111-118 | writes receiveCNode, receiveIndex and receiveDepth from the slot's root, index and depth, and no other field; reading the destination back returns the slot |
| ErrorDecode.LookupFromIpcBuf | src/error.rs:174-207 | aborts exactly on an unknown kind; `None` exactly for NoFailure; otherwise the result's kind code is the word at `type_idx`, and its fields are exactly the 0/1/2/3 words from `details_idx` |
| ErrorDecode.Details | src/error.rs:82-129 | TooMuchData and TooManyCaps decode to themselves; for CheckIPCBuf, the decode aborts exactly on an unknown label or an unknown nested kind, and gives `None` exactly for NoError or a nested NoFailure; any other result carries the label and agrees with the message registers as the kernel lays them out |
| ErrorDecode.LookupRoundTrip | src/error.rs:184-205 | each lookup failure written in the kernel's layout decodes back to itself |
| ErrorDecode.DetailsComplete | src/error.rs:98-125 | each kernel-reported error written in the kernel's layout decodes back to itself (the converse of `Details`' last postcondition) |
| ErrorDecode.LookupReadsOnly | src/error.rs:180-205 | the nested decode depends only on the kind word and the detail words it takes |
| ErrorDecode.ErrorLabelAssertInverted | src/error.rs:95 | the label assertion as written passes exactly for the labels outside `seL4_Error` |
| ErrorDecode.LookupKindAssertInverted | src/error.rs:181 | the nested kind assertion as written passes exactly for the kinds outside `seL4_LookupFailureType` |
| ErrorDecode.RangeErrorExample | src/error.rs:95-108 | a RangeError report (min 5, max 10) fails the assertion as written, and decodes to `RangeError { min: 5, max: 10 }` |
| ErrorDecode.GuardMismatchExample | src/error.rs:110-118 | a source-side GuardMismatch report (3, 0xF, 4) fails the nested assertion as written; `from_ipcbuf(buf, 1, 2)` decodes it to the GuardMismatch report, and `details` to the full FailedLookup |
| Endpoint.FromRaw | src/endpoint.rs:54-103 | `from_raw` (lines 54-61) stores the sender word as the badge; the accessors `caps_unwrapped` and `words_transferred` (lines 97-103) return the message info's capsUnwrapped and length |
| Endpoint.CheckLimits | src/endpoint.rs:128-133 | no error exactly when both limits hold; TooMuchData exactly when the data is too long, which wins over too many caps; TooManyCaps exactly when only the caps are too many |
| Endpoint.SendInfo | src/endpoint.rs:142-146 | the message info sent has label 0, no unwrapped caps, extraCaps = number of caps and length = number of data words |
| Endpoint.SendMessageOn | src/endpoint.rs:127-152 | on a local error the buffer and kernel log are untouched; otherwise exactly one send is logged, taken after the copies: its message registers are `data` followed by the old contents, its cap registers `caps` followed by the old contents, so the kernel receives exactly `data` and `caps`; the cap registers keep that state afterwards; the result is `Err(CheckIPCBuf)` exactly when the tag's label is nonzero |
| Endpoint.SendMessage | src/endpoint.rs:127-152 | the above, as a blocking send |
| Endpoint.TrySendMessage | src/endpoint.rs:155-180 | the same checks in the same order, the same copies before the send and the same delivery, as a non-blocking send |
| Endpoint.SendData | src/endpoint.rs:109-111 | fails locally exactly when the data is too long, touching nothing; otherwise the kernel receives exactly `data` and no caps, and the cap registers keep their contents |
| Endpoint.SendCap | src/endpoint.rs:115-117 | never fails locally; the kernel receives no data and exactly the one cap `cap.to_cap()`, which cap register 0 holds afterwards |
| Endpoint.GetData | src/endpoint.rs:79-95 | `Err` exactly when the array is shorter than the words transferred, in which case it is unchanged; otherwise its first `len` entries are the message registers and the rest are unchanged |
| Endpoint.GetUnwrappedCaps | src/endpoint.rs:63-77 | `Err` exactly when the array is shorter than `caps_unwrapped` or `caps_unwrapped` exceeds the 3 caps-or-badges registers (for values up to 3 this is the source's guard), leaving it unchanged; otherwise its first `caps_unwrapped` entries are the caps-or-badges registers and the rest are unchanged |
| Endpoint.Recv | src/endpoint.rs:184-188 | one blocking receive on the endpoint is logged, and the token is built from what it returned |
| Endpoint.TryRecv | src/endpoint.rs:195-199 | the same for a non-blocking receive |
| Endpoint.SendDelivers | src/endpoint.rs:134-146 | after the copies, the registers the kernel reads for the message info sent are exactly `data` and `caps`, whatever the buffer held before |
| Endpoint.UnwrappedCapsOverRead | src/endpoint.rs:67-73 | as written, the guard lets a token with `caps_unwrapped` = 4 and a 3-word slice through to a copy of 4 words from the 3 caps-or-badges registers |

## Left out

- The kernel's semantics are not modelled. The model does not capture how a send rendezvouses with a receive, what a retype creates, what the kernel writes into the message registers in answer to a send, or the promise that a `try_recv` with no sender yields badge 0. The kernel is an oracle whose answers are arbitrary. It is assumed to keep to the following; the source shown does not establish any of them:
  - the length a receive reports is at most `seL4_MsgMaxLength` (the seL4 kernel clamps it);
  - a send writes at most the buffer's tag and message registers, never the caps-or-badges registers; the send contracts' statement that the cap registers keep their contents rests on this;
  - a receive writes the message and caps-or-badges registers but not the buffer's tag; the message info comes back as the result;
  - a retype writes at most the buffer's tag and message registers (its error report), and the other IPC buffer fields are unchanged.
- `errcheck!`, used by `copy`, `mint`, `move_`, `mutate` and `rotate`, is defined in none of the modelled files, so the result those operations return is not part of this model. They are modelled as the argument list they pass.
- `save_caller` (src/cspace.rs:181-185) is left out: it passes one slot triple to `seL4_CNode_SaveCaller` through `errcheck!`.
- `delete`, `recycle` and `revoke` (src/cspace.rs:89-152) are left out: each passes a single slot triple to one kernel call, with no order to get wrong.
- `CNodeInfo` (the guard/radix address codec) and window slot addressing are not part of this model: their definitions are not among the modelled files.
- The arch files, `thread`, `irq`, `notification` and `domain` are left out as one-call forwarders. The allocator trait in `alloc` is left out because it has no bodies.
- The per-kind object tags and size functions come from the system-call layer. `ObjectKind` holds them abstractly.
- `Display` and `Debug` formatting, `DebugOutHandle` and `println!` are text output.
- Raw pointers, `copy_nonoverlapping` and `transmute` are modelled by their effect only. The undefined behaviour the source reaches for a label above the known range is modelled as an abort, so it does not appear.
- Allocatable.Create: does not model the overflow panic of a debug build at `first_slot_idx += 256`; the model wraps as a release build does.
- CSpace.NewBadge: the badge field is modelled as holding any u32. A kernel whose badge field is narrower masks the value, and that masking is not modelled.
- Endpoint.GetData: requires a token whose length is at most `seL4_MsgMaxLength`. This rests on the assumption above about what the kernel reports, not on anything in the source. With a longer length, the source would copy past the end of the message registers.
- Endpoint.SendCap: takes a generated capability wrapper. Other `ToCap` implementors (a raw `seL4_CPtr`) behave identically, because `to_cap` is the identity on raw pointers.

## Findings

| source | as written | input that shows it | evidently intended | confidence | as-written member | corrected member |
|---|---|---|---|---|---|---|
| src/error.rs:95 | `assert!(label > seL4_NotEnoughMemory)` passes only for labels outside `seL4_Error`. The message "Unknown error type" and the `transmute` that follows show that it should reject exactly those. | label = RangeError (4), msg = [5, 10, …]: the assertion fails, so the decode panics instead of returning `RangeError { min: 5, max: 10 }`. Every known label panics, and every unknown label reaches the `transmute`. | `label <= seL4_NotEnoughMemory`: abort exactly on unknown labels | not executed | ErrorDecode.RangeErrorExample | ErrorDecode.Details |
| src/error.rs:181 | `assert!(kind > seL4_GuardMismatch)` passes only for kinds outside `seL4_LookupFailureType`. Through `details` it is masked, because the assertion at :95 already fires for label FailedLookup. It shows once :95 is corrected, or when `from_ipcbuf` is called on its own. | `from_ipcbuf(buf, 1, 2)` with msg = [1, GuardMismatch (4), 3, 0xF, 4, …]: the nested assertion fails, so the decode panics instead of returning the GuardMismatch report | `kind <= seL4_GuardMismatch`: abort exactly on unknown kinds | not executed | ErrorDecode.GuardMismatchExample | ErrorDecode.LookupFromIpcBuf |
| src/endpoint.rs:67 | `caps.len() < seL4_MsgMaxExtraCaps && caps.len() < caps_unwrapped` treats `caps_unwrapped` as a count. Any slice of 3 or more words then passes, and the copy of `caps_unwrapped` words is not bounded by the 3 caps-or-badges registers. In seL4, `capsUnwrapped` is a bit mask over the extra caps, so values 4 to 7 occur. | a token with `caps_unwrapped` = 4 and a 3-word slice: the guard passes, and the copy reads 4 words from a 3-word array | fail (`Err`) whenever the copy would not fit either array: `caps.len() < caps_unwrapped` or `caps_unwrapped > seL4_MsgMaxExtraCaps` | not executed | Endpoint.UnwrappedCapsOverRead | Endpoint.GetUnwrappedCaps |
