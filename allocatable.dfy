/** `Allocatable::create` as `cap_wrapper!` generates it for every kind with
    an object tag: one request for `numSlots` objects is split into
    seL4_Untyped_Retype calls of at most FAN_OUT_LIMIT objects each, placed
    in consecutive slots of the destination window; the first failing call
    ends the request and nothing already created is undone. */
module Allocatable {
  import opened Sel4Sys
  import opened Lib
  import opened Macros
  import opened CSpace

  /** The retype call for `count` objects at the window's current start. */
  function Batch(untyped: Word, kind: ObjectKind, sizeBits: Word, dest: Window, count: Word): RetypeCall
  {
    RetypeCall(untyped, kind.objTag, sizeBits,
               ToCap(dest.cnode.root), dest.cnode.index, dest.cnode.depth,
               dest.firstSlotIdx, count)
  }

  /** The window after one full batch (`first_slot_idx += 256`, a wrapping
      usize addition, and `num_slots -= 256`). */
  function Advance(dest: Window): (w: Window)
    requires dest.numSlots > FAN_OUT_LIMIT
    ensures w.cnode == dest.cnode && w.numSlots + FAN_OUT_LIMIT == dest.numSlots
    ensures w.firstSlotIdx == (dest.firstSlotIdx + FAN_OUT_LIMIT) % WORD_LIMIT
  {
    dest.(firstSlotIdx := WrapAdd(dest.firstSlotIdx, FAN_OUT_LIMIT),
          numSlots := dest.numSlots - FAN_OUT_LIMIT)
  }

  /** The calls `create` issues for `dest` when every one of them succeeds:
      full batches while more than FAN_OUT_LIMIT slots remain, then one call
      for the (non-empty) rest. */
  function Plan(untyped: Word, kind: ObjectKind, sizeBits: Word, dest: Window): seq<RetypeCall>
    decreases dest.numSlots
  {
    if dest.numSlots > FAN_OUT_LIMIT then
      [Batch(untyped, kind, sizeBits, dest, FAN_OUT_LIMIT)] + Plan(untyped, kind, sizeBits, Advance(dest))
    else if dest.numSlots > 0 then
      [Batch(untyped, kind, sizeBits, dest, dest.numSlots)]
    else
      []
  }

  /** The sum of the counts of a sequence of calls. */
  function TotalCount(calls: seq<RetypeCall>): nat
  {
    if calls == [] then 0 else calls[0].count + TotalCount(calls[1..])
  }

  /** The counts of a sequence of calls, in order. */
  function Counts(calls: seq<RetypeCall>): seq<Word>
  {
    seq(|calls|, i requires 0 <= i < |calls| => calls[i].count)
  }

  /** The objects the successful calls of a log created. */
  function Created(log: seq<Event>): nat
  {
    if log == [] then 0
    else (if log[0].Retyped? && log[0].status == 0 then log[0].call.count else 0) + Created(log[1..])
  }

  /** A call that targets the window's CNode with the request's untyped,
      object tag and size. */
  predicate SameTarget(c: RetypeCall, untyped: Word, kind: ObjectKind, sizeBits: Word, cnode: SlotRef)
  {
    c.untyped == untyped && c.objType == kind.objTag && c.sizeBits == sizeBits
    && c.root == ToCap(cnode.root) && c.index == cnode.index && c.depth == cnode.depth
  }

  /** What a run of `create` left in the kernel's log (`issued`, the events
      after the call began) with result `r`: a prefix of the plan, every call
      but the last answered 0, and the result is Ok exactly when the whole
      plan was issued and answered 0; otherwise the last call failed and the
      result says to consult the IPC buffer. */
  ghost predicate FailStop(issued: seq<Event>, plan: seq<RetypeCall>, r: SysResult)
  {
    && |issued| <= |plan|
    && (forall i :: 0 <= i < |issued| ==> issued[i].Retyped? && issued[i].call == plan[i])
    && (forall i :: 0 <= i < |issued| - 1 ==> issued[i].status == 0)
    && (r.Ok? <==> |issued| == |plan| && (|issued| == 0 || issued[|issued| - 1].status == 0))
    && (r.Err? ==> r.error == Error(CheckIPCBuf) && |issued| > 0 && issued[|issued| - 1].status != 0)
  }

  /** `Allocatable::create`. The calls issued are a prefix of the plan,
      stopped by the first nonzero status, and no other call (no
      compensating delete) is made. Besides the log, only the tag and the
      message registers of the thread's IPC buffer `buf` change, where the
      kernel leaves the report that an `Err(CheckIPCBuf)` points to. */
  method Create(k: Kernel, buf: IPCBuffer, kind: ObjectKind, untyped: Word, dest: Window, sizeBits: Word)
    returns (r: SysResult)
    modifies k, buf`tag, buf.msg
    ensures old(k.log) <= k.log
    ensures FailStop(k.log[|old(k.log)|..], Plan(untyped, kind, sizeBits, dest), r)
  {
    ghost var plan := Plan(untyped, kind, sizeBits, dest);
    ghost var before := k.log;
    ghost var issued: seq<Event> := [];
    var d := dest;
    while d.numSlots > FAN_OUT_LIMIT
      invariant k.log == before + issued
      invariant |issued| <= |plan| && plan[|issued|..] == Plan(untyped, kind, sizeBits, d)
      invariant forall i :: 0 <= i < |issued| ==> issued[i] == Retyped(plan[i], 0)
      decreases d.numSlots
    {
      var call := Batch(untyped, kind, sizeBits, d, FAN_OUT_LIMIT);
      var status := k.UntypedRetype(call, buf);
      issued := issued + [Retyped(call, status)];
      var res := UnsafeAsResult(status);
      if res.Err? {
        assert k.log[|before|..] == issued;
        return res;
      }
      d := Advance(d);
    }
    if d.numSlots > 0 {
      var call := Batch(untyped, kind, sizeBits, d, d.numSlots);
      var status := k.UntypedRetype(call, buf);
      issued := issued + [Retyped(call, status)];
      var res := UnsafeAsResult(status);
      if res.Err? {
        assert k.log[|before|..] == issued;
        return res;
      }
    }
    assert k.log[|before|..] == issued;
    r := Ok;
  }

  // ---- Properties of the plan --------------------------------------------

  /** ceil(numSlots / FAN_OUT_LIMIT) calls. */
  lemma {:induction false} PlanLength(untyped: Word, kind: ObjectKind, sizeBits: Word, dest: Window)
    ensures |Plan(untyped, kind, sizeBits, dest)| == (dest.numSlots + FAN_OUT_LIMIT - 1) / FAN_OUT_LIMIT
    decreases dest.numSlots
  {
    if dest.numSlots > FAN_OUT_LIMIT {
      PlanLength(untyped, kind, sizeBits, Advance(dest));
    }
  }

  /** Every call is full except the last, which holds the rest (at least 1). */
  predicate FullThenRest(p: seq<RetypeCall>)
  {
    forall i :: 0 <= i < |p| ==> 0 < p[i].count <= FAN_OUT_LIMIT && (i < |p| - 1 ==> p[i].count == FAN_OUT_LIMIT)
  }

  /** The calls tile a run of slots from `first`: each starts (modulo the
      word size) where the previous one ended. */
  predicate Tiles(p: seq<RetypeCall>, first: Word)
  {
    && (|p| > 0 ==> p[0].offset == first)
    && forall i :: 0 <= i < |p| - 1 ==> p[i + 1].offset == WrapAdd(p[i].offset, p[i].count)
  }

  /** Call i starts at slot first + FAN_OUT_LIMIT * i (as a usize). */
  predicate OffsetsFrom(p: seq<RetypeCall>, first: Word)
  {
    forall i :: 0 <= i < |p| ==> p[i].offset == (first + FAN_OUT_LIMIT * i) % WORD_LIMIT
  }

  /** Every call targets `cnode` with the same untyped, tag and size. */
  predicate AllSameTarget(p: seq<RetypeCall>, untyped: Word, kind: ObjectKind, sizeBits: Word, cnode: SlotRef)
  {
    forall i :: 0 <= i < |p| ==> SameTarget(p[i], untyped, kind, sizeBits, cnode)
  }

  lemma {:induction false} PlanCounts(untyped: Word, kind: ObjectKind, sizeBits: Word, dest: Window)
    ensures FullThenRest(Plan(untyped, kind, sizeBits, dest))
    decreases dest.numSlots
  {
    var p := Plan(untyped, kind, sizeBits, dest);
    if dest.numSlots > FAN_OUT_LIMIT {
      var q := Plan(untyped, kind, sizeBits, Advance(dest));
      PlanCounts(untyped, kind, sizeBits, Advance(dest));
      assert p == [Batch(untyped, kind, sizeBits, dest, FAN_OUT_LIMIT)] + q;
      forall i | 0 <= i < |p|
        ensures 0 < p[i].count <= FAN_OUT_LIMIT && (i < |p| - 1 ==> p[i].count == FAN_OUT_LIMIT)
      {
        if i > 0 {
          assert p[i] == q[i - 1];
        }
      }
    }
  }

  /** The counts add up to the request. */
  lemma {:induction false} PlanTotal(untyped: Word, kind: ObjectKind, sizeBits: Word, dest: Window)
    ensures TotalCount(Plan(untyped, kind, sizeBits, dest)) == dest.numSlots
    decreases dest.numSlots
  {
    var p := Plan(untyped, kind, sizeBits, dest);
    if dest.numSlots > FAN_OUT_LIMIT {
      PlanTotal(untyped, kind, sizeBits, Advance(dest));
      assert p[1..] == Plan(untyped, kind, sizeBits, Advance(dest));
    } else if dest.numSlots > 0 {
      assert p[1..] == [];
    }
  }

  /** No gaps and no overlaps: the batches tile the window from its first slot. */
  lemma {:induction false} PlanContiguous(untyped: Word, kind: ObjectKind, sizeBits: Word, dest: Window)
    ensures Tiles(Plan(untyped, kind, sizeBits, dest), dest.firstSlotIdx)
    decreases dest.numSlots
  {
    if dest.numSlots > FAN_OUT_LIMIT {
      var p := Plan(untyped, kind, sizeBits, dest);
      var q := Plan(untyped, kind, sizeBits, Advance(dest));
      PlanContiguous(untyped, kind, sizeBits, Advance(dest));
      assert p == [Batch(untyped, kind, sizeBits, dest, FAN_OUT_LIMIT)] + q;
      forall i | 0 <= i < |p| - 1
        ensures p[i + 1].offset == WrapAdd(p[i].offset, p[i].count)
      {
        if i > 0 {
          assert p[i] == q[i - 1] && p[i + 1] == q[i];
        }
      }
    }
  }

  lemma ModAddLeft(a: int, b: int)
    ensures ((a % WORD_LIMIT) + b) % WORD_LIMIT == (a + b) % WORD_LIMIT
  {
  }

  /** Batch i starts at slot first_slot_idx + 256 * i (as a usize). */
  lemma {:induction false} PlanOffsets(untyped: Word, kind: ObjectKind, sizeBits: Word, dest: Window)
    ensures OffsetsFrom(Plan(untyped, kind, sizeBits, dest), dest.firstSlotIdx)
    decreases dest.numSlots
  {
    var p := Plan(untyped, kind, sizeBits, dest);
    if dest.numSlots > FAN_OUT_LIMIT {
      var next := Advance(dest);
      var q := Plan(untyped, kind, sizeBits, next);
      PlanOffsets(untyped, kind, sizeBits, next);
      assert p == [Batch(untyped, kind, sizeBits, dest, FAN_OUT_LIMIT)] + q;
      forall i | 0 <= i < |p|
        ensures p[i].offset == (dest.firstSlotIdx + FAN_OUT_LIMIT * i) % WORD_LIMIT
      {
        if i > 0 {
          assert p[i] == q[i - 1];
          ModAddLeft(dest.firstSlotIdx + FAN_OUT_LIMIT, FAN_OUT_LIMIT * (i - 1));
        }
      }
    }
  }

  /** Every call passes the same untyped, object tag, size, root, index and
      depth; only the offset and the count vary. */
  lemma {:induction false} PlanSameTarget(untyped: Word, kind: ObjectKind, sizeBits: Word, dest: Window)
    ensures AllSameTarget(Plan(untyped, kind, sizeBits, dest), untyped, kind, sizeBits, dest.cnode)
    decreases dest.numSlots
  {
    var p := Plan(untyped, kind, sizeBits, dest);
    if dest.numSlots > FAN_OUT_LIMIT {
      var q := Plan(untyped, kind, sizeBits, Advance(dest));
      PlanSameTarget(untyped, kind, sizeBits, Advance(dest));
      assert p == [Batch(untyped, kind, sizeBits, dest, FAN_OUT_LIMIT)] + q;
      forall i | 0 <= i < |p|
        ensures SameTarget(p[i], untyped, kind, sizeBits, dest.cnode)
      {
        if i > 0 {
          assert p[i] == q[i - 1];
        }
      }
    }
  }

  /** No calls for an empty window; exactly one call, for the whole window,
      when it holds 1 to FAN_OUT_LIMIT slots (256 included: the loop's
      comparison is strict). */
  lemma PlanSmall(untyped: Word, kind: ObjectKind, sizeBits: Word, dest: Window)
    ensures dest.numSlots == 0 ==> Plan(untyped, kind, sizeBits, dest) == []
    ensures 0 < dest.numSlots <= FAN_OUT_LIMIT ==>
      Plan(untyped, kind, sizeBits, dest) == [Batch(untyped, kind, sizeBits, dest, dest.numSlots)]
  {
  }

  /** The batch sizes for a few window sizes. */
  lemma PlanExamples(untyped: Word, kind: ObjectKind, sizeBits: Word, dest: Window)
    ensures dest.numSlots == 1 ==> Counts(Plan(untyped, kind, sizeBits, dest)) == [1]
    ensures dest.numSlots == 255 ==> Counts(Plan(untyped, kind, sizeBits, dest)) == [255]
    ensures dest.numSlots == 256 ==> Counts(Plan(untyped, kind, sizeBits, dest)) == [256]
    ensures dest.numSlots == 257 ==> Counts(Plan(untyped, kind, sizeBits, dest)) == [256, 1]
    ensures dest.numSlots == 512 ==> Counts(Plan(untyped, kind, sizeBits, dest)) == [256, 256]
    ensures dest.numSlots == 600 ==> Counts(Plan(untyped, kind, sizeBits, dest)) == [256, 256, 88]
  {
    var p := Plan(untyped, kind, sizeBits, dest);
    if dest.numSlots > FAN_OUT_LIMIT {
      var d1 := Advance(dest);
      if d1.numSlots > FAN_OUT_LIMIT {
        var d2 := Advance(d1);
        assert p == [Batch(untyped, kind, sizeBits, dest, 256), Batch(untyped, kind, sizeBits, d1, 256)]
                    + Plan(untyped, kind, sizeBits, d2);
      }
    }
  }

  // ---- Properties of a run -----------------------------------------------

  /** The objects a run created: the whole window on success; on a failure
      at batch k, exactly the k - 1 full batches before it. */
  lemma {:induction false} CreatedByRun(untyped: Word, kind: ObjectKind, sizeBits: Word, dest: Window,
                                        issued: seq<Event>, r: SysResult)
    requires FailStop(issued, Plan(untyped, kind, sizeBits, dest), r)
    ensures r.Ok? ==> Created(issued) == dest.numSlots
    ensures r.Err? ==> Created(issued) == FAN_OUT_LIMIT * (|issued| - 1)
    decreases dest.numSlots
  {
    var p := Plan(untyped, kind, sizeBits, dest);
    if issued == [] {
    } else if |issued| == 1 {
      assert issued[1..] == [];
      if dest.numSlots > FAN_OUT_LIMIT {
        var next := Advance(dest);
        assert |Plan(untyped, kind, sizeBits, next)| > 0;
      }
    } else {
      var next := Advance(dest);
      assert p[1..] == Plan(untyped, kind, sizeBits, next);
      assert issued[0].status == 0;
      assert FailStop(issued[1..], Plan(untyped, kind, sizeBits, next), r) by {
        var rest := issued[1..];
        assert forall i :: 0 <= i < |rest| ==> rest[i] == issued[i + 1];
      }
      CreatedByRun(untyped, kind, sizeBits, next, issued[1..], r);
    }
  }
}
