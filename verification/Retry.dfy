/**
 One retry after a rejected access token, with explicit ownership of what it allocates.

 An operation of the backend reports failure through an error slot, and its results through
 out-parameters. It builds all results first and publishes them together at its end. The retry gives
 the attempts a slot of its own, frees the error of a first attempt that it repeats, and hands the
 error of the last attempt to the caller.
 */
module Retry {
  import opened Options

  datatype Code = AuthenticationFailed | OtherFailure(number: int)

  /** An allocated error. */
  datatype GError = GError(block: nat, code: Code)

  /** What the server answers to one attempt. */
  datatype Reply = Accepted | Refused(code: Code)

  /** The blocks that are allocated and not freed. */
  class Memory {
    var live: set<nat>
    var last: nat

    ghost predicate Valid()
      reads this
    {
      forall block :: block in live ==> block <= last
    }

    constructor ()
      ensures Valid() && live == {}
    {
      live, last := {}, 0;
    }

    method Allocate() returns (block: nat)
      requires Valid()
      modifies this
      ensures Valid() && block !in old(live) && live == old(live) + {block}
      ensures block > old(last) && last == block
    {
      last := last + 1;
      block := last;
      live := live + {block};
    }

    /** A block may be freed only once. */
    method Free(block: nat)
      requires Valid() && block in live
      modifies this
      ensures Valid() && live == old(live) - {block} && last == old(last)
    {
      live := live - {block};
    }
  }

  /** An out-parameter. A NULL one is not wanted. */
  class Out {
    const wanted: bool
    var value: Option<nat>
    var writes: nat

    constructor (wanted: bool)
      ensures this.wanted == wanted && value == None && writes == 0
    {
      this.wanted := wanted;
      value, writes := None, 0;
    }

    method Publish(block: nat)
      modifies this
      ensures value == Some(block) && writes == old(writes) + 1
    {
      value, writes := Some(block), writes + 1;
    }
  }

  /** A slot for an error. A NULL one is not wanted. */
  class ErrorSlot {
    const wanted: bool
    var value: Option<GError>

    constructor (wanted: bool)
      ensures this.wanted == wanted && value == None
    {
      this.wanted := wanted;
      value := None;
    }
  }

  /** Moves the error into the slot. A slot that is not wanted or is already set frees it. */
  method SetRawError(memory: Memory, dest: ErrorSlot, error: GError)
    requires memory.Valid() && error.block in memory.live
    modifies memory, dest
    ensures memory.Valid() && memory.last == old(memory.last)
    ensures dest.wanted && old(dest.value).None? ==> dest.value == Some(error) && memory.live == old(memory.live)
    ensures !(dest.wanted && old(dest.value).None?) ==>
              dest.value == old(dest.value) && memory.live == old(memory.live) - {error.block}
  {
    if !dest.wanted {
      memory.Free(error.block);
    } else if dest.value.None? {
      dest.value := Some(error);
    } else {
      memory.Free(error.block);
    }
  }

  // ---------------------------------------------------------------------------
  // One attempt

  predicate Distinct(outs: seq<Out>) {
    forall i, j :: 0 <= i < j < |outs| ==> outs[i] != outs[j]
  }

  predicate Unset(outs: seq<Out>)
    reads outs
  {
    forall i :: 0 <= i < |outs| ==> outs[i].value == None
  }

  /** The blocks that the out-parameters hold. */
  ghost function Held(outs: seq<Out>): (blocks: set<nat>)
    reads outs
  {
    set i | 0 <= i < |outs| && outs[i].value.Some? :: outs[i].value.value
  }

  /** Each wanted out-parameter holds a new block of its own. */
  ghost predicate Published(outs: seq<Out>, from: nat)
    reads outs
  {
    && (forall i :: 0 <= i < |outs| ==> (outs[i].value.Some? <==> outs[i].wanted))
    && (forall i :: 0 <= i < |outs| && outs[i].wanted ==> outs[i].value.value > from)
    && (forall i, j :: 0 <= i < j < |outs| && outs[i].wanted && outs[j].wanted ==> outs[i].value != outs[j].value)
  }

  twostate predicate WrittenOnce(outs: seq<Out>, ok: bool)
    reads outs
  {
    forall i :: 0 <= i < |outs| ==> outs[i].writes == old(outs[i].writes) + (if ok && outs[i].wanted then 1 else 0)
  }

  /** Allocates a result for each wanted out-parameter. */
  method Build(memory: Memory, outs: seq<Out>) returns (blocks: seq<Option<nat>>)
    requires memory.Valid()
    modifies memory
    ensures memory.Valid() && memory.last >= old(memory.last)
    ensures |blocks| == |outs|
    ensures forall i :: 0 <= i < |outs| ==> (blocks[i].Some? <==> outs[i].wanted)
    ensures forall i :: 0 <= i < |outs| && blocks[i].Some? ==> old(memory.last) < blocks[i].value <= memory.last
    ensures forall i, j :: 0 <= i < j < |outs| && blocks[i].Some? ==> blocks[i] != blocks[j]
    ensures memory.live == old(memory.live) + set i | 0 <= i < |outs| && blocks[i].Some? :: blocks[i].value
  {
    blocks := [];
    for i := 0 to |outs|
      invariant memory.Valid() && memory.last >= old(memory.last)
      invariant |blocks| == i
      invariant forall k :: 0 <= k < i ==> (blocks[k].Some? <==> outs[k].wanted)
      invariant forall k :: 0 <= k < i && blocks[k].Some? ==> old(memory.last) < blocks[k].value <= memory.last
      invariant forall k, j :: 0 <= k < j < i && blocks[k].Some? ==> blocks[k] != blocks[j]
      invariant memory.live == old(memory.live) + set k | 0 <= k < i && blocks[k].Some? :: blocks[k].value
    {
      ghost var before := blocks;
      if outs[i].wanted {
        var block := memory.Allocate();
        blocks := blocks + [Some(block)];
        assert blocks[i] == Some(block);
      } else {
        blocks := blocks + [None];
      }
      assert forall k :: 0 <= k < i ==> blocks[k] == before[k];
    }
  }

  /** The operation: one error, or all results together. */
  method Attempt(memory: Memory, outs: seq<Out>, reply: Reply, slot: ErrorSlot) returns (ok: bool)
    requires memory.Valid() && Distinct(outs) && Unset(outs) && slot.wanted && slot.value.None?
    modifies memory, outs, slot
    ensures memory.Valid() && memory.last >= old(memory.last)
    ensures ok <==> reply.Accepted?
    ensures WrittenOnce(outs, ok)
    ensures ok ==> slot.value.None? && Published(outs, old(memory.last)) && memory.live == old(memory.live) + Held(outs)
    ensures !ok ==>
              && Unset(outs)
              && slot.value.Some? && slot.value.value.code == reply.code && slot.value.value.block > old(memory.last)
              && memory.live == old(memory.live) + {slot.value.value.block}
  {
    if reply.Refused? {
      var block := memory.Allocate();
      SetRawError(memory, slot, GError(block, reply.code));
      return false;
    }
    var blocks := Build(memory, outs);
    for i := 0 to |outs|
      modifies outs
      invariant forall k :: 0 <= k < i ==> outs[k].value == blocks[k]
      invariant forall k :: 0 <= k < i ==> outs[k].writes == old(outs[k].writes) + (if outs[k].wanted then 1 else 0)
      invariant forall k :: i <= k < |outs| ==> outs[k].value == old(outs[k].value) && outs[k].writes == old(outs[k].writes)
    {
      if blocks[i].Some? {
        outs[i].Publish(blocks[i].value);
      }
    }
    assert Held(outs) == set i | 0 <= i < |outs| && blocks[i].Some? :: blocks[i].value;
    return true;
  }

  // ---------------------------------------------------------------------------
  // The retry

  /** The reply that decides: the second one exactly if the first rejected the credentials and the
      refresh succeeded. */
  function Deciding(first: Reply, refreshed: bool, second: Reply): (reply: Reply) {
    if first == Refused(AuthenticationFailed) && refreshed then second else first
  }

  ghost function HeldError(error: ErrorSlot): (blocks: set<nat>)
    reads error
  {
    if error.value.Some? then {error.value.value.block} else {}
  }

  /** Frees the error of the first attempt, so that the slot can take another, and attempts again. */
  method AttemptAgain(memory: Memory, outs: seq<Out>, reply: Reply, slot: ErrorSlot) returns (ok: bool)
    requires memory.Valid() && Distinct(outs) && Unset(outs) && slot.wanted
    requires slot.value.Some? && slot.value.value.block in memory.live
    modifies memory, outs, slot
    ensures memory.Valid() && memory.last >= old(memory.last)
    ensures ok <==> reply.Accepted?
    ensures WrittenOnce(outs, ok)
    ensures ok ==>
              && slot.value.None? && Published(outs, old(memory.last))
              && memory.live == old(memory.live) - {old(slot.value.value.block)} + Held(outs)
    ensures !ok ==>
              && Unset(outs)
              && slot.value.Some? && slot.value.value.code == reply.code && slot.value.value.block > old(memory.last)
              && memory.live == old(memory.live) - {old(slot.value.value.block)} + {slot.value.value.block}
  {
    memory.Free(slot.value.value.block);
    slot.value := None;
    ok := Attempt(memory, outs, reply, slot);
  }

  /** Runs the operation, and once more after a refresh. Each wanted out-parameter is written exactly
      once, by the attempt that succeeds, or never. Success leaves no error, failure leaves exactly
      the error of the deciding attempt. Nothing is left allocated but what the caller now holds. */
  method OnAuthenticationFailure(memory: Memory, outs: seq<Out>, error: ErrorSlot, first: Reply, refreshed: bool, second: Reply)
    returns (ok: bool)
    requires memory.Valid() && Distinct(outs) && Unset(outs) && error.value.None?
    modifies memory, outs, error
    ensures memory.Valid()
    ensures ok <==> Deciding(first, refreshed, second).Accepted?
    ensures WrittenOnce(outs, ok)
    ensures ok ==> Published(outs, old(memory.last)) && error.value.None?
    ensures !ok ==>
              && Unset(outs)
              && (error.value.Some? <==> error.wanted)
              && (error.value.Some? ==> error.value.value.code == Deciding(first, refreshed, second).code)
    ensures memory.live == old(memory.live) + Held(outs) + HeldError(error)
    ensures forall block :: block in Held(outs) + HeldError(error) ==> block !in old(memory.live)
  {
    var slot := new ErrorSlot(true);
    ok := Attempt(memory, outs, first, slot);
    if !ok && slot.value.value.code == AuthenticationFailed && refreshed {
      ok := AttemptAgain(memory, outs, second, slot);
    }
    assert !ok ==> Held(outs) == {};
    if slot.value.Some? {
      SetRawError(memory, error, slot.value.value);
    }
  }
}
