/** One-use approval handles (packages/workflows/src/approval.ts). Fingerprints are taken as
    injective: a fingerprint is what it was computed from. */
module Approvals {
  import opened Prelude
  import opened References

  datatype Binding = Binding(runId: string, workflowId: string, stepId: string, scope: string,
                             plan: nat, arguments: Json)

  datatype Handle = Handle(binding: Binding, expiresAt: int, approved: bool, consumed: bool)

  type Handles = map<string, Handle>

  function Requested(h: Handles, id: string, binding: Binding, expiresAt: int): Handles {
    h[id := Handle(binding, expiresAt, false, false)]
  }

  /** After the approver answered; nothing when the handle was revoked meanwhile. */
  function Reviewed(h: Handles, id: string, approved: bool): Option<Handles> {
    if id in h then Some(h[id := h[id].(approved := approved)]) else None
  }

  predicate Usable(h: Handles, id: string, expected: Binding, now: int) {
    id in h && h[id].approved && !h[id].consumed && now < h[id].expiresAt && h[id].binding == expected
  }

  /** The handles after a call of consume: a used or expired one is gone, any other call changes nothing. */
  function Consumed(h: Handles, id: string, expected: Binding, now: int): Handles {
    if Usable(h, id, expected, now) || (id in h && h[id].approved && !h[id].consumed && h[id].expiresAt <= now)
    then h - {id}
    else h
  }

  /** The broker. `request` is cut at the approver's answer. */
  class ApprovalBroker {
    var handles: Handles
    const maximumLifetime: nat

    constructor (maximumLifetime: nat)
      ensures handles == map[] && this.maximumLifetime == maximumLifetime
    {
      handles := map[];
      this.maximumLifetime := maximumLifetime;
    }

    method BeginRequest(id: string, binding: Binding, lifetime: int, now: int) returns (accepted: bool)
      modifies this
      ensures accepted <==> 1 <= lifetime <= maximumLifetime
      ensures handles == if accepted then Requested(old(handles), id, binding, now + lifetime) else old(handles)
    {
      if lifetime < 1 || lifetime > maximumLifetime {
        return false;
      }
      handles := handles[id := Handle(binding, now + lifetime, false, false)];
      return true;
    }

    method FinishRequest(id: string, approved: bool) returns (handle: Option<Handle>)
      modifies this
      ensures handle.Some? <==> Reviewed(old(handles), id, approved).Some?
      ensures handles == if handle.Some? then Reviewed(old(handles), id, approved).value else old(handles)
      ensures handle.Some? ==> handle.value == handles[id] && handle.value.approved == approved
    {
      if id !in handles {
        return None;
      }
      handles := handles[id := handles[id].(approved := approved)];
      return Some(handles[id]);
    }

    method Consume(id: string, expected: Binding, now: int) returns (ok: bool)
      modifies this
      ensures ok <==> Usable(old(handles), id, expected, now)
      ensures handles == Consumed(old(handles), id, expected, now)
    {
      if id !in handles || !handles[id].approved || handles[id].consumed {
        return false;
      }
      if handles[id].expiresAt <= now {
        handles := handles - {id};
        return false;
      }
      if handles[id].binding != expected {
        return false;
      }
      handles := handles[id := handles[id].(consumed := true)];
      handles := handles - {id};
      return true;
    }

    method Revoke(id: string)
      modifies this
      ensures handles == old(handles) - {id}
    {
      handles := handles - {id};
    }
  }

  /** One thing that happens at the broker. */
  datatype Operation =
    | Request(id: string, binding: Binding, expiresAt: int)
    | Review(id: string, approved: bool)
    | Consume(id: string, expected: Binding, now: int)
    | Revoke(id: string)

  function After(h: Handles, operations: seq<Operation>): Handles {
    if operations == [] then h
    else
      var before, last := After(h, operations[..|operations| - 1]), operations[|operations| - 1];
      match last
      case Request(id, binding, expiresAt) => Requested(before, id, binding, expiresAt)
      case Review(id, approved) => if Reviewed(before, id, approved).Some? then Reviewed(before, id, approved).value else before
      case Consume(id, expected, now) => Consumed(before, id, expected, now)
      case Revoke(id) => before - {id}
  }

  /** A handle is good for one use: after it, whatever happens at the broker, no call is let through
      with that id again, as long as the id is not drawn anew. */
  lemma {:induction false} ConsumedOnce(h: Handles, id: string, expected: Binding, now: int, later: seq<Operation>)
    requires Usable(h, id, expected, now)
    requires forall k :: 0 <= k < |later| && later[k].Request? ==> later[k].id != id
    ensures var after := After(Consumed(h, id, expected, now), later);
            id !in after && forall again, time :: !Usable(after, id, again, time)
  {
    if later != [] {
      ConsumedOnce(h, id, expected, now, later[..|later| - 1]);
    }
  }

  /** The k-th operation requested the handle that stands under the id, and none has since. */
  ghost predicate RequestedAt(operations: seq<Operation>, id: string, handle: Handle, k: nat) {
    && k < |operations| && operations[k] == Request(id, handle.binding, handle.expiresAt)
    && forall n :: k < n < |operations| && operations[n].Request? ==> operations[n].id != id
  }

  /** The m-th operation is a review of it that approves, and none that denies has come since. */
  ghost predicate ApprovedAt(operations: seq<Operation>, id: string, m: nat) {
    && m < |operations| && operations[m] == Review(id, true)
    && forall n :: m < n < |operations| ==> operations[n] != Review(id, false)
  }

  lemma {:induction false} HandleWasRequested(operations: seq<Operation>, id: string) returns (k: nat)
    requires id in After(map[], operations)
    ensures RequestedAt(operations, id, After(map[], operations)[id], k)
  {
    var n := |operations| - 1;
    var before, last := operations[..n], operations[n];
    if last.Request? && last.id == id {
      k := n;
    } else {
      k := HandleWasRequested(before, id);
      assert forall i :: 0 <= i < n ==> operations[i] == before[i];
    }
  }

  lemma {:induction false} ApprovedWasReviewed(operations: seq<Operation>, id: string) returns (k: nat, m: nat)
    requires id in After(map[], operations) && After(map[], operations)[id].approved
    ensures k < m && RequestedAt(operations, id, After(map[], operations)[id], k) && ApprovedAt(operations, id, m)
  {
    var n := |operations| - 1;
    var before, last := operations[..n], operations[n];
    if last == Review(id, true) {
      k := HandleWasRequested(before, id);
      m := n;
    } else {
      k, m := ApprovedWasReviewed(before, id);
    }
    assert forall i :: 0 <= i < n ==> operations[i] == before[i];
  }

  /** A usable handle was requested with the very binding expected, and after that approved by a review,
      with no other request of it and no denial since. */
  lemma UsableWasApproved(operations: seq<Operation>, id: string, expected: Binding, now: int)
    requires Usable(After(map[], operations), id, expected, now)
    ensures exists k: nat, m: nat :: k < m && ApprovedAt(operations, id, m) && now < After(map[], operations)[id].expiresAt
                           && RequestedAt(operations, id, After(map[], operations)[id], k) && operations[k].binding == expected
  {
    var k, m := ApprovedWasReviewed(operations, id);
  }
}
