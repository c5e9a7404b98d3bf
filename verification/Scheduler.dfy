/** The single-worker inference scheduler (packages/core/src/scheduler.ts). */
module Scheduler {
  import opened Prelude

  datatype Kind = Generation | Embedding

  /** A queue entry. The ticket numbers acceptances and is not part of the original state. */
  datatype Entry = Entry(ticket: nat, id: string, kind: Kind, aborted: bool)

  datatype Outcome = Value | CancelledError | DisposedError | TaskError

  datatype Settlement = Settlement(ticket: nat, outcome: Outcome)

  /** The scheduler's fields, and what it did so far: how many requests it accepted, how promises
      settled, in which order tasks started, and which pending requests were aborted. */
  datatype State = State(queue: seq<Entry>, requestIds: set<string>, active: Option<Entry>, disposed: bool,
                         maximumQueued: nat, accepted: nat, settled: seq<Settlement>,
                         started: seq<Entry>, aborted: set<nat>)

  function Initial(maximumQueued: nat): State {
    State([], {}, None, false, maximumQueued, 0, [], [], {})
  }

  /** The first queued embedding, or the length of the queue. */
  function FirstEmbedding(queue: seq<Entry>): (n: nat)
    ensures n <= |queue|
  {
    if queue == [] || queue[0].kind == Embedding then 0 else 1 + FirstEmbedding(queue[1..])
  }

  function Enqueued(queue: seq<Entry>, e: Entry): seq<Entry> {
    if e.kind == Generation
    then queue[..FirstEmbedding(queue)] + [e] + queue[FirstEmbedding(queue)..]
    else queue + [e]
  }

  /** #drain up to the start of the task. */
  function Drained(s: State): State {
    if s.active.Some? || s.disposed || s.queue == [] then s
    else s.(active := Some(s.queue[0]), queue := s.queue[1..], started := s.started + [s.queue[0]])
  }

  /** `admissible`: the id pattern and the payload size are accepted. */
  predicate Accepts(s: State, id: string, admissible: bool, signalled: bool) {
    !s.disposed && admissible && id !in s.requestIds && |s.queue| < s.maximumQueued && !signalled
  }

  function Scheduled(s: State, id: string, kind: Kind, admissible: bool, signalled: bool): State {
    if !Accepts(s, id, admissible, signalled) then s
    else
      var entry := Entry(s.accepted, id, kind, false);
      Drained(s.(requestIds := s.requestIds + {id}, queue := Enqueued(s.queue, entry), accepted := s.accepted + 1))
  }

  /** The position of a queued request, or the length of the queue. */
  function Position(queue: seq<Entry>, id: string): (n: nat)
    ensures n <= |queue| && (n < |queue| ==> queue[n].id == id)
    ensures forall i :: 0 <= i < n ==> queue[i].id != id
  {
    if queue == [] || queue[0].id == id then 0 else 1 + Position(queue[1..], id)
  }

  function CancelledState(s: State, id: string): State {
    if s.active.Some? && s.active.value.id == id then
      s.(active := Some(s.active.value.(aborted := true)), aborted := s.aborted + {s.active.value.ticket})
    else
      var n := Position(s.queue, id);
      if n == |s.queue| then s
      else
        s.(queue := s.queue[..n] + s.queue[n + 1..], requestIds := s.requestIds - {id},
           settled := s.settled + [Settlement(s.queue[n].ticket, CancelledError)],
           aborted := s.aborted + {s.queue[n].ticket})
  }

  function DisposedSettlements(queue: seq<Entry>): seq<Settlement> {
    seq(|queue|, i requires 0 <= i < |queue| => Settlement(queue[i].ticket, DisposedError))
  }

  function IdsOf(queue: seq<Entry>): set<string> {
    set e | e in queue :: e.id
  }

  function TicketsOf(queue: seq<Entry>): set<nat> {
    set e | e in queue :: e.ticket
  }

  function Disposed(s: State): State {
    if s.disposed then s
    else
      var active := if s.active.Some? then Some(s.active.value.(aborted := true)) else None;
      s.(disposed := true, active := active, queue := [], requestIds := s.requestIds - IdsOf(s.queue),
         settled := s.settled + DisposedSettlements(s.queue),
         aborted := s.aborted + TicketsOf(s.queue) + if s.active.Some? then {s.active.value.ticket} else {})
  }

  /** How the active entry's promise settles once its task has returned a value or thrown. */
  function Verdict(e: Entry, disposed: bool, returned: bool): Outcome {
    if e.aborted then if disposed then DisposedError else CancelledError
    else if returned then Value
    else TaskError
  }

  /** The rest of #drain: settle, clear, and drain again. */
  function Finished(s: State, returned: bool): State {
    if s.active.None? then s
    else
      var entry := s.active.value;
      Drained(s.(active := None, requestIds := s.requestIds - {entry.id},
                 settled := s.settled + [Settlement(entry.ticket, Verdict(entry, s.disposed, returned))]))
  }

  class BoundedRuntimeScheduler {
    var queue: seq<Entry>
    var requestIds: set<string>
    var active: Option<Entry>
    var disposed: bool
    const maximumQueued: nat
    var accepted: nat
    ghost var settled: seq<Settlement>
    ghost var started: seq<Entry>
    ghost var aborted: set<nat>

    constructor (maximumQueued: nat)
      requires 1 <= maximumQueued <= 256
      ensures Value() == Initial(maximumQueued)
    {
      this.maximumQueued := maximumQueued;
      queue, requestIds, active, disposed, accepted := [], {}, None, false, 0;
      settled, started, aborted := [], [], {};
    }

    ghost function Value(): State
      reads this
    {
      State(queue, requestIds, active, disposed, maximumQueued, accepted, settled, started, aborted)
    }

    method Drain()
      modifies this`queue, this`active, this`started
      ensures Value() == Drained(old(Value()))
    {
      if active.Some? || disposed || queue == [] {
        return;
      }
      active := Some(queue[0]);
      started := started + [queue[0]];
      queue := queue[1..];
    }

    method Schedule(id: string, kind: Kind, admissible: bool, signalled: bool) returns (ok: bool)
      modifies this
      ensures ok <==> Accepts(old(Value()), id, admissible, signalled)
      ensures Value() == Scheduled(old(Value()), id, kind, admissible, signalled)
    {
      if disposed || !admissible || id in requestIds || |queue| >= maximumQueued || signalled {
        return false;
      }
      var entry := Entry(accepted, id, kind, false);
      accepted := accepted + 1;
      requestIds := requestIds + {id};
      if kind == Generation {
        var index := 0;
        while index < |queue| && queue[index].kind != Embedding
          invariant index <= |queue|
          invariant FirstEmbedding(queue) == index + FirstEmbedding(queue[index..])
        {
          assert queue[index..][1..] == queue[index + 1..];
          index := index + 1;
        }
        queue := queue[..index] + [entry] + queue[index..];
      } else {
        queue := queue + [entry];
      }
      Drain();
      return true;
    }

    method FindIndex(id: string) returns (index: nat)
      ensures index == Position(queue, id)
    {
      index := 0;
      while index < |queue| && queue[index].id != id
        invariant index <= |queue|
        invariant Position(queue, id) == index + Position(queue[index..], id)
      {
        assert queue[index..][1..] == queue[index + 1..];
        index := index + 1;
      }
    }

    method Cancel(id: string) returns (found: bool)
      modifies this
      ensures Value() == CancelledState(old(Value()), id)
      ensures found <==> old((active.Some? && active.value.id == id) || Position(queue, id) < |queue|)
    {
      if active.Some? && active.value.id == id {
        aborted := aborted + {active.value.ticket};
        active := Some(active.value.(aborted := true));
        return true;
      }
      var index := FindIndex(id);
      if index == |queue| {
        return false;
      }
      var entry := queue[index];
      queue := queue[..index] + queue[index + 1..];
      aborted := aborted + {entry.ticket};
      requestIds := requestIds - {id};
      settled := settled + [Settlement(entry.ticket, CancelledError)];
      return true;
    }

    /** The loop of dispose(). */
    method RejectAll(entries: seq<Entry>)
      modifies this`requestIds, this`settled, this`aborted
      ensures requestIds == old(requestIds) - IdsOf(entries)
      ensures settled == old(settled) + DisposedSettlements(entries)
      ensures aborted == old(aborted) + TicketsOf(entries)
    {
      for i := 0 to |entries|
        invariant requestIds == old(requestIds) - IdsOf(entries[..i])
        invariant settled == old(settled) + DisposedSettlements(entries[..i])
        invariant aborted == old(aborted) + TicketsOf(entries[..i])
      {
        EntrySnoc(entries, i);
        aborted := aborted + {entries[i].ticket};
        requestIds := requestIds - {entries[i].id};
        settled := settled + [Settlement(entries[i].ticket, DisposedError)];
      }
      assert entries[..|entries|] == entries;
    }

    method Dispose()
      modifies this
      ensures Value() == Disposed(old(Value()))
    {
      if disposed {
        return;
      }
      disposed := true;
      if active.Some? {
        aborted := aborted + {active.value.ticket};
        active := Some(active.value.(aborted := true));
      }
      var entries := queue;
      queue := [];
      RejectAll(entries);
    }

    method Finish(returned: bool)
      modifies this
      ensures Value() == Finished(old(Value()), returned)
    {
      if active.None? {
        return;
      }
      var entry := active.value;
      settled := settled + [Settlement(entry.ticket, Verdict(entry, disposed, returned))];
      requestIds := requestIds - {entry.id};
      active := None;
      Drain();
    }
  }

  lemma EntrySnoc(entries: seq<Entry>, i: nat)
    requires i < |entries|
    ensures IdsOf(entries[..i + 1]) == IdsOf(entries[..i]) + {entries[i].id}
    ensures TicketsOf(entries[..i + 1]) == TicketsOf(entries[..i]) + {entries[i].ticket}
    ensures DisposedSettlements(entries[..i + 1]) == DisposedSettlements(entries[..i]) + [Settlement(entries[i].ticket, DisposedError)]
  {
    assert entries[..i + 1] == entries[..i] + [entries[i]];
  }
}
