/** The scheduler over every interleaving of schedule, cancel, abort, dispose and task completion. */
module SchedulerRuns {
  import opened Prelude
  import opened Scheduler

  /** An abort signal of a pending task calls cancel with its id; its listener goes at settlement. */
  datatype Event =
    | Schedule(id: string, kind: Kind, admissible: bool, signalled: bool)
    | Cancel(id: string)
    | Dispose
    | Finish(returned: bool)

  function Apply(s: State, e: Event): State {
    match e
    case Schedule(id, kind, admissible, signalled) => Scheduled(s, id, kind, admissible, signalled)
    case Cancel(id) => CancelledState(s, id)
    case Dispose => Disposed(s)
    case Finish(returned) => Finished(s, returned)
  }

  function Run(maximumQueued: nat, events: seq<Event>): State {
    if events == [] then Initial(maximumQueued)
    else Apply(Run(maximumQueued, events[..|events| - 1]), events[|events| - 1])
  }

  function Count(settled: seq<Settlement>, ticket: nat): nat {
    if settled == [] then 0
    else Count(settled[..|settled| - 1], ticket) + if settled[|settled| - 1].ticket == ticket then 1 else 0
  }

  /** Everything still waiting or running. */
  function Pending(s: State): seq<Entry> {
    (if s.active.Some? then [s.active.value] else []) + s.queue
  }

  predicate Before(a: Entry, b: Entry) {
    (a.kind == b.kind ==> a.ticket < b.ticket) && (a.kind == Embedding ==> b.kind == Embedding)
  }

  /** Generations first, then embeddings, each in the order they were accepted. */
  ghost predicate Ordered(queue: seq<Entry>) {
    forall i, j :: 0 <= i < j < |queue| ==> Before(queue[i], queue[j])
  }

  ghost predicate Distinct(entries: seq<Entry>) {
    forall i, j :: 0 <= i < j < |entries| ==> entries[i].id != entries[j].id && entries[i].ticket != entries[j].ticket
  }

  /** `earlier` started before `e`: it was accepted before, unless it is a generation that went ahead of an embedding. */
  predicate MayStartBefore(earlier: Entry, e: Entry) {
    (e.kind == Generation || earlier.kind == e.kind) ==> earlier.ticket < e.ticket
  }

  ghost predicate StartOrder(started: seq<Entry>) {
    forall i, j :: 0 <= i < j < |started| ==> MayStartBefore(started[i], started[j])
  }

  /** Each accepted request is pending or settled, and settled once. */
  ghost predicate SettledOnce(s: State) {
    forall t: nat :: Count(s.settled, t) == if t < s.accepted && t !in TicketsOf(Pending(s)) then 1 else 0
  }

  ghost predicate Queue(s: State) {
    && |s.queue| <= s.maximumQueued
    && Ordered(s.queue)
    && Distinct(Pending(s))
    && s.requestIds == IdsOf(Pending(s))
    && (forall e :: e in Pending(s) ==> e.ticket < s.accepted)
    && (s.disposed ==> s.queue == [])
  }

  ghost predicate Aborts(s: State) {
    && (forall e :: e in Pending(s) ==> (e.aborted <==> e.ticket in s.aborted))
    && (forall e :: e in s.queue ==> !e.aborted)
    && (forall t :: t in s.aborted ==> t < s.accepted)
    && (forall x :: x in s.settled && x.outcome == Value ==> x.ticket !in s.aborted)
    && (forall x :: x in s.settled ==> x.ticket < s.accepted && x.ticket !in TicketsOf(Pending(s)))
  }

  ghost predicate Starts(s: State) {
    && StartOrder(s.started)
    && (forall h, e :: h in s.started && e in s.queue ==> MayStartBefore(h, e))
    && (forall h :: h in s.started ==> h.ticket < s.accepted)
  }

  ghost predicate Inv(s: State) {
    Queue(s) && SettledOnce(s) && Aborts(s) && Starts(s) && (s.active.None? ==> s.queue == [])
  }

  // Starting the next task.

  lemma StartsNext(s: State, t: State)
    requires Ordered(s.queue) && Starts(s) && s.queue != []
    requires t.queue == s.queue[1..] && t.started == s.started + [s.queue[0]] && t.accepted == s.accepted
    requires s.queue[0].ticket < s.accepted
    ensures Starts(t) && Ordered(t.queue)
  {
    assert s.queue[0] in s.queue;
    forall h, e | h in t.started && e in t.queue
      ensures MayStartBefore(h, e)
    {
      var i :| 0 <= i < |t.queue| && t.queue[i] == e;
      assert e == s.queue[i + 1];
      assert Before(s.queue[0], s.queue[i + 1]);
      assert h in s.started || h == s.queue[0];
    }
    forall i, j | 0 <= i < j < |t.started|
      ensures MayStartBefore(t.started[i], t.started[j])
    {
      if j == |s.started| {
        assert t.started[i] in s.started;
      }
    }
  }

  lemma DrainedOk(s: State)
    requires Queue(s) && SettledOnce(s) && Aborts(s) && Starts(s)
    ensures Inv(Drained(s))
  {
    var t := Drained(s);
    if s.active.None? && !s.disposed && s.queue != [] {
      assert Pending(t) == s.queue == Pending(s);
      StartsNext(s, t);
    }
  }

  // Schedule.

  lemma {:induction false} FirstEmbeddingSplits(queue: seq<Entry>)
    requires Ordered(queue)
    ensures forall i :: 0 <= i < |queue| ==> (queue[i].kind == Generation <==> i < FirstEmbedding(queue))
  {
    if queue != [] && queue[0].kind == Generation {
      FirstEmbeddingSplits(queue[1..]);
      forall i | 0 <= i < |queue|
        ensures queue[i].kind == Generation <==> i < FirstEmbedding(queue)
      {
        if i > 0 {
          assert queue[i] == queue[1..][i - 1];
        }
      }
    } else {
      forall i | 0 <= i < |queue|
        ensures queue[i].kind == Embedding
      {
        if i > 0 {
          assert Before(queue[0], queue[i]);
        }
      }
    }
  }

  lemma EnqueuedAt(queue: seq<Entry>, e: Entry) returns (n: nat)
    requires Ordered(queue)
    ensures n <= |queue| && Enqueued(queue, e) == queue[..n] + [e] + queue[n..]
    ensures forall i :: 0 <= i < n ==> e.kind == Generation ==> queue[i].kind == Generation
    ensures e.kind == Embedding ==> n == |queue|
    ensures forall i :: n <= i < |queue| ==> queue[i].kind == Embedding
  {
    FirstEmbeddingSplits(queue);
    n := if e.kind == Generation then FirstEmbedding(queue) else |queue|;
  }

  lemma EnqueuedOrdered(queue: seq<Entry>, e: Entry)
    requires Ordered(queue) && forall x :: x in queue ==> x.ticket < e.ticket
    ensures Ordered(Enqueued(queue, e))
  {
    var n := EnqueuedAt(queue, e);
    var q := Enqueued(queue, e);
    forall i, j | 0 <= i < j < |q|
      ensures Before(q[i], q[j])
    {
      if i == n {
        assert q[j] == queue[j - 1];
      } else if j == n {
        assert q[i] == queue[i];
        assert queue[i] in queue;
      } else {
        var a, b := if i < n then i else i - 1, if j < n then j else j - 1;
        assert q[i] == queue[a] && q[j] == queue[b];
        assert Before(queue[a], queue[b]);
      }
    }
  }

  lemma EnqueuedMembers(queue: seq<Entry>, e: Entry, x: Entry)
    requires Ordered(queue)
    ensures |Enqueued(queue, e)| == |queue| + 1
    ensures x in Enqueued(queue, e) <==> x in queue || x == e
  {
    var n := EnqueuedAt(queue, e);
    assert queue == queue[..n] + queue[n..];
  }

  /** A new entry keeps entries distinct when its id and ticket are new. */
  lemma DistinctInserted(active: seq<Entry>, queue: seq<Entry>, n: nat, e: Entry)
    requires n <= |queue| && Distinct(active + queue)
    requires forall x :: x in active + queue ==> x.id != e.id && x.ticket != e.ticket
    ensures Distinct(active + (queue[..n] + [e] + queue[n..]))
  {
    var before := active + queue;
    var after := active + (queue[..n] + [e] + queue[n..]);
    var m := |active| + n;
    forall i, j | 0 <= i < j < |after|
      ensures after[i].id != after[j].id && after[i].ticket != after[j].ticket
    {
      assert i != m ==> after[i] == before[if i < m then i else i - 1];
      assert j != m ==> after[j] == before[if j < m then j else j - 1];
      assert i != m ==> after[i] in before;
      assert j != m ==> after[j] in before;
    }
  }

  /** The state between pushing the entry and draining. */
  function Pushed(s: State, e: Entry): State {
    s.(requestIds := s.requestIds + {e.id}, queue := Enqueued(s.queue, e), accepted := s.accepted + 1)
  }

  lemma PushedMembers(s: State, e: Entry)
    requires Ordered(s.queue)
    ensures forall x :: x in Pending(Pushed(s, e)) <==> x in Pending(s) || x == e
    ensures forall x :: x in Pushed(s, e).queue <==> x in s.queue || x == e
    ensures TicketsOf(Pending(Pushed(s, e))) == TicketsOf(Pending(s)) + {e.ticket}
    ensures IdsOf(Pending(Pushed(s, e))) == IdsOf(Pending(s)) + {e.id}
  {
    forall x
      ensures x in Pushed(s, e).queue <==> x in s.queue || x == e
    {
      EnqueuedMembers(s.queue, e, x);
    }
  }

  lemma PushedQueue(s: State, e: Entry)
    requires Inv(s) && e.ticket == s.accepted && e.id !in s.requestIds && |s.queue| < s.maximumQueued && !s.disposed
    ensures Queue(Pushed(s, e))
  {
    var t := Pushed(s, e);
    var active := if s.active.Some? then [s.active.value] else [];
    PushedMembers(s, e);
    EnqueuedMembers(s.queue, e, e);
    assert forall x :: x in s.queue ==> x in Pending(s);
    EnqueuedOrdered(s.queue, e);
    var n := EnqueuedAt(s.queue, e);
    assert forall x :: x in Pending(s) ==> x.id in IdsOf(Pending(s));
    DistinctInserted(active, s.queue, n, e);
  }

  lemma PushedRest(s: State, e: Entry)
    requires Inv(s) && e.ticket == s.accepted && !e.aborted
    ensures SettledOnce(Pushed(s, e)) && Aborts(Pushed(s, e)) && Starts(Pushed(s, e))
  {
    PushedMembers(s, e);
  }

  lemma ScheduledOk(s: State, id: string, kind: Kind, admissible: bool, signalled: bool)
    requires Inv(s)
    ensures Inv(Scheduled(s, id, kind, admissible, signalled))
  {
    if Accepts(s, id, admissible, signalled) {
      var e := Entry(s.accepted, id, kind, false);
      PushedQueue(s, e);
      PushedRest(s, e);
      DrainedOk(Pushed(s, e));
    }
  }

  // Settling.

  lemma CountSnoc(settled: seq<Settlement>, x: Settlement, t: nat)
    ensures Count(settled + [x], t) == Count(settled, t) + if x.ticket == t then 1 else 0
  {
    assert (settled + [x])[..|settled|] == settled;
  }

  lemma CancelledOk(s: State, id: string)
    requires Inv(s)
    ensures Inv(CancelledState(s, id))
  {
    if s.active.Some? && s.active.value.id == id {
      AbortingActive(s, s.disposed);
    } else {
      var n := Position(s.queue, id);
      if n < |s.queue| {
        RemovingQueued(s, n);
      }
    }
  }

  lemma AbortingActive(s: State, disposed: bool)
    requires Inv(s) && s.active.Some?
    ensures var e := s.active.value;
            Inv(s.(active := Some(e.(aborted := true)), aborted := s.aborted + {e.ticket}))
  {
    var e := s.active.value;
    var t := s.(active := Some(e.(aborted := true)), aborted := s.aborted + {e.ticket});
    SameIdentities(s, t);
    assert e in Pending(s);
    AbortedActive(s, t);
    assert e.ticket in TicketsOf(Pending(s));
  }

  lemma AbortedActive(s: State, t: State)
    requires Inv(s) && s.active.Some?
    requires var e := s.active.value;
             t == s.(active := Some(e.(aborted := true)), aborted := s.aborted + {e.ticket})
    ensures forall x :: x in Pending(t) ==> (x.aborted <==> x.ticket in t.aborted)
  {
    forall x | x in Pending(t)
      ensures x.aborted <==> x.ticket in t.aborted
    {
      var k :| 0 <= k < |Pending(t)| && Pending(t)[k] == x;
      if k > 0 {
        assert x == Pending(s)[k];
        assert Pending(s)[0].ticket != Pending(s)[k].ticket;
      }
    }
  }

  /** Two states whose pending entries have the same ids and tickets in the same places. */
  lemma SameIdentities(s: State, t: State)
    requires |Pending(s)| == |Pending(t)|
    requires forall k :: 0 <= k < |Pending(s)| ==>
               Pending(s)[k].id == Pending(t)[k].id && Pending(s)[k].ticket == Pending(t)[k].ticket
    requires Distinct(Pending(s))
    ensures Distinct(Pending(t))
    ensures IdsOf(Pending(s)) == IdsOf(Pending(t)) && TicketsOf(Pending(s)) == TicketsOf(Pending(t))
  {
    var p, q := Pending(s), Pending(t);
    forall k | 0 <= k < |p|
      ensures p[k].id in IdsOf(q) && p[k].ticket in TicketsOf(q)
      ensures q[k].id in IdsOf(p) && q[k].ticket in TicketsOf(p)
    {
      assert q[k] in q && p[k] in p;
    }
    forall i, j | 0 <= i < j < |q|
      ensures q[i].id != q[j].id && q[i].ticket != q[j].ticket
    {
      assert p[i].id != p[j].id;
    }
  }

  function Omitting(entries: seq<Entry>, n: nat): (rest: seq<Entry>)
    requires n < |entries|
    ensures |rest| == |entries| - 1
    ensures forall i :: 0 <= i < |rest| ==> rest[i] == entries[if i < n then i else i + 1]
  {
    entries[..n] + entries[n + 1..]
  }

  lemma OmittingMembers(entries: seq<Entry>, n: nat, x: Entry)
    requires n < |entries| && Distinct(entries)
    ensures x in Omitting(entries, n) <==> x in entries && x != entries[n]
    ensures x in Omitting(entries, n) ==> x.id != entries[n].id && x.ticket != entries[n].ticket
  {
    var rest := Omitting(entries, n);
    if x in rest {
      var i :| 0 <= i < |rest| && rest[i] == x;
      assert x == entries[if i < n then i else i + 1];
    }
    if x in entries && x != entries[n] {
      var a :| 0 <= a < |entries| && entries[a] == x;
      assert rest[if a < n then a else a - 1] == x;
    }
  }

  lemma OmittingDistinct(entries: seq<Entry>, n: nat)
    requires n < |entries| && Distinct(entries)
    ensures Distinct(Omitting(entries, n))
  {
  }

  /** `entries` without the one at n. */
  lemma WithoutOne(entries: seq<Entry>, n: nat)
    requires n < |entries| && Distinct(entries)
    ensures var rest := entries[..n] + entries[n + 1..];
            && Distinct(rest)
            && (forall x :: x in rest <==> x in entries && x != entries[n])
            && IdsOf(rest) == IdsOf(entries) - {entries[n].id}
            && TicketsOf(rest) == TicketsOf(entries) - {entries[n].ticket}
  {
    OmittingDistinct(entries, n);
    var rest := Omitting(entries, n);
    forall x
      ensures x in rest <==> x in entries && x != entries[n]
      ensures x in rest ==> x.id != entries[n].id && x.ticket != entries[n].ticket
    {
      OmittingMembers(entries, n, x);
    }
  }

  function Removed(s: State, n: nat): State
    requires n < |s.queue|
  {
    s.(queue := s.queue[..n] + s.queue[n + 1..], requestIds := s.requestIds - {s.queue[n].id},
       settled := s.settled + [Settlement(s.queue[n].ticket, CancelledError)],
       aborted := s.aborted + {s.queue[n].ticket})
  }

  lemma RemovedPending(s: State, n: nat)
    requires Inv(s) && n < |s.queue|
    ensures var p := Pending(Removed(s, n));
            && Distinct(p)
            && (forall x :: x in p ==> x in Pending(s) && x.ticket != s.queue[n].ticket)
            && IdsOf(p) == IdsOf(Pending(s)) - {s.queue[n].id}
            && TicketsOf(p) == TicketsOf(Pending(s)) - {s.queue[n].ticket}
  {
    var m := n + if s.active.Some? then 1 else 0;
    var p, q := Pending(s), Pending(Removed(s, n));
    assert q == p[..m] + p[m + 1..];
    assert p[m] == s.queue[n];
    WithoutOne(p, m);
    forall x | x in q
      ensures x.ticket != s.queue[n].ticket
    {
      assert x.ticket in TicketsOf(q);
    }
  }

  lemma RemovedQueue(s: State, n: nat)
    requires Inv(s) && n < |s.queue|
    ensures Ordered(Removed(s, n).queue) && forall x :: x in Removed(s, n).queue ==> x in s.queue
  {
    var q := Removed(s, n).queue;
    forall i, j | 0 <= i < j < |q|
      ensures Before(q[i], q[j])
    {
      assert q[i] == s.queue[if i < n then i else i + 1] && q[j] == s.queue[if j < n then j else j + 1];
    }
  }

  lemma RemovingQueued(s: State, n: nat)
    requires Inv(s) && n < |s.queue|
    ensures Inv(Removed(s, n))
  {
    var e, t := s.queue[n], Removed(s, n);
    assert e in Pending(s);
    RemovedPending(s, n);
    RemovedQueue(s, n);
    SettlingOne(s, t, e, CancelledError);
  }

  /** Settling one pending entry keeps settlements and aborts in order. */
  lemma SettlingOne(s: State, t: State, e: Entry, outcome: Outcome)
    requires Inv(s) && e in Pending(s)
    requires t.accepted == s.accepted && t.settled == s.settled + [Settlement(e.ticket, outcome)]
    requires TicketsOf(Pending(t)) == TicketsOf(Pending(s)) - {e.ticket}
    requires forall x :: x in Pending(t) ==> x in Pending(s) && x.ticket != e.ticket
    requires forall x :: x in t.queue ==> x in s.queue
    requires t.aborted == s.aborted || (t.aborted == s.aborted + {e.ticket} && outcome != Value)
    requires outcome == Value ==> !e.aborted
    ensures SettledOnce(t) && Aborts(t)
  {
    assert e.ticket in TicketsOf(Pending(s));
    forall ticket: nat
      ensures Count(t.settled, ticket) == if ticket < t.accepted && ticket !in TicketsOf(Pending(t)) then 1 else 0
    {
      CountSnoc(s.settled, Settlement(e.ticket, outcome), ticket);
    }
  }

  lemma FinishedOk(s: State, returned: bool)
    requires Inv(s)
    ensures Inv(Finished(s, returned))
  {
    if s.active.Some? {
      var e := s.active.value;
      var outcome := Verdict(e, s.disposed, returned);
      var t := s.(active := None, requestIds := s.requestIds - {e.id},
                  settled := s.settled + [Settlement(e.ticket, outcome)]);
      assert Pending(s)[0] == e;
      assert Pending(t) == Pending(s)[..0] + Pending(s)[1..];
      WithoutOne(Pending(s), 0);
      SettlingOne(s, t, e, outcome);
      DrainedOk(t);
    }
  }

  lemma DisposedSnoc(settled: seq<Settlement>, queue: seq<Entry>, t: nat)
    requires queue != []
    ensures var last := |queue| - 1;
            Count(settled + DisposedSettlements(queue), t) ==
            Count(settled + DisposedSettlements(queue[..last]), t) + if queue[last].ticket == t then 1 else 0
  {
    var last := |queue| - 1;
    var x := Settlement(queue[last].ticket, DisposedError);
    var before := settled + DisposedSettlements(queue[..last]);
    assert DisposedSettlements(queue) == DisposedSettlements(queue[..last]) + [x];
    assert settled + DisposedSettlements(queue) == before + [x];
    CountSnoc(before, x, t);
  }

  lemma TicketsSnoc(queue: seq<Entry>, t: nat)
    requires queue != [] && Distinct(queue)
    ensures var last := |queue| - 1;
            && (t in TicketsOf(queue) <==> t in TicketsOf(queue[..last]) || t == queue[last].ticket)
            && queue[last].ticket !in TicketsOf(queue[..last])
  {
    var last := |queue| - 1;
    assert queue == queue[..last] + [queue[last]];
    forall y | y in queue[..last]
      ensures y.ticket != queue[last].ticket
    {
      var k :| 0 <= k < last && queue[..last][k] == y;
      assert queue[k] == y;
    }
    if t in TicketsOf(queue) {
      var y :| y in queue && y.ticket == t;
      assert y in queue[..last] || y == queue[last];
    }
    if t in TicketsOf(queue[..last]) {
      var y :| y in queue[..last] && y.ticket == t;
      assert y in queue;
    }
    assert queue[last] in queue;
  }

  lemma {:induction false} CountDisposed(settled: seq<Settlement>, queue: seq<Entry>, t: nat)
    requires Distinct(queue)
    ensures Count(settled + DisposedSettlements(queue), t) == Count(settled, t) + if t in TicketsOf(queue) then 1 else 0
  {
    if queue == [] {
      assert settled + DisposedSettlements(queue) == settled;
    } else {
      CountDisposed(settled, queue[..|queue| - 1], t);
      DisposedSnoc(settled, queue, t);
      TicketsSnoc(queue, t);
    }
  }

  /** Rejecting the whole queue, before the active entry is touched. */
  function ActiveOf(s: State): seq<Entry> {
    if s.active.Some? then [s.active.value] else []
  }

  lemma ActiveApart(s: State)
    requires Inv(s)
    ensures forall x :: x in ActiveOf(s) ==> x.ticket !in TicketsOf(s.queue) && x.id !in IdsOf(s.queue)
    ensures TicketsOf(Pending(s)) == TicketsOf(ActiveOf(s)) + TicketsOf(s.queue)
    ensures IdsOf(Pending(s)) == IdsOf(ActiveOf(s)) + IdsOf(s.queue)
  {
    var active := ActiveOf(s);
    assert Pending(s) == active + s.queue;
    forall x, y | x in active && y in s.queue
      ensures y.ticket != x.ticket && y.id != x.id
    {
      var k :| 0 <= k < |s.queue| && s.queue[k] == y;
      assert Pending(s)[0] == x && Pending(s)[k + 1] == y;
    }
  }

  lemma QueueDistinct(s: State)
    requires Inv(s)
    ensures Distinct(s.queue)
  {
    var n := |ActiveOf(s)|;
    forall i, j | 0 <= i < j < |s.queue|
      ensures s.queue[i].id != s.queue[j].id && s.queue[i].ticket != s.queue[j].ticket
    {
      assert s.queue[i] == Pending(s)[i + n] && s.queue[j] == Pending(s)[j + n];
    }
  }

  lemma EmptyingCounts(s: State, ticket: nat)
    requires Inv(s)
    ensures Count(s.settled + DisposedSettlements(s.queue), ticket) ==
            if ticket < s.accepted && ticket !in TicketsOf(ActiveOf(s)) then 1 else 0
  {
    ActiveApart(s);
    QueueDistinct(s);
    CountDisposed(s.settled, s.queue, ticket);
    if ticket in TicketsOf(s.queue) {
      var y :| y in s.queue && y.ticket == ticket;
      assert y in Pending(s);
    }
  }

  lemma EmptyingQueue(s: State)
    requires Inv(s)
    ensures Inv(s.(disposed := true, queue := [], requestIds := s.requestIds - IdsOf(s.queue),
                   settled := s.settled + DisposedSettlements(s.queue), aborted := s.aborted + TicketsOf(s.queue)))
  {
    var t := s.(disposed := true, queue := [], requestIds := s.requestIds - IdsOf(s.queue),
                settled := s.settled + DisposedSettlements(s.queue), aborted := s.aborted + TicketsOf(s.queue));
    ActiveApart(s);
    assert Pending(t) == ActiveOf(s);
    forall ticket: nat
      ensures Count(t.settled, ticket) == if ticket < t.accepted && ticket !in TicketsOf(Pending(t)) then 1 else 0
    {
      EmptyingCounts(s, ticket);
    }
    DisposedAborts(s, t);
  }

  lemma DisposedAborts(s: State, t: State)
    requires Inv(s)
    requires t == s.(disposed := true, queue := [], requestIds := s.requestIds - IdsOf(s.queue),
                     settled := s.settled + DisposedSettlements(s.queue), aborted := s.aborted + TicketsOf(s.queue))
    requires TicketsOf(Pending(s)) == TicketsOf(Pending(t)) + TicketsOf(s.queue)
    requires forall x :: x in Pending(t) ==> x in Pending(s) && x.ticket !in TicketsOf(s.queue)
    ensures Aborts(t)
  {
    forall y | y in s.queue
      ensures y.ticket < s.accepted && y.ticket !in TicketsOf(Pending(t))
    {
      assert y in Pending(s);
      assert y.ticket in TicketsOf(s.queue);
    }
    forall x | x in t.settled
      ensures x in s.settled || (x.outcome == DisposedError && x.ticket in TicketsOf(s.queue))
    {
      if x in DisposedSettlements(s.queue) {
        var k :| 0 <= k < |s.queue| && x == Settlement(s.queue[k].ticket, DisposedError);
        assert s.queue[k] in s.queue;
      }
    }
  }

  lemma DisposedOk(s: State)
    requires Inv(s)
    ensures Inv(Disposed(s))
  {
    if !s.disposed {
      EmptyingQueue(s);
      var t := s.(disposed := true, queue := [], requestIds := s.requestIds - IdsOf(s.queue),
                  settled := s.settled + DisposedSettlements(s.queue), aborted := s.aborted + TicketsOf(s.queue));
      if s.active.Some? {
        AbortingActive(t, true);
      }
    }
  }

  lemma EventOk(s: State, e: Event)
    requires Inv(s)
    ensures Inv(Apply(s, e))
  {
    match e {
      case Schedule(id, kind, admissible, signalled) => ScheduledOk(s, id, kind, admissible, signalled);
      case Cancel(id) => CancelledOk(s, id);
      case Dispose => DisposedOk(s);
      case Finish(returned) => FinishedOk(s, returned);
    }
  }

  /** Over every interleaving: the queue keeps its bound and is generations then embeddings, each in
      acceptance order; the tracked ids are exactly those pending; an idle scheduler has no queue; and
      every accepted request is pending or has settled, exactly once. */
  lemma {:induction false} SchedulerStaysSound(maximumQueued: nat, events: seq<Event>)
    ensures Inv(Run(maximumQueued, events))
  {
    if events != [] {
      SchedulerStaysSound(maximumQueued, events[..|events| - 1]);
      EventOk(Run(maximumQueued, events[..|events| - 1]), events[|events| - 1]);
    }
  }

  /** No accepted request settles twice, and none that was aborted while pending settles with a value. */
  lemma SettlesOnceAndNeverAfterAbort(maximumQueued: nat, events: seq<Event>, ticket: nat)
    ensures var s := Run(maximumQueued, events);
            && Count(s.settled, ticket) <= 1
            && (ticket < s.accepted ==> (Count(s.settled, ticket) == 1 <==> ticket !in TicketsOf(Pending(s))))
            && (ticket in s.aborted ==> Settlement(ticket, Value) !in s.settled)
  {
    SchedulerStaysSound(maximumQueued, events);
  }

  // What each event settles.

  lemma RunSnoc(maximumQueued: nat, events: seq<Event>, e: Event)
    ensures Run(maximumQueued, events + [e]) == Apply(Run(maximumQueued, events), e)
  {
    assert (events + [e])[..|events|] == events;
  }

  /** In every run: the end of the active task settles its request, with the value it returned exactly
      when it returned one and was not aborted, with the task's error exactly when it threw and was not
      aborted, and when aborted with the disposal's error if the scheduler is disposed and the
      cancellation's otherwise. Nothing else settles then, and nothing at all without an active task. */
  lemma FinishSettles(maximumQueued: nat, events: seq<Event>, returned: bool)
    ensures var s := Run(maximumQueued, events);
            var t := Run(maximumQueued, events + [Finish(returned)]);
            if s.active.None? then t == s
            else
              && |t.settled| == |s.settled| + 1 && t.settled[..|s.settled|] == s.settled
              && var last := t.settled[|s.settled|];
                 var aborted := last.ticket in s.aborted;
                 && last.ticket == s.active.value.ticket && last.ticket in TicketsOf(s.started)
                 && (last.outcome == Value <==> returned && !aborted)
                 && (last.outcome == TaskError <==> !returned && !aborted)
                 && (last.outcome == DisposedError <==> aborted && s.disposed)
                 && (last.outcome == CancelledError <==> aborted && !s.disposed)
  {
    SchedulerStaysSound(maximumQueued, events);
    SchedulerStaysSerial(maximumQueued, events);
    RunSnoc(maximumQueued, events, Finish(returned));
    var s := Run(maximumQueued, events);
    if s.active.Some? {
      assert Pending(s)[0] == s.active.value && s.active.value in Pending(s);
      assert s.started[|s.started| - 1] in s.started;
    }
  }

  /** In every run: scheduling settles nothing, cancelling settles at most the queued request of that id,
      as cancelled, and the first disposal settles every queued request, as disposed. */
  lemma OthersSettle(maximumQueued: nat, events: seq<Event>, e: Event, ticket: nat, outcome: Outcome)
    requires !e.Finish?
    ensures var s := Run(maximumQueued, events);
            var t := Run(maximumQueued, events + [e]);
            && s.settled <= t.settled
            && (Settlement(ticket, outcome) in t.settled[|s.settled|..] <==>
                exists i :: 0 <= i < |s.queue| && s.queue[i].ticket == ticket
                  && ((e.Cancel? && s.queue[i].id == e.id && outcome == CancelledError)
                      || (e.Dispose? && !s.disposed && outcome == DisposedError)))
  {
    var s := Run(maximumQueued, events);
    SchedulerStaysSound(maximumQueued, events);
    RunSnoc(maximumQueued, events, e);
    match e {
      case Cancel(id) =>
        QueueDistinct(s);
        if s.active.Some? {
          ActiveIdIsNotQueued(s);
        }
        CancelSettles(s, id, ticket, outcome);
      case Dispose => DisposeSettles(s, ticket, outcome);
      case _ =>
    }
  }

  /** The id of the active task is no queued request's. */
  lemma ActiveIdIsNotQueued(s: State)
    requires Inv(s) && s.active.Some?
    ensures forall i :: 0 <= i < |s.queue| ==> s.queue[i].id != s.active.value.id
  {
    forall i | 0 <= i < |s.queue|
      ensures s.queue[i].id != s.active.value.id
    {
      assert Pending(s)[0] == s.active.value && Pending(s)[i + 1] == s.queue[i];
    }
  }

  lemma CancelSettles(s: State, id: string, ticket: nat, outcome: Outcome)
    requires Distinct(s.queue) && (s.active.Some? ==> forall i :: 0 <= i < |s.queue| ==> s.queue[i].id != s.active.value.id)
    ensures var t := CancelledState(s, id);
            && s.settled <= t.settled
            && (Settlement(ticket, outcome) in t.settled[|s.settled|..] <==>
                exists i :: 0 <= i < |s.queue| && s.queue[i].ticket == ticket && s.queue[i].id == id && outcome == CancelledError)
  {
    var k := Position(s.queue, id);
    if !(s.active.Some? && s.active.value.id == id) && k < |s.queue| {
      assert CancelledState(s, id).settled[|s.settled|..] == [Settlement(s.queue[k].ticket, CancelledError)];
    }
  }

  lemma DisposeSettles(s: State, ticket: nat, outcome: Outcome)
    ensures var t := Disposed(s);
            && s.settled <= t.settled
            && (Settlement(ticket, outcome) in t.settled[|s.settled|..] <==>
                exists i :: 0 <= i < |s.queue| && s.queue[i].ticket == ticket && !s.disposed && outcome == DisposedError)
  {
    if !s.disposed {
      assert Disposed(s).settled[|s.settled|..] == DisposedSettlements(s.queue);
      if i :| 0 <= i < |s.queue| && s.queue[i].ticket == ticket && outcome == DisposedError {
        assert DisposedSettlements(s.queue)[i] == Settlement(ticket, outcome);
      }
    }
  }

  // One task at a time.

  /** No task starts twice, and only the last one started may still be pending, as the active one. */
  ghost predicate Serial(s: State) {
    && (forall i, j :: 0 <= i < j < |s.started| ==> s.started[i].ticket != s.started[j].ticket)
    && (s.active.Some? ==> s.started != [] && s.started[|s.started| - 1].ticket == s.active.value.ticket)
    && (forall i :: 0 <= i < |s.started| && s.started[i].ticket in TicketsOf(Pending(s)) ==>
          s.active.Some? && i == |s.started| - 1)
  }

  /** Nothing starts, and no new ticket becomes pending. */
  lemma SerialStays(s: State, t: State)
    requires Serial(s) && t.started == s.started && TicketsOf(Pending(t)) <= TicketsOf(Pending(s))
    requires t.active.Some? <==> s.active.Some?
    requires t.active.Some? ==> t.active.value.ticket == s.active.value.ticket
    ensures Serial(t)
  {
  }

  lemma DrainedSerial(s: State)
    requires Serial(s)
    ensures Serial(Drained(s))
  {
    var t := Drained(s);
    if s.active.None? && !s.disposed && s.queue != [] {
      assert Pending(t) == Pending(s);
      assert s.queue[0] in Pending(s) && s.queue[0].ticket in TicketsOf(Pending(s));
    }
  }

  lemma PushedSerial(s: State, e: Entry)
    requires Inv(s) && Serial(s) && e.ticket == s.accepted
    ensures Serial(Pushed(s, e))
  {
    PushedMembers(s, e);
    forall i | 0 <= i < |s.started|
      ensures s.started[i].ticket != e.ticket
    {
      assert s.started[i] in s.started;
    }
  }

  /** The active task has settled and nothing else has started yet. */
  lemma FinishedSerial(s: State, t: State)
    requires Serial(s) && s.active.Some? && s.active.value.ticket !in TicketsOf(s.queue)
    requires t.started == s.started && t.queue == s.queue && t.active.None?
    ensures Serial(t)
  {
    assert Pending(t) == s.queue;
    forall x | x in s.queue
      ensures x.ticket in TicketsOf(Pending(s))
    {
      assert x in Pending(s);
    }
  }

  lemma ActiveNotQueued(s: State)
    requires Inv(s) && s.active.Some?
    ensures s.active.value.ticket !in TicketsOf(s.queue)
  {
    ActiveApart(s);
    assert s.active.value in ActiveOf(s);
  }

  lemma CancelledSerial(s: State, id: string)
    requires Inv(s) && Serial(s)
    ensures Serial(CancelledState(s, id))
  {
    var t := CancelledState(s, id);
    if s.active.Some? && s.active.value.id == id {
      SameIdentities(s, t);
    } else {
      var n := Position(s.queue, id);
      if n < |s.queue| {
        RemovedPending(s, n);
      }
    }
    SerialStays(s, t);
  }

  lemma DisposedSerial(s: State)
    requires Inv(s) && Serial(s)
    ensures Serial(Disposed(s))
  {
    var t := Disposed(s);
    if !s.disposed {
      forall ticket | ticket in TicketsOf(Pending(t))
        ensures ticket in TicketsOf(Pending(s))
      {
        assert Pending(s)[0] == s.active.value && s.active.value in Pending(s);
      }
      SerialStays(s, t);
    }
  }

  lemma SerialStep(s: State, e: Event)
    requires Inv(s) && Serial(s)
    ensures Serial(Apply(s, e))
  {
    match e {
      case Schedule(id, kind, admissible, signalled) =>
        if Accepts(s, id, admissible, signalled) {
          var entry := Entry(s.accepted, id, kind, false);
          PushedSerial(s, entry);
          DrainedSerial(Pushed(s, entry));
        }
      case Cancel(id) => CancelledSerial(s, id);
      case Dispose => DisposedSerial(s);
      case Finish(returned) =>
        if s.active.Some? {
          var entry := s.active.value;
          var t := s.(active := None, requestIds := s.requestIds - {entry.id},
                      settled := s.settled + [Settlement(entry.ticket, Verdict(entry, s.disposed, returned))]);
          ActiveNotQueued(s);
          FinishedSerial(s, t);
          DrainedSerial(t);
        }
    }
  }

  lemma {:induction false} SchedulerStaysSerial(maximumQueued: nat, events: seq<Event>)
    ensures Serial(Run(maximumQueued, events))
  {
    if events != [] {
      SchedulerStaysSound(maximumQueued, events[..|events| - 1]);
      SchedulerStaysSerial(maximumQueued, events[..|events| - 1]);
      SerialStep(Run(maximumQueued, events[..|events| - 1]), events[|events| - 1]);
    }
  }

  /** The entry started as the i-th is the active one, or is not the last and has settled. */
  ghost predicate InTurn(s: State, i: nat)
    requires i < |s.started|
  {
    var active := s.active.Some? && s.active.value.ticket == s.started[i].ticket;
    && (active <==> s.active.Some? && i == |s.started| - 1)
    && Count(s.settled, s.started[i].ticket) == (if active then 0 else 1)
    && forall j :: i < j < |s.started| ==> s.started[j].ticket != s.started[i].ticket
  }

  lemma ActiveIsPending(s: State)
    requires s.active.Some?
    ensures s.active.value.ticket in TicketsOf(Pending(s))
  {
    assert Pending(s)[0] == s.active.value && s.active.value in Pending(s);
  }

  lemma SerialIsInTurn(s: State, i: nat)
    requires SettledOnce(s) && Starts(s) && Serial(s) && i < |s.started|
    ensures InTurn(s, i)
  {
    assert s.started[i] in s.started;
    if s.active.Some? {
      ActiveIsPending(s);
    }
  }

  /** Tasks run one after the other: each accepted request starts at most once, and whatever has
      started has settled, except the last one while it is the active task. */
  lemma OneTaskAtATime(maximumQueued: nat, events: seq<Event>, i: nat)
    requires i < |Run(maximumQueued, events).started|
    ensures InTurn(Run(maximumQueued, events), i)
  {
    SchedulerStaysSound(maximumQueued, events);
    SchedulerStaysSerial(maximumQueued, events);
    SerialIsInTurn(Run(maximumQueued, events), i);
  }

  /** No request accepted later starts before a generation that was already waiting. */
  lemma NoOvertaking(maximumQueued: nat, events: seq<Event>, i: nat, j: nat)
    requires i < j < |Run(maximumQueued, events).started|
    requires Run(maximumQueued, events).started[j].kind == Generation
    ensures Run(maximumQueued, events).started[i].ticket < Run(maximumQueued, events).started[j].ticket
  {
    SchedulerStaysSound(maximumQueued, events);
  }
}
