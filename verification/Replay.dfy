/** The disclosure replay table of the online gateway
    (examples/developer-online-gateway/src/gateway.ts): a table pruned of expired nonces, against
    the full history of every disclosure ever accepted. */
module Replay {
  const MAX_DISCLOSURE_LIFETIME_MS: nat := 5 * 60 * 1000
  const MAX_REPLAY_ENTRIES: nat := 2048

  datatype Disclosure = Disclosure(nonce: string, expiresAt: int)

  datatype Verdict = Accepted | Expired | Lifetime | Replayed | Capacity

  datatype Call = Call(body: Disclosure, now: int)

  type Table = map<string, int>

  function Pruned(table: Table, now: int): Table {
    map nonce | nonce in table && table[nonce] > now :: table[nonce]
  }

  function Decide(table: Table, c: Call): Verdict {
    var live := Pruned(table, c.now);
    if c.body.expiresAt <= c.now then Expired
    else if c.body.expiresAt > c.now + MAX_DISCLOSURE_LIFETIME_MS then Lifetime
    else if c.body.nonce in live then Replayed
    else if |live| >= MAX_REPLAY_ENTRIES then Capacity
    else Accepted
  }

  function After(table: Table, c: Call): Table {
    var live := Pruned(table, c.now);
    if Decide(table, c) == Accepted then live[c.body.nonce := c.body.expiresAt] else live
  }

  class ReplayTable {
    var usedNonces: map<string, int>

    constructor ()
      ensures usedNonces == map[]
    {
      usedNonces := map[];
    }

    method ConsumeDisclosure(body: Disclosure, now: int) returns (verdict: Verdict)
      modifies this
      ensures verdict == Decide(old(usedNonces), Call(body, now))
      ensures usedNonces == After(old(usedNonces), Call(body, now))
    {
      var todo := usedNonces.Keys;
      while todo != {}
        invariant todo <= usedNonces.Keys <= old(usedNonces).Keys
        invariant forall nonce :: nonce in usedNonces ==> usedNonces[nonce] == old(usedNonces)[nonce]
        invariant forall nonce :: nonce in old(usedNonces) && nonce !in todo ==>
                    (nonce in usedNonces <==> old(usedNonces)[nonce] > now)
        decreases todo
      {
        var nonce :| nonce in todo;
        if usedNonces[nonce] <= now {
          usedNonces := usedNonces - {nonce};
        }
        todo := todo - {nonce};
      }
      assert usedNonces == Pruned(old(usedNonces), now);
      if body.expiresAt <= now {
        return Expired;
      }
      if body.expiresAt > now + MAX_DISCLOSURE_LIFETIME_MS {
        return Lifetime;
      }
      if body.nonce in usedNonces {
        return Replayed;
      }
      if |usedNonces| >= MAX_REPLAY_ENTRIES {
        return Capacity;
      }
      usedNonces := usedNonces[body.nonce := body.expiresAt];
      return Accepted;
    }
  }

  // Whole runs.

  function Run(calls: seq<Call>): Table {
    if calls == [] then map[] else After(Run(calls[..|calls| - 1]), calls[|calls| - 1])
  }

  function VerdictAt(calls: seq<Call>, i: nat): Verdict
    requires i < |calls|
  {
    Decide(Run(calls[..i]), calls[i])
  }

  /** The reference: nothing is ever forgotten, and a decision looks at all of it. */
  function Unexpired(history: seq<Disclosure>, now: int): set<Disclosure> {
    set d | d in history && d.expiresAt > now
  }

  function DecideFromHistory(history: seq<Disclosure>, c: Call): Verdict {
    var live := Unexpired(history, c.now);
    if c.body.expiresAt <= c.now then Expired
    else if c.body.expiresAt > c.now + MAX_DISCLOSURE_LIFETIME_MS then Lifetime
    else if exists d :: d in live && d.nonce == c.body.nonce then Replayed
    else if |live| >= MAX_REPLAY_ENTRIES then Capacity
    else Accepted
  }

  function History(calls: seq<Call>): seq<Disclosure> {
    if calls == [] then []
    else
      var before := History(calls[..|calls| - 1]);
      var c := calls[|calls| - 1];
      if DecideFromHistory(before, c) == Accepted then before + [c.body] else before
  }

  predicate Monotone(calls: seq<Call>) {
    forall i, j :: 0 <= i < j < |calls| ==> calls[i].now <= calls[j].now
  }

  function Items(table: Table): set<Disclosure> {
    set nonce | nonce in table :: Disclosure(nonce, table[nonce])
  }

  lemma {:induction false} ItemsCount(table: Table)
    ensures |Items(table)| == |table|
    decreases |table|
  {
    if table != map[] {
      var nonce :| nonce in table;
      var rest := table - {nonce};
      ItemsCount(rest);
      ItemsAdd(rest, Disclosure(nonce, table[nonce]));
      assert table == rest[nonce := table[nonce]];
      assert table.Keys == rest.Keys + {nonce};
      assert |table| == |table.Keys| && |rest| == |rest.Keys|;
    }
  }

  /** Pruning again later loses nothing but what has expired by then. */
  lemma LaterPruning(table: Table, c: Call, now: int)
    requires c.now <= now
    ensures Items(Pruned(After(table, c), now)) ==
            Items(Pruned(table, now)) +
            if Decide(table, c) == Accepted && c.body.expiresAt > now then {c.body} else {}
  {
    var live, later := Pruned(table, now), Pruned(After(table, c), now);
    var added := Decide(table, c) == Accepted && c.body.expiresAt > now;
    assert added ==> c.body.nonce !in live;
    assert later == if added then live[c.body.nonce := c.body.expiresAt] else live;
    if added {
      ItemsAdd(live, c.body);
    }
  }

  lemma ItemsAdd(table: Table, d: Disclosure)
    requires d.nonce !in table
    ensures Items(table[d.nonce := d.expiresAt]) == Items(table) + {d}
  {
    var larger := table[d.nonce := d.expiresAt];
    forall e | e in Items(table) + {d}
      ensures e in Items(larger)
    {
      assert e.nonce in larger && larger[e.nonce] == e.expiresAt;
    }
  }

  /** The table after the calls so far, seen at any time from the last call on. */
  lemma {:induction false} TableIsUnexpiredHistory(calls: seq<Call>, now: int)
    requires Monotone(calls)
    requires calls != [] ==> calls[|calls| - 1].now <= now
    ensures Items(Pruned(Run(calls), now)) == Unexpired(History(calls), now)
    decreases |calls|, 0
  {
    if calls != [] {
      var before, c := calls[..|calls| - 1], calls[|calls| - 1];
      TableIsUnexpiredHistory(before, now);
      DecisionsAgree(before, c);
      LaterPruning(Run(before), c, now);
    }
  }

  /** Forgetting expired nonces changes no decision: with a clock that does not go back, the pruned
      table and the full history always give the same verdict. */
  lemma {:induction false} DecisionsAgree(calls: seq<Call>, c: Call)
    requires Monotone(calls)
    requires calls != [] ==> calls[|calls| - 1].now <= c.now
    ensures Decide(Run(calls), c) == DecideFromHistory(History(calls), c)
    decreases |calls|, 1
  {
    TableIsUnexpiredHistory(calls, c.now);
    var live := Pruned(Run(calls), c.now);
    ItemsCount(live);
    assert c.body.nonce in live ==> Disclosure(c.body.nonce, live[c.body.nonce]) in Items(live);
  }

  /** After a run, the table is exactly the accepted disclosures unexpired at the last call. */
  lemma TableHoldsUnexpired(calls: seq<Call>)
    requires Monotone(calls) && calls != []
    ensures Items(Run(calls)) == Unexpired(History(calls), calls[|calls| - 1].now)
  {
    var before, c := calls[..|calls| - 1], calls[|calls| - 1];
    TableIsUnexpiredHistory(calls, c.now);
    assert Pruned(Run(calls), c.now) == Run(calls);
  }

  /** The table never exceeds its bound, whatever the clock does. */
  lemma {:induction false} TableIsBounded(calls: seq<Call>)
    ensures |Run(calls)| <= MAX_REPLAY_ENTRIES
  {
    if calls != [] {
      var before, c := calls[..|calls| - 1], calls[|calls| - 1];
      TableIsBounded(before);
      var table := Run(before);
      var live := Pruned(table, c.now);
      assert live.Keys <= table.Keys;
      FewerKeys(live, table);
      if Decide(table, c) == Accepted {
        assert After(table, c).Keys == live.Keys + {c.body.nonce};
        assert |After(table, c)| == |After(table, c).Keys| && |live| == |live.Keys|;
      }
    }
  }

  lemma FewerKeys(small: Table, large: Table)
    requires small.Keys <= large.Keys
    ensures |small| <= |large|
  {
    var extra := large.Keys - small.Keys;
    assert large.Keys == small.Keys + extra;
    assert |large.Keys| == |small.Keys| + |extra|;
    assert |large| == |large.Keys| && |small| == |small.Keys|;
  }

  /** An accepted disclosure stays in the table as long as no call comes at or after its expiry. */
  lemma {:induction false} AcceptedIsRemembered(calls: seq<Call>, i: nat)
    requires i < |calls| && VerdictAt(calls, i) == Accepted
    requires forall k :: i < k < |calls| ==> calls[k].now < calls[i].body.expiresAt
    ensures calls[i].body.nonce in Run(calls)
    ensures Run(calls)[calls[i].body.nonce] == calls[i].body.expiresAt
    ensures forall now :: now < calls[i].body.expiresAt ==> calls[i].body.nonce in Pruned(Run(calls), now)
    decreases |calls|
  {
    var before, c := calls[..|calls| - 1], calls[|calls| - 1];
    if i == |calls| - 1 {
      assert calls[..i] == before;
    } else {
      assert before[..i] == calls[..i];
      AcceptedIsRemembered(before, i);
    }
  }

  /** For any clock at all: the same nonce is accepted a second time before the first acceptance
      expires only when the clock went back, past that expiry, between the two. */
  lemma SecondAcceptanceNeedsClockBack(calls: seq<Call>, i: nat, j: nat)
    requires i < j < |calls|
    requires VerdictAt(calls, i) == Accepted && VerdictAt(calls, j) == Accepted
    requires calls[i].body.nonce == calls[j].body.nonce && calls[j].now < calls[i].body.expiresAt
    ensures exists k :: i < k < j && calls[i].body.expiresAt <= calls[k].now
  {
    if forall k :: i < k < j ==> calls[k].now < calls[i].body.expiresAt {
      var before := calls[..j];
      assert before[..i] == calls[..i];
      AcceptedIsRemembered(before, i);
      assert false;
    }
  }

  /** The n first calls leave the nonce accepted in the i-th of them in the table: none since came at or
      after its expiry. */
  ghost predicate Remembers(calls: seq<Call>, n: nat, i: nat)
    requires n <= |calls|
  {
    && i < n && VerdictAt(calls, i) == Accepted
    && forall k :: i < k < n ==> calls[k].now < calls[i].body.expiresAt
  }

  lemma {:induction false} EntryIsRemembered(calls: seq<Call>, nonce: string) returns (i: nat)
    requires nonce in Run(calls)
    ensures Remembers(calls, |calls|, i) && calls[i].body == Disclosure(nonce, Run(calls)[nonce])
    decreases |calls|
  {
    var n := |calls| - 1;
    var before, c := calls[..n], calls[n];
    if Decide(Run(before), c) == Accepted && c.body.nonce == nonce {
      i := n;
    } else {
      assert nonce in Pruned(Run(before), c.now) && Run(calls)[nonce] == Run(before)[nonce];
      i := EntryIsRemembered(before, nonce);
      assert before[..i] == calls[..i];
      assert forall k :: i < k < n ==> calls[k].now == before[k].now;
    }
  }

  lemma RememberedIsEntry(calls: seq<Call>, n: nat, i: nat)
    requires n <= |calls| && Remembers(calls, n, i)
    ensures var d := calls[i].body; d.nonce in Run(calls[..n]) && Run(calls[..n])[d.nonce] == d.expiresAt
  {
    var before := calls[..n];
    assert before[..i] == calls[..i];
    AcceptedIsRemembered(before, i);
  }

  predicate InTime(c: Call) {
    c.now < c.body.expiresAt <= c.now + MAX_DISCLOSURE_LIFETIME_MS
  }

  /** The call finds its nonce taken. */
  ghost predicate Finds(calls: seq<Call>, j: nat)
    requires j < |calls|
  {
    exists i: nat :: Remembers(calls, j, i) && calls[i].body.nonce == calls[j].body.nonce
                && calls[j].now < calls[i].body.expiresAt
  }

  lemma FindsItsNonce(calls: seq<Call>, j: nat)
    requires j < |calls|
    ensures Finds(calls, j) <==> calls[j].body.nonce in Pruned(Run(calls[..j]), calls[j].now)
  {
    var before, nonce := calls[..j], calls[j].body.nonce;
    if Finds(calls, j) {
      var i: nat :| Remembers(calls, j, i) && calls[i].body.nonce == nonce && calls[j].now < calls[i].body.expiresAt;
      RememberedIsEntry(calls, j, i);
    }
    if nonce in Pruned(Run(before), calls[j].now) {
      var i := EntryIsRemembered(before, nonce);
      assert before[..i] == calls[..i];
      assert forall k :: i < k < j ==> calls[k].now == before[k].now;
      assert Remembers(calls, j, i);
    }
  }

  /** Every verdict of every run, for any clock: a disclosure within its lifetime is a replay exactly
      when an earlier acceptance of its nonce has not expired, neither now nor at any call in between;
      and if it is none, it is accepted exactly while the table has room. */
  lemma VerdictsExactly(calls: seq<Call>, j: nat)
    requires j < |calls|
    ensures VerdictAt(calls, j) == Replayed <==> InTime(calls[j]) && Finds(calls, j)
    ensures VerdictAt(calls, j) == Accepted <==>
            InTime(calls[j]) && !Finds(calls, j) && |Pruned(Run(calls[..j]), calls[j].now)| < MAX_REPLAY_ENTRIES
  {
    FindsItsNonce(calls, j);
  }

  /** The i-th call is the last before the j-th to have their nonce accepted. */
  ghost predicate LastAcceptance(calls: seq<Call>, i: nat, j: nat) {
    && i < j < |calls| && VerdictAt(calls, i) == Accepted && calls[j].body.nonce == calls[i].body.nonce
    && forall k :: i < k < j && calls[k].body.nonce == calls[i].body.nonce ==> VerdictAt(calls, k) != Accepted
  }

  /** An acceptance still remembered is the last one. */
  lemma RememberedIsLast(calls: seq<Call>, i: nat, j: nat, last: nat)
    requires LastAcceptance(calls, last, j) && Remembers(calls, j, i) && calls[i].body.nonce == calls[j].body.nonce
    ensures i == last
  {
    if i < last {
      assert Remembers(calls, last, i);
      VerdictsExactly(calls, last);
      assert Finds(calls, last);
    }
  }

  /** For any clock at all: before an accepted nonce expires, it is refused as a replay exactly when the
      clock has not been at or past that expiry since, and accepted again exactly when it has, gone back
      since, and the table has room. */
  lemma SecondAcceptanceExactly(calls: seq<Call>, i: nat, j: nat)
    requires LastAcceptance(calls, i, j) && calls[j].now < calls[i].body.expiresAt && InTime(calls[j])
    ensures VerdictAt(calls, j) == Replayed <==> forall k :: i < k < j ==> calls[k].now < calls[i].body.expiresAt
    ensures VerdictAt(calls, j) == Accepted <==>
            && (exists k :: i < k < j && calls[i].body.expiresAt <= calls[k].now)
            && |Pruned(Run(calls[..j]), calls[j].now)| < MAX_REPLAY_ENTRIES
  {
    VerdictsExactly(calls, j);
    if forall k :: i < k < j ==> calls[k].now < calls[i].body.expiresAt {
      assert Remembers(calls, j, i);
    }
    if Finds(calls, j) {
      var first: nat :| Remembers(calls, j, first) && calls[first].body.nonce == calls[j].body.nonce
                   && calls[j].now < calls[first].body.expiresAt;
      RememberedIsLast(calls, first, j, i);
    }
  }

  /** No disclosure, one nonce with one expiry, is accepted twice in a run. */
  lemma NeverAcceptedTwice(calls: seq<Call>, i: nat, j: nat)
    requires Monotone(calls) && i < j < |calls|
    requires VerdictAt(calls, i) == Accepted && VerdictAt(calls, j) == Accepted
    ensures calls[i].body != calls[j].body
    ensures calls[i].body.nonce == calls[j].body.nonce ==> calls[i].body.expiresAt <= calls[j].now
  {
    if calls[i].body.nonce == calls[j].body.nonce && calls[j].now < calls[i].body.expiresAt {
      SecondAcceptanceNeedsClockBack(calls, i, j);
    }
  }

  /** The clock matters: once it runs back past an expiry, the very same disclosure is taken again. */
  lemma ClockBackReplays(nonce: string)
    ensures var d := Disclosure(nonce, 100);
            var calls := [Call(d, 0), Call(d, 100), Call(d, 50)];
            VerdictAt(calls, 0) == Accepted && VerdictAt(calls, 2) == Accepted
  {
    var d := Disclosure(nonce, 100);
    var calls := [Call(d, 0), Call(d, 100), Call(d, 50)];
    assert calls[..0] == [] && calls[..1] == [calls[0]] && calls[..2] == [calls[0], calls[1]];
    assert Pruned(map[], 0) == map[];
    assert Run(calls[..1]) == map[nonce := 100] by {
      assert calls[..1][..0] == [];
    }
    assert Run(calls[..2]) == map[] by {
      assert calls[..2][..1] == calls[..1];
      assert Pruned(map[nonce := 100], 100) == map[];
    }
    assert Pruned(map[], 50) == map[];
  }
}
