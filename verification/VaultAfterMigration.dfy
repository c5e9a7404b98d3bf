/** The two runs of the vault joined: what a migrating unlock loads and leaves in the store is a state
    of the vault's own run (packages/memory/src/vault.ts). */
module VaultAfterMigration {
  import opened Prelude
  import opened Records
  import opened Storage
  import opened VaultGraph
  import opened VaultStore
  import opened Vault
  import opened VaultSafety
  import Migration

  /** The plaintext of the original vault, staging records included. */
  ghost function OriginalGraph(s0: Store): Graph
    requires s0.header.Some? && Migration.Original(s0).Some?
  {
    GraphOf(Migration.Original(s0).value)
  }

  /** Filling the map from a list of records gives their graph. */
  lemma {:induction false} FillingIsGraph(records: seq<Record>)
    ensures Extend(map[], Pairs(records)) == GraphOf(records)
    decreases |records|
  {
    if records != [] {
      var last := |records| - 1;
      FillingIsGraph(records[..last]);
      assert Pairs(records)[..last] == Pairs(records[..last]);
    }
  }

  lemma {:induction false} GraphComesFrom(records: seq<Record>, id: Id) returns (r: Record)
    requires id in GraphOf(records)
    ensures r in records && r.id == id && r.body == GraphOf(records)[id]
    decreases |records|
  {
    var last := |records| - 1;
    if records[last].id == id {
      r := records[last];
    } else {
      r := GraphComesFrom(records[..last], id);
    }
  }

  /** The same records, in whatever order, are the same graph when their ids are distinct. */
  lemma SameContentsSameGraph(left: seq<Record>, right: seq<Record>)
    requires DistinctIds(right) && Migration.SameContents(left, right)
    ensures GraphOf(left) == GraphOf(right)
  {
    forall id: Id
      ensures id in GraphOf(left) <==> id in GraphOf(right)
      ensures id in GraphOf(left) ==> GraphOf(left)[id] == GraphOf(right)[id]
    {
      SameKey(left, right, id);
      SameKey(right, left, id);
      if id in GraphOf(left) {
        var l := GraphComesFrom(left, id);
        var r := GraphComesFrom(right, id);
        OncePerId(right, l, r);
      }
    }
    SameKeysAndValues(GraphOf(left), GraphOf(right));
  }

  lemma SameKey(left: seq<Record>, right: seq<Record>, id: Id)
    requires forall r :: r in left ==> r in right
    ensures id in GraphOf(left) ==> id in GraphOf(right)
  {
    if id in GraphOf(left) {
      var r := GraphComesFrom(left, id);
      var j :| 0 <= j < |right| && right[j] == r;
      GraphOfIds(right, id);
    }
  }

  lemma OncePerId(records: seq<Record>, l: Record, r: Record)
    requires DistinctIds(records) && l in records && r in records && l.id == r.id
    ensures l == r
  {
  }

  // The store a migration leaves.

  /** A vault object that has just read the header of the finalized store, with its unlock waiting
      for the records. */
  function Unlocking(m: Commit, epoch: nat): World {
    var wrapping := m.targetHeader.wrapping;
    World(Some(wrapping), m.targetRecords, Memory(None, map[], epoch),
          [Job(Unlock(wrapping.passphrase), epoch, Loading, false)])
  }

  lemma MigratedIsReadable(s0: Store, m: Commit)
    requires Migration.LegacyVault(s0) && Migration.Faithful(s0, m)
    ensures Readable(Migration.VaultKey(s0), m.targetRecords)
    ensures View(Migration.VaultKey(s0), m.targetRecords) == OriginalGraph(s0)
  {
    var key := Migration.VaultKey(s0);
    forall i | 0 <= i < |m.targetRecords|
      ensures Decrypt(key, m.targetRecords[i]).Some?
    {
      Migration.DecryptAllAt(key, m.targetRecords, i);
    }
    LoadingIsViewing(key, m.targetRecords);
    FillingIsGraph(Migration.Original(s0).value);
  }

  /** The store a finished migration leaves is one the vault's run is sound from. */
  lemma UnlockingIsSound(s0: Store, m: Commit, epoch: nat)
    requires Migration.LegacyVault(s0) && Migration.Faithful(s0, m) && Sound(OriginalGraph(s0))
    ensures Inv(Unlocking(m, epoch))
  {
    MigratedIsReadable(s0, m);
  }

  lemma LoadedIsOriginal(s0: Store, m: Commit, loaded: seq<Record>)
    requires Migration.LegacyVault(s0) && Migration.Faithful(s0, m) && Migration.Loads(s0, loaded)
    ensures Extend(map[], Pairs(loaded)) == OriginalGraph(s0)
    ensures var own := Migration.DecryptAll(Migration.VaultKey(s0), m.targetRecords);
            own.Some? && Extend(map[], Pairs(own.value)) == OriginalGraph(s0)
  {
    var original := Migration.Original(s0).value;
    SameContentsSameGraph(loaded, original);
    FillingIsGraph(loaded);
    FillingIsGraph(original);
  }

  /** The migrating unlock goes on as the vault's own unlock does: whatever records a migration run
      ends in loading, from whichever vault object and with whatever crashes before, installing them
      gives the memory that the loading step of the vault's run gives on the finalized store; and from
      there on, through the recovery of staged ingests and the purge of that very unlock and everything
      after it, the vault stays sound. */
  lemma MigratingUnlockGoesOn(s0: Store, history: seq<Migration.Event>, k: nat, m: Commit, epoch: nat, events: seq<Event>)
    requires Migration.LegacyVault(s0) && Migration.Faithful(s0, m)
    requires var w := Migration.Run(Migration.World(s0, []), history);
             k < |w.processes| && w.processes[k].pc.Loaded? && w.store == Migration.FinalizedStore(m)
    requires Sound(OriginalGraph(s0)) && ProperRun(Unlocking(m, epoch), events)
    ensures var loaded := Migration.Run(Migration.World(s0, []), history).processes[k].pc.records;
            var w := Unlocking(m, epoch);
            var own := Migration.DecryptAll(KeyOf(w), w.disk);
            own.Some? && Unlocked(w.memory, KeyOf(w), loaded) == Unlocked(w.memory, KeyOf(w), own.value)
    ensures Inv(Run(Unlocking(m, epoch), events))
  {
    Migration.MigrationIsCrashSafe(s0, history);
    var loaded := Migration.Run(Migration.World(s0, []), history).processes[k].pc.records;
    assert Migration.ProcessOk(s0, Migration.Run(Migration.World(s0, []), history).processes[k].pc);
    LoadedIsOriginal(s0, m, loaded);
    UnlockingIsSound(s0, m, epoch);
    SoundWorldStaysSound(Unlocking(m, epoch), events);
  }
}
