/** How an unlock of a migrating vault ends when it does not open it: the rollback after a failed
    verification, the wrong passphrase, and the lock (packages/memory/src/vault.ts, #loadOrMigrateRecords). */
module MigrationEnds {
  import opened Prelude
  import opened Records
  import opened Storage
  import opened Migration

  // Rollback.

  /** The committed store, whatever has become of its records. */
  function Tampered(m: Commit, records: seq<Encrypted>): Store {
    Store(Some(m.targetHeader), records, Some(m.state), Some(m.sourceHeader), m.sourceRecords)
  }

  lemma BackupIsAccepted(s0: Store, m: Commit)
    requires LegacyVault(s0) && Faithful(s0, m)
    ensures VerifyMigrationBackup(VaultKey(s0), m.state, m.targetHeader, Backup(m.sourceHeader, m.sourceRecords))
  {
  }

  lemma RollbackRestores(s0: Store, m: Commit, records: seq<Encrypted>)
    requires LegacyVault(s0) && Faithful(s0, m)
    ensures RollbackMigration(Tampered(m, records), m.state.id, Backup(m.sourceHeader, m.sourceRecords)) == Some(s0)
  {
    PutAllDistinct(s0.records);
  }

  /** From where the backup is read, an undisturbed unlock restores the vault. */
  lemma BackupAlone(s0: Store, m: Commit, records: seq<Encrypted>, c: Choice, steps: nat)
    requires LegacyVault(s0) && Faithful(s0, m) && c.fault == NoFault && steps >= 3
    ensures RunAlone(AwaitBackup(VaultKey(s0), m.state, m.targetHeader), Tampered(m, records), c, steps) == (Failed, s0)
  {
    var key, t, backup := VaultKey(s0), Tampered(m, records), Backup(m.sourceHeader, m.sourceRecords);
    BackupIsAccepted(s0, m);
    RollbackRestores(s0, m, records);
    AloneStep(AwaitBackup(key, m.state, m.targetHeader), t, c, steps, AwaitRollback(m.state.id, backup), t);
    AloneStep(AwaitRollback(m.state.id, backup), t, c, steps - 1, AwaitRestoredHeader, s0);
    AloneStep(AwaitRestoredHeader, s0, c, steps - 2, Failed, s0);
    AtRest(Failed, s0, c, steps - 3);
  }

  lemma CurrentHeaderAlone(s0: Store, m: Commit, records: seq<Encrypted>, c: Choice, steps: nat)
    requires LegacyVault(s0) && Faithful(s0, m) && c.fault == NoFault && steps >= 4
    ensures RunAlone(AwaitCurrentHeader(VaultKey(s0), m.state), Tampered(m, records), c, steps) == (Failed, s0)
  {
    var key, t := VaultKey(s0), Tampered(m, records);
    AloneStep(AwaitCurrentHeader(key, m.state), t, c, steps, AwaitBackup(key, m.state, m.targetHeader), t);
    BackupAlone(s0, m, records, c, steps - 1);
  }

  /** The unlock waits for what it verifies of this commit. */
  predicate Verifying(s0: Store, m: Commit, pc: Pc)
    requires s0.header.Some?
  {
    var key := s0.header.value.wrapping.dataKey;
    || pc == AwaitPendingRecords(m.targetHeader, key, m.state)
    || pc == AwaitCommittedHeader(key, m)
    || pc == AwaitCommittedRecords(key, m, m.targetHeader)
  }

  /** A read that fails while a committed migration is verified, and nothing else: the rollback goes through
      and leaves the very vault from before the migration. */
  lemma FailedVerificationRestores(s0: Store, m: Commit, pc: Pc, f: Choice, c: Choice, steps: nat)
    requires LegacyVault(s0) && Faithful(s0, m) && Verifying(s0, m, pc)
    requires f.fault != NoFault && c.fault == NoFault && steps >= 4
    ensures var (next, s) := Next(Process(pc, false), CommittedStore(m), f);
            RunAlone(next, s, c, steps) == (Failed, s0)
  {
    assert CommittedStore(m) == Tampered(m, m.targetRecords);
    if pc.AwaitPendingRecords? {
      BackupAlone(s0, m, m.targetRecords, c, steps);
    } else {
      CurrentHeaderAlone(s0, m, m.targetRecords, c, steps);
    }
  }

  lemma OtherRecordsFail(s0: Store, m: Commit, records: seq<Encrypted>)
    requires LegacyVault(s0) && Faithful(s0, m) && multiset(records) != multiset(m.targetRecords)
    ensures VerifyCommittedMigration(VaultKey(s0), m.state, m.targetHeader, records).None?
  {
    if EncryptedRecordsDigest(records) == m.state.targetDigest {
      DigestBinds(records, m.targetRecords);
    }
  }

  /** A committed store with other records than those committed: the next unlock, undisturbed, does not
      open it but restores the very vault from before the migration. */
  lemma TamperedTargetIsRestored(s0: Store, m: Commit, records: seq<Encrypted>, c: Choice, steps: nat)
    requires LegacyVault(s0) && Faithful(s0, m) && multiset(records) != multiset(m.targetRecords)
    requires c.fault == NoFault && steps >= 6
    ensures RunAlone(AwaitHeader(s0.header.value.wrapping.passphrase), Tampered(m, records), c, steps) == (Failed, s0)
  {
    var key, t := VaultKey(s0), Tampered(m, records);
    OtherRecordsFail(s0, m, records);
    OpenAlone(t, s0.header.value.wrapping.passphrase, c, steps);
    AloneStep(AwaitState(m.targetHeader, key), t, c, steps - 1, AwaitPendingRecords(m.targetHeader, key, m.state), t);
    AloneStep(AwaitPendingRecords(m.targetHeader, key, m.state), t, c, steps - 2, AwaitBackup(key, m.state, m.targetHeader), t);
    BackupAlone(s0, m, records, c, steps - 3);
  }

  // Passphrases and locks.

  lemma RunSnoc(w: World, events: seq<Event>, e: Event)
    ensures Run(w, events + [e]) == Apply(Run(w, events), e)
  {
    assert (events + [e])[..|events|] == events;
  }

  /** Every store of a run has the header's wrapping of the vault it began with. */
  lemma WrappingStays(s0: Store, events: seq<Event>)
    requires LegacyVault(s0)
    ensures var s := Run(World(s0, []), events).store; s.header.Some? && s.header.value.wrapping == s0.header.value.wrapping
  {
    MigrationIsCrashSafe(s0, events);
    HeaderReadIsSafe(s0, Run(World(s0, []), events).store);
  }

  predicate Unopened(w: World, k: nat, passphrase: nat) {
    k < |w.processes| && (w.processes[k].pc == AwaitHeader(passphrase) || w.processes[k].pc == Failed)
  }

  lemma UnopenedStep(w: World, k: nat, passphrase: nat, e: Event)
    requires Unopened(w, k, passphrase) && w.store.header.Some? && w.store.header.value.wrapping.passphrase != passphrase
    ensures Unopened(Apply(w, e), k, passphrase)
    ensures e.Advance? && e.process == k ==> Apply(w, e).store == w.store
  {
  }

  /** Opened with a wrong passphrase a vault object never gets past its header, whatever it and the others
      do, in any run; and its own steps leave the store alone. */
  lemma {:induction false} WrongPassphraseOpensNothing(s0: Store, before: seq<Event>, passphrase: nat, later: seq<Event>, c: Choice)
    requires LegacyVault(s0) && passphrase != s0.header.value.wrapping.passphrase
    ensures var k := |Run(World(s0, []), before).processes|;
            var w := Run(World(s0, []), before + [Open(passphrase)] + later);
            Unopened(w, k, passphrase) && Apply(w, Advance(k, c)).store == w.store
    decreases |later|
  {
    var k := |Run(World(s0, []), before).processes|;
    var all := before + [Open(passphrase)] + later;
    if later == [] {
      assert all == before + [Open(passphrase)];
      RunSnoc(World(s0, []), before, Open(passphrase));
    } else {
      var n := |later| - 1;
      var most := before + [Open(passphrase)] + later[..n];
      WrongPassphraseOpensNothing(s0, before, passphrase, later[..n], c);
      assert all == most + [later[n]];
      RunSnoc(World(s0, []), most, later[n]);
      WrappingStays(s0, most);
      UnopenedStep(Run(World(s0, []), most), k, passphrase, later[n]);
    }
    WrappingStays(s0, all);
    UnopenedStep(Run(World(s0, []), all), k, passphrase, Advance(k, c));
  }

  ghost predicate NeverLoads(w: World, k: nat) {
    k < |w.processes| && w.processes[k].locked && !w.processes[k].pc.Loaded?
  }

  lemma LockedStep(w: World, k: nat, e: Event)
    requires NeverLoads(w, k)
    ensures NeverLoads(Apply(w, e), k)
  {
  }

  /** Once locked, an unlock in flight never hands over any record, in any run. */
  lemma {:induction false} LockedNeverLoads(w: World, k: nat, later: seq<Event>)
    requires k < |w.processes| && !w.processes[k].pc.Loaded?
    ensures NeverLoads(Run(Apply(w, Lock(k)), later), k)
    decreases |later|
  {
    if later != [] {
      var n := |later| - 1;
      LockedNeverLoads(w, k, later[..n]);
      LockedStep(Run(Apply(w, Lock(k)), later[..n]), k, later[n]);
    }
  }
}
