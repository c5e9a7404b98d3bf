/** The loops of packages/memory/src/migrations.ts, against the functions the protocol uses. */
module MigrationLoops {
  import opened Prelude
  import opened Records
  import opened Storage
  import opened Migration

  /** Checks the schema of each record and decrypts it, up to the first that fails. */
  method DecryptRecords(key: Key, records: seq<Encrypted>, version: nat) returns (plaintext: Option<seq<Record>>)
    ensures plaintext == if AtVersion(records, version) then DecryptAll(key, records) else None
  {
    var decrypted: seq<Record> := [];
    for i := 0 to |records|
      invariant AtVersion(records[..i], version)
      invariant DecryptAll(key, records[..i]) == Some(decrypted)
    {
      if records[i].version != version {
        return None;
      }
      ghost var extended := records[..i + 1];
      assert extended[..i] == records[..i];
      var r := Decrypt(key, records[i]);
      if r.None? {
        NothingAfterFailure(key, records, i + 1);
        return None;
      }
      decrypted := decrypted + [r.value];
    }
    assert records[..|records|] == records;
    return Some(decrypted);
  }

  lemma {:induction false} NothingAfterFailure(key: Key, records: seq<Encrypted>, k: nat)
    requires k <= |records| && DecryptAll(key, records[..k]).None?
    ensures DecryptAll(key, records).None?
    decreases |records|
  {
    if k == |records| {
      assert records[..k] == records;
    } else {
      var last := |records| - 1;
      assert records[..last][..k] == records[..k];
      NothingAfterFailure(key, records[..last], k);
    }
  }

  /** The map over migratePrivateRecord. */
  method MigrateRecords(records: seq<Record>) returns (migrated: Option<seq<Record>>)
    ensures migrated == MigrateAll(records)
  {
    var done: seq<Record> := [];
    for i := 0 to |records|
      invariant MigrateAll(records[..i]) == Some(done)
    {
      ghost var extended := records[..i + 1];
      assert extended[..i] == records[..i];
      if records[i].version != LEGACY_SCHEMA {
        NothingAfterStranger(records, i + 1);
        return None;
      }
      done := done + [records[i].(version := CURRENT_SCHEMA)];
    }
    assert records[..|records|] == records;
    return Some(done);
  }

  lemma {:induction false} NothingAfterStranger(records: seq<Record>, k: nat)
    requires k <= |records| && MigrateAll(records[..k]).None?
    ensures MigrateAll(records).None?
    decreases |records|
  {
    if k == |records| {
      assert records[..k] == records;
    } else {
      var last := |records| - 1;
      assert records[..last][..k] == records[..k];
      NothingAfterStranger(records[..last], k);
    }
  }

  method EncryptRecords(key: Key, records: seq<Record>, seeds: seq<Seed>) returns (encrypted: seq<Encrypted>)
    ensures encrypted == EncryptAll(key, records, seeds)
  {
    encrypted := [];
    for i := 0 to |records|
      invariant |encrypted| == i
      invariant forall k :: 0 <= k < i ==> encrypted[k] == Encrypt(key, records[k], SeedAt(seeds, k))
    {
      encrypted := encrypted + [Encrypt(key, records[i], SeedAt(seeds, i))];
    }
  }

  method DecryptCurrent(key: Key, records: seq<Encrypted>) returns (plaintext: Option<seq<Record>>)
    ensures plaintext == DecryptAndValidateCurrent(key, records)
  {
    plaintext := DecryptRecords(key, records, CURRENT_SCHEMA);
    if plaintext.Some? {
      var ok := VerifyPrivateRecordGraph(plaintext.value);
      if !ok {
        return None;
      }
    }
  }

  /** Decrypts, migrates and checks a whole legacy vault, without writing anything. */
  method MigratePlaintext(key: Key, records: seq<Encrypted>) returns (migrated: Option<seq<Record>>)
    ensures migrated == MigratedPlaintext(key, records)
  {
    var plaintext := DecryptRecords(key, records, LEGACY_SCHEMA);
    if plaintext.None? {
      return None;
    }
    migrated := MigrateRecords(plaintext.value);
    if migrated.Some? {
      var ok := VerifyPrivateRecordGraph(migrated.value);
      if !ok {
        return None;
      }
    }
  }

  method Prepare(key: Key, header: Header, records: seq<Encrypted>, now: int, migrationId: nat, seeds: seq<Seed>)
    returns (prepared: Option<Commit>)
    ensures prepared == PrepareVaultMigration(key, header, records, now, migrationId, seeds)
  {
    var migrated := MigratePlaintext(key, records);
    if migrated.None? {
      return None;
    }
    var encrypted := EncryptRecords(key, migrated.value, seeds);
    var verified := DecryptCurrent(key, encrypted);
    if verified.None? || |verified.value| != |migrated.value| {
      return None;
    }
    for i := 0 to |migrated.value|
      invariant forall k :: 0 <= k < i ==> verified.value[k] == migrated.value[k]
    {
      if verified.value[i] != migrated.value[i] {
        return None;
      }
    }
    assert verified.value == migrated.value;
    var state := MigrationState(migrationId, LEGACY_SCHEMA, CURRENT_SCHEMA, now, now, |records|, |encrypted|,
                                EncryptedRecordsDigest(records), EncryptedRecordsDigest(encrypted));
    return Some(Commit(state, header, records, header.(schemaVersion := CURRENT_SCHEMA, updatedAt := now), encrypted));
  }

  method VerifyCommitted(key: Key, state: MigrationState, header: Header, records: seq<Encrypted>)
    returns (verified: Option<seq<Record>>)
    ensures verified == VerifyCommittedMigration(key, state, header, records)
  {
    if state.fromVersion != LEGACY_SCHEMA || state.toVersion != CURRENT_SCHEMA {
      return None;
    }
    if header.schemaVersion != state.toVersion || |records| != state.targetRecordCount {
      return None;
    }
    if EncryptedRecordsDigest(records) != state.targetDigest {
      return None;
    }
    verified := DecryptCurrent(key, records);
  }

  method VerifyBackup(key: Key, state: MigrationState, current: Header, backup: Backup) returns (ok: bool)
    ensures ok == VerifyMigrationBackup(key, state, current, backup)
  {
    if !ValidState(state) || backup.sourceHeader.schemaVersion != LEGACY_SCHEMA {
      return false;
    }
    if backup.sourceHeader.vaultId != current.vaultId || backup.sourceHeader.createdAt != current.createdAt
       || backup.sourceHeader.kdf != current.kdf || backup.sourceHeader.wrapping != current.wrapping {
      return false;
    }
    if |backup.sourceRecords| != state.sourceRecordCount
       || EncryptedRecordsDigest(backup.sourceRecords) != state.sourceDigest {
      return false;
    }
    var migrated := MigratePlaintext(key, backup.sourceRecords);
    return migrated.Some?;
  }
}
