/** Unlocking a schema 1 vault: prepare, commit by compare-and-swap, verify, finalize or roll back
    (packages/memory/src/migrations.ts and #loadOrMigrateRecords in vault.ts), for any number of
    vault objects working on one store, each of which may stop or be locked at any await. */
module Migration {
  import opened Prelude
  import opened Records
  import opened Storage

  // migrations.ts

  function DecryptAll(key: Key, records: seq<Encrypted>): Option<seq<Record>> {
    if records == [] then Some([])
    else
      var last := |records| - 1;
      var rest := DecryptAll(key, records[..last]);
      var r := Decrypt(key, records[last]);
      if rest.None? || r.None? then None else Some(rest.value + [r.value])
  }

  function AtVersion(records: seq<Encrypted>, version: nat): bool {
    forall i :: 0 <= i < |records| ==> records[i].version == version
  }

  function Migrate(r: Record): Option<Record> {
    if r.version != LEGACY_SCHEMA then None else Some(r.(version := CURRENT_SCHEMA))
  }

  function MigrateAll(records: seq<Record>): Option<seq<Record>> {
    if records == [] then Some([])
    else
      var last := |records| - 1;
      var rest := MigrateAll(records[..last]);
      var r := Migrate(records[last]);
      if rest.None? || r.None? then None else Some(rest.value + [r.value])
  }

  function SeedAt(seeds: seq<Seed>, i: nat): Seed {
    if i < |seeds| then seeds[i] else Seed(0, 0)
  }

  function EncryptAll(key: Key, records: seq<Record>, seeds: seq<Seed>): seq<Encrypted> {
    seq(|records|, i requires 0 <= i < |records| => Encrypt(key, records[i], SeedAt(seeds, i)))
  }

  ghost function DecryptAndValidateCurrent(key: Key, records: seq<Encrypted>): Option<seq<Record>> {
    if !AtVersion(records, CURRENT_SCHEMA) then None
    else
      var plain := DecryptAll(key, records);
      if plain.Some? && GraphOk(plain.value) then plain else None
  }

  ghost function MigratedPlaintext(key: Key, records: seq<Encrypted>): Option<seq<Record>> {
    if !AtVersion(records, LEGACY_SCHEMA) then None
    else
      var plain := DecryptAll(key, records);
      if plain.None? then None
      else
        var migrated := MigrateAll(plain.value);
        if migrated.Some? && GraphOk(migrated.value) then migrated else None
  }

  ghost function PrepareVaultMigration(key: Key, header: Header, records: seq<Encrypted>,
                                       now: int, migrationId: nat, seeds: seq<Seed>): Option<Commit>
  {
    var migrated := MigratedPlaintext(key, records);
    if migrated.None? then None
    else
      var encrypted := EncryptAll(key, migrated.value, seeds);
      if DecryptAndValidateCurrent(key, encrypted) != migrated then None
      else
        var state := MigrationState(migrationId, LEGACY_SCHEMA, CURRENT_SCHEMA, now, now,
                                    |records|, |encrypted|,
                                    EncryptedRecordsDigest(records), EncryptedRecordsDigest(encrypted));
        Some(Commit(state, header, records,
                    header.(schemaVersion := CURRENT_SCHEMA, updatedAt := now), encrypted))
  }

  predicate ValidState(state: MigrationState) {
    state.fromVersion == LEGACY_SCHEMA && state.toVersion == CURRENT_SCHEMA
  }

  ghost function VerifyCommittedMigration(key: Key, state: MigrationState, header: Header,
                                          records: seq<Encrypted>): Option<seq<Record>>
  {
    if || !ValidState(state) || header.schemaVersion != state.toVersion
       || |records| != state.targetRecordCount
       || EncryptedRecordsDigest(records) != state.targetDigest
    then None
    else DecryptAndValidateCurrent(key, records)
  }

  ghost predicate VerifyMigrationBackup(key: Key, state: MigrationState, current: Header, backup: Backup) {
    && ValidState(state)
    && backup.sourceHeader.schemaVersion == LEGACY_SCHEMA
    && backup.sourceHeader.vaultId == current.vaultId
    && backup.sourceHeader.createdAt == current.createdAt
    && backup.sourceHeader.kdf == current.kdf
    && backup.sourceHeader.wrapping == current.wrapping
    && |backup.sourceRecords| == state.sourceRecordCount
    && EncryptedRecordsDigest(backup.sourceRecords) == state.sourceDigest
    && MigratedPlaintext(key, backup.sourceRecords).Some?
  }

  // #loadOrMigrateRecords as the program counter of one vault object. Each constructor is one
  // pending storage call and the locals still needed after it.

  datatype Pc =
    | AwaitHeader(passphrase: nat)
    | AwaitState(header: Header, key: Key)
    | AwaitPendingRecords(header: Header, key: Key, state: MigrationState)
    | AwaitRecords(header: Header, key: Key)
    | AwaitCommit(key: Key, prepared: Commit)
    | AwaitHeaderAfterFailedCommit
    | AwaitCommittedHeader(key: Key, prepared: Commit)
    | AwaitCommittedRecords(key: Key, prepared: Commit, header: Header)
    | AwaitFinalize(migrationId: nat, header: Header, records: seq<Record>)
    | AwaitCurrentHeader(key: Key, state: MigrationState)
    | AwaitBackup(key: Key, state: MigrationState, header: Header)
    | AwaitRollback(migrationId: nat, backup: Backup)
    | AwaitRestoredHeader
    | Loaded(header: Header, records: seq<Record>)
    | Failed

  /** `locked` is true once lock() has advanced the epoch: every later #assertEpoch throws. */
  datatype Process = Process(pc: Pc, locked: bool)

  /** A storage call may reject without effect, or (for a write) after its effect became durable. */
  datatype Fault = NoFault | FailsBefore | FailsAfter

  datatype Choice = Choice(fault: Fault, now: int, migrationId: nat, seeds: seq<Seed>)

  /** The store after a write, and whether the caller sees success. */
  function Write(s: Store, result: Option<Store>, fault: Fault): (Store, bool) {
    match fault
    case NoFault => if result.Some? then (result.value, true) else (s, false)
    case FailsBefore => (s, false)
    case FailsAfter => if result.Some? then (result.value, false) else (s, false)
  }

  // What a vault object does with the answer to its pending call.

  function OnHeader(passphrase: nat, locked: bool, s: Store, c: Choice): Pc {
    if c.fault != NoFault || locked || s.header.None? then Failed
    else
      var header := s.header.value;
      var key := Unwrap(header, passphrase);
      if (header.schemaVersion != LEGACY_SCHEMA && header.schemaVersion != CURRENT_SCHEMA) || key.None?
      then Failed
      else AwaitState(header, key.value)
  }

  function OnState(header: Header, key: Key, locked: bool, s: Store, c: Choice): Pc {
    if c.fault != NoFault || locked then Failed
    else if s.state.None? then AwaitRecords(header, key)
    else if !ValidState(s.state.value) || header.schemaVersion != CURRENT_SCHEMA then Failed
    else AwaitPendingRecords(header, key, s.state.value)
  }

  ghost function OnPendingRecords(header: Header, key: Key, state: MigrationState, locked: bool, s: Store, c: Choice): Pc {
    var verified := VerifyCommittedMigration(key, state, header, s.records);
    if c.fault != NoFault || locked || verified.None? then AwaitBackup(key, state, header)
    else AwaitFinalize(state.id, header, verified.value)
  }

  ghost function OnRecords(header: Header, key: Key, locked: bool, s: Store, c: Choice): Pc {
    if c.fault != NoFault || locked then Failed
    else if header.schemaVersion == CURRENT_SCHEMA then
      var plain := DecryptAll(key, s.records);
      if !AtVersion(s.records, CURRENT_SCHEMA) || plain.None? then Failed else Loaded(header, plain.value)
    else
      var prepared := PrepareVaultMigration(key, header, s.records, c.now, c.migrationId, c.seeds);
      if prepared.None? then Failed else AwaitCommit(key, prepared.value)
  }

  function OnCommit(key: Key, prepared: Commit, locked: bool, s: Store, c: Choice): (Pc, Store) {
    var (s', ok) := Write(s, CommitMigration(s, prepared), c.fault);
    if !ok then (AwaitHeaderAfterFailedCommit, s')
    else if locked then (Failed, s')
    else (AwaitCommittedHeader(key, prepared), s')
  }

  function OnCommittedHeader(key: Key, prepared: Commit, s: Store, c: Choice): Pc {
    if c.fault != NoFault || s.header.None? || s.header.value.schemaVersion != CURRENT_SCHEMA
    then AwaitCurrentHeader(key, prepared.state)
    else AwaitCommittedRecords(key, prepared, s.header.value)
  }

  ghost function OnCommittedRecords(key: Key, prepared: Commit, header: Header, locked: bool, s: Store, c: Choice): Pc {
    var verified := VerifyCommittedMigration(key, prepared.state, header, s.records);
    if c.fault != NoFault || locked || verified.None? then AwaitCurrentHeader(key, prepared.state)
    else AwaitFinalize(prepared.state.id, header, verified.value)
  }

  function OnFinalize(migrationId: nat, header: Header, records: seq<Record>, locked: bool, s: Store, c: Choice): (Pc, Store) {
    var (s', ok) := Write(s, FinalizeMigration(s, migrationId), c.fault);
    if !ok || locked then (Failed, s') else (Loaded(header, records), s')
  }

  function OnCurrentHeader(key: Key, state: MigrationState, s: Store, c: Choice): Pc {
    if c.fault != NoFault || s.header.None? || s.header.value.schemaVersion != CURRENT_SCHEMA then Failed
    else AwaitBackup(key, state, s.header.value)
  }

  ghost function OnBackup(key: Key, state: MigrationState, header: Header, locked: bool, s: Store, c: Choice): Pc {
    var backup := GetMigrationBackup(s, state.id);
    if c.fault != NoFault || locked || backup.None? || !VerifyMigrationBackup(key, state, header, backup.value)
    then Failed
    else AwaitRollback(state.id, backup.value)
  }

  function OnRollback(migrationId: nat, backup: Backup, locked: bool, s: Store, c: Choice): (Pc, Store) {
    var (s', ok) := Write(s, RollbackMigration(s, migrationId, backup), c.fault);
    if !ok || locked then (Failed, s') else (AwaitRestoredHeader, s')
  }

  /** Runs one vault object from its pending storage call to the next one. */
  ghost function Next(p: Process, s: Store, c: Choice): (Pc, Store) {
    match p.pc
    case AwaitHeader(passphrase) => (OnHeader(passphrase, p.locked, s, c), s)
    case AwaitState(header, key) => (OnState(header, key, p.locked, s, c), s)
    case AwaitPendingRecords(header, key, state) => (OnPendingRecords(header, key, state, p.locked, s, c), s)
    case AwaitRecords(header, key) => (OnRecords(header, key, p.locked, s, c), s)
    case AwaitCommit(key, prepared) => OnCommit(key, prepared, p.locked, s, c)
    case AwaitHeaderAfterFailedCommit => (Failed, s)
    case AwaitCommittedHeader(key, prepared) => (OnCommittedHeader(key, prepared, s, c), s)
    case AwaitCommittedRecords(key, prepared, header) => (OnCommittedRecords(key, prepared, header, p.locked, s, c), s)
    case AwaitFinalize(migrationId, header, records) => OnFinalize(migrationId, header, records, p.locked, s, c)
    case AwaitCurrentHeader(key, state) => (OnCurrentHeader(key, state, s, c), s)
    case AwaitBackup(key, state, header) => (OnBackup(key, state, header, p.locked, s, c), s)
    case AwaitRollback(migrationId, backup) => OnRollback(migrationId, backup, p.locked, s, c)
    case AwaitRestoredHeader => (Failed, s)
    case Loaded(_, _) => (p.pc, s)
    case Failed => (p.pc, s)
  }

  // Any number of vault objects on one store. A crash is an object that is never advanced again.

  datatype World = World(store: Store, processes: seq<Process>)

  datatype Event =
    | Open(passphrase: nat)
    | Lock(process: nat)
    | Advance(process: nat, choice: Choice)

  ghost function Apply(w: World, e: Event): World {
    match e
    case Open(passphrase) => w.(processes := w.processes + [Process(AwaitHeader(passphrase), false)])
    case Lock(i) =>
      if i >= |w.processes| then w
      else w.(processes := w.processes[i := w.processes[i].(locked := true)])
    case Advance(i, choice) =>
      if i >= |w.processes| then w
      else
        var p := w.processes[i];
        var (pc, store) := Next(p, w.store, choice);
        World(store, w.processes[i := p.(pc := pc)])
  }

  ghost function Run(w: World, events: seq<Event>): World {
    if events == [] then w
    else Apply(Run(w, events[..|events| - 1]), events[|events| - 1])
  }

  /** A schema 1 vault at rest, whatever its records hold. */
  ghost predicate LegacyVault(s: Store) {
    && s.header.Some? && s.header.value.schemaVersion == LEGACY_SCHEMA
    && Distinct(s.records)
    && s.state.None? && s.sourceHeader.None? && s.sourceRecords == []
  }

  ghost function VaultKey(s: Store): Key
    requires s.header.Some?
  {
    s.header.value.wrapping.dataKey
  }

  /** The plaintext records of the legacy vault with only their schema version changed. */
  ghost function Original(s: Store): Option<seq<Record>>
    requires s.header.Some?
  {
    MigratedPlaintext(VaultKey(s), s.records)
  }

  /** `m` carries the whole vault: its records decrypt to the original ones, and its backup is the vault itself. */
  ghost predicate Faithful(s0: Store, m: Commit)
    requires LegacyVault(s0)
  {
    var header := s0.header.value;
    && Original(s0).Some?
    && m.sourceHeader == header && m.sourceRecords == s0.records
    && m.targetHeader == header.(schemaVersion := CURRENT_SCHEMA, updatedAt := m.state.startedAt)
    && AtVersion(m.targetRecords, CURRENT_SCHEMA)
    && DecryptAll(VaultKey(s0), m.targetRecords) == Original(s0)
    && Distinct(m.targetRecords)
    && ValidState(m.state)
    && m.state.sourceRecordCount == |m.sourceRecords| && m.state.targetRecordCount == |m.targetRecords|
    && m.state.sourceDigest == EncryptedRecordsDigest(m.sourceRecords)
    && m.state.targetDigest == EncryptedRecordsDigest(m.targetRecords)
  }

  ghost function CommittedStore(m: Commit): Store {
    Store(Some(m.targetHeader), m.targetRecords, Some(m.state), Some(m.sourceHeader), m.sourceRecords)
  }

  ghost function FinalizedStore(m: Commit): Store {
    Store(Some(m.targetHeader), m.targetRecords, None, None, [])
  }

  /** The only stores a crash can leave behind. */
  ghost predicate SafeStore(s0: Store, s: Store)
    requires LegacyVault(s0)
  {
    || s == s0
    || (exists m :: Faithful(s0, m) && (s == CommittedStore(m) || s == FinalizedStore(m)))
  }

  /** The same records, in some order: the originals have distinct ids. */
  ghost predicate SameContents(left: seq<Record>, right: seq<Record>) {
    |left| == |right| && forall r :: r in left <==> r in right
  }

  /** What a successful unlock must return. */
  ghost predicate Loads(s0: Store, records: seq<Record>)
    requires LegacyVault(s0)
  {
    Original(s0).Some? && SameContents(records, Original(s0).value)
  }

  ghost predicate CurrentHeader(s0: Store, h: Header)
    requires LegacyVault(s0)
  {
    Original(s0).Some? && h == s0.header.value.(schemaVersion := CURRENT_SCHEMA, updatedAt := h.updatedAt)
  }

  ghost predicate KnownState(s0: Store, state: MigrationState)
    requires LegacyVault(s0)
  {
    exists m :: Faithful(s0, m) && m.state == state
  }

  /** What the locals of a process are worth, whatever the others have done to the store meanwhile. */
  ghost predicate ProcessOk(s0: Store, pc: Pc)
    requires LegacyVault(s0)
  {
    match pc
    case AwaitState(header, key) =>
      key == VaultKey(s0) && (header == s0.header.value || CurrentHeader(s0, header))
    case AwaitPendingRecords(header, key, state) =>
      key == VaultKey(s0) && CurrentHeader(s0, header) && KnownState(s0, state)
    case AwaitRecords(header, key) =>
      key == VaultKey(s0) && (header == s0.header.value || CurrentHeader(s0, header))
    case AwaitCommit(key, prepared) => key == VaultKey(s0) && Faithful(s0, prepared)
    case AwaitCommittedHeader(key, prepared) => key == VaultKey(s0) && Faithful(s0, prepared)
    case AwaitCommittedRecords(key, prepared, header) =>
      key == VaultKey(s0) && Faithful(s0, prepared) && CurrentHeader(s0, header)
    case AwaitFinalize(_, header, records) => CurrentHeader(s0, header) && Loads(s0, records)
    case AwaitCurrentHeader(key, state) => key == VaultKey(s0) && KnownState(s0, state)
    case AwaitBackup(key, state, header) =>
      key == VaultKey(s0) && KnownState(s0, state) && CurrentHeader(s0, header)
    case AwaitRollback(_, backup) => backup == Backup(s0.header.value, s0.records)
    case Loaded(header, records) => CurrentHeader(s0, header) && Loads(s0, records)
    case _ => true
  }

  ghost predicate Safe(s0: Store, w: World)
    requires LegacyVault(s0)
  {
    && SafeStore(s0, w.store)
    && forall i :: 0 <= i < |w.processes| ==> ProcessOk(s0, w.processes[i].pc)
  }

  // Cipher facts.

  lemma {:induction false} DecryptAllAt(key: Key, records: seq<Encrypted>, i: nat)
    requires DecryptAll(key, records).Some? && i < |records|
    ensures |DecryptAll(key, records).value| == |records|
    ensures Decrypt(key, records[i]) == Some(DecryptAll(key, records).value[i])
  {
    var last := |records| - 1;
    if last > 0 {
      DecryptAllAt(key, records[..last], if i < last then i else 0);
    }
  }

  lemma {:induction false} DecryptAllMembers(key: Key, records: seq<Encrypted>, r: Record)
    requires DecryptAll(key, records).Some?
    ensures r in DecryptAll(key, records).value <==> exists e :: e in records && Decrypt(key, e) == Some(r)
  {
    if records != [] {
      var last := |records| - 1;
      DecryptAllMembers(key, records[..last], r);
      assert records == records[..last] + [records[last]];
    }
  }

  lemma DecryptAllSame(key: Key, left: seq<Encrypted>, right: seq<Encrypted>)
    requires multiset(left) == multiset(right)
    requires DecryptAll(key, left).Some? && DecryptAll(key, right).Some?
    ensures SameContents(DecryptAll(key, left).value, DecryptAll(key, right).value)
  {
    assert |multiset(left)| == |left| && |multiset(right)| == |right|;
    if left != [] {
      DecryptAllAt(key, left, 0);
      DecryptAllAt(key, right, 0);
    }
    forall r
      ensures r in DecryptAll(key, left).value <==> r in DecryptAll(key, right).value
    {
      DecryptAllMembers(key, left, r);
      DecryptAllMembers(key, right, r);
      forall e
        ensures e in left <==> e in right
      {
        assert e in left <==> e in multiset(left);
        assert e in right <==> e in multiset(right);
      }
    }
  }

  // Preparing.

  lemma {:induction false} MigrateAllAt(records: seq<Record>, i: nat)
    requires MigrateAll(records).Some? && i < |records|
    ensures |MigrateAll(records).value| == |records|
    ensures records[i].version == LEGACY_SCHEMA
    ensures MigrateAll(records).value[i] == records[i].(version := CURRENT_SCHEMA)
  {
    var last := |records| - 1;
    if last > 0 {
      MigrateAllAt(records[..last], if i < last then i else 0);
    }
  }

  /** Every original record is a legacy one with its version changed and nothing else. */
  lemma OriginalAt(key: Key, records: seq<Encrypted>, i: nat)
    requires MigratedPlaintext(key, records).Some? && i < |records|
    ensures |MigratedPlaintext(key, records).value| == |records|
    ensures var source := Decrypt(key, records[i]);
            source.Some? && MigratedPlaintext(key, records).value[i] == source.value.(version := CURRENT_SCHEMA)
  {
    var plain := DecryptAll(key, records).value;
    DecryptAllAt(key, records, i);
    MigrateAllAt(plain, i);
  }

  lemma {:induction false} EncryptAllRoundTrip(key: Key, records: seq<Record>, seeds: seq<Seed>)
    requires forall i :: 0 <= i < |records| ==> records[i].version == CURRENT_SCHEMA
    ensures DecryptAll(key, EncryptAll(key, records, seeds)) == Some(records)
    ensures AtVersion(EncryptAll(key, records, seeds), CURRENT_SCHEMA)
  {
    if records != [] {
      var last := |records| - 1;
      EncryptAllRoundTrip(key, records[..last], seeds);
      assert EncryptAll(key, records, seeds)[..last] == EncryptAll(key, records[..last], seeds);
      assert records == records[..last] + [records[last]];
    }
  }

  /** The check before the commit never fails: what was prepared always carries the whole vault. */
  lemma PreparedIsFaithful(s0: Store, now: int, migrationId: nat, seeds: seq<Seed>)
    requires LegacyVault(s0)
    ensures var prepared := PrepareVaultMigration(VaultKey(s0), s0.header.value, s0.records, now, migrationId, seeds);
            && (prepared.Some? <==> Original(s0).Some?)
            && (prepared.Some? ==> Faithful(s0, prepared.value) && prepared.value.state.id == migrationId)
  {
    var key := VaultKey(s0);
    if Original(s0).Some? {
      var migrated := Original(s0).value;
      forall i | 0 <= i < |migrated|
        ensures migrated[i].version == CURRENT_SCHEMA
      {
        if |s0.records| > 0 {
          OriginalAt(key, s0.records, 0);
        }
        if i < |s0.records| {
          OriginalAt(key, s0.records, i);
        }
      }
      EncryptAllRoundTrip(key, migrated, seeds);
      var encrypted := EncryptAll(key, migrated, seeds);
      forall i, j | 0 <= i < j < |encrypted|
        ensures encrypted[i].id != encrypted[j].id
      {
        assert migrated[i].id != migrated[j].id;
      }
    }
  }

  // Safety of one step.

  lemma SafeStoreCases(s0: Store, s: Store) returns (m: Commit)
    requires LegacyVault(s0) && SafeStore(s0, s) && s != s0
    ensures Faithful(s0, m) && (s == CommittedStore(m) || s == FinalizedStore(m))
  {
    m :| Faithful(s0, m) && (s == CommittedStore(m) || s == FinalizedStore(m));
  }

  lemma VerifiedLoads(s0: Store, state: MigrationState, header: Header, records: seq<Encrypted>)
    requires LegacyVault(s0) && KnownState(s0, state)
    requires VerifyCommittedMigration(VaultKey(s0), state, header, records).Some?
    ensures Loads(s0, VerifyCommittedMigration(VaultKey(s0), state, header, records).value)
  {
    var m :| Faithful(s0, m) && m.state == state;
    DigestBinds(records, m.targetRecords);
    DecryptAllSame(VaultKey(s0), records, m.targetRecords);
  }

  lemma EmptyVault(s0: Store, m: Commit)
    requires LegacyVault(s0) && Faithful(s0, m)
    ensures |m.targetRecords| == |s0.records|
    ensures s0.records != [] ==> s0.records[0].version == LEGACY_SCHEMA
  {
    if s0.records != [] {
      OriginalAt(VaultKey(s0), s0.records, 0);
    }
    if m.targetRecords != [] {
      DecryptAllAt(VaultKey(s0), m.targetRecords, 0);
    }
  }

  lemma CurrentRecordsLoad(s0: Store, s: Store, header: Header)
    requires LegacyVault(s0) && SafeStore(s0, s) && CurrentHeader(s0, header)
    requires AtVersion(s.records, CURRENT_SCHEMA) && DecryptAll(VaultKey(s0), s.records).Some?
    ensures Loads(s0, DecryptAll(VaultKey(s0), s.records).value)
  {
    if s == s0 {
      assert s0.records == [];
    } else {
      var m := SafeStoreCases(s0, s);
    }
  }

  lemma LegacyRecordsPrepare(s0: Store, s: Store, c: Choice)
    requires LegacyVault(s0) && SafeStore(s0, s)
    ensures var prepared := PrepareVaultMigration(VaultKey(s0), s0.header.value, s.records, c.now, c.migrationId, c.seeds);
            prepared.Some? ==> Faithful(s0, prepared.value)
  {
    PreparedIsFaithful(s0, c.now, c.migrationId, c.seeds);
    if s != s0 {
      var m := SafeStoreCases(s0, s);
      EmptyVault(s0, m);
      assert AtVersion(s.records, LEGACY_SCHEMA) ==> s.records == [] && s0.records == [];
    }
  }

  lemma CommitIsSafe(s0: Store, s: Store, m: Commit)
    requires LegacyVault(s0) && SafeStore(s0, s) && Faithful(s0, m)
    requires CommitMigration(s, m).Some?
    ensures s == s0 && CommitMigration(s, m).value == CommittedStore(m)
    ensures SafeStore(s0, CommitMigration(s, m).value)
  {
    if s != s0 {
      var m' := SafeStoreCases(s0, s);
    }
    PutAllDistinct(m.targetRecords);
    PutAllDistinct(m.sourceRecords);
  }

  lemma FinalizeIsSafe(s0: Store, s: Store, migrationId: nat)
    requires LegacyVault(s0) && SafeStore(s0, s)
    requires FinalizeMigration(s, migrationId).Some?
    ensures SafeStore(s0, FinalizeMigration(s, migrationId).value)
  {
    var m := SafeStoreCases(s0, s);
    assert FinalizeMigration(s, migrationId).value == FinalizedStore(m);
  }

  lemma RollbackIsSafe(s0: Store, s: Store, migrationId: nat, backup: Backup)
    requires LegacyVault(s0) && SafeStore(s0, s)
    requires RollbackMigration(s, migrationId, backup).Some?
    ensures RollbackMigration(s, migrationId, backup).value == s0
  {
    var m := SafeStoreCases(s0, s);
    PutAllDistinct(s0.records);
  }

  lemma HeaderReadIsSafe(s0: Store, s: Store)
    requires LegacyVault(s0) && SafeStore(s0, s)
    ensures s.header.Some? && (s.header.value == s0.header.value || CurrentHeader(s0, s.header.value))
    ensures s.header.value.wrapping.dataKey == VaultKey(s0)
    ensures s.state.Some? ==> KnownState(s0, s.state.value)
    ensures s.sourceHeader.Some? ==> s.sourceHeader == s0.header && s.sourceRecords == s0.records
  {
    if s != s0 {
      var m := SafeStoreCases(s0, s);
    }
  }

  lemma CurrentRecordsStepIsSafe(s0: Store, header: Header, key: Key, locked: bool, s: Store, c: Choice)
    requires LegacyVault(s0) && SafeStore(s0, s) && ProcessOk(s0, AwaitRecords(header, key))
    requires header.schemaVersion == CURRENT_SCHEMA
    ensures ProcessOk(s0, OnRecords(header, key, locked, s, c))
  {
    CurrentRecordsOutcome(header, key, locked, s, c);
    if AtVersion(s.records, CURRENT_SCHEMA) && DecryptAll(key, s.records).Some? {
      CurrentRecordsLoad(s0, s, header);
    }
  }

  lemma CurrentRecordsOutcome(header: Header, key: Key, locked: bool, s: Store, c: Choice)
    requires header.schemaVersion == CURRENT_SCHEMA
    ensures var pc := OnRecords(header, key, locked, s, c);
            || pc == Failed
            || (AtVersion(s.records, CURRENT_SCHEMA) && DecryptAll(key, s.records).Some?
                && pc == Loaded(header, DecryptAll(key, s.records).value))
  {
  }

  lemma LegacyRecordsStepIsSafe(s0: Store, header: Header, key: Key, locked: bool, s: Store, c: Choice)
    requires LegacyVault(s0) && SafeStore(s0, s) && ProcessOk(s0, AwaitRecords(header, key))
    requires header.schemaVersion != CURRENT_SCHEMA
    ensures ProcessOk(s0, OnRecords(header, key, locked, s, c))
  {
    assert header == s0.header.value;
    LegacyRecordsPrepare(s0, s, c);
  }

  lemma RecordsStepIsSafe(s0: Store, header: Header, key: Key, locked: bool, s: Store, c: Choice)
    requires LegacyVault(s0) && SafeStore(s0, s) && ProcessOk(s0, AwaitRecords(header, key))
    ensures ProcessOk(s0, OnRecords(header, key, locked, s, c))
  {
    if header.schemaVersion == CURRENT_SCHEMA {
      CurrentRecordsStepIsSafe(s0, header, key, locked, s, c);
    } else {
      LegacyRecordsStepIsSafe(s0, header, key, locked, s, c);
    }
  }

  lemma HeaderStepsAreSafe(s0: Store, passphrase: nat, header: Header, key: Key, locked: bool, s: Store, c: Choice)
    requires LegacyVault(s0) && SafeStore(s0, s)
    ensures ProcessOk(s0, OnHeader(passphrase, locked, s, c))
    ensures ProcessOk(s0, AwaitState(header, key)) ==> ProcessOk(s0, OnState(header, key, locked, s, c))
  {
    HeaderReadIsSafe(s0, s);
  }

  lemma PendingStepIsSafe(s0: Store, header: Header, key: Key, state: MigrationState, locked: bool, s: Store, c: Choice)
    requires LegacyVault(s0) && ProcessOk(s0, AwaitPendingRecords(header, key, state))
    ensures ProcessOk(s0, OnPendingRecords(header, key, state, locked, s, c))
  {
    if VerifyCommittedMigration(key, state, header, s.records).Some? {
      VerifiedLoads(s0, state, header, s.records);
    }
  }

  lemma CommittedHeaderStepIsSafe(s0: Store, key: Key, prepared: Commit, s: Store, c: Choice)
    requires LegacyVault(s0) && SafeStore(s0, s) && ProcessOk(s0, AwaitCommittedHeader(key, prepared))
    ensures ProcessOk(s0, OnCommittedHeader(key, prepared, s, c))
  {
    HeaderReadIsSafe(s0, s);
    assert KnownState(s0, prepared.state);
  }

  lemma CommittedRecordsStepIsSafe(s0: Store, key: Key, prepared: Commit, header: Header, locked: bool, s: Store, c: Choice)
    requires LegacyVault(s0) && SafeStore(s0, s) && ProcessOk(s0, AwaitCommittedRecords(key, prepared, header))
    ensures ProcessOk(s0, OnCommittedRecords(key, prepared, header, locked, s, c))
  {
    assert KnownState(s0, prepared.state);
    if VerifyCommittedMigration(key, prepared.state, header, s.records).Some? {
      VerifiedLoads(s0, prepared.state, header, s.records);
    }
  }

  lemma CurrentHeaderStepIsSafe(s0: Store, key: Key, state: MigrationState, s: Store, c: Choice)
    requires LegacyVault(s0) && SafeStore(s0, s) && ProcessOk(s0, AwaitCurrentHeader(key, state))
    ensures ProcessOk(s0, OnCurrentHeader(key, state, s, c))
  {
    HeaderReadIsSafe(s0, s);
  }

  lemma BackupStepIsSafe(s0: Store, key: Key, state: MigrationState, header: Header, locked: bool, s: Store, c: Choice)
    requires LegacyVault(s0) && SafeStore(s0, s) && ProcessOk(s0, AwaitBackup(key, state, header))
    ensures ProcessOk(s0, OnBackup(key, state, header, locked, s, c))
  {
    HeaderReadIsSafe(s0, s);
  }

  ghost predicate StepOk(s0: Store, step: (Pc, Store))
    requires LegacyVault(s0)
  {
    SafeStore(s0, step.1) && ProcessOk(s0, step.0)
  }

  lemma CommitStepIsSafe(s0: Store, key: Key, prepared: Commit, locked: bool, s: Store, c: Choice)
    requires LegacyVault(s0) && SafeStore(s0, s) && ProcessOk(s0, AwaitCommit(key, prepared))
    ensures StepOk(s0, OnCommit(key, prepared, locked, s, c))
  {
    if CommitMigration(s, prepared).Some? {
      CommitIsSafe(s0, s, prepared);
    }
  }

  lemma FinalizeStepIsSafe(s0: Store, migrationId: nat, header: Header, records: seq<Record>, locked: bool, s: Store, c: Choice)
    requires LegacyVault(s0) && SafeStore(s0, s) && ProcessOk(s0, AwaitFinalize(migrationId, header, records))
    ensures StepOk(s0, OnFinalize(migrationId, header, records, locked, s, c))
  {
    if FinalizeMigration(s, migrationId).Some? {
      FinalizeIsSafe(s0, s, migrationId);
    }
  }

  lemma RollbackStepIsSafe(s0: Store, migrationId: nat, backup: Backup, locked: bool, s: Store, c: Choice)
    requires LegacyVault(s0) && SafeStore(s0, s)
    ensures StepOk(s0, OnRollback(migrationId, backup, locked, s, c))
  {
    if RollbackMigration(s, migrationId, backup).Some? {
      RollbackIsSafe(s0, s, migrationId, backup);
    }
  }

  lemma StepIsSafe(s0: Store, p: Process, s: Store, c: Choice)
    requires LegacyVault(s0) && SafeStore(s0, s) && ProcessOk(s0, p.pc)
    ensures StepOk(s0, Next(p, s, c))
  {
    match p.pc {
      case AwaitHeader(passphrase) =>
        HeaderStepsAreSafe(s0, passphrase, s0.header.value, 0, p.locked, s, c);
      case AwaitState(header, key) =>
        HeaderStepsAreSafe(s0, 0, header, key, p.locked, s, c);
      case AwaitRecords(header, key) =>
        RecordsStepIsSafe(s0, header, key, p.locked, s, c);
      case AwaitPendingRecords(header, key, state) =>
        PendingStepIsSafe(s0, header, key, state, p.locked, s, c);
      case AwaitCommit(key, prepared) =>
        CommitStepIsSafe(s0, key, prepared, p.locked, s, c);
      case AwaitCommittedHeader(key, prepared) =>
        CommittedHeaderStepIsSafe(s0, key, prepared, s, c);
      case AwaitCommittedRecords(key, prepared, header) =>
        CommittedRecordsStepIsSafe(s0, key, prepared, header, p.locked, s, c);
      case AwaitFinalize(migrationId, header, records) =>
        FinalizeStepIsSafe(s0, migrationId, header, records, p.locked, s, c);
      case AwaitCurrentHeader(key, state) =>
        CurrentHeaderStepIsSafe(s0, key, state, s, c);
      case AwaitBackup(key, state, header) =>
        BackupStepIsSafe(s0, key, state, header, p.locked, s, c);
      case AwaitRollback(migrationId, backup) =>
        RollbackStepIsSafe(s0, migrationId, backup, p.locked, s, c);
      case _ =>
    }
  }

  /** Migration is crash-safe. Over any interleaving of any number of vault objects on a schema 1
      vault, each stopped or locked anywhere and with any call failing, the store is the untouched
      vault, a committed one with the whole vault as its backup, or a finalized one; and whoever
      finishes loading holds the original records with only their schema version changed. */
  lemma {:induction false} MigrationIsCrashSafe(s0: Store, events: seq<Event>)
    requires LegacyVault(s0)
    ensures Safe(s0, Run(World(s0, []), events))
  {
    if events != [] {
      var last := |events| - 1;
      MigrationIsCrashSafe(s0, events[..last]);
      var w := Run(World(s0, []), events[..last]);
      match events[last] {
        case Advance(i, c) =>
          if i < |w.processes| {
            StepIsSafe(s0, w.processes[i], w.store, c);
          }
        case _ =>
      }
    }
  }

  // Progress: one vault object that nobody locks and whose calls all succeed.

  ghost function RunAlone(pc: Pc, s: Store, c: Choice, steps: nat): (Pc, Store)
    decreases steps
  {
    if steps == 0 then (pc, s)
    else
      var (pc', s') := Next(Process(pc, false), s, c);
      RunAlone(pc', s', c, steps - 1)
  }

  lemma {:induction false} AtRest(pc: Pc, s: Store, c: Choice, steps: nat)
    requires pc.Loaded? || pc.Failed?
    ensures RunAlone(pc, s, c, steps) == (pc, s)
  {
    if steps > 0 {
      AtRest(pc, s, c, steps - 1);
    }
  }

  lemma FaithfulVerifies(s0: Store, m: Commit)
    requires LegacyVault(s0) && Faithful(s0, m)
    ensures VerifyCommittedMigration(VaultKey(s0), m.state, m.targetHeader, m.targetRecords) == Original(s0)
  {
  }

  ghost predicate Completed(s0: Store, outcome: (Pc, Store))
    requires LegacyVault(s0)
  {
    if Original(s0).Some? then
      && outcome.0.Loaded? && outcome.0.records == Original(s0).value
      && exists m :: Faithful(s0, m) && outcome.1 == FinalizedStore(m)
    else outcome == (Failed, s0)
  }

  lemma FinalizeAlone(s0: Store, m: Commit, c: Choice, steps: nat)
    requires LegacyVault(s0) && Faithful(s0, m) && c.fault == NoFault && steps >= 1
    ensures Completed(s0, RunAlone(AwaitFinalize(m.state.id, m.targetHeader, Original(s0).value), CommittedStore(m), c, steps))
  {
    AtRest(Loaded(m.targetHeader, Original(s0).value), FinalizedStore(m), c, steps - 1);
  }

  lemma CommittedAlone(s0: Store, m: Commit, c: Choice)
    requires LegacyVault(s0) && Faithful(s0, m) && c.fault == NoFault
    ensures OnCommit(VaultKey(s0), m, false, s0, c) == (AwaitCommittedHeader(VaultKey(s0), m), CommittedStore(m))
  {
    PutAllDistinct(m.targetRecords);
    PutAllDistinct(m.sourceRecords);
  }

  /** From the committed store, the object that committed goes on to finalize it. */
  lemma VerifyAlone(s0: Store, m: Commit, c: Choice, steps: nat)
    requires LegacyVault(s0) && Faithful(s0, m) && c.fault == NoFault && steps >= 3
    ensures Completed(s0, RunAlone(AwaitCommittedHeader(VaultKey(s0), m), CommittedStore(m), c, steps))
  {
    var key, s := VaultKey(s0), CommittedStore(m);
    var next := AwaitCommittedRecords(key, m, m.targetHeader);
    FaithfulVerifies(s0, m);
    FinalizeAlone(s0, m, c, steps - 2);
    AloneStep(next, s, c, steps - 1, AwaitFinalize(m.state.id, m.targetHeader, Original(s0).value), s);
    AloneStep(AwaitCommittedHeader(key, m), s, c, steps, next, s);
  }

  lemma AloneStep(pc: Pc, s: Store, c: Choice, steps: nat, pc': Pc, s': Store)
    requires steps >= 1 && Next(Process(pc, false), s, c) == (pc', s')
    ensures RunAlone(pc, s, c, steps) == RunAlone(pc', s', c, steps - 1)
  {
  }

  lemma CommitAlone(s0: Store, m: Commit, c: Choice, steps: nat)
    requires LegacyVault(s0) && Faithful(s0, m) && c.fault == NoFault && steps >= 4
    ensures Completed(s0, RunAlone(AwaitCommit(VaultKey(s0), m), s0, c, steps))
  {
    CommittedAlone(s0, m, c);
    AloneStep(AwaitCommit(VaultKey(s0), m), s0, c, steps, AwaitCommittedHeader(VaultKey(s0), m), CommittedStore(m));
    VerifyAlone(s0, m, c, steps - 1);
  }

  lemma MigrateAlone(s0: Store, c: Choice, steps: nat)
    requires LegacyVault(s0) && c.fault == NoFault && steps >= 6
    ensures Completed(s0, RunAlone(AwaitState(s0.header.value, VaultKey(s0)), s0, c, steps))
  {
    var header, key := s0.header.value, VaultKey(s0);
    PreparedIsFaithful(s0, c.now, c.migrationId, c.seeds);
    var prepared := PrepareVaultMigration(key, header, s0.records, c.now, c.migrationId, c.seeds);
    assert RunAlone(AwaitState(header, key), s0, c, steps) == RunAlone(AwaitRecords(header, key), s0, c, steps - 1);
    if prepared.None? {
      assert OnRecords(header, key, false, s0, c) == Failed;
      AtRest(Failed, s0, c, steps - 2);
    } else {
      assert OnRecords(header, key, false, s0, c) == AwaitCommit(key, prepared.value);
      CommitAlone(s0, prepared.value, c, steps - 2);
    }
  }

  lemma ResumeAlone(s0: Store, m: Commit, c: Choice, steps: nat)
    requires LegacyVault(s0) && Faithful(s0, m) && c.fault == NoFault && steps >= 3
    ensures Completed(s0, RunAlone(AwaitState(m.targetHeader, VaultKey(s0)), CommittedStore(m), c, steps))
    ensures Completed(s0, RunAlone(AwaitState(m.targetHeader, VaultKey(s0)), FinalizedStore(m), c, steps))
  {
    var header, key := m.targetHeader, VaultKey(s0);
    FaithfulVerifies(s0, m);
    var s := CommittedStore(m);
    assert OnPendingRecords(header, key, m.state, false, s, c) == AwaitFinalize(m.state.id, header, Original(s0).value);
    FinalizeAlone(s0, m, c, steps - 2);
    assert RunAlone(AwaitState(header, key), s, c, steps) == RunAlone(AwaitPendingRecords(header, key, m.state), s, c, steps - 1);
    var f := FinalizedStore(m);
    assert OnRecords(header, key, false, f, c) == Loaded(header, Original(s0).value);
    AtRest(Loaded(header, Original(s0).value), f, c, steps - 2);
    assert RunAlone(AwaitState(header, key), f, c, steps) == RunAlone(AwaitRecords(header, key), f, c, steps - 1);
  }

  /** With the right passphrase the header gives the key. */
  lemma OpenAlone(s: Store, passphrase: nat, c: Choice, steps: nat)
    requires c.fault == NoFault && steps >= 1 && s.header.Some? && s.header.value.wrapping.passphrase == passphrase
    requires s.header.value.schemaVersion == LEGACY_SCHEMA || s.header.value.schemaVersion == CURRENT_SCHEMA
    ensures RunAlone(AwaitHeader(passphrase), s, c, steps) == RunAlone(AwaitState(s.header.value, VaultKey(s)), s, c, steps - 1)
  {
    AloneStep(AwaitHeader(passphrase), s, c, steps, AwaitState(s.header.value, VaultKey(s)), s);
  }

  lemma UntouchedAlone(s0: Store, c: Choice, steps: nat)
    requires LegacyVault(s0) && c.fault == NoFault && steps >= 7
    ensures Completed(s0, RunAlone(AwaitHeader(s0.header.value.wrapping.passphrase), s0, c, steps))
  {
    OpenAlone(s0, s0.header.value.wrapping.passphrase, c, steps);
    MigrateAlone(s0, c, steps - 1);
  }

  lemma TouchedAlone(s0: Store, s: Store, m: Commit, c: Choice, steps: nat)
    requires LegacyVault(s0) && Faithful(s0, m) && (s == CommittedStore(m) || s == FinalizedStore(m))
    requires c.fault == NoFault && steps >= 7
    ensures Completed(s0, RunAlone(AwaitHeader(s0.header.value.wrapping.passphrase), s, c, steps))
  {
    OpenAlone(s, s0.header.value.wrapping.passphrase, c, steps);
    ResumeAlone(s0, m, c, steps - 1);
  }

  /** A vault a crash left behind always opens again: with the right passphrase, undisturbed, the
      next unlock returns the original records and leaves a finalized store, from any store the
      crash may have left; and a vault whose records cannot be migrated is left untouched. */
  lemma NextUnlockCompletes(s0: Store, s: Store, c: Choice, steps: nat)
    requires LegacyVault(s0) && SafeStore(s0, s) && c.fault == NoFault && steps >= 7
    ensures Completed(s0, RunAlone(AwaitHeader(s0.header.value.wrapping.passphrase), s, c, steps))
  {
    if s == s0 {
      UntouchedAlone(s0, c, steps);
    } else {
      var m := SafeStoreCases(s0, s);
      TouchedAlone(s0, s, m, c, steps);
    }
  }
}
