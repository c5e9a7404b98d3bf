/** The encrypted record store (packages/memory/src/storage.ts) over a symbolic cipher
    (packages/memory/src/crypto.ts). */
module Storage {
  import opened Prelude
  import opened Records

  const LEGACY_SCHEMA: nat := 1
  const CURRENT_SCHEMA: nat := 2

  type Key = nat

  /** AES-GCM as a term: it opens only under the key, nonce and associated data it was sealed with. */
  datatype Ciphertext =
    | Sealed(key: Key, nonce: nat, version: nat, id: Id, kind: Kind, plain: Record)
    | Noise(bytes: nat)

  datatype Encrypted = Encrypted(version: nat, id: Id, kind: Kind, nonce: nat,
                                 ciphertext: Ciphertext, byteLength: nat)

  /** The randomness of one encryption, and the length of the plaintext. */
  datatype Seed = Seed(nonce: nat, plainLength: nat)

  /** The 16 bytes are the authentication tag. */
  function Encrypt(key: Key, record: Record, seed: Seed): Encrypted {
    Encrypted(CURRENT_SCHEMA, record.id, record.body.Kind(), seed.nonce,
              Sealed(key, seed.nonce, CURRENT_SCHEMA, record.id, record.body.Kind(), record),
              16 + seed.plainLength)
  }

  /** decryptRecordAtVersion at the record's own version. */
  function Decrypt(key: Key, e: Encrypted): Option<Record> {
    if e.byteLength < 16 || !e.ciphertext.Sealed? then None
    else
      var c := e.ciphertext;
      if c.key == key && c.nonce == e.nonce && c.version == e.version && c.id == e.id && c.kind == e.kind
         && c.plain.version == e.version && c.plain.id == e.id && c.plain.body.Kind() == e.kind
      then Some(c.plain)
      else None
  }

  /** A record decrypts exactly when it is long enough for the tag and was sealed under this key, nonce and
      associated data, around a record of just that version, id and kind. */
  lemma DecryptsExactly(key: Key, e: Encrypted, r: Record)
    ensures Decrypt(key, e) == Some(r) <==>
            && e.byteLength >= 16 && e.ciphertext == Sealed(key, e.nonce, e.version, e.id, e.kind, r)
            && r.version == e.version && r.id == e.id && r.body.Kind() == e.kind
  {
  }

  /** An encrypted record decrypts under its own key, to what was encrypted; with any of its fields changed,
      or under another key, it does not decrypt. */
  lemma DecryptsOnlyAsSealed(key: Key, record: Record, seed: Seed, other: Key, version: nat, id: Id, kind: Kind, nonce: nat)
    requires record.version == CURRENT_SCHEMA
    ensures var e := Encrypt(key, record, seed);
            var changed := e.(version := version, id := id, kind := kind, nonce := nonce);
            Decrypt(other, changed) == if other == key && changed == e then Some(record) else None
  {
  }

  /** The passphrase opens `wrapping`, which holds the data key. */
  datatype Wrapping = Wrapping(passphrase: nat, dataKey: Key)

  datatype Header = Header(schemaVersion: nat, vaultId: nat, createdAt: int, updatedAt: int,
                           kdf: nat, wrapping: Wrapping)

  function Unwrap(header: Header, passphrase: nat): Option<Key> {
    if header.wrapping.passphrase == passphrase then Some(header.wrapping.dataKey) else None
  }

  /** SHA-256 over the records in id order, taken as injective: the digest is what it hashes. */
  type Digest = seq<Encrypted>

  function EncryptedRecordsDigest(records: seq<Encrypted>): Digest {
    SortById(records)
  }

  function InsertById(e: Encrypted, sorted: seq<Encrypted>): seq<Encrypted> {
    if sorted == [] || e.id < sorted[0].id then [e] + sorted
    else [sorted[0]] + InsertById(e, sorted[1..])
  }

  /** Array.prototype.sort with the id comparison: stable. */
  function SortById(records: seq<Encrypted>): seq<Encrypted> {
    if records == [] then []
    else InsertById(records[|records| - 1], SortById(records[..|records| - 1]))
  }

  predicate RecordsMatch(left: seq<Encrypted>, right: seq<Encrypted>) {
    |left| == |right| && SortById(left) == SortById(right)
  }

  datatype MigrationState = MigrationState(id: nat, fromVersion: nat, toVersion: nat,
                                           startedAt: int, committedAt: int,
                                           sourceRecordCount: nat, targetRecordCount: nat,
                                           sourceDigest: Digest, targetDigest: Digest)

  datatype Backup = Backup(sourceHeader: Header, sourceRecords: seq<Encrypted>)

  datatype Commit = Commit(state: MigrationState, sourceHeader: Header, sourceRecords: seq<Encrypted>,
                           targetHeader: Header, targetRecords: seq<Encrypted>)

  /** The five fields of the store. A JavaScript Map from id to record is the sequence of its
      values in insertion order. */
  datatype Store = Store(header: Option<Header>, records: seq<Encrypted>,
                         state: Option<MigrationState>, sourceHeader: Option<Header>,
                         sourceRecords: seq<Encrypted>)

  ghost predicate Distinct(records: seq<Encrypted>) {
    forall i, j :: 0 <= i < j < |records| ==> records[i].id != records[j].id
  }

  /** Map.set: an existing id keeps its place. */
  function Put(records: seq<Encrypted>, e: Encrypted): seq<Encrypted> {
    if records == [] then [e]
    else if records[0].id == e.id then [e] + records[1..]
    else [records[0]] + Put(records[1..], e)
  }

  function PutAll(records: seq<Encrypted>, added: seq<Encrypted>): seq<Encrypted> {
    if added == [] then records
    else Put(PutAll(records, added[..|added| - 1]), added[|added| - 1])
  }

  function Remove(records: seq<Encrypted>, id: Id): seq<Encrypted> {
    if records == [] then []
    else if records[0].id == id then records[1..]
    else [records[0]] + Remove(records[1..], id)
  }

  function RemoveAll(records: seq<Encrypted>, ids: seq<Id>): seq<Encrypted> {
    if ids == [] then records
    else Remove(RemoveAll(records, ids[..|ids| - 1]), ids[|ids| - 1])
  }

  // What the transactions do to the store; None is a thrown error, which leaves the store as it was.

  function GetMigrationBackup(s: Store, migrationId: nat): Option<Backup> {
    if s.state.None? || s.state.value.id != migrationId || s.sourceHeader.None? then None
    else Some(Backup(s.sourceHeader.value, s.sourceRecords))
  }

  function CommitMigration(s: Store, m: Commit): Option<Store> {
    if s.state.Some? || s.header != Some(m.sourceHeader) || !RecordsMatch(s.records, m.sourceRecords) then None
    else Some(Store(Some(m.targetHeader), PutAll([], m.targetRecords), Some(m.state),
                    Some(m.sourceHeader), PutAll([], m.sourceRecords)))
  }

  function RollbackMigration(s: Store, migrationId: nat, backup: Backup): Option<Store> {
    if || s.state.None? || s.state.value.id != migrationId || s.sourceHeader.None?
       || |s.sourceRecords| != s.state.value.sourceRecordCount
       || s.sourceHeader != Some(backup.sourceHeader)
       || !RecordsMatch(s.sourceRecords, backup.sourceRecords)
    then None
    else Some(Store(s.sourceHeader, PutAll([], s.sourceRecords), None, None, []))
  }

  function FinalizeMigration(s: Store, migrationId: nat): Option<Store> {
    if s.state.None? || s.state.value.id != migrationId then None
    else Some(s.(state := None, sourceHeader := None, sourceRecords := []))
  }

  function ReplaceAll(s: Store, header: Header, records: seq<Encrypted>): Store {
    Store(Some(header), PutAll([], records), None, None, [])
  }

  /** InMemoryMemoryStorage: the store updated in place, one transaction a method. */
  class InMemoryMemoryStorage {
    var header: Option<Header>
    var records: seq<Encrypted>
    var migrationState: Option<MigrationState>
    var migrationSourceHeader: Option<Header>
    var migrationSourceRecords: seq<Encrypted>

    constructor ()
      ensures Value() == Store(None, [], None, None, [])
    {
      header, records := None, [];
      migrationState, migrationSourceHeader, migrationSourceRecords := None, None, [];
    }

    ghost function Value(): Store
      reads this
    {
      Store(header, records, migrationState, migrationSourceHeader, migrationSourceRecords)
    }

    method PutRecords(added: seq<Encrypted>)
      modifies this
      ensures Value() == old(Value()).(records := PutAll(old(records), added))
    {
      for i := 0 to |added|
        invariant Value() == old(Value()).(records := PutAll(old(records), added[..i]))
      {
        records := Put(records, added[i]);
        assert added[..i + 1][..i] == added[..i];
      }
      assert added[..|added|] == added;
    }

    method DeleteRecords(ids: seq<Id>)
      modifies this
      ensures Value() == old(Value()).(records := RemoveAll(old(records), ids))
    {
      for i := 0 to |ids|
        invariant Value() == old(Value()).(records := RemoveAll(old(records), ids[..i]))
      {
        records := Remove(records, ids[i]);
        assert ids[..i + 1][..i] == ids[..i];
      }
      assert ids[..|ids|] == ids;
    }

    method ReplaceEverything(newHeader: Header, added: seq<Encrypted>)
      modifies this
      ensures Value() == ReplaceAll(old(Value()), newHeader, added)
    {
      header := Some(newHeader);
      records := [];
      for i := 0 to |added|
        invariant header == Some(newHeader) && records == PutAll([], added[..i])
      {
        records := Put(records, added[i]);
        assert added[..i + 1][..i] == added[..i];
      }
      assert added[..|added|] == added;
      migrationState, migrationSourceHeader, migrationSourceRecords := None, None, [];
    }

    method Commit(m: Commit) returns (committed: bool)
      modifies this
      ensures committed <==> CommitMigration(old(Value()), m).Some?
      ensures Value() == if committed then CommitMigration(old(Value()), m).value else old(Value())
    {
      if migrationState.Some? || header != Some(m.sourceHeader) || !RecordsMatch(records, m.sourceRecords) {
        return false;
      }
      migrationSourceHeader := Some(m.sourceHeader);
      migrationSourceRecords := PutAll([], m.sourceRecords);
      migrationState := Some(m.state);
      header := Some(m.targetHeader);
      records := PutAll([], m.targetRecords);
      return true;
    }

    method Rollback(migrationId: nat, verified: Backup) returns (restored: bool)
      modifies this
      ensures restored <==> RollbackMigration(old(Value()), migrationId, verified).Some?
      ensures Value() == if restored then RollbackMigration(old(Value()), migrationId, verified).value else old(Value())
    {
      if || migrationState.None? || migrationState.value.id != migrationId || migrationSourceHeader.None?
         || |migrationSourceRecords| != migrationState.value.sourceRecordCount
         || migrationSourceHeader != Some(verified.sourceHeader)
         || !RecordsMatch(migrationSourceRecords, verified.sourceRecords)
      {
        return false;
      }
      header := migrationSourceHeader;
      records := PutAll([], migrationSourceRecords);
      migrationState, migrationSourceHeader, migrationSourceRecords := None, None, [];
      return true;
    }

    method Finalize(migrationId: nat) returns (finalized: bool)
      modifies this
      ensures finalized <==> FinalizeMigration(old(Value()), migrationId).Some?
      ensures Value() == if finalized then FinalizeMigration(old(Value()), migrationId).value else old(Value())
    {
      if migrationState.None? || migrationState.value.id != migrationId {
        return false;
      }
      migrationState, migrationSourceHeader, migrationSourceRecords := None, None, [];
      return true;
    }
  }

  // Sorting, and listings of the same records in another order.

  lemma {:induction false} InsertByIdMultiset(e: Encrypted, sorted: seq<Encrypted>)
    ensures multiset(InsertById(e, sorted)) == multiset{e} + multiset(sorted)
  {
    if sorted != [] && sorted[0].id <= e.id {
      InsertByIdMultiset(e, sorted[1..]);
      assert sorted == [sorted[0]] + sorted[1..];
    }
  }

  lemma {:induction false} SortByIdMultiset(records: seq<Encrypted>)
    ensures multiset(SortById(records)) == multiset(records)
    ensures |SortById(records)| == |records|
  {
    if records != [] {
      var last := |records| - 1;
      SortByIdMultiset(records[..last]);
      InsertByIdMultiset(records[last], SortById(records[..last]));
      assert records == records[..last] + [records[last]];
    }
    assert |multiset(SortById(records))| == |multiset(records)|;
  }

  ghost predicate Ascending(s: seq<Encrypted>) {
    forall i, j :: 0 <= i < j < |s| ==> s[i].id < s[j].id
  }

  ghost predicate SameRecords(s: seq<Encrypted>, t: seq<Encrypted>) {
    |s| == |t| && forall e :: e in s <==> e in t
  }

  lemma {:induction false} InsertByIdAscending(e: Encrypted, s: seq<Encrypted>)
    requires Ascending(s)
    requires forall i :: 0 <= i < |s| ==> s[i].id != e.id
    ensures Ascending(InsertById(e, s))
  {
    if s != [] && s[0].id <= e.id {
      InsertByIdAscending(e, s[1..]);
      var t := InsertById(e, s[1..]);
      InsertByIdMultiset(e, s[1..]);
      forall k | 0 <= k < |t|
        ensures s[0].id < t[k].id
      {
        assert t[k] in multiset(t);
        assert t[k] == e || t[k] in s[1..];
      }
    }
  }

  lemma {:induction false} SortByIdAscending(records: seq<Encrypted>)
    requires Distinct(records)
    ensures Ascending(SortById(records))
  {
    if records != [] {
      var last := |records| - 1;
      var rest := SortById(records[..last]);
      SortByIdAscending(records[..last]);
      SortByIdMultiset(records[..last]);
      forall i | 0 <= i < |rest|
        ensures rest[i].id != records[last].id
      {
        assert rest[i] in multiset(records[..last]);
      }
      InsertByIdAscending(records[last], rest);
    }
  }

  lemma {:induction false} AscendingUnique(s: seq<Encrypted>, t: seq<Encrypted>)
    requires Ascending(s) && Ascending(t) && SameRecords(s, t)
    ensures s == t
  {
    if s != [] {
      assert s[0] in t && t[0] in s;
      assert s[0] == t[0];
      forall e
        ensures e in s[1..] <==> e in t[1..]
      {
        assert e in s[1..] <==> e in s && e != s[0];
        assert e in t[1..] <==> e in t && e != t[0];
      }
      AscendingUnique(s[1..], t[1..]);
    }
  }

  /** The digest and recordsMatch see which records there are, and nothing of their listing order. */
  lemma RecordsMatchIsSameRecords(left: seq<Encrypted>, right: seq<Encrypted>)
    requires Distinct(left) && Distinct(right)
    ensures RecordsMatch(left, right) <==> SameRecords(left, right)
    ensures EncryptedRecordsDigest(left) == EncryptedRecordsDigest(right) <==> SameRecords(left, right)
  {
    SortByIdMultiset(left);
    SortByIdMultiset(right);
    forall e
      ensures e in left <==> e in SortById(left)
      ensures e in right <==> e in SortById(right)
    {
      assert e in left <==> e in multiset(SortById(left));
      assert e in right <==> e in multiset(SortById(right));
    }
    assert |multiset(left)| == |left| && |multiset(right)| == |right|;
    if SameRecords(left, right) {
      SortByIdAscending(left);
      SortByIdAscending(right);
      AscendingUnique(SortById(left), SortById(right));
    }
  }

  /** A match or an equal digest gives equal collections even without distinct ids. */
  lemma DigestBinds(left: seq<Encrypted>, right: seq<Encrypted>)
    requires EncryptedRecordsDigest(left) == EncryptedRecordsDigest(right)
    ensures multiset(left) == multiset(right)
  {
    SortByIdMultiset(left);
    SortByIdMultiset(right);
  }

  // Maps filled from a list of records with distinct ids.

  lemma {:induction false} PutFresh(records: seq<Encrypted>, e: Encrypted)
    requires forall i :: 0 <= i < |records| ==> records[i].id != e.id
    ensures Put(records, e) == records + [e]
  {
    if records != [] {
      PutFresh(records[1..], e);
    }
  }

  lemma {:induction false} PutAllDistinct(added: seq<Encrypted>)
    requires Distinct(added)
    ensures PutAll([], added) == added
  {
    if added != [] {
      var last := |added| - 1;
      PutAllDistinct(added[..last]);
      PutFresh(added[..last], added[last]);
      assert added == added[..last] + [added[last]];
    }
  }

  lemma TwiceInMultiset(s: seq<Encrypted>, i: nat, j: nat)
    requires i < j < |s| && s[i] == s[j]
    ensures multiset(s)[s[i]] >= 2
  {
    assert s == s[..i] + [s[i]] + s[i + 1..j] + [s[j]] + s[j + 1..];
  }

  lemma OnceInMultiset(s: seq<Encrypted>, i: nat)
    requires Distinct(s) && i < |s|
    ensures multiset(s)[s[i]] == 1
  {
    assert s == s[..i] + [s[i]] + s[i + 1..];
    assert s[i] !in s[..i] && s[i] !in s[i + 1..];
  }

  lemma DistinctReordered(s: seq<Encrypted>, t: seq<Encrypted>)
    requires Distinct(s) && multiset(s) == multiset(t)
    ensures Distinct(t)
  {
    forall i, j | 0 <= i < j < |t|
      ensures t[i].id != t[j].id
    {
      assert t[i] in multiset(s) && t[j] in multiset(s);
      var a :| 0 <= a < |s| && s[a] == t[i];
      var b :| 0 <= b < |s| && s[b] == t[j];
      if a == b {
        TwiceInMultiset(t, i, j);
        OnceInMultiset(s, a);
      }
    }
  }

  // Commit and rollback.

  /** Compare-and-swap: a commit goes through exactly when no migration is pending and the active
      header and records are still the ones it was prepared from. */
  lemma CommitOnlyOverItsSource(s: Store, m: Commit)
    requires Distinct(s.records)
    ensures CommitMigration(s, m).Some? <==>
            s.state.None? && s.header == Some(m.sourceHeader)
            && Distinct(m.sourceRecords) && SameRecords(s.records, m.sourceRecords)
  {
    if CommitMigration(s, m).Some? {
      DigestBinds(s.records, m.sourceRecords);
      DistinctReordered(s.records, m.sourceRecords);
    }
    if Distinct(m.sourceRecords) {
      RecordsMatchIsSameRecords(s.records, m.sourceRecords);
    }
  }

  /** Whatever id and backup the caller brings, restoring after a commit gives the records and
      header from before the commit and no migration, or changes nothing at all. */
  lemma RestoreIsExact(s: Store, m: Commit, migrationId: nat, backup: Backup)
    requires Distinct(s.records) && CommitMigration(s, m).Some?
    ensures var restored := RollbackMigration(CommitMigration(s, m).value, migrationId, backup);
            restored.Some? ==>
              && restored.value.header == s.header
              && SameRecords(restored.value.records, s.records)
              && (m.sourceRecords == s.records ==> restored.value.records == s.records)
              && restored.value.state == None
  {
    CommitOnlyOverItsSource(s, m);
    PutAllDistinct(m.sourceRecords);
  }

  /** The backup read right after a commit undoes it, when the commit counted its records right. */
  lemma RollbackUndoesCommit(s: Store, m: Commit)
    requires Distinct(s.records) && s.sourceHeader.None? && s.sourceRecords == []
    requires CommitMigration(s, m).Some? && m.sourceRecords == s.records
    ensures var committed := CommitMigration(s, m).value;
            var backup := GetMigrationBackup(committed, m.state.id);
            backup.Some? &&
            (RollbackMigration(committed, m.state.id, backup.value) == Some(s) <==>
             m.state.sourceRecordCount == |s.records|)
  {
    PutAllDistinct(s.records);
  }
}
