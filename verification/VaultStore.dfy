/** The encrypted store seen as the plaintext records it holds: encrypting and storing, and deleting,
    are map operations on the plaintext (packages/memory/src/crypto.ts, storage.ts and the decrypt
    loop of vault.ts). */
module VaultStore {
  import opened Prelude
  import opened Records
  import opened Storage
  import opened VaultGraph
  import Migration

  // The plaintext of a store.

  ghost predicate Readable(key: Key, disk: seq<Encrypted>) {
    && Distinct(disk)
    && forall i :: 0 <= i < |disk| ==>
         disk[i].version == CURRENT_SCHEMA && Decrypt(key, disk[i]).Some?
  }

  ghost function View(key: Key, disk: seq<Encrypted>): Graph {
    if disk == [] then map[]
    else
      var plain := Decrypt(key, disk[0]);
      var rest := View(key, disk[1..]);
      if plain.Some? then rest[disk[0].id := plain.value.body] else rest
  }

  function Sealing(key: Key, added: seq<(Id, Body)>, seeds: nat -> Seed): (sealed: seq<Encrypted>)
    ensures |sealed| == |added|
    ensures forall i :: 0 <= i < |added| ==>
              sealed[i] == Encrypt(key, Record(CURRENT_SCHEMA, added[i].0, added[i].1), seeds(i))
  {
    seq(|added|, i requires 0 <= i < |added| =>
      Encrypt(key, Record(CURRENT_SCHEMA, added[i].0, added[i].1), seeds(i)))
  }

  function Without(disk: seq<Encrypted>, ids: set<Id>): seq<Encrypted> {
    if disk == [] then []
    else if disk[0].id in ids then Without(disk[1..], ids)
    else [disk[0]] + Without(disk[1..], ids)
  }

  lemma {:induction false} ViewKeys(key: Key, disk: seq<Encrypted>, id: Id)
    requires Readable(key, disk)
    ensures id in View(key, disk) <==> exists i :: 0 <= i < |disk| && disk[i].id == id
  {
    if disk != [] {
      ViewKeys(key, disk[1..], id);
      if i :| 0 <= i < |disk| && disk[i].id == id && i > 0 {
        assert disk[1..][i - 1].id == id;
      }
    }
  }

  lemma {:induction false} PutIds(disk: seq<Encrypted>, e: Encrypted, i: nat)
    requires i < |Put(disk, e)|
    ensures Put(disk, e)[i] == e || (i < |disk| && Put(disk, e)[i] == disk[i])
    ensures i < |disk| ==> Put(disk, e)[i].id == disk[i].id
    ensures i >= |disk| ==> i == |disk| && Put(disk, e)[i] == e && forall j :: 0 <= j < |disk| ==> disk[j].id != e.id
  {
    if disk != [] && disk[0].id != e.id && i > 0 {
      PutIds(disk[1..], e, i - 1);
    }
  }

  lemma PutReadable(key: Key, disk: seq<Encrypted>, e: Encrypted)
    requires Readable(key, disk) && e.version == CURRENT_SCHEMA && Decrypt(key, e).Some?
    ensures Readable(key, Put(disk, e))
  {
    var put := Put(disk, e);
    forall i | 0 <= i < |put|
      ensures put[i].version == CURRENT_SCHEMA && Decrypt(key, put[i]).Some?
    {
      PutIds(disk, e, i);
    }
    forall i, j | 0 <= i < j < |put|
      ensures put[i].id != put[j].id
    {
      PutIds(disk, e, i);
      PutIds(disk, e, j);
    }
  }

  lemma {:induction false} PutView(key: Key, disk: seq<Encrypted>, e: Encrypted)
    requires Readable(key, disk) && e.version == CURRENT_SCHEMA && Decrypt(key, e).Some?
    ensures View(key, Put(disk, e)) == View(key, disk)[e.id := Decrypt(key, e).value.body]
  {
    if disk != [] {
      if disk[0].id == e.id {
        assert ([e] + disk[1..])[1..] == disk[1..];
      } else {
        PutView(key, disk[1..], e);
        assert Put(disk, e)[1..] == Put(disk[1..], e);
      }
    }
  }

  lemma SealingAt(key: Key, added: seq<(Id, Body)>, seeds: nat -> Seed, i: nat)
    requires i < |added|
    ensures var e := Sealing(key, added, seeds)[i];
            e.version == CURRENT_SCHEMA && e.id == added[i].0
            && Decrypt(key, e) == Some(Record(CURRENT_SCHEMA, added[i].0, added[i].1))
  {
  }

  /** Encrypting records and storing them is Map.set on the plaintext. */
  lemma {:induction false} StoringIsExtending(key: Key, disk: seq<Encrypted>, added: seq<(Id, Body)>, seeds: nat -> Seed)
    requires Readable(key, disk)
    ensures var disk' := PutAll(disk, Sealing(key, added, seeds));
            Readable(key, disk') && View(key, disk') == Extend(View(key, disk), added)
  {
    if added != [] {
      var last := |added| - 1;
      StoringIsExtending(key, disk, added[..last], seeds);
      assert Sealing(key, added, seeds)[..last] == Sealing(key, added[..last], seeds);
      var before := PutAll(disk, Sealing(key, added[..last], seeds));
      var e := Sealing(key, added, seeds)[last];
      SealingAt(key, added, seeds, last);
      PutReadable(key, before, e);
      PutView(key, before, e);
    }
  }

  lemma {:induction false} WithoutIds(disk: seq<Encrypted>, ids: set<Id>, e: Encrypted)
    ensures e in Without(disk, ids) <==> e in disk && e.id !in ids
  {
    if disk != [] {
      WithoutIds(disk[1..], ids, e);
    }
  }

  lemma {:induction false} WithoutReadable(key: Key, disk: seq<Encrypted>, ids: set<Id>)
    requires Readable(key, disk)
    ensures Readable(key, Without(disk, ids))
  {
    if disk != [] {
      WithoutReadable(key, disk[1..], ids);
      var rest := Without(disk[1..], ids);
      forall i | 0 <= i < |rest|
        ensures rest[i].id != disk[0].id
      {
        WithoutIds(disk[1..], ids, rest[i]);
      }
    }
  }

  /** Deleting stored records is Map.delete on the plaintext. */
  lemma {:induction false} RemovingIsForgetting(key: Key, disk: seq<Encrypted>, ids: set<Id>)
    requires Readable(key, disk)
    ensures Readable(key, Without(disk, ids))
    ensures View(key, Without(disk, ids)) == View(key, disk) - ids
  {
    WithoutReadable(key, disk, ids);
    if disk != [] {
      RemovingIsForgetting(key, disk[1..], ids);
      ViewKeys(key, disk[1..], disk[0].id);
      if disk[0].id !in ids {
        assert Without(disk, ids)[1..] == Without(disk[1..], ids);
      }
    }
  }

  function IdSet(ids: seq<Id>): set<Id> {
    set id | id in ids
  }

  /** deleteRecords, one id after the other, removes exactly the records with those ids. */
  lemma {:induction false} RemoveAllIsWithout(disk: seq<Encrypted>, ids: seq<Id>)
    requires Distinct(disk)
    ensures RemoveAll(disk, ids) == Without(disk, IdSet(ids))
  {
    if ids == [] {
      KeepAll(disk, IdSet(ids));
    } else {
      var rest, last := ids[..|ids| - 1], ids[|ids| - 1];
      RemoveAllIsWithout(disk, rest);
      assert ids == rest + [last];
      assert IdSet(ids) == IdSet(rest) + {last};
      RemoveFromWithout(disk, IdSet(rest), last);
    }
  }

  lemma {:induction false} KeepAll(disk: seq<Encrypted>, ids: set<Id>)
    requires ids == {}
    ensures Without(disk, ids) == disk
  {
    if disk != [] {
      KeepAll(disk[1..], ids);
    }
  }

  lemma {:induction false} RemoveAbsent(disk: seq<Encrypted>, id: Id)
    requires forall i :: 0 <= i < |disk| ==> disk[i].id != id
    ensures Remove(disk, id) == disk
  {
    if disk != [] {
      RemoveAbsent(disk[1..], id);
    }
  }

  lemma {:induction false} RemoveFromWithout(disk: seq<Encrypted>, ids: set<Id>, id: Id)
    requires Distinct(disk)
    ensures Remove(Without(disk, ids), id) == Without(disk, ids + {id})
  {
    if disk != [] {
      RemoveFromWithout(disk[1..], ids, id);
      if disk[0].id == id && id !in ids {
        var rest := Without(disk[1..], ids);
        forall i | 0 <= i < |rest|
          ensures rest[i].id != id
        {
          WithoutIds(disk[1..], ids, rest[i]);
        }
        RemoveAbsent(rest, id);
        assert Without(disk, ids)[1..] == rest;
      } else if disk[0].id !in ids {
        assert Without(disk, ids)[1..] == Without(disk[1..], ids);
      }
    }
  }

  function Pairs(records: seq<Record>): seq<(Id, Body)> {
    seq(|records|, i requires 0 <= i < |records| => (records[i].id, records[i].body))
  }

  lemma {:induction false} ViewSnoc(key: Key, disk: seq<Encrypted>)
    requires Readable(key, disk) && disk != []
    ensures var last := disk[|disk| - 1];
            View(key, disk) == View(key, disk[..|disk| - 1])[last.id := Decrypt(key, last).value.body]
  {
    var last := |disk| - 1;
    if last > 0 {
      ViewSnoc(key, disk[1..]);
      assert disk[1..][..last - 1] == disk[..last][1..];
      assert disk[1..][|disk[1..]| - 1] == disk[last];
    }
  }

  /** #unlock decrypts the stored records one after the other and fills its map from them. */
  lemma {:induction false} LoadingIsViewing(key: Key, disk: seq<Encrypted>)
    requires Readable(key, disk)
    ensures Migration.DecryptAll(key, disk).Some?
    ensures Extend(map[], Pairs(Migration.DecryptAll(key, disk).value)) == View(key, disk)
  {
    if disk != [] {
      var last := |disk| - 1;
      LoadingIsViewing(key, disk[..last]);
      ViewSnoc(key, disk);
      var rest, all := Migration.DecryptAll(key, disk[..last]).value, Migration.DecryptAll(key, disk).value;
      assert Pairs(all)[..|all| - 1] == Pairs(rest);
      assert Decrypt(key, disk[last]).value.id == disk[last].id;
    }
  }
}
