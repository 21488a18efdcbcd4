/** The persistent database behind lib/indexedDb.ts as a mutable object. Each
    exported function of that file is a method that opens the database first
    (`initDB`) and then changes the fields in place; every method's new state
    is the value the matching IndexedDb function gives. */
module RecordingStore {
  import opened IndexedDb

  class RecordingsDb {
    var version: nat
    var hasStore: bool
    var records: map<int, Recording>
    /** The key generator's current number: hidden mutable state of the object store. */
    var current: int

    /** The database as a value. */
    function State(): Db
      reads this
    {
      Db(version, hasStore, records, current)
    }

    ghost predicate Valid()
      reads this
    {
      WellFormed(State())
    }

    /** A database that the browser has not yet created. */
    constructor ()
      ensures Valid() && State() == Unopened
    {
      version, hasStore, records, current := 0, false, map[], 1;
    }

    /** `initDB` (lib/indexedDb.ts:14-22). */
    method InitDB()
      requires Valid()
      modifies this
      ensures Valid() && State() == Open(old(State()))
      ensures old(hasStore) ==> State() == old(State())
    {
      if version < SchemaVersion {
        if !hasStore {
          hasStore := true;
          records := map[];
          current := 1;
        }
        version := SchemaVersion;
      }
    }

    /** `saveRecordingToDB` (lib/indexedDb.ts:24-28): `db.add` with a generated key. */
    method SaveRecording(d: Draft) returns (res: SaveResult)
      requires Valid()
      modifies this
      ensures Valid() && (State(), res) == Add(old(State()), d)
      ensures res.Saved? ==> res.id !in old(records) && records == old(records)[res.id := WithKey(d, res.id)]
    {
      InitDB();
      var key := current;
      if key > MaxGeneratedKey {
        res := Rejected(KeyGeneratorExhausted);
      } else if key in records {
        res := Rejected(KeyAlreadyExists);
      } else {
        records := records[key := WithKey(d, key)];
        current := key + 1;
        res := Saved(key);
      }
    }

    /** `getAllRecordingsFromDB` (lib/indexedDb.ts:30-33): opening may create the
        schema, but no record and no key changes. */
    method GetAllRecordings() returns (rs: seq<Recording>)
      requires Valid()
      modifies this
      ensures Valid() && State() == Open(old(State()))
      ensures records == old(records) && current == old(current)
      ensures rs == GetAll(old(State()))
    {
      InitDB();
      rs := InKeyOrder(records, 1, current);
    }

    /** `deleteRecordingFromDB` (lib/indexedDb.ts:35-38). */
    method DeleteRecording(id: int)
      requires Valid()
      modifies this
      ensures Valid() && State() == Delete(old(State()), id)
      ensures records == old(records) - {id} && current == old(current)
    {
      InitDB();
      records := records - {id};
    }
  }
}
