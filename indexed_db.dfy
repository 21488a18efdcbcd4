/** The local recording store of lib/indexedDb.ts, as a value: one database
    "recordings-db" at schema version 1 holding one object store "recordings"
    whose in-line key path is "id" and whose keys come from a key generator
    (section 2.11 of the W3C Indexed Database API 3.0). */
module IndexedDb {

  /** The audio payload (a Blob in the browser); its bytes are never inspected. */
  datatype Audio = Audio(bytes: seq<bv8>)

  /** The moment a recording was finalised. The store keeps its ISO-8601 text
      and the page a Date; both stand for the same instant, kept here as one value. */
  datatype Instant = Instant(millis: int)

  /** What `saveRecordingToDB` is given: a recording without its `id`. */
  datatype Draft = Draft(recordingName: string, blob: Audio, createdAt: Instant)

  /** A stored recording: a draft plus the key the store injected at "id". */
  datatype Recording = Recording(id: int, recordingName: string, blob: Audio, createdAt: Instant)

  /** The key path "id" written into a draft. */
  function WithKey(d: Draft, key: int): (r: Recording)
    ensures r.id == key && Strip(r) == d
  {
    Recording(key, d.recordingName, d.blob, d.createdAt)
  }

  /** Every field of a recording except its "id". */
  function Strip(r: Recording): Draft {
    Draft(r.recordingName, r.blob, r.createdAt)
  }

  /** The version passed to `openDB`. */
  const SchemaVersion := 1

  /** A key generator whose current number is above 2^53 can issue no more keys. */
  const MaxGeneratedKey := 9007199254740992

  /** The database: its version, whether the object store exists, the records
      by key, and the key generator's current number. */
  datatype Db = Db(version: nat, hasStore: bool, records: map<int, Recording>, current: int)

  /** A database that has never been opened. */
  const Unopened := Db(0, false, map[], 1)

  /** The store invariant: the object store exists exactly at version 1; every
      record sits under its own "id"; every key was issued by the generator,
      so it lies in 1 .. current - 1. */
  predicate WellFormed(db: Db) {
    && db.version <= SchemaVersion
    && db.hasStore == (db.version == SchemaVersion)
    && (!db.hasStore ==> db.records == map[] && db.current == 1)
    && 1 <= db.current
    && (forall k | k in db.records :: 1 <= k < db.current && db.records[k].id == k)
  }

  /** `initDB`: opening at version 1 runs the upgrade callback only when the
      stored version is older, and the callback creates the object store only
      if it is missing. An existing store is left exactly as it was. */
  function Open(db: Db): (r: Db)
    requires WellFormed(db)
    ensures WellFormed(r) && r.hasStore && r.version == SchemaVersion
    ensures r.records == db.records && r.current == db.current
    ensures db.hasStore ==> r == db
  {
    if db.version < SchemaVersion then
      var upgraded :=
        if !db.hasStore then db.(hasStore := true, records := map[], current := 1) else db;
      upgraded.(version := SchemaVersion)
    else
      db
  }

  /** Why `db.add` can reject: the key generator is used up, or a record with the
      generated key exists already (both a ConstraintError in the browser). */
  datatype AddError = KeyGeneratorExhausted | KeyAlreadyExists

  /** What `saveRecordingToDB` resolves to: the generated key, or the rejection. */
  datatype SaveResult = Saved(id: int) | Rejected(error: AddError)

  /** `saveRecordingToDB`: open the database, take the generator's current number
      as the key, refuse it above 2^53, refuse it if taken (`add` never
      overwrites), and otherwise store the draft under it and advance the
      generator. A rejected request aborts its transaction, so nothing changes. */
  function Add(db: Db, d: Draft): (r: (Db, SaveResult))
    requires WellFormed(db)
    ensures WellFormed(r.0)
    ensures r.1.Saved? ==>
      && r.1.id !in db.records
      && (forall k | k in db.records :: k < r.1.id)
      && r.0.records == db.records[r.1.id := WithKey(d, r.1.id)]
      && r.1.id == db.current && r.0.current == r.1.id + 1
    ensures r.1.Rejected? <==> db.current > MaxGeneratedKey
    ensures r.1.Rejected? ==> r.0 == Open(db) && r.1.error == KeyGeneratorExhausted
  {
    var s := Open(db);
    var key := s.current;
    if key > MaxGeneratedKey then
      (s, Rejected(KeyGeneratorExhausted))
    else if key in s.records then
      (s, Rejected(KeyAlreadyExists))
    else
      (s.(records := s.records[key := WithKey(d, key)], current := key + 1), Saved(key))
  }

  /** The records whose keys lie in lo .. hi - 1, in ascending key order. */
  function InKeyOrder(records: map<int, Recording>, lo: int, hi: int): (rs: seq<Recording>)
    requires forall k | k in records :: records[k].id == k
    ensures forall i | 0 <= i < |rs| :: lo <= rs[i].id < hi && rs[i].id in records && records[rs[i].id] == rs[i]
    ensures forall k | k in records && lo <= k < hi :: records[k] in rs
    ensures forall i, j | 0 <= i < j < |rs| :: rs[i].id < rs[j].id
    decreases hi - lo
  {
    if lo >= hi then []
    else (if lo in records then [records[lo]] else []) + InKeyOrder(records, lo + 1, hi)
  }

  /** `getAllRecordingsFromDB`: every stored record exactly once, in ascending key order. */
  function GetAll(db: Db): (rs: seq<Recording>)
    requires WellFormed(db)
    ensures forall i | 0 <= i < |rs| :: rs[i].id in db.records && db.records[rs[i].id] == rs[i]
    ensures forall k | k in db.records :: db.records[k] in rs
    ensures forall i, j | 0 <= i < j < |rs| :: rs[i].id < rs[j].id
  {
    var s := Open(db);
    InKeyOrder(s.records, 1, s.current)
  }

  /** `deleteRecordingFromDB`: open the database and remove the record under `id`,
      if any. The key generator is not wound back. */
  function Delete(db: Db, id: int): (r: Db)
    requires WellFormed(db)
    ensures WellFormed(r) && r.current == db.current
    ensures id !in r.records
    ensures forall k | k in db.records && k != id :: k in r.records && r.records[k] == db.records[k]
    ensures forall k | k in r.records :: k in db.records
    ensures id !in db.records ==> r == Open(db)
  {
    var s := Open(db);
    s.(records := s.records - {id})
  }

  /** Opening twice is opening once: the schema is neither reset nor duplicated. */
  lemma OpenIdempotent(db: Db)
    requires WellFormed(db)
    ensures Open(Open(db)) == Open(db)
    ensures db.hasStore ==> Open(db) == db
  {
  }

  /** Round trip: after a save, getAll holds a record equal to the draft in every
      field but "id", and that "id" is the key the save returned. */
  lemma SaveThenGetAll(db: Db, d: Draft)
    requires WellFormed(db)
    ensures var (db', res) := Add(db, d);
      res.Saved? ==> exists i | 0 <= i < |GetAll(db')| :: GetAll(db')[i].id == res.id && Strip(GetAll(db')[i]) == d
  {
    var (db', res) := Add(db, d);
    if res.Saved? {
      var rs := GetAll(db');
      assert db'.records[res.id] == WithKey(d, res.id);
      assert WithKey(d, res.id) in rs;
      var i :| 0 <= i < |rs| && rs[i] == WithKey(d, res.id);
      assert rs[i].id == res.id && Strip(rs[i]) == d;
    }
  }

  /** Deleting twice is deleting once, and the key is absent from getAll afterwards. */
  lemma DeleteIdempotent(db: Db, id: int)
    requires WellFormed(db)
    ensures Delete(Delete(db, id), id) == Delete(db, id)
    ensures forall i | 0 <= i < |GetAll(Delete(db, id))| :: GetAll(Delete(db, id))[i].id != id
  {
  }

  /** One request against the store. */
  datatype Request = SaveRequest(d: Draft) | DeleteRequest(id: int) | OpenRequest

  /** Replays requests in order; returns the final database and the keys the
      saves returned, in order. */
  function Replay(db: Db, reqs: seq<Request>): (r: (Db, seq<int>))
    requires WellFormed(db)
    ensures WellFormed(r.0) && db.current <= r.0.current
    decreases |reqs|
  {
    if reqs == [] then (db, [])
    else
      match reqs[0]
      case SaveRequest(d) =>
        var (db', res) := Add(db, d);
        var (end, keys) := Replay(db', reqs[1..]);
        (end, if res.Saved? then [res.id] + keys else keys)
      case DeleteRequest(id) => Replay(Delete(db, id), reqs[1..])
      case OpenRequest => Replay(Open(db), reqs[1..])
  }

  /** The keys strictly increase and all lie in lo .. hi - 1. */
  predicate IssuedInOrder(lo: int, keys: seq<int>, hi: int) {
    && (forall i, j | 0 <= i < j < |keys| :: keys[i] < keys[j])
    && (forall i | 0 <= i < |keys| :: lo <= keys[i] < hi)
  }

  /** The key generator across any run of saves, deletes and opens: the keys handed
      out strictly increase, each lies above every key that existed before the
      run (deleted ones included), so no key is ever handed out twice. */
  lemma {:induction false} KeysNeverReused(db: Db, reqs: seq<Request>)
    requires WellFormed(db)
    ensures IssuedInOrder(db.current, Replay(db, reqs).1, Replay(db, reqs).0.current)
    decreases |reqs|
  {
    if reqs != [] {
      match reqs[0]
      case SaveRequest(d) =>
        var (db', res) := Add(db, d);
        KeysNeverReused(db', reqs[1..]);
        var rest := Replay(db', reqs[1..]);
        if res.Saved? {
          assert Replay(db, reqs) == (rest.0, [res.id] + rest.1);
        } else {
          assert Replay(db, reqs) == rest;
        }
      case DeleteRequest(id) =>
        KeysNeverReused(Delete(db, id), reqs[1..]);
        assert Replay(db, reqs) == Replay(Delete(db, id), reqs[1..]);
      case OpenRequest =>
        KeysNeverReused(Open(db), reqs[1..]);
        assert Replay(db, reqs) == Replay(Open(db), reqs[1..]);
    }
  }

  /** Three saves into a new database, then deleting the second by its key:
      getAll yields exactly the first and the third, unchanged. */
  lemma ThreeSavesDeleteMiddle(a: Draft, b: Draft, c: Draft)
    ensures
      var (db1, r1) := Add(Unopened, a);
      var (db2, r2) := Add(db1, b);
      var (db3, r3) := Add(db2, c);
      && r1 == Saved(1) && r2 == Saved(2) && r3 == Saved(3)
      && GetAll(Delete(db3, 2)) == [WithKey(a, 1), WithKey(c, 3)]
  {
    var (db1, r1) := Add(Unopened, a);
    var (db2, r2) := Add(db1, b);
    var (db3, r3) := Add(db2, c);
    var db4 := Delete(db3, 2);
    assert db4.records == map[1 := WithKey(a, 1), 3 := WithKey(c, 3)];
    assert db4.current == 4;
    calc {
      GetAll(db4);
      InKeyOrder(db4.records, 1, 4);
      [WithKey(a, 1)] + InKeyOrder(db4.records, 2, 4);
      [WithKey(a, 1)] + InKeyOrder(db4.records, 3, 4);
      [WithKey(a, 1)] + [WithKey(c, 3)] + InKeyOrder(db4.records, 4, 4);
    }
  }
}
