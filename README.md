# Echo voice memos: a verified model of the recording session and its store

Echo is a single-page voice-memo app. Tapping the round button starts a
microphone recording. A countdown of 180 seconds runs while it records, and
the recording stops when the countdown ends or the button is tapped again.
The recorder's stop handler saves the clip to an IndexedDB object store
whose keys come from an auto-increment key generator. Only after the save
does it append the clip, with the key the store returned, to the list on the
page. The delete icon removes an entry from the store and from the list.

The model has four modules:

- `IndexedDb` (indexed_db.dfy) holds the database as a value. `Open` stands
  for `initDB`, `Add` for `saveRecordingToDB`, `GetAll` for
  `getAllRecordingsFromDB` and `Delete` for `deleteRecordingFromDB`. The key
  generator follows section 2.11 (Key generators) of the W3C Indexed Database
  API 3.0. Its current number starts at 1, the next key is the current
  number, and the number then goes up by one. A deletion never winds it back.
  Once it is above 2^53 (9007199254740992), every later `add` is rejected.
  `getAll` returns the records in ascending key order, as IndexedDB retrieves
  them.
- `RecordingStore` (recording_store.dfy) holds the class `RecordingsDb`.
  Its fields are the version, whether the object store exists, the records by
  key and the generator's current number. Each method calls `InitDB` and then
  changes the fields in place, and its new state is the matching `IndexedDb`
  function of the old one.
- `Session` (session.dfy) holds the page's state as a value: `isRecording`,
  `timer`, the `mediaRecorder` cell, the stop events still due, the
  `recordings` list and the store. Each event is one atomic step on that
  value: start, stop, a second elapsing, the recorder's stop handler, delete
  and the mount-time load. The invariant and the properties are lemmas over
  these steps.
- `HomePage` (home_page.dfy) holds the class `Controller`. Its real fields are
  the page's state cells, and a `RecordingsDb` object is its store. Two ghost
  fields track the stop events the browser has not yet delivered and whether
  the mount-time load has run. Each handler's new state is the matching
  `Session` function of the old one, and each handler keeps `Valid()`.

The browser primitives become inputs. Whether the try block of
`startRecording` completed is a boolean. That block covers `getUserMedia`,
`new MediaRecorder` and `recorder.start()`. The audio payload is an opaque
`Audio` value, and the finalisation instant and its locale text are given by
the caller.

## Model

| member | source | states |
|---|---|---|
| `IndexedDb.Open` | lib/indexedDb.ts:14-22 | Opening at version 1 leaves the database with an object store at version 1 and with its records and key generator as before. A database that already had the store is returned unchanged. |
| `IndexedDb.OpenIdempotent` | lib/indexedDb.ts:14-21 | Opening twice equals opening once, so repeated `initDB` calls neither reset nor duplicate the store. |
| `IndexedDb.Add` | lib/indexedDb.ts:18-28 | A save returns the generator's current number as its key. That key is absent from the store and above every stored key. The record stored under it is the draft plus that `id`, every other record is unchanged, and the generator moves past the key. The save is rejected exactly when the generator is above 2^53, and then nothing changes. A key collision is proved never to occur. |
| `IndexedDb.InKeyOrder` | lib/indexedDb.ts:30-33 | Returns the records with keys in the given range, each exactly once, as stored, in strictly ascending key order. |
| `IndexedDb.GetAll` | lib/indexedDb.ts:30-33 | Returns exactly the stored records, each as stored and once, in ascending key order. |
| `IndexedDb.Delete` | lib/indexedDb.ts:35-38 | The id is then absent and every other record is unchanged. Nothing is added and the key generator is not wound back. Deleting an absent id changes nothing beyond opening. |
| `IndexedDb.SaveThenGetAll` | lib/indexedDb.ts:24-33 | After a successful save, `getAll` contains a record with the returned id that equals the draft in every other field. |
| `IndexedDb.DeleteIdempotent` | lib/indexedDb.ts:35-38 | Deleting twice equals deleting once, and afterwards `getAll` holds no record with that id. |
| `IndexedDb.Replay` | lib/indexedDb.ts:14-38 | Any run of saves, deletes and opens keeps the store well formed and never lowers the key generator. |
| `IndexedDb.KeysNeverReused` | lib/indexedDb.ts:18 | Across any run of saves, deletes and opens, the returned keys strictly increase. Each lies at or above the generator's starting value and below its final value, so no key is issued twice, even after a delete. |
| `IndexedDb.ThreeSavesDeleteMiddle` | lib/indexedDb.ts:24-38 | Three saves into a new database receive keys 1, 2 and 3. After deleting key 2, `getAll` is exactly the first and third records, unchanged. |
| `RecordingStore.RecordingsDb.constructor` | lib/indexedDb.ts:11-12 | A database the browser has not created yet: version 0, no object store. |
| `RecordingStore.RecordingsDb.InitDB` | lib/indexedDb.ts:14-22 | The new state is `Open` of the old state. An existing store is left untouched. |
| `RecordingStore.RecordingsDb.SaveRecording` | lib/indexedDb.ts:24-28 | The new state and the result are those of `Add`. A saved draft lies under a key that was absent before. |
| `RecordingStore.RecordingsDb.GetAllRecordings` | lib/indexedDb.ts:30-33 | Returns `GetAll` of the old state and changes no record and no key. |
| `RecordingStore.RecordingsDb.DeleteRecording` | lib/indexedDb.ts:35-38 | The new state is `Delete` of the old state: only that key is removed, and the generator is unchanged. |
| `Session.Mount` | app/page.tsx:20-23 | The first render is not recording, has the timer at 180, an empty list, no recorder, no stop event due and the list not yet loaded. |
| `Session.Start` | app/page.tsx:64-95 | When the try block completes, the result is recording with the timer at exactly 180 and a capturing recorder. The list, the store and the due stop events are unchanged. When any step of the block throws, nothing changes. |
| `Session.Stop` | app/page.tsx:97-103 | Always ends not recording with the timer at 180. A capturing recorder becomes inactive and its stop event becomes due. Any other recorder state is kept. The list and store are unchanged. |
| `Session.Tick` | app/page.tsx:48-62 | While recording, a second lowers the timer by exactly 1. At 1 it becomes `Stop` of the state, the same path as a manual stop. Not recording, or with the timer at 0, nothing is scheduled and nothing changes. |
| `Session.OnStop` | app/page.tsx:72-86 | The draft is saved first. On success the list becomes the old list plus exactly one entry at the end, carrying the key the save returned. On a rejected save the list is unchanged. The session fields are untouched. |
| `Session.DeleteAt` | app/page.tsx:105-112 | For an index in range, the list loses exactly that position and the store loses that entry's id. An out-of-range index changes nothing. |
| `Session.Load` | app/page.tsx:34-46 | The list becomes `getAll` of the store, and the session fields are untouched. |
| `Session.Tap` | app/page.tsx:213-216 | The button stops while recording and starts otherwise. |
| `Session.TapNeverOrphansRecorder` | app/page.tsx:213-216 | In a settled render with a capturing recorder, a tap is exactly a stop, so such a tap never starts over the running recorder. |
| `Session.StartOverCapturingRecorder` | app/page.tsx:64-95 | `startRecording` has no guard. A completed start over a capturing recorder installs a new capturing recorder and makes no stop event due for the one it replaces. |
| `Session.StopWhileIdleIsNoop` | app/page.tsx:97-103 | A stop while no session runs changes nothing. |
| `Session.Step` | app/page.tsx:34-112 | Every event keeps the store well formed. |
| `Session.Run` | app/page.tsx:34-112 | Every run of events keeps the store well formed. |
| `Session.IdsAppend` | app/page.tsx:79-82 | Appending an entry adds exactly its id to the list's ids. |
| `Session.IdsRemoveAt` | app/page.tsx:111 | Filtering out one index of a list with distinct ids keeps the ids distinct and removes exactly that entry's id. |
| `Session.IdsOfGetAll` | app/page.tsx:36-42 | The loaded list has distinct ids, mirrors the store, and shows every stored key. |
| `Session.MountSatisfiesInv` | app/page.tsx:20-23 | The first render satisfies the invariant. |
| `Session.StartKeepsInv` | app/page.tsx:88-94 | Start keeps the invariant. |
| `Session.StopKeepsInv` | app/page.tsx:97-103 | Stop turns any consistent state into one that satisfies the invariant. This includes the render where the countdown has just reached 0. |
| `Session.TickKeepsInv` | app/page.tsx:48-62 | A second keeps the timer in 0..180 and the invariant. |
| `Session.OnStopKeepsInv` | app/page.tsx:72-86 | The stop handler keeps the list's ids distinct and in the store, and keeps a loaded list equal to the store. |
| `Session.DeleteAtKeepsInv` | app/page.tsx:105-112 | Delete keeps the list's ids distinct and in the store, and keeps a loaded list equal to the store. |
| `Session.LoadKeepsInv` | app/page.tsx:34-46 | The load keeps the invariant. |
| `Session.StepKeepsInv` | app/page.tsx:34-112 | Every event keeps the invariant. |
| `Session.RunKeepsInv` | app/page.tsx:22-216 | Every run of events keeps the invariant. The timer stays in 0..180, it is always 180 between sessions, and `isRecording` agrees with the recorder. The list shows only stored records, with distinct ids, and once loaded it shows all of them. |
| `Session.CountdownRunsDown` | app/page.tsx:49-52 | While recording, n seconds with n below the timer lower it by exactly n. |
| `Session.CountdownEndsInStop` | app/page.tsx:49-57 | Once the remaining seconds have elapsed, the state is exactly `Stop` of the state before. |
| `Session.AutoStopIsManualStop` | app/page.tsx:55-56 | 180 seconds after a start, the state equals a manual stop right after that start, with one more stop event due than before the start. Later seconds change nothing. |
| `Session.StopIsIdempotent` | app/page.tsx:97-103 | A second stop equals the first, so it cannot make a second stop event due. |
| `Session.FailedStartChangesNothing` | app/page.tsx:65-94 | A tap whose start throws (the microphone request included) leaves the page not recording, with the same timer, list and store. |
| `Session.SessionStoresOneRecording` | app/page.tsx:64-103 | Start, stop and the stop handler store exactly one new record and append exactly it to the list, keeping earlier entries. Its name is "Recording " plus the locale text, its payload and instant are the given ones, and its id was absent before. |
| `Session.DeleteRemovesExactlyThatEntry` | app/page.tsx:105-111 | Deleting index i shortens the list by one. Entries before i stay and entries after i shift by one. The deleted id is gone from list and store, and every other stored record is unchanged. |
| `HomePage.Controller.constructor` | app/page.tsx:20-26 | The first render over a database, satisfying the invariant. |
| `HomePage.Controller.LoadRecordings` | app/page.tsx:34-46 | The new state is `Load` of the old one. |
| `HomePage.Controller.StartRecording` | app/page.tsx:64-95 | The new state is `Start` of the old one. When the try block completes, it is recording with the timer at 180. When the block throws, nothing changes. |
| `HomePage.Controller.StopRecording` | app/page.tsx:97-103 | The new state is `Stop` of the old one. It is not recording, the timer is 180, and at most one more stop event is due. |
| `HomePage.Controller.SecondElapsed` | app/page.tsx:48-62 | The new state is `Tick` of the old one. The auto-stop calls `StopRecording` itself. |
| `HomePage.Controller.Tap` | app/page.tsx:213-216 | The new state is `Session.Tap` of the old one. |
| `HomePage.Controller.OnStop` | app/page.tsx:72-86 | The new state is `Session.OnStop` of the old one. The list keeps its old entries as a prefix and grows by at most one. |
| `HomePage.Controller.DeleteRecording` | app/page.tsx:105-112 | The new state is `DeleteAt` of the old one. For an index in range, the list is one shorter and the entry's id is gone from the store. |

## Behaviour of the code worth knowing

- `startRecording` has no guard against a second start. Once a render shows
  `isRecording`, the button offers stop. But `isRecording` is set only after
  the `await` on `getUserMedia` (app/page.tsx:66 and 90), and until then the
  button still calls `startRecording`. Two taps in that window run two starts.
  The second replaces the first recorder in `mediaRecorder`, and the first
  keeps capturing with its stream open; its `onstop` never runs.
  `Session.Start` follows the code (`StartOverCapturingRecorder`). `Tap` and
  the event model treat each tap as one atomic step, so they start only when
  not recording.
- The stream's tracks are stopped at the end of the `onstop` handler, after
  the save, so a rejected save leaves them running. Tracks are left out (see
  below).
- `getAll` returns the records in ascending key order.

## Left out

- Media I/O: `getUserMedia`, `MediaRecorder`, the chunk array and
  `ondataavailable`, `Blob` construction, track stopping and object URLs
  (`createObjectURL`, `revokeObjectURL`). The microphone outcome is a boolean
  and the payload an opaque value. The `url` field of a list entry is
  therefore absent.
- `streamRef`: the code only ever writes to it, so no behaviour depends on it.
- A throw from `new MediaRecorder(stream)` or `recorder.start()` leaves the
  stream from `getUserMedia` open. The model does not track open streams.
- Session.TapNeverOrphansRecorder: holds only for taps between settled
  renders. A second tap while the first start still awaits `getUserMedia`
  (app/page.tsx:66-90) starts a second recorder and orphans the first; the
  atomic `Tap` step cannot express that window. The orphaned recorder keeps
  capturing and never delivers a stop event, and the model does not track it.
- Timeout scheduling and async interleaving: `setTimeout`/`clearTimeout`,
  React re-renders and `await` points. Each handler is one atomic step. A
  pending timeout exists exactly when the last render was recording with the
  timer above 0, and a stop event is delivered only while one is due. Which
  handler a given stop event belongs to is not tracked, because payload and
  instant are inputs.
- The `rec.id != null` test in `deleteRecording`: list ids are always numbers,
  so the test is always true.
- Date and locale formatting (`toLocaleString`, `toISOString`, `formatDate`).
  The stored ISO text and the list's `Date` are one `Instant`, and the name is
  "Recording " followed by a given locale text.
- The circular progress arithmetic in floating point, all rendering, the
  install prompt, and the static configuration in app/layout.tsx and
  app/manifest.ts.
- The `idb` library and IndexedDB internals: transactions, quota errors,
  other versions opened by other tabs, and keys supplied explicitly.
