/** The recording-session controller of app/page.tsx as a value: the page's
    state cells, its media recorder, the stop events still to be delivered,
    and the recording store. Each user, timer or recorder event is one atomic
    step on that value. */
module Session {
  import opened IndexedDb

  /** `MAX_RECORDING_TIME`: the countdown ceiling in seconds. */
  const MaxRecordingTime := 180

  /** The page's `mediaRecorder` cell: not yet set, or a recorder whose state is
      "recording" or "inactive". */
  datatype RecorderState = NoRecorder | Capturing | Inactive

  /** The page's state. `pendingStops` counts recorders that were told to
      stop whose `onstop` handler has not yet run; `loaded` says whether the
      mount-time load has filled the list. */
  datatype App = App(
    isRecording: bool,
    timer: int,
    mediaRecorder: RecorderState,
    pendingStops: nat,
    recordings: seq<Recording>,
    loaded: bool,
    db: Db)

  /** The state when the page mounts over an existing database. */
  function Mount(db: Db): (a: App)
    ensures !a.isRecording && a.timer == MaxRecordingTime && a.recordings == [] && a.db == db
    ensures a.mediaRecorder == NoRecorder && a.pendingStops == 0 && !a.loaded
  {
    App(false, MaxRecordingTime, NoRecorder, 0, [], false, db)
  }

  /** The ids shown in the list. */
  function Ids(rs: seq<Recording>): set<int> {
    set i | 0 <= i < |rs| :: rs[i].id
  }

  predicate DistinctIds(rs: seq<Recording>) {
    forall i, j | 0 <= i < j < |rs| :: rs[i].id != rs[j].id
  }

  /** Every entry of the list is the stored record under its id. */
  predicate Mirrors(rs: seq<Recording>, db: Db) {
    forall i | 0 <= i < |rs| :: rs[i].id in db.records && db.records[rs[i].id] == rs[i]
  }

  /** What holds in every render, including the one in which the countdown has
      just reached 0 and the timer effect is about to stop the session: the
      timer stays in 0 .. 180 and is at the ceiling whenever no session runs;
      `isRecording` is true exactly when the recorder captures; the list shows
      distinct stored records and, once loaded, all of them. */
  ghost predicate Consistent(a: App) {
    && WellFormed(a.db)
    && 0 <= a.timer <= MaxRecordingTime
    && (!a.isRecording ==> a.timer == MaxRecordingTime)
    && (a.isRecording <==> a.mediaRecorder == Capturing)
    && (a.mediaRecorder == NoRecorder ==> a.pendingStops == 0)
    && DistinctIds(a.recordings)
    && Mirrors(a.recordings, a.db)
    && (a.loaded ==> Ids(a.recordings) == a.db.records.Keys)
  }

  /** What holds between any two events: in addition the timer is above 0 while
      a session runs, since the auto-stop fires as soon as it reaches 0. */
  ghost predicate Inv(a: App) {
    Consistent(a) && (a.isRecording ==> a.timer > 0)
  }

  /** `startRecording`: when its try block completes (`captureStarted`), a new
      recorder starts capturing, `isRecording` becomes true and the timer is
      set to the ceiling; when any step of the try block throws
      (`getUserMedia`, `new MediaRecorder`, `recorder.start()`), the error is
      only logged. */
  function Start(a: App, captureStarted: bool): (r: App)
    ensures captureStarted ==>
      && r.isRecording && r.timer == MaxRecordingTime && r.mediaRecorder == Capturing
      && r.recordings == a.recordings && r.db == a.db && r.pendingStops == a.pendingStops
      && r.loaded == a.loaded
    ensures !captureStarted ==> r == a
  {
    if captureStarted then a.(mediaRecorder := Capturing, isRecording := true, timer := MaxRecordingTime)
    else a
  }

  /** `stopRecording`: a recorder that is not inactive is told to stop (its
      stop event then becomes due); the session ends and the timer returns to
      the ceiling in any case. */
  function Stop(a: App): (r: App)
    ensures !r.isRecording && r.timer == MaxRecordingTime && r.mediaRecorder != Capturing
    ensures r.pendingStops == if a.mediaRecorder == Capturing then a.pendingStops + 1 else a.pendingStops
    ensures r.mediaRecorder == if a.mediaRecorder == Capturing then Inactive else a.mediaRecorder
    ensures r.recordings == a.recordings && r.db == a.db && r.loaded == a.loaded
  {
    var stopped :=
      if a.mediaRecorder == Capturing then a.(mediaRecorder := Inactive, pendingStops := a.pendingStops + 1)
      else a;
    stopped.(isRecording := false, timer := MaxRecordingTime)
  }

  /** The timer effect after a render: at 0 while recording it stops the session. */
  function TimerEffect(a: App): App {
    if a.timer == 0 && a.isRecording then Stop(a) else a
  }

  /** One second elapses. A timeout is pending exactly when the last render had
      `isRecording` and `timer > 0`; its callback lowers the timer by one and
      the effect re-runs. Without a pending timeout nothing happens. */
  function Tick(a: App): (r: App)
    ensures a.isRecording && a.timer > 1 ==> r == a.(timer := a.timer - 1)
    ensures a.isRecording && a.timer == 1 ==> r == Stop(a)
    ensures !(a.isRecording && a.timer > 0) ==> r == a
  {
    if a.isRecording && a.timer > 0 then TimerEffect(a.(timer := a.timer - 1)) else a
  }

  /** The name the `onstop` handler gives a recording finalised at a moment
      whose locale text is `localeText`. */
  function NameFor(localeText: string): string {
    "Recording " + localeText
  }

  /** The recorder's `onstop` handler: the draft is saved first and only a saved
      draft, carrying the key the store returned, is appended to the list. A
      rejected save makes the handler throw, and the list stays as it was. */
  function OnStop(a: App, localeText: string, blob: Audio, createdAt: Instant): (r: App)
    requires WellFormed(a.db) && a.pendingStops > 0
    ensures r.pendingStops == a.pendingStops - 1
    ensures r.isRecording == a.isRecording && r.timer == a.timer && r.mediaRecorder == a.mediaRecorder
    ensures r.loaded == a.loaded
    ensures var (db', res) := Add(a.db, Draft(NameFor(localeText), blob, createdAt));
      && r.db == db'
      && (res.Saved? ==> r.recordings == a.recordings + [WithKey(Draft(NameFor(localeText), blob, createdAt), res.id)])
      && (res.Rejected? ==> r.recordings == a.recordings)
  {
    var d := Draft(NameFor(localeText), blob, createdAt);
    var (db', res) := Add(a.db, d);
    var b := a.(db := db', pendingStops := a.pendingStops - 1);
    match res
    case Saved(id) => b.(recordings := a.recordings + [WithKey(d, id)])
    case Rejected(_) => b
  }

  /** `deleteRecording(index)`: the entry at `index` is deleted from the store by
      its id and then filtered out of the list. An index outside the list reads
      `undefined`, and the handler throws before changing anything. */
  function DeleteAt(a: App, index: int): (r: App)
    requires WellFormed(a.db)
    ensures 0 <= index < |a.recordings| ==>
      && r.recordings == a.recordings[..index] + a.recordings[index + 1..]
      && r.db == Delete(a.db, a.recordings[index].id)
    ensures !(0 <= index < |a.recordings|) ==> r == a
    ensures r.isRecording == a.isRecording && r.timer == a.timer && r.pendingStops == a.pendingStops
    ensures r.mediaRecorder == a.mediaRecorder && r.loaded == a.loaded
  {
    if 0 <= index < |a.recordings| then
      var rec := a.recordings[index];
      a.(db := Delete(a.db, rec.id), recordings := a.recordings[..index] + a.recordings[index + 1..])
    else
      a
  }

  /** The mount-time `loadRecordings`: the list becomes everything in the store. */
  function Load(a: App): (r: App)
    requires WellFormed(a.db)
    ensures r.recordings == GetAll(a.db) && r.db == Open(a.db) && r.loaded
    ensures r.isRecording == a.isRecording && r.timer == a.timer && r.pendingStops == a.pendingStops
    ensures r.mediaRecorder == a.mediaRecorder
  {
    a.(recordings := GetAll(a.db), db := Open(a.db), loaded := true)
  }

  /** The record button: it shows stop while recording and start otherwise. */
  function Tap(a: App, captureStarted: bool): (r: App)
    ensures a.isRecording ==> r == Stop(a)
    ensures !a.isRecording ==> r == Start(a, captureStarted)
  {
    if a.isRecording then Stop(a) else Start(a, captureStarted)
  }

  /** The discrete events the page reacts to. */
  datatype Event =
    | Tapped(captureStarted: bool)
    | SecondElapsed
    | RecorderStopped(localeText: string, blob: Audio, createdAt: Instant)
    | DeletePressed(index: int)
    | Loaded

  /** One event. A recorder's stop event is delivered only to a recorder that
      was told to stop, so with none pending it is not an event at all. */
  function Step(a: App, e: Event): (r: App)
    requires WellFormed(a.db)
    ensures WellFormed(r.db)
  {
    match e
    case Tapped(ok) => Tap(a, ok)
    case SecondElapsed => Tick(a)
    case RecorderStopped(text, blob, at) => if a.pendingStops > 0 then OnStop(a, text, blob, at) else a
    case DeletePressed(i) => DeleteAt(a, i)
    case Loaded => Load(a)
  }

  /** A run of events from `a`. */
  function Run(a: App, es: seq<Event>): (r: App)
    requires WellFormed(a.db)
    ensures WellFormed(r.db)
    decreases |es|
  {
    if es == [] then a else Run(Step(a, es[0]), es[1..])
  }

  /** `n` seconds elapse. */
  function Ticks(a: App, n: nat): App {
    if n == 0 then a else Tick(Ticks(a, n - 1))
  }

  // ---------------------------------------------------------------------------
  // The list's ids

  lemma IdsAppend(rs: seq<Recording>, x: Recording)
    ensures Ids(rs + [x]) == Ids(rs) + {x.id}
  {
    var ys := rs + [x];
    forall k | k in Ids(ys) ensures k in Ids(rs) + {x.id} {
      var i :| 0 <= i < |ys| && ys[i].id == k;
      if i < |rs| { assert rs[i] == ys[i]; }
    }
    forall k | k in Ids(rs) + {x.id} ensures k in Ids(ys) {
      if k == x.id { assert ys[|rs|].id == k; }
      else {
        var i :| 0 <= i < |rs| && rs[i].id == k;
        assert ys[i].id == k;
      }
    }
  }

  /** Filtering out one position of a list with distinct ids removes exactly that id. */
  lemma IdsRemoveAt(rs: seq<Recording>, index: int)
    requires DistinctIds(rs) && 0 <= index < |rs|
    ensures DistinctIds(rs[..index] + rs[index + 1..])
    ensures Ids(rs[..index] + rs[index + 1..]) == Ids(rs) - {rs[index].id}
  {
    var ys := rs[..index] + rs[index + 1..];
    assert forall j | 0 <= j < |ys| :: ys[j] == rs[if j < index then j else j + 1];
    forall k | k in Ids(ys) ensures k in Ids(rs) - {rs[index].id} {
      var j :| 0 <= j < |ys| && ys[j].id == k;
      assert ys[j] == rs[if j < index then j else j + 1];
    }
    forall k | k in Ids(rs) - {rs[index].id} ensures k in Ids(ys) {
      var i :| 0 <= i < |rs| && rs[i].id == k;
      if i < index { assert ys[i].id == k; } else { assert ys[i - 1].id == k; }
    }
  }

  /** A list in strictly ascending id order that holds every stored record shows
      each stored key exactly once. */
  lemma IdsOfGetAll(db: Db)
    requires WellFormed(db)
    ensures DistinctIds(GetAll(db)) && Mirrors(GetAll(db), db)
    ensures Ids(GetAll(db)) == db.records.Keys
  {
    var rs := GetAll(db);
    forall k | k in db.records ensures k in Ids(rs) {
      var i :| 0 <= i < |rs| && rs[i] == db.records[k];
    }
  }

  // ---------------------------------------------------------------------------
  // The invariant is kept by every event

  lemma StartKeepsInv(a: App, captureStarted: bool)
    requires Inv(a)
    ensures Inv(Start(a, captureStarted))
  {
  }

  /** Stopping settles any consistent state, the one the countdown leaves at 0 included. */
  lemma StopKeepsInv(a: App)
    requires Consistent(a)
    ensures Inv(Stop(a))
  {
  }

  lemma TickKeepsInv(a: App)
    requires Inv(a)
    ensures Inv(Tick(a))
  {
  }

  lemma OnStopKeepsInv(a: App, localeText: string, blob: Audio, createdAt: Instant)
    requires Inv(a) && a.pendingStops > 0
    ensures Inv(OnStop(a, localeText, blob, createdAt))
  {
    var d := Draft(NameFor(localeText), blob, createdAt);
    var (db', res) := Add(a.db, d);
    if res.Saved? {
      var e := WithKey(d, res.id);
      var r := OnStop(a, localeText, blob, createdAt);
      assert r.recordings == a.recordings + [e];
      forall i | 0 <= i < |a.recordings| ensures a.recordings[i].id != res.id {
        assert a.recordings[i].id in a.db.records;
      }
      IdsAppend(a.recordings, e);
    }
  }

  lemma DeleteAtKeepsInv(a: App, index: int)
    requires Inv(a)
    ensures Inv(DeleteAt(a, index))
  {
    if 0 <= index < |a.recordings| {
      var r := DeleteAt(a, index);
      var gone := a.recordings[index].id;
      IdsRemoveAt(a.recordings, index);
      forall j | 0 <= j < |r.recordings|
        ensures r.recordings[j].id in r.db.records && r.db.records[r.recordings[j].id] == r.recordings[j]
      {
        var i := if j < index then j else j + 1;
        assert r.recordings[j] == a.recordings[i];
      }
    }
  }

  lemma LoadKeepsInv(a: App)
    requires Inv(a)
    ensures Inv(Load(a))
  {
    IdsOfGetAll(a.db);
  }

  /** Every event keeps the invariant; in particular a tap, taken as one
      atomic step, only starts a session when none runs. */
  lemma StepKeepsInv(a: App, e: Event)
    requires Inv(a)
    ensures Inv(Step(a, e))
  {
    match e
    case Tapped(ok) => StartKeepsInv(a, ok); StopKeepsInv(a);
    case SecondElapsed => TickKeepsInv(a);
    case RecorderStopped(text, blob, at) => if a.pendingStops > 0 { OnStopKeepsInv(a, text, blob, at); }
    case DeletePressed(i) => DeleteAtKeepsInv(a, i);
    case Loaded => LoadKeepsInv(a);
  }

  /** From any state that satisfies the invariant (the mounted page does), every
      run of events keeps it: the timer never leaves 0 .. 180 and the list never
      shows a record the store does not hold. */
  lemma {:induction false} RunKeepsInv(a: App, es: seq<Event>)
    requires Inv(a)
    ensures Inv(Run(a, es))
    decreases |es|
  {
    if es != [] {
      StepKeepsInv(a, es[0]);
      RunKeepsInv(Step(a, es[0]), es[1..]);
    }
  }

  lemma MountSatisfiesInv(db: Db)
    requires WellFormed(db)
    ensures Inv(Mount(db))
  {
  }

  // ---------------------------------------------------------------------------
  // The countdown

  /** Fewer seconds than remain only lower the timer. */
  lemma {:induction false} CountdownRunsDown(a: App, n: nat)
    requires a.isRecording && n < a.timer
    ensures Ticks(a, n) == a.(timer := a.timer - n)
    decreases n
  {
    if n > 0 {
      CountdownRunsDown(a, n - 1);
    }
  }

  /** When the remaining seconds have elapsed the session has stopped exactly as
      a press of the stop button would have stopped it. */
  lemma CountdownEndsInStop(a: App)
    requires a.isRecording && a.timer > 0
    ensures Ticks(a, a.timer) == Stop(a)
  {
    CountdownRunsDown(a, a.timer - 1);
    assert Ticks(a, a.timer) == Tick(a.(timer := 1));
  }

  /** A session left alone for 180 seconds ends in the state a manual stop gives,
      with one more stop event due than before the start, and later seconds
      change nothing. */
  lemma AutoStopIsManualStop(a: App)
    requires Inv(a) && !a.isRecording
    ensures Ticks(Start(a, true), MaxRecordingTime) == Stop(Start(a, true))
    ensures Stop(Start(a, true)).pendingStops == a.pendingStops + 1
    ensures Tick(Stop(Start(a, true))) == Stop(Start(a, true))
  {
    CountdownEndsInStop(Start(a, true));
  }

  // ---------------------------------------------------------------------------
  // Sessions and the list

  /** A second stop while a stop event is still due requests no second one. */
  lemma StopIsIdempotent(a: App)
    ensures Stop(Stop(a)) == Stop(a)
  {
  }

  /** A tap in a settled render with a capturing recorder is exactly a stop: such
      a tap never starts over the running recorder. A second tap while the first
      start still awaits the microphone is not a settled render; see
      StartOverCapturingRecorder. */
  lemma TapNeverOrphansRecorder(a: App, captureStarted: bool)
    requires Inv(a) && a.mediaRecorder == Capturing
    ensures Tap(a, captureStarted) == Stop(a)
  {
  }

  /** `startRecording` itself has no guard: a second completed start over a
      capturing recorder overwrites the page's recorder cell with a new
      capturing one and makes no stop event due for the one it replaced. */
  lemma StartOverCapturingRecorder(a: App)
    requires Inv(a) && a.mediaRecorder == Capturing
    ensures var b := Start(a, true);
      && b.mediaRecorder == Capturing && b.isRecording && b.timer == MaxRecordingTime
      && b.pendingStops == a.pendingStops && b.recordings == a.recordings && b.db == a.db
  {
  }

  /** A stop while no session runs is a no-op. */
  lemma StopWhileIdleIsNoop(a: App)
    requires Inv(a) && !a.isRecording
    ensures Stop(a) == a
  {
  }

  /** A start whose try block throws (a refused microphone included) changes
      nothing: no session, same timer, same list. */
  lemma FailedStartChangesNothing(a: App)
    requires Inv(a) && !a.isRecording
    ensures var r := Tap(a, false);
      !r.isRecording && r.timer == a.timer && r.recordings == a.recordings && r.db == a.db
  {
  }

  /** Start, stop and the resulting stop event store exactly one new record and
      append exactly it to the list, named after the moment it was finalised. */
  lemma SessionStoresOneRecording(a: App, localeText: string, blob: Audio, createdAt: Instant)
    requires Inv(a) && !a.isRecording && a.db.current <= MaxGeneratedKey
    ensures var r := OnStop(Stop(Start(a, true)), localeText, blob, createdAt);
      && |r.recordings| == |a.recordings| + 1
      && r.recordings[..|a.recordings|] == a.recordings
      && r.recordings[|a.recordings|].recordingName == NameFor(localeText)
      && r.recordings[|a.recordings|].blob == blob
      && r.recordings[|a.recordings|].createdAt == createdAt
      && r.recordings[|a.recordings|].id !in a.db.records
      && r.db.records == a.db.records[r.recordings[|a.recordings|].id := r.recordings[|a.recordings|]]
      && !r.isRecording && r.pendingStops == a.pendingStops
  {
  }

  /** Deleting the entry at `index` removes that entry and nothing else: the list
      is one shorter, the others keep their order, and its id is gone from the
      list and from the store while every other stored record is unchanged. */
  lemma DeleteRemovesExactlyThatEntry(a: App, index: int)
    requires Inv(a) && 0 <= index < |a.recordings|
    ensures var r := DeleteAt(a, index); var gone := a.recordings[index].id;
      && |r.recordings| == |a.recordings| - 1
      && (forall j | 0 <= j < index :: r.recordings[j] == a.recordings[j])
      && (forall j | index <= j < |r.recordings| :: r.recordings[j] == a.recordings[j + 1])
      && gone !in Ids(r.recordings) && gone !in r.db.records
      && (forall k | k in a.db.records && k != gone :: k in r.db.records && r.db.records[k] == a.db.records[k])
  {
    IdsRemoveAt(a.recordings, index);
  }
}
