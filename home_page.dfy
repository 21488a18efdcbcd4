/** The page component of app/page.tsx as an object: its state cells
    (`isRecording`, `timer`, `recordings`, `mediaRecorder`) are fields that
    the handlers overwrite, and the recording store is an object the handlers
    call into. Every handler's new state is the value the matching Session
    function gives, so the Session lemmas carry over to the object. */
module HomePage {
  import opened IndexedDb
  import opened Session
  import opened RecordingStore

  class Controller {
    var isRecording: bool
    var timer: int
    var mediaRecorder: RecorderState
    var recordings: seq<Recording>
    /** Recorders told to stop whose stop event the browser has not yet delivered. */
    ghost var pendingStops: nat
    /** Whether the mount-time load has filled the list. */
    ghost var loaded: bool
    const store: RecordingsDb

    /** The page as a value. */
    ghost function Snapshot(): App
      reads this, store
    {
      App(isRecording, timer, mediaRecorder, pendingStops, recordings, loaded, store.State())
    }

    ghost predicate Valid()
      reads this, store
    {
      Inv(Snapshot())
    }

    /** The first render, over the database `store`. */
    constructor (store: RecordingsDb)
      requires store.Valid()
      ensures this.store == store
      ensures Valid() && Snapshot() == Mount(store.State())
    {
      isRecording, timer, mediaRecorder, recordings := false, MaxRecordingTime, NoRecorder, [];
      pendingStops, loaded := 0, false;
      this.store := store;
      new;
      MountSatisfiesInv(store.State());
    }

    /** The mount effect (app/page.tsx:34-46). */
    method LoadRecordings()
      requires Valid()
      modifies this, store
      ensures Valid() && Snapshot() == Load(old(Snapshot()))
    {
      LoadKeepsInv(Snapshot());
      var data := store.GetAllRecordings();
      recordings := data;
      loaded := true;
    }

    /** `startRecording` (app/page.tsx:64-95); `captureStarted` is whether its
        try block (app/page.tsx:65-91) completed without throwing. */
    method StartRecording(captureStarted: bool)
      requires Valid()
      modifies this
      ensures Valid() && Snapshot() == Start(old(Snapshot()), captureStarted)
      ensures captureStarted ==> isRecording && timer == MaxRecordingTime
      ensures !captureStarted ==> Snapshot() == old(Snapshot())
    {
      StartKeepsInv(Snapshot(), captureStarted);
      if captureStarted {
        mediaRecorder := Capturing;
        isRecording := true;
        timer := MaxRecordingTime;
      }
    }

    /** `stopRecording` (app/page.tsx:97-103). */
    method StopRecording()
      requires Consistent(Snapshot())
      modifies this
      ensures Valid() && Snapshot() == Stop(old(Snapshot()))
      ensures !isRecording && timer == MaxRecordingTime
      ensures pendingStops == old(pendingStops) + (if old(mediaRecorder) == Capturing then 1 else 0)
    {
      StopKeepsInv(Snapshot());
      if mediaRecorder == Capturing {
        mediaRecorder := Inactive;
        pendingStops := pendingStops + 1;
      }
      isRecording := false;
      timer := MaxRecordingTime;
    }

    /** The pending timeout fires and the timer effect re-runs (app/page.tsx:48-62). */
    method SecondElapsed()
      requires Valid()
      modifies this
      ensures Valid() && Snapshot() == Tick(old(Snapshot()))
      ensures 0 <= timer <= MaxRecordingTime
    {
      TickKeepsInv(Snapshot());
      if isRecording && timer > 0 {
        timer := timer - 1;
        if timer == 0 && isRecording {
          StopRecording();
        }
      }
    }

    /** The record button (app/page.tsx:213-216). */
    method Tap(captureStarted: bool)
      requires Valid()
      modifies this
      ensures Valid() && Snapshot() == Session.Tap(old(Snapshot()), captureStarted)
    {
      if isRecording {
        StopRecording();
      } else {
        StartRecording(captureStarted);
      }
    }

    /** The recorder's `onstop` handler (app/page.tsx:72-86): save, then append. */
    method OnStop(localeText: string, blob: Audio, createdAt: Instant)
      requires Valid() && pendingStops > 0
      modifies this, store
      ensures Valid() && Snapshot() == Session.OnStop(old(Snapshot()), localeText, blob, createdAt)
      ensures |recordings| <= |old(recordings)| + 1
      ensures recordings[..|old(recordings)|] == old(recordings)
    {
      OnStopKeepsInv(Snapshot(), localeText, blob, createdAt);
      var d := Draft(NameFor(localeText), blob, createdAt);
      var res := store.SaveRecording(d);
      pendingStops := pendingStops - 1;
      if res.Saved? {
        recordings := recordings + [WithKey(d, res.id)];
      }
    }

    /** `deleteRecording` (app/page.tsx:105-112). */
    method DeleteRecording(index: int)
      requires Valid()
      modifies this, store
      ensures Valid() && Snapshot() == DeleteAt(old(Snapshot()), index)
      ensures 0 <= index < |old(recordings)| ==>
        |recordings| == |old(recordings)| - 1 && old(recordings)[index].id !in store.records
    {
      DeleteAtKeepsInv(Snapshot(), index);
      if 0 <= index < |recordings| {
        var rec := recordings[index];
        store.DeleteRecording(rec.id);
        recordings := recordings[..index] + recordings[index + 1..];
      }
    }
  }
}
