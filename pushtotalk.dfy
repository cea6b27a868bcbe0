/** The hold-to-talk gesture of the broadcast screen (`ContentViewModel`) and of the
    direct-message screen (`DMViewModel`). */
module PushToTalk {
  import opened Wrappers
  import opened Recorder

  /** What a view model asks of its recorder and of the message upload, in order. */
  datatype Event = Start | Stop | Send(url: string, receiverUsername: string, receiverUserID: string)

  /** Replays a log from the released state: `Some(pressed)` when every start came while
      released and every stop while pressed, `None` otherwise. */
  function Replay(log: seq<Event>): Option<bool> {
    if log == [] then Some(false)
    else
      match Replay(log[..|log| - 1])
      case None => None
      case Some(pressed) =>
        match log[|log| - 1]
        case Start => if pressed then None else Some(true)
        case Stop => if pressed then Some(false) else None
        case Send(_, _, _) => Some(pressed)
  }

  function Starts(log: seq<Event>): nat {
    if log == [] then 0 else Starts(log[..|log| - 1]) + (if log[|log| - 1] == Start then 1 else 0)
  }

  function Stops(log: seq<Event>): nat {
    if log == [] then 0 else Stops(log[..|log| - 1]) + (if log[|log| - 1] == Stop then 1 else 0)
  }

  /** In a log that replays, starts and stops alternate beginning with a start: there is one
      more start than stops exactly while the button is held. */
  lemma {:induction false} StartsAndStopsAlternate(log: seq<Event>, pressed: bool)
    requires Replay(log) == Some(pressed)
    ensures Starts(log) == Stops(log) + (if pressed then 1 else 0)
    ensures Stops(log) <= Starts(log) <= Stops(log) + 1
  {
    if log != [] {
      var before := log[..|log| - 1];
      StartsAndStopsAlternate(before, Replay(before).value);
    }
  }

  /** Every message send comes right after a stop. */
  ghost predicate SendsFollowStops(log: seq<Event>) {
    forall i :: 0 <= i < |log| && log[i].Send? ==> i > 0 && log[i - 1] == Stop
  }

  class ContentViewModel {
    var isPressed: bool
    var isShowingAudioFiles: bool
    var recorder: AudioRecorder
    var log: seq<Event>

    ghost predicate Valid()
      reads this
    {
      Replay(log) == Some(isPressed) && forall i :: 0 <= i < |log| ==> !log[i].Send?
    }

    constructor(documents: string)
      ensures Valid() && !isPressed && !isShowingAudioFiles && log == []
      ensures fresh(recorder) && recorder.documents == documents && recorder.handle == None && recorder.uploads == []
    {
      isPressed, isShowingAudioFiles, log := false, false, [];
      recorder := new AudioRecorder(documents);
    }

    /** `handleGestureChange()`: the first drag update presses the button and starts
        recording; later updates while held change nothing. */
    method HandleGestureChange(now: DateFields, sessionOk: bool)
      requires Valid() && now.Valid()
      modifies this, recorder
      ensures Valid() && isPressed
      ensures recorder == old(recorder) && isShowingAudioFiles == old(isShowingAudioFiles)
      ensures recorder.uploads == old(recorder.uploads)
      ensures !old(isPressed) ==>
                log == old(log) + [Start]
                && recorder.handle == (if sessionOk then Some(RecordingUrl(recorder.documents, now)) else old(recorder.handle))
      ensures old(isPressed) ==> log == old(log) && recorder.handle == old(recorder.handle)
    {
      if !isPressed {
        isPressed := true;
        recorder.StartRecording(now, sessionOk);
        log := log + [Start];
      }
    }

    /** `handleGestureEnd()`: releasing a held button stops the recording (which uploads
        it); a release without a press changes nothing. */
    method HandleGestureEnd()
      requires Valid()
      modifies this, recorder
      ensures Valid() && !isPressed
      ensures recorder == old(recorder) && isShowingAudioFiles == old(isShowingAudioFiles)
      ensures old(isPressed) ==>
                log == old(log) + [Stop] && recorder.handle == None
                && recorder.uploads == old(recorder.uploads) + (if old(recorder.handle).Some? then [old(recorder.handle).value] else [])
      ensures !old(isPressed) ==>
                log == old(log) && recorder.handle == old(recorder.handle) && recorder.uploads == old(recorder.uploads)
    {
      if isPressed {
        isPressed := false;
        recorder.StopRecording();
        log := log + [Stop];
      }
    }

    /** `showAudioFiles()`: opens the file list and leaves the button as it is. */
    method ShowAudioFiles()
      requires Valid()
      modifies this
      ensures Valid() && isShowingAudioFiles
      ensures isPressed == old(isPressed) && log == old(log) && recorder == old(recorder)
    {
      isShowingAudioFiles := true;
    }
  }

  class DMViewModel {
    var isPressed: bool
    var recorder: AudioRecorder
    var log: seq<Event>
    /** The documents directory that each fresh recorder writes into. */
    const documents: string

    ghost predicate Valid()
      reads this
    {
      Replay(log) == Some(isPressed) && SendsFollowStops(log)
    }

    constructor(documents: string)
      ensures Valid() && !isPressed && log == [] && this.documents == documents
      ensures fresh(recorder) && recorder.documents == documents && recorder.handle == None && recorder.uploads == []
    {
      this.documents := documents;
      isPressed, log := false, [];
      recorder := new AudioRecorder(documents);
    }

    /** `handleGestureChange()`: as on the broadcast screen. */
    method HandleGestureChange(now: DateFields, sessionOk: bool)
      requires Valid() && now.Valid()
      modifies this, recorder
      ensures Valid() && isPressed && recorder == old(recorder)
      ensures recorder.uploads == old(recorder.uploads)
      ensures !old(isPressed) ==>
                log == old(log) + [Start]
                && recorder.handle == (if sessionOk then Some(RecordingUrl(recorder.documents, now)) else old(recorder.handle))
      ensures old(isPressed) ==> log == old(log) && recorder.handle == old(recorder.handle)
    {
      if !isPressed {
        isPressed := true;
        recorder.StartRecording(now, sessionOk);
        log := log + [Start];
      }
    }

    /** `handleGestureEnd(receiverUsername:receiverUserID:)`: releasing a held button stops
        the recording (which, as on the broadcast screen, hands the clip to the upload into
        the shared "audio" folder), then sends the recording (`lastRecordingURL`, read from the recorder)
        to the receiver when the URL and both receiver fields are present, then puts a fresh
        recorder in place. A release without a press changes nothing. */
    method HandleGestureEnd(receiverUsername: Option<string>, receiverUserID: Option<string>, lastRecordingURL: Option<string>)
      requires Valid()
      modifies this, recorder
      ensures Valid() && !isPressed
      ensures old(isPressed) ==>
                var sends := lastRecordingURL.Some? && receiverUsername.Some? && receiverUserID.Some?;
                && log == old(log) + [Stop]
                          + (if sends then [Send(lastRecordingURL.value, receiverUsername.value, receiverUserID.value)] else [])
                && old(recorder).handle == None
                && old(recorder).uploads == old(recorder.uploads)
                   + (if old(recorder.handle).Some? then [old(recorder.handle).value] else [])
                && fresh(recorder) && recorder.documents == documents
                && recorder.handle == None && recorder.uploads == []
      ensures !old(isPressed) ==>
                log == old(log) && recorder == old(recorder)
                && recorder.handle == old(recorder.handle) && recorder.uploads == old(recorder.uploads)
    {
      if isPressed {
        isPressed := false;
        recorder.StopRecording();
        log := log + [Stop];
        if lastRecordingURL.Some? && receiverUsername.Some? && receiverUserID.Some? {
          log := log + [Send(lastRecordingURL.value, receiverUsername.value, receiverUserID.value)];
        }
        recorder := new AudioRecorder(documents);
      }
    }
  }
}
