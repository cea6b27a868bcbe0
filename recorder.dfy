/** The recorder wrapper (`AudioRecorder`): naming a new recording after the clock,
    holding the live recorder, and handing the finished file to the upload. */
module Recorder {
  import opened Wrappers
  import opened Paths

  /** The calendar fields of the device clock that a `DateFormatter` reads. */
  datatype DateFields = DateFields(year: int, month: int, day: int, hour: int, minute: int, second: int) {
    predicate Valid() {
      1 <= month <= 12 && 1 <= day <= 31 && 0 <= hour <= 23 && 0 <= minute <= 59 && 0 <= second <= 59
    }
  }

  /** The fields that the pattern "MM-dd-HH-mm-ss" prints: everything but the year. */
  predicate SameSecondOfYear(a: DateFields, b: DateFields) {
    a.month == b.month && a.day == b.day && a.hour == b.hour && a.minute == b.minute && a.second == b.second
  }

  function Digit(k: int): char
    requires 0 <= k <= 9
  {
    ('0' as int + k) as char
  }

  /** A two-letter, zero-padded decimal field ("MM", "dd", "HH", "mm" and "ss" in the date field symbol table). */
  function Pad2(n: int): (r: string)
    requires 0 <= n <= 99
    ensures |r| == 2 && '0' <= r[0] <= '9' && '0' <= r[1] <= '9'
    ensures (r[0] as int - '0' as int) * 10 + (r[1] as int - '0' as int) == n
  {
    [Digit(n / 10), Digit(n % 10)]
  }

  /** Two different field values never print alike. */
  lemma Pad2Injective(a: int, b: int)
    requires 0 <= a <= 99 && 0 <= b <= 99
    ensures Pad2(a) == Pad2(b) <==> a == b
  {
    if Pad2(a) == Pad2(b) {
      assert Pad2(a)[0] == Pad2(b)[0] && Pad2(a)[1] == Pad2(b)[1];
      assert a / 10 == b / 10 && a % 10 == b % 10;
    }
  }

  /** The name of a new recording: the clock formatted as "MM-dd-HH-mm-ss" followed by ".m4a". */
  function FileName(now: DateFields): (r: string)
    requires now.Valid()
    ensures |r| == 18
    ensures r[0..2] == Pad2(now.month) && r[3..5] == Pad2(now.day) && r[6..8] == Pad2(now.hour)
    ensures r[9..11] == Pad2(now.minute) && r[12..14] == Pad2(now.second)
    ensures r[2] == r[5] == r[8] == r[11] == '-'
    ensures r[14..] == ".m4a"
    ensures '/' !in r
  {
    Pad2(now.month) + "-" + Pad2(now.day) + "-" + Pad2(now.hour) + "-" + Pad2(now.minute) + "-" + Pad2(now.second) + ".m4a"
  }

  /** Two recordings get the same name exactly when they start in the same second of
      the same day of the same month; the year plays no part and nothing tells the two apart. */
  lemma SameNameIffSameSecond(a: DateFields, b: DateFields)
    requires a.Valid() && b.Valid()
    ensures FileName(a) == FileName(b) <==> SameSecondOfYear(a, b)
  {
    var na, nb := FileName(a), FileName(b);
    if na == nb {
      assert na[0..2] == Pad2(a.month) && nb[0..2] == Pad2(b.month);
      assert na[3..5] == Pad2(a.day) && nb[3..5] == Pad2(b.day);
      assert na[6..8] == Pad2(a.hour) && nb[6..8] == Pad2(b.hour);
      assert na[9..11] == Pad2(a.minute) && nb[9..11] == Pad2(b.minute);
      assert na[12..14] == Pad2(a.second) && nb[12..14] == Pad2(b.second);
      Pad2Injective(a.month, b.month);
      Pad2Injective(a.day, b.day);
      Pad2Injective(a.hour, b.hour);
      Pad2Injective(a.minute, b.minute);
      Pad2Injective(a.second, b.second);
    }
  }

  /** `generateFileName()`: the name placed in the documents directory; its last path
      component, which becomes the remote key on upload, is the name itself. */
  function RecordingUrl(documents: string, now: DateFields): (u: string)
    requires now.Valid()
    ensures LastPathComponent(u) == FileName(now)
  {
    LastOfAppended(documents, FileName(now));
    AppendingPathComponent(documents, FileName(now))
  }

  class AudioRecorder {
    /** The app's documents directory. */
    const documents: string
    /** The URL of the live `AVAudioRecorder`; `None` when there is none. */
    var handle: Option<string>
    /** The recordings handed to `AudioFileManager.uploadAudioFile`, in order. */
    var uploads: seq<string>

    constructor(documents: string)
      ensures this.documents == documents && handle == None && uploads == []
    {
      this.documents := documents;
      handle := None;
      uploads := [];
    }

    /** `startRecording()`: when the audio session and the recorder can be set up
        (`sessionOk`), a recorder on a freshly named file replaces the handle; otherwise
        nothing changes. */
    method StartRecording(now: DateFields, sessionOk: bool)
      requires now.Valid()
      modifies this
      ensures handle == if sessionOk then Some(RecordingUrl(documents, now)) else old(handle)
      ensures uploads == old(uploads)
    {
      if sessionOk {
        handle := Some(RecordingUrl(documents, now));
      }
    }

    /** `stopRecording()`: the recorded file is handed to the upload when there was a
        recorder; the handle is cleared in every case. */
    method StopRecording()
      modifies this
      ensures handle == None
      ensures uploads == old(uploads) + (if old(handle).Some? then [old(handle).value] else [])
    {
      if handle.Some? {
        uploads := uploads + [handle.value];
      }
      handle := None;
    }
  }
}
