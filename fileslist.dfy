/** The "Recorded Files" screen (`AudioFilesListView`): row titles, status dots,
    transcript snippets, renaming, playback, transcription and deletion. */
module FilesList {
  import opened Wrappers
  import opened Text

  /** The fields of a recording that the screen reads. */
  datatype AppAudioFile = AppAudioFile(name: string, customName: Option<string>)

  /** The status dot beside a row. */
  datatype Dot = Yellow | Green | Red

  /** The three outcomes of checking the text typed into the rename alert. */
  datatype RenameCheck = EmptyName | NameExists | Accepted(trimmed: string)

  /** The messages the rename alert can show. */
  datatype RenameError = CannotBeEmpty | AlreadyExists | FailedToRename {
    function Text(): string {
      match this
      case CannotBeEmpty => "Name cannot be empty."
      case AlreadyExists => "Name already exists."
      case FailedToRename => "Failed to rename."
    }
  }

  /** Calls the screen makes to its collaborators (the file manager, the player, the file system). */
  datatype Call =
    | Rename(name: string, newName: string)
    | FetchUrl(name: string)
    | Transcribe(name: string)
    | UploadTranscript(name: string, text: string)
    | Play(name: string)
    | StopPlayback
    | RemoveLocal(name: string)
    | DeleteRemote(name: string)

  /** The title of a row: the custom name when there is a non-empty one, otherwise the file name. */
  function DisplayName(f: AppAudioFile): (r: string)
    ensures f.customName.Some? && f.customName.value != "" ==> r == f.customName.value
    ensures f.customName.None? || f.customName.value == "" ==> r == f.name
    ensures r == "" ==> f.name == ""
  {
    if f.customName.Some? && f.customName.value != "" then f.customName.value else f.name
  }

  /** The custom name as the rename check reads it: a missing one counts as "". */
  function CustomOrEmpty(f: AppAudioFile): string {
    f.customName.GetOr("")
  }

  /** Some row other than `file` (judged by name) already carries `trimmed` as its custom
      name, ignoring case. */
  predicate ClashesWithOther(files: seq<AppAudioFile>, file: AppAudioFile, trimmed: string): (b: bool)
    ensures b && trimmed != "" ==> exists g :: g in files && g.name != file.name && g.customName.Some?
    ensures (forall g :: g in files && g.name != file.name ==> g.customName.None?) ==>
              (b <==> trimmed == "" && exists g :: g in files && g.name != file.name)
  {
    exists g :: g in files && g.name != file.name && Lower(CustomOrEmpty(g)) == Lower(trimmed)
  }

  /** The checks `handleRename` makes before it calls the file manager. */
  function CheckRename(files: seq<AppAudioFile>, file: AppAudioFile, input: string): (v: RenameCheck)
    ensures v == EmptyName <==> Trim(input) == ""
    ensures v == NameExists <==> Trim(input) != "" && ClashesWithOther(files, file, Trim(input))
    ensures v.Accepted? ==> v.trimmed == Trim(input) && v.trimmed != ""
  {
    var trimmed := Trim(input);
    if trimmed == "" then EmptyName
    else if ClashesWithOther(files, file, trimmed) then NameExists
    else Accepted(trimmed)
  }

  /** The rows that are not `file`. */
  function Others(files: seq<AppAudioFile>, file: AppAudioFile): (r: seq<AppAudioFile>)
    ensures forall g :: g in r <==> g in files && g.name != file.name
  {
    if files == [] then []
    else if files[0].name == file.name then Others(files[1..], file)
    else [files[0]] + Others(files[1..], file)
  }

  /** The row being renamed, and any other row with its name, never causes a rejection:
      the verdict depends only on the other rows. In particular renaming a file to its own
      current custom name is accepted when no other row carries it. */
  lemma OwnRowNeverClashes(files: seq<AppAudioFile>, file: AppAudioFile, input: string)
    ensures CheckRename(files, file, input) == CheckRename(Others(files, file), file, input)
  {
    var t := Trim(input);
    if ClashesWithOther(files, file, t) {
      var g :| g in files && g.name != file.name && Lower(CustomOrEmpty(g)) == Lower(t);
      assert g in Others(files, file);
    }
  }

  /** A row without a custom name never blocks a rename, since the accepted text is never empty. */
  lemma UncustomisedRowsNeverClash(files: seq<AppAudioFile>, file: AppAudioFile, input: string)
    requires forall g :: g in files ==> g.customName.None?
    ensures CheckRename(files, file, input) != NameExists
  {
    var t := Trim(input);
    if t != "" {
      forall g | g in files ensures Lower(CustomOrEmpty(g)) != Lower(t) {
        assert |Lower(CustomOrEmpty(g))| == 0 < |Lower(t)|;
      }
    }
  }

  /** The check compares custom names only, not titles: when neither of two rows has a
      custom name, one may be renamed to the file name the other shows as its title, and
      the two rows then carry the same title. */
  lemma RenameMayRepeatAShownTitle(a: AppAudioFile, b: AppAudioFile)
    requires a.customName.None? && b.customName.None?
    requires a.name != "" && Trim(a.name) == a.name
    ensures CheckRename([a, b], b, a.name) == Accepted(a.name)
    ensures DisplayName(AppAudioFile(b.name, Some(a.name))) == DisplayName(a)
  {
    UncustomisedRowsNeverClash([a, b], b, a.name);
  }

  /** The badge for a transcript: its first two characters, and only for a non-empty one. */
  function Snippet(transcript: Option<string>): (r: Option<string>)
    ensures r.Some? <==> transcript.Some? && transcript.value != ""
    ensures r.Some? ==> 1 <= |r.value| <= 2 && r.value <= transcript.value
    ensures r.Some? && |transcript.value| >= 2 ==> |r.value| == 2
  {
    if transcript.Some? && transcript.value != "" then Some(Prefix(transcript.value, 2)) else None
  }

  /** The status dot: yellow while this file downloads, else green when a local copy exists, else red. */
  function StatusDot(file: AppAudioFile, downloading: Option<AppAudioFile>, local: set<string>): (d: Dot)
    ensures d == Yellow <==> downloading == Some(file)
    ensures d == Green <==> downloading != Some(file) && file.name in local
    ensures d == Red <==> downloading != Some(file) && file.name !in local
  {
    if downloading == Some(file) then Yellow
    else if file.name in local then Green
    else Red
  }

  /** The snippets after asking for the transcript of each of `files` in turn (`answers[i]`
      is what the file manager returned for `files[i]`). */
  function Recorded(snippets: map<string, string>, files: seq<AppAudioFile>, answers: seq<Option<string>>): (r: map<string, string>)
    requires |files| == |answers|
    ensures snippets.Keys <= r.Keys
    ensures r.Keys <= snippets.Keys + set i | 0 <= i < |files| :: files[i].name
    ensures forall k :: k in snippets && (forall i :: 0 <= i < |files| ==> files[i].name != k) ==> r[k] == snippets[k]
  {
    if files == [] then snippets
    else
      var n := |files| - 1;
      var before := Recorded(snippets, files[..n], answers[..n]);
      match Snippet(answers[n])
      case None => before
      case Some(s) => before[files[n].name := s]
  }

  /** Every snippet after the refresh was there before or is the snippet of a non-empty
      transcript of a file with that name. */
  lemma {:induction false} RecordedFromTranscripts(snippets: map<string, string>, files: seq<AppAudioFile>, answers: seq<Option<string>>)
    requires |files| == |answers|
    ensures var r := Recorded(snippets, files, answers);
            forall k :: k in r ==>
              (k in snippets && r[k] == snippets[k]) ||
              (exists i :: 0 <= i < |files| && files[i].name == k && Snippet(answers[i]) == Some(r[k]))
  {
    if files != [] {
      var n := |files| - 1;
      RecordedFromTranscripts(snippets, files[..n], answers[..n]);
      var before := Recorded(snippets, files[..n], answers[..n]);
      var r := Recorded(snippets, files, answers);
      forall k | k in r
        ensures (k in snippets && r[k] == snippets[k]) ||
                (exists i :: 0 <= i < |files| && files[i].name == k && Snippet(answers[i]) == Some(r[k]))
      {
        if Snippet(answers[n]).Some? && k == files[n].name {
        } else {
          assert k in before && r[k] == before[k];
          if !(k in snippets && r[k] == snippets[k]) {
            var i :| 0 <= i < n && files[..n][i].name == k && Snippet(answers[..n][i]) == Some(before[k]);
            assert files[i].name == k && Snippet(answers[i]) == Some(r[k]);
          }
        }
      }
    }
  }

  /** Every file whose transcript is non-empty has a snippet afterwards, and old snippets are never dropped. */
  lemma {:induction false} RecordedCoversTranscribed(snippets: map<string, string>, files: seq<AppAudioFile>, answers: seq<Option<string>>)
    requires |files| == |answers|
    ensures var r := Recorded(snippets, files, answers);
            && snippets.Keys <= r.Keys
            && forall i :: 0 <= i < |files| && Snippet(answers[i]).Some? ==> files[i].name in r
  {
    if files != [] {
      var n := |files| - 1;
      RecordedCoversTranscribed(snippets, files[..n], answers[..n]);
      var r := Recorded(snippets, files, answers);
      forall i | 0 <= i < |files| && Snippet(answers[i]).Some? ensures files[i].name in r {
        if i < n {
          assert files[..n][i] == files[i] && answers[..n][i] == answers[i];
        }
      }
    }
  }

  /** Some file named `k` among `files` has a non-empty transcript. */
  predicate Written(files: seq<AppAudioFile>, answers: seq<Option<string>>, k: string)
    requires |files| == |answers|
  {
    exists j :: 0 <= j < |files| && files[j].name == k && Snippet(answers[j]).Some?
  }

  lemma WrittenInPrefix(files: seq<AppAudioFile>, answers: seq<Option<string>>, n: int, k: string)
    requires |files| == |answers| && 0 <= n <= |files|
    ensures Written(files[..n], answers[..n], k) ==> Written(files, answers, k)
  {
    if Written(files[..n], answers[..n], k) {
      var j :| 0 <= j < n && files[..n][j].name == k && Snippet(answers[..n][j]).Some?;
      assert files[j] == files[..n][j] && answers[j] == answers[..n][j];
    }
  }

  /** No later file with the same name as `files[i]` has a non-empty transcript. */
  predicate LastWritten(files: seq<AppAudioFile>, answers: seq<Option<string>>, i: int)
    requires |files| == |answers| && 0 <= i < |files|
  {
    forall j :: i < j < |files| && files[j].name == files[i].name ==> Snippet(answers[j]).None?
  }

  /** The refresh leaves each name with the snippet of the last non-empty transcript of a
      file so named, and every other name with its old snippet. */
  lemma {:induction false} RecordedLastWins(snippets: map<string, string>, files: seq<AppAudioFile>, answers: seq<Option<string>>)
    requires |files| == |answers|
    ensures var r := Recorded(snippets, files, answers);
            forall i :: 0 <= i < |files| && Snippet(answers[i]).Some? && LastWritten(files, answers, i) ==>
              files[i].name in r && r[files[i].name] == Snippet(answers[i]).value
    ensures var r := Recorded(snippets, files, answers);
            forall k :: k in snippets && !Written(files, answers, k) ==> k in r && r[k] == snippets[k]
  {
    if files != [] {
      var n := |files| - 1;
      var fs, ans := files[..n], answers[..n];
      RecordedLastWins(snippets, fs, ans);
      var before := Recorded(snippets, fs, ans);
      var r := Recorded(snippets, files, answers);
      forall i | 0 <= i < |files| && Snippet(answers[i]).Some? && LastWritten(files, answers, i)
        ensures files[i].name in r && r[files[i].name] == Snippet(answers[i]).value
      {
        if i < n {
          assert fs[i] == files[i] && ans[i] == answers[i];
          assert LastWritten(fs, ans, i) by {
            forall j | i < j < |fs| && fs[j].name == fs[i].name ensures Snippet(ans[j]).None? {
              assert fs[j] == files[j] && ans[j] == answers[j];
            }
          }
          assert !(Snippet(answers[n]).Some? && files[n].name == files[i].name);
        }
      }
      forall k | k in snippets && !Written(files, answers, k) ensures k in r && r[k] == snippets[k] {
        WrittenInPrefix(files, answers, n, k);
        assert !(files[n].name == k && Snippet(answers[n]).Some?);
      }
    }
  }

  /** What `handleRename` leaves behind for a verdict: a refused name shows its message
      and keeps the alert up without calling anything; an accepted one is passed, trimmed,
      to the file manager, whose answer closes the alert or reports the failure. */
  predicate RenameHandled(v: RenameCheck, renameOk: bool, name: string, callsBefore: seq<Call>, calls: seq<Call>,
                          renameError: Option<RenameError>, showRenameAlert: bool)
  {
    match v
    case EmptyName => renameError == Some(CannotBeEmpty) && showRenameAlert && calls == callsBefore
    case NameExists => renameError == Some(AlreadyExists) && showRenameAlert && calls == callsBefore
    case Accepted(trimmed) =>
      && calls == callsBefore + [Rename(name, trimmed)]
      && (renameOk ==> renameError == None && !showRenameAlert)
      && (!renameOk ==> renameError == Some(FailedToRename) && showRenameAlert)
  }

  /** The screen's state (`@State` fields), the files present in the documents directory,
      and the calls made so far. */
  class AudioFilesList {
    var local: set<string>
    var currentlyPlayingFile: Option<AppAudioFile>
    var downloadingFile: Option<AppAudioFile>
    var renamingFile: Option<AppAudioFile>
    var newCustomName: string
    var showRenameAlert: bool
    var renameError: Option<RenameError>
    var transcriptSnippets: map<string, string>
    var transcribingFile: Option<AppAudioFile>
    var calls: seq<Call>

    constructor(local: set<string>)
      ensures this.local == local && calls == [] && transcriptSnippets == map[]
      ensures currentlyPlayingFile == None && downloadingFile == None && transcribingFile == None
      ensures renamingFile == None && newCustomName == "" && !showRenameAlert && renameError == None
    {
      this.local := local;
      currentlyPlayingFile, downloadingFile, transcribingFile := None, None, None;
      renamingFile, newCustomName, showRenameAlert, renameError := None, "", false, None;
      transcriptSnippets, calls := map[], [];
    }

    /** Tapping a row opens the rename alert, pre-filled with its custom name. */
    method BeginRename(file: AppAudioFile)
      modifies this
      ensures renamingFile == Some(file) && newCustomName == CustomOrEmpty(file)
      ensures showRenameAlert && renameError == None
      ensures local == old(local) && calls == old(calls) && transcriptSnippets == old(transcriptSnippets)
      ensures currentlyPlayingFile == old(currentlyPlayingFile) && downloadingFile == old(downloadingFile)
      ensures transcribingFile == old(transcribingFile)
    {
      renamingFile := Some(file);
      newCustomName := CustomOrEmpty(file);
      showRenameAlert := true;
      renameError := None;
    }

    /** `handleRename()`: an empty or clashing name is refused with a message and the alert
        stays up; otherwise the trimmed text goes to the file manager, whose answer
        (`renameOk`) closes the alert or reports the failure. */
    method HandleRename(files: seq<AppAudioFile>, renameOk: bool)
      modifies this
      ensures renamingFile.None? ==>
                renameError == old(renameError) && showRenameAlert == old(showRenameAlert) && calls == old(calls)
      ensures renamingFile.Some? ==>
                RenameHandled(CheckRename(files, renamingFile.value, newCustomName), renameOk, renamingFile.value.name,
                              old(calls), calls, renameError, showRenameAlert)
      ensures renamingFile == old(renamingFile) && newCustomName == old(newCustomName)
      ensures local == old(local) && transcriptSnippets == old(transcriptSnippets)
      ensures currentlyPlayingFile == old(currentlyPlayingFile) && downloadingFile == old(downloadingFile)
      ensures transcribingFile == old(transcribingFile)
    {
      if renamingFile.None? {
        return;
      }
      var file := renamingFile.value;
      ApplyRenameCheck(file.name, CheckRename(files, file, newCustomName), renameOk);
    }

    /** The alert's response to a verdict on the text typed for the row named `name`. */
    method ApplyRenameCheck(name: string, verdict: RenameCheck, renameOk: bool)
      modifies this`renameError, this`showRenameAlert, this`calls
      ensures RenameHandled(verdict, renameOk, name, old(calls), calls, renameError, showRenameAlert)
    {
      if verdict.EmptyName? {
        renameError := Some(CannotBeEmpty);
        showRenameAlert := true;
      } else if verdict.NameExists? {
        renameError := Some(AlreadyExists);
        showRenameAlert := true;
      } else {
        calls := calls + [Rename(name, verdict.trimmed)];
        if !renameOk {
          renameError := Some(FailedToRename);
          showRenameAlert := true;
        } else {
          renameError := None;
          showRenameAlert := false;
        }
      }
    }

    /** `fetchAllTranscriptSnippets()`: asks for each file's transcript in list order and
        records the snippet of every non-empty one. */
    method FetchAllTranscriptSnippets(files: seq<AppAudioFile>, answers: seq<Option<string>>)
      requires |answers| == |files|
      modifies this
      ensures transcriptSnippets == Recorded(old(transcriptSnippets), files, answers)
      ensures local == old(local) && calls == old(calls)
      ensures currentlyPlayingFile == old(currentlyPlayingFile) && downloadingFile == old(downloadingFile)
      ensures transcribingFile == old(transcribingFile) && renamingFile == old(renamingFile)
      ensures renameError == old(renameError) && showRenameAlert == old(showRenameAlert)
      ensures newCustomName == old(newCustomName)
    {
      var i := 0;
      while i < |files|
        invariant 0 <= i <= |files|
        invariant transcriptSnippets == Recorded(old(transcriptSnippets), files[..i], answers[..i])
        invariant local == old(local) && calls == old(calls)
        invariant currentlyPlayingFile == old(currentlyPlayingFile) && downloadingFile == old(downloadingFile)
        invariant transcribingFile == old(transcribingFile) && renamingFile == old(renamingFile)
        invariant renameError == old(renameError) && showRenameAlert == old(showRenameAlert)
        invariant newCustomName == old(newCustomName)
      {
        assert files[..i + 1][..i] == files[..i] && answers[..i + 1][..i] == answers[..i];
        var snippet := Snippet(answers[i]);
        if snippet.Some? {
          transcriptSnippets := transcriptSnippets[files[i].name := snippet.value];
        }
        i := i + 1;
      }
      assert files[..i] == files && answers[..i] == answers;
    }

    /** `handleTranscribe(for:)`: the audio is fetched only when no local copy exists, the
        transcript is uploaded and badged only when it is non-empty, and the in-flight marker
        is cleared on every path. `served` is the download URL (or its failure), `copyOk`
        whether the bytes were written, `transcript` the speech service's answer. */
    method HandleTranscribe(file: AppAudioFile, served: Option<string>, copyOk: bool, transcript: Option<string>)
      modifies this
      ensures transcribingFile == None
      ensures var available := file.name in old(local) || (served.Some? && copyOk);
              && local == (if available then old(local) + {file.name} else old(local))
              && calls == old(calls)
                 + (if file.name in old(local) then [] else [FetchUrl(file.name)])
                 + (if !available then []
                    else [Transcribe(file.name)]
                         + (if Snippet(transcript).Some? then [UploadTranscript(file.name, transcript.value)] else []))
              && transcriptSnippets == (if available && Snippet(transcript).Some?
                                        then old(transcriptSnippets)[file.name := Snippet(transcript).value]
                                        else old(transcriptSnippets))
      ensures currentlyPlayingFile == old(currentlyPlayingFile) && downloadingFile == old(downloadingFile)
      ensures renamingFile == old(renamingFile) && renameError == old(renameError) && newCustomName == old(newCustomName)
      ensures showRenameAlert == old(showRenameAlert)
    {
      transcribingFile := Some(file);
      if file.name !in local {
        calls := calls + [FetchUrl(file.name)];
        if served.Some? {
          if copyOk {
            local := local + {file.name};
          } else {
            transcribingFile := None;
            return;
          }
        } else {
          transcribingFile := None;
          return;
        }
      }
      calls := calls + [Transcribe(file.name)];
      var snippet := Snippet(transcript);
      if snippet.Some? {
        calls := calls + [UploadTranscript(file.name, transcript.value)];
        transcriptSnippets := transcriptSnippets[file.name := snippet.value];
      }
      transcribingFile := None;
    }

    /** `handleAudioPlayback(for:)`: tapping the playing file stops it; tapping another plays
        it, fetching it first when there is no local copy (`served`, `copyOk` as for
        transcription; `playOk` whether the player starts). */
    method HandleAudioPlayback(file: AppAudioFile, served: Option<string>, copyOk: bool, playOk: bool)
      modifies this
      ensures old(currentlyPlayingFile) == Some(file) ==>
                currentlyPlayingFile == None && calls == old(calls) + [StopPlayback]
                && local == old(local) && downloadingFile == old(downloadingFile)
      ensures old(currentlyPlayingFile) != Some(file) ==>
                var fetched := file.name !in old(local) && served.Some? && copyOk;
                var playable := file.name in old(local) || fetched;
                && local == (if fetched then old(local) + {file.name} else old(local))
                && currentlyPlayingFile == (if playable && playOk then Some(file) else old(currentlyPlayingFile))
                && calls == old(calls)
                   + (if file.name in old(local) then [] else [FetchUrl(file.name)])
                   + (if playable && playOk then [Play(file.name)] else [])
                && downloadingFile == (if file.name in old(local) then old(downloadingFile) else None)
      ensures transcriptSnippets == old(transcriptSnippets) && transcribingFile == old(transcribingFile)
      ensures renamingFile == old(renamingFile) && renameError == old(renameError) && newCustomName == old(newCustomName)
      ensures showRenameAlert == old(showRenameAlert)
    {
      if currentlyPlayingFile == Some(file) {
        calls := calls + [StopPlayback];
        currentlyPlayingFile := None;
      } else if file.name in local {
        if playOk {
          calls := calls + [Play(file.name)];
          currentlyPlayingFile := Some(file);
        }
      } else {
        downloadingFile := Some(file);
        calls := calls + [FetchUrl(file.name)];
        if served.Some? && copyOk {
          local := local + {file.name};
          if playOk {
            calls := calls + [Play(file.name)];
            currentlyPlayingFile := Some(file);
          }
        }
        downloadingFile := None;
      }
    }

    /** `deleteAudioFile(_:)`: the local copy is removed first, when there is one (`removeOk`
        whether the removal succeeds), then the remote delete is requested in every case. */
    method DeleteAudioFile(file: AppAudioFile, removeOk: bool)
      modifies this
      ensures calls == old(calls) + (if file.name in old(local) then [RemoveLocal(file.name)] else []) + [DeleteRemote(file.name)]
      ensures local == if removeOk then old(local) - {file.name} else old(local)
      ensures currentlyPlayingFile == old(currentlyPlayingFile) && downloadingFile == old(downloadingFile)
      ensures transcriptSnippets == old(transcriptSnippets) && transcribingFile == old(transcribingFile)
      ensures renamingFile == old(renamingFile) && renameError == old(renameError) && newCustomName == old(newCustomName)
      ensures showRenameAlert == old(showRenameAlert)
    {
      if file.name in local {
        calls := calls + [RemoveLocal(file.name)];
        if removeOk {
          local := local - {file.name};
        }
      }
      calls := calls + [DeleteRemote(file.name)];
    }
  }
}
