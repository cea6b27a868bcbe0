# Whisper push-to-talk core, modelled in Dafny

Whisper is an iOS push-to-talk app. Holding the big button records an audio clip. Releasing it stops
the recorder and uploads the clip to the "audio" folder of a remote blob store. The
"Recorded Files" screen lists that folder newest first. A row can be renamed, played,
transcribed or deleted there. A second screen sends clips directly to one chosen user,
shows the conversation with that user, and lets the sender add users by name. A direct clip
also goes through the recorder's upload, so it lands in the same shared folder.

The model covers the Swift files that hold this behaviour:

- `recorder.dfy` covers `AudioRecorder`. It names a recording after the clock
  ("MM-dd-HH-mm-ss.m4a") and holds the live recorder. On stop, it hands the file to the upload.
- `bartender.dfy` covers `AudioFileManager`. It keeps the published list in step with the
  remote folder: listing, upload, delete and download-URL lookup.
- `fileslist.dfy` covers `AudioFilesListView`. This includes row titles and status dots, the
  rename checks and alert, transcript snippets, playback, transcription and deletion.
- `directmessages.dfy` covers `DirectMessageView`. This includes which stored messages form
  a conversation and their order, which side a bubble is drawn on, avatar initials, and the
  "Add User" form. After a non-blank edit, the suggestions shown stay those of the previous
  search, which may include the text just typed, until the new search answers
  (`ReceiveSuggestions`), which filters the current text out.
- `pushtotalk.dfy` covers `ContentViewModel` and `DMViewModel`, the press-and-hold gesture
  on both screens.
- `text.dfy` covers the Foundation string and URL operations the code relies on. These are
  trimming of whitespace and newlines, case mapping, `prefix`, `appendingPathComponent` and
  `lastPathComponent`.
- `sorting.dfy` is the sort used for "newest first" and "oldest first".

Two pieces of outside state are fields of the classes that hold them. The remote "audio"
folder is `remote` in `Bartender.AudioFileManager`: a map from object name to creation time,
where the creation time is `None` when the object's metadata cannot be read. The set of clips
present on the device is `local` in `FilesList.AudioFilesList`. Every other outside answer is
a parameter of the handler that receives it: whether a remote put, delete or listing succeeds
(`putOk`, `reachable`, `listOk`), the download URL served (`served`), whether a local copy,
removal, playback or rename succeeds (`copyOk`, `removeOk`, `playOk`, `renameOk`), a
transcript (`transcript`, or `answers`, one per file in list order), the clock (`now`), the
audio session (`sessionOk`), and the user search and lookup results (`names`, `found`).
Some requests are appended to a log field, so contracts can state which of them were made
and in what order: `calls` (downloads, transcriptions, playback, deletion and renames from
the file list), `uploads` (the recorder), `log` (the gesture screens), `searches` and
`lookups` (the "Add User" form). The remote put, delete and list requests of
`AudioFileManager` are not logged; their effect is stated on `remote` and `audioFiles`
instead. Reads of stored transcripts are not logged either.

The rename duplicate check (`AudioFilesListView.swift:197`) compares the new name only with
the other rows' *custom names*, ignoring case, and a missing custom name counts as "". It
does not compare with the titles the rows show.
`FilesList.RenameMayRepeatAShownTitle` proves what this allows: when neither of two rows
has a custom name, one row can be renamed to the other row's file name, and the two rows
then show the same title.

## Model

| member | source | states |
|---|---|---|
| Text.Trim | Whisper/AudioFilesListView.swift:191 | the result is empty exactly when the input is all whitespace or newlines, otherwise it starts and ends with a non-whitespace character |
| Text.SkipForward | Whisper/DirectMessageView.swift:193 | the leading half of `trimmingCharacters(in:)`: the index returned is the first one from the start position whose character is not whitespace (or the end), and everything skipped is whitespace |
| Text.SkipBackward | Whisper/DirectMessageView.swift:230 | the trailing half of `trimmingCharacters(in:)`: the index returned is just past the last character that is not whitespace (or the lower bound), and everything skipped is whitespace |
| Text.TrimIsInfix | Whisper/DirectMessageView.swift:230 | the trimmed text is the input itself with its leading and trailing whitespace removed: it is the slice of the input that starts at the first character that is not whitespace, and everything before and after that slice is whitespace |
| Text.Lower | Whisper/AudioFilesListView.swift:197 | same length, each character lower-cased |
| Text.Upper | Whisper/DirectMessageView.swift:172 | same length, each character upper-cased |
| Text.Prefix | Whisper/AudioFilesListView.swift:215 | the first `n` characters, or the whole text when it is shorter |
| Text.UpperIsCaseInsensitiveCopy | Whisper/DirectMessageView.swift:172 | upper-casing leaves no lower-case letter and does not change the text when case is ignored |
| Paths.LastPathComponent | Whisper/FileBartender.swift:41 | the result is a suffix of the URL containing no '/' |
| Paths.LastIsLongest | Whisper/FileBartender.swift:41 | the component taken is the whole URL or starts right after a '/', so it is everything after the last '/' |
| Paths.LastOfAppended | Whisper/AudioRecorder.swift:77 | the last component of `dir` with a name appended is that name |
| Sorting.Insert | Whisper/FileBartender.swift:32 | inserting into a sorted list keeps it sorted by the key and adds exactly that element |
| Sorting.SortBy | Whisper/FileBartender.swift:32 | the result is a permutation of the input, sorted by the key |
| Recorder.Pad2 | Whisper/AudioRecorder.swift:74 | two decimal digits that spell the field value, zero-padded |
| Recorder.Pad2Injective | Whisper/AudioRecorder.swift:74 | two field values print alike exactly when they are equal |
| Recorder.FileName | Whisper/AudioRecorder.swift:73-75 | the name is laid out as "MM-dd-HH-mm-ss.m4a": the five two-digit fields for month, day, hour, minute and second, separated by '-', then ".m4a"; 18 characters, with no '/' |
| Recorder.SameNameIffSameSecond | Whisper/AudioRecorder.swift:74-75 | two clocks give the same name exactly when month, day, hour, minute and second agree, so recordings a year apart collide |
| Recorder.RecordingUrl | Whisper/AudioRecorder.swift:72-78 | the URL's last path component, which becomes the remote key on upload, is the file name |
| Recorder.AudioRecorder.StartRecording | Whisper/AudioRecorder.swift:16-36 | when the session can be set up, the handle is a recorder on a freshly named file in the documents directory; otherwise nothing changes |
| Recorder.AudioRecorder.StopRecording | Whisper/AudioRecorder.swift:62-70 | the live recording, if any, is handed to the upload, and the handle is cleared in every case |
| Bartender.MirrorContents | Whisper/FileBartender.swift:26-31 | a list mirroring the folder has exactly one row per object (the name, no URL, and the creation time or the distant past), and no name repeats |
| Bartender.ReadableBeforeUnreadable | Whisper/FileBartender.swift:29-32 | in the sorted mirror, an object with readable metadata comes before every object without it |
| Bartender.AudioFileManager.FetchAudioFiles | Whisper/FileBartender.swift:23-36 | a successful listing replaces the list with a newest-first mirror of the folder; a failed one keeps the old list |
| Bartender.AudioFileManager.UploadAudioFile | Whisper/FileBartender.swift:40-49 | a successful put stores the object under the URL's last path component with the creation time its metadata read gives (or `None`); when the listing then succeeds, the list mirrors the folder, is newest first and contains that object's row; a failed put changes neither the folder nor the list |
| Bartender.AudioFileManager.DeleteAudioFile | Whisper/FileBartender.swift:53-61 | when the store is reachable and holds the name, the object is removed and the refreshed list has no row with that name; otherwise the folder and list stay as they were |
| Bartender.AudioFileManager.DownloadAudioFile | Whisper/FileBartender.swift:64-73 | a URL is returned exactly when the object exists and the store serves one, and it is the served URL |
| FilesList.DisplayName | Whisper/AudioFilesListView.swift:36 | the title is the custom name when it is non-empty, otherwise the file name |
| FilesList.CheckRename | Whisper/AudioFilesListView.swift:190-201 | the verdict is "empty" exactly when the text trims to nothing, and "exists" exactly when another row's custom name equals the trimmed text ignoring case; otherwise the trimmed text is accepted |
| FilesList.OwnRowNeverClashes | Whisper/AudioFilesListView.swift:197 | the verdict is the same when the row being renamed, and any row with its name, is removed from the list |
| FilesList.UncustomisedRowsNeverClash | Whisper/AudioFilesListView.swift:197 | rows without a custom name never cause "Name already exists." |
| FilesList.RenameMayRepeatAShownTitle | Whisper/AudioFilesListView.swift:197 | two rows without custom names: renaming one to the other's file name is accepted and the two titles become equal |
| FilesList.Snippet | Whisper/AudioFilesListView.swift:214-215 | a snippet exists exactly for a non-empty transcript, and it is the transcript's first two characters (fewer only for a one-character transcript) |
| FilesList.StatusDot | Whisper/AudioFilesListView.swift:55-61 | yellow exactly while this file downloads, otherwise green exactly when a local copy exists, otherwise red |
| FilesList.RecordedFromTranscripts | Whisper/AudioFilesListView.swift:212-219 | every snippet after the refresh was already there or is the snippet of a non-empty transcript of a file with that name |
| FilesList.RecordedCoversTranscribed | Whisper/AudioFilesListView.swift:212-219 | no snippet is dropped, and every file with a non-empty transcript gets one |
| FilesList.RecordedLastWins | Whisper/AudioFilesListView.swift:213-216 | each name ends with the snippet of the last non-empty transcript of a file so named (later writes overwrite earlier ones), and every name no such file carries keeps its old snippet |
| FilesList.AudioFilesList.BeginRename | Whisper/AudioFilesListView.swift:84-89 | tapping a row opens the alert for that row, pre-filled with its custom name, with no error |
| FilesList.AudioFilesList.HandleRename | Whisper/AudioFilesListView.swift:189-210 | with no row being renamed nothing happens; otherwise the alert shows the outcome of the rename check on the typed text, and only an accepted name reaches the file manager |
| FilesList.AudioFilesList.ApplyRenameCheck | Whisper/AudioFilesListView.swift:192-209 | a refused name sets its message and keeps the alert up with no call; an accepted name is sent trimmed, then the alert closes on success or shows "Failed to rename." |
| FilesList.AudioFilesList.FetchAllTranscriptSnippets | Whisper/AudioFilesListView.swift:212-219 | after asking for each file's transcript in list order, the snippets are the old ones updated with every non-empty transcript's snippet |
| FilesList.AudioFilesList.HandleTranscribe | Whisper/AudioFilesListView.swift:221-246 | the audio is fetched only when there is no local copy; a failed fetch or copy ends the handler; a non-empty transcript is uploaded and badged; the in-flight marker is cleared on every path |
| FilesList.AudioFilesList.HandleAudioPlayback | Whisper/AudioFilesListView.swift:135-178 | tapping the playing row stops it; another row is played from its local copy, which is fetched first when missing and the downloading marker is cleared afterwards |
| FilesList.AudioFilesList.DeleteAudioFile | Whisper/AudioFilesListView.swift:180-187 | the removal of the local copy is requested when one is present (it goes only when the removal succeeds), and the remote delete is requested in every case |
| DirectMessages.Between | Whisper/DirectMessageView.swift:259 | keeps exactly the messages sent between the two users, each with its multiplicity |
| DirectMessages.BetweenSymmetric | Whisper/DirectMessageView.swift:259 | the selection does not depend on which participant is "me" |
| DirectMessages.Conversation | Whisper/DirectMessageView.swift:257-264 | the messages between the stored id and the other user's id (each "" when missing), as a permutation of that selection, oldest first |
| DirectMessages.ConversationSymmetric | Whisper/DirectMessageView.swift:257-264 | swapping the two ids gives the same conversation |
| DirectMessages.MineIffToOther | Whisper/DirectMessageView.swift:271 | between two different users, a bubble is drawn on my side exactly when its message is addressed to the other user |
| DirectMessages.Initials | Whisper/DirectMessageView.swift:172 | "?" for a missing name, otherwise up to two characters that equal the name's first two ignoring case, with no lower-case letter |
| DirectMessages.WithoutCurrent | Whisper/DirectMessageView.swift:200 | the search results with every copy of the current text removed and everything else kept, duplicates included |
| DirectMessages.AddUserForm.OnChange | Whisper/DirectMessageView.swift:191-204 | clears the error; text that trims to empty clears the suggestions and starts no search; other text starts a search for the text as typed |
| DirectMessages.AddUserForm.Type | Whisper/DirectMessageView.swift:190-191 | the change handler runs only when the text actually changes, with the handler's full effect on the error, the suggestions, the spinner and the searches; otherwise the form is untouched |
| DirectMessages.AddUserForm.ReceiveSuggestions | Whisper/DirectMessageView.swift:199-202 | the suggestions never include the text now in the field, and the spinner stops |
| DirectMessages.AddUserForm.ChooseSuggestion | Whisper/DirectMessageView.swift:211-214 | the chosen name fills the field and the list is cleared; the change handler then runs only if the name differs from the field, so choosing the current text leaves the error, the spinner and the searches as they were |
| DirectMessages.AddUserForm.Add | Whisper/DirectMessageView.swift:229-241 | a field that trims to empty looks nothing up; otherwise the trimmed name is looked up |
| DirectMessages.AddUserForm.ReceiveLookup | Whisper/DirectMessageView.swift:232-239 | a found user closes the sheet, and a missing one shows "User not found in Firestore." |
| PushToTalk.StartsAndStopsAlternate | Whisper/ContentViewModel.swift:20-32 | over any valid gesture history, starts and stops alternate: one more start than stops exactly while the button is held |
| PushToTalk.ContentViewModel.HandleGestureChange | Whisper/ContentViewModel.swift:20-25 | the first drag update presses the button and starts one recording; later updates change nothing |
| PushToTalk.ContentViewModel.HandleGestureEnd | Whisper/ContentViewModel.swift:27-32 | releasing a held button stops the recording, which is uploaded; a release without a press changes nothing |
| PushToTalk.ContentViewModel.ShowAudioFiles | Whisper/ContentViewModel.swift:34-36 | opens the file list and leaves the gesture state alone |
| PushToTalk.DMViewModel.HandleGestureChange | Whisper/DMViewModel.swift:14-19 | as on the broadcast screen |
| PushToTalk.DMViewModel.HandleGestureEnd | Whisper/DMViewModel.swift:21-34 | releasing stops the recording, and the old recorder hands the clip to the upload into the shared "audio" folder, as on the broadcast screen; the clip is sent right after the stop, only when the URL and both receiver fields are present; then a fresh recorder replaces the old one |
| Bartender.Entry | Whisper/FileBartender.swift:28-30 | a listed object's row has the object's name, no download URL, and its creation time, or the distant past when the metadata cannot be read |
| Paths.AppendingPathComponent | Whisper/AudioRecorder.swift:77 | the result starts with the directory and ends with the name, with a '/' right before the name and no other character added |
| FilesList.ClashesWithOther | Whisper/AudioFilesListView.swift:197 | a clash with a non-empty name needs another row with a custom name; when no other row has a custom name, only the empty text clashes, and only if another row exists |
| FilesList.Recorded | Whisper/AudioFilesListView.swift:212-217 | no snippet is dropped, new keys are names of listed files, and a name no listed file carries keeps its snippet |
| DirectMessages.InThread | Whisper/DirectMessageView.swift:259 | a message belongs to the conversation exactly when sender and receiver are set and are the two users, in either order |
| DirectMessages.IsMine | Whisper/DirectMessageView.swift:271 | a bubble is drawn as mine exactly when the sender equals the stored user id; with no stored id, exactly when the sender is unset |

## Left out

- Paths.LastPathComponent: a URL that ends in '/' gives "" here. Foundation skips the trailing '/' and returns the last non-empty component. Recording URLs never end in '/', so the app never reaches this input.

- Remote store and local files: modelled as the state fields `remote` and `local`; the network and disk calls that read and change them are not modelled as I/O, and the remote put, delete and list requests are not logged.
- Audio session, player, speech recogniser, clock, user search and download URLs: I/O. Each becomes the answer it gives (a parameter); only the requests listed above are logged.
- Bartender.AudioFileManager.UploadAudioFile: whether an object's metadata can be read is fixed per object (`remote` stores `None` for an unreadable one) and stays so for later listings; a read that fails on one listing and succeeds on the next is not modelled. Writes to the shared folder by other devices between the put and the listing are not modelled either.
- FilesList.CheckRename, DirectMessages.WithoutCurrent: strings are compared as sequences of Unicode scalars. Swift's `String ==` uses canonical equivalence, so two differently composed spellings of one name count as equal in the app and unequal here. The same holds for the file-name keys of `transcriptSnippets`.
- Concurrency: every `async` handler is modelled as running to completion without interleaving. Two chains in flight at once (for example, two playbacks that overlap) are not modelled.
- Text.Lower: maps ASCII letters only. Swift's `lowercased()` uses full Unicode case mapping, which is not modelled.
- Text.Upper: maps ASCII letters only, for the same reason.
- Text.Prefix: counts characters (Unicode scalars). Swift's `prefix(2)` counts grapheme clusters, which are not modelled.
- Recorder.FileName: the `DateFormatter` is modelled with Gregorian fields and Western digits. The device locale, calendar and time zone are not modelled.
- Bartender.AudioFileManager.FetchAudioFiles: the order among rows with equal timestamps is left open, as `sorted` leaves it open.
- Bartender.AudioFileManager.DownloadAudioFile: nothing is said about the form of the served URL. The store's download URL encodes the object path, and its last component is not the object name.
- `renameAudioFile`, `fetchTranscription`, `transcribeAudioFile`, `uploadTranscription`, `uploadDMMessage`, `searchUsersInFirestore`, `addUserToLocalIfExists` and `deleteUserFromLocal` are not in `FileBartender.swift` at this revision. The screens' handlers take their answers as parameters. Their own implementations are not part of this model.
- `AppAudioFile` is not declared in these files. The model keeps only the fields the screen reads: `name` and `customName`.
- `lastRecordingURL` is not declared on `AudioRecorder` at this revision. `DMViewModel.handleGestureEnd` reads it, so it is a parameter of PushToTalk.DMViewModel.HandleGestureEnd.
- Sends are not modelled in PushToTalk.ContentViewModel: the broadcast screen never sends a direct message, and its `Valid()` states that.
- Which user is selected, the picker sheet, the long-press removal of a local user, and all layout, colours and animation are view state with no rule worth stating.
- The local durable cache of users and messages is an input: a sequence of stored messages and the stored user id. Writes to it are not part of these files.
