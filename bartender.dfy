/** `AudioFileManager`: the published list of recordings kept in step with the "audio"
    folder of the remote blob store. */
module Bartender {
  import opened Wrappers
  import opened Paths
  import opened Sorting

  /** One row of the published list. */
  datatype AudioFile = AudioFile(name: string, downloadURL: Option<string>, timestamp: int)

  /** `Date.distantPast` (1 January of year 1), in seconds relative to 1 January 2001. */
  const DistantPast: int := -63114076800

  /** The remote "audio" folder: each object's name and, when its metadata can be read,
      its creation time. */
  type Remote = map<string, Option<int>>

  /** Object names are direct children of the folder, and real creation times lie after
      the distant-past sentinel. */
  predicate ValidRemote(remote: Remote) {
    forall k :: k in remote ==> '/' !in k && (remote[k].Some? ==> remote[k].value > DistantPast)
  }

  /** The row built for one listed object: no download URL yet, and the creation time or,
      when the metadata cannot be read, the distant past. */
  function Entry(name: string, created: Option<int>): (f: AudioFile)
    ensures f.name == name && f.downloadURL.None?
    ensures created.Some? ==> f.timestamp == created.value
    ensures created.None? ==> f.timestamp == DistantPast
  {
    AudioFile(name, None, created.GetOr(DistantPast))
  }

  /** The rows for the listed objects whose names are in `keys`. */
  ghost function ListingOf(remote: Remote, keys: set<string>): set<AudioFile>
    requires keys <= remote.Keys
  {
    set k | k in keys :: Entry(k, remote[k])
  }

  /** `files` holds one row per listed object and nothing else. */
  ghost predicate Mirrors(files: seq<AudioFile>, remote: Remote) {
    multiset(files) == multiset(ListingOf(remote, remote.Keys))
  }

  ghost predicate NewestFirst(files: seq<AudioFile>) {
    forall i, j :: 0 <= i < j < |files| ==> files[i].timestamp >= files[j].timestamp
  }

  /** The sort key of `sorted { $0.timestamp > $1.timestamp }`: ascending in it is newest first. */
  function NewestKey(f: AudioFile): int {
    -f.timestamp
  }

  /** What a mirror of the listing holds: every row is the entry of a listed object, every
      listed object has a row, and no two rows share a name. */
  lemma {:induction false} MirrorContents(files: seq<AudioFile>, remote: Remote)
    requires Mirrors(files, remote)
    ensures forall f :: f in files ==> f.name in remote && f == Entry(f.name, remote[f.name])
    ensures forall k :: k in remote ==> Entry(k, remote[k]) in files
    ensures forall i, j :: 0 <= i < j < |files| ==> files[i].name != files[j].name
  {
    var listing := ListingOf(remote, remote.Keys);
    forall f | f in files ensures f.name in remote && f == Entry(f.name, remote[f.name]) {
      assert f in multiset(files);
      assert f in listing;
    }
    forall k | k in remote ensures Entry(k, remote[k]) in files {
      assert Entry(k, remote[k]) in listing;
      assert Entry(k, remote[k]) in multiset(files);
    }
    forall i, j | 0 <= i < j < |files| ensures files[i].name != files[j].name {
      if files[i].name == files[j].name {
        assert files[i] in files && files[j] in files;
        DuplicateCountsTwice(files, i, j);
      }
    }
  }

  lemma DuplicateCountsTwice<T>(s: seq<T>, i: int, j: int)
    requires 0 <= i < j < |s| && s[i] == s[j]
    ensures multiset(s)[s[j]] >= 2
  {
    assert s == s[..j] + s[j..];
    assert s[i] == s[..j][i] && s[j] == s[j..][0];
    assert multiset(s)[s[j]] == multiset(s[..j])[s[j]] + multiset(s[j..])[s[j]];
  }

  /** A listed object whose metadata could be read is shown above every object whose
      metadata could not. */
  lemma {:induction false} ReadableBeforeUnreadable(files: seq<AudioFile>, remote: Remote, i: int, j: int)
    requires ValidRemote(remote) && Mirrors(files, remote) && NewestFirst(files)
    requires 0 <= i < |files| && 0 <= j < |files|
    requires files[i].name in remote && files[j].name in remote
    requires remote[files[i].name].Some? && remote[files[j].name].None?
    ensures i < j
  {
    MirrorContents(files, remote);
    assert files[i] in files && files[j] in files;
  }

  /** Adding one key to the processed ones adds that key's row to the listing. */
  lemma ListingGrows(remote: Remote, done: set<string>, k: string)
    requires done <= remote.Keys && k in remote && k !in done
    ensures multiset(ListingOf(remote, done + {k})) == multiset(ListingOf(remote, done)) + multiset{Entry(k, remote[k])}
  {
    var e := Entry(k, remote[k]);
    assert ListingOf(remote, done + {k}) == ListingOf(remote, done) + {e};
    assert e !in ListingOf(remote, done);
  }

  class AudioFileManager {
    /** The published list (`@Published var audioFiles`). */
    var audioFiles: seq<AudioFile>
    /** The remote store's "audio" folder. */
    var remote: Remote

    ghost predicate Valid()
      reads this
    {
      ValidRemote(remote)
    }

    constructor(remote: Remote)
      requires ValidRemote(remote)
      ensures Valid() && this.remote == remote && audioFiles == []
    {
      this.remote := remote;
      audioFiles := [];
    }

    /** `fetchAudioFiles()`: when the listing succeeds (`listOk`), one row per listed
        object, newest first, replaces the list; when it throws, the list is kept. */
    method FetchAudioFiles(listOk: bool)
      requires Valid()
      modifies this`audioFiles
      ensures Valid()
      ensures listOk ==> Mirrors(audioFiles, remote) && NewestFirst(audioFiles)
      ensures !listOk ==> audioFiles == old(audioFiles)
    {
      if !listOk {
        return;
      }
      var files: seq<AudioFile> := [];
      var pending := remote.Keys;
      while pending != {}
        invariant pending <= remote.Keys
        invariant multiset(files) == multiset(ListingOf(remote, remote.Keys - pending))
        decreases |pending|
      {
        var k :| k in pending;
        ListingGrows(remote, remote.Keys - pending, k);
        assert remote.Keys - (pending - {k}) == (remote.Keys - pending) + {k};
        files := files + [Entry(k, remote[k])];
        pending := pending - {k};
      }
      assert remote.Keys - pending == remote.Keys;
      audioFiles := SortBy(files, NewestKey);
    }

    /** `uploadAudioFile(_:)`: the local file's last path component is the remote key; the
        list is refreshed only when the put succeeds (`putOk`). `created` is what reading the
        new object's metadata gives: its creation time, or `None` when the read fails. */
    method UploadAudioFile(fileURL: string, created: Option<int>, putOk: bool, listOk: bool)
      requires Valid() && (created.Some? ==> created.value > DistantPast)
      modifies this
      ensures Valid()
      ensures remote == if putOk then old(remote)[LastPathComponent(fileURL) := created] else old(remote)
      ensures putOk && listOk ==> Mirrors(audioFiles, remote) && NewestFirst(audioFiles)
      ensures putOk && listOk ==> Entry(LastPathComponent(fileURL), created) in audioFiles
      ensures !(putOk && listOk) ==> audioFiles == old(audioFiles)
    {
      var fileName := LastPathComponent(fileURL);
      if putOk {
        remote := remote[fileName := created];
        FetchAudioFiles(listOk);
        if listOk {
          MirrorContents(audioFiles, remote);
        }
      }
    }

    /** `deleteAudioFile(_:)`: the remote delete fails when the store cannot be reached
        (`!reachable`) or holds no such object; only a successful delete refreshes the list. */
    method DeleteAudioFile(file: AudioFile, reachable: bool, listOk: bool)
      requires Valid()
      modifies this
      ensures Valid()
      ensures remote == if reachable && file.name in old(remote) then old(remote) - {file.name} else old(remote)
      ensures reachable && file.name in old(remote) && listOk ==>
                Mirrors(audioFiles, remote) && NewestFirst(audioFiles) && forall f :: f in audioFiles ==> f.name != file.name
      ensures !(reachable && file.name in old(remote) && listOk) ==> audioFiles == old(audioFiles)
    {
      if reachable && file.name in remote {
        remote := remote - {file.name};
        FetchAudioFiles(listOk);
        if listOk {
          MirrorContents(audioFiles, remote);
        }
      }
    }

    /** `downloadAudioFile(_:)`: the URL the store serves for the object (`served`, `None`
        when the lookup throws), or `None`; nothing changes. */
    function DownloadAudioFile(file: AudioFile, served: Option<string>): (url: Option<string>)
      reads this
      ensures url.Some? <==> file.name in remote && served.Some?
      ensures url.Some? ==> url == served
    {
      if file.name in remote then served else None
    }
  }
}
