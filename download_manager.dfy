/** The Audiobookshelf add-on's offline store
    (plugin.audio.audiobookshelf/download_manager.py): resume positions kept
    while offline with a `synced` flag, the table of downloads, filename
    sanitising, and locating a position inside a multi-file audiobook.

    Files on disk, JSON persistence and notifications are left out; a
    download is its metadata. Positions and durations are whole seconds. */
module AbsDownloads {
  import opened Wrappers
  import opened Sets
  import AbsSync

  /** One audio file of a multi-file download. */
  datatype AudioFile = AudioFile(path: string, index: int, duration: int)

  /** A download's metadata: a title, whether it is multi-file, and its files. */
  datatype DownloadInfo = DownloadInfo(title: string, isMultifile: bool, files: seq<AudioFile>)

  /** One offline resume position. */
  datatype ResumeRecord = ResumeRecord(
    itemId: string,
    episodeId: Option<string>,
    currentTime: int,
    duration: int,
    isFinished: bool,
    updatedAt: int,
    synced: bool)

  // ------------------------------------------------------------ ordering files by index

  predicate SortedByIndex(s: seq<AudioFile>)
  {
    forall i, j :: 0 <= i < j < |s| ==> s[i].index <= s[j].index
  }

  /** Inserts `f` after every file whose index is not larger, which keeps
      files with equal indices in their original order. */
  function InsertByIndex(f: AudioFile, s: seq<AudioFile>): (r: seq<AudioFile>)
    requires SortedByIndex(s)
    ensures SortedByIndex(r)
    ensures multiset(r) == multiset(s) + multiset{f}
    ensures |r| == |s| + 1
    ensures forall x :: x in r ==> x == f || x in s
  {
    if s == [] then [f]
    else if f.index < s[0].index then [f] + s
    else
      var rest := InsertByIndex(f, s[1..]);
      InsertBehindHead(f, s, rest);
      [s[0]] + rest
  }

  /** The first file of a sorted list goes in front of the rest with `f`
      inserted, when `f` does not sort before it. */
  lemma InsertBehindHead(f: AudioFile, s: seq<AudioFile>, rest: seq<AudioFile>)
    requires s != [] && SortedByIndex(s) && s[0].index <= f.index
    requires SortedByIndex(rest) && multiset(rest) == multiset(s[1..]) + multiset{f}
    requires forall x :: x in rest ==> x == f || x in s[1..]
    ensures SortedByIndex([s[0]] + rest)
    ensures multiset([s[0]] + rest) == multiset(s) + multiset{f}
    ensures forall x :: x in [s[0]] + rest ==> x == f || x in s
  {
    assert s == [s[0]] + s[1..];
    forall x | x in rest ensures s[0].index <= x.index {
      if x != f {
        var j :| 0 <= j < |s[1..]| && s[1..][j] == x;
        assert s[j + 1] == x;
      }
    }
    var r := [s[0]] + rest;
    assert forall j :: 1 <= j < |r| ==> r[j] in rest;
  }

  /** `sorted(files, key=lambda x: x.get('index', 0))`: a stable sort by index. */
  function SortByIndex(s: seq<AudioFile>): (r: seq<AudioFile>)
    ensures SortedByIndex(r)
    ensures multiset(r) == multiset(s)
    ensures |r| == |s|
  {
    if s == [] then []
    else
      assert s == s[..|s| - 1] + [s[|s| - 1]];
      InsertByIndex(s[|s| - 1], SortByIndex(s[..|s| - 1]))
  }

  // ------------------------------------------------------------ positions inside a multi-file download

  /** The playing time of the files before index `i`. */
  function Offset(files: seq<AudioFile>, i: nat): int
    requires i <= |files|
  {
    if i == 0 then 0 else Offset(files, i - 1) + files[i - 1].duration
  }

  /** `position` falls within file `i`'s range `[c, c + duration)`. */
  predicate Covers(files: seq<AudioFile>, i: nat, position: int)
    requires i < |files|
  {
    Offset(files, i) <= position < Offset(files, i) + files[i].duration
  }

  /** The rule of `get_file_for_position` over already sorted files: the first
      file whose range holds the position with the seek inside it; past the end
      the last file at seek 0; no files, no file. */
  method LocateInFiles(files: seq<AudioFile>, position: int) returns (path: Option<string>, seek: int)
    ensures forall j :: 0 <= j < |files| && Covers(files, j, position) ==>
              exists i :: 0 <= i <= j && Covers(files, i, position) &&
                          path == Some(files[i].path) && seek == position - Offset(files, i)
    ensures path.Some? && seek != 0 ==> exists i :: 0 <= i < |files| && Covers(files, i, position) && path == Some(files[i].path)
    ensures path.Some? ==> 0 <= seek
    ensures (forall j :: 0 <= j < |files| ==> !Covers(files, j, position)) ==>
              seek == 0 && path == (if files == [] then None else Some(files[|files| - 1].path))
  {
    var cumulative := 0;
    var i := 0;
    while i < |files|
      invariant 0 <= i <= |files|
      invariant cumulative == Offset(files, i)
      invariant forall j :: 0 <= j < i ==> !Covers(files, j, position)
    {
      var d := files[i].duration;
      if cumulative <= position < cumulative + d {
        assert Covers(files, i, position);
        return Some(files[i].path), position - cumulative;
      }
      cumulative := cumulative + d;
      i := i + 1;
    }
    if |files| > 0 {
      return Some(files[|files| - 1].path), 0;
    }
    return None, 0;
  }

  // ------------------------------------------------------------ filenames

  /** The characters `_sanitize_filename` replaces. */
  const InvalidChars: string := "<>:\"/\\|?*"

  /** `str.replace(c, d)` for single characters. */
  function ReplaceChar(s: string, c: char, d: char): (r: string)
    ensures |r| == |s|
    ensures forall i :: 0 <= i < |s| ==> r[i] == if s[i] == c then d else s[i]
  {
    if s == [] then [] else [if s[0] == c then d else s[0]] + ReplaceChar(s[1..], c, d)
  }

  /** `_sanitize_filename`: every character of `<>:"/\|?*` becomes `_`, one for
      one, and the result is cut to 100 characters. */
  method SanitizeFilename(filename: string) returns (r: string)
    ensures |r| == if |filename| < 100 then |filename| else 100
    ensures forall i :: 0 <= i < |r| ==> r[i] == if filename[i] in InvalidChars then '_' else filename[i]
    ensures forall i :: 0 <= i < |r| ==> r[i] !in InvalidChars
  {
    var name := filename;
    for j := 0 to |InvalidChars|
      invariant |name| == |filename|
      invariant forall i :: 0 <= i < |name| ==>
                  name[i] == if filename[i] in InvalidChars[..j] then '_' else filename[i]
    {
      name := ReplaceChar(name, InvalidChars[j], '_');
      assert InvalidChars[..j + 1] == InvalidChars[..j] + [InvalidChars[j]];
    }
    assert InvalidChars[..|InvalidChars|] == InvalidChars;
    r := if |name| < 100 then name else name[..100];
  }

  // ------------------------------------------------------------ the manager

  ghost predicate ResumeKeysConsistent(p: map<string, ResumeRecord>)
  {
    forall k :: k in p ==> k == AbsSync.ProgressKey(p[k].itemId, p[k].episodeId)
  }

  /** `get_unsynced_positions`: the entries whose `synced` flag is not set. */
  function Unsynced(p: map<string, ResumeRecord>): (r: map<string, ResumeRecord>)
    ensures forall k :: k in r <==> k in p && !p[k].synced
    ensures forall k :: k in r ==> r[k] == p[k]
  {
    map k | k in p && !p[k].synced :: p[k]
  }

  /** `q` is `p` with exactly the entries in `keys` flagged synced. */
  predicate SyncedExactly(p: map<string, ResumeRecord>, q: map<string, ResumeRecord>, keys: set<string>)
  {
    q.Keys == p.Keys && forall k :: k in p ==> q[k] == if k in keys then p[k].(synced := true) else p[k]
  }

  class DownloadManager {
    var downloads: map<string, DownloadInfo>
    var resumePositions: map<string, ResumeRecord>

    ghost predicate Valid()
      reads this
    {
      ResumeKeysConsistent(resumePositions)
    }

    constructor ()
      ensures Valid() && downloads == map[] && resumePositions == map[]
    {
      downloads := map[];
      resumePositions := map[];
    }

    method SaveResumePosition(itemId: string, episodeId: Option<string>, currentTime: int, duration: int,
                              isFinished: bool, now: int)
      requires Valid()
      modifies this
      ensures Valid()
      ensures resumePositions == old(resumePositions)[AbsSync.ProgressKey(itemId, episodeId) :=
                ResumeRecord(itemId, episodeId, currentTime, duration, isFinished, now, false)]
      ensures downloads == old(downloads)
    {
      var key := AbsSync.ProgressKey(itemId, episodeId);
      resumePositions := resumePositions[key := ResumeRecord(itemId, episodeId, currentTime, duration, isFinished, now, false)];
    }

    /** `get_local_resume_position`. */
    function LocalResumePosition(itemId: string, episodeId: Option<string>): (r: Option<ResumeRecord>)
      reads this
      ensures r.Some? <==> AbsSync.ProgressKey(itemId, episodeId) in resumePositions
      ensures r.Some? ==> r.value == resumePositions[AbsSync.ProgressKey(itemId, episodeId)]
    {
      var key := AbsSync.ProgressKey(itemId, episodeId);
      if key in resumePositions then Some(resumePositions[key]) else None
    }

    method MarkPositionSynced(itemId: string, episodeId: Option<string>)
      requires Valid()
      modifies this
      ensures Valid()
      ensures var key := AbsSync.ProgressKey(itemId, episodeId);
              resumePositions == if key in old(resumePositions)
                                 then old(resumePositions)[key := old(resumePositions)[key].(synced := true)]
                                 else old(resumePositions)
      ensures downloads == old(downloads)
    {
      var key := AbsSync.ProgressKey(itemId, episodeId);
      if key in resumePositions {
        resumePositions := resumePositions[key := resumePositions[key].(synced := true)];
      }
    }

    /** `sync_positions_to_server`: `raising` is the set of keys whose update
        call raises. Every other unsynced entry is flagged synced and counted. */
    method SyncPositionsToServer(raising: set<string>) returns (syncedCount: nat)
      requires Valid()
      modifies this
      ensures Valid()
      ensures syncedCount == |Unsynced(old(resumePositions)).Keys - raising|
      ensures syncedCount <= |Unsynced(old(resumePositions))|
      ensures SyncedExactly(old(resumePositions), resumePositions, Unsynced(old(resumePositions)).Keys - raising)
      ensures Unsynced(resumePositions).Keys == Unsynced(old(resumePositions)).Keys * raising
      ensures downloads == old(downloads)
    {
      var unsynced := Unsynced(resumePositions);
      var todo := unsynced.Keys;
      ghost var done: set<string> := {};
      syncedCount := 0;
      while todo != {}
        invariant done <= unsynced.Keys && todo == unsynced.Keys - done
        invariant Valid() && downloads == old(downloads)
        invariant SyncedExactly(old(resumePositions), resumePositions, done - raising)
        invariant syncedCount == |done - raising|
        decreases |todo|
      {
        var k :| k in todo;
        var ok := SyncOne(old(resumePositions), done, k, unsynced[k], raising);
        if ok {
          syncedCount := syncedCount + 1;
        }
        DoneStep(unsynced.Keys, done, todo, k);
        MinusStep(done, raising, k);
        todo := todo - {k};
        done := done + {k};
      }
      assert done == unsynced.Keys;
      SyncedFinal(old(resumePositions), resumePositions, raising);
    }

    /** One iteration of `sync_positions_to_server`. */
    method SyncOne(ghost p0: map<string, ResumeRecord>, ghost done: set<string>, k: string,
                   pos: ResumeRecord, raising: set<string>) returns (ok: bool)
      requires Valid()
      requires k in p0 && p0[k] == pos && k !in done
      requires SyncedExactly(p0, resumePositions, done - raising)
      modifies this
      ensures Valid() && downloads == old(downloads)
      ensures ok == (k !in raising)
      ensures SyncedExactly(p0, resumePositions, (done + {k}) - raising)
    {
      assert resumePositions[k] == pos;
      if k in raising {
        return false;
      }
      MarkPositionSynced(pos.itemId, pos.episodeId);
      return true;
    }

    /** `delete_download`: false for an unknown key, otherwise the key is removed. */
    method DeleteDownload(itemId: string, episodeId: Option<string>) returns (deleted: bool)
      modifies this
      ensures deleted <==> AbsSync.ProgressKey(itemId, episodeId) in old(downloads)
      ensures downloads == old(downloads) - {AbsSync.ProgressKey(itemId, episodeId)}
      ensures resumePositions == old(resumePositions)
    {
      var key := AbsSync.ProgressKey(itemId, episodeId);
      if key !in downloads {
        return false;
      }
      downloads := downloads - {key};
      return true;
    }

    /** `get_file_for_position`: only a multi-file download of the item has
        files to choose from; they are taken in index order. */
    method GetFileForPosition(itemId: string, position: int) returns (path: Option<string>, seek: int)
      ensures itemId !in downloads || !downloads[itemId].isMultifile ==> path == None && seek == 0
      ensures itemId in downloads && downloads[itemId].isMultifile ==>
                var files := SortByIndex(downloads[itemId].files);
                (forall j :: 0 <= j < |files| && Covers(files, j, position) ==>
                   exists i :: 0 <= i <= j && Covers(files, i, position) &&
                               path == Some(files[i].path) && seek == position - Offset(files, i)) &&
                ((forall j :: 0 <= j < |files| ==> !Covers(files, j, position)) ==>
                   seek == 0 && path == (if files == [] then None else Some(files[|files| - 1].path)))
    {
      if itemId !in downloads || !downloads[itemId].isMultifile {
        return None, 0;
      }
      var files := SortByIndex(downloads[itemId].files);
      path, seek := LocateInFiles(files, position);
    }
  }

  lemma SyncedFinal(p: map<string, ResumeRecord>, q: map<string, ResumeRecord>, raising: set<string>)
    requires SyncedExactly(p, q, Unsynced(p).Keys - raising)
    ensures Unsynced(q).Keys == Unsynced(p).Keys * raising
    ensures |Unsynced(p).Keys - raising| <= |Unsynced(p)|
  {
    SubsetCard(Unsynced(p).Keys - raising, Unsynced(p).Keys);
  }

  lemma MinusStep(done: set<string>, raising: set<string>, k: string)
    requires k !in done
    ensures |(done + {k}) - raising| == |done - raising| + (if k in raising then 0 else 1)
  {
    if k in raising {
      assert (done + {k}) - raising == done - raising;
    } else {
      assert (done + {k}) - raising == (done - raising) + {k};
    }
  }
}
