/** The pure helpers of the Audiobookshelf add-on's entry script
    (plugin.audio.audiobookshelf/default.py): the sync interval setting,
    locating a position in a multi-file book, time labels, the resume
    conflict policy, the resume guard, the token cache test, the episode
    sort toggle and the key split of the delete route.

    Settings arrive as their raw text, dialog answers as parameters and
    the clock as `now`. */
module AbsDefault {
  import opened Wrappers
  import opened Strings
  import AbsSync
  import AbsDownloads

  // ------------------------------------------------------------ settings

  /** `get_setting_int`: a blank setting gives the default, text Python's
      `int` accepts gives its value, anything else the default. Python's
      `int` also reads digit-group underscores (`1_000`); such text is read
      here as unparsable and gives the default. */
  function SettingInt(raw: string, default: int): (r: int)
    ensures raw == "" ==> r == default
    ensures raw != "" && ParseInt(raw).Some? ==> r == ParseInt(raw).value
    ensures raw != "" && ParseInt(raw).None? ==> r == default
  {
    if raw == "" then default
    else match ParseInt(raw)
      case Some(v) => v
      case None => default
  }

  /** The sync intervals in seconds, by setting index. */
  const Intervals: seq<int> := [10, 15, 30, 60]

  /** `intervals[idx] if idx < len(intervals) else 15`, with Python's list
      indexing: -4..-1 count from the end, anything lower raises IndexError. */
  function SyncIntervalAt(idx: int): (r: Result<int, string>)
    ensures 0 <= idx < 4 ==> r == Ok(Intervals[idx])
    ensures idx >= 4 ==> r == Ok(15)
    ensures -4 <= idx < 0 ==> r == Ok(Intervals[4 + idx])
    ensures idx < -4 <==> r.Err?
    ensures r.Ok? ==> r.value in Intervals
  {
    if idx < |Intervals| then
      if idx >= 0 then Ok(Intervals[idx])
      else if idx >= -|Intervals| then Ok(Intervals[|Intervals| + idx])
      else Err("IndexError")
    else Ok(15)
  }

  /** `get_sync_interval`: the setting's index, default 1, picks an interval. */
  function GetSyncInterval(raw: string): (r: Result<int, string>)
    ensures raw == "" ==> r == Ok(15)
    ensures IsDigits(raw) ==> r.Ok? && r.value in Intervals
  {
    SyncIntervalAt(SettingInt(raw, 1))
  }

  // ------------------------------------------------------------ find_file_for_position

  /** The end of file `i`'s range: the playing time up to and including it. */
  function End(files: seq<AbsDownloads.AudioFile>, i: nat): int
    requires i < |files|
  {
    AbsDownloads.Offset(files, i + 1)
  }

  /** What the scan of `find_file_for_position` answers for `position` in
      `files`: the first file whose range ends after the position, with the
      seek and that file's offset; past the end the last file, seek 0 and the
      last file's offset; no files, `(None, 0, 0)`. */
  predicate Scanned(files: seq<AbsDownloads.AudioFile>, position: int,
                    file: Option<AbsDownloads.AudioFile>, seek: int, offset: int)
  {
    ((exists j :: 0 <= j < |files| && position < End(files, j)) ==>
       exists i :: 0 <= i < |files| && position < End(files, i) &&
                   (forall k :: 0 <= k < i ==> End(files, k) <= position) &&
                   file == Some(files[i]) && offset == AbsDownloads.Offset(files, i) &&
                   seek == position - offset) &&
    ((forall j :: 0 <= j < |files| ==> End(files, j) <= position) ==>
       seek == 0 &&
       if files == [] then file == None && offset == 0
       else file == Some(files[|files| - 1]) && offset == AbsDownloads.Offset(files, |files| - 1))
  }

  /** The scan of `find_file_for_position` over already sorted files: the
      first file whose range ends after the position (no lower bound is
      checked), with the seek and that file's offset; past the end the last
      file, seek 0 and the last file's offset; no files, `(None, 0, 0)`. */
  method ScanFiles(files: seq<AbsDownloads.AudioFile>, position: int)
    returns (file: Option<AbsDownloads.AudioFile>, seek: int, offset: int)
    ensures Scanned(files, position, file, seek, offset)
  {
    var cumulative := 0;
    var i := 0;
    while i < |files|
      invariant 0 <= i <= |files|
      invariant cumulative == AbsDownloads.Offset(files, i)
      invariant forall k :: 0 <= k < i ==> End(files, k) <= position
    {
      var d := files[i].duration;
      if position < cumulative + d {
        assert End(files, i) == cumulative + d;
        return Some(files[i]), position - cumulative, cumulative;
      }
      cumulative := cumulative + d;
      i := i + 1;
    }
    if |files| > 0 {
      var last := files[|files| - 1];
      return Some(last), 0, cumulative - last.duration;
    }
    return None, 0, 0;
  }

  /** `find_file_for_position`: the files are first sorted by index. */
  method FindFileForPosition(audioFiles: seq<AbsDownloads.AudioFile>, position: int)
    returns (file: Option<AbsDownloads.AudioFile>, seek: int, offset: int)
    ensures audioFiles == [] ==> file == None && seek == 0 && offset == 0
    ensures file.Some? ==> file.value in audioFiles
    ensures Scanned(AbsDownloads.SortByIndex(audioFiles), position, file, seek, offset)
  {
    var files := AbsDownloads.SortByIndex(audioFiles);
    assert audioFiles == [] ==> files == [];
    file, seek, offset := ScanFiles(files, position);
    if file.Some? {
      assert file.value in multiset(files);
    }
  }

  /** With no negative durations and a position that is not negative, the
      file the scan stops at really holds the position: the seek lies in
      `[0, duration)`. */
  lemma FirstEndCovers(files: seq<AbsDownloads.AudioFile>, position: int, i: nat)
    requires forall k :: 0 <= k < |files| ==> files[k].duration >= 0
    requires 0 <= position
    requires i < |files| && position < End(files, i)
    requires forall k :: 0 <= k < i ==> End(files, k) <= position
    ensures AbsDownloads.Covers(files, i, position)
    ensures 0 <= position - AbsDownloads.Offset(files, i) < files[i].duration
  {
    if i > 0 {
      assert End(files, i - 1) <= position;
    }
  }

  // ------------------------------------------------------------ format_time

  /** The hours, minutes and seconds `format_time` shows, by floor division. */
  function Clock(seconds: int): (r: (int, int, int))
    ensures 0 <= r.1 < 60 && 0 <= r.2 < 60
    ensures r.0 * 3600 + r.1 * 60 + r.2 == seconds
    ensures seconds >= 0 ==> r.0 >= 0
  {
    (seconds / 3600, (seconds % 3600) / 60, seconds % 60)
  }

  /** `format_time`: "Hh Mm" with hours, else "Mm Ss" with minutes, else "Ss". */
  function FormatTime(seconds: int): (r: string)
    ensures |r| > 0
    ensures 'h' in r <==> seconds >= 3600
    ensures r[|r| - 1] == if seconds >= 3600 then 'm' else 's'
    ensures 0 <= seconds < 3600 ==> ('m' in r <==> seconds >= 60)
  {
    var (h, m, s) := Clock(seconds);
    if h > 0 then IntToStr(h) + "h " + NatToStr(m) + "m"
    else if m > 0 then NatToStr(m) + "m " + NatToStr(s) + "s"
    else NatToStr(s) + "s"
  }

  /** The number of leading decimal digits of `s`. */
  function LeadingDigits(s: string): (n: nat)
    ensures n <= |s|
  {
    if s != [] && IsDigit(s[0]) then 1 + LeadingDigits(s[1..]) else 0
  }

  /** A digit string followed by a non-digit has exactly its own length of
      leading digits. */
  lemma {:induction false} LeadingDigitsOf(a: string, x: char, rest: string)
    requires forall i :: 0 <= i < |a| ==> IsDigit(a[i])
    requires !IsDigit(x)
    ensures LeadingDigits(a + [x] + rest) == |a|
  {
    if a != [] {
      assert (a + [x] + rest)[1..] == a[1..] + [x] + rest;
      LeadingDigitsOf(a[1..], x, rest);
    }
  }

  /** Two digit strings followed by the same non-digit are equal, and so are
      the rests. */
  lemma DigitsPrefixCancel(a: string, c: string, x: char, r1: string, r2: string)
    requires IsDigits(a) && IsDigits(c) && !IsDigit(x)
    requires a + [x] + r1 == c + [x] + r2
    ensures a == c && r1 == r2
  {
    LeadingDigitsOf(a, x, r1);
    LeadingDigitsOf(c, x, r2);
    assert a == (a + [x] + r1)[..|a|];
    assert c == (c + [x] + r2)[..|c|];
    assert r1 == (a + [x] + r1)[|a| + 1..];
    assert r2 == (c + [x] + r2)[|c| + 1..];
  }

  /** A "Mm Ss" label determines its minutes and seconds. */
  lemma MinutesLabelCancel(m1: nat, x1: nat, m2: nat, x2: nat)
    requires NatToStr(m1) + ['m'] + ([' '] + NatToStr(x1) + ['s']) ==
             NatToStr(m2) + ['m'] + ([' '] + NatToStr(x2) + ['s'])
    ensures m1 == m2 && x1 == x2
  {
    var t1, t2 := [' '] + NatToStr(x1) + ['s'], [' '] + NatToStr(x2) + ['s'];
    DigitsPrefixCancel(NatToStr(m1), NatToStr(m2), 'm', t1, t2);
    NatToStrInjective(m1, m2);
    assert NatToStr(x1) == t1[1..|t1| - 1];
    assert NatToStr(x2) == t2[1..|t2| - 1];
    NatToStrInjective(x1, x2);
  }

  /** Between a minute and an hour the label is "Mm Ss". */
  lemma FormatTimeMinutes(seconds: int)
    requires 60 <= seconds < 3600
    ensures Clock(seconds).0 == 0 && Clock(seconds).1 > 0
    ensures FormatTime(seconds) ==
            NatToStr(Clock(seconds).1) + ['m'] + ([' '] + NatToStr(Clock(seconds).2) + ['s'])
  {
  }

  /** Under a minute the label is "Ss". */
  lemma FormatTimeSeconds(seconds: int)
    requires 0 <= seconds < 60
    ensures Clock(seconds) == (0, 0, seconds)
    ensures FormatTime(seconds) == NatToStr(seconds) + ['s']
  {
  }

  /** Under an hour the label loses nothing: two durations in `[0, 3600)`
      with the same label are equal. */
  lemma {:induction false} FormatTimeInjectiveUnderHour(s1: int, s2: int)
    requires 0 <= s1 < 3600 && 0 <= s2 < 3600
    requires FormatTime(s1) == FormatTime(s2)
    ensures s1 == s2
  {
    if s1 >= 60 {
      FormatTimeMinutes(s1);
      FormatTimeMinutes(s2);
      MinutesLabelCancel(Clock(s1).1, Clock(s1).2, Clock(s2).1, Clock(s2).2);
    } else {
      FormatTimeSeconds(s1);
      FormatTimeSeconds(s2);
      var f := FormatTime(s1);
      assert NatToStr(s1) == f[..|f| - 1];
      assert NatToStr(s2) == f[..|f| - 1];
      NatToStrInjective(s1, s2);
    }
  }

  // ------------------------------------------------------------ resolve_progress_conflict

  /** `resolve_progress_conflict`: policy 0 keeps the server time, 1 the local
      time, 2 the furthest; any other policy asks, where `choice` is the
      dialog's answer (-1 when cancelled, which keeps the server time). */
  function ResolveProgressConflict(serverTime: int, localTime: int, policy: int, choice: int): (r: int)
    ensures r == serverTime || r == localTime
    ensures r >= serverTime || r >= localTime
    ensures policy == 0 ==> r == serverTime
    ensures policy == 1 ==> r == localTime
    ensures policy == 2 ==> r >= serverTime && r >= localTime
    // no recognised policy: the dialog decides (0 server, 1 local, 2 the larger; cancel keeps the server time)
    ensures policy !in {0, 1, 2} && choice == 1 ==> r == localTime
    ensures policy !in {0, 1, 2} && choice == 2 ==> r == AbsSync.Max(serverTime, localTime)
    ensures policy !in {0, 1, 2} && choice !in {1, 2} ==> r == serverTime
  {
    var pick := if policy in {0, 1, 2} then policy else choice;
    if pick == 1 then localTime
    else if pick == 2 then AbsSync.Max(serverTime, localTime)
    else serverTime
  }

  /** `ask_resume`: below ten seconds the dialog is not shown and the answer
      is no; otherwise the user's `answer` decides. */
  function AskResume(currentTime: int, answer: bool): (r: bool)
    ensures r ==> currentTime >= 10
    ensures currentTime >= 10 ==> r == answer
  {
    if currentTime < 10 then false else answer
  }

  // ------------------------------------------------------------ token cache

  /** The token cache file: each key may be absent. */
  datatype TokenCache = TokenCache(token: Option<string>, url: Option<string>, expires: Option<int>)

  /** The test that reuses a cached token: a non-empty token, the same URL
      and an expiry (default 0) later than now. */
  /** `token_cache.get('expires', 0)`. */
  function ExpiryOr0(cache: TokenCache): int
  {
    if cache.expires.Some? then cache.expires.value else 0
  }

  predicate TokenCacheValid(cache: TokenCache, url: string, now: int)
    ensures TokenCacheValid(cache, url, now) ==>
              cache.token.Some? && cache.token.value != [] && cache.url == Some(url)
    ensures TokenCacheValid(cache, url, now) <==>
              cache.token.Some? && cache.token.value != [] && cache.url == Some(url) && now < ExpiryOr0(cache)
  {
    cache.token.Some? && cache.token.value != "" &&
    cache.url == Some(url) &&
    (match cache.expires case Some(e) => e > now case None => 0 > now)
  }

  /** A cached token stays usable for earlier times only: once expired it
      never becomes valid again, and it is never valid for another URL. */
  lemma TokenCacheExpiry(cache: TokenCache, url: string, t1: int, t2: int)
    requires t1 <= t2
    ensures TokenCacheValid(cache, url, t2) ==> TokenCacheValid(cache, url, t1)
    ensures TokenCacheValid(cache, url, t1) ==> cache.url == Some(url)
    ensures cache.expires.None? && t1 >= 0 ==> !TokenCacheValid(cache, url, t1)
  {
  }

  // ------------------------------------------------------------ episode sort toggle

  /** The episode sort orders, in toggle order. */
  const SortOrders: seq<string> := ["date", "date_old", "title", "episode", "duration"]

  /** `next_sort.get(sort_by, 'date')`. */
  function NextSort(sortBy: string): (r: string)
    ensures r in SortOrders
    ensures sortBy !in SortOrders ==> r == "date"
  {
    if sortBy == "date" then "date_old"
    else if sortBy == "date_old" then "title"
    else if sortBy == "title" then "episode"
    else if sortBy == "episode" then "duration"
    else "date"
  }

  /** `n` successive applications of `step`. */
  function Iterate(step: string -> string, n: nat, s: string): string
  {
    if n == 0 then s else step(Iterate(step, n - 1, s))
  }

  /** The order shown after pressing the sort toggle `n` times. */
  function IterateSort(n: nat, sortBy: string): string
  {
    Iterate(NextSort, n, sortBy)
  }

  /** Each toggle moves one place along the cycle of five orders. */
  lemma NextSortStep(i: nat)
    requires i < |SortOrders|
    ensures NextSort(SortOrders[i]) == SortOrders[(i + 1) % |SortOrders|]
  {
  }

  /** The five orders are different strings. */
  lemma SortOrdersDistinct(a: nat, b: nat)
    requires a < |SortOrders| && b < |SortOrders| && SortOrders[a] == SortOrders[b]
    ensures a == b
  {
  }

  /** Moving `n` places round a cycle of five returns to the start exactly
      when `n` is a multiple of five. */
  lemma ShiftReturns(i: nat, n: nat)
    requires i < 5
    ensures (i + n) % 5 == i <==> n % 5 == 0
  {
    assert i + n == (i + n % 5) + 5 * (n / 5);
  }

  /** n toggles from a known order land on order `(i + n) % 5`. */
  lemma SortSteps(i: nat, n: nat)
    requires i < |SortOrders|
    ensures IterateSort(n, SortOrders[i]) == SortOrders[(i + n) % 5]
  {
    forall j | 0 <= j < 5
      ensures NextSort(SortOrders[j]) == SortOrders[(j + 1) % 5]
    {
      NextSortStep(j);
    }
    IterateCycle(NextSort, SortOrders, i, n);
  }

  /** Iterating a step that moves one place along a cycle of five strings
      moves `n` places. */
  lemma {:induction false} IterateCycle(step: string -> string, orders: seq<string>, i: nat, n: nat)
    requires |orders| == 5 && i < 5
    requires forall j :: 0 <= j < 5 ==> step(orders[j]) == orders[(j + 1) % 5]
    ensures Iterate(step, n, orders[i]) == orders[(i + n) % 5]
  {
    if n == 0 {
      assert (i + n) % 5 == i;
    } else {
      IterateCycle(step, orders, i, n - 1);
      ModStep(i + (n - 1), i + n);
    }
  }

  lemma ModStep(m: nat, m': nat)
    requires m' == m + 1
    ensures (m % 5 + 1) % 5 == m' % 5
  {
    var q, r := m / 5, m % 5;
    assert m == 5 * q + r;
    if r < 4 {
      assert m + 1 == 5 * q + (r + 1);
    } else {
      assert m + 1 == 5 * (q + 1);
    }
  }

  /** The toggle has period exactly five on the known orders. */
  lemma SortCycle(i: nat, n: nat)
    requires i < |SortOrders|
    ensures IterateSort(n, SortOrders[i]) == SortOrders[i] <==> n % |SortOrders| == 0
  {
    SortSteps(i, n);
    ShiftReturns(i, n);
    if SortOrders[(i + n) % 5] == SortOrders[i] {
      SortOrdersDistinct((i + n) % 5, i);
    }
  }

  // ------------------------------------------------------------ delete route

  /** `key.split('_', 1)`: the item id, and the episode id when there is a rest. */
  function DeleteKeySplit(key: string): (r: (string, Option<string>))
    ensures '_' !in r.0
    ensures r.1.None? ==> r.0 == key
    ensures r.1.Some? ==> key == r.0 + "_" + r.1.value
  {
    SplitOnce(key, '_')
  }

  /** `delete_download` in the entry script: a non-empty `key` overrides the
      ids; the download manager is called only for a non-empty item id. */
  function DeleteTarget(itemId: string, episodeId: Option<string>, key: string): (r: Option<(string, Option<string>)>)
    ensures key != "" ==> r == (if DeleteKeySplit(key).0 == "" then None else Some(DeleteKeySplit(key)))
    ensures key == "" ==> r == (if itemId == "" then None else Some((itemId, episodeId)))
  {
    var (i, e) := if key != "" then DeleteKeySplit(key) else (itemId, episodeId);
    if i == "" then None else Some((i, e))
  }

  /** Deleting by the key of a download reaches that download: the key splits
      back into the item and episode it was made from, provided the item id
      is non-empty and has no `_`. */
  lemma DeleteByKeyInvertsProgressKey(itemId: string, episodeId: Option<string>)
    requires itemId != "" && '_' !in itemId
    ensures DeleteTarget("", None, AbsSync.ProgressKey(itemId, episodeId)) ==
            Some((itemId, if AbsSync.Truthy(episodeId) then episodeId else None))
  {
    AbsSync.ProgressKeySplit(itemId, episodeId);
  }
}
