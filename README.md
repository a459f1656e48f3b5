# Verified model of the Kodi-Addons core logic

This project is a Dafny model of the decision rules and state updates that sit under the Kodi glue of the Kodi-Addons repository:

- **Audiobookshelf** (`plugin.audio.audiobookshelf`)
  - `SyncManager` is a class over a keyed table of progress records, with a server oracle. It proves the reconciliation rule: a finished side wins, a lead of more than 5 seconds wins, and otherwise the larger time is kept. It also proves what each update changes and what it leaves alone.
  - `DownloadManager` holds the resume-position table, filename sanitising and multi-file seeking.
  - The plugin's pure helpers: sync interval, `find_file_for_position`, `format_time`, the conflict policy, the resume guard, the token cache, the episode-sort cycle and the delete-key split.
  - `PlaybackMonitor` has the duration clamp and the periodic and final save rules.
- **Suwayomi** (`plugin.video.suwayomi`)
  - The `FullscreenViewer` navigation state machine: page index, two-page pairing, scroll bounds, and the zoom, background and padding cycles.
  - Chapter-name formatting, status labels and truncation.
  - Manga settings, language and hidden-source filters.
  - Thumbnail URLs, the resume, right-to-left and mark-read arithmetic, and the progress label.
  - The hidden-source list edits and chapter selection in `actions.py`.
- **Music Assistant** (`plugin.audio.musicassistant`)
  - Image URL building and image lookup.
  - The `send_command` payload, status and reply rules, and the library and `play_media` argument builders.
  - The hidden-player list and player candidates.
  - Queue index arithmetic, server URL normalisation and the load-more rule.
- **PlexKodiConnect download** (`context.plexkodiconnect.download`)
  - Filename sanitising, episode, song and movie names, extensions, folders and NFO content.
  - `videodb://` / `musicdb://` path classification, menu option indexing and batch counters.
- **Webhook Runner** (`script.webhook.runner`)
  - The webhook store: id allocation, add, update, delete, listing order and run guards.
  - `gen.xml` keymap editing and read-back over a small XML tree datatype.
- **scrcpy launcher** (`script.scrcpy-launcher`)
  - `adb devices` parsing and the USB auto-launch state machine of the service.
  - Render-driver and argument building, and command composition.
- **`generate_repo.py`**: declaration stripping and `addons.xml` assembly.

The model takes the shape of the source:

- Objects whose methods update fields in place are classes, whose methods are proved against specification functions: `SyncManager`, `DownloadManager`, `PlaybackMonitor`, `FullscreenViewer`, the webhook `Store` and `Keymap`, and `ScrcpyMonitor`.
- Loops are methods with invariants.
- Expressions are functions.
- Settings, server replies, dialog choices and file contents are passed in as values.

Python semantics are written out explicitly:

- division truncates;
- negative list indices are handled as Python handles them;
- truthiness is explicit;
- integer seconds stand in for float times;
- the 0.95 and 0.8 ratios are cross-multiplied.

Shared helpers live in `strings.dfy` (ASCII `strip`, `lower`, `split`, `join`, integer printing and parsing), `sets.dfy` and `wrappers.dfy`.

## Model

| member | source | states |
|---|---|---|
| AbsSync.ProgressKeySplit | plugin.audio.audiobookshelf/sync_manager.py:216-220 | the key begins with the item id; when the item id holds no `_`, splitting the key at its first `_` gives back the item id and the (truthy) episode id, so the key format can be inverted |
| AbsSync.ProgressKeyInjective | plugin.audio.audiobookshelf/sync_manager.py:216-220 | for item ids without `_`, two (item, episode) pairs share a progress key only when items are equal and episodes are equally truthy and equal |
| AbsSync.SavedRecord | plugin.audio.audiobookshelf/sync_manager.py:274-293 | the written record carries the given item, episode, time, duration and finished flag; `needs_upload` is `needs_upload and not from_server`; `server_time`/`last_synced` take the new time/clock when from the server and otherwise keep the replaced record's values (0 without one); progress is 0 for a non-positive duration and time/duration otherwise |
| AbsSync.Saved | plugin.audio.audiobookshelf/sync_manager.py:260-304 | saving adds or replaces only the entry at the item's key; every other entry is unchanged, and every entry stays stored under its own key |
| AbsSync.KnownAfter | plugin.audio.audiobookshelf/sync_manager.py:296-300 | after a save the item is among the known items, nothing else is added, the old list is a prefix, it grows by at most one and never holds a duplicate |
| AbsSync.Uploaded | plugin.audio.audiobookshelf/sync_manager.py:306-314 | marking uploaded clears `needs_upload`, sets `last_synced` to the clock and `server_time` to the entry's own position, and touches no other field |
| AbsSync.MarkedUploaded | plugin.audio.audiobookshelf/sync_manager.py:306-314 | the table keeps its keys; only the named entry changes, as `Uploaded` says; an absent key leaves the table as it was |
| AbsSync.Pending | plugin.audio.audiobookshelf/sync_manager.py:316-323 | the pending uploads are exactly the entries whose `needs_upload` is set, with their records unchanged |
| AbsSync.PendingAfterMark | plugin.audio.audiobookshelf/sync_manager.py:306-319 | after marking a key uploaded the pending set is the old one minus that key |
| AbsSync.PendingAfterSave | plugin.audio.audiobookshelf/sync_manager.py:260-319 | after a save the key is pending exactly when saved with `needs_upload` and not from the server; pending status of every other key is unchanged |
| AbsSync.Fetch | plugin.audio.audiobookshelf/sync_manager.py:325-340 | without a library service there is no server reply; with one, the server's answer is returned |
| AbsSync.ResumeChoice | plugin.audio.audiobookshelf/sync_manager.py:374-453 | duration is the larger of the two; a finished side yields position 0 and finished; otherwise the position is the further of the two; the local entry is overwritten from the server exactly when the server alone finished or is more than 5 s ahead; an upload is attempted exactly when online and the local side alone finished (with a known duration) or is more than 5 s ahead; within 5 s nothing is written and the item is not finished; when neither side finished, the result is finished exactly when the server is more than 5 s ahead and its position reaches the threshold share of the longer duration |
| AbsSync.SyncChoice | plugin.audio.audiobookshelf/sync_manager.py:455-512 | no data on either side, or both sides finished, changes nothing; a pull carries the server position and is never taken over a locally finished entry; a push carries the local position and is never taken over a server-finished entry; with any data, it pulls exactly when the local side is unfinished and the server finished or is more than 5 s ahead, and pushes exactly in the mirror-image cases; a pulled position is finished exactly when the server finished or it reaches the threshold share of the longer duration |
| AbsSync.SyncAgreesWithResume | plugin.audio.audiobookshelf/sync_manager.py:374-512 | when there is any data, the bidirectional sync pulls exactly when the resume rule pulls, with the same values, and pushes whatever the resume rule would push |
| AbsSync.PollChoice | plugin.audio.audiobookshelf/sync_manager.py:719-730 | a locally finished entry is never changed; the entry is pulled from the server exactly when the server finished or is more than 5 s ahead, with the server position; the pulled entry is finished exactly when the server finished or its position reaches 95% of the longer duration |
| AbsSync.Polled | plugin.audio.audiobookshelf/sync_manager.py:699-730 | an entry is rewritten only when it has a truthy item id, a server reply and the poll rule pulls; a finished entry is returned unchanged; a rewritten entry takes the server position, the larger duration, clears `needs_upload` and records the sync time, keeps its item and episode, and is finished exactly when the server finished or its position reaches 95% of the longer duration |
| AbsSync.PollConverges | plugin.audio.audiobookshelf/sync_manager.py:719-730 | a second poll with the same server reply does not rewrite an entry the first poll rewrote |
| AbsSync.ResumePullConverges | plugin.audio.audiobookshelf/sync_manager.py:416-443 | once a pulled resume position is written locally, the next resume step with the same server reply does not pull again |
| AbsSync.Applied | plugin.audio.audiobookshelf/sync_manager.py:416-453 | keeping writes nothing; a pull saves the server position with `from_server`; a push marks the entry uploaded only when online and accepted, and otherwise writes nothing; entries stay under their own keys |
| AbsSync.SyncManager.constructor | plugin.audio.audiobookshelf/sync_manager.py:39-66 | a manager starts with an empty, consistent table, no known items and the given service state |
| AbsSync.SyncManager.LocalProgress | plugin.audio.audiobookshelf/sync_manager.py:255-258 | the lookup answers exactly when the item's key is in the table, with the stored record |
| AbsSync.SyncManager.SaveLocalProgress | plugin.audio.audiobookshelf/sync_manager.py:260-304 | the table becomes `Saved(...)` of the old table and the known items `KnownAfter(...)`; the keys-consistent and no-duplicate invariant is kept |
| AbsSync.SyncManager.MarkUploaded | plugin.audio.audiobookshelf/sync_manager.py:306-314 | the table becomes `MarkedUploaded` of the old one; known items and service state unchanged |
| AbsSync.SyncManager.UploadProgressToServer | plugin.audio.audiobookshelf/sync_manager.py:342-372 | returns true exactly when a service is attached and the server accepts; only then is the entry marked uploaded, otherwise nothing changes |
| AbsSync.SyncManager.Apply | plugin.audio.audiobookshelf/sync_manager.py:416-453 | carrying out a reconciliation action leaves the table as `Applied` says and adds the item to the known items only on a pull |
| AbsSync.SyncManager.GetBestResumePosition | plugin.audio.audiobookshelf/sync_manager.py:374-453 | returns the position, finished flag and duration of `ResumeChoice` on the stored entry and the fetched reply, and changes the table only by that choice's action |
| AbsSync.SyncManager.SyncItemBidirectional | plugin.audio.audiobookshelf/sync_manager.py:455-512 | never reports both a download and an upload; reports a download exactly on a pull and an upload exactly on an accepted push while online; the table changes only by the `SyncChoice` action |
| AbsSync.SyncManager.RecordPlayback | plugin.audio.audiobookshelf/sync_manager.py:760-785 | a progress or stop report saves the position as pending and, when online and accepted, marks it uploaded straight away |
| AbsSync.SyncManager.SyncAllPendingUploads | plugin.audio.audiobookshelf/sync_manager.py:514-537 | offline: returns 0 and changes nothing; online: exactly the pending entries the server accepts are marked uploaded, the count is their number (never more than the pending entries) and the rejected ones stay pending |
| AbsSync.SyncManager.UploadPendingEntry | plugin.audio.audiobookshelf/sync_manager.py:523-534 | one loop step uploads one pending entry, succeeds exactly when the server accepts it, and extends the set of entries marked so far by that key |
| AbsSync.SyncManager.PollServerForUpdates | plugin.audio.audiobookshelf/sync_manager.py:693-740 | offline nothing changes; online every entry becomes its `Polled` form; locally finished entries never change; the update count is at most the table size; the old known items stay a prefix of the list, and online the list then holds exactly the old items and the item ids of the entries the poll pulled |
| AbsSync.SyncManager.PollEntry | plugin.audio.audiobookshelf/sync_manager.py:699-733 | one loop step rewrites one entry as `Polled` says and reports whether it was pulled |
| AbsSync.PendingAfterMarkAll | plugin.audio.audiobookshelf/sync_manager.py:514-537 | after marking the accepted pending entries, the pending set is the old one minus the accepted keys |
| AbsDownloads.InsertByIndex | plugin.audio.audiobookshelf/download_manager.py:494 | inserting one file into an index-sorted list keeps it sorted, adds exactly that file (same multiset plus it) and nothing else |
| AbsDownloads.SortByIndex | plugin.audio.audiobookshelf/download_manager.py:494 | the files sorted by index are sorted and a permutation of the input |
| AbsDownloads.LocateInFiles | plugin.audio.audiobookshelf/download_manager.py:496-507 | the first file whose range `[c, c+d)` holds the position is returned with seek `position - c`; past every range the last file is returned with seek 0; no files gives no file |
| AbsDownloads.ReplaceChar | plugin.audio.audiobookshelf/download_manager.py:481-483 | replacing one character keeps the length and changes exactly the occurrences of that character |
| AbsDownloads.SanitizeFilename | plugin.audio.audiobookshelf/download_manager.py:479-484 | the result is the input cut to 100 characters with each of `<>:"/\|?*` replaced one for one by `_`, and holds none of them |
| AbsDownloads.Unsynced | plugin.audio.audiobookshelf/download_manager.py:97-99 | the unsynced positions are exactly the entries whose `synced` flag is not set, unchanged |
| AbsDownloads.DownloadManager.constructor | plugin.audio.audiobookshelf/download_manager.py:14-21 | a manager starts with no downloads and no resume positions |
| AbsDownloads.DownloadManager.SaveResumePosition | plugin.audio.audiobookshelf/download_manager.py:71-83 | the record is stored under `item_episode` (or the item id) with `synced` false; no other key and no download changes |
| AbsDownloads.DownloadManager.LocalResumePosition | plugin.audio.audiobookshelf/download_manager.py:85-88 | the lookup answers exactly when the item's key is stored, with the stored record |
| AbsDownloads.DownloadManager.MarkPositionSynced | plugin.audio.audiobookshelf/download_manager.py:90-95 | only that key's `synced` flag becomes true; an absent key changes nothing |
| AbsDownloads.DownloadManager.SyncPositionsToServer | plugin.audio.audiobookshelf/download_manager.py:101-123 | exactly the unsynced entries whose update does not raise become synced; the count is their number, at most the unsynced count; the entries whose update raised stay unsynced |
| AbsDownloads.DownloadManager.SyncOne | plugin.audio.audiobookshelf/download_manager.py:107-119 | one loop step flags one unsynced entry synced exactly when its update does not raise |
| AbsDownloads.DownloadManager.DeleteDownload | plugin.audio.audiobookshelf/download_manager.py:448-473 | returns true exactly for a known key, and removes exactly that key from the downloads |
| AbsDownloads.DownloadManager.GetFileForPosition | plugin.audio.audiobookshelf/download_manager.py:486-507 | no download or a single-file download gives no file and seek 0; otherwise the answer is `LocateInFiles` on the files sorted by index |
| AbsDownloads.SyncedFinal | plugin.audio.audiobookshelf/download_manager.py:101-123 | after the loop the still-unsynced entries are exactly the unsynced ones whose update raised |
| AbsDefault.SettingInt | plugin.audio.audiobookshelf/default.py:76-80 | a blank setting gives the default; text `ParseInt` reads (surrounding whitespace, an optional sign, decimal digits) gives its value; anything else the default |
| AbsDefault.SyncIntervalAt | plugin.audio.audiobookshelf/default.py:86-87 | indices 0..3 pick 10/15/30/60, any index of 4 or more gives 15, -4..-1 count from the end as Python lists do, and anything below -4 is an IndexError; every answer is one of the four intervals |
| AbsDefault.GetSyncInterval | plugin.audio.audiobookshelf/default.py:83-87 | a blank setting (index 1) gives 15 s, and any digit-string setting gives one of the four intervals |
| AbsDefault.ScanFiles | plugin.audio.audiobookshelf/default.py:240-248 | the scan returns the first sorted file whose range ends after the position, with seek `position - cumulative` and that cumulative offset; past the end the last file with seek 0 and its own offset; no files gives `(None, 0, 0)` |
| AbsDefault.FindFileForPosition | plugin.audio.audiobookshelf/default.py:238-248 | no files gives `(None, 0, 0)`; the file returned is one of the inputs; the answer is the scan over the files sorted by index |
| AbsDefault.FirstEndCovers | plugin.audio.audiobookshelf/default.py:242-245 | with non-negative durations and position, the file the scan stops at holds the position: the seek lies in `[0, duration)` |
| AbsDefault.Clock | plugin.audio.audiobookshelf/default.py:252-254 | hours, minutes and seconds recombine to the input, with minutes and seconds in `[0, 60)` |
| AbsDefault.FormatTime | plugin.audio.audiobookshelf/default.py:251-259 | the label is non-empty, shows `h` exactly from an hour on, ends in `m` with hours and in `s` otherwise, and under an hour shows `m` exactly from a minute on |
| AbsDefault.FormatTimeMinutes | plugin.audio.audiobookshelf/default.py:257-258 | between a minute and an hour the label is `"Mm Ss"` |
| AbsDefault.FormatTimeSeconds | plugin.audio.audiobookshelf/default.py:259 | under a minute the label is `"Ss"` |
| AbsDefault.FormatTimeInjectiveUnderHour | plugin.audio.audiobookshelf/default.py:251-259 | under an hour two durations with the same label are equal: the label loses nothing |
| AbsDefault.MinutesLabelCancel | plugin.audio.audiobookshelf/default.py:258 | an `"Mm Ss"` label determines its minutes and seconds |
| AbsDefault.ResolveProgressConflict | plugin.audio.audiobookshelf/default.py:262-282 | the result is always one of the two inputs and at least one of them; policy 0 gives the server time, 1 the local time, 2 the larger; otherwise the dialog decides: answer 1 gives the local time, 2 the larger, and 0, a cancel or anything else the server time |
| AbsDefault.AskResume | plugin.audio.audiobookshelf/default.py:285-289 | below ten seconds the answer is no without asking; from ten seconds on the user's answer decides |
| AbsDefault.TokenCacheExpiry | plugin.audio.audiobookshelf/default.py:136-137 | a cached token valid at some time was valid at every earlier time, is valid only for its own URL, and a cache without an expiry (read as 0) is never valid at a non-negative time |
| AbsDefault.TokenCacheValid | plugin.audio.audiobookshelf/default.py:136-137 | a cached token is used exactly when it is non-empty, was issued for this URL and its expiry (0 when missing) lies after the current time |
| AbsDefault.NextSort | plugin.audio.audiobookshelf/default.py:524-531 | the next sort order is always one of the five, and an unknown order goes to `date` |
| AbsDefault.NextSortStep | plugin.audio.audiobookshelf/default.py:524-525 | each toggle moves one place along `date, date_old, title, episode, duration` and back to `date` |
| AbsDefault.SortOrdersDistinct | plugin.audio.audiobookshelf/default.py:524-525 | the five sort orders are different strings |
| AbsDefault.SortSteps | plugin.audio.audiobookshelf/default.py:524-531 | `n` toggles from order `i` land on order `(i + n) mod 5` |
| AbsDefault.SortCycle | plugin.audio.audiobookshelf/default.py:524-531 | `n` toggles return to the starting order exactly when `n` is a multiple of five: the period is five |
| AbsDefault.DeleteKeySplit | plugin.audio.audiobookshelf/default.py:1520-1522 | splitting at the first `_` gives a head without `_` and, when there is a rest, head, `_` and rest make up the key; without one the head is the key |
| AbsDefault.DeleteTarget | plugin.audio.audiobookshelf/default.py:1518-1526 | a non-empty key overrides the ids with its split; the download manager is reached only with a non-empty item id |
| AbsDefault.DeleteByKeyInvertsProgressKey | plugin.audio.audiobookshelf/default.py:1518-1526 | deleting by the key of a download reaches the item and episode it was stored under, for a non-empty item id without `_` |
| AbsPlayback.Recorded | plugin.audio.audiobookshelf/sync_manager.py:760-785 | a recorded save adds or replaces only the item's entry, which carries the position, duration and finished flag and stays pending exactly when it was not uploaded and accepted |
| AbsPlayback.PlaybackMonitor.constructor | plugin.audio.audiobookshelf/playback_monitor.py:24-42 | the stored duration is the given one clamped to at least one second; positions start at 0, the item is not finished and no save has happened |
| AbsPlayback.PlaybackMonitor.NextDuration | plugin.audio.audiobookshelf/playback_monitor.py:78-83 | a duration of at least one stays at least one; a duration above one is kept; it changes only to a player duration above one |
| AbsPlayback.PlaybackMonitor.StartMonitoring | plugin.audio.audiobookshelf/playback_monitor.py:52-55 | only the start position changes |
| AbsPlayback.PlaybackMonitor.BeginPlayback | plugin.audio.audiobookshelf/playback_monitor.py:77-108 | the duration is refreshed from the player as `NextDuration` says, and the last and last-synced positions and the sync clock start from the start position and the current time |
| AbsPlayback.PlaybackMonitor.SaveProgress | plugin.audio.audiobookshelf/playback_monitor.py:163-199 | the finished flag is set only by a final save past the threshold and is never cleared, so the monitor's invariant holds: only a final save carries the flag, and the item is finished exactly when some save carried it; a final save goes to `on_playback_stop`, any other to `on_playback_progress`; the manager's table becomes `Recorded` of the old one and the item joins the known items once |
| AbsPlayback.PlaybackMonitor.Tick | plugin.audio.audiobookshelf/playback_monitor.py:111-138 | a poll records the position, refreshes the duration, saves exactly when sync is enabled, the interval has elapsed and the position moved more than 5 s, and then updates the last synced position; the sync clock restarts whenever the interval elapsed; after a save the manager's table is `Recorded` of the old one with the flag unset and the item is known; without one the manager is unchanged; a poll never marks the item finished |
| AbsPlayback.PlaybackMonitor.Finish | plugin.audio.audiobookshelf/playback_monitor.py:145-148 | the final save happens exactly when saving on stop is on and the last position is past 0, carries the finished flag exactly when the last position reaches the threshold, and leaves the manager's table as `Recorded` of the old one; otherwise the manager is unchanged; the last-synced position, sync clock and start position never change |
| Webtoon.TruncDiv | plugin.video.suwayomi/resources/lib/webtoon_viewer.py:141 | Python's `int(a / b)` truncates toward zero: for a non-negative `a` the quotient is the floor, for a negative one the ceiling |
| Webtoon.ScreenSize | plugin.video.suwayomi/resources/lib/webtoon_viewer.py:86-102 | the screen size is always positive; the window's size is used when both are positive; with no usable system labels the size is 1920 x 1080 |
| Webtoon.ContentArea | plugin.video.suwayomi/resources/lib/webtoon_viewer.py:139-145 | the content is centred (`x + w + x == width`), no padding gives the whole width, a padding up to 100 keeps `0 <= w <= width`, and `x` is `width * padding / 200` truncated |
| Webtoon.PaddingKeepsHalf | plugin.video.suwayomi/resources/lib/webtoon_viewer.py:139-145 | with any of the six padding steps the content keeps at least half the screen width |
| Webtoon.TwoPageIndices | plugin.video.suwayomi/resources/lib/webtoon_viewer.py:337-349 | `single_first`: page 0 stands alone and every other left page is odd, at or just before the index; `paired_first`: the left page is the index rounded down to even; the right page is `left + 1` when it is in range, else none |
| Webtoon.LoadedIndex | plugin.video.suwayomi/resources/lib/webtoon_viewer.py:351-359 | loading keeps an in-range index in range; outside two-page mode it keeps the index; in two-page mode the index moves to the left page of its pair |
| Webtoon.NextIndex | plugin.video.suwayomi/resources/lib/webtoon_viewer.py:457-469 | the corrected page turn (the intended half of a finding): it never leaves the chapter and never moves back, and agrees with the source whenever the chapter has more than one page; single-page mode steps one page, two-page mode two pages, bounded by the last page |
| Webtoon.NextIndexAsWritten | plugin.video.suwayomi/resources/lib/webtoon_viewer.py:457-469 | as written: from a page of the chapter the turn never moves back, and it stays inside the chapter except exactly for the first page of a one-page chapter in `single_first` two-page mode |
| Webtoon.NextKeepsInView | plugin.video.suwayomi/resources/lib/webtoon_viewer.py:457-469 | turning the page as written and loading keeps the index in view (a page of the chapter, or index 1 of an overrun one-page `single_first` chapter), and inside the chapter whenever the chapter does not overrun |
| Webtoon.PrevIndex | plugin.video.suwayomi/resources/lib/webtoon_viewer.py:471-482 | the index never goes below 0 or past where it was; single-page mode steps back one, two-page mode two (to 0 from the first pair in `single_first` mode) |
| Webtoon.NextPadding | plugin.video.suwayomi/resources/lib/webtoon_viewer.py:498-505 | the next padding is always one of `[0, 5, 10, 15, 20, 25]`, and a value outside the list resets to 0 |
| Webtoon.NextPaddingStep | plugin.video.suwayomi/resources/lib/webtoon_viewer.py:500-503 | each step moves to the next padding of the list, from 25 back to 0 |
| Webtoon.Cycle | plugin.video.suwayomi/resources/lib/webtoon_viewer.py:484-496 | the zoom and background cycles stay in `[0, n)`, step up by one and wrap from the last to 0 |
| Webtoon.FullscreenViewer.MaxScroll | plugin.video.suwayomi/resources/lib/webtoon_viewer.py:432 | the largest scroll offset is non-negative and at least the image height beyond the screen |
| Webtoon.NewViewer | plugin.video.suwayomi/resources/lib/webtoon_viewer.py:54-111 | building the viewer raises IndexError exactly when the zoom mode or background index is not an index of the zoom-name or colour tables; otherwise two-page mode is forced off for webtoons, the index is the start index after loading, the zoom, padding and background are the given ones and the scroll offset is 0 |
| Webtoon.FullscreenViewer.LoadCurrentPage | plugin.video.suwayomi/resources/lib/webtoon_viewer.py:351-359 | only the index can change, as `LoadedIndex` says |
| Webtoon.FullscreenViewer.ScrollWebtoon | plugin.video.suwayomi/resources/lib/webtoon_viewer.py:430-455 | afterwards `0 <= scroll_y <= max(0, webtoon_h - screen_h)`; the page changes only on an overflow past an end that is not the first or last page, landing at the top of the next or the bottom of the previous page; otherwise the offset is the sum, or clamped at the first/last page |
| Webtoon.FullscreenViewer.GoNextPage | plugin.video.suwayomi/resources/lib/webtoon_viewer.py:457-469 | the index becomes the loaded as-written next index (`NextIndexAsWritten`); an index in view stays in view, and inside the chapter unless a one-page `single_first` two-page chapter overruns to index 1; the scroll offset resets to 0 |
| Webtoon.FullscreenViewer.GoPrevPage | plugin.video.suwayomi/resources/lib/webtoon_viewer.py:471-482 | the index becomes the loaded `PrevIndex`, never negative and never past the old index, and any index in view (the overrun index 1 included) comes back inside the chapter; the scroll offset resets to 0 |
| Webtoon.FullscreenViewer.CycleZoom | plugin.video.suwayomi/resources/lib/webtoon_viewer.py:484-488 | the zoom moves one step round its four modes; the scroll offset, padding and background are kept |
| Webtoon.FullscreenViewer.CycleBackground | plugin.video.suwayomi/resources/lib/webtoon_viewer.py:490-496 | the background moves one step round its six colours; nothing else changes |
| Webtoon.FullscreenViewer.CyclePadding | plugin.video.suwayomi/resources/lib/webtoon_viewer.py:498-508 | the padding becomes `NextPadding` of the old one and the content keeps at least half the width |
| Webtoon.FullscreenViewer.OnAction | plugin.video.suwayomi/resources/lib/webtoon_viewer.py:510-558 | exactly the three exit actions close the viewer, reporting the current index; every other action keeps an index in view in view, and inside the chapter unless a one-page `single_first` two-page chapter overruns |
| Webtoon.ShowWebtoonViewer | plugin.video.suwayomi/resources/lib/webtoon_viewer.py:561-591 | no pages returns the start index; otherwise a zoom mode outside the zoom-name table raises IndexError; a start index inside the chapter gives an index inside it, or index 1 when a one-page `single_first` two-page chapter overruns; when the viewer never closes the start index comes back |
| SuwaUtils.NumberText | plugin.video.suwayomi/resources/lib/utils.py:202 | the text of a chapter number begins with its sign and whole part, as Python's `str` prints it |
| SuwaUtils.BaseChapterName | plugin.video.suwayomi/resources/lib/utils.py:189-208 | the base name is never empty; a non-empty name carrying chapter information is kept as it is; with a positive number, otherwise, it is `Chapter N: name`, or `Chapter N` without a name; with no positive number it is the name, or `Chapter` when there is none |
| SuwaUtils.BaseChapterNameContents | plugin.video.suwayomi/resources/lib/utils.py:189-208 | the base name always contains the stripped name, and contains the whole chapter number when it is positive and the name does not start with a chapter prefix |
| SuwaUtils.NumberedNameContents | plugin.video.suwayomi/resources/lib/utils.py:200-204 | `Chapter N` and `Chapter N: name` contain the name and the whole number |
| SuwaUtils.FormatChapterName | plugin.video.suwayomi/resources/lib/utils.py:183-213 | the result is never empty, begins with the base name and ends with ` [scanlator]` exactly for a non-empty scanlator (otherwise it is the base name) |
| SuwaUtils.ChapterNameShows | plugin.video.suwayomi/resources/lib/utils.py:183-213 | a formatted chapter name always shows the chapter's name, and its whole number when that is positive and the name does not start with a chapter prefix |
| SuwaUtils.FormatMangaStatus | plugin.video.suwayomi/resources/lib/utils.py:216-227 | the seven known codes give their labels, any other non-empty value is returned unchanged, and a missing or empty one gives `Unknown` |
| SuwaUtils.FormatMangaStatusIdempotent | plugin.video.suwayomi/resources/lib/utils.py:216-227 | formatting a formatted status changes nothing |
| SuwaUtils.StatusLabelsInjective | plugin.video.suwayomi/resources/lib/utils.py:218-226 | distinct status codes get distinct labels |
| SuwaUtils.SliceTo | plugin.video.suwayomi/resources/lib/utils.py:236 | Python's `s[:k]` is a prefix of `s`, of length `k` when in range and counted from the end for a negative `k` |
| SuwaUtils.TruncateText | plugin.video.suwayomi/resources/lib/utils.py:230-236 | empty or missing text gives `""`, and only then; text within the limit is unchanged; longer text is its first `max_length - 3` characters plus `...`, exactly `max_length` long when the limit is at least 3 |
| SuwaUtils.TruncateTextWithinLimit | plugin.video.suwayomi/resources/lib/utils.py:230-236 | with a limit of at least 3 the result never exceeds the limit, and truncating again changes nothing |
| SuwaHelpers.MangaKey | plugin.video.suwayomi/resources/lib/helpers.py:129 | a manga's settings key `str(manga_id)` is never empty |
| SuwaHelpers.MangaKeyInjective | plugin.video.suwayomi/resources/lib/helpers.py:129 | distinct manga ids get distinct keys |
| SuwaHelpers.MangaSettingsFile.constructor | plugin.video.suwayomi/resources/lib/helpers.py:105-114 | the settings file holds the settings it was loaded with |
| SuwaHelpers.MangaSettingsFile.Get | plugin.video.suwayomi/resources/lib/helpers.py:127-129 | a stored manga gives its entry, an unknown one `{}` |
| SuwaHelpers.MangaSettingsFile.UnknownMangaUnconfigured | plugin.video.suwayomi/resources/lib/helpers.py:127-140 | an unknown manga has no settings and is not configured |
| SuwaHelpers.MangaSettingsFile.Set | plugin.video.suwayomi/resources/lib/helpers.py:132-135 | a successful save replaces only that manga's entry, a failed one changes nothing; the result is the save's outcome; every other manga reads the same |
| SuwaHelpers.MangaSettingsFile.MarkConfigured | plugin.video.suwayomi/resources/lib/helpers.py:143-146 | after a successful save the manga is configured, keeps all its other settings, and no other manga changes |
| SuwaHelpers.LowerAll | plugin.video.suwayomi/resources/lib/helpers.py:155 | every item lower-cased, same length |
| SuwaHelpers.LanguageFilter | plugin.video.suwayomi/resources/lib/helpers.py:151-156 | None exactly when no non-empty language remains; otherwise the stripped, non-empty, lower-cased list |
| SuwaHelpers.HiddenSources | plugin.video.suwayomi/resources/lib/helpers.py:159-163 | the comma-separated entries, stripped, with empty ones dropped, lower-cased |
| SuwaHelpers.BlankSettingFiltersNothing | plugin.video.suwayomi/resources/lib/helpers.py:151-163 | a blank setting hides nothing and gives no language filter |
| SuwaHelpers.IsSourceVisible | plugin.video.suwayomi/resources/lib/helpers.py:166-178 | the scan answers exactly `Visible`: no hidden entry is a substring of the lower-cased name, and without a filter or with the source's language in it |
| SuwaHelpers.VisibilityExtremes | plugin.video.suwayomi/resources/lib/helpers.py:166-178 | with nothing hidden and no filter every source is visible; a hidden entry found in the name hides the source whatever the filter |
| SuwaReader.ThumbnailUrl | plugin.video.suwayomi/default.py:101-121 | a manga with a truthy id always gets `server/api/v1/manga/<id>/thumbnail`; without one a `/`-relative thumbnail is put under the server address, an `http` one is used as it is, and anything else gives `""` |
| SuwaReader.ThumbnailUrlShape | plugin.video.suwayomi/default.py:101-121 | every thumbnail address is under the server address, an `http` address, or empty |
| SuwaReader.ThumbnailUrlInjective | plugin.video.suwayomi/default.py:109-111 | two mangas with different ids get different thumbnail addresses |
| SuwaReader.MarkedName | plugin.video.suwayomi/default.py:1380-1386 | the chapter line begins with the formatted chapter name, before the `[DL]`/`[BM]` marks |
| SuwaReader.ChapterLabel | plugin.video.suwayomi/default.py:1376-1394 | an unread chapter's line starts with its marked name and is longer than it exactly when the progress is shown; a read chapter's line is its marked name plus the 20 characters of the grey colour tags |
| SuwaReader.ChapterLabelShape | plugin.video.suwayomi/default.py:1376-1394 | a chapter line always shows the formatted name; a read chapter's line is wrapped in grey; when the page count and last page are positive and the chapter is unread the line ends with the `[last/count]` progress; an unread chapter without progress shown is exactly its marked name |
| SuwaReader.StartPage | plugin.video.suwayomi/default.py:1646-1656 | the start page is inside the chapter, and is not the first page exactly when a resume point is offered (`0 < last < total - 1`, unread) and accepted |
| SuwaReader.ResumeOffered | plugin.video.suwayomi/default.py:1647 | resuming is offered only for an unread chapter of three pages or more whose last read page is neither its first nor its last |
| SuwaReader.MirrorInvolution | plugin.video.suwayomi/default.py:1659-1662 | the right-to-left start page `total - 1 - s` stays inside the chapter exactly when `s` does, and mirroring twice gives `s` back |
| SuwaReader.Mirror | plugin.video.suwayomi/default.py:1659-1662 | the reversed position of a page is inside the chapter exactly when the page is, and reversing it again gives the page back |
| SuwaReader.ViewerStart | plugin.video.suwayomi/default.py:1641-1662 | no viewer index for a chapter without pages; otherwise the index is inside the chapter, and is the start page for left-to-right reading |
| SuwaReader.MarksReadBounds | plugin.video.suwayomi/default.py:1816-1818 | with the corrected rule the last page always marks the chapter read, the first never does in a chapter of two pages or more, and the rule is monotone in the page |
| SuwaReader.MarksRead | plugin.video.suwayomi/default.py:1816-1818 | the corrected rule: the chapter is marked read exactly when the pages seen, up to and including the reported one, reach 80% of the page count |
| SuwaReader.MarksReadAsWritten | plugin.video.suwayomi/default.py:1816-1818 | as written: the chapter is marked read exactly when the 0-based reported page is at least 80% of the page count |
| SuwaReader.ReportedPage | plugin.video.suwayomi/default.py:1757-1814 | the corrected reported page is inside the chapter whenever the viewer index is |
| SuwaReader.ReportedPageAsWritten | plugin.video.suwayomi/default.py:1811-1814 | as written: left to right the page reported is the one the corrected flow reports; right to left it is that page's mirror image |
| SuwaReader.ReadOutcome | plugin.video.suwayomi/default.py:1695-1818 | as written: a chapter without pages, a page download cancelled from the progress dialog and a download that fetched no page all send nothing, and these are the only cases that send nothing; otherwise the page sent is the viewer's close index, or its start index (reversed for right-to-left reading) when the viewer fails, never taken back to the chapter's order; the chapter is marked read exactly when that 0-based page reaches 80% of the page count |
| SuwaReader.IntendedReadOutcome | plugin.video.suwayomi/default.py:1695-1818 | the intended flow: nothing is sent in the same cases as the flow as written; a failed viewer reports the start page in the chapter's own order, and the chapter is marked read as `MarksRead` says for the reported page |
| SuwaReader.ReadOutcomeUnderMarks | plugin.video.suwayomi/default.py:1816-1818 | left to right, the flow as written reports the intended page and marks read only when the intended flow does, missing exactly the pages with `4 * total - 5 <= 5 * page < 4 * total` |
| SuwaReader.CloseAtOnceReportsStart | plugin.video.suwayomi/default.py:1757-1814 | closing the viewer at once reports the page reading started from, in either direction |
| SuwaReader.DownloadAllSelection | plugin.video.suwayomi/default.py:2280-2284 | the chapters queued are exactly those not yet downloaded, and none when every chapter is |
| SuwaActions.AfterHide | plugin.video.suwayomi/resources/lib/actions.py:165-175 | an empty name, or one already hidden under any capitalisation, leaves the setting unchanged |
| SuwaActions.HideReadBack | plugin.video.suwayomi/resources/lib/actions.py:170-175 | hiding a new plain name appends exactly that name at the end of the stored list |
| SuwaActions.HiddenAfterHide | plugin.video.suwayomi/resources/lib/actions.py:165-175 | whichever branch is taken, the name is hidden afterwards |
| SuwaActions.HideIdempotent | plugin.video.suwayomi/resources/lib/actions.py:165-175 | hiding the same name twice is hiding it once |
| SuwaActions.HiddenSourceInvisible | plugin.video.suwayomi/resources/lib/actions.py:165-175 | once a source's name has been hidden, the source is not visible, whatever the language filter |
| SuwaActions.RemoveAt | plugin.video.suwayomi/resources/lib/actions.py:203 | `pop(i)` removes exactly the `i`-th element: the others keep their order and the multiset loses only that one |
| SuwaActions.ManageOutcome | plugin.video.suwayomi/resources/lib/actions.py:189-207 | the dialog only removes names, and when it writes nothing the list is unchanged |
| SuwaActions.ManageReadBack | plugin.video.suwayomi/resources/lib/actions.py:189-207 | the list the dialog keeps reads back unchanged from the `", "`-joined setting it stores |
| SuwaActions.HiddenSourcesSetting.constructor | plugin.video.suwayomi/resources/lib/actions.py:170 | the setting holds the given text |
| SuwaActions.HiddenSourcesSetting.HideSource | plugin.video.suwayomi/resources/lib/actions.py:165-177 | the stored setting becomes `AfterHide` of the old one |
| SuwaActions.HiddenSourcesSetting.ManageHiddenSources | plugin.video.suwayomi/resources/lib/actions.py:180-209 | with no hidden source nothing changes; otherwise the setting ends as the list the dialog leaves, joined by `", "` (`''` after Clear All), when any write happened, and unchanged otherwise |
| SuwaActions.DialogStep | plugin.video.suwayomi/resources/lib/actions.py:192-207 | cancel and Done close without writing; a confirmed Clear All closes writing the empty list; picking entry `i` removes exactly element `i` and writes, closing when the list empties; anything else closes |
| SuwaActions.ManageStep | plugin.video.suwayomi/resources/lib/actions.py:191-207 | one dialog step followed by the rest of the dialog gives the same outcome as `ManageOutcome` on all answers |
| SuwaActions.UnreadIds | plugin.video.suwayomi/resources/lib/actions.py:117-118 | at most one id per chapter |
| SuwaActions.NotDownloadedIds | plugin.video.suwayomi/resources/lib/actions.py:157-158 | at most one id per chapter |
| SuwaActions.UnreadIdsExact | plugin.video.suwayomi/resources/lib/actions.py:113-118 | an id is updated exactly when some chapter with that id is unread |
| SuwaActions.NotDownloadedIdsExact | plugin.video.suwayomi/resources/lib/actions.py:156-158 | an id is requested exactly when some chapter with that id is not downloaded |
| SuwaActions.MarkAllChaptersRead | plugin.video.suwayomi/resources/lib/actions.py:100-121 | without confirmation nothing is sent; otherwise one read update per unread chapter, in order, up to the chapter where the progress dialog was cancelled |
| SuwaActions.DownloadNoticeCount | plugin.video.suwayomi/resources/lib/actions.py:156-160 | the corrected notice count never exceeds the number of chapters |
| SuwaActions.DownloadAllChapters | plugin.video.suwayomi/resources/lib/actions.py:146-160 | without confirmation nothing is requested and no notice is shown; otherwise one request per chapter not yet downloaded, in order, and a notice announcing every chapter of the manga, which equals the number of requests exactly when no chapter was downloaded before |
| MaClient.NewClient | plugin.audio.musicassistant/resources/lib/ma_client.py:82-93 | the client keeps the token, and a prefix of the given URL that lacks only its trailing slashes and does not itself end in `/` |
| MaClient.NewClientIdempotent | plugin.audio.musicassistant/resources/lib/ma_client.py:91 | building a client from a client's own URL gives the same client |
| MaClient.ApiUrl | plugin.audio.musicassistant/resources/lib/ma_client.py:123-125 | the API URL starts with the server URL and ends in `/api`, with no doubled slash before it |
| MaClient.FirstTruthy | plugin.audio.musicassistant/resources/lib/ma_client.py:273 | an `or` chain is truthy exactly when one of its operands is, and then it is one of them |
| MaClient.ImageLink | plugin.audio.musicassistant/resources/lib/ma_client.py:270-279 | a string image is its own link (none when empty); any value other than a string or an object has none; a returned link is never empty; a failure only comes from an object whose chosen field is truthy but not a string |
| MaClient.AbsoluteUrl | plugin.audio.musicassistant/resources/lib/ma_client.py:281-283 | a `/`-relative link gets the server URL in front of it; any other link is kept as it is; the result always ends with the link |
| MaClient.WithToken | plugin.audio.musicassistant/resources/lib/ma_client.py:285-289 | the URL is extended, never altered; nothing is added without a non-empty token or when `token=` is already present; otherwise `&token=` or `?token=` is appended according to whether the URL has a query |
| MaClient.BuildImageUrl | plugin.audio.musicassistant/resources/lib/ma_client.py:268-289 | fails exactly when the link cannot be read, is empty exactly when there is no link, and a built URL is non-empty, starts with the server URL (relative link) or the link (absolute link), and carries `token=` whenever the client has a token |
| MaClient.BuiltUrlShape | plugin.audio.musicassistant/resources/lib/ma_client.py:281-289 | a URL built from a non-empty link is non-empty, and it starts with `/` only when the link does and the server URL is empty or itself starts with `/` (so a built URL is not re-prefixed otherwise) |
| MaClient.BuildImageUrlIdempotent | plugin.audio.musicassistant/resources/lib/ma_client.py:281-287 | feeding a built image URL back through `_build_image_url` returns it unchanged (no second prefix, no second token), provided the server URL does not start with `/` |
| MaClient.FirstOfTypeFrom | plugin.audio.musicassistant/resources/lib/ma_client.py:255-258 | the index found is the first image of the requested type from the starting point on; none is found exactly when no image there has that type |
| MaClient.ChosenImage | plugin.audio.musicassistant/resources/lib/ma_client.py:226-266 | no image exactly for a non-dictionary item or one with no truthy `image`, no metadata image and no non-empty `images`; a truthy `image` always wins; from the image list, one of its elements, of the requested type whenever one is |
| MaClient.MediaItemImageUrl | plugin.audio.musicassistant/resources/lib/ma_client.py:226-266 | no chosen image gives no URL; an error only comes from the chosen image's unreadable link; a URL only comes from a chosen image, is non-empty, and carries `token=` when the client has a token |
| MaClient.GetMediaItemImageUrl | plugin.audio.musicassistant/resources/lib/ma_client.py:226-266 | the method with its loops over the metadata keys and the image list returns exactly the URL of the image chosen by the item-image, metadata, typed-image, first-image order |
| MaClient.ChosenImageFromItem | plugin.audio.musicassistant/resources/lib/ma_client.py:238-264 | any chosen image comes from a dictionary item: its `image`, a metadata value or that value's first element, or an element of `images`; a truthy `image` always wins |
| MaClient.MetadataImageFromKey | plugin.audio.musicassistant/resources/lib/ma_client.py:246-252 | a metadata image is the value, or the first element of the list value, of one of `images`, `image`, `thumb` holding a truthy value |
| MaClient.TypedImagePreferred | plugin.audio.musicassistant/resources/lib/ma_client.py:254-262 | with no item image and no metadata, an image of the requested type in `images` is chosen over the first image |
| MaClient.BuildPayload | plugin.audio.musicassistant/resources/lib/ma_client.py:145-151 | the payload always holds the command and holds `args` exactly when there are arguments, and nothing else |
| MaClient.HandleReply | plugin.audio.musicassistant/resources/lib/ma_client.py:153-192 | 401 and exactly 401 means authentication required, 403 authentication failed, a lost connection or timeout cannot-connect; every status of 400 and above fails; a reply succeeds exactly when its status is below 400 and its body is JSON without an `error` key, and then the `result` field is unwrapped when present and the whole body returned otherwise |
| MaClient.LibraryArgs | plugin.audio.musicassistant/resources/lib/ma_client.py:371-386 | paging and order are always sent; `favorite` and `album_artists_only` exactly when given, `search` exactly when non-empty, each with its value; no other key |
| MaClient.PlayMediaArgs | plugin.audio.musicassistant/resources/lib/ma_client.py:766-786 | queue and media are always sent; `option` exactly when given; `radio_mode` exactly when on; no other key |
| MaAddon.ServerUrl | plugin.audio.musicassistant/addon.py:345-357 | no client without a server URL; otherwise a URL starting with `http` that ends with the setting, and the setting itself when it already starts with `http` |
| MaAddon.ServerUrlIdempotent | plugin.audio.musicassistant/addon.py:356-357 | normalising an already normalised server URL changes nothing |
| MaAddon.LoadMore | plugin.audio.musicassistant/addon.py:587-588 | a "Load More" entry appears exactly when the page came back full, and it points at the offset of the next page |
| MaAddon.LoadMoreShowsEverything | plugin.audio.musicassistant/addon.py:580-588 | following "Load More" from any offset within the library lists every remaining item exactly once, so no item is skipped or repeated |
| MaAddon.HiddenList | plugin.audio.musicassistant/addon.py:2284-2285 | every entry of the parsed hidden-player list is non-empty, holds no comma and has no surrounding blanks |
| MaAddon.IndexOf | plugin.audio.musicassistant/addon.py:2305 | the position found is the first occurrence of the id |
| MaAddon.RemoveFirst | plugin.audio.musicassistant/addon.py:2305 | `list.remove` deletes the first occurrence of the id: the elements before it stay in place, the elements after it move down one place in order, and the multiset loses exactly one copy of the id |
| MaAddon.HiddenPlayersSetting.constructor | plugin.audio.musicassistant/addon.py:2284 | the setting object holds the given setting text |
| MaAddon.HiddenPlayersSetting.HidePlayer | plugin.audio.musicassistant/addon.py:2278-2293 | the setting becomes the hide-player rewrite of the old one, and an empty or already hidden id leaves it unchanged |
| MaAddon.HiddenPlayersSetting.UnhidePlayer | plugin.audio.musicassistant/addon.py:2295-2310 | the setting becomes the unhide rewrite of the old one, and an empty or not hidden id leaves it unchanged |
| MaAddon.AfterHide | plugin.audio.musicassistant/addon.py:2278-2293 | an empty or already hidden id leaves the setting unchanged; otherwise the stored text is the parsed list with the id appended, joined by commas |
| MaAddon.AfterUnhide | plugin.audio.musicassistant/addon.py:2295-2310 | an empty or not hidden id leaves the setting unchanged; otherwise the stored text is the parsed list with the id's first occurrence removed, joined by commas |
| MaAddon.HiddenPlayersSetting.UnhideAllPlayers | plugin.audio.musicassistant/addon.py:2312-2326 | afterwards no player is hidden; the setting is cleared when something was hidden and untouched otherwise |
| MaAddon.HideReadBack | plugin.audio.musicassistant/addon.py:2287-2289 | reading back the setting after hiding a new id gives the old list with exactly that id appended |
| MaAddon.HideIdempotent | plugin.audio.musicassistant/addon.py:2287-2289 | after hiding, the id is hidden, and hiding it a second time writes nothing new |
| MaAddon.UnhideReadBack | plugin.audio.musicassistant/addon.py:2304-2306 | reading back after unhiding gives the old list with one occurrence of the id removed; an id listed once is then no longer hidden |
| MaAddon.RemoveFirstItems | plugin.audio.musicassistant/addon.py:2305-2306 | removing an id keeps every remaining entry a well-formed list item, so the rewritten setting parses back to the same list |
| MaAddon.HideThenUnhide | plugin.audio.musicassistant/addon.py:2278-2310 | hiding a player and then unhiding it restores the hidden list it started from |
| MaAddon.RemoveFirstLast | plugin.audio.musicassistant/addon.py:2288-2305 | removing an id that only occurs at the end, where hiding put it, gives back the list before it was appended |
| MaAddon.VisiblePlayers | plugin.audio.musicassistant/addon.py:1544 | the list holds exactly the players that are not hidden |
| MaAddon.AvailableVisiblePlayers | plugin.audio.musicassistant/addon.py:1542 | the list holds exactly the available players that are not hidden |
| MaAddon.PlayerCandidates | plugin.audio.musicassistant/addon.py:1541-1544 | a hidden player is never offered; some player is offered exactly when some player is not hidden; when a non-hidden player is available, exactly the available non-hidden players are offered, and when none is, every non-hidden player is |
| MaAddon.MoveItem | plugin.audio.musicassistant/addon.py:2091 | moving a queue item keeps the queue's length and contents and puts the item at the target index |
| MaAddon.MoveUpTarget | plugin.audio.musicassistant/addon.py:2074-2091 | moving up is refused exactly without a queue or for an index of 0 or below, and otherwise aims at the index above |
| MaAddon.IndexParam | plugin.audio.musicassistant/addon.py:2078-2083 | a queue index given as a digit string is its value, any other text `int` accepts its value, and text `int` rejects reads as 0 |
| MaAddon.MoveUpSwaps | plugin.audio.musicassistant/addon.py:2087-2091 | moving an item up swaps it with the item above it and leaves the rest of the queue in place |
| MaAddon.PlayNextTarget | plugin.audio.musicassistant/addon.py:2121-2157 | no move exactly without a queue, without an item, or when the item is already next; an earlier item aims at the current index, a later one at the index after it |
| MaAddon.PlayNextLandsAfterCurrent | plugin.audio.musicassistant/addon.py:2136-2160 | after the move the item sits directly after the track that is playing, whether it came from before or after it |
| MaAddon.GroupPair | plugin.audio.musicassistant/addon.py:2328-2342 | a transfer or sync goes ahead exactly when a target is given, a default player is set, and they differ; it then acts from the default player to the target, and the same player on both sides is refused as such |
| PlexPaths.TvShowDirId | context.plexkodiconnect.download/default.py:435 | a recognised TV-show directory yields a digit-only id, and the path ends with `videodb://tvshows/titles/<id>/` |
| PlexPaths.TvShowDirComplete | context.plexkodiconnect.download/default.py:435 | every path ending in `videodb://tvshows/titles/<digits>/` is recognised, with exactly those digits |
| PlexPaths.SeasonDirIds | context.plexkodiconnect.download/default.py:464 | a recognised season directory yields a digit-only show id and a season of the form `-?digits` |
| PlexPaths.SeasonDirComplete | context.plexkodiconnect.download/default.py:464 | every path ending in `videodb://tvshows/titles/<digits>/<-?digits>/` is recognised, with exactly that show id and season |
| PlexPaths.TvShowSeasonExclusive | context.plexkodiconnect.download/default.py:435-464 | no path is both a TV-show directory and a season directory, so the order of the two checks is immaterial |
| PlexPaths.ArtistDirId | context.plexkodiconnect.download/default.py:552 | a recognised artist directory yields a digit-only id |
| PlexPaths.ArtistDirComplete | context.plexkodiconnect.download/default.py:552 | every path ending in `musicdb://artists/<digits>`, with or without a final slash, is recognised, with exactly those digits |
| PlexPaths.AlbumDirId | context.plexkodiconnect.download/default.py:594 | a recognised album directory yields a digit-only id |
| PlexPaths.AlbumDirComplete | context.plexkodiconnect.download/default.py:594 | every path ending in `musicdb://albums/<digits>` or `musicdb://artists/<digits>/<digits>`, with or without a final slash, is recognised, with the album's digits |
| PlexPaths.ArtistAlbumExclusive | context.plexkodiconnect.download/default.py:552-594 | no path is both an artist directory and an album directory |
| PlexPaths.ClassifyDir | context.plexkodiconnect.download/default.py:428-594 | a path outside both libraries is no directory; on a `videodb://` path the part before the first `?` is a show directory when the show pattern matches and a season directory when the season pattern does, and nothing else exactly when neither does; on a `musicdb://` path likewise with the artist and album patterns |
| PlexPaths.QueryStripped | context.plexkodiconnect.download/default.py:432 | the directory checks see exactly the path before its query string |
| PlexPaths.PlexIdFrom | context.plexkodiconnect.download/default.py:669-671 | an extracted Plex id is digits only and occurs in the path right after `plex_id=`; none is found exactly when no `plex_id=<digit>` occurs from the start position on |
| PlexPaths.PlexIdAt | context.plexkodiconnect.download/default.py:669-671 | a match at a position is the whole digit run after the `plex_id=` there |
| PlexPaths.PlexIdLeftmost | context.plexkodiconnect.download/default.py:669-671 | the id found is the one after the leftmost `plex_id=<digits>` |
| PlexPaths.NoPlexIdWithoutKey | context.plexkodiconnect.download/default.py:669-671 | a path without `plex_id=` yields no Plex id |
| PlexPaths.AcceptedPath | context.plexkodiconnect.download/default.py:677-692 | an item is returned exactly for a network path (smb, nfs, http, https), a Plex path, or a music-library path, and it keeps the path |
| PlexPaths.PluginPathsContainPlex | context.plexkodiconnect.download/default.py:683-685 | the two PlexKodiConnect plugin prefixes are already accepted by the lower-cased `plex` test alone |
| PlexPaths.LocalPathRejected | context.plexkodiconnect.download/default.py:677-692 | a local absolute path without `plex` in it is never downloadable |
| PlexPaths.BuildMenu | context.plexkodiconnect.download/default.py:1612-1622 | the option list holds the fixed first entry and each optional entry exactly when it is enabled; each recorded index points at its own entry, a disabled one is -1, and no two recorded indices clash with each other or the first entry; the indices are the ones the dispatch is checked against |
| PlexPaths.DispatchMatchesOptions | context.plexkodiconnect.download/default.py:1624-1636 | whichever entries are enabled, choosing entry `k` does what entry `k` says, -1 cancels, and the dialog is skipped exactly when only the first entry is present |
| PlexPaths.ShowMenuChoice | context.plexkodiconnect.download/default.py:1539-1558 | -1 cancels, 0 downloads the whole show, and entry `k` of the show menu downloads the season listed at `k - 1` |
| PlexPaths.Processed | context.plexkodiconnect.download/default.py:829-833 | the episodes handled before a cancel are a prefix of the list |
| PlexPaths.EpisodeBatch | context.plexkodiconnect.download/default.py:791-866 | the loop's counts are the downloaded and the failed episodes among those handled before the cancel |
| PlexPaths.EpisodeBatchTotals | context.plexkodiconnect.download/default.py:838-853 | downloaded plus failed equals the handled episodes that carry a Plex id, never more than were handled |
| PlexPaths.SongBatch | context.plexkodiconnect.download/default.py:980-1035 | the loop's counts are the downloaded, failed and skipped songs among those handled, and together they account for every handled song |
| PlexNames.Sanitize | context.plexkodiconnect.download/default.py:1220 | a sanitised title is no longer than the title and holds only alphanumerics, spaces, `-`, `_` and `.` |
| PlexNames.SanitizeKeepsExactlySafe | context.plexkodiconnect.download/default.py:1220 | sanitising only removes characters, keeps the order of the rest, removes nothing from an already safe title, and is idempotent |
| PlexNames.SanitizeAppend | context.plexkodiconnect.download/default.py:1220 | sanitising a concatenation is the concatenation of the sanitised parts |
| PlexNames.EpisodeMatchAt | context.plexkodiconnect.download/default.py:1251 | a match at a position gives two digit runs joined by `x` found there and a non-empty title that ends the text |
| PlexNames.EpisodeMatchAtComplete | context.plexkodiconnect.download/default.py:1251 | every text of the form `<digits>x<digits><separators><title>` at a position is matched there, with those two numbers, and with exactly that title when the title does not itself open with a separator |
| PlexNames.EpisodeSearchFrom | context.plexkodiconnect.download/default.py:1251 | a found match gives two digit runs joined by `x` that occur in the title and a non-empty title that ends it |
| PlexNames.EpisodeSearchNone | context.plexkodiconnect.download/default.py:1251 | the search finds nothing exactly when no position from the start on matches |
| PlexNames.EpisodeSearchLeftmost | context.plexkodiconnect.download/default.py:1251 | the search answers with the match at the leftmost position that matches |
| PlexNames.NoMatchWithoutX | context.plexkodiconnect.download/default.py:1251-1252 | a title without an `x` never matches, so it never overrides the season and episode |
| PlexNames.Format02 | context.plexkodiconnect.download/default.py:1259 | `{:02d}` gives at least two characters: `0` and the digit below 10, the number as written from 10 on, the sign and the digits for a negative number; a non-negative result reads back as the number |
| PlexNames.EpisodeFilename | context.plexkodiconnect.download/default.py:1246-1259 | an episode file name starts with `S`; when the title matches the episode pattern, the file is named by the title's season, episode and stripped, sanitised rest, and otherwise by the item's season and episode and the sanitised title |
| PlexNames.EpisodeFilenameOverride | context.plexkodiconnect.download/default.py:1246-1259 | a title opening with `<digits>x<digits>` and a separator names the file by those numbers, whatever the item's own season and episode; when the rest of the title does not open with a separator, the name is exactly `S<a:02>E<b:02> - ` followed by that rest stripped and sanitised |
| PlexNames.EpisodeFilenameWithoutX | context.plexkodiconnect.download/default.py:1246-1259 | without an `x` in the title the item's own season and episode are used and the title is only sanitised |
| PlexNames.EpisodeFilenameSafe | context.plexkodiconnect.download/default.py:1246-1259 | for a non-negative season and episode the file name consists only of characters the sanitiser keeps |
| PlexNames.EpisodeLabelExample | context.plexkodiconnect.download/default.py:1250-1259 | the label `9x18. Title` yields season 9, episode 18 and title `Title`, so the file is named `S09E18 - Title` whatever the item said |
| PlexNames.SongFilename | context.plexkodiconnect.download/default.py:1260-1266 | a positive track number is put in front, zero-padded, before ` - ` and the title; otherwise the title alone |
| PlexNames.MovieFilename | context.plexkodiconnect.download/default.py:1267-1273 | a year, when present, follows the title in parentheses; otherwise the title alone |
| PlexNames.ExtOf | context.plexkodiconnect.download/default.py:1321 | `os.path.splitext`'s rule: the extension is the path from its last `.` exactly when that dot lies in the last path component after a character other than `.` (`ExtDot`), and is empty otherwise; it ends the path and holds no further `.` or `/` |
| PlexNames.ExtDotAt | context.plexkodiconnect.download/default.py:1321 | the last `.` of the path is the only possible split point, and it is one exactly when it lies in the last component after a character other than `.` |
| PlexNames.SourceExtension | context.plexkodiconnect.download/default.py:1320-1321 | the lower-cased `ExtOf` of the text before the first `?`, empty or starting with `.` |
| PlexNames.RootOf | context.plexkodiconnect.download/default.py:343 | the root and the extension put back together give the path |
| PlexNames.MusicExtension | context.plexkodiconnect.download/default.py:1325-1331 | a music download always gets one of the five known audio extensions: `.m4b` and `.aac` become `.m4a`, known ones stay, anything else becomes `.mp3` |
| PlexNames.VideoExtension | context.plexkodiconnect.download/default.py:1332-1335 | a video download never ends up with `.ts` or no extension (both become `.mp4`); any other extension is kept |
| PlexNames.ExtensionMappingIdempotent | context.plexkodiconnect.download/default.py:1325-1335 | mapping an already mapped extension changes nothing |
| PlexNames.DownloadExtension | context.plexkodiconnect.download/default.py:1319-1335 | the extension is `MusicExtension` of the source's extension for `song` and `music` items and `VideoExtension` of it otherwise, so music downloads get a known audio extension and other downloads a non-empty one other than `.ts` |
| PlexNames.QueryIgnored | context.plexkodiconnect.download/default.py:1320-1321 | a query string after the path never changes the extension |
| PlexNames.TypeFolder | context.plexkodiconnect.download/default.py:1206-1214 | episodes go under `TV Shows`, songs under `Music`, everything else under `Movies` |
| PlexNames.NfoPath | context.plexkodiconnect.download/default.py:343 | the NFO file is the download's path with its extension replaced by `.nfo` |
| PlexNames.NfoRoot | context.plexkodiconnect.download/default.py:345-393 | songs and music get `musicvideo`, episodes `episodedetails`, everything else `movie` |
| PlexNames.OrUnknown | context.plexkodiconnect.download/default.py:362-366 | `.get(key, 'Unknown')`: the default applies only to an absent key, so a present empty value is kept |
| PlexNames.Optional | context.plexkodiconnect.download/default.py:353-360 | an element appears, once, exactly when its field is set |
| PlexNames.OrderedConcat | context.plexkodiconnect.download/default.py:349-391 | two lists of elements in document order, the first ranked below the second, stay in document order together |
| PlexNames.MetadataHead | context.plexkodiconnect.download/default.py:350-356 | with metadata, the title comes first and artist and album appear exactly when the metadata holds them |
| PlexNames.MetadataTail | context.plexkodiconnect.download/default.py:357-360 | with metadata, track and year appear exactly when the metadata holds them |
| PlexNames.MetadataFields | context.plexkodiconnect.download/default.py:350-360 | a song with metadata: the title, then each of artist, album, track and year exactly when the metadata holds it, with that value, in that order |
| PlexNames.ItemMusicFields | context.plexkodiconnect.download/default.py:350-368 | a song without metadata: the title, then the artist and album always (`Unknown` only for an absent key, so a present empty value is written empty), then the track exactly when set |
| PlexNames.EpisodeFields | context.plexkodiconnect.download/default.py:376-380 | an episode: the title, then the season and episode exactly when set, with their values |
| PlexNames.MovieFields | context.plexkodiconnect.download/default.py:387-389 | a movie: the title, then the year exactly when set, with its value |
| PlexNames.NfoFields | context.plexkodiconnect.download/default.py:345-391 | the title element comes first (`Unknown` only when the key is absent); only the type's elements occur, each at most once and in the writer's order; each element appears exactly when its field is set, with its value; without metadata a song always gets artist and album |
| PlexNames.NfoContent | context.plexkodiconnect.download/default.py:345-390 | between the opening (the XML declaration and the type's root element) and the closing of the root element, the document is exactly the lines of `NfoFields`, in order |
| PlexNames.NfoContentFrame | context.plexkodiconnect.download/default.py:345-390 | the document starts with the XML declaration, the type's root element and the title line, and ends by closing the root element |
| PlexNames.ConcatSplit | context.plexkodiconnect.download/default.py:350-389 | the text of the lines is the text of the first `k`, then line `k`, then the text of the rest |
| PlexNames.ConcatOccurs | context.plexkodiconnect.download/default.py:350-389 | each field's line sits in the text right after the lines before it, so every field written appears in the document in order |
| PlexNames.MetadataJoin | context.plexkodiconnect.download/default.py:350-360 | the metadata head and tail joined keep document order and each field's presence and value |
| WebhookStore.NextValueUnique | script.webhook.runner/resources/lib/default.py:105-116 | the next-id rule determines a single number for any store |
| WebhookStore.NextIdFresh | script.webhook.runner/resources/lib/default.py:105-116 | a new id is never an id the store already holds, and an empty store starts at `1` |
| WebhookStore.ApplyIdempotent | script.webhook.runner/resources/lib/default.py:127-134 | applying the same field changes twice is applying them once, and an empty change set changes nothing |
| WebhookStore.Apply | script.webhook.runner/resources/lib/default.py:127-134 | every field given in the changes takes the given value; the webhook is left as it was exactly when every given field already holds its value |
| WebhookStore.Store.constructor | script.webhook.runner/resources/lib/default.py:64-73 | a fresh store holds no webhooks |
| WebhookStore.NewWebhook | script.webhook.runner/resources/lib/default.py:119-124 | a new webhook has the given name and URL, is enabled, has no button and reads as type `remote` |
| WebhookStore.Store.NextId | script.webhook.runner/resources/lib/default.py:105-116 | the loop over the ids yields one more than the largest numeric id (ids that are not numbers ignored), `1` for an empty store |
| WebhookStore.Store.AddWebhook | script.webhook.runner/resources/lib/default.py:119-124 | the store gains exactly one webhook, under an id it did not hold, enabled, without a button and of type `remote`; every other webhook is untouched |
| WebhookStore.Store.UpdateWebhook | script.webhook.runner/resources/lib/default.py:127-134 | an unknown id is refused and changes nothing; a known id gets exactly the given fields replaced and no other webhook changes |
| WebhookStore.Store.DeleteWebhook | script.webhook.runner/resources/lib/default.py:137-148 | succeeds exactly for a stored id; exactly that webhook is gone; when it had a non-empty button and a keymap file exists, that button's mapping is removed as `remove_from_keymap` does it (a raw code looked for in a top-level `<keyboard>`), and otherwise the keymap is untouched |
| WebhookStore.LexLeTotal | script.webhook.runner/resources/lib/default.py:101 | any two ids compare one way or the other, so the string order used for sorting is total |
| WebhookStore.InsertId | script.webhook.runner/resources/lib/default.py:101 | inserting an id adds exactly it to the list, at the front or after the list's first element |
| WebhookStore.SortIds | script.webhook.runner/resources/lib/default.py:101 | sorting keeps exactly the ids it was given |
| WebhookStore.InsertIdSorted | script.webhook.runner/resources/lib/default.py:101 | inserting an id of the same kind into a sorted list keeps it sorted |
| WebhookStore.SortIdsSorted | script.webhook.runner/resources/lib/default.py:101 | ids all numeric or all non-numeric come out sorted, by value or by text |
| WebhookStore.Describe | script.webhook.runner/resources/lib/default.py:93-100 | the listing entry keeps the id, button and button type, keeps a stored name, URL and enabled flag as they are, and fills a missing name with `Webhook <id>`, a missing URL with the empty string and a missing enabled flag with true |
| WebhookStore.AllWebhooks | script.webhook.runner/resources/lib/default.py:89-102 | the listing succeeds exactly when the ids are all numeric or all non-numeric (a mix makes the sort raise a type error); it then lists every webhook once, sorted, each entry being `Describe` of the webhook stored under its id |
| WebhookStore.NumericOrderExample | script.webhook.runner/resources/lib/default.py:101 | numeric ids are ordered by value, `2` before `10` |
| WebhookStore.RunDecision | script.webhook.runner/resources/lib/default.py:341-352 | a webhook is sent exactly when it exists as a non-empty record, is not disabled and has a URL, and then to its URL under its listed name; a missing or empty record is not found |
| WebhookStore.RunAfterChanges | script.webhook.runner/resources/lib/default.py:119-352 | a webhook just added is sent to its URL under its name unless the URL is empty; one just deleted is not found; one just disabled is not sent |
| WebhookStore.StartupWebhookId | script.webhook.runner/resources/lib/default.py:697-708 | a webhook is run only with a script argument, under a non-empty id without `=`; a bare non-empty argument without `=` is the id itself |
| WebhookStore.StartupKeyValue | script.webhook.runner/resources/lib/default.py:701-703 | the argument `webhook_id=<id>` runs webhook `<id>` |
| WebhookKeymap.ActionWebhookId | script.webhook.runner/resources/lib/default.py:295 | an id read back from an action holds no comma and does not end in `)` |
| WebhookKeymap.RStripClosing | script.webhook.runner/resources/lib/default.py:295 | stripping the closing parenthesis off an action's tail gives back the id when it does not itself end in `)` |
| WebhookKeymap.ActionRoundTrip | script.webhook.runner/resources/lib/default.py:201-295 | the webhook id written into a `RunScript` action is the id read back from it, for an id without a comma that does not end in `)` |
| WebhookKeymap.ActionNamesAddon | script.webhook.runner/resources/lib/default.py:201 | every action names the add-on, so the `ADDON_ID in text` tests recognise it |
| WebhookKeymap.FindChild | script.webhook.runner/resources/lib/default.py:193 | `find` gives the first child with the tag, and none exactly when no child has it |
| WebhookKeymap.GetOrCreate | script.webhook.runner/resources/lib/default.py:192-196 | afterwards the parent has a child with the tag and `find` gives it; the parent keeps its own tag |
| WebhookKeymap.FirstKeyWithId | script.webhook.runner/resources/lib/default.py:210-215 | the first `key` element with that id, and none exactly when no `key` element has it |
| WebhookKeymap.FirstMappedKey | script.webhook.runner/resources/lib/default.py:253-256 | the first `key` element with that id whose text names the add-on, and none exactly when there is no such element |
| WebhookKeymap.AddMapping | script.webhook.runner/resources/lib/default.py:199-241 | when an element for the button is already there its text is returned and the tree is left as it was |
| WebhookKeymap.FindChildUpdate | script.webhook.runner/resources/lib/default.py:192-196 | replacing a child by one with the same tag leaves every `find` where it was |
| WebhookKeymap.FindChildAppend | script.webhook.runner/resources/lib/default.py:194-195 | a child appended where its tag was missing is what `find` then gives |
| WebhookKeymap.StandardTarget | script.webhook.runner/resources/lib/default.py:223-226 | the section `add_to_keymap` finds or creates holds no element of the button when the tree had none |
| WebhookKeymap.RawTarget | script.webhook.runner/resources/lib/default.py:205-208 | the keyboard section `add_to_keymap` finds or creates holds no `key` element of the raw code when the tree had none |
| WebhookKeymap.AddStandardPlaces | script.webhook.runner/resources/lib/default.py:221-236 | a standard button not yet mapped in its section is mapped there to the webhook's action, and nothing is returned |
| WebhookKeymap.AddStandardExisting | script.webhook.runner/resources/lib/default.py:228-233 | a standard button already present in its section is left alone and its element's text returned |
| WebhookKeymap.RemoveFromSection | script.webhook.runner/resources/lib/default.py:265-272 | one pass of the section loop keeps the `<global>` element itself (its tag); what it removes is stated by `RemoveAppended` and `RemoveFromSectionKeepsAbsence` |
| WebhookKeymap.RemoveRawKey | script.webhook.runner/resources/lib/default.py:251-256 | removing a raw code's mapped `key` element keeps the keyboard section itself (its tag); what it removes is stated by `RemoveRawAppended` |
| WebhookKeymap.RemoveFromSectionKeepsAbsence | script.webhook.runner/resources/lib/default.py:265-272 | a pass over a section never makes a button appear in any section |
| WebhookKeymap.RemoveAppended | script.webhook.runner/resources/lib/default.py:236-272 | the element `add_to_keymap` appended is the one the section pass removes, which restores the section |
| WebhookKeymap.AddThenRemoveStandard | script.webhook.runner/resources/lib/default.py:199-275 | mapping a standard button and then removing it leaves the button unmapped in its section |
| WebhookKeymap.AddRawPlaces | script.webhook.runner/resources/lib/default.py:203-219 | mapping an unmapped raw code puts its `key` element, with its id, optional long-press modifier and the action, under `<global><keyboard>` |
| WebhookKeymap.RemoveRawAppended | script.webhook.runner/resources/lib/default.py:251-256 | the `key` element appended for a raw code is the one removed again, which restores the section |
| WebhookKeymap.RawAddThenRemove | script.webhook.runner/resources/lib/default.py:199-275 | removing a raw code where it is written, right after mapping it, leaves no `key` element of that code |
| WebhookKeymap.FirstStandardShape | script.webhook.runner/resources/lib/default.py:192-236 | the tree after the first mapping of a standard button is `<global>` holding the button's section holding the button with the action |
| WebhookKeymap.DeviceMappingsOne | script.webhook.runner/resources/lib/default.py:310-316 | one mapped button read in a section pass is recorded under its webhook id unless that id was already recorded |
| WebhookKeymap.SingleSection | script.webhook.runner/resources/lib/default.py:305-307 | in a `<global>` with a single section, only that section's tag is found |
| WebhookKeymap.StandardReadBack | script.webhook.runner/resources/lib/default.py:278-318 | the first standard button mapped in a section that is read back is read back as mapped to its webhook |
| WebhookKeymap.FirstRawShape | script.webhook.runner/resources/lib/default.py:203-219 | the tree after the first mapping of a raw code is `<global><keyboard>` holding its `key` element |
| WebhookKeymap.RawReadBack | script.webhook.runner/resources/lib/default.py:278-318 | reading raw codes where they are written, the first raw code mapped is read back under its code as a keyboard mapping |
| WebhookKeymap.Keymap.constructor | script.webhook.runner/resources/lib/default.py:160-169 | without a keymap file the tree is the empty `<keymap>` |
| WebhookKeymap.Keymap.AddToKeymap | script.webhook.runner/resources/lib/default.py:199-241 | an existing element of the button is left alone and its text returned; otherwise the tree becomes the mapped one, the file exists afterwards and nothing is returned |
| WebhookKeymap.Keymap.RemoveFromKeymap | script.webhook.runner/resources/lib/default.py:244-275 | nothing changes without a keymap file; otherwise the tree becomes the one with the button's mapping to this add-on removed, a raw code being looked for in a top-level `<keyboard>` as written (so a raw code this add-on mapped stays, see RawRemovalAsWrittenKeepsKey) |
| WebhookKeymap.RemoveMappingAsWritten | script.webhook.runner/resources/lib/default.py:244-276 | as written: a removal keeps the root and its top-level sections in place, and for a raw code it leaves a tree without a top-level `<keyboard>` unchanged |
| WebhookKeymap.RemoveMapping | script.webhook.runner/resources/lib/default.py:244-276 | the corrected removal keeps the root and its top-level sections in place, and for a raw code it changes nothing when there is no `<global><keyboard>` |
| WebhookKeymap.Keymap.Mappings | script.webhook.runner/resources/lib/default.py:278-320 | every mapping names one of `remote`, `keyboard`, `universalremote`; without a keymap file there are no mappings; otherwise they are read as written (raw codes from a top-level `<keyboard>`) |
| WebhookKeymap.MappingsFromSections | script.webhook.runner/resources/lib/default.py:289-316 | whatever the tree, every mapping read names one of the three sections read |
| WebhookKeymap.KeymapMappingsAsWritten | script.webhook.runner/resources/lib/default.py:278-320 | as written: every mapping read names one of the three sections read |
| WebhookKeymap.KeymapMappings | script.webhook.runner/resources/lib/default.py:278-320 | reading raw codes where they are written: every mapping read names one of the three sections read |
| ScrcpyArgs.IntSetting | script.scrcpy-launcher/main.py:36-44 | an empty setting reads as 0, a digit string as its value, any other text `int` accepts as its value, and text `int` rejects as 0 |
| ScrcpyArgs.BoolSettingLower | script.scrcpy-launcher/main.py:38-39 | a boolean setting is on exactly when its text, lower-cased, is `true` |
| ScrcpyArgs.Render | script.scrcpy-launcher/main.py:52-54 | index 0 (and an unreadable setting) gives no render driver, 2 `opengl`, 3 `software`, any other index `opengles2` |
| ScrcpyArgs.ArgTexts | script.scrcpy-launcher/main.py:107 | one text per argument, in the same order |
| ScrcpyArgs.CandidateRank | script.scrcpy-launcher/main.py:57-105 | each setting contributes at most one argument, and it sits at that setting's place in the fixed order |
| ScrcpyArgs.HasRankAppend | script.scrcpy-launcher/main.py:57-105 | an argument is among appended lists exactly when it is in one of them |
| ScrcpyArgs.BuiltHasRank | script.scrcpy-launcher/main.py:57-105 | after the first `n` settings are read, setting `k`'s argument is present exactly when `k < n` and the setting asks for one |
| ScrcpyArgs.BuiltBelow | script.scrcpy-launcher/main.py:57-105 | after the first `n` settings no argument of a later setting is present |
| ScrcpyArgs.BuiltInOrder | script.scrcpy-launcher/main.py:57-105 | the arguments are in the fixed setting order |
| ScrcpyArgs.BuiltMember | script.scrcpy-launcher/main.py:57-105 | every argument present is the one its own setting contributes |
| ScrcpyArgs.ExtraArgs | script.scrcpy-launcher/main.py:57-107 | the method appending argument by argument builds exactly the argument list of the settings and joins it with single spaces |
| ScrcpyArgs.VideoArgs | script.scrcpy-launcher/main.py:60-82 | the first appends give exactly the arguments of the six video settings |
| ScrcpyArgs.AppendOtherArgs | script.scrcpy-launcher/main.py:84-105 | the remaining appends complete the argument list of all eleven settings |
| ScrcpyArgs.BuiltRanksFromChoices | script.scrcpy-launcher/main.py:57-105 | frame rate, size, bit rate, video codec, crop, full screen, stay-awake, screen-off, shortcut and extra arguments each appear exactly when their value asks for them, in that order, and an audio argument always appears |
| ScrcpyArgs.ExtraArgsFromSettings | script.scrcpy-launcher/main.py:57-105 | the same, stated on the settings' texts: e.g. the frame-rate argument appears exactly when the setting reads as a positive number, the video codec exactly for indices 0-2, the shortcut only in the launcher and for indices 1-4 |
| ScrcpyArgs.ExtraArgsValue | script.scrcpy-launcher/main.py:60-105 | every argument carries its own setting's value (number, text, codec name, shortcut key) |
| ScrcpyArgs.AudioArgument | script.scrcpy-launcher/main.py:84-89 | with audio on the argument names the chosen codec (`opus` for an unknown index); with audio off it is `--no-audio` |
| ScrcpyArgs.OneAudioArgument | script.scrcpy-launcher/main.py:84-89 | an argument list in order holds exactly one audio argument |
| ScrcpyArgs.BuildShellCommand | script.scrcpy-launcher/main.py:120-126 | the command built with `+=` is scrcpy's path, the render driver when set, the target, then the extra arguments when there are any |
| ScrcpyArgs.JoinCommandWords | script.scrcpy-launcher/main.py:236-246 | the desktop's word list joined by single spaces is the LibreELEC command string, when the extra arguments are single-spaced |
| ScrcpyArgs.ShellCommandWords | script.scrcpy-launcher/main.py:120-145 | the shell splits the LibreELEC command back into exactly the desktop's word list, when path, render driver and address hold no whitespace |
| ScrcpyArgs.IntToStrNoSpace | script.scrcpy-launcher/main.py:180 | a port number's digits hold no whitespace |
| ScrcpyMain.FlatpakDetection | script.scrcpy-launcher/main.py:48-49 | any add-on path under a `.var/app/` directory is detected as a Flatpak, and a path that cannot hold the marker is not |
| ScrcpyMain.IsFlatpak | script.scrcpy-launcher/main.py:48-49 | a path detected as a Flatpak is at least as long as the `.var/app/` marker and holds its characters |
| ScrcpyMain.WifiPort | script.scrcpy-launcher/main.py:163 | a port setting of 0, empty or unreadable means adb's default port 5555; any other value is used as it is |
| ScrcpyMain.StreamUsbLibreelec | script.scrcpy-launcher/main.py:110-126 | the launch script runs the shell command for the USB device with the launcher's arguments |
| ScrcpyMain.StreamWifiLibreelec | script.scrcpy-launcher/main.py:160-181 | nothing is launched exactly when no IP address is set; otherwise the shell command aims at `ip:port` |
| ScrcpyMain.ScrcpyArgv | script.scrcpy-launcher/main.py:236-246 | the list built with `append` and `extend` is exactly scrcpy's words for the render driver, target and split extra arguments |
| ScrcpyMain.DesktopCommand | script.scrcpy-launcher/main.py:250-260 | outside a Flatpak the scrcpy words are run as they are; inside one they follow the `flatpak-spawn --host` prefix with the four environment settings |
| ScrcpyMain.StreamUsbDesktop | script.scrcpy-launcher/main.py:219-262 | the argument list run for the USB device is the scrcpy words, wrapped for `flatpak-spawn` exactly when the add-on runs as a Flatpak |
| ScrcpyMain.StreamWifiDesktop | script.scrcpy-launcher/main.py:265-318 | nothing is run exactly when no IP address is set; otherwise the scrcpy words aimed at `ip:port`, wrapped for `flatpak-spawn` inside a Flatpak |
| ScrcpyMain.FlatpakKeepsCommand | script.scrcpy-launcher/main.py:252-257 | inside a Flatpak the scrcpy command is passed on whole, after exactly six prefix words starting `flatpak-spawn --host` |
| ScrcpyMain.DesktopMatchesLibreelec | script.scrcpy-launcher/main.py:110-318 | the desktop and the LibreELEC launches run the same scrcpy command: each is the other split or joined on single spaces |
| ScrcpyMain.MainChoice | script.scrcpy-launcher/main.py:321-342 | missing scrcpy is reported exactly when it is not installed; otherwise entries 0, 1 and 2 stream USB, stream WiFi and open the settings exactly when chosen, on the detected platform |
| ScrcpyService.FirstUsbDevice | script.scrcpy-launcher/service.py:117-122 | no device exactly when no line lists a USB device; otherwise the id of one such line |
| ScrcpyService.UsbDevice | script.scrcpy-launcher/service.py:105-126 | a failed or missing adb run gives no device, and a device id never holds `:` (no network devices) |
| ScrcpyService.GetUsbDevice | script.scrcpy-launcher/service.py:105-126 | the loop over the lines after the header returns exactly the first USB device |
| ScrcpyService.NetworkLinesSkipped | script.scrcpy-launcher/service.py:117-122 | network devices listed before a USB device do not hide it: the first USB line wins |
| ScrcpyService.TransitionRule | script.scrcpy-launcher/service.py:216-227 | with auto-start off nothing changes; a launch remembers the new device; no device forgets it and clears the running flag; a device already handled or scrcpy running changes nothing; only a launch on LibreELEC sets the running flag |
| ScrcpyService.Next | script.scrcpy-launcher/service.py:216-227 | one poll keeps the state, remembers the device seen with the platform's running flag, or clears it; scrcpy is newly marked running only by a launch on LibreELEC; the remembered device changes only with auto-start on |
| ScrcpyService.ScrcpyMonitor.constructor | script.scrcpy-launcher/service.py:193-197 | the monitor starts with no device seen, scrcpy not running and nothing done |
| ScrcpyService.ScrcpyMonitor.LaunchScrcpy | script.scrcpy-launcher/service.py:129-190 | the device stays remembered; on LibreELEC the launch script runs the service's command and scrcpy is marked running; on the desktop only a notification is shown |
| ScrcpyService.ScrcpyMonitor.Poll | script.scrcpy-launcher/service.py:216-231 | one pass of the loop moves the state by the transition rule and adds that poll's effects |
| ScrcpyService.ScrcpyMonitor.Run | script.scrcpy-launcher/service.py:199-233 | the loop's final state and effects are those of the trace of its polls |
| ScrcpyService.TraceStep | script.scrcpy-launcher/service.py:216-231 | one more poll extends the trace by exactly that poll's step |
| ScrcpyService.SettlesOn | script.scrcpy-launcher/service.py:221-224 | a poll that sees a device settles the state on it, and a settled state never launches for that device |
| ScrcpyService.OneLaunchPerConnection | script.scrcpy-launcher/service.py:216-231 | while auto-start stays on and the same USB device stays connected, scrcpy is launched at most once, and not at all once settled on that device |
| ScrcpyService.ReconnectLaunchesAgain | script.scrcpy-launcher/service.py:225-227 | unplugging clears the state, so the next poll that sees the device launches scrcpy again |
| ScrcpyService.DesktopNeverRunning | script.scrcpy-launcher/service.py:188-190 | on the desktop scrcpy is never marked running and every effect is a notification |
| GenerateRepo.StripDeclaration | generate_repo.py:27-30 | content without a declaration is kept as it is; the read fails exactly when the content starts `<?xml` but never closes it with `?>` |
| GenerateRepo.DeclarationRemoved | generate_repo.py:28-29 | a declaration whose attributes hold no `?` is removed entirely and only the stripped body is kept |
| GenerateRepo.IndentLine | generate_repo.py:42 | a non-blank line gains four spaces; a blank line is kept unchanged |
| GenerateRepo.IndentLines | generate_repo.py:42-43 | one indented line per line, in order |
| GenerateRepo.IndentKeepsLines | generate_repo.py:42-43 | indenting keeps the number of lines and changes each line only as the indent rule says |
| GenerateRepo.DedentIndentLine | generate_repo.py:42 | an indented line dedented is the line again |
| GenerateRepo.DedentIndent | generate_repo.py:42-43 | the indentation loses nothing: the add-on's content can be recovered from its indented form |
| GenerateRepo.ContributionCases | generate_repo.py:21-49 | a missing folder or `addon.xml` adds nothing; only an unclosed declaration fails; a non-empty contribution is the indented content followed by a newline |
| GenerateRepo.Contributions | generate_repo.py:37 | one contribution per folder, in folder order |
| GenerateRepo.AddonsXmlOf | generate_repo.py:33-52 | a successful run starts with the XML header and `<addons>` and ends with `</addons>`; it succeeds exactly when every folder's contribution does |
| GenerateRepo.GenerateAddonsXml | generate_repo.py:33-52 | the loop appending each folder's contribution builds exactly the document of the four add-on folders |
| GenerateRepo.ConcatStep | generate_repo.py:37-44 | one more folder appends its contribution on success; a failure is the outcome of the whole run |
| GenerateRepo.ConcatAppend | generate_repo.py:37-44 | scanning two lists of contributions one after the other appends their outputs, and the first failure wins |
| GenerateRepo.ConcatFails | generate_repo.py:37-44 | the contributions fail exactly when one of them does |
| GenerateRepo.BodyAppend | generate_repo.py:37-49 | scanning two folder lists one after the other gives the first's output followed by the second's; either failing fails the whole |
| GenerateRepo.BodyFails | generate_repo.py:28-44 | a run fails exactly when some folder's `addon.xml` opens a declaration it never closes |
| GenerateRepo.ConcatEmpty | generate_repo.py:37-49 | contributions that are all empty add nothing |
| GenerateRepo.MissingContributeNothing | generate_repo.py:35-51 | with no add-on folder present the output is the bare header and footer |
| GenerateRepo.ConcatFour | generate_repo.py:37-44 | four successful contributions are appended in their order |
| GenerateRepo.AddonsInOrder | generate_repo.py:14-52 | the add-ons appear in the order of the folder list, each folder's contribution in its place between header and footer |
| Strings.Strip | plugin.audio.musicassistant/addon.py:2285 | `strip()` removes exactly the leading and trailing whitespace (ASCII whitespace as `str.isspace` counts it, U+001C..U+001F included): the result is a slice with only whitespace around it and no whitespace at either end |
| Strings.StripEmptyIffBlank | plugin.audio.musicassistant/addon.py:2285 | the `if p.strip()` filter drops exactly the blank pieces |
| Strings.StripIdempotent | plugin.audio.musicassistant/addon.py:2285 | stripping twice is stripping once |
| Strings.Lower | context.plexkodiconnect.download/default.py:683 | `lower()` keeps the length and lower-cases each ASCII capital, keeping every other character |
| Strings.LowerIdempotent | script.scrcpy-launcher/main.py:39 | lower-casing twice is lower-casing once |
| Strings.Split | plugin.audio.musicassistant/addon.py:2285 | `split(c)` gives at least one piece, no piece holds `c`, a text without `c` is one piece and a text with `c` at least two |
| Strings.Join | script.scrcpy-launcher/main.py:107 | joining nothing is empty and joining one part is that part |
| Strings.JoinSplit | plugin.audio.musicassistant/addon.py:2285-2289 | splitting at `c` and joining with `c` gives back the original text |
| Strings.SplitJoin | plugin.audio.musicassistant/addon.py:2285-2289 | joining pieces free of `c` with `c` and splitting again gives back the pieces |
| Strings.SplitList | plugin.audio.musicassistant/addon.py:2285 | every item of a parsed comma list is non-empty, stripped and free of the separator |
| Strings.SplitListJoinComma | plugin.audio.musicassistant/addon.py:2285-2289 | a list of well-formed items written with `','.join` reads back as itself |
| Strings.SplitListBlank | plugin.audio.musicassistant/addon.py:2284-2285 | an empty or blank setting gives the empty list |
| Strings.SplitListJoin | plugin.video.suwayomi/resources/lib/actions.py:175 | a list of well-formed items written with `', '.join` reads back as itself |
| Strings.RStrip | plugin.audio.musicassistant/resources/lib/ma_client.py:91 | `rstrip(ch)` keeps a prefix, removes only `ch` characters, and leaves no `ch` at the end |
| Strings.SplitOnce | plugin.audio.audiobookshelf/default.py:1520 | `split(c, 1)` gives the text before the first `c` and, exactly when `c` occurs, the rest after it, which put back together give the text |
| Strings.Words | script.scrcpy-launcher/main.py:246 | `split()` gives the non-empty whitespace-free runs of the text |
| Strings.WordsAreRuns | script.scrcpy-launcher/main.py:246 | the pieces are the text's runs in order: joined with single spaces they give the text with its whitespace normalised (dropped at both ends, every inner run one space) |
| Strings.WordsJoin | script.scrcpy-launcher/main.py:107-246 | joining whitespace-free words with single spaces and splitting on whitespace gives the words back |
| Strings.NatToStr | script.webhook.runner/resources/lib/default.py:116 | `str(n)` is a digit string without a leading zero (except for 0 itself) |
| Strings.NatToStrRoundTrip | script.webhook.runner/resources/lib/default.py:111-116 | the digits written for a number read back as that number |
| Strings.NatToStrInjective | script.webhook.runner/resources/lib/default.py:116 | distinct numbers are written as distinct ids |
| Strings.ParseInt | script.webhook.runner/resources/lib/default.py:111 | `int()` of a digit string is its value |
| Strings.ParseIntOfNatToStr | script.webhook.runner/resources/lib/default.py:111-116 | an id written by `str` is read back by `int` as the same number |
| Strings.Pad2 | context.plexkodiconnect.download/default.py:1264 | `{:02d}` of a natural gives at least two digits: `0` and the digit below 10, the number as written from 10 up; the digits read back as the number |
| Webtoon.NextPageOverrunsSinglePage | plugin.video.suwayomi/resources/lib/webtoon_viewer.py:457-469 | as written, turning the page of a one-page chapter in `single_first` two-page mode moves the viewer to index 1, past the only page, and loading keeps it there |
| SuwaReader.LastPageNotReadAsWritten | plugin.video.suwayomi/default.py:1816-1818 | as written, no page of a chapter of one to four pages, not even the last, marks the chapter read |
| SuwaReader.RtlCloseAtOnceMarksReadAsWritten | plugin.video.suwayomi/default.py:1657-1818 | as written, a fresh ten-page chapter opened right to left and closed at once reports page 9 and marks the chapter read |
| SuwaActions.DownloadNoticeOvercounts | plugin.video.suwayomi/resources/lib/actions.py:156-160 | as written, the notice announces more downloads than are started whenever some chapter is already downloaded |
| WebhookKeymap.RawRemovalAsWrittenKeepsKey | script.webhook.runner/resources/lib/default.py:250-256 | as written, removing a raw code right after mapping it leaves its `key` element in place under `<global><keyboard>` |
| WebhookKeymap.RawReadBackAsWritten | script.webhook.runner/resources/lib/default.py:289-316 | as written, a raw code mapped into an empty keymap is read back as the button `key` of type keyboard instead of under its own code |

## Left out

- Kodi UI and host calls: dialogs, list items, directory calls, notifications, logging and `executebuiltin`. Settings are parameters, and dialog choices are input values or sequences.
- Network clients: the Audiobookshelf library service, the Suwayomi GraphQL API, the Music Assistant HTTP transport and RSS fetching. The server is an oracle with optional replies and uploads that may fail. The Basic-auth base64 header is not modelled.
- File, JSON and XML persistence: each store is an in-memory map or tree. The old-file migration in `sync_manager.py`, and `startup_sync` and `sync_on_reconnect`, are not part of this model.
- Concurrency: the singleton lock, the background sync worker, the monitor thread, the download threads and `on_playback_start` wiring. Only the per-step rules are modelled, sequentially.
- Subprocesses: adb, scrcpy, systemd-run, Flatpak and sendspin launching. Exit codes and outputs are parameters.
- Floating point: times are integer seconds, and the threshold ratios are cross-multiplied. `str(float)` exponent notation is not modelled.
- Webtoon layout geometry (`_get_paged_dimensions`, `_get_webtoon_dimensions`, the 1.4 aspect): it is abstracted as a layout parameter. The image controls and the slideshow fallback that copies page files are left out.
- `DownloadManager`: the download workers, cover fetching and `is_downloaded` are file and network I/O, and are not modelled.
- Unicode: `isalnum`, `lower` and `strip` are ASCII-only; whitespace outside ASCII (U+0085, U+00A0, U+2000..U+200A and the like), which Python also strips and splits on, is kept as ordinary text.
- `urlencode`/`parse_qsl`: these are library calls, and URLs are built as plain strings.
- Regular expressions: the few patterns used are hand-coded. The `plex.direct` URL regex and `copy_with_progress` are left out.
- PlexKodiConnect JSON-RPC and Plex server lookups are oracles. `PlexPaths.SongBatch` abstracts "resolvable to a Plex id" as a given predicate.
- Music Assistant:
  - Non-object metadata and a non-list `images` value count as no image.
  - A JSON decode error is modelled as a failed request.
  - The server's own `move_item` is taken to remove the item and reinsert it at the target (`MaAddon.MoveItem`).
- `generate_repo.py`: the MD5 checksum (lines 54-56) and the file writing in `main` (lines 58-75) are left out.
- `plugin.video.suwayomi/default.py` repeats code modelled from other files, so those copies are not modelled again:
  - `hide_source` / `manage_hidden_sources` (lines 1173-1218) duplicate `actions.py`;
  - `mark_manga_configured` (lines 87-93) duplicates `helpers.py`;
  - the source filters (lines 816-848) duplicate `helpers.py`.
- Call-site wiring that passes unsupported keyword arguments (`show_progress=`, `download_manager=`, `offline_mode=`) or calls undefined API methods is not modelled. Only the callees' own contracts are.
- The podcast "watched" estimate and `format_date` are float and date arithmetic, and are left out.
- WebhookKeymap.RemoveFromSection: its own contract only keeps the section's tag. What it removes is stated by `WebhookKeymap.RemoveAppended` and `WebhookKeymap.RemoveFromSectionKeepsAbsence`.
- WebhookKeymap.RemoveRawKey: its own contract only keeps the section's tag. What it removes is stated by `WebhookKeymap.RemoveRawAppended` for a mapping added just before.
- SettingInt: Python's `int` also accepts digit-group underscores (`1_000`); the model reads such text as unparsable and gives the default.
- IndexParam and NextId read ids and queue indices with the same parser, so `1_0`, which Python's `int` reads as 10, gives 0 as an index and is skipped as a webhook id; ids and indices the add-ons write never take that form.
- EpisodeMatchAt: the pattern's `(.+)` stops at a newline, while the model's title group runs to the end of the text; episode titles are taken to be single lines.

## Findings

| source | as written | input that shows it | evidently intended | confidence | as-written member | corrected member |
|---|---|---|---|---|---|---|
| plugin.video.suwayomi/resources/lib/webtoon_viewer.py:457-469 | in `single_first` two-page mode, the next page from index 0 is always 1 | a one-page chapter in `single_first` mode: the index becomes 1, past the only page | the index stays within the chapter | not executed | Webtoon.NextPageOverrunsSinglePage | Webtoon.NextIndex |
| plugin.video.suwayomi/default.py:1816-1818 | marks read when the 0-based final page is at least 0.8 of the page count | a 4-page chapter read to its last page (page 3): 3 < 3.2, so it is never marked read | reaching the last page marks the chapter read | not executed | SuwaReader.LastPageNotReadAsWritten | SuwaReader.MarksReadBounds |
| plugin.video.suwayomi/default.py:1657-1818 | in right-to-left mode the page list is reversed but the viewer index is reported back unmirrored | a fresh 10-page chapter opened right to left and closed at once: page 9 is reported and the chapter marked read | the reported page is the source page the reader saw | not executed | SuwaReader.RtlCloseAtOnceMarksReadAsWritten | SuwaReader.CloseAtOnceReportsStart |
| plugin.video.suwayomi/resources/lib/actions.py:156-160 | the notice counts every chapter of the manga | a manga with any chapter already downloaded: the notice count exceeds the number queued | the notice counts the chapters queued | not executed | SuwaActions.DownloadNoticeOvercounts | SuwaActions.DownloadNoticeCount |
| script.webhook.runner/resources/lib/default.py:203-208, 250-256 | raw key codes are added under `<global><keyboard>` but removed from a top-level `<keyboard>` | map raw code `61448`, then remove it: the `key` element stays | removal deletes the mapping that was added | not executed | WebhookKeymap.RawRemovalAsWrittenKeepsKey | WebhookKeymap.RawAddThenRemove |
| script.webhook.runner/resources/lib/default.py:289-316 | raw codes are read from a top-level `<keyboard>`, so the `<global><keyboard>` loop reports them under the tag `key` | map raw code `61448` into an empty keymap: it is listed as button `key` | the mapping is listed under its own code | not executed | WebhookKeymap.RawReadBackAsWritten | WebhookKeymap.RawReadBack |
