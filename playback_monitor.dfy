/** The Audiobookshelf add-on's playback monitor
    (plugin.audio.audiobookshelf/playback_monitor.py): while an item plays it
    saves the position periodically, and once more when playback stops,
    through the sync manager.

    The worker thread's loop becomes one method call per poll (`Tick`) and
    one for the end of playback (`Finish`); the player's readings and the
    clock are parameters. Whether the server accepts an upload is the
    `accepted` parameter handed on to the sync manager. */
module AbsPlayback {
  import opened Wrappers
  import AbsSync

  /** Which sync manager entry point a save goes to. */
  datatype SaveKind = Progress | Stop

  /** One save handed to the sync manager. */
  datatype SaveCall = SaveCall(kind: SaveKind, currentTime: int, duration: int, finished: bool)

  /** The periodic save condition: sync enabled, the interval elapsed, and
      the position moved by more than five seconds since the last save. */
  predicate PeriodicSaveDue(syncEnabled: bool, elapsed: int, interval: int, current: int, lastSynced: int)
  {
    syncEnabled && elapsed >= interval && AbsSync.Abs(current - lastSynced) > AbsSync.ProgressThreshold
  }

  /** The final save condition. */
  predicate FinalSaveDue(syncOnStop: bool, lastPosition: int)
  {
    syncOnStop && lastPosition > 0
  }

  /** The finished flag a save carries: only a final save at or past the
      threshold percentage of the duration. */
  predicate FinishedOnSave(isFinal: bool, currentTime: int, duration: int, pct: int)
  {
    isFinal && AbsSync.Reached(currentTime, duration, pct)
  }

  /** The sync manager's table after `on_playback_stop` / `on_playback_progress`
      records a save: the position is saved as pending, then marked uploaded
      when a service is attached and the server accepts it. */
  function Recorded(p: map<string, AbsSync.Record>, itemId: string, episodeId: Option<string>,
                    currentTime: int, duration: int, finished: bool,
                    online: bool, accepted: bool, now: int): (r: map<string, AbsSync.Record>)
    ensures r.Keys == p.Keys + {AbsSync.ProgressKey(itemId, episodeId)}
    ensures forall k :: k in p && k != AbsSync.ProgressKey(itemId, episodeId) ==> r[k] == p[k]
    ensures var u := r[AbsSync.ProgressKey(itemId, episodeId)];
            u.currentTime == currentTime && u.duration == duration && u.isFinished == finished &&
            (u.needsUpload <==> !(online && accepted))
  {
    var saved := AbsSync.Saved(p, itemId, episodeId, currentTime, duration, finished, true, false, now);
    if online && accepted then AbsSync.MarkedUploaded(saved, AbsSync.ProgressKey(itemId, episodeId), now)
    else saved
  }

  class PlaybackMonitor {
    const itemId: string
    const episodeId: Option<string>
    const syncEnabled: bool
    const syncOnStop: bool
    const syncInterval: int
    /** `finished_threshold` as a whole percentage (0.95 is 95). */
    const finishedPct: int
    const mgr: AbsSync.SyncManager

    var duration: int
    var startPosition: int
    var lastPosition: int
    var lastSyncedPosition: int
    var lastSyncTime: int
    var isFinished: bool
    /** The saves handed to the sync manager, oldest first. */
    var calls: seq<SaveCall>

    ghost predicate Valid()
      reads this, mgr
    {
      && duration >= 1 && mgr.Valid()
      // only a final save ever carries the finished flag ...
      && (forall i :: 0 <= i < |calls| && calls[i].finished ==> calls[i].kind == Stop)
      // ... and the item is finished exactly when some save carried it
      && (isFinished <==> exists i :: 0 <= i < |calls| && calls[i].finished)
    }

    /** `__init__`: the duration is clamped to at least one second. */
    constructor (itemId: string, episodeId: Option<string>, duration: int, syncEnabled: bool,
                 syncOnStop: bool, syncInterval: int, finishedPct: int, mgr: AbsSync.SyncManager)
      requires mgr.Valid()
      ensures Valid()
      ensures this.duration == AbsSync.Max(duration, 1)
      ensures this.itemId == itemId && this.episodeId == episodeId && this.mgr == mgr
      ensures this.syncEnabled == syncEnabled && this.syncOnStop == syncOnStop
      ensures this.syncInterval == syncInterval && this.finishedPct == finishedPct
      ensures startPosition == 0 && lastPosition == 0 && lastSyncedPosition == 0
      ensures !isFinished && calls == []
    {
      this.itemId := itemId;
      this.episodeId := episodeId;
      this.duration := AbsSync.Max(duration, 1);
      this.syncEnabled := syncEnabled;
      this.syncOnStop := syncOnStop;
      this.syncInterval := syncInterval;
      this.finishedPct := finishedPct;
      this.mgr := mgr;
      startPosition := 0;
      lastPosition := 0;
      lastSyncedPosition := 0;
      lastSyncTime := 0;
      isFinished := false;
      calls := [];
    }

    /** The player's duration replaces a duration of one second or less only
        when it is itself more than one second. */
    static function NextDuration(duration: int, playerDuration: Option<int>): (r: int)
      ensures duration >= 1 ==> r >= 1
      ensures duration > 1 ==> r == duration
      ensures r != duration ==> playerDuration == Some(r) && r > 1
    {
      if duration <= 1 && playerDuration.Some? && playerDuration.value > 1 then playerDuration.value
      else duration
    }

    /** `start_monitoring_async`. */
    method StartMonitoring(startPosition: int)
      modifies this
      ensures this.startPosition == startPosition
      ensures duration == old(duration) && lastPosition == old(lastPosition)
      ensures lastSyncedPosition == old(lastSyncedPosition) && lastSyncTime == old(lastSyncTime)
      ensures isFinished == old(isFinished) && calls == old(calls)
    {
      this.startPosition := startPosition;
    }

    /** The worker once the player runs: the duration may come from the
        player, and the positions and the sync clock start from the start
        position and `now`. */
    method BeginPlayback(playerDuration: Option<int>, now: int)
      requires Valid()
      modifies this
      ensures Valid()
      ensures duration == NextDuration(old(duration), playerDuration)
      ensures lastPosition == startPosition && lastSyncedPosition == startPosition && lastSyncTime == now
      ensures startPosition == old(startPosition) && isFinished == old(isFinished) && calls == old(calls)
    {
      duration := NextDuration(duration, playerDuration);
      lastSyncTime := now;
      lastPosition := startPosition;
      lastSyncedPosition := startPosition;
    }

    /** `_save_progress`: the finished flag is set only by a final save past
        the threshold and is never cleared; the save goes to
        `on_playback_stop` when final, else to `on_playback_progress`. */
    method SaveProgress(currentTime: int, isFinal: bool, accepted: bool, now: int)
      requires Valid()
      modifies this, mgr
      ensures Valid()
      ensures var finished := FinishedOnSave(isFinal, currentTime, duration, finishedPct);
              calls == old(calls) + [SaveCall(if isFinal then Stop else Progress, currentTime, duration, finished)] &&
              isFinished == (old(isFinished) || finished)
      ensures duration == old(duration) && lastPosition == old(lastPosition)
      ensures lastSyncedPosition == old(lastSyncedPosition) && lastSyncTime == old(lastSyncTime)
      ensures startPosition == old(startPosition)
      ensures mgr.progress == Recorded(old(mgr.progress), itemId, episodeId, currentTime, duration,
                                       FinishedOnSave(isFinal, currentTime, duration, finishedPct),
                                       old(mgr.online), accepted, now)
      ensures mgr.knownItems == AbsSync.KnownAfter(old(mgr.knownItems), itemId) && mgr.online == old(mgr.online)
    {
      var finished := FinishedOnSave(isFinal, currentTime, duration, finishedPct);
      if finished {
        isFinished := true;
      }
      ghost var before := calls;
      calls := calls + [SaveCall(if isFinal then Stop else Progress, currentTime, duration, finished)];
      assert forall i :: 0 <= i < |before| ==> calls[i] == before[i];
      if finished {
        assert calls[|before|].finished;
      }
      mgr.RecordPlayback(itemId, episodeId, currentTime, duration, finished, accepted, now);
    }

    /** One poll of the monitoring loop while audio plays: record the
        position, take the player's duration if still unknown, and save when
        the periodic condition holds; the sync clock restarts whenever the
        interval has elapsed, saved or not. A poll never marks the item
        finished. */
    method Tick(currentTime: int, playerDuration: Option<int>, accepted: bool, now: int) returns (saved: bool)
      requires Valid()
      modifies this, mgr
      ensures Valid()
      ensures lastPosition == currentTime
      ensures duration == NextDuration(old(duration), playerDuration)
      ensures saved <==> PeriodicSaveDue(syncEnabled, now - old(lastSyncTime), syncInterval,
                                         currentTime, old(lastSyncedPosition))
      ensures saved ==> calls == old(calls) + [SaveCall(Progress, currentTime, duration, false)] &&
                        lastSyncedPosition == currentTime
      ensures saved ==> mgr.progress == Recorded(old(mgr.progress), itemId, episodeId, currentTime, duration,
                                                 false, old(mgr.online), accepted, now) &&
                        mgr.knownItems == AbsSync.KnownAfter(old(mgr.knownItems), itemId)
      ensures !saved ==> calls == old(calls) && lastSyncedPosition == old(lastSyncedPosition) &&
                         mgr.progress == old(mgr.progress) && mgr.knownItems == old(mgr.knownItems)
      ensures mgr.online == old(mgr.online)
      ensures lastSyncTime == if syncEnabled && now - old(lastSyncTime) >= syncInterval then now else old(lastSyncTime)
      ensures isFinished == old(isFinished)
      ensures startPosition == old(startPosition)
    {
      lastPosition := currentTime;
      duration := NextDuration(duration, playerDuration);
      saved := false;
      if syncEnabled && now - lastSyncTime >= syncInterval {
        if AbsSync.Abs(currentTime - lastSyncedPosition) > AbsSync.ProgressThreshold {
          SaveProgress(currentTime, false, accepted, now);
          lastSyncedPosition := currentTime;
          saved := true;
        }
        lastSyncTime := now;
      }
    }

    /** The end of the worker: one final save of the last position when
        saving on stop is on and the position is past zero. */
    method Finish(accepted: bool, now: int) returns (saved: bool)
      requires Valid()
      modifies this, mgr
      ensures Valid()
      ensures saved <==> FinalSaveDue(syncOnStop, old(lastPosition))
      ensures saved ==> calls == old(calls) + [SaveCall(Stop, lastPosition, duration,
                                                        FinishedOnSave(true, lastPosition, duration, finishedPct))]
      ensures saved ==> isFinished == (old(isFinished) || FinishedOnSave(true, lastPosition, duration, finishedPct))
      ensures saved ==> mgr.progress == Recorded(old(mgr.progress), itemId, episodeId, lastPosition, duration,
                                                 FinishedOnSave(true, lastPosition, duration, finishedPct),
                                                 old(mgr.online), accepted, now) &&
                        mgr.knownItems == AbsSync.KnownAfter(old(mgr.knownItems), itemId)
      ensures !saved ==> calls == old(calls) && isFinished == old(isFinished) &&
                         mgr.progress == old(mgr.progress) && mgr.knownItems == old(mgr.knownItems)
      ensures mgr.online == old(mgr.online)
      ensures duration == old(duration) && lastPosition == old(lastPosition)
      ensures lastSyncedPosition == old(lastSyncedPosition) && lastSyncTime == old(lastSyncTime)
      ensures startPosition == old(startPosition)
    {
      saved := false;
      if syncOnStop && lastPosition > 0 {
        SaveProgress(lastPosition, true, accepted, now);
        saved := true;
      }
    }
  }
}
