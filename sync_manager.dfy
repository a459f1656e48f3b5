/** The Audiobookshelf add-on's progress store and its reconciliation with
    the server (plugin.audio.audiobookshelf/sync_manager.py).

    Positions and durations are whole seconds. The finished threshold is a
    whole percentage: "position / duration >= 0.95" is `100 * position >= 95 * duration`.
    The library service is an oracle: a fetch answers with an optional server
    record (no service, a falsy reply and an exception are all `None`), and an
    upload is accepted or not. The clock is the parameter `now`. */
module AbsSync {
  import opened Wrappers
  import opened Strings
  import opened Sets

  /** PROGRESS_THRESHOLD: a side is ahead only by strictly more than this many seconds. */
  const ProgressThreshold: int := 5

  /** FINISHED_THRESHOLD_DEFAULT (0.95) as a percentage. */
  const FinishedThresholdDefault: int := 95

  /** Python truthiness of an optional episode id: present and non-empty. */
  predicate Truthy(e: Option<string>) { e.Some? && e.value != "" }

  /** `get_progress_key`: `item_episode` when the episode id is truthy, else the item id. */
  function ProgressKey(itemId: string, episodeId: Option<string>): string
  {
    if Truthy(episodeId) then itemId + "_" + episodeId.value else itemId
  }

  /** The key starts with the item id, and splitting it at its first `_`
      gives back the item and the episode whenever the item id has no `_`. */
  lemma ProgressKeySplit(itemId: string, episodeId: Option<string>)
    requires '_' !in itemId
    ensures StartsWith(ProgressKey(itemId, episodeId), itemId)
    ensures SplitOnce(ProgressKey(itemId, episodeId), '_') ==
            (itemId, if Truthy(episodeId) then Some(episodeId.value) else None)
  {
    var key := ProgressKey(itemId, episodeId);
    var r := SplitOnce(key, '_');
    if Truthy(episodeId) {
      assert key == itemId + "_" + episodeId.value;
      assert key[|itemId|] == '_';
      SplitOnceAt(itemId, episodeId.value, '_');
    } else {
      assert key[..|key|] == key;
    }
  }

  lemma {:induction false} SplitOnceAt(a: string, b: string, c: char)
    requires c !in a
    ensures SplitOnce(a + [c] + b, c) == (a, Some(b))
  {
    if a != [] {
      assert (a + [c] + b)[1..] == a[1..] + [c] + b;
      SplitOnceAt(a[1..], b, c);
      assert [a[0]] + a[1..] == a;
    }
  }

  /** Two items without `_` in their ids share a key only when they are the
      same item with the same (truthy) episode. */
  lemma ProgressKeyInjective(i1: string, e1: Option<string>, i2: string, e2: Option<string>)
    requires '_' !in i1 && '_' !in i2
    requires ProgressKey(i1, e1) == ProgressKey(i2, e2)
    ensures i1 == i2
    ensures Truthy(e1) == Truthy(e2)
    ensures Truthy(e1) ==> e1.value == e2.value
  {
    ProgressKeySplit(i1, e1);
    ProgressKeySplit(i2, e2);
  }

  /** `position / duration >= pct%` guarded by `duration > 0`, as the source
      computes the finished flag of a position taken from the server. */
  predicate Reached(position: int, duration: int, pct: int)
  {
    duration > 0 && 100 * position >= pct * duration
  }

  function Max(a: int, b: int): (m: int)
    ensures m >= a && m >= b && (m == a || m == b)
  {
    if a >= b then a else b
  }

  function Abs(x: int): (a: int)
    ensures a >= 0 && (a == x || a == -x)
  {
    if x >= 0 then x else -x
  }

  /** One entry of the local progress table. */
  datatype Record = Record(
    itemId: string,
    episodeId: Option<string>,
    currentTime: int,
    duration: int,
    progress: real,
    isFinished: bool,
    updatedAt: int,
    needsUpload: bool,
    serverTime: int,
    lastSynced: int)

  /** The server's progress reply (`currentTime`, `isFinished`, `duration`). */
  datatype ServerProgress = ServerProgress(currentTime: int, isFinished: bool, duration: int)

  /** Every entry is stored under the key its own item and episode produce. */
  ghost predicate KeysConsistent(p: map<string, Record>)
  {
    forall k :: k in p ==> k == ProgressKey(p[k].itemId, p[k].episodeId)
  }

  predicate Distinct(s: seq<string>)
  {
    forall i, j :: 0 <= i < j < |s| ==> s[i] != s[j]
  }

  // ------------------------------------------------------------ save_local_progress

  /** The record `save_local_progress` writes, given the record it replaces. */
  function SavedRecord(existing: Option<Record>, itemId: string, episodeId: Option<string>,
                       currentTime: int, duration: int, isFinished: bool,
                       needsUpload: bool, fromServer: bool, now: int): (r: Record)
    ensures r.itemId == itemId && r.episodeId == episodeId
    ensures r.currentTime == currentTime && r.duration == duration && r.isFinished == isFinished
    ensures r.updatedAt == now
    ensures r.needsUpload <==> needsUpload && !fromServer
    ensures fromServer ==> r.serverTime == currentTime && r.lastSynced == now
    ensures !fromServer ==> r.serverTime == (if existing.Some? then existing.value.serverTime else 0)
    ensures !fromServer ==> r.lastSynced == (if existing.Some? then existing.value.lastSynced else 0)
    ensures duration <= 0 ==> r.progress == 0.0
    ensures duration > 0 ==> r.progress * (duration as real) == currentTime as real
  {
    Record(itemId, episodeId, currentTime, duration,
           if duration > 0 then (currentTime as real) / (duration as real) else 0.0,
           isFinished, now, needsUpload && !fromServer,
           if fromServer then currentTime else if existing.Some? then existing.value.serverTime else 0,
           if fromServer then now else if existing.Some? then existing.value.lastSynced else 0)
  }

  function Lookup(p: map<string, Record>, key: string): (r: Option<Record>)
    ensures r.Some? <==> key in p
    ensures key in p ==> r.value == p[key]
  {
    if key in p then Some(p[key]) else None
  }

  /** The table after `save_local_progress`: only the entry at the item's key changes. */
  function Saved(p: map<string, Record>, itemId: string, episodeId: Option<string>,
                 currentTime: int, duration: int, isFinished: bool,
                 needsUpload: bool, fromServer: bool, now: int): (r: map<string, Record>)
    ensures r.Keys == p.Keys + {ProgressKey(itemId, episodeId)}
    ensures forall k :: k in p && k != ProgressKey(itemId, episodeId) ==> r[k] == p[k]
    ensures KeysConsistent(p) ==> KeysConsistent(r)
  {
    var key := ProgressKey(itemId, episodeId);
    p[key := SavedRecord(Lookup(p, key), itemId, episodeId, currentTime, duration, isFinished,
                         needsUpload, fromServer, now)]
  }

  /** `known_items` after saving progress for `itemId`: appended once, never twice. */
  function KnownAfter(known: seq<string>, itemId: string): (r: seq<string>)
    ensures itemId in r
    ensures forall x :: x in r <==> x in known || x == itemId
    ensures known <= r && |r| <= |known| + 1
    ensures Distinct(known) ==> Distinct(r)
  {
    if itemId in known then known else known + [itemId]
  }

  // ------------------------------------------------------------ mark_uploaded / pending

  /** The fields `mark_uploaded` changes on an entry. */
  function Uploaded(r: Record, now: int): (u: Record)
    ensures !u.needsUpload && u.lastSynced == now && u.serverTime == r.currentTime
    ensures u.(needsUpload := r.needsUpload, lastSynced := r.lastSynced, serverTime := r.serverTime) == r
  {
    r.(needsUpload := false, lastSynced := now, serverTime := r.currentTime)
  }

  /** The table after `mark_uploaded(key)`: unchanged when the key is absent. */
  function MarkedUploaded(p: map<string, Record>, key: string, now: int): (r: map<string, Record>)
    ensures r.Keys == p.Keys
    ensures forall k :: k in p && k != key ==> r[k] == p[k]
    ensures key in p ==> r[key] == Uploaded(p[key], now)
    ensures KeysConsistent(p) ==> KeysConsistent(r)
  {
    if key in p then p[key := Uploaded(p[key], now)] else p
  }

  /** `get_pending_uploads`: the entries whose `needs_upload` is set. */
  function Pending(p: map<string, Record>): (r: map<string, Record>)
    ensures forall k :: k in r <==> k in p && p[k].needsUpload
    ensures forall k :: k in r ==> r[k] == p[k]
  {
    map k | k in p && p[k].needsUpload :: p[k]
  }

  /** After `mark_uploaded` the key is no longer pending and every other
      pending entry stays pending. */
  lemma PendingAfterMark(p: map<string, Record>, key: string, now: int)
    ensures Pending(MarkedUploaded(p, key, now)) == Pending(p) - {key}
  {
    var l := Pending(MarkedUploaded(p, key, now));
    var r := Pending(p) - {key};
    assert l.Keys == r.Keys;
  }

  /** After a save the saved key is pending exactly when it was saved with
      `needs_upload` and not from the server. */
  lemma PendingAfterSave(p: map<string, Record>, itemId: string, episodeId: Option<string>,
                         currentTime: int, duration: int, isFinished: bool,
                         needsUpload: bool, fromServer: bool, now: int)
    ensures var q := Saved(p, itemId, episodeId, currentTime, duration, isFinished, needsUpload, fromServer, now);
            var key := ProgressKey(itemId, episodeId);
            (key in Pending(q) <==> needsUpload && !fromServer) &&
            Pending(q) - {key} == Pending(p) - {key}
  {
    var q := Saved(p, itemId, episodeId, currentTime, duration, isFinished, needsUpload, fromServer, now);
    var key := ProgressKey(itemId, episodeId);
    assert (Pending(q) - {key}).Keys == (Pending(p) - {key}).Keys;
  }

  /** `q` is `p` with exactly the entries in `keys` marked uploaded. */
  predicate MarkedAll(p: map<string, Record>, q: map<string, Record>, keys: set<string>, now: int)
  {
    q.Keys == p.Keys && forall k :: k in p ==> q[k] == if k in keys then Uploaded(p[k], now) else p[k]
  }

  // ------------------------------------------------------------ reconciliation rules

  /** One side's view of an item: position, finished flag, duration (0 / false / 0 when absent). */
  datatype Side = Side(time: int, finished: bool, duration: int)

  function LocalSide(r: Option<Record>): Side
  {
    if r.Some? then Side(r.value.currentTime, r.value.isFinished, r.value.duration) else Side(0, false, 0)
  }

  function ServerSide(s: Option<ServerProgress>): Side
  {
    if s.Some? then Side(s.value.currentTime, s.value.isFinished, s.value.duration) else Side(0, false, 0)
  }

  /** `get_server_progress`: no service means no reply. */
  function Fetch(online: bool, reply: Option<ServerProgress>): (r: Option<ServerProgress>)
    ensures !online ==> r == None
    ensures online ==> r == reply
  {
    if online then reply else None
  }

  /** What a reconciliation step does to the store: nothing, write the server's
      position locally (`from_server`), or upload the local position. */
  datatype Action = Keep | Pull(time: int, finished: bool) | Push(time: int, finished: bool)

  /** The triple `get_best_resume_position` returns, and its side effect. */
  datatype Resume = Resume(position: int, finished: bool, duration: int, action: Action)

  /** The decision rule of `get_best_resume_position`. */
  function ResumeChoice(l: Side, s: Side, online: bool, pct: int): (r: Resume)
    ensures r.duration == Max(l.duration, s.duration)
    // a finished side wins: resume from 0, reported finished
    ensures l.finished || s.finished ==> r.position == 0 && r.finished
    // neither finished: the position is the furthest of the two
    ensures !l.finished && !s.finished ==> r.position == Max(l.time, s.time)
    // the local entry is overwritten from the server exactly when the server finished alone,
    // or neither finished and the server is more than 5 s ahead
    ensures r.action.Pull? <==>
            (s.finished && !l.finished) ||
            (!l.finished && !s.finished && s.time - l.time > ProgressThreshold)
    ensures r.action.Pull? ==> r.action.time == s.time && r.action.finished == r.finished
    ensures s.finished && !l.finished ==> r.action == Pull(s.time, true)
    // an upload is attempted exactly when online and the local side finished alone (with a
    // known duration), or neither finished and the local side is more than 5 s ahead
    ensures r.action.Push? <==>
            online && ((l.finished && !s.finished && r.duration > 0) ||
                       (!l.finished && !s.finished && l.time - s.time > ProgressThreshold))
    ensures r.action.Push? ==> r.action.time == l.time && r.action.finished == l.finished
    // within the threshold nothing is written and the item is not finished
    ensures !l.finished && !s.finished && Abs(l.time - s.time) <= ProgressThreshold ==>
            r.action == Keep && !r.finished
    // neither finished: reported finished exactly when the server is more than 5 s ahead
    // and its position reaches the threshold share of the longer duration
    ensures !l.finished && !s.finished ==>
            (r.finished <==> s.time - l.time > ProgressThreshold && Reached(s.time, r.duration, pct))
  {
    var d := Max(l.duration, s.duration);
    if s.finished && !l.finished then Resume(0, true, d, Pull(s.time, true))
    else if l.finished && !s.finished then Resume(0, true, d, if online && d > 0 then Push(l.time, true) else Keep)
    else if l.finished && s.finished then Resume(0, true, d, Keep)
    else if s.time > l.time && Abs(l.time - s.time) > ProgressThreshold then
      var f := Reached(s.time, d, pct);
      Resume(s.time, f, d, Pull(s.time, f))
    else if l.time > s.time && Abs(l.time - s.time) > ProgressThreshold then
      Resume(l.time, l.finished, d, if online then Push(l.time, l.finished) else Keep)
    else Resume(Max(l.time, s.time), false, d, Keep)
  }

  /** The decision rule of `sync_item_bidirectional`. */
  function SyncChoice(l: Side, s: Side, pct: int): (a: Action)
    // no data anywhere: nothing happens
    ensures Max(l.duration, s.duration) == 0 && l.time == 0 && s.time == 0 ==> a == Keep
    // both finished: nothing happens
    ensures l.finished && s.finished ==> a == Keep
    ensures a.Pull? ==> a.time == s.time && (s.finished ==> a.finished)
    ensures a.Push? ==> a.time == l.time && a.finished == l.finished
    ensures a.Pull? ==> !l.finished
    ensures a.Push? ==> !s.finished
    // with any data, the server wins exactly when it finished alone or neither finished and
    // it is more than 5 s ahead; the local side wins in the mirror-image cases
    ensures !(Max(l.duration, s.duration) == 0 && l.time == 0 && s.time == 0) ==>
            (a.Pull? <==> !l.finished && (s.finished || s.time - l.time > ProgressThreshold)) &&
            (a.Push? <==> !s.finished && (l.finished || l.time - s.time > ProgressThreshold))
    // a pulled position is finished when the server says so or it reaches the threshold
    ensures a.Pull? ==> (a.finished <==> s.finished || Reached(s.time, Max(l.duration, s.duration), pct))
  {
    var d := Max(l.duration, s.duration);
    if d == 0 && l.time == 0 && s.time == 0 then Keep
    else if s.finished && !l.finished then Pull(s.time, true)
    else if l.finished && !s.finished then Push(l.time, true)
    else if !l.finished && !s.finished then
      if s.time > l.time && Abs(l.time - s.time) > ProgressThreshold then Pull(s.time, Reached(s.time, d, pct))
      else if l.time > s.time && Abs(l.time - s.time) > ProgressThreshold then Push(l.time, l.finished)
      else Keep
    else Keep
  }

  /** The two entry points pick the same winner: whenever there is any data,
      `sync_item_bidirectional` pulls exactly what `get_best_resume_position`
      pulls, and pushes whenever the resume rule would push. */
  lemma SyncAgreesWithResume(l: Side, s: Side, online: bool, pct: int)
    requires !(Max(l.duration, s.duration) == 0 && l.time == 0 && s.time == 0)
    ensures SyncChoice(l, s, pct).Pull? <==> ResumeChoice(l, s, online, pct).action.Pull?
    ensures SyncChoice(l, s, pct).Pull? ==> SyncChoice(l, s, pct) == ResumeChoice(l, s, online, pct).action
    ensures ResumeChoice(l, s, online, pct).action.Push? ==> SyncChoice(l, s, pct) == ResumeChoice(l, s, online, pct).action
  {
  }

  /** The rule of `_poll_server_for_updates` for one entry with a server reply. */
  function PollChoice(r: Record, s: ServerProgress): (a: Action)
    // a locally finished entry is never modified
    ensures r.isFinished ==> a == Keep
    ensures a != Keep ==> a.Pull? && a.time == s.currentTime
    ensures a.Pull? <==> !r.isFinished && (s.isFinished || s.currentTime > r.currentTime + ProgressThreshold)
    ensures s.isFinished && !r.isFinished ==> a == Pull(s.currentTime, true)
    // a pull by a lead alone is finished when it reaches 95% of the longer duration
    ensures a.Pull? ==>
            (a.finished <==> s.isFinished || Reached(s.currentTime, Max(r.duration, s.duration), FinishedThresholdDefault))
  {
    var d := Max(r.duration, s.duration);
    if s.isFinished && !r.isFinished then Pull(s.currentTime, true)
    else if s.currentTime > r.currentTime + ProgressThreshold && !r.isFinished then
      Pull(s.currentTime, Reached(s.currentTime, d, FinishedThresholdDefault))
    else Keep
  }

  /** Whether polling rewrites this entry: it has a truthy item id, the
      server answered, and the poll rule pulls. */
  predicate PollPulls(k: string, r: Record, replies: map<string, ServerProgress>)
  {
    r.itemId != "" && k in replies && PollChoice(r, replies[k]).Pull?
  }

  /** The entry after polling. */
  function Polled(k: string, r: Record, replies: map<string, ServerProgress>, now: int): (u: Record)
    ensures !PollPulls(k, r, replies) ==> u == r
    ensures r.isFinished ==> u == r
    ensures PollPulls(k, r, replies) ==>
            u.currentTime == replies[k].currentTime && !u.needsUpload &&
            u.serverTime == replies[k].currentTime && u.lastSynced == now &&
            u.duration == Max(r.duration, replies[k].duration)
    ensures PollPulls(k, r, replies) ==>
            u.itemId == r.itemId && u.episodeId == r.episodeId &&
            (u.isFinished <==> replies[k].isFinished || Reached(replies[k].currentTime, u.duration, FinishedThresholdDefault))
  {
    if PollPulls(k, r, replies) then
      var a := PollChoice(r, replies[k]);
      SavedRecord(Some(r), r.itemId, r.episodeId, a.time, Max(r.duration, replies[k].duration),
                  a.finished, false, true, now)
    else r
  }

  /** A pull writes the server position; a second poll with the same reply
      then changes nothing: polling converges after one round. */
  lemma {:induction false} PollConverges(k: string, r: Record, replies: map<string, ServerProgress>, now: int, later: int)
    requires PollPulls(k, r, replies)
    ensures !PollPulls(k, Polled(k, r, replies, now), replies)
  {
    var u := Polled(k, r, replies, now);
    var a := PollChoice(r, replies[k]);
    assert u.currentTime == replies[k].currentTime;
    assert u.isFinished == a.finished;
    if replies[k].isFinished {
      assert a.finished;
    }
  }

  /** A pulled resume position, once written locally, is not pulled again:
      the next resume step writes nothing locally. */
  lemma {:induction false} ResumePullConverges(l: Side, s: Side, online: bool, pct: int)
    requires ResumeChoice(l, s, online, pct).action.Pull?
    ensures var r := ResumeChoice(l, s, online, pct);
            !ResumeChoice(Side(s.time, r.action.finished, r.duration), s, online, pct).action.Pull?
  {
    var r := ResumeChoice(l, s, online, pct);
    if !s.finished {
      assert !l.finished && s.time - l.time > ProgressThreshold;
    }
  }

  // ------------------------------------------------------------ the store

  /** The table after carrying out a reconciliation action for one item:
      a pull saves the server position with `needs_upload` cleared, a push
      marks the entry uploaded when the server accepts it. */
  function Applied(p: map<string, Record>, itemId: string, episodeId: Option<string>, a: Action,
                   duration: int, online: bool, accepted: bool, now: int): (r: map<string, Record>)
    ensures a == Keep ==> r == p
    ensures a.Push? && !(online && accepted) ==> r == p
    ensures a.Push? && online && accepted ==> r == MarkedUploaded(p, ProgressKey(itemId, episodeId), now)
    ensures a.Pull? ==> r == Saved(p, itemId, episodeId, a.time, duration, a.finished, false, true, now)
    ensures KeysConsistent(p) ==> KeysConsistent(r)
  {
    match a
    case Keep => p
    case Pull(t, f) => Saved(p, itemId, episodeId, t, duration, f, false, true, now)
    case Push(_, _) => if online && accepted then MarkedUploaded(p, ProgressKey(itemId, episodeId), now) else p
  }

  /** `SyncManager`: the progress table, the known items of the sync state,
      and whether a library service is attached. */
  class SyncManager {
    var progress: map<string, Record>
    var knownItems: seq<string>
    var online: bool

    ghost predicate Valid()
      reads this
    {
      KeysConsistent(progress) && Distinct(knownItems)
    }

    constructor (online: bool)
      ensures Valid() && progress == map[] && knownItems == [] && this.online == online
    {
      progress := map[];
      knownItems := [];
      this.online := online;
    }

    /** `get_local_progress`. */
    function LocalProgress(itemId: string, episodeId: Option<string>): (r: Option<Record>)
      reads this
      ensures r.Some? <==> ProgressKey(itemId, episodeId) in progress
      ensures r.Some? ==> r.value == progress[ProgressKey(itemId, episodeId)]
    {
      Lookup(progress, ProgressKey(itemId, episodeId))
    }

    method SaveLocalProgress(itemId: string, episodeId: Option<string>, currentTime: int, duration: int,
                             isFinished: bool, needsUpload: bool, fromServer: bool, now: int)
      requires Valid()
      modifies this
      ensures Valid()
      ensures progress == Saved(old(progress), itemId, episodeId, currentTime, duration, isFinished,
                                needsUpload, fromServer, now)
      ensures knownItems == KnownAfter(old(knownItems), itemId)
      ensures online == old(online)
    {
      progress := Saved(progress, itemId, episodeId, currentTime, duration, isFinished, needsUpload, fromServer, now);
      if itemId !in knownItems {
        knownItems := knownItems + [itemId];
      }
    }

    method MarkUploaded(itemId: string, episodeId: Option<string>, now: int)
      requires Valid()
      modifies this
      ensures Valid()
      ensures progress == MarkedUploaded(old(progress), ProgressKey(itemId, episodeId), now)
      ensures knownItems == old(knownItems) && online == old(online)
    {
      var key := ProgressKey(itemId, episodeId);
      if key in progress {
        progress := progress[key := Uploaded(progress[key], now)];
      }
    }

    /** `upload_progress_to_server`: `accepted` is whether the service returned a
        non-null result (false also stands for an exception). */
    method UploadProgressToServer(itemId: string, episodeId: Option<string>, currentTime: int,
                                  duration: int, isFinished: bool, accepted: bool, now: int)
      returns (ok: bool)
      requires Valid()
      modifies this
      ensures Valid()
      ensures ok == (old(online) && accepted)
      ensures progress == if ok then MarkedUploaded(old(progress), ProgressKey(itemId, episodeId), now)
                          else old(progress)
      ensures knownItems == old(knownItems) && online == old(online)
    {
      if !online {
        return false;
      }
      if accepted {
        MarkUploaded(itemId, episodeId, now);
        return true;
      }
      return false;
    }

    /** Carries out a reconciliation action through the two mutators. */
    method Apply(itemId: string, episodeId: Option<string>, a: Action, duration: int,
                 accepted: bool, now: int)
      requires Valid()
      modifies this
      ensures Valid()
      ensures progress == Applied(old(progress), itemId, episodeId, a, duration, old(online), accepted, now)
      ensures knownItems == if a.Pull? then KnownAfter(old(knownItems), itemId) else old(knownItems)
      ensures online == old(online)
    {
      match a
      case Keep =>
      case Pull(t, f) =>
        SaveLocalProgress(itemId, episodeId, t, duration, f, false, true, now);
      case Push(t, f) =>
        var _ := UploadProgressToServer(itemId, episodeId, t, duration, f, accepted, now);
    }

    /** `get_best_resume_position`: `reply` is what the service would answer,
        `accepted` whether an upload would succeed. */
    method GetBestResumePosition(itemId: string, episodeId: Option<string>, reply: Option<ServerProgress>,
                                 accepted: bool, pct: int, now: int)
      returns (position: int, finished: bool, duration: int)
      requires Valid()
      modifies this
      ensures Valid()
      ensures var c := ResumeChoice(LocalSide(Lookup(old(progress), ProgressKey(itemId, episodeId))),
                                    ServerSide(Fetch(old(online), reply)), old(online), pct);
              position == c.position && finished == c.finished && duration == c.duration &&
              progress == Applied(old(progress), itemId, episodeId, c.action, c.duration, old(online), accepted, now) &&
              knownItems == if c.action.Pull? then KnownAfter(old(knownItems), itemId) else old(knownItems)
      ensures online == old(online)
    {
      var local := LocalProgress(itemId, episodeId);
      var server := Fetch(online, reply);
      var c := ResumeChoice(LocalSide(local), ServerSide(server), online, pct);
      Apply(itemId, episodeId, c.action, c.duration, accepted, now);
      return c.position, c.finished, c.duration;
    }

    /** `sync_item_bidirectional`: returns (synced from server, uploaded to server). */
    method SyncItemBidirectional(itemId: string, episodeId: Option<string>, reply: Option<ServerProgress>,
                                 accepted: bool, pct: int, now: int)
      returns (syncedFromServer: bool, uploadedToServer: bool)
      requires Valid()
      modifies this
      ensures Valid()
      ensures !(syncedFromServer && uploadedToServer)
      ensures var l := LocalSide(Lookup(old(progress), ProgressKey(itemId, episodeId)));
              var s := ServerSide(Fetch(old(online), reply));
              var a := SyncChoice(l, s, pct);
              syncedFromServer == a.Pull? &&
              uploadedToServer == (a.Push? && old(online) && accepted) &&
              progress == Applied(old(progress), itemId, episodeId, a, Max(l.duration, s.duration),
                                  old(online), accepted, now) &&
              knownItems == if a.Pull? then KnownAfter(old(knownItems), itemId) else old(knownItems)
      ensures online == old(online)
    {
      var l := LocalSide(LocalProgress(itemId, episodeId));
      var s := ServerSide(Fetch(online, reply));
      var a := SyncChoice(l, s, pct);
      syncedFromServer := a.Pull?;
      uploadedToServer := a.Push? && online && accepted;
      Apply(itemId, episodeId, a, Max(l.duration, s.duration), accepted, now);
    }

    /** `on_playback_progress` and `on_playback_stop` (identical bodies): save
        with `needs_upload`, then upload when a service is attached. */
    method RecordPlayback(itemId: string, episodeId: Option<string>, currentTime: int, duration: int,
                          isFinished: bool, accepted: bool, now: int)
      requires Valid()
      modifies this
      ensures Valid()
      ensures var saved := Saved(old(progress), itemId, episodeId, currentTime, duration, isFinished, true, false, now);
              progress == if old(online) && accepted then MarkedUploaded(saved, ProgressKey(itemId, episodeId), now)
                          else saved
      ensures knownItems == KnownAfter(old(knownItems), itemId) && online == old(online)
    {
      SaveLocalProgress(itemId, episodeId, currentTime, duration, isFinished, true, false, now);
      if online {
        var _ := UploadProgressToServer(itemId, episodeId, currentTime, duration, isFinished, accepted, now);
      }
    }

    /** `sync_all_pending_uploads`: `accepted` is the set of keys whose upload
        the server accepts. Returns how many were uploaded. */
    method SyncAllPendingUploads(accepted: set<string>, now: int) returns (uploaded: nat)
      requires Valid()
      modifies this
      ensures Valid()
      ensures !old(online) ==> uploaded == 0 && progress == old(progress)
      ensures old(online) ==> uploaded == |Pending(old(progress)).Keys * accepted|
      ensures uploaded <= |Pending(old(progress))|
      ensures old(online) ==> MarkedAll(old(progress), progress, Pending(old(progress)).Keys * accepted, now)
      ensures old(online) ==> Pending(progress).Keys == Pending(old(progress)).Keys - accepted
      ensures knownItems == old(knownItems) && online == old(online)
    {
      if !online {
        return 0;
      }
      var pending := Pending(progress);
      var todo := pending.Keys;
      ghost var done: set<string> := {};
      uploaded := 0;
      while todo != {}
        invariant done <= pending.Keys && todo == pending.Keys - done
        invariant online && knownItems == old(knownItems) && Valid()
        invariant MarkedAll(old(progress), progress, done * accepted, now)
        invariant uploaded == |done * accepted|
        decreases |todo|
      {
        var k :| k in todo;
        var ok := UploadPendingEntry(old(progress), done, k, pending[k], accepted, now);
        if ok {
          uploaded := uploaded + 1;
        }
        CountStep(done, accepted, k);
        DoneStep(pending.Keys, done, todo, k);
        todo := todo - {k};
        done := done + {k};
      }
      assert done == pending.Keys;
      SubsetCard(pending.Keys * accepted, pending.Keys);
      PendingAfterMarkAll(old(progress), progress, accepted, now);
    }

    /** One iteration of `sync_all_pending_uploads`: the entry at `k`, still as
        it was in the snapshot `p0`, is uploaded and marked when accepted. */
    method UploadPendingEntry(ghost p0: map<string, Record>, ghost done: set<string>, k: string,
                              data: Record, accepted: set<string>, now: int) returns (ok: bool)
      requires Valid() && online
      requires k in p0 && p0[k] == data && k !in done
      requires MarkedAll(p0, progress, done * accepted, now)
      modifies this
      ensures Valid() && online && knownItems == old(knownItems)
      ensures ok == (k in accepted)
      ensures MarkedAll(p0, progress, (done + {k}) * accepted, now)
    {
      assert progress[k] == data;
      ok := UploadProgressToServer(data.itemId, data.episodeId, data.currentTime, data.duration,
                                   data.isFinished, k in accepted, now);
    }

    /** `_poll_server_for_updates`: `replies` holds the server's truthy reply per
        key. Returns how many entries were rewritten (the source only logs it). */
    method PollServerForUpdates(replies: map<string, ServerProgress>, now: int) returns (updated: nat)
      requires Valid()
      modifies this
      ensures Valid()
      ensures !old(online) ==> updated == 0 && progress == old(progress) && knownItems == old(knownItems)
      ensures old(online) ==> PolledAll(old(progress), progress, old(progress).Keys, replies, now)
      ensures forall k :: k in old(progress) && old(progress)[k].isFinished ==> progress[k] == old(progress)[k]
      ensures updated <= |old(progress)|
      ensures old(knownItems) <= knownItems
      ensures forall x :: x in knownItems ==> x in old(knownItems) || x in ItemIds(old(progress))
      ensures old(online) ==>
                forall x :: x in knownItems <==> x in old(knownItems) || x in PulledItemIds(old(progress), old(progress).Keys, replies)
      ensures online == old(online)
    {
      if !online {
        return 0;
      }
      var todo := progress.Keys;
      ghost var done: set<string> := {};
      ghost var known0 := knownItems;
      updated := 0;
      while todo != {}
        invariant done <= old(progress).Keys && todo == old(progress).Keys - done
        invariant online && Valid()
        invariant PolledAll(old(progress), progress, done, replies, now)
        invariant updated <= |done|
        invariant known0 <= knownItems
        invariant KnownSoFar(knownItems, known0, old(progress), done, replies)
        decreases |todo|
      {
        var k :| k in todo;
        ghost var known1 := knownItems;
        var pulled := PollEntry(old(progress), done, k, replies, now);
        KnownStep(known0, known1, knownItems, old(progress), done, k, replies);
        if pulled {
          updated := updated + 1;
        }
        CardAddOne(done, k);
        DoneStep(old(progress).Keys, done, todo, k);
        todo := todo - {k};
        done := done + {k};
      }
      SubsetCard(done, old(progress).Keys);
    }

    /** One iteration of `_poll_server_for_updates`, for the entry at `k`. */
    method PollEntry(ghost p0: map<string, Record>, ghost done: set<string>, k: string,
                     replies: map<string, ServerProgress>, now: int) returns (pulled: bool)
      requires Valid() && online
      requires k in p0 && k !in done
      requires PolledAll(p0, progress, done, replies, now)
      modifies this
      ensures Valid() && online
      ensures PolledAll(p0, progress, done + {k}, replies, now)
      ensures pulled == PollPulls(k, p0[k], replies)
      ensures old(knownItems) <= knownItems
      ensures forall x :: x in knownItems ==> x in old(knownItems) || x == p0[k].itemId
      ensures knownItems == if pulled then KnownAfter(old(knownItems), p0[k].itemId) else old(knownItems)
    {
      var local := progress[k];
      assert local == p0[k];
      pulled := false;
      if local.itemId != "" && k in replies {
        var a := PollChoice(local, replies[k]);
        if a.Pull? {
          SaveLocalProgress(local.itemId, local.episodeId, a.time, Max(local.duration, replies[k].duration),
                            a.finished, false, true, now);
          pulled := true;
        }
      }
    }
  }

  /** The item ids of a table. */
  function ItemIds(p: map<string, Record>): (ids: set<string>)
    ensures forall k :: k in p ==> p[k].itemId in ids
  {
    set k | k in p :: p[k].itemId
  }

  /** The item ids of the entries among `keys` that a poll pulls. */
  function PulledItemIds(p: map<string, Record>, keys: set<string>, replies: map<string, ServerProgress>): (ids: set<string>)
    ensures forall k :: k in p && k in keys && PollPulls(k, p[k], replies) ==> p[k].itemId in ids
    ensures ids <= ItemIds(p)
  {
    set k | k in p && k in keys && PollPulls(k, p[k], replies) :: p[k].itemId
  }

  /** The known items are the starting ones and those of the entries among
      `done` that a poll pulled. */
  ghost predicate KnownSoFar(known: seq<string>, known0: seq<string>, p0: map<string, Record>, done: set<string>,
                       replies: map<string, ServerProgress>)
  {
    forall x :: x in known <==> x in known0 || x in PulledItemIds(p0, done, replies)
  }

  /** One more polled entry keeps `KnownSoFar`. */
  lemma KnownStep(known0: seq<string>, known1: seq<string>, known2: seq<string>, p0: map<string, Record>,
                  done: set<string>, k: string, replies: map<string, ServerProgress>)
    requires k in p0
    requires KnownSoFar(known1, known0, p0, done, replies)
    requires known2 == if PollPulls(k, p0[k], replies) then KnownAfter(known1, p0[k].itemId) else known1
    ensures KnownSoFar(known2, known0, p0, done + {k}, replies)
  {
    PulledItemIdsStep(p0, done, k, replies);
  }

  /** Polling one more entry adds its item id exactly when it pulls. */
  lemma PulledItemIdsStep(p: map<string, Record>, keys: set<string>, k: string, replies: map<string, ServerProgress>)
    requires k in p
    ensures PulledItemIds(p, keys + {k}, replies) ==
            PulledItemIds(p, keys, replies) + (if PollPulls(k, p[k], replies) then {p[k].itemId} else {})
  {
  }

  /** `q` is `p` with exactly the entries in `keys` polled. */
  predicate PolledAll(p: map<string, Record>, q: map<string, Record>, keys: set<string>,
                      replies: map<string, ServerProgress>, now: int)
  {
    q.Keys == p.Keys && forall k :: k in p ==> q[k] == if k in keys then Polled(k, p[k], replies, now) else p[k]
  }

  lemma PendingAfterMarkAll(p: map<string, Record>, q: map<string, Record>, accepted: set<string>, now: int)
    requires MarkedAll(p, q, Pending(p).Keys * accepted, now)
    ensures Pending(q).Keys == Pending(p).Keys - accepted
  {
  }
}
