/** Context-menu actions of the Suwayomi add-on
    (plugin.video.suwayomi/resources/lib/actions.py, whose hidden-source
    actions plugin.video.suwayomi/default.py repeats word for word): hiding
    and unhiding catalogue sources through the `hidden_sources` setting, and
    the bulk chapter actions. The server calls an action makes are returned
    as the list of chapter ids they name. */
module SuwaActions {
  import opened Wrappers
  import opened Strings
  import SuwaUtils
  import SuwaHelpers

  // ---------------------------------------------------------------- hiding a source

  /** The stored setting after `hide_source(name)`: an empty name, or one
      already hidden under any capitalisation, changes nothing; otherwise
      the name is appended and the list stored joined by `", "`. */
  function AfterHide(text: string, name: string): (r: string)
    ensures name == [] ==> r == text
    ensures Lower(name) in SuwaHelpers.LowerAll(SplitList(text, ',')) ==> r == text
  {
    var list := SplitList(text, ',');
    if name == [] || Lower(name) in SuwaHelpers.LowerAll(list) then text
    else Join(list + [name], ", ")
  }

  /** Hiding a new name that is a plain list item adds exactly that name at
      the end of the stored list. */
  lemma HideReadBack(text: string, name: string)
    requires ListItem(name) && Lower(name) !in SuwaHelpers.LowerAll(SplitList(text, ','))
    ensures SplitList(AfterHide(text, name), ',') == SplitList(text, ',') + [name]
  {
    var list := SplitList(text, ',');
    var xs := list + [name];
    SplitListItems(text);
    ItemsAppend(list, name);
    SplitListJoin(xs);
  }

  lemma ItemsAppend(list: seq<string>, name: string)
    requires forall k :: 0 <= k < |list| ==> ListItem(list[k])
    requires ListItem(name)
    ensures forall k :: 0 <= k < |list + [name]| ==> ListItem((list + [name])[k])
  {
    forall k | 0 <= k < |list + [name]|
      ensures ListItem((list + [name])[k])
    {
      if k < |list| {
        assert (list + [name])[k] == list[k];
      }
    }
  }

  /** Whichever way `hide_source` went, the name is hidden afterwards. */
  lemma HiddenAfterHide(text: string, name: string)
    requires ListItem(name)
    ensures Lower(name) in SuwaHelpers.HiddenSources(AfterHide(text, name))
  {
    var list := SplitList(text, ',');
    var after := AfterHide(text, name);
    if Lower(name) in SuwaHelpers.LowerAll(list) {
      assert after == text;
    } else {
      HideReadBack(text, name);
      LowerAllLast(list, name);
    }
  }

  lemma LowerAllLast(xs: seq<string>, x: string)
    ensures Lower(x) in SuwaHelpers.LowerAll(xs + [x])
  {
    assert SuwaHelpers.LowerAll(xs + [x])[|xs|] == Lower(x);
  }

  /** Hiding the same name twice is hiding it once. */
  lemma {:induction false} HideIdempotent(text: string, name: string)
    requires ListItem(name)
    ensures AfterHide(AfterHide(text, name), name) == AfterHide(text, name)
  {
    HiddenAfterHide(text, name);
  }

  /** Once a source's name has been hidden, the source is not visible,
      whatever the language filter. */
  lemma HiddenSourceInvisible(text: string, name: string, source: SuwaHelpers.Source, langFilter: Wrappers.Option<seq<string>>)
    requires ListItem(name) && SuwaHelpers.SourceName(source) == Lower(name)
    ensures !SuwaHelpers.Visible(source, langFilter, SuwaHelpers.HiddenSources(AfterHide(text, name)))
  {
    var hidden := SuwaHelpers.HiddenSources(AfterHide(text, name));
    HiddenAfterHide(text, name);
    var i :| 0 <= i < |hidden| && hidden[i] == Lower(name);
    ContainsSelf(Lower(name));
  }

  // ---------------------------------------------------------------- managing hidden sources

  /** `list.pop(i)`: the list without its `i`-th element. */
  function RemoveAt(xs: seq<string>, i: int): (r: seq<string>)
    requires 0 <= i < |xs|
    ensures |r| == |xs| - 1
    ensures forall j :: 0 <= j < i ==> r[j] == xs[j]
    ensures forall j :: i <= j < |r| ==> r[j] == xs[j + 1]
    ensures multiset(r) + multiset{xs[i]} == multiset(xs)
  {
    assert xs == xs[..i] + [xs[i]] + xs[i + 1..];
    xs[..i] + xs[i + 1..]
  }

  /** One answer of the manage dialog: the selected line (-1 for cancel)
      and the answer to the confirmation asked after `[Clear All]`. */
  datatype Reply = Reply(selected: int, confirmed: bool)

  /** The list left by the manage dialog, and whether the setting was
      written. The options are the hidden names, then `[Clear All]`, then
      `[Done]`. Picking a name removes it and stores the rest; a confirmed
      `[Clear All]` stores the empty list; cancel, `[Done]`, an emptied
      list, or the end of the answers closes the dialog. */
  function ManageOutcome(list: seq<string>, replies: seq<Reply>): (r: (seq<string>, bool))
    ensures forall x :: x in r.0 ==> x in list
    ensures !r.1 ==> r.0 == list
    decreases |replies|
  {
    if replies == [] then (list, false)
    else
      var sel := replies[0].selected;
      var n := |list| + 2;
      if sel == -1 || sel == n - 1 then (list, false)
      else if sel == n - 2 then
        if replies[0].confirmed then ([], true) else ManageOutcome(list, replies[1..])
      else if 0 <= sel < |list| then
        var rest := RemoveAt(list, sel);
        assert forall x :: x in rest ==> x in multiset(list);
        if rest == [] then (rest, true) else (ManageOutcome(rest, replies[1..]).0, true)
      else (list, false)
  }

  /** Picking a hidden name removes exactly that name, and the list kept
      by the dialog reads back from the setting it stores. */
  lemma ManageReadBack(list: seq<string>, replies: seq<Reply>)
    requires forall k :: 0 <= k < |list| ==> ListItem(list[k])
    ensures var f := ManageOutcome(list, replies).0;
            SplitList(Join(f, ", "), ',') == f
  {
    var f := ManageOutcome(list, replies).0;
    assert forall k :: 0 <= k < |f| ==> f[k] in list;
    SplitListJoin(f);
  }

  /** The `hidden_sources` add-on setting. */
  class HiddenSourcesSetting {
    var text: string

    constructor (text: string)
      ensures this.text == text
    {
      this.text := text;
    }

    /** `hide_source`. */
    method HideSource(name: string)
      modifies this
      ensures text == AfterHide(old(text), name)
    {
      if name == [] {
        return;
      }
      var list := SplitList(text, ',');
      if Lower(name) !in SuwaHelpers.LowerAll(list) {
        text := Join(list + [name], ", ");
      }
    }

    /** `manage_hidden_sources`: nothing happens when no source is hidden;
        otherwise the dialog is shown until it is closed, and every removal
        stores the remaining list at once. */
    method ManageHiddenSources(replies: seq<Reply>)
      modifies this
      ensures var list := SplitList(old(text), ',');
              var outcome := ManageOutcome(list, replies);
              text == if list != [] && outcome.1 then Join(outcome.0, ", ") else old(text)
    {
      var hiddenList := SplitList(text, ',');
      if hiddenList == [] {
        return;
      }
      ghost var goal := ManageOutcome(hiddenList, replies);
      var written := false;
      var rest := replies;
      while rest != []
        invariant hiddenList != []
        invariant ManageOutcome(hiddenList, rest).0 == goal.0
        invariant goal.1 == (written || ManageOutcome(hiddenList, rest).1)
        invariant text == if written then Join(hiddenList, ", ") else old(text)
      {
        var next, done, wrote := DialogStep(hiddenList, rest[0]);
        ManageStep(hiddenList, rest, next, done, wrote);
        hiddenList := next;
        if wrote {
          text := Join(hiddenList, ", ");
          written := true;
        }
        if done {
          break;
        }
        rest := rest[1..];
      }
    }
  }

  /** One answer of the manage dialog: the list left, whether the dialog
      closes, and whether the setting is written. */
  method DialogStep(list: seq<string>, reply: Reply) returns (next: seq<string>, done: bool, wrote: bool)
    requires list != []
    ensures !wrote ==> next == list
    ensures !done ==> next != []
    ensures var n := |list| + 2;
      if reply.selected == -1 || reply.selected == n - 1 then done && !wrote
      else if reply.selected == n - 2 then
        if reply.confirmed then done && wrote && next == [] else !done && !wrote
      else if 0 <= reply.selected < |list| then wrote && next == RemoveAt(list, reply.selected) && done == (next == [])
      else done && !wrote
  {
    var sel := reply.selected;
    var n := |list| + 2;
    next, done, wrote := list, true, false;
    if sel == -1 || sel == n - 1 {
    } else if sel == n - 2 {
      if reply.confirmed {
        next, wrote := [], true;
      } else {
        done := false;
      }
    } else if 0 <= sel < |list| {
      next, wrote := RemoveAt(list, sel), true;
      done := next == [];
    }
  }

  /** The dialog's step agrees with `ManageOutcome`: a closing step ends
      the dialog with its own list, and otherwise the dialog goes on from
      the step's list. */
  lemma ManageStep(list: seq<string>, replies: seq<Reply>, next: seq<string>, done: bool, wrote: bool)
    requires list != [] && replies != []
    requires !wrote ==> next == list
    requires !done ==> next != []
    requires var n := |list| + 2; var reply := replies[0];
      if reply.selected == -1 || reply.selected == n - 1 then done && !wrote
      else if reply.selected == n - 2 then
        if reply.confirmed then done && wrote && next == [] else !done && !wrote
      else if 0 <= reply.selected < |list| then wrote && next == RemoveAt(list, reply.selected) && done == (next == [])
      else done && !wrote
    ensures done ==> ManageOutcome(list, replies) == (next, wrote)
    ensures !done ==> ManageOutcome(list, replies).0 == ManageOutcome(next, replies[1..]).0
    ensures !done ==> ManageOutcome(list, replies).1 == (wrote || ManageOutcome(next, replies[1..]).1)
  {
  }

  // ---------------------------------------------------------------- bulk chapter actions

  /** The ids of the chapters not yet read, in list order. */
  function UnreadIds(chapters: seq<SuwaUtils.Chapter>): (ids: seq<int>)
    ensures |ids| <= |chapters|
  {
    if chapters == [] then []
    else (if chapters[0].isRead then [] else [chapters[0].id]) + UnreadIds(chapters[1..])
  }

  /** The ids of the chapters not yet downloaded, in list order. */
  function NotDownloadedIds(chapters: seq<SuwaUtils.Chapter>): (ids: seq<int>)
    ensures |ids| <= |chapters|
  {
    if chapters == [] then []
    else (if chapters[0].isDownloaded then [] else [chapters[0].id]) + NotDownloadedIds(chapters[1..])
  }

  /** An id is selected exactly when some chapter with that id is unread. */
  lemma {:induction false} UnreadIdsExact(chapters: seq<SuwaUtils.Chapter>, x: int)
    ensures x in UnreadIds(chapters) <==> exists k :: 0 <= k < |chapters| && chapters[k].id == x && !chapters[k].isRead
  {
    if chapters != [] {
      UnreadIdsExact(chapters[1..], x);
      if x in UnreadIds(chapters[1..]) {
        var k :| 0 <= k < |chapters[1..]| && chapters[1..][k].id == x && !chapters[1..][k].isRead;
        assert chapters[k + 1].id == x;
      }
      if exists k :: 0 <= k < |chapters| && chapters[k].id == x && !chapters[k].isRead {
        var k :| 0 <= k < |chapters| && chapters[k].id == x && !chapters[k].isRead;
        if k > 0 {
          assert chapters[1..][k - 1] == chapters[k];
        }
      }
    }
  }

  /** An id is selected exactly when some chapter with that id is not
      downloaded. */
  lemma {:induction false} NotDownloadedIdsExact(chapters: seq<SuwaUtils.Chapter>, x: int)
    ensures x in NotDownloadedIds(chapters) <==>
            exists k :: 0 <= k < |chapters| && chapters[k].id == x && !chapters[k].isDownloaded
  {
    if chapters != [] {
      NotDownloadedIdsExact(chapters[1..], x);
      if x in NotDownloadedIds(chapters[1..]) {
        var k :| 0 <= k < |chapters[1..]| && chapters[1..][k].id == x && !chapters[1..][k].isDownloaded;
        assert chapters[k + 1].id == x;
      }
      if exists k :: 0 <= k < |chapters| && chapters[k].id == x && !chapters[k].isDownloaded {
        var k :| 0 <= k < |chapters| && chapters[k].id == x && !chapters[k].isDownloaded;
        if k > 0 {
          assert chapters[1..][k - 1] == chapters[k];
        }
      }
    }
  }

  /** `mark_all_chapters_read`: after confirmation, one read update per
      unread chapter, in order, until the progress dialog is cancelled
      before chapter `canceledAt`. */
  method MarkAllChaptersRead(chapters: seq<SuwaUtils.Chapter>, confirmed: bool, canceledAt: nat) returns (updates: seq<int>)
    ensures !confirmed ==> updates == []
    ensures confirmed ==> updates == UnreadIds(chapters[..if canceledAt < |chapters| then canceledAt else |chapters|])
  {
    updates := [];
    if !confirmed {
      return;
    }
    var i := 0;
    while i < |chapters|
      invariant 0 <= i <= |chapters|
      invariant i <= canceledAt
      invariant updates == UnreadIds(chapters[..i])
    {
      if i == canceledAt {
        break;
      }
      UnreadIdsAppend(chapters[..i], chapters[i]);
      assert chapters[..i + 1] == chapters[..i] + [chapters[i]];
      if !chapters[i].isRead {
        updates := updates + [chapters[i].id];
      }
      i := i + 1;
    }
  }

  lemma {:induction false} UnreadIdsAppend(chapters: seq<SuwaUtils.Chapter>, c: SuwaUtils.Chapter)
    ensures UnreadIds(chapters + [c]) == UnreadIds(chapters) + (if c.isRead then [] else [c.id])
  {
    if chapters != [] {
      assert (chapters + [c])[1..] == chapters[1..] + [c];
      UnreadIdsAppend(chapters[1..], c);
    }
  }

  lemma {:induction false} NotDownloadedIdsAppend(chapters: seq<SuwaUtils.Chapter>, c: SuwaUtils.Chapter)
    ensures NotDownloadedIds(chapters + [c]) == NotDownloadedIds(chapters) + (if c.isDownloaded then [] else [c.id])
  {
    if chapters != [] {
      assert (chapters + [c])[1..] == chapters[1..] + [c];
      NotDownloadedIdsAppend(chapters[1..], c);
    }
  }

  /** The count `download_all_chapters` announces, as written: every
      chapter of the manga. */
  function DownloadNoticeCountAsWritten(chapters: seq<SuwaUtils.Chapter>): nat
  {
    |chapters|
  }

  /** The count the notice is meant to give: the chapters actually sent to
      the download queue. */
  function DownloadNoticeCount(chapters: seq<SuwaUtils.Chapter>): (n: nat)
    ensures n <= |chapters|
  {
    |NotDownloadedIds(chapters)|
  }

  /** As written, the notice overstates the downloads whenever some chapter
      is already downloaded: for a manga whose one chapter is downloaded it
      announces one download while none is started. */
  lemma DownloadNoticeOvercounts(chapters: seq<SuwaUtils.Chapter>, k: int)
    requires 0 <= k < |chapters| && chapters[k].isDownloaded
    ensures DownloadNoticeCountAsWritten(chapters) > DownloadNoticeCount(chapters)
  {
    NotDownloadedIdsFewer(chapters, k);
  }

  lemma {:induction false} NotDownloadedIdsFewer(chapters: seq<SuwaUtils.Chapter>, k: int)
    requires 0 <= k < |chapters| && chapters[k].isDownloaded
    ensures |NotDownloadedIds(chapters)| < |chapters|
  {
    if k > 0 {
      NotDownloadedIdsFewer(chapters[1..], k - 1);
    }
  }

  lemma {:induction false} NotDownloadedIdsAll(chapters: seq<SuwaUtils.Chapter>)
    requires forall k :: 0 <= k < |chapters| ==> !chapters[k].isDownloaded
    ensures |NotDownloadedIds(chapters)| == |chapters|
  {
    if chapters != [] {
      NotDownloadedIdsAll(chapters[1..]);
    }
  }

  /** `download_all_chapters`: after confirmation, one download request
      per chapter not yet downloaded, in order, and a notice announcing
      every chapter of the manga, which matches the requests only when none
      was downloaded before. No notice is shown without confirmation. */
  method DownloadAllChapters(chapters: seq<SuwaUtils.Chapter>, confirmed: bool) returns (requests: seq<int>, notice: Option<nat>)
    ensures !confirmed ==> requests == [] && notice.None?
    ensures confirmed ==> requests == NotDownloadedIds(chapters) && notice == Some(DownloadNoticeCountAsWritten(chapters))
    ensures confirmed ==>
              (notice.value == |requests| <==> forall k :: 0 <= k < |chapters| ==> !chapters[k].isDownloaded)
  {
    requests := [];
    notice := None;
    if !confirmed {
      return;
    }
    for i := 0 to |chapters|
      invariant requests == NotDownloadedIds(chapters[..i])
    {
      NotDownloadedIdsAppend(chapters[..i], chapters[i]);
      assert chapters[..i + 1] == chapters[..i] + [chapters[i]];
      if !chapters[i].isDownloaded {
        requests := requests + [chapters[i].id];
      }
    }
    assert chapters[..|chapters|] == chapters;
    notice := Some(|chapters|);
    if forall k :: 0 <= k < |chapters| ==> !chapters[k].isDownloaded {
      NotDownloadedIdsAll(chapters);
    } else {
      var k :| 0 <= k < |chapters| && chapters[k].isDownloaded;
      DownloadNoticeOvercounts(chapters, k);
    }
  }
}
