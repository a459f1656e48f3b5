/** The Suwayomi add-on's entry point (plugin.video.suwayomi/default.py):
    thumbnail addresses, chapter list labels, and the reading flow around
    the page viewer: which page reading starts from, which progress is
    reported back, and when a chapter is marked read. */
module SuwaReader {
  import opened Wrappers
  import opened Strings
  import SuwaUtils
  import SuwaActions

  // ---------------------------------------------------------------- thumbnails

  const ThumbnailPrefix := "/api/v1/manga/"
  const ThumbnailSuffix := "/thumbnail"

  /** `get_thumbnail_url`: a manga with an id always uses the server's
      thumbnail endpoint; without one, a server-relative thumbnail is put
      under the server address, an `http` one is used as it is, and
      anything else gives no address. */
  function ThumbnailUrl(serverUrl: string, mangaId: Option<int>, thumb: Option<string>): (r: string)
    ensures mangaId.Some? && mangaId.value != 0 ==>
              r == serverUrl + ThumbnailPrefix + IntToStr(mangaId.value) + ThumbnailSuffix
    ensures (mangaId.None? || mangaId.value == 0) ==>
              r == (if thumb.Some? && StartsWith(thumb.value, "/") then serverUrl + thumb.value
                    else if thumb.Some? && StartsWith(thumb.value, "http") then thumb.value
                    else "")
  {
    if mangaId.Some? && mangaId.value != 0 then serverUrl + ThumbnailPrefix + IntToStr(mangaId.value) + ThumbnailSuffix
    else if thumb.Some? && thumb.value != [] && StartsWith(thumb.value, "/") then serverUrl + thumb.value
    else if thumb.Some? && thumb.value != [] && StartsWith(thumb.value, "http") then thumb.value
    else ""
  }

  /** Every thumbnail address is on the server or an `http` address, or
      there is none. */
  lemma ThumbnailUrlShape(serverUrl: string, mangaId: Option<int>, thumb: Option<string>)
    ensures var r := ThumbnailUrl(serverUrl, mangaId, thumb);
            r == [] || StartsWith(r, serverUrl) || StartsWith(r, "http")
  {
    var r := ThumbnailUrl(serverUrl, mangaId, thumb);
    if mangaId.Some? && mangaId.value != 0 {
      assert r == serverUrl + (ThumbnailPrefix + IntToStr(mangaId.value) + ThumbnailSuffix);
      assert r[..|serverUrl|] == serverUrl;
    } else if thumb.Some? && StartsWith(thumb.value, "/") {
      assert r[..|serverUrl|] == serverUrl;
    }
  }

  /** Two mangas with different ids get different thumbnail addresses. */
  lemma ThumbnailUrlInjective(serverUrl: string, a: int, b: int, thumbA: Option<string>, thumbB: Option<string>)
    requires a != 0 && b != 0 && a != b
    ensures ThumbnailUrl(serverUrl, Some(a), thumbA) != ThumbnailUrl(serverUrl, Some(b), thumbB)
  {
    var ra := ThumbnailUrl(serverUrl, Some(a), thumbA);
    var rb := ThumbnailUrl(serverUrl, Some(b), thumbB);
    if ra == rb {
      var p := serverUrl + ThumbnailPrefix;
      assert ra == p + (IntToStr(a) + ThumbnailSuffix);
      assert rb == p + (IntToStr(b) + ThumbnailSuffix);
      assert ra[|p|..] == IntToStr(a) + ThumbnailSuffix;
      assert rb[|p|..] == IntToStr(b) + ThumbnailSuffix;
      var ta := IntToStr(a) + ThumbnailSuffix;
      var tb := IntToStr(b) + ThumbnailSuffix;
      assert ta[..|ta| - |ThumbnailSuffix|] == IntToStr(a);
      assert tb[..|tb| - |ThumbnailSuffix|] == IntToStr(b);
      IntToStrInjective(a, b);
    }
  }

  // ---------------------------------------------------------------- chapter labels

  /** The `[last/count]` reading progress shown on a chapter line. */
  predicate ProgressShown(ch: SuwaUtils.Chapter)
  {
    ch.pageCount > 0 && ch.lastPageRead > 0 && !ch.isRead
  }

  function ProgressTag(ch: SuwaUtils.Chapter): string
  {
    " [" + IntToStr(ch.lastPageRead) + "/" + IntToStr(ch.pageCount) + "]"
  }

  /** The formatted name followed by the download and bookmark marks. */
  function MarkedName(ch: SuwaUtils.Chapter): (r: string)
    ensures StartsWith(r, SuwaUtils.FormatChapterName(ch))
  {
    var name := SuwaUtils.FormatChapterName(ch);
    var marks := (if ch.isDownloaded then " [DL]" else "") + (if ch.isBookmarked then " [BM]" else "");
    assert (name + marks)[..|name|] == name;
    name + marks
  }

  /** The chapter line of `add_chapter_item`: the marked name, grey when
      read, and followed by the reading progress when the chapter is started
      but not read. */
  function ChapterLabel(ch: SuwaUtils.Chapter): (r: string)
    ensures !ch.isRead ==> StartsWith(r, MarkedName(ch))
    // an unread chapter's line is longer than its marked name exactly when progress is shown
    ensures !ch.isRead ==> (ProgressShown(ch) <==> |r| > |MarkedName(ch)|)
    ensures ch.isRead ==> |r| == |MarkedName(ch)| + 20
  {
    assert (MarkedName(ch) + ProgressTag(ch))[..|MarkedName(ch)|] == MarkedName(ch);
    if ch.isRead then "[COLOR gray]" + MarkedName(ch) + "[/COLOR]"
    else if ProgressShown(ch) then MarkedName(ch) + ProgressTag(ch)
    else MarkedName(ch)
  }

  /** A chapter line always shows the chapter's formatted name; a read
      chapter's line is grey, a started one ends with its progress, and any
      other line starts with the name. */
  lemma ChapterLabelShape(ch: SuwaUtils.Chapter)
    ensures Contains(ChapterLabel(ch), SuwaUtils.FormatChapterName(ch))
    ensures ch.isRead ==> StartsWith(ChapterLabel(ch), "[COLOR gray]") && EndsWith(ChapterLabel(ch), "[/COLOR]")
    ensures ProgressShown(ch) ==> EndsWith(ChapterLabel(ch), ProgressTag(ch))
    ensures !ch.isRead && !ProgressShown(ch) ==> StartsWith(ChapterLabel(ch), SuwaUtils.FormatChapterName(ch))
    // conversely, an unread chapter's line carries a tag after its marks only when progress is shown
    ensures !ch.isRead && !ProgressShown(ch) ==> ChapterLabel(ch) == MarkedName(ch)
  {
    DecoratedShape(SuwaUtils.FormatChapterName(ch), MarkedName(ch), ProgressTag(ch));
  }

  /** The three shapes of a chapter line, for any name and marked name. */
  lemma DecoratedShape(name: string, plain: string, tag: string)
    requires StartsWith(plain, name)
    ensures Contains(plain, name)
    ensures Contains("[COLOR gray]" + plain + "[/COLOR]", name)
    ensures StartsWith("[COLOR gray]" + plain + "[/COLOR]", "[COLOR gray]")
    ensures EndsWith("[COLOR gray]" + plain + "[/COLOR]", "[/COLOR]")
    ensures Contains(plain + tag, name) && EndsWith(plain + tag, tag)
  {
    ContainsPrefix(plain, name);
    ContainsPrepend("[COLOR gray]", plain, name);
    ContainsAppend("[COLOR gray]" + plain, "[/COLOR]", name);
    assert ("[COLOR gray]" + plain + "[/COLOR]")[..12] == "[COLOR gray]";
    ContainsAppend(plain, tag, name);
    assert (plain + tag)[|plain|..] == tag;
  }

  // ---------------------------------------------------------------- reading a chapter

  /** A resume point is offered for a started, unread chapter whose saved
      page is neither the first nor the last. */
  predicate ResumeOffered(lastPageRead: int, total: int, isRead: bool)
    ensures ResumeOffered(lastPageRead, total, isRead) ==> total >= 3 && !isRead
    ensures ResumeOffered(lastPageRead, total, isRead) ==> lastPageRead != 0 && lastPageRead != total - 1 && 0 <= lastPageRead < total
  {
    0 < lastPageRead < total - 1 && !isRead
  }

  /** The page reading starts from, in the chapter's own order. */
  function StartPage(lastPageRead: int, total: int, isRead: bool, resume: bool): (r: int)
    requires total >= 1
    ensures 0 <= r < total
    ensures r != 0 <==> ResumeOffered(lastPageRead, total, isRead) && resume
  {
    if ResumeOffered(lastPageRead, total, isRead) && resume then lastPageRead else 0
  }

  /** A page's position once the page list is reversed for right-to-left
      reading. */
  function Mirror(total: int, page: int): (r: int)
    ensures 0 <= page < total <==> 0 <= r < total
    ensures total - 1 - r == page
  {
    total - 1 - page
  }

  /** Reversal keeps positions within the chapter and undoes itself. */
  lemma MirrorInvolution(total: int, page: int)
    ensures Mirror(total, Mirror(total, page)) == page
    ensures 0 <= page < total <==> 0 <= Mirror(total, page) < total
  {
  }

  /** The index the viewer is opened at: the start page, reversed for
      right-to-left reading. `None` when the chapter has no pages. */
  function ViewerStart(lastPageRead: int, total: int, isRead: bool, resume: bool, rtl: bool): (r: Option<int>)
    ensures r.None? <==> total < 1
    ensures r.Some? ==> 0 <= r.value < total
    ensures r.Some? && !rtl ==> r.value == StartPage(lastPageRead, total, isRead, resume)
  {
    if total < 1 then None
    else
      var start := StartPage(lastPageRead, total, isRead, resume);
      MirrorInvolution(total, start);
      Some(if rtl then Mirror(total, start) else start)
  }

  /** Whether a reported page marks the chapter read, as written: the
      page's 0-based index against 80% of the page count. */
  predicate MarksReadAsWritten(page: int, total: int)
    ensures MarksReadAsWritten(page, total) <==> page as real >= total as real * 0.8
  {
    5 * page >= 4 * total
  }

  /** Whether a reported page marks the chapter read: the pages seen up to
      and including it against 80% of the page count. */
  predicate MarksRead(page: int, total: int)
    ensures MarksRead(page, total) <==> (page + 1) as real >= total as real * 0.8
  {
    5 * (page + 1) >= 4 * total
  }

  /** As written, reaching the last page of a chapter of four pages or
      fewer never marks it read; a one-page chapter can never be marked
      read. */
  lemma LastPageNotReadAsWritten(total: int)
    requires 1 <= total <= 4
    ensures !MarksReadAsWritten(total - 1, total)
    ensures forall page :: page < total ==> !MarksReadAsWritten(page, total)
  {
  }

  /** Reaching the last page always marks the chapter read, the first page
      never does in a chapter of two pages or more, and a later page marks
      it read whenever an earlier one does. */
  lemma MarksReadBounds(total: int, p: int, q: int)
    requires total >= 1
    ensures MarksRead(total - 1, total)
    ensures total >= 2 ==> !MarksRead(0, total)
    ensures p <= q && MarksRead(p, total) ==> MarksRead(q, total)
  {
  }

  /** The page reported to the server, as written: the viewer's index as
      it is, even when the page list was reversed. */
  function ReportedPageAsWritten(total: int, rtl: bool, viewerIndex: int): (r: int)
    ensures r == ReportedPage(total, false, viewerIndex)
    ensures rtl ==> Mirror(total, r) == ReportedPage(total, rtl, viewerIndex)
  {
    viewerIndex
  }

  /** The page reported to the server: the viewer's index taken back to the
      chapter's own order. */
  function ReportedPage(total: int, rtl: bool, viewerIndex: int): (r: int)
    ensures 0 <= viewerIndex < total ==> 0 <= r < total
  {
    MirrorInvolution(total, viewerIndex);
    if rtl then Mirror(total, viewerIndex) else viewerIndex
  }

  /** What reading a chapter sends back: the progress page, and whether the
      chapter is also marked read. */
  datatype ProgressUpdate = ProgressUpdate(page: int, markRead: bool)

  /** How downloading the chapter's pages ended: cancelled from the progress
      dialog, or finished with `count` pages fetched (a page whose request
      failed is skipped, so `count` can be below the page count). */
  datatype PageDownload = Cancelled | Fetched(count: nat)

  /** The page download lets the reader go on: it was not cancelled and
      fetched at least one page. */
  predicate DownloadUsable(download: PageDownload) {
    download.Fetched? && download.count > 0
  }

  /** The reading flow of `show_chapter_pages` as written, from the page
      count to the update sent back. A chapter without pages, a cancelled
      page download and a download that fetched no page all return before
      anything is sent. The viewer gives the index it was closed at, or
      `None` when it failed and the slideshow was used instead, in which
      case the viewer's start index is reported. That index is sent as it
      is, even when the pages were reversed, and marks the chapter read
      when it reaches 80% of the page count. */
  function ReadOutcome(lastPageRead: int, total: int, isRead: bool, resume: bool, rtl: bool,
                       download: PageDownload, viewerIndex: Option<int>): (r: Option<ProgressUpdate>)
    ensures r.None? <==> total < 1 || !DownloadUsable(download)
    ensures r.Some? && viewerIndex.None? ==>
              r.value.page == ViewerStart(lastPageRead, total, isRead, resume, rtl).value
    ensures r.Some? && viewerIndex.None? && !rtl ==>
              r.value.page == StartPage(lastPageRead, total, isRead, resume)
    ensures r.Some? && viewerIndex.Some? ==> r.value.page == viewerIndex.value
    ensures r.Some? ==> r.value.markRead == MarksReadAsWritten(r.value.page, total)
  {
    match ViewerStart(lastPageRead, total, isRead, resume, rtl)
    case None => None
    case Some(start) =>
      if !DownloadUsable(download) then None else
      var index := if viewerIndex.Some? then viewerIndex.value else start;
      var page := ReportedPageAsWritten(total, rtl, index);
      Some(ProgressUpdate(page, MarksReadAsWritten(page, total)))
  }

  /** The intended reading flow: the viewer's index taken back to the
      chapter's own order, and the chapter marked read by the pages seen. */
  function IntendedReadOutcome(lastPageRead: int, total: int, isRead: bool, resume: bool, rtl: bool,
                               download: PageDownload, viewerIndex: Option<int>): (r: Option<ProgressUpdate>)
    ensures r.None? <==> total < 1 || !DownloadUsable(download)
    ensures r.Some? && viewerIndex.None? ==>
              r.value.page == StartPage(lastPageRead, total, isRead, resume)
    ensures r.Some? ==> r.value.markRead == MarksRead(r.value.page, total)
  {
    match ViewerStart(lastPageRead, total, isRead, resume, rtl)
    case None => None
    case Some(start) =>
      if !DownloadUsable(download) then None else
      var index := if viewerIndex.Some? then viewerIndex.value else start;
      var page := ReportedPage(total, rtl, index);
      MirrorInvolution(total, StartPage(lastPageRead, total, isRead, resume));
      Some(ProgressUpdate(page, MarksRead(page, total)))
  }

  /** Left to right, the flow as written reports the intended page and
      marks a chapter read only when the intended flow does; it differs
      only by missing the pages just below the 80% mark. */
  lemma ReadOutcomeUnderMarks(lastPageRead: int, total: int, isRead: bool, resume: bool,
                              download: PageDownload, viewerIndex: Option<int>)
    ensures var w := ReadOutcome(lastPageRead, total, isRead, resume, false, download, viewerIndex);
            var c := IntendedReadOutcome(lastPageRead, total, isRead, resume, false, download, viewerIndex);
            w.Some? == c.Some? &&
            (w.Some? ==> w.value.page == c.value.page && (w.value.markRead ==> c.value.markRead) &&
                         (c.value.markRead && !w.value.markRead <==> 4 * total - 5 <= 5 * w.value.page < 4 * total))
  {
  }

  /** Closing the viewer at once reports the page reading started from, in
      either reading direction. */
  lemma CloseAtOnceReportsStart(lastPageRead: int, total: int, isRead: bool, resume: bool, rtl: bool)
    requires total >= 1
    ensures var start := ViewerStart(lastPageRead, total, isRead, resume, rtl).value;
            ReportedPage(total, rtl, start) == StartPage(lastPageRead, total, isRead, resume)
  {
    MirrorInvolution(total, StartPage(lastPageRead, total, isRead, resume));
  }

  /** As written, opening a fresh ten-page chapter right to left and closing
      the viewer at once reports its last page and marks it read. */
  lemma RtlCloseAtOnceMarksReadAsWritten()
    ensures var start := ViewerStart(0, 10, false, false, true).value;
            ReportedPageAsWritten(10, true, start) == 9 &&
            MarksReadAsWritten(ReportedPageAsWritten(10, true, start), 10)
  {
  }

  /** `download_all_chapters`: the chapters queued are exactly those not
      yet downloaded, and nothing is queued when every chapter is. */
  lemma DownloadAllSelection(chapters: seq<SuwaUtils.Chapter>, x: int)
    ensures x in SuwaActions.NotDownloadedIds(chapters) <==>
            exists k :: 0 <= k < |chapters| && chapters[k].id == x && !chapters[k].isDownloaded
    ensures (forall k :: 0 <= k < |chapters| ==> chapters[k].isDownloaded) ==> SuwaActions.NotDownloadedIds(chapters) == []
  {
    SuwaActions.NotDownloadedIdsExact(chapters, x);
    if forall k :: 0 <= k < |chapters| ==> chapters[k].isDownloaded {
      var ids := SuwaActions.NotDownloadedIds(chapters);
      if ids != [] {
        SuwaActions.NotDownloadedIdsExact(chapters, ids[0]);
      }
    }
  }
}
