/** The Suwayomi add-on's fullscreen manga viewer
    (plugin.video.suwayomi/resources/lib/webtoon_viewer.py): a page index
    with single-page, two-page and webtoon (vertical scroll) modes, and the
    zoom, background and padding cycles.

    Drawing is left out: a loaded page is only the index the viewer settles
    on. The window's size, the screen-size info labels and the webtoon image
    height that the layout code computes from the zoom mode and padding are
    parameters (`layout`). */
module Webtoon {
  import opened Wrappers

  // ------------------------------------------------------------ constants

  /** Kodi action ids the viewer handles. */
  const ActionPreviousMenu := 10
  const ActionNavBack := 92
  const ActionStop := 13
  const ActionMoveUp := 3
  const ActionMoveDown := 4
  const ActionMoveLeft := 1
  const ActionMoveRight := 2
  const ActionPageUp := 5
  const ActionPageDown := 6
  const ActionSelectItem := 7
  const ActionMouseWheelUp := 104
  const ActionMouseWheelDown := 105
  const ActionContextMenu := 117
  const ActionShowInfo := 11
  const ActionShowGui := 18
  const ActionShowOsd := 19

  /** The number of zoom modes (fit width, fit height, fit screen, original). */
  const ZoomModes := 4
  /** The number of background colours. */
  const BgColors := 6
  /** The padding percentages the padding key cycles through. */
  const Paddings: seq<int> := [0, 5, 10, 15, 20, 25]

  function Min(a: int, b: int): int { if a <= b then a else b }
  function Max(a: int, b: int): int { if a >= b then a else b }

  // ------------------------------------------------------------ geometry

  /** `int(a / b)` for a positive `b`: the quotient truncated toward zero. */
  function TruncDiv(a: int, b: int): (r: int)
    requires b > 0
    ensures a >= 0 ==> r >= 0 && r * b <= a < (r + 1) * b
    ensures a < 0 ==> r <= 0 && (r - 1) * b < a <= r * b
  {
    if a >= 0 then
      DivBounds(a, b);
      a / b
    else
      DivBounds(-a, b);
      MulNegate(a, b);
      -((-a) / b)
  }

  /** The quotient of a natural number brackets it between two multiples. */
  lemma DivBounds(a: int, b: int)
    requires a >= 0 && b > 0
    ensures a / b >= 0
    ensures (a / b) * b <= a < (a / b + 1) * b
  {
    var q, m := a / b, a % b;
    assert a == q * b + m && 0 <= m < b;
    assert (q + 1) * b == q * b + b;
  }

  /** Negating a quotient negates its multiples. */
  lemma MulNegate(a: int, b: int)
    requires a < 0 && b > 0
    ensures var q := (-a) / b; (-q) * b == -(q * b) && (-q - 1) * b == -((q + 1) * b)
  {
  }

  /** `_update_screen_size`: the window's size, else the system's screen
      labels (`screenLabel` is None when reading them raises), and 1920 x 1080 for
      anything still not positive. */
  function ScreenSize(windowW: int, windowH: int, screenLabel: Option<(int, int)>): (r: (int, int))
    ensures r.0 > 0 && r.1 > 0
    ensures windowW > 0 && windowH > 0 ==> r == (windowW, windowH)
    ensures (windowW <= 0 || windowH <= 0) && screenLabel.None? ==> r == (1920, 1080)
  {
    var (w, h) := if windowW > 0 && windowH > 0 then (windowW, windowH)
                  else if screenLabel.Some? then screenLabel.value
                  else (1920, 1080);
    (if w <= 0 then 1920 else w, if h <= 0 then 1080 else h)
  }

  /** `_calculate_content_area`: the horizontal padding `pad` is
      `int(width * padding / 200)`; the content starts at `pad` and is
      `width - 2 * pad` wide, so it stays centred. */
  function ContentArea(width: int, padding: int): (r: (int, int))
    ensures r.0 + r.1 + r.0 == width
    ensures padding == 0 ==> r == (0, width)
    ensures width >= 0 && 0 <= padding <= 100 ==> 0 <= r.0 && 0 <= r.1 <= width
    ensures width >= 0 && 0 <= padding ==> r.0 * 200 <= width * padding < (r.0 + 1) * 200
  {
    var pad := TruncDiv(width * padding, 200);
    (pad, width - 2 * pad)
  }

  /** With one of the padding steps the content keeps at least half the width. */
  lemma PaddingKeepsHalf(width: int, padding: int)
    requires width >= 0 && padding in Paddings
    ensures 2 * ContentArea(width, padding).1 >= width
  {
    var pad := ContentArea(width, padding).0;
    assert pad * 200 <= width * padding <= width * 25;
  }

  // ------------------------------------------------------------ two-page pairing

  /** `_get_two_page_indices`: in `single_first` mode page 0 stands alone and
      the other pairs start at an odd page; in `paired_first` mode pairs start
      at an even page. The right page exists when it is in range. */
  function TwoPageIndices(current: int, total: int, singleFirst: bool): (r: (int, Option<int>))
    ensures singleFirst && current == 0 ==> r == (0, None)
    ensures singleFirst && current > 0 ==>
              r.0 >= 1 && r.0 % 2 == 1 && (r.0 == current || r.0 == current - 1)
    ensures !singleFirst ==> r.0 % 2 == 0 && r.0 <= current < r.0 + 2
    ensures !(singleFirst && current == 0) ==> r.1 == if r.0 + 1 < total then Some(r.0 + 1) else None
  {
    if singleFirst then
      if current == 0 then (0, None)
      else
        var left := if current % 2 == 1 then current else Max(1, current - 1);
        (left, if left + 1 < total then Some(left + 1) else None)
    else
      var left := (current / 2) * 2;
      (left, if left + 1 < total then Some(left + 1) else None)
  }

  /** The index after `_load_current_page`: in two-page mode the index moves
      to the left page of its pair whenever that page exists. */
  function LoadedIndex(current: int, total: int, twoPage: bool, singleFirst: bool): (r: int)
    ensures 0 <= current < total ==> 0 <= r < total
    ensures !twoPage ==> r == current
    ensures twoPage && 0 <= current < total ==> r == TwoPageIndices(current, total, singleFirst).0
  {
    if twoPage then
      var left := TwoPageIndices(current, total, singleFirst).0;
      if 0 <= left < total then left else current
    else current
  }

  // ------------------------------------------------------------ page turning

  /** `_go_next_page` as written: in `single_first` two-page mode the first
      page always jumps to index 1, even when the chapter has one page. */
  function NextIndexAsWritten(current: int, total: int, twoPage: bool, singleFirst: bool): (r: int)
    ensures 0 <= current < total ==> current <= r
    ensures 0 <= current < total ==> (r < total <==> !(twoPage && singleFirst && current == 0 && total == 1))
  {
    if twoPage then
      if singleFirst && current == 0 then 1 else Min(current + 2, total - 1)
    else if current < total - 1 then current + 1 else current
  }

  /** A one-page chapter in `single_first` two-page mode: turning the page
      leaves the viewer on index 1, past the last page, and loading keeps it
      there since no pair starts at a page that exists. */
  lemma NextPageOverrunsSinglePage()
    ensures NextIndexAsWritten(0, 1, true, true) == 1
    ensures LoadedIndex(NextIndexAsWritten(0, 1, true, true), 1, true, true) == 1
  {
  }

  /** `_go_next_page` with the jump from the first page bounded by the last
      page: the index never leaves the chapter and never moves back. */
  function NextIndex(current: int, total: int, twoPage: bool, singleFirst: bool): (r: int)
    ensures 0 <= current < total ==> current <= r < total
    ensures total > 1 ==> r == NextIndexAsWritten(current, total, twoPage, singleFirst)
    ensures !twoPage && 0 <= current < total - 1 ==> r == current + 1
    ensures twoPage && !(singleFirst && current == 0) ==> r == Min(current + 2, total - 1)
  {
    if twoPage then
      if singleFirst && current == 0 then Min(1, total - 1) else Min(current + 2, total - 1)
    else if current < total - 1 then current + 1 else current
  }

  /** `_go_prev_page`: in two-page mode the index steps back two (to 0 from
      the first pair in `single_first` mode) and never goes below 0;
      otherwise it steps back one from any page after the first. */
  function PrevIndex(current: int, twoPage: bool, singleFirst: bool): (r: int)
    ensures twoPage ==> r >= 0
    ensures current >= 0 ==> 0 <= r <= current
    ensures !twoPage && current > 0 ==> r == current - 1
    ensures twoPage && current >= 2 && !(singleFirst && current == 2) ==> r == current - 2
  {
    if twoPage then
      if singleFirst && current <= 2 then 0 else Max(current - 2, 0)
    else if current > 0 then current - 1 else current
  }

  // ------------------------------------------------------------ cycles

  /** The position of `x` in `s`. */
  function IndexOf(s: seq<int>, x: int): (r: nat)
    requires x in s
    ensures r < |s| && s[r] == x
    ensures forall j :: 0 <= j < r ==> s[j] != x
  {
    if s[0] == x then 0 else 1 + IndexOf(s[1..], x)
  }

  /** `_cycle_padding`: the next padding step, and back to 0 from the last or
      from any value that is not a step. */
  function NextPadding(padding: int): (r: int)
    ensures r in Paddings
    ensures padding !in Paddings ==> r == 0
  {
    if padding in Paddings then Paddings[(IndexOf(Paddings, padding) + 1) % |Paddings|] else 0
  }

  /** The padding steps form one cycle of six. */
  lemma NextPaddingStep(i: nat)
    requires i < |Paddings|
    ensures NextPadding(Paddings[i]) == Paddings[(i + 1) % |Paddings|]
  {
    var j := IndexOf(Paddings, Paddings[i]);
    assert j == i;
  }

  /** `(x + 1) % n`, the zoom and background cycles. */
  function Cycle(x: int, n: int): (r: int)
    requires n > 0
    ensures 0 <= r < n
    ensures 0 <= x < n - 1 ==> r == x + 1
    ensures x == n - 1 ==> r == 0
  {
    (x + 1) % n
  }

  // ------------------------------------------------------------ the viewer

  /** The zoom mode and background index are indices `ZOOM_NAMES` and
      `BG_COLORS` accept (so also -4..-1 and -6..-1); any other value makes
      building the window raise IndexError. */
  predicate ValidIndices(zoomMode: int, bgColorIndex: int)
  {
    -ZoomModes <= zoomMode < ZoomModes && -BgColors <= bgColorIndex < BgColors
  }

  /** A one-page chapter in `single_first` two-page mode, the one case in
      which turning the page leaves the chapter. */
  predicate Overruns(total: int, twoPage: bool, singleFirst: bool)
  {
    twoPage && singleFirst && total == 1
  }

  /** Where the viewer's index can be: a page of the chapter, or index 1 of
      an overrun one-page chapter. */
  predicate InView(i: int, total: int, twoPage: bool, singleFirst: bool)
  {
    0 <= i < total || (Overruns(total, twoPage, singleFirst) && i == 1)
  }

  /** Turning the page as written and loading keeps the index in view, and
      inside the chapter unless the chapter overruns. */
  lemma NextKeepsInView(i: int, total: int, twoPage: bool, singleFirst: bool)
    requires InView(i, total, twoPage, singleFirst)
    ensures var j := LoadedIndex(NextIndexAsWritten(i, total, twoPage, singleFirst), total, twoPage, singleFirst);
            InView(j, total, twoPage, singleFirst) &&
            (!Overruns(total, twoPage, singleFirst) ==> 0 <= j < total)
  {
    if Overruns(total, twoPage, singleFirst) && i == 0 {
      NextPageOverrunsSinglePage();
    }
  }

  class FullscreenViewer {
    const pages: seq<string>
    const isWebtoon: bool
    /** Two-page mode, forced off for webtoons. */
    const twoPageMode: bool
    /** `two_page_start == 'single_first'`. */
    const singleFirst: bool
    const screenWidth: int
    const screenHeight: int
    /** `int(screen_height * 0.15)` and `int(screen_height * 0.5)`. */
    const scrollStep: int
    const fastScroll: int
    /** The webtoon image height for a zoom mode and a padding. */
    const layout: (int, int) -> int

    var currentIndex: int
    var zoomMode: int
    var paddingPercent: int
    var bgColorIndex: int
    var scrollY: int
    var contentX: int
    var contentW: int
    var webtoonH: int

    /** Zoom and background indices are valid Python list indices (so also
        -4..-1 and -6..-1), the content area and image height follow the
        current padding and zoom, and the scroll offset is not negative. */
    ghost predicate Valid()
      reads this
    {
      screenWidth > 0 && screenHeight > 0 &&
      (twoPageMode ==> !isWebtoon) &&
      ValidIndices(zoomMode, bgColorIndex) &&
      (contentX, contentW) == ContentArea(screenWidth, paddingPercent) &&
      webtoonH == layout(zoomMode, paddingPercent) &&
      scrollY >= 0
    }

    /** The largest scroll offset: the image height beyond the screen. */
    function MaxScroll(): (r: int)
      reads this
      ensures r >= 0 && r >= webtoonH - screenHeight
    {
      Max(0, webtoonH - screenHeight)
    }

    /** `__init__` followed by the first `_load_current_page`. */
    constructor (pages: seq<string>, startIndex: int, zoomMode: int, paddingPercent: int, isWebtoon: bool,
                 twoPageMode: bool, twoPageStart: string, bgColorIndex: int,
                 windowW: int, windowH: int, screenLabel: Option<(int, int)>, layout: (int, int) -> int)
      requires ValidIndices(zoomMode, bgColorIndex)
      ensures Valid()
      ensures this.pages == pages && this.isWebtoon == isWebtoon
      ensures this.twoPageMode == (twoPageMode && !isWebtoon)
      ensures this.singleFirst == (twoPageStart == "single_first")
      ensures (screenWidth, screenHeight) == ScreenSize(windowW, windowH, screenLabel)
      ensures currentIndex == LoadedIndex(startIndex, |pages|, this.twoPageMode, singleFirst)
      ensures this.zoomMode == zoomMode && this.paddingPercent == paddingPercent
      ensures this.bgColorIndex == bgColorIndex && scrollY == 0
    {
      this.pages := pages;
      this.isWebtoon := isWebtoon;
      this.twoPageMode := twoPageMode && !isWebtoon;
      this.singleFirst := twoPageStart == "single_first";
      var (w, h) := ScreenSize(windowW, windowH, screenLabel);
      screenWidth := w;
      screenHeight := h;
      scrollStep := (h * 15) / 100;
      fastScroll := h / 2;
      this.layout := layout;
      currentIndex := startIndex;
      this.zoomMode := zoomMode;
      this.paddingPercent := paddingPercent;
      this.bgColorIndex := bgColorIndex;
      scrollY := 0;
      var (cx, cw) := ContentArea(w, paddingPercent);
      contentX := cx;
      contentW := cw;
      webtoonH := layout(zoomMode, paddingPercent);
      new;
      LoadCurrentPage();
    }

    /** `_load_current_page`: only the index can change (see `LoadedIndex`). */
    method LoadCurrentPage()
      requires Valid()
      modifies this
      ensures Valid()
      ensures currentIndex == LoadedIndex(old(currentIndex), |pages|, twoPageMode, singleFirst)
      ensures zoomMode == old(zoomMode) && paddingPercent == old(paddingPercent)
      ensures bgColorIndex == old(bgColorIndex) && scrollY == old(scrollY)
      ensures contentX == old(contentX) && contentW == old(contentW) && webtoonH == old(webtoonH)
    {
      if twoPageMode {
        var (left, _) := TwoPageIndices(currentIndex, |pages|, singleFirst);
        if 0 <= left < |pages| {
          currentIndex := left;
        }
      }
    }

    /** `_scroll_webtoon`: the offset stays within `[0, MaxScroll()]`. Running
        past the bottom moves to the next page at its top, unless this is the
        last page; running past the top moves to the previous page at its
        bottom, unless this is the first page. */
    method ScrollWebtoon(delta: int)
      requires Valid() && isWebtoon
      modifies this
      ensures Valid()
      ensures 0 <= scrollY <= MaxScroll()
      ensures var s := old(scrollY) + delta;
              if s > MaxScroll() then
                if old(currentIndex) < |pages| - 1 then currentIndex == old(currentIndex) + 1 && scrollY == 0
                else currentIndex == old(currentIndex) && scrollY == MaxScroll()
              else if s < 0 then
                if old(currentIndex) > 0 then currentIndex == old(currentIndex) - 1 && scrollY == MaxScroll()
                else currentIndex == old(currentIndex) && scrollY == 0
              else currentIndex == old(currentIndex) && scrollY == s
      ensures zoomMode == old(zoomMode) && paddingPercent == old(paddingPercent) && bgColorIndex == old(bgColorIndex)
    {
      var newScroll := scrollY + delta;
      var maxScroll := Max(0, webtoonH - screenHeight);
      if newScroll > maxScroll {
        if currentIndex < |pages| - 1 {
          currentIndex := currentIndex + 1;
          scrollY := 0;
          LoadCurrentPage();
        } else {
          scrollY := maxScroll;
        }
      } else if newScroll < 0 {
        if currentIndex > 0 {
          currentIndex := currentIndex - 1;
          LoadCurrentPage();
          scrollY := Max(0, webtoonH - screenHeight);
        } else {
          scrollY := 0;
        }
      } else {
        scrollY := newScroll;
      }
    }

    /** `_go_next_page` as written: the index stays in view, and inside the
        chapter unless a one-page chapter overruns (see `NextIndexAsWritten`). */
    method GoNextPage()
      requires Valid()
      modifies this
      ensures Valid()
      ensures currentIndex == LoadedIndex(NextIndexAsWritten(old(currentIndex), |pages|, twoPageMode, singleFirst),
                                          |pages|, twoPageMode, singleFirst)
      ensures InView(old(currentIndex), |pages|, twoPageMode, singleFirst) ==>
              InView(currentIndex, |pages|, twoPageMode, singleFirst)
      ensures InView(old(currentIndex), |pages|, twoPageMode, singleFirst) ==>
              !Overruns(|pages|, twoPageMode, singleFirst) ==> 0 <= currentIndex < |pages|
      ensures scrollY == 0
      ensures zoomMode == old(zoomMode) && paddingPercent == old(paddingPercent) && bgColorIndex == old(bgColorIndex)
    {
      if InView(currentIndex, |pages|, twoPageMode, singleFirst) {
        NextKeepsInView(currentIndex, |pages|, twoPageMode, singleFirst);
      }
      currentIndex := NextIndexAsWritten(currentIndex, |pages|, twoPageMode, singleFirst);
      scrollY := 0;
      LoadCurrentPage();
    }

    /** `_go_prev_page`. */
    method GoPrevPage()
      requires Valid()
      modifies this
      ensures Valid()
      ensures currentIndex == LoadedIndex(PrevIndex(old(currentIndex), twoPageMode, singleFirst),
                                          |pages|, twoPageMode, singleFirst)
      ensures 0 <= old(currentIndex) < |pages| ==> 0 <= currentIndex <= old(currentIndex)
      ensures InView(old(currentIndex), |pages|, twoPageMode, singleFirst) ==> 0 <= currentIndex < |pages|
      ensures scrollY == 0
      ensures zoomMode == old(zoomMode) && paddingPercent == old(paddingPercent) && bgColorIndex == old(bgColorIndex)
    {
      currentIndex := PrevIndex(currentIndex, twoPageMode, singleFirst);
      scrollY := 0;
      LoadCurrentPage();
    }

    /** `_cycle_zoom`: the next of the four zoom modes; the layout follows,
        the scroll offset is kept. */
    method CycleZoom()
      requires Valid()
      modifies this
      ensures Valid()
      ensures zoomMode == Cycle(old(zoomMode), ZoomModes)
      ensures currentIndex == LoadedIndex(old(currentIndex), |pages|, twoPageMode, singleFirst)
      ensures scrollY == old(scrollY) && paddingPercent == old(paddingPercent) && bgColorIndex == old(bgColorIndex)
    {
      zoomMode := Cycle(zoomMode, ZoomModes);
      webtoonH := layout(zoomMode, paddingPercent);
      LoadCurrentPage();
    }

    /** `_cycle_background`: the next of the six colours. */
    method CycleBackground()
      requires Valid()
      modifies this
      ensures Valid()
      ensures bgColorIndex == Cycle(old(bgColorIndex), BgColors)
      ensures currentIndex == old(currentIndex) && scrollY == old(scrollY)
      ensures zoomMode == old(zoomMode) && paddingPercent == old(paddingPercent)
    {
      bgColorIndex := Cycle(bgColorIndex, BgColors);
    }

    /** `_cycle_padding`: the next padding step; the content area and layout
        follow. */
    method CyclePadding()
      requires Valid()
      modifies this
      ensures Valid()
      ensures paddingPercent == NextPadding(old(paddingPercent))
      ensures 2 * contentW >= screenWidth
      ensures currentIndex == LoadedIndex(old(currentIndex), |pages|, twoPageMode, singleFirst)
      ensures scrollY == old(scrollY) && zoomMode == old(zoomMode) && bgColorIndex == old(bgColorIndex)
    {
      paddingPercent := NextPadding(paddingPercent);
      var (cx, cw) := ContentArea(screenWidth, paddingPercent);
      PaddingKeepsHalf(screenWidth, paddingPercent);
      contentX := cx;
      contentW := cw;
      webtoonH := layout(zoomMode, paddingPercent);
      LoadCurrentPage();
    }

    /** `onAction`: an exit action reports the current index (the close
        callback's argument); every other action keeps the index in view,
        and inside the chapter unless a one-page chapter overruns. */
    method OnAction(aid: int) returns (exit: Option<int>)
      requires Valid()
      modifies this
      ensures Valid()
      ensures aid in {ActionPreviousMenu, ActionNavBack, ActionStop} <==> exit.Some?
      ensures exit.Some? ==> exit.value == currentIndex && currentIndex == old(currentIndex)
      ensures InView(old(currentIndex), |pages|, twoPageMode, singleFirst) ==>
              InView(currentIndex, |pages|, twoPageMode, singleFirst)
      ensures InView(old(currentIndex), |pages|, twoPageMode, singleFirst) ==>
              !Overruns(|pages|, twoPageMode, singleFirst) ==> 0 <= currentIndex < |pages|
    {
      exit := None;
      if aid in {ActionPreviousMenu, ActionNavBack, ActionStop} {
        return Some(currentIndex);
      }
      if aid in {ActionMoveUp, ActionMouseWheelUp} {
        if isWebtoon { ScrollWebtoon(-scrollStep); } else { GoPrevPage(); }
      } else if aid in {ActionMoveDown, ActionMouseWheelDown} {
        if isWebtoon { ScrollWebtoon(scrollStep); } else { GoNextPage(); }
      } else if aid == ActionMoveLeft {
        GoPrevPage();
      } else if aid == ActionMoveRight {
        GoNextPage();
      } else if aid == ActionPageUp {
        if isWebtoon { ScrollWebtoon(-fastScroll); } else { GoPrevPage(); }
      } else if aid == ActionPageDown {
        if isWebtoon { ScrollWebtoon(fastScroll); } else { GoNextPage(); }
      } else if aid == ActionSelectItem {
        CycleZoom();
      } else if aid in {ActionShowInfo, ActionShowGui, ActionShowOsd, 195} {
        CycleBackground();
      } else if aid in {ActionContextMenu, 229} {
        CyclePadding();
      }
    }
  }

  /** `FullscreenViewer(...)`: building the window raises IndexError for a
      zoom mode or background index its tables do not have; otherwise the
      viewer is as the constructor describes. */
  method NewViewer(pages: seq<string>, startIndex: int, zoomMode: int, paddingPercent: int, isWebtoon: bool,
                   twoPageMode: bool, twoPageStart: string, bgColorIndex: int,
                   windowW: int, windowH: int, screenLabel: Option<(int, int)>, layout: (int, int) -> int)
    returns (r: Result<FullscreenViewer, string>)
    ensures r.Err? <==> !ValidIndices(zoomMode, bgColorIndex)
    ensures r.Ok? ==> fresh(r.value) && r.value.Valid() && r.value.pages == pages
    ensures r.Ok? ==> r.value.twoPageMode == (twoPageMode && !isWebtoon) &&
                      r.value.singleFirst == (twoPageStart == "single_first")
    ensures r.Ok? ==> r.value.currentIndex == LoadedIndex(startIndex, |pages|, r.value.twoPageMode, r.value.singleFirst)
    ensures r.Ok? ==> r.value.zoomMode == zoomMode && r.value.bgColorIndex == bgColorIndex &&
                      r.value.paddingPercent == paddingPercent && r.value.scrollY == 0
  {
    if !ValidIndices(zoomMode, bgColorIndex) {
      return Err("IndexError");
    }
    var v := new FullscreenViewer(pages, startIndex, zoomMode, paddingPercent, isWebtoon,
                                  twoPageMode, twoPageStart, bgColorIndex, windowW, windowH, screenLabel, layout);
    r := Ok(v);
  }

  /** `show_webtoon_viewer`: no pages, no viewer, and the start index comes
      back. Otherwise a zoom mode the viewer has no name for raises
      IndexError; else the viewer handles `actions` until the first exit and
      the index it closed on comes back (the start index if it never
      closed). A start index inside the chapter gives an index inside it,
      or index 1 when a one-page chapter overruns in `single_first`
      two-page mode. */
  method ShowWebtoonViewer(pages: seq<string>, startIndex: int, zoomMode: int, paddingPercent: int,
                           isWebtoon: bool, twoPageMode: bool, twoPageStart: string,
                           windowW: int, windowH: int, screenLabel: Option<(int, int)>,
                           layout: (int, int) -> int, actions: seq<int>)
    returns (finalIndex: Result<int, string>)
    ensures pages == [] ==> finalIndex == Ok(startIndex)
    ensures pages != [] ==> (finalIndex.Err? <==> !(-ZoomModes <= zoomMode < ZoomModes))
    ensures finalIndex.Ok? && 0 <= startIndex < |pages| ==>
            InView(finalIndex.value, |pages|, twoPageMode && !isWebtoon, twoPageStart == "single_first")
    ensures finalIndex.Ok? && 0 <= startIndex < |pages| &&
            !Overruns(|pages|, twoPageMode && !isWebtoon, twoPageStart == "single_first") ==>
            0 <= finalIndex.value < |pages|
    ensures finalIndex.Ok? &&
            (forall k :: 0 <= k < |actions| ==> actions[k] !in {ActionPreviousMenu, ActionNavBack, ActionStop}) ==>
              finalIndex.value == startIndex
  {
    if pages == [] {
      return Ok(startIndex);
    }
    var made := NewViewer(pages, startIndex, zoomMode, paddingPercent, isWebtoon,
                          twoPageMode, twoPageStart, 0, windowW, windowH, screenLabel, layout);
    if made.Err? {
      return Err(made.error);
    }
    var viewer := made.value;
    finalIndex := Ok(startIndex);
    var k := 0;
    while k < |actions|
      invariant 0 <= k <= |actions|
      invariant viewer.Valid() && viewer.pages == pages
      invariant viewer.twoPageMode == (twoPageMode && !isWebtoon) && viewer.singleFirst == (twoPageStart == "single_first")
      invariant 0 <= startIndex < |pages| ==> InView(viewer.currentIndex, |pages|, viewer.twoPageMode, viewer.singleFirst)
      invariant finalIndex == Ok(startIndex)
      invariant forall j :: 0 <= j < k ==> actions[j] !in {ActionPreviousMenu, ActionNavBack, ActionStop}
    {
      var exit := viewer.OnAction(actions[k]);
      if exit.Some? {
        return Ok(exit.value);
      }
      k := k + 1;
    }
  }
}
