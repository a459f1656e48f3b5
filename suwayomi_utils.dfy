/** Display helpers of the Suwayomi add-on
    (plugin.video.suwayomi/resources/lib/utils.py): chapter names, manga
    status labels and text truncation. */
module SuwaUtils {
  import opened Wrappers
  import opened Strings

  /** A chapter number as the server's JSON gives it. `whole` and `fraction`
      are the digits before and after the decimal point as Python prints the
      number; `fraction` is empty for a JSON integer (`12`), and `"0"` for a
      whole float (`12.0`). */
  datatype Number = Number(negative: bool, whole: nat, fraction: string)

  /** The chapter fields the helpers read; `None` is a missing or null key. */
  datatype Chapter = Chapter(
    id: int,
    chapterNumber: Option<Number>,
    name: Option<string>,
    scanlator: Option<string>,
    isRead: bool,
    isDownloaded: bool,
    isBookmarked: bool,
    pageCount: int,
    lastPageRead: int)

  predicate HasNonZeroDigit(s: string)
  {
    exists i :: 0 <= i < |s| && s[i] != '0'
  }

  /** `number > 0`, after `or 0` has turned a missing number into zero. */
  predicate Positive(n: Option<Number>)
  {
    n.Some? && !n.value.negative && (n.value.whole > 0 || HasNonZeroDigit(n.value.fraction))
  }

  /** `str(number)`. Exponent notation, which Python uses for very large or
      very small floats, is not modelled. */
  function NumberText(n: Number): (r: string)
    ensures StartsWith(r, if n.negative then "-" + NatToStr(n.whole) else NatToStr(n.whole))
  {
    var sign := if n.negative then "-" else "";
    var frac := if n.fraction == [] then "" else "." + n.fraction;
    assert sign + NatToStr(n.whole) + frac == (sign + NatToStr(n.whole)) + frac;
    sign + NatToStr(n.whole) + frac
  }

  /** `str(int(number))` for a positive number: `int` drops the fraction. */
  function WholeText(n: Number): string
  {
    NatToStr(n.whole)
  }

  /** The name already says which chapter it is. */
  predicate HasChapterPrefix(name: string)
  {
    StartsWith(Lower(name), "chapter") || StartsWith(Lower(name), "ch.")
  }

  predicate HasChapterInfo(name: string, number: Option<Number>)
  {
    HasChapterPrefix(name) || (Positive(number) && Contains(name, WholeText(number.value)))
  }

  /** `format_chapter_name` before the scanlator suffix, on the stripped
      name: a name carrying chapter information is kept as it is; otherwise
      a positive number gives `Chapter N` or `Chapter N: name`, and without
      one the name, or `Chapter` when there is no name either. */
  function BaseChapterName(number: Option<Number>, name: string): (r: string)
    ensures r != []
    ensures name != [] && HasChapterInfo(name, number) ==> r == name
    ensures !Positive(number) ==> r == if name == [] then "Chapter" else name
    ensures Positive(number) && name != [] && !HasChapterInfo(name, number) ==>
              r == "Chapter " + NumberText(number.value) + ": " + name
    ensures Positive(number) && name == [] ==> r == "Chapter " + NumberText(number.value)
  {
    if name != [] && HasChapterInfo(name, number) then name
    else if Positive(number) then
      if name != [] then "Chapter " + NumberText(number.value) + ": " + name
      else "Chapter " + NumberText(number.value)
    else if name != [] then name
    else "Chapter"
  }

  /** The base name always contains the name, and contains the chapter's
      whole number unless the name starts with a chapter prefix. */
  lemma BaseChapterNameContents(number: Option<Number>, name: string)
    ensures Contains(BaseChapterName(number, name), name)
    ensures Positive(number) && !HasChapterPrefix(name) ==>
              Contains(BaseChapterName(number, name), WholeText(number.value))
  {
    var r := BaseChapterName(number, name);
    if name != [] && HasChapterInfo(name, number) {
      ContainsSelf(name);
    } else if Positive(number) {
      NumberedNameContents(number.value, name);
    } else if name != [] {
      ContainsSelf(name);
    } else {
      assert OccursAt(r, name, 0);
    }
  }

  /** `Chapter N` and `Chapter N: name` contain the name and the whole
      number. */
  lemma NumberedNameContents(n: Number, name: string)
    requires !n.negative
    ensures Contains("Chapter " + NumberText(n), WholeText(n))
    ensures name != [] ==> Contains("Chapter " + NumberText(n) + ": " + name, name)
    ensures name != [] ==> Contains("Chapter " + NumberText(n) + ": " + name, WholeText(n))
    ensures name == [] ==> Contains("Chapter " + NumberText(n), name)
  {
    var num := NumberText(n);
    ContainsPrefix(num, WholeText(n));
    ContainsPrepend("Chapter ", num, WholeText(n));
    if name != [] {
      ContainsSuffix("Chapter " + num + ": ", name);
      ContainsAppend("Chapter " + num, ": ", WholeText(n));
      ContainsAppend("Chapter " + num + ": ", name, WholeText(n));
    } else {
      assert OccursAt("Chapter " + num, name, 0);
    }
  }

  /** The name field as `format_chapter_name` uses it: missing or null is
      empty, and surrounding whitespace is removed. */
  function ChapterTitle(ch: Chapter): string
  {
    Strip(if ch.name.Some? then ch.name.value else "")
  }

  function ScanlatorSuffix(ch: Chapter): string
  {
    if ch.scanlator.Some? && ch.scanlator.value != [] then " [" + ch.scanlator.value + "]" else ""
  }

  /** `format_chapter_name`: the base name, followed by ` [scanlator]` when
      the chapter has a non-empty scanlator. */
  function FormatChapterName(ch: Chapter): (r: string)
    ensures r != []
    ensures StartsWith(r, BaseChapterName(ch.chapterNumber, ChapterTitle(ch)))
    ensures ch.scanlator.Some? && ch.scanlator.value != [] ==> EndsWith(r, " [" + ch.scanlator.value + "]")
    ensures ch.scanlator.None? || ch.scanlator.value == [] ==> r == BaseChapterName(ch.chapterNumber, ChapterTitle(ch))
  {
    var base := BaseChapterName(ch.chapterNumber, ChapterTitle(ch));
    assert (base + ScanlatorSuffix(ch))[..|base|] == base;
    base + ScanlatorSuffix(ch)
  }

  /** A formatted chapter name always shows the chapter's name, and shows
      its whole number when it is positive and the name does not start with
      a chapter prefix, whatever the scanlator. */
  lemma ChapterNameShows(ch: Chapter)
    ensures Contains(FormatChapterName(ch), ChapterTitle(ch))
    ensures Positive(ch.chapterNumber) && !HasChapterPrefix(ChapterTitle(ch)) ==>
              Contains(FormatChapterName(ch), WholeText(ch.chapterNumber.value))
  {
    var base := BaseChapterName(ch.chapterNumber, ChapterTitle(ch));
    BaseChapterNameContents(ch.chapterNumber, ChapterTitle(ch));
    ContainsAppend(base, ScanlatorSuffix(ch), ChapterTitle(ch));
    if Positive(ch.chapterNumber) && !HasChapterPrefix(ChapterTitle(ch)) {
      ContainsAppend(base, ScanlatorSuffix(ch), WholeText(ch.chapterNumber.value));
    }
  }

  // ---------------------------------------------------------------- status

  /** The seven status codes the server uses and their labels. */
  const StatusLabels: map<string, string> := map[
    "ONGOING" := "Ongoing",
    "COMPLETED" := "Completed",
    "LICENSED" := "Licensed",
    "PUBLISHING_FINISHED" := "Publishing Finished",
    "CANCELLED" := "Cancelled",
    "ON_HIATUS" := "On Hiatus",
    "UNKNOWN" := "Unknown"]

  /** `format_manga_status`: a known code gives its label, any other
      non-empty value is shown as it is, and a missing or empty one is
      `Unknown`. */
  function FormatMangaStatus(status: Option<string>): (r: string)
    ensures r != []
    ensures status.Some? && status.value in StatusLabels ==> r == StatusLabels[status.value]
    ensures status.Some? && status.value !in StatusLabels && status.value != [] ==> r == status.value
    ensures status.None? || status.value == [] ==> r == "Unknown"
  {
    if status.Some? && status.value in StatusLabels then StatusLabels[status.value]
    else if status.Some? && status.value != [] then status.value
    else "Unknown"
  }

  /** No label is itself a status code, so formatting a formatted status
      changes nothing. */
  lemma FormatMangaStatusIdempotent(status: Option<string>)
    ensures FormatMangaStatus(Some(FormatMangaStatus(status))) == FormatMangaStatus(status)
  {
    var r := FormatMangaStatus(status);
    assert forall k :: k in StatusLabels ==> StatusLabels[k] !in StatusLabels;
    assert r !in StatusLabels;
  }

  /** Distinct codes have distinct labels. */
  lemma StatusLabelsInjective(a: string, b: string)
    requires a in StatusLabels && b in StatusLabels && a != b
    ensures FormatMangaStatus(Some(a)) != FormatMangaStatus(Some(b))
  {
  }

  // ---------------------------------------------------------------- truncation

  /** Python's `s[:k]`: a negative end counts from the end of the text, and
      an end past either side is clipped. */
  function SliceTo(s: string, k: int): (r: string)
    ensures StartsWith(s, r)
    ensures 0 <= k <= |s| ==> |r| == k
    ensures k < 0 ==> |r| == if |s| + k < 0 then 0 else |s| + k
  {
    if k >= |s| then s
    else if k >= 0 then s[..k]
    else if |s| + k >= 0 then s[..|s| + k]
    else []
  }

  /** `truncate_text`: empty or missing text gives empty text, text within
      the limit is kept, and longer text keeps its first `maxLength - 3`
      characters followed by `...`. */
  function TruncateText(text: Option<string>, maxLength: int): (r: string)
    ensures r == [] <==> text.None? || text.value == []
    ensures text.Some? && |text.value| <= maxLength ==> r == text.value
    ensures text.Some? && text.value != [] && |text.value| > maxLength ==>
              EndsWith(r, "...") && StartsWith(text.value, r[..|r| - 3])
    ensures text.Some? && |text.value| > maxLength >= 3 ==>
              |r| == maxLength && r == text.value[..maxLength - 3] + "..."
  {
    if text.None? || text.value == [] then ""
    else if |text.value| <= maxLength then text.value
    else
      var head := SliceTo(text.value, maxLength - 3);
      assert (head + "...")[..|head|] == head;
      head + "..."
  }

  /** With a limit of at least three, truncating never makes text longer
      than the limit, and truncating again changes nothing. */
  lemma TruncateTextWithinLimit(text: Option<string>, maxLength: int)
    requires maxLength >= 3
    ensures |TruncateText(text, maxLength)| <= maxLength
    ensures TruncateText(Some(TruncateText(text, maxLength)), maxLength) == TruncateText(text, maxLength)
  {
  }
}
