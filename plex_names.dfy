/** How the PlexKodiConnect download context menu
    (context.plexkodiconnect.download/default.py) names what it downloads:
    the sanitised title, the episode/song/movie file name, the extension,
    the type folder and the `.nfo` file written beside the download. */
module PlexNames {
  import opened Wrappers
  import opened Strings

  // ---------------------------------------------------------------- sanitising

  /** The characters a file name keeps: alphanumerics and ` -_.`. */
  predicate SafeChar(c: char)
  {
    IsAlnum(c) || c == ' ' || c == '-' || c == '_' || c == '.'
  }

  /** `"".join(c for c in s if c.isalnum() or c in (' ', '-', '_', '.'))`. */
  function Sanitize(s: string): (r: string)
    ensures |r| <= |s|
    ensures forall i :: 0 <= i < |r| ==> SafeChar(r[i])
  {
    if s == [] then []
    else if SafeChar(s[0]) then [s[0]] + Sanitize(s[1..])
    else Sanitize(s[1..])
  }

  /** `xs` is `ys` with some characters removed. */
  predicate Subsequence(xs: string, ys: string)
    decreases |ys|
  {
    if xs == [] then true
    else if ys == [] then false
    else if xs[0] == ys[0] then Subsequence(xs[1..], ys[1..])
    else Subsequence(xs, ys[1..])
  }

  /** Sanitising only removes characters, keeps every safe one, and leaves
      a text that is already safe unchanged; so sanitising twice is
      sanitising once. */
  lemma {:induction false} SanitizeKeepsExactlySafe(s: string)
    ensures Subsequence(Sanitize(s), s)
    ensures |Sanitize(s)| == |s| <==> forall i :: 0 <= i < |s| ==> SafeChar(s[i])
    ensures (forall i :: 0 <= i < |s| ==> SafeChar(s[i])) ==> Sanitize(s) == s
    ensures Sanitize(Sanitize(s)) == Sanitize(s)
  {
    if s != [] {
      SanitizeKeepsExactlySafe(s[1..]);
      var r := Sanitize(s);
      var tail := Sanitize(s[1..]);
      if SafeChar(s[0]) {
        assert r[1..] == tail;
        if forall i :: 0 <= i < |s[1..]| ==> SafeChar(s[1..][i]) {
          HeadTail(s);
        }
        if |r| == |s| {
          forall i | 1 <= i < |s|
            ensures SafeChar(s[i])
          {
            assert s[i] == s[1..][i - 1];
          }
        }
      } else {
        assert !(forall i :: 0 <= i < |s| ==> SafeChar(s[i]));
        assert tail != [] ==> tail[0] != s[0];
      }
    }
  }

  /** Sanitising a concatenation sanitises each part. */
  lemma {:induction false} SanitizeAppend(a: string, b: string)
    ensures Sanitize(a + b) == Sanitize(a) + Sanitize(b)
  {
    if a != [] {
      assert (a + b)[0] == a[0];
      assert (a + b)[1..] == a[1..] + b;
      SanitizeAppend(a[1..], b);
      if SafeChar(a[0]) {
        assert Sanitize(a + b) == [a[0]] + (Sanitize(a[1..]) + Sanitize(b));
      }
    } else {
      assert a + b == b;
    }
  }

  // ---------------------------------------------------------------- episode titles

  /** The end of the run of characters satisfying `IsDigit` from `i`. */
  function DigitEnd(s: string, i: nat): (j: nat)
    requires i <= |s|
    ensures i <= j <= |s|
    ensures forall k :: i <= k < j ==> IsDigit(s[k])
    ensures j == |s| || !IsDigit(s[j])
    decreases |s| - i
  {
    if i < |s| && IsDigit(s[i]) then DigitEnd(s, i + 1) else i
  }

  /** The characters of `[.\s-]`. */
  predicate TitleSep(c: char)
  {
    c == '.' || c == '-' || IsSpace(c)
  }

  function SepEnd(s: string, i: nat): (j: nat)
    requires i <= |s|
    ensures i <= j <= |s|
    ensures forall k :: i <= k < j ==> TitleSep(s[k])
    ensures j == |s| || !TitleSep(s[j])
    decreases |s| - i
  {
    if i < |s| && TitleSep(s[i]) then SepEnd(s, i + 1) else i
  }

  /** The groups of `(\d+)x(\d+)[.\s-]+(.+)` matched at `i`: the greedy
      digit runs, the greedy separator run, and the rest of the title;
      when the separators reach the end, the last of them is given back
      so that `(.+)` has a character. */
  function EpisodeMatchAt(s: string, i: nat): (r: Option<(string, string, string)>)
    requires i <= |s|
    ensures r.Some? ==> IsDigits(r.value.0) && IsDigits(r.value.1) && r.value.2 != []
    ensures r.Some? ==> OccursAt(s, r.value.0 + "x" + r.value.1, i) && EndsWith(s, r.value.2)
  {
    var j := DigitEnd(s, i);
    if j == i || j == |s| || s[j] != 'x' then None
    else
      var k := DigitEnd(s, j + 1);
      if k == j + 1 then None
      else
        var m := SepEnd(s, k);
        assert s[i..k] == s[i..j] + "x" + s[j + 1..k];
        if m == k then None
        else if m < |s| then Some((s[i..j], s[j + 1..k], s[m..]))
        else if m - k >= 2 then Some((s[i..j], s[j + 1..k], s[m - 1..]))
        else None
  }

  /** `re.search` of the episode pattern: the leftmost start that
      matches. */
  function EpisodeSearchFrom(s: string, i: nat): (r: Option<(string, string, string)>)
    requires i <= |s|
    ensures r.Some? ==> IsDigits(r.value.0) && IsDigits(r.value.1) && r.value.2 != []
    ensures r.Some? ==> Contains(s, r.value.0 + "x" + r.value.1) && EndsWith(s, r.value.2)
    decreases |s| - i
  {
    var here := EpisodeMatchAt(s, i);
    if here.Some? then here
    else if i == |s| then None
    else EpisodeSearchFrom(s, i + 1)
  }

  /** The end of a digit run is where the digits stop. */
  lemma {:induction false} DigitEndAt(s: string, i: nat, j: nat)
    requires i <= j <= |s|
    requires forall k :: i <= k < j ==> IsDigit(s[k])
    requires j == |s| || !IsDigit(s[j])
    ensures DigitEnd(s, i) == j
    decreases j - i
  {
    if i < j {
      DigitEndAt(s, i + 1, j);
    }
  }

  /** The end of a separator run is where the separators stop. */
  lemma {:induction false} SepEndAt(s: string, i: nat, j: nat)
    requires i <= j <= |s|
    requires forall k :: i <= k < j ==> TitleSep(s[k])
    requires j == |s| || !TitleSep(s[j])
    ensures SepEnd(s, i) == j
    decreases j - i
  {
    if i < j {
      SepEndAt(s, i + 1, j);
    }
  }

  /** Every text of the form `<digits>x<digits><separators><title>` from
      index `i` is matched there, with those two numbers, and with that
      title when it does not itself open with a separator. */
  lemma EpisodeMatchAtComplete(s: string, i: nat, a: string, b: string, sep: string, t: string)
    requires i <= |s| && s[i..] == a + "x" + b + sep + t
    requires IsDigits(a) && IsDigits(b) && sep != [] && t != []
    requires forall k :: 0 <= k < |sep| ==> TitleSep(sep[k])
    ensures EpisodeMatchAt(s, i).Some?
    ensures EpisodeMatchAt(s, i).value.0 == a && EpisodeMatchAt(s, i).value.1 == b
    ensures !TitleSep(t[0]) ==> EpisodeMatchAt(s, i).value.2 == t
  {
    var j := i + |a|;
    var k := j + 1 + |b|;
    RunsAt(s, i, a, b, sep, t);
    MatchAtFromRuns(s, i, j, k);
    if !TitleSep(t[0]) {
      SepRunThenTitle(s, k, sep, t);
      TitleFromRuns(s, i, j, k, k + |sep|);
    }
  }

  /** The runs a text of the matching form is made of, from index `i`. */
  lemma RunsAt(s: string, i: nat, a: string, b: string, sep: string, t: string)
    requires i <= |s| && s[i..] == a + "x" + b + sep + t
    requires IsDigits(a) && IsDigits(b) && sep != [] && t != []
    requires forall k :: 0 <= k < |sep| ==> TitleSep(sep[k])
    ensures var j := i + |a|; var k := j + 1 + |b|;
            k <= |s| - 2 && s[i..j] == a && s[j] == 'x' && s[j + 1..k] == b && TitleSep(s[k]) &&
            DigitEnd(s, i) == j && DigitEnd(s, j + 1) == k && s[k..] == sep + t
  {
    var j := i + |a|;
    var k := j + 1 + |b|;
    MatchShape(s[i..], a, b, sep, t);
    assert s[i..j] == a && s[j] == 'x' && s[j + 1..k] == b && TitleSep(s[k]) && |s| - k >= 2 by {
      assert s[i..j] == s[i..][..|a|];
      assert s[j + 1..k] == s[i..][|a| + 1..|a| + 1 + |b|];
      assert s[j] == s[i..][|a|] && s[k] == s[i..][k - i];
    }
    assert s[k..] == sep + t by {
      assert s[k..] == s[i..][k - i..];
    }
    DigitRunAt(s, i, a);
    DigitRunAt(s, j + 1, b);
  }

  /** A separator run followed by a title that does not open with a
      separator ends exactly where the title starts. */
  lemma SepRunThenTitle(s: string, k: nat, sep: string, t: string)
    requires k <= |s| && s[k..] == sep + t && t != [] && !TitleSep(t[0])
    requires forall q :: 0 <= q < |sep| ==> TitleSep(sep[q])
    ensures k + |sep| < |s| && SepEnd(s, k) == k + |sep| && s[k + |sep|..] == t
  {
    var m := k + |sep|;
    assert s[m..] == t by {
      assert s[m..] == s[k..][|sep|..];
    }
    forall q | k <= q < m
      ensures TitleSep(s[q])
    {
      assert s[q] == s[k..][q - k];
    }
    SepEndAt(s, k, m);
  }

  /** The title group of the match at `i` is what follows the separators. */
  lemma TitleFromRuns(s: string, i: nat, j: nat, k: nat, m: nat)
    requires i < j && j + 1 < k < m < |s|
    requires DigitEnd(s, i) == j && s[j] == 'x' && DigitEnd(s, j + 1) == k && SepEnd(s, k) == m
    ensures EpisodeMatchAt(s, i) == Some((s[i..j], s[j + 1..k], s[m..]))
  {
  }

  /** The match at `i` from the runs it is made of. */
  lemma MatchAtFromRuns(s: string, i: nat, j: nat, k: nat)
    requires i < j < k <= |s| - 2
    requires DigitEnd(s, i) == j && s[j] == 'x' && DigitEnd(s, j + 1) == k && j + 1 < k && TitleSep(s[k])
    ensures EpisodeMatchAt(s, i).Some?
    ensures EpisodeMatchAt(s, i).value.0 == s[i..j] && EpisodeMatchAt(s, i).value.1 == s[j + 1..k]
  {
    assert SepEnd(s, k) > k;
  }

  /** A digit run written at `p` and followed by a non-digit ends there. */
  lemma DigitRunAt(s: string, p: nat, d: string)
    requires p + |d| < |s| && s[p..p + |d|] == d && IsDigits(d) && !IsDigit(s[p + |d|])
    ensures DigitEnd(s, p) == p + |d|
  {
    forall q | p <= q < p + |d|
      ensures IsDigit(s[q])
    {
      assert s[q] == d[q - p];
    }
    DigitEndAt(s, p, p + |d|);
  }

  /** Where the pieces of a matching text sit. */
  lemma MatchShape(u: string, a: string, b: string, sep: string, t: string)
    requires u == a + "x" + b + sep + t && sep != [] && t != []
    ensures |u| == |a| + 1 + |b| + |sep| + |t|
    ensures u[..|a|] == a && u[|a|] == 'x' && u[|a| + 1..|a| + 1 + |b|] == b && u[|a| + 1 + |b|] == sep[0]
    ensures u[|a| + 1 + |b|..] == sep + t
  {
    assert u[..|a|] == a;
    assert u[|a| + 1..|a| + 1 + |b|] == b;
    assert u[|a| + 1 + |b|..] == sep + t;
  }

  /** The search finds nothing exactly when no start matches. */
  lemma {:induction false} EpisodeSearchNone(s: string, i: nat)
    requires i <= |s|
    ensures EpisodeSearchFrom(s, i).None? <==> forall j :: i <= j <= |s| ==> EpisodeMatchAt(s, j).None?
    decreases |s| - i
  {
    if EpisodeMatchAt(s, i).Some? {
      SearchHere(s, i);
    } else if i < |s| {
      SearchSkips(s, i);
      EpisodeSearchNone(s, i + 1);
      RangeSplit(s, i);
    } else {
      SearchEnd(s, i);
    }
  }

  /** No start from `i` matches exactly when `i` does not and no start from
      `i + 1` does. */
  lemma RangeSplit(s: string, i: nat)
    requires i < |s|
    ensures (forall j :: i <= j <= |s| ==> EpisodeMatchAt(s, j).None?)
      <==> EpisodeMatchAt(s, i).None? && forall j :: i + 1 <= j <= |s| ==> EpisodeMatchAt(s, j).None?
  {
  }

  lemma SearchEnd(s: string, i: nat)
    requires i == |s| && EpisodeMatchAt(s, i).None?
    ensures EpisodeSearchFrom(s, i).None?
  {
  }

  /** The search answers with the leftmost start that matches. */
  lemma {:induction false} EpisodeSearchLeftmost(s: string, i: nat, j: nat)
    requires i <= j <= |s| && EpisodeMatchAt(s, j).Some?
    requires forall k :: i <= k < j ==> EpisodeMatchAt(s, k).None?
    ensures EpisodeSearchFrom(s, i) == EpisodeMatchAt(s, j)
    decreases j - i
  {
    if i < j {
      EpisodeSearchLeftmost(s, i + 1, j);
      SkipTo(s, i, EpisodeMatchAt(s, j));
    } else {
      SearchHere(s, i);
    }
  }

  /** Skipping a start that does not match, with the answer from the next
      start already known. */
  lemma SkipTo(s: string, i: nat, answer: Option<(string, string, string)>)
    requires i < |s| && EpisodeMatchAt(s, i).None? && EpisodeSearchFrom(s, i + 1) == answer
    ensures EpisodeSearchFrom(s, i) == answer
  {
    SearchSkips(s, i);
  }

  lemma SearchSkips(s: string, i: nat)
    requires i < |s| && EpisodeMatchAt(s, i).None?
    ensures EpisodeSearchFrom(s, i) == EpisodeSearchFrom(s, i + 1)
  {
  }

  lemma SearchHere(s: string, i: nat)
    requires i <= |s| && EpisodeMatchAt(s, i).Some?
    ensures EpisodeSearchFrom(s, i) == EpisodeMatchAt(s, i)
  {
  }

  function EpisodeTitleMatch(title: string): Option<(string, string, string)>
  {
    EpisodeSearchFrom(title, 0)
  }

  /** A title without an `x` never overrides the season and episode. */
  lemma {:induction false} NoMatchWithoutX(s: string, i: nat)
    requires i <= |s| && 'x' !in s
    ensures EpisodeSearchFrom(s, i).None?
    decreases |s| - i
  {
    var j := DigitEnd(s, i);
    assert j < |s| ==> s[j] != 'x';
    if i < |s| {
      NoMatchWithoutX(s, i + 1);
    }
  }

  /** `f"{n:02d}"` for any integer: a negative number keeps its sign and is
      not padded further. */
  function Format02(n: int): (r: string)
    ensures |r| >= 2
    ensures n >= 0 ==> IsDigits(r) && DigitsValue(r) == n
    ensures 0 <= n < 10 ==> r == "0" + NatToStr(n)
    ensures n >= 10 ==> r == NatToStr(n)
    ensures n < 0 ==> r == "-" + NatToStr(-n)
  {
    if n >= 0 then Pad2(n) else "-" + NatToStr(-n)
  }

  /** The file name of an episode: `S{season:02d}E{episode:02d} - {title}`,
      where a title of the form `9x18. Title` supplies season, episode and
      title itself. */
  function EpisodeFilename(season: int, episode: int, title: string): (r: string)
    ensures r != [] && r[0] == 'S'
    ensures EpisodeTitleMatch(title).None? ==>
              r == "S" + Format02(season) + "E" + Format02(episode) + " - " + Sanitize(title)
    ensures EpisodeTitleMatch(title).Some? ==>
              var m := EpisodeTitleMatch(title).value;
              r == "S" + Format02(DigitsValue(m.0)) + "E" + Format02(DigitsValue(m.1)) + " - " + Sanitize(Strip(m.2))
  {
    match EpisodeTitleMatch(title)
    case Some((a, b, t)) =>
      "S" + Format02(DigitsValue(a)) + "E" + Format02(DigitsValue(b)) + " - " + Sanitize(Strip(t))
    case None =>
      "S" + Format02(season) + "E" + Format02(episode) + " - " + Sanitize(title)
  }

  /** A title that opens with `<season>x<episode>` and a separator names
      the file by those numbers, whatever the item's own season and
      episode, and by the title that follows the separators. */
  lemma EpisodeFilenameOverride(season: int, episode: int, a: string, b: string, sep: string, t: string)
    requires IsDigits(a) && IsDigits(b) && sep != [] && t != []
    requires forall k :: 0 <= k < |sep| ==> TitleSep(sep[k])
    ensures StartsWith(EpisodeFilename(season, episode, a + "x" + b + sep + t),
                       "S" + Format02(DigitsValue(a)) + "E" + Format02(DigitsValue(b)) + " - ")
    ensures !TitleSep(t[0]) ==>
              EpisodeFilename(season, episode, a + "x" + b + sep + t) ==
              "S" + Format02(DigitsValue(a)) + "E" + Format02(DigitsValue(b)) + " - " + Sanitize(Strip(t))
  {
    var title := a + "x" + b + sep + t;
    assert title[0..] == title;
    EpisodeMatchAtComplete(title, 0, a, b, sep, t);
    EpisodeSearchLeftmost(title, 0, 0);
    var m := EpisodeTitleMatch(title).value;
    var p := "S" + Format02(DigitsValue(a)) + "E" + Format02(DigitsValue(b)) + " - ";
    assert EpisodeFilename(season, episode, title) == p + Sanitize(Strip(m.2));
  }

  /** A title without an `x` leaves the season and episode as the item
      has them, and the title is only sanitised. */
  lemma EpisodeFilenameWithoutX(season: int, episode: int, title: string)
    requires 'x' !in title
    ensures EpisodeFilename(season, episode, title) == "S" + Format02(season) + "E" + Format02(episode) + " - " + Sanitize(title)
  {
    NoMatchWithoutX(title, 0);
  }

  /** An episode name with a non-negative season and episode is made only
      of characters the sanitiser keeps. */
  lemma EpisodeFilenameSafe(season: nat, episode: nat, title: string)
    ensures forall i :: 0 <= i < |EpisodeFilename(season, episode, title)| ==> SafeChar(EpisodeFilename(season, episode, title)[i])
  {
    var m := EpisodeTitleMatch(title);
    var s, e, t := season, episode, Sanitize(title);
    if m.Some? {
      s, e, t := DigitsValue(m.value.0), DigitsValue(m.value.1), Sanitize(Strip(m.value.2));
    }
    AllSafeJoin("S" + Format02(s) + "E" + Format02(e) + " - ", t);
  }

  /** A safe prefix followed by a sanitised text is safe throughout. */
  lemma AllSafeJoin(p: string, t: string)
    requires forall i :: 0 <= i < |p| ==> SafeChar(p[i])
    requires forall i :: 0 <= i < |t| ==> SafeChar(t[i])
    ensures forall i :: 0 <= i < |p + t| ==> SafeChar((p + t)[i])
  {
  }

  /** The usual Kodi episode label: season 9, episode 18, title `Title`. */
  lemma EpisodeLabelExample()
    ensures EpisodeTitleMatch("9x18. Title") == Some(("9", "18", "Title"))
    ensures EpisodeFilename(1, 2, "9x18. Title") == "S" + "09" + "E" + "18" + " - " + "Title"
  {
    var s := "9x18. Title";
    EpisodeLabelMatch();
    var m := EpisodeTitleMatch(s).value;
    assert EpisodeFilename(1, 2, s) == "S" + Format02(DigitsValue(m.0)) + "E" + Format02(DigitsValue(m.1)) + " - " + Sanitize(Strip(m.2));
    EpisodeLabelParts();
  }

  lemma EpisodeLabelParts()
    ensures Format02(DigitsValue("9")) == "09"
    ensures Format02(DigitsValue("18")) == "18"
    ensures Sanitize(Strip("Title")) == "Title"
  {
    assert DigitsValue("9") == 9;
    assert DigitsValue("18") == 18;
    assert NatToStr(18) == "18";
    StripOfEnds("Title");
    assert Sanitize("Title") == "Title";
  }

  lemma EpisodeLabelMatch()
    ensures EpisodeTitleMatch("9x18. Title") == Some(("9", "18", "Title"))
  {
    var s := "9x18. Title";
    assert DigitEnd(s, 0) == 1;
    assert DigitEnd(s, 2) == 4;
    assert SepEnd(s, 4) == 6;
    assert s[0..1] == "9" && s[2..4] == "18" && s[6..] == "Title";
    assert EpisodeMatchAt(s, 0) == Some(("9", "18", "Title"));
  }

  // ---------------------------------------------------------------- songs and movies

  /** `{track:02d} - {title}` for a positive track, else the title. */
  function SongFilename(track: int, safeTitle: string): (r: string)
    ensures track > 0 ==> StartsWith(r, Pad2(track)) && EndsWith(r, " - " + safeTitle)
    ensures track <= 0 ==> r == safeTitle
  {
    if track > 0 then
      assert Pad2(track) + " - " + safeTitle == Pad2(track) + (" - " + safeTitle);
      Pad2(track) + " - " + safeTitle
    else safeTitle
  }

  /** `title (year)` when the list item has a year, else the title. */
  function MovieFilename(safeTitle: string, year: string): (r: string)
    ensures year != [] ==> StartsWith(r, safeTitle + " (") && EndsWith(r, year + ")")
    ensures year == [] ==> r == safeTitle
  {
    if year != [] then
      assert safeTitle + " (" + year + ")" == (safeTitle + " (") + (year + ")");
      safeTitle + " (" + year + ")"
    else safeTitle
  }

  // ---------------------------------------------------------------- extensions

  /** The last index of `c` in `s`. */
  function LastIndex(s: string, c: char): (r: Option<nat>)
    ensures r.Some? ==> r.value < |s| && s[r.value] == c && forall j :: r.value < j < |s| ==> s[j] != c
    ensures r.None? ==> c !in s
  {
    if s == [] then None
    else if s[|s| - 1] == c then Some(|s| - 1)
    else
      var r := LastIndex(s[..|s| - 1], c);
      assert s == s[..|s| - 1] + [s[|s| - 1]];
      r
  }

  /** `d` is the dot `os.path.splitext` splits at: the last `.` of the
      last path component, with a character of that component other than
      `.` before it. */
  ghost predicate ExtDot(p: string, d: int)
  {
    0 <= d < |p| && p[d] == '.'
    && (forall j :: d < j < |p| ==> p[j] != '.' && p[j] != '/')
    && exists k :: 0 <= k < d && p[k] != '.' && p[k] != '/' && forall j :: k < j < d ==> p[j] != '/'
  }

  /** The extension `os.path.splitext` finds: from the last `.` of the last
      path component, unless that component has only dots before it. */
  function ExtOf(p: string): (e: string)
    ensures EndsWith(p, e)
    ensures e != [] ==> e[0] == '.' && '/' !in e && '.' !in e[1..]
    ensures e != [] <==> exists d :: ExtDot(p, d)
    ensures forall d :: ExtDot(p, d) ==> e == p[d..]
  {
    match LastIndex(p, '.')
    case None => ""
    case Some(dot) =>
      var start := match LastIndex(p, '/') case None => 0 case Some(sep) => sep + 1;
      assert forall j :: start <= j < |p| ==> p[j] != '/';
      ExtDotAt(p, dot, start);
      if dot < start then
        ""
      else if exists k :: start <= k < dot && p[k] != '.' then
        assert forall j :: dot < j < |p| ==> p[j] != '.' && p[j] != '/';
        assert forall j :: 0 <= j < |p[dot..][1..]| ==> p[dot..][1..][j] == p[dot + 1 + j];
        p[dot..]
      else
        ""
  }

  /** With `dot` the last `.` of the path and `start` the start of its last
      component, `dot` is the only candidate split point, and it is one
      exactly when it lies in that component after a character other than
      `.`. */
  lemma ExtDotAt(p: string, dot: nat, start: nat)
    requires dot < |p| && p[dot] == '.' && forall j :: dot < j < |p| ==> p[j] != '.'
    requires start <= |p| && (start > 0 ==> p[start - 1] == '/')
    requires forall j :: start <= j < |p| ==> p[j] != '/'
    ensures forall d :: ExtDot(p, d) ==> d == dot
    ensures ExtDot(p, dot) <==> start <= dot && exists k :: start <= k < dot && p[k] != '.'
  {
    if ExtDot(p, dot) {
      var k :| 0 <= k < dot && p[k] != '.' && p[k] != '/' && forall j :: k < j < dot ==> p[j] != '/';
      assert start <= k;
    }
    if start <= dot && exists k :: start <= k < dot && p[k] != '.' {
      var k :| start <= k < dot && p[k] != '.';
      assert p[k] != '/';
    }
  }

  /** The path without its extension. */
  function RootOf(p: string): (r: string)
    ensures r + ExtOf(p) == p
  {
    var e := ExtOf(p);
    assert p == p[..|p| - |e|] + p[|p| - |e|..];
    p[..|p| - |e|]
  }

  /** The lower-cased extension of the source, after the query string is
      cut off. */
  function SourceExtension(sourcePath: string): (r: string)
    ensures r == Lower(ExtOf(SplitOnce(sourcePath, '?').0))
    ensures r != [] ==> r[0] == '.'
  {
    Lower(ExtOf(SplitOnce(sourcePath, '?').0))
  }

  const KnownAudio: set<string> := {".mp3", ".m4a", ".flac", ".wav", ".ogg"}

  /** The extension a music download gets: Apple formats become `.m4a`,
      the known lossless and mp3 extensions stay, anything else is
      `.mp3`. */
  function MusicExtension(ext: string): (r: string)
    ensures r in KnownAudio
    ensures ext in KnownAudio ==> r == ext
    ensures ext == ".m4b" || ext == ".aac" ==> r == ".m4a"
    ensures ext !in KnownAudio && ext != ".m4b" && ext != ".aac" ==> r == ".mp3"
  {
    if ext in [".m4a", ".m4b", ".aac"] then ".m4a"
    else if ext in [".flac", ".wav", ".ogg"] then ext
    else if ext == [] || ext !in [".mp3", ".m4a", ".flac", ".wav", ".ogg"] then ".mp3"
    else ext
  }

  /** The extension a video download gets: a transport stream or a missing
      extension becomes `.mp4`; any other is kept. */
  function VideoExtension(ext: string): (r: string)
    ensures r != [] && r != ".ts"
    ensures ext != [] && ext != ".ts" ==> r == ext
  {
    if ext == ".ts" then ".mp4"
    else if ext == [] then ".mp4"
    else ext
  }

  /** Mapping an extension a second time changes nothing. */
  lemma ExtensionMappingIdempotent(ext: string)
    ensures MusicExtension(MusicExtension(ext)) == MusicExtension(ext)
    ensures VideoExtension(VideoExtension(ext)) == VideoExtension(ext)
  {
  }

  predicate IsMusicType(mediaType: string)
  {
    mediaType == "song" || mediaType == "music"
  }

  function DownloadExtension(mediaType: string, sourcePath: string): (r: string)
    ensures IsMusicType(mediaType) ==> r in KnownAudio
    ensures !IsMusicType(mediaType) ==> r != [] && r != ".ts"
    ensures r == if IsMusicType(mediaType) then MusicExtension(SourceExtension(sourcePath))
                 else VideoExtension(SourceExtension(sourcePath))
  {
    var ext := SourceExtension(sourcePath);
    if IsMusicType(mediaType) then MusicExtension(ext) else VideoExtension(ext)
  }

  /** A query string never decides the extension. */
  lemma QueryIgnored(path: string, query: string)
    requires '?' !in path
    ensures SourceExtension(path + "?" + query) == SourceExtension(path)
  {
    var s := path + "?" + query;
    var r := SplitOnce(s, '?');
    assert '?' in s by { assert s[|path|] == '?'; }
    assert forall i :: 0 <= i < |path| ==> s[i] == path[i] && s[i] != '?';
    assert forall i :: 0 <= i < |r.0| ==> s[i] == r.0[i] && s[i] != '?';
    assert s[|path|] == '?' && s[|r.0|] == '?';
    assert |r.0| == |path|;
    assert r.0 == s[..|r.0|] == path;
  }

  // ---------------------------------------------------------------- folders and NFO files

  /** The folder a download goes under when organising by type. */
  function TypeFolder(mediaType: string): (r: string)
    ensures mediaType == "episode" ==> r == "TV Shows"
    ensures mediaType == "song" ==> r == "Music"
    ensures mediaType != "episode" && mediaType != "song" ==> r == "Movies"
  {
    if mediaType == "episode" then "TV Shows"
    else if mediaType == "song" then "Music"
    else "Movies"
  }

  /** The `.nfo` file beside a download: its extension replaced. */
  function NfoPath(dest: string): (r: string)
    ensures r == RootOf(dest) + ".nfo"
    ensures EndsWith(r, ".nfo")
  {
    var r := RootOf(dest) + ".nfo";
    assert r[|r| - 4..] == ".nfo";
    r
  }

  /** The root element of the NFO document for each type. */
  function NfoRoot(mediaType: string): (r: string)
    ensures IsMusicType(mediaType) ==> r == "musicvideo"
    ensures mediaType == "episode" ==> r == "episodedetails"
    ensures !IsMusicType(mediaType) && mediaType != "episode" ==> r == "movie"
  {
    if IsMusicType(mediaType) then "musicvideo"
    else if mediaType == "episode" then "episodedetails"
    else "movie"
  }

  /** The Plex track metadata `write_nfo_file` is given for a song. The
      writer tests each field with `if metadata.get(key):`, so a field is
      `None` when its key is absent or holds a value Python treats as false
      (`None`, `''`, `0`, an empty list), and otherwise holds the text
      `format` writes for it. */
  datatype TrackMetadata = TrackMetadata(
    artist: Option<string>, album: Option<string>, track: Option<string>, year: Option<string>)

  /** What the NFO writer reads from the item. `title`, `artist` and
      `album` are read with a default (`.get(key, 'Unknown')`), which
      applies only to an absent key: they are `None` when the key is absent
      (`artist` also when it holds an empty list) and otherwise hold the
      text written, even an empty one; a list of artists is read as its
      first element. `year`, `season`, `episode` and `track` are tested
      with `if item_info.get(key):`, so they are `None` when the key is
      absent or holds a value Python treats as false. */
  datatype NfoItem = NfoItem(
    mediaType: string, title: Option<string>, year: Option<string>,
    season: Option<string>, episode: Option<string>,
    artist: Option<string>, album: Option<string>, track: Option<string>)

  /** A value read with `.get(key, 'Unknown')`. */
  function OrUnknown(v: Option<string>): (r: string)
    ensures v.None? ==> r == "Unknown"
    ensures v.Some? ==> r == v.value
  {
    if v.Some? then v.value else "Unknown"
  }

  /** The child elements an NFO document can hold, in the order the writer
      emits them. */
  datatype Tag = Title | Artist | Album | Track | Year | Season | Episode

  function TagName(t: Tag): string
  {
    match t
    case Title => "title"
    case Artist => "artist"
    case Album => "album"
    case Track => "track"
    case Year => "year"
    case Season => "season"
    case Episode => "episode"
  }

  function TagRank(t: Tag): nat
  {
    match t
    case Title => 0
    case Artist => 1
    case Album => 2
    case Track => 3
    case Year => 4
    case Season => 5
    case Episode => 6
  }

  /** The elements each type's document may hold. */
  function NfoTags(mediaType: string): set<Tag>
  {
    if IsMusicType(mediaType) then {Title, Artist, Album, Track, Year}
    else if mediaType == "episode" then {Title, Season, Episode}
    else {Title, Year}
  }

  /** The elements are in document order, each tag at most once. */
  predicate InDocumentOrder(r: seq<(Tag, string)>)
  {
    forall i, j :: 0 <= i < j < |r| ==> TagRank(r[i].0) < TagRank(r[j].0)
  }

  /** A one-element list when the field is set. */
  function Optional(tag: Tag, v: Option<string>): (r: seq<(Tag, string)>)
    ensures |r| <= 1 && forall k :: 0 <= k < |r| ==> r[k].0 == tag
    ensures forall t, w :: (t, w) in r <==> t == tag && v.Some? && v.value == w
  {
    if v.Some? then [(tag, v.value)] else []
  }

  /** Two lists in document order, the first ranked below a bound the
      second reaches, stay in document order together. */
  lemma OrderedConcat(a: seq<(Tag, string)>, b: seq<(Tag, string)>, n: nat)
    requires InDocumentOrder(a) && InDocumentOrder(b)
    requires forall k :: 0 <= k < |a| ==> TagRank(a[k].0) < n
    requires forall k :: 0 <= k < |b| ==> n <= TagRank(b[k].0)
    ensures InDocumentOrder(a + b)
  {
    forall i, j | 0 <= i < j < |a + b|
      ensures TagRank((a + b)[i].0) < TagRank((a + b)[j].0)
    {
      if j < |a| {
      } else if i < |a| {
        assert TagRank(a[i].0) < n <= TagRank(b[j - |a|].0);
      } else {
        assert (a + b)[i] == b[i - |a|] && (a + b)[j] == b[j - |a|];
      }
    }
  }

  /** A list whose tags all lie in `tags` holds no element tagged `t`
      outside them. */
  lemma TagAbsent(r: seq<(Tag, string)>, tags: set<Tag>, t: Tag)
    requires forall k :: 0 <= k < |r| ==> r[k].0 in tags
    requires t !in tags
    ensures forall v :: (t, v) !in r
  {
  }

  /** The title, artist and album elements of a song with metadata. */
  function MetadataHead(title: string, m: TrackMetadata): (r: seq<(Tag, string)>)
    ensures r != [] && r[0] == (Title, title)
    ensures forall k :: 0 <= k < |r| ==> r[k].0 in {Title, Artist, Album}
    ensures InDocumentOrder(r)
    ensures forall v ::
      && ((Artist, v) in r <==> m.artist.Some? && m.artist.value == v)
      && ((Album, v) in r <==> m.album.Some? && m.album.value == v)
  {
    [(Title, title)] + Optional(Artist, m.artist) + Optional(Album, m.album)
  }

  /** The track and year elements of a song with metadata. */
  function MetadataTail(m: TrackMetadata): (r: seq<(Tag, string)>)
    ensures forall k :: 0 <= k < |r| ==> r[k].0 in {Track, Year}
    ensures InDocumentOrder(r)
    ensures forall v ::
      && ((Track, v) in r <==> m.track.Some? && m.track.value == v)
      && ((Year, v) in r <==> m.year.Some? && m.year.value == v)
  {
    Optional(Track, m.track) + Optional(Year, m.year)
  }

  /** A song's elements taken from the Plex metadata. */
  function MetadataFields(title: string, m: TrackMetadata): (r: seq<(Tag, string)>)
    ensures r != [] && r[0] == (Title, title)
    ensures forall k :: 0 <= k < |r| ==> r[k].0 in {Title, Artist, Album, Track, Year}
    ensures InDocumentOrder(r)
    ensures forall v ::
      && ((Artist, v) in r <==> m.artist.Some? && m.artist.value == v)
      && ((Album, v) in r <==> m.album.Some? && m.album.value == v)
      && ((Track, v) in r <==> m.track.Some? && m.track.value == v)
      && ((Year, v) in r <==> m.year.Some? && m.year.value == v)
  {
    var head, tail := MetadataHead(title, m), MetadataTail(m);
    MetadataJoin(title, m, head, tail);
    head + tail
  }

  /** Joining the head and the tail of a song's metadata elements, knowing
      only their contracts. */
  lemma MetadataJoin(title: string, m: TrackMetadata, head: seq<(Tag, string)>, tail: seq<(Tag, string)>)
    requires head != [] && head[0] == (Title, title)
    requires forall k :: 0 <= k < |head| ==> head[k].0 in {Title, Artist, Album}
    requires InDocumentOrder(head)
    requires forall v ::
      && ((Artist, v) in head <==> m.artist.Some? && m.artist.value == v)
      && ((Album, v) in head <==> m.album.Some? && m.album.value == v)
    requires forall k :: 0 <= k < |tail| ==> tail[k].0 in {Track, Year}
    requires InDocumentOrder(tail)
    requires forall v ::
      && ((Track, v) in tail <==> m.track.Some? && m.track.value == v)
      && ((Year, v) in tail <==> m.year.Some? && m.year.value == v)
    ensures var r := head + tail;
      && r != [] && r[0] == (Title, title)
      && (forall k :: 0 <= k < |r| ==> r[k].0 in {Title, Artist, Album, Track, Year})
      && InDocumentOrder(r)
      && forall v ::
        && ((Artist, v) in r <==> m.artist.Some? && m.artist.value == v)
        && ((Album, v) in r <==> m.album.Some? && m.album.value == v)
        && ((Track, v) in r <==> m.track.Some? && m.track.value == v)
        && ((Year, v) in r <==> m.year.Some? && m.year.value == v)
  {
    assert forall k :: 0 <= k < |head| ==> TagRank(head[k].0) < 3;
    assert forall k :: 0 <= k < |tail| ==> TagRank(tail[k].0) >= 3;
    OrderedConcat(head, tail, 3);
    TagAbsent(head, {Title, Artist, Album}, Track);
    TagAbsent(head, {Title, Artist, Album}, Year);
    TagAbsent(tail, {Track, Year}, Artist);
    TagAbsent(tail, {Track, Year}, Album);
  }

  /** A song's elements without metadata: artist and album always. */
  function ItemMusicFields(item: NfoItem): (r: seq<(Tag, string)>)
    ensures |r| >= 3 && r[0] == (Title, OrUnknown(item.title))
    ensures r[1] == (Artist, OrUnknown(item.artist)) && r[2] == (Album, OrUnknown(item.album))
    ensures forall k :: 0 <= k < |r| ==> r[k].0 in {Title, Artist, Album, Track}
    ensures InDocumentOrder(r)
    ensures forall v :: (Track, v) in r <==> item.track.Some? && item.track.value == v
  {
    [(Title, OrUnknown(item.title)), (Artist, OrUnknown(item.artist)), (Album, OrUnknown(item.album))]
    + Optional(Track, item.track)
  }

  /** An episode's elements. */
  function EpisodeFields(item: NfoItem): (r: seq<(Tag, string)>)
    ensures r != [] && r[0] == (Title, OrUnknown(item.title))
    ensures forall k :: 0 <= k < |r| ==> r[k].0 in {Title, Season, Episode}
    ensures InDocumentOrder(r)
    ensures forall v ::
      && ((Season, v) in r <==> item.season.Some? && item.season.value == v)
      && ((Episode, v) in r <==> item.episode.Some? && item.episode.value == v)
  {
    [(Title, OrUnknown(item.title))] + Optional(Season, item.season) + Optional(Episode, item.episode)
  }

  /** A movie's elements. */
  function MovieFields(item: NfoItem): (r: seq<(Tag, string)>)
    ensures r != [] && r[0] == (Title, OrUnknown(item.title))
    ensures forall k :: 0 <= k < |r| ==> r[k].0 in {Title, Year}
    ensures InDocumentOrder(r)
    ensures forall v :: (Year, v) in r <==> item.year.Some? && item.year.value == v
  {
    [(Title, OrUnknown(item.title))] + Optional(Year, item.year)
  }

  /** The child elements, in document order. */
  function NfoFields(item: NfoItem, metadata: Option<TrackMetadata>): (r: seq<(Tag, string)>)
    ensures r != [] && r[0] == (Title, OrUnknown(item.title))
    ensures forall k :: 0 <= k < |r| ==> r[k].0 in NfoTags(item.mediaType)
    ensures InDocumentOrder(r)
    ensures IsMusicType(item.mediaType) && metadata.None? ==>
      |r| >= 3 && r[1] == (Artist, OrUnknown(item.artist)) && r[2] == (Album, OrUnknown(item.album))
    ensures IsMusicType(item.mediaType) && metadata.None? ==>
      forall v :: (Track, v) in r <==> item.track.Some? && item.track.value == v
    ensures IsMusicType(item.mediaType) && metadata.Some? ==>
      forall v ::
        && ((Artist, v) in r <==> metadata.value.artist.Some? && metadata.value.artist.value == v)
        && ((Album, v) in r <==> metadata.value.album.Some? && metadata.value.album.value == v)
        && ((Track, v) in r <==> metadata.value.track.Some? && metadata.value.track.value == v)
        && ((Year, v) in r <==> metadata.value.year.Some? && metadata.value.year.value == v)
    ensures item.mediaType == "episode" ==>
      forall v ::
        && ((Season, v) in r <==> item.season.Some? && item.season.value == v)
        && ((Episode, v) in r <==> item.episode.Some? && item.episode.value == v)
    ensures !IsMusicType(item.mediaType) && item.mediaType != "episode" ==>
      forall v :: (Year, v) in r <==> item.year.Some? && item.year.value == v
  {
    if IsMusicType(item.mediaType) then
      if metadata.Some? then MetadataFields(OrUnknown(item.title), metadata.value)
      else ItemMusicFields(item)
    else if item.mediaType == "episode" then EpisodeFields(item)
    else MovieFields(item)
  }

  /** One line of the document: `    <tag>value</tag>`. */
  function Element(field: (Tag, string)): string
  {
    "    <" + TagName(field.0) + ">" + field.1 + "</" + TagName(field.0) + ">\n"
  }

  /** The lines of the fields, one per field. */
  function Lines(fields: seq<(Tag, string)>): seq<string>
  {
    seq(|fields|, k requires 0 <= k < |fields| => Element(fields[k]))
  }

  /** The text made of the given lines, in order. */
  function Concat(lines: seq<string>): string
  {
    if lines == [] then "" else lines[0] + Concat(lines[1..])
  }

  /** The text of the lines is the text of the first `k`, then line `k`,
      then the text of the rest. */
  lemma {:induction false} ConcatSplit(lines: seq<string>, k: nat)
    requires k < |lines|
    ensures Concat(lines) == Concat(lines[..k]) + lines[k] + Concat(lines[k + 1..])
  {
    if k > 0 {
      ConcatSplit(lines[1..], k - 1);
      assert lines[1..][..k - 1] == lines[1..k];
      assert lines[..k][1..] == lines[1..k];
      assert lines[1..][k..] == lines[k + 1..];
    }
  }

  const XmlHeader := "<?xml version=\"1.0\" encoding=\"UTF-8\" standalone=\"yes\"?>\n"

  /** A document made of a head, its first element, further elements and
      a tail starts with the head and first element and ends with the
      tail. */
  lemma DocumentShape(head: string, first: string, rest: string, tail: string)
    ensures StartsWith(head + (first + rest) + tail, head + first)
    ensures EndsWith(head + (first + rest) + tail, tail)
  {
    var r := head + (first + rest) + tail;
    assert r == (head + first) + (rest + tail);
    assert r[..|head + first|] == head + first;
    assert r[|r| - |tail|..] == tail;
  }

  /** A string sits in a concatenation right after what precedes it. */
  lemma MiddleOccurs(a: string, b: string, c: string)
    ensures OccursAt(a + b + c, b, |a|)
  {
    assert (a + b + c)[|a|..|a| + |b|] == b;
  }

  /** The document's opening: the XML declaration and the root element. */
  function NfoHead(mediaType: string): string
  {
    XmlHeader + "<" + NfoRoot(mediaType) + ">\n"
  }

  /** The document's closing: the end of the root element. */
  function NfoTail(mediaType: string): string
  {
    "</" + NfoRoot(mediaType) + ">\n"
  }

  /** In the text of some lines, line `k` comes right after the lines
      before it. */
  lemma ConcatOccurs(lines: seq<string>)
    ensures forall k :: 0 <= k < |lines| ==> OccursAt(Concat(lines), lines[k], |Concat(lines[..k])|)
  {
    forall k | 0 <= k < |lines|
      ensures OccursAt(Concat(lines), lines[k], |Concat(lines[..k])|)
    {
      ConcatSplit(lines, k);
      MiddleOccurs(Concat(lines[..k]), lines[k], Concat(lines[k + 1..]));
    }
  }

  /** `write_nfo_file`'s document: the XML declaration and the type's
      root element, then the lines of the fields in order, then the end of
      the root element. */
  function NfoContent(item: NfoItem, metadata: Option<TrackMetadata>): (r: string)
    ensures |NfoHead(item.mediaType)| + |NfoTail(item.mediaType)| <= |r|
    ensures r[|NfoHead(item.mediaType)|..|r| - |NfoTail(item.mediaType)|] == Concat(Lines(NfoFields(item, metadata)))
  {
    var head, body, tail := NfoHead(item.mediaType), Concat(Lines(NfoFields(item, metadata))), NfoTail(item.mediaType);
    assert (head + body + tail)[|head|..|head + body + tail| - |tail|] == body;
    head + body + tail
  }

  /** The document starts with the XML declaration, the type's root
      element and the title line, and ends by closing the root element. */
  lemma NfoContentFrame(item: NfoItem, metadata: Option<TrackMetadata>)
    ensures StartsWith(NfoContent(item, metadata), XmlHeader + "<" + NfoRoot(item.mediaType) + ">\n" + Element(NfoFields(item, metadata)[0]))
    ensures EndsWith(NfoContent(item, metadata), "</" + NfoRoot(item.mediaType) + ">\n")
  {
    var lines := Lines(NfoFields(item, metadata));
    DocumentShape(NfoHead(item.mediaType), lines[0], Concat(lines[1..]), NfoTail(item.mediaType));
  }
}
