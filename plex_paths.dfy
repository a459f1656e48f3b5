/** How the PlexKodiConnect download context menu
    (context.plexkodiconnect.download/default.py) recognises what was
    selected, which options its menus offer and how a batch download
    counts its results. Kodi's JSON-RPC library lookups and the copying
    itself are oracles: their answers are inputs. */
module PlexPaths {
  import opened Wrappers
  import opened Strings
  import opened PlexNames

  // ---------------------------------------------------------------- directory paths

  /** The start of the run of digits that ends `s`. */
  function TrailingRun(s: string): (d: nat)
    ensures d <= |s|
    ensures forall k :: d <= k < |s| ==> IsDigit(s[k])
    ensures d == 0 || !IsDigit(s[d - 1])
  {
    if s != [] && IsDigit(s[|s| - 1]) then TrailingRun(s[..|s| - 1]) else |s|
  }

  /** Digits after a non-digit form the whole trailing run. */
  lemma {:induction false} TrailingRunOf(pre: string, digits: string)
    requires forall k :: 0 <= k < |digits| ==> IsDigit(digits[k])
    requires pre == [] || !IsDigit(pre[|pre| - 1])
    ensures TrailingRun(pre + digits) == |pre|
    decreases |digits|
  {
    if digits != [] {
      assert (pre + digits)[..|pre + digits| - 1] == pre + digits[..|digits| - 1];
      TrailingRunOf(pre, digits[..|digits| - 1]);
    } else {
      assert pre + digits == pre;
    }
  }

  const TvPrefix := "videodb://tvshows/titles/"
  const ArtistPrefix := "musicdb://artists/"
  const AlbumsPrefix := "musicdb://albums"

  /** `re.search(r'videodb://tvshows/titles/(\d+)/$', base)`: the show id
      of a TV-show directory. */
  function TvShowDirId(base: string): (r: Option<string>)
    ensures r.Some? ==> IsDigits(r.value) && EndsWith(base, TvPrefix + r.value + "/")
  {
    if base == [] || base[|base| - 1] != '/' then None
    else
      var body := base[..|base| - 1];
      var d := TrailingRun(body);
      if d < |body| && EndsWith(body[..d], TvPrefix) then
        assert base == body[..d] + body[d..] + "/";
        assert base[|base| - |TvPrefix + body[d..] + "/"|..] == TvPrefix + body[d..] + "/";
        Some(body[d..])
      else None
  }

  /** Every path ending in a TV-show directory is recognised, with its
      id. */
  lemma TvShowDirComplete(x: string, id: string)
    requires IsDigits(id)
    ensures TvShowDirId(x + TvPrefix + id + "/") == Some(id)
  {
    var base := x + TvPrefix + id + "/";
    var body := base[..|base| - 1];
    assert body == (x + TvPrefix) + id;
    TrailingRunOf(x + TvPrefix, id);
    assert body[..|x + TvPrefix|] == x + TvPrefix;
  }

  /** `-?\d+`: a season number as the pattern accepts it. */
  predicate IsSeasonText(season: string)
  {
    IsDigits(season) || (season != [] && season[0] == '-' && IsDigits(season[1..]))
  }

  /** The `/(-?\d+)` that ends `body`: what precedes the slash, and the
      season. */
  function SeasonSuffix(body: string): (r: Option<(string, string)>)
    ensures r.Some? ==> IsSeasonText(r.value.1)
  {
    var d2 := TrailingRun(body);
    if d2 == |body| then None
    else
      var rest := body[..d2];
      var negative := rest != [] && rest[|rest| - 1] == '-';
      var rest2 := if negative then rest[..|rest| - 1] else rest;
      if rest2 == [] || rest2[|rest2| - 1] != '/' then None
      else
        assert negative ==> ("-" + body[d2..])[1..] == body[d2..];
        Some((rest2[..|rest2| - 1], (if negative then "-" else "") + body[d2..]))
  }

  /** `re.search(r'videodb://tvshows/titles/(\d+)/(-?\d+)/$', base)`: the
      show id and the (possibly negative) season of a season directory. */
  function SeasonDirIds(base: string): (r: Option<(string, string)>)
    ensures r.Some? ==> IsDigits(r.value.0) && IsSeasonText(r.value.1)
  {
    if base == [] || base[|base| - 1] != '/' then None
    else
      match SeasonSuffix(base[..|base| - 1])
      case None => None
      case Some((body1, season)) =>
        var d1 := TrailingRun(body1);
        if d1 < |body1| && EndsWith(body1[..d1], TvPrefix) then Some((body1[d1..], season)) else None
  }

  /** The show part of a season directory: the digits after the prefix. */
  lemma ShowPart(x: string, show: string)
    requires IsDigits(show)
    ensures var b := x + TvPrefix + show;
            TrailingRun(b) == |x + TvPrefix| < |b| && EndsWith(b[..|x + TvPrefix|], TvPrefix) && b[|x + TvPrefix|..] == show
  {
    var b := x + TvPrefix + show;
    TrailingRunOf(x + TvPrefix, show);
    assert b[..|x + TvPrefix|] == x + TvPrefix;
    assert (x + TvPrefix)[|x|..] == TvPrefix;
  }

  /** The season part of a season directory is found after the show
      part's slash. */
  lemma SeasonPart(showPart: string, season: string)
    requires IsSeasonText(season)
    ensures SeasonSuffix(showPart + "/" + season) == Some((showPart, season))
  {
    if IsDigits(season) {
      SeasonPositive(showPart, season);
    } else {
      assert showPart + "/" + season == showPart + "/-" + season[1..];
      SeasonNegative(showPart, season[1..]);
      assert "-" + season[1..] == season;
    }
  }

  lemma SeasonPositive(showPart: string, digits: string)
    requires IsDigits(digits)
    ensures SeasonSuffix(showPart + "/" + digits) == Some((showPart, digits))
  {
    var pre := showPart + "/";
    var body := pre + digits;
    TrailingRunOf(pre, digits);
    assert body[..|pre|] == pre;
    assert body[|pre|..] == digits;
    assert pre[..|showPart|] == showPart;
    assert [] + digits == digits;
  }

  lemma SeasonNegative(showPart: string, digits: string)
    requires IsDigits(digits)
    ensures SeasonSuffix(showPart + "/-" + digits) == Some((showPart, "-" + digits))
  {
    var pre := showPart + "/-";
    var body := pre + digits;
    TrailingRunOf(pre, digits);
    assert body[..|pre|] == pre;
    assert body[|pre|..] == digits;
    assert pre[..|pre| - 1] == showPart + "/";
    assert (showPart + "/")[..|showPart|] == showPart;
  }

  /** Every path ending in a season directory is recognised, with its show
      id and its season as written. */
  lemma SeasonDirComplete(x: string, show: string, season: string)
    requires IsDigits(show) && IsSeasonText(season)
    ensures SeasonDirIds(x + TvPrefix + show + "/" + season + "/") == Some((show, season))
  {
    var showPart := x + TvPrefix + show;
    var base := showPart + "/" + season + "/";
    assert base[..|base| - 1] == showPart + "/" + season;
    ShowPart(x, show);
    SeasonPart(showPart, season);
  }

  /** No path is both a TV-show directory and a season directory, so the
      order the two patterns are tried in does not matter. */
  lemma TvShowSeasonExclusive(base: string)
    ensures !(TvShowDirId(base).Some? && SeasonDirIds(base).Some?)
  {
  }

  /** `re.search(r'musicdb://artists/(\d+)/?$', base)`: the artist id of
      an artist directory. */
  function ArtistDirId(base: string): (r: Option<string>)
    ensures r.Some? ==> IsDigits(r.value)
  {
    var body := if base != [] && base[|base| - 1] == '/' then base[..|base| - 1] else base;
    var d := TrailingRun(body);
    if d < |body| && EndsWith(body[..d], ArtistPrefix) then Some(body[d..]) else None
  }

  /** Every path ending in an artist directory, with or without the final
      slash, is recognised, with its id. */
  lemma ArtistDirComplete(x: string, id: string, slash: bool)
    requires IsDigits(id)
    ensures ArtistDirId(x + ArtistPrefix + id + (if slash then "/" else "")) == Some(id)
  {
    var base := x + ArtistPrefix + id + (if slash then "/" else "");
    var body := x + ArtistPrefix + id;
    assert (if base != [] && base[|base| - 1] == '/' then base[..|base| - 1] else base) == body by {
      if !slash {
        assert base == body;
        assert base[|base| - 1] == id[|id| - 1];
      }
    }
    TrailingRunOf(x + ArtistPrefix, id);
    assert body[..|x + ArtistPrefix|] == x + ArtistPrefix;
    assert body[|x + ArtistPrefix|..] == id;
  }

  /** `re.search(r'musicdb://(?:albums|artists/\d+)/(\d+)/?$', base)`: the
      album id of an album directory, listed alone or under an artist. */
  function AlbumDirId(base: string): (r: Option<string>)
    ensures r.Some? ==> IsDigits(r.value)
  {
    var body := if base != [] && base[|base| - 1] == '/' then base[..|base| - 1] else base;
    var d := TrailingRun(body);
    if d == |body| then None
    else
      var pre := body[..d];
      if pre == [] || pre[|pre| - 1] != '/' then None
      else
        var pre2 := pre[..|pre| - 1];
        if EndsWith(pre2, AlbumsPrefix) then Some(body[d..])
        else
          var d1 := TrailingRun(pre2);
          if d1 < |pre2| && EndsWith(pre2[..d1], ArtistPrefix) then Some(body[d..]) else None
  }

  /** Every path ending in an album directory, listed alone
      (`musicdb://albums/<id>`) or under an artist
      (`musicdb://artists/<artist>/<id>`), with or without the final slash,
      is recognised, with the album's id. */
  lemma AlbumDirComplete(x: string, artist: Option<string>, id: string, slash: bool)
    requires IsDigits(id) && (artist.Some? ==> IsDigits(artist.value))
    ensures var parent := if artist.Some? then x + ArtistPrefix + artist.value else x + AlbumsPrefix;
            AlbumDirId(parent + "/" + id + (if slash then "/" else "")) == Some(id)
  {
    var parent := if artist.Some? then x + ArtistPrefix + artist.value else x + AlbumsPrefix;
    AlbumBody(parent, id, slash);
    if artist.Some? {
      AlbumUnderArtist(x, artist.value);
    } else {
      assert (x + AlbumsPrefix)[|x|..] == AlbumsPrefix;
    }
  }

  /** The album id is the trailing run after `<parent>/`, whatever the
      final slash. */
  lemma AlbumBody(parent: string, id: string, slash: bool)
    requires IsDigits(id)
    ensures var base := parent + "/" + id + (if slash then "/" else "");
            var body := if base != [] && base[|base| - 1] == '/' then base[..|base| - 1] else base;
            TrailingRun(body) == |parent| + 1 < |body| && body[..|parent| + 1] == parent + "/" && body[|parent| + 1..] == id
  {
    var base := parent + "/" + id + (if slash then "/" else "");
    var body := (parent + "/") + id;
    if !slash {
      assert base == body;
      assert base[|base| - 1] == id[|id| - 1];
    } else {
      assert base[..|base| - 1] == body;
    }
    TrailingRunOf(parent + "/", id);
    assert body[..|parent| + 1] == parent + "/";
    assert body[|parent| + 1..] == id;
  }

  /** Under an artist, the parent ends in digits, not in `albums`, and is
      an artist directory. */
  lemma AlbumUnderArtist(x: string, artist: string)
    requires IsDigits(artist)
    ensures var parent := x + ArtistPrefix + artist;
            !EndsWith(parent, AlbumsPrefix) &&
            TrailingRun(parent) == |x + ArtistPrefix| < |parent| && EndsWith(parent[..|x + ArtistPrefix|], ArtistPrefix)
  {
    var parent := x + ArtistPrefix + artist;
    assert parent[|parent| - 1] == artist[|artist| - 1];
    LastOfSuffix(parent, AlbumsPrefix);
    TrailingRunOf(x + ArtistPrefix, artist);
    assert parent[..|x + ArtistPrefix|] == x + ArtistPrefix;
    assert (x + ArtistPrefix)[|x|..] == ArtistPrefix;
  }

  /** No path is both an artist directory and an album directory. */
  lemma ArtistAlbumExclusive(base: string)
    ensures !(ArtistDirId(base).Some? && AlbumDirId(base).Some?)
  {
    var body := if base != [] && base[|base| - 1] == '/' then base[..|base| - 1] else base;
    var d := TrailingRun(body);
    if d < |body| && EndsWith(body[..d], ArtistPrefix) {
      var pre := body[..d];
      var pre2 := pre[..|pre| - 1];
      EndsWithAt(pre, ArtistPrefix, 16);
      EndsWithAt(pre, ArtistPrefix, 15);
      assert pre2[|pre2| - 1] == 's' && pre2[|pre2| - 2] == 't';
    }
  }

  /** A text ends with the last character of any suffix it has. */
  lemma LastOfSuffix(s: string, p: string)
    requires p != []
    ensures EndsWith(s, p) ==> s[|s| - 1] == p[|p| - 1]
  {
    if EndsWith(s, p) {
      EndsWithAt(s, p, |p| - 1);
    }
  }

  /** The characters of a suffix sit at the end of the text. */
  lemma EndsWithAt(s: string, p: string, i: nat)
    requires EndsWith(s, p) && i < |p|
    ensures s[|s| - |p| + i] == p[i]
  {
    assert s[|s| - |p|..][i] == p[i];
  }

  /** What a selected path is, as far as the path alone tells. */
  datatype Selection =
    | TvShowDir(showId: string)
    | SeasonDir(showId: string, season: string)
    | ArtistDir(artistId: string)
    | AlbumDir(albumId: string)
    | OtherPath

  /** The directory checks of `get_plex_item_info`, made on the path
      without its query string: a video-library path may be a show or a
      season directory, a music-library path an artist or an album
      directory. */
  function ClassifyDir(path: string): (r: Selection)
    ensures !StartsWith(path, "videodb://") && !StartsWith(path, "musicdb://") ==> r == OtherPath
    ensures r.TvShowDir? || r.SeasonDir? ==> StartsWith(path, "videodb://")
    ensures r.ArtistDir? || r.AlbumDir? ==> StartsWith(path, "musicdb://")
    ensures var base := SplitOnce(path, '?').0;
            StartsWith(path, "videodb://") ==>
              (TvShowDirId(base).Some? ==> r == TvShowDir(TvShowDirId(base).value)) &&
              (SeasonDirIds(base).Some? ==> r == SeasonDir(SeasonDirIds(base).value.0, SeasonDirIds(base).value.1)) &&
              (r == OtherPath <==> TvShowDirId(base).None? && SeasonDirIds(base).None?)
    ensures var base := SplitOnce(path, '?').0;
            StartsWith(path, "musicdb://") ==>
              (ArtistDirId(base).Some? ==> r == ArtistDir(ArtistDirId(base).value)) &&
              (AlbumDirId(base).Some? ==> r == AlbumDir(AlbumDirId(base).value)) &&
              (r == OtherPath <==> ArtistDirId(base).None? && AlbumDirId(base).None?)
  {
    var base := SplitOnce(path, '?').0;
    TvShowSeasonExclusive(base);
    ArtistAlbumExclusive(base);
    if StartsWith(path, "videodb://") then
      match TvShowDirId(base)
      case Some(id) => TvShowDir(id)
      case None =>
        match SeasonDirIds(base)
        case Some((show, season)) => SeasonDir(show, season)
        case None => OtherPath
    else if StartsWith(path, "musicdb://") then
      match ArtistDirId(base)
      case Some(id) => ArtistDir(id)
      case None =>
        match AlbumDirId(base)
        case Some(id) => AlbumDir(id)
        case None => OtherPath
    else OtherPath
  }

  /** The query string goes before the directory checks: a path is
      classified by what precedes its first `?`. */
  lemma {:induction false} QueryStripped(base: string, query: string)
    requires '?' !in base && (query == [] || query[0] == '?')
    ensures SplitOnce(base + query, '?').0 == base
    decreases |base|
  {
    if base != [] {
      var whole := base + query;
      assert whole[0] == base[0] && base[0] != '?';
      assert whole[1..] == base[1..] + query;
      QueryStripped(base[1..], query);
      assert SplitOnce(whole, '?').0 == [base[0]] + SplitOnce(whole[1..], '?').0;
      assert [base[0]] + base[1..] == base;
    } else {
      assert base + query == query;
    }
  }

  // ---------------------------------------------------------------- accepted items

  /** The digits of a `plex_id=<digits>` starting at index `i`, if one
      does. */
  function PlexIdAt(path: string, i: nat): (r: Option<string>)
    requires i <= |path|
    ensures r.Some? ==> IsDigits(r.value) && OccursAt(path, "plex_id=" + r.value, i)
    ensures r.Some? ==> i + 8 + |r.value| == |path| || !IsDigit(path[i + 8 + |r.value|])
  {
    if i + 9 <= |path| && OccursAt(path, "plex_id=", i) && IsDigit(path[i + 8]) then
      var e := DigitEnd(path, i + 8);
      assert path[i..e] == "plex_id=" + path[i + 8..e];
      Some(path[i + 8..e])
    else None
  }

  /** `re.search(r'plex_id=(\d+)', path)` from index `i` on: the digits
      after the leftmost `plex_id=` that is followed by one. */
  function PlexIdFrom(path: string, i: nat): (r: Option<string>)
    requires i <= |path|
    ensures r.Some? ==> IsDigits(r.value) && Contains(path, "plex_id=" + r.value)
    ensures r.None? <==> forall j :: i <= j <= |path| ==> PlexIdAt(path, j).None?
    decreases |path| - i
  {
    if i + 9 > |path| then
      assert forall j :: i <= j <= |path| ==> PlexIdAt(path, j).None?;
      None
    else if PlexIdAt(path, i).Some? then
      assert OccursAt(path, "plex_id=" + PlexIdAt(path, i).value, i);
      PlexIdAt(path, i)
    else PlexIdFrom(path, i + 1)
  }

  /** The id found is the one at the leftmost `plex_id=<digits>`. */
  lemma {:induction false} PlexIdLeftmost(path: string, i: nat, j: nat)
    requires i <= j <= |path| && PlexIdAt(path, j).Some?
    requires forall k :: i <= k < j ==> PlexIdAt(path, k).None?
    ensures PlexIdFrom(path, i) == PlexIdAt(path, j)
    decreases j - i
  {
    if i < j {
      assert PlexIdAt(path, i).None?;
      PlexIdLeftmost(path, i + 1, j);
    }
  }

  function PlexIdOf(path: string): Option<string>
  {
    PlexIdFrom(path, 0)
  }

  /** A path without `plex_id=` carries no Plex id. */
  lemma {:induction false} NoPlexIdWithoutKey(path: string, i: nat)
    requires i <= |path| && !Contains(path, "plex_id=")
    ensures PlexIdFrom(path, i).None?
    decreases |path| - i
  {
    if i + 9 <= |path| {
      assert !OccursAt(path, "plex_id=", i);
      NoPlexIdWithoutKey(path, i + 1);
    }
  }

  predicate IsNetworkPath(path: string)
  {
    StartsWith(path, "smb://") || StartsWith(path, "nfs://") || StartsWith(path, "http://") || StartsWith(path, "https://")
  }

  predicate IsPlexPath(path: string)
  {
    Contains(Lower(path), "plex") ||
    StartsWith(path, "plugin://plugin.video.plexkodiconnect") ||
    StartsWith(path, "plugin://plugin.audio.plexkodiconnect")
  }

  /** The final check of `get_plex_item_info`: only network, Plex and
      music-library paths are downloadable; any other path gives no item. */
  function AcceptedPath(path: string): (r: Option<string>)
    ensures r.Some? <==> IsNetworkPath(path) || IsPlexPath(path) || StartsWith(path, "musicdb://")
    ensures r.Some? ==> r.value == path
  {
    if IsNetworkPath(path) || IsPlexPath(path) || StartsWith(path, "musicdb://") then Some(path) else None
  }

  /** The two PlexKodiConnect plugin prefixes already contain `plex`: the
      substring test alone accepts every such path. */
  lemma PluginPathsContainPlex(path: string)
    requires StartsWith(path, "plugin://plugin.video.plexkodiconnect") || StartsWith(path, "plugin://plugin.audio.plexkodiconnect")
    ensures Contains(Lower(path), "plex")
  {
    var head := path[..37];
    assert head == "plugin://plugin.video.plexkodiconnect" || head == "plugin://plugin.audio.plexkodiconnect";
    var l := Lower(path);
    forall i | 22 <= i < 26
      ensures l[i] == "plex"[i - 22]
    {
      assert path[i] == head[i];
    }
    assert l[22..26] == "plex";
    assert OccursAt(l, "plex", 22);
  }

  /** Two strings that differ in their first character do not start one
      with the other. */
  lemma NotStartsWith(s: string, p: string)
    requires s != [] && p != [] && s[0] != p[0]
    ensures !StartsWith(s, p)
  {
    if |p| <= |s| {
      assert s[..|p|][0] == s[0];
    }
  }

  /** A local file path outside the libraries is never downloadable. */
  lemma LocalPathRejected(path: string)
    requires !Contains(Lower(path), "plex") && StartsWith(path, "/")
    ensures AcceptedPath(path).None?
  {
    assert path[0] == '/';
    NotStartsWith(path, "smb://");
    NotStartsWith(path, "nfs://");
    NotStartsWith(path, "http://");
    NotStartsWith(path, "https://");
    NotStartsWith(path, "musicdb://");
    NotStartsWith(path, "plugin://plugin.video.plexkodiconnect");
    NotStartsWith(path, "plugin://plugin.audio.plexkodiconnect");
  }

  // ---------------------------------------------------------------- menus

  /** What a menu entry does. */
  datatype Action = Cancel | DownloadItem | DownloadSeason | DownloadShow | DownloadAlbum | DownloadArtist | NoAction

  /** The options of the episode and song menus: the item itself, then each
      optional entry that is enabled, in order. */
  function MenuOptions(first: Action, second: Action, withSecond: bool, third: Action, withThird: bool): seq<Action>
  {
    [first] + (if withSecond then [second] else []) + (if withThird then [third] else [])
  }

  /** Builds the options as the menu code does, recording each optional
      entry's index as `len(options) - 1` right after appending it, and -1
      when it is left out. */
  method BuildMenu(first: Action, second: Action, withSecond: bool, third: Action, withThird: bool)
    returns (options: seq<Action>, secondIdx: int, thirdIdx: int)
    ensures options == MenuOptions(first, second, withSecond, third, withThird)
    ensures withSecond ==> 0 <= secondIdx < |options| && options[secondIdx] == second
    ensures !withSecond ==> secondIdx == -1
    ensures withThird ==> 0 <= thirdIdx < |options| && options[thirdIdx] == third
    ensures !withThird ==> thirdIdx == -1
    ensures secondIdx != 0 && thirdIdx != 0 && (withSecond && withThird ==> secondIdx != thirdIdx)
    ensures secondIdx == SecondIndex(withSecond) && thirdIdx == ThirdIndex(withSecond, withThird)
  {
    options := [first];
    secondIdx := -1;
    thirdIdx := -1;
    if withSecond {
      options := options + [second];
      secondIdx := |options| - 1;
    }
    if withThird {
      options := options + [third];
      thirdIdx := |options| - 1;
    }
  }

  /** The index of an optional entry, -1 when absent. */
  function SecondIndex(withSecond: bool): int
  {
    if withSecond then 1 else -1
  }

  function ThirdIndex(withSecond: bool, withThird: bool): int
  {
    if !withThird then -1 else if withSecond then 2 else 1
  }

  /** The `if/elif` chain on the dialog's answer. */
  function Dispatch(choice: int, first: Action, second: Action, secondIdx: int, third: Action, thirdIdx: int): Action
  {
    if choice == -1 then Cancel
    else if choice == 0 then first
    else if choice == secondIdx then second
    else if choice == thirdIdx then third
    else NoAction
  }

  /** Whichever entries are enabled, choosing an entry does what that entry
      says, cancelling cancels, and a menu of one entry is skipped. */
  lemma {:induction false} DispatchMatchesOptions(first: Action, second: Action, withSecond: bool, third: Action, withThird: bool, choice: int)
    requires first != Cancel && second != Cancel && third != Cancel
    ensures var options := MenuOptions(first, second, withSecond, third, withThird);
            (0 <= choice < |options| ==>
               Dispatch(choice, first, second, SecondIndex(withSecond), third, ThirdIndex(withSecond, withThird)) == options[choice]) &&
            Dispatch(-1, first, second, SecondIndex(withSecond), third, ThirdIndex(withSecond, withThird)) == Cancel &&
            (|options| == 1 <==> !withSecond && !withThird)
  {
    var options := MenuOptions(first, second, withSecond, third, withThird);
    if withSecond && withThird {
      assert options == [first, second, third];
    } else if withSecond {
      assert options == [first, second];
    } else if withThird {
      assert options == [first, third];
    } else {
      assert options == [first];
    }
  }

  /** The show menu: the whole show first, then one entry per season, so
      entry `k` downloads the season listed at `k - 1`. */
  function ShowMenuChoice(choice: int, seasonCount: nat): (r: (Action, Option<nat>))
    ensures choice == -1 ==> r.0 == Cancel
    ensures choice == 0 ==> r == (DownloadShow, None)
    ensures 1 <= choice <= seasonCount ==> r.0 == DownloadSeason && r.1 == Some(choice - 1) && choice - 1 < seasonCount
  {
    if choice == -1 then (Cancel, None)
    else if choice == 0 then (DownloadShow, None)
    else if 1 <= choice <= seasonCount then (DownloadSeason, Some(choice - 1))
    else (NoAction, None)
  }

  // ---------------------------------------------------------------- batch downloads

  /** An episode of a season or show download: its library file and
      whether downloading it succeeds. */
  datatype EpisodeEntry = EpisodeEntry(file: string, downloads: bool)

  /** The episodes handled before the user cancelled at `canceledAt`. */
  function Processed<T>(items: seq<T>, canceledAt: nat): (r: seq<T>)
    ensures |r| <= |items| && r == items[..|r|]
  {
    if canceledAt < |items| then items[..canceledAt] else items
  }

  /** Episodes that carry a Plex id and whose download ends as `ok`. */
  function CountEpisodes(xs: seq<EpisodeEntry>, ok: bool): nat
  {
    if xs == [] then 0
    else
      var last := xs[|xs| - 1];
      CountEpisodes(xs[..|xs| - 1], ok) + (if PlexIdOf(last.file).Some? && last.downloads == ok then 1 else 0)
  }

  /** Episodes that carry a Plex id. */
  function CountWithId(xs: seq<EpisodeEntry>): (n: nat)
    ensures n <= |xs|
  {
    if xs == [] then 0
    else CountWithId(xs[..|xs| - 1]) + (if PlexIdOf(xs[|xs| - 1].file).Some? then 1 else 0)
  }

  /** `download_season` / `download_show`: episodes are downloaded in order
      until the user cancels; one with a Plex id counts as downloaded or
      failed, one without is passed over uncounted. */
  method EpisodeBatch(episodes: seq<EpisodeEntry>, canceledAt: nat) returns (success: nat, fail: nat)
    ensures success == CountEpisodes(Processed(episodes, canceledAt), true)
    ensures fail == CountEpisodes(Processed(episodes, canceledAt), false)
  {
    success, fail := 0, 0;
    var n := |Processed(episodes, canceledAt)|;
    var i := 0;
    while i < n
      invariant 0 <= i <= n
      invariant success == CountEpisodes(episodes[..i], true)
      invariant fail == CountEpisodes(episodes[..i], false)
    {
      assert episodes[..i + 1][..i] == episodes[..i];
      if PlexIdOf(episodes[i].file).Some? {
        if episodes[i].downloads {
          success := success + 1;
        } else {
          fail := fail + 1;
        }
      }
      i := i + 1;
    }
  }

  /** Downloaded and failed episodes together are exactly the handled
      episodes with a Plex id, so never more than were handled. */
  lemma {:induction false} EpisodeBatchTotals(xs: seq<EpisodeEntry>)
    ensures CountEpisodes(xs, true) + CountEpisodes(xs, false) == CountWithId(xs) <= |xs|
  {
    if xs != [] {
      EpisodeBatchTotals(xs[..|xs| - 1]);
    }
  }

  /** A song of an album or artist download: whether a Plex id or download
      URL is found for it (in its path, as a direct Plex URL, or by a Plex
      search) and whether downloading it succeeds. */
  datatype SongEntry = SongEntry(resolvable: bool, downloads: bool)

  function CountSongs(xs: seq<SongEntry>, resolvable: bool, ok: bool): nat
  {
    if xs == [] then 0
    else
      var last := xs[|xs| - 1];
      CountSongs(xs[..|xs| - 1], resolvable, ok) + (if last.resolvable == resolvable && (!resolvable || last.downloads == ok) then 1 else 0)
  }

  /** `download_album` / `download_artist`: a song that cannot be resolved
      is skipped and counted as skipped; every other one counts as
      downloaded or failed. */
  method SongBatch(songs: seq<SongEntry>, canceledAt: nat) returns (success: nat, fail: nat, skipped: nat)
    ensures success == CountSongs(Processed(songs, canceledAt), true, true)
    ensures fail == CountSongs(Processed(songs, canceledAt), true, false)
    ensures skipped == CountSongs(Processed(songs, canceledAt), false, false)
    ensures success + fail + skipped == |Processed(songs, canceledAt)|
  {
    success, fail, skipped := 0, 0, 0;
    var n := |Processed(songs, canceledAt)|;
    var i := 0;
    while i < n
      invariant 0 <= i <= n
      invariant success == CountSongs(songs[..i], true, true)
      invariant fail == CountSongs(songs[..i], true, false)
      invariant skipped == CountSongs(songs[..i], false, false)
      invariant success + fail + skipped == i
    {
      assert songs[..i + 1][..i] == songs[..i];
      if !songs[i].resolvable {
        skipped := skipped + 1;
      } else if songs[i].downloads {
        success := success + 1;
      } else {
        fail := fail + 1;
      }
      i := i + 1;
    }
  }
}
