/** Shared helpers of the Suwayomi add-on
    (plugin.video.suwayomi/resources/lib/helpers.py): the per-manga reading
    settings file and the source filters read from the add-on settings. */
module SuwaHelpers {
  import opened Wrappers
  import opened Strings

  /** A JSON value stored in a manga's reading settings. */
  datatype Value = Bool(b: bool) | Text(s: string) | Int(i: int)

  predicate Truthy(v: Value)
  {
    match v
    case Bool(b) => b
    case Text(s) => s != []
    case Int(i) => i != 0
  }

  /** One manga's reading settings. */
  type Entry = map<string, Value>

  const ConfiguredKey := "_configured"

  /** The key a manga's settings are stored under: `str(manga_id)`. */
  function MangaKey(mangaId: int): (k: string)
    ensures k != []
  {
    IntToStr(mangaId)
  }

  /** Distinct mangas are stored under distinct keys. */
  lemma MangaKeyInjective(a: int, b: int)
    requires a != b
    ensures MangaKey(a) != MangaKey(b)
  {
    if MangaKey(a) == MangaKey(b) {
      IntToStrInjective(a, b);
    }
  }

  /** `manga_settings.json`: every manga's reading settings keyed by
      `str(manga_id)`. Each operation loads the whole file and writes the
      whole file back; `saveOk` says whether the write succeeded (a failed
      write leaves the file as it was). */
  class MangaSettingsFile {
    var settings: map<string, Entry>

    constructor (settings: map<string, Entry>)
      ensures this.settings == settings
    {
      this.settings := settings;
    }

    /** `get_manga_reading_settings`: the manga's entry, or no settings at
        all for a manga never stored. */
    function Get(mangaId: int): (e: Entry)
      reads this
      ensures MangaKey(mangaId) in settings ==> e == settings[MangaKey(mangaId)]
      ensures MangaKey(mangaId) !in settings ==> e == map[]
    {
      if MangaKey(mangaId) in settings then settings[MangaKey(mangaId)] else map[]
    }

    /** `is_manga_configured`: the entry's `_configured` value, false when
        absent. */
    predicate IsConfigured(mangaId: int)
      reads this
    {
      ConfiguredKey in Get(mangaId) && Truthy(Get(mangaId)[ConfiguredKey])
    }

    /** An unknown manga has no settings and is not configured. */
    lemma UnknownMangaUnconfigured(mangaId: int)
      requires MangaKey(mangaId) !in settings
      ensures Get(mangaId) == map[] && !IsConfigured(mangaId)
    {
    }

    /** `set_manga_reading_settings`: replaces that manga's entry and no
        other. */
    method Set(mangaId: int, entry: Entry, saveOk: bool) returns (ok: bool)
      modifies this
      ensures ok == saveOk
      ensures settings == if saveOk then old(settings)[MangaKey(mangaId) := entry] else old(settings)
      ensures saveOk ==> Get(mangaId) == entry
      ensures forall other :: other != mangaId ==> Get(other) == old(Get(other))
    {
      if saveOk {
        settings := settings[MangaKey(mangaId) := entry];
        forall other | other != mangaId
          ensures Get(other) == old(Get(other))
        {
          MangaKeyInjective(other, mangaId);
        }
      }
      ok := saveOk;
    }

    /** `mark_manga_configured` (and its twin in default.py, which creates
        the empty entry first): the manga becomes configured, its other
        settings are kept, and no other manga changes. */
    method MarkConfigured(mangaId: int, saveOk: bool)
      modifies this
      ensures settings == if saveOk then old(settings)[MangaKey(mangaId) := old(Get(mangaId))[ConfiguredKey := Bool(true)]]
                          else old(settings)
      ensures saveOk ==> IsConfigured(mangaId)
      ensures forall k :: k in old(Get(mangaId)) && k != ConfiguredKey ==> k in Get(mangaId) && Get(mangaId)[k] == old(Get(mangaId))[k]
      ensures forall other :: other != mangaId ==> Get(other) == old(Get(other))
    {
      var entry := Get(mangaId);
      entry := entry[ConfiguredKey := Bool(true)];
      var _ := Set(mangaId, entry, saveOk);
    }
  }

  // ---------------------------------------------------------------- source filters

  /** Each item lower-cased. */
  function LowerAll(xs: seq<string>): (r: seq<string>)
    ensures |r| == |xs|
    ensures forall k :: 0 <= k < |xs| ==> r[k] == Lower(xs[k])
  {
    if xs == [] then [] else [Lower(xs[0])] + LowerAll(xs[1..])
  }

  /** A list item, lower-cased, is still a list item. */
  lemma LowerListItem(x: string)
    requires ListItem(x)
    ensures ListItem(Lower(x))
  {
    var l := Lower(x);
    assert !IsSpace(x[0]) && !IsSpace(x[|x| - 1]);
    assert !IsSpace(l[0]) && !IsSpace(l[|l| - 1]);
    StripOfEnds(l);
    assert forall i :: 0 <= i < |l| ==> l[i] != ',';
  }

  /** `get_language_filter`: the languages of the comma-separated setting,
      stripped and lower-cased, or `None` when none is left. */
  function LanguageFilter(setting: string): (r: Option<seq<string>>)
    ensures r.None? <==> SplitList(setting, ',') == []
    ensures r.Some? ==> r.value == LowerAll(SplitList(setting, ','))
    ensures r.Some? ==> r.value != [] && forall k :: 0 <= k < |r.value| ==> ListItem(r.value[k]) && Lower(r.value[k]) == r.value[k]
  {
    var langs := LowerAll(SplitList(setting, ','));
    forall k | 0 <= k < |langs|
      ensures ListItem(langs[k]) && Lower(langs[k]) == langs[k]
    {
      LowerListItem(SplitList(setting, ',')[k]);
      LowerIdempotent(SplitList(setting, ',')[k]);
    }
    if langs == [] then None else Some(langs)
  }

  /** `get_hidden_sources`: the entries of the comma-separated setting,
      stripped, lower-cased, empty ones dropped. */
  function HiddenSources(setting: string): (r: seq<string>)
    ensures r == LowerAll(SplitList(setting, ','))
    ensures forall k :: 0 <= k < |r| ==> ListItem(r[k]) && Lower(r[k]) == r[k]
  {
    var hidden := LowerAll(SplitList(setting, ','));
    forall k | 0 <= k < |hidden|
      ensures ListItem(hidden[k]) && Lower(hidden[k]) == hidden[k]
    {
      LowerListItem(SplitList(setting, ',')[k]);
      LowerIdempotent(SplitList(setting, ',')[k]);
    }
    hidden
  }

  /** A blank setting hides nothing and filters no language. */
  lemma BlankSettingFiltersNothing(setting: string)
    requires forall i :: 0 <= i < |setting| ==> IsSpace(setting[i])
    ensures HiddenSources(setting) == [] && LanguageFilter(setting) == None
  {
    SplitListBlank(setting, ',');
  }

  /** A catalogue source as the server lists it. */
  datatype Source = Source(displayName: Option<string>, name: string, lang: string)

  /** The lower-cased name hidden entries are matched against: the display
      name, or the name when there is none. */
  function SourceName(source: Source): string
  {
    Lower(if source.displayName.Some? && source.displayName.value != [] then source.displayName.value else source.name)
  }

  /** What `is_source_visible` decides: no hidden entry occurs in the
      source's name, and, when a non-empty language filter is given, the
      source's language is in it. */
  predicate Visible(source: Source, langFilter: Option<seq<string>>, hidden: seq<string>)
  {
    (forall i :: 0 <= i < |hidden| ==> !Contains(SourceName(source), hidden[i])) &&
    (langFilter.Some? && langFilter.value != [] ==> Lower(source.lang) in langFilter.value)
  }

  /** `is_source_visible`: the hidden entries are tried in order and the
      first one found in the name hides the source. */
  method IsSourceVisible(source: Source, langFilter: Option<seq<string>>, hidden: seq<string>) returns (visible: bool)
    ensures visible <==> Visible(source, langFilter, hidden)
  {
    var name := SourceName(source);
    var i := 0;
    while i < |hidden|
      invariant 0 <= i <= |hidden|
      invariant forall j :: 0 <= j < i ==> !Contains(name, hidden[j])
    {
      if Contains(name, hidden[i]) {
        return false;
      }
      i := i + 1;
    }
    if langFilter.Some? && langFilter.value != [] && Lower(source.lang) !in langFilter.value {
      return false;
    }
    return true;
  }

  /** With nothing hidden and no language filter every source is visible;
      a hidden entry found in the name hides the source whatever the
      filter. */
  lemma VisibilityExtremes(source: Source, langFilter: Option<seq<string>>, hidden: seq<string>, i: int)
    ensures Visible(source, None, [])
    ensures 0 <= i < |hidden| && Contains(SourceName(source), hidden[i]) ==> !Visible(source, langFilter, hidden)
  {
  }
}
