/** The main screen: the reciter list with its two filters, the chapter list of
    the reciter being browsed, the navigation between the two, and when the
    download dialog is shown. */
module App {
  import opened Results
  import opened Text
  import opened Seqs
  import opened Types
  import opened QuranService

  /** Which list the screen shows. */
  datatype ViewState = Reciters | Surahs

  /** `'all'` or `'range'`: every reciter, or only those offered the range
      download. */
  datatype FilterMode = All | RangeOnly

  // filteredReciters

  /** A reciter passes the mode filter. */
  predicate InMode(r: Reciter, mode: FilterMode, mapping: seq<SourceEntry>) {
    mode == RangeOnly ==> IsLikelyRangeSupported(r, mapping)
  }

  /** The reciter search looks at the display name and the index letter. */
  predicate ReciterMatches(r: Reciter, query: string) {
    Contains(r.name, query) || Contains(r.letter, query)
  }

  /** The list after the mode filter; `'all'` leaves it as it is. */
  function ModeList(reciters: seq<Reciter>, mode: FilterMode, mapping: seq<SourceEntry>): seq<Reciter> {
    if mode == RangeOnly then Filter(reciters, (r: Reciter) => IsLikelyRangeSupported(r, mapping))
    else reciters
  }

  /** `filteredReciters`: the mode filter, then the search unless it is empty. */
  function FilterReciters(reciters: seq<Reciter>, mode: FilterMode, query: string, mapping: seq<SourceEntry>): (r: seq<Reciter>)
    ensures |r| <= |reciters|
    ensures forall x | x in r :: x in reciters && InMode(x, mode, mapping)
    ensures query != [] ==> forall x | x in r :: ReciterMatches(x, query)
  {
    var list := ModeList(reciters, mode, mapping);
    if query == [] then list
    else Filter(list, (r: Reciter) => ReciterMatches(r, query))
  }

  /** The shown reciters are those of the loaded list that pass both filters,
      in the loaded order. The shortcut for the empty search changes nothing,
      since every text contains the empty string. */
  lemma {:induction false} FilteredRecitersAreOneFilter(reciters: seq<Reciter>, mode: FilterMode, query: string, mapping: seq<SourceEntry>)
    ensures FilterReciters(reciters, mode, query, mapping)
         == Filter(reciters, (r: Reciter) => InMode(r, mode, mapping) && ReciterMatches(r, query))
  {
    var inMode := (r: Reciter) => InMode(r, mode, mapping);
    var search := (r: Reciter) => ReciterMatches(r, query);
    var both := (r: Reciter) => InMode(r, mode, mapping) && ReciterMatches(r, query);
    var list := ModeList(reciters, mode, mapping);
    assert list == Filter(reciters, inMode) by {
      if mode == RangeOnly {
        FilterCongruent(reciters, (r: Reciter) => IsLikelyRangeSupported(r, mapping), inMode);
      } else {
        FilterKeepsAll(reciters, inMode);
      }
    }
    if query == [] {
      forall k | 0 <= k < |list| ensures search(list[k]) {
        ContainsEmpty(list[k].name);
      }
      FilterKeepsAll(list, search);
    }
    FilterFilter(reciters, inMode, search, both);
  }

  /** In `'range'` mode every shown reciter is offered the range download. */
  lemma RangeModeShowsSupported(reciters: seq<Reciter>, query: string, mapping: seq<SourceEntry>, r: Reciter)
    requires r in FilterReciters(reciters, RangeOnly, query, mapping)
    ensures IsLikelyRangeSupported(r, mapping)
  {
    FilteredRecitersAreOneFilter(reciters, RangeOnly, query, mapping);
  }

  /** An empty search shows the mode-filtered list as it is. */
  lemma EmptySearchKeepsModeList(reciters: seq<Reciter>, mode: FilterMode, mapping: seq<SourceEntry>)
    ensures FilterReciters(reciters, mode, "", mapping) == ModeList(reciters, mode, mapping)
  {
  }

  /** A reciter is shown exactly when it is loaded, passes the mode and its
      name or letter contains the search; the shown list keeps the loaded
      order. */
  lemma FilteredRecitersSpec(reciters: seq<Reciter>, mode: FilterMode, query: string, mapping: seq<SourceEntry>)
    ensures forall r ::
              r in FilterReciters(reciters, mode, query, mapping)
              <==> r in reciters && InMode(r, mode, mapping) && ReciterMatches(r, query)
    ensures IsSubsequence(FilterReciters(reciters, mode, query, mapping), reciters)
  {
    FilteredRecitersAreOneFilter(reciters, mode, query, mapping);
    FilterIsSubsequence(reciters, (r: Reciter) => InMode(r, mode, mapping) && ReciterMatches(r, query));
  }

  // filteredSurahs

  /** `suras.split(',').map(s => parseInt(s.trim()))`; `None` is `NaN`. */
  function ParsedIds(suras: string): (ids: seq<Option<int>>)
    ensures |ids| == |Split(suras, ',')|
  {
    var pieces := Split(suras, ',');
    seq(|pieces|, k requires 0 <= k < |pieces| => ParseInt(Trim(pieces[k])))
  }

  /** `availableIds.includes(s.id)`: `NaN` equals no chapter id. */
  predicate Offered(s: Surah, ids: seq<Option<int>>) {
    Some(s.id as int) in ids
  }

  /** The bundled chapters the reciter variant lists, in the table's order. */
  function AvailableSurahs(reciter: Reciter, surahList: seq<Surah>): (r: seq<Surah>)
    ensures |r| <= |surahList|
    ensures forall s | s in r :: s in surahList && Some(s.id as int) in ParsedIds(reciter.suras)
  {
    var ids := ParsedIds(reciter.suras);
    Filter(surahList, (s: Surah) => Offered(s, ids))
  }

  /** The chapter search: the Arabic name contains the query, or the English
      name contains it ignoring case, or the decimal id is the query.
      `lower` is `toLowerCase`. */
  predicate SurahMatches(s: Surah, query: string, lower: string -> string) {
    Contains(s.name, query) || Contains(lower(s.englishName), lower(query)) || NatToString(s.id) == query
  }

  /** `filteredSurahs`. */
  function FilterSurahs(browsing: Option<Reciter>, query: string, surahList: seq<Surah>, lower: string -> string): (r: seq<Surah>)
    ensures browsing.None? ==> r == []
  {
    match browsing
    case None => []
    case Some(reciter) =>
      var available := AvailableSurahs(reciter, surahList);
      if query == [] then available
      else Filter(available, (s: Surah) => SurahMatches(s, query, lower))
  }

  /** The shown chapters are the bundled ones the browsed variant lists and the
      search keeps, in the table's order. */
  lemma {:induction false} FilteredSurahsAreOneFilter(reciter: Reciter, query: string, surahList: seq<Surah>, lower: string -> string)
    ensures FilterSurahs(Some(reciter), query, surahList, lower)
         == Filter(surahList, (s: Surah) => Offered(s, ParsedIds(reciter.suras)) && SurahMatches(s, query, lower))
  {
    var ids := ParsedIds(reciter.suras);
    var offered := (s: Surah) => Offered(s, ids);
    var search := (s: Surah) => SurahMatches(s, query, lower);
    var both := (s: Surah) => Offered(s, ParsedIds(reciter.suras)) && SurahMatches(s, query, lower);
    var available := AvailableSurahs(reciter, surahList);
    assert available == Filter(surahList, offered);
    if query == [] {
      forall k | 0 <= k < |available| ensures search(available[k]) {
        ContainsEmpty(available[k].name);
      }
      FilterKeepsAll(available, search);
    }
    FilterFilter(surahList, offered, search, both);
  }

  /** A chapter is shown exactly when a variant is browsed, the chapter is in
      the table, its id is among the parsed ids, and it matches the search.
      The list keeps the table's order, and a table without repeated ids gives
      a list without repeated ids, however often `suras` repeats one. */
  lemma FilteredSurahsSpec(browsing: Option<Reciter>, query: string, surahList: seq<Surah>, lower: string -> string)
    ensures forall s ::
              s in FilterSurahs(browsing, query, surahList, lower)
              <==> browsing.Some? && s in surahList && Offered(s, ParsedIds(browsing.value.suras)) && SurahMatches(s, query, lower)
    ensures IsSubsequence(FilterSurahs(browsing, query, surahList, lower), surahList)
    ensures DistinctBy(surahList, (s: Surah) => s.id) ==>
      DistinctBy(FilterSurahs(browsing, query, surahList, lower), (s: Surah) => s.id)
  {
    var r := FilterSurahs(browsing, query, surahList, lower);
    if browsing.Some? {
      var reciter := browsing.value;
      var both := (s: Surah) => Offered(s, ParsedIds(reciter.suras)) && SurahMatches(s, query, lower);
      FilteredSurahsAreOneFilter(reciter, query, surahList, lower);
      FilterIsSubsequence(surahList, both);
    }
    if DistinctBy(surahList, (s: Surah) => s.id) {
      SubsequenceKeepsDistinct(r, surahList, (s: Surah) => s.id);
    }
  }

  /** A listed piece whose trimmed text is a chapter's decimal id makes that
      chapter available. */
  lemma ListedChapterIsAvailable(reciter: Reciter, surahList: seq<Surah>, s: Surah, k: nat)
    requires k < |Split(reciter.suras, ',')|
    requires Trim(Split(reciter.suras, ',')[k]) == NatToString(s.id)
    requires s in surahList
    ensures s in AvailableSurahs(reciter, surahList)
  {
    ParseIntOfNatToString(s.id);
    assert ParsedIds(reciter.suras)[k] == Some(s.id as int);
  }

  // Navigation state

  /** The state the handlers change: the list shown, the variant browsed, what
      the player plays, the search, whether the download dialog is requested
      and the filter mode. */
  datatype Screen = Screen(
    view: ViewState,
    browsing: Option<Reciter>,
    playingReciter: Option<Reciter>,
    playingSurah: Option<Surah>,
    searchQuery: string,
    showDownloadModal: bool,
    filterMode: FilterMode)

  /** The state at start-up. */
  const Initial: Screen := Screen(Reciters, None, None, None, "", false, All)

  /** The chapter list is shown exactly while a variant is browsed, and the
      player has a reciter exactly when it has a chapter. */
  predicate Consistent(sc: Screen) {
    (sc.view == Surahs <==> sc.browsing.Some?)
    && (sc.playingReciter.Some? <==> sc.playingSurah.Some?)
  }

  /** `handleReciterClick`. */
  function ReciterClicked(sc: Screen, reciter: Reciter): (next: Screen)
    ensures Consistent(sc) ==> Consistent(next)
    ensures next.view == Surahs && next.browsing == Some(reciter)
  {
    sc.(browsing := Some(reciter), view := Surahs, searchQuery := "")
  }

  /** `handleSurahClick`: plays only when a variant is browsed. */
  function SurahClicked(sc: Screen, surah: Surah): (next: Screen)
    ensures Consistent(sc) ==> Consistent(next)
    ensures sc.browsing.Some? ==> next.playingReciter == sc.browsing && next.playingSurah == Some(surah)
  {
    if sc.browsing.Some? then sc.(playingReciter := sc.browsing, playingSurah := Some(surah)) else sc
  }

  /** `goBack`: only the chapter list has somewhere to go back to. */
  function WentBack(sc: Screen): (next: Screen)
    ensures Consistent(sc) ==> Consistent(next) && next.view == Reciters && next.browsing.None?
  {
    if sc.view == Surahs then sc.(view := Reciters, browsing := None, searchQuery := "") else sc
  }

  /** The reciter the download dialog is for: the browsed one, else the one
      playing. */
  function ActiveReciter(sc: Screen): (r: Option<Reciter>)
    ensures r.None? <==> sc.browsing.None? && sc.playingReciter.None?
    ensures r.Some? ==> r == sc.browsing || r == sc.playingReciter
  {
    if sc.browsing.Some? then sc.browsing else sc.playingReciter
  }

  /** What the download dialog is opened for, when it is rendered at all. */
  function DownloadTarget(sc: Screen): (t: Option<(Reciter, Surah)>)
    ensures t.Some? <==> sc.showDownloadModal && ActiveReciter(sc).Some? && sc.playingSurah.Some?
    ensures t.Some? ==> t.value.1 == sc.playingSurah.value
  {
    if sc.showDownloadModal && ActiveReciter(sc).Some? && sc.playingSurah.Some?
    then Some((ActiveReciter(sc).value, sc.playingSurah.value))
    else None
  }

  /** Every handler keeps the screen consistent. */
  lemma HandlersKeepConsistent(sc: Screen, reciter: Reciter, surah: Surah, query: string, show: bool, mode: FilterMode)
    requires Consistent(sc)
    ensures Consistent(Initial)
    ensures Consistent(ReciterClicked(sc, reciter))
    ensures Consistent(SurahClicked(sc, surah))
    ensures Consistent(WentBack(sc))
    ensures Consistent(sc.(searchQuery := query))
    ensures Consistent(sc.(showDownloadModal := show))
    ensures Consistent(sc.(filterMode := mode))
  {
  }

  /** Browsing a variant from the reciter list and going back restores the
      screen, except that the search is cleared; what plays is untouched. */
  lemma BackUndoesBrowse(sc: Screen, reciter: Reciter)
    requires Consistent(sc) && sc.view == Reciters
    ensures WentBack(ReciterClicked(sc, reciter)) == sc.(searchQuery := "")
  {
  }

  /** Going back twice is going back once. */
  lemma WentBackIdempotent(sc: Screen)
    ensures WentBack(WentBack(sc)) == WentBack(sc)
  {
  }

  /** On the reciter list, a chapter click changes nothing; on the chapter
      list it plays that chapter by the browsed variant and leaves navigation,
      search and filters alone. */
  lemma SurahClickNeedsBrowsing(sc: Screen, surah: Surah)
    requires Consistent(sc)
    ensures sc.view == Reciters ==> SurahClicked(sc, surah) == sc
    ensures sc.view == Surahs ==>
      SurahClicked(sc, surah).playingReciter == sc.browsing
      && SurahClicked(sc, surah).playingSurah == Some(surah)
      && SurahClicked(sc, surah).(playingReciter := sc.playingReciter, playingSurah := sc.playingSurah) == sc
  {
  }

  /** On a consistent screen the dialog is rendered exactly when it is
      requested and a chapter is playing. */
  lemma DownloadShownWhenPlaying(sc: Screen)
    requires Consistent(sc)
    ensures DownloadTarget(sc).Some? <==> sc.showDownloadModal && sc.playingSurah.Some?
  {
  }

  /** While a variant is browsed the dialog is for that variant, even when the
      player plays a chapter by another; once back on the reciter list it is
      for the variant that plays. */
  lemma DownloadTargetFollowsBrowsing(sc: Screen)
    requires Consistent(sc) && sc.showDownloadModal && sc.playingSurah.Some?
    ensures sc.view == Surahs ==> DownloadTarget(sc) == Some((sc.browsing.value, sc.playingSurah.value))
    ensures DownloadTarget(WentBack(sc)) == Some((sc.playingReciter.value, sc.playingSurah.value))
  {
  }

  /** Clicking a chapter of the browsed variant and then the player's download
      button opens the dialog for that variant and that chapter. */
  lemma DownloadAfterSurahClick(sc: Screen, surah: Surah)
    requires Consistent(sc) && sc.view == Surahs
    ensures DownloadTarget(SurahClicked(sc, surah).(showDownloadModal := true)) == Some((sc.browsing.value, surah))
  {
  }

  /** The component's state; the handlers are its methods. */
  class AppState {
    var view: ViewState
    var reciters: seq<Reciter>
    var loading: bool
    var browsing: Option<Reciter>
    var playingReciter: Option<Reciter>
    var playingSurah: Option<Surah>
    var searchQuery: string
    var showDownloadModal: bool
    var filterMode: FilterMode

    /** The handler-visible state as a value. */
    function Current(): Screen
      reads this`view, this`browsing, this`playingReciter, this`playingSurah
      reads this`searchQuery, this`showDownloadModal, this`filterMode
    {
      Screen(view, browsing, playingReciter, playingSurah, searchQuery, showDownloadModal, filterMode)
    }

    constructor ()
      ensures Current() == Initial && Consistent(Current())
      ensures reciters == [] && loading
    {
      view, reciters, loading := Reciters, [], true;
      browsing, playingReciter, playingSurah := None, None, None;
      searchQuery, showDownloadModal, filterMode := "", false, All;
    }

    /** The start-up effect: fetch the catalogue and show it. `precedes` is
        `localeCompare`'s order. */
    method LoadReciters(reply: CatalogReply, precedes: (string, string) -> bool)
      requires TotalPreorder(precedes)
      modifies this`reciters, this`loading
      ensures !loading
      ensures CatalogEntries(reply).None? ==> reciters == []
      ensures CatalogEntries(reply).Some? ==>
        SortedByName(reciters, precedes) && multiset(reciters) == multiset(CatalogEntries(reply).value)
      ensures CatalogEntries(reply).Some? ==>
        forall key :: TiedWith(reciters, key, precedes) == TiedWith(CatalogEntries(reply).value, key, precedes)
    {
      loading := true;
      var data := FetchReciters(reply, precedes);
      reciters := data;
      loading := false;
    }

    method ReciterClick(reciter: Reciter)
      modifies this`browsing, this`view, this`searchQuery
      ensures Current() == ReciterClicked(old(Current()), reciter)
    {
      browsing := Some(reciter);
      view := Surahs;
      searchQuery := "";
    }

    method SurahClick(surah: Surah)
      modifies this`playingReciter, this`playingSurah
      ensures Current() == SurahClicked(old(Current()), surah)
    {
      if browsing.Some? {
        playingReciter := browsing;
        playingSurah := Some(surah);
      }
    }

    method GoBack()
      modifies this`view, this`browsing, this`searchQuery
      ensures Current() == WentBack(old(Current()))
    {
      if view == Surahs {
        view := Reciters;
        browsing := None;
        searchQuery := "";
      }
    }

    /** The search box. */
    method SetSearchQuery(query: string)
      modifies this`searchQuery
      ensures Current() == old(Current()).(searchQuery := query)
    {
      searchQuery := query;
    }

    /** The two filter buttons. */
    method SetFilterMode(mode: FilterMode)
      modifies this`filterMode
      ensures Current() == old(Current()).(filterMode := mode)
    {
      filterMode := mode;
    }

    /** The player's download button (`true`) and the dialog's close
        button (`false`). */
    method SetShowDownloadModal(show: bool)
      modifies this`showDownloadModal
      ensures Current() == old(Current()).(showDownloadModal := show)
    {
      showDownloadModal := show;
    }
  }
}
