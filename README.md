# Quran audio browser: reciter catalogue, range downloads and navigation

This project models the core of a web application for listening to and
downloading Quran recitations:

- **the service layer** (`services/quranService.ts`):
  - loading the reciter catalogue, flattened to one entry per recording
    edition ("moshaf") and sorted by name;
  - the whole-chapter audio address;
  - the check whether a reciter variant is offered the per-ayah range
    download;
  - the availability probe of one ayah;
  - the per-ayah fetch with retries and back-off;
  - blob concatenation.
- **the download dialog** (`components/DownloadModal.tsx`), as a class whose
  fields are the dialog's state:
  - the whole-chapter download;
  - the range download: range validation, source lookup, the probe of the
    start ayah, the sequential loop with its rounded progress, the
    concatenation and the saved file name, or the error message;
  - the tab switching and its fallback effect.
- **the main screen** (`App.tsx`):
  - the reciter filter (all / range-capable, plus search);
  - the chapter list of the browsed reciter;
  - the navigation handlers, held in a class;
  - when the download dialog is rendered, and for which reciter and
    chapter.

Network traffic is data. A `Network` maps the number of a request to the
reply it gets, counting from an operation's first request. Each operation
takes the number of its first request and reports every request it issued,
so the model can state which addresses were asked for, in what order, and
which reply each saved byte came from. The download dialog keeps ghost logs:
- every status it set;
- every request;
- every ayah whose fetch began;
- every progress value.

The handler methods are proved to leave these logs equal to the ones a
specification function computes. Lemmas about that function state what the
application promises.

Modules:
- `Results`: `Option`, `Result`.
- `Text`: the JavaScript string operations used: `includes`, `split`,
  `padStart`, `toString`, `parseInt`, `trim`.
- `Seqs`: `filter`, subsequences, distinct keys.
- `Types`: `Reciter`, `Surah`.
- `QuranService`, `Download` and `App`: the three core files.

## Model

| member | source | states |
|---|---|---|
| QuranService.Pad3Digits | services/quranService.ts:40 | A chapter or ayah number below 1000 pads to exactly three digits that read back as the number |
| QuranService.Pad3Wide | services/quranService.ts:40 | From 1000 on, `padStart(3, '0')` leaves the decimal text unchanged |
| QuranService.GetSurahAudioUrl | services/quranService.ts:39-42 | The chapter address starts with the server and a slash and ends in `.mp3` |
| QuranService.AyahUrl | services/quranService.ts:84-86 | The per-ayah address starts with the per-ayah host and the source folder and a slash, and ends in `.mp3` |
| QuranService.SurahAudioUrlShape | services/quranService.ts:39-42 | The chapter address is the server, a slash, three digits that read back as the chapter id, and `.mp3` |
| QuranService.SurahAudioUrlInjective | services/quranService.ts:39-42 | Two chapters below 1000 of one server never share an address |
| QuranService.AyahUrlIdentifiesAyah | services/quranService.ts:84-86 | Within one source folder, the per-ayah address determines both the chapter and the ayah |
| QuranService.FindSource | services/quranService.ts:73-77 | `find` returns the first mapping key all of whose space-separated parts occur in the name: it matches, no earlier key matches, and none means no key matches |
| QuranService.MatchedSource | services/quranService.ts:73-79 | A matched entry is in the table, has a non-empty key and all its parts occur in the name; with no empty key, no match means no key matches |
| QuranService.IsLikelyRangeSupported | services/quranService.ts:63-80 | Support implies the narration contains the Hafs marker and some non-empty key has all its parts in the name |
| QuranService.NonHafsNeverSupported | services/quranService.ts:67-69 | A narration without the Hafs marker is never offered the range download |
| QuranService.EmptyKeyMatchesAll | services/quranService.ts:73-79 | An empty mapping key matches every name (and `!!mapKey` then reports no support) |
| QuranService.RangeSupportCharacterised | services/quranService.ts:63-80 | For a table without empty keys: supported iff the narration contains Hafs and some key has all its parts in the name |
| QuranService.KeyMatchesCovered | services/quranService.ts:74-76 | A key matching one name matches every name containing the same space-free pieces |
| QuranService.RangeSupportCovered | services/quranService.ts:72-79 | Support carries over to any name that contains every space-free piece of a supported name |
| QuranService.RangeSupportSurvivesLongerName | services/quranService.ts:72-79 | Adding text before or after a supported name keeps it supported |
| QuranService.RangeSupportIgnoresWordOrder | services/quranService.ts:72-79 | Reordering or adding words of a supported name keeps it supported |
| QuranService.CheckAyahExists | services/quranService.ts:83-107 | HEAD first; a GET of the same address only when HEAD throws; found iff the reply that decided is ok; never fails |
| QuranService.FetchAttemptsOutcome | services/quranService.ts:115-146 | From any attempt on: only GETs of the one address, at most the attempts left, every failed attempt but the last is transient, pauses of `attempt × 500` ms, and the result is decided by the last reply |
| QuranService.FetchAyahOutcome | services/quranService.ts:110-147 | One to three GETs; pauses 500 then 1000 ms; ok iff the last reply gave a body (then that body); "not found" iff the last failure was a 404; otherwise three attempts and the "fetch failed" message naming the ayah |
| QuranService.FailedMessageIsNotNotFound | services/quranService.ts:135-140 | The "fetch failed" message is never the not-found code |
| QuranService.FetchRequestsAreGets | services/quranService.ts:113-120 | A fetch issues one to three GETs, all of the ayah's address |
| QuranService.FetchOkIsLastReply | services/quranService.ts:120-131 | A fetched body is the body of the ok reply to the last request, a GET of the ayah |
| QuranService.FetchErrorKinds | services/quranService.ts:132-146 | A fetch fails only as "not found" or with "Ayah N fetch failed: …" |
| QuranService.FetchAyahBlob | services/quranService.ts:110-147 | The retry loop yields exactly the result, requests and pauses of the fetch specification |
| QuranService.ConcatAppend | services/quranService.ts:149-151 | Concatenating two lists of parts is concatenating their concatenations |
| QuranService.ConcatPlacesEachPart | services/quranService.ts:149-151 | Every part appears unchanged in the blob, right after the parts before it |
| QuranService.ConcatBlobs | services/quranService.ts:149-151 | The blob carries the requested MIME type; no parts give no bytes, one part gives exactly that part |
| QuranService.MoshafVariantsShape | services/quranService.ts:16-27 | The moshafs of one reciter give one entry each, built from the reciter and that moshaf, unless a `surah_total` is missing |
| QuranService.FlattenOnePerMoshaf | services/quranService.ts:14-30 | The flat list has one entry per moshaf of reciters with a moshaf array, each built from one reciter and one of its moshafs |
| QuranService.FlattenCoversEveryMoshaf | services/quranService.ts:14-30 | Every moshaf yields its entry |
| QuranService.MoshafVariantsNonePersists | services/quranService.ts:17-27 | Once one moshaf throws, the whole reciter fails |
| QuranService.FlattenNonePersists | services/quranService.ts:15-36 | Once one reciter fails, the whole load fails (and falls back to the empty list) |
| QuranService.VariantIdInjective | services/quranService.ts:19 | Distinct (reciter id, moshaf id) pairs give distinct entry ids |
| QuranService.VariantCountReadsBack | services/quranService.ts:24 | The `count` field is the decimal text of `surah_total` and parses back to it |
| QuranService.FlattenFailsIff | services/quranService.ts:14-30 | Flattening fails iff some reciter's moshaf list throws |
| QuranService.CatalogFailsIff | services/quranService.ts:5-36 | The catalogue gives no entries iff the request failed or some reciter's moshaf list throws |
| QuranService.InsertByName | services/quranService.ts:32 | Inserting into a list sorted by name keeps it sorted and adds exactly that entry, after every entry it does not sort strictly before |
| QuranService.InsertByNameStable | services/quranService.ts:32 | Among entries whose names compare equal to any given name, the inserted one comes after those already in the list, whose order is kept |
| QuranService.SortByName | services/quranService.ts:32 | The sorted list is ordered by the name comparison and is a permutation of the input |
| QuranService.SortByNameStable | services/quranService.ts:32 | The sort is stable: entries whose names compare equal keep their input order |
| QuranService.FetchReciters | services/quranService.ts:4-37 | Any failure gives the empty list; otherwise the flattened entries, sorted by name, a permutation of them, with entries of equal names in catalogue order |
| Download.ValidateRange | components/DownloadModal.tsx:50-57 | A range is accepted iff both fields parse and `1 <= start <= end <= ayahCount`; the accepted bounds are the parsed ones |
| Download.DefaultRangeIsWholeChapter | components/DownloadModal.tsx:16-17 | The initial field texts select the whole chapter |
| Download.ReversedRangeRejected | components/DownloadModal.tsx:53 | For every chapter length, fields holding a start after the end are rejected |
| Text.ParseIntSkipsWhitespace | components/DownloadModal.tsx:50-51 | `parseInt` ignores any leading JavaScript white-space or line-terminator character |
| Text.ParseIntOfHex | components/DownloadModal.tsx:50-51 | `parseInt` reads a `0x`-prefixed field as a hexadecimal number |
| Download.QuotientIsDivision | components/DownloadModal.tsx:101 | The integer quotient used for rounding is exact division |
| Download.ProgressBounds | components/DownloadModal.tsx:101 | The rounded percentage stays in 0..100 |
| Download.ProgressMonotone | components/DownloadModal.tsx:101 | More ayahs done never shows a smaller percentage |
| Download.ProgressComplete | components/DownloadModal.tsx:101 | All ayahs done shows 100 |
| Download.ProgressRoundsHalfUp | components/DownloadModal.tsx:101 | The shown value is the whole percentage nearest to `done` out of `total`, halves rounded up |
| Download.ProgressSeries | components/DownloadModal.tsx:98-102 | After `count` fetched ayahs there is one value per ayah, the `k`-th being the rounded percentage of `k + 1` out of `total` |
| Download.ProgressSeriesShape | components/DownloadModal.tsx:94-102 | The values shown during one download are the rounded percentages in order, within 0..100, never decreasing, ending at 100 when all ayahs arrive |
| Download.ProbeOne | components/DownloadModal.tsx:79-85 | With one candidate folder the probe loop is one availability check of it |
| Download.AyahFetcherFetches | components/DownloadModal.tsx:99 | Each fetch of the loop issues GETs of its ayah's address only, and a success is the body of the ok reply to its last request |
| Download.AyahFetcherFailuresClassified | components/DownloadModal.tsx:110-118 | Every error a fetch raises maps to the "incomplete source" or "connection" message |
| Download.ErrorSticks | components/DownloadModal.tsx:97-110 | After a failed ayah the loop does nothing more |
| Download.DownloadFromMatches | components/DownloadModal.tsx:98-102 | The loop run forward from any reached point agrees with the loop's specification |
| Download.DownloadOrder | components/DownloadModal.tsx:98-102 | Ayahs are fetched in ascending order from the start, one fetch each; on failure one more fetch began than segments were kept |
| Download.DownloadSegmentsFromReplies | components/DownloadModal.tsx:98-100 | Segment `k` is the body of an ok reply to the GET of ayah `start + k` |
| Download.DownloadRequestsOnlyFetched | components/DownloadModal.tsx:98-102 | Every request of the loop is a GET of an ayah whose fetch began, so nothing past the failing ayah is requested |
| Download.FetchErrorsAreClassified | components/DownloadModal.tsx:110-118 | Any error ending the loop shows the "incomplete source" or the "connection" message, never the generic one |
| Download.FailedMessageMentionsFetchFailed | components/DownloadModal.tsx:114 | The retry-exhausted message contains "fetch failed" |
| Download.LoopOutcome | components/DownloadModal.tsx:97-120 | A finished loop ends failed iff an ayah failed, otherwise assembled, for the same range and folder |
| Download.DownloadStage | components/DownloadModal.tsx:93-120 | The loop stage ends failed or assembled, for the given range and folder |
| Download.SourcedStage | components/DownloadModal.tsx:59-120 | After validation the outcome is never an invalid range and keeps the range |
| Download.LookupStage | components/DownloadModal.tsx:71-75 | "No source mapping" exactly when the candidate list is empty |
| Download.Candidates | components/DownloadModal.tsx:62-69 | At most one candidate folder, and a candidate is the folder of a non-empty table key all of whose parts occur in the name |
| Download.ProbedStage | components/DownloadModal.tsx:77-91 | After the lookup the outcome is "source unavailable", a failed ayah or an assembled file |
| Download.InvalidRangeIsRejected | components/DownloadModal.tsx:50-57 | An invalid range is reported iff validation fails; then no request, no fetch and no file; otherwise `1 <= start <= end <= ayahCount` |
| Download.RangeDownloadRun | components/DownloadModal.tsx:49-121 | The outcome is an invalid range iff validation fails, and then nothing is requested or fetched |
| Download.ValidRangeRun | components/DownloadModal.tsx:49-121 | A rejected range is the invalid-range run; an accepted one satisfies `1 <= start <= end <= ayahCount` and runs the stage after validation |
| Download.SourceLookupAgreesWithSupport | components/DownloadModal.tsx:62-75 | The dialog looks up the source with the range-support rule, so a supported reciter never gets "no source"; that error requests nothing |
| Download.StageProbesStartFirst | components/DownloadModal.tsx:79-85 | The first request after the lookup is the HEAD of the start ayah in the matched folder |
| Download.StageUnavailableProbesOnly | components/DownloadModal.tsx:79-91 | When the start ayah is absent only it was requested, once or twice, and no ayah was fetched |
| Download.OnlyStartAyahProbed | components/DownloadModal.tsx:77-91 | Only the start ayah is probed, first with HEAD; when it is absent there are at most two requests, no fetch and no file |
| Download.DownloadStageAssembled | components/DownloadModal.tsx:93-102 | An assembled loop fetched each ayah from start to end once in order, and segment `k` came from the reply to ayah `start + k` |
| Download.StageAssembled | components/DownloadModal.tsx:77-105 | The same for the whole stage after the source lookup |
| Download.AssembledRangeIsComplete | components/DownloadModal.tsx:93-108 | A successful range download covers every ayah of a valid range in order, each segment from the loop's own reply to its ayah, and saves their concatenation under the range's file name |
| Download.SourcedAssembled | components/DownloadModal.tsx:59-108 | The same for the stage after validation, for any range |
| Download.StageFailedStops | components/DownloadModal.tsx:97-120 | A failing loop stops at the failing ayah, and its message is one of the two fetch kinds |
| Download.FailedRangeStops | components/DownloadModal.tsx:97-120 | A failed range download fetched `start .. start+completed`, saved nothing, and shows "incomplete source" or "connection" |
| Download.SourcedFailedStops | components/DownloadModal.tsx:59-120 | The same for the stage after validation, for any range |
| Download.FetchErrorMessage | components/DownloadModal.tsx:112-118 | An error mentioning 404 shows "incomplete source"; every error shows that, "connection", or the generic text with its own message |
| Download.RangeFileNameInjective | components/DownloadModal.tsx:107 | Different ranges of one chapter and reciter get different file names |
| Download.NumberedRangeInjective | components/DownloadModal.tsx:107 | Two numbers written `a-b` between a fixed prefix and a tail starting with a non-digit read back uniquely |
| Download.RangeStatusesFollowMachine | components/DownloadModal.tsx:49-121 | Every range download ends in done or error, and in done iff a file was assembled. The machine `Step` is defined from the transitions the handlers make (idle to verifying or error, then downloading, processing, done), so the per-step half of the walk from idle holds by construction and records that no other transition occurs |
| Download.StatusPath | components/DownloadModal.tsx:49-121 | An invalid range goes straight to error, every other run starts verifying; the last status is done iff the file was assembled, else error |
| Download.FileNamesShape | components/DownloadModal.tsx:40 | Both saved file names (`RangeFileName`, line 107, and `FullFileName`) start `Surah_<englishName>_` and end `<reciterName>.mp3`, the range name with text between the two |
| Download.FullDownloadResult | components/DownloadModal.tsx:35-37 | The whole-chapter download succeeds iff the reply is ok, with its body |
| Download.DownloadModal.constructor | components/DownloadModal.tsx:14-23 | The dialog opens in full mode with fields "1" and the ayah count, idle, no progress, no message, and range support computed from the reciter |
| Download.DownloadModal.SyncMode | components/DownloadModal.tsx:25-29 | Range mode falls back to full mode without range support; nothing else changes; afterwards the dialog is valid (range mode only with range support, progress within 0..100), which every handler then keeps |
| Download.DownloadModal.SelectFullTab | components/DownloadModal.tsx:147 | The full tab selects full mode |
| Download.DownloadModal.SelectRangeTab | components/DownloadModal.tsx:153 | The range tab selects range mode only with range support |
| Download.DownloadModal.SetStartAyah | components/DownloadModal.tsx:193 | The start field takes the typed text |
| Download.DownloadModal.SetEndAyah | components/DownloadModal.tsx:204 | The end field takes the typed text |
| Download.DownloadModal.Reset | components/DownloadModal.tsx:247 | Retry and "download another" return to idle |
| Download.DownloadModal.HandleFullDownload | components/DownloadModal.tsx:31-47 | Offered only from idle (the button shows only then); one GET of the chapter address; on an ok reply the body is saved under the chapter's file name and the status ends done, otherwise the failure message and error |
| Download.ProbeLoop | components/DownloadModal.tsx:77-85 | The loop probes the candidates in order, stops at the first whose start ayah exists, and yields exactly the folder and the probes of the specification |
| Download.DownloadModal.ProbeSources | components/DownloadModal.tsx:77-85 | The dialog's probe finds the first folder whose probe succeeds and logs exactly the probes of the specification |
| Download.DownloadModal.DownloadAyahs | components/DownloadModal.tsx:94-102 | The loop fetches as the specification does, stopping at the first failure, and shows the rounded percentage after each success |
| Download.DownloadModal.ShowProgress | components/DownloadModal.tsx:101 | The progress becomes the next value of the series |
| Download.DownloadModal.FinishRange | components/DownloadModal.tsx:104-120 | A failed loop sets the classified message and error; an assembled one passes through processing to done and saves the concatenation |
| Download.DownloadModal.RunLoop | components/DownloadModal.tsx:93-102 | The status becomes downloading and the logs grow by the loop stage's requests, fetched ayahs and progress values |
| Download.DownloadModal.DownloadRange | components/DownloadModal.tsx:93-120 | Everything after a working folder matches the loop stage: statuses, message, requests, fetches, progress and saved files |
| Download.DownloadModal.Fail | components/DownloadModal.tsx:54-55 | An early error sets the message and the error status |
| Download.DownloadModal.ProbeAndDownload | components/DownloadModal.tsx:77-120 | The probe and the download match the probed stage; an absent or empty working folder is "source unavailable" |
| Download.DownloadModal.SourceCandidates | components/DownloadModal.tsx:62-69 | The candidates are the folder of the matched mapping entry, at most one |
| Download.DownloadModal.DownloadValidRange | components/DownloadModal.tsx:59-120 | A valid range goes through verifying with the message cleared, then matches the lookup stage |
| Download.DownloadModal.HandleRangeDownload | components/DownloadModal.tsx:49-121 | Offered only from idle (the button shows only then); the handler's statuses, final status, message, requests, fetched ayahs, progress values and saved files are those of the range-download specification for the two field texts, so with RangeStatusesFollowMachine the status walk from idle follows the machine |
| App.FilteredRecitersAreOneFilter | App.tsx:78-87 | The mode filter followed by the search is one filter by both conditions; the empty-search shortcut changes nothing |
| App.RangeModeShowsSupported | App.tsx:81-83 | In range mode every listed reciter is offered the range download |
| App.EmptySearchKeepsModeList | App.tsx:85 | An empty search shows the mode-filtered list as it is |
| App.FilterReciters | App.tsx:78-87 | The shown reciters are loaded ones, at most as many, all passing the mode filter and, for a non-empty search, matching it |
| App.FilteredRecitersSpec | App.tsx:78-87 | A reciter is listed iff it is loaded, passes the mode and its name or letter contains the search; the list keeps the loaded order |
| App.ParsedIds | App.tsx:91 | One parsed id per comma-separated piece of `suras` |
| App.AvailableSurahs | App.tsx:91-92 | The available chapters are bundled ones, at most as many, each with its id among the parsed `suras` |
| App.FilterSurahs | App.tsx:89-90 | No browsed reciter, no chapters |
| App.FilteredSurahsAreOneFilter | App.tsx:89-100 | The chapter list is one filter of the bundled table by "offered" and "matches the search"; the empty-search shortcut changes nothing |
| App.FilteredSurahsSpec | App.tsx:89-100 | A chapter is listed iff a reciter is browsed, the chapter is bundled, its id was parsed from `suras` and it matches the search; the list keeps the table's order, and has no repeated ids when the table has none, whatever `suras` repeats |
| App.ListedChapterIsAvailable | App.tsx:91-92 | A `suras` piece whose trimmed text is a chapter's id makes that chapter available |
| App.ReciterClicked | App.tsx:57-61 | Browses the clicked reciter on the chapter list and keeps the screen consistent |
| App.SurahClicked | App.tsx:63-68 | With a browsed reciter, plays the clicked chapter by it; keeps the screen consistent |
| App.WentBack | App.tsx:70-76 | On a consistent screen, ends on the reciter list with nothing browsed, and stays consistent |
| App.ActiveReciter | App.tsx:102 | The dialog's reciter is the browsed one, else the playing one; none only when neither exists |
| App.DownloadTarget | App.tsx:293-296 | The dialog is rendered iff requested with a reciter context and a playing chapter, and then it is for the playing chapter |
| App.HandlersKeepConsistent | App.tsx:57-76 | Every handler keeps "chapter list shown iff a reciter is browsed" and "player has a reciter iff it has a chapter" |
| App.BackUndoesBrowse | App.tsx:57-76 | Browsing a reciter from the list and going back restores the screen except for the cleared search |
| App.WentBackIdempotent | App.tsx:70-76 | Going back twice is going back once |
| App.SurahClickNeedsBrowsing | App.tsx:63-68 | On the reciter list a chapter click changes nothing; on the chapter list it plays that chapter by the browsed reciter and changes nothing else |
| App.DownloadShownWhenPlaying | App.tsx:293 | On a consistent screen the dialog is rendered iff requested while a chapter plays |
| App.DownloadTargetFollowsBrowsing | App.tsx:102-103 | While browsing, the dialog is for the browsed reciter, even if another plays; after going back it is for the playing one |
| App.DownloadAfterSurahClick | App.tsx:285-296 | A chapter click and then the player's download button open the dialog for the browsed reciter and that chapter |
| App.AppState.constructor | App.tsx:13-28 | The screen starts on the reciter list, nothing browsed or playing, empty search, dialog closed, mode "all", loading |
| App.AppState.LoadReciters | App.tsx:46-55 | The loaded list is the catalogue's entries sorted by name, a permutation of them with entries of equal names (a reciter's several moshafs) in catalogue order, or empty on failure; loading ends |
| App.AppState.ReciterClick | App.tsx:57-61 | Browses the reciter, shows its chapters and clears the search |
| App.AppState.SurahClick | App.tsx:63-68 | Plays the chapter by the browsed reciter only when one is browsed |
| App.AppState.GoBack | App.tsx:70-76 | From the chapter list back to the reciter list, clearing the browsed reciter and the search; otherwise nothing |
| App.AppState.SetSearchQuery | App.tsx:150 | The search takes the typed text, nothing else changes |
| App.AppState.SetFilterMode | App.tsx:172-183 | The filter buttons set the mode, nothing else changes |
| App.AppState.SetShowDownloadModal | App.tsx:285-297 | The player's download button opens and the dialog's close button closes the dialog, nothing else changes |

## Left out

- Real I/O is left out: `fetch`, timers, `URL.createObjectURL`, the anchor click that saves a file, `console.error`.
  - Network replies are the `Network` parameter.
  - The back-off pauses are kept as a list of requested delays.
  - Saved files are a list of name and bytes.
- Concurrency of the asynchronous handlers is not modelled. Each handler runs to completion; a second click while a download runs is not considered.
- `fetchSurahText`, `Player.tsx`, `QuranDrawer.tsx`, theme toggling, loading spinners and all rendering are outside the modelled core.
- `constants.ts` is not part of this model. The name-to-folder table and the bundled chapter table are parameters.
- Reading the catalogue JSON is abstracted to `CatalogReply`. Any failure of the request, of the status or of the JSON parse is `CatalogFailed`. The field types exclude a `null` reciter (which throws at `r.moshaf`, quranService.ts:16), a `null` moshaf (which throws at `m.id`, :19) and a missing `name` (which can throw in the comparator, :32); each of these makes `fetchReciters` return the empty list, which the model does not represent. Of the field errors inside the loop only a missing `surah_total` is represented.
- `localeCompare(…, 'ar')` is a comparison parameter, required to be a total preorder.
- `toLowerCase` is a parameter of the chapter search.
- `response.blob()` is assumed not to fail; its failure inside `fetchAyahBlob` (a retry) and in the whole-chapter download (an error) is not modelled.
- Download.FullDownloadResult: the MIME type of the whole-chapter blob is not tracked, only its bytes.
- Download.Progress: `Math.round(done / total * 100)` is computed exactly, rounding half up. The source rounds a floating-point product, which at some exact halves falls just below and shows one less: 23 of 40 shows 57 in the source and 58 here (likewise 46 of 80, 29 of 200, 57 of 200, 113 of 200, 115 of 200, 138 of 240, 161 of 280). The bounds 0..100, monotonicity and the final 100 hold in both.
- The dialog's props are fixed for its lifetime. A change of reciter or chapter while it is open, which in the source would re-run the range-support check, is not modelled.
- Inside the dialog, the loop fetches through the `fetchAyahBlob` specification function. `QuranService.FetchAyahBlob` is proved separately to compute exactly that function.
  - The inner dialog methods take the candidate list, the probe and the fetchers as parameters.
  - `HandleRangeDownload` passes them the source lookup, `checkAyahExists` and `fetchAyahBlob` of the dialog's chapter and network.
- HandleRangeDownload: the ghost logs of requests and fetched ayahs number requests from the handler's first request. Requests made by earlier handler calls are not tied to the network.

## Notes on the source

- The model follows the code as written:
  - The saved files are named `Surah_<englishName>_<start>-<end>_<reciterName>.mp3` and `Surah_<englishName>_<reciterName>.mp3`, as `DownloadModal.tsx` writes them.
  - "Not found" is recognised by status 404, and also by any error message containing `404` (`quranService.ts:134`).
  - The back-off is linear, `attempt × 500` ms, although the comment at `quranService.ts:142` says exponential.
  - After an error or a finished download the dialog stays in `error` or `done` until the retry or "download another" button returns it to `idle`.
- An error whose message is empty shows the generic text. The `OtherMessage` case carries the detail. The download loop cannot produce this case, which `FetchErrorsAreClassified` proves.
