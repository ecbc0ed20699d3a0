# Digiman, modelled in Dafny

Digiman is a manga reading site. It has a React frontend and a Django REST backend. This project models the site's logic as pure Dafny functions over immutable values and proves properties of them. It covers:

- **Offline downloads.** The download ledger kept in `localStorage` (`downloads.js`), the status machine and progress tick of the downloads page, the entries the chapter actions create, and the way the chapter page picks a saved, mock or live chapter and later revokes its blob URLs.
- **Reading.** The chapter reader's frame chunking, right-to-left pair swap, start index and clamped navigation. The pagination bar's page count, clamping and sliding window.
- **Small frontend rules.** Relative-time labels, field renaming, per-chapter comment storage and the comment box, the optimistic comment cache with its rollback, mock and live search, genre toggling, the catalogue's sort and slice, theme handling and unfollowing.
- **Backend rules.** `update_instance`'s allowed-field patching, page numbering, role and status validation, the comment, report, announcement, flag and log-entry state changes, the audit-log details, flag supersession, the Perspective and Sightengine score parsing and thresholds, the moderation pipeline, storage-path extraction from image URLs, the permission classes and the user signal handlers.

Some things are parameters of the model rather than parts of it:

- **Browser storage** is a map from key to slot. A slot is missing, unparsable, or a JSON value (`BrowserStorage`). Whether a write fits the quota is a parameter.
- **Database tables** are maps from id to row. A row is a map from field name to a Python value (`Records`). Python keyword arguments are an ordered association list (`Dict`).
- **Outside services** are function parameters. This covers the Perspective and Sightengine calls, `full_clean`, `URLValidator`, `urlparse`, the clock, `Math.random` and the dominant-score helper.
- **Numbers.** Scores and thresholds are exact reals. JavaScript numbers that only serve as indices or counts are integers.

Notes on the code:

- **Download orchestrator.** `downloads.js` keeps only a `localStorage` ledger. `startDownload` and `loadDownloadedChapter` are imported but not defined, so their outcomes are parameters (`StartOutcome`, `Lookup`).
- **`formatTime`.** Its `if (!d)` guard never fires for an invalid date, because an invalid `Date` object is truthy. Such a date therefore reaches the arithmetic as NaN and reads as 'just now'.
- **Findings.** Where the backend code fails, the model keeps the code as written next to the evidently intended version (see Findings below).

Modules follow the source files. `Base`, `Seqs`, `Dict`, `BrowserStorage`, `Text`, `Js`, `Arith` and `Sorting` are shared helpers.

## Model

| member | source | states |
|---|---|---|
| Downloads.Load | frontend/digiman/src/utils/downloads.js:4-12 | the ledger is the stored list when its slot parses; a missing key, empty text or unparsable text gives the empty list |
| Downloads.Save | frontend/digiman/src/utils/downloads.js:14-20 | after an accepted write the next load returns exactly the saved list; a refused write is swallowed and leaves storage as it was; no other key changes |
| Downloads.Merge | frontend/digiman/src/utils/downloads.js:31 | `{...it, ...patch}`: a field the patch carries takes the patch's value, every other field keeps the entry's |
| Downloads.MergeIdempotent | frontend/digiman/src/utils/downloads.js:31 | merging the same patch twice is merging it once |
| Downloads.Prepend | frontend/digiman/src/utils/downloads.js:24 | the entry comes first and the old list follows unchanged, one longer, with no id check |
| Downloads.Patched | frontend/digiman/src/utils/downloads.js:31 | length and ids are kept; entries with the id become their merge with the patch, all others stay as they were |
| Downloads.Without | frontend/digiman/src/utils/downloads.js:38 | no entry with the id remains; every entry with another id is kept as often as it occurs, in order (an order-preserving sub-list with the same multiplicities) |
| Downloads.PatchedAbsentIsIdentity | frontend/digiman/src/utils/downloads.js:31 | patching an id that no entry carries returns the same list |
| Downloads.PatchedIdempotent | frontend/digiman/src/utils/downloads.js:29-34 | patching twice with one patch equals patching once |
| Downloads.WithoutIdempotent | frontend/digiman/src/utils/downloads.js:36-41 | removing an id twice equals removing it once |
| Downloads.WithoutAbsentIsIdentity | frontend/digiman/src/utils/downloads.js:38 | removing an id that no entry carries returns the same list |
| Downloads.WithoutUndoesPrepend | frontend/digiman/src/utils/downloads.js:22-41 | adding an entry with a fresh id and then removing that id gives back the old ledger |
| Downloads.AddDownload | frontend/digiman/src/utils/downloads.js:22-27 | returns the loaded list with the entry prepended, and after an accepted write that list is what loads next |
| Downloads.UpdateDownload | frontend/digiman/src/utils/downloads.js:29-34 | returns the loaded list patched at the id, persisted as in `Save` |
| Downloads.RemoveDownload | frontend/digiman/src/utils/downloads.js:36-41 | returns the loaded list without the id, persisted as in `Save` |
| Downloads.RemoveDownloadTwice | frontend/digiman/src/utils/downloads.js:36-41 | two removals of one id leave the same ledger as one |
| DownloadsPage.Section | frontend/digiman/src/components/pages/DownloadsPage.jsx:66-68 | a section holds exactly the ledger's entries of that status, each as often as it occurs in the ledger, as an order-preserving sub-list |
| DownloadsPage.Partition | frontend/digiman/src/components/pages/DownloadsPage.jsx:66-68 | the three sections are pairwise disjoint and complete for their statuses; an entry with any other status is in none; their sizes add up to at most the ledger's |
| DownloadsPage.SectionsFit | frontend/digiman/src/components/pages/DownloadsPage.jsx:66-68 | the three section lengths sum to at most the ledger length |
| DownloadsPage.Find | frontend/digiman/src/components/pages/DownloadsPage.jsx:21 | `find` returns nothing exactly when no entry carries the id; otherwise the first entry of the ledger with that id (no earlier entry carries it) |
| DownloadsPage.NextProgress | frontend/digiman/src/components/pages/DownloadsPage.jsx:23 | the new progress never exceeds 100, strictly rises while below 100, reaches 100 exactly when the step would overshoot, and otherwise moves by the step |
| DownloadsPage.Tick | frontend/digiman/src/components/pages/DownloadsPage.jsx:19-31 | a tick for a vanished id changes nothing and stops the timer; otherwise a tick reaching 100 stores progress 100 and status 'downloaded' and stops, and any other tick stores the new progress and keeps running |
| DownloadsPage.TickTouchesOnlyProgressAndStatus | frontend/digiman/src/components/pages/DownloadsPage.jsx:24-29 | a tick changes only the progress and, when finishing, the status of the entries with that id; every other field and entry stays |
| DownloadsPage.Rerender | frontend/digiman/src/components/pages/DownloadsPage.jsx:44 | `setDownloads(loadDownloads())`: the page shows what storage holds, whatever a mutator returned |
| DownloadsPage.Cancel | frontend/digiman/src/components/pages/DownloadsPage.jsx:41-46 | storage is exactly what `updateDownload(id, {status: 'failed'})` leaves, and the page shows what then loads; with an accepted write the entries with the id become 'failed' and nothing else changes; a refused write leaves storage as it was |
| DownloadsPage.CancelKeepsIds | frontend/digiman/src/components/pages/DownloadsPage.jsx:41-46 | for every storage and quota outcome, cancelling shows the same ids in the same order as before |
| DownloadsPage.CancelIdempotent | frontend/digiman/src/components/pages/DownloadsPage.jsx:41-46 | a second cancel of the same download leaves storage and the page as the first did |
| DownloadsPage.Remove | frontend/digiman/src/components/pages/DownloadsPage.jsx:48-51 | storage is exactly what `removeDownload(id)` leaves, and the page shows what then loads; with an accepted write no entry with the id remains and every other entry stays as often as it occurred; a refused write leaves storage as it was |
| DownloadsPage.RemoveIdempotent | frontend/digiman/src/components/pages/DownloadsPage.jsx:48-51 | a second remove of the same download leaves storage and the page as the first did |
| DownloadsPage.Retry | frontend/digiman/src/components/pages/DownloadsPage.jsx:53-64 | the page always shows what loads from storage; after a resolved start, storage is what `removeDownload(item.id)` leaves, so with an accepted write the old id is gone and every other entry stays; after a rejected start storage is as the start left it and the old entry is still shown |
| DownloadsPage.ResolvedRetryIsRemove | frontend/digiman/src/components/pages/DownloadsPage.jsx:53-58 | a resolved retry is the remove handler applied to the storage the fresh start left |
| ChapterActions.ChapterTitle | frontend/digiman/src/components/chapterComponents/ChapterActions.jsx:17 | the title when truthy; otherwise "Chapter " followed by the number as a decimal numeral when it is a non-zero number, the number's text when it is a non-empty string, or '?' when it is falsy; always truthy |
| ChapterActions.NewEntry | frontend/digiman/src/components/chapterComponents/ChapterActions.jsx:13-22 | id "d_" plus the clock, status 'downloading', progress 0, falsy manga and chapter ids become null, manga title null |
| ChapterActions.HandleDownload | frontend/digiman/src/components/chapterComponents/ChapterActions.jsx:11-25 | the new entry heads the ledger in front of the old list, is persisted, and the route becomes /downloads |
| ChapterPage.SavedPages | frontend/digiman/src/customHooks/useChapterPage.js:65 | `saved.blobUrls || saved.chapter.pages || []`, with the TypeError when neither blob URLs nor a chapter exist |
| ChapterPage.FirstError | frontend/digiman/src/customHooks/useChapterPage.js:92 | the first present of the chapter, pages and list errors (the list error when only it is present); none only when all three are absent |
| ChapterPage.Load | frontend/digiman/src/customHooks/useChapterPage.js:60-104 | an unmounted hook changes nothing; a saved chapter wins with an empty chapter list and loading false and records its blob URLs; else mock data when the flag is set; else live data when chapter and pages are both present; else only loading and error are updated |
| ChapterPage.SavedChapterWins | frontend/digiman/src/customHooks/useChapterPage.js:62-74 | with a saved chapter the outcome does not depend on the mock flag or the live data, and the chapter list is empty |
| ChapterPage.ThrowFallsThrough | frontend/digiman/src/customHooks/useChapterPage.js:75 | a lookup that threw gives the same outcome as one that found nothing |
| ChapterPage.RevokeAll | frontend/digiman/src/customHooks/useChapterPage.js:107-115 | every recorded URL is revoked in order, and the ones whose revocation throws are exactly the failures, which are swallowed |
| ChapterReader.RtlModesExclusive | frontend/digiman/src/components/chapterComponents/ChapterReader.jsx:25-28 | 'mangadex' and 'simple' right-to-left never hold together, and neither holds left-to-right |
| ChapterReader.PerFrame | frontend/digiman/src/components/chapterComponents/ChapterReader.jsx:81 | one or two pages per frame, two exactly for the 'double' display |
| ChapterReader.EffectiveMode | frontend/digiman/src/components/chapterComponents/ChapterReader.jsx:64 | 'single' and 'double' displays are paged whatever the mode prop says; otherwise the prop decides |
| ChapterReader.PairSwappedInvolution | frontend/digiman/src/components/chapterComponents/ChapterReader.jsx:72-73 | swapping every full pair twice gives the pages back |
| ChapterReader.MakeFrames | frontend/digiman/src/components/chapterComponents/ChapterReader.jsx:67-79 | ceil(n / perFrame) frames, each non-empty and at most perFrame long, all but the last exactly perFrame long |
| ChapterReader.MakeFramesFlatten | frontend/digiman/src/components/chapterComponents/ChapterReader.jsx:67-79 | concatenating the frames gives the pages back, except that each full pair is swapped in double-page right-to-left |
| ChapterReader.DisplayFrames | frontend/digiman/src/components/chapterComponents/ChapterReader.jsx:87 | the frames reversed in 'simple' right-to-left and unchanged otherwise, 'mangadex' included |
| ChapterReader.NormalizedStart | frontend/digiman/src/components/chapterComponents/ChapterReader.jsx:90-106 | never past the last frame; with no start or start 0 the initial frame is the last one in both right-to-left modes (no start: 'mangadex' only) and 0 otherwise; a valid start maps into range, mirrored in right-to-left |
| ChapterReader.StartShowsFrame | frontend/digiman/src/components/chapterComponents/ChapterReader.jsx:90-106 | for a valid start the display index is in range and shows logical frame `start`, or its mirror in 'mangadex' right-to-left |
| ChapterReader.NavigationStaysInRange | frontend/digiman/src/components/chapterComponents/ChapterReader.jsx:114-128 | next and prev keep a valid index valid and undo each other away from the ends; in 'mangadex' right-to-left next decrements |
| ChapterReader.RightwardRaisesLeftwardLowers | frontend/digiman/src/components/chapterComponents/ChapterReader.jsx:131-146 | in paged mode ArrowRight/PageDown and the right edge raise the clamped index and ArrowLeft/PageUp and the left edge lower it, in every direction mode; keys do nothing outside paged mode |
| ChapterReader.SwipeStaysInRange | frontend/digiman/src/components/chapterComponents/ChapterReader.jsx:177-199 | a swipe keeps a valid index valid, and a swipe within the 50-pixel threshold on both axes changes nothing |
| Pagination.TotalPages | frontend/digiman/src/components/common/Pagination.jsx:17 | at least one page, enough pages to hold every item, and no page wholly empty beyond the first |
| Pagination.Current | frontend/digiman/src/components/common/Pagination.jsx:18 | the current page always lies in 1..totalPages, equals a page already in range, and is 1 for a missing or zero page |
| Pagination.WindowShape | frontend/digiman/src/components/common/Pagination.jsx:21-29 | with at least one slot, the window is a contiguous ascending run inside 1..totalPages that contains the current page and is min(totalPages, maxPagesToShow) long |
| Pagination.Render | frontend/digiman/src/components/common/Pagination.jsx:73-110 | nothing is rendered exactly when there is at most one page; otherwise prev is disabled exactly on page 1 and next exactly on the last page |
| Pagination.LinksCover | frontend/digiman/src/components/common/Pagination.jsx:82-106 | around a contiguous window the linked page numbers rise strictly from 1 to the last page, and every page not linked lies in a gap before or after the window |
| Pagination.BarCoversAllPages | frontend/digiman/src/components/common/Pagination.jsx:82-106 | page 1 is shown exactly when the window starts above 1 and the ellipsis exactly when it starts above 2, symmetrically at the end; every page not linked sits in a gap marked by an ellipsis |
| Pagination.RelLinks | frontend/digiman/src/components/common/Pagination.jsx:43-54 | the prev and next head links are added exactly when their targets are real pages |
| FormatTime.ElapsedSeconds | frontend/digiman/src/utils/formatTime.js:5 | the floor of the millisecond difference over 1000: s·1000 ≤ now − date < s·1000 + 1000 |
| FormatTime.Scan | frontend/digiman/src/utils/formatTime.js:14-17 | a reported unit comes from the remaining list with its floor quotient ≥ 1, no coarser remaining unit fits, and the loop falls through only when fewer than 60 seconds remain |
| FormatTime.Describe | frontend/digiman/src/utils/formatTime.js:1-19 | an unparsable date and anything under 60 seconds, the future included, is 'just now'; otherwise a unit from the list with v·secs ≤ seconds < (v+1)·secs, so the last 'just now' is unreachable |
| FormatTime.Render | frontend/digiman/src/utils/formatTime.js:16 | "v unit ago", with a trailing 's' on the unit exactly when v > 1 |
| FormatTime.CoarsestUnitWins | frontend/digiman/src/utils/formatTime.js:7-17 | from a minute on, the label is a unit and every coarser unit is longer than the elapsed time |
| FormatTime.HourBoundary | frontend/digiman/src/utils/formatTime.js:7-17 | an hour and a half reads "1 hour", a minute short of an hour reads "59 minutes" |
| Transform.MapMangaTitle | frontend/digiman/src/utils/transform.js:1-16 | each of id, title, altTitle, coverUrl, synopsis, status, chapterCount, dateUpdated, publicationDate and previewChapterId is the value of its own API field (`undefined` when absent); author and artist both come from author_name |
| Transform.MapChapter | frontend/digiman/src/utils/transform.js:18-27 | chapter_number, upload_date, prev_chapter_id and next_chapter_id are renamed; id and title are kept |
| Transform.MapPage | frontend/digiman/src/utils/transform.js:29-35 | exactly index, url and alt are copied |
| Transform.MangaReadsOnlyItsFields | frontend/digiman/src/utils/transform.js:1-16 | records that agree on the fields read map to the same view: no other field flows through |
| Transform.ChapterReadsOnlyItsFields | frontend/digiman/src/utils/transform.js:18-27 | records that agree on the six fields read map to the same chapter view |
| Transform.PageReadsOnlyItsFields | frontend/digiman/src/utils/transform.js:29-35 | records that agree on index, url and alt map to the same page view |
| Transform.MapChapters | frontend/digiman/src/customHooks/useChapterPage.js:91 | mapping a list maps each element in place |
| Transform.MapPages | frontend/digiman/src/customHooks/useChapterPage.js:89 | mapping a page list maps each page in place |
| CommentsStore.Key | frontend/digiman/src/utils/comments.js:4 | the key is "comments_" + mangaId + "_" + chapterId, as JavaScript stringifies them |
| CommentsStore.Load | frontend/digiman/src/utils/comments.js:2-11 | the stored list when the slot parses; a missing key, empty text or unparsable text gives [] |
| CommentsStore.Save | frontend/digiman/src/utils/comments.js:13-19 | a refused write is swallowed and changes nothing; no other key changes |
| CommentsStore.SaveThenLoad | frontend/digiman/src/utils/comments.js:2-19 | loading right after an accepted save for the same ids returns the saved list; lists under other keys are untouched |
| CommentsStore.KeysCanCollide | frontend/digiman/src/utils/comments.js:4 | ("1_2", "3") and ("1", "2_3") share a key, since ids may contain the separator |
| CommentsStore.MissingChapterKey | frontend/digiman/src/utils/comments.js:4 | a missing chapter id is spelled "undefined" in the key |
| CommentsPage.WrapSelection | frontend/digiman/src/components/pages/CommentsPage.jsx:74-91 | the text before the selection and after it is kept, the selection (or "text" when empty) sits wrapped in the tag between them, the length grows by len(sel) − (end − start) + 2·len(tag) + 5, and the caret lands just after the closing tag; a missing textarea does nothing |
| CommentsPage.AcceptsFile | frontend/digiman/src/components/pages/CommentsPage.jsx:97-107 | a file is kept exactly when it is at most 5·1024·1024 bytes, so exactly 5 MiB passes |
| CommentsPage.OnPost | frontend/digiman/src/components/pages/CommentsPage.jsx:36-50 | an anonymous post goes to the login page, and a post is created exactly when the user is logged in and there is an image or a non-space character |
| CommentsPage.EditProceeds | frontend/digiman/src/components/pages/CommentsPage.jsx:130-131 | an edit stops exactly when it is not a delete, has no preview and its text is all white space; a delete always proceeds |
| CommentsPage.DeleteProceeds | frontend/digiman/src/components/pages/CommentsPage.jsx:161-164 | a delete reaches the request exactly when it is confirmed |
| CommentsPage.Settle | frontend/digiman/src/components/pages/CommentsPage.jsx:56-67 | after the create request settles the upload indicator is idle; a success clears text, image and preview, a failure keeps them |
| CommentsPage.FailedPostKeepsInput | frontend/digiman/src/components/pages/CommentsPage.jsx:47-67 | starting and then failing a post leaves the form as typed with the indicator reset |
| CommentCache.MutationKey | frontend/digiman/src/customHooks/useCreateEditComment.js:16 | the key carries the manga id and the chapter id with undefined and null both normalised to null |
| CommentCache.ListKey | frontend/digiman/src/customHooks/useGetComments.js:11-13 | the list key normalises a missing chapter id to null and keeps any other |
| CommentCache.MutationHitsList | frontend/digiman/src/customHooks/useCreateEditComment.js:43-55 | the key a mutation invalidates is the key the list reads, also when the chapter id is undefined on one side and null on the other |
| CommentCache.Optimistic | frontend/digiman/src/customHooks/useCreateEditComment.js:20-31 | the placeholder has an "optimistic-" id, status 'active', is_edited false, owner "You", and the typed text or '' |
| CommentCache.OnMutate | frontend/digiman/src/customHooks/useCreateEditComment.js:15-36 | the snapshot is the entry as it was; the entry gains the placeholder in front of its results with every other field kept, or becomes {results: [placeholder]} when nothing was cached; other keys are untouched |
| CommentCache.OnError | frontend/digiman/src/customHooks/useCreateEditComment.js:37-41 | with a snapshot the entry is put back; without one the cache is left as it is |
| CommentCache.RollbackRestores | frontend/digiman/src/customHooks/useCreateEditComment.js:15-41 | a failed create on a cached key restores the whole cache exactly |
| CommentCache.RollbackWithoutSnapshotKeepsPlaceholder | frontend/digiman/src/customHooks/useCreateEditComment.js:33-39 | a failed create on an uncached key leaves the placeholder entry in place |
| CommentCache.CreateInvalidates | frontend/digiman/src/customHooks/useCreateEditComment.js:42-45 | create invalidates its key whether it succeeded or failed |
| CommentCache.EditInvalidates | frontend/digiman/src/customHooks/useCreateEditComment.js:53-56 | edit invalidates its key only on success |
| CommentCache.ChooseFetch | frontend/digiman/src/customHooks/useGetComments.js:14-19 | the chapter endpoint is called exactly when the normalised chapter id is truthy, otherwise the manga endpoint |
| CommentCache.QueryOptions | frontend/digiman/src/customHooks/useGetComments.js:21-22 | the query is enabled exactly when online and retried once online, never offline |
| CommentCache.Comments | frontend/digiman/src/customHooks/useGetComments.js:28 | the mapped results in order, or [] when there is no data or no results |
| Search.ChapterNumber | frontend/digiman/src/components/smallComponents/SearchBar.jsx:49 | the chapter label's digits, all of them and in order, read as a decimal number; 0 when there are none |
| Search.DigitsParse | frontend/digiman/src/components/smallComponents/SearchBar.jsx:49-50 | `parseInt(digits, 10) \|\| 0` on a string of digits is its decimal value, and 0 for the empty string |
| Search.MockFilter | frontend/digiman/src/components/smallComponents/SearchBar.jsx:38-53 | an order-preserving sub-list of the fixture holding exactly the entries that pass the case-insensitive title term and every active status, rating, genre-overlap and minimum-chapter filter |
| Search.EmptySearchIsEverything | frontend/digiman/src/components/smallComponents/SearchBar.jsx:38-53 | with no term and no parameters the whole fixture passes |
| Search.OrderMock | frontend/digiman/src/components/smallComponents/SearchBar.jsx:54-62 | 'latest_chapter' gives a permutation sorted by chapter number, largest first, in which titles with equal numbers keep their filter order (the comparator sort is stable); an ordering other than 'title' keeps the filter order |
| Search.Shape | frontend/digiman/src/components/pages/AdvancedSearchPage.jsx:71-73 | an array body as it is, else its results array, else [] |
| Search.SearchBarBackend | frontend/digiman/src/components/smallComponents/SearchBar.jsx:26-64 | an answer is shaped as above; on failure the result is a permutation of the mock filter and so consists of fixture entries only |
| Search.AdvancedBackend | frontend/digiman/src/components/pages/AdvancedSearchPage.jsx:67-78 | an answer is shaped as above and any failure gives [] |
| Search.OnChange | frontend/digiman/src/components/smallComponents/SearchBar.jsx:66-76 | an all-white-space value clears and closes; any other value searches its trimmed, non-empty form |
| Search.OnSubmit | frontend/digiman/src/components/smallComponents/SearchBar.jsx:78-84 | submitting navigates exactly when there are results, and then to the first one |
| Search.ParamOr | frontend/digiman/src/components/pages/AdvancedSearchPage.jsx:20-26 | `qs.get(name) \|\| fallback`: the value when present and non-empty, otherwise the fallback |
| Search.ReadUrl | frontend/digiman/src/components/pages/AdvancedSearchPage.jsx:19-26 | defaults q '', contentRating 'any', status 'any', minChapter '', ordering 'relevance'; no genres for a missing or empty genre parameter, otherwise the parts between commas: none of them holds a comma and they join back to it, which fixes them uniquely |
| Search.ReadUrlGenresRoundTrip | frontend/digiman/src/components/pages/AdvancedSearchPage.jsx:19-26 | a non-empty `genre` parameter written as the join of comma-free genres reads back as exactly those genres |
| Text.JoinInjective | frontend/digiman/src/components/pages/AdvancedSearchPage.jsx:19-26 | two lists of comma-free parts with the same join are equal, so the split at commas is the only reading of the parameter |
| Search.SearchIffMeaningfulUrl | frontend/digiman/src/components/pages/AdvancedSearchPage.jsx:34 | the load-time search runs exactly when the URL carries a term, a genre, a minimum chapter, or a rating or status other than 'any' |
| Search.DefaultsDoNotSearch | frontend/digiman/src/components/pages/AdvancedSearchPage.jsx:20-34 | a URL with only default rating, status and ordering triggers no search |
| Search.ToggleGenre | frontend/digiman/src/components/pages/AdvancedSearchPage.jsx:134 | a selected genre is removed with every copy of it and the rest keep their order and multiplicity; an unselected one is appended; membership of every other genre is unchanged |
| Search.ToggleKeepsDistinct | frontend/digiman/src/components/pages/AdvancedSearchPage.jsx:134 | toggling keeps a duplicate-free selection duplicate-free, and toggling an absent genre twice restores the list |
| Catalog.Latest | frontend/digiman/src/customHooks/useCatalog.js:10-17 | a permutation of the fixture ordered by update time, newest first, with a missing date counted as 0; entries with the same time keep their fixture order |
| Catalog.Popular | frontend/digiman/src/customHooks/useCatalog.js:22-26 | the first min(n, 12) items of that same ordering, so among entries with equal times the ones earliest in the fixture are shown |
| Catalog.PopularIsNewest | frontend/digiman/src/customHooks/useCatalog.js:22-26 | nothing left out of the popular list is newer than anything in it |
| Catalog.SmallFixtureAllPopular | frontend/digiman/src/customHooks/useCatalog.js:26 | fixture example: a fixture of at most twelve entries is popular in full |
| Catalog.LiveLatest | frontend/digiman/src/customHooks/useCatalog.js:53 | the mapped results in order, or [] without data or results |
| Catalog.MockSwitchesDisagreeOnlyWhenUnset | frontend/digiman/src/customHooks/useCatalog.js:7-8 | the catalogue's mock switch and the chapter page's differ exactly when the variable is unset or empty |
| Sorting.SortDescSorted | frontend/digiman/src/customHooks/useCatalog.js:13-17 | the comparator sort `db - da` puts larger keys first |
| Sorting.SortDescStable | frontend/digiman/src/customHooks/useCatalog.js:13-17 | stability for every input: the entries sharing any one key come out in their input order |
| Sorting.SortedInputUnchanged | frontend/digiman/src/customHooks/useCatalog.js:13-17 | an input already in key order comes back unchanged |
| Theme.Normalize | frontend/digiman/src/context/ThemeContext.jsx:11-13 | the result is lower case and never 'slate'; any name other than 'slate' in lower case is kept as its lower-case form |
| Theme.NormalizeIdempotent | frontend/digiman/src/context/ThemeContext.jsx:11-13 | normalising twice is normalising once |
| Theme.Initial | frontend/digiman/src/context/ThemeContext.jsx:6-18 | a stored profile object gives its theme, defaulting to 'Dark', normalised; with nothing stored, garbage or null the theme is 'dark' when the system prefers dark and 'light' otherwise; never 'slate' or empty |
| Theme.Toggle | frontend/digiman/src/context/ThemeContext.jsx:65 | 'dark' becomes 'light' and every other theme becomes 'dark' |
| Theme.ToggleTwice | frontend/digiman/src/context/ThemeContext.jsx:65 | toggling twice restores 'dark' and 'light' |
| Theme.Capitalize | frontend/digiman/src/context/ThemeContext.jsx:30 | same length, first letter upper-cased, the rest kept |
| Theme.Persist | frontend/digiman/src/context/ThemeContext.jsx:27-32 | the stored profile (or {} when absent) gets the capitalised theme and keeps every other field; garbage, null or a refused write leave storage as it was; other keys are untouched |
| Theme.PersistThenInitial | frontend/digiman/src/context/ThemeContext.jsx:6-32 | persisting a normalised theme and initialising from storage gives the same theme back, whatever the system preference |
| Theme.OnExternalTheme | frontend/digiman/src/context/ThemeContext.jsx:39-47 | a truthy event theme replaces the theme after the same normalisation; anything else leaves it |
| Theme.OwnEventIsStable | frontend/digiman/src/context/ThemeContext.jsx:34-47 | the provider's own broadcast, heard back, does not change a normalised theme |
| Theme.OnStorage | frontend/digiman/src/context/ThemeContext.jsx:50-60 | a storage event for the profile key whose new object has a truthy theme sets the normalised theme; any other event leaves it |
| Library.Key | frontend/digiman/src/components/pages/Library.jsx:9 | "followed_mangas_" + the user id when the user has a truthy id, otherwise "followed_mangas_guest" |
| Library.UserKeyIsNotGuestKey | frontend/digiman/src/components/pages/Library.jsx:9 | a signed-in user's list never shares the guest key unless the id prints as 'guest' |
| Library.Load | frontend/digiman/src/components/pages/Library.jsx:12-18 | the stored list, or [] for a missing key, empty text or unparsable data |
| Library.Unfollow | frontend/digiman/src/components/pages/Library.jsx:25-35 | every entry whose id prints like the argument goes and the rest stay in order, each as often as before; the persisted list equals the displayed one; unparsable data or a refused write change nothing |
| Library.UnfollowTwice | frontend/digiman/src/components/pages/Library.jsx:29-31 | a second unfollow of the same id changes nothing more |
| Library.UnfollowAbsent | frontend/digiman/src/components/pages/Library.jsx:29 | unfollowing an id nobody follows shows the stored list unchanged |
| Records.Apply | backend/digimanproject/api/utils/helper_functions.py:8-12 | exactly the allowed keywords are assigned, with their values; every other field is left as it was; the recorded names are the allowed keywords in keyword order |
| Records.UpdateInstance | backend/digimanproject/api/utils/helper_functions.py:7-15 | update_fields is the allowed keywords in keyword order; the row is validated and saved exactly when some keyword is allowed, and a failed validation is the only error |
| Records.FieldsNonEmptyIff | backend/digimanproject/api/utils/helper_functions.py:13 | the list of applied names is non-empty exactly when some keyword is allowed |
| Records.NothingAllowedIsNoOp | backend/digimanproject/api/utils/helper_functions.py:7-15 | keywords none of which is allowed change nothing and save nothing |
| Records.GetTargetObject | backend/digimanproject/api/utils/helper_functions.py:17-29 | an unmapped type raises ValueError "Invalid target type: …"; otherwise the row with that id, or None when there is none |
| MangaModels.MaxNumber | backend/digimanproject/api/models/manga_models.py:152-154 | the aggregate maximum: none exactly for a chapter without pages, otherwise a page number no page exceeds |
| MangaModels.NextNumber | backend/digimanproject/api/models/manga_models.py:152-157 | the new number exceeds every existing page number and is 1 for an empty chapter |
| MangaModels.AddPage | backend/digimanproject/api/models/manga_models.py:150-159 | the existing pages are untouched and the new page with the given id and URL is numbered after all of them, 1 in an empty chapter |
| MangaModels.AddPageKeepsNumbering | backend/digimanproject/api/models/manga_models.py:150-159 | adding a page keeps page numbers unique, and turns a contiguous 1..n into 1..n+1 |
| MangaModels.Shift | backend/digimanproject/api/models/manga_models.py:164-166 | a page numbered above the removed number moves down by one, any other keeps its number, and id and image are kept |
| MangaModels.RemovePage | backend/digimanproject/api/models/manga_models.py:161-167 | the row with the page's id is deleted wherever it is, in this chapter or another; True exactly when such a row existed; no page with that id remains in either table; the other chapters' pages are otherwise untouched; this chapter's other pages keep their order, with the numbers above the page's number shifted down by one |
| MangaModels.RemovePageKeepsNumbering | backend/digimanproject/api/models/manga_models.py:161-167 | removing one of its own pages from a contiguous 1..n chapter leaves 1..n−1, leaves the other chapters' pages alone and reports True |
| MangaModels.ForeignPageRemoval | backend/digimanproject/api/models/manga_models.py:161-167 | a page of another chapter is deleted and reported True, and this chapter's pages numbered above it still move down by one, although none of them was removed |
| MangaModels.KeptNumbers | backend/digimanproject/api/models/manga_models.py:178-184 | the pages kept by a removal avoid the removed number and keep distinct numbers in 1..n |
| MangaModels.RemoveGenre | backend/digimanproject/api/models/manga_models.py:106-110 | returns True exactly when the genre was attached, removes it, and changes nothing else; an unattached genre leaves the title as it was |
| MangaModels.AddGenre | backend/digimanproject/api/models/manga_models.py:101-104 | the genre is attached afterwards; the plain columns, author and visibility are unchanged |
| MangaModels.RemoveUndoesAdd | backend/digimanproject/api/models/manga_models.py:101-110 | removing a genre just added to a title without it restores the title and reports True |
| MangaModels.ToggleVisibility | backend/digimanproject/api/models/manga_models.py:97-99 | visibility flips and every other field stays |
| MangaModels.ToggleVisibilityTwice | backend/digimanproject/api/models/manga_models.py:97-99 | toggling twice restores the title |
| MangaModels.MangaUpdateMetadata | backend/digimanproject/api/models/manga_models.py:80-95 | an author_name goes to add_author (get-or-create, saved at once) and is dropped from the patch; only title, description, cover_image, preview_chapter and publication_status can change; a failed validation changes no column |
| MangaModels.ChapterUpdateMetadata | backend/digimanproject/api/models/manga_models.py:145-148 | only title and chapter_number can change, and those given are set |
| MangaModels.PageUpdateMetadata | backend/digimanproject/api/models/manga_models.py:189-192 | only page_number and image_url can change, and those given are set |
| UserModels.UpdateRole | backend/digimanproject/api/models/user_models.py:55-59 | fails with ValueError("Invalid role: …") exactly when the role is not admin or reader; otherwise only the role changes |
| UserModels.UpdateStatus | backend/digimanproject/api/models/user_models.py:61-65 | fails with ValueError("Invalid status: …") exactly when the status is not active, suspended or deactivated; otherwise only the status changes |
| UserModels.UpdateRoleReversible | backend/digimanproject/api/models/user_models.py:55-59 | setting a valid role and then the previous one restores the user |
| UserModels.DisplayName | backend/digimanproject/api/models/user_models.py:44-45 | a plain user shows the username; a reader shows a non-empty display name, else the username; a user with a username never shows an empty name |
| UserModels.UpdateProfileAsWritten | backend/digimanproject/api/models/user_models.py:47-81 | passing the profile dict as a positional argument to update_instance always raises TypeError |
| UserModels.UpdateProfile | backend/digimanproject/api/models/user_models.py:47-49 | with the dict passed as keyword arguments: no field outside the allowed set changes and every allowed field given is written |
| UserModels.ReaderProfileKeepsCredentials | backend/digimanproject/api/models/user_models.py:79-81 | a reader's profile update never writes username or email, whatever the request holds |
| UserModels.UpdateProfileDiscrepancy | backend/digimanproject/api/models/user_models.py:79-81 | a reader setting display_name "Kai" fails as written but succeeds and writes it when corrected |
| UserModels.PostCommentAsWritten | backend/digimanproject/api/models/user_models.py:185-195 | never creates a comment: no target or two targets give the ValueError, one target reaches the positional create and its TypeError |
| UserModels.PostComment | backend/digimanproject/api/models/user_models.py:185-195 | succeeds exactly when one of manga title and chapter is given and the comment validates; the new comment is active, owned by the poster and holds the content and target |
| UserModels.PostCommentDiscrepancy | backend/digimanproject/api/models/user_models.py:195 | a plain comment on one chapter fails as written and is created when corrected |
| UserModels.DeleteComment | backend/digimanproject/api/models/user_models.py:200-201 | the comment is marked deleted and keeps its content and owner |
| UserModels.PostReportAsWritten | backend/digimanproject/api/models/user_models.py:214 | calling values() on the choices list always raises TypeError |
| UserModels.PostReport | backend/digimanproject/api/models/user_models.py:208-220 | fails with ValueError("Invalid target content type: …") exactly when the type is not one of the report target types; otherwise creates a report with the owner, content and target given |
| UserModels.PostReportDiscrepancy | backend/digimanproject/api/models/user_models.py:214 | a report on a comment fails as written and is created when corrected |
| UserModels.BuiltInListsAsWritten | backend/digimanproject/api/models/user_models.py:102 | calling values() on the built-in names always raises TypeError |
| UserModels.BuiltInLists | backend/digimanproject/api/models/user_models.py:92-114 | existing lists are kept; afterwards the reader has every built-in list; what is created is the reader's built-in lists, with distinct names; the result is exactly the reader's built-in lists |
| UserModels.CreatedCoverMissing | backend/digimanproject/api/models/user_models.py:95-111 | the lists created for the missing names, added to those found, cover every built-in name |
| UserModels.BuiltInListsIdempotent | backend/digimanproject/api/models/user_models.py:92-114 | a second call creates nothing |
| ReaderModels.UpdatePreferences | backend/digimanproject/api/models/reader_models.py:58-63 | no column outside theme_mode, page_display_style, reading_direction, image_size_mode and is_progress_bar_visible changes, every allowed field given is written, and only allowed fields are reported as updated |
| ReaderModels.DefaultsCoverPreferenceFields | backend/digimanproject/api/models/reader_models.py:40-63 | the fields with defaults (light, single-page, left_to_right, fit_both, visible) are exactly the updatable preference fields |
| ReaderModels.SixDistinctBuiltInNames | backend/digimanproject/api/models/reader_models.py:72-78 | there are six built-in list names and no two are equal |
| ReaderModels.ListUpdateMetadata | backend/digimanproject/api/models/reader_models.py:105-108 | only name and visibility can change, and those given are written |
| ReaderModels.AddMangaTitle | backend/digimanproject/api/models/reader_models.py:110-111 | the title joins the list's set of titles (adding one already there changes nothing) and nothing else changes |
| ReaderModels.RemoveMangaTitle | backend/digimanproject/api/models/reader_models.py:113-117 | reports True exactly when the title was in the list; the title is gone afterwards; a title not in the list leaves it unchanged |
| ReaderModels.RemoveUndoesAdd | backend/digimanproject/api/models/reader_models.py:110-117 | removing a title just added to a list without it restores the list and reports True |
| CommunityModels.CleanError | backend/digimanproject/api/models/community_models.py:49-61 | an image comment is valid exactly when its content is a URL; a text comment exactly when it has a character that is not whitespace; a failure is a ValidationError |
| CommunityModels.UpdateContent | backend/digimanproject/api/models/community_models.py:66-68 | only the content changes, to the value given |
| CommunityModels.ToggleHidden | backend/digimanproject/api/models/community_models.py:70-73 | an active comment becomes hidden and any other status becomes active; the reasons are replaced and nothing else changes |
| CommunityModels.ToggleHiddenTwice | backend/digimanproject/api/models/community_models.py:70-73 | toggling an active or hidden comment twice restores its status |
| CommunityModels.ToggleRevivesDeleted | backend/digimanproject/api/models/community_models.py:71 | toggling a deleted comment makes it active again |
| CommunityModels.SetDeleted | backend/digimanproject/api/models/community_models.py:75-77 | the status becomes deleted and nothing else changes |
| CommunityModels.SetDeletedIdempotent | backend/digimanproject/api/models/community_models.py:75-77 | deleting twice is the same as deleting once |
| CommunityModels.ReportUpdateStatus | backend/digimanproject/api/models/community_models.py:130-132 | the status becomes the given value, whatever it is, and nothing else changes |
| CommunityModels.ReportStatusUnchecked | backend/digimanproject/api/models/community_models.py:130-132 | a status outside pending, resolved and dismissed is stored unchecked |
| CommunityModels.ReportTarget | backend/digimanproject/api/models/community_models.py:114-127 | a target type outside manga_title, chapter, comment and user is an error; each of the four types looks the id up in its own table and gives that row, or none |
| CommunityModels.MarkAsRead | backend/digimanproject/api/models/community_models.py:183-185 | the notification is read afterwards and nothing else changes |
| CommunityModels.MarkAsReadIdempotent | backend/digimanproject/api/models/community_models.py:183-185 | marking twice is the same as marking once |
| SystemModels.Resolve | backend/digimanproject/api/models/system_models.py:63-65 | the flag is resolved afterwards and nothing else changes |
| SystemModels.ResolveIdempotent | backend/digimanproject/api/models/system_models.py:63-65 | resolving twice is the same as resolving once |
| SystemModels.UpdateStatus | backend/digimanproject/api/models/system_models.py:96-115 | a status outside active, scheduled, expired and hidden raises ValueError; otherwise the row is the status set, then scheduled_at when given, else expired_at when given, and the call succeeds exactly when that row passes full_clean; a date not given keeps its column; no other column changes |
| SystemModels.Assigned | backend/digimanproject/api/models/system_models.py:103-111 | the status is set, then scheduled_at when given, else expired_at when given; every other column is kept |
| SystemModels.UpdateStatusRepeat | backend/digimanproject/api/models/system_models.py:96-115 | repeating a successful status update on the row it produced gives the same row and saved fields |
| SystemModels.BothDatesStoreOnlyScheduled | backend/digimanproject/api/models/system_models.py:106-111 | giving both dates stores only the scheduled date |
| SystemModels.AnnouncementUpdateMetadata | backend/digimanproject/api/models/system_models.py:91-94 | only title and content can change, and those given are written |
| SystemModels.AutoResolveIsUndeclared | backend/digimanproject/api/models/system_models.py:119-124 | the five declared action types do not include the action the flag service logs for auto-resolved flags |
| SystemModels.Moderate | backend/digimanproject/api/models/system_models.py:182-184 | the entry is moderated afterwards and nothing else changes |
| SystemModels.ModerateIdempotent | backend/digimanproject/api/models/system_models.py:182-184 | moderating twice is the same as moderating once |
| SystemService.MangaModelNameUndeclared | backend/digimanproject/api/services/system_service.py:119 | the model name recorded for a manga title ("mangatitle") is not one of the log entry's declared target types |
| SystemService.ModerationDetail | backend/digimanproject/api/services/system_service.py:13-95 | with the attributes the factory reads: a reader yields three user attributes with the avatar as the only image; a plain user yields only the username; a manga title its title, alternative title, description and cover image; a chapter its title; a page its image URL; a comment its text and its image URL each exactly when non-empty; any other object no details |
| SystemService.ModerationDetailAsWritten | backend/digimanproject/api/services/system_service.py:40-93 | as written, a manga title raises AttributeError on `alternative_title` and a comment on `text`; every other kind gets its details |
| SystemService.ModerationDetailDiscrepancy | backend/digimanproject/api/services/system_service.py:49 | for every manga title and comment the factory as written fails where the intended one has details |
| SystemService.CreateLogEntry | backend/digimanproject/api/services/system_service.py:101-123 | details are recorded exactly for create and update of a moderated model, and such an entry is marked unmoderated; every other entry is moderated from the start; user, action, model name and id are recorded as given |
| SystemService.LogObjectSave | backend/digimanproject/api/services/system_service.py:126-131 | a save logs create for a new object and update otherwise, on behalf of the acting user, and waits for moderation exactly for a moderated model |
| SystemService.CreateLogEntryAsWritten | backend/digimanproject/api/services/system_service.py:101-123 | as written, a create or update of a manga title or comment raises and no entry is written; otherwise the entry is as intended |
| SystemService.LogObjectSaveAsWritten | backend/digimanproject/api/services/system_service.py:126-131 | as written, logging the save of a manga title or comment raises |
| SystemService.MangaSaveAlwaysRaises | backend/digimanproject/api/signals/manga_signals.py:7-9 | every manga title save, new or updated, raises AttributeError in its post-save signal |
| SystemService.CommentNeverPremoderated | backend/digimanproject/api/services/system_service.py:76-93 | a saved comment always waits for moderation, even with no text and no image |
| SystemService.LogObjectDelete | backend/digimanproject/api/services/system_service.py:134-136 | a delete is logged as delete, without details and already moderated |
| SystemService.CreateFlag | backend/digimanproject/api/services/system_service.py:148-195 | with FlaggedContent given the fields the code uses: every open flag for the same target type, id and content name is resolved and the other flags are kept; one anonymous moderated log entry is written per resolved flag, plus one for the new open flag, which is appended |
| SystemService.CreateFlagAsWritten | backend/digimanproject/api/services/system_service.py:158-163 | as written, every call raises FieldError on `content_name` before any flag is resolved or created |
| SystemService.CreateFlagDiscrepancy | backend/digimanproject/api/services/system_service.py:158-187 | for every input the call as written fails while the intended one adds a flag |
| SystemService.NewFlagIsOnlyOpen | backend/digimanproject/api/services/system_service.py:157-187 | afterwards the new flag is the only open flag for its target content |
| Perspective.CleanText | backend/digimanproject/api/services/perspective_api_service.py:52-63 | the result is the stripped text cut to its first 5000 characters, and is empty exactly when the text is all whitespace |
| Perspective.CleanTextIdempotentWhenShort | backend/digimanproject/api/services/perspective_api_service.py:52-63 | cleaning text already within the limit twice is the same as cleaning it once |
| Perspective.ParseEntries | backend/digimanproject/api/services/perspective_api_service.py:127-135 | the scores have one entry per lower-cased attribute name whose summary is truthy and holds a value, and each score is the value some such summary holds for that name |
| Perspective.ParseResponse | backend/digimanproject/api/services/perspective_api_service.py:127-135 | a response without attributeScores gives no scores; otherwise exactly the scored attributes, lower-cased, each once, with a value the response gave it |
| Perspective.Moderate | backend/digimanproject/api/services/perspective_api_service.py:80-102 | blank text and a failed request give no scores; otherwise the parsed response to the cleaned text |
| Perspective.BlankTextSkipsService | backend/digimanproject/api/services/perspective_api_service.py:80-82 | whitespace-only text gives no scores whatever the service would answer |
| Perspective.IsUnsafe | backend/digimanproject/api/services/perspective_api_service.py:137-143 | unsafe exactly when some attribute with a threshold (toxicity 0.65, severe_toxicity 0.55, sexually_explicit 0.6, profanity 0.4) reaches it |
| Perspective.UnknownAttributesIgnored | backend/digimanproject/api/services/perspective_api_service.py:139-141 | adding a score for an attribute without a threshold never changes the verdict |
| Perspective.Summarize | backend/digimanproject/api/services/perspective_api_service.py:146-175 | no scores give the generic message; otherwise the dominant attribute and its score, with the phrase that belongs to that attribute: the toxicity, severe-toxicity, sexually-explicit and profanity phrases, else the generic fallback |
| Perspective.PhraseNamesAttribute | backend/digimanproject/api/services/perspective_api_service.py:161-175 | no two thresholded attributes share a phrase, and none shares the fallback, so a detected summary's phrase identifies its attribute |
| Perspective.CallService | backend/digimanproject/api/services/perspective_api_service.py:177-184 | returns the moderation scores, the threshold verdict on them and their summary; no scores give not unsafe and the generic message |
| Perspective.UnsafeNeedsAnswer | backend/digimanproject/api/services/perspective_api_service.py:177-184 | an unsafe verdict implies the text was not blank and the service answered |
| Sightengine.PutAll | backend/digimanproject/api/services/sightengine_service.py:97-105 | flattening a class object adds exactly one prefixed key per class, stores each class's own value under it (for a duplicate-free object), and leaves every other key's score alone |
| Sightengine.ExplicitScores | backend/digimanproject/api/services/sightengine_service.py:92-95 | exactly the explicit classes present are copied, each with its own score |
| Sightengine.NudityScores | backend/digimanproject/api/services/sightengine_service.py:89-105 | the keys are the explicit classes present plus the suggestive_ and context_ flattened classes, each once, each with the response's value; the flattening never overwrites an explicit score |
| Sightengine.TailScores | backend/digimanproject/api/services/sightengine_service.py:107-115 | gore takes gore.probability and offensive takes offensive.prob when present; nothing else changes |
| Sightengine.ParseResponse | backend/digimanproject/api/services/sightengine_service.py:81-117 | the flat scores hold exactly the explicit, suggestive_, context_, gore and offensive keys the response provides, each once, and every one of them carries the response's value |
| Sightengine.Moderate | backend/digimanproject/api/services/sightengine_service.py:48-78 | an empty URL or a failed request gives no scores; otherwise the parsed response |
| Sightengine.ApplyContextAdjustments | backend/digimanproject/api/services/sightengine_service.py:128-139 | the same keys in the same order; below a 0.5 pool context nothing changes; from 0.5 every suggestive_bikini and suggestive_other class is scaled by 0.7 and every other class is kept |
| Sightengine.AdjustmentNeverRaises | backend/digimanproject/api/services/sightengine_service.py:134-137 | the adjustment never raises a non-negative score |
| Sightengine.ScanAsWritten | backend/digimanproject/api/services/sightengine_service.py:122-125 | True only when some thresholded class is above its threshold; False exactly when every class has a threshold and none is above it; otherwise a KeyError naming a class without a threshold that no earlier class pre-empted |
| Sightengine.IsUnsafeAsWritten | backend/digimanproject/api/services/sightengine_service.py:120-125 | an answer is the threshold verdict on the adjusted scores; a failure is a KeyError on a class of the scores that has no threshold |
| Sightengine.SafeImageWithContextFails | backend/digimanproject/api/services/sightengine_service.py:123 | a safe image with any class lacking a threshold (every context_ class) makes the verdict as written fail |
| Sightengine.PoolSceneFails | backend/digimanproject/api/services/sightengine_service.py:123 | an image whose only score is a 0.9 pool context fails with KeyError("context_sea_lake_pool") |
| Sightengine.Scan | backend/digimanproject/api/services/sightengine_service.py:122-125 | the loop with classes lacking a threshold skipped answers True exactly when some thresholded class is above its threshold |
| Sightengine.IsUnsafe | backend/digimanproject/api/services/sightengine_service.py:120-125 | the intended verdict, computed by the repaired loop: unsafe exactly when some thresholded class, after the pool-scene damping, is strictly above its threshold |
| Sightengine.AsWrittenAgreesWhenDefined | backend/digimanproject/api/services/sightengine_service.py:120-125 | wherever the verdict as written answers, it equals the intended verdict |
| Sightengine.AdjustedUnsafeIsRawUnsafe | backend/digimanproject/api/services/sightengine_service.py:120-139 | with non-negative scores, an image unsafe after damping was already unsafe before it |
| Sightengine.Summarize | backend/digimanproject/api/services/sightengine_service.py:142-183 | the generic image message exactly when there is no class other than context classes, and a detected summary exactly when there is one; then the dominant non-context class, with the phrase for its kind |
| Sightengine.CallServiceAsWritten | backend/digimanproject/api/services/sightengine_service.py:186-192 | no scores give not unsafe with the text message; otherwise the KeyError of the verdict as written, or the scores with the intended verdict and the summary of those scores |
| Sightengine.CallService | backend/digimanproject/api/services/sightengine_service.py:186-192 | the scores of the image and the intended verdict on them; the text message whenever the scores are empty (an empty URL or a failed check); otherwise the summary of those scores for the dominant class |
| Sightengine.CallServiceAgreesWhenDefined | backend/digimanproject/api/services/sightengine_service.py:186-192 | wherever the call as written answers, its answer equals the repaired call's, scores, verdict and summary alike |
| Moderation.Unpack | backend/digimanproject/api/services/ai_moderation_service.py:51-58 | the answer reaches the caller exactly when the service returned and it is unpacked into three names, and then unchanged |
| Moderation.EvolvesTransitive | backend/digimanproject/api/services/ai_moderation_service.py:41-76 | keeping or resolving old flags while only adding new ones composes over successive attributes |
| Moderation.Step | backend/digimanproject/api/services/ai_moderation_service.py:43-76 | one attribute adds one open flag for the entry's target and the attribute's name exactly when its content is non-empty and the service returned a non-empty unsafe answer unpacked into three names; otherwise the store is unchanged; old flags are only kept or resolved |
| Moderation.Process | backend/digimanproject/api/services/ai_moderation_service.py:37-76 | processing an entry's attributes only keeps or resolves old flags and appends new ones |
| Moderation.ProcessConcat | backend/digimanproject/api/services/ai_moderation_service.py:41 | processing a concatenation of attributes is processing one part after the other |
| Moderation.SkippedAttributeChangesNothing | backend/digimanproject/api/services/ai_moderation_service.py:47-58 | an attribute with empty content or whose service call raises can be dropped without changing the outcome |
| Moderation.FlagCount | backend/digimanproject/api/services/ai_moderation_service.py:41-76 | with three names unpacked, one flag is created per attribute with content and a non-empty unsafe answer |
| Moderation.AsWrittenNeverFlags | backend/digimanproject/api/services/ai_moderation_service.py:53-58 | as written, unpacking five names from a three-tuple always raises and is caught, so processing an entry changes nothing |
| Moderation.Pipeline | backend/digimanproject/api/services/ai_moderation_service.py:21-34 | every entry ends up moderated, old flags are only kept or resolved, and a run over entries that are all moderated changes no flag and writes no log |
| Moderation.PipelineAsWrittenNeverFlags | backend/digimanproject/api/services/ai_moderation_service.py:30-34 | as written, a pipeline run creates no flag and writes no log, however unsafe the content |
| Moderation.WorthyAttributeFlags | backend/digimanproject/api/services/ai_moderation_service.py:30-76 | with the intended unpacking, an unmoderated entry with one attribute worth flagging gets a new flag |
| ImageSerializer.Separator | backend/digimanproject/api/serializers/image_serializer.py:24 | the split separator is the bucket name enclosed in slashes: a slash at each end and the bucket in between |
| ImageSerializer.Validate | backend/digimanproject/api/serializers/image_serializer.py:13-30 | without a truthy file_path or url the request fails with the missing-field message; a given file_path is kept as it is; otherwise the URL is accepted exactly when its path contains /bucket/, and file_path becomes what follows the first occurrence; bucket and url are kept |
| ImageSerializer.UrlRoundTrip | backend/digimanproject/api/serializers/image_serializer.py:22-26 | a URL whose path is a prefix without /bucket/, then /bucket/, then a rest validates to exactly that rest |
| ImageSerializer.FilePathWins | backend/digimanproject/api/serializers/image_serializer.py:18-28 | with a file_path given the URL is never parsed and the request is returned unchanged |
| Permissions.AdminWriteOnly | backend/digimanproject/api/permissions/admin_permissions.py:9-19 | GET, HEAD and OPTIONS are always allowed; any other method is allowed exactly for a signed-in user whose role is admin |
| Permissions.AllowedWriteIsAdmin | backend/digimanproject/api/permissions/admin_permissions.py:14-19 | an allowed write was made by a signed-in admin |
| Permissions.ReadsIgnoreUser | backend/digimanproject/api/permissions/admin_permissions.py:11-12 | a read is allowed whoever asks, anonymous or not |
| Permissions.Bucket | backend/digimanproject/api/permissions/image_permissions.py:17 | the body's bucket when it is non-empty, the query string's otherwise |
| Permissions.CanManageImage | backend/digimanproject/api/permissions/image_permissions.py:13-25 | allowed exactly for a signed-in user naming user-avatars, comment-images or manga-content, the last only for admins; a request without a user raises |
| Permissions.UserBucketsOpenToMembers | backend/digimanproject/api/permissions/image_permissions.py:19-25 | any signed-in user, whatever the role, may manage images in the two user buckets |
| Permissions.AdminSiteAllows | backend/digimanproject/api/admin/base_permission_admin.py:5-9 | a superuser is allowed, and otherwise exactly an admin |
| Permissions.HasPermission | backend/digimanproject/api/admin/base_permission_admin.py:5-9 | allowed exactly for superusers and admins |
| Permissions.HasAddPermission | backend/digimanproject/api/admin/base_permission_admin.py:11-15 | allowed exactly for superusers and admins |
| Permissions.HasChangePermission | backend/digimanproject/api/admin/base_permission_admin.py:17-21 | allowed exactly for superusers and admins |
| Permissions.HasDeletePermission | backend/digimanproject/api/admin/base_permission_admin.py:23-27 | allowed exactly for superusers and admins |
| Permissions.AdminChecksAgree | backend/digimanproject/api/admin/base_permission_admin.py:5-27 | the four admin-site checks give the same answer, and none depends on the object or view |
| Permissions.ReaderDenied | backend/digimanproject/api/admin/base_permission_admin.py:5-21 | a reader who is not a superuser is refused by the view, add and change checks |
| UserSignals.Changed | backend/digimanproject/api/signals/user_signals.py:29-35 | exactly the fields whose stored and new values differ, as an order-preserving sub-list of the field names, each as often as it is listed |
| UserSignals.PreSave | backend/digimanproject/api/signals/user_signals.py:23-46 | the instance is marked to skip logging exactly when it is a stored user whose only changed field is last_login; nothing else about it changes |
| UserSignals.PostSaveAsWritten | backend/digimanproject/api/signals/user_signals.py:7-13 | a save is logged only for an instance explicitly marked not to skip, on behalf of the acting user or else the user itself |
| UserSignals.PostSave | backend/digimanproject/api/signals/user_signals.py:7-13 | with the skip marker defaulting to False: every save not marked internal is logged as create or update on behalf of the acting user or the user itself, and waits for moderation |
| UserSignals.PostDelete | backend/digimanproject/api/signals/user_signals.py:16-20 | every delete is logged, already moderated, on behalf of the acting user or the user itself |
| UserSignals.AsWrittenNeverLogsSaves | backend/digimanproject/api/signals/user_signals.py:9 | as written, no save of a user is ever logged, since the pre-save handler only sets the marker to True |
| UserSignals.OrdinaryUpdateLogged | backend/digimanproject/api/signals/user_signals.py:7-46 | as intended, an update of a stored user that changes more than last_login is logged |
| UserSignals.LoginStampNotLogged | backend/digimanproject/api/signals/user_signals.py:23-46 | a save that only moves last_login is not logged |

## Left out

- `startDownload` and `loadDownloadedChapter` are imported but not defined in `downloads.js`. Their outcomes are parameters: `DownloadsPage.StartOutcome` and `ChapterPage.Lookup`. No retry counts, progress bands or blob stores are invented.
- Browser I/O is not modelled: `localStorage`, custom events, toasts, object URLs, the DOM and `navigator.onLine`. Storage is a map, a write that exceeds the quota is a boolean parameter, events are ignored outputs, and the online flag is a parameter.
- Timers and async scheduling are modelled one step at a time: the download tick, the search debounce, react-query's fetching and retries, and `requestAnimationFrame`. `Date.now`, `new Date().toISOString()` and the clock behind `formatTime` are parameters.
- DownloadsPage.Tick: `Math.random` is replaced by its possible increments, the integers 5 to 19.
- Pagination.TotalPages: requires a page size of at least 1. The component is never given 0, which would make the count Infinity or NaN.
- ChapterReader.NormalizedStart: requires at least one frame, because the reader returns before computing frames when there are no pages. The same holds for the navigation members.
- CommentsPage.WrapSelection: requires a selection inside the text, which the browser guarantees for a textarea.
- Theme.Initial: models a stored profile as `null` or an object only. A JSON primitive or array under the profile key is not modelled.
- DownloadsPage.Cancel: does not model `clearInterval(timers.current[id])`, the step that stops the cancelled download's timer. The page's timer table is not part of the model, so nothing here says that no `Tick` follows a cancel. Each `Tick` is one callback of a timer that is still running.
- Scores, thresholds and the 0.7 damping factor are exact real numbers. The source compares and multiplies IEEE-754 doubles, so rounding in the last bit is not modelled. A score within one rounding step of a threshold could compare differently.
- Downloads.Load, CommentsStore.Load and Library.Load: a storage slot holds either a parsed list or unparsable text. Stored JSON that parses to a non-array (a number, an object) is not modelled; the loaders would return that value and later array calls on it would throw.
- The JavaScript string routines are not modelled exactly:
  - lower- and upper-casing are ASCII only;
  - genre names are not percent-decoded;
  - the title comparison (`localeCompare`) is a parameter.
- Python's `**data` keyword arguments cannot repeat a name. So the members that take keyword arguments require `Dict.UniqueKeys`, which only restates what Python guarantees.
- Django and DRF are left out. That covers ORM queries and transactions, `full_clean`, `URLValidator`, `urlparse`, serializers, viewsets, routers and signal registration. The validators and `urlparse` are function parameters, ORM effects are map updates, and DRF's `request.user` is an optional principal.
- Permissions.AdminSiteAllows: requires a signed-in user, because the admin site only reaches these checks after its own staff login. The same holds for the four `has_*_permission` members. An anonymous user would raise AttributeError on `role`.
- `get_dominant_attribute_and_score` is missing from `utils/helper_functions.py`, which defines only `update_instance` and `get_target_object`. So the dominant attribute and score are a parameter, and so is the severity value in `create_flag`.
- Module imports are not modelled:
  - As written, the module-level imports of that helper (`sightengine_service.py:7`, `perspective_api_service.py:10`, `system_service.py:3`) raise ImportError. These services then cannot load, and neither can `ai_moderation_service` or the signals that import them.
  - `user_models.py:9` imports `..helper_functions`, not `..utils.helper_functions` as its sibling models do. `api/helper_functions.py` is not part of this model.
  - Every row about `user_models.py`, `system_service.py`, `sightengine_service.py`, `perspective_api_service.py`, `ai_moderation_service.py` and the signals describes the code once those imports resolve. The as-written members under Findings describe the first failure after import.
- Summaries drop their `{score:.2f}` text and title-cased labels. Each summary keeps its phrase, the attribute and the exact score.
- The image summary for "no scores" reuses the text message ("Text flagged …"), as `call_service` in `sightengine_service.py` does.
- SystemService.ModerationDetail: states what the detail factory gives when `MangaTitle.alternative_title` and `Comment.text` exist. Neither model declares them, so the code raises AttributeError there. `SystemService.ModerationDetailAsWritten` models that behaviour, and it is listed under Findings.
- SystemService.CreateFlag: states what `create_flag` does when FlaggedContent has `content_name`, `dominant_attribute` and `details`. It declares none of them, so the code raises FieldError on its first query. `SystemService.CreateFlagAsWritten` models that behaviour, and it is listed under Findings.
- Some other names the backend reads are not declared either. The model keeps the visible logic for these:
  - `LogEntry.ActionTypeChoices.AUTO_RESOLVE_FLAG` (`SystemModels.AutoResolveIsUndeclared`);
  - the model name "mangatitle", which is not a declared target type (`SystemService.MangaModelNameUndeclared`);
  - `Report`'s `owner` and `content` keywords in `post_report`, where the model declares `reporter` and `category`.
- Each of these is only a pass-through to a model method modelled above, or a bare ORM create, get or delete: `update_password`, `get_library_lists` and the other queryset getters, `create_library_list`, `delete_library_list`, reading-progress and offline-chapter bookkeeping, `add_admin_message`, `log_login` and `log_logout`.
- Each frontend member models the hook's state transitions and leaves rendering out. Markup, CSS classes and ARIA labels are not modelled, except the page links of the pagination bar.

## Findings

| source | as written | input that shows it | evidently intended | confidence | as-written member | corrected member |
|---|---|---|---|---|---|---|
| backend/digimanproject/api/models/user_models.py:49 | `update_instance(self, {...}, profile_data)` passes the dict as a third positional argument to a function that takes `**data`, so every profile update raises TypeError | a reader updating `display_name` to "Kai" | pass `**profile_data` and apply the allowed fields | high, not executed | UserModels.UpdateProfileAsWritten, UserModels.UpdateProfileDiscrepancy | UserModels.UpdateProfile, UserModels.ReaderProfileKeepsCredentials |
| backend/digimanproject/api/models/user_models.py:195 | `Comment.objects.create(new_comment)` passes a model instance positionally, so posting a comment always raises TypeError after validation | a text comment "hi" on one chapter | save the validated comment (`new_comment.save()`) | high, not executed | UserModels.PostCommentAsWritten, UserModels.PostCommentDiscrepancy | UserModels.PostComment |
| backend/digimanproject/api/models/user_models.py:214 | `TargetContentTypeChoices.values()` calls the list that `values` already is, so every report raises TypeError | a report on target type "comment" | test membership in `TargetContentTypeChoices.values`; also pass the declared `reporter` and `category` to `Report.objects.create` instead of `owner` and `content` | high, not executed | UserModels.PostReportAsWritten, UserModels.PostReportDiscrepancy | UserModels.PostReport |
| backend/digimanproject/api/models/user_models.py:102 | `BuiltInListNames.values()` calls a list, so fetching the built-in lists always raises TypeError | any reader, with or without lists | iterate over `BuiltInListNames.values` | high, not executed | UserModels.BuiltInListsAsWritten | UserModels.BuiltInLists, UserModels.BuiltInListsIdempotent |
| backend/digimanproject/api/services/sightengine_service.py:123 | `MODEL_THRESHOLDS[attribute]` raises KeyError for every class without a threshold, including every `context_` class the parser keeps | scores `{"context_sea_lake_pool": 0.9}` | skip classes without a threshold (`.get`) | high, not executed | Sightengine.IsUnsafeAsWritten, Sightengine.PoolSceneFails | Sightengine.IsUnsafe, Sightengine.AsWrittenAgreesWhenDefined |
| backend/digimanproject/api/services/ai_moderation_service.py:53-55 | five names are unpacked from the three-tuple `call_service` returns; the ValueError is caught at line 56, so no flag is ever created | any unmoderated entry with an unsafe attribute | unpack only `result, is_unsafe, reason`; do not pass `dominant_attribute` and `severity_score` (unbound there, so NameError) or other keywords `create_flag` does not accept (TypeError); let `create_flag` compute the severity itself; give FlaggedContent the fields `create_flag` uses (next rows); supply the missing `get_dominant_attribute_and_score` (a parameter here) | high, not executed | Moderation.AsWrittenNeverFlags, Moderation.PipelineAsWrittenNeverFlags | Moderation.FlagCount, Moderation.WorthyAttributeFlags |
| backend/digimanproject/api/signals/user_signals.py:9 | `getattr(instance, "_skip_logging", True)` treats an unmarked instance as internal, so no user save is logged | an ordinary username change of a stored user | default to False, so that only saves marked internal are skipped | medium, not executed | UserSignals.PostSaveAsWritten, UserSignals.AsWrittenNeverLogsSaves | UserSignals.PostSave, UserSignals.OrdinaryUpdateLogged |
| backend/digimanproject/api/services/system_service.py:49 | the manga-title branch reads `alternative_title`, which MangaTitle does not declare; the post-save signal (`manga_signals.py:7-9`) calls it, so every create or update of a manga title raises AttributeError | saving any manga title | read a declared field, or drop that attribute | high, not executed | SystemService.ModerationDetailAsWritten, SystemService.MangaSaveAlwaysRaises, SystemService.ModerationDetailDiscrepancy | SystemService.ModerationDetail, SystemService.CreateLogEntry |
| backend/digimanproject/api/services/system_service.py:81-92 | the comment branch reads `text` and `attached_image_url`; Comment does not declare `text`, so logging a created or updated comment raises AttributeError | a comment created with text "hi" | read the comment's declared content fields | high, not executed | SystemService.CreateLogEntryAsWritten, SystemService.LogObjectSaveAsWritten | SystemService.ModerationDetail, SystemService.CommentNeverPremoderated |
| backend/digimanproject/api/services/system_service.py:158-163 | the first query filters on `content_name`, which FlaggedContent does not declare, so every call raises FieldError; the create at 177-187 also passes the undeclared `dominant_attribute` and `details` | any flag for any log entry | declare `content_name`, `dominant_attribute` and `details` on FlaggedContent, and declare `AUTO_RESOLVE_FLAG` among the log entry actions so that superseding an open flag (:169) does not raise AttributeError | high, not executed | SystemService.CreateFlagAsWritten, SystemService.CreateFlagDiscrepancy | SystemService.CreateFlag, SystemService.NewFlagIsOnlyOpen |
