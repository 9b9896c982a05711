# UhuruPhotos core, modelled in Dafny

UhuruPhotos is an Android client for a LibrePhotos server. This project models
the parts of the app that hold sequential logic and proves properties of them:

- **Album synchronisation** (`AlbumsRepository`). Albums are fetched page by page
  and the pages are merged. A refresh driver lists albums, picks the recent ones
  (shallow) or all of them, downloads each in order and reports progress. The
  local album tables are cleared and re-filled, or have one album's rows replaced.
  The tables are `seq` fields of a class; the remote service is a function parameter.
- **The feed-details background job** (`FeedDetailsDownloadWorker`). Items are
  refreshed in feed order, the first failure stops the job, and the job retries
  while fewer than 4 attempts have run.
- **Avatar and user-badge state** (`AvatarUseCase`, `UserBadgeUseCase`). These map
  a job state to a sync state, derive initials and the full name, and combine job
  states with the `plus` operator.
- **Discover-screen suggestions** (`Initialise`, `SearchSuggestion`). The query
  filter, the three suggestion sources, and the cut-down people strip.
- **Screen handlers** (`PhotoHandler`, `FeedPageHandler`). Each maps an action to
  an ordered trace of mutations, effects and use-case calls.
- **State reducers** (`GalleryPageMutation`, `HeatMapReducer`).

One module per source file. `Wrappers` holds Option/Result. `Text` holds ASCII case
mapping and decimal rendering. `WorkInfo` holds the job and sync states.
`AlbumSync` is the pure specification of album synchronisation, and
`AlbumsRepository` is the class that performs it step by step.

Exceptions caught by `runCatchingWithLog` and failed remote calls become
`Err`. A Kotlin `!!` on null becomes a thrown `NullPointerException`.

## Model

| member | source | states |
|---|---|---|
| AlbumSync.PagesUpTo | implementation/albums/src/main/kotlin/com/savvasdalkitsis/uhuruphotos/implementation/albums/repository/AlbumsRepository.kt:308-313 | pages 1..n are requested in that order; the result is Ok exactly when none of those requests failed, and then its i-th element is page i+1 |
| AlbumSync.LeastStop | implementation/albums/src/main/kotlin/com/savvasdalkitsis/uhuruphotos/implementation/albums/repository/AlbumsRepository.kt:310-314 | if the fetch loop can end at some page, there is a first page at which it ends |
| AlbumSync.StopPage | implementation/albums/src/main/kotlin/com/savvasdalkitsis/uhuruphotos/implementation/albums/repository/AlbumsRepository.kt:310-314 | the fetch loop ends at the first page where a request failed or the items collected reach the numberOfItems of the page fetched last; no earlier page ends it |
| AlbumSync.StopPageUnique | implementation/albums/src/main/kotlin/com/savvasdalkitsis/uhuruphotos/implementation/albums/repository/AlbumsRepository.kt:310-314 | a page that ends the loop with no earlier page ending it is the stopping page |
| AlbumSync.ItemCountIsLength | implementation/albums/src/main/kotlin/com/savvasdalkitsis/uhuruphotos/implementation/albums/repository/AlbumsRepository.kt:314 | the sum of the page sizes equals the number of items of all pages |
| AlbumSync.Merge | implementation/albums/src/main/kotlin/com/savvasdalkitsis/uhuruphotos/implementation/albums/repository/AlbumsRepository.kt:315-319 | the merged album has every field of page 1 and the items of all pages concatenated in page order |
| AlbumSync.AllPagesSucceeded | implementation/albums/src/main/kotlin/com/savvasdalkitsis/uhuruphotos/implementation/albums/repository/AlbumsRepository.kt:307-320 | a successful paged fetch requested at least one page, every requested page succeeded, the result is the merge of those pages, and it holds at least the item count the last page announced |
| AlbumsRepository.GetAlbumAllPages | implementation/albums/src/main/kotlin/com/savvasdalkitsis/uhuruphotos/implementation/albums/repository/AlbumsRepository.kt:307-320 | the do-while loop returns exactly the paged-fetch result: the merge of pages 1..n with n the stopping page, or the first request failure |
| AlbumSync.PagedFetch | implementation/albums/src/main/kotlin/com/savvasdalkitsis/uhuruphotos/implementation/albums/repository/AlbumsRepository.kt:307-320 | the album fetcher a full refresh hands to process fetches every album as the paged fetch does |
| AlbumsRepository.FetchAlbum | implementation/albums/src/main/kotlin/com/savvasdalkitsis/uhuruphotos/implementation/albums/repository/AlbumsRepository.kt:349 | an album is fetched by the fetcher the refresh was given: all pages, or one direct call |
| AlbumSync.FirstFetchFailure | implementation/albums/src/main/kotlin/com/savvasdalkitsis/uhuruphotos/implementation/albums/repository/AlbumsRepository.kt:337-339 | the index of the first album whose fetch fails; every earlier album was fetched |
| AlbumSync.FirstFetchFailureAt | implementation/albums/src/main/kotlin/com/savvasdalkitsis/uhuruphotos/implementation/albums/repository/AlbumsRepository.kt:337-339 | any index before which all fetches succeed and at which one fails (or the end) is the first failure |
| AlbumSync.FetchedAlbums | implementation/albums/src/main/kotlin/com/savvasdalkitsis/uhuruphotos/implementation/albums/repository/AlbumsRepository.kt:337-339 | the downloads pair each requested album id with the album fetched for it, in list order |
| AlbumSync.WithoutAlbum | implementation/albums/src/main/kotlin/com/savvasdalkitsis/uhuruphotos/implementation/albums/repository/AlbumsRepository.kt:353 | deleting an album's rows keeps exactly the rows of the other albums |
| AlbumSync.EntriesFor | implementation/albums/src/main/kotlin/com/savvasdalkitsis/uhuruphotos/implementation/albums/repository/AlbumsRepository.kt:354-357 | inserting one row per element gives the elements in order, all for that album |
| AlbumSync.EntriesOfWithout | implementation/albums/src/main/kotlin/com/savvasdalkitsis/uhuruphotos/implementation/albums/repository/AlbumsRepository.kt:353 | after the delete, the album has no rows and every other album keeps its rows |
| AlbumSync.EntriesOfFor | implementation/albums/src/main/kotlin/com/savvasdalkitsis/uhuruphotos/implementation/albums/repository/AlbumsRepository.kt:354-357 | the inserted rows give the album exactly the inserted elements and no other album any |
| AlbumSync.ReplaceEntriesSpec | implementation/albums/src/main/kotlin/com/savvasdalkitsis/uhuruphotos/implementation/albums/repository/AlbumsRepository.kt:353-357 | after delete-then-insert the album has exactly the new elements, in order, and every other album is unchanged |
| AlbumSync.SummariesAfterSpec | implementation/albums/src/main/kotlin/com/savvasdalkitsis/uhuruphotos/implementation/albums/repository/AlbumsRepository.kt:337-339 | a refresh leaves the summaries of albums it did not download unchanged, and the album downloaded last has exactly its fetched items |
| AlbumSync.EveryDownloadKept | implementation/albums/src/main/kotlin/com/savvasdalkitsis/uhuruphotos/implementation/albums/repository/AlbumsRepository.kt:337-339 | every download that no later download repeats leaves its album with exactly its fetched items |
| AlbumSync.PersonPhotoRows | implementation/albums/src/main/kotlin/com/savvasdalkitsis/uhuruphotos/implementation/albums/repository/AlbumsRepository.kt:296-302 | a person's album adds one (person, photo) row per photo, in order |
| AlbumSync.PersonPhotoRowsSpec | implementation/albums/src/main/kotlin/com/savvasdalkitsis/uhuruphotos/implementation/albums/repository/AlbumsRepository.kt:296-302 | a row is added for an album exactly when it names that person and a photo of the album |
| AlbumSync.AddedRows | implementation/albums/src/main/kotlin/com/savvasdalkitsis/uhuruphotos/implementation/albums/repository/AlbumsRepository.kt:328 | the default complete-album processor adds no row |
| AlbumSync.AddedRowsSpec | implementation/albums/src/main/kotlin/com/savvasdalkitsis/uhuruphotos/implementation/albums/repository/AlbumsRepository.kt:295-303 | downloading a person's albums adds a row exactly for each photo of a downloaded album, all for that person |
| AlbumSync.Take | implementation/albums/src/main/kotlin/com/savvasdalkitsis/uhuruphotos/implementation/albums/repository/AlbumsRepository.kt:334 | take(n) fails for negative n and otherwise gives the first min(n, size) albums |
| AlbumSync.ToDownloadPrefix | implementation/albums/src/main/kotlin/com/savvasdalkitsis/uhuruphotos/implementation/albums/repository/AlbumsRepository.kt:333-336 | a shallow refresh downloads the first feedDaysToRefresh albums (all, if fewer), a full one all albums, in list order |
| AlbumSync.ProcessSpecProperties | implementation/albums/src/main/kotlin/com/savvasdalkitsis/uhuruphotos/implementation/albums/repository/AlbumsRepository.kt:329-342 | a failed listing fails and changes nothing; a failed take (shallow with negative days) fails after the listing with progress [0] and no download; otherwise the refresh succeeds exactly when every download succeeds; progress starts at 0, stays in 0..100, never decreases, has one report per downloaded album and ends at 100 on success over a non-empty list |
| AlbumSync.ProcessSpecTables | implementation/albums/src/main/kotlin/com/savvasdalkitsis/uhuruphotos/implementation/albums/repository/AlbumsRepository.kt:329-342 | once the albums to download are chosen, every downloaded album (not downloaded again later) has exactly its fetched items and every album not downloaded keeps its summaries |
| AlbumSync.ProcessSpecRows | implementation/albums/src/main/kotlin/com/savvasdalkitsis/uhuruphotos/implementation/albums/repository/AlbumsRepository.kt:295-303 | a refresh without a person adds no person row; a person's refresh adds a row exactly for each photo of the albums it downloaded, all for that person |
| AlbumSync.SingleAlbumRefresh | implementation/albums/src/main/kotlin/com/savvasdalkitsis/uhuruphotos/implementation/albums/repository/AlbumsRepository.kt:128-135 | a full refresh over a one-album listing replaces only that album's summaries, with its fetched items, and changes nothing when the fetch fails |
| AlbumSync.GroupPhotos | implementation/albums/src/main/kotlin/com/savvasdalkitsis/uhuruphotos/implementation/albums/repository/AlbumsRepository.kt:241 | the flattened photos are exactly the photos of the album's groups |
| AlbumSync.GroupPhotosConcat | implementation/albums/src/main/kotlin/com/savvasdalkitsis/uhuruphotos/implementation/albums/repository/AlbumsRepository.kt:240-244 | the flattened photos are the groups' photos group after group, each group's in its own order and multiplicity |
| AlbumSync.PersonIds | implementation/albums/src/main/kotlin/com/savvasdalkitsis/uhuruphotos/implementation/albums/repository/AlbumsRepository.kt:191-193 | the people links name each fetched person, in order |
| AlbumSync.ImageHashes | implementation/albums/src/main/kotlin/com/savvasdalkitsis/uhuruphotos/implementation/albums/repository/AlbumsRepository.kt:196-198 | the photo links name each fetched photo's hash, in order |
| AlbumSync.PhotoIds | implementation/albums/src/main/kotlin/com/savvasdalkitsis/uhuruphotos/implementation/albums/repository/AlbumsRepository.kt:241-243 | the user-album links name each photo id, in order |
| AlbumSync.ProgressReports | implementation/albums/src/main/kotlin/com/savvasdalkitsis/uhuruphotos/implementation/albums/repository/AlbumsRepository.kt:340 | after album i of n the report is 100(i+1)/n, one report per album done |
| AlbumSync.PercentBounds | implementation/albums/src/main/kotlin/com/savvasdalkitsis/uhuruphotos/implementation/albums/repository/AlbumsRepository.kt:340 | reports lie in 0..100, grow with the album index, and the last album reports 100 |
| AlbumSync.ProgressReportsSpec | implementation/albums/src/main/kotlin/com/savvasdalkitsis/uhuruphotos/implementation/albums/repository/AlbumsRepository.kt:330-341 | the report sequence starts at 0, stays in 0..100, never decreases and ends at 100 when every album of a non-empty list is done |
| AlbumsRepository.AlbumsRepository.HasAlbums | implementation/albums/src/main/kotlin/com/savvasdalkitsis/uhuruphotos/implementation/albums/repository/AlbumsRepository.kt:89 | there are albums exactly when the albums table has at least one row |
| AlbumsRepository.AlbumsRepository.ProcessIncomplete | implementation/albums/src/main/kotlin/com/savvasdalkitsis/uhuruphotos/implementation/albums/repository/AlbumsRepository.kt:118-124 | the listed albums replace the albums table, are appended to it, or leave it as it was, by processor |
| AlbumsRepository.AlbumsRepository.ProcessComplete | implementation/albums/src/main/kotlin/com/savvasdalkitsis/uhuruphotos/implementation/albums/repository/AlbumsRepository.kt:295-303 | linking a person adds that person's rows for the album's photos; the default processor adds none |
| AlbumsRepository.AlbumsRepository.ReplaceSummaries | implementation/albums/src/main/kotlin/com/savvasdalkitsis/uhuruphotos/implementation/albums/repository/AlbumsRepository.kt:352-359 | the album's photo summaries become exactly the fetched items; the other albums' rows are kept |
| AlbumsRepository.AlbumsRepository.UpdateSummaries | implementation/albums/src/main/kotlin/com/savvasdalkitsis/uhuruphotos/implementation/albums/repository/AlbumsRepository.kt:344-361 | a failed fetch changes nothing and fails; otherwise the person rows are added and the album's summaries are replaced by the fetched items |
| AlbumsRepository.AlbumsRepository.DownloadSummaries | implementation/albums/src/main/kotlin/com/savvasdalkitsis/uhuruphotos/implementation/albums/repository/AlbumsRepository.kt:337-341 | albums are downloaded in order up to the first failure; the summaries, person rows and progress are those of the downloaded prefix |
| AlbumsRepository.AlbumsRepository.Process | implementation/albums/src/main/kotlin/com/savvasdalkitsis/uhuruphotos/implementation/albums/repository/AlbumsRepository.kt:322-342 | result, progress and the three tables are exactly the refresh specification, whose properties the lemmas above state |
| AlbumsRepository.AlbumsRepository.RefreshAlbums | implementation/albums/src/main/kotlin/com/savvasdalkitsis/uhuruphotos/implementation/albums/repository/AlbumsRepository.kt:112-126 | after a successful listing the albums table holds exactly the listed albums; a failed listing leaves it; no person row is added |
| AlbumsRepository.AlbumsRepository.RefreshAlbum | implementation/albums/src/main/kotlin/com/savvasdalkitsis/uhuruphotos/implementation/albums/repository/AlbumsRepository.kt:128-136 | the album's summaries become its fetched items when the paged fetch succeeds and stay otherwise; the albums table and person rows are unchanged |
| AlbumsRepository.AlbumsRepository.DownloadPersonAlbums | implementation/albums/src/main/kotlin/com/savvasdalkitsis/uhuruphotos/implementation/albums/repository/AlbumsRepository.kt:283-305 | the listed albums are appended to the albums table without clearing it, and each downloaded album adds its person rows |
| AlbumsRepository.AlbumsRepository.RefreshAutoAlbums | implementation/albums/src/main/kotlin/com/savvasdalkitsis/uhuruphotos/implementation/albums/repository/AlbumsRepository.kt:168-176 | after a successful listing the auto-album table holds exactly the listing; a failure leaves it and is returned |
| AlbumsRepository.AlbumsRepository.RefreshUserAlbums | implementation/albums/src/main/kotlin/com/savvasdalkitsis/uhuruphotos/implementation/albums/repository/AlbumsRepository.kt:219-227 | after a successful listing the user-album table holds exactly the listing; a failure leaves it and is returned |
| AlbumsRepository.AlbumsRepository.RefreshAutoAlbum | implementation/albums/src/main/kotlin/com/savvasdalkitsis/uhuruphotos/implementation/albums/repository/AlbumsRepository.kt:178-201 | the album row is added, its people and photo links become exactly the fetched people and photo hashes, people and photo details are appended; a failed fetch changes nothing |
| AlbumsRepository.AlbumsRepository.RefreshUserAlbum | implementation/albums/src/main/kotlin/com/savvasdalkitsis/uhuruphotos/implementation/albums/repository/AlbumsRepository.kt:229-246 | the album row is added, its photo links become exactly the flattened group photos, and one summary per photo is appended; a failed fetch changes nothing |
| FeedDetailsDownloadWorker.RemoteIds | feature/feed/domain/implementation/src/main/kotlin/com/savvasdalkitsis/uhuruphotos/feature/feed/domain/implementation/worker/FeedDetailsDownloadWorker.kt:56 | the remote ids are those of the items that have one, no more ids than items |
| FeedDetailsDownloadWorker.ItemsToProcess | feature/feed/domain/implementation/src/main/kotlin/com/savvasdalkitsis/uhuruphotos/feature/feed/domain/implementation/worker/FeedDetailsDownloadWorker.kt:56 | an id is processed exactly when some feed group holds an item with that remote id |
| FeedDetailsDownloadWorker.ItemsMembership | feature/feed/domain/implementation/src/main/kotlin/com/savvasdalkitsis/uhuruphotos/feature/feed/domain/implementation/worker/FeedDetailsDownloadWorker.kt:56 | the flattened items are exactly the items of the groups |
| FeedDetailsDownloadWorker.AllItemsConcat | feature/feed/domain/implementation/src/main/kotlin/com/savvasdalkitsis/uhuruphotos/feature/feed/domain/implementation/worker/FeedDetailsDownloadWorker.kt:56 | the items of consecutive groups follow each other; one group contributes exactly its items |
| FeedDetailsDownloadWorker.RemoteIdsConcat | feature/feed/domain/implementation/src/main/kotlin/com/savvasdalkitsis/uhuruphotos/feature/feed/domain/implementation/worker/FeedDetailsDownloadWorker.kt:56 | the remote ids of consecutive item lists follow each other, so order and multiplicity are kept |
| FeedDetailsDownloadWorker.RemoteIdsOne | feature/feed/domain/implementation/src/main/kotlin/com/savvasdalkitsis/uhuruphotos/feature/feed/domain/implementation/worker/FeedDetailsDownloadWorker.kt:56 | a local-only item contributes no id and a remote item exactly its id |
| FeedDetailsDownloadWorker.ItemsToProcessConcat | feature/feed/domain/implementation/src/main/kotlin/com/savvasdalkitsis/uhuruphotos/feature/feed/domain/implementation/worker/FeedDetailsDownloadWorker.kt:56 | the ids to process are taken group after group, each group contributing the remote ids of its items in order |
| FeedDetailsDownloadWorker.FailOrRetry | feature/feed/domain/implementation/src/main/kotlin/com/savvasdalkitsis/uhuruphotos/feature/feed/domain/implementation/worker/FeedDetailsDownloadWorker.kt:74-78 | retry exactly when fewer than 4 attempts have run, failure otherwise |
| FeedDetailsDownloadWorker.ItemEventsShape | feature/feed/domain/implementation/src/main/kotlin/com/savvasdalkitsis/uhuruphotos/feature/feed/domain/implementation/worker/FeedDetailsDownloadWorker.kt:60-65 | each item is refreshed once and reports progress (index, total) only when its refresh succeeded |
| FeedDetailsDownloadWorker.FirstFailure | feature/feed/domain/implementation/src/main/kotlin/com/savvasdalkitsis/uhuruphotos/feature/feed/domain/implementation/worker/FeedDetailsDownloadWorker.kt:58-67 | the index of the first item whose refresh fails; all earlier ones succeeded |
| FeedDetailsDownloadWorker.FirstFailureAt | feature/feed/domain/implementation/src/main/kotlin/com/savvasdalkitsis/uhuruphotos/feature/feed/domain/implementation/worker/FeedDetailsDownloadWorker.kt:58-67 | any index before which all refreshes succeed and at which one fails (or the end) is the first failure |
| FeedDetailsDownloadWorker.Work | feature/feed/domain/implementation/src/main/kotlin/com/savvasdalkitsis/uhuruphotos/feature/feed/domain/implementation/worker/FeedDetailsDownloadWorker.kt:54-72 | progress 0 first, then the steps of the items up to and including the first failure; success exactly when every refresh succeeded, failOrRetry otherwise |
| FeedDetailsDownloadWorker.RefreshedSteps | feature/feed/domain/implementation/src/main/kotlin/com/savvasdalkitsis/uhuruphotos/feature/feed/domain/implementation/worker/FeedDetailsDownloadWorker.kt:59-60 | the steps of the first n items refresh exactly those items, in order |
| FeedDetailsDownloadWorker.RefreshesStopAtFirstFailure | feature/feed/domain/implementation/src/main/kotlin/com/savvasdalkitsis/uhuruphotos/feature/feed/domain/implementation/worker/FeedDetailsDownloadWorker.kt:58-67 | the job refreshes the items in feed order up to and including the first failure, and none after |
| FeedDetailsDownloadWorker.PauseOnlyAfterChange | feature/feed/domain/implementation/src/main/kotlin/com/savvasdalkitsis/uhuruphotos/feature/feed/domain/implementation/worker/FeedDetailsDownloadWorker.kt:61-64 | every pause directly follows the refresh of an item whose details changed |
| FeedDetailsDownloadWorker.ProgressSteps | feature/feed/domain/implementation/src/main/kotlin/com/savvasdalkitsis/uhuruphotos/feature/feed/domain/implementation/worker/FeedDetailsDownloadWorker.kt:65 | the k-th progress report after the start is (k, total) |
| AvatarUseCase.SyncStateOf | feature/avatar/domain/implementation/src/main/kotlin/com/savvasdalkitsis/uhuruphotos/feature/avatar/domain/implementation/usecase/AvatarUseCase.kt:52-56 | BLOCKED and FAILED give BAD, CANCELLED, ENQUEUED and SUCCEEDED give GOOD, RUNNING gives IN_PROGRESS, each an if-and-only-if |
| AvatarUseCase.Initial | feature/avatar/domain/implementation/src/main/kotlin/com/savvasdalkitsis/uhuruphotos/feature/avatar/domain/implementation/usecase/AvatarUseCase.kt:63-64 | a name gives at most one character: none exactly when it is null or empty, otherwise its first character upper-cased |
| AvatarUseCase.Initials | feature/avatar/domain/implementation/src/main/kotlin/com/savvasdalkitsis/uhuruphotos/feature/avatar/domain/implementation/usecase/AvatarUseCase.kt:57 | the first name's upper-cased initial, then the last name's, each present exactly when that name is neither null nor empty |
| AvatarUseCase.InitialsEmptyIff | feature/avatar/domain/implementation/src/main/kotlin/com/savvasdalkitsis/uhuruphotos/feature/avatar/domain/implementation/usecase/AvatarUseCase.kt:57 | the initials are empty exactly when both names are null or empty |
| AvatarUseCase.FullName | feature/avatar/domain/implementation/src/main/kotlin/com/savvasdalkitsis/uhuruphotos/feature/avatar/domain/implementation/usecase/AvatarUseCase.kt:58 | the full name is the rendered first name, one space, the rendered last name, with null rendered as "null" |
| AvatarUseCase.AvatarStateOf | feature/avatar/domain/implementation/src/main/kotlin/com/savvasdalkitsis/uhuruphotos/feature/avatar/domain/implementation/usecase/AvatarUseCase.kt:45-61 | the avatar URL is null exactly when the user has no avatar, otherwise its remote URL; the sync state, initials and full name are as above; the server URL passes through |
| AvatarUseCase.Plus | feature/avatar/domain/implementation/src/main/kotlin/com/savvasdalkitsis/uhuruphotos/feature/avatar/domain/implementation/usecase/AvatarUseCase.kt:67-72 | the result is one of the operands; RUNNING exactly when either is RUNNING; FAILED exactly when neither is RUNNING and one is FAILED; otherwise the left operand |
| AvatarUseCase.PlusIdempotent | feature/avatar/domain/implementation/src/main/kotlin/com/savvasdalkitsis/uhuruphotos/feature/avatar/domain/implementation/usecase/AvatarUseCase.kt:67-72 | s + s == s |
| AvatarUseCase.PlusSucceededIff | feature/avatar/domain/implementation/src/main/kotlin/com/savvasdalkitsis/uhuruphotos/feature/avatar/domain/implementation/usecase/AvatarUseCase.kt:67-72 | the result is SUCCEEDED exactly when the left operand is SUCCEEDED and the right is neither RUNNING nor FAILED |
| AvatarUseCase.PlusAssociative | feature/avatar/domain/implementation/src/main/kotlin/com/savvasdalkitsis/uhuruphotos/feature/avatar/domain/implementation/usecase/AvatarUseCase.kt:67-72 | (a + b) + c == a + (b + c) |
| UserBadgeUseCase.SyncStateOf | userbadge/src/main/kotlin/com/savvasdalkitsis/uhuruphotos/userbadge/usecase/UserBadgeUseCase.kt:31-35 | BLOCKED and FAILED give BAD, CANCELLED, ENQUEUED and SUCCEEDED give GOOD, RUNNING gives IN_PROGRESS, each an if-and-only-if |
| UserBadgeUseCase.Initial | userbadge/src/main/kotlin/com/savvasdalkitsis/uhuruphotos/userbadge/usecase/UserBadgeUseCase.kt:42-43 | a name gives no character when null or empty, otherwise its first character upper-cased |
| UserBadgeUseCase.UserInformationStateOf | userbadge/src/main/kotlin/com/savvasdalkitsis/uhuruphotos/userbadge/usecase/UserBadgeUseCase.kt:29-39 | the avatar URL is null exactly when the user has no avatar; initials at most two characters; full name "first last"; the server URL passes through |
| UserBadgeUseCase.Plus | userbadge/src/main/kotlin/com/savvasdalkitsis/uhuruphotos/userbadge/usecase/UserBadgeUseCase.kt:46-51 | the result is one of the operands; RUNNING, then FAILED, take precedence; otherwise the left operand |
| UserBadgeUseCase.PlusIdempotent | userbadge/src/main/kotlin/com/savvasdalkitsis/uhuruphotos/userbadge/usecase/UserBadgeUseCase.kt:46-51 | s + s == s |
| UserBadgeUseCase.AgreesWithAvatar | userbadge/src/main/kotlin/com/savvasdalkitsis/uhuruphotos/userbadge/usecase/UserBadgeUseCase.kt:31-51 | the badge's sync mapping, plus, initials and full name equal the avatar use case's |
| SearchSuggestionState.SearchSuggestion.Filterable | feature/discover/view/implementation/src/main/kotlin/com/savvasdalkitsis/uhuruphotos/feature/discover/view/implementation/ui/state/SearchSuggestion.kt:20-26 | a recent or server suggestion filters on its query, a person suggestion on the person's name |
| DiscoverInitialise.ToPeople | feature/discover/view/implementation/src/main/kotlin/com/savvasdalkitsis/uhuruphotos/feature/discover/view/implementation/seam/actions/Initialise.kt:112-117 | converting people fails exactly when there is no server URL; otherwise every person's URL is prefixed with it |
| DiscoverInitialise.PeopleStrip | feature/discover/view/implementation/src/main/kotlin/com/savvasdalkitsis/uhuruphotos/feature/discover/view/implementation/seam/actions/Initialise.kt:88 | the strip is a prefix of at most 10 people: empty for 0 or 1 people, one short of all for 1 to 11, 10 beyond |
| DiscoverInitialise.ShowPeople | feature/discover/view/implementation/src/main/kotlin/com/savvasdalkitsis/uhuruphotos/feature/discover/view/implementation/seam/actions/Initialise.kt:82-89 | the strip fails exactly without a server URL and otherwise holds the first max(0, min(10, size-1)) converted people, in order |
| DiscoverInitialise.FilterQuery | feature/discover/view/implementation/src/main/kotlin/com/savvasdalkitsis/uhuruphotos/feature/discover/view/implementation/seam/actions/Initialise.kt:119-120 | a suggestion is kept exactly when its filterable text contains the query ignoring case; no more suggestions than given |
| DiscoverInitialise.FilterQueryIsSubsequence | feature/discover/view/implementation/src/main/kotlin/com/savvasdalkitsis/uhuruphotos/feature/discover/view/implementation/seam/actions/Initialise.kt:119-120 | the filtered list is a subsequence of the input, so relative order is preserved |
| DiscoverInitialise.FilterQueryIdempotent | feature/discover/view/implementation/src/main/kotlin/com/savvasdalkitsis/uhuruphotos/feature/discover/view/implementation/seam/actions/Initialise.kt:119-120 | filtering twice equals filtering once |
| DiscoverInitialise.FilterQueryConcat | feature/discover/view/implementation/src/main/kotlin/com/savvasdalkitsis/uhuruphotos/feature/discover/view/implementation/seam/actions/Initialise.kt:119-120 | filtering a concatenation is the concatenation of the filtered parts |
| DiscoverInitialise.RecentSuggestions | feature/discover/view/implementation/src/main/kotlin/com/savvasdalkitsis/uhuruphotos/feature/discover/view/implementation/seam/actions/Initialise.kt:59-62 | one recent suggestion per recent search, in order |
| DiscoverInitialise.PersonSuggestions | feature/discover/view/implementation/src/main/kotlin/com/savvasdalkitsis/uhuruphotos/feature/discover/view/implementation/seam/actions/Initialise.kt:63-68 | one person suggestion per person, in order |
| DiscoverInitialise.ServerSuggestions | feature/discover/view/implementation/src/main/kotlin/com/savvasdalkitsis/uhuruphotos/feature/discover/view/implementation/seam/actions/Initialise.kt:69-72 | one server suggestion per server suggestion text, in order |
| DiscoverInitialise.SearchSuggestions | feature/discover/view/implementation/src/main/kotlin/com/savvasdalkitsis/uhuruphotos/feature/discover/view/implementation/seam/actions/Initialise.kt:74-78 | an empty query gives nothing; otherwise the filtered recent, then people, then server suggestions |
| DiscoverInitialise.KeptDependsOnFilterable | feature/discover/view/implementation/src/main/kotlin/com/savvasdalkitsis/uhuruphotos/feature/discover/view/implementation/ui/state/SearchSuggestion.kt:20-21 | two suggestions with the same filterable text are kept or dropped together |
| DiscoverInitialise.SameTextSameFate | feature/discover/view/implementation/src/main/kotlin/com/savvasdalkitsis/uhuruphotos/feature/discover/view/implementation/ui/state/SearchSuggestion.kt:24-26 | a recent and a server suggestion with the same query, or a person of that name, share the filter's verdict |
| PhotoStates.InitialState | photos/src/main/kotlin/com/savvasdalkitsis/librephotos/photos/view/state/PhotoState.kt:6-22 | a fresh photo screen shows its UI, is not loading, has no error and a hidden info sheet |
| PhotoHandler.StatusMutation | photos/src/main/kotlin/com/savvasdalkitsis/librephotos/photos/viewmodel/PhotoHandler.kt:45-49 | BLOCKED, CANCELLED and FAILED show the error message, SUCCEEDED finishes loading, ENQUEUED and RUNNING show loading, each an if-and-only-if |
| PhotoHandler.Handle | photos/src/main/kotlin/com/savvasdalkitsis/librephotos/photos/viewmodel/PhotoHandler.kt:32-93 | every action produces a trace; LoadPhoto's starts with ReceivedUrl for that id |
| PhotoHandler.Mutations | photos/src/main/kotlin/com/savvasdalkitsis/librephotos/photos/viewmodel/PhotoHandler.kt:32-93 | the mutations of a trace are exactly its emits |
| PhotoHandler.Effects | photos/src/main/kotlin/com/savvasdalkitsis/librephotos/photos/viewmodel/PhotoHandler.kt:32-93 | the effects of a trace are exactly its raised effects |
| PhotoHandler.ToggleUIFlips | photos/src/main/kotlin/com/savvasdalkitsis/librephotos/photos/viewmodel/PhotoHandler.kt:53-61 | HideUI with HideSystemBars when the UI shows, ShowUI with ShowSystemBars otherwise, mutation before effect |
| PhotoHandler.LoadPhotoUrlsFirst | photos/src/main/kotlin/com/savvasdalkitsis/librephotos/photos/viewmodel/PhotoHandler.kt:33-51 | LoadPhoto's only direct mutation is ReceivedUrl for that id, and the details and status streams come after it |
| PhotoHandler.DeleteOrder | photos/src/main/kotlin/com/savvasdalkitsis/librephotos/photos/viewmodel/PhotoHandler.kt:83-88 | Loading, then HideDeletionConfirmationDialog, then deletion of state.id, then NavigateBack |
| PhotoHandler.NavigateBackOrder | photos/src/main/kotlin/com/savvasdalkitsis/librephotos/photos/viewmodel/PhotoHandler.kt:62-65 | HideUI, then the NavigateBack effect |
| PhotoHandler.OneToOneActions | photos/src/main/kotlin/com/savvasdalkitsis/librephotos/photos/viewmodel/PhotoHandler.kt:72-92 | the dismiss, info, dialog and full-image actions each emit exactly their matching mutation and no effect |
| PhotoHandler.CallsActOnCurrentPhoto | photos/src/main/kotlin/com/savvasdalkitsis/librephotos/photos/viewmodel/PhotoHandler.kt:66-91 | favourite, refresh and delete act on state.id, and sharing shares state.fullResUrl |
| FeedPageHandler.Handle | feedpage/src/main/kotlin/com/savvasdalkitsis/librephotos/feedpage/viewmodel/FeedPageHandler.kt:34-68 | every action produces a trace, and only LoadFeed is the stream merge |
| FeedPageHandler.Mutations | feedpage/src/main/kotlin/com/savvasdalkitsis/librephotos/feedpage/viewmodel/FeedPageHandler.kt:34-68 | the mutations of a trace are exactly its emits |
| FeedPageHandler.Effects | feedpage/src/main/kotlin/com/savvasdalkitsis/librephotos/feedpage/viewmodel/FeedPageHandler.kt:34-68 | the effects of a trace are exactly its raised effects |
| FeedPageHandler.OneToOneActions | feedpage/src/main/kotlin/com/savvasdalkitsis/librephotos/feedpage/viewmodel/FeedPageHandler.kt:47-67 | the account-overview and display-choice actions map one to one onto their mutations, with no effect |
| FeedPageHandler.LogOutOrder | feedpage/src/main/kotlin/com/savvasdalkitsis/librephotos/feedpage/viewmodel/FeedPageHandler.kt:49-52 | logOut is called first, then ReloadApp, and no mutation is emitted |
| FeedPageHandler.RefreshAlbumsOrder | feedpage/src/main/kotlin/com/savvasdalkitsis/librephotos/feedpage/viewmodel/FeedPageHandler.kt:53-58 | StartRefreshing, then the work is started, then StopRefreshing, and no effect |
| FeedPageHandler.SelectedPhotoOpensDetails | feedpage/src/main/kotlin/com/savvasdalkitsis/librephotos/feedpage/viewmodel/FeedPageHandler.kt:59-61 | one OpenPhotoDetails for the photo's id and no mutation; a photo without an id makes the flow throw |
| FeedPageHandler.ChangeDisplayOrder | feedpage/src/main/kotlin/com/savvasdalkitsis/librephotos/feedpage/viewmodel/FeedPageHandler.kt:62-65 | the display is persisted before HideFeedDisplayChoice is emitted, and no effect |
| GalleryPageMutation.Apply | api/gallery/page/src/main/kotlin/com/savvasdalkitsis/uhuruphotos/api/gallery/page/seam/GalleryPageMutation.kt:23-48 | ShowGalleryPage sets title, people and albums only; Loading sets isLoading and isEmpty = !loading && !hasPhotos only; ChangeFeedDisplay sets feedDisplay only |
| GalleryPageMutation.LoadingNeverEmpty | api/gallery/page/src/main/kotlin/com/savvasdalkitsis/uhuruphotos/api/gallery/page/seam/GalleryPageMutation.kt:37-42 | Loading(true) leaves the feed loading and never empty |
| GalleryPageMutation.ApplyIdempotent | api/gallery/page/src/main/kotlin/com/savvasdalkitsis/uhuruphotos/api/gallery/page/seam/GalleryPageMutation.kt:27-48 | applying any mutation twice equals applying it once |
| GalleryPageMutation.DisplayCommutesWithLoading | api/gallery/page/src/main/kotlin/com/savvasdalkitsis/uhuruphotos/api/gallery/page/seam/GalleryPageMutation.kt:37-48 | changing the display and setting loading commute |
| HeatMapReducer.Points | internal/heatmap/src/main/kotlin/com/savvasdalkitsis/uhuruphotos/heatmap/viewmodel/HeatMapReducer.kt:28-30 | the points are the locations of the photos that have one, no more points than photos |
| HeatMapReducer.PointsConcat | internal/heatmap/src/main/kotlin/com/savvasdalkitsis/uhuruphotos/heatmap/viewmodel/HeatMapReducer.kt:28-30 | the points of a concatenation are the concatenated points, so order is kept |
| HeatMapReducer.PointsFullIff | internal/heatmap/src/main/kotlin/com/savvasdalkitsis/uhuruphotos/heatmap/viewmodel/HeatMapReducer.kt:28-30 | there are as many points as photos exactly when every photo has a location |
| HeatMapReducer.PointsOfLocated | internal/heatmap/src/main/kotlin/com/savvasdalkitsis/uhuruphotos/heatmap/viewmodel/HeatMapReducer.kt:28-30 | when every photo has a location, point i is photo i's location |
| HeatMapReducer.Reduce | internal/heatmap/src/main/kotlin/com/savvasdalkitsis/uhuruphotos/heatmap/viewmodel/HeatMapReducer.kt:25-38 | UpdateAllPhotos sets allPhotos to the photos and the points to their locations (Points), ShowLoading sets loading only, UpdateDisplay sets photosToDisplay and the points only |
| HeatMapReducer.UpdateAllPhotosPoints | internal/heatmap/src/main/kotlin/com/savvasdalkitsis/uhuruphotos/heatmap/viewmodel/HeatMapReducer.kt:27-32 | after UpdateAllPhotos a point is displayed exactly when it is the location of one of the photos; there is one per photo exactly when all are located, and then point i is photo i's location |
| HeatMapReducer.ShowLoadingCommutes | internal/heatmap/src/main/kotlin/com/savvasdalkitsis/uhuruphotos/heatmap/viewmodel/HeatMapReducer.kt:33 | ShowLoading commutes with every other mutation |

## Left out

- Reactive-stream orchestration: `combine`, `merge`, `debounce`, `distinctUntilChanged`, `flatMapLatest`, the cached `allAlbums` field and `observe*` queries. Their point is the interleaving of asynchronous emissions, which is not deterministic. Each combine lambda is modelled as a function of its latest inputs.
- The `LoadFeed` stream merge in FeedPageHandler.kt and the details/status streams after `LoadPhoto`. Each is one opaque trace event.
- `refreshTrash`, `hasTrash` and every `async { }` block. These are concurrent database writes. `updateSummaries` is modelled with its summary writes done in order, before the next album.
- SQL, Retrofit and the database: tables are sequences. An insert appends, a clear empties, and a per-album delete filters. Conflict policies (insert-or-replace on primary keys) are not modelled, so `RefreshAutoAlbum` and `RefreshUserAlbum` append their album row even if one exists.
- The `get*` queries and the conversions `toAlbum`, `toAutoAlbums`, `toUserAlbums` and `toDbModel`. Rows are stored as the fetched records.
- `getFeedDaysToRefresh()`, the service listings and the per-album fetches are parameters of the methods that use them.
- AlbumsRepository.GetAlbumAllPages: requires that the server lets the loop end (some page stops it). The source loops for ever otherwise, for instance on empty pages.
- AlbumSync.ProgressReports: uses the exact integer floor 100(i+1)/n. The source computes it in 32-bit floating point and truncates, which can round differently.
- `Text.UpperChar`: upper-casing and ignore-case matching are ASCII only; Unicode case mapping is not modelled.
- `delay(...)` timing. A pause is an event in the worker trace, and FeedPageHandler's delay is not represented.
- Compose UI, navigation targets and effect handlers, logout, URL validation, `LightboxCaptionIcons.kt` and the single-call action objects. These are rendering, wiring or forwarding code with no logic of their own.
- GalleryPageMutation.Apply: `hasPhotos` is a stored field of the feed state. The feed-state and gallery-state files are not part of this model.
- `PhotoAction.kt`, `PhotoMutation.kt`, `PhotoEffect.kt` and `PhotoState.kt` are transcribed as datatypes only. `PhotoEffect` is given the `SharePhoto` and `CopyToClipboard` effects that the handler raises.
- AvatarUseCase.Plus: the both-SUCCEEDED branch returns what the final fallback would return anyway. The model keeps it, and PlusSucceededIff states the resulting behaviour.
- DiscoverInitialise.PeopleStrip: the source truncates to `min(10, size - 1)` people, which drops the last person whenever there are 11 or fewer. The model keeps that behaviour as written.
