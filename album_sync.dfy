/** The records the album repository fetches and stores, and the pure
    specification of its synchronisation: which pages a paged album fetch
    requests and how it merges them, how rows that belong to an album are
    replaced, which albums a refresh downloads, and what progress it reports. */
module AlbumSync {
  import opened Wrappers

  // ---- records of the remote service ----

  /** An album as listed by date, before its photos are fetched. */
  datatype IncompleteAlbum = IncompleteAlbum(id: string, date: Option<string>, location: string, incomplete: bool, numberOfItems: int)

  /** A photo as an album page lists it. */
  datatype PhotoSummary = PhotoSummary(id: string)

  /** One page of an album's photos; `numberOfItems` is the album's total. */
  datatype CompleteAlbum = CompleteAlbum(id: string, date: Option<string>, location: string, incomplete: bool, numberOfItems: int, items: seq<PhotoSummary>)

  datatype AutoAlbumSummary = AutoAlbumSummary(id: int, title: string)
  datatype AutoAlbumPerson = AutoAlbumPerson(id: int, name: string)
  datatype AutoAlbumPhoto = AutoAlbumPhoto(imageHash: string)
  datatype AutoAlbum = AutoAlbum(
    title: string, timestamp: string, createdOn: string, isFavorite: bool,
    gpsLat: Option<real>, gpsLon: Option<real>,
    people: seq<AutoAlbumPerson>, photos: seq<AutoAlbumPhoto>)

  datatype UserAlbumSummary = UserAlbumSummary(id: int, title: string)
  datatype UserAlbumGroup = UserAlbumGroup(photos: seq<PhotoSummary>)
  datatype UserAlbumDetails = UserAlbumDetails(title: string, date: string, location: string, groups: seq<UserAlbumGroup>)

  // ---- rows of the local tables ----

  datatype AutoAlbumRow = AutoAlbumRow(id: string, title: string, timestamp: string, createdOn: string, isFavorite: bool, gpsLat: Option<real>, gpsLon: Option<real>)
  datatype UserAlbumRow = UserAlbumRow(id: string, title: string, date: string, location: string)
  datatype PersonPhotoRow = PersonPhotoRow(personId: int, photoId: string)

  /** A row that belongs to one album: a photo summary, or the id of a person
      or photo linked to the album. */
  datatype AlbumEntry<T> = AlbumEntry(entry: T, albumId: string)

  // ---- the paged album fetch ----

  /** `sumOf { it.items.size }`. */
  function ItemCount(pages: seq<CompleteAlbum>): nat {
    if pages == [] then 0 else ItemCount(pages[..|pages| - 1]) + |pages[|pages| - 1].items|
  }

  /** Pages 1 to n of album `id`, requested in that order, or the failure of
      the first request that failed. */
  function PagesUpTo(page: (string, nat) -> Result<CompleteAlbum>, id: string, n: nat): (r: Result<seq<CompleteAlbum>>)
    ensures r.Ok? ==> |r.value| == n && forall i :: 0 <= i < n ==> page(id, i + 1) == Ok(r.value[i])
    ensures r.Err? <==> exists i :: 1 <= i <= n && page(id, i).Err?
  {
    if n == 0 then Ok([])
    else match PagesUpTo(page, id, n - 1)
      case Err(e) => Err(e)
      case Ok(ps) =>
        match page(id, n)
        case Err(e) => Err(e)
        case Ok(p) => Ok(ps + [p])
  }

  /** The fetch loop ends after page n: a request failed, or the items
      collected reach the `numberOfItems` of the page fetched last. */
  predicate Stops(page: (string, nat) -> Result<CompleteAlbum>, id: string, n: nat) {
    n >= 1 &&
    match PagesUpTo(page, id, n)
    case Err(_) => true
    case Ok(ps) => ItemCount(ps) >= ps[n - 1].numberOfItems
  }

  /** The server eventually lets the loop end (it loops for ever otherwise,
      for instance on empty pages). */
  ghost predicate Terminates(page: (string, nat) -> Result<CompleteAlbum>, id: string) {
    exists n :: Stops(page, id, n)
  }

  lemma {:induction false} LeastStop(page: (string, nat) -> Result<CompleteAlbum>, id: string, k: nat)
    requires Stops(page, id, k)
    ensures exists n: nat :: Stops(page, id, n) && forall j :: 1 <= j < n ==> !Stops(page, id, j)
    decreases k
  {
    if exists j :: 1 <= j < k && Stops(page, id, j) {
      var j :| 1 <= j < k && Stops(page, id, j);
      LeastStop(page, id, j);
    }
  }

  /** The number of pages the fetch loop requests. */
  ghost function StopPage(page: (string, nat) -> Result<CompleteAlbum>, id: string): (n: nat)
    requires Terminates(page, id)
    ensures Stops(page, id, n)
    ensures forall j :: 1 <= j < n ==> !Stops(page, id, j)
  {
    var k :| Stops(page, id, k);
    LeastStop(page, id, k);
    var n: nat :| Stops(page, id, n) && forall j :: 1 <= j < n ==> !Stops(page, id, j);
    n
  }

  /** The first stopping page is the only page that stops with no earlier one. */
  lemma {:induction false} StopPageUnique(page: (string, nat) -> Result<CompleteAlbum>, id: string, n: nat)
    requires Stops(page, id, n)
    requires forall j :: 1 <= j < n ==> !Stops(page, id, j)
    ensures Terminates(page, id) && StopPage(page, id) == n
  {
  }

  /** The items of all pages, in page order. */
  function AllItems(pages: seq<CompleteAlbum>): seq<PhotoSummary> {
    if pages == [] then [] else pages[0].items + AllItems(pages[1..])
  }

  lemma {:induction false} AllItemsSnoc(pages: seq<CompleteAlbum>, p: CompleteAlbum)
    ensures AllItems(pages + [p]) == AllItems(pages) + p.items
  {
    if pages == [] {
      assert pages + [p] == [p];
    } else {
      assert (pages + [p])[1..] == pages[1..] + [p];
      AllItemsSnoc(pages[1..], p);
    }
  }

  lemma {:induction false} ItemCountIsLength(pages: seq<CompleteAlbum>)
    ensures ItemCount(pages) == |AllItems(pages)|
    decreases |pages|
  {
    if pages != [] {
      var init := pages[..|pages| - 1];
      ItemCountIsLength(init);
      assert init + [pages[|pages| - 1]] == pages;
      AllItemsSnoc(init, pages[|pages| - 1]);
    }
  }

  /** `albums.reduce { acc, page -> acc.copy(items = acc.items + page.items) }`:
      every field of the first page, with the items of all pages in order. */
  function Merge(pages: seq<CompleteAlbum>): (m: CompleteAlbum)
    requires pages != []
    ensures m == pages[0].(items := AllItems(pages))
    decreases |pages|
  {
    if |pages| == 1 then pages[0]
    else
      var init := pages[..|pages| - 1];
      var acc := Merge(init);
      assert init + [pages[|pages| - 1]] == pages;
      AllItemsSnoc(init, pages[|pages| - 1]);
      acc.(items := acc.items + pages[|pages| - 1].items)
  }

  /** What `getAlbumAllPages` delivers for album `id`. */
  ghost function AllPages(page: (string, nat) -> Result<CompleteAlbum>, id: string): Result<CompleteAlbum>
    requires Terminates(page, id)
  {
    match PagesUpTo(page, id, StopPage(page, id))
    case Err(e) => Err(e)
    case Ok(ps) => Ok(Merge(ps))
  }

  /** A successful paged fetch requested pages 1 to some n; the merged album
      holds every item of those pages and is complete as far as the last page
      said, and no earlier page had satisfied the count. */
  lemma {:induction false} AllPagesSucceeded(page: (string, nat) -> Result<CompleteAlbum>, id: string)
    requires Terminates(page, id)
    requires AllPages(page, id).Ok?
    ensures var n := StopPage(page, id);
      var ps := PagesUpTo(page, id, n).value;
      n >= 1 &&
      (forall i :: 1 <= i <= n ==> page(id, i).Ok?) &&
      AllPages(page, id).value == ps[0].(items := AllItems(ps)) &&
      |AllPages(page, id).value.items| >= ps[n - 1].numberOfItems
  {
    var n := StopPage(page, id);
    ItemCountIsLength(PagesUpTo(page, id, n).value);
  }

  // ---- how an album is fetched during a refresh ----

  /** The two album fetchers the repository hands to `process`. */
  datatype AlbumFetcher =
    | AllPagesOf(page: (string, nat) -> Result<CompleteAlbum>)
    | Direct(album: string -> Result<CompleteAlbum>)

  ghost predicate FetcherTerminates(fetcher: AlbumFetcher) {
    fetcher.AllPagesOf? ==> forall id :: Terminates(fetcher.page, id)
  }

  ghost function Fetched(fetcher: AlbumFetcher, id: string): Result<CompleteAlbum>
    requires FetcherTerminates(fetcher)
  {
    match fetcher
    case AllPagesOf(page) => AllPages(page, id)
    case Direct(album) => album(id)
  }

  /** The `albumFetcher` that `process` is given: one complete album by id. */
  type AlbumFetch = string -> Result<CompleteAlbum>

  /** `fetcher` fetches every album as `fetch` does. */
  ghost predicate FetchesAs(fetcher: AlbumFetcher, fetch: AlbumFetch) {
    FetcherTerminates(fetcher) &&
    forall id {:trigger Fetched(fetcher, id)} :: Fetched(fetcher, id) == fetch(id)
  }

  /** `getAlbumAllPages()` as a function of the album id. */
  ghost function PagedFetch(page: (string, nat) -> Result<CompleteAlbum>): (fetch: AlbumFetch)
    requires forall id :: Terminates(page, id)
    ensures FetchesAs(AllPagesOf(page), fetch)
  {
    id => AllPages(page, id)
  }

  /** Index of the first album whose fetch fails, or the number of albums. */
  function FirstFetchFailure(fetch: AlbumFetch, albums: seq<IncompleteAlbum>): (k: nat)
    ensures k <= |albums|
    ensures forall i :: 0 <= i < k ==> fetch(albums[i].id).Ok?
    ensures k < |albums| ==> fetch(albums[k].id).Err?
  {
    if albums == [] then 0
    else if fetch(albums[0].id).Err? then 0
    else 1 + FirstFetchFailure(fetch, albums[1..])
  }

  lemma {:induction false} FirstFetchFailureAt(fetch: AlbumFetch, albums: seq<IncompleteAlbum>, k: nat)
    requires k <= |albums|
    requires forall i :: 0 <= i < k ==> fetch(albums[i].id).Ok?
    requires k < |albums| ==> fetch(albums[k].id).Err?
    ensures FirstFetchFailure(fetch, albums) == k
  {
    if k > 0 {
      FirstFetchFailureAt(fetch, albums[1..], k - 1);
    }
  }

  /** An album fetched during a refresh, under the id it was requested by. */
  datatype Download = Download(id: string, album: CompleteAlbum)

  /** The downloads of the first n albums. */
  function FetchedAlbums(fetch: AlbumFetch, albums: seq<IncompleteAlbum>, n: nat): (r: seq<Download>)
    requires n <= |albums|
    requires forall i :: 0 <= i < n ==> fetch(albums[i].id).Ok?
    ensures |r| == n
    ensures forall i :: 0 <= i < n ==> r[i] == Download(albums[i].id, fetch(albums[i].id).value)
  {
    seq(n, i requires 0 <= i < n => Download(albums[i].id, fetch(albums[i].id).value))
  }

  lemma {:induction false} FetchedAlbumsSnoc(fetch: AlbumFetch, albums: seq<IncompleteAlbum>, n: nat)
    requires n < |albums|
    requires forall i :: 0 <= i <= n ==> fetch(albums[i].id).Ok?
    ensures FetchedAlbums(fetch, albums, n + 1) ==
      FetchedAlbums(fetch, albums, n) + [Download(albums[n].id, fetch(albums[n].id).value)]
  {
  }

  // ---- rows that belong to an album ----

  /** The entries of album `albumId`, in table order. */
  function EntriesOf<T>(table: seq<AlbumEntry<T>>, albumId: string): seq<T> {
    if table == [] then []
    else (if table[0].albumId == albumId then [table[0].entry] else []) + EntriesOf(table[1..], albumId)
  }

  /** The table without the rows of album `albumId`. */
  function WithoutAlbum<T>(table: seq<AlbumEntry<T>>, albumId: string): (r: seq<AlbumEntry<T>>)
    ensures |r| <= |table|
    ensures forall i :: 0 <= i < |r| ==> r[i] in table && r[i].albumId != albumId
    ensures forall i :: 0 <= i < |table| && table[i].albumId != albumId ==> table[i] in r
  {
    if table == [] then []
    else (if table[0].albumId != albumId then [table[0]] else []) + WithoutAlbum(table[1..], albumId)
  }

  /** One row of album `albumId` per element, in order. */
  function EntriesFor<T>(xs: seq<T>, albumId: string): (r: seq<AlbumEntry<T>>)
    ensures |r| == |xs|
    ensures forall i :: 0 <= i < |xs| ==> r[i] == AlbumEntry(xs[i], albumId)
  {
    seq(|xs|, i requires 0 <= i < |xs| => AlbumEntry(xs[i], albumId))
  }

  /** Delete the rows of an album, then insert one row per element. */
  function ReplaceEntries<T>(table: seq<AlbumEntry<T>>, albumId: string, xs: seq<T>): seq<AlbumEntry<T>> {
    WithoutAlbum(table, albumId) + EntriesFor(xs, albumId)
  }

  lemma {:induction false} EntriesOfConcat<T>(a: seq<AlbumEntry<T>>, b: seq<AlbumEntry<T>>, albumId: string)
    ensures EntriesOf(a + b, albumId) == EntriesOf(a, albumId) + EntriesOf(b, albumId)
  {
    if a == [] {
      assert a + b == b;
    } else {
      var head := if a[0].albumId == albumId then [a[0].entry] else [];
      assert (a + b)[0] == a[0];
      assert (a + b)[1..] == a[1..] + b;
      EntriesOfConcat(a[1..], b, albumId);
      calc {
        EntriesOf(a + b, albumId);
        head + EntriesOf(a[1..] + b, albumId);
        head + (EntriesOf(a[1..], albumId) + EntriesOf(b, albumId));
        (head + EntriesOf(a[1..], albumId)) + EntriesOf(b, albumId);
      }
    }
  }

  lemma {:induction false} EntriesOfWithout<T>(table: seq<AlbumEntry<T>>, removed: string, albumId: string)
    ensures EntriesOf(WithoutAlbum(table, removed), albumId) == if albumId == removed then [] else EntriesOf(table, albumId)
  {
    if table != [] {
      EntriesOfWithout(table[1..], removed, albumId);
      var head := if table[0].albumId != removed then [table[0]] else [];
      EntriesOfConcat(head, WithoutAlbum(table[1..], removed), albumId);
      if table[0].albumId != removed {
        assert head[1..] == [];
      }
    }
  }

  lemma {:induction false} EntriesOfFor<T>(xs: seq<T>, owner: string, albumId: string)
    ensures EntriesOf(EntriesFor(xs, owner), albumId) == if albumId == owner then xs else []
  {
    if xs != [] {
      EntriesOfFor(xs[1..], owner, albumId);
      assert EntriesFor(xs, owner)[1..] == EntriesFor(xs[1..], owner);
    }
  }

  /** After a replacement the album has exactly the new entries, in order,
      and every other album keeps its own. */
  lemma {:induction false} ReplaceEntriesSpec<T>(table: seq<AlbumEntry<T>>, albumId: string, xs: seq<T>, other: string)
    requires other != albumId
    ensures EntriesOf(ReplaceEntries(table, albumId, xs), albumId) == xs
    ensures EntriesOf(ReplaceEntries(table, albumId, xs), other) == EntriesOf(table, other)
  {
    EntriesOfConcat(WithoutAlbum(table, albumId), EntriesFor(xs, albumId), albumId);
    EntriesOfConcat(WithoutAlbum(table, albumId), EntriesFor(xs, albumId), other);
    EntriesOfWithout(table, albumId, albumId);
    EntriesOfWithout(table, albumId, other);
    EntriesOfFor(xs, albumId, albumId);
    EntriesOfFor(xs, albumId, other);
  }

  // ---- a refresh over many albums ----

  /** The photo summaries after the summaries of each download, in turn, were
      replaced by its items. */
  function SummariesAfter(table: seq<AlbumEntry<PhotoSummary>>, downloads: seq<Download>): seq<AlbumEntry<PhotoSummary>>
    decreases |downloads|
  {
    if downloads == [] then table
    else
      var last := downloads[|downloads| - 1];
      ReplaceEntries(SummariesAfter(table, downloads[..|downloads| - 1]), last.id, last.album.items)
  }

  lemma {:induction false} SummariesAfterSnoc(table: seq<AlbumEntry<PhotoSummary>>, downloads: seq<Download>, d: Download)
    ensures SummariesAfter(table, downloads + [d]) == ReplaceEntries(SummariesAfter(table, downloads), d.id, d.album.items)
  {
    assert (downloads + [d])[..|downloads|] == downloads;
  }

  /** An album the refresh did not download keeps its summaries; the album
      downloaded last has exactly its fetched items. */
  lemma {:induction false} SummariesAfterSpec(table: seq<AlbumEntry<PhotoSummary>>, downloads: seq<Download>, other: string)
    ensures (forall i :: 0 <= i < |downloads| ==> downloads[i].id != other) ==>
      EntriesOf(SummariesAfter(table, downloads), other) == EntriesOf(table, other)
    ensures downloads != [] ==>
      var last := downloads[|downloads| - 1];
      EntriesOf(SummariesAfter(table, downloads), last.id) == last.album.items
    decreases |downloads|
  {
    if downloads != [] {
      var init := downloads[..|downloads| - 1];
      var last := downloads[|downloads| - 1];
      SummariesAfterSpec(table, init, other);
      if last.id != other {
        ReplaceEntriesSpec(SummariesAfter(table, init), last.id, last.album.items, other);
      } else {
        ReplaceEntriesSpec(SummariesAfter(table, init), last.id, last.album.items, last.id + "#");
      }
    }
  }

  /** Every download that no later download repeats leaves its album with
      exactly its fetched items. */
  lemma {:induction false} EveryDownloadKept(table: seq<AlbumEntry<PhotoSummary>>, downloads: seq<Download>, i: nat)
    requires i < |downloads|
    requires forall j :: i < j < |downloads| ==> downloads[j].id != downloads[i].id
    ensures EntriesOf(SummariesAfter(table, downloads), downloads[i].id) == downloads[i].album.items
    decreases |downloads|
  {
    var n := |downloads| - 1;
    if i == n {
      SummariesAfterSpec(table, downloads, downloads[i].id);
    } else {
      var init := downloads[..n];
      assert init[i] == downloads[i];
      EveryDownloadKept(table, init, i);
      ReplaceEntriesSpec(SummariesAfter(table, init), downloads[n].id, downloads[n].album.items, downloads[i].id);
    }
  }

  /** The person-photo rows a complete album adds when a person's albums are
      downloaded: one per photo, in order. */
  function PersonPhotoRows(personId: int, album: CompleteAlbum): (r: seq<PersonPhotoRow>)
    ensures |r| == |album.items|
    ensures forall i :: 0 <= i < |r| ==> r[i] == PersonPhotoRow(personId, album.items[i].id)
  {
    seq(|album.items|, i requires 0 <= i < |album.items| => PersonPhotoRow(personId, album.items[i].id))
  }

  /** What `completeAlbumProcessor` does with each fetched album. */
  datatype CompleteProcessor = NoCompleteProcessing | LinkPersonPhotos(personId: int)

  /** What `incompleteAlbumsProcessor` does with the listed albums. */
  datatype IncompleteProcessor = NoIncompleteProcessing | ReplaceAlbumsTable | InsertIntoAlbumsTable

  function RowsOf(onComplete: CompleteProcessor, album: CompleteAlbum): seq<PersonPhotoRow> {
    match onComplete
    case NoCompleteProcessing => []
    case LinkPersonPhotos(personId) => PersonPhotoRows(personId, album)
  }

  function AddedRows(onComplete: CompleteProcessor, downloads: seq<Download>): (r: seq<PersonPhotoRow>)
    ensures onComplete.NoCompleteProcessing? ==> r == []
    decreases |downloads|
  {
    if downloads == [] then []
    else AddedRows(onComplete, downloads[..|downloads| - 1]) + RowsOf(onComplete, downloads[|downloads| - 1].album)
  }

  lemma {:induction false} AddedRowsSnoc(onComplete: CompleteProcessor, downloads: seq<Download>, d: Download)
    ensures AddedRows(onComplete, downloads + [d]) == AddedRows(onComplete, downloads) + RowsOf(onComplete, d.album)
  {
    assert (downloads + [d])[..|downloads|] == downloads;
  }

  predicate InAlbum(album: CompleteAlbum, photoId: string) {
    exists j :: 0 <= j < |album.items| && album.items[j].id == photoId
  }

  predicate Downloaded(downloads: seq<Download>, photoId: string) {
    exists i :: 0 <= i < |downloads| && InAlbum(downloads[i].album, photoId)
  }

  lemma {:induction false} PersonPhotoRowsSpec(personId: int, album: CompleteAlbum, row: PersonPhotoRow)
    ensures row in PersonPhotoRows(personId, album) <==> row.personId == personId && InAlbum(album, row.photoId)
  {
    var rows := PersonPhotoRows(personId, album);
    if row.personId == personId && InAlbum(album, row.photoId) {
      var j :| 0 <= j < |album.items| && album.items[j].id == row.photoId;
      assert rows[j] == row;
    }
  }

  lemma {:induction false} DownloadedSnoc(downloads: seq<Download>, photoId: string)
    requires downloads != []
    ensures Downloaded(downloads, photoId) <==>
      Downloaded(downloads[..|downloads| - 1], photoId) || InAlbum(downloads[|downloads| - 1].album, photoId)
  {
    var init := downloads[..|downloads| - 1];
    if Downloaded(downloads, photoId) {
      var i :| 0 <= i < |downloads| && InAlbum(downloads[i].album, photoId);
      if i < |init| {
        assert init[i] == downloads[i];
      }
    }
    if Downloaded(init, photoId) {
      var i :| 0 <= i < |init| && InAlbum(init[i].album, photoId);
      assert downloads[i] == init[i];
    }
  }

  /** A person's download adds a (person, photo) row exactly for the photos
      of the albums it downloaded, all for that person. */
  lemma {:induction false} AddedRowsSpec(personId: int, downloads: seq<Download>, row: PersonPhotoRow)
    ensures row in AddedRows(LinkPersonPhotos(personId), downloads) <==>
      row.personId == personId && Downloaded(downloads, row.photoId)
    decreases |downloads|
  {
    if downloads != [] {
      var n := |downloads| - 1;
      AddedRowsSpec(personId, downloads[..n], row);
      PersonPhotoRowsSpec(personId, downloads[n].album, row);
      DownloadedSnoc(downloads, row.photoId);
    }
  }

  function AlbumsAfter(table: seq<IncompleteAlbum>, onIncomplete: IncompleteProcessor, listed: seq<IncompleteAlbum>): seq<IncompleteAlbum> {
    match onIncomplete
    case NoIncompleteProcessing => table
    case ReplaceAlbumsTable => listed
    case InsertIntoAlbumsTable => table + listed
  }

  /** `take(n)`, which the platform rejects for a negative n. */
  function Take(albums: seq<IncompleteAlbum>, n: int): (r: Result<seq<IncompleteAlbum>>)
    ensures r.Err? <==> n < 0
    ensures r.Ok? ==> r.value == albums[..if n < |albums| then n else |albums|]
  {
    if n < 0 then Err("IllegalArgumentException") else Ok(albums[..if n < |albums| then n else |albums|])
  }

  /** The albums whose summaries a refresh downloads. */
  function ToDownload(albums: seq<IncompleteAlbum>, shallow: bool, feedDaysToRefresh: int): Result<seq<IncompleteAlbum>> {
    if shallow then Take(albums, feedDaysToRefresh) else Ok(albums)
  }

  /** A shallow refresh downloads the first `feedDaysToRefresh` albums (all of
      them when there are fewer), a full one downloads every album, in list
      order either way. */
  lemma {:induction false} ToDownloadPrefix(albums: seq<IncompleteAlbum>, shallow: bool, feedDaysToRefresh: int)
    ensures !shallow ==> ToDownload(albums, shallow, feedDaysToRefresh) == Ok(albums)
    ensures shallow && feedDaysToRefresh >= 0 ==>
      var r := ToDownload(albums, shallow, feedDaysToRefresh);
      r.Ok? && |r.value| == (if feedDaysToRefresh < |albums| then feedDaysToRefresh else |albums|) &&
      r.value == albums[..|r.value|]
  {
  }

  /** What a refresh leaves behind: its result, the progress it reported and
      the three tables it writes. */
  datatype Outcome = Outcome(
    result: Result<Unit>, progress: seq<int>,
    albums: seq<IncompleteAlbum>, summaries: seq<AlbumEntry<PhotoSummary>>, personPhotos: seq<PersonPhotoRow>)

  /** `process`: report 0, list the albums, hand them to the incomplete-album
      processor, pick the albums to download, then fetch them in order,
      replacing each one's summaries and reporting progress, until the first
      failure. */
  function ProcessSpec(
    albums: seq<IncompleteAlbum>, summaries: seq<AlbumEntry<PhotoSummary>>, personPhotos: seq<PersonPhotoRow>,
    listed: Result<seq<IncompleteAlbum>>, fetch: AlbumFetch, shallow: bool, feedDaysToRefresh: int,
    onIncomplete: IncompleteProcessor, onComplete: CompleteProcessor): Outcome
  {
    match listed
    case Err(e) => Outcome(Err(e), [0], albums, summaries, personPhotos)
    case Ok(list) =>
      var albums' := AlbumsAfter(albums, onIncomplete, list);
      match ToDownload(list, shallow, feedDaysToRefresh)
      case Err(e) => Outcome(Err(e), [0], albums', summaries, personPhotos)
      case Ok(todo) =>
        var k := FirstFetchFailure(fetch, todo);
        var got := FetchedAlbums(fetch, todo, k);
        Outcome(
          if k == |todo| then Ok(Unit) else Err(fetch(todo[k].id).error),
          [0] + ProgressReports(k, |todo|),
          albums', SummariesAfter(summaries, got), personPhotos + AddedRows(onComplete, got))
  }

  /** `ProcessSpec` once the albums to download are known. */
  lemma {:induction false} ProcessSpecDownloading(
    albums: seq<IncompleteAlbum>, summaries: seq<AlbumEntry<PhotoSummary>>, personPhotos: seq<PersonPhotoRow>,
    list: seq<IncompleteAlbum>, fetch: AlbumFetch, shallow: bool, feedDaysToRefresh: int,
    onIncomplete: IncompleteProcessor, onComplete: CompleteProcessor, todo: seq<IncompleteAlbum>, k: nat)
    requires ToDownload(list, shallow, feedDaysToRefresh) == Ok(todo)
    requires k <= |todo|
    requires forall i :: 0 <= i < k ==> fetch(todo[i].id).Ok?
    requires k < |todo| ==> fetch(todo[k].id).Err?
    ensures ProcessSpec(albums, summaries, personPhotos, Ok(list), fetch, shallow, feedDaysToRefresh, onIncomplete, onComplete) ==
      Outcome(
        if k == |todo| then Ok(Unit) else Err(fetch(todo[k].id).error),
        [0] + ProgressReports(k, |todo|),
        AlbumsAfter(albums, onIncomplete, list),
        SummariesAfter(summaries, FetchedAlbums(fetch, todo, k)),
        personPhotos + AddedRows(onComplete, FetchedAlbums(fetch, todo, k)))
  {
    FirstFetchFailureAt(fetch, todo, k);
  }

  lemma {:induction false} StepSummaries(summaries: seq<AlbumEntry<PhotoSummary>>, fetch: AlbumFetch, todo: seq<IncompleteAlbum>, i: nat)
    requires i < |todo|
    requires forall j :: 0 <= j <= i ==> fetch(todo[j].id).Ok?
    ensures SummariesAfter(summaries, FetchedAlbums(fetch, todo, i + 1)) ==
        ReplaceEntries(SummariesAfter(summaries, FetchedAlbums(fetch, todo, i)), todo[i].id, fetch(todo[i].id).value.items)
  {
    var d := Download(todo[i].id, fetch(todo[i].id).value);
    var before := FetchedAlbums(fetch, todo, i);
    calc {
      SummariesAfter(summaries, FetchedAlbums(fetch, todo, i + 1));
      { FetchedAlbumsSnoc(fetch, todo, i); }
      SummariesAfter(summaries, before + [d]);
      { SummariesAfterSnoc(summaries, before, d); }
      ReplaceEntries(SummariesAfter(summaries, before), d.id, d.album.items);
    }
  }

  lemma {:induction false} StepRows(personPhotos: seq<PersonPhotoRow>, fetch: AlbumFetch, onComplete: CompleteProcessor, todo: seq<IncompleteAlbum>, i: nat)
    requires i < |todo|
    requires forall j :: 0 <= j <= i ==> fetch(todo[j].id).Ok?
    ensures personPhotos + AddedRows(onComplete, FetchedAlbums(fetch, todo, i + 1)) ==
        (personPhotos + AddedRows(onComplete, FetchedAlbums(fetch, todo, i))) + RowsOf(onComplete, fetch(todo[i].id).value)
  {
    var d := Download(todo[i].id, fetch(todo[i].id).value);
    var before := FetchedAlbums(fetch, todo, i);
    calc {
      personPhotos + AddedRows(onComplete, FetchedAlbums(fetch, todo, i + 1));
      { FetchedAlbumsSnoc(fetch, todo, i); }
      personPhotos + AddedRows(onComplete, before + [d]);
      { AddedRowsSnoc(onComplete, before, d); }
      personPhotos + (AddedRows(onComplete, before) + RowsOf(onComplete, d.album));
      (personPhotos + AddedRows(onComplete, before)) + RowsOf(onComplete, d.album);
    }
  }

  lemma {:induction false} StepProgress(i: nat, n: nat)
    requires i < n
    ensures [0] + ProgressReports(i + 1, n) == ([0] + ProgressReports(i, n)) + [Percent(i, n)]
  {
    assert ProgressReports(i + 1, n) == ProgressReports(i, n) + [Percent(i, n)];
  }

  /** A refresh fails without downloading when the listing fails or the
      albums to download cannot be chosen (a shallow refresh with a negative
      day count); otherwise it succeeds exactly when every download succeeds; it downloads the chosen albums in list order up to
      the first failure; and its progress reports start at 0, stay within
      0..100, never decrease, and end at 100 on success over a non-empty list. */
  lemma {:induction false} ProcessSpecProperties(
    albums: seq<IncompleteAlbum>, summaries: seq<AlbumEntry<PhotoSummary>>, personPhotos: seq<PersonPhotoRow>,
    listed: Result<seq<IncompleteAlbum>>, fetch: AlbumFetch, shallow: bool, feedDaysToRefresh: int,
    onIncomplete: IncompleteProcessor, onComplete: CompleteProcessor)
    ensures var o := ProcessSpec(albums, summaries, personPhotos, listed, fetch, shallow, feedDaysToRefresh, onIncomplete, onComplete);
      var p := o.progress;
      p != [] && p[0] == 0 &&
      (forall i :: 0 <= i < |p| ==> 0 <= p[i] <= 100) &&
      (forall i, j :: 0 <= i <= j < |p| ==> p[i] <= p[j]) &&
      (listed.Err? ==> o.result.Err? && o == Outcome(o.result, [0], albums, summaries, personPhotos)) &&
      (listed.Ok? ==> o.albums == AlbumsAfter(albums, onIncomplete, listed.value)) &&
      (listed.Ok? && ToDownload(listed.value, shallow, feedDaysToRefresh).Err? ==>
        o.result.Err? && p == [0] && o.summaries == summaries && o.personPhotos == personPhotos) &&
      (listed.Ok? && ToDownload(listed.value, shallow, feedDaysToRefresh).Ok? ==>
        var todo := ToDownload(listed.value, shallow, feedDaysToRefresh).value;
        (o.result.Ok? <==> forall i :: 0 <= i < |todo| ==> fetch(todo[i].id).Ok?) &&
        (o.result.Ok? && todo != [] ==> p[|p| - 1] == 100) &&
        |p| == 1 + FirstFetchFailure(fetch, todo))
  {
    if listed.Ok? && ToDownload(listed.value, shallow, feedDaysToRefresh).Ok? {
      var todo := ToDownload(listed.value, shallow, feedDaysToRefresh).value;
      ProgressReportsSpec(FirstFetchFailure(fetch, todo), |todo|);
    } else {
      ProgressReportsSpec(0, 0);
    }
  }

  /** Once the albums to download are chosen, a refresh leaves each album it
      downloaded (and did not download again later) with exactly its fetched
      items and every album it did not download with its old summaries. */
  lemma {:induction false} ProcessSpecTables(
    albums: seq<IncompleteAlbum>, summaries: seq<AlbumEntry<PhotoSummary>>, personPhotos: seq<PersonPhotoRow>,
    list: seq<IncompleteAlbum>, todo: seq<IncompleteAlbum>, fetch: AlbumFetch, shallow: bool, feedDaysToRefresh: int,
    onIncomplete: IncompleteProcessor, onComplete: CompleteProcessor)
    requires ToDownload(list, shallow, feedDaysToRefresh) == Ok(todo)
    ensures var o := ProcessSpec(albums, summaries, personPhotos, Ok(list), fetch, shallow, feedDaysToRefresh, onIncomplete, onComplete);
      var k := FirstFetchFailure(fetch, todo);
      (forall i :: 0 <= i < k && (forall j :: i < j < k ==> todo[j].id != todo[i].id) ==>
        EntriesOf(o.summaries, todo[i].id) == fetch(todo[i].id).value.items) &&
      (forall id :: (forall i :: 0 <= i < k ==> todo[i].id != id) ==>
        EntriesOf(o.summaries, id) == EntriesOf(summaries, id))
  {
    var k := FirstFetchFailure(fetch, todo);
    var got := FetchedAlbums(fetch, todo, k);
    ProcessSpecDownloading(albums, summaries, personPhotos, list, fetch, shallow, feedDaysToRefresh,
      onIncomplete, onComplete, todo, k);
    forall i | 0 <= i < k && (forall j :: i < j < k ==> todo[j].id != todo[i].id)
      ensures EntriesOf(SummariesAfter(summaries, got), todo[i].id) == fetch(todo[i].id).value.items
    {
      EveryDownloadKept(summaries, got, i);
    }
    forall id | forall i :: 0 <= i < k ==> todo[i].id != id
      ensures EntriesOf(SummariesAfter(summaries, got), id) == EntriesOf(summaries, id)
    {
      SummariesAfterSpec(summaries, got, id);
    }
  }

  /** A refresh without a person adds no person row; a person's refresh adds
      a row exactly for each photo of the albums it downloaded. */
  lemma {:induction false} ProcessSpecRows(
    albums: seq<IncompleteAlbum>, summaries: seq<AlbumEntry<PhotoSummary>>, personPhotos: seq<PersonPhotoRow>,
    list: seq<IncompleteAlbum>, todo: seq<IncompleteAlbum>, fetch: AlbumFetch, shallow: bool, feedDaysToRefresh: int,
    onIncomplete: IncompleteProcessor, onComplete: CompleteProcessor)
    requires ToDownload(list, shallow, feedDaysToRefresh) == Ok(todo)
    ensures var o := ProcessSpec(albums, summaries, personPhotos, Ok(list), fetch, shallow, feedDaysToRefresh, onIncomplete, onComplete);
      var k := FirstFetchFailure(fetch, todo);
      (onComplete.NoCompleteProcessing? ==> o.personPhotos == personPhotos) &&
      (onComplete.LinkPersonPhotos? ==> forall row :: row in o.personPhotos <==>
        row in personPhotos ||
        (row.personId == onComplete.personId && exists i :: 0 <= i < k && InAlbum(fetch(todo[i].id).value, row.photoId)))
  {
    var k := FirstFetchFailure(fetch, todo);
    var got := FetchedAlbums(fetch, todo, k);
    ProcessSpecDownloading(albums, summaries, personPhotos, list, fetch, shallow, feedDaysToRefresh,
      onIncomplete, onComplete, todo, k);
    if onComplete.LinkPersonPhotos? {
      forall row
        ensures row in AddedRows(onComplete, got) <==>
          row.personId == onComplete.personId && exists i :: 0 <= i < k && InAlbum(fetch(todo[i].id).value, row.photoId)
      {
        AddedRowsSpec(onComplete.personId, got, row);
      }
    }
  }

  /** A full refresh over a one-album listing with no processors touches
      only that album's summaries: they become the fetched items when the
      fetch succeeds, and nothing changes when it fails. */
  lemma {:induction false} SingleAlbumRefresh(
    albums: seq<IncompleteAlbum>, summaries: seq<AlbumEntry<PhotoSummary>>, personPhotos: seq<PersonPhotoRow>,
    listing: IncompleteAlbum, fetch: AlbumFetch)
    ensures var o := ProcessSpec(albums, summaries, personPhotos, Ok([listing]), fetch, false, 0,
        NoIncompleteProcessing, NoCompleteProcessing);
      var fetched := fetch(listing.id);
      o.albums == albums && o.personPhotos == personPhotos &&
      (o.result.Ok? <==> fetched.Ok?) &&
      o.summaries == if fetched.Ok? then ReplaceEntries(summaries, listing.id, fetched.value.items) else summaries
  {
    var fetched := fetch(listing.id);
    if fetched.Ok? {
      var d := Download(listing.id, fetched.value);
      ProcessSpecDownloading(albums, summaries, personPhotos, [listing], fetch, false, 0,
        NoIncompleteProcessing, NoCompleteProcessing, [listing], 1);
      assert FetchedAlbums(fetch, [listing], 1) == [d];
      SummariesAfterSnoc(summaries, [], d);
      assert [] + [d] == [d];
    } else {
      ProcessSpecDownloading(albums, summaries, personPhotos, [listing], fetch, false, 0,
        NoIncompleteProcessing, NoCompleteProcessing, [listing], 0);
    }
  }

  // ---- album contents ----

  /** `groups.flatMap { it.photos }`. */
  function GroupPhotos(groups: seq<UserAlbumGroup>): (r: seq<PhotoSummary>)
    ensures forall p :: p in r <==> exists g :: g in groups && p in g.photos
  {
    if groups == [] then [] else groups[0].photos + GroupPhotos(groups[1..])
  }

  /** The flattened photos are the groups' photos, group after group, each
      group's in its own order. */
  lemma {:induction false} GroupPhotosConcat(a: seq<UserAlbumGroup>, b: seq<UserAlbumGroup>)
    ensures GroupPhotos(a + b) == GroupPhotos(a) + GroupPhotos(b)
    ensures forall g :: GroupPhotos([g]) == g.photos
  {
    if a != [] {
      assert (a + b)[0] == a[0];
      assert (a + b)[1..] == a[1..] + b;
      GroupPhotosConcat(a[1..], b);
      assert GroupPhotos(a + b) == a[0].photos + GroupPhotos(a[1..] + b);
    } else {
      assert a + b == b;
    }
    forall g ensures GroupPhotos([g]) == g.photos {
      assert [g][1..] == [];
    }
  }

  function PersonIds(people: seq<AutoAlbumPerson>): (r: seq<int>)
    ensures |r| == |people|
    ensures forall i :: 0 <= i < |r| ==> r[i] == people[i].id
  {
    seq(|people|, i requires 0 <= i < |people| => people[i].id)
  }

  function ImageHashes(photos: seq<AutoAlbumPhoto>): (r: seq<string>)
    ensures |r| == |photos|
    ensures forall i :: 0 <= i < |r| ==> r[i] == photos[i].imageHash
  {
    seq(|photos|, i requires 0 <= i < |photos| => photos[i].imageHash)
  }

  function PhotoIds(photos: seq<PhotoSummary>): (r: seq<string>)
    ensures |r| == |photos|
    ensures forall i :: 0 <= i < |r| ==> r[i] == photos[i].id
  {
    seq(|photos|, i requires 0 <= i < |photos| => photos[i].id)
  }

  // ---- progress ----

  /** The progress reported after album i (0-based) of n. */
  function Percent(i: nat, n: nat): int
    requires i < n
  {
    100 * (i + 1) / n
  }

  /** The reports after the first k of n albums. */
  function ProgressReports(k: nat, n: nat): (r: seq<int>)
    requires k <= n
    ensures |r| == k
    ensures forall i :: 0 <= i < k ==> r[i] == Percent(i, n)
  {
    seq(k, i requires 0 <= i < k => Percent(i, n))
  }

  lemma {:induction false} DivMonotone(a: nat, b: nat, n: nat)
    requires a <= b && n > 0
    ensures a / n <= b / n
  {
    var qa, qb := a / n, b / n;
    assert a == qa * n + a % n;
    assert b == qb * n + b % n;
    if qa > qb {
      MulMonotone(qb + 1, qa, n);
      assert false;
    }
  }

  lemma {:induction false} MulMonotone(x: nat, y: nat, n: nat)
    requires x <= y
    ensures x * n <= y * n
  {
  }

  lemma {:induction false} PercentBounds(i: nat, j: nat, n: nat)
    requires i <= j < n
    ensures 0 <= Percent(i, n) <= Percent(j, n) <= 100
    ensures j == n - 1 ==> Percent(j, n) == 100
  {
    DivMonotone(100 * (i + 1), 100 * (j + 1), n);
    DivMonotone(100 * (j + 1), 100 * n, n);
    MulDivCancel(100, n);
  }

  lemma {:induction false} MulDivCancel(x: nat, n: nat)
    requires n > 0
    ensures x * n / n == x
  {
    var q := x * n / n;
    assert x * n == q * n + x * n % n;
    if q < x {
      MulMonotone(q + 1, x, n);
      assert false;
    } else if q > x {
      MulMonotone(x + 1, q, n);
      assert false;
    }
  }

  /** The progress reports start at 0, stay within 0..100, never decrease,
      and reach 100 once every album of a non-empty list is done. */
  lemma {:induction false} ProgressReportsSpec(k: nat, n: nat)
    requires k <= n
    ensures var r := [0] + ProgressReports(k, n);
      r[0] == 0 &&
      (forall i :: 0 <= i < |r| ==> 0 <= r[i] <= 100) &&
      (forall i, j :: 0 <= i <= j < |r| ==> r[i] <= r[j]) &&
      (0 < k == n ==> r[|r| - 1] == 100)
  {
    var p := ProgressReports(k, n);
    var r := [0] + p;
    assert forall i :: 1 <= i < |r| ==> r[i] == p[i - 1];
    forall i, j | 0 <= i <= j < |r|
      ensures 0 <= r[i] <= r[j] <= 100
    {
      if i == 0 {
        if j > 0 {
          PercentBounds(j - 1, j - 1, n);
        }
      } else {
        PercentBounds(i - 1, j - 1, n);
      }
    }
    if 0 < k == n {
      PercentBounds(n - 1, n - 1, n);
    }
  }
}
