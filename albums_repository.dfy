/** The album repository: the local album tables as fields updated in place,
    and the refresh operations that fill them from the remote service. */
module AlbumsRepository {
  import opened Wrappers
  import opened AlbumSync
  import Text

  /** Albums are keyed by the decimal rendering of their numeric id. */
  function Key(albumId: int): (k: string)
    ensures k != []
  {
    Text.IntToString(albumId)
  }

  /** `getAlbumAllPages`: request pages 1, 2, … of album `id` until the items
      collected reach the item count the last page announced, then merge the
      pages. A failed request ends the fetch with that failure. */
  method GetAlbumAllPages(page: (string, nat) -> Result<CompleteAlbum>, id: string) returns (r: Result<CompleteAlbum>)
    requires Terminates(page, id)
    ensures r == AllPages(page, id)
  {
    ghost var bound := StopPage(page, id);
    var n: nat := 1;
    var albums: seq<CompleteAlbum> := [];
    while true
      invariant 1 <= n <= bound
      invariant PagesUpTo(page, id, n - 1) == Ok(albums)
      invariant forall j :: 1 <= j < n ==> !Stops(page, id, j)
      decreases bound - n
    {
      var album := page(id, n);
      if album.Err? {
        StopPageUnique(page, id, n);
        return Err(album.error);
      }
      albums := albums + [album.value];
      if ItemCount(albums) >= album.value.numberOfItems {
        StopPageUnique(page, id, n);
        return Ok(Merge(albums));
      }
      n := n + 1;
    }
  }

  method FetchAlbum(fetcher: AlbumFetcher, ghost fetch: AlbumFetch, id: string) returns (r: Result<CompleteAlbum>)
    requires FetchesAs(fetcher, fetch)
    ensures r == fetch(id)
  {
    match fetcher {
      case AllPagesOf(page) =>
        r := GetAlbumAllPages(page, id);
      case Direct(album) =>
        r := album(id);
    }
    assert r == Fetched(fetcher, id);
  }

  class AlbumsRepository {
    var albums: seq<IncompleteAlbum>
    var autoAlbums: seq<AutoAlbumSummary>
    var autoAlbum: seq<AutoAlbumRow>
    var autoAlbumPeople: seq<AlbumEntry<int>>
    var people: seq<AutoAlbumPerson>
    var autoAlbumPhotos: seq<AlbumEntry<string>>
    var mediaDetails: seq<AutoAlbumPhoto>
    var userAlbums: seq<UserAlbumSummary>
    var userAlbum: seq<UserAlbumRow>
    var userAlbumPhotos: seq<AlbumEntry<string>>
    var summaries: seq<AlbumEntry<PhotoSummary>>
    var personPhotos: seq<PersonPhotoRow>

    constructor()
      ensures albums == [] && autoAlbums == [] && autoAlbum == [] && autoAlbumPeople == []
      ensures people == [] && autoAlbumPhotos == [] && mediaDetails == [] && userAlbums == []
      ensures userAlbum == [] && userAlbumPhotos == [] && summaries == [] && personPhotos == []
    {
      albums, autoAlbums, autoAlbum, autoAlbumPeople := [], [], [], [];
      people, autoAlbumPhotos, mediaDetails, userAlbums := [], [], [], [];
      userAlbum, userAlbumPhotos, summaries, personPhotos := [], [], [], [];
    }

    /** The albums table has at least one row. */
    method HasAlbums() returns (b: bool)
      ensures b <==> |albums| > 0
    {
      b := |albums| > 0;
    }

    /** The incomplete-album processor of a refresh. */
    method ProcessIncomplete(onIncomplete: IncompleteProcessor, listed: seq<IncompleteAlbum>)
      modifies this`albums
      ensures albums == AlbumsAfter(old(albums), onIncomplete, listed)
    {
      if onIncomplete.NoIncompleteProcessing? {
        return;
      }
      if onIncomplete.ReplaceAlbumsTable? {
        albums := [];
      }
      ghost var start := albums;
      for i := 0 to |listed|
        invariant albums == start + listed[..i]
      {
        albums := albums + [listed[i]];
      }
      assert listed[..|listed|] == listed;
    }

    /** The complete-album processor of a refresh. */
    method ProcessComplete(onComplete: CompleteProcessor, album: CompleteAlbum)
      modifies this`personPhotos
      ensures personPhotos == old(personPhotos) + RowsOf(onComplete, album)
    {
      if onComplete.LinkPersonPhotos? {
        for i := 0 to |album.items|
          invariant personPhotos == old(personPhotos) + PersonPhotoRows(onComplete.personId, album)[..i]
        {
          personPhotos := personPhotos + [PersonPhotoRow(onComplete.personId, album.items[i].id)];
        }
        assert PersonPhotoRows(onComplete.personId, album)[..|album.items|] == PersonPhotoRows(onComplete.personId, album);
      }
    }

    /** The summary transaction of `updateSummaries`: delete the album's
        photo summaries, then insert one per fetched item. */
    method ReplaceSummaries(id: string, items: seq<PhotoSummary>)
      modifies this`summaries
      ensures summaries == ReplaceEntries(old(summaries), id, items)
    {
      summaries := WithoutAlbum(summaries, id);
      ghost var kept := summaries;
      ghost var added := EntriesFor(items, id);
      for i := 0 to |items|
        invariant summaries == kept + added[..i]
      {
        summaries := summaries + [AlbumEntry(items[i], id)];
      }
      assert added[..|items|] == added;
    }

    /** `updateSummaries`: fetch album `id`, hand it to the complete-album
        processor, then replace the album's photo summaries with its items. */
    method UpdateSummaries(id: string, fetcher: AlbumFetcher, ghost fetch: AlbumFetch, onComplete: CompleteProcessor) returns (r: Result<Unit>)
      requires FetchesAs(fetcher, fetch)
      modifies this`summaries, this`personPhotos
      ensures r.Err? <==> fetch(id).Err?
      ensures r.Err? ==> (r.error == fetch(id).error &&
        summaries == old(summaries) && personPhotos == old(personPhotos))
      ensures r.Ok? ==>
        summaries == ReplaceEntries(old(summaries), id, fetch(id).value.items) &&
        personPhotos == old(personPhotos) + RowsOf(onComplete, fetch(id).value)
    {
      var fetched := FetchAlbum(fetcher, fetch, id);
      if fetched.Err? {
        return Err(fetched.error);
      }
      ProcessComplete(onComplete, fetched.value);
      ReplaceSummaries(id, fetched.value.items);
      r := Ok(Unit);
    }

    /** The tables after the summaries of the first `i` albums of `todo` were
        downloaded into tables that held `summaries0` and `personPhotos0`. */
    ghost predicate DownloadedUpTo(todo: seq<IncompleteAlbum>, i: nat, fetch: AlbumFetch, onComplete: CompleteProcessor,
                                   summaries0: seq<AlbumEntry<PhotoSummary>>, personPhotos0: seq<PersonPhotoRow>)
      reads this
    {
      i <= |todo| &&
      (forall j :: 0 <= j < i ==> fetch(todo[j].id).Ok?) &&
      summaries == SummariesAfter(summaries0, FetchedAlbums(fetch, todo, i)) &&
      personPhotos == personPhotos0 + AddedRows(onComplete, FetchedAlbums(fetch, todo, i))
    }

    /** One turn of the download loop: update the summaries of album `i`,
        extending the tables from the downloads before it to the downloads
        up to and including it. */
    method DownloadNext(todo: seq<IncompleteAlbum>, i: nat, fetcher: AlbumFetcher, ghost fetch: AlbumFetch, onComplete: CompleteProcessor,
                        ghost summaries0: seq<AlbumEntry<PhotoSummary>>, ghost personPhotos0: seq<PersonPhotoRow>)
      returns (r: Result<Unit>)
      requires FetchesAs(fetcher, fetch)
      requires i < |todo|
      requires DownloadedUpTo(todo, i, fetch, onComplete, summaries0, personPhotos0)
      modifies this`summaries, this`personPhotos
      ensures r.Err? <==> fetch(todo[i].id).Err?
      ensures r.Err? ==> (r.error == fetch(todo[i].id).error &&
        summaries == old(summaries) && personPhotos == old(personPhotos))
      ensures r.Ok? ==> DownloadedUpTo(todo, i + 1, fetch, onComplete, summaries0, personPhotos0)
    {
      r := UpdateSummaries(todo[i].id, fetcher, fetch, onComplete);
      if r.Ok? {
        StepSummaries(summaries0, fetch, todo, i);
        StepRows(personPhotos0, fetch, onComplete, todo, i);
      }
    }

    /** The download loop of `process`: update the summaries of each album
        in turn, reporting progress after each, until the first failure. */
    method DownloadSummaries(todo: seq<IncompleteAlbum>, fetcher: AlbumFetcher, ghost fetch: AlbumFetch, onComplete: CompleteProcessor)
      returns (r: Result<Unit>, progress: seq<int>)
      requires FetchesAs(fetcher, fetch)
      modifies this`summaries, this`personPhotos
      ensures var k := FirstFetchFailure(fetch, todo);
        var got := FetchedAlbums(fetch, todo, k);
        r == (if k == |todo| then Ok(Unit) else Err(fetch(todo[k].id).error)) &&
        progress == [0] + ProgressReports(k, |todo|) &&
        summaries == SummariesAfter(old(summaries), got) &&
        personPhotos == old(personPhotos) + AddedRows(onComplete, got)
    {
      progress := [0];
      r := Ok(Unit);
      var i := 0;
      assert FetchedAlbums(fetch, todo, 0) == [] && ProgressReports(0, |todo|) == [];
      while i < |todo|
        invariant i <= |todo|
        invariant r == Ok(Unit)
        invariant DownloadedUpTo(todo, i, fetch, onComplete, old(summaries), old(personPhotos))
        invariant progress == [0] + ProgressReports(i, |todo|)
      {
        var updated := DownloadNext(todo, i, fetcher, fetch, onComplete, old(summaries), old(personPhotos));
        if updated.Err? {
          r := updated;
          break;
        }
        StepProgress(i, |todo|);
        progress := progress + [Percent(i, |todo|)];
        i := i + 1;
      }
      FirstFetchFailureAt(fetch, todo, i);
    }

    /** `process`, with the album listing already fetched. */
    method Process(
      listed: Result<seq<IncompleteAlbum>>, fetcher: AlbumFetcher, ghost fetch: AlbumFetch, shallow: bool, feedDaysToRefresh: int,
      onIncomplete: IncompleteProcessor, onComplete: CompleteProcessor)
      returns (r: Result<Unit>, progress: seq<int>)
      requires FetchesAs(fetcher, fetch)
      modifies this`albums, this`summaries, this`personPhotos
      ensures Outcome(r, progress, albums, summaries, personPhotos) ==
        ProcessSpec(old(albums), old(summaries), old(personPhotos), listed, fetch, shallow, feedDaysToRefresh, onIncomplete, onComplete)
    {
      if listed.Err? {
        return Err(listed.error), [0];
      }
      ProcessIncomplete(onIncomplete, listed.value);
      var toDownload := ToDownload(listed.value, shallow, feedDaysToRefresh);
      if toDownload.Err? {
        return Err(toDownload.error), [0];
      }
      r, progress := DownloadSummaries(toDownload.value, fetcher, fetch, onComplete);
    }

    /** `refreshAlbums`: list the albums by date, make the albums table hold
        exactly them, and download the summaries of the recent ones
        (`shallow`) or of all of them, page by page. */
    method RefreshAlbums(shallow: bool, feedDaysToRefresh: int, listed: Result<seq<IncompleteAlbum>>, page: (string, nat) -> Result<CompleteAlbum>)
      returns (r: Result<Unit>, progress: seq<int>)
      requires forall id :: Terminates(page, id)
      modifies this`albums, this`summaries, this`personPhotos
      ensures Outcome(r, progress, albums, summaries, personPhotos) ==
        ProcessSpec(old(albums), old(summaries), old(personPhotos), listed, PagedFetch(page), shallow, feedDaysToRefresh, ReplaceAlbumsTable, NoCompleteProcessing)
      ensures listed.Ok? ==> albums == listed.value
      ensures listed.Err? ==> albums == old(albums)
      ensures personPhotos == old(personPhotos)
    {
      r, progress := Process(listed, AllPagesOf(page), PagedFetch(page), shallow, feedDaysToRefresh, ReplaceAlbumsTable, NoCompleteProcessing);
    }

    /** `refreshAlbum`: a full refresh over a listing of just that album, so
        that its summaries are replaced by its fetched items, if the fetch
        succeeds, and nothing else changes. */
    method RefreshAlbum(albumId: string, page: (string, nat) -> Result<CompleteAlbum>)
      requires forall id :: Terminates(page, id)
      modifies this`albums, this`summaries, this`personPhotos
      ensures albums == old(albums) && personPhotos == old(personPhotos)
      ensures AllPages(page, albumId).Ok? ==> summaries == ReplaceEntries(old(summaries), albumId, AllPages(page, albumId).value.items)
      ensures AllPages(page, albumId).Err? ==> summaries == old(summaries)
    {
      var listing := IncompleteAlbum(albumId, None, "", true, 1);
      ghost var albums0, summaries0, personPhotos0 := albums, summaries, personPhotos;
      ghost var fetch := PagedFetch(page);
      var _, _ := Process(Ok([listing]), AllPagesOf(page), fetch, false, 0, NoIncompleteProcessing, NoCompleteProcessing);
      SingleAlbumRefresh(albums0, summaries0, personPhotos0, listing, fetch);
      assert fetch(albumId) == AllPages(page, albumId);
    }

    /** `downloadPersonAlbums`: add the person's albums to the albums table
        without clearing it, and download each in full, adding a
        (person, photo) row per photo of each. */
    method DownloadPersonAlbums(personId: int, listed: Result<seq<IncompleteAlbum>>, albumForPerson: (string, int) -> Result<CompleteAlbum>)
      modifies this`albums, this`summaries, this`personPhotos
      ensures var o := ProcessSpec(old(albums), old(summaries), old(personPhotos), listed,
          id => albumForPerson(id, personId), false, 0, InsertIntoAlbumsTable, LinkPersonPhotos(personId));
        albums == o.albums && summaries == o.summaries && personPhotos == o.personPhotos
      ensures listed.Ok? ==> albums == old(albums) + listed.value
      ensures listed.Err? ==> albums == old(albums) && personPhotos == old(personPhotos)
    {
      var fetch: AlbumFetch := id => albumForPerson(id, personId);
      assert FetchesAs(Direct(fetch), fetch);
      var _, _ := Process(listed, Direct(fetch), fetch, false, 0, InsertIntoAlbumsTable, LinkPersonPhotos(personId));
    }

    /** `refreshAutoAlbums`: the auto albums table holds exactly the listing. */
    method RefreshAutoAlbums(listed: Result<seq<AutoAlbumSummary>>) returns (r: Result<Unit>)
      modifies this`autoAlbums
      ensures listed.Err? ==> r == Err(listed.error) && autoAlbums == old(autoAlbums)
      ensures listed.Ok? ==> r == Ok(Unit) && autoAlbums == listed.value
    {
      if listed.Err? {
        return Err(listed.error);
      }
      autoAlbums := [];
      for i := 0 to |listed.value|
        invariant autoAlbums == listed.value[..i]
      {
        autoAlbums := autoAlbums + [listed.value[i]];
      }
      assert listed.value[..|listed.value|] == listed.value;
      r := Ok(Unit);
    }

    /** `refreshUserAlbums`: the user albums table holds exactly the listing. */
    method RefreshUserAlbums(listed: Result<seq<UserAlbumSummary>>) returns (r: Result<Unit>)
      modifies this`userAlbums
      ensures listed.Err? ==> r == Err(listed.error) && userAlbums == old(userAlbums)
      ensures listed.Ok? ==> r == Ok(Unit) && userAlbums == listed.value
    {
      if listed.Err? {
        return Err(listed.error);
      }
      userAlbums := [];
      for i := 0 to |listed.value|
        invariant userAlbums == listed.value[..i]
      {
        userAlbums := userAlbums + [listed.value[i]];
      }
      assert listed.value[..|listed.value|] == listed.value;
      r := Ok(Unit);
    }

    /** `refreshAutoAlbum`: store the album's row, make its people links and
        photo links exactly the fetched people and photos, and store each
        person and photo. A failed fetch changes nothing. */
    method RefreshAutoAlbum(albumId: int, getAutoAlbum: string -> Result<AutoAlbum>) returns (r: Result<Unit>)
      modifies this`autoAlbum, this`autoAlbumPeople, this`people, this`autoAlbumPhotos, this`mediaDetails
      ensures r.Err? <==> getAutoAlbum(Key(albumId)).Err?
      ensures r.Err? ==> (r.error == getAutoAlbum(Key(albumId)).error &&
        autoAlbum == old(autoAlbum) && autoAlbumPeople == old(autoAlbumPeople) && people == old(people) &&
        autoAlbumPhotos == old(autoAlbumPhotos) && mediaDetails == old(mediaDetails))
      ensures r.Ok? ==>
        var key := Key(albumId);
        var a := getAutoAlbum(key).value;
        autoAlbum == old(autoAlbum) + [AutoAlbumRow(key, a.title, a.timestamp, a.createdOn, a.isFavorite, a.gpsLat, a.gpsLon)] &&
        autoAlbumPeople == ReplaceEntries(old(autoAlbumPeople), key, PersonIds(a.people)) &&
        people == old(people) + a.people &&
        autoAlbumPhotos == ReplaceEntries(old(autoAlbumPhotos), key, ImageHashes(a.photos)) &&
        mediaDetails == old(mediaDetails) + a.photos
    {
      var key := Key(albumId);
      var fetched := getAutoAlbum(key);
      if fetched.Err? {
        return Err(fetched.error);
      }
      var a := fetched.value;
      autoAlbum := autoAlbum + [AutoAlbumRow(key, a.title, a.timestamp, a.createdOn, a.isFavorite, a.gpsLat, a.gpsLon)];
      LinkAutoAlbumPeople(key, a.people);
      LinkAutoAlbumPhotos(key, a.photos);
      r := Ok(Unit);
    }

    /** The people part of `refreshAutoAlbum`: remove the album's people
        links, then store and link each person in order. */
    method LinkAutoAlbumPeople(key: string, ps: seq<AutoAlbumPerson>)
      modifies this`people, this`autoAlbumPeople
      ensures people == old(people) + ps
      ensures autoAlbumPeople == ReplaceEntries(old(autoAlbumPeople), key, PersonIds(ps))
    {
      autoAlbumPeople := WithoutAlbum(autoAlbumPeople, key);
      ghost var links := EntriesFor(PersonIds(ps), key);
      ghost var linksStart := autoAlbumPeople;
      for i := 0 to |ps|
        invariant people == old(people) + ps[..i]
        invariant autoAlbumPeople == linksStart + links[..i]
      {
        people := people + [ps[i]];
        autoAlbumPeople := autoAlbumPeople + [AlbumEntry(ps[i].id, key)];
      }
      assert ps[..|ps|] == ps;
      assert links[..|ps|] == links;
    }

    /** The photos part of `refreshAutoAlbum`: remove the album's photo
        links, then store the details of each photo and link it, in order. */
    method LinkAutoAlbumPhotos(key: string, photos: seq<AutoAlbumPhoto>)
      modifies this`mediaDetails, this`autoAlbumPhotos
      ensures mediaDetails == old(mediaDetails) + photos
      ensures autoAlbumPhotos == ReplaceEntries(old(autoAlbumPhotos), key, ImageHashes(photos))
    {
      autoAlbumPhotos := WithoutAlbum(autoAlbumPhotos, key);
      ghost var links := EntriesFor(ImageHashes(photos), key);
      ghost var linksStart := autoAlbumPhotos;
      for i := 0 to |photos|
        invariant mediaDetails == old(mediaDetails) + photos[..i]
        invariant autoAlbumPhotos == linksStart + links[..i]
      {
        mediaDetails := mediaDetails + [photos[i]];
        autoAlbumPhotos := autoAlbumPhotos + [AlbumEntry(photos[i].imageHash, key)];
      }
      assert photos[..|photos|] == photos;
      assert links[..|photos|] == links;
    }

    /** `refreshUserAlbum`: store the album's row, then for every photo of
        every group, in order, add its summary and link it, after the album's
        old photo links were removed. A failed fetch changes nothing. */
    method RefreshUserAlbum(albumId: int, getUserAlbum: string -> Result<UserAlbumDetails>) returns (r: Result<Unit>)
      modifies this`userAlbum, this`userAlbumPhotos, this`summaries
      ensures r.Err? <==> getUserAlbum(Key(albumId)).Err?
      ensures r.Err? ==> (r.error == getUserAlbum(Key(albumId)).error &&
        userAlbum == old(userAlbum) && userAlbumPhotos == old(userAlbumPhotos) && summaries == old(summaries))
      ensures r.Ok? ==>
        var key := Key(albumId);
        var a := getUserAlbum(key).value;
        userAlbum == old(userAlbum) + [UserAlbumRow(key, a.title, a.date, a.location)] &&
        userAlbumPhotos == ReplaceEntries(old(userAlbumPhotos), key, PhotoIds(GroupPhotos(a.groups))) &&
        summaries == old(summaries) + EntriesFor(GroupPhotos(a.groups), key)
    {
      var key := Key(albumId);
      var fetched := getUserAlbum(key);
      if fetched.Err? {
        return Err(fetched.error);
      }
      var a := fetched.value;
      userAlbum := userAlbum + [UserAlbumRow(key, a.title, a.date, a.location)];
      LinkUserAlbumPhotos(key, GroupPhotos(a.groups));
      r := Ok(Unit);
    }

    /** The photos part of `refreshUserAlbum`: remove the album's photo
        links, then store the summary of each photo and link it, in order. */
    method LinkUserAlbumPhotos(key: string, photos: seq<PhotoSummary>)
      modifies this`summaries, this`userAlbumPhotos
      ensures summaries == old(summaries) + EntriesFor(photos, key)
      ensures userAlbumPhotos == ReplaceEntries(old(userAlbumPhotos), key, PhotoIds(photos))
    {
      userAlbumPhotos := WithoutAlbum(userAlbumPhotos, key);
      ghost var summaryRows := EntriesFor(photos, key);
      ghost var links := EntriesFor(PhotoIds(photos), key);
      ghost var linksStart := userAlbumPhotos;
      for i := 0 to |photos|
        invariant summaries == old(summaries) + summaryRows[..i]
        invariant userAlbumPhotos == linksStart + links[..i]
      {
        summaries := summaries + [AlbumEntry(photos[i], key)];
        userAlbumPhotos := userAlbumPhotos + [AlbumEntry(photos[i].id, key)];
      }
      assert summaryRows[..|photos|] == summaryRows;
      assert links[..|photos|] == links;
    }
  }
}
