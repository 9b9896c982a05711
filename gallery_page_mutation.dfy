/** The mutations of a gallery page (an album, a person's photos, a user
    album): each copies the page state with some fields replaced. */
module GalleryPageMutation {
  import opened PeopleView

  /** The name of a feed layout preset. */
  type FeedDisplay = string

  datatype FeedAlbum = FeedAlbum(id: string, photoIds: seq<string>)

  /** The part of the feed state the mutations read or write. */
  datatype FeedState = FeedState(
    isLoading: bool,
    isEmpty: bool,
    hasPhotos: bool,
    albums: seq<FeedAlbum>,
    feedDisplay: FeedDisplay)

  datatype GalleryPageState = GalleryPageState(title: string, people: seq<Person>, feedState: FeedState)

  datatype GalleryDetails = GalleryDetails(title: string, people: seq<Person>, albums: seq<FeedAlbum>)

  datatype GalleryPageMutation =
    | ShowGalleryPage(galleryPage: GalleryDetails)
    | Loading(loading: bool)
    | ChangeFeedDisplay(feedDisplay: FeedDisplay)

  /** The state transformer each mutation delegates to. */
  function Apply(m: GalleryPageMutation, s: GalleryPageState): (r: GalleryPageState)
    ensures m.ShowGalleryPage? ==>
      r.title == m.galleryPage.title && r.people == m.galleryPage.people &&
      r.feedState == s.feedState.(albums := m.galleryPage.albums)
    ensures m.Loading? ==>
      r.title == s.title && r.people == s.people &&
      r.feedState.isLoading == m.loading &&
      r.feedState.isEmpty == (!m.loading && !s.feedState.hasPhotos) &&
      r.feedState.(isLoading := s.feedState.isLoading, isEmpty := s.feedState.isEmpty) == s.feedState
    ensures m.ChangeFeedDisplay? ==> r == s.(feedState := s.feedState.(feedDisplay := m.feedDisplay))
  {
    match m
    case ShowGalleryPage(page) =>
      s.(title := page.title, people := page.people, feedState := s.feedState.(albums := page.albums))
    case Loading(loading) =>
      s.(feedState := s.feedState.(isLoading := loading, isEmpty := !loading && !s.feedState.hasPhotos))
    case ChangeFeedDisplay(display) =>
      s.(feedState := s.feedState.(feedDisplay := display))
  }

  /** While loading the page is never reported empty. */
  lemma LoadingNeverEmpty(s: GalleryPageState)
    ensures !Apply(Loading(true), s).feedState.isEmpty
    ensures Apply(Loading(true), s).feedState.isLoading
  {
  }

  /** Applying the same mutation twice is the same as applying it once. */
  lemma ApplyIdempotent(m: GalleryPageMutation, s: GalleryPageState)
    ensures Apply(m, Apply(m, s)) == Apply(m, s)
  {
  }

  /** Changing the display and setting the loading flag touch disjoint fields
      and commute. */
  lemma DisplayCommutesWithLoading(d: FeedDisplay, loading: bool, s: GalleryPageState)
    ensures Apply(ChangeFeedDisplay(d), Apply(Loading(loading), s)) == Apply(Loading(loading), Apply(ChangeFeedDisplay(d), s))
  {
  }
}
