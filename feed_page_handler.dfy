/** The feed page's actions, mutations and effects, and its handler: for an
    action, the ordered trace of what the action's flow does. `LoadFeed`
    merges four streams; the merge itself is not modelled. */

module FeedPageMvFlow {
  import opened Wrappers

  /** A position on screen. */
  datatype Offset = Offset(x: real, y: real)

  /** The name of a feed layout preset. */
  type FeedDisplay = string

  /** A photo of the feed; only remote photos have an id. */
  datatype FeedPhoto = FeedPhoto(id: Option<string>)

  datatype FeedPageAction =
    | LoadFeed
    | UserBadgePressed
    | DismissAccountOverview
    | LogOut
    | RefreshAlbums
    | SelectedPhoto(photo: FeedPhoto, center: Offset, scale: real)
    | ChangeDisplay(display: FeedDisplay)
    | HideFeedDisplayChoice
    | ShowFeedDisplayChoice

  datatype FeedPageMutation =
    | ShowAccountOverview
    | HideAccountOverview
    | StartRefreshing
    | StopRefreshing
    | HideFeedDisplayChoice
    | ShowFeedDisplayChoice

  datatype FeedPageEffect =
    | ReloadApp
    | OpenPhotoDetails(id: string, center: Offset, scale: real)
}

module FeedPageHandler {
  import opened Wrappers
  import opened FeedPageMvFlow
  import FM = FeedPageMvFlow

  datatype FeedEvent =
    | Emit(mutation: FeedPageMutation)
    | Raise(effect: FeedPageEffect)
    | LogOutCall
    | StartRefreshAlbumsWork
    | SetFeedDisplay(display: FeedDisplay)
      /** The flow ends with an exception (`!!` on a null value). */
    | Thrown(exception: string)
      /** `LoadFeed`'s merge of the display, loading, albums and badge streams. */
    | MergeFeedStreams

  /** `FeedPageHandler.invoke`. */
  function Handle(action: FeedPageAction): (trace: seq<FeedEvent>)
    ensures trace != []
    ensures action.LoadFeed? <==> trace == [MergeFeedStreams]
  {
    match action
    case LoadFeed => [MergeFeedStreams]
    case UserBadgePressed => [Emit(ShowAccountOverview)]
    case DismissAccountOverview => [Emit(HideAccountOverview)]
    case LogOut => [LogOutCall, Raise(ReloadApp)]
    case RefreshAlbums => [Emit(StartRefreshing), StartRefreshAlbumsWork, Emit(StopRefreshing)]
    case SelectedPhoto(photo, center, scale) =>
      if photo.id.None? then [Thrown("NullPointerException")]
      else [Raise(OpenPhotoDetails(photo.id.value, center, scale))]
    case ChangeDisplay(display) => [SetFeedDisplay(display), Emit(FM.FeedPageMutation.HideFeedDisplayChoice)]
    case HideFeedDisplayChoice => [Emit(FM.FeedPageMutation.HideFeedDisplayChoice)]
    case ShowFeedDisplayChoice => [Emit(FM.FeedPageMutation.ShowFeedDisplayChoice)]
  }

  function Mutations(trace: seq<FeedEvent>): (ms: seq<FeedPageMutation>)
    ensures |ms| <= |trace|
    ensures forall m :: m in ms <==> Emit(m) in trace
  {
    if trace == [] then []
    else (if trace[0].Emit? then [trace[0].mutation] else []) + Mutations(trace[1..])
  }

  function Effects(trace: seq<FeedEvent>): (es: seq<FeedPageEffect>)
    ensures |es| <= |trace|
    ensures forall e :: e in es <==> Raise(e) in trace
  {
    if trace == [] then []
    else (if trace[0].Raise? then [trace[0].effect] else []) + Effects(trace[1..])
  }

  /** The account overview and display-choice actions map one to one onto
      the mutations of the same meaning, with no effect. */
  lemma OneToOneActions(action: FeedPageAction)
    requires action in {UserBadgePressed, DismissAccountOverview, FM.FeedPageAction.HideFeedDisplayChoice, FM.FeedPageAction.ShowFeedDisplayChoice}
    ensures var t := Handle(action);
      |t| == 1 && Effects(t) == [] &&
      Mutations(t) == [match action
        case UserBadgePressed => ShowAccountOverview
        case DismissAccountOverview => HideAccountOverview
        case HideFeedDisplayChoice => FM.FeedPageMutation.HideFeedDisplayChoice
        case _ => FM.FeedPageMutation.ShowFeedDisplayChoice]
  {
  }

  /** Logging out emits no mutation and reloads the app only after the
      account has been logged out. */
  lemma LogOutOrder()
    ensures var t := Handle(LogOut);
      Mutations(t) == [] && Effects(t) == [ReloadApp] && t[0] == LogOutCall
  {
    var t := Handle(LogOut);
    assert t[1..][1..] == [];
  }

  /** Refreshing brackets the start of the background work between
      StartRefreshing and StopRefreshing, and emits nothing else. */
  lemma RefreshAlbumsOrder()
    ensures var t := Handle(RefreshAlbums);
      Mutations(t) == [StartRefreshing, StopRefreshing] && Effects(t) == [] &&
      t[1] == StartRefreshAlbumsWork
  {
    var t := Handle(RefreshAlbums);
    assert t[1..][1..][1..] == [];
  }

  /** Selecting a photo raises one OpenPhotoDetails for it and emits no
      mutation; a photo without an id makes the flow fail. */
  lemma SelectedPhotoOpensDetails(photo: FeedPhoto, center: Offset, scale: real)
    ensures var t := Handle(SelectedPhoto(photo, center, scale));
      Mutations(t) == [] &&
      (photo.id.Some? ==> Effects(t) == [OpenPhotoDetails(photo.id.value, center, scale)]) &&
      (photo.id.None? ==> Effects(t) == [] && t[0].Thrown?)
  {
  }

  /** The new display is persisted before the choice is hidden. */
  lemma ChangeDisplayOrder(display: FeedDisplay)
    ensures var t := Handle(ChangeDisplay(display));
      t[0] == SetFeedDisplay(display) && Mutations(t) == [FM.FeedPageMutation.HideFeedDisplayChoice] && Effects(t) == []
  {
    var t := Handle(ChangeDisplay(display));
    assert t[1..][1..] == [];
  }
}
