/** The photo screen's handler: for the current state and an action, the
    ordered trace of what the action's flow does — mutations it emits, effects
    it raises and use-case calls it makes. */
module PhotoHandler {
  import opened WorkInfo
  import opened PhotoActions
  import PM = PhotoMutations
  import PE = PhotoEffects
  import opened PhotoStates

  /** The photos use case's URL builders and the coordinate's `toString()`. */
  datatype Env = Env(thumbnailUrl: string -> string, fullSizeUrl: string -> string, gpsText: LatLng -> string)

  datatype PhotoEvent =
    | Emit(mutation: PM.PhotoMutation)
    | Raise(effect: PE.PhotoEffect)
      /** `emitAll(merge(...))` over the photo's details and its retrieval
          job's status; the interleaving of the two streams is not modelled. */
    | CollectDetailsAndStatus(id: string)
    | SetPhotoFavourite(id: string, favourite: bool)
    | RefreshDetails(id: string)
    | DeletePhotoCall(id: string)

  /** The mutation emitted for each status of the details retrieval job. */
  function StatusMutation(status: WorkState): (m: PM.PhotoMutation)
    ensures m.ShowErrorMessage? <==> status == Blocked || status == Cancelled || status == Failed
    ensures m.ShowErrorMessage? ==> m.message == "Error loading photo details"
    ensures m == PM.FinishedLoading <==> status == Succeeded
    ensures m == PM.Loading <==> status == Enqueued || status == Running
  {
    match status
    case Blocked | Cancelled | Failed => PM.ShowErrorMessage("Error loading photo details")
    case Succeeded => PM.FinishedLoading
    case Enqueued | Running => PM.Loading
  }

  /** `PhotoHandler.invoke`. */
  function Handle(state: PhotoState, action: PhotoAction, env: Env): (trace: seq<PhotoEvent>)
    ensures trace != []
    ensures !trace[0].CollectDetailsAndStatus? && !trace[0].DeletePhotoCall?
    ensures action.LoadPhoto? ==> trace[0] == Emit(PM.ReceivedUrl(action.id, env.thumbnailUrl(action.id), env.fullSizeUrl(action.id)))
  {
    match action
    case LoadPhoto(id, _) =>
      [Emit(PM.ReceivedUrl(id, env.thumbnailUrl(id), env.fullSizeUrl(id))), CollectDetailsAndStatus(id)]
    case ToggleUI =>
      if state.showUI then [Emit(PM.HideUI), Raise(PE.HideSystemBars)]
      else [Emit(PM.ShowUI), Raise(PE.ShowSystemBars)]
    case NavigateBack => [Emit(PM.HideUI), Raise(PE.NavigateBack)]
    case SetFavourite(favourite) => [SetPhotoFavourite(state.id, favourite)]
    case Refresh => [RefreshDetails(state.id)]
    case DismissErrorMessage => [Emit(PM.DismissErrorMessage)]
    case ShowInfo => [Emit(PM.ShowInfo)]
    case HideInfo => [Emit(PM.HideInfo)]
    case ClickedOnMap(gps) => [Raise(PE.LaunchMap(gps))]
    case ClickedOnGps(gps) => [Raise(PE.CopyToClipboard(env.gpsText(gps)))]
    case AskForPhotoDeletion => [Emit(PM.ShowDeletionConfirmationDialog)]
    case DismissPhotoDeletionDialog => [Emit(PM.HideDeletionConfirmationDialog)]
    case DeletePhoto =>
      [Emit(PM.Loading), Emit(PM.HideDeletionConfirmationDialog), DeletePhotoCall(state.id), Raise(PE.NavigateBack)]
    case SharePhoto => [Raise(PE.SharePhoto(state.fullResUrl))]
    case FullImageLoaded => [Emit(PM.ShowShareIcon)]
  }

  /** The mutations of a trace, in order. */
  function Mutations(trace: seq<PhotoEvent>): (ms: seq<PM.PhotoMutation>)
    ensures |ms| <= |trace|
    ensures forall m :: m in ms <==> Emit(m) in trace
  {
    if trace == [] then []
    else (if trace[0].Emit? then [trace[0].mutation] else []) + Mutations(trace[1..])
  }

  /** The effects of a trace, in order. */
  function Effects(trace: seq<PhotoEvent>): (es: seq<PE.PhotoEffect>)
    ensures |es| <= |trace|
    ensures forall e :: e in es <==> Raise(e) in trace
  {
    if trace == [] then []
    else (if trace[0].Raise? then [trace[0].effect] else []) + Effects(trace[1..])
  }

  /** Toggling hides the UI and the system bars when the UI is shown, and
      shows both otherwise: one mutation, then one matching effect. */
  lemma ToggleUIFlips(state: PhotoState, env: Env)
    ensures var t := Handle(state, ToggleUI, env);
      Mutations(t) == [if state.showUI then PM.HideUI else PM.ShowUI] &&
      Effects(t) == [if state.showUI then PE.HideSystemBars else PE.ShowSystemBars] &&
      t[0].Emit? && t[1].Raise?
  {
  }

  /** Loading a photo publishes its URLs before anything else. */
  lemma LoadPhotoUrlsFirst(state: PhotoState, id: string, isVideo: bool, env: Env)
    ensures var t := Handle(state, LoadPhoto(id, isVideo), env);
      Mutations(t) == [PM.ReceivedUrl(id, env.thumbnailUrl(id), env.fullSizeUrl(id))] &&
      t[|t| - 1] == CollectDetailsAndStatus(id)
  {
  }

  /** Deleting shows the loading indicator, closes the dialog, deletes the
      current photo and only then navigates back. */
  lemma DeleteOrder(state: PhotoState, env: Env)
    ensures var t := Handle(state, DeletePhoto, env);
      Mutations(t) == [PM.Loading, PM.HideDeletionConfirmationDialog] &&
      Effects(t) == [PE.NavigateBack] &&
      t[2] == DeletePhotoCall(state.id) && t[|t| - 1] == Raise(PE.NavigateBack)
  {
    assert Handle(state, DeletePhoto, env) == DeleteTrace(state.id);
    DeleteMutations(state.id);
    DeleteEffects(state.id);
  }

  /** The trace of deleting photo `id`. */
  function DeleteTrace(id: string): seq<PhotoEvent> {
    [Emit(PM.Loading), Emit(PM.HideDeletionConfirmationDialog), DeletePhotoCall(id), Raise(PE.NavigateBack)]
  }

  lemma DeleteMutations(id: string)
    ensures Mutations(DeleteTrace(id)) == [PM.Loading, PM.HideDeletionConfirmationDialog]
  {
    var t := DeleteTrace(id);
    assert t == [t[0]] + ([t[1]] + ([t[2]] + ([t[3]] + [])));
    MutationsCons(t[3], []);
    MutationsCons(t[2], [t[3]] + []);
    MutationsCons(t[1], [t[2]] + ([t[3]] + []));
    MutationsCons(t[0], [t[1]] + ([t[2]] + ([t[3]] + [])));
  }

  lemma DeleteEffects(id: string)
    ensures Effects(DeleteTrace(id)) == [PE.NavigateBack]
  {
    var t := DeleteTrace(id);
    assert t == [t[0]] + ([t[1]] + ([t[2]] + ([t[3]] + [])));
    EffectsCons(t[3], []);
    EffectsCons(t[2], [t[3]] + []);
    EffectsCons(t[1], [t[2]] + ([t[3]] + []));
    EffectsCons(t[0], [t[1]] + ([t[2]] + ([t[3]] + [])));
  }

  /** The mutations of a trace that starts with `e`. */
  lemma MutationsCons(e: PhotoEvent, rest: seq<PhotoEvent>)
    ensures Mutations([e] + rest) == (if e.Emit? then [e.mutation] else []) + Mutations(rest)
  {
    assert ([e] + rest)[1..] == rest;
  }

  /** The effects of a trace that starts with `e`. */
  lemma EffectsCons(e: PhotoEvent, rest: seq<PhotoEvent>)
    ensures Effects([e] + rest) == (if e.Raise? then [e.effect] else []) + Effects(rest)
  {
    assert ([e] + rest)[1..] == rest;
  }

  lemma NavigateBackOrder(state: PhotoState, env: Env)
    ensures Handle(state, NavigateBack, env) == [Emit(PM.HideUI), Raise(PE.NavigateBack)]
  {
  }

  /** The dialog, information, dismissal and full-image actions each emit
      exactly one mutation, the one of the same meaning, and raise nothing. */
  lemma OneToOneActions(state: PhotoState, env: Env, action: PhotoAction)
    requires action in {DismissErrorMessage, ShowInfo, HideInfo, AskForPhotoDeletion, DismissPhotoDeletionDialog, FullImageLoaded}
    ensures var t := Handle(state, action, env);
      |t| == 1 && Effects(t) == [] &&
      Mutations(t) == [match action
        case DismissErrorMessage => PM.DismissErrorMessage
        case ShowInfo => PM.ShowInfo
        case HideInfo => PM.HideInfo
        case AskForPhotoDeletion => PM.ShowDeletionConfirmationDialog
        case DismissPhotoDeletionDialog => PM.HideDeletionConfirmationDialog
        case _ => PM.ShowShareIcon]
  {
  }

  /** Every use-case call acts on the photo on screen (`state.id`), and
      sharing shares its full-resolution URL. */
  lemma CallsActOnCurrentPhoto(state: PhotoState, action: PhotoAction, env: Env, e: PhotoEvent)
    requires !action.LoadPhoto?
    requires e in Handle(state, action, env)
    ensures e.SetPhotoFavourite? || e.RefreshDetails? || e.DeletePhotoCall? ==> e.id == state.id
    ensures e.Raise? && e.effect.SharePhoto? ==> e.effect.url == state.fullResUrl
    ensures !e.CollectDetailsAndStatus?
  {
  }
}
