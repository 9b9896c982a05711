/** The photo screen's actions, mutations, effects and state, as plain data. */

module PhotoActions {

  /** A map coordinate in the maps library's type. */
  datatype LatLng = LatLng(latitude: real, longitude: real)

  datatype PhotoAction =
    | ToggleUI
    | NavigateBack
    | Refresh
    | DismissErrorMessage
    | ShowInfo
    | HideInfo
    | AskForPhotoDeletion
    | DismissPhotoDeletionDialog
    | DeletePhoto
    | SharePhoto
    | FullImageLoaded
    | ClickedOnMap(gps: LatLng)
    | LoadPhoto(id: string, isVideo: bool)
    | SetFavourite(favourite: bool)
    | ClickedOnGps(gps: LatLng)
}

module PhotoMutations {

  /** A row of the photo details table. */
  datatype PhotoDetails = PhotoDetails(imageHash: string)

  datatype PhotoMutation =
    | HideUI
    | ShowUI
    | DismissErrorMessage
    | ShowErrorMessage(message: string)
    | FinishedLoading
    | Loading
    | ShowInfo
    | HideInfo
    | ShowDeletionConfirmationDialog
    | HideDeletionConfirmationDialog
    | ShowShareIcon
    | ReceivedUrl(id: string, lowResUrl: string, fullResUrl: string)
    | ReceivedDetails(details: PhotoDetails)
}

/** The effects, including `SharePhoto` and `CopyToClipboard`, which the
    handler raises although the effect type's own declaration lacks them. */
module PhotoEffects {
  import opened PhotoActions

  datatype PhotoEffect =
    | LaunchMap(gps: LatLng)
    | HideSystemBars
    | ShowSystemBars
    | NavigateBack
    | SharePhoto(url: string)
    | CopyToClipboard(content: string)
}

module PhotoStates {
  import opened Wrappers
  import opened PhotoActions

  /** The position of the information bottom sheet. */
  datatype SheetValue = Hidden | Expanded | HalfExpanded

  datatype PhotoState = PhotoState(
    id: string,
    isLoading: bool,
    fullResUrl: string,
    lowResUrl: string,
    errorMessage: Option<string>,
    showUI: bool,
    showRefresh: bool,
    showInfoButton: bool,
    showPhotoDeletionConfirmationDialog: bool,
    showShareIcon: bool,
    isFavourite: Option<bool>,
    infoSheetState: SheetValue,
    dateAndTime: string,
    location: string,
    gps: Option<LatLng>)

  /** The state a freshly opened photo screen starts from. */
  function InitialState(): (s: PhotoState)
    ensures s.showUI && !s.isLoading && s.errorMessage.None? && s.infoSheetState == Hidden
  {
    PhotoState("", false, "", "", None, true, false, false, false, false, None, Hidden, "", "", None)
  }
}
