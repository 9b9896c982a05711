/** The user badge's state: the same derivation as the avatar's, over the
    album download job's status. The combining lambda of `getUserBadgeState`
    is `UserInformationStateOf`. */
module UserBadgeUseCase {
  import opened Wrappers
  import opened Text
  import opened WorkInfo
  import AvatarUseCase

  type User = AvatarUseCase.User

  datatype UserInformationState = UserInformationState(
    avatarUrl: Option<string>,
    syncState: SyncState,
    initials: string,
    userFullName: string,
    serverUrl: string)

  function SyncStateOf(status: WorkState): (s: SyncState)
    ensures s == Bad <==> status == Blocked || status == Failed
    ensures s == Good <==> status == Cancelled || status == Enqueued || status == Succeeded
    ensures s == InProgress <==> status == Running
  {
    match status
    case Blocked | Failed => Bad
    case Cancelled | Enqueued | Succeeded => Good
    case Running => InProgress
  }

  /** `String?.initial()`. */
  function Initial(name: Option<string>): (r: string)
    ensures |r| <= 1
    ensures r == [] <==> (name.None? || name.value == [])
    ensures r != [] ==> r[0] == UpperChar(name.value[0])
  {
    match name
    case None => ""
    case Some(s) => if s == [] then "" else UpperCase([s[0]])
  }

  function Rendered(name: Option<string>): string {
    match name
    case None => "null"
    case Some(s) => s
  }

  /** The combining lambda; `toAbsoluteUrl` is the photos use case's
      conversion of an avatar path to a URL. */
  function UserInformationStateOf(user: User, status: WorkState, serverUrl: string, toAbsoluteUrl: string -> string): (u: UserInformationState)
    ensures u.avatarUrl.None? <==> user.avatar.None?
    ensures user.avatar.Some? ==> u.avatarUrl == Some(toAbsoluteUrl(user.avatar.value))
    ensures u.syncState == SyncStateOf(status)
    ensures u.initials == Initial(user.firstName) + Initial(user.lastName)
    ensures |u.initials| <= 2
    ensures u.userFullName == Rendered(user.firstName) + [' '] + Rendered(user.lastName)
    ensures u.serverUrl == serverUrl
  {
    UserInformationState(
      avatarUrl := match user.avatar { case None => None case Some(p) => Some(toAbsoluteUrl(p)) },
      syncState := SyncStateOf(status),
      initials := Initial(user.firstName) + Initial(user.lastName),
      userFullName := Rendered(user.firstName) + " " + Rendered(user.lastName),
      serverUrl := serverUrl)
  }

  /** The `plus` operator written with early returns. */
  function Plus(a: WorkState, b: WorkState): (r: WorkState)
    ensures r == a || r == b
    ensures r == Running <==> a == Running || b == Running
    ensures r == Failed <==> a != Running && b != Running && (a == Failed || b == Failed)
    ensures a !in {Running, Failed} && b !in {Running, Failed} ==> r == a
  {
    if a == Running || b == Running then Running
    else if a == Failed || b == Failed then Failed
    else if a == Succeeded && b == Succeeded then Succeeded
    else a
  }

  lemma PlusIdempotent(s: WorkState)
    ensures Plus(s, s) == s
  {
  }

  /** The badge derives everything the avatar derives, in the same way: the
      job-status mapping, the operator, the initials and the full name agree. */
  lemma AgreesWithAvatar(user: User, status: WorkState, serverUrl: string, toUrl: string -> string, a: WorkState, b: WorkState)
    ensures SyncStateOf(status) == AvatarUseCase.SyncStateOf(status)
    ensures Plus(a, b) == AvatarUseCase.Plus(a, b)
    ensures UserInformationStateOf(user, status, serverUrl, toUrl).initials
         == AvatarUseCase.AvatarStateOf(user, status, serverUrl, toUrl).initials
    ensures UserInformationStateOf(user, status, serverUrl, toUrl).userFullName
         == AvatarUseCase.AvatarStateOf(user, status, serverUrl, toUrl).userFullName
  {
  }
}
