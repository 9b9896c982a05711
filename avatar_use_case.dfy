/** The value the avatar use case derives from the signed-in user, the status
    of the feed refresh job and the server address: the avatar URL, the
    synchronisation badge, the initials and the full name. The stream
    combination around it is not modelled; `AvatarStateOf` is the body of the
    combining lambda. */
module AvatarUseCase {
  import opened Wrappers
  import opened Text
  import opened WorkInfo

  datatype User = User(firstName: Option<string>, lastName: Option<string>, avatar: Option<string>)

  datatype AvatarState = AvatarState(
    avatarUrl: Option<string>,
    syncState: SyncState,
    initials: string,
    userFullName: string,
    serverUrl: string)

  /** The feed refresh job's state as the badge shows it. */
  function SyncStateOf(status: WorkState): (s: SyncState)
    ensures s == Bad <==> status == Blocked || status == Failed
    ensures s == Good <==> status == Cancelled || status == Enqueued || status == Succeeded
    ensures s == InProgress <==> status == Running
  {
    match status
    case Blocked | Failed => Bad
    case Cancelled | Enqueued | Succeeded => Good
    case Running => InProgress
  }

  /** Kotlin's `orEmpty()`. */
  function OrEmpty(name: Option<string>): string {
    match name
    case None => ""
    case Some(s) => s
  }

  /** `String?.initial()`: the first character, upper-cased, or "". */
  function Initial(name: Option<string>): (r: string)
    ensures |r| <= 1
    ensures r == [] <==> OrEmpty(name) == []
    ensures r != [] ==> r[0] == UpperChar(OrEmpty(name)[0])
  {
    var s := OrEmpty(name);
    if s == [] then "" else UpperCase(s[..1])
  }

  /** The first name's initial, then the last name's, each present only when
      that name is neither null nor empty. */
  function Initials(user: User): (r: string)
    ensures |r| == (if OrEmpty(user.firstName) == [] then 0 else 1) + (if OrEmpty(user.lastName) == [] then 0 else 1)
    ensures OrEmpty(user.firstName) != [] ==> r[0] == UpperChar(OrEmpty(user.firstName)[0])
    ensures OrEmpty(user.lastName) != [] ==> r[|r| - 1] == UpperChar(OrEmpty(user.lastName)[0])
  {
    Initial(user.firstName) + Initial(user.lastName)
  }

  /** A nullable string inside a Kotlin string template: null prints as "null". */
  function Rendered(name: Option<string>): string {
    match name
    case None => "null"
    case Some(s) => s
  }

  /** `"${user.firstName} ${user.lastName}"`. */
  function FullName(user: User): (r: string)
    ensures |r| == |Rendered(user.firstName)| + 1 + |Rendered(user.lastName)|
    ensures r[..|Rendered(user.firstName)|] == Rendered(user.firstName)
    ensures r[|Rendered(user.firstName)|] == ' '
    ensures r[|Rendered(user.firstName)| + 1..] == Rendered(user.lastName)
  {
    Rendered(user.firstName) + " " + Rendered(user.lastName)
  }

  /** The combining lambda of `getAvatarState`; `toRemoteUrl` is the media
      use case's conversion of an avatar path to a URL. */
  function AvatarStateOf(user: User, status: WorkState, serverUrl: string, toRemoteUrl: string -> string): (a: AvatarState)
    ensures a.avatarUrl.None? <==> user.avatar.None?
    ensures user.avatar.Some? ==> a.avatarUrl == Some(toRemoteUrl(user.avatar.value))
    ensures a.syncState == SyncStateOf(status)
    ensures a.initials == Initial(user.firstName) + Initial(user.lastName)
    ensures a.userFullName == FullName(user)
    ensures a.serverUrl == serverUrl
  {
    AvatarState(
      avatarUrl := match user.avatar { case None => None case Some(p) => Some(toRemoteUrl(p)) },
      syncState := SyncStateOf(status),
      initials := Initials(user),
      userFullName := FullName(user),
      serverUrl := serverUrl)
  }

  /** The initials are empty exactly when both names are null or empty. */
  lemma InitialsEmptyIff(user: User)
    ensures Initials(user) == [] <==> OrEmpty(user.firstName) == [] && OrEmpty(user.lastName) == []
  {
  }

  /** The private `WorkInfo.State.plus` operator: RUNNING dominates, then
      FAILED, then two SUCCEEDED give SUCCEEDED, otherwise the left operand. */
  function Plus(a: WorkState, b: WorkState): (r: WorkState)
    ensures r == a || r == b
    ensures r == Running <==> a == Running || b == Running
    ensures r == Failed <==> a != Running && b != Running && (a == Failed || b == Failed)
    ensures a !in {Running, Failed} && b !in {Running, Failed} ==> r == a
  {
    if a == Running || b == Running then Running
    else if a == Failed || b == Failed then Failed
    else if a == Succeeded && b == Succeeded then Succeeded
    else a
  }

  lemma PlusIdempotent(s: WorkState)
    ensures Plus(s, s) == s
  {
  }

  /** SUCCEEDED comes out whenever the left operand is SUCCEEDED and the right
      one is neither RUNNING nor FAILED: the both-SUCCEEDED branch gives the
      same answer as the left-operand fallback. */
  lemma PlusSucceededIff(a: WorkState, b: WorkState)
    ensures Plus(a, b) == Succeeded <==> a == Succeeded && b != Running && b != Failed
  {
  }

  lemma PlusAssociative(a: WorkState, b: WorkState, c: WorkState)
    ensures Plus(Plus(a, b), c) == Plus(a, Plus(b, c))
  {
  }
}
