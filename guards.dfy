/**
 * The two permission decorators put in front of the admin commands: each
 * either refuses, with a reply to the user, or calls the wrapped handler
 * once with the same arguments and passes its result on.
 */
module Guards {
  import opened Base

  datatype ChatType = Private | Group | Supergroup | Channel

  datatype MemberStatus = Creator | Administrator | Member | Restricted | Left | Kicked

  /** What the platform's member lookup gives: a status, or an exception. */
  datatype Membership = Found(status: MemberStatus) | LookupFailed

  datatype Refusal =
    | GroupsOnly          // "This command can only be used in groups."
    | NotAdmin            // "You must be a group admin to use this command."
    | AdminUnverified     // "Could not verify your admin status."
    | NoActiveGame        // "There is no active game."
    | GameInProgress      // "A game is already in progress!"

  /** The result of a decorated handler: refused, or the wrapped handler's own result. */
  datatype Guarded<R> = Refused(why: Refusal) | Forwarded(result: R)

  predicate IsGroupChat(t: ChatType)
  {
    t == Group || t == Supergroup
  }

  predicate IsAdminStatus(s: MemberStatus)
  {
    s == Administrator || s == Creator
  }

  /** The check `is_admin` makes, in its order: chat type first, then the member lookup. */
  function AdminGate(chat: ChatType, member: Membership): (r: Option<Refusal>)
    ensures r.None? <==> IsGroupChat(chat) && member.Found? && IsAdminStatus(member.status)
    ensures !IsGroupChat(chat) ==> r == Some(GroupsOnly)
    ensures IsGroupChat(chat) && member.LookupFailed? ==> r == Some(AdminUnverified)
    ensures IsGroupChat(chat) && member.Found? && !IsAdminStatus(member.status) ==> r == Some(NotAdmin)
  {
    if !IsGroupChat(chat) then Some(GroupsOnly)
    else if member.LookupFailed? then Some(AdminUnverified)
    else if !IsAdminStatus(member.status) then Some(NotAdmin)
    else None
  }

  /** The check `game_is_active(isActive)` makes against the presence of a stored game. */
  function ActiveGate(isActive: bool, gameExists: bool): (r: Option<Refusal>)
    ensures r.None? <==> isActive == gameExists
    ensures isActive && !gameExists ==> r == Some(NoActiveGame)
    ensures !isActive && gameExists ==> r == Some(GameInProgress)
  {
    if isActive && !gameExists then Some(NoActiveGame)
    else if !isActive && gameExists then Some(GameInProgress)
    else None
  }

  /** `is_admin(handler)` applied to an argument. */
  function IsAdmin<A, R>(handler: A -> R, chat: ChatType, member: Membership, arg: A): (r: Guarded<R>)
    ensures r.Forwarded? <==> IsGroupChat(chat) && member.Found? && IsAdminStatus(member.status)
    ensures r.Forwarded? ==> r.result == handler(arg)
    ensures r.Refused? ==> r.why in {GroupsOnly, NotAdmin, AdminUnverified}
  {
    match AdminGate(chat, member)
    case Some(why) => Refused(why)
    case None => Forwarded(handler(arg))
  }

  /** `game_is_active(isActive)(handler)` applied to an argument. */
  function GameIsActive<A, R>(isActive: bool, handler: A -> R, gameExists: bool, arg: A): (r: Guarded<R>)
    ensures r.Forwarded? <==> isActive == gameExists
    ensures r.Forwarded? ==> r.result == handler(arg)
    ensures r.Refused? ==> r.why in {NoActiveGame, GameInProgress}
  {
    match ActiveGate(isActive, gameExists)
    case Some(why) => Refused(why)
    case None => Forwarded(handler(arg))
  }

  /**
   * The stacking used on the admin commands, `is_admin` outside
   * `game_is_active`: the handler runs exactly when both checks pass, and
   * an admin refusal wins over a game-state refusal.
   */
  lemma StackedGuards<A, R>(handler: A -> R, chat: ChatType, member: Membership, isActive: bool, gameExists: bool, arg: A)
    ensures var r := IsAdmin((a: A) => GameIsActive(isActive, handler, gameExists, a), chat, member, arg);
            (r.Forwarded? && r.result.Forwarded? <==>
               AdminGate(chat, member).None? && ActiveGate(isActive, gameExists).None?) &&
            (r.Forwarded? && r.result.Forwarded? ==> r.result.result == handler(arg)) &&
            (AdminGate(chat, member).Some? ==> r == Refused(AdminGate(chat, member).value))
  {
  }
}
