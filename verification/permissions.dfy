/**
 * Who is asking, and the two permission checks the views rely on.
 */
module Permissions {
  import opened Wrappers
  import opened Models

  /**
   * `request.user` once authentication has run: None when there is no user
   * object at all, `Anonymous` when no credentials were accepted, else the
   * authenticated user's key.
   */
  datatype Principal = Anonymous | Member(id: nat)

  /** An authenticated requester is a stored user. */
  predicate Known(users: seq<User>, who: Option<Principal>) {
    who.Some? && who.value.Member? ==> who.value.id < |users|
  }

  /** `IsAuthenticated`: a user object that is authenticated. */
  predicate IsAuthenticated(who: Option<Principal>) {
    who.Some? && who.value.Member?
  }

  /**
   * `IsAdminRole.has_permission`: a user object, authenticated, whose role
   * is "admin" — false as soon as any of the three fails.
   */
  function IsAdminRole(users: seq<User>, who: Option<Principal>): (ok: bool)
    requires Known(users, who)
    ensures who.None? ==> !ok
    ensures who == Some(Anonymous) ==> !ok
    ensures IsAuthenticated(who) ==> (ok <==> users[who.value.id].role == Admin)
  {
    if who.None? then false
    else match who.value
      case Anonymous => false
      case Member(id) => users[id].role == Admin
  }

  /** Passing the admin check implies passing the authentication check. */
  lemma AdminRoleImpliesAuthenticated(users: seq<User>, who: Option<Principal>)
    requires Known(users, who)
    ensures IsAdminRole(users, who) ==> IsAuthenticated(who)
  {
  }
}
