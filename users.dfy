/** Django's users and requests, as the permission classes and viewsets see them. */
module Users {
  import opened Common

  /** `request.user`: the anonymous user, or an account with its flags and the permissions granted to it. */
  datatype User =
    | Anonymous
    | Account(id: nat, isActive: bool, isStaff: bool, isSuperuser: bool, perms: set<string>)

  /** `request.user.id`, which is `None` for the anonymous user. */
  function UserId(u: User): (id: Option<nat>)
    ensures id.None? <==> u.Anonymous?
    ensures id.Some? ==> id.value == u.id
  {
    if u.Anonymous? then None else Some(u.id)
  }

  predicate IsSuperuser(u: User)
  {
    u.Account? && u.isSuperuser
  }

  predicate IsStaff(u: User)
  {
    u.Account? && u.isStaff
  }

  /**
   * `request.user.has_perm(perm)` with the model backend: an active superuser holds every
   * permission, another active account the ones granted to it, and the anonymous user or an
   * inactive account none.
   */
  predicate HasPerm(u: User, perm: string)
  {
    u.Account? && u.isActive && (u.isSuperuser || perm in u.perms)
  }

  /** The permission held by Trillians, which report their results back. */
  const ReportBack := "measurements.report_back"

  /** `rest_framework.permissions.SAFE_METHODS`. */
  const SafeMethods: set<string> := {"GET", "HEAD", "OPTIONS"}

  /** An incoming API request: who makes it and with which HTTP method. */
  datatype Request = Request(user: User, httpMethod: string)

  /**
   * What an object-level permission check reads of a row: `obj.owner_id` and `obj.is_public`.
   * Rows below a test run (instance runs, their results and messages) take both from it.
   */
  datatype Owned = Owned(owner: Option<nat>, isPublic: bool)

  /** `IsAuthenticatedOrReadOnly.has_permission`, the view-level check the measurement permissions inherit. */
  predicate AuthenticatedOrReadOnly(r: Request)
  {
    r.httpMethod in SafeMethods || r.user.Account?
  }
}
