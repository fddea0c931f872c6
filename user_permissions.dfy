/** `AllowSelf`, the permission guarding a user's own account (`generic.api.permissions`). */
module UserPermissions {
  import opened Common
  import opened Users

  /** The view level, inherited from `IsAuthenticated`. */
  predicate AllowSelfView(r: Request)
  {
    r.user.Account?
  }

  /** `AllowSelf.has_object_permission` on the user with primary key `target`. */
  predicate AllowSelfObject(r: Request, target: nat)
  {
    if IsSuperuser(r.user) then true else UserId(r.user) == Some(target)
  }

  /** A superuser may touch any account, anyone else only their own; the method plays no part. */
  lemma AllowSelfSpec(r: Request, target: nat, otherMethod: string)
    ensures IsSuperuser(r.user) ==> AllowSelfObject(r, target)
    ensures !IsSuperuser(r.user) ==> (AllowSelfObject(r, target) <==> r.user.Account? && r.user.id == target)
    ensures AllowSelfObject(r, target) <==> AllowSelfObject(r.(httpMethod := otherMethod), target)
  {
  }

  /** Anonymous requests are stopped at the view, before any object is looked at. */
  lemma AllowSelfNeedsAuthentication(r: Request)
    ensures AllowSelfView(r) <==> !r.user.Anonymous?
  {
  }
}
