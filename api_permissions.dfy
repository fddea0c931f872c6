/** The permission classes of the measurements REST API (`measurements.api.permissions`). */
module ApiPermissions {
  import opened Common
  import opened Users

  // ------------------------------------------------------------ OwnerBasedPermission

  /** `OwnerBasedPermission.has_permission`: only authenticated users reach the view. */
  predicate OwnerBasedView(r: Request)
  {
    !r.user.Anonymous?
  }

  /** `OwnerBasedPermission.has_object_permission`. */
  predicate OwnerBasedObject(r: Request, obj: Owned)
  {
    if IsSuperuser(r.user) then true else obj.owner == UserId(r.user)
  }

  // ------------------------------------------------------------ OwnerOrPublicBasedPermission

  /**
   * `OwnerOrPublicBasedPermission.has_permission`, inherited from `IsAuthenticatedOrReadOnly`
   * (`InstanceRunPermission` inherits it in turn).
   */
  predicate OwnerOrPublicView(r: Request)
  {
    AuthenticatedOrReadOnly(r)
  }

  /** `OwnerOrPublicBasedPermission.has_object_permission`. */
  predicate OwnerOrPublicObject(r: Request, obj: Owned)
  {
    if IsSuperuser(r.user) then true
    else if r.httpMethod in SafeMethods then obj.owner == UserId(r.user) || obj.isPublic
    else obj.owner == UserId(r.user)
  }

  // ------------------------------------------------------------ InstanceRunPermission

  /** `InstanceRunPermission.has_object_permission`. */
  predicate InstanceRunObject(r: Request, obj: Owned)
  {
    if HasPerm(r.user, ReportBack) then true else OwnerOrPublicObject(r, obj)
  }

  // ------------------------------------------------------------ CreatePublicBasedPermission

  /** `CreatePublicBasedPermission.PUBLIC_METHODS`: the safe methods and POST. */
  const PublicMethods: set<string> := SafeMethods + {"POST"}

  /** `CreatePublicBasedPermission.has_permission`. */
  predicate CreatePublicView(r: Request)
  {
    if IsSuperuser(r.user) then true else r.httpMethod in PublicMethods
  }

  /** `CreatePublicBasedPermission.has_object_permission`. */
  predicate CreatePublicObject(r: Request, obj: Owned)
  {
    if IsSuperuser(r.user) then true
    else if r.httpMethod in PublicMethods then obj.owner == UserId(r.user) || obj.isPublic
    else obj.owner == UserId(r.user)
  }

  // ------------------------------------------------------------ Properties

  lemma AnonymousNeverReachesOwnerBasedViews(r: Request)
    ensures r.user.Anonymous? ==> !OwnerBasedView(r)
    ensures r.user.Account? ==> OwnerBasedView(r)
  {
  }

  /**
   * Through both levels of `OwnerOrPublicBasedPermission`, an anonymous user only reads, and only
   * public objects or objects without an owner (whose `owner_id` equals the anonymous `id`, `None`).
   */
  lemma AnonymousOwnerOrPublicAccess(r: Request, obj: Owned)
    requires r.user.Anonymous?
    ensures OwnerOrPublicView(r) && OwnerOrPublicObject(r, obj) <==>
              r.httpMethod in SafeMethods && (obj.isPublic || obj.owner.None?)
    ensures OwnerOrPublicView(r) && InstanceRunObject(r, obj) <==>
              r.httpMethod in SafeMethods && (obj.isPublic || obj.owner.None?)
  {
  }

  /** A superuser passes every object-level check, whatever the method and the object. */
  lemma SuperuserPassesEveryObjectCheck(r: Request, obj: Owned)
    requires IsSuperuser(r.user)
    ensures OwnerBasedObject(r, obj) && OwnerOrPublicObject(r, obj)
    ensures InstanceRunObject(r, obj) && CreatePublicObject(r, obj) && CreatePublicView(r)
  {
  }

  /**
   * Below a superuser, an owner-based object is open to its owner and nobody else. The check
   * compares `owner_id` with `request.user.id`, so an anonymous user (who never passes the view
   * level) would match exactly the objects without an owner.
   */
  lemma OwnerBasedOwnerOnly(r: Request, obj: Owned)
    requires !IsSuperuser(r.user)
    ensures r.user.Account? ==> (OwnerBasedObject(r, obj) <==> obj.owner == Some(r.user.id))
    ensures r.user.Anonymous? ==> (OwnerBasedObject(r, obj) <==> obj.owner.None?)
  {
  }

  /** Reading needs ownership or a public object; writing needs ownership. */
  lemma OwnerOrPublicSpec(r: Request, obj: Owned)
    requires !IsSuperuser(r.user)
    ensures r.httpMethod in SafeMethods ==> (OwnerOrPublicObject(r, obj) <==> obj.owner == UserId(r.user) || obj.isPublic)
    ensures r.httpMethod !in SafeMethods ==> (OwnerOrPublicObject(r, obj) <==> obj.owner == UserId(r.user))
    ensures r.httpMethod !in SafeMethods && r.user.Account? && obj.owner != Some(r.user.id) ==> !OwnerOrPublicObject(r, obj)
  {
  }

  /** Holders of `report_back` reach every instance run; anyone else falls back to owner-or-public. */
  lemma InstanceRunFallsBack(r: Request, obj: Owned)
    ensures HasPerm(r.user, ReportBack) ==> InstanceRunObject(r, obj)
    ensures !HasPerm(r.user, ReportBack) ==> (InstanceRunObject(r, obj) <==> OwnerOrPublicObject(r, obj))
  {
  }

  /** Non-superusers may read and create test runs, and nothing else at the view level. */
  lemma CreatePublicViewSpec(r: Request)
    requires !IsSuperuser(r.user)
    ensures CreatePublicView(r) <==> r.httpMethod in {"GET", "HEAD", "OPTIONS", "POST"}
  {
  }

  /**
   * The create-public object check is the owner-or-public check with POST counted as a reading
   * method: the two agree on every method except POST.
   */
  lemma CreatePublicExtendsOwnerOrPublic(r: Request, obj: Owned)
    ensures r.httpMethod != "POST" ==> (CreatePublicObject(r, obj) <==> OwnerOrPublicObject(r, obj))
    ensures r.httpMethod == "POST" ==> (CreatePublicObject(r, obj) <==> OwnerOrPublicObject(r.(httpMethod := "GET"), obj))
  {
  }
}
