/** The permission classes of the earlier, non-API views (`measurements.permissions`). */
module LegacyPermissions {
  import opened Common
  import opened Users
  import ApiPermissions

  /** `OwnerBasedPermission.has_permission`. */
  predicate OwnerBasedView(r: Request)
  {
    !r.user.Anonymous?
  }

  /** `OwnerBasedPermission.has_object_permission`. */
  predicate OwnerBasedObject(r: Request, obj: Owned)
  {
    if IsSuperuser(r.user) then true else obj.owner == UserId(r.user)
  }

  /** `OwnerOrPublicBasedPermission.has_object_permission`: anonymous users are handled apart. */
  predicate OwnerOrPublicObject(r: Request, obj: Owned)
  {
    if IsSuperuser(r.user) then true
    else if r.httpMethod in SafeMethods then
      (if r.user.Anonymous? then obj.isPublic else obj.owner == UserId(r.user))
    else
      (if r.user.Anonymous? then false else obj.owner == UserId(r.user))
  }

  /** `CreatePublicBasedPermission.public_methods`. */
  const PublicMethods: set<string> := SafeMethods + {"POST"}

  /** `CreatePublicBasedPermission.has_permission`. */
  predicate CreatePublicView(r: Request)
  {
    if IsSuperuser(r.user) then true else r.httpMethod in PublicMethods
  }

  /** `CreatePublicBasedPermission.has_object_permission`. */
  predicate CreatePublicObject(r: Request, obj: Owned)
  {
    if IsSuperuser(r.user) then true
    else if r.httpMethod in PublicMethods then
      (if r.user.Anonymous? then obj.isPublic else obj.owner == UserId(r.user))
    else
      (if r.user.Anonymous? then false else obj.owner == UserId(r.user))
  }

  /** Owner-based access: anonymous users are refused, superusers pass, everyone else needs ownership. */
  lemma OwnerBasedSpec(r: Request, obj: Owned)
    ensures r.user.Anonymous? ==> !OwnerBasedView(r)
    ensures IsSuperuser(r.user) ==> OwnerBasedView(r) && OwnerBasedObject(r, obj)
    ensures r.user.Account? && !r.user.isSuperuser ==> (OwnerBasedObject(r, obj) <==> obj.owner == Some(r.user.id))
  {
  }

  /**
   * Reading: an anonymous user gets exactly the public objects, an account exactly its own (the
   * public objects of others are refused). Writing: anonymous users are refused, accounts need ownership.
   */
  lemma OwnerOrPublicSpec(r: Request, obj: Owned)
    requires !IsSuperuser(r.user)
    ensures r.httpMethod in SafeMethods && r.user.Anonymous? ==> (OwnerOrPublicObject(r, obj) <==> obj.isPublic)
    ensures r.httpMethod in SafeMethods && r.user.Account? ==> (OwnerOrPublicObject(r, obj) <==> obj.owner == Some(r.user.id))
    ensures r.httpMethod !in SafeMethods && r.user.Anonymous? ==> !OwnerOrPublicObject(r, obj)
    ensures r.httpMethod !in SafeMethods && r.user.Account? ==> (OwnerOrPublicObject(r, obj) <==> obj.owner == Some(r.user.id))
  {
  }

  /** The create-public object check: POST reads like a safe method, anything else needs an owner. */
  lemma CreatePublicSpec(r: Request, obj: Owned)
    requires !IsSuperuser(r.user)
    ensures CreatePublicView(r) <==> r.httpMethod in {"GET", "HEAD", "OPTIONS", "POST"}
    ensures r.httpMethod in PublicMethods && r.user.Anonymous? ==> (CreatePublicObject(r, obj) <==> obj.isPublic)
    ensures r.httpMethod in PublicMethods && r.user.Account? ==> (CreatePublicObject(r, obj) <==> obj.owner == Some(r.user.id))
    ensures r.httpMethod !in PublicMethods && r.user.Anonymous? ==> !CreatePublicObject(r, obj)
  {
  }

  /**
   * The earlier owner-or-public check never grants what the API's grants not; the API also opens
   * other users' public objects to reading accounts.
   */
  lemma NarrowerThanApi(r: Request, obj: Owned)
    ensures OwnerOrPublicObject(r, obj) ==> ApiPermissions.OwnerOrPublicObject(r, obj)
    ensures CreatePublicObject(r, obj) ==> ApiPermissions.CreatePublicObject(r, obj)
    ensures OwnerBasedObject(r, obj) <==> ApiPermissions.OwnerBasedObject(r, obj)
  {
  }

  /** A reading account is refused another user's public object here, and granted it by the API. */
  lemma PublicOfOthersRefused(id: nat, other: nat)
    requires id != other
    ensures !OwnerOrPublicObject(Request(Account(id, true, false, false, {}), "GET"), Owned(Some(other), true))
    ensures ApiPermissions.OwnerOrPublicObject(Request(Account(id, true, false, false, {}), "GET"), Owned(Some(other), true))
  {
  }
}
