/**
 * The access rules: read-for-all / write-for-admins on the API, bucket-based
 * rules for managing images, and the admin-site checks.
 */
module Permissions {
  import opened Base

  /** The requesting user: anonymous, or a signed-in account with its role. */
  datatype Principal = Anonymous | Member(role: string, isSuperuser: bool)

  /**
   * A request as the permission classes see it: its HTTP method (`verb`) and user
   * (`None` only when no authentication ran); the bucket fields are the request
   * body's and the query string's `bucket`.
   */
  datatype Request = Request(verb: string, user: Option<Principal>, bodyBucket: Option<string>,
                             queryBucket: Option<string>)

  const Admin := "admin"

  /** The methods that only read (section 9.2.1 of RFC 9110). */
  const SafeMethods: set<string> := {"GET", "HEAD", "OPTIONS"}

  const Buckets: seq<string> := ["user-avatars", "comment-images", "manga-content"]
  const AdminBucket := "manga-content"

  predicate IsAdmin(p: Principal) {
    p.Member? && p.role == Admin
  }

  /**
   * `AdminWriteOnly.has_permission`: safe methods for everyone; any other method
   * needs a signed-in user whose role is admin.
   */
  function AdminWriteOnly(req: Request): (b: bool)
    ensures req.verb in SafeMethods ==> b
    ensures req.verb !in SafeMethods ==> (b <==> req.user.Some? && IsAdmin(req.user.value))
  {
    if req.verb in SafeMethods then true
    else if req.user.None? || req.user.value.Anonymous? then false
    else req.user.value.role == Admin
  }

  /** An allowed write was made by a signed-in admin. */
  lemma AllowedWriteIsAdmin(req: Request)
    requires AdminWriteOnly(req) && req.verb !in SafeMethods
    ensures req.user.Some? && req.user.value.Member? && req.user.value.role == Admin
  {
  }

  /** Reads do not depend on who asks. */
  lemma ReadsIgnoreUser(req: Request, u: Option<Principal>)
    requires req.verb in SafeMethods
    ensures AdminWriteOnly(req.(user := u)) == AdminWriteOnly(req) == true
  {
  }

  /** `data.get("bucket") or query_params.get("bucket")`: an empty body value falls back too. */
  function Bucket(req: Request): (b: Option<string>)
    ensures req.bodyBucket.Some? && req.bodyBucket.value != "" ==> b == req.bodyBucket
    ensures !(req.bodyBucket.Some? && req.bodyBucket.value != "") ==> b == req.queryBucket
  {
    if req.bodyBucket.Some? && req.bodyBucket.value != "" then req.bodyBucket else req.queryBucket
  }

  /**
   * `CanManageImage.has_permission`: a signed-in user, a known bucket, and the
   * admin role for the manga-content bucket. Reading `is_authenticated` of a
   * missing user raises.
   */
  function CanManageImage(req: Request): (r: Result<bool, PyError>)
    ensures req.user.None? <==> r.Err?
    ensures r == Ok(true) <==> req.user.Some? && req.user.value.Member? && Bucket(req).Some?
                               && Bucket(req).value in Buckets && (Bucket(req).value == AdminBucket ==> IsAdmin(req.user.value))
  {
    if req.user.None? then Err(AttributeError("is_authenticated"))
    else if req.user.value.Anonymous? then Ok(false)
    else
      var bucket := Bucket(req);
      if bucket.None? || bucket.value !in Buckets then Ok(false)
      else if bucket.value == AdminBucket && req.user.value.role != Admin then Ok(false)
      else Ok(true)
  }

  /** Any signed-in user may manage images in the two user buckets, whatever the role. */
  lemma UserBucketsOpenToMembers(req: Request)
    requires req.user.Some? && req.user.value.Member?
    requires Bucket(req) == Some("user-avatars") || Bucket(req) == Some("comment-images")
    ensures CanManageImage(req) == Ok(true)
  {
  }

  /** `BasePermissionAdmin`: superusers, and otherwise admins. */
  function AdminSiteAllows(user: Principal): (b: bool)
    requires user.Member?
    ensures b <==> user.isSuperuser || user.role == Admin
  {
    if user.isSuperuser then true else user.role == Admin
  }

  /** `has_permission`. */
  function HasPermission(user: Principal, view: string): (b: bool)
    requires user.Member?
    ensures b <==> user.isSuperuser || IsAdmin(user)
  {
    AdminSiteAllows(user)
  }

  /** `has_add_permission`; the object is never consulted. */
  function HasAddPermission(user: Principal, obj: Option<string>): (b: bool)
    requires user.Member?
    ensures b <==> user.isSuperuser || IsAdmin(user)
  {
    AdminSiteAllows(user)
  }

  /** `has_change_permission`; the object is never consulted. */
  function HasChangePermission(user: Principal, obj: Option<string>): (b: bool)
    requires user.Member?
    ensures b <==> user.isSuperuser || IsAdmin(user)
  {
    AdminSiteAllows(user)
  }

  /** `has_delete_permission`; the object is never consulted. */
  function HasDeletePermission(user: Principal, obj: Option<string>): (b: bool)
    requires user.Member?
    ensures b <==> user.isSuperuser || IsAdmin(user)
  {
    AdminSiteAllows(user)
  }

  /** The four admin-site checks agree, and none depends on the object or view. */
  lemma AdminChecksAgree(user: Principal, view: string, o1: Option<string>, o2: Option<string>)
    requires user.Member?
    ensures HasPermission(user, view) == HasAddPermission(user, o1) == HasChangePermission(user, o2)
              == HasDeletePermission(user, o1)
    ensures HasAddPermission(user, o1) == HasAddPermission(user, o2)
    ensures HasDeletePermission(user, o1) == HasDeletePermission(user, o2)
  {
  }

  /** A reader that is not a superuser gets none of the four. */
  lemma ReaderDenied(user: Principal, view: string, obj: Option<string>)
    requires user == Member("reader", false)
    ensures !HasPermission(user, view) && !HasAddPermission(user, obj) && !HasChangePermission(user, obj)
              && !HasDeletePermission(user, obj)
  {
  }
}
