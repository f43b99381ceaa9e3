/** The guard checks of backend/api/mixins.py. Each either raises or returns
    without touching any state. */
module Mixins {
  import opened Common
  import opened Users
  import opened Models
  import opened Permissions

  const NOT_AUTHENTICATED_DETAIL := "Учетные данные не были предоставлены."
  const NOT_AUTHOR_MESSAGE := "You don't have permission"

  datatype ApiError =
    | AuthenticationFailed(detail: string)
    | PermissionDenied(message: string)

  /** `check_auth_permision`: fails with 401 exactly for a requester without an id. */
  function CheckAuthPermission(r: Requester): (err: Option<ApiError>)
    ensures err.Some? <==> RequesterId(r).None?
    ensures err.Some? ==> err.value == AuthenticationFailed(NOT_AUTHENTICATED_DETAIL)
  {
    if RequesterId(r).None? then Some(AuthenticationFailed(NOT_AUTHENTICATED_DETAIL)) else None
  }

  /** `check_author_permision`: fails with 403 exactly when the requester is
      not the recipe's author; the anonymous visitor is never the author. */
  function CheckAuthorPermission(r: Requester, obj: Recipe): (err: Option<ApiError>)
    ensures err.None? <==> r.SignedIn? && r.account.id == obj.author
    ensures err.Some? ==> err.value == PermissionDenied(NOT_AUTHOR_MESSAGE)
  {
    if r.SignedIn? && r.account.id == obj.author then None else Some(PermissionDenied(NOT_AUTHOR_MESSAGE))
  }

  /** Unlike the permission class, the author check has no staff exemption: a
      staff member who did not write the recipe passes one and fails the other. */
  lemma AuthorCheckHasNoStaffExemption(u: User, obj: Recipe)
    requires u.isStaff && u.id != obj.author
    ensures HasObjectPermission(u, obj.author)
    ensures CheckAuthorPermission(SignedIn(u), obj) == Some(PermissionDenied(NOT_AUTHOR_MESSAGE))
  {
  }

  /** For the author the two checks agree; for non-staff users they agree too. */
  lemma AuthorCheckAgreesForNonStaff(u: User, obj: Recipe)
    requires !u.isStaff
    ensures HasObjectPermission(u, obj.author) <==> CheckAuthorPermission(SignedIn(u), obj).None?
  {
  }
}
