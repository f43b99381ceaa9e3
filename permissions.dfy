/** The object permission of backend/api/permissions.py. */
module Permissions {
  import opened Users

  /** `AuthorUserOrAdmin.has_object_permission`: staff may act on any object,
      anyone else only on objects they authored. The decision reads only the
      staff flag, the user's id and the object's author id. */
  function HasObjectPermission(u: User, objAuthorId: nat): (granted: bool)
    ensures u.isStaff ==> granted
    ensures !u.isStaff ==> (granted <==> objAuthorId == u.id)
  {
    u.isStaff || objAuthorId == u.id
  }
}
