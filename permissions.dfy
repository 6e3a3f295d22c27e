/** The three role permissions of common/permissions.py. Each extends
    `IsAuthenticated` by a comparison of the user's `roles` field. */
module Permissions {
  import opened Wrappers
  import opened Constants

  /** What a permission class sees of `request.user`: whether it is
      authenticated and, for a stored user, its nullable `roles` field. */
  datatype Requester = Requester(isAuthenticated: bool, role: Option<Role>)

  predicate AdminPermission(u: Requester)
  {
    u.isAuthenticated && u.role == Some(Admin)
  }

  predicate DirectorPermission(u: Requester)
  {
    u.isAuthenticated && u.role == Some(Director)
  }

  predicate ManagerPermission(u: Requester)
  {
    u.isAuthenticated && u.role == Some(Manager)
  }

  /** How many of the three permissions grant access to `u`. */
  function Grants(u: Requester): nat
  {
    (if AdminPermission(u) then 1 else 0)
    + (if DirectorPermission(u) then 1 else 0)
    + (if ManagerPermission(u) then 1 else 0)
  }

  /** For any one user at most one of the three grants, and an
      unauthenticated user is granted none. */
  lemma AtMostOnePermission(u: Requester)
    ensures Grants(u) <= 1
    ensures !u.isAuthenticated ==> Grants(u) == 0
  {
  }

  /** An authenticated user is granted exactly the permission named by its
      role; a customer, or a user whose role is null, is granted none. */
  lemma PermissionFollowsRole(u: Requester)
    requires u.isAuthenticated
    ensures AdminPermission(u) <==> u.role == Some(Admin)
    ensures DirectorPermission(u) <==> u.role == Some(Director)
    ensures ManagerPermission(u) <==> u.role == Some(Manager)
    ensures (u.role == None || u.role == Some(Customer)) ==> Grants(u) == 0
    ensures (u.role != None && u.role != Some(Customer)) ==> Grants(u) == 1
  {
    match u.role
    case None =>
    case Some(r) =>
      match r
      case Customer =>
      case Manager =>
      case Director =>
      case Admin =>
  }
}
