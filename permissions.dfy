/** The role-based permission checks of the card endpoints (cards/permissions.py). */
module Permissions {
  import opened UserModels

  /** `IsAdminOrManager.has_permission`: the requester's role is ADMIN or MANAGER. */
  predicate IsAdminOrManager(requester: Account)
  {
    requester.role in {Admin, Manager}
  }

  /** `IsAdminOrManagerOrOwner.has_object_permission`: staff, or the owner of the object. */
  predicate IsAdminOrManagerOrOwner(requester: Account, owner: UserId)
  {
    if requester.role in {Admin, Manager} then true else owner == requester.id
  }

  /** `IsAdmin.has_permission`: the requester's role is ADMIN. */
  predicate IsAdmin(requester: Account)
  {
    requester.role == Admin
  }

  /** `IsAdminOrManager` holds for exactly two of the four roles. */
  lemma AdminOrManagerRoles(requester: Account)
    ensures IsAdminOrManager(requester) <==> requester.role == Admin || requester.role == Manager
    ensures !IsAdminOrManager(requester) <==> requester.role == Employee || requester.role == User
  {
  }

  /** `IsAdmin` is the stricter check: it implies `IsAdminOrManager`, and not conversely. */
  lemma AdminImpliesAdminOrManager(requester: Account)
    ensures IsAdmin(requester) ==> IsAdminOrManager(requester)
    ensures requester.role == Manager ==> IsAdminOrManager(requester) && !IsAdmin(requester)
  {
  }

  /** ADMIN and MANAGER may access every object, owned or not. */
  lemma StaffAccessEveryObject(requester: Account, owner: UserId)
    requires IsAdminOrManager(requester)
    ensures IsAdminOrManagerOrOwner(requester, owner)
  {
  }

  /** USER and EMPLOYEE may access an object exactly when they own it. */
  lemma OthersAccessOwnObjects(requester: Account, owner: UserId)
    requires requester.role == User || requester.role == Employee
    ensures IsAdminOrManagerOrOwner(requester, owner) <==> owner == requester.id
  {
  }

  /** Object permission is staff access or ownership, whatever the role. */
  lemma ObjectPermissionIsStaffOrOwner(requester: Account, owner: UserId)
    ensures IsAdminOrManagerOrOwner(requester, owner) <==> IsAdminOrManager(requester) || owner == requester.id
  {
  }
}
