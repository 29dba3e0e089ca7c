/** The role table of src/hooks/usePermissions.ts and the checks built on
    it: what a signed-in user (or nobody) may do, and the gate that shows
    either its content or a fallback. */
module Permissions {
  import opened Wrappers

  /** The 27 permissions of lines 6-22. */
  datatype Permission =
    | ProjectsRead | ProjectsCreate | ProjectsUpdate | ProjectsDelete
    | TasksRead | TasksCreate | TasksUpdate | TasksDelete
    | TimesheetsRead | TimesheetsCreate | TimesheetsUpdate | TimesheetsDelete | TimesheetsApprove
    | ResourcesRead | ResourcesCreate | ResourcesUpdate | ResourcesDelete
    | ReportsRead | ReportsCosts
    | ApprovalsRead | ApprovalsManage
    | SettingsRead | SettingsUpdate
    | UsersRead | UsersCreate | UsersUpdate | UsersDelete

  /** The table's entry for `admin` (lines 25-34). */
  const AdminPermissions: seq<Permission> := [
    ProjectsRead, ProjectsCreate, ProjectsUpdate, ProjectsDelete,
    TasksRead, TasksCreate, TasksUpdate, TasksDelete,
    TimesheetsRead, TimesheetsCreate, TimesheetsUpdate, TimesheetsDelete, TimesheetsApprove,
    ResourcesRead, ResourcesCreate, ResourcesUpdate, ResourcesDelete,
    ReportsRead, ReportsCosts,
    ApprovalsRead, ApprovalsManage,
    SettingsRead, SettingsUpdate,
    UsersRead, UsersCreate, UsersUpdate, UsersDelete]

  /** The table's entry for `manager` (lines 35-44). */
  const ManagerPermissions: seq<Permission> := [
    ProjectsRead, ProjectsCreate, ProjectsUpdate,
    TasksRead, TasksCreate, TasksUpdate,
    TimesheetsRead, TimesheetsCreate, TimesheetsUpdate, TimesheetsDelete, TimesheetsApprove,
    ResourcesRead, ResourcesUpdate,
    ReportsRead, ReportsCosts,
    ApprovalsRead, ApprovalsManage,
    SettingsRead,
    UsersRead, UsersUpdate]

  /** The table's entry for `member` (lines 45-52). */
  const MemberPermissions: seq<Permission> := [
    ProjectsRead,
    TasksRead,
    TimesheetsRead, TimesheetsCreate, TimesheetsUpdate, TimesheetsDelete,
    ResourcesRead,
    ReportsRead,
    SettingsRead]

  /** `rolePermissions[role]`: the roles the table names. */
  function RoleEntry(role: string): (r: Option<seq<Permission>>)
    ensures r.Some? <==> role in {"admin", "manager", "member"}
  {
    if role == "admin" then Some(AdminPermissions)
    else if role == "manager" then Some(ManagerPermissions)
    else if role == "member" then Some(MemberPermissions)
    else None
  }

  /** `user?.role || 'member'` (line 58): `None` when nobody is signed in. */
  function RoleOf(userRole: Option<string>): (role: string)
    ensures role != ""
    ensures Truthy(userRole) ==> role == userRole.value
    ensures !Truthy(userRole) ==> role == "member"
  {
    if Truthy(userRole) then userRole.value else "member"
  }

  /** `rolePermissions[role] || rolePermissions.member` (line 59). */
  function PermissionsOf(role: string): (ps: seq<Permission>)
    ensures RoleEntry(role).Some? ==> ps == RoleEntry(role).value
    ensures RoleEntry(role).None? ==> ps == MemberPermissions
  {
    match RoleEntry(role)
    case Some(entry) => entry
    case None => MemberPermissions
  }

  /** `permissions.includes(permission)` (lines 61-63). */
  predicate HasPermission(ps: seq<Permission>, p: Permission) {
    p in ps
  }

  /** `perms.some(p => permissions.includes(p))` (lines 65-67). */
  function HasAnyPermission(ps: seq<Permission>, perms: seq<Permission>): (b: bool)
    ensures b <==> exists i :: 0 <= i < |perms| && HasPermission(ps, perms[i])
    ensures perms == [] ==> !b
  {
    if perms == [] then false else HasPermission(ps, perms[0]) || HasAnyPermission(ps, perms[1..])
  }

  /** `perms.every(p => permissions.includes(p))` (lines 69-71). */
  function HasAllPermissions(ps: seq<Permission>, perms: seq<Permission>): (b: bool)
    ensures b <==> forall i :: 0 <= i < |perms| ==> HasPermission(ps, perms[i])
    ensures perms == [] ==> b
  {
    if perms == [] then true else HasPermission(ps, perms[0]) && HasAllPermissions(ps, perms[1..])
  }

  /** What `usePermissions` returns, with the three checks given by the
      permission list they consult. */
  datatype Access = Access(role: string, permissions: seq<Permission>,
                           isAdmin: bool, isManager: bool, isMember: bool)

  /** `usePermissions()` (lines 55-83) for the signed-in user's role. The
      flags test the role itself, while the permissions fall back to the
      member's list for a role the table does not name. */
  function UsePermissions(userRole: Option<string>): (a: Access)
    ensures a.role == RoleOf(userRole) && a.permissions == PermissionsOf(a.role)
    ensures a.isAdmin <==> a.role == "admin"
    ensures a.isManager <==> a.role == "manager"
    ensures a.isMember <==> a.role == "member"
  {
    var role := RoleOf(userRole);
    Access(role, PermissionsOf(role), role == "admin", role == "manager", role == "member")
  }

  /** Nobody signed in, or a user without a role, acts as a member. */
  lemma NoRoleIsMember(userRole: Option<string>)
    requires !Truthy(userRole)
    ensures UsePermissions(userRole) == Access("member", MemberPermissions, false, false, true)
  {
  }

  /** A role the table does not name gets the member's permissions but
      none of the three flags. */
  lemma UnknownRoleHasNoFlag(role: string)
    requires role != "" && role != "admin" && role != "manager" && role != "member"
    ensures var a := UsePermissions(Some(role));
            a.permissions == MemberPermissions && !a.isAdmin && !a.isManager && !a.isMember
  {
  }

  /** Every permission a member holds, a manager holds too. */
  lemma MemberWithinManager(p: Permission)
    requires HasPermission(MemberPermissions, p)
    ensures HasPermission(ManagerPermissions, p)
  {
  }

  /** Every permission a manager holds, an admin holds too. */
  lemma ManagerWithinAdmin(p: Permission)
    requires HasPermission(ManagerPermissions, p)
    ensures HasPermission(AdminPermissions, p)
  {
  }

  /** An admin holds every declared permission. */
  lemma AdminHoldsAll(p: Permission)
    ensures HasPermission(AdminPermissions, p)
  {
    match p
    case ProjectsRead => case ProjectsCreate => case ProjectsUpdate => case ProjectsDelete =>
    case TasksRead => case TasksCreate => case TasksUpdate => case TasksDelete =>
    case TimesheetsRead => case TimesheetsCreate => case TimesheetsUpdate => case TimesheetsDelete =>
    case TimesheetsApprove =>
    case ResourcesRead => case ResourcesCreate => case ResourcesUpdate => case ResourcesDelete =>
    case ReportsRead => case ReportsCosts =>
    case ApprovalsRead => case ApprovalsManage =>
    case SettingsRead => case SettingsUpdate =>
    case UsersRead => case UsersCreate => case UsersUpdate => case UsersDelete =>
  }

  /** Approving timesheets and managing approvals is for admins and
      managers only. */
  lemma ApprovalIsForLeads()
    ensures HasPermission(AdminPermissions, TimesheetsApprove) && HasPermission(ManagerPermissions, TimesheetsApprove)
    ensures !HasPermission(MemberPermissions, TimesheetsApprove)
    ensures HasPermission(AdminPermissions, ApprovalsManage) && HasPermission(ManagerPermissions, ApprovalsManage)
    ensures !HasPermission(MemberPermissions, ApprovalsManage)
  {
  }

  /** A set of checks a member passes, a manager and an admin pass too. */
  lemma {:induction false} AllCheckInherited(perms: seq<Permission>)
    requires HasAllPermissions(MemberPermissions, perms)
    ensures HasAllPermissions(ManagerPermissions, perms) && HasAllPermissions(AdminPermissions, perms)
  {
    forall i | 0 <= i < |perms| ensures HasPermission(ManagerPermissions, perms[i]) {
      MemberWithinManager(perms[i]);
    }
    forall i | 0 <= i < |perms| ensures HasPermission(AdminPermissions, perms[i]) {
      ManagerWithinAdmin(perms[i]);
    }
  }

  /** `PermissionGate` (lines 92-98): the children when the permission is
      held, otherwise the fallback (`None` standing for `null`). */
  function PermissionGate<T>(userRole: Option<string>, permission: Permission, children: T,
                             fallback: Option<T>): (shown: Option<T>)
    ensures HasPermission(UsePermissions(userRole).permissions, permission) ==> shown == Some(children)
    ensures !HasPermission(UsePermissions(userRole).permissions, permission) ==> shown == fallback
  {
    if HasPermission(UsePermissions(userRole).permissions, permission) then Some(children) else fallback
  }

  /** `AnyPermissionGate` (lines 107-113): the children when any of the
      permissions is held, so never for an empty list. */
  function AnyPermissionGate<T>(userRole: Option<string>, permissions: seq<Permission>, children: T,
                                fallback: Option<T>): (shown: Option<T>)
    ensures (exists i :: 0 <= i < |permissions| && HasPermission(UsePermissions(userRole).permissions, permissions[i]))
              ==> shown == Some(children)
    ensures (forall i :: 0 <= i < |permissions| ==> !HasPermission(UsePermissions(userRole).permissions, permissions[i]))
              ==> shown == fallback
    ensures permissions == [] ==> shown == fallback
  {
    if HasAnyPermission(UsePermissions(userRole).permissions, permissions) then Some(children) else fallback
  }

  /** An admin always passes the gate. */
  lemma AdminPassesGate<T>(permission: Permission, children: T, fallback: Option<T>)
    ensures PermissionGate(Some("admin"), permission, children, fallback) == Some(children)
  {
    AdminHoldsAll(permission);
  }

  /** A member gets the fallback at a gate on approving timesheets. */
  lemma MemberStopsAtApproval<T>(children: T, fallback: Option<T>)
    ensures PermissionGate(Some("member"), TimesheetsApprove, children, fallback) == fallback
  {
    ApprovalIsForLeads();
  }
}
