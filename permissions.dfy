/**
 * Roles within an organisation, the predicates and capabilities derived from
 * them, and the gates that guard the tenant's views.
 */
module Permissions {
  import opened Wrappers

  datatype Role = Owner | Admin | Staff | Viewer

  /** A user's membership of an organisation; only an active one counts. */
  datatype Membership = Membership(role: Role, isActive: bool)

  /** The memberships, keyed by (user id, organisation id). */
  type Memberships = map<(int, int), Membership>

  /** The role of the user's active membership in the organisation; None when there is none. */
  function GetUserOrgRole(ms: Memberships, user: int, org: int): (r: Option<Role>)
    ensures r.Some? <==> (user, org) in ms && ms[(user, org)].isActive
    ensures r.Some? ==> r.value == ms[(user, org)].role
  {
    if (user, org) in ms && ms[(user, org)].isActive then Some(ms[(user, org)].role) else None
  }

  predicate IsOrgOwner(role: Option<Role>) { role == Some(Owner) }

  predicate IsOrgAdmin(role: Option<Role>) { role == Some(Owner) || role == Some(Admin) }

  predicate IsOrgStaff(role: Option<Role>) { role == Some(Owner) || role == Some(Admin) || role == Some(Staff) }

  predicate IsOrgMember(role: Option<Role>) { role.Some? }

  predicate IsOrgViewer(role: Option<Role>) { role == Some(Viewer) }

  predicate CanEditOrganization(role: Option<Role>) { IsOrgAdmin(role) }

  predicate CanManageStaff(role: Option<Role>) { IsOrgAdmin(role) }

  predicate CanEditMembers(role: Option<Role>) { IsOrgStaff(role) }

  predicate CanRecordTransactions(role: Option<Role>) { IsOrgAdmin(role) }

  /** The predicates form a chain: owner, then admin, then staff, then any member. */
  lemma RoleHierarchy(role: Option<Role>)
    ensures IsOrgOwner(role) ==> IsOrgAdmin(role)
    ensures IsOrgAdmin(role) ==> IsOrgStaff(role)
    ensures IsOrgStaff(role) ==> IsOrgMember(role)
    ensures IsOrgMember(role) <==> IsOrgStaff(role) || IsOrgViewer(role)
    ensures IsOrgViewer(role) ==> IsOrgMember(role) && !IsOrgStaff(role)
  {
    match role {
      case None =>
      case Some(x) =>
        match x {
          case Owner =>
          case Admin =>
          case Staff =>
          case Viewer =>
        }
    }
  }

  /** Each capability is granted to exactly the roles its rule names. */
  lemma CapabilitiesByRole(role: Option<Role>)
    ensures CanEditOrganization(role) <==> role == Some(Owner) || role == Some(Admin)
    ensures CanManageStaff(role) <==> role == Some(Owner) || role == Some(Admin)
    ensures CanRecordTransactions(role) <==> role == Some(Owner) || role == Some(Admin)
    ensures CanEditMembers(role) <==> role.Some? && role != Some(Viewer)
    ensures role.None? ==> !CanEditMembers(role) && !CanManageStaff(role)
  {
    match role {
      case None =>
      case Some(x) =>
        match x {
          case Owner =>
          case Admin =>
          case Staff =>
          case Viewer =>
        }
    }
  }

  /** A user without an active membership has no role and so no capability. */
  lemma InactiveMembershipGrantsNothing(ms: Memberships, user: int, org: int)
    requires (user, org) in ms && !ms[(user, org)].isActive
    ensures !IsOrgMember(GetUserOrgRole(ms, user, org))
    ensures !CanEditMembers(GetUserOrgRole(ms, user, org))
  {
  }

  /** The decorators that guard a view. */
  datatype Gate = TenantRequired | MemberRequired | StaffRequired | AdminRequired | OwnerRequired

  /** What a guarded request gets: sent to log in, refused with a message, or the view itself. */
  datatype GateResult = RedirectLogin | Forbidden(message: string) | Invoke

  const OrgNotFound: string := "Organization not found."
  const NotAMember: string := "You are not a member of this organization."
  const NoPermission: string := "You do not have permission to perform this action."
  const NotAdmin: string := "You do not have admin permissions for this organization."
  const OwnersOnly: string := "Only organization owners can perform this action."

  /** The predicate a gate checks once the tenant is known, and its refusal. */
  function GateCheck(gate: Gate, role: Option<Role>): (r: GateResult)
    requires gate != TenantRequired
    ensures r == Invoke || r.Forbidden?
  {
    match gate
    case MemberRequired => if IsOrgMember(role) then Invoke else Forbidden(NotAMember)
    case StaffRequired => if IsOrgStaff(role) then Invoke else Forbidden(NoPermission)
    case AdminRequired => if IsOrgAdmin(role) then Invoke else Forbidden(NotAdmin)
    case OwnerRequired => if IsOrgOwner(role) then Invoke else Forbidden(OwnersOnly)
  }

  /**
   * A request through a gate. The role gates first require a logged-in user,
   * then a tenant, then their predicate; tenant_required alone only checks
   * the tenant.
   */
  function Guard(gate: Gate, user: Option<int>, tenant: Option<int>, ms: Memberships): (r: GateResult)
    ensures gate == TenantRequired ==> (r == Invoke <==> tenant.Some?)
    ensures gate != TenantRequired && user.None? ==> r == RedirectLogin
    ensures gate != TenantRequired && user.Some? && tenant.None? ==> r == Forbidden(OrgNotFound)
  {
    if gate == TenantRequired then
      if tenant.None? then Forbidden(OrgNotFound) else Invoke
    else if user.None? then RedirectLogin
    else if tenant.None? then Forbidden(OrgNotFound)
    else GateCheck(gate, GetUserOrgRole(ms, user.value, tenant.value))
  }

  /** A role gate lets the request through exactly when a logged-in user has the required role in the tenant. */
  lemma GuardInvokesExactly(gate: Gate, user: Option<int>, tenant: Option<int>, ms: Memberships)
    requires gate != TenantRequired
    ensures Guard(gate, user, tenant, ms) == Invoke <==>
      user.Some? && tenant.Some? &&
      var role := GetUserOrgRole(ms, user.value, tenant.value);
      match gate
      case MemberRequired => IsOrgMember(role)
      case StaffRequired => IsOrgStaff(role)
      case AdminRequired => IsOrgAdmin(role)
      case OwnerRequired => IsOrgOwner(role)
  {
  }

  /** Passing a stricter gate means passing every looser one. */
  lemma StricterGatesPassLooser(user: Option<int>, tenant: Option<int>, ms: Memberships)
    ensures Guard(OwnerRequired, user, tenant, ms) == Invoke ==> Guard(AdminRequired, user, tenant, ms) == Invoke
    ensures Guard(AdminRequired, user, tenant, ms) == Invoke ==> Guard(StaffRequired, user, tenant, ms) == Invoke
    ensures Guard(StaffRequired, user, tenant, ms) == Invoke ==> Guard(MemberRequired, user, tenant, ms) == Invoke
    ensures Guard(MemberRequired, user, tenant, ms) == Invoke ==> Guard(TenantRequired, user, tenant, ms) == Invoke
  {
  }
}
