/**
 * The template context every page receives: organisation branding taken from
 * the tenant's theme, and the permission flags of the signed-in user. Amounts
 * are integer cents.
 */
module Context {
  import opened Wrappers
  import opened Permissions

  /** The organisation a request resolved to. */
  datatype Tenant = Tenant(id: int, name: string)

  /** An organisation's theme, as far as the context reads it. */
  datatype Theme = Theme(
    logoUrl: Option<string>,
    navbarTitle: string,
    footerText: string,
    watermarkText: string,
    primaryColor: string,
    secondaryColor: string,
    successColor: string,
    warningColor: string,
    dangerColor: string,
    defaultPledgeAmount: int,
    targetAmount: int)

  /** The permission flags shown to templates. */
  datatype Flags = Flags(
    isOrgOwner: bool,
    isOrgAdmin: bool,
    isOrgStaff: bool,
    isOrgViewer: bool,
    canEditOrg: bool,
    canManageStaff: bool,
    canEditMembers: bool,
    canRecordTransactions: bool,
    canAccessAdmin: bool,
    canViewAdminLog: bool,
    canImportExcel: bool)

  datatype PageContext = PageContext(
    tenant: Option<Tenant>,
    theme: Option<Theme>,
    orgName: string,
    orgLogo: Option<string>,
    navbarTitle: string,
    footerText: string,
    watermarkText: string,
    primaryColor: string,
    secondaryColor: string,
    successColor: string,
    warningColor: string,
    dangerColor: string,
    defaultPledgeAmount: int,
    targetAmount: int,
    userRole: Option<Role>,
    flags: Flags)

  const NoFlags: Flags := Flags(false, false, false, false, false, false, false, false, false, false, false)

  const DefaultTitle: string := "Mission Tracker"

  /** The context before any tenant is known: "Mission Tracker", the stock colours, 70,000 and 210,000. */
  const Defaults: PageContext := PageContext(
    None, None, DefaultTitle, None, DefaultTitle, "", "Bossin",
    "#7492B9", "#64748b", "#059669", "#d97706", "#dc2626",
    7000000, 21000000, None, NoFlags)

  /** The flags for a role; can_edit_org is the owner predicate, not can_edit_organization. */
  function FlagsFor(role: Option<Role>): Flags
  {
    Flags(
      isOrgOwner := IsOrgOwner(role),
      isOrgAdmin := IsOrgAdmin(role),
      isOrgStaff := IsOrgStaff(role),
      isOrgViewer := IsOrgViewer(role),
      canEditOrg := IsOrgOwner(role),
      canManageStaff := IsOrgAdmin(role),
      canEditMembers := IsOrgStaff(role),
      canRecordTransactions := IsOrgAdmin(role),
      canAccessAdmin := IsOrgAdmin(role),
      canViewAdminLog := IsOrgAdmin(role),
      canImportExcel := IsOrgAdmin(role))
  }

  /** The branding fields of a context, all kept from the defaults. */
  predicate KeepsDefaultBranding(ctx: PageContext)
  {
    && ctx.theme.None? && ctx.orgLogo.None?
    && ctx.navbarTitle == DefaultTitle && ctx.footerText == "" && ctx.watermarkText == "Bossin"
    && ctx.primaryColor == "#7492B9" && ctx.secondaryColor == "#64748b" && ctx.successColor == "#059669"
    && ctx.warningColor == "#d97706" && ctx.dangerColor == "#dc2626"
    && ctx.defaultPledgeAmount == 7000000 && ctx.targetAmount == 21000000
  }

  /** The branding fields of a context, all taken from the theme; the navbar falls back to the tenant's name. */
  predicate UsesTheme(ctx: PageContext, t: Tenant, th: Theme)
  {
    && ctx.theme == Some(th) && ctx.orgLogo == th.logoUrl
    && ctx.navbarTitle == (if th.navbarTitle != "" then th.navbarTitle else t.name)
    && ctx.footerText == th.footerText && ctx.watermarkText == th.watermarkText
    && ctx.primaryColor == th.primaryColor && ctx.secondaryColor == th.secondaryColor
    && ctx.successColor == th.successColor && ctx.warningColor == th.warningColor
    && ctx.dangerColor == th.dangerColor
    && ctx.defaultPledgeAmount == th.defaultPledgeAmount && ctx.targetAmount == th.targetAmount
  }

  /**
   * theme_context: start from the defaults; with a tenant, set it and its
   * name, then the theme's branding when the theme exists (a missing theme,
   * None here, keeps the defaults); with a signed-in user as well, the
   * user's role in the tenant and its flags.
   */
  method ThemeContext(tenant: Option<Tenant>, theme: Option<Theme>, user: Option<int>, ms: Memberships)
    returns (ctx: PageContext)
    ensures tenant.None? ==> ctx == Defaults
    ensures tenant.Some? ==> ctx.tenant == tenant && ctx.orgName == tenant.value.name
    ensures tenant.Some? && theme.None? ==> KeepsDefaultBranding(ctx)
    ensures tenant.Some? && theme.Some? ==> UsesTheme(ctx, tenant.value, theme.value)
    ensures user.None? ==> ctx.userRole.None? && ctx.flags == NoFlags
    ensures tenant.Some? && user.Some? ==>
      ctx.userRole == GetUserOrgRole(ms, user.value, tenant.value.id) && ctx.flags == FlagsFor(ctx.userRole)
  {
    ctx := Defaults;
    if tenant.Some? {
      var t := tenant.value;
      ctx := ctx.(tenant := tenant, orgName := t.name);
      if theme.Some? {
        var th := theme.value;
        ctx := ctx.(theme := theme, orgLogo := th.logoUrl);
        ctx := ctx.(navbarTitle := if th.navbarTitle != "" then th.navbarTitle else t.name);
        ctx := ctx.(footerText := th.footerText, watermarkText := th.watermarkText);
        ctx := ctx.(primaryColor := th.primaryColor, secondaryColor := th.secondaryColor);
        ctx := ctx.(successColor := th.successColor, warningColor := th.warningColor, dangerColor := th.dangerColor);
        ctx := ctx.(defaultPledgeAmount := th.defaultPledgeAmount, targetAmount := th.targetAmount);
      }
      if user.Some? {
        var role := GetUserOrgRole(ms, user.value, t.id);
        ctx := ctx.(userRole := role, flags := FlagsFor(role));
      }
    }
  }

  /** The flags agree with the permission rules, except can_edit_org, which only implies can_edit_organization. */
  lemma FlagsAgreeWithPermissions(role: Option<Role>)
    ensures FlagsFor(role).canEditMembers <==> CanEditMembers(role)
    ensures FlagsFor(role).canManageStaff <==> CanManageStaff(role)
    ensures FlagsFor(role).canRecordTransactions <==> CanRecordTransactions(role)
    ensures FlagsFor(role).canEditOrg ==> CanEditOrganization(role)
    ensures FlagsFor(role).canAccessAdmin == FlagsFor(role).canViewAdminLog == FlagsFor(role).canImportExcel == IsOrgAdmin(role)
  {
  }

  /** An admin may edit the organisation by can_edit_organization, yet the navbar's can_edit_org is false for them. */
  lemma EditOrgFlagDisagreesForAdmins()
    ensures CanEditOrganization(Some(Admin))
    ensures !FlagsFor(Some(Admin)).canEditOrg
  {
  }

  /** A viewer gets no capability at all; an owner gets every one; no role gets no flag. */
  lemma FlagsByRole()
    ensures FlagsFor(Some(Viewer)) == NoFlags.(isOrgViewer := true)
    ensures FlagsFor(Some(Owner)) == Flags(true, true, true, false, true, true, true, true, true, true, true)
    ensures FlagsFor(None) == NoFlags
  {
  }

  /** A signed-in user with no active membership in the tenant sees the same flags as an anonymous one. */
  lemma NonMembersSeeNoFlags(ms: Memberships, user: int, t: Tenant)
    requires (user, t.id) !in ms || !ms[(user, t.id)].isActive
    ensures FlagsFor(GetUserOrgRole(ms, user, t.id)) == NoFlags
  {
  }
}
