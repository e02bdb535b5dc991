/**
 * Tenant resolution: the first segment of a request's path names the
 * organisation, unless the path belongs to a global area such as the admin
 * site or the login pages.
 */
module Middleware {
  import opened Wrappers
  import opened Text

  /** Path prefixes served without a tenant. */
  const ExcludedPaths: seq<string> :=
    ["/admin/", "/login/", "/signup/", "/accounts/", "/logout/", "/offline/", "/static/", "/media/"]

  /** The path starts with one of the excluded prefixes. */
  predicate Excluded(path: string)
  {
    exists i :: 0 <= i < |ExcludedPaths| && IsPrefix(ExcludedPaths[i], path)
  }

  /** Stripping a character from both ends keeps any prefix that neither starts nor ends with it, and yields a prefix. */
  lemma {:induction false} StripCharKeepsPrefix(s: string, p: string, ch: char)
    requires |p| > 0 && p[0] != ch && p[|p| - 1] != ch && IsPrefix(p, s)
    ensures IsPrefix(p, StripChar(s, ch))
    ensures IsPrefix(StripChar(s, ch), s)
    decreases |s|
  {
    if s[|s| - 1] == ch {
      assert |s| > |p|;
      var t := s[..|s| - 1];
      assert t[..|p|] == p;
      StripCharKeepsPrefix(t, p, ch);
      assert StripChar(s, ch) == StripChar(t, ch);
      assert s[..|StripChar(t, ch)|] == t[..|StripChar(t, ch)|];
    }
  }

  /** The organisation slug: the path stripped of '/' at both ends, up to its first '/'. */
  function Slug(path: string): (r: string)
    ensures forall i :: 0 <= i < |r| ==> r[i] != '/'
    ensures (forall i :: 0 <= i < |path| ==> path[i] == '/') ==> r == ""
  {
    var stripped := StripChar(path, '/');
    stripped[..IndexOf(stripped, '/')]
  }

  /** A slug without '/' after the leading '/' is read back, whatever follows its next '/'. */
  lemma SlugOfTenantPath(slug: string, rest: string)
    requires slug != [] && forall i :: 0 <= i < |slug| ==> slug[i] != '/'
    requires rest == [] || rest[0] == '/'
    ensures Slug("/" + slug + rest) == slug
  {
    var path := "/" + slug + rest;
    var s := slug + rest;
    assert path[1..] == s;
    assert StripChar(path, '/') == StripChar(s, '/');
    assert s[..|slug|] == slug;
    StripCharKeepsPrefix(s, slug, '/');
    var t := StripChar(s, '/');
    assert t[..|slug|] == slug;
    if |t| > |slug| {
      assert t[|slug|] == s[|slug|] == rest[0];
    }
    var k := IndexOf(t, '/');
    assert k == |slug|;
    assert Slug(path) == t[..k];
  }

  /** An active organisation, looked up by its slug. */
  datatype Organization = Organization(id: int, slug: string, isActive: bool)

  /** How a path resolves, given the organisations keyed by slug. */
  datatype Resolution = Skipped | NoSlug | Found(org: Organization) | Missing(slug: string)

  function Resolve(path: string, orgs: map<string, Organization>): (r: Resolution)
    ensures Excluded(path) <==> r == Skipped
    ensures !Excluded(path) && Slug(path) == "" ==> r == NoSlug
    ensures r.Found? <==> !Excluded(path) && Slug(path) != "" && Slug(path) in orgs && orgs[Slug(path)].isActive
    ensures r.Found? ==> r.org == orgs[Slug(path)]
    ensures r.Missing? ==> r.slug == Slug(path) && r.slug != ""
  {
    if Excluded(path) then Skipped
    else
      var slug := Slug(path);
      if slug == "" then NoSlug
      else if slug in orgs && orgs[slug].isActive then Found(orgs[slug])
      else Missing(slug)
  }

  /** "/admin" without its trailing '/' is not excluded and is looked up as the slug "admin". */
  lemma AdminWithoutSlashIsLookedUp(orgs: map<string, Organization>)
    requires "admin" !in orgs
    ensures Resolve("/admin", orgs) == Missing("admin")
  {
    ShortPathNotExcluded("/admin");
    SlugOfTenantPath("admin", "");
    assert "/" + "admin" + "" == "/admin";
  }

  /** Every excluded prefix is at least seven characters long, so no shorter path is excluded. */
  lemma ShortPathNotExcluded(path: string)
    requires |path| < 7
    ensures !Excluded(path)
  {
    forall i | 0 <= i < |ExcludedPaths| ensures !IsPrefix(ExcludedPaths[i], path) {
      assert |ExcludedPaths[i]| >= 7;
    }
  }

  /** The site root has no slug. */
  lemma RootHasNoSlug(orgs: map<string, Organization>)
    ensures Resolve("/", orgs) == NoSlug
  {
    ShortPathNotExcluded("/");
  }

  datatype Outcome = Continue | NotFound(message: string)

  function NotFoundMessage(slug: string): string
  {
    "Organization '" + slug + "' not found or is inactive."
  }

  /** A request as the middleware sees it: its path, the tenant it sets, and the session keys it writes. */
  class TenantRequest {
    var path: string
    var tenant: Option<Organization>
    var sessionTenantId: Option<int>
    var sessionTenantSlug: Option<string>

    constructor(path: string, sessionTenantId: Option<int>, sessionTenantSlug: Option<string>)
      ensures this.path == path && tenant.None?
      ensures this.sessionTenantId == sessionTenantId && this.sessionTenantSlug == sessionTenantSlug
    {
      this.path := path;
      this.tenant := None;
      this.sessionTenantId := sessionTenantId;
      this.sessionTenantSlug := sessionTenantSlug;
    }

    /**
     * process_request: a found organisation becomes the tenant and is
     * recorded in the session; every other path gets no tenant, and a slug
     * naming no active organisation is answered with 404.
     */
    method ProcessRequest(orgs: map<string, Organization>) returns (outcome: Outcome)
      modifies this
      ensures path == old(path)
      ensures outcome == (if Resolve(path, orgs).Missing? then NotFound(NotFoundMessage(Slug(path))) else Continue)
      ensures tenant == (if Resolve(path, orgs).Found? then Some(Resolve(path, orgs).org) else None)
      ensures Resolve(path, orgs).Found? ==>
        sessionTenantId == Some(tenant.value.id) && sessionTenantSlug == Some(tenant.value.slug)
      ensures !Resolve(path, orgs).Found? ==>
        sessionTenantId == old(sessionTenantId) && sessionTenantSlug == old(sessionTenantSlug)
    {
      if Excluded(path) {
        tenant := None;
        return Continue;
      }
      var slug := Slug(path);
      if slug != "" {
        if slug in orgs && orgs[slug].isActive {
          var org := orgs[slug];
          tenant := Some(org);
          sessionTenantId := Some(org.id);
          sessionTenantSlug := Some(org.slug);
          outcome := Continue;
        } else {
          tenant := None;
          outcome := NotFound(NotFoundMessage(slug));
        }
      } else {
        tenant := None;
        outcome := Continue;
      }
    }
  }

  /** process_response hands the response back unchanged. */
  function ProcessResponse<R>(response: R): (r: R)
    ensures r == response
  {
    response
  }
}
