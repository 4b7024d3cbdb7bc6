/** Organizations, users, sessions and the bounded audit log of the identity manager. */
module Identity {
  import opened Text

  datatype Organization = Organization(id: string, name: string, domain: string, allowedScopes: seq<string>)
  datatype Team = Team(id: string, orgID: string, name: string, description: string)
  datatype User = User(id: string, orgID: string, email: string, name: string, role: string, authProvider: string,
                       active: bool)
  datatype Session = Session(id: string, token: string, userID: string, orgID: string, role: string, expiresAt: int,
                             revoked: bool)
  datatype AuditEvent = AuditEvent(actor: string, tenantID: string, target: string, action: string, success: bool)
  datatype OIDCClaims = OIDCClaims(issuer: string, audience: string, email: string, name: string, roles: seq<string>,
                                   tenantID: string, expiration: int)
  datatype SAMLAttributes = SAMLAttributes(email: string, orgID: string, role: string)

  datatype Error =
    | OrganizationNotFound
    | UserNotFound
    | InvalidSession
    | TenantMismatch
    | InvalidClaims
    | InvalidAssertion
    | NameRequired
    | EmailRequired

  datatype Result<T> = Ok(value: T) | Err(error: Error)

  const AUDIT_LIMIT := 1000

  /** The last at most n elements. */
  function LastOf<T>(s: seq<T>, n: nat): seq<T> {
    if |s| <= n then s else s[|s| - n..]
  }

  /** strings.ReplaceAll(s, " ", "-") */
  function Dashed(s: string): (r: string)
    ensures |r| == |s| && forall i :: 0 <= i < |s| ==> r[i] == if s[i] == ' ' then '-' else s[i]
  {
    if s == "" then "" else [if s[0] == ' ' then '-' else s[0]] + Dashed(s[1..])
  }

  /** Matching events, newest first. */
  function NewestFirst(logs: seq<AuditEvent>, tenantID: string): seq<AuditEvent> {
    if logs == [] then []
    else
      var last := logs[|logs| - 1];
      (if tenantID == "" || last.tenantID == tenantID then [last] else []) + NewestFirst(logs[..|logs| - 1], tenantID)
  }

  /** Single sign-on provisions the organization of an unknown tenant. */
  function WithOrganization(organizations: map<string, Organization>, orgID: string): map<string, Organization> {
    if orgID in organizations then organizations else organizations[orgID := Organization(orgID, orgID, "", [])]
  }

  ghost predicate EmailTaken(users: map<string, User>, email: string, orgID: string) {
    exists u :: u in users && users[u].email == email && users[u].orgID == orgID
  }

  /** No two users have the same email and tenant. */
  ghost predicate EmailsDiffer(users: map<string, User>) {
    forall u, v | u in users && v in users && users[u].email == users[v].email && users[u].orgID == users[v].orgID ::
      u == v
  }

  /** One user more keeps emails unique exactly when nobody in the tenant has this email. */
  lemma NewUser(users: map<string, User>, user: User)
    requires user.id !in users
    ensures EmailsDiffer(users) ==>
      (EmailsDiffer(users[user.id := user]) <==> !EmailTaken(users, user.email, user.orgID))
  {
    var more := users[user.id := user];
    if u :| u in users && users[u].email == user.email && users[u].orgID == user.orgID {
      assert more[u] == users[u] && more[user.id] == user;
    } else {
      forall u, v | u in more && v in more && EmailsDiffer(users)
        && more[u].email == more[v].email && more[u].orgID == more[v].orgID
        ensures u == v
      {
      }
    }
  }

  class IdentityManager {
    const lower: string -> string                 // strings.ToLower
    var organizations: map<string, Organization>
    var teams: map<string, Team>
    var users: map<string, User>
    var sessions: map<string, Session>
    var auditLogs: seq<AuditEvent>
    ghost var history: seq<AuditEvent>            // every event ever recorded
    ghost var revokedTokens: set<string>          // every token ever revoked
    ghost var registered: set<string>             // users created by CreateUser

    /** Users and teams belong to existing organizations. */
    ghost predicate Tenanted()
      reads `organizations, `users, `teams
    {
      && (forall u :: u in users ==> users[u].id == u && users[u].orgID in organizations)
      && (forall t :: t in teams ==> teams[t].id == t && teams[t].orgID in organizations)
    }

    /** Two users with the same email and tenant do not both come from single sign-on. */
    ghost predicate SignOnUnique()
      reads `users, `registered
    {
      forall u, v | u in users && v in users && users[u].email == users[v].email && users[u].orgID == users[v].orgID ::
        u == v || u in registered || v in registered
    }

    /** No two users have the same email and tenant. */
    ghost predicate UniqueEmails()
      reads `users
    {
      EmailsDiffer(users)
    }

    ghost predicate Known(email: string, orgID: string)
      reads `users
    {
      EmailTaken(users, email, orgID)
    }

    ghost predicate RevokedStay()
      reads `sessions, `revokedTokens
    {
      forall t :: t in revokedTokens ==> t in sessions && sessions[t].revoked
    }

    ghost predicate LogBounded()
      reads `auditLogs, `history
    {
      auditLogs == LastOf(history, AUDIT_LIMIT)
    }

    ghost predicate Valid()
      reads this
    {
      Tenanted() && SignOnUnique() && RevokedStay() && LogBounded()
    }

    constructor (lower: string -> string)
      ensures Valid() && this.lower == lower
      ensures organizations == map[] && users == map[] && sessions == map[]
      ensures history == [] && revokedTokens == {} && registered == {}
    {
      this.lower := lower;
      organizations, teams, users, sessions := map[], map[], map[], map[];
      auditLogs, history, revokedTokens, registered := [], [], {}, {};
    }

    method RecordAudit(event: AuditEvent)
      requires LogBounded()
      modifies `auditLogs, `history
      ensures LogBounded() && history == old(history) + [event]
      ensures |auditLogs| == (if |history| <= 1000 then |history| else 1000)
      ensures auditLogs == history[|history| - |auditLogs|..]
    {
      history := history + [event];
      auditLogs := auditLogs + [event];
      if |auditLogs| > 1000 {
        auditLogs := auditLogs[|auditLogs| - 1000..];
      }
    }

    /**
     The identifier comes from the name, with a suffix when it is taken. When that is taken as well, the
     organization that has it is replaced.
     */
    method CreateOrganization(name: string, domain: string, allowedScopes: seq<string>, suffix: string)
      returns (r: Result<Organization>)
      requires Valid()
      modifies `organizations, `auditLogs, `history
      ensures Valid()
      ensures r.Err? <==> TrimSpace(name) == ""
      ensures r.Err? ==> r.error == NameRequired && organizations == old(organizations) && history == old(history)
      ensures r.Ok? ==>
        var id := lower(Dashed(TrimSpace(name)));
        && r.value == Organization(if id in old(organizations) then id + "-" + suffix else id,
                                   TrimSpace(name), domain, allowedScopes)
        && organizations == old(organizations)[r.value.id := r.value]
        && history == old(history) + [AuditEvent("system", r.value.id, "organization", "create", true)]
        && (r.value.id in old(organizations) <==> id in old(organizations) && id + "-" + suffix in old(organizations))
    {
      var trimmed := TrimSpace(name);
      if trimmed == "" {
        return Err(NameRequired);
      }
      var orgID := lower(Dashed(trimmed));
      if orgID in organizations {
        orgID := orgID + "-" + suffix;
      }
      var org := Organization(orgID, trimmed, domain, allowedScopes);
      organizations := organizations[orgID := org];
      RecordAudit(AuditEvent("system", orgID, "organization", "create", true));
      r := Ok(org);
    }

    method CreateTeam(orgID: string, name: string, description: string, teamID: string) returns (r: Result<Team>)
      requires Valid() && teamID !in teams
      modifies `teams, `auditLogs, `history
      ensures Valid()
      ensures r ==
        if orgID in organizations then Ok(Team(teamID, orgID, name, description)) else Err(OrganizationNotFound)
      ensures teams == if r.Ok? then old(teams)[teamID := r.value] else old(teams)
      ensures history == old(history) + if r.Ok? then [AuditEvent("system", orgID, teamID, "create_team", true)] else []
    {
      if orgID !in organizations {
        return Err(OrganizationNotFound);
      }
      var team := Team(teamID, orgID, name, description);
      teams := teams[teamID := team];
      RecordAudit(AuditEvent("system", orgID, teamID, "create_team", true));
      r := Ok(team);
    }

    function Role(role: string, fallback: string): string {
      if role != "admin" && role != "analyst" && role != "viewer" then fallback else role
    }

    /**
     Local registration does not look for an existing user, so it keeps emails unique exactly when the email is
     new.
     */
    method CreateUser(orgID: string, email: string, name: string, role: string, provider: string, userID: string)
      returns (r: Result<User>)
      requires Valid() && userID !in users
      modifies `users, `registered, `auditLogs, `history
      ensures Valid()
      ensures r.Ok? <==> orgID in organizations && '@' in lower(TrimSpace(email))
      ensures r.Err? ==> r.error == if orgID in organizations then EmailRequired else OrganizationNotFound
      ensures r.Err? ==> users == old(users) && registered == old(registered) && history == old(history)
      ensures r.Ok? ==>
        var asked := lower(TrimSpace(role));
        && r.value == User(userID, orgID, lower(TrimSpace(email)), name,
                           if asked in {"admin", "analyst", "viewer"} then asked else "viewer",
                           if provider == "" then "local" else provider, true)
        && users == old(users)[userID := r.value] && registered == old(registered) + {userID}
        && history == old(history) + [AuditEvent(r.value.email, orgID, userID, "create_user", true)]
      ensures r.Ok? && old(UniqueEmails()) ==> (UniqueEmails() <==> !old(Known(lower(TrimSpace(email)), orgID)))
    {
      if orgID !in organizations {
        return Err(OrganizationNotFound);
      }
      var address := lower(TrimSpace(email));
      if address == "" || '@' !in address {
        return Err(EmailRequired);
      }
      var user := User(userID, orgID, address, name, Role(lower(TrimSpace(role)), "viewer"),
                       if provider == "" then "local" else provider, true);
      NewUser(users, user);
      users := users[userID := user];
      registered := registered + {userID};
      RecordAudit(AuditEvent(address, orgID, userID, "create_user", true));
      r := Ok(user);
    }

    method CreateSession(user: User, duration: int, now: int, token: string, sid: string) returns (session: Session)
      requires Valid() && token !in sessions
      modifies `sessions, `auditLogs, `history
      ensures Valid()
      ensures var expiresAt := now + (if duration <= 0 then 86400 else duration);
        session == Session(sid, token, user.id, user.orgID, user.role, expiresAt, false)
      ensures sessions == old(sessions)[token := session]
      ensures history == old(history) + [AuditEvent(user.email, user.orgID, sid, "login", true)]
    {
      var expiresAt := now + (if duration <= 0 then 86400 else duration);
      session := Session(sid, token, user.id, user.orgID, user.role, expiresAt, false);
      sessions := sessions[token := session];
      RecordAudit(AuditEvent(user.email, user.orgID, sid, "login", true));
    }

    /** A session validates exactly when it was issued, never revoked, has not expired and its user is active. */
    method ValidateSession(token: string, now: int) returns (r: Result<(Session, User)>)
      requires Valid()
      ensures r.Ok? <==>
        (&& token in sessions && !sessions[token].revoked && now <= sessions[token].expiresAt
         && sessions[token].userID in users && users[sessions[token].userID].active)
      ensures r.Ok? ==> r.value == (sessions[token], users[sessions[token].userID])
      ensures token in revokedTokens ==> r == Err(InvalidSession)
    {
      if token !in sessions || sessions[token].revoked || now > sessions[token].expiresAt {
        return Err(InvalidSession);
      }
      var session := sessions[token];
      if session.userID !in users || !users[session.userID].active {
        return Err(UserNotFound);
      }
      r := Ok((session, users[session.userID]));
    }

    method RevokeSession(token: string) returns (r: Result<()>)
      requires Valid()
      modifies `sessions, `revokedTokens, `auditLogs, `history
      ensures Valid()
      ensures r == if token in old(sessions) then Ok(()) else Err(InvalidSession)
      ensures revokedTokens == if r.Ok? then old(revokedTokens) + {token} else old(revokedTokens)
      ensures r.Err? ==> sessions == old(sessions)
      ensures r.Ok? ==>
        var session := old(sessions)[token];
        && sessions == old(sessions)[token := session.(revoked := true)]
        && history == old(history) + [AuditEvent(session.userID, session.orgID, session.id, "logout", true)]
      ensures r.Err? ==> history == old(history)
    {
      if token !in sessions {
        return Err(InvalidSession);
      }
      var session := sessions[token].(revoked := true);
      sessions := sessions[token := session];
      revokedTokens := revokedTokens + {token};
      RecordAudit(AuditEvent(session.userID, session.orgID, session.id, "logout", true));
      r := Ok(());
    }

    /** The common part of both sign-on paths: an existing user with this email and tenant, or a new one. */
    method SignOn(email: string, orgID: string, name: string, role: string, provider: string, action: string,
                  userID: string)
      returns (user: User)
      requires Valid() && userID !in users
      modifies `users, `organizations, `auditLogs, `history
      ensures Valid() && user.email == email && user.orgID == orgID && user.id in users && users[user.id] == user
      ensures old(Known(email, orgID)) ==> users == old(users) && organizations == old(organizations)
      ensures !old(Known(email, orgID)) ==>
        && user == User(userID, orgID, email, name, role, provider, true) && users == old(users)[userID := user]
        && organizations == WithOrganization(old(organizations), orgID)
      ensures history == old(history) + [AuditEvent(email, orgID, user.id, action, true)]
      ensures old(UniqueEmails()) ==> UniqueEmails()
    {
      if u :| u in users && users[u].email == email && users[u].orgID == orgID {
        RecordAudit(AuditEvent(email, orgID, users[u].id, action, true));
        return users[u];
      }
      if orgID !in organizations {
        organizations := organizations[orgID := Organization(orgID, orgID, "", [])];
      }
      user := User(userID, orgID, email, name, role, provider, true);
      NewUser(users, user);
      users := users[userID := user];
      RecordAudit(AuditEvent(email, orgID, userID, action, true));
    }

    ghost predicate Acceptable(claims: OIDCClaims, expectedIssuer: string, expectedAudience: string, now: int) {
      && (expectedIssuer == "" || claims.issuer == expectedIssuer)
      && (expectedAudience == "" || claims.audience == expectedAudience)
      && (claims.expiration <= 0 || now <= claims.expiration)
      && claims.email != "" && claims.tenantID != ""
    }

    function OIDCRole(roles: seq<string>): string {
      if exists i :: 0 <= i < |roles| && lower(roles[i]) == "admin" then "admin" else "analyst"
    }

    method ValidateOIDCClaims(claims: OIDCClaims, expectedIssuer: string, expectedAudience: string, now: int,
                              userID: string)
      returns (r: Result<User>)
      requires Valid() && userID !in users
      modifies `users, `organizations, `auditLogs, `history
      ensures Valid()
      ensures r.Ok? <==> Acceptable(claims, expectedIssuer, expectedAudience, now)
      ensures r.Err? ==>
        && r.error == InvalidClaims && users == old(users)
        && organizations == old(organizations) && history == old(history)
      ensures r.Ok? ==>
        r.value.email == claims.email && r.value.orgID == claims.tenantID && Known(claims.email, claims.tenantID)
      ensures r.Ok? && old(Known(claims.email, claims.tenantID)) ==>
        && users == old(users) && organizations == old(organizations)
        && r.value.id in users && r.value == users[r.value.id]
      ensures r.Ok? && !old(Known(claims.email, claims.tenantID)) ==>
        && r.value == User(userID, claims.tenantID, claims.email,
                           if claims.name == "" then claims.email else claims.name,
                           if exists i :: 0 <= i < |claims.roles| && lower(claims.roles[i]) == "admin" then "admin"
                           else "analyst",
                           "oidc", true)
        && users == old(users)[userID := r.value]
        && organizations == WithOrganization(old(organizations), claims.tenantID)
      ensures r.Ok? ==>
        history == old(history) + [AuditEvent(claims.email, claims.tenantID, r.value.id, "sso_oidc", true)]
      ensures old(UniqueEmails()) ==> UniqueEmails()
    {
      if expectedIssuer != "" && claims.issuer != expectedIssuer {
        return Err(InvalidClaims);
      }
      if expectedAudience != "" && claims.audience != expectedAudience {
        return Err(InvalidClaims);
      }
      if claims.expiration > 0 && now > claims.expiration {
        return Err(InvalidClaims);
      }
      if claims.email == "" || claims.tenantID == "" {
        return Err(InvalidClaims);
      }
      var name := if claims.name == "" then claims.email else claims.name;
      var user := SignOn(claims.email, claims.tenantID, name, OIDCRole(claims.roles), "oidc", "sso_oidc", userID);
      assert users[user.id].email == user.email;
      r := Ok(user);
    }

    method ValidateSAMLAssertion(attrs: SAMLAttributes, userID: string) returns (r: Result<User>)
      requires Valid() && userID !in users
      modifies `users, `organizations, `auditLogs, `history
      ensures Valid()
      ensures r.Ok? <==> attrs.email != "" && attrs.orgID != ""
      ensures r.Err? ==>
        && r.error == InvalidAssertion && users == old(users)
        && organizations == old(organizations) && history == old(history)
      ensures r.Ok? ==> r.value.email == attrs.email && r.value.orgID == attrs.orgID && Known(attrs.email, attrs.orgID)
      ensures r.Ok? && old(Known(attrs.email, attrs.orgID)) ==>
        && users == old(users) && organizations == old(organizations)
        && r.value.id in users && r.value == users[r.value.id]
      ensures r.Ok? && !old(Known(attrs.email, attrs.orgID)) ==>
        && r.value == User(userID, attrs.orgID, attrs.email, attrs.email,
                           if lower(attrs.role) in {"admin", "analyst", "viewer"} then lower(attrs.role) else "analyst",
                           "saml", true)
        && users == old(users)[userID := r.value]
        && organizations == WithOrganization(old(organizations), attrs.orgID)
      ensures r.Ok? ==> history == old(history) + [AuditEvent(attrs.email, attrs.orgID, r.value.id, "sso_saml", true)]
      ensures old(UniqueEmails()) ==> UniqueEmails()
    {
      if attrs.email == "" || attrs.orgID == "" {
        return Err(InvalidAssertion);
      }
      var role := Role(lower(attrs.role), "analyst");
      var user := SignOn(attrs.email, attrs.orgID, attrs.email, role, "saml", "sso_saml", userID);
      assert users[user.id].email == user.email;
      r := Ok(user);
    }

    method EnforceTenantIsolation(actorTenantID: string, resourceTenantID: string) returns (r: Result<()>)
      requires Valid()
      modifies `auditLogs, `history
      ensures Valid()
      ensures r == Ok(()) <==> actorTenantID == "" || resourceTenantID == "" || actorTenantID == resourceTenantID
      ensures history == old(history) +
        if r.Ok? then [] else [AuditEvent(actorTenantID, resourceTenantID, "tenant_resource", "access", false)]
    {
      if actorTenantID == "" || resourceTenantID == "" {
        return Ok(());
      }
      if actorTenantID != resourceTenantID {
        RecordAudit(AuditEvent(actorTenantID, resourceTenantID, "tenant_resource", "access", false));
        return Err(TenantMismatch);
      }
      r := Ok(());
    }

    /** The newest matching events among the last thousand ever recorded, newest first. */
    method AuditLogs(tenantID: string, limit: int) returns (out: seq<AuditEvent>)
      requires Valid()
      ensures var most := if limit <= 0 || limit > 100 then 100 else limit;
        out == FirstOf(NewestFirst(LastOf(history, AUDIT_LIMIT), tenantID), most)
    {
      out := CollectNewest(auditLogs, tenantID, if limit <= 0 || limit > 100 then 100 else limit);
    }
  }

  function FirstOf<T>(s: seq<T>, n: nat): seq<T> {
    if |s| <= n then s else s[..n]
  }

  method CollectNewest(logs: seq<AuditEvent>, tenantID: string, n: nat) returns (out: seq<AuditEvent>)
    ensures out == FirstOf(NewestFirst(logs, tenantID), n)
  {
    out := [];
    var i := |logs| - 1;
    assert logs[..i + 1] == logs;
    ghost var all, rest := NewestFirst(logs, tenantID), NewestFirst(logs, tenantID);
    while i >= 0 && |out| < n
      invariant -1 <= i < |logs| && |out| <= n
      invariant rest == NewestFirst(logs[..i + 1], tenantID)
      invariant all == out + rest
    {
      OneOlder(logs, i, tenantID);
      rest := NewestFirst(logs[..i], tenantID);
      if tenantID == "" || logs[i].tenantID == tenantID {
        assert out + ([logs[i]] + rest) == (out + [logs[i]]) + rest;
        out := out + [logs[i]];
      }
      i := i - 1;
    }
    FrontOf(all, out, rest, n);
  }

  lemma FrontOf<T>(all: seq<T>, out: seq<T>, rest: seq<T>, n: nat)
    requires all == out + rest && |out| <= n && (|out| == n || rest == [])
    ensures out == FirstOf(all, n)
  {
  }

  lemma OneOlder(logs: seq<AuditEvent>, i: nat, tenantID: string)
    requires i < |logs|
    ensures NewestFirst(logs[..i + 1], tenantID) ==
      (if tenantID == "" || logs[i].tenantID == tenantID then [logs[i]] else []) + NewestFirst(logs[..i], tenantID)
  {
    assert logs[..i + 1][..i] == logs[..i];
  }

  /** A registration can be repeated, which breaks the uniqueness that CreateUser keeps for new emails. */
  method RegisterTwice(m: IdentityManager, orgID: string, email: string, first: string, second: string)
    requires m.Valid() && orgID in m.organizations && '@' in m.lower(TrimSpace(email))
    requires first != second && first !in m.users && second !in m.users
    modifies m
    ensures m.Valid() && !m.UniqueEmails() && first in m.users && second in m.users
    ensures m.users[first].email == m.users[second].email && m.users[first].orgID == m.users[second].orgID
  {
    var a := m.CreateUser(orgID, email, "", "", "", first);
    var b := m.CreateUser(orgID, email, "", "", "", second);
  }
}
