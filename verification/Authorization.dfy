/** The authorization check and the default policy engine, and what they say of contexts that were issued earlier. */
module Authorization {
  import opened Prelude
  import opened SecurityContexts
  import opened ContextResolution

  datatype AuthorizationCheckResult = AuthorizationCheckResult(allowed: bool, reason: string)

  function Check(
      context: SecurityContext, permission: string, tenantId: string, organizationId: Option<string>, now: Time,
      role: Option<string>): AuthorizationCheckResult
  {
    if context.IsExpired(now) then AuthorizationCheckResult(false, "security_context_expired")
    else if !context.BelongsToTenant(tenantId) then AuthorizationCheckResult(false, "tenant_mismatch")
    else if organizationId.Some? && !context.BelongsToOrganization(organizationId.value) then
      AuthorizationCheckResult(false, "organization_mismatch")
    else if role.Some? && !context.HasRole(role.value) then AuthorizationCheckResult(false, "role_absent")
    else if !context.HasPermission(permission) then AuthorizationCheckResult(false, "permission_absent")
    else AuthorizationCheckResult(true, "authorized")
  }

  datatype PolicyDecisionOutcome = Allow | Deny | RequireConfirmation | RequireApproval | RequireHuman

  datatype PolicyDecisionRecord = PolicyDecisionRecord(
    policyId: string,
    policyVersion: string,
    decision: PolicyDecisionOutcome,
    reason: string,
    timestamp: Time,
    contextReference: string)

  datatype DefaultPolicyEngine = DefaultPolicyEngine(policyId: string, policyVersion: string)
  {
    function Authorize(
        context: SecurityContext, tenantId: string, organizationId: Option<string>, permission: string, now: Time)
      : PolicyDecisionRecord
    {
      var result := Check(context, permission, tenantId, organizationId, now, None);
      PolicyDecisionRecord(policyId, policyVersion, if result.allowed then Allow else Deny, result.reason, now,
                           context.contextId)
    }
  }

  /** The context is still in force for a resource of this tenant, and of this organization if it names one. */
  predicate IsInForceFor(context: SecurityContext, tenantId: string, organizationId: Option<string>, now: Time) {
    && now < context.expiresAt
    && context.tenantId == tenantId
    && (organizationId.Some? ==> context.organizationId == organizationId)
  }

  /** Allowed needs everything; what is denied first is named in the order of the checks. */
  lemma CheckIs(
      context: SecurityContext, permission: string, tenantId: string, organizationId: Option<string>, now: Time,
      role: Option<string>)
    ensures var r := Check(context, permission, tenantId, organizationId, now, role);
            var inForce := IsInForceFor(context, tenantId, organizationId, now);
            var hasRole := role.Some? ==> role.value in context.roles;
            && (r.allowed <==> inForce && hasRole && permission in context.permissionsSnapshot)
            && (r.reason == "authorized" <==> r.allowed)
            && (r.reason == "permission_absent" <==> inForce && hasRole && permission !in context.permissionsSnapshot)
            && (r.reason == "role_absent" <==> inForce && !hasRole)
            && (r.reason == "security_context_expired" <==> context.expiresAt <= now)
            && (r.reason == "tenant_mismatch" <==> now < context.expiresAt && context.tenantId != tenantId)
            && (r.reason == "organization_mismatch" <==>
                now < context.expiresAt && context.tenantId == tenantId
                && organizationId.Some? && context.organizationId != organizationId)
  {
  }

  /**
    The default engine allows or denies, nothing else, and the record names the engine, the instant and the
    context.
   */
  lemma DecisionIs(
      engine: DefaultPolicyEngine, context: SecurityContext, tenantId: string, organizationId: Option<string>,
      permission: string, now: Time)
    ensures var record := engine.Authorize(context, tenantId, organizationId, permission, now);
            && (record.decision == Allow <==>
                IsInForceFor(context, tenantId, organizationId, now) && permission in context.permissionsSnapshot)
            && record.decision in {Allow, Deny}
            && (record.reason == "security_context_expired" <==> context.expiresAt <= now)
            && (record.reason == "tenant_mismatch" <==> now < context.expiresAt && context.tenantId != tenantId)
            && (record.reason == "organization_mismatch" <==>
                now < context.expiresAt && context.tenantId == tenantId
                && organizationId.Some? && context.organizationId != organizationId)
            && (record.reason == "permission_absent" <==>
                IsInForceFor(context, tenantId, organizationId, now) && permission !in context.permissionsSnapshot)
            && (record.reason == "authorized" <==> record.decision == Allow)
            && record.policyId == engine.policyId && record.policyVersion == engine.policyVersion
            && record.timestamp == now && record.contextReference == context.contextId
  {
    CheckIs(context, permission, tenantId, organizationId, now, None);
  }

  // ----- contexts that were issued by the resolver

  /** What the user's membership rows are at each instant. */
  type MembershipTable = Time -> Memberships

  /**
    An issuance: the clock was read at `now`, the rows were read at `readAt`, and the context was made of both.
   */
  datatype Issuance = Issuance(
    request: ResolveRequest, identity: Identity, now: Time, readAt: Time, ttl: Time,
    contextId: string, policyVersion: string)
  {
    function Outcome(table: MembershipTable): Result<SecurityContext, ResolveError> {
      Resolve(request, identity, table(readAt), now, ttl, contextId, policyVersion)
    }
  }

  ghost predicate IsIssued(table: MembershipTable, issuance: Issuance, context: SecurityContext) {
    issuance.now <= issuance.readAt && issuance.Outcome(table) == Ok(context)
  }

  /** A row as it was read at `readAt`, valid at `now`, that stands for this tenant and organization. */
  ghost predicate Supports(
      table: MembershipTable, m: MembershipReference, now: Time, readAt: Time, tenantId: string,
      organizationId: Option<string>)
  {
    && m in table(readAt) && m.status == Active
    && m.validFrom <= now && (m.validUntil.Some? ==> now < m.validUntil.value)
    && m.tenantId == tenantId && (organizationId.Some? ==> m.organizationId == organizationId)
  }

  /**
    How stale a context in force can be: it rests on a row that was ACTIVE when it was read and inside its
    validity window at the clock reading before that, both less than one context TTL ago, and it ends less than
    one TTL after that window. These are two instants: the row was valid when it was read exactly when its
    window had not ended in between.
   */
  lemma InForceRestsOnMembership(
      table: MembershipTable, issuance: Issuance, context: SecurityContext, tenantId: string,
      organizationId: Option<string>, t: Time)
    returns (m: MembershipReference)
    requires IsIssued(table, issuance, context) && issuance.readAt <= t
    requires IsInForceFor(context, tenantId, organizationId, t)
    ensures Supports(table, m, issuance.now, issuance.readAt, tenantId, organizationId)
    ensures t - issuance.ttl < issuance.now <= issuance.readAt <= t
    ensures m.validUntil.Some? ==> t < m.validUntil.value + issuance.ttl
    ensures m.IsCurrentlyValid(issuance.readAt) <==> (m.validUntil.Some? ==> issuance.readAt < m.validUntil.value)
  {
    var ms := table(issuance.readAt);
    var i := IssuedFromMembership(issuance.request, issuance.identity, ms, issuance.now, issuance.ttl,
                                  issuance.contextId, issuance.policyVersion);
    m := ms[i];
  }

  /** A row that stands for this tenant and organization was in the table, and valid, at one and the same instant. */
  ghost predicate IsValidMembershipAt(
      table: MembershipTable, q: Time, tenantId: string, organizationId: Option<string>)
  {
    exists m :: m in table(q) && IsValidRow(m, q, tenantId, organizationId)
  }

  predicate IsValidRow(m: MembershipReference, q: Time, tenantId: string, organizationId: Option<string>) {
    m.IsCurrentlyValid(q) && m.tenantId == tenantId && (organizationId.Some? ==> m.organizationId == organizationId)
  }

  /** There was such an instant less than one context TTL before `t`. */
  ghost predicate WasValidWithin(
      table: MembershipTable, tenantId: string, organizationId: Option<string>, t: Time, ttl: Time)
  {
    exists q :: t - ttl < q <= t && IsValidMembershipAt(table, q, tenantId, organizationId)
  }

  /**
    A context can be in force that no instant accounts for: the clock is read before the rows, and a row that
    appears in between, after its window has ended, was never valid. For every TTL that lasts until the rows are read.
   */
  lemma NoInstantOfValidity(ttl: Time) returns (table: MembershipTable, issuance: Issuance, context: SecurityContext)
    requires 1 < ttl
    ensures IsIssued(table, issuance, context) && issuance.ttl == ttl
    ensures IsInForceFor(context, "tenant", None, issuance.readAt)
    ensures forall q :: !IsValidMembershipAt(table, q, "tenant", None)
  {
    var m := MembershipReference("m", "user", "tenant", None, [], Active, 0, Some(1));
    table := (q: Time) => if q < 1 then [] else [m];
    issuance := Issuance(ResolveRequest("web", "employee", None, None, None), Identity("user", Password, "session"),
                         0, 1, ttl, "c", "1");
    assert MatchesIn([m], 0, None, None) == {0};
    OutcomeIsCounting(issuance.request, issuance.identity, [m], 0, ttl, "c", "1");
    context := ContextOf(issuance.request, issuance.identity, m, 0, ttl, "c", "1");
  }

  /**
    Exactly when a context in force is sure to rest on one instant of validity: when one of the rows that were
    read was valid at the instant of the read, and not only at the clock reading before it.
   */
  lemma OneInstantIff(
      ms: Memberships, issuance: Issuance, context: SecurityContext, tenantId: string, organizationId: Option<string>,
      t: Time)
    requires IsIssued(q => ms, issuance, context) && issuance.readAt <= t
    requires IsInForceFor(context, tenantId, organizationId, t)
    ensures (exists m :: m in ms && IsValidRow(m, issuance.readAt, tenantId, organizationId))
            <==> forall table: MembershipTable :: table(issuance.readAt) == ms ==>
                   WasValidWithin(table, tenantId, organizationId, t, issuance.ttl)
  {
    var m := InForceRestsOnMembership(q => ms, issuance, context, tenantId, organizationId, t);
    var onlyThen: MembershipTable := q => if q == issuance.readAt then ms else [];
    if WasValidWithin(onlyThen, tenantId, organizationId, t, issuance.ttl) {
      var q :| t - issuance.ttl < q <= t && IsValidMembershipAt(onlyThen, q, tenantId, organizationId);
      assert q == issuance.readAt;
    }
    if m' :| m' in ms && IsValidRow(m', issuance.readAt, tenantId, organizationId) {
      forall table: MembershipTable | table(issuance.readAt) == ms
        ensures WasValidWithin(table, tenantId, organizationId, t, issuance.ttl)
      {
        assert IsValidMembershipAt(table, issuance.readAt, tenantId, organizationId);
      }
    }
  }

  /** So it does whenever no row's window ends between the clock reading and the read of the rows. */
  lemma InForceRestsOnOneInstant(
      table: MembershipTable, issuance: Issuance, context: SecurityContext, tenantId: string,
      organizationId: Option<string>, t: Time)
    requires IsIssued(table, issuance, context) && issuance.readAt <= t
    requires IsInForceFor(context, tenantId, organizationId, t)
    requires forall m :: m in table(issuance.readAt) && m.validUntil.Some? ==>
               !(issuance.now < m.validUntil.value <= issuance.readAt)
    ensures WasValidWithin(table, tenantId, organizationId, t, issuance.ttl)
  {
    var m := InForceRestsOnMembership(table, issuance, context, tenantId, organizationId, t);
    assert IsValidRow(m, issuance.readAt, tenantId, organizationId);
    assert IsValidMembershipAt(table, issuance.readAt, tenantId, organizationId);
  }

  /** The other way around: once no row has supported a tenant for one TTL, no issued context is in force for it. */
  lemma RevocationTakesEffect(
      table: MembershipTable, issuance: Issuance, context: SecurityContext, tenantId: string,
      organizationId: Option<string>, t: Time)
    requires IsIssued(table, issuance, context) && issuance.readAt <= t
    requires forall q, m | t - issuance.ttl < q <= t && m in table(q) && m.tenantId == tenantId
               && (organizationId.Some? ==> m.organizationId == organizationId) :: m.status != Active
    ensures !IsInForceFor(context, tenantId, organizationId, t)
  {
    if IsInForceFor(context, tenantId, organizationId, t) {
      var m := InForceRestsOnMembership(table, issuance, context, tenantId, organizationId, t);
    }
  }

  /** That bound cannot be improved: for every TTL a context is still in force one instant before it. */
  lemma StalenessIsAttained(ttl: Time) returns (table: MembershipTable, issuance: Issuance, context: SecurityContext)
    requires 0 < ttl
    ensures IsIssued(table, issuance, context) && issuance.ttl == ttl && issuance.readAt <= 0
    ensures forall q, m | 0 < q && m in table(q) :: m.status != Active
    ensures IsInForceFor(context, "tenant", None, ttl - 1)
  {
    var m := MembershipReference("m", "user", "tenant", None, [], Active, 0, None);
    table := (q: Time) => if q <= 0 then [m] else [m.(status := Revoked)];
    issuance := Issuance(ResolveRequest("web", "employee", None, None, None), Identity("user", Password, "session"),
                         0, 0, ttl, "c", "1");
    assert MatchesIn([m], 0, None, None) == {0};
    OutcomeIsCounting(issuance.request, issuance.identity, [m], 0, ttl, "c", "1");
    context := ContextOf(issuance.request, issuance.identity, m, 0, ttl, "c", "1");
  }

  /**
    The resolver issues contexts without permissions, so no issued context is ever allowed anything: the
    default engine denies with `permission_absent` exactly while the context is in force for the resource.
   */
  lemma IssuedContextsAreDenied(
      table: MembershipTable, issuance: Issuance, context: SecurityContext, engine: DefaultPolicyEngine,
      tenantId: string, organizationId: Option<string>, permission: string, t: Time)
    requires IsIssued(table, issuance, context)
    ensures var record := engine.Authorize(context, tenantId, organizationId, permission, t);
            && record.decision == Deny
            && (record.reason == "permission_absent" <==> IsInForceFor(context, tenantId, organizationId, t))
  {
  }
}
