/** Membership references and the security context that is issued from one. */
module SecurityContexts {
  import opened Prelude

  datatype MembershipStatus = Active | Suspended | Revoked

  datatype MembershipReference = MembershipReference(
    membershipId: string,
    userId: string,
    tenantId: string,
    organizationId: Option<string>,
    roleReferences: seq<string>,
    status: MembershipStatus,
    validFrom: Time,
    validUntil: Option<Time>)
  {
    predicate IsCurrentlyValid(now: Time) {
      if status != Active then false
      else if now < validFrom then false
      else !(validUntil.Some? && now >= validUntil.value)
    }
  }

  /** ACTIVE, and at or after the start of the window and before its end, if it has one. */
  predicate IsInWindow(m: MembershipReference, now: Time) {
    m.status == Active && m.validFrom <= now && (m.validUntil.Some? ==> now < m.validUntil.value)
  }

  lemma ValidIffInWindow(m: MembershipReference, now: Time)
    ensures m.IsCurrentlyValid(now) <==>
            m.status == Active && m.validFrom <= now && (m.validUntil.Some? ==> now < m.validUntil.value)
    ensures m.IsCurrentlyValid(now) <==> IsInWindow(m, now)
  {
  }

  datatype AuthenticationStrength = Password | Mfa | DeviceBound | ServiceAccount

  datatype SecurityContext = SecurityContext(
    contextId: string,
    userId: string,
    tenantId: string,
    organizationId: Option<string>,
    membershipId: Option<string>,
    roles: seq<string>,
    permissionsSnapshot: seq<string>,
    profileType: string,
    channel: string,
    sessionId: string,
    deviceId: Option<string>,
    authenticationStrength: AuthenticationStrength,
    issuedAt: Time,
    expiresAt: Time,
    policyVersion: string)
  {
    predicate IsExpired(now: Time) {
      now >= expiresAt
    }

    predicate HasRole(role: string) {
      role in roles
    }

    predicate HasPermission(permission: string) {
      permission in permissionsSnapshot
    }

    predicate BelongsToTenant(tenant: string) {
      tenantId == tenant
    }

    predicate BelongsToOrganization(organization: string) {
      organizationId.Some? && organizationId.value == organization
    }
  }
}
