/**
  ResolveSecurityContext: which membership a context is issued from. The outcome is decided by how many
  currently valid memberships match the caller's hints, and by nothing else about the list.
 */
module ContextResolution {
  import opened Prelude
  import opened SecurityContexts

  type Memberships = seq<MembershipReference>

  datatype Identity = Identity(userId: string, authenticationStrength: AuthenticationStrength, sessionId: string)

  datatype ResolveRequest = ResolveRequest(
    channel: string,
    profileType: string,
    requestedTenantId: Option<string>,
    requestedOrganizationId: Option<string>,
    deviceId: Option<string>)

  datatype ResolveError =
    | NoValidMembership(userId: string)
    | NoMatchingMembership(userId: string, tenantId: Option<string>, organizationId: Option<string>)
    | AmbiguousContext(userId: string, candidates: seq<(string, Option<string>)>)

  /** The entries that satisfy `p`, in order. */
  function Filter(ms: Memberships, p: MembershipReference -> bool): Memberships {
    if ms == [] then []
    else
      var before := Filter(ms[..|ms| - 1], p);
      var last := ms[|ms| - 1];
      if p(last) then before + [last] else before
  }

  function ValidAt(ms: Memberships, now: Time): Memberships {
    Filter(ms, (m: MembershipReference) => m.IsCurrentlyValid(now))
  }

  function Narrow(candidates: Memberships, tenantId: Option<string>, organizationId: Option<string>): Memberships {
    var inTenant :=
      if tenantId.Some? then Filter(candidates, (m: MembershipReference) => m.tenantId == tenantId.value)
      else candidates;
    if organizationId.Some? then Filter(inTenant, (m: MembershipReference) => m.organizationId == organizationId)
    else inTenant
  }

  function Candidates(
      ms: Memberships, now: Time, tenantId: Option<string>, organizationId: Option<string>): Memberships
  {
    Narrow(ValidAt(ms, now), tenantId, organizationId)
  }

  function ContextOf(
      request: ResolveRequest, identity: Identity, m: MembershipReference, now: Time, ttl: Time,
      contextId: string, policyVersion: string): SecurityContext
  {
    SecurityContext(contextId, identity.userId, m.tenantId, m.organizationId, Some(m.membershipId), m.roleReferences,
                    [], request.profileType, request.channel, identity.sessionId, request.deviceId,
                    identity.authenticationStrength, now, now + ttl, policyVersion)
  }

  function Places(ms: Memberships): seq<(string, Option<string>)> {
    seq(|ms|, i requires 0 <= i < |ms| => (ms[i].tenantId, ms[i].organizationId))
  }

  /** The use case, from the verified identity, the clock and the answers of its ports. */
  function Resolve(
      request: ResolveRequest, identity: Identity, ms: Memberships, now: Time, ttl: Time,
      contextId: string, policyVersion: string): Result<SecurityContext, ResolveError>
  {
    var valid := ValidAt(ms, now);
    if valid == [] then Err(NoValidMembership(identity.userId))
    else
      var candidates := Narrow(valid, request.requestedTenantId, request.requestedOrganizationId);
      if |candidates| == 0 then
        Err(NoMatchingMembership(identity.userId, request.requestedTenantId, request.requestedOrganizationId))
      else if |candidates| > 1 then Err(AmbiguousContext(identity.userId, Places(candidates)))
      else Ok(ContextOf(request, identity, candidates[0], now, ttl, contextId, policyVersion))
  }

  // ----- filtering

  lemma {:induction false} FilterTwice(
      ms: Memberships, p: MembershipReference -> bool, q: MembershipReference -> bool, r: MembershipReference -> bool)
    requires forall m :: r(m) <==> p(m) && q(m)
    ensures Filter(Filter(ms, p), q) == Filter(ms, r)
  {
    if ms != [] {
      var before, last := ms[..|ms| - 1], ms[|ms| - 1];
      FilterTwice(before, p, q, r);
      assert p(last) ==> (Filter(before, p) + [last])[..|Filter(before, p)|] == Filter(before, p);
    }
  }

  lemma {:induction false} FilterSame(ms: Memberships, p: MembershipReference -> bool, q: MembershipReference -> bool)
    requires forall m :: p(m) <==> q(m)
    ensures Filter(ms, p) == Filter(ms, q)
  {
    if ms != [] {
      FilterSame(ms[..|ms| - 1], p, q);
    }
  }

  /** Valid at this instant, and where the hints say, if they say anything. */
  predicate Matches(m: MembershipReference, now: Time, tenantId: Option<string>, organizationId: Option<string>) {
    && IsInWindow(m, now)
    && (tenantId.Some? ==> m.tenantId == tenantId.value)
    && (organizationId.Some? ==> m.organizationId == organizationId)
  }

  lemma CandidatesAreMatches(ms: Memberships, now: Time, tenantId: Option<string>, organizationId: Option<string>)
    ensures Candidates(ms, now, tenantId, organizationId)
            == Filter(ms, (m: MembershipReference) => Matches(m, now, tenantId, organizationId))
  {
    var valid := (m: MembershipReference) => m.IsCurrentlyValid(now);
    var inTenant := (m: MembershipReference) => m.IsCurrentlyValid(now)
      && (tenantId.Some? ==> m.tenantId == tenantId.value);
    var all := (m: MembershipReference) => Matches(m, now, tenantId, organizationId);
    var narrowed :=
      if tenantId.Some? then Filter(ValidAt(ms, now), (m: MembershipReference) => m.tenantId == tenantId.value)
      else ValidAt(ms, now);
    assert narrowed == Filter(ms, inTenant) by {
      if tenantId.Some? {
        FilterTwice(ms, valid, (m: MembershipReference) => m.tenantId == tenantId.value, inTenant);
      } else {
        FilterSame(ms, valid, inTenant);
      }
    }
    if organizationId.Some? {
      FilterTwice(ms, inTenant, (m: MembershipReference) => m.organizationId == organizationId, all);
    } else {
      FilterSame(ms, inTenant, all);
    }
  }

  lemma {:induction false} FilterHas(ms: Memberships, p: MembershipReference -> bool, m: MembershipReference)
    ensures m in Filter(ms, p) <==> m in ms && p(m)
  {
    if ms != [] {
      FilterHas(ms[..|ms| - 1], p, m);
      assert ms == ms[..|ms| - 1] + [ms[|ms| - 1]];
    }
  }

  /** Where in the list the entries that satisfy `p` are. */
  ghost function Where(ms: Memberships, p: MembershipReference -> bool): set<nat> {
    set i: nat | i < |ms| && p(ms[i])
  }

  lemma {:induction false} FilterCounts(ms: Memberships, p: MembershipReference -> bool)
    ensures |Filter(ms, p)| == |Where(ms, p)|
  {
    if ms == [] {
      assert Where(ms, p) == {};
    } else {
      var n := |ms| - 1;
      FilterCounts(ms[..n], p);
      assert Where(ms, p) == Where(ms[..n], p) + (if p(ms[n]) then {n} else {});
    }
  }

  /** The only entry that satisfies `p` is what the filter leaves. */
  lemma FilterLeavesOne(ms: Memberships, p: MembershipReference -> bool, i: nat)
    requires Where(ms, p) == {i}
    ensures i < |ms| && Filter(ms, p) == [ms[i]]
  {
    assert i in Where(ms, p);
    FilterCounts(ms, p);
    var m := Filter(ms, p)[0];
    FilterHas(ms, p, m);
    var k :| 0 <= k < |ms| && ms[k] == m;
    assert k in Where(ms, p);
  }

  // ----- the outcome is decided by counting

  /** The positions of the valid memberships that match the hints. */
  ghost function MatchesIn(
      ms: Memberships, now: Time, tenantId: Option<string>, organizationId: Option<string>): set<nat>
  {
    Where(ms, (m: MembershipReference) => Matches(m, now, tenantId, organizationId))
  }

  lemma CandidatesCount(ms: Memberships, now: Time, tenantId: Option<string>, organizationId: Option<string>)
    ensures |Candidates(ms, now, tenantId, organizationId)| == |MatchesIn(ms, now, tenantId, organizationId)|
    ensures forall i: nat :: MatchesIn(ms, now, tenantId, organizationId) == {i} ==>
              i < |ms| && Candidates(ms, now, tenantId, organizationId) == [ms[i]]
  {
    var p := (m: MembershipReference) => Matches(m, now, tenantId, organizationId);
    CandidatesAreMatches(ms, now, tenantId, organizationId);
    FilterCounts(ms, p);
    forall i: nat | MatchesIn(ms, now, tenantId, organizationId) == {i}
      ensures i < |ms| && Candidates(ms, now, tenantId, organizationId) == [ms[i]]
    {
      FilterLeavesOne(ms, p, i);
    }
  }

  /** Every error names the user; a refusal of the hints also says what they were. */
  predicate DetailsAre(error: ResolveError, request: ResolveRequest, identity: Identity) {
    match error
    case NoValidMembership(userId) => userId == identity.userId
    case NoMatchingMembership(userId, tenantId, organizationId) =>
      && userId == identity.userId
      && tenantId == request.requestedTenantId && organizationId == request.requestedOrganizationId
    case AmbiguousContext(userId, _) => userId == identity.userId
  }

  /** No match, exactly one, or several decide between refusal, a context from that very entry, and ambiguity. */
  lemma OutcomeIsCounting(
      request: ResolveRequest, identity: Identity, ms: Memberships, now: Time, ttl: Time, contextId: string,
      policyVersion: string)
    ensures var matches := MatchesIn(ms, now, request.requestedTenantId, request.requestedOrganizationId);
            var r := Resolve(request, identity, ms, now, ttl, contextId, policyVersion);
            && (|matches| == 0 <==> r.Err? && !r.error.AmbiguousContext?)
            && (|matches| >= 2 <==> r.Err? && r.error.AmbiguousContext?)
            && (r.Err? && r.error.NoValidMembership? <==> |MatchesIn(ms, now, None, None)| == 0)
            && (r.Err? ==> DetailsAre(r.error, request, identity))
            && (forall i :: matches == {i} ==>
               r == Ok(ContextOf(request, identity, ms[i], now, ttl, contextId, policyVersion)))
            && (r.Ok? ==> exists i :: matches == {i})
  {
    CandidatesCount(ms, now, request.requestedTenantId, request.requestedOrganizationId);
    CandidatesCount(ms, now, None, None);
    NarrowNothing(ValidAt(ms, now), request.requestedTenantId, request.requestedOrganizationId);
    var matches := MatchesIn(ms, now, request.requestedTenantId, request.requestedOrganizationId);
    if |matches| == 1 {
      var i :| i in matches;
      SingletonIs(matches, i);
    }
  }

  /** An ambiguous request is told the places of the matching memberships, one for each, and no others. */
  lemma AmbiguityListsMatches(
      request: ResolveRequest, identity: Identity, ms: Memberships, now: Time, ttl: Time, contextId: string,
      policyVersion: string,
      place: (string, Option<string>))
    requires var r := Resolve(request, identity, ms, now, ttl, contextId, policyVersion);
             r.Err? && r.error.AmbiguousContext?
    ensures var r := Resolve(request, identity, ms, now, ttl, contextId, policyVersion);
            && |r.error.candidates| == |MatchesIn(ms, now, request.requestedTenantId, request.requestedOrganizationId)|
            && (place in r.error.candidates <==>
                exists m :: m in ms && Matches(m, now, request.requestedTenantId, request.requestedOrganizationId)
                            && place == (m.tenantId, m.organizationId))
  {
    var tenantId, organizationId := request.requestedTenantId, request.requestedOrganizationId;
    var found := Candidates(ms, now, tenantId, organizationId);
    CandidatesCount(ms, now, tenantId, organizationId);
    CandidatesAreMatches(ms, now, tenantId, organizationId);
    forall m
      ensures m in found <==> m in ms && Matches(m, now, tenantId, organizationId)
    {
      FilterHas(ms, (x: MembershipReference) => Matches(x, now, tenantId, organizationId), m);
    }
    PlacesOf(found, place);
  }

  lemma PlacesOf(ms: Memberships, place: (string, Option<string>))
    ensures place in Places(ms) <==> exists m :: m in ms && place == (m.tenantId, m.organizationId)
  {
    if place in Places(ms) {
      var i :| 0 <= i < |ms| && Places(ms)[i] == place;
      assert ms[i] in ms;
    }
    if m :| m in ms && place == (m.tenantId, m.organizationId) {
      var i :| 0 <= i < |ms| && ms[i] == m;
      assert Places(ms)[i] == place;
    }
  }

  lemma SingletonIs<T>(s: set<T>, x: T)
    requires |s| == 1 && x in s
    ensures s == {x}
  {
    assert |s - {x}| == 0;
    assert s == s - {x} + {x};
  }

  lemma NarrowNothing(ms: Memberships, tenantId: Option<string>, organizationId: Option<string>)
    ensures ms == [] ==> Narrow(ms, tenantId, organizationId) == []
  {
  }

  /** What a context takes from where: the identity, the membership, the request and the clock; and no permissions. */
  predicate Carries(
      c: SecurityContext, request: ResolveRequest, identity: Identity, m: MembershipReference, now: Time, ttl: Time)
  {
    && c.userId == identity.userId && c.sessionId == identity.sessionId
    && c.authenticationStrength == identity.authenticationStrength
    && c.tenantId == m.tenantId && c.organizationId == m.organizationId
    && c.membershipId == Some(m.membershipId) && c.roles == m.roleReferences && c.permissionsSnapshot == []
    && c.profileType == request.profileType && c.channel == request.channel && c.deviceId == request.deviceId
    && c.issuedAt == now && c.expiresAt == now + ttl
  }

  /** A context is only ever issued from a membership on the list that is valid and where the hints point. */
  lemma IssuedFromMembership(
      request: ResolveRequest, identity: Identity, ms: Memberships, now: Time, ttl: Time, contextId: string,
      policyVersion: string)
    returns (i: nat)
    requires Resolve(request, identity, ms, now, ttl, contextId, policyVersion).Ok?
    ensures i < |ms| && Matches(ms[i], now, request.requestedTenantId, request.requestedOrganizationId)
    ensures var c := Resolve(request, identity, ms, now, ttl, contextId, policyVersion).value;
            Carries(c, request, identity, ms[i], now, ttl) && c.contextId == contextId
              && c.policyVersion == policyVersion
  {
    OutcomeIsCounting(request, identity, ms, now, ttl, contextId, policyVersion);
    var matches := MatchesIn(ms, now, request.requestedTenantId, request.requestedOrganizationId);
    var k :| matches == {k};
    assert k in matches;
    i := k;
  }

  /** The other way around: an ACTIVE row in its window, where the hints point, and the only such row, is issued. */
  lemma LoneMatchIsIssued(
      request: ResolveRequest, identity: Identity, ms: Memberships, now: Time, ttl: Time, contextId: string,
      policyVersion: string, i: nat)
    requires i < |ms|
    requires forall j :: 0 <= j < |ms| ==>
               (j == i <==>
                && ms[j].status == Active
                && ms[j].validFrom <= now && (ms[j].validUntil.Some? ==> now < ms[j].validUntil.value)
                && (request.requestedTenantId.Some? ==> ms[j].tenantId == request.requestedTenantId.value)
                && (request.requestedOrganizationId.Some? ==> ms[j].organizationId == request.requestedOrganizationId))
    ensures var r := Resolve(request, identity, ms, now, ttl, contextId, policyVersion);
            r.Ok? && Carries(r.value, request, identity, ms[i], now, ttl)
  {
    OutcomeIsCounting(request, identity, ms, now, ttl, contextId, policyVersion);
    var matches := MatchesIn(ms, now, request.requestedTenantId, request.requestedOrganizationId);
    assert forall j: nat :: j in matches ==> j == i;
    assert matches == {i};
  }

  // ----- what about the list does not matter

  lemma {:induction false} FilterMultiset(ms: Memberships, p: MembershipReference -> bool, x: MembershipReference)
    ensures multiset(Filter(ms, p))[x] == if p(x) then multiset(ms)[x] else 0
  {
    if ms != [] {
      var n := |ms| - 1;
      FilterMultiset(ms[..n], p, x);
      assert ms == ms[..n] + [ms[n]];
    }
  }

  /** The order of the list does not matter: same kind of outcome, and the same context when there is one. */
  lemma OrderDoesNotMatter(
      request: ResolveRequest, identity: Identity, ms: Memberships, ms': Memberships, now: Time, ttl: Time,
      contextId: string, policyVersion: string)
    requires multiset(ms) == multiset(ms')
    ensures var r := Resolve(request, identity, ms, now, ttl, contextId, policyVersion);
            var r' := Resolve(request, identity, ms', now, ttl, contextId, policyVersion);
            if r.Err? && r.error.AmbiguousContext? then r'.Err? && r'.error.AmbiguousContext? else r == r'
  {
    var p := (m: MembershipReference) => Matches(m, now, request.requestedTenantId, request.requestedOrganizationId);
    CandidatesAreMatches(ms, now, request.requestedTenantId, request.requestedOrganizationId);
    CandidatesAreMatches(ms', now, request.requestedTenantId, request.requestedOrganizationId);
    FilterKeepsMultiset(ms, ms', p);
    FilterKeepsMultiset(ms, ms', (m: MembershipReference) => m.IsCurrentlyValid(now));
  }

  lemma FilterKeepsMultiset(ms: Memberships, ms': Memberships, p: MembershipReference -> bool)
    requires multiset(ms) == multiset(ms')
    ensures |Filter(ms, p)| == |Filter(ms', p)|
    ensures |Filter(ms, p)| == 1 ==> Filter(ms, p) == Filter(ms', p)
  {
    var f, f' := Filter(ms, p), Filter(ms', p);
    assert multiset(f) == multiset(f') by {
      forall x
        ensures multiset(f)[x] == multiset(f')[x]
      {
        FilterMultiset(ms, p, x);
        FilterMultiset(ms', p, x);
      }
    }
    assert |multiset(f)| == |f| && |multiset(f')| == |f'|;
    if |f| == 1 {
      assert f == [f[0]] && f' == [f'[0]];
      assert f[0] in multiset(f');
    }
  }

  lemma {:induction false} FilterSkips(
      a: Memberships, bad: MembershipReference, b: Memberships, p: MembershipReference -> bool)
    requires !p(bad)
    ensures Filter(a + [bad] + b, p) == Filter(a + b, p)
  {
    if b == [] {
      assert (a + [bad] + b)[..|a|] == a && a + b == a;
      assert (a + [bad] + b)[|a|] == bad;
    } else {
      var n := |b| - 1;
      FilterSkips(a, bad, b[..n], p);
      assert (a + [bad] + b)[..|a| + 1 + n] == a + [bad] + b[..n];
      assert (a + b)[..|a| + n] == a + b[..n];
    }
  }

  /** Memberships that are not valid now do not matter, wherever they are in the list. */
  lemma InvalidEntriesDoNotMatter(
      request: ResolveRequest, identity: Identity, a: Memberships, bad: MembershipReference, b: Memberships,
      now: Time, ttl: Time, contextId: string, policyVersion: string)
    requires !IsInWindow(bad, now)
    ensures Resolve(request, identity, a + [bad] + b, now, ttl, contextId, policyVersion)
            == Resolve(request, identity, a + b, now, ttl, contextId, policyVersion)
  {
    FilterSkips(a, bad, b, (m: MembershipReference) => m.IsCurrentlyValid(now));
  }

  // ----- what hints can do

  predicate IsMoreSpecific(hint: Option<string>, than: Option<string>) {
    than.Some? ==> hint == than
  }

  /** More hints on a successful request keep the membership or refuse; they never lead to another one. */
  lemma HintsOnlyNarrow(
      request: ResolveRequest, hinted: ResolveRequest, identity: Identity, ms: Memberships, now: Time, ttl: Time,
      contextId: string, policyVersion: string)
    requires IsMoreSpecific(hinted.requestedTenantId, request.requestedTenantId)
    requires IsMoreSpecific(hinted.requestedOrganizationId, request.requestedOrganizationId)
    requires Resolve(request, identity, ms, now, ttl, contextId, policyVersion).Ok?
    ensures var c := Resolve(request, identity, ms, now, ttl, contextId, policyVersion).value;
            var r := Resolve(hinted, identity, ms, now, ttl, contextId, policyVersion);
            || (r.Err? && r.error.NoMatchingMembership?)
            || (r.Ok? && r.value.membershipId == c.membershipId && r.value.tenantId == c.tenantId
                && r.value.organizationId == c.organizationId && r.value.roles == c.roles)
  {
    OutcomeIsCounting(request, identity, ms, now, ttl, contextId, policyVersion);
    OutcomeIsCounting(hinted, identity, ms, now, ttl, contextId, policyVersion);
    var matches := MatchesIn(ms, now, request.requestedTenantId, request.requestedOrganizationId);
    var narrowed := MatchesIn(ms, now, hinted.requestedTenantId, hinted.requestedOrganizationId);
    var i :| matches == {i};
    assert forall k :: k in narrowed ==> k in matches;
    assert narrowed == {} || narrowed == {i} by {
      if i in narrowed {
        assert narrowed == {i};
      } else {
        assert narrowed == {};
      }
    }
  }

  /** No other valid membership is in the same place: tenant and organization, or the tenant when it names none. */
  ghost predicate IsAloneInItsPlace(ms: Memberships, now: Time, i: nat)
    requires i < |ms|
  {
    forall j: nat :: j < |ms| && j != i && IsInWindow(ms[j], now) && ms[j].tenantId == ms[i].tenantId
      ==> ms[i].organizationId.Some? && ms[j].organizationId != ms[i].organizationId
  }

  /**
    Which memberships a caller can reach: some hints get a context from entry i exactly when it is alone in its
    place. A membership without an organization cannot be reached beside any other in its tenant.
   */
  lemma SelectableIff(
      request: ResolveRequest, identity: Identity, ms: Memberships, now: Time, ttl: Time, contextId: string,
      policyVersion: string,
      i: nat)
    requires i < |ms| && IsInWindow(ms[i], now)
    ensures (exists tenantId, organizationId ::
               Resolve(WithHints(request, tenantId, organizationId), identity, ms, now, ttl, contextId, policyVersion)
               == Ok(ContextOf(request, identity, ms[i], now, ttl, contextId, policyVersion)))
            <==> IsAloneInItsPlace(ms, now, i)
  {
    if IsAloneInItsPlace(ms, now, i) {
      var hinted := WithHints(request, Some(ms[i].tenantId), ms[i].organizationId);
      assert MatchesIn(ms, now, hinted.requestedTenantId, hinted.requestedOrganizationId) == {i};
      OutcomeIsCounting(hinted, identity, ms, now, ttl, contextId, policyVersion);
    }
    if tenantId, organizationId :|
      Resolve(WithHints(request, tenantId, organizationId), identity, ms, now, ttl, contextId, policyVersion)
      == Ok(ContextOf(request, identity, ms[i], now, ttl, contextId, policyVersion))
    {
      var k := IssuedFromMembership(WithHints(request, tenantId, organizationId), identity, ms, now, ttl, contextId,
                                    policyVersion);
      OutcomeIsCounting(WithHints(request, tenantId, organizationId), identity, ms, now, ttl, contextId, policyVersion);
      assert k in MatchesIn(ms, now, tenantId, organizationId) && i in MatchesIn(ms, now, tenantId, organizationId);
      SingleMatchIff(ms, now, i);
    }
  }

  function WithHints(
      request: ResolveRequest, tenantId: Option<string>, organizationId: Option<string>): ResolveRequest
  {
    request.(requestedTenantId := tenantId, requestedOrganizationId := organizationId)
  }

  lemma SingleMatchIff(ms: Memberships, now: Time, i: nat)
    requires i < |ms| && IsInWindow(ms[i], now)
    ensures (exists tenantId, organizationId :: MatchesIn(ms, now, tenantId, organizationId) == {i})
            <==> IsAloneInItsPlace(ms, now, i)
  {
    var m := ms[i];
    if IsAloneInItsPlace(ms, now, i) {
      assert MatchesIn(ms, now, Some(m.tenantId), m.organizationId) == {i};
    }
    if tenantId, organizationId :| MatchesIn(ms, now, tenantId, organizationId) == {i} {
      assert i in MatchesIn(ms, now, tenantId, organizationId);
      forall j: nat | j < |ms| && j != i && IsInWindow(ms[j], now) && ms[j].tenantId == m.tenantId
        ensures m.organizationId.Some? && ms[j].organizationId != m.organizationId
      {
        assert j !in MatchesIn(ms, now, tenantId, organizationId);
      }
    }
  }
}
