/**
  The signing-key cache of the identity provider adapter, while the published key set rotates. A fetch
  notes the time before it goes out and writes the cache when its answer is back, so concurrent fetches
  may write in any order. Every key served is nevertheless from a list published recently enough.
 */
module JwksCache {
  import opened Prelude

  /** A key of a key set (section 4 of RFC 7517); `kid` is section 4.5. */
  datatype JsonWebKey = JsonWebKey(kid: Option<string>, alg: Option<string>, material: string)

  type KeySet = seq<JsonWebKey>

  datatype CachedJwks = CachedJwks(keys: KeySet, fetchedAt: Time)

  function FirstWithKid(keys: KeySet, kid: string): Option<JsonWebKey> {
    if keys == [] then None
    else if keys[0].kid == Some(kid) then Some(keys[0])
    else FirstWithKid(keys[1..], kid)
  }

  ghost predicate IsFirstAt(keys: KeySet, kid: string, i: nat) {
    i < |keys| && keys[i].kid == Some(kid) && forall j :: 0 <= j < i ==> keys[j].kid != Some(kid)
  }

  /** The first key with this id, and none exactly when there is none. */
  lemma {:induction false} FirstWithKidIs(keys: KeySet, kid: string)
    ensures FirstWithKid(keys, kid) == None <==> forall k :: k in keys ==> k.kid != Some(kid)
    ensures FirstWithKid(keys, kid).Some? ==>
              exists i: nat :: IsFirstAt(keys, kid, i) && FirstWithKid(keys, kid) == Some(keys[i])
  {
    if keys != [] {
      assert keys == [keys[0]] + keys[1..];
      if keys[0].kid == Some(kid) {
        assert IsFirstAt(keys, kid, 0);
      } else {
        FirstWithKidIs(keys[1..], kid);
        if FirstWithKid(keys, kid).Some? {
          var rest := keys[1..];
          var i: nat :| IsFirstAt(rest, kid, i) && FirstWithKid(keys, kid) == Some(rest[i]);
          assert forall j :: 0 < j < |keys| ==> keys[j] == rest[j - 1];
          assert IsFirstAt(keys, kid, i + 1);
        }
      }
    }
  }

  // ----- one lookup, between its awaits

  /** What a lookup does next: it has its answer, or it fetches, on demand or because the key was not there. */
  datatype Progress = Found(key: JsonWebKey) | Missing | Fetch(forced: bool)

  function FreshKeys(cache: Option<CachedJwks>, ttl: Time, now: Time): Option<KeySet> {
    if cache.Some? && now - cache.value.fetchedAt < ttl then Some(cache.value.keys) else None
  }

  function BeginLookup(cache: Option<CachedJwks>, ttl: Time, kid: string, now: Time): Progress {
    match FreshKeys(cache, ttl, now)
    case None => Fetch(false)
    case Some(keys) =>
      match FirstWithKid(keys, kid)
      case Some(key) => Found(key)
      case None => Fetch(true)
  }

  function AfterFetch(keys: KeySet, kid: string, forced: bool): Progress {
    match FirstWithKid(keys, kid)
    case Some(key) => Found(key)
    case None => if forced then Missing else Fetch(true)
  }

  class KeycloakIdentityProvider {
    const jwksCacheTtl: Time
    var jwksCache: Option<CachedJwks>

    constructor (jwksCacheTtl: Time)
      ensures this.jwksCacheTtl == jwksCacheTtl && jwksCache == None
    {
      this.jwksCacheTtl := jwksCacheTtl;
      jwksCache := None;
    }

    method FindKey(keys: KeySet, kid: string) returns (r: Option<JsonWebKey>)
      ensures r == FirstWithKid(keys, kid)
    {
      for i := 0 to |keys|
        invariant FirstWithKid(keys, kid) == FirstWithKid(keys[i..], kid)
      {
        if keys[i].kid == Some(kid) {
          return Some(keys[i]);
        }
        assert keys[i..][1..] == keys[i + 1..];
      }
      return None;
    }

    /**
      From the call to its first await, if it needs one: a fresh cache answers, or, if it has not the key, makes
      the one fetch forced; without one the first fetch is not.
     */
    method Begin(kid: string, now: Time) returns (p: Progress)
      ensures p == BeginLookup(jwksCache, jwksCacheTtl, kid, now)
      ensures var usable := jwksCache.Some? && now - jwksCache.value.fetchedAt < jwksCacheTtl;
              && (p.Found? <==> usable && FirstWithKid(jwksCache.value.keys, kid).Some?)
              && (p.Found? ==> Some(p.key) == FirstWithKid(jwksCache.value.keys, kid))
              && (p == Fetch(true) <==> usable && FirstWithKid(jwksCache.value.keys, kid) == None)
              && (p == Fetch(false) <==> !usable)
    {
      if jwksCache.Some? && now - jwksCache.value.fetchedAt < jwksCacheTtl {
        var found := FindKey(jwksCache.value.keys, kid);
        if found.Some? {
          return Found(found.value);
        }
        return Fetch(true);
      }
      return Fetch(false);
    }

    /** The answer `keys` to a fetch that noted the time `fetchStarted` before it went out. */
    method Resume(kid: string, forced: bool, fetchStarted: Time, keys: KeySet) returns (p: Progress)
      modifies this
      ensures jwksCache == Some(CachedJwks(keys, fetchStarted))
      ensures p == AfterFetch(keys, kid, forced)
      ensures (p.Found? <==> FirstWithKid(keys, kid).Some?) && (p.Found? ==> Some(p.key) == FirstWithKid(keys, kid))
      ensures FirstWithKid(keys, kid) == None ==> p == if forced then Missing else Fetch(true)
    {
      jwksCache := Some(CachedJwks(keys, fetchStarted));
      var found := FindKey(keys, kid);
      if found.Some? {
        return Found(found.value);
      }
      if forced {
        return Missing;
      }
      return Fetch(true);
    }
  }

  // ----- any number of lookups, interleaved

  datatype Phase =
    | Fetching(forced: bool, fetchStarted: Time)                            // the request is under way
    | Fetched(forced: bool, fetchStarted: Time, keys: KeySet, asOf: Time)   // answered with the list as of `asOf`
    | Resolved(result: Option<JsonWebKey>, fetchStarted: Time, asOf: Time, endedAt: Time)
    | Raised                                                                // the fetch failed

  /**
    `fetches` counts the requests sent; `warm` records whether the cache was fresh when the call began, and `seen`
    the lists it has looked at, in order. No step reads them.
   */
  datatype Lookup = Lookup(kid: string, startedAt: Time, phase: Phase, fetches: nat, warm: bool, seen: seq<KeySet>)

  /** `cachedAsOf` records when the cached list was the published one; no step reads it. */
  datatype System = System(clock: Time, cache: Option<CachedJwks>, cachedAsOf: Time, lookups: seq<Lookup>)

  datatype Action =
    | Tick(to: Time)
    | Call(kid: string)
    | Serve(i: nat)     // the server answers with what it publishes now
    | Return(i: nat)    // the lookup resumes with the answer
    | Fail(i: nat)

  /** What the server publishes at each instant. */
  type Publication = Time -> KeySet

  function AsPhase(p: Progress, clock: Time, fetchStarted: Time, asOf: Time): Phase {
    match p
    case Found(key) => Resolved(Some(key), fetchStarted, asOf, clock)
    case Missing => Resolved(None, fetchStarted, asOf, clock)
    case Fetch(forced) => Fetching(forced, clock)
  }

  function Fetches(p: Progress): nat {
    if p.Fetch? then 1 else 0
  }

  function Called(s: System, ttl: Time, kid: string): Lookup {
    var p := BeginLookup(s.cache, ttl, kid, s.clock);
    var usable := FreshKeys(s.cache, ttl, s.clock);
    Lookup(kid, s.clock,
           AsPhase(p, s.clock, if s.cache.Some? then s.cache.value.fetchedAt else s.clock, s.cachedAsOf), Fetches(p),
           usable.Some?, if usable.Some? then [usable.value] else [])
  }

  function Returned(s: System, l: Lookup): Lookup
    requires l.phase.Fetched?
  {
    var p := AfterFetch(l.phase.keys, l.kid, l.phase.forced);
    l.(phase := AsPhase(p, s.clock, l.phase.fetchStarted, l.phase.asOf), fetches := l.fetches + Fetches(p),
       seen := l.seen + [l.phase.keys])
  }

  /** An action that is not possible in a state changes nothing. */
  function Next(published: Publication, ttl: Time, s: System, a: Action): System {
    match a
    case Tick(to) => if s.clock <= to then s.(clock := to) else s
    case Call(kid) => s.(lookups := s.lookups + [Called(s, ttl, kid)])
    case Serve(i) =>
      if i < |s.lookups| && s.lookups[i].phase.Fetching? then
        var l := s.lookups[i];
        s.(lookups :=
          s.lookups[i := l.(phase := Fetched(l.phase.forced, l.phase.fetchStarted, published(s.clock), s.clock))])
      else s
    case Return(i) =>
      if i < |s.lookups| && s.lookups[i].phase.Fetched? then
        var l := s.lookups[i];
        s.(cache := Some(CachedJwks(l.phase.keys, l.phase.fetchStarted)), cachedAsOf := l.phase.asOf,
           lookups := s.lookups[i := Returned(s, l)])
      else s
    case Fail(i) =>
      if i < |s.lookups| && (s.lookups[i].phase.Fetching? || s.lookups[i].phase.Fetched?) then
        s.(lookups := s.lookups[i := s.lookups[i].(phase := Raised)])
      else s
  }

  function Initial(clock: Time): System {
    System(clock, None, clock, [])
  }

  function After(published: Publication, ttl: Time, clock: Time, actions: seq<Action>): System {
    if actions == [] then Initial(clock)
    else Next(published, ttl, After(published, ttl, clock, actions[..|actions| - 1]), actions[|actions| - 1])
  }

  ghost predicate IsReachable(published: Publication, ttl: Time, s: System) {
    exists clock, actions :: s == After(published, ttl, clock, actions)
  }

  // ----- how many lists a call looks at

  /** All lists it has looked at, up to the last, lack the key. */
  ghost predicate LackKey(lists: seq<KeySet>, kid: string) {
    forall k :: 0 <= k < |lists| ==> FirstWithKid(lists[k], kid) == None
  }

  /**
    A call looks at one list, the cached one if it is fresh and else one it fetches, and at a second, fetched by
    force, exactly if the first lacks the key. What the last one says is the answer.
   */
  ghost predicate LooksOn(l: Lookup) {
    var fetched := |l.seen| - if l.warm then 1 else 0;
    match l.phase
    case Fetching(forced, _) =>
      LackKey(l.seen, l.kid) && fetched >= 0 && l.fetches == fetched + 1 && |l.seen| == if forced then 1 else 0
    case Fetched(forced, _, _, _) =>
      LackKey(l.seen, l.kid) && fetched >= 0 && l.fetches == fetched + 1 && |l.seen| == if forced then 1 else 0
    case Resolved(result, _, _, _) =>
      && 1 <= |l.seen| <= 2 && l.fetches == fetched
      && LackKey(l.seen[..|l.seen| - 1], l.kid) && result == FirstWithKid(l.seen[|l.seen| - 1], l.kid)
      && (result == None ==> |l.seen| == 2)
    case Raised => true
  }

  lemma NextLooksOn(published: Publication, ttl: Time, s: System, a: Action)
    requires forall i :: 0 <= i < |s.lookups| ==> LooksOn(s.lookups[i])
    ensures forall i :: 0 <= i < |Next(published, ttl, s, a).lookups| ==> LooksOn(Next(published, ttl, s, a).lookups[i])
  {
    match a
    case Return(i) =>
      if i < |s.lookups| && s.lookups[i].phase.Fetched? {
        ReturnedLooksOn(s, s.lookups[i]);
      }
    case _ =>
  }

  lemma ReturnedLooksOn(s: System, l: Lookup)
    requires l.phase.Fetched? && LooksOn(l)
    ensures LooksOn(Returned(s, l))
  {
    assert (l.seen + [l.phase.keys])[..|l.seen|] == l.seen;
  }

  lemma {:induction false} AllLookOn(published: Publication, ttl: Time, clock: Time, actions: seq<Action>, i: nat)
    requires i < |After(published, ttl, clock, actions).lookups|
    ensures LooksOn(After(published, ttl, clock, actions).lookups[i])
  {
    if actions != [] {
      var before := actions[..|actions| - 1];
      forall j: nat | j < |After(published, ttl, clock, before).lookups|
        ensures LooksOn(After(published, ttl, clock, before).lookups[j])
      {
        AllLookOn(published, ttl, clock, before, j);
      }
      NextLooksOn(published, ttl, After(published, ttl, clock, before), actions[|actions| - 1]);
    }
  }

  // ----- the invariant

  /** The cached list was published at an instant not before the time noted for it. */
  ghost predicate CacheOk(published: Publication, s: System) {
    s.cache.Some? ==>
      s.cache.value.fetchedAt <= s.cachedAsOf <= s.clock && s.cache.value.keys == published(s.cachedAsOf)
  }

  ghost predicate LookupOk(published: Publication, ttl: Time, clock: Time, l: Lookup) {
    match l.phase
    case Fetching(forced, fetchStarted) =>
      l.startedAt <= fetchStarted <= clock && 1 <= l.fetches <= (if forced then 2 else 1)
    case Fetched(forced, fetchStarted, keys, asOf) =>
      l.startedAt <= fetchStarted <= asOf <= clock && keys == published(asOf)
      && 1 <= l.fetches <= (if forced then 2 else 1)
    case Resolved(result, fetchStarted, asOf, endedAt) =>
      && fetchStarted <= asOf <= endedAt <= clock && l.startedAt <= endedAt
      && result == FirstWithKid(published(asOf), l.kid)
      && (l.startedAt <= fetchStarted || (l.startedAt - ttl < fetchStarted && result.Some?))
      && l.fetches <= 2 && (l.fetches == 0 ==> result.Some?)
    case Raised => l.fetches <= 2
  }

  ghost predicate Inv(published: Publication, ttl: Time, s: System) {
    CacheOk(published, s) && forall i :: 0 <= i < |s.lookups| ==> LookupOk(published, ttl, s.clock, s.lookups[i])
  }

  lemma CalledOk(published: Publication, ttl: Time, s: System, kid: string)
    requires CacheOk(published, s)
    ensures LookupOk(published, ttl, s.clock, Called(s, ttl, kid))
  {
  }

  lemma ReturnedOk(published: Publication, ttl: Time, s: System, l: Lookup)
    requires l.phase.Fetched? && LookupOk(published, ttl, s.clock, l)
    ensures LookupOk(published, ttl, s.clock, Returned(s, l))
  {
  }

  lemma NextKeepsInv(published: Publication, ttl: Time, s: System, a: Action)
    requires Inv(published, ttl, s)
    ensures Inv(published, ttl, Next(published, ttl, s, a))
  {
    match a
    case Call(kid) => CalledOk(published, ttl, s, kid);
    case Return(i) =>
      if i < |s.lookups| && s.lookups[i].phase.Fetched? {
        ReturnedOk(published, ttl, s, s.lookups[i]);
      }
    case _ =>
  }

  lemma {:induction false} InvAlways(published: Publication, ttl: Time, clock: Time, actions: seq<Action>)
    ensures Inv(published, ttl, After(published, ttl, clock, actions))
  {
    if actions != [] {
      InvAlways(published, ttl, clock, actions[..|actions| - 1]);
      NextKeepsInv(published, ttl, After(published, ttl, clock, actions[..|actions| - 1]), actions[|actions| - 1]);
    }
  }

  lemma ReachableIsOk(published: Publication, ttl: Time, s: System)
    requires IsReachable(published, ttl, s)
    ensures Inv(published, ttl, s)
  {
    var clock, actions :| s == After(published, ttl, clock, actions);
    InvAlways(published, ttl, clock, actions);
  }

  // ----- what a lookup may rely on

  ghost predicate Ended(s: System, i: nat) {
    i < |s.lookups| && s.lookups[i].phase.Resolved?
  }

  /** The answer is what the list published at some instant `p` says. */
  ghost predicate IsAnswerAsOf(published: Publication, l: Lookup, p: Time)
    requires l.phase.Resolved?
  {
    l.phase.result == FirstWithKid(published(p), l.kid)
  }

  /** However fetches overlap and overwrite each other, the cached list was published between its noted time and now. */
  lemma CacheIsAPublishedList(published: Publication, ttl: Time, s: System)
    requires IsReachable(published, ttl, s) && s.cache.Some?
    ensures exists p :: s.cache.value.fetchedAt <= p <= s.clock && s.cache.value.keys == published(p)
  {
    ReachableIsOk(published, ttl, s);
    assert s.cache.value.fetchedAt <= s.cachedAsOf <= s.clock && s.cache.value.keys == published(s.cachedAsOf);
  }

  /** Every answer is that of a list published less than one TTL before the call, or during it. */
  lemma AnswersAreFresh(published: Publication, ttl: Time, s: System, i: nat)
    requires IsReachable(published, ttl, s) && Ended(s, i)
    ensures var l := s.lookups[i];
            exists p :: IsAnswerAsOf(published, l, p) && p <= l.phase.endedAt
                        && (l.startedAt <= p || l.startedAt - ttl < p)
  {
    ReachableIsOk(published, ttl, s);
    var l := s.lookups[i];
    assert IsAnswerAsOf(published, l, l.phase.asOf);
  }

  /** A missing key was missing at an instant during the call's last fetch, which began after the call did. */
  lemma MissingMeansAbsent(published: Publication, ttl: Time, s: System, i: nat)
    requires IsReachable(published, ttl, s) && Ended(s, i) && s.lookups[i].phase.result == None
    ensures var l := s.lookups[i];
            exists p :: IsAnswerAsOf(published, l, p) && l.startedAt <= l.phase.fetchStarted <= p <= l.phase.endedAt
  {
    ReachableIsOk(published, ttl, s);
    var l := s.lookups[i];
    assert IsAnswerAsOf(published, l, l.phase.asOf);
  }

  /** A key that is published throughout the call is found. */
  lemma PublishedIsFound(published: Publication, ttl: Time, s: System, i: nat)
    requires IsReachable(published, ttl, s) && Ended(s, i)
    requires var l := s.lookups[i];
             forall p :: l.startedAt <= p <= l.phase.endedAt ==> FirstWithKid(published(p), l.kid).Some?
    ensures s.lookups[i].phase.result.Some?
  {
    if s.lookups[i].phase.result == None {
      MissingMeansAbsent(published, ttl, s, i);
    }
  }

  /** A key last published at `last` is not accepted any more by calls that begin one TTL later. */
  lemma WithdrawnIsRefused(published: Publication, ttl: Time, s: System, i: nat, last: Time)
    requires IsReachable(published, ttl, s) && Ended(s, i) && 0 < ttl
    requires forall p :: last < p ==> FirstWithKid(published(p), s.lookups[i].kid) == None
    requires last + ttl <= s.lookups[i].startedAt
    ensures s.lookups[i].phase.result == None
  {
    AnswersAreFresh(published, ttl, s, i);
  }

  /** That bound cannot be improved: for every TTL some call that begins an instant earlier accepts the key. */
  lemma WithdrawnMayBeAccepted(ttl: Time) returns (published: Publication, s: System)
    requires 0 < ttl
    ensures IsReachable(published, ttl, s) && Ended(s, 1)
    ensures forall p :: 0 < p ==> FirstWithKid(published(p), "a") == None
    ensures s.lookups[1].kid == "a" && s.lookups[1].startedAt == 0 + ttl - 1 && s.lookups[1].phase.result.Some?
  {
    var a := JsonWebKey(Some("a"), None, "A");
    published := (t: Time) => if t <= 0 then [a] else [];
    s := Initial(0);
    assert s == After(published, ttl, 0, []);
    s := Take(published, ttl, s, Call("a"));
    s := Take(published, ttl, s, Serve(0));
    s := Take(published, ttl, s, Return(0));
    s := Take(published, ttl, s, Tick(ttl - 1));
    var none: seq<KeySet> := [];
    assert none + [[a]] == [[a]];
    assert s == System(ttl - 1, Some(CachedJwks([a], 0)), 0,
                       [Lookup("a", 0, Resolved(Some(a), 0, 0, 0), 1, false, [[a]])]);
    s := Take(published, ttl, s, Call("a"));
  }

  /** A call fetches at most twice; without a fetch it has found the key. */
  lemma AtMostTwoFetches(published: Publication, ttl: Time, s: System, i: nat)
    requires IsReachable(published, ttl, s) && i < |s.lookups|
    ensures s.lookups[i].fetches <= 2
    ensures Ended(s, i) && s.lookups[i].fetches == 0 ==> s.lookups[i].phase.result.Some?
  {
    ReachableIsOk(published, ttl, s);
    assert LookupOk(published, ttl, s.clock, s.lookups[i]);
  }

  /**
    Exactly how many: a call that finds the cache fresh sends no request if the cached list has the key, and
    otherwise one; a call that does not sends one, and a second exactly if the first answer lacks the key.
   */
  lemma FetchesAre(published: Publication, ttl: Time, s: System, i: nat)
    requires IsReachable(published, ttl, s) && Ended(s, i)
    ensures var l := s.lookups[i];
            && 1 <= |l.seen| <= 2
            && l.fetches == |l.seen| - (if l.warm then 1 else 0)
            && (|l.seen| == 2 <==> FirstWithKid(l.seen[0], l.kid) == None)
            && l.phase.result == FirstWithKid(l.seen[|l.seen| - 1], l.kid)
  {
    var clock, actions :| s == After(published, ttl, clock, actions);
    AllLookOn(published, ttl, clock, actions, i);
    var l := s.lookups[i];
    assert |l.seen| == 2 ==> l.seen[..1][0] == l.seen[0];
  }

  /** While it is under way, too, a call that found the cache fresh has sent one request, and any call one or two. */
  lemma OneRefetchIfWarm(published: Publication, ttl: Time, s: System, i: nat)
    requires IsReachable(published, ttl, s) && i < |s.lookups| && !s.lookups[i].phase.Raised?
    ensures var l := s.lookups[i];
            && (l.warm ==> |l.seen| >= 1 && l.fetches == if FirstWithKid(l.seen[0], l.kid).Some? then 0 else 1)
            && (!l.warm ==> 1 <= l.fetches <= 2)
            && (!l.warm && l.phase.Resolved? && l.phase.result == None ==> l.fetches == 2)
  {
    var clock, actions :| s == After(published, ttl, clock, actions);
    AllLookOn(published, ttl, clock, actions, i);
    var l := s.lookups[i];
    assert |l.seen| == 2 ==> l.seen[..1][0] == l.seen[0];
  }

  /**
    How a call begins. It goes without a fetch exactly when the cache is fresh and has the key, and is then answered
    at once; otherwise its first request goes out now, and is the forced one exactly when the cache is fresh.
   */
  lemma NoFetchIff(ttl: Time, s: System, kid: string)
    ensures var l := Called(s, ttl, kid);
            && (l.warm <==> s.cache.Some? && s.clock - s.cache.value.fetchedAt < ttl)
            && l.seen == (if l.warm then [s.cache.value.keys] else [])
            && (l.fetches == 0 <==> l.warm && FirstWithKid(s.cache.value.keys, kid).Some?)
            && (l.fetches == 0 ==>
                && l.phase.Resolved? && l.phase.endedAt == s.clock
                && l.phase.result == FirstWithKid(s.cache.value.keys, kid))
            && (l.fetches != 0 ==> l.fetches == 1 && l.phase == Fetching(l.warm, s.clock))
  {
  }

  /** How it goes on: an answer with the key ends it, and so does the forced fetch; else that one goes out now. */
  lemma AnswerIsUsedSo(s: System, l: Lookup)
    requires l.phase.Fetched?
    ensures var next, found := Returned(s, l), FirstWithKid(l.phase.keys, l.kid);
            && next.seen == l.seen + [l.phase.keys]
            && (found.Some? || l.phase.forced ==>
                  && next.fetches == l.fetches
                  && next.phase == Resolved(found, l.phase.fetchStarted, l.phase.asOf, s.clock))
            && (found == None && !l.phase.forced ==>
                  next.fetches == l.fetches + 1 && next.phase == Fetching(true, s.clock))
  {
  }

  /** Only an answer that comes back writes the cache, with its list and the time noted before its request. */
  lemma CacheIsWrittenBy(published: Publication, ttl: Time, s: System, a: Action)
    ensures Next(published, ttl, s, a).cache ==
            if a.Return? && a.i < |s.lookups| && s.lookups[a.i].phase.Fetched?
            then Some(CachedJwks(s.lookups[a.i].phase.keys, s.lookups[a.i].phase.fetchStarted))
            else s.cache
  {
  }

  // ----- the cache may go back in time: exactly when

  /** The state after more actions. */
  ghost function Continued(published: Publication, ttl: Time, s: System, actions: seq<Action>): System {
    if actions == [] then s
    else Next(published, ttl, Continued(published, ttl, s, actions[..|actions| - 1]), actions[|actions| - 1])
  }

  lemma ContinuedOnce(published: Publication, ttl: Time, s: System, actions: seq<Action>, a: Action)
    ensures Continued(published, ttl, s, actions + [a]) ==
            Next(published, ttl, Continued(published, ttl, s, actions), a)
  {
    assert (actions + [a])[..|actions|] == actions;
  }

  /** An answer that is under way, of a list that was published before the cached one was. */
  ghost predicate IsOlderAnswer(l: Lookup, cachedAsOf: Time) {
    l.phase.Fetched? && l.phase.asOf < cachedAsOf
  }

  /** Neither the cached list nor any that is under way was published before `c`. */
  ghost predicate NothingOlder(s: System, c: Time) {
    c <= s.cachedAsOf && c <= s.clock && forall i :: 0 <= i < |s.lookups| ==> !IsOlderAnswer(s.lookups[i], c)
  }

  lemma NothingOlderAfter(published: Publication, ttl: Time, s: System, a: Action, c: Time)
    requires NothingOlder(s, c)
    ensures NothingOlder(Next(published, ttl, s, a), c)
  {
  }

  lemma {:induction false} NothingOlderEver(published: Publication, ttl: Time, s: System, actions: seq<Action>, c: Time)
    requires NothingOlder(s, c)
    ensures NothingOlder(Continued(published, ttl, s, actions), c)
  {
    if actions != [] {
      var before := actions[..|actions| - 1];
      NothingOlderEver(published, ttl, s, before, c);
      NothingOlderAfter(published, ttl, Continued(published, ttl, s, before), actions[|actions| - 1], c);
    }
  }

  /**
    Exactly when the cache can go back to a list that was published earlier than the cached one: when the answer
    to some fetch, of such a list, is still under way. The noted times do not decide it: they may grow meanwhile.
   */
  lemma CacheCanGoBackIff(published: Publication, ttl: Time, s: System)
    requires IsReachable(published, ttl, s) && s.cache.Some?
    ensures (exists actions :: Continued(published, ttl, s, actions).cachedAsOf < s.cachedAsOf)
            <==> exists i :: 0 <= i < |s.lookups| && IsOlderAnswer(s.lookups[i], s.cachedAsOf)
  {
    ReachableIsOk(published, ttl, s);
    if i :| 0 <= i < |s.lookups| && IsOlderAnswer(s.lookups[i], s.cachedAsOf) {
      ContinuedOnce(published, ttl, s, [], Return(i));
      assert Continued(published, ttl, s, [] + [Return(i)]).cachedAsOf < s.cachedAsOf;
    } else {
      forall actions
        ensures s.cachedAsOf <= Continued(published, ttl, s, actions).cachedAsOf
      {
        NothingOlderEver(published, ttl, s, actions, s.cachedAsOf);
      }
    }
  }

  // ----- what that means for a withdrawn key

  ghost predicate IsHeld(keys: KeySet, kid: string) {
    FirstWithKid(keys, kid).Some?
  }

  /** The cache holds the key, and would still be used now. */
  ghost predicate CacheServes(ttl: Time, s: System, kid: string) {
    s.cache.Some? && s.clock - s.cache.value.fetchedAt < ttl && IsHeld(s.cache.value.keys, kid)
  }

  /** So would the cache be that this answer is going to write. */
  ghost predicate AnswerServes(ttl: Time, s: System, l: Lookup, kid: string) {
    l.phase.Fetched? && s.clock - l.phase.fetchStarted < ttl && IsHeld(l.phase.keys, kid)
  }

  /** Nothing can serve the key any more, and no lookup from place `n` on has it. */
  ghost predicate IsGone(ttl: Time, s: System, kid: string, n: nat) {
    && n <= |s.lookups| && !CacheServes(ttl, s, kid)
    && (forall i :: 0 <= i < |s.lookups| ==> !AnswerServes(ttl, s, s.lookups[i], kid))
    && (forall i :: n <= i < |s.lookups| ==> HasNot(s.lookups[i], kid))
  }

  ghost predicate HasNot(l: Lookup, kid: string) {
    && (l.phase.Fetched? ==> !IsHeld(l.phase.keys, kid))
    && (l.phase.Resolved? && l.kid == kid ==> l.phase.result == None)
  }

  /** The key is not published at `from` or later. */
  ghost predicate IsWithdrawn(published: Publication, kid: string, from: Time) {
    forall p :: from <= p ==> FirstWithKid(published(p), kid) == None
  }

  lemma GoneAfter(published: Publication, ttl: Time, s: System, a: Action, kid: string, n: nat)
    requires IsGone(ttl, s, kid, n) && IsWithdrawn(published, kid, s.clock)
    ensures var t := Next(published, ttl, s, a);
            IsGone(ttl, t, kid, n) && s.clock <= t.clock && |s.lookups| <= |t.lookups|
  {
    var t := Next(published, ttl, s, a);
    assert a.Serve? ==> !IsHeld(published(s.clock), kid);
    forall i | n <= i < |t.lookups|
      ensures HasNot(t.lookups[i], kid)
    {
      if i < |s.lookups| {
        assert HasNot(s.lookups[i], kid);
      }
    }
    forall i | 0 <= i < |t.lookups|
      ensures !AnswerServes(ttl, t, t.lookups[i], kid)
    {
      if i < |s.lookups| {
        assert !AnswerServes(ttl, s, s.lookups[i], kid);
      }
    }
  }

  lemma {:induction false} GoneForEver(
      published: Publication, ttl: Time, s: System, actions: seq<Action>, kid: string, n: nat)
    requires IsGone(ttl, s, kid, n) && IsWithdrawn(published, kid, s.clock)
    ensures var t := Continued(published, ttl, s, actions);
            IsGone(ttl, t, kid, n) && s.clock <= t.clock && |s.lookups| <= |t.lookups|
  {
    if actions != [] {
      var before := actions[..|actions| - 1];
      GoneForEver(published, ttl, s, before, kid, n);
      GoneAfter(published, ttl, Continued(published, ttl, s, before), actions[|actions| - 1], kid, n);
    }
  }

  /** In some continuation a call for the key that begins from now on is answered with a key. */
  ghost predicate CanBeAccepted(published: Publication, ttl: Time, s: System, kid: string) {
    exists actions, i: nat :: IsNewAcceptance(s, Continued(published, ttl, s, actions), kid, i)
  }

  ghost predicate IsNewAcceptance(s: System, t: System, kid: string, i: nat) {
    |s.lookups| <= i && Ended(t, i) && t.lookups[i].kid == kid && t.lookups[i].phase.result.Some?
  }

  lemma GoneIsNotAccepted(ttl: Time, s: System, t: System, kid: string, i: nat)
    requires IsGone(ttl, t, kid, |s.lookups|)
    ensures !IsNewAcceptance(s, t, kid, i)
  {
    if |s.lookups| <= i < |t.lookups| {
      assert HasNot(t.lookups[i], kid);
    }
  }

  lemma CacheIsUsed(published: Publication, ttl: Time, s: System, kid: string)
    requires CacheServes(ttl, s, kid)
    ensures CanBeAccepted(published, ttl, s, kid)
  {
    var actions := [] + [Call(kid)];
    ContinuedOnce(published, ttl, s, [], Call(kid));
    assert IsNewAcceptance(s, Continued(published, ttl, s, actions), kid, |s.lookups|);
  }

  lemma AnswerIsUsed(published: Publication, ttl: Time, s: System, kid: string, i: nat)
    requires i < |s.lookups| && AnswerServes(ttl, s, s.lookups[i], kid)
    ensures CanBeAccepted(published, ttl, s, kid)
  {
    var first := [] + [Return(i)];
    var actions := first + [Call(kid)];
    ContinuedOnce(published, ttl, s, [], Return(i));
    ContinuedOnce(published, ttl, s, first, Call(kid));
    assert IsNewAcceptance(s, Continued(published, ttl, s, actions), kid, |s.lookups|);
  }

  lemma NothingServes(published: Publication, ttl: Time, s: System, kid: string)
    requires IsGone(ttl, s, kid, |s.lookups|) && IsWithdrawn(published, kid, s.clock)
    ensures !CanBeAccepted(published, ttl, s, kid)
  {
    if actions, i: nat :| IsNewAcceptance(s, Continued(published, ttl, s, actions), kid, i) {
      GoneForEver(published, ttl, s, actions, kid, |s.lookups|);
      GoneIsNotAccepted(ttl, s, Continued(published, ttl, s, actions), kid, i);
      assert false;
    }
  }

  /**
    Exactly when a call that begins after a key was withdrawn for good can still accept it: when the cache holds
    it and is fresh, or an answer under way holds it and will be fresh. So it may be, also after an earlier call
    was told that the key is not there.
   */
  lemma WithdrawnIsAcceptedIff(published: Publication, ttl: Time, s: System, kid: string)
    requires IsWithdrawn(published, kid, s.clock)
    ensures CanBeAccepted(published, ttl, s, kid) <==>
            || CacheServes(ttl, s, kid)
            || exists i :: 0 <= i < |s.lookups| && AnswerServes(ttl, s, s.lookups[i], kid)
  {
    if CacheServes(ttl, s, kid) {
      CacheIsUsed(published, ttl, s, kid);
    } else if i :| 0 <= i < |s.lookups| && AnswerServes(ttl, s, s.lookups[i], kid) {
      AnswerIsUsed(published, ttl, s, kid, i);
    } else {
      NothingServes(published, ttl, s, kid);
    }
  }

  /**
    An instance: a slow fetch overwrites the answer of a faster, later one, and a key that one call saw withdrawn,
    and that is never published again, is served to a call that begins afterwards.
   */
  lemma CacheMayGoBack()
    returns (published: Publication, ttl: Time, before: System, after: System)
    ensures IsReachable(published, ttl, before) && IsReachable(published, ttl, after)
    ensures IsWithdrawn(published, "a", 10) && 10 <= before.clock
    ensures before.cache.Some? && after.cache.Some? && after.cachedAsOf < before.cachedAsOf
    ensures before.clock <= after.clock && after.cache.value.fetchedAt < before.cache.value.fetchedAt
    ensures Ended(before, 1) && before.lookups[1].kid == "a" && before.lookups[1].phase.result == None
    ensures Ended(after, 2) && after.lookups[2].kid == "a" && after.lookups[2].phase.result.Some?
    ensures before.lookups[1].phase.endedAt <= after.lookups[2].startedAt
  {
    var a, b := JsonWebKey(Some("a"), None, "A"), JsonWebKey(Some("b"), None, "B");
    published := (t: Time) => if t < 10 then [a] else [b];
    assert FirstWithKid([b], "a") == None;
    ttl := 100;
    var s := SlowFetch(published, ttl, a);
    s := SeenWithdrawn(published, ttl, s, Lookup("a", 0, Fetched(false, 0, [a], 0), 1, false, []), b);
    before := s;
    after := Take(published, ttl, before, Return(0));
    after := Take(published, ttl, after, Call("a"));
  }

  /** Another: the time noted for the cached list grows while the list itself goes back to a withdrawn key. */
  lemma NotedTimeMayGrow(ttl: Time) returns (published: Publication, before: System, after: System)
    requires 5 < ttl
    ensures IsReachable(published, ttl, before) && IsReachable(published, ttl, after)
    ensures IsWithdrawn(published, "a", 5) && before.clock == after.clock == 5
    ensures before.cache.Some? && after.cache.Some? && after.cachedAsOf < before.cachedAsOf
    ensures before.cache.value.fetchedAt < after.cache.value.fetchedAt
    ensures !CacheServes(ttl, before, "a") && CacheServes(ttl, after, "a")
  {
    var a, b := JsonWebKey(Some("a"), None, "A"), JsonWebKey(Some("b"), None, "B");
    published := (t: Time) => if t < 5 then [a] else [b];
    assert FirstWithKid([b], "a") == None;
    before := TwoFetches(published, ttl, a);
    before := Take(published, ttl, before, Serve(0));
    before := Take(published, ttl, before, Return(0));
    after := Take(published, ttl, before, Return(1));
  }

  /** A request noted at 0 is not answered until 5; one noted at 1 was answered at once, and the answer is under way. */
  lemma TwoFetches(published: Publication, ttl: Time, a: JsonWebKey) returns (s: System)
    requires published(1) == [a]
    ensures IsReachable(published, ttl, s)
    ensures s ==
            System(5, None, 0, [Lookup("a", 0, Fetching(false, 0), 1, false, []),
                                Lookup("a", 1, Fetched(false, 1, [a], 1), 1, false, [])])
  {
    s := Initial(0);
    assert s == After(published, ttl, 0, []);
    s := Take(published, ttl, s, Call("a"));
    s := Take(published, ttl, s, Tick(1));
    s := Take(published, ttl, s, Call("a"));
    s := Take(published, ttl, s, Serve(1));
    s := Take(published, ttl, s, Tick(5));
  }

  /** A lookup whose answer is under way while time goes on to 10. */
  lemma SlowFetch(published: Publication, ttl: Time, a: JsonWebKey) returns (s: System)
    requires published(0) == [a]
    ensures IsReachable(published, ttl, s)
    ensures s == System(10, None, 0, [Lookup("a", 0, Fetched(false, 0, [a], 0), 1, false, [])])
  {
    s := Initial(0);
    assert s == After(published, ttl, 0, []);
    s := Take(published, ttl, s, Call("a"));
    s := Take(published, ttl, s, Serve(0));
    s := Take(published, ttl, s, Tick(10));
  }

  /** A second lookup that fetches twice and does not find the key. */
  lemma SeenWithdrawn(published: Publication, ttl: Time, s: System, slow: Lookup, b: JsonWebKey) returns (t: System)
    requires IsReachable(published, ttl, s) && s == System(10, None, 0, [slow])
    requires published(10) == [b] && b.kid == Some("b")
    ensures IsReachable(published, ttl, t)
    ensures t == System(10, Some(CachedJwks([b], 10)), 10,
                        [slow, Lookup("a", 10, Resolved(None, 10, 10, 10), 2, false, [[b], [b]])])
  {
    assert FirstWithKid([b], "a") == None;
    t := Take(published, ttl, s, Call("a"));
    t := Take(published, ttl, t, Serve(1));
    t := Take(published, ttl, t, Return(1));
    var none: seq<KeySet> := [];
    assert none + [[b]] == [[b]] && [[b]] + [[b]] == [[b], [b]];
    assert t == System(10, Some(CachedJwks([b], 10)), 10, [slow, Lookup("a", 10, Fetching(true, 10), 2, false, [[b]])]);
    t := Take(published, ttl, t, Serve(1));
    t := Take(published, ttl, t, Return(1));
  }

  lemma Take(published: Publication, ttl: Time, s: System, a: Action) returns (t: System)
    requires IsReachable(published, ttl, s)
    ensures t == Next(published, ttl, s, a) && IsReachable(published, ttl, t)
  {
    t := Next(published, ttl, s, a);
    var clock, actions :| s == After(published, ttl, clock, actions);
    assert (actions + [a])[..|actions|] == actions;
    assert t == After(published, ttl, clock, actions + [a]);
  }
}
