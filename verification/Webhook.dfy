/**
  Webhook verification: signature, envelope and replay check in this order, and how often one event
  can be accepted over any run.
 */
module Webhook {
  import opened Prelude
  import opened ReplayGuard

  // ----- signature

  datatype Algorithm = Sha256 | Sha1

  function AlgorithmName(a: Algorithm): string {
    match a
    case Sha256 => "sha256"
    case Sha1 => "sha1"
  }

  /** The HMAC of section 2 of RFC 2104 as a hexadecimal digest; nothing else is assumed about it. */
  type Hmac = (Algorithm, string, seq<bv8>) -> string

  predicate IsHex(s: string) {
    forall i :: 0 <= i < |s| ==> '0' <= s[i] <= '9' || 'a' <= s[i] <= 'f'
  }

  ghost predicate GivesHexDigests(hmac: Hmac) {
    forall a, secret, payload :: IsHex(hmac(a, secret, payload))
  }

  predicate IsAscii(s: string) {
    forall i :: 0 <= i < |s| ==> s[i] as int < 128
  }

  /** Comparing text that is not ASCII raises instead of answering. */
  datatype SignatureError = NonAsciiSignature

  function VerifySignature(hmac: Hmac, payload: seq<bv8>, provided: string, secret: string, algorithm: Algorithm)
    : Result<bool, SignatureError>
  {
    var prefix := AlgorithmName(algorithm) + "=";
    var candidate := if prefix <= provided then provided[|prefix|..] else provided;
    var expected := hmac(algorithm, secret, payload);
    if !IsAscii(candidate) || !IsAscii(expected) then Err(NonAsciiSignature)
    else Ok(expected == candidate)
  }

  lemma AsciiIff(s: string)
    ensures IsAscii(s) <==> forall c :: c in s ==> c as int < 128
  {
    if IsAscii(s) {
    } else {
      var i :| 0 <= i < |s| && s[i] as int >= 128;
      assert s[i] in s;
    }
  }

  /** Two texts are accepted, the digest alone and with the prefix of its algorithm; no other is. */
  lemma SignatureAcceptedIff(hmac: Hmac, payload: seq<bv8>, provided: string, secret: string, algorithm: Algorithm)
    requires GivesHexDigests(hmac)
    ensures var digest := hmac(algorithm, secret, payload);
            VerifySignature(hmac, payload, provided, secret, algorithm) == Ok(true)
            <==> provided in {digest, (if algorithm == Sha256 then "sha256=" else "sha1=") + digest}
    ensures VerifySignature(hmac, payload, provided, secret, algorithm).Err? <==>
            exists c :: c in provided && c as int >= 128
  {
    var digest := hmac(algorithm, secret, payload);
    var prefix := AlgorithmName(algorithm) + "=";
    assert "sha256" + "=" == "sha256=" && "sha1" + "=" == "sha1=";
    assert IsHex(digest);
    AsciiIff(provided);
    assert prefix[|prefix| - 1] == '=';
    assert |prefix| <= |digest| ==> digest[|prefix| - 1] != '=';
    if prefix <= provided {
      assert provided == prefix + provided[|prefix|..];
      assert IsAscii(prefix);
      assert IsAscii(provided) <==> IsAscii(provided[|prefix|..]);
    }
    assert (prefix + digest)[|prefix|..] == digest;
  }

  // ----- envelope

  datatype WebhookSecurityConfig = WebhookSecurityConfig(maxClockSkew: Time, maxPayloadBytes: int)

  const DEFAULT_CONFIG := WebhookSecurityConfig(300 * SECOND, 1_000_000)
  const DEFAULT_REPLAY_TTL: Time := 300 * SECOND

  datatype WebhookValidationResult = WebhookValidationResult(valid: bool, reason: string)

  const ACCEPTED := WebhookValidationResult(true, "valid")

  function ValidateEnvelope(eventTimestamp: Time, now: Time, payloadSize: int, config: WebhookSecurityConfig)
    : (r: WebhookValidationResult)
    ensures r.valid <==> now - config.maxClockSkew <= eventTimestamp <= now + config.maxClockSkew
                         && payloadSize <= config.maxPayloadBytes
  {
    var skew := Abs(now - eventTimestamp);
    if skew > config.maxClockSkew then WebhookValidationResult(false, "timestamp_out_of_tolerance")
    else if payloadSize > config.maxPayloadBytes then WebhookValidationResult(false, "payload_too_large")
    else WebhookValidationResult(true, "valid")
  }

  /** The defaults: five minutes of skew either way, and a million bytes, bounds included. */
  lemma DefaultLimits(eventTimestamp: Time, now: Time, payloadSize: int)
    ensures ValidateEnvelope(eventTimestamp, now, payloadSize, DEFAULT_CONFIG).valid <==>
            now - 300_000_000 <= eventTimestamp <= now + 300_000_000 && payloadSize <= 1_000_000
  {
  }

  /** With the default TTL a recorded key is refused for five minutes, and not at the end of the fifth. */
  lemma DefaultReplayWindow(store: Store, key: string, at: Time, later: Time)
    requires !Live(store, key, at)
    ensures Live(Recorded(store, key, DEFAULT_REPLAY_TTL, at), key, later) <==> later < at + 300_000_000
  {
  }

  // ----- the use case

  datatype VerifyWebhookRequest = VerifyWebhookRequest(
    payload: seq<bv8>,
    providedSignature: string,
    secret: string,
    eventTimestamp: Time,
    replayKey: string,
    algorithm: Algorithm)

  datatype Settings = Settings(hmac: Hmac, config: WebhookSecurityConfig, replayTtl: Time)

  /** The checks that come before the guard. `Ok(ACCEPTED)` sends the request on to the guard. */
  function Precheck(settings: Settings, request: VerifyWebhookRequest, now: Time)
    : Result<WebhookValidationResult, SignatureError>
  {
    match VerifySignature(settings.hmac, request.payload, request.providedSignature, request.secret, request.algorithm)
    case Err(e) => Err(e)
    case Ok(false) => Ok(WebhookValidationResult(false, "invalid_signature"))
    case Ok(true) => Ok(ValidateEnvelope(request.eventTimestamp, now, |request.payload|, settings.config))
  }

  predicate ReachesGuard(settings: Settings, request: VerifyWebhookRequest, now: Time) {
    var r := Precheck(settings, request, now);
    r.Ok? && r.value.valid
  }

  function GuardVerdict(first: bool): WebhookValidationResult {
    if first then ACCEPTED else WebhookValidationResult(false, "replay_detected")
  }

  function Outcome(settings: Settings, store: Store, request: VerifyWebhookRequest, now: Time, at: Time)
    : Result<WebhookValidationResult, SignatureError>
  {
    if ReachesGuard(settings, request, now) then Ok(GuardVerdict(!Live(store, request.replayKey, at)))
    else Precheck(settings, request, now)
  }

  /**
    Acceptance needs every check: signature, timestamp, size and a first occurrence. The first that fails is
    the reason.
   */
  lemma OutcomeIs(settings: Settings, store: Store, request: VerifyWebhookRequest, now: Time, at: Time)
    requires GivesHexDigests(settings.hmac)
    ensures var digest := settings.hmac(request.algorithm, request.secret, request.payload);
            var prefix := if request.algorithm == Sha256 then "sha256=" else "sha1=";
            var signed := request.providedSignature in {digest, prefix + digest};
            var ascii := forall c :: c in request.providedSignature ==> c as int < 128;
            var timely := now - settings.config.maxClockSkew <= request.eventTimestamp <= now +
              settings.config.maxClockSkew;
            var small := |request.payload| <= settings.config.maxPayloadBytes;
            var r := Outcome(settings, store, request, now, at);
            && (r.Err? <==> !ascii)
            && (r.Ok? && r.value.valid <==> signed && timely && small && !Live(store, request.replayKey, at))
            && (r.Ok? && r.value.reason == "valid" <==> r.Ok? && r.value.valid)
            && (r.Ok? && r.value.reason == "invalid_signature" <==> ascii && !signed)
            && (r.Ok? && r.value.reason == "timestamp_out_of_tolerance" <==> signed && !timely)
            && (r.Ok? && r.value.reason == "payload_too_large" <==> signed && timely && !small)
            && (r.Ok? && r.value.reason == "replay_detected" <==>
                signed && timely && small && Live(store, request.replayKey, at))
  {
    SignatureAcceptedIff(settings.hmac, request.payload, request.providedSignature, request.secret, request.algorithm);
  }

  class VerifyWebhook {
    const guard: RedisReplayGuard
    const settings: Settings

    constructor (guard: RedisReplayGuard, settings: Settings)
      requires settings.replayTtl >= SECOND
      ensures this.guard == guard && this.settings == settings
    {
      this.guard := guard;
      this.settings := settings;
    }

    /** `now` is the caller's reading of the clock, `at` the instant the guard is reached, if it is. */
    method Execute(request: VerifyWebhookRequest, now: Time, at: Time)
      returns (r: Result<WebhookValidationResult, SignatureError>)
      requires settings.replayTtl >= SECOND
      modifies guard
      ensures r == Outcome(settings, old(guard.store), request, now, at)
      ensures guard.store ==
              if ReachesGuard(settings, request, now)
              then Recorded(old(guard.store), request.replayKey, settings.replayTtl, at)
              else old(guard.store)
    {
      var signature := VerifySignature(settings.hmac, request.payload, request.providedSignature,
                                       request.secret, request.algorithm);
      if signature.Err? {
        return Err(signature.error);
      }
      if !signature.value {
        return Ok(WebhookValidationResult(false, "invalid_signature"));
      }
      var envelope := ValidateEnvelope(request.eventTimestamp, now, |request.payload|, settings.config);
      if !envelope.valid {
        return Ok(envelope);
      }
      var isFirstOccurrence := guard.CheckAndRecord(request.replayKey, settings.replayTtl, at);
      if !isFirstOccurrence {
        return Ok(WebhookValidationResult(false, "replay_detected"));
      }
      return Ok(WebhookValidationResult(true, "valid"));
    }
  }

  // ----- runs: executions in the order the guard served them, among other users of the same guard

  datatype Op =
    | Verify(
        request: VerifyWebhookRequest, now: Time, at: Time, outcome: Result<WebhookValidationResult, SignatureError>)
    | Other(call: GuardCall)
  {
    function Instant(): Time {
      if Verify? then at else call.at
    }

    predicate Accepted() {
      Verify? && outcome == Ok(ACCEPTED)
    }
  }

  ghost function CallOf(settings: Settings, op: Op): Option<GuardCall> {
    match op
    case Other(c) => Some(c)
    case Verify(request, now, at, _) =>
      if ReachesGuard(settings, request, now)
      then Some(GuardCall(0, request.replayKey, settings.replayTtl, at, op.Accepted()))
      else None
  }

  /** The guard's store after one more operation. */
  ghost function Stored(settings: Settings, store: Store, op: Op): Store {
    match CallOf(settings, op)
    case None => store
    case Some(c) => Recorded(store, c.key, c.ttl, c.at)
  }

  ghost function StoreOf(settings: Settings, ops: seq<Op>): Store {
    if ops == [] then map[] else Stored(settings, StoreOf(settings, ops[..|ops| - 1]), ops[|ops| - 1])
  }

  /** The operation's outcome is what the guard says with this store. */
  ghost predicate Fits(settings: Settings, store: Store, op: Op) {
    match op
    case Verify(request, now, at, outcome) => outcome == Outcome(settings, store, request, now, at)
    case Other(c) => c.ttl >= SECOND && (c.first <==> !Live(store, c.key, c.at))
  }

  ghost predicate IsTrace(settings: Settings, ops: seq<Op>) {
    ops == []
    || (IsTrace(settings, ops[..|ops| - 1]) && Fits(settings, StoreOf(settings, ops[..|ops| - 1]), ops[|ops| - 1]))
  }

  lemma OneMore(settings: Settings, ops: seq<Op>, op: Op)
    ensures IsTrace(settings, ops + [op]) <==> IsTrace(settings, ops) && Fits(settings, StoreOf(settings, ops), op)
    ensures StoreOf(settings, ops + [op]) == Stored(settings, StoreOf(settings, ops), op)
  {
    assert (ops + [op])[..|ops|] == ops;
  }

  /** What the guard sees of a run. */
  ghost function GuardCalls(settings: Settings, ops: seq<Op>): seq<GuardCall> {
    if ops == [] then []
    else
      var before := GuardCalls(settings, ops[..|ops| - 1]);
      match CallOf(settings, ops[|ops| - 1])
      case None => before
      case Some(c) => before + [c]
  }

  lemma {:induction false} TraceIsLog(settings: Settings, ops: seq<Op>)
    requires IsTrace(settings, ops) && settings.replayTtl >= SECOND
    ensures IsLog(GuardCalls(settings, ops)) && StoreAfter(GuardCalls(settings, ops)) == StoreOf(settings, ops)
  {
    if ops != [] {
      var before, op := ops[..|ops| - 1], ops[|ops| - 1];
      TraceIsLog(settings, before);
      if CallOf(settings, op).Some? {
        FittingCall(settings, StoreOf(settings, before), op);
        LogExtends(GuardCalls(settings, before), CallOf(settings, op).value);
      }
    }
  }

  lemma FittingCall(settings: Settings, store: Store, op: Op)
    requires Fits(settings, store, op) && settings.replayTtl >= SECOND && CallOf(settings, op).Some?
    ensures var c := CallOf(settings, op).value;
            c.ttl >= SECOND && (c.first <==> !Live(store, c.key, c.at))
  {
  }

  /** Where the guard's log has the call of operation `i`. */
  ghost function Position(settings: Settings, ops: seq<Op>, i: nat): nat
    requires i < |ops|
  {
    |GuardCalls(settings, ops[..i])|
  }

  /** The guard's log of the first operations is where its log of all begins. */
  lemma {:induction false} CallsGrow(settings: Settings, ops: seq<Op>, n: nat)
    requires n <= |ops|
    ensures GuardCalls(settings, ops[..n]) <= GuardCalls(settings, ops)
  {
    if n < |ops| {
      CallsGrow(settings, ops[..|ops| - 1], n);
      assert ops[..|ops| - 1][..n] == ops[..n];
    } else {
      assert ops[..n] == ops;
    }
  }

  lemma CallsOfOneMore(settings: Settings, ops: seq<Op>, op: Op)
    requires CallOf(settings, op).Some?
    ensures GuardCalls(settings, ops + [op]) == GuardCalls(settings, ops) + [CallOf(settings, op).value]
  {
    assert (ops + [op])[..|ops|] == ops;
  }

  lemma PositionHoldsCall(settings: Settings, ops: seq<Op>, i: nat)
    requires i < |ops| && CallOf(settings, ops[i]).Some?
    ensures Position(settings, ops, i) < |GuardCalls(settings, ops)|
    ensures GuardCalls(settings, ops)[Position(settings, ops, i)] == CallOf(settings, ops[i]).value
  {
    CallsGrow(settings, ops, i + 1);
    assert ops[..i + 1] == ops[..i] + [ops[i]];
    CallsOfOneMore(settings, ops[..i], ops[i]);
  }

  lemma PositionsIncrease(settings: Settings, ops: seq<Op>, i: nat, j: nat)
    requires i < j < |ops| && CallOf(settings, ops[i]).Some?
    ensures Position(settings, ops, i) < Position(settings, ops, j)
  {
    PositionHoldsCall(settings, ops[..j], i);
    assert ops[..j][..i] == ops[..i];
  }

  /** An acceptance of one event, at most `latency` after the clock reading its envelope was checked against. */
  predicate IsAcceptance(op: Op, key: string, timestamp: Time, latency: Time) {
    && op.Accepted()
    && op.request.replayKey == key && op.request.eventTimestamp == timestamp
    && 0 <= op.at - op.now <= latency
  }

  ghost predicate AreAcceptances(ops: seq<Op>, picks: seq<nat>, key: string, timestamp: Time, latency: Time) {
    && Increasing(picks)
    && forall a :: 0 <= a < |picks| ==> picks[a] < |ops| && IsAcceptance(ops[picks[a]], key, timestamp, latency)
  }

  /** How often one event can be accepted. */
  ghost function AcceptanceBound(settings: Settings, latency: nat): nat
    requires settings.replayTtl >= SECOND
  {
    HowMany(2 * settings.config.maxClockSkew + latency, settings.replayTtl)
  }

  lemma AcceptancesAreBounded(
      settings: Settings, ops: seq<Op>, picks: seq<nat>, key: string, timestamp: Time, latency: nat)
    requires IsTrace(settings, ops) && settings.replayTtl >= SECOND && settings.config.maxClockSkew >= 0
    requires AreAcceptances(ops, picks, key, timestamp, latency)
    ensures |picks| <= AcceptanceBound(settings, latency)
  {
    var lo, hi := Window(settings, timestamp, latency);
    var positions := AcceptancePositions(settings, ops, picks, key, timestamp, latency);
    TraceIsLog(settings, ops);
    SuccessesAreFew(GuardCalls(settings, ops), positions, key, settings.replayTtl, lo, hi);
  }

  /** The instants at which the guard can see an event whose envelope passed. */
  lemma Window(settings: Settings, timestamp: Time, latency: nat) returns (lo: Time, hi: Time)
    ensures lo == timestamp - settings.config.maxClockSkew
    ensures hi == timestamp + settings.config.maxClockSkew + latency
  {
    lo, hi := timestamp - settings.config.maxClockSkew, timestamp + settings.config.maxClockSkew + latency;
  }

  /** Where the guard's log has the acceptances. */
  lemma AcceptancePositions(
      settings: Settings, ops: seq<Op>, picks: seq<nat>, key: string, timestamp: Time, latency: nat)
    returns (positions: seq<nat>)
    requires IsTrace(settings, ops)
    requires AreAcceptances(ops, picks, key, timestamp, latency)
    ensures |positions| == |picks|
    ensures AreSuccesses(GuardCalls(settings, ops), positions, key, settings.replayTtl,
                         timestamp - settings.config.maxClockSkew, timestamp + settings.config.maxClockSkew + latency)
  {
    positions := seq(|picks|, a requires 0 <= a < |picks| => Position(settings, ops, picks[a]));
    forall a | 0 <= a < |picks|
      ensures CallOf(settings, ops[picks[a]]).Some?
      ensures IsSuccess(GuardCalls(settings, ops), positions[a], key, settings.replayTtl,
                        timestamp - settings.config.maxClockSkew, timestamp + settings.config.maxClockSkew + latency)
    {
      AcceptedReachesGuard(settings, ops, picks[a]);
      PositionHoldsCall(settings, ops, picks[a]);
    }
    forall a, b | 0 <= a < b < |picks|
      ensures positions[a] < positions[b]
    {
      PositionsIncrease(settings, ops, picks[a], picks[b]);
    }
  }

  lemma {:induction false} AcceptedReachesGuard(settings: Settings, ops: seq<Op>, i: nat)
    requires IsTrace(settings, ops) && i < |ops| && ops[i].Accepted()
    ensures ReachesGuard(settings, ops[i].request, ops[i].now)
  {
    var n := |ops| - 1;
    if i < n {
      AcceptedReachesGuard(settings, ops[..n], i);
    }
  }

  /** At most once, when the TTL outlasts the window in which the event's timestamp is acceptable. */
  lemma AcceptedAtMostOnce(
      settings: Settings, ops: seq<Op>, i: nat, j: nat, key: string, timestamp: Time, latency: nat)
    requires IsTrace(settings, ops) && settings.replayTtl >= SECOND && settings.config.maxClockSkew >= 0
    requires 2 * settings.config.maxClockSkew + latency < settings.replayTtl
    requires i < |ops| && IsAcceptance(ops[i], key, timestamp, latency)
    requires j < |ops| && IsAcceptance(ops[j], key, timestamp, latency)
    ensures i == j
  {
    if i != j {
      BoundIsOne(settings, latency);
      var picks := TwoAcceptances(ops, i, j, key, timestamp, latency);
      AcceptancesAreBounded(settings, ops, picks, key, timestamp, latency);
    }
  }

  lemma TwoAcceptances(ops: seq<Op>, i: nat, j: nat, key: string, timestamp: Time, latency: nat)
    returns (picks: seq<nat>)
    requires i < |ops| && IsAcceptance(ops[i], key, timestamp, latency)
    requires j < |ops| && IsAcceptance(ops[j], key, timestamp, latency) && i != j
    ensures |picks| == 2 && AreAcceptances(ops, picks, key, timestamp, latency)
  {
    picks := if i < j then [i, j] else [j, i];
  }

  lemma BoundIsOne(settings: Settings, latency: nat)
    requires settings.replayTtl >= SECOND && settings.config.maxClockSkew >= 0
    requires 2 * settings.config.maxClockSkew + latency < settings.replayTtl
    ensures AcceptanceBound(settings, latency) == 1
  {
    assert HowMany(2 * settings.config.maxClockSkew + latency - settings.replayTtl, settings.replayTtl) == 0;
  }

  // ----- the bound is attained

  /** The k-th delivery of an event that is sent again after each `gap`. */
  ghost function Redelivery(settings: Settings, request: VerifyWebhookRequest, gap: Time, k: nat): Op {
    var skew := settings.config.maxClockSkew;
    var at := request.eventTimestamp - skew + Multiple(k, gap);
    Verify(request, if at <= request.eventTimestamp + skew then at else request.eventTimestamp + skew, at, Ok(ACCEPTED))
  }

  /** After this run the key has expired by `at`, if it was ever recorded. */
  ghost predicate ExpiredBy(settings: Settings, ops: seq<Op>, key: string, at: Time) {
    IsTrace(settings, ops) && HasExpired(StoreOf(settings, ops), key, at)
  }

  ghost predicate HasExpired(store: Store, key: string, at: Time) {
    key in store ==> store[key] <= at
  }

  ghost predicate IsDeliverable(settings: Settings, request: VerifyWebhookRequest) {
    && |request.payload| <= settings.config.maxPayloadBytes
    && VerifySignature(settings.hmac, request.payload, request.providedSignature, request.secret,
       request.algorithm) == Ok(true)
  }

  lemma RedeliveryFits(settings: Settings, request: VerifyWebhookRequest, gap: nat, k: nat, store: Store)
    requires gap == settings.replayTtl && settings.config.maxClockSkew >= 0 && IsDeliverable(settings, request)
    requires HasExpired(store, request.replayKey, Redelivery(settings, request, gap, k).at)
    ensures var op := Redelivery(settings, request, gap, k);
            && Fits(settings, store, op)
            && HasExpired(Stored(settings, store, op), request.replayKey, Redelivery(settings, request, gap, k + 1).at)
  {
    MultipleGrows(0, k, gap);
    assert ReachesGuard(settings, request, Redelivery(settings, request, gap, k).now);
  }

  ghost predicate AreRedeliveries(settings: Settings, request: VerifyWebhookRequest, gap: nat, ops: seq<Op>) {
    forall k :: 0 <= k < |ops| ==> ops[k] == Redelivery(settings, request, gap, k)
  }

  lemma RedeliveredOnce(settings: Settings, request: VerifyWebhookRequest, gap: nat, ops: seq<Op>)
    requires gap == settings.replayTtl && settings.config.maxClockSkew >= 0 && IsDeliverable(settings, request)
    requires ExpiredBy(settings, ops, request.replayKey, Redelivery(settings, request, gap, |ops|).at)
    ensures ExpiredBy(settings, ops + [Redelivery(settings, request, gap, |ops|)], request.replayKey,
                      Redelivery(settings, request, gap, |ops| + 1).at)
  {
    RedeliveryFits(settings, request, gap, |ops|, StoreOf(settings, ops));
    OneMore(settings, ops, Redelivery(settings, request, gap, |ops|));
  }

  lemma RedeliveriesAreAccepted(settings: Settings, request: VerifyWebhookRequest, gap: nat, n: nat)
    returns (ops: seq<Op>)
    requires gap == settings.replayTtl && settings.config.maxClockSkew >= 0 && IsDeliverable(settings, request)
    ensures IsTrace(settings, ops) && |ops| == n && AreRedeliveries(settings, request, gap, ops)
  {
    var item := (k: nat) => Redelivery(settings, request, gap, k);
    var holds := (run: seq<Op>) => ExpiredBy(settings, run, request.replayKey, item(|run|).at);
    forall run, run' | run' == run + [item(|run|)] && holds(run)
      ensures holds(run')
    {
      RedeliveredOnce(settings, request, gap, run);
    }
    ops := BuiltUp(holds, item, n);
  }

  /** The guard performs the operations of the run in the order of time. */
  ghost predicate IsChronological(ops: seq<Op>) {
    forall a, b :: 0 <= a < b < |ops| ==> ops[a].Instant() <= ops[b].Instant()
  }

  lemma RedeliveriesAreChronological(settings: Settings, request: VerifyWebhookRequest, gap: nat, ops: seq<Op>)
    requires AreRedeliveries(settings, request, gap, ops)
    ensures IsChronological(ops)
  {
    forall a, b | 0 <= a < b < |ops|
      ensures ops[a].Instant() <= ops[b].Instant()
    {
      MultipleGrows(a, b, gap);
    }
  }

  lemma RedeliveryIsAcceptance(settings: Settings, request: VerifyWebhookRequest, gap: nat, k: nat, latency: nat)
    requires 0 <= Multiple(k, gap) <= 2 * settings.config.maxClockSkew + latency
    ensures IsAcceptance(Redelivery(settings, request, gap, k), request.replayKey, request.eventTimestamp, latency)
  {
  }

  lemma RedeliveriesAreAcceptances(
      settings: Settings, request: VerifyWebhookRequest, gap: nat, ops: seq<Op>, latency: nat)
    returns (picks: seq<nat>)
    requires AreRedeliveries(settings, request, gap, ops)
    requires |ops| > 0 && Multiple(|ops| - 1, gap) <= 2 * settings.config.maxClockSkew + latency
    ensures |picks| == |ops| && AreAcceptances(ops, picks, request.replayKey, request.eventTimestamp, latency)
  {
    picks := seq(|ops|, k requires 0 <= k < |ops| => k);
    forall k: nat | k < |ops|
      ensures IsAcceptance(ops[k], request.replayKey, request.eventTimestamp, latency)
    {
      MultipleGrows(0, k, gap);
      MultipleGrows(k, |ops| - 1, gap);
      RedeliveryIsAcceptance(settings, request, gap, k, latency);
    }
  }

  /**
    For every configuration, latency and correctly signed request some run accepts one event as often as the
    bound says.
   */
  lemma AcceptanceBoundIsAttained(settings: Settings, request: VerifyWebhookRequest, latency: nat)
    returns (ops: seq<Op>, picks: seq<nat>)
    requires settings.replayTtl >= SECOND && settings.config.maxClockSkew >= 0 && IsDeliverable(settings, request)
    ensures IsTrace(settings, ops) && IsChronological(ops)
    ensures AreAcceptances(ops, picks, request.replayKey, request.eventTimestamp, latency)
    ensures |picks| == AcceptanceBound(settings, latency)
  {
    var n := HowMany(2 * settings.config.maxClockSkew + latency, settings.replayTtl);
    HowManyIff(n, 2 * settings.config.maxClockSkew + latency, settings.replayTtl);
    ops := RedeliveriesAreAccepted(settings, request, settings.replayTtl, n);
    picks := RedeliveriesAreAcceptances(settings, request, settings.replayTtl, ops, latency);
    RedeliveriesAreChronological(settings, request, settings.replayTtl, ops);
  }

  /** With the defaults, and no latency at all, some run accepts one event three times, and none does so more often. */
  lemma DefaultsAcceptThreeTimes(settings: Settings, request: VerifyWebhookRequest)
    returns (ops: seq<Op>, picks: seq<nat>)
    requires settings.config == DEFAULT_CONFIG && settings.replayTtl == DEFAULT_REPLAY_TTL
    requires IsDeliverable(settings, request)
    ensures IsTrace(settings, ops) && IsChronological(ops)
    ensures AreAcceptances(ops, picks, request.replayKey, request.eventTimestamp, 0)
    ensures |picks| == 3 == AcceptanceBound(settings, 0)
  {
    ops, picks := AcceptanceBoundIsAttained(settings, request, 0);
    HowManyIsQuotient(2 * settings.config.maxClockSkew, settings.replayTtl);
  }

  // ----- rejected calls leave no trace

  ghost function SelectOps(ops: seq<Op>, keep: seq<bool>): seq<Op>
    requires |keep| == |ops|
  {
    if ops == [] then []
    else
      var n := |ops| - 1;
      var before := SelectOps(ops[..n], keep[..n]);
      if keep[n] then before + [ops[n]] else before
  }

  /**
    Deleting any rejected verifications (forged, stale, oversized or replayed) from a run leaves a run:
    every remaining verdict, of this use case and of the guard's other users, is what it was.
   */
  lemma {:induction false} RejectedCallsDoNotMatter(settings: Settings, ops: seq<Op>, keep: seq<bool>)
    requires IsTrace(settings, ops) && |keep| == |ops|
    requires forall i :: 0 <= i < |ops| && !keep[i] ==> ops[i].Verify? && !ops[i].Accepted()
    ensures IsTrace(settings, SelectOps(ops, keep))
    ensures StoreOf(settings, SelectOps(ops, keep)) == StoreOf(settings, ops)
  {
    if ops != [] {
      var n := |ops| - 1;
      RejectedCallsDoNotMatter(settings, ops[..n], keep[..n]);
      if keep[n] {
        OneMore(settings, SelectOps(ops[..n], keep[..n]), ops[n]);
      } else {
        RejectedStoresNothing(settings, StoreOf(settings, ops[..n]), ops[n]);
      }
    }
  }

  lemma RejectedStoresNothing(settings: Settings, store: Store, op: Op)
    requires Fits(settings, store, op) && op.Verify? && !op.Accepted()
    ensures Stored(settings, store, op) == store
  {
  }
}
