/**
  How often one provider message is processed. "Not twice" is what the pipeline's documentation asks for;
  this module says exactly when two deliveries of one message can both complete, in any interleaving, and
  how many can.
 */
module GatewayThreshold {
  import opened Prelude
  import opened ReplayGuard
  import opened Webhook
  import opened InboundExecution
  import opened InboundGateway
  import opened GatewayTheorems
  import opened GatewayRuns

  /** Where a delivery came from: a webhook with this event timestamp, or no webhook. */
  type Source = Option<Time>

  ghost predicate IsFrom(d: Delivery, source: Source) {
    match source
    case None => d.hook.None?
    case Some(timestamp) => d.hook.Some? && d.hook.value.eventTimestamp == timestamp
  }

  /** A completed delivery of this key from this source, admitted within the latency. */
  ghost predicate IsSuccessOf(s: System, i: nat, key: string, source: Source, latency: nat) {
    && i < |s.deliveries| && IsComplete(s.deliveries[i]) && IsPrompt(s, i, latency)
    && s.deliveries[i].request.Key() == key && IsFrom(s.deliveries[i], source)
  }

  /** The instants at which the guard can admit a delivery from this source. */
  predicate CanAdmitAt(config: Config, source: Source, latency: nat, at: Time) {
    var skew := config.webhook.config.maxClockSkew;
    source.Some? ==> source.value - skew <= at <= source.value + skew + latency
  }

  lemma SuccessIsAdmitted(config: Config, s: System, i: nat, key: string, source: Source, latency: nat)
    requires IsReachable(config, s) && IsSuccessOf(s, i, key, source, latency)
    ensures CanAdmitAt(config, source, latency, DedupAt(s, i))
  {
    if source.Some? {
      AdmittedInWindow(config, s, i, latency);
    }
  }

  // ----- runs with several successes

  /** What makes a delivery a success, in terms of itself and the guard's log; later calls do not change it. */
  ghost predicate HasSucceeded(calls: seq<GuardCall>, d: Delivery, key: string, source: Source, latency: nat) {
    var call := d.trace.dedupCall;
    && IsComplete(d) && d.request.Key() == key && IsFrom(d, source)
    && call.Some? && call.value < |calls|
    && (d.trace.checkedAt.Some? ==> calls[call.value].at - d.trace.checkedAt.value <= latency)
  }

  lemma SucceededIsSuccess(s: System, i: nat, key: string, source: Source, latency: nat)
    requires i < |s.deliveries| && HasSucceeded(s.calls, s.deliveries[i], key, source, latency)
    ensures IsSuccessOf(s, i, key, source, latency)
  {
  }

  /** The clock has not passed this instant, and by then the key's record, if any, has expired. */
  ghost predicate IsFreeFrom(s: System, key: string, at: Time) {
    s.clock <= at && !Live(s.store, key, at)
  }

  /** The last clock reading, not after `at`, that the envelope can be checked against. */
  function LastReading(config: Config, hook: VerifyWebhookRequest, at: Time): Time {
    var latest := hook.eventTimestamp + config.webhook.config.maxClockSkew;
    if at <= latest then at else latest
  }

  lemma RunFromWebhook(
      config: Config, states: States, s: System, hook: VerifyWebhookRequest, request: InboundRequest, at: Time,
      latency: nat)
    returns (t: System, d: Delivery)
    requires IsClosed(config, states) && s in states && IsConfig(config) && IsFreeFrom(s, request.Key(), at)
    requires IsDeliverable(config.webhook, hook) && Strip(request.content) != ""
    requires CanAdmitAt(config, Some(hook.eventTimestamp), latency, at)
    requires hook.replayKey !in s.store && hook.replayKey != request.Key()
    ensures EndsIn(config, states, s, t, d) && s.calls <= t.calls
    ensures HasSucceeded(t.calls, d, request.Key(), Some(hook.eventTimestamp), latency)
    ensures IsFreeFrom(t, request.Key(), at + config.dedupTtl)
  {
    LastReadingIsTimely(config, hook, latency, at);
    KeyStaysFree(s.store, hook.replayKey, request.Key(), at + config.webhook.replayTtl, at);
    t, d := RunWebhook(config, states, s, hook, request, LastReading(config, hook, at), at, at);
  }

  lemma LastReadingIsTimely(config: Config, hook: VerifyWebhookRequest, latency: nat, at: Time)
    requires IsConfig(config) && CanAdmitAt(config, Some(hook.eventTimestamp), latency, at)
    ensures var v := LastReading(config, hook, at);
            v <= at && at - v <= latency && Abs(v - hook.eventTimestamp) <= config.webhook.config.maxClockSkew
  {
  }

  lemma KeyStaysFree(store: Store, replayKey: string, key: string, expiry: Time, at: Time)
    requires replayKey !in store && replayKey != key && !Live(store, key, at)
    ensures !Live(store, replayKey, at) && !Live(store[replayKey := expiry], key, at)
  {
  }

  /** The signature covers neither the timestamp nor the replay key. */
  lemma OtherwiseDeliverable(settings: Settings, hook: VerifyWebhookRequest, timestamp: Time, replayKey: string)
    requires IsDeliverable(settings, hook)
    ensures IsDeliverable(settings, hook.(eventTimestamp := timestamp, replayKey := replayKey))
  {
  }

  /** A delivery from `source` that goes through at `at`, under a replay key nobody has used. */
  lemma RunFrom(
      config: Config, states: States, s: System, hook: VerifyWebhookRequest, request: InboundRequest, source: Source,
      at: Time, latency: nat)
    returns (t: System, d: Delivery)
    requires IsClosed(config, states) && s in states && IsConfig(config) && IsFreeFrom(s, request.Key(), at)
    requires IsDeliverable(config.webhook, hook) && Strip(request.content) != ""
    requires CanAdmitAt(config, source, latency, at)
    ensures EndsIn(config, states, s, t, d) && s.calls <= t.calls
    ensures HasSucceeded(t.calls, d, request.Key(), source, latency)
    ensures IsFreeFrom(t, request.Key(), at + config.dedupTtl)
  {
    match source
    case None =>
      t, d := RunUnhooked(config, states, s, request, at);
    case Some(timestamp) =>
      var replayKey := FreshText(s.store.Keys + {request.Key()});
      OtherwiseDeliverable(config.webhook, hook, timestamp, replayKey);
      var unseen := hook.(eventTimestamp := timestamp, replayKey := replayKey);
      t, d := RunFromWebhook(config, states, s, unseen, request, at, latency);
  }

  lemma InitialIsReachable(config: Config, clock: Time) returns (states: States)
    requires IsConfig(config)
    ensures states == iset s | IsReachable(config, s)
    ensures IsClosed(config, states) && Initial(clock) in states
  {
    states := iset s | IsReachable(config, s);
    ReachableIsClosed(config);
    assert Initial(clock) == After(config, clock, []);
  }

  lemma TwoComplete(
      config: Config, hook: VerifyWebhookRequest, request: InboundRequest, first: Source, second: Source,
      a: Time, b: Time, latency: nat)
    returns (t: System)
    requires IsConfig(config) && IsDeliverable(config.webhook, hook) && Strip(request.content) != ""
    requires CanAdmitAt(config, first, latency, a) && CanAdmitAt(config, second, latency, b) && a + config.dedupTtl <= b
    ensures IsReachable(config, t)
    ensures IsSuccessOf(t, 0, request.Key(), first, latency) && IsSuccessOf(t, 1, request.Key(), second, latency)
  {
    var states := InitialIsReachable(config, a);
    var t1, d1 := RunFrom(config, states, Initial(a), hook, request, first, a, latency);
    var d2;
    t, d2 := RunFrom(config, states, t1, hook, request, second, b, latency);
    SucceededIsSuccess(t, 0, request.Key(), first, latency);
    SucceededIsSuccess(t, 1, request.Key(), second, latency);
  }

  // ----- when two deliveries can both complete

  /** In some reachable state two deliveries of this key, one from each source, have completed. */
  ghost predicate CanBothComplete(config: Config, key: string, source: Source, source': Source, latency: nat) {
    exists s, i, j :: i != j && IsReachable(config, s)
                      && IsSuccessOf(s, i, key, source, latency) && IsSuccessOf(s, j, key, source', latency)
  }

  /** The sources can be admitted a dedup TTL apart. */
  ghost predicate AdmissibleApart(config: Config, source: Source, source': Source, latency: nat) {
    exists a, b :: CanAdmitAt(config, source, latency, a) && CanAdmitAt(config, source', latency, b)
                   && config.dedupTtl <= Abs(a - b)
  }

  lemma CanBothCompleteIffApart(
      config: Config, hook: VerifyWebhookRequest, request: InboundRequest, source: Source, source': Source,
      latency: nat)
    requires IsConfig(config) && IsDeliverable(config.webhook, hook) && Strip(request.content) != ""
    ensures CanBothComplete(config, request.Key(), source, source', latency)
            <==> AdmissibleApart(config, source, source', latency)
  {
    var key := request.Key();
    if s, i, j :| i != j && IsReachable(config, s)
                  && IsSuccessOf(s, i, key, source, latency) && IsSuccessOf(s, j, key, source', latency)
    {
      SuccessIsAdmitted(config, s, i, key, source, latency);
      SuccessIsAdmitted(config, s, j, key, source', latency);
      AdmissionsAreSpaced(config, s, i, j);
      assert AdmissibleApart(config, source, source', latency);
    }
    if a, b :| CanAdmitAt(config, source, latency, a) && CanAdmitAt(config, source', latency, b)
               && config.dedupTtl <= Abs(a - b)
    {
      if a <= b {
        var t := TwoComplete(config, hook, request, source, source', a, b, latency);
      } else {
        var t := TwoComplete(config, hook, request, source', source, b, a, latency);
      }
    }
  }

  lemma AdmissibleApartIff(config: Config, source: Source, source': Source, latency: nat)
    requires IsConfig(config)
    ensures AdmissibleApart(config, source, source', latency) <==>
            || source.None? || source'.None?
            || config.dedupTtl <= Abs(source.value - source'.value) + 2 * config.webhook.config.maxClockSkew + latency
  {
    var skew := config.webhook.config.maxClockSkew;
    var a :=
      if source.Some? then source.value - skew
      else if source'.Some? then source'.value - skew - config.dedupTtl
      else 0;
    var b := if source'.Some? then source'.value - skew else a + config.dedupTtl;
    assert CanAdmitAt(config, source, latency, a) && CanAdmitAt(config, source', latency, b);
    if source.Some? && source'.Some? {
      if a <= b {
        assert CanAdmitAt(config, source', latency, b + 2 * skew + latency);
      } else {
        assert CanAdmitAt(config, source, latency, a + 2 * skew + latency);
      }
    }
  }

  /**
    Exactly when two deliveries of one provider message can both complete: always, if one of them comes without
    a webhook; if both come with one, when their event timestamps, the acceptance window and the latency
    together leave room for the dedup TTL.
   */
  lemma BothCompleteIff(
      config: Config, hook: VerifyWebhookRequest, request: InboundRequest, source: Source, source': Source,
      latency: nat)
    requires IsConfig(config) && IsDeliverable(config.webhook, hook) && Strip(request.content) != ""
    ensures CanBothComplete(config, request.Key(), source, source', latency) <==>
            || source.None? || source'.None?
            || config.dedupTtl <= Abs(source.value - source'.value) + 2 * config.webhook.config.maxClockSkew + latency
  {
    CanBothCompleteIffApart(config, hook, request, source, source', latency);
    AdmissibleApartIff(config, source, source', latency);
  }

  /**
    The case of one event: completion is at most once exactly when the dedup TTL outlasts the window and the
    latency.
   */
  lemma CompletesAtMostOnceIff(config: Config, hook: VerifyWebhookRequest, request: InboundRequest, latency: nat)
    requires IsConfig(config) && IsDeliverable(config.webhook, hook) && Strip(request.content) != ""
    ensures 2 * config.webhook.config.maxClockSkew + latency < config.dedupTtl <==>
            forall s, i, j ::
              (IsReachable(config, s) && IsSuccessOf(s, i, request.Key(), Some(hook.eventTimestamp), latency)
               && IsSuccessOf(s, j, request.Key(), Some(hook.eventTimestamp), latency)) ==> i == j
  {
    var source := Some(hook.eventTimestamp);
    BothCompleteIff(config, hook, request, source, source, latency);
  }

  // ----- how many can complete

  /** How many deliveries of one event can complete: as many as dedup TTLs fit into the window, and one more. */
  ghost function CompletionBound(config: Config, latency: nat): nat
    requires IsConfig(config)
  {
    HowMany(2 * config.webhook.config.maxClockSkew + latency, config.dedupTtl)
  }

  /** Where the guard's log has the calls that admitted these deliveries. */
  lemma AdmittingCalls(config: Config, s: System, picks: set<nat>, key: string, timestamp: Time, latency: nat)
    returns (positions: set<nat>)
    requires IsReachable(config, s)
    requires forall i :: i in picks ==> IsSuccessOf(s, i, key, Some(timestamp), latency)
    ensures IsLog(s.calls) && |positions| == |picks|
    ensures AreHeld(s.calls, positions, key, config.dedupTtl, timestamp - config.webhook.config.maxClockSkew)
    ensures forall p :: p in positions ==> CanAdmitAt(config, Some(timestamp), latency, s.calls[p].at)
  {
    var f := (i: nat) => DedupPosition(s, i);
    positions := Image(picks, f);
    forall i | i in picks
      ensures IsAdmission(config, s, i, key, timestamp, latency, f(i))
    {
      AdmissionPosition(config, s, i, key, timestamp, latency);
    }
    ImageSize(picks, f);
    LogIsLog(config, s);
  }

  ghost predicate IsAdmission(config: Config, s: System, i: nat, key: string, timestamp: Time, latency: nat, p: nat) {
    && p < |s.calls| && s.calls[p] == GuardCall(i, key, config.dedupTtl, s.calls[p].at, true)
    && CanAdmitAt(config, Some(timestamp), latency, s.calls[p].at)
  }

  lemma AdmissionPosition(config: Config, s: System, i: nat, key: string, timestamp: Time, latency: nat)
    requires IsReachable(config, s) && IsSuccessOf(s, i, key, Some(timestamp), latency)
    ensures IsAdmission(config, s, i, key, timestamp, latency, DedupPosition(s, i))
  {
    var p := AdmittingCall(config, s, i);
    SuccessIsAdmitted(config, s, i, key, Some(timestamp), latency);
  }

  lemma CompletionsAreBounded(config: Config, s: System, picks: set<nat>, key: string, timestamp: Time, latency: nat)
    requires IsReachable(config, s)
    requires forall i :: i in picks ==> IsSuccessOf(s, i, key, Some(timestamp), latency)
    ensures |picks| <= CompletionBound(config, latency)
  {
    var positions := AdmittingCalls(config, s, picks, key, timestamp, latency);
    AdmissionsAreFew(config, s.calls, positions, key, timestamp, latency);
  }

  lemma AdmissionsAreFew(
      config: Config, calls: seq<GuardCall>, positions: set<nat>, key: string, timestamp: Time, latency: nat)
    requires IsConfig(config) && IsLog(calls)
    requires AreHeld(calls, positions, key, config.dedupTtl, timestamp - config.webhook.config.maxClockSkew)
    requires forall p :: p in positions ==> CanAdmitAt(config, Some(timestamp), latency, calls[p].at)
    ensures |positions| <= CompletionBound(config, latency)
  {
    var lo, hi := Window(config.webhook, timestamp, latency);
    HeldAreFew(calls, positions, key, config.dedupTtl, lo, hi);
  }

  ghost predicate AllSucceeded(s: System, key: string, source: Source, latency: nat) {
    forall i :: 0 <= i < |s.deliveries| ==> HasSucceeded(s.calls, s.deliveries[i], key, source, latency)
  }

  lemma OneMoreSucceeded(s: System, t: System, d: Delivery, key: string, source: Source, latency: nat)
    requires AllSucceeded(s, key, source, latency)
    requires t.deliveries == s.deliveries + [d] && s.calls <= t.calls && HasSucceeded(t.calls, d, key, source, latency)
    ensures AllSucceeded(t, key, source, latency)
  {
    forall i | 0 <= i < |t.deliveries|
      ensures HasSucceeded(t.calls, t.deliveries[i], key, source, latency)
    {
      if i < |s.deliveries| {
        assert HasSucceeded(s.calls, s.deliveries[i], key, source, latency);
      }
    }
  }

  /** n instants, a dedup TTL apart, at which an event can be admitted. */
  ghost predicate AdmissibleInTime(config: Config, source: Source, latency: nat, first: Time, n: nat) {
    forall k: nat :: k < n ==> CanAdmitAt(config, source, latency, first + Multiple(k, config.dedupTtl))
  }

  /** n deliveries from one source, each admitted as soon as the record of the one before has expired. */
  lemma {:induction false} RunMany(
      config: Config, states: States, hook: VerifyWebhookRequest, request: InboundRequest, source: Source,
      first: Time, latency: nat, n: nat)
    returns (t: System)
    requires IsClosed(config, states) && Initial(first) in states && IsConfig(config)
    requires IsDeliverable(config.webhook, hook) && Strip(request.content) != ""
    requires AdmissibleInTime(config, source, latency, first, n)
    ensures t in states && |t.deliveries| == n && IsFreeFrom(t, request.Key(), first + Multiple(n, config.dedupTtl))
    ensures AllSucceeded(t, request.Key(), source, latency)
  {
    if n == 0 {
      t := Initial(first);
    } else {
      var before := RunMany(config, states, hook, request, source, first, latency, n - 1);
      var at := first + Multiple(n - 1, config.dedupTtl);
      assert CanAdmitAt(config, source, latency, at);
      var d;
      t, d := RunFrom(config, states, before, hook, request, source, at, latency);
      assert at + config.dedupTtl == first + Multiple(n, config.dedupTtl);
      OneMoreSucceeded(before, t, d, request.Key(), source, latency);
    }
  }

  lemma WindowIsFilled(config: Config, timestamp: Time, latency: nat, first: Time, n: nat)
    requires IsConfig(config) && first == timestamp - config.webhook.config.maxClockSkew
    requires n > 0 ==> Multiple(n - 1, config.dedupTtl) <= 2 * config.webhook.config.maxClockSkew + latency
    ensures AdmissibleInTime(config, Some(timestamp), latency, first, n)
  {
    forall k: nat | k < n
      ensures CanAdmitAt(config, Some(timestamp), latency, first + Multiple(k, config.dedupTtl))
    {
      MultipleGrows(0, k, config.dedupTtl);
      MultipleGrows(k, n - 1, config.dedupTtl);
    }
  }

  /** n deliveries of one event that complete, if they fit into the window. */
  lemma RunOfEvent(config: Config, hook: VerifyWebhookRequest, request: InboundRequest, latency: nat, n: nat)
    returns (t: System)
    requires IsConfig(config) && IsDeliverable(config.webhook, hook) && Strip(request.content) != ""
    requires n > 0 ==> Multiple(n - 1, config.dedupTtl) <= 2 * config.webhook.config.maxClockSkew + latency
    ensures IsReachable(config, t) && |t.deliveries| == n
    ensures AllSucceeded(t, request.Key(), Some(hook.eventTimestamp), latency)
  {
    var first := hook.eventTimestamp - config.webhook.config.maxClockSkew;
    WindowIsFilled(config, hook.eventTimestamp, latency, first, n);
    var states := InitialIsReachable(config, first);
    t := RunMany(config, states, hook, request, Some(hook.eventTimestamp), first, latency, n);
  }

  lemma AllAreSuccesses(t: System, key: string, source: Source, latency: nat) returns (picks: set<nat>)
    requires AllSucceeded(t, key, source, latency)
    ensures |picks| == |t.deliveries| && forall i :: i in picks ==> IsSuccessOf(t, i, key, source, latency)
  {
    picks := Below(|t.deliveries|);
    BelowIs(|t.deliveries|);
    forall i | i in picks
      ensures IsSuccessOf(t, i, key, source, latency)
    {
      SucceededIsSuccess(t, i, key, source, latency);
    }
  }

  /** For every configuration, correctly signed webhook, message and latency some run completes that many. */
  lemma CompletionBoundIsAttained(config: Config, hook: VerifyWebhookRequest, request: InboundRequest, latency: nat)
    returns (t: System, picks: set<nat>)
    requires IsConfig(config) && IsDeliverable(config.webhook, hook) && Strip(request.content) != ""
    ensures IsReachable(config, t)
    ensures forall i :: i in picks ==> IsSuccessOf(t, i, request.Key(), Some(hook.eventTimestamp), latency)
    ensures |picks| == CompletionBound(config, latency)
  {
    var n := CompletionBound(config, latency);
    HowManyIff(n, 2 * config.webhook.config.maxClockSkew + latency, config.dedupTtl);
    t := RunOfEvent(config, hook, request, latency, n);
    picks := AllAreSuccesses(t, request.Key(), Some(hook.eventTimestamp), latency);
  }

  /** Without a webhook nothing bounds the number: any number of deliveries of one message can complete. */
  lemma UnhookedCompletesAgain(config: Config, request: InboundRequest, n: nat) returns (t: System)
    requires IsConfig(config) && Strip(request.content) != ""
    ensures IsReachable(config, t) && |t.deliveries| == n
    ensures forall i: nat :: i < n ==> IsSuccessOf(t, i, request.Key(), None, 0)
  {
    var states := InitialIsReachable(config, 0);
    t := RunManyUnhooked(config, states, request, n);
    forall i: nat | i < n
      ensures IsSuccessOf(t, i, request.Key(), None, 0)
    {
      SucceededIsSuccess(t, i, request.Key(), None, 0);
    }
  }

  lemma {:induction false} RunManyUnhooked(config: Config, states: States, request: InboundRequest, n: nat)
    returns (t: System)
    requires IsClosed(config, states) && Initial(0) in states && IsConfig(config) && Strip(request.content) != ""
    ensures t in states && |t.deliveries| == n
    ensures request.Key() in t.store ==> t.store[request.Key()] == t.clock + config.dedupTtl
    ensures AllSucceeded(t, request.Key(), None, 0)
  {
    if n == 0 {
      t := Initial(0);
    } else {
      var before := RunManyUnhooked(config, states, request, n - 1);
      var d;
      t, d := RunUnhooked(config, states, before, request, before.clock + config.dedupTtl);
      OneMoreSucceeded(before, t, d, request.Key(), None, 0);
    }
  }

  // ----- the default dedup TTL

  /** With the default TTL two completed deliveries of one message are at least 24 hours apart. */
  lemma DefaultsAreADayApart(config: Config, s: System, i: nat, j: nat)
    requires config.dedupTtl == DEFAULT_DEDUP_TTL && IsReachable(config, s)
    requires i < |s.deliveries| && j < |s.deliveries| && i != j
    requires IsComplete(s.deliveries[i]) && IsComplete(s.deliveries[j])
    requires s.deliveries[i].request.Key() == s.deliveries[j].request.Key()
    ensures 24 * 60 * 60 * 1_000_000 <= Abs(DedupAt(s, i) - DedupAt(s, j))
  {
    AdmissionsAreSpaced(config, s, i, j);
  }

  /** And a message is let in again exactly 24 hours later. */
  lemma DefaultsReadmitAfterADay(config: Config, request: InboundRequest) returns (t: System)
    requires IsConfig(config) && config.dedupTtl == DEFAULT_DEDUP_TTL && Strip(request.content) != ""
    ensures IsReachable(config, t)
    ensures IsSuccessOf(t, 0, request.Key(), None, 0) && IsSuccessOf(t, 1, request.Key(), None, 0)
    ensures DedupAt(t, 1) - DedupAt(t, 0) == 24 * 60 * 60 * 1_000_000
  {
    var states := InitialIsReachable(config, 0);
    var t1, d1 := RunUnhooked(config, states, Initial(0), request, 0);
    var d2;
    t, d2 := RunUnhooked(config, states, t1, request, DEFAULT_DEDUP_TTL);
    SucceededIsSuccess(t, 0, request.Key(), None, 0);
    SucceededIsSuccess(t, 1, request.Key(), None, 0);
  }

  // ----- verification on its own

  ghost predicate AllVerified(s: System, hook: VerifyWebhookRequest, latency: nat) {
    forall i :: 0 <= i < |s.deliveries| ==>
      ReplayPosition(s, i) == i && IsVerification(s, i, hook.replayKey, hook.eventTimestamp, latency)
  }

  /** n verifications of one webhook, each as soon as the record of the one before has expired. */
  lemma {:induction false} RunManyVerifications(
      config: Config, states: States, hook: VerifyWebhookRequest, request: InboundRequest, first: Time, latency: nat,
      n: nat)
    returns (t: System)
    requires IsClosed(config, states) && Initial(first) in states && IsConfig(config)
             && IsDeliverable(config.webhook, hook)
    requires first == hook.eventTimestamp - config.webhook.config.maxClockSkew
    requires n > 0 ==> Multiple(n - 1, config.webhook.replayTtl) <= 2 * config.webhook.config.maxClockSkew + latency
    ensures t in states && |t.deliveries| == |t.calls| == n && AllVerified(t, hook, latency)
    ensures IsFreeFrom(t, hook.replayKey, first + Multiple(n, config.webhook.replayTtl))
  {
    if n == 0 {
      t := Initial(first);
    } else {
      var at := first + Multiple(n - 1, config.webhook.replayTtl);
      if n > 1 {
        MultipleGrows(n - 2, n - 1, config.webhook.replayTtl);
      }
      MultipleGrows(0, n - 1, config.webhook.replayTtl);
      var before := RunManyVerifications(config, states, hook, request, first, latency, n - 1);
      var d;
      t, d := RunVerification(config, states, before, hook, request, LastReading(config, hook, at), at);
      OneMoreVerified(before, t, d, hook, latency);
    }
  }

  lemma OneMoreVerified(s: System, t: System, d: Delivery, hook: VerifyWebhookRequest, latency: nat)
    requires AllVerified(s, hook, latency) && |s.deliveries| == |s.calls|
    requires t.deliveries == s.deliveries + [d] && |t.calls| == |s.calls| + 1 && s.calls <= t.calls
    requires ReplayPosition(t, |s.deliveries|) == |s.calls|
    requires IsVerification(t, |s.deliveries|, hook.replayKey, hook.eventTimestamp, latency)
    ensures AllVerified(t, hook, latency)
  {
    forall i | 0 <= i < |t.deliveries|
      ensures ReplayPosition(t, i) == i && IsVerification(t, i, hook.replayKey, hook.eventTimestamp, latency)
    {
      if i < |s.deliveries| {
        assert ReplayPosition(s, i) == i && IsVerification(s, i, hook.replayKey, hook.eventTimestamp, latency);
      }
    }
  }

  /** The bound on verifications is attained in the gateway itself, for every configuration, webhook and latency. */
  lemma VerificationBoundIsAttained(config: Config, hook: VerifyWebhookRequest, request: InboundRequest, latency: nat)
    returns (t: System, picks: seq<nat>)
    requires IsConfig(config) && IsDeliverable(config.webhook, hook)
    ensures IsReachable(config, t)
    ensures forall a :: 0 <= a < |picks| ==> IsVerification(t, picks[a], hook.replayKey, hook.eventTimestamp, latency)
    ensures forall a, b :: 0 <= a < b < |picks| ==> ReplayPosition(t, picks[a]) < ReplayPosition(t, picks[b])
    ensures |picks| == AcceptanceBound(config.webhook, latency)
  {
    var n := HowMany(2 * config.webhook.config.maxClockSkew + latency, config.webhook.replayTtl);
    HowManyIff(n, 2 * config.webhook.config.maxClockSkew + latency, config.webhook.replayTtl);
    var first := hook.eventTimestamp - config.webhook.config.maxClockSkew;
    var states := InitialIsReachable(config, first);
    t := RunManyVerifications(config, states, hook, request, first, latency, n);
    picks := seq(n, k requires 0 <= k < n => k);
    forall a | 0 <= a < |picks|
      ensures ReplayPosition(t, picks[a]) == a
              && IsVerification(t, picks[a], hook.replayKey, hook.eventTimestamp, latency)
    {
      assert picks[a] == a;
    }
  }
}
