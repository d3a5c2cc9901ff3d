/**
  The ordinary redelivery: the same webhook again, under the same replay key. How often it can complete, when
  both of the guard's records stand in its way.
 */
module GatewayRedelivery {
  import opened Prelude
  import opened ReplayGuard
  import opened Webhook
  import opened InboundExecution
  import opened InboundGateway
  import opened GatewayTheorems
  import opened GatewayRuns
  import opened GatewayThreshold

  ghost predicate IsSuccessOfHook(s: System, i: nat, key: string, hook: VerifyWebhookRequest, latency: nat) {
    IsSuccessOf(s, i, key, Some(hook.eventTimestamp), latency) && s.deliveries[i].hook == Some(hook)
  }

  /** How long a delivery is in its own way: where its replay key is its dedup key, its replay record has to expire. */
  function Wait(config: Config, key: string, hook: VerifyWebhookRequest): Time {
    if hook.replayKey == key then config.webhook.replayTtl else 0
  }

  /** How long after the verification of one delivery the next can be verified: both records have to expire. */
  function Period(config: Config, key: string, hook: VerifyWebhookRequest): Time {
    if hook.replayKey == key then config.webhook.replayTtl + config.dedupTtl
    else if config.dedupTtl < config.webhook.replayTtl then config.webhook.replayTtl
    else config.dedupTtl
  }

  function WindowWidth(config: Config, latency: nat): Time {
    2 * config.webhook.config.maxClockSkew + latency
  }

  /** How many deliveries of one webhook can complete. */
  function RedeliveryBound(config: Config, key: string, hook: VerifyWebhookRequest, latency: nat): nat
    requires IsConfig(config)
  {
    var wait := Wait(config, key, hook);
    if latency < wait then 0 else HowMany(WindowWidth(config, latency) - wait, Period(config, key, hook))
  }

  // ----- no more can complete

  /** A completed delivery of this webhook called the guard twice with success, at positions q and p of its log. */
  ghost predicate MadeCalls(
      config: Config, s: System, i: nat, key: string, hook: VerifyWebhookRequest, latency: nat, q: nat, p: nat)
  {
    && q < p < |s.calls|
    && s.calls[q] == GuardCall(i, hook.replayKey, config.webhook.replayTtl, s.calls[q].at, true)
    && s.calls[p] == GuardCall(i, key, config.dedupTtl, s.calls[p].at, true)
    && hook.eventTimestamp - config.webhook.config.maxClockSkew <= s.calls[q].at <= s.calls[p].at
    && s.calls[p].at <= hook.eventTimestamp + config.webhook.config.maxClockSkew + latency
    && s.calls[p].at <= s.calls[q].at + latency
  }

  lemma CallsOfSuccess(config: Config, s: System, i: nat, key: string, hook: VerifyWebhookRequest, latency: nat)
    requires IsReachable(config, s) && IsSuccessOfHook(s, i, key, hook, latency)
    ensures MadeCalls(config, s, i, key, hook, latency, ReplayPosition(s, i), DedupPosition(s, i))
  {
    var q := VouchingCall(config, s, i);
    var p := AdmittingCall(config, s, i);
    CheckedBeforeCalls(config, s, i);
    AdmittedInWindow(config, s, i, latency);
  }

  /** All these deliveries made their two calls. */
  ghost predicate AllMadeCalls(
      config: Config, s: System, picks: set<nat>, key: string, hook: VerifyWebhookRequest, latency: nat)
  {
    && IsLog(s.calls)
    && forall i :: i in picks ==> MadeCalls(config, s, i, key, hook, latency, ReplayPosition(s, i), DedupPosition(s, i))
  }

  ghost function ReplayPositions(s: System, picks: set<nat>): set<nat> {
    Image(picks, (i: nat) => ReplayPosition(s, i))
  }

  ghost function DedupPositions(s: System, picks: set<nat>): set<nat> {
    Image(picks, (i: nat) => DedupPosition(s, i))
  }

  lemma CallsOfAll(config: Config, s: System, picks: set<nat>, key: string, hook: VerifyWebhookRequest, latency: nat)
    requires AllMadeCalls(config, s, picks, key, hook, latency)
    ensures |ReplayPositions(s, picks)| == |picks| && |DedupPositions(s, picks)| == |picks|
    ensures var lo, replays, dedups := hook.eventTimestamp - config.webhook.config.maxClockSkew,
                                       ReplayPositions(s, picks), DedupPositions(s, picks);
            && AreHeld(s.calls, replays, hook.replayKey, config.webhook.replayTtl, lo)
            && AreHeld(s.calls, dedups, key, config.dedupTtl, lo)
  {
    ImageSize(picks, (i: nat) => ReplayPosition(s, i));
    ImageSize(picks, (i: nat) => DedupPosition(s, i));
  }

  /** Each kind of record bounds the number for itself. */
  lemma BoundedByReplays(
      config: Config, s: System, picks: set<nat>, key: string, hook: VerifyWebhookRequest, latency: nat)
    requires IsConfig(config) && AllMadeCalls(config, s, picks, key, hook, latency)
    ensures |picks| <= HowMany(WindowWidth(config, latency), config.webhook.replayTtl)
  {
    CallsOfAll(config, s, picks, key, hook, latency);
    var lo, hi := Window(config.webhook, hook.eventTimestamp, latency);
    forall p | p in ReplayPositions(s, picks)
      ensures s.calls[p].at <= hi
    {
      ReplayIsInWindow(config, s, picks, key, hook, latency, p);
    }
    HeldAreFew(s.calls, ReplayPositions(s, picks), hook.replayKey, config.webhook.replayTtl, lo, hi);
  }

  lemma BoundedByDedups(
      config: Config, s: System, picks: set<nat>, key: string, hook: VerifyWebhookRequest, latency: nat)
    requires IsConfig(config) && AllMadeCalls(config, s, picks, key, hook, latency)
    ensures |picks| <= HowMany(WindowWidth(config, latency), config.dedupTtl)
  {
    CallsOfAll(config, s, picks, key, hook, latency);
    var lo, hi := Window(config.webhook, hook.eventTimestamp, latency);
    forall p | p in DedupPositions(s, picks)
      ensures s.calls[p].at <= hi
    {
      DedupIsInWindow(config, s, picks, key, hook, latency, p);
    }
    HeldAreFew(s.calls, DedupPositions(s, picks), key, config.dedupTtl, lo, hi);
  }

  lemma ReplayIsInWindow(
      config: Config, s: System, picks: set<nat>, key: string, hook: VerifyWebhookRequest, latency: nat, p: nat)
    requires AllMadeCalls(config, s, picks, key, hook, latency) && p in ReplayPositions(s, picks)
    ensures p < |s.calls|
    ensures s.calls[p].at <= hook.eventTimestamp + config.webhook.config.maxClockSkew + latency
  {
    var j :| j in picks && p == ReplayPosition(s, j);
    assert MadeCalls(config, s, j, key, hook, latency, ReplayPosition(s, j), DedupPosition(s, j));
  }

  lemma PositionsAreApart(
      config: Config, s: System, picks: set<nat>, key: string, hook: VerifyWebhookRequest, latency: nat)
    requires AllMadeCalls(config, s, picks, key, hook, latency)
    ensures ReplayPositions(s, picks) !! DedupPositions(s, picks)
  {
    forall x, y | x in picks && y in picks
      ensures ReplayPosition(s, x) != DedupPosition(s, y)
    {
      assert MadeCalls(config, s, x, key, hook, latency, ReplayPosition(s, x), DedupPosition(s, x));
      assert MadeCalls(config, s, y, key, hook, latency, ReplayPosition(s, y), DedupPosition(s, y));
    }
  }

  /** The last call of all these deliveries is a dedup call. */
  lemma LastCallIsDedup(
      config: Config, s: System, picks: set<nat>, key: string, hook: VerifyWebhookRequest, latency: nat)
    returns (last: nat)
    requires AllMadeCalls(config, s, picks, key, hook, latency) && picks != {}
    ensures last in DedupPositions(s, picks)
    ensures forall p :: p in ReplayPositions(s, picks) + DedupPositions(s, picks) ==> p <= last
  {
    var i :| i in picks;
    assert DedupPosition(s, i) in DedupPositions(s, picks);
    last := GreatestOf(DedupPositions(s, picks));
    forall p | p in ReplayPositions(s, picks)
      ensures p <= last
    {
      var j :| j in picks && p == ReplayPosition(s, j);
      assert DedupPosition(s, j) in DedupPositions(s, picks);
      assert MadeCalls(config, s, j, key, hook, latency, ReplayPosition(s, j), DedupPosition(s, j));
    }
  }

  lemma DedupIsInWindow(
      config: Config, s: System, picks: set<nat>, key: string, hook: VerifyWebhookRequest, latency: nat, p: nat)
    requires AllMadeCalls(config, s, picks, key, hook, latency) && p in DedupPositions(s, picks)
    ensures p < |s.calls| && s.calls[p].ttl == config.dedupTtl
    ensures s.calls[p].at <= hook.eventTimestamp + config.webhook.config.maxClockSkew + latency
  {
    var j :| j in picks && p == DedupPosition(s, j);
    assert MadeCalls(config, s, j, key, hook, latency, ReplayPosition(s, j), DedupPosition(s, j));
  }

  /** With one key, all the calls of all the deliveries stand in each other's way. */
  lemma BoundedByBoth(
      config: Config, s: System, picks: set<nat>, key: string, hook: VerifyWebhookRequest, latency: nat)
    requires IsConfig(config) && AllMadeCalls(config, s, picks, key, hook, latency)
    requires hook.replayKey == key && picks != {}
    ensures var n, r, d := |picks|, config.webhook.replayTtl, config.dedupTtl;
            Multiple(n, r) + Multiple(n, d) <= WindowWidth(config, latency) + d
  {
    CallsOfAll(config, s, picks, key, hook, latency);
    PositionsAreApart(config, s, picks, key, hook, latency);
    var last := LastCallIsDedup(config, s, picks, key, hook, latency);
    DedupIsInWindow(config, s, picks, key, hook, latency, last);
    SuccessesFillTimeTo(s.calls, ReplayPositions(s, picks), DedupPositions(s, picks), key, config.webhook.replayTtl,
                        config.dedupTtl, hook.eventTimestamp - config.webhook.config.maxClockSkew, last);
  }

  /** A delivery that is in its own way gets through only within the latency. */
  lemma WaitIsInLatency(config: Config, s: System, i: nat, key: string, hook: VerifyWebhookRequest, latency: nat)
    requires IsLog(s.calls)
    requires MadeCalls(config, s, i, key, hook, latency, ReplayPosition(s, i), DedupPosition(s, i))
    ensures Wait(config, key, hook) <= latency
  {
    if hook.replayKey == key {
      SuccessesAreSpaced(s.calls, ReplayPosition(s, i), DedupPosition(s, i));
    }
  }

  lemma RedeliveriesAreBounded(
      config: Config, s: System, picks: set<nat>, key: string, hook: VerifyWebhookRequest, latency: nat)
    requires IsReachable(config, s)
    requires forall i :: i in picks ==> IsSuccessOfHook(s, i, key, hook, latency)
    ensures |picks| <= RedeliveryBound(config, key, hook, latency)
  {
    forall i | i in picks
      ensures MadeCalls(config, s, i, key, hook, latency, ReplayPosition(s, i), DedupPosition(s, i))
    {
      CallsOfSuccess(config, s, i, key, hook, latency);
    }
    LogIsLog(config, s);
    CallsAreBounded(config, s, picks, key, hook, latency);
  }

  lemma CallsAreBounded(
      config: Config, s: System, picks: set<nat>, key: string, hook: VerifyWebhookRequest, latency: nat)
    requires IsConfig(config) && AllMadeCalls(config, s, picks, key, hook, latency)
    ensures |picks| <= RedeliveryBound(config, key, hook, latency)
  {
    if i :| i in picks {
      WaitIsInLatency(config, s, i, key, hook, latency);
      if hook.replayKey == key {
        BoundedByBoth(config, s, picks, key, hook, latency);
        MultipleOfSum(|picks|, config.webhook.replayTtl, config.dedupTtl);
        HowManyIff(|picks|, WindowWidth(config, latency) - Wait(config, key, hook), Period(config, key, hook));
      } else {
        BoundedByReplays(config, s, picks, key, hook, latency);
        BoundedByDedups(config, s, picks, key, hook, latency);
      }
    } else {
      assert picks == {};
    }
  }

  // ----- and as many do in some run

  /** The instants at which this webhook can be verified so that it is admitted, `wait` later, within the latency. */
  predicate CanVerifyAt(config: Config, hook: VerifyWebhookRequest, wait: Time, latency: nat, at: Time) {
    && wait <= latency
    && hook.eventTimestamp - config.webhook.config.maxClockSkew <= at
    && at + wait <= hook.eventTimestamp + config.webhook.config.maxClockSkew + latency
  }

  /** Neither record of the guard is in the way from this instant on. */
  ghost predicate IsReady(s: System, key: string, hook: VerifyWebhookRequest, at: Time) {
    IsFreeFrom(s, hook.replayKey, at) && IsFreeFrom(s, key, at)
  }

  /** This webhook, verified at `at`, and admitted as soon as nothing of its own is in the way. */
  lemma RunAgain(
      config: Config, states: States, s: System, hook: VerifyWebhookRequest, request: InboundRequest,
      at: Time, latency: nat)
    returns (t: System, d: Delivery)
    requires IsClosed(config, states) && s in states && IsConfig(config)
    requires IsDeliverable(config.webhook, hook) && Strip(request.content) != ""
    requires IsReady(s, request.Key(), hook, at)
    requires CanVerifyAt(config, hook, Wait(config, request.Key(), hook), latency, at)
    ensures EndsIn(config, states, s, t, d) && s.calls <= t.calls && d.hook == Some(hook)
    ensures HasSucceeded(t.calls, d, request.Key(), Some(hook.eventTimestamp), latency)
    ensures IsReady(t, request.Key(), hook, at + Period(config, request.Key(), hook))
  {
    var wait := Wait(config, request.Key(), hook);
    ReadingIsTimely(config, hook, wait, latency, at);
    NotInItsOwnWay(config, s.store, request.Key(), hook, at);
    t, d := RunWebhook(config, states, s, hook, request, LastReading(config, hook, at), at, at + wait);
    ReadyAfter(config, s.store, t, request.Key(), hook, at);
  }

  lemma ReadyAfter(config: Config, store: Store, t: System, key: string, hook: VerifyWebhookRequest, at: Time)
    requires IsConfig(config) && t.clock == at + Wait(config, key, hook)
    requires t.store == store[hook.replayKey := at + config.webhook.replayTtl][key := t.clock + config.dedupTtl]
    ensures IsReady(t, key, hook, at + Period(config, key, hook))
  {
  }

  lemma ReadingIsTimely(config: Config, hook: VerifyWebhookRequest, wait: Time, latency: nat, at: Time)
    requires IsConfig(config) && CanVerifyAt(config, hook, wait, latency, at)
    ensures var v := LastReading(config, hook, at);
            v <= at && Abs(v - hook.eventTimestamp) <= config.webhook.config.maxClockSkew && at + wait - v <= latency
  {
  }

  lemma NotInItsOwnWay(config: Config, store: Store, key: string, hook: VerifyWebhookRequest, at: Time)
    requires IsConfig(config) && !Live(store, key, at)
    ensures !Live(store[hook.replayKey := at + config.webhook.replayTtl], key, at + Wait(config, key, hook))
  {
  }

  ghost predicate AllOfHook(s: System, key: string, hook: VerifyWebhookRequest, latency: nat) {
    && AllSucceeded(s, key, Some(hook.eventTimestamp), latency)
    && forall i :: 0 <= i < |s.deliveries| ==> s.deliveries[i].hook == Some(hook)
  }

  /** n deliveries of this webhook, each as soon as the records of the one before have expired. */
  lemma {:induction false} RunManyAgain(
      config: Config, states: States, hook: VerifyWebhookRequest, request: InboundRequest,
      first: Time, latency: nat, period: Time, n: nat)
    returns (t: System)
    requires IsClosed(config, states) && Initial(first) in states && IsConfig(config)
    requires IsDeliverable(config.webhook, hook) && Strip(request.content) != ""
    requires period == Period(config, request.Key(), hook)
    requires forall k: nat :: k < n ==>
               CanVerifyAt(config, hook, Wait(config, request.Key(), hook), latency, first + Multiple(k, period))
    ensures t in states && |t.deliveries| == n && AllOfHook(t, request.Key(), hook, latency)
    ensures IsReady(t, request.Key(), hook, first + Multiple(n, period))
  {
    if n == 0 {
      t := Initial(first);
    } else {
      var before := RunManyAgain(config, states, hook, request, first, latency, period, n - 1);
      var at := first + Multiple(n - 1, period);
      var d;
      t, d := RunAgain(config, states, before, hook, request, at, latency);
      OneMoreOfHook(before, t, d, request.Key(), hook, latency);
    }
  }

  lemma OneMoreOfHook(s: System, t: System, d: Delivery, key: string, hook: VerifyWebhookRequest, latency: nat)
    requires AllOfHook(s, key, hook, latency) && t.deliveries == s.deliveries + [d] && s.calls <= t.calls
    requires HasSucceeded(t.calls, d, key, Some(hook.eventTimestamp), latency) && d.hook == Some(hook)
    ensures AllOfHook(t, key, hook, latency)
  {
    OneMoreSucceeded(s, t, d, key, Some(hook.eventTimestamp), latency);
  }

  /** n deliveries of this webhook fit into the window. */
  ghost predicate Fit(config: Config, key: string, hook: VerifyWebhookRequest, latency: nat, n: nat) {
    n > 0 ==>
      && Wait(config, key, hook) <= latency
      && Multiple(n - 1, Period(config, key, hook)) <= WindowWidth(config, latency) - Wait(config, key, hook)
  }

  lemma VerifiableInTime(
      config: Config, key: string, hook: VerifyWebhookRequest, latency: nat, n: nat, first: Time, k: nat)
    requires IsConfig(config) && Fit(config, key, hook, latency, n) && k < n
    requires first == hook.eventTimestamp - config.webhook.config.maxClockSkew
    ensures CanVerifyAt(config, hook, Wait(config, key, hook), latency, first + Multiple(k, Period(config, key, hook)))
  {
    MultipleGrows(0, k, Period(config, key, hook));
    MultipleGrows(k, n - 1, Period(config, key, hook));
  }

  lemma RunOfHook(config: Config, hook: VerifyWebhookRequest, request: InboundRequest, latency: nat, n: nat)
    returns (t: System)
    requires IsConfig(config) && IsDeliverable(config.webhook, hook) && Strip(request.content) != ""
    requires Fit(config, request.Key(), hook, latency, n)
    ensures IsReachable(config, t) && |t.deliveries| == n && AllOfHook(t, request.Key(), hook, latency)
  {
    var first, period := hook.eventTimestamp - config.webhook.config.maxClockSkew, Period(config, request.Key(), hook);
    forall k: nat | k < n
      ensures CanVerifyAt(config, hook, Wait(config, request.Key(), hook), latency, first + Multiple(k, period))
    {
      VerifiableInTime(config, request.Key(), hook, latency, n, first, k);
    }
    var states := InitialIsReachable(config, first);
    t := RunManyAgain(config, states, hook, request, first, latency, period, n);
  }

  lemma AllAreOfHook(t: System, key: string, hook: VerifyWebhookRequest, latency: nat) returns (picks: set<nat>)
    requires AllOfHook(t, key, hook, latency)
    ensures |picks| == |t.deliveries| && forall i :: i in picks ==> IsSuccessOfHook(t, i, key, hook, latency)
  {
    picks := AllAreSuccesses(t, key, Some(hook.eventTimestamp), latency);
  }

  /**
    For every configuration, correctly signed webhook, message and latency some run completes as many as the
    bound says.
   */
  lemma RedeliveryBoundIsAttained(config: Config, hook: VerifyWebhookRequest, request: InboundRequest, latency: nat)
    returns (t: System, picks: set<nat>)
    requires IsConfig(config) && IsDeliverable(config.webhook, hook) && Strip(request.content) != ""
    ensures IsReachable(config, t)
    ensures forall i :: i in picks ==> IsSuccessOfHook(t, i, request.Key(), hook, latency)
    ensures |picks| == RedeliveryBound(config, request.Key(), hook, latency)
  {
    var n := RedeliveryBound(config, request.Key(), hook, latency);
    BoundFits(config, request.Key(), hook, latency);
    t := RunOfHook(config, hook, request, latency, n);
    picks := AllAreOfHook(t, request.Key(), hook, latency);
  }

  lemma BoundFits(config: Config, key: string, hook: VerifyWebhookRequest, latency: nat)
    requires IsConfig(config)
    ensures Fit(config, key, hook, latency, RedeliveryBound(config, key, hook, latency))
  {
    HowManyIff(RedeliveryBound(config, key, hook, latency), WindowWidth(config, latency) - Wait(config, key, hook),
               Period(config, key, hook));
  }

  // ----- so it can complete twice exactly when there is room for both records

  ghost predicate CanBeRedelivered(config: Config, key: string, hook: VerifyWebhookRequest, latency: nat) {
    exists s, i, j :: i != j && IsReachable(config, s)
                      && IsSuccessOfHook(s, i, key, hook, latency) && IsSuccessOfHook(s, j, key, hook, latency)
  }

  predicate LeavesRoom(config: Config, key: string, hook: VerifyWebhookRequest, latency: nat) {
    var window, replayTtl, dedupTtl := WindowWidth(config, latency), config.webhook.replayTtl, config.dedupTtl;
    if hook.replayKey == key then replayTtl <= latency && 2 * replayTtl + dedupTtl <= window
    else replayTtl <= window && dedupTtl <= window
  }

  lemma RoomForTwo(config: Config, key: string, hook: VerifyWebhookRequest, latency: nat)
    requires IsConfig(config)
    ensures LeavesRoom(config, key, hook, latency) <==> 2 <= RedeliveryBound(config, key, hook, latency)
  {
    var wait, period := Wait(config, key, hook), Period(config, key, hook);
    if wait <= latency {
      HowManyIff(2, WindowWidth(config, latency) - wait, period);
      assert Multiple(1, period) == period;
    }
  }

  lemma TwoOf(s: set<nat>) returns (i: nat, j: nat)
    requires 2 <= |s|
    ensures i in s && j in s && i != j
  {
    i :| i in s;
    assert |s - {i}| == |s| - 1;
    j :| j in s - {i};
  }

  /** Exactly when one and the same webhook can be delivered twice and complete both times. */
  lemma RedeliveryCompletesIff(config: Config, hook: VerifyWebhookRequest, request: InboundRequest, latency: nat)
    requires IsConfig(config) && IsDeliverable(config.webhook, hook) && Strip(request.content) != ""
    ensures CanBeRedelivered(config, request.Key(), hook, latency) <==> LeavesRoom(config, request.Key(), hook, latency)
  {
    var key := request.Key();
    RoomForTwo(config, key, hook, latency);
    if LeavesRoom(config, key, hook, latency) {
      var t, picks := RedeliveryBoundIsAttained(config, hook, request, latency);
      var i, j := TwoOf(picks);
    }
    if s, i, j :| i != j && IsReachable(config, s)
                  && IsSuccessOfHook(s, i, key, hook, latency) && IsSuccessOfHook(s, j, key, hook, latency)
    {
      RedeliveriesAreBounded(config, s, {i, j}, key, hook, latency);
      assert |{i, j}| == 2;
    }
  }
}
