/** What the gateway promises, over every interleaving of any number of deliveries. */
module GatewayTheorems {
  import opened Prelude
  import opened ReplayGuard
  import opened Webhook
  import opened DedupKey
  import opened InboundExecution
  import opened InboundGateway
  import opened GatewayInvariant
  import M = MessageLifecycle
  import C = ConversationLifecycle

  /** A state some interleaving leads to. */
  ghost predicate IsReachable(config: Config, s: System) {
    IsConfig(config) && exists clock, actions :: s == After(config, clock, actions)
  }

  lemma ReachableIsOk(config: Config, s: System, i: nat)
    requires IsReachable(config, s)
    ensures Inv(config, s)
    ensures i < |s.deliveries| ==> DeliveryOk(config, s, i, s.deliveries[i])
  {
    var clock, actions :| s == After(config, clock, actions);
    InvAlways(config, clock, actions);
  }

  // ----- the pipeline

  /** No transition of a message or a conversation is ever refused, wherever the deliveries are interleaved. */
  lemma NoTransitionIsRefused(config: Config, s: System, i: nat)
    requires IsReachable(config, s) && i < |s.deliveries|
    ensures s.deliveries[i].stage.Running? && s.deliveries[i].stage.phase.Raised? ==>
              var e := s.deliveries[i].stage.phase.error;
              !e.IllegalMessageTransition? && !e.IllegalConversationTransition?
  {
    MessageIsOk(config, s, i);
  }

  lemma MessageIsOk(config: Config, s: System, i: nat)
    requires IsReachable(config, s) && i < |s.deliveries|
    ensures MessageOk(s.deliveries[i])
  {
    ReachableIsOk(config, s, i);
  }

  predicate IsComplete(d: Delivery) {
    d.stage.Running? && d.stage.phase.Completed?
  }

  /** What a success is: the message of this request in its conversation, with nothing else changed, admitted once. */
  lemma SuccessMeans(config: Config, s: System, i: nat)
    requires IsReachable(config, s) && i < |s.deliveries| && IsComplete(s.deliveries[i])
    ensures var d := s.deliveries[i];
            var Completed(m, c) := d.stage.phase;
            && m.status == M.MessageState.Contextualized && m.conversationId == c.conversationId
            && m.sender == d.request.providerSubjectId && m.timestamp == d.request.receivedAt
            && IsChannelText(d.request.channel, m.channel) && m.correlationId == d.request.correlationId
            && Uses(s.issued, m.messageId, ForMessage(i)) && c.state == C.Active
            && (d.request.webhookValidation.Some? ==> d.request.webhookValidation.value.valid)
            && d.trace.dedupCall.Some? && IsDedupCall(config, s.calls, i, d, d.trace.dedupCall.value)
            && s.calls[d.trace.dedupCall.value].first
  {
    ReachableIsOk(config, s, i);
    var d := s.deliveries[i];
    if d.trace.lookup == Some(None) {
      assert IsSaveBy(s, d.trace.save.value, s.saves[d.trace.save.value]);
    }
  }

  /** What every reachable delivery has done so far is as its trace says. */
  lemma FactsAreOk(config: Config, s: System, i: nat)
    requires IsReachable(config, s) && i < |s.deliveries|
    ensures FactsOk(s.deliveries[i])
  {
    ReachableIsOk(config, s, i);
  }

  /** The conversation is looked up for exactly the sender that the identity port has answered. */
  lemma LookupAsksForSender(config: Config, s: System, i: nat)
    requires IsReachable(config, s) && i < |s.deliveries|
    ensures var stage := s.deliveries[i].stage;
            (stage.Running? || stage.Answered?) && stage.phase.AwaitingConversation? ==>
              s.deliveries[i].trace.identity == Some(Some(stage.phase.channelIdentityId))
  {
    FactsAreOk(config, s, i);
  }

  /** A success has a sender that was found and content that is not blank. */
  lemma SuccessIsIdentified(config: Config, s: System, i: nat)
    requires IsReachable(config, s) && i < |s.deliveries| && IsComplete(s.deliveries[i])
    ensures s.deliveries[i].trace.identity.Some? && s.deliveries[i].trace.identity.value.Some?
    ensures !forall c :: c in s.deliveries[i].request.content ==> IsSpace(c)
  {
    FactsAreOk(config, s, i);
    StripIsEmptyIff(s.deliveries[i].request.content);
  }

  /** What each error says is so, and the first three come before the sender is looked up. */
  lemma RaisedMeans(config: Config, s: System, i: nat)
    requires IsReachable(config, s) && i < |s.deliveries|
    requires s.deliveries[i].stage.Running? && s.deliveries[i].stage.phase.Raised?
    ensures var request, trace := s.deliveries[i].request, s.deliveries[i].trace;
            match s.deliveries[i].stage.phase.error
            case SourceNotAuthenticated(reason) =>
              request.webhookValidation == Some(WebhookValidationResult(false, reason)) && trace.identity == None
            case EmptyContent =>
              && (request.webhookValidation.Some? ==> request.webhookValidation.value.valid)
              && (forall c :: c in request.content ==> IsSpace(c)) && trace.identity == None
            case DuplicateMessage(providerMessageId) =>
              && providerMessageId == request.providerMessageId && trace.identity == None
              && IsRefusedCall(config, s, i)
            case UnknownSender(channel, provider, providerSubjectId) =>
              && trace.identity == Some(None) && IsChannelText(request.channel, channel)
              && provider == request.provider && providerSubjectId == request.providerSubjectId
            case _ => false
  {
    FactsAreOk(config, s, i);
    NoTransitionIsRefused(config, s, i);
    StripIsEmptyIff(s.deliveries[i].request.content);
    if s.deliveries[i].stage.phase.error.DuplicateMessage? {
      DuplicateWasRefused(config, s, i);
    }
  }

  /** The delivery's dedup call was made and refused. */
  ghost predicate IsRefusedCall(config: Config, s: System, i: nat) {
    && i < |s.deliveries| && s.deliveries[i].trace.dedupCall.Some?
    && IsDedupCall(config, s.calls, i, s.deliveries[i], s.deliveries[i].trace.dedupCall.value)
    && !s.calls[s.deliveries[i].trace.dedupCall.value].first
  }

  lemma DuplicateWasRefused(config: Config, s: System, i: nat)
    requires IsReachable(config, s) && i < |s.deliveries|
    requires s.deliveries[i].stage.Running? && s.deliveries[i].stage.phase.Raised?
    requires s.deliveries[i].stage.phase.error.DuplicateMessage?
    ensures IsRefusedCall(config, s, i)
  {
    ReachableIsOk(config, s, i);
  }

  /**
    A webhook delivery that is past verification carries its verdict: that of the checks, at the clock reading they
    were made with, if one of them failed, and the guard's on its own replay call if none did.
   */
  lemma VerdictIsCarried(config: Config, s: System, i: nat)
    requires IsReachable(config, s) && i < |s.deliveries| && s.deliveries[i].hook.Some?
    requires s.deliveries[i].stage.Verified? || s.deliveries[i].stage.Running? || s.deliveries[i].stage.Answered?
    ensures IsVouchedFor(config, s.calls, s.deliveries[i])
  {
    ReachableIsOk(config, s, i);
  }

  predicate IsOver(stage: Stage) {
    stage.Aborted? || stage.Faulted? || (stage.Running? && !IsWaiting(stage.phase))
  }

  /** A delivery that is over, however it ended, stays as it is, whatever else happens. */
  lemma OverIsOver(config: Config, s: System, a: Action, i: nat)
    requires i < |s.deliveries| && IsOver(s.deliveries[i].stage)
    ensures i < |Next(config, s, a).deliveries| && Next(config, s, a).deliveries[i] == s.deliveries[i]
  {
  }

  /** The trace notes the clock readings that are used and the answers that are given, as they are given. */
  lemma StepIsNoted(config: Config, s: System, i: nat, d: Delivery, step: Step)
    requires CanStep(s, d, step)
    ensures var e := StepEffect(config, s, i, d, step);
            match step
            case Check(now) => e.delivery.trace.checkedAt == Some(now)
            case Start(id) =>
              e.delivery.stage.phase.AwaitingGuard? ==>
                e.delivery.trace.startedAt == Some(s.clock) && e.delivery.trace.messageId == Some(id)
            case ServeIdentity(found) =>
              e.delivery.trace.identity == Some(found)
                && e.delivery.stage == Answered(d.stage.phase, IdentityReply(found))
            case ServeLookup(found) =>
              e.delivery.trace.lookup == Some(found) && e.delivery.stage == Answered(d.stage.phase, LookupReply(found))
            case _ => true
  {
  }

  // ----- identifiers

  /** All ids are accounted for: what was issued is what the deliveries drew, for their messages and conversations. */
  lemma IssuedIffDrawn(config: Config, s: System, id: string)
    requires IsReachable(config, s)
    ensures id in s.issued <==> exists i: nat ::
              i < |s.deliveries|
              && (s.deliveries[i].trace.messageId == Some(id) || s.deliveries[i].trace.startedId == Some(id))
  {
    ReachableIsOk(config, s, 0);
    if id in s.issued {
      assert IsDrawnBy(s, id, s.issued[id]);
    }
    if i: nat :| i < |s.deliveries|
                 && (s.deliveries[i].trace.messageId == Some(id) || s.deliveries[i].trace.startedId == Some(id))
    {
      ReachableIsOk(config, s, i);
    }
  }

  /** With an id source that never repeats itself, no two drawn ids are the same, whatever became of the deliveries. */
  lemma GeneratedIdsAreDistinct(config: Config, s: System, i: nat, j: nat)
    requires IsReachable(config, s) && i < |s.deliveries| && j < |s.deliveries|
    ensures var t, u := s.deliveries[i].trace, s.deliveries[j].trace;
            && (t.messageId.Some? ==> t.messageId != u.startedId)
            && (i != j && t.messageId.Some? ==> t.messageId != u.messageId)
            && (i != j && t.startedId.Some? ==> t.startedId != u.startedId)
  {
    ReachableIsOk(config, s, i);
    ReachableIsOk(config, s, j);
  }

  /** Every saved conversation has the id its delivery drew for it, so no two saves are of the same conversation. */
  lemma SavedIdsAreDistinct(config: Config, s: System, p: nat, q: nat)
    requires IsReachable(config, s) && p < |s.saves| && q < |s.saves|
    ensures s.saves[p].owner < |s.deliveries|
    ensures s.deliveries[s.saves[p].owner].trace.startedId == Some(s.saves[p].conversation.conversationId)
    ensures p != q ==> s.saves[p].conversation.conversationId != s.saves[q].conversation.conversationId
  {
    ReachableIsOk(config, s, 0);
    assert IsSaveBy(s, p, s.saves[p]) && IsSaveBy(s, q, s.saves[q]);
    GeneratedIdsAreDistinct(config, s, s.saves[p].owner, s.saves[q].owner);
  }

  /** The id of the message a delivery is working on or has completed. */
  function MessageIdOf(d: Delivery): Option<string> {
    match d.stage
    case Running(phase) => if phase.Raised? then None else Some(phase.message.messageId)
    case Answered(phase, _) => if phase.Raised? then None else Some(phase.message.messageId)
    case _ => None
  }

  /** The message has the id that was drawn for it, or the delivery is over without success. */
  predicate HasDrawnId(d: Delivery, id: string) {
    && d.trace.messageId == Some(id)
    && (MessageIdOf(d) == Some(id) || (MessageIdOf(d) == None && !IsUnderWay(d.stage) && !IsComplete(d)))
  }

  /** Once an id is drawn for a message, no step of any delivery changes it for as long as the delivery lasts. */
  lemma MessageIdIsKept(config: Config, s: System, a: Action, i: nat, id: string)
    requires IsReachable(config, s) && i < |s.deliveries| && s.deliveries[i].trace.messageId == Some(id)
    ensures HasDrawnId(s.deliveries[i], id)
    ensures i < |Next(config, s, a).deliveries| && HasDrawnId(Next(config, s, a).deliveries[i], id)
  {
    ReachableIsOk(config, s, i);
    var t := Next(config, s, a);
    NextDelivery(config, s, a, i);
    if a.Deliver? && a.i == i {
      EffectIsOrderly(config, s, i, s.deliveries[i], a.step);
    }
    NextKeepsInv(config, s, a);
    DrawnIdIsCarried(s.deliveries[i], id);
    assert DeliveryOk(config, t, i, t.deliveries[i]);
    DrawnIdIsCarried(t.deliveries[i], id);
  }

  lemma DrawnIdIsCarried(d: Delivery, id: string)
    requires MessageOk(d) && StageIdsOk(d) && d.trace.messageId == Some(id)
    ensures HasDrawnId(d, id)
  {
  }

  /** Only its own steps change a delivery. */
  lemma NextDelivery(config: Config, s: System, a: Action, i: nat)
    requires i < |s.deliveries|
    ensures i < |Next(config, s, a).deliveries|
    ensures Next(config, s, a).deliveries[i] ==
            if a.Deliver? && a.i == i then StepEffect(config, s, i, s.deliveries[i], a.step).delivery
            else s.deliveries[i]
  {
  }

  // ----- how often one provider message gets through

  /** When this delivery's dedup call was performed. */
  ghost function DedupAt(s: System, i: nat): Time
    requires i < |s.deliveries|
  {
    var call := s.deliveries[i].trace.dedupCall;
    if call.Some? && call.value < |s.calls| then s.calls[call.value].at else 0
  }

  /** Where the guard's log has the delivery's dedup call. */
  ghost function DedupPosition(s: System, i: nat): nat {
    if i < |s.deliveries| && s.deliveries[i].trace.dedupCall.Some? then s.deliveries[i].trace.dedupCall.value
    else |s.calls|
  }

  lemma AdmittingCall(config: Config, s: System, i: nat) returns (p: nat)
    requires IsReachable(config, s) && i < |s.deliveries| && IsComplete(s.deliveries[i])
    ensures IsLog(s.calls) && p < |s.calls|
    ensures s.deliveries[i].trace.dedupCall == Some(p) && DedupAt(s, i) == s.calls[p].at
    ensures s.calls[p] == GuardCall(i, s.deliveries[i].request.Key(), config.dedupTtl, DedupAt(s, i), true)
  {
    ReachableIsOk(config, s, i);
    p := s.deliveries[i].trace.dedupCall.value;
  }

  /** Two deliveries with one key that both got past the guard did so at least the dedup TTL apart. */
  lemma AdmissionsAreSpaced(config: Config, s: System, i: nat, j: nat)
    requires IsReachable(config, s) && i < |s.deliveries| && j < |s.deliveries| && i != j
    requires IsComplete(s.deliveries[i]) && IsComplete(s.deliveries[j])
    requires s.deliveries[i].request.Key() == s.deliveries[j].request.Key()
    ensures config.dedupTtl <= Abs(DedupAt(s, i) - DedupAt(s, j))
  {
    var p := AdmittingCall(config, s, i);
    var q := AdmittingCall(config, s, j);
    if p < q {
      SuccessesAreSpaced(s.calls, p, q);
    } else {
      SuccessesAreSpaced(s.calls, q, p);
    }
  }

  /**
    The delivery's dedup call was performed at most `latency` after the clock reading its envelope was checked
    against.
   */
  ghost predicate IsPrompt(s: System, i: nat, latency: nat)
    requires i < |s.deliveries|
  {
    s.deliveries[i].trace.checkedAt.Some? ==> DedupAt(s, i) - s.deliveries[i].trace.checkedAt.value <= latency
  }

  /** A webhook delivery that completes was admitted inside the window in which its timestamp is acceptable. */
  lemma AdmittedInWindow(config: Config, s: System, i: nat, latency: nat)
    requires IsReachable(config, s) && i < |s.deliveries|
    requires IsComplete(s.deliveries[i]) && s.deliveries[i].hook.Some? && IsPrompt(s, i, latency)
    ensures var timestamp := s.deliveries[i].hook.value.eventTimestamp;
            var skew := config.webhook.config.maxClockSkew;
            timestamp - skew <= DedupAt(s, i) <= timestamp + skew + latency
  {
    ReachableIsOk(config, s, i);
    var d := s.deliveries[i];
    assert IsVouchedFor(config, s.calls, d);
    assert PassedCheck(config, d, s.calls[d.trace.replayCall.value].at);
    assert ReachesGuard(config.webhook, d.hook.value, d.trace.checkedAt.value);
  }

  /**
    End to end at most once: of the webhook deliveries of one provider message at most one completes, however
    many are verified and however they interleave, as long as the dedup TTL outlasts the acceptance window, the
    latency and the distance of their event timestamps.
   */
  lemma CompletesAtMostOnce(config: Config, s: System, i: nat, j: nat, latency: nat)
    requires IsReachable(config, s) && i < |s.deliveries| && j < |s.deliveries|
    requires IsComplete(s.deliveries[i]) && s.deliveries[i].hook.Some? && IsPrompt(s, i, latency)
    requires IsComplete(s.deliveries[j]) && s.deliveries[j].hook.Some? && IsPrompt(s, j, latency)
    requires s.deliveries[i].request.Key() == s.deliveries[j].request.Key()
    requires TimestampDistance(s, i, j) + 2 * config.webhook.config.maxClockSkew + latency < config.dedupTtl
    ensures i == j
  {
    if i != j {
      AdmissionsAreSpaced(config, s, i, j);
      AdmittedInWindow(config, s, i, latency);
      AdmittedInWindow(config, s, j, latency);
    }
  }

  ghost function TimestampDistance(s: System, i: nat, j: nat): nat
    requires i < |s.deliveries| && s.deliveries[i].hook.Some?
    requires j < |s.deliveries| && s.deliveries[j].hook.Some?
  {
    Abs(s.deliveries[i].hook.value.eventTimestamp - s.deliveries[j].hook.value.eventTimestamp)
  }

  /** With the default skew and dedup TTL, distance and latency may come to anything below 23 hours and 50 minutes. */
  lemma DefaultsCompleteOnce(config: Config, s: System, i: nat, j: nat, latency: nat)
    requires IsReachable(config, s) && i < |s.deliveries| && j < |s.deliveries|
    requires config.webhook.config == DEFAULT_CONFIG && config.dedupTtl == DEFAULT_DEDUP_TTL
    requires IsComplete(s.deliveries[i]) && s.deliveries[i].hook.Some? && IsPrompt(s, i, latency)
    requires IsComplete(s.deliveries[j]) && s.deliveries[j].hook.Some? && IsPrompt(s, j, latency)
    requires s.deliveries[i].request.Key() == s.deliveries[j].request.Key()
    requires TimestampDistance(s, i, j) + latency < (23 * 60 + 50) * 60 * SECOND
    ensures i == j
  {
    CompletesAtMostOnce(config, s, i, j, latency);
  }

  /** Where the guard's log has the delivery's replay call. */
  ghost function ReplayPosition(s: System, i: nat): nat {
    if i < |s.deliveries| && s.deliveries[i].trace.replayCall.Some? then s.deliveries[i].trace.replayCall.value
    else |s.calls|
  }

  /** A delivery whose replay call succeeded within the latency. */
  ghost predicate IsVerification(s: System, i: nat, key: string, timestamp: Time, latency: nat) {
    && i < |s.deliveries| && s.deliveries[i].hook.Some?
    && s.deliveries[i].hook.value.replayKey == key && s.deliveries[i].hook.value.eventTimestamp == timestamp
    && ReplayPosition(s, i) < |s.calls| && s.calls[ReplayPosition(s, i)].first
    && s.deliveries[i].trace.checkedAt.Some?
    && s.calls[ReplayPosition(s, i)].at - s.deliveries[i].trace.checkedAt.value <= latency
  }

  lemma VerificationIsSuccess(config: Config, s: System, i: nat, key: string, timestamp: Time, latency: nat)
    requires IsReachable(config, s) && IsVerification(s, i, key, timestamp, latency)
    ensures var skew := config.webhook.config.maxClockSkew;
            IsSuccess(s.calls, ReplayPosition(s, i), key, config.webhook.replayTtl,
                      timestamp - skew, timestamp + skew + latency)
  {
    ReachableIsOk(config, s, i);
    var d := s.deliveries[i];
    assert IsReplayCall(config, s.calls, i, d, d.trace.replayCall.value);
    assert ReachesGuard(config.webhook, d.hook.value, d.trace.checkedAt.value);
  }

  /**
    Verification alone lets one event through as often as its own bound allows, also when the guard is shared
    with the dedup calls of every delivery. `picks` are deliveries in the order their replay calls were performed.
   */
  lemma VerificationsAreBounded(config: Config, s: System, picks: seq<nat>, key: string, timestamp: Time, latency: nat)
    requires IsReachable(config, s)
    requires forall a :: 0 <= a < |picks| ==> IsVerification(s, picks[a], key, timestamp, latency)
    requires forall a, b :: 0 <= a < b < |picks| ==>
               ReplayPosition(s, picks[a]) < ReplayPosition(s, picks[b])
    ensures |picks| <= AcceptanceBound(config.webhook, latency)
  {
    var positions := VerificationPositions(config, s, picks, key, timestamp, latency);
    VerificationsAreFew(config, s.calls, positions, key, timestamp, latency);
  }

  /** Where the guard's log has the replay calls of these deliveries. */
  lemma VerificationPositions(config: Config, s: System, picks: seq<nat>, key: string, timestamp: Time, latency: nat)
    returns (positions: seq<nat>)
    requires IsReachable(config, s)
    requires forall a :: 0 <= a < |picks| ==> IsVerification(s, picks[a], key, timestamp, latency)
    requires forall a, b :: 0 <= a < b < |picks| ==>
               ReplayPosition(s, picks[a]) < ReplayPosition(s, picks[b])
    ensures |positions| == |picks| && IsLog(s.calls)
    ensures var skew := config.webhook.config.maxClockSkew;
            AreSuccesses(s.calls, positions, key, config.webhook.replayTtl,
                         timestamp - skew, timestamp + skew + latency)
  {
    var skew := config.webhook.config.maxClockSkew;
    positions := seq(|picks|, a requires 0 <= a < |picks| => ReplayPosition(s, picks[a]));
    forall a | 0 <= a < |picks|
      ensures IsSuccess(s.calls, positions[a], key, config.webhook.replayTtl,
                        timestamp - skew, timestamp + skew + latency)
    {
      VerificationIsSuccess(config, s, picks[a], key, timestamp, latency);
    }
    LogIsLog(config, s);
  }

  lemma VerificationsAreFew(
      config: Config, calls: seq<GuardCall>, positions: seq<nat>, key: string, timestamp: Time, latency: nat)
    requires IsConfig(config) && IsLog(calls)
    requires var skew := config.webhook.config.maxClockSkew;
             AreSuccesses(calls, positions, key, config.webhook.replayTtl, timestamp - skew, timestamp + skew + latency)
    ensures |positions| <= AcceptanceBound(config.webhook, latency)
  {
    var lo, hi := Window(config.webhook, timestamp, latency);
    SuccessesAreFew(calls, positions, key, config.webhook.replayTtl, lo, hi);
  }

  lemma LogIsLog(config: Config, s: System)
    requires IsReachable(config, s)
    ensures IsLog(s.calls)
  {
    ReachableIsOk(config, s, 0);
  }

  // ----- what becomes of the dedup key

  /** Where a delivery can be once its dedup call was refused. */
  predicate IsTurnedAway(stage: Stage) {
    || stage.Faulted?
    || (stage.Answered? && stage.phase.AwaitingGuard? && stage.reply == GuardReply(false))
    || (stage.Running? && stage.phase.Raised? && stage.phase.error.DuplicateMessage?)
  }

  /** Where a delivery can be once its dedup call succeeded. */
  predicate IsLetIn(stage: Stage) {
    || (stage.Answered? && stage.phase.AwaitingGuard? && stage.reply == GuardReply(true))
    || (stage.Running? && IsAdmitted(stage.phase))
    || (stage.Answered? && IsAdmitted(stage.phase))
  }

  /** Unless a port failed, the key is consumed exactly by the deliveries that are let in, whatever they come to. */
  lemma KeyIsConsumedIff(config: Config, s: System, i: nat)
    requires IsReachable(config, s) && i < |s.deliveries| && !s.deliveries[i].stage.Faulted?
    ensures IsLetIn(s.deliveries[i].stage) <==>
            exists p :: 0 <= p < |s.calls| && s.deliveries[i].trace.dedupCall == Some(p) && s.calls[p].first
  {
    ReachableIsOk(config, s, i);
  }

  /**
    A redelivery inside the TTL is turned away, even if the first delivery ended with an unknown sender
    (or a failed port) and the sender has become known since.
   */
  lemma RedeliveryIsTurnedAway(config: Config, s: System, i: nat, j: nat, p: nat, q: nat)
    requires IsReachable(config, s) && i < |s.deliveries| && j < |s.deliveries|
    requires s.deliveries[i].request.Key() == s.deliveries[j].request.Key()
    requires s.deliveries[i].trace.dedupCall == Some(p) && p < |s.calls| && s.calls[p].first
    requires s.deliveries[j].trace.dedupCall == Some(q) && p < q < |s.calls|
    requires s.calls[q].at < s.calls[p].at + config.dedupTtl
    ensures IsTurnedAway(s.deliveries[j].stage)
  {
    ReachableIsOk(config, s, i);
    ReachableIsOk(config, s, j);
    if s.calls[q].first {
      SuccessesAreSpaced(s.calls, p, q);
    }
  }

  /**
    Both uses of the guard share one key space: a webhook whose replay key is its own message's dedup key
    gets through only when the replay record has expired before the dedup call.
   */
  lemma OwnReplayKeyBlocks(config: Config, s: System, i: nat)
    requires IsReachable(config, s) && i < |s.deliveries| && IsComplete(s.deliveries[i]) && s.deliveries[i].hook.Some?
    requires s.deliveries[i].hook.value.replayKey == s.deliveries[i].request.Key()
    ensures ReplayAt(s, i) + config.webhook.replayTtl <= DedupAt(s, i)
  {
    var q := VouchingCall(config, s, i);
    var p := AdmittingCall(config, s, i);
    SuccessesAreSpaced(s.calls, q, p);
  }

  /** When this delivery's replay call was performed. */
  ghost function ReplayAt(s: System, i: nat): Time
    requires i < |s.deliveries|
  {
    var call := s.deliveries[i].trace.replayCall;
    if call.Some? && call.value < |s.calls| then s.calls[call.value].at else 0
  }

  lemma VouchingCall(config: Config, s: System, i: nat) returns (q: nat)
    requires IsReachable(config, s) && i < |s.deliveries| && IsComplete(s.deliveries[i]) && s.deliveries[i].hook.Some?
    ensures q < |s.calls| && s.deliveries[i].trace.replayCall == Some(q)
    ensures s.calls[q] ==
            GuardCall(i, s.deliveries[i].hook.value.replayKey, config.webhook.replayTtl, ReplayAt(s, i), true)
    ensures s.deliveries[i].trace.dedupCall.Some? && q < s.deliveries[i].trace.dedupCall.value
  {
    ReachableIsOk(config, s, i);
    var d := s.deliveries[i];
    assert IsVouchedFor(config, s.calls, d);
    q := d.trace.replayCall.value;
    assert IsReplayCall(config, s.calls, i, d, q);
  }

  /** The clock reading of the check is not after the replay call, and the log is in the order of time. */
  lemma CheckedBeforeCalls(config: Config, s: System, i: nat)
    requires IsReachable(config, s) && i < |s.deliveries| && IsComplete(s.deliveries[i]) && s.deliveries[i].hook.Some?
    ensures var d := s.deliveries[i];
            && d.trace.checkedAt.Some? && d.trace.checkedAt.value <= ReplayAt(s, i) <= DedupAt(s, i)
            && d.hook.value.eventTimestamp - config.webhook.config.maxClockSkew <= d.trace.checkedAt.value
  {
    var q := VouchingCall(config, s, i);
    var p := AdmittingCall(config, s, i);
    ReachableIsOk(config, s, i);
    var d := s.deliveries[i];
    assert IsReplayCall(config, s.calls, i, d, q);
    assert ReachesGuard(config.webhook, d.hook.value, d.trace.checkedAt.value);
  }

  // ----- saves

  ghost function Owners(saves: seq<Save>): set<nat> {
    set p | 0 <= p < |saves| :: saves[p].owner
  }

  ghost function SavedBy(s: System): set<nat> {
    set i: nat | i < |s.deliveries| && s.deliveries[i].trace.save.Some?
  }

  lemma {:induction false} DistinctOwners(saves: seq<Save>)
    requires forall p, q :: 0 <= p < q < |saves| ==> saves[p].owner != saves[q].owner
    ensures |Owners(saves)| == |saves|
  {
    if saves != [] {
      var n := |saves| - 1;
      DistinctOwners(saves[..n]);
      assert Owners(saves) == Owners(saves[..n]) + {saves[n].owner};
    }
  }

  /** A delivery saves at most once, and the log has exactly the saves of the deliveries that saved. */
  lemma SavesAreCounted(config: Config, s: System)
    requires IsReachable(config, s)
    ensures |s.saves| == |SavedBy(s)|
  {
    ReachableIsOk(config, s, 0);
    forall p, q | 0 <= p < q < |s.saves|
      ensures s.saves[p].owner != s.saves[q].owner
    {
      assert IsSaveBy(s, p, s.saves[p]) && IsSaveBy(s, q, s.saves[q]);
    }
    DistinctOwners(s.saves);
    forall i: nat | i in SavedBy(s)
      ensures i in Owners(s.saves)
    {
      assert DeliveryOk(config, s, i, s.deliveries[i]);
    }
    forall i: nat | i in Owners(s.saves)
      ensures i in SavedBy(s)
    {
      var p :| 0 <= p < |s.saves| && s.saves[p].owner == i;
      assert IsSaveBy(s, p, s.saves[p]);
    }
    assert SavedBy(s) == Owners(s.saves);
  }

  /** Nothing is under way and no port has failed. */
  ghost predicate IsQuietAndFaultless(s: System) {
    forall i :: 0 <= i < |s.deliveries| ==> !IsUnderWay(s.deliveries[i].stage) && !s.deliveries[i].stage.Faulted?
  }

  ghost function CompletedWithNothingFound(s: System): set<nat> {
    set i: nat | i < |s.deliveries| && IsComplete(s.deliveries[i]) && s.deliveries[i].trace.lookup == Some(None)
  }

  /** Conservation: once a faultless run is quiet, there is one save for each completion whose lookup found nothing. */
  lemma SavesEqualNewConversations(config: Config, s: System)
    requires IsReachable(config, s) && IsQuietAndFaultless(s)
    ensures |s.saves| == |CompletedWithNothingFound(s)|
  {
    SavesAreCounted(config, s);
    forall i: nat | i < |s.deliveries|
      ensures i in SavedBy(s) <==> i in CompletedWithNothingFound(s)
    {
      ReachableIsOk(config, s, i);
    }
    assert SavedBy(s) == CompletedWithNothingFound(s);
  }

  /** A delivery that raised has saved nothing; one that saved and raised can only have lost a port. */
  lemma FailureSavesNothing(config: Config, s: System, i: nat)
    requires IsReachable(config, s) && i < |s.deliveries|
    requires s.deliveries[i].stage.Aborted? || (s.deliveries[i].stage.Running? && s.deliveries[i].stage.phase.Raised?)
    ensures forall p :: 0 <= p < |s.saves| ==> s.saves[p].owner != i
  {
    ReachableIsOk(config, s, i);
    NoSaveNoEntry(s, i);
  }

  lemma CompletedSave(config: Config, s: System, i: nat)
    requires IsReachable(config, s) && i < |s.deliveries| && IsComplete(s.deliveries[i])
    ensures SaveOk(s.saves, i, s.deliveries[i]) && SavesOwned(s)
  {
    ReachableIsOk(config, s, i);
  }

  /** A completed delivery's conversation is the one it found, and it saved nothing, or one it started and saved. */
  lemma ConversationOfSuccess(config: Config, s: System, i: nat)
    requires IsReachable(config, s) && i < |s.deliveries| && IsComplete(s.deliveries[i])
    ensures var d := s.deliveries[i];
            var c := d.stage.phase.conversation;
            || (d.trace.lookup == Some(Some(c)) && forall p :: 0 <= p < |s.saves| ==> s.saves[p].owner != i)
            || (d.trace.lookup == Some(None) && IsStartedFor(d.request, c) && Save(i, c) in s.saves
                && d.trace.startedAt == Some(c.createdAt))
  {
    CompletedSave(config, s, i);
    if s.deliveries[i].trace.save.Some? {
      SaveIsStarted(s, i, s.deliveries[i].trace.save.value);
    } else {
      NoSaveNoEntry(s, i);
    }
  }

  lemma SaveIsStarted(s: System, i: nat, p: nat)
    requires SavesOwned(s) && i < |s.deliveries| && p < |s.saves| && s.saves[p].owner == i
    ensures IsStartedFor(s.deliveries[i].request, s.saves[p].conversation)
  {
    assert IsSaveBy(s, p, s.saves[p]);
  }

  lemma NoSaveNoEntry(s: System, i: nat)
    requires SavesOwned(s) && i < |s.deliveries| && s.deliveries[i].trace.save.None?
    ensures forall p :: 0 <= p < |s.saves| ==> s.saves[p].owner != i
  {
    forall p | 0 <= p < |s.saves|
      ensures s.saves[p].owner != i
    {
      assert IsSaveBy(s, p, s.saves[p]);
    }
  }
}
