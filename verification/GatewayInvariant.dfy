/** What holds of every delivery, of the guard's log and of the saves in every state of the gateway. */
module GatewayInvariant {
  import opened Prelude
  import opened ReplayGuard
  import opened Webhook
  import opened DedupKey
  import opened InboundExecution
  import opened InboundGateway
  import M = MessageLifecycle
  import C = ConversationLifecycle

  // ----- the message: its status is determined by where the delivery is

  predicate Answers(phase: Phase, reply: Reply) {
    || (phase.AwaitingGuard? && reply.GuardReply?)
    || (phase.AwaitingIdentity? && reply.IdentityReply?)
    || (phase.AwaitingConversation? && reply.LookupReply?)
    || (phase.AwaitingSave? && reply.SaveReply?)
  }

  ghost predicate MessageOk(d: Delivery) {
    match d.stage
    case Running(phase) => IsSound(d.request, phase)
    case Answered(phase, reply) => IsSound(d.request, phase) && Answers(phase, reply)
    case _ => true
  }

  lemma MessageStep(config: Config, s: System, i: nat, d: Delivery, step: Step)
    requires MessageOk(d)
    ensures MessageOk(StepEffect(config, s, i, d, step).delivery)
  {
    match (step, d.stage)
    case (Start(id), Verified) => BeginIsSound(d.request, s.clock, id);
    case (Resume(id), Answered(before, reply)) => ResumeIsSound(d.request, before, reply, id);
    case _ =>
  }

  lemma ResumeIsSound(request: InboundRequest, phase: Phase, reply: Reply, id: string)
    requires IsSound(request, phase) && Answers(phase, reply)
    ensures IsSound(request, ResumePhase(request, phase, reply, id))
  {
    match (phase, reply)
    case (AwaitingGuard(now, message), GuardReply(first)) =>
    case (AwaitingIdentity(now, message), IdentityReply(found)) => AfterIdentityIsSound(request, now, message, found);
    case (AwaitingConversation(now, message, _), LookupReply(found)) =>
      AfterLookupIsSound(request, now, message, found, id);
    case (AwaitingSave(now, message, conversation), SaveReply) => AfterSaveIsSound(request, now, message, conversation);
  }

  // ----- the dedup call: made once, at its await; only a first occurrence gets past it

  /** The phases after a first occurrence was confirmed. */
  predicate IsAdmitted(phase: Phase) {
    || phase.AwaitingIdentity? || phase.AwaitingConversation? || phase.AwaitingSave? || phase.Completed?
    || (phase.Raised? && phase.error.UnknownSender?)
  }

  ghost predicate IsDedupCall(config: Config, calls: seq<GuardCall>, i: nat, d: Delivery, p: nat) {
    p < |calls| && calls[p].caller == i && calls[p].key == d.request.Key() && calls[p].ttl == config.dedupTtl
  }

  ghost predicate DedupOk(config: Config, calls: seq<GuardCall>, i: nat, d: Delivery) {
    var call := d.trace.dedupCall;
    && (call.Some? ==> IsDedupCall(config, calls, i, d, call.value))
    && match d.stage
       case Running(AwaitingGuard(_, _)) => call.None?
       case Running(Raised(DuplicateMessage(_))) => call.Some? && !calls[call.value].first
       case Running(phase) => if IsAdmitted(phase) then call.Some? && calls[call.value].first else call.None?
       case Answered(AwaitingGuard(_, _), reply) => call.Some? && reply == GuardReply(calls[call.value].first)
       case Answered(phase, _) => IsAdmitted(phase) && call.Some? && calls[call.value].first
       case Faulted => true
       case _ => call.None?
  }

  lemma DedupStart(config: Config, calls: seq<GuardCall>, i: nat, d: Delivery, now: Time, id: string)
    requires d.stage.Verified? && DedupOk(config, calls, i, d)
    ensures DedupOk(config, calls, i, StartEffect(i, d, now, id).delivery)
  {
    BeginIsSound(d.request, now, id);
  }

  lemma DedupResume(config: Config, calls: seq<GuardCall>, i: nat, d: Delivery, id: string)
    requires d.stage.Answered? && MessageOk(d) && DedupOk(config, calls, i, d)
    ensures DedupOk(config, calls, i, ResumeEffect(i, d, d.stage.phase, d.stage.reply, id).delivery)
  {
    ResumeIsSound(d.request, d.stage.phase, d.stage.reply, id);
  }

  lemma DedupStep(config: Config, s: System, i: nat, d: Delivery, step: Step)
    requires i < |s.deliveries| && MessageOk(d) && DedupOk(config, s.calls, i, d)
    ensures var e := StepEffect(config, s, i, d, step);
            DedupOk(config, Applied(s, i, e).calls, i, e.delivery)
  {
    match (step, d.stage)
    case (Start(id), Verified) => DedupStart(config, s.calls, i, d, s.clock, id);
    case (Resume(id), Answered(before, reply)) => DedupResume(config, s.calls, i, d, id);
    case _ =>
  }

  // ----- verification: what a passed check says, and that processing is only let through by one

  /** The reading `at` passed every check that comes before the guard. */
  ghost predicate PassedCheck(config: Config, d: Delivery, clock: Time) {
    d.hook.Some? && d.trace.checkedAt.Some? && d.trace.checkedAt.value <= clock
    && ReachesGuard(config.webhook, d.hook.value, d.trace.checkedAt.value)
  }

  ghost predicate IsReplayCall(config: Config, calls: seq<GuardCall>, i: nat, d: Delivery, q: nat) {
    && q < |calls| && d.hook.Some? && PassedCheck(config, d, calls[q].at)
    && calls[q].caller == i && calls[q].key == d.hook.value.replayKey && calls[q].ttl == config.webhook.replayTtl
  }

  /**
    A webhook delivery past verification carries its verdict: the guard's, if its envelope passed, and else that of
    the first check that failed. So it is processed as authentic exactly when its own replay call succeeded.
   */
  ghost predicate IsVouchedFor(config: Config, calls: seq<GuardCall>, d: Delivery) {
    && d.hook.Some? && d.trace.checkedAt.Some? && d.request.webhookValidation.Some?
    && if ReachesGuard(config.webhook, d.hook.value, d.trace.checkedAt.value)
       then && d.trace.replayCall.Some? && d.trace.replayCall.value < |calls|
            && d.request.webhookValidation.value == GuardVerdict(calls[d.trace.replayCall.value].first)
       else && d.trace.replayCall.None?
            && Precheck(config.webhook, d.hook.value, d.trace.checkedAt.value) == Ok(d.request.webhookValidation.value)
  }

  predicate IsPastValidation(stage: Stage) {
    || (stage.Running?
       && (stage.phase.Raised? ==> !stage.phase.error.SourceNotAuthenticated? && !stage.phase.error.EmptyContent?))
    || stage.Answered?
  }

  ghost predicate VerifyOk(config: Config, calls: seq<GuardCall>, i: nat, d: Delivery, clock: Time) {
    var replay := d.trace.replayCall;
    && (replay.Some? ==> IsReplayCall(config, calls, i, d, replay.value))
    && (IsPastValidation(d.stage) && d.request.webhookValidation.Some? ==> d.request.webhookValidation.value.valid)
    && match d.stage
       case Arrived => d.hook.Some? && replay.None? && d.trace.checkedAt.None?
       case VerifyCalled => PassedCheck(config, d, clock) && replay.None?
       case VerifyAnswered(first) => replay.Some? && calls[replay.value].first == first
       case Aborted(e) =>
         && replay.None? && d.hook.Some? && d.trace.checkedAt.Some?
         && Precheck(config.webhook, d.hook.value, d.trace.checkedAt.value) == Err(e)
       case Faulted => true
       case _ => d.hook.Some? ==> IsVouchedFor(config, calls, d)
  }

  lemma VerifyGuardCall(config: Config, s: System, i: nat, d: Delivery)
    requires i < |s.deliveries| && VerifyOk(config, s.calls, i, d, s.clock) && CanStep(s, d, ServeGuard)
    ensures var e := GuardEffect(config, s, i, d);
            VerifyOk(config, Applied(s, i, e).calls, i, e.delivery, s.clock)
  {
  }

  lemma VerifyStep(config: Config, s: System, i: nat, d: Delivery, step: Step)
    requires i < |s.deliveries| && VerifyOk(config, s.calls, i, d, s.clock)
    ensures var e := StepEffect(config, s, i, d, step);
            VerifyOk(config, Applied(s, i, e).calls, i, e.delivery, s.clock)
  {
    if step.ServeGuard? && CanStep(s, d, step) {
      VerifyGuardCall(config, s, i, d);
    }
  }

  // ----- the dedup call comes after the replay call, and after the reading the envelope was checked against

  ghost predicate TimeOk(calls: seq<GuardCall>, d: Delivery, clock: Time) {
    && (d.trace.checkedAt.Some? ==>
          && d.trace.checkedAt.value <= clock
          && (d.trace.dedupCall.Some? ==>
                d.trace.dedupCall.value < |calls| && d.trace.checkedAt.value <= calls[d.trace.dedupCall.value].at))
    && (d.trace.dedupCall.Some? && d.trace.replayCall.Some? ==> d.trace.replayCall.value < d.trace.dedupCall.value)
  }

  lemma TimeStep(config: Config, s: System, i: nat, d: Delivery, step: Step)
    requires i < |s.deliveries| && DedupOk(config, s.calls, i, d)
    requires VerifyOk(config, s.calls, i, d, s.clock) && TimeOk(s.calls, d, s.clock)
    ensures var e := StepEffect(config, s, i, d, step);
            TimeOk(Applied(s, i, e).calls, e.delivery, s.clock)
  {
  }

  // ----- saves: exactly those whose lookup found nothing

  ghost predicate IsSaveOf(saves: seq<Save>, i: nat, p: nat, conversation: C.Conversation) {
    p < |saves| && saves[p] == Save(i, conversation)
  }

  ghost predicate SaveOk(saves: seq<Save>, i: nat, d: Delivery) {
    var save, lookup := d.trace.save, d.trace.lookup;
    && (save.Some? ==> save.value < |saves| && saves[save.value].owner == i && lookup == Some(None))
    && match d.stage
       case Running(AwaitingSave(_, _, _)) => lookup == Some(None) && save.None?
       case Running(Completed(_, conversation)) =>
         && lookup.Some?
         && (match lookup.value
             case Some(found) => conversation == found && found.state.Active? && save.None?
             case None => save.Some? && IsSaveOf(saves, i, save.value, conversation))
       case Running(_) => save.None?
       case Answered(AwaitingConversation(_, _, _), LookupReply(found)) =>
         lookup == Some(found) && (found.Some? ==> found.value.state.Active?) && save.None?
       case Answered(AwaitingSave(_, _, conversation), SaveReply) =>
         lookup == Some(None) && save.Some? && IsSaveOf(saves, i, save.value, conversation)
       case Faulted => true
       case _ => save.None?
  }

  lemma SaveResume(saves: seq<Save>, i: nat, d: Delivery, id: string)
    requires d.stage.Answered? && MessageOk(d) && SaveOk(saves, i, d)
    ensures SaveOk(saves, i, ResumeEffect(i, d, d.stage.phase, d.stage.reply, id).delivery)
  {
  }

  lemma SaveStep(config: Config, s: System, i: nat, d: Delivery, step: Step)
    requires i < |s.deliveries| && MessageOk(d) && SaveOk(s.saves, i, d)
    ensures var e := StepEffect(config, s, i, d, step);
            SaveOk(Applied(s, i, e).saves, i, e.delivery)
  {
    if step.Resume? && d.stage.Answered? {
      SaveResume(s.saves, i, d, step.id);
    }
  }

  // ----- identifiers: each drawn for one use

  ghost predicate Uses(issued: map<string, IdUse>, id: string, use: IdUse) {
    id in issued && issued[id] == use
  }

  /** The message carries the id that was drawn for it, and a conversation that was started the one drawn for that. */
  ghost predicate PhaseIdsOk(trace: Trace, phase: Phase) {
    match phase
    case AwaitingGuard(_, message) => trace.messageId == Some(message.messageId) && trace.startedId.None?
    case AwaitingIdentity(_, message) => trace.messageId == Some(message.messageId) && trace.startedId.None?
    case AwaitingConversation(_, message, _) => trace.messageId == Some(message.messageId) && trace.startedId.None?
    case AwaitingSave(_, message, conversation) =>
      trace.messageId == Some(message.messageId) && trace.startedId == Some(conversation.conversationId)
    case Completed(message, conversation) =>
      && trace.messageId == Some(message.messageId)
      && (trace.lookup == Some(None) ==> trace.startedId == Some(conversation.conversationId))
    case Raised(error) =>
      error.SourceNotAuthenticated? || error.EmptyContent? ==> trace.messageId.None? && trace.startedId.None?
  }

  ghost predicate StageIdsOk(d: Delivery) {
    match d.stage
    case Running(phase) => PhaseIdsOk(d.trace, phase)
    case Answered(phase, _) => PhaseIdsOk(d.trace, phase)
    case Faulted => true
    case _ => d.trace.messageId.None? && d.trace.startedId.None?
  }

  ghost predicate IdsOk(issued: map<string, IdUse>, i: nat, d: Delivery) {
    && (d.trace.messageId.Some? ==> Uses(issued, d.trace.messageId.value, ForMessage(i)))
    && (d.trace.startedId.Some? ==> Uses(issued, d.trace.startedId.value, ForConversation(i)))
    && StageIdsOk(d)
  }

  lemma StageIdsResume(saves: seq<Save>, i: nat, d: Delivery, id: string)
    requires d.stage.Answered? && MessageOk(d) && SaveOk(saves, i, d) && StageIdsOk(d)
    ensures StageIdsOk(ResumeEffect(i, d, d.stage.phase, d.stage.reply, id).delivery)
  {
  }

  lemma StageIdsStep(config: Config, s: System, i: nat, d: Delivery, step: Step)
    requires MessageOk(d) && SaveOk(s.saves, i, d) && StageIdsOk(d)
    ensures StageIdsOk(StepEffect(config, s, i, d, step).delivery)
  {
    if step.Resume? && d.stage.Answered? {
      StageIdsResume(s.saves, i, d, step.id);
    }
  }

  /** A step draws at most one id, which was not issued, for a use the delivery had none for; it notes what it drew. */
  ghost predicate IsDrawnNow(s: System, i: nat, before: Delivery, e: Effect) {
    match e.drawn
    case None =>
      && e.delivery.trace.messageId == before.trace.messageId
      && e.delivery.trace.startedId == before.trace.startedId
    case Some((id, use)) =>
      && id !in s.issued
      && (|| (use == ForMessage(i) && before.trace.messageId.None?
              && e.delivery.trace.messageId == Some(id) && e.delivery.trace.startedId == before.trace.startedId)
          || (use == ForConversation(i) && before.trace.startedId.None?
              && e.delivery.trace.startedId == Some(id) && e.delivery.trace.messageId == before.trace.messageId))
  }

  lemma DrawIsOrderly(config: Config, s: System, i: nat, d: Delivery, step: Step)
    requires MessageOk(d) && StageIdsOk(d)
    ensures IsDrawnNow(s, i, d, StepEffect(config, s, i, d, step))
  {
  }

  lemma IdsStep(config: Config, s: System, i: nat, d: Delivery, step: Step)
    requires i < |s.deliveries| && MessageOk(d) && SaveOk(s.saves, i, d) && IdsOk(s.issued, i, d)
    ensures var e := StepEffect(config, s, i, d, step);
            IdsOk(Applied(s, i, e).issued, i, e.delivery)
  {
    StageIdsStep(config, s, i, d, step);
    DrawIsOrderly(config, s, i, d, step);
  }

  // ----- what was asked and answered, and the clock reading of the processing

  /** The source is not known to be forged, and there is content. */
  ghost predicate IsAcceptable(request: InboundRequest) {
    && (request.webhookValidation.Some? ==> request.webhookValidation.value.valid)
    && Strip(request.content) != ""
  }

  /** What an error says is so. */
  ghost predicate ErrorOk(request: InboundRequest, trace: Trace, error: InboundError) {
    match error
    case SourceNotAuthenticated(reason) =>
      request.webhookValidation == Some(WebhookValidationResult(false, reason)) && trace.startedAt.None?
        && trace.identity.None?
    case EmptyContent =>
      && (request.webhookValidation.Some? ==> request.webhookValidation.value.valid)
      && Strip(request.content) == "" && trace.startedAt.None? && trace.identity.None?
    case DuplicateMessage(providerMessageId) =>
      IsAcceptable(request) && providerMessageId == request.providerMessageId && trace.identity.None?
    case UnknownSender(channel, provider, providerSubjectId) =>
      && IsAcceptable(request) && trace.identity == Some(None) && channel == ChannelValue(request.channel)
      && provider == request.provider && providerSubjectId == request.providerSubjectId
    case _ => true
  }

  /** The conversation is looked up for the sender that was found, and a new one dates from the start. */
  ghost predicate PhaseFactsOk(request: InboundRequest, trace: Trace, phase: Phase) {
    match phase
    case AwaitingGuard(now, _) => IsAcceptable(request) && trace.startedAt == Some(now) && trace.identity.None?
    case AwaitingIdentity(now, _) => IsAcceptable(request) && trace.startedAt == Some(now)
    case AwaitingConversation(now, _, channelIdentityId) =>
      IsAcceptable(request) && trace.startedAt == Some(now) && trace.identity == Some(Some(channelIdentityId))
    case AwaitingSave(now, _, conversation) =>
      && IsAcceptable(request) && trace.startedAt == Some(now) && conversation.createdAt == now
      && trace.identity.Some? && trace.identity.value.Some?
    case Completed(_, conversation) =>
      && IsAcceptable(request) && trace.startedAt.Some? && trace.identity.Some? && trace.identity.value.Some?
      && (trace.lookup == Some(None) ==> conversation.createdAt == trace.startedAt.value)
    case Raised(error) => ErrorOk(request, trace, error)
  }

  ghost predicate FactsOk(d: Delivery) {
    match d.stage
    case Running(phase) => PhaseFactsOk(d.request, d.trace, phase)
      && (phase.AwaitingIdentity? ==> d.trace.identity.None?)
    case Answered(phase, reply) =>
      && PhaseFactsOk(d.request, d.trace, phase)
      && (phase.AwaitingIdentity? && reply.IdentityReply? ==> d.trace.identity == Some(reply.channelIdentityId))
    case Faulted => true
    case _ => d.trace.startedAt.None? && d.trace.identity.None?
  }

  lemma FactsStart(i: nat, d: Delivery, now: Time, id: string)
    requires d.stage.Verified? && FactsOk(d)
    ensures FactsOk(StartEffect(i, d, now, id).delivery)
  {
  }

  lemma FactsResume(saves: seq<Save>, i: nat, d: Delivery, id: string)
    requires d.stage.Answered? && MessageOk(d) && SaveOk(saves, i, d) && FactsOk(d)
    ensures FactsOk(ResumeEffect(i, d, d.stage.phase, d.stage.reply, id).delivery)
  {
    ResumeIsSound(d.request, d.stage.phase, d.stage.reply, id);
  }

  lemma FactsStep(config: Config, s: System, i: nat, d: Delivery, step: Step)
    requires MessageOk(d) && SaveOk(s.saves, i, d) && FactsOk(d)
    ensures FactsOk(StepEffect(config, s, i, d, step).delivery)
  {
    if step.Start? && d.stage.Verified? {
      FactsStart(i, d, s.clock, step.id);
    } else if step.Resume? && d.stage.Answered? {
      FactsResume(s.saves, i, d, step.id);
    }
  }

  // ----- what one step can do to what is shared, and to the trace

  /** A step makes at most one call, performed now with the verdict the store gives, and notes where the log has it. */
  ghost predicate IsCallMadeNow(s: System, i: nat, before: Delivery, e: Effect) {
    e.call.Some? ==>
      && e.call.value.caller == i && e.call.value.at == s.clock && e.call.value.ttl >= SECOND
      && (e.call.value.first <==> !Live(s.store, e.call.value.key, s.clock))
      && ((before.trace.dedupCall.None? && e.delivery.trace.dedupCall == Some(|s.calls|))
          || (before.trace.replayCall.None? && e.delivery.trace.replayCall == Some(|s.calls|)))
  }

  /** Entries of the trace stay, and so do the webhook request and what the inbound request says. */
  ghost predicate IsKept(before: Delivery, after: Delivery) {
    && (before.trace.checkedAt.Some? ==> after.trace.checkedAt == before.trace.checkedAt)
    && (before.trace.replayCall.Some? ==> after.trace.replayCall == before.trace.replayCall)
    && (before.trace.dedupCall.Some? ==> after.trace.dedupCall == before.trace.dedupCall)
    && (before.trace.startedAt.Some? ==> after.trace.startedAt == before.trace.startedAt)
    && (before.trace.save.Some? ==> after.trace.save == before.trace.save)
    && (before.trace.messageId.Some? ==> after.trace.messageId == before.trace.messageId)
    && (before.trace.startedId.Some? ==> after.trace.startedId == before.trace.startedId)
    && after.hook == before.hook
    && after.request == before.request.(webhookValidation := after.request.webhookValidation)
  }

  lemma EffectIsOrderly(config: Config, s: System, i: nat, d: Delivery, step: Step)
    requires IsConfig(config) && i < |s.deliveries| && DeliveryOk(config, s, i, d)
    ensures var e := StepEffect(config, s, i, d, step);
            && IsCallMadeNow(s, i, d, e)
            && IsKept(d, e.delivery)
  {
    CallIsOrderly(config, s, i, d, step);
    DrawIsOrderly(config, s, i, d, step);
  }

  lemma CallIsOrderly(config: Config, s: System, i: nat, d: Delivery, step: Step)
    requires IsConfig(config) && i < |s.deliveries|
    requires DedupOk(config, s.calls, i, d) && VerifyOk(config, s.calls, i, d, s.clock) && SaveOk(s.saves, i, d)
    requires FactsOk(d)
    ensures var e := StepEffect(config, s, i, d, step);
            && IsCallMadeNow(s, i, d, e)
            && IsKept(d,
               e.delivery.(trace := e.delivery.trace.(messageId := d.trace.messageId, startedId := d.trace.startedId)))
  {
  }

  /** A step saves only the conversation it started. */
  ghost predicate IsSaveMadeNow(s: System, i: nat, before: Delivery, e: Effect) {
    e.save.Some? ==>
      && e.save.value.owner == i && before.trace.save.None? && e.delivery.trace.save == Some(|s.saves|)
      && before.trace.startedId == Some(e.save.value.conversation.conversationId)
      && before.trace.startedAt == Some(e.save.value.conversation.createdAt)
      && IsStartedFor(before.request, e.save.value.conversation)
  }

  /** A conversation started for this request: ACTIVE, with its tenant, organization and channel. */
  ghost predicate IsStartedFor(request: InboundRequest, c: C.Conversation) {
    && c.state == C.Active && c.tenantId == request.tenantId && c.organizationId == request.organizationId
    && c.channel == ChannelValue(request.channel) && c.updatedAt == c.createdAt
  }

  lemma SaveIsOrderly(config: Config, s: System, i: nat, d: Delivery, step: Step)
    requires i < |s.deliveries| && MessageOk(d) && SaveOk(s.saves, i, d) && StageIdsOk(d) && FactsOk(d)
    ensures IsSaveMadeNow(s, i, d, StepEffect(config, s, i, d, step))
  {
  }

  // ----- the invariant of the system

  ghost predicate DeliveryOk(config: Config, s: System, i: nat, d: Delivery) {
    && MessageOk(d)
    && DedupOk(config, s.calls, i, d)
    && VerifyOk(config, s.calls, i, d, s.clock)
    && TimeOk(s.calls, d, s.clock)
    && SaveOk(s.saves, i, d)
    && IdsOk(s.issued, i, d)
    && FactsOk(d)
  }

  ghost predicate AllOk(config: Config, s: System) {
    forall i :: 0 <= i < |s.deliveries| ==> DeliveryOk(config, s, i, s.deliveries[i])
  }

  /** The guard's log is a log, in the order of time, up to now, and explains the store. */
  ghost predicate LogOk(s: System) {
    && IsLog(s.calls) && s.store == StoreAfter(s.calls)
    && (forall p :: 0 <= p < |s.calls| ==> s.calls[p].at <= s.clock)
    && (forall p, q :: 0 <= p < q < |s.calls| ==> s.calls[p].at <= s.calls[q].at)
  }

  ghost predicate IsCallOf(s: System, p: nat, i: nat) {
    i < |s.deliveries| && (s.deliveries[i].trace.dedupCall == Some(p) || s.deliveries[i].trace.replayCall == Some(p))
  }

  ghost predicate CallsOwned(s: System) {
    forall p :: 0 <= p < |s.calls| ==> IsCallOf(s, p, s.calls[p].caller)
  }

  ghost predicate IsSaveBy(s: System, p: nat, save: Save) {
    && save.owner < |s.deliveries| && s.deliveries[save.owner].trace.save == Some(p)
    && IsStartedFor(s.deliveries[save.owner].request, save.conversation)
    && s.deliveries[save.owner].trace.startedId == Some(save.conversation.conversationId)
    && s.deliveries[save.owner].trace.startedAt == Some(save.conversation.createdAt)
  }

  ghost predicate SavesOwned(s: System) {
    forall p :: 0 <= p < |s.saves| ==> IsSaveBy(s, p, s.saves[p])
  }

  /** The delivery that drew this id, and what for. */
  ghost predicate IsDrawnBy(s: System, id: string, use: IdUse) {
    match use
    case ForMessage(i) => i < |s.deliveries| && s.deliveries[i].trace.messageId == Some(id)
    case ForConversation(i) => i < |s.deliveries| && s.deliveries[i].trace.startedId == Some(id)
  }

  ghost predicate IdsOwned(s: System) {
    forall id :: id in s.issued ==> IsDrawnBy(s, id, s.issued[id])
  }

  ghost predicate Inv(config: Config, s: System) {
    AllOk(config, s) && LogOk(s) && CallsOwned(s) && SavesOwned(s) && IdsOwned(s)
  }

  // ----- growth of what is shared disturbs no delivery

  ghost predicate Grows(s: System, t: System) {
    && s.clock <= t.clock
    && s.calls <= t.calls
    && s.saves <= t.saves
    && s.issued.Keys <= t.issued.Keys
    && forall id :: id in s.issued ==> t.issued[id] == s.issued[id]
  }

  lemma UndisturbedDelivery(config: Config, s: System, t: System, i: nat, d: Delivery)
    requires Grows(s, t) && DeliveryOk(config, s, i, d)
    ensures DeliveryOk(config, t, i, d)
  {
  }

  lemma StepKeepsAll(config: Config, s: System, i: nat, step: Step)
    requires IsConfig(config) && Inv(config, s) && i < |s.deliveries|
    ensures var t := Applied(s, i, StepEffect(config, s, i, s.deliveries[i], step));
            Grows(s, t) && AllOk(config, t)
  {
    var d := s.deliveries[i];
    assert DeliveryOk(config, s, i, d);
    var e := StepEffect(config, s, i, d, step);
    var t := Applied(s, i, e);
    DrawIsOrderly(config, s, i, d, step);
    assert Grows(s, t);
    StepKeepsOne(config, s, i, d, step);
    forall j | 0 <= j < |t.deliveries| && j != i
      ensures DeliveryOk(config, t, j, t.deliveries[j])
    {
      UndisturbedDelivery(config, s, t, j, s.deliveries[j]);
    }
  }

  lemma StepKeepsOne(config: Config, s: System, i: nat, d: Delivery, step: Step)
    requires i < |s.deliveries| && DeliveryOk(config, s, i, d)
    ensures var e := StepEffect(config, s, i, d, step);
            DeliveryOk(config, Applied(s, i, e), i, e.delivery)
  {
    MessageStep(config, s, i, d, step);
    DedupStep(config, s, i, d, step);
    VerifyStep(config, s, i, d, step);
    TimeStep(config, s, i, d, step);
    SaveStep(config, s, i, d, step);
    IdsStep(config, s, i, d, step);
    FactsStep(config, s, i, d, step);
  }

  lemma StepKeepsLog(config: Config, s: System, i: nat, step: Step)
    requires IsConfig(config) && Inv(config, s) && i < |s.deliveries|
    ensures var t := Applied(s, i, StepEffect(config, s, i, s.deliveries[i], step));
            LogOk(t) && CallsOwned(t)
  {
    var d := s.deliveries[i];
    assert DeliveryOk(config, s, i, d);
    var e := StepEffect(config, s, i, d, step);
    EffectIsOrderly(config, s, i, d, step);
    AppliedKeepsLog(s, i, e);
  }

  lemma AppliedKeepsLog(s: System, i: nat, e: Effect)
    requires LogOk(s) && CallsOwned(s) && i < |s.deliveries|
    requires IsCallMadeNow(s, i, s.deliveries[i], e) && IsKept(s.deliveries[i], e.delivery)
    ensures LogOk(Applied(s, i, e)) && CallsOwned(Applied(s, i, e))
  {
    if e.call.Some? {
      LogExtends(s.calls, e.call.value);
    }
    AppliedKeepsOwners(s, i, e);
  }

  lemma AppliedKeepsOwners(s: System, i: nat, e: Effect)
    requires CallsOwned(s) && i < |s.deliveries|
    requires IsCallMadeNow(s, i, s.deliveries[i], e) && IsKept(s.deliveries[i], e.delivery)
    ensures CallsOwned(Applied(s, i, e))
  {
    var t := Applied(s, i, e);
    forall p | 0 <= p < |t.calls|
      ensures IsCallOf(t, p, t.calls[p].caller)
    {
      if p < |s.calls| {
        assert IsCallOf(s, p, s.calls[p].caller);
      }
    }
  }

  lemma StepKeepsSaves(config: Config, s: System, i: nat, step: Step)
    requires IsConfig(config) && Inv(config, s) && i < |s.deliveries|
    ensures SavesOwned(Applied(s, i, StepEffect(config, s, i, s.deliveries[i], step)))
  {
    var d := s.deliveries[i];
    assert DeliveryOk(config, s, i, d);
    var e := StepEffect(config, s, i, d, step);
    EffectIsOrderly(config, s, i, d, step);
    SaveIsOrderly(config, s, i, d, step);
    AppliedKeepsSaves(s, i, e);
  }

  lemma AppliedKeepsSaves(s: System, i: nat, e: Effect)
    requires SavesOwned(s) && i < |s.deliveries|
    requires IsSaveMadeNow(s, i, s.deliveries[i], e) && IsKept(s.deliveries[i], e.delivery)
    ensures SavesOwned(Applied(s, i, e))
  {
    var t := Applied(s, i, e);
    forall p | 0 <= p < |t.saves|
      ensures IsSaveBy(t, p, t.saves[p])
    {
      if p < |s.saves| {
        assert IsSaveBy(s, p, s.saves[p]);
      }
    }
  }

  lemma StepKeepsIds(config: Config, s: System, i: nat, step: Step)
    requires IsConfig(config) && Inv(config, s) && i < |s.deliveries|
    ensures IdsOwned(Applied(s, i, StepEffect(config, s, i, s.deliveries[i], step)))
  {
    var d := s.deliveries[i];
    assert DeliveryOk(config, s, i, d);
    DrawIsOrderly(config, s, i, d, step);
    AppliedKeepsIds(s, i, StepEffect(config, s, i, d, step));
  }

  lemma AppliedKeepsIds(s: System, i: nat, e: Effect)
    requires IdsOwned(s) && i < |s.deliveries| && IsDrawnNow(s, i, s.deliveries[i], e)
    ensures IdsOwned(Applied(s, i, e))
  {
    var t := Applied(s, i, e);
    forall id | id in t.issued
      ensures IsDrawnBy(t, id, t.issued[id])
    {
      if id in s.issued {
        assert IsDrawnBy(s, id, s.issued[id]);
      }
    }
  }

  /** Time and arrivals leave the logs to their owners. */
  lemma OwnersStay(s: System, t: System)
    requires t.calls == s.calls && t.saves == s.saves && t.issued == s.issued && s.deliveries <= t.deliveries
    requires CallsOwned(s) && SavesOwned(s) && IdsOwned(s)
    ensures CallsOwned(t) && SavesOwned(t) && IdsOwned(t)
  {
    forall p | 0 <= p < |t.calls|
      ensures IsCallOf(t, p, t.calls[p].caller)
    {
      assert IsCallOf(s, p, s.calls[p].caller);
    }
    forall p | 0 <= p < |t.saves|
      ensures IsSaveBy(t, p, t.saves[p])
    {
      assert IsSaveBy(s, p, s.saves[p]);
    }
    forall id | id in t.issued
      ensures IsDrawnBy(t, id, t.issued[id])
    {
      assert IsDrawnBy(s, id, s.issued[id]);
    }
  }

  lemma TickKeepsInv(config: Config, s: System, to: Time)
    requires Inv(config, s) && s.clock <= to
    ensures Inv(config, s.(clock := to))
  {
    var t := s.(clock := to);
    OwnersStay(s, t);
    forall j | 0 <= j < |t.deliveries|
      ensures DeliveryOk(config, t, j, t.deliveries[j])
    {
      UndisturbedDelivery(config, s, t, j, s.deliveries[j]);
    }
  }

  lemma ArrivedIsOk(config: Config, s: System, i: nat, d: Delivery)
    requires d == Delivery(d.hook, d.request, if d.hook.Some? then Arrived else Verified, NOTHING_YET)
    ensures DeliveryOk(config, s, i, d)
  {
  }

  lemma ArrivalKeepsInv(config: Config, s: System, d: Delivery)
    requires Inv(config, s)
    requires d == Delivery(d.hook, d.request, if d.hook.Some? then Arrived else Verified, NOTHING_YET)
    ensures Inv(config, s.(deliveries := s.deliveries + [d]))
  {
    var t := s.(deliveries := s.deliveries + [d]);
    OwnersStay(s, t);
    ArrivedIsOk(config, t, |s.deliveries|, d);
    forall j | 0 <= j < |t.deliveries|
      ensures DeliveryOk(config, t, j, t.deliveries[j])
    {
      if j < |s.deliveries| {
        UndisturbedDelivery(config, s, t, j, s.deliveries[j]);
      }
    }
  }

  lemma NextKeepsInv(config: Config, s: System, a: Action)
    requires IsConfig(config) && Inv(config, s)
    ensures Inv(config, Next(config, s, a))
  {
    match a
    case Tick(to) =>
      if s.clock <= to {
        TickKeepsInv(config, s, to);
      }
    case Arrive(hook, request) =>
      ArrivalKeepsInv(config, s, Delivery(hook, request, if hook.Some? then Arrived else Verified, NOTHING_YET));
    case Deliver(i, step) =>
      if i < |s.deliveries| {
        StepKeepsAll(config, s, i, step);
        StepKeepsLog(config, s, i, step);
        StepKeepsSaves(config, s, i, step);
        StepKeepsIds(config, s, i, step);
      }
  }

  /** The invariant holds after every interleaving of any number of deliveries. */
  lemma {:induction false} InvAlways(config: Config, clock: Time, actions: seq<Action>)
    requires IsConfig(config)
    ensures Inv(config, After(config, clock, actions))
  {
    if actions != [] {
      InvAlways(config, clock, actions[..|actions| - 1]);
      NextKeepsInv(config, After(config, clock, actions[..|actions| - 1]), actions[|actions| - 1]);
    }
  }
}
