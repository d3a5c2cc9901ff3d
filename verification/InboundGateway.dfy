/**
  The inbound gateway as a system of interleaved deliveries. A delivery is verified (when it came in
  over a webhook) and then processed. Every call that leaves a coroutine is two steps: the port performs
  it, at an instant of its own, and later the coroutine resumes with the answer; anything may happen in
  between. All deliveries share one guard, one id source, one conversation store and one clock.
 */
module InboundGateway {
  import opened Prelude
  import opened ReplayGuard
  import opened Webhook
  import opened InboundExecution
  import M = MessageLifecycle
  import C = ConversationLifecycle

  datatype Reply =
    | GuardReply(first: bool)
    | IdentityReply(channelIdentityId: Option<string>)
    | LookupReply(found: Option<C.Conversation>)
    | SaveReply

  datatype Stage =
    | Arrived                                // a webhook delivery that has not been verified yet
    | VerifyCalled                           // its checks passed and its replay call is under way
    | VerifyAnswered(first: bool)
    | Verified                               // ready to be processed
    | Running(phase: Phase)                  // in a waiting phase: the call is under way
    | Answered(phase: Phase, reply: Reply)   // the port has performed the call
    | Aborted(error: SignatureError)         // verification raised
    | Faulted                                // a port call raised, before or after it was performed

  /**
    What has happened to a delivery. No step reads it: the clock reading its envelope was checked against,
    where the guard's log has its two calls, the clock reading of its processing, what the sender lookup and the
    conversation lookup answered, where the log of saves has its save, and the ids it drew for its message and
    for a conversation it started.
   */
  datatype Trace = Trace(
    checkedAt: Option<Time>,
    replayCall: Option<nat>,
    dedupCall: Option<nat>,
    startedAt: Option<Time>,
    identity: Option<Option<string>>,
    lookup: Option<Option<C.Conversation>>,
    save: Option<nat>,
    messageId: Option<string>,
    startedId: Option<string>)

  const NOTHING_YET := Trace(None, None, None, None, None, None, None, None, None)

  datatype Delivery = Delivery(hook: Option<VerifyWebhookRequest>, request: InboundRequest, stage: Stage, trace: Trace)

  datatype Save = Save(owner: nat, conversation: C.Conversation)

  datatype IdUse = ForMessage(owner: nat) | ForConversation(owner: nat)

  datatype System = System(
    clock: Time,
    store: Store,
    calls: seq<GuardCall>,
    saves: seq<Save>,
    issued: map<string, IdUse>,
    deliveries: seq<Delivery>)

  datatype Config = Config(webhook: Settings, dedupTtl: Time)

  const DEFAULT_DEDUP_TTL: Time := 86_400 * SECOND

  predicate IsConfig(config: Config) {
    config.webhook.replayTtl >= SECOND && config.dedupTtl >= SECOND && config.webhook.config.maxClockSkew >= 0
  }

  // ----- steps of one delivery

  datatype Step =
    | Check(now: Time)                                 // VerifyWebhook up to its await; `now` is the caller's reading
    | ServeGuard                                       // the guard performs the call under way
    | Return                                           // VerifyWebhook resumes and returns
    | Start(id: string)                                // ProcessInboundMessage up to its first await
    | ServeIdentity(channelIdentityId: Option<string>)
    | ServeLookup(found: Option<C.Conversation>)       // by contract, an ACTIVE conversation or nothing
    | ServeSave
    | Resume(id: string)                               // ProcessInboundMessage resumes with the answer
    | Fault

  /** What one step of a delivery does: to itself, and to what is shared. */
  datatype Effect = Effect(
    delivery: Delivery, call: Option<GuardCall>, save: Option<Save>, drawn: Option<(string, IdUse)>)

  function Quietly(d: Delivery): Effect {
    Effect(d, None, None, None)
  }

  predicate IsWaiting(phase: Phase) {
    phase.AwaitingGuard? || phase.AwaitingIdentity? || phase.AwaitingConversation? || phase.AwaitingSave?
  }

  predicate IsUnderWay(stage: Stage) {
    || stage.VerifyCalled? || stage.VerifyAnswered? || stage.Answered?
    || (stage.Running? && IsWaiting(stage.phase))
  }

  function CheckStep(config: Config, d: Delivery, now: Time): Delivery
    requires d.hook.Some?
  {
    var trace := d.trace.(checkedAt := Some(now));
    match Precheck(config.webhook, d.hook.value, now)
    case Err(e) => d.(stage := Aborted(e), trace := trace)
    case Ok(r) =>
      if r.valid then d.(stage := VerifyCalled, trace := trace)
      else d.(stage := Verified, request := d.request.(webhookValidation := Some(r)), trace := trace)
  }

  /** One resumption of ProcessInboundMessage. */
  function ResumePhase(request: InboundRequest, phase: Phase, reply: Reply, id: string): Phase {
    match (phase, reply)
    case (AwaitingGuard(now, message), GuardReply(first)) => AfterDedup(request, now, message, first)
    case (AwaitingIdentity(now, message), IdentityReply(found)) => AfterIdentity(request, now, message, found)
    case (AwaitingConversation(now, message, _), LookupReply(found)) => AfterLookup(request, now, message, found, id)
    case (AwaitingSave(_, message, conversation), SaveReply) => Contextualized(message, conversation)
    case _ => phase
  }

  function StartEffect(i: nat, d: Delivery, now: Time, id: string): Effect {
    var phase := Begin(d.request, now, id);
    if phase.AwaitingGuard? then
      Effect(d.(stage := Running(phase), trace := d.trace.(startedAt := Some(now), messageId := Some(id))), None, None,
             Some((id, ForMessage(i))))
    else Quietly(d.(stage := Running(phase)))
  }

  function ResumeEffect(i: nat, d: Delivery, before: Phase, reply: Reply, id: string): Effect {
    var phase := ResumePhase(d.request, before, reply, id);
    if phase.AwaitingSave? then
      Effect(d.(stage := Running(phase), trace := d.trace.(startedId := Some(id))), None, None,
             Some((id, ForConversation(i))))
    else Quietly(d.(stage := Running(phase)))
  }

  /** The guard performs the call under way: the replay call of the verification, or the dedup call. */
  function GuardEffect(config: Config, s: System, i: nat, d: Delivery): Effect
    requires CanStep(s, d, ServeGuard)
  {
    if d.stage.VerifyCalled? then
      var first := !Live(s.store, d.hook.value.replayKey, s.clock);
      Effect(d.(stage := VerifyAnswered(first), trace := d.trace.(replayCall := Some(|s.calls|))),
             Some(GuardCall(i, d.hook.value.replayKey, config.webhook.replayTtl, s.clock, first)), None, None)
    else
      var first := !Live(s.store, d.request.Key(), s.clock);
      Effect(d.(stage := Answered(d.stage.phase, GuardReply(first)), trace := d.trace.(dedupCall := Some(|s.calls|))),
             Some(GuardCall(i, d.request.Key(), config.dedupTtl, s.clock, first)), None, None)
  }

  /** Whether a delivery can take this step: where it is, and what the id source and the ports can answer. */
  predicate CanStep(s: System, d: Delivery, step: Step) {
    match step
    case Check(now) => d.stage.Arrived? && d.hook.Some? && now <= s.clock
    case ServeGuard => (d.stage.VerifyCalled? && d.hook.Some?) || (d.stage.Running? && d.stage.phase.AwaitingGuard?)
    case Return => d.stage.VerifyAnswered?
    case Start(id) => d.stage.Verified? && id !in s.issued
    case ServeIdentity(_) => d.stage.Running? && d.stage.phase.AwaitingIdentity?
    case ServeLookup(found) =>
      d.stage.Running? && d.stage.phase.AwaitingConversation? && (found.Some? ==> found.value.state.Active?)
    case ServeSave => d.stage.Running? && d.stage.phase.AwaitingSave?
    case Resume(id) => d.stage.Answered? && id !in s.issued
    case Fault => IsUnderWay(d.stage)
  }

  function TakenStep(config: Config, s: System, i: nat, d: Delivery, step: Step): Effect
    requires CanStep(s, d, step)
  {
    match step
    case Check(now) => Quietly(CheckStep(config, d, now))
    case ServeGuard => GuardEffect(config, s, i, d)
    case Return =>
      Quietly(d.(stage := Verified, request := d.request.(webhookValidation := Some(GuardVerdict(d.stage.first)))))
    case Start(id) => StartEffect(i, d, s.clock, id)
    case ServeIdentity(found) =>
      Quietly(d.(stage := Answered(d.stage.phase, IdentityReply(found)), trace := d.trace.(identity := Some(found))))
    case ServeLookup(found) =>
      Quietly(d.(stage := Answered(d.stage.phase, LookupReply(found)), trace := d.trace.(lookup := Some(found))))
    case ServeSave =>
      Effect(d.(stage := Answered(d.stage.phase, SaveReply), trace := d.trace.(save := Some(|s.saves|))),
             None, Some(Save(i, d.stage.phase.conversation)), None)
    case Resume(id) => ResumeEffect(i, d, d.stage.phase, d.stage.reply, id)
    case Fault => Quietly(d.(stage := Faulted))
  }

  /** A step that is not possible where the delivery is changes nothing. */
  function StepEffect(config: Config, s: System, i: nat, d: Delivery, step: Step): Effect {
    if CanStep(s, d, step) then TakenStep(config, s, i, d, step) else Quietly(d)
  }

  // ----- steps of the system

  datatype Action =
    | Tick(to: Time)
    | Arrive(hook: Option<VerifyWebhookRequest>, request: InboundRequest)
    | Deliver(i: nat, step: Step)

  function Applied(s: System, i: nat, e: Effect): System
    requires i < |s.deliveries|
  {
    System(
      s.clock,
      if e.call.Some? then Recorded(s.store, e.call.value.key, e.call.value.ttl, e.call.value.at) else s.store,
      if e.call.Some? then s.calls + [e.call.value] else s.calls,
      if e.save.Some? then s.saves + [e.save.value] else s.saves,
      if e.drawn.Some? then s.issued[e.drawn.value.0 := e.drawn.value.1] else s.issued,
      s.deliveries[i := e.delivery])
  }

  /** An action that is not possible in a state changes nothing. */
  function Next(config: Config, s: System, a: Action): System {
    match a
    case Tick(to) => if s.clock <= to then s.(clock := to) else s
    case Arrive(hook, request) =>
      s.(deliveries := s.deliveries + [Delivery(hook, request, if hook.Some? then Arrived else Verified, NOTHING_YET)])
    case Deliver(i, step) =>
      if i < |s.deliveries| then Applied(s, i, StepEffect(config, s, i, s.deliveries[i], step)) else s
  }

  function Initial(clock: Time): System {
    System(clock, map[], [], [], map[], [])
  }

  /** The state after any interleaving of any number of deliveries. */
  function After(config: Config, clock: Time, actions: seq<Action>): System {
    if actions == [] then Initial(clock)
    else Next(config, After(config, clock, actions[..|actions| - 1]), actions[|actions| - 1])
  }
}
