/**
  One execution of ProcessInboundMessage, cut at its awaits. Between two awaits nothing else runs, so
  each piece is one function of the execution's locals and of the answer it was waiting for; the class
  below does the same by rebinding its fields, as the coroutine rebinds its locals.
 */
module InboundExecution {
  import opened Prelude
  import opened StateMachine
  import opened Webhook
  import opened DedupKey
  import M = MessageLifecycle
  import C = ConversationLifecycle

  datatype InboundRequest = InboundRequest(
    channel: Channel,
    provider: string,
    providerSubjectId: string,
    providerMessageId: string,
    content: string,
    receivedAt: Time,
    correlationId: string,
    tenantId: string,
    organizationId: Option<string>,
    webhookValidation: Option<WebhookValidationResult>)
  {
    function Key(): string {
      Encode(channel, provider, providerMessageId)
    }
  }

  datatype InboundError =
    | SourceNotAuthenticated(reason: string)
    | EmptyContent
    | DuplicateMessage(providerMessageId: string)
    | UnknownSender(channel: string, provider: string, providerSubjectId: string)
    | IllegalMessageTransition(message: IllegalTransition<M.MessageState>)
    | IllegalConversationTransition(conversation: IllegalTransition<C.ConversationState>)

  /** Where an execution is. The four waiting phases are its four awaits, with its locals at that point. */
  datatype Phase =
    | AwaitingGuard(now: Time, message: M.Message)
    | AwaitingIdentity(now: Time, message: M.Message)
    | AwaitingConversation(now: Time, message: M.Message, channelIdentityId: string)
    | AwaitingSave(now: Time, message: M.Message, conversation: C.Conversation)
    | Completed(message: M.Message, conversation: C.Conversation)
    | Raised(error: InboundError)

  // ----- content

  /** The characters that stripping removes. */
  predicate IsSpace(c: char) {
    var n := c as int;
    || 0x09 <= n <= 0x0D || 0x1C <= n <= 0x20 || n == 0x85 || n == 0xA0 || n == 0x1680
    || 0x2000 <= n <= 0x200A || n == 0x2028 || n == 0x2029 || n == 0x202F || n == 0x205F || n == 0x3000
  }

  const SPACES: set<int> :=
    {0x09, 0x0A, 0x0B, 0x0C, 0x0D, 0x1C, 0x1D, 0x1E, 0x1F, 0x20, 0x85, 0xA0, 0x1680, 0x2000, 0x2001, 0x2002,
     0x2003, 0x2004, 0x2005, 0x2006, 0x2007, 0x2008, 0x2009, 0x200A, 0x2028, 0x2029, 0x202F, 0x205F, 0x3000}

  /** These are all of them. */
  lemma SpacesAre(c: char)
    ensures IsSpace(c) <==> c as int in SPACES
  {
  }

  function Strip(s: string): string {
    if s == "" then ""
    else if IsSpace(s[0]) then Strip(s[1..])
    else if IsSpace(s[|s| - 1]) then Strip(s[..|s| - 1])
    else s
  }

  lemma {:induction false} StripIsEmptyIff(s: string)
    ensures Strip(s) == "" <==> forall c :: c in s ==> IsSpace(c)
  {
    if s == "" {
    } else if IsSpace(s[0]) {
      StripIsEmptyIff(s[1..]);
      assert s == [s[0]] + s[1..];
    } else {
      assert s[0] in s;
      if IsSpace(s[|s| - 1]) {
        StripIsEmptyIff(s[..|s| - 1]);
        assert s[..|s| - 1][0] == s[0];
      }
    }
  }

  // ----- the pieces between the awaits

  function NewMessage(request: InboundRequest, messageId: string): M.Message {
    M.Message(messageId, "", request.providerSubjectId, ChannelValue(request.channel), request.receivedAt,
              request.correlationId, M.Received)
  }

  function NewConversation(request: InboundRequest, conversationId: string, now: Time): C.Conversation {
    C.Conversation(conversationId, request.tenantId, request.organizationId, ChannelValue(request.channel),
                   C.Created, now, now)
  }

  /** From the call to the await on the guard. `messageId` is what the id source gives if it is asked. */
  function Begin(request: InboundRequest, now: Time, messageId: string): Phase {
    if request.webhookValidation.Some? && !request.webhookValidation.value.valid then
      Raised(SourceNotAuthenticated(request.webhookValidation.value.reason))
    else if Strip(request.content) == "" then Raised(EmptyContent)
    else
      match NewMessage(request, messageId).TransitionTo(M.Validated)
      case Err(e) => Raised(IllegalMessageTransition(e))
      case Ok(message) => AwaitingGuard(now, message)
  }

  function AfterDedup(request: InboundRequest, now: Time, message: M.Message, first: bool): Phase {
    if !first then Raised(DuplicateMessage(request.providerMessageId)) else AwaitingIdentity(now, message)
  }

  function AfterIdentity(
      request: InboundRequest, now: Time, message: M.Message, channelIdentityId: Option<string>): Phase
  {
    if channelIdentityId.None? then
      Raised(UnknownSender(ChannelValue(request.channel), request.provider, request.providerSubjectId))
    else
      match message.TransitionTo(M.Identified)
      case Err(e) => Raised(IllegalMessageTransition(e))
      case Ok(identified) => AwaitingConversation(now, identified, channelIdentityId.value)
  }

  function Contextualized(message: M.Message, conversation: C.Conversation): Phase {
    var rebuilt := M.Message(message.messageId, conversation.conversationId, message.sender, message.channel,
                             message.timestamp, message.correlationId, message.status);
    match rebuilt.TransitionTo(M.Contextualized)
    case Err(e) => Raised(IllegalMessageTransition(e))
    case Ok(contextualized) => Completed(contextualized, conversation)
  }

  /** `conversationId` is what the id source gives if it is asked, which is only when nothing was found. */
  function AfterLookup(
      request: InboundRequest, now: Time, message: M.Message, found: Option<C.Conversation>,
      conversationId: string): Phase
  {
    match found
    case Some(conversation) => Contextualized(message, conversation)
    case None =>
      match NewConversation(request, conversationId, now).TransitionTo(C.Active, now)
      case Err(e) => Raised(IllegalConversationTransition(e))
      case Ok(conversation) => AwaitingSave(now, message, conversation)
  }

  // ----- what each phase has established

  /** The message made for this request, in this status and conversation. */
  predicate IsMessageOf(request: InboundRequest, message: M.Message, conversationId: string, status: M.MessageState) {
    message == NewMessage(request, message.messageId).(conversationId := conversationId, status := status)
  }

  /** The status of the message is determined by the phase, and no transition has been refused. */
  predicate IsSound(request: InboundRequest, phase: Phase) {
    match phase
    case AwaitingGuard(_, message) => IsMessageOf(request, message, "", M.Validated)
    case AwaitingIdentity(_, message) => IsMessageOf(request, message, "", M.Validated)
    case AwaitingConversation(_, message, _) => IsMessageOf(request, message, "", M.Identified)
    case AwaitingSave(now, message, conversation) =>
      && IsMessageOf(request, message, "", M.Identified)
      && conversation == NewConversation(request, conversation.conversationId, now).(state := C.Active)
    case Completed(message, conversation) =>
      IsMessageOf(request, message, conversation.conversationId, M.MessageState.Contextualized)
    case Raised(error) => !error.IllegalMessageTransition? && !error.IllegalConversationTransition?
  }

  lemma BeginIsSound(request: InboundRequest, now: Time, messageId: string)
    ensures IsSound(request, Begin(request, now, messageId))
    ensures Begin(request, now, messageId).Raised? || Begin(request, now, messageId).AwaitingGuard?
    ensures Begin(request, now, messageId).AwaitingGuard? <==>
            (request.webhookValidation.Some? ==> request.webhookValidation.value.valid)
            && !forall c :: c in request.content ==> IsSpace(c)
    ensures Begin(request, now, messageId).AwaitingGuard? ==>
              Begin(request, now, messageId).now == now && Begin(request, now, messageId).message.messageId == messageId
    ensures forall reason ::
              Begin(request, now, messageId) == Raised(SourceNotAuthenticated(reason))
              <==> request.webhookValidation == Some(WebhookValidationResult(false, reason))
    ensures Begin(request, now, messageId) == Raised(EmptyContent) <==>
            (request.webhookValidation.Some? ==> request.webhookValidation.value.valid)
            && forall c :: c in request.content ==> IsSpace(c)
  {
    StripIsEmptyIff(request.content);
  }

  lemma AfterIdentityIsSound(request: InboundRequest, now: Time, message: M.Message, found: Option<string>)
    requires IsMessageOf(request, message, "", M.Validated)
    ensures var phase := AfterIdentity(request, now, message, found);
            && IsSound(request, phase)
            && (found.Some? ==>
                  phase == AwaitingConversation(now, message.(status := M.Identified), found.value))
            && (found.None? ==>
                  && phase.Raised? && phase.error.UnknownSender? && IsChannelText(request.channel, phase.error.channel)
                  && phase.error.provider == request.provider
                  && phase.error.providerSubjectId == request.providerSubjectId)
  {
  }

  lemma AfterLookupIsSound(
      request: InboundRequest, now: Time, message: M.Message, found: Option<C.Conversation>, conversationId: string)
    requires IsMessageOf(request, message, "", M.Identified)
    ensures var phase := AfterLookup(request, now, message, found, conversationId);
            && IsSound(request, phase)
            && (phase.AwaitingSave? <==> found.None?) && (phase.Completed? <==> found.Some?)
            && (found.Some? ==> phase.conversation == found.value)
            && (found.None? ==> phase.now == now && phase.conversation.createdAt == now
                                && phase.conversation.conversationId == conversationId)
  {
  }

  lemma AfterSaveIsSound(request: InboundRequest, now: Time, message: M.Message, conversation: C.Conversation)
    requires IsSound(request, AwaitingSave(now, message, conversation))
    ensures Contextualized(message, conversation).Completed? && IsSound(request, Contextualized(message, conversation))
    ensures Contextualized(message, conversation).conversation == conversation
  {
  }

  // ----- the execution as an object

  datatype Point = AtStart | AtGuard | AtIdentity | AtConversation | AtSave | AtEnd

  class Execution {
    const request: InboundRequest
    var point: Point
    var now: Time
    var message: Option<M.Message>
    var channelIdentityId: Option<string>
    var conversation: Option<C.Conversation>
    var error: Option<InboundError>

    constructor (request: InboundRequest)
      ensures this.request == request && point == AtStart && IsConsistent()
    {
      this.request := request;
      point, now := AtStart, 0;
      message, channelIdentityId, conversation, error := None, None, None, None;
    }

    ghost predicate IsConsistent()
      reads this
    {
      && (point !in {AtStart, AtEnd} ==> message.Some? && error.None?)
      && (point == AtConversation ==> channelIdentityId.Some?)
      && (point == AtSave ==> conversation.Some?)
      && (point == AtEnd ==> error.Some? || (message.Some? && conversation.Some?))
    }

    /** The execution as a phase. */
    ghost function View(): Phase
      reads this
      requires IsConsistent() && point != AtStart
    {
      match point
      case AtGuard => AwaitingGuard(now, message.value)
      case AtIdentity => AwaitingIdentity(now, message.value)
      case AtConversation => AwaitingConversation(now, message.value, channelIdentityId.value)
      case AtSave => AwaitingSave(now, message.value, conversation.value)
      case AtEnd => if error.Some? then Raised(error.value) else Completed(message.value, conversation.value)
    }

    method Raise(e: InboundError)
      modifies this
      ensures IsConsistent() && point == AtEnd && View() == Raised(e)
    {
      point, error := AtEnd, Some(e);
    }

    /** Moves the message on, or raises. */
    method Advance(target: M.MessageState) returns (ok: bool)
      requires message.Some?
      modifies this
      ensures ok <==> Allows(M.ALLOWED, old(message).value.status, target)
      ensures ok ==> message == Some(old(message).value.(status := target))
      ensures ok ==> unchanged(`point, `now, `channelIdentityId, `conversation, `error)
      ensures !ok ==> IsConsistent() && point == AtEnd
      ensures !ok ==>
              View() ==
              Raised(IllegalMessageTransition(IllegalTransition("Message", old(message).value.status, target)))
    {
      match message.value.TransitionTo(target) {
        case Ok(moved) =>
          message := Some(moved);
          ok := true;
        case Err(e) =>
          Raise(IllegalMessageTransition(e));
          ok := false;
      }
    }

    method Start(clock: Time, messageId: string)
      requires IsConsistent() && point == AtStart
      modifies this
      ensures IsConsistent() && point != AtStart && View() == Begin(request, clock, messageId)
    {
      if request.webhookValidation.Some? && !request.webhookValidation.value.valid {
        Raise(SourceNotAuthenticated(request.webhookValidation.value.reason));
        return;
      }
      if Strip(request.content) == "" {
        Raise(EmptyContent);
        return;
      }
      now := clock;
      message := Some(M.Message(messageId, "", request.providerSubjectId, ChannelValue(request.channel),
                                request.receivedAt, request.correlationId, M.Received));
      error := None;
      var ok := Advance(M.Validated);
      if ok {
        point := AtGuard;
      }
    }

    method OnGuard(isFirstOccurrence: bool)
      requires IsConsistent() && point == AtGuard
      modifies this
      ensures IsConsistent() && point != AtStart
      ensures View() == AfterDedup(request, old(now), old(message).value, isFirstOccurrence)
    {
      if !isFirstOccurrence {
        Raise(DuplicateMessage(request.providerMessageId));
        return;
      }
      point := AtIdentity;
    }

    method OnIdentity(found: Option<string>)
      requires IsConsistent() && point == AtIdentity
      modifies this
      ensures IsConsistent() && point != AtStart
      ensures View() == AfterIdentity(request, old(now), old(message).value, found)
      ensures found.Some? && point == AtConversation ==> channelIdentityId == found
    {
      if found.None? {
        Raise(UnknownSender(ChannelValue(request.channel), request.provider, request.providerSubjectId));
        return;
      }
      var ok := Advance(M.Identified);
      if ok {
        channelIdentityId := found;
        point := AtConversation;
      }
    }

    /** The end of the pipeline: the message gets the conversation's id and its last status. */
    method Contextualize()
      requires IsConsistent() && message.Some? && conversation.Some? && error.None?
      modifies this
      ensures IsConsistent() && point != AtStart
      ensures View() == Contextualized(old(message).value, old(conversation).value)
    {
      var m := message.value;
      message := Some(M.Message(m.messageId, conversation.value.conversationId, m.sender, m.channel, m.timestamp,
                                m.correlationId, m.status));
      var ok := Advance(M.Contextualized);
      if ok {
        point := AtEnd;
      }
    }

    method OnConversation(found: Option<C.Conversation>, conversationId: string)
      requires IsConsistent() && point == AtConversation
      modifies this
      ensures IsConsistent() && point != AtStart
      ensures View() == AfterLookup(request, old(now), old(message).value, found, conversationId)
    {
      if found.None? {
        var created := C.Conversation(conversationId, request.tenantId, request.organizationId,
                                      ChannelValue(request.channel), C.Created, now, now);
        match created.TransitionTo(C.Active, now) {
          case Err(e) =>
            Raise(IllegalConversationTransition(e));
          case Ok(active) =>
            conversation := Some(active);
            point := AtSave;
        }
      } else {
        conversation := found;
        Contextualize();
      }
    }

    method OnSaved()
      requires IsConsistent() && point == AtSave
      modifies this
      ensures IsConsistent() && point != AtStart
      ensures View() == Contextualized(old(message).value, old(conversation).value)
    {
      Contextualize();
    }
  }
}
