/** The Conversation entity: its transition table and the exact length of its runs. */
module ConversationLifecycle {
  import opened Prelude
  import opened StateMachine

  datatype ConversationState = Created | Active | Idle | Archived

  const ALLOWED: Table<ConversationState> :=
    map[
      Created := {Active},
      Active := {Idle, Archived},
      Idle := {Active, Archived},
      Archived := {}
    ]

  datatype Conversation = Conversation(
    conversationId: string,
    tenantId: string,
    organizationId: Option<string>,
    channel: string,
    state: ConversationState,
    createdAt: Time,
    updatedAt: Time)
  {
    function TransitionTo(target: ConversationState, now: Time)
      : (r: Result<Conversation, IllegalTransition<ConversationState>>)
      ensures r.Ok? <==> Allows(ALLOWED, state, target)
      ensures r.Ok? ==> r.value == this.(state := target, updatedAt := now)
      ensures r.Err? ==> r.error == IllegalTransition("Conversation", state, target)
    {
      match EnsureTransitionAllowed(state, target, ALLOWED, "Conversation")
      case Err(e) => Err(e)
      case Ok(_) => Ok(Conversation(conversationId, tenantId, organizationId, channel, target, createdAt, now))
    }
  }

  /** Seen from where its transitions lead: only an IDLE or ACTIVE conversation is archived, and both can be. */
  lemma WaysIn(a: ConversationState, b: ConversationState)
    ensures Allows(ALLOWED, a, b) <==>
            || (b == Active && a in {Created, Idle})
            || (b == Idle && a == Active)
            || (b == Archived && a in {Active, Idle})
  {
  }

  ghost function Potential(s: ConversationState): nat {
    match s
    case Created => 3
    case Active => 2
    case Idle => 1
    case Archived => 0
  }

  ghost function Reactivations(run: seq<ConversationState>): nat {
    CountEdge(run, Idle, Active)
  }

  lemma RunLengthBound(run: seq<ConversationState>)
    requires IsRun(ALLOWED, run) && run[0] == Created
    ensures |run| - 1 <= 3 + 2 * Reactivations(run)
  {
    TransitionsIsLength(run);
    AmortisedBound(ALLOWED, run, s => Potential(s), (a, b) => 1, Idle, Active, 2);
  }

  lemma RunLengthAttained(k: nat) returns (run: seq<ConversationState>)
    ensures IsRun(ALLOWED, run) && run[0] == Created
    ensures Reactivations(run) == k
    ensures |run| - 1 == 3 + 2 * k
  {
    var lead := [Created, Active, Idle];
    var cycle := [Active, Idle];
    NoEdgeNoCount(lead, Idle, Active);
    NoEdgeNoCount(cycle, Idle, Active);
    MultipleIsProduct(k, |cycle|);
    Pump(ALLOWED, lead, cycle, Idle, Active, k);
    Glue(ALLOWED, lead + Repeat(cycle, k), [Archived], Idle, Active);
    run := lead + Repeat(cycle, k) + [Archived];
  }
}
