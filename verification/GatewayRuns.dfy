/**
  Runs of the gateway built step by step: deliveries that go through with nothing else going on. What the runs
  lead to is in every set of states that no action leads out of, so in the set of the reachable ones.
 */
module GatewayRuns {
  import opened Prelude
  import opened ReplayGuard
  import opened Webhook
  import opened InboundExecution
  import opened InboundGateway
  import opened GatewayTheorems
  import M = MessageLifecycle
  import C = ConversationLifecycle

  type States = iset<System>

  /** No action leads out of this set of states. */
  ghost predicate IsClosed(config: Config, states: States) {
    forall s, a :: s in states ==> Next(config, s, a) in states
  }

  lemma ReachableIsClosed(config: Config)
    ensures IsClosed(config, iset s | IsReachable(config, s))
  {
    forall s, a | IsReachable(config, s)
      ensures IsReachable(config, Next(config, s, a))
    {
      var clock, actions :| s == After(config, clock, actions);
      assert (actions + [a])[..|actions|] == actions;
      assert Next(config, s, a) == After(config, clock, actions + [a]);
    }
  }

  /** In this state of the set, delivery `d` arrived last, after those of `s`. */
  ghost predicate EndsIn(config: Config, states: States, s: System, t: System, d: Delivery) {
    IsClosed(config, states) && t in states && t.deliveries == s.deliveries + [d]
  }

  /** The delivery that arrived last, after `s`, takes a step with this effect. */
  lemma Take(config: Config, states: States, s: System, d: Delivery, t: System, step: Step, e: Effect)
    returns (u: System)
    requires EndsIn(config, states, s, t, d)
    requires e == StepEffect(config, t, |s.deliveries|, d, step)
    ensures EndsIn(config, states, s, u, e.delivery) && u.clock == t.clock
    ensures u.store ==
            if e.call.Some? then Recorded(t.store, e.call.value.key, e.call.value.ttl, e.call.value.at) else t.store
    ensures u.calls == if e.call.Some? then t.calls + [e.call.value] else t.calls
    ensures u.issued == if e.drawn.Some? then t.issued[e.drawn.value.0 := e.drawn.value.1] else t.issued
  {
    u := Next(config, t, Deliver(|s.deliveries|, step));
  }

  lemma Waiting(config: Config, states: States, s: System, at: Time) returns (t: System)
    requires IsClosed(config, states) && s in states && s.clock <= at
    ensures t in states && t == s.(clock := at)
  {
    t := Next(config, s, Tick(at));
  }

  lemma Arriving(
      config: Config, states: States, s: System, hook: Option<VerifyWebhookRequest>, request: InboundRequest, at: Time)
    returns (t: System)
    requires IsClosed(config, states) && s in states && s.clock <= at
    ensures t in states
    ensures t == s.(clock := at, deliveries := s.deliveries +
                    [Delivery(hook, request, if hook.Some? then Arrived else Verified, NOTHING_YET)])
  {
    t := Waiting(config, states, s, at);
    t := Next(config, t, Arrive(hook, request));
  }

  /** Nothing shared differs, as far as later steps can see. */
  ghost predicate SharesWith(u: System, t: System) {
    u.clock == t.clock && u.store == t.store && u.calls == t.calls && u.issued == t.issued
  }

  /** Takes a step that touches nothing shared. */
  lemma TakeQuietly(config: Config, states: States, s: System, d: Delivery, t: System, step: Step, d': Delivery)
    returns (u: System)
    requires EndsIn(config, states, s, t, d)
    requires StepEffect(config, t, |s.deliveries|, d, step) == Quietly(d')
    ensures EndsIn(config, states, s, u, d')
    ensures SharesWith(u, t)
  {
    u := Take(config, states, s, d, t, step, Quietly(d'));
  }

  ghost function Checked(d: Delivery, v: Time): Delivery {
    d.(stage := VerifyCalled, trace := d.trace.(checkedAt := Some(v)))
  }

  ghost function Vouched(d: Delivery): Delivery {
    d.(stage := Verified, request := d.request.(webhookValidation := Some(ACCEPTED)))
  }

  lemma CheckPasses(config: Config, t: System, i: nat, d: Delivery, v: Time)
    requires d.hook.Some? && d.stage.Arrived? && v <= t.clock && IsDeliverable(config.webhook, d.hook.value)
    requires Abs(v - d.hook.value.eventTimestamp) <= config.webhook.config.maxClockSkew
    ensures StepEffect(config, t, i, d, Check(v)) == Quietly(Checked(d, v))
  {
    assert ReachesGuard(config.webhook, d.hook.value, v);
  }

  lemma ReplayCallSucceeds(config: Config, t: System, i: nat, d: Delivery)
    requires d.hook.Some? && d.stage.VerifyCalled? && !Live(t.store, d.hook.value.replayKey, t.clock)
    ensures StepEffect(config, t, i, d, ServeGuard) ==
            Effect(d.(stage := VerifyAnswered(true), trace := d.trace.(replayCall := Some(|t.calls|))),
                   Some(GuardCall(i, d.hook.value.replayKey, config.webhook.replayTtl, t.clock, true)), None, None)
  {
  }

  lemma RunCheck(config: Config, states: States, s: System, t: System, d: Delivery, v: Time)
    returns (u: System, d': Delivery)
    requires EndsIn(config, states, s, t, d) && d.stage.Arrived? && v <= t.clock
    requires d.hook.Some? && IsDeliverable(config.webhook, d.hook.value)
    requires Abs(v - d.hook.value.eventTimestamp) <= config.webhook.config.maxClockSkew
    ensures EndsIn(config, states, s, u, d') && SharesWith(u, t) && d' == Checked(d, v)
  {
    CheckPasses(config, t, |s.deliveries|, d, v);
    d' := Checked(d, v);
    u := TakeQuietly(config, states, s, d, t, Check(v), d');
  }

  lemma RunReplayCall(config: Config, states: States, s: System, t: System, d: Delivery)
    returns (u: System, d': Delivery)
    requires EndsIn(config, states, s, t, d) && d.stage.VerifyCalled?
    requires d.hook.Some? && !Live(t.store, d.hook.value.replayKey, t.clock)
    ensures EndsIn(config, states, s, u, d') && u.clock == t.clock && u.issued == t.issued
    ensures d' == d.(stage := VerifyAnswered(true), trace := d.trace.(replayCall := Some(|t.calls|)))
    ensures u.store == t.store[d.hook.value.replayKey := t.clock + config.webhook.replayTtl]
    ensures u.calls ==
            t.calls + [GuardCall(|s.deliveries|, d.hook.value.replayKey, config.webhook.replayTtl, t.clock, true)]
  {
    ReplayCallSucceeds(config, t, |s.deliveries|, d);
    u := Take(config, states, s, d, t, ServeGuard, StepEffect(config, t, |s.deliveries|, d, ServeGuard));
    d' := d.(stage := VerifyAnswered(true), trace := d.trace.(replayCall := Some(|t.calls|)));
  }

  lemma RunReturn(config: Config, states: States, s: System, t: System, d: Delivery) returns (u: System, d': Delivery)
    requires EndsIn(config, states, s, t, d) && d.stage == VerifyAnswered(true)
    ensures EndsIn(config, states, s, u, d') && SharesWith(u, t) && d' == Vouched(d)
  {
    d' := Vouched(d);
    u := TakeQuietly(config, states, s, d, t, Return, d');
  }

  /** A correctly signed webhook, checked at `v` and recorded at `at`, is verified. */
  lemma RunVerification(
      config: Config, states: States, s: System, hook: VerifyWebhookRequest, request: InboundRequest, v: Time, at: Time)
    returns (t: System, d: Delivery)
    requires IsClosed(config, states) && s in states && s.clock <= at && v <= at
    requires IsDeliverable(config.webhook, hook) && Abs(v - hook.eventTimestamp) <= config.webhook.config.maxClockSkew
    requires !Live(s.store, hook.replayKey, at)
    ensures EndsIn(config, states, s, t, d) && t.clock == at && t.issued == s.issued
    ensures d == Delivery(Some(hook), request.(webhookValidation := Some(ACCEPTED)), Verified,
                          NOTHING_YET.(checkedAt := Some(v), replayCall := Some(|s.calls|)))
    ensures t.store == s.store[hook.replayKey := at + config.webhook.replayTtl]
    ensures t.calls == s.calls + [GuardCall(|s.deliveries|, hook.replayKey, config.webhook.replayTtl, at, true)]
  {
    var t1 := Arriving(config, states, s, Some(hook), request, at);
    var t2, d2 := RunCheck(config, states, s, t1, Delivery(Some(hook), request, Arrived, NOTHING_YET), v);
    var t3, d3 := RunReplayCall(config, states, s, t2, d2);
    t, d := RunReturn(config, states, s, t3, d3);
  }

  // ----- processing, one step at a time

  ghost function Calling(d: Delivery, phase: Phase): Delivery {
    d.(stage := Running(phase))
  }

  /** Ready to be processed, with nothing against it. */
  ghost predicate IsStartable(d: Delivery) {
    && d.stage.Verified? && Strip(d.request.content) != ""
    && (d.request.webhookValidation.Some? ==> d.request.webhookValidation.value.valid)
  }

  lemma StartCallsGuard(config: Config, t: System, i: nat, d: Delivery, id: string)
    requires IsStartable(d) && id !in t.issued
    ensures StepEffect(config, t, i, d, Start(id)) ==
            Effect(Calling(d, AwaitingGuard(t.clock, NewMessage(d.request, id).(status := M.Validated)))
                   .(trace := d.trace.(startedAt := Some(t.clock), messageId := Some(id))),
                   None, None, Some((id, ForMessage(i))))
  {
  }

  lemma DedupCallSucceeds(config: Config, t: System, i: nat, d: Delivery)
    requires d.stage.Running? && d.stage.phase.AwaitingGuard? && !Live(t.store, d.request.Key(), t.clock)
    ensures StepEffect(config, t, i, d, ServeGuard) ==
            Effect(d.(stage := Answered(d.stage.phase, GuardReply(true)),
              trace := d.trace.(dedupCall := Some(|t.calls|))),
                   Some(GuardCall(i, d.request.Key(), config.dedupTtl, t.clock, true)), None, None)
  {
  }

  lemma ResumesWith(config: Config, t: System, i: nat, d: Delivery, spare: string, next: Phase)
    requires d.stage.Answered? && spare !in t.issued
    requires next == ResumePhase(d.request, d.stage.phase, d.stage.reply, spare) && !next.AwaitingSave?
    ensures StepEffect(config, t, i, d, Resume(spare)) == Quietly(Calling(d, next))
  {
  }

  lemma RunStart(config: Config, states: States, s: System, t: System, d: Delivery, id: string, m: M.Message)
    returns (u: System, d': Delivery)
    requires EndsIn(config, states, s, t, d) && IsStartable(d)
    requires id !in t.issued && m == NewMessage(d.request, id).(status := M.Validated)
    ensures EndsIn(config, states, s, u, d')
    ensures d' ==
            Calling(d, AwaitingGuard(t.clock, m)).(trace := d.trace.(startedAt := Some(t.clock), messageId := Some(id)))
    ensures u.clock == t.clock && u.store == t.store && u.calls == t.calls
    ensures u.issued == t.issued[id := ForMessage(|s.deliveries|)]
  {
    StartCallsGuard(config, t, |s.deliveries|, d, id);
    u := Take(config, states, s, d, t, Start(id), StepEffect(config, t, |s.deliveries|, d, Start(id)));
    d' := Calling(d, AwaitingGuard(t.clock, m)).(trace := d.trace.(startedAt := Some(t.clock), messageId := Some(id)));
  }

  lemma RunDedupCall(config: Config, states: States, s: System, t: System, d: Delivery)
    returns (u: System, d': Delivery)
    requires EndsIn(config, states, s, t, d) && d.stage.Running? && d.stage.phase.AwaitingGuard?
    requires !Live(t.store, d.request.Key(), t.clock)
    ensures EndsIn(config, states, s, u, d') && u.clock == t.clock && u.issued == t.issued
    ensures d' ==
            d.(stage := Answered(d.stage.phase, GuardReply(true)), trace := d.trace.(dedupCall := Some(|t.calls|)))
    ensures u.store == t.store[d.request.Key() := t.clock + config.dedupTtl]
    ensures u.calls == t.calls + [GuardCall(|s.deliveries|, d.request.Key(), config.dedupTtl, t.clock, true)]
  {
    DedupCallSucceeds(config, t, |s.deliveries|, d);
    u := Take(config, states, s, d, t, ServeGuard, StepEffect(config, t, |s.deliveries|, d, ServeGuard));
    d' := d.(stage := Answered(d.stage.phase, GuardReply(true)), trace := d.trace.(dedupCall := Some(|t.calls|)));
  }

  /** Takes a resumption that draws no id. */
  lemma RunResume(config: Config, states: States, s: System, t: System, d: Delivery, spare: string, next: Phase)
    returns (u: System, d': Delivery)
    requires EndsIn(config, states, s, t, d) && d.stage.Answered? && spare !in t.issued
    requires next == ResumePhase(d.request, d.stage.phase, d.stage.reply, spare) && !next.AwaitingSave?
    ensures EndsIn(config, states, s, u, d') && SharesWith(u, t) && d' == Calling(d, next)
  {
    ResumesWith(config, t, |s.deliveries|, d, spare, next);
    d' := Calling(d, next);
    u := TakeQuietly(config, states, s, d, t, Resume(spare), d');
  }

  lemma RunDedup(
      config: Config, states: States, s: System, t: System, d: Delivery, now: Time, m: M.Message, spare: string)
    returns (u: System, d': Delivery)
    requires EndsIn(config, states, s, t, d) && d.stage == Running(AwaitingGuard(now, m))
    requires !Live(t.store, d.request.Key(), t.clock) && spare !in t.issued
    ensures EndsIn(config, states, s, u, d') && u.clock == t.clock && u.issued == t.issued
    ensures d' == Calling(d, AwaitingIdentity(now, m)).(trace := d.trace.(dedupCall := Some(|t.calls|)))
    ensures u.store == t.store[d.request.Key() := t.clock + config.dedupTtl]
    ensures u.calls == t.calls + [GuardCall(|s.deliveries|, d.request.Key(), config.dedupTtl, t.clock, true)]
  {
    var t1, d1 := RunDedupCall(config, states, s, t, d);
    u, d' := RunResume(config, states, s, t1, d1, spare, AwaitingIdentity(now, m));
  }

  lemma RunIdentification(
      config: Config, states: States, s: System, t: System, d: Delivery, now: Time, m: M.Message, spare: string)
    returns (u: System, d': Delivery)
    requires EndsIn(config, states, s, t, d)
    requires d.stage == Running(AwaitingIdentity(now, m)) && m.status == M.Validated
    requires spare !in t.issued
    ensures EndsIn(config, states, s, u, d')
    ensures d' == Calling(d, AwaitingConversation(now, m.(status := M.Identified), ""))
                  .(trace := d.trace.(identity := Some(Some(""))))
    ensures SharesWith(u, t)
  {
    d' := d.(stage := Answered(AwaitingIdentity(now, m), IdentityReply(Some(""))),
             trace := d.trace.(identity := Some(Some(""))));
    u := TakeQuietly(config, states, s, d, t, ServeIdentity(Some("")), d');
    u, d' := RunResume(config, states, s, u, d', spare, AwaitingConversation(now, m.(status := M.Identified), ""));
  }

  lemma RunLookup(
      config: Config, states: States, s: System, t: System, d: Delivery, now: Time, m: M.Message, spare: string)
    returns (u: System, d': Delivery)
    requires EndsIn(config, states, s, t, d)
    requires d.stage == Running(AwaitingConversation(now, m, "")) && m.status == M.Identified
    requires spare !in t.issued
    ensures EndsIn(config, states, s, u, d') && IsComplete(d')
    ensures d' == d.(stage := d'.stage, trace := d.trace.(lookup := d'.trace.lookup))
    ensures SharesWith(u, t)
  {
    var c := C.Conversation("", "", None, "", C.Active, 0, 0);
    d' := d.(stage := Answered(AwaitingConversation(now, m, ""), LookupReply(Some(c))),
               trace := d.trace.(lookup := Some(Some(c))));
    u := TakeQuietly(config, states, s, d, t, ServeLookup(Some(c)), d');
    u, d' := RunResume(config, states, s, u, d', spare, Contextualized(m, c));
  }

  lemma RunRest(
      config: Config, states: States, s: System, t: System, d: Delivery, now: Time, m: M.Message, spare: string)
    returns (u: System, d': Delivery)
    requires EndsIn(config, states, s, t, d)
    requires d.stage == Running(AwaitingIdentity(now, m)) && m.status == M.Validated && spare !in t.issued
    ensures EndsIn(config, states, s, u, d') && IsComplete(d')
    ensures d' == d.(stage := d'.stage,
                     trace := d.trace.(identity := d'.trace.identity, lookup := d'.trace.lookup))
    ensures SharesWith(u, t)
  {
    u, d' := RunIdentification(config, states, s, t, d, now, m, spare);
    u, d' := RunLookup(config, states, s, u, d', now, m.(status := M.Identified), spare);
  }

  /** What a delivery that gets past the guard leaves shared, besides its message id: its key and its call. */
  ghost predicate Admitted(config: Config, t: System, u: System, i: nat, key: string) {
    && u.clock == t.clock
    && u.store == t.store[key := t.clock + config.dedupTtl]
    && u.calls == t.calls + [GuardCall(i, key, config.dedupTtl, t.clock, true)]
  }

  lemma RunAdmission(
      config: Config, states: States, s: System, t: System, d: Delivery, id: string, m: M.Message, spare: string)
    returns (u: System, d': Delivery)
    requires EndsIn(config, states, s, t, d) && IsStartable(d)
    requires !Live(t.store, d.request.Key(), t.clock) && m == NewMessage(d.request, id).(status := M.Validated)
    requires id !in t.issued && spare !in t.issued && id != spare
    ensures EndsIn(config, states, s, u, d') && u.issued == t.issued[id := ForMessage(|s.deliveries|)]
    ensures d' == d.(stage := Running(AwaitingIdentity(t.clock, m)),
                     trace := d.trace.(startedAt := Some(t.clock), messageId := Some(id), dedupCall := Some(|t.calls|)))
    ensures Admitted(config, t, u, |s.deliveries|, d.request.Key())
  {
    var t1, d1 := RunStart(config, states, s, t, d, id, m);
    u, d' := RunDedup(config, states, s, t1, d1, t.clock, m, spare);
  }

  /** The text that is none of these: longer than all of them. */
  lemma FreshText(taken: set<string>) returns (text: string)
    ensures text !in taken
  {
    var n := LongerThanAll(taken);
    text := seq(n, i => 'x');
  }

  lemma {:induction false} LongerThanAll(taken: set<string>) returns (n: nat)
    ensures forall text :: text in taken ==> |text| < n
  {
    if taken == {} {
      n := 0;
    } else {
      var text :| text in taken;
      var m := LongerThanAll(taken - {text});
      n := if m > |text| then m else |text| + 1;
    }
  }

  /** The delivery that arrived last is processed at once, and completes. */
  lemma RunProcessing(config: Config, states: States, s: System, t: System, d: Delivery)
    returns (u: System, d': Delivery)
    requires EndsIn(config, states, s, t, d) && IsStartable(d)
    requires !Live(t.store, d.request.Key(), t.clock)
    ensures EndsIn(config, states, s, u, d') && IsComplete(d')
    ensures d' == d.(stage := d'.stage, trace := d'.trace) && d'.trace.checkedAt == d.trace.checkedAt
    ensures d'.trace.dedupCall == Some(|t.calls|)
    ensures Admitted(config, t, u, |s.deliveries|, d.request.Key())
  {
    var id := FreshText(t.issued.Keys);
    var spare := FreshText(t.issued.Keys + {id});
    var m := NewMessage(d.request, id).(status := M.Validated);
    var t1, d1 := RunAdmission(config, states, s, t, d, id, m, spare);
    u, d' := RunRest(config, states, s, t1, d1, t.clock, m, spare);
  }

  /** The delivery made its dedup call at `at`, and this was the last call so far. */
  ghost predicate IsAdmittedAt(calls: seq<GuardCall>, d: Delivery, at: Time) {
    d.trace.dedupCall.Some? && d.trace.dedupCall.value == |calls| - 1 && calls[|calls| - 1].at == at
  }

  /** A whole webhook delivery with nothing else going on: checked against `v`, verified at `at`, admitted at `then`. */
  lemma RunWebhook(
      config: Config, states: States, s: System, hook: VerifyWebhookRequest, request: InboundRequest, v: Time,
      at: Time, then': Time)
    returns (t: System, d: Delivery)
    requires IsClosed(config, states) && s in states && s.clock <= at <= then' && v <= at
    requires Strip(request.content) != ""
    requires IsDeliverable(config.webhook, hook) && Abs(v - hook.eventTimestamp) <= config.webhook.config.maxClockSkew
    requires !Live(s.store, hook.replayKey, at)
    requires !Live(s.store[hook.replayKey := at + config.webhook.replayTtl], request.Key(), then')
    ensures EndsIn(config, states, s, t, d) && t.clock == then' && s.calls <= t.calls
    ensures t.store ==
            s.store[hook.replayKey := at + config.webhook.replayTtl][request.Key() := then' + config.dedupTtl]
    ensures IsComplete(d) && d.hook == Some(hook) && d.request.Key() == request.Key() && d.trace.checkedAt == Some(v)
    ensures IsAdmittedAt(t.calls, d, then')
  {
    var t1, d1 := RunVerification(config, states, s, hook, request, v, at);
    var t2 := Waiting(config, states, t1, then');
    t, d := RunProcessing(config, states, s, t2, d1);
  }

  /** A whole delivery that came in without a webhook, admitted at `at`. */
  lemma RunUnhooked(config: Config, states: States, s: System, request: InboundRequest, at: Time)
    returns (t: System, d: Delivery)
    requires IsClosed(config, states) && s in states && s.clock <= at && Strip(request.content) != ""
    requires !Live(s.store, request.Key(), at)
    ensures EndsIn(config, states, s, t, d) && t.clock == at && s.calls <= t.calls
    ensures t.store == s.store[request.Key() := at + config.dedupTtl]
    ensures IsComplete(d) && d.hook == None && d.request.Key() == request.Key() && d.trace.checkedAt == None
    ensures IsAdmittedAt(t.calls, d, at)
  {
    var direct := request.(webhookValidation := None);
    var t1 := Arriving(config, states, s, None, direct, at);
    t, d := RunProcessing(config, states, s, t1, Delivery(None, direct, Verified, NOTHING_YET));
  }
}
