/**
  Deliveries that the guard never lets in are without effect on all others: a run from which such a delivery
  and all its steps are deleted leads to the same state, except that the delivery is not there.
 */
module GatewayNoninterference {
  import opened Prelude
  import opened ReplayGuard
  import opened Webhook
  import opened InboundExecution
  import opened InboundGateway
  import opened GatewayInvariant
  import opened GatewayTheorems
  import C = ConversationLifecycle

  // ----- a run, and a state, without delivery x

  /** The place of delivery `j` once delivery `x` is gone: those that arrived later move up. */
  function Moved(x: nat, j: nat): nat {
    if j <= x then j else j - 1
  }

  /** The run without the arrival of delivery `x` and without its steps. */
  ghost function Without(config: Config, clock: Time, actions: seq<Action>, x: nat): seq<Action> {
    if actions == [] then []
    else
      var before, last := actions[..|actions| - 1], actions[|actions| - 1];
      var kept := Without(config, clock, before, x);
      if IsActionOf(After(config, clock, before), last, x) then kept else kept + [MovedAction(last, x)]
  }

  predicate IsActionOf(s: System, a: Action, x: nat) {
    (a.Arrive? && |s.deliveries| == x) || (a.Deliver? && a.i == x)
  }

  function MovedAction(a: Action, x: nat): Action {
    if a.Deliver? then Deliver(Moved(x, a.i), a.step) else a
  }

  ghost function CallsWithout(calls: seq<GuardCall>, x: nat): seq<GuardCall> {
    if calls == [] then []
    else
      var before, c := CallsWithout(calls[..|calls| - 1], x), calls[|calls| - 1];
      if c.caller == x then before else before + [c.(caller := Moved(x, c.caller))]
  }

  ghost function SavesWithout(saves: seq<Save>, x: nat): seq<Save> {
    if saves == [] then []
    else
      var before, save := SavesWithout(saves[..|saves| - 1], x), saves[|saves| - 1];
      if save.owner == x then before else before + [save.(owner := Moved(x, save.owner))]
  }

  ghost function IdsWithout(issued: map<string, IdUse>, x: nat): map<string, IdUse> {
    map id | id in issued && issued[id].owner != x :: issued[id].(owner := Moved(x, issued[id].owner))
  }

  /** The same in every respect but the places that the logs give to its calls and its save. */
  predicate IsSameBut(d: Delivery, d': Delivery) {
    && d'.hook == d.hook && d'.request == d.request && d'.stage == d.stage
    && d'.trace.checkedAt == d.trace.checkedAt && d'.trace.startedAt == d.trace.startedAt
    && d'.trace.identity == d.trace.identity && d'.trace.lookup == d.trace.lookup
    && d'.trace.messageId == d.trace.messageId && d'.trace.startedId == d.trace.startedId
  }

  /** `t` is `s` without delivery `x`. */
  ghost predicate IsWithout(s: System, t: System, x: nat) {
    && t.clock == s.clock && t.store == s.store
    && t.calls == CallsWithout(s.calls, x) && t.saves == SavesWithout(s.saves, x) && t.issued == IdsWithout(s.issued, x)
    && AreDeliveriesWithout(s.deliveries, t.deliveries, x)
  }

  ghost predicate AreDeliveriesWithout(ds: seq<Delivery>, ds': seq<Delivery>, x: nat) {
    && |ds'| == (if x < |ds| then |ds| - 1 else |ds|)
    && forall j, k :: 0 <= j < |ds| && j != x && k == Moved(x, j) ==> IsSameBut(ds[j], ds'[k])
  }

  // ----- the delivery, and the ids of the others

  /** None of the delivery's guard calls succeeded. */
  ghost predicate IsNeverLetIn(s: System, x: nat) {
    forall p :: 0 <= p < |s.calls| && s.calls[p].caller == x ==> !s.calls[p].first
  }

  /** The id source gave none of these ids to another delivery than `x`. */
  ghost predicate IsKeptFromOthers(actions: seq<Action>, x: nat, ids: set<string>) {
    forall a :: a in actions && a.Deliver? && a.i != x ==> OffersNone(a.step, ids)
  }

  predicate OffersNone(step: Step, ids: set<string>) {
    match step
    case Start(id) => id !in ids
    case Resume(id) => id !in ids
    case _ => true
  }

  ghost function IdsOf(s: System, x: nat): set<string> {
    set id | id in s.issued && s.issued[id].owner == x
  }

  // ----- one action

  ghost predicate IsSameEffect(e: Effect, e': Effect, i: nat, k: nat) {
    && IsSameBut(e.delivery, e'.delivery)
    && (match e.call
        case None => e'.call == None
        case Some(c) => c.caller == i && e'.call == Some(c.(caller := k)))
    && (match e.save
        case None => e'.save == None
        case Some(save) => save.owner == i && e'.save == Some(save.(owner := k)))
    && (match e.drawn
        case None => e'.drawn == None
        case Some((id, use)) => use.owner == i && e'.drawn == Some((id, use.(owner := k))))
  }

  /** What a step of another delivery can see is the same in both runs. */
  ghost predicate SeesTheSame(s: System, t: System, d: Delivery, d': Delivery, step: Step) {
    && t.clock == s.clock && t.store == s.store && IsSameBut(d, d')
    && (step.Start? || step.Resume? ==> (step.id in s.issued <==> step.id in t.issued))
  }

  lemma SameStart(i: nat, k: nat, d: Delivery, d': Delivery, now: Time, id: string)
    requires IsSameBut(d, d')
    ensures IsSameEffect(StartEffect(i, d, now, id), StartEffect(k, d', now, id), i, k)
  {
  }

  lemma SameResume(i: nat, k: nat, d: Delivery, d': Delivery, before: Phase, reply: Reply, id: string)
    requires IsSameBut(d, d')
    ensures IsSameEffect(ResumeEffect(i, d, before, reply, id), ResumeEffect(k, d', before, reply, id), i, k)
  {
  }

  lemma SameGuardCall(config: Config, s: System, t: System, i: nat, k: nat, d: Delivery, d': Delivery)
    requires SeesTheSame(s, t, d, d', ServeGuard) && CanStep(s, d, ServeGuard)
    ensures IsSameEffect(GuardEffect(config, s, i, d), GuardEffect(config, t, k, d'), i, k)
  {
  }

  lemma SameCheck(config: Config, d: Delivery, d': Delivery, now: Time)
    requires IsSameBut(d, d') && d.hook.Some?
    ensures IsSameBut(CheckStep(config, d, now), CheckStep(config, d', now))
  {
  }

  lemma SameChance(s: System, t: System, d: Delivery, d': Delivery, step: Step)
    requires SeesTheSame(s, t, d, d', step)
    ensures CanStep(s, d, step) <==> CanStep(t, d', step)
  {
  }

  lemma SameTakenStep(config: Config, s: System, t: System, i: nat, k: nat, d: Delivery, d': Delivery, step: Step)
    requires SeesTheSame(s, t, d, d', step) && CanStep(s, d, step) && CanStep(t, d', step)
    ensures IsSameEffect(TakenStep(config, s, i, d, step), TakenStep(config, t, k, d', step), i, k)
  {
    match step
    case ServeGuard => SameGuardCall(config, s, t, i, k, d, d');
    case Check(now) => SameCheck(config, d, d', now);
    case Start(id) => SameStart(i, k, d, d', s.clock, id);
    case Resume(id) => SameResume(i, k, d, d', d.stage.phase, d.stage.reply, id);
    case _ =>
  }

  /** A step of another delivery does the same in both runs. */
  lemma SameEffect(config: Config, s: System, t: System, i: nat, k: nat, d: Delivery, d': Delivery, step: Step)
    requires SeesTheSame(s, t, d, d', step)
    ensures IsSameEffect(StepEffect(config, s, i, d, step), StepEffect(config, t, k, d', step), i, k)
  {
    SameChance(s, t, d, d', step);
    if CanStep(s, d, step) {
      SameTakenStep(config, s, t, i, k, d, d', step);
    }
  }

  lemma CallsWithoutLast(calls: seq<GuardCall>, c: GuardCall, x: nat)
    ensures CallsWithout(calls + [c], x) ==
            if c.caller == x then CallsWithout(calls, x)
            else CallsWithout(calls, x) + [c.(caller := Moved(x, c.caller))]
  {
    assert (calls + [c])[..|calls|] == calls;
  }

  lemma SavesWithoutLast(saves: seq<Save>, save: Save, x: nat)
    ensures SavesWithout(saves + [save], x) ==
            if save.owner == x then SavesWithout(saves, x)
            else SavesWithout(saves, x) + [save.(owner := Moved(x, save.owner))]
  {
    assert (saves + [save])[..|saves|] == saves;
  }

  lemma IdsWithoutNew(issued: map<string, IdUse>, id: string, use: IdUse, x: nat)
    requires id !in issued
    ensures IdsWithout(issued[id := use], x) ==
            if use.owner == x then IdsWithout(issued, x)
            else IdsWithout(issued, x)[id := use.(owner := Moved(x, use.owner))]
  {
  }

  lemma UpdatedDeliveries(ds: seq<Delivery>, ds': seq<Delivery>, x: nat, i: nat, d: Delivery, d': Delivery)
    requires AreDeliveriesWithout(ds, ds', x) && i < |ds| && i != x && IsSameBut(d, d')
    ensures Moved(x, i) < |ds'|
    ensures AreDeliveriesWithout(ds[i := d], ds'[Moved(x, i) := d'], x)
  {
  }

  lemma SameApplied(s: System, t: System, x: nat, i: nat, e: Effect, e': Effect)
    requires IsWithout(s, t, x) && i < |s.deliveries| && i != x
    requires IsSameEffect(e, e', i, Moved(x, i)) && (e.drawn.Some? ==> e.drawn.value.0 !in s.issued)
    ensures Moved(x, i) < |t.deliveries| && IsWithout(Applied(s, i, e), Applied(t, Moved(x, i), e'), x)
  {
    UpdatedDeliveries(s.deliveries, t.deliveries, x, i, e.delivery, e'.delivery);
    if e.call.Some? {
      CallsWithoutLast(s.calls, e.call.value, x);
    }
    if e.save.Some? {
      SavesWithoutLast(s.saves, e.save.value, x);
    }
    if e.drawn.Some? {
      IdsWithoutNew(s.issued, e.drawn.value.0, e.drawn.value.1, x);
    }
  }

  /** A step of delivery `x` itself that is let in nowhere: a refused call at most, no save, ids of its own. */
  ghost predicate IsUnseen(s: System, x: nat, e: Effect) {
    && (e.call.Some? ==> e.call.value.caller == x && Live(s.store, e.call.value.key, e.call.value.at))
    && e.save == None
    && (e.drawn.Some? ==> e.drawn.value.0 !in s.issued && e.drawn.value.1.owner == x)
  }

  lemma UnseenApplied(s: System, t: System, x: nat, e: Effect)
    requires IsWithout(s, t, x) && x < |s.deliveries| && IsUnseen(s, x, e)
    ensures IsWithout(Applied(s, x, e), t, x)
  {
    if e.call.Some? {
      CallsWithoutLast(s.calls, e.call.value, x);
    }
    if e.drawn.Some? {
      IdsWithoutNew(s.issued, e.drawn.value.0, e.drawn.value.1, x);
    }
    assert AreDeliveriesWithout(s.deliveries[x := e.delivery], t.deliveries, x);
  }

  lemma OnlyAdmittedSave(config: Config, s: System, i: nat, d: Delivery, step: Step)
    ensures StepEffect(config, s, i, d, step).save.Some? ==> d.stage.Running? && IsAdmitted(d.stage.phase)
  {
  }

  lemma AdmittedWasLetIn(config: Config, s: System, x: nat, d: Delivery)
    requires DedupOk(config, s.calls, x, d) && d.stage.Running? && IsAdmitted(d.stage.phase)
    ensures !IsNeverLetIn(s, x)
  {
    assert IsDedupCall(config, s.calls, x, d, d.trace.dedupCall.value);
  }

  lemma StepIsUnseen(config: Config, s: System, x: nat, d: Delivery, step: Step)
    requires IsConfig(config) && x < |s.deliveries| && DeliveryOk(config, s, x, d) && IsNeverLetIn(s, x)
    requires var e := StepEffect(config, s, x, d, step); e.call.Some? ==> !e.call.value.first
    ensures IsUnseen(s, x, StepEffect(config, s, x, d, step))
  {
    EffectIsOrderly(config, s, x, d, step);
    DrawIsOrderly(config, s, x, d, step);
    OnlyAdmittedSave(config, s, x, d, step);
    if d.stage.Running? && IsAdmitted(d.stage.phase) {
      AdmittedWasLetIn(config, s, x, d);
    }
  }

  lemma LastCallRefused(s: System, x: nat, e: Effect)
    requires x < |s.deliveries| && IsNeverLetIn(Applied(s, x, e), x)
    ensures e.call.Some? && e.call.value.caller == x ==> !e.call.value.first
  {
    if e.call.Some? {
      assert Applied(s, x, e).calls[|s.calls|] == e.call.value;
    }
  }

  lemma OwnStepIsUnseen(config: Config, s: System, x: nat, step: Step)
    requires IsConfig(config) && Inv(config, s) && x < |s.deliveries| && IsNeverLetIn(s, x)
    requires IsNeverLetIn(Applied(s, x, StepEffect(config, s, x, s.deliveries[x], step)), x)
    ensures IsUnseen(s, x, StepEffect(config, s, x, s.deliveries[x], step))
  {
    var d := s.deliveries[x];
    assert DeliveryOk(config, s, x, d);
    EffectIsOrderly(config, s, x, d, step);
    LastCallRefused(s, x, StepEffect(config, s, x, d, step));
    StepIsUnseen(config, s, x, d, step);
  }

  lemma OffersSeenAlike(s: System, t: System, x: nat, step: Step, ids: set<string>)
    requires t.issued == IdsWithout(s.issued, x) && IdsOf(s, x) <= ids && OffersNone(step, ids)
    ensures step.Start? || step.Resume? ==> (step.id in s.issued <==> step.id in t.issued)
  {
    if (step.Start? || step.Resume?) && step.id in s.issued {
      assert step.id !in IdsOf(s, x);
    }
  }

  lemma DrawsUnissued(config: Config, s: System, i: nat, step: Step)
    requires Inv(config, s) && i < |s.deliveries|
    ensures var e := StepEffect(config, s, i, s.deliveries[i], step);
            e.drawn.Some? ==> e.drawn.value.0 !in s.issued
  {
    assert DeliveryOk(config, s, i, s.deliveries[i]);
    DrawIsOrderly(config, s, i, s.deliveries[i], step);
  }

  lemma OtherStepIsSame(config: Config, s: System, t: System, i: nat, step: Step, x: nat, ids: set<string>)
    requires IsWithout(s, t, x) && i < |s.deliveries| && i != x
    requires IdsOf(s, x) <= ids && OffersNone(step, ids)
    ensures Moved(x, i) < |t.deliveries|
    ensures IsSameEffect(StepEffect(config, s, i, s.deliveries[i], step),
                         StepEffect(config, t, Moved(x, i), t.deliveries[Moved(x, i)], step), i, Moved(x, i))
  {
    OffersSeenAlike(s, t, x, step, ids);
    SameEffect(config, s, t, i, Moved(x, i), s.deliveries[i], t.deliveries[Moved(x, i)], step);
  }

  lemma ArriveWithout(s: System, t: System, d: Delivery, x: nat)
    requires IsWithout(s, t, x)
    ensures IsWithout(s.(deliveries := s.deliveries + [d]),
                      if |s.deliveries| == x then t else t.(deliveries := t.deliveries + [d]), x)
  {
    var ds := t.deliveries + (if |s.deliveries| == x then [] else [d]);
    assert AreDeliveriesWithout(s.deliveries + [d], ds, x);
  }

  lemma DeliverWithout(config: Config, s: System, t: System, i: nat, step: Step, x: nat, ids: set<string>)
    requires Inv(config, s) && IsWithout(s, t, x) && i < |s.deliveries| && i != x
    requires IdsOf(s, x) <= ids && OffersNone(step, ids)
    ensures Moved(x, i) < |t.deliveries|
    ensures IsWithout(Applied(s, i, StepEffect(config, s, i, s.deliveries[i], step)),
                      Applied(t, Moved(x, i), StepEffect(config, t, Moved(x, i), t.deliveries[Moved(x, i)], step)), x)
  {
    OtherStepIsSame(config, s, t, i, step, x, ids);
    DrawsUnissued(config, s, i, step);
    SameApplied(s, t, x, i, StepEffect(config, s, i, s.deliveries[i], step),
                StepEffect(config, t, Moved(x, i), t.deliveries[Moved(x, i)], step));
  }

  lemma OwnStepWithout(config: Config, s: System, t: System, x: nat, step: Step)
    requires IsConfig(config) && Inv(config, s) && IsWithout(s, t, x) && x < |s.deliveries| && IsNeverLetIn(s, x)
    requires IsNeverLetIn(Applied(s, x, StepEffect(config, s, x, s.deliveries[x], step)), x)
    ensures IsWithout(Applied(s, x, StepEffect(config, s, x, s.deliveries[x], step)), t, x)
  {
    OwnStepIsUnseen(config, s, x, step);
    UnseenApplied(s, t, x, StepEffect(config, s, x, s.deliveries[x], step));
  }

  /** Both runs stay in step over one step of a delivery. */
  lemma NextStepWithout(config: Config, s: System, t: System, i: nat, step: Step, x: nat, ids: set<string>)
    requires IsConfig(config) && Inv(config, s) && IsWithout(s, t, x)
    requires IsNeverLetIn(s, x) && IsNeverLetIn(Next(config, s, Deliver(i, step)), x)
    requires IdsOf(s, x) <= ids && (i != x ==> OffersNone(step, ids))
    ensures IsWithout(Next(config, s, Deliver(i, step)),
                      if i == x then t else Next(config, t, Deliver(Moved(x, i), step)), x)
  {
    if i < |s.deliveries| {
      if i == x {
        OwnStepWithout(config, s, t, x, step);
      } else {
        DeliverWithout(config, s, t, i, step, x, ids);
      }
    }
  }

  /** Both runs stay in step over one action. */
  lemma NextWithout(config: Config, s: System, t: System, a: Action, x: nat, ids: set<string>)
    requires IsConfig(config) && Inv(config, s) && IsWithout(s, t, x)
    requires IsNeverLetIn(s, x) && IsNeverLetIn(Next(config, s, a), x)
    requires IdsOf(s, x) <= ids && (a.Deliver? && a.i != x ==> OffersNone(a.step, ids))
    ensures IsWithout(Next(config, s, a), if IsActionOf(s, a, x) then t else Next(config, t, MovedAction(a, x)), x)
  {
    match a
    case Tick(to) =>
    case Arrive(hook, request) =>
      ArriveWithout(s, t, Delivery(hook, request, if hook.Some? then Arrived else Verified, NOTHING_YET), x);
    case Deliver(i, step) =>
      NextStepWithout(config, s, t, i, step, x, ids);
  }

  // ----- a whole run

  lemma NextGrows(config: Config, s: System, a: Action)
    requires IsConfig(config) && Inv(config, s)
    ensures Grows(s, Next(config, s, a))
  {
    if a.Deliver? && a.i < |s.deliveries| {
      StepKeepsAll(config, s, a.i, a.step);
    }
  }

  lemma {:induction false} RunsStayInStep(config: Config, clock: Time, actions: seq<Action>, x: nat, ids: set<string>)
    requires IsConfig(config)
    requires IsNeverLetIn(After(config, clock, actions), x)
    requires IdsOf(After(config, clock, actions), x) <= ids && IsKeptFromOthers(actions, x, ids)
    ensures IsWithout(After(config, clock, actions), After(config, clock, Without(config, clock, actions, x)), x)
  {
    if actions != [] {
      var before, last := actions[..|actions| - 1], actions[|actions| - 1];
      var s := After(config, clock, before);
      InvAlways(config, clock, before);
      NextGrows(config, s, last);
      EarlierIsRefused(s, Next(config, s, last), x);
      assert last in actions && forall a :: a in before ==> a in actions;
      RunsStayInStep(config, clock, before, x, ids);
      var kept := Without(config, clock, before, x);
      NextWithout(config, s, After(config, clock, kept), last, x, ids);
      assert (kept + [MovedAction(last, x)])[..|kept|] == kept;
    }
  }

  lemma EarlierIsRefused(s: System, t: System, x: nat)
    requires Grows(s, t) && IsNeverLetIn(t, x)
    ensures IsNeverLetIn(s, x) && IdsOf(s, x) <= IdsOf(t, x)
  {
    forall p | 0 <= p < |s.calls| && s.calls[p].caller == x
      ensures !s.calls[p].first
    {
      assert t.calls[p] == s.calls[p];
    }
  }

  /**
    Deleting a delivery that the guard never let in (forged, stale, oversized, replayed, a duplicate, empty, or
    not that far yet), and all its steps, leaves every other delivery at its stage and the shared state as it was.
   */
  lemma RefusedDeliveryDoesNotMatter(config: Config, clock: Time, actions: seq<Action>, x: nat)
    requires IsConfig(config)
    requires IsNeverLetIn(After(config, clock, actions), x)
    requires IsKeptFromOthers(actions, x, IdsOf(After(config, clock, actions), x))
    ensures IsWithout(After(config, clock, actions), After(config, clock, Without(config, clock, actions, x)), x)
  {
    RunsStayInStep(config, clock, actions, x, IdsOf(After(config, clock, actions), x));
  }

  // ----- all rejected webhooks at once

  /** Verification raised or said no, or the source was already known not to be authentic. */
  predicate IsRejected(d: Delivery) {
    || d.stage.Aborted?
    || d.stage == VerifyAnswered(false)
    || ((d.stage.Verified? || d.stage.Running?) && d.request.webhookValidation.Some?
       && !d.request.webhookValidation.value.valid)
  }

  lemma RejectedIsNeverLetIn(config: Config, s: System, x: nat)
    requires Inv(config, s) && x < |s.deliveries| && IsRejected(s.deliveries[x])
    ensures IsNeverLetIn(s, x) && IdsOf(s, x) == {}
  {
    var d := s.deliveries[x];
    assert DeliveryOk(config, s, x, d);
    RejectedMadeNoMark(config, s, x, d);
    forall p | 0 <= p < |s.calls| && s.calls[p].caller == x
      ensures !s.calls[p].first
    {
      assert IsCallOf(s, p, s.calls[p].caller);
    }
    forall id | id in s.issued
      ensures s.issued[id].owner != x
    {
      assert IsDrawnBy(s, id, s.issued[id]);
    }
  }

  lemma RejectedMadeNoMark(config: Config, s: System, x: nat, d: Delivery)
    requires DeliveryOk(config, s, x, d) && IsRejected(d)
    ensures d.trace.dedupCall.None? && d.trace.messageId.None? && d.trace.startedId.None?
    ensures d.trace.replayCall.Some? ==>
              d.trace.replayCall.value < |s.calls| && !s.calls[d.trace.replayCall.value].first
  {
  }

  /** A rejected webhook drew no ids, so nothing is asked of the id source. */
  lemma RejectedWebhookDoesNotMatter(config: Config, clock: Time, actions: seq<Action>, x: nat)
    requires IsConfig(config) && x < |After(config, clock, actions).deliveries|
    requires IsRejected(After(config, clock, actions).deliveries[x])
    ensures IsWithout(After(config, clock, actions), After(config, clock, Without(config, clock, actions, x)), x)
  {
    InvAlways(config, clock, actions);
    RejectedIsNeverLetIn(config, After(config, clock, actions), x);
    RefusedDeliveryDoesNotMatter(config, clock, actions, x);
  }

  ghost function WithoutIfRejected(config: Config, clock: Time, actions: seq<Action>, x: nat): seq<Action> {
    var ds := After(config, clock, actions).deliveries;
    if x < |ds| && IsRejected(ds[x]) then Without(config, clock, actions, x) else actions
  }

  /** The run without the first `n` deliveries that are rejected in the end, the last one deleted first. */
  ghost function WithoutRejected(config: Config, clock: Time, actions: seq<Action>, n: nat): seq<Action> {
    Iterated((run, x) => WithoutIfRejected(config, clock, run, x), actions, n)
  }

  /** A delivery without the places that the logs give to its calls and its save. */
  function View(d: Delivery): Delivery {
    d.(trace := d.trace.(replayCall := None, dedupCall := None, save := None))
  }

  /** The deliveries that are not rejected, in order. */
  function Remaining(ds: seq<Delivery>): seq<Delivery> {
    if ds == [] then []
    else
      var before, last := Remaining(ds[..|ds| - 1]), ds[|ds| - 1];
      if IsRejected(last) then before else before + [View(last)]
  }

  lemma {:induction false} RemainingWithout(ds: seq<Delivery>, ds': seq<Delivery>, x: nat)
    requires AreDeliveriesWithout(ds, ds', x) && (x < |ds| ==> IsRejected(ds[x]))
    ensures Remaining(ds') == Remaining(ds)
    decreases |ds|
  {
    if ds != [] {
      var n := |ds| - 1;
      if x == n {
        SameRemaining(ds', ds[..n]);
      } else {
        assert IsSameBut(ds[n], ds'[|ds'| - 1]);
        assert AreDeliveriesWithout(ds[..n], ds'[..|ds'| - 1], x);
        RemainingWithout(ds[..n], ds'[..|ds'| - 1], x);
      }
    }
  }

  lemma {:induction false} SameRemaining(ds: seq<Delivery>, ds': seq<Delivery>)
    requires |ds| == |ds'| && forall j :: 0 <= j < |ds| ==> IsSameBut(ds'[j], ds[j])
    ensures Remaining(ds) == Remaining(ds')
  {
    if ds != [] {
      SameRemaining(ds[..|ds| - 1], ds'[..|ds| - 1]);
    }
  }

  /** The conversations that were saved, in order. */
  function Saved(saves: seq<Save>): seq<C.Conversation> {
    seq(|saves|, p requires 0 <= p < |saves| => saves[p].conversation)
  }

  lemma {:induction false} SavedWithout(saves: seq<Save>, x: nat)
    requires forall p :: 0 <= p < |saves| ==> saves[p].owner != x
    ensures Saved(SavesWithout(saves, x)) == Saved(saves)
  {
    if saves != [] {
      var n := |saves| - 1;
      SavedWithout(saves[..n], x);
      assert Saved(saves) == Saved(saves[..n]) + [saves[n].conversation];
      assert Saved(SavesWithout(saves, x)) == Saved(SavesWithout(saves[..n], x)) + [saves[n].conversation];
    }
  }

  lemma RejectedSavedNothing(config: Config, s: System, x: nat)
    requires Inv(config, s) && x < |s.deliveries| && IsRejected(s.deliveries[x])
    ensures forall p :: 0 <= p < |s.saves| ==> s.saves[p].owner != x
  {
    assert DeliveryOk(config, s, x, s.deliveries[x]);
    NoSaveNoEntry(s, x);
  }

  /** All that is left of a state when its rejected deliveries are disregarded. */
  ghost predicate IsSameRemainder(s: System, t: System) {
    && t.clock == s.clock && t.store == s.store && Saved(t.saves) == Saved(s.saves)
    && Remaining(t.deliveries) == Remaining(s.deliveries)
  }

  /** From place `n` on, no delivery is rejected. */
  ghost predicate NoneRejectedFrom(s: System, n: nat) {
    n <= |s.deliveries| && forall j :: n <= j < |s.deliveries| ==> !IsRejected(s.deliveries[j])
  }

  lemma WithoutOneRejected(config: Config, clock: Time, actions: seq<Action>, x: nat)
    requires IsConfig(config) && NoneRejectedFrom(After(config, clock, actions), x + 1)
    ensures var s, t := After(config, clock, actions),
            After(config, clock, WithoutIfRejected(config, clock, actions, x));
            IsSameRemainder(s, t) && NoneRejectedFrom(t, x)
  {
    var s := After(config, clock, actions);
    if IsRejected(s.deliveries[x]) {
      var t := After(config, clock, Without(config, clock, actions, x));
      RejectedWebhookDoesNotMatter(config, clock, actions, x);
      InvAlways(config, clock, actions);
      RejectedSavedNothing(config, s, x);
      SameRemainderWithout(s, t, x);
    }
  }

  lemma SameRemainderWithout(s: System, t: System, x: nat)
    requires IsWithout(s, t, x) && NoneRejectedFrom(s, x + 1) && IsRejected(s.deliveries[x])
    requires forall p :: 0 <= p < |s.saves| ==> s.saves[p].owner != x
    ensures IsSameRemainder(s, t) && NoneRejectedFrom(t, x)
  {
    SavedWithout(s.saves, x);
    RemainingWithout(s.deliveries, t.deliveries, x);
    NoneRejectedWithout(s, t, x);
  }

  lemma NoneRejectedWithout(s: System, t: System, x: nat)
    requires IsWithout(s, t, x) && NoneRejectedFrom(s, x + 1)
    ensures NoneRejectedFrom(t, x)
  {
    forall k | x <= k < |t.deliveries|
      ensures !IsRejected(t.deliveries[k])
    {
      assert IsSameBut(s.deliveries[k + 1], t.deliveries[k]);
    }
  }

  /**
    Deleting every rejected webhook from a run, with all its steps, leaves all other deliveries in order at their
    stages, and the clock, the guard's store and the saved conversations as they were.
   */
  lemma RejectedWebhooksDoNotMatter(config: Config, clock: Time, actions: seq<Action>, n: nat)
    requires IsConfig(config) && NoneRejectedFrom(After(config, clock, actions), n)
    ensures var s, t := After(config, clock, actions), After(config, clock, WithoutRejected(config, clock, actions, n));
            IsSameRemainder(s, t) && NoneRejectedFrom(t, 0)
  {
    var step := (run, x) => WithoutIfRejected(config, clock, run, x);
    var same := (run, run') => IsSameRemainder(After(config, clock, run), After(config, clock, run'));
    var holdsFrom := (run, x) => NoneRejectedFrom(After(config, clock, run), x);
    forall run, x, y | y == x + 1 && holdsFrom(run, y)
      ensures same(run, step(run, x)) && holdsFrom(step(run, x), x)
    {
      WithoutOneRejected(config, clock, run, x);
    }
    IteratedKeeps(step, same, holdsFrom, actions, n);
  }
}
