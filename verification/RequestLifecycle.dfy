/** The Request entity: its transition table, and what every run of that table looks like. */
module RequestLifecycle {
  import opened Prelude
  import opened StateMachine

  datatype RequestState =
    | New | Understanding | Planning | WaitingConfirmation | WaitingApproval | Authorized
    | Executing | Verifying | Completed | Denied | Cancelled | Expired | Failed
    | PartiallyCompleted | RequiresHuman

  const TERMINAL: set<RequestState> := {Completed, Denied, Cancelled, Expired, Failed, PartiallyCompleted}

  function Successors(s: RequestState): set<RequestState> {
    match s
    case New => {Understanding, Cancelled}
    case Understanding => {Planning, RequiresHuman, Cancelled, Expired}
    case Planning => {WaitingConfirmation, WaitingApproval, Authorized, Denied, Cancelled, Expired, RequiresHuman}
    case WaitingConfirmation => {Authorized, Denied, Cancelled, Expired}
    case WaitingApproval => {Authorized, Denied, Cancelled, Expired, RequiresHuman}
    case Authorized => {Executing, Cancelled, Expired}
    case Executing => {Verifying, Failed, PartiallyCompleted}
    case Verifying => {Completed, Failed, PartiallyCompleted, RequiresHuman}
    case RequiresHuman => {Authorized, Denied, Cancelled}
    case Completed | Denied | Cancelled | Expired | Failed | PartiallyCompleted => {}
  }

  const ALLOWED: Table<RequestState> := map s: RequestState | true :: Successors(s)

  datatype Request = Request(
    requestId: string,
    conversationId: string,
    tenantId: string,
    organizationId: Option<string>,
    state: RequestState,
    createdAt: Time,
    updatedAt: Time)
  {
    predicate IsTerminal() {
      state in TERMINAL
    }

    function TransitionTo(target: RequestState, now: Time): (r: Result<Request, IllegalTransition<RequestState>>)
      ensures r.Ok? <==> Allows(ALLOWED, state, target)
      ensures r.Ok? ==> r.value == this.(state := target, updatedAt := now)
      ensures r.Err? ==> r.error == IllegalTransition("Request", state, target)
    {
      match EnsureTransitionAllowed(state, target, ALLOWED, "Request")
      case Err(e) => Err(e)
      case Ok(_) =>
        Ok(Request(requestId, conversationId, tenantId, organizationId, target, createdAt, now))
    }
  }

  /** A request accepts no further transition exactly when it is terminal. */
  lemma TerminalIffStuck(r: Request)
    ensures r.IsTerminal() <==> forall target, now :: r.TransitionTo(target, now).Err?
  {
    if !r.IsTerminal() {
      var target := if r.state.New? then Understanding
                    else if r.state.Understanding? then Planning
                    else if r.state.Authorized? then Executing
                    else if r.state.Executing? then Verifying
                    else if r.state.Verifying? then Completed
                    else Authorized;
      assert r.TransitionTo(target, 0).Ok?;
    }
  }

  /** The versions of one request, oldest first, each made from the one before by `TransitionTo`. */
  ghost predicate IsHistory(versions: seq<Request>) {
    |versions| > 0 && versions[0].state == New
    && forall i, j :: 0 <= i && j == i + 1 < |versions| ==>
         versions[i].TransitionTo(versions[j].state, versions[j].updatedAt) == Ok(versions[j])
  }

  ghost function States(versions: seq<Request>): seq<RequestState> {
    seq(|versions|, i requires 0 <= i < |versions| => versions[i].state)
  }

  /** A history visits a run of states, and all its versions are of the same request. */
  lemma {:induction false} HistoryIsRun(versions: seq<Request>)
    requires IsHistory(versions)
    ensures IsRun(ALLOWED, States(versions)) && States(versions)[0] == New
    ensures forall i :: 0 <= i < |versions| ==>
              versions[i].(state := New, updatedAt := 0) == versions[0].(state := New, updatedAt := 0)
  {
    if |versions| > 1 {
      var shorter := versions[..|versions| - 1];
      HistoryIsRun(shorter);
      assert States(versions)[..|shorter|] == States(shorter);
      var previous, last := versions[|versions| - 2], versions[|versions| - 1];
      assert previous == shorter[|shorter| - 1] && last == previous.(state := last.state, updatedAt := last.updatedAt);
      forall i, j | 0 <= i && j == i + 1 < |versions|
        ensures Allows(ALLOWED, States(versions)[i], States(versions)[j])
      {
        if j < |shorter| {
          assert Allows(ALLOWED, States(shorter)[i], States(shorter)[j]);
        }
      }
    }
  }

  // ----- how long a run can be

  /** The longest way from a state to the end when no further escalation happens. */
  ghost function Potential(s: RequestState): nat {
    match s
    case New => 8
    case Understanding => 7
    case Planning => 6
    case WaitingApproval => 5
    case WaitingConfirmation => 4
    case RequiresHuman => 4
    case Authorized => 3
    case Executing => 2
    case Verifying => 1
    case _ => 0
  }

  /** An escalation is a verification that is handed to a human. */
  ghost function Escalations(run: seq<RequestState>): nat {
    CountEdge(run, Verifying, RequiresHuman)
  }

  lemma RunLengthBound(run: seq<RequestState>)
    requires IsRun(ALLOWED, run) && run[0] == New
    ensures |run| - 1 <= 8 + 4 * Escalations(run)
  {
    TransitionsIsLength(run);
    AmortisedBound(ALLOWED, run, s => Potential(s), (a, b) => 1, Verifying, RequiresHuman, 4);
  }

  /** For every number of escalations some run takes all the transitions the bound allows. */
  lemma RunLengthAttained(k: nat) returns (run: seq<RequestState>)
    ensures IsRun(ALLOWED, run) && run[0] == New
    ensures Escalations(run) == k
    ensures |run| - 1 == 8 + 4 * k
  {
    var lead := [New, Understanding, Planning, WaitingApproval, RequiresHuman, Authorized, Executing, Verifying];
    var cycle := [RequiresHuman, Authorized, Executing, Verifying];
    PumpingGround(lead, cycle);
    MultipleIsProduct(k, |cycle|);
    Pump(ALLOWED, lead, cycle, Verifying, RequiresHuman, k);
    Glue(ALLOWED, lead + Repeat(cycle, k), [Completed], Verifying, RequiresHuman);
    run := lead + Repeat(cycle, k) + [Completed];
  }

  lemma PumpingGround(lead: seq<RequestState>, cycle: seq<RequestState>)
    requires lead == [New, Understanding, Planning, WaitingApproval, RequiresHuman, Authorized, Executing, Verifying]
    requires cycle == [RequiresHuman, Authorized, Executing, Verifying]
    ensures IsRun(ALLOWED, lead) && CountEdge(lead, Verifying, RequiresHuman) == 0
    ensures IsRun(ALLOWED, cycle) && CountEdge(cycle, Verifying, RequiresHuman) == 0
  {
    NoEdgeNoCount(lead, Verifying, RequiresHuman);
    NoEdgeNoCount(cycle, Verifying, RequiresHuman);
  }

  // ----- what a run did before it got where it is

  lemma ExecutingIsAuthorized(run: seq<RequestState>, j: nat)
    requires IsRun(ALLOWED, run) && run[0] == New && j < |run| && run[j] == Executing
    ensures j > 0 && run[j - 1] == Authorized
  {
    assert j > 0;
    assert Allows(ALLOWED, run[j - 1], run[j]);
  }

  /** Leaving execution for anything but failure goes through verification and a human, in this order. */
  lemma AfterExecuting(run: seq<RequestState>, i: nat, j: nat)
    requires IsRun(ALLOWED, run) && i < j < |run| && run[i] == Executing
    requires run[j] in {Executing, Authorized, Cancelled, Denied, Expired}
    ensures i + 2 < j && run[i + 1] == Verifying && run[i + 2] == RequiresHuman
    ensures run[j] == Executing ==> i + 4 <= j && run[i + 3] == Authorized && run[i + 4] == Executing
  {
    assert Allows(ALLOWED, run[i], run[i + 1]);
    assert i + 1 < j ==> Allows(ALLOWED, run[i + 1], run[i + 2]);
    assert i + 2 < j ==> Allows(ALLOWED, run[i + 2], run[i + 3]);
    assert i + 3 < j ==> Allows(ALLOWED, run[i + 3], run[i + 4]);
    assert i + 4 < j ==> Allows(ALLOWED, run[i + 4], run[i + 5]);
  }

  /** One more execution may still come without a further escalation from the states before execution. */
  ghost function Allowance(s: RequestState): nat {
    if s in TERMINAL || s.Executing? || s.Verifying? then 0 else 1
  }

  ghost function Executions(run: seq<RequestState>): nat {
    TotalCost(run, (a: RequestState, b: RequestState) => if b.Executing? then 1 else 0)
  }

  lemma ExecutionsBounded(run: seq<RequestState>)
    requires IsRun(ALLOWED, run) && run[0] == New
    ensures Executions(run) <= 1 + Escalations(run)
  {
    AmortisedBound(ALLOWED, run, s => Allowance(s), (a: RequestState, b: RequestState) => if b.Executing? then 1 else 0,
                   Verifying, RequiresHuman, 1);
  }

  // ----- the confirmation and approval gates

  predicate IsGate(s: RequestState) {
    s in {WaitingConfirmation, WaitingApproval}
  }

  /**
    The ways from NEW to AUTHORIZED that pass no gate. The module's documentation asks for a gate only "when the
    Policy Engine required" it, which is no input of the table, so the table cannot tell when one of these is due.
   */
  const WAYS_PAST_THE_GATES: set<seq<RequestState>> := {
    [New, Understanding, Planning, Authorized],
    [New, Understanding, Planning, RequiresHuman, Authorized],
    [New, Understanding, RequiresHuman, Authorized]}

  /** The table allows all of them, and then execution. */
  lemma GateIsSkippable(way: seq<RequestState>)
    requires way in WAYS_PAST_THE_GATES
    ensures IsRun(ALLOWED, way + [Executing]) && way[0] == New
    ensures forall s :: s in way ==> !IsGate(s)
  {
    if way == [New, Understanding, Planning, Authorized] {
      assert way + [Executing] == [New, Understanding, Planning, Authorized, Executing];
    } else if way == [New, Understanding, RequiresHuman, Authorized] {
      assert way + [Executing] == [New, Understanding, RequiresHuman, Authorized, Executing];
    } else {
      assert way + [Executing] == [New, Understanding, Planning, RequiresHuman, Authorized, Executing];
    }
  }

  /** The states that lead to a state. */
  function WaysInto(b: RequestState): set<RequestState> {
    match b
    case New => {}
    case Understanding => {New}
    case Planning => {Understanding}
    case WaitingConfirmation | WaitingApproval => {Planning}
    case Authorized => {Planning, WaitingConfirmation, WaitingApproval, RequiresHuman}
    case Executing => {Authorized}
    case Verifying => {Executing}
    case Completed => {Verifying}
    case Failed | PartiallyCompleted => {Executing, Verifying}
    case RequiresHuman => {Understanding, Planning, WaitingApproval, Verifying}
    case Denied => {Planning, WaitingConfirmation, WaitingApproval, RequiresHuman}
    case Cancelled =>
      {New, Understanding, Planning, WaitingConfirmation, WaitingApproval, Authorized, RequiresHuman}
    case Expired => {Understanding, Planning, WaitingConfirmation, WaitingApproval, Authorized}
  }

  /** Exactly these: the table seen from where its transitions lead. */
  lemma WaysIn(a: RequestState, b: RequestState)
    ensures Allows(ALLOWED, a, b) <==> a in WaysInto(b)
  {
  }

  /** Through either gate a request is confirmed or approved, executed, verified and completed. */
  lemma GatesLeadOn(gate: RequestState)
    requires IsGate(gate)
    ensures IsRun(ALLOWED, [New, Understanding, Planning, gate, Authorized, Executing, Verifying, Completed])
    ensures IsRun(ALLOWED, [New, Understanding, Planning, gate, Denied])
  {
  }

  /** A gate can only be a run's fourth state. */
  lemma GateIsFourth(run: seq<RequestState>, g: nat)
    requires IsRun(ALLOWED, run) && run[0] == New && g < |run| && IsGate(run[g])
    ensures g == 3
  {
    WaysIn(run[g - 1], run[g]);
    WaysIn(run[g - 2], run[g - 1]);
    WaysIn(run[g - 3], run[g - 2]);
    if g > 3 {
      WaysIn(run[g - 4], run[g - 3]);
    }
  }

  /** A run that executes has gone through a gate exactly when planning was left for one, its third transition. */
  lemma GatePassedIff(run: seq<RequestState>, j: nat)
    requires IsRun(ALLOWED, run) && run[0] == New && j < |run| && run[j] == Executing
    ensures 3 < j
    ensures (exists g :: 0 <= g < j && IsGate(run[g])) <==> IsGate(run[3])
  {
    WaysIn(run[j - 1], run[j]);
    WaysIn(run[j - 2], run[j - 1]);
    if j == 3 {
      WaysIn(run[0], run[1]);
    }
    if g :| 0 <= g < j && IsGate(run[g]) {
      GateIsFourth(run, g);
    }
  }

  /** There is no other way: a run that executes without a gate behind it began with one of these. */
  lemma UngatedIff(run: seq<RequestState>, j: nat)
    requires IsRun(ALLOWED, run) && run[0] == New && j < |run| && run[j] == Executing
    ensures (forall g :: 0 <= g < j ==> !IsGate(run[g]))
            <==> exists way :: way in WAYS_PAST_THE_GATES && way <= run[..j]
  {
    GatePassedIff(run, j);
    assert Allows(ALLOWED, run[0], run[1]) && Allows(ALLOWED, run[1], run[2]);
    assert Allows(ALLOWED, run[2], run[3]) && Allows(ALLOWED, run[3], run[4]);
    if !IsGate(run[3]) {
      if run[3] == RequiresHuman {
        assert Allows(ALLOWED, run[4], run[5]);
        assert run[..5] == [New, Understanding, Planning, RequiresHuman, Authorized];
        assert run[..5] <= run[..j];
      } else {
        assert run[..4] == [New, Understanding, run[2], Authorized];
        assert run[..4] <= run[..j];
      }
    }
    if way :| way in WAYS_PAST_THE_GATES && way <= run[..j] {
      assert way[3] == run[..j][3] == run[3];
    }
  }
}
