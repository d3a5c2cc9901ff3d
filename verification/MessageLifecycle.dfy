/**
  The Message entity. Its transition table is built from a happy path; the shape of every run is proved
  for any path the builder accepts, and the exact length bound for the seven-state path of the code.
 */
module MessageLifecycle {
  import opened Prelude
  import opened StateMachine

  // ----- the table builder

  /** What the code's constants satisfy: at least two happy states, and all states distinct. */
  ghost predicate IsHappyPath<S>(path: seq<S>, failed: S, retrying: S, deadLetter: S) {
    && |path| >= 2
    && (forall i, j :: 0 <= i < j < |path| ==> path[i] != path[j])
    && failed !in path && retrying !in path && deadLetter !in path
    && failed != retrying && failed != deadLetter && retrying != deadLetter
  }

  /** The table that the builder must produce, entry by entry. */
  ghost predicate IsPathTable<S>(table: Table<S>, path: seq<S>, failed: S, retrying: S, deadLetter: S) {
    && |path| >= 2
    && table.Keys == (set s | s in path) + {failed, retrying, deadLetter}
    && (forall i, j :: 0 <= i && j == i + 1 < |path| ==> path[i] in table && table[path[i]] == {path[j], failed})
    && table[Last(path)] == {}
    && table[failed] == {retrying, deadLetter}
    && table[retrying] == {path[0], deadLetter}
    && table[deadLetter] == {}
  }

  method BuildTransitions<S(==)>(path: seq<S>, failed: S, retrying: S, deadLetter: S) returns (table: Table<S>)
    requires IsHappyPath(path, failed, retrying, deadLetter)
    ensures IsPathTable(table, path, failed, retrying, deadLetter)
  {
    table := map[];
    for i := 0 to |path| - 1
      invariant table.Keys == set s | s in path[..i]
      invariant forall k, m :: 0 <= k < i && m == k + 1 ==> path[k] in table && table[path[k]] == {path[m], failed}
    {
      assert path[..i + 1] == path[..i] + [path[i]];
      table := table[path[i] := {path[i + 1], failed}];
    }
    assert path == path[..|path| - 1] + [path[|path| - 1]];
    table := table[path[|path| - 1] := {}];
    table := table[failed := {retrying, deadLetter}];
    table := table[retrying := {path[0], deadLetter}];
    table := table[deadLetter := {}];
  }

  /** The builder has one possible result. */
  lemma PathTableIsUnique<S>(t: Table<S>, u: Table<S>, path: seq<S>, failed: S, retrying: S, deadLetter: S)
    requires IsPathTable(t, path, failed, retrying, deadLetter)
    requires IsPathTable(u, path, failed, retrying, deadLetter)
    ensures t == u
  {
    forall s | s in t
      ensures t[s] == u[s]
    {
      if s in path {
        var i :| 0 <= i < |path| && path[i] == s;
        if i < |path| - 1 {
          assert t[path[i]] == {path[i + 1], failed};
          assert u[path[i]] == {path[i + 1], failed};
        } else {
          assert s == Last(path);
        }
      }
    }
  }

  // ----- the shape of every run, for any happy path

  /** The attempts that failed and were retried, one after the other: attempt i failed after ns[i] happy states. */
  ghost function Retried<S>(path: seq<S>, failed: S, retrying: S, ns: seq<nat>): seq<S>
    requires forall i :: 0 <= i < |ns| ==> ns[i] <= |path|
  {
    if ns == [] then []
    else Retried(path, failed, retrying, ns[..|ns| - 1]) + path[..Last(ns)] + [failed, retrying]
  }

  ghost predicate IsTail<S>(path: seq<S>, failed: S, retrying: S, deadLetter: S, n: nat, tail: seq<S>) {
    || tail == []
    || (n < |path| && (tail == [failed] || tail == [failed, deadLetter]
                       || tail == [failed, retrying] || tail == [failed, retrying, deadLetter]))
  }

  /**
    Failed attempts that were retried, then the current one: `n` happy states in order, then how it ended, if
    it did.
   */
  ghost predicate IsAttempts<S>(
      path: seq<S>, failed: S, retrying: S, deadLetter: S, ns: seq<nat>, n: nat, tail: seq<S>, run: seq<S>)
  {
    && (forall i :: 0 <= i < |ns| ==> 1 <= ns[i] < |path|)
    && 1 <= n <= |path|
    && IsTail(path, failed, retrying, deadLetter, n, tail)
    && run == Retried(path, failed, retrying, ns) + path[..n] + tail
  }

  /** One more transition continues the current attempt, or starts the next after a retry. */
  lemma AttemptsStep<S>(
      table: Table<S>, path: seq<S>, failed: S, retrying: S, deadLetter: S,
      ns: seq<nat>, n: nat, tail: seq<S>, run: seq<S>, s: S)
    returns (ns': seq<nat>, n': nat, tail': seq<S>)
    requires IsPathTable(table, path, failed, retrying, deadLetter)
    requires IsAttempts(path, failed, retrying, deadLetter, ns, n, tail, run)
    requires Allows(table, if tail == [] then path[n - 1] else Last(tail), s)
    ensures IsAttempts(path, failed, retrying, deadLetter, ns', n', tail', run + [s])
  {
    if tail == [] {
      if s == failed {
        ns', n', tail' := ns, n, [failed];
      } else {
        assert path[..n + 1] == path[..n] + [s];
        ns', n', tail' := ns, n + 1, [];
      }
    } else if tail == [failed, retrying] && s == path[0] {
      ns', n', tail' := ns + [n], 1, [];
      assert ns'[..|ns|] == ns;
      assert run == Retried(path, failed, retrying, ns');
    } else {
      ns', n', tail' := ns, n, tail + [s];
    }
  }

  lemma {:induction false} RunIsAttempts<S>(
      table: Table<S>, path: seq<S>, failed: S, retrying: S, deadLetter: S, run: seq<S>)
    returns (ns: seq<nat>, n: nat, tail: seq<S>)
    requires IsHappyPath(path, failed, retrying, deadLetter)
    requires IsPathTable(table, path, failed, retrying, deadLetter)
    requires IsRun(table, run) && run[0] == path[0]
    ensures IsAttempts(path, failed, retrying, deadLetter, ns, n, tail, run)
  {
    if |run| == 1 {
      ns, n, tail := [], 1, [];
      assert run == path[..1];
    } else {
      var shorter := run[..|run| - 1];
      ns, n, tail := RunIsAttempts(table, path, failed, retrying, deadLetter, shorter);
      LastOfAttempts(path, failed, retrying, deadLetter, ns, n, tail, shorter);
      assert Allows(table, run[|run| - 2], run[|run| - 1]);
      assert run == shorter + [Last(run)];
      ns, n, tail := AttemptsStep(table, path, failed, retrying, deadLetter, ns, n, tail, shorter, Last(run));
    }
  }

  lemma OneAttemptIsRun<S>(
      table: Table<S>, path: seq<S>, failed: S, retrying: S, deadLetter: S, n: nat, tail: seq<S>)
    requires IsPathTable(table, path, failed, retrying, deadLetter)
    requires 1 <= n <= |path| && IsTail(path, failed, retrying, deadLetter, n, tail)
    ensures IsRun(table, path[..n] + tail)
  {
    var current := path[..n] + tail;
    forall i, j | 0 <= i && j == i + 1 < |current|
      ensures Allows(table, current[i], current[j])
    {
      if j <= n {
        assert table[path[i]] == {path[j], failed};
      }
    }
  }

  lemma {:induction false} AttemptsAreRun<S>(
      table: Table<S>, path: seq<S>, failed: S, retrying: S, deadLetter: S, ns: seq<nat>, n: nat, tail: seq<S>,
      run: seq<S>)
    requires IsPathTable(table, path, failed, retrying, deadLetter)
    requires IsAttempts(path, failed, retrying, deadLetter, ns, n, tail, run)
    ensures IsRun(table, run) && run[0] == path[0]
    decreases |ns|
  {
    var current := path[..n] + tail;
    OneAttemptIsRun(table, path, failed, retrying, deadLetter, n, tail);
    if ns == [] {
      assert run == current;
    } else {
      var earlier, m := ns[..|ns| - 1], Last(ns);
      var before := Retried(path, failed, retrying, ns);
      assert before == Retried(path, failed, retrying, earlier) + path[..m] + [failed, retrying];
      AttemptsAreRun(table, path, failed, retrying, deadLetter, earlier, m, [failed, retrying], before);
      Glue(table, before, current, failed, failed);
      assert run == before + current;
    }
  }

  /** Exactly the sequences of attempts are runs from the first state. */
  lemma RunsAreAttempts<S>(table: Table<S>, path: seq<S>, failed: S, retrying: S, deadLetter: S, run: seq<S>)
    requires IsHappyPath(path, failed, retrying, deadLetter)
    requires IsPathTable(table, path, failed, retrying, deadLetter)
    ensures (IsRun(table, run) && run[0] == path[0])
            <==> exists ns, n, tail :: IsAttempts(path, failed, retrying, deadLetter, ns, n, tail, run)
  {
    if IsRun(table, run) && run[0] == path[0] {
      var ns, n, tail := RunIsAttempts(table, path, failed, retrying, deadLetter, run);
    }
    if ns, n, tail :| IsAttempts(path, failed, retrying, deadLetter, ns, n, tail, run) {
      AttemptsAreRun(table, path, failed, retrying, deadLetter, ns, n, tail, run);
    }
  }

  lemma LastOfAttempts<S>(
      path: seq<S>, failed: S, retrying: S, deadLetter: S, ns: seq<nat>, n: nat, tail: seq<S>, run: seq<S>)
    requires IsAttempts(path, failed, retrying, deadLetter, ns, n, tail, run)
    ensures |run| > 0 && Last(run) == if tail == [] then path[n - 1] else tail[|tail| - 1]
  {
  }

  /** No shortcut: a run that ends in the last happy state ends with the whole happy path in order. */
  lemma SuccessWalksWholePath<S>(table: Table<S>, path: seq<S>, failed: S, retrying: S, deadLetter: S, run: seq<S>)
    requires IsHappyPath(path, failed, retrying, deadLetter)
    requires IsPathTable(table, path, failed, retrying, deadLetter)
    requires IsRun(table, run) && run[0] == path[0] && Last(run) == Last(path)
    ensures |path| <= |run| && run[|run| - |path|..] == path
  {
    var ns, n, tail := RunIsAttempts(table, path, failed, retrying, deadLetter, run);
    LastOfAttempts(path, failed, retrying, deadLetter, ns, n, tail, run);
    assert Last(path) in path;
  }

  // ----- the entity

  datatype MessageState =
    | Received | Validated | Identified | Contextualized | Understood | Processed | Responded
    | Failed | Retrying | DeadLetter

  const HAPPY_PATH: seq<MessageState> :=
    [Received, Validated, Identified, Contextualized, Understood, Processed, Responded]

  const ALLOWED: Table<MessageState> :=
    map[
      Received := {Validated, Failed},
      Validated := {Identified, Failed},
      Identified := {Contextualized, Failed},
      Contextualized := {Understood, Failed},
      Understood := {Processed, Failed},
      Processed := {Responded, Failed},
      Responded := {},
      Failed := {Retrying, DeadLetter},
      Retrying := {Received, DeadLetter},
      DeadLetter := {}
    ]

  lemma EveryStateIsListed(s: MessageState)
    ensures s in HAPPY_PATH <==> s !in {Failed, Retrying, DeadLetter}
  {
    match s
    case Received => assert HAPPY_PATH[0] == s;
    case Validated => assert HAPPY_PATH[1] == s;
    case Identified => assert HAPPY_PATH[2] == s;
    case Contextualized => assert HAPPY_PATH[3] == s;
    case Understood => assert HAPPY_PATH[4] == s;
    case Processed => assert HAPPY_PATH[5] == s;
    case Responded => assert HAPPY_PATH[6] == s;
    case _ =>
  }

  lemma HappyPathIsHappy()
    ensures IsHappyPath(HAPPY_PATH, Failed, Retrying, DeadLetter)
  {
    EveryStateIsListed(Failed);
    EveryStateIsListed(Retrying);
    EveryStateIsListed(DeadLetter);
  }

  /** The table in force is the one the builder makes of the happy path. */
  lemma AllowedIsBuilt()
    ensures IsPathTable(ALLOWED, HAPPY_PATH, Failed, Retrying, DeadLetter)
  {
    AllowedListsEveryState();
    AllowedLeadsOn();
  }

  lemma AllowedListsEveryState()
    ensures ALLOWED.Keys == (set h | h in HAPPY_PATH) + {Failed, Retrying, DeadLetter}
  {
    forall s: MessageState
      ensures s in ALLOWED.Keys <==> s in (set h | h in HAPPY_PATH) + {Failed, Retrying, DeadLetter}
    {
      EveryStateIsListed(s);
      assert s in ALLOWED.Keys;
    }
  }

  lemma AllowedLeadsOn()
    ensures forall i, j :: 0 <= i && j == i + 1 < |HAPPY_PATH| ==> ALLOWED[HAPPY_PATH[i]] == {HAPPY_PATH[j], Failed}
  {
    forall i, j | 0 <= i && j == i + 1 < |HAPPY_PATH|
      ensures ALLOWED[HAPPY_PATH[i]] == {HAPPY_PATH[j], Failed}
    {
    }
  }

  /** Every run of a message from RECEIVED is a sequence of attempts, and every sequence of attempts is a run. */
  lemma MessageRunsAreAttempts(run: seq<MessageState>)
    ensures (IsRun(ALLOWED, run) && run[0] == Received)
            <==> exists ns, n, tail :: IsAttempts(HAPPY_PATH, Failed, Retrying, DeadLetter, ns, n, tail, run)
  {
    HappyPathIsHappy();
    AllowedIsBuilt();
    RunsAreAttempts(ALLOWED, HAPPY_PATH, Failed, Retrying, DeadLetter, run);
  }

  /** A message that is responded to has just gone through all seven happy states, whatever came before. */
  lemma RespondedWalksWholePath(run: seq<MessageState>)
    requires IsRun(ALLOWED, run) && run[0] == Received && Last(run) == Responded
    ensures 7 <= |run|
    ensures run[|run| - 7..] == [Received, Validated, Identified, Contextualized, Understood, Processed, Responded]
  {
    HappyPathIsHappy();
    AllowedIsBuilt();
    SuccessWalksWholePath(ALLOWED, HAPPY_PATH, Failed, Retrying, DeadLetter, run);
  }

  datatype Message = Message(
    messageId: string,
    conversationId: string,
    sender: string,
    channel: string,
    timestamp: Time,
    correlationId: string,
    status: MessageState)
  {
    function TransitionTo(target: MessageState): (r: Result<Message, IllegalTransition<MessageState>>)
      ensures r.Ok? <==> Allows(ALLOWED, status, target)
      ensures r.Ok? ==> r.value == this.(status := target)
      ensures r.Err? ==> r.error == IllegalTransition("Message", status, target)
    {
      match EnsureTransitionAllowed(status, target, ALLOWED, "Message")
      case Err(e) => Err(e)
      case Ok(_) => Ok(Message(messageId, conversationId, sender, channel, timestamp, correlationId, target))
    }
  }

  // ----- how long a run of the entity can be

  ghost function Potential(s: MessageState): nat {
    match s
    case Received => 8
    case Validated => 7
    case Identified => 6
    case Contextualized => 5
    case Understood => 4
    case Processed => 3
    case Failed => 2
    case Retrying => 1
    case _ => 0
  }

  ghost function Retries(run: seq<MessageState>): nat {
    CountEdge(run, Retrying, Received)
  }

  lemma RunLengthBound(run: seq<MessageState>)
    requires IsRun(ALLOWED, run) && run[0] == Received
    ensures |run| - 1 <= 8 + 8 * Retries(run)
  {
    TransitionsIsLength(run);
    AmortisedBound(ALLOWED, run, s => Potential(s), (a, b) => 1, Retrying, Received, 8);
  }

  lemma RunLengthAttained(k: nat) returns (run: seq<MessageState>)
    ensures IsRun(ALLOWED, run) && run[0] == Received
    ensures Retries(run) == k
    ensures |run| - 1 == 8 + 8 * k
  {
    var cycle := [Received, Validated, Identified, Contextualized, Understood, Processed, Failed, Retrying];
    assert IsRun(ALLOWED, cycle);
    NoEdgeNoCount(cycle, Retrying, Received);
    MultipleIsProduct(k, |cycle|);
    Pump(ALLOWED, cycle, cycle, Retrying, Received, k);
    Glue(ALLOWED, cycle + Repeat(cycle, k), [DeadLetter], Retrying, Received);
    run := cycle + Repeat(cycle, k) + [DeadLetter];
  }
}
