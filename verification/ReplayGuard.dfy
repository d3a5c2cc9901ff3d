/**
  The replay guard: one shared store of expiring keys, written by an atomic set-if-absent with a TTL.
  A call is refused, and changes nothing, while the key is live; a key is live until its expiry instant.
 */
module ReplayGuard {
  import opened Prelude

  /** Each key with the instant it expires. Expired entries stay in the map and are ignored. */
  type Store = map<string, Time>

  predicate Live(store: Store, key: string, at: Time) {
    key in store && at < store[key]
  }

  function Recorded(store: Store, key: string, ttl: Time, at: Time): Store {
    if Live(store, key, at) then store else store[key := at + ttl]
  }

  class RedisReplayGuard {
    var store: Store

    constructor ()
      ensures store == map[]
    {
      store := map[];
    }

    /** `at` is the instant at which the store performs the command. */
    method CheckAndRecord(key: string, ttl: Time, at: Time) returns (first: bool)
      requires ttl >= SECOND
      modifies this
      ensures first <==> !Live(old(store), key, at)
      ensures store == Recorded(old(store), key, ttl, at)
    {
      if key in store && at < store[key] {
        return false;
      }
      store := store[key := at + ttl];
      first := true;
    }
  }

  // ----- logs of calls and what they must say

  /** One call as the store saw it: who made it, what was asked, when it was performed and the verdict. */
  datatype GuardCall = GuardCall(caller: nat, key: string, ttl: Time, at: Time, first: bool)
  {
    function Expiry(): Time {
      at + ttl
    }
  }

  ghost function StoreAfter(calls: seq<GuardCall>): Store {
    if calls == [] then map[]
    else
      var c := calls[|calls| - 1];
      Recorded(StoreAfter(calls[..|calls| - 1]), c.key, c.ttl, c.at)
  }

  /** The verdicts are those of a store that was empty before the first call. */
  ghost predicate IsLog(calls: seq<GuardCall>) {
    calls == []
    || (var before, c := calls[..|calls| - 1], calls[|calls| - 1];
        IsLog(before) && c.ttl >= SECOND && (c.first <==> !Live(StoreAfter(before), c.key, c.at)))
  }

  lemma LogExtends(calls: seq<GuardCall>, c: GuardCall)
    requires IsLog(calls) && c.ttl >= SECOND
    requires c.first <==> !Live(StoreAfter(calls), c.key, c.at)
    ensures IsLog(calls + [c])
    ensures StoreAfter(calls + [c]) == Recorded(StoreAfter(calls), c.key, c.ttl, c.at)
  {
    assert (calls + [c])[..|calls|] == calls;
  }

  lemma {:induction false} LogPrefix(calls: seq<GuardCall>, n: nat)
    requires IsLog(calls) && n <= |calls|
    ensures IsLog(calls[..n])
  {
    if n < |calls| {
      LogPrefix(calls[..|calls| - 1], n);
      assert calls[..|calls| - 1][..n] == calls[..n];
    } else {
      assert calls[..n] == calls;
    }
  }

  /** The simple specification: some earlier successful call on the same key is within its own TTL. */
  ghost predicate WithinEarlierSuccess(calls: seq<GuardCall>, key: string, at: Time) {
    exists j :: 0 <= j < |calls| && calls[j].first && calls[j].key == key && at < calls[j].Expiry()
  }

  /** The expiring store remembers all it needs of the whole history. */
  lemma {:induction false} StoreIsHistory(calls: seq<GuardCall>, key: string, at: Time)
    requires IsLog(calls)
    ensures Live(StoreAfter(calls), key, at) <==> WithinEarlierSuccess(calls, key, at)
  {
    if calls != [] {
      var before, c := calls[..|calls| - 1], calls[|calls| - 1];
      StoreIsHistory(before, key, at);
      assert WithinEarlierSuccess(before, key, at) ==> WithinEarlierSuccess(calls, key, at) by {
        if j :| 0 <= j < |before| && before[j].first && before[j].key == key && at < before[j].Expiry() {
          assert calls[j] == before[j];
        }
      }
      if j :| 0 <= j < |calls| && calls[j].first && calls[j].key == key && at < calls[j].Expiry() {
        assert j < |before| ==> before[j] == calls[j];
      }
    }
  }

  /** A call succeeds exactly when no earlier successful call on its key is still within that call's own TTL. */
  lemma RefinesFullHistory(calls: seq<GuardCall>, i: nat)
    requires IsLog(calls) && i < |calls|
    ensures calls[i].first <==> !WithinEarlierSuccess(calls[..i], calls[i].key, calls[i].at)
  {
    LogPrefix(calls, i + 1);
    assert calls[..i + 1][..i] == calls[..i];
    StoreIsHistory(calls[..i], calls[i].key, calls[i].at);
  }

  /** Two successes on one key are at least the first one's TTL apart, whatever was refused in between. */
  lemma SuccessesAreSpaced(calls: seq<GuardCall>, i: nat, j: nat)
    requires IsLog(calls) && i < j < |calls|
    requires calls[i].first && calls[j].first && calls[i].key == calls[j].key
    ensures calls[i].Expiry() <= calls[j].at
  {
    RefinesFullHistory(calls, j);
    assert calls[..j][i] == calls[i];
  }

  ghost predicate Increasing(picks: seq<nat>) {
    forall a, b :: 0 <= a < b < |picks| ==> picks[a] < picks[b]
  }

  /** Call `i` succeeded on `key`, for at least `gap`, at an instant from `lo` to `hi`. */
  ghost predicate IsSuccess(calls: seq<GuardCall>, i: nat, key: string, gap: Time, lo: Time, hi: Time) {
    i < |calls| && calls[i].first && calls[i].key == key && gap <= calls[i].ttl && lo <= calls[i].at <= hi
  }

  ghost predicate AreSuccesses(calls: seq<GuardCall>, picks: seq<nat>, key: string, gap: Time, lo: Time, hi: Time) {
    Increasing(picks) && forall a :: 0 <= a < |picks| ==> IsSuccess(calls, picks[a], key, gap, lo, hi)
  }

  /** n successes on one key, each holding it for at least `gap`, need n - 1 times `gap` of time. */
  lemma {:induction false} SuccessesNeedTime(
      calls: seq<GuardCall>, picks: seq<nat>, key: string, gap: Time, lo: Time, hi: Time)
    requires IsLog(calls) && |picks| > 0 && AreSuccesses(calls, picks, key, gap, lo, hi)
    ensures Multiple(|picks| - 1, gap) <= calls[picks[|picks| - 1]].at - lo
  {
    var n := |picks|;
    assert IsSuccess(calls, picks[n - 1], key, gap, lo, hi);
    if n > 1 {
      SuccessesNeedTime(calls, picks[..n - 1], key, gap, lo, hi);
      assert IsSuccess(calls, picks[n - 2], key, gap, lo, hi);
      SuccessesAreSpaced(calls, picks[n - 2], picks[n - 1]);
    }
  }

  /** So at most as many as fit into the time between `lo` and `hi`. */
  lemma SuccessesAreFew(calls: seq<GuardCall>, picks: seq<nat>, key: string, gap: Time, lo: Time, hi: Time)
    requires IsLog(calls) && AreSuccesses(calls, picks, key, gap, lo, hi) && 0 < gap && lo <= hi
    ensures |picks| <= HowMany(hi - lo, gap)
  {
    if picks != [] {
      SuccessesNeedTime(calls, picks, key, gap, lo, hi);
      assert IsSuccess(calls, picks[|picks| - 1], key, gap, lo, hi);
    }
    HowManyIff(|picks|, hi - lo, gap);
  }

  // ----- the same without an order, and for two TTLs at once

  /** Each of these calls succeeded on `key` with this TTL, not before `lo`. */
  ghost predicate AreHeld(calls: seq<GuardCall>, picks: set<nat>, key: string, ttl: Time, lo: Time) {
    forall i :: i in picks ==>
      i < |calls| && calls[i].first && calls[i].key == key && calls[i].ttl == ttl && lo <= calls[i].at
  }

  lemma FilledWithout(s: set<nat>, x: nat, ttl: Time)
    ensures Multiple(|s|, ttl) == Multiple(|s - {x}|, ttl) + if x in s then ttl else 0
  {
    assert s == if x in s then (s - {x}) + {x} else s - {x};
  }

  /** Successes on one key fill the time until it expires with their TTLs. */
  lemma {:induction false} SuccessesFillTime(
      calls: seq<GuardCall>, a: set<nat>, b: set<nat>, key: string, ttlA: Time, ttlB: Time, lo: Time)
    requires IsLog(calls) && a !! b && AreHeld(calls, a, key, ttlA, lo) && AreHeld(calls, b, key, ttlB, lo)
    ensures Multiple(|a|, ttlA) + Multiple(|b|, ttlB) <= HeldSince(StoreAfter(calls), key, lo)
    decreases |calls|
  {
    if calls == [] {
      assert a == {} && b == {};
    } else {
      var n := |calls| - 1;
      FilledWithout(a, n, ttlA);
      FilledWithout(b, n, ttlB);
      SuccessesFillTime(calls[..n], a - {n}, b - {n}, key, ttlA, ttlB, lo);
      HeldLonger(StoreAfter(calls[..n]), calls[n], key, lo);
    }
  }

  /** How long after `lo` the key stays in the store. */
  ghost function HeldSince(store: Store, key: string, lo: Time): Time {
    if key in store && lo <= store[key] then store[key] - lo else 0
  }

  lemma HeldLonger(store: Store, c: GuardCall, key: string, lo: Time)
    requires c.ttl >= SECOND && (c.first <==> !Live(store, c.key, c.at))
    ensures var gain := if c.first && c.key == key && lo <= c.at then c.ttl else 0;
            HeldSince(store, key, lo) + gain <= HeldSince(Recorded(store, c.key, c.ttl, c.at), key, lo)
  {
  }

  /** Up to the last of them: until that one expires. */
  lemma SuccessesFillTimeTo(
      calls: seq<GuardCall>, a: set<nat>, b: set<nat>, key: string, ttlA: Time, ttlB: Time, lo: Time, last: nat)
    requires IsLog(calls) && a !! b && AreHeld(calls, a, key, ttlA, lo) && AreHeld(calls, b, key, ttlB, lo)
    requires last in a + b && forall i :: i in a + b ==> i <= last
    ensures Multiple(|a|, ttlA) + Multiple(|b|, ttlB) <= calls[last].Expiry() - lo
  {
    LogPrefix(calls, last + 1);
    HeldInPrefix(calls, a, key, ttlA, lo, last + 1);
    HeldInPrefix(calls, b, key, ttlB, lo, last + 1);
    SuccessesFillTime(calls[..last + 1], a, b, key, ttlA, ttlB, lo);
    StoredLast(calls, last);
  }

  lemma HeldInPrefix(calls: seq<GuardCall>, picks: set<nat>, key: string, ttl: Time, lo: Time, n: nat)
    requires AreHeld(calls, picks, key, ttl, lo) && n <= |calls| && forall i :: i in picks ==> i < n
    ensures AreHeld(calls[..n], picks, key, ttl, lo)
  {
  }

  lemma StoredLast(calls: seq<GuardCall>, i: nat)
    requires IsLog(calls) && i < |calls| && calls[i].first
    ensures calls[i].key in StoreAfter(calls[..i + 1])
    ensures StoreAfter(calls[..i + 1])[calls[i].key] == calls[i].Expiry()
  {
    LogPrefix(calls, i + 1);
    assert calls[..i + 1][..i] == calls[..i];
  }

  /** So at most as many as fit into the time between `lo` and `hi`. */
  lemma HeldAreFew(calls: seq<GuardCall>, picks: set<nat>, key: string, ttl: Time, lo: Time, hi: Time)
    requires IsLog(calls) && AreHeld(calls, picks, key, ttl, lo) && 0 < ttl && lo <= hi
    requires forall i :: i in picks ==> calls[i].at <= hi
    ensures |picks| <= HowMany(hi - lo, ttl)
  {
    if picks != {} {
      var last := GreatestOf(picks);
      SuccessesFillTimeTo(calls, {}, picks, key, 0, ttl, lo, last);
    }
    HowManyIff(|picks|, hi - lo, ttl);
  }

  // ----- noninterference

  /** The calls whose flag is set, in order. */
  ghost function Select(calls: seq<GuardCall>, keep: seq<bool>): seq<GuardCall>
    requires |keep| == |calls|
  {
    if calls == [] then []
    else
      var n := |calls| - 1;
      var before := Select(calls[..n], keep[..n]);
      if keep[n] then before + [calls[n]] else before
  }

  /** Dropping refused calls leaves a log: a refused call never changes a verdict, so it never extends an expiry. */
  lemma {:induction false} RefusedCallsDoNotMatter(calls: seq<GuardCall>, keep: seq<bool>)
    requires IsLog(calls) && |keep| == |calls|
    requires forall i :: 0 <= i < |calls| && calls[i].first ==> keep[i]
    ensures IsLog(Select(calls, keep))
    ensures StoreAfter(Select(calls, keep)) == StoreAfter(calls)
  {
    if calls != [] {
      var n := |calls| - 1;
      RefusedCallsDoNotMatter(calls[..n], keep[..n]);
      if keep[n] {
        LogExtends(Select(calls[..n], keep[..n]), calls[n]);
      }
    }
  }

  /** Dropping every call on other keys leaves a log: keys do not interfere. */
  lemma {:induction false} KeysDoNotInterfere(calls: seq<GuardCall>, keep: seq<bool>, key: string)
    requires IsLog(calls) && |keep| == |calls|
    requires forall i :: 0 <= i < |calls| ==> (keep[i] <==> calls[i].key == key)
    ensures IsLog(Select(calls, keep))
    ensures forall at: Time :: Live(StoreAfter(Select(calls, keep)), key, at) <==> Live(StoreAfter(calls), key, at)
  {
    if calls != [] {
      var n := |calls| - 1;
      KeysDoNotInterfere(calls[..n], keep[..n], key);
      if keep[n] {
        LogExtends(Select(calls[..n], keep[..n]), calls[n]);
      }
    }
  }

  /** Verdicts are determined by what was asked, so a log that keeps its calls keeps their verdicts. */
  lemma {:induction false} VerdictsAreDetermined(calls: seq<GuardCall>, others: seq<GuardCall>)
    requires IsLog(calls) && IsLog(others) && |calls| == |others|
    requires forall i :: 0 <= i < |calls| ==> calls[i].(first := true) == others[i].(first := true)
    ensures calls == others
  {
    if calls != [] {
      var n := |calls| - 1;
      assert forall i :: 0 <= i < n ==> calls[i].(first := true) == others[i].(first := true);
      VerdictsAreDetermined(calls[..n], others[..n]);
      assert calls == calls[..n] + [calls[n]] && others == others[..n] + [others[n]];
      assert calls[n].(first := true) == others[n].(first := true);
    }
  }
}
