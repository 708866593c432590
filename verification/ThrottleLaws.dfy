/** How many failures the throttle lets through, and why pruning does not show. */
module ThrottleLaws {
  import opened PyText
  import opened Throttle

  // ----- a bound over whole runs -----

  /** One request at a time: each is checked after the one before it was finished. */
  predicate IsInOrder(now: real, attempts: seq<Attempt>)
    decreases |attempts|
  {
    attempts == [] ||
    (now <= attempts[0].checkedAt <= attempts[0].failedAt && IsInOrder(attempts[0].failedAt, attempts[1..]))
  }

  /** When the failed logins that were admitted for a key were recorded. */
  function AdmittedFailures(c: Limits, m: Failures, attempts: seq<Attempt>, key: string): seq<real>
    decreases |attempts|
  {
    if attempts == [] then []
    else
      var a := attempts[0];
      (if a.Key() == key && Respond(c, m, a) == BadCredentials then [a.failedAt] else [])
        + AdmittedFailures(c, After(c, m, a), attempts[1..], key)
  }

  predicate NobodySignsIn(c: Limits, m: Failures, attempts: seq<Attempt>, key: string)
    decreases |attempts|
  {
    attempts == [] ||
    (!(attempts[0].Key() == key && Respond(c, m, attempts[0]) == Welcome)
     && NobodySignsIn(c, After(c, m, attempts[0]), attempts[1..], key))
  }

  function Allowance(c: Limits): nat {
    if c.maxAttempts < 1 then 1 else c.maxAttempts
  }

  function Span(c: Limits): real {
    c.lockoutSeconds as real - 1.0
  }

  predicate IsSorted(ts: seq<real>) {
    forall i, j :: 0 <= i <= j < |ts| ==> ts[i] <= ts[j]
  }

  /** Any `Allowance + 1` failures in a row take longer than the span. */
  predicate IsSpaced(c: Limits, ts: seq<real>) {
    forall j :: Allowance(c) <= j < |ts| ==> ts[j] - ts[j - Allowance(c)] > Span(c)
  }

  /** The entry counts at least the failures of the last span, and is missing only once the span has passed. */
  predicate Remembers(c: Limits, m: Failures, key: string, ts: seq<real>, now: real) {
    && IsSorted(ts) && (ts != [] ==> ts[|ts| - 1] <= now)
    && (ts != [] && now - ts[|ts| - 1] <= Span(c) ==>
          && key in m && m[key].last == ts[|ts| - 1]
          && forall i :: 0 <= i < |ts| && ts[|ts| - 1] - ts[i] <= Span(c) ==> m[key].count >= |ts| - i)
  }

  lemma RemainingPositive(c: Limits, e: Entry, now: real)
    ensures Remaining(c, e, now) > 0 <==> now - e.last <= Span(c)
  {
  }

  /** The lock holds for exactly the span after a key's last counted failure, and not a moment longer. */
  lemma LockedExactly(c: Limits, m: Failures, key: string, now: real)
    ensures LockedFor(c, m, key, now) > 0 <==>
      key in m && m[key].count >= c.maxAttempts && now - m[key].last <= Span(c)
  {
    hide Remaining;
    if key in m { RemainingPositive(c, m[key], now); }
  }

  /** A request for another key leaves an entry that is not stale. */
  lemma OthersKeep(c: Limits, m: Failures, a: Attempt, key: string)
    requires a.Key() != key && key in m && !IsStale(c, m[key], a.failedAt)
    ensures key in After(c, m, a) && After(c, m, a)[key] == m[key]
  {
    hide Strip, LoginThrottle.Key, Remaining;
  }

  /** What a request does to its own entry while the span since the last failure is running. */
  lemma OwnEntry(c: Limits, m: Failures, a: Attempt, key: string)
    requires a.Key() == key && key in m && a.failedAt - m[key].last <= Span(c) && a.checkedAt <= a.failedAt
    requires Respond(c, m, a) != Welcome
    ensures var m' := After(c, m, a);
      key in m' && m'[key] ==
        if Respond(c, m, a) == BadCredentials then Entry(m[key].count + 1, a.failedAt) else m[key]
    ensures Respond(c, m, a) == BadCredentials ==> m[key].count < c.maxAttempts
  {
    hide Strip, LoginThrottle.Key, Remaining;
    RemainingPositive(c, m[key], a.checkedAt);
  }

  lemma FirstEntry(c: Limits, m: Failures, a: Attempt)
    requires Respond(c, m, a) == BadCredentials
    ensures var m' := After(c, m, a); a.Key() in m' && m'[a.Key()].last == a.failedAt && m'[a.Key()].count >= 1
  {
    hide Strip, LoginThrottle.Key;
  }

  /** One request keeps the failures spaced and the entry remembering them. */
  lemma StepRemembers(c: Limits, m: Failures, a: Attempt, key: string, ts: seq<real>, now: real)
    requires Remembers(c, m, key, ts, now) && IsSpaced(c, ts) && now <= a.checkedAt <= a.failedAt
    requires a.Key() == key ==> Respond(c, m, a) != Welcome
    ensures var ts' := ts + if a.Key() == key && Respond(c, m, a) == BadCredentials then [a.failedAt] else [];
      Remembers(c, After(c, m, a), key, ts', a.failedAt) && IsSpaced(c, ts')
  {
    hide Strip, LoginThrottle.Key, After, Respond;
    var isRecent := ts != [] && a.failedAt - ts[|ts| - 1] <= Span(c);
    if a.Key() != key {
      if isRecent { OthersKeep(c, m, a, key); }
    } else {
      if isRecent { OwnEntry(c, m, a, key); }
      if Respond(c, m, a) == BadCredentials {
        FirstEntry(c, m, a);
        var ts' := ts + [a.failedAt];
        var i := |ts| - Allowance(c);
        if 0 <= i { assert ts[i] <= ts[|ts| - 1]; }
      }
    }
  }

  lemma {:induction false} RunIsSpaced(c: Limits, m: Failures, attempts: seq<Attempt>, key: string, ts: seq<real>,
                                       now: real)
    requires Remembers(c, m, key, ts, now) && IsSpaced(c, ts) && IsInOrder(now, attempts)
    requires NobodySignsIn(c, m, attempts, key)
    ensures var all := ts + AdmittedFailures(c, m, attempts, key); IsSpaced(c, all) && IsSorted(all)
    decreases |attempts|
  {
    hide Remembers, IsSpaced, IsSorted, After, Respond, LoginThrottle.Key, Strip;
    if attempts == [] {
      assert ts + [] == ts;
      RememberedIsSorted(c, m, key, ts, now);
    } else {
      var a := attempts[0];
      var more := if a.Key() == key && Respond(c, m, a) == BadCredentials then [a.failedAt] else [];
      StepRemembers(c, m, a, key, ts, now);
      RunIsSpaced(c, After(c, m, a), attempts[1..], key, ts + more, a.failedAt);
      var rest := AdmittedFailures(c, After(c, m, a), attempts[1..], key);
      assert ts + (more + rest) == ts + more + rest;
    }
  }

  lemma RememberedIsSorted(c: Limits, m: Failures, key: string, ts: seq<real>, now: real)
    requires Remembers(c, m, key, ts, now)
    ensures IsSorted(ts)
  {
  }

  /** The admitted failures of one key that fall into a stretch of time. */
  function Within(ts: seq<real>, from: real, to: real): set<nat> {
    set i: nat | i < |ts| && from <= ts[i] <= to
  }

  /**
   Whatever other keys do, and whatever the table held at the start, a stretch of `lockout_seconds - 1`
   admits at most `max_attempts` failed logins for a key nobody signs in with (and one, if that setting
   is less than one).
   */
  lemma AtMostTheAllowance(c: Limits, m: Failures, attempts: seq<Attempt>, key: string, now: real, from: real)
    requires IsInOrder(now, attempts) && NobodySignsIn(c, m, attempts, key)
    ensures |Within(AdmittedFailures(c, m, attempts, key), from, from + Span(c))| <= Allowance(c)
  {
    hide AdmittedFailures, NobodySignsIn, IsInOrder, Within;
    var ts := AdmittedFailures(c, m, attempts, key);
    RunIsSpaced(c, m, attempts, key, [], now);
    assert [] + ts == ts;
    SpacedIsFew(c, ts, from);
  }

  lemma FarApart(c: Limits, ts: seq<real>, i: nat, j: nat)
    requires IsSorted(ts) && IsSpaced(c, ts) && i + Allowance(c) <= j < |ts|
    ensures ts[j] - ts[i] > Span(c)
  {
    assert ts[i] <= ts[j - Allowance(c)];
  }

  lemma SpacedIsFew(c: Limits, ts: seq<real>, from: real)
    requires IsSorted(ts) && IsSpaced(c, ts)
    ensures |Within(ts, from, from + Span(c))| <= Allowance(c)
  {
    var w := Within(ts, from, from + Span(c));
    if w != {} {
      var lo := FirstWithin(ts, from, from + Span(c));
      forall i | i in w ensures i < lo + Allowance(c) {
        if lo + Allowance(c) <= i { FarApart(c, ts, lo, i); }
      }
      BlockSize(lo, Allowance(c));
      SubsetSize(w, Block(lo, Allowance(c)));
    }
  }

  lemma FirstWithin(ts: seq<real>, from: real, to: real) returns (lo: nat)
    requires Within(ts, from, to) != {}
    ensures lo in Within(ts, from, to) && forall i :: i in Within(ts, from, to) ==> lo <= i
  {
    var w := Within(ts, from, to);
    var some :| some in w;
    lo := 0;
    while lo !in w
      invariant lo <= some && forall i :: i in w ==> lo <= i
      decreases some - lo
    {
      lo := lo + 1;
    }
  }

  function Block(lo: nat, n: nat): (b: set<nat>)
    ensures forall i :: i in b <==> lo <= i < lo + n
  {
    if n == 0 then {} else Block(lo, n - 1) + {lo + n - 1}
  }

  lemma {:induction false} BlockSize(lo: nat, n: nat)
    ensures |Block(lo, n)| == n
  {
    if n > 0 { BlockSize(lo, n - 1); }
  }

  lemma {:induction false} SubsetSize(a: set<nat>, b: set<nat>)
    requires a <= b
    ensures |a| <= |b|
    decreases |a|
  {
    if a != {} {
      var x :| x in a;
      SubsetSize(a - {x}, b - {x});
    }
  }

  // ----- pruning does not show -----

  /** A call to the throttle, with the time it reads. */
  datatype Call = Ask(key: string, now: real) | Fail(key: string, now: real) | Forget(key: string, now: real)

  function AfterCall(c: Limits, m: Failures, call: Call, pruneAt: Option<nat>): Failures {
    match call
    case Ask(key, now) => AfterCheck(c, m, key, now)
    case Fail(key, now) => AfterFailure(c, m, key, now, pruneAt)
    case Forget(key, _) => m - {key}
  }

  function Answers(c: Limits, m: Failures, calls: seq<Call>, pruneAt: Option<nat>): seq<nat>
    decreases |calls|
  {
    if calls == [] then []
    else
      (if calls[0].Ask? then [LockedFor(c, m, calls[0].key, calls[0].now)] else [])
        + Answers(c, AfterCall(c, m, calls[0], pruneAt), calls[1..], pruneAt)
  }

  predicate IsForward(now: real, calls: seq<Call>)
    decreases |calls|
  {
    calls == [] || (now <= calls[0].now && IsForward(calls[0].now, calls[1..]))
  }

  /** One table is the other without some stale entries. */
  predicate IsPrunedFrom(c: Limits, few: Failures, all: Failures, now: real) {
    && (forall k :: k in few ==> k in all && few[k] == all[k])
    && (forall k :: k in all && k !in few ==> IsStale(c, all[k], now))
  }

  lemma StaleIsUnlocked(c: Limits, e: Entry, now: real)
    requires IsStale(c, e, now)
    ensures Remaining(c, e, now) <= 0
  {
  }

  lemma TimePasses(c: Limits, few: Failures, all: Failures, now: real, later: real)
    requires IsPrunedFrom(c, few, all, now) && now <= later
    ensures IsPrunedFrom(c, few, all, later)
  {
  }

  lemma AskKeepsPruned(c: Limits, few: Failures, all: Failures, key: string, now: real)
    requires IsPrunedFrom(c, few, all, now)
    ensures IsPrunedFrom(c, AfterCheck(c, few, key, now), AfterCheck(c, all, key, now), now)
    ensures LockedFor(c, few, key, now) == LockedFor(c, all, key, now)
  {
    hide Remaining, IsStale;
    if key in all && key !in few { StaleIsUnlocked(c, all[key], now); }
  }

  lemma FailKeepsPruned(c: Limits, few: Failures, all: Failures, key: string, now: real, pruneAt: Option<nat>)
    requires IsPrunedFrom(c, few, all, now)
    ensures IsPrunedFrom(c, AfterFailure(c, few, key, now, pruneAt), AfterFailure(c, all, key, now, None), now)
  {
    hide IsStale;
  }

  lemma CallKeepsPruned(c: Limits, few: Failures, all: Failures, now: real, call: Call, pruneAt: Option<nat>)
    requires IsPrunedFrom(c, few, all, now) && now <= call.now
    ensures IsPrunedFrom(c, AfterCall(c, few, call, pruneAt), AfterCall(c, all, call, None), call.now)
    ensures LockedFor(c, few, call.key, call.now) == LockedFor(c, all, call.key, call.now)
  {
    hide LockedFor, AfterCheck, AfterFailure, IsStale;
    TimePasses(c, few, all, now, call.now);
    AskKeepsPruned(c, few, all, call.key, call.now);
    FailKeepsPruned(c, few, all, call.key, call.now, pruneAt);
  }

  /** Whatever the threshold, a throttle that prunes gives the answers of one that never does. */
  lemma {:induction false} PruningIsInvisible(c: Limits, few: Failures, all: Failures, now: real, calls: seq<Call>,
                                              pruneAt: Option<nat>)
    requires IsPrunedFrom(c, few, all, now) && IsForward(now, calls)
    ensures Answers(c, few, calls, pruneAt) == Answers(c, all, calls, None)
    decreases |calls|
  {
    hide IsPrunedFrom, AfterCall, LockedFor;
    if calls != [] {
      CallKeepsPruned(c, few, all, now, calls[0], pruneAt);
      PruningIsInvisible(c, AfterCall(c, few, calls[0], pruneAt), AfterCall(c, all, calls[0], None), calls[0].now,
                         calls[1..], pruneAt);
    }
  }
}
