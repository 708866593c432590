/** What a throttled answer says about the history of the person who gets it. */
module ThrottleHistory {
  import opened PyText
  import opened Throttle
  import opened ThrottleLaws

  /** The same username in any case and with any white space around it, from the same address. */
  predicate IsSamePair(a: Attempt, b: Attempt) {
    Lower(Strip(a.username)) == Lower(Strip(b.username)) && a.remoteAddr == b.remoteAddr
  }

  /** Addresses have no bar, which separates them from the username in the throttle's keys. */
  predicate AreAddressed(attempts: seq<Attempt>) {
    forall i :: 0 <= i < |attempts| ==> '|' !in attempts[i].remoteAddr
  }

  lemma KeyIsPair(a: Attempt, b: Attempt)
    requires '|' !in a.remoteAddr && '|' !in b.remoteAddr
    ensures a.Key() == b.Key() <==> IsSamePair(a, b)
  {
    hide Strip, Lower;
    var u, v := Lower(Strip(a.username)), Lower(Strip(b.username));
    var s, t := u + "|" + a.remoteAddr, v + "|" + b.remoteAddr;
    if s == t {
      LastBar(u, a.remoteAddr, v, b.remoteAddr);
    }
  }

  lemma LastBar(u: string, x: string, v: string, y: string)
    requires '|' !in x && '|' !in y && u + "|" + x == v + "|" + y
    ensures u == v && x == y
  {
    var s, t := u + "|" + x, v + "|" + y;
    NoBarBehind(u, x);
    NoBarBehind(v, y);
    assert |u| == |v|;
    assert s[..|u|] == u && t[..|v|] == v && s[|u| + 1..] == x && t[|v| + 1..] == y;
  }

  lemma NoBarBehind(u: string, x: string)
    requires '|' !in x
    ensures var s := u + "|" + x; s[|u|] == '|' && forall i :: |u| < i < |s| ==> s[i] != '|'
  {
    var s := u + "|" + x;
    forall i | |u| < i < |s| ensures s[i] != '|' {
      assert s[i] == x[i - |u| - 1];
    }
  }

  // ----- runs -----

  /** The table after the first `n` requests of a run that starts with an empty one. */
  function TableAt(c: Limits, attempts: seq<Attempt>, n: nat): Failures
    requires n <= |attempts|
  {
    if n == 0 then map[] else After(c, TableAt(c, attempts, n - 1), attempts[n - 1])
  }

  /** What the `k`th request is answered. */
  function AnswerAt(c: Limits, attempts: seq<Attempt>, k: nat): Response
    requires k < |attempts|
  {
    Respond(c, TableAt(c, attempts, k), attempts[k])
  }

  /** One request at a time, and each is checked after the one before it was finished. */
  predicate IsTimed(attempts: seq<Attempt>) {
    && (forall i :: 0 <= i < |attempts| ==> attempts[i].checkedAt <= attempts[i].failedAt)
    && forall i, j :: 0 <= i < j < |attempts| ==> attempts[i].failedAt <= attempts[j].checkedAt
  }

  /** The admitted failures of the pair of request `of`, among the first `n`, that no sign-in of the pair came after. */
  function FailuresSince(c: Limits, attempts: seq<Attempt>, n: nat, of: Attempt): (fs: seq<nat>)
    requires n <= |attempts|
    ensures forall i :: 0 <= i < |fs| ==> fs[i] < n
  {
    if n == 0 then []
    else
      var before := FailuresSince(c, attempts, n - 1, of);
      if !IsSamePair(attempts[n - 1], of) then before
      else match AnswerAt(c, attempts, n - 1)
        case Welcome => []
        case BadCredentials => before + [n - 1]
        case _ => before
  }

  /** Those failures are what they are meant to be: each is an admitted failure of the pair, in order, and none is
      missing but those before a sign-in. */
  lemma {:induction false} FailuresAre(c: Limits, attempts: seq<Attempt>, n: nat, of: Attempt, j: nat)
    requires n <= |attempts| && j < n
    ensures j in FailuresSince(c, attempts, n, of) <==>
      && IsSamePair(attempts[j], of) && AnswerAt(c, attempts, j) == BadCredentials
      && forall i :: j < i < n ==> !(IsSamePair(attempts[i], of) && AnswerAt(c, attempts, i) == Welcome)
  {
    hide AnswerAt, IsSamePair;
    var before, last := FailuresSince(c, attempts, n - 1, of), n - 1;
    if j < last { FailuresAre(c, attempts, last, of, j); }
  }

  /** The times between the last `m` of some failures are at most `gap`. */
  predicate AreClose(attempts: seq<Attempt>, fs: seq<nat>, m: nat, gap: real)
    requires m <= |fs| && forall i :: 0 <= i < |fs| ==> fs[i] < |attempts|
  {
    forall i :: |fs| - m < i < |fs| ==> attempts[fs[i]].failedAt - attempts[fs[i - 1]].failedAt <= gap
  }

  // ----- nobody is locked out too early -----

  /** The entry counts no more than these failures, and those it counts are close. */
  predicate IsTally(c: Limits, attempts: seq<Attempt>, fs: seq<nat>, e: Entry)
    requires forall i :: 0 <= i < |fs| ==> fs[i] < |attempts|
  {
    && 1 <= e.count <= |fs| && e.last == attempts[fs[|fs| - 1]].failedAt
    && AreClose(attempts, fs, e.count, c.lockoutSeconds as real)
  }

  /** An entry counts failures of the pair since its last sign-in. */
  predicate IsEarned(c: Limits, attempts: seq<Attempt>, n: nat, of: Attempt, m: Failures)
    requires n <= |attempts|
  {
    of.Key() in m ==> IsTally(c, attempts, FailuresSince(c, attempts, n, of), m[of.Key()])
  }

  lemma {:induction false} EntriesAreEarned(c: Limits, attempts: seq<Attempt>, n: nat, of: Attempt)
    requires n <= |attempts| && AreAddressed(attempts) && '|' !in of.remoteAddr
    ensures IsEarned(c, attempts, n, of, TableAt(c, attempts, n))
  {
    hide IsEarned, After, FailuresSince;
    if n > 0 {
      EntriesAreEarned(c, attempts, n - 1, of);
      OneMoreIsEarned(c, attempts, n, of);
    } else {
      NoneAreEarned(c, attempts, of);
    }
  }

  lemma NoneAreEarned(c: Limits, attempts: seq<Attempt>, of: Attempt)
    ensures IsEarned(c, attempts, 0, of, map[])
  {
  }

  lemma NextFailures(c: Limits, attempts: seq<Attempt>, n: nat, of: Attempt)
    requires 0 < n <= |attempts|
    ensures var before, r := FailuresSince(c, attempts, n - 1, of), AnswerAt(c, attempts, n - 1);
      FailuresSince(c, attempts, n, of) ==
        if !IsSamePair(attempts[n - 1], of) then before
        else if r == Welcome then [] else if r == BadCredentials then before + [n - 1] else before
  {
    hide IsSamePair, AnswerAt;
  }

  lemma OneMoreIsEarned(c: Limits, attempts: seq<Attempt>, n: nat, of: Attempt)
    requires 0 < n <= |attempts| && AreAddressed(attempts) && '|' !in of.remoteAddr
    requires IsEarned(c, attempts, n - 1, of, TableAt(c, attempts, n - 1))
    ensures IsEarned(c, attempts, n, of, TableAt(c, attempts, n))
  {
    hide Strip, Lower, After, Respond, LoginThrottle.Key, IsSamePair, IsTally, Counts;
    var a, m, m' := attempts[n - 1], TableAt(c, attempts, n - 1), TableAt(c, attempts, n);
    NextFailures(c, attempts, n, of);
    hide FailuresSince;
    KeyIsPair(a, of);
    EntryAfter(c, m, a, of.Key());
    if a.Key() == of.Key() && Respond(c, m, a) == BadCredentials && of.Key() in m' {
      OneMoreTally(c, attempts, FailuresSince(c, attempts, n - 1, of), n - 1, m, of.Key(), m'[of.Key()]);
    }
  }

  /** A failure more is one more in the tally, or the first. */
  lemma OneMoreTally(c: Limits, attempts: seq<Attempt>, fs: seq<nat>, i: nat, m: Failures, key: string, e: Entry)
    requires i < |attempts| && forall j :: 0 <= j < |fs| ==> fs[j] < |attempts|
    requires key in m ==> IsTally(c, attempts, fs, m[key])
    requires e.last == attempts[i].failedAt && Counts(c, m, key, attempts[i].failedAt, e.count)
    ensures IsTally(c, attempts, fs + [i], e)
  {
    hide AreClose;
    OneIsClose(attempts, fs + [i], c.lockoutSeconds as real);
    if e.count != 1 { ClosePlus(attempts, fs, i, m[key].count, c.lockoutSeconds as real); }
  }

  lemma OneIsClose(attempts: seq<Attempt>, fs: seq<nat>, gap: real)
    requires fs != [] && forall i :: 0 <= i < |fs| ==> fs[i] < |attempts|
    ensures AreClose(attempts, fs, 1, gap)
  {
  }

  lemma ClosePlus(attempts: seq<Attempt>, fs: seq<nat>, n: nat, m: nat, gap: real)
    requires 1 <= m <= |fs| && n < |attempts| && forall i :: 0 <= i < |fs| ==> fs[i] < |attempts|
    requires AreClose(attempts, fs, m, gap) && attempts[n].failedAt - attempts[fs[|fs| - 1]].failedAt <= gap
    ensures AreClose(attempts, fs + [n], m + 1, gap)
  {
  }

  lemma CheckEntry(c: Limits, m: Failures, k: string, now: real, key: string)
    ensures var m' := AfterCheck(c, m, k, now); key in m' ==> key in m && m'[key] == m[key]
  {
    hide Remaining;
  }

  /** A failure counts from one, or on from an entry that is within the lockout. */
  predicate Counts(c: Limits, m: Failures, key: string, now: real, count: nat) {
    count == 1 || (key in m && count == m[key].count + 1 && now - m[key].last <= c.lockoutSeconds as real)
  }

  lemma FailureEntry(c: Limits, m: Failures, k: string, now: real, key: string)
    ensures var m' := AfterFailure(c, m, k, now, Some(PRUNE_AT));
      && (key != k && key in m' ==> key in m && m'[key] == m[key])
      && (key == k ==> key in m' && m'[key].last == now && Counts(c, m, key, now, m'[key].count))
  {
  }

  /** What a request may do to an entry. */
  lemma EntryAfter(c: Limits, m: Failures, a: Attempt, key: string)
    ensures var m', r := After(c, m, a), Respond(c, m, a);
      key in m' ==>
        || (key in m && m'[key] == m[key] && (a.Key() == key ==> r != BadCredentials && r != Welcome))
        || (a.Key() == key && r == BadCredentials && m'[key].last == a.failedAt
            && Counts(c, m, key, a.failedAt, m'[key].count))
  {
    hide Strip, LoginThrottle.Key, AfterFailure, AfterCheck, Respond;
    CheckEntry(c, m, a.Key(), a.checkedAt, key);
    FailureEntry(c, AfterCheck(c, m, a.Key(), a.checkedAt), a.Key(), a.failedAt, key);
  }

  /**
   A request is throttled only if its pair - the same username in any case, the same address - has at least the allowed
   number of admitted failures since it last signed in, the last of them within the span, and that many of them each
   within the lockout of the one before it.
   */
  lemma ThrottledIsEarned(c: Limits, attempts: seq<Attempt>, k: nat)
    requires k < |attempts| && AreAddressed(attempts) && AnswerAt(c, attempts, k) == Throttled
    ensures var a, fs := attempts[k], FailuresSince(c, attempts, k, attempts[k]);
      && 1 <= |fs| && c.maxAttempts <= |fs|
      && a.checkedAt - attempts[fs[|fs| - 1]].failedAt <= c.lockoutSeconds as real - 1.0
      && AreClose(attempts, fs, if c.maxAttempts < 0 then 0 else c.maxAttempts, c.lockoutSeconds as real)
  {
    hide Strip, Lower, LoginThrottle.Key, FailuresSince, TableAt, Remaining;
    var a, m := attempts[k], TableAt(c, attempts, k);
    EntriesAreEarned(c, attempts, k, a);
    LockedExactly(c, m, a.Key(), a.checkedAt);
  }

  /** How many of the requests from `w` up to `k` are admitted failures of the pair. */
  function FailuresBetween(c: Limits, attempts: seq<Attempt>, w: nat, k: nat, of: Attempt): nat
    requires w <= k <= |attempts|
  {
    if w == k then 0
    else
      FailuresBetween(c, attempts, w, k - 1, of)
        + if IsSamePair(attempts[k - 1], of) && AnswerAt(c, attempts, k - 1) == BadCredentials then 1 else 0
  }

  lemma {:induction false} NoMoreThanBetween(c: Limits, attempts: seq<Attempt>, w: nat, k: nat, of: Attempt)
    requires w <= k <= |attempts| && FailuresSince(c, attempts, w, of) == []
    ensures |FailuresSince(c, attempts, k, of)| <= FailuresBetween(c, attempts, w, k, of)
  {
    hide AnswerAt, IsSamePair;
    if w < k { NoMoreThanBetween(c, attempts, w, k - 1, of); }
  }

  /** After a sign-in a pair is not throttled before as many new failures as are allowed, whatever came before. */
  lemma SignInStartsOver(c: Limits, attempts: seq<Attempt>, w: nat, k: nat)
    requires w < k < |attempts| && AreAddressed(attempts)
    requires IsSamePair(attempts[w], attempts[k]) && AnswerAt(c, attempts, w) == Welcome
    requires FailuresBetween(c, attempts, w + 1, k, attempts[k]) < Allowance(c)
    ensures AnswerAt(c, attempts, k) != Throttled
  {
    hide AnswerAt, IsSamePair, AreClose;
    NoMoreThanBetween(c, attempts, w + 1, k, attempts[k]);
    if AnswerAt(c, attempts, k) == Throttled { ThrottledIsEarned(c, attempts, k); }
  }

  // ----- and nobody too late -----

  /** While the span since the pair's last failure is running, its entry counts every failure that is close. */
  predicate IsCounted(c: Limits, attempts: seq<Attempt>, n: nat, of: Attempt, m: Failures, now: real)
    requires n <= |attempts|
  {
    var fs := FailuresSince(c, attempts, n, of);
    fs != [] && now - attempts[fs[|fs| - 1]].failedAt <= Span(c) ==>
      && of.Key() in m && m[of.Key()].last == attempts[fs[|fs| - 1]].failedAt
      && forall t: nat :: t <= |fs| && AreClose(attempts, fs, t, Span(c)) ==> t <= m[of.Key()].count
  }

  lemma OneMoreClose(attempts: seq<Attempt>, fs: seq<nat>, n: nat, t: nat, gap: real)
    requires 2 <= t <= |fs| + 1 && n < |attempts| && forall i :: 0 <= i < |fs| ==> fs[i] < |attempts|
    requires AreClose(attempts, fs + [n], t, gap)
    ensures AreClose(attempts, fs, t - 1, gap) && attempts[n].failedAt - attempts[fs[|fs| - 1]].failedAt <= gap
  {
    var more := fs + [n];
    assert more[|fs|] == n && more[|fs| - 1] == fs[|fs| - 1];
    forall i | |fs| - (t - 1) < i < |fs| ensures attempts[fs[i]].failedAt - attempts[fs[i - 1]].failedAt <= gap {
      assert more[i] == fs[i] && more[i - 1] == fs[i - 1];
    }
  }

  lemma {:induction false} CloseAreCounted(c: Limits, attempts: seq<Attempt>, n: nat, of: Attempt)
    requires n <= |attempts| && AreAddressed(attempts) && '|' !in of.remoteAddr && IsTimed(attempts)
    ensures n > 0 ==> IsCounted(c, attempts, n, of, TableAt(c, attempts, n), attempts[n - 1].failedAt)
  {
    hide Strip, Lower, After, Respond, LoginThrottle.Key, IsSamePair, AreClose;
    if n > 0 {
      CloseAreCounted(c, attempts, n - 1, of);
      OneMoreIsCounted(c, attempts, n, of);
    }
  }

  lemma OneMoreIsCounted(c: Limits, attempts: seq<Attempt>, n: nat, of: Attempt)
    requires 0 < n <= |attempts| && AreAddressed(attempts) && '|' !in of.remoteAddr && IsTimed(attempts)
    requires n > 1 ==> IsCounted(c, attempts, n - 1, of, TableAt(c, attempts, n - 1), attempts[n - 2].failedAt)
    ensures IsCounted(c, attempts, n, of, TableAt(c, attempts, n), attempts[n - 1].failedAt)
  {
    hide Strip, Lower, After, Respond, LoginThrottle.Key, IsSamePair, AreClose;
    var a, m := attempts[n - 1], TableAt(c, attempts, n - 1);
    var before, fs := FailuresSince(c, attempts, n - 1, of), FailuresSince(c, attempts, n, of);
    var isRecent := before != [] && a.failedAt - attempts[before[|before| - 1]].failedAt <= Span(c);
    KeyIsPair(a, of);
    if !IsSamePair(a, of) {
      if isRecent { OthersKeep(c, m, a, of.Key()); }
    } else if Respond(c, m, a) != Welcome {
      if isRecent { OwnEntry(c, m, a, of.Key()); }
      if Respond(c, m, a) == BadCredentials {
        FirstEntry(c, m, a);
        forall t: nat | 2 <= t <= |fs| && AreClose(attempts, fs, t, Span(c))
          ensures t <= TableAt(c, attempts, n)[of.Key()].count
        {
          OneMoreClose(attempts, before, n - 1, t, Span(c));
        }
      }
    }
  }

  /** A pair whose last failures, as many as are allowed, are each within the span of the one before, and the last of
      them within the span, is throttled, if it gives a name and a password at all. */
  lemma CloseFailuresThrottle(c: Limits, attempts: seq<Attempt>, k: nat)
    requires k < |attempts| && AreAddressed(attempts) && IsTimed(attempts)
    requires Strip(attempts[k].username) != "" && attempts[k].password != ""
    requires var fs := FailuresSince(c, attempts, k, attempts[k]);
      && Allowance(c) <= |fs| && AreClose(attempts, fs, Allowance(c), Span(c))
      && attempts[k].checkedAt - attempts[fs[|fs| - 1]].failedAt <= Span(c)
    ensures AnswerAt(c, attempts, k) == Throttled
  {
    hide Strip, Lower, LoginThrottle.Key, FailuresSince, TableAt, Remaining, AreClose;
    CloseAreCounted(c, attempts, k, attempts[k]);
    if k > 0 { LockedExactly(c, TableAt(c, attempts, k), attempts[k].Key(), attempts[k].checkedAt); }
  }

  /** Every other request is answered by its verdict. */
  lemma OtherwiseByVerdict(c: Limits, attempts: seq<Attempt>, k: nat)
    requires k < |attempts|
    ensures var a, r := attempts[k], AnswerAt(c, attempts, k);
      && (r == Incomplete <==> Strip(a.username) == "" || a.password == "")
      && (r != Incomplete && r != Throttled ==>
            && (r == Welcome <==> a.verdict == Accepted) && (r == BadCredentials <==> a.verdict == Rejected)
            && (r == Unavailable <==> a.verdict == BackendError) && (r == Denied <==> a.verdict == NotAdmitted))
  {
    hide Strip, TableAt, LockedFor;
  }

  /** The seconds told are those that are left of the lockout, rounded down. */
  lemma SecondsAreLeft(c: Limits, m: Failures, key: string, now: real)
    ensures var s := LockedFor(c, m, key, now);
      s > 0 ==>
        && key in m
        && var left := c.lockoutSeconds as real - (now - m[key].last);
           s as real <= left < s as real + 1.0
  {
  }
}
