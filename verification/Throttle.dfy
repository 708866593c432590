/** The failed-login counter, the sign-in request that drives it, and how many failures it lets through. */
module Throttle {
  import opened PyText

  datatype Limits = Limits(maxAttempts: int, lockoutSeconds: int)

  datatype Entry = Entry(count: nat, last: real)

  type Failures = map<string, Entry>

  /** How many entries there are before stale ones are pruned. */
  const PRUNE_AT := 1024

  /** `int(x)`: towards zero. */
  function Truncate(x: real): int {
    if x < 0.0 then -(-x).Floor else x.Floor
  }

  function Remaining(c: Limits, e: Entry, now: real): int {
    Truncate(c.lockoutSeconds as real - (now - e.last))
  }

  predicate IsStale(c: Limits, e: Entry, now: real) {
    now - e.last > c.lockoutSeconds as real
  }

  /** The answer of `is_locked`. */
  function LockedFor(c: Limits, m: Failures, key: string, now: real): (seconds: nat)
  {
    if key !in m || m[key].count < c.maxAttempts || Remaining(c, m[key], now) <= 0 then 0
    else Remaining(c, m[key], now)
  }

  /** What `is_locked` leaves: an entry whose lockout is over is gone. */
  function AfterCheck(c: Limits, m: Failures, key: string, now: real): Failures {
    if key in m && m[key].count >= c.maxAttempts && Remaining(c, m[key], now) <= 0 then m - {key} else m
  }

  /** `_prune` with any threshold; `None` never prunes. */
  function Pruned(c: Limits, m: Failures, now: real, pruneAt: Option<nat>): Failures {
    if pruneAt.None? || |m| < pruneAt.value then m
    else map k | k in m && !IsStale(c, m[k], now) :: m[k]
  }

  function AfterFailure(c: Limits, m: Failures, key: string, now: real, pruneAt: Option<nat>): Failures {
    var kept := Pruned(c, m, now, pruneAt);
    var before := if key in kept then kept[key] else Entry(0, now);
    kept[key := Entry((if IsStale(c, before, now) then 0 else before.count) + 1, now)]
  }

  class LoginThrottle {
    const limits: Limits
    var failures: Failures

    constructor (maxAttempts: int, lockoutSeconds: int)
      ensures failures == map[] && limits == Limits(maxAttempts, lockoutSeconds)
    {
      limits := Limits(maxAttempts, lockoutSeconds);
      failures := map[];
    }

    static function Key(username: string, remoteAddr: string): string {
      Lower(username) + "|" + remoteAddr
    }

    method Prune(now: real)
      modifies this
      ensures failures == Pruned(limits, old(failures), now, Some(PRUNE_AT))
    {
      if |failures| < PRUNE_AT { return; }
      var stale := set k | k in failures && IsStale(limits, failures[k], now);
      while stale != {}
        invariant forall k :: k in failures ==> k in old(failures) && failures[k] == old(failures)[k]
        invariant forall k :: k in old(failures) && !IsStale(limits, old(failures)[k], now) ==> k in failures
        invariant forall k :: k in stale <==> k in failures && IsStale(limits, failures[k], now)
        decreases stale
      {
        var k :| k in stale;
        failures := failures - {k};
        stale := stale - {k};
      }
    }

    method IsLocked(username: string, remoteAddr: string, now: real) returns (seconds: nat)
      modifies this
      ensures seconds == LockedFor(limits, old(failures), Key(username, remoteAddr), now)
      ensures failures == AfterCheck(limits, old(failures), Key(username, remoteAddr), now)
    {
      var key := Key(username, remoteAddr);
      if key !in failures || failures[key].count < limits.maxAttempts { return 0; }
      var remaining := Remaining(limits, failures[key], now);
      if remaining <= 0 {
        failures := failures - {key};
        return 0;
      }
      return remaining;
    }

    method RecordFailure(username: string, remoteAddr: string, now: real)
      modifies this
      ensures failures == AfterFailure(limits, old(failures), Key(username, remoteAddr), now, Some(PRUNE_AT))
    {
      Prune(now);
      var key := Key(username, remoteAddr);
      var before := if key in failures then failures[key] else Entry(0, now);
      var count := if IsStale(limits, before, now) then 0 else before.count;
      failures := failures[key := Entry(count + 1, now)];
    }

    method Reset(username: string, remoteAddr: string)
      modifies this
      ensures failures == old(failures) - {Key(username, remoteAddr)}
    {
      failures := failures - {Key(username, remoteAddr)};
    }
  }

  // ----- the sign-in request -----

  /** What the authentication backends make of a name and password. */
  datatype Verdict = Accepted | Rejected | BackendError | NotAdmitted

  datatype Response = Incomplete | Throttled | Welcome | BadCredentials | Unavailable | Denied

  /** One request: who, when the throttle is asked and when a failure would be recorded. */
  datatype Attempt = Attempt(username: string, password: string, remoteAddr: string, checkedAt: real, failedAt: real,
                             verdict: Verdict)
  {
    function Key(): string { LoginThrottle.Key(Strip(username), remoteAddr) }
  }

  function Respond(c: Limits, m: Failures, a: Attempt): Response {
    if Strip(a.username) == "" || a.password == "" then Incomplete
    else if LockedFor(c, m, a.Key(), a.checkedAt) > 0 then Throttled
    else match a.verdict
      case Accepted => Welcome
      case Rejected => BadCredentials
      case BackendError => Unavailable
      case NotAdmitted => Denied
  }

  function After(c: Limits, m: Failures, a: Attempt): Failures {
    var checked := AfterCheck(c, m, a.Key(), a.checkedAt);
    match Respond(c, m, a)
    case Incomplete => m
    case BadCredentials => AfterFailure(c, checked, a.Key(), a.failedAt, Some(PRUNE_AT))
    case Welcome => checked - {a.Key()}
    case _ => checked
  }

  method Login(throttle: LoginThrottle, a: Attempt) returns (response: Response)
    modifies throttle
    ensures response == Respond(throttle.limits, old(throttle.failures), a)
    ensures throttle.failures == After(throttle.limits, old(throttle.failures), a)
  {
    var username := Strip(a.username);
    if username == "" || a.password == "" { return Incomplete; }
    var lockedFor := throttle.IsLocked(username, a.remoteAddr, a.checkedAt);
    if lockedFor > 0 { return Throttled; }
    match a.verdict
    case BackendError => return Unavailable;
    case NotAdmitted => return Denied;
    case Rejected =>
      throttle.RecordFailure(username, a.remoteAddr, a.failedAt);
      return BadCredentials;
    case Accepted =>
      throttle.Reset(username, a.remoteAddr);
      return Welcome;
  }
}
