/** Logins behind the throttle, and sessions (internal/auth/service.go). Times
    are nanoseconds on a clock that never goes back; requests come one at a time. */
module Auth {
  import opened Throttles

  /** What Login finds behind the throttle. */
  datatype Found = UnknownEmail | StoreFails | VerifyFails | WrongPassword | DisabledUser | SessionFails | Good

  datatype LoginResult = Throttled | Invalid | Error | Opened

  /** s.fail is called exactly for these. */
  predicate Records(f: Found) {
    f.UnknownEmail? || f.WrongPassword? || f.DisabledUser?
  }

  const MINUTE: int := 60_000_000_000

  datatype Session = Session(user: string, expiresAt: int, lastSeenAt: int)

  /** The log of a throttle whose failures are recorded only when not locked. */
  ghost predicate AllSpaced(log: Log, now: int, max: nat, window: int) {
    forall k :: Ascending(At(log, k), now) && Spaced(At(log, k), max, window)
  }

  /** lastSeenAt is at most a minute behind when the session was last accepted. */
  ghost predicate Lagging(sessions: map<string, Session>, seen: map<string, int>, now: int) {
    && sessions.Keys <= seen.Keys
    && forall k | k in sessions :: sessions[k].lastSeenAt <= seen[k] <= sessions[k].lastSeenAt + MINUTE && seen[k] <= now
  }

  lemma LaterLagging(sessions: map<string, Session>, seen: map<string, int>, then': int, now: int)
    requires Lagging(sessions, seen, then') && then' <= now
    ensures Lagging(sessions, seen, now)
  {
  }

  lemma OpenedLagging(sessions: map<string, Session>, seen: map<string, int>, token: string, s: Session, at: int, now: int)
    requires Lagging(sessions, seen, now) && s.lastSeenAt == at <= now
    ensures Lagging(sessions[token := s], seen[token := at], now)
  {
  }

  lemma LaterSpaced(log: Log, then': int, now: int, max: nat, window: int)
    requires AllSpaced(log, then', max, window) && then' <= now
    ensures AllSpaced(log, now, max, window)
  {
    forall k ensures Ascending(At(log, k), now) && Spaced(At(log, k), max, window) {
      assert Ascending(At(log, k), then');
    }
  }

  lemma FailAllSpaced(log: Log, after: Log, evicted: set<string>, key: string, checked: int, failedAt: int, now: int, max: nat, window: int)
    requires AllSpaced(log, checked, max, window) && checked <= failedAt <= now
    requires |Live(At(log, key), checked, window)| < max
    requires after == (log - evicted)[key := At(log, key) + [failedAt]]
    ensures AllSpaced(after, now, max, window)
  {
    hide Live;
    LaterSpaced(log, checked, now, max, window);
    FailSpaced(At(log, key), max, window, checked, failedAt);
    forall k ensures Ascending(At(after, k), now) && Spaced(At(after, k), max, window) {
      if k != key {
        assert At(after, k) == if k in evicted then [] else At(log, k);
      }
    }
  }

  lemma ResetSpaced(log: Log, key: string, now: int, max: nat, window: int)
    requires AllSpaced(log, now, max, window)
    ensures AllSpaced(log - {key}, now, max, window)
  {
    forall k ensures Ascending(At(log - {key}, k), now) && Spaced(At(log - {key}, k), max, window) {
      assert At(log - {key}, k) == if k == key then [] else At(log, k);
    }
  }

  class Service {
    const throttle: Throttle
    const ipThrottle: Throttle
    const sessionTTL: int
    const idleTimeout: int
    /** Sessions by token hash; users: enabled or not. */
    var sessions: map<string, Session>
    var users: map<string, bool>
    /** The latest time seen, and when each session was last accepted. */
    ghost var clock: int
    ghost var seen: map<string, int>

    ghost predicate Valid()
      reads this, throttle, ipThrottle
    {
      && throttle != ipThrottle && throttle.Valid() && ipThrottle.Valid()
      && throttle.clock <= clock && ipThrottle.clock <= clock
      && AllSpaced(throttle.log, clock, throttle.max, throttle.window)
      && AllSpaced(ipThrottle.log, clock, ipThrottle.max, ipThrottle.window)
      && Lagging(sessions, seen, clock)
    }

    constructor (maxFailures: nat, maxIPFailures: nat, window: int, sessionTTL: int, idleTimeout: int, users: map<string, bool>, ghost now: int)
      ensures Valid() && fresh(throttle) && fresh(ipThrottle) && clock == now && sessions == map[]
      ensures throttle.max == maxFailures && ipThrottle.max == maxIPFailures
      ensures throttle.window == window && ipThrottle.window == window
    {
      throttle := new Throttle(maxFailures, window, now);
      ipThrottle := new Throttle(maxIPFailures, window, now);
      this.sessionTTL, this.idleTimeout, this.users := sessionTTL, idleTimeout, users;
      sessions, clock, seen := map[], now, map[];
    }

    ghost predicate LockedOut(email: string, ip: string, now: int)
      reads this, throttle, ipThrottle
    {
      || |Live(At(throttle.log, email), now, throttle.window)| >= throttle.max
      || (ip != "" && |Live(At(ipThrottle.log, ip), now, ipThrottle.window)| >= ipThrottle.max)
    }

    /** The check that opens Login; what follows ends at `later`. */
    method Locked(email: string, ip: string, now: int, ghost later: int) returns (locked: bool)
      requires Valid() && clock <= now <= later
      modifies throttle, ipThrottle, this`clock
      ensures Valid() && clock == later && throttle.clock <= now && ipThrottle.clock <= now
      ensures throttle.log == old(throttle.log) && ipThrottle.log == old(ipThrottle.log)
      ensures locked <==> old(LockedOut(email, ip, now))
      ensures AllSpaced(throttle.log, now, throttle.max, throttle.window)
      ensures AllSpaced(ipThrottle.log, now, ipThrottle.max, ipThrottle.window)
    {
      hide AllSpaced, Live, At, Throttle.Valid, Lagging, LiveKeys;
      ghost var log, ipLog := throttle.log, ipThrottle.log;
      LaterSpaced(log, clock, now, throttle.max, throttle.window);
      LaterSpaced(ipLog, clock, now, ipThrottle.max, ipThrottle.window);
      LaterSpaced(log, now, later, throttle.max, throttle.window);
      LaterSpaced(ipLog, now, later, ipThrottle.max, ipThrottle.window);
      LaterLagging(sessions, seen, clock, later);
      clock := later;
      locked := throttle.Locked(email, now);
      if !locked && ip != "" {
        locked := ipThrottle.Locked(ip, now);
      }
    }

    /** fail: records a failure of the email and, when known, of its client's
        IP; both were found not locked at `checked`. */
    method Fail(email: string, ip: string, ghost checked: int, failedAt: int, failedAtIP: int)
      returns (ghost evicted: set<string>, ghost evictedIP: set<string>)
      requires Valid() && throttle.clock <= checked && ipThrottle.clock <= checked
      requires clock == failedAtIP && checked <= failedAt <= failedAtIP
      requires AllSpaced(throttle.log, checked, throttle.max, throttle.window)
      requires AllSpaced(ipThrottle.log, checked, ipThrottle.max, ipThrottle.window)
      requires !LockedOut(email, ip, checked)
      modifies throttle, ipThrottle
      ensures Valid()
      ensures throttle.log == (old(throttle.log) - evicted)[email := At(old(throttle.log), email) + [failedAt]]
      ensures ipThrottle.log == if ip != "" then (old(ipThrottle.log) - evictedIP)[ip := At(old(ipThrottle.log), ip) + [failedAtIP]]
                                else old(ipThrottle.log)
      ensures email !in evicted && Evictable(evicted, old(throttle.log), failedAt, throttle.window)
      ensures ip !in evictedIP && Evictable(evictedIP, old(ipThrottle.log), failedAtIP, ipThrottle.window)
    {
      hide AllSpaced, Live, At, Throttle.Valid, Lagging, LiveKeys;
      ghost var log, ipLog := throttle.log, ipThrottle.log;
      evictedIP := {};
      evicted := throttle.Fail(email, failedAt);
      FailAllSpaced(log, throttle.log, evicted, email, checked, failedAt, failedAtIP, throttle.max, throttle.window);
      if ip != "" {
        evictedIP := ipThrottle.Fail(ip, failedAtIP);
        FailAllSpaced(ipLog, ipThrottle.log, evictedIP, ip, checked, failedAtIP, failedAtIP, ipThrottle.max, ipThrottle.window);
      }
    }

    /** Login of a normalized email at time `now`; a failure is recorded at
        `failedAt` for the email and at `failedAtIP` for the client's IP. */
    method Login(email: string, ip: string, f: Found, user: string, token: string, now: int, failedAt: int, failedAtIP: int)
      returns (r: LoginResult, ghost evicted: set<string>, ghost evictedIP: set<string>)
      requires Valid() && clock <= now <= failedAt <= failedAtIP && token !in sessions
      modifies this, throttle, ipThrottle
      ensures Valid() && clock == failedAtIP
      ensures r.Throttled? <==> old(LockedOut(email, ip, now))
      ensures r.Invalid? <==> !r.Throttled? && (f.UnknownEmail? || f.WrongPassword? || f.DisabledUser?)
      ensures r.Opened? <==> !r.Throttled? && f.Good?
      ensures throttle.log == if r.Invalid? then (old(throttle.log) - evicted)[email := At(old(throttle.log), email) + [failedAt]]
                              else if !r.Throttled? && (f.Good? || f.SessionFails?) then old(throttle.log) - {email} else old(throttle.log)
      ensures ipThrottle.log == if r.Invalid? && ip != "" then (old(ipThrottle.log) - evictedIP)[ip := At(old(ipThrottle.log), ip) + [failedAtIP]]
                                else old(ipThrottle.log)
      ensures email !in evicted && Evictable(evicted, old(throttle.log), failedAt, throttle.window)
      ensures ip !in evictedIP && Evictable(evictedIP, old(ipThrottle.log), failedAtIP, ipThrottle.window)
      ensures users == old(users)
      ensures sessions == if r.Opened? then old(sessions)[token := Session(user, now + sessionTTL, now)] else old(sessions)
    {
      hide AllSpaced, Live, At, Throttle.Valid, Lagging, LiveKeys;
      evicted, evictedIP := {}, {};
      ghost var log := throttle.log;
      var locked := Locked(email, ip, now, failedAtIP);
      if locked {
        return Throttled, {}, {};
      }
      if Records(f) {
        evicted, evictedIP := Fail(email, ip, now, failedAt, failedAtIP);
        return Invalid, evicted, evictedIP;
      }
      if f.StoreFails? || f.VerifyFails? {
        return Error, {}, {};
      }
      throttle.Reset(email);
      ResetSpaced(log, email, failedAtIP, throttle.max, throttle.window);
      if f.SessionFails? {
        return Error, {}, {};
      }
      OpenedLagging(sessions, seen, token, Session(user, now + sessionTTL, now), now, failedAtIP);
      sessions := sessions[token := Session(user, now + sessionTTL, now)];
      seen := seen[token := now];
      r := Opened;
    }

    /** Any max+1 failures of one email recorded in a row, with no success and
        no eviction between them, span at least the window; so do those of one
        client IP, whatever emails it tried. */
    lemma RateBound(email: string, ip: string, i: nat, j: nat)
      requires Valid()
      ensures i + throttle.max < |At(throttle.log, email)| ==>
                At(throttle.log, email)[i + throttle.max] - At(throttle.log, email)[i] >= throttle.window
      ensures j + ipThrottle.max < |At(ipThrottle.log, ip)| ==>
                At(ipThrottle.log, ip)[j + ipThrottle.max] - At(ipThrottle.log, ip)[j] >= ipThrottle.window
    {
      assert Spaced(At(throttle.log, email), throttle.max, throttle.window);
      assert Spaced(At(ipThrottle.log, ip), ipThrottle.max, ipThrottle.window);
    }

    predicate Enabled(user: string)
      reads this
    {
      user in users && users[user]
    }

    /** Authenticate. The last two clauses are in terms of when the session was
        last accepted, which the code does not keep. */
    method Authenticate(token: string, now: int) returns (accepted: bool)
      requires Valid() && clock <= now
      modifies this
      ensures Valid() && clock == now && users == old(users)
      ensures token !in old(sessions) ==> !accepted && sessions == old(sessions)
      ensures token in old(sessions) && !accepted ==> sessions == old(sessions) - {token}
      ensures accepted ==> token in sessions && now - sessions[token].lastSeenAt <= MINUTE && seen[token] == now
                           && sessions == old(sessions)[token := old(sessions[token]).(lastSeenAt := sessions[token].lastSeenAt)]
      ensures accepted ==> Enabled(old(sessions)[token].user) && now < old(sessions)[token].expiresAt
      ensures token in old(sessions) && now - old(seen)[token] > idleTimeout ==> !accepted
      ensures token in old(sessions) && now - old(seen)[token] <= idleTimeout - MINUTE ==>
                (accepted <==> now < old(sessions)[token].expiresAt && Enabled(old(sessions)[token].user))
    {
      clock := now;
      LaterSpaced(throttle.log, old(clock), now, throttle.max, throttle.window);
      LaterSpaced(ipThrottle.log, old(clock), now, ipThrottle.max, ipThrottle.window);
      if token !in sessions {
        return false;
      }
      var s := sessions[token];
      if now >= s.expiresAt || now - s.lastSeenAt > idleTimeout {
        sessions := sessions - {token};
        return false;
      }
      if s.user !in users || !users[s.user] {
        sessions := sessions - {token};
        return false;
      }
      if now - s.lastSeenAt > MINUTE {
        sessions := sessions[token := s.(lastSeenAt := now)];
      }
      seen := seen[token := now];
      accepted := true;
    }
  }
}
