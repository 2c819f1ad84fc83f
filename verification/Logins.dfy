/** Logins that overlap (internal/auth/service.go): the failures of one email, or
    of one client's IP, when other logins run between a login's check and the
    recording of its failure. */
module Logins {
  import opened Text
  import opened Throttles

  /** A login found not locked at `at`, when `seen` failures were recorded. */
  datatype Attempt = Attempt(seen: nat, at: int, recorded: bool)

  /** The failures of one key since its last success or eviction. */
  datatype Key = Key(max: nat, window: int, log: seq<int>, now: int, attempts: seq<Attempt>)

  /** A login's check, its failure being recorded, and the key being forgotten. */
  datatype Event = Checks(now: int) | Records(i: nat, now: int) | Forgotten

  function Next(k: Key, e: Event): Option<Key> {
    match e
    case Checks(now) =>
      if now < k.now then None
      else if |Live(k.log, now, k.window)| >= k.max then Some(k.(now := now))
      else Some(k.(now := now, attempts := k.attempts + [Attempt(|k.log|, now, false)]))
    case Records(i, now) =>
      if now < k.now || i >= |k.attempts| || k.attempts[i].recorded then None
      else Some(k.(now := now, log := k.log + [now], attempts := k.attempts[i := k.attempts[i].(recorded := true)]))
    case Forgotten =>
      Some(k.(log := [], attempts := seq(|k.attempts|, i requires 0 <= i < |k.attempts| => k.attempts[i].(seen := 0))))
  }

  ghost predicate AttemptOk(k: Key, a: Attempt) {
    k.max > 0 && a.seen <= |k.log| && a.at <= k.now && |Live(k.log[..a.seen], a.at, k.window)| < k.max
  }

  ghost predicate Inv(k: Key) {
    Ascending(k.log, k.now) && forall i | 0 <= i < |k.attempts| :: AttemptOk(k, k.attempts[i])
  }

  lemma StepKeepsInv(k: Key, e: Event)
    requires Inv(k) && Next(k, e).Some?
    ensures Inv(Next(k, e).value)
  {
    hide Live;
    var t := Next(k, e).value;
    forall i | 0 <= i < |t.attempts| ensures AttemptOk(t, t.attempts[i]) {
      if i < |k.attempts| {
        assert AttemptOk(k, k.attempts[i]);
        if e.Records? {
          assert t.log[..t.attempts[i].seen] == k.log[..k.attempts[i].seen];
        } else if e.Forgotten? {
          NothingLive(t.attempts[i].at, k.window);
        }
      } else {
        assert k.log[..|k.log|] == k.log;
      }
    }
  }

  lemma NothingLive(now: int, window: int)
    ensures Live([], now, window) == []
  {
  }

  /** With the failures recorded since the attempt's check the key is locked. */
  ghost predicate Overtaken(k: Key, i: nat, now: int) {
    i < |k.attempts| && k.attempts[i].seen <= |k.log|
    && |Live(k.log[..k.attempts[i].seen], now, k.window)| + |Live(k.log[k.attempts[i].seen..], now, k.window)| >= k.max
  }

  lemma {:induction false} FewerLater(times: seq<int>, then': int, now: int, window: int)
    requires then' <= now
    ensures |Live(times, now, window)| <= |Live(times, then', window)|
  {
    if times != [] {
      FewerLater(times[1..], then', now, window);
    }
  }

  lemma {:induction false} LiveAtMost(times: seq<int>, now: int, window: int)
    ensures |Live(times, now, window)| <= |times|
  {
    if times != [] {
      LiveAtMost(times[1..], now, window);
    }
  }

  /** What it takes: at least one other failure was recorded since the check, and
      at least as many as were short of max. */
  lemma OvertakenByOthers(k: Key, i: nat, now: int)
    requires Inv(k) && Overtaken(k, i, now) && k.now <= now
    ensures var seen := k.attempts[i].seen;
            seen < |k.log| && |k.log| - seen >= k.max - |Live(k.log[..seen], k.attempts[i].at, k.window)| > 0
  {
    hide Live;
    var a := k.attempts[i];
    assert AttemptOk(k, a);
    FewerLater(k.log[..a.seen], a.at, now, k.window);
    LiveAtMost(k.log[a.seen..], now, k.window);
  }

  /** Of ascending times the last |live| are live. */
  lemma {:induction false} LiveTail(times: seq<int>, now: int, window: int)
    requires Ascending(times, now)
    ensures |Live(times, now, window)| <= |times|
    ensures forall i | |times| - |Live(times, now, window)| <= i < |times| :: now - times[i] < window
  {
    if times != [] {
      LiveTail(times[1..], now, window);
      if now - times[0] >= window {
        assert forall i | 1 <= i < |times| :: times[i] == times[1..][i - 1];
      } else {
        assert forall i | 0 <= i < |times| :: times[0] <= times[i];
      }
    }
  }

  /** One more failure keeps the spacing exactly when the key is not locked. */
  lemma OneMore(log: seq<int>, max: nat, window: int, now: int)
    requires Ascending(log, now) && Spaced(log, max, window) && max > 0
    ensures Spaced(log + [now], max, window) <==> |Live(log, now, window)| < max
  {
    hide Live;
    LiveSuffix(log, now, window);
    LiveTail(log, now, window);
    var all := log + [now];
    if |Live(log, now, window)| >= max {
      var i := |log| - max;
      assert all[i + max] == now && all[i] == log[i];
    }
  }

  lemma StepSpaced(k: Key, e: Event)
    requires Inv(k) && Spaced(k.log, k.max, k.window) && Next(k, e).Some?
    ensures Spaced(Next(k, e).value.log, k.max, k.window) <==> !(e.Records? && Overtaken(k, e.i, e.now))
  {
    hide Live;
    if e.Records? {
      var seen := k.attempts[e.i].seen;
      assert AttemptOk(k, k.attempts[e.i]);
      assert Ascending(k.log, e.now);
      OneMore(k.log, k.max, k.window, e.now);
      assert k.log == k.log[..seen] + k.log[seen..];
      LiveJoin(k.log[..seen], k.log[seen..], e.now, k.window);
    }
  }

  /** No failure is recorded of an attempt that was overtaken. */
  ghost predicate InTime(k: Key, es: seq<Event>)
    decreases |es|
  {
    es == [] || Next(k, es[0]).None?
    || (!(es[0].Records? && Overtaken(k, es[0].i, es[0].now)) && InTime(Next(k, es[0]).value, es[1..]))
  }

  /** The failures are spaced at every moment of the run. */
  ghost predicate AlwaysSpaced(k: Key, es: seq<Event>)
    decreases |es|
  {
    Spaced(k.log, k.max, k.window) && (es == [] || Next(k, es[0]).None? || AlwaysSpaced(Next(k, es[0]).value, es[1..]))
  }

  /** However logins interleave, any max+1 failures in a row span the window
      exactly when none is recorded after the key was locked by the failures
      recorded since its check. */
  lemma {:induction false} SpacedExactly(k: Key, es: seq<Event>)
    requires Inv(k) && Spaced(k.log, k.max, k.window)
    ensures AlwaysSpaced(k, es) <==> InTime(k, es)
    decreases |es|
  {
    hide Inv, Spaced, Next, Overtaken;
    if es != [] && Next(k, es[0]).Some? {
      var t := Next(k, es[0]).value;
      StepSpaced(k, es[0]);
      StepKeepsInv(k, es[0]);
      SameBounds(k, es[0]);
      if Spaced(t.log, t.max, t.window) { SpacedExactly(t, es[1..]); }
    }
  }

  lemma SameBounds(k: Key, e: Event)
    requires Next(k, e).Some?
    ensures Next(k, e).value.max == k.max && Next(k, e).value.window == k.window
  {
  }

  lemma LaterUnspaced(k: Key, e: Event, t: Key, es: seq<Event>)
    requires Next(k, e) == Some(t) && !AlwaysSpaced(t, es)
    ensures !AlwaysSpaced(k, [e] + es)
  {
    hide Next, Spaced;
    assert ([e] + es)[1..] == es;
  }

  /** Two logins, of which one failure is enough, that are both checked before
      either failure is recorded. */
  lemma OverlapUnspaced(window: int, now: int)
    requires window > 0
    ensures var k := Key(1, window, [], now, []);
            Inv(k) && !AlwaysSpaced(k, [Checks(now)] + ([Checks(now)] + ([Records(0, now)] + ([Records(1, now)] + []))))
  {
    hide AlwaysSpaced, Live;
    NothingLive(now, window);
    var k0 := Key(1, window, [], now, []);
    var k1 := Key(1, window, [], now, [Attempt(0, now, false)]);
    var k2 := Key(1, window, [], now, [Attempt(0, now, false), Attempt(0, now, false)]);
    var k3 := Key(1, window, [now], now, [Attempt(0, now, true), Attempt(0, now, false)]);
    var k4 := Key(1, window, [now, now], now, [Attempt(0, now, true), Attempt(0, now, true)]);
    assert k0.attempts + [Attempt(0, now, false)] == k1.attempts && k1.attempts + [Attempt(0, now, false)] == k2.attempts;
    assert k2.attempts[0 := Attempt(0, now, true)] == k3.attempts && k2.log + [now] == k3.log;
    assert k3.attempts[1 := Attempt(0, now, true)] == k4.attempts && k3.log + [now] == k4.log;
    TwiceNow(k4);
    LaterUnspaced(k3, Records(1, now), k4, []);
    LaterUnspaced(k2, Records(0, now), k3, [Records(1, now)] + []);
    LaterUnspaced(k1, Checks(now), k2, [Records(0, now)] + ([Records(1, now)] + []));
    LaterUnspaced(k0, Checks(now), k1, [Checks(now)] + ([Records(0, now)] + ([Records(1, now)] + [])));
  }

  lemma TwiceNow(k: Key)
    requires k.max == 1 && k.window > 0 && k.log == [k.now, k.now]
    ensures !AlwaysSpaced(k, [])
  {
    assert k.log[0 + k.max] - k.log[0] < k.window;
  }
}
