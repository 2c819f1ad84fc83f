/** The login throttle (internal/auth/throttle.go): failures by key, pruned in
    place, against the log that is never pruned. */
module Throttles {
  /** maxKeys. */
  const MAX_KEYS: nat := 10000

  type Log = map<string, seq<int>>

  function At(m: Log, key: string): seq<int> {
    if key in m then m[key] else []
  }

  /** The failures younger than window, oldest first. */
  function Live(times: seq<int>, now: int, window: int): seq<int> {
    if times == [] then []
    else (if now - times[0] < window then [times[0]] else []) + Live(times[1..], now, window)
  }

  lemma {:induction false} LiveLater(times: seq<int>, then': int, now: int, window: int)
    requires then' <= now
    ensures Live(Live(times, then', window), now, window) == Live(times, now, window)
  {
    if times != [] {
      LiveLater(times[1..], then', now, window);
      var rest := Live(times[1..], then', window);
      if then' - times[0] < window {
        assert ([times[0]] + rest)[1..] == rest;
      } else {
        assert [] + rest == rest;
      }
    }
  }

  lemma {:induction false} LiveFrom(times: seq<int>, n: nat, now: int, window: int) returns (at: seq<nat>)
    requires n <= |times|
    ensures |at| == |Live(times[n..], now, window)|
    ensures forall k | 0 <= k < |at| :: n <= at[k] < |times| && Live(times[n..], now, window)[k] == times[at[k]]
    ensures forall j, k | 0 <= j < k < |at| :: at[j] < at[k]
    ensures forall i | n <= i < |times| :: i in at <==> now - times[i] < window
    decreases |times| - n
  {
    if n == |times| {
      at := [];
    } else {
      assert times[n..][1..] == times[n + 1..];
      var rest := LiveFrom(times, n + 1, now, window);
      at := if now - times[n] < window then [n] + rest else rest;
    }
  }

  /** The failures at these indexes, in order, are the live ones: those younger
      than the window. */
  lemma LiveExactly(times: seq<int>, now: int, window: int) returns (at: seq<nat>)
    ensures |at| == |Live(times, now, window)|
    ensures forall k | 0 <= k < |at| :: at[k] < |times| && Live(times, now, window)[k] == times[at[k]]
    ensures forall j, k | 0 <= j < k < |at| :: at[j] < at[k]
    ensures forall i | 0 <= i < |times| :: i in at <==> now - times[i] < window
  {
    hide Live;
    assert times[0..] == times;
    at := LiveFrom(times, 0, now, window);
  }

  lemma {:induction false} LiveJoin(a: seq<int>, b: seq<int>, now: int, window: int)
    ensures Live(a + b, now, window) == Live(a, now, window) + Live(b, now, window)
  {
    if a == [] {
      assert a + b == b;
    } else {
      assert (a + b)[1..] == a[1..] + b;
      LiveJoin(a[1..], b, now, window);
    }
  }

  /** Every key pruned, the ones left with nothing dropped. */
  function Pruned(m: Log, now: int, window: int): Log {
    map k | k in m && Live(m[k], now, window) != [] :: Live(m[k], now, window)
  }

  /** Every key has the same live failures in both. */
  ghost predicate Agree(m: Log, log: Log, now: int, window: int) {
    forall k :: Live(At(m, k), now, window) == Live(At(log, k), now, window)
  }

  lemma AgreeLater(m: Log, log: Log, then': int, now: int, window: int)
    requires Agree(m, log, then', window) && then' <= now
    ensures Agree(m, log, now, window)
  {
    forall k ensures Live(At(m, k), now, window) == Live(At(log, k), now, window) {
      assert Live(At(m, k), then', window) == Live(At(log, k), then', window);
      LiveLater(At(m, k), then', now, window);
      LiveLater(At(log, k), then', now, window);
    }
  }

  /** The keys with a live failure. */
  function LiveKeys(m: Log, now: int, window: int): set<string> {
    set k | k in m && Live(m[k], now, window) != []
  }

  /** One failure costs at most one other key its failures, and that only when
      MAX_KEYS keys have a live one. */
  ghost predicate Evictable(evicted: set<string>, log: Log, now: int, window: int) {
    |evicted| <= 1 && (evicted != {} ==> |LiveKeys(log, now, window)| >= MAX_KEYS)
  }

  class Throttle {
    const max: nat
    const window: int
    var failures: map<string, seq<int>>
    /** Every failure recorded since the key's last reset or eviction, and the
        latest time seen. */
    ghost var log: Log
    ghost var clock: int

    ghost predicate Valid()
      reads this
    {
      && |failures| <= MAX_KEYS
      && Agree(failures, log, clock, window)
    }

    constructor (max: nat, window: int, ghost now: int)
      ensures Valid() && failures == map[] && log == map[] && clock == now
      ensures this.max == max && this.window == window
    {
      this.max, this.window, failures := max, window, map[];
      log, clock := map[], now;
    }

    /** prune: drops the key's expired failures, and the key with the last. */
    method Prune(key: string, now: int) returns (kept: seq<int>)
      modifies this`failures
      ensures kept == Live(At(old(failures), key), now, window)
      ensures failures == PrunedAt(old(failures), key, kept)
    {
      kept := [];
      var times := if key in failures then failures[key] else [];
      assert times[0..] == times;
      for i := 0 to |times|
        invariant kept + Live(times[i..], now, window) == Live(times, now, window)
        invariant failures == old(failures)
      {
        LiveStep(times, i, kept, now, window);
        if now - times[i] < window {
          kept := kept + [times[i]];
        }
      }
      assert kept + [] == kept && times[|times|..] == [];
      if kept == [] {
        failures := failures - {key};
      } else {
        failures := failures[key := kept];
      }
    }

    method PruneAll(now: int)
      modifies this`failures
      ensures failures == Pruned(old(failures), now, window)
    {
      var keys := failures.Keys;
      while keys != {}
        invariant keys <= old(failures).Keys
        invariant forall k :: k in failures <==> k in keys || (k in old(failures) && k !in keys && Live(old(failures)[k], now, window) != [])
        invariant forall k | k in failures :: failures[k] == if k in keys then old(failures)[k] else Live(old(failures)[k], now, window)
        decreases keys
      {
        var k :| k in keys;
        var _ := Prune(k, now);
        keys := keys - {k};
      }
    }

    /** shrink: makes room for one more key. evicted: the keys given up for it. */
    method Shrink(now: int) returns (ghost evicted: set<string>)
      requires |failures| <= MAX_KEYS
      modifies this`failures
      ensures |failures| < MAX_KEYS && ShrunkTo(old(failures), failures, evicted, now, window)
    {
      evicted := {};
      if |failures| < MAX_KEYS {
        return;
      }
      PruneAll(now);
      ghost var pruned := failures;
      PrunedSize(old(failures), now, window);
      assert pruned - {} == pruned;
      while |failures| >= MAX_KEYS
        invariant failures == pruned - evicted && |failures| == |pruned| - |evicted|
        invariant evicted <= pruned.Keys && |evicted| <= 1
        invariant evicted != {} ==> |pruned| == MAX_KEYS
        invariant |failures| <= MAX_KEYS
        decreases |failures|
      {
        var k :| k in failures;
        assert failures.Keys - {k} == (failures - {k}).Keys;
        assert pruned - evicted - {k} == pruned - (evicted + {k});
        failures := failures - {k};
        evicted := evicted + {k};
      }
    }

    /** locked: exactly when the log holds max failures younger than window. */
    method Locked(key: string, now: int) returns (b: bool)
      requires Valid() && clock <= now
      modifies this
      ensures Valid() && log == old(log) && clock == now
      ensures b <==> |Live(At(log, key), now, window)| >= max
    {
      hide Live, At, Agree, PrunedAt;
      ghost var before := failures;
      var kept := Prune(key, now);
      PruneSize(before, key, kept, now, window);
      AgreeLater(before, log, clock, now, window);
      PrunedAgrees(before, log, key, kept, now, window);
      clock := now;
      b := |kept| >= max;
    }

    /** fail: records a failure. evicted: the keys whose failures are given up
        to keep the map bounded: none, or one when every key has a live one. */
    method Fail(key: string, now: int) returns (ghost evicted: set<string>)
      requires Valid() && clock <= now
      modifies this
      ensures Valid() && clock == now
      ensures log == (old(log) - evicted)[key := At(old(log), key) + [now]]
      ensures key !in evicted && |evicted| <= 1
      ensures evicted != {} ==> |old(failures)| == MAX_KEYS && forall k | k in old(failures) :: Live(At(old(log), k), now, window) != []
      ensures Evictable(evicted, old(log), now, window)
    {
      hide Live, At, ShrunkTo, PrunedAt, LiveKeys, Agree;
      evicted := {};
      ghost var before, was := failures, log;
      AgreeLater(before, log, clock, now, window);
      if key !in failures {
        evicted := Shrink(now);
      }
      ghost var shrunk := failures;
      ShrunkAgrees(before, shrunk, evicted, key, now, window);
      EvictedLive(before, shrunk, was, evicted, now, window);
      if evicted != {} { FullOfLive(before, was, now, window); }
      var kept := Prune(key, now);
      failures := failures[key := kept + [now]];
      log := (log - evicted)[key := At(log, key) + [now]];
      FailSize(shrunk, key, kept, failures);
      clock := now;
      FailedAgrees(before, shrunk, was, evicted, failures, log, key, kept, now, window);
    }

    /** reset: forgets the key's failures. */
    method Reset(key: string)
      requires Valid()
      modifies this
      ensures Valid() && clock == old(clock) && log == old(log) - {key} && failures == old(failures) - {key}
    {
      hide Live, At, Agree;
      CardinalityUp((failures - {key}).Keys, failures.Keys);
      ResetAgrees(failures, log, key, clock, window);
      failures := failures - {key};
      log := log - {key};
    }
  }

  lemma ResetAgrees(m: Log, log: Log, key: string, now: int, window: int)
    requires Agree(m, log, now, window)
    ensures Agree(m - {key}, log - {key}, now, window)
  {
    forall k ensures Live(At(m - {key}, k), now, window) == Live(At(log - {key}, k), now, window) {
      assert Live(At(m, k), now, window) == Live(At(log, k), now, window);
    }
  }

  lemma {:induction false} CardinalityUp<T>(a: set<T>, b: set<T>)
    requires a <= b
    ensures |a| <= |b| && (|a| == |b| ==> a == b)
    decreases a
  {
    if a != {} {
      var x :| x in a;
      CardinalityUp(a - {x}, b - {x});
    }
  }

  lemma PrunedSize(m: Log, now: int, window: int)
    ensures |Pruned(m, now, window)| <= |m|
    ensures |Pruned(m, now, window)| == |m| ==> forall k | k in m :: Live(m[k], now, window) != []
  {
    var p := Pruned(m, now, window);
    CardinalityUp(p.Keys, m.Keys);
    assert |p| == |p.Keys| && |m| == |m.Keys|;
    if |p| == |m| {
      forall k | k in m ensures Live(m[k], now, window) != [] { assert k in p.Keys; }
    }
  }

  /** Pruning and evicting change nothing live but the evicted keys. */
  lemma ShrunkKeeps(before: Log, after: Log, evicted: set<string>, now: int, window: int)
    requires after == Pruned(before, now, window) - evicted
    ensures forall k | k !in evicted :: Live(At(after, k), now, window) == Live(At(before, k), now, window)
    ensures forall k | k in evicted :: At(after, k) == []
    ensures after.Keys <= before.Keys
  {
    forall k | k !in evicted ensures Live(At(after, k), now, window) == Live(At(before, k), now, window) {
      LiveLater(At(before, k), now, now, window);
    }
  }

  lemma LiveStep(times: seq<int>, i: nat, kept: seq<int>, now: int, window: int)
    requires i < |times|
    ensures kept + Live(times[i..], now, window)
         == (if now - times[i] < window then kept + [times[i]] else kept) + Live(times[i + 1..], now, window)
  {
    assert times[i..][1..] == times[i + 1..];
  }

  /** What prune leaves of the map. */
  function PrunedAt(m: Log, key: string, kept: seq<int>): Log {
    if kept == [] then m - {key} else m[key := kept]
  }

  lemma PrunedAgrees(m: Log, log: Log, key: string, kept: seq<int>, now: int, window: int)
    requires Agree(m, log, now, window) && kept == Live(At(m, key), now, window)
    ensures Agree(PrunedAt(m, key, kept), log, now, window)
    ensures kept == Live(At(log, key), now, window)
  {
    forall k ensures Live(At(PrunedAt(m, key, kept), k), now, window) == Live(At(log, k), now, window) {
      assert Live(At(m, k), now, window) == Live(At(log, k), now, window);
      if k == key { LiveLater(At(m, key), now, now, window); }
    }
  }

  lemma PruneSize(m: Log, key: string, kept: seq<int>, now: int, window: int)
    requires kept == Live(At(m, key), now, window)
    ensures |PrunedAt(m, key, kept)| <= |m|
  {
    var p := PrunedAt(m, key, kept);
    assert p.Keys <= m.Keys;
    CardinalityUp(p.Keys, m.Keys);
    assert |p| == |p.Keys| && |m| == |m.Keys|;
  }

  /** What shrink does: nothing, or everything expired dropped and, only when
      nothing was, one key evicted. */
  ghost predicate ShrunkTo(before: Log, after: Log, evicted: set<string>, now: int, window: int) {
    && (if |before| < MAX_KEYS then after == before && evicted == {} else after == Pruned(before, now, window) - evicted)
    && |evicted| <= 1 && evicted <= before.Keys
    && (evicted != {} ==> |before| == MAX_KEYS && forall k | k in before :: Live(before[k], now, window) != [])
  }

  lemma ShrunkAgrees(before: Log, shrunk: Log, evicted: set<string>, key: string, now: int, window: int)
    requires (key in before && evicted == {} && shrunk == before) || (key !in before && ShrunkTo(before, shrunk, evicted, now, window))
    ensures forall k | k !in evicted :: Live(At(shrunk, k), now, window) == Live(At(before, k), now, window)
    ensures forall k | k in evicted :: At(shrunk, k) == []
    ensures key in shrunk <==> key in before
    ensures key !in evicted && |evicted| <= 1
  {
    if shrunk != before { ShrunkKeeps(before, shrunk, evicted, now, window); }
  }

  lemma EvictedLive(before: Log, shrunk: Log, was: Log, evicted: set<string>, now: int, window: int)
    requires Agree(before, was, now, window)
    requires (evicted == {} && shrunk == before) || ShrunkTo(before, shrunk, evicted, now, window)
    ensures evicted != {} ==> |before| == MAX_KEYS && forall k | k in before :: Live(At(was, k), now, window) != []
  {
  }

  lemma FullOfLive(before: Log, was: Log, now: int, window: int)
    requires |before| == MAX_KEYS && forall k | k in before :: Live(At(was, k), now, window) != []
    ensures |LiveKeys(was, now, window)| >= MAX_KEYS
  {
    forall k | k in before ensures k in LiveKeys(was, now, window) { assert Live(At(was, k), now, window) != []; }
    CardinalityUp(before.Keys, LiveKeys(was, now, window));
    assert |before| == |before.Keys|;
  }

  lemma FailSize(shrunk: Log, key: string, kept: seq<int>, after: Log)
    requires after.Keys == PrunedAt(shrunk, key, kept).Keys + {key}
    requires |shrunk| <= MAX_KEYS && (key !in shrunk ==> |shrunk| < MAX_KEYS)
    ensures |after| <= MAX_KEYS
  {
    assert after.Keys == shrunk.Keys + {key};
    if key in shrunk { assert shrunk.Keys + {key} == shrunk.Keys; }
    assert |after| == |after.Keys| && |shrunk| == |shrunk.Keys|;
  }

  lemma FailedAgrees(before: Log, shrunk: Log, was: Log, evicted: set<string>, after: Log, log: Log, key: string, kept: seq<int>, now: int, window: int)
    requires Agree(before, was, now, window)
    requires forall j | j !in evicted :: Live(At(shrunk, j), now, window) == Live(At(before, j), now, window)
    requires forall j | j in evicted :: At(shrunk, j) == []
    requires key !in evicted && kept == Live(At(shrunk, key), now, window)
    requires after == PrunedAt(shrunk, key, kept)[key := kept + [now]]
    requires log == (was - evicted)[key := At(was, key) + [now]]
    ensures Agree(after, log, now, window)
  {
    hide Live;
    forall k ensures Live(At(after, k), now, window) == Live(At(log, k), now, window) {
      assert Live(At(before, k), now, window) == Live(At(was, k), now, window);
      if k == key {
        LiveLater(At(shrunk, key), now, now, window);
        LiveJoin(kept, [now], now, window);
        LiveJoin(At(was, key), [now], now, window);
      } else {
        assert At(after, k) == At(shrunk, k);
        assert At(log, k) == if k in evicted then [] else At(was, k);
      }
    }
  }

  // ---- spacing ----

  /** Any max+1 failures in a row of one key span at least window. */
  ghost predicate Spaced(times: seq<int>, max: nat, window: int) {
    forall i | 0 <= i && i + max < |times| :: times[i + max] - times[i] >= window
  }

  ghost predicate Ascending(times: seq<int>, now: int) {
    && (forall i, j | 0 <= i < j < |times| :: times[i] <= times[j])
    && (forall i | 0 <= i < |times| :: times[i] <= now)
  }

  /** Of ascending times the last |live| are the live ones. */
  lemma {:induction false} LiveSuffix(times: seq<int>, now: int, window: int)
    requires Ascending(times, now)
    ensures |Live(times, now, window)| <= |times|
    ensures forall i | 0 <= i < |times| - |Live(times, now, window)| :: now - times[i] >= window
  {
    if times != [] {
      LiveSuffix(times[1..], now, window);
      if now - times[0] < window {
        AllLive(times, now, window);
      } else {
        assert forall i | 1 <= i < |times| :: times[i] == times[1..][i - 1];
      }
    }
  }

  lemma {:induction false} AllLive(times: seq<int>, now: int, window: int)
    requires Ascending(times, now) && (times != [] ==> now - times[0] < window)
    ensures |Live(times, now, window)| == |times|
  {
    if times != [] {
      AllLive(times[1..], now, window);
    }
  }

  /** A failure recorded after the key was found not locked keeps the spacing. */
  lemma FailSpaced(times: seq<int>, max: nat, window: int, checked: int, now: int)
    requires Ascending(times, checked) && Spaced(times, max, window) && checked <= now
    requires |Live(times, checked, window)| < max
    ensures Spaced(times + [now], max, window) && Ascending(times + [now], now)
  {
    LiveSuffix(times, checked, window);
  }
}
