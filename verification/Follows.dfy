/** The follow registries (internal/api/eventlogs.go, internal/api/events.go):
    a map from a page's key to the stop channel of the one worker that follows
    for it, changed by swap, load-and-delete and compare-and-delete. */
module Follows {
  import opened Text

  /** Ready: made and registered, its goroutine not started; Live: following;
      Ending: its loop returned (stopped or on its own), its deferred
      compare-and-delete to come; Ended. */
  datatype Stage = Ready | Live | Ending | Ended

  /** A worker is known by its stop channel; closes: how often that was closed. */
  datatype Worker = Worker(key: string, stage: Stage, closes: nat)

  /** A request: the channel it took out of the map and is about to close, and
      the worker it has registered and is about to start. */
  datatype Request = Request(closing: Option<nat>, starting: Option<nat>)

  datatype State = State(reg: map<string, nat>, workers: map<nat, Worker>, requests: map<nat, Request>)

  predicate Init(s: State) {
    s.reg == map[] && s.workers == map[] && s.requests == map[]
  }

  predicate Idle(s: State, r: nat) {
    r in s.requests ==> s.requests[r] == Request(None, None)
  }

  // ---- steps ----

  /** LoadAndDelete(key), by an unfollow and by every ask of eventTurn. */
  predicate TakeOut(s: State, s': State, r: nat, key: string) {
    && Idle(s, r) && key in s.reg
    && s' == s.(reg := s.reg - {key}, requests := s.requests[r := Request(Some(s.reg[key]), None)])
  }

  /** Swap(key, c) with a new channel c. */
  predicate Swap(s: State, s': State, r: nat, key: string, c: nat) {
    && Idle(s, r) && c !in s.workers
    && s' == State(s.reg[key := c], s.workers[c := Worker(key, Ready, 0)],
                   s.requests[r := Request(if key in s.reg then Some(s.reg[key]) else None, Some(c))])
  }

  /** close(old): closing a closed channel panics. */
  predicate Close(s: State, s': State, r: nat) {
    && r in s.requests && s.requests[r].closing.Some? && s.requests[r].closing.value in s.workers
    && var c := s.requests[r].closing.value;
       s' == s.(workers := s.workers[c := s.workers[c].(closes := s.workers[c].closes + 1)],
                requests := s.requests[r := s.requests[r].(closing := None)])
  }

  /** `go func`, after the close. */
  predicate Spawn(s: State, s': State, r: nat) {
    && r in s.requests && s.requests[r].closing.None? && s.requests[r].starting.Some? && s.requests[r].starting.value in s.workers
    && var c := s.requests[r].starting.value;
       s' == s.(workers := s.workers[c := s.workers[c].(stage := Live)], requests := s.requests[r := Request(None, None)])
  }

  /** The loop returns: its channel is closed, or its page or its source is gone. */
  predicate Return(s: State, s': State, c: nat) {
    c in s.workers && s.workers[c].stage.Live? && s' == s.(workers := s.workers[c := s.workers[c].(stage := Ending)])
  }

  /** CompareAndDelete(key, c). */
  predicate Leave(s: State, s': State, c: nat) {
    && c in s.workers && s.workers[c].stage.Ending?
    && s' == s.(reg := if Registered(s, c) then s.reg - {s.workers[c].key} else s.reg,
                workers := s.workers[c := s.workers[c].(stage := Ended)])
  }

  ghost predicate Step(s: State, s': State) {
    || s' == s
    || (exists r, key :: TakeOut(s, s', r, key))
    || (exists r, key, c :: Swap(s, s', r, key, c))
    || (exists r :: Close(s, s', r))
    || (exists r :: Spawn(s, s', r))
    || (exists c :: Return(s, s', c))
    || (exists c :: Leave(s, s', c))
  }

  // ---- the invariant ----

  predicate Registered(s: State, c: nat)
    requires c in s.workers
  {
    s.workers[c].key in s.reg && s.reg[s.workers[c].key] == c
  }

  predicate Closing(s: State, r: nat, c: nat) {
    r in s.requests && s.requests[r].closing == Some(c)
  }

  predicate Starting(s: State, r: nat, c: nat) {
    r in s.requests && s.requests[r].starting == Some(c)
  }

  /** A channel is registered, about to be closed by one request, closed once,
      or was taken out by its own worker; and only one of these. */
  ghost predicate WorkerOk(s: State, c: nat)
    requires c in s.workers
  {
    var w := s.workers[c];
    && w.closes <= 1
    && (Registered(s, c) ==> w.closes == 0 && !w.stage.Ended? && forall r :: !Closing(s, r, c))
    && (w.closes == 1 ==> forall r :: !Closing(s, r, c))
    && (!Registered(s, c) && w.closes == 0 && !w.stage.Ended? ==> exists r :: Closing(s, r, c))
    && (w.stage.Ready? ==> exists r :: Starting(s, r, c))
  }

  ghost predicate Inv(s: State) {
    && (forall c | c in s.workers :: WorkerOk(s, c))
    && (forall k | k in s.reg :: s.reg[k] in s.workers && s.workers[s.reg[k]].key == k)
    && (forall r, c | Closing(s, r, c) :: c in s.workers)
    && (forall r, q, c | Closing(s, r, c) && Closing(s, q, c) :: r == q)
    && (forall r, c | Starting(s, r, c) :: c in s.workers && s.workers[c].stage.Ready?)
    && (forall r, q, c | Starting(s, r, c) && Starting(s, q, c) :: r == q)
  }

  lemma TakeOutKeeps(s: State, s': State, r: nat, key: string)
    requires Inv(s) && TakeOut(s, s', r, key)
    ensures Inv(s')
  {
    var was := s.reg[key];
    assert WorkerOk(s, was) && Closing(s', r, was);
    assert forall q, c :: Closing(s', q, c) <==> (q == r && c == was) || Closing(s, q, c);
    assert forall q, c :: Starting(s', q, c) <==> Starting(s, q, c);
    forall c | c in s'.workers ensures WorkerOk(s', c) { assert WorkerOk(s, c); }
  }

  lemma SwapKeeps(s: State, s': State, r: nat, key: string, c: nat)
    requires Inv(s) && Swap(s, s', r, key, c)
    ensures Inv(s')
  {
    assert Starting(s', r, c);
    assert forall q, x :: Closing(s', q, x) <==> (q == r && key in s.reg && x == s.reg[key]) || Closing(s, q, x);
    assert forall q, x :: Starting(s', q, x) <==> (q == r && x == c) || Starting(s, q, x);
    forall x | x in s'.workers ensures WorkerOk(s', x) {
      if x != c {
        assert WorkerOk(s, x);
        if key in s.reg && x == s.reg[key] { assert Closing(s', r, x); }
      }
    }
  }

  lemma CloseKeeps(s: State, s': State, r: nat)
    requires Inv(s) && Close(s, s', r)
    ensures Inv(s') && s.workers[s.requests[r].closing.value].closes == 0
  {
    var c := s.requests[r].closing.value;
    assert Closing(s, r, c) && WorkerOk(s, c);
    assert forall q, x :: Closing(s', q, x) <==> q != r && Closing(s, q, x);
    assert forall q, x :: Starting(s', q, x) <==> Starting(s, q, x);
    forall x | x in s'.workers ensures WorkerOk(s', x) {
      assert WorkerOk(s, x);
      assert Registered(s', x) <==> Registered(s, x);
      if x != c && !Registered(s, x) && s.workers[x].closes == 0 && !s.workers[x].stage.Ended? {
        var q :| Closing(s, q, x);
        assert Closing(s', q, x);
      }
    }
  }

  lemma SpawnKeeps(s: State, s': State, r: nat)
    requires Inv(s) && Spawn(s, s', r)
    ensures Inv(s')
  {
    var c := s.requests[r].starting.value;
    assert Starting(s, r, c);
    assert forall q, x :: Closing(s', q, x) <==> Closing(s, q, x);
    assert forall q, x :: Starting(s', q, x) <==> q != r && Starting(s, q, x);
    forall x | x in s'.workers ensures WorkerOk(s', x) {
      assert WorkerOk(s, x);
      assert Registered(s', x) <==> Registered(s, x);
      if s'.workers[x].stage.Ready? {
        var q :| Starting(s, q, x);
        assert Starting(s', q, x);
      }
    }
  }

  lemma ReturnKeeps(s: State, s': State, c: nat)
    requires Inv(s) && Return(s, s', c)
    ensures Inv(s')
  {
    assert forall q, x :: Closing(s', q, x) <==> Closing(s, q, x);
    assert forall q, x :: Starting(s', q, x) <==> Starting(s, q, x);
    forall x | x in s'.workers ensures WorkerOk(s', x) {
      assert WorkerOk(s, x);
      assert Registered(s', x) <==> Registered(s, x);
    }
  }

  lemma LeaveKeeps(s: State, s': State, c: nat)
    requires Inv(s) && Leave(s, s', c)
    ensures Inv(s')
  {
    assert forall q, x :: Closing(s', q, x) <==> Closing(s, q, x);
    assert forall q, x :: Starting(s', q, x) <==> Starting(s, q, x);
    forall x | x in s'.workers ensures WorkerOk(s', x) {
      assert WorkerOk(s, x);
      assert x != c ==> (Registered(s', x) <==> Registered(s, x));
    }
  }

  lemma StepKeepsInv(s: State, s': State)
    requires Inv(s) && Step(s, s')
    ensures Inv(s')
  {
    hide Inv, TakeOut, Swap, Close, Spawn, Return, Leave;
    if r, key :| TakeOut(s, s', r, key) {
      TakeOutKeeps(s, s', r, key);
    } else if r, key, c :| Swap(s, s', r, key, c) {
      SwapKeeps(s, s', r, key, c);
    } else if r :| Close(s, s', r) {
      CloseKeeps(s, s', r);
    } else if r :| Spawn(s, s', r) {
      SpawnKeeps(s, s', r);
    } else if c :| Return(s, s', c) {
      ReturnKeeps(s, s', c);
    } else if c :| Leave(s, s', c) {
      LeaveKeeps(s, s', c);
    }
  }

  // ---- whole runs ----

  ghost predicate StepTo(t: seq<State>, i: nat)
    requires 0 < i < |t|
  {
    Step(t[i - 1], t[i])
  }

  ghost predicate Run(t: seq<State>) {
    t != [] && Init(t[0]) && forall i | 0 < i < |t| :: StepTo(t, i)
  }

  lemma {:induction false} RunInv(t: seq<State>, i: nat)
    requires Run(t) && i < |t|
    ensures Inv(t[i])
  {
    if i > 0 {
      RunInv(t, i - 1);
      assert StepTo(t, i);
      StepKeepsInv(t[i - 1], t[i]);
    }
  }

  /** No stop channel is closed twice: a request about to close one is the only
      one, and finds it open. */
  lemma ClosedOnce(t: seq<State>, i: nat, r: nat, c: nat)
    requires Run(t) && i < |t| && Closing(t[i], r, c)
    ensures c in t[i].workers && t[i].workers[c].closes == 0 && forall q :: Closing(t[i], q, c) ==> q == r
  {
    RunInv(t, i);
    assert WorkerOk(t[i], c);
  }

  /** A follower that is not in the map has ended, has been stopped, or one
      request is about to stop it: none is left following unseen. */
  lemma AbsentIsStopped(t: seq<State>, i: nat, c: nat)
    requires Run(t) && i < |t| && c in t[i].workers && !Registered(t[i], c)
    ensures t[i].workers[c].stage.Ended? || t[i].workers[c].closes == 1 || exists r :: Closing(t[i], r, c)
    ensures t[i].workers[c].closes <= 1
  {
    RunInv(t, i);
    assert WorkerOk(t[i], c);
  }

  /** The worker the map names for a key is that key's, open, and not over. */
  lemma RegisteredIsOpen(t: seq<State>, i: nat, key: string)
    requires Run(t) && i < |t| && key in t[i].reg
    ensures t[i].reg[key] in t[i].workers && t[i].workers[t[i].reg[key]].key == key
    ensures t[i].workers[t[i].reg[key]].closes == 0 && !t[i].workers[t[i].reg[key]].stage.Ended?
  {
    RunInv(t, i);
    assert WorkerOk(t[i], t[i].reg[key]);
  }

  /** A request changes this key's entry, or its own worker leaves. */
  ghost predicate Touches(s: State, s': State, key: string, c: nat) {
    (exists r :: TakeOut(s, s', r, key)) || (exists r, d :: Swap(s, s', r, key, d)) || Leave(s, s', c)
  }

  /** A worker stays registered until a request on its key or its own end takes
      it out: another worker's end never removes the one that replaced it. */
  lemma {:induction false} EntryHeld(t: seq<State>, i: nat, j: nat, key: string, c: nat)
    requires Run(t) && i <= j < |t| && key in t[i].reg && t[i].reg[key] == c
    requires forall m | i < m <= j :: !Touches(t[m - 1], t[m], key, c)
    ensures key in t[j].reg && t[j].reg[key] == c
  {
    if i < j {
      EntryHeld(t, i, j - 1, key, c);
      RunInv(t, j - 1);
      assert StepTo(t, j) && !Touches(t[j - 1], t[j], key, c);
    }
  }

  /** With every request done, one worker follows for each key at most: any
      other is closed or over. */
  lemma OneFollowerAKey(t: seq<State>, i: nat, c: nat, d: nat)
    requires Run(t) && i < |t| && c in t[i].workers && d in t[i].workers && t[i].workers[c].key == t[i].workers[d].key
    requires forall r :: Idle(t[i], r)
    requires t[i].workers[c].closes == 0 && t[i].workers[d].closes == 0
    requires !t[i].workers[c].stage.Ended? && !t[i].workers[d].stage.Ended?
    ensures c == d && t[i].workers[c].stage != Ready
  {
    RunInv(t, i);
    assert WorkerOk(t[i], c) && WorkerOk(t[i], d);
    forall r, x ensures !Closing(t[i], r, x) && !Starting(t[i], r, x) { assert Idle(t[i], r); }
  }

  // ---- what a request does ----

  /** Nothing but these workers changes. */
  ghost predicate OnlyWorkers(s: State, s': State, cs: set<nat>) {
    forall c | c in s.workers && c !in cs :: c in s'.workers && s'.workers[c] == s.workers[c]
  }

  /** A follow can be carried through: the new worker follows for its key, and the
      one that did is stopped. */
  lemma FollowTakesOver(s: State, r: nat, key: string, c: nat) returns (path: seq<State>)
    requires Inv(s) && Idle(s, r) && c !in s.workers
    ensures |path| > 0 && path[0] == s && forall i | 0 < i < |path| :: Step(path[i - 1], path[i])
    ensures var t := path[|path| - 1];
            && t.reg == s.reg[key := c] && c in t.workers && t.workers[c] == Worker(key, Live, 0) && Idle(t, r)
            && (key in s.reg ==> s.reg[key] in t.workers && t.workers[s.reg[key]].closes == 1 && OnlyWorkers(s, t, {s.reg[key]}))
            && (key !in s.reg ==> OnlyWorkers(s, t, {}))
  {
    var old' := if key in s.reg then Some(s.reg[key]) else None;
    var s1 := State(s.reg[key := c], s.workers[c := Worker(key, Ready, 0)], s.requests[r := Request(old', Some(c))]);
    assert Swap(s, s1, r, key, c);
    if key in s.reg {
      var was := s.reg[key];
      assert WorkerOk(s, was) && Registered(s, was);
      var s2 := s1.(workers := s1.workers[was := s1.workers[was].(closes := 1)], requests := s1.requests[r := Request(None, Some(c))]);
      var s3 := s2.(workers := s2.workers[c := Worker(key, Live, 0)], requests := s2.requests[r := Request(None, None)]);
      assert Close(s1, s2, r) && Spawn(s2, s3, r);
      path := [s, s1, s2, s3];
    } else {
      var s2 := s1.(workers := s1.workers[c := Worker(key, Live, 0)], requests := s1.requests[r := Request(None, None)]);
      assert Spawn(s1, s2, r);
      path := [s, s1, s2];
    }
  }

  /** So can an unfollow: the key's worker is out of the map, and stopped. */
  lemma UnfollowStops(s: State, r: nat, key: string) returns (path: seq<State>)
    requires Inv(s) && Idle(s, r) && key in s.reg
    ensures |path| > 0 && path[0] == s && forall i | 0 < i < |path| :: Step(path[i - 1], path[i])
    ensures var t := path[|path| - 1];
            && t.reg == s.reg - {key} && Idle(t, r)
            && s.reg[key] in t.workers && t.workers[s.reg[key]].closes == 1 && OnlyWorkers(s, t, {s.reg[key]})
  {
    var was := s.reg[key];
    assert WorkerOk(s, was) && Registered(s, was);
    var s1 := s.(reg := s.reg - {key}, requests := s.requests[r := Request(Some(was), None)]);
    var s2 := s1.(workers := s1.workers[was := s1.workers[was].(closes := 1)], requests := s1.requests[r := Request(None, None)]);
    assert TakeOut(s, s1, r, key) && Close(s1, s2, r);
    path := [s, s1, s2];
  }

  /** A worker that ends on its own takes itself out of the map, and only itself. */
  lemma EndTakesOut(s: State, c: nat) returns (path: seq<State>)
    requires Inv(s) && c in s.workers && s.workers[c].stage.Live?
    ensures |path| > 0 && path[0] == s && forall i | 0 < i < |path| :: Step(path[i - 1], path[i])
    ensures var t := path[|path| - 1];
            && c in t.workers && t.workers[c].stage.Ended? && OnlyWorkers(s, t, {c})
            && forall k :: k in t.reg <==> k in s.reg && s.reg[k] != c
  {
    var s1 := s.(workers := s.workers[c := s.workers[c].(stage := Ending)]);
    var s2 := s1.(reg := if Registered(s1, c) then s1.reg - {s1.workers[c].key} else s1.reg,
                  workers := s1.workers[c := s1.workers[c].(stage := Ended)]);
    assert Return(s, s1, c) && Leave(s1, s2, c);
    path := [s, s1, s2];
  }
}
