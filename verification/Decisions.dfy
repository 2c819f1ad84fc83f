/** Deciding one proposal (internal/actions/actions.go, internal/deciding): any
    number of concurrent Decide, Queue and DecideAlways calls on one action,
    interleaved at their claim, reads, effect and store updates. */
module Decisions {
  import opened Text

  datatype Status = Pending | Queued | Done | Failed | Rejected

  predicate Terminal(s: Status) {
    s.Done? || s.Failed? || s.Rejected?
  }

  /** Always(mayAlways): DecideAlways; mayAlways: the command has a pattern
      that may be allowed and its proposer is known. */
  datatype Call = Decide(approve: bool) | Queue | Always(mayAlways: bool)

  /** Where a call is. */
  datatype Pc =
    | Looking              // DecideAlways: before its own read
    | Claiming             // before deciding.Begin
    | Claimed              // has the claim, before its read
    | Read(seen: Status)   // has the claim and the row it read
    | Ran(to: Status)      // carried out, before its result is stored
    | Ending(ok: bool)     // stored (or refused), before deciding.End
    | Allowing             // DecideAlways: decided, before the permission is saved
    | Returned(ok: bool)   // ok: without ErrDecided

  /** What carrying the action out would come to: it cannot be (its folder is
      gone), it succeeds, or it errs. */
  datatype Effect = Impossible | Succeeds | Errs

  datatype Thread = Thread(call: Call, effect: Effect, pc: Pc)

  /** status, decider: the row; claim: the entry of `deciding`; ran: whose calls
      carried the action out; allowed: whose calls saved a permission. */
  datatype State = State(status: Status, decider: Option<nat>, claim: Option<nat>, calls: map<nat, Thread>, ran: seq<nat>, allowed: set<nat>)

  predicate Init(s: State) {
    s.status.Pending? && s.decider.None? && s.claim.None? && s.calls == map[] && s.ran == [] && s.allowed == {}
  }

  function At(s: State, t: nat, pc: Pc): State
    requires t in s.calls
  {
    s.(calls := s.calls[t := s.calls[t].(pc := pc)])
  }

  predicate Approves(c: Call) {
    c.Always? || (c.Decide? && c.approve)
  }

  // ---- steps ----

  predicate Arrive(s: State, s': State, t: nat, call: Call, effect: Effect) {
    t !in s.calls && s' == s.(calls := s.calls[t := Thread(call, effect, if call.Always? then Looking else Claiming)])
  }

  /** DecideAlways reads the row without the claim and may give up. */
  predicate Look(s: State, s': State, t: nat) {
    t in s.calls && s.calls[t].pc.Looking?
    && (s' == At(s, t, Returned(false))
        || (s.status.Pending? && s.calls[t].call.Always? && s.calls[t].call.mayAlways && s' == At(s, t, Claiming)))
  }

  predicate Begin(s: State, s': State, t: nat) {
    t in s.calls && s.calls[t].pc.Claiming?
    && s' == if s.claim.Some? then At(s, t, Returned(false)) else At(s, t, Claimed).(claim := Some(t))
  }

  /** Reads the row, or fails to. */
  predicate Get(s: State, s': State, t: nat) {
    t in s.calls && s.calls[t].pc.Claimed?
    && (s' == At(s, t, Read(s.status)) || s' == At(s, t, Ending(false)))
  }

  predicate MayDecide(c: Call, seen: Status) {
    seen.Pending? || (seen.Queued? && !c.Queue?)
  }

  predicate Refuse(s: State, s': State, t: nat) {
    t in s.calls && s.calls[t].pc.Read? && !MayDecide(s.calls[t].call, s.calls[t].pc.seen)
    && s' == At(s, t, Ending(false))
  }

  predicate Reject(s: State, s': State, t: nat) {
    t in s.calls && s.calls[t].pc.Read? && MayDecide(s.calls[t].call, s.calls[t].pc.seen)
    && s.calls[t].call == Decide(false)
    && s' == At(s, t, Ending(true)).(status := Rejected, decider := Some(t))
  }

  predicate Enqueue(s: State, s': State, t: nat) {
    t in s.calls && s.calls[t].pc.Read? && MayDecide(s.calls[t].call, s.calls[t].pc.seen)
    && s.calls[t].call.Queue?
    && s' == At(s, t, Ending(true)).(status := Queued, decider := Some(t))
  }

  /** How the row is stored, and who carried the action out, after that. */
  function Comes(effect: Effect): Status {
    if effect.Succeeds? then Done else Failed
  }

  function RanBy(t: nat, effect: Effect): seq<nat> {
    if effect.Impossible? then [] else [t]
  }

  /** Carries the action out, or finds it cannot be. */
  predicate Carry(s: State, s': State, t: nat) {
    t in s.calls && s.calls[t].pc.Read? && MayDecide(s.calls[t].call, s.calls[t].pc.seen)
    && Approves(s.calls[t].call)
    && s' == At(s, t, Ran(Comes(s.calls[t].effect))).(ran := s.ran + RanBy(t, s.calls[t].effect))
  }

  predicate Record(s: State, s': State, t: nat) {
    t in s.calls && s.calls[t].pc.Ran?
    && s' == At(s, t, Ending(true)).(status := s.calls[t].pc.to, decider := Some(t))
  }

  predicate End(s: State, s': State, t: nat) {
    t in s.calls && s.calls[t].pc.Ending?
    && s' == At(s, t, if s.calls[t].call.Always? && s.calls[t].pc.ok then Allowing else Returned(s.calls[t].pc.ok)).(claim := None)
  }

  /** perm.AllowAlways, which may fail. */
  predicate Allow(s: State, s': State, t: nat) {
    t in s.calls && s.calls[t].pc.Allowing?
    && (s' == At(s, t, Returned(true)) || s' == At(s, t, Returned(true)).(allowed := s.allowed + {t}))
  }

  predicate Move(s: State, s': State, t: nat) {
    || Look(s, s', t) || Begin(s, s', t) || Get(s, s', t) || Refuse(s, s', t) || Reject(s, s', t)
    || Enqueue(s, s', t) || Carry(s, s', t) || Record(s, s', t) || End(s, s', t) || Allow(s, s', t)
  }

  ghost predicate Step(s: State, s': State) {
    || s' == s
    || (exists t, call, effect :: Arrive(s, s', t, call, effect))
    || (exists t :: Move(s, s', t))
  }

  // ---- the invariant ----

  predicate Holding(pc: Pc) {
    pc.Claimed? || pc.Read? || pc.Ran? || pc.Ending?
  }

  /** t's decision of the action is the one stored. */
  predicate Decided(s: State, t: nat) {
    s.decider == Some(t) && Terminal(s.status)
  }

  predicate ThreadOk(s: State, t: nat)
    requires t in s.calls
  {
    var th := s.calls[t];
    && (Holding(th.pc) ==> s.claim == Some(t))
    && (th.pc.Looking? ==> th.call.Always?)
    && (th.call == Always(false) ==> th.pc.Looking? || th.pc == Returned(false))
    && (th.pc.Read? ==> th.pc.seen == s.status)
    && (th.pc.Ran? ==> Approves(th.call) && !Terminal(s.status) && th.pc.to == Comes(th.effect) && s.ran == RanBy(t, th.effect))
    && ((th.pc == Ending(true) || th.pc == Returned(true)) && !th.call.Queue? ==> Decided(s, t) && (s.status.Rejected? <==> th.call == Decide(false)))
    && (th.pc.Allowing? ==> th.call.Always? && Decided(s, t) && !s.status.Rejected?)
  }

  predicate RanOk(s: State)
    requires s.ran != []
  {
    && |s.ran| == 1 && s.ran[0] in s.calls
    && if Terminal(s.status) then Decided(s, s.ran[0]) && !s.status.Rejected?
       else s.claim == Some(s.ran[0]) && s.calls[s.ran[0]].pc.Ran?
  }

  ghost predicate Inv(s: State) {
    RowOk(s) && forall t | t in s.calls :: ThreadOk(s, t)
  }

  ghost predicate RowOk(s: State) {
    && (s.claim.Some? ==> s.claim.value in s.calls && Holding(s.calls[s.claim.value].pc))
    && (s.ran != [] ==> RanOk(s))
    && (s.status.Done? ==> s.ran != [])
    && (Terminal(s.status) ==> s.decider.Some?)
    && (s.decider.Some? ==> s.decider.value in s.calls && s.calls[s.decider.value].call != Always(false))
    && (Terminal(s.status) && !s.status.Rejected? ==>
          && s.decider.value in s.calls
          && var th := s.calls[s.decider.value];
             Approves(th.call) && s.status == Comes(th.effect) && s.ran == RanBy(s.decider.value, th.effect))
    && (forall t | t in s.allowed :: t in s.calls && s.calls[t].call.Always? && s.calls[t].pc == Returned(true))
  }

  lemma OthersKeep(s: State, s': State, t: nat, u: nat)
    requires Inv(s) && Move(s, s', t) && u in s.calls && u != t
    ensures u in s'.calls && s'.calls[u] == s.calls[u] && ThreadOk(s', u)
  {
    assert ThreadOk(s, t) && ThreadOk(s, u);
  }

  lemma LookRow(s: State, s': State, t: nat)
    requires RowOk(s) && Look(s, s', t) && ThreadOk(s, t)
    ensures t in s'.calls && RowOk(s') && ThreadOk(s', t)
  {
  }

  lemma BeginRow(s: State, s': State, t: nat)
    requires RowOk(s) && Begin(s, s', t) && ThreadOk(s, t)
    ensures t in s'.calls && RowOk(s') && ThreadOk(s', t)
  {
  }

  lemma GetRow(s: State, s': State, t: nat)
    requires RowOk(s) && Get(s, s', t) && ThreadOk(s, t)
    ensures t in s'.calls && RowOk(s') && ThreadOk(s', t)
  {
  }

  lemma RefuseRow(s: State, s': State, t: nat)
    requires RowOk(s) && Refuse(s, s', t) && ThreadOk(s, t)
    ensures t in s'.calls && RowOk(s') && ThreadOk(s', t)
  {
  }

  lemma RejectRow(s: State, s': State, t: nat)
    requires RowOk(s) && Reject(s, s', t) && ThreadOk(s, t)
    ensures t in s'.calls && RowOk(s') && ThreadOk(s', t)
  {
  }

  lemma EnqueueRow(s: State, s': State, t: nat)
    requires RowOk(s) && Enqueue(s, s', t) && ThreadOk(s, t)
    ensures t in s'.calls && RowOk(s') && ThreadOk(s', t)
  {
  }

  lemma CarryRow(s: State, s': State, t: nat)
    requires RowOk(s) && Carry(s, s', t) && ThreadOk(s, t)
    ensures t in s'.calls && RowOk(s') && ThreadOk(s', t)
  {
  }

  lemma RecordRow(s: State, s': State, t: nat)
    requires RowOk(s) && Record(s, s', t) && ThreadOk(s, t)
    ensures t in s'.calls && RowOk(s') && ThreadOk(s', t)
  {
  }

  lemma EndRow(s: State, s': State, t: nat)
    requires RowOk(s) && End(s, s', t) && ThreadOk(s, t)
    ensures t in s'.calls && RowOk(s') && ThreadOk(s', t)
  {
  }

  lemma AllowRow(s: State, s': State, t: nat)
    requires RowOk(s) && Allow(s, s', t) && ThreadOk(s, t)
    ensures t in s'.calls && RowOk(s') && ThreadOk(s', t)
  {
  }

  lemma MoveRow(s: State, s': State, t: nat)
    requires RowOk(s) && Move(s, s', t) && t in s.calls && ThreadOk(s, t)
    ensures t in s'.calls && RowOk(s') && ThreadOk(s', t)
  {
    hide RowOk, ThreadOk, Look, Begin, Get, Refuse, Reject, Enqueue, Carry, Record, End, Allow;
    if Look(s, s', t) {
      LookRow(s, s', t);
    } else if Begin(s, s', t) {
      BeginRow(s, s', t);
    } else if Get(s, s', t) {
      GetRow(s, s', t);
    } else if Refuse(s, s', t) {
      RefuseRow(s, s', t);
    } else if Reject(s, s', t) {
      RejectRow(s, s', t);
    } else if Enqueue(s, s', t) {
      EnqueueRow(s, s', t);
    } else if Carry(s, s', t) {
      CarryRow(s, s', t);
    } else if Record(s, s', t) {
      RecordRow(s, s', t);
    } else if End(s, s', t) {
      EndRow(s, s', t);
    } else if Allow(s, s', t) {
      AllowRow(s, s', t);
    }
  }

  lemma MoveKeepsInv(s: State, s': State, t: nat)
    requires Inv(s) && Move(s, s', t)
    ensures Inv(s')
  {
    hide RowOk, ThreadOk, Move;
    Mover(s, s', t);
    MoveRow(s, s', t);
    forall u | u in s'.calls ensures ThreadOk(s', u) {
      if u != t {
        OthersKeep(s, s', t, u);
      }
    }
  }

  lemma Mover(s: State, s': State, t: nat)
    requires Move(s, s', t)
    ensures t in s.calls && s'.calls.Keys == s.calls.Keys
  {
  }

  lemma StepKeepsInv(s: State, s': State)
    requires Inv(s) && Step(s, s')
    ensures Inv(s')
  {
    if t :| Move(s, s', t) {
      MoveKeepsInv(s, s', t);
    } else if t, call, effect :| Arrive(s, s', t, call, effect) {
      forall u | u in s'.calls ensures ThreadOk(s', u) {
        if u != t { assert ThreadOk(s, u); }
      }
    }
  }

  // ---- whole runs ----

  ghost predicate StepTo(r: seq<State>, i: nat)
    requires 0 < i < |r|
  {
    Step(r[i - 1], r[i])
  }

  ghost predicate Run(r: seq<State>) {
    r != [] && Init(r[0]) && forall i | 0 < i < |r| :: StepTo(r, i)
  }

  lemma {:induction false} RunInv(r: seq<State>, i: nat)
    requires Run(r) && i < |r|
    ensures Inv(r[i])
  {
    if i > 0 {
      RunInv(r, i - 1);
      assert StepTo(r, i);
      StepKeepsInv(r[i - 1], r[i]);
    }
  }

  /** What one step may do to the row. */
  lemma StepOfRow(s: State, s': State)
    requires Inv(s) && Step(s, s')
    ensures Terminal(s.status) ==> s'.status == s.status && s'.decider == s.decider && s'.ran == s.ran
    ensures s'.status.Queued? && !s.status.Queued? ==> s.status.Pending?
    ensures s'.status.Pending? ==> s.status.Pending?
    ensures s.ran <= s'.ran && s.allowed <= s'.allowed
  {
    if t :| Move(s, s', t) {
      assert ThreadOk(s, t);
    }
  }

  /** The action is carried out at most once, whatever the interleaving; never
      when it ends rejected; and it is stored as done only when it was. */
  lemma CarriedOutOnce(r: seq<State>, i: nat)
    requires Run(r) && i < |r|
    ensures |r[i].ran| <= 1
    ensures r[i].status.Rejected? ==> r[i].ran == []
    ensures r[i].claim.None? && !Terminal(r[i].status) ==> r[i].ran == []
    ensures r[i].status.Done? ==> |r[i].ran| == 1 && r[i].decider == Some(r[i].ran[0])
  {
    RunInv(r, i);
  }

  /** An approval that stands was carried out, once and by its own call, unless
      the action could not be; it is stored as done exactly when it succeeded. */
  lemma ApprovalCarriedOut(r: seq<State>, i: nat, t: nat)
    requires Run(r) && i < |r| && r[i].decider == Some(t) && Terminal(r[i].status) && !r[i].status.Rejected?
    ensures t in r[i].calls
    ensures !r[i].calls[t].effect.Impossible? ==> r[i].ran == [t]
    ensures r[i].calls[t].effect.Impossible? ==> r[i].ran == []
    ensures r[i].status.Done? <==> r[i].calls[t].effect.Succeeds?
  {
    RunInv(r, i);
  }

  /** A call that finds the claim free and the row undecided can go on, by its
      own steps, until what it asks for is stored as its decision. */
  lemma CallDecides(s: State, t: nat) returns (path: seq<State>)
    requires Inv(s) && t in s.calls && s.calls[t].pc.Claiming? && s.claim.None?
    requires s.status.Pending? || (s.status.Queued? && s.calls[t].call != Queue)
    ensures |path| > 0 && path[0] == s && forall i | 0 < i < |path| :: Move(path[i - 1], path[i], t)
    ensures var end, th := path[|path| - 1], s.calls[t];
            && end.decider == Some(t) && end.claim.None?
            && end.status == (match th.call
                              case Queue => Queued
                              case Decide(approve) => if approve then Comes(th.effect) else Rejected
                              case Always(_) => Comes(th.effect))
            && end.ran == s.ran + (if Approves(th.call) then RanBy(t, th.effect) else [])
  {
    var th := s.calls[t];
    var s1 := At(s, t, Claimed).(claim := Some(t));
    var s2 := At(s1, t, Read(s.status));
    assert Begin(s, s1, t) && Get(s1, s2, t);
    if Approves(th.call) {
      var s3 := At(s2, t, Ran(Comes(th.effect))).(ran := s.ran + RanBy(t, th.effect));
      var s4 := At(s3, t, Ending(true)).(status := Comes(th.effect), decider := Some(t));
      var s5 := NextOfHolder(s4, t);
      assert Carry(s2, s3, t) && Record(s3, s4, t) && End(s4, s5, t);
      path := [s, s1, s2, s3, s4, s5];
    } else {
      var s3 := At(s2, t, Ending(true)).(status := if th.call.Queue? then Queued else Rejected, decider := Some(t));
      var s4 := NextOfHolder(s3, t);
      assert (Reject(s2, s3, t) || Enqueue(s2, s3, t)) && End(s3, s4, t);
      path := [s, s1, s2, s3, s4];
    }
  }

  /** So can an always-decision of a pending command that may be always allowed,
      until its permission is saved. */
  lemma AlwaysDecides(s: State, t: nat) returns (path: seq<State>)
    requires Inv(s) && t in s.calls && s.calls[t].call == Always(true) && s.calls[t].pc.Looking? && s.claim.None? && s.status.Pending?
    ensures |path| > 0 && path[0] == s && forall i | 0 < i < |path| :: Move(path[i - 1], path[i], t)
    ensures var end := path[|path| - 1];
            end.decider == Some(t) && end.status == Comes(s.calls[t].effect) && t in end.allowed
  {
    var th := s.calls[t];
    var s1 := At(s, t, Claiming);
    var s2 := At(s1, t, Claimed).(claim := Some(t));
    var s3 := At(s2, t, Read(s.status));
    var s4 := At(s3, t, Ran(Comes(th.effect))).(ran := s.ran + RanBy(t, th.effect));
    var s5 := At(s4, t, Ending(true)).(status := Comes(th.effect), decider := Some(t));
    var s6 := At(s5, t, Allowing).(claim := None);
    var s7 := At(s6, t, Returned(true)).(allowed := s.allowed + {t});
    assert Look(s, s1, t) && Begin(s1, s2, t) && Get(s2, s3, t) && Carry(s3, s4, t) && Record(s4, s5, t) && End(s5, s6, t) && Allow(s6, s7, t);
    path := [s, s1, s2, s3, s4, s5, s6, s7];
  }

  /** A call is answered without an error, or changes the row, only by storing
      its own decision in an undecided row; one to queue, in a pending row. */
  lemma OkStores(s: State, s': State, t: nat)
    requires Inv(s) && Move(s, s', t)
    requires (s.status, s.decider) != (s'.status, s'.decider) || (s.calls[t].pc != Ending(true) && s'.calls[t].pc == Ending(true))
    ensures s.status.Pending? || (s.status.Queued? && s.calls[t].call != Queue)
    ensures s'.decider == Some(t) && s'.calls[t].pc == Ending(true) && s.claim == Some(t)
    ensures if s.calls[t].call.Queue? then s'.status.Queued? else Terminal(s'.status)
  {
    assert ThreadOk(s, t);
  }

  /** A decided action stays as it was decided, and by whom. */
  lemma {:induction false} TerminalStays(r: seq<State>, i: nat, j: nat)
    requires Run(r) && i <= j < |r| && Terminal(r[i].status)
    ensures r[j].status == r[i].status && r[j].decider == r[i].decider && r[j].ran == r[i].ran
  {
    if i < j {
      TerminalStays(r, i, j - 1);
      RunInv(r, j - 1);
      assert StepTo(r, j);
      StepOfRow(r[j - 1], r[j]);
    }
  }

  /** An action is queued only from pending, and at most once. */
  lemma {:induction false} QueuedOnce(r: seq<State>, i: nat, j: nat)
    requires Run(r) && i <= j < |r| && !r[i].status.Pending?
    ensures !r[j].status.Pending? && (r[j].status.Queued? ==> r[i].status.Queued?)
  {
    if i < j {
      QueuedOnce(r, i, j - 1);
      RunInv(r, j - 1);
      assert StepTo(r, j);
      StepOfRow(r[j - 1], r[j]);
    }
  }

  /** Only one decision is answered without an error, and it is the one stored. */
  lemma OneDecision(r: seq<State>, i: nat, t: nat, u: nat)
    requires Run(r) && i < |r| && t in r[i].calls && u in r[i].calls
    requires r[i].calls[t].pc == Returned(true) && !r[i].calls[t].call.Queue?
    requires r[i].calls[u].pc == Returned(true) && !r[i].calls[u].call.Queue?
    ensures t == u && r[i].decider == Some(t)
    ensures r[i].status.Rejected? <==> r[i].calls[t].call == Decide(false)
  {
    RunInv(r, i);
    assert ThreadOk(r[i], t) && ThreadOk(r[i], u);
  }

  /** A permission is saved only by the DecideAlways whose own decision stands
      and was an approval. */
  lemma PermissionOfDecider(r: seq<State>, i: nat, t: nat)
    requires Run(r) && i < |r| && t in r[i].allowed
    ensures r[i].allowed == {t} && r[i].decider == Some(t) && (r[i].status.Done? || r[i].status.Failed?)
  {
    RunInv(r, i);
    assert ThreadOk(r[i], t);
    forall u | u in r[i].allowed ensures u == t { assert ThreadOk(r[i], u); }
  }

  /** An always-decision of a command that may not be always allowed, or whose
      proposer is not known, is refused before anything runs. */
  lemma NeverAlways(r: seq<State>, i: nat, t: nat)
    requires Run(r) && i < |r| && t in r[i].calls && r[i].calls[t].call == Always(false)
    ensures r[i].calls[t].pc.Looking? || r[i].calls[t].pc == Returned(false)
    ensures r[i].decider != Some(t) && t !in r[i].ran && t !in r[i].allowed
  {
    RunInv(r, i);
    assert ThreadOk(r[i], t);
  }

  /** An always-decision asked for once the action is no longer pending is
      refused, even while it is queued and could still be approved. */
  lemma {:induction false} LateAlways(r: seq<State>, i: nat, j: nat, t: nat)
    requires Run(r) && i <= j < |r| && t !in r[i].calls && !r[i].status.Pending?
    requires t in r[j].calls && r[j].calls[t].call.Always?
    ensures r[j].calls[t].pc.Looking? || r[j].calls[t].pc == Returned(false)
  {
    assert i < j;
    assert StepTo(r, j);
    QueuedOnce(r, i, j - 1);
    LateAlwaysCall(r[j - 1], r[j], t);
    if t in r[j - 1].calls { LateAlways(r, i, j - 1, t); }
  }

  lemma LateAlwaysCall(s: State, s': State, t: nat)
    requires Step(s, s') && t in s'.calls && s'.calls[t].call.Always?
    ensures t !in s.calls ==> s'.calls[t].pc.Looking?
    ensures t in s.calls ==> s'.calls[t].call == s.calls[t].call
    ensures t in s.calls && !s.status.Pending? && s.calls[t].pc.Looking? ==> s'.calls[t].pc.Looking? || s'.calls[t].pc == Returned(false)
    ensures t in s.calls && s.calls[t].pc.Returned? ==> s'.calls[t].pc == s.calls[t].pc
  {
  }

  /** Steps left until the claim is released. */
  function Left(pc: Pc): nat {
    match pc
    case Claimed => 4
    case Read(_) => 3
    case Ran(_) => 2
    case Ending(_) => 1
    case _ => 0
  }

  /** Whoever holds the claim can always go on, and lets it go in at most four
      steps of its own: no call is refused for ever. */
  lemma ClaimIsReleased(r: seq<State>, i: nat)
    requires Run(r) && i < |r| && r[i].claim.Some?
    ensures var t := r[i].claim.value;
            t in r[i].calls && exists s' :: Move(r[i], s', t) && t in s'.calls && Left(s'.calls[t].pc) < Left(r[i].calls[t].pc)
    ensures forall s' :: Move(r[i], s', r[i].claim.value) ==>
            s'.claim.None? || (s'.claim == r[i].claim && Left(s'.calls[r[i].claim.value].pc) < Left(r[i].calls[r[i].claim.value].pc))
  {
    RunInv(r, i);
    var s := r[i];
    var t := s.claim.value;
    assert ThreadOk(s, t);
    var s' := NextOfHolder(s, t);
    assert Move(s, s', t);
    forall x | Move(s, x, t) ensures x.claim.None? || (x.claim == s.claim && t in x.calls && Left(x.calls[t].pc) < Left(s.calls[t].pc)) {
    }
  }

  function NextOfHolder(s: State, t: nat): (s': State)
    requires t in s.calls && Holding(s.calls[t].pc)
    ensures Move(s, s', t) && t in s'.calls && Left(s'.calls[t].pc) < Left(s.calls[t].pc)
  {
    var th := s.calls[t];
    match th.pc
    case Claimed => At(s, t, Read(s.status))
    case Read(seen) =>
      if !MayDecide(th.call, seen) then At(s, t, Ending(false))
      else if th.call.Queue? then At(s, t, Ending(true)).(status := Queued, decider := Some(t))
      else if th.call == Decide(false) then At(s, t, Ending(true)).(status := Rejected, decider := Some(t))
      else At(s, t, Ran(Comes(th.effect))).(ran := s.ran + RanBy(t, th.effect))
    case Ran(to) => At(s, t, Ending(true)).(status := to, decider := Some(t))
    case Ending(ok) => At(s, t, if th.call.Always? && ok then Allowing else Returned(ok)).(claim := None)
  }
}
