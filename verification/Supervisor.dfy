/** The supervisor of the server process (cmd/office/supervise.go): restarts
    with backoff, updates and rollback. Every server process is kept, and may
    exit at any moment; times are seconds on a clock that never goes back. The
    dashboard process is left out. */
module Supervisor {
  import opened Text

  /** selfupdate.RestartCode. */
  const RESTART: int := 75
  const MINUTE: int := 60

  /** A server process, what its done channel holds, and how many of the codes
      it sent are taken for good. */
  datatype Child = Child(running: bool, done: Option<int>, taken: nat)

  datatype Ending = Asked | Stopped | GaveUp | NotStarted

  /** Where the loop is: at its select; stopping the server after a signal; in
      healthy, waiting for a new build; holding the code healthy read; going
      back to the build before. */
  datatype Place = Select | Stopping | Checking | Holding(code: int) | RollingBack | Over(how: Ending)

  datatype State = State(
    hasSource: bool,
    place: Place,
    children: seq<Child>,
    /** None: the placeholder that waits for a restart. */
    api: Option<nat>,
    /** When the pending restart is due. */
    restart: Option<int>,
    crashes: nat,
    lastStart: int,
    now: int)

  /** starts: whether the process that the event starts can be started. */
  datatype Event =
    | Exits(child: nat, code: int)
    | Later(now: int)
    | Signal
    | RestartDue(starts: bool)
    | TakeExit(starts: bool)
    | Answers
    | TimesOut
    | SeesExit
    | PutsBack
    | Stops(starts: bool)

  function Initial(hasSource: bool, now: int): State {
    State(hasSource, Select, [Child(true, None, 0)], Some(0), None, 0, now, now)
  }

  /** The code the current server has sent. */
  function Sent(s: State): Option<int> {
    if s.api.Some? && s.api.value < |s.children| then s.children[s.api.value].done else None
  }

  function Taken(s: State): State
    requires Sent(s).Some?
  {
    var c := s.children[s.api.value];
    s.(children := s.children[s.api.value := c.(done := None, taken := c.taken + 1)])
  }

  /** startAPI, and where the loop is when it succeeds. */
  function Started(s: State, starts: bool, place: Place): State {
    if starts then s.(children := s.children + [Child(true, None, 0)], api := Some(|s.children|), place := place)
    else s.(api := None, place := Over(NotStarted))
  }

  function Pow2(n: nat): int {
    if n == 0 then 1 else 2 * Pow2(n - 1)
  }

  predicate Quick(s: State) {
    s.now - s.lastStart <= MINUTE
  }

  function Crashed(s: State): State {
    var crashes := (if Quick(s) then s.crashes else 0) + 1;
    if crashes > 5 then s.(crashes := crashes, place := Over(GaveUp))
    else
      var wait := Pow2(if crashes < 5 then crashes else 5);
      s.(crashes := crashes, api := None, restart := Some(s.now + wait))
  }

  /** What an event does; None where it cannot happen. */
  function Next(s: State, e: Event): Option<State> {
    match e
    case Exits(i, code) =>
      if i < |s.children| && s.children[i].running
      then Some(s.(children := s.children[i := s.children[i].(running := false, done := Some(code))]))
      else None
    case Later(now) => if s.now <= now then Some(s.(now := now)) else None
    case Signal =>
      if s.place != Select then None
      else Some(s.(place := if s.api.Some? then Stopping else Over(Asked)))
    case RestartDue(starts) =>
      if s.place != Select || s.restart.None? || s.now < s.restart.value then None
      else
        var n := Started(s.(restart := None), starts, Select);
        Some(if starts then n.(lastStart := s.now) else n)
    case TakeExit(starts) =>
      if s.place != Select || Sent(s).None? then None
      else
        var code := Sent(s).value;
        if code == RESTART && s.hasSource then Some(Started(Taken(s), starts, Checking))
        else if code == 0 then Some(Taken(s).(place := Over(Stopped)))
        else Some(Crashed(Taken(s)))
    case Answers =>
      if s.place != Checking then None else Some(s.(place := Select, crashes := 0, lastStart := s.now))
    case TimesOut => if s.place != Checking then None else Some(s.(place := RollingBack))
    case SeesExit =>
      if s.place != Checking || Sent(s).None? then None else Some(Taken(s).(place := Holding(Sent(s).value)))
    case PutsBack =>
      if !s.place.Holding? || s.api.None? || s.api.value >= |s.children| then None
      else
        var c := s.children[s.api.value];
        if c.taken == 0 then None
        else Some(s.(place := RollingBack, children := s.children[s.api.value := c.(done := Some(s.place.code), taken := c.taken - 1)]))
    case Stops(starts) =>
      if Sent(s).None? then None
      else if s.place.Stopping? then Some(Taken(s).(place := Over(Asked)))
      else if s.place.RollingBack? then
        var n := Started(Taken(s), starts, Select);
        Some(if starts then n.(lastStart := s.now) else n)
      else None
  }

  /** What a run of events ends in. */
  function Run(s: State, es: seq<Event>): Option<State>
    decreases |es|
  {
    if es == [] then Some(s)
    else if Next(s, es[0]).None? then None
    else Run(Next(s, es[0]).value, es[1..])
  }

  // ---- the invariant ----

  /** It runs, or its code waits in the channel. */
  ghost predicate Untaken(c: Child) {
    c.taken == 0 && (c.done.Some? <==> !c.running)
  }

  /** It has exited and its code is taken. */
  ghost predicate Gone(c: Child) {
    !c.running && c.done.None? && c.taken == 1
  }

  ghost predicate Inv(s: State) {
    && (forall i | 0 <= i < |s.children| ::
          if s.api == Some(i) && !s.place.Over? && !s.place.Holding? then Untaken(s.children[i]) else Gone(s.children[i]))
    && (s.api.Some? ==> s.api.value < |s.children|)
    && (!s.place.Over? ==> (s.restart.Some? <==> s.api.None?))
    && (s.restart.Some? ==> s.place.Select? || s.place.Over?)
    && s.lastStart <= s.now
    && BackoffInv(s)
  }

  /** Only the sixth crash ends the loop. */
  ghost predicate BackoffInv(s: State) {
    s.crashes <= 6 && (s.crashes == 6 <==> s.place == Over(GaveUp))
  }

  lemma TakenInv(s: State)
    requires Inv(s) && Sent(s).Some? && !s.place.Over? && !s.place.Holding?
    ensures var t := Taken(s);
            forall i | 0 <= i < |t.children| :: Gone(t.children[i])
  {
  }

  lemma StartedInv(s: State, starts: bool, place: Place)
    requires forall i | 0 <= i < |s.children| :: Gone(s.children[i])
    requires s.restart.None? && s.lastStart <= s.now && BackoffInv(s) && !place.Over? && !place.Holding? && !s.place.Over?
    ensures Inv(Started(s, starts, place)) && Inv(Started(s, starts, place).(lastStart := s.now))
  {
  }

  lemma CrashedInv(s: State)
    requires forall i | 0 <= i < |s.children| :: Gone(s.children[i])
    requires s.place.Select? && s.lastStart <= s.now && BackoffInv(s)
    requires s.api.Some? ==> s.api.value < |s.children|
    ensures Inv(Crashed(s))
  {
  }

  lemma ExitsInv(s: State, i: nat, code: int)
    requires Inv(s) && !s.place.Over? && Next(s, Exits(i, code)).Some?
    ensures Inv(Next(s, Exits(i, code)).value)
  {
    hide BackoffInv;
    assert !Gone(s.children[i]);
    BackoffSame(s, Next(s, Exits(i, code)).value);
  }

  lemma BackoffSame(s: State, t: State)
    requires BackoffInv(s) && t.crashes == s.crashes && s.place != Over(GaveUp) && t.place != Over(GaveUp)
    ensures BackoffInv(t)
  {
  }

  lemma TakeExitInv(s: State, e: Event)
    requires Inv(s) && Next(s, e).Some? && e.TakeExit?
    ensures Inv(Next(s, e).value)
  {
    hide Started, Crashed, Gone, Untaken;
    TakenInv(s);
    var t := Taken(s);
    if Sent(s).value == RESTART && s.hasSource {
      StartedInv(t, e.starts, Checking);
    } else if Sent(s).value != 0 {
      CrashedInv(t);
    }
  }

  lemma StopsInv(s: State, e: Event)
    requires Inv(s) && Next(s, e).Some? && e.Stops? && !s.place.Over?
    ensures Inv(Next(s, e).value)
  {
    hide Gone, Untaken;
    TakenInv(s);
    if s.place.RollingBack? {
      StartedInv(Taken(s), e.starts, Select);
    }
  }

  lemma StepKeepsInv(s: State, e: Event)
    requires Inv(s) && !s.place.Over? && Next(s, e).Some?
    ensures Inv(Next(s, e).value)
  {
    hide Gone, Untaken, BackoffInv;
    match e
    case Exits(i, code) => ExitsInv(s, i, code);
    case TakeExit(starts) => TakeExitInv(s, e);
    case Stops(starts) => StopsInv(s, e);
    case RestartDue(starts) =>
      BackoffSame(s, s.(restart := None));
      StartedInv(s.(restart := None), starts, Select);
    case SeesExit => SeesExitInv(s);
    case PutsBack => PutsBackInv(s);
    case Answers => AnswersInv(s);
    case _ => BackoffSame(s, Next(s, e).value);
  }

  lemma AnswersInv(s: State)
    requires Inv(s) && Next(s, Answers).Some?
    ensures Inv(Next(s, Answers).value)
  {
    hide Gone, Untaken;
  }

  lemma SeesExitInv(s: State)
    requires Inv(s) && Next(s, SeesExit).Some?
    ensures Inv(Next(s, SeesExit).value)
  {
    TakenInv(s);
  }

  lemma PutsBackInv(s: State)
    requires Inv(s) && Next(s, PutsBack).Some?
    ensures Inv(Next(s, PutsBack).value)
  {
  }

  lemma OverStays(s: State, e: Event)
    requires Inv(s) && s.place.Over? && Next(s, e).Some?
    ensures Next(s, e).value == s.(now := Next(s, e).value.now) && Inv(Next(s, e).value)
  {
  }

  lemma {:induction false} RunInv(s: State, es: seq<Event>)
    requires Inv(s) && Run(s, es).Some?
    ensures Inv(Run(s, es).value)
    decreases |es|
  {
    hide Next, Inv;
    if es != [] {
      if s.place.Over? { OverStays(s, es[0]); } else { StepKeepsInv(s, es[0]); }
      RunInv(Next(s, es[0]).value, es[1..]);
    }
  }

  // ---- what a run keeps ----

  /** In every run at most one server is alive, and it is the current one; a
      restart is pending exactly when the current one is the placeholder; every
      other server has exited and its code was taken once; none is left alive
      once the loop ends. */
  lemma OneServer(hasSource: bool, now: int, es: seq<Event>)
    requires Run(Initial(hasSource, now), es).Some?
    ensures var s := Run(Initial(hasSource, now), es).value;
            && (forall i | 0 <= i < |s.children| && s.children[i].running :: s.api == Some(i) && !s.place.Over?)
            && (forall i | 0 <= i < |s.children| && s.children[i].running :: forall j | 0 <= j < |s.children| && s.children[j].running :: i == j)
            && (!s.place.Over? ==> (s.restart.Some? <==> s.api.None?))
            && (forall i | 0 <= i < |s.children| && (s.api != Some(i) || s.place.Over?) :: Gone(s.children[i]))
            && (forall i | 0 <= i < |s.children| :: s.children[i].taken <= 1)
  {
    RunInv(Initial(hasSource, now), es);
  }

  /** The current server runs. */
  predicate Alive(s: State) {
    s.api.Some? && s.api.value < |s.children| && s.children[s.api.value].running
  }

  /** The loop is never stuck: a restart is pending, or a server is alive, or
      its code is there to be taken; a held code can be put back, and a stopped
      server will have a code to take. */
  lemma NeverStuck(hasSource: bool, now: int, es: seq<Event>)
    requires Run(Initial(hasSource, now), es).Some?
    ensures var s := Run(Initial(hasSource, now), es).value;
            match s.place
            case Select => s.restart.Some? || Alive(s) || Next(s, TakeExit(true)).Some?
            case Checking => Next(s, TimesOut).Some?
            case Holding(_) => Next(s, PutsBack).Some?
            case Stopping => Alive(s) || Next(s, Stops(true)).Some?
            case RollingBack => Alive(s) || Next(s, Stops(true)).Some?
            case Over(_) => true
  {
    RunInv(Initial(hasSource, now), es);
  }

  /** After a crash no server is started before the wait is over. */
  lemma {:induction false} WaitIsKept(s: State, es: seq<Event>)
    requires Inv(s) && s.restart.Some? && Run(s, es).Some? && Run(s, es).value.now < s.restart.value
    ensures Run(s, es).value.children == s.children
    decreases |es|
  {
    hide Inv;
    if es != [] {
      var t := Next(s, es[0]).value;
      Waiting(s, es[0]);
      LaterNow(t, es[1..]);
      if s.place.Over? { OverStays(s, es[0]); } else { StepKeepsInv(s, es[0]); }
      WaitIsKept(t, es[1..]);
    }
  }

  /** While the restart is pending, an event leaves it pending or is its due. */
  lemma Waiting(s: State, e: Event)
    requires Inv(s) && s.restart.Some? && Next(s, e).Some?
    ensures (Next(s, e).value.restart == s.restart && Next(s, e).value.children == s.children)
            || (e.RestartDue? && s.restart.value <= s.now == Next(s, e).value.now)
  {
  }

  lemma {:induction false} LaterNow(s: State, es: seq<Event>)
    requires Run(s, es).Some?
    ensures s.now <= Run(s, es).value.now
    decreases |es|
  {
    if es != [] {
      LaterNow(Next(s, es[0]).value, es[1..]);
    }
  }

  // ---- giving up ----

  /** The event is a crash: an exit that is neither clean nor an update. */
  predicate IsCrash(s: State, e: Event) {
    e.TakeExit? && Next(s, e).Some? && Sent(s).value != 0 && !(Sent(s).value == RESTART && s.hasSource)
  }

  function Crashes(s: State, es: seq<Event>): nat
    decreases |es|
  {
    if es == [] || Next(s, es[0]).None? then 0
    else (if IsCrash(s, es[0]) then 1 else 0) + Crashes(Next(s, es[0]).value, es[1..])
  }

  /** What the events tell, whatever the loop's variables say: the time, when
      the last server was started or a new build answered, and how many crashes
      there were in a row: each within a minute of that, and none before an
      answer. */
  datatype Story = Story(now: int, started: int, row: nat)

  /** A server is started that is not a new build to be checked, or one answers. */
  predicate Begins(s: State, e: Event) {
    || e.Answers? || (e.RestartDue? && e.starts) || (e.Stops? && e.starts && s.place.RollingBack?)
  }

  function Told(s: State, e: Event, k: Story): Story {
    Story(if e.Later? then e.now else k.now,
          if Begins(s, e) then k.now else k.started,
          if e.Answers? then 0
          else if IsCrash(s, e) then (if k.now - k.started <= MINUTE then k.row else 0) + 1
          else k.row)
  }

  function Tells(s: State, es: seq<Event>, k: Story): Story
    decreases |es|
  {
    if es == [] || Next(s, es[0]).None? then k else Tells(Next(s, es[0]).value, es[1..], Told(s, es[0], k))
  }

  /** The story of a run from the start. */
  function StoryOf(hasSource: bool, now: int, es: seq<Event>): Story {
    Tells(Initial(hasSource, now), es, Story(now, now, 0))
  }

  predicate Knows(s: State, k: Story) {
    s.now == k.now && s.lastStart == k.started && s.crashes == k.row
  }

  lemma StepTold(s: State, e: Event, k: Story)
    requires Inv(s) && !s.place.Over? && Next(s, e).Some? && Knows(s, k)
    ensures Knows(Next(s, e).value, Told(s, e, k))
  {
    if IsCrash(s, e) {
      CrashStep(s, e);
    }
  }

  lemma OverTold(s: State, e: Event, k: Story)
    requires Inv(s) && s.place.Over? && Next(s, e).Some? && Knows(s, k)
    ensures Knows(Next(s, e).value, Told(s, e, k))
  {
    OverStays(s, e);
  }

  lemma {:induction false} RunTells(s: State, es: seq<Event>, k: Story)
    requires Inv(s) && Run(s, es).Some? && Knows(s, k)
    ensures Knows(Run(s, es).value, Tells(s, es, k))
    decreases |es|
  {
    hide Inv, Next, Knows, Told;
    if es != [] {
      if s.place.Over? {
        OverTold(s, es[0], k);
        OverStays(s, es[0]);
      } else {
        StepTold(s, es[0], k);
        StepKeepsInv(s, es[0]);
      }
      RunTells(Next(s, es[0]).value, es[1..], Told(s, es[0], k));
    }
  }

  /** In every run the loop's variables are what the events tell; it gives up
      exactly at six crashes in a row. */
  lemma RunIsTold(hasSource: bool, now: int, es: seq<Event>)
    requires Run(Initial(hasSource, now), es).Some?
    ensures var s, k := Run(Initial(hasSource, now), es).value, StoryOf(hasSource, now, es);
            && s.now == k.now && s.lastStart == k.started && s.crashes == k.row
            && k.row <= 6 && (s.place == Over(GaveUp) <==> k.row == 6)
  {
    RunInv(Initial(hasSource, now), es);
    RunTells(Initial(hasSource, now), es, Story(now, now, 0));
  }

  /** Every crash comes within a minute of the last start, and no update succeeds. */
  predicate InARow(s: State, es: seq<Event>, k: Story)
    decreases |es|
  {
    es == [] || Next(s, es[0]).None?
    || (!es[0].Answers? && (IsCrash(s, es[0]) ==> k.now - k.started <= MINUTE)
        && InARow(Next(s, es[0]).value, es[1..], Told(s, es[0], k)))
  }

  /** The waits in seconds after the first to the fifth crash in a row. */
  const WAITS: seq<int> := [2, 4, 8, 16, 32]

  /** In every run a crash counts one more than the crashes in a row before it,
      if it comes within a minute of the last start; the first five make a
      restart due 2, 4, 8, 16 and 32 s later, and whatever happens no server is
      started before that. */
  lemma RestartWaits(hasSource: bool, now: int, before: seq<Event>, e: Event, after: seq<Event>)
    requires Run(Initial(hasSource, now), before).Some?
    requires IsCrash(Run(Initial(hasSource, now), before).value, e)
    ensures var t := Next(Run(Initial(hasSource, now), before).value, e).value;
            var k := StoryOf(hasSource, now, before);
            var row := (if k.now - k.started <= MINUTE then k.row else 0) + 1;
            && (t.place == Over(GaveUp) <==> row == 6)
            && (row < 6 ==>
                  && row <= |WAITS| && t.restart == Some(k.now + WAITS[row - 1])
                  && (Run(t, after).Some? && Run(t, after).value.now < t.restart.value ==> Run(t, after).value.children == t.children))
  {
    var s := Run(Initial(hasSource, now), before).value;
    RunInv(Initial(hasSource, now), before);
    RunIsTold(hasSource, now, before);
    CrashStep(s, e);
    var t := Next(s, e).value;
    if t.crashes < 6 && Run(t, after).Some? && Run(t, after).value.now < t.restart.value {
      WaitIsKept(t, after);
    }
  }

  lemma CrashStep(s: State, e: Event)
    requires Inv(s) && IsCrash(s, e)
    ensures var t := Next(s, e).value;
            && Inv(t)
            && t.crashes == (if Quick(s) then s.crashes else 0) + 1 <= 6
            && (t.place == Over(GaveUp) <==> t.crashes == 6)
            && (t.crashes < 6 ==> t.crashes <= |WAITS| && t.restart == Some(s.now + WAITS[t.crashes - 1]))
  {
    StepKeepsInv(s, e);
    Powers(Next(s, e).value.crashes);
  }

  lemma Powers(n: nat)
    ensures 1 <= n <= |WAITS| ==> Pow2(n) == WAITS[n - 1]
  {
    assert Pow2(1) == 2 && Pow2(2) == 4 && Pow2(3) == 8 && Pow2(4) == 16 && Pow2(5) == 32;
    assert n == 1 || n == 2 || n == 3 || n == 4 || n == 5 || n == 0 || n > 5;
  }

  lemma {:induction false} CrashesAddUp(s: State, es: seq<Event>, k: Story)
    requires InARow(s, es, k)
    ensures Tells(s, es, k).row == k.row + Crashes(s, es)
    decreases |es|
  {
    hide Next;
    if es != [] && Next(s, es[0]).Some? {
      CrashesAddUp(Next(s, es[0]).value, es[1..], Told(s, es[0], k));
    }
  }

  lemma {:induction false} TellsOn(s: State, a: seq<Event>, b: seq<Event>, k: Story)
    requires Run(s, a).Some?
    ensures Tells(s, a + b, k) == Tells(Run(s, a).value, b, Tells(s, a, k)) && Run(s, a + b) == Run(Run(s, a).value, b)
    decreases |a|
  {
    hide Next, Told;
    if a == [] {
      assert a + b == b;
    } else {
      assert (a + b)[1..] == a[1..] + b;
      TellsOn(Next(s, a[0]).value, a[1..], b, Told(s, a[0], k));
    }
  }

  /** Six quick crashes in a row end the loop, and of the crashes in a row
      nothing but the sixth does. */
  lemma SixInARow(hasSource: bool, now: int, before: seq<Event>, es: seq<Event>)
    requires Run(Initial(hasSource, now), before).Some?
    requires var s, k := Run(Initial(hasSource, now), before).value, StoryOf(hasSource, now, before);
             Run(s, es).Some? && InARow(s, es, k)
    ensures var s, k := Run(Initial(hasSource, now), before).value, StoryOf(hasSource, now, before);
            && (Run(s, es).value.place == Over(GaveUp) <==> k.row + Crashes(s, es) == 6)
            && k.row + Crashes(s, es) <= 6
            && (Crashes(s, es) >= 6 ==> Run(s, es).value.place == Over(GaveUp))
  {
    hide Run, InARow, Crashes;
    var s, k := Run(Initial(hasSource, now), before).value, StoryOf(hasSource, now, before);
    TellsOn(Initial(hasSource, now), before, es, Story(now, now, 0));
    RunIsTold(hasSource, now, before + es);
    CrashesAddUp(s, es, k);
  }

  // ---- what an exit, a restart and a rollback do ----

  /** A new server runs beside the ones that were there. */
  predicate StartedOne(s: State, t: State) {
    |t.children| == |s.children| + 1 && t.api == Some(|s.children|) && Alive(t)
  }

  /** What the loop does about an exit, in every run: a clean one ends it; one
      asking for an update starts the new build, to be checked, and is no crash;
      any other is a crash, after which the loop gives up or waits. */
  lemma ExitMeans(hasSource: bool, now: int, before: seq<Event>, code: int, starts: bool)
    requires Run(Initial(hasSource, now), before).Some?
    requires var s := Run(Initial(hasSource, now), before).value;
             s.place.Select? && s.api.Some? && s.api.value < |s.children| && s.children[s.api.value].done == Some(code)
    ensures var s := Run(Initial(hasSource, now), before).value;
            var n := Next(s, TakeExit(starts));
            && n.Some?
            && (code == 0 ==> n.value.place == Over(Stopped))
            && (code == RESTART && hasSource && starts ==> StartedOne(s, n.value) && n.value.place == Checking && n.value.crashes == s.crashes)
            && (code == RESTART && hasSource && !starts ==> n.value.place == Over(NotStarted))
            && (code != 0 && !(code == RESTART && hasSource) ==>
                  n.value.place == Over(GaveUp) || (n.value.place == Select && n.value.api.None? && n.value.restart.Some?))
  {
    RunInv(Initial(hasSource, now), before);
    SameSource(Initial(hasSource, now), before);
  }

  lemma {:induction false} SameSource(s: State, es: seq<Event>)
    requires Run(s, es).Some?
    ensures Run(s, es).value.hasSource == s.hasSource
    decreases |es|
  {
    if es != [] {
      SameSource(Next(s, es[0]).value, es[1..]);
    }
  }

  /** When a restart is due a server is started in place of the placeholder, and
      when the new build is given up the one before is started once it stopped. */
  lemma StartsAgain(hasSource: bool, now: int, before: seq<Event>)
    requires Run(Initial(hasSource, now), before).Some?
    ensures var s := Run(Initial(hasSource, now), before).value;
            && (s.place.Select? && s.restart.Some? && s.restart.value <= s.now ==>
                  var n := Next(s, RestartDue(true));
                  n.Some? && StartedOne(s, n.value) && n.value.place == Select && n.value.restart.None?)
            && (s.place.RollingBack? && !Alive(s) ==>
                  var n := Next(s, Stops(true));
                  n.Some? && StartedOne(s, n.value) && n.value.place == Select)
            && (s.place.Checking? ==>
                  && (var n := Next(s, Answers); n.Some? && n.value.place == Select && n.value.api == s.api && n.value.children == s.children)
                  && (var n := Next(s, TimesOut); n.Some? && n.value.place == RollingBack && n.value.api == s.api))
            && (s.place.Select? ==>
                  var n := Next(s, Signal); n.Some? && n.value.place == if s.api.Some? then Stopping else Over(Asked))
  {
    RunInv(Initial(hasSource, now), before);
  }

  lemma RunStep(s: State, es: seq<Event>)
    requires es != [] && Run(s, es).Some?
    ensures Next(s, es[0]).Some? && Run(Next(s, es[0]).value, es[1..]) == Run(s, es)
  {
  }

  // ---- the loop ----

  /** The variables of the loop, and the processes outside it. */
  class Loop {
    const hasSource: bool
    var place: Place
    var children: seq<Child>
    var api: Option<nat>
    var restart: Option<int>
    var crashes: nat
    var lastStart: int
    var now: int

    ghost function Value(): State
      reads this
    {
      State(hasSource, place, children, api, restart, crashes, lastStart, now)
    }

    constructor (hasSource: bool, now: int)
      ensures Value() == Initial(hasSource, now)
    {
      this.hasSource, this.now, lastStart := hasSource, now, now;
      place, children, api := Select, [Child(true, None, 0)], Some(0);
      restart, crashes := None, 0;
    }

    method StartAPI(starts: bool, then': Place)
      modifies this
      ensures Value() == Started(old(Value()), starts, then')
    {
      if !starts {
        api, place := None, Over(NotStarted);
        return;
      }
      children := children + [Child(true, None, 0)];
      api, place := Some(|children| - 1), then';
    }

    /** Receives the code in the current server's done channel. */
    method Take() returns (code: int)
      requires Sent(Value()).Some?
      modifies this`children
      ensures Value() == Taken(old(Value())) && Some(code) == old(Sent(Value()))
    {
      var c := children[api.value];
      code := c.done.value;
      children := children[api.value := c.(done := None, taken := c.taken + 1)];
    }

    /** case code := <-api.done. */
    method ServerExited(starts: bool)
      requires Next(Value(), TakeExit(starts)).Some?
      modifies this
      ensures Some(Value()) == old(Next(Value(), TakeExit(starts)))
    {
      hide Pow2;
      var code := Take();
      if code == RESTART && hasSource {
        StartAPI(starts, Checking);
        return;
      }
      if code == 0 {
        place := Over(Stopped);
        return;
      }
      if now - lastStart > MINUTE {
        crashes := 0;
      }
      crashes := crashes + 1;
      if crashes > 5 {
        place := Over(GaveUp);
        return;
      }
      var delay := Pow2(if crashes < 5 then crashes else 5);
      api, restart := None, Some(now + delay);
    }

    method Handle(e: Event)
      requires Next(Value(), e).Some?
      modifies this
      ensures Some(Value()) == old(Next(Value(), e))
    {
      hide Crashed, Sent;
      match e
      case Exits(i, code) => children := children[i := children[i].(running := false, done := Some(code))];
      case Later(t) => now := t;
      case Signal => place := if api.Some? then Stopping else Over(Asked);
      case RestartDue(starts) =>
        restart := None;
        StartAPI(starts, Select);
        if starts { lastStart := now; }
      case TakeExit(starts) => ServerExited(starts);
      case Answers =>
        place, crashes, lastStart := Select, 0, now;
      case TimesOut => place := RollingBack;
      case SeesExit =>
        var code := Take();
        place := Holding(code);
      case PutsBack =>
        var c := children[api.value];
        children := children[api.value := c.(done := Some(place.code), taken := c.taken - 1)];
        place := RollingBack;
      case Stops(starts) =>
        var _ := Take();
        if place.Stopping? {
          place := Over(Asked);
        } else {
          StartAPI(starts, Select);
          if starts { lastStart := now; }
        }
    }
  }

  method Supervise(hasSource: bool, start: int, es: seq<Event>) returns (loop: Loop)
    requires Run(Initial(hasSource, start), es).Some?
    ensures fresh(loop) && Some(loop.Value()) == Run(Initial(hasSource, start), es)
  {
    hide Next, Initial;
    loop := new Loop(hasSource, start);
    assert es[0..] == es;
    for i := 0 to |es|
      invariant fresh(loop) && Run(loop.Value(), es[i..]) == Run(Initial(hasSource, start), es)
    {
      assert es[i..][1..] == es[i + 1..];
      RunStep(loop.Value(), es[i..]);
      loop.Handle(es[i]);
    }
    assert es[|es|..] == [];
  }
}
