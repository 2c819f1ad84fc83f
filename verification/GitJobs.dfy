/** A project's fetch or push in the background (internal/api/git.go,
    gitBackground): the request and its worker hand over, through a token,
    which of the two tells the outcome. */
module GitJobs {
  import opened Text

  /** fn's error, if any. */
  type Outcome = Option<string>

  /** The request: waiting for the end or the timeout, trying to take the token
      back, waiting for an end it knows is coming, and its two answers. */
  datatype Request = Waiting | Trying | Awaiting | Answered(outcome: Outcome) | Left

  /** The worker: git runs; it ended and the worker took the token; it ended and
      the event is to be sent; the job's mark is to be removed; all done. */
  datatype Worker = Running | Handing(outcome: Outcome) | Telling(outcome: Outcome) | Clearing(outcome: Outcome) | Finished(outcome: Outcome)

  /** token: the one value in `waiting`; end: the buffer of `end`; told: the
      outcomes the event path got. */
  datatype Job = Job(key: string, request: Request, worker: Worker, token: bool, end: Option<Outcome>, told: seq<Outcome>)

  /** running: the keys in gitRunning; jobs: every job there has been. */
  datatype State = State(running: set<string>, jobs: map<nat, Job>)

  ghost predicate Init(s: State) {
    s.running == {} && s.jobs == map[]
  }

  // ---- steps of one job ----

  predicate RequestStep(j: Job, j': Job) {
    match j.request
    case Waiting => (j.end.Some? && j' == j.(request := Answered(j.end.value), end := None)) || j' == j.(request := Trying)
    case Trying => j' == if j.token then j.(request := Left, token := false) else j.(request := Awaiting)
    case Awaiting => j.end.Some? && j' == j.(request := Answered(j.end.value), end := None)
    case _ => false
  }

  /** git ends with outcome e; whether the token is there is decided at once. */
  predicate EndStep(j: Job, j': Job, e: Outcome) {
    j.worker.Running? && j' == if j.token then j.(worker := Handing(e), token := false) else j.(worker := Telling(e))
  }

  predicate WorkerStep(j: Job, j': Job) {
    match j.worker
    case Handing(e) => j.end.None? && j' == j.(worker := Clearing(e), end := Some(e))
    case Telling(e) => j' == j.(worker := Clearing(e), told := j.told + [e])
    case _ => false
  }

  /** `defer gitRunning.Delete(key)`. */
  predicate ClearStep(j: Job, j': Job) {
    j.worker.Clearing? && j' == j.(worker := Finished(j.worker.outcome))
  }

  // ---- steps of the office ----

  predicate Start(s: State, s': State, key: string, id: nat) {
    && key !in s.running && id !in s.jobs
    && s' == State(s.running + {key}, s.jobs[id := Job(key, Waiting, Running, true, None, [])])
  }

  /** errGitBusy: nothing changes. */
  predicate Busy(s: State, s': State, key: string) {
    key in s.running && s' == s
  }

  ghost predicate Inside(s: State, s': State, id: nat) {
    && id in s.jobs && id in s'.jobs && s' == State(s.running, s.jobs[id := s'.jobs[id]])
    && var j, j' := s.jobs[id], s'.jobs[id];
       RequestStep(j, j') || WorkerStep(j, j') || exists e :: EndStep(j, j', e)
  }

  ghost predicate Clear(s: State, s': State, id: nat) {
    && id in s.jobs && id in s'.jobs && ClearStep(s.jobs[id], s'.jobs[id])
    && s' == State(s.running - {s.jobs[id].key}, s.jobs[id := s'.jobs[id]])
  }

  ghost predicate Step(s: State, s': State) {
    || (exists key, id :: Start(s, s', key, id))
    || (exists key :: Busy(s, s', key))
    || (exists id :: Inside(s, s', id))
    || (exists id :: Clear(s, s', id))
  }

  // ---- the invariant ----

  predicate Live(j: Job) {
    !j.worker.Finished?
  }

  /** Where the token, the buffer and the outcome can be. */
  predicate JobOk(j: Job) {
    match j.worker
    case Running =>
      && j.end.None? && j.told == []
      && (if j.token then j.request.Waiting? || j.request.Trying? else j.request.Left?)
    case Handing(e) => !j.token && j.end.None? && j.told == [] && (j.request.Waiting? || j.request.Trying? || j.request.Awaiting?)
    case Telling(e) => !j.token && j.end.None? && j.told == [] && j.request.Left?
    case _ =>
      var e := j.worker.outcome;
      && !j.token
      && (match j.request
          case Left => j.told == [e] && j.end.None?
          case Answered(x) => x == e && j.told == [] && j.end.None?
          case _ => j.told == [] && j.end == Some(e))
  }

  ghost predicate Inv(s: State) {
    && (forall id | id in s.jobs :: JobOk(s.jobs[id]))
    && (forall id | id in s.jobs && Live(s.jobs[id]) :: s.jobs[id].key in s.running)
    && (forall i, j | i in s.jobs && j in s.jobs && Live(s.jobs[i]) && Live(s.jobs[j]) && s.jobs[i].key == s.jobs[j].key :: i == j)
    && (forall k | k in s.running :: exists id :: Runs(s, id, k))
  }

  predicate Runs(s: State, id: nat, k: string) {
    id in s.jobs && Live(s.jobs[id]) && s.jobs[id].key == k
  }

  lemma JobStepOk(j: Job, j': Job)
    requires JobOk(j) && (RequestStep(j, j') || WorkerStep(j, j') || exists e :: EndStep(j, j', e))
    ensures JobOk(j') && j'.key == j.key && (Live(j') <==> Live(j))
  {
  }

  lemma InsideKeepsInv(s: State, s': State, id: nat)
    requires Inv(s) && Inside(s, s', id)
    ensures Inv(s')
  {
    hide JobOk;
    JobStepOk(s.jobs[id], s'.jobs[id]);
    forall k | k in s'.running ensures exists i :: Runs(s', i, k) {
      var i :| Runs(s, i, k);
      assert Runs(s', i, k);
    }
  }

  lemma ClearKeepsInv(s: State, s': State, id: nat)
    requires Inv(s) && Clear(s, s', id)
    ensures Inv(s')
  {
    assert JobOk(s.jobs[id]) && JobOk(s'.jobs[id]);
    forall k | k in s'.running ensures exists i :: Runs(s', i, k) {
      var i :| Runs(s, i, k);
      assert Runs(s', i, k);
    }
  }

  lemma StartKeepsInv(s: State, s': State, key: string, id: nat)
    requires Inv(s) && Start(s, s', key, id)
    ensures Inv(s')
  {
    forall k | k in s'.running ensures exists i :: Runs(s', i, k) {
      if k == key {
        assert Runs(s', id, k);
      } else {
        var i :| Runs(s, i, k);
        assert Runs(s', i, k);
      }
    }
  }

  lemma StepKeepsInv(s: State, s': State)
    requires Inv(s) && Step(s, s')
    ensures Inv(s')
  {
    hide Inv, Inside, Clear, Start;
    if id :| Inside(s, s', id) {
      InsideKeepsInv(s, s', id);
    } else if id :| Clear(s, s', id) {
      ClearKeepsInv(s, s', id);
    } else if key, id :| Start(s, s', key, id) {
      StartKeepsInv(s, s', key, id);
    }
  }

  // ---- whole runs ----

  ghost predicate StepTo(r: seq<State>, i: nat)
    requires 0 < i < |r|
  {
    Step(r[i - 1], r[i])
  }

  ghost predicate Run(r: seq<State>) {
    r != [] && Init(r[0]) && forall i | 0 < i < |r| :: StepTo(r, i)
  }

  lemma {:induction false} RunInv(r: seq<State>, i: nat)
    requires Run(r) && i < |r|
    ensures Inv(r[i])
  {
    if i > 0 {
      RunInv(r, i - 1);
      assert StepTo(r, i);
      StepKeepsInv(r[i - 1], r[i]);
    }
  }

  predicate RequestOver(j: Job) {
    j.request.Answered? || j.request.Left?
  }

  /** A key is marked exactly while a job of it runs: a request is answered
      errGitBusy then and only then. */
  lemma MarkedWhileRunning(r: seq<State>, i: nat, key: string)
    requires Run(r) && i < |r|
    ensures key in r[i].running <==> exists id :: Runs(r[i], id, key)
  {
    RunInv(r, i);
  }

  /** At most one job of a project and kind runs at a time. */
  lemma OneJobAKey(r: seq<State>, i: nat, a: nat, b: nat)
    requires Run(r) && i < |r| && a in r[i].jobs && b in r[i].jobs
    requires Live(r[i].jobs[a]) && Live(r[i].jobs[b]) && r[i].jobs[a].key == r[i].jobs[b].key
    ensures a == b
  {
    RunInv(r, i);
  }

  /** Once both are over, the outcome reached exactly one of the request and the
      event path, once; before that neither got another job's outcome or a
      second one. */
  lemma OutcomeOnce(r: seq<State>, i: nat, id: nat)
    requires Run(r) && i < |r| && id in r[i].jobs
    ensures var j := r[i].jobs[id];
            && (j.told != [] ==> j.request.Left? && !j.worker.Running? && j.told == [j.worker.outcome])
            && (j.request.Answered? ==> j.told == [] && !j.worker.Running? && j.request.outcome == j.worker.outcome)
            && (j.worker.Finished? && RequestOver(j) ==> (j.told == [j.worker.outcome] <==> !j.request.Answered?))
  {
    RunInv(r, i);
  }

  function WorkerLeft(w: Worker): nat {
    match w case Running => 3 case Handing(_) => 2 case Telling(_) => 2 case Clearing(_) => 1 case Finished(_) => 0
  }

  function RequestLeft(q: Request): nat {
    match q case Waiting => 3 case Trying => 2 case Awaiting => 1 case _ => 0
  }

  /** Steps a job can still take. */
  function Work(j: Job): nat {
    WorkerLeft(j.worker) + RequestLeft(j.request)
  }

  ghost predicate Moves(s: State, s': State, id: nat) {
    Inside(s, s', id) || Clear(s, s', id)
  }

  /** Every step of a job uses up its work: it takes at most six. */
  lemma WorkDecreases(s: State, s': State, id: nat)
    requires Moves(s, s', id)
    ensures Work(s'.jobs[id]) < Work(s.jobs[id])
  {
  }

  /** Once git ended, while the job has work left one of its two sides can go
      on: neither waits for ever. */
  lemma NeverStuck(r: seq<State>, i: nat, id: nat)
    requires Run(r) && i < |r| && id in r[i].jobs
    requires !r[i].jobs[id].worker.Running? && Work(r[i].jobs[id]) > 0
    ensures exists s' :: Moves(r[i], s', id)
    ensures r[i].jobs[id].worker.Finished? ==> exists s' :: Inside(r[i], s', id) && RequestStep(r[i].jobs[id], s'.jobs[id])
  {
    RunInv(r, i);
    var s := r[i];
    var j := s.jobs[id];
    assert JobOk(j);
    if j.worker.Finished? {
      var j' := match j.request
                case Awaiting => j.(request := Answered(j.end.value), end := None)
                case Trying => j.(request := Awaiting)
                case _ => j.(request := Trying);
      var s' := State(s.running, s.jobs[id := j']);
      assert RequestStep(j, j') && Inside(s, s', id) && Moves(s, s', id);
    } else if j.worker.Clearing? {
      var s' := State(s.running - {j.key}, s.jobs[id := j.(worker := Finished(j.worker.outcome))]);
      assert Clear(s, s', id) && Moves(s, s', id);
    } else {
      var j' := if j.worker.Handing? then j.(worker := Clearing(j.worker.outcome), end := Some(j.worker.outcome))
                else j.(worker := Clearing(j.worker.outcome), told := j.told + [j.worker.outcome]);
      var s' := State(s.running, s.jobs[id := j']);
      assert WorkerStep(j, j') && Inside(s, s', id) && Moves(s, s', id);
    }
  }

  // ---- what a job can come to ----

  /** A job whose key is free can be started; when git ends while its request
      waits, the request is answered with git's outcome and the key is free. */
  lemma JobAnswers(s: State, key: string, id: nat, e: Outcome) returns (path: seq<State>)
    requires key !in s.running && id !in s.jobs
    ensures |path| > 0 && path[0] == s && forall i | 0 < i < |path| :: Step(path[i - 1], path[i])
    ensures var t := path[|path| - 1];
            && t.running == s.running && t.jobs == s.jobs[id := Job(key, Answered(e), Finished(e), false, None, [])]
  {
    var j0 := Job(key, Waiting, Running, true, None, []);
    var j1 := j0.(worker := Handing(e), token := false);
    var j2 := j1.(worker := Clearing(e), end := Some(e));
    var j3 := j2.(request := Answered(e), end := None);
    var j4 := j3.(worker := Finished(e));
    var s1 := State(s.running + {key}, s.jobs[id := j0]);
    var s2 := State(s1.running, s.jobs[id := j1]);
    var s3 := State(s1.running, s.jobs[id := j2]);
    var s4 := State(s1.running, s.jobs[id := j3]);
    var s5 := State(s.running, s.jobs[id := j4]);
    assert Start(s, s1, key, id) && EndStep(j0, j1, e) && WorkerStep(j1, j2) && RequestStep(j2, j3) && ClearStep(j3, j4);
    assert s1.jobs[id := j1] == s2.jobs && s2.jobs[id := j2] == s3.jobs && s3.jobs[id := j3] == s4.jobs && s4.jobs[id := j4] == s5.jobs;
    assert s4.running - {key} == s.running;
    assert Inside(s1, s2, id) && Inside(s2, s3, id) && Inside(s3, s4, id) && Clear(s4, s5, id);
    path := [s, s1, s2, s3, s4, s5];
  }

  /** When git ends after its request has left, the event path tells the outcome. */
  lemma JobTells(s: State, key: string, id: nat, e: Outcome) returns (path: seq<State>)
    requires key !in s.running && id !in s.jobs
    ensures |path| > 0 && path[0] == s && forall i | 0 < i < |path| :: Step(path[i - 1], path[i])
    ensures var t := path[|path| - 1];
            && t.running == s.running && t.jobs == s.jobs[id := Job(key, Left, Finished(e), false, None, [e])]
  {
    var j0 := Job(key, Waiting, Running, true, None, []);
    var j1 := j0.(request := Trying);
    var j2 := j1.(request := Left, token := false);
    var j3 := j2.(worker := Telling(e));
    var j4 := j3.(worker := Clearing(e), told := [] + [e]);
    var j5 := j4.(worker := Finished(e));
    assert [] + [e] == [e] && j5 == Job(key, Left, Finished(e), false, None, [e]);
    var s1 := State(s.running + {key}, s.jobs[id := j0]);
    var s2 := State(s1.running, s.jobs[id := j1]);
    var s3 := State(s1.running, s.jobs[id := j2]);
    var s4 := State(s1.running, s.jobs[id := j3]);
    var s5 := State(s1.running, s.jobs[id := j4]);
    var s6 := State(s.running, s.jobs[id := j5]);
    assert Start(s, s1, key, id) && RequestStep(j0, j1) && RequestStep(j1, j2) && EndStep(j2, j3, e) && WorkerStep(j3, j4) && ClearStep(j4, j5);
    assert s1.jobs[id := j1] == s2.jobs && s2.jobs[id := j2] == s3.jobs && s3.jobs[id := j3] == s4.jobs;
    assert s4.jobs[id := j4] == s5.jobs && s5.jobs[id := j5] == s6.jobs;
    assert s5.running - {key} == s.running;
    assert Inside(s1, s2, id) && Inside(s2, s3, id) && Inside(s3, s4, id) && Inside(s4, s5, id) && Clear(s5, s6, id);
    path := [s, s1, s2, s3, s4, s5, s6];
  }
}
