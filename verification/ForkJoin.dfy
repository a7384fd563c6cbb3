/**
  Fork and join with an error channel: one goroutine per callback, errors sent on a bounded channel that nobody reads
  before the join, and a join that waits for all goroutines. `ForAllTeams` and `ForEachService` are two instances.
 */
module ForkJoin {
  import opened Collections

  /** `fails[w]` tells whether the callback of worker `w` returns an error. */
  datatype Job = Job(fails: seq<bool>, capacity: nat) {
    function Workers(): nat {
      |fails|
    }

    function Failing(): set<nat> {
      set w: nat | w < |fails| && fails[w]
    }
  }

  /** A failed worker is done only when the channel has taken its error. */
  datatype Worker = Unborn | Started | Sending | Done

  datatype Main = Spawning | Returned(error: bool)

  /** `spawned` workers exist; `calls` counts, for every worker, how often its callback ran; `channel` is the buffer. */
  datatype State = State(main: Main, spawned: nat, workers: seq<Worker>, calls: seq<nat>, channel: seq<nat>)

  datatype Step = Spawn | Call(w: nat) | Send(w: nat) | Join

  ghost predicate Initial(job: Job, s: State) {
    && s.main == Spawning && s.spawned == 0 && s.channel == []
    && |s.workers| == |s.calls| == job.Workers()
    && forall w :: 0 <= w < job.Workers() ==> s.workers[w] == Unborn && s.calls[w] == 0
  }

  predicate Enabled(job: Job, s: State, step: Step)
    requires |s.workers| == |s.calls| == job.Workers()
  {
    match step
    case Spawn => s.main == Spawning && s.spawned < job.Workers()
    case Call(w) => w < job.Workers() && s.workers[w] == Started
    case Send(w) => w < job.Workers() && s.workers[w] == Sending && |s.channel| < job.capacity
    case Join =>
      && s.main == Spawning && s.spawned == job.Workers()
      && forall w :: 0 <= w < job.Workers() ==> s.workers[w] == Done
  }

  function After(job: Job, s: State, step: Step): State
    requires |s.workers| == |s.calls| == job.Workers() && Enabled(job, s, step)
  {
    match step
    case Spawn => s.(spawned := s.spawned + 1, workers := s.workers[s.spawned := Started])
    case Call(w) =>
      s.(workers := s.workers[w := if job.fails[w] then Sending else Done], calls := s.calls[w := s.calls[w] + 1])
    case Send(w) => s.(workers := s.workers[w := Done], channel := s.channel + [w])
    case Join => s.(main := Returned(s.channel != []))
  }

  /** One more step at the end of a run. */
  ghost predicate Reaches(job: Job, steps: seq<Step>, s: State)
    decreases |steps|
  {
    && |s.workers| == |s.calls| == job.Workers()
    && if |steps| == 0 then Initial(job, s)
       else
         var n := |steps| - 1;
         exists before :: Reaches(job, steps[..n], before) && Enabled(job, before, steps[n])
           && After(job, before, steps[n]) == s
  }

  ghost predicate Reachable(job: Job, s: State) {
    exists steps :: Reaches(job, steps, s)
  }

  // ---------- The invariant ----------

  ghost predicate Inv(job: Job, s: State) {
    && |s.workers| == |s.calls| == job.Workers() && s.spawned <= job.Workers()
    && (forall w :: 0 <= w < job.Workers() ==> WorkerInv(job, s, w))
    && NoDuplicates(s.channel) && |s.channel| <= job.capacity
    && (forall w :: w in s.channel ==> w < job.Workers() && job.fails[w] && s.workers[w] == Done)
    && (s.main.Returned? ==>
          (forall w :: 0 <= w < job.Workers() ==> s.workers[w] == Done) && (s.main.error <==> s.channel != []))
  }

  /** What one worker did: its callback ran once when it is past it, and its error is in the channel when it is done. */
  ghost predicate WorkerInv(job: Job, s: State, w: nat)
    requires w < job.Workers() == |s.workers| == |s.calls|
  {
    && (s.workers[w] == Unborn <==> w >= s.spawned)
    && s.calls[w] == (if s.workers[w] == Unborn || s.workers[w] == Started then 0 else 1)
    && (s.workers[w] == Sending ==> job.fails[w])
    && (s.workers[w] == Done && job.fails[w] ==> w in s.channel)
  }

  lemma StepKeepsInv(job: Job, s: State, step: Step)
    requires Inv(job, s) && Enabled(job, s, step)
    ensures Inv(job, After(job, s, step))
  {
    var s' := After(job, s, step);
    forall w | 0 <= w < job.Workers() ensures WorkerInv(job, s', w) {
      assert WorkerInv(job, s, w);
    }
    if step.Send? {
      assert WorkerInv(job, s, step.w);
      assert step.w !in s.channel;
    }
    forall w | w in s'.channel ensures w < job.Workers() && job.fails[w] && s'.workers[w] == Done {
      assert w in s.channel || step == Send(w);
      if step.Spawn? {
        assert WorkerInv(job, s, s.spawned);
      }
    }
  }

  lemma {:induction false} ReachesInv(job: Job, steps: seq<Step>, s: State)
    requires Reaches(job, steps, s)
    ensures Inv(job, s)
    decreases |steps|
  {
    if |steps| > 0 {
      var n := |steps| - 1;
      var before :| Reaches(job, steps[..n], before) && Enabled(job, before, steps[n])
        && After(job, before, steps[n]) == s;
      ReachesInv(job, steps[..n], before);
      StepKeepsInv(job, before, steps[n]);
    }
  }

  lemma ReachableInv(job: Job, s: State)
    requires Reachable(job, s)
    ensures Inv(job, s)
  {
    var steps :| Reaches(job, steps, s);
    ReachesInv(job, steps, s);
  }

  // ---------- Every run ends ----------

  function WorkerWork(w: Worker): nat {
    match w
    case Unborn => 3
    case Started => 2
    case Sending => 1
    case Done => 0
  }

  function Work(workers: seq<Worker>): nat {
    if |workers| == 0 then 0 else WorkerWork(workers[0]) + Work(workers[1..])
  }

  /** How many steps are left at most. */
  function Measure(s: State): nat {
    Work(s.workers) + if s.main == Spawning then 1 else 0
  }

  lemma {:induction false} WorkUpdate(workers: seq<Worker>, w: nat, worker: Worker)
    requires w < |workers|
    ensures Work(workers[w := worker]) == Work(workers) - WorkerWork(workers[w]) + WorkerWork(worker)
  {
    if w == 0 {
      assert workers[0 := worker][1..] == workers[1..];
    } else {
      WorkUpdate(workers[1..], w - 1, worker);
      assert workers[w := worker][1..] == workers[1..][w - 1 := worker];
    }
  }

  /** Every step makes the measure smaller, so no run goes on for ever. */
  lemma StepsEnd(job: Job, s: State, step: Step)
    requires Inv(job, s) && Enabled(job, s, step)
    ensures Measure(After(job, s, step)) < Measure(s)
  {
    match step
    case Spawn =>
      assert WorkerInv(job, s, s.spawned);
      WorkUpdate(s.workers, s.spawned, Started);
    case Call(w) => WorkUpdate(s.workers, w, if job.fails[w] then Sending else Done);
    case Send(w) => WorkUpdate(s.workers, w, Done);
    case Join =>
  }

  // ---------- When it completes ----------

  /** Nothing can happen any more, and the caller still waits. */
  ghost predicate Stuck(job: Job, s: State)
    requires |s.workers| == |s.calls| == job.Workers()
  {
    s.main == Spawning && forall step :: !Enabled(job, s, step)
  }

  lemma ChannelBound(job: Job, s: State)
    requires Inv(job, s)
    ensures Elements(s.channel) <= job.Failing() && |Elements(s.channel)| == |s.channel| <= |job.Failing()|
  {
    DistinctSize(s.channel);
    SubsetSize(Elements(s.channel), job.Failing());
  }

  /** With room for every error nobody ever waits for ever. */
  lemma RoomForAllNeverSticks(job: Job, s: State)
    requires Reachable(job, s) && |job.Failing()| <= job.capacity
    ensures !Stuck(job, s)
  {
    ReachableInv(job, s);
    ChannelBound(job, s);
    if s.main == Spawning {
      var step := NextStep(job, s);
    }
  }

  lemma NextStep(job: Job, s: State) returns (step: Step)
    requires Inv(job, s) && s.main == Spawning && |job.Failing()| <= job.capacity
    ensures Enabled(job, s, step)
  {
    if s.spawned < job.Workers() {
      return Spawn;
    }
    if w :| 0 <= w < job.Workers() && s.workers[w] != Done {
      assert WorkerInv(job, s, w);
      if s.workers[w] == Started {
        return Call(w);
      }
      ChannelBound(job, s);
      var taken := Elements(s.channel);
      assert w in job.Failing() && w !in taken;
      if |s.channel| == job.capacity {
        SubsetSize(taken, job.Failing());
      }
      return Send(w);
    }
    return Join;
  }

  /** When the call returns, every callback has run exactly once, and the result is an error if one of them failed. */
  lemma ReturnsTheTruth(job: Job, s: State)
    requires Reachable(job, s) && s.main.Returned?
    ensures forall w :: 0 <= w < job.Workers() ==> s.calls[w] == 1
    ensures s.main.error <==> job.Failing() != {}
    ensures |job.Failing()| <= job.capacity
  {
    ReachableInv(job, s);
    ChannelBound(job, s);
    forall w | 0 <= w < job.Workers() ensures s.calls[w] == 1 && (job.fails[w] ==> w in s.channel) {
      assert WorkerInv(job, s, w);
    }
    assert forall w :: w in job.Failing() ==> w in s.channel;
    assert job.Failing() == Elements(s.channel);
    if s.channel != [] {
      assert s.channel[0] in job.Failing();
    }
  }

  lemma ReachableAfter(job: Job, s: State, step: Step)
    requires Reachable(job, s) && |s.workers| == |s.calls| == job.Workers() && Enabled(job, s, step)
    ensures Reachable(job, After(job, s, step))
  {
    var steps :| Reaches(job, steps, s);
    var longer := steps + [step];
    assert longer[..|longer| - 1] == steps;
    assert Reaches(job, longer, After(job, s, step));
  }

  /** From every reachable state some run goes on until the call returns or nothing can happen. */
  lemma {:induction false} RunToTheEnd(job: Job, s: State) returns (end: State)
    requires Reachable(job, s)
    ensures Reachable(job, end) && |end.workers| == |end.calls| == job.Workers()
    ensures end.main.Returned? || Stuck(job, end)
    decreases Measure(s)
  {
    ReachableInv(job, s);
    if step :| Enabled(job, s, step) {
      StepsEnd(job, s, step);
      ReachableAfter(job, s, step);
      end := RunToTheEnd(job, After(job, s, step));
    } else {
      end := s;
    }
  }

  function Start(job: Job): State {
    State(Spawning, 0, seq(job.Workers(), _ => Unborn), seq(job.Workers(), _ => 0), [])
  }

  lemma StartReachable(job: Job)
    ensures Reachable(job, Start(job))
  {
    assert Reaches(job, [], Start(job));
  }

  ghost predicate Returns(job: Job) {
    exists s :: Reachable(job, s) && s.main.Returned?
  }

  ghost predicate CanStick(job: Job) {
    exists s :: Reachable(job, s) && |s.workers| == |s.calls| == job.Workers() && Stuck(job, s)
  }

  /**
    The call returns exactly when the errors fit into the channel; otherwise it waits for ever, in every
    interleaving.
   */
  lemma ReturnsExactly(job: Job)
    ensures Returns(job) <==> |job.Failing()| <= job.capacity
    ensures CanStick(job) <==> |job.Failing()| > job.capacity
  {
    StartReachable(job);
    var end := RunToTheEnd(job, Start(job));
    if |job.Failing()| <= job.capacity {
      RoomForAllNeverSticks(job, end);
      forall s | Reachable(job, s) && |s.workers| == |s.calls| == job.Workers() ensures !Stuck(job, s) {
        RoomForAllNeverSticks(job, s);
      }
    } else {
      forall s | Reachable(job, s) ensures !s.main.Returned? {
        if s.main.Returned? {
          ReturnsTheTruth(job, s);
        }
      }
    }
  }

  // ---------- The calls in the game ----------

  /**
    `ForAllTeams` in the foreground: one callback per team, and one per bot, over a channel with one place per team.
   */
  ghost predicate ForAllTeams(job: Job, teams: nat, bots: bool) {
    job.capacity == teams && job.Workers() == teams + if bots then teams else 0
  }

  /** `ForEachService`: one callback per check, over a channel with one place per service of the scorebot itself. */
  ghost predicate ForEachService(job: Job, checks: nat, services: nat) {
    job.capacity == services && job.Workers() == checks
  }

  lemma FailingAreWorkers(job: Job)
    ensures |job.Failing()| <= job.Workers()
  {
    SubsetSize(job.Failing(), Interval(0, job.Workers()));
  }

  /** The call returns exactly when no more callbacks fail than there are teams; without bots it always returns. */
  lemma AllTeamsReturn(job: Job, teams: nat, bots: bool)
    requires ForAllTeams(job, teams, bots)
    ensures job.Workers() == if bots then 2 * teams else teams
    ensures Returns(job) <==> |job.Failing()| <= teams
    ensures CanStick(job) <==> |job.Failing()| > teams
    ensures !bots ==> Returns(job) && !CanStick(job)
  {
    FailingAreWorkers(job);
    ReturnsExactly(job);
  }

  /** The same for the checks of one team: exactly when no more of them fail than the scorebot has services. */
  lemma EachServiceReturns(job: Job, checks: nat, services: nat)
    requires ForEachService(job, checks, services)
    ensures job.Workers() == checks
    ensures Returns(job) <==> |job.Failing()| <= services
    ensures CanStick(job) <==> |job.Failing()| > services
  {
    ReturnsExactly(job);
  }

  /** When no channel place is left for the last worker, all failing together is an outcome that sticks. */
  lemma AllFailing(workers: nat, capacity: nat)
    ensures CanStick(Job(seq(workers, _ => true), capacity)) <==> workers > capacity
  {
    var job := Job(seq(workers, _ => true), capacity);
    assert job.Failing() == Interval(0, workers);
    ReturnsExactly(job);
  }

  lemma FewWorkersNeverStick(job: Job)
    requires job.Workers() <= job.capacity
    ensures !CanStick(job)
  {
    FailingAreWorkers(job);
    ReturnsExactly(job);
  }

  /** With bots there are outcomes for which it does not return: more callbacks fail than there are teams. */
  lemma BotsMayStick(teams: nat)
    ensures (exists job :: ForAllTeams(job, teams, true) && CanStick(job)) <==> teams > 0
  {
    AllFailing(2 * teams, teams);
    assert ForAllTeams(Job(seq(2 * teams, _ => true), teams), teams, true);
    forall job | ForAllTeams(job, teams, true) && teams == 0 ensures !CanStick(job) {
      FewWorkersNeverStick(job);
    }
  }

  /** `ForEachService` may stick exactly when the scorebot has fewer services than checks. */
  lemma ServicesMayStick(checks: nat, services: nat)
    ensures (exists job :: ForEachService(job, checks, services) && CanStick(job)) <==> services < checks
  {
    AllFailing(checks, services);
    assert ForEachService(Job(seq(checks, _ => true), services), checks, services);
    forall job | ForEachService(job, checks, services) && services >= checks ensures !CanStick(job) {
      FewWorkersNeverStick(job);
    }
  }

  /**
    The two joins of a tick: no callback of the inner one ever fails, so the inner calls return without an error, so no
    callback of the outer one fails, and both return whatever the capacities are.
   */
  lemma TickAlwaysJoins(inner: Job, outer: Job)
    requires inner.Failing() == {}
    requires forall w :: 0 <= w < outer.Workers() ==>
               (outer.fails[w] ==> exists s :: Reachable(inner, s) && s.main == Returned(true))
    ensures Returns(inner) && !CanStick(inner) && Returns(outer) && !CanStick(outer)
    ensures forall s :: Reachable(outer, s) && s.main.Returned? ==> s.main == Returned(false)
  {
    ReturnsExactly(inner);
    forall w | w in outer.Failing() ensures false {
      var s :| Reachable(inner, s) && s.main == Returned(true);
      ReturnsTheTruth(inner, s);
    }
    assert outer.Failing() == {};
    ReturnsExactly(outer);
    forall s | Reachable(outer, s) && s.main.Returned? ensures s.main == Returned(false) {
      ReturnsTheTruth(outer, s);
    }
  }
}
