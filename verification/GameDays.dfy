/**
  A game day by day: what is submitted and recorded while the checks of a tick are pending, and what a whole game leaves
  in its archive.
 */
module GameDays {
  import opened GoValues
  import opened Codec
  import opened Scoreboard
  import opened GameRules
  import opened GameInvariant
  import opened Timeline

  // ---------- Submissions ----------

  datatype Submission = Submission(info: int, flag: string)

  /** The results of the checks of one tick, and what is submitted while certain checks are still pending. */
  datatype Day = Day(result: Duty -> bool, traffic: set<Duty> -> seq<Submission>)

  /** A text that does not verify, or a flag that has been made when these checks of the tick are still pending. */
  predicate Issued(cfg: Config, tick: int, pending: set<Duty>, flag: string) {
    match cfg.decode(flag)
    case None => true
    case Some(tr) =>
      var duty := Duty(tr.team, tr.service);
      cfg.IsDuty(duty) && 1 <= tr.tick <= tick && (tr.tick == tick ==> duty !in pending)
  }

  predicate AllIssued(cfg: Config, tick: int, pending: set<Duty>, submissions: seq<Submission>) {
    forall n :: 0 <= n < |submissions| ==> Issued(cfg, tick, pending, submissions[n].flag)
  }

  ghost predicate Honest(cfg: Config, tick: int, day: Day) {
    forall pending :: pending <= cfg.Duties() ==> AllIssued(cfg, tick, pending, day.traffic(pending))
  }

  lemma IssuedIsUnforged(cfg: Config, s: State, flag: string)
    requires cfg.Valid() && Reachable(cfg, s) && Issued(cfg, s.currentTick, s.pending, flag)
    ensures Unforged(cfg, s, flag)
  {
    ReachableInv(cfg, s);
    if cfg.decode(flag).Some? {
      assert SignedAt(cfg, s, cfg.decode(flag).value);
    }
  }

  /** Submissions change neither the phase, the tick, the pending checks nor the archive. */
  ghost predicate SameProgress(s: State, s': State) {
    && s'.running == s.running && s'.phase == s.phase && s'.currentTick == s.currentTick && s'.pending == s.pending
    && s'.ticks == s.ticks && s'.overall == s.overall
  }

  lemma PlayingRuns(cfg: Config, s: State)
    requires cfg.Valid() && Reachable(cfg, s) && (s.phase == Playing || s.phase == Closing)
    ensures s.running && (s.phase == Closing ==> s.pending == {})
  {
    ReachableInv(cfg, s);
  }

  /** A submission that passes the running check and is judged at once. */
  ghost predicate ServedOne(cfg: Config, s: State, submission: Submission, outcome: Outcome, s': State)
    requires cfg.Valid()
  {
    s.running && Next(cfg, s.(inFlight := s.inFlight + 1), Submit(submission.info, submission.flag, outcome), s')
  }

  /** Submissions that are judged one after the other, and their answers. */
  ghost predicate Served(cfg: Config, s: State, submissions: seq<Submission>, outcomes: seq<Outcome>, s': State)
    requires cfg.Valid()
    decreases |submissions|
  {
    && |outcomes| == |submissions|
    && if |submissions| == 0 then s' == s
       else
         var n := |submissions| - 1;
         exists mid :: Served(cfg, s, submissions[..n], outcomes[..n], mid)
           && ServedOne(cfg, mid, submissions[n], outcomes[n], s')
  }

  /** One uptime check: its flag is made, and its result is recorded. */
  ghost predicate CheckDone(s: State, duty: Duty, success: bool, s': State) {
    CheckRecorded(s.(signed := s.signed + {TripleOf(s, duty)}), duty, success, s')
  }

  /** The checks of a tick in some order, each with its result, and submissions before each of them and at the end. */
  ghost predicate DayPlayed(cfg: Config, day: Day, s: State, s': State)
    requires cfg.Valid()
    decreases s.pending, 1
  {
    exists outcomes, mid ::
      Served(cfg, s, day.traffic(s.pending), outcomes, mid) && DayGoesOn(cfg, day, s.pending, mid, s')
  }

  ghost predicate DayGoesOn(cfg: Config, day: Day, pending: set<Duty>, s: State, s': State)
    requires cfg.Valid()
    decreases pending, 0
  {
    if pending == {} then s' == s
    else exists duty, next ::
           && duty in pending && CheckDone(s, duty, day.result(duty), next) && next.pending == pending - {duty}
           && DayPlayed(cfg, day, next, s')
  }

  lemma StolenKeepsChecks(b: Board, info: int, tr: Triple, t: int, i: int)
    requires HasService(b, info, tr.service) && HasService(b, tr.team, tr.service)
    ensures RawAt(Stolen(b, info, tr), t, i).checks == RawAt(b, t, i).checks
  {
  }

  /** The check results on the open board are the same. */
  ghost predicate SameChecks(s: State, s': State) {
    && s.current.Some? && s'.current.Some?
    && forall t, i :: RawAt(s'.current.value, t, i).checks == RawAt(s.current.value, t, i).checks
  }

  lemma ServedOneKeeps(cfg: Config, s: State, submission: Submission, outcome: Outcome, s': State)
    requires cfg.Valid() && Reachable(cfg, s) && ServedOne(cfg, s, submission, outcome, s') && s.current.Some?
    ensures Reachable(cfg, s') && SameProgress(s, s') && SameChecks(s, s')
  {
    var entered := s.(inFlight := s.inFlight + 1);
    ReachableStep(cfg, s, EnterSubmit, entered);
    ReachableStep(cfg, entered, Submit(submission.info, submission.flag, outcome), s');
    if outcome == Answer(FlagAccepted) {
      var tr := cfg.decode(submission.flag).value;
      forall t, i ensures RawAt(s'.current.value, t, i).checks == RawAt(s.current.value, t, i).checks {
        StolenKeepsChecks(s.current.value, submission.info, tr, t, i);
      }
    }
  }

  lemma {:induction false} ServedKeeps(cfg: Config, s: State, submissions: seq<Submission>, outcomes: seq<Outcome>,
                                       s': State)
    requires cfg.Valid() && Reachable(cfg, s) && Served(cfg, s, submissions, outcomes, s') && s.current.Some?
    ensures Reachable(cfg, s') && SameProgress(s, s') && SameChecks(s, s')
    decreases |submissions|
  {
    if |submissions| > 0 {
      var n := |submissions| - 1;
      var mid :| Served(cfg, s, submissions[..n], outcomes[..n], mid)
        && ServedOne(cfg, mid, submissions[n], outcomes[n], s');
      ServedKeeps(cfg, s, submissions[..n], outcomes[..n], mid);
      ServedOneKeeps(cfg, mid, submissions[n], outcomes[n], s');
    }
  }

  /** A service has got its result if its check was pending, and has the results it had otherwise. */
  ghost predicate ResultAt(day: Day, pending: set<Duty>, b: Board, b': Board, t: int, i: int) {
    RawAt(b', t, i).checks ==
    if Duty(t, i) in pending then RawAt(b, t, i).WithCheck(day.result(Duty(t, i))).checks else RawAt(b, t, i).checks
  }

  lemma CheckDoneAt(cfg: Config, day: Day, s: State, duty: Duty, s': State)
    requires cfg.Valid() && Reachable(cfg, s) && CheckDone(s, duty, day.result(duty), s')
    ensures Reachable(cfg, s') && s.current.Some? && s'.current.Some?
    ensures forall t, i :: ResultAt(day, {duty}, s.current.value, s'.current.value, t, i)
  {
    var made := s.(signed := s.signed + {TripleOf(s, duty)});
    ReachableStep(cfg, s, GenerateFlag(duty), made);
    ReachableStep(cfg, made, RecordCheck(duty, day.result(duty)), s');
  }

  lemma ResultsJoin(day: Day, pending: set<Duty>, duty: Duty, b: Board, b1: Board, b2: Board, b3: Board, t: int, i: int)
    requires duty in pending && RawAt(b1, t, i).checks == RawAt(b, t, i).checks
    requires ResultAt(day, {duty}, b1, b2, t, i) && ResultAt(day, pending - {duty}, b2, b3, t, i)
    ensures ResultAt(day, pending, b, b3, t, i)
  {
  }

  /** However its checks and submissions interleave, a day leaves one result for each of its checks: the given one. */
  lemma {:induction false} DayResults(cfg: Config, day: Day, s: State, s': State)
    requires cfg.Valid() && Reachable(cfg, s) && s.current.Some? && DayPlayed(cfg, day, s, s')
    ensures Reachable(cfg, s') && s'.current.Some? && s'.pending == {}
    ensures forall t, i :: ResultAt(day, s.pending, s.current.value, s'.current.value, t, i)
    decreases s.pending
  {
    var outcomes, mid :|
      Served(cfg, s, day.traffic(s.pending), outcomes, mid) && DayGoesOn(cfg, day, s.pending, mid, s');
    ServedKeeps(cfg, s, day.traffic(s.pending), outcomes, mid);
    if s.pending != {} {
      var duty, next :| duty in s.pending && CheckDone(mid, duty, day.result(duty), next)
        && next.pending == s.pending - {duty} && DayPlayed(cfg, day, next, s');
      CheckDoneAt(cfg, day, mid, duty, next);
      DayResults(cfg, day, next, s');
      forall t, i ensures ResultAt(day, s.pending, s.current.value, s'.current.value, t, i) {
        ResultsJoin(day, s.pending, duty, s.current.value, mid.current.value, next.current.value, s'.current.value,
                    t, i);
      }
    }
  }

  /** One firing of the timer: a tick begins and is played, or the game has had all its ticks. */
  ghost predicate TickPlayed(cfg: Config, day: Day, s: State, s': State)
    requires cfg.Valid()
  {
    if s.currentTick < cfg.TotalTicks() then exists begun :: TickBegins(cfg, s, begun) && DayPlayed(cfg, day, begun, s')
    else s' == s
  }

  ghost predicate DaysPlayed(cfg: Config, days: seq<Day>, s: State, s': State)
    requires cfg.Valid()
    decreases |days|
  {
    if |days| == 0 then s' == s
    else
      var n := |days| - 1;
      exists mid :: DaysPlayed(cfg, days[..n], s, mid) && TickPlayed(cfg, days[n], mid, s')
  }

  lemma OneMoreDay(cfg: Config, days: seq<Day>, n: nat, s: State, mid: State, s': State)
    requires cfg.Valid() && n < |days| && DaysPlayed(cfg, days[..n], s, mid) && TickPlayed(cfg, days[n], mid, s')
    ensures DaysPlayed(cfg, days[..n + 1], s, s')
  {
    assert days[..n + 1][..n] == days[..n];
  }

  /** The last rollover, late submissions and their answers, and the end. */
  ghost predicate Finished(cfg: Config, s: State, late: seq<Submission>, outcomes: seq<Outcome>, s': State)
    requires cfg.Valid()
  {
    exists closed, served ::
      GameCloses(cfg, s, closed) && Served(cfg, closed, late, outcomes, served) && Next(cfg, served, Stop, s')
  }

  /** A whole game. */
  ghost predicate GamePlayed(cfg: Config, s: State, days: seq<Day>, late: seq<Submission>, outcomes: seq<Outcome>,
                             s': State)
    requires cfg.Valid()
  {
    exists started, played ::
      && Next(cfg, s, Step.Start, started) && DaysPlayed(cfg, days, started, played)
      && Finished(cfg, played, late, outcomes, s')
  }

  /** Every team and bot has exactly one result for every checked service: that of the day. */
  ghost predicate DayRecorded(cfg: Config, day: Day, b: Board) {
    forall duty :: cfg.IsDuty(duty) ==>
      RawAt(b, duty.team, duty.check).checks == NO_DATA.WithCheck(day.result(duty)).checks
  }

  ghost predicate ArchiveRecorded(cfg: Config, days: seq<Day>, ticks: seq<Board>) {
    |ticks| <= |days| && forall k :: 0 <= k < |ticks| ==> DayRecorded(cfg, days[k], ticks[k])
  }

  /** The archive and the open tick record the days that have been played. */
  ghost predicate DaysRecorded(cfg: Config, days: seq<Day>, s: State) {
    && s.currentTick <= |days| && ArchiveRecorded(cfg, days, s.ticks)
    && (s.current.Some? ==> s.currentTick == |s.ticks| + 1 && DayRecorded(cfg, days[|s.ticks|], s.current.value))
    && (s.current.None? ==> s.currentTick == 0 && s.ticks == [])
  }

  lemma {:induction false} DayKeepsArchive(cfg: Config, day: Day, s: State, s': State)
    requires cfg.Valid() && Reachable(cfg, s) && s.current.Some? && DayPlayed(cfg, day, s, s')
    ensures s'.ticks == s.ticks && s'.currentTick == s.currentTick && s'.phase == s.phase
    decreases s.pending
  {
    var outcomes, mid :|
      Served(cfg, s, day.traffic(s.pending), outcomes, mid) && DayGoesOn(cfg, day, s.pending, mid, s');
    ServedKeeps(cfg, s, day.traffic(s.pending), outcomes, mid);
    if s.pending != {} {
      var duty, next :| duty in s.pending && CheckDone(mid, duty, day.result(duty), next)
        && next.pending == s.pending - {duty} && DayPlayed(cfg, day, next, s');
      CheckDoneAt(cfg, day, mid, duty, next);
      DayKeepsArchive(cfg, day, next, s');
    }
  }

  lemma TickRecords(cfg: Config, days: seq<Day>, s: State, begun: State, s': State)
    requires cfg.Valid() && Reachable(cfg, s) && DaysRecorded(cfg, days, s) && s.currentTick < |days|
    requires TickBegins(cfg, s, begun) && DayPlayed(cfg, days[s.currentTick], begun, s')
    ensures DaysRecorded(cfg, days, s')
  {
    var day := days[s.currentTick];
    ReachableStep(cfg, s, Step.BeginTick, begun);
    DayResults(cfg, day, begun, s');
    DayKeepsArchive(cfg, day, begun, s');
    RolledArchive(cfg, days, s, begun);
    forall duty | cfg.IsDuty(duty)
      ensures RawAt(s'.current.value, duty.team, duty.check).checks == NO_DATA.WithCheck(day.result(duty)).checks
    {
      FreshBoardAt(cfg, begun.currentTick, duty.team, duty.check);
      assert Duty(duty.team, duty.check) in begun.pending;
      assert ResultAt(day, begun.pending, begun.current.value, s'.current.value, duty.team, duty.check);
    }
  }

  lemma TickRecorded(cfg: Config, days: seq<Day>, s: State, s': State)
    requires cfg.Valid() && Reachable(cfg, s) && DaysRecorded(cfg, days, s)
    requires s.currentTick < cfg.TotalTicks() ==> s.currentTick < |days|
    requires s.currentTick < cfg.TotalTicks() ==> TickPlayed(cfg, days[s.currentTick], s, s')
    requires s.currentTick >= cfg.TotalTicks() ==> s' == s
    ensures DaysRecorded(cfg, days, s')
  {
    if s.currentTick < cfg.TotalTicks() {
      var begun :| TickBegins(cfg, s, begun) && DayPlayed(cfg, days[s.currentTick], begun, s');
      TickRecords(cfg, days, s, begun, s');
    }
  }

  lemma NothingRecorded(cfg: Config, days: seq<Day>, s: State)
    requires cfg.Valid() && Reachable(cfg, s) && s.phase == Playing && s.currentTick == 0
    ensures DaysRecorded(cfg, days, s)
  {
    ReachableInv(cfg, s);
  }

  /** A rollover keeps the results of the tick that it closes. */
  lemma RolledArchive(cfg: Config, days: seq<Day>, s: State, s': State)
    requires cfg.Valid() && DaysRecorded(cfg, days, s) && Rolled(cfg, s, s')
    ensures ArchiveRecorded(cfg, days, s'.ticks) && |s'.ticks| == s.currentTick
  {
    if s.current.Some? {
      var n := |s.ticks|;
      forall duty | cfg.IsDuty(duty)
        ensures RawAt(s'.ticks[n], duty.team, duty.check) == RawAt(s.current.value, duty.team, duty.check)
      {
        ClosedTickRaw(cfg, s, s', duty.team, duty.check);
      }
      forall k | 0 <= k < |s'.ticks| ensures DayRecorded(cfg, days[k], s'.ticks[k]) {
        if k < n {
          assert s'.ticks[k] == s.ticks[k];
        }
      }
    }
  }

  /** Where the game loop is after `n` days. */
  ghost predicate GameAt(cfg: Config, queue: seq<Event>, days: seq<Day>, n: nat, start: State, s: State,
                         events: seq<Event>)
    requires cfg.Valid()
  {
    && n <= |days| && s.phase == Playing && s.pending == {} && s.currentTick == Played(cfg, n)
    && DaysPlayed(cfg, days[..n], start, s) && DaysRecorded(cfg, days, s)
    && events == Triggered(queue, cfg.tickRate, Played(cfg, n))
  }

  lemma GameStarts(cfg: Config, queue: seq<Event>, days: seq<Day>, s: State)
    requires cfg.Valid() && Reachable(cfg, s) && s.phase == Playing && s.pending == {} && s.currentTick == 0
    ensures GameAt(cfg, queue, days, 0, s, s, [])
  {
    NothingRecorded(cfg, days, s);
    assert days[..0] == [];
  }

  lemma PlayedNext(cfg: Config, n: nat)
    requires cfg.Valid()
    ensures Played(cfg, n) < cfg.TotalTicks() ==> Played(cfg, n) == n && Played(cfg, n + 1) == n + 1
    ensures Played(cfg, n) >= cfg.TotalTicks() ==> Played(cfg, n + 1) == Played(cfg, n)
  {
  }

  lemma GameGoesOn(cfg: Config, queue: seq<Event>, days: seq<Day>, n: nat, start: State, s: State, events: seq<Event>,
                   s': State, more: seq<Event>)
    requires cfg.Valid() && Reachable(cfg, s) && n < |days| && GameAt(cfg, queue, days, n, start, s, events)
    requires TickPlayed(cfg, days[n], s, s') && s'.phase == Playing && s'.pending == {}
    requires s'.currentTick == if s.currentTick < cfg.TotalTicks() then s.currentTick + 1 else s.currentTick
    requires more == if s'.currentTick > s.currentTick then Due(queue, cfg.tickRate, s'.currentTick, s'.currentTick)
                     else []
    ensures GameAt(cfg, queue, days, n + 1, start, s', events + more)
  {
    PlayedNext(cfg, n);
    OneMoreDay(cfg, days, n, start, s, s');
    TickRecorded(cfg, days, s, s');
  }

  /** Whatever a day goes on with after some submissions and one check, it is a day that began with them. */
  lemma DayBegins(cfg: Config, day: Day, s: State, outcomes: seq<Outcome>, mid: State, duty: Duty, next: State)
    requires cfg.Valid() && Served(cfg, s, day.traffic(s.pending), outcomes, mid) && duty in s.pending
    requires CheckDone(mid, duty, day.result(duty), next) && next.pending == s.pending - {duty}
    ensures forall s' :: DayPlayed(cfg, day, next, s') ==> DayPlayed(cfg, day, s, s')
  {
    forall s' | DayPlayed(cfg, day, next, s') ensures DayPlayed(cfg, day, s, s') {
      assert DayGoesOn(cfg, day, s.pending, mid, s');
    }
  }

  lemma DayEnds(cfg: Config, day: Day, s: State, outcomes: seq<Outcome>, s': State)
    requires cfg.Valid() && Served(cfg, s, day.traffic({}), outcomes, s') && s.pending == {}
    ensures DayPlayed(cfg, day, s, s')
  {
    assert DayGoesOn(cfg, day, {}, s', s');
  }

  lemma ServedMore(cfg: Config, s: State, submissions: seq<Submission>, n: nat, outcomes: seq<Outcome>, mid: State,
                   outcome: Outcome, s': State)
    requires cfg.Valid() && n < |submissions| && Served(cfg, s, submissions[..n], outcomes, mid)
    requires ServedOne(cfg, mid, submissions[n], outcome, s')
    ensures Served(cfg, s, submissions[..n + 1], outcomes + [outcome], s')
  {
    var longer, answers := submissions[..n + 1], outcomes + [outcome];
    assert longer[..n] == submissions[..n] && answers[..n] == outcomes && longer[n] == submissions[n];
  }

  /** How many ticks have been played when the timer has fired `n` times. */
  function Played(cfg: Config, n: nat): nat
    requires cfg.Valid()
  {
    if cfg.TotalTicks() < 0 then 0 else if n < cfg.TotalTicks() then n else cfg.TotalTicks()
  }

  /** One for every firing, until no further tick fits into the duration of the game. */
  lemma PlayedFits(cfg: Config, n: nat)
    requires cfg.Valid()
    ensures var k := Played(cfg, n);
            && k <= n && (k > 0 ==> k * cfg.tickRate <= cfg.duration)
            && (k < n ==> (k + 1) * cfg.tickRate > cfg.duration)
  {
    var k := Played(cfg, n);
    TicksFit(cfg, k + 1);
    if k > 0 {
      TicksFit(cfg, k);
    }
  }
}
