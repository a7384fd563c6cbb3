/**
  The game as an object. Its fields are those of the source; beside them it carries a state of the rules, and every
  method is proved to take one step of the rules from the old state to the new one. So every run of these methods is
  a run of the rules, and what is proved of reachable states holds of the object.
 */
module GameObjects {
  import opened GoValues
  import opened Codec
  import opened Scoreboard
  import opened GameRules
  import opened GameInvariant
  import opened GameTheorems
  import opened ScoreboardObjects
  import opened Summarize
  import opened OpenTick
  import opened Timeline
  import opened GameDays

  // ---------- Runs ----------

  lemma ShapeInRange(cfg: Config, b: Board)
    requires Shape(cfg, b)
    ensures InRange(b, |cfg.ScoringRules().private|)
  {
  }

  lemma ReachableShapes(cfg: Config, s: State)
    requires cfg.Valid() && Reachable(cfg, s)
    ensures Shapes(cfg, s)
  {
    ReachableInv(cfg, s);
  }

  lemma IdleTick(cfg: Config, s: State)
    requires cfg.Valid() && Reachable(cfg, s) && s.phase == Idle
    ensures s.currentTick == 0 && s.pending == {}
  {
    ReachableInv(cfg, s);
  }

  lemma RolledTickBegins(cfg: Config, s: State, rolled: State)
    requires cfg.Valid() && s.phase == Playing && s.pending == {} && s.currentTick < cfg.TotalTicks()
    requires Rolled(cfg, s, rolled)
    requires rolled == s.(currentTick := s.currentTick + 1, current := rolled.current, ticks := rolled.ticks,
                          overall := rolled.overall, closed := rolled.closed, open := rolled.open)
    ensures TickBegins(cfg, s, rolled.(pending := cfg.Duties()))
  {
  }

  // ---------- The game ----------

  class AttackDefenseGame {
    const cfg: Config
    var Running: bool
    var CurrentTick: int
    var CurrentState: ScoreboardState?
    var Ticks: seq<ScoreboardState>
    var OverallState: ScoreboardState?

    ghost var model: State
    // The objects of the open tick, and those of the archive and the summary.
    ghost var Live: set<object>
    ghost var Frozen: set<object>

    constructor (cfg: Config)
      requires cfg.Valid()
      ensures this.cfg == cfg && Valid() && IsInitial(model) && fresh(Live) && fresh(Frozen)
    {
      this.cfg := cfg;
      Running, CurrentTick, CurrentState, Ticks, OverallState := false, 0, null, [], null;
      model := State(false, 0, None, [], None, Idle, 0, {}, {}, [], []);
      Live, Frozen := {}, {};
      new;
      InitialReachable(cfg, model);
    }

    ghost predicate OpenIs(current: Option<Board>)
      reads `CurrentState, `Live, Live
    {
      match current
      case None => CurrentState == null
      case Some(b) =>
        && CurrentState != null && CurrentState in Live && CurrentState.Repr == Live
        && CurrentState.Valid() && CurrentState.View() == b
    }

    ghost predicate ArchiveIs(ticks: seq<Board>, overall: Option<Board>)
      reads `Ticks, `OverallState, `Frozen, Frozen
    {
      && |Ticks| == |ticks|
      && (forall k :: 0 <= k < |ticks| ==>
            && Ticks[k] in Frozen && Ticks[k].Repr <= Frozen
            && Ticks[k].Valid() && Ticks[k].View() == ticks[k])
      && match overall
         case None => OverallState == null
         case Some(b) =>
           && OverallState != null && OverallState in Frozen && OverallState.Repr <= Frozen
           && OverallState.Valid() && OverallState.View() == b
    }

    ghost predicate Apart()
      reads `Live, `Frozen
    {
      this !in Live && this !in Frozen && Live !! Frozen
    }

    /** The fields are those of the state that the rules are in. */
    ghost predicate Linked()
      reads this, Live, Frozen
    {
      && cfg.Valid() && Apart()
      && Running == model.running && CurrentTick == model.currentTick
      && OpenIs(model.current) && ArchiveIs(model.ticks, model.overall)
    }

    ghost predicate Valid()
      reads this, Live, Frozen
    {
      Linked() && Reachable(cfg, model)
    }

    method Begin()
      requires Valid() && model.phase == Idle
      modifies this
      ensures Valid() && Next(cfg, old(model), Step.Start, model) && Live == old(Live) && Frozen == old(Frozen)
    {
      Running := true;
      ghost var before := model;
      model := model.(phase := Playing, running := true);
      ReachableStep(cfg, before, Step.Start, model);
    }

    /** The open tick, summarized by itself, joins the archive. */
    method Archive(ghost current: Board, ghost ticks: seq<Board>, ghost overall: Option<Board>)
        returns (ghost last: Board)
      requires cfg.Valid() && Apart() && OpenIs(Some(current)) && ArchiveIs(ticks, overall) && Shape(cfg, current)
      modifies `Ticks, `Frozen
      ensures Apart() && OpenIs(Some(current)) && ArchiveIs(ticks + [last], overall)
      ensures fresh(Frozen - old(Frozen))
      ensures Summarizes(cfg.ScoringRules(), cfg.nan, [current], last)
    {
      ShapeInRange(cfg, current);
      var closed := SummarizeState(cfg.ScoringRules(), cfg.nan, [CurrentState], [current]);
      last := closed.View();
      Ticks := Ticks + [closed];
      Frozen := Frozen + closed.Repr;
    }

    /** The whole archive is summarized again. */
    method Resummarize(ghost ticks: seq<Board>, ghost overall: Option<Board>) returns (ghost sum: Board)
      requires cfg.Valid() && Apart() && ArchiveIs(ticks, overall) && forall k :: 0 <= k < |ticks| ==>
        Shape(cfg, ticks[k])
      modifies `OverallState, `Frozen
      ensures Apart() && ArchiveIs(ticks, Some(sum)) && fresh(Frozen - old(Frozen))
      ensures Summarizes(cfg.ScoringRules(), cfg.nan, ticks, sum)
    {
      forall k | 0 <= k < |ticks| ensures InRange(ticks[k], |cfg.ScoringRules().private|) {
        ShapeInRange(cfg, ticks[k]);
      }
      var result := SummarizeState(cfg.ScoringRules(), cfg.nan, Ticks, ticks);
      sum := result.View();
      OverallState := result;
      Frozen := Frozen + result.Repr;
    }

    method OpenTick(ghost ticks: seq<Board>, ghost overall: Option<Board>)
      requires cfg.Valid() && Apart() && ArchiveIs(ticks, overall)
      modifies `CurrentState, `Live
      ensures Apart() && OpenIs(Some(FreshBoard(cfg, CurrentTick))) && ArchiveIs(ticks, overall) && fresh(Live)
    {
      CurrentState := NewScoreboard(cfg, CurrentTick);
      Live := CurrentState.Repr;
    }

    /** The start of `Tick`: nothing after the last tick, otherwise a rollover into the next tick. */
    method BeginTick()
      requires Valid() && model.phase == Playing && model.pending == {}
      modifies this
      ensures Valid() && Next(cfg, old(model), Step.BeginTick, model)
      ensures fresh(Live - old(Live)) && fresh(Frozen - old(Frozen))
    {
      ghost var before := model;
      if CurrentTick < cfg.TotalTicks() {
        ReachableShapes(cfg, model);
        RollIntoNextTick();
      }
      ReachableStep(cfg, before, Step.BeginTick, model);
    }

    method RollIntoNextTick()
      requires Linked() && Shapes(cfg, model) && model.phase == Playing && model.pending == {}
      requires CurrentTick < cfg.TotalTicks()
      modifies this
      ensures Linked() && TickBegins(cfg, old(model), model)
      ensures fresh(Live - old(Live)) && fresh(Frozen - old(Frozen))
    {
      ghost var before := model;
      CurrentTick := CurrentTick + 1;
      ghost var rolled := UpdateScoreboard(before);
      model := rolled.(pending := cfg.Duties());
      RolledTickBegins(cfg, before, rolled);
    }

    /** The rollover after the last tick. */
    method FinalRollover()
      requires Valid() && model.phase == Playing && model.pending == {}
      modifies this
      ensures Valid() && Next(cfg, old(model), Step.FinalRollover, model)
      ensures fresh(Live - old(Live)) && fresh(Frozen - old(Frozen))
    {
      ghost var before := model;
      ReachableShapes(cfg, before);
      ghost var rolled := UpdateScoreboard(before);
      model := rolled.(phase := Closing);
      ReachableStep(cfg, before, Step.FinalRollover, model);
    }

    /** The first half of an uptime check: a flag of this tick is made for the team and service. */
    method GenerateFlag(gen: FlagGenerator, sign: SignFunction, duty: Duty) returns (flag: string)
      requires Valid() && duty in model.pending
      modifies `model
      ensures Valid() && Next(cfg, old(model), Step.GenerateFlag(duty), model)
      ensures flag == Generate(gen, Triple(CurrentTick, duty.team, duty.check), sign)
    {
      ghost var before := model;
      flag := Generate(gen, Triple(CurrentTick, duty.team, duty.check), sign);
      model := model.(signed := model.signed + {TripleOf(model, duty)});
      ReachableStep(cfg, before, Step.GenerateFlag(duty), model);
    }

    /** The second half of an uptime check: its result is counted in the open tick. */
    method RecordCheck(duty: Duty, success: bool)
      requires Valid() && duty in model.pending && TripleOf(model, duty) in model.signed
      modifies `model, Live
      ensures Valid() && Next(cfg, old(model), Step.RecordCheck(duty, success), model) && Live == old(Live)
    {
      ghost var before := model;
      PendingHasService(cfg, before, duty);
      CountCheck(duty, success);
      ReachableStep(cfg, before, Step.RecordCheck(duty, success), model);
    }

    method CountCheck(duty: Duty, success: bool)
      requires Linked() && duty in model.pending && TripleOf(model, duty) in model.signed
      requires model.current.Some? && HasService(model.current.value, duty.team, duty.check)
      modifies `model, Live
      ensures Linked() && CheckRecorded(old(model), duty, success, model) && Live == old(Live)
    {
      ghost var b := model.current.value;
      Count(duty, success, b);
      model := model.(pending := model.pending - {duty}, current := Some(AddCheck(b, duty.team, duty.check, success)),
                      open := model.open + [Check(duty.team, duty.check, success)]);
    }

    /** One of the two counters of the open tick. */
    method Count(duty: Duty, success: bool, ghost b: Board)
      requires Apart() && OpenIs(Some(b)) && HasService(b, duty.team, duty.check)
      modifies Live
      ensures OpenIs(Some(AddCheck(b, duty.team, duty.check, success)))
    {
      CurrentState.CountCheck(duty.team, duty.check, success);
    }

    /** The unlocked part of a submission: whether the game is running. */
    method EnterSubmit() returns (running: bool)
      requires Valid()
      modifies `model
      ensures Valid() && running == old(model).running
      ensures running ==> Next(cfg, old(model), Step.EnterSubmit, model)
      ensures !running ==> model == old(model)
    {
      running := Running;
      if running {
        ghost var before := model;
        model := model.(inFlight := model.inFlight + 1);
        ReachableStep(cfg, before, Step.EnterSubmit, model);
      }
    }

    /** `flagsStolenBy`: first the archived thefts, then those of the open tick; nothing when a map entry is nil. */
    method FlagsStolenBy(info: int, service: int, ghost current: Board, ghost overall: Board)
        returns (stolen: Option<seq<FlagInfo>>)
      requires OpenIs(Some(current)) && ArchiveIs(model.ticks, Some(overall))
      ensures stolen == if HasService(overall, info, service) && HasService(current, info, service)
                        then Some(StolenBy(overall, current, info, service)) else None
    {
      var archived := StolenOn(OverallState, info, service);
      var open := StolenOn(CurrentState, info, service);
      if archived.None? || open.None? {
        return None;
      }
      return Some(archived.value + open.value);
    }

    static method StolenOn(board: ScoreboardState, info: int, service: int) returns (stolen: Option<seq<FlagInfo>>)
      requires board.Valid()
      ensures stolen == if HasService(board.View(), info, service)
                        then Some(RawAt(board.View(), info, service).stolen) else None
    {
      ghost var view := board.View();
      if info !in board.Teams {
        return None;
      }
      assert view.teams[info] == board.Teams[info].View();
      if service !in board.Teams[info].Services {
        return None;
      }
      assert view.teams[info].services[service] == board.Teams[info].Services[service].View();
      return Some(board.Teams[info].Services[service].StolenFlags);
    }

    /** The checks that a submission has to pass, in their order. */
    method JudgeFlag(info: int, flag: string) returns (outcome: Outcome)
      requires Valid()
      ensures outcome == Judge(cfg, model.current, model.overall, info, flag)
    {
      var decoded := cfg.decode(flag);
      if decoded.None? {
        return Answer(InvalidFlag);
      }
      var tr := decoded.value;
      if tr.team == info {
        return Answer(FlagFromOwnTeam);
      }
      if tr.service < 0 || tr.service >= |cfg.services| {
        return Answer(InvalidService);
      }
      if CurrentState == null {
        return NilPanic;
      }
      if tr.tick < CurrentState.Tick - cfg.FlagValidTicks() {
        return Answer(FlagExpired);
      }
      if tr.tick > CurrentState.Tick {
        return Answer(FlagNotYetValid);
      }
      if OverallState == null {
        return NilPanic;
      }
      var stolen := FlagsStolenBy(info, tr.service, model.current.value, model.overall.value);
      if stolen.None? {
        return NilPanic;
      }
      var thefts := stolen.value;
      for n := 0 to |thefts|
        invariant FlagInfo(tr.team, tr.tick) !in thefts[..n]
      {
        if thefts[n].teamId == tr.team && thefts[n].tickId == tr.tick {
          return Answer(FlagAlreadyStolen);
        }
      }
      return Answer(FlagAccepted);
    }

    /** The two list entries of an accepted flag. */
    method Credit(info: int, tr: Triple, ghost b: Board)
      requires Apart() && OpenIs(Some(b)) && HasService(b, info, tr.service) && HasService(b, tr.team, tr.service)
      modifies Live
      ensures OpenIs(Some(Stolen(b, info, tr)))
    {
      CurrentState.AppendStolen(info, tr.service, FlagInfo(tr.team, tr.tick));
      CurrentState.AppendLost(tr.team, tr.service, FlagInfo(info, tr.tick));
    }

    /** The locked part of a submission. */
    method SubmitFlag(info: int, flag: string) returns (outcome: Outcome)
      requires Valid() && model.inFlight > 0 && Unforged(cfg, model, flag)
      modifies `model, Live
      ensures Valid() && Next(cfg, old(model), Submit(info, flag, outcome), model) && Live == old(Live)
    {
      ghost var before := model;
      outcome := JudgeFlag(info, flag);
      OpenBoardIsComplete(cfg, before, Duty(0, 0), info, flag);
      model := model.(inFlight := model.inFlight - 1);
      if outcome == Answer(FlagAccepted) {
        ScoreFlag(info, cfg.decode(flag).value);
      }
      ReachableStep(cfg, before, Submit(info, flag, outcome), model);
    }

    method ScoreFlag(info: int, tr: Triple)
      requires Linked() && model.current.Some?
      requires HasService(model.current.value, info, tr.service) && HasService(model.current.value, tr.team, tr.service)
      modifies `model, Live
      ensures Linked() && FlagScored(old(model), info, tr, model) && Live == old(Live)
    {
      ghost var b := model.current.value;
      Credit(info, tr, b);
      model := model.(current := Some(Stolen(b, info, tr)),
                      open := model.open + [Steal(info, tr.team, tr.tick, tr.service)]);
    }

    /** `updateScoreboard`; the tick number of the new open tick is already set. */
    method UpdateScoreboard(ghost s: State) returns (ghost s': State)
      requires cfg.Valid() && Apart() && OpenIs(s.current) && ArchiveIs(s.ticks, s.overall) && Shapes(cfg, s)
      modifies `CurrentState, `Ticks, `OverallState, `Live, `Frozen
      ensures Apart() && OpenIs(s'.current) && ArchiveIs(s'.ticks, s'.overall)
      ensures fresh(Live) && fresh(Frozen - old(Frozen))
      ensures s' == s.(currentTick := CurrentTick, current := s'.current, ticks := s'.ticks, overall := s'.overall,
                       closed := s'.closed, open := s'.open)
      ensures Rolled(cfg, s, s')
    {
      ghost var archived := s;
      if CurrentState != null {
        archived := CloseTick(s, s.current.value);
      }
      OpenTick(archived.ticks, archived.overall);
      s' := archived.(currentTick := CurrentTick, current := Some(FreshBoard(cfg, CurrentTick)), open := []);
    }

    /** Archive the open tick and summarize the archive. */
    method CloseTick(ghost s: State, ghost b: Board) returns (ghost s': State)
      requires cfg.Valid() && Apart() && OpenIs(s.current) && ArchiveIs(s.ticks, s.overall) && Shapes(cfg, s)
      requires s.current == Some(b)
      modifies `Ticks, `OverallState, `Frozen
      ensures Apart() && OpenIs(s'.current) && ArchiveIs(s'.ticks, s'.overall) && fresh(Frozen - old(Frozen))
      ensures s' == s.(ticks := s'.ticks, overall := s'.overall, closed := s.closed + [s.open])
      ensures |s'.ticks| == |s.ticks| + 1 && s'.ticks[..|s.ticks|] == s.ticks
      ensures Summarizes(cfg.ScoringRules(), cfg.nan, [b], s'.ticks[|s.ticks|])
      ensures s'.overall.Some? && Summarizes(cfg.ScoringRules(), cfg.nan, s'.ticks, s'.overall.value)
    {
      ghost var last := Archive(b, s.ticks, s.overall);
      SummarizesShape(cfg, [b], last);
      ghost var ticks := s.ticks + [last];
      ghost var sum := Resummarize(ticks, s.overall);
      s' := s.(ticks := ticks, overall := Some(sum), closed := s.closed + [s.open]);
    }

    /** One uptime check. */
    method RunCheck(gen: FlagGenerator, sign: SignFunction, duty: Duty, success: bool)
      requires Valid() && duty in model.pending
      modifies `model, Live
      ensures Valid() && Live == old(Live) && CheckDone(old(model), duty, success, model)
    {
      var flag := GenerateFlag(gen, sign, duty);
      RecordCheck(duty, success);
    }

    /** Submissions that arrive one after the other while the game is running. */
    method Serve(submissions: seq<Submission>) returns (outcomes: seq<Outcome>)
      requires Valid() && model.running && AllIssued(cfg, model.currentTick, model.pending, submissions)
      modifies `model, Live
      ensures Valid() && Live == old(Live) && SameProgress(old(model), model)
      ensures Served(cfg, old(model), submissions, outcomes, model)
    {
      outcomes := [];
      for n := 0 to |submissions|
        invariant Valid() && Live == old(Live) && SameProgress(old(model), model)
        invariant Served(cfg, old(model), submissions[..n], outcomes, model)
      {
        ghost var before := model;
        var outcome := ServeOne(submissions[n]);
        ServedMore(cfg, old(model), submissions, n, outcomes, before, outcome, model);
        outcomes := outcomes + [outcome];
      }
      assert submissions[..|submissions|] == submissions;
    }

    method ServeOne(submission: Submission) returns (outcome: Outcome)
      requires Valid() && model.running && Issued(cfg, model.currentTick, model.pending, submission.flag)
      modifies `model, Live
      ensures Valid() && Live == old(Live) && SameProgress(old(model), model)
      ensures ServedOne(cfg, old(model), submission, outcome, model)
    {
      var running := EnterSubmit();
      IssuedIsUnforged(cfg, model, submission.flag);
      outcome := SubmitFlag(submission.info, submission.flag);
    }

    /** All uptime checks of a tick, in any order; submissions arrive before, between and after them. */
    method RunChecks(gen: FlagGenerator, sign: SignFunction, day: Day, duties: set<Duty>)
      requires Valid() && model.running && model.pending == duties <= cfg.Duties() && Honest(cfg, CurrentTick, day)
      modifies `model, Live
      ensures Valid() && Live == old(Live) && model.phase == old(model).phase && model.pending == {}
      ensures DayPlayed(cfg, day, old(model), model)
    {
      var todo := duties;
      while todo != {}
        invariant Valid() && Live == old(Live) && model.running && model.phase == old(model).phase
        invariant model.pending == todo <= cfg.Duties()
        invariant forall s' :: DayPlayed(cfg, day, model, s') ==> DayPlayed(cfg, day, old(model), s')
      {
        var duty := Pick(todo);
        RunOne(gen, sign, day, todo, duty);
        todo := todo - {duty};
      }
      ghost var before := model;
      var outcomes := Serve(day.traffic({}));
      DayEnds(cfg, day, before, outcomes, model);
    }

    /** Some submissions and the next check. */
    method RunOne(gen: FlagGenerator, sign: SignFunction, day: Day, todo: set<Duty>, duty: Duty)
      requires Valid() && model.running && model.pending == todo <= cfg.Duties() && duty in todo
      requires Honest(cfg, CurrentTick, day)
      modifies `model, Live
      ensures Valid() && Live == old(Live) && model.running && model.phase == old(model).phase
      ensures model.pending == old(model).pending - {duty}
      ensures forall s' :: DayPlayed(cfg, day, model, s') ==> DayPlayed(cfg, day, old(model), s')
    {
      ghost var before := model;
      var outcomes := Serve(day.traffic(todo));
      ghost var mid := model;
      RunCheck(gen, sign, duty, day.result(duty));
      DayBegins(cfg, day, before, outcomes, mid, duty, model);
    }

    /** What `BeginTick` means for the rest of `Tick`: there are checks to do exactly when a tick has begun. */
    method BeginDay()
      requires Valid() && model.phase == Playing && model.pending == {}
      modifies this
      ensures Valid() && model.phase == Playing && model.running
      ensures CurrentTick == if old(CurrentTick) < cfg.TotalTicks() then old(CurrentTick) + 1 else old(CurrentTick)
      ensures model.pending == if CurrentTick > old(CurrentTick) then cfg.Duties() else {}
      ensures if old(CurrentTick) < cfg.TotalTicks() then TickBegins(cfg, old(model), model) else model == old(model)
      ensures fresh(Live - old(Live)) && fresh(Frozen - old(Frozen))
    {
      BeginTick();
      PlayingRuns(cfg, model);
    }

    /**
      `Tick`: the events of the tick are triggered, and every team and bot gets its result for every checked service
      before the tick is over, with submissions judged in between.
     */
    method Tick(gen: FlagGenerator, sign: SignFunction, queue: seq<Event>, day: Day) returns (events: seq<Event>)
      requires Valid() && model.phase == Playing && model.pending == {}
      requires CurrentTick < cfg.TotalTicks() ==> Honest(cfg, CurrentTick + 1, day)
      modifies this, Live
      ensures Valid() && model.phase == Playing && model.pending == {}
      ensures CurrentTick == if old(CurrentTick) < cfg.TotalTicks() then old(CurrentTick) + 1 else old(CurrentTick)
      ensures TickPlayed(cfg, day, old(model), model)
      ensures events ==
              if CurrentTick > old(CurrentTick) then Due(queue, cfg.tickRate, CurrentTick, CurrentTick) else []
      ensures fresh(Live - old(Live)) && fresh(Frozen - old(Frozen))
    {
      var before := CurrentTick;
      BeginDay();
      events := [];
      if CurrentTick > before {
        events := RunEvents(queue, cfg.tickRate, CurrentTick);
        RunChecks(gen, sign, day, cfg.Duties());
      }
    }

    /** One firing of the timer in the game loop. */
    method PlayDay(gen: FlagGenerator, sign: SignFunction, queue: seq<Event>, days: seq<Day>, n: nat,
                   before: seq<Event>, ghost start: State)
      returns (events: seq<Event>)
      requires Valid() && n < |days| && GameAt(cfg, queue, days, n, start, model, before)
      requires n < cfg.TotalTicks() ==> Honest(cfg, n + 1, days[n])
      modifies this, Live
      ensures Valid() && GameAt(cfg, queue, days, n + 1, start, model, events)
      ensures fresh(Live - old(Live)) && fresh(Frozen - old(Frozen))
    {
      PlayedNext(cfg, n);
      var triggered := Tick(gen, sign, queue, days[n]);
      GameGoesOn(cfg, queue, days, n, start, old(model), before, model, triggered);
      events := before + triggered;
    }

    /** The game loop: the timer fires once for every day. */
    method PlayDays(gen: FlagGenerator, sign: SignFunction, queue: seq<Event>, days: seq<Day>)
      returns (events: seq<Event>)
      requires Valid() && model.phase == Playing && model.pending == {} && CurrentTick == 0
      requires forall n :: 0 <= n < |days| && n < cfg.TotalTicks() ==> Honest(cfg, n + 1, days[n])
      modifies this, Live
      ensures Valid() && GameAt(cfg, queue, days, |days|, old(model), model, events)
      ensures fresh(Live - old(Live)) && fresh(Frozen - old(Frozen))
    {
      events := [];
      GameStarts(cfg, queue, days, model);
      for n := 0 to |days|
        invariant Valid() && GameAt(cfg, queue, days, n, old(model), model, events)
        invariant fresh(Live - old(Live)) && fresh(Frozen - old(Frozen))
      {
        events := PlayDay(gen, sign, queue, days, n, events, old(model));
      }
    }

    /** The end of the game: the last rollover, submissions that passed the running check in time, and the flag. */
    method Finish(late: seq<Submission>, ghost days: seq<Day>) returns (outcomes: seq<Outcome>)
      requires Valid() && model.phase == Playing && model.pending == {} && AllIssued(cfg, CurrentTick, {}, late)
      requires DaysRecorded(cfg, days, model)
      modifies this, Live
      ensures Valid() && model.phase == Over && !Running && |Ticks| == CurrentTick == old(CurrentTick)
      ensures ArchiveRecorded(cfg, days, model.ticks) && Finished(cfg, old(model), late, outcomes, model)
    {
      ghost var before := model;
      FinalRollover();
      RolledArchive(cfg, days, before, model);
      PlayingRuns(cfg, model);
      outcomes := Serve(late);
      End();
      ArchiveIsAligned(cfg, model);
    }

    /**
      `Start`: the timer fires once for every day, then the game ends, and submissions that passed the running check in
      time may still come. There is one archived tick for every day, as long as ticks fit into the duration of the game;
      it has the check results of that day, and the events of all of them have been triggered.
     */
    method Start(gen: FlagGenerator, sign: SignFunction, queue: seq<Event>, days: seq<Day>, late: seq<Submission>)
      returns (events: seq<Event>, outcomes: seq<Outcome>)
      requires Valid() && model.phase == Idle
      requires forall n :: 0 <= n < |days| && n < cfg.TotalTicks() ==> Honest(cfg, n + 1, days[n])
      requires AllIssued(cfg, Played(cfg, |days|), {}, late)
      modifies this, Live
      ensures Valid() && model.phase == Over && !Running
      ensures |Ticks| == CurrentTick <= |days| && (CurrentTick > 0 ==> CurrentTick * cfg.tickRate <= cfg.duration)
      ensures CurrentTick < |days| ==> (CurrentTick + 1) * cfg.tickRate > cfg.duration
      ensures events == Triggered(queue, cfg.tickRate, CurrentTick)
      ensures ArchiveRecorded(cfg, days, model.ticks) && ArchiveIs(model.ticks, model.overall)
      ensures GamePlayed(cfg, old(model), days, late, outcomes, model)
    {
      IdleTick(cfg, model);
      PlayedFits(cfg, |days|);
      Begin();
      events := PlayDays(gen, sign, queue, days);
      assert days[..|days|] == days;
      outcomes := Finish(late, days);
    }

    method End()
      requires Valid() && model.phase == Closing
      modifies this
      ensures Valid() && Next(cfg, old(model), Stop, model) && Live == old(Live) && Frozen == old(Frozen)
    {
      Running := false;
      ghost var before := model;
      model := model.(phase := Over, running := false);
      ReachableStep(cfg, before, Stop, model);
    }
  }
}
