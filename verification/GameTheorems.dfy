/** The guarantees of the game, for every run and every reachable state. */
module GameTheorems {
  import opened Collections
  import opened GoValues
  import opened Text
  import opened Codec
  import opened Scoreboard
  import opened GameRules
  import opened GameLog
  import opened GameInvariant

  // ---------- Flags score once ----------

  /** Everything a team has stolen from one service, as the duplicate test sees it. */
  function ScoredFlags(s: State, team: int, service: int): seq<FlagInfo> {
    (if s.overall.Some? then RawAt(s.overall.value, team, service).stolen else [])
    + (if s.current.Some? then RawAt(s.current.value, team, service).stolen else [])
  }

  /** The summary of the archive and the open tick together are the replay of the whole log. */
  lemma ScoredFlagsAreHistory(cfg: Config, s: State, team: int, service: int)
    requires cfg.Valid() && Reachable(cfg, s)
    ensures ScoredFlags(s, team, service) == Replay(s.History(), team, service).stolen
  {
    ReachableInv(cfg, s);
    assert ReplayedAt(s, team, service);
    ReplayConcat(Flatten(s.closed), s.open, team, service);
  }

  /** In every reachable state, no team's lists hold the same flag twice. */
  lemma NoFlagScoresTwice(cfg: Config, s: State, team: int, service: int)
    requires cfg.Valid() && Reachable(cfg, s)
    ensures NoDuplicates(ScoredFlags(s, team, service))
  {
    ReachableInv(cfg, s);
    ScoredFlagsAreHistory(cfg, s, team, service);
    StolenNoDuplicates(s.History(), team, service);
  }

  ghost predicate Accepts(cfg: Config, step: Step, info: int, tr: Triple) {
    step.Submit? && step.info == info && step.outcome == Answer(FlagAccepted)
    && cfg.decode(step.flag) == Some(tr)
  }

  /** An accepted flag was not in the log and is in it afterwards. */
  lemma AcceptedEntersHistory(cfg: Config, s: State, step: Step, s': State, info: int, tr: Triple)
    requires cfg.Valid() && Inv(cfg, s) && Next(cfg, s, step, s') && Accepts(cfg, step, info, tr)
    ensures Steal(info, tr.team, tr.tick, tr.service) !in s.History()
    ensures s'.History() == s.History() + [Steal(info, tr.team, tr.tick, tr.service)]
  {
    AcceptedIsSound(cfg, s, info, step.flag);
    assert s'.closed == s.closed && s'.open == s.open + [Steal(info, tr.team, tr.tick, tr.service)];
  }

  lemma StepExtendsHistory(cfg: Config, s: State, step: Step, s': State)
    requires cfg.Valid() && Inv(cfg, s) && Next(cfg, s, step, s')
    ensures s.History() <= s'.History()
  {
    if step.Submit? && step.outcome == Answer(FlagAccepted) {
      AcceptedEntersHistory(cfg, s, step, s', step.info, cfg.decode(step.flag).value);
    } else if step.RecordCheck? {
      assert s'.History() == s.History() + [Check(step.duty.team, step.duty.check, step.success)];
    } else if step.FinalRollover? || (step.BeginTick? && TickBegins(cfg, s, s')) {
      RolledLog(cfg, s, s');
    } else {
      assert s'.closed == s.closed && s'.open == s.open;
    }
  }

  lemma StepExtendsArchive(cfg: Config, s: State, step: Step, s': State)
    requires cfg.Valid() && Next(cfg, s, step, s')
    ensures s.ticks <= s'.ticks
  {
  }

  /** One step of a run: the archive and the log only grow. */
  lemma RunGrows(cfg: Config, states: seq<State>, steps: seq<Step>, n: nat)
    requires cfg.Valid() && Run(cfg, states, steps) && n < |steps|
    ensures states[n].ticks <= states[n + 1].ticks
    ensures states[n].History() <= states[n + 1].History()
  {
    RunKeepsInv(cfg, states, steps, n);
    assert StepAt(cfg, states, steps, n);
    StepExtendsArchive(cfg, states[n], steps[n], states[n + 1]);
    StepExtendsHistory(cfg, states[n], steps[n], states[n + 1]);
  }

  lemma RunAccepts(cfg: Config, states: seq<State>, steps: seq<Step>, n: nat, info: int, tr: Triple)
    requires cfg.Valid() && Run(cfg, states, steps) && n < |steps| && Accepts(cfg, steps[n], info, tr)
    ensures Steal(info, tr.team, tr.tick, tr.service) !in states[n].History()
    ensures Steal(info, tr.team, tr.tick, tr.service) in states[n + 1].History()
  {
    RunKeepsInv(cfg, states, steps, n);
    assert StepAt(cfg, states, steps, n);
    AcceptedEntersHistory(cfg, states[n], steps[n], states[n + 1], info, tr);
  }

  /** Along a run the archive only grows: an archived tick never changes again. */
  lemma {:induction false} ArchiveOnlyGrows(cfg: Config, states: seq<State>, steps: seq<Step>, a: nat, b: nat)
    requires cfg.Valid() && Run(cfg, states, steps) && a <= b <= |steps|
    ensures states[a].ticks <= states[b].ticks
  {
    if a < b {
      ArchiveOnlyGrows(cfg, states, steps, a, b - 1);
      RunGrows(cfg, states, steps, b - 1);
      PrefixTransitive(states[a].ticks, states[b - 1].ticks, states[b].ticks);
    }
  }

  /** Along a run the log only grows. */
  lemma {:induction false} HistoryOnlyGrows(cfg: Config, states: seq<State>, steps: seq<Step>, a: nat, b: nat)
    requires cfg.Valid() && Run(cfg, states, steps) && a <= b <= |steps|
    ensures states[a].History() <= states[b].History()
  {
    if a < b {
      HistoryOnlyGrows(cfg, states, steps, a, b - 1);
      RunGrows(cfg, states, steps, b - 1);
      PrefixTransitive(states[a].History(), states[b - 1].History(), states[b].History());
    }
  }

  lemma PrefixTransitive<T>(a: seq<T>, b: seq<T>, c: seq<T>)
    requires a <= b <= c
    ensures a <= c
  {
  }

  /** One team is given points for one signed triple at most once in a run, however it spells the flag. */
  lemma AcceptedAtMostOnce(cfg: Config, states: seq<State>, steps: seq<Step>, j: nat, k: nat, info: int, tr: Triple)
    requires cfg.Valid() && Run(cfg, states, steps) && j < k < |steps|
    requires Accepts(cfg, steps[j], info, tr)
    ensures !Accepts(cfg, steps[k], info, tr)
  {
    var e := Steal(info, tr.team, tr.tick, tr.service);
    RunAccepts(cfg, states, steps, j, info, tr);
    HistoryOnlyGrows(cfg, states, steps, j + 1, k);
    PrefixKeeps(states[j + 1].History(), states[k].History(), e);
    if Accepts(cfg, steps[k], info, tr) {
      RunAccepts(cfg, states, steps, k, info, tr);
    }
  }

  lemma PrefixKeeps<T>(a: seq<T>, b: seq<T>, x: T)
    requires a <= b && x in a
    ensures x in b
  {
  }

  /** Some text of a triple under one signature: numbers with zeros or a plus sign in front are other texts. */
  ghost predicate IsSpelling(gen: FlagGenerator, flag: string, tr: Triple, signature: string) {
    exists tick, team, service ::
      Spells(tr, tick, team, service) && flag == gen.prefix + Spelled(tick, team, service, signature) + gen.suffix
  }

  /** However differently two submissions spell a flag, its signature is worth points once. */
  lemma SpellingsScoreOnce(cfg: Config, gen: FlagGenerator, valid: ValidFunction, states: seq<State>, steps: seq<Step>,
                           j: nat, k: nat, tr: Triple, signature: string)
    requires cfg.Valid() && Run(cfg, states, steps) && j < k < |steps| && steps[j].Submit? && steps[k].Submit?
    requires cfg.decode(steps[j].flag) == Verify(gen, valid, steps[j].flag)
    requires cfg.decode(steps[k].flag) == Verify(gen, valid, steps[k].flag)
    requires Free(signature, '.') && valid(Payload(tr), signature)
    requires IsSpelling(gen, steps[j].flag, tr, signature) && IsSpelling(gen, steps[k].flag, tr, signature)
    requires steps[j].info == steps[k].info && steps[j].outcome == Answer(FlagAccepted)
    ensures steps[k].outcome != Answer(FlagAccepted)
  {
    SpellingVerifies(gen, valid, steps[j].flag, tr, signature);
    SpellingVerifies(gen, valid, steps[k].flag, tr, signature);
    AcceptedAtMostOnce(cfg, states, steps, j, k, steps[j].info, tr);
  }

  lemma SpellingVerifies(gen: FlagGenerator, valid: ValidFunction, flag: string, tr: Triple, signature: string)
    requires Free(signature, '.') && valid(Payload(tr), signature) && IsSpelling(gen, flag, tr, signature)
    ensures Verify(gen, valid, flag) == Some(tr)
  {
    var tick, team, service :|
      Spells(tr, tick, team, service) && flag == gen.prefix + Spelled(tick, team, service, signature) + gen.suffix;
    SpelledFlagVerifies(gen, valid, tr, tick, team, service, signature);
  }

  // ---------- When a submission is accepted, and when it panics ----------

  /** A flag that verifies names a team, a checked service and a tick that has begun. */
  lemma VerifiedIsSigned(cfg: Config, s: State, flag: string)
    requires cfg.Valid() && Reachable(cfg, s) && Unforged(cfg, s, flag) && cfg.decode(flag).Some?
    ensures var tr := cfg.decode(flag).value;
            1 <= tr.tick <= s.currentTick && cfg.IsDuty(Duty(tr.team, tr.service)) && 0 <= tr.service < |cfg.services|
  {
    ReachableInv(cfg, s);
    assert SignedAt(cfg, s, cfg.decode(flag).value);
  }

  /** Every configured team has every configured service on the boards, and nobody else has any. */
  lemma OnlyTeamsHaveServices(cfg: Config, b: Board, t: int, i: int)
    requires Shape(cfg, b) && 0 <= i < |cfg.services|
    ensures HasService(b, t, i) <==> cfg.IsTeamId(t)
  {
    if t in b.teams {
      assert TeamShape(cfg, t, b.teams[t]);
    }
  }

  /**
    What each answer means, from the first submission to the last. A submission ends with a nil dereference when no tick
    is archived yet or the submitter is on no board. The locked part never answers that the service is invalid, that the
    flag is not valid yet or that the team is invalid, because such flags are never signed.
   */
  lemma AnswersExactly(cfg: Config, s: State, info: int, flag: string)
    requires cfg.Valid() && Reachable(cfg, s) && Unforged(cfg, s, flag)
    ensures var answer := Judge(cfg, s.current, s.overall, info, flag);
            match cfg.decode(flag)
            case None => answer == Answer(InvalidFlag)
            case Some(tr) =>
              var late := TooOld(cfg, s.currentTick - tr.tick);
              var served := s.ticks != [] && cfg.IsTeamId(info);
              var stolen := Steal(info, tr.team, tr.tick, tr.service) in s.History();
              && (late <==> s.currentTick - tr.tick > cfg.FlagValidTicks())
              && (answer == Answer(FlagFromOwnTeam) <==> tr.team == info)
              && (answer == Answer(FlagExpired) <==> tr.team != info && late)
              && (answer == NilPanic <==> tr.team != info && !late && !served)
              && (answer == Answer(FlagAlreadyStolen) <==> tr.team != info && !late && served && stolen)
              && (answer == Answer(FlagAccepted) <==> tr.team != info && !late && served && !stolen)
  {
    if cfg.decode(flag).Some? {
      var tr := cfg.decode(flag).value;
      VerifiedIsSigned(cfg, s, flag);
      TooOldInTicks(cfg, s.currentTick - tr.tick);
      OpenTickExists(cfg, s);
      if s.overall.Some? {
        OnlyTeamsHaveServices(cfg, s.overall.value, info, tr.service);
        OnlyTeamsHaveServices(cfg, s.current.value, info, tr.service);
        StolenByIsHistory(cfg, s, info, tr.team, tr.tick, tr.service);
      }
    }
  }

  lemma OpenTickExists(cfg: Config, s: State)
    requires cfg.Valid() && Reachable(cfg, s) && s.currentTick > 0
    ensures s.current.Some? && s.current.value.tick == s.currentTick && Replayed(s) && Shapes(cfg, s)
    ensures s.overall.Some? <==> s.ticks != []
  {
    ReachableInv(cfg, s);
  }

  /**
    A submission dereferences nil exactly when it carries another team's flag that is not too old, and either nothing is
    archived yet or the submitter is on no board. The summary exists from the second rollover on.
   */
  lemma PanicsExactly(cfg: Config, s: State, info: int, flag: string)
    requires cfg.Valid() && Reachable(cfg, s) && Unforged(cfg, s, flag)
    ensures Judge(cfg, s.current, s.overall, info, flag) == NilPanic <==>
            && cfg.decode(flag).Some? && cfg.decode(flag).value.team != info
            && cfg.decode(flag).value.tick >= s.currentTick - cfg.FlagValidTicks()
            && (s.ticks == [] || !cfg.IsTeamId(info))
    ensures s.currentTick >= 2 ==> s.ticks != []
  {
    ReachableInv(cfg, s);
    AnswersExactly(cfg, s, info, flag);
  }

  /**
    Without any assumption on signatures: what is answered to another team's flag of an unknown service, or of a tick
    that is too old or still to come.
   */
  lemma ForgedFlagsGainNothing(cfg: Config, s: State, info: int, flag: string)
    requires cfg.Valid() && Reachable(cfg, s) && s.currentTick > 0
    requires cfg.decode(flag).Some? && cfg.decode(flag).value.team != info
    ensures var tr, answer := cfg.decode(flag).value, Judge(cfg, s.current, s.overall, info, flag);
            && (answer == Answer(InvalidService) <==> tr.service < 0 || tr.service >= |cfg.services|)
            && (answer == Answer(FlagExpired) && tr.tick <= s.currentTick <==>
                0 <= tr.service < |cfg.services| && tr.tick <= s.currentTick && TooOld(cfg, s.currentTick - tr.tick))
            && (cfg.flagValidTime > -cfg.tickRate ==>
                  (answer == Answer(FlagNotYetValid) <==> 0 <= tr.service < |cfg.services| && tr.tick > s.currentTick))
  {
    var tr := cfg.decode(flag).value;
    OpenTickExists(cfg, s);
    QuotientReaches(cfg.flagValidTime, cfg.tickRate, 1);
    if tr.tick <= s.currentTick {
      TooOldInTicks(cfg, s.currentTick - tr.tick);
    }
  }

  lemma PendingHasService(cfg: Config, s: State, duty: Duty)
    requires cfg.Valid() && Reachable(cfg, s) && duty in s.pending
    ensures s.current.Some? && HasService(s.current.value, duty.team, duty.check)
  {
    ReachableInv(cfg, s);
    assert duty in cfg.Duties();
    assert TeamShape(cfg, duty.team, s.current.value.teams[duty.team]);
  }

  /** Neither a check nor an accepted flag ever meets a team or service that the open board lacks. */
  lemma OpenBoardIsComplete(cfg: Config, s: State, duty: Duty, info: int, flag: string)
    requires cfg.Valid() && Reachable(cfg, s) && Unforged(cfg, s, flag)
    ensures duty in s.pending ==> s.current.Some? && HasService(s.current.value, duty.team, duty.check)
    ensures Judge(cfg, s.current, s.overall, info, flag) == Answer(FlagAccepted) ==>
              && cfg.decode(flag).Some? && s.current.Some?
              && var tr := cfg.decode(flag).value;
                 HasService(s.current.value, info, tr.service) && HasService(s.current.value, tr.team, tr.service)
  {
    ReachableInv(cfg, s);
    if duty in s.pending {
      PendingHasService(cfg, s, duty);
    }
    if Judge(cfg, s.current, s.overall, info, flag) == Answer(FlagAccepted) {
      AcceptedIsSound(cfg, s, info, flag);
      var tr := cfg.decode(flag).value;
      assert TeamShape(cfg, info, s.current.value.teams[info]);
      assert TeamShape(cfg, tr.team, s.current.value.teams[tr.team]);
    }
  }

  /** One of the boards of the game. */
  predicate IsBoardOf(s: State, b: Board) {
    s.current == Some(b) || b in s.ticks || s.overall == Some(b)
  }

  /** Who is on every board, under which id and name, and with which services. */
  lemma BoardsNameTeams(cfg: Config, s: State, b: Board)
    requires cfg.Valid() && Reachable(cfg, s) && IsBoardOf(s, b)
    ensures |b.teams| == if cfg.bots then 2 * |cfg.teams| else |cfg.teams|
    ensures forall n :: 0 <= n < |cfg.teams| ==> NamedOn(b, n, false, cfg.teams[n])
    ensures forall n :: cfg.bots && 0 <= n < |cfg.teams| ==> NamedOn(b, 0xffff + n, true, cfg.teams[n] + "_bot")
    ensures forall t :: t in b.teams ==> ServicesNamed(b.teams[t].services, cfg.services)
  {
    BoardShape(cfg, s, b);
    TeamIdsCount(cfg);
    assert b.teams.Keys == cfg.TeamIds();
    forall n | 0 <= n < |cfg.teams| ensures NamedOn(b, n, false, cfg.teams[n]) {
      assert TeamShape(cfg, n, b.teams[n]);
    }
    forall n | cfg.bots && 0 <= n < |cfg.teams| ensures NamedOn(b, 0xffff + n, true, cfg.teams[n] + "_bot") {
      assert TeamShape(cfg, 0xffff + n, b.teams[0xffff + n]);
    }
    forall t | t in b.teams ensures ServicesNamed(b.teams[t].services, cfg.services) {
      assert TeamShape(cfg, t, b.teams[t]);
    }
  }

  lemma BoardShape(cfg: Config, s: State, b: Board)
    requires cfg.Valid() && Reachable(cfg, s) && IsBoardOf(s, b)
    ensures Shape(cfg, b)
  {
    ReachableInv(cfg, s);
  }

  ghost predicate ServicesNamed(services: map<int, ServiceRecord>, names: seq<ServiceInfo>) {
    && (forall i :: i in services <==> 0 <= i < |names|)
    && forall i :: i in services ==> services[i].name == names[i].name
  }

  predicate NamedOn(b: Board, t: int, isBot: bool, name: string) {
    t in b.teams && b.teams[t].isBot == isBot && b.teams[t].name == name
  }

  /** Bots double the number of ids, because a bot's id is never that of a team. */
  lemma TeamIdsCount(cfg: Config)
    requires cfg.Valid()
    ensures |cfg.TeamIds()| == if cfg.bots then 2 * |cfg.teams| else |cfg.teams|
  {
    var teams, bots := Interval(0, |cfg.teams|), Interval(BOT_ID_OFFSET, |cfg.teams|);
    assert teams !! bots;
    assert cfg.TeamIds() == if cfg.bots then teams + bots else teams;
  }

  // ---------- Submissions on their way ----------

  /** How many of the first `n` steps were submissions that passed the running check, and how many were judged. */
  function Entered(steps: seq<Step>, n: nat): nat
    requires n <= |steps|
  {
    if n == 0 then 0 else Entered(steps, n - 1) + if steps[n - 1].EnterSubmit? then 1 else 0
  }

  function Judged(steps: seq<Step>, n: nat): nat
    requires n <= |steps|
  {
    if n == 0 then 0 else Judged(steps, n - 1) + if steps[n - 1].Submit? then 1 else 0
  }

  /** Submissions pass the running check only while the game is running, and each that did is judged at most once. */
  lemma {:induction false} SubmissionsAreJudgedOnce(cfg: Config, states: seq<State>, steps: seq<Step>, n: nat)
    requires cfg.Valid() && Run(cfg, states, steps) && n <= |steps|
    ensures Entered(steps, n) == Judged(steps, n) + states[n].inFlight
    ensures forall j :: 0 <= j < n && steps[j].EnterSubmit? ==> states[j].phase == Playing || states[j].phase == Closing
  {
    if n > 0 {
      SubmissionsAreJudgedOnce(cfg, states, steps, n - 1);
      RunKeepsInv(cfg, states, steps, n - 1);
      assert StepAt(cfg, states, steps, n - 1);
    }
  }

  /** Once the game is over, only those that had passed the check before are still judged. */
  lemma {:induction false} NobodyEntersLate(cfg: Config, states: seq<State>, steps: seq<Step>, a: nat, b: nat)
    requires cfg.Valid() && Run(cfg, states, steps) && a <= b <= |steps| && states[a].phase == Over
    ensures states[b].phase == Over && Entered(steps, b) == Entered(steps, a)
    ensures Judged(steps, b) - Judged(steps, a) == states[a].inFlight - states[b].inFlight
  {
    SubmissionsAreJudgedOnce(cfg, states, steps, a);
    SubmissionsAreJudgedOnce(cfg, states, steps, b);
    if a < b {
      NobodyEntersLate(cfg, states, steps, a, b - 1);
      RunKeepsInv(cfg, states, steps, b - 1);
      assert StepAt(cfg, states, steps, b - 1);
    }
  }

  // ---------- The archive ----------

  /** Every board is the replay of its own part of the log; the summary is the replay of all archived parts. */
  lemma BoardsAreReplays(cfg: Config, s: State, team: int, service: int)
    requires cfg.Valid() && Reachable(cfg, s)
    ensures |s.closed| == |s.ticks|
    ensures forall k :: 0 <= k < |s.ticks| ==> RawAt(s.ticks[k], team, service) == Replay(s.closed[k], team, service)
    ensures s.current.Some? ==> RawAt(s.current.value, team, service) == Replay(s.open, team, service)
    ensures s.overall.Some? ==> RawAt(s.overall.value, team, service) == Replay(Flatten(s.closed), team, service)
  {
    ReachableInv(cfg, s);
    assert ReplayedAt(s, team, service);
  }

  /** Archived ticks are numbered 1, 2, ...; the counters, the open tick and the summary agree with them. */
  lemma ArchiveIsAligned(cfg: Config, s: State)
    requires cfg.Valid() && Reachable(cfg, s)
    ensures forall k :: 0 <= k < |s.ticks| ==> s.ticks[k].tick == k + 1
    ensures s.overall.Some? <==> |s.ticks| > 0
    ensures s.overall.Some? ==> s.overall.value.tick == |s.ticks|
    ensures s.current.Some? ==> s.current.value.tick == s.currentTick
    ensures s.phase == Playing && s.current.Some? ==> |s.ticks| == s.currentTick - 1
    ensures s.phase == Closing || s.phase == Over ==> |s.ticks| == s.currentTick
    ensures s.currentTick > 0 ==> s.currentTick <= cfg.TotalTicks()
  {
    ReachableInv(cfg, s);
  }

  /** The final rollover has happened. */
  predicate Ended(s: State) {
    s.phase == Closing || s.phase == Over
  }

  /** After the final rollover the archive and the summary are frozen. */
  lemma {:induction false} FinalBoardIsFrozen(cfg: Config, states: seq<State>, steps: seq<Step>, a: nat, b: nat)
    requires cfg.Valid() && Run(cfg, states, steps) && a <= b <= |steps| && Ended(states[a])
    ensures Ended(states[b]) && states[b].ticks == states[a].ticks && states[b].overall == states[a].overall
    ensures states[b].currentTick == states[a].currentTick && states[b].closed == states[a].closed
  {
    if a < b {
      FinalBoardIsFrozen(cfg, states, steps, a, b - 1);
      FrozenRunStep(cfg, states, steps, b - 1);
    }
  }

  lemma FrozenRunStep(cfg: Config, states: seq<State>, steps: seq<Step>, n: nat)
    requires cfg.Valid() && Run(cfg, states, steps) && n < |steps| && Ended(states[n])
    ensures Ended(states[n + 1])
    ensures states[n + 1].ticks == states[n].ticks && states[n + 1].overall == states[n].overall
    ensures states[n + 1].currentTick == states[n].currentTick && states[n + 1].closed == states[n].closed
  {
    RunKeepsInv(cfg, states, steps, n);
    assert StepAt(cfg, states, steps, n);
    FrozenStep(cfg, states[n], steps[n], states[n + 1]);
  }

  lemma FrozenStep(cfg: Config, s: State, step: Step, s': State)
    requires cfg.Valid() && Inv(cfg, s) && Next(cfg, s, step, s') && Ended(s)
    ensures Ended(s') && s'.ticks == s.ticks && s'.overall == s.overall
    ensures s'.currentTick == s.currentTick && s'.closed == s.closed
  {
  }

  // ---------- Which accepted flags count in the end ----------

  /** The step that ends the game archives the whole log. */
  lemma EndingStep(cfg: Config, states: seq<State>, steps: seq<Step>, n: nat)
    requires cfg.Valid() && Run(cfg, states, steps) && n < |steps| && !Ended(states[n]) && Ended(states[n + 1])
    ensures steps[n].FinalRollover? && Flatten(states[n + 1].closed) == states[n].History()
  {
    RunKeepsInv(cfg, states, steps, n);
    assert StepAt(cfg, states, steps, n);
    EndingArchivesAll(cfg, states[n], steps[n], states[n + 1]);
  }

  lemma EndingArchivesAll(cfg: Config, s: State, step: Step, s': State)
    requires cfg.Valid() && Inv(cfg, s) && Next(cfg, s, step, s') && !Ended(s) && Ended(s')
    ensures step.FinalRollover? && Flatten(s'.closed) == s.History()
  {
    RolledLog(cfg, s, s');
    assert s'.History() == Flatten(s'.closed) + [];
  }

  /** A flag that was accepted before the final rollover is archived by it. */
  lemma {:induction false} EarlyFlagsAreArchived(cfg: Config, states: seq<State>, steps: seq<Step>, j: nat, b: nat,
                                                 info: int, tr: Triple)
    requires cfg.Valid() && Run(cfg, states, steps) && j < b <= |steps| && Accepts(cfg, steps[j], info, tr)
    requires !Ended(states[j]) && Ended(states[b])
    ensures Steal(info, tr.team, tr.tick, tr.service) in Flatten(states[b].closed)
  {
    if Ended(states[b - 1]) {
      EarlyFlagsAreArchived(cfg, states, steps, j, b - 1, info, tr);
      FrozenRunStep(cfg, states, steps, b - 1);
    } else {
      EndingStep(cfg, states, steps, b - 1);
      RunAccepts(cfg, states, steps, j, info, tr);
      HistoryOnlyGrows(cfg, states, steps, j + 1, b - 1);
      PrefixKeeps(states[j + 1].History(), states[b - 1].History(), Steal(info, tr.team, tr.tick, tr.service));
    }
  }

  /**
    Of the flags that were accepted, exactly those count in the final summary that were judged before the final
    rollover: a submission that passed the running check in time but is judged after it is answered with acceptance
    and gains nothing.
   */
  lemma AcceptedCountsExactly(cfg: Config, states: seq<State>, steps: seq<Step>, j: nat, b: nat, info: int, tr: Triple)
    requires cfg.Valid() && Run(cfg, states, steps) && j < b <= |steps| && Accepts(cfg, steps[j], info, tr)
    requires Ended(states[b])
    ensures Steal(info, tr.team, tr.tick, tr.service) in Flatten(states[b].closed) <==> states[j].phase == Playing
    ensures (states[b].overall.Some?
             && FlagInfo(tr.team, tr.tick) in RawAt(states[b].overall.value, info, tr.service).stolen)
            <==> states[j].phase == Playing
  {
    var e := Steal(info, tr.team, tr.tick, tr.service);
    RunAccepts(cfg, states, steps, j, info, tr);
    SubmittedWhileOpen(cfg, states, steps, j);
    if Ended(states[j]) {
      FinalBoardIsFrozen(cfg, states, steps, j, b);
      assert e !in Flatten(states[j].closed) + states[j].open;
    } else {
      EarlyFlagsAreArchived(cfg, states, steps, j, b, info, tr);
    }
    SummaryIsLogged(cfg, states, steps, b, info, tr);
  }

  lemma SubmittedWhileOpen(cfg: Config, states: seq<State>, steps: seq<Step>, j: nat)
    requires cfg.Valid() && Run(cfg, states, steps) && j < |steps| && steps[j].Submit?
    ensures states[j].phase == Playing <==> !Ended(states[j])
  {
    RunKeepsInv(cfg, states, steps, j);
    assert StepAt(cfg, states, steps, j);
  }

  lemma SummaryIsLogged(cfg: Config, states: seq<State>, steps: seq<Step>, b: nat, info: int, tr: Triple)
    requires cfg.Valid() && Run(cfg, states, steps) && b <= |steps|
    ensures Steal(info, tr.team, tr.tick, tr.service) in Flatten(states[b].closed) <==>
            states[b].overall.Some?
            && FlagInfo(tr.team, tr.tick) in RawAt(states[b].overall.value, info, tr.service).stolen
  {
    RunKeepsInv(cfg, states, steps, b);
    assert ReplayedAt(states[b], info, tr.service);
    StolenIffLogged(Flatten(states[b].closed), info, tr.service, tr.team, tr.tick);
    assert states[b].overall.None? ==> states[b].closed == [];
  }

  // ---------- Conservation ----------

  ghost predicate Conserved(b: Board) {
    forall thief, victim, tick, service ::
      Count(RawAt(b, thief, service).stolen, FlagInfo(victim, tick)) ==
        Count(RawAt(b, victim, service).lost, FlagInfo(thief, tick))
  }

  lemma ReplayIsConserved(b: Board, log: seq<Entry>)
    requires forall t, i :: RawAt(b, t, i) == Replay(log, t, i)
    ensures Conserved(b)
  {
    forall thief, victim, tick, service
      ensures Count(RawAt(b, thief, service).stolen, FlagInfo(victim, tick)) ==
              Count(RawAt(b, victim, service).lost, FlagInfo(thief, tick))
    {
      StolenEqualsLost(log, thief, victim, tick, service);
    }
  }

  /** In the open tick, every archived tick and the summary: what one team stole is what the other lost. */
  lemma StolenIsLost(cfg: Config, s: State)
    requires cfg.Valid() && Reachable(cfg, s)
    ensures s.current.Some? ==> Conserved(s.current.value)
    ensures forall k :: 0 <= k < |s.ticks| ==> Conserved(s.ticks[k])
    ensures s.overall.Some? ==> Conserved(s.overall.value)
  {
    ReachableReplayed(cfg, s);
    if s.current.Some? {
      OpenTickIsConserved(s);
    }
    forall k | 0 <= k < |s.ticks| ensures Conserved(s.ticks[k]) {
      ArchivedTickIsConserved(s, k);
    }
    if s.overall.Some? {
      SummaryIsConserved(s);
    }
  }

  lemma ReachableReplayed(cfg: Config, s: State)
    requires cfg.Valid() && Reachable(cfg, s)
    ensures Replayed(s) && |s.closed| == |s.ticks|
  {
    ReachableInv(cfg, s);
  }

  lemma OpenTickIsConserved(s: State)
    requires Replayed(s) && s.current.Some?
    ensures Conserved(s.current.value)
  {
    forall t, i ensures RawAt(s.current.value, t, i) == Replay(s.open, t, i) {
      assert ReplayedAt(s, t, i);
    }
    ReplayIsConserved(s.current.value, s.open);
  }

  lemma ArchivedTickIsConserved(s: State, k: nat)
    requires Replayed(s) && k < |s.ticks| == |s.closed|
    ensures Conserved(s.ticks[k])
  {
    forall t, i ensures RawAt(s.ticks[k], t, i) == Replay(s.closed[k], t, i) {
      assert ReplayedAt(s, t, i);
    }
    ReplayIsConserved(s.ticks[k], s.closed[k]);
  }

  lemma SummaryIsConserved(s: State)
    requires Replayed(s) && s.overall.Some?
    ensures Conserved(s.overall.value)
  {
    forall t, i ensures RawAt(s.overall.value, t, i) == Replay(Flatten(s.closed), t, i) {
      assert ReplayedAt(s, t, i);
    }
    ReplayIsConserved(s.overall.value, Flatten(s.closed));
  }
}
