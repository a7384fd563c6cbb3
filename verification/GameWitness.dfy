/**
  Runs that really happen: every game can be played tick by tick with any check results, and from there on the failures
  of the source are shown to be reachable, each under its exact condition.
 */
module GameWitness {
  import opened Collections
  import opened GoValues
  import opened Scoreboard
  import opened GameRules
  import opened GameInvariant
  import opened GameTheorems
  import opened Summarize

  // ---------- Summaries exist ----------

  lemma {:induction false} SortedOrder(keys: map<int, int>, ids: set<int>) returns (order: seq<int>)
    requires ids <= keys.Keys
    ensures Lists(order, ids) && SortedBy(keys, order)
  {
    if ids == {} {
      order := [];
    } else {
      var t := Member(ids);
      var rest := SortedOrder(keys, ids - {t});
      order := Inserted(keys, rest, t, ids - {t});
      assert ids == ids - {t} + {t};
    }
  }

  lemma Inserted(keys: map<int, int>, sorted: seq<int>, t: int, ids: set<int>) returns (longer: seq<int>)
    requires t in keys && t !in ids && Lists(sorted, ids) && ids <= keys.Keys && SortedBy(keys, sorted)
    ensures Lists(longer, ids + {t}) && SortedBy(keys, longer)
  {
    var p := PlaceOf(keys, sorted, t);
    longer := sorted[..p] + [t] + sorted[p..];
    assert sorted == sorted[..p] + sorted[p..];
    InsertedLists(sorted[..p], sorted[p..], t, ids);
    InsertedSorted(keys, sorted[..p], sorted[p..], t);
  }

  lemma {:induction false} PlaceOf(keys: map<int, int>, sorted: seq<int>, t: int) returns (p: nat)
    requires t in keys && (forall j :: 0 <= j < |sorted| ==> sorted[j] in keys)
    ensures p <= |sorted| && (forall j :: 0 <= j < p ==> keys[sorted[j]] >= keys[t])
    ensures p < |sorted| ==> keys[sorted[p]] < keys[t]
  {
    if sorted == [] || keys[sorted[0]] < keys[t] {
      p := 0;
    } else {
      p := PlaceOf(keys, sorted[1..], t);
      p := p + 1;
    }
  }

  /** Any ticks can be summarized. */
  lemma SummaryExists(scoring: Scoring, nan: int, ticks: seq<Board>) returns (b: Board)
    ensures Summarizes(scoring, nan, ticks, b)
  {
    var sums := Summary(scoring, ticks);
    var order := SortedOrder(RankKeys(sums, nan), sums.teams.Keys);
    RankingRanks(sums, order, nan);
    SummaryUnplaced(scoring, ticks);
    b := Ranking(sums, order, |order|);
  }

  // ---------- Playing a game ----------

  /** Nobody has stolen anything in the run so far. */
  ghost predicate Peaceful(s: State) {
    forall e :: e in s.History() ==> !e.Steal?
  }

  lemma Opening(cfg: Config) returns (s: State)
    requires cfg.Valid()
    ensures Reachable(cfg, s) && s.phase == Playing && s.running
    ensures s.currentTick == 0 && s.pending == {} && s.current.None? && Peaceful(s)
  {
    var initial := State(false, 0, None, [], None, Idle, 0, {}, {}, [], []);
    InitialReachable(cfg, initial);
    s := initial.(phase := Playing, running := true);
    ReachableStep(cfg, initial, Start, s);
  }

  /** What a rollover leaves when its two summaries are chosen. */
  function RolledTo(cfg: Config, s: State, tick: int, last: Board, sum: Board): State {
    var next := s.(currentTick := tick, current := Some(FreshBoard(cfg, tick)), open := []);
    if s.current.None? then next
    else next.(ticks := s.ticks + [last], overall := Some(sum), closed := s.closed + [s.open])
  }

  lemma SameHistory(cfg: Config, s: State, s': State)
    requires cfg.Valid() && Reachable(cfg, s) && (TickBegins(cfg, s, s') || GameCloses(cfg, s, s'))
    ensures s'.History() == s.History()
  {
    ReachableInv(cfg, s);
    RolledLog(cfg, s, s');
  }

  /** The next tick can always begin while there are ticks left. */
  lemma NextTick(cfg: Config, s: State) returns (s': State)
    requires cfg.Valid() && Reachable(cfg, s) && s.phase == Playing && s.pending == {}
    requires s.currentTick < cfg.TotalTicks()
    ensures Reachable(cfg, s') && s'.phase == Playing && s'.running && s'.pending == cfg.Duties()
    ensures s'.currentTick == s.currentTick + 1 && s'.current == Some(FreshBoard(cfg, s'.currentTick))
    ensures Peaceful(s) ==> Peaceful(s')
  {
    var last, sum := FreshBoard(cfg, 0), FreshBoard(cfg, 0);
    if s.current.Some? {
      last := SummaryExists(cfg.ScoringRules(), cfg.nan, [s.current.value]);
      sum := SummaryExists(cfg.ScoringRules(), cfg.nan, s.ticks + [last]);
    }
    s' := RolledTo(cfg, s, s.currentTick + 1, last, sum).(pending := cfg.Duties());
    assert TickBegins(cfg, s, s');
    ReachableStep(cfg, s, BeginTick, s');
    SameHistory(cfg, s, s');
    ReachableInv(cfg, s');
  }

  /** The checks of a tick can have any results. */
  lemma {:induction false} PlayChecks(cfg: Config, s: State, result: Duty -> bool) returns (s': State)
    requires cfg.Valid() && Reachable(cfg, s) && s.current.Some?
    ensures Reachable(cfg, s') && s'.current.Some? && s'.pending == {}
    ensures s'.phase == s.phase && s'.currentTick == s.currentTick && s'.ticks == s.ticks && s'.inFlight == s.inFlight
    ensures s.signed <= s'.signed && (Peaceful(s) ==> Peaceful(s'))
    ensures forall t, i :: RawAt(s'.current.value, t, i) ==
              if Duty(t, i) in s.pending then RawAt(s.current.value, t, i).WithCheck(result(Duty(t, i)))
              else RawAt(s.current.value, t, i)
    decreases s.pending
  {
    if s.pending == {} {
      s' := s;
    } else {
      var duty := Member(s.pending);
      var next := PlayCheck(cfg, s, duty, result(duty));
      s' := PlayChecks(cfg, next, result);
    }
  }

  lemma PlayCheck(cfg: Config, s: State, duty: Duty, success: bool) returns (s': State)
    requires cfg.Valid() && Reachable(cfg, s) && duty in s.pending
    ensures Reachable(cfg, s') && s.current.Some? && s'.current.Some? && s'.pending == s.pending - {duty}
    ensures s'.phase == s.phase && s'.currentTick == s.currentTick && s'.ticks == s.ticks && s'.inFlight == s.inFlight
    ensures s.signed <= s'.signed && (Peaceful(s) ==> Peaceful(s'))
    ensures forall t, i :: RawAt(s'.current.value, t, i) ==
              if Duty(t, i) == duty then RawAt(s.current.value, t, i).WithCheck(success)
              else RawAt(s.current.value, t, i)
  {
    var generated := s.(signed := s.signed + {TripleOf(s, duty)});
    ReachableStep(cfg, s, GenerateFlag(duty), generated);
    PendingHasService(cfg, generated, duty);
    var b := AddCheck(s.current.value, duty.team, duty.check, success);
    s' := generated.(pending := s.pending - {duty}, current := Some(b),
                     open := s.open + [Check(duty.team, duty.check, success)]);
    assert CheckRecorded(generated, duty, success, s');
    assert s'.History() == s.History() + [Check(duty.team, duty.check, success)];
    ReachableStep(cfg, generated, RecordCheck(duty, success), s');
  }

  /** Every tick of the game can be reached. */
  lemma {:induction false} TickIsReached(cfg: Config, k: nat) returns (s: State)
    requires cfg.Valid() && 1 <= k <= cfg.TotalTicks()
    ensures Reachable(cfg, s) && s.phase == Playing && s.running && s.currentTick == k && s.pending == cfg.Duties()
    ensures s.current == Some(FreshBoard(cfg, k)) && Peaceful(s)
  {
    if k == 1 {
      var start := Opening(cfg);
      s := NextTick(cfg, start);
    } else {
      var before := TickIsReached(cfg, k - 1);
      var played := PlayChecks(cfg, before, (duty: Duty) => true);
      s := NextTick(cfg, played);
    }
  }

  /** Some run has this tick counter at some time. */
  ghost predicate CanReachTick(cfg: Config, k: int)
    requires cfg.Valid()
  {
    exists s :: Reachable(cfg, s) && s.currentTick == k
  }

  /** The ticks that are begun in some run are exactly those that fit into the duration of the game. */
  lemma TicksOfGames(cfg: Config, k: int)
    requires cfg.Valid()
    ensures CanReachTick(cfg, k) <==> k == 0 || (k >= 1 && k * cfg.tickRate <= cfg.duration)
  {
    if k >= 1 {
      TicksFit(cfg, k);
    }
    forall s | Reachable(cfg, s) && s.currentTick == k ensures k == 0 || 1 <= k <= cfg.TotalTicks() {
      ReachableInv(cfg, s);
    }
    if k == 0 {
      var s := Opening(cfg);
    } else if 1 <= k <= cfg.TotalTicks() {
      var s := TickIsReached(cfg, k);
    }
  }

  /** The game can end with any summary of its archive. */
  lemma GameEnds(cfg: Config, s: State, last: Board, sum: Board) returns (s': State)
    requires cfg.Valid() && Reachable(cfg, s) && s.phase == Playing && s.pending == {} && s.current.Some?
    requires Summarizes(cfg.ScoringRules(), cfg.nan, [s.current.value], last)
    requires Summarizes(cfg.ScoringRules(), cfg.nan, s.ticks + [last], sum)
    ensures Reachable(cfg, s') && s'.overall == Some(sum) && s'.phase == Closing && s'.currentTick == s.currentTick
    ensures s'.inFlight == s.inFlight && s'.signed == s.signed && s'.History() == s.History()
  {
    s' := RolledTo(cfg, s, s.currentTick, last, sum).(phase := Closing);
    assert GameCloses(cfg, s, s');
    SameHistory(cfg, s, s');
    ReachableStep(cfg, s, FinalRollover, s');
  }

  // ---------- Panics that happen ----------

  /** Some run receives a submission of this submitter that dereferences nil. */
  ghost predicate CanPanic(cfg: Config, info: int)
    requires cfg.Valid()
  {
    exists s, flag :: PanicsAt(cfg, s, info, flag)
  }

  ghost predicate PanicsAt(cfg: Config, s: State, info: int, flag: string)
    requires cfg.Valid()
  {
    && Reachable(cfg, s) && s.inFlight > 0 && Unforged(cfg, s, flag)
    && Judge(cfg, s.current, s.overall, info, flag) == NilPanic
  }

  /** A flag that some check will make in a tick up to `last`. */
  predicate WillBeMade(cfg: Config, flag: string, last: int) {
    match cfg.decode(flag)
    case None => false
    case Some(tr) => 1 <= tr.tick <= last && cfg.IsDuty(Duty(tr.team, tr.service))
  }

  /** The same, of another team than the submitter. */
  predicate ForeignFlag(cfg: Config, info: int, flag: string, last: int) {
    WillBeMade(cfg, flag, last) && cfg.decode(flag).value.team != info
  }

  /** The tick of the flag begins, its check makes it, and it is submitted at once. */
  lemma FlagIsReceived(cfg: Config, flag: string) returns (s: State)
    requires cfg.Valid() && WillBeMade(cfg, flag, cfg.TotalTicks())
    ensures Reachable(cfg, s) && s.inFlight > 0 && Unforged(cfg, s, flag) && Peaceful(s)
    ensures s.currentTick == cfg.decode(flag).value.tick && s.phase == Playing && s.running && s.current.Some?
  {
    var tr := cfg.decode(flag).value;
    var begun := TickIsReached(cfg, tr.tick);
    var duty := Duty(tr.team, tr.service);
    var made := begun.(signed := begun.signed + {TripleOf(begun, duty)});
    assert made.History() == begun.History();
    ReachableStep(cfg, begun, GenerateFlag(duty), made);
    s := made.(inFlight := made.inFlight + 1);
    assert s.History() == made.History();
    ReachableStep(cfg, made, EnterSubmit, s);
  }

  /**
    A team can run into the nil summary exactly when flags are valid for zero ticks or more, there is a tick to play,
    and some text is another team's flag of the first tick.
   */
  lemma TeamsCanPanicExactly(cfg: Config, info: int)
    requires cfg.Valid() && cfg.IsTeamId(info)
    ensures CanPanic(cfg, info) <==>
            cfg.FlagValidTicks() >= 0 && cfg.TotalTicks() >= 1 && exists flag :: ForeignFlag(cfg, info, flag, 1)
  {
    forall s, flag | PanicsAt(cfg, s, info, flag)
      ensures cfg.FlagValidTicks() >= 0 && cfg.TotalTicks() >= 1 && ForeignFlag(cfg, info, flag, 1)
    {
      PanicsExactly(cfg, s, info, flag);
      VerifiedIsSigned(cfg, s, flag);
      ArchiveIsAligned(cfg, s);
    }
    if cfg.FlagValidTicks() >= 0 && cfg.TotalTicks() >= 1 && exists flag :: ForeignFlag(cfg, info, flag, 1) {
      var flag :| ForeignFlag(cfg, info, flag, 1);
      var s := FlagIsReceived(cfg, flag);
      ArchiveIsAligned(cfg, s);
      PanicsExactly(cfg, s, info, flag);
      assert PanicsAt(cfg, s, info, flag);
    }
  }

  /** A submitter that is on no board, such as a bot of a game without bots, can do so with a flag of any tick. */
  lemma OutsidersCanPanicExactly(cfg: Config, info: int)
    requires cfg.Valid() && !cfg.IsTeamId(info)
    ensures CanPanic(cfg, info) <==> cfg.FlagValidTicks() >= 0 && exists flag :: WillBeMade(cfg, flag, cfg.TotalTicks())
  {
    forall s, flag | PanicsAt(cfg, s, info, flag)
      ensures cfg.FlagValidTicks() >= 0 && WillBeMade(cfg, flag, cfg.TotalTicks())
    {
      PanicsExactly(cfg, s, info, flag);
      VerifiedIsSigned(cfg, s, flag);
      ArchiveIsAligned(cfg, s);
    }
    if cfg.FlagValidTicks() >= 0 && exists flag :: WillBeMade(cfg, flag, cfg.TotalTicks()) {
      var flag :| WillBeMade(cfg, flag, cfg.TotalTicks());
      var s := FlagIsReceived(cfg, flag);
      PanicsExactly(cfg, s, info, flag);
      assert PanicsAt(cfg, s, info, flag);
    }
  }

  // ---------- Flags that are accepted and lost ----------

  /** A run in which a submission of this submitter is accepted after the final rollover. */
  ghost predicate LosesFlag(cfg: Config, states: seq<State>, steps: seq<Step>, j: nat, info: int, flag: string)
    requires cfg.Valid()
  {
    && Run(cfg, states, steps) && j < |steps| && Ended(states[j])
    && steps[j] == Submit(info, flag, Answer(FlagAccepted))
  }

  ghost predicate CanLoseFlag(cfg: Config, info: int)
    requires cfg.Valid()
  {
    exists states, steps, j, flag :: LosesFlag(cfg, states, steps, j, info, flag)
  }

  /** A submission that is still under way when the game ends. */
  lemma FlagIsLate(cfg: Config, flag: string) returns (s: State)
    requires cfg.Valid() && WillBeMade(cfg, flag, cfg.TotalTicks())
    ensures Reachable(cfg, s) && s.inFlight > 0 && Unforged(cfg, s, flag) && Peaceful(s)
    ensures s.phase == Closing && s.currentTick == cfg.decode(flag).value.tick && s.overall.Some?
  {
    var received := FlagIsReceived(cfg, flag);
    var played := PlayChecks(cfg, received, (duty: Duty) => true);
    var last := SummaryExists(cfg.ScoringRules(), cfg.nan, [played.current.value]);
    var sum := SummaryExists(cfg.ScoringRules(), cfg.nan, played.ticks + [last]);
    s := GameEnds(cfg, played, last, sum);
  }

  lemma SubmissionAccepted(cfg: Config, s: State, info: int, flag: string) returns (s': State)
    requires cfg.Valid() && Reachable(cfg, s) && s.inFlight > 0 && Unforged(cfg, s, flag)
    requires Judge(cfg, s.current, s.overall, info, flag) == Answer(FlagAccepted)
    ensures Next(cfg, s, Submit(info, flag, Answer(FlagAccepted)), s')
  {
    OpenBoardIsComplete(cfg, s, Duty(0, 0), info, flag);
    var tr := cfg.decode(flag).value;
    s' := s.(inFlight := s.inFlight - 1, current := Some(Stolen(s.current.value, info, tr)),
             open := s.open + [Steal(info, tr.team, tr.tick, tr.service)]);
  }

  lemma LateFlagIsLost(cfg: Config, info: int, flag: string)
    requires cfg.Valid() && cfg.IsTeamId(info) && cfg.FlagValidTicks() >= 0
    requires ForeignFlag(cfg, info, flag, cfg.TotalTicks())
    ensures CanLoseFlag(cfg, info)
  {
    var s := FlagIsLate(cfg, flag);
    ArchiveIsAligned(cfg, s);
    AnswersExactly(cfg, s, info, flag);
    var s' := SubmissionAccepted(cfg, s, info, flag);
    var states, steps :| Run(cfg, states, steps) && states[|steps|] == s;
    var step := Submit(info, flag, Answer(FlagAccepted));
    RunExtend(cfg, states, steps, step, s');
    assert LosesFlag(cfg, states + [s'], steps + [step], |steps|, info, flag);
  }

  /**
    A submitter can have a flag accepted that never counts exactly when it is a team, flags are valid for zero ticks or
    more, and some text is another team's flag of a tick to be played.
   */
  lemma FlagsCanBeLostExactly(cfg: Config, info: int)
    requires cfg.Valid()
    ensures CanLoseFlag(cfg, info) <==>
            cfg.IsTeamId(info) && cfg.FlagValidTicks() >= 0
            && exists flag :: ForeignFlag(cfg, info, flag, cfg.TotalTicks())
  {
    forall states, steps, j, flag | LosesFlag(cfg, states, steps, j, info, flag)
      ensures cfg.IsTeamId(info) && cfg.FlagValidTicks() >= 0 && ForeignFlag(cfg, info, flag, cfg.TotalTicks())
    {
      LostFlagIsForeign(cfg, states, steps, j, info, flag);
    }
    if cfg.IsTeamId(info) && cfg.FlagValidTicks() >= 0
       && exists flag :: ForeignFlag(cfg, info, flag, cfg.TotalTicks()) {
      var flag :| ForeignFlag(cfg, info, flag, cfg.TotalTicks());
      LateFlagIsLost(cfg, info, flag);
    }
  }

  lemma LostFlagIsForeign(cfg: Config, states: seq<State>, steps: seq<Step>, j: nat, info: int, flag: string)
    requires cfg.Valid() && LosesFlag(cfg, states, steps, j, info, flag)
    ensures cfg.IsTeamId(info) && cfg.FlagValidTicks() >= 0 && ForeignFlag(cfg, info, flag, cfg.TotalTicks())
  {
    var s := states[j];
    RunReachable(cfg, states, steps, j);
    assert StepAt(cfg, states, steps, j);
    ReachableInv(cfg, s);
    AcceptedIsSound(cfg, s, info, flag);
    VerifiedIsSigned(cfg, s, flag);
  }

  // ---------- A lead that is lost ----------

  /** In a game of one public, checked service, what the summary of one tick without flags gives a team. */
  lemma OneCheckPoints(cfg: Config, current: Board, last: Board, sum: Board, t: int, success: bool)
    requires cfg.Valid() && cfg.checks == [0] && |cfg.services| == 1 && !cfg.services[0].private && cfg.IsTeamId(t)
    requires Shape(cfg, current) && RawAt(current, t, 0) == NO_DATA.WithCheck(success)
    requires Summarizes(cfg.ScoringRules(), cfg.nan, [current], last)
    requires Summarizes(cfg.ScoringRules(), cfg.nan, [last], sum)
    ensures t in sum.teams && sum.teams[t].points == Num(if success then cfg.perTick else 0.0)
  {
    var scoring := cfg.ScoringRules();
    SummarizesShape(cfg, [current], last);
    SummarizesShape(cfg, [last], sum);
    SummarizesScored(cfg, [last], sum);
    OneTickRaw(scoring, cfg.nan, current, last, t);
    OneTickRaw(scoring, cfg.nan, last, sum, t);
    assert TeamShape(cfg, t, sum.teams[t]);
    OneServicePoints(scoring, sum.teams[t], NO_DATA.WithCheck(success));
    OneCheckScore(scoring, success);
  }

  lemma OneServicePoints(scoring: Scoring, team: TeamRecord, raw: Raw)
    requires TeamScored(scoring, team) && scoring.private == [false]
    requires 0 in team.services && team.services[0].raw == raw
    ensures team.points == Add(ZERO, ServiceScore(scoring, raw).points)
  {
    assert PublicPoints(scoring, team.services, team.services.Keys, 0) == ZERO;
  }

  lemma OneTickRaw(scoring: Scoring, nan: int, b: Board, sum: Board, t: int)
    requires Summarizes(scoring, nan, [b], sum)
    ensures RawAt(sum, t, 0) == RawAt(b, t, 0)
  {
    SummarizesRaw(scoring, nan, [b], sum, t, 0);
    SumRawExtend([], b, t, 0);
    assert [] + [b] == [b];
    PlusNothing(RawAt(b, t, 0));
  }

  lemma OneCheckScore(scoring: Scoring, success: bool)
    ensures ServiceScore(scoring, NO_DATA.WithCheck(success)).points == Num(if success then scoring.perTick else 0.0)
  {
    var raw := NO_DATA.WithCheck(success);
    assert raw.Checks() == 1;
    assert TickPoints(scoring, raw) == scoring.perTick && AttackPoints(scoring, raw) == 0.0;
    assert Ratio(raw.checks.successful, 1) == Num(if success then 1.0 else 0.0);
  }

  /** One tick in which only team `s` passes its check. */
  lemma OneTickPlayed(cfg: Config, s: int) returns (played: State)
    requires cfg.Valid() && cfg.checks == [0] && cfg.TotalTicks() >= 1
    ensures Reachable(cfg, played) && played.phase == Playing && played.pending == {} && played.ticks == []
    ensures played.current.Some? && Shape(cfg, played.current.value)
    ensures forall t | cfg.IsTeamId(t) :: RawAt(played.current.value, t, 0) == NO_DATA.WithCheck(t == s)
  {
    var begun := TickIsReached(cfg, 1);
    played := PlayChecks(cfg, begun, (duty: Duty) => duty.team == s);
    ReachableInv(cfg, played);
    forall t | cfg.IsTeamId(t) ensures RawAt(played.current.value, t, 0) == NO_DATA.WithCheck(t == s) {
      FreshBoardAt(cfg, 1, t, 0);
      assert Duty(t, 0) in cfg.Duties();
    }
  }

  /**
    A lead that truncation hides can be lost: in every game of one public service with a price below one point per tick,
    some run ends with a team that passed its check placed behind one that failed it.
   */
  lemma LeadCanBeLost(cfg: Config, s: int, t: int) returns (end: State)
    requires cfg.Valid() && cfg.checks == [0] && |cfg.services| == 1 && !cfg.services[0].private
    requires cfg.TotalTicks() >= 1 && 0.0 < cfg.perTick < 1.0 && cfg.IsTeamId(s) && cfg.IsTeamId(t) && s != t
    ensures Reachable(cfg, end) && end.overall.Some? && PlacedBefore(end.overall.value, t, s)
    ensures end.overall.value.teams[s].points == Num(cfg.perTick) && end.overall.value.teams[t].points == Num(0.0)
  {
    var played := OneTickPlayed(cfg, s);
    var b := played.current.value;
    var last := SummaryExists(cfg.ScoringRules(), cfg.nan, [b]);
    var sum := SummaryExists(cfg.ScoringRules(), cfg.nan, [last]);
    OneCheckPoints(cfg, b, last, sum, s, true);
    OneCheckPoints(cfg, b, last, sum, t, false);
    DifferentPlaces(sum, cfg.nan, s, t);
    if PlacedBefore(sum, s, t) {
      sum := TiesMaySwap(sum, cfg.nan, s, t);
      OneCheckPoints(cfg, b, last, sum, s, true);
      OneCheckPoints(cfg, b, last, sum, t, false);
    }
    assert played.ticks + [last] == [last];
    end := GameEnds(cfg, played, last, sum);
  }
}
