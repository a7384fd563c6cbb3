/**
  The game as a state machine: its state between two atomic steps, and the steps.

  A submission is two steps, because the running check happens before the lock is taken; one uptime check is two
  steps, because its flag can be submitted before its result is known. All steps of different goroutines interleave
  freely, except that a tick ends only when every one of its checks has been recorded.
 */
module GameRules {
  import opened GoValues
  import opened Codec
  import opened Scoreboard

  const BOT_ID_OFFSET: int := 0xffff

  datatype ServiceInfo = ServiceInfo(name: string, private: bool)

  /**
    The configuration. Team ids are indices into `teams`; durations are in nanoseconds; `nan` is what the platform
    converts not-a-number to; `decode` is what flag verification makes of a submitted text.
   */
  datatype Config = Config(teams: seq<string>, services: seq<ServiceInfo>, bots: bool, checks: seq<int>,
                           tickRate: int, duration: int, flagValidTime: int,
                           perTick: real, perStolenFlag: real, perLostFlag: real,
                           nan: int, decode: string -> Option<Triple>) {

    /** Check ids name services by index and are distinct; bot ids are not team ids. */
    predicate Valid() {
      && tickRate > 0
      && |teams| <= BOT_ID_OFFSET
      && (forall j :: 0 <= j < |checks| ==> 0 <= checks[j] < |services|)
      && (forall j, k :: 0 <= j < k < |checks| ==> checks[j] != checks[k])
    }

    function TotalTicks(): int
      requires Valid()
    {
      TruncDiv(duration, tickRate)
    }

    function FlagValidTicks(): int
      requires Valid()
    {
      TruncDiv(flagValidTime, tickRate)
    }

    function ScoringRules(): Scoring {
      Scoring(perTick, perStolenFlag, perLostFlag,
        seq(|services|, i requires 0 <= i < |services| => services[i].private))
    }

    predicate IsTeamId(t: int) {
      0 <= t < |teams| || (bots && BOT_ID_OFFSET <= t < BOT_ID_OFFSET + |teams|)
    }

    /** The ids of all teams, and of their bots when there are bots. */
    function TeamIds(): (ids: set<int>)
      ensures forall t :: t in ids <==> IsTeamId(t)
    {
      set t | 0 <= t < BOT_ID_OFFSET + |teams| && IsTeamId(t)
    }

    predicate IsDuty(duty: Duty) {
      IsTeamId(duty.team) && duty.check in checks
    }

    /** The checks of one tick: every team and bot, every checked service. */
    function Duties(): (duties: set<Duty>)
      ensures forall duty :: duty in duties <==> IsDuty(duty)
    {
      set t, i | t in TeamIds() && i in checks :: Duty(t, i)
    }
  }

  /** A tick number lies in the game exactly when so many ticks fit into its duration. */
  lemma TicksFit(cfg: Config, n: int)
    requires cfg.Valid() && n >= 1
    ensures n <= cfg.TotalTicks() <==> n * cfg.tickRate <= cfg.duration
  {
    QuotientReaches(cfg.duration, cfg.tickRate, n);
  }

  /** So many ticks after its own a flag is older than the configured time allows. */
  predicate TooOld(cfg: Config, age: int) {
    if age == 0 then cfg.flagValidTime <= -cfg.tickRate else age * cfg.tickRate > cfg.flagValidTime
  }

  lemma TooOldInTicks(cfg: Config, age: nat)
    requires cfg.Valid()
    ensures TooOld(cfg, age) <==> age > cfg.FlagValidTicks()
  {
    QuotientReaches(cfg.flagValidTime, cfg.tickRate, if age == 0 then 1 else age);
  }

  /** One uptime check of one tick. */
  datatype Duty = Duty(team: int, check: int)

  // ---------- Boards ----------

  function TeamName(cfg: Config, t: int): string
    requires cfg.IsTeamId(t)
  {
    if t < |cfg.teams| then cfg.teams[t] else cfg.teams[t - BOT_ID_OFFSET] + "_bot"
  }

  function FreshTeam(cfg: Config, t: int): TeamRecord
    requires cfg.IsTeamId(t)
  {
    TeamRecord(t >= |cfg.teams|, TeamName(cfg, t), ZERO, 0,
               map i | 0 <= i < |cfg.services| :: NewService(cfg.services[i].name))
  }

  function FreshBoard(cfg: Config, tick: int): Board {
    Board(tick, map t | t in cfg.TeamIds() :: FreshTeam(cfg, t))
  }

  /** The teams and services of a board, under their configured names. */
  ghost predicate Shape(cfg: Config, b: Board) {
    && (forall t :: t in b.teams <==> cfg.IsTeamId(t))
    && forall t :: t in b.teams ==> TeamShape(cfg, t, b.teams[t])
  }

  ghost predicate TeamShape(cfg: Config, t: int, team: TeamRecord)
    requires cfg.IsTeamId(t)
  {
    && team.isBot == (t >= |cfg.teams|) && team.name == TeamName(cfg, t)
    && (forall i :: i in team.services <==> 0 <= i < |cfg.services|)
    && forall i :: i in team.services ==> team.services[i].name == cfg.services[i].name
  }

  function WithRaw(b: Board, t: int, i: int, raw: Raw): Board
    requires t in b.teams && i in b.teams[t].services
  {
    var team := b.teams[t];
    b.(teams := b.teams[t := team.(services := team.services[i := team.services[i].(raw := raw)])])
  }

  // ---------- The log of a run ----------

  datatype Entry =
    | Steal(thief: int, victim: int, tick: int, service: int)
    | Check(team: int, service: int, success: bool)

  function Effect(e: Entry, team: int, service: int): Raw {
    match e
    case Steal(thief, victim, tick, s) =>
      if s != service then NO_DATA
      else Raw(if team == victim then [FlagInfo(thief, tick)] else [],
               if team == thief then [FlagInfo(victim, tick)] else [], NO_DATA.checks)
    case Check(t, s, success) =>
      if t != team || s != service then NO_DATA
      else NO_DATA.WithCheck(success)
  }

  /** The raw data that a log leaves for one service of one team. */
  function Replay(log: seq<Entry>, team: int, service: int): Raw {
    if |log| == 0 then NO_DATA
    else Replay(log[..|log| - 1], team, service).Plus(Effect(log[|log| - 1], team, service))
  }

  function Flatten(segments: seq<seq<Entry>>): seq<Entry> {
    if |segments| == 0 then [] else Flatten(segments[..|segments| - 1]) + segments[|segments| - 1]
  }

  // ---------- States ----------

  datatype Phase = Idle | Playing | Closing | Over

  /**
    The fields of the game, followed by the bookkeeping of the run: submissions that passed the running check,
    checks of this tick that are not recorded yet, every triple ever signed, and the log, by tick.
   */
  datatype State = State(running: bool, currentTick: int, current: Option<Board>, ticks: seq<Board>,
                         overall: Option<Board>,
                         phase: Phase, inFlight: nat, pending: set<Duty>, signed: set<Triple>,
                         closed: seq<seq<Entry>>, open: seq<Entry>) {
    function History(): seq<Entry> {
      Flatten(closed) + open
    }
  }

  predicate IsInitial(s: State) {
    && !s.running && s.currentTick == 0 && s.current.None? && s.ticks == [] && s.overall.None?
    && s.phase == Idle && s.inFlight == 0 && s.pending == {} && s.signed == {} && s.closed == [] && s.open == []
  }

  // ---------- Submitting a flag ----------

  datatype FlagStatus =
    | GameNotRunning | FlagAccepted | FlagAlreadyStolen | FlagExpired | FlagNotYetValid
    | FlagFromOwnTeam | InvalidFlag | InvalidService | InvalidTeam

  /** What a submission ends with: a status, or a panic because a scoreboard or a team on it is nil. */
  datatype Outcome = Answer(status: FlagStatus) | NilPanic

  predicate HasService(b: Board, t: int, i: int) {
    t in b.teams && i in b.teams[t].services
  }

  function StolenBy(overall: Board, current: Board, info: int, service: int): seq<FlagInfo> {
    RawAt(overall, info, service).stolen + RawAt(current, info, service).stolen
  }

  function Judge(cfg: Config, current: Option<Board>, overall: Option<Board>, info: int, flag: string): Outcome
    requires cfg.Valid()
  {
    match cfg.decode(flag)
    case None => Answer(InvalidFlag)
    case Some(tr) =>
      if tr.team == info then Answer(FlagFromOwnTeam)
      else if tr.service < 0 || tr.service >= |cfg.services| then Answer(InvalidService)
      else if current.None? then NilPanic
      else if tr.tick < current.value.tick - cfg.FlagValidTicks() then Answer(FlagExpired)
      else if tr.tick > current.value.tick then Answer(FlagNotYetValid)
      else if overall.None? then NilPanic
      else if !HasService(overall.value, info, tr.service) || !HasService(current.value, info, tr.service) then NilPanic
      else if FlagInfo(tr.team, tr.tick) in StolenBy(overall.value, current.value, info, tr.service)
      then Answer(FlagAlreadyStolen)
      else Answer(FlagAccepted)
  }

  function AddStolen(b: Board, t: int, i: int, f: FlagInfo): Board
    requires t in b.teams && i in b.teams[t].services
  {
    var raw := RawAt(b, t, i);
    WithRaw(b, t, i, raw.(stolen := raw.stolen + [f]))
  }

  function AddLost(b: Board, t: int, i: int, f: FlagInfo): Board
    requires t in b.teams && i in b.teams[t].services
  {
    var raw := RawAt(b, t, i);
    WithRaw(b, t, i, raw.(lost := raw.lost + [f]))
  }

  function AddCheck(b: Board, t: int, i: int, success: bool): Board
    requires t in b.teams && i in b.teams[t].services
  {
    WithRaw(b, t, i, RawAt(b, t, i).WithCheck(success))
  }

  /** The board after an accepted flag: one entry for the thief, then one for the victim. */
  function Stolen(b: Board, info: int, tr: Triple): Board
    requires info in b.teams && tr.team in b.teams
    requires tr.service in b.teams[info].services && tr.service in b.teams[tr.team].services
  {
    AddLost(AddStolen(b, info, tr.service, FlagInfo(tr.team, tr.tick)), tr.team, tr.service, FlagInfo(info, tr.tick))
  }

  // ---------- Steps ----------

  datatype Step =
    | Start
    | BeginTick
    | GenerateFlag(duty: Duty)
    | RecordCheck(duty: Duty, success: bool)
    | EnterSubmit
    | Submit(info: int, flag: string, outcome: Outcome)
    | FinalRollover
    | Stop

  /** `updateScoreboard`: close the open tick, summarize the archive again, open a new tick. */
  ghost predicate Rolled(cfg: Config, s: State, s': State) {
    && s'.current == Some(FreshBoard(cfg, s'.currentTick))
    && s'.open == []
    && match s.current
       case None => s'.ticks == s.ticks && s'.overall == s.overall && s'.closed == s.closed
       case Some(b) =>
         && |s'.ticks| == |s.ticks| + 1 && s'.ticks[..|s.ticks|] == s.ticks
         && Summarizes(cfg.ScoringRules(), cfg.nan, [b], s'.ticks[|s.ticks|])
         && s'.overall.Some? && Summarizes(cfg.ScoringRules(), cfg.nan, s'.ticks, s'.overall.value)
         && s'.closed == s.closed + [s.open]
  }

  function TripleOf(s: State, duty: Duty): Triple {
    Triple(s.currentTick, duty.team, duty.check)
  }

  /** A signature that verifies was made by the game itself: the idealised signer. */
  predicate Unforged(cfg: Config, s: State, flag: string) {
    var tr := cfg.decode(flag);
    tr.Some? ==> tr.value in s.signed
  }

  ghost predicate TickBegins(cfg: Config, s: State, s': State)
    requires cfg.Valid()
  {
    && s.phase == Playing && s.pending == {} && s.currentTick < cfg.TotalTicks()
    && Rolled(cfg, s, s')
    && s' == s.(currentTick := s.currentTick + 1, pending := cfg.Duties(), current := s'.current,
                ticks := s'.ticks, overall := s'.overall, closed := s'.closed, open := s'.open)
  }

  ghost predicate GameCloses(cfg: Config, s: State, s': State) {
    && s.phase == Playing && s.pending == {}
    && Rolled(cfg, s, s')
    && s' == s.(phase := Closing, current := s'.current, ticks := s'.ticks, overall := s'.overall,
                closed := s'.closed, open := s'.open)
  }

  ghost predicate CheckRecorded(s: State, duty: Duty, success: bool, s': State) {
    && duty in s.pending && TripleOf(s, duty) in s.signed
    && s.current.Some? && HasService(s.current.value, duty.team, duty.check)
    && s' == s.(pending := s.pending - {duty},
                current := Some(AddCheck(s.current.value, duty.team, duty.check, success)),
                open := s.open + [Check(duty.team, duty.check, success)])
  }

  /** The state after an accepted flag, the submission still counted as in flight. */
  ghost predicate FlagScored(s: State, info: int, tr: Triple, s': State) {
    && s.current.Some?
    && HasService(s.current.value, info, tr.service) && HasService(s.current.value, tr.team, tr.service)
    && s' == s.(current := Some(Stolen(s.current.value, info, tr)),
                open := s.open + [Steal(info, tr.team, tr.tick, tr.service)])
  }

  ghost predicate Submitted(cfg: Config, s: State, info: int, flag: string, outcome: Outcome, s': State)
    requires cfg.Valid()
  {
    && s.inFlight > 0 && Unforged(cfg, s, flag)
    && outcome == Judge(cfg, s.current, s.overall, info, flag)
    && var done := s.(inFlight := s.inFlight - 1);
       if outcome == Answer(FlagAccepted)
       then FlagScored(done, info, cfg.decode(flag).value, s')
       else s' == done
  }

  ghost predicate Next(cfg: Config, s: State, step: Step, s': State)
    requires cfg.Valid()
  {
    match step
    case Start => s.phase == Idle && s' == s.(phase := Playing, running := true)
    case BeginTick =>
      || TickBegins(cfg, s, s')
      || (s.phase == Playing && s.pending == {} && s.currentTick >= cfg.TotalTicks() && s' == s)
    case GenerateFlag(duty) =>
      duty in s.pending && s' == s.(signed := s.signed + {TripleOf(s, duty)})
    case RecordCheck(duty, success) => CheckRecorded(s, duty, success, s')
    case EnterSubmit => s.running && s' == s.(inFlight := s.inFlight + 1)
    case Submit(info, flag, outcome) => Submitted(cfg, s, info, flag, outcome, s')
    case FinalRollover => GameCloses(cfg, s, s')
    case Stop => s.phase == Closing && s' == s.(phase := Over, running := false)
  }

  // ---------- Runs ----------

  ghost predicate Run(cfg: Config, states: seq<State>, steps: seq<Step>)
    requires cfg.Valid()
  {
    && |states| == |steps| + 1
    && IsInitial(states[0])
    && forall j :: 0 <= j < |steps| ==> StepAt(cfg, states, steps, j)
  }

  ghost predicate StepAt(cfg: Config, states: seq<State>, steps: seq<Step>, j: nat)
    requires cfg.Valid() && j < |steps| < |states|
  {
    Next(cfg, states[j], steps[j], states[j + 1])
  }

  ghost predicate Reachable(cfg: Config, s: State)
    requires cfg.Valid()
  {
    exists states, steps :: Run(cfg, states, steps) && states[|steps|] == s
  }

  lemma RunExtend(cfg: Config, states: seq<State>, steps: seq<Step>, step: Step, s': State)
    requires cfg.Valid() && Run(cfg, states, steps) && Next(cfg, states[|steps|], step, s')
    ensures Run(cfg, states + [s'], steps + [step])
  {
    var states', steps' := states + [s'], steps + [step];
    forall j | 0 <= j < |steps'| ensures StepAt(cfg, states', steps', j) {
      if j < |steps| {
        assert StepAt(cfg, states, steps, j);
      }
    }
  }

  /** A step from a reachable state leads to a reachable state. */
  lemma ReachableStep(cfg: Config, s: State, step: Step, s': State)
    requires cfg.Valid() && Reachable(cfg, s) && Next(cfg, s, step, s')
    ensures Reachable(cfg, s')
  {
    var states, steps :| Run(cfg, states, steps) && states[|steps|] == s;
    RunExtend(cfg, states, steps, step, s');
    assert (states + [s'])[|steps + [step]|] == s';
  }

  /** Every state of a run is reachable. */
  lemma RunReachable(cfg: Config, states: seq<State>, steps: seq<Step>, n: nat)
    requires cfg.Valid() && Run(cfg, states, steps) && n <= |steps|
    ensures Reachable(cfg, states[n])
  {
    var before, taken := states[..n + 1], steps[..n];
    forall j | 0 <= j < n ensures StepAt(cfg, before, taken, j) {
      assert StepAt(cfg, states, steps, j);
    }
    assert Run(cfg, before, taken) && before[|taken|] == states[n];
  }

  lemma InitialReachable(cfg: Config, s: State)
    requires cfg.Valid() && IsInitial(s)
    ensures Reachable(cfg, s)
  {
    var states, steps: seq<Step> := [s], [];
    assert Run(cfg, states, steps) && states[|steps|] == s;
  }
}
