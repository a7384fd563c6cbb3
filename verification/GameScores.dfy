/** Scores over a whole run: sums over ticks, balance between teams, uptime, and bounds on stolen flags. */
module GameScores {
  import opened Collections
  import opened GoValues
  import opened Scoreboard
  import opened GameRules
  import opened GameLog
  import opened GameInvariant
  import opened GameTheorems

  /** The facts about boards that scoring needs, without the rest of the invariant. */
  lemma ReachableBoards(cfg: Config, s: State)
    requires cfg.Valid() && Reachable(cfg, s)
    ensures Shapes(cfg, s) && Scored(cfg, s) && Replayed(s) && |s.closed| == |s.ticks|
    ensures s.overall.Some? <==> |s.ticks| > 0
  {
    ReachableInv(cfg, s);
  }

  ghost predicate ScoredService(scoring: Scoring, b: Board, t: int, i: int) {
    HasService(b, t, i) && b.teams[t].services[i].score == ServiceScore(scoring, RawAt(b, t, i))
  }

  lemma ServiceIsScored(cfg: Config, b: Board, t: int, i: int)
    requires Shape(cfg, b) && BoardScored(cfg, b) && cfg.IsTeamId(t) && 0 <= i < |cfg.services|
    ensures ScoredService(cfg.ScoringRules(), b, t, i)
  {
  }

  lemma ArchiveIsScored(cfg: Config, s: State, t: int, i: int)
    requires cfg.Valid() && Reachable(cfg, s) && cfg.IsTeamId(t) && 0 <= i < |cfg.services|
    ensures forall k :: 0 <= k < |s.ticks| ==> ScoredService(cfg.ScoringRules(), s.ticks[k], t, i)
    ensures s.overall.Some? ==> ScoredService(cfg.ScoringRules(), s.overall.value, t, i)
  {
    ReachableBoards(cfg, s);
    forall k | 0 <= k < |s.ticks| ensures ScoredService(cfg.ScoringRules(), s.ticks[k], t, i) {
      ServiceIsScored(cfg, s.ticks[k], t, i);
    }
    if s.overall.Some? {
      ServiceIsScored(cfg, s.overall.value, t, i);
    }
  }

  // ---------- Sums over ticks ----------

  function TickOf(score: Score): Float { score.tick }
  function AttackOf(score: Score): Float { score.attack }
  function DefenseOf(score: Score): Float { score.defense }
  function PointsOf(score: Score): Float { score.points }

  function Value(f: Float): real {
    if f.Num? then f.value else 0.0
  }

  function PartAt(b: Board, t: int, i: int, part: Score -> Float): real {
    if t in b.teams && i in b.teams[t].services then Value(part(b.teams[t].services[i].score)) else 0.0
  }

  /** One part of the score of one service, added up over ticks. */
  function SumOver(ticks: seq<Board>, t: int, i: int, part: Score -> Float): real {
    if |ticks| == 0 then 0.0
    else SumOver(ticks[..|ticks| - 1], t, i, part) + PartAt(ticks[|ticks| - 1], t, i, part)
  }

  /** A measure of raw data that adds up, such as the number of stolen flags times a rate. */
  ghost predicate Additive(f: Raw -> real) {
    f(NO_DATA) == 0.0 && forall a, b :: AddsUpAt(f, a, b)
  }

  predicate AddsUpAt(f: Raw -> real, a: Raw, b: Raw) {
    f(a.Plus(b)) == f(a) + f(b)
  }

  /** A part of the score that is an additive measure of each tick is that measure of the summed raw data. */
  lemma {:induction false} MeasureAddsUp(ticks: seq<Board>, t: int, i: int, part: Score -> Float, f: Raw -> real)
    requires Additive(f)
    requires forall k :: 0 <= k < |ticks| ==> PartAt(ticks[k], t, i, part) == f(RawAt(ticks[k], t, i))
    ensures SumOver(ticks, t, i, part) == f(SumRaw(ticks, t, i))
  {
    if |ticks| > 0 {
      var n := |ticks| - 1;
      MeasureAddsUp(ticks[..n], t, i, part, f);
      assert AddsUpAt(f, SumRaw(ticks[..n], t, i), RawAt(ticks[n], t, i));
    }
  }

  lemma Distributes(a: nat, b: nat, p: real)
    ensures (a + b) as real * p == a as real * p + b as real * p
  {
  }

  lemma PointsAreAdditive(scoring: Scoring)
    ensures Additive((raw: Raw) => TickPoints(scoring, raw))
    ensures Additive((raw: Raw) => AttackPoints(scoring, raw))
    ensures Additive((raw: Raw) => DefensePoints(scoring, raw))
  {
  }

  function FullPoints(scoring: Scoring, raw: Raw): real {
    TickPoints(scoring, raw) + AttackPoints(scoring, raw) + DefensePoints(scoring, raw)
  }

  lemma FullPointsAreAdditive(scoring: Scoring)
    ensures Additive((raw: Raw) => FullPoints(scoring, raw))
  {
  }

  lemma ScoreParts(scoring: Scoring, raw: Raw)
    ensures ServiceScore(scoring, raw).tick == Num(TickPoints(scoring, raw))
    ensures ServiceScore(scoring, raw).attack == Num(AttackPoints(scoring, raw))
    ensures ServiceScore(scoring, raw).defense == Num(DefensePoints(scoring, raw))
  {
  }

  /** Every check was made and succeeded. */
  predicate FullyUp(raw: Raw) {
    raw.checks.failed == 0 && raw.checks.successful > 0
  }

  lemma PointsWhenUp(scoring: Scoring, raw: Raw)
    requires FullyUp(raw)
    ensures ServiceScore(scoring, raw).points == Num(FullPoints(scoring, raw))
  {
  }

  lemma {:induction false} SumIsFullyUp(ticks: seq<Board>, t: int, i: int)
    requires |ticks| > 0 && forall k :: 0 <= k < |ticks| ==> FullyUp(RawAt(ticks[k], t, i))
    ensures FullyUp(SumRaw(ticks, t, i))
  {
    var n := |ticks| - 1;
    assert FullyUp(RawAt(ticks[n], t, i));
    if n > 0 {
      SumIsFullyUp(ticks[..n], t, i);
    } else {
      assert ticks[..n] == [];
    }
  }

  /** The summary holds the summed raw data of the archive. */
  lemma SummaryIsSum(cfg: Config, s: State, t: int, i: int)
    requires Replayed(s) && s.overall.Some?
    ensures RawAt(s.overall.value, t, i) == SumRaw(s.ticks, t, i)
  {
    assert ReplayedAt(s, t, i);
    SumOfReplays(s.ticks, s.closed, t, i);
  }

  /** Scoring is linear in the run: the parts of the overall score are the sums of those of the archived ticks. */
  lemma PartsAddUp(cfg: Config, s: State, t: int, i: int)
    requires cfg.Valid() && Reachable(cfg, s) && s.overall.Some?
    requires cfg.IsTeamId(t) && 0 <= i < |cfg.services|
    ensures HasService(s.overall.value, t, i)
    ensures var score := s.overall.value.teams[t].services[i].score;
            && score.tick == Num(SumOver(s.ticks, t, i, TickOf))
            && score.attack == Num(SumOver(s.ticks, t, i, AttackOf))
            && score.defense == Num(SumOver(s.ticks, t, i, DefenseOf))
  {
    var scoring := cfg.ScoringRules();
    ReachableBoards(cfg, s);
    ArchiveIsScored(cfg, s, t, i);
    SummaryIsSum(cfg, s, t, i);
    PointsAreAdditive(scoring);
    ScoreParts(scoring, RawAt(s.overall.value, t, i));
    forall k | 0 <= k < |s.ticks|
      ensures PartAt(s.ticks[k], t, i, TickOf) == TickPoints(scoring, RawAt(s.ticks[k], t, i))
      ensures PartAt(s.ticks[k], t, i, AttackOf) == AttackPoints(scoring, RawAt(s.ticks[k], t, i))
      ensures PartAt(s.ticks[k], t, i, DefenseOf) == DefensePoints(scoring, RawAt(s.ticks[k], t, i))
    {
      assert ScoredService(scoring, s.ticks[k], t, i);
      ScoreParts(scoring, RawAt(s.ticks[k], t, i));
    }
    MeasureAddsUp(s.ticks, t, i, TickOf, (raw: Raw) => TickPoints(scoring, raw));
    MeasureAddsUp(s.ticks, t, i, AttackOf, (raw: Raw) => AttackPoints(scoring, raw));
    MeasureAddsUp(s.ticks, t, i, DefenseOf, (raw: Raw) => DefensePoints(scoring, raw));
  }

  /** So are the points, when no check failed or was left out. */
  lemma PointsAddUp(cfg: Config, s: State, t: int, i: int)
    requires cfg.Valid() && Reachable(cfg, s) && s.overall.Some?
    requires cfg.IsTeamId(t) && 0 <= i < |cfg.services|
    requires forall k :: 0 <= k < |s.ticks| ==> FullyUp(RawAt(s.ticks[k], t, i))
    ensures HasService(s.overall.value, t, i)
    ensures s.overall.value.teams[t].services[i].score.points == Num(SumOver(s.ticks, t, i, PointsOf))
  {
    var scoring := cfg.ScoringRules();
    ReachableBoards(cfg, s);
    ArchiveIsScored(cfg, s, t, i);
    SummaryIsSum(cfg, s, t, i);
    SumIsFullyUp(s.ticks, t, i);
    PointsWhenUp(scoring, RawAt(s.overall.value, t, i));
    FullPointsAreAdditive(scoring);
    forall k | 0 <= k < |s.ticks|
      ensures PartAt(s.ticks[k], t, i, PointsOf) == FullPoints(scoring, RawAt(s.ticks[k], t, i))
    {
      assert ScoredService(scoring, s.ticks[k], t, i);
      PointsWhenUp(scoring, RawAt(s.ticks[k], t, i));
    }
    MeasureAddsUp(s.ticks, t, i, PointsOf, (raw: Raw) => FullPoints(scoring, raw));
  }

  // ---------- Team points ----------

  function TeamServices(b: Board, t: int): map<int, ServiceRecord> {
    if t in b.teams then b.teams[t].services else map[]
  }

  /** The points of the first `n` services of one team that are public. */
  function FirstPoints(scoring: Scoring, b: Board, t: int, n: nat): Float
    requires n <= |scoring.private|
  {
    PublicPoints(scoring, TeamServices(b, t), TeamServices(b, t).Keys, n)
  }

  function SumFirstPoints(scoring: Scoring, ticks: seq<Board>, t: int, n: nat): real
    requires n <= |scoring.private|
  {
    if |ticks| == 0 then 0.0
    else SumFirstPoints(scoring, ticks[..|ticks| - 1], t, n) + Value(FirstPoints(scoring, ticks[|ticks| - 1], t, n))
  }

  /** The first `n` public services of the team have points that are numbers. */
  ghost predicate NumbersUpTo(scoring: Scoring, b: Board, t: int, n: nat)
    requires n <= |scoring.private|
  {
    forall i :: 0 <= i < n && !scoring.private[i] ==> HasService(b, t, i) && b.teams[t].services[i].score.points.Num?
  }

  lemma {:induction false} NumbersAddUp(scoring: Scoring, b: Board, t: int, n: nat)
    requires n <= |scoring.private| && NumbersUpTo(scoring, b, t, n)
    ensures FirstPoints(scoring, b, t, n).Num?
  {
    if n > 0 {
      NumbersAddUp(scoring, b, t, n - 1);
    }
  }

  lemma FirstPointsStep(scoring: Scoring, b: Board, t: int, n: nat)
    requires n < |scoring.private| && NumbersUpTo(scoring, b, t, n + 1)
    ensures FirstPoints(scoring, b, t, n + 1).Num?
    ensures Value(FirstPoints(scoring, b, t, n + 1)) ==
            Value(FirstPoints(scoring, b, t, n)) + if scoring.private[n] then 0.0 else PartAt(b, t, n, PointsOf)
  {
    NumbersAddUp(scoring, b, t, n);
  }

  /** Adding up over ticks and adding up over services commute. */
  lemma {:induction false} SumFirstPointsStep(scoring: Scoring, ticks: seq<Board>, t: int, n: nat)
    requires n < |scoring.private| && forall k :: 0 <= k < |ticks| ==> NumbersUpTo(scoring, ticks[k], t, n + 1)
    ensures SumFirstPoints(scoring, ticks, t, n + 1) ==
            SumFirstPoints(scoring, ticks, t, n) + if scoring.private[n] then 0.0 else SumOver(ticks, t, n, PointsOf)
  {
    if |ticks| > 0 {
      var k := |ticks| - 1;
      SumFirstPointsStep(scoring, ticks[..k], t, n);
      FirstPointsStep(scoring, ticks[k], t, n);
    }
  }

  lemma {:induction false} NoServicesNoPoints(scoring: Scoring, ticks: seq<Board>, t: int)
    ensures SumFirstPoints(scoring, ticks, t, 0) == 0.0
  {
    if |ticks| > 0 {
      NoServicesNoPoints(scoring, ticks[..|ticks| - 1], t);
    }
  }

  ghost predicate AlwaysUp(cfg: Config, s: State, t: int) {
    forall i :: 0 <= i < |cfg.services| && !cfg.services[i].private ==> ServiceAlwaysUp(s, t, i)
  }

  ghost predicate ServiceAlwaysUp(s: State, t: int, i: int) {
    forall k :: 0 <= k < |s.ticks| ==> FullyUp(RawAt(s.ticks[k], t, i))
  }

  lemma UpMeansNumbers(cfg: Config, s: State, t: int, k: nat, n: nat)
    requires cfg.Valid() && Reachable(cfg, s) && cfg.IsTeamId(t) && n <= |cfg.services| && k < |s.ticks|
    requires AlwaysUp(cfg, s, t)
    ensures NumbersUpTo(cfg.ScoringRules(), s.ticks[k], t, n)
  {
    var scoring := cfg.ScoringRules();
    forall i | 0 <= i < n && !scoring.private[i]
      ensures HasService(s.ticks[k], t, i) && s.ticks[k].teams[t].services[i].score.points.Num?
    {
      ArchiveIsScored(cfg, s, t, i);
      assert !cfg.services[i].private && ServiceAlwaysUp(s, t, i) && ScoredService(scoring, s.ticks[k], t, i);
      PointsWhenUp(scoring, RawAt(s.ticks[k], t, i));
    }
  }

  lemma {:induction false} FirstPointsAddUp(cfg: Config, s: State, t: int, n: nat)
    requires cfg.Valid() && Reachable(cfg, s) && s.overall.Some? && cfg.IsTeamId(t) && n <= |cfg.services|
    requires AlwaysUp(cfg, s, t)
    ensures FirstPoints(cfg.ScoringRules(), s.overall.value, t, n) ==
            Num(SumFirstPoints(cfg.ScoringRules(), s.ticks, t, n))
  {
    var scoring := cfg.ScoringRules();
    if n == 0 {
      NoServicesNoPoints(scoring, s.ticks, t);
    } else {
      FirstPointsAddUp(cfg, s, t, n - 1);
      forall k | 0 <= k < |s.ticks| ensures NumbersUpTo(scoring, s.ticks[k], t, n) {
        UpMeansNumbers(cfg, s, t, k, n);
      }
      SumFirstPointsStep(scoring, s.ticks, t, n - 1);
      if !cfg.services[n - 1].private {
        assert ServiceAlwaysUp(s, t, n - 1);
        PointsAddUp(cfg, s, t, n - 1);
      }
      assert scoring.private[n - 1] == cfg.services[n - 1].private;
    }
  }

  /** A team whose public services were checked and up in every tick has the sum of its tick scores in the summary. */
  lemma TeamPointsAddUp(cfg: Config, s: State, t: int)
    requires cfg.Valid() && Reachable(cfg, s) && s.overall.Some? && cfg.IsTeamId(t) && AlwaysUp(cfg, s, t)
    ensures t in s.overall.value.teams
    ensures forall k :: 0 <= k < |s.ticks| ==> t in s.ticks[k].teams && s.ticks[k].teams[t].points.Num?
    ensures s.overall.value.teams[t].points == Num(SumTeamPoints(s.ticks, t))
  {
    var scoring := cfg.ScoringRules();
    ReachableBoards(cfg, s);
    FirstPointsAddUp(cfg, s, t, |cfg.services|);
    assert TeamScored(scoring, s.overall.value.teams[t]);
    forall k | 0 <= k < |s.ticks|
      ensures t in s.ticks[k].teams && s.ticks[k].teams[t].points.Num? && TeamScored(scoring, s.ticks[k].teams[t])
    {
      assert Shape(cfg, s.ticks[k]) && BoardScored(cfg, s.ticks[k]);
      UpMeansNumbers(cfg, s, t, k, |cfg.services|);
      NumbersAddUp(scoring, s.ticks[k], t, |cfg.services|);
    }
    SumTeamPointsIsFirst(scoring, s.ticks, t);
  }

  function SumTeamPoints(ticks: seq<Board>, t: int): real {
    if |ticks| == 0 then 0.0
    else
      var last := ticks[|ticks| - 1];
      SumTeamPoints(ticks[..|ticks| - 1], t) + if t in last.teams then Value(last.teams[t].points) else 0.0
  }

  lemma {:induction false} SumTeamPointsIsFirst(scoring: Scoring, ticks: seq<Board>, t: int)
    requires forall k :: 0 <= k < |ticks| ==> t in ticks[k].teams && TeamScored(scoring, ticks[k].teams[t])
    ensures SumTeamPoints(ticks, t) == SumFirstPoints(scoring, ticks, t, |scoring.private|)
  {
    if |ticks| > 0 {
      SumTeamPointsIsFirst(scoring, ticks[..|ticks| - 1], t);
    }
  }

  // ---------- Balance between teams ----------

  /** `teams` lists every team and bot once. */
  ghost predicate Enumerates(cfg: Config, teams: seq<int>) {
    NoDuplicates(teams) && forall t :: t in teams <==> cfg.IsTeamId(t)
  }

  function FlagPointsOf(b: Board, t: int, service: int): real {
    PartAt(b, t, service, AttackOf) + PartAt(b, t, service, DefenseOf)
  }

  /** Attack and defense points of one service, over some teams. */
  function FlagPoints(b: Board, service: int, teams: seq<int>): real {
    if |teams| == 0 then 0.0 else FlagPointsOf(b, teams[0], service) + FlagPoints(b, service, teams[1..])
  }

  /** `n` flags at a rate, as repeated addition. */
  function Times(n: nat, rate: real): real {
    if n == 0 then 0.0 else Times(n - 1, rate) + rate
  }

  lemma {:induction false} TimesIsProduct(n: nat, rate: real)
    ensures Times(n, rate) == n as real * rate
  {
    if n > 0 {
      TimesIsProduct(n - 1, rate);
      Distributes(n - 1, 1, rate);
    }
  }

  lemma {:induction false} TimesAddsUp(a: nat, b: nat, rate: real)
    ensures Times(a + b, rate) == Times(a, rate) + Times(b, rate)
  {
    if b > 0 {
      TimesAddsUp(a, b - 1, rate);
    }
  }

  lemma {:induction false} TimesSum(n: nat, a: real, b: real)
    ensures Times(n, a) + Times(n, b) == Times(n, a + b)
  {
    if n > 0 {
      TimesSum(n - 1, a, b);
    }
  }

  lemma {:induction false} TimesSign(n: nat, rate: real)
    ensures Times(n, rate) == 0.0 <==> n == 0 || rate == 0.0
    ensures rate > 0.0 ==> Times(n, rate) >= 0.0
    ensures rate < 0.0 ==> Times(n, rate) <= 0.0
  {
    if n > 0 {
      TimesSign(n - 1, rate);
    }
  }

  function FlagTimes(raw: Raw, perStolenFlag: real, perLostFlag: real): real {
    Times(|raw.stolen|, perStolenFlag) + Times(|raw.lost|, perLostFlag)
  }

  lemma FlagTimesIsPoints(scoring: Scoring, raw: Raw)
    ensures AttackPoints(scoring, raw) + DefensePoints(scoring, raw) ==
            FlagTimes(raw, scoring.perStolenFlag, scoring.perLostFlag)
  {
    TimesIsProduct(|raw.stolen|, scoring.perStolenFlag);
    TimesIsProduct(|raw.lost|, scoring.perLostFlag);
  }

  /** The flag points of a team are its logged flags times the two rates. */
  ghost predicate Priced(b: Board, log: seq<Entry>, service: int, t: int, perStolenFlag: real, perLostFlag: real) {
    FlagPointsOf(b, t, service) == FlagTimes(Replay(log, t, service), perStolenFlag, perLostFlag)
  }

  lemma FlagPointsArePriced(scoring: Scoring, b: Board, t: int, service: int)
    requires ScoredService(scoring, b, t, service)
    ensures FlagPointsOf(b, t, service) == FlagTimes(RawAt(b, t, service), scoring.perStolenFlag, scoring.perLostFlag)
  {
    ScoreParts(scoring, RawAt(b, t, service));
    FlagTimesIsPoints(scoring, RawAt(b, t, service));
  }

  lemma {:induction false} FlagPointsAreTotals(b: Board, log: seq<Entry>, service: int, teams: seq<int>,
                                               perStolenFlag: real, perLostFlag: real)
    requires forall t :: t in teams ==> Priced(b, log, service, t, perStolenFlag, perLostFlag)
    ensures FlagPoints(b, service, teams) ==
            Times(StolenTotal(log, service, teams), perStolenFlag) + Times(LostTotal(log, service, teams), perLostFlag)
  {
    if |teams| > 0 {
      var t, rest := teams[0], teams[1..];
      FlagPointsAreTotals(b, log, service, rest, perStolenFlag, perLostFlag);
      assert Priced(b, log, service, t, perStolenFlag, perLostFlag);
      TimesAddsUp(|Replay(log, t, service).stolen|, StolenTotal(log, service, rest), perStolenFlag);
      TimesAddsUp(|Replay(log, t, service).lost|, LostTotal(log, service, rest), perLostFlag);
    }
  }

  lemma BoardBalance(b: Board, log: seq<Entry>, service: int, teams: seq<int>, perStolenFlag: real, perLostFlag: real)
    requires NoDuplicates(teams) && StealsAmong(log, teams)
    requires forall t :: t in teams ==> Priced(b, log, service, t, perStolenFlag, perLostFlag)
    ensures FlagPoints(b, service, teams) == Times(StolenTotal(log, service, teams), perStolenFlag + perLostFlag)
  {
    FlagPointsAreTotals(b, log, service, teams, perStolenFlag, perLostFlag);
    TotalsBalance(log, service, teams);
    TimesSum(StolenTotal(log, service, teams), perStolenFlag, perLostFlag);
  }

  lemma {:induction false} ArchivedStealsAmong(cfg: Config, closed: seq<seq<Entry>>, teams: seq<int>)
    requires cfg.Valid() && Enumerates(cfg, teams)
    requires forall k :: 0 <= k < |closed| ==> SegmentSound(cfg, closed[k], k + 1)
    ensures StealsAmong(Flatten(closed), teams)
    ensures forall k :: 0 <= k < |closed| ==> StealsAmong(closed[k], teams)
  {
    if |closed| > 0 {
      var n := |closed| - 1;
      ArchivedStealsAmong(cfg, closed[..n], teams);
      SegmentStealsAmong(cfg, closed[n], n + 1, teams);
      forall k | 0 <= k < |closed| ensures StealsAmong(closed[k], teams) {
        assert k < n ==> closed[..n][k] == closed[k];
      }
    }
  }

  lemma SegmentStealsAmong(cfg: Config, log: seq<Entry>, tick: int, teams: seq<int>)
    requires cfg.Valid() && Enumerates(cfg, teams) && SegmentSound(cfg, log, tick)
    ensures StealsAmong(log, teams)
  {
  }

  /** What the flags of one log are worth on its board, over all teams. */
  ghost predicate Balanced(cfg: Config, b: Board, log: seq<Entry>, service: int, teams: seq<int>) {
    var stolen := StolenTotal(log, service, teams);
    && FlagPoints(b, service, teams) == Times(stolen, cfg.perStolenFlag + cfg.perLostFlag)
    && (FlagPoints(b, service, teams) == 0.0 <==> stolen == 0 || cfg.perStolenFlag == -cfg.perLostFlag)
  }

  /**
    Over all teams, attack and defense points of a service are the number of its stolen flags times the sum of the two
    rates, in every archived tick and in the summary. So they cancel exactly when nothing was stolen or a stolen flag
    gains what a lost flag costs.
   */
  lemma FlagPointsBalance(cfg: Config, s: State, service: int, teams: seq<int>)
    requires cfg.Valid() && Reachable(cfg, s) && Enumerates(cfg, teams) && 0 <= service < |cfg.services|
    ensures |s.closed| == |s.ticks|
    ensures forall k :: 0 <= k < |s.ticks| ==> Balanced(cfg, s.ticks[k], s.closed[k], service, teams)
    ensures s.overall.Some? ==> Balanced(cfg, s.overall.value, Flatten(s.closed), service, teams)
  {
    ReachableReplayed(cfg, s);
    ReachableSegments(cfg, s);
    ArchivedStealsAmong(cfg, s.closed, teams);
    forall k | 0 <= k < |s.ticks| ensures Balanced(cfg, s.ticks[k], s.closed[k], service, teams) {
      forall t | t in teams
        ensures Priced(s.ticks[k], s.closed[k], service, t, cfg.perStolenFlag, cfg.perLostFlag)
      {
        ArchiveIsPriced(cfg, s, t, service);
      }
      PricedIsBalanced(cfg, s.ticks[k], s.closed[k], service, teams);
    }
    if s.overall.Some? {
      forall t | t in teams
        ensures Priced(s.overall.value, Flatten(s.closed), service, t, cfg.perStolenFlag, cfg.perLostFlag)
      {
        ArchiveIsPriced(cfg, s, t, service);
      }
      PricedIsBalanced(cfg, s.overall.value, Flatten(s.closed), service, teams);
    }
  }

  lemma PricedIsBalanced(cfg: Config, b: Board, log: seq<Entry>, service: int, teams: seq<int>)
    requires NoDuplicates(teams) && StealsAmong(log, teams)
    requires forall t :: t in teams ==> Priced(b, log, service, t, cfg.perStolenFlag, cfg.perLostFlag)
    ensures Balanced(cfg, b, log, service, teams)
  {
    BoardBalance(b, log, service, teams, cfg.perStolenFlag, cfg.perLostFlag);
    TimesSign(StolenTotal(log, service, teams), cfg.perStolenFlag + cfg.perLostFlag);
  }

  lemma ArchiveIsPriced(cfg: Config, s: State, t: int, service: int)
    requires cfg.Valid() && Reachable(cfg, s) && cfg.IsTeamId(t) && 0 <= service < |cfg.services|
    ensures |s.closed| == |s.ticks|
    ensures forall k :: 0 <= k < |s.ticks| ==>
              Priced(s.ticks[k], s.closed[k], service, t, cfg.perStolenFlag, cfg.perLostFlag)
    ensures s.overall.Some? ==>
              Priced(s.overall.value, Flatten(s.closed), service, t, cfg.perStolenFlag, cfg.perLostFlag)
  {
    ReachableReplayed(cfg, s);
    ArchiveIsScored(cfg, s, t, service);
    assert ReplayedAt(s, t, service);
    forall k | 0 <= k < |s.ticks|
      ensures Priced(s.ticks[k], s.closed[k], service, t, cfg.perStolenFlag, cfg.perLostFlag)
    {
      FlagPointsArePriced(cfg.ScoringRules(), s.ticks[k], t, service);
    }
    if s.overall.Some? {
      FlagPointsArePriced(cfg.ScoringRules(), s.overall.value, t, service);
    }
  }

  lemma ReachableSegments(cfg: Config, s: State)
    requires cfg.Valid() && Reachable(cfg, s)
    ensures forall k :: 0 <= k < |s.closed| ==> SegmentSound(cfg, s.closed[k], k + 1)
    ensures SegmentSound(cfg, s.open, s.currentTick) && StealsOnce(s.History())
  {
    ReachableInv(cfg, s);
  }

  // ---------- Uptime ----------

  lemma {:induction false} ChecksOfSum(ticks: seq<Board>, t: int, i: int, checked: bool)
    requires forall k :: 0 <= k < |ticks| ==> RawAt(ticks[k], t, i).Checks() == OneIf(checked)
    ensures SumRaw(ticks, t, i).Checks() == if checked then |ticks| else 0
  {
    if |ticks| > 0 {
      var n := |ticks| - 1;
      ChecksOfSum(ticks[..n], t, i, checked);
      ChecksOfPlus(SumRaw(ticks[..n], t, i), RawAt(ticks[n], t, i));
    }
  }

  lemma ChecksOfPlus(a: Raw, b: Raw)
    ensures a.Plus(b).Checks() == a.Checks() + b.Checks()
  {
  }

  lemma ScoreOfChecks(scoring: Scoring, raw: Raw, n: nat)
    requires raw.Checks() == n
    ensures var score := ServiceScore(scoring, raw);
            && score.tick == Num(n as real * scoring.perTick)
            && (score.uptime.Num? <==> n > 0)
            && (score.uptime.Num? ==> 0.0 <= score.uptime.value <= 1.0)
            && (score.points.NaN? <==> n == 0)
  {
  }

  /**
    In every interleaving of checks and submissions: one result per archived tick for every team and checked service,
    none for others. So the summary counts every archived tick once, its tick points are their number times the rate,
    and uptime is a number in [0, 1] exactly for checked services.
   */
  lemma UptimeIsExact(cfg: Config, s: State, t: int, i: int)
    requires cfg.Valid() && Reachable(cfg, s) && cfg.IsTeamId(t) && 0 <= i < |cfg.services|
    ensures forall k :: 0 <= k < |s.ticks| ==> RawAt(s.ticks[k], t, i).Checks() == OneIf(i in cfg.checks)
    ensures s.overall.Some? ==>
              && HasService(s.overall.value, t, i)
              && RawAt(s.overall.value, t, i).Checks() == (if i in cfg.checks then |s.ticks| else 0)
              && var score := s.overall.value.teams[t].services[i].score;
                 && score.tick == Num((if i in cfg.checks then |s.ticks| else 0) as real * cfg.perTick)
                 && (score.uptime.Num? <==> i in cfg.checks)
                 && (score.uptime.Num? ==> 0.0 <= score.uptime.value <= 1.0)
  {
    ArchiveChecks(cfg, s, t, i);
    if s.overall.Some? {
      SummaryChecks(cfg, s, t, i);
      ScoreOfChecks(cfg.ScoringRules(), RawAt(s.overall.value, t, i), if i in cfg.checks then |s.ticks| else 0);
    }
  }

  lemma SummaryChecks(cfg: Config, s: State, t: int, i: int)
    requires cfg.Valid() && Reachable(cfg, s) && cfg.IsTeamId(t) && 0 <= i < |cfg.services| && s.overall.Some?
    ensures |s.ticks| > 0
    ensures ScoredService(cfg.ScoringRules(), s.overall.value, t, i)
    ensures RawAt(s.overall.value, t, i).Checks() == if i in cfg.checks then |s.ticks| else 0
  {
    ReachableBoards(cfg, s);
    ArchiveChecks(cfg, s, t, i);
    ArchiveIsScored(cfg, s, t, i);
    SummaryIsSum(cfg, s, t, i);
    ChecksOfSum(s.ticks, t, i, i in cfg.checks);
  }

  lemma ArchiveChecks(cfg: Config, s: State, t: int, i: int)
    requires cfg.Valid() && Reachable(cfg, s) && cfg.IsTeamId(t)
    ensures forall k :: 0 <= k < |s.ticks| ==> RawAt(s.ticks[k], t, i).Checks() == OneIf(i in cfg.checks)
  {
    ReachableInv(cfg, s);
    assert CheckedAt(cfg, s, t, i) && ReplayedAt(s, t, i);
  }

  // ---------- Not-a-number ----------

  lemma {:induction false} PublicPointsNaN(scoring: Scoring, services: map<int, ServiceRecord>, n: nat)
    requires n <= |scoring.private| && forall i :: 0 <= i < n ==> i in services
    ensures PublicPoints(scoring, services, services.Keys, n).NaN? <==>
            exists i :: 0 <= i < n && !scoring.private[i] && services[i].score.points.NaN?
  {
    if n > 0 {
      PublicPointsNaN(scoring, services, n - 1);
    }
  }

  /**
    The points of a team in the summary are not a number exactly when some public service is never checked; so they
    are not a number for every team or for none, and the ranking never compares the two kinds.
   */
  lemma PointsAreNumbers(cfg: Config, s: State, t: int)
    requires cfg.Valid() && Reachable(cfg, s) && s.overall.Some? && cfg.IsTeamId(t)
    ensures t in s.overall.value.teams
    ensures s.overall.value.teams[t].points.NaN? <==>
            exists i :: 0 <= i < |cfg.services| && !cfg.services[i].private && i !in cfg.checks
  {
    var scoring, team := cfg.ScoringRules(), SummaryTeam(cfg, s, t);
    PublicPointsNaN(scoring, team.services, |scoring.private|);
    forall i | 0 <= i < |cfg.services| ensures team.services[i].score.points.NaN? <==> i !in cfg.checks {
      SummaryChecks(cfg, s, t, i);
      ScoreOfChecks(scoring, RawAt(s.overall.value, t, i), if i in cfg.checks then |s.ticks| else 0);
    }
    assert forall i :: 0 <= i < |cfg.services| ==> scoring.private[i] == cfg.services[i].private;
  }

  /** When all public services are checked, the summary places a team with more whole points before another. */
  lemma SummaryIsRanked(cfg: Config, s: State, t: int, u: int)
    requires cfg.Valid() && Reachable(cfg, s) && s.overall.Some? && cfg.IsTeamId(t) && cfg.IsTeamId(u) && t != u
    requires forall i :: 0 <= i < |cfg.services| && !cfg.services[i].private ==> i in cfg.checks
    ensures t in s.overall.value.teams && s.overall.value.teams[t].points.Num?
    ensures u in s.overall.value.teams && s.overall.value.teams[u].points.Num?
    ensures Truncate(s.overall.value.teams[t].points.value) > Truncate(s.overall.value.teams[u].points.value) ==>
              PlacedBefore(s.overall.value, t, u)
  {
    PointsAreNumbers(cfg, s, t);
    PointsAreNumbers(cfg, s, u);
    ReachableBoards(cfg, s);
    assert BoardScored(cfg, s.overall.value);
    DifferentPlaces(s.overall.value, cfg.nan, t, u);
    if PlacedBefore(s.overall.value, u, t) {
      PositionsAreSorted(s.overall.value, cfg.nan, u, t);
    }
  }

  ghost function SummaryTeam(cfg: Config, s: State, t: int): (team: TeamRecord)
    requires cfg.Valid() && Reachable(cfg, s) && s.overall.Some? && cfg.IsTeamId(t)
    ensures t in s.overall.value.teams && team == s.overall.value.teams[t]
    ensures TeamShape(cfg, t, team) && TeamScored(cfg.ScoringRules(), team)
  {
    ReachableBoards(cfg, s);
    s.overall.value.teams[t]
  }

  lemma SummaryCounts(cfg: Config, s: State, t: int, i: int)
    requires cfg.Valid() && Reachable(cfg, s) && s.overall.Some? && cfg.IsTeamId(t) && i in cfg.checks
    ensures var raw, log := RawAt(s.overall.value, t, i), Flatten(s.closed);
            && |raw.stolen| == Thefts(log, t, i) && |raw.lost| == Losses(log, t, i)
            && raw.checks.successful == Passes(log, t, i)
  {
    ReachableReplayed(cfg, s);
    assert ReplayedAt(s, t, i);
    ReplayCounts(Flatten(s.closed), t, i);
  }

  /** What a service earns by `checks` checks, of which it passed some, and by its thefts and losses. */
  ghost predicate Earned(cfg: Config, score: Score, checks: nat, passes: nat, thefts: nat, losses: nat)
    requires passes <= checks
  {
    var tick, attack, defense :=
      checks as real * cfg.perTick, thefts as real * cfg.perStolenFlag, losses as real * cfg.perLostFlag;
    && score.tick == Num(tick) && score.attack == Num(attack) && score.defense == Num(defense)
    && score.uptime == Ratio(passes, checks)
    && score.points == if checks == 0 then NaN else Num((tick + attack + defense) * Ratio(passes, checks).value)
  }

  lemma ScoreIsEarned(cfg: Config, raw: Raw)
    ensures Earned(cfg, ServiceScore(cfg.ScoringRules(), raw),
                   raw.Checks(), raw.checks.successful, |raw.stolen|, |raw.lost|)
  {
  }

  /**
    What a service of a team has earned, counted on the log of the archived ticks: its thefts, its losses and the checks
    it passed, each at its price, and all of it weighted by its share of passed checks.
   */
  lemma EarnedExactly(cfg: Config, s: State, t: int, i: int)
    requires cfg.Valid() && Reachable(cfg, s) && s.overall.Some? && cfg.IsTeamId(t) && i in cfg.checks
    ensures HasService(s.overall.value, t, i) && Passes(Flatten(s.closed), t, i) <= |s.ticks|
    ensures var log := Flatten(s.closed);
            Earned(cfg, s.overall.value.teams[t].services[i].score,
                   |s.ticks|, Passes(log, t, i), Thefts(log, t, i), Losses(log, t, i))
  {
    SummaryChecks(cfg, s, t, i);
    SummaryCounts(cfg, s, t, i);
    ScoreIsEarned(cfg, RawAt(s.overall.value, t, i));
  }
}
