/**
  The scoreboard as values: what a tick records for each team and service, how archived ticks are summed up,
  and how the sums are scored and ranked.
 */
module Scoreboard {
  import opened Collections
  import opened GoValues

  /** A flag of team `teamId` that was planted in tick `tickId`, or the thief in a list of lost flags. */
  datatype FlagInfo = FlagInfo(teamId: int, tickId: int)

  datatype CheckCounts = CheckCounts(successful: nat, failed: nat)

  /** The raw data of one service of one team. */
  datatype Raw = Raw(lost: seq<FlagInfo>, stolen: seq<FlagInfo>, checks: CheckCounts) {
    function Plus(more: Raw): Raw {
      Raw(lost + more.lost, stolen + more.stolen,
          CheckCounts(checks.successful + more.checks.successful, checks.failed + more.checks.failed))
    }

    function Checks(): nat {
      checks.successful + checks.failed
    }

    function WithCheck(success: bool): Raw {
      this.(checks := if success then checks.(successful := checks.successful + 1)
                      else checks.(failed := checks.failed + 1))
    }
  }

  const NO_DATA: Raw := Raw([], [], CheckCounts(0, 0))

  datatype Score = Score(points: Float, tick: Float, attack: Float, defense: Float, uptime: Float)

  const UNSCORED: Score := Score(ZERO, ZERO, ZERO, ZERO, ZERO)

  datatype ServiceRecord = ServiceRecord(name: string, raw: Raw, score: Score)

  datatype TeamRecord = TeamRecord(isBot: bool, name: string, points: Float, position: int,
                                   services: map<int, ServiceRecord>)

  datatype Board = Board(tick: int, teams: map<int, TeamRecord>)

  /** The part of the configuration that scoring reads; `private[i]` tells whether service `i` is not counted. */
  datatype Scoring = Scoring(perTick: real, perStolenFlag: real, perLostFlag: real, private: seq<bool>)

  function RawAt(b: Board, team: int, service: int): Raw {
    if team in b.teams && service in b.teams[team].services then b.teams[team].services[service].raw else NO_DATA
  }

  lemma PlusAssociative(a: Raw, b: Raw, c: Raw)
    ensures a.Plus(b).Plus(c) == a.Plus(b.Plus(c))
  {
  }

  lemma PlusNothing(a: Raw)
    ensures a.Plus(NO_DATA) == a && NO_DATA.Plus(a) == a
  {
  }

  // ---------- Summing up ticks ----------

  function NewService(name: string): ServiceRecord {
    ServiceRecord(name, NO_DATA, UNSCORED)
  }

  function MergeService(acc: map<int, ServiceRecord>, i: int, more: ServiceRecord): ServiceRecord {
    var base := if i in acc then acc[i] else NewService(more.name);
    base.(raw := base.raw.Plus(more.raw))
  }

  /** The services in `done` have been added to the accumulator. */
  function MergeServices(acc: map<int, ServiceRecord>, more: map<int, ServiceRecord>, done: set<int>):
    map<int, ServiceRecord>
    requires done <= more.Keys
  {
    map i | i in acc.Keys + done :: if i in done then MergeService(acc, i, more[i]) else acc[i]
  }

  function NewTeam(isBot: bool, name: string): TeamRecord {
    TeamRecord(isBot, name, ZERO, 0, map[])
  }

  function TeamOrNew(acc: map<int, TeamRecord>, t: int, more: TeamRecord): TeamRecord {
    if t in acc then acc[t] else NewTeam(more.isBot, more.name)
  }

  function MergeTeam(acc: map<int, TeamRecord>, t: int, more: TeamRecord): TeamRecord {
    var base := TeamOrNew(acc, t, more);
    base.(services := MergeServices(base.services, more.services, more.services.Keys))
  }

  /** The teams in `done` have been added to the accumulator. */
  function MergeTeams(acc: map<int, TeamRecord>, more: map<int, TeamRecord>, done: set<int>): map<int, TeamRecord>
    requires done <= more.Keys
  {
    map t | t in acc.Keys + done :: if t in done then MergeTeam(acc, t, more[t]) else acc[t]
  }

  function MergeBoard(acc: Board, more: Board): Board {
    Board(if more.tick > acc.tick then more.tick else acc.tick,
          MergeTeams(acc.teams, more.teams, more.teams.Keys))
  }

  const EMPTY_BOARD: Board := Board(0, map[])

  /** The raw sums of some ticks, not scored yet. */
  function Gather(ticks: seq<Board>): Board {
    if |ticks| == 0 then EMPTY_BOARD else MergeBoard(Gather(ticks[..|ticks| - 1]), ticks[|ticks| - 1])
  }

  /** The raw data of one service of one team over some ticks, added up in order. */
  function SumRaw(ticks: seq<Board>, team: int, service: int): Raw {
    if |ticks| == 0 then NO_DATA
    else SumRaw(ticks[..|ticks| - 1], team, service).Plus(RawAt(ticks[|ticks| - 1], team, service))
  }

  lemma MergeBoardRaw(acc: Board, more: Board, team: int, service: int)
    ensures RawAt(MergeBoard(acc, more), team, service) == RawAt(acc, team, service).Plus(RawAt(more, team, service))
  {
  }

  /** Merging whole boards, in whatever order their teams and services are met, adds up the raw data pointwise. */
  lemma {:induction false} GatherRaw(ticks: seq<Board>, team: int, service: int)
    ensures RawAt(Gather(ticks), team, service) == SumRaw(ticks, team, service)
  {
    if |ticks| == 0 {
    } else {
      GatherRaw(ticks[..|ticks| - 1], team, service);
      MergeBoardRaw(Gather(ticks[..|ticks| - 1]), ticks[|ticks| - 1], team, service);
    }
  }

  lemma SumRawExtend(ticks: seq<Board>, b: Board, team: int, service: int)
    ensures SumRaw(ticks + [b], team, service) == SumRaw(ticks, team, service).Plus(RawAt(b, team, service))
  {
  }

  // ---------- Scoring ----------

  function TickPoints(scoring: Scoring, raw: Raw): real {
    raw.Checks() as real * scoring.perTick
  }

  function AttackPoints(scoring: Scoring, raw: Raw): real {
    |raw.stolen| as real * scoring.perStolenFlag
  }

  function DefensePoints(scoring: Scoring, raw: Raw): real {
    |raw.lost| as real * scoring.perLostFlag
  }

  function ServiceScore(scoring: Scoring, raw: Raw): Score {
    var tick, attack, defense := TickPoints(scoring, raw), AttackPoints(scoring, raw), DefensePoints(scoring, raw);
    var uptime := Ratio(raw.checks.successful, raw.Checks());
    Score(Mul(Num(tick + attack + defense), uptime), Num(tick), Num(attack), Num(defense), uptime)
  }

  function ScoreServices(scoring: Scoring, services: map<int, ServiceRecord>, done: set<int>): map<int, ServiceRecord>
  {
    map i | i in services ::
      if i in done then services[i].(score := ServiceScore(scoring, services[i].raw)) else services[i]
  }

  /** The points of the public services in `done` among the first `n`. */
  function PublicPoints(scoring: Scoring, services: map<int, ServiceRecord>, done: set<int>, n: nat): Float
    requires n <= |scoring.private|
  {
    if n == 0 then ZERO
    else
      var points := PublicPoints(scoring, services, done, n - 1);
      var i := n - 1;
      if i in done && i in services && !scoring.private[i] then Add(points, services[i].score.points) else points
  }

  function ScoreTeam(scoring: Scoring, team: TeamRecord): TeamRecord {
    var services := ScoreServices(scoring, team.services, team.services.Keys);
    team.(services := services, points := PublicPoints(scoring, services, services.Keys, |scoring.private|))
  }

  function ScoreTeams(scoring: Scoring, teams: map<int, TeamRecord>, done: set<int>): map<int, TeamRecord> {
    map t | t in teams :: if t in done then ScoreTeam(scoring, teams[t]) else teams[t]
  }

  /** The summary of some ticks, before positions are given. */
  function Summary(scoring: Scoring, ticks: seq<Board>): Board {
    var sums := Gather(ticks);
    sums.(teams := ScoreTeams(scoring, sums.teams, sums.teams.Keys))
  }

  lemma SummaryRaw(scoring: Scoring, ticks: seq<Board>, team: int, service: int)
    ensures RawAt(Summary(scoring, ticks), team, service) == SumRaw(ticks, team, service)
  {
    GatherRaw(ticks, team, service);
  }

  /** The sum of public points does not depend on the order in which services are visited. */
  lemma {:induction false} PublicPointsExtend(scoring: Scoring, services: map<int, ServiceRecord>, done: set<int>,
      k: int, n: nat)
    requires n <= |scoring.private| && k !in done && k in services
    ensures PublicPoints(scoring, services, done + {k}, n) ==
            if 0 <= k < n && !scoring.private[k]
            then Add(PublicPoints(scoring, services, done, n), services[k].score.points)
            else PublicPoints(scoring, services, done, n)
  {
    if n == 0 {
    } else {
      PublicPointsExtend(scoring, services, done, k, n - 1);
    }
  }

  lemma {:induction false} PublicPointsFrame(scoring: Scoring, a: map<int, ServiceRecord>, b: map<int, ServiceRecord>,
                                             done: set<int>, n: nat)
    requires n <= |scoring.private|
    requires forall i | i in done :: i in a <==> i in b
    requires forall i | i in done && i in a :: a[i].score.points == b[i].score.points
    ensures PublicPoints(scoring, a, done, n) == PublicPoints(scoring, b, done, n)
  {
    if n == 0 {
    } else {
      PublicPointsFrame(scoring, a, b, done, n - 1);
    }
  }

  // ---------- Ranking ----------

  /** What the comparator sees of a team's points; `nan` is the platform's conversion of not-a-number. */
  function RankKey(points: Float, nan: int): int {
    if points.NaN? then nan else Truncate(points.value)
  }

  /** `order` lists every team once, best first, and every team has its place in it as its position. */
  ghost predicate IsRanking(b: Board, order: seq<int>, nan: int) {
    && (forall j :: 0 <= j < |order| ==> order[j] in b.teams && b.teams[order[j]].position == j + 1)
    && (forall t :: t in b.teams ==> t in order)
    && (forall j, k :: 0 <= j < k < |order| ==>
          RankKey(b.teams[order[j]].points, nan) >= RankKey(b.teams[order[k]].points, nan))
  }

  ghost predicate Ranked(b: Board, nan: int) {
    exists order :: IsRanking(b, order, nan)
  }

  /** A board without its positions. */
  function Unplaced(b: Board): Board {
    b.(teams := map t | t in b.teams :: b.teams[t].(position := 0))
  }

  /** The possible results of summarizing: everything but the order of tied teams is determined. */
  ghost predicate Summarizes(scoring: Scoring, nan: int, ticks: seq<Board>, b: Board) {
    Unplaced(b) == Summary(scoring, ticks) && Ranked(b, nan)
  }

  lemma UnplacedRaw(b: Board, team: int, service: int)
    ensures RawAt(Unplaced(b), team, service) == RawAt(b, team, service)
  {
  }

  lemma SummarizesRaw(scoring: Scoring, nan: int, ticks: seq<Board>, b: Board, team: int, service: int)
    requires Summarizes(scoring, nan, ticks, b)
    ensures RawAt(b, team, service) == SumRaw(ticks, team, service)
  {
    UnplacedRaw(b, team, service);
    SummaryRaw(scoring, ticks, team, service);
  }

  /** Summarizing the whole archive again gives the raw data of one more merge into the last summary. */
  lemma ResummarizingIsMerging(scoring: Scoring, nan: int, ticks: seq<Board>, last: Board, before: Board, after: Board,
                               team: int, service: int)
    requires Summarizes(scoring, nan, ticks, before) && Summarizes(scoring, nan, ticks + [last], after)
    ensures RawAt(after, team, service) == RawAt(MergeBoard(before, last), team, service)
  {
    SummarizesRaw(scoring, nan, ticks, before, team, service);
    SummarizesRaw(scoring, nan, ticks + [last], after, team, service);
    SumRawExtend(ticks, last, team, service);
    MergeBoardRaw(before, last, team, service);
  }

  predicate HasPosition(b: Board, t: int, position: int) {
    t in b.teams && b.teams[t].position == position
  }

  ghost predicate PositionTaken(b: Board, position: int) {
    exists t :: HasPosition(b, t, position)
  }

  /** Positions are a bijection between the teams and 1..n. */
  lemma PositionsAreBijective(b: Board, nan: int)
    requires Ranked(b, nan)
    ensures forall t | t in b.teams :: 1 <= b.teams[t].position <= |b.teams|
    ensures forall s, t, p | HasPosition(b, s, p) && HasPosition(b, t, p) :: s == t
    ensures forall p :: 1 <= p <= |b.teams| ==> PositionTaken(b, p)
  {
    var order :| IsRanking(b, order, nan);
    assert |order| == |b.teams| by {
      DistinctSize(order);
      assert forall t :: t in Elements(order) <==> t in b.teams.Keys;
      assert Elements(order) == b.teams.Keys;
    }
    forall p | 1 <= p <= |b.teams| ensures PositionTaken(b, p) {
      assert HasPosition(b, order[p - 1], p);
    }
    forall t | t in b.teams ensures 1 <= b.teams[t].position <= |b.teams| {
      var j :| 0 <= j < |order| && order[j] == t;
    }
    forall s, t, p | HasPosition(b, s, p) && HasPosition(b, t, p) ensures s == t {
      var j :| 0 <= j < |order| && order[j] == s;
      var k :| 0 <= k < |order| && order[k] == t;
    }
  }

  /** A better position never goes with fewer whole points. */
  lemma PositionsAreSorted(b: Board, nan: int, s: int, t: int)
    requires Ranked(b, nan) && s in b.teams && t in b.teams && b.teams[s].position < b.teams[t].position
    ensures RankKey(b.teams[s].points, nan) >= RankKey(b.teams[t].points, nan)
    ensures b.teams[s].points.Num? && b.teams[t].points.Num? ==>
              Truncate(b.teams[s].points.value) >= Truncate(b.teams[t].points.value)
  {
  }

  /** Two points of difference always decide. */
  lemma TwoPointsDecide(b: Board, nan: int, s: int, t: int)
    requires Ranked(b, nan) && s in b.teams && t in b.teams
    requires b.teams[s].points.Num? && b.teams[t].points.Num?
    requires b.teams[s].points.value >= b.teams[t].points.value + 2.0
    ensures b.teams[s].position < b.teams[t].position
  {
  }

  ghost predicate PlacedBefore(b: Board, s: int, t: int) {
    s in b.teams && t in b.teams && b.teams[s].position < b.teams[t].position
  }

  /** In every ranking of the same board, whatever the sort does with ties, the one team comes before the other. */
  ghost predicate AlwaysBefore(b: Board, nan: int, s: int, t: int) {
    forall other :: Unplaced(other) == Unplaced(b) && Ranked(other, nan) ==> PlacedBefore(other, s, t)
  }

  lemma SamePoints(a: Board, b: Board, t: int)
    requires Unplaced(a) == Unplaced(b)
    ensures t in a.teams <==> t in b.teams
    ensures t in a.teams ==> a.teams[t].(position := 0) == b.teams[t].(position := 0)
  {
    assert t in Unplaced(a).teams <==> t in a.teams;
    assert t in Unplaced(b).teams <==> t in b.teams;
    assert t in a.teams ==> Unplaced(a).teams[t] == a.teams[t].(position := 0);
    assert t in b.teams ==> Unplaced(b).teams[t] == b.teams[t].(position := 0);
  }

  /** Two teams with the same whole points may change places. */
  lemma TiesMaySwap(b: Board, nan: int, s: int, t: int) returns (other: Board)
    requires Ranked(b, nan) && PlacedBefore(b, s, t)
    requires RankKey(b.teams[s].points, nan) <= RankKey(b.teams[t].points, nan)
    ensures Unplaced(other) == Unplaced(b) && Ranked(other, nan) && PlacedBefore(other, t, s)
  {
    var order :| IsRanking(b, order, nan);
    var j :| 0 <= j < |order| && order[j] == s;
    var k :| 0 <= k < |order| && order[k] == t;
    var teams := b.teams[s := b.teams[s].(position := k + 1)][t := b.teams[t].(position := j + 1)];
    other := b.(teams := teams);
    assert Unplaced(other).teams == Unplaced(b).teams;
    SwappedIsRanking(b, other, order, nan, j, k);
  }

  lemma SwappedIsRanking(b: Board, other: Board, order: seq<int>, nan: int, j: nat, k: nat)
    requires IsRanking(b, order, nan) && j < k < |order|
    requires RankKey(b.teams[order[j]].points, nan) <= RankKey(b.teams[order[k]].points, nan)
    requires other.teams == b.teams[order[j] := b.teams[order[j]].(position := k + 1)]
                                   [order[k] := b.teams[order[k]].(position := j + 1)]
    ensures IsRanking(other, order[j := order[k]][k := order[j]], nan)
  {
    var swapped := order[j := order[k]][k := order[j]];
    forall i | 0 <= i < |swapped|
      ensures swapped[i] in other.teams && other.teams[swapped[i]].position == i + 1
      ensures RankKey(other.teams[swapped[i]].points, nan) == RankKey(b.teams[order[i]].points, nan)
    {
      assert b.teams[order[i]].position == i + 1;
    }
    forall t | t in other.teams ensures t in swapped {
      var i :| 0 <= i < |order| && order[i] == t;
      assert swapped[if i == j then k else if i == k then j else i] == t;
    }
  }

  /** Whether the whole part of one amount of points is above that of another; not-a-number counts as `nan`. */
  ghost predicate MorePoints(a: Float, b: Float, nan: int) {
    match (a, b)
    case (Num(x), Num(y)) => Truncate(x) > Truncate(y)
    case (Num(x), NaN) => Truncate(x) > nan
    case (NaN, Num(y)) => nan > Truncate(y)
    case (NaN, NaN) => false
  }

  /** Exactly when the order of two teams is decided: when the one has more whole points than the other. */
  lemma OrderDecidedExactly(b: Board, nan: int, s: int, t: int)
    requires Ranked(b, nan) && s in b.teams && t in b.teams && s != t
    ensures AlwaysBefore(b, nan, s, t) <==> MorePoints(b.teams[s].points, b.teams[t].points, nan)
  {
    if MorePoints(b.teams[s].points, b.teams[t].points, nan) {
      forall other | Unplaced(other) == Unplaced(b) && Ranked(other, nan) ensures PlacedBefore(other, s, t) {
        SamePoints(other, b, s);
        SamePoints(other, b, t);
        DifferentPlaces(other, nan, s, t);
        if PlacedBefore(other, t, s) {
          PositionsAreSorted(other, nan, t, s);
        }
      }
    } else if PlacedBefore(b, s, t) {
      var other := TiesMaySwap(b, nan, s, t);
    }
  }

  lemma DifferentPlaces(b: Board, nan: int, s: int, t: int)
    requires Ranked(b, nan) && s in b.teams && t in b.teams && s != t
    ensures PlacedBefore(b, s, t) || PlacedBefore(b, t, s)
  {
    PositionsAreBijective(b, nan);
    assert HasPosition(b, s, b.teams[s].position) && HasPosition(b, t, b.teams[t].position);
  }
}
