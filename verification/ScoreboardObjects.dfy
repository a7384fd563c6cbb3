/**
  The scoreboard as mutable objects. Every method is proved against the functions on values: the view of the new
  state is the specified function of the view of the old one.
 */
module ScoreboardObjects {
  import opened GoValues
  import opened Scoreboard
  import opened GameRules

  function WithService(b: Board, t: int, i: int, record: ServiceRecord): Board
    requires t in b.teams
  {
    WithServices(b, t, b.teams[t].services[i := record])
  }

  function WithServices(b: Board, t: int, services: map<int, ServiceRecord>): Board
    requires t in b.teams
  {
    b.(teams := b.teams[t := b.teams[t].(services := services)])
  }

  function WithTeam(b: Board, t: int, team: TeamRecord): Board {
    b.(teams := b.teams[t := team])
  }

  function Absorbed(team: TeamRecord, more: TeamRecord): TeamRecord {
    team.(services := MergeServices(team.services, more.services, more.services.Keys))
  }

  function Placed(b: Board, t: int, position: int): Board
    requires t in b.teams
  {
    WithTeam(b, t, b.teams[t].(position := position))
  }

  function ServiceAbsorbed(team: TeamRecord, i: int, more: ServiceRecord): TeamRecord {
    team.(services := team.services[i := MergeService(team.services, i, more)])
  }

  class ServiceState {
    var Name: string
    var Points: Float
    var TickPoints: Float
    var AttackPoints: Float
    var DefensePoints: Float
    var UptimePoints: Float
    var LostFlags: seq<FlagInfo>
    var StolenFlags: seq<FlagInfo>
    var SuccessfulUptimeChecks: nat
    var FailedUptimeChecks: nat
    // The place of this object on its board.
    ghost const team: int
    ghost const id: int

    constructor (ghost team: int, ghost id: int, name: string)
      ensures this.team == team && this.id == id && View() == NewService(name)
    {
      this.team, this.id := team, id;
      Name := name;
      Points, TickPoints, AttackPoints, DefensePoints, UptimePoints := ZERO, ZERO, ZERO, ZERO, ZERO;
      LostFlags, StolenFlags := [], [];
      SuccessfulUptimeChecks, FailedUptimeChecks := 0, 0;
    }

    function RawView(): Raw
      reads this
    {
      Raw(LostFlags, StolenFlags, CheckCounts(SuccessfulUptimeChecks, FailedUptimeChecks))
    }

    function View(): ServiceRecord
      reads this
    {
      ServiceRecord(Name, RawView(), Score(Points, TickPoints, AttackPoints, DefensePoints, UptimePoints))
    }

    /** Add the raw data of another tick to this one. */
    method Absorb(more: ServiceState)
      requires more != this
      modifies this
      ensures View() == old(View()).(raw := old(RawView()).Plus(more.RawView()))
    {
      LostFlags := LostFlags + more.LostFlags;
      StolenFlags := StolenFlags + more.StolenFlags;
      SuccessfulUptimeChecks := SuccessfulUptimeChecks + more.SuccessfulUptimeChecks;
      FailedUptimeChecks := FailedUptimeChecks + more.FailedUptimeChecks;
    }

    /** `setServiceOverallScore` */
    method SetOverallScore(scoring: Scoring)
      modifies this
      ensures View() == old(View()).(score := ServiceScore(scoring, old(RawView())))
    {
      var totalTicks := SuccessfulUptimeChecks + FailedUptimeChecks;
      TickPoints := Num(totalTicks as real * scoring.perTick);
      AttackPoints := Num(|StolenFlags| as real * scoring.perStolenFlag);
      DefensePoints := Num(|LostFlags| as real * scoring.perLostFlag);
      UptimePoints := Ratio(SuccessfulUptimeChecks, totalTicks);
      Points := Mul(Add(Add(TickPoints, AttackPoints), DefensePoints), UptimePoints);
      ghost var raw := RawView();
      ghost var score := ServiceScore(scoring, raw);
      assert totalTicks == raw.Checks() && raw == old(RawView());
      assert TickPoints == score.tick;
      assert AttackPoints == score.attack;
      assert DefensePoints == score.defense;
      assert UptimePoints == score.uptime;
      assert Points == score.points;
    }
  }

  class TeamState {
    var IsBot: bool
    var Name: string
    var Points: Float
    var Position: int
    var Services: map<int, ServiceState>
    ghost const id: int
    ghost var Repr: set<ServiceState>

    constructor (ghost id: int, isBot: bool, name: string)
      ensures this.id == id && Repr == {} && Valid() && View() == NewTeam(isBot, name)
    {
      this.id := id;
      IsBot, Name, Points, Position, Services := isBot, name, ZERO, 0, map[];
      Repr := {};
    }

    ghost predicate Valid()
      reads this
    {
      && (forall i :: i in Services ==> Services[i] in Repr && Services[i].id == i)
      && (forall service :: service in Repr ==> service.team == id)
    }

    ghost function View(): TeamRecord
      requires Valid()
      reads this, Repr
    {
      TeamRecord(IsBot, Name, Points, Position, map i | i in Services :: Services[i].View())
    }

    /** When one service was put in or changed and nothing else, the view has changed in one place. */
    lemma OneServiceReplaced(before: TeamRecord, i: int)
      requires Valid() && i in Services
      requires before == View().(services := before.services) && before.services.Keys + {i} == Services.Keys
      requires forall j :: j in Services && j != i ==> before.services[j] == Services[j].View()
      ensures View() == before.(services := before.services[i := Services[i].View()])
    {
      var view, after := View(), before.services[i := Services[i].View()];
      forall j | j in view.services ensures view.services[j] == after[j] {
        assert j in Services && view.services[j] == Services[j].View();
      }
      assert view.services == after;
    }

    method EnsureService(i: int, name: string)
      requires Valid()
      modifies this
      ensures Valid() && fresh(Repr - old(Repr)) && i in Services
      ensures var before := old(View());
              View() == if i in before.services then before
                        else before.(services := before.services[i := NewService(name)])
    {
      ghost var before := View();
      if i !in Services {
        var blank := new ServiceState(id, i, name);
        Services := Services[i := blank];
        Repr := Repr + {blank};
        OneServiceReplaced(before, i);
      }
    }

    method AbsorbExisting(i: int, more: ServiceState)
      requires Valid() && i in Services && more !in Repr
      modifies Services[i]
      ensures Valid()
      ensures var record := old(View()).services[i];
              View() == old(View()).(services :=
                old(View()).services[i := record.(raw := record.raw.Plus(more.RawView()))])
    {
      ghost var before := View();
      var service := Services[i];
      assert before.services[i] == service.View();
      service.Absorb(more);
      OneServiceReplaced(before, i);
    }

    /** One service of one archived tick is added to the sums. */
    method AbsorbService(i: int, more: ServiceState)
      requires Valid() && more !in Repr
      modifies this, Repr
      ensures Valid() && fresh(Repr - old(Repr))
      ensures View() == ServiceAbsorbed(old(View()), i, more.View())
    {
      ghost var record := more.View();
      EnsureService(i, more.Name);
      assert more.View() == record;
      AbsorbExisting(i, more);
    }

    /** The services of one team of one archived tick are added to the sums, in any order. */
    method Absorb(more: TeamState)
      requires Valid() && more.Valid() && more != this && more.Repr !! Repr
      modifies this, Repr
      ensures Valid() && fresh(Repr - old(Repr))
      ensures View() == Absorbed(old(View()), more.View())
    {
      ghost var before, source, done: set<int> := View(), more.View(), {};
      var todo := more.Services.Keys;
      while todo != {}
        invariant Valid() && fresh(Repr - old(Repr)) && more.Valid() && more.View() == source
        invariant done !! todo && done + todo == more.Services.Keys
        invariant View() == before.(services := MergeServices(before.services, source.services, done))
      {
        var i := Pick(todo);
        MergeServicesStep(before.services, source.services, done, i);
        AbsorbService(i, more.Services[i]);
        todo, done := todo - {i}, done + {i};
      }
      assert done == source.services.Keys;
    }

    method ScoreService(scoring: Scoring, i: int)
      requires Valid() && i in Services
      modifies Services[i]
      ensures Valid() && View() == ServiceScored(scoring, old(View()), i)
    {
      ghost var before := View();
      var service := Services[i];
      service.SetOverallScore(scoring);
      OneServiceReplaced(before, i);
    }

    /** `setTeamOverallScore`: the services are scored and their points added up, in any order. */
    method SetOverallScore(scoring: Scoring)
      requires Valid() && forall i :: i in Services ==> 0 <= i < |scoring.private|
      modifies this`Points, Repr
      ensures Valid() && View() == ScoreTeam(scoring, old(View()))
    {
      ghost var before, done: set<int> := View(), {};
      var score, todo := ZERO, Services.Keys;
      NothingScored(scoring, before, |scoring.private|);
      while todo != {}
        invariant Valid() && Services == old(Services) && Repr == old(Repr)
        invariant done !! todo && done + todo == Services.Keys
        invariant View() == PartlyScored(scoring, before, done)
        invariant score == PublicPoints(scoring, View().services, done, |scoring.private|)
      {
        var i := Pick(todo);
        ScoreStep(scoring, before, done, i);
        ScoreService(scoring, i);
        assert View().services[i] == Services[i].View();
        if !scoring.private[i] {
          score := Add(score, Services[i].Points);
        }
        todo, done := todo - {i}, done + {i};
      }
      assert done == before.services.Keys;
      ghost var services := View().services;
      Points := score;
      assert View().services == services;
    }

    method SetPosition(position: int)
      requires Valid()
      modifies this`Position
      ensures Valid() && View() == old(View()).(position := position)
    {
      ghost var services := View().services;
      Position := position;
      assert View().services == services;
    }
  }

  function ServiceScored(scoring: Scoring, team: TeamRecord, i: int): TeamRecord
    requires i in team.services
  {
    var record := team.services[i];
    team.(services := team.services[i := record.(score := ServiceScore(scoring, record.raw))])
  }

  function PartlyScored(scoring: Scoring, team: TeamRecord, done: set<int>): TeamRecord {
    team.(services := ScoreServices(scoring, team.services, done))
  }

  lemma NothingScored(scoring: Scoring, team: TeamRecord, n: nat)
    requires n <= |scoring.private|
    ensures team == PartlyScored(scoring, team, {}) && PublicPoints(scoring, team.services, {}, n) == ZERO
  {
  }

  /** Scoring one more service changes that service only, and adds its points when it is public. */
  lemma ScoreStep(scoring: Scoring, team: TeamRecord, done: set<int>, i: int)
    requires i in team.services && i !in done && 0 <= i < |scoring.private|
    ensures var before, after := PartlyScored(scoring, team, done), PartlyScored(scoring, team, done + {i});
            var n := |scoring.private|;
            && after == ServiceScored(scoring, before, i)
            && PublicPoints(scoring, after.services, done + {i}, n) ==
               if scoring.private[i] then PublicPoints(scoring, before.services, done, n)
               else Add(PublicPoints(scoring, before.services, done, n), after.services[i].score.points)
  {
    var before, after := ScoreServices(scoring, team.services, done), ScoreServices(scoring, team.services, done + {i});
    assert after == before[i := before[i].(score := ServiceScore(scoring, before[i].raw))];
    PublicPointsExtend(scoring, after, done, i, |scoring.private|);
    PublicPointsFrame(scoring, before, after, done, |scoring.private|);
  }

  lemma MergeServicesStep(acc: map<int, ServiceRecord>, more: map<int, ServiceRecord>, done: set<int>, i: int)
    requires done <= more.Keys && i in more && i !in done
    ensures MergeServices(acc, more, done + {i}) ==
            var merged := MergeServices(acc, more, done); merged[i := MergeService(merged, i, more[i])]
  {
  }

  class ScoreboardState {
    var Tick: int
    var Teams: map<int, TeamState>
    ghost var Repr: set<object>

    constructor (tick: int)
      ensures Valid() && fresh(Repr) && View() == Board(tick, map[])
    {
      Tick, Teams := tick, map[];
      Repr := {this};
    }

    ghost predicate Valid()
      reads this, Repr
      ensures Valid() ==> this in Repr
    {
      && this in Repr
      && forall t :: t in Teams ==>
           && Teams[t] in Repr && Teams[t].id == t && Teams[t].Valid()
           && Teams[t].Repr <= Repr
    }

    ghost function View(): Board
      requires Valid()
      reads this, Repr
    {
      Board(Tick, map t | t in Teams :: Teams[t].View())
    }

    /** An accepted flag, on the thief's side. */
    method AppendStolen(t: int, i: int, f: FlagInfo)
      requires Valid() && t in Teams && i in Teams[t].Services
      modifies Teams[t].Services[i]
      ensures Valid() && View() == AddStolen(old(View()), t, i, f)
    {
      var service := Teams[t].Services[i];
      ghost var before := View();
      service.StolenFlags := service.StolenFlags + [f];
      OneServiceReplaced(before, t, i);
    }

    /** An accepted flag, on the victim's side. */
    method AppendLost(t: int, i: int, f: FlagInfo)
      requires Valid() && t in Teams && i in Teams[t].Services
      modifies Teams[t].Services[i]
      ensures Valid() && View() == AddLost(old(View()), t, i, f)
    {
      var service := Teams[t].Services[i];
      ghost var before := View();
      service.LostFlags := service.LostFlags + [f];
      OneServiceReplaced(before, t, i);
    }

    /** The result of one uptime check. */
    method CountCheck(t: int, i: int, success: bool)
      requires Valid() && t in Teams && i in Teams[t].Services
      modifies Teams[t].Services[i]
      ensures Valid() && View() == AddCheck(old(View()), t, i, success)
    {
      var service := Teams[t].Services[i];
      ghost var before := View();
      if success {
        service.SuccessfulUptimeChecks := service.SuccessfulUptimeChecks + 1;
      } else {
        service.FailedUptimeChecks := service.FailedUptimeChecks + 1;
      }
      assert service.RawView() == RawAt(before, t, i).WithCheck(success);
      OneServiceReplaced(before, t, i);
    }

    /** When one service was put in or changed and nothing else, the view has changed in one place. */
    lemma OneServiceReplaced(before: Board, t: int, i: int)
      requires Valid() && t in Teams && i in Teams[t].Services
      requires before.tick == Tick && before.teams.Keys == Teams.Keys
      requires forall u :: u in Teams && u != t ==> before.teams[u] == Teams[u].View()
      requires before.teams[t] == Teams[t].View().(services := before.teams[t].services)
      requires before.teams[t].services.Keys + {i} == Teams[t].Services.Keys
      requires forall j :: j in Teams[t].Services && j != i ==>
                 before.teams[t].services[j] == Teams[t].Services[j].View()
      ensures View() == WithService(before, t, i, Teams[t].Services[i].View())
    {
      var after := WithService(before, t, i, Teams[t].Services[i].View());
      var team := Teams[t].View();
      forall j | j in team.services ensures team.services[j] == after.teams[t].services[j] {
        assert j in Teams[t].Services && team.services[j] == Teams[t].Services[j].View();
      }
      assert team.services == after.teams[t].services;
      assert team == after.teams[t];
      var view := View();
      forall u | u in view.teams ensures view.teams[u] == after.teams[u] {
        assert u in Teams && view.teams[u] == Teams[u].View();
      }
      assert view.teams == after.teams;
    }

    /** When one team was put in or changed and nothing else, the view has changed in one place. */
    lemma OneTeamReplaced(before: Board, t: int)
      requires Valid() && t in Teams
      requires before.tick == Tick && before.teams.Keys + {t} == Teams.Keys
      requires forall u :: u in Teams && u != t ==> before.teams[u] == Teams[u].View()
      ensures View() == WithTeam(before, t, Teams[t].View())
    {
    }

    /** Service objects of different teams are different. */
    lemma OtherTeams(t: int)
      requires Valid() && t in Teams
      ensures forall u :: u in Teams && u != t ==> Teams[u].Repr !! Teams[t].Repr && Teams[u] != Teams[t]
    {
    }

    method EnsureTeam(t: int, isBot: bool, name: string)
      requires Valid()
      modifies this
      ensures Valid() && fresh(Repr - old(Repr)) && t in Teams
      ensures var before := old(View());
              View() == if t in before.teams then before
                        else WithTeam(before, t, NewTeam(isBot, name))
    {
      ghost var before := View();
      if t !in Teams {
        var blank := new TeamState(t, isBot, name);
        Teams := Teams[t := blank];
        Repr := Repr + {blank};
        OneTeamReplaced(before, t);
      }
    }

    method AbsorbExisting(t: int, more: TeamState)
      requires Valid() && t in Teams && more.Valid() && more !in Repr && more.Repr !! Repr
      modifies Repr
      ensures Valid() && fresh(Repr - old(Repr))
      ensures View() == WithTeam(old(View()), t, Absorbed(old(View()).teams[t], more.View()))
    {
      ghost var before, source := View(), more.View();
      var team := Teams[t];
      OtherTeams(t);
      assert before.teams[t] == team.View();
      team.Absorb(more);
      ghost var after := team.View();
      assert after == Absorbed(before.teams[t], source);
      assert more.View() == source;
      Repr := Repr + team.Repr;
      assert team.View() == after && more.View() == source;
      OneTeamReplaced(before, t);
    }

    /** One team of one archived tick is added to the sums. */
    method AbsorbTeam(t: int, more: TeamState)
      requires Valid() && more.Valid() && more !in Repr && more.Repr !! Repr
      modifies Repr
      ensures Valid() && fresh(Repr - old(Repr))
      ensures View() == WithTeam(old(View()), t, MergeTeam(old(View()).teams, t, more.View()))
    {
      ghost var before, source := View(), more.View();
      EnsureTeam(t, more.IsBot, more.Name);
      assert more.View() == source;
      AbsorbExisting(t, more);
      EnsureThenMerge(before, t, source);
    }

    /** All teams of one archived tick are added to the sums, in any order. */
    method AbsorbTeams(more: ScoreboardState)
      requires Valid() && more.Valid() && more.Repr !! Repr
      modifies Repr
      ensures Valid() && fresh(Repr - old(Repr))
      ensures View() == old(View()).(teams := MergeTeams(old(View()).teams, more.View().teams, more.View().teams.Keys))
    {
      ghost var before, source, done: set<int> := View(), more.View(), {};
      var todo := more.Teams.Keys;
      while todo != {}
        invariant Valid() && fresh(Repr - old(Repr)) && more.Valid() && more.View() == source
        invariant done !! todo && done + todo == more.Teams.Keys
        invariant View() == before.(teams := MergeTeams(before.teams, source.teams, done))
      {
        var t := Pick(todo);
        MergeTeamsStep(before.teams, source.teams, done, t);
        AbsorbTeam(t, more.Teams[t]);
        todo, done := todo - {t}, done + {t};
      }
      assert done == source.teams.Keys;
    }

    /** `summarizeState`, one archived tick. */
    method Absorb(more: ScoreboardState)
      requires Valid() && more.Valid() && more.Repr !! Repr
      modifies Repr
      ensures Valid() && fresh(Repr - old(Repr))
      ensures View() == MergeBoard(old(View()), more.View())
    {
      ghost var before, source := View(), more.View();
      AbsorbTeams(more);
      RaiseTick(more.Tick);
      assert more.View() == source;
    }

    method ScoreTeamAt(scoring: Scoring, t: int)
      requires Valid() && t in Teams && forall i :: i in Teams[t].Services ==> 0 <= i < |scoring.private|
      modifies Repr
      ensures Valid() && Repr == old(Repr)
      ensures View() == WithTeam(old(View()), t, ScoreTeam(scoring, old(View()).teams[t]))
    {
      ghost var before := View();
      var team := Teams[t];
      OtherTeams(t);
      team.SetOverallScore(scoring);
      OneTeamReplaced(before, t);
    }

    /** A team that was built apart takes its place on the board. */
    method PutTeam(t: int, team: TeamState)
      requires Valid() && team.Valid() && team.id == t
      requires team !in Repr
      modifies this
      ensures Valid() && Repr == old(Repr) + {team} + team.Repr
      ensures View() == WithTeam(old(View()), t, old(team.View()))
    {
      ghost var before := View();
      Teams := Teams[t := team];
      Repr := Repr + {team} + team.Repr;
      OneTeamReplaced(before, t);
    }

    method PlaceTeam(t: int, position: int)
      requires Valid() && t in Teams
      modifies Teams[t]
      ensures Valid() && View() == Placed(old(View()), t, position)
    {
      ghost var before := View();
      var team := Teams[t];
      OtherTeams(t);
      team.SetPosition(position);
      OneTeamReplaced(before, t);
    }

    method RaiseTick(tick: int)
      requires Valid()
      modifies this`Tick
      ensures Valid() && View() == old(View()).(tick := if tick > old(Tick) then tick else old(Tick))
    {
      ghost var before := View();
      if tick > Tick {
        Tick := tick;
      }
      assert View().teams == before.teams;
    }
  }

  /** Putting in a new team if there is none, then adding the services: that is merging the team. */
  lemma EnsureThenMerge(b: Board, t: int, more: TeamRecord)
    ensures var mid := if t in b.teams then b else WithTeam(b, t, NewTeam(more.isBot, more.name));
            WithTeam(mid, t, Absorbed(mid.teams[t], more)) == WithTeam(b, t, MergeTeam(b.teams, t, more))
  {
  }

  lemma MergeTeamsStep(acc: map<int, TeamRecord>, more: map<int, TeamRecord>, done: set<int>, t: int)
    requires done <= more.Keys && t in more && t !in done
    ensures MergeTeams(acc, more, done + {t}) ==
            var merged := MergeTeams(acc, more, done); merged[t := MergeTeam(merged, t, more[t])]
  {
  }
}
